/** The storage area of a queue (queue.c): a ring of equally sized slots in a byte array,
    with wrapping write and read pointers, proved to be a bounded double-ended queue. */
module QueueStorage {
  import opened Indices
  import opened Options

  datatype Position = SEND_TO_BACK | SEND_TO_FRONT | OVERWRITE

  type Item = seq<bv8>

  /** a in [0, 2n) taken modulo n. */
  function Wrap(a: nat, n: nat): nat {
    if a >= n then a - n else a
  }

  lemma SlotOrder(j: nat, k: nat, n: nat, size: nat)
    requires j < k < n
    ensures j * size + size <= k * size && k * size + size <= n * size
    ensures j * size >= 0
  {
    MulMono(j + 1, k, size);
    MulMono(k + 1, n, size);
  }

  lemma SlotInside(k: nat, n: nat, size: nat)
    requires k < n
    ensures 0 <= k * size && k * size + size <= n * size
  {
    MulMono(k + 1, n, size);
  }

  /** Bytes written to slot k leave slot j as it was, unless it is the same. */
  lemma OneSlot(before: seq<bv8>, after: seq<bv8>, n: nat, size: nat, k: nat, item: Item, j: nat)
    requires |before| == |after| == n * size && k < n && j < n && |item| == size
    requires forall b :: 0 <= b < |after| ==>
               after[b] == if k * size <= b < k * size + size then item[b - k * size] else before[b]
    ensures 0 <= j * size && j * size + size <= n * size
    ensures after[j * size..j * size + size] == if j == k then item else before[j * size..j * size + size]
  {
    SlotInside(j, n, size);
    if j < k {
      SlotOrder(j, k, n, size);
    } else if k < j {
      SlotOrder(k, j, n, size);
    }
  }

  /** Stepping a pointer one slot forward, with wrap-around at the tail. */
  lemma StepForward(k: nat, n: nat, size: nat)
    requires k < n && size > 0
    ensures (if k * size + size >= n * size then 0 else k * size + size) == Wrap(k + 1, n) * size
  {
    assert (k + 1) * size == k * size + size;
    MulMono(k + 1, n, size);
    if k + 1 < n {
      MulMono(k + 2, n, size);
      assert (k + 2) * size == k * size + size + size;
    }
  }

  /** And one slot back, with wrap-around at the head. */
  lemma StepBack(k: nat, n: nat, size: nat)
    requires k < n && size > 0
    ensures (if k * size - size < 0 then n * size - size else k * size - size)
         == (if k == 0 then n - 1 else k - 1) * size
  {
    assert (n - 1) * size == n * size - size;
    if k > 0 {
      assert (k - 1) * size == k * size - size;
      MulMono(0, k - 1, size);
    }
  }

  /** Moving the read slot back moves the head back and leaves the write slot in place. */
  lemma HeadMovesBack(r: nat, n: nat, m: nat)
    requires r < n && m < n
    ensures var f := if r == 0 then n - 1 else r - 1;
            Wrap(f + 1, n) == r && Wrap(Wrap(f + 1, n) + (m + 1), n) == Wrap(Wrap(r + 1, n) + m, n)
    ensures n == 1 ==> Wrap(Wrap(r + 1, n) + m, n) == 0
  {
  }

  /** The head is a slot, and the one before it is the last one read. */
  lemma HeadInside(r: nat, n: nat)
    requires r < n
    ensures var h := Wrap(r + 1, n); h < n && r == if h == 0 then n - 1 else h - 1
  {
  }

  lemma TailMovesOn(h: nat, n: nat, m: nat)
    requires h < n && m < n
    ensures var w := Wrap(h + m, n); w < n && Wrap(w + 1, n) == Wrap(h + (m + 1), n) < n
  {
  }

  /** The m items of a ring of n slots, from slot h on. */
  function ItemsFrom(slots: seq<Item>, h: nat, m: nat): (c: seq<Item>)
    requires h < |slots| && m <= |slots|
    ensures |c| == m && forall i {:trigger c[i]} :: 0 <= i < m ==> c[i] == slots[Wrap(h + i, |slots|)]
  {
    seq(m, i requires 0 <= i < m => slots[Wrap(h + i, |slots|)])
  }

  lemma PushBack(slots: seq<Item>, h: nat, m: nat, x: Item)
    requires h < |slots| && m < |slots|
    ensures ItemsFrom(slots[Wrap(h + m, |slots|) := x], h, m + 1) == ItemsFrom(slots, h, m) + [x]
  {
  }

  lemma PushFront(slots: seq<Item>, h: nat, m: nat, x: Item)
    requires h < |slots| && m < |slots|
    ensures var f := if h == 0 then |slots| - 1 else h - 1;
            ItemsFrom(slots[f := x], f, m + 1) == [x] + ItemsFrom(slots, h, m)
  {
  }

  lemma PopFront(slots: seq<Item>, h: nat, m: nat)
    requires h < |slots| && 0 < m <= |slots|
    ensures ItemsFrom(slots, h, m)[0] == slots[h]
    ensures ItemsFrom(slots, Wrap(h + 1, |slots|), m - 1) == ItemsFrom(slots, h, m)[1..]
  {
  }

  // ---- What a send asks for and what it does --------------------------------------------------

  function Asked(c: seq<Item>, item: Item, position: Position): seq<Item> {
    match position
    case SEND_TO_BACK => c + [item]
    case SEND_TO_FRONT => [item] + c
    case OVERWRITE => [item]
  }

  /** An item of size 0 overwrites nothing: it is one more in the 8-bit count. */
  function Sent(c: seq<Item>, item: Item, position: Position): seq<Item> {
    if position == OVERWRITE && item == [] then if |c| < 0xFF then c + [item] else []
    else Asked(c, item, position)
  }

  /** A send does what it asks for, and stays within the length, except exactly when it is to
      overwrite an item of size 0. */
  lemma SentIsAsked(c: seq<Item>, item: Item, position: Position, length: nat)
    requires |c| < 0x100 && (if position == OVERWRITE then length == 1 else |c| < length)
    ensures (Sent(c, item, position) == Asked(c, item, position) && |Sent(c, item, position)| <= length)
            <==> !(position == OVERWRITE && item == [] && |c| > 0)
  {
    if position == OVERWRITE && item == [] && c == [] {
      assert c + [item] == [item];
    }
  }

  /** Such an overwrite leaves two items in a queue of length one. */
  lemma OverwriteOverfills()
    ensures Sent([[]], [], OVERWRITE) == [[], []]
  {
  }

  class Queue {
    const data: array<bv8>
    const uxLength: nat
    const uxItemSize: nat
    /** Byte offsets from pcHead. */
    var pcWriteTo: int
    var pcReadFrom: int
    var uxMessagesWaiting: nat
    /** The slots as stored, and the slots the two pointers are at. */
    ghost var slots: seq<Item>
    ghost var w: nat
    ghost var r: nat

    /** The slots are what the bytes say. */
    ghost predicate Stored()
      requires |slots| == uxLength
      reads this`slots, data
    {
      forall k {:trigger slots[k]} :: 0 <= k < uxLength ==>
           && 0 <= k * uxItemSize && k * uxItemSize + uxItemSize <= data.Length
           && data[k * uxItemSize..k * uxItemSize + uxItemSize] == slots[k]
    }

    ghost predicate Valid()
      reads this, data
    {
      && 0 < uxLength < 0x100 && uxMessagesWaiting < 0x100
      && (uxItemSize > 0 || uxLength > 1 ==> uxMessagesWaiting <= uxLength)
      && |slots| == uxLength && data.Length == uxLength * uxItemSize && Stored()
      && w < uxLength && r < uxLength
      && pcWriteTo == w * uxItemSize && pcReadFrom == r * uxItemSize
      && (uxItemSize > 0 ==> w == Wrap(Head() + uxMessagesWaiting, uxLength))
    }

    /** The slot of the oldest item: one past the last one read. */
    ghost function Head(): nat
      reads this`r
    {
      Wrap(r + 1, uxLength)
    }

    /** The items in the queue, oldest first.  Items of size 0 are only counted. */
    ghost function Contents(): (c: seq<Item>)
      requires Valid()
      reads this, data
      ensures |c| == uxMessagesWaiting
    {
      if uxItemSize == 0 then seq(uxMessagesWaiting, i => []) else ItemsFrom(slots, Head(), uxMessagesWaiting)
    }

    /** xQueueGenericReset of a new queue. */
    constructor (length: nat, itemSize: nat)
      requires 0 < length < 0x100
      ensures Valid() && fresh(data) && uxLength == length && uxItemSize == itemSize && Contents() == []
    {
      uxLength, uxItemSize := length, itemSize;
      data := new bv8[length * itemSize];
      uxMessagesWaiting := 0;
      pcWriteTo := 0;
      pcReadFrom := (length - 1) * itemSize;
      w, r := 0, length - 1;
      new;
      forall k | 0 <= k < length
        ensures 0 <= k * itemSize && k * itemSize + itemSize <= length * itemSize
      {
        SlotInside(k, length, itemSize);
      }
      slots := seq(length, k requires 0 <= k < length reads data
                   requires 0 <= k * itemSize <= k * itemSize + itemSize <= data.Length =>
                     data[k * itemSize..k * itemSize + itemSize]);
    }

    /** xQueueGenericReset of a queue in use. */
    method Reset()
      requires Valid()
      modifies this`uxMessagesWaiting, this`pcWriteTo, this`pcReadFrom, this`w, this`r
      ensures Valid() && Contents() == []
    {
      uxMessagesWaiting := 0;
      pcWriteTo := 0;
      pcReadFrom := (uxLength - 1) * uxItemSize;
      w, r := 0, uxLength - 1;
    }

    method MemCpy(at: nat, item: Item)
      requires at + |item| <= data.Length
      modifies data
      ensures forall b :: 0 <= b < data.Length ==>
                data[b] == if at <= b < at + |item| then item[b - at] else old(data[b])
    {
      for i := 0 to |item|
        invariant forall b :: 0 <= b < data.Length ==>
                    data[b] == if at <= b < at + i then item[b - at] else old(data[b])
      {
        data[at + i] := item[i];
      }
    }

    /** memcpy of an item into slot k. */
    method WriteSlot(at: nat, item: Item, ghost k: nat)
      requires |slots| == uxLength && data.Length == uxLength * uxItemSize && Stored()
      requires k < uxLength && at == k * uxItemSize && |item| == uxItemSize
      modifies this`slots, data
      ensures slots == old(slots)[k := item] && Stored()
    {
      SlotInside(k, uxLength, uxItemSize);
      ghost var before, size := data[..], uxItemSize;
      MemCpy(at, item);
      forall j | 0 <= j < uxLength
        ensures 0 <= j * size && j * size + size <= data.Length
        ensures data[j * size..j * size + size] == slots[k := item][j]
      {
        ghost var s := slots[j];
        OneSlot(before, data[..], uxLength, size, k, item, j);
        assert data[j * size..j * size + size] == data[..][j * size..j * size + size];
      }
      slots := slots[k := item];
    }

    /** pcReadFrom -= uxItemSize, round the head. */
    method StepReadBack()
      requires r < uxLength && uxItemSize > 0 && pcReadFrom == r * uxItemSize
      modifies this`pcReadFrom, this`r
      ensures r == (if old(r) == 0 then uxLength - 1 else old(r) - 1) && pcReadFrom == r * uxItemSize
    {
      StepBack(r, uxLength, uxItemSize);
      pcReadFrom := pcReadFrom - uxItemSize;
      if pcReadFrom < 0 {
        pcReadFrom := uxLength * uxItemSize - uxItemSize;
      }
      r := if r == 0 then uxLength - 1 else r - 1;
    }

    /** The back branch of prvCopyDataToQueue. */
    method CopyToBack(item: Item)
      requires Valid() && |item| == uxItemSize > 0 && uxMessagesWaiting < uxLength
      modifies this, data
      ensures Valid() && Contents() == old(Contents()) + [item]
    {
      hide Stored, ItemsFrom, Wrap;
      HeadInside(r, uxLength);
      TailMovesOn(Head(), uxLength, uxMessagesWaiting);
      StepForward(w, uxLength, uxItemSize);
      PushBack(slots, Head(), uxMessagesWaiting, item);
      WriteSlot(pcWriteTo, item, w);
      pcWriteTo := pcWriteTo + uxItemSize;
      if pcWriteTo >= uxLength * uxItemSize {
        pcWriteTo := 0;
      }
      w := Wrap(w + 1, uxLength);
      uxMessagesWaiting := uxMessagesWaiting + 1;
    }

    /** The front branch: a new item in front, or, in a queue of length one, instead. */
    method CopyToFront(item: Item, overwrite: bool)
      requires Valid() && |item| == uxItemSize > 0
      requires if overwrite then uxLength == 1 else uxMessagesWaiting < uxLength
      modifies this, data
      ensures Valid() && Contents() == if overwrite then [item] else [item] + old(Contents())
    {
      hide Stored, ItemsFrom, Wrap;
      HeadInside(r, uxLength);
      ghost var m := if overwrite then 0 else uxMessagesWaiting;
      PushFront(slots, Head(), m, item);
      HeadMovesBack(r, uxLength, m);
      WriteSlot(pcReadFrom, item, r);
      StepReadBack();
      if overwrite {
        if uxMessagesWaiting > 0 {
          uxMessagesWaiting := uxMessagesWaiting - 1;
        }
      }
      uxMessagesWaiting := uxMessagesWaiting + 1;
    }

    /** prvCopyDataToQueue for a queue that is not a mutex. */
    method CopyDataToQueue(item: Item, position: Position)
      requires Valid() && |item| == uxItemSize
      requires if position == OVERWRITE then uxLength == 1 else uxMessagesWaiting < uxLength
      modifies this, data
      ensures Valid() && Contents() == Sent(old(Contents()), item, position)
      ensures position == SEND_TO_BACK ==> Contents() == old(Contents()) + [item]
      ensures position == SEND_TO_FRONT ==> Contents() == [item] + old(Contents())
      ensures position == OVERWRITE && uxItemSize > 0 ==> Contents() == [item]
    {
      if uxItemSize == 0 {
        uxMessagesWaiting := (uxMessagesWaiting + 1) % 0x100;
      } else if position == SEND_TO_BACK {
        hide Valid;
        CopyToBack(item);
      } else {
        hide Valid;
        CopyToFront(item, position == OVERWRITE);
      }
    }

    /** The first critical section of xQueueGenericSend with no block time. */
    method Send(item: Item, position: Position) returns (ok: bool)
      requires Valid() && |item| == uxItemSize && (position == OVERWRITE ==> uxLength == 1)
      modifies this, data
      ensures Valid()
      ensures ok <==> |old(Contents())| < uxLength || position == OVERWRITE
      ensures !ok ==> Contents() == old(Contents())
      ensures ok ==> Contents() == Sent(old(Contents()), item, position)
      ensures ok ==>
                ((Contents() == Asked(old(Contents()), item, position) && |Contents()| <= uxLength) <==>
                 !(position == OVERWRITE && uxItemSize == 0 && old(uxMessagesWaiting) > 0))
      ensures ok && position == SEND_TO_BACK ==> Contents() == old(Contents()) + [item]
      ensures ok && position == SEND_TO_FRONT ==> Contents() == [item] + old(Contents())
      ensures ok && position == OVERWRITE && uxItemSize > 0 ==> Contents() == [item]
    {
      ok := uxMessagesWaiting < uxLength || position == OVERWRITE;
      if ok {
        SentIsAsked(Contents(), item, position, uxLength);
        CopyDataToQueue(item, position);
      }
    }

    /** prvCopyDataFromQueue. */
    method CopyDataFromQueue() returns (item: Item)
      requires Valid() && uxMessagesWaiting > 0
      modifies this`pcReadFrom, this`r
      ensures item == old(Contents())[0]
      ensures r == (if uxItemSize == 0 then old(r) else old(Head())) && pcReadFrom == r * uxItemSize
    {
      hide ItemsFrom;
      item := [];
      if uxItemSize != 0 {
        StepForward(r, uxLength, uxItemSize);
        SlotInside(Head(), uxLength, uxItemSize);
        PopFront(slots, Head(), uxMessagesWaiting);
        pcReadFrom := pcReadFrom + uxItemSize;
        if pcReadFrom >= uxLength * uxItemSize {
          pcReadFrom := 0;
        }
        r := Wrap(r + 1, uxLength);
        ghost var s := slots[r];
        item := data[pcReadFrom..pcReadFrom + uxItemSize];
      }
    }

    /** The first critical section of xQueueGenericReceive with no block time. */
    method Receive(justPeeking: bool) returns (ok: bool, item: Item)
      requires Valid()
      modifies this
      ensures Valid()
      ensures ok <==> old(Contents()) != []
      ensures !ok ==> Contents() == old(Contents())
      ensures ok ==> item == old(Contents())[0]
      ensures ok ==> Contents() == if justPeeking then old(Contents()) else old(Contents())[1..]
    {
      hide Stored, ItemsFrom;
      item := [];
      ok := uxMessagesWaiting > 0;
      if ok {
        var pcOriginalReadPosition := pcReadFrom;
        ghost var originalR := r;
        if uxItemSize > 0 {
          PopFront(slots, Head(), uxMessagesWaiting);
        }
        item := CopyDataFromQueue();
        if !justPeeking {
          uxMessagesWaiting := uxMessagesWaiting - 1;
        } else {
          pcReadFrom := pcOriginalReadPosition;
          r := originalR;
        }
      }
    }
  }

  /** First in, first out, for any senders to the back and any receivers: what they received,
      and then what is left, is what was in the queue, and then what they sent. */
  method Exchange(q: Queue, calls: seq<Option<Item>>) returns (sent: seq<Item>, received: seq<Item>)
    requires q.Valid() && forall i :: 0 <= i < |calls| && calls[i].Some? ==> |calls[i].value| == q.uxItemSize
    modifies q, q.data
    ensures q.Valid() && received + q.Contents() == old(q.Contents()) + sent
  {
    hide Queue.Valid, Queue.Contents;
    sent, received := [], [];
    for i := 0 to |calls|
      invariant q.Valid() && received + q.Contents() == old(q.Contents()) + sent
    {
      ghost var c := q.Contents();
      if calls[i].Some? {
        var ok := q.Send(calls[i].value, SEND_TO_BACK);
        if ok {
          assert received + (c + [calls[i].value]) == received + c + [calls[i].value];
          sent := sent + [calls[i].value];
        }
      } else {
        var ok, item := q.Receive(false);
        if ok {
          assert received + c == received + [item] + c[1..];
          received := received + [item];
        }
      }
    }
  }

  /** What is sent to the front is received next. */
  method SendUrgent(q: Queue, item: Item) returns (ok: bool, next: Item)
    requires q.Valid() && |item| == q.uxItemSize
    modifies q, q.data
    ensures q.Valid() && q.Contents() == old(q.Contents())
    ensures ok <==> |old(q.Contents())| < q.uxLength
    ensures ok ==> next == item
  {
    hide Queue.Valid, Queue.Contents;
    next := [];
    ok := q.Send(item, SEND_TO_FRONT);
    if ok {
      ok, next := q.Receive(false);
    }
  }
}
