/** list.c: intrusive circular doubly linked lists with an end marker, proved to be the
    rings of module Ring. */
module LinkedList {
  import opened Ring

  /** `unsigned int` is 16 bits. */
  const portMAX_DELAY: nat := 0xFFFF

  class ListItem {
    var xItemValue: nat
    var pxNext: ListItem?
    var pxPrevious: ListItem?
    var pvOwner: int
    var pvContainer: List?

    /** vListInitialiseItem, plus the two listSET macros every caller uses. */
    constructor (value: nat, owner: int)
      ensures pvContainer == null && xItemValue == value && pvOwner == owner
    {
      xItemValue, pvOwner := value, owner;
      pxNext, pxPrevious, pvContainer := null, null, null;
    }
  }

  // ---- Links -------------------------------------------------------------------------

  ghost function Succ(i: nat, n: nat): nat {
    if i + 1 == n then 0 else i + 1
  }

  ghost function Pred(i: nat, n: nat): nat
    requires i < n
  {
    if i == 0 then n - 1 else i - 1
  }

  /** The two pointer fields of each node. */
  ghost function Nexts(nodes: seq<ListItem>): (f: seq<ListItem?>)
    reads nodes
  {
    seq(|nodes|, i requires 0 <= i < |nodes| reads nodes => nodes[i].pxNext)
  }

  ghost function Previouses(nodes: seq<ListItem>): (f: seq<ListItem?>)
    reads nodes
  {
    seq(|nodes|, i requires 0 <= i < |nodes| reads nodes => nodes[i].pxPrevious)
  }

  ghost predicate Forward(nodes: seq<ListItem>, next: seq<ListItem?>) {
    |next| == |nodes| && forall i {:trigger next[i]} :: 0 <= i < |nodes| ==> next[i] == nodes[Succ(i, |nodes|)]
  }

  ghost predicate Backward(nodes: seq<ListItem>, prev: seq<ListItem?>) {
    |prev| == |nodes| && forall i {:trigger prev[i]} :: 0 <= i < |nodes| ==> prev[i] == nodes[Pred(i, |nodes|)]
  }

  ghost predicate Distinct(nodes: seq<ListItem>) {
    forall i, j :: 0 <= i < j < |nodes| ==> nodes[i] != nodes[j]
  }

  /** pxNext and pxPrevious are inverse and go once round distinct nodes. */
  ghost predicate Circle(nodes: seq<ListItem>)
    reads nodes`pxNext, nodes`pxPrevious
  {
    && Distinct(nodes)
    && (forall i {:trigger nodes[i].pxNext} :: 0 <= i < |nodes| ==> nodes[i].pxNext == nodes[Succ(i, |nodes|)])
    && (forall i {:trigger nodes[i].pxPrevious} :: 0 <= i < |nodes| ==>
          nodes[i].pxPrevious == nodes[Pred(i, |nodes|)])
  }

  lemma CircleDistinct(nodes: seq<ListItem>)
    requires Circle(nodes)
    ensures Distinct(nodes)
  {
  }

  lemma CircleLinks(nodes: seq<ListItem>)
    requires Circle(nodes)
    ensures Forward(nodes, Nexts(nodes)) && Backward(nodes, Previouses(nodes))
  {
  }

  ghost function Spliced<T>(s: seq<T>, pos: nat, x: T): (r: seq<T>)
    requires pos < |s|
    ensures |r| == |s| + 1
    ensures forall i {:trigger r[i]} :: 0 <= i < |r| ==>
              r[i] == if i <= pos then s[i] else if i == pos + 1 then x else s[i - 1]
  {
    s[..pos + 1] + [x] + s[pos + 1..]
  }

  ghost function Without<T>(s: seq<T>, pos: nat): (r: seq<T>)
    requires pos < |s|
    ensures |r| == |s| - 1
    ensures forall i {:trigger r[i]} :: 0 <= i < |r| ==> r[i] == if i < pos then s[i] else s[i + 1]
  {
    s[..pos] + s[pos + 1..]
  }

  lemma AbsSpliced<T>(s: seq<T>, pos: nat, x: T)
    requires pos < |s|
    ensures Spliced(s, pos, x)[1..] == s[1..][..pos] + [x] + s[1..][pos..]
  {
  }

  lemma AbsWithout<T>(s: seq<T>, k: nat)
    requires k + 1 < |s|
    ensures Without(s, k + 1)[1..] == s[1..][..k] + s[1..][k + 1..]
  {
  }

  lemma InsertEndIs<T>(r: Ring<T>, x: T)
    requires r.Valid()
    ensures var pos := Pred(r.index, |r.items| + 1);
            r.InsertEnd(x) == Ring(r.items[..pos] + [x] + r.items[pos..], if r.index == 0 then 0 else r.index + 1)
  {
  }

  lemma ForwardSpliced(nodes: seq<ListItem>, next: seq<ListItem?>, pos: nat, item: ListItem)
    requires Forward(nodes, next) && pos < |nodes|
    ensures Forward(Spliced(nodes, pos, item), Spliced(next, pos, next[pos])[pos := item])
  {
    var m, f := Spliced(nodes, pos, item), Spliced(next, pos, next[pos])[pos := item];
    forall i | 0 <= i < |m|
      ensures f[i] == m[Succ(i, |m|)]
    {
      var k := if i <= pos then i else i - 1;
      assert next[k] == nodes[Succ(k, |nodes|)];
    }
  }

  lemma BackwardSpliced(nodes: seq<ListItem>, prev: seq<ListItem?>, pos: nat, item: ListItem)
    requires Backward(nodes, prev) && pos < |nodes|
    ensures Backward(Spliced(nodes, pos, item),
                     Spliced(prev, pos, nodes[pos])[Succ(pos + 1, |nodes| + 1) := item])
  {
    var m, f := Spliced(nodes, pos, item), Spliced(prev, pos, nodes[pos])[Succ(pos + 1, |nodes| + 1) := item];
    forall i | 0 <= i < |m|
      ensures f[i] == m[Pred(i, |m|)]
    {
      var k := if i <= pos then i else i - 1;
      assert prev[k] == nodes[Pred(k, |nodes|)];
    }
  }

  lemma ForwardWithout(nodes: seq<ListItem>, next: seq<ListItem?>, pos: nat)
    requires Forward(nodes, next) && 0 < pos < |nodes|
    ensures Forward(Without(nodes, pos), Without(next, pos)[pos - 1 := next[pos]])
  {
    var m, f := Without(nodes, pos), Without(next, pos)[pos - 1 := next[pos]];
    forall i | 0 <= i < |m|
      ensures f[i] == m[Succ(i, |m|)]
    {
      var k := if i < pos - 1 then i else i + 1;
      assert next[k] == nodes[Succ(k, |nodes|)];
    }
  }

  lemma BackwardWithout(nodes: seq<ListItem>, prev: seq<ListItem?>, pos: nat)
    requires Backward(nodes, prev) && 0 < pos < |nodes|
    ensures Backward(Without(nodes, pos), Without(prev, pos)[Succ(pos - 1, |nodes| - 1) := prev[pos]])
  {
    var m, f := Without(nodes, pos), Without(prev, pos)[Succ(pos - 1, |nodes| - 1) := prev[pos]];
    forall i | 0 <= i < |m|
      ensures f[i] == m[Pred(i, |m|)]
    {
      var k := if i < pos then i else i + 1;
      assert prev[k] == nodes[Pred(k, |nodes|)];
      assert prev[pos] == nodes[Pred(pos, |nodes|)];
    }
  }

  /** The pointer writes of vListInsertEnd: item goes in front of index. */
  method LinkBefore(index: ListItem, item: ListItem, ghost nodes: seq<ListItem>, ghost pos: nat, ghost prev: ListItem)
    requires Circle(nodes) && item !in nodes && pos < |nodes|
    requires nodes[pos] == prev && nodes[Succ(pos, |nodes|)] == index
    modifies item`pxNext, item`pxPrevious, prev`pxNext, index`pxPrevious
    ensures Circle(Spliced(nodes, pos, item))
  {
    ghost var f, b := Nexts(nodes), Previouses(nodes);
    CircleLinks(nodes);
    item.pxNext := index;
    item.pxPrevious := index.pxPrevious;
    index.pxPrevious.pxNext := item;
    index.pxPrevious := item;
    LinkedIn(nodes, f, b, pos, item);
  }

  /** The pointer writes of vListInsert: item goes behind place. */
  method LinkAfter(place: ListItem, item: ListItem, ghost nodes: seq<ListItem>, ghost pos: nat, ghost next: ListItem)
    requires Circle(nodes) && item !in nodes && pos < |nodes|
    requires nodes[pos] == place && nodes[Succ(pos, |nodes|)] == next
    modifies item`pxNext, item`pxPrevious, place`pxNext, next`pxPrevious
    ensures Circle(Spliced(nodes, pos, item))
  {
    ghost var f, b := Nexts(nodes), Previouses(nodes);
    CircleLinks(nodes);
    item.pxNext := place.pxNext;
    item.pxNext.pxPrevious := item;
    item.pxPrevious := place;
    place.pxNext := item;
    LinkedIn(nodes, f, b, pos, item);
  }

  /** The four fields that an insertion must have written, starting from links f and b. */
  lemma LinkedIn(nodes: seq<ListItem>, f: seq<ListItem?>, b: seq<ListItem?>, pos: nat, item: ListItem)
    requires Distinct(nodes) && Forward(nodes, f) && Backward(nodes, b) && item !in nodes && pos < |nodes|
    requires nodes[pos].pxNext == item && item.pxNext == f[pos]
    requires nodes[Succ(pos, |nodes|)].pxPrevious == item && item.pxPrevious == nodes[pos]
    requires forall i {:trigger f[i]} :: 0 <= i < |nodes| && i != pos ==> nodes[i].pxNext == f[i]
    requires forall i {:trigger b[i]} :: 0 <= i < |nodes| && i != Succ(pos, |nodes|) ==> nodes[i].pxPrevious == b[i]
    ensures Circle(Spliced(nodes, pos, item))
  {
    var m := Spliced(nodes, pos, item);
    ForwardSpliced(nodes, f, pos, item);
    BackwardSpliced(nodes, b, pos, item);
    SplicedDistinct(nodes, pos, item);
    hide Forward, Backward, Distinct, Circle;
    var f', b' := Spliced(f, pos, f[pos])[pos := item], Spliced(b, pos, nodes[pos])[Succ(pos + 1, |m|) := item];
    forall i | 0 <= i < |m|
      ensures m[i].pxNext == f'[i] && m[i].pxPrevious == b'[i]
    {
      var k := if i <= pos then i else i - 1;
      var _, _ := f[k], b[k];
    }
    CircleFrom(m, f', b');
  }

  lemma SplicedDistinct(nodes: seq<ListItem>, pos: nat, item: ListItem)
    requires Distinct(nodes) && item !in nodes && pos < |nodes|
    ensures Distinct(Spliced(nodes, pos, item))
  {
  }

  lemma CircleFrom(nodes: seq<ListItem>, f: seq<ListItem?>, b: seq<ListItem?>)
    requires Distinct(nodes) && Forward(nodes, f) && Backward(nodes, b) && |f| == |b| == |nodes|
    requires forall i {:trigger f[i]} :: 0 <= i < |nodes| ==> nodes[i].pxNext == f[i]
    requires forall i {:trigger b[i]} :: 0 <= i < |nodes| ==> nodes[i].pxPrevious == b[i]
    ensures Circle(nodes)
  {
    forall i | 0 <= i < |nodes|
      ensures nodes[i].pxNext == nodes[Succ(i, |nodes|)] && nodes[i].pxPrevious == nodes[Pred(i, |nodes|)]
    {
      assert nodes[i].pxNext == f[i] && nodes[i].pxPrevious == b[i];
    }
  }

  /** The pointer writes of uxListRemove. */
  method Unlink(item: ListItem, ghost nodes: seq<ListItem>, ghost pos: nat, ghost prev: ListItem, ghost next: ListItem)
    requires Circle(nodes) && 0 < pos < |nodes| && nodes[pos] == item
    requires nodes[pos - 1] == prev && nodes[Succ(pos, |nodes|)] == next
    modifies prev`pxNext, next`pxPrevious
    ensures Circle(Without(nodes, pos))
    ensures item.pxPrevious == prev
  {
    ghost var f, b := Nexts(nodes), Previouses(nodes);
    CircleLinks(nodes);
    item.pxNext.pxPrevious := item.pxPrevious;
    item.pxPrevious.pxNext := item.pxNext;
    LinkedOut(nodes, f, b, pos);
  }

  lemma LinkedOut(nodes: seq<ListItem>, f: seq<ListItem?>, b: seq<ListItem?>, pos: nat)
    requires Distinct(nodes) && Forward(nodes, f) && Backward(nodes, b) && 0 < pos < |nodes|
    requires nodes[pos - 1].pxNext == f[pos]
    requires nodes[Succ(pos, |nodes|)].pxPrevious == b[pos]
    requires forall i {:trigger f[i]} :: 0 <= i < |nodes| && i != pos - 1 ==> nodes[i].pxNext == f[i]
    requires forall i {:trigger b[i]} :: 0 <= i < |nodes| && i != Succ(pos, |nodes|) ==> nodes[i].pxPrevious == b[i]
    ensures Circle(Without(nodes, pos))
  {
    var m := Without(nodes, pos);
    ForwardWithout(nodes, f, pos);
    BackwardWithout(nodes, b, pos);
    assert Distinct(m);
    hide Forward, Backward, Distinct, Circle;
    var f', b' := Without(f, pos)[pos - 1 := f[pos]], Without(b, pos)[Succ(pos - 1, |m|) := b[pos]];
    forall i | 0 <= i < |m|
      ensures m[i].pxNext == f'[i] && m[i].pxPrevious == b'[i]
    {
      var k := if i < pos then i else i + 1;
      var _, _ := f[k], b[k];
    }
    CircleFrom(m, f', b');
  }

  /** Reading the links of one node. */
  lemma Links(nodes: seq<ListItem>, i: nat)
    requires Circle(nodes) && i < |nodes|
    ensures nodes[i].pxNext == nodes[Succ(i, |nodes|)] && nodes[i].pxPrevious == nodes[Pred(i, |nodes|)]
  {
  }

  // ---- Lists -------------------------------------------------------------------------

  class List {
    var uxNumberOfItems: nat
    var pxIndex: ListItem
    const xListEnd: ListItem
    /** The nodes from the end marker on, following pxNext, and the place of the index. */
    ghost var nodes: seq<ListItem>
    ghost var at: nat

    /** Every item knows its list, and no value exceeds the end marker's. */
    ghost predicate Members()
      reads this, nodes`pvContainer, nodes`xItemValue
    {
      && |nodes| > 0 && nodes[0] == xListEnd && xListEnd.xItemValue == portMAX_DELAY
      && (forall i :: 0 < i < |nodes| ==> nodes[i].pvContainer == this)
      && (forall i :: 0 <= i < |nodes| ==> nodes[i].xItemValue <= portMAX_DELAY)
      && uxNumberOfItems == (|nodes| - 1) % 0x100
      && at < |nodes| && pxIndex == nodes[at]
    }

    ghost predicate Valid()
      reads this, nodes
    {
      Circle(nodes) && Members()
    }

    /** The abstract value. */
    ghost function Abs(): (r: Ring<ListItem>)
      requires Valid()
      reads this, nodes
      ensures r.Valid()
    {
      Ring(nodes[1..], at)
    }

    ghost function Values(): (v: seq<nat>)
      requires Valid()
      reads this, nodes
      ensures |v| == |nodes| - 1
    {
      seq(|nodes| - 1, i requires 0 <= i < |nodes| - 1 reads this, nodes => nodes[i + 1].xItemValue)
    }

    lemma CountIs()
      requires Valid()
      ensures uxNumberOfItems == |Abs().items| % 0x100
    {
    }

    /** vListInitialise. */
    constructor ()
      ensures Valid() && fresh(xListEnd) && nodes == [xListEnd]
      ensures Abs() == Ring([], 0)
    {
      var end := new ListItem(portMAX_DELAY, 0);
      xListEnd := end;
      pxIndex := end;
      uxNumberOfItems := 0;
      nodes, at := [end], 0;
      new;
      end.pxNext, end.pxPrevious := end, end;
    }

    /** The last two statements of either insertion: the item, already linked behind node
        `pos`, gets its container and is counted. */
    method Adopt(item: ListItem, ghost pos: nat)
      requires Members() && pos < |nodes| && item !in nodes && item.xItemValue <= portMAX_DELAY
      requires Circle(Spliced(nodes, pos, item))
      modifies this, item`pvContainer
      ensures Valid() && nodes == Spliced(old(nodes), pos, item)
      ensures at == (if old(at) > pos then old(at) + 1 else old(at))
    {
      hide Circle, Spliced;
      item.pvContainer := this;
      uxNumberOfItems := (uxNumberOfItems + 1) % 0x100;
      nodes, at := Spliced(nodes, pos, item), if at > pos then at + 1 else at;
    }

    /** vListInsertEnd. */
    method InsertEnd(item: ListItem)
      requires Valid() && item !in nodes && item.xItemValue <= portMAX_DELAY
      modifies this, nodes`pxNext, nodes`pxPrevious, item`pxNext, item`pxPrevious, item`pvContainer
      ensures Valid() && Abs() == old(Abs()).InsertEnd(item)
    {
      hide Circle;
      ghost var pos := Pred(at, |nodes|);
      LinkBefore(pxIndex, item, nodes, pos, nodes[pos]);
      hide Members, Spliced;
      Adopt(item, pos);
      AbsSpliced(old(nodes), pos, item);
      InsertEndIs(old(Abs()), item);
    }

    /** vListInsert. */
    method Insert(item: ListItem)
      requires Valid() && item !in nodes && item.xItemValue <= portMAX_DELAY
      modifies this, nodes`pxNext, nodes`pxPrevious, item`pxNext, item`pxPrevious, item`pvContainer
      ensures Valid() && Abs() == old(Abs()).InsertAt(InsertPos(old(Values()), item.xItemValue), item)
    {
      hide Circle, Spliced, InsertPos, Values;
      var pxIterator; ghost var pos;
      pxIterator, pos := FindPlace(item.xItemValue);
      LinkAfter(pxIterator, item, nodes, pos, nodes[Succ(pos, |nodes|)]);
      hide Members;
      Adopt(item, pos);
      AbsSpliced(old(nodes), pos, item);
    }

    /** The end of a removal: the list forgets node k, already unlinked. */
    method Disown(item: ListItem, ghost k: nat)
      requires Members() && 0 < k < |nodes| && nodes[k] == item && Distinct(nodes)
      requires Circle(Without(nodes, k)) && item.pxPrevious == nodes[k - 1]
      modifies this, item`pvContainer
      ensures Valid() && nodes == Without(old(nodes), k) && item.pvContainer == null
      ensures at == (if old(at) >= k then old(at) - 1 else old(at))
    {
      hide Circle, Without;
      if pxIndex == item {
        pxIndex := item.pxPrevious;
      }
      item.pvContainer := null;
      uxNumberOfItems := (uxNumberOfItems - 1) % 0x100;
      nodes, at := Without(nodes, k), if at >= k then at - 1 else at;
    }

    method Remove(item: ListItem, ghost k: nat) returns (remaining: nat)
      requires Valid() && k < |Abs().items| && Abs().items[k] == item
      modifies this, nodes`pxNext, nodes`pxPrevious, item`pvContainer
      ensures Valid() && item.pvContainer == null
      ensures Abs() == old(Abs()).RemoveAt(k)
      ensures remaining == uxNumberOfItems
    {
      hide Circle;
      CircleDistinct(nodes);
      Unlink(item, nodes, k + 1, nodes[k], nodes[Succ(k + 1, |nodes|)]);
      hide Without, Members;
      Disown(item, k + 1);
      AbsWithout(old(nodes), k);
      return uxNumberOfItems;
    }

    /** The walk of vListInsert.  The end marker holds the greatest value, so it stops
        there at the latest; an equal value would not stop it and is dealt with first. */
    method FindPlace(xValueOfInsertion: nat) returns (pxIterator: ListItem, ghost pos: nat)
      requires Valid() && xValueOfInsertion <= portMAX_DELAY
      ensures pos < |nodes| && nodes[pos] == pxIterator
      ensures pos == InsertPos(Values(), xValueOfInsertion)
      ensures InsertPos(Values(), xValueOfInsertion) < |nodes| && pxIterator == nodes[InsertPos(Values(), xValueOfInsertion)]
    {
      ghost var values := Values();
      if xValueOfInsertion == portMAX_DELAY {
        Links(nodes, 0);
        pxIterator := xListEnd.pxPrevious;
        pos := |nodes| - 1;
      } else {
        pxIterator := xListEnd;
        pos := 0;
        Links(nodes, 0);
        while pxIterator.pxNext.xItemValue <= xValueOfInsertion
          invariant pos < |nodes| && pxIterator == nodes[pos]
          invariant pxIterator.pxNext == nodes[Succ(pos, |nodes|)]
          invariant forall i :: 0 <= i < pos ==> values[i] <= xValueOfInsertion
          decreases |nodes| - pos
        {
          assert values[pos] == nodes[pos + 1].xItemValue;
          pxIterator := pxIterator.pxNext;
          pos := pos + 1;
          Links(nodes, pos);
        }
        assert pos < |values| ==> values[pos] == nodes[pos + 1].xItemValue;
      }
      InsertPosUnique(values, xValueOfInsertion, pos);
    }

    /** listGET_OWNER_OF_NEXT_ENTRY. */
    method GetOwnerOfNextEntry() returns (owner: int)
      requires Valid() && Abs().items != []
      modifies this`pxIndex, this`at
      ensures Valid() && nodes == old(nodes)
      ensures Abs() == old(Abs()).Next() && owner == Abs().Current().pvOwner
    {
      Links(nodes, at);
      Links(nodes, 0);
      at := Succ(at, |nodes|);
      pxIndex := pxIndex.pxNext;
      if pxIndex == xListEnd {
        pxIndex := pxIndex.pxNext;
        at := 1;
      }
      owner := pxIndex.pvOwner;
    }

    /** listLIST_IS_EMPTY looks at the 8-bit count: right while fewer than 256 items are in. */
    method IsEmpty() returns (empty: bool)
      requires Valid()
      ensures empty <==> |Abs().items| % 0x100 == 0
      ensures |Abs().items| < 0x100 ==> (empty <==> Abs().items == [])
    {
      empty := uxNumberOfItems == 0;
    }
  }

  /** uxListRemove: the list is found through the item. */
  method ListRemove(item: ListItem, ghost k: nat) returns (remaining: nat)
    requires item.pvContainer != null && item.pvContainer.Valid()
    requires k < |item.pvContainer.Abs().items| && item.pvContainer.Abs().items[k] == item
    modifies item.pvContainer, item.pvContainer.nodes`pxNext, item.pvContainer.nodes`pxPrevious, item`pvContainer
    ensures item.pvContainer == null
    ensures old(item.pvContainer).Valid()
    ensures old(item.pvContainer).Abs() == old(item.pvContainer.Abs()).RemoveAt(k)
    ensures remaining == old(item.pvContainer).uxNumberOfItems == |old(item.pvContainer).Abs().items| % 0x100
  {
    ghost var list := item.pvContainer;
    hide List.Valid;
    remaining := item.pvContainer.Remove(item, k);
    list.CountIs();
  }
}
