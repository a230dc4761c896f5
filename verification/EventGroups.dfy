/** event_groups.c, for 16-bit ticks: event bits in the low byte of an item value, control
    bits in the high byte. */
module EventGroups {
  import opened EventBits
  import opened Filters
  import opened Tasks

  const CLEAR_EVENTS_ON_EXIT_BIT: bv16 := 0x0100
  const UNBLOCKED_DUE_TO_BIT_SET: bv16 := 0x0200
  const WAIT_FOR_ALL_BITS: bv16 := 0x0400
  const CONTROL_BYTES: bv16 := 0xff00
  const VALUE_IN_USE: bv16 := 0x8000

  /** A waiting task's event list item. */
  datatype Waiter = Waiter(task: Task, value: bv16) {
    function Bits(): bv16 {
      value & !CONTROL_BYTES
    }

    predicate WaitsForAll() {
      value & WAIT_FOR_ALL_BITS != 0
    }

    predicate ClearsOnExit() {
      value & CLEAR_EVENTS_ON_EXIT_BIT != 0
    }

    predicate SatisfiedBy(bits: bv16) {
      TestWaitCondition(bits, Bits(), WaitsForAll())
    }
  }

  /** prvTestWaitCondition. */
  predicate TestWaitCondition(current: bv16, waitFor: bv16, all: bool) {
    if all then current & waitFor == waitFor else current & waitFor != 0
  }

  /** Waiting for all bits means every single one, waiting for any means one of them. */
  lemma TestIsBitwise(current: bv16, waitFor: bv16, all: bool)
    requires OnlyEventBits(waitFor)
    ensures TestWaitCondition(current, waitFor, all) <==>
            if all then forall i :: 0 <= i < 8 && Bit(waitFor, i) ==> Bit(current, i)
            else exists i :: 0 <= i < 8 && Bit(waitFor, i) && Bit(current, i)
  {
    hide Bit;
    assert LowByte(waitFor);
    hide LowByte;
    if all {
      AllBits(current, waitFor);
    } else {
      AnyBit(current, waitFor);
    }
  }

  /** What a waiter's item value asks for, bit by bit. */
  lemma SatisfiedBitwise(w: Waiter, bits: bv16)
    ensures w.SatisfiedBy(bits) <==>
            if w.value & 0x0400 != 0 then forall i :: 0 <= i < 8 && Bit(w.value, i) ==> Bit(bits, i)
            else exists i :: 0 <= i < 8 && Bit(w.value, i) && Bit(bits, i)
    ensures w.ClearsOnExit() <==> w.value & 0x0100 != 0
  {
    hide Bit, TestWaitCondition, Waiter.Bits;
    forall i | 0 <= i < 8
      ensures Bit(w.Bits(), i) <==> Bit(w.value, i)
    {
      LowBits(w, i);
    }
    BitsAreEventBits(w);
    TestIsBitwise(bits, w.Bits(), w.WaitsForAll());
  }

  lemma LowBits(w: Waiter, i: nat)
    requires i < 8
    ensures Bit(w.Bits(), i) <==> Bit(w.value, i)
  {
  }

  lemma BitsAreEventBits(w: Waiter)
    ensures OnlyEventBits(w.Bits())
  {
  }

  /** Setting and clearing, bit by bit. */
  lemma SetAndClear(a: bv16, b: bv16, i: nat)
    requires i < 8
    ensures Bit(Or(a, b), i) <==> Bit(a, i) || Bit(b, i)
    ensures Bit(Without(a, b), i) <==> Bit(a, i) && !Bit(b, i)
  {
    hide Bit;
    OrBit(a, b, i);
    NotBit(a, b, i);
  }

  // ---- What setting bits does to a list of waiters ------------------------------------------

  function Met(bits: bv16): Waiter -> bool {
    (w: Waiter) => w.SatisfiedBy(bits)
  }

  function Unmet(bits: bv16): Waiter -> bool {
    (w: Waiter) => !w.SatisfiedBy(bits)
  }

  /** The waiters released, in order. */
  function Released(ws: seq<Waiter>, bits: bv16): seq<Waiter> {
    Filter(ws, Met(bits))
  }

  /** The waiters left behind, in order. */
  function Left(ws: seq<Waiter>, bits: bv16): seq<Waiter> {
    Filter(ws, Unmet(bits))
  }

  /** What one waiter asks to have cleared when these bits release it. */
  function Clears(w: Waiter, bits: bv16): bv16 {
    if w.SatisfiedBy(bits) && w.ClearsOnExit() then w.Bits() else 0
  }

  function Or(a: bv16, b: bv16): bv16 {
    a | b
  }

  /** bits &= ~mask. */
  function Without(bits: bv16, mask: bv16): bv16 {
    bits & !mask
  }

  function ClearMask(ws: seq<Waiter>, bits: bv16): bv16 {
    if ws == [] then 0 else Or(Clears(ws[0], bits), ClearMask(ws[1..], bits))
  }

  /** Cleared are the bits of the waiters that are released and ask for it. */
  lemma {:induction false} ClearedBits(ws: seq<Waiter>, bits: bv16, i: nat)
    requires i < 8
    ensures Bit(ClearMask(ws, bits), i) <==>
            exists k :: 0 <= k < |ws| && ws[k].SatisfiedBy(bits) && ws[k].value & 0x0100 != 0 && Bit(ws[k].value, i)
  {
    if ws == [] {
      NoBitInZero(i);
    } else {
      hide Bit, Or, Clears, Waiter.SatisfiedBy;
      ClearedBits(ws[1..], bits, i);
      SetAndClear(Clears(ws[0], bits), ClearMask(ws[1..], bits), i);
      OneClears(ws[0], bits, i);
      if k :| 0 <= k < |ws| && ws[k].SatisfiedBy(bits) && ws[k].value & 0x0100 != 0 && Bit(ws[k].value, i) {
        if k > 0 {
          assert ws[1..][k - 1] == ws[k];
        }
      }
      if k :| 0 <= k < |ws| - 1 && ws[1..][k].SatisfiedBy(bits) && ws[1..][k].value & 0x0100 != 0 && Bit(ws[1..][k].value, i) {
        assert ws[k + 1] == ws[1..][k];
      }
    }
  }

  lemma NoBitInZero(i: nat)
    requires i < 8
    ensures !Bit(0, i)
  {
  }

  lemma OneClears(w: Waiter, bits: bv16, i: nat)
    requires i < 8
    ensures Bit(Clears(w, bits), i) <==> w.SatisfiedBy(bits) && w.value & 0x0100 != 0 && Bit(w.value, i)
  {
    hide Bit, Waiter.SatisfiedBy, Waiter.Bits;
    LowBits(w, i);
    NoBitInZero(i);
  }

  /** The bits after a set, one by one. */
  lemma BitsAfterSet(ws: seq<Waiter>, was: bv16, toSet: bv16)
    ensures var bits := Or(was, toSet);
            forall i :: 0 <= i < 8 ==>
              (Bit(Without(bits, ClearMask(ws, bits)), i) <==>
               && (Bit(was, i) || Bit(toSet, i))
               && !exists k :: 0 <= k < |ws| && ws[k].SatisfiedBy(bits) && ws[k].value & 0x0100 != 0 && Bit(ws[k].value, i))
  {
    hide Bit, Or, Without, ClearMask, Waiter.SatisfiedBy;
    var bits := Or(was, toSet);
    forall i | 0 <= i < 8
      ensures Bit(Without(bits, ClearMask(ws, bits)), i) <==>
              && (Bit(was, i) || Bit(toSet, i))
              && !exists k :: 0 <= k < |ws| && ws[k].SatisfiedBy(bits) && ws[k].value & 0x0100 != 0 && Bit(ws[k].value, i)
    {
      SetAndClear(was, toSet, i);
      SetAndClear(bits, ClearMask(ws, bits), i);
      ClearedBits(ws, bits, i);
    }
  }

  lemma OrFacts(a: bv16, b: bv16, c: bv16)
    ensures Or(Or(a, b), c) == Or(a, Or(b, c)) && Or(a, b) == Or(b, a) && Or(a, 0) == a && Or(0, a) == a
    ensures Or(a, Or(b, c)) == Or(b, Or(a, c))
  {
  }

  /** A condition that does not hold is not met by fewer bits. */
  lemma FewerBits(w: Waiter, bits: bv16, clear: bv16)
    requires !w.SatisfiedBy(bits)
    ensures !w.SatisfiedBy(Without(bits, clear))
  {
    FewerBitsMask(bits, clear, w.Bits());
  }

  lemma FewerBitsMask(bits: bv16, clear: bv16, w: bv16)
    ensures bits & w == 0 ==> bits & !clear & w == 0
    ensures bits & w != w ==> bits & !clear & w != w
  {
  }

  lemma {:induction false} MaskAppend(a: seq<Waiter>, b: seq<Waiter>, bits: bv16)
    ensures ClearMask(a + b, bits) == Or(ClearMask(a, bits), ClearMask(b, bits))
  {
    OrFacts(ClearMask(b, bits), 0, 0);
    hide Clears, Or;
    if a == [] {
      assert a + b == b;
    } else {
      assert (a + b)[1..] == a[1..] + b;
      MaskAppend(a[1..], b, bits);
      OrFacts(Clears(a[0], bits), ClearMask(a[1..], bits), ClearMask(b, bits));
    }
  }

  /** Released are exactly the satisfied ones, left are exactly the others. */
  lemma ExactlyTheSatisfied(ws: seq<Waiter>, bits: bv16)
    ensures forall w :: w in Released(ws, bits) <==> w in ws && w.SatisfiedBy(bits)
    ensures forall w :: w in Left(ws, bits) <==> w in ws && !w.SatisfiedBy(bits)
    ensures multiset(Released(ws, bits)) + multiset(Left(ws, bits)) == multiset(ws)
  {
    FilterMembers(ws, Met(bits));
    FilterMembers(ws, Unmet(bits));
    FilterSplits(ws, Met(bits), Unmet(bits));
  }

  /** The order of the list has no influence: the same waiters are released and the same bits
      cleared, since bits are cleared only after the whole list was walked. */
  lemma OrderIrrelevant(ws: seq<Waiter>, ws': seq<Waiter>, bits: bv16)
    requires multiset(ws) == multiset(ws')
    ensures ClearMask(ws, bits) == ClearMask(ws', bits)
    ensures multiset(Released(ws, bits)) == multiset(Released(ws', bits))
    ensures multiset(Left(ws, bits)) == multiset(Left(ws', bits))
  {
    FilterPermutes(ws, ws', Met(bits));
    FilterPermutes(ws, ws', Unmet(bits));
    MaskPermutes(ws, ws', bits);
  }

  lemma {:induction false} MaskPermutes(ws: seq<Waiter>, ws': seq<Waiter>, bits: bv16)
    requires multiset(ws) == multiset(ws')
    ensures ClearMask(ws, bits) == ClearMask(ws', bits)
    decreases |ws|
  {
    hide Clears, Or;
    if ws == [] {
      assert |ws'| == |multiset(ws')| == 0;
    } else {
      var before, after := FindHead(ws, ws');
      MaskPermutes(ws[1..], before + after, bits);
      MaskMoved(ws[0], ws[1..], before, after, bits);
      assert ws == [ws[0]] + ws[1..];
    }
  }

  lemma MaskMoved(w: Waiter, rest: seq<Waiter>, before: seq<Waiter>, after: seq<Waiter>, bits: bv16)
    requires ClearMask(rest, bits) == ClearMask(before + after, bits)
    ensures ClearMask([w] + rest, bits) == ClearMask(before + ([w] + after), bits)
  {
    hide Clears, Or;
    MaskAppend([w], rest, bits);
    MaskAppend(before, [w] + after, bits);
    MaskAppend([w], after, bits);
    MaskAppend(before, after, bits);
    OrFacts(ClearMask([w], bits), ClearMask(before, bits), ClearMask(after, bits));
  }

  // ---- The invariant ------------------------------------------------------------------------

  /** No waiting task's condition holds. */
  ghost predicate Quiet(bits: bv16, ws: seq<Waiter>) {
    forall w :: w in ws ==> !w.SatisfiedBy(bits)
  }

  predicate OnlyEventBits(bits: bv16) {
    bits & CONTROL_BYTES == 0
  }

  lemma LeftQuiet(ws: seq<Waiter>, bits: bv16)
    requires forall w :: w in ws ==> !w.SatisfiedBy(bits)
    ensures Quiet(bits, ws)
  {
  }

  lemma QuietAfterSet(ws: seq<Waiter>, bits: bv16)
    ensures Quiet(Without(bits, ClearMask(ws, bits)), Left(ws, bits))
  {
    ExactlyTheSatisfied(ws, bits);
    LeftQuiet(Left(ws, bits), bits);
    QuietAfterClear(Left(ws, bits), bits, ClearMask(ws, bits));
  }

  lemma QuietAfterClear(ws: seq<Waiter>, bits: bv16, clear: bv16)
    requires Quiet(bits, ws)
    ensures Quiet(Without(bits, clear), ws)
  {
    hide Waiter.SatisfiedBy;
    forall w | w in ws
      ensures !w.SatisfiedBy(Without(bits, clear))
    {
      FewerBits(w, bits, clear);
    }
  }

  lemma EventBitFacts(a: bv16, b: bv16)
    requires OnlyEventBits(a)
    ensures OnlyEventBits(Without(a, b))
    ensures OnlyEventBits(b) ==> OnlyEventBits(Or(a, b))
  {
  }

  /** What a task that waits for w with these options stores, and what is read back from it. */
  function ItemValue(w: bv16, all: bool, clear: bool): bv16 {
    w | (if clear then CLEAR_EVENTS_ON_EXIT_BIT else 0) | (if all then WAIT_FOR_ALL_BITS else 0) | VALUE_IN_USE
  }

  lemma ItemReadBack(t: Task, w: bv16, all: bool, clear: bool)
    requires OnlyEventBits(w)
    ensures var x := Waiter(t, ItemValue(w, all, clear));
            x.Bits() == w && x.WaitsForAll() == all && x.ClearsOnExit() == clear && x.value & VALUE_IN_USE != 0
  {
  }

  /** What xTaskRemoveFromUnorderedEventList stores for a released task, and what the task
      makes of it: it was released by bits, and these are the bits. */
  function ReleaseValue(bits: bv16): bv16 {
    bits | UNBLOCKED_DUE_TO_BIT_SET | VALUE_IN_USE
  }

  lemma ReleasedGetsBits(bits: bv16)
    requires OnlyEventBits(bits)
    ensures ReleaseValue(bits) & UNBLOCKED_DUE_TO_BIT_SET != 0 && ReleaseValue(bits) & VALUE_IN_USE != 0
    ensures Without(ReleaseValue(bits), CONTROL_BYTES) == bits
  {
  }

  /** A task that timed out finds no such mark. */
  lemma WaitingHasNoMark(w: bv16, all: bool, clear: bool)
    requires OnlyEventBits(w)
    ensures ItemValue(w, all, clear) & UNBLOCKED_DUE_TO_BIT_SET == 0
  {
  }

  // ---- The operations -----------------------------------------------------------------------

  datatype Outcome = Return(bits: bv16) | Blocks

  class EventGroup {
    var uxEventBits: bv16
    var xTasksWaitingForBits: seq<Waiter>
    /** The tasks taken off the list by a set, with the values left in their event items. */
    var released: seq<Waiter>

    ghost predicate Valid()
      reads this
    {
      OnlyEventBits(uxEventBits) && Quiet(uxEventBits, xTasksWaitingForBits)
    }

    constructor ()
      ensures Valid() && uxEventBits == 0 && xTasksWaitingForBits == [] && released == []
    {
      uxEventBits, xTasksWaitingForBits, released := 0, [], [];
    }

    /** xEventGroupSetBits: the walk over the list, and the clearing after it. */
    method SetBits(uxBitsToSet: bv16)
      requires Valid() && OnlyEventBits(uxBitsToSet)
      modifies this
      ensures Valid()
      ensures var bits := Or(old(uxEventBits), uxBitsToSet);
              && uxEventBits == Without(bits, ClearMask(old(xTasksWaitingForBits), bits))
              && xTasksWaitingForBits == Left(old(xTasksWaitingForBits), bits)
              && released == old(released) + Marked(Released(old(xTasksWaitingForBits), bits), bits)
              && forall i :: 0 <= i < 8 ==>
                   (Bit(uxEventBits, i) <==>
                    && (Bit(old(uxEventBits), i) || Bit(uxBitsToSet, i))
                    && !exists k :: 0 <= k < |old(xTasksWaitingForBits)| && old(xTasksWaitingForBits)[k].SatisfiedBy(bits)
                                    && old(xTasksWaitingForBits)[k].value & 0x0100 != 0
                                    && Bit(old(xTasksWaitingForBits)[k].value, i))
    {
      hide Bit, Waiter.SatisfiedBy, Waiter.Bits, Waiter.ClearsOnExit, Walking, OnlyEventBits, Quiet, ClearMask, Left, Released, Or,
           ReleaseValue, Without, Marked;
      ghost var ws, was := xTasksWaitingForBits, released;
      ghost var bits := Or(uxEventBits, uxBitsToSet);
      EventBitFacts(uxEventBits, uxBitsToSet);
      uxEventBits := Or(uxEventBits, uxBitsToSet);
      var uxBitsToClear: bv16 := 0;
      var n := 0;
      ghost var k := 0;
      WalkStart(ws, bits, was);
      while n < |xTasksWaitingForBits|
        invariant uxEventBits == bits && Walking(ws, k, bits, xTasksWaitingForBits, n, was, released, uxBitsToClear)
        decreases |xTasksWaitingForBits| - n
      {
        var w := xTasksWaitingForBits[n];
        WalkOn(ws, k, bits, xTasksWaitingForBits, n, was, released, uxBitsToClear);
        if w.SatisfiedBy(uxEventBits) {
          if w.ClearsOnExit() {
            uxBitsToClear := Or(uxBitsToClear, w.Bits());
          }
          released := released + [Waiter(w.task, ReleaseValue(uxEventBits))];
          xTasksWaitingForBits := xTasksWaitingForBits[..n] + xTasksWaitingForBits[n + 1..];
        } else {
          n := n + 1;
        }
        k := k + 1;
      }
      WalkEnd(ws, k, bits, xTasksWaitingForBits, n, was, released, uxBitsToClear);
      QuietAfterSet(ws, bits);
      EventBitFacts(uxEventBits, uxBitsToClear);
      uxEventBits := Without(uxEventBits, uxBitsToClear);
      BitsAfterSet(ws, old(uxEventBits), uxBitsToSet);
    }

    /** vTaskPlaceOnUnorderedEventList. */
    method Enlist(t: Task, w: bv16, all: bool, clear: bool)
      requires Valid() && OnlyEventBits(w) && !TestWaitCondition(uxEventBits, w, all)
      modifies `xTasksWaitingForBits
      ensures Valid() && xTasksWaitingForBits == old(xTasksWaitingForBits) + [Waiter(t, ItemValue(w, all, clear))]
    {
      EnlistQuiet(uxEventBits, xTasksWaitingForBits, t, w, all, clear);
      hide Quiet, OnlyEventBits, ItemValue, TestWaitCondition;
      xTasksWaitingForBits := xTasksWaitingForBits + [Waiter(t, ItemValue(w, all, clear))];
    }

    /** xEventGroupWaitBits, up to the point where the task may block. */
    method WaitBits(t: Task, uxBitsToWaitFor: bv16, xClearOnExit: bool, xWaitForAllBits: bool, xTicksToWait: nat)
      returns (outcome: Outcome)
      requires Valid() && OnlyEventBits(uxBitsToWaitFor)
      modifies this
      ensures Valid() && released == old(released)
      ensures if TestWaitCondition(old(uxEventBits), uxBitsToWaitFor, xWaitForAllBits) then
                && outcome == Return(old(uxEventBits)) && xTasksWaitingForBits == old(xTasksWaitingForBits)
                && uxEventBits == if xClearOnExit then Without(old(uxEventBits), uxBitsToWaitFor) else old(uxEventBits)
              else if xTicksToWait == 0 then
                && outcome == Return(old(uxEventBits)) && xTasksWaitingForBits == old(xTasksWaitingForBits)
                && uxEventBits == old(uxEventBits)
              else
                && outcome == Blocks && uxEventBits == old(uxEventBits)
                && xTasksWaitingForBits == old(xTasksWaitingForBits)
                                           + [Waiter(t, ItemValue(uxBitsToWaitFor, xWaitForAllBits, xClearOnExit))]
      ensures outcome.Return? <==>
              || xTicksToWait == 0
              || if xWaitForAllBits then forall i :: 0 <= i < 8 && Bit(uxBitsToWaitFor, i) ==> Bit(old(uxEventBits), i)
                 else exists i :: 0 <= i < 8 && Bit(uxBitsToWaitFor, i) && Bit(old(uxEventBits), i)
    {
      hide Quiet, OnlyEventBits, ItemValue, TestWaitCondition, Without, Bit;
      TestIsBitwise(uxEventBits, uxBitsToWaitFor, xWaitForAllBits);
      if TestWaitCondition(uxEventBits, uxBitsToWaitFor, xWaitForAllBits) {
        outcome := Return(uxEventBits);
        if xClearOnExit {
          QuietAfterClear(xTasksWaitingForBits, uxEventBits, uxBitsToWaitFor);
          EventBitFacts(uxEventBits, uxBitsToWaitFor);
          uxEventBits := Without(uxEventBits, uxBitsToWaitFor);
        }
      } else if xTicksToWait == 0 {
        outcome := Return(uxEventBits);
      } else {
        Enlist(t, uxBitsToWaitFor, xWaitForAllBits, xClearOnExit);
        outcome := Blocks;
      }
    }

    /** The rest of xEventGroupWaitBits, and of xEventGroupSync, for a task that blocked: it was
        released, and returns the bits that released it, or it still has the item value it
        waited with, and looks once more. */
    method AfterBlocking(uxItemValue: bv16, uxBitsToWaitFor: bv16, xClearOnExit: bool, xWaitForAllBits: bool)
      returns (uxReturn: bv16)
      requires Valid()
      modifies `uxEventBits
      ensures Valid()
      ensures if uxItemValue & UNBLOCKED_DUE_TO_BIT_SET != 0 then
                uxReturn == Without(uxItemValue, CONTROL_BYTES) && uxEventBits == old(uxEventBits)
              else
                && uxReturn == old(uxEventBits)
                && uxEventBits == if TestWaitCondition(old(uxEventBits), uxBitsToWaitFor, xWaitForAllBits) && xClearOnExit
                                  then Without(old(uxEventBits), uxBitsToWaitFor) else old(uxEventBits)
      ensures OnlyEventBits(uxBitsToWaitFor) && uxItemValue == ItemValue(uxBitsToWaitFor, xWaitForAllBits, xClearOnExit) ==>
                uxReturn == old(uxEventBits)
      ensures forall bits :: OnlyEventBits(bits) && uxItemValue == ReleaseValue(bits) ==> uxReturn == bits
    {
      if OnlyEventBits(uxBitsToWaitFor) {
        WaitingHasNoMark(uxBitsToWaitFor, xWaitForAllBits, xClearOnExit);
      }
      forall bits | OnlyEventBits(bits)
        ensures ReleaseValue(bits) & UNBLOCKED_DUE_TO_BIT_SET != 0 && Without(ReleaseValue(bits), CONTROL_BYTES) == bits
      {
        ReleasedGetsBits(bits);
      }
      StripEventBits(uxEventBits);
      QuietAfterClear(xTasksWaitingForBits, uxEventBits, uxBitsToWaitFor);
      EventBitFacts(uxEventBits, uxBitsToWaitFor);
      hide Quiet, OnlyEventBits, TestWaitCondition, Without, ItemValue, ReleaseValue;
      uxReturn := uxItemValue;
      if uxReturn & UNBLOCKED_DUE_TO_BIT_SET == 0 {
        uxReturn := uxEventBits;
        if TestWaitCondition(uxReturn, uxBitsToWaitFor, xWaitForAllBits) {
          if xClearOnExit {
            uxEventBits := Without(uxEventBits, uxBitsToWaitFor);
          }
        }
      }
      uxReturn := Without(uxReturn, CONTROL_BYTES);
    }

    /** xEventGroupSync, up to the point where the task may block. */
    method Sync(t: Task, uxBitsToSet: bv16, uxBitsToWaitFor: bv16, xTicksToWait: nat) returns (outcome: Outcome)
      requires Valid() && OnlyEventBits(uxBitsToSet) && OnlyEventBits(uxBitsToWaitFor)
      modifies this
      ensures Valid()
      ensures var bits := Or(old(uxEventBits), uxBitsToSet);
              var after := Without(bits, ClearMask(old(xTasksWaitingForBits), bits));
              var left := Left(old(xTasksWaitingForBits), bits);
              && released == old(released) + Marked(Released(old(xTasksWaitingForBits), bits), bits)
              && if TestWaitCondition(bits, uxBitsToWaitFor, true) then
                   && outcome == Return(bits) && xTasksWaitingForBits == left
                   && uxEventBits == Without(after, uxBitsToWaitFor)
                 else if xTicksToWait == 0 then
                   outcome == Return(after) && xTasksWaitingForBits == left && uxEventBits == after
                 else
                   && outcome == Blocks && uxEventBits == after
                   && xTasksWaitingForBits == left + [Waiter(t, ItemValue(uxBitsToWaitFor, true, true))]
      ensures outcome.Return? <==>
              || xTicksToWait == 0
              || forall i :: 0 <= i < 8 && Bit(uxBitsToWaitFor, i) ==> Bit(old(uxEventBits), i) || Bit(uxBitsToSet, i)
    {
      hide Quiet, OnlyEventBits, TestWaitCondition, Without, Or, ClearMask, Left, Released, Marked, ItemValue, Bit;
      TestIsBitwise(Or(uxEventBits, uxBitsToSet), uxBitsToWaitFor, true);
      forall i | 0 <= i < 8 {
        SetAndClear(uxEventBits, uxBitsToSet, i);
      }
      var uxOriginalBitValue := uxEventBits;
      ghost var ws := xTasksWaitingForBits;
      SetBits(uxBitsToSet);
      var bits := Or(uxOriginalBitValue, uxBitsToSet);
      if TestWaitCondition(bits, uxBitsToWaitFor, true) {
        outcome := Return(bits);
        QuietAfterClear(xTasksWaitingForBits, uxEventBits, uxBitsToWaitFor);
        EventBitFacts(uxEventBits, uxBitsToWaitFor);
        uxEventBits := Without(uxEventBits, uxBitsToWaitFor);
      } else if xTicksToWait != 0 {
        StillUnmet(bits, ClearMask(ws, bits), uxBitsToWaitFor);
        Enlist(t, uxBitsToWaitFor, true, true);
        outcome := Blocks;
      } else {
        outcome := Return(uxEventBits);
      }
    }

    /** xEventGroupClearBits. */
    method ClearBits(uxBitsToClear: bv16) returns (uxReturn: bv16)
      requires Valid()
      modifies `uxEventBits
      ensures Valid() && uxReturn == old(uxEventBits) && uxEventBits == Without(old(uxEventBits), uxBitsToClear)
      ensures forall i :: 0 <= i < 8 ==> (Bit(uxEventBits, i) <==> Bit(old(uxEventBits), i) && !Bit(uxBitsToClear, i))
    {
      forall i | 0 <= i < 8
        ensures Bit(Without(uxEventBits, uxBitsToClear), i) <==> Bit(uxEventBits, i) && !Bit(uxBitsToClear, i)
      {
        SetAndClear(uxEventBits, uxBitsToClear, i);
      }
      hide Bit;
      QuietAfterClear(xTasksWaitingForBits, uxEventBits, uxBitsToClear);
      EventBitFacts(uxEventBits, uxBitsToClear);
      hide Quiet, OnlyEventBits, Without;
      uxReturn := uxEventBits;
      uxEventBits := Without(uxEventBits, uxBitsToClear);
    }

    /** The timeout, suspension or deletion of waiter i takes it off the list. */
    method TakeOff(i: nat)
      requires Valid() && i < |xTasksWaitingForBits|
      modifies `xTasksWaitingForBits
      ensures Valid() && xTasksWaitingForBits == old(xTasksWaitingForBits[..i] + xTasksWaitingForBits[i + 1..])
    {
      hide Waiter.SatisfiedBy, OnlyEventBits;
      xTasksWaitingForBits := xTasksWaitingForBits[..i] + xTasksWaitingForBits[i + 1..];
    }
  }

  lemma EnlistQuiet(bits: bv16, ws: seq<Waiter>, t: Task, w: bv16, all: bool, clear: bool)
    requires Quiet(bits, ws) && OnlyEventBits(w) && !TestWaitCondition(bits, w, all)
    ensures Quiet(bits, ws + [Waiter(t, ItemValue(w, all, clear))])
  {
    ItemReadBack(t, w, all, clear);
    hide ItemValue, OnlyEventBits, TestWaitCondition, Waiter.Bits, Waiter.WaitsForAll;
    assert !Waiter(t, ItemValue(w, all, clear)).SatisfiedBy(bits);
    hide Waiter.SatisfiedBy;
  }

  lemma StripEventBits(bits: bv16)
    requires OnlyEventBits(bits)
    ensures Without(bits, CONTROL_BYTES) == bits
  {
  }

  lemma StillUnmet(bits: bv16, mask: bv16, w: bv16)
    requires !TestWaitCondition(bits, w, true)
    ensures !TestWaitCondition(Without(bits, mask), w, true)
  {
  }

  /** Released waiters, with the value each of them reads. */
  function Marked(ws: seq<Waiter>, bits: bv16): seq<Waiter> {
    if ws == [] then [] else [Waiter(ws[0].task, ReleaseValue(bits))] + Marked(ws[1..], bits)
  }

  /** Every task released finds the mark, and reads the bits at the time of the set. */
  lemma {:induction false} EachReleasedReads(ws: seq<Waiter>, bits: bv16)
    requires OnlyEventBits(bits)
    ensures |Marked(ws, bits)| == |ws|
    ensures forall i :: 0 <= i < |ws| ==>
              var x := Marked(ws, bits)[i];
              x.task == ws[i].task && x.value & UNBLOCKED_DUE_TO_BIT_SET != 0 && Without(x.value, CONTROL_BYTES) == bits
  {
    ReleasedGetsBits(bits);
    hide ReleaseValue, Without, OnlyEventBits;
    if ws != [] {
      EachReleasedReads(ws[1..], bits);
    }
  }

  // ---- The walk -----------------------------------------------------------------------------

  /** The walk over waiters ws has come to item k, which now is item n of the shortened list. */
  ghost predicate Walking(ws: seq<Waiter>, k: nat, bits: bv16, list: seq<Waiter>, n: nat,
                          was: seq<Waiter>, released: seq<Waiter>, clear: bv16) {
    && k <= |ws| && n <= |list| && list[n..] == ws[k..]
    && list[..n] == Left(ws[..k], bits)
    && released == was + Marked(Released(ws[..k], bits), bits)
    && clear == ClearMask(ws[..k], bits)
  }

  lemma WalkStart(ws: seq<Waiter>, bits: bv16, was: seq<Waiter>)
    ensures Walking(ws, 0, bits, ws, 0, was, was, 0)
  {
  }

  lemma WalkEnd(ws: seq<Waiter>, k: nat, bits: bv16, list: seq<Waiter>, n: nat, was: seq<Waiter>, released: seq<Waiter>,
                clear: bv16)
    requires Walking(ws, k, bits, list, n, was, released, clear) && n >= |list|
    ensures list == Left(ws, bits) && released == was + Marked(Released(ws, bits), bits) && clear == ClearMask(ws, bits)
  {
    assert ws[..k] == ws && list[..n] == list;
  }

  lemma WalkOn(ws: seq<Waiter>, k: nat, bits: bv16, list: seq<Waiter>, n: nat, was: seq<Waiter>, released: seq<Waiter>,
               clear: bv16)
    requires Walking(ws, k, bits, list, n, was, released, clear) && n < |list|
    ensures var w := list[n];
            && k < |ws|
            && (w.SatisfiedBy(bits) ==>
                  Walking(ws, k + 1, bits, list[..n] + list[n + 1..], n, was, released + [Waiter(w.task, ReleaseValue(bits))],
                          if w.ClearsOnExit() then Or(clear, w.Bits()) else clear))
            && (!w.SatisfiedBy(bits) ==> Walking(ws, k + 1, bits, list, n + 1, was, released, clear))
  {
    hide Waiter.SatisfiedBy, Waiter.ClearsOnExit, Waiter.Bits, Or, Left, Released, ClearMask, ReleaseValue, Marked;
    var w := list[n];
    assert w == ws[k] && ws[..k + 1] == ws[..k] + [w];
    assert list[n + 1..] == ws[k + 1..];
    OneMoreWaiter(ws[..k], w, bits);
    if w.SatisfiedBy(bits) {
      assert (list[..n] + list[n + 1..])[..n] == list[..n];
      assert (list[..n] + list[n + 1..])[n..] == list[n + 1..];
    } else {
      assert list[..n + 1] == list[..n] + [w];
    }
  }

  lemma OneMoreWaiter(ws: seq<Waiter>, w: Waiter, bits: bv16)
    ensures Left(ws + [w], bits) == Left(ws, bits) + if w.SatisfiedBy(bits) then [] else [w]
    ensures Marked(Released(ws + [w], bits), bits)
            == Marked(Released(ws, bits), bits) + if w.SatisfiedBy(bits) then [Waiter(w.task, ReleaseValue(bits))] else []
    ensures ClearMask(ws + [w], bits)
            == if w.SatisfiedBy(bits) && w.ClearsOnExit() then Or(ClearMask(ws, bits), w.Bits()) else ClearMask(ws, bits)
  {
    MaskAppend(ws, [w], bits);
    OrFacts(Clears(w, bits), 0, 0);
    OrFacts(ClearMask(ws, bits), 0, 0);
    hide Or, ReleaseValue;
    FilterAppend(ws, [w], Met(bits));
    FilterAppend(ws, [w], Unmet(bits));
    MarkedAppend(Released(ws, bits), Released([w], bits), bits);
  }

  lemma {:induction false} MarkedAppend(a: seq<Waiter>, b: seq<Waiter>, bits: bv16)
    ensures Marked(a + b, bits) == Marked(a, bits) + Marked(b, bits)
  {
    hide ReleaseValue;
    if a == [] {
      assert a + b == b;
    } else {
      assert (a + b)[1..] == a[1..] + b;
      MarkedAppend(a[1..], b, bits);
    }
  }
}
