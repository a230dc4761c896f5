/** All lists the scheduler keeps, as rings, with the container each item records.  Module
    LinkedList proves that list.c implements these rings. */
module KernelLists {
  import opened Ring
  import opened Sequences
  import opened Tasks

  /** The two list items of a task. */
  datatype Item = Generic(task: Task) | Event(task: Task)

  datatype ListId =
    | Ready(priority: nat)
    | Delayed(which: bool)
    | Suspended
    | PendingReady
    | Termination
    | EventList(queue: int)

  datatype Lists = Lists(rings: map<ListId, Ring<Item>>, container: map<Item, ListId>, value: map<Item, nat>) {

    function At(l: ListId): Ring<Item> {
      if l in rings then rings[l] else Ring([], 0)
    }

    function Items(l: ListId): seq<Item> {
      At(l).items
    }

    predicate In(x: Item, l: ListId) {
      x in container && container[x] == l
    }

    /** List l holds, once each, exactly the items whose container it is. */
    ghost predicate ListOk(l: ListId) {
      && At(l).Valid() && NoDup(Items(l))
      && forall x :: x in Items(l) <==> In(x, l)
    }

    ghost predicate Valid() {
      forall l :: ListOk(l)
    }

    function Value(x: Item): nat {
      if x in value then value[x] else 0
    }

    function Values(l: ListId): (v: seq<nat>)
      ensures |v| == |Items(l)| && forall i {:trigger v[i]} :: 0 <= i < |v| ==> v[i] == Value(Items(l)[i])
    {
      seq(|Items(l)|, i requires 0 <= i < |Items(l)| => Value(Items(l)[i]))
    }

    /** vListInsertEnd. */
    function InsertEnd(l: ListId, x: Item): (r: Lists)
      requires Valid() && x !in container
      ensures r.container == container[x := l] && r.value == value
    {
      assert ListOk(l);
      Lists(rings[l := At(l).InsertEnd(x)], container[x := l], value)
    }

    /** vListInsert. */
    function Insert(l: ListId, x: Item): (r: Lists)
      requires Valid() && x !in container
      ensures r.container == container[x := l] && r.value == value
    {
      assert ListOk(l);
      Lists(rings[l := At(l).InsertAt(InsertPos(Values(l), Value(x)), x)], container[x := l], value)
    }

    /** uxListRemove. */
    function Remove(x: Item): (r: Lists)
      requires Valid() && x in container
      ensures r.container == container - {x} && r.value == value
    {
      var l := container[x];
      assert ListOk(l) && In(x, l);
      Lists(rings[l := At(l).RemoveAt(IndexOf(Items(l), x))], container - {x}, value)
    }

    /** listSET_LIST_ITEM_VALUE. */
    function SetValue(x: Item, v: nat): (r: Lists)
      ensures r.container == container && r.value == value[x := v]
    {
      Lists(rings, container, value[x := v])
    }

    /** listGET_OWNER_OF_NEXT_ENTRY. */
    function Next(l: ListId): (r: Lists)
      requires Valid() && Items(l) != []
      ensures r.container == container && r.value == value
    {
      assert ListOk(l);
      Lists(rings[l := At(l).Next()], container, value)
    }
  }

  predicate SortedList(ls: Lists, l: ListId) {
    Sorted(ls.Values(l))
  }

  /** Both delayed lists are in the order of their wake times. */
  predicate DelaySorted(ls: Lists) {
    SortedList(ls, Delayed(false)) && SortedList(ls, Delayed(true))
  }

  lemma ListFacts(ls: Lists, l: ListId)
    requires ls.Valid()
    ensures ls.At(l).Valid()
    ensures forall x :: x in ls.Items(l) <==> ls.In(x, l)
  {
    assert ls.ListOk(l);
  }

  lemma HeadIsLeast(ls: Lists, l: ListId)
    requires ls.Valid() && SortedList(ls, l) && ls.Items(l) != []
    ensures ls.In(ls.Items(l)[0], l)
    ensures forall x :: ls.In(x, l) ==> ls.Value(ls.Items(l)[0]) <= ls.Value(x)
  {
    ListFacts(ls, l);
    var v := ls.Values(l);
    forall x | ls.In(x, l)
      ensures v[0] <= ls.Value(x)
    {
      assert v[IndexOf(ls.Items(l), x)] == ls.Value(x);
    }
  }

  // ---- What each operation keeps ------------------------------------------------------

  /** A list changed at l only, consistently with the containers, stays valid. */
  lemma ChangedAt(ls: Lists, ls': Lists, l: ListId)
    requires ls.Valid() && ls'.ListOk(l)
    requires forall m :: m != l ==> ls'.At(m) == ls.At(m)
    requires forall x, m :: m != l ==> (ls'.In(x, m) <==> ls.In(x, m))
    ensures ls'.Valid()
  {
    forall m
      ensures ls'.ListOk(m)
    {
      assert ls.ListOk(m);
    }
  }

  lemma SameSorted(ls: Lists, ls': Lists, l: ListId)
    requires ls'.At(l) == ls.At(l) && ls'.value == ls.value
    ensures SortedList(ls', l) == SortedList(ls, l)
  {
    assert ls'.Values(l) == ls.Values(l);
  }

  lemma SameDelaySorted(ls: Lists, ls': Lists)
    requires forall b :: ls'.At(Delayed(b)) == ls.At(Delayed(b))
    requires ls'.value == ls.value
    ensures DelaySorted(ls') == DelaySorted(ls)
  {
    SameSorted(ls, ls', Delayed(false));
    SameSorted(ls, ls', Delayed(true));
  }

  /** Item x spliced into list l anywhere. */
  lemma Spliced(ls: Lists, ls': Lists, l: ListId, x: Item, pos: nat)
    requires ls.Valid() && x !in ls.container && pos <= |ls.Items(l)|
    requires ls'.container == ls.container[x := l] && ls'.At(l).Valid()
    requires ls'.Items(l) == ls.Items(l)[..pos] + [x] + ls.Items(l)[pos..]
    requires forall m :: m != l ==> ls'.At(m) == ls.At(m)
    ensures ls'.Valid()
  {
    ListFacts(ls, l);
    assert x !in ls.Items(l) by {
      assert !ls.In(x, l);
    }
    assert NoDup(ls.Items(l)) by {
      assert ls.ListOk(l);
    }
    SplicedMembers(ls.Items(l), pos, x);
    assert ls'.ListOk(l);
    ChangedAt(ls, ls', l);
  }

  /** Item k taken out of list l. */
  lemma TakenOut(ls: Lists, ls': Lists, l: ListId, k: nat)
    requires ls.Valid() && k < |ls.Items(l)|
    requires ls'.container == ls.container - {ls.Items(l)[k]} && ls'.At(l).Valid()
    requires ls'.Items(l) == ls.Items(l)[..k] + ls.Items(l)[k + 1..]
    requires forall m :: m != l ==> ls'.At(m) == ls.At(m)
    ensures ls'.Valid()
  {
    var s := ls.Items(l);
    ListFacts(ls, l);
    assert NoDup(s) by {
      assert ls.ListOk(l);
    }
    assert s[k] in s;
    WithoutMembers(s, k);
    forall y
      ensures y in ls'.Items(l) <==> ls'.In(y, l)
    {
      assert y in s <==> ls.In(y, l);
    }
    assert ls'.ListOk(l);
    ChangedAt(ls, ls', l);
  }

  lemma InsertEndKeeps(ls: Lists, l: ListId, x: Item)
    requires ls.Valid() && x !in ls.container
    ensures ls.InsertEnd(l, x).Valid()
    ensures DelaySorted(ls) && !l.Delayed? ==> DelaySorted(ls.InsertEnd(l, x))
  {
    ListFacts(ls, l);
    var r, ls' := ls.At(l), ls.InsertEnd(l, x);
    var pos := if r.index == 0 then |r.items| else r.index - 1;
    assert r.InsertEnd(x).items == r.items[..pos] + [x] + r.items[pos..];
    Spliced(ls, ls', l, x, pos);
    if !l.Delayed? {
      SameDelaySorted(ls, ls');
    }
  }

  lemma InsertKeeps(ls: Lists, l: ListId, x: Item)
    requires ls.Valid() && x !in ls.container
    ensures ls.Insert(l, x).Valid()
  {
    ListFacts(ls, l);
    Spliced(ls, ls.Insert(l, x), l, x, InsertPos(ls.Values(l), ls.Value(x)));
  }

  lemma InsertKeepsSorted(ls: Lists, l: ListId, x: Item)
    requires ls.Valid() && x !in ls.container && DelaySorted(ls)
    ensures DelaySorted(ls.Insert(l, x))
  {
    var ls' := ls.Insert(l, x);
    forall b
      ensures SortedList(ls', Delayed(b))
    {
      assert SortedList(ls, Delayed(b));
      if l == Delayed(b) {
        InsertedSorted(ls, l, x);
      } else {
        SameSorted(ls, ls', Delayed(b));
      }
    }
  }

  lemma InsertedSorted(ls: Lists, l: ListId, x: Item)
    requires ls.Valid() && x !in ls.container && SortedList(ls, l)
    ensures SortedList(ls.Insert(l, x), l)
  {
    InsertStable(ls.Values(l), ls.Value(x));
    hide Sorted, InsertPos, Lists.Value, Lists.Valid, Lists.Insert;
    InsertedValues(ls, l, x);
  }

  lemma InsertedValues(ls: Lists, l: ListId, x: Item)
    requires ls.Valid() && x !in ls.container
    ensures var v, pos := ls.Values(l), InsertPos(ls.Values(l), ls.Value(x));
            ls.Insert(l, x).Values(l) == v[..pos] + [ls.Value(x)] + v[pos..]
  {
    hide InsertPos, Lists.Valid;
    var v, pos := ls.Values(l), InsertPos(ls.Values(l), ls.Value(x));
    assert ls.Insert(l, x).Values(l) == v[..pos] + [ls.Value(x)] + v[pos..];
  }

  lemma RemoveKeeps(ls: Lists, x: Item)
    requires ls.Valid() && x in ls.container
    ensures ls.Remove(x).Valid()
  {
    var l := ls.container[x];
    ListFacts(ls, l);
    assert ls.In(x, l);
    TakenOut(ls, ls.Remove(x), l, IndexOf(ls.Items(l), x));
  }

  lemma RemoveKeepsSorted(ls: Lists, x: Item)
    requires ls.Valid() && x in ls.container
    requires DelaySorted(ls)
    ensures DelaySorted(ls.Remove(x))
  {
    forall b
      ensures SortedList(ls.Remove(x), Delayed(b))
    {
      assert SortedList(ls, Delayed(b));
      if ls.container[x] == Delayed(b) {
        RemainderSorted(ls, x);
      } else {
        SameSorted(ls, ls.Remove(x), Delayed(b));
      }
    }
  }

  lemma RemainderSorted(ls: Lists, x: Item)
    requires ls.Valid() && x in ls.container
    requires SortedList(ls, ls.container[x])
    ensures SortedList(ls.Remove(x), ls.container[x])
  {
    var l := ls.container[x];
    assert ls.ListOk(l) && ls.In(x, l);
    var v, k := ls.Values(l), IndexOf(ls.Items(l), x);
    WithoutSorted(v, k);
    hide Sorted, IndexOf, Lists.Value;
    assert ls.Remove(x).Values(l) == v[..k] + v[k + 1..];
  }

  lemma WithoutSorted(v: seq<nat>, k: nat)
    requires k < |v| && Sorted(v)
    ensures Sorted(v[..k] + v[k + 1..])
  {
  }

  lemma NextKeeps(ls: Lists, l: ListId)
    requires ls.Valid() && ls.Items(l) != [] && DelaySorted(ls) && !l.Delayed?
    ensures ls.Next(l).Valid() && DelaySorted(ls.Next(l))
  {
    assert ls.ListOk(l);
    assert ls.Next(l).ListOk(l);
    ChangedAt(ls, ls.Next(l), l);
    SameDelaySorted(ls, ls.Next(l));
  }

  // ---- Turns ------------------------------------------------------------------------------------

  /** An item inserted at the end of a list waits behind all others there, save the one at the
      index; all other lists stay as they were. */
  lemma EndOfTurns(ls: Lists, l: ListId, x: Item)
    requires ls.Valid() && x !in ls.container
    ensures var was, now := ls.At(l), ls.InsertEnd(l, x).At(l);
            && was.Valid() && now.Valid()
            && (was.index == 0 ==> now.Upcoming() == was.Upcoming() + [x])
            && (was.index > 0 ==> now.Upcoming() == was.Upcoming()[..|was.items| - 1] + [x, was.Current()])
    ensures forall m :: m != l ==> ls.InsertEnd(l, x).At(m) == ls.At(m)
  {
    assert ls.ListOk(l);
    InsertEndTurn(ls.At(l), x);
  }

  /** An item removed from its list leaves the order of the others there as it was. */
  lemma LeavesTurns(ls: Lists, x: Item)
    requires ls.Valid() && x in ls.container
    ensures var l := ls.container[x];
            var was, now := ls.At(l), ls.Remove(x).At(l);
            && was.Valid() && now.Valid()
            && exists k :: 0 <= k < |was.Upcoming()| && was.Upcoming()[k] == x
                           && now.Upcoming() == was.Upcoming()[..k] + was.Upcoming()[k + 1..]
    ensures forall m :: m != ls.container[x] ==> ls.Remove(x).At(m) == ls.At(m)
  {
    var l := ls.container[x];
    assert ls.ListOk(l) && ls.In(x, l);
    var k := IndexOf(ls.Items(l), x);
    RemoveKeepsTurns(ls.At(l), k);
    assert ls.At(l).Upcoming()[Turn(ls.At(l), k)] == x;
  }

  /** The next owner is the first in turn, and then the last. */
  lemma TakesTurns(ls: Lists, l: ListId)
    requires ls.Valid() && ls.Items(l) != []
    ensures var was, now := ls.At(l), ls.Next(l).At(l);
            && was.Valid() && now.Valid() && now.index > 0
            && now.Current() == was.Upcoming()[0] && now.Upcoming() == was.Upcoming()[1..] + [was.Upcoming()[0]]
    ensures forall m :: m != l ==> ls.Next(l).At(m) == ls.At(m)
  {
    assert ls.ListOk(l);
    NextRotates(ls.At(l));
  }

  lemma SetValueKeeps(ls: Lists, x: Item, v: nat)
    requires ls.Valid() && DelaySorted(ls) && forall b :: !ls.In(x, Delayed(b))
    ensures ls.SetValue(x, v).Valid() && DelaySorted(ls.SetValue(x, v))
  {
    var ls' := ls.SetValue(x, v);
    forall m
      ensures ls'.ListOk(m)
    {
      assert ls.ListOk(m);
    }
    forall b
      ensures SortedList(ls', Delayed(b))
    {
      assert SortedList(ls, Delayed(b));
      ListFacts(ls, Delayed(b));
      forall i | 0 <= i < |ls.Items(Delayed(b))|
        ensures ls'.Values(Delayed(b))[i] == ls.Values(Delayed(b))[i]
      {
        assert ls.Items(Delayed(b))[i] in ls.Items(Delayed(b));
      }
      assert ls'.Values(Delayed(b)) == ls.Values(Delayed(b));
    }
  }
}
