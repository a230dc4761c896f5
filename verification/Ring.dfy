/** What a kernel list is to its users: a ring of items with a walking index.  Position 0
    of the index is the end marker, position p > 0 is item p - 1. */
module Ring {

  datatype Ring<T(==)> = Ring(items: seq<T>, index: nat) {

    predicate Valid() {
      index <= |items|
    }

    /** The items in the order in which repeated listGET_OWNER_OF_NEXT_ENTRY returns them. */
    function Upcoming(): seq<T>
      requires Valid()
    {
      items[index..] + items[..index]
    }

    /** vListInsertEnd: just before the index. */
    function InsertEnd(x: T): (r: Ring<T>)
      requires Valid()
      ensures r.Valid()
    {
      if index == 0 then Ring(items + [x], 0)
      else Ring(items[..index - 1] + [x] + items[index - 1..], index + 1)
    }

    /** Insertion before item `pos`; the index stays at its item. */
    function InsertAt(pos: nat, x: T): (r: Ring<T>)
      requires Valid() && pos <= |items|
      ensures r.Valid()
    {
      Ring(items[..pos] + [x] + items[pos..], if index > pos then index + 1 else index)
    }

    /** uxListRemove of item k; an index at the item steps back. */
    function RemoveAt(k: nat): (r: Ring<T>)
      requires Valid() && k < |items|
      ensures r.Valid()
    {
      Ring(items[..k] + items[k + 1..], if index > k then index - 1 else index)
    }

    /** listGET_OWNER_OF_NEXT_ENTRY: one step on, skipping the end marker. */
    function Next(): (r: Ring<T>)
      requires Valid() && items != []
      ensures r.Valid() && r.index > 0
    {
      Ring(items, if index == |items| then 1 else index + 1)
    }

    function Current(): T
      requires Valid() && index > 0
    {
      items[index - 1]
    }
  }

  /** Where vListInsert puts a value: before the first greater one. */
  function InsertPos(values: seq<nat>, v: nat): (pos: nat)
    ensures pos <= |values|
    ensures forall i :: 0 <= i < pos ==> values[i] <= v
    ensures pos < |values| ==> values[pos] > v
  {
    if values == [] || values[0] > v then 0 else 1 + InsertPos(values[1..], v)
  }

  lemma InsertPosUnique(values: seq<nat>, v: nat, pos: nat)
    requires pos <= |values|
    requires forall i :: 0 <= i < pos ==> values[i] <= v
    requires pos < |values| ==> values[pos] > v
    ensures pos == InsertPos(values, v)
  {
  }

  predicate Sorted(values: seq<nat>) {
    forall i, j :: 0 <= i < j < |values| ==> values[i] <= values[j]
  }

  /** Inserting into a sorted list keeps it sorted, after every equal value. */
  lemma InsertStable(values: seq<nat>, v: nat)
    requires Sorted(values)
    ensures var pos := InsertPos(values, v);
            && Sorted(values[..pos] + [v] + values[pos..])
            && (forall i :: 0 <= i < |values| ==> (values[i] <= v <==> i < pos))
  {
  }

  // ---- Round robin ----------------------------------------------------------------

  /** The item returned is the first upcoming one, and becomes the last. */
  lemma NextRotates<T>(r: Ring<T>)
    requires r.Valid() && r.items != []
    ensures r.Next().Current() == r.Upcoming()[0]
    ensures r.Next().Upcoming() == r.Upcoming()[1..] + [r.Upcoming()[0]]
  {
  }

  /** n steps of the walk. */
  function Steps<T>(r: Ring<T>, n: nat): (s: Ring<T>)
    requires r.Valid() && r.items != []
    ensures s.Valid() && s.items == r.items
  {
    if n == 0 then r else Steps(r, n - 1).Next()
  }

  /** Every item gets exactly one turn per round, in upcoming order. */
  lemma {:induction false} TurnsInOrder<T>(r: Ring<T>, n: nat)
    requires r.Valid() && 0 < n <= |r.items|
    ensures Steps(r, n).index > 0 && Steps(r, n).Current() == r.Upcoming()[n - 1]
    ensures Steps(r, n).Upcoming() == r.Upcoming()[n..] + r.Upcoming()[..n]
  {
    var s, u := Steps(r, n - 1), r.Upcoming();
    NextRotates(s);
    if n > 1 {
      TurnsInOrder(r, n - 1);
    }
    hide Ring.Upcoming;
    assert s.Upcoming() == u[n - 1..] + u[..n - 1];
    RotateOnce(u, n);
  }

  lemma RotateOnce<T>(u: seq<T>, n: nat)
    requires 0 < n <= |u|
    ensures var v := u[n - 1..] + u[..n - 1];
            v[0] == u[n - 1] && v[1..] + [v[0]] == u[n..] + u[..n]
  {
  }

  /** A new item goes behind every waiting item except the one at the index. */
  lemma InsertEndTurn<T>(r: Ring<T>, x: T)
    requires r.Valid()
    ensures r.index == 0 ==> r.InsertEnd(x).Upcoming() == r.Upcoming() + [x]
    ensures r.index > 0 ==>
              && r.Upcoming()[|r.items| - 1] == r.Current()
              && r.InsertEnd(x).Upcoming() == r.Upcoming()[..|r.items| - 1] + [x, r.Current()]
  {
    if r.index > 0 {
      assert r.items[..r.index] == r.items[..r.index - 1] + [r.Current()];
    }
  }

  /** Where item k stands in the upcoming order. */
  function Turn<T>(r: Ring<T>, k: nat): (t: nat)
    requires r.Valid() && k < |r.items|
    ensures t < |r.items| && r.Upcoming()[t] == r.items[k]
  {
    if k >= r.index then k - r.index else |r.items| - r.index + k
  }

  /** Removal, at the index or elsewhere, only takes the item out of the upcoming order. */
  lemma RemoveKeepsTurns<T>(r: Ring<T>, k: nat)
    requires r.Valid() && k < |r.items|
    ensures r.RemoveAt(k).Upcoming() == r.Upcoming()[..Turn(r, k)] + r.Upcoming()[Turn(r, k) + 1..]
  {
  }
}
