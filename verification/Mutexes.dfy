/** Who holds which mutex, and what the kernel counts about it. */
module Mutexes {
  import opened Tasks

  datatype Mutex = Mutex(id: int)

  ghost function HeldBy(holder: map<Mutex, Task>, t: Task): set<Mutex> {
    set m | m in holder && holder[m] == t
  }

  ghost function HeldCount(holder: map<Mutex, Task>, t: Task): nat {
    |HeldBy(holder, t)|
  }

  /** uxMutexesHeld counts, in 8 bits, the mutexes that name the task as holder; a task never
      runs below its base priority, and not above it either when it holds none. */
  ghost predicate Accounts(priority: map<Task, nat>, base: map<Task, nat>, held: map<Task, nat>,
                           holder: map<Mutex, Task>) {
    && base.Keys == priority.Keys && held.Keys == priority.Keys
    && (forall m :: m in holder ==> holder[m] in priority)
    && (forall t :: t in priority ==> held[t] == HeldCount(holder, t) % 0x100)
    && (forall t :: t in priority ==> base[t] <= priority[t])
    && (forall t :: t in priority && HeldCount(holder, t) == 0 ==> priority[t] == base[t])
  }

  function Increment(h: nat): nat {
    (h + 1) % 0x100
  }

  function Decrement(h: nat): nat {
    (h + 0xFF) % 0x100
  }

  lemma CountInEightBits(n: nat)
    ensures Increment(n % 0x100) == (n + 1) % 0x100
    ensures Decrement((n + 1) % 0x100) == n % 0x100
  {
  }

  lemma CountAfterTake(holder: map<Mutex, Task>, m: Mutex, t: Task, u: Task)
    requires m !in holder
    ensures HeldCount(holder[m := t], u) == HeldCount(holder, u) + if u == t then 1 else 0
  {
    var before, after := HeldBy(holder, u), HeldBy(holder[m := t], u);
    if u == t {
      assert after == before + {m};
    } else {
      assert after == before;
    }
  }

  lemma CountAfterGive(holder: map<Mutex, Task>, m: Mutex, u: Task)
    requires m in holder
    ensures HeldCount(holder, u) == HeldCount(holder - {m}, u) + if u == holder[m] then 1 else 0
  {
    var before, after := HeldBy(holder, u), HeldBy(holder - {m}, u);
    if u == holder[m] {
      assert before == after + {m};
    } else {
      assert after == before;
    }
  }

  lemma TakeAccounts(priority: map<Task, nat>, base: map<Task, nat>, held: map<Task, nat>, holder: map<Mutex, Task>,
                     m: Mutex, t: Task)
    requires Accounts(priority, base, held, holder) && t in priority && m !in holder
    ensures Accounts(priority, base, held[t := Increment(held[t])], holder[m := t])
  {
    hide HeldCount, Increment;
    CountInEightBits(HeldCount(holder, t));
    forall u | u in priority
      ensures HeldCount(holder[m := t], u) == HeldCount(holder, u) + if u == t then 1 else 0
    {
      CountAfterTake(holder, m, t, u);
    }
  }

  lemma InheritAccounts(priority: map<Task, nat>, base: map<Task, nat>, held: map<Task, nat>, holder: map<Mutex, Task>,
                        m: Mutex, p: nat)
    requires Accounts(priority, base, held, holder) && m in holder && p >= priority[holder[m]]
    ensures Accounts(priority[holder[m] := p], base, held, holder)
  {
    CountAfterGive(holder, m, holder[m]);
    hide HeldCount;
  }

  /** The priority after a give: the inherited one stays while another mutex is counted. */
  function GivePriority(priority: nat, base: nat, held: nat): nat {
    if held == 0 then base else priority
  }

  lemma GiveAccounts(priority: map<Task, nat>, base: map<Task, nat>, held: map<Task, nat>, holder: map<Mutex, Task>,
                     m: Mutex, h: nat, p: nat)
    requires Accounts(priority, base, held, holder) && m in holder
    requires h == Decrement(held[holder[m]]) && p == GivePriority(priority[holder[m]], base[holder[m]], h)
    ensures Accounts(priority[holder[m] := p], base, held[holder[m] := h], holder - {m})
  {
    hide HeldCount, Decrement;
    CountInEightBits(HeldCount(holder - {m}, holder[m]));
    forall u | u in priority
      ensures HeldCount(holder, u) == HeldCount(holder - {m}, u) + if u == holder[m] then 1 else 0
    {
      CountAfterGive(holder, m, u);
    }
  }

  lemma CreateAccounts(priority: map<Task, nat>, base: map<Task, nat>, held: map<Task, nat>, holder: map<Mutex, Task>,
                       t: Task, p: nat)
    requires Accounts(priority, base, held, holder) && t !in priority
    ensures Accounts(priority[t := p], base[t := p], held[t := 0], holder)
  {
    assert HeldBy(holder, t) == {};
  }
}
