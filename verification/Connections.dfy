/** The connection pool of csp_conn.c and its search for an unused local port. */
module Connections {
  import opened Options

  const CONN_MAX := 10
  const MAX_BIND_PORT := 31
  const PORT_MAX := 63
  const EPHEMERAL := PORT_MAX - MAX_BIND_PORT

  datatype ConnType = Client | Server

  /** One entry of arr_conn; the port is the destination port of the incoming identifier. */
  datatype Conn = Conn(isOpen: bool, kind: ConnType, port: nat) {
    predicate Uses(p: nat) {
      isOpen && kind == Client && port == p
    }
  }

  predicate Ephemeral(p: nat) {
    MAX_BIND_PORT < p <= PORT_MAX
  }

  // ---- Counting -------------------------------------------------------------------------------

  /** The ports of the open client connections. */
  function UsedPorts(s: seq<Conn>): set<nat> {
    set i | 0 <= i < |s| && s[i].Uses(s[i].port) :: s[i].port
  }

  /** As many connections cannot use more ports. */
  lemma {:induction false} Pigeonhole(s: seq<Conn>)
    ensures |UsedPorts(s)| <= |s|
  {
    if s == [] {
      assert UsedPorts(s) == {};
    } else {
      var n := |s| - 1;
      Pigeonhole(s[..n]);
      FewMore(UsedPorts(s[..n]), s[n].port);
      assert UsedPorts(s) <= UsedPorts(s[..n]) + {s[n].port};
      Smaller(UsedPorts(s), UsedPorts(s[..n]) + {s[n].port});
    }
  }

  lemma FewMore(s: set<nat>, p: nat)
    ensures |s + {p}| <= |s| + 1
  {
    if p in s {
      assert s + {p} == s;
    }
  }

  lemma {:induction false} Smaller(a: set<nat>, b: set<nat>)
    requires a <= b
    ensures |a| <= |b|
  {
    if a != {} {
      var x :| x in a;
      Smaller(a - {x}, b - {x});
    }
  }

  /** How many steps of the cyclic search lead from port `start` to port p. */
  function Offset(start: nat, p: nat): (k: nat)
    requires Ephemeral(start) && Ephemeral(p)
    ensures k < EPHEMERAL && (k == 0 <==> p == start)
  {
    if p >= start then p - start else p + EPHEMERAL - start
  }

  function NextPort(p: nat): nat {
    if p >= PORT_MAX then MAX_BIND_PORT + 1 else p + 1
  }

  /** One step on is one port on, and after the last comes the first. */
  lemma OffsetSteps(start: nat, p: nat)
    requires Ephemeral(start) && Ephemeral(p)
    ensures Offset(start, start) == 0
    ensures Ephemeral(NextPort(p)) && Offset(start, NextPort(p)) == (Offset(start, p) + 1) % EPHEMERAL
  {
  }

  lemma OffsetInjective(start: nat, p: nat, q: nat)
    requires Ephemeral(start) && Ephemeral(p) && Ephemeral(q) && Offset(start, p) == Offset(start, q)
    ensures p == q
  {
  }

  /** The entries opened by csp_connect have local ports of their own. */
  predicate DistinctPorts(s: seq<Conn>, connected: set<nat>) {
    && (forall i :: i in connected ==> i < |s| && s[i].Uses(s[i].port) && Ephemeral(s[i].port))
    && (forall i, j :: i in connected && j in connected && i != j ==> s[i].port != s[j].port)
  }

  /** The entry csp_conn_allocate comes to first: k steps after the last one given. */
  function After(last: nat, k: nat): nat {
    (last + 1 + k) % CONN_MAX
  }

  class ConnectionPool {
    const arr_conn: array<Conn>
    var sport: nat
    var csp_conn_last_given: nat
    /** The entries that csp_connect opened and nobody has closed since. */
    ghost var connected: set<nat>

    ghost predicate Valid()
      reads this, arr_conn
    {
      && arr_conn.Length == CONN_MAX && Ephemeral(sport) && csp_conn_last_given < CONN_MAX
      && DistinctPorts(arr_conn[..], connected)
    }

    /** csp_conn_init; the random number picks the first port. */
    constructor (random: nat)
      ensures Valid() && fresh(arr_conn) && connected == {} && forall i :: 0 <= i < CONN_MAX ==> !arr_conn[i].isOpen
    {
      arr_conn := new Conn[CONN_MAX](_ => Conn(false, Client, 0));
      sport := random % EPHEMERAL + MAX_BIND_PORT + 1;
      csp_conn_last_given := 0;
      connected := {};
    }

    /** csp_conn_find on the destination port. */
    method Find(port: nat) returns (found: Option<nat>)
      ensures found.Some? ==> found.value < arr_conn.Length && arr_conn[found.value].Uses(port)
      ensures found == None <==> port !in UsedPorts(arr_conn[..])
    {
      var i := 0;
      while i < arr_conn.Length
        invariant 0 <= i <= arr_conn.Length
        invariant forall k :: 0 <= k < i ==> !arr_conn[k].Uses(port)
      {
        if arr_conn[i].Uses(port) {
          assert arr_conn[..][i].port in UsedPorts(arr_conn[..]);
          return Some(i);
        }
        i := i + 1;
      }
      return None;
    }

    /** The loop of csp_connect.  It never gives up, for a probe that fails is a port in use,
        and there are fewer connections than ports. */
    method FindPort() returns (ok: bool, probes: nat)
      requires Valid()
      modifies `sport
      ensures Valid() && ok && probes <= CONN_MAX + 1
      ensures sport !in UsedPorts(arr_conn[..]) && sport != old(sport)
      ensures forall p :: Ephemeral(p) && 0 < Offset(old(sport), p) < Offset(old(sport), sport) ==> p in UsedPorts(arr_conn[..])
    {
      var start := sport;
      probes := 0;
      ghost var visited: set<nat> := {};
      Pigeonhole(arr_conn[..]);
      while true
        invariant Ephemeral(sport) && Offset(start, sport) == probes <= CONN_MAX
        invariant visited <= UsedPorts(arr_conn[..]) && |visited| == probes
        invariant forall p :: p in visited ==> Ephemeral(p) && 1 <= Offset(start, p) <= probes
        invariant forall p :: Ephemeral(p) && 0 < Offset(start, p) <= probes ==> p in visited
        decreases CONN_MAX - probes
      {
        sport := sport + 1;
        if sport == start {
          ok := false;
          break;
        }
        if sport > PORT_MAX {
          sport := MAX_BIND_PORT + 1;
        }
        probes := probes + 1;
        var found := Find(sport);
        if found == None {
          ok := true;
          break;
        }
        forall p | Ephemeral(p) && 0 < Offset(start, p) <= probes
          ensures p in visited + {sport}
        {
          if Offset(start, p) == probes {
            OffsetInjective(start, p, sport);
          }
        }
        visited := visited + {sport};
        Smaller(visited, UsedPorts(arr_conn[..]));
      }
    }

    /** csp_conn_allocate, given the lock: the first closed entry after the last one given. */
    method Allocate(kind: ConnType) returns (given: Option<nat>)
      requires arr_conn.Length == CONN_MAX && csp_conn_last_given < CONN_MAX
      modifies arr_conn, `csp_conn_last_given
      ensures csp_conn_last_given < CONN_MAX
      ensures given == None ==>
                && arr_conn[..] == old(arr_conn[..]) && csp_conn_last_given == old(csp_conn_last_given)
                && forall i :: 0 <= i < CONN_MAX ==> arr_conn[i].isOpen
      ensures given.Some? ==>
                && given.value == csp_conn_last_given && !old(arr_conn[..])[given.value].isOpen
                && arr_conn[..] == old(arr_conn[..])[given.value := Conn(true, kind, old(arr_conn[..])[given.value].port)]
                && exists k :: 0 <= k < CONN_MAX && given.value == After(old(csp_conn_last_given), k)
                               && forall j :: 0 <= j < k ==> old(arr_conn[..])[After(old(csp_conn_last_given), j)].isOpen
    {
      hide After;
      var last := csp_conn_last_given;
      var i := (last + 1) % CONN_MAX;
      AfterSteps(last);
      var conn := i;
      var j := 0;
      while j < CONN_MAX
        invariant 0 <= j <= CONN_MAX && i == After(last, j) < CONN_MAX
        invariant forall k :: 0 <= k < j ==> arr_conn[After(last, k)].isOpen
        invariant 0 <= conn < CONN_MAX && (j > 0 ==> arr_conn[conn].isOpen)
      {
        conn := i;
        if !arr_conn[conn].isOpen {
          break;
        }
        i := (i + 1) % CONN_MAX;
        j := j + 1;
      }
      if arr_conn[conn].isOpen {
        forall k | 0 <= k < CONN_MAX
          ensures arr_conn[k].isOpen
        {
          Covers(last, k);
        }
        return None;
      }
      arr_conn[conn] := Conn(true, kind, arr_conn[conn].port);
      csp_conn_last_given := conn;
      return Some(conn);
    }

    /** csp_socket: a listening entry, which the search for ports passes over. */
    method Socket() returns (given: Option<nat>)
      requires Valid()
      modifies arr_conn, `csp_conn_last_given
      ensures Valid()
      ensures given == None ==> arr_conn[..] == old(arr_conn[..]) && forall i :: 0 <= i < CONN_MAX ==> arr_conn[i].isOpen
      ensures given.Some? ==>
                && given.value < CONN_MAX && !old(arr_conn[..])[given.value].isOpen
                && arr_conn[..] == old(arr_conn[..])[given.value := Conn(true, Server, old(arr_conn[..])[given.value].port)]
      ensures UsedPorts(arr_conn[..]) == UsedPorts(old(arr_conn[..]))
    {
      ghost var was := arr_conn[..];
      given := Allocate(Server);
      if given.Some? {
        OtherEntry(was, given.value, arr_conn[given.value], connected);
        ServersUseNone(was, given.value, arr_conn[given.value]);
      }
    }

    /** csp_conn_new: a client connection with an incoming identifier, for the router or for
        csp_connect. */
    method New(port: nat) returns (given: Option<nat>)
      requires Valid()
      modifies arr_conn, `csp_conn_last_given
      ensures Valid()
      ensures given == None ==> arr_conn[..] == old(arr_conn[..]) && forall i :: 0 <= i < CONN_MAX ==> arr_conn[i].isOpen
      ensures given.Some? ==>
                && given.value < CONN_MAX && !old(arr_conn[..])[given.value].isOpen
                && arr_conn[..] == old(arr_conn[..])[given.value := Conn(true, Client, port)]
    {
      ghost var was := arr_conn[..];
      given := Allocate(Client);
      if given.Some? {
        arr_conn[given.value] := arr_conn[given.value].(port := port);
        assert arr_conn[..] == was[given.value := Conn(true, Client, port)];
        OtherEntry(was, given.value, Conn(true, Client, port), connected);
      }
    }

    /** csp_connect without options; each lock is either got or timed out. */
    method Connect(sportLock: bool, connLock: bool) returns (given: Option<nat>)
      requires Valid()
      modifies arr_conn, `sport, `csp_conn_last_given, `connected
      ensures Valid()
      ensures given == None ==> arr_conn[..] == old(arr_conn[..]) && connected == old(connected)
      ensures given == None && sportLock && connLock ==> forall i :: 0 <= i < CONN_MAX ==> arr_conn[i].isOpen
      ensures given.Some? ==>
                && given.value < CONN_MAX && !old(arr_conn[..])[given.value].isOpen
                && Ephemeral(sport) && sport !in UsedPorts(old(arr_conn[..]))
                && arr_conn[..] == old(arr_conn[..])[given.value := Conn(true, Client, sport)]
                && connected == old(connected) + {given.value}
    {
      if !sportLock {
        return None;
      }
      var start := sport;
      var _, _ := FindPort();
      if sport == start {
        return None;
      }
      if !connLock {
        return None;
      }
      ghost var was := arr_conn[..];
      given := New(sport);
      if given.Some? {
        ConnectedEntry(was, given.value, sport, connected);
        connected := connected + {given.value};
      }
    }

    /** csp_close. */
    method Close(i: nat, connLock: bool)
      requires Valid() && i < CONN_MAX
      modifies arr_conn, `connected
      ensures Valid()
      ensures arr_conn[..] == if connLock then old(arr_conn[..])[i := old(arr_conn[..])[i].(isOpen := false)] else old(arr_conn[..])
      ensures connected == if connLock then old(connected) - {i} else old(connected)
    {
      ghost var was := arr_conn[..];
      if arr_conn[i].isOpen {
        if connLock {
          arr_conn[i] := arr_conn[i].(isOpen := false);
          connected := connected - {i};
          assert arr_conn[..] == was[i := was[i].(isOpen := false)];
        }
      } else {
        assert i !in connected;
        assert was[i].(isOpen := false) == was[i];
        assert was == was[i := was[i]];
      }
    }
  }

  lemma AfterSteps(last: nat)
    ensures After(last, 0) == (last + 1) % CONN_MAX
    ensures forall j: nat :: After(last, j) < CONN_MAX
    ensures forall j: nat {:trigger After(last, j)} :: (After(last, j) + 1) % CONN_MAX == (last + 1 + (j + 1)) % CONN_MAX
    ensures forall j: nat {:trigger After(last, j)} :: After(last, j) == (last + 1 + j) % CONN_MAX
  {
  }

  /** The walk of csp_conn_allocate passes every entry. */
  lemma Covers(last: nat, k: nat)
    requires last < CONN_MAX && k < CONN_MAX
    ensures exists j :: 0 <= j < CONN_MAX && After(last, j) == k
  {
    var j := (k + CONN_MAX - last - 1) % CONN_MAX;
    assert After(last, j) == k;
  }

  /** An entry that csp_connect did not open may change. */
  lemma OtherEntry(s: seq<Conn>, i: nat, c: Conn, connected: set<nat>)
    requires DistinctPorts(s, connected) && i < |s| && !s[i].isOpen
    ensures DistinctPorts(s[i := c], connected)
  {
  }

  lemma ServersUseNone(s: seq<Conn>, i: nat, c: Conn)
    requires i < |s| && !s[i].isOpen && c.kind == Server
    ensures UsedPorts(s[i := c]) == UsedPorts(s)
  {
    var s' := s[i := c];
    forall p
      ensures p in UsedPorts(s') <==> p in UsedPorts(s)
    {
      if p in UsedPorts(s) {
        var k :| 0 <= k < |s| && s[k].Uses(s[k].port) && s[k].port == p;
        assert s'[k] == s[k];
      }
    }
  }

  lemma ConnectedEntry(s: seq<Conn>, i: nat, port: nat, connected: set<nat>)
    requires DistinctPorts(s, connected) && i < |s| && !s[i].isOpen && Ephemeral(port) && port !in UsedPorts(s)
    ensures DistinctPorts(s[i := Conn(true, Client, port)], connected + {i})
  {
    assert forall k :: k in connected ==> s[k].port in UsedPorts(s);
  }
}
