/** The listening sockets of the site's data plane: one entry per TCP port, promoted to a connection when
    a peer connects, and reconciled with the targets the server pushes. */
module Pools {
  import opened Basics

  type Handle = nat

  datatype Listener = Listener(port: nat, target: string, handle: Handle)

  datatype Target = Target(listenPort: nat, host: string, targetPort: nat)

  function Decimal(n: nat): (s: string) {
    if n < 10 then ["0123456789"[n]] else Decimal(n / 10) + ["0123456789"[n % 10]]
  }

  /** Where a target's connections go. */
  function Destination(t: Target): (s: string) {
    t.host + ":" + Decimal(t.targetPort)
  }

  // Lists of listeners.

  /** Remove the element at i by moving the last one into its place. */
  function SwapRemove<T>(s: seq<T>, i: nat): (r: seq<T>)
    requires i < |s|
    ensures |r| == |s| - 1
  {
    s[i := s[|s| - 1]][..|s| - 1]
  }

  lemma SwapRemoveContents<T>(s: seq<T>, i: nat)
    requires i < |s|
    ensures multiset(SwapRemove(s, i)) == multiset(s) - multiset{s[i]}
  {
    var n := |s| - 1;
    var t := s[i := s[n]];
    assert t == SwapRemove(s, i) + [s[n]];
    assert multiset([s[n]]) == multiset{s[n]};
    assert multiset(t) == multiset(SwapRemove(s, i)) + multiset{s[n]};
    assert multiset(t) == multiset(s) - multiset{s[i]} + multiset{s[n]};
    CancelOne(multiset(SwapRemove(s, i)), multiset(s) - multiset{s[i]}, s[n]);
  }

  lemma CancelOne<T>(a: multiset<T>, b: multiset<T>, x: T)
    requires a + multiset{x} == b + multiset{x}
    ensures a == b
  {
    assert a == a + multiset{x} - multiset{x};
    assert b == b + multiset{x} - multiset{x};
  }

  lemma SwapRemoveMembers<T>(s: seq<T>, i: nat)
    requires i < |s|
    ensures forall x :: x in SwapRemove(s, i) ==> x in s
    ensures forall x :: x in s && x != s[i] ==> x in SwapRemove(s, i)
  {
    var r, n := SwapRemove(s, i), |s| - 1;
    forall x | x in s && x != s[i] ensures x in r {
      var k :| 0 <= k < |s| && s[k] == x;
      assert r[if k == n then i else k] == x;
    }
  }

  function Handles(ls: seq<Listener>): (hs: set<Handle>) {
    set k | 0 <= k < |ls| :: ls[k].handle
  }

  ghost predicate DistinctHandles(ls: seq<Listener>) {
    forall i, j :: 0 <= i < j < |ls| ==> ls[i].handle != ls[j].handle
  }

  ghost predicate OnePerPort(ls: seq<Listener>) {
    forall i, j :: 0 <= i < j < |ls| ==> ls[i].port != ls[j].port
  }

  lemma SwapRemoveKeepsOnePerPort(ls: seq<Listener>, i: nat)
    requires i < |ls| && OnePerPort(ls)
    ensures OnePerPort(SwapRemove(ls, i))
  {}

  lemma ReplaceKeepsOnePerPort(ls: seq<Listener>, i: nat, l: Listener)
    requires i < |ls| && OnePerPort(ls) && l.port == ls[i].port
    ensures OnePerPort(SwapRemove(ls, i) + [l])
  {
    SwapRemoveKeepsOnePerPort(ls, i);
    assert forall k :: 0 <= k < |ls| - 1 ==> SwapRemove(ls, i)[k].port != l.port;
  }

  lemma SwapRemoveHandles(ls: seq<Listener>, i: nat)
    requires i < |ls| && DistinctHandles(ls)
    ensures DistinctHandles(SwapRemove(ls, i))
    ensures Handles(SwapRemove(ls, i)) == Handles(ls) - {ls[i].handle}
  {
    var r, n := SwapRemove(ls, i), |ls| - 1;
    forall h | h in Handles(ls) - {ls[i].handle} ensures h in Handles(r) {
      var k :| 0 <= k < |ls| && ls[k].handle == h;
      assert r[if k == n then i else k].handle == h;
    }
  }

  lemma PushHandles(ls: seq<Listener>, l: Listener)
    requires DistinctHandles(ls) && l.handle !in Handles(ls)
    ensures DistinctHandles(ls + [l])
    ensures Handles(ls + [l]) == Handles(ls) + {l.handle}
  {
    var r := ls + [l];
    forall i | 0 <= i < |ls| ensures r[i].handle != l.handle { assert ls[i].handle in Handles(ls); }
    assert r[|ls|].handle == l.handle;
    forall h | h in Handles(ls) ensures h in Handles(r) {
      var k :| 0 <= k < |ls| && ls[k].handle == h;
      assert r[k].handle == h;
    }
  }

  /** The ports and where they lead, counted. */
  function Pairs(ls: seq<Listener>): (ps: seq<(nat, string)>)
    ensures |ps| == |ls|
  {
    seq(|ls|, k requires 0 <= k < |ls| => (ls[k].port, ls[k].target))
  }

  /** Taking one entry out and putting one with the same port and target back in keeps the count. */
  lemma ReplaceKeepsPairs(ls: seq<Listener>, i: nat, l: Listener)
    requires i < |ls| && l.port == ls[i].port && l.target == ls[i].target
    ensures multiset(Pairs(SwapRemove(ls, i) + [l])) == multiset(Pairs(ls))
  {
    var ps := Pairs(ls);
    SwapRemoveContents(ps, i);
    assert Pairs(SwapRemove(ls, i)) == SwapRemove(ps, i);
    assert Pairs(SwapRemove(ls, i) + [l]) == SwapRemove(ps, i) + [ps[i]];
    assert ps[i] in multiset(ps);
  }

  // Tables of targets.

  /** The list shows this port-to-target table, with one entry per port. */
  ghost predicate ShowsTable(ls: seq<Listener>, m: map<nat, string>) {
    && OnePerPort(ls)
    && (forall k :: 0 <= k < |ls| ==> ls[k].port in m && m[ls[k].port] == ls[k].target)
    && (forall p :: p in m ==> HasPort(ls, p))
  }

  predicate HasPort(ls: seq<Listener>, p: nat) {
    exists k :: 0 <= k < |ls| && ls[k].port == p
  }

  /** Later targets for the same port win. */
  function LastWins(ts: seq<Target>): (m: map<nat, string>) {
    if ts == [] then map[]
    else LastWins(ts[..|ts| - 1])[ts[|ts| - 1].listenPort := Destination(ts[|ts| - 1])]
  }

  function Parsed(specs: seq<string>, parse: string -> Option<Target>): (ts: seq<Target>) {
    if specs == [] then []
    else
      var t := parse(specs[|specs| - 1]);
      Parsed(specs[..|specs| - 1], parse) + if t.Some? then [t.value] else []
  }

  /** What adding targets does to a table: a port that is taken, from before or from an earlier target,
      keeps its target. */
  function Added(m: map<nat, string>, ts: seq<Target>): (r: map<nat, string>) {
    if ts == [] then m
    else
      var before, t := Added(m, ts[..|ts| - 1]), ts[|ts| - 1];
      if t.listenPort in before then before else before[t.listenPort := Destination(t)]
  }

  /** Some target names this port. */
  predicate Named(ts: seq<Target>, p: nat) {
    exists k :: 0 <= k < |ts| && ts[k].listenPort == p
  }

  lemma NamedStep(ts: seq<Target>, p: nat)
    requires ts != []
    ensures Named(ts, p) <==> Named(ts[..|ts| - 1], p) || ts[|ts| - 1].listenPort == p
  {
    var n := |ts| - 1;
    if Named(ts, p) && ts[n].listenPort != p {
      var k :| 0 <= k < |ts| && ts[k].listenPort == p;
      assert ts[..n][k].listenPort == p;
    }
    if Named(ts[..n], p) {
      var k :| 0 <= k < n && ts[..n][k].listenPort == p;
      assert ts[k].listenPort == p;
    }
  }

  /** The table has exactly the ports that are named, and each leads where the last target for it says. */
  lemma {:induction false} LastWinsPorts(ts: seq<Target>, p: nat)
    ensures p in LastWins(ts) <==> Named(ts, p)
  {
    if ts != [] {
      hide Named, Destination;
      NamedStep(ts, p);
      LastWinsPorts(ts[..|ts| - 1], p);
    }
  }

  lemma {:induction false} LastWinsExactly(ts: seq<Target>, k: nat)
    requires k < |ts| && forall j :: k < j < |ts| ==> ts[j].listenPort != ts[k].listenPort
    ensures ts[k].listenPort in LastWins(ts) && LastWins(ts)[ts[k].listenPort] == Destination(ts[k])
  {
    hide Destination;
    var n := |ts| - 1;
    if k < n {
      assert ts[n].listenPort != ts[k].listenPort;
      LastWinsExactly(ts[..n], k);
    }
  }

  /** Adding keeps the ports that are served and serves those that are named. */
  lemma {:induction false} AddedPorts(m: map<nat, string>, ts: seq<Target>, p: nat)
    ensures p in Added(m, ts) <==> p in m || Named(ts, p)
    ensures p in m ==> Added(m, ts)[p] == m[p]
  {
    if ts != [] {
      hide Named, Destination;
      NamedStep(ts, p);
      AddedPorts(m, ts[..|ts| - 1], p);
    } else {
      assert !Named(ts, p);
    }
  }

  /** A port that was not served leads where the first target for it says. */
  lemma {:induction false} AddedExactly(m: map<nat, string>, ts: seq<Target>, k: nat)
    requires k < |ts| && ts[k].listenPort !in m && forall j :: 0 <= j < k ==> ts[j].listenPort != ts[k].listenPort
    ensures ts[k].listenPort in Added(m, ts) && Added(m, ts)[ts[k].listenPort] == Destination(ts[k])
    decreases |ts|
  {
    hide Destination;
    var n := |ts| - 1;
    if k < n {
      AddedExactly(m, ts[..n], k);
    } else {
      AddedPorts(m, ts[..n], ts[n].listenPort);
    }
  }

  lemma ParsedStep(specs: seq<string>, parse: string -> Option<Target>, i: nat)
    requires i < |specs|
    ensures Parsed(specs[..i + 1], parse)
         == if parse(specs[i]).Some? then Parsed(specs[..i], parse) + [parse(specs[i]).value] else Parsed(specs[..i], parse)
  {
    assert specs[..i + 1][..i] == specs[..i];
  }

  lemma TakeStep(ts: seq<Target>, t: Target)
    ensures LastWins(ts + [t]) == LastWins(ts)[t.listenPort := Destination(t)]
    ensures forall m :: Added(m, ts + [t]) ==
              if t.listenPort in Added(m, ts) then Added(m, ts) else Added(m, ts)[t.listenPort := Destination(t)]
  {
    assert (ts + [t])[..|ts|] == ts;
  }

  ghost function TableOf(ls: seq<Listener>): (m: map<nat, string>)
    requires OnePerPort(ls)
    ensures ShowsTable(ls, m)
  {
    if ls == [] then map[]
    else
      var n := |ls| - 1;
      AppendTable(ls[..n], TableOf(ls[..n]), ls[n]);
      assert ls == ls[..n] + [ls[n]];
      TableOf(ls[..n])[ls[n].port := ls[n].target]
  }

  lemma NothingParsed(specs: seq<string>, parse: string -> Option<Target>)
    ensures Parsed(specs[..0], parse) == [] && forall m :: Added(m, []) == m
  {}

  lemma PortInTable(ls: seq<Listener>, m: map<nat, string>, p: nat)
    requires ShowsTable(ls, m)
    ensures p in m <==> HasPort(ls, p)
  {}

  lemma UpdateTable(ls: seq<Listener>, m: map<nat, string>, i: nat, target: string)
    requires ShowsTable(ls, m) && i < |ls|
    ensures ShowsTable(ls[i := ls[i].(target := target)], m[ls[i].port := target])
  {
    var r := ls[i := ls[i].(target := target)];
    forall p | p in m ensures HasPort(r, p) {
      var k :| 0 <= k < |ls| && ls[k].port == p;
      assert r[k].port == p;
    }
    assert r[i].port == ls[i].port;
  }

  lemma AppendTable(ls: seq<Listener>, m: map<nat, string>, l: Listener)
    requires ShowsTable(ls, m) && !HasPort(ls, l.port)
    ensures ShowsTable(ls + [l], m[l.port := l.target])
  {
    var r := ls + [l];
    forall p | p in m ensures HasPort(r, p) {
      var k :| 0 <= k < |ls| && ls[k].port == p;
      assert r[k].port == p;
    }
    assert r[|ls|].port == l.port;
  }

  // Fresh handles.

  ghost predicate Above(b: nat, s: set<nat>) {
    forall x :: x in s ==> x < b
  }

  lemma {:induction false} SomeHandleIsFree(s: set<nat>)
    ensures exists b :: Above(b, s)
  {
    if s != {} {
      var x :| x in s;
      SomeHandleIsFree(s - {x});
      var b :| Above(b, s - {x});
      var b' := if x < b then b else x + 1;
      forall y | y in s ensures y < b' { if y != x { assert y in s - {x}; } }
      assert Above(b', s);
    } else {
      assert Above(0, s);
    }
  }

  /** The data plane's sockets. The state of a socket is known only through `active`. */
  class DataPlane {
    var listeners: seq<Listener>
    /** The bridged connections, by socket, and the target each was opened to. */
    var conns: map<Handle, string>
    /** The sockets that exist in the network stack. */
    var sockets: set<Handle>

    /** Every live socket is a listener's or a connection's, never both, and no two listeners share one. */
    ghost predicate Valid()
      reads this
    {
      && DistinctHandles(listeners)
      && Handles(listeners) !! conns.Keys
      && sockets == Handles(listeners) + conns.Keys
    }

    constructor ()
      ensures Valid() && listeners == [] && conns == map[] && sockets == {}
    {
      listeners, conns, sockets := [], map[], {};
    }

    /** A new socket, listening on the port, at the end of the list. */
    method PushListener(port: nat, target: string)
      requires Valid()
      modifies this
      ensures Valid() && conns == old(conns)
      ensures |listeners| == |old(listeners)| + 1 && listeners[..|listeners| - 1] == old(listeners)
      ensures var l := listeners[|listeners| - 1];
              l.port == port && l.target == target && l.handle !in old(sockets) && sockets == old(sockets) + {l.handle}
    {
      SomeHandleIsFree(sockets);
      ghost var b :| Above(b, sockets);
      assert b !in sockets;
      var handle: nat :| handle !in sockets;
      var l := Listener(port, target, handle);
      PushHandles(listeners, l);
      sockets := sockets + {handle};
      listeners := listeners + [l];
    }

    /** Drop the listener at i and its socket. */
    method DropListener(i: nat)
      requires Valid() && i < |listeners|
      modifies this
      ensures Valid() && conns == old(conns)
      ensures listeners == SwapRemove(old(listeners), i) && sockets == old(sockets) - {old(listeners)[i].handle}
    {
      SwapRemoveHandles(listeners, i);
      var l := listeners[i];
      assert l.handle in Handles(listeners);
      listeners := SwapRemove(listeners, i);
      sockets := sockets - {l.handle};
    }

    /** The position of the first listener on the port. */
    method FindPort(port: nat) returns (r: Option<nat>)
      ensures r.Some? <==> HasPort(listeners, port)
      ensures r.Some? ==> r.value < |listeners| && listeners[r.value].port == port
    {
      for i := 0 to |listeners|
        invariant forall j :: 0 <= j < i ==> listeners[j].port != port
      {
        if listeners[i].port == port { return Some(i); }
      }
      r := None;
    }

    /** Connections whose socket is closed go, with their sockets. */
    method Reap(closed: set<Handle>)
      requires Valid() && closed <= conns.Keys
      modifies this
      ensures Valid() && listeners == old(listeners)
      ensures conns == old(conns) - closed && sockets == old(sockets) - closed
    {
      conns, sockets := conns - closed, sockets - closed;
    }

    /** Remove every listener on the port. */
    method DropPort(port: nat)
      requires Valid()
      modifies this
      ensures Valid() && conns == old(conns)
      ensures forall l :: l in listeners <==> l in old(listeners) && l.port != port
      ensures OnePerPort(old(listeners)) ==> OnePerPort(listeners)
      ensures !HasPort(old(listeners), port) ==> listeners == old(listeners)
    {
      var found: Option<nat> := FindPort(port);
      while found.Some?
        invariant Valid() && conns == old(conns)
        invariant found.Some? ==> found.value < |listeners| && listeners[found.value].port == port
        invariant found.None? ==> !HasPort(listeners, port)
        invariant forall l :: l in listeners ==> l in old(listeners)
        invariant forall l :: l in old(listeners) && l.port != port ==> l in listeners
        invariant OnePerPort(old(listeners)) ==> OnePerPort(listeners)
        invariant !HasPort(old(listeners), port) ==> listeners == old(listeners)
        decreases |listeners|
      {
        SwapRemoveMembers(listeners, found.value);
        if OnePerPort(listeners) { SwapRemoveKeepsOnePerPort(listeners, found.value); }
        DropListener(found.value);
        found := FindPort(port);
      }
    }

    /** Start listening for targets whose port has no listener yet. */
    method AddTargets(specs: seq<string>, parse: string -> Option<Target>)
      requires Valid()
      modifies this
      ensures Valid() && conns == old(conns)
      ensures old(listeners) <= listeners
      ensures OnePerPort(old(listeners)) ==>
                ShowsTable(listeners, Added(TableOf(old(listeners)), Parsed(specs, parse)))
    {
      hide Destination, Added, Parsed, ShowsTable, OnePerPort, HasPort, TableOf;
      ghost var was := listeners;
      assert Parsed(specs[..0], parse) == [] && forall m :: Added(m, []) == m by { NothingParsed(specs, parse); }
      ghost var m := if OnePerPort(was) then TableOf(was) else map[];
      for i := 0 to |specs|
        invariant Valid() && conns == old(conns) && was <= listeners
        invariant OnePerPort(was) ==> ShowsTable(listeners, Added(m, Parsed(specs[..i], parse)))
      {
        var t := parse(specs[i]);
        ParsedStep(specs, parse, i);
        if t.Some? {
          TakeStep(Parsed(specs[..i], parse), t.value);
          var found: Option<nat> := FindPort(t.value.listenPort);
          if OnePerPort(was) { PortInTable(listeners, Added(m, Parsed(specs[..i], parse)), t.value.listenPort); }
          if found.None? {
            ghost var before := listeners;
            PushListener(t.value.listenPort, Destination(t.value));
            if OnePerPort(was) {
              assert listeners == before + [listeners[|before|]];
              AppendTable(before, Added(m, Parsed(specs[..i], parse)), listeners[|before|]);
            }
          }
        }
      }
      assert specs[..|specs|] == specs;
    }

    method RemoveTargets(specs: seq<string>, parse: string -> Option<Target>)
      requires Valid()
      modifies this
      ensures Valid() && conns == old(conns)
      ensures forall l :: l in listeners <==>
                l in old(listeners) && forall k :: 0 <= k < |specs| && parse(specs[k]).Some? ==>
                  parse(specs[k]).value.listenPort != l.port
      ensures OnePerPort(old(listeners)) ==> OnePerPort(listeners)
    {
      for i := 0 to |specs|
        invariant Valid() && conns == old(conns)
        invariant forall l :: l in listeners <==>
                    l in old(listeners) && forall k :: 0 <= k < i && parse(specs[k]).Some? ==>
                      parse(specs[k]).value.listenPort != l.port
        invariant OnePerPort(old(listeners)) ==> OnePerPort(listeners)
      {
        var t := parse(specs[i]);
        if t.Some? { DropPort(t.value.listenPort); }
      }
    }

    // Accepting connections.

    /** The listening socket becomes the connection's; a fresh one takes its place on the port. */
    method Promote(i: nat)
      requires Valid() && i < |listeners|
      modifies this
      ensures Valid()
      ensures |listeners| == |old(listeners)| && listeners[..|listeners| - 1] == SwapRemove(old(listeners), i)
      ensures var l, l' := old(listeners)[i], listeners[|listeners| - 1];
              && l'.port == l.port && l'.target == l.target && l'.handle !in old(sockets)
              && conns == old(conns)[l.handle := l.target]
              && sockets == old(sockets) + {l'.handle}
    {
      var l := listeners[i];
      SwapRemoveHandles(listeners, i);
      assert l.handle in Handles(listeners);
      listeners := SwapRemove(listeners, i);
      conns := conns[l.handle := l.target];
      PushListener(l.port, l.target);
    }

    /** The positions of the listeners whose socket has become active, in order. */
    method FindActive(active: Handle -> bool) returns (promoted: seq<nat>)
      requires Valid()
      ensures forall m, n :: 0 <= m < n < |promoted| ==> promoted[m] < promoted[n]
      ensures forall m :: 0 <= m < |promoted| ==> promoted[m] < |listeners|
      ensures forall k: nat :: k < |listeners| ==> (active(listeners[k].handle) <==> k in promoted)
    {
      promoted := [];
      for i := 0 to |listeners|
        invariant forall m, n :: 0 <= m < n < |promoted| ==> promoted[m] < promoted[n]
        invariant forall m :: 0 <= m < |promoted| ==> promoted[m] < i
        invariant forall k: nat :: k < i ==> (active(listeners[k].handle) <==> k in promoted)
      {
        assert listeners[i].handle in Handles(listeners);
        if active(listeners[i].handle) && listeners[i].handle !in conns {
          promoted := promoted + [i];
        }
      }
    }

    /** Every listener whose socket has become active turns into a connection to its target, once, and the
        list still has the same ports and targets, the same number of times. */
    method AcceptNew(active: Handle -> bool)
      requires Valid()
      modifies this
      ensures Valid()
      ensures multiset(Pairs(listeners)) == multiset(Pairs(old(listeners)))
      ensures OnePerPort(old(listeners)) ==> OnePerPort(listeners)
      ensures forall l :: l in old(listeners) ==>
                if active(l.handle) then l.handle in conns && conns[l.handle] == l.target && l.handle !in Handles(listeners)
                else l in listeners
      ensures forall l :: l in listeners ==> l in old(listeners) || l.handle !in old(sockets)
      ensures forall h :: h in old(conns) ==> h in conns && conns[h] == old(conns)[h]
      ensures forall h :: h in conns ==> h in old(conns) || (h in Handles(old(listeners)) && active(h))
    {
      hide Midway;
      var promoted := FindActive(active);
      ghost var was := listeners;
      ghost var lim := |was|;
      var j := |promoted|;
      MidwayStart(was, conns, sockets, active);
      while j > 0
        invariant 0 <= j <= |promoted| && lim == (if j < |promoted| then promoted[j] else |was|)
        invariant Valid()
        invariant Midway(was, old(conns), old(sockets), active, lim, listeners, conns, sockets)
      {
        j := j - 1;
        var i := promoted[j];
        ghost var before, conns', sockets' := listeners, conns, sockets;
        MidwayAt(was, old(conns), old(sockets), active, lim, before, conns', sockets', i);
        NotBetween(promoted, j, i, lim);
        assert i in promoted;
        Promote(i);
        ghost var l' := listeners[|listeners| - 1];
        assert listeners == SwapRemove(before, i) + [l'];
        MidwayStep(was, old(conns), old(sockets), active, lim, before, conns', sockets', i, l');
        lim := i;
      }
      if promoted != [] { LeastFirst(promoted); }
      MidwayEnd(was, old(conns), old(sockets), active, lim, listeners, conns, sockets);
    }

    // Reconciling with the full set of targets.

    /** Drop the listeners whose port is not wanted. */
    method DropOthers(ghost keep: set<nat>, dropPorts: seq<nat>)
      requires Valid()
      requires forall l :: l in listeners && l.port !in keep ==> l.port in dropPorts
      requires forall p :: p in dropPorts ==> p !in keep
      modifies this
      ensures Valid() && conns == old(conns)
      ensures forall l :: l in listeners <==> l in old(listeners) && l.port in keep
      ensures OnePerPort(old(listeners)) ==> OnePerPort(listeners)
      ensures dropPorts == [] ==> listeners == old(listeners)
    {
      for i := 0 to |dropPorts|
        invariant Valid() && conns == old(conns)
        invariant forall l :: l in listeners <==> l in old(listeners) && l.port !in dropPorts[..i]
        invariant OnePerPort(old(listeners)) ==> OnePerPort(listeners)
        invariant i == 0 ==> listeners == old(listeners)
      {
        DropPort(dropPorts[i]);
        assert dropPorts[..i + 1] == dropPorts[..i] + [dropPorts[i]];
      }
      assert dropPorts[..|dropPorts|] == dropPorts;
    }

    /** Point an existing listener to its new destination, or start a new one. */
    method Apply(t: Target, ghost shown: bool, ghost m: map<nat, string>)
      requires Valid() && (shown ==> ShowsTable(listeners, m))
      modifies this
      ensures Valid() && conns == old(conns)
      ensures |old(listeners)| <= |listeners|
      ensures forall k :: 0 <= k < |old(listeners)| ==>
                listeners[k].port == old(listeners)[k].port && listeners[k].handle == old(listeners)[k].handle
      ensures HasPort(old(listeners), t.listenPort) ==> |listeners| == |old(listeners)| && sockets == old(sockets)
      ensures shown ==> ShowsTable(listeners, m[t.listenPort := Destination(t)])
    {
      var want := Destination(t);
      var found: Option<nat> := FindPort(t.listenPort);
      if found.Some? {
        var i := found.value;
        if shown { UpdateTable(listeners, m, i, want); }
        if listeners[i].target != want {
          SameHandles(listeners, i, want);
          listeners := listeners[i := listeners[i].(target := want)];
        } else {
          assert listeners[i := listeners[i].(target := want)] == listeners;
        }
      } else {
        ghost var before := listeners;
        PushListener(t.listenPort, want);
        assert listeners == before + [listeners[|before|]];
        if shown { AppendTable(before, m, listeners[|before|]); }
      }
    }

    method ParseAll(specs: seq<string>, parse: string -> Option<Target>) returns (ts: seq<Target>)
      ensures ts == Parsed(specs, parse)
    {
      hide Parsed;
      ts := [];
      NothingParsed(specs, parse);
      for i := 0 to |specs|
        invariant ts == Parsed(specs[..i], parse)
      {
        ParsedStep(specs, parse, i);
        var t := parse(specs[i]);
        if t.Some? { ts := ts + [t.value]; }
      }
      assert specs[..|specs|] == specs;
    }

    /** The ports of listeners that no target asks for. */
    method PortsNotIn(desired: seq<Target>) returns (ports: seq<nat>)
      ensures forall l :: l in listeners && l.port !in LastWins(desired) ==> l.port in ports
      ensures forall p :: p in ports ==> p !in LastWins(desired) && HasPort(listeners, p)
    {
      hide LastWins;
      LastWinsKeys(desired);
      var keep := set k | 0 <= k < |desired| :: desired[k].listenPort;
      assert forall p :: p in keep <==> p in LastWins(desired);
      ports := [];
      for i := 0 to |listeners|
        invariant forall k :: 0 <= k < i && listeners[k].port !in keep ==> listeners[k].port in ports
        invariant forall p :: p in ports ==> p !in keep && HasPort(listeners, p)
      {
        if listeners[i].port !in keep { ports := ports + [listeners[i].port]; }
      }
    }

    method ApplyAll(desired: seq<Target>)
      requires Valid()
      modifies this
      ensures Valid() && conns == old(conns)
      ensures |old(listeners)| <= |listeners|
      ensures forall k :: 0 <= k < |old(listeners)| ==>
                listeners[k].port == old(listeners)[k].port && listeners[k].handle == old(listeners)[k].handle
      ensures (forall k :: 0 <= k < |desired| ==> HasPort(old(listeners), desired[k].listenPort)) ==>
                |listeners| == |old(listeners)| && sockets == old(sockets)
      ensures OnePerPort(old(listeners)) ==> ShowsTable(listeners, TableOf(old(listeners)) + LastWins(desired))
    {
      hide HasPort, ShowsTable, OnePerPort, TableOf, LastWins, Destination;
      ghost var was := listeners;
      ghost var m := if OnePerPort(was) then TableOf(was) else map[];
      LastWinsEmpty();
      assert m + map[] == m;
      for i := 0 to |desired|
        invariant Valid() && conns == old(conns) && |was| <= |listeners|
        invariant forall k :: 0 <= k < |was| ==> listeners[k].port == was[k].port && listeners[k].handle == was[k].handle
        invariant (forall k :: 0 <= k < |desired| ==> HasPort(was, desired[k].listenPort)) ==>
                    |listeners| == |was| && sockets == old(sockets)
        invariant OnePerPort(was) ==> ShowsTable(listeners, m + LastWins(desired[..i]))
      {
        ghost var m' := m + LastWins(desired[..i]);
        assert desired[..i + 1] == desired[..i] + [desired[i]];
        TakeStep(desired[..i], desired[i]);
        assert m + LastWins(desired[..i + 1]) == m'[desired[i].listenPort := Destination(desired[i])];
        ghost var before := listeners;
        SamePorts(was, before, desired[i].listenPort);
        Apply(desired[i], OnePerPort(was), m');
      }
      assert desired[..|desired|] == desired;
    }

    /** Make the listeners exactly the wanted targets: drop the others, redirect and add. */
    method ReconcileTargets(specs: seq<string>, parse: string -> Option<Target>)
      requires Valid()
      modifies this
      ensures Valid() && conns == old(conns)
      ensures OnePerPort(old(listeners)) ==>
                var wanted := LastWins(Parsed(specs, parse));
                && ShowsTable(listeners, wanted)
                && (forall l :: l in old(listeners) && l.port in wanted ==> KeepsSocket(listeners, l))
                && (ShowsTable(old(listeners), wanted) ==> listeners == old(listeners) && sockets == old(sockets))
    {
      hide HasPort, LastWins, Parsed, ShowsTable, OnePerPort, TableOf, KeepsSocket;
      var desired := ParseAll(specs, parse);
      ghost var wanted := LastWins(desired);
      LastWinsKeys(desired);
      var dropPorts := PortsNotIn(desired);
      ghost var was := listeners;
      if ShowsTable(was, wanted) {
        NothingToDrop(was, wanted, dropPorts);
        forall k | 0 <= k < |desired| ensures HasPort(was, desired[k].listenPort) {
          PortInTable(was, wanted, desired[k].listenPort);
        }
      }
      DropOthers(wanted.Keys, dropPorts);
      ghost var kept := listeners;
      ApplyAll(desired);
      if OnePerPort(was) {
        KeptTable(kept, wanted);
        forall l | l in was && l.port in wanted ensures KeepsSocket(listeners, l) { StillOnItsSocket(kept, listeners, l); }
        if ShowsTable(was, wanted) { SameTableSameList(was, listeners, wanted); }
      }
    }
  }

  // The reverse loop over the active listeners, half way: those from position lim on are done.

  ghost predicate Midway(was: seq<Listener>, conns0: map<Handle, string>, sockets0: set<Handle>, active: Handle -> bool,
                         lim: nat, ls: seq<Listener>, conns: map<Handle, string>, sockets: set<Handle>)
  {
    && |ls| == |was| && lim <= |was| && sockets0 <= sockets && Handles(was) <= sockets0
    && (forall k :: 0 <= k < lim ==> ls[k] == was[k])
    && multiset(Pairs(ls)) == multiset(Pairs(was)) && (OnePerPort(was) ==> OnePerPort(ls))
    && Promoted(was, active, lim, ls, conns)
    && (forall l :: l in was && !active(l.handle) ==> l in ls)
    && (forall l :: l in ls ==> l in was || l.handle !in sockets0)
    && (forall h :: h in conns0 ==> h in conns && conns[h] == conns0[h])
    && (forall h :: h in conns ==> h in conns0 || (h in Handles(was) && active(h)))
  }

  ghost predicate Promoted(was: seq<Listener>, active: Handle -> bool, lim: nat, ls: seq<Listener>, conns: map<Handle, string>) {
    forall k :: lim <= k < |was| && active(was[k].handle) ==>
      was[k].handle !in Handles(ls) && was[k].handle in conns && conns[was[k].handle] == was[k].target
  }

  lemma MidwayStart(was: seq<Listener>, conns: map<Handle, string>, sockets: set<Handle>, active: Handle -> bool)
    requires Handles(was) <= sockets
    ensures Midway(was, conns, sockets, active, |was|, was, conns, sockets)
  {}

  lemma MidwayAt(was: seq<Listener>, conns0: map<Handle, string>, sockets0: set<Handle>, active: Handle -> bool,
                 lim: nat, ls: seq<Listener>, conns: map<Handle, string>, sockets: set<Handle>, i: nat)
    requires Midway(was, conns0, sockets0, active, lim, ls, conns, sockets) && i < lim
    ensures |ls| == |was| && i < |ls| && ls[i] == was[i]
  {}

  lemma PromotedStep(was: seq<Listener>, active: Handle -> bool, lim: nat, ls: seq<Listener>, conns: map<Handle, string>,
                     i: nat, l': Listener)
    requires Promoted(was, active, lim, ls, conns) && i < lim <= |was| == |ls| && ls[i] == was[i]
    requires DistinctHandles(ls) && DistinctHandles(was) && l'.handle !in Handles(ls) && l'.handle !in Handles(was)
    requires forall k :: i < k < lim ==> !active(was[k].handle)
    ensures Promoted(was, active, i, SwapRemove(ls, i) + [l'], conns[was[i].handle := was[i].target])
  {
    SwapRemoveHandles(ls, i);
    PushHandles(SwapRemove(ls, i), l');
    AllInHandles(was);
  }

  lemma MidwayStep(was: seq<Listener>, conns0: map<Handle, string>, sockets0: set<Handle>, active: Handle -> bool,
                   lim: nat, ls: seq<Listener>, conns: map<Handle, string>, sockets: set<Handle>, i: nat, l': Listener)
    requires Midway(was, conns0, sockets0, active, lim, ls, conns, sockets)
    requires DistinctHandles(was) && DistinctHandles(ls) && Handles(ls) <= sockets && Handles(was) !! conns0.Keys
    requires i < lim && active(was[i].handle) && (forall k :: i < k < lim ==> !active(was[k].handle))
    requires l'.port == was[i].port && l'.target == was[i].target && l'.handle !in sockets
    ensures Midway(was, conns0, sockets0, active, i, SwapRemove(ls, i) + [l'], conns[was[i].handle := was[i].target],
                   sockets + {l'.handle})
  {
    hide Pairs, Promoted, OnePerPort;
    if OnePerPort(ls) { ReplaceKeepsOnePerPort(ls, i, l'); }
    PromotedStep(was, active, lim, ls, conns, i, l');
    ReplaceKeepsPairs(ls, i, l');
    SwapRemoveMembers(ls, i);
    AllInHandles(was);
  }

  lemma MidwayEnd(was: seq<Listener>, conns0: map<Handle, string>, sockets0: set<Handle>, active: Handle -> bool,
                  lim: nat, ls: seq<Listener>, conns: map<Handle, string>, sockets: set<Handle>)
    requires Midway(was, conns0, sockets0, active, lim, ls, conns, sockets)
    requires forall k :: 0 <= k < |was| && active(was[k].handle) ==> lim <= k
    ensures multiset(Pairs(ls)) == multiset(Pairs(was)) && (OnePerPort(was) ==> OnePerPort(ls))
    ensures forall l :: l in was ==>
              if active(l.handle) then l.handle in conns && conns[l.handle] == l.target && l.handle !in Handles(ls) else l in ls
    ensures forall l :: l in ls ==> l in was || l.handle !in sockets0
    ensures forall h :: h in conns0 ==> h in conns && conns[h] == conns0[h]
    ensures forall h :: h in conns ==> h in conns0 || (h in Handles(was) && active(h))
  {
    hide Pairs;
  }

  lemma AllInHandles(ls: seq<Listener>)
    ensures forall k :: 0 <= k < |ls| ==> ls[k].handle in Handles(ls)
  {}

  /** In an ascending list nothing lies strictly between neighbours. */
  lemma NotBetween(ps: seq<nat>, j: nat, i: nat, lim: nat)
    requires forall m, n :: 0 <= m < n < |ps| ==> ps[m] < ps[n]
    requires j < |ps| && i == ps[j] && (j + 1 < |ps| ==> lim == ps[j + 1])
    ensures forall k :: i < k < lim ==> k !in ps
  {}

  lemma LeastFirst(ps: seq<nat>)
    requires ps != [] && forall m, n :: 0 <= m < n < |ps| ==> ps[m] < ps[n]
    ensures forall p :: p in ps ==> ps[0] <= p
  {}

  lemma {:induction false} LastWinsKeys(ts: seq<Target>)
    ensures forall k :: 0 <= k < |ts| ==> ts[k].listenPort in LastWins(ts)
    ensures forall p :: p in LastWins(ts) ==> exists k :: 0 <= k < |ts| && ts[k].listenPort == p
  {
    if ts != [] {
      var n := |ts| - 1;
      LastWinsKeys(ts[..n]);
      assert forall k {:trigger ts[k]} :: 0 <= k < n ==> ts[k] == ts[..n][k];
      forall p | p in LastWins(ts) ensures exists k :: 0 <= k < |ts| && ts[k].listenPort == p {
        if p != ts[n].listenPort {
          var k :| 0 <= k < n && ts[..n][k].listenPort == p;
          assert ts[k].listenPort == p;
        }
      }
    }
  }

  lemma LastWinsEmpty()
    ensures LastWins([]) == map[]
  {}

  lemma SamePorts(was: seq<Listener>, now: seq<Listener>, p: nat)
    requires |was| <= |now| && forall k :: 0 <= k < |was| ==> now[k].port == was[k].port
    ensures HasPort(was, p) ==> HasPort(now, p)
  {
    if HasPort(was, p) {
      var k :| 0 <= k < |was| && was[k].port == p;
      assert now[k].port == p;
    }
  }

  lemma NothingToDrop(ls: seq<Listener>, wanted: map<nat, string>, ports: seq<nat>)
    requires ShowsTable(ls, wanted)
    requires forall p :: p in ports ==> p !in wanted && HasPort(ls, p)
    ensures ports == []
  {
    PortInTable(ls, wanted, if ports == [] then 0 else ports[0]);
  }

  lemma KeptTable(kept: seq<Listener>, wanted: map<nat, string>)
    requires OnePerPort(kept) && forall l :: l in kept ==> l.port in wanted
    ensures TableOf(kept) + wanted == wanted
  {
    forall p | p in TableOf(kept) ensures p in wanted {
      PortInTable(kept, TableOf(kept), p);
      var k :| 0 <= k < |kept| && kept[k].port == p;
      assert kept[k] in kept;
    }
  }

  /** Two lists with the same ports and handles in the same places that show the same table are equal. */
  lemma SameTableSameList(ls: seq<Listener>, ls': seq<Listener>, m: map<nat, string>)
    requires ShowsTable(ls, m) && ShowsTable(ls', m) && |ls| == |ls'|
    requires forall k :: 0 <= k < |ls| ==> ls[k].port == ls'[k].port && ls[k].handle == ls'[k].handle
    ensures ls == ls'
  {
    forall k | 0 <= k < |ls| ensures ls[k] == ls'[k] { assert ls[k].target == m[ls[k].port]; }
  }

  /** The same port, on the same socket. */
  predicate KeepsSocket(ls: seq<Listener>, l: Listener) {
    exists k :: 0 <= k < |ls| && ls[k].port == l.port && ls[k].handle == l.handle
  }

  lemma StillOnItsSocket(ls: seq<Listener>, ls': seq<Listener>, l: Listener)
    requires |ls| <= |ls'| && l in ls
    requires forall k :: 0 <= k < |ls| ==> ls'[k].port == ls[k].port && ls'[k].handle == ls[k].handle
    ensures KeepsSocket(ls', l)
  {
    var k :| 0 <= k < |ls| && ls[k] == l;
    assert ls'[k].port == l.port && ls'[k].handle == l.handle;
  }

  lemma SameHandles(ls: seq<Listener>, i: nat, target: string)
    requires i < |ls|
    ensures Handles(ls[i := ls[i].(target := target)]) == Handles(ls)
    ensures DistinctHandles(ls) ==> DistinctHandles(ls[i := ls[i].(target := target)])
  {
    var r := ls[i := ls[i].(target := target)];
    assert forall k :: 0 <= k < |ls| ==> r[k].handle == ls[k].handle;
    forall h | h in Handles(ls) ensures h in Handles(r) {
      var k :| 0 <= k < |ls| && ls[k].handle == h;
      assert r[k].handle == h;
    }
  }
}
