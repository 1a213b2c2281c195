/** The multi-peer router: longest-prefix routing outwards, demultiplexing inwards. */
module Routing {
  import opened Basics
  import opened Cidrs
  import TunnelSpec
  import RateLimiterSpec

  /** A peer of the router, its tunnel and the tunnel's limiter; endpoints are opaque. Routing looks at the ranges only. */
  datatype Peer = Peer(
    siteId: int, tun: TunnelSpec.Tunn, limiter: RateLimiterSpec.Limiter, endpoint: nat, cidrs: seq<Cidr>, index: nat)

  /** The longest prefix of a range that contains dst. */
  function Longest(cidrs: seq<Cidr>, dst: IpAddr): (p: Option<nat>) {
    if cidrs == [] then None
    else
      var rest, c := Longest(cidrs[..|cidrs| - 1], dst), cidrs[|cidrs| - 1];
      if Contains(c, dst) && (rest.None? || c.prefix > rest.value) then Some(c.prefix) else rest
  }

  /** The first peer with the longest matching prefix, and that prefix. */
  function Best(peers: seq<Peer>, dst: IpAddr): (r: Option<(nat, nat)>)
    ensures r.Some? ==> r.value.0 < |peers|
  {
    if peers == [] then None
    else
      var n := |peers| - 1;
      var rest, p := Best(peers[..n], dst), Longest(peers[n].cidrs, dst);
      if p.Some? && (rest.None? || p.value > rest.value.1) then Some((n, p.value)) else rest
  }

  lemma {:induction false} LongestIs(cidrs: seq<Cidr>, dst: IpAddr)
    ensures Longest(cidrs, dst).None? <==> forall k :: 0 <= k < |cidrs| ==> !Contains(cidrs[k], dst)
    ensures Longest(cidrs, dst).Some? ==>
              var p := Longest(cidrs, dst).value;
              && (exists k :: 0 <= k < |cidrs| && Contains(cidrs[k], dst) && cidrs[k].prefix == p)
              && (forall k :: 0 <= k < |cidrs| && Contains(cidrs[k], dst) ==> cidrs[k].prefix <= p)
  {
    hide Contains;
    if cidrs != [] {
      var n := |cidrs| - 1;
      LongestIs(cidrs[..n], dst);
      assert forall k :: 0 <= k < n ==> cidrs[..n][k] == cidrs[k];
      if Longest(cidrs[..n], dst).Some? {
        var k :| 0 <= k < n && Contains(cidrs[..n][k], dst) && cidrs[..n][k].prefix == Longest(cidrs[..n], dst).value;
        assert cidrs[k] == cidrs[..n][k];
      }
    }
  }

  /** Some range of peer i contains dst with this prefix. */
  predicate Owns(e: Peer, dst: IpAddr, prefix: nat) {
    exists k :: 0 <= k < |e.cidrs| && Contains(e.cidrs[k], dst) && e.cidrs[k].prefix == prefix
  }

  predicate Covers(e: Peer, dst: IpAddr) {
    exists k :: 0 <= k < |e.cidrs| && Contains(e.cidrs[k], dst)
  }

  lemma LongestOwned(e: Peer, dst: IpAddr)
    ensures Longest(e.cidrs, dst).Some? <==> Covers(e, dst)
    ensures Longest(e.cidrs, dst).Some? ==> Owns(e, dst, Longest(e.cidrs, dst).value)
    ensures forall q: nat :: Owns(e, dst, q) ==> Longest(e.cidrs, dst).Some? && q <= Longest(e.cidrs, dst).value
  {
    hide Contains;
    LongestIs(e.cidrs, dst);
  }

  lemma OwnsCovers(e: Peer, dst: IpAddr, q: nat)
    requires Owns(e, dst, q)
    ensures Covers(e, dst)
  {}

  /** The routing decision: none exactly when no range contains the destination; otherwise an owner of the
      longest prefix, with every earlier peer's matches strictly shorter. */
  lemma {:induction false} BestIsLongestFirst(peers: seq<Peer>, dst: IpAddr)
    ensures Best(peers, dst).None? <==> forall j :: 0 <= j < |peers| ==> !Covers(peers[j], dst)
    ensures Best(peers, dst).Some? ==>
              var (i, p) := Best(peers, dst).value;
              && Owns(peers[i], dst, p)
              && (forall j, q: nat :: 0 <= j < |peers| && Owns(peers[j], dst, q) ==> q <= p)
              && (forall j, q: nat :: 0 <= j < i && Owns(peers[j], dst, q) ==> q < p)
  {
    hide Owns, Covers, Longest;
    if peers != [] {
      var n := |peers| - 1;
      var front := peers[..n];
      BestIsLongestFirst(front, dst);
      LongestOwned(peers[n], dst);
      assert forall j {:trigger peers[j]} :: 0 <= j < n ==> peers[j] == front[j];
      forall j, q: nat | 0 <= j < n && Owns(front[j], dst, q) ensures Covers(front[j], dst) { OwnsCovers(front[j], dst, q); }
    }
  }

  // Changing one site.

  /** Keep the peers of other sites, in order. */
  function Without(peers: seq<Peer>, site: int): (r: seq<Peer>)
    ensures |r| <= |peers|
  {
    if peers == [] then []
    else
      var n := |peers| - 1;
      var rest := Without(peers[..n], site);
      if peers[n].siteId == site then rest else rest + [peers[n]]
  }

  /** Exactly the peers of other sites remain. */
  lemma {:induction false} WithoutExactly(peers: seq<Peer>, site: int, e: Peer)
    ensures e in Without(peers, site) <==> e in peers && e.siteId != site
  {
    if peers != [] {
      var n := |peers| - 1;
      assert peers == peers[..n] + [peers[n]];
      WithoutExactly(peers[..n], site, e);
    }
  }

  /** Where dst goes: the site and the prefix. */
  function RouteTo(peers: seq<Peer>, dst: IpAddr): (r: Option<(int, nat)>) {
    var b := Best(peers, dst);
    if b.None? then None else Some((peers[b.value.0].siteId, b.value.1))
  }

  lemma RouteAppend(peers: seq<Peer>, e: Peer, dst: IpAddr)
    ensures RouteTo(peers + [e], dst) ==
              var r, p := RouteTo(peers, dst), Longest(e.cidrs, dst);
              if p.Some? && (r.None? || p.value > r.value.1) then Some((e.siteId, p.value)) else r
  {
    assert (peers + [e])[..|peers|] == peers;
  }

  /** Removing a site does not change where addresses outside its ranges go. */
  lemma {:induction false} RemoveLeavesOthers(peers: seq<Peer>, site: int, dst: IpAddr)
    requires forall j :: 0 <= j < |peers| && peers[j].siteId == site ==> !Covers(peers[j], dst)
    ensures RouteTo(Without(peers, site), dst) == RouteTo(peers, dst)
  {
    hide Covers, Longest;
    if peers != [] {
      var n := |peers| - 1;
      var front := peers[..n];
      RemoveLeavesOthers(front, site, dst);
      assert peers == front + [peers[n]];
      RouteAppend(front, peers[n], dst);
      LongestOwned(peers[n], dst);
      if peers[n].siteId != site { RouteAppend(Without(front, site), peers[n], dst); }
    }
  }

  /** Adding or replacing a site does not change where addresses outside its old and new ranges go. */
  lemma UpsertLeavesOthers(peers: seq<Peer>, e: Peer, dst: IpAddr)
    requires forall j :: 0 <= j < |peers| && peers[j].siteId == e.siteId ==> !Covers(peers[j], dst)
    requires !Covers(e, dst)
    ensures RouteTo(Without(peers, e.siteId) + [e], dst) == RouteTo(peers, dst)
  {
    hide Covers, Longest;
    RemoveLeavesOthers(peers, e.siteId, dst);
    RouteAppend(Without(peers, e.siteId), e, dst);
    LongestOwned(e, dst);
  }

  // Editing the ranges of one site.

  /** Where dst goes depends on a site's ranges only through the longest one containing dst. */
  lemma {:induction false} EditLeavesOthers(peers: seq<Peer>, i: nat, e: Peer, dst: IpAddr)
    requires i < |peers| && e.siteId == peers[i].siteId && Longest(e.cidrs, dst) == Longest(peers[i].cidrs, dst)
    ensures RouteTo(peers[i := e], dst) == RouteTo(peers, dst)
    decreases |peers|
  {
    hide Longest, RouteTo;
    var n := |peers| - 1;
    var front := peers[..n];
    assert peers == front + [peers[n]];
    RouteAppend(front, peers[n], dst);
    if i == n {
      assert peers[i := e] == front + [e];
      RouteAppend(front, e, dst);
    } else {
      EditLeavesOthers(front, i, e, dst);
      assert peers[i := e] == front[i := e] + [peers[n]];
      RouteAppend(front[i := e], peers[n], dst);
    }
  }

  /** The ranges that are not among those dropped; equality includes the bits beyond the prefix. */
  function Kept(cidrs: seq<Cidr>, drop: seq<Cidr>): (r: seq<Cidr>) {
    if cidrs == [] then []
    else
      var n := |cidrs| - 1;
      Kept(cidrs[..n], drop) + if cidrs[n] in drop then [] else [cidrs[n]]
  }

  lemma {:induction false} KeptExactly(cidrs: seq<Cidr>, drop: seq<Cidr>, c: Cidr)
    ensures c in Kept(cidrs, drop) <==> c in cidrs && c !in drop
  {
    if cidrs != [] {
      var n := |cidrs| - 1;
      assert cidrs == cidrs[..n] + [cidrs[n]];
      KeptExactly(cidrs[..n], drop, c);
    }
  }

  lemma {:induction false} AddedLongest(cidrs: seq<Cidr>, more: seq<Cidr>, dst: IpAddr)
    requires forall k :: 0 <= k < |more| ==> !Contains(more[k], dst)
    ensures Longest(cidrs + more, dst) == Longest(cidrs, dst)
    decreases |more|
  {
    hide Contains;
    if more == [] {
      assert cidrs + more == cidrs;
    } else {
      var n := |more| - 1;
      AddedLongest(cidrs, more[..n], dst);
      assert (cidrs + more)[..|cidrs| + n] == cidrs + more[..n];
      assert (cidrs + more)[|cidrs| + n] == more[n];
    }
  }

  lemma {:induction false} KeptLongest(cidrs: seq<Cidr>, drop: seq<Cidr>, dst: IpAddr)
    requires forall k :: 0 <= k < |drop| ==> !Contains(drop[k], dst)
    ensures Longest(Kept(cidrs, drop), dst) == Longest(cidrs, dst)
  {
    hide Contains;
    if cidrs != [] {
      var n := |cidrs| - 1;
      KeptLongest(cidrs[..n], drop, dst);
      var kept := Kept(cidrs[..n], drop);
      if cidrs[n] in drop {
        var k :| 0 <= k < |drop| && drop[k] == cidrs[n];
        assert Kept(cidrs, drop) == kept;
      } else {
        assert (kept + [cidrs[n]])[..|kept|] == kept;
      }
    }
  }

  /** Adding ranges to a site, or dropping some, changes the route of no address outside them. */
  lemma CidrEditsAreLocal(peers: seq<Peer>, i: nat, more: seq<Cidr>, drop: seq<Cidr>, dst: IpAddr)
    requires i < |peers|
    ensures (forall k :: 0 <= k < |more| ==> !Contains(more[k], dst)) ==>
              RouteTo(peers[i := peers[i].(cidrs := peers[i].cidrs + more)], dst) == RouteTo(peers, dst)
    ensures (forall k :: 0 <= k < |drop| ==> !Contains(drop[k], dst)) ==>
              RouteTo(peers[i := peers[i].(cidrs := Kept(peers[i].cidrs, drop))], dst) == RouteTo(peers, dst)
  {
    hide RouteTo, Longest, Kept, Contains;
    var p := peers[i];
    if forall k :: 0 <= k < |more| ==> !Contains(more[k], dst) {
      AddedLongest(p.cidrs, more, dst);
      EditLeavesOthers(peers, i, p.(cidrs := p.cidrs + more), dst);
    }
    if forall k :: 0 <= k < |drop| ==> !Contains(drop[k], dst) {
      KeptLongest(p.cidrs, drop, dst);
      EditLeavesOthers(peers, i, p.(cidrs := Kept(p.cidrs, drop)), dst);
    }
  }
}

module Routers {
  import opened Basics
  import opened Constants
  import opened Crypto
  import opened Cidrs
  import opened Routing
  import opened HandshakeSpec
  import TS = TunnelSpec
  import opened TunnelRuns
  import DP = DataPath
  import SL = SessionLifetimes
  import opened Demux
  import opened Gates
  import RL = RateLimiterSpec

  /** A peer index takes the upper 24 bits of a 32-bit local index. */
  const INDEX_LIMIT: nat := 0x100_0000
  const PERSISTENT_KEEPALIVE: nat := 5

  datatype Out = ToHost(packet: TS.Packet) | ToNet(m: Message, endpoint: nat)

  // Every index a tunnel hands out carries the peer's index.

  lemma FormatKeepsPeerIndex(t: TS.Tunn, env: TS.Env, force: bool)
    ensures TS.FormatHandshake(t, env, force).0.hs.nextIndex / 256 == t.hs.nextIndex / 256
  {
    hide FormatInitiation, TS.Tick;
    InitiationEffect(t.hs, env);
    var t1 := if t.hs.state.Expired? then TS.ClearTimers(t, env.now) else t;
    var t2: TS.Tunn := t1.(hs := FormatInitiation(t.hs, env.dstLen, env.e, env.stamp, env.now).0);
    TickKeeps(t2, TS.LAST_HANDSHAKE_STARTED);
    TickKeeps(TS.Tick(t2, TS.LAST_HANDSHAKE_STARTED), TS.LAST_PACKET_SENT);
    TickKeeps(t2, TS.LAST_PACKET_SENT);
  }

  lemma EncapsulateKeepsPeerIndex(t: TS.Tunn, packet: TS.Packet, env: TS.Env)
    ensures TS.Encapsulate(t, packet, env).0.hs.nextIndex / 256 == t.hs.nextIndex / 256
  {
    hide TS.FormatHandshake;
    if t.sessions[TS.Slot(t.current)].None? { FormatKeepsPeerIndex(TS.QueuePacket(t, packet), env, false); }
  }

  lemma FlushKeepsPeerIndex(t: TS.Tunn, env: TS.Env)
    ensures TS.SendQueued(t, env).0.hs.nextIndex / 256 == t.hs.nextIndex / 256
  {
    hide TS.Encapsulate;
    if t.queue != [] { EncapsulateKeepsPeerIndex(t.(queue := t.queue[1..]), t.queue[0], env); }
  }

  lemma {:induction false} DrainKeepsPeerIndex(t: TS.Tunn, envs: nat -> TS.Env, i: nat)
    requires |t.queue| <= TS.MAX_QUEUE_DEPTH
    ensures DP.Drain(t, envs, i).0.hs.nextIndex / 256 == t.hs.nextIndex / 256
    ensures |DP.Drain(t, envs, i).0.queue| <= TS.MAX_QUEUE_DEPTH
    decreases DP.Remaining(t)
  {
    hide TS.SendQueued, DP.Drain, DP.Live, IsInProgress;
    FlushKeepsPeerIndex(t, envs(i));
    DP.DrainOnce(t, envs, i);
    if TS.SendQueued(t, envs(i)).1.ToNetwork? {
      DP.FlushProgress(t, envs(i));
      DrainKeepsPeerIndex(TS.SendQueued(t, envs(i)).0, envs, i + 1);
    }
  }

  lemma InitiationKeepsPeerIndex(t: TS.Tunn, m: Message, env: TS.Env)
    requires m.Initiation?
    ensures var t' := TS.HandleInitiation(t, m, env).0;
            t'.hs.nextIndex / 256 == t.hs.nextIndex / 256 && t'.queue == t.queue
  {
    hide ReceiveInitiation, TS.InstallAsResponder, TS.InstallAsInitiator;
    SL.ReceiveInitiationEffect(t.hs, m, env);
    var (hs', r) := ReceiveInitiation(t.hs, m, env.dstLen, env.e);
    if r.Ok? { SL.InstallSameHandshake(t.(hs := hs'), r.value.1); }
  }

  lemma ResponseKeepsPeerIndex(t: TS.Tunn, m: Message)
    requires m.Response?
    ensures var t' := TS.HandleResponse(t, m).0;
            t'.hs.nextIndex / 256 == t.hs.nextIndex / 256 && t'.queue == t.queue
  {
    hide ReceiveResponse, TS.InstallAsResponder, TS.InstallAsInitiator;
    SL.ReceiveResponseEffect(t.hs, m);
    var (hs', r) := ReceiveResponse(t.hs, m);
    if r.Ok? { SL.InstallSameHandshake(t.(hs := hs'), TS.FormatPacketData(r.value, []).0); }
  }

  lemma DataKeepsPeerIndex(t: TS.Tunn, m: Message)
    requires m.Data?
    ensures var t' := TS.HandleData(t, m).0; t'.hs == t.hs && t'.queue == t.queue
  {
    hide TS.ReceivePacketData;
  }

  lemma IncomingKeepsPeerIndex(t: TS.Tunn, m: Message, env: TS.Env)
    ensures var t' := TS.HandleVerified(t, m, env).0;
            t'.hs.nextIndex / 256 == t.hs.nextIndex / 256 && t'.queue == t.queue
  {
    hide TS.HandleInitiation, TS.HandleResponse, TS.HandleData;
    match m {
      case Initiation(_, _, _, _, _, _) => InitiationKeepsPeerIndex(t, m, env);
      case Response(_, _, _, _, _, _) => ResponseKeepsPeerIndex(t, m);
      case CookieReply(_, _, _) =>
      case Data(_, _, _) => DataKeepsPeerIndex(t, m);
    }
  }

  lemma QuietKeepsPeerIndex(t: TS.Tunn, env: TS.Env)
    ensures TS.UpdateQuiet(t, env).0.hs.nextIndex / 256 == t.hs.nextIndex / 256
  {
    hide TS.FormatHandshake, TS.Encapsulate, TS.Tick, TS.RekeyOnSend, TS.RekeyOnReceive, TS.NoAnswer,
         TS.NothingSentBack, TS.KeepaliveDue;
    var t1: TS.Tunn := if TS.NoAnswer(t, env.now) then t.(wantHandshake := false) else t;
    FormatKeepsPeerIndex(t1, env, true);
    var t2: TS.Tunn := if TS.NothingSentBack(t, env.now) then t1.(wantKeepalive := false) else t1;
    TickKeeps(t2, TS.PERSISTENT_KEEPALIVE);
    EncapsulateKeepsPeerIndex(if TS.KeepaliveDue(t, env.now) then TS.Tick(t2, TS.PERSISTENT_KEEPALIVE) else t2, [], env);
  }

  lemma UpdateKeepsPeerIndex(t: TS.Tunn, env: TS.Env)
    ensures TS.UpdateTimers(t, env).0.hs.nextIndex / 256 == t.hs.nextIndex / 256
  {
    hide TS.FormatHandshake, TS.UpdateQuiet;
    var t1 := TS.ExpireSessions(t.(timers := t.timers[TS.CURRENT := env.now]), env.now);
    var cleared: TS.Tunn := t1.(hs := ClearCookie(t1.hs));
    FormatKeepsPeerIndex(t1, env, true);
    FormatKeepsPeerIndex(cleared, env, true);
    QuietKeepsPeerIndex(t1, env);
    QuietKeepsPeerIndex(cleared, env);
  }

  lemma StepKeepsPeerIndex(t: TS.Tunn, op: Op)
    ensures Step(t, op).0.hs.nextIndex / 256 == t.hs.nextIndex / 256
  {
    hide TS.Encapsulate, TS.HandleVerified, TS.SendQueued, TS.UpdateTimers, TS.FormatHandshake;
    match op {
      case Outgoing(packet, env) => EncapsulateKeepsPeerIndex(t, packet, env);
      case Incoming(m, env) => IncomingKeepsPeerIndex(t, m, env);
      case Flush(env) => FlushKeepsPeerIndex(t, env);
      case Update(env) => UpdateKeepsPeerIndex(t, env);
      case Request(env) => FormatKeepsPeerIndex(t, env, false);
      case Rekey(_, _) =>
    }
  }

  /** Whatever happens to a peer's tunnel, the local indices it hands out lead back to the peer. */
  lemma {:induction false} IssuedIndicesLeadBack(t: TS.Tunn, ops: seq<Op>)
    ensures Run(t, ops).hs.nextIndex / 256 == t.hs.nextIndex / 256
    decreases |ops|
  {
    if ops != [] {
      hide Step;
      StepKeepsPeerIndex(t, ops[0]);
      IssuedIndicesLeadBack(Step(t, ops[0]).0, ops[1..]);
    }
  }

  // The router's invariant.

  ghost predicate Distinct(peers: seq<Peer>) {
    forall i, j :: 0 <= i < j < |peers| ==> peers[i].siteId != peers[j].siteId && peers[i].index != peers[j].index
  }

  predicate Own(p: Peer, nextIndex: nat) {
    && 1 <= p.index < nextIndex
    && p.tun.hs.nextIndex / 256 == p.index
    && |p.tun.queue| <= TS.MAX_QUEUE_DEPTH
  }

  ghost predicate RouterInv(peers: seq<Peer>, nextIndex: nat) {
    && 1 <= nextIndex <= INDEX_LIMIT
    && Distinct(peers)
    && forall i :: 0 <= i < |peers| ==> Own(peers[i], nextIndex)
  }

  lemma {:induction false} WithoutElements(peers: seq<Peer>, site: int)
    ensures forall p :: p in Without(peers, site) <==> p in peers && p.siteId != site
  {
    if peers != [] {
      var n := |peers| - 1;
      WithoutElements(peers[..n], site);
      assert peers == peers[..n] + [peers[n]];
    }
  }

  lemma {:induction false} WithoutDistinct(peers: seq<Peer>, site: int)
    requires Distinct(peers)
    ensures Distinct(Without(peers, site))
  {
    if peers != [] {
      var n := |peers| - 1;
      WithoutDistinct(peers[..n], site);
      WithoutElements(peers[..n], site);
      var rest, last := Without(peers[..n], site), peers[n];
      forall i | 0 <= i < |rest| ensures rest[i].siteId != last.siteId && rest[i].index != last.index {
        assert rest[i] in peers[..n];
      }
    }
  }

  /** Removing a site keeps the invariant and leaves no peer of that site. */
  lemma WithoutKeepsInv(peers: seq<Peer>, site: int, nextIndex: nat)
    requires RouterInv(peers, nextIndex)
    ensures RouterInv(Without(peers, site), nextIndex)
  {
    hide Own, Distinct;
    WithoutDistinct(peers, site);
    WithoutElements(peers, site);
  }

  lemma OwnLater(p: Peer, nextIndex: nat, later: nat)
    requires Own(p, nextIndex) && nextIndex <= later
    ensures Own(p, later)
  {}

  lemma AppendKeepsInv(peers: seq<Peer>, p: Peer, nextIndex: nat)
    requires RouterInv(peers, nextIndex) && nextIndex < INDEX_LIMIT
    requires forall q :: q in peers ==> q.siteId != p.siteId
    requires p.index == nextIndex && Own(p, nextIndex + 1)
    ensures RouterInv(peers + [p], nextIndex + 1)
  {
    forall i | 0 <= i < |peers| ensures Own(peers[i], nextIndex + 1) { OwnLater(peers[i], nextIndex, nextIndex + 1); }
  }

  lemma ReplaceKeepsInv(peers: seq<Peer>, i: nat, p: Peer, nextIndex: nat)
    requires RouterInv(peers, nextIndex) && i < |peers|
    requires Own(p, nextIndex) && p.siteId == peers[i].siteId && p.index == peers[i].index
    ensures RouterInv(peers[i := p], nextIndex)
  {
    hide Own;
  }

  /** The first peer with this index, as a search in order finds it. */
  predicate FoundAt(peers: seq<Peer>, idx: nat, r: Option<nat>) {
    match r
    case None => forall i :: 0 <= i < |peers| ==> peers[i].index != idx
    case Some(i) => i < |peers| && peers[i].index == idx && forall j :: 0 <= j < i ==> peers[j].index != idx
  }

  /** A datagram addressed to an index of a live peer goes to that peer and no other. */
  lemma DemuxExact(peers: seq<Peer>, nextIndex: nat, datagram: seq<byte>, i: nat, r: Option<nat>)
    requires RouterInv(peers, nextIndex) && i < |peers|
    requires ParseIncomingPacket(datagram).Some? && !ParseIncomingPacket(datagram).value.HandshakeInit?
    requires PeerIndexOf(datagram).Some? && FoundAt(peers, PeerIndexOf(datagram).value, r)
    ensures r == Some(i) <==> ParseIncomingPacket(datagram).value.receiverIdx / 256 == peers[i].index
  {
    hide Own;
    DemuxAgreesWithParser(datagram);
    if r.Some? && r.value != i {
      if i < r.value { assert peers[i].index != peers[r.value].index; } else { assert peers[r.value].index != peers[i].index; }
    }
  }

  /** What the engine reads in a datagram, as far as its header tells. */
  predicate Reads(datagram: seq<byte>, d: Datagram) {
    var p := ParseIncomingPacket(datagram);
    match d
    case Empty => datagram == []
    case Malformed => datagram != [] && p.None?
    case Carrying(m, cipherLen) => p.Some? && Carries(p.value, m) && (p.value.PacketData? ==> cipherLen == |p.value.body|)
  }

  predicate Carries(p: Parsed, m: Message) {
    match m
    case Initiation(_, _, _, _, _, _) => p.HandshakeInit?
    case Response(_, r, _, _, _, _) => p.HandshakeResponse? && p.receiverIdx == r
    case CookieReply(r, _, _) => p.PacketCookieReply? && p.receiverIdx == r
    case Data(r, c, _) => p.PacketData? && p.receiverIdx == r && p.counter == c
  }

  function OutOf(r: TS.Outcome, endpoint: nat): (out: seq<Out>) {
    match r
    case ToNetwork(m) => [ToNet(m, endpoint)]
    case ToTunnelV4(p, _) => [ToHost(p)]
    case ToTunnelV6(p, _) => [ToHost(p)]
    case _ => []
  }

  function SentTo(ms: seq<Message>, endpoint: nat): (out: seq<Out>) {
    seq(|ms|, k requires 0 <= k < |ms| => ToNet(ms[k], endpoint))
  }

  /** What an inbound datagram does to the peer it is for: it passes the limiter, without a source
      address, and then the queue is drained, whatever became of it. */
  function Inbound(p: Peer, d: Datagram, envs: nat -> TS.Env, reading: nat): (r: (Peer, seq<Out>))
    requires |p.tun.queue| <= TS.MAX_QUEUE_DEPTH && p.limiter.startTime <= reading && !d.Empty?
  {
    var (g, r) := Decapsulate(Gate(p.tun, p.limiter), None, d, envs(0), reading);
    DecapsulateKeepsPeerIndex(Gate(p.tun, p.limiter), d, envs(0), reading);
    var (t, ms) := DP.Drain(g.tun, envs, 1);
    (p.(tun := t, limiter := g.limiter), OutOf(r, p.endpoint) + SentTo(ms, p.endpoint))
  }

  lemma DecapsulateKeepsPeerIndex(g: Gate, d: Datagram, env: TS.Env, reading: nat)
    requires g.limiter.startTime <= reading && !d.Empty?
    ensures var g' := Decapsulate(g, None, d, env, reading).0;
            g'.tun.hs.nextIndex / 256 == g.tun.hs.nextIndex / 256 && g'.tun.queue == g.tun.queue
  {
    hide TS.HandleVerified, RL.Verify;
    if d.Carrying? { IncomingKeepsPeerIndex(g.tun, d.m, env); }
  }

  lemma InboundKeepsOwn(p: Peer, d: Datagram, envs: nat -> TS.Env, reading: nat, nextIndex: nat)
    requires Own(p, nextIndex) && p.limiter.startTime <= reading && !d.Empty?
    ensures var p' := Inbound(p, d, envs, reading).0;
            (p'.index, p'.siteId, p'.cidrs, p'.endpoint) == (p.index, p.siteId, p.cidrs, p.endpoint)
            && Own(p', nextIndex)
  {
    hide Decapsulate, DP.Drain;
    DecapsulateKeepsPeerIndex(Gate(p.tun, p.limiter), d, envs(0), reading);
    DrainKeepsPeerIndex(Decapsulate(Gate(p.tun, p.limiter), None, d, envs(0), reading).0.tun, envs, 1);
  }

  /** What a datagram gives: what it decrypts to goes to the host, what the tunnel answers goes to the peer's
      endpoint, and if there is then a session to send with, every packet that waited goes there too, once
      and in order. */
  lemma InboundGives(p: Peer, d: Datagram, envs: nat -> TS.Env, reading: nat, g: Gate, r: TS.Outcome)
    requires |p.tun.queue| <= TS.MAX_QUEUE_DEPTH && p.limiter.startTime <= reading && !d.Empty?
    requires Decapsulate(Gate(p.tun, p.limiter), None, d, envs(0), reading) == (g, r)
    ensures var out := Inbound(p, d, envs, reading).1;
            && (r.ToNetwork? ==> out != [] && out[0] == ToNet(r.m, p.endpoint))
            && (r.ToTunnelV4? || r.ToTunnelV6? ==> out != [] && out[0] == ToHost(r.packet))
    ensures g.tun.sessions[TS.Slot(g.tun.current)].Some? ==>
              var first := if r.ToNetwork? || r.ToTunnelV4? || r.ToTunnelV6? then 1 else 0;
              var (p', out) := Inbound(p, d, envs, reading);
              && p'.tun.queue == [] && first <= |out|
              && Addressed(DP.Encrypted(g.tun.sessions[TS.Slot(g.tun.current)].value, p.tun.queue), p.endpoint, out[first..])
  {
    hide Decapsulate, DP.Drain, DP.Encrypted, DP.Live;
    DecapsulateKeepsPeerIndex(Gate(p.tun, p.limiter), d, envs(0), reading);
    if g.tun.sessions[TS.Slot(g.tun.current)].Some? {
      DP.LiveMeans(g.tun);
      DP.DrainLive(g.tun, envs, 1);
      var ms := DP.Drain(g.tun, envs, 1).1;
      assert (OutOf(r, p.endpoint) + SentTo(ms, p.endpoint))[|OutOf(r, p.endpoint)|..] == SentTo(ms, p.endpoint);
    }
  }

  /** These messages, in this order, to this endpoint. */
  predicate Addressed(ms: seq<Message>, endpoint: nat, out: seq<Out>) {
    |out| == |ms| && forall k :: 0 <= k < |ms| ==> out[k] == ToNet(ms[k], endpoint)
  }

  /** A datagram addressed to an index that peer i issued, however long ago, finds peer i and no other. */
  lemma ReachesIssuer(peers: seq<Peer>, nextIndex: nat, i: nat, earlier: TS.Tunn, ops: seq<Op>,
                      datagram: seq<byte>, r: Option<nat>)
    requires RouterInv(peers, nextIndex) && i < |peers| && peers[i].tun == Run(earlier, ops)
    requires ParseIncomingPacket(datagram).Some? && !ParseIncomingPacket(datagram).value.HandshakeInit?
    requires ParseIncomingPacket(datagram).value.receiverIdx == earlier.hs.nextIndex
    requires PeerIndexOf(datagram).Some? && FoundAt(peers, PeerIndexOf(datagram).value, r)
    ensures r == Some(i)
  {
    hide Run;
    IssuedIndicesLeadBack(earlier, ops);
    DemuxExact(peers, nextIndex, datagram, i, r);
  }

  lemma OutgoingKeepsOwn(p: Peer, packet: TS.Packet, env: TS.Env, nextIndex: nat)
    requires Own(p, nextIndex)
    ensures Own(p.(tun := TS.Encapsulate(p.tun, packet, env).0), nextIndex)
  {
    hide TS.FormatHandshake;
    EncapsulateKeepsPeerIndex(p.tun, packet, env);
    if p.tun.sessions[TS.Slot(p.tun.current)].None? { DP.RequestEffect(TS.QueuePacket(p.tun, packet), env); }
  }

  lemma IndexRange(peers: seq<Peer>, nextIndex: nat)
    requires RouterInv(peers, nextIndex)
    ensures 1 <= nextIndex <= INDEX_LIMIT
  {}

  lemma NewPeerOwn(params: Params, env: TS.Env, p: Peer)
    requires 1 <= p.index < INDEX_LIMIT
    requires p.tun == TS.FormatHandshake(TS.NewTunnel(params, p.index, PERSISTENT_KEEPALIVE), env, false).0
    ensures Own(p, p.index + 1)
  {
    hide TS.FormatHandshake;
    var blank := TS.NewTunnel(params, p.index, PERSISTENT_KEEPALIVE);
    DP.RequestEffect(blank, env);
    FormatKeepsPeerIndex(blank, env, false);
    IndexFitsIff(p.index);
  }

  class Router {
    const secret: nat
    const mtu: nat
    var peers: seq<Peer>
    var nextIndex: nat

    ghost predicate Valid()
      reads this
    {
      RouterInv(peers, nextIndex)
    }

    constructor (secret: nat, mtu: nat)
      ensures Valid() && peers == [] && nextIndex == 1
    {
      this.secret, this.mtu, peers, nextIndex := secret, mtu, [], 1;
    }

    method RemovePeer(site: int)
      requires Valid()
      modifies this
      ensures Valid() && peers == Without(old(peers), site) && nextIndex == old(nextIndex)
    {
      WithoutKeepsInv(peers, site, nextIndex);
      peers := Without(peers, site);
    }

    /** Add or replace the peer of a site; a key that does not decode changes nothing. */
    method UpsertPeer(site: int, key: Option<Term>, endpoint: nat, cidrs: seq<Cidr>, env: TS.Env,
                      nonceKey: Term, secretKey: Term, reading: nat)
      returns (r: Option<(Message, nat)>)
      requires Valid() && nextIndex < INDEX_LIMIT
      requires env.dstLen == Scratch(mtu)
      modifies this
      ensures Valid()
      ensures key.None? ==> r == None && peers == old(peers) && nextIndex == old(nextIndex)
      ensures key.Some? ==>
                && r.Some? && r.value.0.Initiation? && r.value.1 == endpoint
                && nextIndex == old(nextIndex) + 1
                && |peers| == |Without(old(peers), site)| + 1
                && peers[..|peers| - 1] == Without(old(peers), site)
                && var p := peers[|peers| - 1];
                   (p.siteId, p.endpoint, p.cidrs, p.index) == (site, endpoint, cidrs, old(nextIndex))
                   && p.tun.hs.params == NewParams(secret, key.value, None)
                   && p.limiter == RL.NewLimiter(PublicKey(secret), nonceKey, secretKey, PEER_HANDSHAKE_RATE_LIMIT, reading)
                   && p.tun.hs.nextIndex == r.value.0.senderIdx
    {
      hide TS.FormatHandshake, Own, RouterInv;
      if key.None? { return None; }
      WithoutElements(peers, site);
      RemovePeer(site);
      IndexRange(peers, nextIndex);
      var index := nextIndex;
      nextIndex := Max((nextIndex + 1) % 0x1_0000_0000, 1);
      var blank := TS.NewTunnel(NewParams(secret, key.value, None), index, PERSISTENT_KEEPALIVE);
      var (tun, out) := TS.FormatHandshake(blank, env, false);
      FirstInitiation(blank, env);
      r := Some((out.m, endpoint));
      var limiter := RL.NewLimiter(PublicKey(secret), nonceKey, secretKey, PEER_HANDSHAKE_RATE_LIMIT, reading);
      var p := Peer(site, tun, limiter, endpoint, cidrs, index);
      NewPeerOwn(NewParams(secret, key.value, None), env, p);
      AppendKeepsInv(peers, p, index);
      peers := peers + [p];
    }

    method FindSite(site: int) returns (r: Option<nat>)
      ensures match r
              case Some(i) => i < |peers| && peers[i].siteId == site
              case None => forall j :: 0 <= j < |peers| ==> peers[j].siteId != site
    {
      for i := 0 to |peers|
        invariant forall j :: 0 <= j < i ==> peers[j].siteId != site
      {
        if peers[i].siteId == site { return Some(i); }
      }
      r := None;
    }

    method SetCidrs(site: int, cidrs: seq<Cidr>)
      requires Valid()
      modifies this
      ensures Valid() && nextIndex == old(nextIndex)
      ensures forall i :: 0 <= i < |old(peers)| && old(peers)[i].siteId == site ==>
                peers == old(peers)[i := old(peers)[i].(cidrs := cidrs)]
      ensures (forall i :: 0 <= i < |old(peers)| ==> old(peers)[i].siteId != site) ==> peers == old(peers)
    {
      hide Own;
      var found: Option<nat> := FindSite(site);
      if found.Some? {
        var p := peers[found.value];
        RangesApart(p, cidrs, nextIndex);
        ReplaceKeepsInv(peers, found.value, p.(cidrs := cidrs), nextIndex);
        peers := peers[found.value := p.(cidrs := cidrs)];
      }
    }

    method AddCidrs(site: int, more: seq<Cidr>)
      requires Valid()
      modifies this
      ensures Valid() && nextIndex == old(nextIndex)
      ensures forall i :: 0 <= i < |old(peers)| && old(peers)[i].siteId == site ==>
                peers == old(peers)[i := old(peers)[i].(cidrs := old(peers)[i].cidrs + more)]
      ensures (forall i :: 0 <= i < |old(peers)| ==> old(peers)[i].siteId != site) ==> peers == old(peers)
    {
      hide Own;
      var found: Option<nat> := FindSite(site);
      if found.Some? { SetCidrs(site, peers[found.value].cidrs + more); }
    }

    method RemoveCidrs(site: int, drop: seq<Cidr>)
      requires Valid()
      modifies this
      ensures Valid() && nextIndex == old(nextIndex)
      ensures forall i :: 0 <= i < |old(peers)| && old(peers)[i].siteId == site ==>
                peers == old(peers)[i := old(peers)[i].(cidrs := Kept(old(peers)[i].cidrs, drop))]
      ensures (forall i :: 0 <= i < |old(peers)| ==> old(peers)[i].siteId != site) ==> peers == old(peers)
    {
      hide Own;
      var found: Option<nat> := FindSite(site);
      if found.Some? {
        var cidrs := peers[found.value].cidrs;
        var kept: seq<Cidr> := [];
        for k := 0 to |cidrs|
          invariant kept == Kept(cidrs[..k], drop) && peers == old(peers) && nextIndex == old(nextIndex)
        {
          assert cidrs[..k + 1][..k] == cidrs[..k];
          if cidrs[k] !in drop { kept := kept + [cidrs[k]]; }
        }
        assert cidrs[..|cidrs|] == cidrs;
        SetCidrs(site, kept);
      }
    }

    /** The peer that owns dst by longest prefix, earliest first. */
    method BestPeer(dst: IpAddr) returns (r: Option<nat>)
      ensures r == match Best(peers, dst) case None => None case Some(b) => Some(b.0)
    {
      hide Contains;
      var best: Option<(nat, nat)> := None;
      for i := 0 to |peers|
        invariant best == Best(peers[..i], dst)
      {
        var p := peers[i];
        ghost var before := best;
        for k := 0 to |p.cidrs|
          invariant best == Better(before, Longest(p.cidrs[..k], dst), i)
        {
          var c := p.cidrs[k];
          assert p.cidrs[..k + 1][..k] == p.cidrs[..k];
          if Contains(c, dst) && (best.None? || c.prefix > best.value.1) {
            best := Some((i, c.prefix));
          }
        }
        assert p.cidrs[..|p.cidrs|] == p.cidrs;
        assert peers[..i + 1][..i] == peers[..i];
      }
      assert peers[..|peers|] == peers;
      r := match best case None => None case Some(b) => Some(b.0);
    }

    method FindByIndex(idx: nat) returns (r: Option<nat>)
      ensures FoundAt(peers, idx, r)
    {
      for i := 0 to |peers|
        invariant forall j :: 0 <= j < i ==> peers[j].index != idx
      {
        if peers[i].index == idx { return Some(i); }
      }
      r := None;
    }

    /** Encrypt an outgoing packet at the peer that owns its destination; no other peer is touched. */
    method RouteOutbound(dst: IpAddr, packet: TS.Packet, env: TS.Env) returns (r: Option<(Message, nat)>)
      requires Valid() && env.dstLen == Scratch(mtu)
      requires Best(peers, dst).Some? && DP.Live(peers[Best(peers, dst).value.0].tun) ==>
                 |packet| + DATA_OVERHEAD_SZ <= Scratch(mtu)
      modifies this
      ensures Valid() && nextIndex == old(nextIndex) && |peers| == |old(peers)|
      ensures match Best(old(peers), dst)
              case None => r == None && peers == old(peers)
              case Some(b) =>
                var p := old(peers)[b.0];
                var (t, out) := TS.Encapsulate(p.tun, packet, env);
                && peers == old(peers)[b.0 := p.(tun := t)]
                && r == if out.ToNetwork? then Some((out.m, p.endpoint)) else None
    {
      hide TS.Encapsulate, Best, Own;
      var i := BestPeer(dst);
      if i.None? { return None; }
      var p := peers[i.value];
      var (t, out) := TS.Encapsulate(p.tun, packet, env);
      OutgoingKeepsOwn(p, packet, env, nextIndex);
      ReplaceKeepsInv(peers, i.value, p.(tun := t), nextIndex);
      peers := peers[i.value := p.(tun := t)];
      r := if out.ToNetwork? then Some((out.m, p.endpoint)) else None;
    }

    /** A datagram goes to the peer whose index it carries, and to no other. */
    method HandleInbound(datagram: seq<byte>, d: Datagram, envs: nat -> TS.Env, reading: nat) returns (out: seq<Out>)
      requires Valid() && Reads(datagram, d) && forall p :: p in peers ==> p.limiter.startTime <= reading
      requires forall p :: p in peers && PeerIndexOf(datagram) == Some(p.index) ==> HasRoom(p, d, envs, reading, Scratch(mtu))
      modifies this
      ensures Valid() && nextIndex == old(nextIndex) && |peers| == |old(peers)|
      ensures forall i :: 0 <= i < |peers| && PeerIndexOf(datagram) == Some(old(peers)[i].index) ==>
                && !d.Empty?
                && peers == old(peers)[i := Inbound(old(peers)[i], d, envs, reading).0]
                && out == Inbound(old(peers)[i], d, envs, reading).1
      ensures (forall i :: 0 <= i < |peers| ==> PeerIndexOf(datagram) != Some(old(peers)[i].index)) ==>
                peers == old(peers) && out == []
    {
      hide Inbound, Own;
      var idx := PeerIndexOf(datagram);
      if idx.None? { return []; }
      var found: Option<nat> := FindByIndex(idx.value);
      if found.None? { return []; }
      var p := peers[found.value];
      assert p in peers && Own(p, nextIndex);
      OwnBoundsQueue(p, nextIndex);
      assert HasRoom(p, d, envs, reading, Scratch(mtu));  // or the code panics
      var (p', o) := Inbound(p, d, envs, reading);
      InboundKeepsOwn(p, d, envs, reading, nextIndex);
      ReplaceKeepsInv(peers, found.value, p', nextIndex);
      peers := peers[found.value := p'];
      out := o;
    }
  }

  lemma RangesApart(p: Peer, cidrs: seq<Cidr>, nextIndex: nat)
    requires Own(p, nextIndex)
    ensures Own(p.(cidrs := cidrs), nextIndex)
  {}

  lemma OwnBoundsQueue(p: Peer, nextIndex: nat)
    requires Own(p, nextIndex)
    ensures |p.tun.queue| <= TS.MAX_QUEUE_DEPTH
  {}

  function Max(a: nat, b: nat): (m: nat) { if a > b then a else b }

  /** The buffer every call of the engine gets. */
  function Scratch(mtu: nat): (room: nat) { Max(mtu, 1500) + 32 }

  /** What the connector reads a datagram into. */
  function ReceiveBuffer(mtu: nat): (room: nat) { Max(mtu, 1500) + 64 }

  /** Handling the datagram and draining the queue afterwards never meets a buffer too short for it. */
  ghost predicate HasRoom(p: Peer, d: Datagram, envs: nat -> TS.Env, reading: nat, room: nat)
    requires p.limiter.startTime <= reading
  {
    && (d.Carrying? && d.m.Data? && p.tun.sessions[TS.Slot(d.m.receiverIdx)].Some? ==> d.cipherLen <= room)
    && (DP.Live(Decapsulate(Gate(p.tun, p.limiter), None, d, envs(0), reading).0.tun) ==>
          forall q :: q in p.tun.queue ==> |q| + DATA_OVERHEAD_SZ <= room)
  }

  /** The ciphertext of a data packet fits if and only if the datagram is at most 16 bytes longer than the buffer. */
  lemma RoomForCiphertextIff(datagram: seq<byte>, d: Datagram, mtu: nat)
    requires Reads(datagram, d) && d.Carrying? && d.m.Data?
    ensures d.cipherLen <= Scratch(mtu) <==> |datagram| <= Max(mtu, 1500) + 48
  {
    hide FromLe;
  }

  /** The connector can receive longer ones, for any index and counter: up to 16 bytes longer than fit. */
  lemma LongestDatagramHasNoRoom(mtu: nat, receiverIdx: nat, counter: nat, body: Term)
    requires receiverIdx < Bound(4) && counter < Bound(8)
    ensures exists datagram, d ::
              && |datagram| == ReceiveBuffer(mtu) && Reads(datagram, d)
              && d.Carrying? && d.m == Data(receiverIdx, counter, body) && d.cipherLen > Scratch(mtu)
  {
    hide ParseIncomingPacket, Layout;
    var packet := PacketData(receiverIdx, counter, seq(Max(mtu, 1500) + 48, _ => 0));
    var macs := seq(32, _ => 0);
    ParseInvertsLayout(packet, macs);
    var datagram := Layout(packet, macs);
    LayoutLength(packet, macs);
    assert Reads(datagram, Carrying(Data(receiverIdx, counter, body), |packet.body|));
  }

  lemma LayoutLength(packet: Parsed, macs: seq<byte>)
    requires packet.PacketData?
    ensures |Layout(packet, macs)| == 16 + |packet.body|
  {
    hide ToLe;
  }

  /** One more candidate prefix of peer i. */
  function Better(best: Option<(nat, nat)>, p: Option<nat>, i: nat): (r: Option<(nat, nat)>) {
    if p.Some? && (best.None? || p.value > best.value.1) then Some((i, p.value)) else best
  }

  lemma FirstInitiation(t: TS.Tunn, env: TS.Env)
    requires !IsInProgress(t.hs) && env.dstLen >= HANDSHAKE_INIT_SZ
    ensures var (t', r) := TS.FormatHandshake(t, env, false);
            r.ToNetwork? && r.m.Initiation? && r.m.senderIdx == t'.hs.nextIndex && t'.hs.params == t.hs.params
  {
    hide TS.FormatHandshake, InitiationTranscript;
    DP.RequestSends(t, env);
  }
}
