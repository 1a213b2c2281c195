/** From a handshake to a stream of packets: two tunnels configured for each other get connected, by one
    handshake or by two that cross, and from then on lose nothing of their own. */
module Connections {
  import opened Basics
  import opened Constants
  import opened ReplaySpec
  import opened HandshakeSpec
  import opened TunnelSpec
  import opened Streams
  import TR = TunnelRuns
  import HT = HandshakeTheorems
  import SL = SessionLifetimes
  import DP = DataPath

  const NO_TRAFFIC := Wire([], [], [], [])

  /** Whatever the two sides send and whatever the network does, arrivals are decided by their counters alone. */
  ghost predicate AlwaysReliable(l: Link) {
    forall mvs :: Legal(l, mvs) ==> Reliable(Streams.Run(l, mvs))
  }

  lemma InvForever(l: Link)
    requires Streams.Inv(l)
    ensures AlwaysReliable(l)
  {
    hide Streams.Inv, Reliable;
    forall mvs | Legal(l, mvs) ensures Reliable(Streams.Run(l, mvs)) {
      Streams.RunKeepsInv(l, mvs);
      InvIsReliable(Streams.Run(l, mvs));
    }
  }

  lemma QuietWire(sx: Session, sy: Session)
    requires HT.Crossed(sx, sy) && sx.sendingKeyCounter == 0 && sy.window == EMPTY
    ensures WireInv(sx, sy, NO_TRAFFIC)
  {}

  /** A wire on which the keepalive of the handshake was sent. */
  lemma KeepaliveWire(sx: Session, sy: Session)
    requires HT.Crossed(sx, sy) && sx.sendingKeyCounter == 1 && sy.window == EMPTY
    ensures WireInv(sx, sy, Wire([[]], [Sealed(sx, 0, [])], [], []))
  {}

  /** A wire on which that keepalive also arrived. */
  lemma OpenedWire(sx: Session, sy: Session)
    requires HT.Crossed(sx, sy) && sx.sendingKeyCounter == 1 && sy.window == Window(1, {0})
    ensures WireInv(sx, sy, Wire([[]], [Sealed(sx, 0, [])], [0], [Done]))
  {
    KeepaliveWire(sx, sy.(window := EMPTY));
    ArriveKeepsWire(sx, sy.(window := EMPTY), Wire([[]], [Sealed(sx, 0, [])], [], []), 0, Done);
    assert [] + [0] == [0] && [] + [Done] == [Done];
    assert Mark(EMPTY, 0) == Window(1, {0});
  }

  /** The link after a handshake: one lane, on which the keepalive went and arrived. */
  function Opened(a: Tunn, b: Tunn, keepalive: Message): (l: Link) {
    Link(a, b, [Lane(a.current, b.current, Wire([[]], [keepalive], [0], [Done]), NO_TRAFFIC, true)])
  }

  /** For all keys and all states of two tunnels configured for each other, a handshake that one of them
      starts connects them; and then, whatever both send and in whatever order it arrives, each arrival
      is handed on exactly when its counter is new and not 1024 or more behind. */
  lemma EndToEnd(a: Tunn, ca: nat, b: Tunn, cb: nat, envA: Env, envB: Env)
    requires TR.Inv(a, ca) && TR.Inv(b, cb) && ca <= envA.now
    requires !IsInProgress(a.hs) && HT.Matched(a.hs.params, b.hs.params) && After(envA.stamp, b.hs.lastTimestamp)
    requires envA.dstLen >= HANDSHAKE_INIT_SZ && envB.dstLen >= HANDSHAKE_RESP_SZ
    ensures exists a', b', keepalive ::
              DP.Connects(a, b, envA, envB, a', b', keepalive) && AlwaysReliable(Opened(a', b', keepalive))
  {
    hide DP.Connects, TR.Inv, HT.Matched, WireInv, AlwaysReliable;
    var a', b', sa, sb := DP.Established(a, ca, b, cb, envA, envB);
    OpenedWire(sa, sb);
    QuietWire(sb, sa);
    var l := Opened(a', b', Sealed(sa, 0, []));
    assert LaneInv(l.a, l.b, l.lanes[0]);
    InvForever(l);
    assert DP.Connects(a, b, envA, envB, a', b', Sealed(sa, 0, []));
  }

  // Both sides initiate at the same time.

  /** One of two crossing handshakes, as far as the views of the two sides go. */
  lemma CrossingExchange(x: Tunn, y1: Tunn, envX: Env, envY: Env)
    requires Coherent(x.hs.params) && Coherent(y1.hs.params)
    requires !IsInProgress(x.hs) && HT.Matched(x.hs.params, y1.hs.params) && After(envX.stamp, y1.hs.lastTimestamp)
    requires envX.dstLen >= HANDSHAKE_INIT_SZ && envY.dstLen >= HANDSHAKE_RESP_SZ
    ensures var (x1, r1) := FormatHandshake(x, envX, false);
            && r1.ToNetwork? && r1.m.Initiation? && x1.hs.state.InitSent? && x1.hs.previous == x.hs.state
            && x1.hs.params == x.hs.params && x1.hs.lastTimestamp == x.hs.lastTimestamp
            && var ok := ReceiveInitiation(y1.hs, r1.m, envY.dstLen, envY.e).1;
               && ok.Ok? && ok.value.0.Response?
               && var done := ReceiveResponse(x1.hs, ok.value.0).1;
                  done.Ok? && HT.Crossed(done.value, ok.value.1) && done.value.receivingIndex == x1.hs.nextIndex
  {
    hide FormatInitiation, ReceiveInitiation, ReceiveResponse, FormatHandshake, HT.Matched, Coherent, After;
    HT.HandshakeAgreement(x.hs, y1.hs, envX.e, envY.e, envX.stamp, envX.now, envX.dstLen, envY.dstLen);
    DP.RequestSends(x, envX);
    var (x1, r1) := FormatHandshake(x, envX, false);
    TR.InitiationEffect(x.hs, envX);
    SL.ReceiveInitiationEffect(y1.hs, r1.m, envY);
    var answer := ReceiveInitiation(y1.hs, r1.m, envY.dstLen, envY.e).1.value.0;
    SL.ReceiveResponseEffect(x1.hs, answer);
    TR.FormatKeeps(x.hs, envX);
  }

  /** A pending initiation that is parked while the peer's is answered is completed just the same. */
  lemma ParkedIsCompleted(v: View, m: Message, env: Env, answer: Message)
    requires m.Initiation? && ReceiveInitiation(v, m, env.dstLen, env.e).1.Ok?
    requires v.state.InitSent? && !v.previous.InitSent?
    requires answer.Response? && ReceiveResponse(v, answer).1.Ok?
    ensures ReceiveResponse(ReceiveInitiation(v, m, env.dstLen, env.e).0, answer).1 == ReceiveResponse(v, answer).1
  {
    hide ReceiveInitiation, ExpectedResponse, AuthenticResponse;
    SL.ReceiveInitiationEffect(v, m, env);
    SL.ParamsKept(v, m, env);
  }

  lemma InstalledBeside(t: Tunn, s: Session)
    ensures InstallAsInitiator(t, s).sessions == t.sessions[Slot(s.receivingIndex) := Some(s)]
  {
    hide Tick;
    var t1 := Store(t, s);
    TR.TickKeeps(t1, LAST_PACKET_RECEIVED);
    TR.TickKeeps(Tick(t1, LAST_PACKET_RECEIVED), SESSION_ESTABLISHED);
  }

  /** One side of the crossing: it answers the peer's initiation, then takes the answer to its own. It
      ends with both sessions, using the one it initiated. */
  lemma SideEnds(x1: Tunn, cx: nat, m: Message, env: Env, answer: Message)
    requires TR.Inv(x1, cx) && m.Initiation? && ReceiveInitiation(x1.hs, m, env.dstLen, env.e).1.Ok?
    requires x1.hs.state.InitSent? && !x1.hs.previous.InitSent?
    requires answer.Response? && ReceiveResponse(x1.hs, answer).1.Ok?
    requires ReceiveResponse(x1.hs, answer).1.value.receivingIndex == x1.hs.nextIndex
    ensures var (own, sr) := ReceiveInitiation(x1.hs, m, env.dstLen, env.e).1.value;
            var si := ReceiveResponse(x1.hs, answer).1.value;
            var (x2, r2) := HandleInitiation(x1, m, env);
            var (x3, r3) := HandleResponse(x2, answer);
            && r2 == ToNetwork(own) && r3 == ToNetwork(FormatPacketData(si, []).1)
            && x3.current == si.receivingIndex
            && x3.sessions[Slot(si.receivingIndex)] == Some(si.(sendingKeyCounter := 1))
            && x3.sessions[Slot(sr.receivingIndex)] == Some(sr)
            && Slot(sr.receivingIndex) != Slot(si.receivingIndex) && sr.receivingIndex != si.receivingIndex
            && si.window == EMPTY && si.sendingKeyCounter == 0 && sr.window == EMPTY && sr.sendingKeyCounter == 0
  {
    hide ReceiveInitiation, ReceiveResponse, TR.Inv, InstallAsInitiator, InstallAsResponder;
    var (own, sr) := ReceiveInitiation(x1.hs, m, env.dstLen, env.e).1.value;
    var si := ReceiveResponse(x1.hs, answer).1.value;
    var x2 := HandleInitiation(x1, m, env).0;
    DP.ResponderHalf(x1, cx, m, env);
    SL.ReceiveInitiationEffect(x1.hs, m, env);
    SL.InstallSameHandshake(x1.(hs := ReceiveInitiation(x1.hs, m, env.dstLen, env.e).0), sr);
    ParkedIsCompleted(x1.hs, m, env, answer);
    DP.InitiatorHalf(x2, cx, answer);
    InstalledBeside(x2.(hs := ReceiveResponse(x2.hs, answer).0), FormatPacketData(si, []).0);
    SL.AdvanceFacts(si.receivingIndex, 0);
    SL.SlotsDiffer(si.receivingIndex, 1);
  }

  /** Both sides send an initiation, both answer, both take the answer. */
  ghost predicate Crosses(a: Tunn, b: Tunn, envA: Env, envB: Env, envA': Env, envB': Env,
                          a': Tunn, b': Tunn, keepaliveA: Message, keepaliveB: Message)
  {
    var (a1, ma) := FormatHandshake(a, envA, false);
    var (b1, mb) := FormatHandshake(b, envB, false);
    && ma.ToNetwork? && ma.m.Initiation? && mb.ToNetwork? && mb.m.Initiation?
    && var (a2, ra) := HandleInitiation(a1, mb.m, envA');
       var (b2, rb) := HandleInitiation(b1, ma.m, envB');
       && ra.ToNetwork? && ra.m.Response? && rb.ToNetwork? && rb.m.Response?
       && HandleResponse(a2, rb.m) == (a', ToNetwork(keepaliveA))
       && HandleResponse(b2, ra.m) == (b', ToNetwork(keepaliveB))
  }

  /** The link after that: on each side the current session is the one it initiated, and the keepalives
      are on their way. */
  function Crossing(a: Tunn, b: Tunn, keepaliveA: Message, keepaliveB: Message): (l: Link)
    requires DP.Live(a) && DP.Live(b)
  {
    var ib, ia := a.sessions[Slot(a.current)].value.sendingIndex, b.sessions[Slot(b.current)].value.sendingIndex;
    Link(a, b, [Lane(a.current, ib, Wire([[]], [keepaliveA], [], []), NO_TRAFFIC, true),
                Lane(ia, b.current, NO_TRAFFIC, Wire([[]], [keepaliveB], [], []), true)])
  }

  /**
    Two tunnels that initiate at the same time both succeed, and end with two sessions in common. Each
    uses the one it initiated, so their current sessions are not each other's counterparts; and yet
    everything either of them sends is received, whatever order the keepalives and the packets arrive
    in and however often that switches them.
  */
  lemma SimultaneousInitiation(a: Tunn, ca: nat, b: Tunn, cb: nat, envA: Env, envB: Env, envA': Env, envB': Env)
    requires TR.Inv(a, ca) && TR.Inv(b, cb) && ca <= envA.now && cb <= envB.now
    requires !IsInProgress(a.hs) && !IsInProgress(b.hs)
    requires HT.Matched(a.hs.params, b.hs.params)
    requires After(envA.stamp, b.hs.lastTimestamp) && After(envB.stamp, a.hs.lastTimestamp)
    requires envA.dstLen >= HANDSHAKE_INIT_SZ && envB.dstLen >= HANDSHAKE_INIT_SZ
    requires envA'.dstLen >= HANDSHAKE_RESP_SZ && envB'.dstLen >= HANDSHAKE_RESP_SZ
    ensures exists a', b', keepaliveA, keepaliveB ::
              && Crosses(a, b, envA, envB, envA', envB', a', b', keepaliveA, keepaliveB)
              && DP.Live(a') && DP.Live(b')
              && !HT.Crossed(a'.sessions[Slot(a'.current)].value, b'.sessions[Slot(b'.current)].value)
              && AlwaysReliable(Crossing(a', b', keepaliveA, keepaliveB))
  {
    hide FormatHandshake, HandleInitiation, HandleResponse, ReceiveInitiation, ReceiveResponse, TR.Inv, WireInv, AlwaysReliable,
         HT.Matched, After, Coherent, FormatPacketData;
    Configured(a, ca);
    Configured(b, cb);
    MatchedBack(a.hs.params, b.hs.params);
    var (a1, ma) := FormatHandshake(a, envA, false);
    var (b1, mb) := FormatHandshake(b, envB, false);
    TR.FormatHandshakeInv(a, ca, envA, false);
    TR.FormatHandshakeInv(b, cb, envB, false);
    StartKeeps(a, envA);
    StartKeeps(b, envB);
    CrossingExchange(a, b1, envA, envB');
    CrossingExchange(b, a1, envB, envA');
    var (rb, sbr) := ReceiveInitiation(b1.hs, ma.m, envB'.dstLen, envB'.e).1.value;
    var (ra, sar) := ReceiveInitiation(a1.hs, mb.m, envA'.dstLen, envA'.e).1.value;
    var sai, sbi := ReceiveResponse(a1.hs, rb).1.value, ReceiveResponse(b1.hs, ra).1.value;
    SideEnds(a1, envA.now, mb.m, envA', rb);
    SideEnds(b1, envB.now, ma.m, envB', ra);
    var a' := HandleResponse(HandleInitiation(a1, mb.m, envA').0, rb).0;
    var b' := HandleResponse(HandleInitiation(b1, ma.m, envB').0, ra).0;
    var sa, sb := sai.(sendingKeyCounter := 1), sbi.(sendingKeyCounter := 1);
    KeepaliveWire(sa, sbr);
    QuietWire(sbr, sa);
    KeepaliveWire(sb, sar);
    QuietWire(sar, sb);
    assert sa.(sendingKeyCounter := 0) == sai && sb.(sendingKeyCounter := 0) == sbi;
    var lane0 := Lane(sa.receivingIndex, sbr.receivingIndex, Wire([[]], [Sealed(sa, 0, [])], [], []), NO_TRAFFIC, true);
    var lane1 := Lane(sar.receivingIndex, sb.receivingIndex, NO_TRAFFIC, Wire([[]], [Sealed(sb, 0, [])], [], []), true);
    var l := Crossing(a', b', Sealed(sa, 0, []), Sealed(sb, 0, []));
    assert l.lanes == [lane0, lane1];
    assert LaneInv(l.a, l.b, lane0);
    assert LaneInv(l.a, l.b, lane1);
    InvForever(l);
    assert Crosses(a, b, envA, envB, envA', envB', a', b', Sealed(sa, 0, []), Sealed(sb, 0, []));
  }

  lemma Configured(t: Tunn, clock: nat)
    requires TR.Inv(t, clock)
    ensures Coherent(t.hs.params)
  {}

  lemma MatchedBack(i: Params, r: Params)
    requires HT.Matched(i, r)
    ensures HT.Matched(r, i)
  {}

  lemma StartKeeps(t: Tunn, env: Env)
    requires !IsInProgress(t.hs) && env.dstLen >= HANDSHAKE_INIT_SZ
    ensures var t' := FormatHandshake(t, env, false).0;
            t'.hs.params == t.hs.params && t'.hs.lastTimestamp == t.hs.lastTimestamp
  {
    hide FormatInitiation, FormatHandshake;
    DP.RequestSends(t, env);
    TR.FormatKeeps(t.hs, env);
  }
}
