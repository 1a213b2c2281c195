/** The path of a packet: queued, encrypted, decrypted, delivered. */
module DataPath {
  import opened Basics
  import opened Constants
  import opened Crypto
  import opened ReplaySpec
  import opened HandshakeSpec
  import opened TunnelSpec
  import opened TunnelRuns
  import HT = HandshakeTheorems
  import SL = SessionLifetimes

  predicate Live(t: Tunn) {
    t.sessions[Slot(t.current)].Some?
  }

  // Draining the queue.

  /** The packets one by one under the session, each with its own counter. */
  function Encrypted(s: Session, packets: seq<Packet>): (ms: seq<Message>)
    decreases |packets|
  {
    if packets == [] then [] else
      var (s', m) := FormatPacketData(s, packets[0]);
      [m] + Encrypted(s', packets[1..])
  }

  lemma {:induction false} EncryptedAt(s: Session, packets: seq<Packet>, i: nat)
    requires i < |packets|
    ensures |Encrypted(s, packets)| == |packets|
    ensures var n := s.sendingKeyCounter + i;
            Encrypted(s, packets)[i] == Data(s.sendingIndex, n, Seal(s.sendingKey, Number(n), [Payload(packets[i])], []))
    decreases |packets|
  {
    var s' := FormatPacketData(s, packets[0]).0;
    if i > 0 {
      EncryptedAt(s', packets[1..], i - 1);
    } else if |packets| > 1 {
      EncryptedAt(s', packets[1..], 0);
    } else {
      assert Encrypted(s', []) == [];
    }
  }

  /** What bounds the number of calls: the queue under a live session, else whether one handshake can
      still be started. */
  function Remaining(t: Tunn): (n: nat) {
    if Live(t) then |t.queue| else if IsInProgress(t.hs) then 0 else 1
  }

  lemma FlushLive(t: Tunn, env: Env)
    requires Live(t) && t.queue != []
    ensures var (t', r) := SendQueued(t, env);
            var s := t.sessions[Slot(t.current)].value;
            && r == ToNetwork(FormatPacketData(s, t.queue[0]).1)
            && t'.queue == t.queue[1..] && t'.current == t.current
            && t'.sessions[Slot(t.current)] == Some(FormatPacketData(s, t.queue[0]).0)
  {
    hide FormatPacketData;
  }

  /** Asking for a handshake sends one initiation unless one is pending or the buffer is too small. */
  lemma RequestEffect(t: Tunn, env: Env)
    ensures var (t', r) := FormatHandshake(t, env, false);
            && t'.queue == t.queue && t'.sessions == t.sessions && t'.current == t.current
            && (if IsInProgress(t.hs) then t' == t && r == Done
                else if env.dstLen >= HANDSHAKE_INIT_SZ then r.ToNetwork? && r.m.Initiation? && IsInProgress(t'.hs)
                else r.Fail?)
  {
    hide FormatInitiation;
    InitiationEffect(t.hs, env);
    var (hs', r) := FormatInitiation(t.hs, env.dstLen, env.e, env.stamp, env.now);
    if !IsInProgress(t.hs) && r.Ok? {
      var t1 := if t.hs.state.Expired? then ClearTimers(t, env.now) else t;
      assert FormatHandshake(t, env, false)
          == (Tick(Tick(t1.(hs := hs'), LAST_HANDSHAKE_STARTED), LAST_PACKET_SENT), ToNetwork(r.value));
    }
  }

  lemma FlushIdle(t: Tunn, env: Env)
    requires !Live(t) && t.queue != [] && |t.queue| <= MAX_QUEUE_DEPTH
    ensures var (t', r) := SendQueued(t, env);
            && !Live(t')
            && (IsInProgress(t.hs) ==> r == Done && t'.queue == t.queue[1..] + [t.queue[0]] && IsInProgress(t'.hs))
            && (!IsInProgress(t.hs) && env.dstLen >= HANDSHAKE_INIT_SZ ==>
                  r.ToNetwork? && r.m.Initiation? && t'.queue == t.queue[1..] + [t.queue[0]] && IsInProgress(t'.hs))
            && (!IsInProgress(t.hs) && env.dstLen < HANDSHAKE_INIT_SZ ==>
                  r == Done && t'.queue == if |t.queue| < MAX_QUEUE_DEPTH then [t.queue[0]] + t.queue[1..] + [t.queue[0]]
                                           else t.queue[1..] + [t.queue[0]])
  {
    hide FormatHandshake, IsInProgress;
    var t1 := QueuePacket(t.(queue := t.queue[1..]), t.queue[0]);
    assert t1 == t.(queue := t.queue[1..] + [t.queue[0]]);
    RequestEffect(t1, env);
    assert [t.queue[0]] + t.queue[1..] + [t.queue[0]] == [t.queue[0]] + (t.queue[1..] + [t.queue[0]]);
  }

  /** Without a session, flushing keeps the packets exactly when the buffer can take an initiation, or
      none is needed, or the queue is full; otherwise the packet is queued twice. */
  lemma FlushConserves(t: Tunn, env: Env)
    requires !Live(t) && t.queue != [] && |t.queue| <= MAX_QUEUE_DEPTH
    ensures multiset(SendQueued(t, env).0.queue) == multiset(t.queue) <==>
              env.dstLen >= HANDSHAKE_INIT_SZ || IsInProgress(t.hs) || |t.queue| == MAX_QUEUE_DEPTH
  {
    hide SendQueued;
    FlushIdle(t, env);
    var p, rest := t.queue[0], t.queue[1..];
    assert t.queue == [p] + rest;
    assert multiset(t.queue) == multiset{p} + multiset(rest);
    assert multiset(rest + [p]) == multiset(rest) + multiset{p};
    assert multiset([p] + rest + [p])[p] == multiset(t.queue)[p] + 1;
  }

  /** It happens: in a new tunnel a packet sent with such a buffer is queued, and the next flush doubles it. */
  lemma FlushDoubles(staticPrivate: nat, peer: Term, psk: Option<Term>, index: nat, keepalive: nat, packet: Packet, env: Env)
    requires |packet| + DATA_OVERHEAD_SZ <= env.dstLen < HANDSHAKE_INIT_SZ
    ensures var t := Step(NewTunnel(NewParams(staticPrivate, peer, psk), index, keepalive), Outgoing(packet, env)).0;
            t.queue == [packet] && Step(t, Flush(env)).0.queue == [packet, packet]
  {
    hide FormatHandshake;
    var t0 := NewTunnel(NewParams(staticPrivate, peer, psk), index, keepalive);
    RequestEffect(QueuePacket(t0, packet), env);
    var t := Step(t0, Outgoing(packet, env)).0;
    assert !IsInProgress(t.hs) by { StillIdle(QueuePacket(t0, packet), env); }
    FlushIdle(t, env);
  }

  lemma StillIdle(t: Tunn, env: Env)
    requires env.dstLen < HANDSHAKE_INIT_SZ
    ensures FormatHandshake(t, env, false).0.hs == t.hs
  {}

  lemma FlushKeepsLive(t: Tunn, env: Env)
    requires |t.queue| <= MAX_QUEUE_DEPTH
    ensures Live(SendQueued(t, env).0) == Live(t)
  {
    if t.queue != [] {
      hide SendQueued;
      if Live(t) { FlushLive(t, env); } else { FlushIdle(t, env); }
    }
  }

  lemma LiveMeans(t: Tunn)
    ensures Live(t) <==> t.sessions[Slot(t.current)].Some?
  {}

  /** Flushing never brings in a packet that was not queued. */
  lemma FlushKeepsPackets(t: Tunn, env: Env)
    requires |t.queue| <= MAX_QUEUE_DEPTH
    ensures forall p :: p in SendQueued(t, env).0.queue ==> p in t.queue
  {
    if t.queue != [] {
      hide SendQueued;
      if Live(t) { FlushLive(t, env); } else { FlushIdle(t, env); }
    }
  }

  /** The drain loop: flush until there is nothing to send. Call i has its own environment. */
  function Drain(t: Tunn, envs: nat -> Env, i: nat): (r: (Tunn, seq<Message>))
    requires |t.queue| <= MAX_QUEUE_DEPTH
    decreases Remaining(t)
  {
    var (t', r) := SendQueued(t, envs(i));
    if !r.ToNetwork? then (t', [])
    else
      FlushProgress(t, envs(i));
      var (t'', ms) := Drain(t', envs, i + 1);
      (t'', [r.m] + ms)
  }

  lemma DrainOnce(t: Tunn, envs: nat -> Env, i: nat)
    requires |t.queue| <= MAX_QUEUE_DEPTH
    ensures var (t', r) := SendQueued(t, envs(i));
            && |t'.queue| <= MAX_QUEUE_DEPTH
            && (!r.ToNetwork? ==> Drain(t, envs, i) == (t', []))
            && (r.ToNetwork? ==> Drain(t, envs, i) == (Drain(t', envs, i + 1).0, [r.m] + Drain(t', envs, i + 1).1))
  {
    if t.queue != [] {
      hide SendQueued;
      if Live(t) { FlushLive(t, envs(i)); } else { FlushIdle(t, envs(i)); }
    }
  }

  lemma FlushProgress(t: Tunn, env: Env)
    requires |t.queue| <= MAX_QUEUE_DEPTH && SendQueued(t, env).1.ToNetwork?
    ensures |SendQueued(t, env).0.queue| <= MAX_QUEUE_DEPTH
    ensures Remaining(SendQueued(t, env).0) < Remaining(t)
  {
    if t.queue != [] {
      hide SendQueued;
      if Live(t) { FlushLive(t, env); } else { FlushIdle(t, env); }
    }
  }

  /** Under a live session the drain loop sends the whole queue, in order, each packet once. */
  lemma {:induction false} DrainLive(t: Tunn, envs: nat -> Env, i: nat)
    requires Live(t) && |t.queue| <= MAX_QUEUE_DEPTH
    ensures Drain(t, envs, i).1 == Encrypted(t.sessions[Slot(t.current)].value, t.queue)
    ensures Drain(t, envs, i).0.queue == []
    decreases |t.queue|
  {
    if t.queue != [] {
      hide SendQueued, FormatPacketData;
      FlushLive(t, envs(i));
      DrainLive(SendQueued(t, envs(i)).0, envs, i + 1);
    } else {
      assert SendQueued(t, envs(i)) == (t, Done);
    }
  }

  lemma DrainPending(t: Tunn, envs: nat -> Env, i: nat)
    requires !Live(t) && IsInProgress(t.hs) && |t.queue| <= MAX_QUEUE_DEPTH
    ensures multiset(Drain(t, envs, i).0.queue) == multiset(t.queue) && Drain(t, envs, i).1 == []
  {
    DrainOnce(t, envs, i);
    if t.queue != [] {
      hide SendQueued, Drain;
      FlushIdle(t, envs(i));
      FlushConserves(t, envs(i));
    }
  }

  /** Without a session it stops within two calls, having sent at most one initiation, and keeps the
      packets. */
  lemma DrainIdle(t: Tunn, envs: nat -> Env, i: nat)
    requires !Live(t) && |t.queue| <= MAX_QUEUE_DEPTH
    requires envs(i).dstLen >= HANDSHAKE_INIT_SZ
    ensures var (t', ms) := Drain(t, envs, i);
            && multiset(t'.queue) == multiset(t.queue)
            && |ms| <= 1 && (forall k :: 0 <= k < |ms| ==> ms[k].Initiation?)
            && (ms != [] <==> t.queue != [] && !IsInProgress(t.hs))
  {
    DrainOnce(t, envs, i);
    if t.queue != [] {
      hide SendQueued, Drain, IsInProgress;
      FlushIdle(t, envs(i));
      FlushConserves(t, envs(i));
      if IsInProgress(t.hs) {
        DrainPending(t, envs, i);
      } else {
        DrainPending(SendQueued(t, envs(i)).0, envs, i + 1);
      }
    }
  }

  // From one end to the other.

  /** What a packet encrypted under one session becomes under the other. */
  lemma SealedPacketOpens(sa: Session, sb: Session, packet: Packet)
    requires HT.Crossed(sa, sb) && Fresh(sb.window, sa.sendingKeyCounter)
    ensures var m := FormatPacketData(sa, packet).1;
            ReceivePacketData(sb, m) == (sb.(window := Mark(sb.window, sa.sendingKeyCounter)), Ok(packet))
  {
    var m := FormatPacketData(sa, packet).1;
    OpenIffSealed(sb.receivingKey, Number(m.counter), m.body, [], [Payload(packet)]);
  }

  lemma FormatFields(s: Session, packet: Packet)
    ensures FormatPacketData(s, packet).1.Data?
    ensures FormatPacketData(s, packet).1.receiverIdx == s.sendingIndex
    ensures FormatPacketData(s, packet).1.counter == s.sendingKeyCounter
  {}

  lemma ResponderSessionIsFresh(v: View, m: Message, env: Env)
    requires m.Initiation? && ReceiveInitiation(v, m, env.dstLen, env.e).1.Ok?
    ensures var s := ReceiveInitiation(v, m, env.dstLen, env.e).1.value.1; s.window == EMPTY && s.sendingKeyCounter == 0
  {
    hide ExpectedInitiation, ResponseTranscript, AuthenticInitiation;
  }

  /** A session just installed by the initiator is the one it sends with. */
  lemma InitiatorUsesNewSession(t: Tunn, clock: nat, s: Session)
    requires Inv(t, clock)
    ensures var t' := InstallAsInitiator(t, s);
            t'.current == s.receivingIndex && t'.sessions[Slot(s.receivingIndex)] == Some(s)
  {
    hide Tick, HT.PendingInv;
    TickKeeps(Store(t, s), LAST_PACKET_RECEIVED);
    TickKeeps(Tick(Store(t, s), LAST_PACKET_RECEIVED), SESSION_ESTABLISHED);
  }

  lemma ResponderStores(t: Tunn, s: Session)
    ensures var t' := InstallAsResponder(t, s);
            && t'.sessions[Slot(s.receivingIndex)] == Some(s)
            && t'.sessionTimers[Slot(s.receivingIndex)] == t.timers[CURRENT] == t'.timers[CURRENT]
  {}

  /** The first packet under the newest session makes the receiver use it too. */
  lemma FirstPacketSwitches(b: Tunn, clock: nat, sa: Session, sb: Session)
    requires Inv(b, clock) && HT.Crossed(sa, sb) && sb.window == EMPTY && sa.sendingKeyCounter == 0
    requires b.sessions[Slot(sb.receivingIndex)] == Some(sb)
    requires b.sessionTimers[Slot(sb.receivingIndex)] == b.timers[CURRENT]
    ensures var (b', r) := HandleData(b, FormatPacketData(sa, []).1);
            && r == Done && b'.current == sb.receivingIndex
            && b'.sessions[Slot(sb.receivingIndex)] == Some(sb.(window := Window(1, {0})))
  {
    hide HT.PendingInv, FormatPacketData, ReceivePacketData, Tick;
    FormatFields(sa, []);
    SealedPacketOpens(sa, sb, []);
    assert Mark(EMPTY, 0).accepted == {0};
    var t1: Tunn := b.(sessions := b.sessions[Slot(sb.receivingIndex) := Some(sb.(window := Window(1, {0})))]);
    TickKeeps(SetCurrentSession(t1, sb.receivingIndex), LAST_PACKET_RECEIVED);
  }

  /** The first message of a handshake, as the tunnel sends it. */
  lemma RequestSends(a: Tunn, env: Env)
    requires !IsInProgress(a.hs) && env.dstLen >= HANDSHAKE_INIT_SZ
    ensures var (hs', m) := FormatInitiation(a.hs, env.dstLen, env.e, env.stamp, env.now);
            var (a', r) := FormatHandshake(a, env, false);
            m.Ok? && r == ToNetwork(m.value) && a'.hs == hs' && m.value.Initiation?
  {
    hide FormatInitiation;
    InitiationEffect(a.hs, env);
    var (hs', m) := FormatInitiation(a.hs, env.dstLen, env.e, env.stamp, env.now);
    var t1 := if a.hs.state.Expired? then ClearTimers(a, env.now) else a;
    assert FormatHandshake(a, env, false).0 == Tick(Tick(t1.(hs := hs'), LAST_HANDSHAKE_STARTED), LAST_PACKET_SENT);
  }

  /** Three messages: initiation, response, and the initiator's keepalive, which switches the responder. */
  ghost predicate Connects(a: Tunn, b: Tunn, envA: Env, envB: Env, a': Tunn, b': Tunn, keepalive: Message) {
    var (a1, r1) := FormatHandshake(a, envA, false);
    && r1.ToNetwork? && r1.m.Initiation?
    && var (b1, r2) := HandleInitiation(b, r1.m, envB);
       && r2.ToNetwork? && r2.m.Response?
       && var (a2, r3) := HandleResponse(a1, r2.m);
          && r3 == ToNetwork(keepalive) && keepalive.Data?
          && a' == a2 && HandleData(b1, keepalive) == (b', Done)
  }

  lemma ResponderHalf(b: Tunn, cb: nat, m: Message, env: Env)
    requires Inv(b, cb) && m.Initiation? && ReceiveInitiation(b.hs, m, env.dstLen, env.e).1.Ok?
    ensures var (answer, s) := ReceiveInitiation(b.hs, m, env.dstLen, env.e).1.value;
            var (b', r) := HandleInitiation(b, m, env);
            && Inv(b', cb) && r == ToNetwork(answer) && answer.Response? && s.window == EMPTY && s.sendingKeyCounter == 0
            && b'.sessions[Slot(s.receivingIndex)] == Some(s)
            && b'.sessionTimers[Slot(s.receivingIndex)] == b'.timers[CURRENT]
  {
    hide ReceiveInitiation, InstallAsResponder, TimesInOrder, RingInOrder;
    var (hs', rb) := ReceiveInitiation(b.hs, m, env.dstLen, env.e);
    SL.ReceiveInitiationEffect(b.hs, m, env);
    ResponderSessionIsFresh(b.hs, m, env);
    ResponderStores(b.(hs := hs'), rb.value.1);
    HandleInitiationInv(b, cb, m, env);
  }

  lemma InitiatorHalf(a: Tunn, ca: nat, m: Message)
    requires Inv(a, ca) && m.Response? && ReceiveResponse(a.hs, m).1.Ok?
    ensures var s := ReceiveResponse(a.hs, m).1.value;
            var (a', r) := HandleResponse(a, m);
            && r == ToNetwork(FormatPacketData(s, []).1) && s.window == EMPTY && s.sendingKeyCounter == 0
            && a'.current == s.receivingIndex
            && a'.sessions[Slot(s.receivingIndex)] == Some(s.(sendingKeyCounter := 1))
  {
    hide ReceiveResponse, InstallAsInitiator, TimesInOrder, RingInOrder, HT.PendingInv;
    var (hs', ra) := ReceiveResponse(a.hs, m);
    InitiatorSessionIsFresh(a.hs, m);
    NewHandshakeInvAfterResponse(a, ca, m);
    InitiatorUsesNewSession(a.(hs := hs'), ca, FormatPacketData(ra.value, []).0);
  }

  lemma Established(a: Tunn, ca: nat, b: Tunn, cb: nat, envA: Env, envB: Env)
    returns (a': Tunn, b': Tunn, sa: Session, sb: Session)
    requires Inv(a, ca) && Inv(b, cb) && ca <= envA.now
    requires !IsInProgress(a.hs) && HT.Matched(a.hs.params, b.hs.params) && After(envA.stamp, b.hs.lastTimestamp)
    requires envA.dstLen >= HANDSHAKE_INIT_SZ && envB.dstLen >= HANDSHAKE_RESP_SZ
    ensures Connects(a, b, envA, envB, a', b', FormatPacketData(sa.(sendingKeyCounter := 0), []).1)
    ensures HT.Crossed(sa, sb) && sa.window == EMPTY && sa.sendingKeyCounter == 1
    ensures sb.window == Window(1, {0}) && sb.sendingKeyCounter == 0
    ensures a'.current == sa.receivingIndex && a'.sessions[Slot(sa.receivingIndex)] == Some(sa)
    ensures b'.current == sb.receivingIndex && b'.sessions[Slot(sb.receivingIndex)] == Some(sb)
  {
    hide FormatInitiation, ReceiveInitiation, ReceiveResponse, FormatHandshake, HandleInitiation, HandleResponse, HandleData,
         FormatPacketData, TimesInOrder, RingInOrder, HT.Matched;
    HT.HandshakeAgreement(a.hs, b.hs, envA.e, envB.e, envA.stamp, envA.now, envA.dstLen, envB.dstLen);
    RequestSends(a, envA);
    var (a1, r1) := FormatHandshake(a, envA, false);
    FormatHandshakeInv(a, ca, envA, false);
    var (answer, sb0) := ReceiveInitiation(b.hs, r1.m, envB.dstLen, envB.e).1.value;
    var b1 := HandleInitiation(b, r1.m, envB).0;
    ResponderHalf(b, cb, r1.m, envB);
    var sa0 := ReceiveResponse(a1.hs, answer).1.value;
    InitiatorHalf(a1, envA.now, answer);
    a' := HandleResponse(a1, answer).0;
    FirstPacketSwitches(b1, cb, sa0, sb0);
    FormatFields(sa0, []);
    b' := HandleData(b1, FormatPacketData(sa0, []).1).0;
    sa, sb := sa0.(sendingKeyCounter := 1), sb0.(window := Window(1, {0}));
    assert sa.(sendingKeyCounter := 0) == sa0;
  }

  lemma InitiatorSessionIsFresh(v: View, m: Message)
    requires m.Response? && ReceiveResponse(v, m).1.Ok?
    ensures var s := ReceiveResponse(v, m).1.value; s.window == EMPTY && s.sendingKeyCounter == 0
  {
    hide ExpectedResponse, AuthenticResponse;
  }

  lemma NewHandshakeInvAfterResponse(t: Tunn, clock: nat, m: Message)
    requires Inv(t, clock) && m.Response?
    ensures Inv(t.(hs := ReceiveResponse(t.hs, m).0), clock)
  {
    hide ExpectedResponse, AuthenticResponse, RingInOrder, HT.PendingInv;
    HT.StepKeepsPendingInv(t.hs, HT.TakeResponse(m));
    NewHandshakeInv(t, clock, ReceiveResponse(t.hs, m).0);
  }

  /** A data message gives a packet exactly when it names the session's index, its counter is acceptable,
      and it was sealed under the session's key with that counter; the counter is then used up. Otherwise
      the session is left as it was. */
  lemma ReceivedExactly(s: Session, m: Message, packet: Packet)
    requires m.Data?
    ensures ReceivePacketData(s, m) == (s.(window := Mark(s.window, m.counter)), Ok(packet)) <==>
              && m.receiverIdx == s.receivingIndex && Fresh(s.window, m.counter)
              && m.body == Seal(s.receivingKey, Number(m.counter), [Payload(packet)], [])
    ensures ReceivePacketData(s, m).1 == Err(WrongIndex) <==> m.receiverIdx != s.receivingIndex
    ensures ReceivePacketData(s, m).1.Err? && ReceivePacketData(s, m).1.error.CounterRefused?
            <==> m.receiverIdx == s.receivingIndex && !Fresh(s.window, m.counter)
    ensures ReceivePacketData(s, m).1.Err? ==> ReceivePacketData(s, m).0 == s
  {
    OpenIffSealed(s.receivingKey, Number(m.counter), m.body, [], [Payload(packet)]);
    var plain := Open(s.receivingKey, Number(m.counter), m.body, []);
    if plain.Some? && |plain.value| == 1 {
      assert plain.value == [plain.value[0]];
    }
  }

  // Packets that wait for a session.

  /** Without a session a packet waits at the end of the queue, up to 256 of them. */
  lemma PacketWaits(t: Tunn, packet: Packet, env: Env)
    requires !Live(t)
    ensures Encapsulate(t, packet, env).0.queue == if |t.queue| < 256 then t.queue + [packet] else t.queue
    ensures !Live(Encapsulate(t, packet, env).0)
  {
    hide FormatInitiation;
  }

  lemma HandshakeKeepsQueue(a: Tunn, envA: Env, m: Message)
    requires m.Response?
    ensures FormatHandshake(a, envA, false).0.queue == a.queue && HandleResponse(a, m).0.queue == a.queue
  {
    hide FormatInitiation, ReceiveResponse;
  }

  /** Packets that waited for the handshake go out when it is done: once each, in the order they came,
      under the new session. */
  lemma WaitingPacketsGoOut(a: Tunn, ca: nat, b: Tunn, cb: nat, envA: Env, envB: Env, envs: nat -> Env)
    returns (a': Tunn, b': Tunn, sa: Session, sb: Session)
    requires Inv(a, ca) && Inv(b, cb) && ca <= envA.now
    requires !IsInProgress(a.hs) && HT.Matched(a.hs.params, b.hs.params) && After(envA.stamp, b.hs.lastTimestamp)
    requires envA.dstLen >= HANDSHAKE_INIT_SZ && envB.dstLen >= HANDSHAKE_RESP_SZ
    ensures Connects(a, b, envA, envB, a', b', FormatPacketData(sa.(sendingKeyCounter := 0), []).1)
    ensures HT.Crossed(sa, sb) && |a'.queue| <= MAX_QUEUE_DEPTH
    ensures Drain(a', envs, 0).1 == Encrypted(sa, a.queue) && Drain(a', envs, 0).0.queue == []
  {
    hide FormatHandshake, HandleInitiation, HandleResponse, HandleData, TimesInOrder, RingInOrder, HT.Matched, SendQueued, FormatPacketData;
    a', b', sa, sb := Established(a, ca, b, cb, envA, envB);
    var (a1, r1) := FormatHandshake(a, envA, false);
    var (b1, r2) := HandleInitiation(b, r1.m, envB);
    HandshakeKeepsQueue(a, envA, r2.m);
    HandshakeKeepsQueue(a1, envA, r2.m);
    DrainLive(a', envs, 0);
  }
}
