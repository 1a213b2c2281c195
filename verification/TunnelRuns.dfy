/** What every run of a tunnel keeps. */
module TunnelRuns {
  import opened Basics
  import opened Constants
  import opened Crypto
  import opened ReplaySpec
  import opened HandshakeSpec
  import opened TunnelSpec
  import HT = HandshakeTheorems

  /** One call into the tunnel. Incoming messages are those that passed the rate limiter. */
  datatype Op =
    | Outgoing(packet: Packet, env: Env)
    | Incoming(m: Message, env: Env)
    | Flush(env: Env)
    | Update(env: Env)
    | Request(env: Env)
    | Rekey(key: nat, env: Env)

  function Step(t: Tunn, op: Op): (r: (Tunn, Outcome)) {
    match op
    case Outgoing(packet, env) => Encapsulate(t, packet, env)
    case Incoming(m, env) => HandleVerified(t, m, env)
    case Flush(env) => SendQueued(t, env)
    case Update(env) => UpdateTimers(t, env)
    case Request(env) => FormatHandshake(t, env, false)
    case Rekey(key, env) => (ChangeKey(t, key), Done)
  }

  function Run(t: Tunn, ops: seq<Op>): (t': Tunn)
    decreases |ops|
  {
    if ops == [] then t else Run(Step(t, ops[0]).0, ops[1..])
  }

  /** The clock never goes back. */
  ghost predicate ClockRuns(clock: nat, ops: seq<Op>)
    decreases |ops|
  {
    ops == [] || (clock <= ops[0].env.now && ClockRuns(ops[0].env.now, ops[1..]))
  }

  function LastReading(clock: nat, ops: seq<Op>): (c: nat)
    decreases |ops|
  {
    if ops == [] then clock else LastReading(ops[0].env.now, ops[1..])
  }

  // The invariants.

  /** No stored time is ahead of the tunnel's clock, nor that of the real one: no difference of times
      the tunnel takes is negative. */
  ghost predicate TimesInOrder(t: Tunn, clock: nat) {
    && t.timers[CURRENT] <= clock
    && (forall i :: 0 <= i < N_TIMERS ==> t.timers[i] <= t.timers[CURRENT])
    && (forall i :: 0 <= i < N_SESSIONS ==> t.sessionTimers[i] <= t.timers[CURRENT])
    && (t.hs.state.InitSent? ==> t.hs.state.timeSent <= clock)
    && (t.hs.previous.InitSent? ==> t.hs.previous.timeSent <= clock)
  }

  /** A session sits in the slot of its own index. */
  ghost predicate RingInOrder(t: Tunn) {
    forall i :: 0 <= i < N_SESSIONS && t.sessions[i].Some? ==> Slot(t.sessions[i].value.receivingIndex) == i
  }

  ghost predicate Inv(t: Tunn, clock: nat) {
    TimesInOrder(t, clock) && RingInOrder(t) && |t.queue| <= MAX_QUEUE_DEPTH && HT.PendingInv(t.hs)
  }

  lemma NewTunnelInv(staticPrivate: nat, peer: Term, psk: Option<Term>, index: nat, keepalive: nat, clock: nat)
    ensures Inv(NewTunnel(NewParams(staticPrivate, peer, psk), index, keepalive), clock)
  {}

  /** The same slots are filled, with the same clocks. */
  ghost predicate SameSlots(t: Tunn, t': Tunn) {
    t'.sessionTimers == t.sessionTimers
    && forall i :: 0 <= i < N_SESSIONS ==> (t'.sessions[i].Some? <==> t.sessions[i].Some?)
  }

  lemma TickInv(t: Tunn, clock: nat, name: nat)
    requires Inv(t, clock) && name < N_TIMERS
    ensures Inv(Tick(t, name), clock)
  {
    hide HT.PendingInv, RingInOrder;
    assert RingInOrder(t) ==> RingInOrder(Tick(t, name)) by { RingDepends(t, Tick(t, name)); }
  }

  lemma RingDepends(t: Tunn, t': Tunn)
    requires t.sessions == t'.sessions
    ensures RingInOrder(t) == RingInOrder(t')
  {}

  /** What formatting an initiation does to the pending handshakes. */
  lemma InitiationEffect(v: View, env: Env)
    ensures var (v', r) := FormatInitiation(v, env.dstLen, env.e, env.stamp, env.now);
            && (r.Ok? <==> env.dstLen >= HANDSHAKE_INIT_SZ)
            && (r.Err? ==> v' == v)
            && (r.Ok? ==> r.value.Initiation? && v'.state.InitSent? && v'.state.timeSent == env.now
                          && v'.state.localIndex == v'.nextIndex == NextIndex(v.nextIndex) && v'.previous == v.state)
  {
    hide InitiationTranscript;
  }

  /** Formatting an initiation leaves the keys, the last timestamp and the cookie. */
  lemma FormatKeeps(v: View, env: Env)
    ensures var v' := FormatInitiation(v, env.dstLen, env.e, env.stamp, env.now).0;
            v'.params == v.params && v'.lastTimestamp == v.lastTimestamp && v'.cookies.writeCookie == v.cookies.writeCookie
  {
    hide InitiationTranscript;
  }

  /** Ticking the start of a handshake and the sent packet, or only the latter. */
  lemma TwoTicksInv(t: Tunn, clock: nat)
    requires Inv(t, clock)
    ensures Inv(Tick(t, LAST_PACKET_SENT), clock)
    ensures Inv(Tick(Tick(t, LAST_HANDSHAKE_STARTED), LAST_PACKET_SENT), clock)
    ensures SameSlots(t, Tick(t, LAST_PACKET_SENT))
    ensures SameSlots(t, Tick(Tick(t, LAST_HANDSHAKE_STARTED), LAST_PACKET_SENT))
  {
    hide Inv, Tick;
    TickInv(t, clock, LAST_HANDSHAKE_STARTED);
    TickInv(Tick(t, LAST_HANDSHAKE_STARTED), clock, LAST_PACKET_SENT);
    TickInv(t, clock, LAST_PACKET_SENT);
    TickKeeps(t, LAST_HANDSHAKE_STARTED);
    TickKeeps(Tick(t, LAST_HANDSHAKE_STARTED), LAST_PACKET_SENT);
    TickKeeps(t, LAST_PACKET_SENT);
  }

  lemma ClearTimersInv(t: Tunn, clock: nat, now: nat)
    requires Inv(t, clock) && clock <= now
    ensures Inv(ClearTimers(t, now), now)
  {
    hide HT.PendingInv, RingInOrder;
    RingDepends(t, ClearTimers(t, now));
  }

  lemma FormatHandshakeInv(t: Tunn, clock: nat, env: Env, force: bool)
    requires Inv(t, clock) && clock <= env.now
    ensures Inv(FormatHandshake(t, env, force).0, env.now)
    ensures SameSlots(t, FormatHandshake(t, env, force).0)
  {
    hide HT.PendingInv, FormatInitiation, Tick, RingInOrder, SameSlots;
    LaterClock(t, clock, env.now);
    ClearTimersInv(t, clock, env.now);
    var t1 := if t.hs.state.Expired? then ClearTimers(t, env.now) else t;
    assert SameSlots(t, t1) by { SameSlotsFlags(t, t1); }
    var hs' := FormatInitiation(t.hs, env.dstLen, env.e, env.stamp, env.now).0;
    InitiationEffect(t.hs, env);
    HT.StepKeepsPendingInv(t.hs, HT.Initiate(env.dstLen, env.e, env.stamp, env.now));
    NewHandshakeInv(t1, env.now, hs');
    var t2: Tunn := t1.(hs := hs');
    SameSlotsFlags(t1, t2);
    SameSlotsTrans(t, t1, t2);
    TwoTicksInv(t2, env.now);
    SameSlotsTrans(t, t2, Tick(t2, LAST_PACKET_SENT));
    SameSlotsTrans(t, t2, Tick(Tick(t2, LAST_HANDSHAKE_STARTED), LAST_PACKET_SENT));
    SameSlotsFlags(t, t);
  }

  lemma TickKeeps(t: Tunn, name: nat)
    requires name < N_TIMERS
    ensures Tick(t, name).sessions == t.sessions && Tick(t, name).sessionTimers == t.sessionTimers
    ensures Tick(t, name).hs == t.hs && Tick(t, name).queue == t.queue && Tick(t, name).current == t.current
    ensures Tick(t, name).timers[CURRENT] == t.timers[CURRENT]
    ensures Tick(t, name).txBytes == t.txBytes && Tick(t, name).rxBytes == t.rxBytes
  {}

  lemma SendInv(t: Tunn, clock: nat, packet: Packet)
    requires Inv(t, clock) && t.sessions[Slot(t.current)].Some?
    ensures Inv(Send(t, packet).0, clock)
    ensures SameSlots(t, Send(t, packet).0)
  {
    hide HT.PendingInv, Tick;
    var s := FormatPacketData(t.sessions[Slot(t.current)].value, packet).0;
    var t1: Tunn := t.(sessions := t.sessions[Slot(t.current) := Some(s)]);
    var t2 := Tick(t1, LAST_PACKET_SENT);
    TickInv(t1, clock, LAST_PACKET_SENT);
    TickInv(t2, clock, LAST_DATA_PACKET_SENT);
    TickKeeps(t1, LAST_PACKET_SENT);
    TickKeeps(t2, LAST_DATA_PACKET_SENT);
  }

  lemma EncapsulateInv(t: Tunn, clock: nat, packet: Packet, env: Env)
    requires Inv(t, clock) && clock <= env.now
    ensures Inv(Encapsulate(t, packet, env).0, env.now)
    ensures SameSlots(t, Encapsulate(t, packet, env).0)
  {
    hide HT.PendingInv, FormatHandshake, Send, RingInOrder;
    if t.sessions[Slot(t.current)].Some? {
      SendInv(t, env.now, packet);
    } else {
      RingDepends(t, QueuePacket(t, packet));
      FormatHandshakeInv(QueuePacket(t, packet), clock, env, false);
    }
  }

  lemma SendQueuedInv(t: Tunn, clock: nat, env: Env)
    requires Inv(t, clock) && clock <= env.now
    ensures Inv(SendQueued(t, env).0, env.now)
  {
    hide HT.PendingInv, Encapsulate;
    if t.queue != [] {
      EncapsulateInv(t.(queue := t.queue[1..]), clock, t.queue[0], env);
    }
  }

  lemma StoreInv(t: Tunn, clock: nat, s: Session)
    requires Inv(t, clock)
    ensures Inv(Store(t, s), clock)
  {
    hide HT.PendingInv, TimesInOrder;
    assert TimesInOrder(t, clock) ==> TimesInOrder(Store(t, s), clock) by { TimesDepend(t, Store(t, s), clock); }
  }

  lemma TimesDepend(t: Tunn, t': Tunn, clock: nat)
    requires t.timers == t'.timers && t.sessionTimers == t'.sessionTimers && t.hs == t'.hs
    ensures TimesInOrder(t, clock) == TimesInOrder(t', clock)
  {}

  lemma EstablishedInv(t: Tunn, clock: nat, isInitiator: bool, idx: nat)
    requires Inv(t, clock)
    ensures Inv(TickSessionEstablished(t, isInitiator, idx), clock)
  {
    hide HT.PendingInv, RingInOrder;
    RingDepends(t, TickSessionEstablished(t, isInitiator, idx));
  }

  lemma InstallInv(t: Tunn, clock: nat, s: Session)
    requires Inv(t, clock)
    ensures Inv(InstallAsResponder(t, s), clock)
    ensures Inv(InstallAsInitiator(t, s), clock)
  {
    hide HT.PendingInv, Tick, Store, TickSessionEstablished, RingInOrder, TimesInOrder;
    StoreInv(t, clock, s);
    var t1 := Tick(Store(t, s), LAST_PACKET_RECEIVED);
    TickInv(Store(t, s), clock, LAST_PACKET_RECEIVED);
    EstablishedInv(t1, clock, true, s.receivingIndex);
    var t2 := TickSessionEstablished(t1, true, s.receivingIndex);
    TimesDepend(t2, SetCurrentSession(t2, s.receivingIndex), clock);
    RingDepends(t2, SetCurrentSession(t2, s.receivingIndex));
    TickInv(t1, clock, LAST_PACKET_SENT);
    EstablishedInv(Tick(t1, LAST_PACKET_SENT), clock, false, s.receivingIndex);
  }

  lemma NewHandshakeInv(t: Tunn, clock: nat, hs: View)
    requires Inv(t, clock) && HT.PendingInv(hs)
    requires hs.state.InitSent? ==> hs.state.timeSent <= clock
    requires hs.previous.InitSent? ==> hs.previous.timeSent <= clock
    ensures Inv(t.(hs := hs), clock)
  {
    hide HT.PendingInv;
  }

  lemma HandleInitiationInv(t: Tunn, clock: nat, m: Message, env: Env)
    requires Inv(t, clock) && m.Initiation?
    ensures Inv(HandleInitiation(t, m, env).0, clock)
  {
    hide HT.PendingInv, InstallAsResponder, ExpectedInitiation, ResponseTranscript, AuthenticInitiation, RingInOrder;
    HT.StepKeepsPendingInv(t.hs, HT.TakeInitiation(m, env.dstLen, env.e));
    var (hs', r) := ReceiveInitiation(t.hs, m, env.dstLen, env.e);
    NewHandshakeInv(t, clock, hs');
    if r.Ok? { InstallInv(t.(hs := hs'), clock, r.value.1); }
  }

  lemma HandleResponseInv(t: Tunn, clock: nat, m: Message)
    requires Inv(t, clock) && m.Response?
    ensures Inv(HandleResponse(t, m).0, clock)
  {
    hide HT.PendingInv, InstallAsInitiator, ExpectedResponse, AuthenticResponse, RingInOrder;
    HT.StepKeepsPendingInv(t.hs, HT.TakeResponse(m));
    var (hs', r) := ReceiveResponse(t.hs, m);
    NewHandshakeInv(t, clock, hs');
    if r.Ok? { InstallInv(t.(hs := hs'), clock, FormatPacketData(r.value, []).0); }
  }

  lemma HandleCookieReplyInv(t: Tunn, clock: nat, m: Message)
    requires Inv(t, clock) && m.CookieReply?
    ensures Inv(HandleCookieReply(t, m).0, clock)
  {
    hide HT.PendingInv, Tick, RingInOrder;
    HT.StepKeepsPendingInv(t.hs, HT.TakeCookieReply(m));
    var hs' := ReceiveCookieReply(t.hs, m).0;
    NewHandshakeInv(t, clock, hs');
    TickInv(t.(hs := hs'), clock, LAST_PACKET_RECEIVED);
    TickInv(Tick(t.(hs := hs'), LAST_PACKET_RECEIVED), clock, COOKIE_RECEIVED);
  }

  lemma ValidateInv(t: Tunn, clock: nat, p: Packet)
    requires Inv(t, clock)
    ensures Inv(Validate(t, p).0, clock)
  {
    hide HT.PendingInv, Tick;
    TickInv(t, clock, LAST_DATA_PACKET_RECEIVED);
  }

  lemma HandleDataInv(t: Tunn, clock: nat, m: Message)
    requires Inv(t, clock) && m.Data?
    ensures Inv(HandleData(t, m).0, clock)
  {
    hide HT.PendingInv, Tick, Mark, WillAccept, Validate, TimesInOrder;
    var i := Slot(m.receiverIdx);
    if t.sessions[i].Some? && ReceivePacketData(t.sessions[i].value, m).1.Ok? {
      var (s, r) := ReceivePacketData(t.sessions[i].value, m);
      var t1: Tunn := t.(sessions := t.sessions[i := Some(s)]);
      var t2 := SetCurrentSession(t1, m.receiverIdx);
      TimesDepend(t, t2, clock);
      TickInv(t2, clock, LAST_PACKET_RECEIVED);
      ValidateInv(Tick(t2, LAST_PACKET_RECEIVED), clock, r.value);
    }
  }

  lemma LaterClock(t: Tunn, clock: nat, now: nat)
    requires Inv(t, clock) && clock <= now
    ensures Inv(t, now)
  {
    hide HT.PendingInv, RingInOrder;
  }

  lemma HandleVerifiedInv(t: Tunn, clock: nat, m: Message, env: Env)
    requires Inv(t, clock) && clock <= env.now
    ensures Inv(HandleVerified(t, m, env).0, env.now)
  {
    hide Inv, HandleInitiation, HandleResponse, HandleCookieReply, HandleData;
    LaterClock(t, clock, env.now);
    match m {
      case Initiation(_, _, _, _, _, _) => HandleInitiationInv(t, env.now, m, env);
      case Response(_, _, _, _, _, _) => HandleResponseInv(t, env.now, m);
      case CookieReply(_, _, _) => HandleCookieReplyInv(t, env.now, m);
      case Data(_, _, _) => HandleDataInv(t, env.now, m);
    }
  }

  /** No session is older than REJECT_AFTER_TIME. */
  ghost predicate Young(t: Tunn, now: nat) {
    forall i :: 0 <= i < N_SESSIONS && t.sessions[i].Some? ==> now - t.sessionTimers[i] <= REJECT_AFTER_TIME
  }

  /** What the timer call starts from: the clock is set and old sessions are gone. */
  lemma ExpireSessionsInv(t: Tunn, clock: nat, now: nat)
    requires Inv(t, clock) && clock <= now
    ensures var t1 := ExpireSessions(t.(timers := t.timers[CURRENT := now]), now);
            Inv(t1, now) && Young(t1, now)
  {
    hide HT.PendingInv;
  }

  lemma ExpireInv(t: Tunn, now: nat)
    requires Inv(t, now)
    ensures Inv(Expire(t, now).0, now) && Young(Expire(t, now).0, now)
  {
    hide HT.PendingInv;
    HT.StepKeepsPendingInv(t.hs, HT.Expire);
  }

  lemma YoungDepends(t: Tunn, t': Tunn, now: nat)
    requires Young(t, now) && SameSlots(t, t')
    ensures Young(t', now)
  {}

  lemma SameSlotsTrans(t: Tunn, t': Tunn, t'': Tunn)
    requires SameSlots(t, t') && SameSlots(t', t'')
    ensures SameSlots(t, t'')
  {}

  lemma FlagsInv(t: Tunn, clock: nat, keepalive: bool, handshake: bool)
    requires Inv(t, clock)
    ensures Inv(t.(wantKeepalive := keepalive, wantHandshake := handshake), clock)
  {
    hide HT.PendingInv;
  }

  lemma UpdateQuietInv(t: Tunn, env: Env)
    requires Inv(t, env.now)
    ensures Inv(UpdateQuiet(t, env).0, env.now) && SameSlots(t, UpdateQuiet(t, env).0)
  {
    hide Inv, SameSlots, FormatHandshake, Encapsulate, Tick, RekeyOnSend, RekeyOnReceive, NoAnswer, NothingSentBack, KeepaliveDue;
    var t1: Tunn := if NoAnswer(t, env.now) then t.(wantHandshake := false) else t;
    var t2: Tunn := if NothingSentBack(t, env.now) then t1.(wantKeepalive := false) else t1;
    FlagsInv(t, env.now, t1.wantKeepalive, t1.wantHandshake);
    FlagsInv(t, env.now, t2.wantKeepalive, t2.wantHandshake);
    assert SameSlots(t, t1) && SameSlots(t, t2) by { SameSlotsFlags(t, t1); SameSlotsFlags(t, t2); }
    FormatHandshakeInv(t1, env.now, env, true);
    SameSlotsTrans(t, t1, FormatHandshake(t1, env, true).0);
    var t3 := if KeepaliveDue(t, env.now) then Tick(t2, PERSISTENT_KEEPALIVE) else t2;
    TickInv(t2, env.now, PERSISTENT_KEEPALIVE);
    TickKeeps(t2, PERSISTENT_KEEPALIVE);
    SameSlotsFlags(t2, t3);
    SameSlotsTrans(t, t2, t3);
    EncapsulateInv(t3, env.now, [], env);
    SameSlotsTrans(t, t3, Encapsulate(t3, [], env).0);
  }

  lemma SameSlotsFlags(t: Tunn, t': Tunn)
    requires t.sessions == t'.sessions && t.sessionTimers == t'.sessionTimers
    ensures SameSlots(t, t')
  {}

  lemma ClearCookieInv(t: Tunn, now: nat)
    requires Inv(t, now)
    ensures Inv(t.(hs := ClearCookie(t.hs)), now)
  {
    hide HT.PendingInv;
    HT.StepKeepsPendingInv(t.hs, HT.DropCookie);
  }

  lemma UpdateInv(t: Tunn, clock: nat, env: Env)
    requires Inv(t, clock) && clock <= env.now
    ensures Inv(UpdateTimers(t, env).0, env.now) && Young(UpdateTimers(t, env).0, env.now)
  {
    hide Inv, Young, SameSlots, ExpireSessions, FormatHandshake, Expire, UpdateQuiet;
    ExpireSessionsInv(t, clock, env.now);
    var t1 := ExpireSessions(t.(timers := t.timers[CURRENT := env.now]), env.now);
    var cleared: Tunn := t1.(hs := ClearCookie(t1.hs));
    ClearCookieInv(t1, env.now);
    SameSlotsFlags(t1, cleared);
    YoungDepends(t1, cleared, env.now);
    var t2: Tunn :=
      if t1.hs.cookies.writeCookie.Some? && env.now - t1.timers[COOKIE_RECEIVED] >= COOKIE_EXPIRATION_TIME then cleared else t1;
    ExpireInv(t2, env.now);
    FormatHandshakeInv(t2, env.now, env, true);
    YoungDepends(t2, FormatHandshake(t2, env, true).0, env.now);
    UpdateQuietInv(t2, env);
    YoungDepends(t2, UpdateQuiet(t2, env).0, env.now);
  }

  lemma RekeyInv(t: Tunn, clock: nat, key: nat)
    requires Inv(t, clock)
    ensures Inv(ChangeKey(t, key), clock)
  {
    hide HT.PendingInv;
    HT.StepKeepsPendingInv(t.hs, HT.ChangeKey(key));
  }

  lemma StepKeepsInv(t: Tunn, clock: nat, op: Op)
    requires Inv(t, clock) && clock <= op.env.now
    ensures Inv(Step(t, op).0, op.env.now)
  {
    hide Inv, Encapsulate, HandleVerified, SendQueued, UpdateTimers, FormatHandshake, ChangeKey;
    match op {
      case Outgoing(packet, env) => EncapsulateInv(t, clock, packet, env);
      case Incoming(m, env) => HandleVerifiedInv(t, clock, m, env);
      case Flush(env) => SendQueuedInv(t, clock, env);
      case Update(env) => UpdateInv(t, clock, env);
      case Request(env) => FormatHandshakeInv(t, clock, env, false);
      case Rekey(key, env) => RekeyInv(t, clock, key); LaterClock(ChangeKey(t, key), clock, env.now);
    }
  }

  /** In every run with a clock that does not go back, times stay in order, sessions stay in their slots,
      the queue stays bounded and the handshakes in flight stay distinguishable. */
  lemma {:induction false} RunKeepsInv(t: Tunn, clock: nat, ops: seq<Op>)
    requires Inv(t, clock) && ClockRuns(clock, ops)
    ensures Inv(Run(t, ops), LastReading(clock, ops))
    decreases |ops|
  {
    if ops != [] {
      hide Inv, Step;
      StepKeepsInv(t, clock, ops[0]);
      RunKeepsInv(Step(t, ops[0]).0, ops[0].env.now, ops[1..]);
    }
  }

  /** The same in every state a tunnel can reach. */
  lemma ReachableInv(staticPrivate: nat, peer: Term, psk: Option<Term>, index: nat, keepalive: nat, clock: nat, ops: seq<Op>)
    requires ClockRuns(clock, ops)
    ensures Inv(Run(NewTunnel(NewParams(staticPrivate, peer, psk), index, keepalive), ops), LastReading(clock, ops))
  {
    NewTunnelInv(staticPrivate, peer, psk, index, keepalive, clock);
    RunKeepsInv(NewTunnel(NewParams(staticPrivate, peer, psk), index, keepalive), clock, ops);
  }
}
