/** Which of its sessions a tunnel sends with: a session, once in use, gives way only to one that is at
    least as new. */
module SessionChoice {
  import opened Basics
  import opened HandshakeSpec
  import opened TunnelSpec
  import opened TunnelRuns
  import HT = HandshakeTheorems
  import DP = DataPath
  import SL = SessionLifetimes
  import RK = Rekeying

  /** When the session in use was put in place, by the tunnel's clock. */
  function InUseSince(t: Tunn): (time: nat) {
    t.sessionTimers[Slot(t.current)]
  }

  predicate HasSession(t: Tunn) {
    t.sessions[Slot(t.current)].Some?
  }

  /** Data that decrypts puts its session into use exactly when there is none in use, or that one is not
      newer; a late packet of an older session does not take the tunnel back. */
  lemma DataChooses(t: Tunn, m: Message)
    requires m.Data?
    ensures var (t', out) := HandleData(t, m);
            && t'.sessionTimers == t.sessionTimers
            && (if RK.Receives(Incoming(m, Env(0, 0, Tai64N(0, 0), 0)), out)
                then t'.current == (if HasSession(t) && t.sessionTimers[Slot(m.receiverIdx)] < InUseSince(t) then t.current else m.receiverIdx)
                else t' == t)
            && (HasSession(t) ==> t'.sessions[Slot(t.current)].Some?)
  {
    hide ReceivePacketData, Validate, Tick;
    var i := Slot(m.receiverIdx);
    if t.sessions[i].Some? {
      RK.ReceiveErrors(t.sessions[i].value, m);
      var (s, r) := ReceivePacketData(t.sessions[i].value, m);
      if r.Ok? {
        var t1: Tunn := t.(sessions := t.sessions[i := Some(s)]);
        var t2 := SetCurrentSession(t1, m.receiverIdx);
        TickKeeps(t2, LAST_PACKET_RECEIVED);
        SL.ValidateKeeps(Tick(t2, LAST_PACKET_RECEIVED), r.value);
        ValidateErrors(Tick(t2, LAST_PACKET_RECEIVED), r.value);
      }
    }
  }

  lemma ValidateErrors(t: Tunn, p: Packet)
    ensures Validate(t, p).1.Fail? ==> Validate(t, p).1.error == InvalidPacket
    ensures !Validate(t, p).1.ToNetwork? && Validate(t, p).0.current == t.current
  {}

  lemma InstallChooses(t: Tunn, clock: nat, s: Session)
    requires Inv(t, clock)
    ensures var t' := InstallAsResponder(t, s);
            t'.current == t.current && t'.sessionTimers == t.sessionTimers[Slot(s.receivingIndex) := t.timers[CURRENT]]
    ensures var t' := InstallAsInitiator(t, s);
            t'.current == s.receivingIndex && t'.sessionTimers == t.sessionTimers[Slot(s.receivingIndex) := t.timers[CURRENT]]
    ensures InUseSince(InstallAsResponder(t, s)) >= InUseSince(t) && InUseSince(InstallAsInitiator(t, s)) >= InUseSince(t)
  {
    hide HT.PendingInv, RingInOrder;
    DP.InitiatorUsesNewSession(t, clock, s);
  }

  /** A session put in place as responder is not used before the initiator has used it; one put in place as
      initiator is used at once. */
  lemma HandshakeChooses(t: Tunn, clock: nat, m: Message, env: Env)
    requires Inv(t, clock) && clock <= env.now && IsHandshake(m)
    ensures var (t', out) := HandleVerified(t, m, env);
            && t'.current == (if m.Response? && !out.Fail? then m.receiverIdx else t.current)
            && InUseSince(t') >= InUseSince(t)
  {
    hide HT.PendingInv, RingInOrder, TimesInOrder, ReceiveInitiation, ReceiveResponse, InstallAsResponder, InstallAsInitiator, FormatPacketData;
    if m.Initiation? {
      SL.ReceiveInitiationEffect(t.hs, m, env);
      var (hs', r) := ReceiveInitiation(t.hs, m, env.dstLen, env.e);
      HandleInitiationHs(t, clock, m, env);
      if r.Ok? { InstallChooses(t.(hs := hs'), env.now, r.value.1); }
    } else {
      var (hs', r) := ReceiveResponse(t.hs, m);
      DP.NewHandshakeInvAfterResponse(t, clock, m);
      if r.Ok? {
        SL.AddresseeIndex(t.hs, m);
        var s := FormatPacketData(r.value, []).0;
        assert s.receivingIndex == r.value.receivingIndex by { SameIndex(r.value); }
        InstallChooses(t.(hs := hs'), clock, s);
      }
    }
  }

  lemma SameIndex(s: Session)
    ensures FormatPacketData(s, []).0.receivingIndex == s.receivingIndex
  {}

  lemma HandleInitiationHs(t: Tunn, clock: nat, m: Message, env: Env)
    requires Inv(t, clock) && clock <= env.now && m.Initiation?
    ensures Inv(t.(hs := ReceiveInitiation(t.hs, m, env.dstLen, env.e).0), env.now)
  {
    hide HT.PendingInv, RingInOrder, ReceiveInitiation;
    HT.StepKeepsPendingInv(t.hs, HT.TakeInitiation(m, env.dstLen, env.e));
    SL.ReceiveInitiationEffect(t.hs, m, env);
    LaterClock(t, clock, env.now);
    NewHandshakeInv(t, env.now, ReceiveInitiation(t.hs, m, env.dstLen, env.e).0);
  }

  // All other calls.

  predicate SameChoice(t: Tunn, t': Tunn) {
    t'.current == t.current && t'.sessionTimers == t.sessionTimers
  }

  lemma FormatSame(t: Tunn, env: Env, force: bool)
    ensures SameChoice(t, FormatHandshake(t, env, force).0)
  {
    hide FormatInitiation;
  }

  lemma EncapsulateSame(t: Tunn, packet: Packet, env: Env)
    ensures SameChoice(t, Encapsulate(t, packet, env).0)
  {
    hide FormatHandshake;
    FormatSame(QueuePacket(t, packet), env, false);
  }

  lemma FlushSame(t: Tunn, env: Env)
    ensures SameChoice(t, SendQueued(t, env).0)
  {
    hide Encapsulate;
    if t.queue != [] { EncapsulateSame(t.(queue := t.queue[1..]), t.queue[0], env); }
  }

  lemma QuietSame(t: Tunn, env: Env)
    ensures SameChoice(t, UpdateQuiet(t, env).0)
  {
    hide FormatHandshake, Encapsulate, RekeyOnSend, RekeyOnReceive, NoAnswer, NothingSentBack, KeepaliveDue;
    var t1: Tunn := if NoAnswer(t, env.now) then t.(wantHandshake := false) else t;
    FormatSame(t1, env, true);
    var t2: Tunn := if NothingSentBack(t1, env.now) then t1.(wantKeepalive := false) else t1;
    var t3 := if KeepaliveDue(t1, env.now) then Tick(t2, PERSISTENT_KEEPALIVE) else t2;
    EncapsulateSame(t3, [], env);
  }

  lemma UpdateSame(t: Tunn, clock: nat, env: Env)
    requires Inv(t, clock) && clock <= env.now
    ensures UpdateTimers(t, env).0.current == t.current && InUseSince(UpdateTimers(t, env).0) >= InUseSince(t)
  {
    hide FormatHandshake, UpdateQuiet, RingInOrder, HT.PendingInv;
    var t1 := ExpireSessions(t.(timers := t.timers[CURRENT := env.now]), env.now);
    QuietSame(t1, env);
    QuietSame(t1.(hs := ClearCookie(t1.hs)), env);
    FormatSame(t1, env, true);
    FormatSame(t1.(hs := ClearCookie(t1.hs)), env, true);
  }

  /** As long as there is a session in use, no call puts an older one into use. */
  lemma StepNeverOlder(t: Tunn, clock: nat, op: Op)
    requires Inv(t, clock) && clock <= op.env.now && HasSession(t)
    ensures InUseSince(Step(t, op).0) >= InUseSince(t)
  {
    hide Inv, Encapsulate, SendQueued, UpdateTimers, FormatHandshake, HandleInitiation, HandleResponse, HandleData, ReceiveCookieReply;
    match op {
      case Outgoing(packet, env) => EncapsulateSame(t, packet, env);
      case Flush(env) => FlushSame(t, env);
      case Update(env) => UpdateSame(t, clock, env);
      case Request(env) => FormatSame(t, env, false);
      case Rekey(_, _) =>
      case Incoming(m, env) =>
        if IsHandshake(m) { HandshakeChooses(t, clock, m, env); }
        else if m.Data? { DataChooses(t, m); }
    }
  }

  ghost predicate InUseThroughout(t: Tunn, ops: seq<Op>)
    decreases |ops|
  {
    HasSession(t) && (ops == [] || InUseThroughout(Step(t, ops[0]).0, ops[1..]))
  }

  /** Over every run in which a session is in use throughout, the date of the session in use never goes back:
      packets that arrive late under an older session do not bring it back. */
  lemma {:induction false} NeverOlder(t: Tunn, clock: nat, ops: seq<Op>)
    requires Inv(t, clock) && ClockRuns(clock, ops) && InUseThroughout(t, ops)
    ensures InUseSince(Run(t, ops)) >= InUseSince(t)
    decreases |ops|
  {
    if ops != [] {
      hide Inv, Step, InUseSince;
      StepNeverOlder(t, clock, ops[0]);
      StepKeepsInv(t, clock, ops[0]);
      NeverOlder(Step(t, ops[0]).0, ops[0].env.now, ops[1..]);
    }
  }
}
