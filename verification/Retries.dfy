/** Retransmission: how long and how often a tunnel tries, and that it then falls silent. */
module Retries {
  import opened Basics
  import opened Constants
  import opened Crypto
  import opened HandshakeSpec
  import opened TunnelSpec
  import opened TunnelRuns
  import SL = SessionLifetimes
  import HT = HandshakeTheorems

  predicate IsInitiation(r: Outcome) {
    r.ToNetwork? && r.m.Initiation?
  }

  /** While an initiation is pending, only the timer sends another, at least REKEY_TIMEOUT after the last
      one and before REKEY_ATTEMPT_TIME is over; the start of the attempt does not move. */
  lemma RetrySpacing(t: Tunn, clock: nat, op: Op)
    requires Inv(t, clock) && clock <= op.env.now
    requires t.hs.state.InitSent? && Step(t, op).0.hs.state.InitSent?
    ensures var t' := Step(t, op).0;
            && t'.timers[LAST_HANDSHAKE_STARTED] == t.timers[LAST_HANDSHAKE_STARTED]
            && (if IsInitiation(Step(t, op).1)
                then && op.Update?
                     && op.env.now >= t.hs.state.timeSent + REKEY_TIMEOUT
                     && op.env.now < t.timers[LAST_HANDSHAKE_STARTED] + REKEY_ATTEMPT_TIME
                     && t'.hs.state.timeSent == op.env.now
                else t'.hs.state.timeSent == t.hs.state.timeSent)
  {
    match op {
      case Update(env) => UpdateSpacing(t, env);
      case Incoming(m, env) => IncomingSpacing(t, m, env);
      case Outgoing(packet, env) => OutgoingSpacing(t, packet, env);
      case Flush(env) =>
        if t.queue != [] { OutgoingSpacing(t.(queue := t.queue[1..]), t.queue[0], env); }
      case Request(env) =>
      case Rekey(_, _) =>
    }
  }

  lemma OutgoingSpacing(t: Tunn, packet: Packet, env: Env)
    requires t.hs.state.InitSent?
    ensures var (t', r) := Encapsulate(t, packet, env);
            t'.hs == t.hs && t'.timers[LAST_HANDSHAKE_STARTED] == t.timers[LAST_HANDSHAKE_STARTED]
            && !IsInitiation(r) && !r.Fail?
  {
  }

  lemma InstallTimers(t: Tunn, s: Session)
    ensures forall r :: r in {InstallAsResponder(t, s), InstallAsInitiator(t, s)} ==>
              r.hs == t.hs && r.timers[LAST_HANDSHAKE_STARTED] == t.timers[LAST_HANDSHAKE_STARTED]
  {}

  lemma InitiationSpacing(t: Tunn, m: Message, env: Env)
    requires t.hs.state.InitSent? && m.Initiation? && HandleInitiation(t, m, env).0.hs.state.InitSent?
    ensures var (t', r) := HandleInitiation(t, m, env);
            t'.hs.state == t.hs.state && t'.timers[LAST_HANDSHAKE_STARTED] == t.timers[LAST_HANDSHAKE_STARTED]
            && !IsInitiation(r)
  {
    hide ReceiveInitiation, InstallAsResponder, InstallAsInitiator;
    SL.ReceiveInitiationEffect(t.hs, m, env);
    var (hs', r) := ReceiveInitiation(t.hs, m, env.dstLen, env.e);
    if r.Ok? { InstallTimers(t.(hs := hs'), r.value.1); }
  }

  lemma ResponseSpacing(t: Tunn, m: Message)
    requires t.hs.state.InitSent? && m.Response? && HandleResponse(t, m).0.hs.state.InitSent?
    ensures var (t', r) := HandleResponse(t, m);
            t'.hs.state == t.hs.state && t'.timers[LAST_HANDSHAKE_STARTED] == t.timers[LAST_HANDSHAKE_STARTED]
            && !IsInitiation(r)
  {
    hide ReceiveResponse, InstallAsResponder, InstallAsInitiator;
    SL.ReceiveResponseEffect(t.hs, m);
    var (hs', r) := ReceiveResponse(t.hs, m);
    if r.Ok? { InstallTimers(t.(hs := hs'), FormatPacketData(r.value, []).0); }
  }

  lemma ValidateSpacing(t: Tunn, p: Packet)
    ensures var (t', r) := Validate(t, p);
            t'.hs == t.hs && t'.timers[LAST_HANDSHAKE_STARTED] == t.timers[LAST_HANDSHAKE_STARTED] && !r.ToNetwork?
  {}

  lemma DataSpacing(t: Tunn, m: Message)
    requires m.Data?
    ensures var (t', r) := HandleData(t, m);
            t'.hs == t.hs && t'.timers[LAST_HANDSHAKE_STARTED] == t.timers[LAST_HANDSHAKE_STARTED] && !r.ToNetwork?
  {
    hide ReceivePacketData, Validate;
    var i := Slot(m.receiverIdx);
    if t.sessions[i].Some? && ReceivePacketData(t.sessions[i].value, m).1.Ok? {
      var (s, r) := ReceivePacketData(t.sessions[i].value, m);
      var t1: Tunn := t.(sessions := t.sessions[i := Some(s)]);
      ValidateSpacing(Tick(SetCurrentSession(t1, m.receiverIdx), LAST_PACKET_RECEIVED), r.value);
    }
  }

  lemma IncomingSpacing(t: Tunn, m: Message, env: Env)
    requires t.hs.state.InitSent? && HandleVerified(t, m, env).0.hs.state.InitSent?
    ensures var (t', r) := HandleVerified(t, m, env);
            t'.hs.state == t.hs.state && t'.timers[LAST_HANDSHAKE_STARTED] == t.timers[LAST_HANDSHAKE_STARTED]
            && !IsInitiation(r)
  {
    hide HandleInitiation, HandleResponse, HandleData;
    match m {
      case Initiation(_, _, _, _, _, _) => InitiationSpacing(t, m, env);
      case Response(_, _, _, _, _, _) => ResponseSpacing(t, m);
      case CookieReply(_, _, _) =>
      case Data(_, _, _) => DataSpacing(t, m);
    }
  }

  lemma ResendSpacing(t: Tunn, env: Env)
    requires t.hs.state.InitSent?
    ensures var (t', r) := FormatHandshake(t, env, true);
            && t'.timers[LAST_HANDSHAKE_STARTED] == t.timers[LAST_HANDSHAKE_STARTED]
            && t'.hs.state.InitSent?
            && (if IsInitiation(r) then t'.hs.state.timeSent == env.now else t'.hs.state == t.hs.state)
  {
    hide FormatInitiation;
    InitiationEffect(t.hs, env);
    var (hs', r) := FormatInitiation(t.hs, env.dstLen, env.e, env.stamp, env.now);
    assert r.Ok? ==> FormatHandshake(t, env, true) == (Tick(t.(hs := hs'), LAST_PACKET_SENT), ToNetwork(r.value));
    assert r.Err? ==> FormatHandshake(t, env, true) == (t, Fail(r.error));
  }

  lemma UpdateSpacing(t: Tunn, env: Env)
    requires t.hs.state.InitSent? && UpdateTimers(t, env).0.hs.state.InitSent?
    ensures var (t', r) := UpdateTimers(t, env);
            && t'.timers[LAST_HANDSHAKE_STARTED] == t.timers[LAST_HANDSHAKE_STARTED]
            && (if IsInitiation(r)
                then && env.now >= t.hs.state.timeSent + REKEY_TIMEOUT
                     && env.now < t.timers[LAST_HANDSHAKE_STARTED] + REKEY_ATTEMPT_TIME
                     && t'.hs.state.timeSent == env.now
                else t'.hs.state.timeSent == t.hs.state.timeSent)
  {
    hide FormatHandshake, UpdateQuiet;
    var t1 := ExpireSessions(t.(timers := t.timers[CURRENT := env.now]), env.now);
    ResendSpacing(t1, env);
    ResendSpacing(t1.(hs := ClearCookie(t1.hs)), env);
  }

  // Counting.

  /** The attempt goes on: after every step an initiation is pending. */
  ghost predicate AttemptGoesOn(t: Tunn, ops: seq<Op>)
    decreases |ops|
  {
    t.hs.state.InitSent? && (ops == [] || AttemptGoesOn(Step(t, ops[0]).0, ops[1..]))
  }

  function Sent(t: Tunn, ops: seq<Op>): (n: nat)
    decreases |ops|
  {
    if ops == [] then 0 else (if IsInitiation(Step(t, ops[0]).1) then 1 else 0) + Sent(Step(t, ops[0]).0, ops[1..])
  }

  /** With n initiations sent since the first one at time `first`. */
  ghost predicate OnSchedule(t: Tunn, first: nat, n: nat) {
    && t.hs.state.InitSent?
    && t.timers[LAST_HANDSHAKE_STARTED] <= first
    && t.hs.state.timeSent >= first + n * REKEY_TIMEOUT
    && (n == 0 || t.hs.state.timeSent < t.timers[LAST_HANDSHAKE_STARTED] + REKEY_ATTEMPT_TIME)
  }

  lemma ScheduleBound(t: Tunn, first: nat, n: nat)
    requires OnSchedule(t, first, n)
    ensures n <= 17
  {}

  lemma StepOnSchedule(t: Tunn, clock: nat, op: Op, first: nat, n: nat)
    requires Inv(t, clock) && clock <= op.env.now && OnSchedule(t, first, n) && Step(t, op).0.hs.state.InitSent?
    ensures OnSchedule(Step(t, op).0, first, n + if IsInitiation(Step(t, op).1) then 1 else 0)
  {
    hide Step, Inv;
    RetrySpacing(t, clock, op);
    assert (n + 1) * REKEY_TIMEOUT == n * REKEY_TIMEOUT + REKEY_TIMEOUT;
  }

  /** Over every run in which the attempt goes on, the n-th repetition comes at least n REKEY_TIMEOUT
      after the first initiation, and so there are at most seventeen. */
  lemma {:induction false} RetriesOnSchedule(t: Tunn, clock: nat, ops: seq<Op>, first: nat, n: nat)
    requires Inv(t, clock) && ClockRuns(clock, ops) && AttemptGoesOn(t, ops) && OnSchedule(t, first, n)
    ensures OnSchedule(Run(t, ops), first, n + Sent(t, ops))
    ensures n + Sent(t, ops) <= 17
    decreases |ops|
  {
    hide OnSchedule, Step, Inv;
    if ops == [] {
      ScheduleBound(t, first, n);
    } else {
      StepOnSchedule(t, clock, ops[0], first, n);
      StepKeepsInv(t, clock, ops[0]);
      var (t', r) := Step(t, ops[0]);
      RetriesOnSchedule(t', ops[0].env.now, ops[1..], first, n + if IsInitiation(r) then 1 else 0);
    }
  }

  /** The call that turns a tunnel without a pending initiation into one with: its time is the start. */
  lemma FirstSent(t: Tunn, env: Env, force: bool)
    requires t.timers[CURRENT] <= env.now && t.timers[LAST_HANDSHAKE_STARTED] <= env.now
    requires !t.hs.state.InitSent? && FormatHandshake(t, env, force).0.hs.state.InitSent?
    ensures OnSchedule(FormatHandshake(t, env, force).0, env.now, 0)
  {
    hide FormatInitiation;
    InitiationEffect(t.hs, env);
    var hs' := FormatInitiation(t.hs, env.dstLen, env.e, env.stamp, env.now).0;
    var t1 := if t.hs.state.Expired? then ClearTimers(t, env.now) else t;
    var t2 := if IsInProgress(t.hs) then t1.(hs := hs') else Tick(t1.(hs := hs'), LAST_HANDSHAKE_STARTED);
    assert FormatHandshake(t, env, force).0 == Tick(t2, LAST_PACKET_SENT);
  }

  lemma OutgoingStarts(t: Tunn, packet: Packet, env: Env)
    requires t.timers[CURRENT] <= env.now && t.timers[LAST_HANDSHAKE_STARTED] <= env.now
    requires !t.hs.state.InitSent? && Encapsulate(t, packet, env).0.hs.state.InitSent?
    ensures OnSchedule(Encapsulate(t, packet, env).0, env.now, 0)
  {
    hide FormatHandshake, Tick;
    if t.sessions[Slot(t.current)].Some? {
      var s' := FormatPacketData(t.sessions[Slot(t.current)].value, packet).0;
      var t1: Tunn := t.(sessions := t.sessions[Slot(t.current) := Some(s')]);
      TickKeeps(t1, LAST_PACKET_SENT);
      TickKeeps(Tick(t1, LAST_PACKET_SENT), LAST_DATA_PACKET_SENT);
    } else {
      FirstSent(QueuePacket(t, packet), env, false);
    }
  }

  lemma FlushStarts(t: Tunn, env: Env)
    requires t.timers[CURRENT] <= env.now && t.timers[LAST_HANDSHAKE_STARTED] <= env.now
    requires !t.hs.state.InitSent? && SendQueued(t, env).0.hs.state.InitSent?
    ensures OnSchedule(SendQueued(t, env).0, env.now, 0)
  {
    hide Encapsulate;
    if t.queue != [] { OutgoingStarts(t.(queue := t.queue[1..]), t.queue[0], env); }
  }

  lemma KeepalivesStart(t: Tunn, env: Env)
    requires t.timers[CURRENT] <= env.now && t.timers[LAST_HANDSHAKE_STARTED] <= env.now
    requires !t.hs.state.InitSent? && UpdateKeepalives(t, env).0.hs.state.InitSent?
    ensures OnSchedule(UpdateKeepalives(t, env).0, env.now, 0)
  {
    hide Encapsulate, NothingSentBack, KeepaliveDue;
    var t1: Tunn := if NothingSentBack(t, env.now) then t.(wantKeepalive := false) else t;
    var t2 := if KeepaliveDue(t, env.now) then Tick(t1, PERSISTENT_KEEPALIVE) else t1;
    if Encapsulate(t2, [], env).0.hs.state.InitSent? { OutgoingStarts(t2, [], env); }
  }

  lemma QuietStarts(t: Tunn, env: Env)
    requires t.timers[CURRENT] <= env.now && t.timers[LAST_HANDSHAKE_STARTED] <= env.now
    requires !t.hs.state.InitSent? && UpdateQuiet(t, env).0.hs.state.InitSent?
    ensures OnSchedule(UpdateQuiet(t, env).0, env.now, 0)
  {
    hide FormatHandshake, UpdateKeepalives, RekeyOnSend, RekeyOnReceive, NoAnswer;
    var t1: Tunn := if NoAnswer(t, env.now) then t.(wantHandshake := false) else t;
    if FormatHandshake(t1, env, true).0.hs.state.InitSent? { FirstSent(t1, env, true); }
    if UpdateKeepalives(t1, env).0.hs.state.InitSent? { KeepalivesStart(t1, env); }
  }

  lemma UpdateStarts(t: Tunn, env: Env)
    requires t.timers[LAST_HANDSHAKE_STARTED] <= env.now
    requires !t.hs.state.InitSent? && UpdateTimers(t, env).0.hs.state.InitSent?
    ensures OnSchedule(UpdateTimers(t, env).0, env.now, 0)
  {
    hide UpdateQuiet, UpdatePending;
    var t1 := ExpireSessions(t.(timers := t.timers[CURRENT := env.now]), env.now);
    var t2: Tunn :=
      if t1.hs.cookies.writeCookie.Some? && env.now - t1.timers[COOKIE_RECEIVED] >= COOKIE_EXPIRATION_TIME
      then t1.(hs := ClearCookie(t1.hs)) else t1;
    assert t2.timers == t.timers[CURRENT := env.now];
    if UpdateQuiet(t2, env).0.hs.state.InitSent? { QuietStarts(t2, env); }
  }

  /** No incoming message makes an initiation pending. */
  lemma IncomingStartsNothing(t: Tunn, m: Message, env: Env)
    requires !t.hs.state.InitSent?
    ensures !HandleVerified(t, m, env).0.hs.state.InitSent?
  {
    hide ReceiveInitiation, ReceiveResponse, ReceivePacketData, Validate, InstallAsResponder, InstallAsInitiator;
    match m {
      case Initiation(_, _, _, _, _, _) =>
        SL.ReceiveInitiationEffect(t.hs, m, env);
        var (hs', r) := ReceiveInitiation(t.hs, m, env.dstLen, env.e);
        if r.Ok? { InstallTimers(t.(hs := hs'), r.value.1); }
      case Response(_, _, _, _, _, _) =>
        SL.ReceiveResponseEffect(t.hs, m);
        var (hs', r) := ReceiveResponse(t.hs, m);
        if r.Ok? { InstallTimers(t.(hs := hs'), FormatPacketData(r.value, []).0); }
      case CookieReply(_, _, _) =>
      case Data(_, _, _) => DataSpacing(t, m);
    }
  }

  /** Whatever call begins an attempt, it begins the schedule. */
  lemma AttemptStarts(t: Tunn, clock: nat, op: Op)
    requires Inv(t, clock) && clock <= op.env.now
    requires !t.hs.state.InitSent? && Step(t, op).0.hs.state.InitSent?
    ensures OnSchedule(Step(t, op).0, op.env.now, 0)
  {
    hide Encapsulate, SendQueued, UpdateTimers, FormatHandshake, HandleVerified, OnSchedule, RingInOrder, HT.PendingInv;
    match op {
      case Outgoing(packet, env) => OutgoingStarts(t, packet, env);
      case Flush(env) => FlushStarts(t, env);
      case Update(env) => UpdateStarts(t, env);
      case Request(env) => FirstSent(t, env, false);
      case Incoming(m, env) => IncomingStartsNothing(t, m, env);
      case Rekey(_, _) =>
    }
  }

  /** One attempt, a maximal run with an initiation pending, sends at most eighteen initiations, the
      first included, whatever begins it and whatever else happens. */
  lemma AtMostEighteen(t: Tunn, clock: nat, op: Op, ops: seq<Op>)
    requires Inv(t, clock) && ClockRuns(clock, [op] + ops)
    requires !t.hs.state.InitSent? && AttemptGoesOn(Step(t, op).0, ops)
    ensures Sent(t, [op] + ops) <= 18
  {
    hide Step, Inv;
    assert ([op] + ops)[1..] == ops;
    AttemptStarts(t, clock, op);
    StepKeepsInv(t, clock, op);
    RetriesOnSchedule(Step(t, op).0, op.env.now, ops, op.env.now, 0);
  }

  // The bound is met.

  /** Timer calls every REKEY_TIMEOUT, from the i-th on. */
  function TimerCalls(es: nat -> nat, i: nat, n: nat): (ops: seq<Op>)
    decreases n
  {
    if n == 0 then []
    else [Update(Env(HANDSHAKE_INIT_SZ, es(i), Tai64N(i, 0), i * REKEY_TIMEOUT))] + TimerCalls(es, i + 1, n - 1)
  }

  /** An attempt begun at time zero whose last initiation went out i - 1 timeouts later. */
  predicate Waiting(t: Tunn, i: nat) {
    && i > 0 && t.hs.state.InitSent? && t.hs.state.timeSent == (i - 1) * REKEY_TIMEOUT
    && t.timers[LAST_HANDSHAKE_STARTED] == t.timers[SESSION_ESTABLISHED] == 0 && t.hs.cookies.writeCookie.None?
  }

  lemma RetryGoesOut(t: Tunn, es: nat -> nat, i: nat)
    requires Waiting(t, i) && i <= 17
    ensures var (t', r) := Step(t, Update(Env(HANDSHAKE_INIT_SZ, es(i), Tai64N(i, 0), i * REKEY_TIMEOUT)));
            IsInitiation(r) && Waiting(t', i + 1)
  {
    hide FormatInitiation, UpdateQuiet, Expire;
    var env := Env(HANDSHAKE_INIT_SZ, es(i), Tai64N(i, 0), i * REKEY_TIMEOUT);
    var t1 := ExpireSessions(t.(timers := t.timers[CURRENT := env.now]), env.now);
    InitiationEffect(t.hs, env);
    FormatKeeps(t.hs, env);
    var hs' := FormatInitiation(t.hs, env.dstLen, env.e, env.stamp, env.now).0;
    assert UpdateTimers(t, env) == FormatHandshake(t1, env, true);
    assert FormatHandshake(t1, env, true).0 == Tick(t1.(hs := hs'), LAST_PACKET_SENT);
  }

  lemma {:induction false} RetriesGoOut(t: Tunn, es: nat -> nat, i: nat, n: nat)
    requires Waiting(t, i) && i + n <= 18
    ensures AttemptGoesOn(t, TimerCalls(es, i, n)) && Sent(t, TimerCalls(es, i, n)) == n
    ensures ClockRuns((i - 1) * REKEY_TIMEOUT, TimerCalls(es, i, n))
    decreases n
  {
    hide Step;
    if n > 0 {
      RetryGoesOut(t, es, i);
      var op := Update(Env(HANDSHAKE_INIT_SZ, es(i), Tai64N(i, 0), i * REKEY_TIMEOUT));
      assert TimerCalls(es, i, n)[1..] == TimerCalls(es, i + 1, n - 1);
      RetriesGoOut(Step(t, op).0, es, i + 1, n - 1);
    }
  }

  /** A new tunnel that is asked for a handshake and never answered sends all eighteen, with any secrets. */
  lemma EighteenAreSent(staticPrivate: nat, peer: Term, psk: Option<Term>, index: nat, keepalive: nat, es: nat -> nat)
    ensures var t := NewTunnel(NewParams(staticPrivate, peer, psk), index, keepalive);
            var op := Request(Env(HANDSHAKE_INIT_SZ, es(0), Tai64N(0, 0), 0));
            var ops := TimerCalls(es, 1, 17);
            && !t.hs.state.InitSent? && AttemptGoesOn(Step(t, op).0, ops) && ClockRuns(0, [op] + ops)
            && Sent(t, [op] + ops) == 18
  {
    hide FormatInitiation;
    var t := NewTunnel(NewParams(staticPrivate, peer, psk), index, keepalive);
    var env := Env(HANDSHAKE_INIT_SZ, es(0), Tai64N(0, 0), 0);
    var op, ops := Request(env), TimerCalls(es, 1, 17);
    InitiationEffect(t.hs, env);
    FormatKeeps(t.hs, env);
    var hs' := FormatInitiation(t.hs, env.dstLen, env.e, env.stamp, env.now).0;
    assert Step(t, op).0 == Tick(Tick(t.(hs := hs'), LAST_HANDSHAKE_STARTED), LAST_PACKET_SENT);
    hide Step, TimerCalls;
    RetriesGoOut(Step(t, op).0, es, 1, 17);
    assert ([op] + ops)[1..] == ops;
  }

  // Giving up.

  /** Nothing pending, nothing queued, no session. */
  ghost predicate Dead(t: Tunn) {
    && t.hs.state.Expired? && !t.hs.previous.InitSent?
    && t.queue == []
    && forall i :: 0 <= i < N_SESSIONS ==> t.sessions[i].None?
  }

  /** When REKEY_ATTEMPT_TIME is over, the next timer call ends the tunnel. */
  lemma GivesUpAtAttemptTime(t: Tunn, env: Env)
    requires SL.GivesUp(t, env)
    ensures UpdateTimers(t, env).1 == Fail(ConnectionExpired) && Dead(UpdateTimers(t, env).0)
  {
    hide UpdateQuiet, FormatHandshake;
  }

  /** Sending a packet, asking for a handshake and accepting the peer's are what wakes a tunnel. */
  predicate Wakes(t: Tunn, op: Op) {
    op.Outgoing? || op.Request? || (op.Incoming? && op.m.Initiation? && HT.Accepts(t.hs, op.m))
  }

  lemma DeadStep(t: Tunn, op: Op)
    requires Dead(t) && !Wakes(t, op)
    ensures Dead(Step(t, op).0) && !Step(t, op).1.ToNetwork?
  {
    hide AuthenticInitiation, InitiationError;
    if op.Update? {
      ExpiredUpdate(t, op.env);
    }
  }

  lemma ExpiredUpdate(t: Tunn, env: Env)
    requires Dead(t)
    ensures Dead(UpdateTimers(t, env).0) && UpdateTimers(t, env).1 == Fail(ConnectionExpired)
  {
    hide UpdateQuiet, UpdatePending;
  }

  ghost predicate Asleep(t: Tunn, ops: seq<Op>)
    decreases |ops|
  {
    ops == [] || (!Wakes(t, ops[0]) && Asleep(Step(t, ops[0]).0, ops[1..]))
  }

  /** After it gave up, a tunnel sends nothing, in any run, until it is woken. */
  lemma {:induction false} SilentUntilWoken(t: Tunn, ops: seq<Op>, i: nat)
    requires Dead(t) && Asleep(t, ops) && i < |ops|
    ensures Dead(Run(t, ops[..i]))
    ensures !Step(Run(t, ops[..i]), ops[i]).1.ToNetwork?
    decreases i
  {
    hide Step, Wakes, Dead;
    DeadStep(t, ops[0]);
    if i > 0 {
      assert ops[..i][1..] == ops[1..][..i - 1];
      SilentUntilWoken(Step(t, ops[0]).0, ops[1..], i - 1);
    }
  }
}
