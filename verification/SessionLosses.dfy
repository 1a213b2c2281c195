/** Sessions: exactly when one is lost, and that the bound on its life is met. */
module SessionLosses {
  import opened Basics
  import opened Constants
  import opened Crypto
  import opened HandshakeSpec
  import opened TunnelSpec
  import opened TunnelRuns
  import opened SessionLifetimes
  import HT = HandshakeTheorems
  import Retries

  // What a step does to a slot.

  /** The slot holds a session with these indices and keys in the one tunnel exactly when it does in the other. */
  ghost predicate SameSessions(t: Tunn, t': Tunn) {
    forall i :: 0 <= i < N_SESSIONS ==> SameSession(t.sessions[i], t'.sessions[i])
  }

  predicate SameSession(o: Option<Session>, o': Option<Session>) {
    match (o, o')
    case (None, None) => true
    case (Some(s), Some(s')) =>
      (s'.receivingIndex, s'.sendingIndex, s'.receivingKey, s'.sendingKey)
      == (s.receivingIndex, s.sendingIndex, s.receivingKey, s.sendingKey)
    case _ => false
  }

  lemma SameHolds(t: Tunn, t': Tunn, k: nat, s: Session)
    requires SameSessions(t, t')
    ensures Holds(t', k, s) <==> Holds(t, k, s)
  {
    assert SameSession(t.sessions[Slot(k)], t'.sessions[Slot(k)]);
  }

  lemma FormatSame(t: Tunn, env: Env, force: bool)
    ensures FormatHandshake(t, env, force).0.sessions == t.sessions
  {
    hide FormatInitiation;
  }

  lemma EncapsulateSame(t: Tunn, packet: Packet, env: Env)
    ensures SameSessions(t, Encapsulate(t, packet, env).0)
  {
    hide FormatHandshake;
    FormatSame(QueuePacket(t, packet), env, false);
  }

  lemma FlushSame(t: Tunn, env: Env)
    ensures SameSessions(t, SendQueued(t, env).0)
  {
    hide Encapsulate;
    if t.queue != [] { EncapsulateSame(t.(queue := t.queue[1..]), t.queue[0], env); }
  }

  lemma QuietSame(t: Tunn, env: Env)
    ensures SameSessions(t, UpdateQuiet(t, env).0)
  {
    hide FormatHandshake, Encapsulate, RekeyOnSend, RekeyOnReceive, NoAnswer, NothingSentBack, KeepaliveDue;
    var t1: Tunn := if NoAnswer(t, env.now) then t.(wantHandshake := false) else t;
    FormatSame(t1, env, true);
    var t2: Tunn := if NothingSentBack(t1, env.now) then t1.(wantKeepalive := false) else t1;
    var t3 := if KeepaliveDue(t1, env.now) then Tick(t2, PERSISTENT_KEEPALIVE) else t2;
    EncapsulateSame(t3, [], env);
  }

  lemma DataSame(t: Tunn, m: Message)
    requires m.Data?
    ensures SameSessions(t, HandleData(t, m).0)
  {
    hide ReceivePacketData, Validate, Tick;
    var i := Slot(m.receiverIdx);
    if t.sessions[i].Some? && ReceivePacketData(t.sessions[i].value, m).1.Ok? {
      var (s', r) := ReceivePacketData(t.sessions[i].value, m);
      SameIdentity(t.sessions[i].value, m);
      var t2 := SetCurrentSession(t.(sessions := t.sessions[i := Some(s')]), m.receiverIdx);
      TickKeeps(t2, LAST_PACKET_RECEIVED);
      ValidateKeeps(Tick(t2, LAST_PACKET_RECEIVED), r.value);
    }
  }

  lemma UpdateExactly(t: Tunn, env: Env, k: nat, s: Session)
    requires Holds(t, k, s)
    ensures Holds(UpdateTimers(t, env).0, k, s) <==> !Removes(t, Update(env), Slot(k))
  {
    hide UpdateQuiet, FormatHandshake;
    if GivesUp(t, env) {
      Retries.GivesUpAtAttemptTime(t, env);
    } else {
      var t1 := ExpireSessions(t.(timers := t.timers[CURRENT := env.now]), env.now);
      var t2: Tunn :=
        if t1.hs.cookies.writeCookie.Some? && env.now - t1.timers[COOKIE_RECEIVED] >= COOKIE_EXPIRATION_TIME
        then t1.(hs := ClearCookie(t1.hs)) else t1;
      FormatSame(t2, env, true);
      QuietSame(t2, env);
      SameHolds(t2, UpdateQuiet(t2, env).0, k, s);
    }
  }

  /** The step puts another session into the slot of k. */
  predicate Replaces(t: Tunn, op: Op, k: nat, s: Session) {
    && op.Incoming? && IsHandshake(op.m) && Established(t, op.m, op.env).Some?
    && var n := Established(t, op.m, op.env).value;
       && Slot(n.receivingIndex) == Slot(k)
       && (n.receivingIndex, n.sendingIndex, n.receivingKey, n.sendingKey)
          != (k, s.sendingIndex, s.receivingKey, s.sendingKey)
  }

  lemma InstallExactly(t: Tunn, n: Session, k: nat, s: Session)
    requires Holds(t, k, s)
    ensures forall r :: r in {InstallAsResponder(t, n), InstallAsInitiator(t, n)} ==>
              (Holds(r, k, s) <==>
                 (Slot(n.receivingIndex) == Slot(k) ==>
                    (n.receivingIndex, n.sendingIndex, n.receivingKey, n.sendingKey)
                    == (k, s.sendingIndex, s.receivingKey, s.sendingKey)))
  {
    hide Tick;
    var t1 := Store(t, n);
    TickKeeps(t1, LAST_PACKET_RECEIVED);
    TickKeeps(Tick(t1, LAST_PACKET_RECEIVED), LAST_PACKET_SENT);
    TickKeeps(Tick(t1, LAST_PACKET_RECEIVED), SESSION_ESTABLISHED);
    TickKeeps(Tick(Tick(t1, LAST_PACKET_RECEIVED), LAST_PACKET_SENT), SESSION_ESTABLISHED);
  }

  lemma HandshakeExactly(t: Tunn, m: Message, env: Env, k: nat, s: Session)
    requires Holds(t, k, s) && IsHandshake(m)
    ensures Holds(HandleVerified(t, m, env).0, k, s) <==> !Replaces(t, Incoming(m, env), k, s)
  {
    hide ReceiveInitiation, ReceiveResponse, InstallAsResponder, InstallAsInitiator;
    if m.Initiation? {
      var (hs', r) := ReceiveInitiation(t.hs, m, env.dstLen, env.e);
      if r.Ok? { InstallExactly(t.(hs := hs'), r.value.1, k, s); }
    } else {
      var (hs', r) := ReceiveResponse(t.hs, m);
      if r.Ok? { InstallExactly(t.(hs := hs'), FormatPacketData(r.value, []).0, k, s); }
    }
  }

  /** A call loses a session if and only if it clears it, lets it expire, or puts another in its slot. */
  lemma StepLosesExactly(t: Tunn, op: Op, k: nat, s: Session)
    requires Holds(t, k, s)
    ensures Holds(Step(t, op).0, k, s) <==> !Removes(t, op, Slot(k)) && !Replaces(t, op, k, s)
  {
    hide Holds, Replaces, Encapsulate, SendQueued, UpdateTimers, FormatHandshake, HandleInitiation, HandleResponse, HandleData;
    match op {
      case Outgoing(packet, env) =>
        EncapsulateSame(t, packet, env);
        SameHolds(t, Encapsulate(t, packet, env).0, k, s);
        OnlyHandshakesReplace(t, op, k, s);
      case Flush(env) =>
        FlushSame(t, env);
        SameHolds(t, SendQueued(t, env).0, k, s);
        OnlyHandshakesReplace(t, op, k, s);
      case Update(env) =>
        UpdateExactly(t, env, k, s);
        OnlyHandshakesReplace(t, op, k, s);
      case Request(env) =>
        FormatSame(t, env, false);
        SameHolds(t, FormatHandshake(t, env, false).0, k, s);
        OnlyHandshakesReplace(t, op, k, s);
      case Rekey(key, _) => NothingHeld(ChangeKey(t, key), k, s);
      case Incoming(m, env) =>
        match m {
          case Initiation(_, _, _, _, _, _) => HandshakeExactly(t, m, env, k, s);
          case Response(_, _, _, _, _, _) => HandshakeExactly(t, m, env, k, s);
          case CookieReply(_, _, _) =>
            SameHolds(t, HandleCookieReply(t, m).0, k, s);
            OnlyHandshakesReplace(t, op, k, s);
          case Data(_, _, _) =>
            DataSame(t, m);
            SameHolds(t, HandleData(t, m).0, k, s);
            OnlyHandshakesReplace(t, op, k, s);
        }
    }
  }

  lemma OnlyHandshakesReplace(t: Tunn, op: Op, k: nat, s: Session)
    requires !(op.Incoming? && IsHandshake(op.m))
    ensures !Replaces(t, op, k, s)
  {}

  lemma NothingHeld(t: Tunn, k: nat, s: Session)
    requires t.sessions[Slot(k)].None?
    ensures !Holds(t, k, s)
  {}

  // Whole runs.

  ghost predicate HeldThroughout(t: Tunn, ops: seq<Op>, k: nat, s: Session)
    decreases |ops|
  {
    Holds(t, k, s) && (ops == [] || HeldThroughout(Step(t, ops[0]).0, ops[1..], k, s))
  }

  predicate LostIn(t: Tunn, ops: seq<Op>, k: nat, s: Session)
    decreases |ops|
  {
    ops != []
    && (Removes(t, ops[0], Slot(k)) || Replaces(t, ops[0], k, s) || LostIn(Step(t, ops[0]).0, ops[1..], k, s))
  }

  /** A session is held throughout a run if and only if no call of the run removes or replaces it. */
  lemma {:induction false} HeldExactly(t: Tunn, ops: seq<Op>, k: nat, s: Session)
    requires Holds(t, k, s)
    ensures HeldThroughout(t, ops, k, s) <==> !LostIn(t, ops, k, s)
    decreases |ops|
  {
    if ops != [] {
      hide Step, Holds, Removes, Replaces;
      StepLosesExactly(t, ops[0], k, s);
      if Holds(Step(t, ops[0]).0, k, s) { HeldExactly(Step(t, ops[0]).0, ops[1..], k, s); }
    }
  }

  // The bound of eight indices is met.

  /** The eighth index after its own, taken by an accepted initiation, evicts a session. */
  lemma EighthIndexEvicts(t: Tunn, m: Message, env: Env, k: nat, s: Session)
    requires m.Initiation? && Holds(t, k, s) && Since(t, k, 7) && Established(t, m, env).Some?
    ensures !Holds(HandleVerified(t, m, env).0, k, s) && HandleVerified(t, m, env).0.hs.nextIndex != t.hs.nextIndex
  {
    hide ReceiveInitiation, HandleInitiation;
    ReceiveInitiationEffect(t.hs, m, env);
    AdvanceFacts(k, 7);
    EighthSlot(k);
    HandshakeExactly(t, m, env, k, s);
    InitiationAllocates(t, m, env);
  }

  lemma EighthSlot(k: nat)
    ensures Slot(Advance(k, 8)) == Slot(k) && Advance(k, 8) != k
  {
    var blocks, low := k / 256 * 32, k % 256;
    var low' := (low + 8) % 256;
    assert low' == low + 8 || low' == low + 8 - 256;
    SameRemainder(blocks, low);
    SameRemainder(blocks, low');
  }

  lemma SameRemainder(blocks: nat, low: nat)
    ensures (8 * blocks + low) % 8 == low % 8
  {}

  lemma InitiationAllocates(t: Tunn, m: Message, env: Env)
    requires m.Initiation? && Established(t, m, env).Some?
    ensures HandleInitiation(t, m, env).0.hs == ReceiveInitiation(t.hs, m, env.dstLen, env.e).0
    ensures HandleInitiation(t, m, env).0.hs.nextIndex != t.hs.nextIndex
  {
    hide ReceiveInitiation, InstallAsResponder;
    ReceiveInitiationEffect(t.hs, m, env);
    HT.NextIndexDiffers(t.hs.nextIndex);
    var (hs', r) := ReceiveInitiation(t.hs, m, env.dstLen, env.e);
    InstallSameHandshake(t.(hs := hs'), r.value.1);
  }

  /** So the lease cannot be longer: when one index short of it has been handed out, the next accepted
      initiation loses the session. */
  lemma LeaseIsTight(t: Tunn, clock: nat, m: Message, env: Env, ops: seq<Op>, m2: Message, env2: Env)
    requires Inv(t, clock) && clock <= env.now && IsHandshake(m) && Established(t, m, env).Some?
    requires ClockRuns(env.now, ops) && m2.Initiation?
    requires var t' := HandleVerified(t, m, env).0;
             var k := Established(t, m, env).value.receivingIndex;
             && AllocatedIn(t', ops) == Lease(t', k) - 1 && !RemovedIn(t', ops, Slot(k))
             && Established(Run(t', ops), m2, env2).Some?
    ensures var t' := HandleVerified(t, m, env).0;
            var s := Established(t, m, env).value;
            Holds(Run(t', ops), s.receivingIndex, s)
            && !Holds(HandleVerified(Run(t', ops), m2, env2).0, s.receivingIndex, s)
  {
    hide Inv, HandleVerified, Established, Holds, AllocatedIn, RemovedIn, Run, Since;
    var s := Established(t, m, env).value;
    InstalledStaysFindable(t, clock, m, env, ops);
    EighthIndexEvicts(Run(HandleVerified(t, m, env).0, ops), m2, env2, s.receivingIndex, s);
  }

  // Such runs exist: a peer that keeps initiating.

  /** The other end of a tunnel, for a peer that has a private key. */
  function Peer(t: Tunn): (v: View)
    requires t.hs.params.peerStaticPublic.PublicKey?
  {
    NewView(NewParams(t.hs.params.peerStaticPublic.secret, t.hs.params.staticPublic, t.hs.params.presharedKey), 0)
  }

  lemma PeerMatches(t: Tunn)
    requires Coherent(t.hs.params) && t.hs.params.peerStaticPublic.PublicKey?
    ensures Coherent(Peer(t).params) && HT.Matched(t.hs.params, Peer(t).params) && HT.Matched(Peer(t).params, t.hs.params)
    ensures Peer(t).lastTimestamp == Tai64N(0, 0)
  {}

  function Later(stamp: Tai64N): (r: Tai64N)
    ensures After(r, stamp)
  {
    Tai64N(stamp.secs + 1, 0)
  }

  /** The arrival of a new initiation of the peer, with the ephemeral secrets of both sides. */
  function Knock(t: Tunn, now: nat, e: nat, e': nat): (op: Op)
    requires t.hs.params.peerStaticPublic.PublicKey?
    ensures op.Incoming? && op.m.Initiation? && op.env.now == now
  {
    var stamp := Later(t.hs.lastTimestamp);
    Incoming(FormatInitiation(Peer(t), HANDSHAKE_INIT_SZ, e, stamp, now).1.value, Env(HANDSHAKE_RESP_SZ, e', stamp, now))
  }

  lemma KnockAccepted(t: Tunn, now: nat, e: nat, e': nat)
    requires Coherent(t.hs.params) && t.hs.params.peerStaticPublic.PublicKey?
    ensures Established(t, Knock(t, now, e, e').m, Knock(t, now, e, e').env).Some?
    ensures Step(t, Knock(t, now, e, e')).0.hs.params == t.hs.params
  {
    hide FormatInitiation, ReceiveInitiation, ReceiveResponse, InstallAsResponder, After;
    var op := Knock(t, now, e, e');
    HT.HandshakeAgreement(Peer(t), t.hs, e, e', op.env.stamp, now, HANDSHAKE_INIT_SZ, HANDSHAKE_RESP_SZ);
    InitiationAllocates(t, op.m, op.env);
    ParamsKept(t.hs, op.m, op.env);
  }

  /** n of them in a row, with secrets from a supply. */
  function Knocks(t: Tunn, now: nat, es: nat -> nat, i: nat, n: nat): (ops: seq<Op>)
    requires Coherent(t.hs.params) && t.hs.params.peerStaticPublic.PublicKey?
    ensures |ops| == n
    decreases n
  {
    if n == 0 then []
    else
      var op := Knock(t, now, es(i), es(i + 1));
      KnockAccepted(t, now, es(i), es(i + 1));
      [op] + Knocks(Step(t, op).0, now, es, i + 2, n - 1)
  }

  lemma KnockCounts(t: Tunn, now: nat, e: nat, e': nat, k: nat, s: Session, d: nat)
    requires Coherent(t.hs.params) && t.hs.params.peerStaticPublic.PublicKey?
    requires Holds(t, k, s) && Since(t, k, d) && d < 8
    ensures Allocated(t, Knock(t, now, e, e')) == 1 && !Removes(t, Knock(t, now, e, e'), Slot(k))
    ensures d < 7 ==> Holds(Step(t, Knock(t, now, e, e')).0, k, s) && Since(Step(t, Knock(t, now, e, e')).0, k, d + 1)
    ensures d == 7 ==> !Holds(Step(t, Knock(t, now, e, e')).0, k, s)
  {
    hide Established, HandleInitiation, Knock, Holds, Since;
    var op := Knock(t, now, e, e');
    KnockAccepted(t, now, e, e');
    InitiationAllocates(t, op.m, op.env);
    if d < 7 { HandleInitiationKeeps(t, op.m, op.env, k, s, d); } else { EighthIndexEvicts(t, op.m, op.env, k, s); }
  }

  /** A run that begins with op, and an empty one. */
  lemma Unrolled(t: Tunn, op: Op, rest: seq<Op>, i: nat)
    requires i < N_SESSIONS
    ensures var t' := Step(t, op).0;
            && Run(t, [op] + rest) == Run(t', rest)
            && AllocatedIn(t, [op] + rest) == Allocated(t, op) + AllocatedIn(t', rest)
            && (RemovedIn(t, [op] + rest, i) <==> Removes(t, op, i) || RemovedIn(t', rest, i))
            && (ClockRuns(op.env.now, [op] + rest) <==> ClockRuns(op.env.now, rest))
    ensures Run(t, []) == t && AllocatedIn(t, []) == 0 && !RemovedIn(t, [], i) && ClockRuns(op.env.now, [])
  {
    hide Step, Allocated, Removes;
    assert ([op] + rest)[1..] == rest;
  }

  /** Whatever the state of the tunnel, as long as fewer than eight indices have followed a session's own,
      the peer's next initiations evict it, with exactly the indices that are left of the eight. */
  lemma {:induction false} KnocksEvict(t: Tunn, now: nat, es: nat -> nat, i: nat, k: nat, s: Session, d: nat)
    requires Coherent(t.hs.params) && t.hs.params.peerStaticPublic.PublicKey?
    requires Holds(t, k, s) && Since(t, k, d) && d < 8
    ensures var ops := Knocks(t, now, es, i, 8 - d);
            && !Holds(Run(t, ops), k, s) && AllocatedIn(t, ops) == 8 - d
            && !RemovedIn(t, ops, Slot(k)) && ClockRuns(now, ops)
    decreases 8 - d
  {
    hide Step, Holds, Since, Removes, Allocated, Knock, Run, AllocatedIn, RemovedIn, ClockRuns, Coherent;
    var e, e' := es(i), es(i + 1);
    var op := Knock(t, now, e, e');
    var t' := Step(t, op).0;
    KnockAccepted(t, now, e, e');
    KnockCounts(t, now, e, e', k, s, d);
    var rest := Knocks(t', now, es, i + 2, 7 - d);
    assert Knocks(t, now, es, i, 8 - d) == [op] + rest;
    Unrolled(t, op, rest, Slot(k));
    if d < 7 { KnocksEvict(t', now, es, i + 2, k, s, d + 1); } else { Unrolled(t', op, [], Slot(k)); }
  }

  // An initiator whose first initiation is answered after it was repeated.

  function FirstEnv(es: nat -> nat): (env: Env) { Env(HANDSHAKE_INIT_SZ, es(0), Tai64N(1, 0), 0) }

  function SecondEnv(es: nat -> nat): (env: Env) { Env(HANDSHAKE_INIT_SZ, es(1), Tai64N(2, 0), REKEY_TIMEOUT) }

  lemma RepeatedBy(t: Tunn, es: nat -> nat)
    requires t.hs.state.InitSent? && t.hs.state.timeSent == 0 && t.hs.cookies.writeCookie.None?
    requires t.timers[LAST_HANDSHAKE_STARTED] == t.timers[SESSION_ESTABLISHED] == 0
    ensures var (hs', r) := FormatInitiation(t.hs, HANDSHAKE_INIT_SZ, es(1), Tai64N(2, 0), REKEY_TIMEOUT);
            UpdateTimers(t, SecondEnv(es)).0.hs == hs'
  {
    hide FormatInitiation;
    var t1 := ExpireSessions(t.(timers := t.timers[CURRENT := REKEY_TIMEOUT]), REKEY_TIMEOUT);
    assert UpdateTimers(t, SecondEnv(es)) == FormatHandshake(t1, SecondEnv(es), true);
  }

  /** The answer to an initiation that was repeated since is still taken. */
  lemma LateAnswerTaken(v: View, env: Env, m: Message)
    requires HT.PendingInv(v) && v.state.InitSent? && env.dstLen >= HANDSHAKE_INIT_SZ
    requires m.Response? && m.receiverIdx == v.state.localIndex && ReceiveResponse(v, m).1.Ok?
    ensures var v' := FormatInitiation(v, env.dstLen, env.e, env.stamp, env.now).0;
            ReceiveResponse(v', m).1 == ReceiveResponse(v, m).1 && v'.nextIndex == NextIndex(m.receiverIdx)
  {
    hide InitiationTranscript, ExpectedResponse, AuthenticResponse;
    HT.NextIndexDiffers(v.nextIndex);
  }

  /** A tunnel that asks for a handshake and repeats it, after which the answer to the first arrives. */
  function Repeated(t: Tunn, es: nat -> nat): (t': Tunn) {
    Step(Step(t, Request(FirstEnv(es))).0, Update(SecondEnv(es))).0
  }

  lemma RepeatedHandshake(t: Tunn, es: nat -> nat)
    requires HT.PendingInv(t.hs) && t.hs.state.NoHandshake? && t.hs.cookies.writeCookie.None?
    requires t.timers[CURRENT] == t.timers[SESSION_ESTABLISHED] == 0
    ensures var v := FormatInitiation(t.hs, HANDSHAKE_INIT_SZ, es(0), Tai64N(1, 0), 0).0;
            && HT.PendingInv(v) && v.state.InitSent? && v.previous == t.hs.state && Repeated(t, es).hs.params == t.hs.params
            && Repeated(t, es).hs == FormatInitiation(v, HANDSHAKE_INIT_SZ, es(1), Tai64N(2, 0), REKEY_TIMEOUT).0
  {
    hide FormatInitiation, HT.PendingInv;
    HT.StepKeepsPendingInv(t.hs, HT.Initiate(HANDSHAKE_INIT_SZ, es(0), Tai64N(1, 0), 0));
    InitiationEffect(t.hs, FirstEnv(es));
    var v := FormatInitiation(t.hs, HANDSHAKE_INIT_SZ, es(0), Tai64N(1, 0), 0).0;
    FormatKeeps(t.hs, FirstEnv(es));
    FormatKeeps(v, SecondEnv(es));
    var t1 := Step(t, Request(FirstEnv(es))).0;
    assert t1 == Tick(Tick(t.(hs := v), LAST_HANDSHAKE_STARTED), LAST_PACKET_SENT);
    RepeatedBy(t1, es);
  }

  /** The peer's answer to the first initiation. */
  function Answer(t: Tunn, es: nat -> nat): (m: Message)
    requires t.hs.params.peerStaticPublic.PublicKey?
  {
    var m1 := FormatInitiation(t.hs, HANDSHAKE_INIT_SZ, es(0), Tai64N(1, 0), 0).1.value;
    var r := ReceiveInitiation(Peer(t), m1, HANDSHAKE_RESP_SZ, es(2)).1;
    if r.Ok? then r.value.0 else m1
  }

  lemma AnswerCompletes(t: Tunn, es: nat -> nat)
    requires Coherent(t.hs.params) && t.hs.params.peerStaticPublic.PublicKey?
    ensures var v := FormatInitiation(t.hs, HANDSHAKE_INIT_SZ, es(0), Tai64N(1, 0), 0).0;
            Answer(t, es).Response? && ReceiveResponse(v, Answer(t, es)).1.Ok?
  {
    hide FormatInitiation, ReceiveInitiation, ReceiveResponse, InitiationTranscript, Coherent;
    PeerMatches(t);
    HT.HandshakeAgreement(t.hs, Peer(t), es(0), es(2), Tai64N(1, 0), 0, HANDSHAKE_INIT_SZ, HANDSHAKE_RESP_SZ);
    var m1 := FormatInitiation(t.hs, HANDSHAKE_INIT_SZ, es(0), Tai64N(1, 0), 0).1.value;
    InitiationEffect(t.hs, FirstEnv(es));
    ReceiveInitiationEffect(Peer(t), m1, Env(HANDSHAKE_RESP_SZ, es(2), Tai64N(1, 0), 0));
  }

  /**
    For an initiator the bound can be one less: for every pair of keys and every supply of ephemeral
    secrets there is a run of a new tunnel that installs a session by a response and then, with seven
    further indices and nothing expired or cleared, loses it.
  */
  lemma SevenCanSuffice(staticPrivate: nat, peer: nat, psk: Option<Term>, index: nat, keepalive: nat, es: nat -> nat)
    ensures var t0 := NewTunnel(NewParams(staticPrivate, PublicKey(peer), psk), index, keepalive);
            var t := Repeated(t0, es);
            && Answer(t0, es).Response? && Established(t, Answer(t0, es), SecondEnv(es)).Some?
            && var t' := HandleVerified(t, Answer(t0, es), SecondEnv(es)).0;
               var s := Established(t, Answer(t0, es), SecondEnv(es)).value;
               && Lease(t', s.receivingIndex) == 7 && Holds(t', s.receivingIndex, s)
               && exists ops :: AllocatedIn(t', ops) == 7 && !RemovedIn(t', ops, Slot(s.receivingIndex))
                                && ClockRuns(REKEY_TIMEOUT, ops) && !Holds(Run(t', ops), s.receivingIndex, s)
  {
    hide FormatInitiation, ReceiveInitiation, ReceiveResponse, Step, HandleVerified, Run, AllocatedIn, RemovedIn, ClockRuns,
         Holds, Inv, Answer, Repeated;
    var t0 := NewTunnel(NewParams(staticPrivate, PublicKey(peer), psk), index, keepalive);
    var v := FormatInitiation(t0.hs, HANDSHAKE_INIT_SZ, es(0), Tai64N(1, 0), 0).0;
    var t, m := Repeated(t0, es), Answer(t0, es);
    RepeatedHandshake(t0, es);
    AnswerCompletes(t0, es);
    LateAnswer(t0, v, es);
    RepeatedInv(staticPrivate, PublicKey(peer), psk, index, keepalive, es);
    InstalledSession(t, REKEY_TIMEOUT, m, SecondEnv(es));
    var t' := HandleVerified(t, m, SecondEnv(es)).0;
    var s := Established(t, m, SecondEnv(es)).value;
    ResponseKeepsIndex(t, m, SecondEnv(es));
    HT.NextIndexDiffers(s.receivingIndex);
    AdvanceFacts(s.receivingIndex, 0);
    KnocksEvict(t', REKEY_TIMEOUT, es, 3, s.receivingIndex, s, 1);
  }

  lemma LateAnswer(t0: Tunn, v: View, es: nat -> nat)
    requires HT.PendingInv(t0.hs) && t0.hs.params.peerStaticPublic.PublicKey?
    requires v == FormatInitiation(t0.hs, HANDSHAKE_INIT_SZ, es(0), Tai64N(1, 0), 0).0 && HT.PendingInv(v) && v.state.InitSent?
    requires v.previous.NoHandshake? && Answer(t0, es).Response? && ReceiveResponse(v, Answer(t0, es)).1.Ok?
    requires Repeated(t0, es).hs == FormatInitiation(v, HANDSHAKE_INIT_SZ, es(1), Tai64N(2, 0), REKEY_TIMEOUT).0
    ensures Established(Repeated(t0, es), Answer(t0, es), SecondEnv(es)).Some?
    ensures Repeated(t0, es).hs.nextIndex == NextIndex(Answer(t0, es).receiverIdx)
  {
    hide FormatInitiation, ReceiveResponse, Repeated, Answer, HT.PendingInv;
    AddressedToState(v, Answer(t0, es));
    LateAnswerTaken(v, SecondEnv(es), Answer(t0, es));
  }

  lemma AddressedToState(v: View, m: Message)
    requires m.Response? && ReceiveResponse(v, m).1.Ok? && v.state.InitSent? && v.previous.NoHandshake?
    ensures m.receiverIdx == v.state.localIndex
  {
    hide ExpectedResponse, AuthenticResponse;
  }

  lemma RepeatedInv(staticPrivate: nat, peer: Term, psk: Option<Term>, index: nat, keepalive: nat, es: nat -> nat)
    ensures Inv(Repeated(NewTunnel(NewParams(staticPrivate, peer, psk), index, keepalive), es), REKEY_TIMEOUT)
  {
    hide Step, Inv;
    var t0 := NewTunnel(NewParams(staticPrivate, peer, psk), index, keepalive);
    NewTunnelInv(staticPrivate, peer, psk, index, keepalive, 0);
    StepKeepsInv(t0, 0, Request(FirstEnv(es)));
    StepKeepsInv(Step(t0, Request(FirstEnv(es))).0, 0, Update(SecondEnv(es)));
  }

  lemma ResponseKeepsIndex(t: Tunn, m: Message, env: Env)
    requires m.Response?
    ensures HandleVerified(t, m, env).0.hs.nextIndex == t.hs.nextIndex
    ensures HandleVerified(t, m, env).0.hs.params == t.hs.params
  {
    hide ReceiveResponse, InstallAsInitiator, InstallAsResponder;
    ReceiveResponseEffect(t.hs, m);
    var (hs', r) := ReceiveResponse(t.hs, m);
    if r.Ok? { InstallHolds(t.(hs := hs'), FormatPacketData(r.value, []).0); }
  }
}
