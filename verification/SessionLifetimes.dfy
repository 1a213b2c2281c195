/** Sessions: how long one installed in the ring stays findable. */
module SessionLifetimes {
  import opened Basics
  import opened HandshakeSpec
  import opened TunnelSpec
  import opened TunnelRuns
  import HT = HandshakeTheorems

  /** The index handed out d allocations after k: the low eight bits go round. */
  function Advance(k: nat, d: nat): (i: nat) {
    k / 256 * 256 + (k % 256 + d) % 256
  }

  lemma AdvanceFacts(k: nat, d: nat)
    ensures Advance(k, 0) == k
    ensures NextIndex(Advance(k, d)) == Advance(k, d + 1)
  {
    hide NextIndex;
    AdvanceZero(k);
    var x := k % 256 + d;
    NextOf(k / 256, x % 256);
    LowByteNext(x);
  }

  lemma AdvanceZero(k: nat)
    ensures Advance(k, 0) == k
  {}

  lemma NextOf(high: nat, low: nat)
    requires low < 256
    ensures NextIndex(high * 256 + low) == high * 256 + (low + 1) % 256
  {
    IndexParts(high, low);
  }

  lemma IndexParts(high: nat, low: nat)
    requires low < 256
    ensures (high * 256 + low) / 256 == high && (high * 256 + low) % 256 == low
  {}

  lemma LowByteNext(x: nat)
    ensures (x % 256 + 1) % 256 == (x + 1) % 256
  {}

  lemma SlotsDiffer(k: nat, d: nat)
    requires 1 <= d <= 7
    ensures Slot(Advance(k, d)) != Slot(k)
  {}

  lemma NextIndexInjective(a: nat, b: nat)
    requires NextIndex(a) == NextIndex(b)
    ensures a == b
  {}

  lemma PredecessorSlot(k: nat, j: nat)
    requires NextIndex(j) == k
    ensures Slot(j) != Slot(k)
  {}

  /** The slot of index k holds the session s, up to the counters that traffic moves. */
  predicate Holds(t: Tunn, k: nat, s: Session) {
    t.sessions[Slot(k)].Some?
    && var s' := t.sessions[Slot(k)].value;
       (s'.receivingIndex, s'.sendingIndex, s'.receivingKey, s'.sendingKey)
       == (k, s.sendingIndex, s.receivingKey, s.sendingKey)
  }

  /** d indices have been handed out since k, and no pending initiation still carries k. */
  predicate Since(t: Tunn, k: nat, d: nat) {
    && t.hs.nextIndex == Advance(k, d)
    && (t.hs.state.InitSent? ==> t.hs.state.localIndex != k)
    && (t.hs.previous.InitSent? ==> t.hs.previous.localIndex != k)
  }

  function Allocated(t: Tunn, op: Op): (n: nat) {
    if Step(t, op).0.hs.nextIndex == t.hs.nextIndex then 0 else 1
  }

  predicate GivesUp(t: Tunn, env: Env) {
    !t.hs.state.Expired?
    && (env.now - t.timers[SESSION_ESTABLISHED] >= REJECT_AFTER_TIME * 3
        || (t.hs.state.InitSent? && env.now - t.timers[LAST_HANDSHAKE_STARTED] >= REKEY_ATTEMPT_TIME))
  }

  /** The only ways a slot is emptied: a new private key, the session's age, or the whole tunnel. */
  predicate Removes(t: Tunn, op: Op, i: nat)
    requires i < N_SESSIONS
  {
    op.Rekey?
    || (op.Update? && (op.env.now - t.sessionTimers[i] > REJECT_AFTER_TIME || GivesUp(t, op.env)))
  }

  // One operation at a time: the slot is untouched, and the index moves by at most one.

  ghost predicate Keeps(t: Tunn, t': Tunn, k: nat, s: Session, d: nat) {
    && Holds(t', k, s)
    && t'.sessionTimers[Slot(k)] == t.sessionTimers[Slot(k)]
    && Since(t', k, if t'.hs.nextIndex == t.hs.nextIndex then d else d + 1)
  }

  lemma FormatHandshakeKeeps(t: Tunn, env: Env, force: bool, k: nat, s: Session, d: nat)
    requires Holds(t, k, s) && Since(t, k, d) && d < 8
    ensures Keeps(t, FormatHandshake(t, env, force).0, k, s, d)
    ensures FormatHandshake(t, env, force).0.sessions == t.sessions
  {
    hide FormatInitiation, Tick;
    InitiationEffect(t.hs, env);
    AdvanceFacts(k, d);
    AdvanceFacts(k, 0);
    HT.NextIndexDiffers(t.hs.nextIndex);
    var t1 := if t.hs.state.Expired? then ClearTimers(t, env.now) else t;
    var t2: Tunn := t1.(hs := FormatInitiation(t.hs, env.dstLen, env.e, env.stamp, env.now).0);
    TickKeeps(t2, LAST_HANDSHAKE_STARTED);
    TickKeeps(Tick(t2, LAST_HANDSHAKE_STARTED), LAST_PACKET_SENT);
    TickKeeps(t2, LAST_PACKET_SENT);
  }

  lemma {:induction false} EncapsulateKeeps(t: Tunn, packet: Packet, env: Env, k: nat, s: Session, d: nat)
    requires Holds(t, k, s) && Since(t, k, d) && d < 8
    ensures Keeps(t, Encapsulate(t, packet, env).0, k, s, d)
  {
    hide FormatHandshake, Tick;
    if t.sessions[Slot(t.current)].Some? {
      var s' := FormatPacketData(t.sessions[Slot(t.current)].value, packet).0;
      var t1: Tunn := t.(sessions := t.sessions[Slot(t.current) := Some(s')]);
      TickKeeps(t1, LAST_PACKET_SENT);
      TickKeeps(Tick(t1, LAST_PACKET_SENT), LAST_DATA_PACKET_SENT);
    } else {
      FormatHandshakeKeeps(QueuePacket(t, packet), env, false, k, s, d);
    }
  }

  /** Storing a session of another index that was handed out within the last eight leaves k alone. */
  lemma InstallKeeps(t: Tunn, n: Session, k: nat, s: Session)
    requires Holds(t, k, s) && Slot(n.receivingIndex) != Slot(k)
    ensures forall r :: r in {InstallAsResponder(t, n), InstallAsInitiator(t, n)} ==>
              Holds(r, k, s) && r.sessionTimers[Slot(k)] == t.sessionTimers[Slot(k)] && r.hs == t.hs
  {
    hide Tick;
    var t1 := Store(t, n);
    TickKeeps(t1, LAST_PACKET_RECEIVED);
    TickKeeps(Tick(t1, LAST_PACKET_RECEIVED), LAST_PACKET_SENT);
    TickKeeps(Tick(t1, LAST_PACKET_RECEIVED), SESSION_ESTABLISHED);
    TickKeeps(Tick(Tick(t1, LAST_PACKET_RECEIVED), LAST_PACKET_SENT), SESSION_ESTABLISHED);
  }

  lemma InstallSameHandshake(t: Tunn, n: Session)
    ensures InstallAsResponder(t, n).hs == InstallAsInitiator(t, n).hs == t.hs
    ensures InstallAsResponder(t, n).queue == InstallAsInitiator(t, n).queue == t.queue
  {}

  lemma ReceiveInitiationEffect(v: View, m: Message, env: Env)
    requires m.Initiation?
    ensures var (v', r) := ReceiveInitiation(v, m, env.dstLen, env.e);
            && (r.Ok? ==> r.value.0.Response? && v'.state.NoHandshake? && v'.previous == v.state
                          && r.value.1.receivingIndex == v'.nextIndex == NextIndex(v.nextIndex))
            && (r.Err? ==> v'.nextIndex == v.nextIndex
                           && (v' == v || (v'.state.InitReceived? && v'.previous == v.state)))
  {
    hide ExpectedInitiation, ResponseTranscript, AuthenticInitiation;
  }

  lemma ParamsKept(v: View, m: Message, env: Env)
    requires m.Initiation?
    ensures ReceiveInitiation(v, m, env.dstLen, env.e).0.params == v.params
  {
    hide ExpectedInitiation, ResponseTranscript, AuthenticInitiation;
  }

  lemma HandleInitiationKeeps(t: Tunn, m: Message, env: Env, k: nat, s: Session, d: nat)
    requires m.Initiation? && Holds(t, k, s) && Since(t, k, d)
    requires d < 7 || (d == 7 && HandleInitiation(t, m, env).0.hs.nextIndex == t.hs.nextIndex)
    ensures Keeps(t, HandleInitiation(t, m, env).0, k, s, d)
  {
    hide ReceiveInitiation, InstallAsResponder, InstallAsInitiator;
    ReceiveInitiationEffect(t.hs, m, env);
    AdvanceFacts(k, d);
    AdvanceFacts(k, 0);
    HT.NextIndexDiffers(t.hs.nextIndex);
    var (hs', r) := ReceiveInitiation(t.hs, m, env.dstLen, env.e);
    if r.Ok? {
      InstallSameHandshake(t.(hs := hs'), r.value.1);
      SlotsDiffer(k, d + 1);
      InstallKeeps(t.(hs := hs'), r.value.1, k, s);
    }
  }

  lemma ReceiveResponseEffect(v: View, m: Message)
    requires m.Response?
    ensures var (v', r) := ReceiveResponse(v, m);
            && v'.nextIndex == v.nextIndex
            && (r.Err? ==> v' == v)
            && (r.Ok? ==> || (v.state.InitSent? && r.value.receivingIndex == v.state.localIndex
                              && v' == v.(state := NoHandshake))
                          || (v.previous.InitSent? && r.value.receivingIndex == v.previous.localIndex
                              && v' == v.(previous := NoHandshake)))
  {
    hide ExpectedResponse, AuthenticResponse;
  }

  /** A pending initiation other than k lives in another slot. */
  lemma PendingSlot(v: View, k: nat, d: nat, j: nat)
    requires HT.PendingInv(v) && v.nextIndex == Advance(k, d) && d < 8 && j != k
    requires (v.state.InitSent? && j == v.state.localIndex) || (v.previous.InitSent? && j == v.previous.localIndex)
    ensures Slot(j) != Slot(k)
  {
    AdvanceFacts(k, 0);
    if j == v.nextIndex {
      SlotsDiffer(k, d);
    } else if d == 0 {
      PredecessorSlot(k, j);
    } else {
      AdvanceFacts(k, d - 1);
      NextIndexInjective(j, Advance(k, d - 1));
      SlotsDiffer(k, d - 1);
    }
  }

  lemma HandleResponseKeeps(t: Tunn, m: Message, k: nat, s: Session, d: nat)
    requires m.Response? && Holds(t, k, s) && Since(t, k, d) && d < 8 && HT.PendingInv(t.hs)
    ensures Keeps(t, HandleResponse(t, m).0, k, s, d)
  {
    hide ReceiveResponse, InstallAsResponder, InstallAsInitiator, HT.PendingInv;
    ReceiveResponseEffect(t.hs, m);
    var (hs', r) := ReceiveResponse(t.hs, m);
    if r.Ok? {
      PendingSlot(t.hs, k, d, r.value.receivingIndex);
      InstallKeeps(t.(hs := hs'), FormatPacketData(r.value, []).0, k, s);
    }
  }

  lemma ValidateKeeps(t: Tunn, p: Packet)
    ensures var t' := Validate(t, p).0;
            t'.sessions == t.sessions && t'.sessionTimers == t.sessionTimers && t'.hs == t.hs && t'.current == t.current
  {
    hide Tick;
    TickKeeps(t, LAST_DATA_PACKET_RECEIVED);
  }

  lemma SameIdentity(s: Session, m: Message)
    requires m.Data?
    ensures ReceivePacketData(s, m).0.(window := s.window) == s
  {}

  lemma HandleDataKeeps(t: Tunn, m: Message, k: nat, s: Session, d: nat)
    requires m.Data? && Holds(t, k, s) && Since(t, k, d)
    ensures Keeps(t, HandleData(t, m).0, k, s, d)
  {
    hide ReceivePacketData, Validate, Tick, Since;
    var i := Slot(m.receiverIdx);
    if t.sessions[i].Some? && ReceivePacketData(t.sessions[i].value, m).1.Ok? {
      var (s', r) := ReceivePacketData(t.sessions[i].value, m);
      SameIdentity(t.sessions[i].value, m);
      var t1: Tunn := t.(sessions := t.sessions[i := Some(s')]);
      var t2 := SetCurrentSession(t1, m.receiverIdx);
      TickKeeps(t2, LAST_PACKET_RECEIVED);
      ValidateKeeps(Tick(t2, LAST_PACKET_RECEIVED), r.value);
      SinceDepends(t, HandleData(t, m).0, k, d);
    }
  }

  lemma SinceDepends(t: Tunn, t': Tunn, k: nat, d: nat)
    requires t.hs == t'.hs
    ensures Since(t, k, d) == Since(t', k, d)
  {}

  lemma HandleCookieReplyKeeps(t: Tunn, m: Message, k: nat, s: Session, d: nat)
    requires m.CookieReply? && Holds(t, k, s) && Since(t, k, d)
    ensures Keeps(t, HandleCookieReply(t, m).0, k, s, d)
  {
    hide Tick;
    var t1: Tunn := t.(hs := ReceiveCookieReply(t.hs, m).0);
    TickKeeps(t1, LAST_PACKET_RECEIVED);
    TickKeeps(Tick(t1, LAST_PACKET_RECEIVED), COOKIE_RECEIVED);
  }

  lemma SendQueuedKeeps(t: Tunn, env: Env, k: nat, s: Session, d: nat)
    requires Holds(t, k, s) && Since(t, k, d) && d < 8
    ensures Keeps(t, SendQueued(t, env).0, k, s, d)
  {
    hide Encapsulate;
    if t.queue != [] {
      EncapsulateKeeps(t.(queue := t.queue[1..]), t.queue[0], env, k, s, d);
    }
  }

  /** Two tunnels that agree on the slot, its clock and the indices are the same to this property. */
  lemma KeepsDepends(t: Tunn, t1: Tunn, t': Tunn, k: nat, s: Session, d: nat)
    requires Keeps(t1, t', k, s, d)
    requires t1.sessionTimers[Slot(k)] == t.sessionTimers[Slot(k)] && t1.hs.nextIndex == t.hs.nextIndex
    ensures Keeps(t, t', k, s, d)
  {}

  lemma UpdateQuietKeeps(t: Tunn, env: Env, k: nat, s: Session, d: nat)
    requires Holds(t, k, s) && Since(t, k, d) && d < 8
    ensures Keeps(t, UpdateQuiet(t, env).0, k, s, d)
  {
    hide FormatHandshake, Encapsulate, Tick, Keeps, RekeyOnSend, RekeyOnReceive, NoAnswer, NothingSentBack, KeepaliveDue;
    var t1: Tunn := if NoAnswer(t, env.now) then t.(wantHandshake := false) else t;
    FormatHandshakeKeeps(t1, env, true, k, s, d);
    KeepsDepends(t, t1, FormatHandshake(t1, env, true).0, k, s, d);
    var t2: Tunn := if NothingSentBack(t, env.now) then t1.(wantKeepalive := false) else t1;
    var t3 := if KeepaliveDue(t, env.now) then Tick(t2, PERSISTENT_KEEPALIVE) else t2;
    TickKeeps(t2, PERSISTENT_KEEPALIVE);
    EncapsulateKeeps(t3, [], env, k, s, d);
    KeepsDepends(t, t3, Encapsulate(t3, [], env).0, k, s, d);
    assert Keeps(t, t3, k, s, d) by { KeepsItself(t, t3, k, s, d); }
  }

  lemma KeepsItself(t: Tunn, t': Tunn, k: nat, s: Session, d: nat)
    requires Holds(t', k, s) && Since(t', k, d)
    requires t'.sessionTimers[Slot(k)] == t.sessionTimers[Slot(k)] && t'.hs.nextIndex == t.hs.nextIndex
    ensures Keeps(t, t', k, s, d)
  {}

  lemma UpdateKeeps(t: Tunn, env: Env, k: nat, s: Session, d: nat)
    requires Holds(t, k, s) && Since(t, k, d) && d < 8
    requires !Removes(t, Update(env), Slot(k))
    ensures Keeps(t, UpdateTimers(t, env).0, k, s, d)
  {
    hide FormatHandshake, UpdateQuiet, Keeps;
    var t1 := ExpireSessions(t.(timers := t.timers[CURRENT := env.now]), env.now);
    KeepsItself(t, t1, k, s, d);
    var t2: Tunn :=
      if t1.hs.cookies.writeCookie.Some? && env.now - t1.timers[COOKIE_RECEIVED] >= COOKIE_EXPIRATION_TIME
      then t1.(hs := ClearCookie(t1.hs)) else t1;
    KeepsItself(t, t2, k, s, d);
    FormatHandshakeKeeps(t2, env, true, k, s, d);
    KeepsDepends(t, t2, FormatHandshake(t2, env, true).0, k, s, d);
    UpdateQuietKeeps(t2, env, k, s, d);
    KeepsDepends(t, t2, UpdateQuiet(t2, env).0, k, s, d);
  }

  lemma StepKeeps(t: Tunn, clock: nat, op: Op, k: nat, s: Session, d: nat)
    requires Inv(t, clock) && Holds(t, k, s) && Since(t, k, d)
    requires d + Allocated(t, op) < 8 && !Removes(t, op, Slot(k))
    ensures Keeps(t, Step(t, op).0, k, s, d)
  {
    hide Keeps, Holds, Since, Encapsulate, HandleInitiation, HandleResponse, HandleCookieReply, HandleData,
         SendQueued, UpdateTimers, FormatHandshake, HT.PendingInv;
    match op {
      case Outgoing(packet, env) => EncapsulateKeeps(t, packet, env, k, s, d);
      case Flush(env) => SendQueuedKeeps(t, env, k, s, d);
      case Update(env) => UpdateKeeps(t, env, k, s, d);
      case Request(env) => FormatHandshakeKeeps(t, env, false, k, s, d);
      case Rekey(_, _) =>
      case Incoming(m, env) =>
        match m {
          case Initiation(_, _, _, _, _, _) => HandleInitiationKeeps(t, m, env, k, s, d);
          case Response(_, _, _, _, _, _) => HandleResponseKeeps(t, m, k, s, d);
          case CookieReply(_, _, _) => HandleCookieReplyKeeps(t, m, k, s, d);
          case Data(_, _, _) => HandleDataKeeps(t, m, k, s, d);
        }
    }
  }

  lemma StepHolds(t: Tunn, clock: nat, op: Op, k: nat, s: Session, d: nat)
    requires Inv(t, clock) && Holds(t, k, s) && Since(t, k, d)
    requires d + Allocated(t, op) < 8 && !Removes(t, op, Slot(k))
    ensures Holds(Step(t, op).0, k, s) && Since(Step(t, op).0, k, d + Allocated(t, op))
    ensures Step(t, op).0.sessionTimers[Slot(k)] == t.sessionTimers[Slot(k)]
  {
    hide Step, Holds, Since, Inv;
    StepKeeps(t, clock, op, k, s, d);
  }

  // Whole runs.

  /** How many indices a run hands out. */
  function AllocatedIn(t: Tunn, ops: seq<Op>): (n: nat)
    decreases |ops|
  {
    if ops == [] then 0 else Allocated(t, ops[0]) + AllocatedIn(Step(t, ops[0]).0, ops[1..])
  }

  predicate RemovedIn(t: Tunn, ops: seq<Op>, i: nat)
    requires i < N_SESSIONS
    decreases |ops|
  {
    ops != [] && (Removes(t, ops[0], i) || RemovedIn(Step(t, ops[0]).0, ops[1..], i))
  }

  /** A session stays findable under its index, with its keys and its age, in every run that neither
      expires nor clears it and in which fewer than eight indices follow its own. */
  lemma {:induction false} SessionFindable(t: Tunn, clock: nat, ops: seq<Op>, k: nat, s: Session, d: nat)
    requires Inv(t, clock) && ClockRuns(clock, ops)
    requires Holds(t, k, s) && Since(t, k, d)
    requires d + AllocatedIn(t, ops) < 8 && !RemovedIn(t, ops, Slot(k))
    ensures Holds(Run(t, ops), k, s) && Since(Run(t, ops), k, d + AllocatedIn(t, ops))
    ensures Run(t, ops).sessionTimers[Slot(k)] == t.sessionTimers[Slot(k)]
    decreases |ops|
  {
    hide Step, Removes, Inv, Allocated, Holds, Since;
    if ops != [] {
      StepHolds(t, clock, ops[0], k, s, d);
      StepKeepsInv(t, clock, ops[0]);
      SessionFindable(Step(t, ops[0]).0, ops[0].env.now, ops[1..], k, s, d + Allocated(t, ops[0]));
    }
  }

  /** The session a handshake message establishes. */
  function Established(t: Tunn, m: Message, env: Env): (r: Option<Session>)
    requires IsHandshake(m)
  {
    if m.Initiation? then
      var r := ReceiveInitiation(t.hs, m, env.dstLen, env.e).1;
      if r.Ok? then Some(r.value.1) else None
    else
      var r := ReceiveResponse(t.hs, m).1;
      if r.Ok? then Some(r.value) else None
  }

  /** Both ways of installing a session start this off: as responder right after its index was handed
      out, as initiator with at most one index given out since. The age counts from the installation. */
  lemma InstalledSession(t: Tunn, clock: nat, m: Message, env: Env)
    requires Inv(t, clock) && IsHandshake(m) && Established(t, m, env).Some?
    ensures var t' := HandleVerified(t, m, env).0;
            var s := Established(t, m, env).value;
            && Holds(t', s.receivingIndex, s)
            && (Since(t', s.receivingIndex, 0) || (m.Response? && Since(t', s.receivingIndex, 1)))
            && t'.sessionTimers[Slot(s.receivingIndex)] == t.timers[CURRENT]
            && (m.Response? ==> s.receivingIndex == m.receiverIdx)
  {
    hide ReceiveInitiation, ReceiveResponse, InstallAsResponder, InstallAsInitiator;
    var s := Established(t, m, env).value;
    var k := s.receivingIndex;
    AdvanceFacts(k, 0);
    if m.Initiation? {
      ReceiveInitiationEffect(t.hs, m, env);
      HT.NextIndexDiffers(t.hs.nextIndex);
      InstallHolds(t.(hs := ReceiveInitiation(t.hs, m, env.dstLen, env.e).0), s);
    } else {
      ReceiveResponseEffect(t.hs, m);
      AddresseeIndex(t.hs, m);
      InstallHolds(t.(hs := ReceiveResponse(t.hs, m).0), FormatPacketData(s, []).0);
    }
  }

  lemma AddresseeIndex(v: View, m: Message)
    requires m.Response? && ReceiveResponse(v, m).1.Ok?
    ensures ReceiveResponse(v, m).1.value.receivingIndex == m.receiverIdx
  {}

  lemma InstallHolds(t: Tunn, s: Session)
    ensures forall r :: r in {InstallAsResponder(t, s), InstallAsInitiator(t, s)} ==>
              Holds(r, s.receivingIndex, s) && r.hs == t.hs
              && r.sessionTimers[Slot(s.receivingIndex)] == t.timers[CURRENT]
  {
    hide Tick;
    var t1 := Store(t, s);
    TickKeeps(t1, LAST_PACKET_RECEIVED);
    TickKeeps(Tick(t1, LAST_PACKET_RECEIVED), LAST_PACKET_SENT);
    TickKeeps(Tick(t1, LAST_PACKET_RECEIVED), SESSION_ESTABLISHED);
    TickKeeps(Tick(Tick(t1, LAST_PACKET_RECEIVED), LAST_PACKET_SENT), SESSION_ESTABLISHED);
  }

  /** How many indices may be handed out after the installation before the session can be overwritten:
      an initiator's index may already have one successor when the session is installed. */
  function Lease(t: Tunn, k: nat): (n: nat) {
    if t.hs.nextIndex == k then 8 else 7
  }

  /** From the call that installs it on, a session stays findable until it expires, is cleared, or as
      many indices are handed out as its lease allows. */
  lemma InstalledStaysFindable(t: Tunn, clock: nat, m: Message, env: Env, ops: seq<Op>)
    requires Inv(t, clock) && clock <= env.now && IsHandshake(m) && Established(t, m, env).Some?
    requires ClockRuns(env.now, ops)
    requires var t' := HandleVerified(t, m, env).0;
             var k := Established(t, m, env).value.receivingIndex;
             AllocatedIn(t', ops) < Lease(t', k) && !RemovedIn(t', ops, Slot(k))
    ensures var t' := HandleVerified(t, m, env).0;
            var s := Established(t, m, env).value;
            var k := s.receivingIndex;
            && Holds(Run(t', ops), k, s) && Since(Run(t', ops), k, 8 - Lease(t', k) + AllocatedIn(t', ops))
            && Run(t', ops).sessionTimers[Slot(k)] == t.timers[CURRENT]
  {
    hide Inv, HandleVerified, Established, Holds, AllocatedIn, RemovedIn, Run;
    var t' := HandleVerified(t, m, env).0;
    var s := Established(t, m, env).value;
    InstalledSession(t, clock, m, env);
    HandleVerifiedInv(t, clock, m, env);
    AdvanceFacts(s.receivingIndex, 0);
    HT.NextIndexDiffers(s.receivingIndex);
    SessionFindable(t', env.now, ops, s.receivingIndex, s, 8 - Lease(t', s.receivingIndex));
  }
}
