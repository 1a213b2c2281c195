/**
  When a tunnel with no handshake pending speaks up by itself, in seconds on the clock: what each timer
  remembers of the calls before, what a timer call then decides, and what follows over whole runs. The
  tunnel's clock is the reading of its last timer call; an event between two timer calls is dated by it.
*/
module Rekeying {
  import opened Basics
  import opened Constants
  import opened Crypto
  import opened HandshakeSpec
  import opened TunnelSpec
  import opened TunnelRuns
  import opened Packets
  import SL = SessionLifetimes
  import DP = DataPath

  // What a call was, by its arguments and its outcome.

  /** A handshake message was accepted, which puts a session in place. */
  predicate Installs(op: Op, out: Outcome) {
    op.Incoming? && IsHandshake(op.m) && !out.Fail?
  }

  /** A message from the peer was accepted; data counts as soon as it decrypts. */
  predicate Receives(op: Op, out: Outcome) {
    op.Incoming? && (!out.Fail? || (op.m.Data? && out.error == InvalidPacket))
  }

  predicate ReceivesData(out: Outcome) {
    out.ToTunnelV4? || out.ToTunnelV6?
  }

  /** Something went out; the packet that confirms a new session is not dated. */
  predicate Sends(op: Op, out: Outcome) {
    out.ToNetwork? && !(op.Incoming? && op.m.Response?)
  }

  /** A packet that is not a keepalive went out. */
  predicate SendsData(t: Tunn, op: Op, out: Outcome) {
    out.ToNetwork? && out.m.Data?
    && ((op.Outgoing? && op.packet != []) || (op.Flush? && t.queue != [] && t.queue[0] != []))
  }

  predicate TakesCookie(op: Op, out: Outcome) {
    op.Incoming? && op.m.CookieReply? && !out.Fail?
  }

  // What the timers remember.

  datatype Event = Event(installs: bool, asInitiator: bool, receives: bool, receivesData: bool, sends: bool, sendsData: bool, cookie: bool)

  function EventOf(t: Tunn, op: Op, out: Outcome): (ev: Event) {
    Event(Installs(op, out), op.Incoming? && op.m.Response?, Receives(op, out), ReceivesData(out), Sends(op, out),
          SendsData(t, op, out), TakesCookie(op, out))
  }

  /** Each timer holds the tunnel's clock at the last event of its kind; the two wishes hold what came
      last, something sent or something received. */
  ghost predicate Noted(t: Tunn, t': Tunn, ev: Event) {
    var now := t.timers[CURRENT];
    && t'.timers[CURRENT] == now
    && t'.timers[SESSION_ESTABLISHED] == (if ev.installs then now else t.timers[SESSION_ESTABLISHED])
    && t'.timers[LAST_PACKET_RECEIVED] == (if ev.receives then now else t.timers[LAST_PACKET_RECEIVED])
    && t'.timers[LAST_PACKET_SENT] == (if ev.sends then now else t.timers[LAST_PACKET_SENT])
    && t'.timers[LAST_DATA_PACKET_RECEIVED] == (if ev.receivesData then now else t.timers[LAST_DATA_PACKET_RECEIVED])
    && t'.timers[LAST_DATA_PACKET_SENT] == (if ev.sendsData then now else t.timers[LAST_DATA_PACKET_SENT])
    && t'.timers[COOKIE_RECEIVED] == (if ev.cookie then now else t.timers[COOKIE_RECEIVED])
    && t'.timers[PERSISTENT_KEEPALIVE] == t.timers[PERSISTENT_KEEPALIVE]
    && t'.persistentKeepalive == t.persistentKeepalive
    && t'.isInitiator == (if ev.installs then ev.asInitiator else t.isInitiator)
    && t'.wantHandshake == (if ev.sends then true else if ev.receives then false else t.wantHandshake)
    && t'.wantKeepalive == (if ev.sends then false else if ev.receives then true else t.wantKeepalive)
  }

  const NOTHING := Event(false, false, false, false, false, false, false)

  lemma FormatNoted(t: Tunn, env: Env, force: bool)
    requires !t.hs.state.Expired?
    ensures var (t', out) := FormatHandshake(t, env, force);
            && Noted(t, t', NOTHING.(sends := out.ToNetwork?))
            && (out.ToNetwork? ==> out.m.Initiation?)
            && (!IsInProgress(t.hs) || force ==>
                  if env.dstLen >= 148 then out.ToNetwork? else out == Fail(DestinationBufferTooSmall))
            && (IsInProgress(t.hs) && !force ==> out == Done)
  {
    hide FormatInitiation;
    InitiationEffect(t.hs, env);
    RoomForInitiation(t.hs, env);
    if !IsInProgress(t.hs) || force {
      var (hs', r) := FormatInitiation(t.hs, env.dstLen, env.e, env.stamp, env.now);
      var t2: Tunn := t.(hs := hs');
      var t3 := if IsInProgress(t.hs) then t2 else Tick(t2, LAST_HANDSHAKE_STARTED);
      assert FormatHandshake(t, env, force) ==
        if r.Err? then (t2, Fail(r.error)) else (Tick(t3, LAST_PACKET_SENT), ToNetwork(r.value));
    }
  }

  lemma RoomForInitiation(v: View, env: Env)
    ensures var r := FormatInitiation(v, env.dstLen, env.e, env.stamp, env.now).1;
            if env.dstLen >= 148 then r.Ok? else r == Err(DestinationBufferTooSmall)
  {
    hide InitiationTranscript;
  }

  lemma NotedDepends(t: Tunn, t0: Tunn, t': Tunn, t'': Tunn, ev: Event)
    requires t0 == t.(queue := t0.queue) && t'' == t'.(queue := t''.queue) && Noted(t0, t', ev)
    ensures Noted(t, t'', ev)
  {}

  lemma SendNoted(t: Tunn, packet: Packet)
    requires t.sessions[Slot(t.current)].Some?
    ensures Noted(t, Send(t, packet).0, NOTHING.(sends := true, sendsData := packet != []))
  {}

  lemma EncapsulateNoted(t: Tunn, packet: Packet, env: Env)
    requires !t.hs.state.Expired?
    ensures var (t', out) := Encapsulate(t, packet, env);
            Noted(t, t', NOTHING.(sends := out.ToNetwork?, sendsData := out.ToNetwork? && out.m.Data? && packet != []))
  {
    hide FormatHandshake, Noted, Send;
    if t.sessions[Slot(t.current)].Some? {
      SendNoted(t, packet);
      assert Send(t, packet).1.ToNetwork? && Send(t, packet).1.m.Data? by { SendSends(t, packet); }
    } else {
      var t1 := QueuePacket(t, packet);
      FormatNoted(t1, env, false);
      var (t', out) := FormatHandshake(t1, env, false);
      NotedDepends(t, t1, t', t', NOTHING.(sends := out.ToNetwork?));
    }
  }

  lemma SendSends(t: Tunn, packet: Packet)
    requires t.sessions[Slot(t.current)].Some?
    ensures var s := t.sessions[Slot(t.current)].value;
            Send(t, packet).1 == ToNetwork(Data(s.sendingIndex, s.sendingKeyCounter,
                                                Seal(s.sendingKey, Number(s.sendingKeyCounter), [Payload(packet)], [])))
  {}

  lemma FlushNoted(t: Tunn, env: Env)
    requires !t.hs.state.Expired?
    ensures var (t', out) := SendQueued(t, env);
            Noted(t, t', NOTHING.(sends := out.ToNetwork?,
                                  sendsData := out.ToNetwork? && out.m.Data? && t.queue != [] && t.queue[0] != []))
  {
    hide Encapsulate;
    if t.queue != [] {
      var t1: Tunn := t.(queue := t.queue[1..]);
      EncapsulateNoted(t1, t.queue[0], env);
      var (t', out) := Encapsulate(t1, t.queue[0], env);
      NotedDepends(t, t1, t', SendQueued(t, env).0,
                   NOTHING.(sends := out.ToNetwork?, sendsData := out.ToNetwork? && out.m.Data? && t.queue[0] != []));
    }
  }

  lemma InstallNoted(t: Tunn, s: Session)
    ensures Noted(t, InstallAsResponder(t, s), NOTHING.(installs := true, receives := true, sends := true))
    ensures Noted(t, InstallAsInitiator(t, s), NOTHING.(installs := true, asInitiator := true, receives := true))
  {}

  lemma SameBut(t: Tunn, t0: Tunn, t': Tunn, ev: Event)
    requires t0 == t.(hs := t0.hs, sessions := t0.sessions, current := t0.current) && Noted(t0, t', ev)
    ensures Noted(t, t', ev)
  {}

  lemma Unnoted(t: Tunn, t': Tunn, ev: Event)
    requires t' == t.(hs := t'.hs, sessions := t'.sessions) && ev == NOTHING.(asInitiator := ev.asInitiator)
    ensures Noted(t, t', ev)
  {}

  lemma DataNoted(t: Tunn, m: Message)
    requires m.Data?
    ensures var (t', out) := HandleData(t, m);
            Noted(t, t', NOTHING.(receives := !out.Fail? || out.error == InvalidPacket, receivesData := ReceivesData(out)))
  {
    hide ReceivePacketData, Validate, SetCurrentSession, Handed;
    var i := Slot(m.receiverIdx);
    if t.sessions[i].Some? {
      ReceiveErrors(t.sessions[i].value, m);
      var (s, r) := ReceivePacketData(t.sessions[i].value, m);
      if r.Ok? {
        var t1: Tunn := t.(sessions := t.sessions[i := Some(s)]);
        var t2 := SetCurrentSession(t1, m.receiverIdx);
        assert t2 == t1.(current := t2.current) by { OnlyCurrent(t1, m.receiverIdx); }
        HandedByAnyone(Tick(t2, LAST_PACKET_RECEIVED), r.value);
        HandedCounts(Tick(t2, LAST_PACKET_RECEIVED), r.value);
        RefusedInvalid(r.value);
      }
    }
  }

  lemma OnlyCurrent(t: Tunn, idx: nat)
    ensures SetCurrentSession(t, idx) == t.(current := SetCurrentSession(t, idx).current)
  {}

  lemma RefusedInvalid(p: Packet)
    ensures Handed(p).Fail? ==> Handed(p).error == InvalidPacket
    ensures !Handed(p).ToNetwork?
  {}

  lemma ReceiveErrors(s: Session, m: Message)
    requires m.Data?
    ensures var r := ReceivePacketData(s, m).1;
            r.Err? ==> r.error == WrongIndex || r.error.CounterRefused? || r.error == InvalidAeadTag
  {}

  lemma HandshakeNoted(t: Tunn, m: Message, env: Env)
    requires IsHandshake(m)
    ensures var (t', out) := HandleVerified(t, m, env);
            Noted(t, t', EventOf(t, Incoming(m, env), out)) && (!out.Fail? ==> out.ToNetwork?)
  {
    hide ReceiveInitiation, ReceiveResponse, InstallAsResponder, InstallAsInitiator, Noted, FormatPacketData;
    if m.Initiation? {
      var (hs', r) := ReceiveInitiation(t.hs, m, env.dstLen, env.e);
      var t1: Tunn := t.(hs := hs');
      if r.Ok? {
        InstallNoted(t1, r.value.1);
        SameBut(t, t1, InstallAsResponder(t1, r.value.1), NOTHING.(installs := true, receives := true, sends := true));
      } else {
        Unnoted(t, t1, NOTHING);
      }
    } else {
      var (hs', r) := ReceiveResponse(t.hs, m);
      var t1: Tunn := t.(hs := hs');
      if r.Ok? {
        var s := FormatPacketData(r.value, []).0;
        InstallNoted(t1, s);
        SameBut(t, t1, InstallAsInitiator(t1, s), NOTHING.(installs := true, asInitiator := true, receives := true));
      } else {
        Unnoted(t, t1, NOTHING.(asInitiator := true));
      }
    }
  }

  lemma CookieNoted(t: Tunn, m: Message)
    requires m.CookieReply?
    ensures var (t', out) := HandleCookieReply(t, m);
            Noted(t, t', NOTHING.(receives := !out.Fail?, cookie := !out.Fail?)) && !out.ToNetwork? && !ReceivesData(out)
  {
    hide ReceiveCookieReply;
  }

  lemma DataSendsNothing(t: Tunn, m: Message)
    requires m.Data?
    ensures !HandleData(t, m).1.ToNetwork?
  {}

  /** What every call but the timer's leaves in the timers, over all calls and all states. */
  lemma CallNoted(t: Tunn, op: Op)
    requires !op.Update? && !t.hs.state.Expired?
    ensures var (t', out) := Step(t, op); Noted(t, t', EventOf(t, op, out))
  {
    hide Encapsulate, SendQueued, FormatHandshake, HandleInitiation, HandleResponse, HandleCookieReply, HandleData, Noted;
    match op {
      case Outgoing(packet, env) => EncapsulateNoted(t, packet, env); OutgoingSendsOnly(t, packet, env);
      case Flush(env) => FlushNoted(t, env); FlushSendsOnly(t, env);
      case Request(env) => FormatNoted(t, env, false); FormatSendsOnly(t, env);
      case Rekey(key, _) => Unnoted(t, ChangeKey(t, key), NOTHING);
      case Incoming(m, env) =>
        if IsHandshake(m) { HandshakeNoted(t, m, env); }
        else if m.CookieReply? { CookieNoted(t, m); }
        else { DataNoted(t, m); DataSendsNothing(t, m); }
    }
  }

  lemma FormatSendsOnly(t: Tunn, env: Env)
    ensures !ReceivesData(FormatHandshake(t, env, false).1)
  {
    hide FormatInitiation;
  }

  lemma OutgoingSendsOnly(t: Tunn, packet: Packet, env: Env)
    ensures !ReceivesData(Encapsulate(t, packet, env).1)
  {
    hide FormatInitiation;
  }

  lemma FlushSendsOnly(t: Tunn, env: Env)
    ensures !ReceivesData(SendQueued(t, env).1)
  {
    hide Encapsulate;
    if t.queue != [] { OutgoingSendsOnly(t.(queue := t.queue[1..]), t.queue[0], env); }
  }

  // What a timer call decides.

  /** It is time for a new handshake: 120 s after this side initiated a session it has sent data in, 165 s
      after this side initiated a session it has received data in, or 15 s after the peer was last heard
      when data has been sent since. */
  predicate HandshakeDue(t: Tunn, now: nat) {
    || (t.isInitiator && t.timers[LAST_DATA_PACKET_SENT] > t.timers[SESSION_ESTABLISHED]
        && now >= t.timers[SESSION_ESTABLISHED] + 120 * SECOND)
    || (t.isInitiator && t.timers[LAST_DATA_PACKET_RECEIVED] > t.timers[SESSION_ESTABLISHED]
        && now >= t.timers[SESSION_ESTABLISHED] + 165 * SECOND)
    || (t.wantHandshake && t.timers[LAST_DATA_PACKET_SENT] > t.timers[LAST_PACKET_RECEIVED]
        && now >= t.timers[LAST_PACKET_RECEIVED] + 15 * SECOND)
  }

  predicate PeriodOver(t: Tunn, now: nat) {
    t.persistentKeepalive > 0 && now >= t.timers[PERSISTENT_KEEPALIVE] + t.persistentKeepalive * SECOND
  }

  /** It is time for a keepalive: 10 s after the last packet sent when data has been received since, or
      when the configured period is over. */
  predicate KeepaliveTime(t: Tunn, now: nat) {
    || (t.wantKeepalive && t.timers[LAST_DATA_PACKET_RECEIVED] > t.timers[LAST_PACKET_SENT]
        && now >= t.timers[LAST_PACKET_SENT] + 10 * SECOND)
    || PeriodOver(t, now)
  }

  /** The current session, unless it is older than 180 s. */
  function Usable(t: Tunn, now: nat): (s: Option<Session>) {
    if now > t.sessionTimers[Slot(t.current)] + 180 * SECOND then None else t.sessions[Slot(t.current)]
  }

  function EmptyPacket(s: Session): (m: Message) {
    Data(s.sendingIndex, s.sendingKeyCounter, Seal(s.sendingKey, Number(s.sendingKeyCounter), [Payload([])], []))
  }

  /** No handshake is pending and the tunnel is not given up, nor is this the call to give it up. */
  predicate Quiet(t: Tunn, now: nat) {
    !t.hs.state.InitSent? && !t.hs.state.Expired? && now < t.timers[SESSION_ESTABLISHED] + 540 * SECOND
  }

  predicate Starts(out: Outcome, dstLen: nat) {
    if dstLen >= 148 then out.ToNetwork? && out.m.Initiation? else out == Fail(DestinationBufferTooSmall)
  }

  /** The tunnel a timer call decides on: its clock is set, old sessions and an old cookie are gone. */
  function Refreshed(t: Tunn, now: nat): (r: Tunn) {
    var t1 := ExpireSessions(t.(timers := t.timers[CURRENT := now]), now);
    if t1.hs.cookies.writeCookie.Some? && now >= t1.timers[COOKIE_RECEIVED] + 120 * SECOND
    then t1.(hs := ClearCookie(t1.hs)) else t1
  }

  lemma RefreshedKeeps(t: Tunn, now: nat)
    ensures var r := Refreshed(t, now);
            && r.timers == t.timers[CURRENT := now] && r.hs.state == t.hs.state && r.current == t.current
            && r.isInitiator == t.isInitiator && r.wantHandshake == t.wantHandshake && r.wantKeepalive == t.wantKeepalive
            && r.persistentKeepalive == t.persistentKeepalive && r.sessions[Slot(t.current)] == Usable(t, now)
  {}

  lemma UpdateDecides(t: Tunn, env: Env)
    requires Quiet(t, env.now)
    ensures UpdateTimers(t, env) == UpdateQuiet(Refreshed(t, env.now), env)
  {
    hide UpdateQuiet, UpdatePending, FormatHandshake;
  }

  lemma KeepalivesDecide(t: Tunn, env: Env)
    requires t.timers[CURRENT] == env.now && !t.hs.state.InitSent? && !t.hs.state.Expired?
    ensures var (t', out) := UpdateKeepalives(t, env);
            && (!KeepaliveTime(t, env.now) ==> out == Done)
            && (KeepaliveTime(t, env.now) && t.sessions[Slot(t.current)].Some?
                ==> out == ToNetwork(EmptyPacket(t.sessions[Slot(t.current)].value)))
            && (KeepaliveTime(t, env.now) && t.sessions[Slot(t.current)].None?
                ==> if IsInProgress(t.hs) then out == Done else Starts(out, env.dstLen))
            && t'.timers[PERSISTENT_KEEPALIVE] == (if PeriodOver(t, env.now) then env.now else t.timers[PERSISTENT_KEEPALIVE])
  {
    hide Encapsulate;
    var t1: Tunn := if NothingSentBack(t, env.now) then t.(wantKeepalive := false) else t;
    var t2 := if KeepaliveDue(t, env.now) then Tick(t1, PERSISTENT_KEEPALIVE) else t1;
    KeepaliveGoesOut(t2, env);
  }

  lemma KeepaliveGoesOut(t: Tunn, env: Env)
    requires !t.hs.state.Expired?
    ensures var (t', out) := Encapsulate(t, [], env);
            && (t.sessions[Slot(t.current)].Some? ==> out == ToNetwork(EmptyPacket(t.sessions[Slot(t.current)].value)))
            && (t.sessions[Slot(t.current)].None? ==> if IsInProgress(t.hs) then out == Done else Starts(out, env.dstLen))
            && t'.timers[PERSISTENT_KEEPALIVE] == t.timers[PERSISTENT_KEEPALIVE]
  {
    hide FormatHandshake, Send;
    if t.sessions[Slot(t.current)].Some? {
      SendSends(t, []);
      SendNoted(t, []);
    } else {
      FormatNoted(QueuePacket(t, []), env, false);
    }
  }

  lemma QuietDecides(t: Tunn, env: Env)
    requires t.timers[CURRENT] == env.now && !t.hs.state.InitSent? && !t.hs.state.Expired?
    ensures UpdateQuiet(t, env) ==
              var t1: Tunn := if t.timers[LAST_DATA_PACKET_SENT] > t.timers[LAST_PACKET_RECEIVED]
                                 && env.now >= t.timers[LAST_PACKET_RECEIVED] + 15 * SECOND
                              then t.(wantHandshake := false) else t;
              if HandshakeDue(t, env.now) then FormatHandshake(t1, env, true) else UpdateKeepalives(t1, env)
  {
    hide FormatHandshake, UpdateKeepalives;
  }

  /** What a timer call of a tunnel without a pending handshake does, in full: an initiation exactly when
      one is due, otherwise an empty data packet under the current session exactly when a keepalive is
      due - or the initiation it takes to get a session -, and otherwise nothing. */
  lemma QuietUpdateExactly(t: Tunn, env: Env)
    requires Quiet(t, env.now)
    ensures var (t', out) := UpdateTimers(t, env);
            && (HandshakeDue(t, env.now) ==> Starts(out, env.dstLen))
            && (!HandshakeDue(t, env.now) && KeepaliveTime(t, env.now) && Usable(t, env.now).Some?
                ==> out == ToNetwork(EmptyPacket(Usable(t, env.now).value)))
            && (!HandshakeDue(t, env.now) && KeepaliveTime(t, env.now) && Usable(t, env.now).None?
                ==> if IsInProgress(t.hs) then out == Done else Starts(out, env.dstLen))
            && (!HandshakeDue(t, env.now) && !KeepaliveTime(t, env.now) ==> out == Done)
            && t'.timers[PERSISTENT_KEEPALIVE] ==
                 (if !HandshakeDue(t, env.now) && PeriodOver(t, env.now) then env.now else t.timers[PERSISTENT_KEEPALIVE])
  {
    hide UpdateTimers, UpdateQuiet, UpdateKeepalives, FormatHandshake, Refreshed, Usable;
    UpdateDecides(t, env);
    RefreshedKeeps(t, env.now);
    var t0 := Refreshed(t, env.now);
    QuietDecides(t0, env);
    var t1: Tunn := if t0.timers[LAST_DATA_PACKET_SENT] > t0.timers[LAST_PACKET_RECEIVED]
                       && env.now >= t0.timers[LAST_PACKET_RECEIVED] + 15 * SECOND
                    then t0.(wantHandshake := false) else t0;
    assert HandshakeDue(t, env.now) == HandshakeDue(t0, env.now);
    assert KeepaliveTime(t, env.now) == KeepaliveTime(t1, env.now) && PeriodOver(t, env.now) == PeriodOver(t1, env.now);
    if HandshakeDue(t0, env.now) { FormatNoted(t1, env, true); } else { KeepalivesDecide(t1, env); }
  }

  // What a timer call leaves in the timers.

  /** Short of giving up, a timer call dates nothing but what it sends and the persistent keepalive. */
  ghost predicate NotedByTimer(t: Tunn, now: nat, t': Tunn, out: Outcome) {
    && t'.timers[CURRENT] == now
    && t'.timers[SESSION_ESTABLISHED] == t.timers[SESSION_ESTABLISHED]
    && t'.timers[LAST_PACKET_RECEIVED] == t.timers[LAST_PACKET_RECEIVED]
    && t'.timers[LAST_DATA_PACKET_RECEIVED] == t.timers[LAST_DATA_PACKET_RECEIVED]
    && t'.timers[LAST_DATA_PACKET_SENT] == t.timers[LAST_DATA_PACKET_SENT]
    && t'.timers[COOKIE_RECEIVED] == t.timers[COOKIE_RECEIVED]
    && t'.timers[LAST_PACKET_SENT] == (if out.ToNetwork? then now else t.timers[LAST_PACKET_SENT])
    && t'.isInitiator == t.isInitiator && t'.persistentKeepalive == t.persistentKeepalive
    && (!PeriodOver(t, now) ==> t'.timers[PERSISTENT_KEEPALIVE] == t.timers[PERSISTENT_KEEPALIVE])
    && (if out.ToNetwork? then t'.wantHandshake && !t'.wantKeepalive
        else && (now < t.timers[LAST_PACKET_RECEIVED] + 15 * SECOND ==> t'.wantHandshake == t.wantHandshake)
             && (now < t.timers[LAST_PACKET_SENT] + 10 * SECOND ==> t'.wantKeepalive == t.wantKeepalive))
    && !ReceivesData(out)
  }

  lemma FormatByTimer(t: Tunn, env: Env)
    requires t.timers[CURRENT] == env.now && !t.hs.state.Expired?
    ensures var (t', out) := FormatHandshake(t, env, true); NotedByTimer(t, env.now, t', out)
  {
    hide FormatHandshake;
    FormatNoted(t, env, true);
  }

  lemma KeepalivesByTimer(t: Tunn, env: Env)
    requires t.timers[CURRENT] == env.now && !t.hs.state.Expired?
    ensures var (t', out) := UpdateKeepalives(t, env); NotedByTimer(t, env.now, t', out)
  {
    hide Encapsulate;
    var t1: Tunn := if NothingSentBack(t, env.now) then t.(wantKeepalive := false) else t;
    var t2 := if KeepaliveDue(t, env.now) then Tick(t1, PERSISTENT_KEEPALIVE) else t1;
    EncapsulateNoted(t2, [], env);
    OutgoingSendsOnly(t2, [], env);
  }

  /** The same call seen from before its clock was set and its flag was cleared. */
  lemma TimerDepends(t: Tunn, t0: Tunn, now: nat, t': Tunn, out: Outcome)
    requires t0.timers == t.timers[CURRENT := now]
    requires t0.isInitiator == t.isInitiator && t0.persistentKeepalive == t.persistentKeepalive && t0.wantKeepalive == t.wantKeepalive
    requires t0.wantHandshake == t.wantHandshake || now >= t.timers[LAST_PACKET_RECEIVED] + 15 * SECOND
    requires NotedByTimer(t0, now, t', out)
    ensures NotedByTimer(t, now, t', out)
  {}

  lemma UpdateNoted(t: Tunn, env: Env)
    requires !t.hs.state.Expired? && !SL.GivesUp(t, env)
    ensures var (t', out) := UpdateTimers(t, env); NotedByTimer(t, env.now, t', out)
  {
    hide UpdateQuiet, UpdateKeepalives, FormatHandshake, Refreshed, NotedByTimer;
    RefreshedKeeps(t, env.now);
    var t0 := Refreshed(t, env.now);
    if t.hs.state.InitSent? {
      assert UpdateTimers(t, env) == UpdatePending(t0, env) by { PendingDecides(t, env); }
      FormatByTimer(t0, env);
      var (t', out) := FormatHandshake(t0, env, true);
      TimerDepends(t, t0, env.now, t', out);
      assert NotedByTimer(t0, env.now, t0, Done) by { NothingByTimer(t0); }
      TimerDepends(t, t0, env.now, t0, Done);
    } else {
      UpdateDecides(t, env);
      QuietDecides(t0, env);
      var t1: Tunn := if t0.timers[LAST_DATA_PACKET_SENT] > t0.timers[LAST_PACKET_RECEIVED]
                         && env.now >= t0.timers[LAST_PACKET_RECEIVED] + 15 * SECOND
                      then t0.(wantHandshake := false) else t0;
      FormatByTimer(t1, env);
      KeepalivesByTimer(t1, env);
      var (t', out) := UpdateQuiet(t0, env);
      TimerDepends(t, t1, env.now, t', out);
    }
  }

  lemma PendingDecides(t: Tunn, env: Env)
    requires t.hs.state.InitSent? && !SL.GivesUp(t, env)
    ensures UpdateTimers(t, env) == UpdatePending(Refreshed(t, env.now), env)
  {
    hide UpdatePending, UpdateQuiet;
  }

  lemma NothingByTimer(t: Tunn)
    ensures NotedByTimer(t, t.timers[CURRENT], t, Done)
  {}

  // Runs.

  /** No session is put in place and the tunnel is not given up. */
  predicate Calm(t: Tunn, op: Op) {
    !t.hs.state.Expired? && !Installs(op, Step(t, op).1) && !(op.Update? && SL.GivesUp(t, op.env))
  }

  ghost predicate AllCalm(t: Tunn, ops: seq<Op>)
    decreases |ops|
  {
    ops == [] || (Calm(t, ops[0]) && AllCalm(Step(t, ops[0]).0, ops[1..]))
  }

  /** The session and its date stay, and no date of data goes back. */
  ghost predicate Dated(t: Tunn, t': Tunn) {
    && t'.timers[SESSION_ESTABLISHED] == t.timers[SESSION_ESTABLISHED] && t'.isInitiator == t.isInitiator
    && t'.timers[LAST_DATA_PACKET_SENT] >= t.timers[LAST_DATA_PACKET_SENT]
    && t'.timers[LAST_DATA_PACKET_RECEIVED] >= t.timers[LAST_DATA_PACKET_RECEIVED]
    && t'.persistentKeepalive == t.persistentKeepalive
  }

  lemma StepDated(t: Tunn, clock: nat, op: Op)
    requires Inv(t, clock) && clock <= op.env.now && Calm(t, op)
    ensures Dated(t, Step(t, op).0)
  {
    hide Step, SL.GivesUp, RingInOrder;
    if op.Update? { UpdateNoted(t, op.env); assert Step(t, op) == UpdateTimers(t, op.env) by { StepUpdate(t, op.env); } }
    else { CallNoted(t, op); }
  }

  lemma StepUpdate(t: Tunn, env: Env)
    ensures Step(t, Update(env)) == UpdateTimers(t, env)
  {}

  lemma {:induction false} RunDated(t: Tunn, clock: nat, ops: seq<Op>)
    requires Inv(t, clock) && ClockRuns(clock, ops) && AllCalm(t, ops)
    ensures Dated(t, Run(t, ops))
    decreases |ops|
  {
    if ops != [] {
      hide Step, Inv, Calm;
      StepDated(t, clock, ops[0]);
      StepKeepsInv(t, clock, ops[0]);
      RunDated(Step(t, ops[0]).0, ops[0].env.now, ops[1..]);
    }
  }

  /** The i-th call of a run, and the state it meets. */
  ghost function Before(t: Tunn, ops: seq<Op>, i: nat): (t': Tunn)
    requires i <= |ops|
  {
    Run(t, ops[..i])
  }

  lemma BeforeLater(t: Tunn, ops: seq<Op>, i: nat)
    requires 0 < i <= |ops|
    ensures Before(t, ops, i) == Before(Step(t, ops[0]).0, ops[1..], i - 1)
  {
    assert ops[..i][1..] == ops[1..][..i - 1];
  }

  lemma DataDates(t: Tunn, op: Op)
    requires Calm(t, op)
    ensures var (t', out) := Step(t, op);
            && (SendsData(t, op, out) ==> t'.timers[LAST_DATA_PACKET_SENT] == t.timers[CURRENT] && t'.wantHandshake)
            && (ReceivesData(out) ==> t'.timers[LAST_DATA_PACKET_RECEIVED] == t.timers[CURRENT] && t'.wantKeepalive)
  {
    hide Step;
    if op.Update? { UpdateNoted(t, op.env); StepUpdate(t, op.env); } else { CallNoted(t, op); OnlyIncomingHands(t, op); }
  }

  lemma OnlyIncomingHands(t: Tunn, op: Op)
    ensures ReceivesData(Step(t, op).1) ==> !Sends(op, Step(t, op).1) && (op.Incoming? || op.Update?)
  {
    hide Encapsulate, SendQueued, FormatHandshake, HandleVerified, UpdateTimers;
    match op {
      case Outgoing(packet, env) => OutgoingSendsOnly(t, packet, env);
      case Flush(env) => FlushSendsOnly(t, env);
      case Request(env) => FormatSendsOnly(t, env);
      case Rekey(_, _) =>
      case Incoming(_, _) =>
      case Update(_) =>
    }
  }

  /** Data sent, or received, at some point of a calm run is still dated no earlier at its end. */
  lemma {:induction false} DataRemembered(t: Tunn, clock: nat, ops: seq<Op>, i: nat)
    requires Inv(t, clock) && ClockRuns(clock, ops) && AllCalm(t, ops) && i < |ops|
    ensures var at, t' := Before(t, ops, i), Run(t, ops);
            && (SendsData(at, ops[i], Step(at, ops[i]).1) ==> t'.timers[LAST_DATA_PACKET_SENT] >= at.timers[CURRENT])
            && (ReceivesData(Step(at, ops[i]).1) ==> t'.timers[LAST_DATA_PACKET_RECEIVED] >= at.timers[CURRENT])
    decreases |ops|
  {
    hide Step, Inv, Calm, SendsData, ReceivesData;
    StepKeepsInv(t, clock, ops[0]);
    var t1 := Step(t, ops[0]).0;
    if i == 0 {
      DataDates(t, ops[0]);
      RunDated(t1, ops[0].env.now, ops[1..]);
    } else {
      BeforeLater(t, ops, i);
      DataRemembered(t1, ops[0].env.now, ops[1..], i - 1);
    }
  }

  /** The session a response put in place. */
  lemma Initiated(t: Tunn, clock: nat, m: Message, env: Env)
    requires Inv(t, clock) && clock <= env.now && m.Response? && !HandleVerified(t, m, env).1.Fail?
    ensures var t' := HandleVerified(t, m, env).0;
            t'.isInitiator && t'.timers[SESSION_ESTABLISHED] == t.timers[CURRENT] && Inv(t', env.now)
  {
    hide HandleVerified, Inv;
    HandshakeNoted(t, m, env);
    HandleVerifiedInv(t, clock, m, env);
  }

  /** Over every run: a session this side initiated at T and has sent data in since is renewed by the first
      timer call from T + 120 s on that finds no handshake pending. */
  lemma RekeysAfterSending(t: Tunn, clock: nat, m: Message, env: Env, ops: seq<Op>, i: nat, last: Env)
    requires Inv(t, clock) && clock <= env.now && m.Response? && !HandleVerified(t, m, env).1.Fail?
    requires ClockRuns(env.now, ops) && AllCalm(HandleVerified(t, m, env).0, ops) && i < |ops|
    requires var at := Before(HandleVerified(t, m, env).0, ops, i);
             at.timers[CURRENT] > t.timers[CURRENT] && SendsData(at, ops[i], Step(at, ops[i]).1)
    requires var t' := Run(HandleVerified(t, m, env).0, ops); !t'.hs.state.InitSent? && !t'.hs.state.Expired?
    requires t.timers[CURRENT] + 120 * SECOND <= last.now < t.timers[CURRENT] + 540 * SECOND && last.dstLen >= 148
    ensures var out := UpdateTimers(Run(HandleVerified(t, m, env).0, ops), last).1;
            out.ToNetwork? && out.m.Initiation?
  {
    hide HandleVerified, Inv, Step, UpdateTimers, SendsData, AllCalm;
    Initiated(t, clock, m, env);
    var t1 := HandleVerified(t, m, env).0;
    RunDated(t1, env.now, ops);
    DataRemembered(t1, env.now, ops, i);
    QuietUpdateExactly(Run(t1, ops), last);
  }

  /** The same after received data, from T + 165 s on. */
  lemma RekeysAfterReceiving(t: Tunn, clock: nat, m: Message, env: Env, ops: seq<Op>, i: nat, last: Env)
    requires Inv(t, clock) && clock <= env.now && m.Response? && !HandleVerified(t, m, env).1.Fail?
    requires ClockRuns(env.now, ops) && AllCalm(HandleVerified(t, m, env).0, ops) && i < |ops|
    requires var at := Before(HandleVerified(t, m, env).0, ops, i);
             at.timers[CURRENT] > t.timers[CURRENT] && ReceivesData(Step(at, ops[i]).1)
    requires var t' := Run(HandleVerified(t, m, env).0, ops); !t'.hs.state.InitSent? && !t'.hs.state.Expired?
    requires t.timers[CURRENT] + 165 * SECOND <= last.now < t.timers[CURRENT] + 540 * SECOND && last.dstLen >= 148
    ensures var out := UpdateTimers(Run(HandleVerified(t, m, env).0, ops), last).1;
            out.ToNetwork? && out.m.Initiation?
  {
    hide HandleVerified, Inv, Step, UpdateTimers, ReceivesData, AllCalm;
    Initiated(t, clock, m, env);
    var t1 := HandleVerified(t, m, env).0;
    RunDated(t1, env.now, ops);
    DataRemembered(t1, env.now, ops, i);
    QuietUpdateExactly(Run(t1, ops), last);
  }

  /** Data was sent in this run when the tunnel's clock was past this time. */
  ghost predicate SentSince(t: Tunn, ops: seq<Op>, since: nat)
    decreases |ops|
  {
    ops != [] && ((t.timers[CURRENT] > since && SendsData(t, ops[0], Step(t, ops[0]).1)) || SentSince(Step(t, ops[0]).0, ops[1..], since))
  }

  ghost predicate ReceivedSince(t: Tunn, ops: seq<Op>, since: nat)
    decreases |ops|
  {
    ops != [] && ((t.timers[CURRENT] > since && ReceivesData(Step(t, ops[0]).1)) || ReceivedSince(Step(t, ops[0]).0, ops[1..], since))
  }

  lemma DataDatesExactly(t: Tunn, op: Op)
    requires Calm(t, op)
    ensures var (t', out) := Step(t, op);
            && t'.timers[LAST_DATA_PACKET_SENT] == (if SendsData(t, op, out) then t.timers[CURRENT] else t.timers[LAST_DATA_PACKET_SENT])
            && t'.timers[LAST_DATA_PACKET_RECEIVED] == (if ReceivesData(out) then t.timers[CURRENT] else t.timers[LAST_DATA_PACKET_RECEIVED])
  {
    hide Step;
    if op.Update? { UpdateNoted(t, op.env); StepUpdate(t, op.env); } else { CallNoted(t, op); }
  }

  lemma DatesPassed(t: Tunn, clock: nat)
    requires Inv(t, clock)
    ensures t.timers[LAST_DATA_PACKET_SENT] <= t.timers[CURRENT] && t.timers[LAST_DATA_PACKET_RECEIVED] <= t.timers[CURRENT]
  {}

  /** The two dates are later than a time exactly when data went that way after it, or had before the run. */
  lemma {:induction false} DatesTell(t: Tunn, clock: nat, ops: seq<Op>, since: nat)
    requires Inv(t, clock) && ClockRuns(clock, ops) && AllCalm(t, ops)
    ensures var t' := Run(t, ops);
            && (t'.timers[LAST_DATA_PACKET_SENT] > since <==> t.timers[LAST_DATA_PACKET_SENT] > since || SentSince(t, ops, since))
            && (t'.timers[LAST_DATA_PACKET_RECEIVED] > since
                <==> t.timers[LAST_DATA_PACKET_RECEIVED] > since || ReceivedSince(t, ops, since))
    decreases |ops|
  {
    if ops != [] {
      hide Step, Inv, Calm, SendsData, ReceivesData;
      DatesPassed(t, clock);
      DataDatesExactly(t, ops[0]);
      StepKeepsInv(t, clock, ops[0]);
      DatesTell(Step(t, ops[0]).0, ops[0].env.now, ops[1..], since);
    }
  }

  /** Over every run: when nothing is unanswered, a session this side initiated at T is renewed by a timer
      call exactly when data was sent in it after T and 120 s are over, or received and 165 s are over. */
  lemma RenewedExactly(t: Tunn, clock: nat, m: Message, env: Env, ops: seq<Op>, last: Env)
    requires Inv(t, clock) && clock <= env.now && m.Response? && !HandleVerified(t, m, env).1.Fail?
    requires ClockRuns(env.now, ops) && AllCalm(HandleVerified(t, m, env).0, ops)
    requires var t' := Run(HandleVerified(t, m, env).0, ops);
             && Quiet(t', last.now) && Usable(t', last.now).Some? && last.dstLen >= 148
             && last.now < t'.timers[LAST_PACKET_RECEIVED] + 15 * SECOND
    ensures var t1, since := HandleVerified(t, m, env).0, t.timers[CURRENT];
            var out := UpdateTimers(Run(t1, ops), last).1;
            out.ToNetwork? && out.m.Initiation? <==>
              || (SentSince(t1, ops, since) && last.now >= since + 120 * SECOND)
              || (ReceivedSince(t1, ops, since) && last.now >= since + 165 * SECOND)
  {
    hide HandleVerified, Inv, Step, UpdateTimers, AllCalm, Usable;
    Initiated(t, clock, m, env);
    var t1, since := HandleVerified(t, m, env).0, t.timers[CURRENT];
    HandshakeNoted(t, m, env);
    DatesPassed(t, clock);
    RunDated(t1, env.now, ops);
    DatesTell(t1, env.now, ops, since);
    QuietUpdateExactly(Run(t1, ops), last);
  }

  /** Sent after the session came into place is not enough: data sent before the next timer call carries the
      same date as the session, and if nothing else happens the session is not renewed as long as it lasts. */
  lemma SameDateNotRenewed(t: Tunn, clock: nat, m: Message, env: Env, packet: Packet, env': Env, last: Env)
    requires Inv(t, clock) && clock <= env.now && m.Response? && !HandleVerified(t, m, env).1.Fail?
    requires packet != [] && t.persistentKeepalive == 0
    requires var v := HandleVerified(t, m, env).0.hs; !v.state.InitSent? && !v.state.Expired?
    requires t.timers[CURRENT] + 120 * SECOND <= last.now <= t.timers[CURRENT] + 180 * SECOND
    ensures var (t', out) := Encapsulate(HandleVerified(t, m, env).0, packet, env');
            out.ToNetwork? && out.m.Data? && UpdateTimers(t', last).1 == Done
  {
    hide HandleVerified, Inv, Encapsulate, UpdateTimers, Send;
    Initiated(t, clock, m, env);
    HandshakeNoted(t, m, env);
    InitiatedLive(t, clock, m, env);
    var t1 := HandleVerified(t, m, env).0;
    SendSends(t1, packet);
    SendNoted(t1, packet);
    assert Encapsulate(t1, packet, env') == Send(t1, packet) by { SendsWhenLive(t1, packet, env'); }
    SendKeepsHandshake(t1, packet);
    DatesPassed(t, clock);
    QuietUpdateExactly(Send(t1, packet).0, last);
  }

  lemma SendsWhenLive(t: Tunn, packet: Packet, env: Env)
    requires t.sessions[Slot(t.current)].Some?
    ensures Encapsulate(t, packet, env) == Send(t, packet)
  {}

  lemma SendKeepsHandshake(t: Tunn, packet: Packet)
    requires t.sessions[Slot(t.current)].Some?
    ensures Send(t, packet).0.hs == t.hs
  {}

  lemma InitiatedLive(t: Tunn, clock: nat, m: Message, env: Env)
    requires Inv(t, clock) && m.Response? && !HandleVerified(t, m, env).1.Fail?
    ensures var t' := HandleVerified(t, m, env).0;
            t'.sessions[Slot(t'.current)].Some?
  {
    hide Inv, ReceiveResponse, InstallAsInitiator;
    DP.InitiatorHalf(t, clock, m);
  }

  /** A session the peer initiated is not renewed for its age: an initiation goes out only for want of a
      session, or for want of an answer to data. */
  lemma ResponderWaits(t: Tunn, clock: nat, m: Message, env: Env, ops: seq<Op>, last: Env)
    requires Inv(t, clock) && clock <= env.now && m.Initiation? && !HandleVerified(t, m, env).1.Fail?
    requires ClockRuns(env.now, ops) && AllCalm(HandleVerified(t, m, env).0, ops)
    requires Quiet(Run(HandleVerified(t, m, env).0, ops), last.now)
    ensures var t' := Run(HandleVerified(t, m, env).0, ops);
            var out := UpdateTimers(t', last).1;
            out.ToNetwork? && out.m.Initiation? ==>
              || Usable(t', last.now).None?
              || (t'.timers[LAST_DATA_PACKET_SENT] > t'.timers[LAST_PACKET_RECEIVED]
                  && last.now >= t'.timers[LAST_PACKET_RECEIVED] + 15 * SECOND)
  {
    hide HandleVerified, Inv, Step, UpdateTimers, AllCalm, Usable;
    HandshakeNoted(t, m, env);
    HandleVerifiedInv(t, clock, m, env);
    var t1 := HandleVerified(t, m, env).0;
    RunDated(t1, env.now, ops);
    QuietUpdateExactly(Run(t1, ops), last);
  }

  // Waiting for an answer, and owing one.

  /** Calm, and nothing is heard from the peer. */
  ghost predicate Unheard(t: Tunn, ops: seq<Op>)
    decreases |ops|
  {
    ops == [] || (Calm(t, ops[0]) && !Receives(ops[0], Step(t, ops[0]).1) && Unheard(Step(t, ops[0]).0, ops[1..]))
  }

  /** Calm, and nothing is sent. */
  ghost predicate Unsent(t: Tunn, ops: seq<Op>)
    decreases |ops|
  {
    ops == [] || (Calm(t, ops[0]) && !Sends(ops[0], Step(t, ops[0]).1) && Unsent(Step(t, ops[0]).0, ops[1..]))
  }

  /** Timer calls from the i-th call on come before this time. */
  ghost predicate TimersBefore(ops: seq<Op>, i: nat, limit: nat) {
    forall k :: i <= k < |ops| && ops[k].Update? ==> ops[k].env.now < limit
  }

  lemma StepWishes(t: Tunn, op: Op)
    requires Calm(t, op)
    ensures var (t', out) := Step(t, op);
            && (!Receives(op, out) ==> t'.timers[LAST_PACKET_RECEIVED] == t.timers[LAST_PACKET_RECEIVED])
            && (!Sends(op, out) ==> t'.timers[LAST_PACKET_SENT] == t.timers[LAST_PACKET_SENT])
            && (!Receives(op, out) && t.wantHandshake && (op.Update? ==> op.env.now < t.timers[LAST_PACKET_RECEIVED] + 15 * SECOND)
                ==> t'.wantHandshake)
            && (!Sends(op, out) && t.wantKeepalive && (op.Update? ==> op.env.now < t.timers[LAST_PACKET_SENT] + 10 * SECOND)
                ==> t'.wantKeepalive)
            && (!op.Update? || !PeriodOver(t, op.env.now)
                ==> t'.timers[PERSISTENT_KEEPALIVE] == t.timers[PERSISTENT_KEEPALIVE])
  {
    hide Step, SendsData;
    if op.Update? { UpdateNoted(t, op.env); StepUpdate(t, op.env); } else { CallNoted(t, op); }
  }

  lemma {:induction false} StillAwaiting(t: Tunn, ops: seq<Op>)
    requires Unheard(t, ops) && t.wantHandshake && TimersBefore(ops, 0, t.timers[LAST_PACKET_RECEIVED] + 15 * SECOND)
    ensures Run(t, ops).wantHandshake && Run(t, ops).timers[LAST_PACKET_RECEIVED] == t.timers[LAST_PACKET_RECEIVED]
    decreases |ops|
  {
    if ops != [] {
      hide Step, Calm, Receives;
      StepWishes(t, ops[0]);
      StillAwaiting(Step(t, ops[0]).0, ops[1..]);
    }
  }

  lemma {:induction false} Awaiting(t: Tunn, ops: seq<Op>, i: nat)
    requires Unheard(t, ops) && i < |ops| && TimersBefore(ops, i + 1, t.timers[LAST_PACKET_RECEIVED] + 15 * SECOND)
    requires SendsData(Before(t, ops, i), ops[i], Step(Before(t, ops, i), ops[i]).1)
    ensures Run(t, ops).wantHandshake && Run(t, ops).timers[LAST_PACKET_RECEIVED] == t.timers[LAST_PACKET_RECEIVED]
    decreases |ops|
  {
    hide Step, Calm, Receives, SendsData;
    StepWishes(t, ops[0]);
    if i == 0 {
      DataDates(t, ops[0]);
      StillAwaiting(Step(t, ops[0]).0, ops[1..]);
    } else {
      BeforeLater(t, ops, i);
      Awaiting(Step(t, ops[0]).0, ops[1..], i - 1);
    }
  }

  lemma {:induction false} UnheardIsCalm(t: Tunn, ops: seq<Op>)
    requires Unheard(t, ops) || Unsent(t, ops)
    ensures AllCalm(t, ops)
    decreases |ops|
  {
    if ops != [] {
      hide Step, Calm, Receives, Sends;
      UnheardIsCalm(Step(t, ops[0]).0, ops[1..]);
    }
  }

  /** Over every run: the peer was last heard at R, data was sent later, and nothing came back; the first
      timer call from R + 15 s on that finds no handshake pending starts one. It need not come 15 s after the
      data: after a long silence the next timer call is late enough. */
  lemma RekeysUnanswered(t: Tunn, clock: nat, heard: Op, ops: seq<Op>, i: nat, last: Env)
    requires Inv(t, clock) && clock <= heard.env.now && !t.hs.state.Expired?
    requires Receives(heard, Step(t, heard).1) && Unheard(Step(t, heard).0, ops) && ClockRuns(heard.env.now, ops)
    requires i < |ops| && TimersBefore(ops, i + 1, t.timers[CURRENT] + 15 * SECOND)
    requires var at := Before(Step(t, heard).0, ops, i);
             at.timers[CURRENT] > t.timers[CURRENT] && SendsData(at, ops[i], Step(at, ops[i]).1)
    requires Quiet(Run(Step(t, heard).0, ops), last.now)
    requires last.now >= t.timers[CURRENT] + 15 * SECOND && last.dstLen >= 148
    ensures var out := UpdateTimers(Run(Step(t, heard).0, ops), last).1;
            out.ToNetwork? && out.m.Initiation?
  {
    hide Step, Inv, UpdateTimers, SendsData, AllCalm, Unheard, TimersBefore;
    var t1 := Step(t, heard).0;
    CallNoted(t, heard);
    StepKeepsInv(t, clock, heard);
    Awaiting(t1, ops, i);
    UnheardIsCalm(t1, ops);
    DataRemembered(t1, heard.env.now, ops, i);
    QuietUpdateExactly(Run(t1, ops), last);
  }

  lemma {:induction false} StillOwing(t: Tunn, ops: seq<Op>)
    requires Unsent(t, ops) && t.wantKeepalive && TimersBefore(ops, 0, t.timers[LAST_PACKET_SENT] + 10 * SECOND)
    ensures Run(t, ops).wantKeepalive && Run(t, ops).timers[LAST_PACKET_SENT] == t.timers[LAST_PACKET_SENT]
    decreases |ops|
  {
    if ops != [] {
      hide Step, Calm, Sends;
      StepWishes(t, ops[0]);
      StillOwing(Step(t, ops[0]).0, ops[1..]);
    }
  }

  lemma {:induction false} Owing(t: Tunn, ops: seq<Op>, i: nat)
    requires Unsent(t, ops) && i < |ops| && TimersBefore(ops, i + 1, t.timers[LAST_PACKET_SENT] + 10 * SECOND)
    requires ReceivesData(Step(Before(t, ops, i), ops[i]).1)
    ensures Run(t, ops).wantKeepalive && Run(t, ops).timers[LAST_PACKET_SENT] == t.timers[LAST_PACKET_SENT]
    decreases |ops|
  {
    hide Step, Calm, Sends, ReceivesData;
    StepWishes(t, ops[0]);
    if i == 0 {
      DataDates(t, ops[0]);
      StillOwing(Step(t, ops[0]).0, ops[1..]);
    } else {
      BeforeLater(t, ops, i);
      Owing(Step(t, ops[0]).0, ops[1..], i - 1);
    }
  }

  /** Over every run: this side last sent at P, data came in later, and nothing was sent back; the first
      timer call from P + 10 s on sends an empty data packet, unless it has a handshake to start. */
  lemma AnswersWithKeepalive(t: Tunn, clock: nat, sent: Op, ops: seq<Op>, i: nat, last: Env)
    requires Inv(t, clock) && clock <= sent.env.now && !t.hs.state.Expired? && !sent.Update?
    requires Sends(sent, Step(t, sent).1) && Unsent(Step(t, sent).0, ops) && ClockRuns(sent.env.now, ops)
    requires i < |ops| && TimersBefore(ops, i + 1, t.timers[CURRENT] + 10 * SECOND)
    requires var at := Before(Step(t, sent).0, ops, i);
             at.timers[CURRENT] > t.timers[CURRENT] && ReceivesData(Step(at, ops[i]).1)
    requires Quiet(Run(Step(t, sent).0, ops), last.now) && Usable(Run(Step(t, sent).0, ops), last.now).Some?
    requires last.now >= t.timers[CURRENT] + 10 * SECOND
    ensures var t' := Run(Step(t, sent).0, ops);
            var out := UpdateTimers(t', last).1;
            if HandshakeDue(t', last.now) then Starts(out, last.dstLen) else out == ToNetwork(EmptyPacket(Usable(t', last.now).value))
  {
    hide Step, Inv, UpdateTimers, ReceivesData, AllCalm, Unsent, TimersBefore, Usable;
    var t1 := Step(t, sent).0;
    CallNoted(t, sent);
    StepKeepsInv(t, clock, sent);
    Owing(t1, ops, i);
    UnheardIsCalm(t1, ops);
    DataRemembered(t1, sent.env.now, ops, i);
    QuietUpdateExactly(Run(t1, ops), last);
  }

  // The persistent keepalive.

  lemma {:induction false} PeriodRuns(t: Tunn, clock: nat, ops: seq<Op>)
    requires Inv(t, clock) && ClockRuns(clock, ops) && AllCalm(t, ops)
    requires TimersBefore(ops, 0, t.timers[PERSISTENT_KEEPALIVE] + t.persistentKeepalive * SECOND)
    ensures Run(t, ops).timers[PERSISTENT_KEEPALIVE] == t.timers[PERSISTENT_KEEPALIVE]
    ensures Run(t, ops).persistentKeepalive == t.persistentKeepalive
    decreases |ops|
  {
    if ops != [] {
      hide Step, Inv, Calm, Receives, Sends;
      StepWishes(t, ops[0]);
      StepDated(t, clock, ops[0]);
      StepKeepsInv(t, clock, ops[0]);
      PeriodRuns(Step(t, ops[0]).0, ops[0].env.now, ops[1..]);
    }
  }

  /** Over every run of a tunnel with a configured period: a timer call that finds the period over sends
      an empty data packet and begins the next period there; until that is over the timer sends nothing on
      its account, and the first timer call from then on sends the next one. */
  lemma OncePerPeriod(t: Tunn, clock: nat, first: Env, ops: seq<Op>, last: Env)
    requires Inv(t, clock) && clock <= first.now && t.persistentKeepalive > 0
    requires Quiet(t, first.now) && PeriodOver(t, first.now) && !HandshakeDue(t, first.now) && Usable(t, first.now).Some?
    requires AllCalm(UpdateTimers(t, first).0, ops) && ClockRuns(first.now, ops)
    requires TimersBefore(ops, 0, first.now + t.persistentKeepalive * SECOND)
    requires var t' := Run(UpdateTimers(t, first).0, ops);
             Quiet(t', last.now) && !HandshakeDue(t', last.now) && Usable(t', last.now).Some?
    ensures UpdateTimers(t, first).1 == ToNetwork(EmptyPacket(Usable(t, first.now).value))
    ensures var t' := Run(UpdateTimers(t, first).0, ops);
            var out := UpdateTimers(t', last).1;
            && (last.now >= first.now + t.persistentKeepalive * SECOND ==> out == ToNetwork(EmptyPacket(Usable(t', last.now).value)))
            && (last.now < first.now + t.persistentKeepalive * SECOND ==>
                  (out == Done <==> !(t'.wantKeepalive && t'.timers[LAST_DATA_PACKET_RECEIVED] > t'.timers[LAST_PACKET_SENT]
                                      && last.now >= t'.timers[LAST_PACKET_SENT] + 10 * SECOND)))
  {
    hide Inv, UpdateTimers, AllCalm, HandshakeDue, Usable, TimersBefore;
    QuietUpdateExactly(t, first);
    assert !SL.GivesUp(t, first);
    UpdateNoted(t, first);
    UpdateInv(t, clock, first);
    var t1 := UpdateTimers(t, first).0;
    PeriodRuns(t1, first.now, ops);
    QuietUpdateExactly(Run(t1, ops), last);
  }

  // The cookie.

  /** A cookie is used for 120 s from its arrival, by the tunnel's clock. */
  lemma CookieLasts(t: Tunn, env: Env)
    requires !t.hs.state.Expired? && !SL.GivesUp(t, env)
    ensures UpdateTimers(t, env).0.hs.cookies.writeCookie ==
              if env.now >= t.timers[COOKIE_RECEIVED] + 120 * SECOND then None else t.hs.cookies.writeCookie
  {
    hide UpdateQuiet, UpdateTimers, FormatHandshake, UpdateKeepalives;
    var t0 := Refreshed(t, env.now);
    FormatCookie(t0, env, true);
    if t.hs.state.InitSent? {
      PendingDecides(t, env);
    } else {
      UpdateDecides(t, env);
      QuietDecides(t0, env);
      FormatCookie(t0.(wantHandshake := false), env, true);
      KeepalivesCookie(t0, env);
      KeepalivesCookie(t0.(wantHandshake := false), env);
    }
  }

  lemma FormatCookie(t: Tunn, env: Env, force: bool)
    ensures FormatHandshake(t, env, force).0.hs.cookies.writeCookie == t.hs.cookies.writeCookie
  {
    hide FormatInitiation;
    FormatKeeps(t.hs, env);
  }

  lemma KeepalivesCookie(t: Tunn, env: Env)
    ensures UpdateKeepalives(t, env).0.hs.cookies.writeCookie == t.hs.cookies.writeCookie
  {
    hide FormatHandshake;
    var t1: Tunn := if NothingSentBack(t, env.now) then t.(wantKeepalive := false) else t;
    var t2 := if KeepaliveDue(t, env.now) then Tick(t1, PERSISTENT_KEEPALIVE) else t1;
    FormatCookie(QueuePacket(t2, []), env, false);
  }
}
