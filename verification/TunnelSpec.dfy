/** A point-to-point tunnel: the handshake, a ring of eight sessions, the queue of blocked packets and
    the timers. Each function says what one operation does to the whole tunnel. Times are nanoseconds
    since the tunnel was created; `now` is the clock reading of the call. */
module TunnelSpec {
  import opened Basics
  import opened Constants
  import opened Crypto
  import opened ReplaySpec
  import opened HandshakeSpec

  const N_SESSIONS: nat := 8
  const MAX_QUEUE_DEPTH: nat := 256

  const REKEY_AFTER_TIME: nat := 120 * SECOND
  const REJECT_AFTER_TIME: nat := 180 * SECOND
  const REKEY_ATTEMPT_TIME: nat := 90 * SECOND
  const REKEY_TIMEOUT: nat := 5 * SECOND
  const KEEPALIVE_TIMEOUT: nat := 10 * SECOND
  const COOKIE_EXPIRATION_TIME: nat := 120 * SECOND

  // The timers, by position.
  const N_TIMERS: nat := 9
  const CURRENT: nat := 0
  const SESSION_ESTABLISHED: nat := 1
  const LAST_HANDSHAKE_STARTED: nat := 2
  const LAST_PACKET_RECEIVED: nat := 3
  const LAST_PACKET_SENT: nat := 4
  const LAST_DATA_PACKET_RECEIVED: nat := 5
  const LAST_DATA_PACKET_SENT: nat := 6
  const COOKIE_RECEIVED: nat := 7
  const PERSISTENT_KEEPALIVE: nat := 8

  type Packet = seq<byte>

  datatype Outcome =
    | Done
    | Fail(error: WireGuardError)
    | ToNetwork(m: Message)
    | ToTunnelV4(packet: Packet, source: Packet)
    | ToTunnelV6(packet: Packet, source: Packet)

  datatype Tunnel = Tunnel(
    hs: View, sessions: seq<Option<Session>>, current: nat, queue: seq<Packet>,
    timers: seq<nat>, sessionTimers: seq<nat>,
    isInitiator: bool, wantKeepalive: bool, wantHandshake: bool, persistentKeepalive: nat,
    txBytes: nat, rxBytes: nat)

  predicate Shaped(t: Tunnel) {
    |t.sessions| == |t.sessionTimers| == N_SESSIONS && |t.timers| == N_TIMERS
  }

  type Tunn = t: Tunnel | Shaped(t) witness Tunnel(
    NewView(Params(0, Zeros, Zeros, Zeros, Zeros, None), 0),
    [None, None, None, None, None, None, None, None], 0, [],
    [0, 0, 0, 0, 0, 0, 0, 0, 0], [0, 0, 0, 0, 0, 0, 0, 0], false, false, false, 0, 0, 0)

  function Filled<T>(n: nat, x: T): (s: seq<T>)
    ensures |s| == n && forall k :: 0 <= k < n ==> s[k] == x
  {
    seq(n, _ => x)
  }

  /** A new tunnel; its handshake indices start from the 24-bit peer index. */
  function NewTunnel(params: Params, index: nat, persistentKeepalive: nat): (t: Tunn) {
    Tunnel(NewView(params, index * 256 % 0x1_0000_0000), Filled(N_SESSIONS, None), 0, [],
           Filled(N_TIMERS, 0), Filled(N_SESSIONS, 0), false, false, false, persistentKeepalive, 0, 0)
  }

  // Sessions.

  function FormatPacketData(s: Session, packet: Packet): (r: (Session, Message)) {
    var n := s.sendingKeyCounter;
    (s.(sendingKeyCounter := n + 1),
     Data(s.sendingIndex, n, Seal(s.sendingKey, Number(n), [Payload(packet)], [])))
  }

  function ReceivePacketData(s: Session, m: Message): (r: (Session, Result<Packet>))
    requires m.Data?
  {
    if m.receiverIdx != s.receivingIndex then (s, Err(WrongIndex))
    else if WillAccept(s.window, m.counter) != Accepted then (s, Err(CounterRefused(WillAccept(s.window, m.counter))))
    else
      var plain := Open(s.receivingKey, Number(m.counter), m.body, []);
      if plain.None? || |plain.value| != 1 || !plain.value[0].Payload? then (s, Err(InvalidAeadTag))
      else (s.(window := Mark(s.window, m.counter)), Ok(plain.value[0].bytes))
  }

  // Timers.

  function Tick(t: Tunn, name: nat): (r: Tunn)
    requires name < N_TIMERS
  {
    var t1 :=
      if name == LAST_PACKET_RECEIVED then t.(wantKeepalive := true, wantHandshake := false)
      else if name == LAST_PACKET_SENT then t.(wantHandshake := true, wantKeepalive := false)
      else t;
    t1.(timers := t.timers[name := t.timers[CURRENT]])
  }

  function TickSessionEstablished(t: Tunn, isInitiator: bool, idx: nat): (r: Tunn) {
    Tick(t, SESSION_ESTABLISHED).(
      sessionTimers := t.sessionTimers[idx % N_SESSIONS := t.timers[CURRENT]], isInitiator := isInitiator)
  }

  function ClearTimers(t: Tunn, now: nat): (r: Tunn) {
    t.(timers := Filled(N_TIMERS, now), wantHandshake := false, wantKeepalive := false)
  }

  function ClearAll(t: Tunn, now: nat): (r: Tunn) {
    ClearTimers(t.(sessions := Filled(N_SESSIONS, None), queue := []), now)
  }

  function ExpireSessions(t: Tunn, now: nat): (r: Tunn) {
    t.(sessions := seq(N_SESSIONS, i requires 0 <= i < N_SESSIONS =>
                       if now - t.sessionTimers[i] > REJECT_AFTER_TIME then None else t.sessions[i]),
       sessionTimers := seq(N_SESSIONS, i requires 0 <= i < N_SESSIONS =>
                       if now - t.sessionTimers[i] > REJECT_AFTER_TIME then now else t.sessionTimers[i]))
  }

  // The queue.

  function QueuePacket(t: Tunn, p: Packet): (r: Tunn) {
    if |t.queue| < MAX_QUEUE_DEPTH then t.(queue := t.queue + [p]) else t
  }

  function RequeuePacket(t: Tunn, p: Packet): (r: Tunn) {
    if |t.queue| < MAX_QUEUE_DEPTH then t.(queue := [p] + t.queue) else t
  }

  // Handshake initiation.

  /** What the outside world hands to a call: room in the output buffer, a fresh ephemeral secret, the
      wall clock and the monotonic clock. */
  datatype Env = Env(dstLen: nat, e: nat, stamp: Tai64N, now: nat)

  function FormatHandshake(t: Tunn, env: Env, force: bool): (r: (Tunn, Outcome)) {
    if IsInProgress(t.hs) && !force then (t, Done)
    else
      var t1 := if t.hs.state.Expired? then ClearTimers(t, env.now) else t;
      var starting := !IsInProgress(t.hs);
      var (hs', r) := FormatInitiation(t.hs, env.dstLen, env.e, env.stamp, env.now);
      var t2: Tunn := t1.(hs := hs');
      if r.Err? then (t2, Fail(r.error))
      else
        var t3 := if starting then Tick(t2, LAST_HANDSHAKE_STARTED) else t2;
        (Tick(t3, LAST_PACKET_SENT), ToNetwork(r.value))
  }

  // Outgoing packets.

  function Slot(idx: nat): (i: nat)
    ensures i < N_SESSIONS
  {
    idx % N_SESSIONS
  }

  /** Sending under the current session. */
  function Send(t: Tunn, packet: Packet): (r: (Tunn, Outcome))
    requires t.sessions[Slot(t.current)].Some?
  {
    var (s, m) := FormatPacketData(t.sessions[Slot(t.current)].value, packet);
    var t1 := Tick(t.(sessions := t.sessions[Slot(t.current) := Some(s)]), LAST_PACKET_SENT);
    var t2 := if packet == [] then t1 else Tick(t1, LAST_DATA_PACKET_SENT);
    (t2.(txBytes := t.txBytes + |packet|), ToNetwork(m))
  }

  function Encapsulate(t: Tunn, packet: Packet, env: Env): (r: (Tunn, Outcome)) {
    if t.sessions[Slot(t.current)].Some? then Send(t, packet)
    else FormatHandshake(QueuePacket(t, packet), env, false)
  }

  function SendQueued(t: Tunn, env: Env): (r: (Tunn, Outcome)) {
    if t.queue == [] then (t, Done)
    else
      var packet := t.queue[0];
      var (t', r) := Encapsulate(t.(queue := t.queue[1..]), packet, env);
      if r.Fail? then (RequeuePacket(t', packet), Done) else (t', r)
  }

  // Incoming messages.

  function SetCurrentSession(t: Tunn, idx: nat): (r: Tunn) {
    if t.current != idx
       && (t.sessions[Slot(t.current)].None? || t.sessionTimers[Slot(idx)] >= t.sessionTimers[Slot(t.current)])
    then t.(current := idx) else t
  }

  function Store(t: Tunn, s: Session): (r: Tunn) {
    t.(sessions := t.sessions[Slot(s.receivingIndex) := Some(s)])
  }

  /** The new session goes to its slot; its slot's clock starts now. */
  function InstallAsResponder(t: Tunn, s: Session): (r: Tunn) {
    TickSessionEstablished(Tick(Tick(Store(t, s), LAST_PACKET_RECEIVED), LAST_PACKET_SENT), false, s.receivingIndex)
  }

  function InstallAsInitiator(t: Tunn, s: Session): (r: Tunn) {
    SetCurrentSession(TickSessionEstablished(Tick(Store(t, s), LAST_PACKET_RECEIVED), true, s.receivingIndex), s.receivingIndex)
  }

  function HandleInitiation(t: Tunn, m: Message, env: Env): (r: (Tunn, Outcome))
    requires m.Initiation?
  {
    var (hs', r) := ReceiveInitiation(t.hs, m, env.dstLen, env.e);
    if r.Err? then (t.(hs := hs'), Fail(r.error))
    else (InstallAsResponder(t.(hs := hs'), r.value.1), ToNetwork(r.value.0))
  }

  function HandleResponse(t: Tunn, m: Message): (r: (Tunn, Outcome))
    requires m.Response?
  {
    var (hs', r) := ReceiveResponse(t.hs, m);
    if r.Err? then (t.(hs := hs'), Fail(r.error))
    else
      var (session, keepalive) := FormatPacketData(r.value, []);
      (InstallAsInitiator(t.(hs := hs'), session), ToNetwork(keepalive))
  }

  function HandleCookieReply(t: Tunn, m: Message): (r: (Tunn, Outcome))
    requires m.CookieReply?
  {
    var (hs', r) := ReceiveCookieReply(t.hs, m);
    if r.Err? then (t.(hs := hs'), Fail(r.error))
    else (Tick(Tick(t.(hs := hs'), LAST_PACKET_RECEIVED), COOKIE_RECEIVED), Done)
  }

  const IPV4_MIN_HEADER_SIZE: nat := 20
  const IPV6_MIN_HEADER_SIZE: nat := 40

  /** An IP packet is cut to the length its header gives; anything else is refused. */
  function Validate(t: Tunn, p: Packet): (r: (Tunn, Outcome)) {
    if p == [] then (t, Done)
    else if p[0] / 16 == 4 && |p| >= IPV4_MIN_HEADER_SIZE then
      var len: nat := (p[2] as nat) * 256 + p[3];
      if len > |p| then (t, Fail(InvalidPacket))
      else (Tick(t, LAST_DATA_PACKET_RECEIVED).(rxBytes := t.rxBytes + len), ToTunnelV4(p[..len], p[12..16]))
    else if p[0] / 16 == 6 && |p| >= IPV6_MIN_HEADER_SIZE then
      var len: nat := (p[4] as nat) * 256 + p[5] + IPV6_MIN_HEADER_SIZE;
      if len > |p| then (t, Fail(InvalidPacket))
      else (Tick(t, LAST_DATA_PACKET_RECEIVED).(rxBytes := t.rxBytes + len), ToTunnelV6(p[..len], p[8..24]))
    else (t, Fail(InvalidPacket))
  }

  function HandleData(t: Tunn, m: Message): (r: (Tunn, Outcome))
    requires m.Data?
  {
    var i := Slot(m.receiverIdx);
    if t.sessions[i].None? then (t, Fail(NoCurrentSession))
    else
      var (s, r) := ReceivePacketData(t.sessions[i].value, m);
      if r.Err? then (t, Fail(r.error))
      else
        var t1: Tunn := t.(sessions := t.sessions[i := Some(s)]);
        Validate(Tick(SetCurrentSession(t1, m.receiverIdx), LAST_PACKET_RECEIVED), r.value)
  }

  function HandleVerified(t: Tunn, m: Message, env: Env): (r: (Tunn, Outcome)) {
    match m
    case Initiation(_, _, _, _, _, _) => HandleInitiation(t, m, env)
    case Response(_, _, _, _, _, _) => HandleResponse(t, m)
    case CookieReply(_, _, _) => HandleCookieReply(t, m)
    case Data(_, _, _) => HandleData(t, m)
  }

  // The timer-driven part.

  function Expire(t: Tunn, now: nat): (r: (Tunn, Outcome)) {
    (ClearAll(t.(hs := SetExpired(t.hs)), now), Fail(ConnectionExpired))
  }

  predicate RekeyOnSend(t: Tunn, now: nat) {
    t.isInitiator && t.timers[SESSION_ESTABLISHED] < t.timers[LAST_DATA_PACKET_SENT]
    && now - t.timers[SESSION_ESTABLISHED] >= REKEY_AFTER_TIME
  }

  predicate RekeyOnReceive(t: Tunn, now: nat) {
    t.isInitiator && t.timers[SESSION_ESTABLISHED] < t.timers[LAST_DATA_PACKET_RECEIVED]
    && now - t.timers[SESSION_ESTABLISHED] >= REJECT_AFTER_TIME - KEEPALIVE_TIMEOUT - REKEY_TIMEOUT
  }

  predicate NoAnswer(t: Tunn, now: nat) {
    t.timers[LAST_DATA_PACKET_SENT] > t.timers[LAST_PACKET_RECEIVED]
    && now - t.timers[LAST_PACKET_RECEIVED] >= KEEPALIVE_TIMEOUT + REKEY_TIMEOUT
  }

  predicate NothingSentBack(t: Tunn, now: nat) {
    t.timers[LAST_DATA_PACKET_RECEIVED] > t.timers[LAST_PACKET_SENT]
    && now - t.timers[LAST_PACKET_SENT] >= KEEPALIVE_TIMEOUT
  }

  predicate KeepaliveDue(t: Tunn, now: nat) {
    t.persistentKeepalive > 0 && now - t.timers[PERSISTENT_KEEPALIVE] >= t.persistentKeepalive * SECOND
  }

  function UpdateKeepalives(t: Tunn, env: Env): (r: (Tunn, Outcome)) {
    var now := env.now;
    var t1 := if NothingSentBack(t, now) then t.(wantKeepalive := false) else t;
    var t2 := if KeepaliveDue(t, now) then Tick(t1, PERSISTENT_KEEPALIVE) else t1;
    if (NothingSentBack(t, now) && t.wantKeepalive) || KeepaliveDue(t, now)
    then Encapsulate(t2, [], env) else (t2, Done)
  }

  /** No initiation is pending: decide between a new handshake, a keepalive and nothing. */
  function UpdateQuiet(t: Tunn, env: Env): (r: (Tunn, Outcome)) {
    var now := env.now;
    var rekey := RekeyOnSend(t, now) || RekeyOnReceive(t, now) || (NoAnswer(t, now) && t.wantHandshake);
    var t1 := if NoAnswer(t, now) then t.(wantHandshake := false) else t;
    if rekey then FormatHandshake(t1, env, true) else UpdateKeepalives(t1, env)
  }

  /** An initiation is pending: give up, retry or wait. */
  function UpdatePending(t: Tunn, env: Env): (r: (Tunn, Outcome))
    requires t.hs.state.InitSent?
  {
    if env.now - t.timers[LAST_HANDSHAKE_STARTED] >= REKEY_ATTEMPT_TIME then Expire(t, env.now)
    else if env.now - t.hs.state.timeSent >= REKEY_TIMEOUT then FormatHandshake(t, env, true)
    else (t, Done)
  }

  function UpdateTimers(t: Tunn, env: Env): (r: (Tunn, Outcome)) {
    var t1 := ExpireSessions(t.(timers := t.timers[CURRENT := env.now]), env.now);
    if t1.hs.state.Expired? then (t1, Fail(ConnectionExpired))
    else
      var t2: Tunn :=
        if t1.hs.cookies.writeCookie.Some? && env.now - t1.timers[COOKIE_RECEIVED] >= COOKIE_EXPIRATION_TIME
        then t1.(hs := ClearCookie(t1.hs)) else t1;
      if env.now - t2.timers[SESSION_ESTABLISHED] >= REJECT_AFTER_TIME * 3 then Expire(t2, env.now)
      else if t2.hs.state.InitSent? then UpdatePending(t2, env)
      else UpdateQuiet(t2, env)
  }

  function ChangeKey(t: Tunn, key: nat): (r: Tunn) {
    t.(hs := SetStaticPrivate(t.hs, key), sessions := Filled(N_SESSIONS, None))
  }
}
