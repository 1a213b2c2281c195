/**
  Two connected tunnels and the network between them. They share any number of sessions, the lanes:
  one after a handshake, two when both sides initiated at the same time. On each side any call may
  happen at any time: packets, timers, requests, handshake messages, forgeries. The network delivers
  what was sent on a lane in any order, late, never or repeatedly. A lane lasts until one side clears
  its session, lets it expire, or installs one in its slot.
*/
module Streams {
  import opened Basics
  import opened Crypto
  import opened ReplaySpec
  import opened HandshakeSpec
  import opened TunnelSpec
  import opened TunnelRuns
  import opened Packets
  import HT = HandshakeTheorems
  import SL = SessionLifetimes
  import Losses = SessionLosses
  import DP = DataPath

  /** One direction of a lane: the packets sent and the messages that carry them, by counter; and the
      counters in order of arrival with what became of each. */
  datatype Wire = Wire(packets: seq<Packet>, msgs: seq<Message>, arrived: seq<nat>, outcomes: seq<Outcome>)

  /** A session of the two sides, by the index each side receives under. */
  datatype Lane = Lane(ia: nat, ib: nat, ab: Wire, ba: Wire, live: bool)

  datatype Link = Link(a: Tunn, b: Tunn, lanes: seq<Lane>)

  // The same link seen from the other end.

  function Turned(lane: Lane): (r: Lane) { Lane(lane.ib, lane.ia, lane.ba, lane.ab, lane.live) }

  function Flip(l: Link): (r: Link) {
    Link(l.b, l.a, seq(|l.lanes|, p requires 0 <= p < |l.lanes| => Turned(l.lanes[p])))
  }

  // Moves.

  /** A call of a tunnel, and the arrival of a message that was sent on a lane. */
  datatype Move =
    | Call(atA: bool, op: Op)
    | Arrive(fromA: bool, lane: nat, n: nat, env: Env)

  /** Nobody but the two sides can seal under the key of a session. */
  predicate Forged(s: Session, m: Message)
    requires m.Data?
  {
    Open(s.receivingKey, Number(m.counter), m.body, []).None?
  }

  /** Messages of a live lane come as arrivals; other data a side receives is sealed under none of its live lanes. */
  ghost predicate ForeignA(l: Link, op: Op) {
    op.Incoming? && op.m.Data? ==>
      forall p :: 0 <= p < |l.lanes| && l.lanes[p].live && Stored(l.a, l.lanes[p].ia) ==>
        Forged(l.a.sessions[Slot(l.lanes[p].ia)].value, op.m)
  }

  ghost predicate Possible(l: Link, mv: Move) {
    match mv
    case Call(atA, op) => ForeignA(if atA then l else Flip(l), op)
    case Arrive(fromA, p, n, _) => p < |l.lanes| && l.lanes[p].live && n < |(if fromA then l.lanes[p].ab else l.lanes[p].ba).msgs|
  }

  /** The call sends a data packet under the current session. (The keepalive of a new session goes under that.) */
  predicate Emits(t: Tunn, op: Op) {
    !op.Incoming? && Step(t, op).1.ToNetwork? && Step(t, op).1.m.Data?
  }

  /** Which packet that is. */
  function PacketOf(t: Tunn, op: Op): (p: Packet) {
    match op
    case Outgoing(packet, _) => packet
    case Flush(_) => if t.queue == [] then [] else t.queue[0]
    case _ => []
  }

  /** The call installs a session in this slot. */
  predicate Installs(t: Tunn, op: Op, i: nat) {
    op.Incoming? && IsHandshake(op.m) && SL.Established(t, op.m, op.env).Some?
    && Slot(SL.Established(t, op.m, op.env).value.receivingIndex) == i
  }

  function AfterCall(t: Tunn, op: Op, lane: Lane): (r: Lane) {
    var onIt := lane.live && Slot(t.current) == Slot(lane.ia) && Emits(t, op);
    lane.(ab := if onIt then lane.ab.(packets := lane.ab.packets + [PacketOf(t, op)], msgs := lane.ab.msgs + [Step(t, op).1.m])
                else lane.ab,
          live := lane.live && !SL.Removes(t, op, Slot(lane.ia)) && !Installs(t, op, Slot(lane.ia)))
  }

  function CallA(l: Link, op: Op): (l': Link) {
    l.(a := Step(l.a, op).0,
       lanes := seq(|l.lanes|, p requires 0 <= p < |l.lanes| => AfterCall(l.a, op, l.lanes[p])))
  }

  function ArriveB(l: Link, p: nat, n: nat, env: Env): (l': Link)
    requires p < |l.lanes| && n < |l.lanes[p].ab.msgs|
  {
    var lane := l.lanes[p];
    var (b', out) := HandleVerified(l.b, lane.ab.msgs[n], env);
    var w := lane.ab.(arrived := lane.ab.arrived + [n], outcomes := lane.ab.outcomes + [out]);
    l.(b := b', lanes := l.lanes[p := lane.(ab := w)])
  }

  ghost function Do(l: Link, mv: Move): (l': Link)
    requires Possible(l, mv)
  {
    match mv
    case Call(atA, op) => if atA then CallA(l, op) else Flip(CallA(Flip(l), op))
    case Arrive(fromA, p, n, env) => if fromA then ArriveB(l, p, n, env) else Flip(ArriveB(Flip(l), p, n, env))
  }

  ghost predicate Legal(l: Link, mvs: seq<Move>)
    decreases |mvs|
  {
    mvs == [] || (Possible(l, mvs[0]) && Legal(Do(l, mvs[0]), mvs[1..]))
  }

  ghost function Run(l: Link, mvs: seq<Move>): (l': Link)
    requires Legal(l, mvs)
    decreases |mvs|
  {
    if mvs == [] then l else Run(Do(l, mvs[0]), mvs[1..])
  }

  // What every run keeps.

  /** An arrival is handed on exactly when its counter is accepted; otherwise it is refused for its counter. */
  ghost predicate Exact(w: Wire) {
    && |w.outcomes| == |w.arrived| && |w.packets| == |w.msgs|
    && (forall i :: 0 <= i < |w.arrived| ==> w.arrived[i] < |w.packets|)
    && (forall i :: 0 <= i < |w.arrived| ==>
          if AcceptedAt(w.arrived, i) then w.outcomes[i] == Handed(w.packets[w.arrived[i]])
          else w.outcomes[i].Fail? && w.outcomes[i].error.CounterRefused?)
  }

  function Sealed(s: Session, n: nat, packet: Packet): (m: Message) {
    FormatPacketData(s.(sendingKeyCounter := n), packet).1
  }

  ghost predicate WireInv(sx: Session, sy: Session, w: Wire) {
    && HT.Crossed(sx, sy) && Exact(w)
    && sx.sendingKeyCounter == |w.packets|
    && (forall n :: 0 <= n < |w.msgs| ==> w.msgs[n] == Sealed(sx, n, w.packets[n]))
    && sy.window == MarkAll(EMPTY, w.arrived)
  }

  predicate Stored(t: Tunn, k: nat) {
    t.sessions[Slot(k)].Some? && t.sessions[Slot(k)].value.receivingIndex == k
  }

  ghost predicate LaneInv(a: Tunn, b: Tunn, lane: Lane) {
    && Stored(a, lane.ia) && Stored(b, lane.ib)
    && var sa, sb := a.sessions[Slot(lane.ia)].value, b.sessions[Slot(lane.ib)].value;
       WireInv(sa, sb, lane.ab) && WireInv(sb, sa, lane.ba)
  }

  /** A live lane is intact; of a lane that is over the record remains. */
  ghost predicate LaneOk(a: Tunn, b: Tunn, lane: Lane) {
    if lane.live then LaneInv(a, b, lane) else Exact(lane.ab) && Exact(lane.ba)
  }

  ghost predicate Apart(lanes: seq<Lane>) {
    forall p, q :: 0 <= p < q < |lanes| && lanes[p].live && lanes[q].live ==>
      Slot(lanes[p].ia) != Slot(lanes[q].ia) && Slot(lanes[p].ib) != Slot(lanes[q].ib)
  }

  ghost predicate Inv(l: Link) {
    (forall p :: 0 <= p < |l.lanes| ==> LaneOk(l.a, l.b, l.lanes[p])) && Apart(l.lanes)
  }

  lemma FlipKeepsInv(l: Link)
    requires Inv(l)
    ensures Inv(Flip(l))
  {
    hide WireInv, Exact;
    forall p | 0 <= p < |l.lanes| ensures LaneOk(l.b, l.a, Flip(l).lanes[p]) { assert LaneOk(l.a, l.b, l.lanes[p]); }
  }

  // Calls.

  /** What a call does to a session it neither removes nor installs over: at most it sends one packet. */
  ghost predicate Untouched(t: Tunn, op: Op, k: nat) {
    Step(t, op).0.sessions[Slot(k)] == t.sessions[Slot(k)]
  }

  ghost predicate SentOne(t: Tunn, op: Op, k: nat)
    requires t.sessions[Slot(k)].Some? && Emits(t, op)
  {
    var (s, m) := FormatPacketData(t.sessions[Slot(k)].value, PacketOf(t, op));
    Step(t, op).0.sessions[Slot(k)] == Some(s) && Step(t, op).1.m == m
  }

  lemma SendEffect(t: Tunn, packet: Packet, env: Env)
    requires DP.Live(t)
    ensures var (t', r) := Encapsulate(t, packet, env);
            var s := t.sessions[Slot(t.current)].value;
            && r == ToNetwork(FormatPacketData(s, packet).1) && r.m.Data?
            && t'.sessions == t.sessions[Slot(t.current) := Some(FormatPacketData(s, packet).0)]
  {
    hide FormatPacketData;
    var s := t.sessions[Slot(t.current)].value;
    DP.FormatFields(s, packet);
    var t1: Tunn := t.(sessions := t.sessions[Slot(t.current) := Some(FormatPacketData(s, packet).0)]);
    TickKeeps(t1, LAST_PACKET_SENT);
    TickKeeps(Tick(t1, LAST_PACKET_SENT), LAST_DATA_PACKET_SENT);
  }

  lemma RequestEffect(t: Tunn, env: Env, force: bool)
    ensures FormatHandshake(t, env, force).0.sessions == t.sessions
    ensures FormatHandshake(t, env, force).1.ToNetwork? ==> FormatHandshake(t, env, force).1.m.Initiation?
  {
    hide FormatInitiation, Tick;
    Losses.FormatSame(t, env, force);
    InitiationEffect(t.hs, env);
    var (hs', r) := FormatInitiation(t.hs, env.dstLen, env.e, env.stamp, env.now);
    assert FormatHandshake(t, env, force).1 ==
           if IsInProgress(t.hs) && !force then Done else if r.Err? then Fail(r.error) else ToNetwork(r.value);
  }

  /** Encapsulating: one packet under the current session, or nothing to any. */
  lemma EncapsulateEffect(t: Tunn, packet: Packet, env: Env)
    ensures var (t', r) := Encapsulate(t, packet, env);
            if t.sessions[Slot(t.current)].Some?
            then var (s, m) := FormatPacketData(t.sessions[Slot(t.current)].value, packet);
                 r == ToNetwork(m) && m.Data? && t'.sessions == t.sessions[Slot(t.current) := Some(s)]
            else t'.sessions == t.sessions && (r.ToNetwork? ==> r.m.Initiation?)
  {
    hide FormatHandshake, FormatPacketData;
    if t.sessions[Slot(t.current)].Some? { SendEffect(t, packet, env); }
    else { RequestEffect(QueuePacket(t, packet), env, false); }
  }

  lemma FlushEffect(t: Tunn, env: Env)
    ensures var (t', r) := SendQueued(t, env);
            if t.queue != [] && t.sessions[Slot(t.current)].Some?
            then var (s, m) := FormatPacketData(t.sessions[Slot(t.current)].value, t.queue[0]);
                 r == ToNetwork(m) && m.Data? && t'.sessions == t.sessions[Slot(t.current) := Some(s)]
            else t'.sessions == t.sessions && (r.ToNetwork? ==> r.m.Initiation?)
  {
    hide Encapsulate, FormatPacketData;
    if t.queue != [] { EncapsulateEffect(t.(queue := t.queue[1..]), t.queue[0], env); }
  }

  /** A timer call after its first part, in a tunnel whose old sessions are gone. */
  lemma QuietEffect(t: Tunn, env: Env)
    ensures var (t', r) := UpdateQuiet(t, env);
            if r.ToNetwork? && r.m.Data?
            then t.sessions[Slot(t.current)].Some?
                 && var (s, m) := FormatPacketData(t.sessions[Slot(t.current)].value, []);
                    r.m == m && t'.sessions == t.sessions[Slot(t.current) := Some(s)]
            else t'.sessions == t.sessions
  {
    hide FormatHandshake, Encapsulate, FormatPacketData, RekeyOnSend, RekeyOnReceive, NoAnswer, NothingSentBack, KeepaliveDue;
    var t1: Tunn := if NoAnswer(t, env.now) then t.(wantHandshake := false) else t;
    RequestEffect(t1, env, true);
    var t2: Tunn := if NothingSentBack(t1, env.now) then t1.(wantKeepalive := false) else t1;
    var t3 := if KeepaliveDue(t1, env.now) then Tick(t2, PERSISTENT_KEEPALIVE) else t2;
    EncapsulateEffect(t3, [], env);
  }

  lemma UpdateEffect(t: Tunn, env: Env, k: nat)
    requires t.sessions[Slot(k)].Some? && !SL.Removes(t, Update(env), Slot(k))
    ensures var (t', r) := UpdateTimers(t, env);
            if r.ToNetwork? && r.m.Data? && Slot(t.current) == Slot(k)
            then var (s, m) := FormatPacketData(t.sessions[Slot(k)].value, []);
                 r.m == m && t'.sessions[Slot(k)] == Some(s)
            else t'.sessions[Slot(k)] == t.sessions[Slot(k)]
  {
    hide UpdateQuiet, FormatHandshake, FormatPacketData;
    var t1 := ExpireSessions(t.(timers := t.timers[CURRENT := env.now]), env.now);
    var t2: Tunn :=
      if t1.hs.cookies.writeCookie.Some? && env.now - t1.timers[COOKIE_RECEIVED] >= COOKIE_EXPIRATION_TIME
      then t1.(hs := ClearCookie(t1.hs)) else t1;
    assert t2.sessions[Slot(k)] == t.sessions[Slot(k)] && t2.current == t.current;
    RequestEffect(t2, env, true);
    QuietEffect(t2, env);
  }

  lemma InstallElsewhere(t: Tunn, n: Session, k: nat)
    requires Slot(n.receivingIndex) != Slot(k)
    ensures InstallAsResponder(t, n).sessions[Slot(k)] == t.sessions[Slot(k)]
    ensures InstallAsInitiator(t, n).sessions[Slot(k)] == t.sessions[Slot(k)]
  {
    hide Tick;
    var t1 := Store(t, n);
    TickKeeps(t1, LAST_PACKET_RECEIVED);
    TickKeeps(Tick(t1, LAST_PACKET_RECEIVED), LAST_PACKET_SENT);
    TickKeeps(Tick(t1, LAST_PACKET_RECEIVED), SESSION_ESTABLISHED);
    TickKeeps(Tick(Tick(t1, LAST_PACKET_RECEIVED), LAST_PACKET_SENT), SESSION_ESTABLISHED);
  }

  lemma HandshakeEffect(t: Tunn, m: Message, env: Env, k: nat)
    requires IsHandshake(m) && !Installs(t, Incoming(m, env), Slot(k))
    ensures HandleVerified(t, m, env).0.sessions[Slot(k)] == t.sessions[Slot(k)]
  {
    hide ReceiveInitiation, ReceiveResponse, InstallAsResponder, InstallAsInitiator;
    if m.Initiation? {
      var (hs', r) := ReceiveInitiation(t.hs, m, env.dstLen, env.e);
      if r.Ok? { InstallElsewhere(t.(hs := hs'), r.value.1, k); }
    } else {
      var (hs', r) := ReceiveResponse(t.hs, m);
      if r.Ok? { InstallElsewhere(t.(hs := hs'), FormatPacketData(r.value, []).0, k); }
    }
  }

  lemma ForgedIsRefused(s: Session, m: Message)
    requires m.Data? && Forged(s, m)
    ensures ReceivePacketData(s, m).1.Err?
  {}

  lemma DataEffect(t: Tunn, m: Message, k: nat)
    requires m.Data? && t.sessions[Slot(k)].Some? && Forged(t.sessions[Slot(k)].value, m)
    ensures HandleData(t, m).0.sessions[Slot(k)] == t.sessions[Slot(k)]
  {
    hide ReceivePacketData, Validate, Tick, Forged;
    ForgedIsRefused(t.sessions[Slot(k)].value, m);
    var i := Slot(m.receiverIdx);
    if t.sessions[i].Some? && ReceivePacketData(t.sessions[i].value, m).1.Ok? {
      var (s', r) := ReceivePacketData(t.sessions[i].value, m);
      var t2 := SetCurrentSession(t.(sessions := t.sessions[i := Some(s')]), m.receiverIdx);
      TickKeeps(t2, LAST_PACKET_RECEIVED);
      SL.ValidateKeeps(Tick(t2, LAST_PACKET_RECEIVED), r.value);
    }
  }

  lemma IncomingEffect(t: Tunn, m: Message, env: Env, k: nat)
    requires t.sessions[Slot(k)].Some? && !Installs(t, Incoming(m, env), Slot(k))
    requires m.Data? ==> Forged(t.sessions[Slot(k)].value, m)
    ensures HandleVerified(t, m, env).0.sessions[Slot(k)] == t.sessions[Slot(k)]
  {
    hide Installs, HandleData, HandleInitiation, HandleResponse, Forged, Tick;
    match m {
      case Initiation(_, _, _, _, _, _) => HandshakeEffect(t, m, env, k);
      case Response(_, _, _, _, _, _) => HandshakeEffect(t, m, env, k);
      case CookieReply(_, _, _) =>
        var t1: Tunn := t.(hs := ReceiveCookieReply(t.hs, m).0);
        TickKeeps(t1, LAST_PACKET_RECEIVED);
        TickKeeps(Tick(t1, LAST_PACKET_RECEIVED), COOKIE_RECEIVED);
      case Data(_, _, _) => DataEffect(t, m, k);
    }
  }

  /** All calls together: a session that is neither removed nor installed over is untouched, or it is the
      current one and sent one packet. */
  lemma CallEffect(t: Tunn, op: Op, k: nat)
    requires t.sessions[Slot(k)].Some? && !SL.Removes(t, op, Slot(k)) && !Installs(t, op, Slot(k))
    requires op.Incoming? && op.m.Data? ==> Forged(t.sessions[Slot(k)].value, op.m)
    ensures if Slot(t.current) == Slot(k) && Emits(t, op) then SentOne(t, op, k) else Untouched(t, op, k)
  {
    hide Encapsulate, SendQueued, UpdateTimers, FormatHandshake, HandleVerified, FormatPacketData, Forged, Installs;
    match op {
      case Outgoing(packet, env) => EncapsulateEffect(t, packet, env);
      case Flush(env) => FlushEffect(t, env);
      case Update(env) => UpdateEffect(t, env, k);
      case Request(env) => RequestEffect(t, env, false);
      case Incoming(m, env) => IncomingEffect(t, m, env, k);
      case Rekey(_, _) =>
    }
  }

  lemma SendKeepsWire(sx: Session, sy: Session, w: Wire, packet: Packet)
    requires WireInv(sx, sy, w)
    ensures var (sx', m) := FormatPacketData(sx, packet);
            WireInv(sx', sy, w.(packets := w.packets + [packet], msgs := w.msgs + [m]))
  {
    hide MarkAll, AcceptedAt, Handed;
  }

  /** The sender's counter is of no concern to the other direction. */
  lemma CounterApart(sx: Session, sy: Session, w: Wire, n: nat)
    requires WireInv(sx, sy, w)
    ensures WireInv(sx, sy.(sendingKeyCounter := n), w)
  {}

  lemma CallKeepsLane(a: Tunn, b: Tunn, lane: Lane, op: Op)
    requires LaneOk(a, b, lane)
    requires lane.live && op.Incoming? && op.m.Data? && Stored(a, lane.ia) ==> Forged(a.sessions[Slot(lane.ia)].value, op.m)
    ensures LaneOk(Step(a, op).0, b, AfterCall(a, op, lane))
  {
    hide Step, WireInv, Exact, Emits, Installs, Forged, SL.Removes;
    if lane.live {
      var sa, sb := a.sessions[Slot(lane.ia)].value, b.sessions[Slot(lane.ib)].value;
      WireMeans(sa, sb, lane.ab);
      WireMeans(sb, sa, lane.ba);
      if Slot(a.current) == Slot(lane.ia) && Emits(a, op) {
        EmissionIsExact(a, op, lane.ab);
        SendKeepsWire(sa, sb, lane.ab, PacketOf(a, op));
        CounterApart(sb, sa, lane.ba, sa.sendingKeyCounter + 1);
      }
      if AfterCall(a, op, lane).live { CallEffect(a, op, lane.ia); }
    }
  }

  lemma WireMeans(sx: Session, sy: Session, w: Wire)
    requires WireInv(sx, sy, w)
    ensures Exact(w)
  {}

  lemma EmissionIsExact(t: Tunn, op: Op, w: Wire)
    requires Exact(w) && Emits(t, op)
    ensures Exact(w.(packets := w.packets + [PacketOf(t, op)], msgs := w.msgs + [Step(t, op).1.m]))
  {
    hide Step, AcceptedAt, Handed;
  }

  lemma CallKeepsInv(l: Link, op: Op)
    requires Inv(l) && ForeignA(l, op)
    ensures Inv(CallA(l, op))
  {
    hide LaneOk, Step, Emits, Installs, Forged, SL.Removes, Stored;
    var l' := CallA(l, op);
    forall p | 0 <= p < |l.lanes| ensures LaneOk(l'.a, l'.b, l'.lanes[p]) {
      assert LaneOk(l.a, l.b, l.lanes[p]);
      CallKeepsLane(l.a, l.b, l.lanes[p], op);
    }
  }

  // Arriving.

  lemma ExactGrows(w: Wire, n: nat, out: Outcome)
    requires Exact(w) && n < |w.packets|
    requires if Fresh(MarkAll(EMPTY, w.arrived), n) then out == Handed(w.packets[n]) else out.Fail? && out.error.CounterRefused?
    ensures Exact(w.(arrived := w.arrived + [n], outcomes := w.outcomes + [out]))
    ensures MarkAll(EMPTY, w.arrived + [n]) == Mark(MarkAll(EMPTY, w.arrived), n)
  {
    hide MarkAll, Fresh, Handed;
    MarkAllAppend(EMPTY, w.arrived, n);
    var cs := w.arrived + [n];
    assert cs[..|w.arrived|] == w.arrived;
    forall i | 0 <= i < |w.arrived| ensures AcceptedAt(cs, i) == AcceptedAt(w.arrived, i) { assert cs[..i] == w.arrived[..i]; }
  }

  /** What an arriving message does to the receiver that holds the session. */
  lemma ArriveEffect(sx: Session, y: Tunn, k: nat, n: nat, packet: Packet, env: Env)
    requires Stored(y, k) && HT.Crossed(sx, y.sessions[Slot(k)].value)
    ensures var sy := y.sessions[Slot(k)].value;
            var (y', out) := HandleVerified(y, Sealed(sx, n, packet), env);
            && (forall i :: 0 <= i < N_SESSIONS && i != Slot(k) ==> y'.sessions[i] == y.sessions[i])
            && y'.sessions[Slot(k)] == Some(sy.(window := Mark(sy.window, n)))
            && (if Fresh(sy.window, n) then out == Handed(packet) else out.Fail? && out.error.CounterRefused?)
  {
    hide Validate, Tick, Mark, Fresh, ReceivePacketData, FormatPacketData, Handed;
    var sy := y.sessions[Slot(k)].value;
    var m := Sealed(sx, n, packet);
    DP.FormatFields(sx.(sendingKeyCounter := n), packet);
    if Fresh(sy.window, n) {
      DP.SealedPacketOpens(sx.(sendingKeyCounter := n), sy, packet);
      var t1: Tunn := y.(sessions := y.sessions[Slot(k) := Some(sy.(window := Mark(sy.window, n)))]);
      var t2 := SetCurrentSession(t1, k);
      TickKeeps(t2, LAST_PACKET_RECEIVED);
      SL.ValidateKeeps(Tick(t2, LAST_PACKET_RECEIVED), packet);
      HandedByAnyone(Tick(t2, LAST_PACKET_RECEIVED), packet);
    } else {
      Refused(sy, m);
      assert Mark(sy.window, n) == sy.window by { MarkOfStale(sy.window, n); }
    }
  }

  lemma MarkOfStale(w: Window, n: nat)
    requires !Fresh(w, n)
    ensures Mark(w, n) == w
  {}

  lemma Refused(s: Session, m: Message)
    requires m.Data? && m.receiverIdx == s.receivingIndex && !Fresh(s.window, m.counter)
    ensures ReceivePacketData(s, m).0 == s && ReceivePacketData(s, m).1.Err? && ReceivePacketData(s, m).1.error.CounterRefused?
  {}

  lemma ArriveKeepsWire(sx: Session, sy: Session, w: Wire, n: nat, out: Outcome)
    requires WireInv(sx, sy, w) && n < |w.msgs|
    requires if Fresh(sy.window, n) then out == Handed(w.packets[n]) else out.Fail? && out.error.CounterRefused?
    ensures WireInv(sx, sy.(window := Mark(sy.window, n)), w.(arrived := w.arrived + [n], outcomes := w.outcomes + [out]))
  {
    hide MarkAll, Mark, Fresh, Handed, Sealed, AcceptedAt;
    ExactGrows(w, n, out);
  }

  lemma WindowApart(sx: Session, sy: Session, w: Wire, window: Window)
    requires WireInv(sx, sy, w)
    ensures WireInv(sx.(window := window), sy, w)
  {}

  lemma ArriveKeepsLane(a: Tunn, b: Tunn, lane: Lane, n: nat, env: Env)
    requires LaneInv(a, b, lane) && n < |lane.ab.msgs|
    ensures var (b', out) := HandleVerified(b, lane.ab.msgs[n], env);
            && (forall i :: 0 <= i < N_SESSIONS && i != Slot(lane.ib) ==> b'.sessions[i] == b.sessions[i])
            && LaneInv(a, b', lane.(ab := lane.ab.(arrived := lane.ab.arrived + [n], outcomes := lane.ab.outcomes + [out])))
  {
    hide HandleVerified, Handed, MarkAll, Mark, Fresh, Sealed, AcceptedAt;
    var sa, sb := a.sessions[Slot(lane.ia)].value, b.sessions[Slot(lane.ib)].value;
    var out := HandleVerified(b, lane.ab.msgs[n], env).1;
    ArriveEffect(sa, b, lane.ib, n, lane.ab.packets[n], env);
    ArriveKeepsWire(sa, sb, lane.ab, n, out);
    WindowApart(sb, sa, lane.ba, Mark(sb.window, n));
  }

  lemma OtherLane(a: Tunn, b: Tunn, b': Tunn, lane: Lane)
    requires LaneOk(a, b, lane) && (lane.live ==> b'.sessions[Slot(lane.ib)] == b.sessions[Slot(lane.ib)])
    ensures LaneOk(a, b', lane)
  {}

  lemma ArriveKeepsInv(l: Link, p: nat, n: nat, env: Env)
    requires Inv(l) && p < |l.lanes| && l.lanes[p].live && n < |l.lanes[p].ab.msgs|
    ensures Inv(ArriveB(l, p, n, env))
  {
    hide LaneInv, HandleVerified, Exact;
    var l' := ArriveB(l, p, n, env);
    assert LaneOk(l.a, l.b, l.lanes[p]);
    ArriveKeepsLane(l.a, l.b, l.lanes[p], n, env);
    forall q | 0 <= q < |l.lanes| ensures LaneOk(l'.a, l'.b, l'.lanes[q]) {
      if q != p { OtherLane(l.a, l.b, l'.b, l.lanes[q]); }
    }
  }

  // Runs.

  lemma MoveKeepsInv(l: Link, mv: Move)
    requires Inv(l) && Possible(l, mv)
    ensures Inv(Do(l, mv))
  {
    hide Inv, CallA, ArriveB, ForeignA;
    FlipKeepsInv(l);
    match mv {
      case Call(atA, op) =>
        if atA {
          CallKeepsInv(l, op);
        } else {
          CallKeepsInv(Flip(l), op);
          FlipKeepsInv(CallA(Flip(l), op));
        }
      case Arrive(fromA, p, n, env) =>
        if fromA {
          ArriveKeepsInv(l, p, n, env);
        } else {
          ArriveKeepsInv(Flip(l), p, n, env);
          FlipKeepsInv(ArriveB(Flip(l), p, n, env));
        }
    }
  }

  lemma {:induction false} RunKeepsInv(l: Link, mvs: seq<Move>)
    requires Inv(l) && Legal(l, mvs)
    ensures Inv(Run(l, mvs))
    decreases |mvs|
  {
    hide Inv, Do, Possible;
    if mvs != [] {
      MoveKeepsInv(l, mvs[0]);
      RunKeepsInv(Do(l, mvs[0]), mvs[1..]);
    }
  }

  /** Every packet sent on a lane has its message, and every arrival is decided by its counter alone; and
      the two sides still hold the sessions of the lanes that are not over. */
  ghost predicate Reliable(l: Link) {
    forall p :: 0 <= p < |l.lanes| ==>
      && Exact(l.lanes[p].ab) && Exact(l.lanes[p].ba)
      && (l.lanes[p].live ==> Stored(l.a, l.lanes[p].ia) && Stored(l.b, l.lanes[p].ib))
  }

  lemma InvIsReliable(l: Link)
    requires Inv(l)
    ensures Reliable(l)
  {
    hide Exact, HT.Crossed, Sealed, MarkAll;
    forall p | 0 <= p < |l.lanes|
      ensures && Exact(l.lanes[p].ab) && Exact(l.lanes[p].ba)
              && (l.lanes[p].live ==> Stored(l.a, l.lanes[p].ia) && Stored(l.b, l.lanes[p].ib))
    {
      assert LaneOk(l.a, l.b, l.lanes[p]);
    }
  }

  /** A lane ends exactly when its session is lost, or one is installed in its slot that happens to be the same again. */
  lemma LaneEndsExactly(t: Tunn, op: Op, lane: Lane)
    requires lane.live && Stored(t, lane.ia)
    ensures var s := t.sessions[Slot(lane.ia)].value;
            AfterCall(t, op, lane).live <==>
              SL.Holds(Step(t, op).0, lane.ia, s) && !Installs(t, op, Slot(lane.ia))
  {
    hide Step, SL.Removes;
    Losses.StepLosesExactly(t, op, lane.ia, t.sessions[Slot(lane.ia)].value);
  }

  // What that means for a reader of the stream.

  /** An arrival is handed on exactly when no earlier arrival that was handed on is the same message or
      1024 or more ahead of it. */
  lemma HandedExactly(w: Wire, i: nat)
    requires Exact(w) && i < |w.arrived|
    ensures AcceptedAt(w.arrived, i) <==>
              forall j :: 0 <= j < i && AcceptedAt(w.arrived, j) ==>
                w.arrived[j] != w.arrived[i] && w.arrived[j] < w.arrived[i] + N_BITS
    ensures if AcceptedAt(w.arrived, i) then w.outcomes[i] == Handed(w.packets[w.arrived[i]])
            else w.outcomes[i].Fail? && w.outcomes[i].error.CounterRefused?
  {
    hide AcceptedAt, Handed;
    AcceptanceExact(w.arrived, i);
  }

  /** Any order of arrival without repetition in which nothing is overtaken by 1024 or more is handed on whole. */
  lemma ReorderedStreamArrives(w: Wire)
    requires Exact(w)
    requires forall j, i :: 0 <= j < i < |w.arrived| ==> w.arrived[j] != w.arrived[i] && w.arrived[j] < w.arrived[i] + N_BITS
    ensures forall i :: 0 <= i < |w.arrived| ==> w.outcomes[i] == Handed(w.packets[w.arrived[i]])
  {
    hide AcceptedAt, Handed;
    ReorderingTolerated(w.arrived);
  }

  /** A packet on a wire that is as long as its header says arrives as it was sent. */
  lemma WholePacketsArrive(w: Wire, i: nat)
    requires Exact(w) && i < |w.arrived| && AcceptedAt(w.arrived, i)
    ensures var p := w.packets[w.arrived[i]];
            && (IsV4(p) && FromBe(p[2..4]) == |p| ==> w.outcomes[i] == ToTunnelV4(p, p[12..16]))
            && (IsV6(p) && 40 + FromBe(p[4..6]) == |p| ==> w.outcomes[i] == ToTunnelV6(p, p[8..24]))
            && (p == [] ==> w.outcomes[i] == Done)
  {
    hide AcceptedAt, Handed;
    WholePacketHanded(w.packets[w.arrived[i]]);
    NothingHanded();
  }
}
