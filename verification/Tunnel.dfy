/** The tunnel object: its fields are changed in place, each method as the code does it, and each is
    proved to do what the tunnel's specification says. */
module Tunnels {
  import opened Basics
  import opened Constants
  import opened Crypto
  import opened ReplaySpec
  import opened HandshakeSpec
  import opened TunnelSpec
  import opened Handshakes
  import opened TunnelRuns
  import opened Packets
  import DP = DataPath
  import HT = HandshakeTheorems

  /** A difference of two times; the type has no negative durations. */
  function Elapsed(now: nat, since: nat): (d: nat)
    requires since <= now
  {
    now - since
  }

  /** A data packet goes out. */
  predicate Writes(r: Outcome) { r.ToNetwork? && r.m.Data? }

  lemma KeepaliveIsData(t: TunnelSpec.Tunn, env: Env)
    requires t.sessions[Slot(t.current)].Some?
    ensures Writes(TunnelSpec.Encapsulate(t, [], env).1)
  {
    hide Tick;
  }

  class Tunn {
    const handshake: Handshake
    const sessions: array<Option<Session>>
    const timers: array<nat>
    const sessionTimers: array<nat>
    const persistentKeepalive: nat
    var current: nat
    var packetQueue: seq<Packet>
    var isInitiator: bool
    var wantKeepalive: bool
    var wantHandshake: bool
    var txBytes: nat
    var rxBytes: nat

    ghost const Repr: set<object>

    ghost predicate Valid()
      reads this
    {
      && Repr == {this, handshake, sessions, timers, sessionTimers}
      && sessions.Length == sessionTimers.Length == N_SESSIONS && timers.Length == N_TIMERS
      && timers != sessionTimers
    }

    ghost function V(): (t: TunnelSpec.Tunn)
      requires Valid()
      reads Repr, this
    {
      Tunnel(handshake.V(), sessions[..], current, packetQueue, timers[..], sessionTimers[..],
             isInitiator, wantKeepalive, wantHandshake, persistentKeepalive, txBytes, rxBytes)
    }

    constructor (staticPrivate: nat, peerStaticPublic: Term, presharedKey: Option<Term>, keepalive: nat, index: nat)
      ensures Valid() && fresh(Repr)
      ensures V() == NewTunnel(NewParams(staticPrivate, peerStaticPublic, presharedKey), index, keepalive)
    {
      var h := new Handshake(staticPrivate, peerStaticPublic, index * 256 % 0x1_0000_0000, presharedKey);
      var s := new Option<Session>[N_SESSIONS](_ => None);
      var t := new nat[N_TIMERS](_ => 0);
      var st := new nat[N_SESSIONS](_ => 0);
      handshake, sessions, timers, sessionTimers, persistentKeepalive := h, s, t, st, keepalive;
      current, packetQueue, txBytes, rxBytes := 0, [], 0, 0;
      isInitiator, wantKeepalive, wantHandshake := false, false, false;
      Repr := {this, h, s, t, st};
      new;
      assert sessions[..] == Filled(N_SESSIONS, None);
      assert timers[..] == Filled(N_TIMERS, 0);
      assert sessionTimers[..] == Filled(N_SESSIONS, 0);
    }

    // Timers.

    method TimerTick(name: nat)
      requires Valid() && name < N_TIMERS
      modifies Repr
      ensures Valid() && V() == Tick(old(V()), name)
    {
      if name == LAST_PACKET_RECEIVED {
        wantKeepalive := true;
        wantHandshake := false;
      } else if name == LAST_PACKET_SENT {
        wantHandshake := true;
        wantKeepalive := false;
      }
      timers[name] := timers[CURRENT];
    }

    method TimerTickSessionEstablished(initiator: bool, idx: nat)
      requires Valid()
      modifies Repr
      ensures Valid() && V() == TickSessionEstablished(old(V()), initiator, idx)
    {
      TimerTick(SESSION_ESTABLISHED);
      sessionTimers[idx % N_SESSIONS] := timers[CURRENT];
      isInitiator := initiator;
    }

    method ClearTimers(now: nat)
      requires Valid()
      modifies Repr
      ensures Valid() && V() == TunnelSpec.ClearTimers(old(V()), now)
    {
      for i := 0 to N_TIMERS
        invariant Valid() && V() == old(V()).(timers := V().timers)
        invariant forall j :: 0 <= j < i ==> timers[j] == now
      {
        timers[i] := now;
      }
      wantHandshake := false;
      wantKeepalive := false;
      assert timers[..] == Filled(N_TIMERS, now);
    }

    method DropSessions()
      requires Valid()
      modifies Repr
      ensures Valid() && V() == old(V()).(sessions := Filled(N_SESSIONS, None))
    {
      for i := 0 to N_SESSIONS
        invariant Valid() && V() == old(V()).(sessions := V().sessions)
        invariant forall j :: 0 <= j < i ==> sessions[j] == None
      {
        sessions[i] := None;
      }
      assert sessions[..] == Filled(N_SESSIONS, None);
    }

    method ClearAll(now: nat)
      requires Valid()
      modifies Repr
      ensures Valid() && V() == TunnelSpec.ClearAll(old(V()), now)
    {
      DropSessions();
      packetQueue := [];
      ClearTimers(now);
    }

    method UpdateSessionTimers(now: nat)
      requires Valid() && forall i :: 0 <= i < N_SESSIONS ==> sessionTimers[i] <= now
      modifies Repr
      ensures Valid() && V() == ExpireSessions(old(V()), now)
    {
      for i := 0 to N_SESSIONS
        invariant Valid() && V() == old(V()).(sessions := V().sessions, sessionTimers := V().sessionTimers)
        invariant forall j :: i <= j < N_SESSIONS ==>
                    sessions[j] == old(sessions[j]) && sessionTimers[j] == old(sessionTimers[j])
        invariant forall j :: 0 <= j < i ==>
                    && sessions[j] == (if now - old(sessionTimers[j]) > REJECT_AFTER_TIME then None else old(sessions[j]))
                    && sessionTimers[j] ==
                       (if now - old(sessionTimers[j]) > REJECT_AFTER_TIME then now else old(sessionTimers[j]))
      {
        if Elapsed(now, sessionTimers[i]) > REJECT_AFTER_TIME {
          sessions[i] := None;
          sessionTimers[i] := now;
        }
      }
      assert V().sessions == ExpireSessions(old(V()), now).sessions;
      assert V().sessionTimers == ExpireSessions(old(V()), now).sessionTimers;
    }

    // The queue.

    method QueuePacket(packet: Packet)
      requires Valid()
      modifies Repr
      ensures Valid() && V() == TunnelSpec.QueuePacket(old(V()), packet)
    {
      if |packetQueue| < MAX_QUEUE_DEPTH { packetQueue := packetQueue + [packet]; }
    }

    method RequeuePacket(packet: Packet)
      requires Valid()
      modifies Repr
      ensures Valid() && V() == TunnelSpec.RequeuePacket(old(V()), packet)
    {
      if |packetQueue| < MAX_QUEUE_DEPTH { packetQueue := [packet] + packetQueue; }
    }

    // Handshake initiation and outgoing packets.

    method FormatHandshakeInitiation(env: Env, force: bool) returns (r: Outcome)
      requires Valid()
      modifies Repr
      ensures Valid() && (V(), r) == FormatHandshake(old(V()), env, force)
    {
      hide FormatInitiation, Tick;
      if handshake.InProgress() && !force { return Done; }
      if handshake.state.Expired? { ClearTimers(env.now); }
      ghost var t1 := V();
      var starting := !handshake.InProgress();
      var m := handshake.FormatHandshakeInitiation(env.dstLen, env.e, env.stamp, env.now);
      assert V() == t1.(hs := handshake.V());
      if m.Err? { return Fail(m.error); }
      if starting { TimerTick(LAST_HANDSHAKE_STARTED); }
      TimerTick(LAST_PACKET_SENT);
      r := ToNetwork(m.value);
    }

    method Encapsulate(packet: Packet, env: Env) returns (r: Outcome)
      requires Valid() && (sessions[Slot(current)].Some? ==> env.dstLen >= |packet| + DATA_OVERHEAD_SZ)
      modifies Repr
      ensures Valid() && (V(), r) == TunnelSpec.Encapsulate(old(V()), packet, env)
    {
      hide FormatHandshake, Tick, FormatPacketData;
      var i := Slot(current);
      if sessions[i].Some? {
        assert env.dstLen >= |packet| + DATA_OVERHEAD_SZ;  // or the code panics
        var (s, m) := FormatPacketData(sessions[i].value, packet);
        sessions[i] := Some(s);
        assert V() == old(V()).(sessions := old(V()).sessions[i := Some(s)]);
        ghost var t1 := V();
        TickKeeps(t1, LAST_PACKET_SENT);
        TickKeeps(Tick(t1, LAST_PACKET_SENT), LAST_DATA_PACKET_SENT);
        TimerTick(LAST_PACKET_SENT);
        if packet != [] { TimerTick(LAST_DATA_PACKET_SENT); }
        ghost var t2 := V();
        txBytes := txBytes + |packet|;
        assert V() == t2.(txBytes := txBytes);
        return ToNetwork(m);
      }
      QueuePacket(packet);
      r := FormatHandshakeInitiation(env, false);
    }

    method SendQueuedPacket(env: Env) returns (r: Outcome)
      requires Valid()
      requires packetQueue != [] && sessions[Slot(current)].Some? ==> env.dstLen >= |packetQueue[0]| + DATA_OVERHEAD_SZ
      modifies Repr
      ensures Valid() && (V(), r) == SendQueued(old(V()), env)
    {
      hide TunnelSpec.Encapsulate;
      if packetQueue != [] {
        var packet := packetQueue[0];
        packetQueue := packetQueue[1..];
        r := Encapsulate(packet, env);
        if !r.Fail? { return; }
        RequeuePacket(packet);
      }
      r := Done;
    }

    /** The loop the connector runs after every datagram: call until nothing is left to send. */
    method DrainQueue(envs: nat -> Env) returns (out: seq<Message>)
      requires Valid() && |packetQueue| <= MAX_QUEUE_DEPTH
      requires sessions[Slot(current)].Some? ==> forall i, p :: p in packetQueue ==> envs(i).dstLen >= |p| + DATA_OVERHEAD_SZ
      modifies Repr
      ensures Valid() && (V(), out) == DP.Drain(old(V()), envs, 0)
    {
      hide SendQueued, DP.Live, IsInProgress, DP.Drain;
      ghost var start := V();
      DP.LiveMeans(start);
      out := [];
      var i := 0;
      assert [] + DP.Drain(start, envs, 0).1 == DP.Drain(start, envs, 0).1;
      while true
        invariant Valid() && |packetQueue| <= MAX_QUEUE_DEPTH
        invariant DP.Live(V()) ==> forall j, p :: p in packetQueue ==> envs(j).dstLen >= |p| + DATA_OVERHEAD_SZ
        invariant DP.Drain(start, envs, 0) == (DP.Drain(V(), envs, i).0, out + DP.Drain(V(), envs, i).1)
        decreases DP.Remaining(V())
      {
        ghost var t := V();
        DP.DrainOnce(t, envs, i);
        DP.FlushKeepsPackets(t, envs(i));
        DP.FlushKeepsLive(t, envs(i));
        DP.LiveMeans(t);
        var r := SendQueuedPacket(envs(i));
        if !r.ToNetwork? {
          assert out + [] == out;
          return;
        }
        DP.FlushProgress(t, envs(i));
        assert out + ([r.m] + DP.Drain(V(), envs, i + 1).1) == out + [r.m] + DP.Drain(V(), envs, i + 1).1;
        out := out + [r.m];
        i := i + 1;
      }
    }

    // Incoming messages.

    method SetCurrentSession(idx: nat)
      requires Valid()
      modifies Repr
      ensures Valid() && V() == TunnelSpec.SetCurrentSession(old(V()), idx)
    {
      if current == idx { return; }
      if sessions[current % N_SESSIONS].None?
         || sessionTimers[idx % N_SESSIONS] >= sessionTimers[current % N_SESSIONS] {
        current := idx;
      }
    }

    method StoreSession(s: Session)
      requires Valid()
      modifies Repr
      ensures Valid() && V() == Store(old(V()), s)
    {
      sessions[s.receivingIndex % N_SESSIONS] := Some(s);
    }

    method HandleHandshakeInit(m: Message, env: Env) returns (r: Outcome)
      requires Valid() && m.Initiation?
      modifies Repr
      ensures Valid() && (V(), r) == HandleInitiation(old(V()), m, env)
    {
      hide ReceiveInitiation, Tick, TickSessionEstablished, Store;
      var x := handshake.ReceiveHandshakeInitialization(m, env.dstLen, env.e);
      if x.Err? { return Fail(x.error); }
      var session := x.value.1;
      StoreSession(session);
      TimerTick(LAST_PACKET_RECEIVED);
      TimerTick(LAST_PACKET_SENT);
      TimerTickSessionEstablished(false, session.receivingIndex);
      r := ToNetwork(x.value.0);
    }

    /** The slot, not the index, is passed on to the session timers. */
    method HandleHandshakeResponse(m: Message, env: Env) returns (r: Outcome)
      requires Valid() && m.Response? && (ReceiveResponse(handshake.V(), m).1.Ok? ==> env.dstLen >= DATA_OVERHEAD_SZ)
      modifies Repr
      ensures Valid() && (V(), r) == HandleResponse(old(V()), m)
    {
      hide ReceiveResponse, Tick, Store, FormatPacketData, TunnelSpec.SetCurrentSession;
      var x := handshake.ReceiveHandshakeResponse(m);
      if x.Err? { return Fail(x.error); }
      assert env.dstLen >= DATA_OVERHEAD_SZ;  // or the code panics
      var (session, keepalive) := FormatPacketData(x.value, []);
      var index := session.receivingIndex % N_SESSIONS;
      StoreSession(session);
      TimerTick(LAST_PACKET_RECEIVED);
      TimerTickSessionEstablished(true, index);
      SetCurrentSession(session.receivingIndex);
      r := ToNetwork(keepalive);
    }

    method HandleCookieReply(m: Message) returns (r: Outcome)
      requires Valid() && m.CookieReply?
      modifies Repr
      ensures Valid() && (V(), r) == TunnelSpec.HandleCookieReply(old(V()), m)
    {
      hide HandshakeSpec.ReceiveCookieReply, Tick;
      var x := handshake.ReceiveCookieReply(m);
      if x.Err? { return Fail(x.error); }
      TimerTick(LAST_PACKET_RECEIVED);
      TimerTick(COOKIE_RECEIVED);
      r := Done;
    }

    method ValidateDecapsulatedPacket(p: Packet) returns (r: Outcome)
      requires Valid()
      modifies Repr
      ensures Valid() && (V(), r) == Validate(old(V()), p)
      ensures r == Handed(p)
    {
      hide Tick, Handed;
      HandedByAnyone(V(), p);
      if p == [] { return Done; }
      var len: nat := 0;
      if p[0] / 16 == 4 && |p| >= IPV4_MIN_HEADER_SIZE {
        len := (p[2] as nat) * 256 + p[3];
      } else if p[0] / 16 == 6 && |p| >= IPV6_MIN_HEADER_SIZE {
        len := (p[4] as nat) * 256 + p[5] + IPV6_MIN_HEADER_SIZE;
      } else {
        return Fail(InvalidPacket);
      }
      if len > |p| { return Fail(InvalidPacket); }
      TickKeeps(V(), LAST_DATA_PACKET_RECEIVED);
      TimerTick(LAST_DATA_PACKET_RECEIVED);
      ghost var t1 := V();
      rxBytes := rxBytes + len;
      assert V() == t1.(rxBytes := rxBytes);
      r := if p[0] / 16 == 4 then ToTunnelV4(p[..len], p[12..16]) else ToTunnelV6(p[..len], p[8..24]);
    }

    method HandleData(m: Message, env: Env, cipherLen: nat) returns (r: Outcome)
      requires Valid() && m.Data? && m.counter < COUNTER_LIMIT
      requires sessions[Slot(m.receiverIdx)].Some? ==> cipherLen <= env.dstLen
      modifies Repr
      ensures Valid() && (V(), r) == TunnelSpec.HandleData(old(V()), m)
    {
      hide ReceivePacketData, Tick, TunnelSpec.SetCurrentSession, Validate;
      var i := m.receiverIdx % N_SESSIONS;
      if sessions[i].None? { return Fail(NoCurrentSession); }
      assert cipherLen <= env.dstLen;  // or the code panics
      var (s, x) := ReceivePacketData(sessions[i].value, m);
      if x.Err? { return Fail(x.error); }
      sessions[i] := Some(s);
      assert V() == old(V()).(sessions := old(V()).sessions[i := Some(s)]);
      SetCurrentSession(m.receiverIdx);
      TimerTick(LAST_PACKET_RECEIVED);
      r := ValidateDecapsulatedPacket(x.value);
    }

    /** cipherLen is the length of the ciphertext in a data packet. */
    method HandleVerifiedPacket(m: Message, env: Env, cipherLen: nat) returns (r: Outcome)
      requires Valid() && (m.Data? ==> m.counter < COUNTER_LIMIT)
      requires m.Response? && ReceiveResponse(handshake.V(), m).1.Ok? ==> env.dstLen >= DATA_OVERHEAD_SZ
      requires m.Data? && sessions[Slot(m.receiverIdx)].Some? ==> cipherLen <= env.dstLen
      modifies Repr
      ensures Valid() && (V(), r) == HandleVerified(old(V()), m, env)
    {
      hide HandleInitiation, HandleResponse, TunnelSpec.HandleCookieReply, TunnelSpec.HandleData;
      match m {
        case Initiation(_, _, _, _, _, _) => r := HandleHandshakeInit(m, env);
        case Response(_, _, _, _, _, _) => r := HandleHandshakeResponse(m, env);
        case CookieReply(_, _, _) => r := HandleCookieReply(m);
        case Data(_, _, _) => r := HandleData(m, env, cipherLen);
      }
    }

    method SetStaticPrivate(key: nat)
      requires Valid()
      modifies Repr
      ensures Valid() && V() == ChangeKey(old(V()), key)
    {
      handshake.SetStaticPrivate(key);
      DropSessions();
    }

    // The timer call.

    method GiveUp(now: nat) returns (r: Outcome)
      requires Valid()
      modifies Repr
      ensures Valid() && (V(), r) == Expire(old(V()), now)
    {
      hide TunnelSpec.ClearAll;
      handshake.SetExpired();
      ClearAll(now);
      r := Fail(ConnectionExpired);
    }

    /** Every difference of times below is of a stored time and a later reading. */
    method UpdateTimers(env: Env, ghost clock: nat) returns (r: Outcome)
      requires Valid() && Inv(V(), clock) && clock <= env.now
      requires Writes(TunnelSpec.UpdateTimers(V(), env).1) ==> env.dstLen >= DATA_OVERHEAD_SZ
      modifies Repr
      ensures Valid() && (V(), r) == TunnelSpec.UpdateTimers(old(V()), env)
    {
      hide ExpireSessions, Expire, UpdatePending, UpdateQuiet, RingInOrder, HT.PendingInv;
      var now := env.now;
      AdvanceClock(now, clock);
      if handshake.state.Expired? { return Fail(ConnectionExpired); }
      ClearOldCookie(now);
      if Elapsed(now, timers[SESSION_ESTABLISHED]) >= REJECT_AFTER_TIME * 3 {
        r := GiveUp(now);
      } else if handshake.state.InitSent? {
        r := UpdateWithPending(env);
      } else {
        r := UpdateWithoutPending(env);
      }
    }

    /** The clock is set and sessions that are too old go. */
    method AdvanceClock(now: nat, ghost clock: nat)
      requires Valid() && Inv(V(), clock) && clock <= now
      modifies Repr
      ensures Valid() && Inv(V(), now)
      ensures var t := old(V()); V() == ExpireSessions(t.(timers := t.timers[CURRENT := now]), now)
    {
      hide ExpireSessions, RingInOrder, HT.PendingInv;
      ghost var t := V();
      timers[CURRENT] := now;
      assert V() == t.(timers := t.timers[CURRENT := now]);
      UpdateSessionTimers(now);
      ExpireSessionsInv(t, clock, now);
    }

    method ClearOldCookie(now: nat)
      requires Valid() && Inv(V(), now)
      modifies Repr
      ensures Valid() && Inv(V(), now)
      ensures var t := old(V());
              V() == if t.hs.cookies.writeCookie.Some? && now - t.timers[COOKIE_RECEIVED] >= COOKIE_EXPIRATION_TIME
                     then t.(hs := HandshakeSpec.ClearCookie(t.hs)) else t
    {
      hide RingInOrder;
      if handshake.cookies.writeCookie.Some? && Elapsed(now, timers[COOKIE_RECEIVED]) >= COOKIE_EXPIRATION_TIME {
        ClearCookieInv(V(), now);
        handshake.ClearCookie();
        assert V() == old(V()).(hs := HandshakeSpec.ClearCookie(old(V().hs)));
      }
    }

    method UpdateWithPending(env: Env) returns (r: Outcome)
      requires Valid() && Inv(V(), env.now) && handshake.state.InitSent?
      modifies Repr
      ensures Valid() && (V(), r) == UpdatePending(old(V()), env)
    {
      hide Expire, FormatHandshake, RingInOrder;
      if Elapsed(env.now, timers[LAST_HANDSHAKE_STARTED]) >= REKEY_ATTEMPT_TIME {
        r := GiveUp(env.now);
      } else if Elapsed(env.now, handshake.state.timeSent) >= REKEY_TIMEOUT {
        r := FormatHandshakeInitiation(env, true);
      } else {
        r := Done;
      }
    }

    /** Is a new handshake called for? Takes back the wish for one when it is looked at. */
    method RekeyRequired(now: nat) returns (required: bool)
      requires Valid() && Inv(V(), now)
      modifies this
      ensures Valid()
      ensures var t := old(V());
              && required == (RekeyOnSend(t, now) || RekeyOnReceive(t, now) || (NoAnswer(t, now) && t.wantHandshake))
              && V() == if NoAnswer(t, now) then t.(wantHandshake := false) else t
    {
      hide RingInOrder;
      var established, received := timers[SESSION_ESTABLISHED], timers[LAST_PACKET_RECEIVED];
      var dataReceived, dataSent := timers[LAST_DATA_PACKET_RECEIVED], timers[LAST_DATA_PACKET_SENT];
      required := false;
      if isInitiator {
        if established < dataSent && Elapsed(now, established) >= REKEY_AFTER_TIME {
          required := true;
        }
        if established < dataReceived
           && Elapsed(now, established) >= REJECT_AFTER_TIME - KEEPALIVE_TIMEOUT - REKEY_TIMEOUT {
          required := true;
        }
      }
      if dataSent > received && Elapsed(now, received) >= KEEPALIVE_TIMEOUT + REKEY_TIMEOUT {
        if wantHandshake { required := true; }
        wantHandshake := false;
      }
    }

    method UpdateWithoutPending(env: Env) returns (r: Outcome)
      requires Valid() && Inv(V(), env.now) && (Writes(UpdateQuiet(V(), env).1) ==> env.dstLen >= DATA_OVERHEAD_SZ)
      modifies Repr
      ensures Valid() && (V(), r) == UpdateQuiet(old(V()), env)
    {
      hide FormatHandshake, UpdateKeepalives, RingInOrder, RekeyOnSend, RekeyOnReceive, NoAnswer, HT.PendingInv;
      var initiationRequired := RekeyRequired(env.now);
      if initiationRequired {
        r := FormatHandshakeInitiation(env, true);
      } else {
        r := SendKeepalives(env);
      }
    }

    method SendKeepalives(env: Env) returns (r: Outcome)
      requires Valid() && TimesInOrder(V(), env.now) && (Writes(UpdateKeepalives(V(), env).1) ==> env.dstLen >= DATA_OVERHEAD_SZ)
      modifies Repr
      ensures Valid() && (V(), r) == UpdateKeepalives(old(V()), env)
    {
      hide TunnelSpec.Encapsulate, Tick;
      var now := env.now;
      var sent, dataReceived := timers[LAST_PACKET_SENT], timers[LAST_DATA_PACKET_RECEIVED];
      var keepaliveRequired := false;
      ghost var t := V();
      if dataReceived > sent && Elapsed(now, sent) >= KEEPALIVE_TIMEOUT {
        if wantKeepalive { keepaliveRequired := true; }
        wantKeepalive := false;
        assert V() == t.(wantKeepalive := false);
      }
      if persistentKeepalive > 0 && Elapsed(now, timers[PERSISTENT_KEEPALIVE]) >= persistentKeepalive * SECOND {
        TimerTick(PERSISTENT_KEEPALIVE);
        keepaliveRequired := true;
      }
      if keepaliveRequired {
        if sessions[Slot(current)].Some? { KeepaliveIsData(V(), env); }
        r := Encapsulate([], env);
      } else {
        r := Done;
      }
    }
  }
}
