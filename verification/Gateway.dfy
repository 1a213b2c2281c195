/** A tunnel behind its rate limiter: what becomes of a datagram, and a handshake with a loaded responder. */
module Gates {
  import opened Basics
  import opened Constants
  import opened Crypto
  import opened HandshakeSpec
  import opened TunnelSpec
  import opened TunnelRuns
  import RL = RateLimiterSpec
  import HT = HandshakeTheorems
  import SL = SessionLifetimes

  datatype Gate = Gate(tun: Tunn, limiter: RL.Limiter)

  /** An empty datagram asks for the next queued packet; a data packet has a ciphertext of some length. */
  datatype Datagram = Empty | Malformed | Carrying(m: Message, cipherLen: nat)

  /** reading is the limiter's clock, env.now the tunnel's. */
  function Decapsulate(g: Gate, src: Option<Term>, d: Datagram, env: Env, reading: nat): (r: (Gate, Outcome))
    requires g.limiter.startTime <= reading
  {
    match d
    case Empty => var (t, out) := SendQueued(g.tun, env); (g.(tun := t), out)
    case Malformed => (g, Fail(InvalidPacket))
    case Carrying(m, _) =>
      var (l, v) := RL.Verify(g.limiter, src, m, reading);
      match v
      case Refuse(e) => (g.(limiter := l), Fail(e))
      case Reply(c) => (g.(limiter := l), ToNetwork(c))
      case Pass => var (t, out) := HandleVerified(g.tun, m, env); (Gate(t, l), out)
  }

  /** The timer call also lets the limiter count anew, if the limiter is the tunnel's own. */
  function Update(g: Gate, own: bool, env: Env, reading: nat): (r: (Gate, Outcome))
    requires g.limiter.lastReset <= reading
  {
    var (t, out) := UpdateTimers(g.tun, env);
    (Gate(t, if own then RL.Reset(g.limiter, reading) else g.limiter), out)
  }

  /** What reaches the tunnel is one of its own steps or nothing, so every fact about its runs holds
      behind the limiter; and a message that is refused or answered with a cookie does not touch it. */
  lemma ReachesTheTunnel(g: Gate, src: Option<Term>, d: Datagram, env: Env, reading: nat, clock: nat)
    requires g.limiter.startTime <= reading && Inv(g.tun, clock) && clock <= env.now
    ensures var g' := Decapsulate(g, src, d, env, reading).0;
            && Inv(g'.tun, env.now)
            && (d.Empty? ==> g'.tun == Step(g.tun, Flush(env)).0)
            && (d.Carrying? ==>
                  g'.tun == if RL.Verify(g.limiter, src, d.m, reading).1.Pass? then Step(g.tun, Incoming(d.m, env)).0 else g.tun)
  {
    hide Inv, HandleVerified, SendQueued, RL.Verify;
    LaterClock(g.tun, clock, env.now);
    match d
    case Empty => StepKeepsInv(g.tun, clock, Flush(env));
    case Malformed =>
    case Carrying(m, _) => StepKeepsInv(g.tun, clock, Incoming(m, env));
  }

  /** The limiter belongs to the tunnel's own key. */
  predicate Belongs(g: Gate) {
    && g.limiter.mac1Key == Hash([LABEL_MAC1, g.tun.hs.params.staticPublic])
    && g.limiter.cookieKey == Hash([LABEL_COOKIE, g.tun.hs.params.staticPublic])
  }

  /** Taking the cookie changes nothing else of the handshake. */
  lemma CookieTaken(a: Tunn, m: Message)
    requires m.CookieReply? && ReceiveCookieReply(a.hs, m).1.Ok?
    ensures var (a', r) := HandleCookieReply(a, m);
            && r == Done && a'.hs == ReceiveCookieReply(a.hs, m).0
            && a'.hs == a.hs.(cookies := a'.hs.cookies)
  {
    hide Tick;
    var t := a.(hs := ReceiveCookieReply(a.hs, m).0);
    TickKeeps(t, LAST_PACKET_RECEIVED);
    TickKeeps(Tick(t, LAST_PACKET_RECEIVED), COOKIE_RECEIVED);
  }

  lemma ResendIs(a: Tunn, env: Env, force: bool)
    requires (force || !IsInProgress(a.hs)) && env.dstLen >= HANDSHAKE_INIT_SZ
    ensures var (hs', m) := FormatInitiation(a.hs, env.dstLen, env.e, env.stamp, env.now);
            var (a', r) := FormatHandshake(a, env, force);
            m.Ok? && r == ToNetwork(m.value) && a'.hs == hs' && m.value.Initiation?
  {
    hide FormatInitiation, Tick;
    InitiationEffect(a.hs, env);
    var (hs', m) := FormatInitiation(a.hs, env.dstLen, env.e, env.stamp, env.now);
    var t: Tunn := (if a.hs.state.Expired? then ClearTimers(a, env.now) else a).(hs := hs');
    TickKeeps(t, LAST_HANDSHAKE_STARTED);
    TickKeeps(t, LAST_PACKET_SENT);
    TickKeeps(Tick(t, LAST_HANDSHAKE_STARTED), LAST_PACKET_SENT);
  }

  /** The initiation formatted next is one message closed with the MACs the sender now has. */
  function Opening(v: View, env: Env): (m: Message)
    ensures m.Initiation?
  {
    var t := InitiationTranscript(v.params, env.e, env.stamp);
    TranscriptShape(v.params, env.e, env.stamp);
    Initiation(NextIndex(v.nextIndex), t.sent[0], t.sent[1], t.sent[2], Zeros, Zeros)
  }

  lemma FormattedIsClosed(v: View, env: Env)
    requires env.dstLen >= HANDSHAKE_INIT_SZ
    ensures FormatInitiation(v, env.dstLen, env.e, env.stamp, env.now).1 == Ok(CloseWithMacs(v, Opening(v, env)))
  {}

  lemma Admitted(g: Gate, src: Option<Term>, m: Message, env: Env, reading: nat)
    requires g.limiter.startTime <= reading && m.Initiation?
    requires RL.Verify(g.limiter, src, m, reading).1.Pass?
    requires ReceiveInitiation(g.tun.hs, m, env.dstLen, env.e).1.Ok?
    ensures var (g', r) := Decapsulate(g, src, Carrying(m, 0), env, reading);
            var (answer, s) := ReceiveInitiation(g.tun.hs, m, env.dstLen, env.e).1.value;
            r == ToNetwork(answer) && g'.tun.sessions[Slot(s.receivingIndex)] == Some(s)
  {
    hide RL.Verify, ReceiveInitiation, Tick;
    var (hs', ok) := ReceiveInitiation(g.tun.hs, m, env.dstLen, env.e);
    SL.InstallHolds(g.tun.(hs := hs'), ok.value.1);
    Stored(g.tun.(hs := hs'), ok.value.1);
  }

  lemma Stored(t: Tunn, s: Session)
    ensures InstallAsResponder(t, s).sessions[Slot(s.receivingIndex)] == Some(s)
  {}

  /** Cookie reply, repeated initiation, response: the load at the second attempt is arbitrary. */
  ghost predicate CookieThenConnects(a: Tunn, g: Gate, m: Message, addr: Term, reading: nat, reading': nat, load: nat,
                                     envG: Env, envA: Env, envG': Env)
    requires g.limiter.startTime <= reading && g.limiter.startTime <= reading'
  {
    var (g1, r1) := Decapsulate(g, Some(addr), Carrying(m, 0), envG, reading);
    && r1.ToNetwork? && r1.m.CookieReply? && g1.tun == g.tun
    && var (a1, r2) := HandleCookieReply(a, r1.m);
       var (a2, r3) := FormatHandshake(a1, envA, true);
       && r2 == Done && r3.ToNetwork? && r3.m.Initiation? && g1.limiter.startTime <= reading'
       && var (g2, r4) := Decapsulate(g1.(limiter := g1.limiter.(count := load)), Some(addr), Carrying(r3.m, 0), envG', reading');
          && r4.ToNetwork? && r4.m.Response?
          && var sa := ReceiveResponse(a2.hs, r4.m).1;
             && sa.Ok?
             && var sb := g2.tun.sessions[Slot(sa.value.sendingIndex)];
                sb.Some? && HT.Crossed(sa.value, sb.value)
  }

  lemma CookieCompletes(a: Tunn, g: Gate, m: Message, addr: Term, reading: nat, reading': nat, load: nat,
                        envG: Env, envA: Env, envG': Env)
    requires Coherent(a.hs.params) && Coherent(g.tun.hs.params) && Belongs(g)
    requires HT.Matched(a.hs.params, g.tun.hs.params) && After(envA.stamp, g.tun.hs.lastTimestamp)
    requires RL.LastSent(a.hs, m) && m.Initiation?
    requires g.limiter.startTime <= reading && g.limiter.startTime <= reading'
    requires RL.Verify(g.limiter, Some(addr), m, reading).1.Reply?
    requires RL.Epoch(g.limiter, reading) == RL.Epoch(g.limiter, reading')
    requires envA.dstLen >= HANDSHAKE_INIT_SZ && envG'.dstLen >= HANDSHAKE_RESP_SZ
    ensures CookieThenConnects(a, g, m, addr, reading, reading', load, envG, envA, envG')
  {
    hide FormatInitiation, ReceiveInitiation, ReceiveResponse, FormatHandshake, HandleVerified, HandleCookieReply,
         ReceiveCookieReply, HT.Matched, RL.LastSent, CloseWithMacs, InitiationTranscript, After, Opening;
    var g1 := Decapsulate(g, Some(addr), Carrying(m, 0), envG, reading).0;
    var reply := RL.Verify(g.limiter, Some(addr), m, reading).1.cookie;
    PeerKey(a.hs.params, g.tun.hs.params);
    var l' := g1.limiter.(count := load);
    var hs1 := ReceiveCookieReply(a.hs, reply).0;
    RL.CookieExchange(g.limiter, a.hs, m, addr, reading, l', Opening(hs1, envA), reading');
    CookieTaken(a, reply);
    var a1 := HandleCookieReply(a, reply).0;
    ResendIs(a1, envA, true);
    FormattedIsClosed(a1.hs, envA);
    var m' := CloseWithMacs(hs1, Opening(hs1, envA));
    assert RL.Verify(l', Some(addr), m', reading').1.Pass?;
    HT.HandshakeAgreement(a1.hs, g.tun.hs, envA.e, envG'.e, envA.stamp, envA.now, envA.dstLen, envG'.dstLen);
    SL.ReceiveInitiationEffect(g.tun.hs, m', envG');
    Admitted(g1.(limiter := l'), Some(addr), m', envG', reading');
  }

  /**
    A loaded responder answers a tunnel's initiation with a cookie and keeps its own state; the
    initiator takes the cookie and repeats; in the same cookie epoch, and with any load, the repetition
    is let through from the same address, and its answer completes the handshake with crossed keys.
  */
  lemma ConnectsUnderLoad(a: Tunn, g: Gate, addr: Term, reading: nat, reading': nat, load: nat, force: bool,
                          env: Env, envG: Env, envA: Env, envG': Env)
    requires Coherent(a.hs.params) && Coherent(g.tun.hs.params) && Belongs(g)
    requires HT.Matched(a.hs.params, g.tun.hs.params) && After(envA.stamp, g.tun.hs.lastTimestamp)
    requires g.limiter.startTime <= reading && g.limiter.startTime <= reading'
    requires g.limiter.count >= g.limiter.limit && a.hs.cookies.writeCookie != Some(RL.CookieFor(g.limiter, addr, reading))
    requires RL.Epoch(g.limiter, reading) == RL.Epoch(g.limiter, reading')
    requires (force || !IsInProgress(a.hs)) && env.dstLen >= HANDSHAKE_INIT_SZ
    requires envA.dstLen >= HANDSHAKE_INIT_SZ && envG'.dstLen >= HANDSHAKE_RESP_SZ
    ensures var (a1, r) := FormatHandshake(a, env, force);
            && r.ToNetwork? && r.m.Initiation?
            && CookieThenConnects(a1, g, r.m, addr, reading, reading', load, envG, envA, envG')
  {
    hide FormatInitiation, FormatHandshake, CookieThenConnects, HT.Matched, After, RL.Verify, CloseWithMacs, Opening, RL.LastSent;
    ResendIs(a, env, force);
    var (a1, r) := FormatHandshake(a, env, force);
    FormattedIsClosed(a.hs, env);
    RL.FormattingSetsLastSent(a.hs, env.dstLen, env.e, env.stamp, env.now);
    FormatKeeps(a.hs, env);
    PeerKey(a.hs.params, g.tun.hs.params);
    ClosedIsAnswered(g.limiter, a.hs, Opening(a.hs, env), addr, reading);
    CookieCompletes(a1, g, r.m, addr, reading, reading', load, envG, envA, envG');
  }

  /** A loaded limiter answers a message closed without the cookie it would give now. */
  lemma ClosedIsAnswered(l: RL.Limiter, v: View, m: Message, addr: Term, reading: nat)
    requires Coherent(v.params) && l.startTime <= reading && l.count >= l.limit && IsHandshake(m)
    requires l.mac1Key == Hash([LABEL_MAC1, v.params.peerStaticPublic])
    requires v.cookies.writeCookie != Some(RL.CookieFor(l, addr, reading))
    ensures RL.Verify(l, Some(addr), CloseWithMacs(v, m), reading).1.Reply?
  {
    hide RL.CookieFor;
    assert Body(CloseWithMacs(v, m)) == Body(m);
  }

  lemma PeerKey(i: Params, r: Params)
    requires HT.Matched(i, r)
    ensures i.peerStaticPublic == r.staticPublic
  {}
}

module Gateways {
  import opened Basics
  import opened Constants
  import opened Crypto
  import opened HandshakeSpec
  import opened TunnelSpec
  import opened ReplaySpec
  import RL = RateLimiterSpec
  import RateLimiting
  import Tunnels
  import TunnelRuns
  import Gates

  /** A tunnel with its limiter, which it may share with other tunnels; one of its own it resets itself. */
  class Gateway {
    const tun: Tunnels.Tunn
    var limiter: RateLimiting.RateLimiter
    var own: bool

    ghost predicate Valid()
      reads this, tun
    {
      tun.Valid() && limiter !in tun.Repr && this !in tun.Repr
    }

    ghost function G(): (g: Gates.Gate)
      requires Valid()
      reads this, tun, tun.Repr, limiter
    {
      Gates.Gate(tun.V(), limiter.L())
    }

    constructor (staticPrivate: nat, peerStaticPublic: Term, presharedKey: Option<Term>, keepalive: nat, index: nat,
                 shared: RateLimiting.RateLimiter?, nonceKey: Term, secretKey: Term, reading: nat)
      ensures Valid() && own == (shared == null) && fresh(tun.Repr)
      ensures shared == null ==>
                && fresh(limiter) && Gates.Belongs(G())
                && G().limiter == RL.NewLimiter(PublicKey(staticPrivate), nonceKey, secretKey, PEER_HANDSHAKE_RATE_LIMIT, reading)
      ensures shared != null ==> limiter == shared && unchanged(shared)
      ensures G().tun == NewTunnel(NewParams(staticPrivate, peerStaticPublic, presharedKey), index, keepalive)
    {
      tun := new Tunnels.Tunn(staticPrivate, peerStaticPublic, presharedKey, keepalive, index);
      own := shared == null;
      if shared == null {
        limiter := new RateLimiting.RateLimiter(PublicKey(staticPrivate), nonceKey, secretKey,
                                                PEER_HANDSHAKE_RATE_LIMIT, reading);
      } else {
        limiter := shared;
      }
    }

    /** A new private key drops the sessions, and with them the limiter that was made for the old key. */
    method SetStaticPrivate(key: nat, shared: RateLimiting.RateLimiter?, nonceKey: Term, secretKey: Term, reading: nat)
      requires Valid() && (shared != null ==> shared !in tun.Repr)
      modifies this, tun.Repr
      ensures Valid() && own == (shared == null)
      ensures G().tun == ChangeKey(old(tun.V()), key)
      ensures shared == null ==>
                && fresh(limiter) && Gates.Belongs(G())
                && G().limiter == RL.NewLimiter(PublicKey(key), nonceKey, secretKey, PEER_HANDSHAKE_RATE_LIMIT, reading)
      ensures shared != null ==> limiter == shared
    {
      own := shared == null;
      if shared == null {
        limiter := new RateLimiting.RateLimiter(PublicKey(key), nonceKey, secretKey, PEER_HANDSHAKE_RATE_LIMIT, reading);
      } else {
        limiter := shared;
      }
      tun.SetStaticPrivate(key);
    }

    method UpdateTimers(env: Env, ghost clock: nat, reading: nat) returns (r: Outcome)
      requires Valid() && TunnelRuns.Inv(tun.V(), clock) && clock <= env.now && limiter.lastReset <= reading
      requires Tunnels.Writes(TunnelSpec.UpdateTimers(tun.V(), env).1) ==> env.dstLen >= DATA_OVERHEAD_SZ
      modifies tun.Repr, limiter
      ensures Valid() && (G(), r) == Gates.Update(old(G()), own, env, reading)
    {
      hide TunnelSpec.UpdateTimers, TunnelRuns.Inv, RL.Reset;
      ghost var before := tun.V();
      if own { limiter.ResetCount(reading); }
      assert tun.V() == before;
      r := tun.UpdateTimers(env, clock);
    }

    method Decapsulate(src: Option<Term>, d: Gates.Datagram, env: Env, reading: nat) returns (r: Outcome)
      requires Valid() && limiter.startTime <= reading
      requires d.Empty? && tun.packetQueue != [] && tun.sessions[Slot(tun.current)].Some? ==>
                 env.dstLen >= |tun.packetQueue[0]| + DATA_OVERHEAD_SZ
      requires d.Carrying? && RL.Verify(limiter.L(), src, d.m, reading).1.Reply? ==> env.dstLen >= COOKIE_REPLY_SZ
      requires d.Carrying? && d.m.Response? && ReceiveResponse(tun.handshake.V(), d.m).1.Ok? ==> env.dstLen >= DATA_OVERHEAD_SZ
      requires d.Carrying? && d.m.Data? ==>
                 d.m.counter < COUNTER_LIMIT && (tun.sessions[Slot(d.m.receiverIdx)].Some? ==> d.cipherLen <= env.dstLen)
      modifies tun.Repr, limiter
      ensures Valid() && (G(), r) == Gates.Decapsulate(old(G()), src, d, env, reading)
    {
      hide SendQueued, HandleVerified, RL.Verify;
      match d {
        case Empty => r := tun.SendQueuedPacket(env);
        case Malformed => r := Fail(InvalidPacket);
        case Carrying(m, cipherLen) =>
          ghost var before := tun.V();
          var v := limiter.VerifyPacket(src, m, reading);
          assert tun.V() == before;
          match v {
            case Refuse(e) => r := Fail(e);
            case Reply(cookie) => r := ToNetwork(cookie);
            case Pass => r := tun.HandleVerifiedPacket(m, env, cipherLen);
          }
      }
    }
  }
}
