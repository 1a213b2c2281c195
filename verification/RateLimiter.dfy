/** The handshake rate limiter and its cookies, together with the client half in the handshake. */
module RateLimiterSpec {
  import opened Basics
  import opened Constants
  import opened Crypto
  import opened HandshakeSpec

  const COOKIE_REFRESH: nat := 128
  const RESET_PERIOD: nat := 1

  datatype Limiter = Limiter(
    nonceKey: Term, secretKey: Term, startTime: nat, nonceCtr: nat, mac1Key: Term, cookieKey: Term,
    limit: nat, count: nat, lastReset: nat)

  datatype Verdict = Pass | Refuse(error: WireGuardError) | Reply(cookie: Message)

  function NewLimiter(publicKey: Term, nonceKey: Term, secretKey: Term, limit: nat, now: nat): (l: Limiter) {
    Limiter(nonceKey, secretKey, now, 0, Hash([LABEL_MAC1, publicKey]), Hash([LABEL_COOKIE, publicKey]), limit, 0, now)
  }

  /** The secret behind the cookies changes with this number. */
  function Epoch(l: Limiter, now: nat): (n: nat)
    requires l.startTime <= now
  {
    (now - l.startTime) / SECOND / COOKIE_REFRESH
  }

  function CookieFor(l: Limiter, addr: Term, now: nat): (c: Term)
    requires l.startTime <= now
  {
    Mac(l.secretKey, [Number(Epoch(l, now)), addr])
  }

  function ReplyFor(l: Limiter, m: Message, cookie: Term): (r: Message)
    requires IsHandshake(m)
  {
    var nonce := Mac(l.nonceKey, [Number(l.nonceCtr)]);
    CookieReply(m.senderIdx, nonce, Seal(l.cookieKey, nonce, [cookie], [m.mac1]))
  }

  predicate Mac1Ok(l: Limiter, m: Message)
    requires IsHandshake(m)
  {
    m.mac1 == Mac(l.mac1Key, Body(m))
  }

  function Verify(l: Limiter, src: Option<Term>, m: Message, now: nat): (r: (Limiter, Verdict))
    requires l.startTime <= now
  {
    if !IsHandshake(m) then (l, Pass)
    else if !Mac1Ok(l, m) then (l, Refuse(InvalidMac))
    else
      var l' := l.(count := l.count + 1);
      if l.count < l.limit then (l', Pass)
      else if src.None? then (l', Refuse(UnderLoad))
      else
        var cookie := CookieFor(l, src.value, now);
        if m.mac2 == Mac(cookie, Body(m) + [m.mac1]) then (l', Pass)
        else (l'.(nonceCtr := l.nonceCtr + 1), Reply(ReplyFor(l, m, cookie)))
  }

  function Reset(l: Limiter, now: nat): (r: Limiter)
    requires l.lastReset <= now
  {
    if (now - l.lastReset) / SECOND >= RESET_PERIOD then l.(count := 0, lastReset := now) else l
  }

  // What one message is met with.

  /** A handshake message whose first MAC is not the one over its body under the limiter's key is refused
      as such and leaves the limiter as it was, from whatever source and however loaded; the MAC is the
      first thing looked at. */
  lemma WrongMac1Refused(l: Limiter, src: Option<Term>, m: Message, now: nat)
    requires l.startTime <= now && IsHandshake(m)
    ensures m.mac1 != Mac(l.mac1Key, Body(m)) <==> Verify(l, src, m, now).1 == Refuse(InvalidMac)
    ensures m.mac1 != Mac(l.mac1Key, Body(m)) ==> Verify(l, src, m, now).0 == l
  {}

  /** A limiter of one public key refuses exactly the messages that were closed for another key. */
  lemma ClosedForThisKeyIff(l: Limiter, key: Term, v: View, m: Message, src: Option<Term>, now: nat)
    requires l.startTime <= now && IsHandshake(m) && Coherent(v.params)
    requires l.mac1Key == Hash([LABEL_MAC1, key])
    ensures Verify(l, src, CloseWithMacs(v, m), now).1 == Refuse(InvalidMac) <==> v.params.peerStaticPublic != key
    ensures v.params.peerStaticPublic != key ==> Verify(l, src, CloseWithMacs(v, m), now).0 == l
  {
    var closed := CloseWithMacs(v, m);
    assert Body(closed) == Body(m);
    WrongMac1Refused(l, src, closed, now);
    assert [LABEL_MAC1, v.params.peerStaticPublic][1] == v.params.peerStaticPublic && [LABEL_MAC1, key][1] == key;
  }

  lemma NewLimiterKey(publicKey: Term, nonceKey: Term, secretKey: Term, limit: nat, now: nat)
    ensures NewLimiter(publicKey, nonceKey, secretKey, limit, now).mac1Key == Hash([LABEL_MAC1, publicKey])
  {}

  /** A message with the right first MAC passes exactly when the limit is not reached or it brings the
      cookie of its address for the current stretch of 128 s; under load without a source it is dropped,
      and with a source and no such cookie it is answered with one. It is counted in every case. */
  lemma RightMac1Exactly(l: Limiter, src: Option<Term>, m: Message, now: nat)
    requires l.startTime <= now && IsHandshake(m) && m.mac1 == Mac(l.mac1Key, Body(m))
    ensures var (l', v) := Verify(l, src, m, now);
            var stretch := Number((now - l.startTime) / (128 * SECOND));
            && l'.count == l.count + 1
            && (v == Pass <==> || l.count < l.limit
                               || (src.Some? && m.mac2 == Mac(Mac(l.secretKey, [stretch, src.value]), Body(m) + [m.mac1])))
            && (v == Refuse(UnderLoad) <==> l.count >= l.limit && src.None?)
            && (v.Reply? ==>
                  && src.Some? && l'.nonceCtr == l.nonceCtr + 1
                  && var nonce := Mac(l.nonceKey, [Number(l.nonceCtr)]);
                     var sealed := Seal(l.cookieKey, nonce, [Mac(l.secretKey, [stretch, src.value])], [m.mac1]);
                     v.cookie == CookieReply(m.senderIdx, nonce, sealed))
  {
    Stretches(now - l.startTime);
  }

  lemma Stretches(d: nat)
    ensures d / SECOND / 128 == d / (128 * SECOND)
  {
    var n := 128 * SECOND;
    var q, r := d / n, d % n;
    assert d == SECOND * (128 * q) + r;
    assert d / SECOND == 128 * q + r / SECOND;
    assert r / SECOND < 128;
  }

  /** Other messages are not its business. */
  lemma OthersPass(l: Limiter, src: Option<Term>, m: Message, now: nat)
    requires l.startTime <= now && !IsHandshake(m)
    ensures Verify(l, src, m, now) == (l, Pass)
  {}

  // The cookie exchange.

  /** This was the last handshake message the sender closed with its MACs. */
  predicate LastSent(v: View, m: Message) {
    IsHandshake(m) && v.cookies.lastMac1 == Some(m.mac1) && v.cookies.index == m.senderIdx
    && m.mac1 == Mac(v.params.sendingMac1Key, Body(m))
  }

  lemma FormattingSetsLastSent(v: View, len: nat, e: nat, stamp: Tai64N, now: nat)
    ensures FormatInitiation(v, len, e, stamp, now).1.Ok? ==>
              LastSent(FormatInitiation(v, len, e, stamp, now).0, FormatInitiation(v, len, e, stamp, now).1.value)
    ensures v.state.InitReceived? && FormatResponse(v, len, e).1.Ok? ==>
              LastSent(FormatResponse(v, len, e).0, FormatResponse(v, len, e).1.value.0)
  {
    hide InitiationTranscript, ResponseTranscript;
  }

  /** A loaded limiter answers a message with a cookie; its sender takes the cookie, and from then on
      whatever handshake message it closes passes a loaded limiter from the same address exactly while
      the cookie epoch lasts. */
  lemma CookieExchange(l: Limiter, v: View, m: Message, addr: Term, now: nat, l': Limiter, next: Message, now': nat)
    requires Coherent(v.params) && LastSent(v, m)
    requires l.startTime <= now && l'.startTime <= now'
    requires l.cookieKey == Hash([LABEL_COOKIE, v.params.peerStaticPublic])
    requires Verify(l, Some(addr), m, now).1.Reply?
    requires (l'.secretKey, l'.startTime, l'.mac1Key) == (l.secretKey, l.startTime, Hash([LABEL_MAC1, v.params.peerStaticPublic]))
    requires IsHandshake(next)
    ensures var (v', r) := ReceiveCookieReply(v, Verify(l, Some(addr), m, now).1.cookie);
            && r.Ok?
            && v'.cookies.writeCookie == Some(CookieFor(l, addr, now))
            && var closed := CloseWithMacs(v', next);
               Verify(l', Some(addr), closed, now').1.Pass? <==>
                 l'.count < l'.limit || Epoch(l', now') == Epoch(l, now)
  {
    var reply := Verify(l, Some(addr), m, now).1.cookie;
    var cookie := CookieFor(l, addr, now);
    OpenIffSealed(l.cookieKey, reply.nonce, reply.encCookie, [m.mac1], [cookie]);
    var (v', r) := ReceiveCookieReply(v, reply);
    var closed := CloseWithMacs(v', next);
    assert Body(closed) == Body(next);
    var cookie' := CookieFor(l', addr, now');
    assert cookie == cookie' <==> [Number(Epoch(l, now)), addr][0] == [Number(Epoch(l', now')), addr][0];
    assert closed.mac2 == Mac(cookie, Body(next) + [closed.mac1]);
  }

  // The limit.

  function VerifyAll(l: Limiter, ms: seq<Message>, now: nat): (l': Limiter)
    requires l.startTime <= now
    decreases |ms|
  {
    if ms == [] then l else VerifyAll(Verify(l, None, ms[0], now).0, ms[1..], now)
  }

  /** How many handshake messages pass, and how many carry the right first MAC. */
  function Passed(l: Limiter, ms: seq<Message>, now: nat): (n: nat)
    requires l.startTime <= now
    decreases |ms|
  {
    if ms == [] then 0 else
      (if IsHandshake(ms[0]) && Verify(l, None, ms[0], now).1.Pass? then 1 else 0)
      + Passed(Verify(l, None, ms[0], now).0, ms[1..], now)
  }

  function WithGoodMac1(l: Limiter, ms: seq<Message>): (n: nat)
    decreases |ms|
  {
    if ms == [] then 0 else
      (if IsHandshake(ms[0]) && ms[0].mac1 == Mac(l.mac1Key, Body(ms[0])) then 1 else 0) + WithGoodMac1(l, ms[1..])
  }

  function Min(a: int, b: int): (m: int) {
    if a < b then a else b
  }

  lemma {:induction false} GoodMac1SameKey(l: Limiter, l': Limiter, ms: seq<Message>)
    requires l.mac1Key == l'.mac1Key
    ensures WithGoodMac1(l, ms) == WithGoodMac1(l', ms)
    decreases |ms|
  {
    if ms != [] { GoodMac1SameKey(l, l', ms[1..]); }
  }

  /** Without source addresses, between two resets, exactly the first `limit` handshake messages with a
      good first MAC pass and every other one is dropped. */
  lemma {:induction false} LimitHolds(l: Limiter, ms: seq<Message>, now: nat)
    requires l.startTime <= now
    ensures Passed(l, ms, now) == Min(if l.count < l.limit then l.limit - l.count else 0, WithGoodMac1(l, ms))
    ensures VerifyAll(l, ms, now).count == l.count + WithGoodMac1(l, ms)
    decreases |ms|
  {
    if ms != [] {
      var l' := Verify(l, None, ms[0], now).0;
      LimitHolds(l', ms[1..], now);
      GoodMac1SameKey(l, l', ms[1..]);
    }
  }

  // Resets.

  /** After a whole second the limit is restored: of the messages that come next, as many as the limit pass. */
  lemma LimitRestored(l: Limiter, ms: seq<Message>, now: nat)
    requires l.startTime <= now && l.lastReset <= now
    ensures now >= l.lastReset + SECOND ==> Passed(Reset(l, now), ms, now) == Min(l.limit, WithGoodMac1(l, ms))
    ensures now >= l.lastReset + SECOND ==> Reset(l, now).lastReset == now
    ensures now < l.lastReset + SECOND ==> Reset(l, now) == l
  {
    assert (now - l.lastReset) / SECOND >= 1 <==> now - l.lastReset >= SECOND;
    LimitHolds(Reset(l, now), ms, now);
    GoodMac1SameKey(l, Reset(l, now), ms);
  }

  /** A message without a source address, or the chance to reset, each with its clock reading. */
  datatype Event = Arrival(m: Message, now: nat) | Chance(now: nat)

  ghost predicate ClockRuns(clock: nat, evs: seq<Event>)
    decreases |evs|
  {
    evs == [] || (clock <= evs[0].now && ClockRuns(evs[0].now, evs[1..]))
  }

  function LastReading(clock: nat, evs: seq<Event>): (now: nat)
    decreases |evs|
  {
    if evs == [] then clock else LastReading(evs[0].now, evs[1..])
  }

  /** How many handshake messages pass over a run. */
  function PassedOver(l: Limiter, clock: nat, evs: seq<Event>): (n: nat)
    requires l.startTime <= clock && l.lastReset <= clock && ClockRuns(clock, evs)
    decreases |evs|
  {
    if evs == [] then 0
    else
      match evs[0]
      case Arrival(m, now) =>
        (if IsHandshake(m) && Verify(l, None, m, now).1.Pass? then 1 else 0)
        + PassedOver(Verify(l, None, m, now).0, now, evs[1..])
      case Chance(now) => PassedOver(Reset(l, now), now, evs[1..])
  }

  function Seconds(from: nat, to: nat): (n: nat)
    requires from <= to
  {
    (to - from) / SECOND
  }

  /** What is left before the next reset. */
  function Left(l: Limiter): (n: nat) {
    if l.count < l.limit then l.limit - l.count else 0
  }

  lemma {:induction false} LaterReading(clock: nat, evs: seq<Event>)
    requires ClockRuns(clock, evs)
    ensures clock <= LastReading(clock, evs)
    decreases |evs|
  {
    if evs != [] { LaterReading(evs[0].now, evs[1..]); }
  }

  lemma WholeSecond(a: nat, b: nat, c: nat)
    requires a <= b <= c && (b - a) / SECOND >= 1
    ensures Seconds(a, c) >= Seconds(b, c) + 1
  {
    assert c - a >= (c - b) + SECOND;
    assert ((c - b) + SECOND) / SECOND == (c - b) / SECOND + 1;
  }

  lemma MoreSeconds(limit: nat, m: nat, n: nat)
    requires m >= n
    ensures limit * m >= limit * n
  {
    assert limit * m == limit * n + limit * (m - n);
  }

  lemma ArrivalEffect(l: Limiter, m: Message, now: nat)
    requires l.startTime <= now
    ensures var (l', v) := Verify(l, None, m, now);
            && (l'.limit, l'.lastReset, l'.startTime) == (l.limit, l.lastReset, l.startTime)
            && Left(l) >= Left(l') + if IsHandshake(m) && v.Pass? then 1 else 0
  {}

  lemma ResetEffect(l: Limiter, now: nat, last: nat)
    requires l.lastReset <= now <= last
    ensures var l' := Reset(l, now);
            && (l'.limit, l'.startTime) == (l.limit, l.startTime) && l'.lastReset <= now
            && Left(l) + l.limit * Seconds(l.lastReset, last) >= Left(l') + l'.limit * Seconds(l'.lastReset, last)
  {
    hide Seconds;
    if (now - l.lastReset) / SECOND >= RESET_PERIOD {
      WholeSecond(l.lastReset, now, last);
      MoreSeconds(l.limit, Seconds(l.lastReset, last), Seconds(now, last) + 1);
      assert l.limit * (Seconds(now, last) + 1) == l.limit * Seconds(now, last) + l.limit;
    }
  }

  /** Over every run of messages without source addresses and of resets, with a clock that does not go
      back, what passes is at most what is left now and the limit once more for every whole second since
      the last reset. */
  lemma {:induction false} LimitOverTime(l: Limiter, clock: nat, evs: seq<Event>)
    requires l.startTime <= clock && l.lastReset <= clock && ClockRuns(clock, evs)
    ensures l.lastReset <= LastReading(clock, evs)
    ensures PassedOver(l, clock, evs) <= Left(l) + l.limit * Seconds(l.lastReset, LastReading(clock, evs))
    decreases |evs|
  {
    hide Seconds, Verify, Reset, Left;
    LaterReading(clock, evs);
    if evs == [] {
      var n := Seconds(l.lastReset, clock);
      assert l.limit * n >= 0;
    } else {
      var now, rest := evs[0].now, evs[1..];
      LaterReading(now, rest);
      if evs[0].Arrival? {
        ArrivalEffect(l, evs[0].m, now);
        LimitOverTime(Verify(l, None, evs[0].m, now).0, now, rest);
      } else {
        ResetEffect(l, now, LastReading(now, rest));
        LimitOverTime(Reset(l, now), now, rest);
      }
    }
  }

  /** From a new limiter: at most the limit for every second begun. */
  lemma LimitPerSecond(publicKey: Term, nonceKey: Term, secretKey: Term, limit: nat, start: nat, evs: seq<Event>)
    requires ClockRuns(start, evs)
    ensures start <= LastReading(start, evs)
    ensures PassedOver(NewLimiter(publicKey, nonceKey, secretKey, limit, start), start, evs)
            <= limit * (Seconds(start, LastReading(start, evs)) + 1)
  {
    LimitOverTime(NewLimiter(publicKey, nonceKey, secretKey, limit, start), start, evs);
  }
}

module RateLimiting {
  import opened Basics
  import opened Constants
  import opened Crypto
  import opened HandshakeSpec
  import opened RateLimiterSpec

  class RateLimiter {
    const nonceKey: Term
    const secretKey: Term
    const startTime: nat
    const mac1Key: Term
    const cookieKey: Term
    const limit: nat
    var nonceCtr: nat
    var count: nat
    var lastReset: nat

    ghost function L(): (l: Limiter)
      reads this
    {
      Limiter(nonceKey, secretKey, startTime, nonceCtr, mac1Key, cookieKey, limit, count, lastReset)
    }

    constructor (publicKey: Term, nonceKey: Term, secretKey: Term, limit: nat, now: nat)
      ensures L() == NewLimiter(publicKey, nonceKey, secretKey, limit, now)
    {
      this.nonceKey, this.secretKey, this.limit := nonceKey, secretKey, limit;
      startTime, lastReset, nonceCtr, count := now, now, 0, 0;
      mac1Key, cookieKey := Hash([LABEL_MAC1, publicKey]), Hash([LABEL_COOKIE, publicKey]);
    }

    method ResetCount(now: nat)
      requires lastReset <= now
      modifies this
      ensures L() == Reset(old(L()), now)
    {
      if (now - lastReset) / SECOND >= RESET_PERIOD {
        count := 0;
        lastReset := now;
      }
    }

    method NextNonce() returns (nonce: Term)
      modifies this
      ensures nonce == Mac(nonceKey, [Number(old(nonceCtr))])
      ensures L() == old(L()).(nonceCtr := old(nonceCtr) + 1)
    {
      nonce := Mac(nonceKey, [Number(nonceCtr)]);
      nonceCtr := nonceCtr + 1;
    }

    method IsUnderLoad() returns (loaded: bool)
      modifies this
      ensures loaded <==> old(count) >= limit
      ensures L() == old(L()).(count := old(count) + 1)
    {
      loaded := count >= limit;
      count := count + 1;
    }

    method FormatCookieReply(idx: nat, cookie: Term, mac1: Term, dstLen: nat) returns (r: Result<Message>)
      modifies this
      ensures dstLen < COOKIE_REPLY_SZ ==> r == Err(DestinationBufferTooSmall) && L() == old(L())
      ensures dstLen >= COOKIE_REPLY_SZ ==>
                && L() == old(L()).(nonceCtr := old(nonceCtr) + 1)
                && var nonce := Mac(nonceKey, [Number(old(nonceCtr))]);
                   r == Ok(CookieReply(idx, nonce, Seal(cookieKey, nonce, [cookie], [mac1])))
    {
      if dstLen < COOKIE_REPLY_SZ { return Err(DestinationBufferTooSmall); }
      var nonce := NextNonce();
      r := Ok(CookieReply(idx, nonce, Seal(cookieKey, nonce, [cookie], [mac1])));
    }

    /** The reply goes to a buffer that is exactly as long as a cookie reply. */
    method VerifyPacket(src: Option<Term>, m: Message, now: nat) returns (v: RateLimiterSpec.Verdict)
      requires startTime <= now
      modifies this
      ensures (L(), v) == Verify(old(L()), src, m, now)
    {
      if m.Initiation? || m.Response? {
        var computedMac1 := Mac(mac1Key, Body(m));
        if computedMac1 != m.mac1 { return Refuse(InvalidMac); }
        var loaded := IsUnderLoad();
        if loaded {
          if src.None? { return Refuse(UnderLoad); }
          var cookie := Mac(secretKey, [Number((now - startTime) / SECOND / COOKIE_REFRESH), src.value]);
          var computedMac2 := Mac(cookie, Body(m) + [m.mac1]);
          if computedMac2 != m.mac2 {
            var reply := FormatCookieReply(m.senderIdx, cookie, m.mac1, COOKIE_REPLY_SZ);
            return Reply(reply.value);
          }
        }
      }
      v := Pass;
    }
  }
}
