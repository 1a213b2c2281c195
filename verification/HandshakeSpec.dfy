/** What each operation of a WireGuard handshake does to the handshake's state, stated through the
    Noise reference: a message is accepted exactly when it is what the expected peer would write. */
module HandshakeSpec {
  import opened Basics
  import opened Constants
  import opened Crypto
  import opened Noise
  import opened ReplaySpec

  const HANDSHAKE_INIT: nat := 1
  const HANDSHAKE_RESP: nat := 2
  const LABEL_MAC1 := Label("mac1----")
  const LABEL_COOKIE := Label("cookie--")

  datatype WireGuardError =
    | DestinationBufferTooSmall | UnexpectedPacket | WrongIndex | WrongKey | WrongTai64nTimestamp
    | InvalidMac | InvalidAeadTag | CounterRefused(verdict: Verdict) | InvalidPacket
    | NoCurrentSession | ConnectionExpired | UnderLoad

  datatype Result<+T> = Ok(value: T) | Err(error: WireGuardError)

  // Messages. The MAC fields close each handshake message.

  datatype Message =
    | Initiation(senderIdx: nat, ephemeral: Term, encStatic: Term, encStamp: Term, mac1: Term, mac2: Term)
    | Response(senderIdx: nat, receiverIdx: nat, ephemeral: Term, encNothing: Term, mac1: Term, mac2: Term)
    | CookieReply(receiverIdx: nat, nonce: Term, encCookie: Term)
    | Data(receiverIdx: nat, counter: nat, body: Term)

  predicate IsHandshake(m: Message) {
    m.Initiation? || m.Response?
  }

  /** The bytes of a handshake message before its MAC fields. */
  function Body(m: Message): (parts: seq<Term>)
    requires IsHandshake(m)
  {
    match m
    case Initiation(idx, e, encStatic, encStamp, _, _) =>
      [Number(HANDSHAKE_INIT), Number(idx), e, encStatic, encStamp]
    case Response(idx, ridx, e, encNothing, _, _) =>
      [Number(HANDSHAKE_RESP), Number(idx), Number(ridx), e, encNothing]
  }

  // Sessions.

  datatype Session = Session(
    receivingIndex: nat, sendingIndex: nat, receivingKey: Term, sendingKey: Term,
    sendingKeyCounter: nat, window: Window)

  function NewSession(local: nat, peer: nat, receivingKey: Term, sendingKey: Term): (s: Session) {
    Session(local, peer, receivingKey, sendingKey, 0, EMPTY)
  }

  // Handshake state.

  datatype Tai64N = Tai64N(secs: nat, nano: nat)

  predicate After(a: Tai64N, b: Tai64N) {
    a.secs > b.secs || (a.secs == b.secs && a.nano > b.nano)
  }

  datatype Params = Params(
    staticPrivate: nat, staticPublic: Term, peerStaticPublic: Term, staticShared: Term,
    sendingMac1Key: Term, presharedKey: Option<Term>)

  function NewParams(staticPrivate: nat, peerStaticPublic: Term, presharedKey: Option<Term>): (p: Params)
    ensures Coherent(p)
  {
    Params(staticPrivate, PublicKey(staticPrivate), peerStaticPublic, Dh(staticPrivate, peerStaticPublic),
           Hash([LABEL_MAC1, peerStaticPublic]), presharedKey)
  }

  /** The derived fields agree with the keys they are derived from. */
  predicate Coherent(p: Params) {
    && p.staticPublic == PublicKey(p.staticPrivate)
    && p.staticShared == Dh(p.staticPrivate, p.peerStaticPublic)
    && p.sendingMac1Key == Hash([LABEL_MAC1, p.peerStaticPublic])
  }

  /** No preshared key means a key of zeros. */
  function PskOf(p: Params): (psk: Term) {
    if p.presharedKey.Some? then p.presharedKey.value else Zeros
  }

  datatype Progress =
    | NoHandshake
    | InitSent(localIndex: nat, hash: Term, chainingKey: Term, ephemeralPrivate: nat, timeSent: nat)
    | InitReceived(hash: Term, chainingKey: Term, peerEphemeral: Term, peerIndex: nat)
    | Expired

  datatype Cookies = Cookies(lastMac1: Option<Term>, index: nat, writeCookie: Option<Term>)

  datatype View = View(
    params: Params, nextIndex: nat, previous: Progress, state: Progress, cookies: Cookies,
    lastTimestamp: Tai64N)

  function NewView(params: Params, globalIdx: nat): (v: View) {
    View(params, globalIdx, NoHandshake, NoHandshake, Cookies(None, 0, None), Tai64N(0, 0))
  }

  predicate IsInProgress(v: View) {
    !v.state.NoHandshake? && !v.state.Expired?
  }

  /** 24 bits of peer index and a cyclic 8-bit session index. */
  function NextIndex(index: nat): (next: nat)
    ensures next / 256 == index / 256
  {
    index / 256 * 256 + (index % 256 + 1) % 256
  }

  function Mac2Of(c: Cookies, parts: seq<Term>, mac1: Term): (mac2: Term) {
    if c.writeCookie.Some? then Mac(c.writeCookie.value, parts + [mac1]) else Zeros
  }

  function CloseWithMacs(v: View, m: Message): (r: Message)
    requires IsHandshake(m)
  {
    var mac1 := Mac(v.params.sendingMac1Key, Body(m));
    m.(mac1 := mac1, mac2 := Mac2Of(v.cookies, Body(m), mac1))
  }

  function RememberMac(v: View, idx: nat, m: Message): (r: View)
    requires IsHandshake(m)
  {
    v.(cookies := v.cookies.(index := idx, lastMac1 := Some(m.mac1)))
  }

  // Initiation.

  /** The transcript of an initiation from the holder of `p` with this ephemeral secret. */
  function InitiationTranscript(p: Params, e: nat, stamp: Tai64N): (t: Symmetric) {
    FirstMessage(p.peerStaticPublic,
                 FirstKeys(PublicKey(e), p.staticPublic, Dh(e, p.peerStaticPublic), p.staticShared),
                 Stamp(stamp.secs, stamp.nano))
  }

  lemma TranscriptShape(p: Params, e: nat, stamp: Tai64N)
    ensures |InitiationTranscript(p, e, stamp).sent| == 3
  {
    FirstMessageUnrolled(p.peerStaticPublic,
      FirstKeys(PublicKey(e), p.staticPublic, Dh(e, p.peerStaticPublic), p.staticShared),
      Stamp(stamp.secs, stamp.nano));
  }

  function FormatInitiation(v: View, dstLen: nat, e: nat, stamp: Tai64N, now: nat): (r: (View, Result<Message>)) {
    if dstLen < HANDSHAKE_INIT_SZ then (v, Err(DestinationBufferTooSmall))
    else
      var idx := NextIndex(v.nextIndex);
      var t := InitiationTranscript(v.params, e, stamp);
      TranscriptShape(v.params, e, stamp);
      var m := CloseWithMacs(v, Initiation(idx, t.sent[0], t.sent[1], t.sent[2], Zeros, Zeros));
      var v' := v.(nextIndex := idx, previous := v.state, state := InitSent(idx, t.h, t.ck, e, now));
      (RememberMac(v', idx, m), Ok(m))
  }

  /** What the peer would have written with this ephemeral key and this timestamp. */
  function ExpectedInitiation(p: Params, ephemeral: Term, stamp: Term): (t: Symmetric) {
    FirstMessage(p.staticPublic,
                 FirstKeys(ephemeral, p.peerStaticPublic, Dh(p.staticPrivate, ephemeral), p.staticShared),
                 stamp)
  }

  /** The timestamp inside a sealed field; the field only has room for a timestamp. */
  function StampIn(encStamp: Term): (s: Option<Term>) {
    if encStamp.Seal? && |encStamp.plain| == 1 && encStamp.plain[0].Stamp? then Some(encStamp.plain[0]) else None
  }

  predicate AuthenticInitiation(p: Params, m: Message)
    requires m.Initiation?
  {
    StampIn(m.encStamp).Some?
    && ExpectedInitiation(p, m.ephemeral, StampIn(m.encStamp).value).sent == [m.ephemeral, m.encStatic, m.encStamp]
  }

  /** Taking an initiation apart field by field accepts exactly the authentic ones. */
  lemma AuthenticByOpening(p: Params, m: Message)
    requires m.Initiation?
    ensures var st := FirstHead(p.staticPublic, m.ephemeral, Dh(p.staticPrivate, m.ephemeral));
            var st' := MixKey(MixHash(st, m.encStatic), p.staticShared);
            AuthenticInitiation(p, m) <==>
              && Open(st.k, NONCE_ZERO, m.encStatic, [st.h]) == Some([p.peerStaticPublic])
              && Open(st'.k, NONCE_ZERO, m.encStamp, [st'.h]).Some?
              && StampIn(m.encStamp).Some?
    ensures AuthenticInitiation(p, m) ==>
            var st := FirstHead(p.staticPublic, m.ephemeral, Dh(p.staticPrivate, m.ephemeral));
            var t := MixHash(MixKey(MixHash(st, m.encStatic), p.staticShared), m.encStamp);
            ExpectedInitiation(p, m.ephemeral, StampIn(m.encStamp).value) == t.(sent := [m.ephemeral, m.encStatic, m.encStamp])
  {
    if StampIn(m.encStamp).Some? {
      var stamp := StampIn(m.encStamp).value;
      var keys := FirstKeys(m.ephemeral, p.peerStaticPublic, Dh(p.staticPrivate, m.ephemeral), p.staticShared);
      FirstMessageUnrolled(p.staticPublic, keys, stamp);
      var st := FirstHead(p.staticPublic, m.ephemeral, keys.es);
      OpenIffSealed(st.k, NONCE_ZERO, m.encStatic, [st.h], [p.peerStaticPublic]);
      var st' := MixKey(MixHash(st, m.encStatic), p.staticShared);
      assert m.encStamp.plain == [stamp];
      OpenIffSealed(st'.k, NONCE_ZERO, m.encStamp, [st'.h], [stamp]);
      var sent := ExpectedInitiation(p, m.ephemeral, stamp).sent;
      assert sent == [m.ephemeral, m.encStatic, m.encStamp] <==> sent[1] == m.encStatic && sent[2] == m.encStamp;
    }
  }

  /** Why an initiation that is not authentic is refused: only a static key that opens but is not the
      peer's is reported as a wrong key. */
  function InitiationError(p: Params, m: Message): (e: WireGuardError)
    requires m.Initiation?
  {
    var st := FirstHead(p.staticPublic, m.ephemeral, Dh(p.staticPrivate, m.ephemeral));
    var plain := Open(st.k, NONCE_ZERO, m.encStatic, [st.h]);
    if plain.Some? && plain.value != [p.peerStaticPublic] then WrongKey else InvalidAeadTag
  }

  function ReceiveInitiation(v: View, m: Message, dstLen: nat, e: nat): (r: (View, Result<(Message, Session)>))
    requires m.Initiation?
  {
    if !AuthenticInitiation(v.params, m) then (v, Err(InitiationError(v.params, m)))
    else
      var stamp := StampIn(m.encStamp).value;
      var time := Tai64N(stamp.secs, stamp.nano);
      if !After(time, v.lastTimestamp) then (v, Err(WrongTai64nTimestamp))
      else
        var t := ExpectedInitiation(v.params, m.ephemeral, stamp);
        FormatResponse(v.(lastTimestamp := time, previous := v.state,
                          state := InitReceived(t.h, t.ck, m.ephemeral, m.senderIdx)), dstLen, e)
  }

  // Response.

  /** The transcript of the response, continuing from the initiation's chaining key and hash. */
  function ResponseTranscript(v: View, e: nat): (t: Symmetric)
    requires v.state.InitReceived?
  {
    SecondMessage(v.state.chainingKey, v.state.hash,
                  SecondKeys(PublicKey(e), Dh(e, v.state.peerEphemeral), Dh(e, v.params.peerStaticPublic), PskOf(v.params)))
  }

  lemma ResponseShape(v: View, e: nat)
    requires v.state.InitReceived?
    ensures |ResponseTranscript(v, e).sent| == 2
  {
    SecondMessageUnrolled(v.state.chainingKey, v.state.hash,
      SecondKeys(PublicKey(e), Dh(e, v.state.peerEphemeral), Dh(e, v.params.peerStaticPublic), PskOf(v.params)));
  }

  function FormatResponse(v: View, dstLen: nat, e: nat): (r: (View, Result<(Message, Session)>))
    requires v.state.InitReceived?
  {
    if dstLen < HANDSHAKE_RESP_SZ then (v, Err(DestinationBufferTooSmall))
    else
      var idx := NextIndex(v.nextIndex);
      var t := ResponseTranscript(v, e);
      ResponseShape(v, e);
      var m := CloseWithMacs(v, Response(idx, v.state.peerIndex, t.sent[0], t.sent[1], Zeros, Zeros));
      var keys := Split(t);
      (RememberMac(v.(nextIndex := idx, state := NoHandshake), idx, m),
       Ok((m, NewSession(idx, v.state.peerIndex, keys.0, keys.1))))
  }

  datatype Pending = Current | Previous | Neither

  /** Which pending initiation a response is addressed to. */
  function Addressee(v: View, m: Message): (p: Pending)
    requires m.Response?
  {
    if v.state.InitSent? && v.state.localIndex == m.receiverIdx then Current
    else if v.previous.InitSent? && v.previous.localIndex == m.receiverIdx then Previous
    else Neither
  }

  /** What the peer would have answered to this initiation with this ephemeral key. */
  function ExpectedResponse(p: Params, sent: Progress, ephemeral: Term): (t: Symmetric)
    requires sent.InitSent?
  {
    SecondMessage(sent.chainingKey, sent.hash,
                  SecondKeys(ephemeral, Dh(sent.ephemeralPrivate, ephemeral), Dh(p.staticPrivate, ephemeral), PskOf(p)))
  }

  predicate AuthenticResponse(p: Params, sent: Progress, m: Message)
    requires sent.InitSent? && m.Response?
  {
    ExpectedResponse(p, sent, m.ephemeral).sent == [m.ephemeral, m.encNothing]
  }

  function ReceiveResponse(v: View, m: Message): (r: (View, Result<Session>))
    requires m.Response?
  {
    var which := Addressee(v, m);
    if which.Neither? then (v, Err(UnexpectedPacket))
    else
      var sent := if which.Current? then v.state else v.previous;
      if !AuthenticResponse(v.params, sent, m) then (v, Err(InvalidAeadTag))
      else
        var keys := Split(ExpectedResponse(v.params, sent, m.ephemeral));
        (if which.Current? then v.(state := NoHandshake) else v.(previous := NoHandshake),
         Ok(NewSession(sent.localIndex, m.senderIdx, keys.1, keys.0)))
  }

  // Cookies, expiry, keys.

  function ReceiveCookieReply(v: View, m: Message): (r: (View, Result<()>))
    requires m.CookieReply?
  {
    if v.cookies.lastMac1.None? then (v, Err(UnexpectedPacket))
    else if m.receiverIdx != v.cookies.index then (v, Err(WrongIndex))
    else
      var plain := Open(Hash([LABEL_COOKIE, v.params.peerStaticPublic]), m.nonce, m.encCookie, [v.cookies.lastMac1.value]);
      if plain.None? then (v, Err(InvalidAeadTag))
      else if |plain.value| != 1 then (v, Err(InvalidPacket))
      else (v.(cookies := v.cookies.(writeCookie := Some(plain.value[0]))), Ok(()))
  }

  function SetExpired(v: View): (r: View) {
    v.(previous := Expired, state := Expired)
  }

  function ClearCookie(v: View): (r: View) {
    v.(cookies := v.cookies.(writeCookie := None))
  }

  function SetStaticPrivate(v: View, key: nat): (r: View) {
    v.(params := v.params.(staticPrivate := key, staticPublic := PublicKey(key),
                           staticShared := Dh(key, v.params.peerStaticPublic)))
  }
}
