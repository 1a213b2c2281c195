/** The handshake object, with the key schedule unrolled into hashes and HMACs as the code runs it. */
module Handshakes {
  import opened Basics
  import opened Constants
  import opened Crypto
  import opened Noise
  import opened HandshakeSpec

  class Handshake {
    var params: Params
    var nextIndex: nat
    var previous: Progress
    var state: Progress
    var cookies: Cookies
    var lastTimestamp: Tai64N

    ghost function V(): (v: View)
      reads this
    {
      View(params, nextIndex, previous, state, cookies, lastTimestamp)
    }

    constructor (staticPrivate: nat, peerStaticPublic: Term, globalIdx: nat, presharedKey: Option<Term>)
      ensures V() == NewView(NewParams(staticPrivate, peerStaticPublic, presharedKey), globalIdx)
    {
      params := NewParams(staticPrivate, peerStaticPublic, presharedKey);
      nextIndex, previous, state := globalIdx, NoHandshake, NoHandshake;
      cookies, lastTimestamp := Cookies(None, 0, None), Tai64N(0, 0);
    }

    predicate InProgress()
      reads this
      ensures InProgress() == IsInProgress(V())
    {
      !state.NoHandshake? && !state.Expired?
    }

    method IncIndex() returns (index: nat)
      modifies this
      ensures index == NextIndex(old(nextIndex))
      ensures V() == old(V()).(nextIndex := index)
    {
      var idx8 := nextIndex % 256;
      nextIndex := (nextIndex - idx8) + (if idx8 == 255 then 0 else idx8 + 1);
      index := nextIndex;
    }

    method AppendMac1AndMac2(localIndex: nat, m: Message) returns (r: Message)
      requires IsHandshake(m)
      modifies this
      ensures r == CloseWithMacs(old(V()), m)
      ensures V() == RememberMac(old(V()), localIndex, r)
    {
      var mac1 := Mac(params.sendingMac1Key, Body(m));
      var mac2 := Zeros;
      if cookies.writeCookie.Some? {
        mac2 := Mac(cookies.writeCookie.value, Body(m) + [mac1]);
      }
      r := m.(mac1 := mac1, mac2 := mac2);
      cookies := cookies.(index := localIndex, lastMac1 := Some(mac1));
    }

    method FormatHandshakeInitiation(dstLen: nat, e: nat, stamp: Tai64N, now: nat) returns (r: Result<Message>)
      modifies this
      ensures (V(), r) == FormatInitiation(old(V()), dstLen, e, stamp, now)
    {
      hide FirstMessage;
      if dstLen < HANDSHAKE_INIT_SZ { return Err(DestinationBufferTooSmall); }
      var localIndex := IncIndex();

      var chainingKey, hash := INITIAL_CHAIN_KEY, INITIAL_CHAIN_HASH;
      hash := Hash([hash, params.peerStaticPublic]);
      var ephemeral := PublicKey(e);
      hash := Hash([hash, ephemeral]);
      chainingKey := Hmac(Hmac(chainingKey, [ephemeral]), [ONE]);
      var ephemeralShared := Dh(e, params.peerStaticPublic);
      var temp := Hmac(chainingKey, [ephemeralShared]);
      chainingKey := Hmac(temp, [ONE]);
      var key := Hmac(temp, [chainingKey, TWO]);
      var encStatic := Seal(key, NONCE_ZERO, [params.staticPublic], [hash]);
      hash := Hash([hash, encStatic]);
      temp := Hmac(chainingKey, [params.staticShared]);
      chainingKey := Hmac(temp, [ONE]);
      key := Hmac(temp, [chainingKey, TWO]);
      var encStamp := Seal(key, NONCE_ZERO, [Stamp(stamp.secs, stamp.nano)], [hash]);
      hash := Hash([hash, encStamp]);

      FirstMessageUnrolled(params.peerStaticPublic,
        FirstKeys(ephemeral, params.staticPublic, ephemeralShared, params.staticShared), Stamp(stamp.secs, stamp.nano));

      previous, state := state, InitSent(localIndex, hash, chainingKey, e, now);
      var m := AppendMac1AndMac2(localIndex, Initiation(localIndex, ephemeral, encStatic, encStamp, Zeros, Zeros));
      r := Ok(m);
    }

    method ReceiveHandshakeInitialization(m: Message, dstLen: nat, e: nat) returns (r: Result<(Message, Session)>)
      requires m.Initiation?
      modifies this
      ensures (V(), r) == ReceiveInitiation(old(V()), m, dstLen, e)
    {
      hide ExpectedInitiation, AuthenticInitiation, FormatResponse;
      var chainingKey, hash := INITIAL_CHAIN_KEY, INITIAL_CHAIN_HASH;
      hash := Hash([hash, params.staticPublic]);
      hash := Hash([hash, m.ephemeral]);
      chainingKey := Hmac(Hmac(chainingKey, [m.ephemeral]), [ONE]);
      var ephemeralShared := Dh(params.staticPrivate, m.ephemeral);
      var temp := Hmac(chainingKey, [ephemeralShared]);
      chainingKey := Hmac(temp, [ONE]);
      var key := Hmac(temp, [chainingKey, TWO]);
      AuthenticByOpening(params, m);

      var peerStatic := Open(key, NONCE_ZERO, m.encStatic, [hash]);
      if peerStatic.None? { return Err(InvalidAeadTag); }
      if peerStatic.value != [params.peerStaticPublic] { return Err(WrongKey); }

      hash := Hash([hash, m.encStatic]);
      temp := Hmac(chainingKey, [params.staticShared]);
      chainingKey := Hmac(temp, [ONE]);
      key := Hmac(temp, [chainingKey, TWO]);
      var plain := Open(key, NONCE_ZERO, m.encStamp, [hash]);
      if plain.None? || StampIn(m.encStamp).None? { return Err(InvalidAeadTag); }
      var stamp := plain.value[0];
      var timestamp := Tai64N(stamp.secs, stamp.nano);
      if !After(timestamp, lastTimestamp) { return Err(WrongTai64nTimestamp); }
      lastTimestamp := timestamp;
      hash := Hash([hash, m.encStamp]);

      previous, state := state, InitReceived(hash, chainingKey, m.ephemeral, m.senderIdx);
      r := FormatHandshakeResponse(dstLen, e);
    }

    /** Called only right after an initiation was accepted, so the state is never another one. */
    method FormatHandshakeResponse(dstLen: nat, e: nat) returns (r: Result<(Message, Session)>)
      requires state.InitReceived?
      modifies this
      ensures (V(), r) == FormatResponse(old(V()), dstLen, e)
    {
      hide SecondMessage;
      if dstLen < HANDSHAKE_RESP_SZ { return Err(DestinationBufferTooSmall); }
      var was := state;
      state := NoHandshake;
      var chainingKey, hash, peerIndex := was.chainingKey, was.hash, was.peerIndex;
      var ephemeral := PublicKey(e);
      var localIndex := IncIndex();
      hash := Hash([hash, ephemeral]);
      var temp := Hmac(chainingKey, [ephemeral]);
      chainingKey := Hmac(temp, [ONE]);
      temp := Hmac(chainingKey, [Dh(e, was.peerEphemeral)]);
      chainingKey := Hmac(temp, [ONE]);
      temp := Hmac(chainingKey, [Dh(e, params.peerStaticPublic)]);
      chainingKey := Hmac(temp, [ONE]);
      temp := Hmac(chainingKey, [PskOf(params)]);
      chainingKey := Hmac(temp, [ONE]);
      var temp2 := Hmac(temp, [chainingKey, TWO]);
      var key := Hmac(temp, [temp2, THREE]);
      hash := Hash([hash, temp2]);
      var encNothing := Seal(key, NONCE_ZERO, [], [hash]);

      SecondMessageUnrolled(was.chainingKey, was.hash,
        SecondKeys(ephemeral, Dh(e, was.peerEphemeral), Dh(e, params.peerStaticPublic), PskOf(params)));

      var temp1 := Hmac(chainingKey, []);
      var receiving := Hmac(temp1, [ONE]);
      var sending := Hmac(temp1, [receiving, TWO]);
      var m := AppendMac1AndMac2(localIndex, Response(localIndex, peerIndex, ephemeral, encNothing, Zeros, Zeros));
      r := Ok((m, NewSession(localIndex, peerIndex, receiving, sending)));
    }

    method ReceiveHandshakeResponse(m: Message) returns (r: Result<Session>)
      requires m.Response?
      modifies this
      ensures (V(), r) == ReceiveResponse(old(V()), m)
    {
      hide SecondMessage;
      var sent, isPrevious := state, false;
      if state.InitSent? && state.localIndex == m.receiverIdx {
      } else if previous.InitSent? && previous.localIndex == m.receiverIdx {
        sent, isPrevious := previous, true;
      } else {
        return Err(UnexpectedPacket);
      }
      var hash := Hash([sent.hash, m.ephemeral]);
      var temp := Hmac(sent.chainingKey, [m.ephemeral]);
      var chainingKey := Hmac(temp, [ONE]);
      temp := Hmac(chainingKey, [Dh(sent.ephemeralPrivate, m.ephemeral)]);
      chainingKey := Hmac(temp, [ONE]);
      temp := Hmac(chainingKey, [Dh(params.staticPrivate, m.ephemeral)]);
      chainingKey := Hmac(temp, [ONE]);
      temp := Hmac(chainingKey, [PskOf(params)]);
      chainingKey := Hmac(temp, [ONE]);
      var temp2 := Hmac(temp, [chainingKey, TWO]);
      var key := Hmac(temp, [temp2, THREE]);
      hash := Hash([hash, temp2]);

      SecondMessageUnrolled(sent.chainingKey, sent.hash,
        SecondKeys(m.ephemeral, Dh(sent.ephemeralPrivate, m.ephemeral), Dh(params.staticPrivate, m.ephemeral), PskOf(params)));

      // The field is as long as a tag, so what it seals is empty.
      var plain := Open(key, NONCE_ZERO, m.encNothing, [hash]);
      if plain != Some([]) { return Err(InvalidAeadTag); }

      var temp1 := Hmac(chainingKey, []);
      var sending := Hmac(temp1, [ONE]);
      var receiving := Hmac(temp1, [sending, TWO]);
      if isPrevious { previous := NoHandshake; } else { state := NoHandshake; }
      r := Ok(NewSession(sent.localIndex, m.senderIdx, receiving, sending));
    }

    method ReceiveCookieReply(m: Message) returns (r: Result<()>)
      requires m.CookieReply?
      modifies this
      ensures (V(), r) == HandshakeSpec.ReceiveCookieReply(old(V()), m)
    {
      if cookies.lastMac1.None? { return Err(UnexpectedPacket); }
      if m.receiverIdx != cookies.index { return Err(WrongIndex); }
      var key := Hash([LABEL_COOKIE, params.peerStaticPublic]);
      var plain := Open(key, m.nonce, m.encCookie, [cookies.lastMac1.value]);
      if plain.None? { return Err(InvalidAeadTag); }
      if |plain.value| != 1 { return Err(InvalidPacket); }
      cookies := cookies.(writeCookie := Some(plain.value[0]));
      r := Ok(());
    }

    method SetExpired()
      modifies this
      ensures V() == HandshakeSpec.SetExpired(old(V()))
    {
      previous := Expired;
      state := Expired;
    }

    method ClearCookie()
      modifies this
      ensures V() == HandshakeSpec.ClearCookie(old(V()))
    {
      cookies := cookies.(writeCookie := None);
    }

    method SetStaticPrivate(key: nat)
      modifies this
      ensures V() == HandshakeSpec.SetStaticPrivate(old(V()), key)
      ensures params.staticPrivate == key && (old(Coherent(params)) ==> Coherent(params))
    {
      params := params.(staticPrivate := key, staticPublic := PublicKey(key));
      params := params.(staticShared := Dh(params.staticPrivate, params.peerStaticPublic));
    }
  }
}
