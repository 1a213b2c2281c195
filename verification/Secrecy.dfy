/** What the transport keys of a handshake are made of, and what an observer can compute of them. */
module Secrecy {
  import opened Constants
  import opened Crypto
  import opened Noise
  import opened HandshakeSpec
  import opened HandshakeTheorems

  // The keys, written out over the primitive operations.

  function Kdf(ck: Term, input: Term): (next: Term) {
    Hmac(Hmac(ck, [input]), [Number(1)])
  }

  /** The chaining key after an initiation. */
  function FirstChain(ephemeral: Term, es: Term, ss: Term): (ck: Term) {
    Kdf(Kdf(Kdf(Hash([Label("Noise_IKpsk2_25519_ChaChaPoly_BLAKE2s")]), ephemeral), es), ss)
  }

  /** The chaining key after the response. */
  function SecondChain(ck: Term, ephemeral: Term, ee: Term, se: Term, psk: Term): (ck': Term) {
    Kdf(Kdf(Kdf(Kdf(ck, ephemeral), ee), se), psk)
  }

  function InitiatorSends(ck: Term): (key: Term) {
    Hmac(Hmac(ck, []), [Number(1)])
  }

  function ResponderSends(ck: Term): (key: Term) {
    Hmac(Hmac(ck, []), [InitiatorSends(ck), Number(2)])
  }

  lemma SecondMessageChain(ck: Term, h: Term, e: Term, ee: Term, se: Term, psk: Term)
    ensures SecondMessage(ck, h, SecondKeys(e, ee, se, psk)).ck == SecondChain(ck, e, ee, se, psk)
  {
    SecondMessageUnrolled(ck, h, SecondKeys(e, ee, se, psk));
  }

  /** An initiation leaves its sender with the chaining key of its ephemeral key, of that key with the
      peer's static key and of the two static keys. */
  lemma InitiationChain(v: View, dstLen: nat, e: nat, stamp: Tai64N, now: nat)
    requires FormatInitiation(v, dstLen, e, stamp, now).1.Ok?
    ensures var sent := FormatInitiation(v, dstLen, e, stamp, now).0.state;
            sent.InitSent? && sent.ephemeralPrivate == e
            && sent.chainingKey == FirstChain(PublicKey(e), Dh(e, v.params.peerStaticPublic), v.params.staticShared)
  {
    FirstMessageUnrolled(v.params.peerStaticPublic,
      FirstKeys(PublicKey(e), v.params.staticPublic, Dh(e, v.params.peerStaticPublic), v.params.staticShared),
      Stamp(stamp.secs, stamp.nano));
  }

  lemma ResponderChain(v: View, dstLen: nat, e: nat)
    requires v.state.InitReceived? && FormatResponse(v, dstLen, e).1.Ok?
    ensures var s := FormatResponse(v, dstLen, e).1.value.1;
            var ck := SecondChain(v.state.chainingKey, PublicKey(e), Dh(e, v.state.peerEphemeral),
                                  Dh(e, v.params.peerStaticPublic), PskOf(v.params));
            s.sendingKey == ResponderSends(ck) && s.receivingKey == InitiatorSends(ck)
  {
    SecondMessageChain(v.state.chainingKey, v.state.hash, PublicKey(e), Dh(e, v.state.peerEphemeral),
                       Dh(e, v.params.peerStaticPublic), PskOf(v.params));
  }

  /** The initiation a response was taken to answer. */
  function Answered(v: View, m: Message): (sent: Progress)
    requires m.Response?
  {
    if v.state.InitSent? && v.state.localIndex == m.receiverIdx then v.state else v.previous
  }

  lemma InitiatorChain(v: View, m: Message)
    requires m.Response? && ReceiveResponse(v, m).1.Ok?
    ensures var sent, s := Answered(v, m), ReceiveResponse(v, m).1.value;
            sent.InitSent? &&
            var ck := SecondChain(sent.chainingKey, m.ephemeral, Dh(sent.ephemeralPrivate, m.ephemeral),
                                  Dh(v.params.staticPrivate, m.ephemeral), PskOf(v.params));
            s.sendingKey == InitiatorSends(ck) && s.receivingKey == ResponderSends(ck)
  {
    var sent := Answered(v, m);
    SecondMessageChain(sent.chainingKey, sent.hash, m.ephemeral, Dh(sent.ephemeralPrivate, m.ephemeral),
                       Dh(v.params.staticPrivate, m.ephemeral), PskOf(v.params));
  }

  /** The responder's keys, from the initiation it takes to the session it installs. */
  lemma ReceivedChain(v: View, m: Message, dstLen: nat, e: nat)
    requires m.Initiation? && ReceiveInitiation(v, m, dstLen, e).1.Ok?
    ensures var s := ReceiveInitiation(v, m, dstLen, e).1.value.1;
            var ck := SecondChain(FirstChain(m.ephemeral, Dh(v.params.staticPrivate, m.ephemeral), v.params.staticShared),
                                  PublicKey(e), Dh(e, m.ephemeral), Dh(e, v.params.peerStaticPublic), PskOf(v.params));
            s.sendingKey == ResponderSends(ck) && s.receivingKey == InitiatorSends(ck)
  {
    hide FormatResponse;
    var stamp := StampIn(m.encStamp).value;
    var es := Dh(v.params.staticPrivate, m.ephemeral);
    FirstMessageUnrolled(v.params.staticPublic,
      FirstKeys(m.ephemeral, v.params.peerStaticPublic, es, v.params.staticShared), stamp);
    var t := ExpectedInitiation(v.params, m.ephemeral, stamp);
    assert t.ck == FirstChain(m.ephemeral, es, v.params.staticShared);
    ResponderChain(v.(lastTimestamp := Tai64N(stamp.secs, stamp.nano), previous := v.state,
                      state := InitReceived(t.h, t.ck, m.ephemeral, m.senderIdx)), dstLen, e);
  }

  // A key names every secret that went into it.

  lemma KdfInjective(ck: Term, input: Term, ck': Term, input': Term)
    requires Kdf(ck, input) == Kdf(ck', input')
    ensures ck == ck' && input == input'
  {
    assert Kdf(ck, input).key == Hmac(ck, [input]);
    assert [input][0] == [input'][0];
  }

  lemma FirstChainInjective(e: Term, es: Term, ss: Term, e': Term, es': Term, ss': Term)
    requires FirstChain(e, es, ss) == FirstChain(e', es', ss')
    ensures e == e' && es == es' && ss == ss'
  {
    hide Kdf;
    var c0 := Hash([Label("Noise_IKpsk2_25519_ChaChaPoly_BLAKE2s")]);
    KdfInjective(Kdf(Kdf(c0, e), es), ss, Kdf(Kdf(c0, e'), es'), ss');
    KdfInjective(Kdf(c0, e), es, Kdf(c0, e'), es');
    KdfInjective(c0, e, c0, e');
  }

  lemma SecondChainInjective(ck: Term, e: Term, ee: Term, se: Term, psk: Term,
                             ck': Term, e': Term, ee': Term, se': Term, psk': Term)
    requires SecondChain(ck, e, ee, se, psk) == SecondChain(ck', e', ee', se', psk')
    ensures ck == ck' && e == e' && ee == ee' && se == se' && psk == psk'
  {
    hide Kdf;
    KdfInjective(Kdf(Kdf(Kdf(ck, e), ee), se), psk, Kdf(Kdf(Kdf(ck', e'), ee'), se'), psk');
    KdfInjective(Kdf(Kdf(ck, e), ee), se, Kdf(Kdf(ck', e'), ee'), se');
    KdfInjective(Kdf(ck, e), ee, Kdf(ck', e'), ee');
    KdfInjective(ck, e, ck', e');
  }

  lemma SendsInjective(ck: Term, ck': Term)
    ensures InitiatorSends(ck) == InitiatorSends(ck') <==> ck == ck'
    ensures ResponderSends(ck) == ResponderSends(ck') <==> ck == ck'
    ensures InitiatorSends(ck) != ResponderSends(ck')
  {
    assert InitiatorSends(ck).key == Hmac(ck, []) && ResponderSends(ck).key == Hmac(ck, []);
    assert |InitiatorSends(ck).parts| == 1 && |ResponderSends(ck').parts| == 2;
  }

  /** Two responders that end with the same sending key agree in the secret of the two ephemeral keys, in
      that of the ephemeral and the static key, in the preshared key and in the initiation's chaining key. */
  lemma ResponderKeyNames(v: View, len: nat, e: nat, v': View, len': nat, e': nat)
    requires v.state.InitReceived? && v'.state.InitReceived?
    requires FormatResponse(v, len, e).1.Ok? && FormatResponse(v', len', e').1.Ok?
    requires FormatResponse(v, len, e).1.value.1.sendingKey == FormatResponse(v', len', e').1.value.1.sendingKey
    ensures e == e' && Dh(e, v.state.peerEphemeral) == Dh(e', v'.state.peerEphemeral)
    ensures Dh(e, v.params.peerStaticPublic) == Dh(e', v'.params.peerStaticPublic)
    ensures PskOf(v.params) == PskOf(v'.params) && v.state.chainingKey == v'.state.chainingKey
  {
    hide FormatResponse, Dh, SecondChain, ResponderSends, InitiatorSends;
    ResponderChain(v, len, e);
    ResponderChain(v', len', e');
    var ee, ee' := Dh(e, v.state.peerEphemeral), Dh(e', v'.state.peerEphemeral);
    var se, se' := Dh(e, v.params.peerStaticPublic), Dh(e', v'.params.peerStaticPublic);
    SendsInjective(SecondChain(v.state.chainingKey, PublicKey(e), ee, se, PskOf(v.params)),
                   SecondChain(v'.state.chainingKey, PublicKey(e'), ee', se', PskOf(v'.params)));
    SecondChainInjective(v.state.chainingKey, PublicKey(e), ee, se, PskOf(v.params),
                         v'.state.chainingKey, PublicKey(e'), ee', se', PskOf(v'.params));
  }

  lemma InitiatorKeyNames(v: View, m: Message, v': View, m': Message)
    requires m.Response? && m'.Response? && ReceiveResponse(v, m).1.Ok? && ReceiveResponse(v', m').1.Ok?
    requires ReceiveResponse(v, m).1.value.sendingKey == ReceiveResponse(v', m').1.value.sendingKey
    ensures var sent, sent' := Answered(v, m), Answered(v', m');
            && sent.InitSent? && sent'.InitSent? && m.ephemeral == m'.ephemeral
            && Dh(sent.ephemeralPrivate, m.ephemeral) == Dh(sent'.ephemeralPrivate, m'.ephemeral)
            && Dh(v.params.staticPrivate, m.ephemeral) == Dh(v'.params.staticPrivate, m'.ephemeral)
            && PskOf(v.params) == PskOf(v'.params) && sent.chainingKey == sent'.chainingKey
  {
    hide ReceiveResponse, Dh, SecondChain, ResponderSends, InitiatorSends;
    InitiatorChain(v, m);
    InitiatorChain(v', m');
    var sent, sent' := Answered(v, m), Answered(v', m');
    var ee, ee' := Dh(sent.ephemeralPrivate, m.ephemeral), Dh(sent'.ephemeralPrivate, m'.ephemeral);
    var se, se' := Dh(v.params.staticPrivate, m.ephemeral), Dh(v'.params.staticPrivate, m'.ephemeral);
    SendsInjective(SecondChain(sent.chainingKey, m.ephemeral, ee, se, PskOf(v.params)),
                   SecondChain(sent'.chainingKey, m'.ephemeral, ee', se', PskOf(v'.params)));
    SecondChainInjective(sent.chainingKey, m.ephemeral, ee, se, PskOf(v.params),
                         sent'.chainingKey, m'.ephemeral, ee', se', PskOf(v'.params));
  }

  // What an observer can compute.

  /** Terms everybody can write down, preshared keys and other stored secrets among them: nothing but the
      Diffie-Hellman secrets is kept from the observer. */
  predicate Public(t: Term) {
    t.Label? || t.Number? || t.Zeros? || t.Secret? || t.Stamp? || t.Payload? || t.PublicKey?
  }

  predicate AllIn(ts: seq<Term>, d: seq<Term>) {
    forall k :: 0 <= k < |ts| ==> ts[k] in d
  }

  /** One step of an observer who has computed `d`, has seen `seen` and knows every Diffie-Hellman secret
      outside `hidden`: use a message, agree, hash, authenticate, seal, or open with a key. */
  ghost predicate Follows(seen: set<Term>, hidden: set<nat>, d: seq<Term>, t: Term) {
    || t in seen
    || Public(t)
    || (exists secret: nat, k: nat :: secret !in hidden && k < |d| && t == Dh(secret, d[k]))
    || (t.Hash? && AllIn(t.parts, d))
    || (t.Hmac? && t.key in d && AllIn(t.parts, d))
    || (t.Mac? && t.key in d && AllIn(t.parts, d))
    || (t.Seal? && t.key in d && t.nonce in d && AllIn(t.plain, d) && AllIn(t.aad, d))
    || (exists k: nat :: k < |d| && d[k].Seal? && d[k].key in d && t in d[k].plain)
  }

  ghost predicate Derivation(seen: set<Term>, hidden: set<nat>, d: seq<Term>) {
    forall k :: 0 <= k < |d| ==> Follows(seen, hidden, d[..k], d[k])
  }

  ghost predicate Derivable(seen: set<Term>, hidden: set<nat>, t: Term) {
    exists d :: Derivation(seen, hidden, d) && t in d
  }

  /** Terms that give nothing away: no secret of two hidden keys, nothing keyed by one, and no seal that
      such an observer could open onto one. */
  predicate Harmless(hidden: set<nat>, t: Term) {
    match t
    case Shared(lo, hi) => lo !in hidden || hi !in hidden
    case SharedOther(secret, _) => secret !in hidden
    case Hmac(key, parts) => Harmless(hidden, key) && forall k :: 0 <= k < |parts| ==> Harmless(hidden, parts[k])
    case Seal(key, _, plain, _) => Harmless(hidden, key) ==> forall k :: 0 <= k < |plain| ==> Harmless(hidden, plain[k])
    case _ => true
  }

  lemma StepIsHarmless(seen: set<Term>, hidden: set<nat>, d: seq<Term>, t: Term)
    requires forall s :: s in seen ==> Harmless(hidden, s)
    requires forall k :: 0 <= k < |d| ==> Harmless(hidden, d[k])
    requires Follows(seen, hidden, d, t)
    ensures Harmless(hidden, t)
  {}

  /** From harmless terms only harmless terms follow, however long the derivation. */
  lemma {:induction false} DerivationIsHarmless(seen: set<Term>, hidden: set<nat>, d: seq<Term>)
    requires forall s :: s in seen ==> Harmless(hidden, s)
    requires Derivation(seen, hidden, d)
    ensures forall k :: 0 <= k < |d| ==> Harmless(hidden, d[k])
  {
    hide Harmless, Follows;
    if d != [] {
      var n := |d| - 1;
      forall k | 0 <= k < n ensures Follows(seen, hidden, d[..n][..k], d[..n][k]) {
        assert d[..n][..k] == d[..k];
      }
      DerivationIsHarmless(seen, hidden, d[..n]);
      StepIsHarmless(seen, hidden, d[..n], d[n]);
      forall k | 0 <= k < |d| ensures Harmless(hidden, d[k]) {
        if k < n { assert d[k] == d[..n][k]; }
      }
    }
  }

  /** Everything a handshake message shows. */
  function Shown(m: Message): (ts: set<Term>)
    requires IsHandshake(m)
  {
    if m.Initiation? then {m.ephemeral, m.encStatic, m.encStamp, m.mac1, m.mac2}
    else {m.ephemeral, m.encNothing, m.mac1, m.mac2}
  }

  /** The messages of one exchange and any data packets, of this session or another. */
  ghost predicate OnTheWire(x: Exchange, seen: set<Term>)
  {
    forall t :: t in seen ==>
      || (x.initiation.Ok? && IsHandshake(x.initiation.value) && t in Shown(x.initiation.value))
      || (x.response.Ok? && IsHandshake(x.response.value.0) && t in Shown(x.response.value.0))
      || (t.Seal? && forall k :: 0 <= k < |t.plain| ==> t.plain[k].Payload?)
  }

  lemma InitiationHarmless(v: View, dstLen: nat, e: nat, stamp: Tai64N, now: nat, hidden: set<nat>)
    requires Coherent(v.params) && FormatInitiation(v, dstLen, e, stamp, now).1.Ok?
    ensures var m := FormatInitiation(v, dstLen, e, stamp, now).1.value;
            m.Initiation? && m.ephemeral == PublicKey(e) && forall t :: t in Shown(m) ==> Harmless(hidden, t)
  {
    FirstMessageUnrolled(v.params.peerStaticPublic,
      FirstKeys(PublicKey(e), v.params.staticPublic, Dh(e, v.params.peerStaticPublic), v.params.staticShared),
      Stamp(stamp.secs, stamp.nano));
  }

  lemma ResponseHarmless(v: View, dstLen: nat, e: nat, hidden: set<nat>)
    requires v.state.InitReceived? && FormatResponse(v, dstLen, e).1.Ok?
    ensures var m := FormatResponse(v, dstLen, e).1.value.0;
            m.Response? && dstLen >= HANDSHAKE_RESP_SZ && forall t :: t in Shown(m) ==> Harmless(hidden, t)
  {
    SecondMessageUnrolled(v.state.chainingKey, v.state.hash,
      SecondKeys(PublicKey(e), Dh(e, v.state.peerEphemeral), Dh(e, v.params.peerStaticPublic), PskOf(v.params)));
  }

  lemma AnswerHarmless(v: View, m: Message, dstLen: nat, e: nat, hidden: set<nat>)
    requires m.Initiation? && ReceiveInitiation(v, m, dstLen, e).1.Ok?
    ensures var m' := ReceiveInitiation(v, m, dstLen, e).1.value.0;
            m'.Response? && dstLen >= HANDSHAKE_RESP_SZ && forall t :: t in Shown(m') ==> Harmless(hidden, t)
  {
    hide FormatResponse, Shown, Harmless;
    var stamp := StampIn(m.encStamp).value;
    var t := ExpectedInitiation(v.params, m.ephemeral, stamp);
    ResponseHarmless(v.(lastTimestamp := Tai64N(stamp.secs, stamp.nano), previous := v.state,
                        state := InitReceived(t.h, t.ck, m.ephemeral, m.senderIdx)), dstLen, e, hidden);
  }

  lemma KdfHarmless(hidden: set<nat>, ck: Term, input: Term)
    ensures Harmless(hidden, Kdf(ck, input)) <==> Harmless(hidden, ck) && Harmless(hidden, input)
  {
    var temp := Hmac(ck, [input]);
    assert [input][0] == input;
    assert Harmless(hidden, temp) <==> Harmless(hidden, ck) && Harmless(hidden, input);
  }

  lemma SendsHarmless(hidden: set<nat>, ck: Term)
    ensures Harmless(hidden, InitiatorSends(ck)) <==> Harmless(hidden, ck)
    ensures Harmless(hidden, ResponderSends(ck)) <==> Harmless(hidden, ck)
  {
    var temp := Hmac(ck, []);
    assert Harmless(hidden, temp) <==> Harmless(hidden, ck);
    assert Harmless(hidden, InitiatorSends(ck)) <==> Harmless(hidden, ck);
    var parts := [InitiatorSends(ck), Number(2)];
    assert parts[0] == InitiatorSends(ck) && parts[1] == Number(2);
  }

  /** The chaining key both sides of a completed exchange end with. */
  function FinalChain(i: Params, r: Params, e1: nat, e2: nat): (ck: Term) {
    SecondChain(FirstChain(PublicKey(e1), Dh(e1, PublicKey(r.staticPrivate)), Dh(i.staticPrivate, PublicKey(r.staticPrivate))),
                PublicKey(e2), Dh(e1, PublicKey(e2)), Dh(e2, PublicKey(i.staticPrivate)), PskOf(i))
  }

  /** What the two sessions of a completed exchange are keyed with. */
  lemma ExchangeKeys(i: View, r: View, e1: nat, e2: nat, stamp: Tai64N, now: nat, len1: nat, len2: nat)
    requires Coherent(i.params) && Coherent(r.params)
    requires RunExchange(i, r, e1, e2, stamp, now, len1, len2).finish.Ok?
    ensures var x := RunExchange(i, r, e1, e2, stamp, now, len1, len2);
            var ck := FinalChain(i.params, r.params, e1, e2);
            && x.response.Ok? && x.initiation.Ok?
            && x.initiation.value.Initiation? && x.response.value.0.Response?
            && x.finish.value.sendingKey == x.response.value.1.receivingKey == InitiatorSends(ck)
            && x.finish.value.receivingKey == x.response.value.1.sendingKey == ResponderSends(ck)
  {
    hide FormatInitiation, ReceiveResponse, ReceiveInitiation, SecondChain, FirstChain, InitiatorSends, ResponderSends, Shown;
    var m := FormatInitiation(i, len1, e1, stamp, now).1.value;
    InitiationHarmless(i, len1, e1, stamp, now, {});
    AnswerHarmless(r, m, len2, e2, {});
    ReceivedChain(r, m, len2, e2);
    assert len1 >= HANDSHAKE_INIT_SZ by { InitiationRoom(i, len1, e1, stamp, now); }
    HandshakeAgreement(i, r, e1, e2, stamp, now, len1, len2);
    DhCommutes(e1, e2);
    DhCommutes(e1, r.params.staticPrivate);
    DhCommutes(i.params.staticPrivate, r.params.staticPrivate);
  }

  lemma InitiationRoom(v: View, dstLen: nat, e: nat, stamp: Tai64N, now: nat)
    ensures FormatInitiation(v, dstLen, e, stamp, now).1.Ok? <==> dstLen >= HANDSHAKE_INIT_SZ
  {}

  /** Each of the four agreements has a side the observer knows. */
  predicate OneSideOpen(i: Params, r: Params, e1: nat, e2: nat, hidden: set<nat>) {
    && (e1 !in hidden || e2 !in hidden)
    && (e1 !in hidden || r.staticPrivate !in hidden)
    && (i.staticPrivate !in hidden || r.staticPrivate !in hidden)
    && (e2 !in hidden || i.staticPrivate !in hidden)
  }

  lemma DhHarmless(hidden: set<nat>, a: nat, b: nat)
    ensures Harmless(hidden, Dh(a, PublicKey(b))) <==> a !in hidden || b !in hidden
  {}

  lemma FinalChainHarmless(i: Params, r: Params, e1: nat, e2: nat, hidden: set<nat>)
    requires Harmless(hidden, FinalChain(i, r, e1, e2))
    ensures OneSideOpen(i, r, e1, e2, hidden)
  {
    hide Kdf, Harmless, Dh;
    var es, ss := Dh(e1, PublicKey(r.staticPrivate)), Dh(i.staticPrivate, PublicKey(r.staticPrivate));
    var ee, se := Dh(e1, PublicKey(e2)), Dh(e2, PublicKey(i.staticPrivate));
    var c1 := Kdf(Hash([Label("Noise_IKpsk2_25519_ChaChaPoly_BLAKE2s")]), PublicKey(e1));
    var c2 := Kdf(c1, es);
    var c3 := Kdf(c2, ss);
    var c4 := Kdf(c3, PublicKey(e2));
    var c5 := Kdf(c4, ee);
    KdfHarmless(hidden, Kdf(c5, se), PskOf(i));
    KdfHarmless(hidden, c5, se);
    KdfHarmless(hidden, c4, ee);
    KdfHarmless(hidden, c3, PublicKey(e2));
    KdfHarmless(hidden, c2, ss);
    KdfHarmless(hidden, c1, es);
    DhHarmless(hidden, e1, r.staticPrivate);
    DhHarmless(hidden, i.staticPrivate, r.staticPrivate);
    DhHarmless(hidden, e1, e2);
    DhHarmless(hidden, e2, i.staticPrivate);
  }

  // Derivations that succeed.

  lemma Extend(seen: set<Term>, hidden: set<nat>, d: seq<Term>, t: Term)
    requires Derivation(seen, hidden, d) && Follows(seen, hidden, d, t)
    ensures Derivation(seen, hidden, d + [t])
    ensures t in d + [t] && forall x :: x in d ==> x in d + [t]
  {
    hide Follows;
    var d' := d + [t];
    forall k | 0 <= k < |d'| ensures Follows(seen, hidden, d'[..k], d'[k]) {
      if k < |d| { assert d'[..k] == d[..k]; } else { assert d'[..k] == d; }
    }
  }

  lemma MacStep(seen: set<Term>, hidden: set<nat>, d: seq<Term>, key: Term, parts: seq<Term>) returns (d': seq<Term>)
    requires Derivation(seen, hidden, d) && key in d && AllIn(parts, d)
    ensures Derivation(seen, hidden, d') && Hmac(key, parts) in d' && forall x :: x in d ==> x in d'
  {
    hide Derivation;
    d' := d + [Hmac(key, parts)];
    Extend(seen, hidden, d, Hmac(key, parts));
  }

  lemma PublicStep(seen: set<Term>, hidden: set<nat>, d: seq<Term>, t: Term) returns (d': seq<Term>)
    requires Derivation(seen, hidden, d) && Public(t)
    ensures Derivation(seen, hidden, d') && t in d' && forall x :: x in d ==> x in d'
  {
    hide Derivation;
    d' := d + [t];
    Extend(seen, hidden, d, t);
  }

  lemma KdfStep(seen: set<Term>, hidden: set<nat>, d: seq<Term>, ck: Term, input: Term) returns (d': seq<Term>)
    requires Derivation(seen, hidden, d) && ck in d && input in d
    ensures Derivation(seen, hidden, d') && Kdf(ck, input) in d' && forall x :: x in d ==> x in d'
  {
    hide Derivation;
    d' := MacStep(seen, hidden, d, ck, [input]);
    d' := PublicStep(seen, hidden, d', Number(1));
    d' := MacStep(seen, hidden, d', Hmac(ck, [input]), [Number(1)]);
  }

  lemma DhStep(seen: set<Term>, hidden: set<nat>, d: seq<Term>, a: nat, b: nat) returns (d': seq<Term>)
    requires Derivation(seen, hidden, d) && (a !in hidden || b !in hidden)
    ensures Derivation(seen, hidden, d') && Dh(a, PublicKey(b)) in d' && forall x :: x in d ==> x in d'
  {
    hide Derivation, Dh;
    var own, other := if a !in hidden then a else b, if a !in hidden then b else a;
    d' := PublicStep(seen, hidden, d, PublicKey(other));
    var k :| 0 <= k < |d'| && d'[k] == PublicKey(other);
    DhCommutes(a, b);
    assert Dh(own, d'[k]) == Dh(a, PublicKey(b));
    Extend(seen, hidden, d', Dh(a, PublicKey(b)));
    d' := d' + [Dh(a, PublicKey(b))];
  }

  lemma MixDh(seen: set<Term>, hidden: set<nat>, d: seq<Term>, ck: Term, a: nat, b: nat) returns (d': seq<Term>)
    requires Derivation(seen, hidden, d) && ck in d && (a !in hidden || b !in hidden)
    ensures Derivation(seen, hidden, d') && Kdf(ck, Dh(a, PublicKey(b))) in d'
  {
    hide Derivation, Kdf, Dh;
    d' := DhStep(seen, hidden, d, a, b);
    d' := KdfStep(seen, hidden, d', ck, Dh(a, PublicKey(b)));
  }

  lemma MixPublic(seen: set<Term>, hidden: set<nat>, d: seq<Term>, ck: Term, t: Term) returns (d': seq<Term>)
    requires Derivation(seen, hidden, d) && ck in d && Public(t)
    ensures Derivation(seen, hidden, d') && Kdf(ck, t) in d'
  {
    hide Derivation, Kdf;
    d' := PublicStep(seen, hidden, d, t);
    d' := KdfStep(seen, hidden, d', ck, t);
  }

  lemma DeriveChain(seen: set<Term>, hidden: set<nat>, i: Params, r: Params, e1: nat, e2: nat) returns (d: seq<Term>)
    requires OneSideOpen(i, r, e1, e2, hidden) && Public(PskOf(i))
    ensures Derivation(seen, hidden, d) && FinalChain(i, r, e1, e2) in d
  {
    hide Derivation, Kdf, Dh, Public;
    var start := Label("Noise_IKpsk2_25519_ChaChaPoly_BLAKE2s");
    assert Derivation(seen, hidden, []) by { Nothing(seen, hidden); }
    assert Public(start) && Public(PublicKey(e1)) && Public(PublicKey(e2)) by { ThesePublic(start.text, e1, e2); }
    d := PublicStep(seen, hidden, [], start);
    Extend(seen, hidden, d, Hash([start]));
    d := d + [Hash([start])];
    var c1 := Kdf(Hash([start]), PublicKey(e1));
    d := MixPublic(seen, hidden, d, Hash([start]), PublicKey(e1));
    var c2 := Kdf(c1, Dh(e1, PublicKey(r.staticPrivate)));
    d := MixDh(seen, hidden, d, c1, e1, r.staticPrivate);
    var c3 := Kdf(c2, Dh(i.staticPrivate, PublicKey(r.staticPrivate)));
    d := MixDh(seen, hidden, d, c2, i.staticPrivate, r.staticPrivate);
    d := MixPublic(seen, hidden, d, c3, PublicKey(e2));
    var c4 := Kdf(c3, PublicKey(e2));
    d := MixDh(seen, hidden, d, c4, e1, e2);
    var c5 := Kdf(c4, Dh(e1, PublicKey(e2)));
    d := MixDh(seen, hidden, d, c5, e2, i.staticPrivate);
    d := MixPublic(seen, hidden, d, Kdf(c5, Dh(e2, PublicKey(i.staticPrivate))), PskOf(i));
  }

  lemma Nothing(seen: set<Term>, hidden: set<nat>)
    ensures Derivation(seen, hidden, [])
  {}

  lemma ThesePublic(text: string, e1: nat, e2: nat)
    ensures Public(Label(text)) && Public(PublicKey(e1)) && Public(PublicKey(e2))
  {}

  lemma SplitStep(seen: set<Term>, hidden: set<nat>, d: seq<Term>, ck: Term) returns (d': seq<Term>)
    requires Derivation(seen, hidden, d) && ck in d
    ensures Derivation(seen, hidden, d') && InitiatorSends(ck) in d' && ResponderSends(ck) in d'
  {
    hide Derivation;
    d' := MacStep(seen, hidden, d, ck, []);
    d' := PublicStep(seen, hidden, d', Number(1));
    d' := PublicStep(seen, hidden, d', Number(2));
    d' := MacStep(seen, hidden, d', Hmac(ck, []), [Number(1)]);
    d' := MacStep(seen, hidden, d', Hmac(ck, []), [InitiatorSends(ck), Number(2)]);
  }

  /** Whoever computes a transport key knows a side of each of the four agreements, whatever the preshared key. */
  lemma DerivableOnlyIf(i: View, r: View, e1: nat, e2: nat, stamp: Tai64N, now: nat, len1: nat, len2: nat,
                        seen: set<Term>, hidden: set<nat>, d: seq<Term>)
    requires Coherent(i.params) && Coherent(r.params)
    requires RunExchange(i, r, e1, e2, stamp, now, len1, len2).finish.Ok?
    requires OnTheWire(RunExchange(i, r, e1, e2, stamp, now, len1, len2), seen)
    requires Derivation(seen, hidden, d)
    requires var s := RunExchange(i, r, e1, e2, stamp, now, len1, len2).finish.value; s.sendingKey in d || s.receivingKey in d
    ensures OneSideOpen(i.params, r.params, e1, e2, hidden)
  {
    hide Derivation, FormatInitiation, ReceiveInitiation, ReceiveResponse, InitiatorSends, ResponderSends, FinalChain, Shown;
    var x := RunExchange(i, r, e1, e2, stamp, now, len1, len2);
    ExchangeKeys(i, r, e1, e2, stamp, now, len1, len2);
    InitiationHarmless(i, len1, e1, stamp, now, hidden);
    AnswerHarmless(r, x.initiation.value, len2, e2, hidden);
    SendsHarmless(hidden, FinalChain(i.params, r.params, e1, e2));
    DerivationIsHarmless(seen, hidden, d);
    FinalChainHarmless(i.params, r.params, e1, e2, hidden);
  }

  /** Who can compute the transport keys of a completed exchange, for all parties and for every set of
      Diffie-Hellman secrets that is kept from an observer of its messages and of any data packets, even
      with every preshared key known: exactly those who know a side of each of the four agreements. */
  lemma KeysDerivableIff(i: View, r: View, e1: nat, e2: nat, stamp: Tai64N, now: nat, len1: nat, len2: nat,
                         seen: set<Term>, hidden: set<nat>)
    requires Coherent(i.params) && Coherent(r.params) && Public(PskOf(i.params))
    requires RunExchange(i, r, e1, e2, stamp, now, len1, len2).finish.Ok?
    requires OnTheWire(RunExchange(i, r, e1, e2, stamp, now, len1, len2), seen)
    ensures var s := RunExchange(i, r, e1, e2, stamp, now, len1, len2).finish.value;
            var open := && (e1 !in hidden || e2 !in hidden)
                        && (e1 !in hidden || r.params.staticPrivate !in hidden)
                        && (i.params.staticPrivate !in hidden || r.params.staticPrivate !in hidden)
                        && (e2 !in hidden || i.params.staticPrivate !in hidden);
            && (Derivable(seen, hidden, s.sendingKey) <==> open)
            && (Derivable(seen, hidden, s.receivingKey) <==> open)
  {
    hide Derivation, RunExchange, OnTheWire, InitiatorSends, ResponderSends, FinalChain, Public, Coherent;
    var s := RunExchange(i, r, e1, e2, stamp, now, len1, len2).finish.value;
    var ck := FinalChain(i.params, r.params, e1, e2);
    ExchangeKeys(i, r, e1, e2, stamp, now, len1, len2);
    if OneSideOpen(i.params, r.params, e1, e2, hidden) {
      var d := DeriveChain(seen, hidden, i.params, r.params, e1, e2);
      d := SplitStep(seen, hidden, d, ck);
    }
    forall d | Derivation(seen, hidden, d) && (s.sendingKey in d || s.receivingKey in d)
      ensures OneSideOpen(i.params, r.params, e1, e2, hidden)
    {
      DerivableOnlyIf(i, r, e1, e2, stamp, now, len1, len2, seen, hidden, d);
    }
  }

  /** Forward secrecy: both messages, any data packets, both static secrets and the preshared key together
      do not give the transport keys away as long as the two ephemeral secrets are gone. */
  lemma ForwardSecrecy(i: View, r: View, e1: nat, e2: nat, stamp: Tai64N, now: nat, len1: nat, len2: nat, seen: set<Term>)
    requires Coherent(i.params) && Coherent(r.params)
    requires RunExchange(i, r, e1, e2, stamp, now, len1, len2).finish.Ok?
    requires OnTheWire(RunExchange(i, r, e1, e2, stamp, now, len1, len2), seen)
    ensures var s := RunExchange(i, r, e1, e2, stamp, now, len1, len2).finish.value;
            !Derivable(seen, {e1, e2}, s.sendingKey) && !Derivable(seen, {e1, e2}, s.receivingKey)
  {
    hide RunExchange, OnTheWire, Derivation, Coherent;
    var s := RunExchange(i, r, e1, e2, stamp, now, len1, len2).finish.value;
    forall d | Derivation(seen, {e1, e2}, d) ensures s.sendingKey !in d && s.receivingKey !in d {
      if s.sendingKey in d || s.receivingKey in d {
        DerivableOnlyIf(i, r, e1, e2, stamp, now, len1, len2, seen, {e1, e2}, d);
      }
    }
  }
}
