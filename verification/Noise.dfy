/** Symbolic cryptography: byte strings are terms, concatenations are sequences of terms. */
module Crypto {
  import opened Basics

  datatype Term =
    | Label(text: string)
    | Number(value: nat)
    | Zeros
    | Secret(id: nat)
    | Stamp(secs: nat, nano: nat)
    | Payload(bytes: seq<byte>)
    | PublicKey(secret: nat)
    | Shared(lo: nat, hi: nat)
    | SharedOther(secret: nat, point: Term)
    | Hash(parts: seq<Term>)
    | Hmac(key: Term, parts: seq<Term>)
    | Mac(key: Term, parts: seq<Term>)
    | Seal(key: Term, nonce: Term, plain: seq<Term>, aad: seq<Term>)

  /** Diffie-Hellman: the unordered pair of the two secrets when the point is somebody's public key. */
  function Dh(secret: nat, point: Term): (shared: Term) {
    match point
    case PublicKey(other) => if secret <= other then Shared(secret, other) else Shared(other, secret)
    case _ => SharedOther(secret, point)
  }

  lemma DhCommutes(a: nat, b: nat)
    ensures Dh(a, PublicKey(b)) == Dh(b, PublicKey(a))
  {}

  /** Authenticated decryption: only the matching key, nonce and associated data open a seal. */
  function Open(key: Term, nonce: Term, cipher: Term, aad: seq<Term>): (plain: Option<seq<Term>>) {
    if cipher.Seal? && cipher.key == key && cipher.nonce == nonce && cipher.aad == aad
    then Some(cipher.plain) else None
  }

  /** Opening is the inverse of sealing, in both directions. */
  lemma OpenIffSealed(key: Term, nonce: Term, cipher: Term, aad: seq<Term>, plain: seq<Term>)
    ensures Open(key, nonce, cipher, aad) == Some(plain) <==> cipher == Seal(key, nonce, plain, aad)
  {}
}

/** The Noise protocol framework, as far as the handshake pattern IKpsk2 needs it: the symmetric state
    and its operations, and message patterns as lists of tokens. This is the reference the unrolled
    HMAC chains of the implementation are proved against. */
module Noise {
  import opened Crypto

  const ONE := Number(1)
  const TWO := Number(2)
  const THREE := Number(3)
  const NONCE_ZERO := Number(0)

  const INITIAL_CHAIN_KEY := Hash([Label("Noise_IKpsk2_25519_ChaChaPoly_BLAKE2s")])
  const INITIAL_CHAIN_HASH := Hash([INITIAL_CHAIN_KEY, Label("WireGuard v1 zx2c4 Jason@zx2c4.com")])

  datatype Symmetric = Symmetric(ck: Term, h: Term, k: Term, sent: seq<Term>)

  function MixHash(s: Symmetric, data: Term): (r: Symmetric) {
    s.(h := Hash([s.h, data]))
  }

  function MixKey(s: Symmetric, input: Term): (r: Symmetric) {
    var temp := Hmac(s.ck, [input]);
    var ck := Hmac(temp, [ONE]);
    s.(ck := ck, k := Hmac(temp, [ck, TWO]))
  }

  function MixKeyAndHash(s: Symmetric, input: Term): (r: Symmetric) {
    var temp := Hmac(s.ck, [input]);
    var ck := Hmac(temp, [ONE]);
    var temp2 := Hmac(temp, [ck, TWO]);
    MixHash(s.(ck := ck, k := Hmac(temp, [temp2, THREE])), temp2)
  }

  function EncryptAndHash(s: Symmetric, plain: seq<Term>): (r: Symmetric) {
    var cipher := Seal(s.k, NONCE_ZERO, plain, [s.h]);
    MixHash(s.(sent := s.sent + [cipher]), cipher)
  }

  /** The two transport keys: the initiator's sending key first. */
  function Split(s: Symmetric): (keys: (Term, Term)) {
    var temp := Hmac(s.ck, []);
    var k1 := Hmac(temp, [ONE]);
    (k1, Hmac(temp, [k1, TWO]))
  }

  datatype Token = E | S | EE | ES | SE | SS | Psk

  /** The sender's public keys and the shared secrets; a message uses those its tokens name. */
  datatype Keys = Keys(e: Term, s: Term, ee: Term, es: Term, se: Term, ss: Term, psk: Term)

  function WriteToken(st: Symmetric, token: Token, keys: Keys): (r: Symmetric) {
    match token
    case E => MixKey(MixHash(st.(sent := st.sent + [keys.e]), keys.e), keys.e)
    case S => EncryptAndHash(st, [keys.s])
    case EE => MixKey(st, keys.ee)
    case ES => MixKey(st, keys.es)
    case SE => MixKey(st, keys.se)
    case SS => MixKey(st, keys.ss)
    case Psk => MixKeyAndHash(st, keys.psk)
  }

  function WriteTokens(st: Symmetric, tokens: seq<Token>, keys: Keys): (r: Symmetric)
    decreases |tokens|
  {
    if tokens == [] then st else WriteTokens(WriteToken(st, tokens[0], keys), tokens[1..], keys)
  }

  function WriteMessage(st: Symmetric, tokens: seq<Token>, keys: Keys, payload: seq<Term>): (r: Symmetric) {
    EncryptAndHash(WriteTokens(st, tokens, keys), payload)
  }

  // IKpsk2: the responder's static key is known beforehand;
  //   -> e, es, s, ss
  //   <- e, ee, se, psk

  const FIRST := [E, ES, S, SS]
  const SECOND := [E, EE, SE, Psk]

  function Start(responderStatic: Term): (r: Symmetric) {
    MixHash(Symmetric(INITIAL_CHAIN_KEY, INITIAL_CHAIN_HASH, Zeros, []), responderStatic)
  }

  function Resume(ck: Term, h: Term): (r: Symmetric) {
    Symmetric(ck, h, Zeros, [])
  }

  function FirstKeys(e: Term, s: Term, es: Term, ss: Term): (k: Keys) {
    Keys(e, s, Zeros, es, Zeros, ss, Zeros)
  }

  function SecondKeys(e: Term, ee: Term, se: Term, psk: Term): (k: Keys) {
    Keys(e, Zeros, ee, Zeros, se, Zeros, psk)
  }

  function FirstMessage(responderStatic: Term, keys: Keys, stamp: Term): (r: Symmetric) {
    WriteMessage(Start(responderStatic), FIRST, keys, [stamp])
  }

  function SecondMessage(ck: Term, h: Term, keys: Keys): (r: Symmetric) {
    WriteMessage(Resume(ck, h), SECOND, keys, [])
  }

  lemma FourTokens(st: Symmetric, a: Token, b: Token, c: Token, d: Token, keys: Keys)
    ensures WriteTokens(st, [a, b, c, d], keys)
         == WriteToken(WriteToken(WriteToken(WriteToken(st, a, keys), b, keys), c, keys), d, keys)
  {
    hide WriteToken;
    var st1 := WriteToken(st, a, keys);
    var st2 := WriteToken(st1, b, keys);
    var st3 := WriteToken(st2, c, keys);
    assert [a, b, c, d][1..] == [b, c, d];
    assert [b, c, d][1..] == [c, d];
    assert [c, d][1..] == [d];
    assert [d][1..] == [];
    assert WriteTokens(st3, [d], keys) == WriteTokens(WriteToken(st3, d, keys), [], keys);
    assert WriteTokens(st2, [c, d], keys) == WriteTokens(st3, [d], keys);
  }

  /** The state a receiver has reached before it opens the initiator's static key. */
  function FirstHead(responderStatic: Term, e: Term, es: Term): (r: Symmetric) {
    var st := Start(responderStatic);
    MixKey(MixKey(MixHash(st.(sent := [e]), e), e), es)
  }

  /** The first message in the order a receiver takes it apart. */
  lemma FirstMessageUnrolled(responderStatic: Term, keys: Keys, stamp: Term)
    ensures var st := FirstHead(responderStatic, keys.e, keys.es);
            var encStatic := Seal(st.k, NONCE_ZERO, [keys.s], [st.h]);
            var st' := MixKey(MixHash(st, encStatic), keys.ss);
            var encStamp := Seal(st'.k, NONCE_ZERO, [stamp], [st'.h]);
            FirstMessage(responderStatic, keys, stamp)
            == MixHash(st', encStamp).(sent := [keys.e, encStatic, encStamp])
  {
    FourTokens(Start(responderStatic), E, ES, S, SS, keys);
  }

  lemma SecondMessageUnrolled(ck: Term, h: Term, keys: Keys)
    ensures var st := MixKey(MixHash(Resume(ck, h).(sent := [keys.e]), keys.e), keys.e);
            var st' := MixKeyAndHash(MixKey(MixKey(st, keys.ee), keys.se), keys.psk);
            var encNothing := Seal(st'.k, NONCE_ZERO, [], [st'.h]);
            SecondMessage(ck, h, keys) == MixHash(st', encNothing).(sent := [keys.e, encNothing])
  {
    FourTokens(Resume(ck, h), E, EE, SE, Psk, keys);
  }
}
