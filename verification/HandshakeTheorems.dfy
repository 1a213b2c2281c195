/** What the handshake is for: agreement of the two parties, and what every run of one party keeps. */
module HandshakeTheorems {
  import opened Basics
  import opened Constants
  import opened Crypto
  import opened Noise
  import opened HandshakeSpec

  // Agreement.

  /** Each side expects the other, and both have the same preshared key. */
  predicate Matched(i: Params, r: Params) {
    && i.peerStaticPublic == r.staticPublic
    && r.peerStaticPublic == i.staticPublic
    && PskOf(i) == PskOf(r)
  }

  datatype Exchange = Exchange(
    i: View, r: View, initiation: Result<Message>,
    response: Result<(Message, Session)>, finish: Result<Session>)

  /** One handshake: the initiator formats, the responder answers, the initiator takes the answer. */
  function RunExchange(i: View, r: View, e1: nat, e2: nat, stamp: Tai64N, now: nat, len1: nat, len2: nat): (x: Exchange) {
    var (i1, m1) := FormatInitiation(i, len1, e1, stamp, now);
    if m1.Err? then Exchange(i1, r, m1, Err(UnexpectedPacket), Err(UnexpectedPacket))
    else
      var (r1, m2) := ReceiveInitiation(r, m1.value, len2, e2);
      if m2.Err? then Exchange(i1, r1, m1, m2, Err(UnexpectedPacket))
      else
        var (i2, s) := ReceiveResponse(i1, m2.value.0);
        Exchange(i2, r1, m1, m2, s)
  }

  /** The sending key of each side is the receiving key of the other, and likewise the indices. */
  predicate Crossed(a: Session, b: Session) {
    && a.sendingKey == b.receivingKey && a.receivingKey == b.sendingKey
    && a.sendingIndex == b.receivingIndex && a.receivingIndex == b.sendingIndex
    && a.sendingKey != a.receivingKey
  }

  lemma SameFirstTranscript(i: Params, r: Params, e: nat, stamp: Tai64N)
    requires Coherent(i) && Coherent(r)
    requires i.peerStaticPublic == r.staticPublic && r.peerStaticPublic == i.staticPublic
    ensures ExpectedInitiation(r, PublicKey(e), Stamp(stamp.secs, stamp.nano)) == InitiationTranscript(i, e, stamp)
  {
    DhCommutes(e, r.staticPrivate);
    DhCommutes(i.staticPrivate, r.staticPrivate);
  }

  lemma InitiationFields(i: Params, e: nat, stamp: Tai64N, m: Message)
    requires m.Initiation? && [m.ephemeral, m.encStatic, m.encStamp] == InitiationTranscript(i, e, stamp).sent
    ensures m.ephemeral == PublicKey(e)
    ensures StampIn(m.encStamp) == Some(Stamp(stamp.secs, stamp.nano))
    ensures m.encStatic.Seal? && m.encStatic.plain == [i.staticPublic]
    ensures m.encStatic.aad == [Hash([Hash([INITIAL_CHAIN_HASH, i.peerStaticPublic]), m.ephemeral])]
  {
    var keys := FirstKeys(PublicKey(e), i.staticPublic, Dh(e, i.peerStaticPublic), i.staticShared);
    FirstMessageUnrolled(i.peerStaticPublic, keys, Stamp(stamp.secs, stamp.nano));
    var sent := InitiationTranscript(i, e, stamp).sent;
    assert m.ephemeral == sent[0] && m.encStatic == sent[1] && m.encStamp == sent[2];
  }

  lemma AuthenticNames(r: Params, m: Message)
    requires m.Initiation? && AuthenticInitiation(r, m) && m.encStatic.Seal?
    ensures m.encStatic.plain == [r.peerStaticPublic]
    ensures m.encStatic.aad == [Hash([Hash([INITIAL_CHAIN_HASH, r.staticPublic]), m.ephemeral])]
  {
    AuthenticByOpening(r, m);
  }

  /** A formatted initiation is authentic to exactly the party it was written for. */
  lemma InitiationAuthenticIff(i: Params, r: Params, e: nat, stamp: Tai64N, m: Message)
    requires Coherent(i) && Coherent(r) && m.Initiation?
    requires [m.ephemeral, m.encStatic, m.encStamp] == InitiationTranscript(i, e, stamp).sent
    ensures StampIn(m.encStamp) == Some(Stamp(stamp.secs, stamp.nano)) && m.ephemeral == PublicKey(e)
    ensures AuthenticInitiation(r, m) <==> i.peerStaticPublic == r.staticPublic && r.peerStaticPublic == i.staticPublic
  {
    hide InitiationTranscript, ExpectedInitiation;
    InitiationFields(i, e, stamp, m);
    if i.peerStaticPublic == r.staticPublic && r.peerStaticPublic == i.staticPublic {
      SameFirstTranscript(i, r, e, stamp);
    }
    if AuthenticInitiation(r, m) {
      AuthenticNames(r, m);
      assert [i.staticPublic][0] == [r.peerStaticPublic][0];
      var ours, theirs := m.encStatic.aad[0].parts[0], Hash([INITIAL_CHAIN_HASH, i.peerStaticPublic]);
      assert ours.parts[1] == r.staticPublic && ours == theirs;
    }
  }

  /** A response opens at the initiator exactly when the preshared keys are the same. */
  lemma ResponseAuthenticIff(i: Params, r: View, sent: Progress, e2: nat, m: Message)
    requires Coherent(i) && sent.InitSent? && m.Response? && r.state.InitReceived?
    requires r.state.chainingKey == sent.chainingKey && r.state.hash == sent.hash
    requires r.state.peerEphemeral == PublicKey(sent.ephemeralPrivate)
    requires r.params.peerStaticPublic == i.staticPublic
    requires [m.ephemeral, m.encNothing] == ResponseTranscript(r, e2).sent
    ensures m.ephemeral == PublicKey(e2)
    ensures AuthenticResponse(i, sent, m) <==> PskOf(i) == PskOf(r.params)
    ensures PskOf(i) == PskOf(r.params) ==> ExpectedResponse(i, sent, m.ephemeral) == ResponseTranscript(r, e2)
  {
    DhCommutes(e2, sent.ephemeralPrivate);
    DhCommutes(e2, i.staticPrivate);
    var ee, se := Dh(e2, r.state.peerEphemeral), Dh(e2, r.params.peerStaticPublic);
    SecondMessageUnrolled(sent.chainingKey, sent.hash, SecondKeys(PublicKey(e2), ee, se, PskOf(r.params)));
    SecondMessageUnrolled(sent.chainingKey, sent.hash, SecondKeys(PublicKey(e2), ee, se, PskOf(i)));
    var theirs := ResponseTranscript(r, e2).sent;
    assert m.ephemeral == theirs[0] && m.encNothing == theirs[1];
    var ours := ExpectedResponse(i, sent, m.ephemeral).sent;
    assert AuthenticResponse(i, sent, m) <==> ours[1] == theirs[1];
  }

  lemma SplitKeysDiffer(t: Symmetric)
    ensures Split(t).0 != Split(t).1
  {
    var temp := Hmac(t.ck, []);
    assert |[ONE]| != |[Hmac(temp, [ONE]), TWO]|;
  }

  /** For all keys, ephemerals, preshared keys and prior states, with room for the messages, a handshake
      completes exactly when the two sides are configured for each other and the timestamp is newer
      than the last one; and then the two sessions are crossed. */
  lemma HandshakeAgreement(i: View, r: View, e1: nat, e2: nat, stamp: Tai64N, now: nat, len1: nat, len2: nat)
    requires Coherent(i.params) && Coherent(r.params)
    requires len1 >= HANDSHAKE_INIT_SZ && len2 >= HANDSHAKE_RESP_SZ
    ensures var x := RunExchange(i, r, e1, e2, stamp, now, len1, len2);
            x.finish.Ok? <==> Matched(i.params, r.params) && After(stamp, r.lastTimestamp)
    ensures var x := RunExchange(i, r, e1, e2, stamp, now, len1, len2);
            x.finish.Ok? ==> x.response.Ok? && Crossed(x.finish.value, x.response.value.1)
  {
    hide InitiationTranscript, ExpectedInitiation, ResponseTranscript, ExpectedResponse, AuthenticInitiation,
         AuthenticResponse, Coherent;
    var (i1, m1) := FormatInitiation(i, len1, e1, stamp, now);
    var t := InitiationTranscript(i.params, e1, stamp);
    TranscriptShape(i.params, e1, stamp);
    assert [m1.value.ephemeral, m1.value.encStatic, m1.value.encStamp] == t.sent;
    InitiationAuthenticIff(i.params, r.params, e1, stamp, m1.value);
    if AuthenticInitiation(r.params, m1.value) && After(stamp, r.lastTimestamp) {
      SameFirstTranscript(i.params, r.params, e1, stamp);
      var received := r.(lastTimestamp := stamp, previous := r.state,
                         state := InitReceived(t.h, t.ck, PublicKey(e1), m1.value.senderIdx));
      var (r1, m2) := FormatResponse(received, len2, e2);
      ResponseShape(received, e2);
      var m := m2.value.0;
      assert [m.ephemeral, m.encNothing] == ResponseTranscript(received, e2).sent;
      ResponseAuthenticIff(i.params, received, i1.state, e2, m);
      SplitKeysDiffer(ResponseTranscript(received, e2));
    }
  }

  // Runs of one party.

  datatype Op =
    | Initiate(dstLen: nat, e: nat, stamp: Tai64N, now: nat)
    | TakeInitiation(m: Message, dstLen: nat, e: nat)
    | TakeResponse(m: Message)
    | TakeCookieReply(m: Message)
    | Expire
    | DropCookie
    | ChangeKey(key: nat)

  predicate WellFormedOp(op: Op) {
    && (op.TakeInitiation? ==> op.m.Initiation?)
    && (op.TakeResponse? ==> op.m.Response?)
    && (op.TakeCookieReply? ==> op.m.CookieReply?)
  }

  function Step(v: View, op: Op): (v': View)
    requires WellFormedOp(op)
  {
    match op
    case Initiate(dstLen, e, stamp, now) => FormatInitiation(v, dstLen, e, stamp, now).0
    case TakeInitiation(m, dstLen, e) => ReceiveInitiation(v, m, dstLen, e).0
    case TakeResponse(m) => ReceiveResponse(v, m).0
    case TakeCookieReply(m) => ReceiveCookieReply(v, m).0
    case Expire => SetExpired(v)
    case DropCookie => ClearCookie(v)
    case ChangeKey(key) => SetStaticPrivate(v, key)
  }

  function Run(v: View, ops: seq<Op>): (v': View)
    requires forall k :: 0 <= k < |ops| ==> WellFormedOp(ops[k])
    decreases |ops|
  {
    if ops == [] then v else Run(Step(v, ops[0]), ops[1..])
  }

  /** The pending initiations sit at the end of the cycle of indices: the current one carries the last
      index given out, the previous one that or the index before it, and they never share one. */
  ghost predicate PendingInv(v: View) {
    && Coherent(v.params)
    && (v.state.InitSent? ==> v.state.localIndex == v.nextIndex)
    && (v.previous.InitSent? ==> v.previous.localIndex == v.nextIndex || NextIndex(v.previous.localIndex) == v.nextIndex)
    && (v.state.InitSent? && v.previous.InitSent? ==> v.state.localIndex != v.previous.localIndex)
  }

  lemma NextIndexDiffers(index: nat)
    ensures NextIndex(index) != index
  {}

  lemma StepKeepsPendingInv(v: View, op: Op)
    requires WellFormedOp(op) && PendingInv(v)
    ensures PendingInv(Step(v, op))
  {
    hide InitiationTranscript, ExpectedInitiation, ResponseTranscript, ExpectedResponse;
    NextIndexDiffers(v.nextIndex);
  }

  lemma {:induction false} RunKeepsPendingInv(v: View, ops: seq<Op>)
    requires PendingInv(v)
    requires forall k :: 0 <= k < |ops| ==> WellFormedOp(ops[k])
    ensures PendingInv(Run(v, ops))
    decreases |ops|
  {
    if ops != [] {
      StepKeepsPendingInv(v, ops[0]);
      RunKeepsPendingInv(Step(v, ops[0]), ops[1..]);
    }
  }

  /** In every run from a new handshake, of any length and with any packets and buffers, two handshakes
      in flight stay distinguishable. */
  lemma TwoInFlight(staticPrivate: nat, peer: Term, psk: Option<Term>, globalIdx: nat, ops: seq<Op>)
    requires forall k :: 0 <= k < |ops| ==> WellFormedOp(ops[k])
    ensures PendingInv(Run(NewView(NewParams(staticPrivate, peer, psk), globalIdx), ops))
  {
    hide Run, PendingInv;
    NewPendingInv(staticPrivate, peer, psk, globalIdx);
    RunKeepsPendingInv(NewView(NewParams(staticPrivate, peer, psk), globalIdx), ops);
  }

  lemma NewPendingInv(staticPrivate: nat, peer: Term, psk: Option<Term>, globalIdx: nat)
    ensures PendingInv(NewView(NewParams(staticPrivate, peer, psk), globalIdx))
  {}

  /** The peer's 24 bits of the index never change. */
  lemma {:induction false} PeerIndexKept(v: View, ops: seq<Op>)
    requires forall k :: 0 <= k < |ops| ==> WellFormedOp(ops[k])
    ensures Run(v, ops).nextIndex / 256 == v.nextIndex / 256
    decreases |ops|
  {
    if ops != [] {
      hide InitiationTranscript, ExpectedInitiation, ResponseTranscript, ExpectedResponse;
      PeerIndexKept(Step(v, ops[0]), ops[1..]);
    }
  }

  // Initiations are taken at most once.

  predicate NotBefore(a: Tai64N, b: Tai64N) {
    a == b || After(a, b)
  }

  lemma {:induction false} TimestampsGrow(v: View, ops: seq<Op>)
    requires forall k :: 0 <= k < |ops| ==> WellFormedOp(ops[k])
    ensures NotBefore(Run(v, ops).lastTimestamp, v.lastTimestamp)
    decreases |ops|
  {
    if ops != [] {
      hide InitiationTranscript, ExpectedInitiation, ResponseTranscript, ExpectedResponse;
      TimestampsGrow(Step(v, ops[0]), ops[1..]);
    }
  }

  predicate Accepts(v: View, m: Message)
    requires m.Initiation?
  {
    AuthenticInitiation(v.params, m)
    && var stamp := StampIn(m.encStamp).value; After(Tai64N(stamp.secs, stamp.nano), v.lastTimestamp)
  }

  /** Once an initiation has been accepted, no later delivery of it is accepted, in any run. */
  lemma InitiationTakenOnce(v: View, m: Message, len: nat, e: nat, ops: seq<Op>, len': nat, e': nat)
    requires m.Initiation? && Accepts(v, m)
    requires forall k :: 0 <= k < |ops| ==> WellFormedOp(ops[k])
    ensures var later := Run(ReceiveInitiation(v, m, len, e).0, ops);
            ReceiveInitiation(later, m, len', e').1.Err? && ReceiveInitiation(later, m, len', e').0 == later
  {
    hide InitiationTranscript, ExpectedInitiation, ResponseTranscript, ExpectedResponse, AuthenticInitiation;
    TimestampsGrow(ReceiveInitiation(v, m, len, e).0, ops);
  }

  // Responses are taken at most once.

  function Unhash(t: Term): (parts: seq<Term>) {
    if t.Hash? && |t.parts| == 2 then t.parts else [Zeros, Zeros]
  }

  /** The ephemeral key that went into the final hash of an initiation. */
  function EphemeralIn(hash: Term): (e: Term) {
    Unhash(Unhash(Unhash(hash)[0])[0])[1]
  }

  /** The ephemeral key of the initiation whose hash a response is sealed over. */
  function Answers(m: Message): (e: Term)
    requires m.Response?
  {
    if m.encNothing.Seal? && |m.encNothing.aad| == 1 then EphemeralIn(Unhash(Unhash(m.encNothing.aad[0])[0])[0]) else Zeros
  }

  lemma InitiationHashNamesEphemeral(p: Params, e: nat, stamp: Tai64N)
    ensures EphemeralIn(InitiationTranscript(p, e, stamp).h) == PublicKey(e)
  {
    FirstMessageUnrolled(p.peerStaticPublic,
      FirstKeys(PublicKey(e), p.staticPublic, Dh(e, p.peerStaticPublic), p.staticShared), Stamp(stamp.secs, stamp.nano));
  }

  /** An accepted response is sealed over the hash of the initiation it completes and no other. */
  lemma ResponseNamesInitiation(p: Params, sent: Progress, m: Message)
    requires sent.InitSent? && m.Response? && AuthenticResponse(p, sent, m)
    ensures Answers(m) == EphemeralIn(sent.hash)
  {
    SecondMessageUnrolled(sent.chainingKey, sent.hash,
      SecondKeys(m.ephemeral, Dh(sent.ephemeralPrivate, m.ephemeral), Dh(p.staticPrivate, m.ephemeral), PskOf(p)));
    assert m.encNothing == ExpectedResponse(p, sent, m.ephemeral).sent[1];
  }

  /** A run with its history: the ephemeral secrets drawn so far and the responses accepted so far. */
  datatype Log = Log(v: View, drawn: set<nat>, completed: seq<Message>)

  /** Ephemeral secrets are random: one that was drawn before is not drawn again. */
  predicate Draws(l: Log, op: Op) {
    WellFormedOp(op) && (op.Initiate? ==> op.e !in l.drawn)
  }

  function LogStep(l: Log, op: Op): (l': Log)
    requires WellFormedOp(op)
  {
    Log(Step(l.v, op),
        if op.Initiate? then l.drawn + {op.e} else l.drawn,
        if op.TakeResponse? && ReceiveResponse(l.v, op.m).1.Ok? then l.completed + [op.m] else l.completed)
  }

  ghost predicate FreshRun(l: Log, ops: seq<Op>)
    decreases |ops|
  {
    ops == [] || (Draws(l, ops[0]) && FreshRun(LogStep(l, ops[0]), ops[1..]))
  }

  function LogRun(l: Log, ops: seq<Op>): (l': Log)
    requires FreshRun(l, ops)
    decreases |ops|
  {
    if ops == [] then l else LogRun(LogStep(l, ops[0]), ops[1..])
  }

  predicate Unanswered(l: Log, p: Progress) {
    p.InitSent? ==>
      && EphemeralIn(p.hash) == PublicKey(p.ephemeralPrivate)
      && p.ephemeralPrivate in l.drawn
      && forall k :: 0 <= k < |l.completed| ==>
           l.completed[k].Response? && Answers(l.completed[k]) != PublicKey(p.ephemeralPrivate)
  }

  ghost predicate LogInv(l: Log) {
    && Unanswered(l, l.v.state) && Unanswered(l, l.v.previous)
    && (l.v.state.InitSent? && l.v.previous.InitSent? ==> l.v.state.ephemeralPrivate != l.v.previous.ephemeralPrivate)
    && (forall k :: 0 <= k < |l.completed| ==>
          l.completed[k].Response? && Answers(l.completed[k]).PublicKey? && Answers(l.completed[k]).secret in l.drawn)
    && (forall j, k :: 0 <= j < k < |l.completed| ==> Answers(l.completed[j]) != Answers(l.completed[k]))
  }

  lemma LogStepKeepsInv(l: Log, op: Op)
    requires Draws(l, op) && LogInv(l)
    ensures LogInv(LogStep(l, op))
  {
    hide InitiationTranscript, ExpectedInitiation, ResponseTranscript, ExpectedResponse, EphemeralIn, Answers,
         AuthenticResponse, AuthenticInitiation;
    match op {
      case Initiate(_, e, stamp, _) =>
        InitiationHashNamesEphemeral(l.v.params, e, stamp);
      case TakeResponse(m) =>
        if ReceiveResponse(l.v, m).1.Ok? {
          var sent := if Addressee(l.v, m).Current? then l.v.state else l.v.previous;
          ResponseNamesInitiation(l.v.params, sent, m);
        }
      case _ =>
    }
  }

  /** In every run with fresh ephemerals, no initiation is completed twice, not even after the session
      index it carries has come round again. */
  lemma {:induction false} ResponseTakenOnce(l: Log, ops: seq<Op>)
    requires LogInv(l) && FreshRun(l, ops)
    ensures LogInv(LogRun(l, ops))
    decreases |ops|
  {
    if ops != [] {
      LogStepKeepsInv(l, ops[0]);
      ResponseTakenOnce(LogStep(l, ops[0]), ops[1..]);
    }
  }

  /** The same from the start of a handshake: the accepted responses answer pairwise different
      initiations, so none is completed twice. */
  lemma ResponsesDistinct(params: Params, globalIdx: nat, ops: seq<Op>)
    requires FreshRun(Log(NewView(params, globalIdx), {}, []), ops)
    ensures var done := LogRun(Log(NewView(params, globalIdx), {}, []), ops).completed;
            && (forall k :: 0 <= k < |done| ==> done[k].Response?)
            && (forall j, k :: 0 <= j < k < |done| ==> Answers(done[j]) != Answers(done[k]) && done[j] != done[k])
  {
    ResponseTakenOnce(Log(NewView(params, globalIdx), {}, []), ops);
  }

  // What each message is met with.

  /** Timestamps are ordered as the 96-bit numbers they are written as: seconds, then nanoseconds. */
  lemma LaterAsNumber(a: Tai64N, b: Tai64N)
    requires a.nano < 0x1_0000_0000 && b.nano < 0x1_0000_0000
    ensures After(a, b) <==> a.secs * 0x1_0000_0000 + a.nano > b.secs * 0x1_0000_0000 + b.nano
  {
    if a.secs > b.secs { assert a.secs * 0x1_0000_0000 >= (b.secs + 1) * 0x1_0000_0000; }
    if a.secs < b.secs { assert b.secs * 0x1_0000_0000 >= (a.secs + 1) * 0x1_0000_0000; }
  }

  /** The four ways an initiation is refused, and that it is accepted otherwise: a static key that opens
      and is not the peer's; a field that does not open; a timestamp that is not newer; a buffer too short
      for the answer. Only the last leaves a trace. */
  lemma InitiationVerdict(v: View, m: Message, dstLen: nat, e: nat)
    requires m.Initiation?
    ensures var st := FirstHead(v.params.staticPublic, m.ephemeral, Dh(v.params.staticPrivate, m.ephemeral));
            var name := Open(st.k, NONCE_ZERO, m.encStatic, [st.h]);
            var (v', r) := ReceiveInitiation(v, m, dstLen, e);
            var stamp := StampIn(m.encStamp);
            && (r == Err(WrongKey) <==> name.Some? && name.value != [v.params.peerStaticPublic])
            && (r == Err(InvalidAeadTag) <==>
                  name.None? || (name.value == [v.params.peerStaticPublic] && !AuthenticInitiation(v.params, m)))
            && (r == Err(WrongTai64nTimestamp) <==>
                  AuthenticInitiation(v.params, m) && stamp.Some?
                  && !After(Tai64N(stamp.value.secs, stamp.value.nano), v.lastTimestamp))
            && (r == Err(DestinationBufferTooSmall) <==>
                  AuthenticInitiation(v.params, m) && stamp.Some? && dstLen < 92
                  && After(Tai64N(stamp.value.secs, stamp.value.nano), v.lastTimestamp))
            && (r.Ok? <==>
                  AuthenticInitiation(v.params, m) && stamp.Some? && dstLen >= 92
                  && After(Tai64N(stamp.value.secs, stamp.value.nano), v.lastTimestamp))
            && (r.Err? && r != Err(DestinationBufferTooSmall) ==> v' == v)
  {
    hide ExpectedInitiation, ResponseTranscript, FirstHead;
    AuthenticByOpening(v.params, m);
  }

  /** A cookie reply is taken exactly when one is awaited, it names the last message's index, and its seal
      was made for this peer's key, over the MAC of that message; then its content is the cookie. */
  lemma CookieReplyVerdict(v: View, m: Message, cookie: Term)
    requires m.CookieReply?
    ensures ReceiveCookieReply(v, m) == (v.(cookies := v.cookies.(writeCookie := Some(cookie))), Ok(())) <==>
              && v.cookies.lastMac1.Some? && m.receiverIdx == v.cookies.index
              && m.encCookie == Seal(Hash([LABEL_COOKIE, v.params.peerStaticPublic]), m.nonce, [cookie], [v.cookies.lastMac1.value])
    ensures ReceiveCookieReply(v, m).1.Err? ==> ReceiveCookieReply(v, m).0 == v
  {
    if v.cookies.lastMac1.Some? {
      var key, aad := Hash([LABEL_COOKIE, v.params.peerStaticPublic]), [v.cookies.lastMac1.value];
      OpenIffSealed(key, m.nonce, m.encCookie, aad, [cookie]);
      var plain := Open(key, m.nonce, m.encCookie, aad);
      if plain.Some? && |plain.value| == 1 {
        assert plain.value == [plain.value[0]];
      }
    }
  }
}
