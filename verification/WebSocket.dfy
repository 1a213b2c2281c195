/** WebSocket frames as the client writes and reads them (sections 5.2 to 5.4 of RFC 6455). */
module Frames {
  import opened Basics

  const MAX_FRAME: nat := 16 * 1024 * 1024

  type Mask = m: seq<byte> | |m| == 4 witness [0, 0, 0, 0]

  datatype Frame = Frame(fin: bool, opcode: nat, payload: seq<byte>)

  // Masking.

  /** The bits of a byte, by counting up, which the solver follows better than a conversion. */
  function Bits(n: byte): (x: bv8) {
    if n == 0 then 0 else Bits(n - 1) + 1
  }

  function Number(x: bv8): (n: byte) {
    x as nat
  }

  function Xor(a: byte, b: byte): (r: byte) {
    Number(XorBits(Bits(a), Bits(b)))
  }

  function XorBits(x: bv8, y: bv8): (z: bv8) {
    x ^ y
  }

  lemma OneMore(x: bv8)
    requires x < 255
    ensures (x + 1) as nat == x as nat + 1
  {}

  lemma {:induction false} NumberOfBits(n: byte)
    ensures Number(Bits(n)) == n
  {
    if n > 0 {
      NumberOfBits(n - 1);
      OneMore(Bits(n - 1));
    }
  }

  lemma BitsOfNumber(x: bv8)
    ensures Bits(Number(x)) == x
  {
    NumberOfBits(Number(x));
    SameNumberSameBits(Bits(Number(x)), x);
  }

  lemma XorCancels(x: bv8, y: bv8)
    ensures XorBits(XorBits(x, y), y) == x
  {}

  lemma XorTwice(a: byte, b: byte)
    ensures Xor(Xor(a, b), b) == a
  {
    hide Bits, Number, XorBits;
    BitsOfNumber(XorBits(Bits(a), Bits(b)));
    XorCancels(Bits(a), Bits(b));
    NumberOfBits(a);
  }

  /** Exclusive or of two numbers, binary digit by binary digit. */
  function Digitwise(a: nat, b: nat): (r: nat)
    decreases a + b
  {
    if a == 0 && b == 0 then 0
    else 2 * Digitwise(a / 2, b / 2) + if a % 2 == b % 2 then 0 else 1
  }

  function Half(x: bv8): (y: bv8) { x >> 1 }

  predicate Odd(x: bv8) { x & 1 == 1 }

  lemma HalfAsNumber(x: bv8)
    ensures Number(Half(x)) == Number(x) / 2
    ensures Odd(x) <==> Number(x) % 2 == 1
  {}

  lemma XorOfHalves(x: bv8, y: bv8)
    ensures Half(XorBits(x, y)) == XorBits(Half(x), Half(y))
    ensures Odd(XorBits(x, y)) <==> Odd(x) != Odd(y)
    ensures XorBits(0, 0) == 0
  {}

  lemma ZeroBits(x: bv8)
    ensures Number(x) == 0 <==> x == 0
  {
    if Number(x) == 0 { SameNumberSameBits(x, 0); }
  }

  lemma {:induction false} XorBitsDigitwise(x: bv8, y: bv8)
    ensures Number(XorBits(x, y)) == Digitwise(Number(x), Number(y))
    decreases Number(x) + Number(y)
  {
    hide Half, Odd, XorBits, Number;
    ZeroBits(x);
    ZeroBits(y);
    ZeroBits(0);
    XorOfHalves(x, y);
    if Number(x) != 0 || Number(y) != 0 {
      HalfAsNumber(x);
      HalfAsNumber(y);
      HalfAsNumber(XorBits(x, y));
      XorBitsDigitwise(Half(x), Half(y));
    }
  }

  /** Masking a byte is exclusive or, digit by digit. */
  lemma XorIsDigitwise(a: byte, b: byte)
    ensures Xor(a, b) == Digitwise(a, b)
  {
    hide Bits, Number, XorBits, Digitwise;
    NumberOfBits(a);
    NumberOfBits(b);
    XorBitsDigitwise(Bits(a), Bits(b));
  }

  function Masked(payload: seq<byte>, mask: Mask): (r: seq<byte>)
    ensures |r| == |payload|
  {
    seq(|payload|, i requires 0 <= i < |payload| => Xor(payload[i], mask[i % 4]))
  }

  lemma MaskedTwice(payload: seq<byte>, mask: Mask)
    ensures Masked(Masked(payload, mask), mask) == payload
  {
    hide Xor;
    forall i | 0 <= i < |payload| ensures Masked(Masked(payload, mask), mask)[i] == payload[i] {
      XorTwice(payload[i], mask[i % 4]);
    }
  }

  // Lengths.

  lemma Bounds()
    ensures Bound(2) == 65536 && Bound(8) > MAX_FRAME
  {
    assert Bound(2) == 65536 && Bound(4) == 65536 * 65536;
    BoundGrows(4, 8);
  }

  // Encoding.

  function LenBytes(len: nat, masked: bool): (b: seq<byte>) {
    var bit := if masked then 128 else 0;
    if len < 126 then [bit + len]
    else if len <= 65535 then [bit + 126] + ToBe(len, 2)
    else [bit + 127] + ToBe(len, 8)
  }

  function Encode(f: Frame, mask: Option<Mask>): (b: seq<byte>)
    requires f.opcode < 16
  {
    [(if f.fin then 128 else 0) + f.opcode] + LenBytes(|f.payload|, mask.Some?)
    + (if mask.Some? then mask.value + Masked(f.payload, mask.value) else f.payload)
  }

  /** The single-frame examples of section 5.7 of RFC 6455: "Hello", plain and masked, and the header of a
      binary message of 256 bytes. */
  lemma SpecifiedFrames(payload: seq<byte>)
    ensures Encode(Frame(true, 1, [0x48, 0x65, 0x6c, 0x6c, 0x6f]), None) == [0x81, 0x05, 0x48, 0x65, 0x6c, 0x6c, 0x6f]
    ensures Encode(Frame(true, 1, [0x48, 0x65, 0x6c, 0x6c, 0x6f]), Some([0x37, 0xfa, 0x21, 0x3d]))
            == [0x81, 0x85, 0x37, 0xfa, 0x21, 0x3d, 0x7f, 0x9f, 0x4d, 0x51, 0x58]
    ensures |payload| == 256 ==> Encode(Frame(true, 2, payload), None) == [0x82, 0x7e, 0x01, 0x00] + payload
  {
    hide Xor, Masked, ToBe;
    HelloMasked();
    assert ToBe(256, 2) == [1, 0] by { TwoDigits(256); }
  }

  lemma HelloMasked()
    ensures Masked([0x48, 0x65, 0x6c, 0x6c, 0x6f], [0x37, 0xfa, 0x21, 0x3d]) == [0x7f, 0x9f, 0x4d, 0x51, 0x58]
  {
    hide Xor;
    XorOfBits(0x48, 0x37, 0x7f);
    XorOfBits(0x65, 0xfa, 0x9f);
    XorOfBits(0x6c, 0x21, 0x4d);
    XorOfBits(0x6c, 0x3d, 0x51);
    XorOfBits(0x6f, 0x37, 0x58);
  }

  lemma XorOfBits(x: bv8, y: bv8, z: bv8)
    requires XorBits(x, y) == z
    ensures Xor(x as nat, y as nat) == z as nat
  {
    hide Bits, XorBits;
    BitsOfNumber(x);
    BitsOfNumber(y);
  }

  lemma TwoDigits(n: nat)
    requires n < 65536
    ensures ToBe(n, 2) == [n / 256, n % 256]
  {
    assert ToBe(n / 256, 1) == ToBe(n / 256 / 256, 0) + [n / 256 % 256];
  }

  // Decoding.

  datatype Read = Got(frame: Frame, rest: seq<byte>) | Short | TooLarge

  /** Where the length ends and what it says; the three forms are not checked for being the shortest. */
  function Length(s: seq<byte>): (r: Option<(nat, nat)>)
    requires |s| >= 2
    ensures r.Some? ==> 2 <= r.value.1 <= |s|
  {
    var n := s[1] % 128;
    if n == 126 then if |s| < 4 then None else Some((FromBe(s[2..4]), 4))
    else if n == 127 then if |s| < 10 then None else Some((FromBe(s[2..10]), 10))
    else Some((n, 2))
  }

  function Decode(s: seq<byte>): (r: Read)
    ensures r.Got? ==> |r.rest| < |s|
  {
    if |s| < 2 then Short
    else
      var l := Length(s);
      if l.None? then Short
      else
        var (len, at) := l.value;
        if len > MAX_FRAME then TooLarge
        else
          var masked := s[1] >= 128;
          var from := if masked then at + 4 else at;
          if |s| < from + len then Short
          else
            var raw := s[from..from + len];
            Got(Frame(s[0] >= 128, s[0] % 16, if masked then Masked(raw, s[at..at + 4]) else raw), s[from + len..])
  }

  lemma LengthRoundTrip(first: byte, len: nat, masked: bool, tail: seq<byte>)
    requires len <= MAX_FRAME
    ensures var s := [first] + LenBytes(len, masked) + tail;
            && Length(s) == Some((len, 1 + |LenBytes(len, masked)|))
            && s[1 + |LenBytes(len, masked)|..] == tail
            && s[0] == first && (s[1] >= 128 <==> masked)
  {
    hide FromBe, ToBe, Bound;
    Bounds();
    var s := [first] + LenBytes(len, masked) + tail;
    if 126 <= len <= 65535 {
      BeRoundTrip(len, 2);
      assert s[2..4] == ToBe(len, 2);
    } else if len > 65535 {
      BeRoundTrip(len, 8);
      assert s[2..10] == ToBe(len, 8);
    }
  }

  /** The fields after the length, at their places. */
  lemma TailPlaces(s: seq<byte>, at: nat, a: seq<byte>, b: seq<byte>, rest: seq<byte>)
    requires at <= |s| && s[at..] == a + b + rest
    ensures at + |a| + |b| <= |s|
    ensures s[at..at + |a|] == a && s[at + |a|..at + |a| + |b|] == b && s[at + |a| + |b|..] == rest
  {
    var tail := a + b + rest;
    assert forall i :: 0 <= i < |tail| ==> s[at + i] == tail[i];
  }

  lemma DecodeAs(s: seq<byte>, fin: bool, opcode: nat, len: nat, at: nat, head: seq<byte>, raw: seq<byte>, rest: seq<byte>)
    requires |s| >= 2 && Length(s) == Some((len, at)) && len <= MAX_FRAME && opcode < 16
    requires s[0] == (if fin then 128 else 0) + opcode
    requires |head| == (if s[1] >= 128 then 4 else 0) && |raw| == len
    requires s[at..] == head + raw + rest
    ensures Decode(s) == Got(Frame(fin, opcode, if s[1] >= 128 then Masked(raw, head) else raw), rest)
  {
    hide Length, Masked;
    TailPlaces(s, at, head, raw, rest);
  }

  /** Reading back a written frame gives the frame, and exactly its bytes are taken from the stream. */
  lemma DecodeInvertsEncode(f: Frame, mask: Option<Mask>, rest: seq<byte>)
    requires f.opcode < 16 && |f.payload| <= MAX_FRAME
    ensures Decode(Encode(f, mask) + rest) == Got(f, rest)
  {
    hide LenBytes, Length, Masked, Decode;
    var first: byte := (if f.fin then 128 else 0) + f.opcode;
    var lb := LenBytes(|f.payload|, mask.Some?);
    var head: seq<byte> := if mask.Some? then mask.value else [];
    var raw := if mask.Some? then Masked(f.payload, mask.value) else f.payload;
    var s := [first] + lb + (head + raw + rest);
    assert Encode(f, mask) + rest == s;
    LengthRoundTrip(first, |f.payload|, mask.Some?, head + raw + rest);
    DecodeAs(s, f.fin, f.opcode, |f.payload|, 1 + |lb|, head, raw, rest);
    if mask.Some? { MaskedTwice(f.payload, mask.value); }
  }

  /** No byte string that reads as this frame, masked or not alike, is shorter than the encoding. */
  lemma EncodingIsShortest(s: seq<byte>, f: Frame, rest: seq<byte>, mask: Option<Mask>)
    requires f.opcode < 16 && Decode(s) == Got(f, rest) && (s[1] >= 128 <==> mask.Some?)
    ensures |Encode(f, mask)| <= |s| - |rest|
  {
    hide FromBe, ToBe, Bound, Masked;
    Bounds();
    if |s| >= 4 { FromBeBound(s[2..4]); }
  }

  // Streams of frames.

  datatype Sent = Sent(frame: Frame, mask: Option<Mask>)

  predicate Sendable(x: Sent) {
    x.frame.opcode < 16 && |x.frame.payload| <= MAX_FRAME
  }

  function EncodeAll(xs: seq<Sent>): (b: seq<byte>)
    requires forall k :: 0 <= k < |xs| ==> Sendable(xs[k])
  {
    if xs == [] then [] else assert Sendable(xs[0]); Encode(xs[0].frame, xs[0].mask) + EncodeAll(xs[1..])
  }

  /** Read frames until the stream ends or cannot be read on. */
  function DecodeAll(s: seq<byte>): (r: (seq<Frame>, seq<byte>))
    decreases |s|
  {
    var d := Decode(s);
    if !d.Got? then ([], s)
    else
      var (fs, rest) := DecodeAll(d.rest);
      ([d.frame] + fs, rest)
  }

  function FramesOf(xs: seq<Sent>): (fs: seq<Frame>)
    ensures |fs| == |xs|
  {
    seq(|xs|, k requires 0 <= k < |xs| => xs[k].frame)
  }

  /** A whole stream of frames reads back as the same frames with nothing left over. */
  lemma {:induction false} StreamRoundTrip(xs: seq<Sent>)
    requires forall k :: 0 <= k < |xs| ==> Sendable(xs[k])
    ensures DecodeAll(EncodeAll(xs)) == (FramesOf(xs), [])
    decreases |xs|
  {
    if xs != [] {
      hide Encode, Decode;
      var rest := EncodeAll(xs[1..]);
      DecodeInvertsEncode(xs[0].frame, xs[0].mask, rest);
      StreamRoundTrip(xs[1..]);
      assert FramesOf(xs) == [xs[0].frame] + FramesOf(xs[1..]);
    } else {
      assert EncodeAll(xs) == [] && Decode([]) == Short;
    }
  }
}

/** Receiving messages: fragments are joined, pings are answered. */
module Reassembly {
  import opened Basics
  import opened Frames

  const CONTINUATION: nat := 0
  const TEXT: nat := 1
  const BINARY: nat := 2
  const CLOSE: nat := 8
  const PING: nat := 9
  const PONG: nat := 10

  /** What one receive ends with; a text message is handed to the JSON parser as it is. */
  datatype Outcome = Text(msg: seq<byte>) | Closed | StreamEnded | FrameTooLarge | UnknownOpcode

  /** The outcome, the bytes not read, and the bytes written in answer. */
  datatype Received = Received(outcome: Outcome, rest: seq<byte>, written: seq<byte>)

  /** Every pong is masked with a fresh mask. */
  function Pong(payload: seq<byte>, mask: Mask): (b: seq<byte>) {
    Encode(Frame(true, PONG, payload), Some(mask))
  }

  function Receive(s: seq<byte>, msg: seq<byte>, isText: bool, masks: nat -> Mask, k: nat): (r: Received)
    decreases |s|
  {
    var d := Decode(s);
    if d.Short? then Received(StreamEnded, s, [])
    else if d.TooLarge? then Received(FrameTooLarge, s, [])
    else
      var f := d.frame;
      if f.opcode == PING then
        var r := Receive(d.rest, msg, isText, masks, k + 1);
        r.(written := Pong(f.payload, masks(k)) + r.written)
      else if f.opcode == PONG then Receive(d.rest, msg, isText, masks, k)
      else if f.opcode == CLOSE then Received(Closed, d.rest, [])
      else if f.opcode > BINARY then Received(UnknownOpcode, d.rest, [])
      else
        var msg' := if f.opcode == CONTINUATION then msg + f.payload else f.payload;
        var isText' := if f.opcode == CONTINUATION then isText else f.opcode == TEXT;
        if !f.fin then Receive(d.rest, msg', isText', masks, k)
        else if isText' then Received(Text(msg'), d.rest, [])
        else Receive(d.rest, [], isText', masks, k)
  }

  // A text message in fragments.

  predicate IsControl(f: Frame) {
    f.opcode == PING || f.opcode == PONG
  }

  /** The frames of one text message, or what is left of one already started: fragments in order, the
      last one final and last of all, with pings and pongs anywhere before it. */
  predicate TextFrames(xs: seq<Sent>, started: bool)
    decreases |xs|
  {
    xs != [] && Sendable(xs[0]) &&
    var f := xs[0].frame;
    if IsControl(f) then TextFrames(xs[1..], started)
    else
      && f.opcode == (if started then CONTINUATION else TEXT)
      && if f.fin then |xs| == 1 else TextFrames(xs[1..], true)
  }

  /** The message the fragments make up. */
  function Joined(xs: seq<Sent>): (msg: seq<byte>)
    decreases |xs|
  {
    if xs == [] then [] else (if IsControl(xs[0].frame) then [] else xs[0].frame.payload) + Joined(xs[1..])
  }

  /** One pong for every ping, with its payload, in order. */
  function Pongs(xs: seq<Sent>, masks: nat -> Mask, k: nat): (b: seq<byte>)
    decreases |xs|
  {
    if xs == [] then []
    else if xs[0].frame.opcode == PING then Pong(xs[0].frame.payload, masks(k)) + Pongs(xs[1..], masks, k + 1)
    else Pongs(xs[1..], masks, k)
  }

  lemma {:induction false} TextFramesSendable(xs: seq<Sent>, started: bool)
    requires TextFrames(xs, started)
    ensures forall k :: 0 <= k < |xs| ==> Sendable(xs[k])
    decreases |xs|
  {
    if IsControl(xs[0].frame) { TextFramesSendable(xs[1..], started); }
    else if !xs[0].frame.fin { TextFramesSendable(xs[1..], true); }
  }

  /** One frame further along the stream. */
  lemma NextFrame(xs: seq<Sent>, rest: seq<byte>)
    requires xs != [] && forall k :: 0 <= k < |xs| ==> Sendable(xs[k])
    ensures Decode(EncodeAll(xs) + rest) == Got(xs[0].frame, EncodeAll(xs[1..]) + rest)
  {
    hide Encode, Decode;
    assert EncodeAll(xs) + rest == Encode(xs[0].frame, xs[0].mask) + (EncodeAll(xs[1..]) + rest);
    DecodeInvertsEncode(xs[0].frame, xs[0].mask, EncodeAll(xs[1..]) + rest);
  }

  lemma {:induction false} ReassemblesRest(xs: seq<Sent>, started: bool, msg: seq<byte>, isText: bool,
                                           masks: nat -> Mask, k: nat, rest: seq<byte>)
    requires TextFrames(xs, started) && (started ==> isText)
    requires forall j :: 0 <= j < |xs| ==> Sendable(xs[j])
    ensures Receive(EncodeAll(xs) + rest, msg, isText, masks, k)
         == Received(Text((if started then msg else []) + Joined(xs)), rest, Pongs(xs, masks, k))
    decreases |xs|
  {
    hide Decode, Encode, Pong, Sendable;
    var f, xs' := xs[0].frame, xs[1..];
    NextFrame(xs, rest);
    if f.opcode == PING {
      ReassemblesRest(xs', started, msg, isText, masks, k + 1, rest);
      assert [] + Joined(xs') == Joined(xs');
    } else if f.opcode == PONG {
      ReassemblesRest(xs', started, msg, isText, masks, k, rest);
      assert [] + Joined(xs') == Joined(xs');
    } else {
      var msg' := if started then msg + f.payload else f.payload;
      if f.fin {
        assert xs' == [] && EncodeAll(xs') + rest == rest;
        assert Joined(xs) == f.payload + Joined([]) == f.payload;
        assert [] + f.payload == f.payload;
        assert Pongs(xs, masks, k) == Pongs([], masks, k) == [];
      } else {
        ReassemblesRest(xs', true, msg', true, masks, k, rest);
        assert (if started then msg else []) + Joined(xs) == msg' + Joined(xs');
      }
    }
  }

  /** What ends a receive besides a text: a close frame, an opcode that is neither data nor control, and a
      stream that stops, which leaves the bytes that are no frame unread. */
  lemma OtherEnds(x: Sent, msg: seq<byte>, isText: bool, masks: nat -> Mask, k: nat, rest: seq<byte>)
    requires Sendable(x)
    ensures var s := Encode(x.frame, x.mask) + rest;
            && (x.frame.opcode == 8 ==> Receive(s, msg, isText, masks, k) == Received(Closed, rest, []))
            && (3 <= x.frame.opcode <= 7 || 11 <= x.frame.opcode ==> Receive(s, msg, isText, masks, k) == Received(UnknownOpcode, rest, []))
    ensures |rest| < 2 ==> Receive(rest, msg, isText, masks, k) == Received(StreamEnded, rest, [])
  {
    hide Encode;
    DecodeInvertsEncode(x.frame, x.mask, rest);
  }

  /** A binary message in one frame is dropped: the receive goes on as if it had not been sent. */
  lemma BinarySkipped(x: Sent, masks: nat -> Mask, k: nat, rest: seq<byte>)
    requires Sendable(x) && x.frame.opcode == 2 && x.frame.fin
    ensures Receive(Encode(x.frame, x.mask) + rest, [], false, masks, k) == Receive(rest, [], false, masks, k)
  {
    hide Encode, Decode;
    DecodeInvertsEncode(x.frame, x.mask, rest);
  }

  /** However a text message is split and whatever pings and pongs come in between, receiving it gives the
      unsplit message, answers every ping once and in order, and reads not a byte further. */
  lemma ReassemblesText(xs: seq<Sent>, masks: nat -> Mask, rest: seq<byte>)
    requires TextFrames(xs, false)
    ensures (TextFramesSendable(xs, false);
             Receive(EncodeAll(xs) + rest, [], false, masks, 0) == Received(Text(Joined(xs)), rest, Pongs(xs, masks, 0)))
  {
    hide Receive, Pongs;
    TextFramesSendable(xs, false);
    ReassemblesRest(xs, false, [], false, masks, 0, rest);
    assert [] + Joined(xs) == Joined(xs);
  }
}

module WebSockets {
  import opened Basics
  import opened Frames
  import opened Reassembly

  class Ws {
    /** Bytes still to arrive, and bytes written. */
    var input: seq<byte>
    var output: seq<byte>

    constructor (input: seq<byte>)
      ensures this.input == input && output == []
    {
      this.input, output := input, [];
    }

    method ReadExact(n: nat) returns (b: Option<seq<byte>>)
      modifies this`input
      ensures n <= |old(input)| ==> b == Some(old(input)[..n]) && input == old(input)[n..]
      ensures n > |old(input)| ==> b == None
    {
      if n > |input| { return None; }
      b := Some(input[..n]);
      input := input[n..];
    }

    /** Write one client frame: final and masked. */
    method WriteFrame(opcode: nat, payload: seq<byte>, mask: Mask)
      requires opcode < 16
      modifies this`output
      ensures output == old(output) + Encode(Frame(true, opcode, payload), Some(mask))
    {
      hide ToBe, Xor;
      var frame: seq<byte> := [128 + opcode];
      var len := |payload|;
      if len < 126 {
        frame := frame + [128 + len];
      } else if len <= 65535 {
        frame := frame + [128 + 126];
        frame := frame + ToBe(len, 2);
      } else {
        frame := frame + [128 + 127];
        frame := frame + ToBe(len, 8);
      }
      assert frame == [128 + opcode] + LenBytes(len, true);
      frame := frame + mask;
      frame := frame + Masked(payload, mask);
      assert frame == Encode(Frame(true, opcode, payload), Some(mask));
      output := output + frame;
    }

    method Unmask(a: array<byte>, mask: Mask)
      modifies a
      ensures a[..] == Masked(old(a[..]), mask)
    {
      hide Xor;
      for i := 0 to a.Length
        invariant forall j :: 0 <= j < i ==> a[j] == Xor(old(a[j]), mask[j % 4])
        invariant forall j :: i <= j < a.Length ==> a[j] == old(a[j])
      {
        a[i] := Xor(a[i], mask[i % 4]);
      }
    }

    /** Read an extended length, if the second byte of the header asks for one. */
    method ReadLength(second: byte, ghost s: seq<byte>) returns (len: Option<nat>)
      requires |s| >= 2 && s[1] == second && input == s[2..]
      modifies this`input
      ensures Length(s).None? ==> len == None
      ensures Length(s).Some? ==> len == Some(Length(s).value.0) && input == s[Length(s).value.1..]
    {
      hide FromBe;
      var n: nat := second % 128;
      if n == 126 {
        var l := ReadExact(2);
        if l.None? { return None; }
        assert l.value == s[2..4];
        n := FromBe(l.value);
      } else if n == 127 {
        var l := ReadExact(8);
        if l.None? { return None; }
        assert l.value == s[2..10];
        n := FromBe(l.value);
      }
      len := Some(n);
    }

    /** Read the mask, if there is one, and the payload, and unmask it in place. */
    method ReadBody(masked: bool, len: nat) returns (body: Option<seq<byte>>)
      modifies this`input
      ensures var s, from := old(input), if masked then 4 else 0;
              if |s| < from + len then body == None
              else body == Some(if masked then Masked(s[from..from + len], s[..4]) else s[from..from + len])
                   && input == s[from + len..]
    {
      hide Masked;
      ghost var s := input;
      var mask: Option<Mask> := None;
      if masked {
        var m := ReadExact(4);
        if m.None? { return None; }
        mask := Some(m.value);
      }
      var raw := ReadExact(len);
      if raw.None? { return None; }
      assert raw.value == if masked then s[4..4 + len] else s[..len];
      var payload := new byte[len](i requires 0 <= i < |raw.value| => raw.value[i]);
      assert payload[..] == raw.value;
      if mask.Some? { Unmask(payload, mask.value); }
      body := Some(payload[..]);
    }

    /** Read one frame; the bytes taken are the frame's own. */
    method ReadFrame() returns (r: Read)
      modifies this`input
      ensures r == Decode(old(input))
      ensures r.Got? ==> input == r.rest
    {
      hide Length, Masked;
      ghost var s := input;
      var h := ReadExact(2);
      if h.None? { return Short; }
      var fin, opcode, masked := h.value[0] >= 128, h.value[0] % 16, h.value[1] >= 128;
      var len := ReadLength(h.value[1], s);
      if len.None? { return Short; }
      if len.value > MAX_FRAME { return TooLarge; }
      ghost var at := Length(s).value.1;
      BodyPlaces(s, at, if masked then 4 else 0, len.value);
      var body := ReadBody(masked, len.value);
      if body.None? { return Short; }
      r := Got(Frame(fin, opcode, body.value), input);
    }

    lemma BodyPlaces(s: seq<byte>, at: nat, from: nat, len: nat)
      requires at <= |s|
      ensures |s| >= at + from + len ==>
                && s[at..][from..from + len] == s[at + from..at + from + len]
                && s[at..][from + len..] == s[at + from + len..]
                && (from == 4 ==> s[at..][..4] == s[at..at + 4])
    {}

    /** Receive the next text message, answering pings on the way. */
    method Recv(masks: nat -> Mask) returns (r: Outcome)
      modifies this
      ensures var x := Receive(old(input), [], false, masks, 0);
              && r == x.outcome && output == old(output) + x.written
              && (r.Text? || r.Closed? ==> input == x.rest)
    {
      hide Decode, Encode;
      ghost var whole := Receive(input, [], false, masks, 0);
      var msg: seq<byte>, msgIsText, k: nat := [], false, 0;
      assert output == old(output) + [];
      ghost var written: seq<byte> := [];
      while true
        invariant output == old(output) + written
        invariant var x := Receive(input, msg, msgIsText, masks, k);
                  whole.outcome == x.outcome && whole.rest == x.rest && whole.written == written + x.written
        decreases |input|
      {
        var d := ReadFrame();
        if d.Short? { assert written + [] == written; return StreamEnded; }
        if d.TooLarge? { assert written + [] == written; return FrameTooLarge; }
        var f := d.frame;
        if f.opcode == PING {
          ghost var x := Receive(input, msg, msgIsText, masks, k + 1);
          assert written + (Pong(f.payload, masks(k)) + x.written) == written + Pong(f.payload, masks(k)) + x.written;
          WriteFrame(PONG, f.payload, masks(k));
          written := written + Pong(f.payload, masks(k));
          k := k + 1;
        } else if f.opcode == PONG {
        } else if f.opcode == CLOSE {
          assert written + [] == written;
          return Closed;
        } else if f.opcode == CONTINUATION || f.opcode == TEXT || f.opcode == BINARY {
          if f.opcode == TEXT {
            msg, msgIsText := [], true;
          } else if f.opcode == BINARY {
            msg, msgIsText := [], false;
          }
          assert [] + f.payload == f.payload;
          msg := msg + f.payload;
          if f.fin {
            if msgIsText {
              assert written + [] == written;
              return Text(msg);
            }
            msg := [];
          }
        } else {
          assert written + [] == written;
          return UnknownOpcode;
        }
      }
    }
  }
}
