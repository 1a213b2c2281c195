/** The internet checksum (section 1 of RFC 1071) and the echo request built with it. */
module Checksums {
  import opened Basics
  import opened Packets
  import opened TunnelSpec

  const U32_LIMIT: nat := 0x1_0000_0000

  /** The sum of the big-endian 16-bit words; an odd last byte is the high half of a word. */
  function WordSum(data: seq<byte>): (s: nat) {
    if |data| == 0 then 0
    else if |data| == 1 then data[0] * 256
    else data[0] * 256 + data[1] + WordSum(data[2..])
  }

  /** The sum is taken over big-endian words: byte by byte, the even places count 256 and the odd ones 1. */
  function PlaceSum(data: seq<byte>): (s: nat) {
    if data == [] then 0
    else
      var n := |data| - 1;
      PlaceSum(data[..n]) + if n % 2 == 0 then 256 * (data[n] as nat) else data[n] as nat
  }

  lemma {:induction false} PlaceSumFront(data: seq<byte>)
    requires |data| >= 2
    ensures PlaceSum(data) == 256 * (data[0] as nat) + data[1] as nat + PlaceSum(data[2..])
  {
    var n := |data| - 1;
    if n == 1 {
      assert data[2..] == [] && data[..1][..0] == [];
      assert PlaceSum(data[..1]) == 256 * (data[0] as nat);
    } else {
      PlaceSumFront(data[..n]);
      assert data[..n][2..] == data[2..][..n - 2];
    }
  }

  lemma {:induction false} WordSumByPlace(data: seq<byte>)
    ensures WordSum(data) == PlaceSum(data)
  {
    if |data| == 1 {
      assert data[..0] == [];
    } else if |data| >= 2 {
      PlaceSumFront(data);
      WordSumByPlace(data[2..]);
    }
  }

  /** The one's-complement sum: the carries are added back in. */
  function Folded(total: nat): (s: nat)
    ensures s <= 65535 && s % 65535 == total % 65535
    ensures s == 0 <==> total == 0
  {
    if total == 0 then 0 else (total - 1) % 65535 + 1
  }

  lemma FoldStep(s: nat)
    requires s >= 65536
    ensures 0 < s % 65536 + s / 65536 < s
    ensures Folded(s % 65536 + s / 65536) == Folded(s)
  {
    var q, r := s / 65536, s % 65536;
    assert s - 1 == 65535 * q + (q + r - 1);
    ModShift(q + r - 1, q);
  }

  lemma ModShift(x: nat, q: nat)
    ensures (65535 * q + x) % 65535 == x % 65535
  {}

  lemma FoldedSmall(s: nat)
    requires s <= 65535
    ensures Folded(s) == s
  {}

  lemma WrapStep(sum: nat, word: nat, rest: nat)
    ensures ((sum + word) % U32_LIMIT + rest) % U32_LIMIT == (sum + (word + rest)) % U32_LIMIT
  {
    var q, r := (sum + word) / U32_LIMIT, (sum + word) % U32_LIMIT;
    WrapShift(r + rest, q);
    assert sum + (word + rest) == U32_LIMIT * q + (r + rest);
  }

  lemma WrapShift(x: nat, q: nat)
    ensures (U32_LIMIT * q + x) % U32_LIMIT == x % U32_LIMIT
  {}

  /** The accumulator has 32 bits and wraps. */
  method Checksum(data: seq<byte>) returns (c: nat)
    ensures c == 65535 - Folded(WordSum(data) % U32_LIMIT)
  {
    hide Folded;
    var sum: nat, i: nat := 0, 0;
    while i + 2 <= |data|
      invariant 0 <= i <= |data| && sum < U32_LIMIT
      invariant (sum + WordSum(data[i..])) % U32_LIMIT == WordSum(data) % U32_LIMIT
    {
      assert data[i..][2..] == data[i + 2..];
      var hi: nat, lo: nat := data[i], data[i + 1];
      WrapStep(sum, hi * 256 + lo, WordSum(data[i + 2..]));
      sum := (sum + (hi * 256 + lo)) % U32_LIMIT;
      i := i + 2;
    }
    if i < |data| {
      var last: nat := data[i];
      sum := (sum + last * 256) % U32_LIMIT;
    }
    assert sum == WordSum(data) % U32_LIMIT;
    while sum / 65536 != 0
      invariant Folded(sum) == Folded(WordSum(data) % U32_LIMIT)
      decreases sum
    {
      FoldStep(sum);
      sum := sum % 65536 + sum / 65536;
    }
    FoldedSmall(sum);
    c := 65535 - sum;
  }

  // The accumulator.

  lemma {:induction false} WordSumBound(data: seq<byte>)
    ensures WordSum(data) <= (|data| + 1) / 2 * 65535
    decreases |data|
  {
    if |data| >= 2 { WordSumBound(data[2..]); }
  }

  /** 65537 words never overflow 32 bits. */
  lemma NoOverflow(data: seq<byte>)
    requires |data| <= 2 * 65537
    ensures WordSum(data) < U32_LIMIT
  {
    WordSumBound(data);
  }

  lemma {:induction false} AllOnes(data: seq<byte>, n: nat)
    requires |data| == 2 * n && forall k :: 0 <= k < |data| ==> data[k] == 255
    ensures WordSum(data) == n * 65535
  {
    if n > 0 { AllOnes(data[2..], n - 1); }
  }

  /** One word more can, and then the result is wrong: the bound is exact. */
  lemma OverflowPossible(data: seq<byte>)
    requires |data| == 2 * 65538 && forall k :: 0 <= k < |data| ==> data[k] == 255
    ensures WordSum(data) >= U32_LIMIT && Folded(WordSum(data) % U32_LIMIT) != Folded(WordSum(data))
  {
    hide Folded, WordSum;
    AllOnes(data, 65538);
    WrappingIsHarmlessIff(WordSum(data));
  }

  lemma FoldedSame(a: nat, b: nat)
    ensures Folded(a) == Folded(b) <==> a % 65535 == b % 65535 && (a == 0 <==> b == 0)
  {
    if a > 0 && b > 0 {
      Predecessor(a);
      Predecessor(b);
    }
  }

  lemma Predecessor(a: nat)
    requires a > 0
    ensures (a - 1) % 65535 == if a % 65535 == 0 then 65534 else a % 65535 - 1
  {}

  lemma SameResidue(q: nat, r: nat)
    ensures (q + r) % 65535 == r % 65535 <==> q % 65535 == 0
  {
    var k, l := q / 65535, r / 65535;
    var x, y := q % 65535, r % 65535;
    assert q + r == 65535 * (k + l) + (x + y);
    ModShift(x + y, k + l);
  }

  /** The computed checksum is the one's-complement sum's complement if and only if the carries lost out
      of 32 bits are a multiple of 65535 and leave something, or there are none. */
  lemma WrappingIsHarmlessIff(total: nat)
    ensures var lost, kept := total / U32_LIMIT, total % U32_LIMIT;
            Folded(kept) == Folded(total) <==> lost % 65535 == 0 && (kept == 0 ==> lost == 0)
  {
    hide Folded;
    var lost, kept := total / U32_LIMIT, total % U32_LIMIT;
    FoldedSame(kept, total);
    SameResidue(lost, kept);
    assert total == 65535 * (65537 * lost) + (lost + kept);
    ModShift(lost + kept, 65537 * lost);
  }

  lemma {:induction false} ZeroOnlyForZeros(data: seq<byte>)
    ensures Folded(WordSum(data)) == 0 <==> forall k :: 0 <= k < |data| ==> data[k] == 0
    decreases |data|
  {
    if |data| >= 2 {
      ZeroOnlyForZeros(data[2..]);
      assert forall k :: 2 <= k < |data| ==> data[k] == data[2..][k - 2];
    }
  }

  // Storing the checksum.

  function Stored(data: seq<byte>, at: nat, c: nat): (r: seq<byte>)
    requires at + 2 <= |data| && c <= 65535
    ensures |r| == |data|
  {
    data[at := c / 256][at + 1 := c % 256]
  }

  lemma {:induction false} StoredSum(data: seq<byte>, at: nat, c: nat)
    requires at % 2 == 0 && at + 2 <= |data| && c <= 65535
    requires data[at] == 0 && data[at + 1] == 0
    ensures WordSum(Stored(data, at, c)) == WordSum(data) + c
    decreases |data|
  {
    var r := Stored(data, at, c);
    if at == 0 {
      assert r[2..] == data[2..];
    } else {
      StoredSum(data[2..], at - 2, c);
      assert r[2..] == Stored(data[2..], at - 2, c);
    }
  }

  /** Putting the checksum of a message into its zeroed, aligned field makes the message check to zero. */
  lemma StoringMakesItCheck(data: seq<byte>, at: nat)
    requires at % 2 == 0 && at + 2 <= |data| && data[at] == 0 && data[at + 1] == 0
    ensures 65535 - Folded(WordSum(Stored(data, at, 65535 - Folded(WordSum(data))))) == 0
  {
    var s := WordSum(data);
    var c := 65535 - Folded(s);
    StoredSum(data, at, c);
    var total := s + c;
    if s > 0 {
      assert total - 1 == 65535 * ((s - 1) / 65535) + 65534;
      ModShift(65534, (s - 1) / 65535);
    }
  }

  // The echo request.

  const PAYLOAD: seq<byte> := [110, 101, 119, 116, 112, 105, 110, 103]

  /** Fill in the checksum field of a header. */
  method WithChecksum(data: seq<byte>, at: nat) returns (r: seq<byte>)
    requires at % 2 == 0 && at + 2 <= |data| <= 2 * 65537 && data[at] == 0 && data[at + 1] == 0
    ensures |r| == |data| && r[..at] == data[..at] && r[at + 2..] == data[at + 2..]
    ensures Folded(WordSum(r)) == 65535
  {
    hide WordSum, Folded;
    NoOverflow(data);
    assert WordSum(data) % U32_LIMIT == WordSum(data);
    var c: nat := Checksum(data);
    StoringMakesItCheck(data, at);
    r := Stored(data, at, c);
  }

  method IcmpEcho(src: seq<byte>, dst: seq<byte>, ident: nat, seqNo: nat) returns (packet: seq<byte>)
    requires |src| == 4 && |dst| == 4 && ident < 65536 && seqNo < 65536
    ensures |packet| == 36
    ensures Folded(WordSum(packet[..20])) == 65535 && Folded(WordSum(packet[20..])) == 65535
    ensures packet[..4] == [0x45, 0, 0, 36] && packet[4..10] == [0, 0, 0x40, 0, 64, 1]
    ensures packet[12..16] == src && packet[16..20] == dst
    ensures packet[20..22] == [8, 0] && packet[24..28] == [ident / 256, ident % 256, seqNo / 256, seqNo % 256]
    ensures packet[28..] == PAYLOAD
    ensures Handed(packet) == ToTunnelV4(packet, src)
  {
    hide WordSum, Folded, Handed;
    var icmp: seq<byte> := [8, 0, 0, 0] + [ident / 256, ident % 256, seqNo / 256, seqNo % 256] + PAYLOAD;
    var echo := WithChecksum(icmp, 2);
    assert echo[..2] == [8, 0];
    assert echo[4..] == [ident / 256, ident % 256, seqNo / 256, seqNo % 256] + PAYLOAD;

    var total := 20 + |icmp|;
    var ip: seq<byte> := [0x45, 0x00, total / 256, total % 256, 0, 0, 0x40, 0x00, 64, 1, 0, 0] + src + dst;
    var header := WithChecksum(ip, 10);
    assert header[..10] == [0x45, 0, 0, 36, 0, 0, 0x40, 0, 64, 1];
    assert header[12..] == src + dst;

    packet := header + echo;
    assert packet[..20] == header && packet[20..] == echo;
    EchoParts(packet, header, echo);
    ShortPacketHanded(packet);
  }

  /** Where the parts of the two headers lie in the packet. */
  lemma EchoParts(packet: seq<byte>, header: seq<byte>, echo: seq<byte>)
    requires |header| == 20 && |echo| == 16 && packet == header + echo
    ensures packet[..4] == header[..10][..4] && packet[4..10] == header[..10][4..]
    ensures packet[12..16] == header[12..][..4] && packet[16..20] == header[12..][4..]
    ensures packet[20..22] == echo[..2] && packet[24..28] == echo[4..][..4] && packet[28..] == echo[4..][4..]
  {}
}
