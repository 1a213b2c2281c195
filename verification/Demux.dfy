/** The wire layout of WireGuard packets, and reading the owning peer off a datagram. */
module Demux {
  import opened Basics
  import opened Constants

  datatype Parsed =
    | HandshakeInit(senderIdx: nat, ephemeral: seq<byte>, encStatic: seq<byte>, encStamp: seq<byte>)
    | HandshakeResponse(senderIdx: nat, receiverIdx: nat, ephemeral: seq<byte>, encNothing: seq<byte>)
    | PacketCookieReply(receiverIdx: nat, nonce: seq<byte>, encCookie: seq<byte>)
    | PacketData(receiverIdx: nat, counter: nat, body: seq<byte>)

  /** Little-endian numbers of any width. */
  function FromLe(b: seq<byte>): (n: nat) {
    if b == [] then 0 else b[0] + 256 * FromLe(b[1..])
  }

  function ToLe(n: nat, width: nat): (b: seq<byte>)
    ensures |b| == width
  {
    if width == 0 then [] else [n % 256] + ToLe(n / 256, width - 1)
  }

  lemma {:induction false} LeRoundTrip(n: nat, width: nat)
    requires n < Bound(width)
    ensures FromLe(ToLe(n, width)) == n
  {
    if width > 0 {
      LeRoundTrip(n / 256, width - 1);
      assert ToLe(n, width)[1..] == ToLe(n / 256, width - 1);
    }
  }

  /** The first byte of a 32-bit field counts least. */
  lemma FourBytes(b: seq<byte>)
    requires |b| == 4
    ensures FromLe(b) == b[0] as nat + 0x100 * (b[1] as nat) + 0x1_0000 * (b[2] as nat) + 0x100_0000 * (b[3] as nat)
  {
    assert b[1..] == [b[1], b[2], b[3]] && b[1..][1..] == [b[2], b[3]] && b[1..][1..][1..] == [b[3]];
    assert FromLe([b[3]]) == b[3] as nat by { assert [b[3]][1..] == []; }
    assert FromLe([b[2], b[3]]) == b[2] as nat + 0x100 * FromLe([b[3]]) by { assert [b[2], b[3]][1..] == [b[3]]; }
    assert FromLe(b[1..]) == b[1] as nat + 0x100 * FromLe([b[2], b[3]]);
  }

  function ParseIncomingPacket(src: seq<byte>): (p: Option<Parsed>) {
    if |src| < 4 then None
    else
      var packetType := FromLe(src[0..4]);
      if packetType == 1 && |src| == HANDSHAKE_INIT_SZ then
        Some(HandshakeInit(FromLe(src[4..8]), src[8..40], src[40..88], src[88..116]))
      else if packetType == 2 && |src| == HANDSHAKE_RESP_SZ then
        Some(HandshakeResponse(FromLe(src[4..8]), FromLe(src[8..12]), src[12..44], src[44..60]))
      else if packetType == 3 && |src| == COOKIE_REPLY_SZ then
        Some(PacketCookieReply(FromLe(src[4..8]), src[8..32], src[32..64]))
      else if packetType == 4 && |src| >= DATA_OVERHEAD_SZ then
        Some(PacketData(FromLe(src[4..8]), FromLe(src[8..16]), src[16..]))
      else None
  }

  /** The fields have the widths of the wire format. */
  predicate WellSized(p: Parsed) {
    match p
    case HandshakeInit(s, e, st, ts) => s < Bound(4) && |e| == 32 && |st| == 48 && |ts| == 28
    case HandshakeResponse(s, r, e, n) => s < Bound(4) && r < Bound(4) && |e| == 32 && |n| == 16
    case PacketCookieReply(r, n, c) => r < Bound(4) && |n| == 24 && |c| == 32
    case PacketData(r, c, b) => r < Bound(4) && c < Bound(8) && |b| >= 16
  }

  /** The bytes a sender puts on the wire; the MAC fields close the handshake messages. */
  function Layout(p: Parsed, macs: seq<byte>): (src: seq<byte>) {
    match p
    case HandshakeInit(s, e, st, ts) => ToLe(1, 4) + ToLe(s, 4) + e + st + ts + macs
    case HandshakeResponse(s, r, e, n) => ToLe(2, 4) + ToLe(s, 4) + ToLe(r, 4) + e + n + macs
    case PacketCookieReply(r, n, c) => ToLe(3, 4) + ToLe(r, 4) + n + c
    case PacketData(r, c, b) => ToLe(4, 4) + ToLe(r, 4) + ToLe(c, 8) + b
  }

  lemma TypeField(n: nat)
    requires n < 256
    ensures FromLe(ToLe(n, 4)) == n
  {
    BoundOf4();
    LeRoundTrip(n, 4);
  }

  lemma BoundOf4()
    ensures Bound(4) == 0x1_0000_0000
  {
    assert Bound(2) == 65536;
    assert Bound(4) == 256 * (256 * Bound(2));
  }

  /** Reading back what was laid out gives the same packet. */
  lemma ParseInvertsLayout(p: Parsed, macs: seq<byte>)
    requires WellSized(p) && |macs| == 32
    ensures ParseIncomingPacket(Layout(p, macs)) == Some(p)
  {
    hide FromLe, ToLe, Bound;
    var src := Layout(p, macs);
    TypeField(1);
    TypeField(2);
    TypeField(3);
    TypeField(4);
    match p {
      case HandshakeInit(s, e, st, ts) =>
        LeRoundTrip(s, 4);
        assert src[0..4] == ToLe(1, 4) && src[4..8] == ToLe(s, 4);
        assert src[8..40] == e && src[40..88] == st && src[88..116] == ts;
      case HandshakeResponse(s, r, e, n) =>
        LeRoundTrip(s, 4);
        LeRoundTrip(r, 4);
        assert src[0..4] == ToLe(2, 4) && src[4..8] == ToLe(s, 4) && src[8..12] == ToLe(r, 4);
        assert src[12..44] == e && src[44..60] == n;
      case PacketCookieReply(r, n, c) =>
        LeRoundTrip(r, 4);
        assert src[0..4] == ToLe(3, 4) && src[4..8] == ToLe(r, 4);
        assert src[8..32] == n;
        assert |src| == 64 && forall k :: 0 <= k < 32 ==> src[32 + k] == c[k];
        assert src[32..64] == c;
      case PacketData(r, c, b) =>
        LeRoundTrip(r, 4);
        LeRoundTrip(c, 8);
        assert src[0..4] == ToLe(4, 4) && src[4..8] == ToLe(r, 4) && src[8..16] == ToLe(c, 8);
        assert src[16..] == b;
    }
  }

  /** The peer index in the upper 24 bits of the receiver index; looks at the first byte only. */
  function PeerIndexOf(datagram: seq<byte>): (idx: Option<nat>) {
    if |datagram| < 8 then None
    else
      var off := if datagram[0] == 2 then 8 else if datagram[0] == 3 || datagram[0] == 4 then 4 else 0;
      if off == 0 || |datagram| < off + 4 then None
      else Some(FromLe(datagram[off..off + 4]) / 256)
  }

  lemma FirstByte(src: seq<byte>)
    requires |src| >= 4
    ensures FromLe(src[0..4]) < 256 ==> FromLe(src[0..4]) == src[0]
  {
    assert src[0..4][0] == src[0];
  }

  /** On every packet that parses, the demultiplexer finds the upper 24 bits of the parsed receiver index,
      and nothing for an initiation, which has none. */
  lemma DemuxAgreesWithParser(src: seq<byte>)
    requires ParseIncomingPacket(src).Some?
    ensures var p := ParseIncomingPacket(src).value;
            PeerIndexOf(src) == if p.HandshakeInit? then None else Some(p.receiverIdx / 256)
  {
    hide FromLe;
    FirstByte(src);
  }

  /** A peer's indices start from its own index shifted by eight bits, in 32 bits: they lead back to the
      peer exactly while its index has at most 24 bits. */
  lemma IndexFitsIff(index: nat)
    requires index < 0x1_0000_0000
    ensures index * 256 % 0x1_0000_0000 / 256 == index <==> index < 0x100_0000
  {
    if index < 0x100_0000 {
      assert index * 256 < 0x1_0000_0000;
    } else {
      assert index * 256 % 0x1_0000_0000 < 0x1_0000_0000;
    }
  }
}
