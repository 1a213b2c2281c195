/** What a tunnel hands on of a packet it has decrypted, by what the packet says of itself. */
module Packets {
  import opened Basics
  import opened HandshakeSpec
  import opened TunnelSpec

  predicate IsV4(p: Packet) {
    |p| >= 20 && 64 <= p[0] < 80
  }

  predicate IsV6(p: Packet) {
    |p| >= 40 && 96 <= p[0] < 112
  }

  /** How long an IP packet says it is: an IPv4 header gives the total length, an IPv6 header the length
      of what follows its 40 bytes. */
  function ClaimedLength(p: Packet): (n: nat)
    requires IsV4(p) || IsV6(p)
  {
    if IsV4(p) then FromBe(p[2..4]) else 40 + FromBe(p[4..6])
  }

  /** A keepalive is not handed on; a packet at least as long as it claims is handed on with its source
      address, cut to that length; everything else is refused. */
  function Handed(p: Packet): (out: Outcome) {
    if p == [] then Done
    else if IsV4(p) && ClaimedLength(p) <= |p| then ToTunnelV4(p[..ClaimedLength(p)], p[12..16])
    else if IsV6(p) && ClaimedLength(p) <= |p| then ToTunnelV6(p[..ClaimedLength(p)], p[8..24])
    else Fail(InvalidPacket)
  }

  lemma TwoBytes(b: seq<byte>)
    requires |b| == 2
    ensures FromBe(b) == 256 * (b[0] as nat) + b[1] as nat
  {
    assert FromBe(b[..1]) == 256 * FromBe(b[..1][..0]) + b[0];
  }

  /** What the tunnel decides, whatever its state, is what the packet says of itself. */
  lemma HandedByAnyone(t: Tunn, p: Packet)
    ensures Validate(t, p).1 == Handed(p)
  {
    hide FromBe;
    if |p| >= 6 {
      TwoBytes(p[2..4]);
      TwoBytes(p[4..6]);
    }
  }

  /** The bytes received are counted by the length the packet gives, and such a packet counts as data. */
  lemma HandedCounts(t: Tunn, p: Packet)
    ensures var (t', out) := Validate(t, p);
            if out.ToTunnelV4? || out.ToTunnelV6?
            then t' == t.(rxBytes := t.rxBytes + |out.packet|,
                          timers := t.timers[LAST_DATA_PACKET_RECEIVED := t.timers[CURRENT]])
            else t' == t
  {}

  /** A packet whose header gives its own length is handed on unchanged, and no other is. */
  lemma WholePacketHanded(p: Packet)
    ensures Handed(p) == ToTunnelV4(p, if |p| >= 16 then p[12..16] else []) <==> IsV4(p) && ClaimedLength(p) == |p|
    ensures Handed(p) == ToTunnelV6(p, if |p| >= 24 then p[8..24] else []) <==> IsV6(p) && ClaimedLength(p) == |p|
  {
    hide FromBe;
    if IsV4(p) || IsV6(p) {
      var n := ClaimedLength(p);
      assert n == |p| ==> p[..n] == p;
      assert n < |p| ==> |p[..n]| != |p|;
    }
  }

  lemma NothingHanded()
    ensures Handed([]) == Done
  {}

  /** The fixed IPv4 header of a 36-byte packet. */
  lemma ShortPacketHanded(p: Packet)
    requires |p| == 36 && p[..4] == [0x45, 0, 0, 36]
    ensures Handed(p) == ToTunnelV4(p, p[12..16])
  {
    var h: seq<byte> := [0x45, 0, 0, 36];
    assert p[0] == p[..4][0] == h[0];
    assert p[2..4] == p[..4][2..] == h[2..] == [0, 36];
    TwoBytes(p[2..4]);
    WholePacketHanded(p);
  }
}
