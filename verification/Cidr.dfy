/** Address ranges and longest-prefix matching. */
module Cidrs {
  import opened Basics

  // Powers of two and big-endian values.

  function Pow2(n: nat): (p: nat)
    ensures p > 0
  {
    if n == 0 then 1 else 2 * Pow2(n - 1)
  }

  function Value(bytes: seq<bv8>): (v: nat) {
    if bytes == [] then 0 else 256 * Value(bytes[..|bytes| - 1]) + bytes[|bytes| - 1] as nat
  }

  lemma {:induction false} Pow2Sum(m: nat, n: nat)
    ensures Pow2(m + n) == Pow2(m) * Pow2(n)
  {
    if m > 0 { Pow2Sum(m - 1, n); }
  }

  lemma DivEq(x: nat, q: nat, r: nat, d: nat)
    requires d > 0 && r < d && x == q * d + r
    ensures x / d == q
  {
    var q', r' := x / d, x % d;
    assert x == q' * d + r';
    if q' < q { MulGap(q', q, d); } else if q < q' { MulGap(q, q', d); }
  }

  lemma MulGap(a: nat, b: nat, d: nat)
    requires a < b
    ensures a * d + d <= b * d
  {
    var k := b - a - 1;
    assert b * d == (a + k + 1) * d == a * d + k * d + d;
    assert k * d >= 0;
  }

  lemma DivDiv(x: nat, d: nat, e: nat)
    requires d > 0 && e > 0
    ensures d * e > 0 && x / (d * e) == x / d / e
  {
    var q, r := x / d, x % d;
    var q', r' := q / e, q % e;
    assert x == (q' * e + r') * d + r;
    assert (q' * e + r') * d == q' * (d * e) + r' * d;
    MulGap(r', e, d);
    assert r' * d + r < d * e;
    DivEq(x, q', r' * d + r, d * e);
  }

  // One byte.

  /** The byte 0xff shifted left by k, as a table; MaskIsShift says so. */
  function Mask(k: nat): (m: bv8)
    requires k < 8
  {
    match k
    case 0 => 0xff
    case 1 => 0xfe
    case 2 => 0xfc
    case 3 => 0xf8
    case 4 => 0xf0
    case 5 => 0xe0
    case 6 => 0xc0
    case _ => 0x80
  }

  lemma MaskIsShift(k: nat)
    requires k < 8
    ensures Mask(k) == 0xff << k
  {
    match k
    case 0 => assert Mask(0) == 0xff << 0;
    case 1 => assert Mask(1) == 0xff << 1;
    case 2 => assert Mask(2) == 0xff << 2;
    case 3 => assert Mask(3) == 0xff << 3;
    case 4 => assert Mask(4) == 0xff << 4;
    case 5 => assert Mask(5) == 0xff << 5;
    case 6 => assert Mask(6) == 0xff << 6;
    case _ => assert Mask(7) == 0xff << 7;
  }

  lemma SmallPowers()
    ensures Pow2(0) == 1 && Pow2(1) == 2 && Pow2(2) == 4 && Pow2(3) == 8
    ensures Pow2(4) == 16 && Pow2(5) == 32 && Pow2(6) == 64 && Pow2(7) == 128 && Pow2(8) == 256
  {
    assert Pow2(3) == 8 && Pow2(5) == 4 * Pow2(3) && Pow2(7) == 4 * Pow2(5);
  }

  lemma Masked1(a: bv8, r: bv8)
    requires r == a & 0xfe
    ensures r as nat == a as nat / 2 * 2
  {}

  lemma Masked2(a: bv8, r: bv8)
    requires r == a & 0xfc
    ensures r as nat == a as nat / 4 * 4
  {}

  lemma Masked3(a: bv8, r: bv8)
    requires r == a & 0xf8
    ensures r as nat == a as nat / 8 * 8
  {}

  lemma Masked4(a: bv8, r: bv8)
    requires r == a & 0xf0
    ensures r as nat == a as nat / 16 * 16
  {}

  lemma Masked5(a: bv8, r: bv8)
    requires r == a & 0xe0
    ensures r as nat == a as nat / 32 * 32
  {}

  lemma Masked6(a: bv8, r: bv8)
    requires r == a & 0xc0
    ensures r as nat == a as nat / 64 * 64
  {}

  lemma Masked7(a: bv8, r: bv8)
    requires r == a & 0x80
    ensures r as nat == a as nat / 128 * 128
  {}

  /** Masking the low k bits away rounds down to a multiple of 2 to the k. */
  lemma MaskedValue(a: bv8, r: bv8, k: nat)
    requires 0 < k < 8 && r == a & Mask(k)
    ensures r as nat == a as nat / Pow2(k) * Pow2(k)
  {
    SmallPowers();
    match k {
      case 1 => Masked1(a, r);
      case 2 => Masked2(a, r);
      case 3 => Masked3(a, r);
      case 4 => Masked4(a, r);
      case 5 => Masked5(a, r);
      case 6 => Masked6(a, r);
      case _ => Masked7(a, r);
    }
  }

  predicate ByteMatch(a: bv8, b: bv8, k: nat)
    requires k < 8
  {
    a & Mask(k) == b & Mask(k)
  }

  lemma SameMultiple(q: nat, q': nat, d: nat)
    requires d > 0
    ensures q * d == q' * d <==> q == q'
  {
    if q < q' { MulGap(q, q', d); } else if q' < q { MulGap(q', q, d); }
  }

  /** Two bytes that are multiples of d are equal exactly when the factors are. */
  lemma SameFactors(r: bv8, r': bv8, q: nat, q': nat, d: nat)
    requires d > 0 && r as nat == q * d && r' as nat == q' * d
    ensures r == r' <==> q == q'
  {
    SameBytes(r, r');
    SameMultiple(q, q', d);
  }

  lemma ByteMatchIsDivision(a: bv8, b: bv8, k: nat)
    requires 0 < k < 8
    ensures ByteMatch(a, b, k) <==> a as nat / Pow2(k) == b as nat / Pow2(k)
  {
    MaskedMatch(a, b, a & Mask(k), b & Mask(k), k);
  }

  lemma MaskedMatch(a: bv8, b: bv8, r: bv8, r': bv8, k: nat)
    requires 0 < k < 8 && r == a & Mask(k) && r' == b & Mask(k)
    ensures r == r' <==> a as nat / Pow2(k) == b as nat / Pow2(k)
  {
    hide Mask, Pow2;
    MaskedValue(a, r, k);
    MaskedValue(b, r', k);
    SameFactors(r, r', a as nat / Pow2(k), b as nat / Pow2(k), Pow2(k));
  }

  lemma SameBytes(a: bv8, b: bv8)
    ensures a as nat == b as nat <==> a == b
  {
    if a as nat == b as nat { SameNumberSameBits(a, b); }
  }

  // Matching prefixes.

  /** Compare the first `prefix` bits: whole bytes, then the top bits of one more. */
  predicate BitsMatch(a: seq<bv8>, b: seq<bv8>, prefix: nat)
    requires |a| == |b| && prefix <= 8 * |a|
  {
    var full, rem := prefix / 8, prefix % 8;
    a[..full] == b[..full]
    && (rem == 0 || ByteMatch(a[full], b[full], 8 - rem))
  }

  lemma {:induction false} ValueInjective(a: seq<bv8>, b: seq<bv8>)
    requires |a| == |b|
    ensures Value(a) == Value(b) <==> a == b
  {
    if a != [] {
      var n := |a| - 1;
      ValueInjective(a[..n], b[..n]);
      if Value(a) == Value(b) { SameNumberSameBits(a[n], b[n]); }
      assert a == a[..n] + [a[n]] && b == b[..n] + [b[n]];
    }
  }

  lemma Regroup(hi: nat, e: nat, q: nat, d: nat)
    ensures (hi * e + q) * d == hi * (d * e) + q * d
  {
    assert (hi * e + q) * d == hi * e * d + q * d;
    assert hi * e * d == hi * (e * d);
    assert e * d == d * e;
  }

  lemma QuotientBelow(x: nat, q: nat, d: nat, e: nat)
    requires q * d <= x < e * d
    ensures q < e
  {
    if e < q { MulGap(e, q, d); }
  }

  /** The top bits of a number with one more byte. */
  lemma TopDigits(hi: nat, lo: nat, d: nat, e: nat)
    requires lo < 256 && d * e == 256
    ensures d > 0 && (256 * hi + lo) / d == hi * e + lo / d
    ensures lo / d < e
  {
    var q, r := lo / d, lo % d;
    var shifted, top := q * d, hi * e;
    assert lo == shifted + r;
    QuotientBelow(lo, q, d, e);
    Regroup(hi, e, q, d);
    assert 256 * hi + lo == (top + q) * d + r;
    DivEq(256 * hi + lo, top + q, r, d);
  }

  lemma TopBitsEqual(hi: nat, lo: nat, hi': nat, lo': nat, k: nat)
    requires lo < 256 && lo' < 256 && k <= 8
    ensures (256 * hi + lo) / Pow2(k) == (256 * hi' + lo') / Pow2(k) <==> hi == hi' && lo / Pow2(k) == lo' / Pow2(k)
  {
    hide Pow2;
    var d, e := Pow2(k), Pow2(8 - k);
    Pow2Sum(k, 8 - k);
    SmallPowers();
    TopDigits(hi, lo, d, e);
    TopDigits(hi', lo', d, e);
    SameDigits(hi, lo / d, hi', lo' / d, e);
  }

  lemma SameDigits(hi: nat, lo: nat, hi': nat, lo': nat, e: nat)
    requires lo < e && lo' < e
    ensures hi * e + lo == hi' * e + lo' <==> hi == hi' && lo == lo'
  {
    if hi < hi' { MulGap(hi, hi', e); } else if hi' < hi { MulGap(hi', hi, e); }
  }

  /** Comparing the first bits of two addresses is comparing the addresses as numbers, shifted right. */
  lemma {:induction false} BitsMatchIsShiftedEquality(a: seq<bv8>, b: seq<bv8>, prefix: nat)
    requires |a| == |b| && prefix <= 8 * |a|
    ensures BitsMatch(a, b, prefix) <==>
              Value(a) / Pow2(8 * |a| - prefix) == Value(b) / Pow2(8 * |a| - prefix)
  {
    if a != [] {
      var n := |a| - 1;
      var a', b' := a[..n], b[..n];
      var k := 8 * |a| - prefix;
      if prefix <= 8 * n {
        BitsMatchIsShiftedEquality(a', b', prefix);
        BitsMatchShorter(a, b, prefix);
        DropLastByte(a, k);
        DropLastByte(b, k);
      } else {
        ValueInjective(a', b');
        TopBitsEqual(Value(a'), a[n] as nat, Value(b'), b[n] as nat, k);
        LastByteMatch(a, b, prefix);
      }
    }
  }

  lemma BitsMatchShorter(a: seq<bv8>, b: seq<bv8>, prefix: nat)
    requires |a| == |b| > 0 && prefix <= 8 * (|a| - 1)
    ensures BitsMatch(a, b, prefix) == BitsMatch(a[..|a| - 1], b[..|a| - 1], prefix)
  {
    var n, full := |a| - 1, prefix / 8;
    assert a[..n][..full] == a[..full] && b[..n][..full] == b[..full];
  }

  lemma DropLastByte(a: seq<bv8>, k: nat)
    requires a != [] && k >= 8
    ensures Value(a) / Pow2(k) == Value(a[..|a| - 1]) / Pow2(k - 8)
  {
    SmallPowers();
    Pow2Sum(8, k - 8);
    DivDiv(Value(a), 256, Pow2(k - 8));
  }

  /** The last byte decides what is left of the prefix. */
  lemma LastByteMatch(a: seq<bv8>, b: seq<bv8>, prefix: nat)
    requires |a| == |b| > 0 && 8 * (|a| - 1) < prefix <= 8 * |a|
    ensures var n, k := |a| - 1, 8 * |a| - prefix;
            BitsMatch(a, b, prefix) <==> a[..n] == b[..n] && a[n] as nat / Pow2(k) == b[n] as nat / Pow2(k)
  {
    hide ByteMatch, Pow2;
    var n, k := |a| - 1, 8 * |a| - prefix;
    if k == 0 {
      assert prefix / 8 == |a| && prefix % 8 == 0;
      WholeMatch(a, b);
      SmallPowers();
    } else {
      ByteMatchIsDivision(a[n], b[n], k);
      assert prefix / 8 == n && 8 - prefix % 8 == k;
    }
  }

  lemma WholeMatch(a: seq<bv8>, b: seq<bv8>)
    requires |a| == |b| > 0
    ensures var n := |a| - 1;
            a[..|a|] == b[..|a|] <==> a[..n] == b[..n] && a[n] as nat == b[n] as nat
  {
    var n := |a| - 1;
    SameBytes(a[n], b[n]);
    assert a[..|a|] == a[..n] + [a[n]] && b[..|a|] == b[..n] + [b[n]];
  }

  // Ranges.

  datatype Ip = V4(octets: seq<bv8>) | V6(octets: seq<bv8>)

  predicate ValidIp(ip: Ip) {
    |ip.octets| == if ip.V4? then 4 else 16
  }

  type IpAddr = ip: Ip | ValidIp(ip) witness V4([0, 0, 0, 0])

  datatype Range = Range(net: IpAddr, prefix: nat)

  predicate ValidRange(c: Range) {
    c.prefix <= 8 * |c.net.octets|
  }

  /** Parsing admits no longer prefix than the address has bits. */
  type Cidr = c: Range | ValidRange(c) witness Range(V4([0, 0, 0, 0]), 0)

  predicate Contains(c: Cidr, ip: IpAddr) {
    c.net.V4? == ip.V4? && BitsMatch(c.net.octets, ip.octets, c.prefix)
  }

  lemma ContainsIsShiftedEquality(c: Cidr, ip: IpAddr)
    requires c.net.V4? == ip.V4?
    ensures var k := 8 * |ip.octets| - c.prefix;
            Contains(c, ip) <==> Value(c.net.octets) / Pow2(k) == Value(ip.octets) / Pow2(k)
  {
    BitsMatchIsShiftedEquality(c.net.octets, ip.octets, c.prefix);
  }

  /** Two ranges that share an address are nested: the one with the longer prefix is inside the other. */
  lemma NestedOrDisjoint(wide: Cidr, narrow: Cidr, shared: IpAddr, ip: IpAddr)
    requires wide.prefix <= narrow.prefix
    requires Contains(wide, shared) && Contains(narrow, shared) && Contains(narrow, ip)
    ensures Contains(wide, ip)
  {
    hide BitsMatch;
    var w := 8 * |ip.octets|;
    ContainsIsShiftedEquality(wide, shared);
    ContainsIsShiftedEquality(wide, ip);
    ContainsIsShiftedEquality(narrow, shared);
    ContainsIsShiftedEquality(narrow, ip);
    var d, e := Pow2(w - narrow.prefix), Pow2(narrow.prefix - wide.prefix);
    Pow2Sum(w - narrow.prefix, narrow.prefix - wide.prefix);
    DivDiv(Value(shared.octets), d, e);
    DivDiv(Value(ip.octets), d, e);
  }
}
