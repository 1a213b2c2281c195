/** What all parts share. */
module Basics {
  datatype Option<+T> = None | Some(value: T)

  type byte = n: nat | n < 256

  /** How many numbers a field of so many bytes can hold. */
  function Bound(width: nat): (m: nat)
    ensures m > 0
  {
    if width == 0 then 1 else 256 * Bound(width - 1)
  }

  lemma SameNumberSameBits(x: bv8, y: bv8)
    requires x as nat == y as nat
    ensures x == y
  {}

  // Big-endian numbers.

  function FromBe(b: seq<byte>): (n: nat) {
    if b == [] then 0 else 256 * FromBe(b[..|b| - 1]) + b[|b| - 1]
  }

  function ToBe(n: nat, width: nat): (b: seq<byte>)
    ensures |b| == width
  {
    if width == 0 then [] else ToBe(n / 256, width - 1) + [n % 256]
  }

  lemma {:induction false} BeRoundTrip(n: nat, width: nat)
    requires n < Bound(width)
    ensures FromBe(ToBe(n, width)) == n
  {
    if width > 0 {
      BeRoundTrip(n / 256, width - 1);
      assert ToBe(n, width)[..width - 1] == ToBe(n / 256, width - 1);
    }
  }

  lemma {:induction false} FromBeBound(b: seq<byte>)
    ensures FromBe(b) < Bound(|b|)
  {
    if b != [] { FromBeBound(b[..|b| - 1]); }
  }

  lemma {:induction false} BoundGrows(m: nat, n: nat)
    requires m <= n
    ensures Bound(m) <= Bound(n)
    decreases n
  {
    if m < n { BoundGrows(m, n - 1); }
  }
}
