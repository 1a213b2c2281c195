/** The anti-replay window of a session: a 1024-bit circular bitmap that must agree with the set of
    counters accepted so far. */
module BitWords {
  // A bit of a 64-bit word, and the two updates the window makes to it.

  function Shift(b: nat): (s: bv6)
    requires b < 64
  {
    b as bv6
  }

  predicate BitAt(w: bv64, i: bv6) {
    (w >> i) & 1 == 1
  }

  predicate HasBit(w: bv64, b: nat)
    requires b < 64
  {
    BitAt(w, Shift(b))
  }

  lemma ShiftRoundTrip(b: nat)
    requires b < 64
    ensures Shift(b) as nat == b
  {}

  lemma ShiftsDiffer(b: nat, c: nat)
    requires b < 64 && c < 64 && b != c
    ensures Shift(b) != Shift(c)
  {
    ShiftRoundTrip(b);
    ShiftRoundTrip(c);
  }

  lemma SetBitAt(w: bv64, w': bv64, i: bv6, j: bv6)
    requires w' == w | (1 << i)
    ensures BitAt(w', j) <==> i == j || BitAt(w, j)
  {}

  lemma ClearBitAt(w: bv64, w': bv64, i: bv6, j: bv6)
    requires w' == w & !(1 << i)
    ensures BitAt(w', j) <==> i != j && BitAt(w, j)
  {}

  lemma SetHas(w: bv64, w': bv64, b: nat, i: bv6, c: nat)
    requires b < 64 && c < 64 && i == Shift(b) && w' == w | (1 << i)
    ensures HasBit(w', c) <==> b == c || HasBit(w, c)
  {
    var j := Shift(c);
    if b != c { ShiftsDiffer(b, c); }
    SetBitAt(w, w', i, j);
  }

  lemma ClearHas(w: bv64, w': bv64, b: nat, i: bv6, c: nat)
    requires b < 64 && c < 64 && i == Shift(b) && w' == w & !(1 << i)
    ensures HasBit(w', c) <==> b != c && HasBit(w, c)
  {
    var j := Shift(c);
    if b != c { ShiftsDiffer(b, c); }
    ClearBitAt(w, w', i, j);
  }

  lemma ZeroHasNoBit(b: nat)
    requires b < 64
    ensures !HasBit(0, b)
  {}
}

module ReplaySpec {
  const N_BITS: nat := 1024

  /** Counters are 64 bit; the code adds N_BITS to them without a check, and from here on that wraps. */
  const U64_LIMIT: nat := 0x1_0000_0000_0000_0000
  const COUNTER_LIMIT: nat := U64_LIMIT - N_BITS

  datatype Verdict = Accepted | InvalidCounter | DuplicateCounter

  /** The meaning of the bitmap: every counter ever accepted, and one more than the highest. */
  datatype Window = Window(next: nat, accepted: set<nat>)

  const EMPTY := Window(0, {})

  ghost predicate WellFormed(w: Window) {
    && (forall c :: c in w.accepted ==> c < w.next)
    && (w.next > 0 ==> w.next - 1 in w.accepted)
  }

  /** The counter was never accepted and is not too far back. */
  predicate Fresh(w: Window, c: nat) {
    c !in w.accepted && c + N_BITS >= w.next
  }

  function WillAccept(w: Window, c: nat): (v: Verdict) {
    if Fresh(w, c) then Accepted
    else if c + N_BITS < w.next then InvalidCounter
    else DuplicateCounter
  }

  function MarkVerdict(w: Window, c: nat): (v: Verdict) {
    if Fresh(w, c) then Accepted else InvalidCounter
  }

  function Mark(w: Window, c: nat): (w': Window) {
    if !Fresh(w, c) then w
    else Window(if c < w.next then w.next else c + 1, w.accepted + {c})
  }

  function MarkAll(w: Window, cs: seq<nat>): (w': Window)
    decreases |cs|
  {
    if cs == [] then w else MarkAll(Mark(w, cs[0]), cs[1..])
  }

  lemma MarkKeepsWellFormed(w: Window, c: nat)
    requires WellFormed(w)
    ensures WellFormed(Mark(w, c))
  {}

  /** The quick check before decryption and the mark after it agree in the same state. */
  lemma QuickCheckAgreesWithMark(w: Window, c: nat)
    ensures WillAccept(w, c) == Accepted <==> MarkVerdict(w, c) == Accepted
    ensures MarkVerdict(w, c) == Accepted <==> Mark(w, c) != w
  {
    if Fresh(w, c) {
      assert c in Mark(w, c).accepted;
    }
  }

  /** A counter that is not acceptable now is not acceptable after any further traffic. */
  lemma {:induction false} RejectedForever(w: Window, c: nat, cs: seq<nat>)
    requires !Fresh(w, c)
    ensures !Fresh(MarkAll(w, cs), c)
    ensures c in MarkAll(w, cs).accepted <==> c in w.accepted
    decreases |cs|
  {
    if cs != [] {
      RejectedForever(Mark(w, cs[0]), c, cs[1..]);
    }
  }

  lemma {:induction false} MarkAllAppend(w: Window, cs: seq<nat>, c: nat)
    ensures MarkAll(w, cs + [c]) == Mark(MarkAll(w, cs), c)
    decreases |cs|
  {
    if cs == [] {
      assert MarkAll(Mark(w, c), []) == Mark(w, c);
      assert [c][1..] == [];
    } else {
      assert (cs + [c])[1..] == cs[1..] + [c];
      MarkAllAppend(Mark(w, cs[0]), cs[1..], c);
    }
  }

  lemma {:induction false} BoundedSetSize(s: set<nat>, n: nat)
    requires forall c :: c in s ==> c < n
    ensures |s| <= n
  {
    if n > 0 {
      BoundedSetSize(s - {n - 1}, n - 1);
      assert |s - {n - 1}| >= |s| - 1;
    } else {
      assert forall c :: c in s ==> false;
    }
  }

  /** No more packets are counted than counters were expected: the loss estimate is not negative. */
  lemma AcceptedCountBound(w: Window)
    requires WellFormed(w)
    ensures |w.accepted| <= w.next
  {
    BoundedSetSize(w.accepted, w.next);
  }

  /** Was the counter at position i of this traffic accepted? */
  predicate AcceptedAt(cs: seq<nat>, i: nat)
    requires i < |cs|
  {
    Fresh(MarkAll(EMPTY, cs[..i]), cs[i])
  }

  ghost function AcceptedOf(cs: seq<nat>, n: nat): (s: set<nat>)
    requires n <= |cs|
  {
    set j | 0 <= j < n && AcceptedAt(cs, j) :: cs[j]
  }

  lemma {:induction false} AcceptedSetIs(cs: seq<nat>, n: nat)
    requires n <= |cs|
    ensures WellFormed(MarkAll(EMPTY, cs[..n]))
    ensures MarkAll(EMPTY, cs[..n]).accepted == AcceptedOf(cs, n)
  {
    if n > 0 {
      AcceptedSetIs(cs, n - 1);
      assert cs[..n] == cs[..n - 1] + [cs[n - 1]];
      MarkAllAppend(EMPTY, cs[..n - 1], cs[n - 1]);
      MarkKeepsWellFormed(MarkAll(EMPTY, cs[..n - 1]), cs[n - 1]);
      hide MarkAll;
      assert AcceptedOf(cs, n) == AcceptedOf(cs, n - 1) + if AcceptedAt(cs, n - 1) then {cs[n - 1]} else {};
    }
  }

  /** Over any traffic whatever: a counter is accepted exactly when no earlier accepted counter
      equals it or is 1024 or more ahead of it. */
  lemma {:induction false} AcceptanceExact(cs: seq<nat>, i: nat)
    requires i < |cs|
    ensures AcceptedAt(cs, i) <==>
              forall j :: 0 <= j < i && AcceptedAt(cs, j) ==> cs[j] != cs[i] && cs[j] < cs[i] + N_BITS
  {
    AcceptedSetIs(cs, i);
    var w := MarkAll(EMPTY, cs[..i]);
    if AcceptedAt(cs, i) {
      forall j | 0 <= j < i && AcceptedAt(cs, j) ensures cs[j] != cs[i] && cs[j] < cs[i] + N_BITS {
        assert cs[j] in AcceptedOf(cs, i);
      }
    } else {
      var bad := if cs[i] in w.accepted then cs[i] else w.next - 1;
      assert bad in w.accepted;
      var j :| 0 <= j < i && AcceptedAt(cs, j) && cs[j] == bad;
    }
  }

  /** Reordering by less than 1024 loses nothing: if no counter repeats and none is overtaken by 1024 or
      more, all are accepted. */
  lemma ReorderingTolerated(cs: seq<nat>)
    requires forall j, i :: 0 <= j < i < |cs| ==> cs[j] != cs[i] && cs[j] < cs[i] + N_BITS
    ensures forall i :: 0 <= i < |cs| ==> AcceptedAt(cs, i)
  {
    forall i | 0 <= i < |cs| ensures AcceptedAt(cs, i) { AcceptanceExact(cs, i); }
  }

  // With 64-bit sums, as the code computes them.

  function Horizon(c: nat): (h: nat) { (c + N_BITS) % U64_LIMIT }

  function WillAcceptWrapped(w: Window, c: nat): (v: Verdict) {
    if c >= w.next then Accepted
    else if Horizon(c) < w.next then InvalidCounter
    else if c in w.accepted then DuplicateCounter
    else Accepted
  }

  function MarkVerdictWrapped(w: Window, c: nat): (v: Verdict) {
    if Horizon(c) < w.next || (c < w.next && c in w.accepted) then InvalidCounter else Accepted
  }

  function MarkWrapped(w: Window, c: nat): (w': Window) {
    if MarkVerdictWrapped(w, c) != Accepted then w
    else Window(if c < w.next then w.next else (c + 1) % U64_LIMIT, w.accepted + {c})
  }

  /** The mark is the one on unbounded numbers if and only if the counter is below 2^64 - 1024, or refused
      there too, or the window is still so young that the wrapped sum is not behind it and the counter is
      not the very last. */
  lemma MarkWrapsIff(w: Window, c: nat)
    requires WellFormed(w) && w.next < U64_LIMIT && c < U64_LIMIT
    ensures MarkVerdictWrapped(w, c) == MarkVerdict(w, c) && MarkWrapped(w, c) == Mark(w, c) <==>
              c < COUNTER_LIMIT || !Fresh(w, c) || (Horizon(c) >= w.next && c + 1 < U64_LIMIT)
  {
    assert Horizon(c) == if c < COUNTER_LIMIT then c + N_BITS else c - COUNTER_LIMIT;
    assert c >= w.next ==> c !in w.accepted;
    if Fresh(w, c) { assert c in Mark(w, c).accepted; }
  }

  /** The quick check gives another verdict exactly for the counters there that are behind next. */
  lemma QuickCheckWrapsIff(w: Window, c: nat)
    requires WellFormed(w) && w.next < U64_LIMIT && c < U64_LIMIT
    ensures WillAcceptWrapped(w, c) == WillAccept(w, c) <==> c < COUNTER_LIMIT || c >= w.next
  {
    assert Horizon(c) == if c < COUNTER_LIMIT then c + N_BITS else c - COUNTER_LIMIT;
    assert c >= w.next ==> c !in w.accepted;
  }

  /** The very last counter, accepted by a young window, takes next back to zero. */
  lemma LastCounterWraps(w: Window)
    requires WellFormed(w) && w.next < N_BITS
    ensures MarkVerdictWrapped(w, U64_LIMIT - 1) == Accepted && MarkWrapped(w, U64_LIMIT - 1).next == 0
    ensures !WellFormed(MarkWrapped(w, U64_LIMIT - 1))
  {
    assert Horizon(U64_LIMIT - 1) == N_BITS - 1;
    assert U64_LIMIT - 1 in MarkWrapped(w, U64_LIMIT - 1).accepted;
  }
}

module ReplayWindow {
  import opened BitWords
  import opened ReplaySpec

  const WORD_SIZE: nat := 64
  const N_WORDS: nat := 16

  /** Clearing the positions lo, lo + 1, ..., hi - 1 of the circular bitmap one at a time. */
  function Cleared(bits: seq<bool>, lo: nat, hi: nat): (r: seq<bool>)
    requires |bits| == N_BITS
    ensures |r| == N_BITS
    decreases hi - lo
  {
    if lo >= hi then bits else Cleared(bits[lo % N_BITS := false], lo + 1, hi)
  }

  lemma {:induction false} ClearedAt(bits: seq<bool>, lo: nat, hi: nat, p: nat)
    requires |bits| == N_BITS && p < N_BITS
    ensures Cleared(bits, lo, hi)[p] <==> bits[p] && forall c :: lo <= c < hi ==> c % N_BITS != p
    decreases hi - lo
  {
    if lo < hi {
      ClearedAt(bits[lo % N_BITS := false], lo + 1, hi, p);
    }
  }

  lemma {:induction false} ClearedJoin(bits: seq<bool>, lo: nat, mid: nat, hi: nat)
    requires |bits| == N_BITS && lo <= mid <= hi
    ensures Cleared(Cleared(bits, lo, mid), mid, hi) == Cleared(bits, lo, hi)
    decreases mid - lo
  {
    if lo < mid {
      ClearedJoin(bits[lo % N_BITS := false], lo + 1, mid, hi);
    }
  }

  lemma ClearedNone(bits: seq<bool>, lo: nat)
    requires |bits| == N_BITS
    ensures Cleared(bits, lo, lo) == bits
  {}

  lemma ClearedOneMore(bits: seq<bool>, lo: nat, hi: nat)
    requires |bits| == N_BITS && lo <= hi
    ensures Cleared(bits, lo, hi)[hi % N_BITS := false] == Cleared(bits, lo, hi + 1)
  {
    ClearedJoin(bits, lo, hi, hi + 1);
  }

  /** Two counters less than 1024 apart do not share a position. */
  lemma PositionsDiffer(a: nat, b: nat)
    requires a < b < a + N_BITS
    ensures a % N_BITS != b % N_BITS
  {}

  lemma WordOfPosition(c: nat)
    ensures c % N_BITS / WORD_SIZE == c / WORD_SIZE % N_WORDS
  {
    var q, d := c / N_BITS, c % N_BITS;
    var e, f := d / WORD_SIZE, d % WORD_SIZE;
    assert c == WORD_SIZE * (N_WORDS * q + e) + f;
    assert c / WORD_SIZE == N_WORDS * q + e;
  }

  /** The aligned 64 counters from idx occupy exactly the positions of one word. */
  lemma WordCovers(idx: nat, c: nat)
    requires idx % WORD_SIZE == 0 && idx <= c < idx + WORD_SIZE
    ensures c % N_BITS / WORD_SIZE == idx % N_BITS / WORD_SIZE
  {
    WordOfPosition(idx);
    WordOfPosition(c);
  }

  lemma WordCoveredBy(idx: nat, p: nat)
    requires idx % WORD_SIZE == 0 && p < N_BITS
    requires p / WORD_SIZE == idx % N_BITS / WORD_SIZE
    ensures idx <= idx + (p - idx % N_BITS) < idx + WORD_SIZE
    ensures (idx + (p - idx % N_BITS)) % N_BITS == p
  {
    var q, base := idx / N_BITS, idx % N_BITS;
    assert base % WORD_SIZE == 0;
    assert idx + (p - base) == q * N_BITS + p;
  }

  /** The bitmap shows the window: the live positions hold exactly the accepted counters. */
  ghost predicate Shows(bits: seq<bool>, w: Window)
    requires |bits| == N_BITS
  {
    forall c: nat :: c < w.next <= c + N_BITS ==> (bits[c % N_BITS] <==> c in w.accepted)
  }

  lemma ShowsAt(bits: seq<bool>, w: Window, c: nat)
    requires |bits| == N_BITS && Shows(bits, w)
    requires c < w.next <= c + N_BITS
    ensures bits[c % N_BITS] <==> c in w.accepted
  {}

  /** Receiving the next counter in order, or an older one that is still live. */
  lemma ShowsAfterSet(bits: seq<bool>, w: Window, c: nat)
    requires |bits| == N_BITS && Shows(bits, w) && WellFormed(w)
    requires c <= w.next <= c + N_BITS
    requires Fresh(w, c)
    ensures Shows(bits[c % N_BITS := true], Mark(w, c))
  {
    var w' := Mark(w, c);
    forall d: nat | d < w'.next <= d + N_BITS
      ensures bits[c % N_BITS := true][d % N_BITS] <==> d in w'.accepted
    {
      if c < d { PositionsDiffer(c, d); } else if d < c { PositionsDiffer(d, c); }
    }
  }

  /** Skipping ahead: clearing the skipped positions loses no live bit and leaves none behind. */
  lemma ShowsAfterSkip(bits: seq<bool>, cleared: seq<bool>, w: Window, c: nat)
    requires |bits| == |cleared| == N_BITS && Shows(bits, w) && WellFormed(w)
    requires w.next < c
    requires if c - w.next < N_BITS then cleared == Cleared(bits, w.next, c)
             else forall p :: 0 <= p < N_BITS ==> !cleared[p]
    ensures Shows(cleared[c % N_BITS := true], Mark(w, c))
  {
    var w' := Mark(w, c);
    forall d: nat | d < w'.next <= d + N_BITS
      ensures cleared[c % N_BITS := true][d % N_BITS] <==> d in w'.accepted
    {
      if d < c {
        PositionsDiffer(d, c);
        if c - w.next < N_BITS {
          ClearedAt(bits, w.next, c, d % N_BITS);
          if d < w.next {
            forall e | w.next <= e < c ensures e % N_BITS != d % N_BITS { PositionsDiffer(d, e); }
          }
        }
      }
    }
  }

  ghost function BitsOf(words: seq<bv64>): (bits: seq<bool>)
    requires |words| == N_WORDS
    ensures |bits| == N_BITS
  {
    seq(N_BITS, p requires 0 <= p < N_BITS => HasBit(words[p / WORD_SIZE], p % WORD_SIZE))
  }

  lemma BitsAfterSet(words: seq<bv64>, p: nat, i: bv6, w: bv64)
    requires |words| == N_WORDS && p < N_BITS && i == Shift(p % WORD_SIZE)
    requires w == words[p / WORD_SIZE] | (1 << i)
    ensures BitsOf(words[p / WORD_SIZE := w]) == BitsOf(words)[p := true]
  {
    var word := p / WORD_SIZE;
    var was, now := BitsOf(words), BitsOf(words[word := w]);
    forall q | 0 <= q < N_BITS
      ensures now[q] == was[p := true][q]
    {
      if q / WORD_SIZE == word { SetHas(words[word], w, p % WORD_SIZE, i, q % WORD_SIZE); }
    }
  }

  lemma BitsAfterClear(words: seq<bv64>, p: nat, i: bv6, w: bv64)
    requires |words| == N_WORDS && p < N_BITS && i == Shift(p % WORD_SIZE)
    requires w == words[p / WORD_SIZE] & !(1 << i)
    ensures BitsOf(words[p / WORD_SIZE := w]) == BitsOf(words)[p := false]
  {
    var word := p / WORD_SIZE;
    var was, now := BitsOf(words), BitsOf(words[word := w]);
    forall q | 0 <= q < N_BITS
      ensures now[q] == was[p := false][q]
    {
      if q / WORD_SIZE == word { ClearHas(words[word], w, p % WORD_SIZE, i, q % WORD_SIZE); }
    }
  }

  /** Clearing the aligned 64 counters from idx clears exactly the positions of one word. */
  lemma ClearedWordAt(bits: seq<bool>, idx: nat, p: nat)
    requires |bits| == N_BITS && idx % WORD_SIZE == 0 && p < N_BITS
    ensures Cleared(bits, idx, idx + WORD_SIZE)[p] <==> bits[p] && p / WORD_SIZE != idx % N_BITS / WORD_SIZE
  {
    hide Cleared;
    ClearedAt(bits, idx, idx + WORD_SIZE, p);
    if p / WORD_SIZE == idx % N_BITS / WORD_SIZE {
      WordCoveredBy(idx, p);
    } else {
      forall c | idx <= c < idx + WORD_SIZE ensures c % N_BITS != p { WordCovers(idx, c); }
    }
  }

  lemma BitsAfterClearWord(words: seq<bv64>, idx: nat)
    requires |words| == N_WORDS && idx % WORD_SIZE == 0
    ensures BitsOf(words[idx % N_BITS / WORD_SIZE := 0]) == Cleared(BitsOf(words), idx, idx + WORD_SIZE)
  {
    hide Cleared, HasBit;
    var bits, word := BitsOf(words), idx % N_BITS / WORD_SIZE;
    var now, cleared := BitsOf(words[word := 0]), Cleared(bits, idx, idx + WORD_SIZE);
    forall p | 0 <= p < N_BITS
      ensures now[p] == cleared[p]
    {
      ClearedWordAt(bits, idx, p);
      ZeroHasNoBit(p % WORD_SIZE);
    }
  }

  lemma BitsOfZero(words: seq<bv64>)
    requires |words| == N_WORDS && forall k :: 0 <= k < N_WORDS ==> words[k] == 0
    ensures forall p :: 0 <= p < N_BITS ==> !BitsOf(words)[p]
  {
    forall p | 0 <= p < N_BITS ensures !BitsOf(words)[p] { ZeroHasNoBit(p % WORD_SIZE); }
  }

  lemma NewToTheSet(w: Window, c: nat)
    requires WellFormed(w) && MarkVerdictWrapped(w, c) == Accepted
    ensures |MarkWrapped(w, c).accepted| == |w.accepted| + 1
  {}

  class ReceivingKeyCounterValidator {
    var next: nat
    var receiveCnt: nat
    const bitmap: array<bv64>
    ghost var accepted: set<nat>

    ghost function Bits(): (bits: seq<bool>)
      requires bitmap.Length == N_WORDS
      reads bitmap
      ensures |bits| == N_BITS
    {
      BitsOf(bitmap[..])
    }

    ghost function Abstract(): (w: Window)
      reads this
    {
      Window(next, accepted)
    }

    ghost predicate Valid()
      reads this, bitmap
    {
      && bitmap.Length == N_WORDS && next < U64_LIMIT
      && WellFormed(Abstract())
      && Shows(Bits(), Abstract())
      && receiveCnt == |accepted|
    }

    constructor ()
      ensures Valid() && fresh(bitmap)
      ensures Abstract() == EMPTY && receiveCnt == 0
    {
      next, receiveCnt, accepted := 0, 0, {};
      bitmap := new bv64[N_WORDS](_ => 0);
    }

    method SetBit(idx: nat)
      requires bitmap.Length == N_WORDS
      modifies bitmap
      ensures Bits() == old(Bits())[idx % N_BITS := true]
    {
      var bitIdx := idx % N_BITS;
      var word, bit := bitIdx / WORD_SIZE, Shift(bitIdx % WORD_SIZE);
      var w := bitmap[word] | (1 << bit);
      BitsAfterSet(bitmap[..], bitIdx, bit, w);
      bitmap[word] := w;
      assert bitmap[..] == old(bitmap[..])[word := w];
    }

    method ClearBit(idx: nat)
      requires bitmap.Length == N_WORDS
      modifies bitmap
      ensures Bits() == old(Bits())[idx % N_BITS := false]
    {
      var bitIdx := idx % N_BITS;
      var word, bit := bitIdx / WORD_SIZE, Shift(bitIdx % WORD_SIZE);
      var w := bitmap[word] & !(1 << bit);
      BitsAfterClear(bitmap[..], bitIdx, bit, w);
      bitmap[word] := w;
      assert bitmap[..] == old(bitmap[..])[word := w];
    }

    /** Clear the word that contains idx. */
    method ClearWord(idx: nat)
      requires bitmap.Length == N_WORDS
      requires idx % WORD_SIZE == 0
      modifies bitmap
      ensures Bits() == Cleared(old(Bits()), idx, idx + WORD_SIZE)
    {
      var bitIdx := idx % N_BITS;
      var word := bitIdx / WORD_SIZE;
      BitsAfterClearWord(bitmap[..], idx);
      bitmap[word] := 0;
      assert bitmap[..] == old(bitmap[..])[word := 0];
    }

    method CheckBit(idx: nat) returns (r: bool)
      requires bitmap.Length == N_WORDS
      ensures r == Bits()[idx % N_BITS]
    {
      var bitIdx := idx % N_BITS;
      var word, bit := bitIdx / WORD_SIZE, Shift(bitIdx % WORD_SIZE);
      r := (bitmap[word] >> bit) & 1 == 1;
    }

    /** The three clearing loops: bits up to a word boundary, then whole words, then bits. */
    method ClearSkipped(counter: nat)
      requires bitmap.Length == N_WORDS
      requires next <= counter < COUNTER_LIMIT
      modifies bitmap
      ensures Bits() == Cleared(old(Bits()), next, counter)
    {
      hide BitsOf, Cleared;
      ghost var was := Bits();
      ClearedNone(was, next);
      var i := next;
      while i % WORD_SIZE != 0 && i < counter
        invariant next <= i <= counter
        invariant Bits() == Cleared(was, next, i)
        decreases counter - i
      {
        ClearedOneMore(was, next, i);
        ClearBit(i);
        i := i + 1;
      }
      while (i + WORD_SIZE) % U64_LIMIT < counter
        invariant next <= i <= counter
        invariant i < counter ==> i % WORD_SIZE == 0
        invariant Bits() == Cleared(was, next, i)
        decreases counter - i
      {
        ClearedJoin(was, next, i, i + WORD_SIZE);
        ClearWord(i);
        i := (i + WORD_SIZE) / WORD_SIZE * WORD_SIZE;
      }
      while i < counter
        invariant next <= i <= counter
        invariant Bits() == Cleared(was, next, i)
      {
        ClearedOneMore(was, next, i);
        ClearBit(i);
        i := i + 1;
      }
    }

    method ClearAll()
      requires bitmap.Length == N_WORDS
      modifies bitmap
      ensures forall p :: 0 <= p < N_BITS ==> !Bits()[p]
    {
      for k := 0 to N_WORDS
        invariant forall j :: 0 <= j < k ==> bitmap[j] == 0
      {
        bitmap[k] := 0;
      }
      BitsOfZero(bitmap[..]);
    }

    method WillAccept(counter: nat) returns (v: Verdict)
      requires Valid() && counter < U64_LIMIT
      ensures v == WillAcceptWrapped(Abstract(), counter)
      ensures counter < COUNTER_LIMIT ==> v == ReplaySpec.WillAccept(Abstract(), counter)
    {
      hide BitsOf;
      QuickCheckWrapsIff(Abstract(), counter);
      if counter >= next { return Accepted; }
      if (counter + N_BITS) % U64_LIMIT < next { return InvalidCounter; }
      var seen := CheckBit(counter);
      v := if !seen then Accepted else DuplicateCounter;
    }

    method MarkDidReceive(counter: nat) returns (v: Verdict)
      requires Valid() && counter < U64_LIMIT
      modifies this, bitmap
      ensures if v == Accepted && counter + 1 == U64_LIMIT then next == 0
              else next < U64_LIMIT && WellFormed(Abstract()) && Shows(Bits(), Abstract())
      ensures receiveCnt == old(receiveCnt)
      ensures v == MarkVerdictWrapped(old(Abstract()), counter) && Abstract() == MarkWrapped(old(Abstract()), counter)
      ensures counter < COUNTER_LIMIT ==>
                v == MarkVerdict(old(Abstract()), counter) && Abstract() == Mark(old(Abstract()), counter)
    {
      hide BitsOf, Cleared, Shows;
      MarkWrapsIff(Abstract(), counter);
      if (counter + N_BITS) % U64_LIMIT < next { return InvalidCounter; }
      if counter == next {
        ShowsAfterSet(Bits(), Abstract(), counter);
        SetBit(counter);
        next, accepted := (next + 1) % U64_LIMIT, accepted + {counter};
        return Accepted;
      }
      if counter < next {
        var seen := CheckBit(counter);
        ShowsAt(Bits(), Abstract(), counter);
        if seen { return InvalidCounter; }
        ShowsAfterSet(Bits(), Abstract(), counter);
        SetBit(counter);
        accepted := accepted + {counter};
        return Accepted;
      }
      SkipTo(counter);
      return Accepted;
    }

    /** Packets were dropped or reordered: clear what is skipped, then mark. */
    method SkipTo(counter: nat)
      requires bitmap.Length == N_WORDS && WellFormed(Abstract()) && Shows(Bits(), Abstract())
      requires next < counter < U64_LIMIT && (counter < COUNTER_LIMIT || counter - next >= N_BITS)
      modifies this, bitmap
      ensures counter + 1 < U64_LIMIT ==> Shows(Bits(), Abstract()) && Abstract() == Mark(old(Abstract()), counter)
      ensures receiveCnt == old(receiveCnt)
      ensures Abstract() == Window((counter + 1) % U64_LIMIT, old(accepted) + {counter})
    {
      hide BitsOf, Shows, Cleared;
      ghost var bits := Bits();
      if counter - next >= N_BITS { ClearAll(); } else { ClearSkipped(counter); }
      ShowsAfterSkip(bits, Bits(), Abstract(), counter);
      SetBit(counter);
      next, accepted := (counter + 1) % U64_LIMIT, accepted + {counter};
    }

    /** The locked mark after decryption, which also counts the packet. */
    method ReceivingCounterMark(counter: nat) returns (v: Verdict)
      requires Valid() && counter < U64_LIMIT
      modifies this, bitmap
      ensures v == MarkVerdictWrapped(old(Abstract()), counter) && Abstract() == MarkWrapped(old(Abstract()), counter)
      ensures counter < COUNTER_LIMIT ==>
                v == MarkVerdict(old(Abstract()), counter) && Abstract() == Mark(old(Abstract()), counter)
      ensures if v == Accepted && counter + 1 == U64_LIMIT then next == 0 else Valid() && receiveCnt <= next
    {
      hide BitsOf, Shows;
      if MarkVerdictWrapped(Abstract(), counter) == Accepted { NewToTheSet(Abstract(), counter); }
      v := MarkDidReceive(counter);
      if v == Accepted { receiveCnt := receiveCnt + 1; }
      if v != Accepted || counter + 1 < U64_LIMIT { AcceptedCountBound(Abstract()); }
    }
  }
}
