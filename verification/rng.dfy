/** The rejection-sampled generator: 64-bit words read from a byte source. */
module Rng {

  const WORDS: nat := 0x1_0000_0000_0000_0000
  const MAX_ATTEMPTS: nat := 128

  type Byte = b: int | 0 <= b < 256

  datatype Draw = Value(v: nat) | EmptyRange | SourceError | Exhausted

  /** Bitwise AND of two unsigned integers. */
  function BitAnd(a: nat, b: nat): nat {
    if a == 0 || b == 0 then 0 else 2 * BitAnd(a / 2, b / 2) + (a % 2) * (b % 2)
  }

  function BigEndian(bytes: seq<Byte>): nat {
    if bytes == [] then 0 else 256 * BigEndian(bytes[..|bytes| - 1]) + bytes[|bytes| - 1]
  }

  function Threshold(n: nat): nat
    requires 0 < n < WORDS
  {
    // unsigned negation wraps to 2^64 - n
    (WORDS - n) % n
  }

  /** One pass of the rejection loop with `left` attempts remaining, and the unread bytes. */
  function Sample(n: nat, src: seq<Byte>, left: nat): (Draw, seq<Byte>)
    requires 0 < n < WORDS
    decreases left
  {
    if left == 0 then (Exhausted, src)
    else if |src| < 8 then (SourceError, [])
    else if BigEndian(src[..8]) >= Threshold(n) then (Value(BigEndian(src[..8]) % n), src[8..])
    else Sample(n, src[8..], left - 1)
  }

  function DrawBelow(n: nat, src: seq<Byte>): (Draw, seq<Byte>)
    requires n < WORDS
  {
    if n == 0 then (EmptyRange, src)
    else if BitAnd(n, n - 1) == 0 then
      if |src| < 8 then (SourceError, []) else (Value(BitAnd(BigEndian(src[..8]), n - 1)), src[8..])
    else Sample(n, src, MAX_ATTEMPTS)
  }

  class CryptoRNG {
    /** Entropy not yet consumed. */
    var src: seq<Byte>

    constructor (s: seq<Byte>)
      ensures src == s
    {
      src := s;
    }

    /** A short read consumes what is there and fails. */
    method Read() returns (ok: bool, v: nat)
      modifies this
      ensures ok == (|old(src)| >= 8)
      ensures ok ==> v == BigEndian(old(src)[..8]) && src == old(src)[8..]
      ensures !ok ==> src == []
    {
      if |src| < 8 {
        src := [];
        return false, 0;
      }
      v := BigEndian(src[..8]);
      src := src[8..];
      return true, v;
    }

    method Uint64N(n: nat) returns (r: Draw)
      requires n < WORDS
      modifies this
      ensures (r, src) == DrawBelow(n, old(src))
    {
      if n == 0 {
        return EmptyRange;
      }
      if BitAnd(n, n - 1) == 0 {
        var ok, v := Read();
        if !ok {
          return SourceError;
        }
        return Value(BitAnd(v, n - 1));
      }
      var threshold := Threshold(n);
      var attempt := 0;
      while attempt < MAX_ATTEMPTS
        invariant 0 <= attempt <= MAX_ATTEMPTS
        invariant Sample(n, src, MAX_ATTEMPTS - attempt) == Sample(n, old(src), MAX_ATTEMPTS)
      {
        var ok, v := Read();
        if !ok {
          return SourceError;
        }
        if v >= threshold {
          return Value(v % n);
        }
        attempt := attempt + 1;
      }
      return Exhausted;
    }
  }

  // --------------------------------------------------------------------------
  // Division facts
  // --------------------------------------------------------------------------

  lemma Distance(n: int, d: int, q: int, m: int, r: int)
    requires n > 0 && 0 <= m < n && 0 <= r < n && n * d + m == n * q + r
    ensures d == q && m == r
  {
    MulDistributes(n, d, q);
    if d > q { MulGrows(n, d - q); }
    if d < q { MulGrows(n, q - d); MulDistributes(n, q, d); }
  }

  lemma MulDistributes(n: int, d: int, q: int)
    ensures n * (d - q) == n * d - n * q
  {
  }

  lemma {:induction false} MulGrows(n: int, k: int)
    requires n > 0 && k > 0
    ensures n * k >= n
    decreases k
  {
    if k > 1 { MulGrows(n, k - 1); MulDistributes(n, k, 1); }
  }

  lemma DivModUnique(x: int, n: int, q: int, r: int)
    requires n > 0 && 0 <= r < n && x == q * n + r
    ensures x / n == q && x % n == r
  {
    var d, m := x / n, x % n;
    assert x == n * d + m;
    assert n * d + m == n * q + r by { assert q * n == n * q; }
    Distance(n, d, q, m, r);
  }

  lemma DivAddMultiple(x: int, n: int, q: int)
    requires n > 0
    ensures (x + q * n) / n == x / n + q
    ensures (x + q * n) % n == x % n
  {
    assert x + q * n == (x / n + q) * n + x % n;
    DivModUnique(x + q * n, n, x / n + q, x % n);
  }

  // --------------------------------------------------------------------------
  // The threshold
  // --------------------------------------------------------------------------

  /** The wrapped negation really is the size of the incomplete block, and at most half of
      all words are ever rejected. */
  lemma ThresholdIsIncompleteBlock(n: nat)
    requires 0 < n < WORDS
    ensures Threshold(n) == WORDS % n
    ensures 2 * Threshold(n) < WORDS
    ensures exists q: nat :: q > 0 && WORDS == Threshold(n) + q * n
  {
    DivAddMultiple(WORDS - n, n, 1);
    var q := WORDS / n;
    assert WORDS == q * n + WORDS % n;
    if n > WORDS - n { DivModUnique(WORDS - n, n, 0, WORDS - n); }
  }

  // --------------------------------------------------------------------------
  // The power-of-two branch
  // --------------------------------------------------------------------------

  function Pow2(k: nat): nat { if k == 0 then 1 else 2 * Pow2(k - 1) }

  lemma {:induction false} BitAndSelf(m: nat)
    ensures BitAnd(m, m) == m
  {
    if m > 0 { BitAndSelf(m / 2); }
  }

  lemma HalveMask(n: nat)
    requires n > 1 && BitAnd(n, n - 1) == 0
    ensures n % 2 == 0 && BitAnd(n / 2, n / 2 - 1) == 0
    ensures (n - 1) / 2 == n / 2 - 1
  {
    if n % 2 == 1 {
      assert (n - 1) / 2 == n / 2;
      BitAndSelf(n / 2);
    }
  }

  lemma ResidueDoubles(v: nat, m: nat)
    requires m > 0
    ensures v % (2 * m) == 2 * (v / 2 % m) + v % 2
  {
    var q, r := v / 2 / m, v / 2 % m;
    assert v / 2 == m * q + r;
    assert v == 2 * (m * q + r) + v % 2;
    assert v == q * (2 * m) + (2 * r + v % 2) by { assert q * (2 * m) == 2 * (m * q); }
    DivModUnique(v, 2 * m, q, 2 * r + v % 2);
  }

  lemma MaskStep(v: nat, n: nat)
    requires n > 1 && n % 2 == 0
    ensures BitAnd(v, n - 1) == 2 * BitAnd(v / 2, n / 2 - 1) + v % 2
  {
    assert (n - 1) / 2 == n / 2 - 1 && (n - 1) % 2 == 1;
  }

  /** For n with n & (n-1) == 0 the mask is the residue and nothing needs rejecting. */
  lemma {:induction false} MaskIsResidue(n: nat, v: nat)
    requires n > 0 && BitAnd(n, n - 1) == 0
    ensures BitAnd(v, n - 1) == v % n
  {
    if n > 1 {
      HalveMask(n);
      var m := n / 2;
      MaskIsResidue(m, v / 2);
      ResidueDoubles(v, m);
      MaskStep(v, n);
    } else {
      DivModUnique(v, 1, v, 0);
    }
  }

  lemma {:induction false} MaskDivides(n: nat, k: nat)
    requires n > 0 && BitAnd(n, n - 1) == 0 && n < Pow2(k)
    ensures Pow2(k) % n == 0
    decreases k
  {
    if n == 1 {
      DivModUnique(Pow2(k), 1, Pow2(k), 0);
    } else {
      HalveMask(n);
      MaskDivides(n / 2, k - 1);
      DoubleDivides(Pow2(k - 1), n / 2);
    }
  }

  lemma DoubleDivides(x: nat, h: nat)
    requires h > 0 && x % h == 0
    ensures (2 * x) % (2 * h) == 0
  {
    var q := x / h;
    assert x == q * h;
    assert 2 * (q * h) == q * (2 * h);
    DivModUnique(2 * x, 2 * h, q, 0);
  }

  lemma WordsIsPow2()
    ensures Pow2(64) == WORDS
  {
    assert Pow2(8) == 256;
    assert Pow2(16) == 0x1_0000;
    assert Pow2(24) == 0x100_0000;
    assert Pow2(32) == 0x1_0000_0000;
    assert Pow2(40) == 0x100_0000_0000;
    assert Pow2(48) == 0x1_0000_0000_0000;
    assert Pow2(56) == 0x100_0000_0000_0000;
  }

  /** Both branches accept the words at or above the threshold and return them modulo n. */
  lemma BranchesAgree(n: nat, v: nat)
    requires 0 < n < WORDS && BitAnd(n, n - 1) == 0
    ensures BitAnd(v, n - 1) == v % n
    ensures Threshold(n) == 0
  {
    MaskIsResidue(n, v);
    WordsIsPow2();
    MaskDivides(n, 64);
    ThresholdIsIncompleteBlock(n);
  }

  // --------------------------------------------------------------------------
  // Uniformity
  // --------------------------------------------------------------------------

  /** How many words in [lo, hi) leave residue r. */
  function Preimages(lo: nat, hi: nat, n: nat, r: nat): nat
    requires n > 0 && lo <= hi
    decreases hi - lo
  {
    if lo == hi then 0 else Preimages(lo, hi - 1, n, r) + (if (hi - 1) % n == r then 1 else 0)
  }

  function Below(x: int, n: nat, r: nat): int
    requires n > 0
  {
    (x - r + n - 1) / n
  }

  /** Where x / n sits relative to the residue r decides how many values below x are r. */
  lemma BelowAt(x: int, n: nat, r: nat, q: int, m: int)
    requires 0 <= r < n && 0 <= m < n && x == q * n + m
    ensures Below(x, n, r) == if m > r then q + 1 else q
  {
    if m > r {
      assert (q + 1) * n == q * n + n;
      DivModUnique(x - r + n - 1, n, q + 1, m - r - 1);
    } else {
      DivModUnique(x - r + n - 1, n, q, m - r + n - 1);
    }
  }

  lemma BelowStep(x: int, n: nat, r: nat)
    requires 0 <= r < n && x >= 0
    ensures Below(x + 1, n, r) == Below(x, n, r) + if x % n == r then 1 else 0
  {
    var q, m := x / n, x % n;
    assert x == q * n + m;
    BelowAt(x, n, r, q, m);
    if m + 1 < n {
      BelowAt(x + 1, n, r, q, m + 1);
    } else {
      assert (q + 1) * n == q * n + n;
      BelowAt(x + 1, n, r, q + 1, 0);
    }
  }

  lemma {:induction false} PreimagesClosedForm(lo: nat, hi: nat, n: nat, r: nat)
    requires 0 <= r < n && lo <= hi
    ensures Preimages(lo, hi, n, r) == Below(hi, n, r) - Below(lo, n, r)
    decreases hi - lo
  {
    if lo < hi {
      PreimagesClosedForm(lo, hi - 1, n, r);
      BelowStep(hi - 1, n, r);
    }
  }

  /** Exact uniformity: among all 2^64 words, every residue below n has the same number of
      accepted words, namely (2^64 - threshold) / n. */
  lemma AcceptedWordsAreUniform(n: nat, r: nat)
    requires 0 < n < WORDS && r < n
    ensures Preimages(Threshold(n), WORDS, n, r) == (WORDS - Threshold(n)) / n
    ensures Preimages(Threshold(n), WORDS, n, r) > 0
  {
    ThresholdIsIncompleteBlock(n);
    var t := Threshold(n);
    var q: nat :| q > 0 && WORDS == t + q * n;
    PreimagesClosedForm(t, WORDS, n, r);
    DivAddMultiple(t - r + n - 1, n, q);
    DivModUnique(WORDS - t, n, q, 0);
  }

  function Encode(v: nat, width: nat): seq<Byte> {
    if width == 0 then [] else Encode(v / 256, width - 1) + [v % 256]
  }

  lemma {:induction false} EncodeRoundTrip(v: nat, width: nat)
    requires v < Pow2(8 * width)
    ensures |Encode(v, width)| == width && BigEndian(Encode(v, width)) == v
  {
    if width > 0 {
      assert Pow2(8 * width) == 256 * Pow2(8 * width - 8) by { PowByte(8 * width - 8); }
      EncodeRoundTrip(v / 256, width - 1);
      assert Encode(v, width)[..width - 1] == Encode(v / 256, width - 1);
    }
  }

  lemma PowByte(k: nat)
    ensures Pow2(k + 8) == 256 * Pow2(k)
  {
    assert Pow2(k + 1) == 2 * Pow2(k) && Pow2(k + 2) == 2 * Pow2(k + 1);
    assert Pow2(k + 3) == 2 * Pow2(k + 2) && Pow2(k + 4) == 2 * Pow2(k + 3);
    assert Pow2(k + 5) == 2 * Pow2(k + 4) && Pow2(k + 6) == 2 * Pow2(k + 5);
    assert Pow2(k + 7) == 2 * Pow2(k + 6) && Pow2(k + 8) == 2 * Pow2(k + 7);
  }

  lemma {:induction false} DecodeInjective(a: seq<Byte>, b: seq<Byte>)
    requires |a| == |b| && BigEndian(a) == BigEndian(b)
    ensures a == b
  {
    if a != [] {
      var n := |a| - 1;
      DecodeInjective(a[..n], b[..n]);
      assert a == a[..n] + [a[n]] && b == b[..n] + [b[n]];
    }
  }

  /** Two halves of a number, the high one first. */
  function Pairs(high: nat, low: nat, base: nat): nat { high * base + low }

  lemma FirstByteIsHighest(bytes: seq<Byte>)
    requires |bytes| == 8
    ensures BigEndian(bytes) == Pairs(Pairs(Pairs(bytes[0], bytes[1], 256), Pairs(bytes[2], bytes[3], 256), 0x1_0000),
      Pairs(Pairs(bytes[4], bytes[5], 256), Pairs(bytes[6], bytes[7], 256), 0x1_0000), 0x1_0000_0000)
  {
    forall k | 0 < k <= 8 ensures BigEndian(bytes[..k]) == 256 * BigEndian(bytes[..k - 1]) + bytes[k - 1] {
      assert bytes[..k][..k - 1] == bytes[..k - 1];
    }
    assert bytes[..8] == bytes && bytes[..0] == [];
    var b0: int, b1: int, b2: int, b3: int := bytes[0], bytes[1], bytes[2], bytes[3];
    assert BigEndian(bytes[..4]) == 256 * (256 * (256 * b0 + b1) + b2) + b3;
  }

  /** Every word is the decoding of one and only one run of eight bytes, highest first, so uniform
      bytes are uniform words. */
  lemma WordsAreEightBytes(v: nat, bytes: seq<Byte>)
    requires v < WORDS && |bytes| == 8
    ensures BigEndian(bytes) == v <==> bytes == Encode(v, 8)
    ensures BigEndian(bytes) == Pairs(Pairs(Pairs(bytes[0], bytes[1], 256), Pairs(bytes[2], bytes[3], 256), 0x1_0000),
      Pairs(Pairs(bytes[4], bytes[5], 256), Pairs(bytes[6], bytes[7], 256), 0x1_0000), 0x1_0000_0000)
  {
    FirstByteIsHighest(bytes);
    WordsIsPow2();
    EncodeRoundTrip(v, 8);
    if BigEndian(bytes) == v { DecodeInjective(bytes, Encode(v, 8)); }
  }

  /** The word read for attempt k. */
  function WordAt(src: seq<Byte>, k: nat): nat
    requires 8 * (k + 1) <= |src|
  {
    BigEndian(src[8 * k..8 * (k + 1)])
  }

  ghost predicate FirstAccepted(n: nat, src: seq<Byte>, k: nat)
    requires 0 < n < WORDS
  {
    && 8 * (k + 1) <= |src|
    && WordAt(src, k) >= Threshold(n)
    && forall j: nat :: j < k ==> WordAt(src, j) < Threshold(n)
  }

  lemma WordAtTail(src: seq<Byte>, k: nat)
    requires 8 * (k + 2) <= |src|
    ensures WordAt(src[8..], k) == WordAt(src, k + 1)
  {
    assert src[8..][8 * k..8 * (k + 1)] == src[8 * (k + 1)..8 * (k + 2)];
  }

  /** The loop returns the first accepted word modulo n whenever one arrives within the
      attempt budget, having consumed exactly the words up to it. */
  lemma {:induction false} SampleFindsFirst(n: nat, src: seq<Byte>, left: nat, k: nat)
    requires 0 < n < WORDS && k < left && FirstAccepted(n, src, k)
    ensures Sample(n, src, left) == (Value(WordAt(src, k) % n), src[8 * (k + 1)..])
    decreases left
  {
    assert src[8 * 0..8 * 1] == src[..8];
    if k > 0 {
      assert WordAt(src, 0) < Threshold(n);
      forall j: nat | j < k ensures WordAt(src[8..], j) == WordAt(src, j + 1) { WordAtTail(src, j); }
      SampleFindsFirst(n, src[8..], left - 1, k - 1);
      assert src[8..][8 * k..] == src[8 * (k + 1)..];
    }
  }

  /** A value is never anything but the first accepted word modulo n. */
  lemma {:induction false} SampleIsFirst(n: nat, src: seq<Byte>, left: nat)
    requires 0 < n < WORDS && Sample(n, src, left).0.Value?
    ensures exists k: nat :: k < left && FirstAccepted(n, src, k)
    decreases left
  {
    assert src[8 * 0..8 * 1] == src[..8];
    if BigEndian(src[..8]) >= Threshold(n) {
      assert FirstAccepted(n, src, 0);
    } else {
      SampleIsFirst(n, src[8..], left - 1);
      var k: nat :| k < left - 1 && FirstAccepted(n, src[8..], k);
      forall j: nat | j <= k ensures WordAt(src[8..], j) == WordAt(src, j + 1) { WordAtTail(src, j); }
      forall j: nat | j < k + 1 ensures WordAt(src, j) < Threshold(n) {
        if j > 0 { assert WordAt(src[8..], j - 1) < Threshold(n); }
      }
      assert FirstAccepted(n, src, k + 1);
    }
  }

  /** For every n > 0 the generator yields exactly the first word at or above the threshold,
      modulo n, if one is read within the attempt budget (one attempt when n is a power of
      two, where the threshold is zero), and otherwise fails. */
  lemma DrawExact(n: nat, src: seq<Byte>)
    requires 0 < n < WORDS
    ensures DrawBelow(n, src).0.Value? <==> exists k: nat :: k < MAX_ATTEMPTS && FirstAccepted(n, src, k)
    ensures forall k: nat :: k < MAX_ATTEMPTS && FirstAccepted(n, src, k) ==>
      DrawBelow(n, src) == (Value(WordAt(src, k) % n), src[8 * (k + 1)..])
    ensures DrawBelow(n, src).0.Value? ==> DrawBelow(n, src).0.v < n
  {
    if BitAnd(n, n - 1) == 0 {
      if |src| >= 8 {
        var v := BigEndian(src[..8]);
        assert src[8 * 0..8 * 1] == src[..8];
        BranchesAgree(n, v);
        assert FirstAccepted(n, src, 0);
      }
      BranchesAgree(n, 0);
      forall k: nat | k > 0 ensures !FirstAccepted(n, src, k) {
        assert 8 * (k + 1) <= |src| ==> WordAt(src, 0) >= Threshold(n);
      }
    } else {
      if DrawBelow(n, src).0.Value? { SampleIsFirst(n, src, MAX_ATTEMPTS); }
      forall k: nat | k < MAX_ATTEMPTS && FirstAccepted(n, src, k)
        ensures DrawBelow(n, src) == (Value(WordAt(src, k) % n), src[8 * (k + 1)..])
      {
        SampleFindsFirst(n, src, MAX_ATTEMPTS, k);
      }
    }
  }
}
