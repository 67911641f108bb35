/** Uniformity of the whole generator: exchanging the accepted word within its block matches the
    entropy streams that return one value with those that return any other. */
module RngStreams {
  import opened Rng

  /** Residues counted from the threshold on, and back. */
  function IndexOf(n: nat, r: nat): nat
    requires 0 < n < WORDS && r < n
  {
    if r >= Threshold(n) then r - Threshold(n) else r + n - Threshold(n)
  }

  function ResidueAt(n: nat, i: nat): nat
    requires 0 < n < WORDS && i < n
  {
    if Threshold(n) + i < n then Threshold(n) + i else Threshold(n) + i - n
  }

  lemma RestAtMost(x: nat, n: nat)
    requires n > 0
    ensures x % n <= x
  {
    if x < n { DivModUnique(x, n, 0, x); }
  }

  /** The word of v's block whose residue is r. */
  function Move(n: nat, v: nat, r: nat): nat
    requires 0 < n < WORDS && Threshold(n) <= v && r < n
  {
    RestAtMost(v - Threshold(n), n);
    v - (v - Threshold(n)) % n + IndexOf(n, r)
  }

  /** A block starts a whole number of steps above the threshold. */
  predicate BlockAt(n: nat, base: nat)
    requires 0 < n < WORDS
  {
    base >= Threshold(n) && (base - Threshold(n)) % n == 0
  }

  lemma RestIsMultiple(x: nat, n: nat)
    requires n > 0
    ensures x % n <= x && (x - x % n) % n == 0
  {
    RestAtMost(x, n);
    DivModUnique(x - x % n, n, x / n, 0);
  }

  /** The word at index i of a block. */
  lemma WordOfBlock(n: nat, base: nat, i: nat)
    requires 0 < n < WORDS && i < n && BlockAt(n, base)
    ensures (base + i - Threshold(n)) % n == i
    ensures (base + i) % n == ResidueAt(n, i) && ResidueAt(n, i) < n && IndexOf(n, ResidueAt(n, i)) == i
  {
    var t := Threshold(n);
    var q := (base - t) / n;
    assert base == t + q * n;
    DivModUnique(base + i - t, n, q, i);
    if t + i < n {
      DivModUnique(base + i, n, q, t + i);
    } else {
      assert (q + 1) * n == q * n + n;
      DivModUnique(base + i, n, q + 1, t + i - n);
    }
  }

  lemma IndexAndBack(n: nat, r: nat)
    requires 0 < n < WORDS && r < n
    ensures IndexOf(n, r) < n && ResidueAt(n, IndexOf(n, r)) == r
  {
  }

  lemma ProductOrder(a: int, b: int, n: nat)
    ensures a >= b ==> a * n >= b * n
  {
    if a >= b { assert a * n == b * n + (a - b) * n; }
  }

  /** Blocks above the threshold are whole. */
  lemma BlockFits(n: nat, base: nat)
    requires 0 < n < WORDS && BlockAt(n, base) && base < WORDS
    ensures base + n <= WORDS
  {
    ThresholdIsIncompleteBlock(n);
    var blocks: nat :| blocks > 0 && WORDS == Threshold(n) + blocks * n;
    var q := (base - Threshold(n)) / n;
    assert base == Threshold(n) + q * n;
    ProductOrder(q, blocks, n);
    ProductOrder(blocks, q + 1, n);
    assert (q + 1) * n == q * n + n;
  }

  /** Moving keeps a word accepted, gives it the asked residue, and is undone by moving back. */
  lemma MoveExact(n: nat, v: nat, r: nat)
    requires 0 < n < WORDS && Threshold(n) <= v < WORDS && r < n
    ensures Threshold(n) <= Move(n, v, r) < WORDS && Move(n, v, r) % n == r && v % n < n
    ensures Move(n, Move(n, v, r), v % n) == v
  {
    RestIsMultiple(v - Threshold(n), n);
    var j := (v - Threshold(n)) % n;
    MovedWithin(n, v - j, j, IndexOf(n, r), r);
  }

  lemma MovedWithin(n: nat, base: nat, j: nat, i: nat, r: nat)
    requires 0 < n < WORDS && BlockAt(n, base) && base < WORDS && j < n && r < n && i == IndexOf(n, r)
    ensures i < n && base + i < WORDS && (base + i) % n == r && (base + j) % n < n
    ensures Move(n, base + j, r) == base + i && Move(n, base + i, (base + j) % n) == base + j
  {
    IndexAndBack(n, r);
    WordOfBlock(n, base, j);
    WordOfBlock(n, base, i);
    BlockFits(n, base);
  }

  // --------------------------------------------------------------------------
  // Streams
  // --------------------------------------------------------------------------

  lemma {:induction false} BytesBelow(bytes: seq<Byte>)
    ensures BigEndian(bytes) < Pow2(8 * |bytes|)
  {
    if bytes != [] {
      BytesBelow(bytes[..|bytes| - 1]);
      PowByte(8 * |bytes| - 8);
    }
  }

  lemma WordBelow(bytes: seq<Byte>)
    requires |bytes| == 8
    ensures BigEndian(bytes) < WORDS
  {
    BytesBelow(bytes);
    WordsIsPow2();
  }

  /** A stream's words up to k, with the k-th one replaced, in front of other bytes. */
  function Spliced(src: seq<Byte>, k: nat, v: nat, rest: seq<Byte>): seq<Byte>
    requires 8 * k <= |src|
  {
    src[..8 * k] + Encode(v, 8) + rest
  }

  lemma SplicedWords(src: seq<Byte>, k: nat, v: nat, rest: seq<Byte>)
    requires 8 * (k + 1) <= |src| && v < WORDS
    ensures var to := Spliced(src, k, v, rest);
      && |to| == 8 * (k + 1) + |rest| && to[8 * (k + 1)..] == rest && WordAt(to, k) == v && to[..8 * k] == src[..8 * k]
      && (forall j: nat :: j < k ==> WordAt(to, j) == WordAt(src, j))
  {
    WordsIsPow2();
    EncodeRoundTrip(v, 8);
    var to := Spliced(src, k, v, rest);
    assert to[8 * k..8 * (k + 1)] == Encode(v, 8);
    forall j: nat | j < k ensures WordAt(to, j) == WordAt(src, j) {
      assert to[8 * j..8 * (j + 1)] == src[8 * j..8 * (j + 1)];
    }
  }

  /** Splicing a stream's own word and its own rest changes nothing. */
  lemma SplicedBack(src: seq<Byte>, k: nat)
    requires 8 * (k + 1) <= |src|
    ensures WordAt(src, k) < WORDS && Spliced(src, k, WordAt(src, k), src[8 * (k + 1)..]) == src
  {
    var bytes := src[8 * k..8 * (k + 1)];
    WordBelow(bytes);
    WordsAreEightBytes(WordAt(src, k), bytes);
    assert src == src[..8 * k] + bytes + src[8 * (k + 1)..];
  }

  /** The stream with its k-th word replaced. */
  function Replace(src: seq<Byte>, k: nat, v: nat): seq<Byte>
    requires 8 * (k + 1) <= |src|
  {
    Spliced(src, k, v, src[8 * (k + 1)..])
  }

  lemma ReplaceWords(src: seq<Byte>, k: nat, v: nat)
    requires 8 * (k + 1) <= |src| && v < WORDS
    ensures var to := Replace(src, k, v);
      && |to| == |src| && to[8 * (k + 1)..] == src[8 * (k + 1)..] && WordAt(to, k) == v
      && (forall j: nat :: j < k ==> WordAt(to, j) == WordAt(src, j))
      && Replace(to, k, WordAt(src, k)) == src
  {
    SplicedWords(src, k, v, src[8 * (k + 1)..]);
    SplicedBack(src, k);
  }

  lemma FirstIsUnique(n: nat, src: seq<Byte>, j: nat, k: nat)
    requires 0 < n < WORDS && FirstAccepted(n, src, j) && FirstAccepted(n, src, k)
    ensures j == k
  {
  }

  /** The stream that returns r instead: its first accepted word is moved within its block. */
  ghost function Relabel(n: nat, src: seq<Byte>, r: nat): seq<Byte>
    requires 0 < n < WORDS && r < n
  {
    if exists k: nat :: FirstAccepted(n, src, k) then
      var k: nat :| FirstAccepted(n, src, k);
      Replace(src, k, Move(n, WordAt(src, k), r))
    else src
  }

  /** The streams of 128 words that return r. */
  ghost predicate Returns(n: nat, src: seq<Byte>, r: nat)
    requires 0 < n < WORDS
  {
    |src| == 8 * MAX_ATTEMPTS && DrawBelow(n, src).0 == Value(r)
  }

  lemma RelabelAt(n: nat, src: seq<Byte>, k: nat, r: nat)
    requires 0 < n < WORDS && r < n && FirstAccepted(n, src, k)
    ensures Relabel(n, src, r) == Replace(src, k, Move(n, WordAt(src, k), r))
    ensures FirstAccepted(n, Relabel(n, src, r), k) && WordAt(Relabel(n, src, r), k) % n == r && WordAt(src, k) % n < n
    ensures |Relabel(n, src, r)| == |src| && Relabel(n, Relabel(n, src, r), WordAt(src, k) % n) == src
  {
    var k': nat :| FirstAccepted(n, src, k') && Relabel(n, src, r) == Replace(src, k', Move(n, WordAt(src, k'), r));
    FirstIsUnique(n, src, k, k');
    WordBelow(src[8 * k..8 * (k + 1)]);
    var v := WordAt(src, k);
    MoveExact(n, v, r);
    var to := Replace(src, k, Move(n, v, r));
    ReplaceWords(src, k, Move(n, v, r));
    assert FirstAccepted(n, to, k);
    var k'': nat :| FirstAccepted(n, to, k'') && Relabel(n, to, v % n) == Replace(to, k'', Move(n, WordAt(to, k''), v % n));
    FirstIsUnique(n, to, k, k'');
  }

  /** Among all streams of 128 words every r below n is returned by equally many: relabelling is a
      one-to-one matching of the streams that return r with those that return any other r'. */
  lemma StreamsAreUniform(n: nat, src: seq<Byte>, r: nat, r': nat)
    requires 0 < n < WORDS && r < n && r' < n && Returns(n, src, r)
    ensures Returns(n, Relabel(n, src, r'), r') && Relabel(n, Relabel(n, src, r'), r) == src
  {
    DrawExact(n, src);
    var k: nat :| k < MAX_ATTEMPTS && FirstAccepted(n, src, k);
    RelabelAt(n, src, k, r');
    DrawExact(n, Relabel(n, src, r'));
  }
}
