/** The Internet checksum of an ICMP echo (src/proxy/ping.hpp), on a little-endian
    machine whose `unsigned long` has 64 bits.

    The code adds 16-bit words to a wide accumulator and folds the carries back twice.
    The reference is the end-around-carry addition of RFC 1071 section 1. */
module Checksum {
  import opened Basics

  type Byte = x: int | 0 <= x < 256
  type Word = x: int | 0 <= x < 0x1_0000

  /** The longest buffer for which two folds are always enough. */
  const SAFE_LENGTH := 131074

  // ----- what is summed -----

  function MakeWord(lo: Byte, hi: Byte): Word { lo as int + 256 * (hi as int) }

  /** The little-endian 16-bit words of a buffer; an odd last byte is zero-padded. */
  function Words(b: seq<Byte>): seq<Word> {
    seq((|b| + 1) / 2, k requires 0 <= k < (|b| + 1) / 2 =>
      MakeWord(b[2 * k], if 2 * k + 1 < |b| then b[2 * k + 1] else 0))
  }

  /** The sum of the first `n` words. */
  function Sum(ws: seq<Word>, n: nat): nat
    requires n <= |ws|
  {
    if n == 0 then 0 else Sum(ws, n - 1) + ws[n - 1]
  }

  /** One's-complement addition with end-around carry (RFC 1071 section 1). */
  function OcAdd(a: Word, w: Word): Word {
    if a + w > 0xffff then a + w - 0xffff else a + w
  }

  /** The one's-complement sum of the first `n` words. */
  function OcSum(ws: seq<Word>, n: nat): Word
    requires n <= |ws|
  {
    if n == 0 then 0 else OcAdd(OcSum(ws, n - 1), ws[n - 1])
  }

  /** The checksum RFC 1071 asks for: the complement of that sum. */
  function Reference(b: seq<Byte>): int { 0xffff - OcSum(Words(b), |Words(b)|) }

  predicate AllZero(b: seq<Byte>) { forall i :: 0 <= i < |b| ==> b[i] == 0 }

  // ----- what the code computes -----

  function Total(b: seq<Byte>): nat { 0xffff + Sum(Words(b), |Words(b)|) }

  function Fold(s: nat): nat { s % 0x1_0000 + s / 0x1_0000 }

  /** The two folds, then `~sum` truncated to 16 bits. */
  function Finish(s: nat): int { 0xffff - Fold(Fold(s)) % 0x1_0000 }

  function Result(b: seq<Byte>): int { Finish(Total(b)) }

  /** Addition of `unsigned long`, which wraps. */
  function Add64(a: nat, b: nat): (r: nat)
    ensures a + b < LIMIT_64 ==> r == a + b
  {
    (a + b) % LIMIT_64
  }

  /** The loop of ping.hpp: whole words, then the odd byte. A non-positive size reads
      nothing, and the 64-bit accumulator never wraps. */
  method Accumulate(buf: array<Byte>, bufsz: int) returns (sum: nat)
    requires bufsz <= buf.Length && bufsz < 0x8000_0000
    ensures sum == Total(if bufsz > 0 then buf[..bufsz] else [])
  {
    ghost var ws := Words(if bufsz > 0 then buf[..bufsz] else []);
    sum := 0xffff;
    var left, j := bufsz, 0;
    while left > 1
      invariant 0 <= j <= |ws| && left == bufsz - 2 * j && (left >= 0 || j == 0)
      invariant sum == 0xffff + Sum(ws, j) && sum <= 0xffff * (j + 1)
    {
      var w := MakeWord(buf[2 * j], buf[2 * j + 1]);
      assert ws[j] == w;
      sum := Add64(sum, w);
      j := j + 1;
      left := left - 2;
    }
    if left == 1 {
      assert ws[j] == buf[2 * j];
      sum := Add64(sum, buf[2 * j]);
    }
  }

  /** The whole of ping.hpp's `checksum`. */
  method Compute(buf: array<Byte>, bufsz: int) returns (c: int)
    requires bufsz <= buf.Length && bufsz < 0x8000_0000
    ensures bufsz <= 0 ==> c == 0
    ensures bufsz > 0 ==> c == Result(buf[..bufsz])
    ensures 0 < bufsz <= SAFE_LENGTH ==>
      c == if AllZero(buf[..bufsz]) then 0 else Reference(buf[..bufsz])
  {
    var sum := Accumulate(buf, bufsz);
    sum := Fold(sum);
    sum := Fold(sum);
    c := 0xffff - sum % 0x1_0000;
    if 0 < bufsz <= SAFE_LENGTH {
      CorrectWhenSafe(buf[..bufsz]);
    }
  }

  // ----- residues modulo 0xffff -----

  lemma FoldOnce(s: nat)
    ensures s == Fold(s) + 0xffff * (s / 0x1_0000)
    ensures s > 0 ==> Fold(s) > 0
  {
  }

  /** Two folds take off a multiple of 0xffff and never reach zero. */
  lemma FoldTwice(s: nat) returns (v: nat, k: nat)
    requires s > 0
    ensures v == Fold(Fold(s)) > 0 && s == v + 0xffff * k
    ensures s <= 0x1_0000_0000 + 0xfffe ==> v <= 0xffff
    ensures s < 0x1_0000_0000_0000 ==> v <= 0x1_fffe
  {
    FoldOnce(s);
    FoldOnce(Fold(s));
    v, k := Fold(Fold(s)), s / 0x1_0000 + Fold(s) / 0x1_0000;
  }

  /** Within reach of two folds, the result is the complement of a residue in 1..0xffff. */
  lemma FinishRange(s: nat) returns (v: int, k: nat)
    requires 0 < s <= 0x1_0000_0000 + 0xfffe
    ensures 1 <= v <= 0xffff && s == v + 0xffff * k && Finish(s) == 0xffff - v
  {
    v, k := FoldTwice(s);
  }

  /** End-around carry takes off a multiple of 0xffff as well. */
  lemma {:induction false} OcSumResidue(ws: seq<Word>, n: nat) returns (k: nat)
    requires n <= |ws|
    ensures Sum(ws, n) == OcSum(ws, n) + 0xffff * k
    ensures OcSum(ws, n) == 0 <==> Sum(ws, n) == 0
  {
    if n == 0 {
      k := 0;
    } else {
      k := OcSumResidue(ws, n - 1);
      if OcSum(ws, n - 1) as int + ws[n - 1] > 0xffff {
        k := k + 1;
      }
    }
  }

  // ----- when two folds are enough -----

  lemma {:induction false} SumBound(ws: seq<Word>, n: nat)
    requires n <= |ws|
    ensures Sum(ws, n) <= 0xffff * n
  {
    if n > 0 {
      SumBound(ws, n - 1);
    }
  }

  /** Up to SAFE_LENGTH bytes the total stays within reach of two folds. */
  lemma SafeTotal(b: seq<Byte>)
    requires |b| <= SAFE_LENGTH
    ensures Total(b) <= 0x1_0000_0000 + 0xfffe
  {
    SumBound(Words(b), |Words(b)|);
  }

  lemma {:induction false} ZeroWords(ws: seq<Word>, n: nat)
    requires n <= |ws|
    ensures Sum(ws, n) == 0 <==> forall k :: 0 <= k < n ==> ws[k] == 0
  {
    if n > 0 {
      ZeroWords(ws, n - 1);
    }
  }

  lemma ZeroSum(b: seq<Byte>)
    ensures Sum(Words(b), |Words(b)|) == 0 <==> AllZero(b)
  {
    var ws := Words(b);
    ZeroWords(ws, |ws|);
    if (forall k :: 0 <= k < |ws| ==> ws[k] == 0) {
      forall i | 0 <= i < |b| ensures b[i] == 0 {
        assert ws[i / 2] == 0;
      }
    }
  }

  /** One's complement has two zeros, and for a buffer of zeros, of any length, the code and
      the RFC give different ones: the code starts from 0xffff, the RFC from 0. */
  lemma ZeroBufferDiffers(b: seq<Byte>)
    requires AllZero(b)
    ensures Result(b) == 0 && Reference(b) == 0xffff
  {
    ZeroSum(b);
    var _ := OcSumResidue(Words(b), |Words(b)|);
  }

  /** For every buffer whose size an `int` can hold, the result is the RFC's exactly when
      some byte is not zero and the second fold leaves no carry. */
  lemma CorrectIff(b: seq<Byte>)
    requires |b| < 0x8000_0000
    ensures Result(b) == Reference(b) <==> !AllZero(b) && Fold(Fold(Total(b))) <= 0xffff
  {
    ZeroSum(b);
    if AllZero(b) {
      ZeroBufferDiffers(b);
    } else {
      SumBound(Words(b), |Words(b)|);
      var v, k := FoldTwice(Total(b));
      var k' := OcSumResidue(Words(b), |Words(b)|);
      TruncationIff(v, OcSum(Words(b), |Words(b)|), k, k' + 1);
    }
  }

  lemma TruncationIff(v: nat, w: Word, k: nat, k': nat)
    requires 1 <= v <= 0x1_fffe && 1 <= w && v + 0xffff * k == w + 0xffff * k'
    ensures v % 0x1_0000 == w <==> v <= 0xffff
  {
    if v > 0xffff {
      assert w == v - 0xffff;
    }
  }

  /** Up to SAFE_LENGTH bytes the two folds are exact. */
  lemma CorrectWhenSafe(b: seq<Byte>)
    requires |b| <= SAFE_LENGTH
    ensures Fold(Fold(Total(b))) <= 0xffff
    ensures Result(b) == if AllZero(b) then 0 else Reference(b)
  {
    SafeTotal(b);
    var _, _ := FoldTwice(Total(b));
    CorrectIff(b);
    if AllZero(b) {
      ZeroBufferDiffers(b);
    }
  }

  lemma {:induction false} OnesSum(ws: seq<Word>, n: nat)
    requires n <= |ws| && forall k :: 0 <= k < n ==> ws[k] == 0xffff
    ensures Sum(ws, n) == 0xffff * n
  {
    if n > 0 {
      OnesSum(ws, n - 1);
    }
  }

  /** The bound is tight: with one byte more, some buffer gets a wrong checksum. */
  lemma BoundIsTight() returns (b: seq<Byte>)
    ensures |b| == SAFE_LENGTH + 1
    ensures Total(b) == 0x1_0000_0000 + 0xffff
    ensures Result(b) != Reference(b)
  {
    b := seq(SAFE_LENGTH + 1, i => if i < SAFE_LENGTH then 0xff else 1);
    OnesSum(Words(b), 65537);
    assert |Words(b)| == 65538 && Words(b)[65537] == 1;
    assert Total(b) == 0xffff + 0xffff * 65537 + 1;
    assert b[0] != 0;
    CorrectIff(b);
  }

  // ----- what the checksum is for -----

  /** The buffer with the 16-bit value `x` stored little-endian as word `j`. */
  function Store(b: seq<Byte>, j: nat, x: Word): (r: seq<Byte>)
    requires 2 * j + 1 < |b|
  {
    b[2 * j := x % 256][2 * j + 1 := x / 256]
  }

  lemma {:induction false} SumUpdate(ws: seq<Word>, j: nat, x: Word, n: nat)
    requires n <= |ws| && j < |ws|
    ensures Sum(ws[j := x], n) == Sum(ws, n) + if j < n then x as int - ws[j] else 0
  {
    if n > 0 {
      SumUpdate(ws, j, x, n - 1);
    }
  }

  /** Storing the checksum in the zeroed field makes the whole buffer check to 0, and no
      other stored value does, except that one's complement has two zeros. */
  lemma ReceiverAccepts(b: seq<Byte>, j: nat, x: Word)
    requires |b| <= SAFE_LENGTH && 2 * j + 1 < |b| && b[2 * j] == b[2 * j + 1] == 0
    ensures Result(Store(b, j, x)) == 0 <==> x == Result(b) || (x == 0xffff && Result(b) == 0)
  {
    SafeTotal(b);
    SafeTotal(Store(b, j, x));
    StoreWords(b, j, x);
    SumUpdate(Words(b), j, x, |Words(b)|);
    FinishAccepts(Total(b), x);
  }

  lemma StoreWords(b: seq<Byte>, j: nat, x: Word)
    requires 2 * j + 1 < |b|
    ensures Words(Store(b, j, x)) == Words(b)[j := x]
  {
  }

  lemma FinishAccepts(s: nat, x: Word)
    requires 0 < s && s + x <= 0x1_0000_0000 + 0xfffe
    ensures Finish(s + x) == 0 <==> x == Finish(s) || (x == 0xffff && Finish(s) == 0)
  {
    var v, k := FinishRange(s);
    var u, k' := FinishRange(s + x);
    AcceptIff(v, u, x, k' - k);
  }

  lemma AcceptIff(v: int, u: int, x: int, k: int)
    requires 1 <= v <= 0xffff && 1 <= u <= 0xffff && 0 <= x <= 0xffff && v + x == u + 0xffff * k
    ensures u == 0xffff <==> x == 0xffff - v || (x == 0xffff && v == 0xffff)
  {
    assert k == 0 || k == 1;
  }

  /** Dropping word `k` lowers every later partial sum by it. */
  lemma {:induction false} SumRemove(ws: seq<Word>, k: nat, n: nat)
    requires k < |ws| && n < |ws|
    ensures Sum(ws[..k] + ws[k + 1..], n) == if n <= k then Sum(ws, n) else Sum(ws, n + 1) - ws[k]
  {
    if n > 0 {
      SumRemove(ws, k, n - 1);
    }
  }

  lemma {:induction false} SumPrefix(ws: seq<Word>, vs: seq<Word>, n: nat)
    requires n <= |ws| && n <= |vs| && ws[..n] == vs[..n]
    ensures Sum(ws, n) == Sum(vs, n)
  {
    if n > 0 {
      assert ws[n - 1] == ws[..n][n - 1] && vs[n - 1] == vs[..n][n - 1];
      assert ws[..n - 1] == ws[..n][..n - 1] && vs[..n - 1] == vs[..n][..n - 1];
      SumPrefix(ws, vs, n - 1);
    }
  }

  /** Where the last element of `u` sits in a permutation of `u`. */
  lemma FindLast(u: seq<Word>, w: seq<Word>) returns (k: nat)
    requires |u| > 0 && multiset(u) == multiset(w)
    ensures k < |w| && w[k] == u[|u| - 1]
    ensures multiset(u[..|u| - 1]) == multiset(w[..k] + w[k + 1..])
  {
    var x := u[|u| - 1];
    assert x in multiset(w);
    k :| 0 <= k < |w| && w[k] == x;
    assert w == w[..k] + [x] + w[k + 1..];
    assert u == u[..|u| - 1] + [x];
    assert multiset(u[..|u| - 1]) == multiset(u) - multiset{x};
    assert multiset(w[..k] + w[k + 1..]) == multiset(w) - multiset{x};
  }

  lemma {:induction false} SumPermutation(u: seq<Word>, w: seq<Word>)
    requires multiset(u) == multiset(w)
    ensures |u| == |w| && Sum(u, |u|) == Sum(w, |w|)
    decreases |u|
  {
    assert |u| == |multiset(u)| && |w| == |multiset(w)|;
    if |u| > 0 {
      var k := FindLast(u, w);
      var rest := w[..k] + w[k + 1..];
      SumPermutation(u[..|u| - 1], rest);
      SumRemove(w, k, |w| - 1);
      SumPrefix(u, u[..|u| - 1], |u| - 1);
    }
  }

  /** The order of the words does not matter (RFC 1071 section 2A). */
  lemma OrderIndependent(a: seq<Byte>, b: seq<Byte>)
    requires multiset(Words(a)) == multiset(Words(b))
    ensures Result(a) == Result(b)
  {
    SumPermutation(Words(a), Words(b));
  }

  function SwapWord(w: Word): Word { w / 256 + 256 * (w % 256) }

  /** The two bytes of every word exchanged. */
  function SwapBytes(b: seq<Byte>): seq<Byte>
    requires |b| % 2 == 0
  {
    seq(|b|, i requires 0 <= i < |b| => if i % 2 == 0 then b[i + 1] else b[i - 1])
  }

  lemma {:induction false} SwapSum(ws: seq<Word>, vs: seq<Word>, n: nat) returns (k: int)
    requires n <= |ws| == |vs| && forall k :: 0 <= k < n ==> vs[k] == SwapWord(ws[k])
    ensures 256 * Sum(ws, n) == Sum(vs, n) + 0xffff * k
  {
    if n == 0 {
      k := 0;
    } else {
      k := SwapSum(ws, vs, n - 1);
      SwapTimes(ws[n - 1]);
      k := k + ws[n - 1] / 256;
    }
  }

  lemma SwapTimes(w: Word)
    ensures 256 * (w as int) == SwapWord(w) + 0xffff * (w / 256)
    ensures w >= 1 ==> SwapWord(w) >= 1
    ensures SwapWord(0xffff - w) == 0xffff - SwapWord(w)
  {
    assert 0xffff - w == 256 * (255 - w / 256) + (255 - w % 256);
  }

  lemma SwapWords(b: seq<Byte>)
    requires |b| % 2 == 0
    ensures |Words(SwapBytes(b))| == |Words(b)|
    ensures forall k :: 0 <= k < |Words(b)| ==> Words(SwapBytes(b))[k] == SwapWord(Words(b)[k])
  {
    var r := SwapBytes(b);
    forall k | 0 <= k < |Words(b)| ensures Words(r)[k] == SwapWord(Words(b)[k]) {
      assert r[2 * k] == b[2 * k + 1] && r[2 * k + 1] == b[2 * k];
    }
  }

  /** Byte order does not matter: swapping every word swaps the result (section 2B). */
  lemma ByteOrderIndependent(b: seq<Byte>)
    requires |b| % 2 == 0 && |b| <= SAFE_LENGTH
    ensures 0 <= Result(b) <= 0xffff && Result(SwapBytes(b)) == SwapWord(Result(b))
  {
    var r := SwapBytes(b);
    SwapWords(b);
    var k := SwapSum(Words(b), Words(r), |Words(b)|);
    SafeTotal(b);
    SafeTotal(r);
    FinishSwaps(Sum(Words(b), |Words(b)|), Sum(Words(r), |Words(r)|), k);
  }

  lemma FinishSwaps(s: nat, t: nat, k: int)
    requires s < 0x1_0000_0000 && t < 0x1_0000_0000
    requires 256 * s == t + 0xffff * k
    ensures 0 <= Finish(0xffff + s) <= 0xffff
    ensures Finish(0xffff + t) == SwapWord(Finish(0xffff + s))
  {
    var v, kv := FinishRange(0xffff + s);
    var u, ku := FinishRange(0xffff + t);
    SwapTimes(v);
    SameResidue(u, SwapWord(v), 256 * kv + v / 256 - k - ku - 255);
  }

  lemma SameResidue(u: Word, v: Word, k: int)
    requires u >= 1 && v >= 1 && u as int == v + 0xffff * k
    ensures u == v
  {
  }
}
