/**
 Counter words and the integer arithmetic of the known-answer-test driver:
 word widths, the little-endian reading of a multi-word counter as one
 number (the order in which an engine steps through blocks), the top bit
 that MicroURNG reserves, and the 64-bit `unsigned long long` range that
 bounds the argument of `Engine::discard`.
 */
module Counters {

  /** Width of one counter word: `uint32_t` or `uint64_t`. */
  datatype Width = W32 | W64

  /** Number of distinct values of a word: 2^32 or 2^64. */
  function Base(w: Width): (b: nat)
    ensures b > 1
  {
    match w
    case W32 => 0x1_0000_0000
    case W64 => 0x1_0000_0000_0000_0000
  }

  /** Weight of the most significant bit of a word: 2^31 or 2^63. */
  function TopBit(w: Width): (t: nat)
    ensures 0 < t && t * 2 == Base(w)
  {
    match w
    case W32 => 0x8000_0000
    case W64 => 0x8000_0000_0000_0000
  }

  /** Number of values of `unsigned long long`, and its largest value. */
  const ULL_MOD: nat := 0x1_0000_0000_0000_0000
  const ULLONG_MAX: nat := ULL_MOD - 1

  /** Every word of `c` is representable in width `w`. */
  predicate WordsFit(c: seq<nat>, w: Width) {
    forall i :: 0 <= i < |c| ==> c[i] < Base(w)
  }

  /** The counter as a number: c[0] is the least significant word. */
  function ToNat(c: seq<nat>, w: Width): nat {
    if |c| == 0 then 0 else c[0] + Base(w) * ToNat(c[1..], w)
  }

  /** The `len`-word counter whose value is `n` modulo Base(w)^len. */
  function FromNat(n: nat, len: nat, w: Width): (c: seq<nat>)
    ensures |c| == len && WordsFit(c, w)
  {
    if len == 0 then [] else [n % Base(w)] + FromNat(n / Base(w), len - 1, w)
  }

  /** `hibit` of the source: the top bit of the last (most significant) word,
      computed as `word >> (bits - 1)`. */
  function HiBit(c: seq<nat>, w: Width): (b: bool)
    requires |c| > 0 && WordsFit(c, w)
    ensures b <==> c[|c| - 1] >= TopBit(w)
  {
    var top := c[|c| - 1] / TopBit(w);
    assert top <= 1 by { DivBelow(c[|c| - 1], TopBit(w), 2); }
    top != 0
  }

  /** Position b * n + i, i < n, is offset i of the b-th run of n. */
  lemma PositionSplit(b: nat, n: nat, i: nat)
    requires i < n
    ensures (b * n + i) / n == b && (b * n + i) % n == i
  {
    assert b * n + i == i + n * b;
    DivModDigit(i, b, n);
  }

  /** Division and remainder by b are determined by a digit a < b and a quotient q. */
  lemma DivModDigit(a: nat, q: nat, b: nat)
    requires a < b
    ensures (a + b * q) / b == q && (a + b * q) % b == a
  {
    var n := a + b * q;
    var q', r' := n / b, n % b;
    assert b * (q' - q) == a - r';
    SmallMultiple(b, q' - q);
  }

  /** The only multiple of b strictly between -b and b is 0. */
  lemma SmallMultiple(b: nat, d: int)
    requires -(b as int) < b * d < b
    ensures d == 0
  {
    if d > 0 {
      MulMono(b, 1, d);
    }
  }

  lemma MulMono(b: nat, x: nat, y: nat)
    requires x <= y
    ensures b * x <= b * y
  {}

  /** A number below k * d has quotient below k when divided by d. */
  lemma DivBelow(x: nat, d: nat, k: nat)
    requires 0 < d && x < k * d
    ensures x / d < k
  {
    if x / d >= k {
      assert d * (x / d) >= d * k by { MulMono(d, k, x / d); }
    }
  }

  /** Reading a counter as a number and writing it back with the same
      number of words gives the counter back. */
  lemma {:induction false} FromToNat(c: seq<nat>, w: Width)
    requires WordsFit(c, w)
    ensures FromNat(ToNat(c, w), |c|, w) == c
  {
    if |c| > 0 {
      var rest := ToNat(c[1..], w);
      DivModDigit(c[0], rest, Base(w));
      FromToNat(c[1..], w);
      assert FromNat(ToNat(c, w), |c|, w) == [c[0]] + c[1..];
    }
  }

  /** Replacing the low word of a counter moves its value by the difference. */
  lemma ToNatSetLow(c: seq<nat>, x: nat, w: Width)
    requires |c| > 0
    ensures ToNat(c[0 := x], w) + c[0] == ToNat(c, w) + x
  {
    assert c[0 := x][1..] == c[1..];
  }
}
