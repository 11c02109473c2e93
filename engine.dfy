/**
 The stateful `Engine<GEN>` seen through its position in the output
 stream, and the skip-ahead sequence `do_test` uses to bring a fresh
 engine to the block of the test counter through `setcounter`, single
 draws and a `discard` guarded against `unsigned long long` overflow.
 */
module EngineModel {
  import opened Counters
  import opened Generators

  /** `r123::Engine<GEN>`: `pos` counts the values before the next draw,
      so block b of the counter sequence occupies positions b*N .. b*N+N-1. */
  class Engine {
    const gen: GenType
    const ukey: seq<nat>
    const stream: (GenType, seq<nat>, nat) -> nat
    var pos: nat

    /** `Engine(ukey)`. The starting position of a fresh engine is not
        modelled: `pos := 0` is a placeholder, not Random123's start, and the
        contract says nothing about it, since the driver always calls
        `setcounter` first. */
    constructor (gen: GenType, ukey: seq<nat>, stream: (GenType, seq<nat>, nat) -> nat)
      ensures this.gen == gen && this.ukey == ukey && this.stream == stream
    {
      this.gen, this.ukey, this.stream := gen, ukey, stream;
      pos := 0;
    }

    /** `setcounter(c, elem)`: `elem` values of block c remain to be drawn,
        so the next draw is word elem-1 of block c. */
    method SetCounter(c: seq<nat>, elem: nat)
      requires |c| == Words(gen) && elem <= |c|
      modifies this
      ensures pos == ToNat(c, WordWidth(gen)) * |c| + (|c| - elem)
    {
      pos := ToNat(c, WordWidth(gen)) * |c| + (|c| - elem);
    }

    /** `operator()`: the value at the current position, then one step on. */
    method Next() returns (v: nat)
      modifies this
      ensures v == stream(gen, ukey, old(pos)) && pos == old(pos) + 1
    {
      v := stream(gen, ukey, pos);
      pos := pos + 1;
    }

    /** `discard(skip)`: skip values without returning them. */
    method Discard(skip: nat)
      requires skip <= ULLONG_MAX
      modifies this
      ensures pos == old(pos) + skip
    {
      pos := pos + skip;
    }
  }

  /**
   The engine part of `do_test` up to the first compared draw: set the low
   counter word to a third of its value, then advance by one draw, a bulk
   discard of (c0 - c0/3 - 1) * N values when that is positive, and N-1
   further draws. The engine ends exactly at the first value of block ctr.
   */
  method RealignEngine(e: Engine, ctr: seq<nat>)
    requires |ctr| == Words(e.gen) && WordsFit(ctr, WordWidth(e.gen))
    modifies e
    ensures e.pos == ToNat(ctr, WordWidth(e.gen)) * |ctr|
  {
    var w := WordWidth(e.gen);
    var c := ctr;
    var c0 := c[0];
    c := c[0 := c[0] / 3];
    e.SetCounter(c, |c|);
    ghost var n, t := |c|, ToNat(c, w);
    ghost var start := e.pos;
    ghost var bulk := if c0 > c[0] + 1 then n * (c0 - c[0] - 1) else 0;
    if c0 > c[0] {
      var _ := e.Next();
      if c0 > c[0] + 1 {
        var ndiscard := c0 - c[0] - 1;
        assert ndiscard <= ULLONG_MAX by { assert c0 < Base(w) <= ULL_MOD; }
        if ndiscard >= ULLONG_MAX / |c| {
          var j := 0;
          while j < |c|
            invariant 0 <= j <= |c|
            invariant e.pos == start + 1 + j * ndiscard
          {
            e.Discard(ndiscard);
            MulSucc(j, ndiscard);
            j := j + 1;
          }
        } else {
          GuardedProductFits(ndiscard, |c|);
          ndiscard := (ndiscard * |c|) % ULL_MOD;
          e.Discard(ndiscard);
        }
        assert e.pos == start + 1 + bulk;
      }
      var i := 1;
      while i < |c|
        invariant 1 <= i <= |c|
        invariant e.pos == start + bulk + i
      {
        var _ := e.Next();
        i := i + 1;
      }
      SkipTotal(c0, n);
    }
    ToNatSetLow(ctr, c0 / 3, w);
    RealignTotal(t, c0 - c0 / 3, n, ToNat(ctr, w));
  }

  /** (j + 1) draws of k values each are j * k values and k more. */
  lemma MulSucc(j: nat, k: nat)
    ensures (j + 1) * k == j * k + k
  {}

  /** Block t plus `skip` blocks is block t + skip. */
  lemma RealignTotal(t: nat, skip: nat, n: nat, target: nat)
    requires target == t + skip
    ensures t * n + skip * n == target * n
  {}

  /** The one-draw-plus-bulk-plus-(N-1)-draws sequence advances by (c0 - c0/3) * N. */
  lemma SkipTotal(c0: nat, n: nat)
    requires c0 > c0 / 3
    ensures (if c0 > c0 / 3 + 1 then n * (c0 - c0 / 3 - 1) else 0) + n == (c0 - c0 / 3) * n
  {
    if c0 > c0 / 3 + 1 {
      assert n * (c0 - c0 / 3 - 1) + n == n * (c0 - c0 / 3);
    } else {
      assert c0 - c0 / 3 == 1;
    }
  }

  /** The branch conditions of the skip: a draw is skipped exactly when c0 > 0,
      a bulk discard is made exactly when c0 >= 2, and its count is then positive. */
  lemma SkipBranches(c0: nat)
    ensures c0 > c0 / 3 <==> c0 > 0
    ensures c0 > c0 / 3 + 1 <==> c0 >= 2
    ensures c0 >= 2 ==> c0 - c0 / 3 - 1 >= 1
  {}

  /** Below the guard, the product ndiscard * N is an `unsigned long long`,
      so the multiplication does not wrap. */
  lemma GuardedProductFits(ndiscard: nat, n: nat)
    requires 0 < n && ndiscard < ULLONG_MAX / n
    ensures ndiscard * n <= ULLONG_MAX
    ensures (ndiscard * n) % ULL_MOD == ndiscard * n
  {
    var q := ULLONG_MAX / n;
    assert n * q <= ULLONG_MAX;
    assert ndiscard + 1 <= q;
    MulMono(n, ndiscard + 1, q);
    DivModDigit(ndiscard * n, 0, ULL_MOD);
  }

  /** With 32-bit counter words the guard is never met: a single discard is made. */
  lemma NarrowWordsSingleDiscard(c0: nat, n: nat)
    requires c0 < Base(W32) && 0 < n <= 4
    ensures c0 - c0 / 3 - 1 < ULLONG_MAX / n
  {
    assert n == 1 || n == 2 || n == 3 || n == 4;
  }

  /** With 64-bit words the guard is needed: for the largest c0 and two-word
      counters the product would exceed `unsigned long long`. */
  lemma WideWordsNeedGuard()
    ensures var c0 := Base(W64) - 1;
            var ndiscard := c0 - c0 / 3 - 1;
            ndiscard >= ULLONG_MAX / 2 && ndiscard * 2 > ULLONG_MAX
  {}
}
