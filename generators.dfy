/**
 The counter-based generators that the test driver exercises, seen from
 outside. Their algorithms are not part of this model: a generator is the
 template instance that `do_test` is specialised for (its family, its
 counter and key widths, its round count), and its behaviour, together
 with that of the MicroURNG and Engine adaptors built on it, is supplied
 as an `Impl` value. The conformance predicates say what Random123
 documents those adaptors to do; the cross-validation lemmas assume them.
 */
module Generators {
  import opened Counters

  datatype Option<T> = None | Some(value: T)

  /** `method_e`: the generator family named by a test record. */
  datatype Method =
    | Threefry2x32 | Threefry2x64 | Threefry4x32 | Threefry4x64
    | Philox2x32 | Philox2x64 | Philox4x32 | Philox4x64
    | Aesni4x32 | Ars4x32

  /** Number of words in a counter: the N of NxW. */
  datatype Arity = X2 | X4

  /** The template argument GEN of `do_test<GEN>`. */
  datatype GenType =
    | Threefry(arity: Arity, width: Width, rounds: nat)   // Threefry{N}x{W}_R<rounds>
    | Philox(arity: Arity, width: Width, rounds: nat)     // Philox{N}x{W}_R<rounds>
    | ARS4x32(rounds: nat)                                // ARS4x32_R<rounds>
    | AESNI4x32                                           // AESNI4x32, ten rounds built in

  /** `ctr_type::size()`. */
  function Words(g: GenType): (n: nat)
    ensures n == 2 || n == 4
  {
    match g
    case Threefry(a, _, _) => if a == X2 then 2 else 4
    case Philox(a, _, _) => if a == X2 then 2 else 4
    case _ => 4
  }

  /** Width of one counter word (`value_type`). */
  function WordWidth(g: GenType): Width {
    match g
    case Threefry(_, w, _) => w
    case Philox(_, w, _) => w
    case _ => W32
  }

  /** `ukey_type::size()`: Threefry keys are as wide as the counter, Philox
      keys half as wide, ARS and AES keys four 32-bit words. */
  function KeyWords(g: GenType): nat {
    match g
    case Philox(_, _, _) => Words(g) / 2
    case _ => Words(g)
  }

  /** The round count the instance runs. */
  function Rounds(g: GenType): nat {
    match g
    case Threefry(_, _, r) => r
    case Philox(_, _, r) => r
    case ARS4x32(r) => r
    case AESNI4x32 => 10
  }

  /** The `method_e` value that names this generator's family and shape. */
  function MethodOf(g: GenType): Method {
    match g
    case Threefry(X2, W32, _) => Threefry2x32
    case Threefry(X2, W64, _) => Threefry2x64
    case Threefry(X4, W32, _) => Threefry4x32
    case Threefry(X4, W64, _) => Threefry4x64
    case Philox(X2, W32, _) => Philox2x32
    case Philox(X2, W64, _) => Philox2x64
    case Philox(X4, W32, _) => Philox4x32
    case Philox(X4, W64, _) => Philox4x64
    case ARS4x32(_) => Ars4x32
    case AESNI4x32 => Aesni4x32
  }

  /**
   Behaviour of the code the driver calls but does not contain.
   - `bijection(gen, ctr, ukey)`: the block `g(ctr, ukey)` of generator `gen`.
   - `micro(gen, ctr, ukey)`: `MicroURNG<GEN, 1>(ctr, ukey)`; None when the
     constructor throws `runtime_error`, otherwise Some(ds) where ds are the
     values its successive calls return before a call throws.
   - `stream(gen, ukey, p)`: the value an `Engine<GEN>` keyed by `ukey`
     returns from a draw at position p, the count of values before it.
   */
  datatype Impl = Impl(
    bijection: (GenType, seq<nat>, seq<nat>) -> seq<nat>,
    micro: (GenType, seq<nat>, seq<nat>) -> Option<seq<nat>>,
    stream: (GenType, seq<nat>, nat) -> nat)

  function Reverse<T>(s: seq<T>): (r: seq<T>)
    ensures |r| == |s|
  {
    if s == [] then [] else Reverse(s[1..]) + [s[0]]
  }

  lemma {:induction false} ReverseAt<T>(s: seq<T>, k: nat)
    requires k < |s|
    ensures Reverse(s)[k] == s[|s| - 1 - k]
  {
    if k < |s| - 1 {
      ReverseAt(s[1..], k);
    }
  }

  /** Every block the generator returns has the counter's shape. */
  ghost predicate BlocksShaped(impl: Impl, gen: GenType) {
    forall c, k :: |impl.bijection(gen, c, k)| == Words(gen)
  }

  /** The value Random123's Engine returns at position p: blocks are taken
      in counter order and each block is returned from its last word down. */
  function ReferenceStream(impl: Impl, gen: GenType, ukey: seq<nat>, p: nat): nat {
    var n := Words(gen);
    var block := impl.bijection(gen, FromNat(p / n, n, WordWidth(gen)), ukey);
    if |block| == n then block[n - 1 - p % n] else 0
  }

  /** The Engine's output is the reference stream for every key. */
  ghost predicate EngineConforms(impl: Impl, gen: GenType) {
    forall ukey, p :: impl.stream(gen, ukey, p) == ReferenceStream(impl, gen, ukey, p)
  }

  /** MicroURNG refuses a counter whose top bit is set, and otherwise
      returns at least one block, the first being g(ctr, ukey) from its
      last word down. */
  ghost predicate MicroConformsAt(impl: Impl, gen: GenType, ctr: seq<nat>, ukey: seq<nat>)
    requires |ctr| > 0 && WordsFit(ctr, WordWidth(gen))
  {
    var out := impl.micro(gen, ctr, ukey);
    var block := impl.bijection(gen, ctr, ukey);
    if HiBit(ctr, WordWidth(gen)) then out.None?
    else out.Some? && |out.value| >= |block| && out.value[..|block|] == Reverse(block)
  }

  /** Position b * N + i of the reference stream is word N-1-i of block b. */
  lemma ReferenceStreamAt(impl: Impl, gen: GenType, ukey: seq<nat>, b: nat, i: nat)
    requires i < Words(gen)
    ensures var n := Words(gen);
            var block := impl.bijection(gen, FromNat(b, n, WordWidth(gen)), ukey);
            ReferenceStream(impl, gen, ukey, b * n + i) == if |block| == n then block[n - 1 - i] else 0
  {
    PositionSplit(b, Words(gen), i);
  }

  /** With a conforming Engine, position t * N + i holds word N-1-i of
      block t. */
  lemma EngineWordAt(impl: Impl, gen: GenType, ctr: seq<nat>, ukey: seq<nat>, t: nat, i: nat)
    requires EngineConforms(impl, gen) && BlocksShaped(impl, gen)
    requires i < |ctr| == Words(gen) && ctr == FromNat(t, Words(gen), WordWidth(gen))
    ensures impl.stream(gen, ukey, t * |ctr| + i) == impl.bijection(gen, ctr, ukey)[|ctr| - 1 - i]
  {
    var p := t * Words(gen) + i;
    assert impl.stream(gen, ukey, p) == ReferenceStream(impl, gen, ukey, p);
    ReferenceStreamAt(impl, gen, ukey, t, i);
  }

  /** With a conforming Engine, the n values from position ToNat(ctr) * n on
      are g(ctr, ukey) from its last word down. */
  lemma EngineBlockAt(impl: Impl, gen: GenType, ctr: seq<nat>, ukey: seq<nat>, i: nat)
    requires EngineConforms(impl, gen) && BlocksShaped(impl, gen)
    requires |ctr| == Words(gen) && WordsFit(ctr, WordWidth(gen)) && i < |ctr|
    ensures impl.stream(gen, ukey, ToNat(ctr, WordWidth(gen)) * |ctr| + i)
         == impl.bijection(gen, ctr, ukey)[|ctr| - 1 - i]
  {
    FromToNat(ctr, WordWidth(gen));
    EngineWordAt(impl, gen, ctr, ukey, ToNat(ctr, WordWidth(gen)), i);
  }
}
