/**
 One known-answer record and what `do_test<GEN>` does with it, as values:
 the errors the MicroURNG and Engine checks find, the diagnostics they
 emit (the "Error in ..." lines only on the first occurrence in a run),
 and the write-back of the directly computed block when no error was
 found. The imperative `do_test` in module KatCpp is proved to have
 exactly this effect.
 */
module KatTest {
  import opened Counters
  import opened Generators

  /** The four fields `do_test` reads out of `ti->u`. */
  datatype Payload = Payload(ctr: seq<nat>, ukey: seq<nat>, expected: seq<nat>, computed: seq<nat>)

  /** `kat_instance`: the generator family, round count and payload of one record. */
  datatype KatInstance = KatInstance(generator: Method, nrounds: nat, u: Payload)

  /** The payload was laid out by the loader for generator `gen`. */
  predicate Shaped(gen: GenType, u: Payload) {
    var w := WordWidth(gen);
    && |u.ctr| == Words(gen) && |u.ukey| == KeyWords(gen)
    && |u.expected| == Words(gen) && |u.computed| == Words(gen)
    && WordsFit(u.ctr, w) && WordsFit(u.expected, w)
  }

  /** Diagnostics written to `cerr`. */
  datatype Event =
    | MicroUrngError                                  // "Error in MicroURNG<GEN, 1>, ..."
    | EngineCheck(j: nat, expected: nat, val: nat)    // "Engine check, j=... expected: ... val: ..."
    | EngineError                                     // "Error in Engine<GEN, 1>, ..."

  /** The run-wide state of the reporting: `murng_reported`, `engine_reported`
      and everything written to `cerr` so far. */
  datatype Reports = Reports(murng: nat, engine: nat, log: seq<Event>)

  /** Number of draws i < k that differ from expected[|expected| - 1 - i]. */
  function Mismatches(expected: seq<nat>, draws: seq<nat>, k: nat): nat
    requires k <= |expected| && k <= |draws|
  {
    if k == 0 then 0
    else Mismatches(expected, draws, k - 1) + (if expected[|expected| - k] != draws[k - 1] then 1 else 0)
  }

  /** No mismatch among the first k draws exactly when each of them equals
      the expected word at the mirrored index. */
  lemma {:induction false} MismatchesZero(expected: seq<nat>, draws: seq<nat>, k: nat)
    requires k <= |expected| && k <= |draws|
    ensures Mismatches(expected, draws, k) == 0
        <==> forall i :: 0 <= i < k ==> draws[i] == expected[|expected| - 1 - i]
  {
    if k > 0 {
      MismatchesZero(expected, draws, k - 1);
    }
  }

  /** Drawing as many values as there are expected words, draw i is compared
      with expected[n-1-i]: there is no mismatch exactly when the draws are
      the expected vector reversed. */
  lemma MismatchesZeroIffReversed(expected: seq<nat>, draws: seq<nat>)
    requires |draws| == |expected|
    ensures Mismatches(expected, draws, |expected|) == 0 <==> draws == Reverse(expected)
  {
    MismatchesZero(expected, draws, |expected|);
    forall i | 0 <= i < |expected| ensures Reverse(expected)[i] == expected[|expected| - 1 - i] {
      ReverseAt(expected, i);
    }
  }

  /**
   Errors counted by the MicroURNG block of `do_test`. A constructor that
   throws is an error exactly when `hibit` is clear; one that succeeds is an
   error when `hibit` is set, and then every draw that differs from the
   mirrored expected word is one more; a draw that throws ends the loop
   and lands in the same handler, an error when `hibit` is clear.
   */
  function MicroErrors(hibit: bool, out: Option<seq<nat>>, expected: seq<nat>): nat {
    match out
    case None => if hibit then 0 else 1
    case Some(ds) =>
      var drawn := if |ds| < |expected| then |ds| else |expected|;
      (if hibit then 1 else 0)
      + Mismatches(expected, ds, drawn)
      + (if drawn < |expected| && !hibit then 1 else 0)
  }

  /** The MicroURNG check passes exactly when the constructor throws if and
      only if `hibit` is set, and a constructed adaptor yields at least as
      many values as expected, the expected vector reversed. */
  lemma MicroErrorsZero(hibit: bool, out: Option<seq<nat>>, expected: seq<nat>)
    ensures MicroErrors(hibit, out, expected) == 0
        <==> (hibit <==> out.None?)
             && (out.Some? ==> |out.value| >= |expected|
                               && out.value[..|expected|] == Reverse(expected))
  {
    if out.Some? && |out.value| >= |expected| {
      var ds := out.value;
      assert Mismatches(expected, ds, |expected|) == Mismatches(expected, ds[..|expected|], |expected|) by {
        MismatchesPrefix(expected, ds, |expected|);
      }
      MismatchesZeroIffReversed(expected, ds[..|expected|]);
    }
  }

  /** Only the first k draws take part in Mismatches(_, _, k). */
  lemma {:induction false} MismatchesPrefix(expected: seq<nat>, draws: seq<nat>, k: nat)
    requires k <= |expected| && k <= |draws|
    ensures Mismatches(expected, draws, k) == Mismatches(expected, draws[..k], k)
    decreases k
  {
    if k > 0 {
      assert draws[..k][..k - 1] == draws[..k - 1];
      MismatchesPrefix(expected, draws, k - 1);
      MismatchesPrefix(expected, draws[..k], k - 1);
    }
  }

  /** The values the Engine returns once it has been realigned to block ctr:
      the positions ToNat(ctr) * N, ..., ToNat(ctr) * N + N - 1. */
  function EngineDraws(impl: Impl, gen: GenType, u: Payload): (vals: seq<nat>)
    ensures |vals| == |u.expected|
  {
    var start := ToNat(u.ctr, WordWidth(gen)) * |u.ctr|;
    // A sequence constructor takes an int -> T; negative indices never occur.
    var draw: int -> nat := i => impl.stream(gen, u.ukey, if i < 0 then start else start + i);
    seq<nat>(|u.expected|, draw)
  }

  lemma EngineDrawsAt(impl: Impl, gen: GenType, u: Payload, i: nat)
    requires i < |u.expected|
    ensures EngineDraws(impl, gen, u)[i] == impl.stream(gen, u.ukey, ToNat(u.ctr, WordWidth(gen)) * |u.ctr| + i)
  {}

  /** Lines written by the first k Engine comparisons, `reported` being
      `engine_reported` before the first: each mismatch writes an
      "Engine check" line, and the mismatch that finds the counter at 0 also
      writes the "Error in Engine" line. */
  function EngineLog(expected: seq<nat>, vals: seq<nat>, k: nat, reported: nat): seq<Event>
    requires k <= |expected| && k <= |vals|
  {
    if k == 0 then []
    else
      var j := |expected| - k;
      EngineLog(expected, vals, k - 1, reported)
      + if expected[j] == vals[k - 1] then []
        else MismatchLines(j, expected[j], vals[k - 1], reported + Mismatches(expected, vals, k - 1) == 0)
  }

  /** Number of occurrences of event `ev` in a log. */
  function Count(log: seq<Event>, ev: Event): nat {
    if log == [] then 0 else Count(log[..|log| - 1], ev) + (if log[|log| - 1] == ev then 1 else 0)
  }

  /** Number of "Engine check" lines in a log. */
  function CheckLines(log: seq<Event>): nat {
    if log == [] then 0 else CheckLines(log[..|log| - 1]) + (if log[|log| - 1].EngineCheck? then 1 else 0)
  }

  lemma {:induction false} CountAppend(a: seq<Event>, b: seq<Event>, ev: Event)
    ensures Count(a + b, ev) == Count(a, ev) + Count(b, ev)
    ensures CheckLines(a + b) == CheckLines(a) + CheckLines(b)
  {
    if b != [] {
      assert (a + b)[..|a + b| - 1] == a + b[..|b| - 1];
      CountAppend(a, b[..|b| - 1], ev);
    } else {
      assert a + b == a;
    }
  }

  /** A comparison that matched writes nothing. */
  lemma EngineLogMatch(expected: seq<nat>, vals: seq<nat>, i: nat, reported: nat)
    requires i < |expected| && i < |vals| && expected[|expected| - i - 1] == vals[i]
    ensures EngineLog(expected, vals, i + 1, reported) == EngineLog(expected, vals, i, reported)
    ensures Mismatches(expected, vals, i + 1) == Mismatches(expected, vals, i)
  {
    assert EngineLog(expected, vals, i, reported) + [] == EngineLog(expected, vals, i, reported);
  }

  /** A comparison that mismatched writes its lines. */
  lemma EngineLogMismatch(expected: seq<nat>, vals: seq<nat>, i: nat, reported: nat)
    requires i < |expected| && i < |vals| && expected[|expected| - i - 1] != vals[i]
    ensures var j := |expected| - i - 1;
            EngineLog(expected, vals, i + 1, reported)
            == EngineLog(expected, vals, i, reported)
               + MismatchLines(j, expected[j], vals[i], reported + Mismatches(expected, vals, i) == 0)
    ensures Mismatches(expected, vals, i + 1) == Mismatches(expected, vals, i) + 1
  {}

  /** The Engine comparisons write one "Engine check" line per mismatch. */
  lemma {:induction false} EngineLogCheckLines(expected: seq<nat>, vals: seq<nat>, k: nat, reported: nat)
    requires k <= |expected| && k <= |vals|
    ensures CheckLines(EngineLog(expected, vals, k, reported)) == Mismatches(expected, vals, k)
  {
    if k > 0 {
      var i := k - 1;
      EngineLogCheckLines(expected, vals, i, reported);
      var j := |expected| - i - 1;
      if expected[j] == vals[i] {
        EngineLogMatch(expected, vals, i, reported);
      } else {
        EngineLogMismatch(expected, vals, i, reported);
        var first := reported + Mismatches(expected, vals, i) == 0;
        CountAppend(EngineLog(expected, vals, i, reported), MismatchLines(j, expected[j], vals[i], first), EngineError);
        MismatchLinesCounts(j, expected[j], vals[i], first);
      }
    }
  }

  /** The Engine comparisons write no MicroURNG line, and one "Error in
      Engine" line exactly when the counter was 0 and some value mismatched. */
  lemma {:induction false} EngineLogErrors(expected: seq<nat>, vals: seq<nat>, k: nat, reported: nat)
    requires k <= |expected| && k <= |vals|
    ensures Count(EngineLog(expected, vals, k, reported), MicroUrngError) == 0
    ensures Count(EngineLog(expected, vals, k, reported), EngineError)
         == if reported == 0 && Mismatches(expected, vals, k) > 0 then 1 else 0
  {
    if k > 0 {
      var i := k - 1;
      EngineLogErrors(expected, vals, i, reported);
      var j := |expected| - i - 1;
      if expected[j] == vals[i] {
        EngineLogMatch(expected, vals, i, reported);
      } else {
        EngineLogMismatch(expected, vals, i, reported);
        var first := reported + Mismatches(expected, vals, i) == 0;
        var lines := MismatchLines(j, expected[j], vals[i], first);
        CountAppend(EngineLog(expected, vals, i, reported), lines, MicroUrngError);
        CountAppend(EngineLog(expected, vals, i, reported), lines, EngineError);
        MismatchLinesCounts(j, expected[j], vals[i], first);
        assert Count(EngineLog(expected, vals, i + 1, reported), EngineError)
            == Count(EngineLog(expected, vals, i, reported), EngineError) + (if first then 1 else 0);
      }
    }
  }

  lemma AppendAssoc(a: seq<Event>, b: seq<Event>, c: seq<Event>)
    ensures a + b + c == a + (b + c)
  {}

  /** The lines one mismatch writes. */
  function MismatchLines(j: nat, expected: nat, val: nat, first: bool): seq<Event> {
    [EngineCheck(j, expected, val)] + if first then [EngineError] else []
  }

  lemma MismatchLinesCounts(j: nat, expected: nat, val: nat, first: bool)
    ensures CheckLines(MismatchLines(j, expected, val, first)) == 1
    ensures Count(MismatchLines(j, expected, val, first), MicroUrngError) == 0
    ensures Count(MismatchLines(j, expected, val, first), EngineError) == if first then 1 else 0
  {
    var line := [EngineCheck(j, expected, val)];
    var rest := if first then [EngineError] else [];
    CountAppend(line, rest, MicroUrngError);
    CountAppend(line, rest, EngineError);
    assert line[..0] == [] && rest[..0] == [];
  }

  /**
   The reporting invariant: "Error in MicroURNG" has been written once if
   `murng_reported` is positive and never otherwise, likewise "Error in
   Engine" for `engine_reported`, and `engine_reported` counts the
   "Engine check" lines.
   */
  predicate ReportsOk(st: Reports) {
    && Count(st.log, MicroUrngError) == (if st.murng > 0 then 1 else 0)
    && Count(st.log, EngineError) == (if st.engine > 0 then 1 else 0)
    && CheckLines(st.log) == st.engine
  }

  /** The reports after the MicroURNG block found `errs` errors. */
  function AfterMicro(st: Reports, errs: nat): Reports {
    if errs == 0 then st
    else Reports(st.murng + 1, st.engine, st.log + if st.murng == 0 then [MicroUrngError] else [])
  }

  /** The reports after the Engine comparisons. */
  function AfterEngine(st: Reports, expected: seq<nat>, vals: seq<nat>): Reports
    requires |vals| == |expected|
  {
    Reports(st.murng, st.engine + Mismatches(expected, vals, |expected|),
            st.log + EngineLog(expected, vals, |expected|, st.engine))
  }

  /** Total errors `do_test` finds for a record. */
  function RecordErrors(impl: Impl, gen: GenType, u: Payload): nat
    requires Shaped(gen, u)
  {
    var w := WordWidth(gen);
    MicroErrors(HiBit(u.ctr, w), impl.micro(gen, u.ctr, u.ukey), u.expected)
    + Mismatches(u.expected, EngineDraws(impl, gen, u), |u.expected|)
  }

  /** The payload and reports after `do_test<gen>` ran on a record with payload u. */
  function TestOutcome(impl: Impl, gen: GenType, u: Payload, st: Reports): (Payload, Reports)
    requires Shaped(gen, u)
  {
    var w := WordWidth(gen);
    var microErrs := MicroErrors(HiBit(u.ctr, w), impl.micro(gen, u.ctr, u.ukey), u.expected);
    var st' := AfterEngine(AfterMicro(st, microErrs), u.expected, EngineDraws(impl, gen, u));
    var u' := if RecordErrors(impl, gen, u) == 0
              then u.(computed := impl.bijection(gen, u.ctr, u.ukey))
              else u;
    (u', st')
  }

  /** `do_test` keeps the reporting invariant, and never decreases a counter. */
  lemma TestKeepsReportsOk(impl: Impl, gen: GenType, u: Payload, st: Reports)
    requires Shaped(gen, u) && ReportsOk(st)
    ensures var st' := TestOutcome(impl, gen, u, st).1;
            ReportsOk(st') && st.murng <= st'.murng && st.engine <= st'.engine
  {
    var w := WordWidth(gen);
    var microErrs := MicroErrors(HiBit(u.ctr, w), impl.micro(gen, u.ctr, u.ukey), u.expected);
    AfterMicroOk(st, microErrs);
    AfterEngineOk(AfterMicro(st, microErrs), u.expected, EngineDraws(impl, gen, u));
  }

  /** The MicroURNG report keeps the reporting invariant. */
  lemma AfterMicroOk(st: Reports, errs: nat)
    requires ReportsOk(st)
    ensures ReportsOk(AfterMicro(st, errs))
  {
    if errs != 0 {
      var extra := if st.murng == 0 then [MicroUrngError] else [];
      CountAppend(st.log, extra, MicroUrngError);
      CountAppend(st.log, extra, EngineError);
      assert extra[..0] == [];
    }
  }

  /** The Engine comparisons keep the reporting invariant. */
  lemma AfterEngineOk(st: Reports, expected: seq<nat>, vals: seq<nat>)
    requires ReportsOk(st) && |vals| == |expected|
    ensures ReportsOk(AfterEngine(st, expected, vals))
  {
    var lines := EngineLog(expected, vals, |expected|, st.engine);
    EngineLogCheckLines(expected, vals, |expected|, st.engine);
    EngineLogErrors(expected, vals, |expected|, st.engine);
    CountAppend(st.log, lines, MicroUrngError);
    CountAppend(st.log, lines, EngineError);
  }

  /** The record is copied back only when no error was found, and then only
      `computed` changes, to g(ctr, ukey); otherwise it is left as it was. */
  lemma WriteBack(impl: Impl, gen: GenType, u: Payload, st: Reports)
    requires Shaped(gen, u)
    ensures var u' := TestOutcome(impl, gen, u, st).0;
            && u'.ctr == u.ctr && u'.ukey == u.ukey && u'.expected == u.expected
            && (RecordErrors(impl, gen, u) == 0 ==> u'.computed == impl.bijection(gen, u.ctr, u.ukey))
            && (RecordErrors(impl, gen, u) != 0 ==> u' == u)
  {}

  /**
   Cross-validation: when the expected vector is the generator's block and
   the MicroURNG and Engine adaptors behave as documented, the record is
   published with `computed` equal to `expected` and nothing is reported.
   */
  lemma ConformingImplPublishes(impl: Impl, gen: GenType, u: Payload, st: Reports)
    requires Shaped(gen, u)
    requires BlocksShaped(impl, gen) && EngineConforms(impl, gen)
    requires MicroConformsAt(impl, gen, u.ctr, u.ukey)
    requires u.expected == impl.bijection(gen, u.ctr, u.ukey)
    ensures TestOutcome(impl, gen, u, st) == (u.(computed := u.expected), st)
  {
    var w := WordWidth(gen);
    MicroErrorsZero(HiBit(u.ctr, w), impl.micro(gen, u.ctr, u.ukey), u.expected);
    var vals := EngineDraws(impl, gen, u);
    forall i | 0 <= i < |vals| ensures vals[i] == u.expected[|u.expected| - 1 - i] {
      EngineBlockAt(impl, gen, u.ctr, u.ukey, i);
    }
    MismatchesZero(u.expected, vals, |u.expected|);
    assert EngineLog(u.expected, vals, |u.expected|, st.engine) == [] by {
      EngineLogEmpty(u.expected, vals, |u.expected|, st.engine);
    }
    assert st.log + [] == st.log;
  }

  /** Comparisons without a mismatch write nothing. */
  lemma {:induction false} EngineLogEmpty(expected: seq<nat>, vals: seq<nat>, k: nat, reported: nat)
    requires k <= |expected| && k <= |vals| && Mismatches(expected, vals, k) == 0
    ensures EngineLog(expected, vals, k, reported) == []
  {
    if k > 0 {
      EngineLogEmpty(expected, vals, k - 1, reported);
    }
  }

  /**
   A MicroURNG that wrongly accepts a counter with `hibit` set suppresses the
   write-back and counts one MicroURNG report; the record adds one "Error in
   MicroURNG" line if `murng_reported` was 0 and none otherwise.
   */
  lemma MiswiredMicroSuppresses(impl: Impl, gen: GenType, u: Payload, st: Reports)
    requires Shaped(gen, u) && HiBit(u.ctr, WordWidth(gen))
    requires impl.micro(gen, u.ctr, u.ukey).Some?
    ensures var (u', st') := TestOutcome(impl, gen, u, st);
            && u' == u && st'.murng == st.murng + 1
            && (st.log + (if st.murng == 0 then [MicroUrngError] else [])) <= st'.log
            && Count(st'.log, MicroUrngError) == Count(st.log, MicroUrngError) + (if st.murng == 0 then 1 else 0)
  {
    var vals := EngineDraws(impl, gen, u);
    var extra := if st.murng == 0 then [MicroUrngError] else [];
    var lines := EngineLog(u.expected, vals, |u.expected|, st.engine);
    EngineLogErrors(u.expected, vals, |u.expected|, st.engine);
    CountAppend(st.log, extra, MicroUrngError);
    CountAppend(st.log + extra, lines, MicroUrngError);
    assert extra[..0] == [];
  }

  /** An Engine whose realigned draws are not the expected vector reversed
      suppresses the write-back and raises `engine_reported`. */
  lemma EngineDefectSuppresses(impl: Impl, gen: GenType, u: Payload, st: Reports)
    requires Shaped(gen, u)
    requires EngineDraws(impl, gen, u) != Reverse(u.expected)
    ensures var (u', st') := TestOutcome(impl, gen, u, st);
            u' == u && st'.engine > st.engine
  {
    MismatchesZeroIffReversed(u.expected, EngineDraws(impl, gen, u));
  }

  /** The payload `do_test` leaves does not depend on the run-wide reports,
      and running the test again on its own output yields the same payload:
      the outcome depends on ctr, ukey and expected only. */
  lemma RerunSamePayload(impl: Impl, gen: GenType, u: Payload, st: Reports, st2: Reports)
    requires Shaped(gen, u) && |impl.bijection(gen, u.ctr, u.ukey)| == Words(gen)
    ensures TestOutcome(impl, gen, u, st2).0 == TestOutcome(impl, gen, u, st).0
    ensures Shaped(gen, TestOutcome(impl, gen, u, st).0)
    ensures TestOutcome(impl, gen, TestOutcome(impl, gen, u, st).0, st2).0
         == TestOutcome(impl, gen, u, st).0
  {
    var u' := TestOutcome(impl, gen, u, st).0;
    assert EngineDraws(impl, gen, u') == EngineDraws(impl, gen, u);
  }
}
