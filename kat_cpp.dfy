/**
 The C++ known-answer-test driver: the global dispatch table `genmap`, the
 run-wide report counters `murng_reported` and `engine_reported`, the
 per-record routine `do_test<GEN>`, the runner `dev_execute_tests` and its
 caller `host_execute_tests`. The globals are the fields of a `Harness`;
 the foreign generators and adaptors are its `impl`.
 */
module KatCpp {
  import opened Counters
  import opened Generators
  import opened EngineModel
  import opened KatTest
  import opened Registry

  /** How a run ends: normally, or with the `runtime_error` thrown for a
      record whose (generator, nrounds) pair has no entry in `genmap`. */
  datatype RunOutcome = Completed | MissingPair(key: Key)

  function KeyOf(t: KatInstance): Key {
    Key(t.generator, t.nrounds)
  }

  /** Every record whose pair is registered was laid out for that generator. */
  predicate RecordsShaped(genmap: map<Key, GenType>, recs: seq<KatInstance>) {
    forall i | 0 <= i < |recs| && KeyOf(recs[i]) in genmap :: Shaped(genmap[KeyOf(recs[i])], recs[i].u)
  }

  /** Index of the first record whose pair is not registered, |recs| if none. */
  function FirstMissing(genmap: map<Key, GenType>, recs: seq<KatInstance>): (k: nat)
    ensures k <= |recs|
    ensures forall i | 0 <= i < k :: KeyOf(recs[i]) in genmap
    ensures k < |recs| ==> KeyOf(recs[k]) !in genmap
  {
    if recs == [] || KeyOf(recs[0]) !in genmap then 0
    else 1 + FirstMissing(genmap, recs[1..])
  }

  /** After record i alone was rewritten, the first i + 1 records are the
      earlier ones plus the new record i, and the rest is as it was. */
  lemma SpliceStep<T>(before: seq<T>, after: seq<T>, orig: seq<T>, i: nat)
    requires i < |before| == |after| == |orig|
    requires after[..i] == before[..i] && after[i + 1..] == before[i + 1..]
    requires before[i..] == orig[i..]
    ensures after[..i + 1] == before[..i] + [after[i]]
    ensures after[i + 1..] == orig[i + 1..]
  {
    assert after[..i + 1] == after[..i] + [after[i]];
    assert before[i + 1..] == before[i..][1..];
  }

  /** The first missing pair is at i exactly when every earlier pair is
      registered and the one at i (if any) is not. */
  lemma FirstMissingAt(genmap: map<Key, GenType>, recs: seq<KatInstance>, i: nat)
    requires i <= |recs| && forall j | 0 <= j < i :: KeyOf(recs[j]) in genmap
    requires i < |recs| ==> KeyOf(recs[i]) !in genmap
    ensures FirstMissing(genmap, recs) == i
  {
  }

  /** The records and reports after running every record of `recs`, in
      order, each through the routine registered for its pair. */
  function Run(impl: Impl, genmap: map<Key, GenType>, recs: seq<KatInstance>, st: Reports)
    : (r: (seq<KatInstance>, Reports))
    requires forall i | 0 <= i < |recs| :: KeyOf(recs[i]) in genmap
    requires RecordsShaped(genmap, recs)
    ensures |r.0| == |recs|
  {
    if recs == [] then ([], st)
    else
      var last := recs[|recs| - 1];
      var prev := Run(impl, genmap, recs[..|recs| - 1], st);
      var (u', st') := TestOutcome(impl, genmap[KeyOf(last)], last.u, prev.1);
      (prev.0 + [last.(u := u')], st')
  }

  /** Running one more record: the run of recs[..i + 1] is the run of
      recs[..i] followed by `do_test` on recs[i]. */
  lemma RunStep(impl: Impl, genmap: map<Key, GenType>, recs: seq<KatInstance>, i: nat, st: Reports,
                done: seq<KatInstance>, st1: Reports, t: KatInstance, st2: Reports)
    requires i < |recs| && forall j | 0 <= j <= i :: KeyOf(recs[j]) in genmap
    requires RecordsShaped(genmap, recs)
    requires (done, st1) == Run(impl, genmap, recs[..i], st)
    requires var (u', st') := TestOutcome(impl, genmap[KeyOf(recs[i])], recs[i].u, st1);
             t == recs[i].(u := u') && st2 == st'
    ensures (done + [t], st2) == Run(impl, genmap, recs[..i + 1], st)
  {
    assert recs[..i + 1][..i] == recs[..i];
  }

  /** One unfolding of `Run`: the last record goes through `do_test` after
      the run of all the records before it. */
  lemma RunUnfold(impl: Impl, genmap: map<Key, GenType>, recs: seq<KatInstance>, st: Reports)
    requires recs != [] && forall i | 0 <= i < |recs| :: KeyOf(recs[i]) in genmap
    requires RecordsShaped(genmap, recs)
    ensures var n := |recs| - 1;
            var prev := Run(impl, genmap, recs[..n], st);
            var o := TestOutcome(impl, genmap[KeyOf(recs[n])], recs[n].u, prev.1);
            Run(impl, genmap, recs, st) == (prev.0 + [recs[n].(u := o.0)], o.1)
  {
  }

  /** Over a whole run, each "Error in ..." line is written at most once
      and the counters only grow. */
  lemma {:induction false} RunKeepsReportsOk(impl: Impl, genmap: map<Key, GenType>, recs: seq<KatInstance>, st: Reports)
    requires forall i | 0 <= i < |recs| :: KeyOf(recs[i]) in genmap
    requires RecordsShaped(genmap, recs) && ReportsOk(st)
    ensures var st' := Run(impl, genmap, recs, st).1;
            && ReportsOk(st') && st.murng <= st'.murng && st.engine <= st'.engine
            && Count(st'.log, MicroUrngError) <= 1 && Count(st'.log, EngineError) <= 1
  {
    if recs != [] {
      var n := |recs| - 1;
      RunKeepsReportsOk(impl, genmap, recs[..n], st);
      var prev := Run(impl, genmap, recs[..n], st);
      TestKeepsReportsOk(impl, genmap[KeyOf(recs[n])], recs[n].u, prev.1);
      RunUnfold(impl, genmap, recs, st);
    }
  }

  /** The MicroURNG for generator `gen` accepts the counter of a payload
      laid out for `gen` although its `hibit` is set. */
  predicate MicroMiswired(impl: Impl, gen: GenType, u: Payload) {
    && Shaped(gen, u) && HiBit(u.ctr, WordWidth(gen))
    && impl.micro(gen, u.ctr, u.ukey).Some?
  }

  /** `do_test` on a miswired record leaves `murng_reported` positive and
      keeps the reporting invariant. */
  lemma MiswiredStep(impl: Impl, gen: GenType, u: Payload, st: Reports)
    requires MicroMiswired(impl, gen, u) && ReportsOk(st)
    ensures var st' := TestOutcome(impl, gen, u, st).1;
            st'.murng > 0 && ReportsOk(st')
  {
    MiswiredMicroSuppresses(impl, gen, u, st);
    TestKeepsReportsOk(impl, gen, u, st);
  }

  /** A run with a record whose MicroURNG wrongly accepts a counter with
      `hibit` set ends with `murng_reported` positive and exactly one
      "Error in MicroURNG" line, however many such records it holds. */
  lemma {:induction false} RunMiswiredReportsOnce(impl: Impl, genmap: map<Key, GenType>, recs: seq<KatInstance>,
                                                  st: Reports, m: nat)
    requires forall i | 0 <= i < |recs| :: KeyOf(recs[i]) in genmap
    requires RecordsShaped(genmap, recs) && ReportsOk(st) && m < |recs|
    requires MicroMiswired(impl, genmap[KeyOf(recs[m])], recs[m].u)
    ensures var st' := Run(impl, genmap, recs, st).1;
            st'.murng > 0 && Count(st'.log, MicroUrngError) == 1
  {
    var n := |recs| - 1;
    var init := recs[..n];
    var prev := Run(impl, genmap, init, st).1;
    var gen := genmap[KeyOf(recs[n])];
    RunKeepsReportsOk(impl, genmap, init, st);
    RunUnfold(impl, genmap, recs, st);
    if m < n {
      assert init[m] == recs[m];
      RunMiswiredReportsOnce(impl, genmap, init, st, m);
      TestKeepsReportsOk(impl, gen, recs[n].u, prev);
    } else {
      assert m == n;
      MiswiredStep(impl, genmap[KeyOf(recs[m])], recs[m].u, prev);
    }
  }

  /** The Engine for generator `gen`, realigned to the counter of a payload
      laid out for `gen`, does not return the expected vector reversed. */
  predicate EngineDefective(impl: Impl, gen: GenType, u: Payload) {
    Shaped(gen, u) && EngineDraws(impl, gen, u) != Reverse(u.expected)
  }

  /** `do_test` on a record with an Engine defect leaves `engine_reported`
      positive and keeps the reporting invariant. */
  lemma EngineDefectStep(impl: Impl, gen: GenType, u: Payload, st: Reports)
    requires EngineDefective(impl, gen, u) && ReportsOk(st)
    ensures var st' := TestOutcome(impl, gen, u, st).1;
            st'.engine > 0 && ReportsOk(st')
  {
    EngineDefectSuppresses(impl, gen, u, st);
    TestKeepsReportsOk(impl, gen, u, st);
  }

  /** A run with a record whose realigned Engine draws are not its expected
      vector reversed ends with `engine_reported` positive and exactly one
      "Error in Engine" line, however many such records it holds. */
  lemma {:induction false} RunEngineDefectReportsOnce(impl: Impl, genmap: map<Key, GenType>, recs: seq<KatInstance>,
                                                      st: Reports, m: nat)
    requires forall i | 0 <= i < |recs| :: KeyOf(recs[i]) in genmap
    requires RecordsShaped(genmap, recs) && ReportsOk(st) && m < |recs|
    requires EngineDefective(impl, genmap[KeyOf(recs[m])], recs[m].u)
    ensures var st' := Run(impl, genmap, recs, st).1;
            st'.engine > 0 && Count(st'.log, EngineError) == 1
  {
    var n := |recs| - 1;
    var init := recs[..n];
    var prev := Run(impl, genmap, init, st).1;
    var gen := genmap[KeyOf(recs[n])];
    RunKeepsReportsOk(impl, genmap, init, st);
    RunUnfold(impl, genmap, recs, st);
    if m < n {
      assert init[m] == recs[m];
      RunEngineDefectReportsOnce(impl, genmap, init, st, m);
      TestKeepsReportsOk(impl, gen, recs[n].u, prev);
    } else {
      assert m == n;
      EngineDefectStep(impl, genmap[KeyOf(recs[m])], recs[m].u, prev);
    }
  }

  /** `t'` is `t` with at most `computed` changed, and then to the block the
      generator `gen` produces for `t`'s counter and key. */
  ghost predicate ComputedOnly(impl: Impl, gen: GenType, t: KatInstance, t': KatInstance) {
    && t'.generator == t.generator && t'.nrounds == t.nrounds
    && t'.u.ctr == t.u.ctr && t'.u.ukey == t.u.ukey && t'.u.expected == t.u.expected
    && (t'.u.computed == t.u.computed || t'.u.computed == impl.bijection(gen, t.u.ctr, t.u.ukey))
  }

  /** `do_test` changes at most the `computed` field of its record. */
  lemma TestComputedOnly(impl: Impl, gen: GenType, t: KatInstance, st: Reports)
    requires Shaped(gen, t.u)
    ensures ComputedOnly(impl, gen, t, t.(u := TestOutcome(impl, gen, t.u, st).0))
  {
    WriteBack(impl, gen, t.u, st);
  }

  /** Appending the last record's successor to the successors of the
      others gives the successors of all of them. */
  lemma AppendComputedOnly(impl: Impl, genmap: map<Key, GenType>, recs: seq<KatInstance>,
                           prev: seq<KatInstance>, t: KatInstance)
    requires |recs| == |prev| + 1 && forall i | 0 <= i < |recs| :: KeyOf(recs[i]) in genmap
    requires forall i | 0 <= i < |prev| :: ComputedOnly(impl, genmap[KeyOf(recs[i])], recs[i], prev[i])
    requires ComputedOnly(impl, genmap[KeyOf(recs[|prev|])], recs[|prev|], t)
    ensures var out := prev + [t];
            forall i | 0 <= i < |recs| :: ComputedOnly(impl, genmap[KeyOf(recs[i])], recs[i], out[i])
  {
    var out := prev + [t];
    forall i | 0 <= i < |recs|
      ensures ComputedOnly(impl, genmap[KeyOf(recs[i])], recs[i], out[i])
    {
      if i < |prev| {
        assert out[i] == prev[i];
      }
    }
  }

  /** The last step of a run keeps every earlier record's relation to its
      input and adds one for the last record. */
  lemma ComputedOnlyLast(impl: Impl, genmap: map<Key, GenType>, recs: seq<KatInstance>, st: Reports)
    requires recs != [] && forall i | 0 <= i < |recs| :: KeyOf(recs[i]) in genmap
    requires RecordsShaped(genmap, recs)
    requires var prev := Run(impl, genmap, recs[..|recs| - 1], st).0;
             forall i | 0 <= i < |recs| - 1 :: ComputedOnly(impl, genmap[KeyOf(recs[i])], recs[i], prev[i])
    ensures var out := Run(impl, genmap, recs, st).0;
            forall i | 0 <= i < |recs| :: ComputedOnly(impl, genmap[KeyOf(recs[i])], recs[i], out[i])
  {
    var n := |recs| - 1;
    var prev := Run(impl, genmap, recs[..n], st);
    var gen := genmap[KeyOf(recs[n])];
    var t := recs[n].(u := TestOutcome(impl, gen, recs[n].u, prev.1).0);
    TestComputedOnly(impl, gen, recs[n], prev.1);
    RunUnfold(impl, genmap, recs, st);
    var out := Run(impl, genmap, recs, st).0;
    assert out == prev.0 + [t];
    AppendComputedOnly(impl, genmap, recs, prev.0, t);
  }

  /** A run never adds, drops or reorders records and changes nothing in a
      record but `computed`, which it either leaves alone or sets to the
      block of the registered generator. */
  lemma {:induction false} RunChangesOnlyComputed(impl: Impl, genmap: map<Key, GenType>, recs: seq<KatInstance>, st: Reports)
    requires forall i | 0 <= i < |recs| :: KeyOf(recs[i]) in genmap
    requires RecordsShaped(genmap, recs)
    ensures var out := Run(impl, genmap, recs, st).0;
            forall i | 0 <= i < |recs| :: ComputedOnly(impl, genmap[KeyOf(recs[i])], recs[i], out[i])
  {
    if recs != [] {
      RunChangesOnlyComputed(impl, genmap, recs[..|recs| - 1], st);
      ComputedOnlyLast(impl, genmap, recs, st);
    }
  }

  /** The generator and adaptors registered for a record behave as Random123
      documents them, and the record's expected vector is the generator's block. */
  ghost predicate RecordConforms(impl: Impl, gen: GenType, u: Payload)
    requires Shaped(gen, u)
  {
    && BlocksShaped(impl, gen) && EngineConforms(impl, gen)
    && MicroConformsAt(impl, gen, u.ctr, u.ukey)
    && u.expected == impl.bijection(gen, u.ctr, u.ukey)
  }

  /** A record as published by a clean `do_test`: `computed` holds `expected`. */
  function Published(t: KatInstance): KatInstance {
    t.(u := t.u.(computed := t.u.expected))
  }

  /** Publishing the last record after all the others publishes them all. */
  lemma AppendPublished(recs: seq<KatInstance>, prev: seq<KatInstance>)
    requires |recs| == |prev| + 1
    requires forall i | 0 <= i < |prev| :: prev[i] == Published(recs[i])
    ensures var out := prev + [Published(recs[|prev|])];
            forall i | 0 <= i < |recs| :: out[i] == Published(recs[i])
  {
    var out := prev + [Published(recs[|prev|])];
    forall i | 0 <= i < |recs|
      ensures out[i] == Published(recs[i])
    {
      if i < |prev| {
        assert out[i] == prev[i];
      }
    }
  }

  /** If the run of all records but the last published them and left the
      reports alone, and `do_test` does the same for the last record, then
      the whole run does. */
  lemma PublishLast(impl: Impl, genmap: map<Key, GenType>, recs: seq<KatInstance>, st: Reports)
    requires recs != [] && forall i | 0 <= i < |recs| :: KeyOf(recs[i]) in genmap
    requires RecordsShaped(genmap, recs)
    requires var prev := Run(impl, genmap, recs[..|recs| - 1], st);
             && prev.1 == st
             && forall i | 0 <= i < |recs| - 1 :: prev.0[i] == Published(recs[i])
    requires var last := recs[|recs| - 1];
             TestOutcome(impl, genmap[KeyOf(last)], last.u, st) == (Published(last).u, st)
    ensures Run(impl, genmap, recs, st).1 == st
    ensures forall i | 0 <= i < |recs| :: Run(impl, genmap, recs, st).0[i] == Published(recs[i])
  {
    var n := |recs| - 1;
    var prev := Run(impl, genmap, recs[..n], st);
    RunUnfold(impl, genmap, recs, st);
    var out := Run(impl, genmap, recs, st).0;
    assert out == prev.0 + [Published(recs[n])];
    AppendPublished(recs, prev.0);
  }

  /** With conforming generators and correct vectors, a run publishes every
      record with `computed` equal to `expected` and reports nothing. */
  lemma {:induction false} ConformingRunPublishesAll(impl: Impl, genmap: map<Key, GenType>, recs: seq<KatInstance>, st: Reports)
    requires forall i | 0 <= i < |recs| :: KeyOf(recs[i]) in genmap
    requires RecordsShaped(genmap, recs)
    requires forall i | 0 <= i < |recs| :: RecordConforms(impl, genmap[KeyOf(recs[i])], recs[i].u)
    ensures Run(impl, genmap, recs, st).1 == st
    ensures forall i | 0 <= i < |recs| :: Run(impl, genmap, recs, st).0[i] == Published(recs[i])
  {
    if recs != [] {
      var n := |recs| - 1;
      ConformingRunPublishesAll(impl, genmap, recs[..n], st);
      var last := recs[n];
      assert RecordConforms(impl, genmap[KeyOf(last)], last.u);
      ConformingImplPublishes(impl, genmap[KeyOf(last)], last.u, st);
      PublishLast(impl, genmap, recs, st);
    }
  }

  /** The process-wide state of kat_cpp.cpp. */
  class Harness {
    const impl: Impl
    var genmap: map<Key, GenType>
    var murngReported: nat
    var engineReported: nat
    var log: seq<Event>

    function Reported(): Reports
      reads this
    {
      Reports(murngReported, engineReported, log)
    }

    predicate Valid()
      reads this
    {
      ReportsOk(Reported())
    }

    /** Program start: an empty `genmap`, zeroed statics, nothing written. */
    constructor (impl: Impl)
      ensures this.impl == impl && genmap == map[]
      ensures Reported() == Reports(0, 0, []) && Valid()
    {
      this.impl := impl;
      genmap := map[];
      murngReported, engineReported, log := 0, 0, [];
    }

    /** The `genmap[make_pair(...)] = do_test<...>` statements of
        `host_execute_tests`. */
    method HostRegister(philox64: bool, aesni: bool)
      modifies this`genmap
      ensures genmap == old(genmap) + Registrations(philox64, aesni)
    {
      genmap := genmap[Key(Threefry2x32, 13) := Threefry(X2, W32, 13)];
      genmap := genmap[Key(Threefry2x32, 20) := Threefry(X2, W32, 20)];
      genmap := genmap[Key(Threefry2x64, 13) := Threefry(X2, W64, 13)];
      genmap := genmap[Key(Threefry2x64, 20) := Threefry(X2, W64, 20)];
      ThreefryX2Updates(old(genmap));

      ghost var m := genmap;
      genmap := genmap[Key(Threefry4x32, 13) := Threefry(X4, W32, 13)];
      genmap := genmap[Key(Threefry4x32, 20) := Threefry(X4, W32, 20)];
      genmap := genmap[Key(Threefry4x64, 13) := Threefry(X4, W64, 13)];
      genmap := genmap[Key(Threefry4x64, 20) := Threefry(X4, W64, 20)];
      ThreefryX4Updates(m);

      m := genmap;
      genmap := genmap[Key(Philox2x32, 7) := Philox(X2, W32, 7)];
      genmap := genmap[Key(Philox2x32, 10) := Philox(X2, W32, 10)];
      genmap := genmap[Key(Philox4x32, 7) := Philox(X4, W32, 7)];
      genmap := genmap[Key(Philox4x32, 10) := Philox(X4, W32, 10)];
      Philox32Updates(m);
      UnconditionalGroups(old(genmap));

      ghost var m1 := genmap;
      if philox64 {
        Philox64Updates(m1);
        genmap := genmap[Key(Philox2x64, 7) := Philox(X2, W64, 7)];
        genmap := genmap[Key(Philox2x64, 10) := Philox(X2, W64, 10)];
        genmap := genmap[Key(Philox4x64, 7) := Philox(X4, W64, 7)];
        genmap := genmap[Key(Philox4x64, 10) := Philox(X4, W64, 10)];
      }

      ghost var m2 := genmap;
      if aesni {
        AesNiUpdates(m2);
        genmap := genmap[Key(Aesni4x32, 10) := AESNI4x32];
        genmap := genmap[Key(Ars4x32, 7) := ARS4x32(7)];
        genmap := genmap[Key(Ars4x32, 10) := ARS4x32(10)];
      }
      RegistrationSteps(old(genmap), m1, m2, genmap, philox64, aesni);
    }

    /**
     The MicroURNG block of `do_test`: construct the adaptor, count an error
     if that contradicts `hibit`, compare each draw i with expected[n-1-i];
     a `runtime_error` from the constructor or from a draw lands in one
     handler, where it is an error exactly when `hibit` is clear.
     */
    method CheckMicroURNG(gen: GenType, ctr: seq<nat>, ukey: seq<nat>, expected: seq<nat>) returns (errs: nat)
      requires |ctr| == Words(gen) && WordsFit(ctr, WordWidth(gen))
      ensures errs == MicroErrors(HiBit(ctr, WordWidth(gen)), impl.micro(gen, ctr, ukey), expected)
    {
      var hibit := HiBit(ctr, WordWidth(gen));
      errs := 0;
      match impl.micro(gen, ctr, ukey)
      case None =>
        if !hibit {
          errs := errs + 1;
        }
      case Some(draws) =>
        if hibit {
          errs := errs + 1;
        }
        var n := |expected|;
        var i := 0;
        var threw := false;
        while i < n && !threw
          invariant 0 <= i <= n && i <= |draws|
          invariant threw ==> i == |draws| < n
          invariant errs == (if hibit then 1 else 0) + Mismatches(expected, draws, i)
          decreases n - i, !threw
        {
          if i == |draws| {
            threw := true;
          } else {
            var j := n - i - 1;
            if expected[j] != draws[i] {
              errs := errs + 1;
            }
            i := i + 1;
          }
        }
        if threw && !hibit {
          errs := errs + 1;
        }
    }

    /** The MicroURNG report: on the first run-wide error write the "Error
        in MicroURNG" line, and count every record that had errors. */
    method ReportMicro(errs: nat)
      modifies this`murngReported, this`log
      ensures Reported() == AfterMicro(old(Reported()), errs)
    {
      if errs != 0 {
        if murngReported == 0 {
          log := log + [MicroUrngError];
        }
        murngReported := murngReported + 1;
      }
    }

    /**
     The Engine comparisons of `do_test`: draw one value per expected word,
     compare draw i with expected[n-1-i], write an "Engine check" line for
     each mismatch and the "Error in Engine" line on the first one in the run.
     */
    method CompareEngine(e: Engine, expected: seq<nat>, ghost vals: seq<nat>) returns (errs: nat)
      requires |vals| == |expected|
      requires forall i | 0 <= i < |vals| :: vals[i] == e.stream(e.gen, e.ukey, e.pos + i)
      modifies e, this`engineReported, this`log
      ensures errs == Mismatches(expected, vals, |expected|)
      ensures Reported() == AfterEngine(old(Reported()), expected, vals)
      ensures e.pos == old(e.pos) + |expected|
    {
      ghost var st := Reported();
      ghost var start := e.pos;
      var n := |expected|;
      errs := 0;
      var i := 0;
      while i < n
        invariant 0 <= i <= n
        invariant e.pos == start + i
        invariant errs == Mismatches(expected, vals, i)
        invariant murngReported == st.murng
        invariant engineReported == st.engine + errs
        invariant log == st.log + EngineLog(expected, vals, i, st.engine)
      {
        var val := e.Next();
        assert val == vals[i];
        var j := n - i - 1;
        if expected[j] != val {
          ghost var lines := MismatchLines(j, expected[j], val, engineReported == 0);
          ghost var before := log;
          log := log + [EngineCheck(j, expected[j], val)];
          errs := errs + 1;
          if engineReported == 0 {
            log := log + [EngineError];
          }
          engineReported := engineReported + 1;
          assert log == before + lines;
          EngineLogMismatch(expected, vals, i, st.engine);
          AppendAssoc(st.log, EngineLog(expected, vals, i, st.engine), lines);
        } else {
          EngineLogMatch(expected, vals, i, st.engine);
        }
        i := i + 1;
      }
    }

    /**
     `do_test<GEN>` on record `tests[idx]`: compute g(ctr, ukey), run the
     MicroURNG check and report it once per run, realign a fresh Engine
     and compare its draws, reporting every mismatch and the first one per
     run, and copy the record back with the new `computed` only if no
     error was found.
     */
    method DoTest(gen: GenType, tests: array<KatInstance>, idx: nat)
      requires Valid() && idx < tests.Length && Shaped(gen, tests[idx].u)
      modifies this`murngReported, this`engineReported, this`log, tests
      ensures Valid()
      ensures var (u', st') := TestOutcome(impl, gen, old(tests[idx].u), old(Reported()));
              tests[idx] == old(tests[idx]).(u := u') && Reported() == st'
      ensures tests[..idx] == old(tests[..idx]) && tests[idx + 1..] == old(tests[idx + 1..])
    {
      var u := tests[idx].u;
      var data := u.(computed := impl.bijection(gen, u.ctr, u.ukey));

      var errs := CheckMicroURNG(gen, data.ctr, data.ukey, data.expected);
      ReportMicro(errs);

      var e := new Engine(gen, data.ukey, impl.stream);
      RealignEngine(e, data.ctr);
      ghost var vals := EngineDraws(impl, gen, u);
      forall i | 0 <= i < |vals| ensures vals[i] == e.stream(e.gen, e.ukey, e.pos + i) {
        EngineDrawsAt(impl, gen, u, i);
      }
      var engineErrs := CompareEngine(e, u.expected, vals);
      errs := errs + engineErrs;
      TestKeepsReportsOk(impl, gen, u, old(Reported()));

      if errs == 0 {
        tests[idx] := tests[idx].(u := data);
      }
    }

    /**
     `dev_execute_tests`: run the first `ntests` records in order, each
     through the routine registered for its pair; stop at the first record
     whose pair is missing, leaving it and every later record untouched.
     */
    method DevExecuteTests(tests: array<KatInstance>, ntests: nat) returns (r: RunOutcome)
      requires Valid() && ntests <= tests.Length
      requires RecordsShaped(genmap, tests[..ntests])
      modifies this`murngReported, this`engineReported, this`log, tests
      ensures Valid()
      ensures var recs := old(tests[..ntests]);
              var k := FirstMissing(genmap, recs);
              && (r.Completed? <==> k == ntests)
              && (r.MissingPair? ==> r.key == KeyOf(recs[k]))
              && (tests[..k], Reported()) == Run(impl, genmap, recs[..k], old(Reported()))
              && tests[k..] == old(tests[k..])
    {
      ghost var orig := tests[..];
      ghost var recs := orig[..ntests];
      var i := 0;
      while i < ntests && KeyOf(tests[i]) in genmap
        invariant 0 <= i <= ntests
        invariant forall j | 0 <= j < i :: KeyOf(recs[j]) in genmap
        invariant (tests[..i], Reported()) == Run(impl, genmap, recs[..i], old(Reported()))
        invariant tests[i..] == orig[i..]
        invariant Valid()
      {
        assert tests[i] == recs[i] by { assert tests[i..][0] == tests[i]; }
        assert Shaped(genmap[KeyOf(recs[i])], recs[i].u);
        ghost var before := tests[..];
        ghost var st := Reported();
        DoTest(genmap[KeyOf(tests[i])], tests, i);
        ghost var after := tests[..];
        SpliceStep(before, after, orig, i);
        RunStep(impl, genmap, recs, i, old(Reported()), before[..i], st, after[i], Reported());
        i := i + 1;
      }
      if i < ntests {
        assert tests[i] == recs[i] by { assert tests[i..][0] == tests[i]; }
        r := MissingPair(KeyOf(tests[i]));
      } else {
        r := Completed;
      }
      FirstMissingAt(genmap, recs, i);
      assert recs == old(tests[..ntests]) && tests[i..] == old(tests[i..]);
    }

    /**
     `host_execute_tests`: register the routines compiled in, then run the
     records. The count is passed on as `unsigned`, so only the first
     ntests mod 2^32 records are run.
     */
    method HostExecuteTests(tests: array<KatInstance>, ntests: nat, philox64: bool, aesni: bool)
      returns (r: RunOutcome)
      requires Valid() && ntests <= tests.Length
      requires RecordsShaped(genmap + Registrations(philox64, aesni), tests[..ntests % 0x1_0000_0000])
      modifies this`genmap, this`murngReported, this`engineReported, this`log, tests
      ensures Valid() && genmap == old(genmap) + Registrations(philox64, aesni)
      ensures var recs := old(tests[..ntests % 0x1_0000_0000]);
              var k := FirstMissing(genmap, recs);
              && (r.Completed? <==> k == |recs|)
              && (r.MissingPair? ==> r.key == KeyOf(recs[k]))
              && (tests[..k], Reported()) == Run(impl, genmap, recs[..k], old(Reported()))
              && tests[k..] == old(tests[k..])
    {
      HostRegister(philox64, aesni);
      r := DevExecuteTests(tests, ntests % 0x1_0000_0000);
    }
  }
}
