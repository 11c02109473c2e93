# Random123 C++ known-answer-test driver, modelled in Dafny

`examples/kat_cpp.cpp` is the C++ driver of Random123's known-answer tests.
It keeps a global dispatch table `genmap` from a (generator family, round
count) pair to an instance of the template `do_test<GEN>`. `host_execute_tests`
fills the table: twelve Threefry and 32-bit Philox entries always, four
64-bit Philox entries when `R123_USE_PHILOX_64BIT` is set, and three AES-NI/ARS
entries when `R123_USE_AES_NI` is set. It then hands the records to
`dev_execute_tests`, which runs them in order and throws on the first pair
that has no entry.

For each record `do_test` does the following:
- It computes the generator's block `g(ctr, ukey)`.
- It cross-checks the `MicroURNG<GEN, 1>` adaptor. The constructor must throw
  exactly when the top bit of the last counter word (`hibit`) is set. Draw `i`
  must equal `expected[n-1-i]`.
- It cross-checks the `Engine<GEN>` adaptor. It sets the engine to the counter
  with its low word divided by 3. It moves it forward with one draw, a bulk
  `discard` guarded against `unsigned long long` overflow, and N-1 more draws.
  Then it compares the next N draws with `expected` in reverse order.
- It copies the computed block back into the record only if no error was found.

Two static counters, `murng_reported` and `engine_reported`, make the
"Error in ..." diagnostics appear once per run.

The model has six modules:

- `Counters`: word widths, counters read as little-endian numbers, `hibit`, and
  the `unsigned long long` range.
- `Generators`: the template argument `GEN` as a datatype, and the foreign code
  as a value `Impl`. That code is the generator bijection, the MicroURNG's
  outcome and the Engine's output stream by position. Conformance predicates
  state what Random123 documents these adaptors to do.
- `EngineModel`: a class `Engine` holding its stream position, with
  `setcounter`, draws and `discard`. `RealignEngine` is the skip-ahead of
  `do_test`, proved to land exactly on the first value of the test counter's
  block, with every `discard` argument in range.
- `KatTest`: one record and its test as values. `TestOutcome` gives the new
  payload and the new run-wide reports (both counters and the diagnostic
  lines, as abstract events).
- `Registry`: the key type of `genmap` and the registrations under each pair of
  build flags.
- `KatCpp`: the process state as a class `Harness`. Its fields are `genmap`,
  the two counters and the diagnostic log, and its methods are the imperative
  `do_test`, `dev_execute_tests` and `host_execute_tests`. Each is proved
  against the value-level specification: `TestOutcome` for one record, `Run`
  for a sequence of records. The reporting invariant `ReportsOk` is kept
  throughout.

The code is followed on two points where a reading of the driver's purpose
alone might suggest otherwise:
- When the MicroURNG is built although `hibit` is set, one error is counted and
  its draws are still compared, each mismatch adding one more. A draw that
  throws lands in the same handler as a throwing constructor.
- Only the "Error in Engine" line is written once per run. The "Engine check"
  line with the index, the expected and the drawn value is written for every
  mismatch.

## Model

| member | source | states |
|---|---|---|
| `Counters.HiBit` | examples/kat_cpp.cpp:70 | `hibit` (the last word shifted right by bits-1) is set exactly when that word is at least 2^(bits-1) |
| `Counters.ToNatSetLow` | examples/kat_cpp.cpp:95-98 | replacing the low word c0 by c0/3 lowers the counter's value by exactly c0 - c0/3 |
| `Generators.EngineBlockAt` | examples/kat_cpp.cpp:121-124 | with an Engine that conforms to Random123, the N values from position ToNat(ctr)*N on are the block g(ctr, ukey) from its last word down |
| `EngineModel.Engine.constructor` | examples/kat_cpp.cpp:94 | the engine is keyed by `ukey` for generator GEN |
| `EngineModel.Engine.SetCounter` | examples/kat_cpp.cpp:98 | after `setcounter(c, elem)` the next draw is word elem-1 of block c: position ToNat(c)*N + N - elem |
| `EngineModel.Engine.Next` | examples/kat_cpp.cpp:101 | a draw returns the stream value at the current position and advances it by one |
| `EngineModel.Engine.Discard` | examples/kat_cpp.cpp:108 | `discard(k)` takes an `unsigned long long` and advances the position by k |
| `EngineModel.RealignEngine` | examples/kat_cpp.cpp:95-120 | for every counter and every c0, the setcounter / one draw / guarded discard / N-1 draws sequence leaves the engine exactly at the first value of block ctr, and every `discard` argument is an `unsigned long long` |
| `EngineModel.SkipTotal` | examples/kat_cpp.cpp:99-118 | one draw, the bulk of N*(c0 - c0/3 - 1) and N-1 draws add up to (c0 - c0/3)*N values |
| `EngineModel.SkipBranches` | examples/kat_cpp.cpp:97-104 | the skip branch is taken exactly when c0 > 0, the bulk branch exactly when c0 >= 2, and then ndiscard >= 1 |
| `EngineModel.GuardedProductFits` | examples/kat_cpp.cpp:106-113 | below the guard, ndiscard*N does not exceed ULLONG_MAX, so the multiplication does not wrap |
| `EngineModel.NarrowWordsSingleDiscard` | examples/kat_cpp.cpp:104-113 | with 32-bit words the guard is never met, so one discard is made |
| `EngineModel.WideWordsNeedGuard` | examples/kat_cpp.cpp:104-109 | with 64-bit words there is a counter for which ndiscard*N would overflow, so the guard is needed |
| `KatTest.MismatchesZero` | examples/kat_cpp.cpp:75-80 | no mismatch among the first k draws if and only if each draw i equals expected[n-1-i] |
| `KatTest.MismatchesZeroIffReversed` | examples/kat_cpp.cpp:121-124 | the reverse-order comparison finds no mismatch if and only if the draws are `expected` reversed |
| `KatTest.MicroErrorsZero` | examples/kat_cpp.cpp:69-86 | the MicroURNG check counts no error if and only if the constructor throws exactly when `hibit` is set, and a built adaptor yields `expected` reversed before any draw throws |
| `KatTest.EngineLogMatch` | examples/kat_cpp.cpp:121-124 | a matching Engine draw writes nothing and counts nothing |
| `KatTest.EngineLogMismatch` | examples/kat_cpp.cpp:124-130 | a mismatching Engine draw writes its "Engine check" line, plus "Error in Engine" when the counter was 0, and counts one more mismatch |
| `KatTest.MismatchLinesCounts` | examples/kat_cpp.cpp:125-129 | one mismatch writes one "Engine check" line, no MicroURNG line, and an "Error in Engine" line only if it is the first |
| `KatTest.EngineLogCheckLines` | examples/kat_cpp.cpp:124-127 | the Engine comparisons write exactly one "Engine check" line per mismatch (not throttled) |
| `KatTest.EngineLogErrors` | examples/kat_cpp.cpp:128-129 | the Engine comparisons write "Error in Engine" once if `engine_reported` was 0 and some value mismatched, never otherwise, and no MicroURNG line |
| `KatTest.EngineLogEmpty` | examples/kat_cpp.cpp:121-131 | comparisons without a mismatch write nothing |
| `KatTest.AfterMicroOk` | examples/kat_cpp.cpp:87-88 | the MicroURNG report keeps the invariant: "Error in MicroURNG" written once if `murng_reported` > 0, never otherwise |
| `KatTest.AfterEngineOk` | examples/kat_cpp.cpp:121-131 | the Engine comparisons keep the reporting invariant, with `engine_reported` equal to the number of "Engine check" lines |
| `KatTest.TestKeepsReportsOk` | examples/kat_cpp.cpp:67-131 | one `do_test` keeps the reporting invariant and never lowers either counter |
| `KatTest.WriteBack` | examples/kat_cpp.cpp:133-136 | the record is left exactly as it was when an error was found; otherwise only `computed` changes, to g(ctr, ukey) |
| `KatTest.ConformingImplPublishes` | examples/kat_cpp.cpp:47-137 | when MicroURNG and Engine behave as documented and `expected` is the block, the record is published with `computed == expected` and nothing is reported |
| `KatTest.MiswiredMicroSuppresses` | examples/kat_cpp.cpp:71-88 | a MicroURNG that accepts a counter with `hibit` set suppresses the write-back and counts one MicroURNG report; the record adds exactly one "Error in MicroURNG" line if `murng_reported` was 0 and none otherwise |
| `KatTest.EngineDefectSuppresses` | examples/kat_cpp.cpp:121-136 | Engine draws that are not `expected` reversed suppress the write-back and raise `engine_reported` |
| `KatTest.RerunSamePayload` | examples/kat_cpp.cpp:47-137 | the payload `do_test` leaves does not depend on the run-wide counters, and running it again on that payload changes nothing more |
| `Registry.ThreefryX2Updates` | examples/kat_cpp.cpp:141-144 | the four two-word Threefry assignments add the two-word Threefry group to `genmap` |
| `Registry.ThreefryX4Updates` | examples/kat_cpp.cpp:146-149 | the four four-word Threefry assignments add the four-word Threefry group |
| `Registry.Philox32Updates` | examples/kat_cpp.cpp:151-154 | the four 32-bit Philox assignments add the 32-bit Philox group |
| `Registry.Philox64Updates` | examples/kat_cpp.cpp:156-161 | the four 64-bit Philox assignments add the 64-bit Philox group |
| `Registry.AesNiUpdates` | examples/kat_cpp.cpp:163-167 | the three AES-NI/ARS assignments add the AES-NI/ARS group |
| `Registry.UnconditionalGroups` | examples/kat_cpp.cpp:141-154 | the three unconditional groups registered in turn add the unconditional registrations |
| `Registry.RegistrationSteps` | examples/kat_cpp.cpp:141-167 | the unconditional groups, then the groups whose flags are set, add exactly the registrations for those flags |
| `Registry.ThreefryX2Facts` | examples/kat_cpp.cpp:141-144 | four distinct keys, each bound to a two-word Threefry routine of that family and round count |
| `Registry.ThreefryX4Facts` | examples/kat_cpp.cpp:146-149 | four distinct keys, each bound to a four-word Threefry routine of that family and round count |
| `Registry.Philox32Facts` | examples/kat_cpp.cpp:151-154 | four distinct keys, each bound to a 32-bit Philox routine of that family and round count |
| `Registry.Philox64Facts` | examples/kat_cpp.cpp:156-161 | four distinct keys, each bound to a 64-bit Philox routine of that family and round count |
| `Registry.AesNiFacts` | examples/kat_cpp.cpp:163-167 | three distinct keys, each bound to the AES-NI or ARS routine of that round count |
| `Registry.UnconditionalFacts` | examples/kat_cpp.cpp:141-154 | the unconditional registrations are twelve distinct keys, each bound to its own family and round count |
| `Registry.FlaggedFacts` | examples/kat_cpp.cpp:156-167 | the flag-dependent groups add 4 and 3 keys when their flags are set and none otherwise |
| `Registry.RegistrationFacts` | examples/kat_cpp.cpp:141-167 | no registration overwrites another: 12 + 4 + 3 keys under the flags, each bound to its own key |
| `Registry.RegistrationsBindTheirKey` | examples/kat_cpp.cpp:141-166 | every registered routine tests exactly the family and round count of its key |
| `Registry.RegistrationCount` | examples/kat_cpp.cpp:141-167 | `genmap` gets 12 entries, plus 4 with the Philox 64-bit flag and 3 with the AES-NI flag |
| `Registry.FlagsGateRegistrations` | examples/kat_cpp.cpp:156-167 | the unconditional pairs are always registered, and each flag-dependent pair exactly when its flag is set |
| `KatCpp.FirstMissing` | examples/kat_cpp.cpp:30-34 | the index at which the runner throws: every earlier pair is registered and the pair there, if any, is not |
| `KatCpp.FirstMissingAt` | examples/kat_cpp.cpp:30-34 | the runner stops at i exactly when all pairs before i are registered and the one at i is not |
| `KatCpp.Run` | examples/kat_cpp.cpp:28-41 | running records in order returns one record per input record |
| `KatCpp.RunStep` | examples/kat_cpp.cpp:30-36 | running one more record is running the earlier ones and then `do_test` on it |
| `KatCpp.RunKeepsReportsOk` | examples/kat_cpp.cpp:44-45 | over a whole run each "Error in ..." line is written at most once and the counters never decrease |
| `KatCpp.MiswiredStep` | examples/kat_cpp.cpp:71-88 | `do_test` on a record whose MicroURNG accepts a `hibit` counter leaves `murng_reported` positive and keeps the reporting invariant |
| `KatCpp.RunMiswiredReportsOnce` | examples/kat_cpp.cpp:87-88 | a run holding any record whose MicroURNG accepts a `hibit` counter ends with exactly one "Error in MicroURNG" line, however many such records there are |
| `KatCpp.EngineDefectStep` | examples/kat_cpp.cpp:121-131 | `do_test` on a record whose realigned Engine draws are not `expected` reversed leaves `engine_reported` positive and keeps the reporting invariant |
| `KatCpp.RunEngineDefectReportsOnce` | examples/kat_cpp.cpp:128-129 | a run holding any record with an Engine defect ends with exactly one "Error in Engine" line, however many such records there are |
| `KatCpp.TestComputedOnly` | examples/kat_cpp.cpp:133-136 | `do_test` changes at most the `computed` field of its record, and only to the generator's block |
| `KatCpp.RunChangesOnlyComputed` | examples/kat_cpp.cpp:28-41 | a run keeps the number, order, pairs, counters, keys and expected vectors of the records, and changes `computed` only to the block of the registered generator |
| `KatCpp.ConformingRunPublishesAll` | examples/kat_cpp.cpp:28-41 | with conforming adaptors and correct vectors, a run publishes every record with `computed == expected` and reports nothing |
| `KatCpp.Harness.constructor` | examples/kat_cpp.cpp:44-45 | at program start `genmap` is empty, both counters are 0 and nothing is written |
| `KatCpp.Harness.HostRegister` | examples/kat_cpp.cpp:141-167 | the assignments add exactly the registrations compiled in under the two flags |
| `KatCpp.Harness.CheckMicroURNG` | examples/kat_cpp.cpp:69-86 | the MicroURNG block counts exactly the errors of the `hibit` rule and the reverse-order comparison |
| `KatCpp.Harness.ReportMicro` | examples/kat_cpp.cpp:87-88 | a record with errors raises `murng_reported`, and the first in the run writes "Error in MicroURNG" |
| `KatCpp.Harness.CompareEngine` | examples/kat_cpp.cpp:121-131 | the Engine loop counts exactly the reverse-order mismatches and writes their lines, "Error in Engine" only when `engine_reported` was 0; the engine ends N draws further on |
| `KatCpp.Harness.DoTest` | examples/kat_cpp.cpp:47-137 | `do_test` has the effect of `TestOutcome` on the record and the reports, keeps the reporting invariant and touches no other record |
| `KatCpp.Harness.DevExecuteTests` | examples/kat_cpp.cpp:28-41 | records before the first missing pair are run in order, it and the later ones are untouched, and the outcome names that pair or says the run completed |
| `KatCpp.Harness.HostExecuteTests` | examples/kat_cpp.cpp:139-171 | registration, then the run of the first `(unsigned)ntests` records |

## Left out

- Generator algorithms (Threefry, Philox, ARS, AES-NI) are left out. A generator is
  a function parameter `bijection` of `Impl`, because its code lives in
  Random123 headers that are not part of this model.
- `MicroURNG` and `Engine` internals are left out. The MicroURNG is its outcome
  (throws, or the values it yields), and the Engine is its output stream by
  position. Their documented behaviour is stated as the conformance predicates
  `MicroConformsAt` and `EngineConforms`. These are assumptions of the
  cross-validation lemmas, not facts proved here.
- `EngineModel.Engine.constructor`: the starting position of a fresh engine is
  not modelled, because `do_test` always calls `setcounter` before drawing.
- `EngineModel.Engine.SetCounter`: requires `elem <= N`, the only way the driver
  calls it (`elem == c.size()`).
- `KatCpp.Harness.ReportMicro`: `murng_reported` is an unbounded `nat`. The
  signed `int` overflow after 2^31 - 1 reports is not modelled.
- `KatCpp.Harness.CompareEngine`: `engine_reported` is an unbounded `nat`, for
  the same reason.
- Diagnostics are abstract `Event` values. The text of the `cerr` lines and the
  `hex` formatting are left out.
- The `runtime_error` thrown for a missing pair is the outcome `MissingPair(key)`.
  Its message text is left out.
- Byte layout: `memcpy` over the `ti->u` union is a record with four typed
  fields, and records are required to be laid out for their generator
  (`RecordsShaped`). That layout is the loader's job, and the loader is not
  part of this model.
- `kat.c` (the loader, the comparator and the entry point) is not part of this
  model.
- The MSVC warning pragma and the `#include` lines are compiler matters with no
  behaviour.
- The unimplemented TODO in `dev_execute_tests` (comparing MicroURNG and Engine
  output against each other) is not modelled.
