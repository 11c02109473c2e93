/**
 The dispatch table `genmap`: from a (generator family, round count) pair
 to the `do_test` instance for that generator, and the table of
 registrations that `host_execute_tests` makes. The Philox 64-bit and the
 AES-NI/ARS registrations depend on build flags, here the parameters
 `philox64` (R123_USE_PHILOX_64BIT) and `aesni` (R123_USE_AES_NI).
 */
module Registry {
  import opened Counters
  import opened Generators

  /** `pair<method_e, unsigned>`, the key of `genmap`. */
  datatype Key = Key(generator: Method, nrounds: nat)

  /** The unconditional registrations in the three groups of the source:
      two-word Threefry, four-word Threefry, 32-bit Philox. */
  function ThreefryX2(): map<Key, GenType> {
    map[
      Key(Threefry2x32, 13) := Threefry(X2, W32, 13),
      Key(Threefry2x32, 20) := Threefry(X2, W32, 20),
      Key(Threefry2x64, 13) := Threefry(X2, W64, 13),
      Key(Threefry2x64, 20) := Threefry(X2, W64, 20)
    ]
  }

  function ThreefryX4(): map<Key, GenType> {
    map[
      Key(Threefry4x32, 13) := Threefry(X4, W32, 13),
      Key(Threefry4x32, 20) := Threefry(X4, W32, 20),
      Key(Threefry4x64, 13) := Threefry(X4, W64, 13),
      Key(Threefry4x64, 20) := Threefry(X4, W64, 20)
    ]
  }

  function Philox32(): map<Key, GenType> {
    map[
      Key(Philox2x32, 7) := Philox(X2, W32, 7),
      Key(Philox2x32, 10) := Philox(X2, W32, 10),
      Key(Philox4x32, 7) := Philox(X4, W32, 7),
      Key(Philox4x32, 10) := Philox(X4, W32, 10)
    ]
  }

  /** The registrations made whatever the build flags. */
  function Unconditional(): map<Key, GenType> {
    ThreefryX2() + ThreefryX4() + Philox32()
  }

  lemma UnionAssoc(a: map<Key, GenType>, b: map<Key, GenType>, c: map<Key, GenType>)
    ensures a + b + c == a + (b + c)
  {}

  /** Registering the three unconditional groups in turn adds Unconditional(). */
  lemma UnconditionalGroups(m: map<Key, GenType>)
    ensures m + ThreefryX2() + ThreefryX4() + Philox32() == m + Unconditional()
  {
    UnionAssoc(m, ThreefryX2(), ThreefryX4());
    UnionAssoc(m, ThreefryX2() + ThreefryX4(), Philox32());
  }

  /** The registrations made when R123_USE_PHILOX_64BIT is set. */
  function Philox64(): map<Key, GenType> {
    map[
      Key(Philox2x64, 7) := Philox(X2, W64, 7),
      Key(Philox2x64, 10) := Philox(X2, W64, 10),
      Key(Philox4x64, 7) := Philox(X4, W64, 7),
      Key(Philox4x64, 10) := Philox(X4, W64, 10)
    ]
  }

  /** The registrations made when R123_USE_AES_NI is set. */
  function AesNi(): map<Key, GenType> {
    map[
      Key(Aesni4x32, 10) := AESNI4x32,
      Key(Ars4x32, 7) := ARS4x32(7),
      Key(Ars4x32, 10) := ARS4x32(10)
    ]
  }

  /** Each group of four (three) assignments to `genmap` adds its group. */
  lemma ThreefryX2Updates(m: map<Key, GenType>)
    ensures m[Key(Threefry2x32, 13) := Threefry(X2, W32, 13)][Key(Threefry2x32, 20) := Threefry(X2, W32, 20)]
             [Key(Threefry2x64, 13) := Threefry(X2, W64, 13)][Key(Threefry2x64, 20) := Threefry(X2, W64, 20)]
         == m + ThreefryX2()
  {}

  lemma ThreefryX4Updates(m: map<Key, GenType>)
    ensures m[Key(Threefry4x32, 13) := Threefry(X4, W32, 13)][Key(Threefry4x32, 20) := Threefry(X4, W32, 20)]
             [Key(Threefry4x64, 13) := Threefry(X4, W64, 13)][Key(Threefry4x64, 20) := Threefry(X4, W64, 20)]
         == m + ThreefryX4()
  {}

  lemma Philox32Updates(m: map<Key, GenType>)
    ensures m[Key(Philox2x32, 7) := Philox(X2, W32, 7)][Key(Philox2x32, 10) := Philox(X2, W32, 10)]
             [Key(Philox4x32, 7) := Philox(X4, W32, 7)][Key(Philox4x32, 10) := Philox(X4, W32, 10)]
         == m + Philox32()
  {}

  lemma Philox64Updates(m: map<Key, GenType>)
    ensures m[Key(Philox2x64, 7) := Philox(X2, W64, 7)][Key(Philox2x64, 10) := Philox(X2, W64, 10)]
             [Key(Philox4x64, 7) := Philox(X4, W64, 7)][Key(Philox4x64, 10) := Philox(X4, W64, 10)]
         == m + Philox64()
  {}

  lemma AesNiUpdates(m: map<Key, GenType>)
    ensures m[Key(Aesni4x32, 10) := AESNI4x32][Key(Ars4x32, 7) := ARS4x32(7)][Key(Ars4x32, 10) := ARS4x32(10)]
         == m + AesNi()
  {}

  /** Everything `host_execute_tests` registers under the given flags. */
  function Registrations(philox64: bool, aesni: bool): map<Key, GenType> {
    Unconditional()
    + (if philox64 then Philox64() else map[])
    + (if aesni then AesNi() else map[])
  }

  /** The unconditional registrations followed by the flagged groups add
      Registrations(philox64, aesni). */
  lemma RegistrationSteps(m0: map<Key, GenType>, m1: map<Key, GenType>, m2: map<Key, GenType>,
                          m3: map<Key, GenType>, philox64: bool, aesni: bool)
    requires m1 == m0 + Unconditional()
    requires m2 == if philox64 then m1 + Philox64() else m1
    requires m3 == if aesni then m2 + AesNi() else m2
    ensures m3 == m0 + Registrations(philox64, aesni)
  {
    var p := if philox64 then Philox64() else map[];
    var a := if aesni then AesNi() else map[];
    assert m2 == m1 + p;
    assert m3 == m2 + a;
    UnionAssoc(m0, Unconditional(), p);
    UnionAssoc(m0, Unconditional() + p, a);
  }

  /** Every routine in `m` tests the generator family and round count of
      the key it is registered under. */
  predicate BindsKeys(m: map<Key, GenType>) {
    forall k | k in m :: MethodOf(m[k]) == k.generator && Rounds(m[k]) == k.nrounds
  }

  /** The group of `host_execute_tests` that registers a family: two-word
      Threefry, four-word Threefry, 32-bit Philox, 64-bit Philox, AES-NI/ARS. */
  function GroupOf(g: Method): (n: nat)
    ensures n < 5
  {
    match g
    case Threefry2x32 | Threefry2x64 => 0
    case Threefry4x32 | Threefry4x64 => 1
    case Philox2x32 | Philox4x32 => 2
    case Philox2x64 | Philox4x64 => 3
    case Aesni4x32 | Ars4x32 => 4
  }

  /** Every key of `m` names a family of a group in lo .. hi-1. */
  predicate InGroups(m: map<Key, GenType>, lo: nat, hi: nat) {
    forall k | k in m :: lo <= GroupOf(k.generator) < hi
  }

  /** Two maps over consecutive ranges of groups: their keys are disjoint,
      their union keeps every entry of both, and its key count is the sum. */
  lemma UnionOfGroups(a: map<Key, GenType>, b: map<Key, GenType>, lo: nat, mid: nat, hi: nat)
    requires lo <= mid <= hi && InGroups(a, lo, mid) && InGroups(b, mid, hi)
    requires BindsKeys(a) && BindsKeys(b)
    ensures a.Keys !! b.Keys
    ensures |(a + b).Keys| == |a.Keys| + |b.Keys|
    ensures BindsKeys(a + b) && InGroups(a + b, lo, hi)
  {
    assert (a + b).Keys == a.Keys + b.Keys;
    forall k | k in a + b
      ensures MethodOf((a + b)[k]) == k.generator && Rounds((a + b)[k]) == k.nrounds
      ensures lo <= GroupOf(k.generator) < hi
    {
      if k in b {
        assert (a + b)[k] == b[k];
      } else {
        assert (a + b)[k] == a[k];
      }
    }
    assert a.Keys !! b.Keys by {
      forall k | k in a.Keys ensures k !in b.Keys {
        assert GroupOf(k.generator) < mid;
      }
    }
    DisjointUnionSize(a.Keys, b.Keys);
  }

  lemma DisjointUnionSize(s: set<Key>, t: set<Key>)
    requires s !! t
    ensures |s + t| == |s| + |t|
  {
    assert s * t == {};
  }

  /** Four keys for two round counts of two families are distinct. */
  lemma FourKeys(g1: Method, g2: Method, r1: nat, r2: nat)
    requires g1 != g2 && r1 != r2
    ensures |{Key(g1, r1), Key(g1, r2), Key(g2, r1), Key(g2, r2)}| == 4
  {}

  lemma ThreefryX2Facts()
    ensures |ThreefryX2().Keys| == 4 && BindsKeys(ThreefryX2())
    ensures InGroups(ThreefryX2(), 0, 1)
  {
    var m := ThreefryX2();
    assert m.Keys == {Key(Threefry2x32, 13), Key(Threefry2x32, 20), Key(Threefry2x64, 13), Key(Threefry2x64, 20)};
    FourKeys(Threefry2x32, Threefry2x64, 13, 20);
    forall k | k in m
      ensures MethodOf(m[k]) == k.generator && Rounds(m[k]) == k.nrounds && 0 <= GroupOf(k.generator) < 1
    {
      if k == Key(Threefry2x32, 13) {
      } else if k == Key(Threefry2x32, 20) {
      } else if k == Key(Threefry2x64, 13) {
      } else {
        assert k == Key(Threefry2x64, 20);
      }
    }
  }

  lemma ThreefryX4Facts()
    ensures |ThreefryX4().Keys| == 4 && BindsKeys(ThreefryX4())
    ensures InGroups(ThreefryX4(), 1, 2)
  {
    var m := ThreefryX4();
    assert m.Keys == {Key(Threefry4x32, 13), Key(Threefry4x32, 20), Key(Threefry4x64, 13), Key(Threefry4x64, 20)};
    FourKeys(Threefry4x32, Threefry4x64, 13, 20);
    forall k | k in m
      ensures MethodOf(m[k]) == k.generator && Rounds(m[k]) == k.nrounds && 1 <= GroupOf(k.generator) < 2
    {
      if k == Key(Threefry4x32, 13) {
      } else if k == Key(Threefry4x32, 20) {
      } else if k == Key(Threefry4x64, 13) {
      } else {
        assert k == Key(Threefry4x64, 20);
      }
    }
  }

  lemma Philox32Facts()
    ensures |Philox32().Keys| == 4 && BindsKeys(Philox32())
    ensures InGroups(Philox32(), 2, 3)
  {
    var m := Philox32();
    assert m.Keys == {Key(Philox2x32, 7), Key(Philox2x32, 10), Key(Philox4x32, 7), Key(Philox4x32, 10)};
    FourKeys(Philox2x32, Philox4x32, 7, 10);
    forall k | k in m
      ensures MethodOf(m[k]) == k.generator && Rounds(m[k]) == k.nrounds && 2 <= GroupOf(k.generator) < 3
    {
      if k == Key(Philox2x32, 7) {
      } else if k == Key(Philox2x32, 10) {
      } else if k == Key(Philox4x32, 7) {
      } else {
        assert k == Key(Philox4x32, 10);
      }
    }
  }

  lemma Philox64Facts()
    ensures |Philox64().Keys| == 4 && BindsKeys(Philox64())
    ensures InGroups(Philox64(), 3, 4)
  {
    var m := Philox64();
    assert m.Keys == {Key(Philox2x64, 7), Key(Philox2x64, 10), Key(Philox4x64, 7), Key(Philox4x64, 10)};
    FourKeys(Philox2x64, Philox4x64, 7, 10);
    forall k | k in m
      ensures MethodOf(m[k]) == k.generator && Rounds(m[k]) == k.nrounds && 3 <= GroupOf(k.generator) < 4
    {
      if k == Key(Philox2x64, 7) {
      } else if k == Key(Philox2x64, 10) {
      } else if k == Key(Philox4x64, 7) {
      } else {
        assert k == Key(Philox4x64, 10);
      }
    }
  }

  lemma AesNiFacts()
    ensures |AesNi().Keys| == 3 && BindsKeys(AesNi())
    ensures InGroups(AesNi(), 4, 5)
  {
    var m := AesNi();
    assert m.Keys == {Key(Aesni4x32, 10), Key(Ars4x32, 7), Key(Ars4x32, 10)};
    forall k | k in m
      ensures MethodOf(m[k]) == k.generator && Rounds(m[k]) == k.nrounds && 4 <= GroupOf(k.generator) < 5
    {
      if k == Key(Aesni4x32, 10) {
      } else if k == Key(Ars4x32, 7) {
      } else {
        assert k == Key(Ars4x32, 10);
      }
    }
  }

  lemma UnconditionalFacts()
    ensures |Unconditional().Keys| == 12 && BindsKeys(Unconditional()) && InGroups(Unconditional(), 0, 3)
  {
    ThreefryX2Facts();
    ThreefryX4Facts();
    Philox32Facts();
    UnionOfGroups(ThreefryX2(), ThreefryX4(), 0, 1, 2);
    UnionOfGroups(ThreefryX2() + ThreefryX4(), Philox32(), 0, 2, 3);
  }

  /** The flagged groups as registered under the given flags. */
  lemma FlaggedFacts(philox64: bool, aesni: bool)
    ensures var p := if philox64 then Philox64() else map[];
            var a := if aesni then AesNi() else map[];
            && |p.Keys| == (if philox64 then 4 else 0) && BindsKeys(p) && InGroups(p, 3, 4)
            && |a.Keys| == (if aesni then 3 else 0) && BindsKeys(a) && InGroups(a, 4, 5)
  {
    Philox64Facts();
    AesNiFacts();
  }

  /** The unconditional registrations, the Philox 64-bit ones and the
      AES-NI/ARS ones use disjoint keys, so no registration overwrites
      another, and every key is bound to a routine for that key. */
  lemma RegistrationFacts(philox64: bool, aesni: bool)
    ensures |Registrations(philox64, aesni).Keys| == 12 + (if philox64 then 4 else 0) + (if aesni then 3 else 0)
    ensures BindsKeys(Registrations(philox64, aesni))
  {
    var p := if philox64 then Philox64() else map[];
    var a := if aesni then AesNi() else map[];
    UnconditionalFacts();
    FlaggedFacts(philox64, aesni);
    UnionOfGroups(Unconditional(), p, 0, 3, 4);
    UnionOfGroups(Unconditional() + p, a, 0, 4, 5);
  }

  /** Every registered routine tests the very generator family and round
      count of the key it is registered under. */
  lemma RegistrationsBindTheirKey(philox64: bool, aesni: bool)
    ensures forall k | k in Registrations(philox64, aesni) ::
              MethodOf(Registrations(philox64, aesni)[k]) == k.generator
              && Rounds(Registrations(philox64, aesni)[k]) == k.nrounds
  {
    RegistrationFacts(philox64, aesni);
  }

  /** Twelve unconditional registrations, plus four when the Philox 64-bit
      ones are compiled in and three when the AES-NI/ARS ones are: no two
      registrations share a key. */
  lemma RegistrationCount(philox64: bool, aesni: bool)
    ensures |Registrations(philox64, aesni)| == 12 + (if philox64 then 4 else 0) + (if aesni then 3 else 0)
  {
    RegistrationFacts(philox64, aesni);
  }

  /** A flag-dependent pair is registered exactly when its flag is set; the
      unconditional pairs always are. */
  lemma FlagsGateRegistrations(philox64: bool, aesni: bool)
    ensures Unconditional().Keys <= Registrations(philox64, aesni).Keys
    ensures forall k | k in Philox64() :: k in Registrations(philox64, aesni) <==> philox64
    ensures forall k | k in AesNi() :: k in Registrations(philox64, aesni) <==> aesni
  {
    UnconditionalFacts();
    Philox64Facts();
    AesNiFacts();
  }
}
