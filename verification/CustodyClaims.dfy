/** When rotation is crash-atomic, exactly: what a marker left from an earlier failure can do. */
module CustodyClaims {
  import opened Bytes
  import opened CustodyModel
  import opened CustodyRuns
  import opened CustodyRotation

  // ---- when a marker was about to retire the old identity ----------------------------------------

  predicate ConcernsOnly(a: Action, h: Handle) {
    match a
    case Reserve => true
    case Mark(m) => m.handle == h
    case Create(x, _) => x == h
    case Destroy(x) => x == h
    case Clear(x) => x == h
    case _ => false
  }

  lemma {:induction false} ConcernsOnlyKeeps(d: Disk, p: seq<Action>, h: Handle, x: Handle)
    requires (forall i :: 0 <= i < |p| ==> ConcernsOnly(p[i], h)) && x != h && x in d.pending
    ensures var d' := Run(d, p);
            x in d'.pending && d'.pending[x] == d.pending[x] && d'.records == d.records
    decreases |p|
  {
    if p != [] {
      assert ConcernsOnly(p[0], h);
      ConcernsOnlyKeeps(Apply(d, p[0]), p[1..], h, x);
    }
  }

  lemma UnsavedConcernsOnly(r: Rotation, k: nat, i: nat)
    requires r.prior in r.d0.records && i < k <= |PlanOf(r)| && !Saves(r, k)
    ensures ConcernsOnly(PlanOf(r)[i], r.h)
  {
    hide LoadError, MatchError;
  }

  lemma ListedCons(pending: map<Handle, Marker>, x: Handle, tail: seq<Marker>)
    requires x in pending && pending[x].handle == x
    requires Listed(tail, pending - {x}) && Handles(tail) == pending.Keys - {x}
    ensures Listed([pending[x]] + tail, pending) && Handles([pending[x]] + tail) == pending.Keys
  {
    var ms := [pending[x]] + tail;
    assert forall m :: m in tail ==> m.handle in Handles(tail);
    assert forall i :: 0 <= i < |tail| ==> tail[i].handle in Handles(tail);
    assert Handles(ms) == Handles(tail) + {x};
  }

  /** The markers in some order, the one of `x` first. */
  lemma {:induction false} ListFrom(pending: map<Handle, Marker>, x: Handle) returns (ms: seq<Marker>)
    requires x in pending && forall h :: h in pending ==> pending[h].handle == h
    ensures Listed(ms, pending) && Handles(ms) == pending.Keys && ms != [] && ms[0] == pending[x]
    decreases |pending|
  {
    hide Listed, Handles;
    var rest := pending - {x};
    var tail := [];
    if rest == map[] {
      NothingListed(rest);
    } else {
      assert pending.Keys == rest.Keys + {x};
      var y :| y in rest;
      tail := ListFrom(rest, y);
    }
    ListedCons(pending, x, tail);
    ms := [pending[x]] + tail;
  }

  lemma NothingListed(pending: map<Handle, Marker>)
    requires pending == map[]
    ensures Listed([], pending) && Handles([]) == pending.Keys
  {
  }

  lemma {:induction false} RemovalsShrink(d: Disk, p: seq<Action>, h: Handle)
    requires forall i :: 0 <= i < |p| ==> Removal(p[i])
    ensures h in Run(d, p).keys ==> h in d.keys
    ensures h in Run(d, p).records ==> h in d.records
    decreases |p|
  {
    if p != [] {
      assert Removal(p[0]);
      RemovalsShrink(Apply(d, p[0]), p[1..], h);
    }
  }

  lemma ReconcileShrinks(d: Disk, ms: seq<Marker>, h: Handle)
    ensures var d' := Run(d, ReconcilePlan(d, ms));
            (h in d'.keys ==> h in d.keys) && (h in d'.records ==> h in d.records)
  {
    hide ReconcilePlan, Run, Removal;
    ReconcileRemoves(d, ms);
    RemovalsShrink(d, ReconcilePlan(d, ms), h);
  }

  /** Settling the marker of `x` first retires what it supersedes, for good. */
  lemma FirstMarkerRetires(d: Disk, ms: seq<Marker>, retired: Handle)
    requires ms != [] && ms[0].handle in d.records && ms[0].supersedes == Some(retired)
    ensures var d' := Run(d, ReconcilePlan(d, ms)); retired !in d'.keys && retired !in d'.records
  {
    var p := MarkerPlan(d, ms[0]);
    var d1 := Run(d, p);
    assert retired !in d1.keys && retired !in d1.records by {
      hide ReconcilePlan, Run;
      RunNext(d, p, 0);
      RunNext(d, p, 1);
      RunNext(d, p, 2);
      assert p[..0] == [] && p[..3] == p;
      GuardedNothing(d);
    }
    RunConcat(d, p, ReconcilePlan(d1, ms[1..]));
    ReconcileShrinks(d1, ms[1..], retired);
  }

  /**
    A marker from before that has its record and supersedes the old identity: a rotation that stops
    before its own record is saved can be recovered to neither identity.
  */
  lemma ClaimedLosesBoth(r: Rotation, k: nat, x: Handle) returns (ms: seq<Marker>)
    requires CanRotate(r) && x in r.d0.pending && x in r.d0.records && r.d0.pending[x].supersedes == Some(r.prior)
    requires k <= |PlanOf(r)| && !Saves(r, k)
    ensures Recovers(r, k, [], ms)
    ensures var d' := Outcome(r, k, [], ms);
            r.prior !in d'.keys && r.prior !in d'.records && r.h !in d'.keys && r.h !in d'.records
  {
    var p := PlanOf(r)[..k];
    var d := Run(r.d0, p);
    assert x != r.h by { hide Sound; }
    forall i | 0 <= i < |p| ensures ConcernsOnly(p[i], r.h) {
      UnsavedConcernsOnly(r, k, i);
    }
    hide Unused, PlanOf, Run, ReconcilePlan, Guarded, Saves, Listed, Handles, ConcernsOnly, Numbered, Lineage;
    ConcernsOnlyKeeps(r.d0, p, r.h, x);
    RotateStaysSound(r, k);
    StagesMidway(r, k);
    ms := ListFrom(d.pending, x);
    FirstMarkerRetires(d, ms, r.prior);
    ReconcileSettles(d, ms);
    ReconcileShrinks(d, ms, r.h);
    assert r.h !in d.records by { UnsavedHasNoRecord(r, d); }
  }

  lemma UnsavedHasNoRecord(r: Rotation, d: Disk)
    requires CanRotate(r) && Midway(r, d, false)
    ensures r.h !in d.records
  {
    hide Sound;
  }

  /** Crash-atomic exactly when no marker that has its record supersedes the identity being rotated. */
  lemma AtomicExactly(r: Rotation)
    requires CanRotate(r)
    ensures (forall k, deaths, ms ::
               Recovers(r, k, deaths, ms) ==> ExactlyOne(r, Outcome(r, k, deaths, ms), Saves(r, k)))
            <==> Spared(r.d0, r.prior)
  {
    hide Recovers, Outcome, Sound, Saves, Unused;
    if Spared(r.d0, r.prior) {
      forall k, deaths, ms | Recovers(r, k, deaths, ms) ensures ExactlyOne(r, Outcome(r, k, deaths, ms), Saves(r, k)) {
        RotationIsCrashAtomic(r, k, deaths, ms);
      }
    } else {
      var x :| x in r.d0.pending && x in r.d0.records && r.d0.pending[x].supersedes == Some(r.prior);
      NothingSavedYet(r);
      var ms := ClaimedLosesBoth(r, 0, x);
      assert !ExactlyOne(r, Outcome(r, 0, [], ms), Saves(r, 0));
    }
  }

  lemma NothingSavedYet(r: Rotation)
    requires r.prior in r.d0.records
    ensures !Saves(r, 0)
  {
  }

  // ---- such a marker can be there ---------------------------------------------------------------------

  const FIRST: Handle := [1]
  const SECOND: Handle := [2]
  const THIRD: Handle := [3]
  const TEE_KEY := Key([], Report(OS_PROTECTED, UNATTENDED, Tee, "tee"))
  const TEE := Settings("tee", false)
  const ANY := Policy(ORIGIN_PROTECTED, true)

  /** A `generate` that completes. */
  const GENERATED := Attempt(TEE, Generate(1, ANY, FIRST, TEE_KEY), [], 5, false)

  /** A rotation whose destruction of the old key fails without effect: the provider lives on. */
  const HALF_ROTATED := Attempt(TEE, Rotate(FIRST, SECOND, TEE_KEY), [], 4, false)

  function AfterGenerate(): (d: Disk) {
    Disk(map[FIRST := TEE_KEY], map[FIRST := RecordOf(FIRST, 1, TEE_KEY, 1)], map[], 1, [1], map[1 := FIRST],
         map[FIRST := Admission(FIRST, 1, TEE_KEY.report, ANY, TEE)])
  }

  function AfterHalfRotation(): (d: Disk) {
    Disk(map[FIRST := TEE_KEY, SECOND := TEE_KEY],
         map[FIRST := RecordOf(FIRST, 1, TEE_KEY, 1), SECOND := RecordOf(SECOND, 1, TEE_KEY, 2)],
         map[SECOND := Marker(SECOND, 2, Some(FIRST))], 2, [1, 2], map[1 := FIRST, 2 := SECOND],
         map[FIRST := Admission(FIRST, 1, TEE_KEY.report, ANY, TEE),
             SECOND := Admission(FIRST, 1, TEE_KEY.report, ANY, TEE)])
  }

  lemma RunFour(d: Disk, p: seq<Action>)
    requires |p| >= 4
    ensures Run(d, p[..4]) == Apply(Apply(Apply(Apply(d, p[0]), p[1]), p[2]), p[3])
  {
    hide Run, Apply;
    assert p[..0] == [];
    GuardedNothing(d);
    RunNext(d, p, 0);
    RunNext(d, p, 1);
    RunNext(d, p, 2);
    RunNext(d, p, 3);
  }

  function GenerateActions(): (p: seq<Action>) {
    [Reserve, Mark(Marker(FIRST, 1, None)), Create(FIRST, TEE_KEY),
     SaveFirst(RecordOf(FIRST, 1, TEE_KEY, 1), ANY, TEE), Clear(FIRST)]
  }

  lemma GeneratePlanIs()
    ensures FullPlan(INSTALLED, TEE, GENERATED.r, []) == GenerateActions()
  {
    assert PolicyError(TEE_KEY.report, ANY, TEE).None?;
  }

  lemma GenerateRuns()
    ensures Run(BLANK, GenerateActions()[..5]) == AfterGenerate()
  {
    var p := GenerateActions();
    RunFour(BLANK, p);
    RunNext(BLANK, p, 4);
    hide Run;
    var d2 := Apply(Apply(BLANK, p[0]), p[1]);
    var d4 := Apply(Apply(d2, p[2]), p[3]);
    assert d2 == BLANK.(highWater := 1, issued := [1], pending := map[FIRST := p[1].m], owner := map[1 := FIRST]);
    assert Apply(d4, p[4]) == AfterGenerate();
  }

  lemma GenerateCompletes()
    ensures Possible(INSTALLED, GENERATED) && After(INSTALLED, GENERATED) == Service(AfterGenerate(), true)
  {
    GeneratePlanIs();
    GenerateRuns();
    assert Cleanup(INSTALLED, []) == [];
    hide Run, FullPlan, Cleanup, AfterGenerate;
  }

  function RotateActions(): (p: seq<Action>) {
    [Reserve, Mark(Marker(SECOND, 2, Some(FIRST))), Create(SECOND, TEE_KEY),
     SaveNext(RecordOf(SECOND, 1, TEE_KEY, 2), FIRST), Destroy(FIRST), Delete(FIRST), Clear(SECOND)]
  }

  lemma RotatePlanIs()
    ensures FullPlan(Service(AfterGenerate(), true), TEE, HALF_ROTATED.r, []) == RotateActions()
  {
    var d := AfterGenerate();
    assert LoadError(d.records, FIRST, TEE).None? && MatchError(TEE_KEY.report, d.records[FIRST].report, TEE).None?;
    assert Run(d, []) == d;
  }

  lemma RotateRuns()
    ensures Run(AfterGenerate(), RotateActions()[..4]) == AfterHalfRotation()
  {
    var d, p := AfterGenerate(), RotateActions();
    RunFour(d, p);
    hide Run;
    assert FIRST[0] == 1 && SECOND[0] == 2;
    var d2 := Apply(Apply(d, p[0]), p[1]);
    assert d2 == d.(highWater := 2, issued := [1, 2], pending := map[SECOND := p[1].m],
                    owner := map[1 := FIRST, 2 := SECOND]);
    assert Apply(Apply(d2, p[2]), p[3]) == AfterHalfRotation();
  }

  lemma HalfRotates()
    ensures var v := Service(AfterGenerate(), true);
            Possible(v, HALF_ROTATED) && After(v, HALF_ROTATED) == Service(AfterHalfRotation(), true)
  {
    RotatePlanIs();
    RotateRuns();
    assert FIRST[0] == 1 && SECOND[0] == 2;
    assert Unused(AfterGenerate(), SECOND);
    hide Run, FullPlan, AfterHalfRotation, Unused;
  }

  lemma RunOfBoth()
    ensures var es := [GENERATED, HALF_ROTATED];
            Happens(INSTALLED, es) && Reached(INSTALLED, es) == Service(AfterHalfRotation(), true)
  {
    GenerateCompletes();
    HalfRotates();
    hide Possible, After, AfterGenerate, AfterHalfRotation;
    var es := [GENERATED, HALF_ROTATED];
    assert es[1..] == [HALF_ROTATED] && [HALF_ROTATED][1..] == [];
    var v1, v2 := Service(AfterGenerate(), true), Service(AfterHalfRotation(), true);
    assert Happens(v2, []) && Reached(v2, []) == v2;
    assert Happens(v1, [HALF_ROTATED]) && Reached(v1, [HALF_ROTATED]) == v2;
  }

  lemma OldIsClaimed()
    ensures var d := AfterHalfRotation();
            && FIRST in d.keys && FIRST in d.records && Unused(d, THIRD)
            && SECOND in d.pending && SECOND in d.records && d.pending[SECOND].supersedes == Some(FIRST)
  {
    assert FIRST[0] == 1 && SECOND[0] == 2 && THIRD[0] == 3;
  }

  /**
    A generate, then a rotation whose last destroy fails: both identities are there and the provider
    goes on. Rotating the old one again and dying before the save can lose it and the new one.
  */
  lemma EarlierFailureLosesBoth() returns (ms: seq<Marker>)
    ensures var es := [GENERATED, HALF_ROTATED];
            && Happens(INSTALLED, es) && Reached(INSTALLED, es).reconciled
            && var r := Rotation(Reached(INSTALLED, es).disk, TEE, FIRST, THIRD, TEE_KEY);
               && CanRotate(r) && !Spared(r.d0, r.prior) && Recovers(r, 3, [], ms)
               && var d' := Outcome(r, 3, [], ms);
                  r.prior !in d'.keys && r.prior !in d'.records && r.h !in d'.keys && r.h !in d'.records
  {
    var r := Rotation(AfterHalfRotation(), TEE, FIRST, THIRD, TEE_KEY);
    PlanReachesThree(r);
    hide Happens, Reached, Sound, Recovers, Outcome, AfterHalfRotation, Unused, PlanOf, Saves;
    RunOfBoth();
    InstalledSound();
    RunKeepsSound(INSTALLED, [GENERATED, HALF_ROTATED]);
    OldIsClaimed();
    ms := ClaimedLosesBoth(r, 3, SECOND);
  }

  lemma PlanReachesThree(r: Rotation)
    requires r.d0 == AfterHalfRotation() && r.s == TEE && r.prior == FIRST && r.key == TEE_KEY
    ensures |PlanOf(r)| >= 3 && !Saves(r, 3)
  {
  }
}
