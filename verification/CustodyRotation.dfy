/** A rotation that dies anywhere, and dies again while recovering, leaves exactly one identity. */
module CustodyRotation {
  import opened Bytes
  import opened CustodyModel
  import opened CustodyRuns

  /** No pending marker that has its record supersedes `h`: no recovery is about to retire it. */
  predicate Spared(d: Disk, h: Handle) {
    forall m :: m in d.pending && m in d.records ==> d.pending[m].supersedes != Some(h)
  }

  datatype Rotation = Rotation(d0: Disk, s: Settings, prior: Handle, h: Handle, key: Key)

  /** An identity with key and record, and a fresh handle. */
  predicate CanRotate(r: Rotation) {
    && Sound(r.d0) && Unused(r.d0, r.h)
    && r.prior in r.d0.keys && r.prior in r.d0.records
  }

  predicate Secure(r: Rotation) {
    CanRotate(r) && Spared(r.d0, r.prior)
  }

  function PlanOf(r: Rotation): (p: seq<Action>) {
    RotatePlan(r.d0, r.s, r.prior, r.h, r.key)
  }

  /** Whether the first `k` actions include the one that saves the new record. */
  predicate Saves(r: Rotation, k: nat)
    requires r.prior in r.d0.records
  {
    LoadError(r.d0.records, r.prior, r.s).None?
        && MatchError(r.key.report, r.d0.records[r.prior].report, r.s).None? && k >= 4
  }

  function NewMarker(r: Rotation): (m: Marker) {
    Marker(r.h, r.d0.highWater + 1, Some(r.prior))
  }

  function NewRecord(r: Rotation): (rec: Record)
    requires r.prior in r.d0.records
  {
    RecordOf(r.h, r.d0.records[r.prior].kind, r.key, r.d0.highWater + 1)
  }

  // ---- what holds from the first action to the end of recovery ---------------------------------

  /** An identity that neither this rotation nor a marker left from before is about to retire. */
  predicate Bystander(r: Rotation, k: Handle) {
    k in r.d0.records && k != r.prior && Spared(r.d0, k)
  }

  ghost predicate OthersKept(r: Rotation, d: Disk) {
    && (forall k :: k in d.records ==> k in r.d0.records || k == r.h)
    && (forall k :: Bystander(r, k) ==> k in d.records && d.records[k] == r.d0.records[k])
    && (forall k :: Bystander(r, k) && k in r.d0.keys ==> k in d.keys && d.keys[k] == r.d0.keys[k])
    && (forall k :: k in d.pending ==> if k == r.h then d.pending[k] == NewMarker(r)
                                       else k in r.d0.pending && d.pending[k] == r.d0.pending[k])
  }

  predicate OldStands(r: Rotation, d: Disk)
    requires CanRotate(r)
  {
    && r.prior in d.records && d.records[r.prior] == r.d0.records[r.prior]
    && r.prior in d.keys && d.keys[r.prior] == r.d0.keys[r.prior]
    && r.h !in d.records && (r.h in d.keys ==> r.h in d.pending)
  }

  predicate NewStands(r: Rotation, d: Disk)
    requires CanRotate(r)
  {
    && r.h in d.records && d.records[r.h] == NewRecord(r)
    && r.h in d.keys && d.keys[r.h] == r.key
    && (r.prior in d.keys ==> r.prior in d.records)
    && (r.prior in d.records ==> r.h in d.pending)
  }

  ghost predicate Midway(r: Rotation, d: Disk, saved: bool)
    requires CanRotate(r)
  {
    OthersKept(r, d) && if saved then NewStands(r, d) else OldStands(r, d)
  }

  lemma StartIsMidway(r: Rotation)
    requires CanRotate(r)
    ensures Midway(r, r.d0, false)
  {
    hide Numbered, Lineage;
  }

  /** Actions that leave the outcome of a rotation as it stands. */
  predicate Fits(r: Rotation, d: Disk, saved: bool, a: Action) {
    match a
    case Reserve => true
    case Mark(m) => m == NewMarker(r)
    case Create(h, key) => h == r.h && key == r.key && h in d.pending
    case Destroy(x) => if x == r.h then !saved else if x == r.prior then saved else !Bystander(r, x)
    case Delete(x) => x != r.h && if x == r.prior then saved && x !in d.keys else !Bystander(r, x)
    case Clear(x) => x == r.h ==> if saved then r.prior !in d.records else x !in d.keys
    case _ => false
  }

  lemma ActionKeepsOthers(r: Rotation, d: Disk, saved: bool, a: Action)
    requires CanRotate(r) && OthersKept(r, d) && Fits(r, d, saved, a)
    ensures OthersKept(r, Apply(d, a))
  {
    hide Sound, Spared;
  }

  lemma ActionKeepsOld(r: Rotation, d: Disk, a: Action)
    requires CanRotate(r) && Fits(r, d, false, a) && OldStands(r, d)
    ensures OldStands(r, Apply(d, a))
  {
    PriorIsNotNew(r);
    hide Sound, Unused, Bystander;
  }

  lemma ActionKeepsNew(r: Rotation, d: Disk, a: Action)
    requires CanRotate(r) && Fits(r, d, true, a) && NewStands(r, d)
    ensures NewStands(r, Apply(d, a))
  {
    PriorIsNotNew(r);
    hide Sound, Unused, Bystander;
  }

  lemma ActionKeepsMidway(r: Rotation, d: Disk, saved: bool, a: Action)
    requires CanRotate(r) && Midway(r, d, saved) && Fits(r, d, saved, a)
    ensures Midway(r, Apply(d, a), saved)
  {
    hide CanRotate, OthersKept, NewStands, OldStands, Fits, Apply;
    ActionKeepsOthers(r, d, saved, a);
    if saved {
      ActionKeepsNew(r, d, a);
    } else {
      ActionKeepsOld(r, d, a);
    }
  }

  lemma SaveMakesNewStand(r: Rotation, d: Disk)
    requires CanRotate(r) && Midway(r, d, false) && r.h in d.pending && r.h in d.keys && d.keys[r.h] == r.key
    ensures Midway(r, Apply(d, SaveNext(NewRecord(r), r.prior)), true)
  {
    hide Sound, Spared;
    var d' := Apply(d, SaveNext(NewRecord(r), r.prior));
    assert NewStands(r, d');
    assert OthersKept(r, d');
  }

  // ---- an uninterrupted rotation, action by action ------------------------------------------

  lemma StagesMidway(r: Rotation, k: nat)
    requires CanRotate(r) && k <= |PlanOf(r)|
    ensures Midway(r, Run(r.d0, PlanOf(r)[..k]), Saves(r, k))
  {
    hide CanRotate, LoadError, MatchError, Midway, Run;
    var p := PlanOf(r);
    StartIsMidway(r);
    assert p[..0] == [];
    assert Run(r.d0, []) == r.d0 by { GuardedNothing(r.d0); }
    if k > 0 {
      var d1 := Apply(r.d0, Reserve);
      ActionKeepsMidway(r, r.d0, false, Reserve);
      RunNext(r.d0, p, 0);
      if k > 1 {
        var d2 := Apply(d1, Mark(NewMarker(r)));
        ActionKeepsMidway(r, d1, false, Mark(NewMarker(r)));
        RunNext(r.d0, p, 1);
        if k > 2 {
          ActionKeepsMidway(r, d2, false, Create(r.h, r.key));
          RunNext(r.d0, p, 2);
          if k > 3 {
            LateStages(r, Apply(d2, Create(r.h, r.key)), k);
          }
        }
      }
    }
  }

  lemma LateStages(r: Rotation, d3: Disk, k: nat)
    requires CanRotate(r) && 3 < k <= |PlanOf(r)|
    requires d3 == Run(r.d0, PlanOf(r)[..3]) && Midway(r, d3, false)
    requires r.h in d3.pending && r.h in d3.keys && d3.keys[r.h] == r.key
    ensures Midway(r, Run(r.d0, PlanOf(r)[..k]), Saves(r, k))
  {
    hide CanRotate, LoadError, MatchError, Midway, Run;
    var p := PlanOf(r);
    RunNext(r.d0, p, 3);
    if MatchError(r.key.report, r.d0.records[r.prior].report, r.s).Some? {
      ActionKeepsMidway(r, d3, false, Destroy(r.h));
      if k > 4 {
        RunNext(r.d0, p, 4);
        ActionKeepsMidway(r, Apply(d3, Destroy(r.h)), false, Clear(r.h));
      }
    } else {
      SaveMakesNewStand(r, d3);
      var d4 := Apply(d3, SaveNext(NewRecord(r), r.prior));
      assert r.prior != r.h by { PriorIsNotNew(r); }
      if k > 4 {
        RunNext(r.d0, p, 4);
        ActionKeepsMidway(r, d4, true, Destroy(r.prior));
        var d5 := Apply(d4, Destroy(r.prior));
        if k > 5 {
          RunNext(r.d0, p, 5);
          ActionKeepsMidway(r, d5, true, Delete(r.prior));
          if k > 6 {
            RunNext(r.d0, p, 6);
            ActionKeepsMidway(r, Apply(d5, Delete(r.prior)), true, Clear(r.h));
          }
        }
      }
    }
  }

  lemma PriorIsNotNew(r: Rotation)
    requires CanRotate(r)
    ensures r.prior != r.h
  {
    hide Sound;
  }

  // ---- recovery --------------------------------------------------------------------------------

  function MarkerStage(d: Disk, m: Marker, i: nat): (d': Disk)
    requires i <= |MarkerPlan(d, m)|
  {
    var p := MarkerPlan(d, m);
    if i == 0 then d else Apply(MarkerStage(d, m, i - 1), p[i - 1])
  }

  lemma {:induction false} RunIsMarkerStage(d: Disk, m: Marker, i: nat)
    requires i <= |MarkerPlan(d, m)|
    ensures Run(d, MarkerPlan(d, m)[..i]) == MarkerStage(d, m, i)
    decreases i
  {
    hide Apply, MarkerPlan;
    if i == 0 {
      assert MarkerPlan(d, m)[..0] == [];
    } else {
      RunIsMarkerStage(d, m, i - 1);
      RunNext(d, MarkerPlan(d, m), i - 1);
    }
  }

  /** Every action of settling one marker fits, seen from the disk it is applied to. */
  lemma MarkerFits(r: Rotation, d: Disk, saved: bool, m: Marker, i: nat)
    requires Secure(r) && Midway(r, d, saved)
    requires m.handle in d.pending && d.pending[m.handle] == m && i < |MarkerPlan(d, m)|
    ensures Fits(r, MarkerStage(d, m, i), saved, MarkerPlan(d, m)[i])
  {
    hide Sound;
    PriorIsNotNew(r);
  }

  lemma {:induction false} MarkerKeepsMidway(r: Rotation, d: Disk, saved: bool, m: Marker, j: nat)
    requires Secure(r) && Midway(r, d, saved)
    requires m.handle in d.pending && d.pending[m.handle] == m && j <= |MarkerPlan(d, m)|
    ensures Midway(r, Run(d, MarkerPlan(d, m)[..j]), saved)
    decreases j
  {
    hide Sound, Midway, MarkerPlan, Run, Fits, Apply, Spared, Unused;
    var p := MarkerPlan(d, m);
    if j == 0 {
      assert p[..0] == [];
      GuardedNothing(d);
    } else {
      MarkerKeepsMidway(r, d, saved, m, j - 1);
      RunIsMarkerStage(d, m, j - 1);
      MarkerFits(r, d, saved, m, j - 1);
      ActionKeepsMidway(r, Run(d, p[..j - 1]), saved, p[j - 1]);
      RunNext(d, p, j - 1);
    }
  }

  lemma {:induction false} ReconcileKeepsMidway(r: Rotation, d: Disk, saved: bool, ms: seq<Marker>, j: nat)
    requires Secure(r) && Midway(r, d, saved) && Sound(d) && Listed(ms, d.pending) && j <= |ReconcilePlan(d, ms)|
    ensures Midway(r, Run(d, ReconcilePlan(d, ms)[..j]), saved)
    decreases |ms|
  {
    hide Secure, Midway, Sound, MarkerPlan, Run, Guarded;
    var all := ReconcilePlan(d, ms);
    if ms == [] {
      assert all[..j] == [];
      GuardedNothing(d);
    } else {
      var p := MarkerPlan(d, ms[0]);
      var d1 := Run(d, p);
      var rest := ReconcilePlan(d1, ms[1..]);
      if j <= |p| {
        assert all[..j] == p[..j];
        MarkerKeepsMidway(r, d, saved, ms[0], j);
      } else {
        assert p[..|p|] == p;
        MarkerKeepsMidway(r, d, saved, ms[0], |p|);
        MarkerPlanGuarded(d, ms[0]);
        GuardedKeepsSound(d, p, |p|);
        ReconcileKeepsMidway(r, d1, saved, ms[1..], j - |p|);
        assert all[..j] == p + rest[..j - |p|];
        RunConcat(d, p, rest[..j - |p|]);
      }
    }
  }

  /** A recovery that dies after some of its actions; the next one starts over. */
  datatype Death = Death(ms: seq<Marker>, k: nat)

  predicate Dies(d: Disk, deaths: seq<Death>)
    decreases |deaths|
  {
    deaths == []
    || (Listed(deaths[0].ms, d.pending) && deaths[0].k <= |ReconcilePlan(d, deaths[0].ms)|
        && Dies(Run(d, ReconcilePlan(d, deaths[0].ms)[..deaths[0].k]), deaths[1..]))
  }

  function Left(d: Disk, deaths: seq<Death>): (d': Disk)
    requires Dies(d, deaths)
    decreases |deaths|
  {
    if deaths == [] then d else Left(Run(d, ReconcilePlan(d, deaths[0].ms)[..deaths[0].k]), deaths[1..])
  }

  lemma {:induction false} DeathsKeepMidway(r: Rotation, d: Disk, saved: bool, deaths: seq<Death>)
    requires Secure(r) && Midway(r, d, saved) && Sound(d) && Dies(d, deaths)
    ensures Midway(r, Left(d, deaths), saved) && Sound(Left(d, deaths))
    decreases |deaths|
  {
    hide Secure, Midway, Sound, ReconcilePlan, Run, Listed, Guarded;
    if deaths != [] {
      var p := ReconcilePlan(d, deaths[0].ms);
      ReconcileKeepsMidway(r, d, saved, deaths[0].ms, deaths[0].k);
      ReconcilePlanGuarded(d, deaths[0].ms);
      GuardedKeepsSound(d, p, deaths[0].k);
      DeathsKeepMidway(r, Run(d, p[..deaths[0].k]), saved, deaths[1..]);
    }
  }

  /** Exactly one of the two identities, whole, and the other gone without a trace. */
  predicate ExactlyOne(r: Rotation, d: Disk, saved: bool)
    requires CanRotate(r)
  {
    if saved then
      && r.h in d.keys && d.keys[r.h] == r.key && r.h in d.records && d.records[r.h] == NewRecord(r)
      && r.prior !in d.keys && r.prior !in d.records
    else
      && r.prior in d.keys && d.keys[r.prior] == r.d0.keys[r.prior]
      && r.prior in d.records && d.records[r.prior] == r.d0.records[r.prior]
      && r.h !in d.keys && r.h !in d.records
  }

  /** Every identity that no marker was about to retire is as it was. */
  ghost predicate OthersStand(r: Rotation, d: Disk) {
    forall k :: Bystander(r, k) ==>
      && k in d.records && d.records[k] == r.d0.records[k]
      && (k in r.d0.keys ==> k in d.keys && d.keys[k] == r.d0.keys[k])
  }

  /** The rotation stops after `k` actions, recovery dies as `deaths` say, and then settles `ms`, all that is left. */
  predicate Recovers(r: Rotation, k: nat, deaths: seq<Death>, ms: seq<Marker>) {
    && k <= |PlanOf(r)| && Dies(Run(r.d0, PlanOf(r)[..k]), deaths)
    && var d := Left(Run(r.d0, PlanOf(r)[..k]), deaths);
       Listed(ms, d.pending) && Handles(ms) == d.pending.Keys
  }

  function Outcome(r: Rotation, k: nat, deaths: seq<Death>, ms: seq<Marker>): (d': Disk)
    requires Recovers(r, k, deaths, ms)
  {
    var d := Left(Run(r.d0, PlanOf(r)[..k]), deaths);
    Run(d, ReconcilePlan(d, ms))
  }

  /**
    The rotation stops after any number of actions, recovery dies any number of times, and then
    completes: the new identity stands if its record was saved, else the old one does, and never
    both or neither.
  */
  lemma RotationIsCrashAtomic(r: Rotation, k: nat, deaths: seq<Death>, ms: seq<Marker>)
    requires Secure(r) && Recovers(r, k, deaths, ms)
    ensures var d' := Outcome(r, k, deaths, ms);
            ExactlyOne(r, d', Saves(r, k)) && OthersStand(r, d') && d'.pending == map[]
  {
    hide Sound, PlanOf, Run, ReconcilePlan, Dies, Left, Guarded, Saves, Listed, Handles, RotatePlan, Bystander;
    var d1 := Run(r.d0, PlanOf(r)[..k]);
    StagesMidway(r, k);
    RotateStaysSound(r, k);
    DeathsKeepMidway(r, d1, Saves(r, k), deaths);
    var d := Left(d1, deaths);
    var p := ReconcilePlan(d, ms);
    ReconcileKeepsMidway(r, d, Saves(r, k), ms, |p|);
    assert p[..|p|] == p;
    ReconcileSettles(d, ms);
  }

  lemma RotateStaysSound(r: Rotation, k: nat)
    requires CanRotate(r) && k <= |PlanOf(r)|
    ensures Sound(Run(r.d0, PlanOf(r)[..k]))
  {
    hide Sound, Run, Guarded, RotatePlan, Unused;
    RotatePlanGuarded(r.d0, r.s, r.prior, r.h, r.key);
    GuardedKeepsSound(r.d0, PlanOf(r), k);
  }

  // ---- runs in which calls succeed or the process dies ------------------------------------------

  /** No pending marker has its record: what a provider that never saw a failed call leaves behind. */
  predicate Orphans(d: Disk) {
    forall h :: h in d.pending ==> h !in d.records
  }

  /** The attempt ran to the end of its plan, or a restart follows. */
  predicate Uninterrupted(v: Service, e: Event)
    requires Possible(v, e)
  {
    e.Attempt? ==> e.restart || e.k == |FullPlan(v, e.s, e.r, e.ms)|
  }

  predicate FailureFree(v: Service, es: seq<Event>)
    requires Happens(v, es)
    decreases |es|
  {
    es == [] || (Uninterrupted(v, es[0]) && FailureFree(After(v, es[0]), es[1..]))
  }

  lemma RunOf(d: Disk, p: seq<Action>)
    ensures p != [] ==> Run(d, p) == Apply(Run(d, p[..|p| - 1]), p[|p| - 1])
  {
    if p != [] {
      RunNext(d, p, |p| - 1);
      assert p[..|p| - 1 + 1] == p;
    }
  }

  predicate Concerns(a: Action, h: Handle) {
    (a.Mark? ==> a.m.handle == h) && (a.SaveFirst? || a.SaveNext? ==> a.rec.handle == h)
  }

  /** A plan that marks `h` and saves at most its record, and clears it last. */
  predicate Tidy(p: seq<Action>, h: Handle) {
    p != [] && p[|p| - 1] == Clear(h) && forall i :: 0 <= i < |p| ==> Concerns(p[i], h)
  }

  /** Only `h` can have lost its place among the orphans. */
  predicate OrphansBut(d: Disk, h: Handle) {
    forall k :: k in d.pending && k != h ==> k !in d.records
  }

  lemma ConcernsKeeps(d: Disk, a: Action, h: Handle)
    requires OrphansBut(d, h) && Concerns(a, h)
    ensures OrphansBut(Apply(d, a), h)
  {
  }

  lemma {:induction false} TidyPrefix(d: Disk, p: seq<Action>, h: Handle, k: nat)
    requires OrphansBut(d, h) && Tidy(p, h) && k <= |p|
    ensures OrphansBut(Run(d, p[..k]), h)
    decreases k
  {
    if k == 0 {
      assert p[..0] == [];
    } else {
      TidyPrefix(d, p, h, k - 1);
      hide Run, Apply, OrphansBut, Concerns;
      RunNext(d, p, k - 1);
      ConcernsKeeps(Run(d, p[..k - 1]), p[k - 1], h);
    }
  }

  lemma TidyKeepsOrphans(d: Disk, p: seq<Action>, h: Handle)
    requires Orphans(d) && Tidy(p, h)
    ensures Orphans(Run(d, p))
  {
    hide Run;
    TidyPrefix(d, p, h, |p| - 1);
    RunOf(d, p);
  }

  lemma MainKeepsOrphans(d: Disk, s: Settings, r: Request)
    requires Orphans(d) && (r.Generate? || r.Rotate? ==> Unused(d, r.handle))
    ensures Orphans(Run(d, MainPlan(d, s, r)))
  {
    hide Run, LoadError, MatchError, PolicyError;
    var p := MainPlan(d, s, r);
    GuardedNothing(d);
    if p != [] {
      if r.Generate? {
        TidyKeepsOrphans(d, p, r.handle);
      } else if r.Rotate? && r.prior in d.keys {
        TidyKeepsOrphans(d, p, r.handle);
      } else {
        assert |p| == 2;
        assert p[..1][..0] == [];
        RunOf(d, p);
        RunOf(d, p[..1]);
      }
    }
  }

  lemma EventKeepsOrphans(v: Service, e: Event)
    requires Sound(v.disk) && Possible(v, e) && Uninterrupted(v, e)
    requires v.reconciled ==> Orphans(v.disk)
    ensures After(v, e).reconciled ==> Orphans(After(v, e).disk)
  {
    hide Sound, Run, MainPlan, ReconcilePlan, Listed, Handles, Unused;
    if e.Attempt? && After(v, e).reconciled {
      var p := Cleanup(v, e.ms);
      var all := FullPlan(v, e.s, e.r, e.ms);
      assert all[..e.k] == all;
      if TurnedAway(e.r) {
        GuardedNothing(v.disk);
      } else {
        var d1 := Run(v.disk, p);
        RunConcat(v.disk, p, MainPlan(d1, e.s, e.r));
        if v.reconciled {
          GuardedNothing(v.disk);
        } else {
          ReconcileSettles(v.disk, e.ms);
          if e.r.Generate? || e.r.Rotate? {
            ReconcileKeepsUnused(v.disk, e.ms, e.r.handle);
          }
        }
        MainKeepsOrphans(d1, e.s, e.r);
      }
    }
  }

  lemma {:induction false} RunKeepsOrphans(v: Service, es: seq<Event>)
    requires Sound(v.disk) && Happens(v, es) && FailureFree(v, es)
    requires v.reconciled ==> Orphans(v.disk)
    ensures Reached(v, es).reconciled ==> Orphans(Reached(v, es).disk)
    decreases |es|
  {
    hide Sound, Possible, After, Uninterrupted, Orphans;
    if es != [] {
      EventKeepsSound(v, es[0]);
      EventKeepsOrphans(v, es[0]);
      RunKeepsOrphans(After(v, es[0]), es[1..]);
    }
  }

  /**
    In a run where calls succeed or the process dies, any identity with key and record that a
    reconciled provider can see meets the precondition of the theorem above.
  */
  lemma RotationAlwaysStartsClean(es: seq<Event>, s: Settings, prior: Handle, h: Handle, key: Key)
    requires Happens(INSTALLED, es) && FailureFree(INSTALLED, es) && Reached(INSTALLED, es).reconciled
    requires var d := Reached(INSTALLED, es).disk; prior in d.keys && prior in d.records && Unused(d, h)
    ensures Secure(Rotation(Reached(INSTALLED, es).disk, s, prior, h, key))
  {
    hide Happens, FailureFree, Reached, Sound, Unused;
    InstalledSound();
    RunKeepsSound(INSTALLED, es);
    RunKeepsOrphans(INSTALLED, es);
  }

  /** A provider that reconciles first starts clean as well. */
  lemma RotationStartsCleanAfterReconcile(d: Disk, ms: seq<Marker>, s: Settings, prior: Handle, h: Handle, key: Key)
    requires Sound(d) && Listed(ms, d.pending) && Handles(ms) == d.pending.Keys && Unused(d, h)
    requires var d' := Run(d, ReconcilePlan(d, ms)); prior in d'.keys && prior in d'.records
    ensures Secure(Rotation(Run(d, ReconcilePlan(d, ms)), s, prior, h, key))
  {
    hide Sound, Run, ReconcilePlan, Unused, Guarded, Listed, Handles;
    ReconcileSettles(d, ms);
    ReconcileKeepsUnused(d, ms, h);
    ReconcilePlanGuarded(d, ms);
    var p := ReconcilePlan(d, ms);
    GuardedKeepsSound(d, p, |p|);
    assert p[..|p|] == p;
  }
}
