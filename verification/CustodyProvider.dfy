/** The provider object: each call works through its plan one awaited store or keystore call at a time. */
module CustodyProvider {
  import opened Bytes
  import opened CustodyModel
  import opened CustodyRuns

  /** How an awaited call ends; one that fails or dies may or may not have taken effect. */
  datatype Fate = Done | Failed(effect: bool) | Died(effect: bool)

  datatype Outcome<T> = Returned(value: T) | Thrown(code: Code) | Dead

  /** What a call that did not end well makes of its caller. */
  function Stop<T>(fate: Fate, code: Code): (o: Outcome<T>)
    ensures !o.Returned?
  {
    if fate.Died? then Dead else Thrown(code)
  }

  /** An operation stopped after `k` actions of its plan. */
  ghost predicate Stopped(before: Disk, after: Disk, p: seq<Action>, k: nat) {
    k <= |p| && after == Run(before, p[..k])
  }

  /** An operation, as one event of a run. */
  ghost predicate Explains(v: Service, v': Service, s: Settings, r: Request, ms: seq<Marker>, k: nat) {
    var e := Attempt(s, r, ms, k, !v'.reconciled);
    Possible(v, e) && After(v, e) == v'
  }

  /** Every awaited call from here on ends well. */
  predicate Smooth(fates: seq<Fate>) {
    forall i :: 0 <= i < |fates| ==> fates[i].Done?
  }

  lemma {:induction false} ReconcileConcat(d: Disk, a: seq<Marker>, b: seq<Marker>)
    ensures ReconcilePlan(d, a + b) == ReconcilePlan(d, a) + ReconcilePlan(Run(d, ReconcilePlan(d, a)), b)
    decreases |a|
  {
    hide Run, MarkerPlan;
    GuardedNothing(d);
    if a == [] {
      assert a + b == b;
    } else {
      assert (a + b)[0] == a[0] && (a + b)[1..] == a[1..] + b;
      var p := MarkerPlan(d, a[0]);
      ReconcileConcat(Run(d, p), a[1..], b);
      RunConcat(d, p, ReconcilePlan(Run(d, p), a[1..]));
    }
  }

  /** The plan so far, the marker now being settled, and what is left. */
  lemma ReconcileAt(d: Disk, ms: seq<Marker>, i: nat, here: Disk)
    requires i < |ms| && here == Run(d, ReconcilePlan(d, ms[..i]))
    ensures var p := ReconcilePlan(d, ms[..i]);
            var q := MarkerPlan(here, ms[i]);
            && p + q <= ReconcilePlan(d, ms)
            && ReconcilePlan(d, ms[..i + 1]) == p + q
  {
    hide Run, MarkerPlan;
    assert ms == ms[..i] + ms[i..] && ms[i..][0] == ms[i];
    ReconcileConcat(d, ms[..i], ms[i..]);
    assert ms[..i + 1] == ms[..i] + [ms[i]] && [ms[i]][1..] == [];
    ReconcileConcat(d, ms[..i], [ms[i]]);
    assert ReconcilePlan(here, [ms[i]]) == MarkerPlan(here, ms[i]) + [];
  }

  lemma StoppedLater(d: Disk, here: Disk, after: Disk, p: seq<Action>, q: seq<Action>, all: seq<Action>, k: nat)
    requires here == Run(d, p) && Stopped(here, after, q, k) && p + q <= all
    ensures Stopped(d, after, all, |p| + k)
  {
    hide Run;
    assert all[..|p| + k] == p + q[..k];
    RunConcat(d, p, q[..k]);
  }

  lemma StoppedNowhere(d: Disk, p: seq<Action>)
    ensures Stopped(d, d, p, 0)
  {
    assert p[..0] == [];
  }

  /** The identity is on the disk, whole and settled: the record as returned, the key as the module made it. */
  predicate Installed(d: Disk, rec: Record, key: Key) {
    && rec.publicKey == key.publicKey && rec.report == key.report
    && rec.handle in d.records && d.records[rec.handle] == rec
    && rec.handle in d.keys && d.keys[rec.handle] == key
    && rec.handle !in d.pending && rec.generation == d.highWater
  }

  /** Nothing is left of it. */
  predicate Gone(d: Disk, h: Handle) {
    h !in d.keys && h !in d.records && h !in d.pending
  }

  /** What stands in the way of a rotation. */
  function RotateError(d: Disk, s: Settings, prior: Handle, key: Key): (e: Option<Code>) {
    var load := LoadError(d.records, prior, s);
    if load.Some? then load
    else if prior !in d.keys then Some(NotFound)
    else MatchError(key.report, d.records[prior].report, s)
  }

  /** What stands in the way of a destruction. */
  function DestroyError(d: Disk, s: Settings, h: Handle): (e: Option<Code>) {
    var load := LoadError(d.records, h, s);
    if load.Some? then load else if h !in d.keys then Some(NotFound) else None
  }

  /** What stands in the way of reopening; `answer` is what the keystore makes of a key it is asked about. */
  function ReopenError(d: Disk, s: Settings, h: Handle, answer: Key -> Key): (e: Option<Code>) {
    var load := LoadError(d.records, h, s);
    if load.Some? then load
    else if h !in d.keys then Some(NotFound)
    else if answer(d.keys[h]).publicKey != d.records[h].publicKey then Some(Corrupted)
    else MatchError(answer(d.keys[h]).report, d.records[h].report, s)
  }

  /**
    With every call ending well: an identity of the provider's profile is reopened exactly when its key
    lives and the keystore answers for it as it was made, rotated exactly when the new key attests the
    same, and destroyed exactly when its key lives.
  */
  lemma AnswersExactly(d: Disk, s: Settings, h: Handle, key: Key, answer: Key -> Key)
    requires Sound(d)
    ensures var ours := h in d.records && d.records[h].report.profile == s.profile;
            && (ReopenError(d, s, h, answer).None? <==> ours && h in d.keys && answer(d.keys[h]) == d.keys[h])
            && (RotateError(d, s, h, key).None? <==> ours && h in d.keys && key.report == d.records[h].report)
            && (DestroyError(d, s, h).None? <==> ours && h in d.keys)
    ensures h !in d.records ==> ReopenError(d, s, h, answer) == RotateError(d, s, h, key) == Some(NotFound)
  {
    hide Sound, LoadError, MatchError;
    SoundLoads(d, h, s);
    if h in d.records {
      if h in d.keys {
        LiveRecordFits(d, h);
        MatchExactly(answer(d.keys[h]).report, d.records[h].report, s);
      }
      MatchExactly(key.report, d.records[h].report, s);
    }
  }

  /** A rotation or destruction that may not be done leaves every key and every record as it was. */
  lemma RefusalSpares(d: Disk, s: Settings, prior: Handle, h: Handle, key: Key)
    requires Gone(d, h)
    ensures DestroyError(d, s, prior).Some? ==> Run(d, DestroyPlan(d, s, prior)) == d
    ensures RotateError(d, s, prior, key).Some? ==>
              var d' := Run(d, RotatePlan(d, s, prior, h, key)); d'.keys == d.keys && d'.records == d.records
  {
    hide LoadError, MatchError, Run;
    GuardedNothing(d);
    if RotateError(d, s, prior, key).Some? && LoadError(d.records, prior, s).None? {
      var p := RotatePlan(d, s, prior, h, key);
      if prior !in d.keys {
        RunThrough(d, p);
        assert p[1..][0] == p[1] && p[1..][1..] == [];
        RunThrough(Apply(d, p[0]), p[1..]);
        GuardedNothing(Apply(Apply(d, p[0]), p[1]));
      } else {
        FiveSteps(d, p);
        assert d.keys[h := key] - {h} == d.keys;
      }
    }
  }

  lemma LiveRecordFits(d: Disk, h: Handle)
    requires Sound(d) && h in d.keys && h in d.records
    ensures d.keys[h] == Key(d.records[h].publicKey, d.records[h].report)
  {
    hide Numbered, Lineage, Accounted, MarkersOk;
  }

  /** The value if nothing stands in the way, the code of what does otherwise. */
  predicate Answers<T>(r: Outcome<T>, obstacle: Option<Code>) {
    match obstacle
    case None => r.Returned?
    case Some(code) => r == Thrown(code)
  }

  lemma RunThrough(d: Disk, p: seq<Action>)
    requires |p| > 0
    ensures Run(d, p) == Run(Apply(d, p[0]), p[1..])
  {
  }

  /** A `generate` that came to its end installed the identity. */
  lemma GenerateInstalls(d: Disk, s: Settings, kind: int, policy: Policy, h: Handle, key: Key)
    requires PolicyError(key.report, policy, s).None?
    ensures Installed(Run(d, GeneratePlan(d, s, kind, policy, h, key)), RecordOf(h, kind, key, d.highWater + 1), key)
  {
    hide PolicyError, Apply, Run;
    var rec := RecordOf(h, kind, key, d.highWater + 1);
    var p := GeneratePlan(d, s, kind, policy, h, key);
    assert p == [Reserve, Mark(Marker(h, d.highWater + 1, None)), Create(h, key), SaveFirst(rec, policy, s), Clear(h)];
    FiveSteps(d, p);
    FiveActions(d, rec, policy, s, key);
  }

  /** And one that refused its key left nothing of it. */
  lemma GenerateUndoes(d: Disk, s: Settings, kind: int, policy: Policy, h: Handle, key: Key)
    requires PolicyError(key.report, policy, s).Some? && h !in d.records
    ensures Gone(Run(d, GeneratePlan(d, s, kind, policy, h, key)), h)
  {
    hide PolicyError, Run;
    var p := GeneratePlan(d, s, kind, policy, h, key);
    assert p == [Reserve, Mark(Marker(h, d.highWater + 1, None)), Create(h, key), Destroy(h), Clear(h)];
    FiveSteps(d, p);
  }

  lemma GenerateEnds(d: Disk, after: Disk, s: Settings, kind: int, policy: Policy, h: Handle, key: Key, k: nat)
    requires Gone(d, h) && Stopped(d, after, GeneratePlan(d, s, kind, policy, h, key), k)
    ensures k == |GeneratePlan(d, s, kind, policy, h, key)| ==>
              if PolicyError(key.report, policy, s).Some? then Gone(after, h)
              else Installed(after, RecordOf(h, kind, key, d.highWater + 1), key)
  {
    hide PolicyError, GeneratePlan, Run, Installed;
    var p := GeneratePlan(d, s, kind, policy, h, key);
    if k == |p| {
      assert p[..k] == p;
      if PolicyError(key.report, policy, s).Some? {
        GenerateUndoes(d, s, kind, policy, h, key);
      } else {
        GenerateInstalls(d, s, kind, policy, h, key);
      }
    }
  }

  lemma FiveActions(d: Disk, rec: Record, policy: Policy, s: Settings, key: Key)
    requires rec.publicKey == key.publicKey && rec.report == key.report && rec.generation == d.highWater + 1
    ensures var d3 := Apply(Apply(Apply(d, Reserve), Mark(Marker(rec.handle, d.highWater + 1, None))),
                            Create(rec.handle, key));
            Installed(Apply(Apply(d3, SaveFirst(rec, policy, s)), Clear(rec.handle)), rec, key)
  {
  }

  lemma FiveSteps(d: Disk, p: seq<Action>)
    requires |p| == 5
    ensures Run(d, p) == Apply(Apply(Apply(Apply(Apply(d, p[0]), p[1]), p[2]), p[3]), p[4])
  {
    hide Apply, Run;
    var d1 := Apply(d, p[0]);
    RunThrough(d, p);
    assert p[1..][0] == p[1] && p[1..][1..] == p[2..];
    RunThrough(d1, p[1..]);
    var d2 := Apply(d1, p[1]);
    assert p[2..][0] == p[2] && p[2..][1..] == p[3..];
    RunThrough(d2, p[2..]);
    var d3 := Apply(d2, p[2]);
    assert p[3..][0] == p[3] && p[3..][1..] == p[4..];
    RunThrough(d3, p[3..]);
    var d4 := Apply(d3, p[3]);
    assert p[4..][0] == p[4] && p[4..][1..] == [];
    RunThrough(d4, p[4..]);
    GuardedNothing(Apply(d4, p[4]));
  }

  /** A rotation that came to its end installed the new identity and left nothing of the old. */
  lemma RotateInstalls(d: Disk, s: Settings, prior: Handle, h: Handle, key: Key)
    requires RotateError(d, s, prior, key).None? && h !in d.records
    ensures prior in d.records && key.report == d.records[prior].report
    ensures var d' := Run(d, RotatePlan(d, s, prior, h, key));
            && Installed(d', RecordOf(h, d.records[prior].kind, key, d.highWater + 1), key)
            && prior !in d'.records && prior !in d'.keys
  {
    MatchExactly(key.report, d.records[prior].report, s);
    hide LoadError, MatchError, Apply, Run;
    var rec := RecordOf(h, d.records[prior].kind, key, d.highWater + 1);
    var p := RotatePlan(d, s, prior, h, key);
    assert p == [Reserve, Mark(Marker(h, d.highWater + 1, Some(prior))), Create(h, key), SaveNext(rec, prior),
                 Destroy(prior)] + [Delete(prior), Clear(h)];
    RunConcat(d, p[..5], p[5..]);
    FiveSteps(d, p[..5]);
    var d5 := Run(d, p[..5]);
    assert p[5..] == [Delete(prior), Clear(h)] && p == p[..5] + p[5..];
    RunThrough(d5, p[5..]);
    assert p[5..][1..] == [Clear(h)] && [Clear(h)][1..] == [];
    RunThrough(Apply(d5, Delete(prior)), [Clear(h)]);
    GuardedNothing(Apply(Apply(d5, Delete(prior)), Clear(h)));
    SevenActions(d, rec, prior, key);
  }

  lemma SevenActions(d: Disk, rec: Record, prior: Handle, key: Key)
    requires rec.handle != prior && rec.publicKey == key.publicKey && rec.report == key.report
    requires rec.generation == d.highWater + 1
    ensures var d3 := Apply(Apply(Apply(d, Reserve), Mark(Marker(rec.handle, d.highWater + 1, Some(prior)))),
                            Create(rec.handle, key));
            var d5 := Apply(Apply(d3, SaveNext(rec, prior)), Destroy(prior));
            var d' := Apply(Apply(d5, Delete(prior)), Clear(rec.handle));
            Installed(d', rec, key) && prior !in d'.records && prior !in d'.keys
  {
  }

  /** Reconciliation changes no record that it leaves. */
  lemma {:induction false} RemovalsShrink(d: Disk, p: seq<Action>, h: Handle)
    requires (forall i :: 0 <= i < |p| ==> Removal(p[i])) && h in Run(d, p).records
    ensures h in d.records && Run(d, p).records[h] == d.records[h]
    decreases |p|
  {
    if p != [] {
      assert Removal(p[0]);
      RemovalsShrink(Apply(d, p[0]), p[1..], h);
    }
  }

  lemma CleanupKeeps(v: Service, ms: seq<Marker>, h: Handle)
    ensures var d := Run(v.disk, Cleanup(v, ms));
            && (h in d.records ==> h in v.disk.records && d.records[h] == v.disk.records[h])
            && (Unused(v.disk, h) ==> Unused(d, h))
  {
    hide ReconcilePlan, Run, Unused, Removal;
    GuardedNothing(v.disk);
    if !v.reconciled {
      ReconcileRemoves(v.disk, ms);
      if h in Run(v.disk, Cleanup(v, ms)).records {
        RemovalsShrink(v.disk, Cleanup(v, ms), h);
      }
      if Unused(v.disk, h) {
        ReconcileKeepsUnused(v.disk, ms, h);
      }
    }
  }

  lemma UnusedIsGone(d: Disk, h: Handle)
    requires Unused(d, h)
    ensures Gone(d, h) && h !in d.records
  {
  }

  class CustodyProvider {
    var disk: Disk
    var reconciled: bool
    var fates: seq<Fate>
    const settings: Settings

    /** A provider over an existing store: what a restart is. */
    constructor (disk: Disk, fates: seq<Fate>, settings: Settings)
      ensures this.disk == disk && !reconciled && this.settings == settings
    {
      this.disk, this.fates, this.settings, reconciled := disk, fates, settings, false;
    }

    ghost function State(): (v: Service)
      reads this
    {
      Service(disk, reconciled)
    }

    /** An awaited call that changes nothing durable. */
    method Pause() returns (fate: Fate)
      modifies `fates
      ensures Smooth(old(fates)) ==> fate.Done? && Smooth(fates)
    {
      if fates == [] {
        return Done;
      }
      fate := fates[0];
      fates := fates[1..];
    }

    /** An awaited call that is action `i` of the plan `p`. */
    method Do(a: Action, ghost d: Disk, ghost p: seq<Action>, ghost i: nat) returns (fate: Fate, ghost k: nat)
      requires i < |p| && p[i] == a && Stopped(d, disk, p, i)
      modifies `disk, `fates
      ensures i <= k <= i + 1 && Stopped(d, disk, p, k)
      ensures fate.Done? ==> k == i + 1
      ensures disk == if k == i then old(disk) else Apply(old(disk), a)
      ensures Smooth(old(fates)) ==> fate.Done? && Smooth(fates)
    {
      hide Apply, Run, Smooth;
      RunNext(d, p, i);
      fate := Pause();
      if fate.Done? || fate.effect {
        disk := Apply(disk, a);
        k := i + 1;
      } else {
        k := i;
      }
    }

    /** Whether the key is confirmed gone. */
    method RetireKey(h: Handle, ghost d: Disk, ghost p: seq<Action>, ghost i: nat)
      returns (r: Outcome<bool>, ghost k: nat)
      requires i < |p| && p[i] == Destroy(h) && Stopped(d, disk, p, i)
      modifies `disk, `fates
      ensures i <= k <= i + 1 && Stopped(d, disk, p, k)
      ensures r == Returned(true) ==> k == i + 1
      ensures disk == if k == i then old(disk) else Apply(old(disk), Destroy(h))
      ensures Smooth(old(fates)) ==> r == Returned(true) && Smooth(fates)
    {
      hide Run, Smooth;
      var fate;
      fate, k := Do(Destroy(h), d, p, i);
      match fate
      case Done => return Returned(true), k;
      case Failed(_) => return Returned(false), k;
      case Died(_) => return Dead, k;
    }

    /** Every pending marker once, in some order. */
    static method ListPending(pending: map<Handle, Marker>) returns (ms: seq<Marker>)
      requires forall h :: h in pending ==> pending[h].handle == h
      ensures Listed(ms, pending) && Handles(ms) == pending.Keys
    {
      ms := [];
      var todo := pending.Keys;
      while todo != {}
        invariant todo <= pending.Keys && Listed(ms, pending) && Handles(ms) == pending.Keys - todo
        decreases todo
      {
        var h :| h in todo;
        assert forall m :: m in ms ==> m.handle in Handles(ms);
        assert Handles(ms + [pending[h]]) == Handles(ms) + {h};
        ms := ms + [pending[h]];
        todo := todo - {h};
      }
    }

    method SettleMarker(m: Marker) returns (r: Outcome<()>, ghost k: nat)
      modifies `disk, `fates
      ensures Stopped(old(disk), disk, MarkerPlan(old(disk), m), k)
      ensures r.Returned? ==> k == |MarkerPlan(old(disk), m)|
      ensures Smooth(old(fates)) ==> r.Returned? && Smooth(fates)
    {
      hide Run, Apply, Smooth;
      ghost var d, p := disk, MarkerPlan(disk, m);
      StoppedNowhere(d, p);
      k := 0;
      var fate := Pause();
      if !fate.Done? {
        return Stop(fate, ProviderUnavailable), k;
      }
      var gone;
      if m.handle !in disk.records {
        gone, k := RetireKey(m.handle, d, p, 0);
        if gone != Returned(true) {
          return if gone.Dead? then Dead else Thrown(ProviderUnavailable), k;
        }
        fate, k := Do(Clear(m.handle), d, p, 1);
      } else if m.supersedes.Some? {
        gone, k := RetireKey(m.supersedes.value, d, p, 0);
        if gone != Returned(true) {
          return if gone.Dead? then Dead else Thrown(ProviderUnavailable), k;
        }
        fate, k := Do(Delete(m.supersedes.value), d, p, 1);
        if !fate.Done? {
          return Stop(fate, ProviderUnavailable), k;
        }
        fate, k := Do(Clear(m.handle), d, p, 2);
      } else {
        fate, k := Do(Clear(m.handle), d, p, 0);
      }
      return if fate.Done? then Returned(()) else Stop(fate, ProviderUnavailable), k;
    }

    method Reconcile() returns (r: Outcome<()>, ghost ms: seq<Marker>, ghost k: nat)
      requires MarkersOk(disk)
      modifies `disk, `fates
      ensures Listed(ms, old(disk).pending) && Handles(ms) == old(disk).pending.Keys
      ensures Stopped(old(disk), disk, ReconcilePlan(old(disk), ms), k)
      ensures r.Returned? ==> k == |ReconcilePlan(old(disk), ms)|
      ensures Smooth(old(fates)) ==> r.Returned? && Smooth(fates)
    {
      hide Smooth, Run, MarkerPlan, ReconcilePlan, Listed, Handles;
      ghost var d := disk;
      var list := ListPending(disk.pending);
      ms := list;
      ghost var all := ReconcilePlan(d, ms);
      StoppedNowhere(d, all);
      k := 0;
      var fate := Pause();
      if !fate.Done? {
        return Stop(fate, ProviderUnavailable), ms, k;
      }
      var i := 0;
      ghost var sofar := [];
      assert list[..0] == [];
      assert ReconcilePlan(d, []) == [] by { ReconcileNothing(d); }
      GuardedNothing(d);
      while i < |list|
        invariant i <= |list|
        invariant sofar == ReconcilePlan(d, ms[..i]) && disk == Run(d, sofar) && sofar <= all
        invariant Smooth(old(fates)) ==> Smooth(fates)
      {
        ReconcileAt(d, ms, i, disk);
        ghost var here := disk;
        ghost var q := MarkerPlan(here, list[i]);
        var settled;
        settled, k := SettleMarker(list[i]);
        StoppedLater(d, here, disk, sofar, q, all, k);
        k := |sofar| + k;
        if !settled.Returned? {
          return settled, ms, k;
        }
        assert all[..k] == sofar + q;
        sofar := sofar + q;
        i := i + 1;
      }
      assert ms[..i] == ms;
      assert all[..|all|] == all;
      k := |all|;
      return Returned(()), ms, k;
    }

    /** The latch is set only by a reconciliation that completed. */
    method EnsureReconciled() returns (r: Outcome<()>, ghost ms: seq<Marker>, ghost k: nat)
      requires MarkersOk(disk)
      modifies `disk, `fates, `reconciled
      ensures Listed(ms, old(disk).pending) && Handles(ms) == old(disk).pending.Keys
      ensures Stopped(old(disk), disk, Cleanup(old(State()), ms), k)
      ensures r.Returned? ==> k == |Cleanup(old(State()), ms)|
      ensures reconciled == (old(reconciled) || r.Returned?)
      ensures Smooth(old(fates)) ==> r.Returned? && Smooth(fates)
    {
      hide Smooth, Run, ReconcilePlan, Listed, Handles;
      if reconciled {
        ms := ListPending(disk.pending);
        StoppedNowhere(disk, []);
        return Returned(()), ms, 0;
      }
      r, ms, k := Reconcile();
      reconciled := r.Returned?;
    }

    method GenerateKey(kind: int, policy: Policy, h: Handle, key: Key) returns (r: Outcome<Record>, ghost k: nat)
      modifies `disk, `fates
      ensures var p := GeneratePlan(old(disk), settings, kind, policy, h, key);
              && Stopped(old(disk), disk, p, k)
              && (r.Returned? ==> k == |p| && PolicyError(key.report, policy, settings).None?
                                  && r.value == RecordOf(h, kind, key, old(disk).highWater + 1))
      ensures Smooth(old(fates)) ==> && Answers(r, PolicyError(key.report, policy, settings))
                                     && k == |GeneratePlan(old(disk), settings, kind, policy, h, key)|
    {
      hide Smooth, Run, PolicyError;
      ghost var d, p := disk, GeneratePlan(disk, settings, kind, policy, h, key);
      StoppedNowhere(d, p);
      var generation := disk.highWater + 1;
      var fate;
      fate, k := Do(Reserve, d, p, 0);
      if !fate.Done? { return Stop(fate, ProviderUnavailable), k; }
      fate, k := Do(Mark(Marker(h, generation, None)), d, p, 1);
      if !fate.Done? { return Stop(fate, ProviderUnavailable), k; }
      fate, k := Do(Create(h, key), d, p, 2);
      if !fate.Done? { return Stop(fate, ProviderUnavailable), k; }
      var error := PolicyError(key.report, policy, settings);
      if error.Some? {
        r, k := RetireAndClear(h, error.value, d, p);
        return;
      }
      fate := Pause();
      if !fate.Done? { return Stop(fate, Corrupted), k; }
      var rec := RecordOf(h, kind, key, generation);
      fate, k := Do(SaveFirst(rec, policy, settings), d, p, 3);
      if !fate.Done? { return Stop(fate, ProviderUnavailable), k; }
      fate, k := Do(Clear(h), d, p, 4);
      return if fate.Done? then Returned(rec) else Stop(fate, ProviderUnavailable), k;
    }

    /** Gives up a key that was refused; its marker goes only if the key is confirmed gone. */
    method RetireAndClear(h: Handle, code: Code, ghost d: Disk, ghost p: seq<Action>)
      returns (r: Outcome<Record>, ghost k: nat)
      requires |p| == 5 && p[3] == Destroy(h) && p[4] == Clear(h) && Stopped(d, disk, p, 3)
      modifies `disk, `fates
      ensures 3 <= k <= 5 && Stopped(d, disk, p, k) && !r.Returned?
      ensures Smooth(old(fates)) ==> r == Thrown(code) && k == 5
      ensures r.Thrown? && h in disk.keys ==> disk.pending == old(disk.pending)
    {
      hide Run, Smooth;
      var gone;
      gone, k := RetireKey(h, d, p, 3);
      if gone == Returned(true) {
        var fate;
        fate, k := Do(Clear(h), d, p, 4);
        return Stop(fate, code), k;
      }
      return if gone.Dead? then Dead else Thrown(code), k;
    }

    method RotateKey(prior: Handle, h: Handle, key: Key) returns (r: Outcome<Record>, ghost k: nat)
      modifies `disk, `fates
      ensures var p := RotatePlan(old(disk), settings, prior, h, key);
              && Stopped(old(disk), disk, p, k)
              && (r.Returned? ==> k == |p| && prior in old(disk).records
                                  && key.report == old(disk).records[prior].report
                                  && var kind := old(disk).records[prior].kind;
                                     r.value == RecordOf(h, kind, key, old(disk).highWater + 1))
      ensures r.Returned? ==> RotateError(old(disk), settings, prior, key).None?
      ensures Smooth(old(fates)) ==> Answers(r, RotateError(old(disk), settings, prior, key))
    {
      hide Smooth, Run, LoadError, MatchError;
      ghost var d, p := disk, RotatePlan(disk, settings, prior, h, key);
      StoppedNowhere(d, p);
      k := 0;
      var fate := Pause();
      if !fate.Done? { return Stop(fate, Corrupted), k; }
      var load := LoadError(disk.records, prior, settings);
      if load.Some? {
        return Thrown(load.value), k;
      }
      var existing := disk.records[prior];
      var found := prior in disk.keys;
      var generation := disk.highWater + 1;
      fate, k := Do(Reserve, d, p, 0);
      if !fate.Done? { return Stop(fate, ProviderUnavailable), k; }
      fate, k := Do(Mark(Marker(h, generation, Some(prior))), d, p, 1);
      if !fate.Done? { return Stop(fate, ProviderUnavailable), k; }
      if !found {
        return Thrown(NotFound), k;
      }
      fate, k := Do(Create(h, key), d, p, 2);
      if !fate.Done? { return Stop(fate, ProviderUnavailable), k; }
      var error := MatchError(key.report, existing.report, settings);
      if error.Some? {
        r, k := RetireAndClear(h, error.value, d, p);
        return;
      }
      MatchIsExact(key.report, existing.report, settings);
      r, k := HandOver(prior, RecordOf(h, existing.kind, key, generation), d, p);
    }

    /** Publishes the new identity, then retires the old one. */
    method HandOver(prior: Handle, rec: Record, ghost d: Disk, ghost p: seq<Action>)
      returns (r: Outcome<Record>, ghost k: nat)
      requires |p| == 7 && p[3..] == [SaveNext(rec, prior), Destroy(prior), Delete(prior), Clear(rec.handle)]
              && Stopped(d, disk, p, 3)
      modifies `disk, `fates
      ensures Stopped(d, disk, p, k) && (r.Returned? ==> k == 7 && r.value == rec)
      ensures Smooth(old(fates)) ==> r.Returned?
    {
      hide Smooth, Run;
      assert p[3] == p[3..][0] && p[4] == p[3..][1] && p[5] == p[3..][2] && p[6] == p[3..][3];
      k := 3;
      var fate := Pause();
      if !fate.Done? { return Stop(fate, Corrupted), k; }
      fate, k := Do(SaveNext(rec, prior), d, p, 3);
      if !fate.Done? { return Stop(fate, ProviderUnavailable), k; }
      fate, k := Do(Destroy(prior), d, p, 4);
      if !fate.Done? { return Stop(fate, ProviderUnavailable), k; }
      fate, k := Do(Delete(prior), d, p, 5);
      if !fate.Done? { return Stop(fate, ProviderUnavailable), k; }
      fate, k := Do(Clear(rec.handle), d, p, 6);
      return if fate.Done? then Returned(rec) else Stop(fate, ProviderUnavailable), k;
    }

    method DestroyKey(h: Handle) returns (r: Outcome<()>, ghost k: nat)
      modifies `disk, `fates
      ensures Stopped(old(disk), disk, DestroyPlan(old(disk), settings, h), k)
      ensures r.Returned? ==> h !in disk.keys && h !in disk.records
      ensures Smooth(old(fates)) ==> Answers(r, DestroyError(old(disk), settings, h))
      ensures DestroyError(old(disk), settings, h).Some? ==> disk == old(disk)
    {
      hide Smooth, Run, LoadError;
      ghost var d, p := disk, DestroyPlan(disk, settings, h);
      StoppedNowhere(d, p);
      k := 0;
      var fate := Pause();
      if !fate.Done? { return Stop(fate, Corrupted), k; }
      var load := LoadError(disk.records, h, settings);
      if load.Some? {
        return Thrown(load.value), k;
      }
      if h !in disk.keys {
        return Thrown(NotFound), k;
      }
      fate, k := Do(Destroy(h), d, p, 0);
      if !fate.Done? { return Stop(fate, ProviderUnavailable), k; }
      fate, k := Do(Delete(h), d, p, 1);
      return if fate.Done? then Returned(()) else Stop(fate, ProviderUnavailable), k;
    }

    // ---- the calls a client makes ------------------------------------------------------

    method Generate(kind: int, policy: Policy, h: Handle, key: Key)
      returns (r: Outcome<Record>, ghost ms: seq<Marker>, ghost k: nat)
      requires Sound(disk) && Unused(disk, h)
      modifies `disk, `fates, `reconciled
      ensures Explains(old(State()), State(), settings, Request.Generate(kind, policy, h, key), ms, k)
      ensures Sound(disk)
      ensures r.Returned? ==> && ValidPolicy(policy) && PolicyError(key.report, policy, settings).None?
                              && r.value.handle == h && r.value.kind == kind && Installed(disk, r.value, key)
      ensures Smooth(old(fates)) ==>
                && Answers(r, if ORIGIN_PROTECTED <= policy.minClass <= HARDWARE
                              then PolicyError(key.report, policy, settings) else Some(PolicyDenied))
                && (r.Thrown? ==> Gone(disk, h))
    {
      hide Smooth, Gone, Installed, Run, Sound, Unused, PolicyError, GeneratePlan, ReconcilePlan, Listed, Handles;
      ghost var req := Request.Generate(kind, policy, h, key);
      if !ValidPolicy(policy) {
        MarkersAreOk(disk);
        UnusedIsGone(disk, h);
        ms := ListPending(disk.pending);
        StoppedNowhere(disk, []);
        return Thrown(PolicyDenied), ms, 0;
      }
      var ready;
      MarkersAreOk(disk);
      ready, ms, k := EnsureReconciled();
      ghost var here := disk;
      ghost var p := Cleanup(old(State()), ms);
      ghost var q := GeneratePlan(Run(old(disk), p), settings, kind, policy, h, key);
      if !ready.Returned? {
        StoppedEarly(old(disk), disk, p, q, k);
        EventStaysSound(old(State()), req, settings, ms, k, State());
        return if ready.Dead? then Dead else Thrown(ProviderUnavailable), ms, k;
      }
      assert p[..k] == p;
      CleanupKeeps(old(State()), ms, h);
      UnusedIsGone(here, h);
      r, k := GenerateKey(kind, policy, h, key);
      GenerateEnds(here, disk, settings, kind, policy, h, key, k);
      StoppedLater(old(disk), here, disk, p, q, p + q, k);
      k := |p| + k;
      EventStaysSound(old(State()), req, settings, ms, k, State());
    }

    method Rotate(prior: Handle, h: Handle, key: Key) returns (r: Outcome<Record>, ghost ms: seq<Marker>, ghost k: nat)
      requires Sound(disk) && Unused(disk, h)
      modifies `disk, `fates, `reconciled
      ensures Explains(old(State()), State(), settings, Request.Rotate(prior, h, key), ms, k)
      ensures Sound(disk)
      ensures r.Returned? ==> && r.value.handle == h && Installed(disk, r.value, key)
                              && prior in old(disk.records) && r.value.kind == old(disk.records)[prior].kind
                              && r.value.report == old(disk.records)[prior].report
                              && prior !in disk.records && prior !in disk.keys
      ensures Smooth(old(fates)) ==>
                Answers(r, RotateError(Run(old(disk), Cleanup(old(State()), ms)), settings, prior, key))
    {
      hide Smooth, Installed, RotateError, Run, Sound, Unused, RotatePlan, ReconcilePlan, Listed, Handles;
      ghost var req := Request.Rotate(prior, h, key);
      var ready;
      MarkersAreOk(disk);
      ready, ms, k := EnsureReconciled();
      ghost var here, p := disk, Cleanup(old(State()), ms);
      ghost var q := RotatePlan(Run(old(disk), p), settings, prior, h, key);
      if !ready.Returned? {
        StoppedEarly(old(disk), disk, p, q, k);
        EventStaysSound(old(State()), req, settings, ms, k, State());
        return if ready.Dead? then Dead else Thrown(ProviderUnavailable), ms, k;
      }
      assert p[..k] == p;
      CleanupKeeps(old(State()), ms, h);
      CleanupKeeps(old(State()), ms, prior);
      UnusedIsGone(here, h);
      r, k := RotateKey(prior, h, key);
      if r.Returned? {
        assert q[..k] == q;
        RotateInstalls(here, settings, prior, h, key);
      }
      StoppedLater(old(disk), here, disk, p, q, p + q, k);
      k := |p| + k;
      EventStaysSound(old(State()), req, settings, ms, k, State());
    }

    method DestroyIdentity(h: Handle) returns (r: Outcome<()>, ghost ms: seq<Marker>, ghost k: nat)
      requires Sound(disk)
      modifies `disk, `fates, `reconciled
      ensures Explains(old(State()), State(), settings, Request.DestroyIdentity(h), ms, k)
      ensures Sound(disk)
      ensures r.Returned? ==> h !in disk.keys && h !in disk.records
      ensures var d := Run(old(disk), Cleanup(old(State()), ms));
              && (Smooth(old(fates)) ==> Answers(r, DestroyError(d, settings, h)))
              && (Smooth(old(fates)) && DestroyError(d, settings, h).Some? ==> disk == d)
    {
      hide Smooth, DestroyError, Run, Sound, DestroyPlan, ReconcilePlan, Listed, Handles;
      ghost var req := Request.DestroyIdentity(h);
      MarkersAreOk(disk);
      r, ms, k := EnsureReconciled();
      ghost var here, p := disk, Cleanup(old(State()), ms);
      ghost var q := DestroyPlan(Run(old(disk), p), settings, h);
      if !r.Returned? {
        StoppedEarly(old(disk), disk, p, q, k);
        EventStaysSound(old(State()), req, settings, ms, k, State());
        return;
      }
      assert p[..k] == p;
      r, k := DestroyKey(h);
      StoppedLater(old(disk), here, disk, p, q, p + q, k);
      k := |p| + k;
      EventStaysSound(old(State()), req, settings, ms, k, State());
    }

    /** `answer` is what the keystore says when it is asked about a key it still has. */
    method Reopen(h: Handle, answer: Key -> Key) returns (r: Outcome<Record>, ghost ms: seq<Marker>, ghost k: nat)
      requires Sound(disk)
      modifies `disk, `fates, `reconciled
      ensures Explains(old(State()), State(), settings, Request.Reopen(h), ms, k)
      ensures Sound(disk)
      ensures r.Returned? ==> && h in disk.records && r.value == disk.records[h]
                              && h in disk.keys && answer(disk.keys[h]) == Key(r.value.publicKey, r.value.report)
                              && r.value.report.profile == settings.profile
      ensures Smooth(old(fates)) ==> Answers(r, ReopenError(disk, settings, h, answer))
    {
      hide Smooth, Run, Sound, ReconcilePlan, Listed, Handles;
      ghost var req := Request.Reopen(h);
      MarkersAreOk(disk);
      var ready;
      ready, ms, k := EnsureReconciled();
      ghost var p := Cleanup(old(State()), ms);
      StoppedEarly(old(disk), disk, p, [], k);
      EventStaysSound(old(State()), req, settings, ms, k, State());
      if !ready.Returned? {
        return if ready.Dead? then Dead else Thrown(ProviderUnavailable), ms, k;
      }
      var fate := Pause();
      if !fate.Done? { return Stop(fate, Corrupted), ms, k; }
      var load := LoadError(disk.records, h, settings);
      if load.Some? { return Thrown(load.value), ms, k; }
      var rec := disk.records[h];
      fate := Pause();
      if !fate.Done? || h !in disk.keys { return Stop(fate, NotFound), ms, k; }
      var live := answer(disk.keys[h]);
      if live.publicKey != rec.publicKey { return Thrown(Corrupted), ms, k; }
      var error := MatchError(live.report, rec.report, settings);
      if error.Some? { return Thrown(error.value), ms, k; }
      MatchIsExact(live.report, rec.report, settings);
      return Returned(rec), ms, k;
    }
  }

  lemma MarkersAreOk(d: Disk)
    requires Sound(d)
    ensures MarkersOk(d)
  {
  }

  lemma StoppedEarly(d: Disk, after: Disk, p: seq<Action>, q: seq<Action>, k: nat)
    requires Stopped(d, after, p, k)
    ensures Stopped(d, after, p + q, k)
  {
    hide Run;
    assert (p + q)[..k] == p[..k];
  }

  lemma EventStaysSound(v: Service, r: Request, s: Settings, ms: seq<Marker>, k: nat, v': Service)
    requires Sound(v.disk) && Explains(v, v', s, r, ms, k)
    ensures Sound(v'.disk)
  {
    hide Sound, Possible, After;
    EventKeepsSound(v, Attempt(s, r, ms, k, !v'.reconciled));
  }

  lemma ReconcileNothing(d: Disk)
    ensures ReconcilePlan(d, []) == []
  {
  }
}
