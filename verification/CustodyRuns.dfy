/** Every reachable disk: no unaccounted key, one number per identity, lineages that never weaken. */
module CustodyRuns {
  import opened Bytes
  import opened CustodyModel

  // ---- what every disk satisfies --------------------------------------------------------

  /** Each live key is named by a record or a pending marker. */
  predicate Accounted(d: Disk) {
    forall h :: h in d.keys ==> h in d.records || h in d.pending
  }

  predicate MarkersOk(d: Disk) {
    forall h :: h in d.pending ==> d.pending[h].handle == h && d.pending[h].supersedes != Some(h)
  }

  /** Numbers are issued in strictly increasing order. */
  predicate Issues(issued: seq<nat>, highWater: nat) {
    && (forall i :: 0 <= i < |issued| ==> issued[i] <= highWater)
    && (forall i, j :: 0 <= i < j < |issued| ==> issued[i] < issued[j])
  }

  predicate RecordsOwned(records: map<Handle, Record>, owner: map<nat, Handle>) {
    forall h :: h in records ==> records[h].generation in owner && owner[records[h].generation] == h
  }

  predicate MarkersOwned(pending: map<Handle, Marker>, owner: map<nat, Handle>) {
    forall h :: h in pending ==> pending[h].generation in owner && owner[pending[h].generation] == h
  }

  /** Every record and marker carries an issued number that belongs to its handle alone. */
  predicate Numbered(d: Disk) {
    && Issues(d.issued, d.highWater) && (forall n :: n in d.owner ==> n in d.issued)
    && RecordsOwned(d.records, d.owner) && MarkersOwned(d.pending, d.owner)
  }

  predicate Lawful(a: Admission) {
    PolicyError(a.report, a.policy, a.settings).None?
  }

  predicate Descends(h: Handle, rec: Record, admitted: map<Handle, Admission>) {
    && rec.handle == h && EvidenceMatches(rec)
    && h in admitted && rec.report == admitted[h].report && rec.kind == admitted[h].kind
  }

  /** Every record carries exactly what `generate` admitted at the root of its lineage. */
  predicate Lineage(d: Disk) {
    && (forall h :: h in d.records ==> Descends(h, d.records[h], d.admitted))
    && (forall h :: h in d.admitted ==> Lawful(d.admitted[h]))
  }

  /** A record of a live key has that key's public half and attestation. */
  predicate Genuine(d: Disk) {
    forall h :: h in d.keys && h in d.records ==> d.keys[h] == Key(d.records[h].publicKey, d.records[h].report)
  }

  predicate Sound(d: Disk) {
    Accounted(d) && MarkersOk(d) && Numbered(d) && Lineage(d) && Genuine(d)
  }

  // ---- the discipline the operations keep -----------------------------------------------

  predicate Unused(d: Disk, h: Handle) {
    && h !in d.keys && h !in d.records && h !in d.pending && h !in d.admitted
    && forall k :: k in d.pending ==> d.pending[k].supersedes != Some(h)
  }

  predicate Savable(d: Disk, rec: Record) {
    && rec.handle in d.keys && rec.handle in d.pending && rec.handle !in d.records && rec.handle !in d.admitted
    && rec.generation == d.pending[rec.handle].generation && EvidenceMatches(rec)
    && d.keys[rec.handle] == Key(rec.publicKey, rec.report)
  }

  predicate Guard(d: Disk, a: Action) {
    match a
    case Reserve => true
    case Mark(m) =>
      && Unused(d, m.handle) && m.supersedes != Some(m.handle)
      && m.generation in d.issued && m.generation !in d.owner
    case Create(h, _) => h in d.pending && h !in d.keys && h !in d.records
    case SaveFirst(rec, policy, settings) => Savable(d, rec) && PolicyError(rec.report, policy, settings).None?
    case SaveNext(rec, prior) =>
      && Savable(d, rec) && prior in d.records
      && rec.report == d.records[prior].report && rec.kind == d.records[prior].kind
      && d.records[prior].generation < rec.generation
    case Destroy(_) => true
    case Delete(h) => h !in d.keys
    case Clear(h) => h in d.keys ==> h in d.records
  }

  predicate Guarded(d: Disk, p: seq<Action>)
    decreases |p|
  {
    p == [] || (Guard(d, p[0]) && Guarded(Apply(d, p[0]), p[1..]))
  }

  lemma ReserveKeepsNumbers(d: Disk)
    requires Numbered(d)
    ensures Numbered(Apply(d, Reserve)) && d.highWater + 1 in Apply(d, Reserve).issued && d.highWater + 1 !in d.owner
  {
    var issued := d.issued + [d.highWater + 1];
    assert forall n :: n in d.issued ==> n in issued;
    assert issued[|d.issued|] == d.highWater + 1;
    assert Issues(issued, d.highWater + 1);
  }

  lemma MarkKeepsNumbers(d: Disk, m: Marker)
    requires Numbered(d) && Guard(d, Mark(m))
    ensures Numbered(Apply(d, Mark(m)))
  {
    hide Issues;
  }

  lemma SaveKeepsNumbers(d: Disk, a: Action)
    requires Numbered(d) && (a.SaveFirst? || a.SaveNext?) && Savable(d, a.rec)
    ensures Numbered(Apply(d, a))
  {
    hide Issues;
  }

  lemma GuardKeepsNumbers(d: Disk, a: Action)
    requires Numbered(d) && Guard(d, a)
    ensures Numbered(Apply(d, a))
  {
    assert a.Delete? ==> RecordsOwned(d.records - {a.h}, d.owner);
    assert a.Clear? ==> MarkersOwned(d.pending - {a.h}, d.owner);
    hide Issues, RecordsOwned, MarkersOwned;
    match a
    case Reserve => ReserveKeepsNumbers(d);
    case Mark(m) => MarkKeepsNumbers(d, m);
    case SaveFirst(_, _, _) => SaveKeepsNumbers(d, a);
    case SaveNext(_, _) => SaveKeepsNumbers(d, a);
    case _ =>
  }

  lemma SaveKeepsLineage(d: Disk, a: Action)
    requires Lineage(d) && Guard(d, a) && (a.SaveFirst? || a.SaveNext?)
    ensures Lineage(Apply(d, a))
  {
    hide PolicyError, EvidenceMatches;
    var d' := Apply(d, a);
    if a.SaveNext? {
      assert Descends(a.prior, d.records[a.prior], d.admitted);
    }
    assert Descends(a.rec.handle, a.rec, d'.admitted);
    assert forall h :: h in d.admitted ==> h in d'.admitted && d'.admitted[h] == d.admitted[h];
  }

  lemma GuardKeepsLineage(d: Disk, a: Action)
    requires Lineage(d) && Guard(d, a)
    ensures Lineage(Apply(d, a))
  {
    hide Lawful, Descends, Savable, Unused;
    if a.SaveFirst? || a.SaveNext? {
      SaveKeepsLineage(d, a);
    }
  }

  lemma GuardKeepsAccounts(d: Disk, a: Action)
    requires Accounted(d) && MarkersOk(d) && Guard(d, a)
    ensures Accounted(Apply(d, a)) && MarkersOk(Apply(d, a))
  {
  }

  lemma GuardKeepsGenuine(d: Disk, a: Action)
    requires Genuine(d) && Guard(d, a)
    ensures Genuine(Apply(d, a))
  {
  }

  lemma GuardKeepsSound(d: Disk, a: Action)
    requires Sound(d) && Guard(d, a)
    ensures Sound(Apply(d, a))
  {
    hide Numbered, Lineage, Accounted, MarkersOk, Genuine, Guard, Apply;
    GuardKeepsNumbers(d, a);
    GuardKeepsGenuine(d, a);
    GuardKeepsLineage(d, a);
    GuardKeepsAccounts(d, a);
  }

  lemma {:induction false} GuardedKeepsSound(d: Disk, p: seq<Action>, k: nat)
    requires Sound(d) && Guarded(d, p) && k <= |p|
    ensures Sound(Run(d, p[..k]))
    decreases k
  {
    hide Sound, Guard, Apply;
    if k == 0 {
      assert p[..0] == [];
    } else {
      GuardKeepsSound(d, p[0]);
      assert p[..k][0] == p[0] && p[..k][1..] == p[1..][..k - 1];
      GuardedKeepsSound(Apply(d, p[0]), p[1..], k - 1);
    }
  }

  lemma {:induction false} GuardedConcat(d: Disk, p: seq<Action>, q: seq<Action>)
    requires Guarded(d, p) && Guarded(Run(d, p), q)
    ensures Guarded(d, p + q)
    decreases |p|
  {
    hide Guard, Apply;
    if p == [] {
      assert p + q == q;
    } else {
      assert (p + q)[0] == p[0] && (p + q)[1..] == p[1..] + q;
      GuardedConcat(Apply(d, p[0]), p[1..], q);
    }
  }

  lemma GuardedCons(d: Disk, a: Action, p: seq<Action>)
    requires Guard(d, a) && Guarded(Apply(d, a), p)
    ensures Guarded(d, [a] + p)
  {
    assert ([a] + p)[0] == a && ([a] + p)[1..] == p;
  }

  // ---- reconciliation --------------------------------------------------------------------

  /** `ms` lists markers that are pending, each once. */
  predicate Listed(ms: seq<Marker>, pending: map<Handle, Marker>) {
    && (forall i :: 0 <= i < |ms| ==> ms[i].handle in pending && pending[ms[i].handle] == ms[i])
    && (forall i, j :: 0 <= i < j < |ms| ==> ms[i].handle != ms[j].handle)
  }

  function Handles(ms: seq<Marker>): (hs: set<Handle>) {
    set m | m in ms :: m.handle
  }

  lemma MarkerPlanGuarded(d: Disk, m: Marker)
    requires Sound(d) && m.handle in d.pending && d.pending[m.handle] == m
    ensures Guarded(d, MarkerPlan(d, m))
    ensures Run(d, MarkerPlan(d, m)).pending == d.pending - {m.handle}
  {
    hide Numbered, Lineage;
    var p := MarkerPlan(d, m);
    var d1 := Apply(d, p[0]);
    if |p| == 1 {
      assert p[1..] == [];
    } else if |p| == 2 {
      assert p[1..] == [p[1]] && p[1..][1..] == [];
      assert Guarded(d1, p[1..]);
      assert Run(d1, p[1..]) == Apply(d1, p[1]);
    } else {
      var d2 := Apply(d1, p[1]);
      assert p[1..][0] == p[1] && p[1..][1..] == [p[2]] && [p[2]][1..] == [];
      assert Guarded(d2, [p[2]]);
      assert Guarded(d1, p[1..]);
      assert Run(d2, [p[2]]) == Apply(d2, p[2]);
    }
  }

  lemma {:induction false} ReconcilePlanGuarded(d: Disk, ms: seq<Marker>)
    requires Sound(d) && Listed(ms, d.pending)
    ensures Guarded(d, ReconcilePlan(d, ms))
    ensures Run(d, ReconcilePlan(d, ms)).pending == d.pending - Handles(ms)
    decreases |ms|
  {
    hide Sound, Guarded, Run, MarkerPlan;
    if ms == [] {
      GuardedNothing(d);
    } else {
      var p := MarkerPlan(d, ms[0]);
      MarkerPlanGuarded(d, ms[0]);
      var d1 := Run(d, p);
      GuardedKeepsSound(d, p, |p|);
      assert p[..|p|] == p;
      ReconcilePlanGuarded(d1, ms[1..]);
      GuardedConcat(d, p, ReconcilePlan(d1, ms[1..]));
      RunConcat(d, p, ReconcilePlan(d1, ms[1..]));
      assert Handles(ms) == {ms[0].handle} + Handles(ms[1..]);
    }
  }

  lemma GuardedNothing(d: Disk)
    ensures Guarded(d, []) && Run(d, []) == d
  {
  }

  /** A reconciliation that completes leaves no marker, and a record for every live key. */
  lemma ReconcileSettles(d: Disk, ms: seq<Marker>)
    requires Sound(d) && Listed(ms, d.pending) && Handles(ms) == d.pending.Keys
    ensures var d' := Run(d, ReconcilePlan(d, ms));
            d'.pending == map[] && forall h :: h in d'.keys ==> h in d'.records
  {
    hide Numbered, Lineage;
    ReconcilePlanGuarded(d, ms);
    var p := ReconcilePlan(d, ms);
    GuardedKeepsSound(d, p, |p|);
    assert p[..|p|] == p;
  }

  // ---- generate, rotate, destroy -----------------------------------------------------------

  lemma MarkAllowed(d: Disk, m: Marker)
    requires Sound(d) && Unused(d, m.handle) && m.supersedes != Some(m.handle) && m.generation == d.highWater + 1
    ensures Guard(d, Reserve) && Guard(Apply(d, Reserve), Mark(m))
  {
    hide Numbered, Lineage;
    ReserveKeepsNumbers(d);
  }

  lemma CreateAllowed(d: Disk, m: Marker, key: Key)
    requires Unused(d, m.handle)
    ensures Guard(Apply(Apply(d, Reserve), Mark(m)), Create(m.handle, key))
  {
  }

  lemma StartGuarded(d: Disk, m: Marker, key: Key, rest: seq<Action>)
    requires Sound(d) && Unused(d, m.handle) && m.supersedes != Some(m.handle) && m.generation == d.highWater + 1
    requires var d3 := Apply(Apply(Apply(d, Reserve), Mark(m)), Create(m.handle, key));
             Guarded(d3, rest)
    ensures Guarded(d, [Reserve, Mark(m), Create(m.handle, key)] + rest)
  {
    hide Guarded, Sound, Unused, Guard;
    MarkAllowed(d, m);
    var d1 := Apply(d, Reserve);
    var d2 := Apply(d1, Mark(m));
    CreateAllowed(d, m, key);
    GuardedCons(d2, Create(m.handle, key), rest);
    GuardedCons(d1, Mark(m), [Create(m.handle, key)] + rest);
    GuardedCons(d, Reserve, [Mark(m)] + ([Create(m.handle, key)] + rest));
    assert [Reserve, Mark(m), Create(m.handle, key)] + rest
        == [Reserve] + ([Mark(m)] + ([Create(m.handle, key)] + rest));
  }

  lemma UndoGuarded(d: Disk, h: Handle)
    ensures Guarded(d, [Destroy(h), Clear(h)])
  {
    assert [Destroy(h), Clear(h)][1..] == [Clear(h)] && [Clear(h)][1..] == [];
  }

  lemma GeneratePlanGuarded(d: Disk, s: Settings, kind: int, policy: Policy, h: Handle, key: Key)
    requires Sound(d) && Unused(d, h)
    ensures Guarded(d, GeneratePlan(d, s, kind, policy, h, key))
  {
    hide PolicyError, Sound, Guarded;
    var m := Marker(h, d.highWater + 1, None);
    var d3 := Apply(Apply(Apply(d, Reserve), Mark(m)), Create(h, key));
    if PolicyError(key.report, policy, s).Some? {
      UndoGuarded(d3, h);
      StartGuarded(d, m, key, [Destroy(h), Clear(h)]);
    } else {
      var save := SaveFirst(RecordOf(h, kind, key, d.highWater + 1), policy, s);
      GuardedNothing(Apply(Apply(d3, save), Clear(h)));
      GuardedCons(Apply(d3, save), Clear(h), []);
      assert [Clear(h)] + [] == [Clear(h)];
      GuardedCons(d3, save, [Clear(h)]);
      assert [save] + [Clear(h)] == [save, Clear(h)];
      StartGuarded(d, m, key, [save, Clear(h)]);
    }
  }

  lemma MatchIsExact(live: Report, recorded: Report, s: Settings)
    requires MatchError(live, recorded, s).None?
    ensures live == recorded && ReportError(live).None? && live.profile == s.profile
  {
  }

  lemma HandOverGuarded(d: Disk, rec: Record, prior: Handle)
    requires Savable(d, rec) && prior in d.records && prior != rec.handle
    requires rec.report == d.records[prior].report && rec.kind == d.records[prior].kind
    requires d.records[prior].generation < rec.generation
    ensures Guarded(d, [SaveNext(rec, prior), Destroy(prior), Delete(prior), Clear(rec.handle)])
  {
    hide Guarded;
    var d1 := Apply(d, SaveNext(rec, prior));
    var d2 := Apply(d1, Destroy(prior));
    var d3 := Apply(d2, Delete(prior));
    var d4 := Apply(d3, Clear(rec.handle));
    GuardedNothing(d4);
    GuardedCons(d3, Clear(rec.handle), []);
    GuardedCons(d2, Delete(prior), [Clear(rec.handle)] + []);
    GuardedCons(d1, Destroy(prior), [Delete(prior)] + ([Clear(rec.handle)] + []));
    GuardedCons(d, SaveNext(rec, prior), [Destroy(prior)] + ([Delete(prior)] + ([Clear(rec.handle)] + [])));
    assert [SaveNext(rec, prior), Destroy(prior), Delete(prior), Clear(rec.handle)]
        == [SaveNext(rec, prior)] + ([Destroy(prior)] + ([Delete(prior)] + ([Clear(rec.handle)] + [])));
  }

  lemma NumberIssued(d: Disk, h: Handle)
    requires Sound(d) && h in d.records
    ensures d.records[h].generation <= d.highWater
  {
    hide Lineage, Accounted, MarkersOk;
  }

  lemma RotatePlanGuarded(d: Disk, s: Settings, prior: Handle, h: Handle, key: Key)
    requires Sound(d) && Unused(d, h)
    ensures Guarded(d, RotatePlan(d, s, prior, h, key))
  {
    hide LoadError, MatchError, Sound, Guarded;
    GuardedNothing(d);
    if LoadError(d.records, prior, s).None? {
      var m := Marker(h, d.highWater + 1, Some(prior));
      var d1 := Apply(d, Reserve);
      var d2 := Apply(d1, Mark(m));
      var d3 := Apply(d2, Create(h, key));
      var start := [Reserve, Mark(m)];
      if prior !in d.keys {
        ReserveAndMarkGuarded(d, m);
      } else if MatchError(key.report, d.records[prior].report, s).Some? {
        UndoGuarded(d3, h);
        StartGuarded(d, m, key, [Destroy(h), Clear(h)]);
        assert start + [Create(h, key)] == [Reserve, Mark(m), Create(h, key)];
      } else {
        MatchIsExact(key.report, d.records[prior].report, s);
        var rec := RecordOf(h, d.records[prior].kind, key, d.highWater + 1);
        NumberIssued(d, prior);
        HandOverGuarded(d3, rec, prior);
        StartGuarded(d, m, key, [SaveNext(rec, prior), Destroy(prior), Delete(prior), Clear(h)]);
        assert start + [Create(h, key)] == [Reserve, Mark(m), Create(h, key)];
      }
    }
  }

  lemma ReserveAndMarkGuarded(d: Disk, m: Marker)
    requires Sound(d) && Unused(d, m.handle) && m.supersedes != Some(m.handle) && m.generation == d.highWater + 1
    ensures Guarded(d, [Reserve, Mark(m)])
  {
    hide Guarded, Guard, Sound;
    MarkAllowed(d, m);
    var d1 := Apply(d, Reserve);
    GuardedNothing(Apply(d1, Mark(m)));
    GuardedCons(d1, Mark(m), []);
    GuardedCons(d, Reserve, [Mark(m)] + []);
    assert [Reserve, Mark(m)] == [Reserve] + ([Mark(m)] + []);
  }

  lemma MainPlanGuarded(d: Disk, s: Settings, r: Request)
    requires Sound(d) && (r.Generate? || r.Rotate? ==> Unused(d, r.handle))
    ensures Guarded(d, MainPlan(d, s, r))
  {
    hide Guarded, GeneratePlan, RotatePlan;
    match r
    case Generate(kind, policy, h, key) => GeneratePlanGuarded(d, s, kind, policy, h, key);
    case Rotate(prior, h, key) => RotatePlanGuarded(d, s, prior, h, key);
    case DestroyIdentity(prior) =>
      GuardedNothing(d);
      var d1 := Apply(d, Destroy(prior));
      GuardedNothing(Apply(d1, Delete(prior)));
      GuardedCons(d1, Delete(prior), []);
      GuardedCons(d, Destroy(prior), [Delete(prior)] + []);
      assert [Destroy(prior), Delete(prior)] == [Destroy(prior)] + ([Delete(prior)] + []);
    case Reopen(_) => GuardedNothing(d);
  }

  // ---- whole runs ------------------------------------------------------------------------

  /** The disk and whether the running provider has finished reconciling. */
  datatype Service = Service(disk: Disk, reconciled: bool)

  const INSTALLED := Service(BLANK, false)

  /**
    An attempt at a request stops after `k` actions: it ran to its end, threw, failed or died.
    `restart` says that the next attempt is made by a provider that has yet to reconcile.
    Keys may also vanish from the keystore between attempts.
  */
  datatype Event =
    | Attempt(s: Settings, r: Request, ms: seq<Marker>, k: nat, restart: bool)
    | LoseKey(h: Handle)

  function Cleanup(v: Service, ms: seq<Marker>): (p: seq<Action>) {
    if v.reconciled then [] else ReconcilePlan(v.disk, ms)
  }

  predicate TurnedAway(r: Request) {
    r.Generate? && !ValidPolicy(r.policy)
  }

  function FullPlan(v: Service, s: Settings, r: Request, ms: seq<Marker>): (p: seq<Action>) {
    if TurnedAway(r) then []
    else
      var p := Cleanup(v, ms);
      p + MainPlan(Run(v.disk, p), s, r)
  }

  predicate Possible(v: Service, e: Event) {
    match e
    case LoseKey(_) => true
    case Attempt(s, r, ms, k, _) =>
      && Listed(ms, v.disk.pending) && Handles(ms) == v.disk.pending.Keys
      && (r.Generate? || r.Rotate? ==> Unused(v.disk, r.handle))
      && k <= |FullPlan(v, s, r, ms)|
  }

  function After(v: Service, e: Event): (v': Service)
    requires Possible(v, e)
  {
    match e
    case LoseKey(h) => v.(disk := Apply(v.disk, Destroy(h)))
    case Attempt(s, r, ms, k, restart) =>
      Service(Run(v.disk, FullPlan(v, s, r, ms)[..k]),
              !restart && (v.reconciled || (!TurnedAway(r) && k >= |Cleanup(v, ms)|)))
  }

  predicate Happens(v: Service, es: seq<Event>)
    decreases |es|
  {
    es == [] || (Possible(v, es[0]) && Happens(After(v, es[0]), es[1..]))
  }

  function Reached(v: Service, es: seq<Event>): (v': Service)
    requires Happens(v, es)
    decreases |es|
  {
    if es == [] then v else Reached(After(v, es[0]), es[1..])
  }

  predicate Removal(a: Action) {
    a.Destroy? || a.Delete? || a.Clear?
  }

  lemma {:induction false} RemovalsKeepUnused(d: Disk, p: seq<Action>, h: Handle)
    requires Unused(d, h) && forall i :: 0 <= i < |p| ==> Removal(p[i])
    ensures Unused(Run(d, p), h)
    decreases |p|
  {
    if p != [] {
      assert Removal(p[0]);
      RemovalsKeepUnused(Apply(d, p[0]), p[1..], h);
    }
  }

  lemma {:induction false} ReconcileRemoves(d: Disk, ms: seq<Marker>)
    ensures forall i :: 0 <= i < |ReconcilePlan(d, ms)| ==> Removal(ReconcilePlan(d, ms)[i])
    decreases |ms|
  {
    hide Run;
    if ms != [] {
      ReconcileRemoves(Run(d, MarkerPlan(d, ms[0])), ms[1..]);
    }
  }

  /** Reconciliation takes names away and adds none. */
  lemma ReconcileKeepsUnused(d: Disk, ms: seq<Marker>, h: Handle)
    requires Unused(d, h)
    ensures Unused(Run(d, ReconcilePlan(d, ms)), h)
  {
    hide ReconcilePlan, Run, Unused, Removal;
    ReconcileRemoves(d, ms);
    RemovalsKeepUnused(d, ReconcilePlan(d, ms), h);
  }

  lemma CleanupGuarded(v: Service, ms: seq<Marker>)
    requires Sound(v.disk) && Listed(ms, v.disk.pending)
    ensures Guarded(v.disk, Cleanup(v, ms)) && Sound(Run(v.disk, Cleanup(v, ms)))
  {
    hide Sound, Guarded, Listed;
    var p := Cleanup(v, ms);
    if v.reconciled {
      GuardedNothing(v.disk);
    } else {
      ReconcilePlanGuarded(v.disk, ms);
    }
    GuardedKeepsSound(v.disk, p, |p|);
    assert p[..|p|] == p;
  }

  lemma FullPlanGuarded(v: Service, s: Settings, r: Request, ms: seq<Marker>)
    requires Sound(v.disk) && Listed(ms, v.disk.pending) && (r.Generate? || r.Rotate? ==> Unused(v.disk, r.handle))
    ensures Guarded(v.disk, FullPlan(v, s, r, ms))
  {
    hide Sound, Guarded, Listed, Unused, MainPlan, ReconcilePlan;
    GuardedNothing(v.disk);
    if !TurnedAway(r) {
      CleanupGuarded(v, ms);
      if (r.Generate? || r.Rotate?) && !v.reconciled {
        ReconcileKeepsUnused(v.disk, ms, r.handle);
      }
      MainPlanGuarded(Run(v.disk, Cleanup(v, ms)), s, r);
      GuardedConcat(v.disk, Cleanup(v, ms), MainPlan(Run(v.disk, Cleanup(v, ms)), s, r));
    }
  }

  lemma EventKeepsSound(v: Service, e: Event)
    requires Sound(v.disk) && Possible(v, e)
    ensures Sound(After(v, e).disk)
  {
    hide Sound, Guarded, Listed, Unused, FullPlan;
    match e
    case LoseKey(h) => GuardKeepsSound(v.disk, Destroy(h));
    case Attempt(s, r, ms, k, _) =>
      FullPlanGuarded(v, s, r, ms);
      GuardedKeepsSound(v.disk, FullPlan(v, s, r, ms), k);
  }

  lemma {:induction false} RunKeepsSound(v: Service, es: seq<Event>)
    requires Sound(v.disk) && Happens(v, es)
    ensures Sound(Reached(v, es).disk)
    decreases |es|
  {
    hide Sound, Possible, After;
    if es != [] {
      EventKeepsSound(v, es[0]);
      RunKeepsSound(After(v, es[0]), es[1..]);
    }
  }

  lemma InstalledSound()
    ensures Sound(INSTALLED.disk)
  {
  }

  /** In every reachable state, after any deaths and failures, each live key has a record or a marker. */
  lemma NoUnaccountedKey(es: seq<Event>, h: Handle)
    requires Happens(INSTALLED, es) && h in Reached(INSTALLED, es).disk.keys
    ensures h in Reached(INSTALLED, es).disk.records || h in Reached(INSTALLED, es).disk.pending
  {
    hide Happens, Reached, Numbered, Lineage;
    InstalledSound();
    RunKeepsSound(INSTALLED, es);
  }

  /** In every reachable state the record of a live key carries that key's public half and attestation. */
  lemma RecordsAreGenuine(es: seq<Event>, h: Handle)
    requires Happens(INSTALLED, es)
    ensures var d := Reached(INSTALLED, es).disk;
            h in d.keys && h in d.records ==>
              d.records[h].publicKey == d.keys[h].publicKey && d.records[h].report == d.keys[h].report
  {
    hide Happens, Reached, Numbered, Lineage, Accounted;
    InstalledSound();
    RunKeepsSound(INSTALLED, es);
  }

  /** No two records of a reachable state share a generation number, and each number was issued. */
  lemma OneNumberPerIdentity(es: seq<Event>, h: Handle, k: Handle)
    requires Happens(INSTALLED, es)
    ensures var d := Reached(INSTALLED, es).disk;
            h in d.records && k in d.records && d.records[h].generation == d.records[k].generation ==> h == k
    ensures var d := Reached(INSTALLED, es).disk;
            h in d.records ==> d.records[h].generation in d.issued
  {
    hide Happens, Reached, Accounted, Lineage;
    InstalledSound();
    RunKeepsSound(INSTALLED, es);
  }

  // ---- what is never taken back ------------------------------------------------------------

  /** Numbers stay issued and admissions stay as they were. */
  predicate Extends(d: Disk, d': Disk) {
    && d.issued <= d'.issued
    && forall h :: h in d.admitted ==> h in d'.admitted && d'.admitted[h] == d.admitted[h]
  }

  lemma ExtendsTransitive(a: Disk, b: Disk, c: Disk)
    requires Extends(a, b) && Extends(b, c)
    ensures Extends(a, c)
  {
  }

  lemma GuardExtends(d: Disk, a: Action)
    requires Guard(d, a)
    ensures Extends(d, Apply(d, a))
  {
    hide PolicyError;
  }

  lemma {:induction false} GuardedExtends(d: Disk, p: seq<Action>, k: nat)
    requires Guarded(d, p) && k <= |p|
    ensures Extends(d, Run(d, p[..k]))
    decreases k
  {
    if k == 0 {
      assert p[..0] == [];
    } else {
      hide Guard, Apply, Extends;
      GuardExtends(d, p[0]);
      assert p[..k][0] == p[0] && p[..k][1..] == p[1..][..k - 1];
      GuardedExtends(Apply(d, p[0]), p[1..], k - 1);
      ExtendsTransitive(d, Apply(d, p[0]), Run(d, p[..k]));
    }
  }

  lemma EventExtends(v: Service, e: Event)
    requires Sound(v.disk) && Possible(v, e)
    ensures Extends(v.disk, After(v, e).disk)
  {
    hide Sound, Guarded, Listed, Unused, FullPlan, Extends;
    match e
    case LoseKey(h) => GuardExtends(v.disk, Destroy(h));
    case Attempt(s, r, ms, k, _) =>
      FullPlanGuarded(v, s, r, ms);
      GuardedExtends(v.disk, FullPlan(v, s, r, ms), k);
  }

  lemma {:induction false} RunExtends(v: Service, es: seq<Event>)
    requires Sound(v.disk) && Happens(v, es)
    ensures Extends(v.disk, Reached(v, es).disk)
    decreases |es|
  {
    hide Sound, Possible, After;
    if es != [] {
      EventKeepsSound(v, es[0]);
      EventExtends(v, es[0]);
      RunExtends(After(v, es[0]), es[1..]);
      ExtendsTransitive(v.disk, After(v, es[0]).disk, Reached(v, es).disk);
    }
  }

  /** A number issued later in a run exceeds every number issued before, whatever was destroyed since. */
  lemma LaterNumbersAreLarger(v: Service, es: seq<Event>, i: nat, j: nat)
    requires Sound(v.disk) && Happens(v, es)
    requires i < |v.disk.issued| <= j < |Reached(v, es).disk.issued|
    ensures v.disk.issued[i] < Reached(v, es).disk.issued[j]
  {
    hide Happens, Reached, Accounted, Lineage;
    RunExtends(v, es);
    RunKeepsSound(v, es);
    assert Reached(v, es).disk.issued[i] == v.disk.issued[i];
  }

  // ---- lineage ---------------------------------------------------------------------------------

  function AdmissionOf(a: Action): (r: Admission)
    requires a.SaveFirst?
  {
    Admission(a.rec.handle, a.rec.kind, a.rec.report, a.policy, a.settings)
  }

  /** Every admission a list of actions makes is `a`; without one it makes none. */
  predicate AdmitsOnly(p: seq<Action>, a: Option<Admission>) {
    forall i :: 0 <= i < |p| && p[i].SaveFirst? ==> a == Some(AdmissionOf(p[i]))
  }

  predicate Holds(d: Disk, a: Admission) {
    exists h :: h in d.admitted && d.admitted[h] == a
  }

  lemma {:induction false} RunAdmits(d: Disk, p: seq<Action>, only: Option<Admission>, a: Admission)
    requires AdmitsOnly(p, only) && Holds(Run(d, p), a)
    ensures Holds(d, a) || only == Some(a)
    decreases |p|
  {
    if p != [] {
      RunAdmits(Apply(d, p[0]), p[1..], only, a);
      if only != Some(a) {
        var h :| h in Apply(d, p[0]).admitted && Apply(d, p[0]).admitted[h] == a;
        if p[0].SaveNext? && h == p[0].rec.handle && p[0].prior in d.admitted {
          assert d.admitted[p[0].prior] == a;
        } else {
          assert h in d.admitted && d.admitted[h] == a;
        }
      }
    }
  }

  lemma {:induction false} ReconcileAdmitsNothing(d: Disk, ms: seq<Marker>)
    ensures AdmitsOnly(ReconcilePlan(d, ms), None)
    decreases |ms|
  {
    if ms != [] {
      ReconcileAdmitsNothing(Run(d, MarkerPlan(d, ms[0])), ms[1..]);
    }
  }

  /** What an event can admit: a `generate` admits the report its module gave under its own policy. */
  function Admits(e: Event): (a: Option<Admission>) {
    if e.Attempt? && e.r.Generate? then Some(Admission(e.r.handle, e.r.kind, e.r.key.report, e.r.policy, e.s)) else None
  }

  lemma FullPlanAdmits(v: Service, e: Event)
    requires e.Attempt?
    ensures AdmitsOnly(FullPlan(v, e.s, e.r, e.ms), Admits(e))
  {
    hide LoadError, MatchError, PolicyError, Run, ReconcilePlan;
    if !v.reconciled {
      ReconcileAdmitsNothing(v.disk, e.ms);
    }
  }

  /** Every admission on a reachable disk was made by a `generate` of the run. */
  lemma {:induction false} AdmittedByGenerate(v: Service, es: seq<Event>, a: Admission) returns (i: nat)
    requires Happens(v, es) && Holds(Reached(v, es).disk, a) && !Holds(v.disk, a)
    ensures i < |es| && Admits(es[i]) == Some(a)
    decreases |es|
  {
    hide FullPlan, Holds;
    if es == [] {
      assert false;
    } else {
      var v1 := After(v, es[0]);
      if Holds(v1.disk, a) {
        if es[0].Attempt? {
          var p := FullPlan(v, es[0].s, es[0].r, es[0].ms);
          FullPlanAdmits(v, es[0]);
          RunAdmits(v.disk, p[..es[0].k], Admits(es[0]), a);
        } else {
          assert [Destroy(es[0].h)][1..] == [];
          assert Run(v.disk, [Destroy(es[0].h)]) == v1.disk;
          RunAdmits(v.disk, [Destroy(es[0].h)], None, a);
        }
        i := 0;
      } else {
        i := AdmittedByGenerate(v1, es[1..], a);
        i := i + 1;
      }
    }
  }

  lemma SoundLoads(d: Disk, h: Handle, s: Settings)
    requires Sound(d)
    ensures LoadError(d.records, h, s) ==
            if h !in d.records then Some(NotFound)
            else if d.records[h].report.profile != s.profile then Some(PolicyDenied)
            else None
    ensures h in d.records ==> Consistent(d.records[h].report)
  {
    hide Numbered, Accounted, Genuine;
    if h in d.records {
      var a := d.admitted[h];
      assert Lawful(a);
      PolicyExactly(a.report, a.policy, a.settings);
    }
  }

  /** A provider never finds a record of its own corrupted: it is absent, another profile's, or good. */
  lemma OwnRecordsLoad(es: seq<Event>, h: Handle, s: Settings)
    requires Happens(INSTALLED, es)
    ensures var d := Reached(INSTALLED, es).disk;
            LoadError(d.records, h, s) ==
            if h !in d.records then Some(NotFound)
            else if d.records[h].report.profile != s.profile then Some(PolicyDenied)
            else None
  {
    hide Happens, Reached, Sound, LoadError;
    InstalledSound();
    RunKeepsSound(INSTALLED, es);
    SoundLoads(Reached(INSTALLED, es).disk, h, s);
  }

  // ---- a module that misreports the handle ---------------------------------------------------

  /** What follows a key made under a handle nobody asked for; `retired` says whether it could be destroyed. */
  function MisreportPlan(expected: Handle, returned: Handle, generation: nat, retired: bool): (p: seq<Action>) {
    if retired then [Destroy(returned), Clear(expected)]
    else [Mark(Marker(returned, generation, None)), Clear(expected)]
  }

  /** Such a key is unaccounted until the first of those actions, and accounted from then on. */
  lemma MisreportedKey(d: Disk, expected: Handle, returned: Handle, key: Key, generation: nat, retired: bool, k: nat)
    requires Accounted(d) && Unused(d, returned) && returned != expected && expected !in d.keys && k <= 2
    ensures var d1 := Apply(d, Create(returned, key));
            Accounted(Run(d1, MisreportPlan(expected, returned, generation, retired)[..k])) <==> k > 0
  {
    var d1 := Apply(d, Create(returned, key));
    var p := MisreportPlan(expected, returned, generation, retired);
    var d2 := Apply(d1, p[0]);
    assert returned in d1.keys;
    if k == 0 {
      assert p[..0] == [];
    } else if k == 1 {
      assert p[..1] == [p[0]] && [p[0]][1..] == [];
    } else {
      assert p[..2] == p && p[1..] == [p[1]] && [p[1]][1..] == [];
      assert Run(d2, [p[1]]) == Apply(d2, p[1]);
      assert Run(d1, p) == Apply(d2, p[1]);
    }
  }
}
