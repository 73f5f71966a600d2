/** Lines of descent: from the `generate` that made an identity through the rotations since. */
module CustodyLineage {
  import opened Bytes
  import opened CustodyModel
  import opened CustodyRuns

  /** A line of descent: the `generate` at its root, or one more rotation; each with the number it took. */
  datatype Line = Born(e: Event, number: nat) | Next(parent: Line, e: Event, number: nat)

  // ---- the lines of a run, read off its events ------------------------------------------------

  /** A first record starts a line with its event; a next one continues the line of the identity it replaces. */
  function Note(lines: map<Handle, Line>, a: Action, e: Event): (r: map<Handle, Line>) {
    match a
    case SaveFirst(rec, _, _) => lines[rec.handle := Born(e, rec.generation)]
    case SaveNext(rec, prior) =>
      if prior in lines then lines[rec.handle := Next(lines[prior], e, rec.generation)] else lines
    case _ => lines
  }

  function NoteAll(lines: map<Handle, Line>, p: seq<Action>, e: Event): (r: map<Handle, Line>)
    decreases |p|
  {
    if p == [] then lines else NoteAll(Note(lines, p[0], e), p[1..], e)
  }

  /** What an attempt saved before it stopped. */
  function NoteEvent(lines: map<Handle, Line>, v: Service, e: Event): (r: map<Handle, Line>)
    requires Possible(v, e)
  {
    if e.Attempt? then NoteAll(lines, FullPlan(v, e.s, e.r, e.ms)[..e.k], e) else lines
  }

  /** The same over a whole run. */
  function Lines(v: Service, es: seq<Event>, lines: map<Handle, Line>): (r: map<Handle, Line>)
    requires Happens(v, es)
    decreases |es|
  {
    if es == [] then lines else Lines(After(v, es[0]), es[1..], NoteEvent(lines, v, es[0]))
  }

  // ---- what a line is -----------------------------------------------------------------------------

  /** The identity an event makes, if it is one that can. */
  function Child(e: Event): (h: Option<Handle>) {
    if e.Attempt? && (e.r.Generate? || e.r.Rotate?) then Some(e.r.handle) else None
  }

  function Birth(l: Line): (e: Event) {
    match l
    case Born(e, _) => e
    case Next(parent, _, _) => Birth(parent)
  }

  /**
    A `generate` of the run, then rotations of the run, each of the identity before it; the report is
    the one admitted at birth all along, and every number exceeds its parent's.
  */
  predicate Unbroken(l: Line, past: seq<Event>)
    ensures Unbroken(l, past) ==> Birth(l).Attempt? && Birth(l).r.Generate? && Birth(l) in past
  {
    match l
    case Born(e, _) => e in past && e.Attempt? && e.r.Generate?
    case Next(parent, e, number) =>
      && Unbroken(parent, past) && e in past && e.Attempt? && e.r.Rotate?
      && Child(parent.e) == Some(e.r.prior)
      && e.r.key.report == Birth(parent).r.key.report
      && parent.number < number
  }

  lemma {:induction false} UnbrokenLater(l: Line, past: seq<Event>, e: Event)
    requires Unbroken(l, past)
    ensures Unbroken(l, past + [e])
    decreases l
  {
    if l.Next? {
      UnbrokenLater(l.parent, past, e);
    }
  }

  // ---- every record has its line -------------------------------------------------------------------

  predicate LineOf(l: Line, h: Handle, a: Admission, past: seq<Event>) {
    Unbroken(l, past) && Child(l.e) == Some(h) && Admits(Birth(l)) == Some(a)
  }

  /** The record carries the number and the public key its line ends in. */
  predicate Made(l: Line, rec: Record) {
    && l.number == rec.generation && l.e.Attempt? && (l.e.r.Generate? || l.e.r.Rotate?)
    && rec.publicKey == l.e.r.key.publicKey
  }

  predicate LinesOk(lines: map<Handle, Line>, d: Disk, past: seq<Event>) {
    && (forall h :: h in d.admitted ==> h in lines && LineOf(lines[h], h, d.admitted[h], past))
    && (forall h :: h in d.records ==> h in lines && Made(lines[h], d.records[h]))
  }

  /** The saves of an event are those of its own request. */
  predicate SavesOwn(a: Action, e: Event) {
    && (a.SaveFirst? ==> Admits(e) == Some(AdmissionOf(a)) && a.rec.publicKey == e.r.key.publicKey)
    && (a.SaveNext? ==> && e.Attempt? && e.r.Rotate? && a.prior == e.r.prior
                        && a.rec.handle == e.r.handle && a.rec.report == e.r.key.report
                        && a.rec.publicKey == e.r.key.publicKey)
  }

  lemma ReconcileSavesNothing(d: Disk, ms: seq<Marker>, e: Event)
    ensures forall i :: 0 <= i < |ReconcilePlan(d, ms)| ==> SavesOwn(ReconcilePlan(d, ms)[i], e)
  {
    hide ReconcilePlan;
    ReconcileRemoves(d, ms);
  }

  lemma FullPlanSavesOwn(v: Service, e: Event)
    requires e.Attempt?
    ensures forall i :: 0 <= i < |FullPlan(v, e.s, e.r, e.ms)| ==> SavesOwn(FullPlan(v, e.s, e.r, e.ms)[i], e)
  {
    hide LoadError, MatchError, PolicyError, Run, ReconcilePlan;
    if !v.reconciled {
      ReconcileSavesNothing(v.disk, e.ms, e);
    }
  }

  lemma SaveNextKeepsLines(lines: map<Handle, Line>, d: Disk, a: Action, e: Event, past: seq<Event>)
    requires LinesOk(lines, d, past) && Lineage(d) && Guard(d, a) && a.SaveNext? && SavesOwn(a, e) && e in past
    ensures LinesOk(Note(lines, a, e), Apply(d, a), past)
  {
    hide EvidenceMatches, Lawful;
    var prior, rec := a.prior, a.rec;
    assert Descends(prior, d.records[prior], d.admitted);
    var l := lines[prior];
    assert LineOf(l, prior, d.admitted[prior], past);
    assert LineOf(Next(l, e, rec.generation), rec.handle, d.admitted[prior], past);
    hide LineOf;
  }

  lemma SaveFirstKeepsLines(lines: map<Handle, Line>, d: Disk, a: Action, e: Event, past: seq<Event>)
    requires LinesOk(lines, d, past) && Guard(d, a) && a.SaveFirst? && SavesOwn(a, e) && e in past
    ensures LinesOk(Note(lines, a, e), Apply(d, a), past)
  {
    hide PolicyError;
    assert LineOf(Born(e, a.rec.generation), a.rec.handle, AdmissionOf(a), past);
    hide LineOf;
  }

  lemma ActionKeepsLines(lines: map<Handle, Line>, d: Disk, a: Action, e: Event, past: seq<Event>)
    requires LinesOk(lines, d, past) && Lineage(d) && Guard(d, a) && SavesOwn(a, e) && e in past
    ensures LinesOk(Note(lines, a, e), Apply(d, a), past)
  {
    hide LineOf, Unused, Savable, Descends;
    if a.SaveNext? {
      SaveNextKeepsLines(lines, d, a, e, past);
    } else if a.SaveFirst? {
      SaveFirstKeepsLines(lines, d, a, e, past);
    }
  }

  lemma {:induction false} PlanKeepsLines(lines: map<Handle, Line>, d: Disk, p: seq<Action>, k: nat, e: Event,
                                          past: seq<Event>)
    requires LinesOk(lines, d, past) && Sound(d) && Guarded(d, p) && k <= |p| && e in past
    requires forall i :: 0 <= i < |p| ==> SavesOwn(p[i], e)
    ensures LinesOk(NoteAll(lines, p[..k], e), Run(d, p[..k]), past)
    decreases k
  {
    if k == 0 {
      assert p[..0] == [];
    } else {
      assert Lineage(d);
      hide LinesOk, Sound, Guard, Apply, Note, SavesOwn, Lineage;
      ActionKeepsLines(lines, d, p[0], e, past);
      GuardKeepsSound(d, p[0]);
      assert p[..k][0] == p[0] && p[..k][1..] == p[1..][..k - 1];
      PlanKeepsLines(Note(lines, p[0], e), Apply(d, p[0]), p[1..], k - 1, e, past);
    }
  }

  lemma MorePast(lines: map<Handle, Line>, d: Disk, past: seq<Event>, e: Event)
    requires LinesOk(lines, d, past)
    ensures LinesOk(lines, d, past + [e])
  {
    forall h | h in d.admitted ensures h in lines && LineOf(lines[h], h, d.admitted[h], past + [e]) {
      UnbrokenLater(lines[h], past, e);
    }
  }

  lemma EventKeepsLines(lines: map<Handle, Line>, v: Service, e: Event, past: seq<Event>)
    requires LinesOk(lines, v.disk, past) && Sound(v.disk) && Possible(v, e) && e in past
    ensures LinesOk(NoteEvent(lines, v, e), After(v, e).disk, past)
  {
    hide Sound, FullPlan, Listed, Unused, Guarded;
    if e.Attempt? {
      hide LinesOk;
      FullPlanGuarded(v, e.s, e.r, e.ms);
      FullPlanSavesOwn(v, e);
      PlanKeepsLines(lines, v.disk, FullPlan(v, e.s, e.r, e.ms), e.k, e, past);
    }
  }

  lemma {:induction false} RunKeepsLines(lines: map<Handle, Line>, v: Service, es: seq<Event>, past: seq<Event>)
    requires LinesOk(lines, v.disk, past) && Sound(v.disk) && Happens(v, es)
    ensures LinesOk(Lines(v, es, lines), Reached(v, es).disk, past + es)
    decreases |es|
  {
    hide LinesOk, Sound, Possible, After, NoteEvent;
    if es == [] {
      assert past + es == past;
    } else {
      var e := es[0];
      MorePast(lines, v.disk, past, e);
      EventKeepsLines(lines, v, e, past + [e]);
      EventKeepsSound(v, e);
      RunKeepsLines(NoteEvent(lines, v, e), After(v, e), es[1..], past + [e]);
      assert (past + [e]) + es[1..] == past + es;
    }
  }

  /**
    Every record of a reachable state ends an unbroken line of the run: the `generate` that made its
    root and the rotations since. It carries the public key the module gave for it, and the kind and
    the report admitted by that very `generate`, so the
    minimum class, the profile and the presence rule of that call still hold of it; and each identity
    on the line has a larger number than its parent.
  */
  lemma LineageNeverWeakens(es: seq<Event>, h: Handle)
    requires Happens(INSTALLED, es) && h in Reached(INSTALLED, es).disk.records
    ensures var rec := Reached(INSTALLED, es).disk.records[h];
            var lines := Lines(INSTALLED, es, map[]);
            && h in lines && Unbroken(lines[h], es) && Child(lines[h].e) == Some(h)
            && Made(lines[h], rec)
            && var birth := Birth(lines[h]);
               && rec.report == birth.r.key.report && rec.kind == birth.r.kind
               && rec.report.custodyClass >= birth.r.policy.minClass
               && rec.report.profile == birth.s.profile
               && (birth.s.requirePresence ==> rec.report.presenceMode == PRESENCE_REQUIRED)
               && (rec.report.presenceMode == PRESENCE_REQUIRED ==> birth.r.policy.allowPresence)
               && Consistent(rec.report)
  {
    hide Happens, Reached, Numbered, Accounted, Lines;
    InstalledSound();
    RunKeepsSound(INSTALLED, es);
    RunKeepsLines(map[], INSTALLED, es, []);
    assert [] + es == es;
  }
}
