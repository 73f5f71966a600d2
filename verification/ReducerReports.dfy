/** What a client shows is what the daemon last reported: each shown field, event by event and over whole runs. */
module ReducerReports {
  import opened Bytes
  import opened GenerationReducer

  // ---- what an event says, by the fields of its projection ------------------------------------

  predicate Says(p: Projection, name: string, v: string) {
    p.Fields? && name in p.fields && p.fields[name] == Text(v)
  }

  /** The field is missing or null. */
  predicate Silent(p: Projection, name: string) {
    p.NoProjection? || name !in p.fields || p.fields[name] == Null
  }

  /** A field with an old and a new spelling; the second counts only when the first is missing or null. */
  predicate SaysEither(p: Projection, first: string, second: string, v: string) {
    Says(p, first, v) || (Silent(p, first) && Says(p, second, v))
  }

  /** Everything that is shown as a word. */
  datatype Shown =
    | JobState(j: string)
    | SlotState(j: string, slot: string)
    | SlotArtifactId(j: string, slot: string)
    | SlotArtifact(j: string, slot: string)
    | LateArtifact(j: string, artifact: string)
    | LatePublication(j: string, artifact: string)

  function Shows(jobs: Jobs, f: Shown): (v: Option<string>) {
    if f.j !in jobs then None
    else
      var job := jobs[f.j];
      match f
      case JobState(_) => Some(job.state)
      case SlotState(_, slot) => if slot in job.slots then Some(job.slots[slot].state) else None
      case SlotArtifactId(_, slot) => if slot in job.slots then job.slots[slot].artifactId else None
      case SlotArtifact(_, slot) => if slot in job.slots then job.slots[slot].artifactState else None
      case LateArtifact(_, artifact) => if artifact in job.late then Some(job.late[artifact].artifactState) else None
      case LatePublication(_, artifact) => if artifact in job.late then Some(job.late[artifact].publication) else None
  }

  /** The event is about the entry that the field belongs to. */
  predicate About(e: Event, f: Shown) {
    && e.entity == f.j
    && match f
       case JobState(_) => true
       case SlotState(_, slot) => e.kind == SlotChanged && Says(e.projection, "slot_id", slot)
       case SlotArtifactId(_, slot) => e.kind == SlotChanged && Says(e.projection, "slot_id", slot)
       case SlotArtifact(_, slot) => e.kind == SlotChanged && Says(e.projection, "slot_id", slot)
       case LateArtifact(_, artifact) => e.kind == LateResultChanged && Says(e.projection, "artifact_id", artifact)
       case LatePublication(_, artifact) => e.kind == LateResultChanged && Says(e.projection, "artifact_id", artifact)
  }

  /** The event names `v`, a word the client knows, for the field. */
  predicate Names(e: Event, f: Shown, v: string) {
    var p := e.projection;
    && About(e, f)
    && match f
       case JobState(_) => e.kind == JobChanged && Says(p, "state", v) && v in JOB_STATES
       case SlotState(_, _) => Says(p, "state", v) && v in SLOT_STATES
       case SlotArtifactId(_, _) => Says(p, "artifact_id", v)
       case SlotArtifact(_, _) => SaysEither(p, "artifact_state", "artifactState", v) && v in ARTIFACT_STATES
       case LateArtifact(_, _) => SaysEither(p, "artifact_state", "artifactState", v) && v in ARTIFACT_STATES
       case LatePublication(_, _) =>
         SaysEither(p, "publication_state", "publicationState", v) && v in PUBLICATION_STATES
  }

  /** What a new entry shows until the daemon says more. */
  function Initially(f: Shown): (v: Option<string>) {
    match f
    case JobState(_) => Some("pending")
    case SlotState(_, _) => Some("pending")
    case SlotArtifactId(_, _) => None
    case SlotArtifact(_, _) => None
    case LateArtifact(_, _) => Some("late_quarantined")
    case LatePublication(_, _) => Some("reserved")
  }

  // ---- one event -----------------------------------------------------------------------------

  /** A slot event for `slot`, newer than what is known of it. */
  predicate NewSlot(jobs: Jobs, e: Event, slot: string) {
    && slot != "" && Says(e.projection, "slot_id", slot)
    && (e.entity in jobs && slot in jobs[e.entity].slots ==> e.generation > jobs[e.entity].slots[slot].generation)
  }

  predicate NewLate(jobs: Jobs, e: Event, artifact: string) {
    && artifact != "" && Says(e.projection, "artifact_id", artifact)
    && (e.entity in jobs && artifact in jobs[e.entity].late ==>
          e.generation > jobs[e.entity].late[artifact].generation)
  }

  /** The event is from our daemon, project and session, newer than all before, and newer than what it changes. */
  ghost predicate Effective(id: Identity, jobs: Jobs, e: Event) {
    && e.daemon == id.daemon && e.project == id.project && (e.session == "" || e.session == id.session)
    && (e.entity in jobs ==> e.seqNo > jobs[e.entity].highWater)
    && match e.kind
       case JobChanged => e.generation > (if e.entity in jobs then jobs[e.entity].generation else 0)
       case PlanChanged => e.generation > (if e.entity in jobs then jobs[e.entity].generation else 0)
       case SlotChanged => exists slot :: NewSlot(jobs, e, slot)
       case LateResultChanged => exists artifact :: NewLate(jobs, e, artifact)
       case OtherKind => false
  }

  /** Exactly those events change anything. */
  lemma EffectiveExactly(id: Identity, jobs: Jobs, e: Event)
    ensures Reduce(id, jobs, e) != jobs <==> Effective(id, jobs, e)
  {
    StaleChangesNothing(id, jobs, e);
    hide Reduce;
    SaysOne(e.projection, "slot_id");
    SaysOne(e.projection, "artifact_id");
    var slot := OrElse(TextField(e.projection, "slot_id"), "");
    var artifact := OrElse(TextField(e.projection, "artifact_id"), "");
    hide TextField, Says;
    assert (exists x :: NewSlot(jobs, e, x)) <==> NewSlot(jobs, e, slot);
    assert (exists x :: NewLate(jobs, e, x)) <==> NewLate(jobs, e, artifact);
  }

  lemma SaysOne(p: Projection, name: string)
    ensures TextField(p, name).None? ==> forall v :: !Says(p, name, v)
    ensures TextField(p, name).Some? ==> forall v :: Says(p, name, v) <==> v == TextField(p, name).value
  {
  }

  lemma EitherSays(p: Projection, first: string, second: string)
    ensures Either(p, first, second).None? ==> forall v :: !SaysEither(p, first, second, v)
    ensures var w := Either(p, first, second);
            w.Some? ==> forall v :: SaysEither(p, first, second, v) <==> v == w.value
  {
  }

  /** A word named for a field is shown from then on. */
  lemma NamedIsShown(id: Identity, jobs: Jobs, e: Event, f: Shown, v: string)
    requires Effective(id, jobs, e) && Names(e, f, v)
    ensures Shows(Reduce(id, jobs, e), f) == Some(v)
  {
    TakesEffect(id, jobs, e);
    ReadsAs(e.projection);
    hide Says, SaysEither, TextField, Either;
  }

  /** The word an event has for a field, whether the client knows it or not. */
  function Word(e: Event, f: Shown): (w: Option<string>) {
    match f
    case JobState(_) => TextField(e.projection, "state")
    case SlotState(_, _) => TextField(e.projection, "state")
    case SlotArtifactId(_, _) => TextField(e.projection, "artifact_id")
    case LatePublication(_, _) => Either(e.projection, "publication_state", "publicationState")
    case _ => Either(e.projection, "artifact_state", "artifactState")
  }

  lemma SilenceInSlot(id: Identity, jobs: Jobs, e: Event, f: Shown)
    requires !f.LateArtifact? && !f.LatePublication? && !Stale(id, jobs, e) && forall v :: !Names(e, f, v)
    ensures Shows(Reduce(id, jobs, e), f) ==
            if Shows(jobs, f).Some? then Shows(jobs, f) else if About(e, f) then Initially(f) else None
  {
    SaysOne(e.projection, "slot_id");
    SaysOne(e.projection, "state");
    SaysOne(e.projection, "artifact_id");
    EitherSays(e.projection, "artifact_state", "artifactState");
    hide Says, SaysEither, TextField, Either, NextLate, Matches;
    assert Word(e, f).Some? ==> !Names(e, f, Word(e, f).value);
  }

  lemma SilenceInLate(id: Identity, jobs: Jobs, e: Event, f: Shown)
    requires (f.LateArtifact? || f.LatePublication?) && !Stale(id, jobs, e) && forall v :: !Names(e, f, v)
    ensures Shows(Reduce(id, jobs, e), f) ==
            if Shows(jobs, f).Some? then Shows(jobs, f) else if About(e, f) then Initially(f) else None
  {
    SaysOne(e.projection, "artifact_id");
    EitherSays(e.projection, "artifact_state", "artifactState");
    EitherSays(e.projection, "publication_state", "publicationState");
    hide Says, SaysEither, TextField, Either, NextSlot, Matches;
    assert Word(e, f).Some? ==> !Names(e, f, Word(e, f).value);
  }

  /** A field for which an event names nothing the client knows shows what it did, or what a new entry shows. */
  lemma SilenceKeeps(id: Identity, jobs: Jobs, e: Event, f: Shown)
    requires Effective(id, jobs, e) && forall v :: !Names(e, f, v)
    ensures Shows(Reduce(id, jobs, e), f) ==
            if Shows(jobs, f).Some? then Shows(jobs, f) else if About(e, f) then Initially(f) else None
  {
    hide Effective, Names, Stale, Shows, Reduce, About, Initially;
    TakesEffect(id, jobs, e);
    if f.LateArtifact? || f.LatePublication? {
      SilenceInLate(id, jobs, e, f);
    } else {
      SilenceInSlot(id, jobs, e, f);
    }
  }

  lemma TakesEffect(id: Identity, jobs: Jobs, e: Event)
    requires Effective(id, jobs, e)
    ensures !Stale(id, jobs, e)
  {
    EffectiveExactly(id, jobs, e);
    StaleChangesNothing(id, jobs, e);
  }

  lemma ReadsAs(p: Projection)
    ensures forall name, v :: Says(p, name, v) <==> TextField(p, name) == Some(v)
    ensures forall first, second, v :: SaysEither(p, first, second, v) <==> Either(p, first, second) == Some(v)
  {
  }

  /** A job event that says the job is over. */
  predicate SaysEnd(e: Event) {
    && e.kind == JobChanged
    && exists end :: end in {"cancelled", "succeeded", "failed"} && Says(e.projection, "state", end)
  }

  /** An effective event changes only the job it is about, and of that only the slot, late result or plan it names. */
  lemma OthersStay(id: Identity, jobs: Jobs, e: Event)
    requires Effective(id, jobs, e)
    ensures var r := Reduce(id, jobs, e);
            var was := EnsureJob(jobs, e.entity);
            && r.Keys == jobs.Keys + {e.entity} && (forall j :: j in jobs && j != e.entity ==> r[j] == jobs[j])
            && var now := r[e.entity];
               && now.highWater == e.seqNo
               && (forall k :: !(e.kind == SlotChanged && Says(e.projection, "slot_id", k)) ==>
                     (k in now.slots <==> k in was.slots) && (k in was.slots ==> now.slots[k] == was.slots[k]))
               && (forall k :: !(e.kind == LateResultChanged && Says(e.projection, "artifact_id", k)) ==>
                     (k in now.late <==> k in was.late) && (k in was.late ==> now.late[k] == was.late[k]))
               && (forall k :: k in now.late ==>
                     now.late[k].disposition == if k in was.late then was.late[k].disposition else Pending)
               && now.plan == (if e.kind == PlanChanged then e.projection else was.plan)
               && now.generation == (if e.kind == JobChanged || e.kind == PlanChanged then e.generation
                                     else was.generation)
               && (now.cancelRequested <==> was.cancelRequested && !SaysEnd(e))
  {
    TakesEffect(id, jobs, e);
    ReadsAs(e.projection);
    SaysOne(e.projection, "state");
    hide Says, TextField, Either;
  }

  // ---- whole runs ----------------------------------------------------------------------------

  /** The words that effective events of a run named for a field, in order. */
  ghost function Reported(id: Identity, jobs: Jobs, inputs: seq<Input>, f: Shown): (words: seq<string>)
    decreases |inputs|
  {
    if inputs == [] then []
    else
      var i := inputs[0];
      (if i.Deliver? && Effective(id, jobs, i.e) && (exists v :: Names(i.e, f, v)) then var v :| Names(i.e, f, v); [v]
       else [])
      + Reported(id, Step(id, jobs, i), inputs[1..], f)
  }

  /** Some effective event of the run was about the entry. */
  ghost predicate Entered(id: Identity, jobs: Jobs, inputs: seq<Input>, f: Shown)
    decreases |inputs|
  {
    && inputs != []
    && var i := inputs[0];
       (i.Deliver? && Effective(id, jobs, i.e) && About(i.e, f)) || Entered(id, Step(id, jobs, i), inputs[1..], f)
  }

  lemma StepShows(id: Identity, jobs: Jobs, i: Input, f: Shown)
    ensures var effective := i.Deliver? && Effective(id, jobs, i.e);
            var after := Shows(Step(id, jobs, i), f);
            && (forall v :: effective && Names(i.e, f, v) ==> after == Some(v))
            && (!effective || (forall v :: !Names(i.e, f, v)) ==>
                  after == if Shows(jobs, f).Some? then Shows(jobs, f)
                           else if effective && About(i.e, f) then Initially(f) else None)
  {
    if i.Deliver? {
      hide Shows, Names, About, Effective, Reduce;
      StepDelivers(id, jobs, i.e);
      EffectiveExactly(id, jobs, i.e);
      if Effective(id, jobs, i.e) {
        forall v | Names(i.e, f, v) ensures Shows(Reduce(id, jobs, i.e), f) == Some(v) {
          NamedIsShown(id, jobs, i.e, f, v);
        }
        if forall v :: !Names(i.e, f, v) {
          SilenceKeeps(id, jobs, i.e, f);
        }
      }
    } else {
      ClientKeeps(id, jobs, i, f);
    }
  }

  lemma ClientKeeps(id: Identity, jobs: Jobs, i: Input, f: Shown)
    requires !i.Deliver?
    ensures Shows(Step(id, jobs, i), f) == Shows(jobs, f)
  {
  }

  /**
    Over every run a field shows the word of the last event that took effect and named one, whatever
    the client did meanwhile; before that, what it showed at the start or what a new entry shows.
  */
  lemma {:induction false} ShowsLastReported(id: Identity, jobs: Jobs, inputs: seq<Input>, f: Shown)
    ensures var words := Reported(id, jobs, inputs, f);
            Shows(Run(id, jobs, inputs), f) ==
            if words != [] then Some(words[|words| - 1])
            else if Shows(jobs, f).Some? then Shows(jobs, f)
            else if Entered(id, jobs, inputs, f) then Initially(f)
            else None
    decreases |inputs|
  {
    hide Step, Shows, Names, About, Effective, Initially;
    if inputs != [] {
      StepShows(id, jobs, inputs[0], f);
      ShowsLastReported(id, Step(id, jobs, inputs[0]), inputs[1..], f);
    }
  }
}
