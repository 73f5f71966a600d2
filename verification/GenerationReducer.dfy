/** The image-generation event reducer: redelivered events change nothing, versions only grow. */
module GenerationReducer {
  import opened Bytes

  /** A field of an event's projection: a string, null, or something else that is present. */
  datatype Value = Text(text: string) | Null | OtherValue

  datatype Projection = NoProjection | Fields(fields: map<string, Value>)

  datatype Kind = JobChanged | SlotChanged | LateResultChanged | PlanChanged | OtherKind

  datatype Event = Event(
    daemon: string, project: string, session: string, entity: string,
    seqNo: nat, generation: nat, kind: Kind, projection: Projection)

  datatype Identity = Identity(daemon: string, project: string, session: string)

  datatype Slot = Slot(generation: nat, state: string, artifactId: Option<string>, artifactState: Option<string>)

  datatype Disposition = Pending | PublishRequested | DiscardRequested | Published | Discarded

  datatype Late = Late(generation: nat, artifactState: string, publication: string, disposition: Disposition)

  datatype Job = Job(
    generation: nat, state: string, slots: map<string, Slot>, late: map<string, Late>,
    plan: Projection, highWater: nat, cancelRequested: bool)

  type Jobs = map<string, Job>

  const NEW_JOB := Job(0, "pending", map[], map[], NoProjection, 0, false)

  const JOB_STATES := {"pending", "running", "cancel_requested", "cancelled", "succeeded", "failed", "late_quarantined"}
  const SLOT_STATES := {"pending", "dispatched", "accepted", "succeeded", "failed", "cancelled", "late_quarantined"}
  const ARTIFACT_STATES := {"allocating", "writing", "retained", "late_quarantined", "cleanup_pending", "deleting",
      "tombstoned", "security_blocked"}
  const PUBLICATION_STATES := {"reserved", "copy_authorized", "copy_committed", "published", "aborted", "expired",
      "security_blocked", "delete_authorized"}

  predicate Terminal(state: string) {
    state == "cancelled" || state == "succeeded" || state == "failed"
  }

  // ---- reading an event ---------------------------------------------------------------------

  function Field(p: Projection, name: string): (v: Option<Value>) {
    if p.Fields? && name in p.fields then Some(p.fields[name]) else None
  }

  function TextField(p: Projection, name: string): (v: Option<string>) {
    var f := Field(p, name);
    if f.Some? && f.value.Text? then Some(f.value.text) else None
  }

  /** The second name is looked at only when the first is absent or null. */
  function Either(p: Projection, first: string, second: string): (v: Option<string>) {
    if Field(p, first).Some? && Field(p, first) != Some(Null) then TextField(p, first) else TextField(p, second)
  }

  function Known(v: Option<string>, states: set<string>): (r: Option<string>) {
    if v.Some? && v.value in states then v else None
  }

  function OrElse<T>(v: Option<T>, other: T): (r: T) {
    if v.Some? then v.value else other
  }

  predicate Matches(id: Identity, e: Event) {
    && e.daemon == id.daemon && e.project == id.project
    && (e.session != "" ==> e.session == id.session)
  }

  // ---- reducing -------------------------------------------------------------------------------

  function EnsureJob(jobs: Jobs, j: string): (job: Job) {
    if j in jobs then jobs[j] else NEW_JOB
  }

  function ReduceJob(jobs: Jobs, e: Event): (r: Jobs) {
    var job := EnsureJob(jobs, e.entity);
    if e.generation <= job.generation then jobs
    else
      var derived := Known(TextField(e.projection, "state"), JOB_STATES);
      jobs[e.entity := job.(generation := e.generation, highWater := e.seqNo, state := OrElse(derived, job.state),
                            cancelRequested := job.cancelRequested && !(derived.Some? && Terminal(derived.value)))]
  }

  function NextSlot(was: Option<Slot>, e: Event): (s: Slot) {
    var state := Known(TextField(e.projection, "state"), SLOT_STATES);
    var artifact := Known(Either(e.projection, "artifact_state", "artifactState"), ARTIFACT_STATES);
    var id := TextField(e.projection, "artifact_id");
    Slot(e.generation,
         OrElse(state, if was.Some? then was.value.state else "pending"),
         if id.Some? then id else if was.Some? then was.value.artifactId else None,
         if artifact.Some? then artifact else if was.Some? then was.value.artifactState else None)
  }

  function ReduceSlot(jobs: Jobs, e: Event): (r: Jobs) {
    var job := EnsureJob(jobs, e.entity);
    var id := OrElse(TextField(e.projection, "slot_id"), "");
    if id == "" || (id in job.slots && e.generation <= job.slots[id].generation) then jobs
    else
      var was := if id in job.slots then Some(job.slots[id]) else None;
      jobs[e.entity := job.(highWater := e.seqNo, slots := job.slots[id := NextSlot(was, e)])]
  }

  function NextLate(was: Option<Late>, e: Event): (l: Late) {
    var artifact := Known(Either(e.projection, "artifact_state", "artifactState"), ARTIFACT_STATES);
    var publication := Known(Either(e.projection, "publication_state", "publicationState"), PUBLICATION_STATES);
    Late(e.generation,
         OrElse(artifact, if was.Some? then was.value.artifactState else "late_quarantined"),
         OrElse(publication, if was.Some? then was.value.publication else "reserved"),
         if was.Some? then was.value.disposition else Pending)
  }

  function ReduceLate(jobs: Jobs, e: Event): (r: Jobs) {
    var job := EnsureJob(jobs, e.entity);
    var id := OrElse(TextField(e.projection, "artifact_id"), "");
    if id == "" || (id in job.late && e.generation <= job.late[id].generation) then jobs
    else
      var was := if id in job.late then Some(job.late[id]) else None;
      jobs[e.entity := job.(highWater := e.seqNo, late := job.late[id := NextLate(was, e)])]
  }

  function ReducePlan(jobs: Jobs, e: Event): (r: Jobs) {
    var job := EnsureJob(jobs, e.entity);
    if e.generation <= job.generation then jobs
    else jobs[e.entity := job.(generation := e.generation, highWater := e.seqNo, plan := e.projection)]
  }

  function Reduce(id: Identity, jobs: Jobs, e: Event): (r: Jobs) {
    if !Matches(id, e) || (e.entity in jobs && e.seqNo <= jobs[e.entity].highWater) then jobs
    else
      match e.kind
      case JobChanged => ReduceJob(jobs, e)
      case SlotChanged => ReduceSlot(jobs, e)
      case LateResultChanged => ReduceLate(jobs, e)
      case PlanChanged => ReducePlan(jobs, e)
      case OtherKind => jobs
  }

  // ---- what the client does itself ---------------------------------------------------------------

  function AcknowledgeCancel(jobs: Jobs, j: string): (r: Jobs) {
    if j !in jobs || Terminal(jobs[j].state) then jobs else jobs[j := jobs[j].(cancelRequested := true)]
  }

  function SetDisposition(jobs: Jobs, j: string, artifact: string, to: Disposition): (r: Jobs)
    requires j in jobs && artifact in jobs[j].late
  {
    var job := jobs[j];
    jobs[j := job.(late := job.late[artifact := job.late[artifact].(disposition := to)])]
  }

  function RequestDisposition(jobs: Jobs, j: string, artifact: string, publish: bool): (r: Jobs) {
    if j !in jobs || artifact !in jobs[j].late || jobs[j].late[artifact].disposition in {Published, Discarded} then jobs
    else SetDisposition(jobs, j, artifact, if publish then PublishRequested else DiscardRequested)
  }

  function ConfirmDisposition(jobs: Jobs, j: string, artifact: string, published: bool): (r: Jobs) {
    if j !in jobs || artifact !in jobs[j].late then jobs
    else SetDisposition(jobs, j, artifact, if published then Published else Discarded)
  }

  datatype Input =
    | Deliver(e: Event)
    | Unreadable
    | Cancel(j: string)
    | Request(j: string, artifact: string, publish: bool)
    | Confirm(j: string, artifact: string, published: bool)

  function Step(id: Identity, jobs: Jobs, i: Input): (r: Jobs) {
    match i
    case Deliver(e) => Reduce(id, jobs, e)
    case Unreadable => jobs
    case Cancel(j) => AcknowledgeCancel(jobs, j)
    case Request(j, artifact, publish) => RequestDisposition(jobs, j, artifact, publish)
    case Confirm(j, artifact, published) => ConfirmDisposition(jobs, j, artifact, published)
  }

  function Run(id: Identity, jobs: Jobs, inputs: seq<Input>): (r: Jobs)
    decreases |inputs|
  {
    if inputs == [] then jobs else Run(id, Step(id, jobs, inputs[0]), inputs[1..])
  }

  // ---- versions only grow --------------------------------------------------------------------------

  predicate SlotsGrow(a: map<string, Slot>, b: map<string, Slot>) {
    forall k :: k in a ==> k in b && a[k].generation <= b[k].generation
  }

  predicate LateGrows(a: map<string, Late>, b: map<string, Late>) {
    forall k :: k in a ==> k in b && a[k].generation <= b[k].generation
  }

  predicate JobGrows(a: Job, b: Job) {
    && a.generation <= b.generation && a.highWater <= b.highWater
    && SlotsGrow(a.slots, b.slots) && LateGrows(a.late, b.late)
  }

  predicate Grows(a: Jobs, b: Jobs) {
    forall j :: j in a ==> j in b && JobGrows(a[j], b[j])
  }

  lemma StepGrows(id: Identity, jobs: Jobs, i: Input)
    ensures Grows(jobs, Step(id, jobs, i))
  {
    hide NextSlot, NextLate, Known, TextField;
    match i
    case Deliver(e) => ReduceGrows(id, jobs, e);
    case _ =>
  }

  lemma ReduceGrows(id: Identity, jobs: Jobs, e: Event)
    ensures Grows(jobs, Reduce(id, jobs, e))
  {
    hide Known, TextField;
  }

  lemma {:induction false} VersionsNeverDecrease(id: Identity, jobs: Jobs, inputs: seq<Input>)
    ensures Grows(jobs, Run(id, jobs, inputs))
    decreases |inputs|
  {
    hide Step;
    if inputs != [] {
      var next := Step(id, jobs, inputs[0]);
      StepGrows(id, jobs, inputs[0]);
      VersionsNeverDecrease(id, next, inputs[1..]);
      GrowsTransitive(jobs, next, Run(id, jobs, inputs));
    }
  }

  lemma GrowsTransitive(a: Jobs, b: Jobs, c: Jobs)
    requires Grows(a, b) && Grows(b, c)
    ensures Grows(a, c)
  {
    forall j | j in a ensures j in c && JobGrows(a[j], c[j]) {
      assert JobGrows(a[j], b[j]) && JobGrows(b[j], c[j]);
    }
  }

  // ---- redelivery -------------------------------------------------------------------------------------

  /** Why an event changes nothing: it is not ours, or old, or names nothing. */
  predicate Stale(id: Identity, jobs: Jobs, e: Event) {
    var job := EnsureJob(jobs, e.entity);
    || !Matches(id, e)
    || (e.entity in jobs && e.seqNo <= job.highWater)
    || match e.kind
       case JobChanged => e.generation <= job.generation
       case PlanChanged => e.generation <= job.generation
       case SlotChanged =>
         var slot := OrElse(TextField(e.projection, "slot_id"), "");
         slot == "" || (slot in job.slots && e.generation <= job.slots[slot].generation)
       case LateResultChanged =>
         var artifact := OrElse(TextField(e.projection, "artifact_id"), "");
         artifact == "" || (artifact in job.late && e.generation <= job.late[artifact].generation)
       case OtherKind => true
  }

  /** Exactly the stale events change nothing. */
  lemma StaleChangesNothing(id: Identity, jobs: Jobs, e: Event)
    ensures Reduce(id, jobs, e) == jobs <==> Stale(id, jobs, e)
  {
    if !Stale(id, jobs, e) {
      FreshTakesEffect(id, jobs, e);
    }
    hide NextSlot, NextLate, Known, TextField;
  }

  /** Any other event leaves its number and its generation where it belongs, and touches no other job. */
  lemma FreshTakesEffect(id: Identity, jobs: Jobs, e: Event)
    requires !Stale(id, jobs, e)
    ensures var r := Reduce(id, jobs, e);
            && r.Keys == jobs.Keys + {e.entity} && (forall j :: j in jobs && j != e.entity ==> r[j] == jobs[j])
            && r[e.entity].highWater == e.seqNo && (e.entity in jobs ==> e.seqNo > jobs[e.entity].highWater)
            && match e.kind
               case SlotChanged =>
                 var slot := OrElse(TextField(e.projection, "slot_id"), "");
                 slot in r[e.entity].slots && r[e.entity].slots[slot].generation == e.generation
               case LateResultChanged =>
                 var artifact := OrElse(TextField(e.projection, "artifact_id"), "");
                 artifact in r[e.entity].late && r[e.entity].late[artifact].generation == e.generation
               case PlanChanged => r[e.entity].generation == e.generation && r[e.entity].plan == e.projection
               case _ => r[e.entity].generation == e.generation
  {
    hide Known, TextField;
  }

  /** What was delivered is stale from then on, whether it was applied or not. */
  lemma DeliveredIsStale(id: Identity, jobs: Jobs, e: Event)
    ensures Stale(id, Reduce(id, jobs, e), e)
  {
    hide NextSlot, NextLate, Known, TextField;
  }

  lemma StaleStays(id: Identity, jobs: Jobs, later: Jobs, e: Event)
    requires Stale(id, jobs, e) && Grows(jobs, later)
    ensures Stale(id, later, e)
  {
    hide TextField, Matches;
    if e.entity in jobs {
      assert JobGrows(jobs[e.entity], later[e.entity]);
    }
  }

  /** `padded` is `inputs` with redeliveries of events already delivered put in anywhere. */
  predicate Padded(seen: set<Event>, inputs: seq<Input>, padded: seq<Input>)
    decreases |padded|
  {
    if padded == [] then inputs == []
    else
      || (padded[0].Deliver? && padded[0].e in seen && Padded(seen, inputs, padded[1..]))
      || (inputs != [] && inputs[0] == padded[0] && Padded(Seen(seen, inputs[0]), inputs[1..], padded[1..]))
  }

  function Seen(seen: set<Event>, i: Input): (r: set<Event>) {
    if i.Deliver? then seen + {i.e} else seen
  }

  lemma {:induction false} RedeliveryFrom(id: Identity, jobs: Jobs, seen: set<Event>, inputs: seq<Input>,
                                          padded: seq<Input>)
    requires Padded(seen, inputs, padded) && forall e :: e in seen ==> Stale(id, jobs, e)
    ensures Run(id, jobs, padded) == Run(id, jobs, inputs)
    decreases |padded|
  {
    hide Step, Stale, Reduce;
    if padded != [] {
      if padded[0].Deliver? && padded[0].e in seen && Padded(seen, inputs, padded[1..]) {
        StaleChangesNothing(id, jobs, padded[0].e);
        assert Step(id, jobs, padded[0]) == jobs by { StepDelivers(id, jobs, padded[0].e); }
        RedeliveryFrom(id, jobs, seen, inputs, padded[1..]);
      } else {
        var i := inputs[0];
        var next := Step(id, jobs, i);
        StepGrows(id, jobs, i);
        forall e | e in Seen(seen, i) ensures Stale(id, next, e) {
          if e in seen {
            StaleStays(id, jobs, next, e);
          } else {
            StepDelivers(id, jobs, e);
            DeliveredIsStale(id, jobs, e);
          }
        }
        RedeliveryFrom(id, next, Seen(seen, i), inputs[1..], padded[1..]);
      }
    }
  }

  lemma StepDelivers(id: Identity, jobs: Jobs, e: Event)
    ensures Step(id, jobs, Deliver(e)) == Reduce(id, jobs, e)
  {
  }

  /** At-least-once delivery looks like exactly-once: redeliveries leave the final state unchanged. */
  lemma RedeliveryIsInvisible(id: Identity, jobs: Jobs, inputs: seq<Input>, padded: seq<Input>)
    requires Padded({}, inputs, padded)
    ensures Run(id, jobs, padded) == Run(id, jobs, inputs)
  {
    hide Run, Padded;
    RedeliveryFrom(id, jobs, {}, inputs, padded);
  }

  /** Nothing the client does on its own decides a job: state, versions, slots and plan stay the daemon's. */
  lemma ClientDecidesNothing(id: Identity, jobs: Jobs, i: Input, j: string)
    requires !i.Deliver? && j in jobs
    ensures var r := Step(id, jobs, i);
            && r.Keys == jobs.Keys && r[j] == jobs[j].(late := r[j].late, cancelRequested := r[j].cancelRequested)
            && r[j].late.Keys == jobs[j].late.Keys
            && forall a :: a in jobs[j].late
                ==> r[j].late[a] == jobs[j].late[a].(disposition := r[j].late[a].disposition)
  {
  }

  // ---- cancellation -----------------------------------------------------------------------------------

  datatype CancelView = NoCancel | CancelRequested | Cancelled

  function ViewOf(jobs: Jobs, j: string): (v: CancelView) {
    if j !in jobs then NoCancel
    else if jobs[j].state == "cancelled" then Cancelled
    else if jobs[j].cancelRequested && !Terminal(jobs[j].state) then CancelRequested
    else NoCancel
  }

  /** The daemon says that job `j` has come to `state`. */
  predicate Reports(id: Identity, i: Input, j: string, state: string) {
    && i.Deliver? && Matches(id, i.e) && i.e.entity == j && i.e.kind == JobChanged
    && TextField(i.e.projection, "state") == Some(state)
  }

  predicate ReportsEnd(id: Identity, i: Input, j: string) {
    Reports(id, i, j, "cancelled") || Reports(id, i, j, "succeeded") || Reports(id, i, j, "failed")
  }

  lemma CancelledByReport(id: Identity, jobs: Jobs, i: Input, j: string)
    requires ViewOf(jobs, j) != Cancelled && ViewOf(Step(id, jobs, i), j) == Cancelled
    ensures Reports(id, i, j, "cancelled")
  {
    hide NextSlot, NextLate, TextField;
  }

  /** `Cancelled` is shown only after the daemon has reported it, whatever the client asked for. */
  lemma {:induction false} CancelledOnlyByDaemon(id: Identity, jobs: Jobs, inputs: seq<Input>, j: string)
    returns (k: nat)
    requires ViewOf(jobs, j) != Cancelled && ViewOf(Run(id, jobs, inputs), j) == Cancelled
    ensures k < |inputs| && Reports(id, inputs[k], j, "cancelled")
    decreases |inputs|
  {
    hide Step, ViewOf, Reports;
    var next := Step(id, jobs, inputs[0]);
    if ViewOf(next, j) == Cancelled {
      CancelledByReport(id, jobs, inputs[0], j);
      k := 0;
    } else {
      k := CancelledOnlyByDaemon(id, next, inputs[1..], j);
      k := k + 1;
    }
  }

  /** A cancel of job `j` has been acknowledged and not yet settled. */
  predicate Asked(jobs: Jobs, j: string) {
    j in jobs && jobs[j].cancelRequested
  }

  lemma AskedByClient(id: Identity, jobs: Jobs, i: Input, j: string)
    requires !Asked(jobs, j) && Asked(Step(id, jobs, i), j)
    ensures i == Cancel(j)
  {
    hide NextSlot, NextLate, TextField;
  }

  lemma {:induction false} AskedOnlyByClient(id: Identity, jobs: Jobs, inputs: seq<Input>, j: string) returns (k: nat)
    requires !Asked(jobs, j) && Asked(Run(id, jobs, inputs), j)
    ensures k < |inputs| && inputs[k] == Cancel(j)
    decreases |inputs|
  {
    hide Step, Asked;
    var next := Step(id, jobs, inputs[0]);
    if Asked(next, j) {
      AskedByClient(id, jobs, inputs[0], j);
      k := 0;
    } else {
      k := AskedOnlyByClient(id, next, inputs[1..], j);
      k := k + 1;
    }
  }

  /** A cancellation is shown as requested only after the client has asked for it. */
  lemma RequestedOnlyByClient(id: Identity, jobs: Jobs, inputs: seq<Input>, j: string) returns (k: nat)
    requires !Asked(jobs, j) && ViewOf(Run(id, jobs, inputs), j) == CancelRequested
    ensures k < |inputs| && inputs[k] == Cancel(j)
  {
    hide Run;
    k := AskedOnlyByClient(id, jobs, inputs, j);
  }

  lemma RequestStandsOneStep(id: Identity, jobs: Jobs, i: Input, j: string)
    requires ViewOf(jobs, j) == CancelRequested && !ReportsEnd(id, i, j)
    ensures ViewOf(Step(id, jobs, i), j) == CancelRequested
  {
    hide NextSlot, NextLate, TextField;
  }

  /** An acknowledged cancel stays shown as requested until the daemon reports an end. */
  lemma {:induction false} RequestStands(id: Identity, jobs: Jobs, inputs: seq<Input>, j: string)
    requires ViewOf(jobs, j) == CancelRequested && forall k :: 0 <= k < |inputs| ==> !ReportsEnd(id, inputs[k], j)
    ensures ViewOf(Run(id, jobs, inputs), j) == CancelRequested
    decreases |inputs|
  {
    hide Step, ViewOf, ReportsEnd;
    if inputs != [] {
      RequestStandsOneStep(id, jobs, inputs[0], j);
      RequestStands(id, Step(id, jobs, inputs[0]), inputs[1..], j);
    }
  }

  // ---- late results ---------------------------------------------------------------------------------------

  function DispositionOf(jobs: Jobs, j: string, artifact: string): (d: Option<Disposition>) {
    if j in jobs && artifact in jobs[j].late then Some(jobs[j].late[artifact].disposition) else None
  }

  predicate Disposed(d: Option<Disposition>) {
    d == Some(Published) || d == Some(Discarded)
  }

  lemma DisposedOneStep(id: Identity, jobs: Jobs, i: Input, j: string, artifact: string)
    requires Disposed(DispositionOf(jobs, j, artifact)) && (i.Confirm? ==> (i.j, i.artifact) != (j, artifact))
    ensures DispositionOf(Step(id, jobs, i), j, artifact) == DispositionOf(jobs, j, artifact)
  {
    hide NextSlot, TextField, Known;
  }

  /** What the daemon has confirmed stands: no event and no request undoes it. */
  lemma {:induction false} DisposedForGood(id: Identity, jobs: Jobs, inputs: seq<Input>, j: string, artifact: string)
    requires Disposed(DispositionOf(jobs, j, artifact))
    requires forall k :: 0 <= k < |inputs| && inputs[k].Confirm? ==> (inputs[k].j, inputs[k].artifact) != (j, artifact)
    ensures DispositionOf(Run(id, jobs, inputs), j, artifact) == DispositionOf(jobs, j, artifact)
    decreases |inputs|
  {
    hide Step, DispositionOf;
    if inputs != [] {
      DisposedOneStep(id, jobs, inputs[0], j, artifact);
      DisposedForGood(id, Step(id, jobs, inputs[0]), inputs[1..], j, artifact);
    }
  }

  // ---- the state object -----------------------------------------------------------------------------

  class ReducerState {
    var jobs: Jobs
    const identity: Identity

    constructor (identity: Identity)
      ensures jobs == map[] && this.identity == identity
    {
      this.identity := identity;
      jobs := map[];
    }

    /** An event that could not be parsed arrives as `None`. */
    method ReduceEvent(raw: Option<Event>) returns (warned: bool)
      modifies this
      ensures jobs == Step(identity, old(jobs), if raw.Some? then Deliver(raw.value) else Unreadable)
      ensures raw.None? ==> warned
      ensures warned && raw.Some? ==> jobs == old(jobs)
      ensures raw.Some? && raw.value.kind != OtherKind ==> (warned <==> Stale(identity, old(jobs), raw.value))
    {
      hide NextSlot, NextLate, Known, TextField;
      if raw.None? {
        return true;
      }
      var e := raw.value;
      if !Matches(identity, e) {
        return true;
      }
      if e.entity in jobs && e.seqNo <= jobs[e.entity].highWater {
        return true;
      }
      match e.kind
      case JobChanged => warned := JobChangedTo(e);
      case SlotChanged => warned := SlotChangedTo(e);
      case LateResultChanged => warned := LateChangedTo(e);
      case PlanChanged => warned := PlanChangedTo(e);
      case OtherKind => warned := false;
    }

    method JobChangedTo(e: Event) returns (warned: bool)
      modifies this
      ensures jobs == ReduceJob(old(jobs), e)
      ensures warned <==> e.generation <= EnsureJob(old(jobs), e.entity).generation
    {
      var job := EnsureJob(jobs, e.entity);
      if e.generation <= job.generation {
        return true;
      }
      var derived := Known(TextField(e.projection, "state"), JOB_STATES);
      job := job.(generation := e.generation, highWater := e.seqNo);
      if derived.Some? {
        job := job.(state := derived.value);
        if Terminal(derived.value) {
          job := job.(cancelRequested := false);
        }
      }
      jobs := jobs[e.entity := job];
      return false;
    }

    method SlotChangedTo(e: Event) returns (warned: bool)
      modifies this
      ensures jobs == ReduceSlot(old(jobs), e)
      ensures var slots := EnsureJob(old(jobs), e.entity).slots;
              var id := OrElse(TextField(e.projection, "slot_id"), "");
              warned <==> id == "" || (id in slots && e.generation <= slots[id].generation)
    {
      var job := EnsureJob(jobs, e.entity);
      var id := OrElse(TextField(e.projection, "slot_id"), "");
      if id == "" {
        return true;
      }
      var was := None;
      if id in job.slots {
        was := Some(job.slots[id]);
        if e.generation <= was.value.generation {
          return true;
        }
      }
      jobs := jobs[e.entity := job.(highWater := e.seqNo, slots := job.slots[id := NextSlot(was, e)])];
      return false;
    }

    method LateChangedTo(e: Event) returns (warned: bool)
      modifies this
      ensures jobs == ReduceLate(old(jobs), e)
      ensures var late := EnsureJob(old(jobs), e.entity).late;
              var id := OrElse(TextField(e.projection, "artifact_id"), "");
              warned <==> id == "" || (id in late && e.generation <= late[id].generation)
    {
      var job := EnsureJob(jobs, e.entity);
      var id := OrElse(TextField(e.projection, "artifact_id"), "");
      if id == "" {
        return true;
      }
      var was := None;
      if id in job.late {
        was := Some(job.late[id]);
        if e.generation <= was.value.generation {
          return true;
        }
      }
      jobs := jobs[e.entity := job.(highWater := e.seqNo, late := job.late[id := NextLate(was, e)])];
      return false;
    }

    method PlanChangedTo(e: Event) returns (warned: bool)
      modifies this
      ensures jobs == ReducePlan(old(jobs), e)
      ensures warned <==> e.generation <= EnsureJob(old(jobs), e.entity).generation
    {
      var job := EnsureJob(jobs, e.entity);
      if e.generation <= job.generation {
        return true;
      }
      jobs := jobs[e.entity := job.(generation := e.generation, highWater := e.seqNo, plan := e.projection)];
      return false;
    }

    method AckCancel(j: string)
      modifies this
      ensures jobs == Step(identity, old(jobs), Cancel(j))
      ensures ViewOf(jobs, j) == if j in jobs && !Terminal(jobs[j].state) then CancelRequested else ViewOf(old(jobs), j)
      ensures forall other :: other != j ==> ViewOf(jobs, other) == ViewOf(old(jobs), other)
    {
      if j in jobs && !Terminal(jobs[j].state) {
        jobs := jobs[j := jobs[j].(cancelRequested := true)];
      }
    }

    method RequestLateResult(j: string, artifact: string, publish: bool) returns (warned: bool)
      modifies this
      ensures jobs == Step(identity, old(jobs), Request(j, artifact, publish))
      ensures var was := DispositionOf(old(jobs), j, artifact);
              && (warned <==> was.None? || Disposed(was))
              && DispositionOf(jobs, j, artifact) ==
                 if warned then was else Some(if publish then PublishRequested else DiscardRequested)
    {
      if j !in jobs || artifact !in jobs[j].late {
        return true;
      }
      var late := jobs[j].late[artifact];
      if late.disposition == Published || late.disposition == Discarded {
        return true;
      }
      late := late.(disposition := if publish then PublishRequested else DiscardRequested);
      jobs := jobs[j := jobs[j].(late := jobs[j].late[artifact := late])];
      return false;
    }

    method ApplyLateResult(j: string, artifact: string, published: bool)
      modifies this
      ensures jobs == Step(identity, old(jobs), Confirm(j, artifact, published))
      ensures DispositionOf(jobs, j, artifact) ==
              if DispositionOf(old(jobs), j, artifact).None? then None
              else Some(if published then Published else Discarded)
    {
      if j in jobs && artifact in jobs[j].late {
        var late := jobs[j].late[artifact].(disposition := if published then Published else Discarded);
        jobs := jobs[j := jobs[j].(late := jobs[j].late[artifact := late])];
      }
    }
  }
}
