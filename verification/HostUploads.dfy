/** One upload from begin to consumption, over whole runs of the host. */
module HostUploads {
  import opened Bytes
  import opened TerminalModel
  import opened TerminalInvariants
  import opened HostModel
  import opened HostInvariants
  import opened HostRuns
  import Filter = Osc52Filter

  /**
    The same upload later on: its identity is fixed, its binding changes only to a newer connection,
    and once committed it stays as it was committed.
  */
  predicate SameUpload(op: Operation, op': Operation) {
    && op'.metadata == op.metadata && op'.session == op.session && op'.createdAt == op.createdAt
    && op'.owner.principal == op.owner.principal && op'.owner.client == op.owner.client
    && op.owner.epoch <= op'.owner.epoch
    && (op'.owner != op.owner || op'.binding != op.binding ==> op.owner.epoch < op'.owner.epoch)
    && op.accepted <= op'.accepted
    && (op.state.Committed? ==> && op'.state.Committed? && op'.sequence == op.sequence
                                && op'.capability == op.capability && op'.file == op.file
                                && op'.committedAt == op.committedAt)
  }

  lemma SweepKeepsUploads(t: Terminal, now: Time, ttl: nat)
    ensures forall k :: k in Kept(t.ingress, now, ttl) ==>
              k in t.ingress && Kept(t.ingress, now, ttl)[k] == t.ingress[k]
  {
  }

  lemma ChunkKeepsUpload(t: Terminal, b: Binding, id: Uuid, offset: nat, bytes: seq<byte>, now: Time, k: Uuid,
                         cfg: Config)
    requires k in t.ingress && k in Chunk(t, b, id, offset, bytes, now, cfg).term.ingress
    ensures var op, op' := t.ingress[k], Chunk(t, b, id, offset, bytes, now, cfg).term.ingress[k];
            SameUpload(op, op') && op'.binding == op.binding
  {
    hide Swept, Kept;
    SweepKeepsUploads(t, now, cfg.ttl);
  }

  lemma FinishKeepsUpload(t: Terminal, b: Binding, id: Uuid, now: Time, w: World, k: Uuid, cfg: Config)
    requires k in t.ingress && k in Finish(t, b, id, now, w, cfg).term.ingress
    ensures var op, op' := t.ingress[k], Finish(t, b, id, now, w, cfg).term.ingress[k];
            SameUpload(op, op') && op'.binding == op.binding
  {
    hide Swept, Kept, ValidImage;
    SweepKeepsUploads(t, now, cfg.ttl);
  }

  lemma JournalUntouched(t: Terminal, c: Command, cfg: Config)
    requires !c.DoChunk? && !c.DoStatus? && !c.DoFinish? && !c.DoConsume? && !c.DoSweep?
    ensures Perform(t, c, cfg).term.ingress == t.ingress || Perform(t, c, cfg).term.ingress == map[]
  {
    hide Filter.Push;
  }

  lemma ConsumeKeepsUpload(t: Terminal, c: Command, k: Uuid, cfg: Config)
    requires c.DoConsume? && k in Perform(t, c, cfg).term.ingress
    ensures k in t.ingress && Perform(t, c, cfg).term.ingress[k] == t.ingress[k]
  {
    hide Swept;
  }

  lemma UploadStays(op: Operation)
    ensures SameUpload(op, op)
  {
  }

  lemma PerformKeepsUpload(t: Terminal, c: Command, k: Uuid, cfg: Config)
    requires k in t.ingress && k in Perform(t, c, cfg).term.ingress
    ensures var op, op' := t.ingress[k], Perform(t, c, cfg).term.ingress[k];
            SameUpload(op, op') && op'.binding == op.binding
  {
    UploadStays(t.ingress[k]);
    hide Swept, Kept, Chunk, Finish, SameUpload;
    match c
    case DoChunk(b, op, offset, bytes, now) => ChunkKeepsUpload(t, b, op, offset, bytes, now, k, cfg);
    case DoFinish(b, op, now, w) => FinishKeepsUpload(t, b, op, now, w, k, cfg);
    case DoConsume(_, _, _, _, _, _) => ConsumeKeepsUpload(t, c, k, cfg);
    case DoSweep(now) => SweepKeepsUploads(t, now, cfg.ttl);
    case DoStatus(_, _, now) => SweepKeepsUploads(t, now, cfg.ttl);
    case _ =>
      hide Perform;
      JournalUntouched(t, c, cfg);
  }

  /** A hand-over happens only after the old binding was released, and to a later connection. */
  lemma HandOver(t: Terminal, b: Binding, m: Metadata, k: Uuid, cfg: Config)
    requires TerminalOk(t, cfg) && Authorized(t, b) && m.operation in t.ingress
    requires k in t.ingress && k in BeginAgain(t, b, m).term.ingress
    ensures var op, op' := t.ingress[k], BeginAgain(t, b, m).term.ingress[k];
            && SameUpload(op, op')
            && (op'.binding != op.binding ==>
                  k == m.operation && op.binding.id in t.released && op'.binding == b
                      && op.owner.epoch < op'.owner.epoch)
  {
    BindingIssued(t, k, cfg);
    UploadStays(t.ingress[k]);
    hide TerminalOk, Authorized;
  }

  lemma BindingIssued(t: Terminal, k: Uuid, cfg: Config)
    requires TerminalOk(t, cfg) && k in t.ingress
    ensures t.ingress[k].binding.id in Issued(t)
  {
    hide CloseOk, BindingsOk;
  }

  /** The same upload, its old binding released if it has changed hands. */
  predicate HandedOn(op: Operation, op': Operation, released: set<Uuid>) {
    SameUpload(op, op') && (op'.binding != op.binding ==> op.binding.id in released)
  }

  lemma TouchKeepsUpload(t: Terminal, a: Action, charged: bool, k: Uuid, cfg: Config)
    requires TerminalOk(t, cfg) && k in t.ingress
    ensures k in Touch(t, a, charged, cfg).ingress ==>
              HandedOn(t.ingress[k], Touch(t, a, charged, cfg).ingress[k], t.released)
  {
    hide Perform, Swept, ValidMetadata, TerminalOk, Expired, BeginAgain;
    if k in Touch(t, a, charged, cfg).ingress {
      match a
      case On(_, c) => PerformKeepsUpload(t, c, k, cfg);
      case EndBegin(_, b, m, _) =>
        if Authorized(t, b) && m.operation in t.ingress && k in BeginAgain(t, b, m).term.ingress {
          HandOver(t, b, m, k, cfg);
        }
      case _ =>
    }
  }

  lemma StepKeepsUpload(h: Host, a: Action, id: Uuid, k: Uuid, cfg: Config)
    requires HostOk(h, cfg) && Enabled(h, a, cfg) && id in h.terminals && k in h.terminals[id].ingress
    ensures var h' := Step(h, a, cfg).0;
            && id in h'.terminals
            && (k in h'.terminals[id].ingress ==>
                  HandedOn(h.terminals[id].ingress[k], h'.terminals[id].ingress[k], h.terminals[id].released))
  {
    UploadStays(h.terminals[id].ingress[k]);
    hide TerminalOk, Conserved, WithinLimits, Step, Enabled, Touch;
    StepTouches(h, a, id, cfg);
    var t := h.terminals[id];
    TouchKeepsUpload(t, a, Charged(h, a, cfg), k, cfg);
  }

  /** The upload `k` is in the journal all along the run. */
  ghost predicate StaysJournalled(h: Host, actions: seq<Action>, id: Uuid, k: Uuid, cfg: Config)
    requires Legal(h, actions, cfg)
    decreases |actions|
  {
    && id in h.terminals && k in h.terminals[id].ingress
    && (actions == [] || StaysJournalled(Step(h, actions[0], cfg).0, actions[1..], id, k, cfg))
  }

  /**
    For as long as it is journalled, an upload keeps its principal, client, session and declaration;
    if it has changed hands by then, the binding it had has been released.
  */
  lemma {:induction false} UploadForLife(h: Host, actions: seq<Action>, id: Uuid, k: Uuid, cfg: Config)
    requires HostOk(h, cfg) && Legal(h, actions, cfg) && StaysJournalled(h, actions, id, k, cfg)
    ensures var h' := Run(h, actions, cfg);
            && id in h'.terminals && k in h'.terminals[id].ingress
            && HandedOn(h.terminals[id].ingress[k], h'.terminals[id].ingress[k], h'.terminals[id].released)
    decreases |actions|
  {
    hide Step, HostOk, Closes, Violations;
    if actions != [] {
      StepKeepsUpload(h, actions[0], id, k, cfg);
      StepKeepsOk(h, actions[0], cfg);
      RunFollows(h, actions, id, cfg);
      UploadForLife(Step(h, actions[0], cfg).0, actions[1..], id, k, cfg);
    }
  }

  // ---- finishing again ------------------------------------------------------------------------

  /** A committed upload has its sequence and its name, and they are on record; only committed ones have a name. */
  lemma CommitOnRecord(t: Terminal, k: Uuid, cfg: Config)
    requires TerminalOk(t, cfg) && k in t.ingress
    requires t.ingress[k].state.Committed? || t.ingress[k].capability.Some?
    ensures var op := t.ingress[k];
            && op.sequence.Some? && 1 <= op.sequence.value <= |t.pastes|
            && op.capability == Some(t.pastes[op.sequence.value - 1])
  {
    hide BindingsOk, CloseOk, ValidImage, ValidMetadata, Flatten;
    assert OpOk(t.ingress[k], t.pastes, cfg);
  }

  lemma FinishAgain(t: Terminal, b: Binding, k: Uuid, now: Time, w: World, cfg: Config)
    requires TerminalOk(t, cfg) && k in t.ingress && t.ingress[k].state.Committed?
    ensures !Commits(t, DoFinish(b, k, now, w), cfg)
    ensures var s := Finish(t, b, k, now, w, cfg);
            var op := t.ingress[k];
            if Authorized(t, b) && op.binding == b && !Expired(op, now, cfg.ttl)
            then s.response == Receipt(k, Committed, op.metadata.size, op.sequence)
            else s.response.Refused?
  {
    hide BindingsOk, CloseOk, ValidImage, ValidMetadata, Flatten, Swept;
    assert OpOk(t.ingress[k], t.pastes, cfg);
  }

  /** A `finish` of upload `k` now: no new paste frame, and the receipt of the first or none. */
  ghost predicate RepeatsReceipt(h: Host, id: Uuid, k: Uuid, b: Binding, now: Time, w: World, first: Operation,
                                 cfg: Config) {
    && id in h.terminals && k in h.terminals[id].ingress
    && var op := h.terminals[id].ingress[k];
       var (h', response) := Step(h, On(id, DoFinish(b, k, now, w)), cfg);
       && Pastes(h', id) == Pastes(h, id)
       && if Authorized(h.terminals[id], b) && op.binding == b && !Expired(op, now, cfg.ttl)
          then response == Receipt(k, Committed, first.metadata.size, first.sequence)
          else response.Refused?
  }

  lemma StepRepeats(h: Host, id: Uuid, k: Uuid, b: Binding, now: Time, w: World, first: Operation, cfg: Config)
    requires HostOk(h, cfg) && id in h.terminals && k in h.terminals[id].ingress
    requires first.state.Committed? && SameUpload(first, h.terminals[id].ingress[k])
    ensures RepeatsReceipt(h, id, k, b, now, w, first, cfg)
  {
    hide TerminalOk, Conserved, WithinLimits, Finish, ReleaseQuota, Commits, Expired, Authorized;
    var again := On(id, DoFinish(b, k, now, w));
    FinishAgain(h.terminals[id], b, k, now, w, cfg);
    StepPastes(h, again, id, cfg);
    assert Step(h, again, cfg).1 == Finish(h.terminals[id], b, k, now, w, cfg).response;
  }

  /**
    An upload that is committed stays committed for as long as it is journalled, through every run
    and every hand-over: a later `finish` queues no paste frame and, if it is answered with a receipt
    at all, answers the sequence of the first.
  */
  lemma RepeatedFinish(h: Host, actions: seq<Action>, id: Uuid, k: Uuid, b: Binding, now: Time, w: World, cfg: Config)
    requires HostOk(h, cfg) && Legal(h, actions, cfg) && StaysJournalled(h, actions, id, k, cfg)
    requires h.terminals[id].ingress[k].state.Committed?
    ensures var first := h.terminals[id].ingress[k];
            && first.sequence.Some?
            && RepeatsReceipt(Run(h, actions, cfg), id, k, b, now, w, first, cfg)
  {
    assert TerminalOk(h.terminals[id], cfg);
    hide HostOk, TerminalOk, RepeatsReceipt, SameUpload, Run, Legal;
    CommitOnRecord(h.terminals[id], k, cfg);
    UploadForLife(h, actions, id, k, cfg);
    RunKeepsOk(h, actions, cfg);
    StepRepeats(Run(h, actions, cfg), id, k, b, now, w, h.terminals[id].ingress[k], cfg);
  }

  // ---- consuming ------------------------------------------------------------------------------

  /** An image is handed out only to the owner and session it was committed for, and is the one declared. */
  lemma ConsumedImage(t: Terminal, c: Command, cfg: Config)
    requires TerminalOk(t, cfg) && c.DoConsume? && CanPerform(t, c, cfg) && Perform(t, c, cfg).response.Image?
    ensures c.found.Some? && c.found.value in t.ingress
    ensures var s := Perform(t, c, cfg);
            var op := t.ingress[c.found.value];
            && op.state.Committed? && op.owner == c.owner && op.session == c.session && op.capability == Some(c.name)
            && ValidImage(op.metadata, s.response.bytes, cfg) && c.readBack == Some(s.response.bytes)
            && s.term.ingress == Kept(t.ingress, c.now, cfg.ttl) - {c.found.value}
  {
    assert OpOk(Kept(t.ingress, c.now, cfg.ttl)[c.found.value], t.pastes, cfg);
    hide BindingsOk, CloseOk, ValidMetadata, Flatten, Swept;
  }

  /** No two commits anywhere drew the same name. */
  ghost predicate DistinctNames(h: Host) {
    forall id, i, id', j ::
      && id in h.terminals && 0 <= i < |h.terminals[id].pastes|
      && id' in h.terminals && 0 <= j < |h.terminals[id'].pastes|
      && h.terminals[id].pastes[i] == h.terminals[id'].pastes[j]
      ==> id == id' && i == j
  }

  /** No journalled upload answers to the name. */
  ghost predicate Unclaimed(h: Host, name: seq<byte>) {
    forall id, k :: id in h.terminals && k in h.terminals[id].ingress
        ==> h.terminals[id].ingress[k].capability != Some(name)
  }

  predicate Draws(t: Terminal, a: Action, name: seq<byte>, cfg: Config) {
    a.On? && Commits(t, a.command, cfg) && a.command.w.capability == name
  }

  lemma FinishNames(t: Terminal, c: Command, k: Uuid, name: seq<byte>, cfg: Config)
    requires c.DoFinish? && k in Perform(t, c, cfg).term.ingress
    requires Perform(t, c, cfg).term.ingress[k].capability == Some(name)
    ensures (k in t.ingress && t.ingress[k].capability == Some(name)) || (Commits(t, c, cfg) && c.w.capability == name)
  {
    hide Swept, ValidImage;
  }

  lemma PerformNames(t: Terminal, c: Command, k: Uuid, name: seq<byte>, cfg: Config)
    requires k in Perform(t, c, cfg).term.ingress && Perform(t, c, cfg).term.ingress[k].capability == Some(name)
    ensures (k in t.ingress && t.ingress[k].capability == Some(name))
            || (c.DoFinish? && Commits(t, c, cfg) && c.w.capability == name)
  {
    hide Swept, Kept, Finish, Consume, Commits;
    match c
    case DoFinish(_, _, _, _) => FinishNames(t, c, k, name, cfg);
    case DoConsume(_, _, _, _, _, _) => ConsumeKeepsUpload(t, c, k, cfg);
    case DoChunk(b, _, _, bytes, now) => SweepKeepsUploads(t, now, cfg.ttl);
    case DoStatus(_, _, now) => SweepKeepsUploads(t, now, cfg.ttl);
    case DoSweep(now) => SweepKeepsUploads(t, now, cfg.ttl);
    case _ =>
      hide Perform;
      JournalUntouched(t, c, cfg);
  }

  /** A name comes into a journal only by being drawn. */
  lemma TouchNames(t: Terminal, a: Action, charged: bool, k: Uuid, name: seq<byte>, cfg: Config)
    requires k in Touch(t, a, charged, cfg).ingress && Touch(t, a, charged, cfg).ingress[k].capability == Some(name)
    ensures (k in t.ingress && t.ingress[k].capability == Some(name)) || Draws(t, a, name, cfg)
  {
    hide Perform, Swept, Commits, ValidMetadata, Expired;
    match a
    case On(_, c) => PerformNames(t, c, k, name, cfg);
    case _ =>
  }

  lemma StepKeepsUnclaimed(h: Host, a: Action, name: seq<byte>, cfg: Config)
    requires Enabled(h, a, cfg) && Unclaimed(h, name)
    requires forall id :: id in h.terminals && About(a, id) ==> !Draws(h.terminals[id], a, name, cfg)
    ensures Unclaimed(Step(h, a, cfg).0, name)
  {
    hide Step, Enabled, Touch, Draws;
    var h' := Step(h, a, cfg).0;
    forall id, k | id in h'.terminals && k in h'.terminals[id].ingress
        ensures h'.terminals[id].ingress[k].capability != Some(name) {
      if id in h.terminals {
        StepTouches(h, a, id, cfg);
        if About(a, id) && h'.terminals[id].ingress[k].capability == Some(name) {
          TouchNames(h.terminals[id], a, Charged(h, a, cfg), k, name, cfg);
        }
      } else {
        NewTerminalIsEmpty(h, a, id, cfg);
      }
    }
  }

  lemma NewTerminalIsEmpty(h: Host, a: Action, id: Uuid, cfg: Config)
    requires Enabled(h, a, cfg) && id !in h.terminals && id in Step(h, a, cfg).0.terminals
    ensures Step(h, a, cfg).0.terminals[id].ingress == map[]
  {
    hide Perform, BeginSweep, BeginMain, ReleaseQuota, ChargeQuota, CanPerform;
  }

  lemma {:induction false} PastesGrow(h: Host, actions: seq<Action>, id: Uuid, cfg: Config)
    requires HostOk(h, cfg) && Legal(h, actions, cfg) && id in h.terminals
    ensures id in Run(h, actions, cfg).terminals && Pastes(h, id) <= Pastes(Run(h, actions, cfg), id)
    decreases |actions|
  {
    hide HostOk, Step, Enabled, CommitsOn;
    if actions != [] {
      var a := actions[0];
      StepTouches(h, a, id, cfg);
      StepPastes(h, a, id, cfg);
      StepKeepsOk(h, a, cfg);
      PastesGrow(Step(h, a, cfg).0, actions[1..], id, cfg);
    }
  }

  /** A name on record is not drawn again in a run whose names are distinct. */
  lemma NotDrawnAgain(h: Host, actions: seq<Action>, at: Uuid, i: nat, id: Uuid, cfg: Config)
    requires HostOk(h, cfg) && actions != [] && Legal(h, actions, cfg) && DistinctNames(Run(h, actions, cfg))
    requires at in h.terminals && i < |h.terminals[at].pastes| && id in h.terminals && About(actions[0], id)
    ensures !Draws(h.terminals[id], actions[0], h.terminals[at].pastes[i], cfg)
  {
    hide HostOk, Run, Legal, Commits, Step, Enabled, DistinctNames;
    var a, name := actions[0], h.terminals[at].pastes[i];
    if Draws(h.terminals[id], a, name, cfg) {
      UnfoldRun(h, actions, cfg);
      var h1, last := Step(h, a, cfg).0, Run(h, actions, cfg);
      StepPastes(h, a, id, cfg);
      StepTouches(h, a, id, cfg);
      StepKeepsOk(h, a, cfg);
      PastesGrow(h1, actions[1..], id, cfg);
      PastesGrow(h, actions, at, cfg);
      var j := |h.terminals[id].pastes|;
      assert Pastes(h1, id)[j] == name && Pastes(last, id)[j] == name && Pastes(last, at)[i] == name;
      SamePlace(last, at, i, id, j);
    }
  }

  lemma SamePlace(h: Host, id: Uuid, i: nat, id': Uuid, j: nat)
    requires DistinctNames(h) && id in h.terminals && id' in h.terminals
    requires i < |h.terminals[id].pastes| && j < |h.terminals[id'].pastes|
    requires h.terminals[id].pastes[i] == h.terminals[id'].pastes[j]
    ensures id == id' && i == j
  {
  }

  lemma {:induction false} StaysUnclaimed(h: Host, actions: seq<Action>, at: Uuid, i: nat, cfg: Config)
    requires HostOk(h, cfg) && Legal(h, actions, cfg) && DistinctNames(Run(h, actions, cfg))
    requires at in h.terminals && i < |h.terminals[at].pastes| && Unclaimed(h, h.terminals[at].pastes[i])
    ensures Unclaimed(Run(h, actions, cfg), h.terminals[at].pastes[i])
    decreases |actions|
  {
    hide HostOk, Step, Enabled, Unclaimed, DistinctNames, Draws;
    if actions != [] {
      var a, name := actions[0], h.terminals[at].pastes[i];
      forall id | id in h.terminals && About(a, id) ensures !Draws(h.terminals[id], a, name, cfg) {
        NotDrawnAgain(h, actions, at, i, id, cfg);
      }
      StepKeepsUnclaimed(h, a, name, cfg);
      StepTouches(h, a, at, cfg);
      StepPastes(h, a, at, cfg);
      StepKeepsOk(h, a, cfg);
      StaysUnclaimed(Step(h, a, cfg).0, actions[1..], at, i, cfg);
    }
  }

  lemma ConsumptionUnclaims(h: Host, id: Uuid, c: Command, cfg: Config) returns (i: nat)
    requires HostOk(h, cfg) && Enabled(h, On(id, c), cfg) && c.DoConsume? && DistinctNames(h)
    requires Step(h, On(id, c), cfg).1.Image?
    ensures Unclaimed(Step(h, On(id, c), cfg).0, c.name)
    ensures var h' := Step(h, On(id, c), cfg).0;
            id in h'.terminals && i < |h'.terminals[id].pastes| && h'.terminals[id].pastes[i] == c.name
  {
    hide TerminalOk, Conserved, WithinLimits, DistinctNames, CanPerform, ReleaseQuota, Kept;
    var t, h' := h.terminals[id], Step(h, On(id, c), cfg).0;
    ConsumedImage(t, c, cfg);
    var k0 := c.found.value;
    CommitOnRecord(t, k0, cfg);
    i := t.ingress[k0].sequence.value - 1;
    forall x, k | x in h'.terminals && k in h'.terminals[x].ingress
        ensures h'.terminals[x].ingress[k].capability != Some(c.name) {
      if h'.terminals[x].ingress[k].capability == Some(c.name) {
        OnlyCarrier(h, id, k0, x, k, c, cfg);
      }
    }
  }

  lemma OnlyCarrier(h: Host, id: Uuid, k0: Uuid, x: Uuid, k: Uuid, c: Command, cfg: Config)
    requires HostOk(h, cfg) && DistinctNames(h) && c.DoConsume?
    requires id in h.terminals && k0 in h.terminals[id].ingress && x in h.terminals
    requires h.terminals[id].ingress[k0].state.Committed? && h.terminals[id].ingress[k0].capability == Some(c.name)
    requires k in (if x == id then Perform(h.terminals[id], c, cfg).term else h.terminals[x]).ingress
    requires (if x == id then Perform(h.terminals[id], c, cfg).term
            else h.terminals[x]).ingress[k].capability == Some(c.name)
    ensures x == id && k == k0
  {
    hide Conserved, WithinLimits, DistinctNames, TerminalOk;
    if x == id {
      hide Consume;
      ConsumeKeepsUpload(h.terminals[id], c, k, cfg);
    }
    hide Perform;
    SameCarrier(h, id, k0, x, k, c.name, cfg);
  }

  lemma SameCarrier(h: Host, id: Uuid, k0: Uuid, x: Uuid, k: Uuid, name: seq<byte>, cfg: Config)
    requires HostOk(h, cfg) && DistinctNames(h)
    requires id in h.terminals && k0 in h.terminals[id].ingress && h.terminals[id].ingress[k0].capability == Some(name)
    requires x in h.terminals && k in h.terminals[x].ingress && h.terminals[x].ingress[k].capability == Some(name)
    ensures x == id && k == k0
  {
    hide Conserved, WithinLimits, TerminalOk, DistinctNames;
    CommitOnRecord(h.terminals[id], k0, cfg);
    CommitOnRecord(h.terminals[x], k, cfg);
    var i, j := h.terminals[id].ingress[k0].sequence.value - 1, h.terminals[x].ingress[k].sequence.value - 1;
    SamePlace(h, id, i, x, j);
    if k != k0 {
      SequencesDiffer(h.terminals[id], k0, k, cfg);
    }
  }

  lemma SequencesDiffer(t: Terminal, j: Uuid, k: Uuid, cfg: Config)
    requires TerminalOk(t, cfg) && j in t.ingress && k in t.ingress && j != k && t.ingress[j].sequence.Some?
    ensures t.ingress[j].sequence != t.ingress[k].sequence
  {
    hide BindingsOk, CloseOk, OpOk;
  }

  /** An image that was handed out is never handed out again, by any terminal, however the run goes on. */
  lemma ConsumedOnce(h: Host, id: Uuid, c: Command, later: seq<Action>, id': Uuid, c': Command, cfg: Config)
    requires HostOk(h, cfg) && Legal(h, [On(id, c)] + later, cfg) && DistinctNames(Run(h, [On(id, c)] + later, cfg))
    requires c.DoConsume? && Enabled(h, On(id, c), cfg) && Step(h, On(id, c), cfg).1.Image?
    requires c'.DoConsume? && c'.name == c.name && Enabled(Run(h, [On(id, c)] + later, cfg), On(id', c'), cfg)
    ensures Step(Run(h, [On(id, c)] + later, cfg), On(id', c'), cfg).1 == NotHere
  {
    hide HostOk, Run, Legal, DistinctNames, Step, Enabled, Unclaimed;
    var actions := [On(id, c)] + later;
    assert actions[0] == On(id, c) && actions[1..] == later;
    UnfoldRun(h, actions, cfg);
    var h1 := Step(h, On(id, c), cfg).0;
    EarlierDistinct(h, actions, cfg);
    var i := ConsumptionUnclaims(h, id, c, cfg);
    StepKeepsOk(h, On(id, c), cfg);
    StaysUnclaimed(h1, later, id, i, cfg);
    UnclaimedIsNotHere(Run(h, actions, cfg), id', c', cfg);
  }

  lemma EarlierDistinct(h: Host, actions: seq<Action>, cfg: Config)
    requires HostOk(h, cfg) && Legal(h, actions, cfg) && DistinctNames(Run(h, actions, cfg))
    ensures DistinctNames(h)
  {
    hide HostOk, Run, Legal;
    var last := Run(h, actions, cfg);
    forall id | id in h.terminals ensures id in last.terminals && Pastes(h, id) <= Pastes(last, id) {
      PastesGrow(h, actions, id, cfg);
    }
    forall id, i, id', j |
      && id in h.terminals && 0 <= i < |h.terminals[id].pastes|
      && id' in h.terminals && 0 <= j < |h.terminals[id'].pastes|
      && h.terminals[id].pastes[i] == h.terminals[id'].pastes[j]
      ensures id == id' && i == j
    {
      assert Pastes(h, id)[i] == Pastes(last, id)[i] && Pastes(h, id')[j] == Pastes(last, id')[j];
      SamePlace(last, id, i, id', j);
    }
  }

  lemma UnclaimedIsNotHere(h: Host, id: Uuid, c: Command, cfg: Config)
    requires c.DoConsume? && Unclaimed(h, c.name) && Enabled(h, On(id, c), cfg)
    ensures Step(h, On(id, c), cfg).1 == NotHere
  {
    hide Swept, ReleaseQuota;
  }
}
