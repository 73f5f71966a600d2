/** Commits, closes and bindings, over whole runs of the host. */
module HostRuns {
  import opened Bytes
  import opened Sums
  import opened TerminalModel
  import opened TerminalInvariants
  import opened HostModel
  import opened HostInvariants
  import Filter = Osc52Filter

  // ---- commits ------------------------------------------------------------------------

  /** This `finish` finds a complete prepared upload and everything it needs to commit it. */
  predicate Commits(t: Terminal, c: Command, cfg: Config) {
    && c.DoFinish? && Authorized(t, c.b)
    && var kept := Kept(t.ingress, c.now, cfg.ttl);
       c.op in kept && CanCommit(kept[c.op], c.b, c.w, cfg)
  }

  /** A commit takes the next sequence and one paste frame, and only for the image that was declared. */
  lemma CommitTakesNextSequence(t: Terminal, c: Command, cfg: Config)
    requires TerminalOk(t, cfg) && Commits(t, c, cfg)
    ensures c.op in t.ingress
    ensures var s := Perform(t, c, cfg);
            && s.response == Receipt(c.op, Committed, t.ingress[c.op].metadata.size, Some(t.inputSequence + 1))
            && s.term.inputSequence == t.inputSequence + 1
            && s.term.pastes == t.pastes + [c.w.capability]
            && ValidImage(t.ingress[c.op].metadata, Flatten(t.ingress[c.op].accepted), cfg)
            && c.op in s.term.ingress && s.term.ingress[c.op].state.Committed?
  {
    hide BindingsOk, CloseOk, ValidImage, ValidMetadata, Flatten;
    assert OpOk(t.ingress[c.op], t.pastes, cfg);
  }

  /** Nothing else touches the sequence or the paste frames. */
  lemma OnlyCommitsPaste(t: Terminal, c: Command, cfg: Config)
    requires !Commits(t, c, cfg)
    ensures Perform(t, c, cfg).term.inputSequence == t.inputSequence
    ensures Perform(t, c, cfg).term.pastes == t.pastes
  {
    hide ValidImage, Swept, Kept, Filter.Push;
  }

  /** A chunk is taken exactly when it starts where the accepted ones end and does not overrun. */
  lemma ChunkTakenInOrder(t: Terminal, b: Binding, id: Uuid, offset: nat, bytes: seq<byte>, now: Time, cfg: Config)
    requires TerminalOk(t, cfg)
    ensures var s := Chunk(t, b, id, offset, bytes, now, cfg);
            var kept := Kept(t.ingress, now, cfg.ttl);
            s.response.Receipt? <==>
              && 1 <= |bytes| <= cfg.maxChunk && Authorized(t, b) && id in kept
              && kept[id].binding == b && kept[id].state.Prepared?
              && offset == |Flatten(kept[id].accepted)| && offset + |bytes| <= kept[id].metadata.size
    ensures var s := Chunk(t, b, id, offset, bytes, now, cfg);
            s.response.Receipt? ==> s.term.ingress[id].accepted == t.ingress[id].accepted + [bytes]
  {
    hide BindingsOk, CloseOk, ValidMetadata, ValidImage, Flatten, Expired;
    if id in t.ingress {
      assert OpOk(t.ingress[id], t.pastes, cfg);
    }
  }

  // ---- what a step does to the one terminal it is about --------------------------------

  /** The terminal `t` after the action `a` about it; `charged`: a fresh upload was within the quota. */
  function Touch(t: Terminal, a: Action, charged: bool, cfg: Config): (t': Terminal) {
    match a
    case On(_, c) => Perform(t, c, cfg).term
    case StartBegin(_, b, now) => BeginSweep(t, b, now, cfg).term
    case EndBegin(_, b, m, now) =>
      (match BeginMain(t, b, m, now, cfg)
       case Answered(s) => s.term
       case Fresh(op) => if charged then t.(ingress := t.ingress[m.operation := op]) else t)
    case _ => t
  }

  /** The quota has room for the upload that `a` would start. */
  predicate Charged(h: Host, a: Action, cfg: Config) {
    && a.EndBegin? && a.id in h.terminals
    && var r := BeginMain(h.terminals[a.id], a.b, a.m, a.now, cfg);
       r.Fresh? && ChargeQuota(h.quotas, r.op.owner.principal, a.m.size, cfg).0
  }

  predicate About(a: Action, id: Uuid) {
    !a.Spawn? && !a.ApplyDetached? && a.id == id
  }

  /** A step changes the terminal it is about, as that terminal alone determines, and no other. */
  lemma StepTouches(h: Host, a: Action, id: Uuid, cfg: Config)
    requires Enabled(h, a, cfg) && id in h.terminals
    ensures id in Step(h, a, cfg).0.terminals
    ensures Step(h, a, cfg).0.terminals[id] ==
            if About(a, id) then Touch(h.terminals[id], a, Charged(h, a, cfg), cfg) else h.terminals[id]
  {
    hide Perform, BeginSweep, BeginMain, ReleaseQuota, ChargeQuota;
  }

  lemma TouchPastes(t: Terminal, a: Action, charged: bool, cfg: Config)
    requires !a.On?
    ensures Touch(t, a, charged, cfg).pastes == t.pastes
  {
    hide ValidMetadata, Kept, Swept;
  }

  predicate CommitsOn(h: Host, a: Action, id: Uuid, cfg: Config) {
    a.On? && a.id == id && id in h.terminals && Commits(h.terminals[id], a.command, cfg)
  }

  /** The sequence numbers that the successful `finish` calls on terminal `id` were given, in order. */
  ghost function SequencesGiven(h: Host, actions: seq<Action>, id: Uuid, cfg: Config): (r: seq<Option<nat>>)
    requires Legal(h, actions, cfg)
    decreases |actions|
  {
    if actions == [] then []
    else
      var (h', response) := Step(h, actions[0], cfg);
      (if CommitsOn(h, actions[0], id, cfg) && response.Receipt? then [response.sequence] else [])
      + SequencesGiven(h', actions[1..], id, cfg)
  }

  function Pastes(h: Host, id: Uuid): (r: seq<seq<byte>>) {
    if id in h.terminals then h.terminals[id].pastes else []
  }

  lemma StepPastes(h: Host, a: Action, id: Uuid, cfg: Config)
    requires HostOk(h, cfg) && Enabled(h, a, cfg)
    ensures var (h', response) := Step(h, a, cfg);
            if CommitsOn(h, a, id, cfg)
            then && response.Receipt? && response.sequence == Some(|Pastes(h, id)| + 1)
                 && Pastes(h', id) == Pastes(h, id) + [a.command.w.capability]
            else Pastes(h', id) == Pastes(h, id)
  {
    hide Commits, Perform, TerminalOk, Conserved, WithinLimits, CanPerform, EndBeginHost, Settle, Touch;
    if id !in h.terminals {
      SpawnPastes(h, a, id, cfg);
    } else {
      StepTouches(h, a, id, cfg);
      var t := h.terminals[id];
      if a.On? && a.id == id {
        OnPastes(t, a, cfg);
        assert Step(h, a, cfg).1 == Perform(t, a.command, cfg).response;
      } else {
        if !a.On? { TouchPastes(t, a, Charged(h, a, cfg), cfg); }
      }
    }
  }

  lemma SpawnPastes(h: Host, a: Action, id: Uuid, cfg: Config)
    requires Enabled(h, a, cfg) && id !in h.terminals
    ensures Pastes(Step(h, a, cfg).0, id) == []
  {
    hide Perform, BeginSweep, BeginMain, ReleaseQuota, ChargeQuota, CanPerform;
  }

  lemma OnPastes(t: Terminal, a: Action, cfg: Config)
    requires a.On? && TerminalOk(t, cfg)
    ensures var s := Perform(t, a.command, cfg);
            && (forall charged :: Touch(t, a, charged, cfg) == s.term)
            && (if Commits(t, a.command, cfg)
                then && s.response.Receipt? && s.response.sequence == Some(|t.pastes| + 1)
                     && s.term.pastes == t.pastes + [a.command.w.capability]
                else s.term.pastes == t.pastes)
  {
    hide Commits, Perform, JournalIn, BindingsOk, CloseOk;
    if Commits(t, a.command, cfg) {
      CommitTakesNextSequence(t, a.command, cfg);
    } else {
      OnlyCommitsPaste(t, a.command, cfg);
    }
  }

  /** The k-th successful `finish` on a terminal is given sequence k, and puts one paste frame on its queue. */
  lemma {:induction false} ExactlyOnceCommit(h: Host, actions: seq<Action>, id: Uuid, cfg: Config)
    requires HostOk(h, cfg) && Legal(h, actions, cfg)
    ensures var given := SequencesGiven(h, actions, id, cfg);
            && |Pastes(Run(h, actions, cfg), id)| == |Pastes(h, id)| + |given|
            && forall k :: 0 <= k < |given| ==> given[k] == Some(|Pastes(h, id)| + k + 1)
    decreases |actions|
  {
    hide Step, HostOk, CommitsOn, Pastes;
    if actions != [] {
      StepPastes(h, actions[0], id, cfg);
      StepKeepsOk(h, actions[0], cfg);
      ExactlyOnceCommit(Step(h, actions[0], cfg).0, actions[1..], id, cfg);
    }
  }

  // ---- what a step may do to one terminal -----------------------------------------------

  /** How a terminal may differ after a step: what is for ever stays so. */
  ghost predicate Follows(t: Terminal, t': Terminal) {
    && t.released <= t'.released
    && Closes(t.events) <= Closes(t'.events)
    && (t.closed ==> && t'.closed && t'.filter == t.filter && t'.replay == t.replay && t'.ingress == t.ingress
                     && Closes(t'.events) == Closes(t.events) && Violations(t'.events) == Violations(t.events))
  }

  lemma NothingKept(now: Time, ttl: nat)
    ensures Kept(map[], now, ttl) == map[]
  {
  }

  lemma ChunkFollows(t: Terminal, b: Binding, op: Uuid, offset: nat, bytes: seq<byte>, now: Time, cfg: Config)
    ensures Follows(t, Chunk(t, b, op, offset, bytes, now, cfg).term)
  {
    hide Closes, Violations, Swept, Kept;
  }

  lemma FinishFollows(t: Terminal, b: Binding, op: Uuid, now: Time, w: World, cfg: Config)
    ensures Follows(t, Finish(t, b, op, now, w, cfg).term)
  {
    hide Closes, Violations, Swept, Kept, ValidImage;
  }

  lemma ConsumeFollows(t: Terminal, found: Option<Uuid>, owner: Owner, session: Uuid, now: Time,
                       readBack: Option<seq<byte>>, cfg: Config)
    requires t.closed ==> t.ingress == map[]
    ensures Follows(t, Consume(t, found, owner, session, now, readBack, cfg).term)
  {
    hide Closes, Violations, Swept, Kept;
    NothingKept(now, cfg.ttl);
  }

  lemma PerformFollows(t: Terminal, c: Command, cfg: Config)
    requires t.closed ==> t.ingress == map[]
    ensures Follows(t, Perform(t, c, cfg).term)
  {
    hide Closes, Violations, Swept, Kept, Chunk, Finish, Consume, Filter.Push;
    match c
    case DoRelease(b, now) => ViewersEvent(t.events, Perform(t, c, cfg).term.viewers);
    case DoClientClose => CloseEvents(t.events, ClientClose);
    case DoEof => CloseEvents(t.events, ProcessExited);
    case DoOverflowClose => CloseEvents(t.events, Osc52Overflow);
    case DoOpenBind(_, _, _) =>
    case DoAttach(_, _, _) => ViewersEvent(t.events, t.viewers + 1);
    case DoChunk(b, op, offset, bytes, now) => ChunkFollows(t, b, op, offset, bytes, now, cfg);
    case DoStatus(_, _, now) => NothingKept(now, cfg.ttl);
    case DoFinish(b, op, now, w) => FinishFollows(t, b, op, now, w, cfg);
    case DoConsume(_, found, owner, session, now, readBack) =>
        ConsumeFollows(t, found, owner, session, now, readBack, cfg);
    case DoSweep(now) => NothingKept(now, cfg.ttl);
    case DoPtyBytes(_) =>
  }

  lemma TouchFollows(t: Terminal, a: Action, charged: bool, cfg: Config)
    requires t.closed ==> t.ingress == map[]
    ensures Follows(t, Touch(t, a, charged, cfg))
  {
    hide Closes, Violations, Swept, ValidMetadata, Perform;
    if a.On? {
      PerformFollows(t, a.command, cfg);
    }
  }

  lemma StepFollows(h: Host, a: Action, id: Uuid, cfg: Config)
    requires HostOk(h, cfg) && Enabled(h, a, cfg) && id in h.terminals
    ensures var h' := Step(h, a, cfg).0; id in h'.terminals && Follows(h.terminals[id], h'.terminals[id])
  {
    hide Closes, Violations, BindingsOk, JournalIn, Step, Enabled, Touch, Follows;
    StepTouches(h, a, id, cfg);
    var t := h.terminals[id];
    assert TerminalOk(t, cfg);
    TouchFollows(t, a, Charged(h, a, cfg), cfg);
    FollowsItself(t);
  }

  lemma FollowsItself(t: Terminal)
    ensures Follows(t, t)
  {
  }

  lemma {:induction false} RunFollows(h: Host, actions: seq<Action>, id: Uuid, cfg: Config)
    requires HostOk(h, cfg) && Legal(h, actions, cfg) && id in h.terminals
    ensures var h' := Run(h, actions, cfg); id in h'.terminals && Follows(h.terminals[id], h'.terminals[id])
    decreases |actions|
  {
    hide Step, HostOk, Closes, Violations;
    if actions != [] {
      StepFollows(h, actions[0], id, cfg);
      StepKeepsOk(h, actions[0], cfg);
      RunFollows(Step(h, actions[0], cfg).0, actions[1..], id, cfg);
    }
  }

  // ---- one close per generation -----------------------------------------------------------

  predicate IsClose(c: Command) {
    c.DoClientClose? || c.DoEof? || c.DoOverflowClose?
  }

  function TriggerOf(c: Command): (g: Trigger)
    requires IsClose(c)
  {
    if c.DoClientClose? then ClientClose else if c.DoEof? then ProcessExited else Osc52Overflow
  }

  /** Whichever trigger closes first is the only one reported, whatever happens afterwards. */
  lemma FirstCloseWins(h: Host, id: Uuid, c: Command, later: seq<Action>, cfg: Config)
    requires HostOk(h, cfg) && id in h.terminals && !h.terminals[id].closed
    requires IsClose(c) && Legal(h, [On(id, c)] + later, cfg)
    ensures var h' := Run(h, [On(id, c)] + later, cfg);
            && id in h'.terminals
            && var t := h'.terminals[id];
               && t.closed && t.closeTransitions == 1
               && Closes(t.events) == [TriggerOf(c)]
               && Violations(t.events) == (if TriggerOf(c).Osc52Overflow? then 1 else 0)
               && t.ingress == map[]
               && t.filter == h.terminals[id].filter.(pending := []) && t.replay == h.terminals[id].replay
  {
    hide Legal, Run, CanPerform, ReleaseQuota, Closes, Violations, BindingsOk, JournalIn, Conserved, WithinLimits;
    var t := h.terminals[id];
    var actions := [On(id, c)] + later;
    assert actions[0] == On(id, c) && actions[1..] == later;
    UnfoldRun(h, actions, cfg);
    var h1 := Step(h, On(id, c), cfg).0;
    StepKeepsOk(h, On(id, c), cfg);
    CloseEvents(t.events, TriggerOf(c));
    assert Closes(t.events) == [] && [] + [TriggerOf(c)] == [TriggerOf(c)];
    RunFollows(h1, later, id, cfg);
    RunKeepsOk(h1, later, cfg);
    assert TerminalOk(Run(h1, later, cfg).terminals[id], cfg);
  }

  lemma UnfoldRun(h: Host, actions: seq<Action>, cfg: Config)
    requires actions != [] && Legal(h, actions, cfg)
    ensures Enabled(h, actions[0], cfg) && Legal(Step(h, actions[0], cfg).0, actions[1..], cfg)
    ensures Run(h, actions, cfg) == Run(Step(h, actions[0], cfg).0, actions[1..], cfg)
  {
    hide Step, Enabled;
  }

  /** In every state of every run: at most one close, and a violation exactly when overflow won it. */
  lemma OneCloseEver(actions: seq<Action>, id: Uuid, cfg: Config)
    requires Legal(NO_TERMINALS, actions, cfg) && id in Run(NO_TERMINALS, actions, cfg).terminals
    ensures var t := Run(NO_TERMINALS, actions, cfg).terminals[id];
            && |Closes(t.events)| == (if t.closed then 1 else 0) == t.closeTransitions
            && (Violations(t.events) == 1 <==> Closes(t.events) == [Osc52Overflow])
            && (Violations(t.events) == 0 <==> Closes(t.events) != [Osc52Overflow])
            && (t.closed ==> t.ingress == map[])
  {
    hide Legal, Run, Closes, Violations, BindingsOk, JournalIn;
    NoTerminalsOk(cfg);
    RunKeepsOk(NO_TERMINALS, actions, cfg);
    assert TerminalOk(Run(NO_TERMINALS, actions, cfg).terminals[id], cfg);
  }

  // ---- bindings and hand-over ----------------------------------------------------------------

  /** In every state of every run, once opened: viewers are the live bindings, and the clock of an
      unwatched terminal runs exactly when there are none. */
  lemma ViewersAreBindings(actions: seq<Action>, id: Uuid, cfg: Config)
    requires Legal(NO_TERMINALS, actions, cfg) && id in Run(NO_TERMINALS, actions, cfg).terminals
    ensures var t := Run(NO_TERMINALS, actions, cfg).terminals[id];
            !t.opening ==> t.viewers == |t.bindings| && (t.lastDetached.Some? <==> |t.bindings| == 0)
  {
    hide Legal, Run, Closes, Violations, JournalIn, CloseOk;
    NoTerminalsOk(cfg);
    RunKeepsOk(NO_TERMINALS, actions, cfg);
    assert TerminalOk(Run(NO_TERMINALS, actions, cfg).terminals[id], cfg);
  }

  /** A released binding never authorises again. */
  lemma ReleasedForGood(h: Host, actions: seq<Action>, id: Uuid, b: Binding, cfg: Config)
    requires HostOk(h, cfg) && Legal(h, actions, cfg) && id in h.terminals && b.id in h.terminals[id].released
    ensures var h' := Run(h, actions, cfg); id in h'.terminals && !Authorized(h'.terminals[id], b)
  {
    hide Legal, Run, Closes, Violations, JournalIn;
    RunFollows(h, actions, id, cfg);
    RunKeepsOk(h, actions, cfg);
    assert TerminalOk(Run(h, actions, cfg).terminals[id], cfg);
  }
}
