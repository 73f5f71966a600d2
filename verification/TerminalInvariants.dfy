/** What every locked section of a terminal keeps, and what it gives back to the quota. */
module TerminalInvariants {
  import opened Bytes
  import opened Sums
  import opened TerminalModel
  import Filter = Osc52Filter

  // ---- the invariants of one terminal -------------------------------------------

  ghost predicate BindingsOk(t: Terminal) {
    && t.viewers == |t.bindings| + (if t.opening then 1 else 0)
    && (t.lastDetached.Some? <==> t.viewers == 0)
    && t.bindings.Keys !! t.released
    && forall k :: k in t.bindings ==> t.bindings[k].epoch <= t.nextEpoch
  }

  /** The triggers of the `TerminalClosed` events, in order. */
  function Closes(events: seq<Event>): (r: seq<Trigger>) {
    if events == [] then []
    else Closes(events[..|events| - 1]) + (match events[|events| - 1] case Closed(g) => [g] case _ => [])
  }

  function Violations(events: seq<Event>): (n: nat) {
    if events == [] then 0
    else Violations(events[..|events| - 1]) + (if events[|events| - 1].Violation? then 1 else 0)
  }

  /** One close at most; a violation exactly when overflow won it; nothing journalled afterwards. */
  ghost predicate CloseOk(t: Terminal) {
    && t.closeTransitions == (if t.closed then 1 else 0) == |Closes(t.events)|
    && Violations(t.events) == (if Closes(t.events) == [Osc52Overflow] then 1 else 0)
    && (t.closed ==> t.ingress == map[])
    && (!t.closed ==> (t.filter.overflowed <==> t.overflowing))
  }

  ghost predicate PreparedOk(op: Operation) {
    && op.bytes == Flatten(op.accepted) && |op.bytes| <= op.metadata.size
    && op.sequence.None? && op.committedAt.None? && op.capability.None? && op.file.None?
  }

  /** A committed upload: the accepted chunks are the declared image, and its paste frame is on record. */
  ghost predicate CommittedOk(op: Operation, pastes: seq<seq<byte>>, cfg: Config) {
    && op.bytes == [] && ValidImage(op.metadata, Flatten(op.accepted), cfg)
    && op.file.Some? && ValidImage(op.metadata, op.file.value, cfg)
    && op.committedAt.Some? && op.sequence.Some? && 1 <= op.sequence.value <= |pastes|
    && op.capability == Some(pastes[op.sequence.value - 1])
  }

  ghost predicate OpOk(op: Operation, pastes: seq<seq<byte>>, cfg: Config) {
    && ValidMetadata(op.metadata, cfg)
    && match op.state
       case Prepared => PreparedOk(op)
       case Committed => CommittedOk(op, pastes, cfg)
  }

  ghost predicate JournalIn(ingress: map<Uuid, Operation>, issued: set<Uuid>, pastes: seq<seq<byte>>, cfg: Config) {
    && |ingress| <= cfg.journalCap
    && (forall k :: k in ingress ==>
          ingress[k].metadata.operation == k && ingress[k].binding.id in issued && OpOk(ingress[k], pastes, cfg))
    && (forall j, k :: j in ingress && k in ingress && j != k && ingress[j].sequence.Some?
          ==> ingress[j].sequence != ingress[k].sequence)
  }

  ghost predicate JournalOk(t: Terminal, cfg: Config) {
    |t.pastes| == t.inputSequence && JournalIn(t.ingress, Issued(t), t.pastes, cfg)
  }

  ghost predicate TerminalOk(t: Terminal, cfg: Config) {
    BindingsOk(t) && CloseOk(t) && JournalOk(t, cfg) && |t.replay| <= cfg.replayCap
  }

  // ---- journals -------------------------------------------------------------------

  lemma SubJournal(ingress: map<Uuid, Operation>, sub: map<Uuid, Operation>, issued: set<Uuid>,
                   pastes: seq<seq<byte>>, cfg: Config)
    requires JournalIn(ingress, issued, pastes, cfg)
    requires forall k :: k in sub ==> k in ingress && sub[k] == ingress[k]
    ensures JournalIn(sub, issued, pastes, cfg)
  {
    hide OpOk;
    assert sub.Keys <= ingress.Keys;
    SubsetSize(sub.Keys, ingress.Keys);
    assert |sub| == |sub.Keys| && |ingress| == |ingress.Keys|;
  }

  lemma MoreIssued(ingress: map<Uuid, Operation>, issued: set<Uuid>, more: set<Uuid>, pastes: seq<seq<byte>>,
                   cfg: Config)
    requires JournalIn(ingress, issued, pastes, cfg) && issued <= more
    ensures JournalIn(ingress, more, pastes, cfg)
  {
    hide OpOk;
  }

  /** Writing one operation that is in order and repeats no other's sequence. */
  lemma WriteOp(ingress: map<Uuid, Operation>, k: Uuid, op: Operation, issued: set<Uuid>, pastes: seq<seq<byte>>,
                cfg: Config)
    requires JournalIn(ingress, issued, pastes, cfg) && (k in ingress || |ingress| < cfg.journalCap)
    requires op.metadata.operation == k && op.binding.id in issued && OpOk(op, pastes, cfg)
    requires forall j :: j in ingress && j != k && op.sequence.Some? ==> ingress[j].sequence != op.sequence
    ensures JournalIn(ingress[k := op], issued, pastes, cfg)
  {
    hide OpOk;
    SizeWith(ingress, k, op);
  }

  /** A new paste frame leaves the committed operations in order. */
  lemma MorePastes(ingress: map<Uuid, Operation>, issued: set<Uuid>, pastes: seq<seq<byte>>, paste: seq<byte>,
                   cfg: Config)
    requires JournalIn(ingress, issued, pastes, cfg)
    ensures JournalIn(ingress, issued, pastes + [paste], cfg)
    ensures forall k :: k in ingress && ingress[k].sequence.Some? ==> ingress[k].sequence.value <= |pastes|
  {
    hide ValidImage, ValidMetadata, PreparedOk;
    forall k | k in ingress
      ensures OpOk(ingress[k], pastes + [paste], cfg)
      ensures ingress[k].sequence.Some? ==> ingress[k].sequence.value <= |pastes|
    {
      assert OpOk(ingress[k], pastes, cfg);
      if ingress[k].state.Prepared? { PreparedHasNoSequence(ingress[k]); }
    }
  }

  lemma PreparedHasNoSequence(op: Operation)
    requires PreparedOk(op)
    ensures op.sequence.None?
  {
  }

  // ---- kept by every section -----------------------------------------------------

  lemma SpawnedOk(cfg: Config)
    ensures TerminalOk(SPAWNED, cfg)
  {
  }

  lemma IssueOk(t: Terminal, owner: Owner, session: Uuid, id: Uuid, cfg: Config)
    requires id !in Issued(t) && t.lastDetached.None?
    requires t.viewers == |t.bindings| + 1 + (if t.opening then 1 else 0)
    requires t.bindings.Keys !! t.released
    requires forall k :: k in t.bindings ==> t.bindings[k].epoch <= t.nextEpoch
    requires CloseOk(t) && JournalOk(t, cfg) && |t.replay| <= cfg.replayCap
    ensures TerminalOk(Issue(t, owner, session, id).term, cfg)
  {
    hide JournalIn, Closes, Violations;
    var t' := Issue(t, owner, session, id).term;
    SizeWith(t.bindings, id, BindingRecord(t.nextEpoch + 1, owner, session));
    MoreIssued(t.ingress, Issued(t), Issued(t'), t.pastes, cfg);
  }

  lemma ReleaseViewerOk(t: Terminal, b: Binding, now: Time, cfg: Config)
    requires TerminalOk(t, cfg)
    ensures TerminalOk(ReleaseViewer(t, b, now).term, cfg)
  {
    hide JournalIn, Closes, Violations;
    var t' := ReleaseViewer(t, b, now).term;
    if b.id in t.bindings && t.bindings[b.id].epoch == b.epoch {
      SizeWithout(t.bindings, b.id);
      assert Issued(t') == Issued(t);
      ViewersEvent(t.events, t'.viewers);
    }
  }

  lemma ViewersEvent(events: seq<Event>, n: nat)
    ensures Closes(events + [Viewers(n)]) == Closes(events)
    ensures Violations(events + [Viewers(n)]) == Violations(events)
  {
    var e := events + [Viewers(n)];
    assert e[..|e| - 1] == events;
  }

  lemma SweepOk(t: Terminal, now: Time, cfg: Config)
    requires TerminalOk(t, cfg)
    ensures TerminalOk(Sweep(t, now, cfg.ttl).term, cfg)
  {
    hide JournalIn, Closes, Violations;
    SubJournal(t.ingress, Kept(t.ingress, now, cfg.ttl), Issued(t), t.pastes, cfg);
  }

  /** Replacing one journalled operation by another that is in order. */
  lemma ReplaceOk(t: Terminal, k: Uuid, op: Operation, cfg: Config)
    requires TerminalOk(t, cfg) && !t.closed && (k in t.ingress || |t.ingress| < cfg.journalCap)
    requires op.metadata.operation == k && op.binding.id in Issued(t) && OpOk(op, t.pastes, cfg)
    requires op.sequence.None? || (k in t.ingress && op.sequence == t.ingress[k].sequence)
    ensures TerminalOk(t.(ingress := t.ingress[k := op]), cfg)
  {
    hide OpOk, Closes, Violations;
    WriteOp(t.ingress, k, op, Issued(t), t.pastes, cfg);
  }

  lemma LongerUpload(op: Operation, bytes: seq<byte>, pastes: seq<seq<byte>>, cfg: Config)
    requires OpOk(op, pastes, cfg) && op.state.Prepared? && |op.bytes| + |bytes| <= op.metadata.size
    ensures OpOk(op.(bytes := op.bytes + bytes, accepted := op.accepted + [bytes]), pastes, cfg)
  {
    hide ValidMetadata;
    FlattenSnoc(op.accepted, bytes);
  }

  lemma ChunkOk(t: Terminal, b: Binding, id: Uuid, offset: nat, bytes: seq<byte>, now: Time, cfg: Config)
    requires TerminalOk(t, cfg)
    ensures TerminalOk(Chunk(t, b, id, offset, bytes, now, cfg).term, cfg)
  {
    hide BindingsOk, CloseOk, OpOk, Kept;
    SweepOk(t, now, cfg);
    var s := Sweep(t, now, cfg.ttl).term;
    if Chunk(t, b, id, offset, bytes, now, cfg).response.Receipt? {
      var op := s.ingress[id];
      assert OpOk(op, s.pastes, cfg);
      PreparedSequence(op, s.pastes, cfg);
      LongerUpload(op, bytes, s.pastes, cfg);
      ReplaceOk(s, id, op.(bytes := op.bytes + bytes, accepted := op.accepted + [bytes]), cfg);
    }
  }

  lemma PreparedSequence(op: Operation, pastes: seq<seq<byte>>, cfg: Config)
    requires OpOk(op, pastes, cfg) && op.state.Prepared?
    ensures op.sequence.None?
  {
  }

  lemma FinishOk(t: Terminal, b: Binding, id: Uuid, now: Time, w: World, cfg: Config)
    requires TerminalOk(t, cfg)
    ensures TerminalOk(Finish(t, b, id, now, w, cfg).term, cfg)
  {
    hide BindingsOk, CloseOk, ValidImage, ValidMetadata, Flatten;
    SweepOk(t, now, cfg);
    var s := Sweep(t, now, cfg.ttl).term;
    if id in s.ingress && CanCommit(s.ingress[id], b, w, cfg) && Authorized(t, b) {
      CommitOk(s, id, now, w, cfg);
    }
  }

  lemma CommitOk(t: Terminal, id: Uuid, now: Time, w: World, cfg: Config)
    requires TerminalOk(t, cfg) && !t.closed && id in t.ingress
    requires CanCommit(t.ingress[id], t.ingress[id].binding, w, cfg)
    ensures var op := Commit(t.ingress[id], t.inputSequence + 1, now, w);
            TerminalOk(t.(inputSequence := t.inputSequence + 1, pastes := t.pastes + [w.capability],
                          ingress := t.ingress[id := op]), cfg)
  {
    hide JournalIn, Closes, Violations, CanCommit;
    MorePastes(t.ingress, Issued(t), t.pastes, w.capability, cfg);
    CommittedInOrder(t.ingress, id, Issued(t), t.pastes, now, w, cfg);
    WriteOp(t.ingress, id, Commit(t.ingress[id], t.inputSequence + 1, now, w), Issued(t), t.pastes + [w.capability],
        cfg);
  }

  lemma CommittedInOrder(ingress: map<Uuid, Operation>, id: Uuid, issued: set<Uuid>, pastes: seq<seq<byte>>,
                         now: Time, w: World, cfg: Config)
    requires JournalIn(ingress, issued, pastes, cfg) && id in ingress
            && CanCommit(ingress[id], ingress[id].binding, w, cfg)
    ensures var op := Commit(ingress[id], |pastes| + 1, now, w);
            op.metadata.operation == id && op.binding.id in issued && OpOk(op, pastes + [w.capability], cfg)
  {
    hide ValidImage, ValidMetadata, Flatten;
    assert OpOk(ingress[id], pastes, cfg);
  }

  lemma ConsumeOk(t: Terminal, found: Option<Uuid>, owner: Owner, session: Uuid, now: Time,
                  readBack: Option<seq<byte>>, cfg: Config)
    requires TerminalOk(t, cfg)
    ensures TerminalOk(Consume(t, found, owner, session, now, readBack, cfg).term, cfg)
  {
    hide JournalIn, Closes, Violations, Kept;
    SweepOk(t, now, cfg);
    var s := Sweep(t, now, cfg.ttl).term;
    if found.Some? {
      SubJournal(s.ingress, s.ingress - {found.value}, Issued(s), s.pastes, cfg);
    }
  }

  lemma BeginAgainOk(t: Terminal, b: Binding, m: Metadata, cfg: Config)
    requires TerminalOk(t, cfg) && Authorized(t, b) && m.operation in t.ingress
    ensures TerminalOk(BeginAgain(t, b, m).term, cfg)
  {
    hide BindingsOk, CloseOk, CommittedOk, ValidMetadata;
    var op := t.ingress[m.operation];
    var op' := op.(binding := b, owner := t.bindings[b.id].owner);
    assert OpOk(op, t.pastes, cfg);
    if op.state.Committed? {
      CommittedIgnoresBinding(op, op', t.pastes, cfg);
    }
    ReplaceOk(t, m.operation, op', cfg);
  }

  lemma CommittedIgnoresBinding(op: Operation, op': Operation, pastes: seq<seq<byte>>, cfg: Config)
    requires CommittedOk(op, pastes, cfg) && op' == op.(binding := op'.binding, owner := op'.owner)
    ensures CommittedOk(op', pastes, cfg)
  {
    hide ValidImage;
  }

  lemma FreshOk(t: Terminal, b: Binding, m: Metadata, now: Time, cfg: Config)
    requires TerminalOk(t, cfg) && BeginMain(t, b, m, now, cfg).Fresh?
    ensures TerminalOk(t.(ingress := t.ingress[m.operation := BeginMain(t, b, m, now, cfg).op]), cfg)
  {
    hide BindingsOk, CloseOk, ValidMetadata;
    ReplaceOk(t, m.operation, BeginMain(t, b, m, now, cfg).op, cfg);
  }

  lemma PtyBytesOk(t: Terminal, bytes: seq<byte>, cfg: Config)
    requires TerminalOk(t, cfg) && !t.overflowing
    ensures TerminalOk(PtyBytes(t, bytes, cfg).term, cfg)
  {
    hide JournalIn, Closes, Violations, Filter.Push;
    Filter.PushFlag(t.filter, bytes, cfg.osc52Cap);
  }

  lemma CloseEvents(events: seq<Event>, trigger: Trigger)
    ensures var e := events + (if trigger.Osc52Overflow? then [Violation] else []) + [Closed(trigger)];
            && Closes(e) == Closes(events) + [trigger]
            && Violations(e) == Violations(events) + (if trigger.Osc52Overflow? then 1 else 0)
  {
    var e1 := events + (if trigger.Osc52Overflow? then [Violation] else []);
    var e2 := e1 + [Closed(trigger)];
    if trigger.Osc52Overflow? {
      assert e1[..|e1| - 1] == events && e1[|e1| - 1] == Violation;
      assert Closes(e1) == Closes(events) + [];
    } else {
      assert e1 == events;
    }
    assert e2[..|e2| - 1] == e1;
  }

  lemma CloseKeepsOk(t: Terminal, trigger: Trigger, cfg: Config)
    requires TerminalOk(t, cfg)
    ensures TerminalOk(Close(t, trigger).term, cfg)
    ensures TerminalOk(Close(t, trigger).term.(overflowing := false), cfg)
  {
    hide JournalIn, Closes, Violations;
    CloseEvents(t.events, trigger);
    SubJournal(t.ingress, map[], Issued(t), t.pastes, cfg);
    assert Closes(t.events) == [] ==> [] + [trigger] == [trigger];
  }

  // ---- what a section gives back is what leaves the journal ------------------------

  /** What an operation weighs against principal `p`: its declared size, or one. */
  function OpWeight(p: Principal, inBytes: bool): (f: Operation -> nat) {
    (op: Operation) =>
      if op.state.Prepared? && op.owner.principal == p then (if inBytes then op.metadata.size else 1) else 0
  }

  function ChargeWeight(p: Principal, inBytes: bool): (f: Charge -> nat) {
    (c: Charge) => if c.principal == p then (if inBytes then c.size else 1) else 0
  }

  ghost function JournalWeight(t: Terminal, p: Principal, inBytes: bool): (n: nat) {
    Sum(t.ingress, OpWeight(p, inBytes))
  }

  ghost function ReleasedWeight(released: map<Uuid, Charge>, p: Principal, inBytes: bool): (n: nat) {
    Sum(released, ChargeWeight(p, inBytes))
  }

  /** The section moves weight from the journal to its releases, and makes or loses none. */
  ghost predicate Conserves(t: Terminal, s: Section, p: Principal, inBytes: bool) {
    JournalWeight(t, p, inBytes) == JournalWeight(s.term, p, inBytes) + ReleasedWeight(s.released, p, inBytes)
  }

  lemma NothingReleased(t: Terminal, t': Terminal, r: Response, p: Principal, inBytes: bool)
    requires t'.ingress == t.ingress
    ensures Conserves(t, Section(t', r, map[]), p, inBytes)
  {
  }

  lemma SweepConserves(t: Terminal, now: Time, ttl: nat, p: Principal, inBytes: bool)
    ensures Conserves(t, Sweep(t, now, ttl), p, inBytes)
  {
    hide Expired;
    SumSplit(t.ingress, Kept(t.ingress, now, ttl), Swept(t.ingress, now, ttl),
             OpWeight(p, inBytes), OpWeight(p, inBytes), ChargeWeight(p, inBytes));
  }

  /** Continuing a conserving section with a change of one operation that keeps its weight. */
  lemma SameWeight(t: Terminal, s: Section, id: Uuid, op: Operation, r: Response, p: Principal, inBytes: bool)
    requires Conserves(t, s, p, inBytes) && id in s.term.ingress
    requires OpWeight(p, inBytes)(op) == OpWeight(p, inBytes)(s.term.ingress[id])
    ensures Conserves(t, Section(s.term.(ingress := s.term.ingress[id := op]), r, s.released), p, inBytes)
  {
    SumUpdate(s.term.ingress, id, op, OpWeight(p, inBytes));
  }

  lemma ChunkConserves(t: Terminal, b: Binding, id: Uuid, offset: nat, bytes: seq<byte>, now: Time, cfg: Config,
                       p: Principal, inBytes: bool)
    ensures Conserves(t, Chunk(t, b, id, offset, bytes, now, cfg), p, inBytes)
  {
    hide Sum, Kept, Swept;
    var s := Sweep(t, now, cfg.ttl);
    SweepConserves(t, now, cfg.ttl, p, inBytes);
    NothingReleased(t, t, Refused(InvalidIngress), p, inBytes);
    if id in s.term.ingress {
      var op := s.term.ingress[id];
      var op' := op.(bytes := op.bytes + bytes, accepted := op.accepted + [bytes]);
      SameWeight(t, s, id, op', ReceiptOf(op'), p, inBytes);
    }
  }

  lemma FinishConserves(t: Terminal, b: Binding, id: Uuid, now: Time, w: World, cfg: Config, p: Principal,
                        inBytes: bool)
    ensures Conserves(t, Finish(t, b, id, now, w, cfg), p, inBytes)
  {
    hide Sum, Kept, Swept, ValidImage;
    var s := Sweep(t, now, cfg.ttl);
    SweepConserves(t, now, cfg.ttl, p, inBytes);
    NothingReleased(t, t, Refused(InvalidIngress), p, inBytes);
    var r := Finish(t, b, id, now, w, cfg);
    if Authorized(t, b) && id in s.term.ingress && CanCommit(s.term.ingress[id], b, w, cfg) {
      CommitConserves(t, s, id, Commit(s.term.ingress[id], t.inputSequence + 1, now, w), r.term, r.response,
          cfg.ttl, now, p, inBytes);
    }
  }

  lemma CommitConserves(t: Terminal, s: Section, id: Uuid, op': Operation, t': Terminal, r: Response, ttl: nat,
                        now: Time,
                        p: Principal, inBytes: bool)
    requires s == Sweep(t, now, ttl) && id in s.term.ingress && s.term.ingress[id].state.Prepared?
    requires Conserves(t, s, p, inBytes) && op'.state.Committed? && t'.ingress == s.term.ingress[id := op']
    ensures Conserves(t, Section(t', r, s.released[id := ChargeOf(s.term.ingress[id])]), p, inBytes)
  {
    hide Expired;
    var op := s.term.ingress[id];
    assert id !in s.released;
    SumInsert(s.released, id, ChargeOf(op), ChargeWeight(p, inBytes));
    SumUpdate(s.term.ingress, id, op', OpWeight(p, inBytes));
  }

  lemma ConsumeConserves(t: Terminal, found: Option<Uuid>, owner: Owner, session: Uuid, now: Time,
                         readBack: Option<seq<byte>>, cfg: Config, p: Principal, inBytes: bool)
    ensures Conserves(t, Consume(t, found, owner, session, now, readBack, cfg), p, inBytes)
  {
    hide Sum, Kept, Swept;
    var s := Sweep(t, now, cfg.ttl);
    SweepConserves(t, now, cfg.ttl, p, inBytes);
    if found.Some? && found.value in s.term.ingress {
      SumRemove(s.term.ingress, found.value, OpWeight(p, inBytes));
    }
  }

  lemma BeginAgainConserves(t: Terminal, b: Binding, m: Metadata, p: Principal, inBytes: bool)
    requires Authorized(t, b) && m.operation in t.ingress
    ensures Conserves(t, BeginAgain(t, b, m), p, inBytes)
  {
    hide Sum;
    NothingReleased(t, t, Ack, p, inBytes);
    var op := t.ingress[m.operation];
    SumUpdate(t.ingress, m.operation, op.(binding := b, owner := t.bindings[b.id].owner), OpWeight(p, inBytes));
  }

  lemma CloseConserves(t: Terminal, trigger: Trigger, p: Principal, inBytes: bool)
    ensures Conserves(t, Close(t, trigger), p, inBytes)
  {
    NothingReleased(t, t, Ack, p, inBytes);
    SumSplit(t.ingress, map[], PreparedCharges(t.ingress),
             OpWeight(p, inBytes), OpWeight(p, inBytes), ChargeWeight(p, inBytes));
  }
}
