/** The quota is exactly what is outstanding, in every state of every run. */
module HostInvariants {
  import opened Bytes
  import opened Sums
  import opened TerminalModel
  import opened TerminalInvariants
  import opened HostModel
  import Filter = Osc52Filter

  // ---- every section, by command ---------------------------------------------------

  lemma PerformOk(t: Terminal, c: Command, cfg: Config)
    requires TerminalOk(t, cfg) && CanPerform(t, c, cfg)
    ensures TerminalOk(Perform(t, c, cfg).term, cfg)
  {
    hide TerminalOk, Kept;
    match c
    case DoOpenBind(owner, session, id) => OpenBindOk(t, owner, session, id, cfg);
    case DoAttach(owner, session, id) => AttachOk(t, owner, session, id, cfg);
    case DoRelease(b, now) => ReleaseViewerOk(t, b, now, cfg);
    case DoChunk(b, op, offset, bytes, now) => ChunkOk(t, b, op, offset, bytes, now, cfg);
    case DoStatus(_, _, now) => SweepOk(t, now, cfg);
    case DoFinish(b, op, now, w) => FinishOk(t, b, op, now, w, cfg);
    case DoConsume(_, found, owner, session, now, readBack) => ConsumeOk(t, found, owner, session, now, readBack, cfg);
    case DoSweep(now) => SweepOk(t, now, cfg);
    case DoClientClose => CloseKeepsOk(t, ClientClose, cfg);
    case DoEof => CloseKeepsOk(t, ProcessExited, cfg);
    case DoPtyBytes(bytes) => PtyBytesOk(t, bytes, cfg);
    case DoOverflowClose => OverflowCloseOk(t, cfg);
  }

  lemma OpenBindOk(t: Terminal, owner: Owner, session: Uuid, id: Uuid, cfg: Config)
    requires TerminalOk(t, cfg) && t.opening && id !in Issued(t)
    ensures TerminalOk(OpenBind(t, owner, session, id).term, cfg)
  {
    hide JournalIn, Closes, Violations;
    IssueOk(t.(opening := false), owner, session, id, cfg);
  }

  function Watched(t: Terminal): (t': Terminal) {
    t.(viewers := t.viewers + 1, lastDetached := None, events := t.events + [Viewers(t.viewers + 1)])
  }

  lemma WatchedOk(t: Terminal, cfg: Config)
    requires CloseOk(t) && JournalOk(t, cfg)
    ensures CloseOk(Watched(t)) && JournalOk(Watched(t), cfg)
  {
    hide JournalIn, Closes, Violations;
    ViewersEvent(t.events, t.viewers + 1);
  }

  lemma AttachOk(t: Terminal, owner: Owner, session: Uuid, id: Uuid, cfg: Config)
    requires TerminalOk(t, cfg) && id !in Issued(t)
    ensures TerminalOk(Attach(t, owner, session, id).term, cfg)
  {
    if !t.closed {
      WatchedOk(t, cfg);
      assert Attach(t, owner, session, id) == Issue(Watched(t), owner, session, id);
      hide CloseOk, JournalOk, Issue;
      IssueOk(Watched(t), owner, session, id, cfg);
    }
  }

  lemma OverflowCloseOk(t: Terminal, cfg: Config)
    requires TerminalOk(t, cfg)
    ensures TerminalOk(OverflowClose(t).term, cfg)
  {
    hide JournalIn, Closes, Violations;
    CloseKeepsOk(t, Osc52Overflow, cfg);
  }

  lemma PerformConserves(t: Terminal, c: Command, cfg: Config, p: Principal, inBytes: bool)
    ensures Conserves(t, Perform(t, c, cfg), p, inBytes)
  {
    hide Sum, Kept, Swept;
    match c
    case DoOpenBind(_, _, _) => NothingReleased(t, Perform(t, c, cfg).term, Perform(t, c, cfg).response, p, inBytes);
    case DoAttach(_, _, _) => NothingReleased(t, Perform(t, c, cfg).term, Perform(t, c, cfg).response, p, inBytes);
    case DoRelease(_, _) => NothingReleased(t, Perform(t, c, cfg).term, Ack, p, inBytes);
    case DoPtyBytes(_) => NothingReleased(t, Perform(t, c, cfg).term, Ack, p, inBytes);
    case DoChunk(b, op, offset, bytes, now) => ChunkConserves(t, b, op, offset, bytes, now, cfg, p, inBytes);
    case DoStatus(_, _, now) =>
      SweepConserves(t, now, cfg.ttl, p, inBytes);
      NothingReleased(t, t, Refused(InvalidIngress), p, inBytes);
    case DoFinish(b, op, now, w) => FinishConserves(t, b, op, now, w, cfg, p, inBytes);
    case DoConsume(_, found, owner, session, now, readBack) =>
        ConsumeConserves(t, found, owner, session, now, readBack, cfg, p, inBytes);
    case DoSweep(now) => SweepConserves(t, now, cfg.ttl, p, inBytes);
    case DoClientClose => CloseConserves(t, ClientClose, p, inBytes);
    case DoEof => CloseConserves(t, ProcessExited, p, inBytes);
    case DoOverflowClose => CloseConserves(t, Osc52Overflow, p, inBytes);
  }

  // ---- what is outstanding ------------------------------------------------------------

  ghost function TerminalWeight(p: Principal, inBytes: bool): (f: Terminal -> nat) {
    (t: Terminal) => JournalWeight(t, p, inBytes)
  }

  ghost function DetachedWeight(detached: seq<map<Uuid, Charge>>, p: Principal, inBytes: bool): (n: nat) {
    if detached == [] then 0
    else ReleasedWeight(detached[0], p, inBytes) + DetachedWeight(detached[1..], p, inBytes)
  }

  /** Declared sizes, or the number, of `p`'s prepared operations over all terminals and detached releases. */
  ghost function Outstanding(h: Host, p: Principal, inBytes: bool): (n: nat) {
    Sum(h.terminals, TerminalWeight(p, inBytes)) + DetachedWeight(h.detached, p, inBytes)
  }

  function Units(q: Quota, inBytes: bool): (n: nat) {
    if inBytes then q.bytes else q.ops
  }

  ghost predicate ConservedFor(h: Host, p: Principal, inBytes: bool) {
    Units(Entry(h.quotas, p), inBytes) == Outstanding(h, p, inBytes)
  }

  ghost predicate Conserved(h: Host) {
    forall p, inBytes :: ConservedFor(h, p, inBytes)
  }

  ghost predicate WithinLimits(h: Host, cfg: Config) {
    forall p :: Entry(h.quotas, p).ops <= cfg.quotaOps && Entry(h.quotas, p).bytes <= cfg.quotaBytes
  }

  ghost predicate HostOk(h: Host, cfg: Config) {
    && (forall id :: id in h.terminals ==> TerminalOk(h.terminals[id], cfg))
    && Conserved(h) && WithinLimits(h, cfg)
  }

  // ---- releases ------------------------------------------------------------------------

  lemma EntryAfterRelease(quotas: map<Principal, Quota>, released: map<Uuid, Charge>, p: Principal, inBytes: bool)
    ensures Units(Entry(ReleaseQuota(quotas, released), p), inBytes)
            == SatSub(Units(Entry(quotas, p), inBytes), ReleasedWeight(released, p, inBytes))
  {
    hide ReleasedWeight;
  }

  lemma {:induction false} DetachedConcat(a: seq<map<Uuid, Charge>>, b: seq<map<Uuid, Charge>>, p: Principal,
                                          inBytes: bool)
    ensures DetachedWeight(a + b, p, inBytes) == DetachedWeight(a, p, inBytes) + DetachedWeight(b, p, inBytes)
  {
    if a == [] {
      assert a + b == b;
    } else {
      assert (a + b)[1..] == a[1..] + b;
      DetachedConcat(a[1..], b, p, inBytes);
    }
  }

  lemma DetachedOne(d: map<Uuid, Charge>, p: Principal, inBytes: bool)
    ensures DetachedWeight([d], p, inBytes) == ReleasedWeight(d, p, inBytes)
  {
    assert [d][1..] == [];
  }

  lemma DetachedWithout(ds: seq<map<Uuid, Charge>>, i: nat, p: Principal, inBytes: bool)
    requires i < |ds|
    ensures DetachedWeight(ds, p, inBytes)
            == DetachedWeight(ds[..i] + ds[i + 1..], p, inBytes) + ReleasedWeight(ds[i], p, inBytes)
  {
    hide DetachedWeight;
    assert ds == ds[..i] + ([ds[i]] + ds[i + 1..]);
    DetachedConcat(ds[..i], [ds[i]] + ds[i + 1..], p, inBytes);
    DetachedConcat([ds[i]], ds[i + 1..], p, inBytes);
    DetachedConcat(ds[..i], ds[i + 1..], p, inBytes);
    DetachedOne(ds[i], p, inBytes);
  }

  /** A section returns no more than the quota holds, so its saturating subtraction is exact. */
  lemma SettleConserves(h: Host, id: Uuid, s: Section, p: Principal, inBytes: bool)
    requires id in h.terminals && ConservedFor(h, p, inBytes) && Conserves(h.terminals[id], s, p, inBytes)
    ensures ReleasedWeight(s.released, p, inBytes) <= Units(Entry(h.quotas, p), inBytes)
    ensures ConservedFor(Settle(h, id, s), p, inBytes)
  {
    hide Sum, ReleaseQuota, Entry, JournalWeight, ReleasedWeight, DetachedWeight;
    var f := TerminalWeight(p, inBytes);
    SumUpdate(h.terminals, id, s.term, f);
    SumRemove(h.terminals, id, f);
    EntryAfterRelease(h.quotas, s.released, p, inBytes);
  }

  lemma SettleWithin(h: Host, released: map<Uuid, Charge>, cfg: Config)
    requires WithinLimits(h, cfg)
    ensures WithinLimits(h.(quotas := ReleaseQuota(h.quotas, released)), cfg)
  {
    hide ReleaseQuota, Entry, ReleasedWeight;
    forall p ensures Entry(ReleaseQuota(h.quotas, released), p).ops <= cfg.quotaOps
             ensures Entry(ReleaseQuota(h.quotas, released), p).bytes <= cfg.quotaBytes {
      EntryAfterRelease(h.quotas, released, p, false);
      EntryAfterRelease(h.quotas, released, p, true);
    }
  }

  lemma SettleOk(h: Host, id: Uuid, s: Section, cfg: Config)
    requires HostOk(h, cfg) && id in h.terminals && TerminalOk(s.term, cfg)
    requires forall p, inBytes :: Conserves(h.terminals[id], s, p, inBytes)
    ensures HostOk(Settle(h, id, s), cfg)
  {
    hide TerminalOk, ConservedFor, Conserves, ReleaseQuota, Entry;
    forall p, inBytes ensures ConservedFor(Settle(h, id, s), p, inBytes) {
      assert Conserves(h.terminals[id], s, p, inBytes);
      SettleConserves(h, id, s, p, inBytes);
    }
    SettleWithin(h, s.released, cfg);
    assert Settle(h, id, s).quotas == h.(quotas := ReleaseQuota(h.quotas, s.released)).quotas;
  }

  // ---- steps and runs --------------------------------------------------------------------

  lemma SpawnKeepsOk(h: Host, id: Uuid, cfg: Config)
    requires HostOk(h, cfg) && id !in h.terminals
    ensures HostOk(h.(terminals := h.terminals[id := SPAWNED]), cfg)
  {
    hide TerminalOk, Entry, DetachedWeight;
    SpawnedOk(cfg);
    var h' := h.(terminals := h.terminals[id := SPAWNED]);
    forall p, inBytes ensures ConservedFor(h', p, inBytes) {
      assert ConservedFor(h, p, inBytes);
      SumInsert(h.terminals, id, SPAWNED, TerminalWeight(p, inBytes));
      assert JournalWeight(SPAWNED, p, inBytes) == 0;
    }
  }

  lemma StartBeginKeepsOk(h: Host, id: Uuid, b: Binding, now: Time, cfg: Config)
    requires HostOk(h, cfg) && id in h.terminals
    ensures HostOk(Step(h, StartBegin(id, b, now), cfg).0, cfg)
  {
    hide TerminalOk, Entry, DetachedWeight, Sum, Kept, Swept, ReleasedWeight, JournalWeight;
    var t := h.terminals[id];
    var s := BeginSweep(t, b, now, cfg);
    var h' := Step(h, StartBegin(id, b, now), cfg).0;
    SweepOk(t, now, cfg);
    forall p, inBytes ensures ConservedFor(h', p, inBytes) {
      assert ConservedFor(h, p, inBytes);
      SweepConserves(t, now, cfg.ttl, p, inBytes);
      NothingReleased(t, t, Refused(InvalidIngress), p, inBytes);
      SumUpdate(h.terminals, id, s.term, TerminalWeight(p, inBytes));
      DetachedConcat(h.detached, [s.released], p, inBytes);
      DetachedOne(s.released, p, inBytes);
    }
  }

  lemma ApplyDetachedKeepsOk(h: Host, i: nat, cfg: Config)
    requires HostOk(h, cfg) && i < |h.detached|
    ensures HostOk(Step(h, ApplyDetached(i), cfg).0, cfg)
  {
    hide TerminalOk, Entry, DetachedWeight, Sum, ReleasedWeight, JournalWeight, ReleaseQuota;
    var h' := Step(h, ApplyDetached(i), cfg).0;
    forall p, inBytes ensures ConservedFor(h', p, inBytes) {
      assert ConservedFor(h, p, inBytes);
      DetachedWithout(h.detached, i, p, inBytes);
      EntryAfterRelease(h.quotas, h.detached[i], p, inBytes);
    }
    SettleWithin(h, h.detached[i], cfg);
    assert h'.quotas == h.(quotas := ReleaseQuota(h.quotas, h.detached[i])).quotas;
  }

  lemma EndBeginKeepsOk(h: Host, id: Uuid, b: Binding, m: Metadata, now: Time, cfg: Config)
    requires HostOk(h, cfg) && id in h.terminals
    ensures HostOk(EndBeginHost(h, id, b, m, now, cfg).0, cfg)
  {
    hide TerminalOk, ValidMetadata, Conserves, Settle, ChargeQuota, Conserved, WithinLimits;
    var t := h.terminals[id];
    match BeginMain(t, b, m, now, cfg)
    case Fresh(op) => FreshKeepsOk(h, id, b, m, now, cfg);
    case Answered(s) =>
      forall p, inBytes ensures Conserves(t, s, p, inBytes) {
        NothingReleased(t, t, s.response, p, inBytes);
        if Authorized(t, b) && m.operation in t.ingress {
          BeginAgainConserves(t, b, m, p, inBytes);
        }
      }
      if Authorized(t, b) && m.operation in t.ingress {
        BeginAgainOk(t, b, m, cfg);
      }
      SettleOk(h, id, s, cfg);
  }

  lemma EntryAfterCharge(quotas: map<Principal, Quota>, who: Principal, size: nat, cfg: Config, p: Principal,
                         inBytes: bool)
    ensures var (ok, quotas') := ChargeQuota(quotas, who, size, cfg);
            && Units(Entry(quotas', p), inBytes)
               == Units(Entry(quotas, p), inBytes) + (if ok && p == who then (if inBytes then size else 1) else 0)
            && (ok && p == who ==> Entry(quotas', p).ops <= cfg.quotaOps && Entry(quotas', p).bytes <= cfg.quotaBytes)
            && (!(ok && p == who) ==> Entry(quotas', p) == Entry(quotas, p))
  {
  }

  lemma ChargeWithin(h: Host, who: Principal, size: nat, cfg: Config)
    requires WithinLimits(h, cfg)
    ensures forall p :: Entry(ChargeQuota(h.quotas, who, size, cfg).1, p).ops <= cfg.quotaOps
                        && Entry(ChargeQuota(h.quotas, who, size, cfg).1, p).bytes <= cfg.quotaBytes
  {
    hide ChargeQuota, Entry;
    forall p ensures Entry(ChargeQuota(h.quotas, who, size, cfg).1, p).ops <= cfg.quotaOps
             ensures Entry(ChargeQuota(h.quotas, who, size, cfg).1, p).bytes <= cfg.quotaBytes {
      EntryAfterCharge(h.quotas, who, size, cfg, p, false);
    }
  }

  lemma FreshKeepsOk(h: Host, id: Uuid, b: Binding, m: Metadata, now: Time, cfg: Config)
    requires HostOk(h, cfg) && id in h.terminals && BeginMain(h.terminals[id], b, m, now, cfg).Fresh?
    ensures HostOk(EndBeginHost(h, id, b, m, now, cfg).0, cfg)
  {
    hide TerminalOk, ValidMetadata, DetachedWeight, Sum, ChargeQuota, Entry;
    var t := h.terminals[id];
    var op := BeginMain(t, b, m, now, cfg).op;
    var who := op.owner.principal;
    var t' := t.(ingress := t.ingress[m.operation := op]);
    var h' := EndBeginHost(h, id, b, m, now, cfg).0;
    FreshOk(t, b, m, now, cfg);
    ChargeWithin(h, who, m.size, cfg);
    forall p, inBytes ensures ConservedFor(h', p, inBytes) {
      assert ConservedFor(h, p, inBytes);
      EntryAfterCharge(h.quotas, who, m.size, cfg, p, inBytes);
      SumInsert(t.ingress, m.operation, op, OpWeight(p, inBytes));
      SumUpdate(h.terminals, id, t', TerminalWeight(p, inBytes));
    }
  }

  lemma StepKeepsOk(h: Host, a: Action, cfg: Config)
    requires HostOk(h, cfg) && Enabled(h, a, cfg)
    ensures HostOk(Step(h, a, cfg).0, cfg)
  {
    hide TerminalOk, Conserved, WithinLimits, Conserves, Settle, CanPerform, EndBeginHost;
    match a
    case Spawn(id) => SpawnKeepsOk(h, id, cfg);
    case On(id, c) =>
      var t := h.terminals[id];
      PerformOk(t, c, cfg);
      forall p, inBytes ensures Conserves(t, Perform(t, c, cfg), p, inBytes) {
        PerformConserves(t, c, cfg, p, inBytes);
      }
      SettleOk(h, id, Perform(t, c, cfg), cfg);
    case StartBegin(id, b, now) => StartBeginKeepsOk(h, id, b, now, cfg);
    case ApplyDetached(i) => ApplyDetachedKeepsOk(h, i, cfg);
    case EndBegin(id, b, m, now) => EndBeginKeepsOk(h, id, b, m, now, cfg);
  }

  lemma {:induction false} RunKeepsOk(h: Host, actions: seq<Action>, cfg: Config)
    requires HostOk(h, cfg) && Legal(h, actions, cfg)
    ensures HostOk(Run(h, actions, cfg), cfg)
    decreases |actions|
  {
    hide Step, HostOk;
    if actions != [] {
      StepKeepsOk(h, actions[0], cfg);
      RunKeepsOk(Step(h, actions[0], cfg).0, actions[1..], cfg);
    }
  }

  lemma NoTerminalsOk(cfg: Config)
    ensures HostOk(NO_TERMINALS, cfg)
  {
  }

  /** In every state of every run each quota entry is what is outstanding, and within both limits. */
  lemma QuotaConservation(actions: seq<Action>, cfg: Config, p: Principal)
    requires Legal(NO_TERMINALS, actions, cfg)
    ensures var h := Run(NO_TERMINALS, actions, cfg);
            && Entry(h.quotas, p) == Quota(Outstanding(h, p, true), Outstanding(h, p, false))
            && Outstanding(h, p, false) <= cfg.quotaOps && Outstanding(h, p, true) <= cfg.quotaBytes
  {
    hide Run, Legal, Outstanding;
    NoTerminalsOk(cfg);
    RunKeepsOk(NO_TERMINALS, actions, cfg);
    var h := Run(NO_TERMINALS, actions, cfg);
    assert ConservedFor(h, p, true) && ConservedFor(h, p, false);
  }

  // ---- bytes actually held ------------------------------------------------------------------

  function OpBuffered(p: Principal): (f: Operation -> nat) {
    (op: Operation) => if op.owner.principal == p then |op.bytes| else 0
  }

  /** Upload bytes in memory for `p`, over all terminals. */
  ghost function Buffered(h: Host, p: Principal): (n: nat) {
    Sum(h.terminals, (t: Terminal) => Sum(t.ingress, OpBuffered(p)))
  }

  lemma BufferedByTerminal(t: Terminal, p: Principal, cfg: Config)
    requires TerminalOk(t, cfg)
    ensures Sum(t.ingress, OpBuffered(p)) <= JournalWeight(t, p, true)
  {
    hide BindingsOk, CloseOk, ValidMetadata, ValidImage, Sum, Flatten;
    forall k | k in t.ingress ensures OpBuffered(p)(t.ingress[k]) <= OpWeight(p, true)(t.ingress[k]) {
      assert OpOk(t.ingress[k], t.pastes, cfg);
    }
    SumAtMost(t.ingress, OpBuffered(p), OpWeight(p, true));
  }

  /** Whatever clients send, no principal ever has more upload bytes buffered than its byte limit. */
  lemma BufferedWithinLimit(actions: seq<Action>, cfg: Config, p: Principal)
    requires Legal(NO_TERMINALS, actions, cfg)
    ensures Buffered(Run(NO_TERMINALS, actions, cfg), p) <= cfg.quotaBytes
  {
    hide Run, Legal, TerminalOk, DetachedWeight, Sum, Entry;
    NoTerminalsOk(cfg);
    RunKeepsOk(NO_TERMINALS, actions, cfg);
    QuotaConservation(actions, cfg, p);
    var h := Run(NO_TERMINALS, actions, cfg);
    var f := (t: Terminal) => Sum(t.ingress, OpBuffered(p));
    forall id | id in h.terminals ensures f(h.terminals[id]) <= TerminalWeight(p, true)(h.terminals[id]) {
      BufferedByTerminal(h.terminals[id], p, cfg);
    }
    SumAtMost(h.terminals, f, TerminalWeight(p, true));
  }
}
