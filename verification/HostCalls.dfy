/** What a caller of the host can rely on: begin, attach and release. */
module HostCalls {
  import opened Bytes
  import opened TerminalModel
  import opened TerminalInvariants
  import opened HostModel
  import opened HostInvariants
  import opened HostRuns
  import opened HostAnswers

  lemma ReleaseNothing(quotas: map<Principal, Quota>)
    ensures ReleaseQuota(quotas, map[]) == quotas
  {
  }

  ghost predicate SameEntries(a: map<Principal, Quota>, b: map<Principal, Quota>) {
    forall p :: Entry(b, p) == Entry(a, p)
  }

  /** `size` more for `p` within both limits, or a limit in the way; nothing else either way. */
  ghost predicate Charges(before: map<Principal, Quota>, after: map<Principal, Quota>, p: Principal, size: nat,
                          ok: bool, cfg: Config) {
    && (forall q :: q != p ==> Entry(after, q) == Entry(before, q))
    && (ok <==> Entry(before, p).ops + 1 <= cfg.quotaOps && Entry(before, p).bytes + size <= cfg.quotaBytes)
    && Entry(after, p) ==
       if ok then Quota(Entry(before, p).bytes + size, Entry(before, p).ops + 1) else Entry(before, p)
  }

  lemma ChargeCharges(quotas: map<Principal, Quota>, p: Principal, size: nat, cfg: Config)
    ensures var (ok, after) := ChargeQuota(quotas, p, size, cfg); Charges(quotas, after, p, size, ok, cfg)
  {
  }

  // ---- begin ------------------------------------------------------------------------------

  /**
    A new upload is granted under the caller's live binding, empty and prepared, with its declared
    size charged to the binding's principal within both limits, and is that binding's only prepared
    one. A known operation is never charged again and is answered only for the same declaration.
    A refusal leaves every journal and every entry as they were.
  */
  ghost predicate BeginPromise(h: Host, id: Uuid, b: Binding, m: Metadata, h': Host, r: Response, cfg: Config)
    requires id in h.terminals
  {
    && id in h'.terminals
    && var t, t' := h.terminals[id], h'.terminals[id];
       if r.Receipt? && m.operation !in t.ingress then
         && Authorized(t, b) && r == Receipt(m.operation, Prepared, 0, None)
         && Charges(h.quotas, h'.quotas, t.bindings[b.id].owner.principal, m.size, true, cfg)
         && t'.ingress.Keys == t.ingress.Keys + {m.operation} && |t'.ingress| <= cfg.journalCap
         && t'.ingress[m.operation].metadata == m
         && (forall k ::
               k in t'.ingress && t'.ingress[k].state.Prepared? && t'.ingress[k].binding == b <==> k == m.operation)
       else if r.Receipt? then
         && Authorized(t, b) && t.ingress[m.operation].metadata == m && SameEntries(h.quotas, h'.quotas)
         && t'.ingress.Keys == t.ingress.Keys && t'.ingress[m.operation].binding == b
       else
         r.Refused? && h'.terminals == h.terminals && SameEntries(h.quotas, h'.quotas)
  }

  lemma AnsweredBegin(h: Host, id: Uuid, b: Binding, m: Metadata, now: Time, cfg: Config)
    requires id in h.terminals && BeginMain(h.terminals[id], b, m, now, cfg).Answered?
    ensures var (h', r) := Step(h, EndBegin(id, b, m, now), cfg); BeginPromise(h, id, b, m, h', r, cfg)
  {
    hide ReleaseQuota, ValidMetadata, ChargeQuota;
    ReleaseNothing(h.quotas);
    assert h.terminals[id := h.terminals[id]] == h.terminals;
  }

  lemma FreshBegin(h: Host, id: Uuid, b: Binding, m: Metadata, now: Time, cfg: Config)
    requires id in h.terminals && BeginMain(h.terminals[id], b, m, now, cfg).Fresh?
    ensures var (h', r) := Step(h, EndBegin(id, b, m, now), cfg); BeginPromise(h, id, b, m, h', r, cfg)
  {
    hide ReleaseQuota, ValidMetadata, ChargeQuota, Charges;
    var t := h.terminals[id];
    var op := BeginMain(t, b, m, now, cfg).op;
    ChargeCharges(h.quotas, op.owner.principal, m.size, cfg);
    ChargeRefusedKeeps(h.quotas, op.owner.principal, m.size, cfg);
    JournalGrowsByOne(t.ingress, m.operation, op);
  }

  lemma ChargeRefusedKeeps(quotas: map<Principal, Quota>, p: Principal, size: nat, cfg: Config)
    ensures var (ok, after) := ChargeQuota(quotas, p, size, cfg); !ok ==> SameEntries(quotas, after)
  {
  }

  lemma JournalGrowsByOne(ingress: map<Uuid, Operation>, k: Uuid, op: Operation)
    requires k !in ingress
    ensures |ingress[k := op]| == |ingress| + 1
  {
    assert ingress[k := op].Keys == ingress.Keys + {k};
  }

  lemma BeginKeepsPromise(h: Host, id: Uuid, b: Binding, m: Metadata, now: Time, cfg: Config)
    requires id in h.terminals
    ensures var (h', r) := Step(h, EndBegin(id, b, m, now), cfg); BeginPromise(h, id, b, m, h', r, cfg)
  {
    hide BeginMain, Step, BeginPromise;
    if BeginMain(h.terminals[id], b, m, now, cfg).Answered? {
      AnsweredBegin(h, id, b, m, now, cfg);
    } else {
      FreshBegin(h, id, b, m, now, cfg);
    }
  }

  /** The first half of `begin` sweeps the journal exactly for an authorised caller, and applies no release yet. */
  lemma StartBeginExactly(h: Host, id: Uuid, b: Binding, now: Time, k: Uuid, cfg: Config)
    requires id in h.terminals
    ensures var (h', r) := Step(h, StartBegin(id, b, now), cfg);
            var t := h.terminals[id];
            && id in h'.terminals && h'.quotas == h.quotas && |h'.detached| == |h.detached| + 1
            && var t', waiting := h'.terminals[id], h'.detached[|h.detached|];
               if !Authorized(t, b) then r == Refused(InvalidIngress) && t' == t && waiting == map[]
               else
                 && r == Ack
                 && (k in t'.ingress <==> k in t.ingress && Lasts(t.ingress[k], now, cfg.ttl))
                 && (k in t'.ingress ==> t'.ingress[k] == t.ingress[k])
                 && (k in waiting <==>
                       k in t.ingress && !Lasts(t.ingress[k], now, cfg.ttl) && t.ingress[k].state.Prepared?)
                 && (k in waiting ==> waiting[k] == Charge(t.ingress[k].owner.principal, t.ingress[k].metadata.size))
  {
    SweepExactly(h.terminals[id], now, cfg.ttl, k);
    hide Lasts, Kept, Swept;
  }

  /** A new terminal is open, counts its opener as its one viewer, and has nothing bound, journalled or shown. */
  lemma SpawnStarts(h: Host, id: Uuid, cfg: Config)
    requires id !in h.terminals
    ensures var h' := Step(h, Spawn(id), cfg).0;
            && h'.terminals.Keys == h.terminals.Keys + {id} && h'.quotas == h.quotas
            && (forall k :: k in h.terminals ==> h'.terminals[k] == h.terminals[k])
            && var t := h'.terminals[id];
               && !t.closed && t.opening && t.viewers == 1 && t.bindings == map[] && t.ingress == map[]
               && t.pastes == [] && t.replay == [] && t.events == []
  {
  }

  // ---- attach and release --------------------------------------------------------------------

  /**
    A closed terminal is unknown; otherwise the new binding authorises, was never issued, acts for the
    caller, is newer than every other, and takes nothing from the others.
  */
  ghost predicate AttachPromise(t: Terminal, owner: Owner, session: Uuid, t': Terminal, r: Response) {
    if t.closed then r == Refused(UnknownTerminal) && t' == t
    else
      && r.Bound? && Authorized(t', r.binding) && r.binding.id !in Issued(t)
      && t'.bindings[r.binding.id].owner == owner && t'.bindings[r.binding.id].session == session
      && t'.nextEpoch == r.binding.epoch == t.nextEpoch + 1
      && (forall k :: k in t.bindings ==> k in t'.bindings && t'.bindings[k] == t.bindings[k]
                                          && t.bindings[k].epoch < r.binding.epoch)
      && (forall b :: b != r.binding ==> (Authorized(t', b) <==> Authorized(t, b)))
      && t'.viewers == t.viewers + 1 && t'.lastDetached.None?
      && t'.events == t.events + [Viewers(t'.viewers)] && t'.ingress == t.ingress
  }

  lemma AttachKeepsPromise(h: Host, id: Uuid, owner: Owner, session: Uuid, issued: Uuid, cfg: Config)
    requires id in h.terminals && issued !in Issued(h.terminals[id]) && BindingsOk(h.terminals[id])
    ensures var (h', r) := Step(h, On(id, DoAttach(owner, session, issued)), cfg);
            id in h'.terminals && AttachPromise(h.terminals[id], owner, session, h'.terminals[id], r)
  {
    hide ReleaseQuota, BindingsOk, AttachPromise;
    AttachPromised(h.terminals[id], owner, session, issued);
  }

  lemma AttachPromised(t: Terminal, owner: Owner, session: Uuid, issued: Uuid)
    requires issued !in Issued(t) && BindingsOk(t)
    ensures var s := Attach(t, owner, session, issued); AttachPromise(t, owner, session, s.term, s.response)
  {
  }

  /** The opener gets a binding of its own; it was counted as a viewer from the start. */
  lemma OpenKeepsPromise(h: Host, id: Uuid, owner: Owner, session: Uuid, issued: Uuid, cfg: Config)
    requires id in h.terminals && CanPerform(h.terminals[id], DoOpenBind(owner, session, issued), cfg)
    requires BindingsOk(h.terminals[id])
    ensures var (h', r) := Step(h, On(id, DoOpenBind(owner, session, issued)), cfg);
            && id in h'.terminals && r.Bound? && r.binding.id !in Issued(h.terminals[id])
            && var t, t' := h.terminals[id], h'.terminals[id];
               && (Authorized(t', r.binding) <==> !t.closed) && !t'.opening && t'.viewers == t.viewers
               && r.binding.id in t'.bindings
               && t'.bindings[r.binding.id].owner == owner && t'.bindings[r.binding.id].session == session
               && forall k :: k in t.bindings ==> t.bindings[k].epoch < r.binding.epoch
  {
    hide ReleaseQuota;
  }

  /** The binding never authorises again, however the run goes on. */
  ghost predicate NeverAuthorizes(h: Host, id: Uuid, b: Binding, cfg: Config) {
    forall actions :: Legal(h, actions, cfg) ==>
      id in Run(h, actions, cfg).terminals && !Authorized(Run(h, actions, cfg).terminals[id], b)
  }

  /** A live binding that goes is one viewer less, announced; the last one starts the clock. */
  ghost predicate ReleaseCounts(t: Terminal, b: Binding, now: Time, t': Terminal) {
    if b.id in t.bindings && t.bindings[b.id].epoch == b.epoch then
      && t'.bindings == t.bindings - {b.id} && t'.viewers == t.viewers - 1
      && t'.lastDetached == (if t'.viewers == 0 then Some(now) else None)
      && t'.events == t.events + [Viewers(t'.viewers)] && t'.ingress == t.ingress
    else t' == t
  }

  lemma ReleaseIsCounted(t: Terminal, b: Binding, now: Time)
    requires BindingsOk(t)
    ensures ReleaseCounts(t, b, now, ReleaseViewer(t, b, now).term)
  {
    if b.id in t.bindings {
      assert t.bindings.Keys != {} && |t.bindings| == |t.bindings.Keys|;
    }
  }

  lemma BindingsAreOk(h: Host, id: Uuid, cfg: Config)
    requires HostOk(h, cfg) && id in h.terminals
    ensures BindingsOk(h.terminals[id])
  {
    hide BindingsOk, JournalIn, CloseOk, Conserved, WithinLimits;
    assert TerminalOk(h.terminals[id], cfg);
  }

  lemma ReleaseKeepsPromise(h: Host, id: Uuid, b: Binding, now: Time, cfg: Config)
    requires HostOk(h, cfg) && id in h.terminals
    ensures var h' := Step(h, On(id, DoRelease(b, now)), cfg).0;
            && id in h'.terminals
            && (Authorized(h.terminals[id], b) ==> NeverAuthorizes(h', id, b, cfg))
            && (forall other: Binding :: other.id != b.id ==>
                  (Authorized(h'.terminals[id], other) <==> Authorized(h.terminals[id], other)))
            && ReleaseCounts(h.terminals[id], b, now, h'.terminals[id])
  {
    hide HostOk, ReleaseQuota, NeverAuthorizes, ReleaseCounts, BindingsOk;
    BindingsAreOk(h, id, cfg);
    ReleaseIsCounted(h.terminals[id], b, now);
    var a := On(id, DoRelease(b, now));
    StepKeepsOk(h, a, cfg);
    var h' := Step(h, a, cfg).0;
    if Authorized(h.terminals[id], b) {
      ReleasedNeverAuthorizes(h', id, b, cfg);
    }
  }

  lemma ReleasedNeverAuthorizes(h: Host, id: Uuid, b: Binding, cfg: Config)
    requires HostOk(h, cfg) && id in h.terminals && b.id in h.terminals[id].released
    ensures NeverAuthorizes(h, id, b, cfg)
  {
    hide HostOk, Run, Legal, Authorized;
    forall actions | Legal(h, actions, cfg)
      ensures id in Run(h, actions, cfg).terminals && !Authorized(Run(h, actions, cfg).terminals[id], b)
    {
      ReleasedForGood(h, actions, id, b, cfg);
    }
  }
}
