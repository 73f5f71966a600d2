/** The host object: the shared maps and the methods that work on them, each doing what its step says. */
module TerminalHost {
  import opened Bytes
  import opened Sums
  import opened TerminalModel
  import opened TerminalInvariants
  import opened HostModel
  import opened HostInvariants
  import opened HostRuns
  import opened HostUploads
  import opened HostAnswers
  import opened HostCalls
  import Base32
  import Filter = Osc52Filter

  // ---- the release loop, one charge at a time -------------------------------------------

  /** One release: an absent entry is skipped, one that reaches zero is dropped. */
  function ReleaseOne(quotas: map<Principal, Quota>, c: Charge): (r: map<Principal, Quota>) {
    if c.principal !in quotas then quotas
    else
      var e := Quota(SatSub(quotas[c.principal].bytes, c.size), SatSub(quotas[c.principal].ops, 1));
      if e == Quota(0, 0) then quotas - {c.principal} else quotas[c.principal := e]
  }

  lemma OneMoreWeight(done: map<Uuid, Charge>, k: Uuid, c: Charge, p: Principal, inBytes: bool)
    requires k !in done
    ensures ReleasedWeight(done[k := c], p, inBytes)
            == ReleasedWeight(done, p, inBytes) + (if c.principal == p then (if inBytes then c.size else 1) else 0)
  {
    SumInsert(done, k, c, ChargeWeight(p, inBytes));
  }

  /** The order of releases does not matter: one more is one more subtraction. */
  lemma ReleaseOneMore(quotas: map<Principal, Quota>, done: map<Uuid, Charge>, k: Uuid, c: Charge)
    requires k !in done
    ensures ReleaseQuota(quotas, done[k := c]) == ReleaseOne(ReleaseQuota(quotas, done), c)
  {
    hide ReleasedWeight;
    var before, after := ReleaseQuota(quotas, done), ReleaseQuota(quotas, done[k := c]);
    var one := ReleaseOne(before, c);
    forall p ensures p in after <==> p in one
             ensures p in after ==> after[p] == one[p] {
      OneMoreWeight(done, k, c, p, true);
      OneMoreWeight(done, k, c, p, false);
    }
  }

  lemma RunNothing(h: Host, cfg: Config)
    ensures Legal(h, [], cfg) && Run(h, [], cfg) == h
  {
  }

  lemma {:induction false} RunSnoc(h: Host, actions: seq<Action>, a: Action, cfg: Config)
    requires Legal(h, actions, cfg) && Enabled(Run(h, actions, cfg), a, cfg)
    ensures Legal(h, actions + [a], cfg)
    ensures Run(h, actions + [a], cfg) == Step(Run(h, actions, cfg), a, cfg).0
    decreases |actions|
  {
    hide Step, Enabled;
    var all := actions + [a];
    if actions == [] {
      assert all == [a] && all[1..] == [];
    } else {
      assert all[0] == actions[0] && all[1..] == actions[1..] + [a];
      RunSnoc(Step(h, actions[0], cfg).0, actions[1..], a, cfg);
    }
  }

  /** The host after a chunk of output for terminal `id`. */
  ghost function AfterOutput(h: Host, id: Uuid, bytes: seq<byte>, cfg: Config): (h': Host)
    requires id in h.terminals && !h.terminals[id].overflowing
  {
    var once := Step(h, On(id, DoPtyBytes(bytes)), cfg).0;
    if once.terminals[id].overflowing then Step(once, On(id, DoOverflowClose), cfg).0 else once
  }

  lemma OutputKeepsOk(h: Host, id: Uuid, bytes: seq<byte>, cfg: Config)
    requires HostOk(h, cfg) && id in h.terminals && !h.terminals[id].overflowing
    ensures HostOk(AfterOutput(h, id, bytes, cfg), cfg)
    ensures var h' := AfterOutput(h, id, bytes, cfg); id in h'.terminals && !h'.terminals[id].overflowing
  {
    hide HostOk, ReleaseQuota, Filter.Push;
    var once := Step(h, On(id, DoPtyBytes(bytes)), cfg).0;
    StepKeepsOk(h, On(id, DoPtyBytes(bytes)), cfg);
    if once.terminals[id].overflowing {
      StepKeepsOk(once, On(id, DoOverflowClose), cfg);
    }
  }

  lemma ClosedShowsNothing(h: Host, id: Uuid, bytes: seq<byte>, cfg: Config)
    requires id in h.terminals && !h.terminals[id].overflowing && h.terminals[id].closed
    ensures AfterOutput(h, id, bytes, cfg) == h
  {
    ReleaseNothing(h.quotas);
    assert h.terminals[id := h.terminals[id]] == h.terminals;
  }

  predicate Seeks(a: Action, name: seq<byte>) {
    a.On? && a.command.DoConsume? && a.command.name == name
  }

  class TerminalHost {
    var terminals: map<Uuid, Terminal>
    var quotas: map<Principal, Quota>
    var detached: seq<map<Uuid, Charge>>
    const cfg: Config

    ghost function State(): (h: Host)
      reads this
    {
      Host(terminals, quotas, detached)
    }

    constructor (cfg: Config)
      ensures State() == NO_TERMINALS && this.cfg == cfg && HostOk(State(), cfg)
    {
      NoTerminalsOk(cfg);
      terminals, quotas, detached := map[], map[], [];
      this.cfg := cfg;
    }

    /** Retains the operations that have not expired and collects the charges of the others. */
    static method SweepIngressLocked(t: Terminal, now: Time, ttl: nat)
      returns (t': Terminal, released: map<Uuid, Charge>)
      ensures Section(t', Ack, released) == Sweep(t, now, ttl)
    {
      var todo := t.ingress.Keys;
      var kept: map<Uuid, Operation> := map[];
      released := map[];
      while todo != {}
        invariant todo <= t.ingress.Keys
        invariant kept == map k | k in t.ingress && k !in todo && !Expired(t.ingress[k], now, ttl) :: t.ingress[k]
        invariant released ==
          map k | k in t.ingress && k !in todo && Expired(t.ingress[k], now, ttl) && t.ingress[k].state.Prepared? ::
            ChargeOf(t.ingress[k])
        decreases todo
      {
        var k :| k in todo;
        var op := t.ingress[k];
        if !Expired(op, now, ttl) {
          kept := kept[k := op];
        } else if op.state.Prepared? {
          released := released[k := ChargeOf(op)];
        }
        todo := todo - {k};
      }
      t' := t.(ingress := kept);
    }

    method ReleasePreparedIngress(released: map<Uuid, Charge>)
      modifies `quotas
      ensures quotas == ReleaseQuota(old(quotas), released)
    {
      hide ReleaseQuota;
      var todo := released.Keys;
      ghost var done: map<Uuid, Charge> := map[];
      ReleaseNothing(quotas);
      while todo != {}
        invariant todo <= released.Keys && done == released - todo
        invariant quotas == ReleaseQuota(old(quotas), done)
        decreases todo
      {
        var k :| k in todo;
        var c := released[k];
        ReleaseOneMore(old(quotas), done, k, c);
        if c.principal in quotas {
          var e := quotas[c.principal];
          e := Quota(SatSub(e.bytes, c.size), SatSub(e.ops, 1));
          if e == Quota(0, 0) {
            quotas := quotas - {c.principal};
          } else {
            quotas := quotas[c.principal := e];
          }
        }
        todo := todo - {k};
        done := done[k := c];
        assert done == released - todo;
      }
      assert done == released;
    }

    method ChargePreparedIngress(p: Principal, size: nat) returns (ok: bool)
      modifies `quotas
      ensures Charges(old(quotas), quotas, p, size, ok, cfg)
      ensures (ok, quotas) == ChargeQuota(old(quotas), p, size, cfg)
    {
      ChargeCharges(quotas, p, size, cfg);
      hide Charges;
      var e := if p in quotas then quotas[p] else Quota(0, 0);
      quotas := quotas[p := e];
      if e.ops >= cfg.quotaOps || e.bytes + size > cfg.quotaBytes {
        return false;
      }
      quotas := quotas[p := Quota(e.bytes + size, e.ops + 1)];
      assert quotas == old(quotas)[p := Quota(e.bytes + size, e.ops + 1)];
      return true;
    }

    /** First half of `begin`; its releases wait in `detached` until the lock is dropped. */
    method IngressBeginSweep(id: Uuid, b: Binding, now: Time) returns (r: Response)
      requires id in terminals
      requires HostOk(State(), cfg)
      modifies this
      ensures (State(), r) == Step(old(State()), StartBegin(id, b, now), cfg)
      ensures HostOk(State(), cfg)
    {
      hide HostOk;
      StepKeepsOk(State(), StartBegin(id, b, now), cfg);
      var t := terminals[id];
      if !Authorized(t, b) {
        detached := detached + [map[]];
        assert terminals[id := t] == terminals;
        return Refused(InvalidIngress);
      }
      var t', released := SweepIngressLocked(t, now, cfg.ttl);
      terminals := terminals[id := t'];
      detached := detached + [released];
      r := Ack;
    }

    method ApplyDetached(i: nat)
      requires i < |detached|
      requires HostOk(State(), cfg)
      modifies this
      ensures State() == Step(old(State()), HostModel.ApplyDetached(i), cfg).0
      ensures HostOk(State(), cfg)
    {
      hide HostOk;
      StepKeepsOk(State(), HostModel.ApplyDetached(i), cfg);
      hide ReleaseQuota;
      ReleasePreparedIngress(detached[i]);
      detached := detached[..i] + detached[i + 1..];
    }

    /** Second half of `begin`. */
    method IngressBegin(id: Uuid, b: Binding, m: Metadata, now: Time) returns (r: Response)
      requires id in terminals
      requires HostOk(State(), cfg)
      modifies this
      ensures (State(), r) == Step(old(State()), EndBegin(id, b, m, now), cfg)
      ensures HostOk(State(), cfg)
      ensures BeginPromise(old(State()), id, b, m, State(), r, cfg)
    {
      hide HostOk, BeginPromise;
      StepKeepsOk(State(), EndBegin(id, b, m, now), cfg);
      BeginKeepsPromise(State(), id, b, m, now, cfg);
      hide ReleaseQuota, ValidMetadata, ChargeQuota;
      var t := terminals[id];
      assert terminals[id := t] == terminals;
      ReleaseNothing(quotas);
      if !Authorized(t, b) || !ValidMetadata(m, cfg) {
        return Refused(InvalidIngress);
      }
      if m.operation in t.ingress {
        var op := t.ingress[m.operation];
        if op.binding != b && op.binding.id in t.bindings {
          return Refused(InvalidIngress);
        }
        if op.metadata != m {
          return Refused(IngressConflict);
        }
        if op.binding != b {
          var record := t.bindings[b.id];
          if record.owner.principal != op.owner.principal || record.owner.client != op.owner.client
             || record.session != op.session || record.owner.epoch <= op.owner.epoch {
            return Refused(InvalidIngress);
          }
          op := op.(binding := b, owner := record.owner);
          terminals := terminals[id := t.(ingress := t.ingress[m.operation := op])];
        }
        return ReceiptOf(op);
      }
      if |t.ingress| >= cfg.journalCap
         || exists k :: k in t.ingress && t.ingress[k].state.Prepared? && t.ingress[k].binding == b {
        return Refused(InvalidIngress);
      }
      var record := t.bindings[b.id];
      var op := Operation(m, b, record.owner, record.session, Prepared, [], [], None, now, None, None, None);
      var ok := ChargePreparedIngress(record.owner.principal, m.size);
      if !ok {
        return Refused(QuotaExceeded);
      }
      terminals := terminals[id := t.(ingress := t.ingress[m.operation := op])];
      return ReceiptOf(op);
    }

    method IngressChunk(id: Uuid, b: Binding, operation: Uuid, offset: nat, bytes: seq<byte>, now: Time)
      returns (r: Response)
      requires id in terminals
      requires HostOk(State(), cfg)
      modifies this
      ensures (State(), r) == Step(old(State()), On(id, DoChunk(b, operation, offset, bytes, now)), cfg)
      ensures HostOk(State(), cfg)
    {
      hide HostOk;
      StepKeepsOk(State(), On(id, DoChunk(b, operation, offset, bytes, now)), cfg);
      hide ReleaseQuota, Kept, Swept;
      var t := terminals[id];
      if bytes == [] || |bytes| > cfg.maxChunk || !Authorized(t, b) {
        assert terminals[id := t] == terminals;
        ReleaseNothing(quotas);
        return Refused(InvalidIngress);
      }
      var released;
      t, released := SweepIngressLocked(t, now, cfg.ttl);
      ReleasePreparedIngress(released);
      terminals := terminals[id := t];
      if operation !in t.ingress {
        return Refused(InvalidIngress);
      }
      var op := t.ingress[operation];
      if op.binding != b || op.state != Prepared || offset != |op.bytes| || offset + |bytes| > op.metadata.size {
        return Refused(InvalidIngress);
      }
      op := op.(bytes := op.bytes + bytes, accepted := op.accepted + [bytes]);
      t := t.(ingress := t.ingress[operation := op]);
      terminals := terminals[id := t];
      assert terminals == old(terminals)[id := t];
      return ReceiptOf(op);
    }

    method IngressStatus(id: Uuid, b: Binding, operation: Uuid, now: Time) returns (r: Response)
      requires id in terminals
      requires HostOk(State(), cfg)
      modifies this
      ensures (State(), r) == Step(old(State()), On(id, DoStatus(b, operation, now)), cfg)
      ensures HostOk(State(), cfg)
    {
      hide HostOk;
      StepKeepsOk(State(), On(id, DoStatus(b, operation, now)), cfg);
      hide ReleaseQuota, Kept, Swept;
      var t := terminals[id];
      if !Authorized(t, b) {
        assert terminals[id := t] == terminals;
        ReleaseNothing(quotas);
        return Refused(InvalidIngress);
      }
      var released;
      t, released := SweepIngressLocked(t, now, cfg.ttl);
      ReleasePreparedIngress(released);
      terminals := terminals[id := t];
      if operation !in t.ingress || t.ingress[operation].binding != b {
        return Refused(InvalidIngress);
      }
      return ReceiptOf(t.ingress[operation]);
    }

    method IngressFinish(id: Uuid, b: Binding, operation: Uuid, now: Time, w: World) returns (r: Response)
      requires id in terminals
      requires HostOk(State(), cfg)
      modifies this
      ensures (State(), r) == Step(old(State()), On(id, DoFinish(b, operation, now, w)), cfg)
      ensures HostOk(State(), cfg)
    {
      hide HostOk, Step;
      StepKeepsOk(State(), On(id, DoFinish(b, operation, now, w)), cfg);
      r := FinishLocked(id, b, operation, now, w);
    }

    /** The section of `finish`: sweep, repeated receipt, verification, publication, commit and release. */
    method FinishLocked(id: Uuid, b: Binding, operation: Uuid, now: Time, w: World) returns (r: Response)
      requires id in terminals
      modifies this
      ensures (State(), r) == Step(old(State()), On(id, DoFinish(b, operation, now, w)), cfg)
    {
      hide ReleaseQuota, Kept, Swept, ValidImage, Sweep;
      var t := terminals[id];
      if !Authorized(t, b) {
        assert terminals[id := t] == terminals;
        ReleaseNothing(quotas);
        return Refused(InvalidIngress);
      }
      ghost var start := t;
      var released;
      t, released := SweepIngressLocked(t, now, cfg.ttl);
      ReleasePreparedIngress(released);
      terminals := terminals[id := t];
      if operation !in t.ingress {
        return Refused(InvalidIngress);
      }
      var op := t.ingress[operation];
      if op.binding == b && op.state == Committed {
        return ReceiptOf(op);
      }
      if op.binding != b || |op.bytes| != op.metadata.size || !ValidImage(op.metadata, op.bytes, cfg) {
        return Refused(InvalidIngress);
      }
      if w.readBack.None? || !ValidImage(op.metadata, w.readBack.value, cfg) {
        return Refused(InvalidIngress);
      }
      if !w.queueHasRoom {
        return Refused(Internal);
      }
      SweptIsFresh(start, now, cfg.ttl, operation);
      ReleaseOneMore(old(quotas), released, operation, ChargeOf(op));
      var charge := ChargeOf(op);
      op := op.(state := Committed, sequence := Some(t.inputSequence + 1), committedAt := Some(now),
                capability := Some(w.capability), file := w.readBack, bytes := []);
      t := t.(inputSequence := t.inputSequence + 1, pastes := t.pastes + [w.capability],
              ingress := t.ingress[operation := op]);
      terminals := terminals[id := t];
      assert terminals == old(terminals)[id := t];
      ReleaseSingle(quotas, operation, charge);
      ReleasePreparedIngress(map[operation := charge]);
      return ReceiptOf(op);
    }

    /** `bindingId` is the random binding id the source draws. */
    method AttachTerminal(id: Uuid, owner: Owner, session: Uuid, bindingId: Uuid) returns (r: Response)
      requires id in terminals && bindingId !in Issued(terminals[id])
      requires HostOk(State(), cfg)
      modifies this
      ensures (State(), r) == Step(old(State()), On(id, DoAttach(owner, session, bindingId)), cfg)
      ensures HostOk(State(), cfg)
      ensures id in terminals && AttachPromise(old(terminals)[id], owner, session, terminals[id], r)
    {
      hide HostOk, AttachPromise, BindingsOk;
      BindingsAreOk(State(), id, cfg);
      StepKeepsOk(State(), On(id, DoAttach(owner, session, bindingId)), cfg);
      AttachKeepsPromise(State(), id, owner, session, bindingId, cfg);
      hide ReleaseQuota;
      var t := terminals[id];
      ReleaseNothing(quotas);
      if t.closed {
        assert terminals[id := t] == terminals;
        return Refused(UnknownTerminal);
      }
      t := t.(viewers := t.viewers + 1, lastDetached := None, events := t.events + [Viewers(t.viewers + 1)]);
      var epoch := t.nextEpoch + 1;
      t := t.(nextEpoch := epoch, bindings := t.bindings[bindingId := BindingRecord(epoch, owner, session)]);
      terminals := terminals[id := t];
      return Bound(Binding(bindingId, epoch));
    }

    method ReleaseViewer(id: Uuid, b: Binding, now: Time)
      requires id in terminals
      requires HostOk(State(), cfg)
      modifies this
      ensures State() == Step(old(State()), On(id, DoRelease(b, now)), cfg).0
      ensures HostOk(State(), cfg)
      ensures id in terminals && (Authorized(old(terminals)[id], b) ==> NeverAuthorizes(State(), id, b, cfg))
      ensures forall other: Binding :: other.id != b.id ==>
                (Authorized(terminals[id], other) <==> Authorized(old(terminals)[id], other))
      ensures ReleaseCounts(old(terminals)[id], b, now, terminals[id])
    {
      hide HostOk, NeverAuthorizes, ReleaseCounts;
      StepKeepsOk(State(), On(id, DoRelease(b, now)), cfg);
      ReleaseKeepsPromise(State(), id, b, now, cfg);
      hide ReleaseQuota;
      var t := terminals[id];
      ReleaseNothing(quotas);
      if b.id !in t.bindings || t.bindings[b.id].epoch != b.epoch {
        assert terminals[id := t] == terminals;
        return;
      }
      t := t.(bindings := t.bindings - {b.id}, released := t.released + {b.id},
              viewers := if t.viewers == 0 then 0 else t.viewers - 1);
      if t.viewers == 0 {
        t := t.(lastDetached := Some(now));
      }
      terminals := terminals[id := t.(events := t.events + [Viewers(t.viewers)])];
    }

    /** Everything a close does under the terminal's lock. */
    method CloseGeneration(id: Uuid, trigger: Trigger)
      requires id in terminals
      modifies this
      ensures State() == Settle(old(State()), id, Close(old(terminals)[id], trigger))
    {
      hide ReleaseQuota;
      var t := terminals[id];
      if t.closed {
        assert terminals[id := t] == terminals;
        ReleaseNothing(quotas);
        return;
      }
      t := t.(closed := true, closeTransitions := t.closeTransitions + 1, filter := t.filter.(pending := []));
      if trigger.Osc52Overflow? {
        t := t.(events := t.events + [Violation]);
      }
      t := t.(events := t.events + [Closed(trigger)]);
      var released := PreparedCharges(t.ingress);
      t := t.(ingress := map[]);
      ReleasePreparedIngress(released);
      terminals := terminals[id := t];
      assert old(terminals[id].events) + [] == old(terminals[id].events);
    }

    /** The output step, and the overflow close that follows it when the filter overflowed. */
    method FilterOutput(id: Uuid, bytes: seq<byte>) returns (out: Filter.Output)
      requires id in terminals && !terminals[id].overflowing && !terminals[id].closed
      modifies this
      ensures State() == AfterOutput(old(State()), id, bytes, cfg)
      ensures out == Filter.Push(old(terminals)[id].filter, bytes, cfg.osc52Cap).1
    {
      hide ReleaseQuota, Filter.Push;
      var t := terminals[id];
      ReleaseNothing(quotas);
      var (filter, o) := Filter.Push(t.filter, bytes, cfg.osc52Cap);
      out := o;
      t := t.(filter := filter, overflowing := out.overflow);
      if out.passthrough != [] {
        t := t.(replay := Last(t.replay + out.passthrough, cfg.replayCap));
      }
      terminals := terminals[id := t];
      if out.overflow {
        ghost var once := State();
        assert once == Step(old(State()), On(id, DoPtyBytes(bytes)), cfg).0;
        CloseGeneration(id, Osc52Overflow);
        t := terminals[id];
        terminals := terminals[id := t.(overflowing := false)];
        assert terminals == once.terminals[id := OverflowClose(once.terminals[id]).term];
      }
    }

    /**
      Filters a chunk and keeps its tail for replay. Clipboard texts are sent one by one while the
      terminal is still open: `openFor` of them are before some other thread closes it.
    */
    method HandlePtyBytes(id: Uuid, bytes: seq<byte>, openFor: nat) returns (shown: seq<byte>, sent: seq<seq<byte>>)
      requires id in terminals && !terminals[id].overflowing
      requires HostOk(State(), cfg)
      modifies this
      ensures State() == AfterOutput(old(State()), id, bytes, cfg)
      ensures HostOk(State(), cfg)
      ensures id in terminals && !terminals[id].overflowing
      ensures var was := old(terminals)[id];
              var out := Filter.Push(was.filter, bytes, cfg.osc52Cap).1;
              && shown == (if was.closed then [] else out.passthrough)
              && sent == (if was.closed then [] else if out.overflow || |out.clipboards| <= openFor then out.clipboards
                          else out.clipboards[..openFor])
    {
      hide HostOk, AfterOutput, Filter.Push;
      OutputKeepsOk(State(), id, bytes, cfg);
      if terminals[id].closed {
        ClosedShowsNothing(State(), id, bytes, cfg);
        return [], [];
      }
      var out := FilterOutput(id, bytes);
      if out.overflow {
        return out.passthrough, out.clipboards;
      }
      sent := [];
      while |sent| < |out.clipboards| && |sent| < openFor
        invariant |sent| <= openFor && sent <= out.clipboards
      {
        sent := sent + [out.clipboards[|sent|]];
      }
      return out.passthrough, sent;
    }

    /** The operation of a journal that carries the capability, if any does. */
    static method FindCapability(ingress: map<Uuid, Operation>, name: seq<byte>) returns (found: Option<Uuid>)
      ensures found.Some? ==> found.value in ingress && ingress[found.value].capability == Some(name)
      ensures found.None? ==> forall k :: k in ingress ==> ingress[k].capability != Some(name)
    {
      var todo := ingress.Keys;
      while todo != {}
        invariant todo <= ingress.Keys
        invariant forall k :: k in ingress && k !in todo ==> ingress[k].capability != Some(name)
        decreases todo
      {
        var k :| k in todo;
        if ingress[k].capability == Some(name) {
          return Some(k);
        }
        todo := todo - {k};
      }
      return None;
    }

    /** One terminal's turn in the search for a capability. */
    method ConsumeAt(id: Uuid, name: seq<byte>, owner: Owner, session: Uuid, now: Time, read: Uuid -> Option<seq<byte>>)
      returns (r: Response, ghost c: Command)
      requires id in terminals
      modifies this
      ensures c.DoConsume? && c.name == name && CanPerform(old(terminals)[id], c, cfg)
      ensures (State(), r) == Step(old(State()), On(id, c), cfg)
      ensures c.owner == owner && c.session == session && c.now == now
      ensures c.found.Some? ==> c.readBack == read(c.found.value)
      ensures r.NotHere? || r.Refused? || r.Image?
      ensures terminals == old(terminals)[id := terminals[id]]
    {
      hide ReleaseQuota;
      var t, released := SweepIngressLocked(terminals[id], now, cfg.ttl);
      ReleasePreparedIngress(released);
      terminals := terminals[id := t];
      var found := FindCapability(t.ingress, name);
      if found.None? {
        c := DoConsume(name, None, owner, session, now, None);
        return NotHere, c;
      }
      var op := t.ingress[found.value];
      var readBack := read(found.value);
      c := DoConsume(name, found, owner, session, now, readBack);
      if op.state != Committed || op.owner != owner || op.session != session || now >= op.createdAt + cfg.ttl {
        return Refused(InvalidIngress), c;
      }
      if op.file.None? || readBack != op.file || cfg.sha256(op.file.value) != op.metadata.sha256 {
        return Refused(InvalidIngress), c;
      }
      t := t.(ingress := t.ingress - {found.value});
      terminals := terminals[id := t];
      assert terminals == old(terminals)[id := t];
      return Image(op.file.value), c;
    }

    /** Every terminal in turn until one has the capability: a legal run of consume steps. */
    method ConsumePrivateImage(name: seq<byte>, owner: Owner, session: Uuid, now: Time, read: Uuid -> Option<seq<byte>>)
      returns (r: Response, ghost trace: seq<Action>)
      requires HostOk(State(), cfg)
      modifies this
      ensures Legal(old(State()), trace, cfg) && State() == Run(old(State()), trace, cfg)
      ensures HostOk(State(), cfg)
      ensures forall k :: 0 <= k < |trace| ==> Seeks(trace[k], name)
      ensures !Base32.CapabilitySyntax(name) ==> trace == [] && r == Refused(InvalidIngress)
      ensures r.Refused? || r.Image?
      ensures trace == [] ==> r.Refused?
      ensures Base32.CapabilitySyntax(name) && DistinctNames(old(State())) ==>
                Found(old(State()), name, owner, session, now, read, r, cfg.ttl)
      ensures (forall id, k :: !Carries(old(State()), id, k, name, now, cfg.ttl)) ==> r == Refused(InvalidIngress)
    {
      hide Step, Run, Legal, HostOk, Found, Carries, DistinctNames, CanPerform, Base32.CapabilitySyntax;
      trace := [];
      RunNothing(State(), cfg);
      if !Base32.CapabilitySyntax(name) {
        return Refused(InvalidIngress), trace;
      }
      var todo := terminals.Keys;
      NowhereElse(State(), name, now, cfg.ttl);
      while todo != {}
        invariant todo <= terminals.Keys == old(terminals.Keys) && HostOk(State(), cfg)
        invariant Legal(old(State()), trace, cfg) && State() == Run(old(State()), trace, cfg)
        invariant forall k :: 0 <= k < |trace| ==> Seeks(trace[k], name)
        invariant forall id :: id in todo ==> terminals[id] == old(terminals)[id]
        invariant forall id, k :: id !in todo ==> !Carries(old(State()), id, k, name, now, cfg.ttl)
        decreases todo
      {
        var id :| id in todo;
        ghost var c;
        ghost var before := State();
        r, c := ConsumeAt(id, name, owner, session, now, read);
        RunSnoc(old(State()), trace, On(id, c), cfg);
        StepKeepsOk(before, On(id, c), cfg);
        trace := trace + [On(id, c)];
        StepAnswers(before, id, c, cfg);
        if r != NotHere {
          FoundHere(old(State()), id, c, read, r, cfg);
          return;
        }
        NotFoundHere(old(State()), id, c, cfg);
        todo := todo - {id};
      }
      NothingFound(old(State()), name, owner, session, now, read, cfg.ttl);
      return Refused(InvalidIngress), trace;
    }

    method SweepTerminal(id: Uuid, now: Time)
      requires id in terminals
      requires HostOk(State(), cfg)
      modifies this
      ensures State() == Step(old(State()), On(id, DoSweep(now)), cfg).0
      ensures terminals == old(terminals)[id := terminals[id]] && SameWatch(old(terminals)[id], terminals[id])
      ensures HostOk(State(), cfg)
    {
      hide HostOk;
      StepKeepsOk(State(), On(id, DoSweep(now)), cfg);
      hide ReleaseQuota;
      var t, released := SweepIngressLocked(terminals[id], now, cfg.ttl);
      ReleasePreparedIngress(released);
      terminals := terminals[id := t];
    }

    /** A client's close, as far as this terminal goes. */
    method CloseTerminal(id: Uuid)
      requires id in terminals
      requires HostOk(State(), cfg)
      modifies this
      ensures State() == Step(old(State()), On(id, DoClientClose), cfg).0
      ensures terminals == old(terminals)[id := terminals[id]] && terminals[id].closed
      ensures HostOk(State(), cfg)
    {
      hide HostOk;
      StepKeepsOk(State(), On(id, DoClientClose), cfg);
      hide ReleaseQuota;
      CloseGeneration(id, ClientClose);
    }

    /** Sweeps every journal and finds the terminals that have been unwatched for too long. */
    method SweepAll(now: Time, idleTtl: nat) returns (ids: set<Uuid>, ghost trace: seq<Action>)
      requires HostOk(State(), cfg)
      modifies this
      ensures HostOk(State(), cfg)
      ensures Legal(old(State()), trace, cfg) && State() == Run(old(State()), trace, cfg)
      ensures terminals.Keys == old(terminals.Keys)
      ensures ids == set id | id in old(terminals) && Idle(old(terminals)[id], now, idleTtl)
      ensures forall id :: id in terminals ==> SameWatch(old(terminals)[id], terminals[id])
    {
      hide Run, Legal, Step, Perform, CanPerform, HostOk;
      trace, ids := [], {};
      RunNothing(State(), cfg);
      var todo := terminals.Keys;
      while todo != {}
        invariant todo <= terminals.Keys == old(terminals.Keys) && HostOk(State(), cfg)
        invariant Legal(old(State()), trace, cfg) && State() == Run(old(State()), trace, cfg)
        invariant forall id :: id in terminals ==> SameWatch(old(terminals)[id], terminals[id])
        invariant ids == set id | id in old(terminals) && id !in todo && Idle(old(terminals)[id], now, idleTtl)
        decreases todo
      {
        var id :| id in todo;
        assert CanPerform(terminals[id], DoSweep(now), cfg) by { AlwaysAllowed(terminals[id], now, cfg); }
        RunSnoc(old(State()), trace, On(id, DoSweep(now)), cfg);
        SweepTerminal(id, now);
        trace := trace + [On(id, DoSweep(now))];
        if Idle(terminals[id], now, idleTtl) {
          ids := ids + {id};
        }
        todo := todo - {id};
      }
    }

    /** Closes every terminal that has been unwatched for too long. */
    method SweepIdle(now: Time, idleTtl: nat) returns (ids: set<Uuid>, ghost trace: seq<Action>)
      requires HostOk(State(), cfg)
      modifies this
      ensures HostOk(State(), cfg)
      ensures Legal(old(State()), trace, cfg) && State() == Run(old(State()), trace, cfg)
      ensures terminals.Keys == old(terminals.Keys)
      ensures forall id :: id in ids <==>
                && id in old(terminals) && old(terminals)[id].viewers == 0
                && exists at :: old(terminals)[id].lastDetached == Some(at) && now >= at + idleTtl
      ensures forall id :: id in terminals ==> terminals[id].closed == (id in ids || old(terminals)[id].closed)
    {
      hide Run, Legal, Step, Perform, CanPerform, HostOk;
      ids, trace := SweepAll(now, idleTtl);
      var left := ids;
      while left != {}
        invariant left <= ids && terminals.Keys == old(terminals.Keys) && HostOk(State(), cfg)
        invariant Legal(old(State()), trace, cfg) && State() == Run(old(State()), trace, cfg)
        invariant forall id :: id in terminals ==>
                    terminals[id].closed == ((id in ids && id !in left) || old(terminals)[id].closed)
        decreases left
      {
        var id :| id in left;
        assert CanPerform(terminals[id], DoClientClose, cfg) by { AlwaysAllowed(terminals[id], now, cfg); }
        RunSnoc(old(State()), trace, On(id, DoClientClose), cfg);
        CloseTerminal(id);
        trace := trace + [On(id, DoClientClose)];
        left := left - {id};
      }
    }
  }

  lemma StepAnswers(h: Host, id: Uuid, c: Command, cfg: Config)
    requires id in h.terminals && CanPerform(h.terminals[id], c, cfg)
    ensures Step(h, On(id, c), cfg).1 == Perform(h.terminals[id], c, cfg).response
  {
  }

  lemma NowhereElse(h: Host, name: seq<byte>, now: Time, ttl: nat)
    ensures forall id, k :: id !in h.terminals ==> !Carries(h, id, k, name, now, ttl)
  {
  }

  lemma NothingFound(h: Host, name: seq<byte>, owner: Owner, session: Uuid, now: Time,
                     read: Uuid -> Option<seq<byte>>, ttl: nat)
    requires forall id, k :: !Carries(h, id, k, name, now, ttl)
    ensures Found(h, name, owner, session, now, read, Refused(InvalidIngress), ttl)
  {
  }

  lemma AlwaysAllowed(t: Terminal, now: Time, cfg: Config)
    ensures CanPerform(t, DoSweep(now), cfg) && CanPerform(t, DoClientClose, cfg)
  {
  }

  /** Nothing that the idle rule looks at has changed. */
  predicate SameWatch(t: Terminal, t': Terminal) {
    t'.viewers == t.viewers && t'.lastDetached == t.lastDetached && t'.closed == t.closed
  }

  lemma SweptIsFresh(t: Terminal, now: Time, ttl: nat, k: Uuid)
    requires k in Sweep(t, now, ttl).term.ingress
    ensures k !in Sweep(t, now, ttl).released
    ensures Sweep(t, now, ttl).term.inputSequence == t.inputSequence && Sweep(t, now, ttl).term.pastes == t.pastes
  {
  }

  lemma ReleaseSingle(quotas: map<Principal, Quota>, k: Uuid, c: Charge)
    ensures ReleaseQuota(quotas, map[k := c]) == ReleaseOne(quotas, c)
  {
    hide ReleaseQuota;
    ReleaseNothing(quotas);
    ReleaseOneMore(quotas, map[], k, c);
  }
}
