/**
  All terminals of the host and the quota map they share, as a state machine whose steps are
  the sections the source runs under a lock.
*/
module HostModel {
  import opened Bytes
  import opened Sums
  import opened TerminalModel
  import opened TerminalInvariants

  datatype Quota = Quota(bytes: nat, ops: nat)

  /** `detached`: releases a `begin` has taken from its journal but not yet applied to the quota. */
  datatype Host = Host(
    terminals: map<Uuid, Terminal>,
    quotas: map<Principal, Quota>,
    detached: seq<map<Uuid, Charge>>)

  const NO_TERMINALS := Host(map[], map[], [])

  // ---- the quota map ---------------------------------------------------------------

  function Entry(quotas: map<Principal, Quota>, p: Principal): (q: Quota) {
    if p in quotas then quotas[p] else Quota(0, 0)
  }

  function SatSub(x: nat, y: nat): (r: nat) {
    if x < y then 0 else x - y
  }

  /** A charge within both limits; a refused one still leaves a default entry behind. */
  function ChargeQuota(quotas: map<Principal, Quota>, p: Principal, size: nat, cfg: Config)
    : (r: (bool, map<Principal, Quota>))
  {
    var e := Entry(quotas, p);
    if e.ops >= cfg.quotaOps || e.bytes + size > cfg.quotaBytes then (false, quotas[p := e])
    else (true, quotas[p := Quota(e.bytes + size, e.ops + 1)])
  }

  ghost function Minus(q: Quota, released: map<Uuid, Charge>, p: Principal): (r: Quota) {
    Quota(SatSub(q.bytes, ReleasedWeight(released, p, true)), SatSub(q.ops, ReleasedWeight(released, p, false)))
  }

  /** All releases applied; an entry that a release brings to zero is dropped. */
  ghost function ReleaseQuota(quotas: map<Principal, Quota>, released: map<Uuid, Charge>): (r: map<Principal, Quota>) {
    map p | p in quotas && (ReleasedWeight(released, p, false) == 0 || Minus(quotas[p], released, p) != Quota(0, 0))
      :: Minus(quotas[p], released, p)
  }

  // ---- steps -------------------------------------------------------------------------

  datatype Command =
    | DoOpenBind(owner: Owner, session: Uuid, id: Uuid)
    | DoAttach(owner: Owner, session: Uuid, id: Uuid)
    | DoRelease(b: Binding, now: Time)
    | DoChunk(b: Binding, op: Uuid, offset: nat, bytes: seq<byte>, now: Time)
    | DoStatus(b: Binding, op: Uuid, now: Time)
    | DoFinish(b: Binding, op: Uuid, now: Time, w: World)
    | DoConsume(name: seq<byte>, found: Option<Uuid>, owner: Owner, session: Uuid, now: Time,
        readBack: Option<seq<byte>>)
    | DoSweep(now: Time)
    | DoClientClose
    | DoEof
    | DoPtyBytes(bytes: seq<byte>)
    | DoOverflowClose

  function Perform(t: Terminal, c: Command, cfg: Config): (s: Section) {
    match c
    case DoOpenBind(owner, session, id) => OpenBind(t, owner, session, id)
    case DoAttach(owner, session, id) => Attach(t, owner, session, id)
    case DoRelease(b, now) => ReleaseViewer(t, b, now)
    case DoChunk(b, op, offset, bytes, now) => Chunk(t, b, op, offset, bytes, now, cfg)
    case DoStatus(b, op, now) => Status(t, b, op, now, cfg)
    case DoFinish(b, op, now, w) => Finish(t, b, op, now, w, cfg)
    case DoConsume(_, found, owner, session, now, readBack) => Consume(t, found, owner, session, now, readBack, cfg)
    case DoSweep(now) => Sweep(t, now, cfg.ttl)
    case DoClientClose => Close(t, ClientClose)
    case DoEof => Close(t, ProcessExited)
    case DoPtyBytes(bytes) => PtyBytes(t, bytes, cfg)
    case DoOverflowClose => OverflowClose(t)
  }

  /** Binding ids are fresh; the reader thread makes its overflow close before it reads on. */
  predicate CanPerform(t: Terminal, c: Command, cfg: Config) {
    match c
    case DoOpenBind(_, _, id) => t.opening && id !in Issued(t)
    case DoAttach(_, _, id) => id !in Issued(t)
    case DoConsume(name, found, _, _, now, _) =>
      var kept := Kept(t.ingress, now, cfg.ttl);
      if found.Some? then found.value in kept && kept[found.value].capability == Some(name)
      else forall k :: k in kept ==> kept[k].capability != Some(name)
    case DoEof => !t.overflowing
    case DoPtyBytes(_) => !t.overflowing
    case DoOverflowClose => t.overflowing
    case _ => true
  }

  datatype Action =
    | Spawn(id: Uuid)
    | On(id: Uuid, command: Command)
    | StartBegin(id: Uuid, b: Binding, now: Time)
    | ApplyDetached(i: nat)
    | EndBegin(id: Uuid, b: Binding, m: Metadata, now: Time)

  predicate Enabled(h: Host, a: Action, cfg: Config) {
    match a
    case Spawn(id) => id !in h.terminals
    case On(id, c) => id in h.terminals && CanPerform(h.terminals[id], c, cfg)
    case StartBegin(id, _, _) => id in h.terminals
    case ApplyDetached(i) => i < |h.detached|
    case EndBegin(id, _, _, _) => id in h.terminals
  }

  ghost function Settle(h: Host, id: Uuid, s: Section): (h': Host) {
    h.(terminals := h.terminals[id := s.term], quotas := ReleaseQuota(h.quotas, s.released))
  }

  ghost function EndBeginHost(h: Host, id: Uuid, b: Binding, m: Metadata, now: Time, cfg: Config): (r: (Host, Response))
    requires id in h.terminals
  {
    var t := h.terminals[id];
    match BeginMain(t, b, m, now, cfg)
    case Answered(s) => (Settle(h, id, s), s.response)
    case Fresh(op) =>
      var (ok, quotas) := ChargeQuota(h.quotas, op.owner.principal, m.size, cfg);
      if !ok then (h.(quotas := quotas), Refused(QuotaExceeded))
      else
        var t' := t.(ingress := t.ingress[m.operation := op]);
        (h.(quotas := quotas, terminals := h.terminals[id := t']), ReceiptOf(op))
  }

  ghost function Step(h: Host, a: Action, cfg: Config): (r: (Host, Response))
    requires Enabled(h, a, cfg)
  {
    match a
    case Spawn(id) => (h.(terminals := h.terminals[id := SPAWNED]), Ack)
    case On(id, c) =>
      var s := Perform(h.terminals[id], c, cfg);
      (Settle(h, id, s), s.response)
    case StartBegin(id, b, now) =>
      var s := BeginSweep(h.terminals[id], b, now, cfg);
      (h.(terminals := h.terminals[id := s.term], detached := h.detached + [s.released]), s.response)
    case ApplyDetached(i) =>
      (h.(quotas := ReleaseQuota(h.quotas, h.detached[i]), detached := h.detached[..i] + h.detached[i + 1..]), Ack)
    case EndBegin(id, b, m, now) => EndBeginHost(h, id, b, m, now, cfg)
  }

  /** A run: every action in turn, each of them enabled. */
  ghost predicate Legal(h: Host, actions: seq<Action>, cfg: Config)
    decreases |actions|
  {
    actions == [] || (Enabled(h, actions[0], cfg) && Legal(Step(h, actions[0], cfg).0, actions[1..], cfg))
  }

  ghost function Run(h: Host, actions: seq<Action>, cfg: Config): (h': Host)
    requires Legal(h, actions, cfg)
    decreases |actions|
  {
    if actions == [] then h else Run(Step(h, actions[0], cfg).0, actions[1..], cfg)
  }
}
