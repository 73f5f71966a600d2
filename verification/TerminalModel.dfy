/**
  One terminal generation behind its lock: bindings, the ingress journal, the close oracle.
  Each function is one section that the source runs with the terminal's lock held.
*/
module TerminalModel {
  import opened Bytes
  import Filter = Osc52Filter

  type Uuid = nat
  type Time = nat
  type Principal = string

  /** The authenticated context a binding acts for. */
  datatype Owner = Owner(principal: Principal, client: Uuid, epoch: nat)

  datatype Binding = Binding(id: Uuid, epoch: nat)

  datatype BindingRecord = BindingRecord(epoch: nat, owner: Owner, session: Uuid)

  datatype Media = Png | Jpeg | Gif | Webp

  /** `idIsV4`: the operation id is a version 4 UUID. */
  datatype Metadata = Metadata(operation: Uuid, idIsV4: bool, size: nat, media: Media, sha256: string)

  datatype OpState = Prepared | Committed

  /** `accepted` is the history of accepted chunks; `bytes` is dropped on commit, it is not. */
  datatype Operation = Operation(
    metadata: Metadata,
    binding: Binding,
    owner: Owner,
    session: Uuid,
    state: OpState,
    bytes: seq<byte>,
    accepted: seq<seq<byte>>,
    sequence: Option<nat>,
    createdAt: Time,
    committedAt: Option<Time>,
    capability: Option<seq<byte>>,
    file: Option<seq<byte>>)

  datatype Trigger = ClientClose | ProcessExited | Osc52Overflow

  datatype Event = Viewers(count: nat) | Violation | Closed(trigger: Trigger)

  /** A charge against a principal's quota for prepared uploads. */
  datatype Charge = Charge(principal: Principal, size: nat)

  /** `pastes` is the history of paste frames put on the input queue. */
  datatype Terminal = Terminal(
    opening: bool,
    viewers: nat,
    bindings: map<Uuid, BindingRecord>,
    released: set<Uuid>,
    nextEpoch: nat,
    lastDetached: Option<Time>,
    ingress: map<Uuid, Operation>,
    inputSequence: nat,
    pastes: seq<seq<byte>>,
    closed: bool,
    closeTransitions: nat,
    events: seq<Event>,
    filter: Filter.Filter,
    overflowing: bool,
    replay: seq<byte>)

  datatype Config = Config(
    sha256: seq<byte> -> string,
    quotaOps: nat,
    quotaBytes: nat,
    journalCap: nat,
    maxBytes: nat,
    maxChunk: nat,
    ttl: nat,
    osc52Cap: nat,
    replayCap: nat)

  datatype Error = UnknownTerminal | InvalidIngress | IngressConflict | QuotaExceeded | Internal

  datatype Response =
    | Ack
    | Bound(binding: Binding)
    | Receipt(operation: Uuid, state: OpState, nextOffset: nat, sequence: Option<nat>)
    | Image(bytes: seq<byte>)
    | NotHere
    | Refused(error: Error)

  /** A section's effect: the new terminal, the answer, and the charges it gives back. */
  datatype Section = Section(term: Terminal, response: Response, released: map<Uuid, Charge>)

  function Refuse(t: Terminal, e: Error): (r: Section) {
    Section(t, Refused(e), map[])
  }

  // ---- bindings ---------------------------------------------------------------

  predicate Authorized(t: Terminal, b: Binding) {
    !t.closed && b.id in t.bindings && t.bindings[b.id].epoch == b.epoch
  }

  /** Every binding id this terminal ever handed out. */
  function Issued(t: Terminal): (ids: set<Uuid>) {
    t.bindings.Keys + t.released
  }

  const SPAWNED := Terminal(
    true, 1, map[], {}, 0, None, map[], 0, [], false, 0, [], Filter.FRESH, false, [])

  function Issue(t: Terminal, owner: Owner, session: Uuid, id: Uuid): (r: Section) {
    var epoch := t.nextEpoch + 1;
    Section(t.(nextEpoch := epoch, bindings := t.bindings[id := BindingRecord(epoch, owner, session)]),
            Bound(Binding(id, epoch)), map[])
  }

  /** The opener's own binding, issued once the terminal runs. */
  function OpenBind(t: Terminal, owner: Owner, session: Uuid, id: Uuid): (r: Section) {
    Issue(t.(opening := false), owner, session, id)
  }

  function Attach(t: Terminal, owner: Owner, session: Uuid, id: Uuid): (r: Section) {
    if t.closed then Refuse(t, UnknownTerminal)
    else
      var viewers := t.viewers + 1;
      Issue(t.(viewers := viewers, lastDetached := None, events := t.events + [Viewers(viewers)]), owner, session, id)
  }

  function ReleaseViewer(t: Terminal, b: Binding, now: Time): (r: Section) {
    if b.id !in t.bindings || t.bindings[b.id].epoch != b.epoch then Section(t, Ack, map[])
    else
      var viewers := if t.viewers == 0 then 0 else t.viewers - 1;
      Section(t.(bindings := t.bindings - {b.id},
                 released := t.released + {b.id},
                 viewers := viewers,
                 lastDetached := if viewers == 0 then Some(now) else t.lastDetached,
                 events := t.events + [Viewers(viewers)]),
              Ack, map[])
  }

  // ---- the ingress journal ------------------------------------------------------

  predicate Expired(op: Operation, now: Time, ttl: nat) {
    now >= (if op.committedAt.Some? then op.committedAt.value else op.createdAt) + ttl
  }

  function ChargeOf(op: Operation): (c: Charge) {
    Charge(op.owner.principal, op.metadata.size)
  }

  /** What a sweep leaves in the journal. */
  function Kept(ingress: map<Uuid, Operation>, now: Time, ttl: nat): (r: map<Uuid, Operation>) {
    map k | k in ingress && !Expired(ingress[k], now, ttl) :: ingress[k]
  }

  /** The charges a sweep gives back: those of expired prepared operations. */
  function Swept(ingress: map<Uuid, Operation>, now: Time, ttl: nat): (r: map<Uuid, Charge>) {
    map k | k in ingress && Expired(ingress[k], now, ttl) && ingress[k].state.Prepared? :: ChargeOf(ingress[k])
  }

  function PreparedCharges(ingress: map<Uuid, Operation>): (r: map<Uuid, Charge>) {
    map k | k in ingress && ingress[k].state.Prepared? :: ChargeOf(ingress[k])
  }

  function Sweep(t: Terminal, now: Time, ttl: nat): (r: Section) {
    Section(t.(ingress := Kept(t.ingress, now, ttl)), Ack, Swept(t.ingress, now, ttl))
  }

  function ReceiptOf(op: Operation): (r: Response) {
    Receipt(op.metadata.operation, op.state,
            if op.state.Committed? then op.metadata.size else |op.bytes|,
            op.sequence)
  }

  predicate IsHexDigit(c: char) {
    '0' <= c <= '9' || 'a' <= c <= 'f'
  }

  predicate ValidMetadata(m: Metadata, cfg: Config) {
    && m.idIsV4 && 1 <= m.size <= cfg.maxBytes
    && |m.sha256| == 64 && forall k :: 0 <= k < 64 ==> IsHexDigit(m.sha256[k])
  }

  predicate StartsWith(s: seq<byte>, p: seq<byte>) {
    |p| <= |s| && s[..|p|] == p
  }

  predicate Magic(media: Media, s: seq<byte>) {
    match media
    case Png => StartsWith(s, [0x89, 0x50, 0x4e, 0x47, 0x0d, 0x0a, 0x1a, 0x0a])
    case Jpeg => StartsWith(s, [0xff, 0xd8, 0xff])
    case Gif => StartsWith(s, [0x47, 0x49, 0x46, 0x38, 0x37, 0x61])
        || StartsWith(s, [0x47, 0x49, 0x46, 0x38, 0x39, 0x61])
    case Webp => |s| >= 12 && s[..4] == [0x52, 0x49, 0x46, 0x46] && s[8..12] == [0x57, 0x45, 0x42, 0x50]
  }

  predicate ValidImage(m: Metadata, s: seq<byte>, cfg: Config) {
    |s| == m.size && cfg.sha256(s) == m.sha256 && Magic(m.media, s)
  }

  /** First section of `begin`: a sweep whose releases are applied after the lock is dropped. */
  function BeginSweep(t: Terminal, b: Binding, now: Time, cfg: Config): (r: Section) {
    if !Authorized(t, b) then Refuse(t, InvalidIngress) else Sweep(t, now, cfg.ttl)
  }

  /** Second section of `begin`: answered from the journal, or a new operation that must be charged. */
  datatype Begin = Answered(section: Section) | Fresh(op: Operation)

  function BeginMain(t: Terminal, b: Binding, m: Metadata, now: Time, cfg: Config): (r: Begin) {
    if !Authorized(t, b) || !ValidMetadata(m, cfg) then Answered(Refuse(t, InvalidIngress))
    else if m.operation in t.ingress then Answered(BeginAgain(t, b, m))
    else if |t.ingress| >= cfg.journalCap
            || exists k :: k in t.ingress && t.ingress[k].state.Prepared? && t.ingress[k].binding == b then
      Answered(Refuse(t, InvalidIngress))
    else
      var record := t.bindings[b.id];
      Fresh(Operation(m, b, record.owner, record.session, Prepared, [], [], None, now, None, None, None))
  }

  /** A repeated `begin`: the same receipt, after a hand-over when the binding is a newer one. */
  function BeginAgain(t: Terminal, b: Binding, m: Metadata): (r: Section)
    requires Authorized(t, b) && m.operation in t.ingress
  {
    var op := t.ingress[m.operation];
    var record := t.bindings[b.id];
    if op.binding != b && op.binding.id in t.bindings then Refuse(t, InvalidIngress)
    else if op.metadata != m then Refuse(t, IngressConflict)
    else if op.binding == b then Section(t, ReceiptOf(op), map[])
    else if record.owner.principal != op.owner.principal
            || record.owner.client != op.owner.client
            || record.session != op.session
            || record.owner.epoch <= op.owner.epoch then Refuse(t, InvalidIngress)
    else
      var op' := op.(binding := b, owner := record.owner);
      Section(t.(ingress := t.ingress[m.operation := op']), ReceiptOf(op'), map[])
  }

  function Chunk(t: Terminal, b: Binding, id: Uuid, offset: nat, bytes: seq<byte>, now: Time,
                 cfg: Config): (r: Section) {
    if bytes == [] || |bytes| > cfg.maxChunk || !Authorized(t, b) then Refuse(t, InvalidIngress)
    else
      var swept := Sweep(t, now, cfg.ttl);
      if id !in swept.term.ingress then swept.(response := Refused(InvalidIngress))
      else
        var op := swept.term.ingress[id];
        if op.binding != b || !op.state.Prepared? || offset != |op.bytes| || offset + |bytes| > op.metadata.size then
          swept.(response := Refused(InvalidIngress))
        else
          var op' := op.(bytes := op.bytes + bytes, accepted := op.accepted + [bytes]);
          swept.(term := swept.term.(ingress := swept.term.ingress[id := op']), response := ReceiptOf(op'))
  }

  function Status(t: Terminal, b: Binding, id: Uuid, now: Time, cfg: Config): (r: Section) {
    if !Authorized(t, b) then Refuse(t, InvalidIngress)
    else
      var swept := Sweep(t, now, cfg.ttl);
      if id !in swept.term.ingress || swept.term.ingress[id].binding != b then
        swept.(response := Refused(InvalidIngress))
      else swept.(response := ReceiptOf(swept.term.ingress[id]))
  }

  /** What the outside world does during a `finish`: the file as read back after publishing it
      (none when a file operation failed), whether the input queue has room, the random name. */
  datatype World = World(readBack: Option<seq<byte>>, queueHasRoom: bool, capability: seq<byte>)

  predicate CanCommit(op: Operation, b: Binding, w: World, cfg: Config) {
    && op.binding == b && op.state.Prepared?
    && |op.bytes| == op.metadata.size && ValidImage(op.metadata, op.bytes, cfg)
    && w.readBack.Some? && ValidImage(op.metadata, w.readBack.value, cfg)
    && w.queueHasRoom
  }

  function Commit(op: Operation, sequence: nat, now: Time, w: World): (r: Operation)
    requires w.readBack.Some?
  {
    op.(state := Committed, sequence := Some(sequence), committedAt := Some(now),
        capability := Some(w.capability), file := w.readBack, bytes := [])
  }

  function Finish(t: Terminal, b: Binding, id: Uuid, now: Time, w: World, cfg: Config): (r: Section) {
    if !Authorized(t, b) then Refuse(t, InvalidIngress)
    else
      var swept := Sweep(t, now, cfg.ttl);
      if id !in swept.term.ingress then swept.(response := Refused(InvalidIngress))
      else
        var op := swept.term.ingress[id];
        if op.binding == b && op.state.Committed? then swept.(response := ReceiptOf(op))
        else if op.binding != b || |op.bytes| != op.metadata.size || !ValidImage(op.metadata, op.bytes, cfg) then
          swept.(response := Refused(InvalidIngress))
        else if w.readBack.None? || !ValidImage(op.metadata, w.readBack.value, cfg) then
          swept.(response := Refused(InvalidIngress))
        else if !w.queueHasRoom then swept.(response := Refused(Internal))
        else
          var op' := Commit(op, t.inputSequence + 1, now, w);
          Section(swept.term.(inputSequence := t.inputSequence + 1,
                              pastes := t.pastes + [w.capability],
                              ingress := swept.term.ingress[id := op']),
                  ReceiptOf(op'),
                  swept.released[id := ChargeOf(op)])
  }

  /** Looking for a capability in one terminal: `found` is the operation that carries it, if any does. */
  function Consume(t: Terminal, found: Option<Uuid>, owner: Owner, session: Uuid, now: Time,
                   readBack: Option<seq<byte>>, cfg: Config): (r: Section)
  {
    var swept := Sweep(t, now, cfg.ttl);
    if found.None? || found.value !in swept.term.ingress then swept.(response := NotHere)
    else
      var op := swept.term.ingress[found.value];
      if !op.state.Committed? || op.owner != owner || op.session != session || now >= op.createdAt + cfg.ttl
         || op.file.None? || readBack != op.file || cfg.sha256(op.file.value) != op.metadata.sha256 then
        swept.(response := Refused(InvalidIngress))
      else swept.(term := swept.term.(ingress := swept.term.ingress - {found.value}), response := Image(op.file.value))
  }

  // ---- output and close ----------------------------------------------------------

  /** PTY output, up to the point where the lock is dropped; an overflow leaves a close to be made. */
  function PtyBytes(t: Terminal, bytes: seq<byte>, cfg: Config): (r: Section) {
    if t.closed then Section(t, Ack, map[])
    else
      var (filter, out) := Filter.Push(t.filter, bytes, cfg.osc52Cap);
      Section(t.(filter := filter,
                 replay := if out.passthrough == [] then t.replay else Last(t.replay + out.passthrough, cfg.replayCap),
                 overflowing := out.overflow),
              Ack, map[])
  }

  /** The close oracle: only the first caller does anything. */
  function Close(t: Terminal, trigger: Trigger): (r: Section) {
    if t.closed then Section(t, Ack, map[])
    else
      Section(t.(closed := true,
                 closeTransitions := t.closeTransitions + 1,
                 filter := t.filter.(pending := []),
                 ingress := map[],
                 events := t.events + (if trigger.Osc52Overflow? then [Violation] else []) + [Closed(trigger)]),
              Ack, PreparedCharges(t.ingress))
  }

  /** The reader thread's close after an overflow; it reads on afterwards. */
  function OverflowClose(t: Terminal): (r: Section) {
    var closed := Close(t, Osc52Overflow);
    closed.(term := closed.term.(overflowing := false))
  }

  function Idle(t: Terminal, now: Time, idleTtl: nat): (r: bool) {
    t.viewers == 0 && t.lastDetached.Some? && now >= t.lastDetached.value + idleTtl
  }
}
