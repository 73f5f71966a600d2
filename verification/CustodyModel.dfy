/**
  Native identity custody: the keystore and the durable store as one disk, and every operation
  as the list of disk actions it takes when nothing interrupts it. A process death, a transient
  failure or a thrown error stops an operation after some prefix of its list.
*/
module CustodyModel {
  import opened Bytes

  type Handle = seq<byte>

  datatype Level = StrongBox | Tee | Software | SecureEnclave | Keychain | UnknownLevel

  datatype Report = Report(custodyClass: int, presenceMode: int, level: Level, profile: string)

  datatype Evidence = Evidence(kind: int, subjectId: Handle, generation: nat, custodyClass: int, presenceMode: int)

  datatype Record = Record(
    handle: Handle, kind: int, publicKey: seq<byte>, report: Report, generation: nat, evidence: Evidence)

  datatype Marker = Marker(handle: Handle, generation: nat, supersedes: Option<Handle>)

  datatype Key = Key(publicKey: seq<byte>, report: Report)

  datatype Policy = Policy(minClass: int, allowPresence: bool)

  /** What a provider is configured with. */
  datatype Settings = Settings(profile: string, requirePresence: bool)

  datatype Code = PolicyDenied | NotFound | Corrupted | PresenceUnavailable | ProviderUnavailable

  /** What `generate` admitted at the root of a lineage. */
  datatype Admission = Admission(root: Handle, kind: int, report: Report, policy: Policy, settings: Settings)

  /** The durable state; `issued`, `owner` and `admitted` are history and are read by no operation. */
  datatype Disk = Disk(
    keys: map<Handle, Key>,
    records: map<Handle, Record>,
    pending: map<Handle, Marker>,
    highWater: nat,
    issued: seq<nat>,
    owner: map<nat, Handle>,
    admitted: map<Handle, Admission>)

  const BLANK := Disk(map[], map[], map[], 0, [], map[], map[])

  const ORIGIN_PROTECTED := 1
  const OS_PROTECTED := 2
  const HARDWARE := 3
  const UNATTENDED := 1
  const PRESENCE_REQUIRED := 4

  // ---- validation ----------------------------------------------------------------

  function ExpectedClass(level: Level): (c: Option<int>) {
    match level
    case SecureEnclave => Some(HARDWARE)
    case StrongBox => Some(HARDWARE)
    case Keychain => Some(OS_PROTECTED)
    case Tee => Some(OS_PROTECTED)
    case Software => Some(OS_PROTECTED)
    case UnknownLevel => None
  }

  function ReportError(r: Report): (e: Option<Code>) {
    if !(ORIGIN_PROTECTED <= r.custodyClass <= HARDWARE) then Some(Corrupted)
    else if !(UNATTENDED <= r.presenceMode <= PRESENCE_REQUIRED) then Some(Corrupted)
    else if ExpectedClass(r.level) != Some(r.custodyClass) then Some(Corrupted)
    else None
  }

  function PolicyError(r: Report, policy: Policy, s: Settings): (e: Option<Code>) {
    if ReportError(r).Some? then ReportError(r)
    else if r.profile != s.profile then Some(PolicyDenied)
    else if r.presenceMode == PRESENCE_REQUIRED && !policy.allowPresence then Some(PresenceUnavailable)
    else if s.requirePresence && r.presenceMode != PRESENCE_REQUIRED then Some(PolicyDenied)
    else if r.custodyClass < policy.minClass then Some(PolicyDenied)
    else None
  }

  function MatchError(live: Report, recorded: Report, s: Settings): (e: Option<Code>) {
    if ReportError(live).Some? then ReportError(live)
    else if live.profile != recorded.profile || live.profile != s.profile then Some(PolicyDenied)
    else if live.level != recorded.level || live.custodyClass != recorded.custodyClass
            || live.presenceMode != recorded.presenceMode then Some(Corrupted)
    else None
  }

  predicate EvidenceMatches(rec: Record) {
    && rec.evidence.kind == rec.kind && rec.evidence.generation == rec.generation
    && rec.evidence.custodyClass == rec.report.custodyClass && rec.evidence.presenceMode == rec.report.presenceMode
    && rec.evidence.subjectId == rec.handle
  }

  /** The load funnel: what is wrong with the record of a handle, as seen by a provider. */
  function LoadError(records: map<Handle, Record>, h: Handle, s: Settings): (e: Option<Code>)
    ensures e.None? ==> h in records
  {
    if h !in records then Some(NotFound)
    else
      var rec := records[h];
      if ReportError(rec.report).Some? then ReportError(rec.report)
      else if rec.report.profile != s.profile then Some(PolicyDenied)
      else if !EvidenceMatches(rec) then Some(Corrupted)
      else None
  }

  predicate ValidPolicy(policy: Policy) {
    ORIGIN_PROTECTED <= policy.minClass <= HARDWARE
  }

  function RecordOf(h: Handle, kind: int, key: Key, generation: nat): (rec: Record)
    ensures EvidenceMatches(rec) && rec.handle == h
  {
    Record(h, kind, key.publicKey, key.report, generation,
           Evidence(kind, h, generation, key.report.custodyClass, key.report.presenceMode))
  }

  /** A report that can be true: hardware for the levels that are, the operating system for the others. */
  predicate Consistent(r: Report) {
    && UNATTENDED <= r.presenceMode <= PRESENCE_REQUIRED
    && match r.custodyClass
       case 3 => r.level == SecureEnclave || r.level == StrongBox
       case 2 => r.level == Keychain || r.level == Tee || r.level == Software
       case _ => false
  }

  /** What `generate` admits, and how it refuses the rest. */
  lemma PolicyExactly(r: Report, policy: Policy, s: Settings)
    ensures var e := PolicyError(r, policy, s);
            var present := r.presenceMode == PRESENCE_REQUIRED;
            && (e.None? <==> && Consistent(r) && r.profile == s.profile && policy.minClass <= r.custodyClass
                             && (present ==> policy.allowPresence) && (s.requirePresence ==> present))
            && (e == Some(Corrupted) <==> !Consistent(r))
            && (e == Some(PresenceUnavailable) <==>
                  Consistent(r) && r.profile == s.profile && present && !policy.allowPresence)
            && (e.None? || e.value in {Corrupted, PresenceUnavailable, PolicyDenied})
  {
  }

  /** A live report stands for a recorded one only if it is the same, and is of the provider's profile. */
  lemma MatchExactly(live: Report, recorded: Report, s: Settings)
    ensures var e := MatchError(live, recorded, s);
            && (e.None? <==> live == recorded && Consistent(live) && live.profile == s.profile)
            && (e.None? || e.value in {Corrupted, PolicyDenied})
            && (e == Some(PolicyDenied) <==>
                  Consistent(live) && (live.profile != recorded.profile || live.profile != s.profile))
  {
  }

  // ---- the disk ---------------------------------------------------------------------

  datatype Action =
    | Reserve
    | Mark(m: Marker)
    | Create(h: Handle, key: Key)
    | SaveFirst(rec: Record, policy: Policy, settings: Settings)
    | SaveNext(rec: Record, prior: Handle)
    | Destroy(h: Handle)
    | Delete(h: Handle)
    | Clear(h: Handle)

  function Apply(d: Disk, a: Action): (d': Disk) {
    match a
    case Reserve => d.(highWater := d.highWater + 1, issued := d.issued + [d.highWater + 1])
    case Mark(m) => d.(pending := d.pending[m.handle := m], owner := d.owner[m.generation := m.handle])
    case Create(h, key) => d.(keys := d.keys[h := key])
    case SaveFirst(rec, policy, settings) =>
      d.(records := d.records[rec.handle := rec],
         admitted := d.admitted[rec.handle := Admission(rec.handle, rec.kind, rec.report, policy, settings)])
    case SaveNext(rec, prior) =>
      d.(records := d.records[rec.handle := rec],
         admitted := if prior in d.admitted then d.admitted[rec.handle := d.admitted[prior]] else d.admitted)
    case Destroy(h) => d.(keys := d.keys - {h})
    case Delete(h) => d.(records := d.records - {h})
    case Clear(h) => d.(pending := d.pending - {h})
  }

  function Run(d: Disk, actions: seq<Action>): (d': Disk)
    decreases |actions|
  {
    if actions == [] then d else Run(Apply(d, actions[0]), actions[1..])
  }

  // ---- the operations ---------------------------------------------------------------

  /** How `reconcile` settles one marker: an orphan, a finished rotation, or a finished `generate`. */
  function MarkerPlan(d: Disk, m: Marker): (p: seq<Action>) {
    if m.handle !in d.records then [Destroy(m.handle), Clear(m.handle)]
    else if m.supersedes.Some? then [Destroy(m.supersedes.value), Delete(m.supersedes.value), Clear(m.handle)]
    else [Clear(m.handle)]
  }

  function ReconcilePlan(d: Disk, ms: seq<Marker>): (p: seq<Action>)
    decreases |ms|
  {
    if ms == [] then []
    else
      var p := MarkerPlan(d, ms[0]);
      p + ReconcilePlan(Run(d, p), ms[1..])
  }

  function GeneratePlan(d: Disk, s: Settings, kind: int, policy: Policy, h: Handle, key: Key): (p: seq<Action>) {
    var g := d.highWater + 1;
    [Reserve, Mark(Marker(h, g, None)), Create(h, key)]
    + if PolicyError(key.report, policy, s).Some? then [Destroy(h), Clear(h)]
      else [SaveFirst(RecordOf(h, kind, key, g), policy, s), Clear(h)]
  }

  function RotatePlan(d: Disk, s: Settings, prior: Handle, h: Handle, key: Key): (p: seq<Action>) {
    if LoadError(d.records, prior, s).Some? then []
    else
      var g := d.highWater + 1;
      var start := [Reserve, Mark(Marker(h, g, Some(prior)))];
      if prior !in d.keys then start
      else
        start + [Create(h, key)]
        + if MatchError(key.report, d.records[prior].report, s).Some? then [Destroy(h), Clear(h)]
          else [SaveNext(RecordOf(h, d.records[prior].kind, key, g), prior), Destroy(prior), Delete(prior), Clear(h)]
  }

  function DestroyPlan(d: Disk, s: Settings, h: Handle): (p: seq<Action>) {
    if LoadError(d.records, h, s).Some? || h !in d.keys then [] else [Destroy(h), Delete(h)]
  }

  /** A call on a provider, with what its environment supplies: the random handle and the key the module makes. */
  datatype Request =
    | Generate(kind: int, policy: Policy, handle: Handle, key: Key)
    | Rotate(prior: Handle, handle: Handle, key: Key)
    | DestroyIdentity(prior: Handle)
    | Reopen(prior: Handle)

  function MainPlan(d: Disk, s: Settings, r: Request): (p: seq<Action>) {
    match r
    case Generate(kind, policy, h, key) => GeneratePlan(d, s, kind, policy, h, key)
    case Rotate(prior, h, key) => RotatePlan(d, s, prior, h, key)
    case DestroyIdentity(prior) => DestroyPlan(d, s, prior)
    case Reopen(_) => []
  }

  // ---- running a plan ------------------------------------------------------------------

  lemma {:induction false} RunConcat(d: Disk, p: seq<Action>, q: seq<Action>)
    ensures Run(d, p + q) == Run(Run(d, p), q)
    decreases |p|
  {
    hide Apply;
    if p == [] {
      assert p + q == q;
    } else {
      assert (p + q)[0] == p[0] && (p + q)[1..] == p[1..] + q;
      RunConcat(Apply(d, p[0]), p[1..], q);
    }
  }

  /** One more step of a plan. */
  lemma RunNext(d: Disk, p: seq<Action>, k: nat)
    requires k < |p|
    ensures Run(d, p[..k + 1]) == Apply(Run(d, p[..k]), p[k])
  {
    hide Apply;
    assert p[..k + 1] == p[..k] + [p[k]];
    RunConcat(d, p[..k], [p[k]]);
    assert [p[k]][1..] == [];
  }
}
