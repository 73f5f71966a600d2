/** The exact answer of every ingress call, on the fields of the operation, and what becomes of a committed image. */
module HostAnswers {
  import opened Bytes
  import opened TerminalModel
  import opened TerminalInvariants
  import opened HostModel
  import opened HostInvariants
  import opened HostRuns
  import opened HostUploads

  // ---- what an image and a declaration are ----------------------------------------------------

  function Ascii(s: string): (r: seq<byte>)
    requires forall k :: 0 <= k < |s| ==> s[k] < 128 as char
  {
    seq(|s|, k requires 0 <= k < |s| => s[k] as int)
  }

  /** The signature of a format, in letters where it is letters. */
  predicate Signature(media: Media, s: seq<byte>) {
    match media
    case Png => [0x89] + Ascii("PNG") + [13, 10, 26, 10] <= s
    case Jpeg => [0xff, 0xd8, 0xff] <= s
    case Gif => Ascii("GIF87a") <= s || Ascii("GIF89a") <= s
    case Webp => Ascii("RIFF") <= s && |s| >= 12 && s[8..12] == Ascii("WEBP")
  }

  /** The bytes are the declared image: its size, digest and format. */
  predicate IsDeclared(m: Metadata, s: seq<byte>, cfg: Config) {
    |s| == m.size && cfg.sha256(s) == m.sha256 && Signature(m.media, s)
  }

  lemma DeclaredExactly(m: Metadata, s: seq<byte>, cfg: Config)
    ensures ValidImage(m, s, cfg) <==> IsDeclared(m, s, cfg)
    ensures IsDeclared(m, s, cfg) ==> |s| == m.size
  {
    assert Ascii("PNG") == [0x50, 0x4e, 0x47];
    assert [0x89] + [0x50, 0x4e, 0x47] + [13, 10, 26, 10] == [0x89, 0x50, 0x4e, 0x47, 0x0d, 0x0a, 0x1a, 0x0a];
    assert Ascii("GIF87a") == [0x47, 0x49, 0x46, 0x38, 0x37, 0x61];
    assert Ascii("GIF89a") == [0x47, 0x49, 0x46, 0x38, 0x39, 0x61];
    assert Ascii("RIFF") == [0x52, 0x49, 0x46, 0x46] && Ascii("WEBP") == [0x57, 0x45, 0x42, 0x50];
  }

  /** A declaration that can be granted: a version 4 id, a size within the limit, a digest in lower-case hex. */
  predicate IsDeclarable(m: Metadata, cfg: Config) {
    && m.idIsV4 && 1 <= m.size <= cfg.maxBytes
    && |m.sha256| == 64 && forall c :: c in m.sha256 ==> c in "0123456789abcdef"
  }

  lemma DeclarableExactly(m: Metadata, cfg: Config)
    ensures ValidMetadata(m, cfg) <==> IsDeclarable(m, cfg)
  {
    forall c: char ensures c in "0123456789abcdef" <==> IsHexDigit(c) {
      HexDigits(c);
    }
    assert (forall k :: 0 <= k < |m.sha256| ==> IsHexDigit(m.sha256[k])) <==>
           (forall c :: c in m.sha256 ==> IsHexDigit(c));
  }

  lemma HexDigits(c: char)
    ensures c in "0123456789abcdef" <==> IsHexDigit(c)
  {
    var all := "0123456789abcdef";
    if '0' <= c <= '9' {
      assert all[c as int - 48] == c;
    } else if 'a' <= c <= 'f' {
      assert all[c as int - 87] == c;
    }
  }

  // ---- how long an operation lasts ------------------------------------------------------------

  /** Fewer than `ttl` have passed since it was committed, or since it was created if it is not. */
  predicate Lasts(op: Operation, now: Time, ttl: nat) {
    match op.committedAt
    case Some(at) => now < at + ttl
    case None => now < op.createdAt + ttl
  }

  /** A sweep keeps exactly the operations that last, and gives back the charges of the other prepared ones. */
  lemma SweepExactly(t: Terminal, now: Time, ttl: nat, k: Uuid)
    ensures var s := Sweep(t, now, ttl);
            && (k in s.term.ingress <==> k in t.ingress && Lasts(t.ingress[k], now, ttl))
            && (k in s.term.ingress ==> s.term.ingress[k] == t.ingress[k])
            && (k in s.released <==> k in t.ingress && !Lasts(t.ingress[k], now, ttl) && t.ingress[k].state.Prepared?)
            && (k in s.released ==>
                  s.released[k] == Charge(t.ingress[k].owner.principal, t.ingress[k].metadata.size))
  {
  }

  // ---- chunk, status, finish ------------------------------------------------------------------

  /** The operation `id` of `t` that a call under `b` may act on at `now`. */
  predicate Usable(t: Terminal, b: Binding, id: Uuid, now: Time, cfg: Config) {
    && Authorized(t, b) && id in t.ingress && Lasts(t.ingress[id], now, cfg.ttl) && t.ingress[id].binding == b
  }

  /** How far an upload has come. */
  ghost function Progress(op: Operation): (r: Response) {
    Receipt(op.metadata.operation, op.state,
            if op.state.Committed? then op.metadata.size else |Flatten(op.accepted)|, op.sequence)
  }

  lemma StatusExactly(t: Terminal, b: Binding, id: Uuid, now: Time, cfg: Config)
    requires TerminalOk(t, cfg)
    ensures Status(t, b, id, now, cfg).response ==
            if Usable(t, b, id, now, cfg) then Progress(t.ingress[id]) else Refused(InvalidIngress)
  {
    SweepExactly(t, now, cfg.ttl, id);
    hide BindingsOk, CloseOk, Flatten, Sweep, ValidMetadata, ValidImage;
    if id in t.ingress {
      assert OpOk(t.ingress[id], t.pastes, cfg);
    }
  }

  lemma ChunkExactly(t: Terminal, b: Binding, id: Uuid, offset: nat, bytes: seq<byte>, now: Time, cfg: Config)
    requires TerminalOk(t, cfg)
    ensures var s := Chunk(t, b, id, offset, bytes, now, cfg);
            if && 1 <= |bytes| <= cfg.maxChunk && Usable(t, b, id, now, cfg) && t.ingress[id].state.Prepared?
               && offset == |Flatten(t.ingress[id].accepted)| && offset + |bytes| <= t.ingress[id].metadata.size
            then && s.response == Receipt(id, Prepared, offset + |bytes|, None)
                 && id in s.term.ingress && s.term.ingress[id].accepted == t.ingress[id].accepted + [bytes]
            else s.response == Refused(InvalidIngress)
  {
    hide TerminalOk, Flatten, Sweep, Authorized, Lasts;
    SweepExactly(t, now, cfg.ttl, id);
    if id in t.ingress {
      JournalledOk(t, id, cfg);
    }
  }

  /** What the journal knows of an upload: its id, and how much of it has come while it is prepared. */
  lemma JournalledOk(t: Terminal, k: Uuid, cfg: Config)
    requires TerminalOk(t, cfg) && k in t.ingress
    ensures var op := t.ingress[k];
            && op.metadata.operation == k
            && (op.state.Prepared? ==> |op.bytes| == |Flatten(op.accepted)| && op.sequence.None?)
  {
    hide BindingsOk, CloseOk, Flatten, ValidMetadata, ValidImage;
    assert OpOk(t.ingress[k], t.pastes, cfg);
  }

  lemma FinishExactly(t: Terminal, b: Binding, id: Uuid, now: Time, w: World, cfg: Config)
    requires TerminalOk(t, cfg)
    ensures var response := Finish(t, b, id, now, w, cfg).response;
            if !Usable(t, b, id, now, cfg) then response == Refused(InvalidIngress)
            else
              var op := t.ingress[id];
              if op.state.Committed? then response == Receipt(id, Committed, op.metadata.size, op.sequence)
              else if || !IsDeclared(op.metadata, Flatten(op.accepted), cfg)
                      || w.readBack.None? || !IsDeclared(op.metadata, w.readBack.value, cfg) then
                response == Refused(InvalidIngress)
              else if !w.queueHasRoom then response == Refused(Internal)
              else response == Receipt(id, Committed, op.metadata.size, Some(|t.pastes| + 1))
  {
    SweepExactly(t, now, cfg.ttl, id);
    hide BindingsOk, CloseOk, Flatten, Sweep, ValidMetadata, ValidImage, IsDeclared;
    if id in t.ingress {
      assert OpOk(t.ingress[id], t.pastes, cfg);
      DeclaredExactly(t.ingress[id].metadata, t.ingress[id].bytes, cfg);
      if w.readBack.Some? {
        DeclaredExactly(t.ingress[id].metadata, w.readBack.value, cfg);
      }
    }
  }

  // ---- begin --------------------------------------------------------------------------------------

  /** A known operation goes on under `b`: its own binding, or a newer connection of the same client and session. */
  predicate GoesOn(t: Terminal, b: Binding, op: Operation)
    requires b.id in t.bindings
  {
    var record := t.bindings[b.id];
    || op.binding == b
    || (&& op.binding.id !in t.bindings
        && record.owner.principal == op.owner.principal && record.owner.client == op.owner.client
        && record.session == op.session && record.owner.epoch > op.owner.epoch)
  }

  /** There is room for one more: in the journal, under the binding, in the quota of its principal. */
  ghost predicate Room(t: Terminal, b: Binding, cfg: Config) {
    && |t.ingress| < cfg.journalCap
    && forall k :: k in t.ingress ==> !(t.ingress[k].state.Prepared? && t.ingress[k].binding == b)
  }

  predicate QuotaRoom(quotas: map<Principal, Quota>, p: Principal, size: nat, cfg: Config) {
    var held := Entry(quotas, p);
    held.ops + 1 <= cfg.quotaOps && held.bytes + size <= cfg.quotaBytes
  }

  /** A `begin` of a known operation. */
  lemma AgainExactly(t: Terminal, b: Binding, m: Metadata, cfg: Config)
    requires TerminalOk(t, cfg) && Authorized(t, b) && m.operation in t.ingress
    ensures var s := BeginAgain(t, b, m);
            var op := t.ingress[m.operation];
            && m.operation in s.term.ingress && s.released == map[]
            && if op.binding != b && op.binding.id in t.bindings then s.response == Refused(InvalidIngress)
               else if op.metadata != m then s.response == Refused(IngressConflict)
               else if !GoesOn(t, b, op) then s.response == Refused(InvalidIngress)
               else
                 && s.response == Progress(op)
                 && s.term.ingress[m.operation] ==
                    op.(binding := b, owner := if op.binding == b then op.owner else t.bindings[b.id].owner)
  {
    hide BindingsOk, CloseOk, Flatten, ValidMetadata, ValidImage;
    assert OpOk(t.ingress[m.operation], t.pastes, cfg);
  }

  /** The operation a granted `begin` starts. */
  function Started(t: Terminal, b: Binding, m: Metadata, now: Time): (op: Operation)
    requires b.id in t.bindings
  {
    var record := t.bindings[b.id];
    Operation(m, b, record.owner, record.session, Prepared, [], [], None, now, None, None, None)
  }

  lemma MainExactly(t: Terminal, b: Binding, m: Metadata, now: Time, cfg: Config)
    ensures BeginMain(t, b, m, now, cfg) ==
            if !Authorized(t, b) || !IsDeclarable(m, cfg) then Answered(Refuse(t, InvalidIngress))
            else if m.operation in t.ingress then Answered(BeginAgain(t, b, m))
            else if !Room(t, b, cfg) then Answered(Refuse(t, InvalidIngress))
            else Fresh(Started(t, b, m, now))
  {
    DeclarableExactly(m, cfg);
    hide ValidMetadata, IsDeclarable, BeginAgain;
  }

  lemma QuotaExactly(quotas: map<Principal, Quota>, p: Principal, size: nat, cfg: Config)
    ensures ChargeQuota(quotas, p, size, cfg).0 <==> QuotaRoom(quotas, p, size, cfg)
  {
  }

  /** A `begin` is granted exactly when it may be, and each refusal says why. */
  lemma BeginExactly(h: Host, id: Uuid, b: Binding, m: Metadata, now: Time, cfg: Config)
    requires id in h.terminals && TerminalOk(h.terminals[id], cfg)
    ensures var (h', r) := Step(h, EndBegin(id, b, m, now), cfg);
            var t := h.terminals[id];
            if !Authorized(t, b) || !IsDeclarable(m, cfg) then r == Refused(InvalidIngress)
            else if m.operation in t.ingress then
              var op := t.ingress[m.operation];
              if op.binding != b && op.binding.id in t.bindings then r == Refused(InvalidIngress)
              else if op.metadata != m then r == Refused(IngressConflict)
              else if !GoesOn(t, b, op) then r == Refused(InvalidIngress)
              else r == Progress(op)
            else if !Room(t, b, cfg) then r == Refused(InvalidIngress)
            else if !QuotaRoom(h.quotas, t.bindings[b.id].owner.principal, m.size, cfg) then r == Refused(QuotaExceeded)
            else
              && r == Receipt(m.operation, Prepared, 0, None)
              && id in h'.terminals && m.operation in h'.terminals[id].ingress
              && h'.terminals[id].ingress[m.operation] == Started(t, b, m, now)
  {
    var t := h.terminals[id];
    MainExactly(t, b, m, now, cfg);
    hide TerminalOk, Flatten, IsDeclarable, ReleaseQuota, BeginMain, BeginAgain, ChargeQuota, QuotaRoom, Room, GoesOn;
    if Authorized(t, b) {
      if m.operation in t.ingress {
        AgainExactly(t, b, m, cfg);
      }
      QuotaExactly(h.quotas, t.bindings[b.id].owner.principal, m.size, cfg);
    }
  }

  // ---- consuming an image ----------------------------------------------------------------------------

  /** The operation's image goes to this owner and session, at this time, if its file still reads as committed. */
  predicate IsFor(op: Operation, owner: Owner, session: Uuid, now: Time, readBack: Option<seq<byte>>, ttl: nat) {
    && op.state.Committed? && op.owner == owner && op.session == session && now < op.createdAt + ttl
    && op.file.Some? && readBack == op.file
  }

  /**
    A terminal has the name exactly when a lasting operation carries it, and hands out the image exactly
    when it is for the caller.
  */
  lemma ConsumeExactly(t: Terminal, c: Command, cfg: Config)
    requires TerminalOk(t, cfg) && c.DoConsume? && CanPerform(t, c, cfg)
    ensures var s := Perform(t, c, cfg);
            match c.found
            case None =>
              && s.response == NotHere
              && forall k :: k in t.ingress && Lasts(t.ingress[k], c.now, cfg.ttl) ==>
                   t.ingress[k].capability != Some(c.name)
            case Some(k) =>
              && k in t.ingress && Lasts(t.ingress[k], c.now, cfg.ttl) && t.ingress[k].capability == Some(c.name)
              && s.response == if IsFor(t.ingress[k], c.owner, c.session, c.now, c.readBack, cfg.ttl)
                               then Image(t.ingress[k].file.value) else Refused(InvalidIngress)
  {
    hide TerminalOk, CanPerform, Lasts, Expired, Swept;
    SweptCarriers(t, c, cfg);
    if c.found.Some? {
      CommittedFile(t, c.found.value, cfg);
    }
  }

  /** What the search of a terminal goes through. */
  lemma SweptCarriers(t: Terminal, c: Command, cfg: Config)
    requires c.DoConsume? && CanPerform(t, c, cfg)
    ensures forall k :: k in Kept(t.ingress, c.now, cfg.ttl) <==> k in t.ingress && Lasts(t.ingress[k], c.now, cfg.ttl)
    ensures c.found.None? ==>
              forall k :: k in Kept(t.ingress, c.now, cfg.ttl) ==> t.ingress[k].capability != Some(c.name)
    ensures c.found.Some? ==>
              c.found.value in Kept(t.ingress, c.now, cfg.ttl) && t.ingress[c.found.value].capability == Some(c.name)
  {
  }

  lemma CommittedFile(t: Terminal, k: Uuid, cfg: Config)
    requires TerminalOk(t, cfg) && k in t.ingress
    ensures var op := t.ingress[k];
            op.state.Committed? ==> op.file.Some? && cfg.sha256(op.file.value) == op.metadata.sha256
  {
    hide BindingsOk, CloseOk, Flatten, ValidMetadata, Magic;
    assert OpOk(t.ingress[k], t.pastes, cfg);
  }

  lemma CommitLeaves(t: Terminal, c: Command, cfg: Config)
    requires TerminalOk(t, cfg) && Commits(t, c, cfg)
    ensures c.op in t.ingress && c.op in Perform(t, c, cfg).term.ingress
    ensures var op, op' := t.ingress[c.op], Perform(t, c, cfg).term.ingress[c.op];
            && op'.state.Committed? && op'.capability == Some(c.w.capability) && op'.file == c.w.readBack
            && op'.committedAt == Some(c.now) && op'.createdAt == op.createdAt && op'.session == op.session
            && op'.owner == op.owner
  {
    hide BindingsOk, CloseOk, ValidImage, ValidMetadata, Flatten, Swept;
  }

  /** Of all terminals, one carries the name, in one operation; that is what a search finds. */
  lemma FindsCarrier(h: Host, id: Uuid, k: Uuid, at: Uuid, c: Command, cfg: Config)
    requires HostOk(h, cfg) && DistinctNames(h) && c.DoConsume? && Enabled(h, On(at, c), cfg)
    requires id in h.terminals && k in h.terminals[id].ingress && h.terminals[id].ingress[k].capability == Some(c.name)
    ensures c.found.Some? ==> at == id && c.found.value == k
    ensures at == id && Lasts(h.terminals[id].ingress[k], c.now, cfg.ttl) ==> c.found.Some?
  {
    var t := h.terminals[at];
    assert TerminalOk(t, cfg);
    hide HostOk, TerminalOk, DistinctNames, Lasts;
    ConsumeExactly(t, c, cfg);
    if c.found.Some? {
      SameCarrier(h, id, k, at, c.found.value, c.name, cfg);
    }
  }

  /** What a commit made of upload `k` is still there: its name, its file, its times, its session and its client. */
  ghost predicate StillCommitted(h: Host, id: Uuid, k: Uuid, was: Operation, fin: Command)
    requires fin.DoFinish?
  {
    && id in h.terminals && k in h.terminals[id].ingress
    && var op := h.terminals[id].ingress[k];
       && op.state.Committed? && op.capability == Some(fin.w.capability) && op.file == fin.w.readBack
       && op.committedAt == Some(fin.now) && op.createdAt == was.createdAt && op.session == was.session
       && op.owner.principal == was.owner.principal && op.owner.client == was.owner.client
       && op.owner.epoch >= was.owner.epoch
  }

  lemma CommitLasts(h: Host, id: Uuid, fin: Command, later: seq<Action>, cfg: Config)
    requires HostOk(h, cfg) && id in h.terminals && Commits(h.terminals[id], fin, cfg)
    requires Legal(h, [On(id, fin)] + later, cfg)
    requires Legal(Step(h, On(id, fin), cfg).0, later, cfg)
    requires StaysJournalled(Step(h, On(id, fin), cfg).0, later, id, fin.op, cfg)
    ensures fin.op in h.terminals[id].ingress
    ensures StillCommitted(Run(h, [On(id, fin)] + later, cfg), id, fin.op, h.terminals[id].ingress[fin.op], fin)
  {
    assert TerminalOk(h.terminals[id], cfg);
    hide HostOk, TerminalOk, Run, Legal, Commits, Step;
    var actions := [On(id, fin)] + later;
    assert actions[0] == On(id, fin) && actions[1..] == later;
    UnfoldRun(h, actions, cfg);
    StepTouches(h, On(id, fin), id, cfg);
    StepKeepsOk(h, On(id, fin), cfg);
    CommitLeaves(h.terminals[id], fin, cfg);
    UploadForLife(Step(h, On(id, fin), cfg).0, later, id, fin.op, cfg);
  }

  /**
    A name drawn by a commit and still journalled, however the run went on: within the time limits it is
    answered with the committed bytes, to the client and session it was uploaded for and to nobody else,
    as long as its file reads back as committed; and by no other terminal.
  */
  lemma CommittedIsHandedOut(h: Host, id: Uuid, fin: Command, later: seq<Action>, at: Uuid, c: Command, cfg: Config)
    requires HostOk(h, cfg) && id in h.terminals && Commits(h.terminals[id], fin, cfg)
    requires Legal(h, [On(id, fin)] + later, cfg) && DistinctNames(Run(h, [On(id, fin)] + later, cfg))
    requires Legal(Step(h, On(id, fin), cfg).0, later, cfg)
    requires StaysJournalled(Step(h, On(id, fin), cfg).0, later, id, fin.op, cfg)
    requires c.DoConsume? && c.name == fin.w.capability && Enabled(Run(h, [On(id, fin)] + later, cfg), On(at, c), cfg)
    ensures fin.op in h.terminals[id].ingress
    ensures var h' := Run(h, [On(id, fin)] + later, cfg);
            var response := Step(h', On(at, c), cfg).1;
            && id in h'.terminals && fin.op in h'.terminals[id].ingress
            && if at != id || c.now >= fin.now + cfg.ttl then response == NotHere
               else
                 var was := h.terminals[id].ingress[fin.op];
                 if && c.owner == h'.terminals[id].ingress[fin.op].owner && c.session == was.session
                    && c.now < was.createdAt + cfg.ttl && c.readBack == fin.w.readBack
                 then fin.w.readBack.Some? && response == Image(fin.w.readBack.value)
                 else response == Refused(InvalidIngress)
  {
    var h' := Run(h, [On(id, fin)] + later, cfg);
    RunKeepsOk(h, [On(id, fin)] + later, cfg);
    CommitLasts(h, id, fin, later, cfg);
    assert TerminalOk(h'.terminals[at], cfg);
    assert fin.w.readBack.Some?;
    FindsCarrier(h', id, fin.op, at, c, cfg);
    hide HostOk, TerminalOk, Run, Legal, Commits, DistinctNames, CanPerform;
    ConsumeExactly(h'.terminals[at], c, cfg);
    assert Step(h', On(at, c), cfg).1 == Perform(h'.terminals[at], c, cfg).response;
  }

  // ---- the search through all terminals ---------------------------------------------------------------

  /** Operation `k` of terminal `id` carries the name and lasts. */
  predicate Carries(h: Host, id: Uuid, k: Uuid, name: seq<byte>, now: Time, ttl: nat) {
    && id in h.terminals && k in h.terminals[id].ingress
    && h.terminals[id].ingress[k].capability == Some(name) && Lasts(h.terminals[id].ingress[k], now, ttl)
  }

  /** The answer to a search: the image of the operation that carries the name, if it is for the caller. */
  ghost predicate Found(h: Host, name: seq<byte>, owner: Owner, session: Uuid, now: Time,
                        read: Uuid -> Option<seq<byte>>, r: Response, ttl: nat) {
    forall id, k :: Carries(h, id, k, name, now, ttl) ==>
      var op := h.terminals[id].ingress[k];
      r == if IsFor(op, owner, session, now, read(k), ttl) then Image(op.file.value) else Refused(InvalidIngress)
  }

  /** The terminal that answers is the only one that could. */
  lemma FoundHere(h: Host, id: Uuid, c: Command, read: Uuid -> Option<seq<byte>>, r: Response, cfg: Config)
    requires HostOk(h, cfg) && id in h.terminals && c.DoConsume? && CanPerform(h.terminals[id], c, cfg)
    requires r == Perform(h.terminals[id], c, cfg).response && r != NotHere
    requires c.found.Some? ==> c.readBack == read(c.found.value)
    ensures DistinctNames(h) ==> Found(h, c.name, c.owner, c.session, c.now, read, r, cfg.ttl)
    ensures c.found.Some? && Carries(h, id, c.found.value, c.name, c.now, cfg.ttl)
  {
    assert TerminalOk(h.terminals[id], cfg);
    ConsumeExactly(h.terminals[id], c, cfg);
    hide HostOk, TerminalOk, DistinctNames, Perform, CanPerform, Lasts, IsFor;
    if DistinctNames(h) {
      forall id', k | Carries(h, id', k, c.name, c.now, cfg.ttl) ensures id' == id && k == c.found.value {
        SameCarrier(h, id, c.found.value, id', k, c.name, cfg);
      }
    }
  }

  lemma NotFoundHere(h: Host, id: Uuid, c: Command, cfg: Config)
    requires HostOk(h, cfg) && id in h.terminals && c.DoConsume? && CanPerform(h.terminals[id], c, cfg)
    requires Perform(h.terminals[id], c, cfg).response == NotHere
    ensures forall k :: !Carries(h, id, k, c.name, c.now, cfg.ttl)
  {
    assert TerminalOk(h.terminals[id], cfg);
    hide HostOk, TerminalOk, Perform, CanPerform, Lasts, IsFor;
    ConsumeExactly(h.terminals[id], c, cfg);
  }
}
