/** The output filter as it runs: one scan over what was held back plus the new bytes. */
module TerminalFilter {
  import opened Bytes
  import opened Osc52Grammar
  import opened Osc52Chunking
  import opened Osc52Clipboard
  import opened Osc52Candidate
  import Spec = Osc52Filter

  datatype ScanMode = Normal | OscCommand | Osc52Payload(sawEsc: bool)

  function IntroLen(b: byte): (k: nat) {
    if b == ESC then 2 else 1
  }

  function LastByte(s: seq<byte>): (r: Option<byte>) {
    if s == [] then None else Some(s[|s| - 1])
  }

  /** Lone ESC, and `ESC [` that may still become a DECRQM reply. */
  predicate IncompletePrefix(s: seq<byte>) {
    s == [ESC] || s == [ESC, OPEN_BRACKET]
  }

  /** Searches the reply window at `start` for `$y`; the answer is an index into `input`. */
  method FindReplyEnd(input: seq<byte>, start: nat) returns (r: Option<nat>)
    requires start + 3 <= |input|
    ensures r == match ReplyEnd(input[start..], 3)
                 case None => None
                 case Some(e) => Some(start + e)
  {
    var max := if |input| < start + REPLY_WINDOW then |input| else start + REPLY_WINDOW;
    var i := start + 3;
    ghost var s := input[start..];
    while i + 1 < max
      invariant start + 3 <= i
      invariant ReplyEnd(s, 3) == ReplyEnd(s, i - start)
    {
      assert s[i - start] == input[i] && s[i - start + 1] == input[i + 1];
      if input[i] == DOLLAR && input[i + 1] == LOWER_Y {
        return Some(i + 2);
      }
      i := i + 1;
    }
    return None;
  }

  // ---- what the scan has established -----------------------------------------

  /** `ts` decomposes `input` up to `i`; the rest is still to be read. */
  ghost predicate ReadUpTo(input: seq<byte>, i: nat, ts: seq<Token>, cap: nat) {
    i <= |input| &&
    Lex(input, false, cap) == Prepend(ts, Lex(input[i..], AfterC2At(input, i, false), cap))
  }

  /** The rest of the input, from `i` on, starts with a token or not. */
  ghost function HeadAt(input: seq<byte>, i: nat, cap: nat): (h: Head)
    requires i < |input|
  {
    HeadOf(input[i..], AfterC2At(input, i, false), cap)
  }

  /** A candidate starts at `start` and its stage after reading up to `i` is `mode`. */
  ghost predicate InCandidate(input: seq<byte>, start: nat, i: nat, mode: ScanMode, cap: nat) {
    && start < i <= |input|
    && var c := input[start..];
       var k := IntroLen(c[0]);
       && start + k <= i
       && HeadAt(input, start, cap) == OscHead(c, k, cap)
       && match mode
          case Normal => false
          case OscCommand => Command(c, k, k, cap) == Command(c, k, i - start, cap)
          case Osc52Payload(e) => Command(c, k, k, cap) == Payload(c, i - start, e, cap)
  }

  lemma StartReading(input: seq<byte>, cap: nat)
    ensures ReadUpTo(input, 0, [], cap) && AllShown([]) == [] && Spec.AllClips([]) == []
  {
    hide Lex;
    assert input[0..] == input;
    assert Prepend([], Lex(input, false, cap)) == Lex(input, false, cap);
  }

  /** Reading one more token. */
  lemma ReadToken(input: seq<byte>, i: nat, ts: seq<Token>, t: Token, n: nat, cap: nat)
    requires i < |input| && ReadUpTo(input, i, ts, cap) && HeadAt(input, i, cap) == Take(t, n)
    ensures ReadUpTo(input, i + n, ts + [t], cap)
    ensures AllShown(ts + [t]) == AllShown(ts) + Shown(t)
    ensures Spec.AllClips(ts + [t]) == Spec.AllClips(ts) + Spec.Clips(t)
  {
    hide Lex, HeadOf, Shown, Spec.Clips;
    var s := input[i..];
    LexTake(s, AfterC2At(input, i, false), cap);
    assert s[n..] == input[i + n..] && s[n - 1] == input[i + n - 1];
    PrependTwice(ts, [t], Lex(input[i + n..], AfterC2At(input, i + n, false), cap));
    AllShownConcat(ts, [t]);
    Spec.AllClipsConcat(ts, [t]);
    assert [t][1..] == [] && AllShown([t]) == Shown(t) + [] && Spec.AllClips([t]) == Spec.Clips(t) + [];
  }

  lemma ReadOn(input: seq<byte>, i: nat, ts: seq<Token>, cap: nat) returns (ts': seq<Token>)
    requires i < |input| && ReadUpTo(input, i, ts, cap) && HeadAt(input, i, cap).Take?
    ensures var Take(t, n) := HeadAt(input, i, cap);
            && ts' == ts + [t] && ReadUpTo(input, i + n, ts', cap)
            && AllShown(ts') == AllShown(ts) + Shown(t)
            && Spec.AllClips(ts') == Spec.AllClips(ts) + Spec.Clips(t)
  {
    hide HeadAt, ReadUpTo, Spec.Clips, Shown;
    var Take(t, n) := HeadAt(input, i, cap);
    ReadToken(input, i, ts, t, n, cap);
    ts' := ts + [t];
  }

  /** Nothing more can be decided: the rest is held back. */
  lemma HoldRest(input: seq<byte>, i: nat, ts: seq<Token>, cap: nat)
    requires ReadUpTo(input, i, ts, cap)
    requires i < |input| ==> HeadAt(input, i, cap).Hold?
    ensures Lex(input, false, cap) == Scan(ts, input[i..], false)
  {
    hide HeadOf, Lex;
    LexStops(input[i..], AfterC2At(input, i, false), cap);
    assert ts + [] == ts;
  }

  lemma GiveUp(input: seq<byte>, i: nat, ts: seq<Token>, cap: nat)
    requires i < |input| && ReadUpTo(input, i, ts, cap) && HeadAt(input, i, cap).Overflow?
    ensures Lex(input, false, cap) == Scan(ts, [], true)
  {
    hide HeadOf, Lex;
    LexStops(input[i..], AfterC2At(input, i, false), cap);
    assert ts + [] == ts;
  }

  lemma EnterCandidate(input: seq<byte>, i: nat, cap: nat)
    requires i < |input|
    requires (input[i] == ESC && i + 1 < |input| && input[i + 1] == CLOSE_BRACKET)
             || (input[i] == C1_OSC && !AfterC2At(input, i, false))
    ensures InCandidate(input, i, i + IntroLen(input[i]), OscCommand, cap)
  {
    hide Command;
    var c := input[i..];
    assert c[0] == input[i] && (|c| > 1 ==> c[1] == input[i + 1]);
  }

  lemma CandidateHeld(input: seq<byte>, start: nat, mode: ScanMode, cap: nat)
    requires InCandidate(input, start, |input|, mode, cap)
    ensures HeadAt(input, start, cap).Hold?
  {
    hide HeadOf;
  }

  /** What one byte does to a candidate in `mode`, as the scan loop decides it. */
  lemma CandidateByte(input: seq<byte>, start: nat, i: nat, mode: ScanMode, cap: nat)
    requires InCandidate(input, start, i, mode, cap) && i < |input|
    ensures var b, c, fits := input[i], input[start..], i - start + 1 <= cap;
            var k := IntroLen(c[0]);
            && c[..i - start + 1] == input[start..i + 1]
            && match mode
               case OscCommand =>
                 if IsDigit(b) then
                   if fits then InCandidate(input, start, i + 1, OscCommand, cap)
                   else HeadAt(input, start, cap).Overflow?
                 else if b == SEMICOLON && input[start + k..i] == DIGITS_52 then
                   if fits then InCandidate(input, start, i + 1, Osc52Payload(false), cap)
                   else HeadAt(input, start, cap).Overflow?
                 else HeadAt(input, start, cap) == Take(Rejected(input[start..i + 1]), i - start + 1)
               case Osc52Payload(e) =>
                 if !fits then HeadAt(input, start, cap).Overflow?
                 else if (if e then b == BACKSLASH else b == BEL || (b == C1_ST && input[i - 1] != UTF8_C2)) then
                   HeadAt(input, start, cap) == Take(Clip(input[start..i + 1]), i - start + 1)
                 else InCandidate(input, start, i + 1, Osc52Payload(!e && b == ESC), cap)
               case Normal => false
  {
    hide HeadOf;
    var c := input[start..];
    var k := IntroLen(c[0]);
    assert c[..i - start + 1] == input[start..i + 1];
    assert c[i - start] == input[i] && c[i - start - 1] == input[i - 1];
    assert c[k..i - start] == input[start + k..i];
  }

  /** How the loop decides what an ESC or a C1 OSC at `i` is. */
  lemma NormalByte(input: seq<byte>, i: nat, cap: nat)
    requires i < |input|
    ensures var s := input[i..];
            HeadAt(input, i, cap) ==
            if IncompletePrefix(s) then Hold
            else if s[0] == ESC && s[1] == CLOSE_BRACKET then OscHead(s, 2, cap)
            else if |s| >= 3 && s[..3] == [ESC, OPEN_BRACKET, QUESTION] then
              match ReplyEnd(s, 3)
              case Some(e) => Take(Reply(s[..e]), e)
              case None => if |s| < REPLY_WINDOW then Hold else Take(Plain(s[0]), 1)
            else if s[0] == C1_OSC && !AfterC2At(input, i, false) then OscHead(s, 1, cap)
            else Take(Plain(s[0]), 1)
  {
    hide OscHead, ReplyEnd;
    var s := input[i..];
    assert |s| == 1 ==> s == [s[0]];
    assert |s| == 2 ==> s == [s[0], s[1]];
    if |s| >= 3 {
      assert s[..3] == [s[0], s[1], s[2]];
    }
  }

  // ---- one turn of the scan loop ---------------------------------------------

  /** The scan's local variables. */
  datatype Cursor = Cursor(i: nat, mode: ScanMode, start: nat, passthrough: seq<byte>, clipboards: seq<seq<byte>>)

  datatype Verdict = GoOn | Stop | Fail

  /** What the scan has emitted are the tokens `ts`, and it stands where `c` says. */
  ghost predicate Tracks(input: seq<byte>, c: Cursor, ts: seq<Token>, cap: nat) {
    && c.i <= |input| && (c.i == 0 ==> c.passthrough == [])
    && c.passthrough == AllShown(ts) && c.clipboards == Spec.AllClips(ts)
    && if c.mode.Normal? then ReadUpTo(input, c.i, ts, cap)
       else c.start < c.i && c.start + IntroLen(input[c.start]) <= c.i
            && ReadUpTo(input, c.start, ts, cap) && InCandidate(input, c.start, c.i, c.mode, cap)
  }

  /** A turn ends further on, or with everything decided that can be. */
  ghost predicate Turned(input: seq<byte>, c: Cursor, c': Cursor, v: Verdict, ts: seq<Token>, cap: nat) {
    match v
    case GoOn => c.i < c'.i && Tracks(input, c', ts, cap)
    case Stop => Tracks(input, c', ts, cap) && c'.mode.Normal?
        && Lex(input, false, cap) == Scan(ts, input[c'.i..], false)
    case Fail =>
      c'.passthrough == AllShown(ts) && c'.clipboards == Spec.AllClips(ts)
          && Lex(input, false, cap) == Scan(ts, [], true)
  }

  method ShowByte(input: seq<byte>, c: Cursor, ghost ts: seq<Token>, cap: nat)
    returns (c': Cursor, v: Verdict, ghost ts': seq<Token>)
    requires Tracks(input, c, ts, cap) && c.mode.Normal? && c.i < |input|
    requires HeadAt(input, c.i, cap) == Take(Plain(input[c.i]), 1)
    ensures Turned(input, c, c', v, ts', cap)
  {
    hide Lex, ReadUpTo, HeadAt, InCandidate, AllShown, Spec.AllClips;
    ts' := ReadOn(input, c.i, ts, cap);
    c' := c.(i := c.i + 1, passthrough := c.passthrough + [input[c.i]]);
    assert c'.clipboards + [] == c'.clipboards;
    v := GoOn;
  }

  method TurnEscape(input: seq<byte>, c: Cursor, ghost ts: seq<Token>, cap: nat)
    returns (c': Cursor, v: Verdict, ghost ts': seq<Token>)
    requires Tracks(input, c, ts, cap) && c.mode.Normal? && c.i < |input| && input[c.i] == ESC
    ensures Turned(input, c, c', v, ts', cap)
  {
    hide Lex, ReadUpTo, HeadAt, InCandidate, AllShown, Spec.AllClips, OscHead, ReplyEnd;
    var i := c.i;
    NormalByte(input, i, cap);
    ts', c', v := ts, c, Stop;
    if IncompletePrefix(input[i..]) {
      HoldRest(input, i, ts, cap);
      return;
    }
    if input[i + 1] == CLOSE_BRACKET {
      EnterCandidate(input, i, cap);
      return c.(start := i, mode := OscCommand, i := i + 2), GoOn, ts;
    }
    if i + 3 <= |input| && input[i..i + 3] == [ESC, OPEN_BRACKET, QUESTION] {
      assert input[i..][..3] == input[i..i + 3];
      var end := FindReplyEnd(input, i);
      if end.Some? {
        ts' := ReadOn(input, i, ts, cap);
        assert c.passthrough + [] == c.passthrough && c.clipboards + [] == c.clipboards;
        return c.(i := end.value), GoOn, ts';
      }
      if |input| - i < REPLY_WINDOW {
        HoldRest(input, i, ts, cap);
        return;
      }
    } else if i + 3 <= |input| {
      assert input[i..][..3] == input[i..i + 3];
    }
    c', v, ts' := ShowByte(input, c, ts, cap);
  }

  method TurnNormal(input: seq<byte>, c: Cursor, ghost ts: seq<Token>, cap: nat)
    returns (c': Cursor, v: Verdict, ghost ts': seq<Token>)
    requires Tracks(input, c, ts, cap) && c.mode.Normal? && c.i < |input|
    ensures Turned(input, c, c', v, ts', cap)
  {
    hide Lex, ReadUpTo, HeadAt, InCandidate, AllShown, Spec.AllClips, OscHead, ReplyEnd;
    var i := c.i;
    if input[i] == ESC {
      c', v, ts' := TurnEscape(input, c, ts, cap);
      return;
    }
    NormalByte(input, i, cap);
    if input[i] == C1_OSC {
      var previous := if i > 0 then Some(input[i - 1])
                      else LastByte(c.passthrough);
      if previous != Some(UTF8_C2) {
        EnterCandidate(input, i, cap);
        return c.(start := i, mode := OscCommand, i := i + 1), GoOn, ts;
      }
    }
    c', v, ts' := ShowByte(input, c, ts, cap);
  }

  method TurnCommand(input: seq<byte>, c: Cursor, ghost ts: seq<Token>, cap: nat)
    returns (c': Cursor, v: Verdict, ghost ts': seq<Token>)
    requires Tracks(input, c, ts, cap) && c.mode.OscCommand? && c.i < |input|
    ensures Turned(input, c, c', v, ts', cap)
  {
    hide Lex, ReadUpTo, HeadAt, InCandidate, AllShown, Spec.AllClips;
    var Cursor(i, _, start, _, _) := c;
    var b := input[i];
    CandidateByte(input, start, i, c.mode, cap);
    var digitsStart := start + IntroLen(input[start]);
    ts' := ts;
    if IsDigit(b) {
      if i - start + 1 > cap {
        GiveUp(input, start, ts, cap);
        return c, Fail, ts;
      }
      return c.(i := i + 1), GoOn, ts;
    }
    if b == SEMICOLON && input[digitsStart..i] == DIGITS_52 {
      if i - start + 1 > cap {
        GiveUp(input, start, ts, cap);
        return c, Fail, ts;
      }
      return c.(i := i + 1, mode := Osc52Payload(false)), GoOn, ts;
    }
    ts' := ReadOn(input, start, ts, cap);
    assert c.clipboards + [] == c.clipboards;
    return c.(i := i + 1, mode := Normal, passthrough := c.passthrough + input[start..i + 1]), GoOn, ts';
  }

  method TurnPayload(input: seq<byte>, c: Cursor, ghost ts: seq<Token>, cap: nat)
    returns (c': Cursor, v: Verdict, ghost ts': seq<Token>)
    requires Tracks(input, c, ts, cap) && c.mode.Osc52Payload? && c.i < |input|
    ensures Turned(input, c, c', v, ts', cap)
  {
    hide Lex, ReadUpTo, HeadAt, InCandidate, AllShown, Spec.AllClips, Parse;
    var Cursor(i, Osc52Payload(sawEsc), start, _, _) := c;
    var b := input[i];
    CandidateByte(input, start, i, c.mode, cap);
    ts' := ts;
    if i - start + 1 > cap {
      GiveUp(input, start, ts, cap);
      return c, Fail, ts;
    }
    if (if sawEsc then b == BACKSLASH else b == BEL || (b == C1_ST && input[i - 1] != UTF8_C2)) {
      ts' := ReadOn(input, start, ts, cap);
      var text := Parse(input[start..i + 1]);
      assert c.passthrough + [] == c.passthrough && c.clipboards + [] == c.clipboards;
      var clipboards := if text.Some? then c.clipboards + [text.value] else c.clipboards;
      return c.(i := i + 1, mode := Normal, clipboards := clipboards), GoOn, ts';
    }
    return c.(i := i + 1, mode := Osc52Payload(!sawEsc && b == ESC)), GoOn, ts;
  }

  class TerminalOutputFilter {
    var pending: seq<byte>
    var overflowed: bool
    const cap: nat

    ghost function State(): (f: Spec.Filter)
      reads this
    {
      Spec.Filter(pending, overflowed)
    }

    constructor (cap: nat)
      ensures State() == Spec.FRESH && this.cap == cap
    {
      pending := [];
      overflowed := false;
      this.cap := cap;
    }

    method Push(bytes: seq<byte>) returns (out: Spec.Output)
      modifies this
      ensures (State(), out) == Spec.Push(old(State()), bytes, cap)
    {
      hide Lex, ReadUpTo, AllShown, Spec.AllClips, InCandidate;
      if overflowed {
        return Spec.Output([], [], true);
      }
      var input := pending + bytes;
      pending := [];
      var c := Cursor(0, Normal, 0, [], []);
      ghost var ts: seq<Token> := [];
      StartReading(input, cap);
      while c.i < |input|
        invariant !overflowed && pending == [] && Tracks(input, c, ts, cap)
        decreases |input| - c.i
      {
        var c', v;
        match c.mode {
          case Normal => c', v, ts := TurnNormal(input, c, ts, cap);
          case OscCommand => c', v, ts := TurnCommand(input, c, ts, cap);
          case Osc52Payload(_) => c', v, ts := TurnPayload(input, c, ts, cap);
        }
        c := c';
        if v.Stop? {
          pending := input[c.i..];
          return Spec.Output(c.passthrough, c.clipboards, false);
        }
        if v.Fail? {
          overflowed := true;
          return Spec.Output(c.passthrough, c.clipboards, true);
        }
      }
      if c.mode.Normal? {
        HoldRest(input, c.i, ts, cap);
        pending := input[c.i..];
      } else {
        CandidateHeld(input, c.start, c.mode, cap);
        HoldRest(input, c.start, ts, cap);
        pending := input[c.start..];
      }
      out := Spec.Output(c.passthrough, c.clipboards, false);
    }

    /** End of file: an incomplete candidate is dropped without an event. */
    method Finish()
      modifies `pending
      ensures State() == Spec.Filter([], old(overflowed))
    {
      pending := [];
    }
  }
}
