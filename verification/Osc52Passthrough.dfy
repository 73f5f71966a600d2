/** What reaches the display and the clipboard, in terms of the shapes that stand in the stream. */
module Osc52Passthrough {
  import opened Bytes
  import opened Osc52Grammar
  import opened Osc52Shapes
  import opened Osc52Chunking
  import opened Osc52Clipboard
  import opened Osc52Filter
  import opened Osc52Bounds

  /** The first `n` bytes are an OSC 52 sequence within the cap. */
  predicate ClipStretch(s: seq<byte>, afterC2: bool, n: nat, cap: nat) {
    ClipShape(s, Intro(s, afterC2), n, cap)
  }

  /** They are to be taken out: an OSC 52 sequence or a mode report. */
  predicate Hidden(s: seq<byte>, afterC2: bool, n: nat, cap: nat) {
    ClipStretch(s, afterC2, n, cap) || ReplyShape(s, n)
  }

  /** They are to be left in: the start of another OSC, or a byte that starts nothing. */
  predicate Visible(s: seq<byte>, afterC2: bool, n: nat, cap: nat) {
    RejectedShape(s, Intro(s, afterC2), n, cap) || (n == 1 && PlainShape(s, afterC2))
  }

  /** What ends a reading: nothing left, a suffix to hold, or a candidate that outgrew the cap. */
  predicate Ends(s: seq<byte>, afterC2: bool, cap: nat) {
    s == [] || Undecided(s, afterC2, cap) || (Intro(s, afterC2) > 0 && Overlong(s, Intro(s, afterC2), cap))
  }

  /** `lens` are the lengths of the stretches of `s`, one behind the other, up to where the reading ends. */
  predicate Reading(s: seq<byte>, afterC2: bool, lens: seq<nat>, cap: nat)
    decreases |lens|
  {
    if lens == [] then Ends(s, afterC2, cap)
    else
      var n := lens[0];
      && 1 <= n <= |s| && (Hidden(s, afterC2, n, cap) || Visible(s, afterC2, n, cap))
      && Reading(s[n..], s[n - 1] == UTF8_C2, lens[1..], cap)
  }

  /** The stream with the hidden stretches, and what the reading leaves, cut out. */
  function Passed(s: seq<byte>, afterC2: bool, lens: seq<nat>, cap: nat): (r: seq<byte>)
    requires Reading(s, afterC2, lens, cap)
    decreases |lens|
  {
    if lens == [] then []
    else
      var n := lens[0];
      (if Hidden(s, afterC2, n, cap) then [] else s[..n]) + Passed(s[n..], s[n - 1] == UTF8_C2, lens[1..], cap)
  }

  /** The texts of the OSC 52 stretches that carry one. */
  function Texts(s: seq<byte>, afterC2: bool, lens: seq<nat>, cap: nat): (r: seq<seq<byte>>)
    requires Reading(s, afterC2, lens, cap)
    decreases |lens|
  {
    if lens == [] then []
    else
      var n := lens[0];
      (if ClipStretch(s, afterC2, n, cap) && Parse(s[..n]).Some? then [Parse(s[..n]).value] else [])
      + Texts(s[n..], s[n - 1] == UTF8_C2, lens[1..], cap)
  }

  function Rest(s: seq<byte>, lens: seq<nat>): (r: seq<byte>)
    decreases |lens|
  {
    if lens == [] then s else if lens[0] > |s| then [] else Rest(s[lens[0]..], lens[1..])
  }

  // ---- the tokens are the stretches ----------------------------------------------------------

  lemma StretchIsToken(s: seq<byte>, afterC2: bool, n: nat, cap: nat)
    requires 1 <= n <= |s|
    ensures Hidden(s, afterC2, n, cap) || Visible(s, afterC2, n, cap) <==>
            HeadOf(s, afterC2, cap).Take? && HeadOf(s, afterC2, cap).len == n
    ensures HeadOf(s, afterC2, cap).Take? && HeadOf(s, afterC2, cap).len == n ==>
              var t := HeadOf(s, afterC2, cap).token;
              && (Hidden(s, afterC2, n, cap) <==> t.Clip? || t.Reply?)
              && (ClipStretch(s, afterC2, n, cap) <==> t.Clip?)
  {
    hide HeadOf, ClipShape, RejectedShape, ReplyShape, PlainShape, Intro;
    StandsExactly(s, afterC2, Clip(s[..n]), cap);
    StandsExactly(s, afterC2, Reply(s[..n]), cap);
    StandsExactly(s, afterC2, Rejected(s[..n]), cap);
    StandsExactly(s, afterC2, Plain(s[0]), cap);
    assert n == 1 ==> s[..n] == [s[0]];
    if HeadOf(s, afterC2, cap).Take? {
      var t := HeadOf(s, afterC2, cap).token;
      StandsExactly(s, afterC2, t, cap);
    }
  }

  lemma EndIsNoToken(s: seq<byte>, afterC2: bool, cap: nat)
    ensures Ends(s, afterC2, cap) <==> s == [] || !HeadOf(s, afterC2, cap).Take?
    ensures s != [] && Ends(s, afterC2, cap) ==>
              (HeadOf(s, afterC2, cap).Overflow? <==> Intro(s, afterC2) > 0 && Overlong(s, Intro(s, afterC2), cap))
  {
    hide HeadOf, Undecided, Overlong, Intro;
    if s != [] {
      WaitsExactly(s, afterC2, cap);
      GivesUpExactly(s, afterC2, cap);
    }
  }

  /** Every stream has a reading. */
  lemma {:induction false} ReadingExists(s: seq<byte>, afterC2: bool, cap: nat) returns (lens: seq<nat>)
    ensures Reading(s, afterC2, lens, cap)
    decreases |s|
  {
    hide HeadOf, Ends, Hidden, Visible;
    EndIsNoToken(s, afterC2, cap);
    if s == [] || !HeadOf(s, afterC2, cap).Take? {
      lens := [];
    } else {
      var n := HeadOf(s, afterC2, cap).len;
      StretchIsToken(s, afterC2, n, cap);
      var rest := ReadingExists(s[n..], s[n - 1] == UTF8_C2, cap);
      lens := [n] + rest;
      assert lens[1..] == rest;
    }
  }

  /** And only one. */
  lemma {:induction false} ReadingUnique(s: seq<byte>, afterC2: bool, lens: seq<nat>, other: seq<nat>, cap: nat)
    requires Reading(s, afterC2, lens, cap) && Reading(s, afterC2, other, cap)
    ensures lens == other
    decreases |lens|
  {
    hide HeadOf, Ends, Hidden, Visible;
    EndIsNoToken(s, afterC2, cap);
    if lens != [] {
      StretchIsToken(s, afterC2, lens[0], cap);
    }
    if other != [] {
      StretchIsToken(s, afterC2, other[0], cap);
    }
    if lens != [] && other != [] {
      var n := lens[0];
      ReadingUnique(s[n..], s[n - 1] == UTF8_C2, lens[1..], other[1..], cap);
      assert lens == [n] + lens[1..] && other == [n] + other[1..];
    }
  }

  /** What the filter makes of a stream is what its reading says. */
  lemma {:induction false} LexPasses(s: seq<byte>, afterC2: bool, lens: seq<nat>, cap: nat)
    requires Reading(s, afterC2, lens, cap)
    ensures var r := Lex(s, afterC2, cap);
            && AllShown(r.tokens) == Passed(s, afterC2, lens, cap) && AllClips(r.tokens) == Texts(s, afterC2, lens, cap)
            && (!r.overflowed ==> r.pending == Rest(s, lens)) && (r.overflowed ==> Rest(s, lens) != [])
    decreases |lens|
  {
    hide HeadOf, Ends, Hidden, Visible, ClipStretch, Parse, Lex;
    EndIsNoToken(s, afterC2, cap);
    if lens == [] {
      LexStops(s, afterC2, cap);
    } else {
      var n := lens[0];
      StretchIsToken(s, afterC2, n, cap);
      LexTake(s, afterC2, cap);
      var t, rest := HeadOf(s, afterC2, cap).token, Lex(s[n..], s[n - 1] == UTF8_C2, cap);
      LexPasses(s[n..], s[n - 1] == UTF8_C2, lens[1..], cap);
      assert TokenBytes(t) == s[..n];
      assert ([t] + rest.tokens)[1..] == rest.tokens;
    }
  }

  /**
    One push, whatever is held: the bytes it lets through are the stream without the OSC 52 sequences
    and mode reports of its reading and without what is held; the texts are those of the sequences.
  */
  lemma PushPasses(f: Filter, c: seq<byte>, lens: seq<nat>, cap: nat)
    requires !f.overflowed && Reading(f.pending + c, false, lens, cap)
    ensures var (f', o) := Push(f, c, cap);
            var s := f.pending + c;
            && o.passthrough == Passed(s, false, lens, cap) && o.clipboards == Texts(s, false, lens, cap)
            && (!o.overflow ==> f'.pending == Rest(s, lens))
  {
    hide Lex, Passed, Texts;
    LexPasses(f.pending + c, false, lens, cap);
  }

  /** One reading for each push of a run, of what was held and the next chunk. */
  predicate RunReading(f: Filter, chunks: seq<seq<byte>>, readings: seq<seq<nat>>, cap: nat)
    decreases |chunks|
  {
    if chunks == [] || f.overflowed then readings == []
    else
      && readings != [] && Reading(f.pending + chunks[0], false, readings[0], cap)
      && RunReading(Push(f, chunks[0], cap).0, chunks[1..], readings[1..], cap)
  }

  function RunPassed(f: Filter, chunks: seq<seq<byte>>, readings: seq<seq<nat>>, cap: nat): (r: seq<byte>)
    requires RunReading(f, chunks, readings, cap)
    decreases |chunks|
  {
    if chunks == [] || f.overflowed then []
    else
      Passed(f.pending + chunks[0], false, readings[0], cap)
      + RunPassed(Push(f, chunks[0], cap).0, chunks[1..], readings[1..], cap)
  }

  function RunTexts(f: Filter, chunks: seq<seq<byte>>, readings: seq<seq<nat>>, cap: nat): (r: seq<seq<byte>>)
    requires RunReading(f, chunks, readings, cap)
    decreases |chunks|
  {
    if chunks == [] || f.overflowed then []
    else
      Texts(f.pending + chunks[0], false, readings[0], cap)
      + RunTexts(Push(f, chunks[0], cap).0, chunks[1..], readings[1..], cap)
  }

  lemma {:induction false} RunReadingExists(f: Filter, chunks: seq<seq<byte>>, cap: nat)
    returns (readings: seq<seq<nat>>)
    ensures RunReading(f, chunks, readings, cap)
    decreases |chunks|
  {
    hide Push, Reading;
    if chunks == [] || f.overflowed {
      readings := [];
    } else {
      var first := ReadingExists(f.pending + chunks[0], false, cap);
      var rest := RunReadingExists(Push(f, chunks[0], cap).0, chunks[1..], cap);
      readings := [first] + rest;
      assert readings[1..] == rest;
    }
  }

  /** Every run, however the output is cut: what it shows and sends is what its pushes' readings say. */
  lemma {:induction false} AnyRunPasses(f: Filter, chunks: seq<seq<byte>>, readings: seq<seq<nat>>, cap: nat)
    requires RunReading(f, chunks, readings, cap)
    ensures Run(f, chunks, cap).1.passthrough == RunPassed(f, chunks, readings, cap)
    ensures Run(f, chunks, cap).1.clipboards == RunTexts(f, chunks, readings, cap)
    decreases |chunks|
  {
    hide Push, Reading, Passed, Texts;
    if chunks != [] && !f.overflowed {
      PushPasses(f, chunks[0], readings[0], cap);
      AnyRunPasses(Push(f, chunks[0], cap).0, chunks[1..], readings[1..], cap);
    } else if f.overflowed {
      OverflowIsFinal(f, chunks, cap);
    }
  }

  /** However a stream is cut safely, its reading as a whole says what passes. */
  lemma RunPasses(chunks: seq<seq<byte>>, lens: seq<nat>, cap: nat)
    requires SafeSplit(chunks) && Reading(Flatten(chunks), false, lens, cap)
    ensures var (f, o) := Run(FRESH, chunks, cap);
            var s := Flatten(chunks);
            && o.passthrough == Passed(s, false, lens, cap) && o.clipboards == Texts(s, false, lens, cap)
            && (!o.overflow ==> f.pending == Rest(s, lens))
  {
    hide Lex, Passed, Texts, Run, Push;
    ChunkingDoesNotMatter(chunks, cap);
    AfterIsLex(Flatten(chunks), cap);
    LexPasses(Flatten(chunks), false, lens, cap);
  }

  // ---- streams with nothing to hide --------------------------------------------------------------

  /** No OSC 52 sequence and no mode report stands at any position. */
  ghost predicate NothingHidden(s: seq<byte>, afterC2: bool, cap: nat) {
    forall i, n: nat :: 0 <= i < |s| ==> !Hidden(s[i..], AfterC2At(s, i, afterC2), n, cap)
  }

  lemma NothingHiddenLater(s: seq<byte>, afterC2: bool, n: nat, cap: nat)
    requires 1 <= n <= |s| && NothingHidden(s, afterC2, cap)
    ensures NothingHidden(s[n..], s[n - 1] == UTF8_C2, cap)
  {
    hide Hidden;
    var t, p := s[n..], s[n - 1] == UTF8_C2;
    forall i, k: nat | 0 <= i < |t| ensures !Hidden(t[i..], AfterC2At(t, i, p), k, cap) {
      assert t[i..] == s[n + i..] && AfterC2At(t, i, p) == AfterC2At(s, n + i, afterC2);
      assert !Hidden(s[n + i..], AfterC2At(s, n + i, afterC2), k, cap);
    }
  }

  lemma {:induction false} AllPasses(s: seq<byte>, afterC2: bool, lens: seq<nat>, cap: nat)
    requires Reading(s, afterC2, lens, cap) && NothingHidden(s, afterC2, cap)
    ensures Passed(s, afterC2, lens, cap) + Rest(s, lens) == s
    decreases |lens|
  {
    hide Hidden, Visible, Ends;
    if lens != [] {
      var n := lens[0];
      assert s[0..] == s && !Hidden(s[0..], AfterC2At(s, 0, afterC2), n, cap);
      NothingHiddenLater(s, afterC2, n, cap);
      AllPasses(s[n..], s[n - 1] == UTF8_C2, lens[1..], cap);
      assert s == s[..n] + s[n..];
      Assoc(s[..n], Passed(s[n..], s[n - 1] == UTF8_C2, lens[1..], cap), Rest(s[n..], lens[1..]));
    }
  }

  /** Where neither stands anywhere, every byte is shown or held; on overflow a proper prefix is shown. */
  lemma NothingIsLost(f: Filter, c: seq<byte>, cap: nat)
    requires !f.overflowed && NothingHidden(f.pending + c, false, cap)
    ensures var (f', o) := Push(f, c, cap);
            if o.overflow then o.passthrough < f.pending + c else o.passthrough + f'.pending == f.pending + c
  {
    hide Lex, Passed, Reading, NothingHidden, Rest;
    var s := f.pending + c;
    var lens := ReadingExists(s, false, cap);
    LexPasses(s, false, lens, cap);
    AllPasses(s, false, lens, cap);
  }
}
