/**
  A byte-at-a-time reference scanner: an automaton that never looks back or ahead,
  except that a DECRQM query which outgrew its window is given back and read again.
  The filter is shown to do exactly what it does.
*/
module Osc52Reference {
  import opened Bytes
  import opened Osc52Grammar
  import opened Osc52Chunking
  import opened Osc52Candidate
  import opened Osc52Filter

  datatype State =
    | Ground(afterC2: bool)
    | Escape
    | Bracket
    | Query(held: seq<byte>)
    | Osc(held: seq<byte>, digits: seq<byte>)
    | Osc52(held: seq<byte>, sawEsc: bool)
    | Dead

  function Held(st: State): (r: seq<byte>) {
    match st
    case Ground(_) => []
    case Escape => [ESC]
    case Bracket => [ESC, OPEN_BRACKET]
    case Query(h) => h
    case Osc(h, _) => h
    case Osc52(h, _) => h
    case Dead => []
  }

  function FeedGround(afterC2: bool, b: byte): (r: (State, seq<Token>)) {
    if b == ESC then (Escape, [])
    else if b == C1_OSC && !afterC2 then (Osc([b], []), [])
    else (Ground(b == UTF8_C2), [Plain(b)])
  }

  function FeedOsc52(held: seq<byte>, sawEsc: bool, b: byte, cap: nat): (r: (State, seq<Token>)) {
    var h := held + [b];
    if |h| > cap then (Dead, [])
    else if sawEsc then
      if b == BACKSLASH then (Ground(false), [Clip(h)]) else (Osc52(h, false), [])
    else if b == BEL || (b == C1_ST && held != [] && held[|held| - 1] != UTF8_C2) then (Ground(false), [Clip(h)])
    else (Osc52(h, b == ESC), [])
  }

  function FeedOsc(held: seq<byte>, digits: seq<byte>, b: byte, cap: nat): (r: (State, seq<Token>)) {
    var h := held + [b];
    if IsDigit(b) then
      if |h| > cap then (Dead, []) else (Osc(h, digits + [b]), [])
    else if b == SEMICOLON && digits == DIGITS_52 then
      if |h| > cap then (Dead, []) else (Osc52(h, false), [])
    else (Ground(b == UTF8_C2), [Rejected(h)])
  }

  function Feed(st: State, b: byte, cap: nat): (r: (State, seq<Token>))
    ensures |Held(r.0)| <= |Held(st)| + 1
    decreases |Held(st)| + 1, 0
  {
    match st
    case Ground(p) => FeedGround(p, b)
    case Escape =>
      if b == CLOSE_BRACKET then (Osc([ESC, b], []), [])
      else if b == OPEN_BRACKET then (Bracket, [])
      else
        var (st', ts) := FeedGround(false, b);
        (st', [Plain(ESC)] + ts)
    case Bracket =>
      if b == QUESTION then (Query([ESC, OPEN_BRACKET, b]), [])
      else
        var (st', ts) := FeedGround(false, b);
        (st', [Plain(ESC), Plain(OPEN_BRACKET)] + ts)
    case Query(held) =>
      var h := held + [b];
      if |h| >= 5 && h[|h| - 2..] == [DOLLAR, LOWER_Y] then (Ground(false), [Reply(h)])
      else if |h| < REPLY_WINDOW then (Query(h), [])
      else
        var (st', ts) := FeedAll(Ground(false), h[1..], cap);
        (st', [Plain(ESC)] + ts)
    case Osc(held, digits) => FeedOsc(held, digits, b, cap)
    case Osc52(held, sawEsc) => FeedOsc52(held, sawEsc, b, cap)
    case Dead => (Dead, [])
  }

  function FeedAll(st: State, s: seq<byte>, cap: nat): (r: (State, seq<Token>))
    ensures |Held(r.0)| <= |Held(st)| + |s|
    decreases |Held(st)| + |s|, 1 + |s|
  {
    if s == [] then (st, [])
    else
      var (st1, ts1) := FeedAll(st, s[..|s| - 1], cap);
      var (st2, ts2) := Feed(st1, s[|s| - 1], cap);
      (st2, ts1 + ts2)
  }

  // ---- the automaton reads the grammar -------------------------------------

  /** The automaton state `st` stands for the undecided suffix `p`. */
  predicate StandsFor(st: State, p: seq<byte>, afterC2: bool, cap: nat) {
    Held(st) == p &&
    match st
    case Ground(c) => c == afterC2
    case Escape => true
    case Bracket => true
    case Query(h) => 3 <= |h| < REPLY_WINDOW && h[..3] == [ESC, OPEN_BRACKET, QUESTION] && ReplyEnd(h, 3).None?
    case Osc(h, d) => StandsForOsc(h, afterC2, More(false, false), cap) && h[IntroLength(h)..] == d
    case Osc52(h, e) => StandsForOsc(h, afterC2, More(true, e), cap)
    case Dead => false
  }

  predicate StandsForOsc(h: seq<byte>, afterC2: bool, m: Osc, cap: nat) {
    var k := IntroLength(h);
    k > 0 && (k == 1 ==> !afterC2) && Command(h, k, k, cap) == m
  }

  /** `fed` is what the automaton did where the grammar gives the scan `r`. */
  predicate Agrees(fed: (State, seq<Token>), r: Scan, s: seq<byte>, afterC2: bool, cap: nat) {
    && fed.1 == r.tokens
    && (r.overflowed ==> fed.0 == Dead)
    && (!r.overflowed ==>
          |r.pending| <= |s| && StandsFor(fed.0, r.pending, AfterC2At(s, |s| - |r.pending|, afterC2), cap))
  }

  lemma AgreesAfterToken(t: Token, n: nat, fed: (State, seq<Token>), s: seq<byte>, afterC2: bool, cap: nat)
    requires s != [] && HeadOf(s, afterC2, cap) == Take(t, n)
    requires Agrees(fed, Lex(s[n..], s[n - 1] == UTF8_C2, cap), s[n..], s[n - 1] == UTF8_C2, cap)
    ensures Agrees((fed.0, [t] + fed.1), Lex(s, afterC2, cap), s, afterC2, cap)
  {
    hide HeadOf, Lex, StandsFor;
    LexTake(s, afterC2, cap);
    var r := Lex(s[n..], s[n - 1] == UTF8_C2, cap);
    if !r.overflowed {
      AfterC2Shift(s, n, |s| - n - |r.pending|, afterC2);
    }
  }

  lemma GroundAgrees(b: byte, afterC2: bool, cap: nat)
    ensures Agrees(FeedGround(afterC2, b), Lex([b], afterC2, cap), [b], afterC2, cap)
  {
    if b == C1_OSC && !afterC2 {
      LoneIntroducer([b], cap);
    }
    assert [b][1..] == [];
    assert Lex([], b == UTF8_C2, cap) == Scan([], [], false);
  }

  lemma EscapeAgrees(b: byte, afterC2: bool, cap: nat)
    ensures Agrees(Feed(Escape, b, cap), Lex([ESC, b], afterC2, cap), [ESC, b], afterC2, cap)
  {
    var s := [ESC, b];
    if b == CLOSE_BRACKET {
      LoneIntroducer(s, cap);
    } else if b != OPEN_BRACKET {
      assert s[1..] == [b];
      GroundAgrees(b, false, cap);
      AgreesAfterToken(Plain(ESC), 1, FeedGround(false, b), s, afterC2, cap);
    }
  }

  lemma BracketAgrees(b: byte, afterC2: bool, cap: nat)
    ensures Agrees(Feed(Bracket, b, cap), Lex([ESC, OPEN_BRACKET, b], afterC2, cap),
                   [ESC, OPEN_BRACKET, b], afterC2, cap)
  {
    hide Lex, Agrees, FeedGround;
    var s := [ESC, OPEN_BRACKET, b];
    if b == QUESTION {
      assert ReplyEnd(s, 3).None?;
      HoldAgrees(Query(s), s, afterC2, cap);
    } else {
      var fed := FeedGround(false, b);
      var inner := [OPEN_BRACKET, b];
      assert s[1..] == inner && inner[1..] == [b];
      GroundAgrees(b, false, cap);
      AgreesAfterToken(Plain(OPEN_BRACKET), 1, fed, inner, false, cap);
      AgreesAfterToken(Plain(ESC), 1, (fed.0, [Plain(OPEN_BRACKET)] + fed.1), s, afterC2, cap);
      assert [Plain(ESC), Plain(OPEN_BRACKET)] + fed.1 == [Plain(ESC)] + ([Plain(OPEN_BRACKET)] + fed.1);
    }
  }

  lemma {:induction false} ReplySnoc(h: seq<byte>, i: nat, b: byte)
    requires 3 <= i && |h| < REPLY_WINDOW && ReplyEnd(h, i).None?
    ensures ReplyEnd(h + [b], i) ==
            if |h| >= i + 1 && h[|h| - 1] == DOLLAR && b == LOWER_Y then Some(|h| + 1) else None
    decreases |h| - i
  {
    var t := h + [b];
    if i + 1 < |h| {
      ReplySnoc(h, i + 1, b);
    }
  }

  /** A token that uses up the whole string leaves the automaton on the ground. */
  lemma LastTokenAgrees(t: Token, s: seq<byte>, afterC2: bool, cap: nat)
    requires s != [] && HeadOf(s, afterC2, cap) == Take(t, |s|)
    ensures Agrees((Ground(s[|s| - 1] == UTF8_C2), [t]), Lex(s, afterC2, cap), s, afterC2, cap)
  {
    hide HeadOf;
    var c := s[|s| - 1] == UTF8_C2;
    assert s[|s|..] == [];
    EmptyAgrees(c, cap);
    AgreesAfterToken(t, |s|, (Ground(c), []), s, afterC2, cap);
    assert [t] + [] == [t];
  }

  /** A string that is held back as it stands. */
  lemma HoldAgrees(st: State, s: seq<byte>, afterC2: bool, cap: nat)
    requires s != [] && HeadOf(s, afterC2, cap).Hold? && StandsFor(st, s, afterC2, cap)
    ensures Agrees((st, []), Lex(s, afterC2, cap), s, afterC2, cap)
  {
    hide HeadOf, StandsFor;
  }

  lemma QueryHead(h: seq<byte>, b: byte, afterC2: bool, cap: nat)
    requires StandsFor(Query(h), h, afterC2, cap)
    ensures var t := h + [b];
            && t[..3] == [ESC, OPEN_BRACKET, QUESTION]
            && HeadOf(t, afterC2, cap) ==
               (if |t| >= 5 && t[|t| - 2..] == [DOLLAR, LOWER_Y] then Take(Reply(t), |t|)
                else if |t| < REPLY_WINDOW then Hold
                else Take(Plain(ESC), 1))
            && (HeadOf(t, afterC2, cap).Hold? ==> ReplyEnd(t, 3).None?)
  {
    hide ReplyEnd, OscHead;
    var t := h + [b];
    assert t[..3] == h[..3];
    assert t[0] == h[..3][0] && t[1] == h[..3][1] && t[2] == h[..3][2];
    ReplySnoc(h, 3, b);
    assert t[|t| - 2..] == [h[|h| - 1], b];
    assert t[..|t|] == t;
  }

  lemma QueryAgrees(h: seq<byte>, b: byte, afterC2: bool, cap: nat)
    requires StandsFor(Query(h), h, afterC2, cap)
    requires |h| + 1 == REPLY_WINDOW ==>
               var s := (h + [b])[1..]; Agrees(FeedAll(Ground(false), s, cap), Lex(s, false, cap), s, false, cap)
    ensures Agrees(Feed(Query(h), b, cap), Lex(h + [b], afterC2, cap), h + [b], afterC2, cap)
  {
    hide FeedAll, Lex, HeadOf, ReplyEnd, Agrees;
    var t := h + [b];
    QueryHead(h, b, afterC2, cap);
    assert t[|t| - 1] == b && t[0] == t[..3][0];
    match HeadOf(t, afterC2, cap)
    case Hold => HoldAgrees(Query(t), t, afterC2, cap);
    case Take(tok, n) =>
      if tok.Reply? {
        assert b == t[|t| - 2..][1];
        LastTokenAgrees(tok, t, afterC2, cap);
      } else {
        AgreesAfterToken(tok, 1, FeedAll(Ground(false), t[1..], cap), t, afterC2, cap);
      }
  }

  lemma OscAgrees(st: State, b: byte, afterC2: bool, cap: nat)
    requires (st.Osc? || st.Osc52?) && StandsFor(st, st.held, afterC2, cap)
    ensures Agrees(Feed(st, b, cap), Lex(st.held + [b], afterC2, cap), st.held + [b], afterC2, cap)
  {
    hide Command, Lex, HeadOf, Agrees, StandsFor;
    var t := st.held + [b];
    OscFeeds(st, b, afterC2, cap);
    match HeadOf(t, afterC2, cap)
    case Hold => HoldAgrees(Feed(st, b, cap).0, t, afterC2, cap);
    case Overflow => OverflowAgrees(t, afterC2, cap);
    case Take(tok, n) => LastTokenAgrees(tok, t, afterC2, cap);
  }

  lemma OscFeeds(st: State, b: byte, afterC2: bool, cap: nat)
    requires (st.Osc? || st.Osc52?) && StandsFor(st, st.held, afterC2, cap)
    ensures var t := st.held + [b];
            match HeadOf(t, afterC2, cap)
            case Hold => Feed(st, b, cap).1 == [] && StandsFor(Feed(st, b, cap).0, t, afterC2, cap)
            case Overflow => Feed(st, b, cap) == (Dead, [])
            case Take(tok, n) => n == |t| && Feed(st, b, cap) == (Ground(t[|t| - 1] == UTF8_C2), [tok])
  {
    hide Command, HeadOf, ReplyEnd;
    var h := st.held;
    var t := h + [b];
    var k := IntroLength(h);
    CommandSnoc(h, k, k, b, cap);
    OscHeadOf(h, b, afterC2, cap);
    DropSnoc(h, b, k);
    assert t[..|t|] == t && t[|t| - 1] == b;
  }

  lemma OscHeadOf(h: seq<byte>, b: byte, afterC2: bool, cap: nat)
    requires IntroLength(h) > 0 && (IntroLength(h) == 1 ==> !afterC2)
    ensures IntroLength(h + [b]) == IntroLength(h)
    ensures HeadOf(h + [b], afterC2, cap) == OscHead(h + [b], IntroLength(h), cap)
  {
    hide OscHead;
    assert (h + [b])[0] == h[0] && (|h| >= 2 ==> (h + [b])[1] == h[1]);
  }

  lemma OverflowAgrees(s: seq<byte>, afterC2: bool, cap: nat)
    requires s != [] && HeadOf(s, afterC2, cap).Overflow?
    ensures Agrees((Dead, []), Lex(s, afterC2, cap), s, afterC2, cap)
  {
    hide HeadOf;
  }

  lemma {:induction false} FeedAgrees(st: State, p: seq<byte>, b: byte, afterC2: bool, cap: nat)
    requires StandsFor(st, p, afterC2, cap)
    ensures Agrees(Feed(st, b, cap), Lex(p + [b], afterC2, cap), p + [b], afterC2, cap)
    decreases |p| + 1, 0
  {
    hide Lex, FeedAll, Agrees;
    match st
    case Ground(_) =>
      assert p + [b] == [b];
      GroundAgrees(b, afterC2, cap);
    case Escape =>
      assert p + [b] == [ESC, b];
      EscapeAgrees(b, afterC2, cap);
    case Bracket =>
      assert p + [b] == [ESC, OPEN_BRACKET, b];
      BracketAgrees(b, afterC2, cap);
    case Query(h) =>
      if |h| + 1 == REPLY_WINDOW {
        ReferenceReadsGrammar((h + [b])[1..], false, cap);
      }
      QueryAgrees(h, b, afterC2, cap);
    case Osc(_, _) => OscAgrees(st, b, afterC2, cap);
    case Osc52(_, _) => OscAgrees(st, b, afterC2, cap);
  }

  /** The automaton, fed any string, does what the grammar says of it. */
  lemma {:induction false} ReferenceReadsGrammar(s: seq<byte>, afterC2: bool, cap: nat)
    ensures Agrees(FeedAll(Ground(afterC2), s, cap), Lex(s, afterC2, cap), s, afterC2, cap)
    decreases |s|, 2
  {
    hide Lex, Feed, StandsFor;
    if s == [] {
      EmptyAgrees(afterC2, cap);
    } else {
      var a, b := s[..|s| - 1], s[|s| - 1];
      assert s == a + [b];
      var ra := Lex(a, afterC2, cap);
      var fed := FeedAll(Ground(afterC2), a, cap);
      ReferenceReadsGrammar(a, afterC2, cap);
      LexSplit(a, [b], afterC2, cap, ra);
      PendingIsHeld(a, afterC2, cap, ra);
      if ra.overflowed {
        DeadStays(b, cap);
        assert fed.1 + [] == fed.1;
      } else {
        StepAgrees(a, b, afterC2, cap, ra, fed);
      }
    }
  }

  lemma EmptyAgrees(afterC2: bool, cap: nat)
    ensures Agrees((Ground(afterC2), []), Lex([], afterC2, cap), [], afterC2, cap)
  {
  }

  lemma DeadStays(b: byte, cap: nat)
    ensures Feed(Dead, b, cap) == (Dead, [])
  {
  }

  lemma {:induction false} StepAgrees(a: seq<byte>, b: byte, afterC2: bool, cap: nat, ra: Scan,
                                      fed: (State, seq<Token>))
    requires ra == Lex(a, afterC2, cap) && !ra.overflowed
    requires Agrees(fed, ra, a, afterC2, cap)
    requires |ra.pending| <= |a| && ra.pending == a[|a| - |ra.pending|..]
    ensures var (st, ts) := Feed(fed.0, b, cap);
            Agrees((st, fed.1 + ts), Lex(a + [b], afterC2, cap), a + [b], afterC2, cap)
    decreases |a| + 1, 1
  {
    hide Lex, Feed, StandsFor;
    LexSplit(a, [b], afterC2, cap, ra);
    var q := AfterC2At(a, |a| - |ra.pending|, afterC2);
    FeedAgrees(fed.0, ra.pending, b, q, cap);
    var p := ra.pending + [b];
    var r := Lex(p, q, cap);
    if !r.overflowed {
      var s := a + [b];
      var n := |a| - |ra.pending|;
      if n > 0 {
        assert s[n..] == p && s[n - 1] == a[n - 1];
        AfterC2Shift(s, n, |p| - |r.pending|, afterC2);
      } else {
        assert s == p;
      }
    }
  }

  /** Safely cut, the filter's output and final state are those of the reference scanner. */
  lemma FilterRefinesReference(chunks: seq<seq<byte>>, cap: nat)
    requires SafeSplit(chunks)
    ensures var (st, ts) := FeedAll(Ground(false), Flatten(chunks), cap);
            Run(FRESH, chunks, cap) == (Filter(Held(st), st.Dead?), Output(AllShown(ts), AllClips(ts), st.Dead?))
  {
    hide FeedAll, Lex, Run;
    var s := Flatten(chunks);
    ChunkingDoesNotMatter(chunks, cap);
    AfterIsLex(s, cap);
    ReferenceReadsGrammar(s, false, cap);
  }
}
