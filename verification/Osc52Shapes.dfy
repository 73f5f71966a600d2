/** The tokens of the output stream by the bytes they are made of, and that a stream breaks up in one way only. */
module Osc52Shapes {
  import opened Bytes
  import opened Osc52Grammar

  // ---- an OSC 52 payload --------------------------------------------------------------------------

  /** The byte at `i` follows an ESC that is not itself taken up by an ESC before it. */
  predicate Escaped(s: seq<byte>, from: nat, i: nat)
    requires i <= |s|
    decreases i
  {
    i > from && s[i - 1] == ESC && !Escaped(s, from, i - 1)
  }

  /** The byte at `i` ends the payload that starts at `from`: BEL, a lone ST, or the second half of ESC \. */
  predicate EndsAt(s: seq<byte>, from: nat, i: nat)
    requires 1 <= from <= i < |s|
  {
    if Escaped(s, from, i) then s[i] == BACKSLASH else s[i] == BEL || (s[i] == C1_ST && s[i - 1] != UTF8_C2)
  }

  predicate Unended(s: seq<byte>, from: nat, to: nat)
    requires 1 <= from && to <= |s|
  {
    forall i :: from <= i < to ==> !EndsAt(s, from, i)
  }

  /** Command `52;` behind an introducer of `k` bytes. */
  predicate OpensPayload(s: seq<byte>, k: nat) {
    k + 3 <= |s| && s[k..k + 2] == DIGITS_52 && s[k + 2] == SEMICOLON
  }

  predicate Digit(b: byte) {
    '0' <= b as char <= '9'
  }

  predicate AllDigits(s: seq<byte>, k: nat, i: nat)
    requires i <= |s|
  {
    forall j :: k <= j < i ==> Digit(s[j])
  }

  // ---- the shapes ---------------------------------------------------------------------------------

  /** Length of the introducer at the front, 0 if there is none. */
  function Intro(s: seq<byte>, afterC2: bool): (k: nat)
    ensures k <= |s|
  {
    if |s| >= 2 && s[0] == ESC && s[1] == CLOSE_BRACKET then 2
    else if |s| >= 1 && s[0] == C1_OSC && !afterC2 then 1
    else 0
  }

  /** The first `e` bytes are a whole OSC 52 candidate: the payload ends there and not before, within the cap. */
  predicate ClipShape(s: seq<byte>, k: nat, e: nat, cap: nat) {
    && 1 <= k && OpensPayload(s, k) && k + 3 < e <= |s| && e <= cap
    && EndsAt(s, k + 3, e - 1) && Unended(s, k + 3, e - 1)
  }

  /** The first `e` bytes are an OSC of another command: digits within the cap and the byte that decides it. */
  predicate RejectedShape(s: seq<byte>, k: nat, e: nat, cap: nat) {
    && 1 <= k < e <= |s| && AllDigits(s, k, e - 1) && !Digit(s[e - 1])
    && !(s[e - 1] == SEMICOLON && s[k..e - 1] == DIGITS_52)
    && (e - 1 == k || e - 1 <= cap)
  }

  predicate ReplyStart(s: seq<byte>) {
    |s| >= 3 && s[0] == ESC && s[1] == OPEN_BRACKET && s[2] == QUESTION
  }

  /** No `$y` starts between 3 and `to`. */
  predicate NoReply(s: seq<byte>, to: nat)
    requires to < |s| || to <= 3
  {
    forall i :: 3 <= i < to ==> !(s[i] == DOLLAR && s[i + 1] == LOWER_Y)
  }

  /** The first `e` bytes are a mode report: up to its first `$y`, within the window. */
  predicate ReplyShape(s: seq<byte>, e: nat) {
    && ReplyStart(s) && 5 <= e <= |s| && e <= REPLY_WINDOW
    && s[e - 2] == DOLLAR && s[e - 1] == LOWER_Y && NoReply(s, e - 2)
  }

  /** A report would have to end later than there is input or window for. */
  predicate NoReplyYet(s: seq<byte>) {
    ReplyStart(s) && NoReply(s, if |s| < REPLY_WINDOW then |s| - 1 else REPLY_WINDOW - 1)
  }

  /** The first byte stands for itself. */
  predicate PlainShape(s: seq<byte>, afterC2: bool) {
    && s != [] && Intro(s, afterC2) == 0
    && (s[0] == ESC ==> |s| >= 2)
    && (s[0] == ESC && s[1] == OPEN_BRACKET ==> |s| >= 3)
    && (s[0] == ESC && s[1] == OPEN_BRACKET && s[2] == QUESTION ==> |s| >= REPLY_WINDOW && NoReplyYet(s))
  }

  /** The token `t` stands at the front of `s`. */
  predicate Stands(s: seq<byte>, afterC2: bool, t: Token, cap: nat) {
    && TokenBytes(t) <= s
    && match t
       case Clip(r) => ClipShape(s, Intro(s, afterC2), |r|, cap)
       case Rejected(r) => RejectedShape(s, Intro(s, afterC2), |r|, cap)
       case Reply(r) => ReplyShape(s, |r|)
       case Plain(_) => PlainShape(s, afterC2)
  }

  /** A candidate that is not over after `cap` bytes and goes on. */
  predicate Overlong(s: seq<byte>, k: nat, cap: nat) {
    && 1 <= k <= |s|
    && var last := if k < cap then cap else k;
       (|| (last < |s| && AllDigits(s, k, last + 1))
        || (OpensPayload(s, k) && k + 3 > cap)
        || (OpensPayload(s, k) && k + 3 <= cap < |s| && Unended(s, k + 3, cap)))
  }

  /** More input could still make a token of all of `s`. */
  predicate Undecided(s: seq<byte>, afterC2: bool, cap: nat) {
    var k := Intro(s, afterC2);
    || s == [ESC] || s == [ESC, OPEN_BRACKET]
    || (NoReplyYet(s) && |s| < REPLY_WINDOW)
    || (k > 0 && AllDigits(s, k, |s|) && (|s| == k || |s| <= cap))
    || (k > 0 && OpensPayload(s, k) && |s| <= cap && Unended(s, k + 3, |s|))
  }

  // ---- what the scanner finds is what has the shape -----------------------------------------------

  lemma {:induction false} PayloadIs(s: seq<byte>, from: nat, i: nat, sawEsc: bool, cap: nat)
    requires 1 <= from <= i <= |s| && i <= cap && sawEsc == Escaped(s, from, i) && Unended(s, from, i)
    ensures match Payload(s, i, sawEsc, cap)
            case More(inPayload, _) => inPayload && |s| <= cap && Unended(s, from, |s|)
            case TooLong => |s| > cap && Unended(s, from, cap)
            case Complete(e) => from < e <= cap && e <= |s| && EndsAt(s, from, e - 1) && Unended(s, from, e - 1)
            case NotOsc52(_) => false
    decreases |s| - i
  {
    if i < |s| && i < cap && !EndsAt(s, from, i) {
      PayloadIs(s, from, i + 1, Escaped(s, from, i + 1), cap);
    }
  }

  lemma {:induction false} CommandIs(s: seq<byte>, k: nat, i: nat, cap: nat)
    requires 1 <= k <= i <= |s| && AllDigits(s, k, i) && (i == k || i <= cap)
    ensures match Command(s, k, i, cap)
            case More(inPayload, _) =>
              if inPayload then OpensPayload(s, k) && |s| <= cap && Unended(s, k + 3, |s|)
              else AllDigits(s, k, |s|) && (|s| == k || |s| <= cap)
            case TooLong => Overlong(s, k, cap)
            case NotOsc52(e) => RejectedShape(s, k, e, cap)
            case Complete(e) => ClipShape(s, k, e, cap)
    decreases |s| - i
  {
    if i < |s| {
      if Digit(s[i]) {
        if i + 1 <= cap {
          CommandIs(s, k, i + 1, cap);
        } else {
          assert AllDigits(s, k, i + 1);
        }
      } else if s[i] == SEMICOLON && s[k..i] == DIGITS_52 {
        assert |s[k..i]| == 2 && OpensPayload(s, k);
        if i + 1 <= cap {
          PayloadIs(s, i + 1, i + 1, false, cap);
        }
      }
    }
  }

  lemma {:induction false} ReplyIs(s: seq<byte>, i: nat)
    requires ReplyStart(s) && 3 <= i && (i < |s| || i == 3) && i < REPLY_WINDOW && NoReply(s, i)
    ensures match ReplyEnd(s, i)
            case Some(e) => ReplyShape(s, e)
            case None => NoReplyYet(s)
    decreases |s| - i
  {
    if i + 1 < |s| && i + 1 < REPLY_WINDOW && !(s[i] == DOLLAR && s[i + 1] == LOWER_Y) {
      ReplyIs(s, i + 1);
    }
  }

  // ---- at most one shape fits -------------------------------------------------------------------------

  lemma FirstEnd(s: seq<byte>, from: nat, i: nat, j: nat)
    requires 1 <= from <= i < |s| && from <= j < |s|
    requires EndsAt(s, from, i) && Unended(s, from, i) && EndsAt(s, from, j) && Unended(s, from, j)
    ensures i == j
  {
  }

  /** Where the command digits stop is decided by the bytes. */
  lemma DigitsStop(s: seq<byte>, k: nat, i: nat, j: nat)
    requires k <= i < |s| && AllDigits(s, k, i) && !Digit(s[i])
    requires k <= j < |s| && AllDigits(s, k, j) && !Digit(s[j])
    ensures i == j
  {
  }

  lemma OpenStops(s: seq<byte>, k: nat)
    requires OpensPayload(s, k)
    ensures AllDigits(s, k, k + 2) && !Digit(s[k + 2]) && s[k..k + 2] == DIGITS_52
  {
    assert s[k] == s[k..k + 2][0] && s[k + 1] == s[k..k + 2][1];
  }

  lemma ClipIsFound(s: seq<byte>, k: nat, e: nat, cap: nat)
    requires ClipShape(s, k, e, cap)
    ensures Command(s, k, k, cap) == Complete(e)
  {
    hide Command, EndsAt;
    CommandIs(s, k, k, cap);
    OpenStops(s, k);
    match Command(s, k, k, cap)
    case Complete(x) => FirstEnd(s, k + 3, e - 1, x - 1);
    case _ => assert false;
  }

  lemma RejectedIsFound(s: seq<byte>, k: nat, e: nat, cap: nat)
    requires RejectedShape(s, k, e, cap)
    ensures Command(s, k, k, cap) == NotOsc52(e)
  {
    hide Command, EndsAt, Unended;
    CommandIs(s, k, k, cap);
    assert !OpensPayload(s, k) by {
      if OpensPayload(s, k) {
        OpenStops(s, k);
        DigitsStop(s, k, k + 2, e - 1);
      }
    }
    match Command(s, k, k, cap)
    case NotOsc52(x) => DigitsStop(s, k, x - 1, e - 1);
    case _ => assert false;
  }

  lemma ReplyIsFound(s: seq<byte>, e: nat)
    requires ReplyShape(s, e)
    ensures ReplyEnd(s, 3) == Some(e)
  {
    hide ReplyEnd;
    ReplyIs(s, 3);
    assert s[e - 2] == DOLLAR && s[e - 2 + 1] == LOWER_Y;
    match ReplyEnd(s, 3)
    case Some(x) => assert s[x - 2] == DOLLAR && s[x - 2 + 1] == LOWER_Y;
    case None => assert false;
  }

  /** The scanner takes a token exactly when the token has its shape at the front. */
  lemma TakenStands(s: seq<byte>, afterC2: bool, t: Token, cap: nat)
    requires s != []
    ensures HeadOf(s, afterC2, cap) == Take(t, |TokenBytes(t)|) ==> Stands(s, afterC2, t, cap)
  {
    hide Command, ReplyEnd, ClipShape, RejectedShape, NoReply;
    var k := Intro(s, afterC2);
    if k > 0 {
      CommandIs(s, k, k, cap);
    } else if ReplyStart(s) {
      ReplyIs(s, 3);
    }
  }

  lemma StandingIsTaken(s: seq<byte>, afterC2: bool, t: Token, cap: nat)
    requires s != [] && Stands(s, afterC2, t, cap)
    ensures HeadOf(s, afterC2, cap) == Take(t, |TokenBytes(t)|)
  {
    hide Command, ReplyEnd, EndsAt, Unended, AllDigits, NoReply;
    var k := Intro(s, afterC2);
    match t
    case Clip(r) =>
      ClipIsFound(s, k, |r|, cap);
    case Rejected(r) =>
      RejectedIsFound(s, k, |r|, cap);
    case Reply(r) =>
      ReplyIsFound(s, |r|);
    case Plain(b) =>
      if ReplyStart(s) {
        ReplyNotFound(s);
      }
  }

  lemma ReplyNotFound(s: seq<byte>)
    requires NoReplyYet(s)
    ensures ReplyEnd(s, 3).None?
  {
    hide ReplyEnd;
    ReplyIs(s, 3);
    match ReplyEnd(s, 3)
    case Some(x) => assert false;
    case None =>
  }

  /** It gives up exactly on an overlong candidate. */
  lemma OverlongIsFound(s: seq<byte>, k: nat, cap: nat)
    requires Overlong(s, k, cap)
    ensures Command(s, k, k, cap).TooLong?
  {
    hide Command, EndsAt;
    CommandIs(s, k, k, cap);
    if OpensPayload(s, k) {
      OpenStops(s, k);
    }
    match Command(s, k, k, cap)
    case TooLong =>
    case _ => assert false;
  }

  lemma GivesUpExactly(s: seq<byte>, afterC2: bool, cap: nat)
    requires s != []
    ensures HeadOf(s, afterC2, cap).Overflow? <==> Intro(s, afterC2) > 0 && Overlong(s, Intro(s, afterC2), cap)
  {
    hide Command, ReplyEnd, Overlong;
    var k := Intro(s, afterC2);
    if k > 0 {
      CommandIs(s, k, k, cap);
      if Overlong(s, k, cap) {
        OverlongIsFound(s, k, cap);
      }
    }
  }

  /** And it waits exactly on an undecided string. */
  lemma WaitsExactly(s: seq<byte>, afterC2: bool, cap: nat)
    requires s != []
    ensures HeadOf(s, afterC2, cap).Hold? <==> Undecided(s, afterC2, cap)
  {
    hide Command, ReplyEnd, EndsAt, NoReply;
    var k := Intro(s, afterC2);
    if k > 0 {
      CommandIs(s, k, k, cap);
      if Undecided(s, afterC2, cap) {
        UndecidedIsFound(s, afterC2, cap);
      }
    } else if ReplyStart(s) {
      ReplyIs(s, 3);
      if NoReplyYet(s) {
        ReplyNotFound(s);
      }
    }
  }

  lemma UndecidedIsFound(s: seq<byte>, afterC2: bool, cap: nat)
    requires Intro(s, afterC2) > 0 && Undecided(s, afterC2, cap)
    ensures Command(s, Intro(s, afterC2), Intro(s, afterC2), cap).More?
  {
    hide Command, EndsAt;
    var k := Intro(s, afterC2);
    CommandIs(s, k, k, cap);
    if OpensPayload(s, k) {
      OpenStops(s, k);
    }
    match Command(s, k, k, cap)
    case More(_, _) =>
    case _ => assert false;
  }

  // ---- one way only to break a stream up ------------------------------------------------------------

  /**
    A way to break up `s`: each token has its shape at the front of what the tokens before it left,
    and at the end there is nothing left, an undecided suffix, or an overlong candidate.
  */
  predicate BreaksUp(s: seq<byte>, afterC2: bool, r: Scan, cap: nat)
    decreases |r.tokens|
  {
    if r.tokens == [] then
      if s == [] then r.pending == [] && !r.overflowed
      else if r.overflowed then r.pending == [] && Intro(s, afterC2) > 0 && Overlong(s, Intro(s, afterC2), cap)
      else r.pending == s && Undecided(s, afterC2, cap)
    else
      var n := |TokenBytes(r.tokens[0])|;
      && 1 <= n <= |s| && Stands(s, afterC2, r.tokens[0], cap)
      && BreaksUp(s[n..], s[n - 1] == UTF8_C2, Scan(r.tokens[1..], r.pending, r.overflowed), cap)
  }

  lemma StandsExactly(s: seq<byte>, afterC2: bool, t: Token, cap: nat)
    requires s != []
    ensures Stands(s, afterC2, t, cap) <==> HeadOf(s, afterC2, cap) == Take(t, |TokenBytes(t)|)
  {
    hide Stands, HeadOf;
    TakenStands(s, afterC2, t, cap);
    if Stands(s, afterC2, t, cap) {
      StandingIsTaken(s, afterC2, t, cap);
    }
  }

  /** Every stream breaks up, and in one way only: that of the filter. */
  lemma {:induction false} BreaksUpOneWay(s: seq<byte>, afterC2: bool, r: Scan, cap: nat)
    ensures BreaksUp(s, afterC2, r, cap) <==> r == Lex(s, afterC2, cap)
    decreases |s|
  {
    hide HeadOf, Lex, Stands, Overlong, Undecided, Intro;
    if s != [] {
      GivesUpExactly(s, afterC2, cap);
      WaitsExactly(s, afterC2, cap);
      if r.tokens != [] {
        StandsExactly(s, afterC2, r.tokens[0], cap);
      }
    }
    if s == [] || !HeadOf(s, afterC2, cap).Take? {
      LexStops(s, afterC2, cap);
    } else {
      var Take(t, n) := HeadOf(s, afterC2, cap);
      var p := s[n - 1] == UTF8_C2;
      assert TokenBytes(t) == s[..n];
      LexTake(s, afterC2, cap);
      if r.tokens != [] {
        var rest := Scan(r.tokens[1..], r.pending, r.overflowed);
        BreaksUpOneWay(s[n..], p, rest, cap);
        assert r.tokens == [r.tokens[0]] + rest.tokens;
        assert ([t] + Lex(s[n..], p, cap).tokens)[1..] == Lex(s[n..], p, cap).tokens;
      }
    }
  }
}
