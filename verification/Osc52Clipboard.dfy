/** From a complete OSC 52 candidate to clipboard text, and back. */
module Osc52Clipboard {
  import opened Bytes
  import opened Osc52Grammar
  import Base64
  import Utf8

  /** `52;c;` */
  const SELECTOR: seq<byte> := [0x35, 0x32, 0x3b, 0x63, 0x3b]

  /** Length of the terminator a complete sequence ends in. */
  function TerminatorLength(s: seq<byte>): (r: Option<nat>)
    ensures r.Some? ==> r.value <= |s|
  {
    if |s| >= 1 && s[|s| - 1] == BEL then Some(1)
    else if |s| >= 1 && s[|s| - 1] == C1_ST then Some(1)
    else if |s| >= 2 && s[|s| - 2] == ESC && s[|s| - 1] == BACKSLASH then Some(2)
    else None
  }

  /** The interior of a sequence, from its command digits up to its terminator. */
  function Body(s: seq<byte>): (r: Option<seq<byte>>) {
    if |s| < 4 then None
    else
      var intro :=
        if s[0] == ESC && s[1] == CLOSE_BRACKET then 2
        else if s[0] == C1_OSC then 1
        else 0;
      if intro == 0 then None
      else
        match TerminatorLength(s)
        case None => None
        case Some(n) => if |s| < intro + n then None else Some(s[intro..|s| - n])
  }

  /** The clipboard text (as its UTF-8 bytes) of a complete candidate, if it has any. */
  function Parse(s: seq<byte>): (r: Option<seq<byte>>) {
    match Body(s)
    case None => None
    case Some(body) =>
      if |body| < 5 || body[..5] != SELECTOR then None
      else
        var payload := body[5..];
        if payload == [] then None
        else if exists k :: 0 <= k < |payload| && !Base64.IsAlphabet(payload[k]) then None
        else
          match Base64.Decode(payload)
          case None => None
          case Some(text) =>
            if text == [] || Base64.Encode(text) != payload || !Utf8.Valid(text) then None
            else Some(text)
  }

  const INTRODUCERS: set<seq<byte>> := {[ESC, CLOSE_BRACKET], [C1_OSC]}
  const TERMINATORS: set<seq<byte>> := {[BEL], [C1_ST], [ESC, BACKSLASH]}

  /** The one sequence that sets the clipboard to `text`, for a given introducer and terminator. */
  function Sequence(intro: seq<byte>, text: seq<byte>, term: seq<byte>): (s: seq<byte>) {
    intro + SELECTOR + Base64.Encode(text) + term
  }

  predicate IsClipboardText(text: seq<byte>) {
    text != [] && Utf8.Valid(text)
  }

  lemma BodyOfSequence(intro: seq<byte>, inner: seq<byte>, term: seq<byte>)
    requires intro in INTRODUCERS && term in TERMINATORS && |inner| >= 2
    ensures Body(intro + inner + term) == Some(inner)
  {
    var s := intro + inner + term;
    assert s[..|intro|] == intro && s[|s| - |term|..] == term;
    assert s[0] == intro[0] && s[|s| - 1] == term[|term| - 1];
    assert s[|intro|..|s| - |term|] == inner;
  }

  lemma BodyInverts(s: seq<byte>)
    requires Body(s).Some?
    ensures exists intro, term :: intro in INTRODUCERS && term in TERMINATORS && s == intro + Body(s).value + term
  {
    var n := TerminatorLength(s).value;
    var k := if s[0] == ESC && s[1] == CLOSE_BRACKET then 2 else 1;
    var intro, term := s[..k], s[|s| - n..];
    assert intro == if k == 2 then [ESC, CLOSE_BRACKET] else [C1_OSC];
    assert term == if n == 2 then [ESC, BACKSLASH] else [s[|s| - 1]];
    ThreeParts(s, k, |s| - n);
  }

  /** Every text written in the host grammar is read back exactly. */
  lemma ParseOfSequence(intro: seq<byte>, text: seq<byte>, term: seq<byte>)
    requires intro in INTRODUCERS && term in TERMINATORS && IsClipboardText(text)
    ensures Parse(Sequence(intro, text, term)) == Some(text)
  {
    hide Base64.Decode, Base64.Encode, Utf8.Valid;
    var code := Base64.Encode(text);
    var body := SELECTOR + code;
    assert intro + SELECTOR + code + term == intro + body + term;
    BodyOfSequence(intro, body, term);
    assert body[..5] == SELECTOR && body[5..] == code;
    Base64.DecodeEncode(text);
    Base64.EncodeAlphabet(text);
  }

  lemma ParseInverts(s: seq<byte>, text: seq<byte>)
    requires Parse(s) == Some(text)
    ensures IsClipboardText(text)
    ensures exists intro, term :: intro in INTRODUCERS && term in TERMINATORS && s == Sequence(intro, text, term)
  {
    hide Base64.Decode, Base64.Encode, Utf8.Valid, Base64.IsAlphabet, Body;
    BodyInverts(s);
    var body := Body(s).value;
    var code := Base64.Encode(text);
    assert body == body[..5] + body[5..];
    var intro, term :| intro in INTRODUCERS && term in TERMINATORS && s == intro + body + term;
    Assoc(intro, SELECTOR, code);
    assert s == Sequence(intro, text, term);
  }

  /** A candidate yields `text` exactly when it is a canonical encoding of that text. */
  lemma ParseExact(s: seq<byte>, text: seq<byte>)
    ensures Parse(s) == Some(text) <==>
            IsClipboardText(text) &&
            exists intro, term :: intro in INTRODUCERS && term in TERMINATORS && s == Sequence(intro, text, term)
  {
    hide Parse, Sequence;
    if Parse(s) == Some(text) {
      ParseInverts(s, text);
    }
    if IsClipboardText(text) {
      forall intro, term | intro in INTRODUCERS && term in TERMINATORS && s == Sequence(intro, text, term)
        ensures Parse(s) == Some(text)
      {
        ParseOfSequence(intro, text, term);
      }
    }
  }

  // ---- how the stream scanner meets such a sequence ------------------------

  /** Bytes that can neither end a payload nor start an ST. */
  predicate Inert(b: byte) {
    b != ESC && b != BEL && b != C1_ST
  }

  lemma {:induction false} PayloadSkipsInert(s: seq<byte>, i: nat, j: nat, cap: nat)
    requires 1 <= i <= j <= |s| && j <= cap
    requires forall k :: i <= k < j ==> Inert(s[k])
    ensures Payload(s, i, false, cap) == Payload(s, j, false, cap)
    decreases j - i
  {
    if i < j {
      PayloadSkipsInert(s, i + 1, j, cap);
    }
  }

  lemma CommandReadsSelector(s: seq<byte>, k: nat, cap: nat)
    requires 1 <= k && k + 5 <= |s| && k + 5 <= cap
    requires s[k..k + 5] == SELECTOR
    ensures Command(s, k, k, cap) == Payload(s, k + 3, false, cap)
  {
    assert s[k] == SELECTOR[0] && s[k + 1] == SELECTOR[1] && s[k + 2] == SELECTOR[2];
    assert Command(s, k, k, cap) == Command(s, k, k + 1, cap);
    assert Command(s, k, k + 1, cap) == Command(s, k, k + 2, cap);
    assert s[k..k + 2] == DIGITS_52;
  }

  lemma TerminatorCompletes(s: seq<byte>, j: nat, term: seq<byte>, cap: nat)
    requires term in TERMINATORS
    requires 1 <= j && j + |term| <= |s| && j + |term| <= cap
    requires s[j..j + |term|] == term && s[j - 1] != UTF8_C2
    ensures Payload(s, j, false, cap) == Complete(j + |term|)
  {
    assert s[j] == term[0];
    if |term| == 2 {
      assert s[j + 1] == term[1];
      assert Payload(s, j, false, cap) == Payload(s, j + 1, true, cap);
    }
  }

  lemma SequenceCompletes(intro: seq<byte>, code: seq<byte>, term: seq<byte>, rest: seq<byte>, cap: nat)
    requires intro in INTRODUCERS && term in TERMINATORS && code != []
    requires forall n :: 0 <= n < |code| ==> Base64.IsAlphabet(code[n])
    requires |intro| + 5 + |code| + |term| <= cap
    ensures Command(intro + SELECTOR + code + term + rest, |intro|, |intro|, cap)
            == Complete(|intro| + 5 + |code| + |term|)
  {
    var s := intro + SELECTOR + code + term + rest;
    var k := |intro|;
    var j := k + 5 + |code|;
    assert s[k..k + 5] == SELECTOR;
    CommandReadsSelector(s, k, cap);
    assert s[k + 3] == SELECTOR[3] && s[k + 4] == SELECTOR[4];
    forall n | k + 3 <= n < j ensures Inert(s[n]) {
      if n >= k + 5 {
        assert s[n] == code[n - k - 5];
      }
    }
    PayloadSkipsInert(s, k + 3, j, cap);
    assert s[j - 1] == code[|code| - 1];
    assert s[j..j + |term|] == term;
    TerminatorCompletes(s, j, term, cap);
  }

  /** A whole sequence at the front of a stream is one stripped token, whatever follows it. */
  lemma SequenceIsOneToken(intro: seq<byte>, text: seq<byte>, term: seq<byte>, rest: seq<byte>, cap: nat)
    requires intro in INTRODUCERS && term in TERMINATORS && text != []
    requires |Sequence(intro, text, term)| <= cap
    ensures HeadOf(Sequence(intro, text, term) + rest, false, cap)
            == Take(Clip(Sequence(intro, text, term)), |Sequence(intro, text, term)|)
  {
    hide Base64.Encode, Command;
    var q := Sequence(intro, text, term);
    var s := q + rest;
    Base64.EncodeAlphabet(text);
    SequenceCompletes(intro, Base64.Encode(text), term, rest, cap);
    assert s[..|q|] == q;
    assert s[0] == intro[0] && (|intro| == 2 ==> s[1] == intro[1]);
  }
}
