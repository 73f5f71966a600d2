/** One more byte of an undecided OSC candidate, and the bound on what is held back. */
module Osc52Candidate {
  import opened Bytes
  import opened Osc52Grammar
  import opened Osc52Chunking

  /** Where a candidate `s` in stage `m` stands after the byte `b`. */
  function Extend(s: seq<byte>, k: nat, m: Osc, b: byte, cap: nat): (r: Osc)
    requires m.More? && 1 <= k <= |s|
  {
    if m.inPayload then
      if |s| + 1 > cap then TooLong
      else if m.sawEsc then
        if b == BACKSLASH then Complete(|s| + 1) else More(true, false)
      else if b == BEL then Complete(|s| + 1)
      else if b == C1_ST && s[|s| - 1] != UTF8_C2 then Complete(|s| + 1)
      else More(true, b == ESC)
    else if IsDigit(b) then
      if |s| + 1 > cap then TooLong else More(false, false)
    else if b == SEMICOLON && s[k..] == DIGITS_52 then
      if |s| + 1 > cap then TooLong else More(true, false)
    else NotOsc52(|s| + 1)
  }

  lemma {:induction false} PayloadSnoc(s: seq<byte>, i: nat, sawEsc: bool, b: byte, cap: nat)
    requires 1 <= i <= |s| && Payload(s, i, sawEsc, cap).More?
    ensures Payload(s, i, sawEsc, cap).inPayload
    ensures Payload(s + [b], i, sawEsc, cap) == Extend(s, 1, Payload(s, i, sawEsc, cap), b, cap)
    decreases |s| - i
  {
    var t := s + [b];
    if i < |s| {
      PayloadSnoc(s, i + 1, if sawEsc then false else s[i] == ESC, b, cap);
    } else {
      assert t[i] == b;
      assert i + 1 == |t|;
    }
  }

  lemma {:induction false} CommandSnoc(s: seq<byte>, k: nat, i: nat, b: byte, cap: nat)
    requires 1 <= k <= i <= |s| && Command(s, k, i, cap).More?
    ensures Command(s + [b], k, i, cap) == Extend(s, k, Command(s, k, i, cap), b, cap)
    decreases |s| - i
  {
    var t := s + [b];
    assert t[k..i] == s[k..i];
    if i == |s| {
      assert t[i] == b && i + 1 == |t|;
      assert s[k..i] == s[k..];
    } else if IsDigit(s[i]) {
      CommandSnoc(s, k, i + 1, b, cap);
    } else {
      PayloadSnoc(s, i + 1, false, b, cap);
    }
  }

  // ---- what is held back stays within the cap ------------------------------

  lemma {:induction false} PayloadMoreFits(s: seq<byte>, i: nat, sawEsc: bool, cap: nat)
    requires 1 <= i <= |s| && i <= cap && Payload(s, i, sawEsc, cap).More?
    ensures |s| <= cap
    decreases |s| - i
  {
    if i < |s| {
      PayloadMoreFits(s, i + 1, if sawEsc then false else s[i] == ESC, cap);
    }
  }

  lemma {:induction false} CommandMoreFits(s: seq<byte>, k: nat, i: nat, cap: nat)
    requires 1 <= k <= i <= |s| && i <= cap && Command(s, k, i, cap).More?
    ensures |s| <= cap
    decreases |s| - i
  {
    if i < |s| {
      if IsDigit(s[i]) {
        CommandMoreFits(s, k, i + 1, cap);
      } else {
        PayloadMoreFits(s, i + 1, false, cap);
      }
    }
  }

  /** Length of the introducer a held string starts with; 0 when it is not an OSC candidate. */
  function IntroLength(s: seq<byte>): (k: nat)
    ensures k <= |s|
  {
    if |s| >= 2 && s[0] == ESC && s[1] == CLOSE_BRACKET then 2
    else if |s| >= 1 && s[0] == C1_OSC then 1
    else 0
  }

  lemma HeldFits(s: seq<byte>, afterC2: bool, cap: nat)
    requires s != [] && HeadOf(s, afterC2, cap).Hold? && cap >= REPLY_WINDOW
    ensures |s| <= cap
    ensures IntroLength(s) == 0 ==> |s| < REPLY_WINDOW
    ensures IntroLength(s) > 0 ==> Command(s, IntroLength(s), IntroLength(s), cap).More?
  {
    hide Command;
    if IntroLength(s) > 0 {
      CommandMoreFits(s, IntroLength(s), IntroLength(s), cap);
    }
  }

  /** The byte `b` leaves an undecided candidate undecided (or completes its payload). */
  predicate KeepsByte(held: seq<byte>, b: byte, cap: nat) {
    var k := IntroLength(held);
    k > 0 && (Command(held, k, k, cap) == More(false, false) ==> IsDigit(b))
  }

  /** Overflow is exactly one byte too many for a candidate that would have to keep it. */
  lemma HeldOverflows(s: seq<byte>, b: byte, afterC2: bool, cap: nat)
    requires s != [] && HeadOf(s, afterC2, cap).Hold? && cap >= REPLY_WINDOW
    ensures HeadOf(s + [b], afterC2, cap).Overflow? <==> |s| == cap && KeepsByte(s, b, cap)
  {
    hide Command, ReplyEnd;
    HeldFits(s, afterC2, cap);
    var k := IntroLength(s);
    var t := s + [b];
    assert t[0] == s[0] && (|s| >= 2 ==> t[1] == s[1]);
    if k > 0 {
      CommandSnoc(s, k, k, b, cap);
      CommandModes(s, k, k, cap);
      if s[k..] == DIGITS_52 {
        assert |s| == k + 2;
      }
    } else if t == [ESC, CLOSE_BRACKET] {
      LoneIntroducer(t, cap);
    }
  }

  lemma LoneIntroducer(s: seq<byte>, cap: nat)
    requires s != []
    ensures Command(s, |s|, |s|, cap) == More(false, false)
  {
  }

  lemma {:induction false} CommandModes(s: seq<byte>, k: nat, i: nat, cap: nat)
    requires 1 <= k <= i <= |s| && Command(s, k, i, cap).More?
    ensures !Command(s, k, i, cap).inPayload ==> Command(s, k, i, cap) == More(false, false)
    decreases |s| - i
  {
    if i < |s| {
      if IsDigit(s[i]) {
        CommandModes(s, k, i + 1, cap);
      } else {
        PayloadSnoc(s, i + 1, false, 0, cap);
      }
    }
  }
}
