/** A token is decided by the bytes it needs: more input never changes it. */
module Osc52Chunking {
  import opened Bytes
  import opened Osc52Grammar

  lemma {:induction false} PayloadLocal(s: seq<byte>, t: seq<byte>, i: nat, sawEsc: bool, cap: nat)
    requires 1 <= i <= |s|
    requires !Payload(s, i, sawEsc, cap).More?
    ensures Payload(s + t, i, sawEsc, cap) == Payload(s, i, sawEsc, cap)
    decreases |s| - i
  {
    if i + 1 <= cap {
      if sawEsc {
        if s[i] != BACKSLASH { PayloadLocal(s, t, i + 1, false, cap); }
      } else if s[i] != BEL && !(s[i] == C1_ST && s[i - 1] != UTF8_C2) {
        PayloadLocal(s, t, i + 1, s[i] == ESC, cap);
      }
    }
  }

  lemma {:induction false} CommandLocal(s: seq<byte>, t: seq<byte>, k: nat, i: nat, cap: nat)
    requires 1 <= k <= i <= |s|
    requires !Command(s, k, i, cap).More?
    ensures Command(s + t, k, i, cap) == Command(s, k, i, cap)
    decreases |s| - i
  {
    assert (s + t)[k..i] == s[k..i];
    if IsDigit(s[i]) {
      if i + 1 <= cap { CommandLocal(s, t, k, i + 1, cap); }
    } else if s[i] == SEMICOLON && s[k..i] == DIGITS_52 && i + 1 <= cap {
      PayloadLocal(s, t, i + 1, false, cap);
    }
  }

  lemma {:induction false} ReplyLocal(s: seq<byte>, t: seq<byte>, i: nat)
    requires ReplyEnd(s, i).Some? || |s| >= REPLY_WINDOW
    ensures ReplyEnd(s + t, i) == ReplyEnd(s, i)
    decreases |s| - i
  {
    if i + 1 < |s| && i + 1 < REPLY_WINDOW && !(s[i] == DOLLAR && s[i + 1] == LOWER_Y) {
      ReplyLocal(s, t, i + 1);
    }
  }

  lemma HeadLocal(s: seq<byte>, t: seq<byte>, afterC2: bool, cap: nat)
    requires s != []
    requires !HeadOf(s, afterC2, cap).Hold?
    ensures HeadOf(s + t, afterC2, cap) == HeadOf(s, afterC2, cap)
  {
    if s[0] == ESC {
      if s[1] == CLOSE_BRACKET {
        CommandLocal(s, t, 2, 2, cap);
        forall e: nat | e <= |s| ensures (s + t)[..e] == s[..e] {}
      } else if s[1] == OPEN_BRACKET && s[2] == QUESTION {
        ReplyLocal(s, t, 3);
        forall e: nat | e <= |s| ensures (s + t)[..e] == s[..e] {}
      }
    } else if s[0] == C1_OSC && !afterC2 {
      CommandLocal(s, t, 1, 1, cap);
      forall e: nat | e <= |s| ensures (s + t)[..e] == s[..e] {}
    }
  }

  /** Was the byte before position `i` of `s` 0xC2, given what preceded `s`? */
  predicate AfterC2At(s: seq<byte>, i: nat, afterC2: bool)
    requires i <= |s|
  {
    if i == 0 then afterC2 else s[i - 1] == UTF8_C2
  }

  lemma AfterC2Shift(s: seq<byte>, n: nat, j: nat, afterC2: bool)
    requires 1 <= n && n + j <= |s|
    ensures AfterC2At(s[n..], j, s[n - 1] == UTF8_C2) == AfterC2At(s, n + j, afterC2)
  {
  }

  /** What precedes an undecided suffix never changes how it is read on. */
  lemma HeldIgnoresPrevious(s: seq<byte>, t: seq<byte>, afterC2: bool, cap: nat)
    requires s != [] && HeadOf(s, afterC2, cap).Hold?
    ensures HeadOf(s + t, afterC2, cap) == HeadOf(s + t, false, cap)
    ensures Lex(s + t, afterC2, cap) == Lex(s + t, false, cap)
  {
    assert (s + t)[0] == s[0];
  }

  /** Reading on from the undecided suffix is the same as reading the whole stream. */
  lemma {:induction false} LexSplit(a: seq<byte>, b: seq<byte>, afterC2: bool, cap: nat, ra: Scan)
    requires ra == Lex(a, afterC2, cap)
    ensures |ra.pending| <= |a|
    ensures ra.overflowed ==> Lex(a + b, afterC2, cap) == ra
    ensures !ra.overflowed ==>
              Lex(a + b, afterC2, cap) ==
              Prepend(ra.tokens, Lex(ra.pending + b, AfterC2At(a, |a| - |ra.pending|, afterC2), cap))
    decreases |a|, 1
  {
    if a == [] {
      assert [] + b == b;
      assert Prepend([], Lex(b, afterC2, cap)) == Lex(b, afterC2, cap);
    } else if HeadOf(a, afterC2, cap).Hold? {
      assert Prepend([], Lex(a + b, afterC2, cap)) == Lex(a + b, afterC2, cap);
    } else {
      HeadLocal(a, b, afterC2, cap);
      if HeadOf(a, afterC2, cap).Take? {
        LexSplitTake(a, b, afterC2, cap, ra);
      }
    }
  }

  lemma {:induction false} LexSplitTake(a: seq<byte>, b: seq<byte>, afterC2: bool, cap: nat, ra: Scan)
    requires ra == Lex(a, afterC2, cap)
    requires a != [] && HeadOf(a, afterC2, cap).Take? && HeadOf(a + b, afterC2, cap) == HeadOf(a, afterC2, cap)
    ensures |ra.pending| <= |a|
    ensures ra.overflowed ==> Lex(a + b, afterC2, cap) == ra
    ensures !ra.overflowed ==>
              Lex(a + b, afterC2, cap) ==
              Prepend(ra.tokens, Lex(ra.pending + b, AfterC2At(a, |a| - |ra.pending|, afterC2), cap))
    decreases |a|, 0
  {
    hide HeadOf, Lex;
    var Take(t, n) := HeadOf(a, afterC2, cap);
    var p := a[n - 1] == UTF8_C2;
    var rest := Lex(a[n..], p, cap);
    LexTake(a, afterC2, cap);
    LexTake(a + b, afterC2, cap);
    assert (a + b)[n..] == a[n..] + b;
    LexSplit(a[n..], b, p, cap, rest);
    if !rest.overflowed {
      var j := |a| - n - |rest.pending|;
      AfterC2Shift(a, n, j, afterC2);
      PrependTwice([t], rest.tokens, Lex(rest.pending + b, AfterC2At(a[n..], j, p), cap));
    }
  }
}
