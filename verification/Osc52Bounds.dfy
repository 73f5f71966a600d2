/** How much the filter holds back, and exactly when it gives up. */
module Osc52Bounds {
  import opened Bytes
  import opened Osc52Grammar
  import opened Osc52Chunking
  import opened Osc52Candidate
  import opened Osc52Filter

  lemma {:induction false} PayloadTooLong(s: seq<byte>, i: nat, sawEsc: bool, cap: nat)
    requires 1 <= i <= |s| && Payload(s, i, sawEsc, cap).TooLong?
    ensures |s| > cap
    decreases |s| - i
  {
    if i + 1 <= cap {
      PayloadTooLong(s, i + 1, if sawEsc then false else s[i] == ESC, cap);
    }
  }

  lemma {:induction false} CommandTooLong(s: seq<byte>, k: nat, i: nat, cap: nat)
    requires 1 <= k <= i <= |s| && Command(s, k, i, cap).TooLong?
    ensures |s| > cap
    decreases |s| - i
  {
    if i + 1 <= cap {
      if IsDigit(s[i]) {
        CommandTooLong(s, k, i + 1, cap);
      } else {
        PayloadTooLong(s, i + 1, false, cap);
      }
    }
  }

  lemma HeadTooLong(s: seq<byte>, afterC2: bool, cap: nat)
    requires s != [] && HeadOf(s, afterC2, cap).Overflow?
    ensures |s| > cap
  {
    hide Command, ReplyEnd;
    var k := if s[0] == ESC then 2 else 1;
    CommandTooLong(s, k, k, cap);
  }

  lemma {:induction false} LexTooLong(s: seq<byte>, afterC2: bool, cap: nat)
    requires |s| <= cap
    ensures !Lex(s, afterC2, cap).overflowed
    decreases |s|
  {
    hide HeadOf;
    if s != [] {
      if HeadOf(s, afterC2, cap).Overflow? {
        HeadTooLong(s, afterC2, cap);
      } else if HeadOf(s, afterC2, cap).Take? {
        var n := HeadOf(s, afterC2, cap).len;
        LexTooLong(s[n..], s[n - 1] == UTF8_C2, cap);
      }
    }
  }

  // ---- what is held after any run ----------------------------------------------------------------

  /** What a filter holds is undecided as it stands. */
  predicate Waiting(f: Filter, cap: nat) {
    f.pending == [] || HeadOf(f.pending, false, cap).Hold?
  }

  lemma HoldsAnyway(s: seq<byte>, afterC2: bool, cap: nat)
    requires s != [] && HeadOf(s, afterC2, cap).Hold?
    ensures HeadOf(s, false, cap).Hold?
  {
    hide OscHead;
  }

  lemma PushWaits(f: Filter, c: seq<byte>, cap: nat)
    requires f.overflowed ==> Waiting(f, cap)
    ensures Waiting(Push(f, c, cap).0, cap)
  {
    hide Lex, HeadOf;
    if !f.overflowed {
      var a := f.pending + c;
      var r := Lex(a, false, cap);
      PendingIsHeld(a, false, cap, r);
      if r.pending != [] {
        HoldsAnyway(r.pending, AfterC2At(a, |a| - |r.pending|, false), cap);
      }
    }
  }

  lemma {:induction false} RunWaits(f: Filter, chunks: seq<seq<byte>>, cap: nat)
    requires Waiting(f, cap)
    ensures Waiting(Run(f, chunks, cap).0, cap)
    decreases |chunks|
  {
    hide Push, Waiting;
    if chunks != [] {
      PushWaits(f, chunks[0], cap);
      RunWaits(Push(f, chunks[0], cap).0, chunks[1..], cap);
    }
  }

  lemma WaitingFits(f: Filter, cap: nat)
    requires Waiting(f, cap) && cap >= REPLY_WINDOW
    ensures |f.pending| <= cap
  {
    hide HeadOf;
    if f.pending != [] {
      HeldFits(f.pending, false, cap);
    }
  }

  /** However the output is cut, a filter that holds no more than the cap never does. */
  lemma {:induction false} PendingBounded(f: Filter, chunks: seq<seq<byte>>, cap: nat)
    requires cap >= REPLY_WINDOW && |f.pending| <= cap
    ensures |Run(f, chunks, cap).0.pending| <= cap
    decreases |chunks|
  {
    hide Push, Waiting;
    if f.overflowed {
      OverflowIsFinal(f, chunks, cap);
    } else if chunks != [] {
      PushWaits(f, chunks[0], cap);
      WaitingFits(Push(f, chunks[0], cap).0, cap);
      PendingBounded(Push(f, chunks[0], cap).0, chunks[1..], cap);
    }
  }

  lemma FreshWaits(cap: nat)
    ensures Waiting(FRESH, cap)
  {
  }

  // ---- overflow, byte by byte -----------------------------------------------------------------------

  /** Having read `a`, a candidate of `cap` bytes is held that would have to keep `b`. */
  predicate OneTooMany(a: seq<byte>, b: byte, cap: nat) {
    var r := Lex(a, false, cap);
    !r.overflowed && |r.pending| == cap && KeepsByte(r.pending, b, cap)
  }

  lemma ByteOverflows(a: seq<byte>, b: byte, cap: nat)
    requires cap >= REPLY_WINDOW && !Lex(a, false, cap).overflowed
    ensures Lex(a + [b], false, cap).overflowed <==> OneTooMany(a, b, cap)
  {
    hide Lex, HeadOf, KeepsByte;
    var ra := Lex(a, false, cap);
    LexSplit(a, [b], false, cap, ra);
    PendingIsHeld(a, false, cap, ra);
    var q := AfterC2At(a, |a| - |ra.pending|, false);
    var held := ra.pending;
    if held == [] {
      assert held + [b] == [b];
      LexTooLong([b], q, cap);
    } else {
      HeldOverflows(held, b, q, cap);
      HeldFits(held, q, cap);
      OneMoreByte(held, b, q, cap);
    }
  }

  lemma {:induction false} BytesOverflow(a: seq<byte>, c: seq<byte>, cap: nat)
    requires cap >= REPLY_WINDOW && !Lex(a, false, cap).overflowed
    ensures Lex(a + c, false, cap).overflowed <==> exists i :: 0 <= i < |c| && OneTooMany(a + c[..i], c[i], cap)
    decreases |c|
  {
    hide Lex, OneTooMany;
    if c == [] {
      assert a + c == a;
    } else {
      var n := |c| - 1;
      var d, b := c[..n], c[n];
      BytesOverflow(a, d, cap);
      assert forall i :: 0 <= i < n ==> d[..i] == c[..i] && d[i] == c[i];
      assert a + c == (a + d) + [b];
      if Lex(a + d, false, cap).overflowed {
        LexSplit(a + d, [b], false, cap, Lex(a + d, false, cap));
        var i :| 0 <= i < |d| && OneTooMany(a + d[..i], d[i], cap);
        assert OneTooMany(a + c[..i], c[i], cap);
      } else {
        ByteOverflows(a + d, b, cap);
        if OneTooMany(a + d, b, cap) {
          assert OneTooMany(a + c[..n], c[n], cap);
        }
        assert forall i :: 0 <= i < n ==> !OneTooMany(a + c[..i], c[i], cap);
      }
    }
  }

  lemma HeldIsRead(f: Filter, cap: nat)
    requires Waiting(f, cap)
    ensures Lex(f.pending, false, cap) == Scan([], f.pending, false)
  {
    hide HeadOf;
    LexStops(f.pending, false, cap);
  }

  /**
    After any run that has not overflowed, however it was cut, the next chunk overflows exactly when
    at some byte of it a candidate that already holds `cap` bytes would have to keep that byte.
  */
  lemma OverflowExactly(chunks: seq<seq<byte>>, c: seq<byte>, cap: nat)
    requires cap >= REPLY_WINDOW && !Run(FRESH, chunks, cap).0.overflowed
    ensures var f := Run(FRESH, chunks, cap).0;
            Push(f, c, cap).1.overflow <==> exists i :: 0 <= i < |c| && OneTooMany(f.pending + c[..i], c[i], cap)
  {
    hide Run, Waiting, Lex, OneTooMany;
    FreshWaits(cap);
    RunWaits(FRESH, chunks, cap);
    var f := Run(FRESH, chunks, cap).0;
    HeldIsRead(f, cap);
    BytesOverflow(f.pending, c, cap);
  }

  /** For one byte: exactly when the held candidate is full and would have to keep it. */
  lemma NextByteOverflows(chunks: seq<seq<byte>>, b: byte, cap: nat)
    requires cap >= REPLY_WINDOW && !Run(FRESH, chunks, cap).0.overflowed
    ensures var f := Run(FRESH, chunks, cap).0;
            Push(f, [b], cap).1.overflow <==> |f.pending| == cap && KeepsByte(f.pending, b, cap)
  {
    hide Run, Waiting, Lex, KeepsByte;
    FreshWaits(cap);
    RunWaits(FRESH, chunks, cap);
    var f := Run(FRESH, chunks, cap).0;
    HeldIsRead(f, cap);
    ByteOverflows(f.pending, b, cap);
  }

  lemma OneMoreByte(held: seq<byte>, b: byte, q: bool, cap: nat)
    requires held != [] && |held| <= cap
    ensures Lex(held + [b], q, cap).overflowed <==> HeadOf(held + [b], q, cap).Overflow?
  {
    hide HeadOf;
    var t := held + [b];
    if HeadOf(t, q, cap).Take? {
      var n := HeadOf(t, q, cap).len;
      LexTooLong(t[n..], t[n - 1] == UTF8_C2, cap);
    }
  }

  /** After overflow nothing is ever released again. */
  lemma {:induction false} OverflowIsFinal(f: Filter, chunks: seq<seq<byte>>, cap: nat)
    requires f.overflowed
    ensures Run(f, chunks, cap) == (f, Output([], [], true))
    decreases |chunks|
  {
    if chunks != [] {
      OverflowIsFinal(f, chunks[1..], cap);
      assert Push(f, chunks[0], cap) == (f, Output([], [], true));
      assert Merge(Output([], [], true), Output([], [], true)) == Output([], [], true);
    }
  }

  // ---- conservation ---------------------------------------------------------------------------------

  /** The tokens a run reads, push after push. */
  function RunTokens(f: Filter, chunks: seq<seq<byte>>, cap: nat): (ts: seq<Token>)
    decreases |chunks|
  {
    if chunks == [] || f.overflowed then []
    else Lex(f.pending + chunks[0], false, cap).tokens + RunTokens(Push(f, chunks[0], cap).0, chunks[1..], cap)
  }

  /** The tokens `ts` and what `f` then holds account for the stream `s`. */
  predicate Accounts(ts: seq<Token>, f: Filter, s: seq<byte>) {
    if f.overflowed then AllBytes(ts) < s else AllBytes(ts) + f.pending == s
  }

  lemma PushAccounts(f: Filter, c: seq<byte>, cap: nat)
    requires !f.overflowed
    ensures Accounts(Lex(f.pending + c, false, cap).tokens, Push(f, c, cap).0, f.pending + c)
  {
    hide Lex;
    LexConserves(f.pending + c, false, cap, Lex(f.pending + c, false, cap));
  }

  /** One more piece in front: its tokens, then those of the rest read on from what it left held. */
  lemma AccountsMore(ts: seq<Token>, held: seq<byte>, us: seq<Token>, f: Filter, s: seq<byte>, rest: seq<byte>)
    requires AllBytes(ts) + held == s && Accounts(us, f, held + rest)
    ensures Accounts(ts + us, f, s + rest)
  {
    AllBytesConcat(ts, us);
    Assoc(AllBytes(ts), held, rest);
    assert s + rest == AllBytes(ts) + (held + rest);
    if f.overflowed {
      assert (s + rest)[..|AllBytes(ts)|] == AllBytes(ts);
    } else {
      Assoc(AllBytes(ts), AllBytes(us), f.pending);
    }
  }

  lemma AccountsLonger(ts: seq<Token>, f: Filter, s: seq<byte>, rest: seq<byte>)
    requires f.overflowed && Accounts(ts, f, s)
    ensures Accounts(ts, f, s + rest)
  {
  }

  /**
    However the output is cut: the bytes shown and the texts sent by a run are those of its tokens, in
    order, and the tokens followed by what is held are the stream, or a proper prefix of it on overflow.
  */
  lemma {:induction false} RunConserves(f: Filter, chunks: seq<seq<byte>>, cap: nat)
    requires !f.overflowed
    ensures var (f', o) := Run(f, chunks, cap);
            var ts := RunTokens(f, chunks, cap);
            && o == Output(AllShown(ts), AllClips(ts), f'.overflowed)
            && Accounts(ts, f', f.pending + Flatten(chunks))
    decreases |chunks|
  {
    hide Lex, Accounts, Flatten;
    if chunks == [] {
      NothingAccounts(f);
      FlattenNothing<byte>();
    } else {
      var c, rest := chunks[0], chunks[1..];
      var r, f1 := Lex(f.pending + c, false, cap), Push(f, c, cap).0;
      var us := RunTokens(f1, rest, cap);
      PushAccounts(f, c, cap);
      AllShownConcat(r.tokens, us);
      AllClipsConcat(r.tokens, us);
      assert Flatten(chunks) == c + Flatten(rest) by { FlattenFirst(chunks); }
      Assoc(f.pending, c, Flatten(rest));
      if r.overflowed {
        OverflowIsFinal(f1, rest, cap);
        assert r.tokens + us == r.tokens;
        AccountsLonger(r.tokens, f1, f.pending + c, Flatten(rest));
      } else {
        RunConserves(f1, rest, cap);
        assert AllBytes(r.tokens) + f1.pending == f.pending + c by { PlainAccounts(r.tokens, f1, f.pending + c); }
        AccountsMore(r.tokens, f1.pending, us, Run(f, chunks, cap).0, f.pending + c, Flatten(rest));
      }
    }
  }

  lemma FlattenFirst(chunks: seq<seq<byte>>)
    requires chunks != []
    ensures Flatten(chunks) == chunks[0] + Flatten(chunks[1..])
  {
  }

  lemma PlainAccounts(ts: seq<Token>, f: Filter, s: seq<byte>)
    requires Accounts(ts, f, s) && !f.overflowed
    ensures AllBytes(ts) + f.pending == s
  {
  }

  lemma NothingAccounts(f: Filter)
    requires !f.overflowed
    ensures Accounts([], f, f.pending + [])
  {
  }

  /** Cut safely, the run reads the tokens of the whole stream. */
  lemma SafeRunReadsWhole(chunks: seq<seq<byte>>, cap: nat)
    requires SafeSplit(chunks)
    ensures var (f, o) := Run(FRESH, chunks, cap);
            var r := Lex(Flatten(chunks), false, cap);
            f == StateOf(r) && o == OutputOf(r) && Accounts(r.tokens, f, Flatten(chunks))
  {
    hide Lex, Run, Push;
    ChunkingDoesNotMatter(chunks, cap);
    AfterIsLex(Flatten(chunks), cap);
    LexConserves(Flatten(chunks), false, cap, Lex(Flatten(chunks), false, cap));
  }
}
