/**
  The output filter as a function of its state and one chunk, and what its runs do.
  A push re-reads what it held back together with the new chunk.
*/
module Osc52Filter {
  import opened Bytes
  import opened Osc52Grammar
  import opened Osc52Chunking
  import opened Osc52Clipboard

  datatype Filter = Filter(pending: seq<byte>, overflowed: bool)

  datatype Output = Output(passthrough: seq<byte>, clipboards: seq<seq<byte>>, overflow: bool)

  const FRESH := Filter([], false)

  function Clips(t: Token): (r: seq<seq<byte>>) {
    if t.Clip? && Parse(t.bytes).Some? then [Parse(t.bytes).value] else []
  }

  function AllClips(ts: seq<Token>): (r: seq<seq<byte>>) {
    if ts == [] then [] else Clips(ts[0]) + AllClips(ts[1..])
  }

  lemma {:induction false} AllClipsConcat(xs: seq<Token>, ys: seq<Token>)
    ensures AllClips(xs + ys) == AllClips(xs) + AllClips(ys)
  {
    hide Clips;
    if xs == [] {
      assert xs + ys == ys;
    } else {
      assert (xs + ys)[1..] == xs[1..] + ys;
      AllClipsConcat(xs[1..], ys);
    }
  }

  function StateOf(r: Scan): (f: Filter) {
    Filter(r.pending, r.overflowed)
  }

  function OutputOf(r: Scan): (o: Output) {
    Output(AllShown(r.tokens), AllClips(r.tokens), r.overflowed)
  }

  function Push(f: Filter, chunk: seq<byte>, cap: nat): (r: (Filter, Output)) {
    if f.overflowed then (f, Output([], [], true))
    else
      var scan := Lex(f.pending + chunk, false, cap);
      (StateOf(scan), OutputOf(scan))
  }

  function Merge(a: Output, b: Output): (r: Output) {
    Output(a.passthrough + b.passthrough, a.clipboards + b.clipboards, b.overflow)
  }

  /** One push per chunk; the outputs in order, with the last overflow flag. */
  function Run(f: Filter, chunks: seq<seq<byte>>, cap: nat): (r: (Filter, Output))
    decreases |chunks|
  {
    if chunks == [] then (f, Output([], [], f.overflowed))
    else
      var (f1, o1) := Push(f, chunks[0], cap);
      var (f2, o2) := Run(f1, chunks[1..], cap);
      (f2, Merge(o1, o2))
  }

  /** The cut between `a` and `c` does not part a 0xC2 from an immediately following 0x9D. */
  predicate SafeCut(a: seq<byte>, c: seq<byte>) {
    a == [] || c == [] || a[|a| - 1] != UTF8_C2 || c[0] != C1_OSC
  }

  ghost predicate SafeSplit(chunks: seq<seq<byte>>) {
    forall k :: 0 <= k < |chunks| ==> SafeCut(Flatten(chunks[..k]), chunks[k])
  }

  lemma {:induction false} PendingIsHeld(a: seq<byte>, afterC2: bool, cap: nat, ra: Scan)
    requires ra == Lex(a, afterC2, cap)
    ensures |ra.pending| <= |a| && ra.pending == a[|a| - |ra.pending|..]
    ensures ra.pending != [] ==>
              HeadOf(ra.pending, AfterC2At(a, |a| - |ra.pending|, afterC2), cap).Hold?
    decreases |a|
  {
    hide HeadOf, Lex;
    if a == [] || !HeadOf(a, afterC2, cap).Take? {
      LexStops(a, afterC2, cap);
    } else {
      var n := HeadOf(a, afterC2, cap).len;
      LexTake(a, afterC2, cap);
      var rest := Lex(a[n..], a[n - 1] == UTF8_C2, cap);
      PendingIsHeld(a[n..], a[n - 1] == UTF8_C2, cap, rest);
      assert a == a[..n] + a[n..];
      DropAcross(a[..n], a[n..], |a| - |rest.pending|);
      AfterC2Shift(a, n, |a| - n - |rest.pending|, afterC2);
    }
  }

  /** Whether a first byte 0x9D is an introducer is all that the previous byte decides. */
  lemma LexAfterC2(s: seq<byte>, afterC2: bool, cap: nat)
    requires s == [] || s[0] != C1_OSC || !afterC2
    ensures Lex(s, afterC2, cap) == Lex(s, false, cap)
  {
    hide OscHead;
  }

  /** What a filter that has read `a` makes of the next chunk. */
  lemma PushReads(a: seq<byte>, c: seq<byte>, cap: nat, ra: Scan)
    requires ra == Lex(a, false, cap) && !ra.overflowed
    requires SafeCut(a, c) || ra.pending != []
    ensures Lex(a + c, false, cap) == Prepend(ra.tokens, Lex(ra.pending + c, false, cap))
  {
    hide HeadOf, Lex;
    LexSplit(a, c, false, cap, ra);
    PendingIsHeld(a, false, cap, ra);
    var q := AfterC2At(a, |a| - |ra.pending|, false);
    if ra.pending == [] {
      assert ra.pending + c == c;
      LexAfterC2(c, q, cap);
    } else {
      HeldIgnoresPrevious(ra.pending, c, q, cap);
    }
  }

  lemma OutputOfPrepend(ts: seq<Token>, r: Scan)
    ensures OutputOf(Prepend(ts, r)) == Merge(Output(AllShown(ts), AllClips(ts), false), OutputOf(r))
  {
    AllShownConcat(ts, r.tokens);
    AllClipsConcat(ts, r.tokens);
  }

  /** The filter after reading `a` in one push. */
  function After(a: seq<byte>, cap: nat): (r: (Filter, Output)) {
    Push(FRESH, a, cap)
  }

  lemma AfterIsLex(a: seq<byte>, cap: nat)
    ensures After(a, cap) == (StateOf(Lex(a, false, cap)), OutputOf(Lex(a, false, cap)))
  {
    assert [] + a == a;
  }

  /** One more push is the same as having read the longer string at once. */
  lemma PushExtends(a: seq<byte>, c: seq<byte>, cap: nat)
    requires SafeCut(a, c) || After(a, cap).0 != FRESH
    ensures var (f, o) := After(a, cap);
            var (f', o') := Push(f, c, cap);
            After(a + c, cap) == (f', Merge(o, o'))
  {
    hide Lex;
    var ra := Lex(a, false, cap);
    AfterIsLex(a, cap);
    AfterIsLex(a + c, cap);
    if ra.overflowed {
      LexSplit(a, c, false, cap, ra);
      assert Merge(OutputOf(ra), Output([], [], true)) == OutputOf(ra);
    } else {
      PushReads(a, c, cap, ra);
      OutputOfPrepend(ra.tokens, Lex(ra.pending + c, false, cap));
    }
  }

  lemma MergeAssoc(a: Output, b: Output, c: Output)
    ensures Merge(a, Merge(b, c)) == Merge(Merge(a, b), c)
  {
    Assoc(a.passthrough, b.passthrough, c.passthrough);
    Assoc(a.clipboards, b.clipboards, c.clipboards);
  }

  lemma {:induction false} RunExtends(done: seq<seq<byte>>, chunks: seq<seq<byte>>, cap: nat)
    requires SafeSplit(done + chunks)
    ensures var (f, o) := After(Flatten(done), cap);
            var (f', o') := Run(f, chunks, cap);
            After(Flatten(done + chunks), cap) == (f', Merge(o, o'))
    decreases |chunks|
  {
    hide Push;
    var (f, o) := After(Flatten(done), cap);
    if chunks == [] {
      assert done + chunks == done;
      assert o.overflow == f.overflowed by { AfterIsLex(Flatten(done), cap); }
      assert Merge(o, Output([], [], f.overflowed)) == o;
    } else {
      var c := chunks[0];
      var more := done + [c];
      assert more + chunks[1..] == done + chunks;
      assert (done + chunks)[..|done|] == done;
      FlattenSnoc(done, c);
      PushExtends(Flatten(done), c, cap);
      RunExtends(more, chunks[1..], cap);
      var (f1, o1) := Push(f, c, cap);
      MergeAssoc(o, o1, Run(f1, chunks[1..], cap).1);
    }
  }

  lemma AfterNothing(cap: nat)
    ensures After([], cap) == (FRESH, Output([], [], false))
  {
    AfterIsLex([], cap);
  }

  lemma MergeNothing(o: Output)
    ensures Merge(Output([], [], false), o) == o
  {
  }

  /** However a stream is cut, short of between 0xC2 and 0x9D, the run is one push of all of it. */
  lemma ChunkingDoesNotMatter(chunks: seq<seq<byte>>, cap: nat)
    requires SafeSplit(chunks)
    ensures Run(FRESH, chunks, cap) == Push(FRESH, Flatten(chunks), cap)
  {
    hide Push, Run, Merge, Flatten;
    assert [] + chunks == chunks;
    RunExtends([], chunks, cap);
    assert Flatten<byte>([]) == [] by { FlattenNothing<byte>(); }
    AfterNothing(cap);
    MergeNothing(Run(FRESH, chunks, cap).1);
  }

  lemma RunOfTwo(a: seq<byte>, c: seq<byte>, cap: nat)
    ensures var (f, o) := After(a, cap);
            var (f', o') := Push(f, c, cap);
            Run(FRESH, [a, c], cap) == (f', Merge(o, o'))
  {
    hide Push;
    var (f, o) := After(a, cap);
    var (f', o') := Push(f, c, cap);
    assert o'.overflow == f'.overflowed by { PushFlag(f, c, cap); }
    assert Merge(o', Output([], [], f'.overflowed)) == o';
    assert [c][1..] == [] && [a, c][1..] == [c];
    assert Run(f, [c], cap) == (f', o');
    assert FRESH.pending == [] && Push(FRESH, a, cap) == (f, o);
  }

  lemma PushFlag(f: Filter, c: seq<byte>, cap: nat)
    ensures Push(f, c, cap).1.overflow == Push(f, c, cap).0.overflowed
  {
  }

  /** 0xC2 was the last byte shown and nothing is held: the filter has forgotten what it needs. */
  predicate ForgetsC2(a: seq<byte>, cap: nat) {
    a != [] && a[|a| - 1] == UTF8_C2 && After(a, cap).0 == FRESH
  }

  lemma LoneC1Osc(afterC2: bool, cap: nat)
    ensures Lex([C1_OSC], afterC2, cap)
            == if afterC2 then Scan([Plain(C1_OSC)], [], false) else Scan([], [C1_OSC], false)
  {
    assert [C1_OSC][1..] == [];
  }

  lemma ForgottenC2Shows(a: seq<byte>, cap: nat)
    requires ForgetsC2(a, cap)
    ensures Run(FRESH, [a, [C1_OSC]], cap) != Push(FRESH, a + [C1_OSC], cap)
  {
    hide Lex, Run;
    var ra := Lex(a, false, cap);
    AfterIsLex(a, cap);
    AfterIsLex(a + [C1_OSC], cap);
    LexSplit(a, [C1_OSC], false, cap, ra);
    LoneC1Osc(true, cap);
    LoneC1Osc(false, cap);
    RunOfTwo(a, [C1_OSC], cap);
    assert [] + [C1_OSC] == [C1_OSC];
  }

  /** The shortest such stream: 0xC2 alone is shown, and the cut comes right after it. */
  lemma LoneC2Forgotten(cap: nat)
    ensures ForgetsC2([UTF8_C2], cap)
    ensures Run(FRESH, [[UTF8_C2], [C1_OSC]], cap) != Push(FRESH, [UTF8_C2, C1_OSC], cap)
  {
    var a := [UTF8_C2];
    assert [] + a == a && a[1..] == [];
    assert Lex(a, false, cap) == Scan([Plain(UTF8_C2)], [], false);
    hide Lex, Run;
    ForgottenC2Shows(a, cap);
    assert a + [C1_OSC] == [UTF8_C2, C1_OSC];
  }

  /** A cut after `a` is invisible to every continuation exactly when no 0xC2 was forgotten. */
  lemma CutInvisibleExactly(a: seq<byte>, cap: nat)
    ensures (forall c :: Run(FRESH, [a, c], cap) == Push(FRESH, a + c, cap)) <==> !ForgetsC2(a, cap)
  {
    hide Run, Push;
    if ForgetsC2(a, cap) {
      ForgottenC2Shows(a, cap);
    } else {
      forall c ensures Run(FRESH, [a, c], cap) == Push(FRESH, a + c, cap) {
        PushExtends(a, c, cap);
        RunOfTwo(a, c, cap);
      }
    }
  }

  lemma SequenceFront(intro: seq<byte>, text: seq<byte>, term: seq<byte>, rest: seq<byte>, afterC2: bool, cap: nat)
    requires intro in INTRODUCERS && term in TERMINATORS && IsClipboardText(text)
    requires |Sequence(intro, text, term)| <= cap && (intro == [C1_OSC] ==> !afterC2)
    ensures var q := Sequence(intro, text, term);
            Lex(q + rest, afterC2, cap) == Prepend([Clip(q)], Lex(rest, false, cap))
  {
    hide Lex, OscHead, Base64.Encode;
    var q := Sequence(intro, text, term);
    SequenceIsOneToken(intro, text, term, rest, cap);
    assert (q + rest)[0] == intro[0] && intro[0] in {ESC, C1_OSC};
    assert HeadOf(q + rest, afterC2, cap) == HeadOf(q + rest, false, cap);
    hide HeadOf;
    LexTake(q + rest, afterC2, cap);
    assert (q + rest)[|q|..] == rest;
    assert (q + rest)[|q| - 1] == term[|term| - 1];
  }

  /** Read before `s`, the stream `a` breaks up into the tokens `ts` and nothing of it is left over. */
  ghost predicate SettledAs(a: seq<byte>, ts: seq<Token>, s: seq<byte>, cap: nat) {
    Lex(a + s, false, cap) == Prepend(ts, Lex(s, AfterC2At(a, |a|, false), cap))
  }

  /** A stream after which the filter holds nothing is settled, whatever follows it. */
  lemma NothingHeldIsSettled(a: seq<byte>, s: seq<byte>, cap: nat)
    requires After(a, cap).0 == FRESH
    ensures SettledAs(a, Lex(a, false, cap).tokens, s, cap)
  {
    hide Lex;
    AfterIsLex(a, cap);
    LexSplit(a, s, false, cap, Lex(a, false, cap));
    assert [] + s == s;
  }

  /**
    Wherever it stands in a stream, once what comes before it is settled, every clipboard sequence
    yields its text and shows nothing, and what comes before and after it reads as it would without it.
  */
  lemma ClipboardRoundTrip(a: seq<byte>, ts: seq<Token>, intro: seq<byte>, text: seq<byte>, term: seq<byte>,
                           rest: seq<byte>, cap: nat)
    requires intro in INTRODUCERS && term in TERMINATORS && IsClipboardText(text)
    requires |Sequence(intro, text, term)| <= cap && (intro == [C1_OSC] ==> !AfterC2At(a, |a|, false))
    requires SettledAs(a, ts, Sequence(intro, text, term) + rest, cap)
    ensures var (f, o) := Push(FRESH, rest, cap);
            Push(FRESH, a + (Sequence(intro, text, term) + rest), cap)
            == (f, Output(AllShown(ts) + o.passthrough, AllClips(ts) + ([text] + o.clipboards), o.overflow))
  {
    hide Parse, HeadOf, Lex, Sequence;
    var q := Sequence(intro, text, term);
    SequenceFront(intro, text, term, rest, AfterC2At(a, |a|, false), cap);
    ParseOfSequence(intro, text, term);
    var r := Lex(rest, false, cap);
    var one := [Clip(q)];
    assert one[1..] == [] && AllShown(one) == [] && AllClips(one) == [text];
    OutputOfPrepend(one, r);
    OutputOfPrepend(ts, Prepend(one, r));
    assert [] + AllShown(r.tokens) == AllShown(r.tokens);
    AfterIsLex(rest, cap);
    AfterIsLex(a + (q + rest), cap);
  }
}
