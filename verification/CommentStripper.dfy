/** Blanking Rust comments without moving anything else. */
module CommentStripper {

  datatype Kind = Literal | Comment | Plain

  datatype Token = Token(kind: Kind, end: nat)

  type Range = (nat, nat)

  // ---- where the token at a position ends -------------------------------------------------

  function HashesEnd(s: string, k: nat): (e: nat)
    requires k <= |s|
    ensures k <= e <= |s|
    ensures forall j :: k <= j < e ==> s[j] == '#'
    ensures e < |s| ==> s[e] != '#'
    decreases |s| - k
  {
    if k < |s| && s[k] == '#' then HashesEnd(s, k + 1) else k
  }

  predicate RawStart(s: string, i: nat)
    requires i < |s|
  {
    && s[i] == 'r' && i + 1 < |s| && (s[i + 1] == '"' || s[i + 1] == '#')
    && HashesEnd(s, i + 1) < |s| && s[HashesEnd(s, i + 1)] == '"'
  }

  /** A quote followed by `hashes` hash signs. */
  predicate ClosesAt(s: string, k: nat, hashes: nat) {
    k + hashes < |s| && s[k] == '"' && forall j :: k < j <= k + hashes ==> s[j] == '#'
  }

  /** Just after the first closing delimiter from `k` on, or the end of the text. */
  function RawEnd(s: string, k: nat, hashes: nat): (e: nat)
    requires k <= |s|
    ensures k <= e <= |s|
    decreases |s| - k
  {
    if k == |s| then k
    else if ClosesAt(s, k, hashes) then k + 1 + hashes
    else RawEnd(s, k + 1, hashes)
  }

  function QuotedEnd(s: string, i: nat, quote: char): (e: nat)
    requires i <= |s|
    ensures i <= e <= |s|
    decreases |s| - i
  {
    if i == |s| then i
    else if s[i] == '\\' then (if i + 1 < |s| then QuotedEnd(s, i + 2, quote) else i + 1)
    else if s[i] == quote then i + 1
    else QuotedEnd(s, i + 1, quote)
  }

  predicate CharStart(s: string, i: nat)
    requires i < |s|
  {
    && s[i] == '\'' && i + 1 < |s|
    && (s[i + 1] == '\\' || (i + 2 < |s| && s[i + 2] == '\''))
  }

  predicate Two(s: string, i: nat, a: char, b: char) {
    i + 1 < |s| && s[i] == a && s[i + 1] == b
  }

  function LineEnd(s: string, i: nat): (e: nat)
    requires i <= |s|
    ensures i <= e <= |s|
    decreases |s| - i
  {
    if i < |s| && s[i] != '\n' then LineEnd(s, i + 1) else i
  }

  function BlockEnd(s: string, i: nat, depth: nat): (e: nat)
    requires i <= |s|
    ensures i <= e <= |s|
    decreases |s| - i
  {
    if i == |s| || depth == 0 then i
    else if Two(s, i, '/', '*') then BlockEnd(s, i + 2, depth + 1)
    else if Two(s, i, '*', '/') then BlockEnd(s, i + 2, depth - 1)
    else BlockEnd(s, i + 1, depth)
  }

  function TokenAt(s: string, i: nat): (t: Token)
    requires i < |s|
    ensures i < t.end <= |s|
    ensures t.kind.Plain? ==> t.end == i + 1
  {
    if RawStart(s, i) then
      var k := HashesEnd(s, i + 1);
      Token(Literal, RawEnd(s, k + 1, k - (i + 1)))
    else if s[i] == '"' || CharStart(s, i) then Token(Literal, QuotedEnd(s, i + 1, s[i]))
    else if Two(s, i, '/', '/') then Token(Comment, LineSpan(s, i))
    else if Two(s, i, '/', '*') then Token(Comment, BlockEnd(s, i + 2, 1))
    else Token(Plain, i + 1)
  }

  function LineSpan(s: string, i: nat): (e: nat)
    requires Two(s, i, '/', '/')
    ensures i < e <= |s|
  {
    LineEnd(s, i + 1)
  }

  // ---- the result --------------------------------------------------------------------------

  function Blank(s: string): (r: string)
    ensures |r| == |s|
    ensures forall k :: 0 <= k < |s| ==> r[k] == if s[k] == '\n' then '\n' else ' '
  {
    seq(|s|, k requires 0 <= k < |s| => if s[k] == '\n' then '\n' else ' ')
  }

  function Shown(s: string, i: nat): (r: string)
    requires i < |s|
    ensures |r| == TokenAt(s, i).end - i
  {
    var t := TokenAt(s, i);
    if t.kind.Comment? then Blank(s[i..t.end]) else s[i..t.end]
  }

  /** The text from `i` on, its comments blanked. */
  function Strip(s: string, i: nat): (r: string)
    requires i <= |s|
    ensures |r| == |s| - i
    decreases |s| - i
  {
    if i == |s| then [] else Shown(s, i) + Strip(s, TokenAt(s, i).end)
  }

  /** The literals from `i` on. */
  function Ranges(s: string, i: nat): (r: seq<Range>)
    requires i <= |s|
    decreases |s| - i
  {
    if i == |s| then []
    else
      var t := TokenAt(s, i);
      (if t.kind.Literal? then [(i, t.end)] else []) + Ranges(s, t.end)
  }

  // ---- position by position -------------------------------------------------------------------

  lemma {:induction false} StripKeepsPlaces(s: string, i: nat, k: nat)
    requires i <= k < |s|
    ensures Strip(s, i)[k - i] == s[k] || (Strip(s, i)[k - i] == ' ' && s[k] != '\n')
    decreases |s| - i
  {
    hide TokenAt;
    var e := TokenAt(s, i).end;
    if k >= e {
      StripKeepsPlaces(s, e, k);
    }
  }

  /** Same length, same line breaks, and every character kept or blanked. */
  lemma StripPreservesLayout(s: string)
    ensures |Strip(s, 0)| == |s|
    ensures forall k :: 0 <= k < |s| ==> Strip(s, 0)[k] == s[k] || Strip(s, 0)[k] == ' '
    ensures forall k :: 0 <= k < |s| ==> (Strip(s, 0)[k] == '\n' <==> s[k] == '\n')
  {
    hide Strip;
    forall k | 0 <= k < |s|
      ensures Strip(s, 0)[k] == s[k] || (Strip(s, 0)[k] == ' ' && s[k] != '\n')
    {
      StripKeepsPlaces(s, 0, k);
    }
  }

  predicate Sorted(ranges: seq<Range>, lo: nat, hi: nat) {
    && (forall k :: 0 <= k < |ranges| ==> lo <= ranges[k].0 < ranges[k].1 <= hi)
    && (forall j, k :: 0 <= j < k < |ranges| ==> ranges[j].1 <= ranges[k].0)
  }

  lemma {:induction false} RangesSorted(s: string, i: nat)
    requires i <= |s|
    ensures Sorted(Ranges(s, i), i, |s|)
    decreases |s| - i
  {
    hide TokenAt;
    if i < |s| {
      var t := TokenAt(s, i);
      RangesSorted(s, t.end);
      SortedCons(Ranges(s, t.end), i, t.end, |s|);
      assert Ranges(s, i) == if t.kind.Literal? then [(i, t.end)] + Ranges(s, t.end) else [] + Ranges(s, t.end);
      assert [] + Ranges(s, t.end) == Ranges(s, t.end);
    }
  }

  lemma SortedCons(ranges: seq<Range>, i: nat, e: nat, hi: nat)
    requires Sorted(ranges, e, hi) && i < e <= hi
    ensures Sorted(ranges, i, hi) && Sorted([(i, e)] + ranges, i, hi)
  {
  }

  lemma {:induction false} LiteralKept(s: string, i: nat, r: Range, k: nat)
    requires i <= |s| && r in Ranges(s, i) && r.0 <= k < r.1
    ensures i <= k < |s| && Strip(s, i)[k - i] == s[k]
    decreases |s| - i
  {
    hide TokenAt;
    var t := TokenAt(s, i);
    if r in Ranges(s, t.end) {
      LiteralKept(s, t.end, r, k);
    }
  }

  /** Literal ranges are in bounds, in order, apart, and copied as they are. */
  lemma LiteralsVerbatim(s: string)
    ensures Sorted(Ranges(s, 0), 0, |s|)
    ensures forall r :: r in Ranges(s, 0) ==> r.0 < r.1 <= |s| && Strip(s, 0)[r.0..r.1] == s[r.0..r.1]
  {
    hide Strip, Ranges;
    RangesSorted(s, 0);
    forall r | r in Ranges(s, 0) ensures r.0 < r.1 <= |s| && Strip(s, 0)[r.0..r.1] == s[r.0..r.1] {
      forall k | r.0 <= k < r.1 ensures k < |s| && Strip(s, 0)[k] == s[k] {
        LiteralKept(s, 0, r, k);
      }
    }
  }

  /** The early exit is sound on sorted ranges: the answer is plain membership. */
  method IsInLiteral(ranges: seq<Range>, index: nat, ghost hi: nat) returns (yes: bool)
    requires Sorted(ranges, 0, hi)
    ensures yes <==> exists r :: r in ranges && r.0 <= index < r.1
  {
    for k := 0 to |ranges|
      invariant forall j :: 0 <= j < k ==> ranges[j].1 <= index
    {
      if ranges[k].0 <= index < ranges[k].1 {
        return true;
      }
      if ranges[k].0 > index {
        return false;
      }
    }
    return false;
  }

  // ---- stripping twice ---------------------------------------------------------------------------

  /** `t` is `s` with some characters blanked. */
  predicate Shadows(s: string, t: string) {
    |s| == |t| && forall k :: 0 <= k < |s| ==> t[k] == s[k] || t[k] == ' '
  }

  lemma {:induction false} HashesAgree(s: string, t: string, k: nat)
    requires Shadows(s, t) && k <= |s| && forall j :: k <= j < HashesEnd(s, k) ==> t[j] == s[j]
    ensures HashesEnd(t, k) == HashesEnd(s, k)
    decreases |s| - k
  {
    if k < |s| && s[k] == '#' {
      HashesAgree(s, t, k + 1);
    }
  }

  lemma {:induction false} RawEndAgrees(s: string, t: string, k: nat, hashes: nat)
    requires Shadows(s, t) && k <= |s| && forall j :: k <= j < RawEnd(s, k, hashes) ==> t[j] == s[j]
    ensures RawEnd(t, k, hashes) == RawEnd(s, k, hashes)
    decreases |s| - k
  {
    if k < |s| && !ClosesAt(s, k, hashes) {
      RawEndAgrees(s, t, k + 1, hashes);
    }
  }

  lemma {:induction false} QuotedEndAgrees(s: string, t: string, i: nat, quote: char)
    requires |s| == |t| && i <= |s| && forall j :: i <= j < QuotedEnd(s, i, quote) ==> t[j] == s[j]
    ensures QuotedEnd(t, i, quote) == QuotedEnd(s, i, quote)
    decreases |s| - i
  {
    if i < |s| {
      if s[i] == '\\' {
        if i + 1 < |s| {
          QuotedEndAgrees(s, t, i + 2, quote);
        }
      } else if s[i] != quote {
        QuotedEndAgrees(s, t, i + 1, quote);
      }
    }
  }

  /** From the token boundary `i` on, `t` is the stripped `s`. */
  predicate Aligned(s: string, t: string, i: nat) {
    Shadows(s, t) && i <= |s| && t[i..] == Strip(s, i)
  }

  lemma NextAligned(s: string, t: string, i: nat)
    requires Aligned(s, t, i) && i < |s|
    ensures Aligned(s, t, TokenAt(s, i).end)
    ensures t[i..TokenAt(s, i).end] == Shown(s, i)
  {
    hide TokenAt;
    var e := TokenAt(s, i).end;
    assert t[e..] == t[i..][e - i..] && t[i..e] == t[i..][..e - i];
  }

  lemma KeptHere(s: string, t: string, i: nat, j: nat)
    requires Aligned(s, t, i) && i < |s| && !TokenAt(s, i).kind.Comment? && i <= j < TokenAt(s, i).end
    ensures t[j] == s[j]
  {
    hide TokenAt, Strip;
    var e := TokenAt(s, i).end;
    NextAligned(s, t, i);
    assert t[i..e][j - i] == t[j] && s[i..e][j - i] == s[j];
  }

  lemma {:induction false} HashesKept(s: string, t: string, j: nat, x: nat)
    requires Aligned(s, t, j) && j <= x < HashesEnd(s, j)
    ensures t[x] == s[x]
    decreases |s| - j
  {
    hide Strip, Shadows;
    KeptHere(s, t, j, j);
    if x > j {
      NextAligned(s, t, j);
      HashesKept(s, t, j + 1, x);
    }
  }

  lemma RawAgain(s: string, t: string, i: nat)
    requires Aligned(s, t, i) && i < |s| && RawStart(s, i)
    ensures TokenAt(t, i) == TokenAt(s, i)
  {
    hide Strip, Ranges;
    var e, k := TokenAt(s, i).end, HashesEnd(s, i + 1);
    forall j | i <= j < e ensures t[j] == s[j] {
      KeptHere(s, t, i, j);
    }
    HashesAgree(s, t, i + 1);
    RawEndAgrees(s, t, k + 1, k - (i + 1));
  }

  lemma QuotedAgain(s: string, t: string, i: nat)
    requires Aligned(s, t, i) && i < |s| && !RawStart(s, i) && (s[i] == '"' || CharStart(s, i))
    ensures TokenAt(t, i) == TokenAt(s, i)
  {
    hide Strip, Ranges, HashesEnd;
    var e := TokenAt(s, i).end;
    forall j | i <= j < e ensures t[j] == s[j] {
      KeptHere(s, t, i, j);
    }
    if CharStart(s, i) && i + 2 < |s| && e == i + 2 && s[i + 2] == '\'' {
      NextAligned(s, t, i);
      KeptHere(s, t, i + 2, i + 2);
    }
    QuotedEndAgrees(s, t, i + 1, s[i]);
  }

  lemma PlainAgain(s: string, t: string, i: nat)
    requires Aligned(s, t, i) && i < |s| && TokenAt(s, i).kind.Plain?
    ensures TokenAt(t, i) == TokenAt(s, i)
  {
    hide Strip, Ranges;
    KeptHere(s, t, i, i);
    NextAligned(s, t, i);
    if s[i] == 'r' && i + 1 < |s| {
      forall x | i + 1 <= x < HashesEnd(s, i + 1) ensures t[x] == s[x] {
        HashesKept(s, t, i + 1, x);
      }
      HashesAgree(s, t, i + 1);
    }
  }

  /** No token from `i` on is a comment. */
  predicate CommentFree(s: string, i: nat)
    requires i <= |s|
    decreases |s| - i
  {
    i == |s| || (!TokenAt(s, i).kind.Comment? && CommentFree(s, TokenAt(s, i).end))
  }

  lemma CommentFreeNext(s: string, i: nat)
    requires i < |s|
    ensures CommentFree(s, i) <==> !TokenAt(s, i).kind.Comment? && CommentFree(s, TokenAt(s, i).end)
  {
  }

  lemma BlankIsPlain(t: string, i: nat)
    requires i < |t| && (t[i] == ' ' || t[i] == '\n')
    ensures TokenAt(t, i) == Token(Plain, i + 1)
  {
  }

  /** Blanked text has no tokens of its own. */
  lemma {:induction false} BlankAgain(t: string, i: nat, e: nat)
    requires i <= e <= |t| && forall j :: i <= j < e ==> t[j] == ' ' || t[j] == '\n'
    ensures Strip(t, i) == t[i..e] + Strip(t, e) && Ranges(t, i) == Ranges(t, e)
    ensures CommentFree(t, i) == CommentFree(t, e)
    decreases e - i
  {
    hide TokenAt, Strip, Ranges, CommentFree;
    if i < e {
      BlankIsPlain(t, i);
      BlankAgain(t, i + 1, e);
      StripNext(t, i);
      assert t[i..e] + Strip(t, e) == t[i..i + 1] + (t[i + 1..e] + Strip(t, e));
      CommentFreeNext(t, i);
    } else {
      assert t[i..e] == [];
    }
  }

  lemma {:induction false} StripAgain(s: string, t: string, i: nat)
    requires Aligned(s, t, i)
    ensures Strip(t, i) == Strip(s, i) && Ranges(t, i) == Ranges(s, i) && CommentFree(t, i)
    decreases |s| - i
  {
    hide TokenAt, Shadows;
    if i < |s| {
      var k := TokenAt(s, i);
      NextAligned(s, t, i);
      StripAgain(s, t, k.end);
      if k.kind.Comment? {
        assert forall j :: i <= j < k.end ==> t[j] == t[i..k.end][j - i];
        BlankAgain(t, i, k.end);
        assert [] + Ranges(s, k.end) == Ranges(s, k.end);
      } else {
        SameToken(s, t, i);
      }
    }
  }

  lemma SameToken(s: string, t: string, i: nat)
    requires Aligned(s, t, i) && i < |s| && !TokenAt(s, i).kind.Comment?
    ensures TokenAt(t, i) == TokenAt(s, i)
  {
    hide Aligned, HashesEnd;
    if RawStart(s, i) {
      RawAgain(s, t, i);
    } else if s[i] == '"' || CharStart(s, i) {
      QuotedAgain(s, t, i);
    } else {
      PlainAgain(s, t, i);
    }
  }

  /** No comment is left, so stripping again changes nothing and finds the same literals. */
  lemma StripIsIdempotent(s: string)
    ensures CommentFree(Strip(s, 0), 0)
    ensures Strip(Strip(s, 0), 0) == Strip(s, 0) && Ranges(Strip(s, 0), 0) == Ranges(s, 0)
  {
    hide Strip, Ranges, CommentFree;
    var t := Strip(s, 0);
    StripPreservesLayout(s);
    assert t[0..] == t;
    StripAgain(s, t, 0);
  }

  // ---- the loops ---------------------------------------------------------------------------------

  method CopyQuoted(s: string, start: nat, quote: char) returns (text: string, i: nat)
    requires start <= |s|
    ensures i == QuotedEnd(s, start, quote) && text == s[start..i]
  {
    text, i := [], start;
    while i < |s|
      invariant start <= i <= |s| && text == s[start..i]
      invariant QuotedEnd(s, i, quote) == QuotedEnd(s, start, quote)
    {
      assert s[start..i + 1] == s[start..i] + [s[i]];
      text := text + [s[i]];
      if s[i] == '\\' {
        i := i + 1;
        if i < |s| {
          assert s[start..i + 1] == s[start..i] + [s[i]];
          text := text + [s[i]];
          i := i + 1;
        }
        continue;
      }
      if s[i] == quote {
        i := i + 1;
        break;
      }
      i := i + 1;
    }
  }

  lemma BlankNext(s: string, start: nat, i: nat)
    requires start <= i < |s|
    ensures Blank(s[start..i + 1]) == Blank(s[start..i]) + [if s[i] == '\n' then '\n' else ' ']
  {
  }

  lemma BlankTwo(s: string, start: nat, i: nat)
    requires start <= i && i + 1 < |s| && s[i] != '\n' && s[i + 1] != '\n'
    ensures Blank(s[start..i + 2]) == Blank(s[start..i]) + "  "
  {
    BlankNext(s, start, i);
    BlankNext(s, start, i + 1);
  }

  method BlankLine(s: string, start: nat) returns (text: string, i: nat)
    requires start <= |s|
    ensures i == LineEnd(s, start) && text == Blank(s[start..i])
  {
    text, i := [], start;
    while i < |s| && s[i] != '\n'
      invariant start <= i <= |s| && text == Blank(s[start..i])
      invariant LineEnd(s, i) == LineEnd(s, start)
    {
      BlankNext(s, start, i);
      text := text + [' '];
      i := i + 1;
    }
  }

  method BlankBlock(s: string, start: nat) returns (text: string, i: nat)
    requires Two(s, start, '/', '*')
    ensures i == BlockEnd(s, start + 2, 1) && text == Blank(s[start..i])
  {
    text, i := "  ", start + 2;
    var depth := 1;
    BlankTwo(s, start, start);
    assert Blank(s[start..start]) + "  " == "  ";
    while i < |s| && depth > 0
      invariant start + 2 <= i <= |s| && text == Blank(s[start..i])
      invariant BlockEnd(s, i, depth) == BlockEnd(s, start + 2, 1)
      decreases |s| - i
    {
      if Two(s, i, '/', '*') {
        BlankTwo(s, start, i);
        text, i, depth := text + "  ", i + 2, depth + 1;
      } else if Two(s, i, '*', '/') {
        BlankTwo(s, start, i);
        text, i, depth := text + "  ", i + 2, depth - 1;
      } else {
        BlankNext(s, start, i);
        text := text + [if s[i] == '\n' then '\n' else ' '];
        i := i + 1;
      }
    }
  }

  method CountHashes(s: string, start: nat) returns (k: nat)
    requires start <= |s|
    ensures k == HashesEnd(s, start)
  {
    k := start;
    while k < |s| && s[k] == '#'
      invariant start <= k <= |s| && HashesEnd(s, k) == HashesEnd(s, start)
    {
      k := k + 1;
    }
  }

  /** The token at `i` as it is written out. */
  method Emit(s: string, i: nat) returns (text: string, t: Token)
    requires i < |s|
    ensures t == TokenAt(s, i) && text == Shown(s, i)
  {
    var e;
    if s[i] == 'r' && i + 1 < |s| && (s[i + 1] == '"' || s[i + 1] == '#') {
      var k := CountHashes(s, i + 1);
      if k < |s| && s[k] == '"' {
        e := RawEnd(s, k + 1, k - (i + 1));
        return s[i..e], Token(Literal, e);
      }
    }
    if s[i] == '"' || CharStart(s, i) {
      text, e := CopyQuoted(s, i + 1, s[i]);
      assert s[i..e] == [s[i]] + s[i + 1..e];
      return [s[i]] + text, Token(Literal, e);
    }
    if Two(s, i, '/', '/') {
      text, e := BlankLine(s, i);
      return text, Token(Comment, e);
    }
    if Two(s, i, '/', '*') {
      text, e := BlankBlock(s, i);
      return text, Token(Comment, e);
    }
    return [s[i]], Token(Plain, i + 1);
  }

  method StripComments(s: string) returns (out: string, literals: seq<Range>)
    ensures out == Strip(s, 0) && literals == Ranges(s, 0)
  {
    hide TokenAt, Shown, Strip, Ranges;
    out, literals := [], [];
    var i := 0;
    assert [] + Strip(s, 0) == Strip(s, 0) && [] + Ranges(s, 0) == Ranges(s, 0);
    while i < |s|
      invariant i <= |s| && |out| == i
      invariant out + Strip(s, i) == Strip(s, 0) && literals + Ranges(s, i) == Ranges(s, 0)
    {
      StripNext(s, i);
      var text, t := Emit(s, i);
      ghost var rest, found := Strip(s, t.end), Ranges(s, t.end);
      assert (out + text) + rest == out + (text + rest);
      if t.kind.Literal? {
        assert (literals + [(i, t.end)]) + found == literals + ([(i, t.end)] + found);
        literals := literals + [(|out|, |out| + |text|)];
      }
      out := out + text;
      i := t.end;
    }
    StripNothing(s);
  }

  lemma StripNext(s: string, i: nat)
    requires i < |s|
    ensures Strip(s, i) == Shown(s, i) + Strip(s, TokenAt(s, i).end)
    ensures var t := TokenAt(s, i);
            Ranges(s, i) == if t.kind.Literal? then [(i, t.end)] + Ranges(s, t.end) else Ranges(s, t.end)
  {
  }

  lemma StripNothing(s: string)
    ensures Strip(s, |s|) == [] && Ranges(s, |s|) == []
  {
  }
}
