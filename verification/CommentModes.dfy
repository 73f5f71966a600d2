/** Rust comments and literals by an automaton that reads one character at a time, and the stripper against it. */
module CommentModes {
  import opened CommentStripper

  // ---- the automaton -------------------------------------------------------------------------

  /** `word` stands at `i`. */
  predicate At(s: string, i: nat, word: string) {
    i + |word| <= |s| && s[i..i + |word|] == word
  }

  function Hashes(n: nat): (r: string) {
    seq(n, _ => '#')
  }

  /** A raw string opens at `i`: `r`, `n` hash signs, a quote. */
  predicate RawOpens(s: string, i: nat, n: nat) {
    At(s, i, "r" + Hashes(n) + "\"")
  }

  /** A character literal opens at `i`: an escape, or one character and a quote; otherwise it is a lifetime. */
  predicate CharOpens(s: string, i: nat) {
    At(s, i, "'\\") || (i + 2 < |s| && s[i] == '\'' && s[i + 2] == '\'')
  }

  /**
    Where the reader is: in code, in a line comment, in a block comment `depth` deep (`half`: on the
    second character of a delimiter), in a quoted literal (`escaped`: behind a backslash), or in a raw
    string with `opening` or `closing` characters of its delimiters still to come.
  */
  datatype Mode =
    | Code
    | Line
    | Block(depth: nat, half: bool)
    | Quoted(quote: char, escaped: bool)
    | Raw(hashes: nat, opening: nat, closing: nat)

  /** The mode behind the character at `i`. */
  ghost function Next(s: string, i: nat, m: Mode): (m': Mode)
    requires i < |s|
  {
    match m
    case Code =>
      if exists n :: RawOpens(s, i, n) then
        var n: nat :| RawOpens(s, i, n);
        Raw(n, n + 1, 0)
      else if s[i] == '"' || CharOpens(s, i) then Quoted(s[i], false)
      else if At(s, i, "//") then Line
      else if At(s, i, "/*") then Block(1, true)
      else Code
    case Line => if At(s, i + 1, "\n") then Code else Line
    case Block(depth, half) =>
      if half then (if depth == 0 then Code else Block(depth, false))
      else if At(s, i, "/*") then Block(depth + 1, true)
      else if At(s, i, "*/") && depth > 0 then Block(depth - 1, true)
      else m
    case Quoted(quote, escaped) =>
      if escaped then Quoted(quote, false)
      else if s[i] == '\\' then Quoted(quote, true)
      else if s[i] == quote then Code
      else m
    case Raw(n, opening, closing) =>
      if opening > 0 then Raw(n, opening - 1, 0)
      else if closing > 0 then (if closing == 1 then Code else Raw(n, 0, closing - 1))
      else if At(s, i, "\"" + Hashes(n)) then (if n == 0 then Code else Raw(n, 0, n))
      else m
  }

  /** The mode in front of the character at `i`. */
  ghost function ModeAt(s: string, i: nat): (m: Mode)
    requires i <= |s|
  {
    if i == 0 then Code else Next(s, i - 1, ModeAt(s, i - 1))
  }

  ghost predicate LiteralOpens(s: string, i: nat)
    requires i < |s|
  {
    (exists n :: RawOpens(s, i, n)) || s[i] == '"' || CharOpens(s, i)
  }

  predicate CommentOpens(s: string, i: nat) {
    At(s, i, "//") || At(s, i, "/*")
  }

  ghost predicate InLiteral(s: string, i: nat)
    requires i < |s|
  {
    var m := ModeAt(s, i);
    m.Quoted? || m.Raw? || (m.Code? && LiteralOpens(s, i))
  }

  ghost predicate InComment(s: string, i: nat)
    requires i < |s|
  {
    var m := ModeAt(s, i);
    m.Line? || m.Block? || (m.Code? && CommentOpens(s, i))
  }

  // ---- tokens are stretches of one mode -----------------------------------------------------------

  /** From `i` to `e` the reader is in a comment. */
  ghost predicate CommentedTo(s: string, i: nat, e: nat)
    requires i <= e <= |s|
  {
    forall k :: i <= k < e ==> ModeAt(s, k).Line? || ModeAt(s, k).Block?
  }

  ghost predicate LiteralTo(s: string, i: nat, e: nat)
    requires i <= e <= |s|
  {
    forall k :: i <= k < e ==> ModeAt(s, k).Quoted? || ModeAt(s, k).Raw?
  }

  lemma PairAt(s: string, i: nat, a: char, b: char)
    ensures At(s, i, [a, b]) <==> Two(s, i, a, b)
  {
    if i + 2 <= |s| {
      assert s[i..i + 2] == [s[i], s[i + 1]];
    }
  }

  lemma {:induction false} LineModes(s: string, i: nat)
    requires i <= |s| && (i < |s| ==> ModeAt(s, i) == if s[i] == '\n' then Code else Line)
    ensures var e := LineEnd(s, i); CommentedTo(s, i, e) && (e < |s| ==> ModeAt(s, e) == Code)
    decreases |s| - i
  {
    if i < |s| && s[i] != '\n' {
      LineModes(s, i + 1);
    }
  }

  /** One or two characters on in a block comment. */
  lemma BlockStep(s: string, i: nat, depth: nat)
    requires i < |s| && depth > 0 && ModeAt(s, i) == Block(depth, false)
    ensures Two(s, i, '/', '*') || Two(s, i, '*', '/') ==> i + 2 <= |s| && ModeAt(s, i + 1).Block?
    ensures Two(s, i, '/', '*') ==> ModeAt(s, i + 2) == Block(depth + 1, false)
    ensures Two(s, i, '*', '/') ==> ModeAt(s, i + 2) == if depth == 1 then Code else Block(depth - 1, false)
    ensures !Two(s, i, '/', '*') && !Two(s, i, '*', '/') ==> ModeAt(s, i + 1) == Block(depth, false)
  {
    hide At;
    PairAt(s, i, '/', '*');
    PairAt(s, i, '*', '/');
  }

  lemma {:induction false} BlockModes(s: string, i: nat, depth: nat)
    requires i <= |s| && (i < |s| ==> ModeAt(s, i) == if depth == 0 then Code else Block(depth, false))
    ensures var e := BlockEnd(s, i, depth); CommentedTo(s, i, e) && (e < |s| ==> ModeAt(s, e) == Code)
    decreases |s| - i
  {
    hide ModeAt, Two;
    if i < |s| && depth > 0 {
      BlockStep(s, i, depth);
      if Two(s, i, '/', '*') {
        BlockModes(s, i + 2, depth + 1);
      } else if Two(s, i, '*', '/') {
        BlockModes(s, i + 2, depth - 1);
      } else {
        BlockModes(s, i + 1, depth);
      }
    }
  }

  lemma {:induction false} QuotedModes(s: string, i: nat, quote: char)
    requires i <= |s| && (i < |s| ==> ModeAt(s, i) == Quoted(quote, false))
    ensures var e := QuotedEnd(s, i, quote); LiteralTo(s, i, e) && (e < |s| ==> ModeAt(s, e) == Code)
    decreases |s| - i
  {
    if i < |s| {
      if s[i] == '\\' {
        assert ModeAt(s, i + 1) == Quoted(quote, true);
        if i + 1 < |s| {
          QuotedModes(s, i + 2, quote);
        }
      } else if s[i] != quote {
        QuotedModes(s, i + 1, quote);
      }
    }
  }

  lemma RawOpensExactly(s: string, i: nat, n: nat)
    requires i < |s|
    ensures RawOpens(s, i, n) <==> RawStart(s, i) && HashesEnd(s, i + 1) == i + 1 + n
  {
    var word := "r" + Hashes(n) + "\"";
    assert word[0] == 'r' && word[n + 1] == '"' && forall j :: 1 <= j <= n ==> word[j] == '#';
    if RawOpens(s, i, n) {
      var here := s[i..i + n + 2];
      assert forall j :: i <= j < i + n + 2 ==> s[j] == here[j - i];
      HashesStop(s, i + 1, i + 1 + n);
    }
    if RawStart(s, i) && HashesEnd(s, i + 1) == i + 1 + n {
      assert s[i..i + n + 2] == word;
    }
  }

  lemma {:induction false} HashesStop(s: string, k: nat, e: nat)
    requires k <= e < |s| && s[e] != '#' && forall j :: k <= j < e ==> s[j] == '#'
    ensures HashesEnd(s, k) == e
    decreases e - k
  {
    if k < e {
      HashesStop(s, k + 1, e);
    }
  }

  lemma ClosesExactly(s: string, k: nat, n: nat)
    ensures At(s, k, "\"" + Hashes(n)) <==> ClosesAt(s, k, n)
  {
    var word := "\"" + Hashes(n);
    assert word[0] == '"' && forall j :: 1 <= j <= n ==> word[j] == '#';
    if At(s, k, word) {
      var here := s[k..k + n + 1];
      assert forall j :: k <= j < k + n + 1 ==> s[j] == here[j - k];
    }
    if ClosesAt(s, k, n) {
      assert s[k..k + n + 1] == word;
    }
  }

  /** Through the opening delimiter. */
  lemma {:induction false} OpeningModes(s: string, i: nat, n: nat, opening: nat)
    requires i + opening <= |s| && ModeAt(s, i) == Raw(n, opening, 0)
    ensures LiteralTo(s, i, i + opening) && ModeAt(s, i + opening) == Raw(n, 0, 0)
    decreases opening
  {
    hide At;
    if opening > 0 {
      OpeningModes(s, i + 1, n, opening - 1);
    }
  }

  lemma {:induction false} ClosingModes(s: string, i: nat, n: nat, closing: nat)
    requires 0 < closing && i + closing <= |s| && ModeAt(s, i) == Raw(n, 0, closing)
    ensures LiteralTo(s, i, i + closing) && ModeAt(s, i + closing) == Code
    decreases closing
  {
    hide At;
    if closing > 1 {
      ClosingModes(s, i + 1, n, closing - 1);
    }
  }

  lemma {:induction false} RawModes(s: string, i: nat, n: nat)
    requires i <= |s| && ModeAt(s, i) == Raw(n, 0, 0)
    ensures var e := RawEnd(s, i, n); LiteralTo(s, i, e) && (e < |s| ==> ModeAt(s, e) == Code)
    decreases |s| - i
  {
    hide At;
    if i < |s| {
      ClosesExactly(s, i, n);
      if !ClosesAt(s, i, n) {
        RawModes(s, i + 1, n);
      } else if n > 0 {
        ClosingModes(s, i + 1, n, n);
      }
    }
  }

  /** A token that starts in code is a stretch of its own kind, and code goes on behind it. */
  lemma TokenModes(s: string, i: nat)
    requires i < |s| && ModeAt(s, i) == Code
    ensures var t := TokenAt(s, i);
            && (t.kind.Literal? <==> LiteralOpens(s, i))
            && (t.kind.Comment? <==> !LiteralOpens(s, i) && CommentOpens(s, i))
            && (t.kind.Literal? ==> LiteralTo(s, i + 1, t.end)) && (t.kind.Comment? ==> CommentedTo(s, i + 1, t.end))
            && (t.end < |s| ==> ModeAt(s, t.end) == Code)
  {
    StartsAre(s, i);
    var m := ModeAt(s, i + 1);
    hide LiteralTo, CommentedTo, ModeAt;
    if RawStart(s, i) {
      RawTokenModes(s, i);
    } else if s[i] == '"' || CharStart(s, i) {
      QuotedModes(s, i + 1, s[i]);
    } else if Two(s, i, '/', '/') {
      LineModes(s, i + 1);
    } else if Two(s, i, '/', '*') {
      BlockTokenModes(s, i);
    }
  }

  lemma StartsAre(s: string, i: nat)
    requires i < |s| && ModeAt(s, i) == Code
    ensures LiteralOpens(s, i) <==> RawStart(s, i) || s[i] == '"' || CharStart(s, i)
    ensures CommentOpens(s, i) <==> Two(s, i, '/', '/') || Two(s, i, '/', '*')
    ensures ModeAt(s, i + 1) ==
            if RawStart(s, i) then var n := HashesEnd(s, i + 1) - i - 1; Raw(n, n + 1, 0)
            else if s[i] == '"' || CharStart(s, i) then Quoted(s[i], false)
            else if Two(s, i, '/', '/') then Line
            else if Two(s, i, '/', '*') then Block(1, true)
            else Code
  {
    forall n: nat ensures RawOpens(s, i, n) <==> RawStart(s, i) && HashesEnd(s, i + 1) == i + 1 + n {
      RawOpensExactly(s, i, n);
    }
    if RawStart(s, i) {
      assert RawOpens(s, i, HashesEnd(s, i + 1) - (i + 1));
    }
    hide RawOpens, RawStart, HashesEnd;
  }

  lemma LiteralJoin(s: string, i: nat, j: nat, e: nat)
    requires i <= j <= e <= |s| && LiteralTo(s, i, j) && LiteralTo(s, j, e)
    ensures LiteralTo(s, i, e)
  {
  }

  lemma RawTokenModes(s: string, i: nat)
    requires i < |s| && ModeAt(s, i) == Code && RawStart(s, i)
    ensures LiteralTo(s, i + 1, TokenAt(s, i).end)
    ensures TokenAt(s, i).end < |s| ==> ModeAt(s, TokenAt(s, i).end) == Code
  {
    StartsAre(s, i);
    var k := HashesEnd(s, i + 1);
    var e := RawEnd(s, k + 1, k - (i + 1));
    assert TokenAt(s, i).end == e;
    hide *;
    OpeningModes(s, i + 1, k - (i + 1), k - i);
    RawModes(s, k + 1, k - (i + 1));
    LiteralJoin(s, i + 1, k + 1, e);
  }

  lemma BlockTokenModes(s: string, i: nat)
    requires i < |s| && ModeAt(s, i) == Code && !LiteralOpens(s, i) && Two(s, i, '/', '*')
    ensures CommentedTo(s, i + 1, BlockEnd(s, i + 2, 1))
    ensures BlockEnd(s, i + 2, 1) < |s| ==> ModeAt(s, BlockEnd(s, i + 2, 1)) == Code
  {
    StartsAre(s, i);
    assert ModeAt(s, i + 2) == Block(1, false);
    BlockModes(s, i + 2, 1);
  }

  // ---- the stripper -----------------------------------------------------------------------------

  /** The character at `k` as the automaton has it written out. */
  ghost function Out(s: string, k: nat): (c: char)
    requires k < |s|
  {
    if InComment(s, k) && s[k] != '\n' then ' ' else s[k]
  }

  /** Within the token at `i`. */
  lemma TokenPlaces(s: string, i: nat, k: nat)
    requires i < |s| && ModeAt(s, i) == Code && i <= k < TokenAt(s, i).end
    ensures Shown(s, i)[k - i] == Out(s, k)
    ensures InLiteral(s, k) <==> TokenAt(s, i).kind.Literal?
    ensures k > i ==> ModeAt(s, k) != Code
  {
    TokenModes(s, i);
    if CommentOpens(s, i) {
      NotBoth(s, i);
    }
    hide TokenAt, ModeAt, LiteralOpens, CommentOpens;
  }

  lemma NotBoth(s: string, i: nat)
    requires i < |s| && CommentOpens(s, i)
    ensures !LiteralOpens(s, i)
  {
    assert s[i..i + 2][0] == s[i];
    forall n: nat ensures !RawOpens(s, i, n) {
      if RawOpens(s, i, n) {
        RawOpensExactly(s, i, n);
      }
    }
    PairAt(s, i, '\'', '\\');
    assert s[i] == '/';
  }

  predicate Covers(ranges: seq<Range>, k: nat) {
    exists r :: r in ranges && r.0 <= k < r.1
  }

  predicate StartsAt(ranges: seq<Range>, k: nat) {
    exists r :: r in ranges && r.0 == k
  }

  /** A first range in front of later ones. */
  lemma CoversFirst(i: nat, e: nat, rest: seq<Range>, hi: nat, k: nat)
    requires i < e && Sorted(rest, e, hi)
    ensures Covers([(i, e)] + rest, k) <==> i <= k < e || Covers(rest, k)
    ensures StartsAt([(i, e)] + rest, k) <==> i == k || StartsAt(rest, k)
    ensures k < e ==> !Covers(rest, k) && !StartsAt(rest, k)
  {
    var all := [(i, e)] + rest;
    assert all[0] == (i, e) && forall r :: r in all <==> r == (i, e) || r in rest;
  }

  lemma {:induction false} StripPlaces(s: string, i: nat, k: nat)
    requires i <= k < |s| && ModeAt(s, i) == Code
    ensures Strip(s, i)[k - i] == Out(s, k)
    ensures InLiteral(s, k) <==> Covers(Ranges(s, i), k)
    ensures ModeAt(s, k) == Code && LiteralOpens(s, k) <==> StartsAt(Ranges(s, i), k)
    decreases |s| - i
  {
    var t := TokenAt(s, i);
    StripNext(s, i);
    TokenModes(s, i);
    RangesSorted(s, t.end);
    CoversFirst(i, t.end, Ranges(s, t.end), |s|, k);
    hide TokenAt, ModeAt, Strip, Ranges, InLiteral, Out, Shown, LiteralOpens, Covers, StartsAt, Sorted, CommentOpens;
    if k < t.end {
      TokenPlaces(s, i, k);
    } else {
      StripPlaces(s, t.end, k);
    }
  }

  /**
    For every text: a character is blanked exactly when it lies in a comment and is no line break, the
    recorded ranges cover exactly the literals, and one starts exactly where a literal opens in code.
  */
  lemma StripExactly(s: string, k: nat)
    requires k < |s|
    ensures Strip(s, 0)[k] == if InComment(s, k) && s[k] != '\n' then ' ' else s[k]
    ensures InLiteral(s, k) <==> Covers(Ranges(s, 0), k)
    ensures ModeAt(s, k) == Code && LiteralOpens(s, k) <==> StartsAt(Ranges(s, 0), k)
  {
    hide InLiteral, InComment, LiteralOpens, Covers, StartsAt, Strip, Ranges;
    StripPlaces(s, 0, k);
  }

  /** No comment opens in the result outside a recorded literal. */
  lemma NoCommentLeft(s: string, k: nat)
    requires k < |s| && CommentOpens(Strip(s, 0), k)
    ensures Covers(Ranges(s, 0), k)
  {
    hide InLiteral, InComment, Covers, Strip, Ranges, At, ModeAt;
    var t := Strip(s, 0);
    PairAt(t, k, '/', '/');
    PairAt(t, k, '/', '*');
    PairAt(s, k, '/', '/');
    PairAt(s, k, '/', '*');
    StripExactly(s, k);
    StripExactly(s, k + 1);
    if !InLiteral(s, k) {
      OutsideLiterals(s, k);
    }
  }

  lemma OutsideLiterals(s: string, k: nat)
    requires k < |s| && !InLiteral(s, k)
    ensures InComment(s, k) || !CommentOpens(s, k)
  {
  }
}
