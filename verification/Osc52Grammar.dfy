/**
  The grammar of the terminal output stream, stated over a whole byte string.

  A stream is a sequence of tokens: bytes shown as they are, OSC introducers whose command
  turned out not to be 52 (shown as they are), complete OSC 52 candidates (always stripped)
  and DECRQM replies (stripped).  What is left at the end is an undecided suffix.
  OSC and ST are the control functions of ECMA-48, sections 8.3.89 and 8.3.143.
*/
module Osc52Grammar {
  import opened Bytes

  const ESC: byte := 0x1b
  const BEL: byte := 0x07
  const C1_OSC: byte := 0x9d
  const C1_ST: byte := 0x9c
  const UTF8_C2: byte := 0xc2
  const OPEN_BRACKET: byte := 0x5b
  const CLOSE_BRACKET: byte := 0x5d
  const BACKSLASH: byte := 0x5c
  const QUESTION: byte := 0x3f
  const SEMICOLON: byte := 0x3b
  const DOLLAR: byte := 0x24
  const LOWER_Y: byte := 0x79
  const DIGITS_52: seq<byte> := [0x35, 0x32]

  /** A DECRQM reply is looked for in this many bytes from its ESC. */
  const REPLY_WINDOW := 128

  predicate IsDigit(b: byte) {
    0x30 <= b <= 0x39
  }

  datatype Token =
    | Plain(b: byte)
    | Rejected(bytes: seq<byte>)
    | Clip(bytes: seq<byte>)
    | Reply(bytes: seq<byte>)

  function TokenBytes(t: Token): (r: seq<byte>) {
    match t
    case Plain(b) => [b]
    case Rejected(s) => s
    case Clip(s) => s
    case Reply(s) => s
  }

  /** The bytes of a token that reach the display. */
  function Shown(t: Token): (r: seq<byte>) {
    match t
    case Plain(b) => [b]
    case Rejected(s) => s
    case Clip(_) => []
    case Reply(_) => []
  }

  /** Where an OSC candidate stands after the bytes read so far. */
  datatype Osc =
    | More(inPayload: bool, sawEsc: bool)
    | TooLong
    | NotOsc52(end: nat)
    | Complete(end: nat)

  /** Payload of an OSC 52 candidate `s`, read from index `i` on. */
  function Payload(s: seq<byte>, i: nat, sawEsc: bool, cap: nat): (r: Osc)
    requires 1 <= i <= |s|
    ensures r.Complete? ==> i < r.end <= |s| && r.end <= cap
    ensures !r.NotOsc52?
    decreases |s| - i
  {
    if i == |s| then More(true, sawEsc)
    else if i + 1 > cap then TooLong
    else if sawEsc then
      if s[i] == BACKSLASH then Complete(i + 1) else Payload(s, i + 1, false, cap)
    else if s[i] == BEL then Complete(i + 1)
    else if s[i] == C1_ST && s[i - 1] != UTF8_C2 then Complete(i + 1)
    else Payload(s, i + 1, s[i] == ESC, cap)
  }

  /** Command digits of a candidate `s` whose introducer is `k` bytes long, read from `i` on. */
  function Command(s: seq<byte>, k: nat, i: nat, cap: nat): (r: Osc)
    requires 1 <= k <= i <= |s|
    ensures r.Complete? || r.NotOsc52? ==> i < r.end <= |s|
    decreases |s| - i
  {
    if i == |s| then More(false, false)
    else if IsDigit(s[i]) then
      if i + 1 > cap then TooLong else Command(s, k, i + 1, cap)
    else if s[i] == SEMICOLON && s[k..i] == DIGITS_52 then
      if i + 1 > cap then TooLong else Payload(s, i + 1, false, cap)
    else NotOsc52(i + 1)
  }

  /** End of the first `$y` at or after `i` inside the reply window. */
  function ReplyEnd(s: seq<byte>, i: nat): (r: Option<nat>)
    ensures r.Some? ==> i + 2 <= r.value <= |s| && r.value <= REPLY_WINDOW
    decreases |s| - i
  {
    if i + 1 >= |s| || i + 1 >= REPLY_WINDOW then None
    else if s[i] == DOLLAR && s[i + 1] == LOWER_Y then Some(i + 2)
    else ReplyEnd(s, i + 1)
  }

  /** What the front of a nonempty string is. */
  datatype Head = Hold | Overflow | Take(token: Token, len: nat)

  function OscHead(s: seq<byte>, k: nat, cap: nat): (r: Head)
    requires 1 <= k <= |s|
    ensures r.Take? ==> 1 <= r.len <= |s| && TokenBytes(r.token) == s[..r.len]
  {
    match Command(s, k, k, cap)
    case More(_, _) => Hold
    case TooLong => Overflow
    case NotOsc52(e) => Take(Rejected(s[..e]), e)
    case Complete(e) => Take(Clip(s[..e]), e)
  }

  function HeadOf(s: seq<byte>, afterC2: bool, cap: nat): (r: Head)
    requires s != []
    ensures r.Take? ==> 1 <= r.len <= |s| && TokenBytes(r.token) == s[..r.len]
  {
    if s[0] == ESC then
      if |s| == 1 || (|s| == 2 && s[1] == OPEN_BRACKET) then Hold
      else if s[1] == CLOSE_BRACKET then OscHead(s, 2, cap)
      else if s[1] == OPEN_BRACKET && s[2] == QUESTION then
        match ReplyEnd(s, 3) {
          case Some(e) => Take(Reply(s[..e]), e)
          case None => if |s| < REPLY_WINDOW then Hold else Take(Plain(ESC), 1)
        }
      else Take(Plain(ESC), 1)
    else if s[0] == C1_OSC && !afterC2 then OscHead(s, 1, cap)
    else Take(Plain(s[0]), 1)
  }

  /** A decomposed stream: the tokens in order, then what is still undecided. */
  datatype Scan = Scan(tokens: seq<Token>, pending: seq<byte>, overflowed: bool)

  /** `afterC2`: the byte before `s` was 0xC2, so that a leading 0x9D is UTF-8 data. */
  function Lex(s: seq<byte>, afterC2: bool, cap: nat): (r: Scan)
    ensures r.overflowed ==> r.pending == []
    decreases |s|
  {
    if s == [] then Scan([], [], false)
    else
      match HeadOf(s, afterC2, cap)
      case Hold => Scan([], s, false)
      case Overflow => Scan([], [], true)
      case Take(t, n) =>
        var rest := Lex(s[n..], s[n - 1] == UTF8_C2, cap);
        Scan([t] + rest.tokens, rest.pending, rest.overflowed)
  }

  function Prepend(ts: seq<Token>, r: Scan): (q: Scan) {
    Scan(ts + r.tokens, r.pending, r.overflowed)
  }

  lemma LexTake(s: seq<byte>, afterC2: bool, cap: nat)
    requires s != [] && HeadOf(s, afterC2, cap).Take?
    ensures var Take(t, n) := HeadOf(s, afterC2, cap);
            Lex(s, afterC2, cap) == Prepend([t], Lex(s[n..], s[n - 1] == UTF8_C2, cap))
  {
  }

  lemma PrependTwice(xs: seq<Token>, ys: seq<Token>, r: Scan)
    ensures Prepend(xs, Prepend(ys, r)) == Prepend(xs + ys, r)
  {
    Assoc(xs, ys, r.tokens);
  }

  function AllBytes(ts: seq<Token>): (r: seq<byte>) {
    if ts == [] then [] else TokenBytes(ts[0]) + AllBytes(ts[1..])
  }

  function AllShown(ts: seq<Token>): (r: seq<byte>) {
    if ts == [] then [] else Shown(ts[0]) + AllShown(ts[1..])
  }

  lemma {:induction false} AllBytesConcat(xs: seq<Token>, ys: seq<Token>)
    ensures AllBytes(xs + ys) == AllBytes(xs) + AllBytes(ys)
  {
    if xs == [] {
      assert xs + ys == ys;
    } else {
      assert (xs + ys)[1..] == xs[1..] + ys;
      AllBytesConcat(xs[1..], ys);
    }
  }

  lemma {:induction false} AllShownConcat(xs: seq<Token>, ys: seq<Token>)
    ensures AllShown(xs + ys) == AllShown(xs) + AllShown(ys)
  {
    if xs == [] {
      assert xs + ys == ys;
    } else {
      assert (xs + ys)[1..] == xs[1..] + ys;
      AllShownConcat(xs[1..], ys);
    }
  }

  lemma LexStops(s: seq<byte>, afterC2: bool, cap: nat)
    requires s == [] || !HeadOf(s, afterC2, cap).Take?
    ensures Lex(s, afterC2, cap) ==
            if s == [] || HeadOf(s, afterC2, cap).Hold? then Scan([], s, false) else Scan([], [], true)
  {
    hide HeadOf;
  }

  lemma AllBytesCons(t: Token, ts: seq<Token>)
    ensures AllBytes([t] + ts) == TokenBytes(t) + AllBytes(ts)
  {
    assert ([t] + ts)[1..] == ts;
  }

  /** Nothing is lost, invented or reordered: tokens and pending spell the stream. */
  lemma {:induction false} LexConserves(s: seq<byte>, afterC2: bool, cap: nat, r: Scan)
    requires r == Lex(s, afterC2, cap)
    ensures !r.overflowed ==> AllBytes(r.tokens) + r.pending == s
    ensures r.overflowed ==> AllBytes(r.tokens) < s
    decreases |s|
  {
    hide HeadOf, Lex;
    if s == [] || !HeadOf(s, afterC2, cap).Take? {
      LexStops(s, afterC2, cap);
      assert AllBytes([]) == [];
    } else {
      var Take(t, n) := HeadOf(s, afterC2, cap);
      LexTake(s, afterC2, cap);
      var rest := Lex(s[n..], s[n - 1] == UTF8_C2, cap);
      LexConserves(s[n..], s[n - 1] == UTF8_C2, cap, rest);
      AllBytesCons(t, rest.tokens);
      assert s == s[..n] + s[n..];
      if rest.overflowed {
        var lost := s[n..][|AllBytes(rest.tokens)|..];
        assert s[n..] == AllBytes(rest.tokens) + lost;
        Assoc(s[..n], AllBytes(rest.tokens), lost);
      } else {
        Assoc(s[..n], AllBytes(rest.tokens), rest.pending);
      }
    }
  }
}
