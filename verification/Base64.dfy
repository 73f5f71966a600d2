/** Padded base64 with the standard alphabet, section 4 of RFC 4648. */
module Base64 {
  import opened Bytes

  const PAD: byte := 0x3d

  type sextet = x: int | 0 <= x < 64

  function Char(i: sextet): (c: byte) {
    if i < 26 then 65 + i
    else if i < 52 then 71 + i
    else if i < 62 then i - 4
    else if i == 62 then 43
    else 47
  }

  function Index(c: byte): (r: Option<sextet>) {
    if 65 <= c <= 90 then Some(c - 65)
    else if 97 <= c <= 122 then Some(c - 71)
    else if 48 <= c <= 57 then Some(c + 4)
    else if c == 43 then Some(62)
    else if c == 47 then Some(63)
    else None
  }

  function Group(a: byte, b: byte, d: byte): (r: seq<byte>)
    ensures |r| == 4
  {
    [Char(a / 4), Char(a % 4 * 16 + b / 16), Char(b % 16 * 4 + d / 64), Char(d % 64)]
  }

  function Encode(s: seq<byte>): (r: seq<byte>)
    ensures |r| == (|s| + 2) / 3 * 4
  {
    if |s| == 0 then []
    else if |s| == 1 then
      [Char(s[0] / 4), Char(s[0] % 4 * 16), PAD, PAD]
    else if |s| == 2 then
      [Char(s[0] / 4), Char(s[0] % 4 * 16 + s[1] / 16), Char(s[1] % 16 * 4), PAD]
    else Group(s[0], s[1], s[2]) + Encode(s[3..])
  }

  /** One last group of four characters, which alone may carry padding. */
  function DecodeLast(c: seq<byte>): (r: Option<seq<byte>>)
    requires |c| == 4
  {
    if Index(c[0]).None? || Index(c[1]).None? then None
    else
      var i0, i1 := Index(c[0]).value, Index(c[1]).value;
      if c[2] == PAD then
        if c[3] == PAD && i1 % 16 == 0 then Some([i0 * 4 + i1 / 16]) else None
      else if Index(c[2]).None? then None
      else
        var i2 := Index(c[2]).value;
        if c[3] == PAD then
          if i2 % 4 == 0 then Some([i0 * 4 + i1 / 16, i1 % 16 * 16 + i2 / 4]) else None
        else DecodeGroup(c)
  }

  function DecodeGroup(c: seq<byte>): (r: Option<seq<byte>>)
    requires |c| == 4
    ensures r.Some? ==> |r.value| == 3
  {
    if exists k :: 0 <= k < 4 && Index(c[k]).None? then None
    else
      var i0, i1, i2, i3 := Index(c[0]).value, Index(c[1]).value, Index(c[2]).value, Index(c[3]).value;
      Some([i0 * 4 + i1 / 16, i1 % 16 * 16 + i2 / 4, i2 % 4 * 64 + i3])
  }

  function Decode(c: seq<byte>): (r: Option<seq<byte>>) {
    if |c| == 0 then Some([])
    else if |c| < 4 then None
    else if |c| == 4 then DecodeLast(c)
    else
      match DecodeGroup(c[..4])
      case None => None
      case Some(head) =>
        match Decode(c[4..])
        case None => None
        case Some(tail) => Some(head + tail)
  }

  lemma IndexOfChar(i: sextet)
    ensures Index(Char(i)) == Some(i) && Char(i) != PAD
  {
  }

  lemma CharOfIndex(c: byte)
    requires Index(c).Some?
    ensures Char(Index(c).value) == c
  {
  }

  lemma Split4(x: int, y: int)
    requires 0 <= y < 4
    ensures (x * 4 + y) / 4 == x && (x * 4 + y) % 4 == y
  {
  }

  lemma Split16(x: int, y: int)
    requires 0 <= y < 16
    ensures (x * 16 + y) / 16 == x && (x * 16 + y) % 16 == y
  {
  }

  lemma Split64(x: int, y: int)
    requires 0 <= y < 64
    ensures (x * 64 + y) / 64 == x && (x * 64 + y) % 64 == y
  {
  }

  lemma EncodeGroupDecodes(a: byte, b: byte, d: byte)
    ensures DecodeGroup(Group(a, b, d)) == Some([a, b, d])
  {
    hide Char, Index;
    IndexOfChar(a / 4);
    IndexOfChar(a % 4 * 16 + b / 16);
    IndexOfChar(b % 16 * 4 + d / 64);
    IndexOfChar(d % 64);
    Split16(a % 4, b / 16);
    Split4(b % 16, d / 64);
  }

  lemma EncodeOneDecodes(a: byte)
    ensures DecodeLast([Char(a / 4), Char(a % 4 * 16), PAD, PAD]) == Some([a])
  {
    hide Char, Index;
    IndexOfChar(a / 4);
    IndexOfChar(a % 4 * 16);
    Split16(a % 4, 0);
  }

  lemma EncodeTwoDecodes(a: byte, b: byte)
    ensures DecodeLast([Char(a / 4), Char(a % 4 * 16 + b / 16), Char(b % 16 * 4), PAD]) == Some([a, b])
  {
    hide Char, Index;
    IndexOfChar(a / 4);
    IndexOfChar(a % 4 * 16 + b / 16);
    IndexOfChar(b % 16 * 4);
    Split16(a % 4, b / 16);
    Split4(b % 16, 0);
  }

  lemma GroupHasNoPadding(a: byte, b: byte, d: byte)
    ensures DecodeLast(Group(a, b, d)) == DecodeGroup(Group(a, b, d))
  {
    hide Char, Index;
    IndexOfChar(a / 4);
    IndexOfChar(a % 4 * 16 + b / 16);
    IndexOfChar(b % 16 * 4 + d / 64);
    IndexOfChar(d % 64);
  }

  /** Decoding undoes encoding, for every byte string. */
  lemma {:induction false} DecodeEncode(s: seq<byte>)
    ensures Decode(Encode(s)) == Some(s)
  {
    hide Char, Index, DecodeGroup, DecodeLast;
    if |s| == 0 {
    } else if |s| == 1 {
      EncodeOneDecodes(s[0]);
      assert s == [s[0]];
    } else if |s| == 2 {
      EncodeTwoDecodes(s[0], s[1]);
      assert s == [s[0], s[1]];
    } else {
      var code := Encode(s);
      EncodeGroupDecodes(s[0], s[1], s[2]);
      DecodeEncode(s[3..]);
      assert code == Group(s[0], s[1], s[2]) + Encode(s[3..]);
      assert code[..4] == Group(s[0], s[1], s[2]) && code[4..] == Encode(s[3..]);
      assert s == [s[0], s[1], s[2]] + s[3..];
      if |s| == 3 {
        assert code == Group(s[0], s[1], s[2]);
        GroupHasNoPadding(s[0], s[1], s[2]);
        assert s == [s[0], s[1], s[2]];
      } else {
        assert |code| > 4;
        assert DecodeGroup(code[..4]) == Some([s[0], s[1], s[2]]);
        assert Decode(code[4..]) == Some(s[3..]);
      }
    }
  }

  lemma DecodeGroupEncodes(c: seq<byte>)
    requires |c| == 4 && DecodeGroup(c).Some?
    ensures var r := DecodeGroup(c).value; Group(r[0], r[1], r[2]) == c
  {
    hide Char, Index;
    assert forall k :: 0 <= k < 4 ==> Index(c[k]).Some?;
    var i0, i1, i2, i3 := Index(c[0]).value, Index(c[1]).value, Index(c[2]).value, Index(c[3]).value;
    Split4(i0, i1 / 16);
    Split16(i1 % 16, i2 / 4);
    Split64(i2 % 4, i3);
    CharOfIndex(c[0]); CharOfIndex(c[1]); CharOfIndex(c[2]); CharOfIndex(c[3]);
  }

  lemma DecodeLastEncodes(c: seq<byte>)
    requires |c| == 4 && DecodeLast(c).Some?
    ensures Encode(DecodeLast(c).value) == c
  {
    hide Char, Index;
    var r := DecodeLast(c).value;
    CharOfIndex(c[0]); CharOfIndex(c[1]);
    if c[2] == PAD {
      Split4(Index(c[0]).value, Index(c[1]).value / 16);
    } else if c[3] == PAD {
      CharOfIndex(c[2]);
      Split4(Index(c[0]).value, Index(c[1]).value / 16);
      Split16(Index(c[1]).value % 16, Index(c[2]).value / 4);
    } else {
      DecodeGroupEncodes(c);
      assert r[3..] == [];
      assert Encode(r) == Group(r[0], r[1], r[2]) + [];
    }
  }

  /** Whatever decodes is the one canonical encoding of what it decodes to. */
  lemma {:induction false} EncodeDecode(c: seq<byte>)
    requires Decode(c).Some?
    ensures Encode(Decode(c).value) == c
  {
    hide Char, Index, DecodeGroup, DecodeLast;
    if |c| == 0 {
    } else if |c| == 4 {
      DecodeLastEncodes(c);
    } else {
      var head, tail := DecodeGroup(c[..4]).value, Decode(c[4..]).value;
      DecodeGroupEncodes(c[..4]);
      EncodeDecode(c[4..]);
      assert (head + tail)[3..] == tail;
      assert Encode(head + tail) == Group(head[0], head[1], head[2]) + Encode(tail);
      assert c == c[..4] + c[4..];
    }
  }

  predicate IsAlphabet(c: byte) {
    Index(c).Some? || c == PAD
  }

  lemma {:induction false} EncodeAlphabet(s: seq<byte>)
    ensures forall k :: 0 <= k < |Encode(s)| ==> IsAlphabet(Encode(s)[k])
  {
    if |s| > 2 {
      EncodeAlphabet(s[3..]);
      assert Encode(s)[4..] == Encode(s[3..]);
    }
  }

  // ---- what the characters stand for ----------------------------------------------------------------

  const UPPER := "ABCDEFGHIJKLMNOPQRSTUVWXYZ"
  const LOWER := "abcdefghijklmnopqrstuvwxyz"
  const OTHER := "0123456789+/"

  function Letter(i: sextet): (c: char) {
    if i < 26 then UPPER[i] else if i < 52 then LOWER[i - 26] else OTHER[i - 52]
  }

  /** Table 1 of RFC 4648, both ways. */
  lemma AlphabetExactly(i: sextet, c: byte)
    ensures Char(i) == Letter(i) as int
    ensures Index(c) == Some(i) <==> c == Letter(i) as int
  {
    if i < 26 {
      UpperLetters(i);
    } else if i < 52 {
      LowerLetters(i - 26);
    }
    hide UPPER, LOWER;
  }

  lemma UpperLetters(i: int)
    requires 0 <= i < 26
    ensures UPPER[i] as int == 65 + i
  {
  }

  lemma LowerLetters(i: int)
    requires 0 <= i < 26
    ensures LOWER[i] as int == 97 + i
  {
  }

  function Octets(x: int, y: int, z: int): (v: int) {
    (x * 256 + y) * 256 + z
  }

  function Sextets(a: int, b: int, c: int, d: int): (v: int) {
    ((a * 64 + b) * 64 + c) * 64 + d
  }

  /** Each three bytes are the 24 bits of four characters, most significant first. */
  lemma {:induction false} GroupSpells(s: seq<byte>, k: nat) returns (a: sextet, b: sextet, c: sextet, d: sextet)
    requires 3 * k + 3 <= |s|
    ensures Encode(s)[4 * k..4 * k + 4] == [Char(a), Char(b), Char(c), Char(d)]
    ensures Octets(s[3 * k], s[3 * k + 1], s[3 * k + 2]) == Sextets(a, b, c, d)
    decreases k
  {
    if k == 0 {
      a, b, c, d := s[0] / 4, s[0] % 4 * 16 + s[1] / 16, s[1] % 16 * 4 + s[2] / 64, s[2] % 64;
      assert Encode(s)[..4] == Group(s[0], s[1], s[2]);
    } else {
      hide Char, Octets, Sextets;
      a, b, c, d := GroupSpells(s[3..], k - 1);
      assert Encode(s)[4 * k..4 * k + 4] == Encode(s[3..])[4 * (k - 1)..4 * (k - 1) + 4];
    }
  }

  /** The last four characters `e` of what encodes the last one or two bytes. */
  predicate TailIs(s: seq<byte>, e: seq<byte>, one: bool, a: sextet, b: sextet, c: sextet)
    requires |s| >= (if one then 1 else 2)
  {
    var n := |s|;
    if one then [Char(a), Char(b), PAD, PAD] == e && Octets(s[n - 1], 0, 0) == Sextets(a, b, 0, 0)
    else [Char(a), Char(b), Char(c), PAD] == e && Octets(s[n - 2], s[n - 1], 0) == Sextets(a, b, c, 0)
  }

  function LastFour(e: seq<byte>): (r: seq<byte>) {
    if |e| < 4 then [] else e[|e| - 4..]
  }

  lemma OneLeft(s: seq<byte>) returns (a: sextet, b: sextet, c: sextet)
    requires |s| == 1
    ensures TailIs(s, LastFour(Encode(s)), true, a, b, c)
  {
    a, b, c := s[0] / 4, s[0] % 4 * 16, 0;
    assert Encode(s) == [Char(a), Char(b), PAD, PAD];
    hide Encode, Char;
  }

  lemma TwoLeft(s: seq<byte>) returns (a: sextet, b: sextet, c: sextet)
    requires |s| == 2
    ensures TailIs(s, LastFour(Encode(s)), false, a, b, c)
  {
    a, b, c := s[0] / 4, s[0] % 4 * 16 + s[1] / 16, s[1] % 16 * 4;
    assert Encode(s) == [Char(a), Char(b), Char(c), PAD];
    hide Encode, Char;
  }

  lemma SameTail(s: seq<byte>, one: bool, a: sextet, b: sextet, c: sextet)
    requires |s| > 3 && (!one ==> |s| > 4) && TailIs(s[3..], LastFour(Encode(s[3..])), one, a, b, c)
    ensures TailIs(s, LastFour(Encode(s)), one, a, b, c)
  {
    hide *;
    LastFourBehind(Group(s[0], s[1], s[2]), Encode(s[3..]));
    EncodeStep(s);
    TailShift(s, LastFour(Encode(s[3..])), one, a, b, c);
  }

  lemma TailShift(s: seq<byte>, e: seq<byte>, one: bool, a: sextet, b: sextet, c: sextet)
    requires |s| > 3 && (!one ==> |s| > 4) && TailIs(s[3..], e, one, a, b, c)
    ensures TailIs(s, e, one, a, b, c)
  {
    hide Char, Octets, Sextets;
  }

  lemma EncodeStep(s: seq<byte>)
    requires |s| > 3
    ensures Encode(s) == Group(s[0], s[1], s[2]) + Encode(s[3..]) && |Encode(s[3..])| >= 4
  {
    hide Char;
  }

  lemma LastFourBehind(head: seq<byte>, rest: seq<byte>)
    ensures |rest| >= 4 ==> LastFour(head + rest) == LastFour(rest)
  {
  }

  /** One or two bytes left over are filled up with zero bits; the characters without any of theirs are padding. */
  lemma {:induction false} TailSpells(s: seq<byte>) returns (a: sextet, b: sextet, c: sextet)
    requires |s| % 3 != 0
    ensures TailIs(s, LastFour(Encode(s)), |s| % 3 == 1, a, b, c)
    decreases |s|
  {
    hide TailIs, LastFour, Encode;
    if |s| == 1 {
      a, b, c := OneLeft(s);
    } else if |s| == 2 {
      a, b, c := TwoLeft(s);
    } else {
      a, b, c := TailSpells(s[3..]);
      assert |s[3..]| % 3 == |s| % 3;
      SameTail(s, |s| % 3 == 1, a, b, c);
    }
  }
}
