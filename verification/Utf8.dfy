/** Well-formed UTF-8: what a Rust `String` may hold. */
module Utf8 {
  import opened Bytes

  predicate Continuation(b: byte) {
    0x80 <= b <= 0xbf
  }

  /** Length of the well-formed sequence at the front of `s`, or 0 when there is none. */
  function FrontLength(s: seq<byte>): (n: nat)
    requires s != []
    ensures n <= |s| && n <= 4
  {
    var b := s[0];
    if b <= 0x7f then 1
    else if 0xc2 <= b <= 0xdf && |s| >= 2 && Continuation(s[1]) then 2
    else if 0xe0 <= b <= 0xef && |s| >= 3 && Continuation(s[1]) && Continuation(s[2])
            && (b == 0xe0 ==> s[1] >= 0xa0) && (b == 0xed ==> s[1] <= 0x9f) then 3
    else if 0xf0 <= b <= 0xf4 && |s| >= 4 && Continuation(s[1]) && Continuation(s[2]) && Continuation(s[3])
            && (b == 0xf0 ==> s[1] >= 0x90) && (b == 0xf4 ==> s[1] <= 0x8f) then 4
    else 0
  }

  predicate Valid(s: seq<byte>) {
    s == [] || (FrontLength(s) > 0 && Valid(s[FrontLength(s)..]))
  }

  // ---- the texts that are valid -----------------------------------------------------------------

  /** A Unicode scalar value. */
  type scalar = x: int | 0 <= x < 0xd800 || 0xe000 <= x < 0x11_0000

  function Encoded(c: scalar): (s: seq<byte>)
    ensures 1 <= |s| <= 4
  {
    if c < 0x80 then [c]
    else if c < 0x800 then [0xc0 + c / 64, 0x80 + c % 64]
    else if c < 0x1_0000 then [0xe0 + c / 4096, 0x80 + c / 64 % 64, 0x80 + c % 64]
    else [0xf0 + c / 0x4_0000, 0x80 + c / 4096 % 64, 0x80 + c / 64 % 64, 0x80 + c % 64]
  }

  function Text(cs: seq<scalar>): (s: seq<byte>) {
    if cs == [] then [] else Encoded(cs[0]) + Text(cs[1..])
  }

  lemma EncodedStands(c: scalar, rest: seq<byte>)
    ensures FrontLength(Encoded(c) + rest) == |Encoded(c)|
  {
  }

  lemma TwoBytes(w: int, x: int)
    requires 0xc2 <= w <= 0xdf && 0x80 <= x <= 0xbf
    ensures var c := (w - 0xc0) * 64 + (x - 0x80);
            0x80 <= c < 0x800 && Encoded(c) == [w, x]
  {
  }

  lemma ThreeBytes(w: int, x: int, y: int)
    requires 0xe0 <= w <= 0xef && 0x80 <= x <= 0xbf && 0x80 <= y <= 0xbf
    requires (w == 0xe0 ==> x >= 0xa0) && (w == 0xed ==> x <= 0x9f)
    ensures var c := (w - 0xe0) * 4096 + (x - 0x80) * 64 + (y - 0x80);
            0x800 <= c < 0x1_0000 && (c < 0xd800 || c >= 0xe000) && Encoded(c) == [w, x, y]
  {
    var c := (w - 0xe0) * 4096 + (x - 0x80) * 64 + (y - 0x80);
    assert c / 64 == (w - 0xe0) * 64 + (x - 0x80) && c % 64 == y - 0x80;
    assert c / 4096 == w - 0xe0 && c / 64 % 64 == x - 0x80;
  }

  lemma FourBytes(w: int, x: int, y: int, z: int)
    requires 0xf0 <= w <= 0xf4 && 0x80 <= x <= 0xbf && 0x80 <= y <= 0xbf && 0x80 <= z <= 0xbf
    requires (w == 0xf0 ==> x >= 0x90) && (w == 0xf4 ==> x <= 0x8f)
    ensures var c := (w - 0xf0) * 0x4_0000 + (x - 0x80) * 4096 + (y - 0x80) * 64 + (z - 0x80);
            0x1_0000 <= c < 0x11_0000 && Encoded(c) == [w, x, y, z]
  {
    var c := (w - 0xf0) * 0x4_0000 + (x - 0x80) * 4096 + (y - 0x80) * 64 + (z - 0x80);
    assert c / 64 == (w - 0xf0) * 4096 + (x - 0x80) * 64 + (y - 0x80) && c % 64 == z - 0x80;
    assert c / 4096 == (w - 0xf0) * 64 + (x - 0x80) && c / 64 % 64 == y - 0x80;
    assert c / 0x4_0000 == w - 0xf0 && c / 4096 % 64 == x - 0x80;
  }

  lemma FrontIsEncoded(s: seq<byte>) returns (c: scalar)
    requires s != [] && FrontLength(s) > 0
    ensures Encoded(c) == s[..FrontLength(s)]
  {
    var n, w: int := FrontLength(s), s[0];
    if n == 1 {
      c := w;
    } else if n == 2 {
      var x: int := s[1];
      TwoBytes(w, x);
      c := (w - 0xc0) * 64 + (x - 0x80);
    } else if n == 3 {
      var x: int, y: int := s[1], s[2];
      ThreeBytes(w, x, y);
      c := (w - 0xe0) * 4096 + (x - 0x80) * 64 + (y - 0x80);
    } else {
      var x: int, y: int, z: int := s[1], s[2], s[3];
      FourBytes(w, x, y, z);
      c := (w - 0xf0) * 0x4_0000 + (x - 0x80) * 4096 + (y - 0x80) * 64 + (z - 0x80);
    }
    hide Encoded;
  }

  lemma {:induction false} TextIsValid(cs: seq<scalar>)
    ensures Valid(Text(cs))
    decreases |cs|
  {
    if cs != [] {
      var rest := Text(cs[1..]);
      EncodedStands(cs[0], rest);
      TextIsValid(cs[1..]);
      assert (Encoded(cs[0]) + rest)[|Encoded(cs[0])|..] == rest;
    }
  }

  lemma {:induction false} ValidIsText(s: seq<byte>) returns (cs: seq<scalar>)
    requires Valid(s)
    ensures s == Text(cs)
    decreases |s|
  {
    if s == [] {
      cs := [];
    } else {
      var c := FrontIsEncoded(s);
      var rest := ValidIsText(s[FrontLength(s)..]);
      cs := [c] + rest;
      assert cs[1..] == rest && s == s[..FrontLength(s)] + s[FrontLength(s)..];
    }
  }

  /** The valid strings are exactly the encodings of sequences of scalar values. */
  lemma ValidExactly(s: seq<byte>)
    ensures Valid(s) <==> exists cs :: s == Text(cs)
  {
    if Valid(s) {
      var cs := ValidIsText(s);
    }
    if cs :| s == Text(cs) {
      TextIsValid(cs);
    }
  }
}
