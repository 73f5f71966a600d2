/** Opaque capability names: 16 random bytes as 26 lower-case base32 characters (section 6 of RFC 4648). */
module Base32 {
  import opened Bytes

  type digit = x: int | 0 <= x < 32

  /** `abcdefghijklmnopqrstuvwxyz234567` */
  function Letter(d: digit): (c: byte) {
    if d < 26 then 97 + d else 24 + d
  }

  function DigitOf(c: byte): (d: Option<digit>) {
    if 97 <= c <= 122 then Some(c - 97) else if 50 <= c <= 55 then Some(c - 24) else None
  }

  /** Big-endian value of a string of digits in some base. */
  function Value(s: seq<nat>, base: nat): (v: nat) {
    if s == [] then 0 else Value(s[..|s| - 1], base) * base + s[|s| - 1]
  }

  function Digits(name: seq<byte>): (ds: seq<nat>)
    requires forall k :: 0 <= k < |name| ==> DigitOf(name[k]).Some?
    ensures |ds| == |name| && forall k :: 0 <= k < |name| ==> ds[k] == DigitOf(name[k]).value
  {
    seq(|name|, k requires 0 <= k < |name| => DigitOf(name[k]).value)
  }

  /** `name` spells, in 26 base-32 digits, the 128-bit value of `bytes` followed by two zero bits. */
  predicate Encodes(bytes: seq<byte>, name: seq<byte>) {
    && |bytes| == 16 && |name| == 26
    && (forall k :: 0 <= k < |name| ==> DigitOf(name[k]).Some?)
    && Value(Digits(name), 32) == Value(bytes, 256) * 4
  }

  lemma AtLeastOnce(d: int, k: int)
    requires d > 0 && k >= 1
    ensures d * k >= d
  {
    assert d * k == d * (k - 1) + d;
  }

  lemma Quotient(n: int, d: int, q: int, r: int)
    requires d > 0 && 0 <= r < d && n == d * q + r
    ensures n / d == q && n % d == r
  {
    var q', r' := n / d, n % d;
    if q > q' {
      assert d * (q - q') == d * q - d * q' == r' - r;
      AtLeastOnce(d, q - q');
    } else if q < q' {
      assert d * (q' - q) == d * q' - d * q == r - r';
      AtLeastOnce(d, q' - q);
    }
  }

  /** Digit strings of one length are told apart by their value. */
  lemma {:induction false} ValueInjective(a: seq<nat>, b: seq<nat>, base: nat)
    requires |a| == |b| && Value(a, base) == Value(b, base)
    requires forall k :: 0 <= k < |a| ==> a[k] < base && b[k] < base
    ensures a == b
  {
    if a != [] {
      var n := |a| - 1;
      Quotient(Value(a, base), base, Value(a[..n], base), a[n]);
      Quotient(Value(b, base), base, Value(b[..n], base), b[n]);
      ValueInjective(a[..n], b[..n], base);
      assert a == a[..n] + [a[n]] && b == b[..n] + [b[n]];
    }
  }

  /** No two keys share a name. */
  lemma NameDeterminesBytes(a: seq<byte>, b: seq<byte>, name: seq<byte>)
    requires Encodes(a, name) && Encodes(b, name)
    ensures a == b
  {
    ValueInjective(a, b, 256);
  }

  /** A key has only one name. */
  lemma BytesDetermineName(bytes: seq<byte>, x: seq<byte>, y: seq<byte>)
    requires Encodes(bytes, x) && Encodes(bytes, y)
    ensures x == y
  {
    ValueInjective(Digits(x), Digits(y), 32);
    forall k | 0 <= k < 26 ensures x[k] == y[k] {
      assert Digits(x)[k] == Digits(y)[k];
    }
  }

  /** What the consumer of a capability insists on before looking it up. */
  predicate CapabilitySyntax(name: seq<byte>) {
    |name| == 26 && forall k :: 0 <= k < 26 ==> 97 <= name[k] <= 122 || 48 <= name[k] <= 57
  }

  /** Lower-case letters and decimal digits. */
  lemma SyntaxExactly(name: seq<byte>)
    ensures CapabilitySyntax(name) <==>
            |name| == 26 && forall k :: 0 <= k < |name| ==>
              'a' <= name[k] as char <= 'z' || '0' <= name[k] as char <= '9'
  {
  }

  lemma NamesAreCapabilities(bytes: seq<byte>, name: seq<byte>)
    requires Encodes(bytes, name)
    ensures CapabilitySyntax(name)
  {
    forall k | 0 <= k < 26 ensures 97 <= name[k] <= 122 || 48 <= name[k] <= 57 {
      assert DigitOf(name[k]).Some?;
    }
  }

  const WORD := 0x1_0000_0000

  function Power2(n: nat): (p: nat)
    requires n <= 8
    ensures p > 0
  {
    if n == 0 then 1 else if n == 1 then 2 else if n == 2 then 4 else if n == 3 then 8
    else if n == 4 then 16 else if n == 5 then 32 else if n == 6 then 64 else if n == 7 then 128 else 256
  }

  lemma WordSplits(bits: nat)
    requires bits <= 7
    ensures WORD == Power2(bits) * (32 * (WORD / Power2(bits) / 32))
  {
  }

  /** Five bits read from the truncated accumulator are five bits of the whole value. */
  lemma WindowSurvives(v: nat, bits: nat)
    requires bits <= 7
    ensures (v % WORD) / Power2(bits) % 32 == v / Power2(bits) % 32
  {
    hide Power2;
    WordSplits(bits);
    var p, acc, q := Power2(bits), v % WORD, v / WORD;
    var m := WORD / p / 32;
    assert v == acc + p * (32 * m * q) by {
      assert p * (32 * m) * q == p * (32 * m * q);
    }
    var d, r := acc / p, acc % p;
    assert v == p * (d + 32 * m * q) + r by {
      assert p * (d + 32 * m * q) == p * d + p * (32 * m * q);
    }
    Quotient(v, p, d + 32 * m * q, r);
    Quotient(d + 32 * m * q, 32, d / 32 + m * q, d % 32);
  }

  lemma NextDigit(v: nat, bits: nat)
    requires bits <= 7
    ensures var p := Power2(bits); v / p == v / (p * 32) * 32 + v / p % 32
  {
    var p := Power2(bits);
    var d := v / p;
    var r := v % p;
    assert v == p * (32 * (d / 32) + d % 32) + r;
    assert v == (p * 32) * (d / 32) + (p * (d % 32) + r) by {
      assert p * (32 * (d / 32) + d % 32) == (p * 32) * (d / 32) + p * (d % 32);
    }
    assert p * (d % 32) <= p * 31;
    Quotient(v, p * 32, d / 32, p * (d % 32) + r);
  }

  /** One more byte shifted into the accumulator, whose high bits fall off. */
  lemma ShiftIn(v: nat, b: byte)
    ensures (v % WORD * 256) % WORD + b == (v * 256 + b) % WORD
  {
    var q, acc := v / WORD, v % WORD;
    var hi, lo := acc * 256 / WORD, acc * 256 % WORD;
    assert lo % 256 == 0;
    Quotient(v * 256 + b, WORD, q * 256 + hi, lo + b);
  }

  /** `v` without its last `bits` bits, for the widths the loop meets. */
  function Shifted(v: nat, bits: nat): (r: nat)
    requires bits <= 12
  {
    if bits <= 8 then v / Power2(bits) else v / 256 / Power2(bits - 8)
  }

  lemma TakeDigit(v: nat, bits: nat)
    requires bits <= 7
    ensures Shifted(v, bits) == Shifted(v, bits + 5) * 32 + v % WORD / Power2(bits) % 32
  {
    hide Power2;
    WindowSurvives(v, bits);
    NextDigit(v, bits);
    WiderWindow(v, bits);
  }

  /** The source's loop: bytes are shifted in, groups of five bits are taken off the top. */
  method RandomBase32(bytes: seq<byte>) returns (output: seq<byte>)
    requires |bytes| == 16
    ensures Encodes(bytes, output)
  {
    hide Power2, Shifted, Spells, Letter;
    output := [];
    var accumulator: nat := 0;
    var bits: nat := 0;
    ghost var ds: seq<nat> := [];
    NothingSpelled();
    for k := 0 to 16
      invariant Spells(output, ds) && bits < 5 && 5 * |ds| + bits == 8 * k
      invariant accumulator == Value(bytes[..k], 256) % WORD
      invariant Value(ds, 32) == Shifted(Value(bytes[..k], 256), bits)
    {
      ghost var v := Value(bytes[..k], 256);
      ghost var v' := Value(bytes[..k + 1], 256);
      assert bytes[..k + 1][..k] == bytes[..k];
      ShiftIn(v, bytes[k]);
      ShiftedByte(v, bytes[k], bits);
      accumulator := (accumulator * 256) % WORD + bytes[k];
      bits := bits + 8;
      while bits >= 5
        invariant Spells(output, ds) && bits < 13 && 5 * |ds| + bits == 8 * (k + 1)
        invariant Value(ds, 32) == Shifted(v', bits)
      {
        bits := bits - 5;
        TakeDigit(v', bits);
        var d := accumulator / Power2(bits) % 32;
        ds := Append(output, ds, d);
        output := output + [Letter(d)];
      }
    }
    assert bytes[..16] == bytes && bits == 3;
    LastDigit(Value(bytes, 256));
    var d := (accumulator * 4) % WORD % 32;
    ds := Append(output, ds, d);
    output := output + [Letter(d)];
    SpelledDigits(output, ds);
  }

  ghost predicate Spells(output: seq<byte>, ds: seq<nat>) {
    && |output| == |ds|
    && forall k :: 0 <= k < |ds| ==> ds[k] < 32 && DigitOf(output[k]) == Some(ds[k])
  }

  lemma Append(output: seq<byte>, ds: seq<nat>, d: digit) returns (ds': seq<nat>)
    requires Spells(output, ds)
    ensures Spells(output + [Letter(d)], ds') && |ds'| == |ds| + 1
    ensures Value(ds', 32) == Value(ds, 32) * 32 + d
  {
    ds' := ds + [d];
    assert ds'[..|ds|] == ds;
  }

  lemma SpelledDigits(output: seq<byte>, ds: seq<nat>)
    requires Spells(output, ds)
    ensures |output| == |ds| && (forall k :: 0 <= k < |output| ==> DigitOf(output[k]).Some?) && Digits(output) == ds
  {
  }

  lemma NothingSpelled()
    ensures Spells([], []) && Value([], 32) == 0 == Shifted(Value([], 256), 0)
  {
  }

  lemma ShiftedByte(v: nat, b: byte, bits: nat)
    requires bits < 5
    ensures Shifted(v * 256 + b, bits + 8) == Shifted(v, bits)
  {
    Quotient(v * 256 + b, 256, v, b);
  }

  /** `v / 2^(bits + 5)`, for the window sizes the loop meets. */
  lemma WiderWindow(v: nat, bits: nat)
    requires bits <= 7
    ensures bits <= 3 ==> v / (Power2(bits) * 32) == v / Power2(bits + 5)
    ensures bits > 3 ==> v / (Power2(bits) * 32) == v / 256 / Power2(bits - 3)
  {
    if bits > 3 {
      var p := Power2(bits - 3);
      assert Power2(bits) * 32 == 256 * p;
      var w, r := v / 256, v % 256;
      assert v == 256 * (p * (w / p) + w % p) + r;
      assert v == (256 * p) * (w / p) + (256 * (w % p) + r) by {
        assert 256 * (p * (w / p) + w % p) == (256 * p) * (w / p) + 256 * (w % p);
      }
      Quotient(v, 256 * p, w / p, 256 * (w % p) + r);
    }
  }

  lemma LastDigit(v: nat)
    ensures v * 4 == Shifted(v, 3) * 32 + (v % WORD * 4) % WORD % 32
  {
    Quotient(v * 4, 32, v / 8, v % 8 * 4);
    var q, acc := v / WORD, v % WORD;
    var h, x := acc * 4 / WORD, acc * 4 % WORD;
    Quotient(v * 4, 32, x / 32 + (h + 4 * q) * 0x800_0000, x % 32);
  }

  /** Table 3 of RFC 4648 in lower case, both ways. */
  lemma AlphabetExactly(d: digit, c: byte)
    ensures Letter(d) == "abcdefghijklmnopqrstuvwxyz234567"[d] as int
    ensures DigitOf(c) == Some(d) <==> c == "abcdefghijklmnopqrstuvwxyz234567"[d] as int
  {
  }
}
