/** Unpadded URL-safe base64, section 5 of RFC 4648, as encoded and as leniently decoded. */
module Base64Url {
  import opened Strings

  type Byte = x: int | 0 <= x < 256
  type Digit = x: int | 0 <= x < 64
  type Bytes = seq<Byte>

  // ---- digits ---------------------------------------------------------------------------------------------

  function Symbol(d: Digit): (c: char)
    ensures c != '=' && c != '.'
  {
    if d < 26 then (d + 65) as char
    else if d < 52 then (d + 71) as char
    else if d < 62 then (d - 4) as char
    else if d == 62 then '-' else '_'
  }

  /** The decoder also takes the two symbols of the standard alphabet. */
  function Value(c: char): Option<Digit> {
    if 'A' <= c <= 'Z' then Some(c as int - 65)
    else if 'a' <= c <= 'z' then Some(c as int - 71)
    else if '0' <= c <= '9' then Some(c as int + 4)
    else if c == '-' || c == '+' then Some(62)
    else if c == '_' || c == '/' then Some(63)
    else None
  }

  lemma SymbolValue(d: Digit)
    ensures Value(Symbol(d)) == Some(d)
  {
  }

  function Text(digits: seq<Digit>): (s: string)
    ensures |s| == |digits| && forall i :: 0 <= i < |s| ==> s[i] == Symbol(digits[i])
  {
    seq(|digits|, i requires 0 <= i < |digits| => Symbol(digits[i]))
  }

  predicate AllSymbols(s: string) { forall i :: 0 <= i < |s| ==> Value(s[i]).Some? }

  function Values(s: string): (r: seq<Digit>)
    requires AllSymbols(s)
    ensures |r| == |s| && forall i :: 0 <= i < |s| ==> Some(r[i]) == Value(s[i])
  {
    seq(|s|, i requires 0 <= i < |s| && Value(s[i]).Some? => Value(s[i]).value)
  }

  lemma TextValues(digits: seq<Digit>)
    ensures AllSymbols(Text(digits)) && Values(Text(digits)) == digits
  {
    forall i | 0 <= i < |digits| ensures Value(Text(digits)[i]) == Some(digits[i]) { SymbolValue(digits[i]); }
  }

  // ---- groups of three bytes and four digits --------------------------------------------------------------

  function D0(x: int): Digit
    requires 0 <= x < 256
  {
    x / 4
  }

  function D1(x: int, y: int): Digit
    requires 0 <= x < 256 && 0 <= y < 256
  {
    x % 4 * 16 + y / 16
  }

  function D2(y: int, z: int): Digit
    requires 0 <= y < 256 && 0 <= z < 256
  {
    y % 16 * 4 + z / 64
  }

  function D3(z: int): Digit
    requires 0 <= z < 256
  {
    z % 64
  }

  function First(a: int, b: int): Byte
    requires 0 <= a < 64 && 0 <= b < 64
  {
    a * 4 + b / 16
  }

  function Second(b: int, c: int): Byte
    requires 0 <= b < 64 && 0 <= c < 64
  {
    b % 16 * 16 + c / 4
  }

  function Third(c: int, d: int): Byte
    requires 0 <= c < 64 && 0 <= d < 64
  {
    c % 4 * 64 + d
  }

  lemma GroupOfBytes(x: Byte, y: Byte, z: Byte)
    ensures First(D0(x), D1(x, y)) == x && Second(D1(x, y), D2(y, z)) == y && Third(D2(y, z), D3(z)) == z
  {
  }

  lemma GroupOfDigits(a: Digit, b: Digit, c: Digit, d: Digit)
    ensures var x, y, z := First(a, b), Second(b, c), Third(c, d);
      D0(x) == a && D1(x, y) == b && D2(y, z) == c && D3(z) == d
  {
  }

  function ToDigits(b: seq<Byte>): (r: seq<Digit>)
    ensures |r| == (4 * |b| + 2) / 3
  {
    if |b| == 0 then []
    else if |b| == 1 then [D0(b[0]), D1(b[0], 0)]
    else if |b| == 2 then [D0(b[0]), D1(b[0], b[1]), D2(b[1], 0)]
    else [D0(b[0]), D1(b[0], b[1]), D2(b[1], b[2]), D3(b[2])] + ToDigits(b[3..])
  }

  /** The bytes in a run of digits; the bits of the last digit that fill no byte are dropped. */
  function ToBytes(d: seq<Digit>): (r: seq<Byte>)
    ensures |r| == 3 * |d| / 4
  {
    if |d| < 2 then []
    else if |d| == 2 then [First(d[0], d[1])]
    else if |d| == 3 then [First(d[0], d[1]), Second(d[1], d[2])]
    else [First(d[0], d[1]), Second(d[1], d[2]), Third(d[2], d[3])] + ToBytes(d[4..])
  }

  lemma ToBytesGroup(d0: Digit, d1: Digit, d2: Digit, d3: Digit, rest: seq<Digit>)
    ensures ToBytes([d0, d1, d2, d3] + rest) == [First(d0, d1), Second(d1, d2), Third(d2, d3)] + ToBytes(rest)
  {
    var d := [d0, d1, d2, d3] + rest;
    assert d[0] == d0 && d[1] == d1 && d[2] == d2 && d[3] == d3 && d[4..] == rest;
  }

  lemma ToDigitsGroup(x: Byte, y: Byte, z: Byte, rest: seq<Byte>)
    ensures ToDigits([x, y, z] + rest) == [D0(x), D1(x, y), D2(y, z), D3(z)] + ToDigits(rest)
  {
    var b := [x, y, z] + rest;
    assert b[0] == x && b[1] == y && b[2] == z && b[3..] == rest;
  }

  lemma ToBytesShort(d0: Digit, d1: Digit, d2: Digit)
    ensures ToBytes([d0, d1]) == [First(d0, d1)]
    ensures ToBytes([d0, d1, d2]) == [First(d0, d1), Second(d1, d2)]
  {
  }

  lemma ToDigitsShort(x: Byte, y: Byte)
    ensures ToDigits([x]) == [D0(x), D1(x, 0)]
    ensures ToDigits([x, y]) == [D0(x), D1(x, y), D2(y, 0)]
  {
  }

  lemma NoBytes(b: seq<Byte>)
    requires b == []
    ensures ToBytes(ToDigits(b)) == b
  {
  }

  lemma OneByte(b: seq<Byte>, x: Byte)
    requires b == [x]
    ensures ToBytes(ToDigits(b)) == b
  {
    ToDigitsShort(x, 0);
    ToBytesShort(D0(x), D1(x, 0), 0);
    GroupOfBytes(x, 0, 0);
  }

  lemma TwoBytes(b: seq<Byte>, x: Byte, y: Byte)
    requires b == [x, y]
    ensures ToBytes(ToDigits(b)) == b
  {
    ToDigitsShort(x, y);
    ToBytesShort(D0(x), D1(x, y), D2(y, 0));
    GroupOfBytes(x, y, 0);
  }

  lemma ShortBytes(b: seq<Byte>)
    requires |b| < 3
    ensures ToBytes(ToDigits(b)) == b
  {
    if b == [] {
      NoBytes(b);
    } else if |b| == 1 {
      OneByte(b, b[0]);
    } else {
      TwoBytes(b, b[0], b[1]);
    }
  }

  lemma {:induction false} DigitsRoundTrip(b: seq<Byte>)
    ensures ToBytes(ToDigits(b)) == b
  {
    if |b| < 3 {
      ShortBytes(b);
    } else {
      var x, y, z, rest := b[0], b[1], b[2], b[3..];
      DigitsRoundTrip(rest);
      assert b == [x, y, z] + rest;
      ToDigitsGroup(x, y, z, rest);
      ToBytesGroup(D0(x), D1(x, y), D2(y, z), D3(z), ToDigits(rest));
      GroupOfBytes(x, y, z);
    }
  }

  // ---- encoding and decoding ------------------------------------------------------------------------------

  function Encode(b: seq<Byte>): string { Text(ToDigits(b)) }

  /** The text without its trailing padding. */
  function Body(s: string): (r: string)
    ensures r <= s && (r != "" ==> r[|r| - 1] != '=')
    ensures forall i :: |r| <= i < |s| ==> s[i] == '='
  {
    if s != "" && s[|s| - 1] == '=' then Body(s[..|s| - 1]) else s
  }

  /** Padding after the decoder has filled up to a multiple of four. */
  function Padding(s: string): nat { |s| - |Body(s)| + (4 - |s| % 4) % 4 }

  predicate Decodable(s: string) { AllSymbols(Body(s)) && Padding(s) <= 2 }

  function Decode(s: string): Option<seq<Byte>> {
    if Decodable(s) then Some(ToBytes(Values(Body(s)))) else None
  }

  lemma BodyOfEncoding(b: seq<Byte>)
    ensures Body(Encode(b)) == Encode(b)
  {
  }

  lemma EncodingDecodable(b: seq<Byte>)
    ensures Decodable(Encode(b)) && Body(Encode(b)) == Encode(b)
  {
    BodyOfEncoding(b);
    TextValues(ToDigits(b));
    Fill(|b|);
  }

  /** Decoding inverts encoding, for every byte string. */
  lemma RoundTrip(b: seq<Byte>)
    ensures Decode(Encode(b)) == Some(b)
    ensures |Encode(b)| == (4 * |b| + 2) / 3
    ensures forall i :: 0 <= i < |Encode(b)| ==> Encode(b)[i] != '.' && Encode(b)[i] != '='
  {
    EncodingDecodable(b);
    TextValues(ToDigits(b));
    DigitsRoundTrip(b);
  }

  /** An encoding is filled with at most two padding characters. */
  lemma Fill(n: nat)
    ensures var m := (4 * n + 2) / 3; (4 - m % 4) % 4 <= 2
  {
    var k, r := n / 3, n % 3;
    assert n == 3 * k + r;
    assert (4 * n + 2) / 3 == 4 * k + (4 * r + 2) / 3;
  }

  // ---- which texts are encodings --------------------------------------------------------------------------

  /** No digit is left over and the bits that fill no byte are zero. */
  predicate Tight(d: seq<Digit>) {
    if |d| < 4 then |d| != 1 && (|d| == 2 ==> d[1] % 16 == 0) && (|d| == 3 ==> d[2] % 4 == 0)
    else Tight(d[4..])
  }

  lemma TwoDigits(a: Digit, b: Digit)
    requires b % 16 == 0
    ensures ToDigits(ToBytes([a, b])) == [a, b]
  {
    ToBytesShort(a, b, 0);
    ToDigitsShort(First(a, b), 0);
    GroupOfDigits(a, b, 0, 0);
  }

  lemma ThreeDigits(a: Digit, b: Digit, c: Digit)
    requires c % 4 == 0
    ensures ToDigits(ToBytes([a, b, c])) == [a, b, c]
  {
    ToBytesShort(a, b, c);
    ToDigitsShort(First(a, b), Second(b, c));
    GroupOfDigits(a, b, c, 0);
  }

  lemma ShortDigits(d: seq<Digit>)
    requires |d| < 4 && Tight(d)
    ensures ToDigits(ToBytes(d)) == d
  {
    if |d| == 2 {
      assert d == [d[0], d[1]];
      TwoDigits(d[0], d[1]);
    } else if |d| == 3 {
      assert d == [d[0], d[1], d[2]];
      ThreeDigits(d[0], d[1], d[2]);
    }
  }

  lemma {:induction false} BytesRoundTrip(d: seq<Digit>)
    requires Tight(d)
    ensures ToDigits(ToBytes(d)) == d
  {
    if |d| < 4 {
      ShortDigits(d);
    } else {
      var d0, d1, d2, d3, rest := d[0], d[1], d[2], d[3], d[4..];
      BytesRoundTrip(rest);
      assert d == [d0, d1, d2, d3] + rest;
      ToBytesGroup(d0, d1, d2, d3, rest);
      ToDigitsGroup(First(d0, d1), Second(d1, d2), Third(d2, d3), ToBytes(rest));
      GroupOfDigits(d0, d1, d2, d3);
    }
  }

  lemma {:induction false} DigitsAreTight(b: seq<Byte>)
    ensures Tight(ToDigits(b))
  {
    if |b| >= 3 {
      DigitsAreTight(b[3..]);
      assert ToDigits(b)[4..] == ToDigits(b[3..]);
    }
  }

  /** The URL-safe alphabet only, no padding, no stray bits. */
  predicate Canonical(s: string) {
    AllSymbols(s) && '+' !in s && '/' !in s && Tight(Values(s))
  }

  lemma ValueSymbol(c: char)
    requires Value(c).Some? && c != '+' && c != '/'
    ensures Symbol(Value(c).value) == c
  {
  }

  lemma CanonicalBody(s: string)
    requires AllSymbols(s)
    ensures Body(s) == s
  {
  }

  /** A text the decoder takes is the encoding of what it decodes to exactly when it is canonical. */
  lemma EncodingIffCanonical(s: string)
    requires Decode(s).Some?
    ensures Encode(Decode(s).value) == s <==> Canonical(s)
  {
    if Canonical(s) {
      CanonicalBody(s);
      BytesRoundTrip(Values(s));
      forall i | 0 <= i < |s| ensures Symbol(Values(s)[i]) == s[i] { ValueSymbol(s[i]); }
    } else {
      EncodingIsCanonical(Decode(s).value);
    }
  }

  lemma EncodingIsCanonical(b: seq<Byte>)
    ensures Canonical(Encode(b))
  {
    TextValues(ToDigits(b));
    DigitsAreTight(b);
  }

  lemma StandardAlphabet(a: string, b: string)
    requires a == "+/+/" && b == "-_-_"
    ensures Decode(a).Some? && !Canonical(a) && Decode(a) == Decode(b)
  {
    assert AllSymbols(a) && AllSymbols(b) && Values(a) == Values(b);
    CanonicalBody(a);
    CanonicalBody(b);
    assert a[0] == '+';
  }

  function Pads(n: nat): string { seq(n, _ => '=') }

  lemma {:induction false} PaddedBody(s: string, n: nat)
    requires AllSymbols(s)
    ensures Body(s + Pads(n)) == s
  {
    if n == 0 {
      assert s + Pads(0) == s;
      CanonicalBody(s);
    } else {
      PaddedBody(s, n - 1);
      var t := s + Pads(n);
      assert t[|t| - 1] == '=' && t[..|t| - 1] == s + Pads(n - 1);
    }
  }

  lemma FullGroup(m: nat, n: nat)
    requires n == (4 - m % 4) % 4
    ensures (4 - (m + n) % 4) % 4 == 0
  {
  }

  /** A text decodes as it does with the padding that completes its last group. */
  lemma PaddedDecode(s: string, n: nat)
    requires AllSymbols(s) && n == (4 - |s| % 4) % 4 <= 2
    ensures Decode(s).Some? && Decode(s + Pads(n)) == Decode(s) && (n > 0 ==> !Canonical(s + Pads(n)))
  {
    var t := s + Pads(n);
    PaddedBody(s, n);
    CanonicalBody(s);
    FullGroup(|s|, n);
    assert |t| == |s| + n;
    assert Padding(t) == n == Padding(s);
    if n > 0 { assert Value(t[|s|]).None?; }
  }

  lemma PaddedTwice(s: string, t: string)
    requires AllSymbols(s) && |s| == 2 && t == s + "=="
    ensures Decode(t) == Decode(s) && !Canonical(t)
  {
    PaddedDecode(s, 2);
    assert Pads(2) == "==";
  }

  lemma TwoSymbols(s: string, d: Digit)
    requires |s| == 2 && Value(s[0]) == Some(0) && Value(s[1]) == Some(d) && d < 16
    ensures AllSymbols(s) && Decode(s) == Some([0]) && (Canonical(s) ==> d == 0)
  {
    assert Values(s) == [0, d];
    CanonicalBody(s);
    ToBytesShort(0, d, 0);
  }

  /** A text the decoder takes as the bytes of another one, although no encoder writes it. */
  predicate Alias(s: string, other: string) {
    s != other && Decode(s).Some? && Decode(s) == Decode(other) && !Canonical(s)
  }

  lemma StandardAlias(a: string, b: string)
    requires a == "+/+/" && b == "-_-_"
    ensures Alias(a, b)
  {
    StandardAlphabet(a, b);
    assert a[0] != b[0];
  }

  lemma PaddedAlias(s: string, t: string)
    requires AllSymbols(s) && |s| == 2 && t == s + "=="
    ensures Alias(t, s)
  {
    PaddedTwice(s, t);
    PaddedDecode(s, 2);
  }

  lemma StrayAlias(s: string, t: string)
    requires s == "AB" && t == "AA"
    ensures Alias(s, t) && AllSymbols(t)
  {
    TwoSymbols(s, 1);
    TwoSymbols(t, 0);
  }

  /** The decoder takes the standard alphabet, padding, and bits that fill no byte. */
  lemma NonCanonicalTexts(standard: string, padded: string, stray: string)
    requires standard == "+/+/" && padded == "AA==" && stray == "AB"
    ensures Alias(standard, "-_-_") && Alias(padded, "AA") && Alias(stray, "AA")
  {
    StandardAlias(standard, "-_-_");
    StrayAlias(stray, "AA");
    PaddedAlias("AA", padded);
  }
}
