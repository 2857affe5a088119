/** Invitation codes: two 32-byte keys in 92 characters. */
module InvitationCode {
  import opened Strings
  import opened Base64Url

  const PREFIX := "skp1"

  /** Key material; construction fails unless both keys have 32 bytes. */
  datatype Secret = Secret(root: seq<Byte>, issuer: seq<Byte>)

  predicate ValidSecret(s: Secret) { |s.root| == 32 && |s.issuer| == 32 }

  /** A key in its one accepted spelling. */
  function KeyBytes(text: string): Option<seq<Byte>> {
    if |text| != 43 then None
    else
      var raw := Decode(text);
      if raw.Some? && |raw.value| == 32 && Encode(raw.value) == text then raw else None
  }

  /** Keys are read back exactly from their encodings. */
  lemma KeyBytesIff(text: string, key: seq<Byte>)
    ensures KeyBytes(text) == Some(key) <==> |key| == 32 && text == Encode(key)
  {
    RoundTrip(key);
    if KeyBytes(text) == Some(key) { assert Decode(text) == Some(key); }
  }

  function Code(s: Secret): string {
    PREFIX + "." + Encode(s.root) + "." + Encode(s.issuer)
  }

  // ---- splitting at dots ----------------------------------------------------------------------------------

  /** Python's `text.split(".")`. */
  function Split(text: string): (parts: seq<string>)
    ensures parts != []
    decreases |text|
  {
    var n := Dot(text);
    if n == |text| then [text] else [text[..n]] + Split(text[n + 1..])
  }

  function Dot(text: string): (n: nat)
    ensures n <= |text| && (n < |text| ==> text[n] == '.')
    ensures forall i :: 0 <= i < n ==> text[i] != '.'
  {
    if text == "" || text[0] == '.' then 0 else 1 + Dot(text[1..])
  }

  lemma SplitFirst(part: string, rest: string)
    requires '.' !in part
    ensures Split(part + "." + rest) == [part] + Split(rest) && Split(part) == [part]
  {
    var text := part + "." + rest;
    assert text[|part|] == '.';
    assert Dot(text) == |part| by {
      forall i | 0 <= i < |part| ensures text[i] != '.' { assert text[i] == part[i] && part[i] in part; }
    }
    assert text[..|part|] == part && text[|part| + 1..] == rest;
    assert Dot(part) == |part| by {
      forall i | 0 <= i < |part| ensures part[i] != '.' { assert part[i] in part; }
    }
  }

  lemma SplitOfThree(a: string, b: string, c: string)
    requires '.' !in a && '.' !in b && '.' !in c
    ensures Split(a + "." + b + "." + c) == [a, b, c]
  {
    var tail := b + "." + c;
    assert a + "." + b + "." + c == a + "." + tail;
    SplitFirst(a, tail);
    SplitFirst(b, c);
    SplitFirst(c, "");
    assert [a] + ([b] + [c]) == [a, b, c];
  }

  function JoinDots(parts: seq<string>): string
    requires parts != []
  {
    if |parts| == 1 then parts[0] else parts[0] + "." + JoinDots(parts[1..])
  }

  lemma {:induction false} SplitJoin(text: string)
    ensures JoinDots(Split(text)) == text
    decreases |text|
  {
    var n := Dot(text);
    if n < |text| {
      var head, tail := text[..n], text[n + 1..];
      SplitJoin(tail);
      assert ([head] + Split(tail))[1..] == Split(tail);
      assert text == head + "." + tail;
    }
  }

  /** A text that splits into three parts is the three parts joined. */
  lemma SplitThree(text: string)
    requires |Split(text)| == 3
    ensures var p := Split(text); text == p[0] + "." + p[1] + "." + p[2]
  {
    SplitJoin(text);
    var p := Split(text);
    JoinThree(p[0], p[1], p[2]);
    assert p == [p[0], p[1], p[2]];
  }

  lemma JoinThree(a: string, b: string, c: string)
    ensures JoinDots([a, b, c]) == a + "." + b + "." + c
  {
    assert [a, b, c][1..] == [b, c] && [b, c][1..] == [c];
    assert JoinDots([b, c]) == b + "." + c;
    assert a + "." + (b + "." + c) == a + "." + b + "." + c;
  }

  // ---- reading codes --------------------------------------------------------------------------------------

  function FromCode(code: string): Result<Secret> {
    var parts := Split(code);
    if |code| != 92 || |parts| != 3 || parts[0] != PREFIX then Err("invitation code is invalid")
    else
      var root, issuer := KeyBytes(parts[1]), KeyBytes(parts[2]);
      if root.None? || issuer.None? then Err("invitation code is invalid") else Ok(Secret(root.value, issuer.value))
  }

  lemma CodeParts(s: Secret)
    ensures Split(Code(s)) == [PREFIX, Encode(s.root), Encode(s.issuer)]
  {
    RoundTrip(s.root);
    RoundTrip(s.issuer);
    SplitOfThree(PREFIX, Encode(s.root), Encode(s.issuer));
  }

  /** Every secret is read back from its code, which has 92 characters. */
  lemma CodeRoundTrip(s: Secret)
    requires ValidSecret(s)
    ensures |Code(s)| == 92 && FromCode(Code(s)) == Ok(s)
  {
    CodeParts(s);
    RoundTrip(s.root);
    RoundTrip(s.issuer);
    KeyBytesIff(Encode(s.root), s.root);
    KeyBytesIff(Encode(s.issuer), s.issuer);
  }

  /** Every accepted code is the code of the secret it is read as; so accepted codes and secrets correspond
      one to one. */
  lemma AcceptedCodesAreCodes(code: string)
    requires FromCode(code).Ok?
    ensures ValidSecret(FromCode(code).value) && Code(FromCode(code).value) == code
  {
    var parts := Split(code);
    SplitThree(code);
    KeyBytesIff(parts[1], KeyBytes(parts[1]).value);
    KeyBytesIff(parts[2], KeyBytes(parts[2]).value);
  }
}
