/** The assumptions on JSON text and on the decoding of replies can be met. */
module TextAssumptions {
  import opened Strings
  import opened Base64Url
  import opened Json
  import I = InvitationFrames

  // ---- an injective printer for all JSON values -----------------------------------------------------------

  /** Nothing that can follow makes two such texts equal: what comes first is read back. */
  function Unary(n: nat): Bytes { if n == 0 then [0] else [1] + Unary(n - 1) }

  lemma Peel(h: Byte, h': Byte, p: Bytes, q: Bytes, x: Bytes, y: Bytes)
    requires [h] + p + x == [h'] + q + y
    ensures h == h' && p + x == q + y
  {
    var left, right := [h] + p + x, [h'] + q + y;
    assert left[0] == h && right[0] == h';
    assert left[1..] == p + x && right[1..] == q + y;
  }

  lemma {:induction false} UnaryFree(n: nat, m: nat, x: Bytes, y: Bytes)
    requires Unary(n) + x == Unary(m) + y
    ensures n == m && x == y
  {
    var p, q := if n == 0 then [] else Unary(n - 1), if m == 0 then [] else Unary(m - 1);
    var h: Byte, h': Byte := if n == 0 then 0 else 1, if m == 0 then 0 else 1;
    assert Unary(n) == [h] + p && Unary(m) == [h'] + q;
    Peel(h, h', p, q, x, y);
    if n > 0 { UnaryFree(n - 1, m - 1, x, y); } else { assert p + x == x && q + y == y; }
  }

  function CodeText(s: string): Bytes {
    if s == "" then [0] else [1] + (Unary(s[0] as int) + CodeText(s[1..]))
  }

  lemma {:induction false} TextFree(s: string, t: string, x: Bytes, y: Bytes)
    requires CodeText(s) + x == CodeText(t) + y
    ensures s == t && x == y
  {
    var p, q := if s == "" then [] else Unary(s[0] as int) + CodeText(s[1..]),
                if t == "" then [] else Unary(t[0] as int) + CodeText(t[1..]);
    var h: Byte, h': Byte := if s == "" then 0 else 1, if t == "" then 0 else 1;
    assert CodeText(s) == [h] + p && CodeText(t) == [h'] + q;
    Peel(h, h', p, q, x, y);
    if s == "" {
      assert p + x == x && q + y == y;
    } else {
      assert p + x == Unary(s[0] as int) + (CodeText(s[1..]) + x);
      assert q + y == Unary(t[0] as int) + (CodeText(t[1..]) + y);
      UnaryFree(s[0] as int, t[0] as int, CodeText(s[1..]) + x, CodeText(t[1..]) + y);
      TextFree(s[1..], t[1..], x, y);
      assert s == [s[0]] + s[1..] && t == [t[0]] + t[1..];
    }
  }

  /** The members of an object in some order. */
  ghost function Listing(keys: set<string>): (r: seq<string>)
    ensures forall x :: x in r <==> x in keys
  {
    if keys == {} then [] else var k :| k in keys; [k] + Listing(keys - {k})
  }

  ghost predicate Below(xs: seq<Json>, owner: Json) { forall i :: 0 <= i < |xs| ==> xs[i] < owner }

  ghost predicate MembersBelow(keys: seq<string>, m: map<string, Json>, owner: Json) {
    forall k :: k in keys ==> k in m && m[k] < owner
  }

  function Tag(v: Json): Byte {
    match v
    case Null => 0
    case Bool(b) => if b then 1 else 2
    case Int(n) => if n >= 0 then 3 else 4
    case Float(_) => 5
    case Str(_) => 6
    case Arr(_) => 7
    case Obj(_) => 8
  }

  ghost function Rest(v: Json): Bytes
    decreases v, 1
  {
    match v
    case Null => []
    case Bool(b) => []
    case Int(n) => Unary(if n >= 0 then n else -n)
    case Float(bits) => Unary(bits)
    case Str(s) => CodeText(s)
    case Arr(items) => Items(items, v)
    case Obj(m) => Members(Listing(m.Keys), m, v)
  }

  ghost function Code(v: Json): Bytes
    decreases v, 2
  {
    [Tag(v)] + Rest(v)
  }

  ghost function Items(xs: seq<Json>, owner: Json): Bytes
    requires Below(xs, owner)
    decreases owner, 0, |xs|
  {
    if xs == [] then [0] else [1] + (Code(xs[0]) + Items(xs[1..], owner))
  }

  ghost function Members(keys: seq<string>, m: map<string, Json>, owner: Json): Bytes
    requires MembersBelow(keys, m, owner)
    decreases owner, 0, |keys|
  {
    if keys == [] then [0] else [1] + (CodeText(keys[0]) + (Code(m[keys[0]]) + Members(keys[1..], m, owner)))
  }

  lemma {:induction false} ItemsFree(xs: seq<Json>, ys: seq<Json>, v: Json, w: Json, x: Bytes, y: Bytes)
    requires Below(xs, v) && Below(ys, w) && Items(xs, v) + x == Items(ys, w) + y
    ensures xs == ys && x == y
    decreases v, 0, |xs|
  {
    if xs == [] || ys == [] {
      assert (Items(xs, v) + x)[0] == (Items(ys, w) + y)[0];
      assert xs == ys == [];
      assert ([0] + x)[1..] == x && ([0] + y)[1..] == y;
    } else {
      var p, q := Items(xs[1..], v), Items(ys[1..], w);
      Peel(1, 1, Code(xs[0]) + p, Code(ys[0]) + q, x, y);
      assert Code(xs[0]) + p + x == Code(xs[0]) + (p + x) && Code(ys[0]) + q + y == Code(ys[0]) + (q + y);
      CodeFree(xs[0], ys[0], p + x, q + y);
      ItemsFree(xs[1..], ys[1..], v, w, x, y);
      assert xs == [xs[0]] + xs[1..] && ys == [ys[0]] + ys[1..];
    }
  }

  lemma {:induction false} MembersFree(
      ks: seq<string>, ls: seq<string>, m: map<string, Json>, n: map<string, Json>, v: Json, w: Json,
      x: Bytes, y: Bytes)
    requires MembersBelow(ks, m, v) && MembersBelow(ls, n, w) && Members(ks, m, v) + x == Members(ls, n, w) + y
    ensures ks == ls && x == y && forall k :: k in ks ==> m[k] == n[k]
    decreases v, 0, |ks|
  {
    if ks == [] || ls == [] {
      assert (Members(ks, m, v) + x)[0] == (Members(ls, n, w) + y)[0];
      assert ks == ls == [];
      assert ([0] + x)[1..] == x && ([0] + y)[1..] == y;
    } else {
      var p, q := Members(ks[1..], m, v), Members(ls[1..], n, w);
      var c, d := Code(m[ks[0]]), Code(n[ls[0]]);
      Peel(1, 1, CodeText(ks[0]) + (c + p), CodeText(ls[0]) + (d + q), x, y);
      assert CodeText(ks[0]) + (c + p) + x == CodeText(ks[0]) + (c + (p + x));
      assert CodeText(ls[0]) + (d + q) + y == CodeText(ls[0]) + (d + (q + y));
      TextFree(ks[0], ls[0], c + (p + x), d + (q + y));
      CodeFree(m[ks[0]], n[ls[0]], p + x, q + y);
      MembersFree(ks[1..], ls[1..], m, n, v, w, x, y);
      assert ks == [ks[0]] + ks[1..] && ls == [ls[0]] + ls[1..];
    }
  }

  lemma {:induction false} RestFree(v: Json, w: Json, x: Bytes, y: Bytes)
    requires Tag(v) == Tag(w) && Rest(v) + x == Rest(w) + y
    ensures v == w && x == y
    decreases v, 1
  {
    match v
    case Null => assert [] + x == x && [] + y == y;
    case Bool(_) => assert [] + x == x && [] + y == y;
    case Int(n) =>
      var k := w.number;
      UnaryFree(if n >= 0 then n else -n, if k >= 0 then k else -k, x, y);
    case Float(bits) => UnaryFree(bits, w.bits, x, y);
    case Str(s) => TextFree(s, w.value, x, y);
    case Arr(items) => ItemsFree(items, w.items, v, w, x, y);
    case Obj(m) =>
      MembersFree(Listing(m.Keys), Listing(w.members.Keys), m, w.members, v, w, x, y);
      assert m.Keys == w.members.Keys;
  }

  lemma {:induction false} CodeFree(v: Json, w: Json, x: Bytes, y: Bytes)
    requires Code(v) + x == Code(w) + y
    ensures v == w && x == y
    decreases v, 2
  {
    Peel(Tag(v), Tag(w), Rest(v), Rest(w), x, y);
    RestFree(v, w, x, y);
  }

  ghost function Parsed(text: Bytes): Option<Json> {
    if exists v :: Code(v) == text then var v :| Code(v) == text; Some(v) else None
  }

  /** A printer of all JSON values whose parser reads every one back. */
  lemma FaithfulHolds()
    ensures Faithful(Text.Text((v: Json) => Code(v), (b: Bytes) => Parsed(b)))
  {
    forall v, w | Code(v) == Code(w) ensures v == w { CodeFree(v, w, [], []); }
  }

  // ---- blob texts and replies -----------------------------------------------------------------------------

  predicate Unquoted(s: string) { '\"' !in s }

  /** A field ends at its quote. */
  lemma QuoteEnds(a: string, b: string, r: string, s: string)
    requires Unquoted(a) && Unquoted(b) && a + ("\"" + r) == b + ("\"" + s)
    ensures a == b && r == s
  {
    var left, right := a + ("\"" + r), b + ("\"" + s);
    assert left[|a|] == '\"' && right[|b|] == '\"';
    assert forall i :: 0 <= i < |a| ==> left[i] == a[i];
    assert forall i :: 0 <= i < |b| ==> right[i] == b[i];
    assert |a| == |b|;
    assert left[..|a|] == a && right[..|b|] == b;
    assert left[|a| + 1..] == r && right[|b| + 1..] == s;
  }

  lemma EncodingUnquoted(b: Bytes)
    ensures Unquoted(Encode(b))
  {
  }

  const P1 := "{\"ciphertext\":\""
  const P2 := ",\"header\":{\"algorithm\":\""
  const P3 := ",\"context\":\""
  const P4 := ",\"key_id\":\""
  const P5 := ",\"version\":1},\"nonce\":\""

  function Field(value: string, rest: string): string { value + ("\"" + rest) }

  /** The text of a blob as fields, each ended by its quote. */
  function Fields(c: string, algorithm: string, context: string, keyId: string, n: string): string {
    P1 + Field(c, P2 + Field(algorithm, P3 + Field(context, P4 + Field(keyId, P5 + Field(n, "}")))))
  }

  lemma FieldsFree(c: string, a: string, x: string, k: string, n: string,
                   c': string, a': string, x': string, k': string, n': string)
    requires Unquoted(c) && Unquoted(a) && Unquoted(x) && Unquoted(k) && Unquoted(n)
    requires Unquoted(c') && Unquoted(a') && Unquoted(x') && Unquoted(k') && Unquoted(n')
    requires Fields(c, a, x, k, n) == Fields(c', a', x', k', n')
    ensures c == c' && a == a' && x == x' && k == k' && n == n'
  {
    var f5, g5 := Field(n, "}"), Field(n', "}");
    var f4, g4 := Field(k, P5 + f5), Field(k', P5 + g5);
    var f3, g3 := Field(x, P4 + f4), Field(x', P4 + g4);
    var f2, g2 := Field(a, P3 + f3), Field(a', P3 + g3);
    var f1, g1 := Field(c, P2 + f2), Field(c', P2 + g2);
    After(P1, f1, g1);
    QuoteEnds(c, c', P2 + f2, P2 + g2);
    After(P2, f2, g2);
    QuoteEnds(a, a', P3 + f3, P3 + g3);
    After(P3, f3, g3);
    QuoteEnds(x, x', P4 + f4, P4 + g4);
    After(P4, f4, g4);
    QuoteEnds(k, k', P5 + f5, P5 + g5);
    After(P5, f5, g5);
    QuoteEnds(n, n', "}", "}");
  }

  lemma After(p: string, x: string, y: string)
    requires p + x == p + y
    ensures x == y
  {
    assert (p + x)[|p|..] == x && (p + y)[|p|..] == y;
  }

  lemma Regroup(x: string, y: string, z: string)
    ensures (x + y) + z == x + (y + z)
  {
  }

  /** One more field read off the end. */
  lemma LastField(before: string, value: string, next: string, rest: string)
    ensures before + value + ("\"" + next) + rest == before + Field(value, next + rest)
  {
    Regroup(before + value, "\"" + next, rest);
    Regroup("\"", next, rest);
    Regroup(before, value, "\"" + (next + rest));
  }

  lemma BlobFields(b: I.Blob)
    ensures I.BlobText(b) == Fields(Encode(b.ciphertext), b.algorithm, b.context, b.keyId, Encode(b.nonce))
  {
    var c, a, x, k, n := Encode(b.ciphertext), b.algorithm, b.context, b.keyId, Encode(b.nonce);
    var t1 := P1 + c + ("\"" + P2);
    var t2 := t1 + a + ("\"" + P3);
    var t3 := t2 + x + ("\"" + P4);
    var t4 := t3 + k + ("\"" + P5);
    Separators();
    assert I.BlobText(b) == t4 + n + ("\"" + "}");
    Regroup(t4, n, "\"" + "}");
    var f5 := Field(n, "}");
    LastField(t3, k, P5, f5);
    var f4 := Field(k, P5 + f5);
    LastField(t2, x, P4, f4);
    var f3 := Field(x, P4 + f4);
    LastField(t1, a, P3, f3);
    LastField(P1, c, P2, Field(a, P3 + f3));
  }

  lemma Separators()
    ensures "\"" + P2 == "\",\"header\":{\"algorithm\":\"" && "\"" + P3 == "\",\"context\":\""
    ensures "\"" + P4 == "\",\"key_id\":\"" && "\"" + P5 == "\",\"version\":1},\"nonce\":\""
    ensures "\"" + "}" == "\"}"
  {
  }

  predicate Readable(b: I.Blob) { I.Unescaped(b.algorithm) && I.Unescaped(b.context) && I.Unescaped(b.keyId) }

  lemma BlobTextBinds(b: I.Blob, b': I.Blob)
    requires Readable(b) && Readable(b') && I.BlobText(b) == I.BlobText(b')
    ensures I.BlobJson(b) == I.BlobJson(b')
  {
    BlobFields(b);
    BlobFields(b');
    EncodingUnquoted(b.ciphertext);
    EncodingUnquoted(b.nonce);
    EncodingUnquoted(b'.ciphertext);
    EncodingUnquoted(b'.nonce);
    FieldsFree(Encode(b.ciphertext), b.algorithm, b.context, b.keyId, Encode(b.nonce),
               Encode(b'.ciphertext), b'.algorithm, b'.context, b'.keyId, Encode(b'.nonce));
  }

  ghost predicate TextOf(b: I.Blob, text: string) { Readable(b) && I.BlobText(b) == text }

  ghost function ReadBlob(text: string): (r: Option<Json>)
    ensures (exists b :: TextOf(b, text)) ==> exists b :: TextOf(b, text) && r == Some(I.BlobJson(b))
  {
    if exists b :: TextOf(b, text) then var b :| TextOf(b, text); Some(I.BlobJson(b)) else None
  }

  lemma ReadBlobText(b: I.Blob, text: string)
    requires TextOf(b, text)
    ensures ReadBlob(text) == Some(I.BlobJson(b))
  {
    var found: I.Blob :| TextOf(found, text) && ReadBlob(text) == Some(I.BlobJson(found));
    assert TextOf(found, text) && TextOf(b, text);
    BlobTextBinds(b, found);
  }

  /** A reader of blob texts. */
  lemma ReadsBlobsHolds()
    ensures I.ReadsBlobs((text: string) => ReadBlob(text))
  {
    forall b: I.Blob | Readable(b) ensures ReadBlob(I.BlobText(b)) == Some(I.BlobJson(b)) {
      assert TextOf(b, I.BlobText(b));
      ReadBlobText(b, I.BlobText(b));
    }
  }

  lemma PaddedDecodes(data: Bytes)
    ensures Decode(I.Padded(data)) == Some(data)
  {
    var e := Encode(data);
    var n := (4 - |e| % 4) % 4;
    TextValues(ToDigits(data));
    RoundTrip(data);
    Fill(|data|);
    PaddedDecode(e, n);
    assert I.Padded(data) == e + Pads(n);
  }

  /** Strict decoding of replies. */
  lemma InvertsHolds()
    ensures I.Inverts((text: string) => Decode(text))
  {
    forall data: Bytes ensures Decode(I.Padded(data)) == Some(data) { PaddedDecodes(data); }
  }
}
