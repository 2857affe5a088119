/** Relocating a binary: rewriting NUL-terminated strings that hold a build prefix, in place by offset. */
module PrefixRelocation {
  import opened Strings
  import opened Base64Url

  const NUL: Byte := 0
  const SLASH: Byte := 47
  const DOTDOT: Bytes := [46, 46]

  // ---- splitting ------------------------------------------------------------------------------------------

  /** Python's `data.split(sep)` for a one-byte separator. */
  function Split(data: Bytes, sep: Byte): (r: seq<Bytes>)
    ensures r != [] && forall i :: 0 <= i < |r| ==> sep !in r[i]
  {
    if data == [] then [[]]
    else
      var rest := Split(data[1..], sep);
      if data[0] == sep then [[]] + rest else [[data[0]] + rest[0]] + rest[1..]
  }

  function Join(segments: seq<Bytes>, sep: Byte): Bytes
    requires segments != []
  {
    if |segments| == 1 then segments[0] else segments[0] + [sep] + Join(segments[1..], sep)
  }

  lemma {:induction false} JoinSplit(data: Bytes, sep: Byte)
    ensures Join(Split(data, sep), sep) == data
  {
    if data != [] {
      var rest := Split(data[1..], sep);
      JoinSplit(data[1..], sep);
      if data[0] == sep {
        assert ([[]] + rest)[1..] == rest;
      } else {
        var r := [[data[0]] + rest[0]] + rest[1..];
        assert |rest| > 1 ==> r[1..] == rest[1..];
      }
    }
  }

  /** Where segment `i` starts in the joined bytes. */
  function Offset(segments: seq<Bytes>, i: nat): nat
    requires i <= |segments|
  {
    if i == 0 then 0 else |segments[0]| + 1 + Offset(segments[1..], i - 1)
  }

  predicate SameShape(a: seq<Bytes>, b: seq<Bytes>) {
    |a| == |b| && forall i :: 0 <= i < |a| ==> |a[i]| == |b[i]|
  }

  /** Segments of the same lengths stand at the same offsets and join to the same length. */
  lemma {:induction false} ShapeKeepsOffsets(a: seq<Bytes>, b: seq<Bytes>, sep: Byte, i: nat)
    requires SameShape(a, b) && a != [] && i <= |a|
    ensures Offset(a, i) == Offset(b, i) && |Join(a, sep)| == |Join(b, sep)|
  {
    if |a| > 1 { ShapeKeepsOffsets(a[1..], b[1..], sep, if i == 0 then 0 else i - 1); }
  }

  /** The joined bytes hold each segment at its offset. */
  lemma {:induction false} SegmentAt(segments: seq<Bytes>, sep: Byte, i: nat)
    requires i < |segments|
    ensures OccursAt(Join(segments, sep), segments[i], Offset(segments, i))
  {
    var joined := Join(segments, sep);
    if |segments| > 1 {
      var rest := Join(segments[1..], sep);
      if i > 0 {
        SegmentAt(segments[1..], sep, i - 1);
        var k, n := Offset(segments[1..], i - 1), |segments[0]| + 1;
        assert joined[n + k..n + k + |segments[i]|] == rest[k..k + |segments[i]|];
      }
    }
  }

  // ---- occurrences ----------------------------------------------------------------------------------------

  /** A pattern without the separator occurs in the whole exactly when it occurs on one side of it. */
  lemma OccursOnOneSide(a: Bytes, b: Bytes, sep: Byte, pattern: Bytes)
    requires sep !in pattern && pattern != []
    ensures Contains(a + [sep] + b, pattern) <==> Contains(a, pattern) || Contains(b, pattern)
  {
    var s := a + [sep] + b;
    var n := |pattern|;
    if Contains(s, pattern) {
      var i :| 0 <= i <= |s| && OccursAt(s, pattern, i);
      forall k | i <= k < i + n ensures s[k] != sep {
        assert s[k] == s[i..i + n][k - i];
      }
      assert s[|a|] == sep;
      if i + n <= |a| {
        assert s[i..i + n] == a[i..i + n];
        assert OccursAt(a, pattern, i);
      } else {
        var j := i - |a| - 1;
        assert s[i..i + n] == b[j..j + n];
        assert OccursAt(b, pattern, j);
      }
    }
    if i :| 0 <= i <= |a| && OccursAt(a, pattern, i) {
      assert s[i..i + n] == a[i..i + n];
      assert OccursAt(s, pattern, i);
    }
    if i :| 0 <= i <= |b| && OccursAt(b, pattern, i) {
      var j := |a| + 1 + i;
      assert s[j..j + n] == b[i..i + n];
      assert OccursAt(s, pattern, j);
    }
  }

  predicate InSomeSegment(segments: seq<Bytes>, pattern: Bytes) {
    exists i :: 0 <= i < |segments| && Contains(segments[i], pattern)
  }

  lemma {:induction false} OccursInSegment(segments: seq<Bytes>, sep: Byte, pattern: Bytes)
    requires segments != [] && sep !in pattern && pattern != []
    ensures Contains(Join(segments, sep), pattern) <==> InSomeSegment(segments, pattern)
  {
    if |segments| > 1 {
      OccursInSegment(segments[1..], sep, pattern);
      OccursOnOneSide(segments[0], Join(segments[1..], sep), sep, pattern);
      if InSomeSegment(segments[1..], pattern) {
        var i :| 0 <= i < |segments[1..]| && Contains(segments[1..][i], pattern);
        assert Contains(segments[i + 1], pattern);
      }
      if InSomeSegment(segments, pattern) && !Contains(segments[0], pattern) {
        var i :| 0 <= i < |segments| && Contains(segments[i], pattern);
        assert Contains(segments[1..][i - 1], pattern);
      }
    } else {
      assert Contains(segments[0], pattern) ==> InSomeSegment(segments, pattern);
    }
  }

  // ---- replacing ------------------------------------------------------------------------------------------

  /** Python's `s.replace(old, new)`: every occurrence, leftmost first, without overlap. */
  function Replace(s: Bytes, from: Bytes, to: Bytes): (r: Bytes)
    requires from != [] && |to| <= |from|
    ensures |r| <= |s|
  {
    if |s| < |from| then s
    else if from <= s then to + Replace(s[|from|..], from, to)
    else [s[0]] + Replace(s[1..], from, to)
  }

  /** The stretches of `s` between those occurrences. */
  function Pieces(s: Bytes, from: Bytes): (r: seq<Bytes>)
    requires from != []
    ensures r != []
  {
    if |s| < |from| then [s]
    else if from <= s then [[]] + Pieces(s[|from|..], from)
    else
      var rest := Pieces(s[1..], from);
      [[s[0]] + rest[0]] + rest[1..]
  }

  function Glue(pieces: seq<Bytes>, between: Bytes): Bytes
    requires pieces != []
  {
    if |pieces| == 1 then pieces[0] else pieces[0] + between + Glue(pieces[1..], between)
  }

  lemma {:induction false} GluePieces(s: Bytes, from: Bytes, to: Bytes)
    requires from != [] && |to| <= |from|
    ensures Glue(Pieces(s, from), from) == s && Glue(Pieces(s, from), to) == Replace(s, from, to)
    decreases |s|
  {
    if |s| < |from| {
    } else if from <= s {
      var rest := s[|from|..];
      GluePieces(rest, from, to);
      assert ([[]] + Pieces(rest, from))[1..] == Pieces(rest, from);
      assert s == from + rest;
    } else {
      var rest := Pieces(s[1..], from);
      GluePieces(s[1..], from, to);
      GlueHead(rest, s[0], from);
      GlueHead(rest, s[0], to);
      assert s == [s[0]] + s[1..];
    }
  }

  lemma GlueHead(pieces: seq<Bytes>, b: Byte, between: Bytes)
    requires pieces != []
    ensures Glue([[b] + pieces[0]] + pieces[1..], between) == [b] + Glue(pieces, between)
  {
    var longer := [[b] + pieces[0]] + pieces[1..];
    assert longer[1..] == pieces[1..];
    if |pieces| > 1 {
      assert [b] + pieces[0] + between + Glue(pieces[1..], between) ==
        [b] + (pieces[0] + between + Glue(pieces[1..], between));
    }
  }

  lemma {:induction false} FirstPiece(s: Bytes, from: Bytes)
    requires from != []
    ensures Pieces(s, from)[0] <= s
  {
    if |s| >= |from| && !(from <= s) { FirstPiece(s[1..], from); }
  }

  /** No occurrence is left out: the stretches between contain none. */
  lemma {:induction false} PiecesAreClear(s: Bytes, from: Bytes, i: nat)
    requires from != [] && i < |Pieces(s, from)|
    ensures !Contains(Pieces(s, from)[i], from)
    decreases |s|
  {
    if |s| < |from| {
    } else if from <= s {
      if i > 0 { PiecesAreClear(s[|from|..], from, i - 1); }
    } else {
      PiecesAreClear(s[1..], from, i);
      if i == 0 {
        FirstPiece(s, from);
        NotAtHead(s, Pieces(s[1..], from)[0], from);
      }
    }
  }

  lemma NotAtHead(s: Bytes, tail: Bytes, from: Bytes)
    requires from != [] && s != [] && !(from <= s) && [s[0]] + tail <= s && !Contains(tail, from)
    ensures !Contains([s[0]] + tail, from)
  {
    var piece := [s[0]] + tail;
    forall k | 0 <= k <= |piece| ensures !OccursAt(piece, from, k) {
      if k > 0 && k + |from| <= |piece| {
        assert piece[k..k + |from|] == tail[k - 1..k - 1 + |from|];
        assert !OccursAt(tail, from, k - 1);
      } else if k == 0 && |from| <= |piece| {
        assert piece[..|from|] == s[..|from|];
      }
    }
  }

  function Zeros(n: nat): Bytes { seq(n, _ => NUL) }

  /** A segment with its occurrences replaced, filled with NUL to its old length. */
  function Rewritten(segment: Bytes, from: Bytes, to: Bytes): (r: Bytes)
    requires from != [] && |to| <= |from|
    ensures |r| == |segment|
  {
    if Contains(segment, from)
    then Replace(segment, from, to) + Zeros(|segment| - |Replace(segment, from, to)|)
    else segment
  }

  // ---- relocation -----------------------------------------------------------------------------------------

  predicate ValidPrefixes(placeholder: Bytes, prefix: Bytes) {
    && [SLASH] <= placeholder && [SLASH] <= prefix && NUL !in placeholder && NUL !in prefix
    && prefix != placeholder && |prefix| <= |placeholder| && DOTDOT !in Split(prefix, SLASH)
  }

  function AllRewritten(segments: seq<Bytes>, from: Bytes, to: Bytes): (r: seq<Bytes>)
    requires from != [] && |to| <= |from|
    ensures SameShape(segments, r) && forall i :: 0 <= i < |segments| ==> r[i] == Rewritten(segments[i], from, to)
  {
    seq(|segments|, i requires 0 <= i < |segments| => Rewritten(segments[i], from, to))
  }

  /** The whole binary with every terminated string rewritten. */
  function Relocated(data: Bytes, placeholder: Bytes, prefix: Bytes): Bytes
    requires placeholder != [] && |prefix| <= |placeholder|
  {
    Join(AllRewritten(Split(data, NUL), placeholder, prefix), NUL)
  }

  function Unterminated(data: Bytes): Bytes { Split(data, NUL)[|Split(data, NUL)| - 1] }

  method ReplaceBinaryPrefix(data: Bytes, placeholder: Bytes, prefix: Bytes) returns (r: Result<Bytes>)
    ensures r.Ok? <==>
      && ValidPrefixes(placeholder, prefix) && Contains(data, placeholder)
      && !Contains(Unterminated(data), placeholder) && !Contains(Relocated(data, placeholder, prefix), placeholder)
    ensures r.Ok? ==> r.value == Relocated(data, placeholder, prefix) && |r.value| == |data|
  {
    if !ValidPrefixes(placeholder, prefix) { return Err("invalid_native_prefix"); }
    if !Contains(data, placeholder) { return Err("native_prefix_not_found"); }
    var segments := Split(data, NUL);
    ghost var original := segments;
    if Contains(segments[|segments| - 1], placeholder) { return Err("unterminated_native_prefix"); }
    var index := 0;
    while index < |segments| - 1
      invariant |segments| == |original| && 0 <= index <= |original| - 1
      invariant forall i :: 0 <= i < index ==> segments[i] == Rewritten(original[i], placeholder, prefix)
      invariant forall i :: index <= i < |original| ==> segments[i] == original[i]
    {
      var segment := segments[index];
      if Contains(segment, placeholder) {
        var replacement := Replace(segment, placeholder, prefix);
        segments := segments[index := replacement + Zeros(|segment| - |replacement|)];
      }
      index := index + 1;
    }
    assert segments == AllRewritten(original, placeholder, prefix);
    var result := Join(segments, NUL);
    JoinSplit(data, NUL);
    ShapeKeepsOffsets(original, segments, NUL, 0);
    if |result| != |data| || Contains(result, placeholder) { return Err("native_prefix_relocation_incomplete"); }
    return Ok(result);
  }

  /** The relocated binary has the same length; every string keeps its offset, unchanged if it does not hold
      the placeholder, and otherwise rewritten in full and filled with NUL. */
  lemma RelocationKeepsOffsets(data: Bytes, placeholder: Bytes, prefix: Bytes, i: nat)
    requires ValidPrefixes(placeholder, prefix) && i < |Split(data, NUL)|
    ensures |Relocated(data, placeholder, prefix)| == |data|
    ensures var segments := Split(data, NUL);
      && OccursAt(data, segments[i], Offset(segments, i))
      && OccursAt(Relocated(data, placeholder, prefix), Rewritten(segments[i], placeholder, prefix),
        Offset(segments, i))
  {
    var segments := Split(data, NUL);
    var rewritten := AllRewritten(segments, placeholder, prefix);
    JoinSplit(data, NUL);
    ShapeKeepsOffsets(segments, rewritten, NUL, i);
    SegmentAt(segments, NUL, i);
    SegmentAt(rewritten, NUL, i);
  }

  /** The placeholder occurs in the data exactly when it occurs in one of its strings; and relocation leaves
      none exactly when no rewritten string has one. */
  lemma OccurrencesAreInStrings(data: Bytes, placeholder: Bytes, prefix: Bytes)
    requires ValidPrefixes(placeholder, prefix)
    ensures Contains(data, placeholder) <==> InSomeSegment(Split(data, NUL), placeholder)
    ensures Contains(Relocated(data, placeholder, prefix), placeholder) <==>
      InSomeSegment(AllRewritten(Split(data, NUL), placeholder, prefix), placeholder)
  {
    JoinSplit(data, NUL);
    OccursInSegment(Split(data, NUL), NUL, placeholder);
    OccursInSegment(AllRewritten(Split(data, NUL), placeholder, prefix), NUL, placeholder);
  }

  // ---- when no placeholder can be left --------------------------------------------------------------------

  /** The end of `a` is the beginning of `b`, in at least one byte. */
  predicate Overlaps(a: Bytes, b: Bytes) {
    exists n :: 1 <= n <= |a| && n <= |b| && a[|a| - n..] == b[..n]
  }

  /** The new prefix neither lies within the placeholder nor can share an end with it. */
  predicate Independent(placeholder: Bytes, prefix: Bytes) {
    !Contains(placeholder, prefix) && !Overlaps(prefix, placeholder) && !Overlaps(placeholder, prefix)
  }

  /** An occurrence starting in a new prefix runs over its end. */
  lemma FromPrefix(from: Bytes, to: Bytes, rest: Bytes, i: nat)
    requires |to| <= |from| && i < |to| && OccursAt(to + rest, from, i)
    ensures Overlaps(to, from)
  {
    var r, n := to + rest, |to| - i;
    assert r[i..i + |from|][..n] == to[i..];
    assert to[|to| - n..] == from[..n];
  }

  /** An occurrence that starts before a new prefix reaches into it, or over it. */
  lemma IntoPrefix(from: Bytes, to: Bytes, piece: Bytes, rest: Bytes)
    requires to != [] && |piece| < |from| && from <= piece + to + rest
    ensures Contains(from, to) || Overlaps(from, to)
  {
    var r, k := piece + to + rest, |piece|;
    if k + |to| <= |from| {
      assert from[k..k + |to|] == r[k..k + |to|] == to;
      assert OccursAt(from, to, k);
    } else {
      var n := |from| - k;
      assert from[|from| - n..] == r[k..|from|] == to[..n];
    }
  }

  /** The text before the first replaced occurrence does not start one in the result. */
  lemma NotAtStart(s: Bytes, from: Bytes, to: Bytes)
    requires from != [] && to != [] && |to| <= |from| && Independent(from, to) && !(from <= s)
    ensures !(from <= Replace(s, from, to))
  {
    GluePieces(s, from, to);
    FirstPiece(s, from);
    var pieces := Pieces(s, from);
    if |pieces| > 1 {
      var rest := Glue(pieces[1..], to);
      assert Replace(s, from, to) == pieces[0] + to + rest;
      if |pieces[0]| < |from| && from <= pieces[0] + to + rest { IntoPrefix(from, to, pieces[0], rest); }
    }
  }

  lemma OccursLater(a: Bytes, b: Bytes, pattern: Bytes, i: nat)
    ensures OccursAt(a + b, pattern, |a| + i) <==> OccursAt(b, pattern, i)
  {
    if i + |pattern| <= |b| { assert (a + b)[|a| + i..|a| + i + |pattern|] == b[i..i + |pattern|]; }
  }

  /** Replacing leaves no occurrence when the two prefixes are independent. */
  lemma {:induction false} ReplacedIsClear(s: Bytes, from: Bytes, to: Bytes, i: nat)
    requires from != [] && to != [] && |to| <= |from| && Independent(from, to)
    ensures !OccursAt(Replace(s, from, to), from, i)
    decreases |s|
  {
    if |s| < |from| {
    } else if from <= s {
      var rest := Replace(s[|from|..], from, to);
      if i < |to| {
        if OccursAt(to + rest, from, i) { FromPrefix(from, to, rest, i); }
      } else {
        ReplacedIsClear(s[|from|..], from, to, i - |to|);
        OccursLater(to, rest, from, i - |to|);
      }
    } else if i == 0 {
      NotAtStart(s, from, to);
    } else {
      ReplacedIsClear(s[1..], from, to, i - 1);
      OccursLater([s[0]], Replace(s[1..], from, to), from, i - 1);
    }
  }

  lemma FilledIsClear(s: Bytes, n: nat, pattern: Bytes)
    requires NUL !in pattern && pattern != [] && !Contains(s, pattern)
    ensures !Contains(s + Zeros(n), pattern)
  {
    var r := s + Zeros(n);
    forall i | 0 <= i <= |r| ensures !OccursAt(r, pattern, i) {
      if OccursAt(r, pattern, i) {
        assert r[i..i + |pattern|][|pattern| - 1] == r[i + |pattern| - 1];
        assert pattern[|pattern| - 1] in pattern;
        assert i + |pattern| <= |s|;
        assert s[i..i + |pattern|] == r[i..i + |pattern|];
        assert OccursAt(s, pattern, i);
      }
    }
  }

  lemma RewrittenIsClear(segment: Bytes, from: Bytes, to: Bytes)
    requires NUL !in from && from != [] && to != [] && |to| <= |from| && Independent(from, to)
    ensures !Contains(Rewritten(segment, from, to), from)
  {
    var r := Replace(segment, from, to);
    forall i | 0 <= i <= |r| ensures !OccursAt(r, from, i) { ReplacedIsClear(segment, from, to, i); }
    FilledIsClear(r, |segment| - |r|, from);
  }

  /** With independent prefixes no placeholder is left, whatever the data: relocation succeeds exactly for
      valid prefixes and a placeholder that occurs, and only in terminated strings. */
  lemma IndependentLeavesNone(data: Bytes, placeholder: Bytes, prefix: Bytes)
    requires ValidPrefixes(placeholder, prefix) && Independent(placeholder, prefix)
    ensures !Contains(Relocated(data, placeholder, prefix), placeholder)
  {
    OccurrencesAreInStrings(data, placeholder, prefix);
    var segments := Split(data, NUL);
    forall i | 0 <= i < |segments| ensures !Contains(AllRewritten(segments, placeholder, prefix)[i], placeholder) {
      RewrittenIsClear(segments[i], placeholder, prefix);
    }
  }

  /** With prefixes that share an end one may be left: `/a/` replaced by `/` in `/a/a/` gives `/a/`. */
  lemma SharedEndLeavesOne(a: Byte)
    requires a != SLASH && a != NUL
    ensures var placeholder, prefix, segment := [SLASH, a, SLASH], [SLASH], [SLASH, a, SLASH, a, SLASH];
      && ValidPrefixes(placeholder, prefix) && !Independent(placeholder, prefix)
      && Contains(segment + [NUL], placeholder) && !Contains(Unterminated(segment + [NUL]), placeholder)
      && Contains(Relocated(segment + [NUL], placeholder, prefix), placeholder)
  {
    var placeholder, prefix, segment := [SLASH, a, SLASH], [SLASH], [SLASH, a, SLASH, a, SLASH];
    SlashSplit();
    assert OccursAt(placeholder, prefix, 0);
    SplitOnce(segment);
    assert segment[0..3] == placeholder;
    assert OccursAt(segment, placeholder, 0);
    SharedRewritten(a);
    var segments := Split(segment + [NUL], NUL);
    assert segments[0] == segment && segments[1] == [];
    assert Contains(AllRewritten(segments, placeholder, prefix)[0], placeholder);
    OccurrencesAreInStrings(segment + [NUL], placeholder, prefix);
  }

  lemma SlashSplit()
    ensures Split([SLASH], SLASH) == [[], []] && DOTDOT !in Split([SLASH], SLASH)
  {
    assert [SLASH][1..] == [];
    assert Split([], SLASH) == [[]];
  }

  lemma {:induction false} SplitOnce(segment: Bytes)
    requires NUL !in segment
    ensures Split(segment + [NUL], NUL) == [segment, []]
  {
    var data := segment + [NUL];
    if segment == [] {
      assert data[1..] == [];
    } else {
      SplitOnce(segment[1..]);
      assert data[1..] == segment[1..] + [NUL] && data[0] == segment[0] != NUL;
      assert [segment[0]] + segment[1..] == segment;
      assert [segment[1..], []][1..] == [[]];
    }
  }

  lemma SharedRewritten(a: Byte)
    requires a != SLASH
    ensures var placeholder, prefix, segment := [SLASH, a, SLASH], [SLASH], [SLASH, a, SLASH, a, SLASH];
      Contains(Rewritten(segment, placeholder, prefix), placeholder)
  {
    var placeholder, prefix, segment := [SLASH, a, SLASH], [SLASH], [SLASH, a, SLASH, a, SLASH];
    assert segment[3..] == [a, SLASH] && placeholder <= segment;
    assert Replace(segment, placeholder, prefix) == placeholder;
    assert segment[0..3] == placeholder;
    assert OccursAt(segment, placeholder, 0);
    var r := Rewritten(segment, placeholder, prefix);
    assert r[0..3] == placeholder;
    assert OccursAt(r, placeholder, 0);
  }
}
