/** Removing the installer's three-line PATH block from a shell profile. */
module ShellProfile {
  import opened Strings

  const BEGIN := "# >>> seckit path >>>"
  const END := "# <<< seckit path <<<"

  // ---- lines ----------------------------------------------------------------------------------------------

  /** The characters at which Python's `splitlines` ends a line. */
  predicate Terminator(c: char) {
    c in {'\n', '\r', '\U{000B}', '\U{000C}', '\U{001C}', '\U{001D}', '\U{001E}', '\U{0085}', '\U{2028}', '\U{2029}'}
  }

  /** Length of the first line with its terminator; a carriage return and newline count as one. */
  function Cut(s: string): (n: nat)
    ensures n <= |s| && (s != "" ==> n > 0)
  {
    if s == "" then 0
    else if s[0] == '\r' && |s| > 1 && s[1] == '\n' then 2
    else if Terminator(s[0]) then 1
    else 1 + Cut(s[1..])
  }

  /** Split after each line terminator, keeping it. */
  function Lines(s: string): seq<string> {
    if s == "" then [] else [s[..Cut(s)]] + Lines(s[Cut(s)..])
  }

  function Join(lines: seq<string>): string {
    if lines == [] then "" else lines[0] + Join(lines[1..])
  }

  /** A line without its newline; other terminators stay. */
  function LineText(line: string): string {
    if EndsWith(line, "\r\n") then line[..|line| - 2]
    else if EndsWith(line, "\n") || EndsWith(line, "\r") then line[..|line| - 1]
    else line
  }

  lemma {:induction false} JoinLines(s: string)
    ensures Join(Lines(s)) == s
  {
    if s != "" { JoinLines(s[Cut(s)..]); }
  }

  lemma {:induction false} JoinConcat(a: seq<string>, b: seq<string>)
    ensures Join(a + b) == Join(a) + Join(b)
  {
    if a == [] {
      assert a + b == b;
    } else {
      JoinConcat(a[1..], b);
      assert (a + b)[1..] == a[1..] + b && (a + b)[0] == a[0];
      assert a[0] + (Join(a[1..]) + Join(b)) == a[0] + Join(a[1..]) + Join(b);
    }
  }

  /** The text ends where a line ends for certain. */
  predicate Complete(p: string) { p == "" || p[|p| - 1] == '\n' }

  lemma {:induction false} CutComplete(p: string, s: string)
    requires p != "" && Complete(p)
    ensures Cut(p + s) == Cut(p) && Complete(p[Cut(p)..])
  {
    if !Terminator(p[0]) {
      assert |p| > 1;
      CutComplete(p[1..], s);
      assert (p + s)[1..] == p[1..] + s;
      assert p[Cut(p)..] == p[1..][Cut(p[1..])..];
    }
  }

  lemma FirstLine(s: string)
    requires s != ""
    ensures Lines(s) == [s[..Cut(s)]] + Lines(s[Cut(s)..])
  {
  }

  lemma {:induction false} LinesConcat(p: string, s: string)
    requires Complete(p)
    ensures Lines(p + s) == Lines(p) + Lines(s)
    decreases |p|
  {
    if p == "" {
      assert p + s == s;
    } else {
      CutComplete(p, s);
      var n, first := Cut(p), p[..Cut(p)];
      assert (p + s)[..n] == first && (p + s)[n..] == p[n..] + s;
      FirstLine(p + s);
      FirstLine(p);
      LinesConcat(p[n..], s);
    }
  }

  /** A text with one newline, at its end, is one line. */
  lemma {:induction false} OneLine(s: string)
    requires forall i :: 0 <= i < |s| ==> !Terminator(s[i])
    ensures Lines(s + "\n") == [s + "\n"] && LineText(s + "\n") == s
  {
    CutOneLine(s);
    var t := s + "\n";
    assert t[..|t|] == t && t[|t|..] == "" && t[..|t| - 1] == s && t[|t| - 1..] == "\n";
    if s != "" { assert t[|t| - 2..][0] == s[|s| - 1]; }
  }

  lemma {:induction false} CutOneLine(s: string)
    requires forall i :: 0 <= i < |s| ==> !Terminator(s[i])
    ensures Cut(s + "\n") == |s| + 1
  {
    if s != "" {
      CutOneLine(s[1..]);
      assert (s + "\n")[1..] == s[1..] + "\n";
    }
  }

  // ---- markers --------------------------------------------------------------------------------------------

  predicate Plain(s: string) { !Contains(s, BEGIN) && !Contains(s, END) }

  /** Nonempty and without a line terminator. */
  predicate OneLineText(s: string) { s != "" && forall i :: 0 <= i < |s| ==> !Terminator(s[i]) }

  lemma MarkerCharacter(i: nat)
    requires i < 21
    ensures |BEGIN| == 21 && |END| == 21 && !Terminator(BEGIN[i]) && !Terminator(END[i])
  {
  }

  lemma MarkersAreOneLine()
    ensures OneLineText(BEGIN) && OneLineText(END)
  {
    forall i: nat | i < 21 ensures !Terminator(BEGIN[i]) && !Terminator(END[i]) { MarkerCharacter(i); }
  }

  /** A marker does not cross the end of a line. */
  lemma NoCrossing(a: string, b: string, marker: string)
    requires (a == "" || Terminator(a[|a| - 1])) && OneLineText(marker) && Contains(a + b, marker)
    ensures Contains(a, marker) || Contains(b, marker)
  {
    var i :| 0 <= i <= |a + b| && OccursAt(a + b, marker, i);
    forall k | i <= k < i + |marker| ensures !Terminator((a + b)[k]) {
      assert (a + b)[k] == (a + b)[i..i + |marker|][k - i];
    }
    assert a == "" || (a + b)[|a| - 1] == a[|a| - 1];
    if i + |marker| <= |a| {
      assert (a + b)[i..i + |marker|] == a[i..i + |marker|];
      assert OccursAt(a, marker, i);
    } else {
      assert (a + b)[i..i + |marker|] == b[i - |a|..i - |a| + |marker|];
      assert OccursAt(b, marker, i - |a|);
    }
  }

  lemma PlainConcat(a: string, b: string)
    requires Plain(a) && Plain(b) && (a == "" || Terminator(a[|a| - 1]))
    ensures Plain(a + b)
  {
    MarkersAreOneLine();
    if Contains(a + b, BEGIN) { NoCrossing(a, b, BEGIN); }
    if Contains(a + b, END) { NoCrossing(a, b, END); }
  }

  /** Every line but the last ends in a terminator. */
  predicate Terminated(lines: seq<string>) {
    forall i :: 0 <= i < |lines| - 1 ==> lines[i] != "" && Terminator(lines[i][|lines[i]| - 1])
  }

  lemma {:induction false} LinesTerminated(s: string)
    ensures Terminated(Lines(s)) && forall i :: 0 <= i < |Lines(s)| ==> Lines(s)[i] != ""
  {
    if s != "" {
      var n := Cut(s);
      CutTerminated(s);
      LinesTerminated(s[n..]);
      assert s[..n][n - 1] == s[n - 1];
    }
  }

  lemma {:induction false} CutTerminated(s: string)
    ensures Cut(s) < |s| ==> Terminator(s[Cut(s) - 1])
  {
    if s != "" && !Terminator(s[0]) { CutTerminated(s[1..]); }
  }

  lemma {:induction false} JoinPlain(lines: seq<string>)
    requires Terminated(lines) && forall i :: 0 <= i < |lines| ==> Plain(lines[i])
    ensures Plain(Join(lines))
  {
    if |lines| == 1 {
      assert Join(lines) == lines[0];
    } else if |lines| > 1 {
      JoinPlain(lines[1..]);
      PlainConcat(lines[0], Join(lines[1..]));
    }
  }

  lemma StrippedRest(line: string)
    ensures LineText(line) <= line && forall i :: |LineText(line)| <= i < |line| ==> Terminator(line[i])
  {
    if EndsWith(line, "\r\n") {
      assert line[|line| - 2..][0] == '\r' && line[|line| - 2..][1] == '\n';
    } else if EndsWith(line, "\n") {
      assert line[|line| - 1..][0] == '\n';
    } else if EndsWith(line, "\r") {
      assert line[|line| - 1..][0] == '\r';
    }
  }

  /** Stripping the newline of a line neither hides nor makes a marker. */
  lemma PlainText(line: string)
    ensures Plain(LineText(line)) <==> Plain(line)
  {
    StrippedRest(line);
    MarkersAreOneLine();
    StripKeeps(LineText(line), line, BEGIN);
    StripKeeps(LineText(line), line, END);
  }

  lemma StripKeeps(text: string, line: string, marker: string)
    requires text <= line && OneLineText(marker) && forall i :: |text| <= i < |line| ==> Terminator(line[i])
    ensures Contains(line, marker) <==> Contains(text, marker)
  {
    if i :| 0 <= i <= |line| && OccursAt(line, marker, i) {
      var last := i + |marker| - 1;
      assert line[i..i + |marker|][|marker| - 1] == line[last];
      assert line[i..i + |marker|] == text[i..i + |marker|];
      assert OccursAt(text, marker, i);
    }
    if i :| 0 <= i <= |text| && OccursAt(text, marker, i) {
      assert line[i..i + |marker|] == text[i..i + |marker|];
      assert OccursAt(line, marker, i);
    }
  }

  // ---- the block ------------------------------------------------------------------------------------------

  /** How a line stands to the markers: it has none, is one, or has one among other text. */
  datatype Kind = Quiet | Opens | Closes | Odd

  function KindOf(line: string): Kind {
    var text := LineText(line);
    if Plain(text) then Quiet else if text == BEGIN then Opens else if text == END then Closes else Odd
  }

  lemma KindFacts(line: string)
    ensures KindOf(line) == Opens <==> LineText(line) == BEGIN
    ensures KindOf(line) == Closes <==> LineText(line) == END
    ensures KindOf(line) == Quiet <==> Plain(line)
  {
    assert BEGIN[2] != END[2];
    assert BEGIN[0..|BEGIN|] == BEGIN && OccursAt(BEGIN, BEGIN, 0);
    assert END[0..|END|] == END && OccursAt(END, END, 0);
    PlainText(line);
  }

  /** A line as the search sees it: its text without newline, and how that stands to the markers. */
  datatype Line = Line(text: string, kind: Kind)

  function Described(lines: seq<string>): seq<Line> {
    seq(|lines|, j requires 0 <= j < |lines| => Line(LineText(lines[j]), KindOf(lines[j])))
  }

  predicate AllQuiet(lines: seq<Line>) { forall j :: 0 <= j < |lines| ==> lines[j].kind == Quiet }

  /** A marker that opens at `i`, one that closes two lines on, and no other. */
  predicate Bracket(lines: seq<Line>, i: int) {
    && 0 <= i && i + 2 < |lines| && lines[i].kind == Opens && lines[i + 2].kind == Closes
    && forall j :: 0 <= j < |lines| && j != i && j != i + 2 ==> lines[j].kind == Quiet
  }

  /** Exactly the installer's block at line `i`, and no marker in any other line. */
  predicate BlockAt(lines: seq<Line>, path: string, i: int) {
    Bracket(lines, i) && lines[i + 1].text == path
  }

  /** `found` are the lines of one kind among the first `n`. */
  predicate Indices(lines: seq<Line>, n: nat, kind: Kind, found: seq<nat>)
    requires n <= |lines|
  {
    && (forall k :: 0 <= k < |found| ==> found[k] < n && lines[found[k]].kind == kind)
    && (forall j :: 0 <= j < n && lines[j].kind == kind ==> j in found)
    && (forall k, l :: 0 <= k < l < |found| ==> found[k] < found[l])
  }

  predicate NoneOdd(lines: seq<Line>, n: nat)
    requires n <= |lines|
  {
    forall j :: 0 <= j < n ==> lines[j].kind != Odd
  }

  lemma Single(lines: seq<Line>, kind: Kind, found: seq<nat>, i: nat)
    requires Indices(lines, |lines|, kind, found) && i < |lines| && lines[i].kind == kind
    requires forall j :: 0 <= j < |lines| && lines[j].kind == kind ==> j == i
    ensures found == [i]
  {
    assert found != [];
    Increasing(found, |found| - 1);
    assert found[0] == i && found[|found| - 1] == i;
  }

  lemma {:induction false} Increasing(found: seq<nat>, k: nat)
    requires (forall k, l :: 0 <= k < l < |found| ==> found[k] < found[l]) && k < |found|
    ensures found[k] >= found[0] + k
  {
    if k > 0 { Increasing(found, k - 1); }
  }

  /** What the collected indices say: no marker, one bracket, or neither. */
  lemma Judged(lines: seq<Line>, begins: seq<nat>, ends: seq<nat>)
    requires NoneOdd(lines, |lines|) && Indices(lines, |lines|, Opens, begins) && Indices(lines, |lines|, Closes, ends)
    ensures AllQuiet(lines) <==> begins == [] && ends == []
    ensures forall i: nat :: Bracket(lines, i) <==> |begins| == 1 && begins[0] == i && |ends| == 1 && ends[0] == i + 2
  {
    assert |begins| > 0 ==> lines[begins[0]].kind != Quiet;
    assert |ends| > 0 ==> lines[ends[0]].kind != Quiet;
    forall i: nat
      ensures Bracket(lines, i) <==> |begins| == 1 && begins[0] == i && |ends| == 1 && ends[0] == i + 2
    {
      if Bracket(lines, i) {
        Single(lines, Opens, begins, i);
        Single(lines, Closes, ends, i + 2);
      } else if |begins| == 1 && begins[0] == i && |ends| == 1 && ends[0] == i + 2 {
        OnlyThese(lines, begins, ends, i);
      }
    }
  }

  lemma OnlyThese(lines: seq<Line>, begins: seq<nat>, ends: seq<nat>, i: nat)
    requires NoneOdd(lines, |lines|) && Indices(lines, |lines|, Opens, begins) && Indices(lines, |lines|, Closes, ends)
    requires begins == [i] && ends == [i + 2]
    ensures Bracket(lines, i)
  {
    assert lines[begins[0]].kind == Opens && lines[ends[0]].kind == Closes;
    forall j | 0 <= j < |lines| && j != i && j != i + 2 ensures lines[j].kind == Quiet {
      assert j !in begins && j !in ends;
    }
  }

  /** The lines of all markers, unless one stands among other text. */
  method Collect(lines: seq<Line>) returns (r: Result<(seq<nat>, seq<nat>)>)
    ensures r.Ok? <==> NoneOdd(lines, |lines|)
    ensures r.Ok? ==> Indices(lines, |lines|, Opens, r.value.0) && Indices(lines, |lines|, Closes, r.value.1)
  {
    var begins: seq<nat>, ends: seq<nat> := [], [];
    var index := 0;
    while index < |lines|
      invariant 0 <= index <= |lines| && NoneOdd(lines, index)
      invariant Indices(lines, index, Opens, begins) && Indices(lines, index, Closes, ends)
    {
      match lines[index].kind {
        case Quiet =>
        case Opens => begins := begins + [index];
        case Closes => ends := ends + [index];
        case Odd => return Err("edited_shell_profile_block");
      }
      index := index + 1;
    }
    return Ok((begins, ends));
  }

  /** The single exact block, nothing when no marker occurs, and an error for any other use of a marker. */
  method ExactBlockStart(lines: seq<Line>, path: string) returns (r: Result<Option<nat>>)
    ensures r == Ok(None) <==> AllQuiet(lines)
    ensures forall i: nat :: r == Ok(Some(i)) <==> BlockAt(lines, path, i)
  {
    var found := Collect(lines);
    if found.Err? { return Err(found.reason); }
    var (begins, ends) := found.value;
    Judged(lines, begins, ends);
    if begins == [] && ends == [] { return Ok(None); }
    if |begins| > 1 || |ends| > 1 { return Err("duplicate_shell_profile_block"); }
    if |begins| != 1 || |ends| != 1 || ends[0] != begins[0] + 2 { return Err("malformed_shell_profile_block"); }
    if lines[begins[0] + 1].text != path { return Err("edited_shell_profile_block"); }
    return Ok(Some(begins[0]));
  }

  // ---- inspecting and editing a profile -------------------------------------------------------------------

  /** The profile has the block: false without any marker, an error where a marker is used otherwise. */
  method InspectProfile(text: string, path: string) returns (r: Result<bool>)
    ensures r == Ok(true) <==> exists i :: BlockAt(Described(Lines(text)), path, i)
    ensures r == Ok(false) <==> Plain(text)
  {
    PlainLines(text);
    if Plain(text) {
      QuietIsNoBlock(Described(Lines(text)), path);
      return Ok(false);
    }
    var start := ExactBlockStart(Described(Lines(text)), path);
    if start.Err? {
      NotFound(Described(Lines(text)), path, start);
      return Err(start.reason);
    }
    assert start.value.Some?;
    assert BlockAt(Described(Lines(text)), path, start.value.value);
    return Ok(true);
  }

  lemma QuietIsNoBlock(lines: seq<Line>, path: string)
    requires AllQuiet(lines)
    ensures forall i :: !BlockAt(lines, path, i)
  {
  }

  lemma NotFound(lines: seq<Line>, path: string, r: Result<Option<nat>>)
    requires r.Err? && forall i: nat :: r == Ok(Some(i)) <==> BlockAt(lines, path, i)
    ensures forall i :: !BlockAt(lines, path, i)
  {
    forall i ensures !BlockAt(lines, path, i) {
      if 0 <= i {
        var n: nat := i;
        assert r == Ok(Some(n)) <==> BlockAt(lines, path, n);
      }
    }
  }

  /** A text has a marker exactly when one of its lines has. */
  lemma PlainLines(text: string)
    ensures Plain(text) <==> AllQuiet(Described(Lines(text)))
  {
    var lines := Lines(text);
    JoinLines(text);
    LinesTerminated(text);
    forall j | 0 <= j < |lines| ensures KindOf(lines[j]) == Quiet <==> Plain(lines[j]) { KindFacts(lines[j]); }
    if AllQuiet(Described(lines)) {
      forall j | 0 <= j < |lines| ensures Plain(lines[j]) {
        assert Described(lines)[j].kind == Quiet;
      }
      JoinPlain(lines);
    } else {
      var j :| 0 <= j < |lines| && Described(lines)[j].kind != Quiet;
      assert !Plain(lines[j]);
      var before, after := LineInText(lines, j);
      MarkerInside(before, lines[j], after);
    }
  }

  lemma {:induction false} LineInText(lines: seq<string>, j: nat) returns (before: string, after: string)
    requires j < |lines|
    ensures Join(lines) == before + lines[j] + after
  {
    assert lines == lines[..j] + ([lines[j]] + lines[j + 1..]);
    JoinConcat(lines[..j], [lines[j]] + lines[j + 1..]);
    before, after := Join(lines[..j]), Join(lines[j + 1..]);
    assert ([lines[j]] + lines[j + 1..])[1..] == lines[j + 1..];
  }

  lemma MarkerInside(before: string, line: string, after: string)
    requires !Plain(line)
    ensures !Plain(before + line + after)
  {
    if Contains(line, BEGIN) {
      ContainsInside(before, line, after, BEGIN);
    } else {
      ContainsInside(before, line, after, END);
    }
  }

  lemma ContainsInside(before: string, line: string, after: string, marker: string)
    requires Contains(line, marker)
    ensures Contains(before + line + after, marker)
  {
    var i :| 0 <= i <= |line| && OccursAt(line, marker, i);
    var text := before + line + after;
    assert text[|before| + i..|before| + i + |marker|] == line[i..i + |marker|];
    assert OccursAt(text, marker, |before| + i);
  }

  /** Remove the block's three lines and nothing else. */
  method WithoutBlock(text: string, path: string) returns (r: Result<string>)
    ensures r.Ok? <==> exists i :: BlockAt(Described(Lines(text)), path, i)
    ensures forall i :: BlockAt(Described(Lines(text)), path, i) ==>
      r == Ok(Join(Lines(text)[..i] + Lines(text)[i + 3..]))
  {
    var lines := Lines(text);
    var start := ExactBlockStart(Described(lines), path);
    if start.Err? {
      NotFound(Described(lines), path, start);
      return Err(start.reason);
    }
    if start.value.None? {
      QuietIsNoBlock(Described(lines), path);
      return Err("installation_changed_during_uninstall");
    }
    var i := start.value.value;
    BlockUnique(Described(lines), path, i);
    assert exists k :: BlockAt(Described(Lines(text)), path, k) by { assert BlockAt(Described(Lines(text)), path, i); }
    return Ok(Join(lines[..i] + lines[i + 3..]));
  }

  lemma BlockUnique(lines: seq<Line>, path: string, i: int)
    requires BlockAt(lines, path, i)
    ensures forall j :: BlockAt(lines, path, j) ==> j == i
  {
  }

  /** What is left has no marker, so a second inspection finds nothing to do. */
  lemma RemovalLeavesPlain(text: string, path: string, i: int)
    requires BlockAt(Described(Lines(text)), path, i)
    ensures Plain(Join(Lines(text)[..i] + Lines(text)[i + 3..]))
  {
    var lines := Lines(text);
    var left := lines[..i] + lines[i + 3..];
    LinesTerminated(text);
    forall j | 0 <= j < |left| ensures Plain(left[j]) {
      var k := if j < i then j else j + 3;
      assert left[j] == lines[k];
      assert Described(lines)[k].kind == Quiet;
      KindFacts(lines[k]);
    }
    JoinPlain(left);
  }

  /** The three lines of the block. */
  function Block(path: string): string { BEGIN + "\n" + path + "\n" + END + "\n" }

  lemma ThreeLines(a: string, b: string, c: string)
    requires Complete(a) && Complete(b) && Lines(a) == [a] && Lines(b) == [b] && Lines(c) == [c]
    ensures Lines(a + (b + c)) == [a, b, c]
  {
    LinesConcat(a, b + c);
    LinesConcat(b, c);
  }

  lemma BlockLines(path: string)
    requires OneLineText(path)
    ensures Lines(Block(path)) == [BEGIN + "\n", path + "\n", END + "\n"]
    ensures LineText(BEGIN + "\n") == BEGIN && LineText(path + "\n") == path && LineText(END + "\n") == END
  {
    var begin, end: string := BEGIN, END;
    MarkersAreOneLine();
    OneLine(begin);
    OneLine(path);
    OneLine(end);
    var a, b, c := begin + "\n", path + "\n", end + "\n";
    ThreeLines(a, b, c);
    assert Block(path) == a + (b + c);
  }

  lemma DescribedConcat(a: seq<string>, b: seq<string>)
    ensures Described(a + b) == Described(a) + Described(b)
  {
  }

  lemma DescribedBlock(path: string)
    requires OneLineText(path) && Plain(path)
    ensures Described(Lines(Block(path))) == [Line(BEGIN, Opens), Line(path, Quiet), Line(END, Closes)]
  {
    BlockLines(path);
    var a, b, c := BEGIN + "\n", path + "\n", END + "\n";
    KindFacts(a);
    KindFacts(b);
    KindFacts(c);
    PlainText(b);
  }

  lemma BlockBetween(before: seq<Line>, block: seq<Line>, after: seq<Line>, path: string)
    requires AllQuiet(before) && AllQuiet(after)
    requires |block| == 3 && block[0].kind == Opens && block[1] == Line(path, Quiet) && block[2].kind == Closes
    ensures BlockAt(before + block + after, path, |before|)
  {
  }

  /** Wherever the block stands between whole lines, with no other marker about, the search finds it there,
      and removing it restores the text around it exactly. */
  lemma RoundTrip(p: string, s: string, path: string)
    requires Complete(p) && Plain(p) && Plain(s) && OneLineText(path) && Plain(path)
    ensures var lines, i := Lines(p + Block(path) + s), |Lines(p)|;
      BlockAt(Described(lines), path, i) && Join(lines[..i] + lines[i + 3..]) == p + s
  {
    InsertedLines(p, Block(path), s);
    DescribedBlock(path);
    var a, b, c := Lines(p), Lines(Block(path)), Lines(s);
    DescribedConcat(a + b, c);
    DescribedConcat(a, b);
    PlainLines(p);
    PlainLines(s);
    BlockBetween(Described(a), Described(b), Described(c), path);
    Excised(p, s, b);
    assert |b| == 3;
  }

  /** The profile after installation: what it held, an empty line, and the block. */
  function Installed(p: string, path: string): string { p + "\n" + Block(path) }

  /** Removing what the installer wrote finds the block at the end and gives the profile back with the
      installer's empty line, so never quite the same text. */
  lemma InstallThenRemove(p: string, path: string)
    requires Complete(p) && Plain(p) && OneLineText(path) && Plain(path)
    ensures var lines, i := Lines(Installed(p, path)), |Lines(p)| + 1;
      && |lines| == i + 3 && BlockAt(Described(lines), path, i)
      && Join(lines[..i] + lines[i + 3..]) == p + "\n" != p
  {
    var q := p + "\n";
    OneLine("");
    assert "" + "\n" == "\n";
    LinesConcat(p, "\n");
    MarkersAreOneLine();
    if !Plain(q) { NewlineIsNoMarker(p); }
    RoundTrip(q, "", path);
    assert Installed(p, path) == q + Block(path) + "";
    BlockLines(path);
    InsertedLines(q, Block(path), "");
    assert q + "" == q;
  }

  lemma NewlineIsNoMarker(p: string)
    requires Complete(p) && Plain(p)
    ensures Plain(p + "\n")
  {
    MarkersAreOneLine();
    if Contains(p + "\n", BEGIN) { NoCrossing(p, "\n", BEGIN); }
    if Contains(p + "\n", END) { NoCrossing(p, "\n", END); }
  }

  lemma InsertedLines(p: string, block: string, s: string)
    requires Complete(p) && Complete(block)
    ensures Lines(p + block + s) == Lines(p) + Lines(block) + Lines(s)
  {
    assert p + block + s == p + (block + s);
    LinesConcat(p, block + s);
    LinesConcat(block, s);
  }

  lemma Excised(p: string, s: string, block: seq<string>)
    ensures var lines, i := Lines(p) + block + Lines(s), |Lines(p)|;
      Join(lines[..i] + lines[i + |block|..]) == p + s
  {
    var lines, i := Lines(p) + block + Lines(s), |Lines(p)|;
    assert lines[..i] == Lines(p) && lines[i + |block|..] == Lines(s);
    JoinConcat(Lines(p), Lines(s));
    JoinLines(p);
    JoinLines(s);
  }
}
