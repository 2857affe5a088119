/** Text and byte-string vocabulary shared by the models: substring search, prefixes and
    suffixes, and the code-point order by which lists of names are sorted. */
module Strings {

  datatype Option<+T> = None | Some(value: T)

  datatype Result<+T> = Ok(value: T) | Err(reason: string)

  /** `sub` stands in `s` at offset `i`. */
  predicate OccursAt<T(==)>(s: seq<T>, sub: seq<T>, i: int) {
    0 <= i && i + |sub| <= |s| && s[i..i + |sub|] == sub
  }

  /** Python's `sub in s`. */
  predicate Contains<T(==)>(s: seq<T>, sub: seq<T>) {
    exists i :: 0 <= i <= |s| && OccursAt(s, sub, i)
  }

  predicate StartsWith<T(==)>(s: seq<T>, prefix: seq<T>) {
    prefix <= s
  }

  predicate EndsWith<T(==)>(s: seq<T>, suffix: seq<T>) {
    |suffix| <= |s| && s[|s| - |suffix|..] == suffix
  }

  /** Code-point order of strings, the order of Python's `sorted`. */
  predicate Less(a: string, b: string) {
    if b == "" then false
    else if a == "" then true
    else a[0] < b[0] || (a[0] == b[0] && Less(a[1..], b[1..]))
  }

  lemma {:induction false} LessTrichotomy(a: string, b: string)
    ensures a == b || Less(a, b) || Less(b, a)
    ensures !(Less(a, b) && Less(b, a))
    decreases |a|
  {
    if a != "" && b != "" {
      LessTrichotomy(a[1..], b[1..]);
      assert a == [a[0]] + a[1..] && b == [b[0]] + b[1..];
    }
  }

  lemma {:induction false} LessTransitive(a: string, b: string, c: string)
    requires Less(a, b) && Less(b, c)
    ensures Less(a, c)
    decreases |a|
  {
    if a != "" && a[0] == b[0] && b[0] == c[0] {
      LessTransitive(a[1..], b[1..], c[1..]);
    }
  }

  /** `xs` lists the elements of `names` once each, in increasing order. */
  ghost predicate SortedListing(xs: seq<string>, names: set<string>) {
    && (forall x :: x in xs <==> x in names)
    && (forall i, j :: 0 <= i < j < |xs| ==> Less(xs[i], xs[j]))
  }

  /** Sorting a set of names has exactly one outcome. */
  lemma {:induction false} SortedListingUnique(xs: seq<string>, ys: seq<string>, names: set<string>)
    requires SortedListing(xs, names) && SortedListing(ys, names)
    ensures xs == ys
    decreases |xs|
  {
    assert forall i :: 0 <= i < |ys| ==> ys[i] in names;
    if xs == [] {
      assert names == {};
    } else {
      assert xs[0] in xs && xs[0] in ys;
      assert ys[0] in ys && ys[0] in xs;
      LessTrichotomy(xs[0], ys[0]);
      assert xs[0] == ys[0];
      var rest := names - {xs[0]};
      TailListing(xs, names);
      TailListing(ys, names);
      SortedListingUnique(xs[1..], ys[1..], rest);
      assert xs == [xs[0]] + xs[1..] && ys == [ys[0]] + ys[1..];
    }
  }

  lemma TailListing(xs: seq<string>, names: set<string>)
    requires SortedListing(xs, names) && xs != []
    ensures SortedListing(xs[1..], names - {xs[0]})
  {
    forall x ensures x in xs[1..] <==> x in names - {xs[0]} {
      LessTrichotomy(xs[0], xs[0]);
      if x in names && x != xs[0] {
        assert x in xs;
        var k :| 0 <= k < |xs| && xs[k] == x;
        assert xs[1..][k - 1] == x;
      }
    }
  }

  /** Python's `sorted` over a set of names: repeatedly take the least one left. */
  method Sort(names: set<string>) returns (xs: seq<string>)
    ensures SortedListing(xs, names)
  {
    var left := names;
    xs := [];
    while left != {}
      invariant left <= names
      invariant SortedListing(xs, names - left)
      invariant forall x, y :: x in xs && y in left ==> Less(x, y)
      decreases |left|
    {
      LeastExists(left);
      var least :| least in left && forall y :: y in left ==> y == least || Less(least, y);
      ghost var before := xs;
      xs := xs + [least];
      left := left - {least};
      assert forall x :: x in xs <==> x in before || x == least;
      LessTrichotomy(least, least);
    }
    assert names - left == names;
  }

  lemma {:induction false} LeastExists(names: set<string>)
    requires names != {}
    ensures exists least :: least in names && forall y :: y in names ==> y == least || Less(least, y)
    decreases |names|
  {
    var pick :| pick in names;
    if names == {pick} {
      assert pick in names && forall y :: y in names ==> y == pick || Less(pick, y);
    } else {
      var rest := names - {pick};
      assert rest == {} ==> names == {pick};
      LeastExists(rest);
      var least :| least in rest && forall y :: y in rest ==> y == least || Less(least, y);
      LessTrichotomy(pick, least);
      if Less(pick, least) {
        forall y | y in names ensures y == pick || Less(pick, y) {
          if y != pick && y != least { LessTransitive(pick, least, y); }
        }
        assert pick in names;
      } else {
        assert least in names && forall y :: y in names ==> y == least || Less(least, y);
      }
    }
  }
}
