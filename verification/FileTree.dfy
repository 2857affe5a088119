/** A file tree as a finite map from absolute paths to nodes, and symbolic-link resolution in it. */
module FileTree {
  import opened Strings

  /** Path components from the file-system root. */
  type Path = seq<string>

  datatype Target = Target(absolute: bool, parts: Path)

  /** What an inventory records of one entry. */
  datatype Entry = LinkEntry(target: Target) | DirEntry(mode: nat) | FileEntry(mode: nat, digest: string)

  /** A parsed receipt. `entries` is absent when that member is no object. */
  datatype Receipt = Receipt(schema: int, entries: Option<map<Path, Entry>>, launchers: map<string, string>)

  /** `own` means owned by the calling user; `receipt` is what a file's content parses to. */
  datatype Node =
    | Dir(own: bool, mode: nat)
    | File(own: bool, mode: nat, digest: string, receipt: Option<Receipt>)
    | Link(own: bool, target: Target)
    | Socket(own: bool, mode: nat)
    | Other(own: bool, mode: nat)

  type Tree = map<Path, Node>

  function Parent(p: Path): Path { if p == [] then [] else p[..|p| - 1] }

  /** Every entry lies in a directory. */
  predicate Rooted(t: Tree) {
    && [] in t && t[[]].Dir?
    && (forall p {:trigger Parent(p)} :: p in t && p != [] ==> Parent(p) in t && t[Parent(p)].Dir?)
  }

  /** Every entry lies in a directory, and no name is the parent reference. */
  predicate WellFormed(t: Tree) {
    Rooted(t) && forall p :: p in t ==> ".." !in p
  }

  /** The names listed by iterating over a directory. */
  function Names(t: Tree, g: Path): set<string> {
    set p | p in t && g < p && |p| == |g| + 1 :: p[|g|]
  }

  predicate Leaf(t: Tree, p: Path) {
    forall q :: q in t ==> !(p < q)
  }

  /** Both trees have the same nodes at and below `g`. */
  predicate SameBelow(t: Tree, t': Tree, g: Path) {
    && (forall p :: p in t && g <= p ==> p in t' && t'[p] == t[p])
    && (forall p :: p in t' && g <= p ==> p in t)
  }

  lemma NamesAt(t: Tree, g: Path, n: string)
    ensures n in Names(t, g) <==> g + [n] in t
  {
    assert g < g + [n] && (g + [n])[|g|] == n;
    if n in Names(t, g) {
      var p :| p in t && g < p && |p| == |g| + 1 && p[|g|] == n;
      assert p == g + [n];
    }
  }

  lemma {:induction false} PrefixPresent(t: Tree, p: Path, q: Path)
    requires WellFormed(t) && q in t && p <= q
    ensures p in t && (p < q ==> t[p].Dir?)
    decreases |q| - |p|
  {
    if |p| < |q| {
      var next := q[..|p| + 1];
      PrefixPresent(t, next, q);
      assert Parent(next) == p;
    } else {
      assert p == q;
    }
  }

  /** The name through which a path passes from a directory above it. */
  lemma NameOnPath(t: Tree, g: Path, q: Path)
    requires WellFormed(t) && q in t && g < q
    ensures q[|g|] in Names(t, g) && g + [q[|g|]] <= q
  {
    PrefixPresent(t, q[..|g| + 1], q);
    assert q[..|g| + 1] == g + [q[|g|]];
    NamesAt(t, g, q[|g|]);
  }

  lemma NoNames(t: Tree, g: Path)
    requires WellFormed(t)
    ensures Names(t, g) == {} <==> Leaf(t, g)
  {
    if !Leaf(t, g) {
      var q :| q in t && g < q;
      NameOnPath(t, g, q);
    }
  }

  lemma RemoveLeaf(t: Tree, p: Path)
    requires WellFormed(t) && Leaf(t, p) && p != []
    ensures WellFormed(t - {p})
  {
    forall q | q in t - {p} && q != [] ensures Parent(q) in t - {p} {
      assert Parent(q) < q;
    }
  }

  /** Below any entry of a finite tree there is a leaf. */
  lemma {:induction false} LeafBelow(t: Tree, p: Path, rest: set<Path>) returns (leaf: Path)
    requires p in t && forall q :: q in t && p < q ==> q in rest
    ensures leaf in t && p <= leaf && Leaf(t, leaf)
    decreases |rest|
  {
    if Leaf(t, p) {
      leaf := p;
    } else {
      var q :| q in t && p < q;
      leaf := LeafBelow(t, q, rest - {q});
    }
  }

  // ---- symbolic links -------------------------------------------------------------------------------------

  /** Resolve the components `todo` from the directory `at`, following at most `hops` links. */
  function Walk(t: Tree, at: Path, todo: Path, hops: nat): Option<Path>
    decreases hops, |todo|
  {
    if todo == [] then Some(at)
    else if at !in t || !t[at].Dir? then None
    else if todo[0] == ".." then Walk(t, Parent(at), todo[1..], hops)
    else
      var p := at + [todo[0]];
      if p !in t then None
      else if !t[p].Link? then Walk(t, p, todo[1..], hops)
      else if hops == 0 then None
      else Walk(t, if t[p].target.absolute then [] else at, t[p].target.parts + todo[1..], hops - 1)
  }

  /** The entries that resolution looks at. */
  function Visits(t: Tree, at: Path, todo: Path, hops: nat): set<Path>
    decreases hops, |todo|
  {
    if todo == [] then {}
    else if at !in t || !t[at].Dir? then {at}
    else if todo[0] == ".." then {at} + Visits(t, Parent(at), todo[1..], hops)
    else
      var p := at + [todo[0]];
      {at, p} +
      if p !in t then {}
      else if !t[p].Link? then Visits(t, p, todo[1..], hops)
      else if hops == 0 then {}
      else Visits(t, if t[p].target.absolute then [] else at, t[p].target.parts + todo[1..], hops - 1)
  }

  /** Resolution depends only on the entries it looks at. */
  lemma {:induction false} WalkStable(t: Tree, t': Tree, at: Path, todo: Path, hops: nat)
    requires forall q :: q in Visits(t, at, todo, hops) ==> (q in t <==> q in t') && (q in t ==> t'[q] == t[q])
    ensures Walk(t', at, todo, hops) == Walk(t, at, todo, hops)
    decreases hops, |todo|
  {
    if todo != [] && at in t && t[at].Dir? {
      if todo[0] == ".." {
        WalkStable(t, t', Parent(at), todo[1..], hops);
      } else {
        var p := at + [todo[0]];
        if p in t && !t[p].Link? {
          WalkStable(t, t', p, todo[1..], hops);
        } else if p in t && hops > 0 {
          WalkStable(t, t', if t[p].target.absolute then [] else at, t[p].target.parts + todo[1..], hops - 1);
        }
      }
    }
  }

  /** The first tree is the second with some entries missing. */
  predicate PartOf(t': Tree, t: Tree) {
    forall p :: p in t' ==> p in t && t'[p] == t[p]
  }

  /** Taking entries away cannot make a path resolve, or resolve differently. */
  lemma {:induction false} WalkPart(t': Tree, t: Tree, at: Path, todo: Path, hops: nat)
    requires PartOf(t', t) && Walk(t', at, todo, hops).Some?
    ensures Walk(t, at, todo, hops) == Walk(t', at, todo, hops)
    decreases hops, |todo|
  {
    if todo != [] {
      if todo[0] == ".." {
        WalkPart(t', t, Parent(at), todo[1..], hops);
      } else {
        var p := at + [todo[0]];
        if !t'[p].Link? {
          WalkPart(t', t, p, todo[1..], hops);
        } else {
          WalkPart(t', t, if t'[p].target.absolute then [] else at, t'[p].target.parts + todo[1..], hops - 1);
        }
      }
    }
  }

  /** Resolution that looks at a link fails once the link is gone. */
  lemma {:induction false} WalkBroken(t: Tree, t': Tree, link: Path, at: Path, todo: Path, hops: nat)
    requires Rooted(t) && at in t && !t[at].Link? && link in t && t[link].Link?
    requires link !in t' && forall p :: p in t && p != link ==> p in t' && t'[p] == t[p]
    requires forall p :: p in t' ==> p in t
    requires link in Visits(t, at, todo, hops)
    ensures Walk(t', at, todo, hops).None?
    decreases hops, |todo|
  {
    assert t[at].Dir? && at in t';
    if todo[0] == ".." {
      assert at != [] ==> Parent(at) in t && t[Parent(at)].Dir?;
      WalkBroken(t, t', link, Parent(at), todo[1..], hops);
    } else {
      var p := at + [todo[0]];
      assert p in t;
      if p == link {
      } else if t[p].Link? {
        WalkBroken(t, t', link, if t[p].target.absolute then [] else at, t[p].target.parts + todo[1..], hops - 1);
      } else {
        WalkBroken(t, t', link, p, todo[1..], hops);
      }
    }
  }

  /** A path below real directories resolves to itself, or to nothing when it is absent. */
  lemma {:induction false} WalkPlain(t: Tree, p: Path, k: nat, hops: nat)
    requires WellFormed(t) && k <= |p| && ".." !in p && p[..k] in t && (k < |p| ==> t[p[..k]].Dir?)
    requires p in t ==> !t[p].Link?
    requires forall i :: 0 <= i < |p| && p[..i] in t ==> !t[p[..i]].Link?
    ensures Walk(t, p[..k], p[k..], hops) == if p in t then Some(p) else None
    decreases |p| - k
  {
    if k == |p| {
      assert p[..k] == p;
    } else {
      var next := p[..k + 1];
      assert next == p[..k] + [p[k..][0]] && p[k..][1..] == p[k + 1..];
      assert p[k] in p;
      if p in t { PrefixPresent(t, next, p); }
      if next in t && (k + 1 == |p| || t[next].Dir?) {
        assert k + 1 == |p| ==> next == p;
        WalkPlain(t, p, k + 1, hops);
      } else if next in t {
        assert Walk(t, next, p[k + 1..], hops).None?;
      }
    }
  }

  /** Resolution descends through real directories. */
  lemma {:induction false} WalkDown(t: Tree, p: Path, k: nat, rest: Path, hops: nat)
    requires k <= |p| && ".." !in p && forall i :: 0 <= i <= |p| ==> p[..i] in t && t[p[..i]].Dir?
    ensures Walk(t, p[..k], p[k..] + rest, hops) == Walk(t, p, rest, hops)
    ensures Visits(t, p, rest, hops) <= Visits(t, p[..k], p[k..] + rest, hops)
    decreases |p| - k
  {
    if k == |p| {
      assert p[..k] == p && p[k..] + rest == rest;
    } else {
      var todo := p[k..] + rest;
      assert p[k] in p && todo[0] == p[k];
      assert p[..k] + [todo[0]] == p[..k + 1] && todo[1..] == p[k + 1..] + rest;
      WalkDown(t, p, k + 1, rest, hops);
    }
  }

  lemma WalkEntry(t: Tree, at: Path, name: string, hops: nat)
    requires at in t && t[at].Dir? && name != ".." && at + [name] in t
    ensures !t[at + [name]].Link? ==> Walk(t, at, [name], hops) == Some(at + [name])
    ensures t[at + [name]].Link? && !t[at + [name]].target.absolute && hops > 0 ==>
      Walk(t, at, [name], hops) == Walk(t, at, t[at + [name]].target.parts, hops - 1)
    ensures at + [name] in Visits(t, at, [name], hops)
    ensures t[at + [name]].Link? && !t[at + [name]].target.absolute && hops > 0 ==>
      Visits(t, at, t[at + [name]].target.parts, hops - 1) <= Visits(t, at, [name], hops)
  {
    assert [name][1..] == [] && [name][0] == name;
    if t[at + [name]].Link? {
      assert t[at + [name]].target.parts + [] == t[at + [name]].target.parts;
    }
  }
}
