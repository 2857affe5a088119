/** The removal loop itself, operation by operation on a disk that remembers every tree it passed through.
    The recorded trees form a run, so a crash at any point leaves one of them. */
module RemovalLoop {
  import opened Strings
  import opened FileTree
  import opened Uninstall
  import opened Removal
  import opened RemovalRuns
  import opened RemovalSafety

  /** The loop has come to the generations, and `n` is the first one left. */
  predicate AtGeneration(t: Tree, env: Env, n: string) {
    Links(t, env) == {} && Launchers(t, env) == [] && Least(n, Generations(t, env))
  }

  lemma SnocRun(run: seq<Tree>, t: Tree, env: Env)
    requires IsRun(run, env) && Step(run[|run| - 1], t, env)
    ensures IsRun(run + [t], env)
  {
    var run' := run + [t];
    forall k | 0 <= k < |run'| - 1 ensures Step(run'[k], run'[k + 1], env) {
      if k < |run| - 1 { assert Step(run[k], run[k + 1], env); }
    }
  }

  /** What the planner has checked of a generation. A dangling link may stand under the original receipt's
      name while a removal is being resumed. */
  predicate Checked(t: Tree, env: Env, g: Path) {
    && g in t && t[g].Dir? && CheckPath(t, env, g)
    && (Names(t, g) == {} || Sealed(t, env, g)) && (Stray(t, g) ==> !Exists(t, env, g + [RECEIPT]))
  }

  /** What the loop relies on between two items of its plan. */
  predicate Pending(t: Tree, env: Env) {
    && (forall n :: n in Links(t, env) ==> Root(env) + [n] in t && t[Root(env) + [n]].Link?)
    && (forall p :: p in Launchers(t, env) ==> p in t && t[p].File?)
    && (forall n :: n in Generations(t, env) ==> Checked(t, env, Root(env) + [n]))
  }

  /** The loop has come from `t0` to `t`, with `plan` left to do. */
  ghost predicate Left(t0: Tree, t: Tree, env: Env, plan: seq<Path>) {
    Pending(t, env) && Lists(t, env, plan) && PartOf(t, t0) && (NoStray(t, env) <==> NoStray(t0, env))
  }

  lemma LeftNow(t0: Tree, t: Tree, env: Env, plan: seq<Path>)
    requires Pending(t, env) && Lists(t, env, plan) && PartOf(t, t0) && (NoStray(t, env) <==> NoStray(t0, env))
    ensures Left(t0, t, env, plan)
  {
  }

  lemma LeftAgain(t0: Tree, t: Tree, t': Tree, env: Env, plan: seq<Path>, plan': seq<Path>)
    requires Left(t0, t, env, plan) && Left(t, t', env, plan')
    ensures Left(t0, t', env, plan')
  {
  }

  lemma AcceptedGeneration(t: Tree, env: Env, n: string)
    requires Base(t, env) && Accepts(t, env) && n in Generations(t, env)
    ensures Checked(t, env, Root(env) + [n])
  {
    var g := Root(env) + [n];
    NamesAt(t, Root(env), n);
    if n in STATE_NAMES || n in LINK_NAMES { FixedNames(n); }
    assert ChildOk(t, env, n);
    assert g[..|g|] == g;
    FollowPlain(t, env, g);
    NamesAt(t, g, REMOVAL);
  }

  lemma AcceptedIsPending(t: Tree, env: Env)
    requires Base(t, env) && Accepts(t, env)
    ensures Pending(t, env)
  {
    forall n | n in Links(t, env) ensures Root(env) + [n] in t && t[Root(env) + [n]].Link? { AcceptedLink(t, env, n); }
    forall n | n in Generations(t, env) ensures Checked(t, env, Root(env) + [n]) { AcceptedGeneration(t, env, n); }
  }

  lemma CheckedElsewhere(t: Tree, t': Tree, env: Env, at: Path, g: Path)
    requires Elsewhere(t, t', at) && Apart(at, g) && PartOf(t', t) && Checked(t, env, g)
    ensures Checked(t', env, g) && Stray(t', g) == Stray(t, g)
  {
    ElsewhereBelow(t, t', at, g);
    SameNames(t, t', g);
    CheckElsewhere(t, t', env, g, g);
    assert g[..|g|] == g;
    if Names(t, g) != {} {
      CheckElsewhere(t, t', env, g, ReceiptOf(t, g));
      SealedElsewhere(t, t', env, g);
    }
    if Exists(t', env, g + [RECEIPT]) { WalkPart(t', t, [], g + [RECEIPT], env.hops); }
  }

  lemma PartNames(t: Tree, t': Tree, env: Env, n: string)
    requires PartOf(t', t) && n in Names(t', Root(env))
    ensures n in Names(t, Root(env)) && Root(env) + [n] in t'
  {
    NamesAt(t', Root(env), n);
    NamesAt(t, Root(env), n);
  }

  /** Once an item is gone the rest is as pending as before. */
  lemma PendingElsewhere(t: Tree, t': Tree, env: Env, at: Path)
    requires Elsewhere(t, t', at) && PartOf(t', t) && Pending(t, env)
    requires forall n :: n in Generations(t', env) ==> Apart(at, Root(env) + [n])
    ensures Pending(t', env)
    ensures forall n :: n in Generations(t', env) ==>
      n in Generations(t, env) && Stray(t', Root(env) + [n]) == Stray(t, Root(env) + [n])
  {
    forall n | n in Links(t', env) ensures Root(env) + [n] in t' && t'[Root(env) + [n]].Link? {
      PartNames(t, t', env, n);
      assert n in Links(t, env);
    }
    forall p | p in Launchers(t', env) ensures p in t' && t'[p].File? {
      assert p in Launchers(t, env);
    }
    forall n | n in Generations(t', env)
      ensures Checked(t', env, Root(env) + [n]) && n in Generations(t, env)
      ensures Stray(t', Root(env) + [n]) == Stray(t, Root(env) + [n])
    {
      PartNames(t, t', env, n);
      CheckedElsewhere(t, t', env, at, Root(env) + [n]);
    }
  }

  /** The loop works on the first generation, whose original receipt does not resolve or no longer does. */
  predicate Begun(t: Tree, env: Env, n: string) {
    var g := Root(env) + [n];
    && AtGeneration(t, env, n) && g in t && t[g].Dir? && !Exists(t, env, g + [RECEIPT])
    && (g + [REMOVAL] in t ==> t[g + [REMOVAL]].File?)
  }

  lemma BegunStep(t: Tree, env: Env, n: string, q: Path)
    requires EnvOk(env) && Begun(t, env, n) && Root(env) + [n] < q
    ensures Begun(t - {q}, env, n)
  {
    var g, t' := Root(env) + [n], t - {q};
    if n in LINK_NAMES { FixedNames(n); }
    GenerationStepNames(t, t', env, n);
    if Exists(t', env, g + [RECEIPT]) { WalkPart(t', t, [], g + [RECEIPT], env.hops); }
  }

  /** The tree with everything at and below `at` gone. */
  function Without(t: Tree, at: Path): Tree { map p | p in t && !(at <= p) :: t[p] }

  lemma WithoutGone(t: Tree, at: Path)
    requires WellFormed(t) && at !in t
    ensures Without(t, at) == t
  {
    forall p | p in t ensures !(at <= p) {
      if at <= p { PrefixPresent(t, at, p); }
    }
  }

  lemma WithoutDeeper(t: Tree, at: Path, q: Path)
    requires at <= q
    ensures Without(t - {q}, at) == Without(t, at)
  {
  }

  lemma DeeperKeepsNames(t: Tree, g: Path, q: Path)
    requires |q| > |g| + 1
    ensures Names(t - {q}, g) == Names(t, g)
  {
    forall n ensures n in Names(t - {q}, g) <==> n in Names(t, g) {
      NamesAt(t, g, n);
      NamesAt(t - {q}, g, n);
    }
  }

  lemma WithoutNames(t: Tree, g: Path, m: string)
    ensures Names(Without(t, g + [m]), g) == Names(t, g) - {m}
  {
    forall n ensures n in Names(Without(t, g + [m]), g) <==> n in Names(t, g) && n != m {
      NamesAt(t, g, n);
      NamesAt(Without(t, g + [m]), g, n);
      assert (g + [n])[|g|] == n && (g + [m])[|g|] == m;
    }
  }

  /** The entries an inventory lists directly in the generation. */
  function Tops(entries: map<Path, Entry>): set<string> { set r | r in entries && |r| == 1 :: r[0] }

  lemma TopsAre(t: Tree, g: Path)
    requires Inventoried(t, g)
    ensures Tops(Inventory(t, g)) == TopNames(t, g)
  {
    forall m ensures m in Tops(Inventory(t, g)) <==> m in TopNames(t, g) {
      NamesAt(t, g, m);
      CoveredPath(t, g, [m]);
      assert [m][0] == m;
      if m in Tops(Inventory(t, g)) {
        var r :| r in Inventory(t, g) && |r| == 1 && r[0] == m;
        assert r == [m];
      }
    }
  }

  lemma SealedInventoried(t: Tree, env: Env, g: Path)
    requires WellFormed(t) && (Names(t, g) == {} || Sealed(t, env, g))
    ensures Inventoried(t, g)
  {
    if Names(t, g) == {} {
      NoNames(t, g);
      forall r ensures r !in Covered(t, g) {
        CoveredPath(t, g, r);
        assert r != [] ==> g < g + r;
      }
    }
  }

  lemma WithoutLeaf(t: Tree, p: Path)
    requires Leaf(t, p)
    ensures Without(t, p) == t - {p}
  {
    forall q | q in t ensures p <= q <==> q == p {
      assert !(p < q);
    }
  }

  /** Removing one entry of a generation leaves the rest of the tree and the other entries. */
  lemma WithoutEntry(t: Tree, g: Path, m: string)
    ensures Without(Without(t, g + [m]), g) == Without(t, g)
    ensures TopNames(Without(t, g + [m]), g) == TopNames(t, g) - {m}
    ensures forall n :: n != m ==> (g + [n] in Without(t, g + [m]) <==> g + [n] in t)
    ensures forall n :: n != m && g + [n] in t ==> Without(t, g + [m])[g + [n]] == t[g + [n]]
  {
    WithoutNames(t, g, m);
    forall n | n != m ensures !(g + [m] <= g + [n]) {
      assert (g + [n])[|g|] == n && (g + [m])[|g|] == m;
    }
    assert g <= g + [m];
  }

  /** Nothing outside the generation changed, and neither receipt of it came or went. */
  predicate OnlyEntriesGone(t: Tree, t': Tree, g: Path) {
    && Without(t', g) == Without(t, g)
    && (g + [RECEIPT] in t' <==> g + [RECEIPT] in t) && (g + [REMOVAL] in t' <==> g + [REMOVAL] in t)
  }

  /** `names` are the entries left, by name, each as the inventory has it. */
  ghost predicate EntriesLeft(t: Tree, g: Path, names: seq<string>, entries: map<Path, Entry>) {
    && SortedListing(names, TopNames(t, g))
    && forall m :: m in names ==> g + [m] in t && [m] in entries && Recorded(t[g + [m]]) == Some(entries[[m]])
  }

  lemma EntriesListed(t: Tree, g: Path, names: seq<string>)
    requires Inventoried(t, g) && SortedListing(names, Tops(Inventory(t, g)))
    ensures EntriesLeft(t, g, names, Inventory(t, g))
  {
    TopsAre(t, g);
    forall m | m in names
      ensures g + [m] in t && [m] in Inventory(t, g) && Recorded(t[g + [m]]) == Some(Inventory(t, g)[[m]])
    {
      NamesAt(t, g, m);
      CoveredPath(t, g, [m]);
    }
  }

  lemma NoEntriesLeft(t: Tree, g: Path, entries: map<Path, Entry>)
    requires EntriesLeft(t, g, [], entries)
    ensures TopNames(t, g) == {}
  {
  }

  lemma EntryGone(t: Tree, g: Path, names: seq<string>, entries: map<Path, Entry>)
    requires EntriesLeft(t, g, names, entries) && names != []
    ensures Least(names[0], TopNames(t, g))
    ensures g + [names[0]] in t && [names[0]] in entries && Recorded(t[g + [names[0]]]) == Some(entries[[names[0]]])
    ensures var t' := Without(t, g + [names[0]]);
      EntriesLeft(t', g, names[1..], entries) && OnlyEntriesGone(t, t', g)
  {
    ListingHead(names, TopNames(t, g));
    WithoutEntry(t, g, names[0]);
    TailListing(names, TopNames(t, g));
    var rest := names[1..];
    forall m | m in rest ensures m in names && m != names[0] {
      var k :| 0 <= k < |rest| && rest[k] == m;
      assert names[k + 1] == m;
    }
  }

  /** Renaming the receipt of a checked generation. */
  lemma RenameBegins(t: Tree, t': Tree, env: Env, n: string)
    requires EnvOk(env) && WellFormed(t) && AtGeneration(t, env, n) && Checked(t, env, Root(env) + [n])
    requires Exists(t, env, Root(env) + [n] + [RECEIPT]) && Rename(t, t', Root(env) + [n])
    ensures WellFormed(t') && Begun(t', env, n) && Inventoried(t', Root(env) + [n]) && !Stray(t, Root(env) + [n])
    ensures Root(env) + [n] + [REMOVAL] in t' && Root(env) + [n] + [RECEIPT] !in t'
  {
    var g := Root(env) + [n];
    NamesAt(t, g, RECEIPT);
    RenameProgress(t, t', env, g);
    RenameOutside(t, t', g);
    if n in LINK_NAMES { FixedNames(n); }
    GenerationStepNames(t, t', env, n);
    NamesAt(t', g, REMOVAL);
    assert Parent(g + [RECEIPT]) == g && ".." !in g;
    FollowPlain(t', env, g + [RECEIPT]);
  }

  /** A checked generation whose original receipt does not resolve is one whose removal has begun. */
  lemma AlreadyBegun(t: Tree, env: Env, n: string)
    requires WellFormed(t) && AtGeneration(t, env, n) && Checked(t, env, Root(env) + [n])
    requires !Exists(t, env, Root(env) + [n] + [RECEIPT])
    ensures Begun(t, env, n) && Inventoried(t, Root(env) + [n])
    ensures Stray(t, Root(env) + [n]) <==> Root(env) + [n] + [RECEIPT] in t
  {
    var g := Root(env) + [n];
    SealedInventoried(t, env, g);
    NamesAt(t, g, RECEIPT);
    NamesAt(t, g, REMOVAL);
    assert Parent(g + [RECEIPT]) == g && ".." !in g;
    if g + [RECEIPT] in t && !t[g + [RECEIPT]].Link? { FollowPlain(t, env, g + [RECEIPT]); }
  }

  class Disk {
    const env: Env
    var tree: Tree
    ghost var trace: seq<Tree>

    constructor (env: Env, tree: Tree)
      requires Base(tree, env)
      ensures Valid() && this.env == env && this.tree == tree && trace == [tree]
    {
      this.env, this.tree, this.trace := env, tree, [tree];
    }

    ghost predicate Valid()
      reads this
    {
      EnvOk(env) && WellFormed(tree) && IsRun(trace, env) && trace[|trace| - 1] == tree
    }

    /** Unlink a file or link, or remove an empty directory. */
    method Delete(p: Path)
      requires Valid() && p in tree && p != [] && Leaf(tree, p) && Step(tree, tree - {p}, env)
      modifies this
      ensures Valid() && tree == old(tree) - {p} && trace == old(trace) + [tree]
    {
      SnocRun(trace, tree - {p}, env);
      RemoveLeaf(tree, p);
      tree := tree - {p};
      trace := trace + [tree];
    }

    method RenameReceipt(n: string)
      requires Valid() && AtGeneration(tree, env, n) && Checked(tree, env, Root(env) + [n])
      requires Exists(tree, env, Root(env) + [n] + [RECEIPT])
      modifies this
      ensures Valid() && Rename(old(tree), tree, Root(env) + [n]) && trace == old(trace) + [tree]
      ensures Begun(tree, env, n) && Inventoried(tree, Root(env) + [n]) && !Stray(old(tree), Root(env) + [n])
      ensures Root(env) + [n] + [REMOVAL] in tree && Root(env) + [n] + [RECEIPT] !in tree
    {
      var g := Root(env) + [n];
      ReceiptPresent(tree, env, g);
      var t' := (tree - {g + [RECEIPT]})[g + [REMOVAL] := tree[g + [RECEIPT]]];
      RenameBegins(tree, t', env, n);
      assert InGeneration(tree, t', env, n);
      SnocRun(trace, t', env);
      tree := t';
      trace := trace + [tree];
    }

    /** Delete one leaf at or below the first entry left. */
    method Prune(n: string, m: string, q: Path)
      requires Valid() && Begun(tree, env, n) && Least(m, TopNames(tree, Root(env) + [n]))
      requires q in tree && Root(env) + [n] + [m] <= q && Leaf(tree, q)
      modifies this
      ensures Valid() && tree == old(tree) - {q} && trace == old(trace) + [tree] && Begun(tree, env, n)
    {
      var g := Root(env) + [n];
      assert g < q by { assert g <= g + [m]; }
      assert Removal.Prune(tree, tree - {q}, g);
      assert InGeneration(tree, tree - {q}, env, n);
      BegunStep(tree, env, n, q);
      Delete(q);
    }

    /** Recursive removal of one entry, leaf by leaf in any order. */
    method RemoveTree(n: string, m: string)
      requires Valid() && Begun(tree, env, n) && Least(m, TopNames(tree, Root(env) + [n]))
      modifies this
      ensures Valid() && Begun(tree, env, n) && old(trace) <= trace
      ensures tree == Without(old(tree), Root(env) + [n] + [m])
    {
      var g := Root(env) + [n];
      var target := g + [m];
      while target in tree
        invariant Valid() && Begun(tree, env, n) && old(trace) <= trace
        invariant Without(tree, target) == Without(old(tree), target)
        invariant target in tree ==> Least(m, TopNames(tree, g))
        decreases tree.Keys
      {
        ghost var leaf := LeafBelow(tree, target, tree.Keys);
        var q :| q in tree && target <= q && Leaf(tree, q);
        WithoutDeeper(tree, target, q);
        if q != target { DeeperKeepsNames(tree, g, q); }
        Prune(n, m, q);
      }
      WithoutGone(tree, target);
    }

    /** Remove one entry: a directory recursively, anything else by unlinking. */
    method RemoveEntry(n: string, m: string, entry: Entry)
      requires Valid() && Begun(tree, env, n) && Least(m, TopNames(tree, Root(env) + [n]))
      requires Root(env) + [n] + [m] in tree && Recorded(tree[Root(env) + [n] + [m]]) == Some(entry)
      modifies this
      ensures Valid() && Begun(tree, env, n) && old(trace) <= trace
      ensures tree == Without(old(tree), Root(env) + [n] + [m])
    {
      if entry.DirEntry? {
        RemoveTree(n, m);
      } else {
        var target := Root(env) + [n] + [m];
        ReceiptIsLeaf(tree, target);
        WithoutLeaf(tree, target);
        Prune(n, m, target);
      }
    }

    /** Remove the entries of the inventory, by name. */
    method RemoveListed(n: string, names: seq<string>, entries: map<Path, Entry>)
      requires Valid() && Begun(tree, env, n) && EntriesLeft(tree, Root(env) + [n], names, entries)
      modifies this
      ensures Valid() && Begun(tree, env, n) && old(trace) <= trace
      ensures OnlyEntriesGone(old(tree), tree, Root(env) + [n]) && EntriesLeft(tree, Root(env) + [n], [], entries)
    {
      var i := 0;
      assert names[0..] == names;
      while i < |names|
        invariant 0 <= i <= |names|
        invariant Valid() && Begun(tree, env, n) && old(trace) <= trace
        invariant OnlyEntriesGone(old(tree), tree, Root(env) + [n])
        invariant EntriesLeft(tree, Root(env) + [n], names[i..], entries)
      {
        assert names[i..][0] == names[i] && names[i..][1..] == names[i + 1..];
        EntryGone(tree, Root(env) + [n], names[i..], entries);
        RemoveEntry(n, names[i], entries[[names[i]]]);
        i := i + 1;
      }
      assert names[i..] == [];
    }

    /** Remove every entry but the receipts. */
    method RemoveEntries(n: string)
      requires Valid() && Begun(tree, env, n) && Inventoried(tree, Root(env) + [n])
      modifies this
      ensures Valid() && Begun(tree, env, n) && old(trace) <= trace && TopNames(tree, Root(env) + [n]) == {}
      ensures OnlyEntriesGone(old(tree), tree, Root(env) + [n])
    {
      var g := Root(env) + [n];
      var snapshot := Snapshot(tree, g);
      var names := Sort(Tops(snapshot.value));
      EntriesListed(tree, g, names);
      RemoveListed(n, names, snapshot.value);
      NoEntriesLeft(tree, g, snapshot.value);
    }

    method UnlinkReceipt(n: string)
      requires Valid() && Begun(tree, env, n) && TopNames(tree, Root(env) + [n]) == {}
      requires Root(env) + [n] + [REMOVAL] in tree
      modifies this
      ensures Valid() && Begun(tree, env, n) && old(trace) <= trace
      ensures tree == old(tree) - {Root(env) + [n] + [REMOVAL]} && TopNames(tree, Root(env) + [n]) == {}
    {
      var g := Root(env) + [n];
      ReceiptIsLeaf(tree, g + [REMOVAL]);
      assert InGeneration(tree, tree - {g + [REMOVAL]}, env, n);
      BegunStep(tree, env, n, g + [REMOVAL]);
      Delete(g + [REMOVAL]);
      forall m ensures m !in TopNames(tree, g) {
        NamesAt(old(tree), g, m);
        NamesAt(tree, g, m);
        assert m !in TopNames(old(tree), g);
      }
    }

    /** Removing the directory fails unless it is empty. */
    method RemoveDirectory(n: string) returns (done: bool)
      requires Valid() && Begun(tree, env, n) && TopNames(tree, Root(env) + [n]) == {}
      requires Root(env) + [n] + [REMOVAL] !in tree
      modifies this
      ensures Valid() && old(trace) <= trace && (done <==> Root(env) + [n] + [RECEIPT] !in old(tree))
      ensures tree == if done then Without(old(tree), Root(env) + [n]) else old(tree)
    {
      var g := Root(env) + [n];
      NamesLeft(tree, g);
      if Names(tree, g) == {} {
        NoNames(tree, g);
        WithoutLeaf(tree, g);
        assert InGeneration(tree, tree - {g}, env, n);
        Delete(g);
        return true;
      }
      return false;
    }

    /** Rename the receipt if it still has its original name. */
    method Begin(n: string)
      requires Valid() && AtGeneration(tree, env, n) && Checked(tree, env, Root(env) + [n])
      modifies this
      ensures Valid() && Begun(tree, env, n) && Inventoried(tree, Root(env) + [n]) && old(trace) <= trace
      ensures Root(env) + [n] + [RECEIPT] in tree <==> Stray(old(tree), Root(env) + [n])
      ensures Without(tree, Root(env) + [n]) == Without(old(tree), Root(env) + [n])
    {
      var g := Root(env) + [n];
      if Exists(tree, env, g + [RECEIPT]) {
        RenameReceipt(n);
        RenameOutside(old(tree), tree, g);
      } else {
        AlreadyBegun(tree, env, n);
      }
    }

    /** Unlink the receipt and remove the directory. */
    method End(n: string) returns (done: bool)
      requires Valid() && Begun(tree, env, n) && TopNames(tree, Root(env) + [n]) == {}
      modifies this
      ensures Valid() && old(trace) <= trace && (done <==> Root(env) + [n] + [RECEIPT] !in old(tree))
      ensures done ==> tree == Without(old(tree), Root(env) + [n])
      ensures !done ==> Without(tree, Root(env) + [n]) == Without(old(tree), Root(env) + [n])
    {
      var g := Root(env) + [n];
      FollowRemoval(tree, env, g);
      if Exists(tree, env, g + [REMOVAL]) {
        WithoutDeeper(tree, g, g + [REMOVAL]);
        assert (g + [REMOVAL])[|g|] == REMOVAL && (g + [RECEIPT])[|g|] == RECEIPT;
        UnlinkReceipt(n);
      }
      done := RemoveDirectory(n);
    }

    /** Remove a checked generation, keeping a receipt until everything it lists is gone. It fails, at the
        very end, exactly when something stands under the original receipt's name in a begun removal. */
    method RemoveGeneration(n: string) returns (done: bool)
      requires Valid() && AtGeneration(tree, env, n) && Checked(tree, env, Root(env) + [n])
      modifies this
      ensures Valid() && old(trace) <= trace && (done <==> !Stray(old(tree), Root(env) + [n]))
      ensures done ==> tree == Without(old(tree), Root(env) + [n])
      ensures !done ==> Without(tree, Root(env) + [n]) == Without(old(tree), Root(env) + [n])
    {
      Begin(n);
      RemoveEntries(n);
      done := End(n);
    }

    /** One round of the loop: unlink a link or a launcher, or remove a generation. */
    method RemoveItem(plan: seq<Path>) returns (done: bool)
      requires Valid() && Pending(tree, env) && plan != [] && Lists(tree, env, plan)
      modifies this
      ensures Valid() && old(trace) <= trace
      ensures if done then Left(old(tree), tree, env, plan[1..]) else !NoStray(old(tree), env)
    {
      var path := plan[0];
      HeadPresent(tree, env, plan);
      if tree[path].Link? || tree[path].File? {
        HeadUnlink(tree, env, plan);
        Delete(path);
        done := true;
      } else {
        ghost var n := HeadRemove(tree, env, plan);
        done := RemoveGeneration(path[|path| - 1]);
      }
    }

    /** The removal loop over a checked plan. It finishes exactly when no begun removal holds anything under
        the original receipt's name, and then the planner accepts what is left and lists nothing. It touches
        nothing it did not plan, finished or not, and when the links stand in order and it finishes, the
        planner accepts what is there wherever it is cut off. */
    method RemovePlanned(plan: seq<Path>) returns (done: bool)
      requires Valid() && trace == [tree] && Base(tree, env) && Accepts(tree, env) && Lists(tree, env, plan)
      modifies this
      ensures Valid() && trace[0] == old(tree) && (done <==> NoStray(old(tree), env))
      ensures done ==> Lists(tree, env, []) && Accepts(tree, env)
      ensures done && LinkOrder(old(tree), env) ==> forall k :: 0 <= k < |trace| ==> Accepts(trace[k], env)
      ensures forall p :: !Planned(old(tree), env, p) ==> Untouched(old(tree), tree, p)
    {
      var i := 0;
      done := true;
      AcceptedIsPending(tree, env);
      assert plan[0..] == plan;
      while i < |plan| && done
        invariant 0 <= i <= |plan| && Valid() && trace[0] == old(tree)
        invariant if done then Left(old(tree), tree, env, plan[i..]) else !NoStray(old(tree), env)
      {
        ghost var before := tree;
        assert plan[i..][1..] == plan[i + 1..];
        done := RemoveItem(plan[i..]);
        if done { LeftAgain(old(tree), before, tree, env, plan[i..], plan[i + 1..]); }
        i := i + 1;
      }
      assert i == |plan| ==> plan[i..] == [];
      RemovedPlan(trace, env, done);
    }
  }

  /** What a loop that has come to its end leaves behind. */
  lemma RemovedPlan(trace: seq<Tree>, env: Env, done: bool)
    requires IsRun(trace, env) && Base(trace[0], env) && Accepts(trace[0], env)
    requires if done then Left(trace[0], trace[|trace| - 1], env, []) else !NoStray(trace[0], env)
    ensures done <==> NoStray(trace[0], env)
    ensures done ==> Accepts(trace[|trace| - 1], env)
    ensures done && LinkOrder(trace[0], env) ==> forall k :: 0 <= k < |trace| ==> Accepts(trace[k], env)
    ensures forall p :: !Planned(trace[0], env, p) ==> Untouched(trace[0], trace[|trace| - 1], p)
  {
    if done {
      NothingListed(trace[|trace| - 1], env);
      FinishedIsAccepted(trace[0], trace[|trace| - 1], env);
      if LinkOrder(trace[0], env) {
        forall k | 0 <= k < |trace| ensures Accepts(trace[k], env) { RunsStayReady(trace, env, k); }
      }
    }
    forall p | !Planned(trace[0], env, p) ensures Untouched(trace[0], trace[|trace| - 1], p) {
      NothingElseChanges(trace, env, |trace| - 1, p);
    }
  }

  lemma WithoutElsewhere(t: Tree, at: Path)
    ensures Elsewhere(t, Without(t, at), at) && at !in Without(t, at)
  {
  }

  lemma HeadPresent(t: Tree, env: Env, plan: seq<Path>)
    requires EnvOk(env) && WellFormed(t) && Pending(t, env) && plan != [] && Lists(t, env, plan)
    ensures plan[0] in t
  {
    var n := HeadKind(t, env, plan);
  }

  lemma HeadUnlink(t: Tree, env: Env, plan: seq<Path>)
    requires EnvOk(env) && WellFormed(t) && Pending(t, env) && plan != [] && Lists(t, env, plan)
    requires plan[0] in t && (t[plan[0]].Link? || t[plan[0]].File?)
    ensures plan[0] != [] && Leaf(t, plan[0]) && Step(t, t - {plan[0]}, env) && Left(t, t - {plan[0]}, env, plan[1..])
  {
    var n := HeadKind(t, env, plan);
    ReceiptIsLeaf(t, plan[0]);
  }

  lemma HeadRemove(t: Tree, env: Env, plan: seq<Path>) returns (n: string)
    requires EnvOk(env) && WellFormed(t) && Pending(t, env) && plan != [] && Lists(t, env, plan)
    requires plan[0] in t && !t[plan[0]].Link? && !t[plan[0]].File?
    ensures plan[0] == Root(env) + [n] && AtGeneration(t, env, n) && Checked(t, env, plan[0])
    ensures if Stray(t, plan[0]) then !NoStray(t, env) else Left(t, Without(t, plan[0]), env, plan[1..])
  {
    n := HeadKind(t, env, plan);
    GenerationLeft(t, env, plan, n);
  }

  /** The first item of a plan is a link or launcher, whose deletion leaves the rest pending, or else the
      first generation `n`. */
  lemma HeadKind(t: Tree, env: Env, plan: seq<Path>) returns (n: string)
    requires EnvOk(env) && WellFormed(t) && Pending(t, env) && plan != [] && Lists(t, env, plan)
    ensures plan[0] in t && plan[0] != []
    ensures t[plan[0]].Link? || t[plan[0]].File? ==>
      Step(t, t - {plan[0]}, env) && Left(t, t - {plan[0]}, env, plan[1..])
    ensures !(t[plan[0]].Link? || t[plan[0]].File?) ==>
      AtGeneration(t, env, n) && plan[0] == Root(env) + [n] && n !in LINK_NAMES && Checked(t, env, plan[0])
  {
    n := "";
    if Links(t, env) != {} {
      LinkStepPlan(t, t - {NextLink(t, env)}, env, plan);
      var l := NextLinkName(t, env);
      LinkPending(t, env, l);
      LeftNow(t, t - {plan[0]}, env, plan[1..]);
    } else if Launchers(t, env) != [] {
      var name := if Launcher(env, SECKIT) in t then SECKIT else MCP;
      assert Launchers(t, env)[0] == Launcher(env, name) && Launchers(t, env)[0] in Launchers(t, env);
      LauncherStepPlan(t, t - {Launchers(t, env)[0]}, env, plan);
      LauncherPending(t, env, name);
      LeftNow(t, t - {plan[0]}, env, plan[1..]);
    } else {
      n := HeadGeneration(t, env, plan);
      if n in LINK_NAMES { FixedNames(n); }
    }
  }

  lemma LinkPending(t: Tree, env: Env, l: string)
    requires EnvOk(env) && WellFormed(t) && Pending(t, env) && l in Links(t, env)
    ensures var t' := t - {Root(env) + [l]}; Pending(t', env) && (NoStray(t', env) <==> NoStray(t, env))
  {
    var at := Root(env) + [l];
    FixedNames(l);
    LinkStepNames(t, env, l);
    UnlinkFrame(t, at);
    forall n | n in Generations(t, env) ensures Apart(at, Root(env) + [n]) { Siblings(env, l, n); }
    PendingElsewhere(t, t - {at}, env, at);
  }

  lemma LauncherPending(t: Tree, env: Env, name: string)
    requires EnvOk(env) && WellFormed(t) && Pending(t, env) && UnlinkLauncher(t, t - {Launcher(env, name)}, env)
    requires Launcher(env, name) in Launchers(t, env)
    ensures var t' := t - {Launcher(env, name)}; Pending(t', env) && (NoStray(t', env) <==> NoStray(t, env))
  {
    var at := Launcher(env, name);
    LauncherStepNames(t, t - {at}, env);
    UnlinkFrame(t, at);
    forall n | n in Generations(t, env) ensures Apart(at, Root(env) + [n]) { Places(env, n, name); }
    PendingElsewhere(t, t - {at}, env, at);
  }

  lemma GoneGeneration(t: Tree, env: Env, n: string)
    requires EnvOk(env) && Pending(t, env) && AtGeneration(t, env, n) && n !in LINK_NAMES
    ensures var t' := Without(t, Root(env) + [n]);
      Pending(t', env) && (NoStray(t, env) <==> NoStray(t', env) && !Stray(t, Root(env) + [n]))
  {
    var g := Root(env) + [n];
    var t' := Without(t, g);
    WithoutElsewhere(t, g);
    GenerationStepNames(t, t', env, n);
    forall m | m in Generations(t', env) ensures Apart(g, Root(env) + [m]) { Siblings(env, n, m); }
    PendingElsewhere(t, t', env, g);
  }

  lemma GenerationLeft(t: Tree, env: Env, plan: seq<Path>, n: string)
    requires EnvOk(env) && Pending(t, env) && AtGeneration(t, env, n) && n !in LINK_NAMES
    requires Lists(t, env, plan) && plan != [] && plan[0] == Root(env) + [n]
    ensures if Stray(t, plan[0]) then !NoStray(t, env) else Left(t, Without(t, plan[0]), env, plan[1..])
  {
    WithoutElsewhere(t, plan[0]);
    GenerationStepPlan(t, Without(t, plan[0]), env, plan, n);
    GoneGeneration(t, env, n);
    if !Stray(t, plan[0]) { LeftNow(t, Without(t, plan[0]), env, plan[1..]); }
  }

  lemma NothingListed(t: Tree, env: Env)
    requires Lists(t, env, [])
    ensures Finished(t, env)
  {
    var links, generations := PlanOf(t, env, []);
    assert |Ordered(Root(env), links, Launchers(t, env), generations)| == 0;
    assert forall n :: n in Links(t, env) ==> n in links;
    assert forall n :: n in Generations(t, env) ==> n in generations;
  }

  /** What is left of an accepted installation when nothing is listed any more is accepted. */
  lemma FinishedIsAccepted(t: Tree, t': Tree, env: Env)
    requires Base(t, env) && Accepts(t, env) && PartOf(t', t) && Finished(t', env)
    ensures Accepts(t', env)
  {
    forall n | n in Names(t', Root(env)) ensures ChildOk(t', env, n) {
      NamesAt(t', Root(env), n);
      NamesAt(t, Root(env), n);
      assert ChildOk(t, env, n) && n !in Links(t', env) && n !in Generations(t', env);
    }
    assert Launcher(env, SECKIT) !in t' && Launcher(env, MCP) !in t';
  }

  lemma HeadGeneration(t: Tree, env: Env, plan: seq<Path>) returns (n: string)
    requires Links(t, env) == {} && Launchers(t, env) == [] && plan != [] && Lists(t, env, plan)
    ensures AtGeneration(t, env, n) && plan[0] == Root(env) + [n]
  {
    var links, generations := PlanOf(t, env, plan);
    EmptyListing(links);
    assert generations != [];
    n := generations[0];
    ListingHead(generations, Generations(t, env));
    OrderedGeneration(Root(env), generations);
  }

  lemma ListingHead(xs: seq<string>, names: set<string>)
    requires SortedListing(xs, names) && xs != []
    ensures Least(xs[0], names)
  {
    assert xs[0] in xs;
    forall m | m in names ensures m == xs[0] || Less(xs[0], m) {
      assert m in xs;
      var k :| 0 <= k < |xs| && xs[k] == m;
    }
  }

  lemma RenameOutside(t: Tree, t': Tree, g: Path)
    requires Rename(t, t', g)
    ensures Without(t', g) == Without(t, g) && g + [RECEIPT] !in t'
  {
    assert g <= g + [RECEIPT] && g <= g + [REMOVAL];
    assert (g + [RECEIPT])[|g|] == RECEIPT && (g + [REMOVAL])[|g|] == REMOVAL;
  }

  lemma FollowRemoval(t: Tree, env: Env, g: Path)
    requires WellFormed(t) && g in t && t[g].Dir? && (g + [REMOVAL] in t ==> t[g + [REMOVAL]].File?)
    ensures Exists(t, env, g + [REMOVAL]) <==> g + [REMOVAL] in t
  {
    assert Parent(g + [REMOVAL]) == g && ".." !in g;
    FollowPlain(t, env, g + [REMOVAL]);
  }

  lemma ReceiptPresent(t: Tree, env: Env, g: Path)
    requires WellFormed(t) && g in t && t[g].Dir? && Exists(t, env, g + [RECEIPT])
    ensures g + [RECEIPT] in t
  {
    assert Parent(g + [RECEIPT]) == g && ".." !in g;
    if g + [RECEIPT] !in t { FollowPlain(t, env, g + [RECEIPT]); }
  }

  lemma NamesLeft(t: Tree, g: Path)
    requires TopNames(t, g) == {} && g + [REMOVAL] !in t
    ensures Names(t, g) == {} <==> g + [RECEIPT] !in t
  {
    NamesAt(t, g, RECEIPT);
    NamesAt(t, g, REMOVAL);
    assert forall n :: n in Names(t, g) ==> n in TopNames(t, g) || n == RECEIPT || n == REMOVAL;
  }
}
