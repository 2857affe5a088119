/** Crash-resumable removal as a step relation on file trees.

    One step is one file-system operation of the removal loop. Because each operation is determined by
    what is left, up to the order in which a recursive removal visits a subtree, an attempt that resumes
    after a crash continues with exactly the operations the crashed one would have done. A run therefore
    stands for any number of attempts, each ended by a crash at any point. */
module Removal {
  import opened Strings
  import opened FileTree
  import opened Uninstall

  const CURRENT := "current"
  const PREVIOUS := "previous"

  predicate EnvOk(env: Env) {
    ".." !in env.home && env.home < env.service && env.service[|env.home|] != ".local"
  }

  /** A real home directory; the service definition has been removed before the loop starts. */
  predicate Base(t: Tree, env: Env) {
    WellFormed(t) && EnvOk(env) && env.home in t && t[env.home].Dir? && env.service !in t
  }

  // ---- steps ----------------------------------------------------------------------------------------------

  predicate Least(n: string, names: set<string>) {
    n in names && forall m :: m in names ==> m == n || Less(n, m)
  }

  /** The entries of a generation other than its receipts. */
  function TopNames(t: Tree, g: Path): set<string> { Names(t, g) - {RECEIPT, REMOVAL} }

  function NextLink(t: Tree, env: Env): Path {
    Root(env) + [if CURRENT in Links(t, env) then CURRENT else PREVIOUS]
  }

  predicate UnlinkLink(t: Tree, t': Tree, env: Env) {
    Links(t, env) != {} && t' == t - {NextLink(t, env)}
  }

  predicate UnlinkLauncher(t: Tree, t': Tree, env: Env) {
    Links(t, env) == {} && Launchers(t, env) != [] && t' == t - {Launchers(t, env)[0]}
  }

  /** The receipt is renamed first, which records the intent. */
  predicate Rename(t: Tree, t': Tree, g: Path) {
    g + [RECEIPT] in t && t' == (t - {g + [RECEIPT]})[g + [REMOVAL] := t[g + [RECEIPT]]]
  }

  /** One deletion in the first entry left. */
  ghost predicate Prune(t: Tree, t': Tree, g: Path) {
    exists m, q :: Least(m, TopNames(t, g)) && q in t && g + [m] <= q && Leaf(t, q) && t' == t - {q}
  }

  /** One operation of removing generation `g`: rename the receipt, prune the entries, unlink the receipt,
      remove the directory. */
  ghost predicate GenerationStep(t: Tree, t': Tree, env: Env, g: Path) {
    if Exists(t, env, g + [RECEIPT]) then Rename(t, t', g)
    else if TopNames(t, g) != {} then Prune(t, t', g)
    else if g + [REMOVAL] in t then t' == t - {g + [REMOVAL]}
    else Names(t, g) == {} && t' == t - {g}
  }

  ghost predicate InGeneration(t: Tree, t': Tree, env: Env, n: string) {
    && Links(t, env) == {} && Launchers(t, env) == []
    && Least(n, Generations(t, env)) && GenerationStep(t, t', env, Root(env) + [n])
  }

  ghost predicate Step(t: Tree, t': Tree, env: Env) {
    UnlinkLink(t, t', env) || UnlinkLauncher(t, t', env) || exists n :: InGeneration(t, t', env, n)
  }

  ghost predicate IsRun(run: seq<Tree>, env: Env) {
    run != [] && forall k :: 0 <= k < |run| - 1 ==> Step(run[k], run[k + 1], env)
  }

  // ---- the two conditions under which every crash can be resumed ------------------------------------------

  /** `previous` is not reached through `current`, which is unlinked before it. */
  predicate LinkOrder(t: Tree, env: Env) {
    CURRENT in Links(t, env) && PREVIOUS in Links(t, env) ==>
      Root(env) + [CURRENT] !in Visits(t, [], Root(env) + [PREVIOUS], env.hops)
  }

  /** No generation whose removal has begun holds anything under the name of the original receipt. */
  predicate NoStray(t: Tree, env: Env) {
    forall n :: n in Generations(t, env) ==> !Stray(t, Root(env) + [n])
  }

  predicate Stray(t: Tree, g: Path) { Resuming(t, g) && g + [RECEIPT] in t }

  predicate Ready(t: Tree, env: Env) {
    Base(t, env) && Accepts(t, env) && LinkOrder(t, env) && NoStray(t, env)
  }

  // ---- a form of acceptance without link resolution in generations ----------------------------------------

  predicate Clean(t: Tree, env: Env, g: Path) {
    && g in t && t[g].Dir? && CheckPath(t, env, g)
    && (Names(t, g) == {} || Sealed(t, env, g)) && !Stray(t, g)
  }

  lemma FollowPlain(t: Tree, env: Env, p: Path)
    requires WellFormed(t) && ".." !in p && p != [] && Parent(p) in t && t[Parent(p)].Dir?
    requires p in t ==> !t[p].Link?
    ensures Follow(t, env, p) == if p in t then Some(p) else None
  {
    forall i | 0 <= i < |p| ensures p[..i] in t && t[p[..i]].Dir? {
      PrefixPresent(t, p[..i], Parent(p));
      assert i == |p| - 1 ==> p[..i] == Parent(p);
    }
    WalkPlain(t, p, 0, env.hops);
    assert p[0..] == p;
  }

  lemma CleanIff(t: Tree, env: Env, g: Path)
    requires Base(t, env) && g in t && g != [] && |g| > |env.home|
    ensures GenerationOk(t, env, g) && !Stray(t, g) <==> Clean(t, env, g)
  {
    assert g[..|g|] == g;
    if CheckPath(t, env, g) {
      FollowPlain(t, env, g);
      if t[g].Dir? && Resuming(t, g) && g + [RECEIPT] !in t {
        assert Parent(g + [RECEIPT]) == g;
        FollowPlain(t, env, g + [RECEIPT]);
      }
    }
  }

  // ---- what a change at one place leaves alone ------------------------------------------------------------

  /** The trees agree everywhere but at and below `g0`. */
  predicate Elsewhere(t: Tree, t': Tree, g0: Path) {
    && (forall p :: p in t && !(g0 <= p) ==> p in t' && t'[p] == t[p])
    && (forall p :: p in t' && !(g0 <= p) ==> p in t)
  }

  predicate Apart(g: Path, h: Path) { !(g <= h) && !(h <= g) }

  lemma ApartPaths(g0: Path, g: Path, p: Path)
    requires Apart(g0, g) && (g <= p || p <= g)
    ensures !(g0 <= p)
  {
  }

  lemma ElsewhereBelow(t: Tree, t': Tree, g0: Path, g: Path)
    requires Elsewhere(t, t', g0) && Apart(g0, g)
    ensures SameBelow(t, t', g)
    ensures forall i :: 0 <= i <= |g| ==> (g[..i] in t <==> g[..i] in t') && (g[..i] in t ==> t'[g[..i]] == t[g[..i]])
  {
    forall p | p in t && g <= p ensures !(g0 <= p) { ApartPaths(g0, g, p); }
    forall p | p in t' && g <= p ensures !(g0 <= p) { ApartPaths(g0, g, p); }
    forall i | 0 <= i <= |g| ensures !(g0 <= g[..i]) { ApartPaths(g0, g, g[..i]); }
  }

  lemma SameNames(t: Tree, t': Tree, g: Path)
    requires SameBelow(t, t', g)
    ensures Names(t', g) == Names(t, g) && Covered(t', g) == Covered(t, g) && ReceiptOf(t', g) == ReceiptOf(t, g)
    ensures Resuming(t', g) == Resuming(t, g) && Stray(t', g) == Stray(t, g)
  {
    assert g <= g + [REMOVAL] && g <= g + [RECEIPT];
    forall n ensures n in Names(t', g) <==> n in Names(t, g) {
      NamesAt(t, g, n);
      NamesAt(t', g, n);
      assert g <= g + [n];
    }
    forall r ensures r in Covered(t', g) <==> r in Covered(t, g) {
      CoveredPath(t, g, r);
      CoveredPath(t', g, r);
      assert g <= g + r;
    }
  }

  lemma CheckElsewhere(t: Tree, t': Tree, env: Env, g: Path, p: Path)
    requires SameBelow(t, t', g) && g <= p
    requires forall i :: 0 <= i <= |g| ==> (g[..i] in t <==> g[..i] in t') && (g[..i] in t ==> t'[g[..i]] == t[g[..i]])
    ensures CheckPath(t', env, p) == CheckPath(t, env, p)
  {
    forall i | 0 <= i <= |p|
      ensures (p[..i] in t <==> p[..i] in t') && (p[..i] in t ==> t'[p[..i]] == t[p[..i]])
    {
      if i <= |g| { assert p[..i] == g[..i]; } else { assert g <= p[..i]; }
    }
  }

  lemma SealedElsewhere(t: Tree, t': Tree, env: Env, g: Path)
    requires SameBelow(t, t', g) && Sealed(t, env, g) && CheckPath(t', env, ReceiptOf(t, g))
    ensures Sealed(t', env, g)
  {
    SameNames(t, t', g);
    var r := ReceiptOf(t, g);
    assert g <= r;
    assert ReceiptFile(t', env, r);
    forall q | q in Covered(t', g) ensures g + q in t' && t'[g + q] == t[g + q] {
      assert g <= g + q;
    }
    assert Inventoried(t', g);
    assert Inventory(t', g) == Inventory(t, g);
  }

  lemma CleanElsewhere(t: Tree, t': Tree, env: Env, g0: Path, g: Path)
    requires Elsewhere(t, t', g0) && Apart(g0, g) && Clean(t, env, g)
    ensures Clean(t', env, g)
  {
    ElsewhereBelow(t, t', g0, g);
    SameNames(t, t', g);
    CheckElsewhere(t, t', env, g, g);
    if Names(t, g) != {} {
      CheckElsewhere(t, t', env, g, ReceiptOf(t, g));
      SealedElsewhere(t, t', env, g);
    }
  }

  // ---- one generation through its removal -----------------------------------------------------------------

  /** A generation with entries but no original receipt is one whose removal has begun. */
  lemma BegunGeneration(t: Tree, env: Env, g: Path)
    requires Clean(t, env, g) && Names(t, g) != {} && g + [RECEIPT] !in t
    ensures Resuming(t, g) && Sealed(t, env, g)
  {
  }

  lemma ReceiptPrefixes(t: Tree, t': Tree, env: Env, g: Path, name: string)
    requires CheckPath(t', env, g) && (g + [name] in t' ==> Safe(t'[g + [name]]))
    ensures CheckPath(t', env, g + [name])
  {
    var p := g + [name];
    forall i | |env.home| < i <= |p| && p[..i] in t' ensures Safe(t'[p[..i]]) {
      if i <= |g| { assert p[..i] == g[..i]; } else { assert p[..i] == p; }
    }
  }

  lemma RenameKeepsClean(t: Tree, t': Tree, env: Env, g: Path)
    requires Clean(t, env, g) && Rename(t, t', g) && |g| > |env.home|
    ensures Clean(t', env, g)
  {
    var orig, recv := g + [RECEIPT], g + [REMOVAL];
    assert orig[|g|] == RECEIPT && recv[|g|] == REMOVAL;
    NamesAt(t, g, RECEIPT);
    NamesAt(t', g, REMOVAL);
    assert orig[..|orig|] == orig;
    assert Safe(t[orig]);
    forall i | 0 <= i <= |g| ensures g[..i] != orig && g[..i] != recv {}
    ReceiptPrefixes(t, t', env, g, REMOVAL);
    forall r ensures r in Covered(t', g) <==> r in Covered(t, g) {
      CoveredPath(t, g, r);
      CoveredPath(t', g, r);
      assert (g + r)[|g|..] == r && orig[|g|..] == [RECEIPT] && recv[|g|..] == [REMOVAL];
    }
    assert Covered(t', g) == Covered(t, g);
    forall r | r in Covered(t', g) ensures g + r in t' && t'[g + r] == t[g + r] {
      CoveredPath(t, g, r);
      assert (g + r)[|g|..] == r && orig[|g|..] == [RECEIPT] && recv[|g|..] == [REMOVAL];
    }
    assert Inventoried(t', g);
    assert Inventory(t', g) == Inventory(t, g);
  }

  lemma PruneKeepsClean(t: Tree, env: Env, g: Path, q: Path)
    requires Clean(t, env, g) && Resuming(t, g) && g < q && q != g + [REMOVAL] && q in t && |g| > |env.home|
    ensures Clean(t - {q}, env, g)
  {
    var t', recv := t - {q}, g + [REMOVAL];
    NamesAt(t', g, REMOVAL);
    NamesAt(t, g, REMOVAL);
    assert recv[..|recv|] == recv && CheckPath(t, env, recv);
    assert Safe(t[recv]);
    ReceiptPrefixes(t, t', env, g, REMOVAL);
    forall r | r in Covered(t', g) ensures g + r in t' && r in Covered(t, g) && t'[g + r] == t[g + r] {
      CoveredPath(t, g, r);
      CoveredPath(t', g, r);
    }
    assert Inventoried(t', g);
  }

  lemma UnsealLeavesEmpty(t: Tree, env: Env, g: Path)
    requires Clean(t, env, g) && TopNames(t, g) == {} && Resuming(t, g)
    ensures Clean(t - {g + [REMOVAL]}, env, g) && Names(t - {g + [REMOVAL]}, g) == {}
  {
    var t' := t - {g + [REMOVAL]};
    forall n ensures n !in Names(t', g) {
      NamesAt(t, g, n);
      NamesAt(t', g, n);
      assert n !in TopNames(t, g);
    }
  }

  lemma RenameKeepsTree(t: Tree, t': Tree, g: Path)
    requires WellFormed(t) && Rename(t, t', g) && g in t && t[g].Dir? && t[g + [RECEIPT]].File? && g + [REMOVAL] !in t
    ensures WellFormed(t')
  {
    var orig, recv := g + [RECEIPT], g + [REMOVAL];
    forall q | q in t && q != [] ensures Parent(q) != orig {
      assert Parent(q) in t && t[Parent(q)].Dir?;
    }
    forall q | q in t' && q != [] ensures Parent(q) in t' && t'[Parent(q)].Dir? {
      if q == recv {
        assert Parent(q) == g && g != orig && g != recv;
      } else {
        assert q in t && Parent(q) in t;
        assert Parent(q) != orig;
      }
    }
    forall q | q in t' ensures ".." !in q {
      if q == recv { assert g in t && ".." !in g; }
    }
  }

  /** What one operation does to the generation it works on. */
  ghost predicate Progress(t: Tree, t': Tree, env: Env, g: Path) {
    WellFormed(t') && Elsewhere(t, t', g) && (g in t' ==> Clean(t', env, g))
  }

  lemma PruneProgress(t: Tree, t': Tree, env: Env, g: Path)
    requires WellFormed(t) && Clean(t, env, g) && |g| > |env.home| && g + [RECEIPT] !in t
    requires TopNames(t, g) != {} && Prune(t, t', g)
    ensures Progress(t, t', env, g)
  {
    BegunGeneration(t, env, g);
    var m, q :| Least(m, TopNames(t, g)) && q in t && g + [m] <= q && Leaf(t, q) && t' == t - {q};
    assert q[|g|] == m && (g + [REMOVAL])[|g|] == REMOVAL;
    RemoveLeaf(t, q);
    PruneKeepsClean(t, env, g, q);
  }

  lemma UnsealProgress(t: Tree, env: Env, g: Path)
    requires WellFormed(t) && Clean(t, env, g) && TopNames(t, g) == {} && Resuming(t, g)
    ensures Progress(t, t - {g + [REMOVAL]}, env, g)
  {
    NamesAt(t, g, REMOVAL);
    UnsealLeavesEmpty(t, env, g);
    ReceiptIsLeaf(t, g + [REMOVAL]);
    RemoveLeaf(t, g + [REMOVAL]);
    assert g <= g + [REMOVAL];
  }

  lemma RenameProgress(t: Tree, t': Tree, env: Env, g: Path)
    requires WellFormed(t) && Clean(t, env, g) && |g| > |env.home| && Rename(t, t', g)
    ensures Progress(t, t', env, g)
  {
    NamesAt(t, g, RECEIPT);
    assert g <= g + [RECEIPT] && g <= g + [REMOVAL];
    RenameKeepsClean(t, t', env, g);
    RenameKeepsTree(t, t', g);
  }

  lemma GenerationProgress(t: Tree, t': Tree, env: Env, g: Path)
    requires Base(t, env) && Clean(t, env, g) && |g| > |env.home| && GenerationStep(t, t', env, g)
    ensures Progress(t, t', env, g)
  {
    var orig := g + [RECEIPT];
    OriginalExists(t, env, g);
    if orig in t {
      RenameProgress(t, t', env, g);
    } else if TopNames(t, g) != {} {
      PruneProgress(t, t', env, g);
    } else if Resuming(t, g) {
      UnsealProgress(t, env, g);
    } else {
      NoNames(t, g);
      RemoveLeaf(t, g);
    }
  }

  /** In a clean generation the original receipt is a plain file or absent. */
  lemma OriginalExists(t: Tree, env: Env, g: Path)
    requires WellFormed(t) && Clean(t, env, g)
    ensures Exists(t, env, g + [RECEIPT]) <==> g + [RECEIPT] in t
  {
    NamesAt(t, g, RECEIPT);
    assert Parent(g + [RECEIPT]) == g && ".." !in g;
    FollowPlain(t, env, g + [RECEIPT]);
  }

  lemma ReceiptIsLeaf(t: Tree, p: Path)
    requires WellFormed(t) && p in t && !t[p].Dir?
    ensures Leaf(t, p)
  {
    forall q | q in t ensures !(p < q) {
      if p < q { PrefixPresent(t, p, q); }
    }
  }

  // ---- the whole tree through one step --------------------------------------------------------------------

  predicate ChildClean(t: Tree, env: Env, n: string) {
    var p := Root(env) + [n];
    if n in STATE_NAMES then StateOk(t, env, n)
    else if n in LINK_NAMES then p in t && t[p].Link? && LinkOk(t, env, p)
    else GenerationName(n) && Clean(t, env, p)
  }

  predicate ChildrenClean(t: Tree, env: Env) {
    forall n :: n in Names(t, Root(env)) ==> ChildClean(t, env, n)
  }

  predicate PathsOk(t: Tree, env: Env) {
    && CheckPath(t, env, Root(env)) && (Root(env) in t ==> t[Root(env)].Dir?)
    && CheckPath(t, env, env.service)
  }

  predicate LaunchersOk(t: Tree, env: Env) { LauncherOk(t, env, SECKIT) && LauncherOk(t, env, MCP) }

  predicate Tidy(t: Tree, env: Env) {
    Base(t, env) && PathsOk(t, env) && ChildrenClean(t, env) && LaunchersOk(t, env) && LinkOrder(t, env)
  }

  lemma ChildCleanIff(t: Tree, env: Env, n: string)
    requires Base(t, env) && n in Names(t, Root(env))
    ensures ChildOk(t, env, n) && (n in Generations(t, env) ==> !Stray(t, Root(env) + [n])) <==> ChildClean(t, env, n)
  {
    NamesAt(t, Root(env), n);
    if n in STATE_NAMES || n in LINK_NAMES {
      FixedNames(n);
    } else {
      CleanIff(t, env, Root(env) + [n]);
    }
  }

  lemma TidyIff(t: Tree, env: Env)
    ensures Ready(t, env) <==> Tidy(t, env)
  {
    if Base(t, env) {
      forall n | n in Names(t, Root(env))
        ensures ChildOk(t, env, n) && (n in Generations(t, env) ==> !Stray(t, Root(env) + [n])) <==>
          ChildClean(t, env, n)
      {
        ChildCleanIff(t, env, n);
      }
    }
  }

  lemma NamesElsewhere(t: Tree, t': Tree, env: Env, at: Path, n: string)
    requires Elsewhere(t, t', at) && Apart(at, Root(env) + [n])
    ensures n in Names(t', Root(env)) <==> n in Names(t, Root(env))
  {
    NamesAt(t, Root(env), n);
    NamesAt(t', Root(env), n);
  }

  lemma ChildElsewhere(t: Tree, t': Tree, env: Env, at: Path, n: string)
    requires Elsewhere(t, t', at) && Apart(at, Root(env) + [n]) && ChildClean(t, env, n) && n !in LINK_NAMES
    ensures ChildClean(t', env, n)
  {
    var p := Root(env) + [n];
    ElsewhereBelow(t, t', at, p);
    CheckElsewhere(t, t', env, p, p);
    if n !in STATE_NAMES { CleanElsewhere(t, t', env, at, p); }
  }

  lemma ReceiptElsewhere(t: Tree, t': Tree, env: Env, at: Path, n: string)
    requires Elsewhere(t, t', at) && Apart(at, Root(env) + [n])
    ensures var g := Root(env) + [n];
      && ReceiptOf(t', g) == ReceiptOf(t, g)
      && (ReceiptFile(t', env, ReceiptOf(t, g)) <==> ReceiptFile(t, env, ReceiptOf(t, g)))
      && (ReceiptOf(t, g) in t ==> ReceiptOf(t, g) in t' && t'[ReceiptOf(t, g)] == t[ReceiptOf(t, g)])
  {
    var g := Root(env) + [n];
    ElsewhereBelow(t, t', at, g);
    SameNames(t, t', g);
    assert g <= ReceiptOf(t, g);
    CheckElsewhere(t, t', env, g, ReceiptOf(t, g));
  }

  /** Removing a link or a launcher leaves the digests vouched for. */
  lemma VouchedElsewhere(t: Tree, t': Tree, env: Env, at: Path, name: string)
    requires Elsewhere(t, t', at) && Generations(t', env) == Generations(t, env)
    requires forall n :: n in Generations(t, env) ==> Apart(at, Root(env) + [n])
    ensures Vouched(t', env, name) == Vouched(t, env, name)
  {
    forall n | n in Generations(t, env)
      ensures var g := Root(env) + [n];
        && ReceiptOf(t', g) == ReceiptOf(t, g)
        && (ReceiptFile(t', env, ReceiptOf(t, g)) <==> ReceiptFile(t, env, ReceiptOf(t, g)))
        && (ReceiptOf(t, g) in t ==> ReceiptOf(t, g) in t' && t'[ReceiptOf(t, g)] == t[ReceiptOf(t, g)])
    {
      ReceiptElsewhere(t, t', env, at, n);
    }
  }

  lemma Siblings(env: Env, n: string, m: string)
    requires n != m
    ensures Apart(Root(env) + [n], Root(env) + [m])
  {
    var p, q := Root(env) + [n], Root(env) + [m];
    assert p[|Root(env)|] == n && q[|Root(env)|] == m;
  }

  /** Launchers, the service definition and the runtime directory lie apart. */
  lemma Places(env: Env, n: string, name: string)
    requires EnvOk(env)
    ensures Apart(Root(env) + [n], Launcher(env, name)) && Apart(Root(env) + [n], env.service)
    ensures Apart(Launcher(env, name), env.service) && Apart(Launcher(env, name), Root(env))
  {
    var k := |env.home|;
    var p, q := Root(env) + [n], Launcher(env, name);
    assert p[k] == ".local" && p[k + 1] == "share" && Root(env)[k + 1] == "share";
    assert q[k] == ".local" && q[k + 1] == "bin";
  }
}
