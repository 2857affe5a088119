/** Under any home directory, two installations that the planner accepts although their removal cannot be
    resumed after every crash. */
module RemovalExamples {
  import opened Strings
  import opened FileTree
  import opened Uninstall
  import opened Removal
  import opened RemovalSafety

  const GENERATION := "runtime-1-1"
  const FOLDER := Dir(true, 448) // 0o700

  lemma IsGenerationName()
    ensures GenerationName(GENERATION)
  {
    assert GENERATION[9] == '-' && GENERATION[..8] == "runtime-" && GENERATION[8..9] == "1" && GENERATION[10..] == "1";
  }

  /** Private directories down to `p`. */
  function Folders(p: Path): Tree {
    if p == [] then map[[] := FOLDER] else Folders(Parent(p))[p := FOLDER]
  }

  lemma {:induction false} FoldersAt(p: Path, q: Path)
    ensures q in Folders(p) <==> q <= p
    ensures q <= p ==> Folders(p)[q] == FOLDER
  {
    if p != [] {
      FoldersAt(Parent(p), q);
      assert q <= p <==> q <= Parent(p) || q == p;
    }
  }

  lemma FoldersWellFormed(p: Path)
    requires ".." !in p
    ensures WellFormed(Folders(p))
  {
    FoldersAt(p, []);
    forall q | q in Folders(p) ensures q <= p { FoldersAt(p, q); }
    forall q | q in Folders(p) && q != [] ensures Parent(q) in Folders(p) && Folders(p)[Parent(q)].Dir? {
      FoldersAt(p, Parent(q));
    }
  }

  lemma AddLeaf(t: Tree, p: Path, node: Node)
    requires WellFormed(t) && p !in t && p != [] && ".." !in p && Parent(p) in t && t[Parent(p)].Dir?
    ensures WellFormed(t[p := node])
  {
    forall q | q in t && q != [] ensures Parent(q) in t {}
  }

  // ---- links in the wrong order ---------------------------------------------------------------------------

  /** `previous` is a link to `current`, and `current` one to an emptied generation. */
  function Reversed(env: Env): Tree {
    Folders(Root(env) + [GENERATION])[Root(env) + [CURRENT] := Link(true, Target(false, [GENERATION]))][
      Root(env) + [PREVIOUS] := Link(true, Target(false, [CURRENT]))]
  }

  lemma ReversedAt(env: Env, p: Path)
    ensures p in Reversed(env) <==>
      p <= Root(env) + [GENERATION] || p == Root(env) + [CURRENT] || p == Root(env) + [PREVIOUS]
    ensures p <= Root(env) + [GENERATION] ==> Reversed(env)[p] == FOLDER
  {
    FoldersAt(Root(env) + [GENERATION], p);
    var k := |Root(env)|;
    assert (Root(env) + [GENERATION])[k] == GENERATION && (Root(env) + [CURRENT])[k] == CURRENT;
    assert (Root(env) + [PREVIOUS])[k] == PREVIOUS;
  }

  lemma ReversedWellFormed(env: Env)
    requires EnvOk(env)
    ensures WellFormed(Reversed(env))
  {
    var g, c, p := Root(env) + [GENERATION], Root(env) + [CURRENT], Root(env) + [PREVIOUS];
    assert ".." !in g && ".." !in c && ".." !in p;
    FoldersWellFormed(g);
    FoldersAt(g, Root(env));
    FoldersAt(g, c);
    FoldersAt(g, p);
    assert g[|Root(env)|] == GENERATION && c[|Root(env)|] == CURRENT && p[|Root(env)|] == PREVIOUS;
    assert Parent(c) == Root(env) && Parent(p) == Root(env);
    AddLeaf(Folders(g), c, Link(true, Target(false, [GENERATION])));
    AddLeaf(Folders(g)[c := Link(true, Target(false, [GENERATION]))], p, Link(true, Target(false, [CURRENT])));
  }

  lemma ReversedBase(env: Env)
    requires EnvOk(env)
    ensures Base(Reversed(env), env)
  {
    ReversedWellFormed(env);
    assert Root(env)[|env.home|] == ".local";
    ReversedAt(env, env.home);
    ReversedAt(env, env.service);
  }

  /** Everything on the way is private. */
  lemma ReversedCheck(env: Env, p: Path)
    requires p <= Root(env) + [GENERATION] || |p| <= |Root(env)| || env.service == p
    requires EnvOk(env)
    ensures CheckPath(Reversed(env), env, p)
  {
    assert Root(env)[|env.home|] == ".local";
    forall i | |env.home| < i <= |p| && p[..i] in Reversed(env) ensures Safe(Reversed(env)[p[..i]]) {
      ReversedAt(env, p[..i]);
    }
  }

  lemma ReversedNames(env: Env, n: string)
    ensures n in Names(Reversed(env), Root(env)) <==> n == GENERATION || n == CURRENT || n == PREVIOUS
  {
    NamesAt(Reversed(env), Root(env), n);
    ReversedAt(env, Root(env) + [n]);
    assert (Root(env) + [n])[|Root(env)|] == n && (Root(env) + [GENERATION])[|Root(env)|] == GENERATION;
    assert (Root(env) + [CURRENT])[|Root(env)|] == CURRENT && (Root(env) + [PREVIOUS])[|Root(env)|] == PREVIOUS;
  }

  lemma ReversedWalk(env: Env)
    requires EnvOk(env) && env.hops >= 2
    ensures Follow(Reversed(env), env, Root(env) + [CURRENT]) == Some(Root(env) + [GENERATION])
    ensures Follow(Reversed(env), env, Root(env) + [PREVIOUS]) == Some(Root(env) + [GENERATION])
    ensures Root(env) + [CURRENT] in Visits(Reversed(env), [], Root(env) + [PREVIOUS], env.hops)
  {
    var t, r := Reversed(env), Root(env);
    forall i | 0 <= i <= |r| ensures r[..i] in t && t[r[..i]].Dir? { ReversedAt(env, r[..i]); }
    ReversedAt(env, r + [GENERATION]);
    ReversedAt(env, r);
    assert ".." !in r && r[..0] == [] && r[0..] + [CURRENT] == r + [CURRENT] && r[0..] + [PREVIOUS] == r + [PREVIOUS];
    WalkDown(t, r, 0, [CURRENT], env.hops);
    WalkDown(t, r, 0, [PREVIOUS], env.hops);
    assert (r + [CURRENT])[|r|] == CURRENT && (r + [PREVIOUS])[|r|] == PREVIOUS;
    WalkEntry(t, r, CURRENT, env.hops);
    WalkEntry(t, r, PREVIOUS, env.hops);
    WalkEntry(t, r, CURRENT, env.hops - 1);
    WalkEntry(t, r, GENERATION, env.hops - 1);
    WalkEntry(t, r, GENERATION, env.hops - 2);
  }

  lemma ReversedGeneration(env: Env)
    requires EnvOk(env)
    ensures ChildOk(Reversed(env), env, GENERATION)
  {
    var t, g := Reversed(env), Root(env) + [GENERATION];
    IsGenerationName();
    ReversedBase(env);
    ReversedAt(env, g);
    ReversedAt(env, Root(env));
    assert Parent(g) == Root(env) && ".." !in g;
    FollowPlain(t, env, g);
    ReversedCheck(env, g);
    forall n ensures n !in Names(t, g) {
      NamesAt(t, g, n);
      ReversedAt(env, g + [n]);
    }
  }

  lemma ReversedLauncher(env: Env, name: string)
    requires EnvOk(env)
    ensures LauncherOk(Reversed(env), env, name)
  {
    ReversedCheck(env, Launcher(env, name));
    ReversedAt(env, Launcher(env, name));
    assert Launcher(env, name)[|env.home| + 1] == "bin" && Root(env)[|env.home| + 1] == "share";
  }

  /** Accepted by the planner, yet a crash after unlinking `current` cannot be resumed. */
  lemma ReversedFails(env: Env)
    requires EnvOk(env) && env.hops >= 2
    ensures Base(Reversed(env), env) && Accepts(Reversed(env), env) && NoStray(Reversed(env), env)
    ensures !CrashSafe(Reversed(env), env)
  {
    var t := Reversed(env);
    ReversedBase(env);
    ReversedAt(env, Root(env));
    ReversedCheck(env, Root(env));
    ReversedCheck(env, env.service);
    ReversedLauncher(env, SECKIT);
    ReversedLauncher(env, MCP);
    ReversedGeneration(env);
    ReversedWalk(env);
    IsGenerationName();
    forall n | n in Names(t, Root(env)) ensures ChildOk(t, env, n) { ReversedChild(env, n); }
    forall n | n in Generations(t, env) ensures !Stray(t, Root(env) + [n]) { ReversedStray(env, n); }
    ReversedNames(env, CURRENT);
    ReversedNames(env, PREVIOUS);
    CrashSafeIff(t, env);
  }

  lemma ReversedStray(env: Env, n: string)
    ensures !Stray(Reversed(env), Root(env) + [n])
  {
    ReversedAt(env, Root(env) + [n] + [REMOVAL]);
  }

  lemma ReversedChild(env: Env, n: string)
    requires EnvOk(env) && env.hops >= 2 && n in Names(Reversed(env), Root(env))
    ensures ChildOk(Reversed(env), env, n)
  {
    ReversedNames(env, n);
    if n == GENERATION {
      ReversedGeneration(env);
    } else {
      ReversedWalk(env);
      IsGenerationName();
      var q := Root(env) + [GENERATION];
      assert Parent(q) == Root(env) && q[|q| - 1] == GENERATION;
      assert (Root(env) + [CURRENT])[|Root(env)|] == CURRENT && (Root(env) + [PREVIOUS])[|Root(env)|] == PREVIOUS;
    }
  }

  // ---- a dangling link under the original receipt's name --------------------------------------------------

  const SEAL := File(true, RECEIPT_MODE, "", Some(Receipt(1, Some(map[]), map[SECKIT := "", MCP := ""])))
  const DANGLING := Link(true, Target(false, ["missing"]))

  function Site(env: Env): Path { Root(env) + [GENERATION] }

  /** A generation emptied but for its removal receipt, and a dangling link named like the original one. */
  function Dangling(env: Env): Tree {
    Folders(Site(env))[Site(env) + [REMOVAL] := SEAL][Site(env) + [RECEIPT] := DANGLING]
  }

  lemma DanglingAt(env: Env, p: Path)
    ensures p in Dangling(env) <==> p <= Site(env) || p == Site(env) + [REMOVAL] || p == Site(env) + [RECEIPT]
    ensures p <= Site(env) ==> Dangling(env)[p] == FOLDER
    ensures Dangling(env)[Site(env) + [REMOVAL]] == SEAL && Dangling(env)[Site(env) + [RECEIPT]] == DANGLING
  {
    FoldersAt(Site(env), p);
    var k := |Site(env)|;
    assert (Site(env) + [REMOVAL])[k] == REMOVAL && (Site(env) + [RECEIPT])[k] == RECEIPT;
  }

  lemma DanglingBase(env: Env)
    requires EnvOk(env)
    ensures Base(Dangling(env), env)
  {
    var g, a, b := Site(env), Site(env) + [REMOVAL], Site(env) + [RECEIPT];
    assert ".." !in g && ".." !in a && ".." !in b;
    FoldersWellFormed(g);
    FoldersAt(g, g);
    FoldersAt(g, a);
    FoldersAt(g, b);
    assert a[|g|] == REMOVAL && b[|g|] == RECEIPT;
    assert Parent(a) == g && Parent(b) == g;
    AddLeaf(Folders(g), a, SEAL);
    AddLeaf(Folders(g)[a := SEAL], b, DANGLING);
    assert Root(env)[|env.home|] == ".local" && g[|env.home|] == ".local" && a[|env.home|] == ".local" &&
      b[|env.home|] == ".local";
    DanglingAt(env, env.home);
    DanglingAt(env, env.service);
  }

  lemma DanglingCheck(env: Env, p: Path)
    requires EnvOk(env) && p != Site(env) + [RECEIPT] &&
      (p <= Site(env) + [REMOVAL] || |p| <= |Site(env)| || p == env.service)
    ensures CheckPath(Dangling(env), env, p)
  {
    assert Site(env)[|env.home|] == ".local";
    forall i | |env.home| < i <= |p| && p[..i] in Dangling(env) ensures Safe(Dangling(env)[p[..i]]) {
      DanglingAt(env, p[..i]);
      assert (Site(env) + [REMOVAL])[|Site(env)|] == REMOVAL && (Site(env) + [RECEIPT])[|Site(env)|] == RECEIPT;
      assert (Site(env) + [RECEIPT])[|env.home|] == ".local";
    }
  }

  lemma DanglingWalk(env: Env)
    requires EnvOk(env)
    ensures !Exists(Dangling(env), env, Site(env) + [RECEIPT]) && IsDir(Dangling(env), env, Site(env))
  {
    var t, g := Dangling(env), Site(env);
    forall i | 0 <= i <= |g| ensures g[..i] in t && t[g[..i]].Dir? { DanglingAt(env, g[..i]); }
    DanglingAt(env, g);
    DanglingAt(env, g + [RECEIPT]);
    DanglingAt(env, g + ["missing"]);
    assert (g + ["missing"])[|g|] == "missing" && (g + [RECEIPT])[|g|] == RECEIPT && (g + [REMOVAL])[|g|] == REMOVAL;
    assert ".." !in g && g[..0] == [] && g[0..] + [RECEIPT] == g + [RECEIPT] && g[0..] + [] == g;
    WalkDown(t, g, 0, [RECEIPT], env.hops);
    WalkDown(t, g, 0, [], env.hops);
    if env.hops > 0 { WalkEntry(t, g, RECEIPT, env.hops); }
  }

  lemma DanglingGeneration(env: Env)
    requires EnvOk(env)
    ensures ChildOk(Dangling(env), env, GENERATION) && Stray(Dangling(env), Site(env))
  {
    var t, g := Dangling(env), Site(env);
    IsGenerationName();
    DanglingWalk(env);
    DanglingAt(env, g + [RECEIPT]);
    DanglingAt(env, g + [REMOVAL]);
    DanglingCheck(env, g);
    assert (g + [REMOVAL])[|g|] == REMOVAL && (g + [RECEIPT])[|g|] == RECEIPT;
    DanglingCheck(env, g + [REMOVAL]);
    forall r ensures r !in Covered(t, g) {
      CoveredPath(t, g, r);
      DanglingAt(env, g + r);
      assert (g + r)[|g|..] == r && (g + [RECEIPT])[|g|..] == [RECEIPT] && (g + [REMOVAL])[|g|..] == [REMOVAL];
    }
    assert Inventory(t, g) == map[];
  }

  lemma DanglingNames(env: Env, n: string)
    ensures n in Names(Dangling(env), Root(env)) <==> n == GENERATION
  {
    NamesAt(Dangling(env), Root(env), n);
    DanglingAt(env, Root(env) + [n]);
    assert (Root(env) + [n])[|Root(env)|] == n && Site(env)[|Root(env)|] == GENERATION;
  }

  lemma DanglingLauncher(env: Env, name: string)
    requires EnvOk(env)
    ensures LauncherOk(Dangling(env), env, name)
  {
    DanglingCheck(env, Launcher(env, name));
    DanglingAt(env, Launcher(env, name));
    assert Launcher(env, name)[|env.home| + 1] == "bin" && Root(env)[|env.home| + 1] == "share";
  }

  /** Accepted by the planner, yet the removal ends stranded. */
  lemma DanglingFails(env: Env)
    requires EnvOk(env)
    ensures Base(Dangling(env), env) && Accepts(Dangling(env), env) && LinkOrder(Dangling(env), env)
    ensures !CrashSafe(Dangling(env), env)
  {
    var t := Dangling(env);
    DanglingBase(env);
    DanglingAt(env, Root(env));
    DanglingCheck(env, Root(env));
    DanglingCheck(env, env.service);
    DanglingLauncher(env, SECKIT);
    DanglingLauncher(env, MCP);
    DanglingGeneration(env);
    IsGenerationName();
    forall n | n in Names(t, Root(env)) ensures n == GENERATION { DanglingNames(env, n); }
    DanglingNames(env, GENERATION);
    CrashSafeIff(t, env);
  }
}
