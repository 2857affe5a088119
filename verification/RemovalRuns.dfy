/** Crash safety of removal over whole runs. */
module RemovalRuns {
  import opened Strings
  import opened FileTree
  import opened Uninstall
  import opened Removal

  // ---- every step keeps the tree acceptable ---------------------------------------------------------------

  lemma PathsElsewhere(t: Tree, t': Tree, env: Env, at: Path)
    requires Elsewhere(t, t', at) && PathsOk(t, env) && !(at <= Root(env)) && Apart(at, env.service)
    ensures PathsOk(t', env)
  {
    ElsewhereBelow(t, t', at, env.service);
    CheckElsewhere(t, t', env, env.service, env.service);
    forall i | 0 <= i <= |Root(env)| ensures !(at <= Root(env)[..i]) {}
  }

  lemma LauncherElsewhere(t: Tree, t': Tree, env: Env, at: Path, name: string)
    requires Elsewhere(t, t', at) && Apart(at, Launcher(env, name)) && LauncherOk(t, env, name)
    requires Launcher(env, name) in t ==> Vouched(t', env, name) == Vouched(t, env, name)
    ensures LauncherOk(t', env, name)
  {
    var p := Launcher(env, name);
    ElsewhereBelow(t, t', at, p);
    CheckElsewhere(t, t', env, p, p);
  }

  lemma BaseElsewhere(t: Tree, t': Tree, env: Env, at: Path)
    requires Base(t, env) && WellFormed(t') && Elsewhere(t, t', at) && !(at <= env.home) && !(at <= env.service)
    ensures Base(t', env)
  {
  }

  lemma SameGenerations(t: Tree, t': Tree, env: Env, at: Path)
    requires Elsewhere(t, t', at) && forall n :: GenerationName(n) ==> Apart(at, Root(env) + [n])
    ensures Generations(t', env) == Generations(t, env)
  {
    forall n | GenerationName(n) ensures n in Names(t', Root(env)) <==> n in Names(t, Root(env)) {
      NamesElsewhere(t, t', env, at, n);
    }
  }

  lemma OtherLink(t: Tree, env: Env)
    requires Tidy(t, env) && CURRENT in Links(t, env) && PREVIOUS in Links(t, env)
    ensures ChildClean(t - {Root(env) + [CURRENT]}, env, PREVIOUS)
  {
    var at, p := Root(env) + [CURRENT], Root(env) + [PREVIOUS];
    Siblings(env, CURRENT, PREVIOUS);
    assert ChildClean(t, env, PREVIOUS);
    WalkStable(t, t - {at}, [], p, env.hops);
  }

  lemma LinkStepChildren(t: Tree, env: Env, n0: string)
    requires Tidy(t, env) && n0 in Links(t, env) && (n0 == PREVIOUS ==> CURRENT !in Links(t, env))
    ensures ChildrenClean(t - {Root(env) + [n0]}, env)
  {
    var at := Root(env) + [n0];
    var t' := t - {at};
    forall n | n in Names(t', Root(env)) ensures ChildClean(t', env, n) {
      NamesAt(t', Root(env), n);
      NamesAt(t, Root(env), n);
      Siblings(env, n0, n);
      if n in LINK_NAMES {
        OtherLink(t, env);
      } else {
        ChildElsewhere(t, t', env, at, n);
      }
    }
  }

  /** A change at or below one child of the runtime directory. */
  lemma ChildFrame(t: Tree, t': Tree, env: Env, n0: string)
    requires Base(t, env) && PathsOk(t, env) && WellFormed(t') && Elsewhere(t, t', Root(env) + [n0])
    ensures Base(t', env) && PathsOk(t', env)
  {
    Places(env, n0, SECKIT);
    BaseElsewhere(t, t', env, Root(env) + [n0]);
    PathsElsewhere(t, t', env, Root(env) + [n0]);
  }

  lemma UnlinkFrame(t: Tree, p: Path)
    requires WellFormed(t) && p in t && !t[p].Dir?
    ensures WellFormed(t - {p}) && Elsewhere(t, t - {p}, p)
  {
    ReceiptIsLeaf(t, p);
    RemoveLeaf(t, p);
  }

  lemma LinkStepLaunchers(t: Tree, t': Tree, env: Env, n0: string)
    requires EnvOk(env) && LaunchersOk(t, env) && n0 in LINK_NAMES && Elsewhere(t, t', Root(env) + [n0])
    ensures LaunchersOk(t', env)
  {
    var at := Root(env) + [n0];
    FixedNames(n0);
    forall n | GenerationName(n) ensures Apart(at, Root(env) + [n]) { Siblings(env, n0, n); }
    SameGenerations(t, t', env, at);
    VouchedElsewhere(t, t', env, at, SECKIT);
    VouchedElsewhere(t, t', env, at, MCP);
    Places(env, n0, SECKIT);
    Places(env, n0, MCP);
    LauncherElsewhere(t, t', env, at, SECKIT);
    LauncherElsewhere(t, t', env, at, MCP);
  }

  lemma NextLinkName(t: Tree, env: Env) returns (n0: string)
    requires Links(t, env) != {}
    ensures n0 in Links(t, env) && NextLink(t, env) == Root(env) + [n0]
    ensures n0 == PREVIOUS ==> CURRENT !in Links(t, env)
  {
    var l :| l in Links(t, env);
    n0 := if CURRENT in Links(t, env) then CURRENT else PREVIOUS;
  }

  lemma LinkStepOrder(t: Tree, env: Env, n0: string)
    requires n0 in LINK_NAMES
    ensures LinkOrder(t - {Root(env) + [n0]}, env)
  {
    NamesAt(t - {Root(env) + [n0]}, Root(env), n0);
  }

  lemma LinkStepKeepsTidy(t: Tree, t': Tree, env: Env)
    requires Tidy(t, env) && UnlinkLink(t, t', env)
    ensures Tidy(t', env)
  {
    var n0 := NextLinkName(t, env);
    assert ChildClean(t, env, n0);
    UnlinkFrame(t, Root(env) + [n0]);
    ChildFrame(t, t', env, n0);
    LinkStepChildren(t, env, n0);
    LinkStepLaunchers(t, t', env, n0);
    LinkStepOrder(t, env, n0);
  }

  lemma LauncherStepChildren(t: Tree, t': Tree, env: Env, name: string)
    requires EnvOk(env) && ChildrenClean(t, env) && Links(t, env) == {} && Elsewhere(t, t', Launcher(env, name))
    ensures ChildrenClean(t', env) && LinkOrder(t', env) && Generations(t', env) == Generations(t, env)
  {
    var at := Launcher(env, name);
    forall n ensures Apart(at, Root(env) + [n]) { Places(env, n, name); }
    forall n | n in Names(t', Root(env)) ensures ChildClean(t', env, n) && n !in LINK_NAMES {
      NamesElsewhere(t, t', env, at, n);
      assert n !in Links(t, env);
      ChildElsewhere(t, t', env, at, n);
    }
    SameGenerations(t, t', env, at);
  }

  lemma LauncherStepLauncher(t: Tree, env: Env, removed: string, name: string)
    requires EnvOk(env) && LauncherOk(t, env, name)
    requires var t' := t - {Launcher(env, removed)}; Generations(t', env) == Generations(t, env)
    ensures LauncherOk(t - {Launcher(env, removed)}, env, name)
  {
    var at := Launcher(env, removed);
    forall n | n in Generations(t, env) ensures Apart(at, Root(env) + [n]) { Places(env, n, removed); }
    VouchedElsewhere(t, t - {at}, env, at, name);
  }

  lemma LauncherFrame(t: Tree, t': Tree, env: Env, name: string)
    requires Base(t, env) && PathsOk(t, env) && WellFormed(t') && Elsewhere(t, t', Launcher(env, name))
    ensures Base(t', env) && PathsOk(t', env)
  {
    Places(env, "", name);
    BaseElsewhere(t, t', env, Launcher(env, name));
    PathsElsewhere(t, t', env, Launcher(env, name));
  }

  lemma LauncherStepKeepsTidy(t: Tree, t': Tree, env: Env)
    requires Tidy(t, env) && UnlinkLauncher(t, t', env)
    ensures Tidy(t', env)
  {
    var name := if Launcher(env, SECKIT) in t then SECKIT else MCP;
    assert Launchers(t, env)[0] == Launcher(env, name);
    UnlinkFrame(t, Launcher(env, name));
    LauncherFrame(t, t', env, name);
    LauncherStepChildren(t, t', env, name);
    LauncherStepLauncher(t, env, name, SECKIT);
    LauncherStepLauncher(t, env, name, MCP);
  }

  lemma GenerationStepChildren(t: Tree, t': Tree, env: Env, n0: string)
    requires ChildrenClean(t, env) && Links(t, env) == {} && GenerationName(n0) && n0 !in LINK_NAMES
    requires n0 !in STATE_NAMES
    requires Progress(t, t', env, Root(env) + [n0])
    ensures ChildrenClean(t', env) && LinkOrder(t', env)
  {
    var g := Root(env) + [n0];
    forall n | n in Names(t', Root(env)) ensures ChildClean(t', env, n) && n !in LINK_NAMES {
      NamesAt(t', Root(env), n);
      if n != n0 {
        Siblings(env, n0, n);
        NamesElsewhere(t, t', env, g, n);
        assert n !in Links(t, env);
        ChildElsewhere(t, t', env, g, n);
      }
    }
  }

  lemma GenerationStepLaunchers(t: Tree, t': Tree, env: Env, n0: string)
    requires EnvOk(env) && LaunchersOk(t, env) && Launchers(t, env) == [] && Elsewhere(t, t', Root(env) + [n0])
    ensures LaunchersOk(t', env)
  {
    Places(env, n0, SECKIT);
    Places(env, n0, MCP);
    assert Launcher(env, SECKIT) !in t && Launcher(env, MCP) !in t;
    LauncherElsewhere(t, t', env, Root(env) + [n0], SECKIT);
    LauncherElsewhere(t, t', env, Root(env) + [n0], MCP);
  }

  /** A generation of a tidy tree is clean. */
  lemma TidyGeneration(t: Tree, env: Env, n: string)
    requires ChildrenClean(t, env) && n in Generations(t, env)
    ensures Clean(t, env, Root(env) + [n]) && n !in LINK_NAMES && n !in STATE_NAMES
  {
    if n in LINK_NAMES || n in STATE_NAMES { FixedNames(n); }
    assert ChildClean(t, env, n);
  }

  lemma GenerationStepKeepsTidy(t: Tree, t': Tree, env: Env, n0: string)
    requires Tidy(t, env) && InGeneration(t, t', env, n0)
    ensures Tidy(t', env)
  {
    TidyGeneration(t, env, n0);
    GenerationProgress(t, t', env, Root(env) + [n0]);
    ChildFrame(t, t', env, n0);
    GenerationStepChildren(t, t', env, n0);
    GenerationStepLaunchers(t, t', env, n0);
  }

  lemma StepKeepsReady(t: Tree, t': Tree, env: Env)
    requires Ready(t, env) && Step(t, t', env)
    ensures Ready(t', env)
  {
    TidyIff(t, env);
    TidyIff(t', env);
    if UnlinkLink(t, t', env) {
      LinkStepKeepsTidy(t, t', env);
    } else if UnlinkLauncher(t, t', env) {
      LauncherStepKeepsTidy(t, t', env);
    } else {
      var n :| InGeneration(t, t', env, n);
      GenerationStepKeepsTidy(t, t', env, n);
    }
  }

  // ---- every step makes progress --------------------------------------------------------------------------

  function Originals(t: Tree): set<Path> { set p | p in t && p != [] && p[|p| - 1] == RECEIPT }

  /** The number of operations left is bounded by the entries and the receipts still under their original name. */
  function Work(t: Tree): nat { |t.Keys| + |Originals(t)| }

  lemma Fewer<T>(a: set<T>, b: set<T>)
    requires a <= b
    ensures |a| <= |b|
    decreases b
  {
    if b != {} {
      var x :| x in b;
      Fewer(a - {x}, b - {x});
      assert x !in a ==> a - {x} == a;
    }
  }

  lemma DeletionShrinks(t: Tree, p: Path)
    requires p in t
    ensures Work(t - {p}) < Work(t)
  {
    assert (t - {p}).Keys == t.Keys - {p};
    Fewer(Originals(t - {p}), Originals(t));
  }

  lemma RenameShrinks(t: Tree, t': Tree, g: Path)
    requires Rename(t, t', g) && g + [REMOVAL] !in t
    ensures Work(t') < Work(t)
  {
    var orig, recv := g + [RECEIPT], g + [REMOVAL];
    assert orig[|orig| - 1] == RECEIPT && recv[|recv| - 1] == REMOVAL;
    assert t'.Keys == t.Keys - {orig} + {recv};
    assert Originals(t') == Originals(t) - {orig};
  }

  lemma GenerationShrinks(t: Tree, t': Tree, env: Env, g: Path)
    requires WellFormed(t) && Clean(t, env, g) && GenerationStep(t, t', env, g)
    ensures Work(t') < Work(t)
  {
    OriginalExists(t, env, g);
    if g + [RECEIPT] in t {
      RenameShrinks(t, t', g);
    } else if TopNames(t, g) != {} {
      var m, q :| Least(m, TopNames(t, g)) && q in t && g + [m] <= q && Leaf(t, q) && t' == t - {q};
      DeletionShrinks(t, q);
    } else if g + [REMOVAL] in t {
      DeletionShrinks(t, g + [REMOVAL]);
    } else {
      DeletionShrinks(t, g);
    }
  }

  lemma StepShrinks(t: Tree, t': Tree, env: Env)
    requires Ready(t, env) && Step(t, t', env)
    ensures Work(t') < Work(t)
  {
    TidyIff(t, env);
    if UnlinkLink(t, t', env) {
      var n0 := NextLinkName(t, env);
      NamesAt(t, Root(env), n0);
      DeletionShrinks(t, NextLink(t, env));
    } else if UnlinkLauncher(t, t', env) {
      DeletionShrinks(t, Launchers(t, env)[0]);
    } else {
      var n :| InGeneration(t, t', env, n);
      TidyGeneration(t, env, n);
      GenerationShrinks(t, t', env, Root(env) + [n]);
    }
  }

  /** Nothing is left to remove. */
  predicate Finished(t: Tree, env: Env) {
    Links(t, env) == {} && Launchers(t, env) == [] && Generations(t, env) == {}
  }

  lemma LeastOf(names: set<string>) returns (n: string)
    requires names != {}
    ensures Least(n, names)
  {
    LeastExists(names);
    n :| n in names && forall y :: y in names ==> y == n || Less(n, y);
  }

  lemma GenerationMoves(t: Tree, env: Env, g: Path) returns (t': Tree)
    requires WellFormed(t) && Clean(t, env, g)
    ensures GenerationStep(t, t', env, g)
  {
    OriginalExists(t, env, g);
    if g + [RECEIPT] in t {
      t' := (t - {g + [RECEIPT]})[g + [REMOVAL] := t[g + [RECEIPT]]];
    } else if TopNames(t, g) != {} {
      var m := LeastOf(TopNames(t, g));
      NamesAt(t, g, m);
      var q := LeafBelow(t, g + [m], t.Keys);
      t' := t - {q};
      assert Prune(t, t', g);
    } else if g + [REMOVAL] in t {
      t' := t - {g + [REMOVAL]};
    } else {
      assert forall n :: n in Names(t, g) ==> n in TopNames(t, g) || n == RECEIPT || n == REMOVAL;
      NamesAt(t, g, RECEIPT);
      NamesAt(t, g, REMOVAL);
      t' := t - {g};
    }
  }

  lemma GenerationsMove(t: Tree, env: Env) returns (t': Tree)
    requires WellFormed(t) && ChildrenClean(t, env) && Generations(t, env) != {}
    requires Links(t, env) == {} && Launchers(t, env) == []
    ensures Step(t, t', env)
  {
    var n := LeastOf(Generations(t, env));
    TidyGeneration(t, env, n);
    t' := GenerationMoves(t, env, Root(env) + [n]);
    assert InGeneration(t, t', env, n);
  }

  /** While something is listed there is a next operation. */
  lemma Moves(t: Tree, env: Env) returns (t': Tree)
    requires Ready(t, env) && !Finished(t, env)
    ensures Step(t, t', env)
  {
    TidyIff(t, env);
    if Links(t, env) != {} {
      t' := t - {NextLink(t, env)};
    } else if Launchers(t, env) != [] {
      t' := t - {Launchers(t, env)[0]};
    } else {
      t' := GenerationsMove(t, env);
    }
  }

  // ---- the plan after a crash -----------------------------------------------------------------------------

  lemma PlanOf(t: Tree, env: Env, plan: seq<Path>) returns (links: seq<string>, generations: seq<string>)
    requires Lists(t, env, plan)
    ensures SortedListing(links, Links(t, env)) && SortedListing(generations, Generations(t, env))
    ensures plan == Ordered(Root(env), links, Launchers(t, env), generations)
  {
    links, generations :|
      && SortedListing(links, Links(t, env)) && SortedListing(generations, Generations(t, env))
      && plan == Ordered(Root(env), links, Launchers(t, env), generations);
  }

  lemma OrderedLink(root: Path, links: seq<string>, launchers: seq<Path>, generations: seq<string>)
    requires links != []
    ensures Ordered(root, links, launchers, generations)
         == [root + [links[0]]] + Ordered(root, links[1..], launchers, generations)
  {
  }

  lemma OrderedLauncher(root: Path, launchers: seq<Path>, generations: seq<string>)
    requires launchers != []
    ensures Ordered(root, [], launchers, generations) == [launchers[0]] + Ordered(root, [], launchers[1..], generations)
  {
  }

  lemma OrderedGeneration(root: Path, generations: seq<string>)
    requires generations != []
    ensures Ordered(root, [], [], generations) == [root + [generations[0]]] + Ordered(root, [], [], generations[1..])
  {
  }

  lemma EmptyListing(xs: seq<string>)
    requires SortedListing(xs, {})
    ensures xs == []
  {
    SortedListingUnique(xs, [], {});
  }

  lemma FirstIsLeast(xs: seq<string>, names: set<string>, n: string)
    requires SortedListing(xs, names) && Least(n, names)
    ensures xs != [] && xs[0] == n
  {
    assert n in xs;
    assert xs[0] in xs;
    LessTrichotomy(n, xs[0]);
  }

  lemma LinkStepNames(t: Tree, env: Env, n0: string)
    requires EnvOk(env) && n0 in Links(t, env)
    ensures var t' := t - {Root(env) + [n0]};
      && Links(t', env) == Links(t, env) - {n0} && Generations(t', env) == Generations(t, env)
      && Launchers(t', env) == Launchers(t, env)
  {
    var at := Root(env) + [n0];
    var t' := t - {at};
    forall n ensures n in Names(t', Root(env)) <==> n in Names(t, Root(env)) && n != n0 {
      NamesAt(t, Root(env), n);
      NamesAt(t', Root(env), n);
      assert (Root(env) + [n])[|Root(env)|] == n && at[|Root(env)|] == n0;
    }
    FixedNames(n0);
    Places(env, n0, SECKIT);
    Places(env, n0, MCP);
  }

  lemma LinkStepPlan(t: Tree, t': Tree, env: Env, plan: seq<Path>)
    requires EnvOk(env) && UnlinkLink(t, t', env) && Lists(t, env, plan)
    ensures plan != [] && plan[0] == NextLink(t, env) && Lists(t', env, plan[1..])
  {
    var n0 := NextLinkName(t, env);
    var links, generations := PlanOf(t, env, plan);
    assert Less(CURRENT, PREVIOUS);
    FirstIsLeast(links, Links(t, env), n0);
    TailListing(links, Links(t, env));
    LinkStepNames(t, env, n0);
    OrderedLink(Root(env), links, Launchers(t, env), generations);
    assert plan[1..] == Ordered(Root(env), links[1..], Launchers(t', env), generations);
  }

  lemma LauncherStepNames(t: Tree, t': Tree, env: Env)
    requires EnvOk(env) && UnlinkLauncher(t, t', env)
    ensures Links(t', env) == {} && Generations(t', env) == Generations(t, env)
    ensures Launchers(t', env) == Launchers(t, env)[1..]
  {
    var name := if Launcher(env, SECKIT) in t then SECKIT else MCP;
    assert Launchers(t, env)[0] == Launcher(env, name);
    assert Launcher(env, SECKIT)[|env.home| + 2] == SECKIT && Launcher(env, MCP)[|env.home| + 2] == MCP;
    forall n ensures n in Names(t', Root(env)) <==> n in Names(t, Root(env)) {
      Places(env, n, name);
      NamesAt(t, Root(env), n);
      NamesAt(t', Root(env), n);
    }
  }

  lemma LauncherStepPlan(t: Tree, t': Tree, env: Env, plan: seq<Path>)
    requires EnvOk(env) && UnlinkLauncher(t, t', env) && Lists(t, env, plan)
    ensures plan != [] && plan[0] == Launchers(t, env)[0] && Lists(t', env, plan[1..])
  {
    var links, generations := PlanOf(t, env, plan);
    EmptyListing(links);
    LauncherStepNames(t, t', env);
    OrderedLauncher(Root(env), Launchers(t, env), generations);
    assert plan[1..] == Ordered(Root(env), [], Launchers(t', env), generations);
  }

  /** The generation worked on stays listed, or was the last thing of it to go. */
  lemma GenerationStepNames(t: Tree, t': Tree, env: Env, n0: string)
    requires EnvOk(env) && Links(t, env) == {} && Launchers(t, env) == [] && n0 in Generations(t, env)
    requires n0 !in LINK_NAMES && Elsewhere(t, t', Root(env) + [n0])
    ensures Links(t', env) == {} && Launchers(t', env) == []
    ensures Generations(t', env) == if Root(env) + [n0] in t' then Generations(t, env) else Generations(t, env) - {n0}
  {
    forall n | n != n0 ensures n in Names(t', Root(env)) <==> n in Names(t, Root(env)) {
      Siblings(env, n0, n);
      NamesElsewhere(t, t', env, Root(env) + [n0], n);
    }
    NamesAt(t', Root(env), n0);
    forall n ensures n !in Links(t', env) {
      assert n !in Links(t, env);
    }
    Places(env, n0, SECKIT);
    Places(env, n0, MCP);
    assert Launcher(env, SECKIT) !in t && Launcher(env, MCP) !in t;
  }

  lemma GenerationStepPlan(t: Tree, t': Tree, env: Env, plan: seq<Path>, n0: string)
    requires EnvOk(env) && Links(t, env) == {} && Launchers(t, env) == [] && Least(n0, Generations(t, env))
    requires n0 !in LINK_NAMES && Elsewhere(t, t', Root(env) + [n0]) && Lists(t, env, plan)
    ensures plan != [] && plan[0] == Root(env) + [n0]
    ensures Lists(t', env, if plan[0] in t' then plan else plan[1..])
  {
    var links, generations := PlanOf(t, env, plan);
    EmptyListing(links);
    FirstIsLeast(generations, Generations(t, env), n0);
    TailListing(generations, Generations(t, env));
    GenerationStepNames(t, t', env, n0);
    OrderedGeneration(Root(env), generations);
    assert SortedListing([], Links(t', env));
    if plan[0] in t' {
      assert plan == Ordered(Root(env), [], Launchers(t', env), generations);
    } else {
      assert plan[1..] == Ordered(Root(env), [], Launchers(t', env), generations[1..]);
    }
  }

  /** After one operation the planner lists what it listed before, without the first item if that is gone. */
  lemma StepPlan(t: Tree, t': Tree, env: Env, plan: seq<Path>)
    requires Ready(t, env) && Step(t, t', env) && Lists(t, env, plan)
    ensures plan != [] && Lists(t', env, if plan[0] in t' then plan else plan[1..])
  {
    TidyIff(t, env);
    if UnlinkLink(t, t', env) {
      LinkStepPlan(t, t', env, plan);
    } else if UnlinkLauncher(t, t', env) {
      LauncherStepPlan(t, t', env, plan);
    } else {
      var n :| InGeneration(t, t', env, n);
      TidyGeneration(t, env, n);
      GenerationProgress(t, t', env, Root(env) + [n]);
      GenerationStepPlan(t, t', env, plan, n);
    }
  }
}
