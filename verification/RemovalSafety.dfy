/** The main results about removal: when every crash can be resumed, and what is deleted. */
module RemovalSafety {
  import opened Strings
  import opened FileTree
  import opened Uninstall
  import opened Removal
  import opened RemovalRuns

  // ---- runs -----------------------------------------------------------------------------------------------

  lemma {:induction false} RunsStayReady(run: seq<Tree>, env: Env, k: nat)
    requires IsRun(run, env) && Ready(run[0], env) && k < |run|
    ensures Ready(run[k], env) && k + Work(run[k]) <= Work(run[0])
  {
    if k > 0 {
      RunsStayReady(run, env, k - 1);
      assert Step(run[k - 1], run[k - 1 + 1], env);
      StepKeepsReady(run[k - 1], run[k], env);
      StepShrinks(run[k - 1], run[k], env);
    }
  }

  lemma SuffixStep(t: Tree, t': Tree, env: Env, plan: seq<Path>, i: nat) returns (j: nat)
    requires Ready(t, env) && Step(t, t', env) && i <= |plan| && Lists(t, env, plan[i..])
    ensures i <= j <= |plan| && Lists(t', env, plan[j..])
  {
    StepPlan(t, t', env, plan[i..]);
    assert plan[i..][1..] == plan[i + 1..];
    j := if plan[i] in t' then i else i + 1;
  }

  lemma {:induction false} PlanIsSuffix(run: seq<Tree>, env: Env, k: nat, plan: seq<Path>) returns (i: nat)
    requires IsRun(run, env) && Ready(run[0], env) && k < |run| && Lists(run[0], env, plan)
    ensures i <= |plan| && Lists(run[k], env, plan[i..])
  {
    if k == 0 {
      i := 0;
      assert plan[0..] == plan;
    } else {
      i := PlanIsSuffix(run, env, k - 1, plan);
      RunsStayReady(run, env, k - 1);
      i := SuffixStep(run[k - 1], run[k - 1 + 1], env, plan, i);
    }
  }

  /** No operation is left. */
  ghost predicate Stuck(t: Tree, env: Env) { forall t' :: !Step(t, t', env) }

  /** From a tree that is ready for removal, a crash after any operation leaves a tree the planner accepts
      again; it then lists a suffix of the original plan, and only boundedly many operations remain. */
  lemma CrashesCanBeResumed(run: seq<Tree>, env: Env, plan: seq<Path>) returns (i: nat)
    requires IsRun(run, env) && Ready(run[0], env) && Lists(run[0], env, plan)
    ensures var t := run[|run| - 1];
      && Accepts(t, env) && i <= |plan| && Lists(t, env, plan[i..]) && |run| + Work(t) <= Work(run[0]) + 1
  {
    RunsStayReady(run, env, |run| - 1);
    i := PlanIsSuffix(run, env, |run| - 1, plan);
  }

  /** Attempts repeated until no operation is left end with nothing listed. */
  lemma RepeatingRemovesEverything(run: seq<Tree>, env: Env)
    requires IsRun(run, env) && Ready(run[0], env) && Stuck(run[|run| - 1], env)
    ensures Lists(run[|run| - 1], env, []) && Accepts(run[|run| - 1], env)
  {
    var t := run[|run| - 1];
    RunsStayReady(run, env, |run| - 1);
    if !Finished(t, env) {
      var t' := Moves(t, env);
    } else {
      PlanExists(t, env, [], []);
      assert Ordered(Root(env), [], Launchers(t, env), []) == [];
    }
  }

  // ---- what is deleted ------------------------------------------------------------------------------------

  /** A listed link, a listed launcher, or something at or below a listed generation. */
  predicate Planned(t: Tree, env: Env, p: Path) {
    || (exists n :: n in Links(t, env) && p == Root(env) + [n])
    || p in Launchers(t, env)
    || (exists n :: n in Generations(t, env) && Root(env) + [n] <= p)
  }

  predicate Untouched(t: Tree, t': Tree, p: Path) {
    (p in t <==> p in t') && (p in t ==> t'[p] == t[p])
  }

  /** Work on a generation stays at or below it and adds nothing but the removal receipt. */
  lemma GenerationStepWithin(t: Tree, t': Tree, env: Env, g: Path, p: Path)
    requires GenerationStep(t, t', env, g)
    ensures !(g <= p) ==> Untouched(t, t', p)
    ensures p in t' && p !in t ==> p == g + [REMOVAL]
  {
    assert g <= g + [RECEIPT] && g <= g + [REMOVAL];
    if !Exists(t, env, g + [RECEIPT]) && TopNames(t, g) != {} {
      var m, q :| Least(m, TopNames(t, g)) && q in t && g + [m] <= q && Leaf(t, q) && t' == t - {q};
      assert g <= g + [m];
    }
  }

  lemma StepTouchesPlanned(t: Tree, t': Tree, env: Env, p: Path)
    requires Step(t, t', env) && !Planned(t, env, p)
    ensures Untouched(t, t', p)
  {
    if UnlinkLink(t, t', env) {
      var n := NextLinkName(t, env);
    } else if UnlinkLauncher(t, t', env) {
      assert Launchers(t, env)[0] in Launchers(t, env);
    } else {
      var n :| InGeneration(t, t', env, n);
      GenerationStepWithin(t, t', env, Root(env) + [n], p);
    }
  }

  /** Nothing appears on the way but removal receipts inside generations. */
  lemma StepAdds(t: Tree, t': Tree, env: Env, p: Path)
    requires Step(t, t', env) && p in t' && p !in t
    ensures |p| == |Root(env)| + 2
  {
    if !UnlinkLink(t, t', env) && !UnlinkLauncher(t, t', env) {
      var n :| InGeneration(t, t', env, n);
      GenerationStepWithin(t, t', env, Root(env) + [n], p);
    }
  }

  /** So an operation on any tree lists nothing that was not listed before. */
  lemma StepPlansNoMore(t: Tree, t': Tree, env: Env, p: Path)
    requires Step(t, t', env) && Planned(t', env, p)
    ensures Planned(t, env, p)
  {
    forall n | n in Names(t', Root(env)) ensures n in Names(t, Root(env)) {
      NamesAt(t', Root(env), n);
      NamesAt(t, Root(env), n);
      if Root(env) + [n] !in t { StepAdds(t, t', env, Root(env) + [n]); }
    }
    if p in Launchers(t', env) && p !in t { StepAdds(t, t', env, p); }
  }

  /** Over any run from any tree, whatever was not planned in the first tree is exactly as it was. */
  lemma {:induction false} NothingElseChanges(run: seq<Tree>, env: Env, k: nat, p: Path)
    requires IsRun(run, env) && k < |run| && !Planned(run[0], env, p)
    ensures Untouched(run[0], run[k], p) && !Planned(run[k], env, p)
  {
    if k > 0 {
      NothingElseChanges(run, env, k - 1, p);
      assert Step(run[k - 1], run[k - 1 + 1], env);
      StepTouchesPlanned(run[k - 1], run[k], env, p);
      if Planned(run[k], env, p) { StepPlansNoMore(run[k - 1], run[k], env, p); }
    }
  }

  /** A generation's own directory, one of its receipts, or an entry recorded in its receipt. */
  predicate Accounted(t: Tree, g: Path, p: Path) {
    || p == g || p == g + [RECEIPT] || p == g + [REMOVAL]
    || (&& g < p && ReceiptOf(t, g) in t && t[ReceiptOf(t, g)].File? && t[ReceiptOf(t, g)].receipt.Some?
        && var entries := t[ReceiptOf(t, g)].receipt.value.entries; entries.Some? && p[|g|..] in entries.value)
  }

  lemma AcceptedIsAccounted(t: Tree, env: Env, n: string, p: Path)
    requires WellFormed(t) && Accepts(t, env) && n in Generations(t, env) && p in t && Root(env) + [n] <= p
    ensures Accounted(t, Root(env) + [n], p)
  {
    var g := Root(env) + [n];
    if n in STATE_NAMES || n in LINK_NAMES { FixedNames(n); }
    assert ChildOk(t, env, n);
    if p != g {
      NameOnPath(t, g, p);
      assert Sealed(t, env, g);
      var r := p[|g|..];
      assert p == g + r;
      CoveredPath(t, g, r);
      if r in Covered(t, g) { assert r in Inventory(t, g); }
    }
  }

  /** Every path a run from an accepted tree deletes was a listed link or launcher, or in a listed
      generation the directory, a receipt, or an entry recorded there. */
  lemma DeletesOnlyAccounted(run: seq<Tree>, env: Env, k: nat, p: Path)
    requires IsRun(run, env) && WellFormed(run[0]) && Accepts(run[0], env)
    requires k < |run| && p in run[0] && p !in run[k]
    ensures
      || (exists n :: n in Links(run[0], env) && p == Root(env) + [n])
      || p in Launchers(run[0], env)
      || (exists n :: n in Generations(run[0], env) && Accounted(run[0], Root(env) + [n], p))
  {
    if Planned(run[0], env, p) {
      if n :| n in Generations(run[0], env) && Root(env) + [n] <= p {
        AcceptedIsAccounted(run[0], env, n, p);
      }
    } else {
      NothingElseChanges(run, env, k, p);
    }
  }

  // ---- exactly when every crash can be resumed ------------------------------------------------------------

  /** Wherever an attempt or a sequence of attempts is cut off, the planner accepts what it finds. */
  ghost predicate CrashSafe(t: Tree, env: Env) {
    forall run :: IsRun(run, env) && run[0] == t ==> Accepts(run[|run| - 1], env)
  }

  /** When `previous` is reached through `current`, unlinking `current` strands it. */
  lemma ReversedLinksFail(t: Tree, env: Env)
    requires Base(t, env) && Accepts(t, env) && !LinkOrder(t, env)
    ensures var t' := t - {Root(env) + [CURRENT]}; Step(t, t', env) && !Accepts(t', env)
  {
    var at, p := Root(env) + [CURRENT], Root(env) + [PREVIOUS];
    var t' := t - {at};
    NamesAt(t, Root(env), CURRENT);
    NamesAt(t, Root(env), PREVIOUS);
    NamesAt(t', Root(env), PREVIOUS);
    FixedNames(CURRENT);
    FixedNames(PREVIOUS);
    assert ChildOk(t, env, CURRENT) && ChildOk(t, env, PREVIOUS);
    Siblings(env, CURRENT, PREVIOUS);
    WalkBroken(t, t', at, [], p, env.hops);
    assert !ChildOk(t', env, PREVIOUS);
  }

  /** A tree the planner accepts although a begun removal has something under the original receipt's name. */
  predicate Doomed(t: Tree, env: Env, n: string) {
    Base(t, env) && Accepts(t, env) && LinkOrder(t, env) && n in Generations(t, env) && Stray(t, Root(env) + [n])
  }

  /** What survives a step that is not refused. */
  predicate StillStray(t: Tree, env: Env, n: string) {
    Base(t, env) && LinkOrder(t, env) && n in Generations(t, env) && Stray(t, Root(env) + [n])
  }

  lemma StrayElsewhere(t: Tree, t': Tree, env: Env, at: Path, n: string)
    requires Elsewhere(t, t', at) && Apart(at, Root(env) + [n]) && n in Generations(t, env) && Stray(t, Root(env) + [n])
    ensures n in Generations(t', env) && Stray(t', Root(env) + [n])
  {
    ElsewhereBelow(t, t', at, Root(env) + [n]);
    SameNames(t, t', Root(env) + [n]);
    NamesElsewhere(t, t', env, at, n);
  }

  lemma AcceptedLink(t: Tree, env: Env, n: string)
    requires Accepts(t, env) && n in Links(t, env)
    ensures Root(env) + [n] in t && t[Root(env) + [n]].Link?
  {
    NamesAt(t, Root(env), n);
    FixedNames(n);
    assert ChildOk(t, env, n);
  }

  lemma DoomedLinkStep(t: Tree, env: Env, n: string) returns (t': Tree)
    requires Doomed(t, env, n) && Links(t, env) != {}
    ensures Step(t, t', env) && Work(t') < Work(t) && StillStray(t', env, n)
  {
    var n0 := NextLinkName(t, env);
    var at := Root(env) + [n0];
    t' := t - {at};
    AcceptedLink(t, env, n0);
    UnlinkFrame(t, at);
    ChildFrame(t, t', env, n0);
    LinkStepOrder(t, env, n0);
    DeletionShrinks(t, at);
    FixedNames(n0);
    Siblings(env, n0, n);
    StrayElsewhere(t, t', env, at, n);
  }

  lemma DoomedLauncherStep(t: Tree, env: Env, n: string) returns (t': Tree)
    requires Doomed(t, env, n) && Links(t, env) == {} && Launchers(t, env) != []
    ensures Step(t, t', env) && Work(t') < Work(t) && StillStray(t', env, n)
  {
    var name := if Launcher(env, SECKIT) in t then SECKIT else MCP;
    var at := Launcher(env, name);
    assert Launchers(t, env)[0] == at && LauncherOk(t, env, name);
    t' := t - {at};
    UnlinkFrame(t, at);
    LauncherFrame(t, t', env, name);
    LauncherStepNames(t, t', env);
    DeletionShrinks(t, at);
    Places(env, n, name);
    StrayElsewhere(t, t', env, at, n);
  }

  /** The first generation is another one: its removal goes on as usual. */
  lemma DoomedOtherStep(t: Tree, env: Env, n: string, n0: string) returns (t': Tree)
    requires Doomed(t, env, n) && Links(t, env) == {} && Launchers(t, env) == []
    requires Least(n0, Generations(t, env)) && !Stray(t, Root(env) + [n0])
    ensures Step(t, t', env) && Work(t') < Work(t) && StillStray(t', env, n)
  {
    var g := Root(env) + [n0];
    if n0 in STATE_NAMES || n0 in LINK_NAMES { FixedNames(n0); }
    assert ChildOk(t, env, n0);
    NamesAt(t, Root(env), n0);
    CleanIff(t, env, g);
    t' := GenerationMoves(t, env, g);
    assert InGeneration(t, t', env, n0);
    GenerationProgress(t, t', env, g);
    GenerationShrinks(t, t', env, g);
    ChildFrame(t, t', env, n0);
    GenerationStepNames(t, t', env, n0);
    Siblings(env, n0, n);
    StrayElsewhere(t, t', env, g, n);
  }

  lemma StraySealed(t: Tree, env: Env, n: string)
    requires Base(t, env) && Accepts(t, env) && n in Generations(t, env) && Stray(t, Root(env) + [n])
    ensures var g := Root(env) + [n];
      && g in t && t[g].Dir? && !Exists(t, env, g + [RECEIPT]) && t[g + [REMOVAL]].File? && t[g + [RECEIPT]].Link?
  {
    var g := Root(env) + [n];
    if n in STATE_NAMES || n in LINK_NAMES { FixedNames(n); }
    assert ChildOk(t, env, n);
    NamesAt(t, Root(env), n);
    NamesAt(t, g, REMOVAL);
    assert Parent(g + [RECEIPT]) == g;
    assert g + [RECEIPT] in t;
    if !t[g + [RECEIPT]].Link? { FollowPlain(t, env, g + [RECEIPT]); }
  }

  lemma DoomedLeaf(t: Tree, env: Env, n: string) returns (q: Path)
    requires Doomed(t, env, n) && Links(t, env) == {} && Launchers(t, env) == [] && Least(n, Generations(t, env))
    requires TopNames(t, Root(env) + [n]) != {} && !Exists(t, env, Root(env) + [n] + [RECEIPT])
    ensures q in t && Leaf(t, q) && Step(t, t - {q}, env) && Root(env) + [n] < q
    ensures q != Root(env) + [n] + [RECEIPT] && q != Root(env) + [n] + [REMOVAL]
  {
    var g := Root(env) + [n];
    var m := LeastOf(TopNames(t, g));
    NamesAt(t, g, m);
    q := LeafBelow(t, g + [m], t.Keys);
    assert Prune(t, t - {q}, g);
    assert InGeneration(t, t - {q}, env, n);
    assert q[|g|] == m && (g + [REMOVAL])[|g|] == REMOVAL && (g + [RECEIPT])[|g|] == RECEIPT;
    assert g <= q;
  }

  /** Deleting any leaf but a receipt below the stray generation. */
  lemma StrayPruned(t: Tree, env: Env, n: string, q: Path)
    requires Base(t, env) && PathsOk(t, env) && Links(t, env) == {} && Launchers(t, env) == []
    requires n in Generations(t, env) && n !in LINK_NAMES && Stray(t, Root(env) + [n])
    requires Leaf(t, q) && Root(env) + [n] < q
    requires q != Root(env) + [n] + [RECEIPT] && q != Root(env) + [n] + [REMOVAL]
    ensures StillStray(t - {q}, env, n)
  {
    var g, t' := Root(env) + [n], t - {q};
    NamesAt(t, Root(env), n);
    RemoveLeaf(t, q);
    ChildFrame(t, t', env, n);
    GenerationStepNames(t, t', env, n);
  }

  lemma DoomedPrune(t: Tree, env: Env, n: string) returns (t': Tree)
    requires Doomed(t, env, n) && Links(t, env) == {} && Launchers(t, env) == [] && Least(n, Generations(t, env))
    requires TopNames(t, Root(env) + [n]) != {}
    ensures Step(t, t', env) && Work(t') < Work(t) && StillStray(t', env, n)
  {
    StraySealed(t, env, n);
    var q := DoomedLeaf(t, env, n);
    t' := t - {q};
    DeletionShrinks(t, q);
    if n in LINK_NAMES { FixedNames(n); }
    StrayPruned(t, env, n, q);
  }

  /** Once only the receipts are left, unlinking the removal receipt strands the generation. */
  lemma DoomedEnd(t: Tree, env: Env, n: string)
    requires Doomed(t, env, n) && Links(t, env) == {} && Launchers(t, env) == [] && Least(n, Generations(t, env))
    requires TopNames(t, Root(env) + [n]) == {}
    ensures var t' := t - {Root(env) + [n, REMOVAL]}; Step(t, t', env) && !Accepts(t', env)
  {
    var g := Root(env) + [n];
    var orig, recv := g + [RECEIPT], g + [REMOVAL];
    assert recv == Root(env) + [n, REMOVAL];
    var t' := t - {recv};
    StraySealed(t, env, n);
    assert InGeneration(t, t', env, n);
    assert orig[|g|] == RECEIPT && recv[|g|] == REMOVAL;
    NamesAt(t', g, RECEIPT);
    NamesAt(t, Root(env), n);
    NamesAt(t', Root(env), n);
    assert orig[..|orig|] == orig;
    assert !CheckPath(t', env, orig);
    assert ReceiptOf(t', g) == orig;
    assert !GenerationOk(t', env, g);
    if n in STATE_NAMES || n in LINK_NAMES { FixedNames(n); }
    assert !ChildOk(t', env, n);
  }

  /** `run` starts at `t` and ends in a tree the planner refuses. */
  ghost predicate Fails(run: seq<Tree>, t: Tree, env: Env) {
    IsRun(run, env) && run[0] == t && !Accepts(run[|run| - 1], env)
  }

  lemma {:induction false} StrayFails(t: Tree, env: Env, n: string) returns (run: seq<Tree>)
    requires Doomed(t, env, n)
    ensures Fails(run, t, env)
    decreases Work(t)
  {
    var t', on := t, n;
    if Links(t, env) != {} {
      t' := DoomedLinkStep(t, env, n);
    } else if Launchers(t, env) != [] {
      t' := DoomedLauncherStep(t, env, n);
    } else {
      var n0 := LeastOf(Generations(t, env));
      if !Stray(t, Root(env) + [n0]) {
        t' := DoomedOtherStep(t, env, n, n0);
      } else if TopNames(t, Root(env) + [n0]) != {} {
        on := n0;
        t' := DoomedPrune(t, env, n0);
      } else {
        DoomedEnd(t, env, n0);
        run := Refused(t, t - {Root(env) + [n0, REMOVAL]}, env);
        return;
      }
    }
    if Accepts(t', env) {
      var rest := StrayFails(t', env, on);
      run := Extended(t, rest, t', env);
    } else {
      run := Refused(t, t', env);
    }
  }

  lemma Refused(t: Tree, t': Tree, env: Env) returns (run: seq<Tree>)
    requires Step(t, t', env) && !Accepts(t', env)
    ensures Fails(run, t, env)
  {
    run := [t, t'];
  }

  lemma Extended(t: Tree, rest: seq<Tree>, t': Tree, env: Env) returns (run: seq<Tree>)
    requires Step(t, t', env) && Fails(rest, t', env)
    ensures Fails(run, t, env)
  {
    PrependRun(t, rest, env);
    run := [t] + rest;
  }

  lemma PrependRun(t: Tree, rest: seq<Tree>, env: Env)
    requires IsRun(rest, env) && Step(t, rest[0], env)
    ensures IsRun([t] + rest, env)
  {
    var run := [t] + rest;
    forall k | 0 <= k < |run| - 1 ensures Step(run[k], run[k + 1], env) {
      if k > 0 { assert Step(rest[k - 1], rest[k - 1 + 1], env); }
    }
  }

  /** Removal can be resumed after every crash exactly when `previous` does not lead through `current` and
      no begun removal has something under the original receipt's name. */
  lemma CrashSafeIff(t: Tree, env: Env)
    requires Base(t, env) && Accepts(t, env)
    ensures CrashSafe(t, env) <==> LinkOrder(t, env) && NoStray(t, env)
  {
    if !LinkOrder(t, env) {
      ReversedLinksFail(t, env);
      var run := [t, t - {Root(env) + [CURRENT]}];
      assert IsRun(run, env);
    } else if !NoStray(t, env) {
      var n :| n in Generations(t, env) && Stray(t, Root(env) + [n]);
      var run := StrayFails(t, env, n);
      assert IsRun(run, env) && run[0] == t;
    } else {
      forall run | IsRun(run, env) && run[0] == t ensures Accepts(run[|run| - 1], env) {
        RunsStayReady(run, env, |run| - 1);
      }
    }
  }
}
