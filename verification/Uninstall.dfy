/** The removal planner: which installations it accepts, and what it lists for removal.

    Owner and permission checks are attributes of nodes. The home directory itself is taken to be free of
    symbolic links; below it, links are resolved wherever the source resolves them. */
module Uninstall {
  import opened Strings
  import opened FileTree

  const RECEIPT := ".seckit-install-receipt.json"
  const REMOVAL := ".seckit-removal-receipt.json"
  const RECEIPT_MODE := 384 // 0o600
  const STATE_NAMES := {"seckitd.json", "seckitd.sock", "seckitd.start.lock", "libp2p-identity.key"}
  const LINK_NAMES := {"current", "previous"}
  const SECKIT := "seckit"
  const MCP := "seckit-mcp"

  /** `hops` is how many links the platform follows; `definition` recognises the expected service file. */
  datatype Env = Env(home: Path, hops: nat, service: Path, definition: string -> bool)

  function Root(env: Env): Path { env.home + [".local", "share", "seckit", "runtime"] }

  function Launcher(env: Env, name: string): Path { env.home + [".local", "bin", name] }

  predicate Digits(s: string) { s != "" && forall i :: 0 <= i < |s| ==> '0' <= s[i] <= '9' }

  /** `runtime-`, digits, a dash, digits. */
  predicate GenerationName(s: string) {
    exists i :: 8 <= i < |s| && s[i] == '-' && s[..8] == "runtime-" && Digits(s[8..i]) && Digits(s[i + 1..])
  }

  // ---- safety of paths ------------------------------------------------------------------------------------

  /** Writable by group or others: any bit of 0o022. */
  predicate Writable(mode: nat) { (mode / 16) % 2 == 1 || (mode / 2) % 2 == 1 }

  predicate Safe(n: Node) { n.own && !n.Link? && !Writable(n.mode) }

  /** Nothing from below home down to `p` is a link, foreign or writable by others. */
  predicate CheckPath(t: Tree, env: Env, p: Path) {
    forall i :: |env.home| < i <= |p| && p[..i] in t ==> Safe(t[p[..i]])
  }

  function Follow(t: Tree, env: Env, p: Path): Option<Path> { Walk(t, [], p, env.hops) }

  predicate Exists(t: Tree, env: Env, p: Path) { Follow(t, env, p).Some? }

  predicate IsDir(t: Tree, env: Env, p: Path) {
    var q := Follow(t, env, p);
    q.Some? && q.value in t && t[q.value].Dir?
  }

  // ---- inventories ----------------------------------------------------------------------------------------

  /** Relative paths of what an inventory of `g` covers. */
  function Covered(t: Tree, g: Path): set<Path> {
    set p | p in t && g < p && p[|g|..] != [RECEIPT] && p[|g|..] != [REMOVAL] :: p[|g|..]
  }

  /** What is recorded of an entry; nothing when taking the inventory fails at it. */
  function Recorded(n: Node): Option<Entry> {
    if !n.own then None
    else if n.Link? then Some(LinkEntry(n.target))
    else if Writable(n.mode) then None
    else if n.Dir? then Some(DirEntry(n.mode))
    else if n.File? then Some(FileEntry(n.mode, n.digest))
    else None
  }

  /** Taking the inventory succeeds. */
  predicate Inventoried(t: Tree, g: Path) {
    forall r :: r in Covered(t, g) ==> g + r in t && Recorded(t[g + r]).Some?
  }

  function Inventory(t: Tree, g: Path): map<Path, Entry>
    requires Inventoried(t, g)
  {
    map r | r in Covered(t, g) :: Recorded(t[g + r]).value
  }

  /** Exactly what was installed, or when a removal is being resumed, nothing but what was installed. */
  predicate Matches(found: map<Path, Entry>, data: Receipt, resuming: bool) {
    && data.schema == 1 && data.entries.Some?
    && if resuming then forall r :: r in found ==> r in data.entries.value && found[r] == data.entries.value[r]
       else found == data.entries.value
  }

  // ---- acceptance -----------------------------------------------------------------------------------------

  predicate Resuming(t: Tree, g: Path) { g + [REMOVAL] in t }

  function ReceiptOf(t: Tree, g: Path): Path { g + [if Resuming(t, g) then REMOVAL else RECEIPT] }

  /** A readable receipt with both launcher digests, not writable by others. */
  predicate ReceiptFile(t: Tree, env: Env, p: Path) {
    && CheckPath(t, env, p) && p in t && t[p].File? && t[p].mode == RECEIPT_MODE && t[p].receipt.Some?
    && SECKIT in t[p].receipt.value.launchers && MCP in t[p].receipt.value.launchers
  }

  predicate Sealed(t: Tree, env: Env, g: Path) {
    && ReceiptFile(t, env, ReceiptOf(t, g))
    && Inventoried(t, g) && Matches(Inventory(t, g), t[ReceiptOf(t, g)].receipt.value, Resuming(t, g))
  }

  /** An empty directory, or one that agrees with its only receipt. */
  predicate GenerationOk(t: Tree, env: Env, g: Path) {
    && IsDir(t, env, g) && CheckPath(t, env, g)
    && (Names(t, g) == {} || (Sealed(t, env, g) && (Resuming(t, g) ==> !Exists(t, env, g + [RECEIPT]))))
  }

  predicate LinkOk(t: Tree, env: Env, p: Path) {
    var q := Follow(t, env, p);
    q.Some? && q.value != [] && Parent(q.value) == Root(env) && GenerationName(q.value[|q.value| - 1])
  }

  predicate StateOk(t: Tree, env: Env, n: string) {
    var p := Root(env) + [n];
    CheckPath(t, env, p) && p in t && if n == "seckitd.sock" then t[p].Socket? else t[p].File?
  }

  /** One child of the runtime directory: daemon state, a link to a generation, or a generation. */
  predicate ChildOk(t: Tree, env: Env, n: string) {
    var p := Root(env) + [n];
    if n in STATE_NAMES then StateOk(t, env, n)
    else if n in LINK_NAMES && p in t && t[p].Link? then LinkOk(t, env, p)
    else GenerationName(n) && GenerationOk(t, env, p)
  }

  predicate ChildrenOk(t: Tree, env: Env) {
    forall n :: n in Names(t, Root(env)) ==> ChildOk(t, env, n)
  }

  function Links(t: Tree, env: Env): set<string> { set n | n in Names(t, Root(env)) && n in LINK_NAMES }

  function Generations(t: Tree, env: Env): set<string> { set n | n in Names(t, Root(env)) && GenerationName(n) }

  /** The launcher digests in the receipts of those of the given generations that still have one. */
  function VouchedBy(t: Tree, env: Env, name: string, generations: set<string>): set<string> {
    set n | n in generations && ReceiptFile(t, env, ReceiptOf(t, Root(env) + [n])) && (name == SECKIT || name == MCP) ::
      t[ReceiptOf(t, Root(env) + [n])].receipt.value.launchers[name]
  }

  function Vouched(t: Tree, env: Env, name: string): set<string> {
    VouchedBy(t, env, name, Generations(t, env))
  }

  predicate LauncherOk(t: Tree, env: Env, name: string) {
    var p := Launcher(env, name);
    CheckPath(t, env, p) && (p in t ==> t[p].File? && t[p].digest in Vouched(t, env, name))
  }

  predicate ServiceOk(t: Tree, env: Env) {
    && env.home < env.service && CheckPath(t, env, env.service)
    && (env.service in t ==>
          Generations(t, env) != {} && t[env.service].File? && env.definition(t[env.service].digest))
  }

  /** The planner returns a plan. */
  predicate Accepts(t: Tree, env: Env) {
    && CheckPath(t, env, Root(env)) && (Root(env) in t ==> t[Root(env)].Dir?)
    && ChildrenOk(t, env)
    && LauncherOk(t, env, SECKIT) && LauncherOk(t, env, MCP)
    && ServiceOk(t, env)
  }

  // ---- the plan -------------------------------------------------------------------------------------------

  function Under(root: Path, names: seq<string>): (r: seq<Path>)
    ensures |r| == |names| && forall i :: 0 <= i < |names| ==> r[i] == root + [names[i]]
  {
    seq(|names|, i requires 0 <= i < |names| => root + [names[i]])
  }

  function Present(t: Tree, p: Path): seq<Path> { if p in t then [p] else [] }

  function Launchers(t: Tree, env: Env): seq<Path> {
    Present(t, Launcher(env, SECKIT)) + Present(t, Launcher(env, MCP))
  }

  function Ordered(root: Path, links: seq<string>, launchers: seq<Path>, generations: seq<string>): seq<Path> {
    Under(root, links) + launchers + Under(root, generations)
  }

  /** The removals in order: links, then launchers, then generations, each group by name. */
  ghost predicate Lists(t: Tree, env: Env, plan: seq<Path>) {
    exists links, generations ::
      && SortedListing(links, Links(t, env)) && SortedListing(generations, Generations(t, env))
      && plan == Ordered(Root(env), links, Launchers(t, env), generations)
  }

  lemma PlanExists(t: Tree, env: Env, links: seq<string>, generations: seq<string>)
    requires SortedListing(links, Links(t, env)) && SortedListing(generations, Generations(t, env))
    ensures Lists(t, env, Ordered(Root(env), links, Launchers(t, env), generations))
  {
  }

  /** A tree has one plan. */
  lemma PlanUnique(t: Tree, env: Env, plan: seq<Path>, plan': seq<Path>)
    requires Lists(t, env, plan) && Lists(t, env, plan')
    ensures plan == plan'
  {
    var links, generations :|
      && SortedListing(links, Links(t, env)) && SortedListing(generations, Generations(t, env))
      && plan == Ordered(Root(env), links, Launchers(t, env), generations);
    var links', generations' :|
      && SortedListing(links', Links(t, env)) && SortedListing(generations', Generations(t, env))
      && plan' == Ordered(Root(env), links', Launchers(t, env), generations');
    SortedListingUnique(links, links', Links(t, env));
    SortedListingUnique(generations, generations', Generations(t, env));
  }

  // ---- the planner ----------------------------------------------------------------------------------------

  /** Inventory entry by entry, failing at the first that is foreign, writable or of another kind. */
  method Snapshot(t: Tree, g: Path) returns (r: Result<map<Path, Entry>>)
    ensures r.Ok? <==> Inventoried(t, g)
    ensures r.Ok? ==> r.value == Inventory(t, g)
  {
    var left := Covered(t, g);
    var entries: map<Path, Entry> := map[];
    while left != {}
      invariant left <= Covered(t, g) && entries.Keys == Covered(t, g) - left
      invariant forall q :: q in entries ==> g + q in t && Recorded(t[g + q]) == Some(entries[q])
      decreases left
    {
      var q :| q in left;
      CoveredPath(t, g, q);
      var entry := Recorded(t[g + q]);
      if entry.None? { return Err("unsafe_runtime_entry"); }
      entries := entries[q := entry.value];
      left := left - {q};
    }
    return Ok(entries);
  }

  lemma CoveredPath(t: Tree, g: Path, r: Path)
    ensures r in Covered(t, g) <==> g + r in t && r != [] && r != [RECEIPT] && r != [REMOVAL]
  {
    assert (g + r)[|g|..] == r;
    assert r != [] ==> g < g + r;
    if r in Covered(t, g) {
      var p :| p in t && g < p && p[|g|..] == r && p[|g|..] != [RECEIPT] && p[|g|..] != [REMOVAL];
      assert p == g + r;
    }
  }

  /** Check one generation directory and return its receipt, if it still has any content. */
  method CheckGeneration(t: Tree, env: Env, g: Path) returns (r: Result<Option<Receipt>>)
    ensures r.Ok? <==> GenerationOk(t, env, g)
    ensures r.Ok? ==> r.value == if Names(t, g) == {} then None else t[ReceiptOf(t, g)].receipt
  {
    if !IsDir(t, env, g) { return Err("unknown_runtime_layout"); }
    if !CheckPath(t, env, g) { return Err("unsafe_path"); }
    if Names(t, g) == {} { return Ok(None); }
    var resuming := Resuming(t, g);
    if resuming && Exists(t, env, g + [RECEIPT]) { return Err("ambiguous_removal_receipt"); }
    var receipt := ReceiptOf(t, g);
    if !CheckPath(t, env, receipt) { return Err("unsafe_path"); }
    if receipt !in t || !t[receipt].File? || t[receipt].mode != RECEIPT_MODE {
      return Err("missing_or_unsafe_install_receipt");
    }
    if t[receipt].receipt.None? { return Err("unreadable_receipt"); }
    var data := t[receipt].receipt.value;
    var current := Snapshot(t, g);
    if current.Err? { return Err(current.reason); }
    if !Matches(current.value, data, resuming) { return Err("runtime_changed_since_installation"); }
    if SECKIT !in data.launchers || MCP !in data.launchers { return Err("missing_launcher_digest"); }
    return Ok(Some(data));
  }

  lemma FixedNames(n: string)
    requires n in STATE_NAMES || n in LINK_NAMES
    ensures !GenerationName(n)
  {
    assert |n| < 8 || n[..8][0] != 'r';
    assert "runtime-"[0] == 'r';
  }

  /** Reading one more generation adds its digests. */
  lemma VouchedGrows(t: Tree, env: Env, name: string, seen: set<string>, n: string)
    requires (name == SECKIT || name == MCP) && GenerationOk(t, env, Root(env) + [n])
    ensures VouchedBy(t, env, name, seen + {n}) == VouchedBy(t, env, name, seen) +
      if Names(t, Root(env) + [n]) == {} then {}
      else {t[ReceiptOf(t, Root(env) + [n])].receipt.value.launchers[name]}
  {
    var g := Root(env) + [n];
    NamesAt(t, g, REMOVAL);
    NamesAt(t, g, RECEIPT);
    assert Names(t, g) == {} ==> !ReceiptFile(t, env, ReceiptOf(t, g));
    assert Names(t, g) != {} ==> ReceiptFile(t, env, ReceiptOf(t, g));
  }

  lemma SnocListing(xs: seq<string>, names: set<string>, x: string)
    requires SortedListing(xs, names) && forall y :: y in names ==> Less(y, x)
    ensures SortedListing(xs + [x], names + {x})
  {
    assert forall i :: 0 <= i < |xs| ==> xs[i] in names;
  }

  predicate IsLinkName(n: string) { n in LINK_NAMES }

  /** The names among the first `i` children that satisfy `p`. */
  function Among(children: seq<string>, i: nat, p: string -> bool): set<string>
    requires i <= |children|
  {
    set n | n in children[..i] && p(n)
  }

  lemma AmongGrows(children: seq<string>, i: nat, p: string -> bool)
    requires i < |children|
    ensures Among(children, i + 1, p) == Among(children, i, p) + if p(children[i]) then {children[i]} else {}
  {
    assert children[..i + 1] == children[..i] + [children[i]];
  }

  lemma AmongAll(t: Tree, env: Env, children: seq<string>)
    requires SortedListing(children, Names(t, Root(env)))
    ensures Among(children, |children|, IsLinkName) == Links(t, env)
    ensures Among(children, |children|, GenerationName) == Generations(t, env)
    ensures (forall j :: 0 <= j < |children| ==> ChildOk(t, env, children[j])) ==> ChildrenOk(t, env)
  {
    assert children[..|children|] == children;
  }

  /** What the planner has collected: links, generations, and the digests accepted for each launcher. */
  datatype Found = Found(links: seq<string>, generations: seq<string>, seckit: set<string>, mcp: set<string>)

  ghost predicate Collected(t: Tree, env: Env, links: set<string>, generations: set<string>, found: Found) {
    && SortedListing(found.links, links) && SortedListing(found.generations, generations)
    && found.seckit == VouchedBy(t, env, SECKIT, generations) && found.mcp == VouchedBy(t, env, MCP, generations)
  }

  /** One generation in the planner's loop. */
  method PlanGeneration(t: Tree, env: Env, n: string, found: Found, ghost links: set<string>, ghost seen: set<string>)
    returns (r: Result<Found>)
    requires Collected(t, env, links, seen, found) && forall y :: y in seen ==> Less(y, n)
    ensures r.Ok? <==> GenerationOk(t, env, Root(env) + [n])
    ensures r.Ok? ==> Collected(t, env, links, seen + {n}, r.value)
  {
    var checked := CheckGeneration(t, env, Root(env) + [n]);
    if checked.Err? { return Err(checked.reason); }
    SnocListing(found.generations, seen, n);
    VouchedGrows(t, env, SECKIT, seen, n);
    VouchedGrows(t, env, MCP, seen, n);
    var seckit, mcp := found.seckit, found.mcp;
    if checked.value.Some? {
      seckit := seckit + {checked.value.value.launchers[SECKIT]};
      mcp := mcp + {checked.value.value.launchers[MCP]};
    }
    return Ok(Found(found.links, found.generations + [n], seckit, mcp));
  }

  /** One child of the runtime directory in the planner's loop. */
  method PlanChild(t: Tree, env: Env, n: string, found: Found, ghost links: set<string>, ghost seen: set<string>)
    returns (r: Result<Found>)
    requires n in Names(t, Root(env)) && Collected(t, env, links, seen, found)
    requires forall y :: y in links + seen ==> Less(y, n)
    ensures r.Ok? <==> ChildOk(t, env, n)
    ensures r.Ok? ==>
      Collected(t, env, links + if IsLinkName(n) then {n} else {}, seen + if GenerationName(n) then {n} else {},
        r.value)
  {
    var p := Root(env) + [n];
    NamesAt(t, Root(env), n);
    if n in STATE_NAMES {
      FixedNames(n);
      assert links + {} == links && seen + {} == seen;
      if !StateOk(t, env, n) { return Err("unexpected_daemon_state_type"); }
      return Ok(found);
    }
    if n in LINK_NAMES && t[p].Link? {
      FixedNames(n);
      assert seen + {} == seen;
      if !LinkOk(t, env, p) { return Err("runtime_link_outside_installation"); }
      SnocListing(found.links, links, n);
      return Ok(found.(links := found.links + [n]));
    }
    if !GenerationName(n) { return Err("unknown_runtime_layout"); }
    assert links + {} == links;
    r := PlanGeneration(t, env, n, found, links, seen);
  }

  /** Visit the children of the runtime directory in order of name. */
  method PlanRuntime(t: Tree, env: Env) returns (r: Result<Found>)
    ensures r.Ok? <==> ChildrenOk(t, env)
    ensures r.Ok? ==> Collected(t, env, Links(t, env), Generations(t, env), r.value)
  {
    var children := Sort(Names(t, Root(env)));
    var found := Found([], [], {}, {});
    var i := 0;
    while i < |children|
      invariant 0 <= i <= |children|
      invariant forall j :: 0 <= j < i ==> ChildOk(t, env, children[j])
      invariant Collected(t, env, Among(children, i, IsLinkName), Among(children, i, GenerationName), found)
    {
      AmongGrows(children, i, IsLinkName);
      AmongGrows(children, i, GenerationName);
      r := PlanChild(t, env, children[i], found, Among(children, i, IsLinkName), Among(children, i, GenerationName));
      if r.Err? { return; }
      found := r.value;
      i := i + 1;
    }
    AmongAll(t, env, children);
    return Ok(found);
  }

  method PlanLauncher(t: Tree, env: Env, name: string, accepted: set<string>) returns (r: Result<seq<Path>>)
    requires accepted == Vouched(t, env, name)
    ensures r.Ok? <==> LauncherOk(t, env, name)
    ensures r.Ok? ==> r.value == Present(t, Launcher(env, name))
  {
    var p := Launcher(env, name);
    if !CheckPath(t, env, p) { return Err("unsafe_path"); }
    if p !in t { return Ok([]); }
    if !t[p].File? || t[p].digest !in accepted { return Err("unknown_or_modified_launcher"); }
    return Ok([p]);
  }

  method PlanService(t: Tree, env: Env, generations: seq<string>) returns (r: Result<bool>)
    requires SortedListing(generations, Generations(t, env))
    ensures r.Ok? <==> ServiceOk(t, env)
    ensures r.Ok? ==> r.value == (env.service in t)
  {
    if !(env.home < env.service) { return Err("unsupported_path"); }
    if !CheckPath(t, env, env.service) { return Err("unsafe_path"); }
    if env.service !in t { return Ok(false); }
    assert generations != [] ==> generations[0] in generations;
    if generations == [] { return Err("service_without_verified_runtime"); }
    if !t[env.service].File? || !env.definition(t[env.service].digest) { return Err("unexpected_service_definition"); }
    return Ok(true);
  }

  /** The planner: a plan exactly for the accepted trees, listing exactly what there is to remove. */
  method RemovalPlan(t: Tree, env: Env, superuser: bool, overridden: bool) returns (r: Result<seq<Path>>)
    ensures r.Ok? <==> !superuser && !overridden && Accepts(t, env)
    ensures r.Ok? ==> Lists(t, env, r.value)
  {
    if superuser { return Err("run_as_installing_user_not_root"); }
    if overridden { return Err("unset_seckit_overrides_before_uninstall"); }
    var root := Root(env);
    if !CheckPath(t, env, root) || (root in t && !t[root].Dir?) { return Err("unsafe_path"); }
    var found := PlanRuntime(t, env);
    if found.Err? { return Err(found.reason); }
    var seckit := PlanLauncher(t, env, SECKIT, found.value.seckit);
    if seckit.Err? { return Err(seckit.reason); }
    var mcp := PlanLauncher(t, env, MCP, found.value.mcp);
    if mcp.Err? { return Err(mcp.reason); }
    var service := PlanService(t, env, found.value.generations);
    if service.Err? { return Err(service.reason); }
    var plan := Ordered(root, found.value.links, seckit.value + mcp.value, found.value.generations);
    assert Lists(t, env, plan) by { PlanExists(t, env, found.value.links, found.value.generations); }
    return Ok(plan);
  }
}
