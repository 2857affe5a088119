/** The daemon's routing table: three maps of operational routes keyed by node identity.
    Bootstrap and runtime routes are mere locators; discovered routes are authenticated evidence
    whose availability follows the traffic that used them. */
module Routing {
  import opened Strings

  const CIRCUIT := "/p2p-circuit/"
  const BOOTSTRAP := "bootstrap"
  const RUNTIME_ENDPOINT := "runtime_endpoint"

  /** `last_contact` is an observation timestamp that no decision reads; it is not modelled. */
  datatype PeerRoute = PeerRoute(
    peerId: string, host: Option<string>, port: Option<int>, endpoint: Option<string>,
    adapter: string, source: string, transportPeerId: Option<string>,
    connected: bool, reachable: bool)
  {
    predicate Healthy() { connected && reachable }

    /** An authenticated path that does not run through a relay. */
    predicate Direct() { endpoint.Some? && !IsCircuit(endpoint.value) }

    /** The same route with refreshed availability. */
    function Observed(up: bool): PeerRoute { this.(connected := up, reachable := up) }

    predicate For(adapter': string, transportPeerId': string) {
      adapter == adapter' && transportPeerId == Some(transportPeerId')
    }
  }

  predicate IsCircuit(endpoint: string) { Contains(endpoint, CIRCUIT) }

  predicate LowerHex(c: char) { '0' <= c <= '9' || 'a' <= c <= 'f' }

  /** A canonical `node:<uuid>` identifier: lowercase hexadecimal with hyphens at the usual places. */
  predicate ValidNodeId(s: string) {
    && |s| == 41 && s[..5] == "node:"
    && forall i :: 5 <= i < 41 ==> if i in {13, 18, 23, 28} then s[i] == '-' else LowerHex(s[i])
  }

  // ---- wildcard listener addresses ------------------------------------------------------------

  predicate Blank(c: char) {
    || c in {'\t', '\n', '\U{0B}', '\U{0C}', '\r', ' ', '\U{85}', '\U{A0}', '\U{1680}',
             '\U{2028}', '\U{2029}', '\U{202F}', '\U{205F}', '\U{3000}'}
    || '\U{1C}' <= c <= '\U{1F}'
    || '\U{2000}' <= c <= '\U{200A}'
  }

  function Strip(s: string): string {
    if s == "" then ""
    else if Blank(s[0]) then Strip(s[1..])
    else if Blank(s[|s| - 1]) then Strip(s[..|s| - 1])
    else s
  }

  function Lower(s: string): string {
    seq(|s|, i requires 0 <= i < |s| => if 'A' <= s[i] <= 'Z' then s[i] + (32 as char) else s[i])
  }

  /** A listener bind address that no peer can dial. */
  predicate IsWildcard(endpoint: string) {
    var text := Lower(Strip(endpoint));
    || StartsWith(text, "tcp://0.0.0.0:") || StartsWith(text, "tcp://[::]:")
    || StartsWith(text, "/ip4/0.0.0.0/") || StartsWith(text, "/ip6/::/")
  }

  // ---- the table as a value and its operations ------------------------------------------------

  datatype Table = Table(
    bootstrap: map<string, PeerRoute>,
    runtime: map<string, PeerRoute>,
    discovered: map<string, PeerRoute>)

  /** One runtime endpoint record; a field that is not a string reads as `None`. */
  datatype Record = Record(peerId: Option<string>, endpoint: Option<string>)

  datatype Op =
    | Install(peerId: string, endpoint: string, transportPeerId: string, adapter: string, source: string)
    | Contact(peerId: string, used: Option<string>)
    | Unavailable(peerId: string, used: Option<string>)
    | TransportDown(transportPeerId: string)
    | ReplaceRuntime(records: seq<Record>, adapter: string)

  function RouteOf(op: Op): PeerRoute
    requires op.Install?
  {
    PeerRoute(op.peerId, None, None, Some(op.endpoint), op.adapter, op.source, Some(op.transportPeerId), true, true)
  }

  /** A healthy direct path is kept when the same transport identity arrives over a relay. */
  predicate Retains(current: PeerRoute, op: Op)
    requires op.Install?
  {
    current.For(op.adapter, op.transportPeerId) && current.Healthy() && current.Direct() && IsCircuit(op.endpoint)
  }

  /** This install changes the entry of its peer. */
  predicate Effective(t: Table, op: Op, peerId: string) {
    && op.Install? && op.peerId == peerId && ValidNodeId(peerId)
    && !(peerId in t.discovered && Retains(t.discovered[peerId], op))
  }

  /** What `op` reports about the availability of `route`, the current entry of `peerId`. */
  function Report(op: Op, peerId: string, route: PeerRoute): Option<bool> {
    match op
    case Contact(p, used) =>
      if p == peerId && (used == None || route.endpoint == used) then Some(true) else None
    case Unavailable(p, used) =>
      if p == peerId && (used == None || route.endpoint == used) then Some(false) else None
    case TransportDown(t) => if route.transportPeerId == Some(t) then Some(false) else None
    case _ => None
  }

  predicate Skipped(record: Record) {
    record.peerId == None || record.endpoint == None || IsWildcard(record.endpoint.value)
  }

  function RuntimeRoute(record: Record, adapter: string): PeerRoute
    requires !Skipped(record)
  {
    PeerRoute(record.peerId.value, None, None, record.endpoint, adapter, RUNTIME_ENDPOINT, None, false, true)
  }

  /** The runtime map built from `records`, the last record of a peer winning. */
  function RuntimeRoutes(records: seq<Record>, adapter: string): map<string, PeerRoute> {
    if records == [] then map[]
    else
      var before := RuntimeRoutes(records[..|records| - 1], adapter);
      var last := records[|records| - 1];
      if Skipped(last) then before else before[last.peerId.value := RuntimeRoute(last, adapter)]
  }

  /** Every record that is used names a valid node; otherwise the replacement is abandoned. */
  predicate AllNamesValid(records: seq<Record>) {
    forall i :: 0 <= i < |records| && !Skipped(records[i]) ==> ValidNodeId(records[i].peerId.value)
  }

  function Apply(t: Table, op: Op): Table {
    match op
    case Install(p, _, _, _, _) =>
      if Effective(t, op, p) then t.(discovered := t.discovered[p := RouteOf(op)]) else t
    case Contact(p, used) =>
      if p in t.discovered && Report(op, p, t.discovered[p]).Some?
      then t.(discovered := t.discovered[p := t.discovered[p].Observed(true)]) else t
    case Unavailable(p, used) =>
      if p in t.discovered && Report(op, p, t.discovered[p]).Some?
      then t.(discovered := t.discovered[p := t.discovered[p].Observed(false)]) else t
    case TransportDown(id) =>
      t.(discovered := map p | p in t.discovered ::
        if t.discovered[p].transportPeerId == Some(id) then t.discovered[p].Observed(false) else t.discovered[p])
    case ReplaceRuntime(records, adapter) =>
      if AllNamesValid(records) then t.(runtime := RuntimeRoutes(records, adapter)) else t
  }

  /** The condition variable is notified. */
  predicate Notifies(t: Table, op: Op) {
    match op
    case Install(p, _, _, _, _) => Effective(t, op, p)
    case Contact(p, _) => p in t.discovered && Report(op, p, t.discovered[p]).Some?
    case _ => false
  }

  /** The route a peer resolves to; `adapter == None` accepts any adapter. */
  function Selected(t: Table, peerId: string, adapter: Option<string>): Option<PeerRoute> {
    if peerId in t.discovered && (adapter == None || t.discovered[peerId].adapter == adapter.value) then
      if t.discovered[peerId].Healthy() then Some(t.discovered[peerId]) else None
    else if peerId in t.runtime && (adapter == None || t.runtime[peerId].adapter == adapter.value) then
      Some(t.runtime[peerId])
    else if peerId in t.bootstrap && (adapter == None || t.bootstrap[peerId].adapter == adapter.value) then
      Some(t.bootstrap[peerId])
    else None
  }

  lemma SelectedIsKeyed(t: Table, peerId: string, adapter: Option<string>)
    requires Valid(t)
    ensures Selected(t, peerId, adapter).Some? ==> Selected(t, peerId, adapter).value.peerId == peerId
  {
  }

  /** What `wait_connected` waits for. */
  predicate Connected(t: Table, peerId: string, adapter: string) {
    var route := Selected(t, peerId, Some(adapter));
    route.Some? && route.value.Healthy() && route.value.source !in {BOOTSTRAP, RUNTIME_ENDPOINT}
  }

  /** Routes are keyed by the peer they lead to, and locators carry their own source. */
  ghost predicate Valid(t: Table) {
    && (forall p :: p in t.bootstrap ==> t.bootstrap[p].peerId == p && t.bootstrap[p].source == BOOTSTRAP)
    && (forall p :: p in t.runtime ==> t.runtime[p].peerId == p && t.runtime[p].source == RUNTIME_ENDPOINT)
    && (forall p :: p in t.discovered ==> Evidence(t.discovered[p], p))
  }

  /** An authenticated entry: it names its peer, its endpoint and its transport identity, and it is
      connected exactly when it is reachable. */
  ghost predicate Evidence(route: PeerRoute, peerId: string) {
    && route.peerId == peerId && ValidNodeId(peerId)
    && route.endpoint.Some? && route.transportPeerId.Some?
    && route.connected == route.reachable
  }

  function Run(t: Table, ops: seq<Op>): Table {
    if ops == [] then t else Apply(Run(t, ops[..|ops| - 1]), ops[|ops| - 1])
  }

  /** The bootstrap map of a route list, the last route of a peer winning. */
  function BootstrapRoutes(routes: seq<PeerRoute>): map<string, PeerRoute> {
    if routes == [] then map[]
    else
      var last := routes[|routes| - 1];
      BootstrapRoutes(routes[..|routes| - 1])[last.peerId := last.(source := BOOTSTRAP)]
  }

  lemma {:induction false} BootstrapRoutesKeyed(routes: seq<PeerRoute>)
    ensures var m := BootstrapRoutes(routes); forall p :: p in m ==> m[p].peerId == p && m[p].source == BOOTSTRAP
  {
    if routes != [] {
      var init, last := routes[..|routes| - 1], routes[|routes| - 1];
      BootstrapRoutesKeyed(init);
      assert BootstrapRoutes(routes) == BootstrapRoutes(init)[last.peerId := last.(source := BOOTSTRAP)];
    }
  }

  // ---- what every operation keeps -------------------------------------------------------------

  lemma {:induction false} RuntimeRoutesKeyed(records: seq<Record>, adapter: string)
    ensures forall p :: p in RuntimeRoutes(records, adapter) ==>
      RuntimeRoutes(records, adapter)[p].peerId == p && RuntimeRoutes(records, adapter)[p].source == RUNTIME_ENDPOINT
  {
    if records != [] { RuntimeRoutesKeyed(records[..|records| - 1], adapter); }
  }

  lemma ApplyKeepsValid(t: Table, op: Op)
    requires Valid(t)
    ensures Valid(Apply(t, op))
  {
    if op.ReplaceRuntime? { RuntimeRoutesKeyed(op.records, op.adapter); }
  }

  /** In every reachable table connected and reachable agree, routes are keyed by their own peer, and
      no authenticated entry has been dropped. */
  lemma {:induction false} RunKeepsValid(t: Table, ops: seq<Op>)
    requires Valid(t)
    ensures Valid(Run(t, ops))
    ensures t.discovered.Keys <= Run(t, ops).discovered.Keys
  {
    if ops != [] {
      RunKeepsValid(t, ops[..|ops| - 1]);
      ApplyKeepsValid(Run(t, ops[..|ops| - 1]), ops[|ops| - 1]);
    }
  }

  lemma {:induction false} RunAppend(t: Table, first: seq<Op>, second: seq<Op>)
    ensures Run(t, first + second) == Run(Run(t, first), second)
    decreases |second|
  {
    if second == [] {
      assert first + second == first;
    } else {
      var init := second[..|second| - 1];
      RunAppend(t, first, init);
      assert (first + second)[..|first + second| - 1] == first + init;
    }
  }

  // ---- availability is a function of the history ----------------------------------------------

  /** The last report in `ops` that concerns `route`. */
  function LastReport(ops: seq<Op>, peerId: string, route: PeerRoute): Option<bool> {
    if ops == [] then None
    else if Report(ops[|ops| - 1], peerId, route).Some? then Report(ops[|ops| - 1], peerId, route)
    else LastReport(ops[..|ops| - 1], peerId, route)
  }

  function Latest(route: PeerRoute, report: Option<bool>): PeerRoute {
    if report.Some? then route.Observed(report.value) else route
  }

  lemma OneStep(t: Table, op: Op, peerId: string)
    requires peerId in t.discovered && !Effective(t, op, peerId)
    ensures peerId in Apply(t, op).discovered
    ensures Apply(t, op).discovered[peerId] == Latest(t.discovered[peerId], Report(op, peerId, t.discovered[peerId]))
  {
  }

  /** Reports never see the availability they change, so observing a route does not change which
      reports concern it. */
  lemma {:induction false} ReportsIgnoreAvailability(ops: seq<Op>, peerId: string, route: PeerRoute, up: bool)
    ensures LastReport(ops, peerId, route.Observed(up)) == LastReport(ops, peerId, route)
  {
    if ops != [] { ReportsIgnoreAvailability(ops[..|ops| - 1], peerId, route, up); }
  }

  /** While no install takes effect, an entry keeps everything but its availability, and that is what
      the last report about its own endpoint or transport identity said. */
  lemma {:induction false} Unreplaced(t: Table, ops: seq<Op>, peerId: string)
    requires peerId in t.discovered
    requires forall k :: 0 <= k < |ops| ==> !Effective(Run(t, ops[..k]), ops[k], peerId)
    ensures peerId in Run(t, ops).discovered
    ensures Run(t, ops).discovered[peerId] ==
      Latest(t.discovered[peerId], LastReport(ops, peerId, t.discovered[peerId]))
  {
    if ops != [] {
      var init, op := ops[..|ops| - 1], ops[|ops| - 1];
      forall k | 0 <= k < |init| ensures !Effective(Run(t, init[..k]), init[k], peerId) {
        assert init[..k] == ops[..k];
      }
      Unreplaced(t, init, peerId);
      var before := Run(t, init);
      OneStep(before, op, peerId);
      var route := t.discovered[peerId];
      var was := LastReport(init, peerId, route);
      if was.Some? { assert Report(op, peerId, route.Observed(was.value)) == Report(op, peerId, route); }
    }
  }

  lemma SinceInstall(t: Table, before: seq<Op>, install: Op, after: seq<Op>, peerId: string)
    requires Effective(Run(t, before), install, peerId)
    requires var installed := Apply(Run(t, before), install);
             forall k :: 0 <= k < |after| ==> !Effective(Run(installed, after[..k]), after[k], peerId)
    ensures var t' := Run(t, before + [install] + after);
      && peerId in t'.discovered
      && t'.discovered[peerId] == Latest(RouteOf(install), LastReport(after, peerId, RouteOf(install)))
  {
    var installed := Apply(Run(t, before), install);
    RunSnoc(t, before, install);
    RunAppend(t, before + [install], after);
    Unreplaced(installed, after, peerId);
  }

  /** The position of the last install of a history that took effect for a peer. */
  function LastInstall(t: Table, ops: seq<Op>, peerId: string): (r: Option<nat>)
    ensures r.Some? ==> r.value < |ops| && ops[r.value].Install?
  {
    if ops == [] then None
    else if Effective(Run(t, ops[..|ops| - 1]), ops[|ops| - 1], peerId) then Some(|ops| - 1)
    else LastInstall(t, ops[..|ops| - 1], peerId)
  }

  /** The operation at position `k` of a history took effect for a peer. */
  predicate TookEffect(t: Table, ops: seq<Op>, k: nat, peerId: string)
    requires k < |ops|
  {
    Effective(Run(t, ops[..k]), ops[k], peerId)
  }

  lemma TookEffectBefore(t: Table, ops: seq<Op>, k: nat, peerId: string)
    requires k + 1 < |ops|
    ensures TookEffect(t, ops[..|ops| - 1], k, peerId) == TookEffect(t, ops, k, peerId)
  {
    assert ops[..|ops| - 1][..k] == ops[..k];
  }

  lemma {:induction false} LastInstallFacts(t: Table, ops: seq<Op>, peerId: string)
    ensures var r := LastInstall(t, ops, peerId);
      && (r.Some? ==> TookEffect(t, ops, r.value, peerId))
      && forall k :: (if r.Some? then r.value + 1 else 0) <= k < |ops| ==> !TookEffect(t, ops, k, peerId)
  {
    if ops != [] && !TookEffect(t, ops, |ops| - 1, peerId) {
      var init := ops[..|ops| - 1];
      LastInstallFacts(t, init, peerId);
      forall k | 0 <= k < |init| ensures TookEffect(t, init, k, peerId) == TookEffect(t, ops, k, peerId) {
        TookEffectBefore(t, ops, k, peerId);
      }
    }
  }

  /** What a history says about a peer: the route of its last effective install, or the entry there was at
      first, available as the last later report naming that route's endpoint or identity said. */
  function Replayed(t: Table, ops: seq<Op>, peerId: string): Option<PeerRoute> {
    var at := LastInstall(t, ops, peerId);
    if at.Some? then
      Some(Latest(RouteOf(ops[at.value]), LastReport(ops[at.value + 1..], peerId, RouteOf(ops[at.value]))))
    else if peerId in t.discovered then
      Some(Latest(t.discovered[peerId], LastReport(ops, peerId, t.discovered[peerId])))
    else None
  }

  lemma {:induction false} NeverInstalled(t: Table, ops: seq<Op>, peerId: string)
    requires peerId !in t.discovered && forall k :: 0 <= k < |ops| ==> !TookEffect(t, ops, k, peerId)
    ensures peerId !in Run(t, ops).discovered
  {
    if ops != [] {
      var init := ops[..|ops| - 1];
      forall k | 0 <= k < |init| ensures !TookEffect(t, init, k, peerId) { TookEffectBefore(t, ops, k, peerId); }
      NeverInstalled(t, init, peerId);
      assert !TookEffect(t, ops, |ops| - 1, peerId);
    }
  }

  lemma StillInstalled(t: Table, ops: seq<Op>, at: nat, peerId: string)
    requires at < |ops| && TookEffect(t, ops, at, peerId)
    requires forall k :: at < k < |ops| ==> !TookEffect(t, ops, k, peerId)
    ensures peerId in Run(t, ops).discovered
    ensures Run(t, ops).discovered[peerId] ==
      Latest(RouteOf(ops[at]), LastReport(ops[at + 1..], peerId, RouteOf(ops[at])))
  {
    var before, install, after := ops[..at], ops[at], ops[at + 1..];
    assert ops == before + [install] + after;
    RunSnoc(t, before, install);
    forall k | 0 <= k < |after|
      ensures !Effective(Run(Apply(Run(t, before), install), after[..k]), after[k], peerId)
    {
      RunAppend(t, before + [install], after[..k]);
      assert before + [install] + after[..k] == ops[..at + 1 + k];
      assert !TookEffect(t, ops, at + 1 + k, peerId);
    }
    SinceInstall(t, before, install, after, peerId);
  }

  /** The entry of a peer, if it has one. */
  function EntryOf(t: Table, peerId: string): Option<PeerRoute> {
    if peerId in t.discovered then Some(t.discovered[peerId]) else None
  }

  /** Every history leaves a peer exactly the entry it says. Reports about a superseded endpoint have no
      effect, and neither have installs that a healthy direct path withstood. */
  lemma HistoryRefinement(t: Table, ops: seq<Op>, peerId: string)
    ensures EntryOf(Run(t, ops), peerId) == Replayed(t, ops, peerId)
  {
    var at := LastInstall(t, ops, peerId);
    LastInstallFacts(t, ops, peerId);
    if at.Some? {
      StillInstalled(t, ops, at.value, peerId);
    } else {
      NotReplaced(t, ops, peerId);
    }
  }

  lemma NotReplaced(t: Table, ops: seq<Op>, peerId: string)
    requires forall k :: 0 <= k < |ops| ==> !TookEffect(t, ops, k, peerId)
    ensures EntryOf(Run(t, ops), peerId) ==
      if peerId in t.discovered
      then Some(Latest(t.discovered[peerId], LastReport(ops, peerId, t.discovered[peerId]))) else None
  {
    if peerId in t.discovered {
      forall k | 0 <= k < |ops| ensures !Effective(Run(t, ops[..k]), ops[k], peerId) {
        assert !TookEffect(t, ops, k, peerId);
      }
      Unreplaced(t, ops, peerId);
    } else {
      NeverInstalled(t, ops, peerId);
    }
  }

  lemma RunSnoc(t: Table, ops: seq<Op>, op: Op)
    ensures Run(t, ops + [op]) == Apply(Run(t, ops), op)
  {
    assert (ops + [op])[..|ops|] == ops;
  }

  /** A peer has an entry exactly when it had one, or some install named it validly. */
  lemma {:induction false} EntriesComeFromInstalls(t: Table, ops: seq<Op>, peerId: string)
    ensures peerId in Run(t, ops).discovered <==>
      peerId in t.discovered
      || (exists i :: 0 <= i < |ops| && ops[i].Install? && ops[i].peerId == peerId && ValidNodeId(peerId))
  {
    if ops != [] {
      var init, op := ops[..|ops| - 1], ops[|ops| - 1];
      EntriesComeFromInstalls(t, init, peerId);
      assert forall i :: 0 <= i < |init| ==> init[i] == ops[i];
      assert op == ops[|init|];
    }
  }

  // ---- a healthy direct path is not displaced by a relay ----------------------------------------

  lemma StickyStep(t: Table, op: Op, peerId: string, adapter: string, id: string)
    requires peerId in t.discovered && t.discovered[peerId].Direct()
    requires t.discovered[peerId].For(adapter, id) && t.discovered[peerId].Healthy()
    ensures peerId in Apply(t, op).discovered
    ensures Apply(t, op).discovered[peerId].For(adapter, id) ==> Apply(t, op).discovered[peerId].Direct()
  {
    if !Effective(t, op, peerId) { OneStep(t, op, peerId); }
  }

  ghost predicate HealthyFor(t: Table, peerId: string, adapter: string, id: string) {
    peerId in t.discovered && t.discovered[peerId].For(adapter, id) && t.discovered[peerId].Healthy()
  }

  /** Along any run, as long as a peer's entry stays healthy for one adapter and transport identity,
      an entry that started direct is still direct: it reaches a relay circuit for that adapter and
      identity only after passing through an unavailable state or another identity or adapter. */
  lemma {:induction false} DirectPathIsSticky(t: Table, ops: seq<Op>, peerId: string, adapter: string, id: string)
    requires peerId in t.discovered && t.discovered[peerId].Direct()
    requires forall k :: 0 <= k < |ops| ==> HealthyFor(Run(t, ops[..k]), peerId, adapter, id)
    ensures peerId in Run(t, ops).discovered
    ensures Run(t, ops).discovered[peerId].For(adapter, id) ==> Run(t, ops).discovered[peerId].Direct()
  {
    if ops != [] {
      var init := ops[..|ops| - 1];
      forall k | 0 <= k < |init| ensures HealthyFor(Run(t, init[..k]), peerId, adapter, id) {
        assert init[..k] == ops[..k];
      }
      DirectPathIsSticky(t, init, peerId, adapter, id);
      assert HealthyFor(Run(t, ops[..|init|]), peerId, adapter, id);
      StickyStep(Run(t, init), ops[|init|], peerId, adapter, id);
    }
  }

  // ---- authenticated evidence shadows locators ---------------------------------------------------

  /** Once a peer has authenticated evidence for an adapter and later installs keep that adapter, it
      resolves to that evidence when healthy and to nothing otherwise, whatever locators are replaced. */
  lemma {:induction false} EvidenceShadowsLocators(t: Table, ops: seq<Op>, peerId: string, adapter: string)
    requires peerId in t.discovered && t.discovered[peerId].adapter == adapter
    requires forall i :: 0 <= i < |ops| && ops[i].Install? && ops[i].peerId == peerId ==> ops[i].adapter == adapter
    ensures peerId in Run(t, ops).discovered && Run(t, ops).discovered[peerId].adapter == adapter
    ensures var route := Run(t, ops).discovered[peerId];
            Selected(Run(t, ops), peerId, Some(adapter)) == if route.Healthy() then Some(route) else None
  {
    if ops != [] {
      var init := ops[..|ops| - 1];
      EvidenceShadowsLocators(t, init, peerId, adapter);
      var before := Run(t, init);
      if !Effective(before, ops[|init|], peerId) { OneStep(before, ops[|init|], peerId); }
    }
  }

  // ---- no missed wake-up -------------------------------------------------------------------------

  /** Any single operation that makes the awaited condition true notifies the waiters; replacing
      runtime routes and reporting a route unavailable never make it true. */
  lemma WakeupsAreNotified(t: Table, op: Op, peerId: string, adapter: string)
    requires Valid(t) && !Connected(t, peerId, adapter) && Connected(Apply(t, op), peerId, adapter)
    ensures Notifies(t, op)
    ensures op.Install? || op.Contact?
  {
    ApplyKeepsValid(t, op);
  }

  /** Over any run that ends with the awaited condition true, there is a notification after which the
      condition held without interruption: a waiter that re-evaluates then cannot miss it. */
  lemma NoMissedWakeup(t: Table, ops: seq<Op>, peerId: string, adapter: string) returns (n: nat)
    requires Valid(t) && !Connected(t, peerId, adapter) && Connected(Run(t, ops), peerId, adapter)
    ensures n < |ops| && Notifies(Run(t, ops[..n]), ops[n])
    ensures !Connected(Run(t, ops[..n]), peerId, adapter)
    ensures forall k :: n < k <= |ops| ==> Connected(Run(t, ops[..k]), peerId, adapter)
  {
    assert ops[..|ops|] == ops;
    n := LastRise(t, ops, |ops|, peerId, adapter);
  }

  lemma {:induction false} LastRise(t: Table, ops: seq<Op>, m: nat, peerId: string, adapter: string) returns (n: nat)
    requires m <= |ops|
    requires Valid(t) && !Connected(t, peerId, adapter) && Connected(Run(t, ops[..m]), peerId, adapter)
    ensures n < m && Notifies(Run(t, ops[..n]), ops[n])
    ensures !Connected(Run(t, ops[..n]), peerId, adapter)
    ensures forall k :: n < k <= m ==> Connected(Run(t, ops[..k]), peerId, adapter)
    decreases m
  {
    assert m > 0;
    var before := Run(t, ops[..m - 1]);
    assert ops[..m][..m - 1] == ops[..m - 1];
    if Connected(before, peerId, adapter) {
      n := LastRise(t, ops, m - 1, peerId, adapter);
    } else {
      n := m - 1;
      RunKeepsValid(t, ops[..m - 1]);
      WakeupsAreNotified(before, ops[m - 1], peerId, adapter);
    }
  }

  // ---- listing the resolutions -------------------------------------------------------------------

  function Resolutions(t: Table, peers: seq<string>, adapter: Option<string>): seq<PeerRoute> {
    if peers == [] then []
    else
      var found := Selected(t, peers[|peers| - 1], adapter);
      Resolutions(t, peers[..|peers| - 1], adapter) + if found.Some? then [found.value] else []
  }

  lemma {:induction false} ResolutionsExact(t: Table, peers: seq<string>, adapter: Option<string>)
    requires Valid(t)
    requires forall i, j :: 0 <= i < j < |peers| ==> Less(peers[i], peers[j])
    ensures var rs := Resolutions(t, peers, adapter);
      && (forall i, j :: 0 <= i < j < |rs| ==> Less(rs[i].peerId, rs[j].peerId))
      && (forall r :: r in rs <==> r.peerId in peers && Selected(t, r.peerId, adapter) == Some(r))
  {
    if peers != [] {
      var init, last := peers[..|peers| - 1], peers[|peers| - 1];
      ResolutionsExact(t, init, adapter);
      SelectedIsKeyed(t, last, adapter);
      assert forall p :: p in peers <==> p in init || p == last;
      var before := Resolutions(t, init, adapter);
      assert forall i :: 0 <= i < |before| ==> before[i] in before;
    }
  }

  lemma AllResolutions(t: Table, peers: seq<string>, adapter: Option<string>)
    requires Valid(t) && SortedListing(peers, t.bootstrap.Keys + t.runtime.Keys + t.discovered.Keys)
    ensures var rs := Resolutions(t, peers, adapter);
      && (forall i, j :: 0 <= i < j < |rs| ==> Less(rs[i].peerId, rs[j].peerId))
      && (forall r :: r in rs <==> Selected(t, r.peerId, adapter) == Some(r))
  {
    ResolutionsExact(t, peers, adapter);
    assert forall p :: Selected(t, p, adapter).Some? ==> p in peers;
  }

  // ---- the table as an object --------------------------------------------------------------------

  class RoutingTable {
    var bootstrap: map<string, PeerRoute>
    var runtime: map<string, PeerRoute>
    var discovered: map<string, PeerRoute>
    /** How many times waiters have been notified. */
    var notifications: nat

    ghost function View(): Table
      reads this
    {
      Table(bootstrap, runtime, discovered)
    }

    constructor (routes: seq<PeerRoute>)
      ensures bootstrap == BootstrapRoutes(routes) && runtime == map[] && discovered == map[] && notifications == 0
      ensures Valid(View())
    {
      var m: map<string, PeerRoute> := map[];
      for k := 0 to |routes|
        invariant m == BootstrapRoutes(routes[..k])
      {
        assert routes[..k + 1][..k] == routes[..k];
        m := m[routes[k].peerId := routes[k].(source := BOOTSTRAP)];
      }
      assert routes[..|routes|] == routes;
      BootstrapRoutesKeyed(routes);
      bootstrap, runtime, discovered, notifications := m, map[], map[], 0;
    }

    /** Install an authenticated route, retaining a healthy direct path over a relay circuit. */
    method InstallDiscovered(peerId: string, endpoint: string, transportPeerId: string, adapter: string, source: string)
      returns (r: Result<PeerRoute>)
      modifies this`discovered, this`notifications
      ensures var op := Install(peerId, endpoint, transportPeerId, adapter, source);
        && View() == Apply(old(View()), op)
        && notifications == old(notifications) + (if Notifies(old(View()), op) then 1 else 0)
        && (r.Ok? <==> ValidNodeId(peerId))
        && (r.Ok? ==> peerId in discovered && r.value == discovered[peerId])
    {
      if !ValidNodeId(peerId) {
        return Err("invalid identifier");
      }
      var route := PeerRoute(peerId, None, None, Some(endpoint), adapter, source, Some(transportPeerId), true, true);
      if peerId in discovered {
        var current := discovered[peerId];
        if current.adapter == adapter && current.transportPeerId == Some(transportPeerId)
           && current.connected && current.reachable
           && current.endpoint != None && !IsCircuit(current.endpoint.value) && IsCircuit(endpoint) {
          return Ok(current);
        }
      }
      discovered := discovered[peerId := route];
      notifications := notifications + 1;
      r := Ok(route);
    }

    method MarkContact(peerId: string, used: Option<string>)
      modifies this`discovered, this`notifications
      ensures View() == Apply(old(View()), Contact(peerId, used))
      ensures notifications == old(notifications) + (if Notifies(old(View()), Contact(peerId, used)) then 1 else 0)
    {
      if peerId in discovered && (used == None || discovered[peerId].endpoint == used) {
        discovered := discovered[peerId := discovered[peerId].Observed(true)];
        notifications := notifications + 1;
      }
    }

    method MarkUnavailable(peerId: string, used: Option<string>)
      modifies this`discovered
      ensures View() == Apply(old(View()), Unavailable(peerId, used))
    {
      if peerId in discovered && (used == None || discovered[peerId].endpoint == used) {
        discovered := discovered[peerId := discovered[peerId].Observed(false)];
      }
    }

    method MarkTransportUnavailable(transportPeerId: string)
      modifies this`discovered
      ensures View() == Apply(old(View()), TransportDown(transportPeerId))
    {
      var left := discovered.Keys;
      while left != {}
        invariant discovered.Keys == old(discovered).Keys && left <= discovered.Keys
        invariant forall p :: p in discovered ==>
          (discovered[p] ==
            if p !in left && old(discovered)[p].transportPeerId == Some(transportPeerId)
            then old(discovered)[p].Observed(false) else old(discovered)[p])
        decreases |left|
      {
        var p :| p in left;
        left := left - {p};
        if discovered[p].transportPeerId == Some(transportPeerId) {
          discovered := discovered[p := discovered[p].Observed(false)];
        }
      }
    }

    /** Replace the runtime locators. An invalid peer name among the usable records raises before
        anything is stored. */
    method ReplaceFromRuntime(records: seq<Record>, adapter: string) returns (ok: bool)
      modifies this`runtime
      ensures ok <==> AllNamesValid(records)
      ensures View() == Apply(old(View()), ReplaceRuntime(records, adapter))
    {
      var dynamic: map<string, PeerRoute> := map[];
      for i := 0 to |records|
        invariant AllNamesValid(records[..i])
        invariant dynamic == RuntimeRoutes(records[..i], adapter)
      {
        assert records[..i + 1][..i] == records[..i];
        if Skipped(records[i]) { continue; }
        if !ValidNodeId(records[i].peerId.value) {
          return false;
        }
        dynamic := dynamic[records[i].peerId.value := RuntimeRoute(records[i], adapter)];
      }
      assert records[..|records|] == records;
      runtime := dynamic;
      ok := true;
    }

    method Resolve(peerId: string, adapter: string) returns (r: Result<PeerRoute>)
      ensures r.Ok? <==> Selected(View(), peerId, Some(adapter)).Some?
      ensures r.Ok? ==> Some(r.value) == Selected(View(), peerId, Some(adapter))
    {
      r := SelectedRoute(peerId, Some(adapter));
    }

    /** Only authenticated evidence is offered for an explicit retry, healthy or not. */
    method ResolveRetained(peerId: string, adapter: string) returns (r: Result<PeerRoute>)
      ensures r.Ok? <==> peerId in discovered && discovered[peerId].adapter == adapter
      ensures r.Ok? ==> r.value == discovered[peerId]
      ensures r.Ok? && r.value.Healthy() ==> Selected(View(), peerId, Some(adapter)) == Some(r.value)
    {
      if peerId in discovered && discovered[peerId].adapter == adapter {
        return Ok(discovered[peerId]);
      }
      r := Err("no authenticated transport route");
    }

    method SelectedRoute(peerId: string, adapter: Option<string>) returns (r: Result<PeerRoute>)
      ensures r.Ok? <==> Selected(View(), peerId, adapter).Some?
      ensures r.Ok? ==> Some(r.value) == Selected(View(), peerId, adapter)
    {
      if peerId in discovered && (adapter == None || discovered[peerId].adapter == adapter.value) {
        if discovered[peerId].connected && discovered[peerId].reachable {
          return Ok(discovered[peerId]);
        }
        return Err("no transport route");
      }
      if peerId in runtime && (adapter == None || runtime[peerId].adapter == adapter.value) {
        return Ok(runtime[peerId]);
      }
      if peerId in bootstrap && (adapter == None || bootstrap[peerId].adapter == adapter.value) {
        return Ok(bootstrap[peerId]);
      }
      r := Err("no transport route");
    }

    /** The highest-priority route of every known peer: exactly the successful resolutions, by peer. */
    method Routes(adapter: Option<string>) returns (rs: seq<PeerRoute>)
      requires Valid(View())
      ensures forall i, j :: 0 <= i < j < |rs| ==> Less(rs[i].peerId, rs[j].peerId)
      ensures forall r :: r in rs <==> Selected(View(), r.peerId, adapter) == Some(r)
    {
      var peers := Sort(bootstrap.Keys + runtime.Keys + discovered.Keys);
      ghost var t := View();
      rs := [];
      for k := 0 to |peers|
        invariant rs == Resolutions(t, peers[..k], adapter)
      {
        assert peers[..k + 1][..k] == peers[..k];
        var found := SelectedRoute(peers[k], adapter);
        if found.Ok? {
          rs := rs + [found.value];
        }
      }
      assert peers[..|peers|] == peers;
      AllResolutions(t, peers, adapter);
    }
  }
}
