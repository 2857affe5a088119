/** Authenticated route binding as a transition system.

    Outbound bind attempts, inbound bind streams, disconnect notices, LAN and relay discovery, send
    results and admission changes race over one set of per-peer maps. One step is one section of code
    that runs without an await and inside at most one lock; any other task may step in between.
    Steps of the event-loop thread additionally exclude each other while one of them holds the thread
    (`busy`): the code from reading the current route to installing the new one has no await in it.

    `bindings` stores tuples that the source compares by identity; `owner` names the attempt whose own
    tuple object is stored. */
module Binding {
  import opened Strings
  import opened Endpoints
  import R = Routing

  const ADAPTER := "libp2p"
  const SOURCE := "libp2p_discovery"
  const HINT_LIMIT := 64

  datatype Phase = Inflight | Healthy | Rejected | RetryQueued

  datatype Bind = Bind(endpoint: string, phase: Phase, owner: Option<nat>)

  datatype Hint = Hint(info: PeerInfo, node: string)

  /** Where an outbound attempt stands: waiting on the network, waiting for acceptance, and then,
      holding the event loop, deciding, installing and marking; or on its way out. */
  datatype OutPc = Connecting | Verified | Deciding | Installing | Marking | Ending

  datatype Outbound = Outbound(
    info: PeerInfo, endpoint: string, lan: bool, hint: Option<Hint>, expected: Option<string>,
    pc: OutPc, node: string, current: Option<R.PeerRoute>, healthy: bool)
  {
    function Peer(): string { info.peerId }
    predicate HoldsLoop() { pc.Deciding? || pc.Installing? || pc.Marking? }
  }

  datatype InPc = Exchanging | Choosing | Adopting | Recording | Answering

  datatype Inbound = Inbound(
    peer: string, endpoint: string, pc: InPc, node: string,
    current: Option<R.PeerRoute>, provenDirect: bool, retained: bool)
  {
    predicate HoldsLoop() { pc.Choosing? || pc.Adopting? || pc.Recording? }
  }

  /** An authenticated relay and its first address without trailing slashes. */
  datatype Relay = Relay(id: string, base: string)

  datatype Config = Config(localId: string, relayPeers: seq<string>)

  datatype State = State(
    config: Config,
    live: bool,                         // a host generation is published
    table: R.Table,
    candidates: map<string, PeerInfo>,  // bootstrap and relay candidates
    lan: map<string, PeerInfo>,         // LAN candidates and direct hints
    hints: map<string, Hint>,
    directBound: set<string>,
    ranks: map<string, nat>,
    notified: map<string, string>,
    inflight: set<string>,
    bindings: map<string, Bind>,
    dialed: map<string, string>,
    failedRelays: set<string>,
    outbound: map<nat, Outbound>,
    inbound: map<nat, Inbound>,
    busy: Option<nat>,
    nextId: nat,                        // numbers attempts and candidate objects
    spawned: seq<PeerInfo>,             // binds queued so far
    claims: set<(string, string)>)      // (node, transport identity) pairs verified so far

  /** Steps of an outbound attempt. */
  datatype OutStep =
    | Gate(info: PeerInfo)
    | OutDial(a: nat)
    | OutVerify(a: nat, node: string, direct: bool)
    | OutCheck(a: nat)
    | OutDecide(a: nat, won: bool)
    | OutInstall(a: nat)
    | OutMark(a: nat)
    | OutFail(a: nat)
    | OutCancel(a: nat)
    | OutEnd(a: nat)

  /** Steps of an inbound exchange. */
  datatype InStep =
    | InStart(peer: string, peerstore: Option<seq<string>>)
    | InVerify(a: nat, node: string)
    | InChoose(a: nat, direct: bool, relayed: bool)
    | InInstall(a: nat)
    | InMark(a: nat)
    | InRelease(a: nat)
    | InEnd(a: nat)

  /** Discovery and connection events. */
  datatype Discovery =
    | Disconnected(peer: string)
    | LanSeen(info: PeerInfo)
    | LanScheduled(info: PeerInfo)
    | LanGone(peer: string)
    | RssPeer(relay: Relay, peer: string)
    | RelayState(name: string, failed: bool)
    | HintSubmitted(info: PeerInfo, node: string)

  /** Delivery results, admission changes and host generations. */
  datatype Control =
    | RouteReport(op: R.Op)
    | SendFallback(destination: R.PeerRoute)
    | AdmissionChanged
    | AdmissionScheduled(peer: string, endpoint: string, info: PeerInfo)
    | AdmissionRestored(peer: string, endpoint: string)
    | Retire
    | Publish(bootstrap: seq<PeerInfo>)

  datatype Step = Out(out: OutStep) | In(inb: InStep) | Disc(disc: Discovery) | Ctl(ctl: Control)

  function Get<V>(m: map<string, V>, k: string): Option<V> {
    if k in m then Some(m[k]) else None
  }

  predicate Dialable(info: PeerInfo) { info.addrs != [] }

  /** Binds queued so far with one more, unless no generation is live to run it. */
  function Queue(s: State, info: PeerInfo): seq<PeerInfo> {
    if s.live then s.spawned + [info] else s.spawned
  }

  /** Attempt `a` stored the tuple that is still there. */
  predicate Owns(s: State, a: nat, peer: string) {
    peer in s.bindings && s.bindings[peer].owner == Some(a)
  }

  // ---- outbound attempts ----------------------------------------------------------------------

  predicate IsLan(s: State, info: PeerInfo) {
    info.peerId in s.lan && s.lan[info.peerId] == info
  }

  /** The gate of an outbound attempt: another relay is preferred, a direct path already won, an
      attempt is running, or this endpoint is already decided. */
  predicate GateOpen(s: State, info: PeerInfo) {
    && s.live && Dialable(info)
    && var peer, endpoint := info.peerId, PeerEndpoint(info);
       && !(peer in s.ranks && peer in s.candidates && !IsLan(s, info)
            && (!Dialable(s.candidates[peer]) || PeerEndpoint(s.candidates[peer]) != endpoint))
       && !(peer in s.directBound && !IsLan(s, info))
       && peer !in s.inflight
       && !Decided(s, peer, endpoint)
  }

  function ApplyGate(s: State, info: PeerInfo): State {
    if !GateOpen(s, info) then s
    else
      var peer, endpoint := info.peerId, PeerEndpoint(info);
      var hint := Get(s.hints, peer);
      var expected := if hint.Some? && hint.value.info == info then Some(hint.value.node) else None;
      s.(inflight := s.inflight + {peer},
         bindings := s.bindings[peer := Bind(endpoint, Inflight, Some(s.nextId))],
         outbound := s.outbound[s.nextId :=
           Outbound(info, endpoint, IsLan(s, info), hint, expected, Connecting, "", None, false)],
         nextId := s.nextId + 1)
  }

  predicate ViaCircuit(info: PeerInfo) {
    exists i :: 0 <= i < |info.addrs| && MentionsCircuit(info.addrs[i])
  }

  function ApplyOutDial(s: State, a: nat): State
    requires a in s.outbound
  {
    var o := s.outbound[a];
    if ViaCircuit(o.info) then s.(dialed := s.dialed[o.Peer() := o.endpoint]) else s
  }

  /** A LAN attempt goes on only over a connection observed to be direct, and a hinted one only if the
      expected node answered. */
  function ApplyOutVerify(s: State, a: nat, node: string): State
    requires a in s.outbound
  {
    s.(claims := s.claims + {(node, s.outbound[a].Peer())},
       outbound := s.outbound[a := s.outbound[a].(pc := Verified, node := node)])
  }

  function Entry(table: R.Table, node: string): Option<R.PeerRoute> {
    if node in table.discovered && table.discovered[node].adapter == ADAPTER
    then Some(table.discovered[node]) else None
  }

  function ApplyOutCheck(s: State, a: nat): State
    requires a in s.outbound
  {
    s.(busy := Some(a),
       outbound := s.outbound[a := s.outbound[a].(pc := Deciding, current := Entry(s.table, s.outbound[a].node))])
  }

  predicate DirectWon(s: State, o: Outbound) {
    && !o.lan && o.Peer() in s.lan && Dialable(s.lan[o.Peer()]) && o.current.Some?
    && o.current.value.transportPeerId == Some(o.Peer()) && o.current.value.Healthy()
    && o.current.value.endpoint == Some(PeerEndpoint(s.lan[o.Peer()]))
  }

  /** The LAN path is already bound: leave it, recorded as this peer's healthy endpoint. */
  function Concede(s: State, a: nat, endpoint: string): State
    requires a in s.outbound
  {
    var o := s.outbound[a];
    s.(directBound := s.directBound + {o.Peer()},
       bindings := if Owns(s, a, o.Peer()) then s.bindings[o.Peer() := Bind(endpoint, Healthy, None)] else s.bindings,
       busy := None,
       outbound := s.outbound[a := o.(pc := Ending)])
  }

  function CurrentEndpoint(o: Outbound): string {
    if o.current.Some? && o.current.value.endpoint.Some? then o.current.value.endpoint.value else ""
  }

  function ApplyOutDecide(s: State, a: nat, won: bool): State
    requires a in s.outbound
  {
    if won then Concede(s, a, CurrentEndpoint(s.outbound[a]))
    else s.(outbound := s.outbound[a := s.outbound[a].(pc := Installing)])
  }

  function OutOp(o: Outbound): R.Op { R.Install(o.node, o.endpoint, o.Peer(), ADAPTER, SOURCE) }

  function ApplyOutInstall(s: State, a: nat): State
    requires a in s.outbound
  {
    s.(table := R.Apply(s.table, OutOp(s.outbound[a])), outbound := s.outbound[a := s.outbound[a].(pc := Marking)])
  }

  function ApplyOutMark(s: State, a: nat): State
    requires a in s.outbound
  {
    var o := s.outbound[a];
    var mine := Owns(s, a, o.Peer());
    s.(bindings := if mine then s.bindings[o.Peer() := Bind(o.endpoint, Healthy, None)] else s.bindings,
       directBound := if !mine then s.directBound
                      else if o.lan then s.directBound + {o.Peer()} else s.directBound - {o.Peer()},
       busy := None,
       outbound := s.outbound[a := o.(pc := Ending, healthy := true)])
  }

  function ApplyOutFail(s: State, a: nat): State
    requires a in s.outbound
  {
    var o := s.outbound[a];
    s.(bindings := if Owns(s, a, o.Peer())
                   then s.bindings[o.Peer() := Bind(o.endpoint, Rejected, None)] else s.bindings,
       busy := None,
       outbound := s.outbound[a := o.(pc := Ending)])
  }

  /** Cancellation forgets the attempt's tuple, and a notification of the very endpoint it tried. */
  function ApplyOutCancel(s: State, a: nat): State
    requires a in s.outbound
  {
    var o := s.outbound[a];
    var mine := Owns(s, a, o.Peer());
    s.(bindings := if mine then s.bindings - {o.Peer()} else s.bindings,
       notified := if mine && Get(s.notified, o.Peer()) == Some(o.endpoint)
                   then s.notified - {o.Peer()} else s.notified,
       outbound := s.outbound[a := o.(pc := Ending)])
  }

  function Selected(s: State, o: Outbound): Option<PeerInfo> {
    if o.lan && !o.healthy then Get(s.candidates, o.Peer())
    else if o.Peer() in s.lan then Some(s.lan[o.Peer()])
    else Get(s.candidates, o.Peer())
  }

  function NotifiedAtEnd(s: State, o: Outbound): map<string, string> {
    if o.lan && !o.healthy && o.Peer() in s.candidates && Dialable(s.candidates[o.Peer()])
    then s.notified[o.Peer() := PeerEndpoint(s.candidates[o.Peer()])]
    else s.notified
  }

  /** The candidate to try next: the preferred endpoint changed while this peer was busy. */
  predicate FollowUp(s: State, o: Outbound) {
    var next := Selected(s, o);
    && next.Some? && Dialable(next.value)
    && PeerEndpoint(next.value) != o.endpoint
    && Get(NotifiedAtEnd(s, o), o.Peer()) == Some(PeerEndpoint(next.value))
  }

  function ApplyOutEnd(s: State, a: nat): State
    requires a in s.outbound
  {
    var o := s.outbound[a];
    s.(inflight := s.inflight - {o.Peer()},
       notified := NotifiedAtEnd(s, o),
       outbound := s.outbound - {a},
       spawned := if FollowUp(s, o) then Queue(s, Selected(s, o).value) else s.spawned)
  }

  // ---- inbound exchanges ----------------------------------------------------------------------

  function ApplyInStart(s: State, peer: string, peerstore: Option<seq<string>>): State {
    var endpoint := PeerstoreEndpoint(peerstore, peer);
    s.(bindings := s.bindings[peer := Bind(endpoint, Inflight, Some(s.nextId))],
       inbound := s.inbound[s.nextId := Inbound(peer, endpoint, Exchanging, "", None, false, false)],
       nextId := s.nextId + 1)
  }

  function ApplyInVerify(s: State, a: nat, node: string): State
    requires a in s.inbound
  {
    s.(claims := s.claims + {(node, s.inbound[a].peer)},
       busy := Some(a),
       inbound := s.inbound[a := s.inbound[a].(pc := Choosing, node := node, current := Entry(s.table, node))])
  }

  /** A LAN candidate is known and the stream is observed to be direct. */
  predicate LanDirect(s: State, i: Inbound, direct: bool) {
    direct && i.peer in s.lan && Dialable(s.lan[i.peer])
  }

  /** The endpoint an inbound binding installs. `direct` and `relayed` are what the stream's observed
      connection metadata proves. */
  function InEndpoint(s: State, i: Inbound, direct: bool, relayed: bool): string {
    var endpoint := if LanDirect(s, i, direct) then PeerEndpoint(s.lan[i.peer]) else i.endpoint;
    if && i.current.Some? && i.current.value.transportPeerId == Some(i.peer) && i.current.value.Healthy()
       && i.peer in s.directBound && R.IsCircuit(endpoint) && i.current.value.endpoint.Some?
    then i.current.value.endpoint.value
    else if && i.current.Some? && i.current.value.transportPeerId == Some(i.peer)
            && i.current.value.endpoint.Some? && R.IsCircuit(i.current.value.endpoint.value)
            && !R.IsCircuit(endpoint) && !LanDirect(s, i, direct)
    then i.current.value.endpoint.value
    else if !R.IsCircuit(endpoint) && relayed
    then SelectedCircuitFor(if i.peer in s.dialed then s.dialed[i.peer] else "", i.peer)
    else endpoint
  }

  function ApplyInChoose(s: State, a: nat, direct: bool, relayed: bool): State
    requires a in s.inbound
  {
    var i := s.inbound[a];
    var endpoint := InEndpoint(s, i, direct, relayed);
    s.(inbound := s.inbound[a := i.(
      endpoint := endpoint, provenDirect := LanDirect(s, i, direct),
      pc := if endpoint == "" then Recording else Adopting)])
  }

  function InOp(i: Inbound): R.Op { R.Install(i.node, i.endpoint, i.peer, ADAPTER, SOURCE) }

  function ApplyInInstall(s: State, a: nat): State
    requires a in s.inbound
  {
    var i := s.inbound[a];
    var table := R.Apply(s.table, InOp(i));
    var kept := if i.node in table.discovered && table.discovered[i.node].endpoint.Some?
                then table.discovered[i.node].endpoint.value else i.endpoint;
    s.(table := table,
       inbound := s.inbound[a := i.(
         endpoint := kept, pc := Recording,
         retained := kept != i.endpoint && R.IsCircuit(i.endpoint) && !R.IsCircuit(kept))])
  }

  function ApplyInMark(s: State, a: nat): State
    requires a in s.inbound
  {
    var i := s.inbound[a];
    var mine := Owns(s, a, i.peer);
    s.(bindings := if mine then s.bindings[i.peer := Bind(i.endpoint, Healthy, None)] else s.bindings,
       directBound := if mine && (i.provenDirect || i.retained) then s.directBound + {i.peer} else s.directBound,
       busy := None,
       inbound := s.inbound[a := i.(pc := Answering)])
  }

  /** Rejection, deadline or cancellation: release the tuple this exchange still owns and end. */
  function ApplyInRelease(s: State, a: nat): State
    requires a in s.inbound
  {
    var peer := s.inbound[a].peer;
    s.(bindings := if Owns(s, a, peer)
                   then s.bindings[peer := Bind(s.bindings[peer].endpoint, Rejected, None)] else s.bindings,
       busy := None,
       inbound := s.inbound - {a})
  }

  // ---- connection, discovery and delivery events ------------------------------------------------

  /** The last connection to a peer closed. While a bind runs, that bind owns the peer's state. */
  function ApplyDisconnected(s: State, peer: string): State {
    if peer in s.inflight then s
    else s.(bindings := s.bindings - {peer}, notified := s.notified - {peer},
            directBound := s.directBound - {peer},
            spawned := if peer in s.candidates then Queue(s, s.candidates[peer]) else s.spawned)
  }

  /** The peer is already bound, being bound or rejected at this endpoint. */
  predicate Decided(s: State, peer: string, endpoint: string) {
    && peer in s.bindings && s.bindings[peer].endpoint == endpoint
    && s.bindings[peer].phase in {Healthy, Inflight, Rejected}
  }

  function ApplyLanSeen(s: State, info: PeerInfo): State {
    var peer := info.peerId;
    if !s.live || peer == s.config.localId || !Dialable(info) then s
    else s.(lan := s.lan[peer := info],
            notified := if Decided(s, peer, PeerEndpoint(info)) then s.notified
                        else s.notified[peer := PeerEndpoint(info)])
  }

  function ApplyLanScheduled(s: State, info: PeerInfo): State {
    if IsLan(s, info) then s.(spawned := Queue(s, info)) else s
  }

  function ApplyLanGone(s: State, peer: string): State {
    if s.live then s.(lan := s.lan - {peer}) else s
  }

  /** A transport identity the multiaddress parser accepts. */
  predicate PeerName(id: string) {
    id != "" && forall i :: 0 <= i < |id| ==> '0' <= id[i] <= '9' || 'A' <= id[i] <= 'Z' || 'a' <= id[i] <= 'z'
  }

  /** Text before the first occurrence of `sep`, or all of it. */
  function BeforeFirst(text: string, sep: string): string {
    if text == "" || StartsWith(text, sep) then "" else [text[0]] + BeforeFirst(text[1..], sep)
  }

  /** Text after the last occurrence of `sep`, or all of it. */
  function AfterLast(text: string, sep: string): string {
    if text == "" then ""
    else if Contains(text[1..], sep) then AfterLast(text[1..], sep)
    else if sep != "" && StartsWith(text, sep) then text[|sep|..]
    else text
  }

  /** The relay a circuit endpoint runs through. */
  function RelayOf(circuit: string): string {
    AfterLast(BeforeFirst(circuit, R.CIRCUIT), "/p2p/")
  }

  function CircuitAddress(relay: Relay): string {
    relay.base + "/p2p/" + relay.id + "/p2p-circuit"
  }

  /** The circuit to `peer` through `relay`. */
  function CircuitEndpoint(relay: Relay, peer: string): string {
    CircuitAddress(relay) + "/p2p/" + peer
  }

  function CircuitInfo(oid: nat, relay: Relay, peer: string): PeerInfo {
    PeerInfo(oid, peer, [CircuitAddress(relay)])
  }

  /** Position of a relay among the configured endpoints; an unlisted one comes last. */
  function Rank(relayPeers: seq<string>, relay: string): nat {
    if relayPeers == [] || Contains(relayPeers[0], "/p2p/" + relay) then 0
    else 1 + Rank(relayPeers[1..], relay)
  }

  /** The endpoint currently selected for a peer through a relay. */
  function SelectedEndpoint(s: State, peer: string): Option<string> {
    if peer in s.candidates && Dialable(s.candidates[peer]) then Some(PeerEndpoint(s.candidates[peer]))
    else Get(s.notified, peer)
  }

  /** A better-ranked relay that has not failed already serves this peer. */
  predicate Outranked(s: State, relay: Relay, peer: string) {
    && peer in s.ranks && SelectedEndpoint(s, peer).Some?
    && s.ranks[peer] < Rank(s.config.relayPeers, relay.id)
    && RelayOf(SelectedEndpoint(s, peer).value) !in s.failedRelays
  }

  /** This reply changes the candidate of `peer`. */
  predicate Adopts(s: State, relay: Relay, peer: string) {
    && peer != s.config.localId
    && !Outranked(s, relay, peer)
    && Get(s.notified, peer) != Some(CircuitEndpoint(relay, peer))
  }

  /** File the circuit through `relay` as the candidate of `peer`. A peer with a direct binding keeps it
      for later without being notified. */
  function Adopt(s: State, relay: Relay, peer: string, rank: nat): State {
    var info := CircuitInfo(s.nextId, relay, peer);
    var direct := peer in s.directBound;
    s.(ranks := s.ranks[peer := rank],
       candidates := s.candidates[peer := info],
       nextId := s.nextId + 1,
       notified := if direct then s.notified else s.notified[peer := CircuitEndpoint(relay, peer)],
       spawned := if direct then s.spawned else Queue(s, info))
  }

  /** One peer of an authenticated relay's reply. */
  function ApplyRssPeer(s: State, relay: Relay, peer: string): State {
    if Adopts(s, relay, peer) then Adopt(s, relay, peer, Rank(s.config.relayPeers, relay.id)) else s
  }

  function ApplyRelayState(s: State, name: string, failed: bool): State {
    s.(failedRelays := if failed then s.failedRelays + {name} else s.failedRelays - {name})
  }

  /** A direct delivery failed and a relay candidate is retained. */
  predicate FallsBack(s: State, destination: R.PeerRoute) {
    && destination.transportPeerId.Some?
    && !(destination.endpoint.Some? && R.IsCircuit(destination.endpoint.value))
    && var peer := destination.transportPeerId.value;
       && peer in s.directBound && peer in s.candidates && Dialable(s.candidates[peer])
       && R.IsCircuit(PeerEndpoint(s.candidates[peer]))
  }

  function ApplySendFallback(s: State, destination: R.PeerRoute): State {
    if !FallsBack(s, destination) then s
    else
      var peer := destination.transportPeerId.value;
      s.(directBound := s.directBound - {peer}, bindings := s.bindings - {peer},
         notified := s.notified[peer := PeerEndpoint(s.candidates[peer])],
         spawned := Queue(s, s.candidates[peer]))
  }

  /** A rejected binding whose candidate is still known is retried after an admission change. */
  predicate Retries(s: State, peer: string) {
    && peer in s.bindings && s.bindings[peer].phase == Rejected
    && var info := if peer in s.candidates then Get(s.candidates, peer) else Get(s.lan, peer);
       info.Some? && Dialable(info.value) && PeerEndpoint(info.value) == s.bindings[peer].endpoint
  }

  function ApplyAdmissionChanged(s: State): State {
    if !s.live then s
    else s.(bindings := map p | p in s.bindings ::
              if Retries(s, p) then Bind(s.bindings[p].endpoint, RetryQueued, None) else s.bindings[p])
  }

  predicate Queued(s: State, peer: string, endpoint: string) {
    peer in s.bindings && s.bindings[peer].endpoint == endpoint && s.bindings[peer].phase == RetryQueued
  }

  function ApplyAdmissionScheduled(s: State, peer: string, endpoint: string, info: PeerInfo): State {
    if Queued(s, peer, endpoint) then s.(spawned := Queue(s, info)) else s
  }

  function ApplyAdmissionRestored(s: State, peer: string, endpoint: string): State {
    if Queued(s, peer, endpoint) then s.(bindings := s.bindings[peer := Bind(endpoint, Rejected, None)]) else s
  }

  function ApplyHint(s: State, info: PeerInfo, node: string): State {
    var peer := info.peerId;
    if !s.live || !Dialable(info) || peer == s.config.localId then s
    else if peer !in s.hints && |s.hints| >= HINT_LIMIT then s
    else
      var endpoint := PeerEndpoint(info);
      var same := peer in s.hints && s.hints[peer].node == node && Dialable(s.hints[peer].info)
                  && s.hints[peer].info.peerId == peer && PeerEndpoint(s.hints[peer].info) == endpoint;
      var selected := if same then s.hints[peer].info else info;
      var retry := peer in s.bindings && s.bindings[peer].endpoint == endpoint && s.bindings[peer].phase == Rejected;
      s.(hints := if same then s.hints else s.hints[peer := Hint(info, node)],
         lan := s.lan[peer := selected],
         bindings := if retry then s.bindings[peer := Bind(endpoint, RetryQueued, None)] else s.bindings,
         spawned := Queue(s, selected))
  }

  // ---- host generations -----------------------------------------------------------------------

  function ApplyRetire(s: State): State {
    s.(live := false, candidates := map[], lan := map[], hints := map[], directBound := {}, ranks := map[],
       notified := map[], inflight := {}, bindings := map[], dialed := map[], failedRelays := {})
  }

  predicate AllDialable(infos: seq<PeerInfo>) { forall info :: info in infos ==> Dialable(info) }

  function Others(infos: seq<PeerInfo>, localId: string): seq<PeerInfo> {
    if infos == [] then []
    else (if infos[0].peerId == localId then [] else [infos[0]]) + Others(infos[1..], localId)
  }

  function Bootstrapped(candidates: map<string, PeerInfo>, infos: seq<PeerInfo>): map<string, PeerInfo>
    decreases |infos|
  {
    if infos == [] then candidates else Bootstrapped(candidates[infos[0].peerId := infos[0]], infos[1..])
  }

  function ApplyPublish(s: State, infos: seq<PeerInfo>): State {
    var others := Others(infos, s.config.localId);
    s.(live := true, candidates := Bootstrapped(s.candidates, others), spawned := s.spawned + others)
  }

  // ---- the transition relation ------------------------------------------------------------------

  predicate LoopFree(s: State) { s.busy == None }

  predicate OutEnabled(s: State, step: OutStep) {
    match step
    case Gate(_) => LoopFree(s)
    case OutDial(a) => LoopFree(s) && a in s.outbound && s.outbound[a].pc.Connecting?
    case OutVerify(a, node, direct) =>
      && LoopFree(s) && a in s.outbound && s.outbound[a].pc.Connecting?
      && (s.outbound[a].lan ==> direct)
      && (s.outbound[a].expected.Some? ==> node == s.outbound[a].expected.value)
    case OutCheck(a) =>
      && LoopFree(s) && a in s.outbound && s.outbound[a].pc.Verified? && s.live
      && (s.outbound[a].hint.Some? ==> Get(s.hints, s.outbound[a].Peer()) == s.outbound[a].hint)
    case OutDecide(a, won) => a in s.outbound && s.outbound[a].pc.Deciding? && won == DirectWon(s, s.outbound[a])
    case OutInstall(a) => a in s.outbound && s.outbound[a].pc.Installing? && R.ValidNodeId(s.outbound[a].node)
    case OutMark(a) => a in s.outbound && s.outbound[a].pc.Marking?
    case OutFail(a) => a in s.outbound && !s.outbound[a].pc.Ending? && (LoopFree(s) || s.busy == Some(a))
    case OutCancel(a) => LoopFree(s) && a in s.outbound && (s.outbound[a].pc.Connecting? || s.outbound[a].pc.Verified?)
    case OutEnd(a) => LoopFree(s) && a in s.outbound && s.outbound[a].pc.Ending?
  }

  predicate InEnabled(s: State, step: InStep) {
    match step
    case InStart(_, _) => LoopFree(s) && s.live
    case InVerify(a, _) => LoopFree(s) && a in s.inbound && s.inbound[a].pc.Exchanging?
    case InChoose(a, _, _) => a in s.inbound && s.inbound[a].pc.Choosing?
    case InInstall(a) => a in s.inbound && s.inbound[a].pc.Adopting? && R.ValidNodeId(s.inbound[a].node)
    case InMark(a) => a in s.inbound && s.inbound[a].pc.Recording?
    case InRelease(a) => a in s.inbound && (LoopFree(s) || s.busy == Some(a))
    case InEnd(a) => LoopFree(s) && a in s.inbound && s.inbound[a].pc.Answering?
  }

  /** LAN announcements and direct hints are addresses and ports only, never circuits. LAN callbacks run on a
      thread of their own; the other discovery events run on the event loop. */
  predicate DiscEnabled(s: State, step: Discovery) {
    match step
    case LanSeen(info) => Plain(info)
    case HintSubmitted(info, _) => LoopFree(s) && Plain(info)
    case LanGone(_) => true
    case RssPeer(_, peer) => LoopFree(s) && s.live && PeerName(peer)
    case _ => LoopFree(s)
  }

  /** Sends and admission changes come from other threads. A new generation is published only after
      every attempt of the previous one has ended. */
  predicate CtlEnabled(s: State, step: Control) {
    match step
    case RouteReport(op) => !op.Install?
    case AdmissionScheduled(_, _, _) => LoopFree(s)
    case Retire => LoopFree(s) && s.live
    case Publish(infos) => LoopFree(s) && !s.live && s.outbound == map[] && s.inbound == map[] && AllDialable(infos)
    case _ => true
  }

  /** When a step can be taken. Failing branches of the source are the steps `OutFail` and `InRelease`,
      which are enabled wherever an exception can be raised. */
  predicate Enabled(s: State, step: Step) {
    match step
    case Out(out) => OutEnabled(s, out)
    case In(inb) => InEnabled(s, inb)
    case Disc(disc) => DiscEnabled(s, disc)
    case Ctl(ctl) => CtlEnabled(s, ctl)
  }

  function OutNext(s: State, step: OutStep): State
    requires OutEnabled(s, step)
  {
    match step
    case Gate(info) => ApplyGate(s, info)
    case OutDial(a) => ApplyOutDial(s, a)
    case OutVerify(a, node, _) => ApplyOutVerify(s, a, node)
    case OutCheck(a) => ApplyOutCheck(s, a)
    case OutDecide(a, won) => ApplyOutDecide(s, a, won)
    case OutInstall(a) => ApplyOutInstall(s, a)
    case OutMark(a) => ApplyOutMark(s, a)
    case OutFail(a) => ApplyOutFail(s, a)
    case OutCancel(a) => ApplyOutCancel(s, a)
    case OutEnd(a) => ApplyOutEnd(s, a)
  }

  function InNext(s: State, step: InStep): State
    requires InEnabled(s, step)
  {
    match step
    case InStart(peer, peerstore) => ApplyInStart(s, peer, peerstore)
    case InVerify(a, node) => ApplyInVerify(s, a, node)
    case InChoose(a, direct, relayed) => ApplyInChoose(s, a, direct, relayed)
    case InInstall(a) => ApplyInInstall(s, a)
    case InMark(a) => ApplyInMark(s, a)
    case InRelease(a) => ApplyInRelease(s, a)
    case InEnd(a) => s.(inbound := s.inbound - {a})
  }

  function DiscNext(s: State, step: Discovery): State {
    match step
    case Disconnected(peer) => ApplyDisconnected(s, peer)
    case LanSeen(info) => ApplyLanSeen(s, info)
    case LanScheduled(info) => ApplyLanScheduled(s, info)
    case LanGone(peer) => ApplyLanGone(s, peer)
    case RssPeer(relay, peer) => ApplyRssPeer(s, relay, peer)
    case RelayState(name, failed) => ApplyRelayState(s, name, failed)
    case HintSubmitted(info, node) => ApplyHint(s, info, node)
  }

  function CtlNext(s: State, step: Control): State {
    match step
    case RouteReport(op) => s.(table := R.Apply(s.table, op))
    case SendFallback(destination) => ApplySendFallback(s, destination)
    case AdmissionChanged => ApplyAdmissionChanged(s)
    case AdmissionScheduled(peer, endpoint, info) => ApplyAdmissionScheduled(s, peer, endpoint, info)
    case AdmissionRestored(peer, endpoint) => ApplyAdmissionRestored(s, peer, endpoint)
    case Retire => ApplyRetire(s)
    case Publish(infos) => ApplyPublish(s, infos)
  }

  function Next(s: State, step: Step): State
    requires Enabled(s, step)
  {
    match step
    case Out(out) => OutNext(s, out)
    case In(inb) => InNext(s, inb)
    case Disc(disc) => DiscNext(s, disc)
    case Ctl(ctl) => CtlNext(s, ctl)
  }

  function Initial(config: Config, table: R.Table): State {
    State(config, false, table, map[], map[], map[], {}, map[], map[], {}, map[], map[], {}, map[], map[], None, 0,
      [], {})
  }

  /** `trace` is a run: each state follows from the previous one by an enabled step. */
  ghost predicate IsRun(trace: seq<State>, steps: seq<Step>) {
    && |trace| == |steps| + 1
    && forall k :: 0 <= k < |steps| ==> Enabled(trace[k], steps[k]) && trace[k + 1] == Next(trace[k], steps[k])
  }
}
