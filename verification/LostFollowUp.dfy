/** A run in which a relay route announced while an attempt runs leads to no further bind.

    A peer has a healthy direct route that did not come from the LAN, and an attempt over some other address
    of it is under way. A relay lists the peer: its circuit is announced, and the bind queued for it finds
    the peer busy. Then the peer binds inbound over a circuit, its direct route is retained and it counts as
    directly bound. A better relay lists it: the new circuit replaces the candidate without being announced,
    and when the attempt fails nothing is queued. */
module LostFollowUp {
  import opened Strings
  import opened Endpoints
  import opened Binding
  import opened BindingSafety
  import opened BindingRuns
  import opened FollowUps
  import R = Routing

  /** The peer, its node, the candidate being tried, the two relays, and what the peerstore holds for its two
      inbound exchanges. */
  datatype Scene = Scene(
    peer: string, node: string, other: PeerInfo, first: Relay, better: Relay,
    plain: Option<seq<string>>, relayed: Option<seq<string>>)

  /** The endpoint being tried. */
  function Tried(x: Scene): string
    requires Dialable(x.other)
  {
    PeerEndpoint(x.other)
  }

  predicate Plausible(c: Config, x: Scene) {
    && PeerName(x.peer) && x.peer != c.localId && R.ValidNodeId(x.node)
    && x.other.peerId == x.peer && Dialable(x.other) && Tried(x) != PeerstoreEndpoint(x.plain, x.peer)
    && Tried(x) != CircuitEndpoint(x.first, x.peer) && Tried(x) != CircuitEndpoint(x.better, x.peer)
    && PeerstoreEndpoint(x.plain, x.peer) != "" && !R.IsCircuit(PeerstoreEndpoint(x.plain, x.peer))
    && PeerstoreEndpoint(x.relayed, x.peer) != "" && R.IsCircuit(PeerstoreEndpoint(x.relayed, x.peer))
    && CircuitEndpoint(x.first, x.peer) != CircuitEndpoint(x.better, x.peer)
    && Rank(c.relayPeers, x.better.id) <= Rank(c.relayPeers, x.first.id)
  }

  // ---- composing runs -------------------------------------------------------------------------------------

  ghost predicate RunFrom(trace: seq<State>, steps: seq<Step>, s: State, s': State) {
    IsRun(trace, steps) && trace[0] == s && trace[|steps|] == s'
  }

  /** All states of a stretch keep attempt `a` running without LAN candidate for its peer. */
  ghost predicate Keeps(trace: seq<State>, a: nat, peer: string) {
    forall k :: 0 <= k < |trace| ==> trace[k].live && peer !in trace[k].lan && a in trace[k].outbound
  }

  lemma One(s: State, step: Step) returns (trace: seq<State>, steps: seq<Step>)
    requires Enabled(s, step)
    ensures RunFrom(trace, steps, s, Next(s, step)) && trace == [s, Next(s, step)] && steps == [step]
  {
    trace, steps := [s, Next(s, step)], [step];
  }

  lemma Chain(t1: seq<State>, s1: seq<Step>, t2: seq<State>, s2: seq<Step>)
    requires IsRun(t1, s1) && IsRun(t2, s2) && t1[|s1|] == t2[0]
    ensures IsRun(t1 + t2[1..], s1 + s2) && (t1 + t2[1..])[0] == t1[0]
    ensures forall k :: 0 <= k < |t2| ==> (t1 + t2[1..])[|s1| + k] == t2[k]
  {
    var t, s := t1 + t2[1..], s1 + s2;
    forall k | 0 <= k < |s| ensures Enabled(t[k], s[k]) && t[k + 1] == Next(t[k], s[k]) {
      if k < |s1| {
        assert t[k] == t1[k] && t[k + 1] == t1[k + 1] && s[k] == s1[k];
      } else {
        var j := k - |s1|;
        assert t[k] == t2[j] && t[k + 1] == t2[j + 1] && s[k] == s2[j];
      }
    }
  }

  // ---- one inbound exchange -------------------------------------------------------------------------------

  /** What an exchange does not touch. */
  predicate Apart(s: State, s': State) {
    && s'.config == s.config && s'.live == s.live && s'.lan == s.lan && s'.hints == s.hints
    && s'.candidates == s.candidates && s'.ranks == s.ranks && s'.notified == s.notified
    && s'.outbound == s.outbound && s'.inflight == s.inflight && s'.spawned == s.spawned
    && s'.failedRelays == s.failedRelays
  }

  function InstallOf(x: Scene, endpoint: string): R.Op { R.Install(x.node, endpoint, x.peer, ADAPTER, SOURCE) }

  /** An exchange has installed `endpoint`, or kept a direct route instead, and owns the peer's tuple. */
  predicate Exchanged(s: State, s': State, x: Scene, endpoint: string) {
    && Apart(s, s') && s'.busy == None && s'.nextId == s.nextId + 1
    && s'.table == R.Apply(s.table, InstallOf(x, endpoint))
    && s.nextId in s'.inbound && s'.inbound[s.nextId].pc.Answering?
    && x.node in s'.table.discovered && s'.table.discovered[x.node].endpoint.Some?
    && var kept := s'.table.discovered[x.node].endpoint.value;
       && s'.bindings == s.bindings[x.peer := Bind(kept, Healthy, None)]
       && s'.directBound ==
            if kept != endpoint && R.IsCircuit(endpoint) && !R.IsCircuit(kept) then s.directBound + {x.peer}
            else s.directBound
  }

  /** State of exchange `n` after a step: its record, and everything else but its tuple as before. */
  predicate During(s: State, t: State, x: Scene, i: Inbound, table: R.Table) {
    && Apart(s, t) && t.nextId == s.nextId + 1 && t.directBound == s.directBound && t.table == table
    && s.nextId in t.inbound && t.inbound[s.nextId] == i && i.peer == x.peer
    && Owns(t, s.nextId, x.peer) && t.bindings == s.bindings[x.peer := t.bindings[x.peer]]
    && t.busy == if i.HoldsLoop() then Some(s.nextId) else None
  }

  lemma Starts(s: State, x: Scene, peerstore: Option<seq<string>>) returns (t: State, i: Inbound)
    requires s.live && s.busy == None
    ensures Enabled(s, In(InStart(x.peer, peerstore))) && t == Next(s, In(InStart(x.peer, peerstore)))
    ensures i == Inbound(x.peer, PeerstoreEndpoint(peerstore, x.peer), Exchanging, "", None, false, false)
    ensures During(s, t, x, i, s.table)
  {
    t := ApplyInStart(s, x.peer, peerstore);
    i := t.inbound[s.nextId];
  }

  lemma Verified(s: State, t: State, x: Scene, i: Inbound) returns (t': State, i': Inbound)
    requires During(s, t, x, i, s.table) && i.pc.Exchanging?
    ensures Enabled(t, In(InVerify(s.nextId, x.node))) && t' == Next(t, In(InVerify(s.nextId, x.node)))
    ensures i' == i.(pc := Choosing, node := x.node, current := Entry(s.table, x.node)) && During(s, t', x, i', s.table)
  {
    t' := ApplyInVerify(t, s.nextId, x.node);
    i' := t'.inbound[s.nextId];
  }

  lemma Chosen(s: State, t: State, x: Scene, i: Inbound) returns (t': State, i': Inbound)
    requires During(s, t, x, i, s.table) && i.pc.Choosing? && x.peer !in s.directBound && i.endpoint != ""
    requires R.IsCircuit(i.endpoint) || i.current.None?
    ensures Enabled(t, In(InChoose(s.nextId, false, false))) && t' == Next(t, In(InChoose(s.nextId, false, false)))
    ensures i' == i.(pc := Adopting, provenDirect := false) && During(s, t', x, i', s.table)
  {
    assert InEndpoint(t, i, false, false) == i.endpoint;
    t' := ApplyInChoose(t, s.nextId, false, false);
    i' := t'.inbound[s.nextId];
  }

  /** The endpoint the table holds after an install, and whether that is a retained direct one. */
  function KeptBy(table: R.Table, i: Inbound): string {
    if i.node in table.discovered && table.discovered[i.node].endpoint.Some?
    then table.discovered[i.node].endpoint.value else i.endpoint
  }

  lemma Installed(s: State, t: State, x: Scene, i: Inbound) returns (t': State, i': Inbound)
    requires During(s, t, x, i, s.table) && i.pc.Adopting? && R.ValidNodeId(i.node)
    ensures Enabled(t, In(InInstall(s.nextId))) && t' == Next(t, In(InInstall(s.nextId)))
    ensures var table := R.Apply(s.table, InOp(i));
      var kept := KeptBy(table, i);
      && i' == i.(endpoint := kept, pc := Recording,
                  retained := kept != i.endpoint && R.IsCircuit(i.endpoint) && !R.IsCircuit(kept))
      && During(s, t', x, i', table)
  {
    t' := ApplyInInstall(t, s.nextId);
    i' := t'.inbound[s.nextId];
  }

  lemma Marked(s: State, t: State, x: Scene, i: Inbound, table: R.Table) returns (t': State)
    requires During(s, t, x, i, table) && i.pc.Recording?
    ensures Enabled(t, In(InMark(s.nextId))) && t' == Next(t, In(InMark(s.nextId)))
    ensures Apart(s, t') && t'.busy == None && t'.nextId == s.nextId + 1 && t'.table == table
    ensures s.nextId in t'.inbound && t'.inbound[s.nextId].pc.Answering?
    ensures t'.bindings == s.bindings[x.peer := Bind(i.endpoint, Healthy, None)]
    ensures t'.directBound == if i.provenDirect || i.retained then s.directBound + {x.peer} else s.directBound
  {
    t' := ApplyInMark(t, s.nextId);
  }

  ghost predicate Follows(s: State, step: Step, s': State) { Enabled(s, step) && s' == Next(s, step) }

  lemma FirstHalf(
      s: State, x: Scene, peerstore: Option<seq<string>>)
    returns (trace: seq<State>, steps: seq<Step>, t: State, i: Inbound)
    requires s.live && s.busy == None && x.peer !in s.directBound
    requires var e := PeerstoreEndpoint(peerstore, x.peer); e != "" && (R.IsCircuit(e) || Entry(s.table, x.node).None?)
    ensures RunFrom(trace, steps, s, t) && During(s, t, x, i, s.table) && AllApart(s, trace)
    ensures i.pc.Adopting? && i.node == x.node && i.endpoint == PeerstoreEndpoint(peerstore, x.peer) && !i.provenDirect
  {
    var t1, i1 := Starts(s, x, peerstore);
    var t2, i2 := Verified(s, t1, x, i1);
    t, i := Chosen(s, t2, x, i2);
    trace := [s, t1, t2, t];
    steps := [In(InStart(x.peer, peerstore)), In(InVerify(s.nextId, x.node)), In(InChoose(s.nextId, false, false))];
    ThreeSteps(trace, steps);
  }

  lemma SecondHalf(s: State, t3: State, x: Scene, i: Inbound) returns (trace: seq<State>, steps: seq<Step>, t: State)
    requires During(s, t3, x, i, s.table) && i.pc.Adopting? && i.node == x.node && R.ValidNodeId(x.node)
    requires !i.provenDirect
    ensures RunFrom(trace, steps, t3, t) && Exchanged(s, t, x, i.endpoint) && AllApart(s, trace)
  {
    var t4, i4 := Installed(s, t3, x, i);
    assert InOp(i) == InstallOf(x, i.endpoint);
    TableHolds(s.table, x, i.endpoint);
    t := Marked(s, t4, x, i4, R.Apply(s.table, InOp(i)));
    trace, steps := [t3, t4, t], [In(InInstall(s.nextId)), In(InMark(s.nextId))];
    TwoSteps(trace, steps);
  }

  ghost predicate AllApart(s: State, trace: seq<State>) {
    forall k :: 0 <= k < |trace| ==> Apart(s, trace[k])
  }

  /** A whole inbound exchange over the peerstore's endpoint. */
  lemma Exchange(
      s: State, x: Scene, peerstore: Option<seq<string>>)
    returns (trace: seq<State>, steps: seq<Step>, t: State)
    requires s.live && s.busy == None && x.peer !in s.directBound && R.ValidNodeId(x.node)
    requires var e := PeerstoreEndpoint(peerstore, x.peer); e != "" && (R.IsCircuit(e) || Entry(s.table, x.node).None?)
    ensures RunFrom(trace, steps, s, t) && Exchanged(s, t, x, PeerstoreEndpoint(peerstore, x.peer))
    ensures AllApart(s, trace)
  {
    var t1, steps1, mid, i := FirstHalf(s, x, peerstore);
    var t2, steps2, last := SecondHalf(s, mid, x, i);
    trace, steps := Joined(t1, steps1, t2, steps2, s, mid, last);
    t := last;
    JoinedApart(s, t1, t2);
  }

  lemma JoinedApart(s: State, t1: seq<State>, t2: seq<State>)
    requires AllApart(s, t1) && AllApart(s, t2) && t2 != []
    ensures AllApart(s, t1 + t2[1..])
  {
  }

  lemma Joined(t1: seq<State>, s1: seq<Step>, t2: seq<State>, s2: seq<Step>, s: State, mid: State, last: State)
    returns (trace: seq<State>, steps: seq<Step>)
    requires RunFrom(t1, s1, s, mid) && RunFrom(t2, s2, mid, last)
    ensures RunFrom(trace, steps, s, last) && trace == t1 + t2[1..] && steps == s1 + s2
  {
    Chain(t1, s1, t2, s2);
    trace, steps := t1 + t2[1..], s1 + s2;
    assert trace[|s1| + |s2|] == t2[|s2|];
  }

  lemma TableHolds(table: R.Table, x: Scene, endpoint: string)
    requires R.ValidNodeId(x.node)
    ensures var table' := R.Apply(table, InstallOf(x, endpoint));
      x.node in table'.discovered && table'.discovered[x.node].endpoint.Some?
  {
    var op := InstallOf(x, endpoint);
    if R.Effective(table, op, x.node) {
    } else {
      assert x.node in table.discovered && R.Retains(table.discovered[x.node], op);
    }
  }

  // ---- the whole run --------------------------------------------------------------------------------------

  /** Before the relays: live, nothing known but the peer's direct route. */
  predicate DirectlyRouted(s: State, c: Config, x: Scene) {
    && s.config == c && s.live && s.busy == None && s.lan == map[] && s.hints == map[]
    && s.directBound == {} && s.inflight == {}
    && s.candidates == map[] && s.ranks == map[] && s.notified == map[]
    && x.node in s.table.discovered
    && s.table.discovered[x.node] == R.RouteOf(InstallOf(x, PeerstoreEndpoint(x.plain, x.peer)))
    && Get(s.bindings, x.peer) == Some(Bind(PeerstoreEndpoint(x.plain, x.peer), Healthy, None))
  }

  /** Live, with nothing known. */
  predicate Blank(s: State, c: Config) {
    && s.config == c && s.live && s.busy == None && s.lan == map[] && s.hints == map[]
    && s.directBound == {} && s.inflight == {}
    && s.candidates == map[] && s.ranks == map[] && s.notified == map[] && s.table.discovered == map[]
  }

  lemma Published(c: Config) returns (trace: seq<State>, steps: seq<Step>, t: State)
    ensures FullRun(trace, steps) && RunFrom(trace, steps, trace[0], t) && Blank(t, c)
  {
    var s := Initial(c, R.Table(map[], map[], map[]));
    trace, steps := One(s, Ctl(Publish([])));
    t := ApplyPublish(s, []);
  }

  lemma RoutedBy(s: State, t: State, c: Config, x: Scene)
    requires Blank(s, c) && Plausible(c, x) && Exchanged(s, t, x, PeerstoreEndpoint(x.plain, x.peer))
    ensures DirectlyRouted(t, c, x)
  {
    InstalledRoute(s.table, x);
  }

  lemma Opening(c: Config, x: Scene) returns (trace: seq<State>, steps: seq<Step>, t: State)
    requires Plausible(c, x)
    ensures FullRun(trace, steps) && trace[|steps|] == t && DirectlyRouted(t, c, x)
  {
    var t1, steps1, s := Published(c);
    var t2, steps2, last := Exchange(s, x, x.plain);
    trace, steps := Joined(t1, steps1, t2, steps2, t1[0], s, last);
    t := last;
    RoutedBy(s, t, c, x);
  }

  lemma InstalledRoute(table: R.Table, x: Scene)
    requires R.ValidNodeId(x.node) && table.discovered == map[]
    ensures var e := PeerstoreEndpoint(x.plain, x.peer);
      R.Apply(table, InstallOf(x, e)).discovered == map[x.node := R.RouteOf(InstallOf(x, e))]
  {
  }

  /** The attempt over the other address is waiting on the network. */
  predicate Attempting(s: State, x: Scene, a: nat)
    requires Dialable(x.other)
  {
    && s.live && s.busy == None && s.lan == map[] && x.peer in s.inflight
    && a in s.outbound && s.outbound[a].Peer() == x.peer && s.outbound[a].endpoint == Tried(x) && !s.outbound[a].lan
  }

  /** It has just passed the gate, and no relay has listed the peer. */
  predicate Started(s: State, c: Config, x: Scene, a: nat)
    requires Dialable(x.other)
  {
    && Attempting(s, x, a) && s.outbound[a].pc.Connecting? && s.config == c && a < s.nextId
    && s.directBound == {} && s.candidates == map[] && s.ranks == map[] && s.notified == map[]
    && x.node in s.table.discovered
    && s.table.discovered[x.node] == R.RouteOf(InstallOf(x, PeerstoreEndpoint(x.plain, x.peer)))
  }

  /** Meanwhile the first relay's circuit has been announced. */
  predicate Trying(s: State, c: Config, x: Scene, a: nat)
    requires Dialable(x.other)
  {
    && Attempting(s, x, a) && s.outbound[a].pc.Connecting? && s.config == c && a < s.nextId
    && s.directBound == {}
    && Get(s.ranks, x.peer) == Some(Rank(c.relayPeers, x.first.id))
    && Get(s.notified, x.peer) == Some(CircuitEndpoint(x.first, x.peer))
    && x.peer in s.candidates && s.candidates[x.peer].peerId == x.peer
    && Dialable(s.candidates[x.peer]) && PeerEndpoint(s.candidates[x.peer]) == CircuitEndpoint(x.first, x.peer)
    && x.node in s.table.discovered
    && s.table.discovered[x.node] == R.RouteOf(InstallOf(x, PeerstoreEndpoint(x.plain, x.peer)))
  }

  lemma Gated(s: State, c: Config, x: Scene) returns (t: State)
    requires Plausible(c, x) && DirectlyRouted(s, c, x)
    ensures Follows(s, Out(Gate(x.other)), t) && Started(t, c, x, s.nextId)
  {
    assert GateOpen(s, x.other);
    t := ApplyGate(s, x.other);
  }

  lemma FiledLoudly(s: State, c: Config, x: Scene, a: nat)
    requires PeerName(x.peer) && Dialable(x.other) && Started(s, c, x, a)
    ensures var t := Adopt(s, x.first, x.peer, Rank(c.relayPeers, x.first.id));
      Trying(t, c, x, a) && t.spawned == s.spawned + [CircuitInfo(s.nextId, x.first, x.peer)]
  {
    CircuitInfoEndpoint(s.nextId, x.first, x.peer);
  }

  lemma TakesFirst(s: State, c: Config, x: Scene, a: nat)
    requires Plausible(c, x) && Started(s, c, x, a)
    ensures ApplyRssPeer(s, x.first, x.peer) == Adopt(s, x.first, x.peer, Rank(c.relayPeers, x.first.id))
  {
    assert Adopts(s, x.first, x.peer);
  }

  lemma RssFollows(s: State, relay: Relay, peer: string) returns (t: State)
    requires s.live && s.busy == None && PeerName(peer)
    ensures Follows(s, Disc(RssPeer(relay, peer)), t) && t == ApplyRssPeer(s, relay, peer)
  {
    t := ApplyRssPeer(s, relay, peer);
  }

  lemma Listed(s: State, c: Config, x: Scene, a: nat) returns (t: State)
    requires Plausible(c, x) && Started(s, c, x, a)
    ensures Follows(s, Disc(RssPeer(x.first, x.peer)), t) && Trying(t, c, x, a)
    ensures t.spawned == s.spawned + [CircuitInfo(s.nextId, x.first, x.peer)]
  {
    t := RssFollows(s, x.first, x.peer);
    TakesFirst(s, c, x, a);
    FiledLoudly(s, c, x, a);
  }

  /** The bind queued by the announcement finds the peer busy. */
  lemma FindsBusy(s: State, x: Scene, a: nat, info: PeerInfo)
    requires Dialable(x.other) && Attempting(s, x, a) && info.peerId == x.peer
    ensures Follows(s, Out(Gate(info)), s)
  {
    assert !GateOpen(s, info);
  }

  /** The peer counts as directly bound while the attempt still runs. */
  predicate Overtaken(s: State, c: Config, x: Scene, a: nat)
    requires Dialable(x.other)
  {
    && Attempting(s, x, a) && s.outbound[a].pc.Connecting? && s.config == c && x.peer in s.directBound
    && Get(s.ranks, x.peer) == Some(Rank(c.relayPeers, x.first.id))
    && Get(s.notified, x.peer) == Some(CircuitEndpoint(x.first, x.peer))
  }

  lemma RetainedRoute(table: R.Table, x: Scene)
    requires x.node in table.discovered
    requires table.discovered[x.node] == R.RouteOf(InstallOf(x, PeerstoreEndpoint(x.plain, x.peer)))
    requires !R.IsCircuit(PeerstoreEndpoint(x.plain, x.peer)) && R.IsCircuit(PeerstoreEndpoint(x.relayed, x.peer))
    ensures R.Apply(table, InstallOf(x, PeerstoreEndpoint(x.relayed, x.peer))) == table
  {
  }

  lemma Overtakes(s: State, c: Config, x: Scene, a: nat) returns (trace: seq<State>, steps: seq<Step>, t: State)
    requires Plausible(c, x) && Trying(s, c, x, a)
    ensures RunFrom(trace, steps, s, t) && Overtaken(t, c, x, a) && Keeps(trace, a, x.peer)
  {
    trace, steps, t := Exchange(s, x, x.relayed);
    RetainedRoute(s.table, x);
  }

  /** The better relay's circuit is filed in silence. */
  predicate Silenced(s: State, x: Scene, a: nat)
    requires Dialable(x.other)
  {
    && Attempting(s, x, a)
    && Get(s.notified, x.peer) == Some(CircuitEndpoint(x.first, x.peer))
    && x.peer in s.candidates && Dialable(s.candidates[x.peer])
    && PeerEndpoint(s.candidates[x.peer]) == CircuitEndpoint(x.better, x.peer)
  }

  lemma TakesBetter(s: State, c: Config, x: Scene, a: nat)
    requires Plausible(c, x) && Overtaken(s, c, x, a)
    ensures ApplyRssPeer(s, x.better, x.peer) == Adopt(s, x.better, x.peer, Rank(c.relayPeers, x.better.id))
  {
    assert Adopts(s, x.better, x.peer);
  }

  lemma Silences(s: State, c: Config, x: Scene, a: nat) returns (t: State)
    requires Plausible(c, x) && Overtaken(s, c, x, a)
    ensures Follows(s, Disc(RssPeer(x.better, x.peer)), t) && Silenced(t, x, a) && t.outbound[a].pc.Connecting?
  {
    t := RssFollows(s, x.better, x.peer);
    TakesBetter(s, c, x, a);
    FiledSilently(s, c, x, a);
  }

  lemma FiledSilently(s: State, c: Config, x: Scene, a: nat)
    requires PeerName(x.peer) && Dialable(x.other) && Overtaken(s, c, x, a)
    ensures var t := Adopt(s, x.better, x.peer, Rank(c.relayPeers, x.better.id));
      Silenced(t, x, a) && t.outbound[a].pc.Connecting?
  {
    CircuitInfoEndpoint(s.nextId, x.better, x.peer);
  }

  lemma Failing(s: State, x: Scene, a: nat) returns (t: State)
    requires Dialable(x.other) && Silenced(s, x, a) && s.outbound[a].pc.Connecting?
    ensures Follows(s, Out(OutFail(a)), t) && Silenced(t, x, a) && t.outbound[a].pc.Ending?
  {
    t := ApplyOutFail(s, a);
  }

  lemma Ends(s: State, x: Scene, a: nat) returns (t: State)
    requires Dialable(x.other) && Silenced(s, x, a) && s.outbound[a].pc.Ending?
    requires CircuitEndpoint(x.first, x.peer) != CircuitEndpoint(x.better, x.peer)
    ensures Follows(s, Out(OutEnd(a)), t) && t.spawned == s.spawned
  {
    assert !FollowUp(s, s.outbound[a]);
    t := ApplyOutEnd(s, a);
  }

  /** From the gate to the end of the attempt: announced at the start, silently replaced, and nothing queued. */
  lemma Missed(s: State, c: Config, x: Scene, a: nat) returns (trace: seq<State>, steps: seq<Step>)
    requires Plausible(c, x) && Trying(s, c, x, a)
    ensures IsRun(trace, steps) && trace[0] == s && |steps| > 0 && steps[|steps| - 1] == Out(OutEnd(a))
    ensures Keeps(trace[..|steps|], a, x.peer) && Silenced(trace[|steps| - 1], x, a)
    ensures trace[|steps|].spawned == trace[|steps| - 1].spawned
  {
    var t1, steps1, overtaken := Overtakes(s, c, x, a);
    var silenced := Silences(overtaken, c, x, a);
    var failing := Failing(silenced, x, a);
    var ended := Ends(failing, x, a);
    var t2, steps2 := [overtaken, silenced, failing, ended],
      [Disc(RssPeer(x.better, x.peer)), Out(OutFail(a)), Out(OutEnd(a))];
    ThreeSteps(t2, steps2);
    Chain(t1, steps1, t2, steps2);
    trace, steps := t1 + t2[1..], steps1 + steps2;
    var n := |steps1|;
    assert trace[n + 2] == t2[2] && trace[n + 3] == t2[3];
    forall k | 0 <= k < |steps| ensures trace[k].live && x.peer !in trace[k].lan && a in trace[k].outbound {
      if k < n { assert trace[k] == t1[k]; } else { assert trace[k] == t2[k - n]; }
    }
  }

  lemma ThreeSteps(trace: seq<State>, steps: seq<Step>)
    requires |trace| == 4 && |steps| == 3
    requires Follows(trace[0], steps[0], trace[1]) && Follows(trace[1], steps[1], trace[2])
    requires Follows(trace[2], steps[2], trace[3])
    ensures IsRun(trace, steps)
  {
    forall k | 0 <= k < 3 ensures Follows(trace[k], steps[k], trace[k + 1]) {}
  }

  /** From the start to the announcement during the attempt: the last three steps are the gate, the listing
      and the queued bind that finds the peer busy. */
  ghost predicate Begun(trace: seq<State>, steps: seq<Step>, c: Config, x: Scene, a: nat)
    requires Dialable(x.other)
  {
    && FullRun(trace, steps) && |steps| >= 3
    && var i := |steps| - 3;
       && steps[i] == Out(Gate(x.other)) && trace[i].nextId == a && Started(trace[i + 1], c, x, a)
       && steps[i + 1] == Disc(RssPeer(x.first, x.peer)) && trace[i + 2] == trace[i + 3]
       && trace[i + 2].spawned != [] && steps[i + 2] == Out(Gate(trace[i + 2].spawned[|trace[i + 2].spawned| - 1]))
       && Trying(trace[i + 3], c, x, a)
  }

  lemma Beginning(c: Config, x: Scene) returns (trace: seq<State>, steps: seq<Step>, a: nat)
    requires Plausible(c, x)
    ensures Begun(trace, steps, c, x, a)
  {
    var t1, steps1, s := Opening(c, x);
    a := s.nextId;
    var started := Gated(s, c, x);
    var trying := Listed(started, c, x, a);
    var info := CircuitInfo(started.nextId, x.first, x.peer);
    FindsBusy(trying, x, a, info);
    var t2, steps2 := [s, started, trying, trying],
      [Out(Gate(x.other)), Disc(RssPeer(x.first, x.peer)), Out(Gate(info))];
    ThreeSteps(t2, steps2);
    Chain(t1, steps1, t2, steps2);
    trace, steps := t1 + t2[1..], steps1 + steps2;
    var n := |steps1|;
    assert trace[n] == t2[0] && trace[n + 1] == t2[1] && trace[n + 2] == t2[2] && trace[n + 3] == t2[3];
  }

  lemma TwoSteps(trace: seq<State>, steps: seq<Step>)
    requires |trace| == 3 && |steps| == 2 && Follows(trace[0], steps[0], trace[1])
    requires Follows(trace[1], steps[1], trace[2])
    ensures IsRun(trace, steps)
  {
    forall k | 0 <= k < 2 ensures Follows(trace[k], steps[k], trace[k + 1]) {}
  }

  lemma TryingStands(s: State, c: Config, x: Scene, a: nat)
    requires Dialable(x.other) && Trying(s, c, x, a)
    ensures BusyWithoutLan(s, a, x.peer, Tried(x)) && Standing(s, x.peer, Tried(x), true)
  {
  }

  /** `t1` ends in the same state twice, and `t2` goes on from there. */
  lemma StretchOf(t1: seq<State>, i: nat, t2: seq<State>, n: nat, a: nat, peer: string)
    requires |t1| == i + 2 && |t2| == n + 1 && n > 0 && t1[i] == t1[i + 1] == t2[0] && Keeps(t2[..n], a, peer)
    ensures Stretch(t1 + t2[1..], i, i + n, a, peer)
  {
    var trace := t1 + t2[1..];
    forall k | i <= k <= i + n ensures trace[k].live && peer !in trace[k].lan && a in trace[k].outbound {
      var at := if k == i then 0 else k - i - 1;
      assert trace[k] == t2[at] && t2[..n][at] == t2[at];
    }
  }

  /** For every plausible scene there is a run in which a relay route announced during an attempt leads to no
      bind. The attempt passes the gate at `i`. At `m`, while it runs, the first relay's circuit is announced
      for the first time. It ends at `j`: the candidate selected then has another endpoint than the one just
      tried, and no bind is queued. */
  lemma DirectBindingLosesFollowUp(
      c: Config, x: Scene)
    returns (trace: seq<State>, steps: seq<Step>, i: nat, m: nat, j: nat, a: nat)
    requires Plausible(c, x)
    ensures FullRun(trace, steps) && i < m < j < |steps|
    ensures steps[i] == Out(Gate(x.other)) && a !in trace[i].outbound && a in trace[i + 1].outbound
    ensures steps[m] == Disc(RssPeer(x.first, x.peer)) && x.peer !in trace[m].notified
    ensures Get(trace[m + 1].notified, x.peer) == Some(CircuitEndpoint(x.first, x.peer))
    ensures steps[j] == Out(OutEnd(a)) && Stretch(trace, m + 1, j, a, x.peer)
    ensures BusyWithoutLan(trace[m + 1], a, x.peer, Tried(x)) && Standing(trace[m + 1], x.peer, Tried(x), true)
    ensures Silenced(trace[j], x, a) && CircuitEndpoint(x.better, x.peer) != Tried(x)
    ensures trace[j + 1].spawned == trace[j].spawned
  {
    var t1, steps1, attempt := Beginning(c, x);
    a := attempt;
    var e := |steps1|;
    i, m := e - 3, e - 2;
    var t2, steps2 := Missed(t1[e], c, x, a);
    var n := |steps2|;
    trace, steps := Joined(t1, steps1, t2, steps2, t1[0], t1[e], t2[n]);
    j := e + n - 1;
    StretchOf(t1, m + 1, t2, n, a, x.peer);
    TryingStands(t1[e], c, x, a);
    RunsKeepInv(t1, steps1, i);
    assert trace[i] == t1[i] && trace[m] == t1[m] && trace[m + 1] == t1[m + 1];
    assert trace[j] == t2[n - 1] && trace[j + 1] == t2[n];
  }
}
