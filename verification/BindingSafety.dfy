/** What every step of route binding keeps, and what follows for every run. */
module BindingSafety {
  import opened Strings
  import opened Endpoints
  import opened Binding
  import R = Routing

  // ---- the invariant --------------------------------------------------------------------------

  /** Candidates are filed under their own transport identity and can be dialled. */
  ghost predicate Filed(m: map<string, PeerInfo>) {
    forall k :: k in m ==> m[k].peerId == k && Dialable(m[k])
  }

  type Outs = map<nat, Outbound>
  type Ins = map<nat, Inbound>

  /** Attempts are numbered below the counter, and no number is used in both directions. */
  ghost predicate Numbered(outs: Outs, ins: Ins, nextId: nat) {
    && (forall a :: a in outs ==> a < nextId && a !in ins)
    && (forall a :: a in ins ==> a < nextId)
  }

  predicate AttemptFor(outs: Outs, a: nat, peer: string) { a in outs && outs[a].Peer() == peer }

  /** At most one outbound attempt per transport peer is past the gate, and within a generation the
      in-flight set is exactly the set of their peers. */
  ghost predicate Mutex(live: bool, inflight: set<string>, outs: Outs) {
    && (forall a, b :: a in outs && b in outs && outs[a].Peer() == outs[b].Peer() ==> a == b)
    && (live ==> forall a :: a in outs ==> outs[a].Peer() in inflight)
    && (forall p :: p in inflight ==> exists a :: AttemptFor(outs, a, p))
  }

  /** Attempt `a` is running for `peer` and has not yet given up its tuple. */
  ghost predicate Running(outs: Outs, ins: Ins, a: nat, peer: string) {
    || (a in outs && outs[a].Peer() == peer && !outs[a].pc.Ending?)
    || (a in ins && ins[a].peer == peer && !ins[a].pc.Answering?)
  }

  /** Stored in-flight tuples are exactly the owned ones, and their owners are running. */
  ghost predicate Owned(bindings: map<string, Bind>, outs: Outs, ins: Ins) {
    forall p :: p in bindings ==>
      && (bindings[p].phase == Inflight <==> bindings[p].owner.Some?)
      && (bindings[p].owner.Some? ==> Running(outs, ins, bindings[p].owner.value, p))
  }

  /** Exactly the attempt that is between two awaits of its deciding section holds the event loop. */
  ghost predicate Loop(busy: Option<nat>, outs: Outs, ins: Ins) {
    && (forall a :: a in outs ==> (outs[a].HoldsLoop() <==> busy == Some(a)))
    && (forall a :: a in ins ==> (ins[a].HoldsLoop() <==> busy == Some(a)))
  }

  /** A discovered route names its own node, rests on a verified claim for exactly that node and
      transport identity, and its endpoint ends in that identity. */
  ghost predicate Backed(route: R.PeerRoute, node: string, claims: set<(string, string)>) {
    && R.Evidence(route, node)
    && (node, route.transportPeerId.value) in claims
    && EndsWith(route.endpoint.value, Suffix(route.transportPeerId.value))
  }

  ghost predicate AllBacked(table: R.Table, claims: set<(string, string)>) {
    && R.Valid(table)
    && forall n :: n in table.discovered ==> Backed(table.discovered[n], n, claims)
  }

  ghost predicate OutboundOk(o: Outbound, claims: set<(string, string)>) {
    && Dialable(o.info) && o.endpoint == PeerEndpoint(o.info)
    && (o.pc.Verified? || o.HoldsLoop() ==> (o.node, o.Peer()) in claims)
  }

  /** Two readings of an entry that differ at most in availability. */
  predicate SameRoute(a: Option<R.PeerRoute>, b: Option<R.PeerRoute>) {
    a.Some? == b.Some? && (a.Some? ==> a.value.Observed(true) == b.value.Observed(true))
  }

  predicate CircuitFor(current: Option<R.PeerRoute>, peer: string) {
    && current.Some? && current.value.transportPeerId == Some(peer)
    && current.value.endpoint.Some? && R.IsCircuit(current.value.endpoint.value)
  }

  ghost predicate NamesPeer(endpoint: string, peer: string) {
    endpoint == "" || EndsWith(endpoint, Suffix(peer))
  }

  ghost predicate InboundOk(i: Inbound, table: R.Table, claims: set<(string, string)>) {
    && NamesPeer(i.endpoint, i.peer)
    && (i.HoldsLoop() ==> (i.node, i.peer) in claims)
    && (i.pc.Choosing? || i.pc.Adopting? ==> SameRoute(Entry(table, i.node), i.current))
    && (i.pc.Adopting? ==> i.endpoint != "")
    && (i.pc.Adopting? && CircuitFor(i.current, i.peer) && !R.IsCircuit(i.endpoint) ==> i.provenDirect)
  }

  ghost predicate Attempts(outs: Outs, ins: Ins, table: R.Table, claims: set<(string, string)>) {
    && (forall a :: a in outs ==> OutboundOk(outs[a], claims))
    && (forall a :: a in ins ==> InboundOk(ins[a], table, claims))
  }

  /** Everything every reachable state satisfies. */
  ghost predicate Inv(s: State) {
    && Filed(s.candidates) && Filed(s.lan)
    && Numbered(s.outbound, s.inbound, s.nextId)
    && Mutex(s.live, s.inflight, s.outbound)
    && Owned(s.bindings, s.outbound, s.inbound)
    && Loop(s.busy, s.outbound, s.inbound)
    && AllBacked(s.table, s.claims)
    && Attempts(s.outbound, s.inbound, s.table, s.claims)
  }

  // ---- the in-flight set ------------------------------------------------------------------------

  lemma MoveKeepsMutex(live: bool, inflight: set<string>, outs: Outs, a: nat, o: Outbound)
    requires Mutex(live, inflight, outs) && a in outs && o.info == outs[a].info
    ensures Mutex(live, inflight, outs[a := o])
  {
    var outs' := outs[a := o];
    forall p | p in inflight ensures exists b :: AttemptFor(outs', b, p) {
      var b :| AttemptFor(outs, b, p);
      assert AttemptFor(outs', b, p);
    }
  }

  lemma StartKeepsMutex(inflight: set<string>, outs: Outs, a: nat, o: Outbound)
    requires Mutex(true, inflight, outs) && a !in outs && o.Peer() !in inflight
    ensures Mutex(true, inflight + {o.Peer()}, outs[a := o])
  {
    var outs' := outs[a := o];
    forall p | p in inflight + {o.Peer()} ensures exists b :: AttemptFor(outs', b, p) {
      if p == o.Peer() {
        assert AttemptFor(outs', a, p);
      } else {
        var b :| AttemptFor(outs, b, p);
        assert AttemptFor(outs', b, p);
      }
    }
  }

  lemma EndKeepsMutex(live: bool, inflight: set<string>, outs: Outs, a: nat)
    requires Mutex(live, inflight, outs) && a in outs
    ensures Mutex(live, inflight - {outs[a].Peer()}, outs - {a})
  {
    forall p | p in inflight - {outs[a].Peer()} ensures exists b :: AttemptFor(outs - {a}, b, p) {
      var b :| AttemptFor(outs, b, p);
      assert AttemptFor(outs - {a}, b, p);
    }
  }

  // ---- tuples and their owners --------------------------------------------------------------------

  lemma StartKeepsOwned(bindings: map<string, Bind>, outs: Outs, ins: Ins, a: nat, o: Outbound, endpoint: string)
    requires Owned(bindings, outs, ins) && a !in outs && !o.pc.Ending?
    ensures Owned(bindings[o.Peer() := Bind(endpoint, Inflight, Some(a))], outs[a := o], ins)
  {
  }

  lemma AnswerKeepsOwned(bindings: map<string, Bind>, outs: Outs, ins: Ins, a: nat, i: Inbound, endpoint: string)
    requires Owned(bindings, outs, ins) && a !in ins && !i.pc.Answering?
    ensures Owned(bindings[i.peer := Bind(endpoint, Inflight, Some(a))], outs, ins[a := i])
  {
  }

  lemma OutStayKeepsOwned(bindings: map<string, Bind>, outs: Outs, ins: Ins, a: nat, o: Outbound)
    requires Owned(bindings, outs, ins) && a in outs && o.info == outs[a].info && !o.pc.Ending?
    ensures Owned(bindings, outs[a := o], ins)
  {
  }

  lemma InStayKeepsOwned(bindings: map<string, Bind>, outs: Outs, ins: Ins, a: nat, i: Inbound)
    requires Owned(bindings, outs, ins) && a in ins && i.peer == ins[a].peer && !i.pc.Answering?
    ensures Owned(bindings, outs, ins[a := i])
  {
  }

  /** Attempt `a` gives up its tuple: whatever is stored afterwards is not owned by it. */
  ghost predicate Yielded(bindings: map<string, Bind>, bindings': map<string, Bind>, a: nat) {
    forall p :: p in bindings' ==>
      || (p in bindings && bindings'[p] == bindings[p] && bindings[p].owner != Some(a))
      || (bindings'[p].owner == None && bindings'[p].phase != Inflight)
  }

  lemma OutYieldKeepsOwned(
      bindings: map<string, Bind>, bindings': map<string, Bind>, outs: Outs, ins: Ins, a: nat, o: Outbound)
    requires Owned(bindings, outs, ins) && Yielded(bindings, bindings', a) && a in outs && o.info == outs[a].info
    ensures Owned(bindings', outs[a := o], ins)
  {
  }

  lemma InYieldKeepsOwned(
      bindings: map<string, Bind>, bindings': map<string, Bind>, outs: Outs, ins: Ins, a: nat, i: Inbound)
    requires Owned(bindings, outs, ins) && Yielded(bindings, bindings', a) && a in ins && i.peer == ins[a].peer
    ensures Owned(bindings', outs, ins[a := i]) && Owned(bindings', outs, ins - {a})
  {
  }

  lemma OutGoneKeepsOwned(bindings: map<string, Bind>, outs: Outs, ins: Ins, a: nat)
    requires Owned(bindings, outs, ins) && a in outs && a !in ins && outs[a].pc.Ending?
    ensures Owned(bindings, outs - {a}, ins)
  {
  }

  lemma InGoneKeepsOwned(bindings: map<string, Bind>, outs: Outs, ins: Ins, a: nat)
    requires Owned(bindings, outs, ins) && a in ins && a !in outs && ins[a].pc.Answering?
    ensures Owned(bindings, outs, ins - {a})
  {
  }

  /** Replacing or removing the tuple of the owner's own peer is giving it up. */
  lemma GivesUp(bindings: map<string, Bind>, outs: Outs, ins: Ins, a: nat, peer: string, phase: Phase, endpoint: string)
    requires Owned(bindings, outs, ins) && phase != Inflight
    requires a in outs ==> a !in ins && outs[a].Peer() == peer
    requires a in ins ==> ins[a].peer == peer
    ensures peer in bindings && bindings[peer].owner == Some(a) ==>
      Yielded(bindings, bindings[peer := Bind(endpoint, phase, None)], a) && Yielded(bindings, bindings - {peer}, a)
    ensures !(peer in bindings && bindings[peer].owner == Some(a)) ==> Yielded(bindings, bindings, a)
  {
    if peer in bindings && bindings[peer].owner == Some(a) {
    } else {
    }
  }

  // ---- the event loop -------------------------------------------------------------------------------

  lemma OutKeepsLoop(busy: Option<nat>, busy': Option<nat>, outs: Outs, ins: Ins, a: nat, o: Outbound)
    requires Loop(busy, outs, ins) && a !in ins && (busy == None || busy == Some(a))
    requires busy' == if o.HoldsLoop() then Some(a) else None
    ensures Loop(busy', outs[a := o], ins)
  {
  }

  lemma InKeepsLoop(busy: Option<nat>, busy': Option<nat>, outs: Outs, ins: Ins, a: nat, i: Inbound)
    requires Loop(busy, outs, ins) && a !in outs && (busy == None || busy == Some(a))
    requires busy' == if i.HoldsLoop() then Some(a) else None
    ensures Loop(busy', outs, ins[a := i])
  {
  }

  lemma GoneKeepsLoop(busy: Option<nat>, outs: Outs, ins: Ins, a: nat)
    requires Loop(busy, outs, ins) && (busy == None || busy == Some(a))
    ensures a !in ins ==> Loop(None, outs - {a}, ins)
    ensures a !in outs ==> Loop(None, outs, ins - {a})
  {
  }

  // ---- routes and claims ----------------------------------------------------------------------------

  lemma MoreClaims(outs: Outs, ins: Ins, table: R.Table, claims: set<(string, string)>, more: set<(string, string)>)
    requires AllBacked(table, claims) && Attempts(outs, ins, table, claims)
    ensures AllBacked(table, claims + more) && Attempts(outs, ins, table, claims + more)
  {
  }

  /** Installing a verified claim over an endpoint that names its peer keeps every route backed. */
  lemma InstallKeepsBacked(table: R.Table, claims: set<(string, string)>, op: R.Op)
    requires AllBacked(table, claims) && op.Install?
    requires (op.peerId, op.transportPeerId) in claims && EndsWith(op.endpoint, Suffix(op.transportPeerId))
    ensures AllBacked(R.Apply(table, op), claims)
  {
    R.ApplyKeepsValid(table, op);
    if R.Effective(table, op, op.peerId) {
    } else {
    }
  }

  lemma ReportKeepsBacked(table: R.Table, claims: set<(string, string)>, op: R.Op)
    requires AllBacked(table, claims) && !op.Install?
    ensures AllBacked(R.Apply(table, op), claims)
  {
    R.ApplyKeepsValid(table, op);
    var table' := R.Apply(table, op);
    forall n | n in table'.discovered ensures Backed(table'.discovered[n], n, claims) {
      R.OneStep(table, op, n);
      assert Backed(table.discovered[n], n, claims);
    }
  }

  lemma ReportKeepsEntry(table: R.Table, op: R.Op, node: string)
    requires !op.Install?
    ensures SameRoute(Entry(R.Apply(table, op), node), Entry(table, node))
  {
    if node in table.discovered { R.OneStep(table, op, node); }
  }

  // ---- the attempts' own records ------------------------------------------------------------------------

  lemma OutKeepsAttempts(outs: Outs, ins: Ins, table: R.Table, claims: set<(string, string)>, a: nat, o: Outbound)
    requires Attempts(outs, ins, table, claims) && OutboundOk(o, claims)
    ensures Attempts(outs[a := o], ins, table, claims)
  {
  }

  lemma InKeepsAttempts(outs: Outs, ins: Ins, table: R.Table, claims: set<(string, string)>, a: nat, i: Inbound)
    requires Attempts(outs, ins, table, claims) && InboundOk(i, table, claims)
    ensures Attempts(outs, ins[a := i], table, claims)
  {
  }

  lemma GoneKeepsAttempts(outs: Outs, ins: Ins, table: R.Table, claims: set<(string, string)>, a: nat)
    requires Attempts(outs, ins, table, claims)
    ensures Attempts(outs - {a}, ins, table, claims) && Attempts(outs, ins - {a}, table, claims)
  {
  }

  /** A table change keeps the records of all attempts that are not reading an entry it changes. */
  lemma TableKeepsAttempts(outs: Outs, ins: Ins, table: R.Table, table': R.Table, claims: set<(string, string)>)
    requires Attempts(outs, ins, table, claims)
    requires forall a :: a in ins && (ins[a].pc.Choosing? || ins[a].pc.Adopting?) ==>
      SameRoute(Entry(table', ins[a].node), Entry(table, ins[a].node))
    ensures Attempts(outs, ins, table', claims)
  {
    forall a | a in ins ensures InboundOk(ins[a], table', claims) {
      assert InboundOk(ins[a], table, claims);
    }
  }

  // ---- quiet steps --------------------------------------------------------------------------------------

  /** The step leaves attempts, the in-flight set, routes and claims alone. */
  ghost predicate Aside(s: State, s': State) {
    && s'.live == s.live && s'.inflight == s.inflight && s'.outbound == s.outbound && s'.inbound == s.inbound
    && s'.busy == s.busy && s'.table == s.table && s'.claims == s.claims && s.nextId <= s'.nextId
  }

  /** Stored tuples are the ones found, or unowned ones that are not in flight. */
  ghost predicate NoNewOwner(bindings: map<string, Bind>, bindings': map<string, Bind>) {
    forall p :: p in bindings' ==>
      (p in bindings && bindings'[p] == bindings[p]) || (bindings'[p].owner == None && bindings'[p].phase != Inflight)
  }

  ghost predicate Quiet(s: State, s': State) {
    Aside(s, s') && Filed(s'.candidates) && Filed(s'.lan) && NoNewOwner(s.bindings, s'.bindings)
  }

  lemma NoNewOwnerKeepsOwned(bindings: map<string, Bind>, bindings': map<string, Bind>, outs: Outs, ins: Ins)
    requires Owned(bindings, outs, ins) && NoNewOwner(bindings, bindings')
    ensures Owned(bindings', outs, ins)
  {
  }

  lemma QuietKeepsInv(s: State, s': State)
    requires Inv(s) && Quiet(s, s')
    ensures Inv(s')
  {
    NoNewOwnerKeepsOwned(s.bindings, s'.bindings, s.outbound, s.inbound);
  }

  lemma AdoptIsQuiet(s: State, relay: Relay, peer: string, rank: nat)
    requires Filed(s.candidates) && Filed(s.lan)
    ensures Quiet(s, Adopt(s, relay, peer, rank))
  {
  }

  lemma RssIsQuiet(s: State, relay: Relay, peer: string)
    requires Filed(s.candidates) && Filed(s.lan)
    ensures Quiet(s, ApplyRssPeer(s, relay, peer))
  {
    if Adopts(s, relay, peer) {
      AdoptIsQuiet(s, relay, peer, Rank(s.config.relayPeers, relay.id));
    } else {
    }
  }

  lemma HintIsQuiet(s: State, info: PeerInfo, node: string)
    requires Filed(s.candidates) && Filed(s.lan)
    ensures Quiet(s, ApplyHint(s, info, node))
  {
  }

  lemma FallbackIsQuiet(s: State, destination: R.PeerRoute)
    requires Filed(s.candidates) && Filed(s.lan)
    ensures Quiet(s, ApplySendFallback(s, destination))
  {
    if FallsBack(s, destination) {
    } else {
    }
  }

  lemma LanSeenIsQuiet(s: State, info: PeerInfo)
    requires Filed(s.candidates) && Filed(s.lan)
    ensures Quiet(s, ApplyLanSeen(s, info))
  {
  }

  lemma AdmissionIsQuiet(s: State)
    requires Filed(s.candidates) && Filed(s.lan)
    ensures Quiet(s, ApplyAdmissionChanged(s))
  {
    if s.live {
    } else {
    }
  }

  lemma DialIsQuiet(s: State, a: nat)
    requires Filed(s.candidates) && Filed(s.lan) && a in s.outbound
    ensures Quiet(s, ApplyOutDial(s, a))
  {
    if ViaCircuit(s.outbound[a].info) {
    } else {
    }
  }

  lemma DisconnectIsQuiet(s: State, peer: string)
    requires Filed(s.candidates) && Filed(s.lan)
    ensures Quiet(s, ApplyDisconnected(s, peer))
  {
    if peer in s.inflight {
    } else {
    }
  }

  lemma LanScheduledIsQuiet(s: State, info: PeerInfo)
    requires Filed(s.candidates) && Filed(s.lan)
    ensures Quiet(s, ApplyLanScheduled(s, info))
  {
    if IsLan(s, info) {
    } else {
    }
  }

  lemma LanGoneIsQuiet(s: State, peer: string)
    requires Filed(s.candidates) && Filed(s.lan)
    ensures Quiet(s, ApplyLanGone(s, peer))
  {
    if s.live {
    } else {
    }
  }

  lemma RestoreIsQuiet(s: State, peer: string, endpoint: string, info: PeerInfo)
    requires Filed(s.candidates) && Filed(s.lan)
    ensures Quiet(s, ApplyAdmissionRestored(s, peer, endpoint))
    ensures Quiet(s, ApplyAdmissionScheduled(s, peer, endpoint, info))
  {
    if Queued(s, peer, endpoint) {
    } else {
    }
  }

  // ---- every step keeps the invariant -----------------------------------------------------------------

  lemma GateKeepsInv(s: State, info: PeerInfo)
    requires Inv(s) && LoopFree(s)
    ensures Inv(ApplyGate(s, info))
  {
    if GateOpen(s, info) {
      var a := s.nextId;
      var o := ApplyGate(s, info).outbound[a];
      StartKeepsMutex(s.inflight, s.outbound, a, o);
      StartKeepsOwned(s.bindings, s.outbound, s.inbound, a, o, o.endpoint);
      OutKeepsLoop(s.busy, None, s.outbound, s.inbound, a, o);
      OutKeepsAttempts(s.outbound, s.inbound, s.table, s.claims, a, o);
    } else {
    }
  }

  /** An outbound attempt moves on without giving up its tuple. */
  lemma OutMoves(s: State, s': State, a: nat, o: Outbound)
    requires Inv(s) && a in s.outbound && o.info == s.outbound[a].info && !o.pc.Ending?
    requires s'.outbound == s.outbound[a := o] && s'.inbound == s.inbound && s'.nextId == s.nextId
    requires s'.live == s.live && s'.inflight == s.inflight && s'.bindings == s.bindings
    requires s'.candidates == s.candidates && s'.lan == s.lan
    requires s.busy == None || s.busy == Some(a)
    requires s'.busy == if o.HoldsLoop() then Some(a) else None
    requires AllBacked(s'.table, s'.claims) && Attempts(s.outbound, s.inbound, s'.table, s'.claims)
    requires OutboundOk(o, s'.claims)
    ensures Inv(s')
  {
    MoveKeepsMutex(s.live, s.inflight, s.outbound, a, o);
    OutStayKeepsOwned(s.bindings, s.outbound, s.inbound, a, o);
    OutKeepsLoop(s.busy, s'.busy, s.outbound, s.inbound, a, o);
    OutKeepsAttempts(s.outbound, s.inbound, s'.table, s'.claims, a, o);
  }

  /** An outbound attempt gives up its tuple and is on its way out. */
  lemma OutYields(s: State, s': State, a: nat, o: Outbound)
    requires Inv(s) && a in s.outbound && o.info == s.outbound[a].info && o.endpoint == s.outbound[a].endpoint
    requires o.pc.Ending?
    requires s'.outbound == s.outbound[a := o] && s'.inbound == s.inbound && s'.nextId == s.nextId
    requires s'.live == s.live && s'.inflight == s.inflight && Yielded(s.bindings, s'.bindings, a)
    requires s'.candidates == s.candidates && s'.lan == s.lan && s'.table == s.table && s'.claims == s.claims
    requires s.busy == None || s.busy == Some(a)
    requires s'.busy == None
    ensures Inv(s')
  {
    MoveKeepsMutex(s.live, s.inflight, s.outbound, a, o);
    OutYieldKeepsOwned(s.bindings, s'.bindings, s.outbound, s.inbound, a, o);
    OutKeepsLoop(s.busy, None, s.outbound, s.inbound, a, o);
    assert OutboundOk(s.outbound[a], s.claims);
    OutKeepsAttempts(s.outbound, s.inbound, s.table, s.claims, a, o);
  }

  lemma OutVerifyKeepsInv(s: State, a: nat, node: string)
    requires Inv(s) && LoopFree(s) && a in s.outbound && s.outbound[a].pc.Connecting?
    ensures Inv(ApplyOutVerify(s, a, node))
  {
    assert OutboundOk(s.outbound[a], s.claims);
    MoreClaims(s.outbound, s.inbound, s.table, s.claims, {(node, s.outbound[a].Peer())});
    OutMoves(s, ApplyOutVerify(s, a, node), a, s.outbound[a].(pc := Verified, node := node));
  }

  lemma OutCheckKeepsInv(s: State, a: nat)
    requires Inv(s) && LoopFree(s) && a in s.outbound && s.outbound[a].pc.Verified?
    ensures Inv(ApplyOutCheck(s, a))
  {
    assert OutboundOk(s.outbound[a], s.claims);
    OutMoves(s, ApplyOutCheck(s, a), a, ApplyOutCheck(s, a).outbound[a]);
  }

  lemma ConcedeKeepsInv(s: State, a: nat, endpoint: string)
    requires Inv(s) && a in s.outbound && s.outbound[a].pc.Deciding?
    ensures Inv(Concede(s, a, endpoint))
  {
    GivesUp(s.bindings, s.outbound, s.inbound, a, s.outbound[a].Peer(), Healthy, endpoint);
    OutYields(s, Concede(s, a, endpoint), a, s.outbound[a].(pc := Ending));
  }

  lemma OutDecideKeepsInv(s: State, a: nat, won: bool)
    requires Inv(s) && a in s.outbound && s.outbound[a].pc.Deciding?
    ensures Inv(ApplyOutDecide(s, a, won))
  {
    if won {
      ConcedeKeepsInv(s, a, CurrentEndpoint(s.outbound[a]));
    } else {
      assert OutboundOk(s.outbound[a], s.claims);
      OutMoves(s, ApplyOutDecide(s, a, won), a, s.outbound[a].(pc := Installing));
    }
  }

  /** While an attempt holds the event loop no exchange is reading an entry. */
  lemma HolderExcludesReaders(s: State, a: nat)
    requires Inv(s) && s.busy == Some(a)
    ensures forall b :: b in s.inbound && (s.inbound[b].pc.Choosing? || s.inbound[b].pc.Adopting?) ==> b == a
  {
  }

  lemma OutInstallKeepsInv(s: State, a: nat)
    requires Inv(s) && a in s.outbound && s.outbound[a].pc.Installing?
    ensures Inv(ApplyOutInstall(s, a))
  {
    var op := OutOp(s.outbound[a]);
    assert OutboundOk(s.outbound[a], s.claims);
    InstallKeepsBacked(s.table, s.claims, op);
    HolderExcludesReaders(s, a);
    TableKeepsAttempts(s.outbound, s.inbound, s.table, R.Apply(s.table, op), s.claims);
    OutMoves(s, ApplyOutInstall(s, a), a, s.outbound[a].(pc := Marking));
  }

  lemma OutMarkKeepsInv(s: State, a: nat)
    requires Inv(s) && a in s.outbound && s.outbound[a].pc.Marking?
    ensures Inv(ApplyOutMark(s, a))
  {
    GivesUp(s.bindings, s.outbound, s.inbound, a, s.outbound[a].Peer(), Healthy, s.outbound[a].endpoint);
    OutYields(s, ApplyOutMark(s, a), a, s.outbound[a].(pc := Ending, healthy := true));
  }

  lemma OutFailKeepsInv(s: State, a: nat)
    requires Inv(s) && a in s.outbound && (LoopFree(s) || s.busy == Some(a))
    ensures Inv(ApplyOutFail(s, a))
  {
    GivesUp(s.bindings, s.outbound, s.inbound, a, s.outbound[a].Peer(), Rejected, s.outbound[a].endpoint);
    OutYields(s, ApplyOutFail(s, a), a, s.outbound[a].(pc := Ending));
  }

  lemma OutCancelKeepsInv(s: State, a: nat)
    requires Inv(s) && LoopFree(s) && a in s.outbound
    ensures Inv(ApplyOutCancel(s, a))
  {
    GivesUp(s.bindings, s.outbound, s.inbound, a, s.outbound[a].Peer(), Rejected, "");
    OutYields(s, ApplyOutCancel(s, a), a, s.outbound[a].(pc := Ending));
  }

  lemma OutEndKeepsInv(s: State, a: nat)
    requires Inv(s) && LoopFree(s) && a in s.outbound && s.outbound[a].pc.Ending?
    ensures Inv(ApplyOutEnd(s, a))
  {
    EndKeepsMutex(s.live, s.inflight, s.outbound, a);
    OutGoneKeepsOwned(s.bindings, s.outbound, s.inbound, a);
    GoneKeepsLoop(s.busy, s.outbound, s.inbound, a);
    GoneKeepsAttempts(s.outbound, s.inbound, s.table, s.claims, a);
  }

  lemma InStartKeepsInv(s: State, peer: string, peerstore: Option<seq<string>>)
    requires Inv(s) && LoopFree(s)
    ensures Inv(ApplyInStart(s, peer, peerstore))
  {
    var a := s.nextId;
    var i := ApplyInStart(s, peer, peerstore).inbound[a];
    AnswerKeepsOwned(s.bindings, s.outbound, s.inbound, a, i, i.endpoint);
    InKeepsLoop(s.busy, None, s.outbound, s.inbound, a, i);
    InKeepsAttempts(s.outbound, s.inbound, s.table, s.claims, a, i);
  }

  /** An exchange moves on without giving up its tuple. */
  lemma InMoves(s: State, s': State, a: nat, i: Inbound)
    requires Inv(s) && a in s.inbound && i.peer == s.inbound[a].peer && !i.pc.Answering?
    requires s'.inbound == s.inbound[a := i] && s'.outbound == s.outbound && s'.nextId == s.nextId
    requires s'.live == s.live && s'.inflight == s.inflight && s'.bindings == s.bindings
    requires s'.candidates == s.candidates && s'.lan == s.lan
    requires s.busy == None || s.busy == Some(a)
    requires s'.busy == if i.HoldsLoop() then Some(a) else None
    requires AllBacked(s'.table, s'.claims) && Attempts(s.outbound, s.inbound - {a}, s'.table, s'.claims)
    requires InboundOk(i, s'.table, s'.claims)
    ensures Inv(s')
  {
    InStayKeepsOwned(s.bindings, s.outbound, s.inbound, a, i);
    InKeepsLoop(s.busy, s'.busy, s.outbound, s.inbound, a, i);
    InKeepsAttempts(s.outbound, s.inbound - {a}, s'.table, s'.claims, a, i);
    assert (s.inbound - {a})[a := i] == s.inbound[a := i];
  }

  lemma InVerifyKeepsInv(s: State, a: nat, node: string)
    requires Inv(s) && LoopFree(s) && a in s.inbound && s.inbound[a].pc.Exchanging?
    ensures Inv(ApplyInVerify(s, a, node))
  {
    var s' := ApplyInVerify(s, a, node);
    assert InboundOk(s.inbound[a], s.table, s.claims);
    MoreClaims(s.outbound, s.inbound, s.table, s.claims, {(node, s.inbound[a].peer)});
    GoneKeepsAttempts(s.outbound, s.inbound, s.table, s'.claims, a);
    InMoves(s, s', a, s'.inbound[a]);
  }

  predicate DirectChoice(endpoint: string) { endpoint != "" && !R.IsCircuit(endpoint) }

  /** Every choice of endpoint names the peer, and a known circuit to it gives way to a direct path only
      over a stream proven direct. */
  lemma ChoiceNamesPeer(s: State, i: Inbound, direct: bool, relayed: bool)
    requires Filed(s.lan) && NamesPeer(i.endpoint, i.peer)
    requires i.current.Some? && i.current.value.transportPeerId == Some(i.peer) && i.current.value.endpoint.Some? ==>
      NamesPeer(i.current.value.endpoint.value, i.peer)
    ensures NamesPeer(InEndpoint(s, i, direct, relayed), i.peer)
    ensures CircuitFor(i.current, i.peer) && DirectChoice(InEndpoint(s, i, direct, relayed)) ==> LanDirect(s, i, direct)
  {
  }

  lemma CurrentNamesPeer(s: State, i: Inbound)
    requires AllBacked(s.table, s.claims) && SameRoute(Entry(s.table, i.node), i.current)
    ensures i.current.Some? && i.current.value.transportPeerId == Some(i.peer) && i.current.value.endpoint.Some? ==>
      NamesPeer(i.current.value.endpoint.value, i.peer)
  {
    if i.current.Some? {
      assert Backed(s.table.discovered[i.node], i.node, s.claims);
    }
  }

  lemma InChooseKeepsInv(s: State, a: nat, direct: bool, relayed: bool)
    requires Inv(s) && a in s.inbound && s.inbound[a].pc.Choosing?
    ensures Inv(ApplyInChoose(s, a, direct, relayed))
  {
    var s' := ApplyInChoose(s, a, direct, relayed);
    assert InboundOk(s.inbound[a], s.table, s.claims);
    CurrentNamesPeer(s, s.inbound[a]);
    ChoiceNamesPeer(s, s.inbound[a], direct, relayed);
    GoneKeepsAttempts(s.outbound, s.inbound, s.table, s.claims, a);
    InMoves(s, s', a, s'.inbound[a]);
  }

  /** What the table answers after an install names the installed peer's transport identity when the
      retained route does. */
  lemma KeptNamesPeer(table: R.Table, claims: set<(string, string)>, op: R.Op)
    requires AllBacked(table, claims) && op.Install? && R.ValidNodeId(op.peerId)
    requires EndsWith(op.endpoint, Suffix(op.transportPeerId))
    ensures var table' := R.Apply(table, op);
      && op.peerId in table'.discovered && table'.discovered[op.peerId].endpoint.Some?
      && NamesPeer(table'.discovered[op.peerId].endpoint.value, op.transportPeerId)
  {
    if R.Effective(table, op, op.peerId) {
    } else {
      assert Backed(table.discovered[op.peerId], op.peerId, claims);
    }
  }

  lemma InInstallKeepsInv(s: State, a: nat)
    requires Inv(s) && a in s.inbound && s.inbound[a].pc.Adopting? && R.ValidNodeId(s.inbound[a].node)
    ensures Inv(ApplyInInstall(s, a))
  {
    var op := InOp(s.inbound[a]);
    var s' := ApplyInInstall(s, a);
    assert InboundOk(s.inbound[a], s.table, s.claims);
    InstallKeepsBacked(s.table, s.claims, op);
    KeptNamesPeer(s.table, s.claims, op);
    HolderExcludesReaders(s, a);
    GoneKeepsAttempts(s.outbound, s.inbound, s.table, s.claims, a);
    TableKeepsAttempts(s.outbound, s.inbound - {a}, s.table, s'.table, s.claims);
    InMoves(s, s', a, s'.inbound[a]);
  }

  lemma InMarkKeepsInv(s: State, a: nat)
    requires Inv(s) && a in s.inbound && s.inbound[a].pc.Recording?
    ensures Inv(ApplyInMark(s, a))
  {
    var i := s.inbound[a].(pc := Answering);
    assert InboundOk(s.inbound[a], s.table, s.claims);
    GivesUp(s.bindings, s.outbound, s.inbound, a, i.peer, Healthy, i.endpoint);
    InYieldKeepsOwned(s.bindings, ApplyInMark(s, a).bindings, s.outbound, s.inbound, a, i);
    InKeepsLoop(s.busy, None, s.outbound, s.inbound, a, i);
    InKeepsAttempts(s.outbound, s.inbound, s.table, s.claims, a, i);
  }

  lemma InLeaves(s: State, a: nat, bindings: map<string, Bind>)
    requires Inv(s) && a in s.inbound && (LoopFree(s) || s.busy == Some(a)) && Yielded(s.bindings, bindings, a)
    ensures Inv(s.(bindings := bindings, busy := None, inbound := s.inbound - {a}))
  {
    InYieldKeepsOwned(s.bindings, bindings, s.outbound, s.inbound, a, s.inbound[a]);
    GoneKeepsLoop(s.busy, s.outbound, s.inbound, a);
    GoneKeepsAttempts(s.outbound, s.inbound, s.table, s.claims, a);
  }

  lemma InReleaseKeepsInv(s: State, a: nat)
    requires Inv(s) && a in s.inbound && (LoopFree(s) || s.busy == Some(a))
    ensures Inv(ApplyInRelease(s, a))
  {
    var peer := s.inbound[a].peer;
    if Owns(s, a, peer) {
      var endpoint := s.bindings[peer].endpoint;
      GivesUp(s.bindings, s.outbound, s.inbound, a, peer, Rejected, endpoint);
      InLeaves(s, a, s.bindings[peer := Bind(endpoint, Rejected, None)]);
    } else {
      GivesUp(s.bindings, s.outbound, s.inbound, a, peer, Rejected, "");
      InLeaves(s, a, s.bindings);
    }
  }

  lemma InEndKeepsInv(s: State, a: nat)
    requires Inv(s) && LoopFree(s) && a in s.inbound && s.inbound[a].pc.Answering?
    ensures Inv(s.(inbound := s.inbound - {a}))
  {
    InGoneKeepsOwned(s.bindings, s.outbound, s.inbound, a);
    GoneKeepsLoop(s.busy, s.outbound, s.inbound, a);
    GoneKeepsAttempts(s.outbound, s.inbound, s.table, s.claims, a);
  }

  lemma ReportKeepsInv(s: State, op: R.Op)
    requires Inv(s) && !op.Install?
    ensures Inv(s.(table := R.Apply(s.table, op)))
  {
    ReportKeepsBacked(s.table, s.claims, op);
    forall a | a in s.inbound
      ensures SameRoute(Entry(R.Apply(s.table, op), s.inbound[a].node), Entry(s.table, s.inbound[a].node))
    {
      ReportKeepsEntry(s.table, op, s.inbound[a].node);
    }
    TableKeepsAttempts(s.outbound, s.inbound, s.table, R.Apply(s.table, op), s.claims);
  }

  lemma RetireKeepsInv(s: State)
    requires Inv(s)
    ensures Inv(ApplyRetire(s))
  {
  }

  lemma {:induction false} BootstrappedFiled(candidates: map<string, PeerInfo>, infos: seq<PeerInfo>)
    requires Filed(candidates) && AllDialable(infos)
    ensures Filed(Bootstrapped(candidates, infos))
    decreases |infos|
  {
    if infos != [] { BootstrappedFiled(candidates[infos[0].peerId := infos[0]], infos[1..]); }
  }

  lemma {:induction false} OthersDialable(infos: seq<PeerInfo>, localId: string)
    requires AllDialable(infos)
    ensures AllDialable(Others(infos, localId))
  {
    if infos != [] { OthersDialable(infos[1..], localId); }
  }

  lemma PublishKeepsInv(s: State, infos: seq<PeerInfo>)
    requires Inv(s) && LoopFree(s) && s.outbound == map[] && s.inbound == map[] && AllDialable(infos)
    ensures Inv(ApplyPublish(s, infos))
  {
    OthersDialable(infos, s.config.localId);
    BootstrappedFiled(s.candidates, Others(infos, s.config.localId));
  }
}
