/** Guarantees of route binding over whole runs, under any interleaving of its tasks. */
module BindingRuns {
  import opened Strings
  import opened Endpoints
  import opened Binding
  import opened BindingSafety
  import R = Routing

  // ---- every step, then every run, keeps the invariant -----------------------------------------------

  lemma OutboundStep(s: State, step: OutStep)
    requires Inv(s) && OutEnabled(s, step)
    ensures Inv(OutNext(s, step))
  {
    match step
    case Gate(info) => GateKeepsInv(s, info);
    case OutDial(a) => DialIsQuiet(s, a); QuietKeepsInv(s, ApplyOutDial(s, a));
    case OutVerify(a, node, _) => OutVerifyKeepsInv(s, a, node);
    case OutCheck(a) => OutCheckKeepsInv(s, a);
    case OutDecide(a, won) => OutDecideKeepsInv(s, a, won);
    case OutInstall(a) => OutInstallKeepsInv(s, a);
    case OutMark(a) => OutMarkKeepsInv(s, a);
    case OutFail(a) => OutFailKeepsInv(s, a);
    case OutCancel(a) => OutCancelKeepsInv(s, a);
    case OutEnd(a) => OutEndKeepsInv(s, a);
  }

  lemma InboundStep(s: State, step: InStep)
    requires Inv(s) && InEnabled(s, step)
    ensures Inv(InNext(s, step))
  {
    match step
    case InStart(peer, peerstore) => InStartKeepsInv(s, peer, peerstore);
    case InVerify(a, node) => InVerifyKeepsInv(s, a, node);
    case InChoose(a, direct, relayed) => InChooseKeepsInv(s, a, direct, relayed);
    case InInstall(a) => InInstallKeepsInv(s, a);
    case InMark(a) => InMarkKeepsInv(s, a);
    case InRelease(a) => InReleaseKeepsInv(s, a);
    case InEnd(a) => InEndKeepsInv(s, a);
  }

  lemma DiscoveryIsQuiet(s: State, step: Discovery)
    requires Filed(s.candidates) && Filed(s.lan)
    ensures Quiet(s, DiscNext(s, step))
  {
    match step
    case Disconnected(peer) => DisconnectIsQuiet(s, peer);
    case LanSeen(info) => LanSeenIsQuiet(s, info);
    case LanScheduled(info) => LanScheduledIsQuiet(s, info);
    case LanGone(peer) => LanGoneIsQuiet(s, peer);
    case RssPeer(relay, peer) => RssIsQuiet(s, relay, peer);
    case RelayState(_, _) =>
    case HintSubmitted(info, node) => HintIsQuiet(s, info, node);
  }

  lemma ControlStep(s: State, step: Control)
    requires Inv(s) && CtlEnabled(s, step)
    ensures Inv(CtlNext(s, step))
  {
    match step
    case RouteReport(op) => ReportKeepsInv(s, op);
    case SendFallback(destination) =>
      FallbackIsQuiet(s, destination);
      QuietKeepsInv(s, ApplySendFallback(s, destination));
    case AdmissionChanged => AdmissionIsQuiet(s); QuietKeepsInv(s, ApplyAdmissionChanged(s));
    case AdmissionScheduled(peer, endpoint, info) =>
      RestoreIsQuiet(s, peer, endpoint, info); QuietKeepsInv(s, ApplyAdmissionScheduled(s, peer, endpoint, info));
    case AdmissionRestored(peer, endpoint) =>
      RestoreIsQuiet(s, peer, endpoint, PeerInfo(0, "", []));
      QuietKeepsInv(s, ApplyAdmissionRestored(s, peer, endpoint));
    case Retire => RetireKeepsInv(s);
    case Publish(infos) => PublishKeepsInv(s, infos);
  }

  lemma StepKeepsInv(s: State, step: Step)
    requires Inv(s) && Enabled(s, step)
    ensures Inv(Next(s, step))
  {
    match step
    case Out(out) => OutboundStep(s, out);
    case In(inb) => InboundStep(s, inb);
    case Disc(disc) => DiscoveryIsQuiet(s, disc); QuietKeepsInv(s, DiscNext(s, disc));
    case Ctl(ctl) => ControlStep(s, ctl);
  }

  /** A daemon before its first host generation: no authenticated route yet. */
  ghost predicate IsInitial(s: State) {
    s == Initial(s.config, s.table) && R.Valid(s.table) && s.table.discovered == map[]
  }

  /** A run that starts in an initial state. */
  ghost predicate FullRun(trace: seq<State>, steps: seq<Step>) {
    IsRun(trace, steps) && IsInitial(trace[0])
  }

  lemma {:induction false} RunsKeepInv(trace: seq<State>, steps: seq<Step>, k: nat)
    requires FullRun(trace, steps) && k < |trace|
    ensures Inv(trace[k])
  {
    if k == 0 {
      assert Inv(Initial(trace[0].config, trace[0].table));
    } else {
      RunsKeepInv(trace, steps, k - 1);
      assert trace[k - 1 + 1] == Next(trace[k - 1], steps[k - 1]);
      StepKeepsInv(trace[k - 1], steps[k - 1]);
    }
  }

  // ---- what outbound steps leave alone -----------------------------------------------------------------

  predicate SameAttempt(o: Outbound, o': Outbound) {
    o'.info == o.info && o'.endpoint == o.endpoint && o'.lan == o.lan
  }

  /** The parts of the state no outbound step changes: exchanges and candidates. */
  predicate Beside(s: State, s': State) {
    && s'.inbound == s.inbound && s'.candidates == s.candidates && s'.lan == s.lan
    && s'.hints == s.hints && s'.ranks == s.ranks && s'.live == s.live
  }

  lemma GateEffect(s: State, info: PeerInfo)
    ensures var s' := ApplyGate(s, info);
      Beside(s, s') && s'.table == s.table && s'.claims == s.claims && s'.notified == s.notified
    ensures forall a :: a in s.outbound && a < s.nextId ==>
      a in ApplyGate(s, info).outbound && ApplyGate(s, info).outbound[a] == s.outbound[a]
  {
    if GateOpen(s, info) {
    } else {
    }
  }

  lemma DialEffect(s: State, a: nat)
    requires a in s.outbound
    ensures var s' := ApplyOutDial(s, a);
      && Beside(s, s') && s'.table == s.table && s'.claims == s.claims && s'.notified == s.notified
      && s'.outbound == s.outbound && s'.bindings == s.bindings
  {
    if ViaCircuit(s.outbound[a].info) {
    } else {
    }
  }

  lemma DecideEffect(s: State, a: nat, won: bool)
    requires a in s.outbound
    ensures var s' := ApplyOutDecide(s, a, won);
      && Beside(s, s') && s'.table == s.table && s'.claims == s.claims && s'.notified == s.notified
      && s'.outbound == s.outbound[a := s.outbound[a].(pc := if won then Ending else Installing)]
  {
    if won {
    } else {
    }
  }

  predicate Settled(s: State, s': State) {
    Beside(s, s') && s'.claims == s.claims && s'.table == s.table && s'.notified == s.notified
  }

  lemma ExitFrame(s: State, a: nat)
    requires a in s.outbound
    ensures var s' := ApplyOutCancel(s, a); Beside(s, s') && s'.claims == s.claims && s'.table == s.table
    ensures var s' := ApplyOutEnd(s, a); Beside(s, s') && s'.claims == s.claims && s'.table == s.table
  {
  }

  lemma MarkFrame(s: State, a: nat)
    requires a in s.outbound
    ensures Settled(s, ApplyOutMark(s, a)) && Settled(s, ApplyOutFail(s, a)) && Settled(s, ApplyOutCheck(s, a))
  {
  }

  lemma WriteFrame(s: State, a: nat, node: string)
    requires a in s.outbound
    ensures var s' := ApplyOutVerify(s, a, node); Beside(s, s') && s'.table == s.table && s'.notified == s.notified
    ensures var s' := ApplyOutInstall(s, a); Beside(s, s') && s'.claims == s.claims && s'.notified == s.notified
  {
  }

  /** Outbound steps change claims only by verifying, the table only by installing, and announcements
      only by ending or cancelling. */
  lemma OutFrame(s: State, step: OutStep)
    requires OutEnabled(s, step)
    ensures Beside(s, OutNext(s, step))
    ensures !step.OutVerify? ==> OutNext(s, step).claims == s.claims
    ensures !step.OutInstall? ==> OutNext(s, step).table == s.table
    ensures !step.OutEnd? && !step.OutCancel? ==> OutNext(s, step).notified == s.notified
  {
    match step
    case OutDecide(a, won) => DecideEffect(s, a, won);
    case Gate(info) => GateEffect(s, info);
    case OutDial(a) => DialEffect(s, a);
    case OutVerify(a, node, _) => WriteFrame(s, a, node);
    case OutInstall(a) => WriteFrame(s, a, "");
    case OutCancel(a) => ExitFrame(s, a);
    case OutEnd(a) => ExitFrame(s, a);
    case OutMark(a) => MarkFrame(s, a);
    case OutFail(a) => MarkFrame(s, a);
    case OutCheck(a) => MarkFrame(s, a);
  }

  /** What an attempt is after stays fixed while it runs. */
  lemma OutPersists(s: State, step: OutStep, a: nat)
    requires OutEnabled(s, step) && a in s.outbound && a < s.nextId && a in OutNext(s, step).outbound
    ensures SameAttempt(s.outbound[a], OutNext(s, step).outbound[a])
  {
    match step
    case OutDecide(b, won) => DecideEffect(s, b, won);
    case Gate(info) => GateEffect(s, info);
    case OutDial(b) => DialEffect(s, b);
    case _ =>
  }

  // ---- binding ownership -------------------------------------------------------------------------------

  /** In every state of every run: at most one outbound attempt per transport peer is past the gate;
      while a generation is live the in-flight set holds exactly those peers; and every stored
      in-flight tuple belongs to an attempt for that peer that is still running. */
  lemma BindingOwnership(trace: seq<State>, steps: seq<Step>, k: nat)
    requires FullRun(trace, steps) && k < |trace|
    ensures var s := trace[k];
      && (forall a, b :: a in s.outbound && b in s.outbound && s.outbound[a].Peer() == s.outbound[b].Peer() ==> a == b)
      && (s.live ==> forall p :: p in s.inflight <==> exists a :: AttemptFor(s.outbound, a, p))
      && (forall p :: p in s.bindings && s.bindings[p].phase == Inflight ==>
            s.bindings[p].owner.Some? && Running(s.outbound, s.inbound, s.bindings[p].owner.value, p))
  {
    RunsKeepInv(trace, steps, k);
    var s := trace[k];
    if s.live {
      forall p ensures p in s.inflight <==> exists a :: AttemptFor(s.outbound, a, p) {
        if exists a :: AttemptFor(s.outbound, a, p) {
          var a :| AttemptFor(s.outbound, a, p);
        }
      }
    }
  }

  /** No peer stays in flight: once all attempts have ended, however they ended, nothing is in flight and
      no peer is locked. */
  lemma NothingStuck(trace: seq<State>, steps: seq<Step>, k: nat)
    requires FullRun(trace, steps) && k < |trace| && trace[k].outbound == map[] && trace[k].inbound == map[]
    ensures trace[k].inflight == {}
    ensures forall p :: p in trace[k].bindings ==> trace[k].bindings[p].phase != Inflight
  {
    RunsKeepInv(trace, steps, k);
    var s := trace[k];
    assert forall a, p :: !AttemptFor(s.outbound, a, p);
  }

  /** The attempt that takes a step, except for the steps that start one. */
  function Actor(step: Step): Option<nat> {
    match step
    case Out(out) => if out.Gate? then None else Some(out.a)
    case In(inb) => if inb.InStart? then None else Some(inb.a)
    case _ => None
  }

  lemma OutDecideTouchesItsOwn(s: State, a: nat, won: bool, peer: string)
    requires a in s.outbound
    ensures Owns(s, a, peer) || Get(ApplyOutDecide(s, a, won).bindings, peer) == Get(s.bindings, peer)
  {
    if won {
      ConcedeTouchesItsOwn(s, a, CurrentEndpoint(s.outbound[a]), peer);
    } else {
    }
  }

  lemma ConcedeTouchesItsOwn(s: State, a: nat, endpoint: string, peer: string)
    requires a in s.outbound
    ensures Owns(s, a, peer) || Get(Concede(s, a, endpoint).bindings, peer) == Get(s.bindings, peer)
  {
    if Owns(s, a, s.outbound[a].Peer()) {
    } else {
    }
  }

  lemma OutCancelTouchesItsOwn(s: State, a: nat, peer: string)
    requires a in s.outbound
    ensures Owns(s, a, peer) || Get(ApplyOutCancel(s, a).bindings, peer) == Get(s.bindings, peer)
  {
    if Owns(s, a, s.outbound[a].Peer()) {
    } else {
    }
  }

  lemma OutMarkTouchesItsOwn(s: State, a: nat, peer: string)
    requires a in s.outbound
    ensures Owns(s, a, peer) || Get(ApplyOutMark(s, a).bindings, peer) == Get(s.bindings, peer)
  {
  }

  lemma OutFailTouchesItsOwn(s: State, a: nat, peer: string)
    requires a in s.outbound
    ensures Owns(s, a, peer) || Get(ApplyOutFail(s, a).bindings, peer) == Get(s.bindings, peer)
  {
  }

  lemma BindingsStay(s: State, a: nat, node: string)
    requires a in s.outbound
    ensures ApplyOutVerify(s, a, node).bindings == s.bindings && ApplyOutCheck(s, a).bindings == s.bindings
    ensures ApplyOutInstall(s, a).bindings == s.bindings && ApplyOutEnd(s, a).bindings == s.bindings
  {
  }

  lemma OutTouchesOnlyItsOwn(s: State, step: OutStep, peer: string)
    requires OutEnabled(s, step) && !step.Gate?
    ensures Owns(s, step.a, peer) || Get(OutNext(s, step).bindings, peer) == Get(s.bindings, peer)
  {
    match step
    case OutDecide(a, won) => OutDecideTouchesItsOwn(s, a, won, peer);
    case OutCancel(a) => OutCancelTouchesItsOwn(s, a, peer);
    case OutDial(a) => DialEffect(s, a);
    case OutMark(a) => OutMarkTouchesItsOwn(s, a, peer);
    case OutFail(a) => OutFailTouchesItsOwn(s, a, peer);
    case OutVerify(a, node, _) => BindingsStay(s, a, node);
    case OutCheck(a) => BindingsStay(s, a, "");
    case OutInstall(a) => BindingsStay(s, a, "");
    case OutEnd(a) => BindingsStay(s, a, "");
  }

  lemma InTouchesOnlyItsOwn(s: State, step: InStep, peer: string)
    requires InEnabled(s, step) && !step.InStart? && Get(InNext(s, step).bindings, peer) != Get(s.bindings, peer)
    ensures Owns(s, step.a, peer)
  {
  }

  /** An attempt that goes on or ends never overwrites or removes a tuple another attempt stored. */
  lemma NeverOverwritesAnother(s: State, step: Step, peer: string)
    requires Enabled(s, step) && Actor(step).Some?
    requires Get(Next(s, step).bindings, peer) != Get(s.bindings, peer)
    ensures Owns(s, Actor(step).value, peer)
  {
    match step
    case Out(out) => OutTouchesOnlyItsOwn(s, out, peer);
    case In(inb) => InTouchesOnlyItsOwn(s, inb, peer);
  }

  // ---- authenticated routes ------------------------------------------------------------------------------

  /** The step in which a claim of `node` over transport identity `id` was verified. */
  predicate Verifies(s: State, step: Step, node: string, id: string) {
    match step
    case Out(OutVerify(a, n, _)) => a in s.outbound && n == node && s.outbound[a].Peer() == id
    case In(InVerify(a, n)) => a in s.inbound && n == node && s.inbound[a].peer == id
    case _ => false
  }

  lemma OutClaims(s: State, step: OutStep, node: string, id: string)
    requires OutEnabled(s, step) && (node, id) in OutNext(s, step).claims && (node, id) !in s.claims
    ensures Verifies(s, Out(step), node, id)
  {
    OutFrame(s, step);
  }

  lemma InClaims(s: State, step: InStep, node: string, id: string)
    requires InEnabled(s, step) && (node, id) in InNext(s, step).claims && (node, id) !in s.claims
    ensures Verifies(s, In(step), node, id)
  {
  }

  lemma CtlKeepsClaims(s: State, step: Control)
    ensures CtlNext(s, step).claims == s.claims
    ensures !step.RouteReport? ==> CtlNext(s, step).table == s.table
  {
  }

  lemma StepClaims(s: State, step: Step, node: string, id: string)
    requires Inv(s) && Enabled(s, step) && (node, id) in Next(s, step).claims && (node, id) !in s.claims
    ensures Verifies(s, step, node, id)
  {
    match step
    case Out(out) => OutClaims(s, out, node, id);
    case In(inb) => InClaims(s, inb, node, id);
    case Disc(disc) => DiscoveryIsQuiet(s, disc);
    case Ctl(ctl) => CtlKeepsClaims(s, ctl);
  }

  lemma {:induction false} ClaimsWereVerified(
      trace: seq<State>, steps: seq<Step>, k: nat, node: string, id: string)
    returns (j: nat)
    requires FullRun(trace, steps) && k < |trace| && (node, id) in trace[k].claims
    ensures j < k && Verifies(trace[j], steps[j], node, id)
  {
    assert k > 0;
    assert trace[k - 1 + 1] == Next(trace[k - 1], steps[k - 1]);
    if (node, id) in trace[k - 1].claims {
      j := ClaimsWereVerified(trace, steps, k - 1, node, id);
    } else {
      j := k - 1;
      RunsKeepInv(trace, steps, k - 1);
      StepClaims(trace[k - 1], steps[k - 1], node, id);
    }
  }

  /** In every state of every run, every discovered route is keyed by its own valid node identity, was
      preceded by a verified claim for exactly that node and transport identity, and has an endpoint
      ending in `/p2p/<that identity>`, whichever endpoint choice produced it. */
  lemma RoutesAreAuthenticated(trace: seq<State>, steps: seq<Step>, k: nat, node: string) returns (j: nat)
    requires FullRun(trace, steps) && k < |trace| && node in trace[k].table.discovered
    ensures var route := trace[k].table.discovered[node];
      && route.peerId == node && R.ValidNodeId(node)
      && route.transportPeerId.Some? && route.endpoint.Some?
      && EndsWith(route.endpoint.value, "/p2p/" + route.transportPeerId.value)
      && j < k && Verifies(trace[j], steps[j], node, route.transportPeerId.value)
  {
    RunsKeepInv(trace, steps, k);
    var route := trace[k].table.discovered[node];
    assert Backed(route, node, trace[k].claims);
    j := ClaimsWereVerified(trace, steps, k, node, route.transportPeerId.value);
  }

  // ---- direct paths and circuits --------------------------------------------------------------------------

  /** The step in which exchange `a` found a LAN candidate for its peer and its own stream direct. */
  predicate FindsDirect(s: State, step: Step, a: nat) {
    match step
    case In(InChoose(b, direct, _)) => b == a && a in s.inbound && direct && s.inbound[a].peer in s.lan
    case _ => false
  }

  lemma CtlKeepsIn(s: State, step: Control)
    ensures CtlNext(s, step).inbound == s.inbound
  {
    match step
    case SendFallback(d) => if FallsBack(s, d) {} else {}
    case AdmissionChanged => if s.live {} else {}
    case AdmissionScheduled(p, e, _) => if Queued(s, p, e) {} else {}
    case AdmissionRestored(p, e) => if Queued(s, p, e) {} else {}
    case _ =>
  }

  lemma DirectnessIsFound(s: State, step: Step, a: nat)
    requires Inv(s) && Enabled(s, step) && a in Next(s, step).inbound && Next(s, step).inbound[a].provenDirect
    ensures FindsDirect(s, step, a) || (a in s.inbound && s.inbound[a].provenDirect)
  {
    match step
    case Out(out) => OutFrame(s, out);
    case In(inb) => InDirectness(s, inb, a);
    case Disc(disc) => DiscoveryIsQuiet(s, disc);
    case Ctl(ctl) => CtlKeepsIn(s, ctl);
  }

  lemma InDirectness(s: State, step: InStep, a: nat)
    requires InEnabled(s, step) && a in InNext(s, step).inbound && InNext(s, step).inbound[a].provenDirect
    ensures FindsDirect(s, In(step), a) || (a in s.inbound && s.inbound[a].provenDirect)
  {
    match step
    case InChoose(b, direct, relayed) => ChooseDirectness(s, b, direct, relayed);
    case _ =>
  }

  lemma ChooseDirectness(s: State, b: nat, direct: bool, relayed: bool)
    requires b in s.inbound
    ensures ApplyInChoose(s, b, direct, relayed).inbound.Keys == s.inbound.Keys
    ensures ApplyInChoose(s, b, direct, relayed).inbound[b].provenDirect == LanDirect(s, s.inbound[b], direct)
    ensures forall a :: a in s.inbound && a != b ==> ApplyInChoose(s, b, direct, relayed).inbound[a] == s.inbound[a]
  {
  }

  lemma {:induction false} DirectnessWasFound(trace: seq<State>, steps: seq<Step>, k: nat, a: nat) returns (j: nat)
    requires FullRun(trace, steps) && k < |trace| && a in trace[k].inbound && trace[k].inbound[a].provenDirect
    ensures j < k && FindsDirect(trace[j], steps[j], a)
  {
    assert k > 0;
    RunsKeepInv(trace, steps, k - 1);
    assert trace[k - 1 + 1] == Next(trace[k - 1], steps[k - 1]);
    DirectnessIsFound(trace[k - 1], steps[k - 1], a);
    if FindsDirect(trace[k - 1], steps[k - 1], a) {
      j := k - 1;
    } else {
      j := DirectnessWasFound(trace, steps, k - 1, a);
    }
  }

  lemma InstallOverCircuit(s: State, a: nat)
    requires Inv(s) && InEnabled(s, InInstall(a))
    requires CircuitFor(Entry(s.table, s.inbound[a].node), s.inbound[a].peer)
    requires var table' := ApplyInInstall(s, a).table;
      s.inbound[a].node in table'.discovered && table'.discovered[s.inbound[a].node].Direct()
    ensures s.inbound[a].provenDirect
  {
    var i := s.inbound[a];
    assert InboundOk(i, s.table, s.claims);
    if !R.Effective(s.table, InOp(i), i.node) {
      R.OneStep(s.table, InOp(i), i.node);
    }
  }

  /** An inbound binding replaces a circuit of the same transport identity by a direct endpoint only when,
      earlier in the same exchange, a LAN candidate was known and the stream was proven direct. */
  lemma InboundReplacesCircuitOnlyDirectly(trace: seq<State>, steps: seq<Step>, k: nat, a: nat) returns (j: nat)
    requires FullRun(trace, steps) && k < |steps| && steps[k] == In(InInstall(a))
    requires var i := trace[k].inbound[a];
      CircuitFor(Entry(trace[k].table, i.node), i.peer) && i.node in trace[k + 1].table.discovered
      && trace[k + 1].table.discovered[i.node].Direct()
    ensures j < k && FindsDirect(trace[j], steps[j], a)
  {
    RunsKeepInv(trace, steps, k);
    assert trace[k + 1] == Next(trace[k], steps[k]) == ApplyInInstall(trace[k], a);
    InstallOverCircuit(trace[k], a);
    j := DirectnessWasFound(trace, steps, k, a);
  }

  /** The routing-table operation a step performs, if any. */
  function TableOp(s: State, step: Step): Option<R.Op>
    requires Enabled(s, step)
  {
    match step
    case Out(OutInstall(a)) => Some(OutOp(s.outbound[a]))
    case In(InInstall(a)) => Some(InOp(s.inbound[a]))
    case Ctl(RouteReport(op)) => Some(op)
    case _ => None
  }

  lemma InTable(s: State, step: InStep)
    requires InEnabled(s, step)
    ensures InNext(s, step).table == if step.InInstall? then R.Apply(s.table, InOp(s.inbound[step.a])) else s.table
  {
  }

  /** The transport changes the routing table only through the table's operations, one per step, so every
      law of the table holds along the transport's runs. */
  lemma TableRefines(s: State, step: Step)
    requires Inv(s) && Enabled(s, step)
    ensures Next(s, step).table == if TableOp(s, step).Some? then R.Apply(s.table, TableOp(s, step).value) else s.table
  {
    match step
    case Out(out) => OutFrame(s, out);
    case In(inb) => InTable(s, inb);
    case Disc(disc) => DiscoveryIsQuiet(s, disc);
    case Ctl(ctl) => CtlKeepsClaims(s, ctl);
  }

  /** One table follows another by at most one operation. */
  ghost predicate TableStep(t: R.Table, t': R.Table) {
    t' == t || exists op :: t' == R.Apply(t, op)
  }

  lemma StepOfTable(trace: seq<State>, steps: seq<Step>, k: nat)
    requires FullRun(trace, steps) && k < |steps|
    ensures TableStep(trace[k].table, trace[k + 1].table)
  {
    RunsKeepInv(trace, steps, k);
    TableRefines(trace[k], steps[k]);
  }

  /** The table knows the node, and directly if for this transport identity. */
  predicate Keeps(t: R.Table, node: string, id: string) {
    node in t.discovered && (t.discovered[node].For(ADAPTER, id) ==> t.discovered[node].Direct())
  }

  lemma StickyTable(t: R.Table, t': R.Table, node: string, id: string)
    requires TableStep(t, t') && R.HealthyFor(t, node, ADAPTER, id) && Keeps(t, node, id)
    ensures Keeps(t', node, id)
  {
    if t' != t {
      var op :| t' == R.Apply(t, op);
      R.StickyStep(t, op, node, ADAPTER, id);
    }
  }

  lemma {:induction false} StickyTables(tables: seq<R.Table>, i: nat, j: nat, node: string, id: string)
    requires i <= j < |tables|
    requires forall k :: i <= k < j ==>
      TableStep(tables[k], tables[k + 1]) && R.HealthyFor(tables[k], node, ADAPTER, id)
    requires node in tables[i].discovered && tables[i].discovered[node].Direct()
    ensures Keeps(tables[j], node, id)
    decreases j - i
  {
    if i < j {
      StickyTables(tables, i, j - 1, node, id);
      assert TableStep(tables[j - 1], tables[j - 1 + 1]);
      StickyTable(tables[j - 1], tables[j], node, id);
    }
  }

  /** Over any stretch of a run in which a node's route stays healthy for one transport identity, a direct
      route does not become a circuit. */
  lemma DirectRouteIsSticky(trace: seq<State>, steps: seq<Step>, i: nat, j: nat, node: string, id: string)
    requires FullRun(trace, steps) && i <= j < |trace|
    requires node in trace[i].table.discovered && trace[i].table.discovered[node].Direct()
    requires forall k :: i <= k < j ==> R.HealthyFor(trace[k].table, node, ADAPTER, id)
    ensures node in trace[j].table.discovered
    ensures trace[j].table.discovered[node].For(ADAPTER, id) ==> trace[j].table.discovered[node].Direct()
  {
    var tables := seq(|trace|, k requires 0 <= k < |trace| => trace[k].table);
    forall k | i <= k < j ensures TableStep(tables[k], tables[k + 1]) {
      StepOfTable(trace, steps, k);
    }
    StickyTables(tables, i, j, node, id);
  }
}
