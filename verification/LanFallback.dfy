/** A LAN attempt that fails gives the relay its turn, in every run. */
module LanFallback {
  import opened Strings
  import opened Endpoints
  import opened Binding
  import opened BindingSafety
  import opened BindingRuns
  import opened FollowUps
  import R = Routing

  // ---- LAN addresses are plain, relay candidates are not --------------------------------------------------

  /** The candidate is a circuit through some relay. */
  predicate Relayed(info: PeerInfo) {
    info.addrs != [] && EndsWith(info.addrs[0], "/p2p-circuit") && PeerName(info.peerId)
  }

  /** What came from the LAN or a hint, and every attempt made for it, has plain addresses. */
  ghost predicate LanIsPlain(lan: map<string, PeerInfo>, hints: map<string, Hint>, outs: Outs) {
    && (forall p :: p in lan ==> Plain(lan[p]))
    && (forall p :: p in hints ==> Plain(hints[p].info))
    && (forall a :: a in outs && outs[a].lan ==> Plain(outs[a].info))
  }

  /** A peer that some relay listed in this generation has a circuit as its candidate. */
  ghost predicate RankedIsRelayed(live: bool, ranks: map<string, nat>, candidates: map<string, PeerInfo>) {
    && (!live ==> ranks == map[])
    && (forall p :: p in ranks ==> p in candidates && Relayed(candidates[p]))
  }

  ghost predicate Kinds(s: State) {
    LanIsPlain(s.lan, s.hints, s.outbound) && RankedIsRelayed(s.live, s.ranks, s.candidates)
  }

  lemma GateKeepsPlain(s: State, info: PeerInfo)
    requires LanIsPlain(s.lan, s.hints, s.outbound)
    ensures LanIsPlain(s.lan, s.hints, ApplyGate(s, info).outbound)
  {
    if GateOpen(s, info) {
    } else {
    }
  }

  lemma OutKeepsKinds(s: State, step: OutStep)
    requires Inv(s) && OutEnabled(s, step) && Kinds(s)
    ensures Kinds(OutNext(s, step))
  {
    OutFrame(s, step);
    if step.Gate? {
      GateKeepsPlain(s, step.info);
    } else {
      forall a | a in OutNext(s, step).outbound && OutNext(s, step).outbound[a].lan
        ensures Plain(OutNext(s, step).outbound[a].info)
      {
        SameOnes(s, step, a);
        OutPersists(s, step, a);
      }
    }
  }

  lemma MoveKeepsOnes(s: State, a: nat, node: string)
    requires a in s.outbound
    ensures ApplyOutVerify(s, a, node).outbound.Keys == s.outbound.Keys
    ensures ApplyOutCheck(s, a).outbound.Keys == s.outbound.Keys
    ensures ApplyOutInstall(s, a).outbound.Keys == s.outbound.Keys
  {
  }

  lemma SettleKeepsOnes(s: State, a: nat)
    requires a in s.outbound
    ensures ApplyOutMark(s, a).outbound.Keys == s.outbound.Keys
    ensures ApplyOutFail(s, a).outbound.Keys == s.outbound.Keys
  {
  }

  lemma LeaveKeepsOnes(s: State, a: nat)
    requires a in s.outbound
    ensures ApplyOutCancel(s, a).outbound.Keys == s.outbound.Keys
    ensures ApplyOutEnd(s, a).outbound == s.outbound - {a}
  {
  }

  lemma SameOnes(s: State, step: OutStep, a: nat)
    requires OutEnabled(s, step) && !step.Gate? && a in OutNext(s, step).outbound
    ensures a in s.outbound
  {
    match step
    case OutDecide(b, won) => DecideEffect(s, b, won);
    case OutDial(b) => DialEffect(s, b);
    case OutVerify(b, node, _) => MoveKeepsOnes(s, b, node);
    case OutCheck(b) => MoveKeepsOnes(s, b, "");
    case OutInstall(b) => MoveKeepsOnes(s, b, "");
    case OutMark(b) => SettleKeepsOnes(s, b);
    case OutFail(b) => SettleKeepsOnes(s, b);
    case OutCancel(b) => LeaveKeepsOnes(s, b);
    case OutEnd(b) => LeaveKeepsOnes(s, b);
  }

  lemma InKeepsKinds(s: State, step: InStep)
    requires InEnabled(s, step) && Kinds(s)
    ensures Kinds(InNext(s, step))
  {
  }

  lemma ListingKeepsRanked(s: State, relay: Relay, peer: string)
    requires RankedIsRelayed(s.live, s.ranks, s.candidates) && s.live && PeerName(peer)
    ensures var s' := ApplyRssPeer(s, relay, peer);
      RankedIsRelayed(s'.live, s'.ranks, s'.candidates) && s'.lan == s.lan && s'.hints == s.hints &&
        s'.outbound == s.outbound
  {
    if Adopts(s, relay, peer) {
      var address := CircuitAddress(relay);
      assert address[|address| - 12..] == "/p2p-circuit";
    } else {
    }
  }

  lemma HintKeepsPlain(s: State, info: PeerInfo, node: string)
    requires Kinds(s) && Plain(info)
    ensures Kinds(ApplyHint(s, info, node))
  {
  }

  lemma LanSeenKeepsPlain(s: State, info: PeerInfo)
    requires Kinds(s) && Plain(info)
    ensures Kinds(ApplyLanSeen(s, info))
  {
  }

  lemma LanGoneKeepsPlain(s: State, peer: string)
    requires Kinds(s)
    ensures Kinds(ApplyLanGone(s, peer))
  {
    if s.live {
    } else {
    }
  }

  lemma ScheduledKeepsKinds(s: State, info: PeerInfo)
    requires Kinds(s)
    ensures Kinds(ApplyLanScheduled(s, info))
  {
    if IsLan(s, info) {
    } else {
    }
  }

  lemma DisconnectedKeepsKinds(s: State, peer: string)
    requires Kinds(s)
    ensures Kinds(ApplyDisconnected(s, peer))
  {
    if peer in s.inflight {
    } else {
    }
  }

  lemma DiscKeepsKinds(s: State, step: Discovery)
    requires DiscEnabled(s, step) && Kinds(s)
    ensures Kinds(DiscNext(s, step))
  {
    match step
    case Disconnected(p) => DisconnectedKeepsKinds(s, p);
    case LanSeen(info) => LanSeenKeepsPlain(s, info);
    case LanScheduled(info) => ScheduledKeepsKinds(s, info);
    case LanGone(p) => LanGoneKeepsPlain(s, p);
    case RssPeer(relay, p) => ListingKeepsRanked(s, relay, p);
    case RelayState(_, _) =>
    case HintSubmitted(info, node) => HintKeepsPlain(s, info, node);
  }

  lemma CtlKeepsKinds(s: State, step: Control)
    requires CtlEnabled(s, step) && Kinds(s)
    ensures Kinds(CtlNext(s, step))
  {
    match step
    case SendFallback(d) => if FallsBack(s, d) {} else {}
    case AdmissionChanged => if s.live {} else {}
    case AdmissionScheduled(p, e, _) => if Queued(s, p, e) {} else {}
    case AdmissionRestored(p, e) => if Queued(s, p, e) {} else {}
    case _ =>
  }

  lemma StepKeepsKinds(s: State, step: Step)
    requires Inv(s) && Enabled(s, step) && Kinds(s)
    ensures Kinds(Next(s, step))
  {
    match step
    case Out(out) => OutKeepsKinds(s, out);
    case In(inb) => InKeepsKinds(s, inb);
    case Disc(disc) => DiscKeepsKinds(s, disc);
    case Ctl(ctl) => CtlKeepsKinds(s, ctl);
  }

  lemma {:induction false} RunsKeepKinds(trace: seq<State>, steps: seq<Step>, k: nat)
    requires FullRun(trace, steps) && k < |trace|
    ensures Kinds(trace[k])
  {
    if k > 0 {
      RunsKeepKinds(trace, steps, k - 1);
      RunsKeepInv(trace, steps, k - 1);
      assert trace[k - 1 + 1] == Next(trace[k - 1], steps[k - 1]);
      StepKeepsKinds(trace[k - 1], steps[k - 1]);
    }
  }

  // ---- so a LAN endpoint is never a relay's ---------------------------------------------------------------

  lemma CircuitInside(address: string)
    requires EndsWith(address, "/p2p-circuit")
    ensures MentionsCircuit(address)
  {
    assert OccursAt(address, "/p2p-circuit", |address| - 12);
  }

  lemma RelayedEndpoint(info: PeerInfo)
    requires Relayed(info)
    ensures PeerEndpoint(info) == info.addrs[0] + Suffix(info.peerId) && R.IsCircuit(PeerEndpoint(info))
  {
    var address := info.addrs[0];
    AddressNamesNoPeer(address, info.peerId);
    var at := |address| - 12;
    var text := address + Suffix(info.peerId);
    assert text[at..at + 13] == address[at..] + "/";
    assert R.CIRCUIT == "/p2p-circuit" + "/";
    assert OccursAt(text, R.CIRCUIT, at);
  }

  lemma PlainIsNotRelayed(plain: PeerInfo, relayed: PeerInfo)
    requires Plain(plain) && Dialable(plain) && Relayed(relayed) && plain.peerId == relayed.peerId
    ensures PeerEndpoint(plain) != PeerEndpoint(relayed)
  {
    RelayedEndpoint(relayed);
    var mine, other, suffix := plain.addrs[0], relayed.addrs[0], Suffix(plain.peerId);
    CircuitInside(other);
    assert mine in plain.addrs;
    if PeerEndpoint(plain) == other + suffix {
      if EndsWith(mine, suffix) {
        var i :| 0 <= i <= |other| && OccursAt(other, "/p2p-circuit", i);
        assert mine[i..i + 12] == other[i..i + 12];
        assert OccursAt(mine, "/p2p-circuit", i);
      }
    }
  }

  lemma EndOfLanAttempt(s: State, a: nat)
    requires Filed(s.candidates) && s.live && a in s.outbound && s.outbound[a].lan && !s.outbound[a].healthy
    ensures var s', o, peer := ApplyOutEnd(s, a), s.outbound[a], s.outbound[a].Peer();
      && (peer !in s.candidates ==> s'.spawned == s.spawned)
      && (peer in s.candidates ==>
            && Get(s'.notified, peer) == Some(PeerEndpoint(s.candidates[peer]))
            && s'.spawned ==
               if PeerEndpoint(s.candidates[peer]) != o.endpoint then s.spawned + [s.candidates[peer]] else s.spawned)
  {
  }

  /** However a LAN attempt ends, if it ends unhealthy the candidate kept beside it is announced and queued,
      unless it has the very endpoint just tried. A peer listed by a relay in this generation has its circuit
      as that candidate, which is never the endpoint tried: the relay always gets its turn. */
  lemma FailedLanAttemptTriesRelay(trace: seq<State>, steps: seq<Step>, k: nat, a: nat)
    requires FullRun(trace, steps) && k < |steps| && steps[k] == Out(OutEnd(a))
    requires a in trace[k].outbound && trace[k].outbound[a].lan && !trace[k].outbound[a].healthy
    ensures var s, s', peer := trace[k], trace[k + 1], trace[k].outbound[a].Peer();
      && (s.live && peer !in s.candidates ==> s'.spawned == s.spawned)
      && (s.live && peer in s.candidates ==>
            && Dialable(s.candidates[peer])
            && s'.spawned == if PeerEndpoint(s.candidates[peer]) != s.outbound[a].endpoint
                             then s.spawned + [s.candidates[peer]] else s.spawned)
      && (peer in s.ranks ==>
            && peer in s.candidates && Dialable(s.candidates[peer]) && R.IsCircuit(PeerEndpoint(s.candidates[peer]))
            && s'.spawned == s.spawned + [s.candidates[peer]]
            && Get(s'.notified, peer) == Some(PeerEndpoint(s.candidates[peer])))
  {
    var s, peer := trace[k], trace[k].outbound[a].Peer();
    RunsKeepInv(trace, steps, k);
    RunsKeepKinds(trace, steps, k);
    assert trace[k + 1] == Next(s, steps[k]) == ApplyOutEnd(s, a);
    if s.live { EndOfLanAttempt(s, a); }
    if peer in s.ranks {
      RelayedEndpoint(s.candidates[peer]);
      PlainIsNotRelayed(s.outbound[a].info, s.candidates[peer]);
    }
  }
}
