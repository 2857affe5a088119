/** Whether a relay route announced while a peer is busy is tried afterwards. */
module FollowUps {
  import opened Strings
  import opened Endpoints
  import opened Binding
  import opened BindingSafety
  import opened BindingRuns
  import R = Routing

  // ---- announced candidates ------------------------------------------------------------------------------

  /** A relay address does not name its target: no identity ends in `-circuit` or follows its slash. */
  lemma AddressNamesNoPeer(address: string, peer: string)
    requires PeerName(peer) && |address| >= 12 && address[|address| - 12..] == "/p2p-circuit"
    ensures !EndsWith(address, Suffix(peer))
  {
    var n := |Suffix(peer)|;
    if n <= |address| {
      var end := address[|address| - n..];
      if |peer| >= 8 {
        assert end[n - 8] == address[|address| - 8] == address[|address| - 12..][4];
        assert Suffix(peer)[n - 8] == peer[|peer| - 8];
      } else {
        assert end[4] == address[|address| - |peer| - 1] == address[|address| - 12..][11 - |peer|];
        assert Suffix(peer)[4] == '/';
      }
    }
  }

  /** The text of a relay candidate's endpoint is the announced circuit. */
  lemma CircuitInfoEndpoint(oid: nat, relay: Relay, peer: string)
    requires PeerName(peer)
    ensures PeerEndpoint(CircuitInfo(oid, relay, peer)) == CircuitEndpoint(relay, peer)
  {
    var address := CircuitAddress(relay);
    assert address[|address| - 12..] == "/p2p-circuit";
    AddressNamesNoPeer(address, peer);
  }

  /** How the stored candidate of a busy peer stands to what was last announced for it: announced, or the
      announcement was of the endpoint being tried and was withdrawn by cancellation; else stored silently. */
  predicate Standing(s: State, peer: string, tried: string, told: bool) {
    && peer in s.candidates && Dialable(s.candidates[peer])
    && var endpoint := PeerEndpoint(s.candidates[peer]);
       if told then Get(s.notified, peer) == Some(endpoint) || (peer !in s.notified && endpoint == tried)
       else Get(s.notified, peer) != Some(endpoint)
  }

  /** A step announces the stored candidate, or replaces it without announcing because the peer has a
      direct binding; any other step leaves the matter as it was. */
  predicate Told(s: State, step: Step, peer: string, told: bool) {
    match step
    case Disc(RssPeer(relay, p)) => if p == peer && Adopts(s, relay, p) then peer !in s.directBound else told
    case Ctl(SendFallback(d)) => if FallsBack(s, d) && d.transportPeerId == Some(peer) then true else told
    case _ => told
  }

  predicate SameAnnouncement(s: State, s': State, peer: string) {
    Get(s'.candidates, peer) == Get(s.candidates, peer) && Get(s'.notified, peer) == Get(s.notified, peer)
  }

  /** Ending or cancelling an attempt concerns the announcements of its own peer only. */
  lemma EndKeepsOthers(s: State, a: nat, peer: string)
    requires a in s.outbound && s.outbound[a].Peer() != peer
    ensures SameAnnouncement(s, ApplyOutEnd(s, a), peer) && SameAnnouncement(s, ApplyOutCancel(s, a), peer)
  {
  }

  lemma OutKeepsAnnouncement(s: State, step: OutStep, peer: string)
    requires OutEnabled(s, step)
    requires step.OutEnd? || step.OutCancel? ==> s.outbound[step.a].Peer() != peer
    ensures SameAnnouncement(s, OutNext(s, step), peer)
  {
    OutFrame(s, step);
    if step.OutEnd? || step.OutCancel? { EndKeepsOthers(s, step.a, peer); }
  }

  lemma InKeepsAnnouncement(s: State, step: InStep, peer: string)
    requires InEnabled(s, step)
    ensures SameAnnouncement(s, InNext(s, step), peer)
  {
  }

  lemma OutStanding(s: State, step: OutStep, a: nat, told: bool)
    requires Inv(s) && OutEnabled(s, step) && a in s.outbound && step != OutEnd(a)
    requires Standing(s, s.outbound[a].Peer(), s.outbound[a].endpoint, told)
    ensures Standing(OutNext(s, step), s.outbound[a].Peer(), s.outbound[a].endpoint, told)
  {
    if step == OutCancel(a) {
      CancelStanding(s, a, told);
    } else {
      OutKeepsAnnouncement(s, step, s.outbound[a].Peer());
    }
  }

  lemma CancelStanding(s: State, a: nat, told: bool)
    requires a in s.outbound && Standing(s, s.outbound[a].Peer(), s.outbound[a].endpoint, told)
    ensures Standing(ApplyOutCancel(s, a), s.outbound[a].Peer(), s.outbound[a].endpoint, told)
  {
    if Owns(s, a, s.outbound[a].Peer()) {
    } else {
    }
  }

  lemma AdoptStanding(s: State, relay: Relay, peer: string, rank: nat, tried: string)
    requires PeerName(peer) && Get(s.notified, peer) != Some(CircuitEndpoint(relay, peer))
    ensures Standing(Adopt(s, relay, peer, rank), peer, tried, peer !in s.directBound)
  {
    var info, s' := CircuitInfo(s.nextId, relay, peer), Adopt(s, relay, peer, rank);
    CircuitInfoEndpoint(s.nextId, relay, peer);
    assert Dialable(info);
    assert peer in s'.candidates && s'.candidates[peer] == info;
    if peer in s.directBound {
      assert Get(s'.notified, peer) == Get(s.notified, peer);
    } else {
      assert Get(s'.notified, peer) == Some(PeerEndpoint(info));
    }
  }

  lemma RssStanding(s: State, relay: Relay, p: string, peer: string, tried: string, told: bool)
    requires PeerName(p) && Standing(s, peer, tried, told)
    ensures Standing(ApplyRssPeer(s, relay, p), peer, tried, Told(s, Disc(RssPeer(relay, p)), peer, told))
  {
    if Adopts(s, relay, p) {
      if p == peer {
        AdoptStanding(s, relay, p, Rank(s.config.relayPeers, relay.id), tried);
      } else {
        assert SameAnnouncement(s, Adopt(s, relay, p, Rank(s.config.relayPeers, relay.id)), peer);
      }
    } else {
    }
  }

  lemma DiscStanding(s: State, step: Discovery, peer: string, tried: string, told: bool)
    requires DiscEnabled(s, step) && Standing(s, peer, tried, told)
    requires s.live && peer in s.inflight && peer !in DiscNext(s, step).lan
    ensures Standing(DiscNext(s, step), peer, tried, Told(s, Disc(step), peer, told))
  {
    match step
    case RssPeer(relay, p) => RssStanding(s, relay, p, peer, tried, told);
    case Disconnected(p) => DisconnectedStanding(s, p, peer);
    case LanSeen(info) => LanSeenStanding(s, info, peer);
    case LanScheduled(info) => if IsLan(s, info) {} else {}
    case LanGone(_) =>
    case RelayState(_, _) =>
    case HintSubmitted(info, node) => HintStanding(s, info, node, peer);
  }

  lemma DisconnectedStanding(s: State, p: string, peer: string)
    requires peer in s.inflight
    ensures SameAnnouncement(s, ApplyDisconnected(s, p), peer)
  {
    if p in s.inflight {
    } else {
    }
  }

  lemma LanSeenStanding(s: State, info: PeerInfo, peer: string)
    requires s.live && peer !in ApplyLanSeen(s, info).lan
    ensures SameAnnouncement(s, ApplyLanSeen(s, info), peer)
  {
  }

  lemma HintStanding(s: State, info: PeerInfo, node: string, peer: string)
    ensures SameAnnouncement(s, ApplyHint(s, info, node), peer)
  {
  }

  lemma FallbackStanding(s: State, d: R.PeerRoute, peer: string, tried: string, told: bool)
    requires Standing(s, peer, tried, told)
    ensures Standing(ApplySendFallback(s, d), peer, tried, Told(s, Ctl(SendFallback(d)), peer, told))
  {
    if FallsBack(s, d) {
    } else {
    }
  }

  lemma CtlStanding(s: State, step: Control, peer: string, tried: string, told: bool)
    requires s.live && CtlEnabled(s, step) && !step.Retire? && Standing(s, peer, tried, told)
    ensures Standing(CtlNext(s, step), peer, tried, Told(s, Ctl(step), peer, told))
  {
    match step
    case SendFallback(d) => FallbackStanding(s, d, peer, tried, told);
    case RouteReport(_) =>
    case AdmissionChanged =>
    case AdmissionScheduled(p, e, _) => if Queued(s, p, e) {} else {}
    case AdmissionRestored(p, e) => if Queued(s, p, e) {} else {}
  }

  // ---- over the time an attempt runs ----------------------------------------------------------------------

  lemma InPersists(s: State, step: InStep)
    requires InEnabled(s, step)
    ensures InNext(s, step).outbound == s.outbound
  {
  }

  lemma CtlPersists(s: State, step: Control)
    ensures CtlNext(s, step).outbound == s.outbound
  {
    match step
    case SendFallback(d) => if FallsBack(s, d) {} else {}
    case AdmissionChanged => if s.live {} else {}
    case AdmissionScheduled(p, e, _) => if Queued(s, p, e) {} else {}
    case AdmissionRestored(p, e) => if Queued(s, p, e) {} else {}
    case _ =>
  }

  /** Attempt `a` runs for `peer`, trying `tried`, in a live generation with no LAN candidate known. */
  predicate BusyWithoutLan(s: State, a: nat, peer: string, tried: string) {
    && s.live && peer !in s.lan && a in s.outbound
    && s.outbound[a].Peer() == peer && s.outbound[a].endpoint == tried && !s.outbound[a].lan
  }

  lemma StepStanding(s: State, step: Step, a: nat, peer: string, tried: string, told: bool)
    requires Inv(s) && Enabled(s, step) && BusyWithoutLan(s, a, peer, tried) && Standing(s, peer, tried, told)
    requires Next(s, step).live && peer !in Next(s, step).lan && a in Next(s, step).outbound
    ensures BusyWithoutLan(Next(s, step), a, peer, tried)
    ensures Standing(Next(s, step), peer, tried, Told(s, step, peer, told))
  {
    match step
    case Out(out) =>
      OutPersists(s, out, a);
      OutStanding(s, out, a, told);
    case In(inb) =>
      InPersists(s, inb);
      InKeepsAnnouncement(s, inb, peer);
    case Disc(disc) =>
      DiscoveryIsQuiet(s, disc);
      DiscStanding(s, disc, peer, tried, told);
    case Ctl(ctl) =>
      CtlPersists(s, ctl);
      CtlStanding(s, ctl, peer, tried, told);
  }

  /** Whether, after steps `i..k` of a run, the stored candidate of `peer` stands announced, given that it
      did at step `i`: the last reply that replaced it found the peer without a direct binding, or a
      failed direct delivery has announced it since. */
  ghost function Announced(trace: seq<State>, steps: seq<Step>, i: nat, k: nat, peer: string): bool
    requires i <= k <= |steps| <= |trace|
    decreases k
  {
    i == k || Told(trace[k - 1], steps[k - 1], peer, Announced(trace, steps, i, k - 1, peer))
  }

  /** The attempt runs from `i` to `j` and no LAN candidate for its peer shows up meanwhile. */
  ghost predicate Stretch(trace: seq<State>, i: nat, j: nat, a: nat, peer: string) {
    && i <= j < |trace|
    && forall k :: i <= k <= j ==> trace[k].live && peer !in trace[k].lan && a in trace[k].outbound
  }

  /** A step carries the standing of a busy peer's candidate over, updated by what it tells. */
  ghost predicate Carries(s: State, step: Step, s': State, a: nat, peer: string, tried: string) {
    forall told :: BusyWithoutLan(s, a, peer, tried) && Standing(s, peer, tried, told) ==>
      BusyWithoutLan(s', a, peer, tried) && Standing(s', peer, tried, Told(s, step, peer, told))
  }

  lemma {:induction false} CarriedStanding(
      trace: seq<State>, steps: seq<Step>, i: nat, j: nat, a: nat, peer: string, tried: string)
    requires i <= j <= |steps| < |trace|
    requires forall k :: i <= k < j ==> Carries(trace[k], steps[k], trace[k + 1], a, peer, tried)
    requires BusyWithoutLan(trace[i], a, peer, tried) && Standing(trace[i], peer, tried, true)
    ensures BusyWithoutLan(trace[j], a, peer, tried)
    ensures Standing(trace[j], peer, tried, Announced(trace, steps, i, j, peer))
    decreases j
  {
    if i < j {
      CarriedStanding(trace, steps, i, j - 1, a, peer, tried);
      assert Carries(trace[j - 1], steps[j - 1], trace[j - 1 + 1], a, peer, tried);
    }
  }

  lemma StretchStanding(trace: seq<State>, steps: seq<Step>, i: nat, j: nat, a: nat, peer: string, tried: string)
    requires FullRun(trace, steps) && Stretch(trace, i, j, a, peer)
    requires BusyWithoutLan(trace[i], a, peer, tried) && Standing(trace[i], peer, tried, true)
    ensures BusyWithoutLan(trace[j], a, peer, tried)
    ensures Standing(trace[j], peer, tried, Announced(trace, steps, i, j, peer))
  {
    forall k | i <= k < j ensures Carries(trace[k], steps[k], trace[k + 1], a, peer, tried) {
      CarriesAt(trace, steps, k, a, peer, tried);
    }
    CarriedStanding(trace, steps, i, j, a, peer, tried);
  }

  lemma CarriesAt(trace: seq<State>, steps: seq<Step>, k: nat, a: nat, peer: string, tried: string)
    requires FullRun(trace, steps) && k < |steps|
    requires trace[k + 1].live && peer !in trace[k + 1].lan && a in trace[k + 1].outbound
    ensures Carries(trace[k], steps[k], trace[k + 1], a, peer, tried)
  {
    forall told | BusyWithoutLan(trace[k], a, peer, tried) && Standing(trace[k], peer, tried, told)
      ensures BusyWithoutLan(trace[k + 1], a, peer, tried)
      ensures Standing(trace[k + 1], peer, tried, Told(trace[k], steps[k], peer, told))
    {
      StandingAt(trace, steps, k, a, peer, tried, told);
    }
  }

  lemma StandingAt(trace: seq<State>, steps: seq<Step>, k: nat, a: nat, peer: string, tried: string, told: bool)
    requires FullRun(trace, steps) && k < |steps|
    requires BusyWithoutLan(trace[k], a, peer, tried) && Standing(trace[k], peer, tried, told)
    requires trace[k + 1].live && peer !in trace[k + 1].lan && a in trace[k + 1].outbound
    ensures BusyWithoutLan(trace[k + 1], a, peer, tried)
    ensures Standing(trace[k + 1], peer, tried, Told(trace[k], steps[k], peer, told))
  {
    RunsKeepInv(trace, steps, k);
    StepStanding(trace[k], steps[k], a, peer, tried, told);
  }

  lemma EndQueues(s: State, a: nat, peer: string, tried: string, told: bool)
    requires BusyWithoutLan(s, a, peer, tried) && Standing(s, peer, tried, told)
    requires PeerEndpoint(s.candidates[peer]) != tried
    ensures ApplyOutEnd(s, a).spawned == if told then s.spawned + [s.candidates[peer]] else s.spawned
  {
    assert Selected(s, s.outbound[a]) == Some(s.candidates[peer]);
    assert NotifiedAtEnd(s, s.outbound[a]) == s.notified;
  }

  /** A relay route announced while an attempt for a peer without LAN candidate runs is not lost. However
      the attempt ends, if the candidate selected by then has another endpoint than the one just tried,
      a bind of it is queued exactly when it stands announced. */
  lemma FollowUpIffAnnounced(trace: seq<State>, steps: seq<Step>, i: nat, j: nat, a: nat, peer: string, tried: string)
    requires FullRun(trace, steps) && Stretch(trace, i, j, a, peer)
    requires BusyWithoutLan(trace[i], a, peer, tried) && Standing(trace[i], peer, tried, true)
    requires j < |steps| && steps[j] == Out(OutEnd(a))
    ensures peer in trace[j].candidates && Dialable(trace[j].candidates[peer])
    ensures PeerEndpoint(trace[j].candidates[peer]) != tried ==>
      trace[j + 1].spawned ==
        if Announced(trace, steps, i, j, peer) then trace[j].spawned + [trace[j].candidates[peer]]
        else trace[j].spawned
  {
    StretchStanding(trace, steps, i, j, a, peer, tried);
    var s := trace[j];
    assert trace[j + 1] == Next(s, steps[j]) == ApplyOutEnd(s, a);
    if PeerEndpoint(s.candidates[peer]) != tried {
      EndQueues(s, a, peer, tried, Announced(trace, steps, i, j, peer));
    }
  }

  /** In particular nothing is lost while the peer has no direct binding. */
  lemma NoLostFollowUp(trace: seq<State>, steps: seq<Step>, i: nat, j: nat, a: nat, peer: string, tried: string)
    requires FullRun(trace, steps) && Stretch(trace, i, j, a, peer)
    requires BusyWithoutLan(trace[i], a, peer, tried) && Standing(trace[i], peer, tried, true)
    requires j < |steps| && steps[j] == Out(OutEnd(a))
    requires forall k :: i <= k < j ==> peer !in trace[k].directBound
    ensures peer in trace[j].candidates && Dialable(trace[j].candidates[peer])
    ensures PeerEndpoint(trace[j].candidates[peer]) != tried ==>
      trace[j + 1].spawned == trace[j].spawned + [trace[j].candidates[peer]]
  {
    AlwaysAnnounced(trace, steps, i, j, peer);
    FollowUpIffAnnounced(trace, steps, i, j, a, peer, tried);
  }

  lemma {:induction false} AlwaysAnnounced(trace: seq<State>, steps: seq<Step>, i: nat, k: nat, peer: string)
    requires i <= k <= |steps| <= |trace|
    requires forall n :: i <= n < k ==> peer !in trace[n].directBound
    ensures Announced(trace, steps, i, k, peer)
    decreases k
  {
    if i < k { AlwaysAnnounced(trace, steps, i, k - 1, peer); }
  }
}
