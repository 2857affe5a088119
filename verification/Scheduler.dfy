/** The delivery scheduler: wake events and observed peers are coalesced into one worker at a time.

    The clock, whether the worker process has exited, its printed schedule and whether a process could be
    launched are parameters. The server's loop thread polls and stops; wakes and observations come from
    other threads, also while a stopped worker is being terminated. */
module Scheduler {
  import opened Strings

  /** What a transport reports; only an installed route with a textual node identity counts. */
  datatype Observation = Unrelated | RouteInstalled(node: Option<string>)

  /** What an exited worker left: a failure or an unusable schedule, or the delay until the next attempt. */
  datatype Outcome = Outcome(delay: Option<int>)

  /** `nextRun` is absent when nothing is due until an event; `live` are the worker processes running, and
      `stopping` the one being terminated. */
  datatype State = State(
    worker: Option<nat>, wake: bool, recovered: set<string>, nextRun: Option<int>,
    live: set<nat>, stopping: Option<nat>, issued: nat)

  datatype Event =
    | Wake
    | Observe(observation: Observation)
    | Poll(collected: int, now: int, outcome: Outcome, launched: bool)
    | Exit(id: nat)
    | Stop
    | Stopped

  function Max(a: int, b: int): int { if a < b then b else a }

  function Min(a: int, b: int): int { if a < b then a else b }

  predicate Observes(e: Event, peer: string) {
    e.Observe? && e.observation == RouteInstalled(Some(peer))
  }

  /** A request for a delivery pass. */
  predicate Requests(e: Event) {
    e.Wake? || (e.Observe? && e.observation.RouteInstalled? && e.observation.node.Some?)
  }

  predicate Running(s: State) { s.worker.Some? && s.worker.value in s.live }

  // ---- steps ----------------------------------------------------------------------------------------------

  function ApplyObserve(s: State, o: Observation): State {
    if o.RouteInstalled? && o.node.Some? then s.(recovered := s.recovered + {o.node.value}, wake := true) else s
  }

  /** Collect an exited worker and its schedule. */
  function Collect(s: State, collected: int, outcome: Outcome): State {
    if s.worker.None? then s
    else s.(worker := None,
      nextRun := if outcome.delay.Some? then Some(collected + Max(0, outcome.delay.value)) else None)
  }

  predicate Due(s: State, now: int) { s.wake || (s.nextRun.Some? && s.nextRun.value <= now) }

  /** This poll launches a worker, or tries to. */
  predicate Attempts(s: State, e: Event) {
    e.Poll? && !Running(s) && Due(Collect(s, e.collected, e.outcome), e.now)
  }

  function Launch(s: State, launched: bool): State {
    var s' := s.(wake := false, recovered := {}, nextRun := None);
    if launched then s'.(worker := Some(s.issued), live := s.live + {s.issued}, issued := s.issued + 1) else s'
  }

  function ApplyPoll(s: State, e: Event): State
    requires e.Poll?
  {
    if Running(s) then s
    else
      var c := Collect(s, e.collected, e.outcome);
      if Due(c, e.now) then Launch(c, e.launched) else c
  }

  function ApplyStop(s: State): State {
    s.(wake := false, recovered := {}, nextRun := None, worker := None, stopping := s.worker)
  }

  function ApplyStopped(s: State): State {
    s.(stopping := None, live := if s.stopping.Some? then s.live - {s.stopping.value} else s.live)
  }

  /** The loop thread neither polls nor stops again before a stop has finished. */
  predicate Enabled(s: State, e: Event) {
    match e
    case Poll(collected, now, _, _) => s.stopping.None? && collected <= now
    case Exit(id) => id in s.live
    case Stop => s.stopping.None?
    case _ => true
  }

  function Next(s: State, e: Event): State {
    match e
    case Wake => s.(wake := true)
    case Observe(o) => ApplyObserve(s, o)
    case Poll(_, _, _, _) => ApplyPoll(s, e)
    case Exit(id) => s.(live := s.live - {id})
    case Stop => ApplyStop(s)
    case Stopped => ApplyStopped(s)
  }

  function Initial(now: int, grace: int): State { State(None, false, {}, Some(now + grace), {}, None, 0) }

  ghost predicate IsRun(trace: seq<State>, events: seq<Event>) {
    && |trace| == |events| + 1 && (exists now, grace :: trace[0] == Initial(now, grace))
    && forall k :: 0 <= k < |events| ==> Enabled(trace[k], events[k]) && trace[k + 1] == Next(trace[k], events[k])
  }

  // ---- one worker at a time -------------------------------------------------------------------------------

  predicate Inv(s: State) {
    && (forall id :: id in s.live ==> s.worker == Some(id) || s.stopping == Some(id))
    && (s.stopping.Some? ==> s.worker.None?)
    && (s.recovered != {} ==> s.wake)
    && (s.worker.Some? ==> s.nextRun.None?)
  }

  lemma StepKeepsInv(s: State, e: Event)
    requires Inv(s) && Enabled(s, e)
    ensures Inv(Next(s, e))
  {
  }

  lemma {:induction false} RunsKeepInv(trace: seq<State>, events: seq<Event>, k: nat)
    requires IsRun(trace, events) && k < |trace|
    ensures Inv(trace[k])
  {
    if k > 0 {
      RunsKeepInv(trace, events, k - 1);
      assert trace[k - 1 + 1] == Next(trace[k - 1], events[k - 1]);
      StepKeepsInv(trace[k - 1], events[k - 1]);
    }
  }

  /** In every run at most one worker process runs, and pending peers imply a pending wake. */
  lemma OneWorker(trace: seq<State>, events: seq<Event>, k: nat)
    requires IsRun(trace, events) && k < |trace|
    ensures forall a, b :: a in trace[k].live && b in trace[k].live ==> a == b
    ensures trace[k].recovered != {} ==> trace[k].wake
  {
    RunsKeepInv(trace, events, k);
  }

  // ---- what each worker is told ---------------------------------------------------------------------------

  /** Event `k` empties the set of pending peers: a launch or a stop. */
  predicate Resets(trace: seq<State>, events: seq<Event>, k: nat)
    requires k < |events| && |trace| == |events| + 1
  {
    events[k].Stop? || Attempts(trace[k], events[k])
  }

  /** An event in `i` that is not followed by a launch or stop before `k`. */
  ghost predicate Outstanding(trace: seq<State>, events: seq<Event>, i: nat, k: nat)
    requires |trace| == |events| + 1 && k < |trace|
  {
    i < k && forall j :: i < j < k ==> !Resets(trace, events, j)
  }

  ghost predicate PeerPending(trace: seq<State>, events: seq<Event>, k: nat, peer: string)
    requires |trace| == |events| + 1 && k < |trace|
  {
    exists i :: 0 <= i < k && Observes(events[i], peer) && Outstanding(trace, events, i, k)
  }

  lemma PeerStep(s: State, e: Event, peer: string)
    ensures peer in Next(s, e).recovered <==>
      Observes(e, peer) || (peer in s.recovered && !e.Stop? && !Attempts(s, e))
  {
  }

  lemma PendingStep(trace: seq<State>, events: seq<Event>, k: nat, peer: string)
    requires |trace| == |events| + 1 && k < |events|
    ensures PeerPending(trace, events, k + 1, peer) <==>
      Observes(events[k], peer) || (PeerPending(trace, events, k, peer) && !Resets(trace, events, k))
  {
    if PeerPending(trace, events, k + 1, peer) {
      var i :| 0 <= i < k + 1 && Observes(events[i], peer) && Outstanding(trace, events, i, k + 1);
      if i < k { assert Outstanding(trace, events, i, k); }
    } else if Observes(events[k], peer) {
      assert Outstanding(trace, events, k, k + 1);
    } else if PeerPending(trace, events, k, peer) && !Resets(trace, events, k) {
      var i :| 0 <= i < k && Observes(events[i], peer) && Outstanding(trace, events, i, k);
      assert Outstanding(trace, events, i, k + 1);
    }
  }

  /** The pending peers are exactly those observed since the last launch or stop. */
  lemma {:induction false} PendingPeers(trace: seq<State>, events: seq<Event>, k: nat, peer: string)
    requires IsRun(trace, events) && k < |trace|
    ensures peer in trace[k].recovered <==> PeerPending(trace, events, k, peer)
  {
    if k > 0 {
      PendingPeers(trace, events, k - 1, peer);
      assert trace[k - 1 + 1] == Next(trace[k - 1], events[k - 1]);
      PeerStep(trace[k - 1], events[k - 1], peer);
      PendingStep(trace, events, k - 1, peer);
    }
  }

  /** A launch is told exactly the peers observed since the launch or stop before it. An observation counts
      for the first launch after it and for no other. */
  lemma EachPeerToTheNextLaunch(trace: seq<State>, events: seq<Event>, k: nat, peer: string)
    requires IsRun(trace, events) && k < |events| && Attempts(trace[k], events[k])
    ensures peer in trace[k].recovered <==> PeerPending(trace, events, k, peer)
    ensures forall i, l :: 0 <= i < k < l < |trace| && Outstanding(trace, events, i, k) ==>
      !Outstanding(trace, events, i, l)
  {
    PendingPeers(trace, events, k, peer);
    forall i, l | 0 <= i < k < l < |trace| && Outstanding(trace, events, i, k)
      ensures !Outstanding(trace, events, i, l)
    {
      assert Resets(trace, events, k);
    }
  }

  ghost predicate WakePending(trace: seq<State>, events: seq<Event>, k: nat)
    requires |trace| == |events| + 1 && k < |trace|
  {
    exists i :: 0 <= i < k && Requests(events[i]) && Outstanding(trace, events, i, k)
  }

  lemma WakeStep(trace: seq<State>, events: seq<Event>, k: nat)
    requires |trace| == |events| + 1 && k < |events|
    ensures WakePending(trace, events, k + 1) <==>
      Requests(events[k]) || (WakePending(trace, events, k) && !Resets(trace, events, k))
  {
    if WakePending(trace, events, k + 1) {
      var i :| 0 <= i < k + 1 && Requests(events[i]) && Outstanding(trace, events, i, k + 1);
      if i < k { assert Outstanding(trace, events, i, k); }
    } else if Requests(events[k]) {
      assert Outstanding(trace, events, k, k + 1);
    } else if WakePending(trace, events, k) && !Resets(trace, events, k) {
      var i :| 0 <= i < k && Requests(events[i]) && Outstanding(trace, events, i, k);
      assert Outstanding(trace, events, i, k + 1);
    }
  }

  lemma {:induction false} PendingWake(trace: seq<State>, events: seq<Event>, k: nat)
    requires IsRun(trace, events) && k < |trace|
    ensures trace[k].wake <==> WakePending(trace, events, k)
  {
    if k > 0 {
      PendingWake(trace, events, k - 1);
      assert trace[k - 1 + 1] == Next(trace[k - 1], events[k - 1]);
      WakeStep(trace, events, k - 1);
    }
  }

  /** A request is answered by the first poll that finds no worker running, unless stopped before. */
  lemma RequestsAreServed(trace: seq<State>, events: seq<Event>, i: nat, k: nat)
    requires IsRun(trace, events) && i < k < |events| && Requests(events[i]) && Outstanding(trace, events, i, k)
    requires events[k].Poll? && !Running(trace[k])
    ensures Attempts(trace[k], events[k])
  {
    PendingWake(trace, events, k);
  }

  // ---- after a stop ---------------------------------------------------------------------------------------

  /** Nothing is due and nothing is owned. */
  predicate Idle(s: State) { s.worker.None? && !s.wake && s.nextRun.None? }

  lemma {:induction false} IdleAfterStop(trace: seq<State>, events: seq<Event>, j: nat, k: nat)
    requires IsRun(trace, events) && j < k < |trace| && events[j].Stop?
    requires forall i :: j < i < k ==> !Requests(events[i])
    ensures Idle(trace[k])
  {
    assert trace[k - 1 + 1] == Next(trace[k - 1], events[k - 1]);
    if j < k - 1 { IdleAfterStop(trace, events, j, k - 1); }
  }

  /** After a stop no poll launches a worker without a new request. */
  lemma NoLaunchAfterStop(trace: seq<State>, events: seq<Event>, j: nat, k: nat)
    requires IsRun(trace, events) && j < k < |events| && events[j].Stop? && Attempts(trace[k], events[k])
    ensures exists i :: j < i < k && Requests(events[i])
  {
    if forall i :: j < i < k ==> !Requests(events[i]) { IdleAfterStop(trace, events, j, k); }
  }

  // ---- what happens to an observation ---------------------------------------------------------------------

  /** The peer is told to the worker started at `k`. */
  predicate Told(trace: seq<State>, events: seq<Event>, k: nat, peer: string)
    requires |trace| == |events| + 1 && k < |events|
  {
    Attempts(trace[k], events[k]) && events[k].launched && peer in trace[k].recovered
  }

  /** Event `k` starts a worker. */
  predicate Starts(trace: seq<State>, events: seq<Event>, k: nat)
    requires |trace| == |events| + 1 && k < |events|
  {
    Attempts(trace[k], events[k]) && events[k].launched
  }

  /** The server's loop: creating the process fails by an exception that leaves the loop, so that no poll
      follows a failed launch, only the final stop. */
  ghost predicate ServerRun(trace: seq<State>, events: seq<Event>) {
    && IsRun(trace, events)
    && forall j, k :: 0 <= j < k < |events| && Attempts(trace[j], events[j]) && !events[j].launched ==> !events[k].Poll?
  }

  /** No worker is started and nothing is stopped between `i` and `k`. */
  ghost predicate Waiting(trace: seq<State>, events: seq<Event>, i: nat, k: nat)
    requires |trace| == |events| + 1 && k < |trace|
  {
    i < k && forall j :: i < j < k ==> !Starts(trace, events, j) && !events[j].Stop?
  }

  /** In the server a start or a stop is all that answers an observation. */
  lemma WaitingIffOutstanding(trace: seq<State>, events: seq<Event>, i: nat, k: nat)
    requires ServerRun(trace, events) && k < |events| && events[k].Poll?
    ensures Waiting(trace, events, i, k) <==> Outstanding(trace, events, i, k)
  {
    forall j | i < j < k ensures Resets(trace, events, j) <==> Starts(trace, events, j) || events[j].Stop? {}
  }

  /** In the server every observation that is not cancelled by a stop reaches the first worker started after
      it. */
  lemma ObservationReachesWorker(trace: seq<State>, events: seq<Event>, i: nat, k: nat, peer: string)
    requires ServerRun(trace, events) && i < k < |events| && Observes(events[i], peer)
    requires Starts(trace, events, k) && Waiting(trace, events, i, k)
    ensures Told(trace, events, k, peer)
  {
    WaitingIffOutstanding(trace, events, i, k);
    PendingPeers(trace, events, k, peer);
  }

  /** In the server a worker is told of a peer exactly when the peer was observed since the last worker was
      started or the last stop. */
  lemma ToldInServer(trace: seq<State>, events: seq<Event>, k: nat, peer: string)
    requires ServerRun(trace, events) && k < |events| && Starts(trace, events, k)
    ensures Told(trace, events, k, peer) <==>
      exists i :: 0 <= i < k && Observes(events[i], peer) && Waiting(trace, events, i, k)
  {
    PendingPeers(trace, events, k, peer);
    forall i | 0 <= i < k ensures Waiting(trace, events, i, k) <==> Outstanding(trace, events, i, k) {
      WaitingIffOutstanding(trace, events, i, k);
    }
  }

  // ---- the class used by a caller that goes on after a failed launch --------------------------------------

  /** Outside the server's loop: a peer observed once reaches the first worker started afterwards exactly when
      the first launch afterwards succeeds, because the pending set is emptied before the process is
      created. */
  lemma ToldIffLaunched(trace: seq<State>, events: seq<Event>, i: nat, k: nat, l: nat, peer: string)
    requires IsRun(trace, events) && i < k <= l < |events| && Observes(events[i], peer)
    requires forall j :: i < j < k ==> !Resets(trace, events, j)
    requires forall j :: i < j <= l ==> !Observes(events[j], peer)
    requires Attempts(trace[k], events[k]) && Attempts(trace[l], events[l]) && events[l].launched
    requires forall j :: k <= j < l && Attempts(trace[j], events[j]) ==> !events[j].launched
    ensures Told(trace, events, l, peer) <==> events[k].launched
  {
    PendingPeers(trace, events, k, peer);
    assert Outstanding(trace, events, i, k);
    if l > k {
      assert Resets(trace, events, k);
      PendingPeers(trace, events, l, peer);
      LatestObservation(trace, events, i, k, l, peer);
    }
  }

  lemma LatestObservation(trace: seq<State>, events: seq<Event>, i: nat, k: nat, l: nat, peer: string)
    requires |trace| == |events| + 1 && i < k < l < |events| && Resets(trace, events, k)
    requires forall j :: i < j <= l ==> !Observes(events[j], peer)
    ensures !PeerPending(trace, events, l, peer)
  {
  }

  /** Such a use of the class, which the server's loop rules out: a peer observed before a launch that fails is
      not told to the worker a later poll starts. */
  lemma LostObservation(peer: string) returns (trace: seq<State>, events: seq<Event>)
    ensures IsRun(trace, events) && |events| == 4 && Observes(events[0], peer)
    ensures Starts(trace, events, 3) && !Told(trace, events, 3, peer) && !ServerRun(trace, events)
  {
    var none := Outcome(None);
    events := [Observe(RouteInstalled(Some(peer))), Poll(1, 1, none, false), Wake, Poll(2, 2, none, true)];
    var s0 := Initial(0, 100);
    var s1 := Next(s0, events[0]);
    var s2 := Next(s1, events[1]);
    var s3 := Next(s2, events[2]);
    trace := [s0, s1, s2, s3, Next(s3, events[3])];
    assert Attempts(trace[1], events[1]) && events[3].Poll?;
  }

  // ---- the scheduler object -------------------------------------------------------------------------------

  class OutboundScheduler {
    var worker: Option<nat>
    var wakeRequested: bool
    var recovered: set<string>
    var nextRun: Option<int>
    ghost var live: set<nat>
    ghost var stopping: Option<nat>
    ghost var issued: nat

    constructor (now: int, grace: int)
      ensures Abs() == Initial(now, grace)
    {
      worker, wakeRequested, recovered, nextRun := None, false, {}, Some(now + grace);
      live, stopping, issued := {}, None, 0;
    }

    ghost function Abs(): State
      reads this
    {
      State(worker, wakeRequested, recovered, nextRun, live, stopping, issued)
    }

    method RequestWake()
      modifies this
      ensures Abs() == Next(old(Abs()), Wake)
    {
      wakeRequested := true;
    }

    method ObserveRoute(o: Observation)
      modifies this
      ensures Abs() == Next(old(Abs()), Observe(o))
    {
      if !o.RouteInstalled? || o.node.None? { return; }
      recovered := recovered + {o.node.value};
      wakeRequested := true;
    }

    /** How long the server's selector may wait; `running` is whether the worker process is still alive. */
    method Timeout(maximum: int, now: int, running: bool) returns (wait: int)
      requires running == Running(Abs())
      ensures running ==> wait == maximum
      ensures !running && wakeRequested ==> wait == 0
      ensures !running && nextRun.Some? && nextRun.value >= now ==> now + wait <= nextRun.value
      ensures !running && !wakeRequested ==>
        && 0 <= wait <= Max(0, maximum)
        && (wait < Max(0, maximum) ==> nextRun.Some? && wait == Max(0, nextRun.value - now))
    {
      if running { return maximum; }
      if wakeRequested { return 0; }
      if nextRun.None? { return Max(0, maximum); }
      return Max(0, Min(maximum, nextRun.value - now));
    }

    /** Collect an exited worker and start at most one due replacement; `id` is the process a launch creates. */
    method PollWorker(collected: int, now: int, running: bool, outcome: Outcome, launched: bool, id: nat)
      returns (told: Option<seq<string>>)
      requires running == Running(Abs()) && id == issued
      modifies this
      ensures var e := Poll(collected, now, outcome, launched);
        && Abs() == Next(old(Abs()), e)
        && (told.Some? <==> Attempts(old(Abs()), e))
        && (told.Some? ==> SortedListing(told.value, old(recovered)))
    {
      told := None;
      if worker.Some? && running { return; }
      if worker.Some? {
        worker := None;
        nextRun := if outcome.delay.Some? then Some(collected + Max(0, outcome.delay.value)) else None;
      }
      if !wakeRequested && (nextRun.None? || now < nextRun.value) { return; }
      var peers := Sort(recovered);
      told := Some(peers);
      recovered, wakeRequested, nextRun := {}, false, None;
      if launched {
        worker := Some(id);
        live, issued := live + {id}, issued + 1;
      }
    }

    /** Cancel everything pending and give up the worker, which is then terminated. */
    method StopWorker() returns (abandoned: Option<nat>)
      modifies this
      ensures Abs() == Next(old(Abs()), Stop) && abandoned == old(worker)
    {
      wakeRequested, recovered, nextRun := false, {}, None;
      abandoned := worker;
      worker, stopping := None, worker;
    }
  }
}
