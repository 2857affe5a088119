/** Runs of LAN discovery: browser callbacks with lookups in flight, the address refresh loop and stop,
    interleaved at the two locks. */
module MdnsRuns {
  import opened Strings
  import opened Endpoints
  import opened Mdns

  datatype Config = Config(localId: string, serviceName: string, decimal: int -> string)

  /** A callback inside the callback lock, past the check there and before its change. */
  datatype Section = Updating(zc: nat, name: string, candidate: Option<PeerInfo>) | Removing(zc: nat, name: string)

  /** What the holder of the network lock has done: nothing, detached the membership, cleared its
      candidates, or opened a new one whose browser is still being created. When opening fails within the
      start itself, the daemon is aborted: what follows is a stop, and no refresh ever runs. */
  datatype Net = Idle | Detached | Cleared | Opened | Aborted

  /** `starting` until the opening of the start is over; `issued` counts memberships and so numbers the next
      one; `cleared` counts those opened before the candidates were last cleared. */
  datatype State = State(
    active: bool, starting: bool, zeroconf: Option<nat>, services: Services, view: View,
    lookups: multiset<(nat, string)>, section: Option<Section>, net: Net, issued: nat, cleared: nat)

  datatype Step =
    | Look(zc: nat, name: string)                             // first check passed, resolving without a lock
    | Enter(zc: nat, name: string, info: Option<ServiceInfo>) // resolved; check under the callback lock
    | EnterRemove(zc: nat, name: string)
    | Commit                                                  // the change, and release of the callback lock
    | Detach
    | Clear
    | Open
    | OpenDone
    | OpenFailed
    | NotOpened                                               // no address left, or failed before the browser
    | Stop
    | Cleanup

  predicate Enabled(c: Config, s: State, step: Step) {
    match step
    case Look(zc, name) => s.active && s.zeroconf == Some(zc) && name != c.serviceName
    case Enter(zc, name, _) => s.section.None? && (zc, name) in s.lookups
    case EnterRemove(_, _) => s.section.None?
    case Commit => s.section.Some?
    case Detach => s.net.Idle?
    case Clear => s.net.Detached? && s.section.None?
    case Open => s.net.Cleared?
    case OpenDone => s.net.Opened?
    case OpenFailed => s.net.Opened?
    case NotOpened => s.net.Cleared?
    case Stop => s.section.None?
    case Cleanup => !s.active && s.net.Idle?
  }

  function ApplyEnter(c: Config, s: State, zc: nat, name: string, info: Option<ServiceInfo>): State {
    var s' := s.(lookups := s.lookups - multiset{(zc, name)});
    if s.active && s.zeroconf == Some(zc)
    then s'.(section := Some(Updating(zc, name, Candidate(c.localId, info, c.decimal)))) else s'
  }

  function ApplyEnterRemove(c: Config, s: State, zc: nat, name: string): State {
    if s.active && s.zeroconf == Some(zc) && name != c.serviceName then s.(section := Some(Removing(zc, name))) else s
  }

  function ApplyCommit(s: State): State
    requires s.section.Some?
  {
    var (services, view) := match s.section.value
      case Updating(zc, name, candidate) => Updated(s.services, s.view, zc, name, candidate)
      case Removing(_, name) => Removed(s.services, s.view, name);
    s.(services := services, view := view, section := None)
  }

  function ApplyClear(s: State): State {
    s.(services := [], view := if s.active then s.view - PeersOf(s.services) else s.view,
       net := Cleared, cleared := s.issued)
  }

  /** A refresh logs its failure and goes on; a start stops the daemon. */
  function AfterFailure(s: State): Net { if s.starting then Aborted else Idle }

  function Next(c: Config, s: State, step: Step): State
    requires Enabled(c, s, step)
  {
    match step
    case Look(zc, name) => s.(lookups := s.lookups + multiset{(zc, name)})
    case Enter(zc, name, info) => ApplyEnter(c, s, zc, name, info)
    case EnterRemove(zc, name) => ApplyEnterRemove(c, s, zc, name)
    case Commit => ApplyCommit(s)
    case Detach => s.(zeroconf := None, net := Detached)
    case Clear => ApplyClear(s)
    case Open => s.(zeroconf := Some(s.issued), issued := s.issued + 1, net := Opened)
    case OpenDone => s.(net := Idle, starting := false)
    case OpenFailed => s.(zeroconf := None, net := AfterFailure(s), starting := false)
    case NotOpened => s.(net := AfterFailure(s), starting := false)
    case Stop => s.(active := false, services := [], net := if s.net.Aborted? then Idle else s.net)
    case Cleanup => s.(zeroconf := None)
  }

  /** Just started: about to open a membership, or without an address to open one on. */
  predicate Initial(s: State) {
    && s.active && s.zeroconf.None? && s.services == [] && s.view == map[] && s.lookups == multiset{}
    && s.section.None? && s.issued == s.cleared == 0
    && (if s.starting then s.net.Cleared? else s.net.Idle?)
  }

  ghost predicate IsRun(c: Config, trace: seq<State>, steps: seq<Step>) {
    && |trace| == |steps| + 1 && Initial(trace[0])
    && forall k :: 0 <= k < |steps| ==> Enabled(c, trace[k], steps[k]) && trace[k + 1] == Next(c, trace[k], steps[k])
  }

  // ---- the invariant --------------------------------------------------------------------------------------

  /** No announcement is the daemon's own, and all come from memberships opened since the last clear. */
  predicate Foreign(c: Config, services: Services, cleared: nat, issued: nat) {
    forall a :: a in services ==>
      a.name != c.serviceName && a.info.peerId != c.localId && cleared <= a.via < issued
  }

  predicate SectionFits(c: Config, section: Option<Section>, cleared: nat, issued: nat) {
    section.Some? ==>
      && cleared <= section.value.zc < issued && section.value.name != c.serviceName
      && (section.value.Updating? && section.value.candidate.Some? ==>
            section.value.candidate.value.peerId != c.localId)
  }

  /** At most one membership is opened between two clears, and only with nothing detached meanwhile. */
  predicate NetFits(zeroconf: Option<nat>, net: Net, cleared: nat, issued: nat) {
    && cleared <= issued <= cleared + 1
    && (net.Cleared? ==> issued == cleared) && (net.Opened? ==> zeroconf.Some?)
    && (net.Detached? || net.Cleared? || net.Aborted? ==> zeroconf.None?)
    && (zeroconf.Some? ==> cleared <= zeroconf.value < issued)
  }

  ghost predicate Inv(c: Config, s: State) {
    && Unique(s.services) && Foreign(c, s.services, s.cleared, s.issued)
    && (if s.active then Agree(s.services, s.view) else s.services == [])
    && (s.section.Some? ==> s.active)
    && (forall l :: l in s.lookups ==> l.1 != c.serviceName)
    && SectionFits(c, s.section, s.cleared, s.issued)
    && NetFits(s.zeroconf, s.net, s.cleared, s.issued)
  }

  lemma CommitKeepsInv(c: Config, s: State)
    requires Inv(c, s) && s.section.Some?
    ensures Inv(c, ApplyCommit(s))
  {
    var section := s.section.value;
    match section
    case Updating(zc, name, candidate) =>
      UpdatedAgrees(s.services, s.view, zc, name, candidate);
      if candidate.Some? {
        PutFacts(s.services, Announcement(name, candidate.value, zc));
      } else {
        DropFacts(s.services, name);
      }
    case Removing(_, name) =>
      RemovedAgrees(s.services, s.view, name);
      DropFacts(s.services, name);
  }

  lemma ClearKeepsInv(c: Config, s: State)
    requires Inv(c, s) && s.net.Detached? && s.section.None?
    ensures Inv(c, ApplyClear(s))
  {
    if s.active {
      forall p | p in s.view ensures p in PeersOf(s.services) {
        var i :| 0 <= i < |s.services| && s.services[i].info == s.view[p];
        assert s.services[i] in s.services;
      }
    }
  }

  lemma StepKeepsInv(c: Config, s: State, step: Step)
    requires Inv(c, s) && Enabled(c, s, step)
    ensures Inv(c, Next(c, s, step))
  {
    match step
    case Commit => CommitKeepsInv(c, s);
    case Clear => ClearKeepsInv(c, s);
    case Enter(zc, name, info) =>
    case _ =>
  }

  lemma {:induction false} RunsKeepInv(c: Config, trace: seq<State>, steps: seq<Step>, k: nat)
    requires IsRun(c, trace, steps) && k < |trace|
    ensures Inv(c, trace[k])
  {
    if k > 0 {
      RunsKeepInv(c, trace, steps, k - 1);
      assert trace[k - 1 + 1] == Next(c, trace[k - 1], steps[k - 1]);
      StepKeepsInv(c, trace[k - 1], steps[k - 1]);
    }
  }

  // ---- agreement over runs --------------------------------------------------------------------------------

  /** In every state of a lifetime the listener holds exactly the announced peers, each with a current
      announcement of that peer; the daemon's own name and identity never appear. */
  lemma ViewAgreement(c: Config, trace: seq<State>, steps: seq<Step>, k: nat)
    requires IsRun(c, trace, steps) && k < |trace| && trace[k].active
    ensures trace[k].view.Keys == PeersOf(trace[k].services) && c.localId !in trace[k].view
    ensures forall p :: p in trace[k].view ==> Current(trace[k].services, p, trace[k].view[p])
    ensures Unique(trace[k].services) && Find(trace[k].services, c.serviceName) == None
  {
    RunsKeepInv(c, trace, steps, k);
    var s := trace[k];
    forall p | p in s.view ensures p in PeersOf(s.services) && p != c.localId {
      assert Current(s.services, p, s.view[p]);
      var i :| 0 <= i < |s.services| && s.services[i].info == s.view[p];
      assert s.services[i] in s.services;
    }
    forall p | p in PeersOf(s.services) ensures p in s.view {
      var a :| a in s.services && a.info.peerId == p;
    }
    var at := Position(s.services, c.serviceName);
    assert at < |s.services| ==> s.services[at] in s.services;
  }

  lemma ClearedStep(c: Config, s: State, step: Step)
    requires Inv(c, s) && Enabled(c, s, step)
    ensures s.cleared <= Next(c, s, step).cleared
  {
  }

  lemma {:induction false} ClearedGrows(c: Config, trace: seq<State>, steps: seq<Step>, j: nat, k: nat)
    requires IsRun(c, trace, steps) && j <= k < |trace|
    ensures trace[j].cleared <= trace[k].cleared
    decreases |trace| - j
  {
    if j < k {
      RunsKeepInv(c, trace, steps, j);
      ClearedStep(c, trace[j], steps[j]);
      ClearedGrows(c, trace, steps, j + 1, k);
    }
  }

  /** Once a refresh has cleared the candidates, no announcement of a membership opened before it remains
      or comes back, no callback of such a membership gets past the check, and no listener entry stems
      from one, whatever lookups were in flight. */
  lemma DetachedNeverReturns(c: Config, trace: seq<State>, steps: seq<Step>, j: nat, k: nat)
    requires IsRun(c, trace, steps) && j < k < |trace| && steps[j] == Clear
    ensures var bound, s := trace[j].issued, trace[k];
      && (forall a :: a in s.services ==> a.via >= bound)
      && (s.section.Some? ==> s.section.value.zc >= bound)
      && (s.zeroconf.Some? ==> s.zeroconf.value >= bound)
      && (s.active ==> forall p :: p in s.view ==>
            exists a :: a in s.services && a.info == s.view[p] && a.info.peerId == p && a.via >= bound)
  {
    assert trace[j + 1] == Next(c, trace[j], steps[j]);
    ClearedGrows(c, trace, steps, j + 1, k);
    RunsKeepInv(c, trace, steps, k);
    var s := trace[k];
    if s.active {
      forall p | p in s.view
        ensures exists a :: a in s.services && a.info == s.view[p] && a.info.peerId == p && a.via >= trace[j].issued
      {
        assert Current(s.services, p, s.view[p]);
        var i :| 0 <= i < |s.services| && s.services[i].info == s.view[p];
        assert s.services[i] in s.services;
      }
    }
  }

  /** All announcements at any time come from one membership. */
  lemma OneMembership(c: Config, trace: seq<State>, steps: seq<Step>, k: nat, a: Announcement, b: Announcement)
    requires IsRun(c, trace, steps) && k < |trace| && a in trace[k].services && b in trace[k].services
    ensures a.via == b.via && (trace[k].zeroconf.Some? ==> a.via == trace[k].zeroconf.value)
  {
    RunsKeepInv(c, trace, steps, k);
  }

  /** After stop nothing is announced and the listener is not called again. */
  lemma {:induction false} SilentAfterStop(c: Config, trace: seq<State>, steps: seq<Step>, j: nat, k: nat)
    requires IsRun(c, trace, steps) && j <= k < |trace| && !trace[j].active
    ensures !trace[k].active && trace[k].services == [] && trace[k].view == trace[j].view
    decreases k
  {
    RunsKeepInv(c, trace, steps, k);
    if j < k {
      SilentAfterStop(c, trace, steps, j, k - 1);
      RunsKeepInv(c, trace, steps, k - 1);
      assert trace[k - 1 + 1] == Next(c, trace[k - 1], steps[k - 1]);
    }
  }

  // ---- announcements without a membership -----------------------------------------------------------------

  /** Announcements are stored, or about to be, although no membership is open and none is being replaced. */
  predicate Orphaned(s: State) {
    s.active && s.net.Idle? && s.zeroconf.None? && (s.services != [] || s.section.Some?)
  }

  /** A browser that has already reported dies with the opening it belongs to, and no stop follows. */
  predicate Strands(s: State, step: Step) {
    step == OpenFailed && !s.starting && s.active && (s.services != [] || s.section.Some?)
  }

  /** The step leaves what is stranded where it is. */
  predicate Leaves(s: State, step: Step) {
    step != Detach && step != Stop && (step == Commit && s.section.Some? ==> ApplyCommit(s).services != [])
  }

  lemma OrphanedStep(c: Config, s: State, step: Step)
    requires Inv(c, s) && Enabled(c, s, step)
    ensures Orphaned(Next(c, s, step)) <==> Strands(s, step) || (Orphaned(s) && Leaves(s, step))
  {
    assert s.services == [] || s.services[0] in s.services;
  }

  /** The opening that failed at `j` strands announcements that are still there at `k`. */
  ghost predicate StrandedSince(trace: seq<State>, steps: seq<Step>, j: nat, k: nat)
    requires |trace| == |steps| + 1 && k < |trace|
  {
    j < k && Strands(trace[j], steps[j]) && forall i :: j < i < k ==> Leaves(trace[i], steps[i])
  }

  ghost predicate Stranded(trace: seq<State>, steps: seq<Step>, k: nat)
    requires |trace| == |steps| + 1 && k < |trace|
  {
    exists j: nat :: StrandedSince(trace, steps, j, k)
  }

  lemma StrandedStep(trace: seq<State>, steps: seq<Step>, k: nat)
    requires |trace| == |steps| + 1 && k < |steps|
    ensures Stranded(trace, steps, k + 1) <==>
      Strands(trace[k], steps[k]) || (Stranded(trace, steps, k) && Leaves(trace[k], steps[k]))
  {
    if Stranded(trace, steps, k + 1) {
      var j: nat :| StrandedSince(trace, steps, j, k + 1);
      if j < k { assert StrandedSince(trace, steps, j, k); }
    } else if Strands(trace[k], steps[k]) {
      assert StrandedSince(trace, steps, k, k + 1);
    } else if Stranded(trace, steps, k) && Leaves(trace[k], steps[k]) {
      var j: nat :| StrandedSince(trace, steps, j, k);
      assert StrandedSince(trace, steps, j, k + 1);
    }
  }

  /** Exactly when announcements outlive their membership: an opening failed in a refresh, after its browser
      had begun to report, and since then no refresh detached, nothing stopped, and no callback already past
      its check withdrew the last announcement. */
  lemma {:induction false} OrphansIff(c: Config, trace: seq<State>, steps: seq<Step>, k: nat)
    requires IsRun(c, trace, steps) && k < |trace|
    ensures Orphaned(trace[k]) <==> Stranded(trace, steps, k)
  {
    if k > 0 {
      OrphansIff(c, trace, steps, k - 1);
      RunsKeepInv(c, trace, steps, k - 1);
      OrphanedStep(c, trace[k - 1], steps[k - 1]);
      assert trace[k - 1 + 1] == Next(c, trace[k - 1], steps[k - 1]);
      StrandedStep(trace, steps, k - 1);
    }
  }

  /** A callback stores its first announcement. */
  lemma FirstAnnouncement(name: string, info: PeerInfo, zc: nat)
    ensures Updated([], map[], zc, name, Some(info)) == ([Announcement(name, info, zc)], map[info.peerId := info])
    ensures Find([Announcement(name, info, zc)], name) == Some(info)
  {
    assert Put([], Announcement(name, info, zc)) == [Announcement(name, info, zc)];
  }

  /** `t` follows from `s` by one step. */
  predicate Follows(c: Config, s: State, step: Step, t: State) { Enabled(c, s, step) && t == Next(c, s, step) }

  /** A refresh opens the first membership. */
  lemma FirstOpening(c: Config, s: State) returns (s1: State, s2: State, s3: State)
    requires s == State(true, false, None, [], map[], multiset{}, None, Idle, 0, 0)
    ensures Follows(c, s, Detach, s1) && Follows(c, s1, Clear, s2) && Follows(c, s2, Open, s3)
    ensures s3 == State(true, false, Some(0), [], map[], multiset{}, None, Opened, 1, 0)
  {
    s1, s2 := s.(net := Detached), s.(net := Cleared);
    assert s1.view - PeersOf([]) == map[];
    s3 := s.(net := Opened, zeroconf := Some(0), issued := 1);
  }

  /** A lookup is resolved and stored while the browser is still being created. */
  lemma Reported(c: Config, s: State, name: string, info: ServiceInfo) returns (s1: State, s2: State, s3: State)
    requires name != c.serviceName && Announces(c.localId, info)
    requires s == State(true, false, Some(0), [], map[], multiset{}, None, Opened, 1, 0)
    ensures Follows(c, s, Look(0, name), s1) && Follows(c, s1, Enter(0, name, Some(info)), s2)
    ensures Follows(c, s2, Commit, s3)
    ensures s3.active && !s3.starting && s3.net.Opened? && s3.services != []
    ensures Find(s3.services, name).Some? && info.id.value in s3.view
  {
    var found := Candidate(c.localId, Some(info), c.decimal).value;
    FirstAnnouncement(name, found, 0);
    s1 := s.(lookups := multiset{(0, name)});
    s2 := s.(section := Some(Updating(0, name, Some(found))));
    s3 := s.(services := [Announcement(name, found, 0)], view := map[found.peerId := found]);
  }

  /** Such a run: started without an address, the first refresh that finds one fails to open its membership
      after a callback has stored an announcement. The next refresh that finds an address clears it; one
      that finds none compares equal to what is advertised and leaves it. */
  lemma FailedOpenOrphans(c: Config, name: string, info: ServiceInfo) returns (trace: seq<State>, steps: seq<Step>)
    requires name != c.serviceName && Announces(c.localId, info)
    ensures IsRun(c, trace, steps) && !trace[0].starting && Orphaned(trace[|steps|])
    ensures Find(trace[|steps|].services, name).Some? && info.id.value in trace[|steps|].view
  {
    var s0 := State(true, false, None, [], map[], multiset{}, None, Idle, 0, 0);
    var s1, s2, s3 := FirstOpening(c, s0);
    var s4, s5, s6 := Reported(c, s3, name, info);
    var s7 := Next(c, s6, OpenFailed);
    steps := [Detach, Clear, Open, Look(0, name), Enter(0, name, Some(info)), Commit, OpenFailed];
    trace := [s0, s1, s2, s3, s4, s5, s6, s7];
    forall k | 0 <= k < |steps| ensures Follows(c, trace[k], steps[k], trace[k + 1]) {
      assert k == 0 || k == 1 || k == 2 || k == 3 || k == 4 || k == 5 || k == 6;
    }
  }

  /** A start whose opening fails announces nothing: it never gets past the stop that follows. */
  lemma {:induction false} AbortedStartStops(c: Config, trace: seq<State>, steps: seq<Step>, j: nat, k: nat)
    requires IsRun(c, trace, steps) && j <= k < |trace| && trace[j].net.Aborted? && trace[j].active
    ensures if exists i :: j <= i < k && steps[i] == Stop then !trace[k].active && trace[k].services == []
      else trace[k].net.Aborted? && trace[k].active
    decreases k
  {
    if j < k {
      var p := k - 1;
      AbortedStartStops(c, trace, steps, j, p);
      RunsKeepInv(c, trace, steps, p);
      RunsKeepInv(c, trace, steps, k);
      assert trace[p + 1] == Next(c, trace[p], steps[p]);
    }
  }
}
