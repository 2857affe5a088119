/** LAN discovery membership: announcements by service name, published as one candidate per peer.

    The listener's view is the table a consumer keeps that sets a peer on every candidate callback and
    deletes it on every remove callback. Two locks are in play: the callback lock guards `services`, the
    network lock guards the current membership `zeroconf`. A lookup passes its first check, resolves the
    service without a lock and then checks again under the callback lock; detaching a membership may slip
    in between that check and the change it admits. One object serves one lifetime. */
module Mdns {
  import opened Strings
  import opened Endpoints

  // ---- parsing an announcement --------------------------------------------------------------------------

  datatype Address = Malformed | Unspecified | Ip(version: nat, text: string)

  /** A resolved service record; `port` is absent when it is no integer, `id` when it does not decode to a
      transport identity. */
  datatype ServiceInfo = ServiceInfo(oid: nat, port: Option<int>, id: Option<string>, addresses: seq<Address>)

  function Multiaddr(address: Address, port: string): string
    requires address.Ip?
  {
    (if address.version == 4 then "/ip4/" else "/ip6/") + address.text + "/tcp/" + port
  }

  predicate Announces(localId: string, info: ServiceInfo) {
    && info.port.Some? && 1 <= info.port.value <= 65535
    && info.id.Some? && info.id.value != localId
    && info.addresses != [] && forall a :: a in info.addresses ==> a.Ip?
  }

  /** The dial candidate in a service record; `decimal` prints the port. */
  function Candidate(localId: string, info: Option<ServiceInfo>, decimal: int -> string): (r: Option<PeerInfo>)
    ensures r.Some? <==> info.Some? && Announces(localId, info.value)
    ensures r.Some? ==> r.value.peerId != localId && |r.value.addrs| == |info.value.addresses| > 0
  {
    if info.Some? && Announces(localId, info.value)
    then
      var port := decimal(info.value.port.value);
      Some(PeerInfo(info.value.oid, info.value.id.value,
        seq(|info.value.addresses|, i requires 0 <= i < |info.value.addresses| && info.value.addresses[i].Ip? =>
          Multiaddr(info.value.addresses[i], port))))
    else None
  }

  /** How IP addresses and port numbers print. */
  predicate Numeric(text: string) {
    forall i :: 0 <= i < |text| ==> '0' <= text[i] <= '9' || 'a' <= text[i] <= 'f' || text[i] in {'.', ':'}
  }

  lemma MultiaddrIsPlain(address: Address, port: string)
    requires address.Ip? && Numeric(address.text) && Numeric(port)
    ensures !MentionsCircuit(Multiaddr(address, port))
  {
    var m, n := Multiaddr(address, port), |address.text|;
    forall i | 0 <= i <= |m| ensures !OccursAt(m, "/p2p-circuit", i) {
      if i + 12 <= |m| && m[i] == '/' {
        assert m[i..i + 12][0] == m[i] && m[i..i + 12][1] == m[i + 1];
        assert m[..5] == "/ip4/" || m[..5] == "/ip6/";
        assert forall k :: 0 <= k < n ==> m[5 + k] == address.text[k];
        assert m[n + 5..n + 10] == "/tcp/";
        assert forall k :: 0 <= k < |port| ==> m[n + 10 + k] == port[k];
      } else if i + 12 <= |m| {
        assert m[i..i + 12][0] == m[i];
      }
    }
  }

  /** A dial candidate from an announcement never runs over a relay. */
  lemma CandidateIsPlain(localId: string, info: ServiceInfo, decimal: int -> string)
    requires Announces(localId, info) && Numeric(decimal(info.port.value))
    requires forall a :: a in info.addresses && a.Ip? ==> Numeric(a.text)
    ensures Plain(Candidate(localId, Some(info), decimal).value)
  {
    var addrs := Candidate(localId, Some(info), decimal).value.addrs;
    forall i | 0 <= i < |addrs| ensures !MentionsCircuit(addrs[i]) {
      assert info.addresses[i] in info.addresses;
      MultiaddrIsPlain(info.addresses[i], decimal(info.port.value));
    }
  }

  // ---- announcements in insertion order -------------------------------------------------------------------

  /** One entry of the service table; `via` is the membership whose callback stored it. */
  datatype Announcement = Announcement(name: string, info: PeerInfo, via: nat)

  type Services = seq<Announcement>
  type View = map<string, PeerInfo>

  predicate Unique(services: Services) {
    forall i, j :: 0 <= i < j < |services| ==> services[i].name != services[j].name
  }

  /** The position of a name in the table, or its length. */
  function Position(services: Services, name: string): (p: nat)
    ensures p <= |services|
    ensures p < |services| ==> services[p].name == name
    ensures forall i :: 0 <= i < p ==> services[i].name != name
  {
    if services == [] || services[0].name == name then 0 else 1 + Position(services[1..], name)
  }

  function Find(services: Services, name: string): Option<PeerInfo> {
    var p := Position(services, name);
    if p < |services| then Some(services[p].info) else None
  }

  /** Storing under a known name keeps its position; a new name goes last. */
  function Put(services: Services, a: Announcement): Services {
    var p := Position(services, a.name);
    if p < |services| then services[p := a] else services + [a]
  }

  function Drop(services: Services, name: string): Services {
    var p := Position(services, name);
    if p < |services| then services[..p] + services[p + 1..] else services
  }

  predicate Serves(a: Announcement, peer: string, removed: string) {
    a.name != removed && a.info.peerId == peer
  }

  /** The first announcement of a peer under another name than the one removed. */
  function Remaining(services: Services, peer: string, removed: string): (p: nat)
    ensures p <= |services|
    ensures p < |services| ==> Serves(services[p], peer, removed)
    ensures forall i :: 0 <= i < p ==> !Serves(services[i], peer, removed)
  {
    if services == [] || Serves(services[0], peer, removed) then 0 else 1 + Remaining(services[1..], peer, removed)
  }

  /** A peer lost one announcement: publish another of the peer's, or its removal. */
  function Published(view: View, services: Services, peer: string, removed: string): View {
    var p := Remaining(services, peer, removed);
    if p < |services| then view[peer := services[p].info] else view - {peer}
  }

  /** The service table and the view after the locked part of an update. */
  function Updated(
      services: Services, view: View, via: nat, name: string, candidate: Option<PeerInfo>): (Services, View)
  {
    var previous := Find(services, name);
    if candidate.None? then Removed(services, view, name)
    else
      var services' := Put(services, Announcement(name, candidate.value, via));
      var view' := if previous.Some? && previous.value.peerId != candidate.value.peerId
                   then Published(view, services', previous.value.peerId, name) else view;
      (services', view'[candidate.value.peerId := candidate.value])
  }

  function Removed(services: Services, view: View, name: string): (Services, View) {
    var previous := Find(services, name);
    if previous.None? then (services, view)
    else
      var services' := Drop(services, name);
      (services', Published(view, services', previous.value.peerId, name))
  }

  function PeersOf(services: Services): set<string> { set a | a in services :: a.info.peerId }

  // ---- agreement ------------------------------------------------------------------------------------------

  ghost predicate Current(services: Services, peer: string, info: PeerInfo) {
    info.peerId == peer && exists i :: 0 <= i < |services| && services[i].info == info
  }

  /** The view holds exactly the announced peers, each with one of its current announcements. */
  ghost predicate Agree(services: Services, view: View) {
    && (forall i :: 0 <= i < |services| ==> services[i].info.peerId in view)
    && (forall p :: p in view ==> Current(services, p, view[p]))
  }

  lemma PutFacts(services: Services, a: Announcement)
    requires Unique(services)
    ensures Unique(Put(services, a)) && a in Put(services, a)
    ensures forall b :: b in services && b.name != a.name ==> b in Put(services, a)
    ensures forall b :: b in Put(services, a) ==> b == a || (b in services && b.name != a.name)
  {
    var p, r := Position(services, a.name), Put(services, a);
    if p < |services| {
      assert r[p] == a;
      forall b | b in services && b.name != a.name ensures b in r {
        var i :| 0 <= i < |services| && services[i] == b;
        assert r[i] == b;
      }
    } else {
      assert r[|services|] == a;
    }
  }

  lemma DropUnique(services: Services, name: string)
    requires Unique(services)
    ensures Unique(Drop(services, name))
  {
    var p, r := Position(services, name), Drop(services, name);
    if p < |services| {
      assert forall i :: 0 <= i < |r| ==> r[i] == services[if i < p then i else i + 1];
    }
  }

  lemma DropFacts(services: Services, name: string)
    requires Unique(services)
    ensures Unique(Drop(services, name))
    ensures forall b :: b in Drop(services, name) <==> b in services && b.name != name
  {
    DropUnique(services, name);
    var p := Position(services, name);
    if p < |services| {
      var before, after := services[..p], services[p + 1..];
      assert services == before + [services[p]] + after;
      assert forall b :: b in before ==> b.name != name;
      assert forall b :: b in after ==> b.name != name;
    }
  }

  /** Every announcement but those named `name` is in both tables. */
  predicate SameBut(services: Services, services': Services, name: string) {
    && (forall b :: b in services && b.name != name ==> b in services')
    && (forall b :: b in services' && b.name != name ==> b in services)
  }

  /** The view with one peer's entry out of date becomes exact again by publishing. */
  lemma PublishedFacts(services: Services, view: View, services': Services, name: string, peer: string)
    requires Agree(services, view) && SameBut(services, services', name)
    requires forall b :: b in services && b.name == name ==> b.info.peerId == peer
    requires forall b :: b in services' && b.name == name ==> b.info.peerId != peer
    ensures var view' := Published(view, services', peer, name);
      && (forall b :: b in services' && b.name != name ==> b.info.peerId in view')
      && (forall p :: p in view' ==> Current(services', p, view'[p]))
  {
    var view' := Published(view, services', peer, name);
    forall p | p in view' ensures Current(services', p, view'[p]) {
      if p != peer {
        assert view'[p] == view[p];
        var i :| 0 <= i < |services| && services[i].info == view[p];
        assert services[i] in services;
        assert services[i] in services';
      }
    }
    forall b | b in services' && b.name != name ensures b.info.peerId in view' {
      assert b in services;
      if b.info.peerId == peer { assert Serves(b, peer, name); }
    }
  }

  lemma OnlyOneNamed(services: Services, name: string)
    requires Unique(services) && Position(services, name) < |services|
    ensures forall b :: b in services && b.name == name ==> b == services[Position(services, name)]
  {
  }

  lemma AgreeByMember(services: Services, view: View)
    requires forall b :: b in services ==> b.info.peerId in view
    requires forall p :: p in view ==> Current(services, p, view[p])
    ensures Agree(services, view)
  {
    forall i | 0 <= i < |services| ensures services[i].info.peerId in view { assert services[i] in services; }
  }

  lemma RemovedAgrees(services: Services, view: View, name: string)
    requires Unique(services) && Agree(services, view)
    ensures var (services', view') := Removed(services, view, name); Unique(services') && Agree(services', view')
  {
    var at, services' := Position(services, name), Drop(services, name);
    DropFacts(services, name);
    if at < |services| {
      OnlyOneNamed(services, name);
      PublishedFacts(services, view, services', name, services[at].info.peerId);
      AgreeByMember(services', Published(view, services', services[at].info.peerId, name));
    }
  }

  /** Storing a candidate where the name had none, or one of the same peer. */
  lemma StoredAgrees(services: Services, view: View, a: Announcement)
    requires Unique(services) && Agree(services, view)
    requires Find(services, a.name).Some? ==> Find(services, a.name).value.peerId == a.info.peerId
    ensures Agree(Put(services, a), view[a.info.peerId := a.info])
  {
    PutFacts(services, a);
    var services', view' := Put(services, a), view[a.info.peerId := a.info];
    forall i | 0 <= i < |services'| ensures services'[i].info.peerId in view' {
      assert services'[i] in services';
      if services'[i] != a {
        var j :| 0 <= j < |services| && services[j] == services'[i];
      }
    }
    forall p | p in view' ensures Current(services', p, view'[p]) {
      if p == a.info.peerId {
        var j :| 0 <= j < |services'| && services'[j] == a;
      } else {
        var j :| 0 <= j < |services| && services[j].info == view[p];
        assert services[j].name != a.name;
        assert services[j] in services && services[j] in services';
      }
    }
  }

  /** A name taken over by another peer: the old peer is published anew, then the candidate. */
  lemma ReplacedAgrees(services: Services, view: View, a: Announcement, peer: string)
    requires Unique(services) && Agree(services, view)
    requires Find(services, a.name).Some? && Find(services, a.name).value.peerId == peer != a.info.peerId
    ensures Agree(Put(services, a), Published(view, Put(services, a), peer, a.name)[a.info.peerId := a.info])
  {
    PutFacts(services, a);
    var services' := Put(services, a);
    PublishedFacts(services, view, services', a.name, peer);
    var view1 := Published(view, services', peer, a.name);
    var view' := view1[a.info.peerId := a.info];
    forall i | 0 <= i < |services'| ensures services'[i].info.peerId in view' {
      assert services'[i] in services';
    }
    forall p | p in view' ensures Current(services', p, view'[p]) {
      if p == a.info.peerId {
        var j :| 0 <= j < |services'| && services'[j] == a;
      } else {
        assert Current(services', p, view1[p]);
      }
    }
  }

  lemma UpdatedAgrees(services: Services, view: View, via: nat, name: string, candidate: Option<PeerInfo>)
    requires Unique(services) && Agree(services, view)
    ensures var (services', view') := Updated(services, view, via, name, candidate);
      Unique(services') && Agree(services', view')
  {
    if candidate.None? {
      RemovedAgrees(services, view, name);
    } else {
      var a := Announcement(name, candidate.value, via);
      PutFacts(services, a);
      var previous := Find(services, name);
      if previous.Some? && previous.value.peerId != candidate.value.peerId {
        ReplacedAgrees(services, view, a, previous.value.peerId);
      } else {
        StoredAgrees(services, view, a);
      }
    }
  }

  // ---- the daemon's discovery object ----------------------------------------------------------------------

  class DaemonMdns {
    const localId: string
    const serviceName: string
    const decimal: int -> string
    var active: bool
    var zeroconf: Option<nat>
    var services: Services
    var view: View

    constructor (localId: string, serviceName: string, decimal: int -> string)
      ensures this.localId == localId && this.serviceName == serviceName && this.decimal == decimal
      ensures !active && zeroconf == None && services == [] && view == map[]
    {
      this.localId, this.serviceName, this.decimal := localId, serviceName, decimal;
      active, zeroconf, services, view := false, None, [], map[];
    }

    /** Parse an announcement, stopping at the first address that disqualifies it. */
    method ParsePeerInfo(info: Option<ServiceInfo>) returns (r: Option<PeerInfo>)
      ensures r == Candidate(localId, info, decimal)
    {
      if info.None? || info.value.port.None? || !(1 <= info.value.port.value <= 65535) { return None; }
      if info.value.id.None? || info.value.id.value == localId { return None; }
      var port, addresses := decimal(info.value.port.value), [];
      var i := 0;
      while i < |info.value.addresses|
        invariant 0 <= i <= |info.value.addresses| && |addresses| == i
        invariant forall j :: 0 <= j < i ==>
          info.value.addresses[j].Ip? && addresses[j] == Multiaddr(info.value.addresses[j], port)
      {
        if !info.value.addresses[i].Ip? {
          assert info.value.addresses[i] in info.value.addresses;
          return None;
        }
        addresses := addresses + [Multiaddr(info.value.addresses[i], port)];
        i := i + 1;
      }
      if addresses == [] { return None; }
      assert forall a :: a in info.value.addresses ==> a.Ip?;
      assert addresses == Candidate(localId, info, decimal).value.addrs;
      return Some(PeerInfo(info.value.oid, info.value.id.value, addresses));
    }

    method PublishRemovedOrRemaining(previous: PeerInfo, removed: string)
      modifies this`view
      ensures view == if active then Published(old(view), services, previous.peerId, removed) else old(view)
    {
      var i := 0;
      while i < |services| && !Serves(services[i], previous.peerId, removed)
        invariant 0 <= i <= |services|
        invariant forall j :: 0 <= j < i ==> !Serves(services[j], previous.peerId, removed)
      {
        i := i + 1;
      }
      assert i == Remaining(services, previous.peerId, removed);
      if !active { return; }
      if i == |services| {
        view := view - {previous.peerId};
      } else {
        view := view[previous.peerId := services[i].info];
      }
    }

    /** Table and view after a removal callback. */
    ghost function AfterRemoval(zc: nat, name: string): (Services, View)
      reads this
    {
      if active && zeroconf == Some(zc) && name != serviceName then Removed(services, view, name)
      else (services, view)
    }

    method RemoveService(zc: nat, name: string)
      modifies this`services, this`view
      ensures (services, view) == old(AfterRemoval(zc, name))
    {
      if !active || zeroconf != Some(zc) || name == serviceName { return; }
      var previous := Find(services, name);
      if previous.None? { return; }
      services := Drop(services, name);
      PublishRemovedOrRemaining(previous.value, name);
    }

    /** What an update does under the callback lock, once it has passed the check there. */
    method CommitUpdate(zc: nat, name: string, candidate: Option<PeerInfo>)
      requires active
      modifies this`services, this`view
      ensures (services, view) == Updated(old(services), old(view), zc, name, candidate)
    {
      var previous := Find(services, name);
      if candidate.None? {
        if previous.Some? {
          services := Drop(services, name);
          PublishRemovedOrRemaining(previous.value, name);
        }
        return;
      }
      services := Put(services, Announcement(name, candidate.value, zc));
      if previous.Some? && previous.value.peerId != candidate.value.peerId {
        PublishRemovedOrRemaining(previous.value, name);
      }
      view := view[candidate.value.peerId := candidate.value];
    }

    /** Table and view after an update callback. */
    ghost function AfterUpdate(zc: nat, name: string, info: Option<ServiceInfo>): (Services, View)
      reads this
    {
      if active && zeroconf == Some(zc) && name != serviceName
      then Updated(services, view, zc, name, Candidate(localId, info, decimal))
      else (services, view)
    }

    method UpdateService(zc: nat, name: string, info: Option<ServiceInfo>)
      modifies this`services, this`view
      ensures (services, view) == old(AfterUpdate(zc, name, info))
    {
      if !active || zeroconf != Some(zc) || name == serviceName { return; }
      var candidate := ParsePeerInfo(info);
      CommitUpdate(zc, name, candidate);
    }

    method RemoveAllCandidates()
      modifies this`services, this`view
      ensures services == []
      ensures view == if active then old(view) - PeersOf(old(services)) else old(view)
    {
      var peers := PeersOf(services);
      services := [];
      if !active { return; }
      ghost var gone: set<string> := {};
      while peers != {}
        invariant services == [] && gone + peers == PeersOf(old(services)) && view == old(view) - gone
        decreases peers
      {
        var peer :| peer in peers;
        view := view - {peer};
        peers, gone := peers - {peer}, gone + {peer};
      }
    }

    /** Whatever the browser still reports, and whichever membership is open, changes nothing from now on. */
    ghost predicate Silent()
      reads this
    {
      && (forall zc, name :: AfterRemoval(zc, name) == (services, view))
      && (forall zc, name, info :: AfterUpdate(zc, name, info) == (services, view))
    }

    /** After a stop nothing is announced, no callback has an effect any more, and the listener's view is the
        one it was left with. */
    method Stop()
      modifies this`active, this`services
      ensures services == [] && Silent() && !active
    {
      active, services := false, [];
    }
  }
}
