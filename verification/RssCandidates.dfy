/** Which relay circuit a peer ends up with when several authenticated relays list it. */
module RssCandidates {
  import opened Strings
  import opened Endpoints
  import opened Binding
  import opened FollowUps
  import opened LanFallback
  import R = Routing

  /** A configured relay: a parsable identity behind an address that names no peer of its own. */
  predicate WellFormed(relay: Relay) {
    PeerName(relay.id) && !Contains(relay.base, "/p2p")
  }

  // ---- reading the relay back out of a circuit ---------------------------------------------------------

  lemma {:induction false} CutAtFirst(a: string, sep: string, b: string)
    requires forall i :: 0 <= i < |a| ==> !OccursAt(a + sep + b, sep, i)
    ensures BeforeFirst(a + sep + b, sep) == a
    decreases |a|
  {
    var text := a + sep + b;
    if a == "" {
      assert text == sep + b;
    } else {
      var rest := a[1..] + sep + b;
      assert text[1..] == rest;
      assert !OccursAt(text, sep, 0);
      forall i | 0 <= i < |a[1..]| ensures !OccursAt(rest, sep, i) {
        assert !OccursAt(text, sep, i + 1);
        if i + |sep| <= |rest| { assert rest[i..i + |sep|] == text[i + 1..i + 1 + |sep|]; }
      }
      CutAtFirst(a[1..], sep, b);
      assert a == [a[0]] + a[1..];
    }
  }

  lemma {:induction false} CutAtLast(x: string, sep: string, y: string)
    requires sep != "" && !Contains((sep + y)[1..], sep)
    ensures AfterLast(x + sep + y, sep) == y
    decreases |x|
  {
    var text := x + sep + y;
    if x == "" {
      assert text == sep + y;
    } else {
      var rest := x[1..] + sep + y;
      assert text[1..] == rest;
      assert OccursAt(rest, sep, |x| - 1);
      CutAtLast(x[1..], sep, y);
    }
  }

  /** No circuit marker starts before the relay's own. */
  lemma MarkerIsFirst(relay: Relay, tail: string, i: nat)
    requires WellFormed(relay) && i < |relay.base + "/p2p/" + relay.id|
    ensures !OccursAt(relay.base + "/p2p/" + relay.id + R.CIRCUIT + tail, R.CIRCUIT, i)
  {
    var base, id := relay.base, relay.id;
    var text := base + "/p2p/" + id + R.CIRCUIT + tail;
    if OccursAt(text, R.CIRCUIT, i) {
      var found := text[i..i + |R.CIRCUIT|];
      assert found == R.CIRCUIT;
      assert forall k :: 0 <= k < |R.CIRCUIT| ==> text[i + k] == R.CIRCUIT[k];
      Mismatch(relay, tail, i);
    }
  }

  /** At each earlier offset some character of the marker differs. */
  lemma Mismatch(relay: Relay, tail: string, i: nat)
    requires WellFormed(relay) && i < |relay.base + "/p2p/" + relay.id|
    ensures var text := relay.base + "/p2p/" + relay.id + R.CIRCUIT + tail;
      exists k :: 0 <= k < 5 && i + k < |text| && text[i + k] != R.CIRCUIT[k]
  {
    var base, id := relay.base, relay.id;
    var text := base + "/p2p/" + id + R.CIRCUIT + tail;
    var n := |base|;
    assert forall k :: 0 <= k < 5 ==> text[n + k] == "/p2p/"[k];
    assert forall k :: 0 <= k < |id| ==> text[n + 5 + k] == id[k];
    assert text[n + 5 + |id|] == '/';
    if i + 4 <= n {
      assert !OccursAt(base, "/p2p", i);
      var found := base[i..i + 4];
      assert found == text[i..i + 4] && found != "/p2p";
      assert exists k :: 0 <= k < 4 && found[k] != "/p2p"[k];
      var k :| 0 <= k < 4 && found[k] != "/p2p"[k];
      assert text[i + k] == found[k] && R.CIRCUIT[k] == "/p2p"[k];
    } else if i < n {
      assert text[i + (n - i)] == '/' && R.CIRCUIT[n - i] != '/';
    } else if i == n {
      assert text[i + 4] == '/' && R.CIRCUIT[4] == '-';
    } else if i < n + 4 {
      assert text[i + 0] != '/';
    } else if i == n + 4 {
      if |id| >= 4 {
        assert text[i + 4] == id[3] && R.CIRCUIT[4] == '-';
      } else {
        assert text[i + 1 + |id|] == '/' && R.CIRCUIT[1 + |id|] != '/';
      }
    } else {
      assert text[i + 0] == id[i - n - 5];
    }
  }

  lemma IdentityHasNoMarker(id: string)
    requires PeerName(id)
    ensures !Contains(("/p2p/" + id)[1..], "/p2p/")
  {
    var text := ("/p2p/" + id)[1..];
    forall i | 0 <= i <= |text| ensures !OccursAt(text, "/p2p/", i) {
      if i + 5 <= |text| {
        if i == 3 {
          assert text[i + 4] == id[3];
          assert text[i..i + 5][4] == text[i + 4];
        } else {
          assert text[i..i + 5][0] == text[i];
          assert i < 3 || text[i] == id[i - 4];
        }
      }
    }
  }

  /** The relay named by a circuit endpoint is the relay it was built from. */
  lemma RelayOfCircuit(relay: Relay, peer: string)
    requires WellFormed(relay)
    ensures RelayOf(CircuitEndpoint(relay, peer)) == relay.id
  {
    var a := relay.base + "/p2p/" + relay.id;
    var tail := "p2p/" + peer;
    forall i | 0 <= i < |a| ensures !OccursAt(a + R.CIRCUIT + tail, R.CIRCUIT, i) {
      MarkerIsFirst(relay, tail, i);
    }
    CutAtFirst(a, R.CIRCUIT, tail);
    assert CircuitEndpoint(relay, peer) == a + R.CIRCUIT + tail;
    IdentityHasNoMarker(relay.id);
    CutAtLast(relay.base, "/p2p/", relay.id);
  }

  // ---- replies in any order ----------------------------------------------------------------------------

  /** What touches the candidates and announcements of peers while replies are processed: one listed peer,
      and from other threads a failed direct delivery or a LAN announcement. */
  datatype Event = Lists(relay: Relay, peer: string) | Fails(destination: R.PeerRoute) | Seen(info: PeerInfo)

  function Handle(s: State, e: Event): State {
    match e
    case Lists(relay, peer) => ApplyRssPeer(s, relay, peer)
    case Fails(destination) => ApplySendFallback(s, destination)
    case Seen(info) => ApplyLanSeen(s, info)
  }

  /** LAN announcements are plain addresses. */
  predicate Possible(e: Event) { e.Seen? ==> Plain(e.info) }

  function Process(s: State, events: seq<Event>): State {
    if events == [] then s else Handle(Process(s, events[..|events| - 1]), events[|events| - 1])
  }

  /** Relays that list `peer`. */
  function Listing(events: seq<Event>, peer: string): set<Relay> {
    set i | 0 <= i < |events| && events[i].Lists? && events[i].peer == peer :: events[i].relay
  }

  /** Authenticated, well-formed relays at distinct places of the configuration. */
  ghost predicate Authenticated(s: State, relays: set<Relay>) {
    && (forall r :: r in relays ==> WellFormed(r) && r.id !in s.failedRelays)
    && (forall r, q ::
          r in relays && q in relays && Rank(s.config.relayPeers, r.id) == Rank(s.config.relayPeers, q.id) ==> r == q)
  }

  /** The listed relay that comes first in the configuration. */
  ghost predicate IsBest(relayPeers: seq<string>, relays: set<Relay>, best: Relay) {
    best in relays && forall r :: r in relays ==> Rank(relayPeers, best.id) <= Rank(relayPeers, r.id)
  }

  /** Whatever was announced for `peer` is a circuit through some relay that listed it, or no circuit at all. */
  ghost predicate Announces(notified: map<string, string>, peer: string, relays: set<Relay>) {
    peer in notified ==>
      || (exists r :: r in relays && notified[peer] == CircuitEndpoint(r, peer))
      || (forall r :: notified[peer] != CircuitEndpoint(r, peer))
  }

  /** The candidate filed for `peer` is the circuit through `best`. */
  ghost predicate CircuitFiled(s: State, peer: string, relays: set<Relay>, best: Relay) {
    && peer in s.ranks && s.ranks[peer] == Rank(s.config.relayPeers, best.id)
    && peer in s.candidates && s.candidates[peer].peerId == peer && s.candidates[peer].addrs == [CircuitAddress(best)]
    && Announces(s.notified, peer, relays)
  }

  ghost predicate Unlisted(s: State, peer: string) {
    peer !in s.ranks && peer !in s.candidates && Announces(s.notified, peer, {})
  }

  lemma SameEntries(s: State, s': State, peer: string, relays: set<Relay>, best: Relay)
    requires CircuitFiled(s, peer, relays, best) && s'.config == s.config
    requires Get(s'.ranks, peer) == Get(s.ranks, peer) && SameAnnouncement(s, s', peer)
    ensures CircuitFiled(s', peer, relays, best)
  {
  }

  /** The candidate's endpoint text. */
  lemma FiledEndpoint(s: State, peer: string, relays: set<Relay>, best: Relay)
    requires PeerName(peer) && CircuitFiled(s, peer, relays, best)
    ensures Dialable(s.candidates[peer]) && PeerEndpoint(s.candidates[peer]) == CircuitEndpoint(best, peer)
  {
    CircuitInfoEndpoint(s.candidates[peer].oid, best, peer);
  }

  /** A later-ranked relay does not displace the best one. */
  lemma WorseIsOutranked(s: State, peer: string, relays: set<Relay>, best: Relay, relay: Relay)
    requires PeerName(peer) && CircuitFiled(s, peer, relays, best) && WellFormed(best) && best.id !in s.failedRelays
    requires Rank(s.config.relayPeers, best.id) < Rank(s.config.relayPeers, relay.id)
    ensures !Adopts(s, relay, peer)
  {
    FiledEndpoint(s, peer, relays, best);
    RelayOfCircuit(best, peer);
  }

  /** An earlier-ranked relay that was not announced before takes over. */
  lemma BetterIsAdopted(s: State, peer: string, relays: set<Relay>, best: Relay, relay: Relay)
    requires PeerName(peer) && peer != s.config.localId && CircuitFiled(s, peer, relays, best)
    requires Authenticated(s, relays + {relay}) && IsBest(s.config.relayPeers, relays, best)
    requires Rank(s.config.relayPeers, relay.id) < Rank(s.config.relayPeers, best.id)
    ensures Adopts(s, relay, peer)
  {
    if r :| r in relays && Get(s.notified, peer) == Some(CircuitEndpoint(r, peer)) {
      RelayOfCircuit(r, peer);
      RelayOfCircuit(relay, peer);
    }
  }

  lemma AdoptFiles(s: State, peer: string, relays: set<Relay>, relay: Relay)
    requires relay in relays
    requires Announces(s.notified, peer, relays)
    ensures CircuitFiled(Adopt(s, relay, peer, Rank(s.config.relayPeers, relay.id)), peer, relays, relay)
  {
    if peer in s.directBound {
    } else {
    }
  }

  lemma HandleFrame(s: State, e: Event)
    ensures Handle(s, e).config == s.config && Handle(s, e).failedRelays == s.failedRelays
  {
    match e
    case Lists(relay, p) => if Adopts(s, relay, p) {} else {}
    case Fails(d) => if FallsBack(s, d) {} else {}
    case Seen(info) =>
  }

  /** Events about other peers leave this one alone. */
  lemma HandleOthers(s: State, e: Event, peer: string)
    requires e.Lists? ==> e.peer != peer
    requires e.Fails? ==> e.destination.transportPeerId != Some(peer)
    requires e.Seen? ==> e.info.peerId != peer
    ensures Get(Handle(s, e).ranks, peer) == Get(s.ranks, peer) && SameAnnouncement(s, Handle(s, e), peer)
  {
    match e
    case Lists(relay, p) => if Adopts(s, relay, p) {} else {}
    case Fails(d) => if FallsBack(s, d) {} else {}
    case Seen(info) =>
  }

  lemma FailsKeepsFiled(s: State, d: R.PeerRoute, peer: string, relays: set<Relay>, best: Relay)
    requires PeerName(peer) && CircuitFiled(s, peer, relays, best) && best in relays
    ensures CircuitFiled(ApplySendFallback(s, d), peer, relays, best)
  {
    FiledEndpoint(s, peer, relays, best);
    if FallsBack(s, d) {
      if d.transportPeerId == Some(peer) {
        assert ApplySendFallback(s, d).notified[peer] == CircuitEndpoint(best, peer);
      } else {
        SameEntries(s, ApplySendFallback(s, d), peer, relays, best);
      }
    } else {
    }
  }

  lemma PlainIsNoCircuit(info: PeerInfo, relay: Relay)
    requires Plain(info) && Dialable(info) && PeerName(info.peerId)
    ensures PeerEndpoint(info) != CircuitEndpoint(relay, info.peerId)
  {
    var circuit := CircuitInfo(0, relay, info.peerId);
    assert CircuitAddress(relay)[|CircuitAddress(relay)| - 12..] == "/p2p-circuit";
    CircuitInfoEndpoint(0, relay, info.peerId);
    PlainIsNotRelayed(info, circuit);
  }

  /** A LAN announcement concerns what was announced only. */
  lemma SeenAnnounces(s: State, info: PeerInfo, peer: string, relays: set<Relay>)
    requires PeerName(peer) && Plain(info) && Announces(s.notified, peer, relays)
    ensures Announces(ApplyLanSeen(s, info).notified, peer, relays)
  {
    if info.peerId == peer && Dialable(info) {
      forall r ensures PeerEndpoint(info) != CircuitEndpoint(r, peer) { PlainIsNoCircuit(info, r); }
    }
  }

  lemma SeenKeepsFiled(s: State, info: PeerInfo, peer: string, relays: set<Relay>, best: Relay)
    requires PeerName(peer) && Plain(info)
    ensures CircuitFiled(s, peer, relays, best) ==> CircuitFiled(ApplyLanSeen(s, info), peer, relays, best)
    ensures Unlisted(s, peer) ==> Unlisted(ApplyLanSeen(s, info), peer)
  {
    if CircuitFiled(s, peer, relays, best) { SeenAnnounces(s, info, peer, relays); }
    if Unlisted(s, peer) { SeenAnnounces(s, info, peer, {}); }
  }

  /** One more listing keeps the best relay's circuit as the candidate. */
  lemma ListingKeepsBest(s: State, relay: Relay, peer: string, relays: set<Relay>, best: Relay) returns (best': Relay)
    requires PeerName(peer) && peer != s.config.localId && CircuitFiled(s, peer, relays, best)
    requires Authenticated(s, relays + {relay}) && IsBest(s.config.relayPeers, relays, best)
    ensures IsBest(s.config.relayPeers, relays + {relay}, best')
    ensures CircuitFiled(ApplyRssPeer(s, relay, peer), peer, relays + {relay}, best')
  {
    var rank := Rank(s.config.relayPeers, relay.id);
    if Rank(s.config.relayPeers, best.id) < rank {
      best' := best;
      WorseIsOutranked(s, peer, relays, best, relay);
    } else if rank < Rank(s.config.relayPeers, best.id) {
      best' := relay;
      BetterIsAdopted(s, peer, relays, best, relay);
      AdoptFiles(s, peer, relays + {relay}, relay);
    } else {
      best' := best;
      assert relay == best;
      if Adopts(s, relay, peer) {
        AdoptFiles(s, peer, relays + {relay}, relay);
      }
    }
  }

  /** Processing leaves the circuit through the first configured relay that listed the peer. */
  lemma {:induction false} LowestRankWins(s: State, events: seq<Event>, peer: string) returns (best: Relay)
    requires PeerName(peer) && peer != s.config.localId && Unlisted(s, peer)
    requires Authenticated(s, Listing(events, peer)) && forall e :: e in events ==> Possible(e)
    ensures Process(s, events).config == s.config && Process(s, events).failedRelays == s.failedRelays
    ensures Listing(events, peer) == {} ==> Unlisted(Process(s, events), peer)
    ensures Listing(events, peer) != {} ==>
      && IsBest(s.config.relayPeers, Listing(events, peer), best)
      && CircuitFiled(Process(s, events), peer, Listing(events, peer), best)
  {
    if events == [] {
      best := Relay("", "");
    } else {
      var init, e := events[..|events| - 1], events[|events| - 1];
      var before, relays := Process(s, init), Listing(init, peer);
      ListingSnoc(events, peer);
      best := LowestRankWins(s, init, peer);
      HandleFrame(before, e);
      best := HandleKeepsBest(before, e, peer, relays, best);
    }
  }

  lemma ListingSnoc(events: seq<Event>, peer: string)
    requires events != []
    ensures var init, e := events[..|events| - 1], events[|events| - 1];
      Listing(events, peer) == Listing(init, peer) + if e.Lists? && e.peer == peer then {e.relay} else {}
  {
    var init, e := events[..|events| - 1], events[|events| - 1];
    forall r
      ensures r in Listing(events, peer) <==>
        r in Listing(init, peer) || (e.Lists? && e.peer == peer && r == e.relay)
    {
      if r in Listing(events, peer) {
        var i :| 0 <= i < |events| && events[i].Lists? && events[i].peer == peer && events[i].relay == r;
        if i < |init| { assert init[i] == events[i]; }
      }
      if r in Listing(init, peer) {
        var i :| 0 <= i < |init| && init[i].Lists? && init[i].peer == peer && init[i].relay == r;
        assert events[i] == init[i];
      }
    }
  }

  lemma HandleKeepsBest(s: State, e: Event, peer: string, relays: set<Relay>, best: Relay) returns (best': Relay)
    requires PeerName(peer) && peer != s.config.localId && Possible(e)
    requires var all := relays + if e.Lists? && e.peer == peer then {e.relay} else {}; Authenticated(s, all)
    requires relays == {} ==> Unlisted(s, peer)
    requires relays != {} ==> IsBest(s.config.relayPeers, relays, best) && CircuitFiled(s, peer, relays, best)
    ensures var all := relays + if e.Lists? && e.peer == peer then {e.relay} else {};
      && (all == {} ==> Unlisted(Handle(s, e), peer))
      && (all != {} ==> IsBest(s.config.relayPeers, all, best') && CircuitFiled(Handle(s, e), peer, all, best'))
  {
    best' := best;
    if e.Lists? && e.peer == peer {
      if relays == {} {
        best' := e.relay;
        AdoptFiles(s, peer, {e.relay}, e.relay);
        assert relays + {e.relay} == {e.relay};
      } else {
        best' := ListingKeepsBest(s, e.relay, peer, relays, best);
      }
    } else if e.Seen? {
      assert relays + {} == relays;
      SeenKeepsFiled(s, e.info, peer, relays, best);
    } else if relays == {} {
      if e.Fails? { if FallsBack(s, e.destination) {} else {} }
      else { HandleOthers(s, e, peer); }
    } else {
      assert relays + {} == relays;
      if e.Fails? {
        FailsKeepsFiled(s, e.destination, peer, relays, best);
      } else {
        HandleOthers(s, e, peer);
        HandleFrame(s, e);
        SameEntries(s, Handle(s, e), peer, relays, best);
      }
    }
  }

  /** Order independence: two histories in which the same relays list a peer leave the same circuit. */
  lemma ReplyOrderIrrelevant(s: State, events: seq<Event>, events': seq<Event>, peer: string)
    requires PeerName(peer) && peer != s.config.localId && Unlisted(s, peer)
    requires Authenticated(s, Listing(events, peer)) && Listing(events, peer) == Listing(events', peer)
    requires (forall e :: e in events ==> Possible(e)) && (forall e :: e in events' ==> Possible(e))
    ensures peer in Process(s, events).candidates <==> peer in Process(s, events').candidates
    ensures peer in Process(s, events).candidates ==>
      Process(s, events).candidates[peer].addrs == Process(s, events').candidates[peer].addrs
  {
    var best := LowestRankWins(s, events, peer);
    var best' := LowestRankWins(s, events', peer);
  }
}
