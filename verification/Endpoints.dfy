/** Candidate multiaddresses: how an endpoint text is built from a peer's addresses and tied to the
    peer's transport identity. */
module Endpoints {
  import opened Strings
  import Routing

  /** One discovered peer. Objects are compared by identity in the transport, so each carries the
      number of the object it is. */
  datatype PeerInfo = PeerInfo(oid: nat, peerId: string, addrs: seq<string>)

  function Suffix(id: string): string { "/p2p/" + id }

  function AppendPeerId(endpoint: string, id: string): (r: string)
    ensures EndsWith(r, Suffix(id)) && StartsWith(r, endpoint)
  {
    if EndsWith(endpoint, Suffix(id)) then endpoint else endpoint + Suffix(id)
  }

  /** The peer identity is appended exactly once. */
  lemma AppendPeerIdOnce(endpoint: string, id: string)
    ensures AppendPeerId(AppendPeerId(endpoint, id), id) == AppendPeerId(endpoint, id)
  {
  }

  /** The first address, naming its peer; callers without an address fail. */
  function PeerEndpoint(info: PeerInfo): (r: string)
    requires info.addrs != []
    ensures EndsWith(r, Suffix(info.peerId))
  {
    AppendPeerId(info.addrs[0], info.peerId)
  }

  predicate MentionsCircuit(address: string) { Contains(address, "/p2p-circuit") }

  /** No address of the candidate runs over a relay. */
  predicate Plain(info: PeerInfo) { forall a :: a in info.addrs ==> !MentionsCircuit(a) }

  /** The addresses that are not listener wildcards. */
  function Usable(addrs: seq<string>): seq<string> {
    if addrs == [] then []
    else (if Routing.IsWildcard(addrs[0]) then [] else [addrs[0]]) + Usable(addrs[1..])
  }

  function FirstCircuit(addrs: seq<string>): Option<string> {
    if addrs == [] then None
    else if MentionsCircuit(addrs[0]) then Some(addrs[0])
    else FirstCircuit(addrs[1..])
  }

  /** The endpoint an inbound exchange starts from: empty when the peerstore has no record, no
      address, or only wildcards; otherwise a known circuit, or else the first usable address. */
  function PeerstoreEndpoint(addrs: Option<seq<string>>, id: string): (r: string)
    ensures r == "" || EndsWith(r, Suffix(id))
  {
    if addrs == None || Usable(addrs.value) == [] then ""
    else
      var usable := Usable(addrs.value);
      AppendPeerId(if FirstCircuit(usable).Some? then FirstCircuit(usable).value else usable[0], id)
  }

  /** A previously dialled circuit is reused only when it is a circuit to this very peer. */
  function SelectedCircuitFor(selected: string, id: string): (r: string)
    ensures r == "" || (Routing.IsCircuit(r) && EndsWith(r, Suffix(id)))
  {
    if Routing.IsCircuit(selected) && EndsWith(selected, Suffix(id)) then selected else ""
  }
}
