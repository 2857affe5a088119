# Secrets-Kit: verified models of the daemon and its protocols

This project models the parts of Secrets-Kit whose guarantees span several functions, and proves those
guarantees for all inputs and all runs. `dafny verify dfyconfig.toml` checks everything.

- **Route binding** (`Routing`, `Endpoints`, `Binding`, `BindingSafety`, `BindingRuns`, `FollowUps`,
  `LostFollowUp`, `LanFallback`, `RssCandidates`). `RoutingTable` is a class over three maps. The transport is a transition
  system: a step is a stretch of code without an await inside at most one lock, and any other task may step in
  between. A binding tuple, which the source compares by identity, carries the number of the attempt that
  stored it. Runs start before the first host generation and may retire and publish generations; a generation
  is published only after the attempts of the previous one have ended.
- **LAN discovery** (`Mdns`, `MdnsRuns`). The service table and the listener's view as a class, and runs in
  which lookups in flight, the two locks, interface changes and stop interleave.
- **Uninstall** (`FileTree`, `Uninstall`, `Removal`, `RemovalRuns`, `RemovalSafety`, `RemovalExamples`,
  `RemovalLoop`, `ShellProfile`). The planner over a finite file tree with symbolic-link resolution, the
  removal as a step relation whose runs stand for any number of crashed attempts, the loop itself on a disk
  that remembers every tree it passed through, and the profile edit.
- **Delivery scheduler** (`Scheduler`). The class, with clock and process outcomes as parameters, and its runs.
- **Formats** (`Base64Url`, `InvitationCode`, `InvitationFrames`, `Framing`, `PrefixRelocation`, `Json`,
  `PayloadCodec`, `Envelope`, `EnvelopeSigning`, `EnvelopePipeline`). Base64 follows section 5 of RFC 4648.
  Cryptography and JSON text are records of functions; what is relied on is stated as a predicate on the
  record (`Ideal`, `Sound`, `BindsData`, `SignsSoundly`, `Faithful`, `ReadsBlobs`, `Inverts`). `Assumptions` and
  `TextAssumptions` give toy libraries that meet them, so they do not contradict each other.

Five properties one might expect turned out false. Each has a witness and an exact condition:

- A relay route announced while an attempt runs is followed up exactly when the stored candidate still stands
  announced at its end; a reply that finds the peer directly bound replaces it silently
  (`FollowUps.FollowUpIffAnnounced`, `LostFollowUp.DirectBindingLosesFollowUp`).
- Removal can be resumed after every crash exactly when `previous` does not lead through `current` and no
  begun removal holds anything under the original receipt's name (`RemovalSafety.CrashSafeIff`,
  `RemovalExamples.ReversedFails`, `RemovalExamples.DanglingFails`). Without a crash it finishes exactly under
  the second condition (`RemovalLoop.Disk.RemovePlanned`).
- Announcements outlive their LAN membership exactly after a refresh whose opening failed once its browser had
  begun to report, until a further refresh, a stop, or a callback that withdraws the last of them
  (`MdnsRuns.OrphansIff`, `MdnsRuns.FailedOpenOrphans`).
- A text the base64 decoder takes re-encodes to itself exactly when it is canonical; it also takes the standard
  alphabet's symbols, padding and stray bits (`Base64Url.EncodingIffCanonical`, `Base64Url.NonCanonicalTexts`).
- Uninstalling never gives the shell profile back exactly: the empty line the installer puts before its block
  stays (`ShellProfile.InstallThenRemove`).

Two more hold only with what surrounds the code. In the server's loop every observed peer reaches the next worker
(`Scheduler.ObservationReachesWorker`); a caller that polled on after a failed launch, which the loop never does,
would lose it (`Scheduler.LostObservation`, `Scheduler.ToldIffLaunched`). Relocation leaves no placeholder when
the two prefixes share no end (`PrefixRelocation.IndependentLeavesNone`); otherwise one may form across a seam and
the source reports failure (`PrefixRelocation.SharedEndLeavesOne`).

## Model

| member | source | states |
|---|---|---|
| Routing.HistoryRefinement | src/secrets_kit/daemon/routing.py:129-217 | after any history whatever, a peer has exactly the route of its last effective install, or the entry it had at first, available as the last later report naming that endpoint or identity said; reports about superseded endpoints have no effect |
| Routing.EntriesComeFromInstalls | src/secrets_kit/daemon/routing.py:129-166 | a peer has an entry exactly when it had one before or some install named it validly, so entries are never dropped |
| Routing.ApplyKeepsValid | src/secrets_kit/daemon/routing.py:94-217 | every operation keeps entries keyed by their own peer, with connected and reachable equal |
| Routing.RunKeepsValid | src/secrets_kit/daemon/routing.py:94-217 | the same over every sequence of operations |
| Routing.StickyStep | src/secrets_kit/daemon/routing.py:151-166 | no single operation turns a healthy direct route into a circuit for the same adapter and identity |
| Routing.DirectPathIsSticky | src/secrets_kit/daemon/routing.py:151-217 | over whole runs a healthy direct route becomes a circuit only after an unavailable state or another identity or adapter |
| Routing.EvidenceShadowsLocators | src/secrets_kit/daemon/routing.py:59-127 | once a peer has authenticated evidence for an adapter, resolving yields that evidence or an error, never a runtime or bootstrap locator |
| Routing.WakeupsAreNotified | src/secrets_kit/daemon/routing.py:151-217 | an operation that makes the awaited condition true notifies, and only installs and contacts make it true |
| Routing.NoMissedWakeup | src/secrets_kit/daemon/routing.py:178-191 | over any run ending connected there is a notification after which the condition held without interruption |
| Routing.AllResolutions | src/secrets_kit/daemon/routing.py:80-92 | listing routes by peer gives exactly the successful resolutions in order of peer |
| Routing.RoutingTable.constructor | src/secrets_kit/daemon/routing.py:46-54 | bootstrap routes keyed by peer, nothing discovered |
| Routing.RoutingTable.InstallDiscovered | src/secrets_kit/daemon/routing.py:129-166 | installs or retains a healthy direct path, notifies exactly when the entry changed, and answers the stored entry |
| Routing.RoutingTable.MarkContact | src/secrets_kit/daemon/routing.py:168-176 | marks a matching entry available and notifies |
| Routing.RoutingTable.MarkUnavailable | src/secrets_kit/daemon/routing.py:201-208 | marks a matching entry unavailable |
| Routing.RoutingTable.MarkTransportUnavailable | src/secrets_kit/daemon/routing.py:210-217 | marks every entry of a transport identity unavailable and no other |
| Routing.RoutingTable.ReplaceFromRuntime | src/secrets_kit/daemon/routing.py:94-127 | replaces the runtime locators, or nothing at all when a used record names an invalid peer |
| Routing.RoutingTable.Resolve | src/secrets_kit/daemon/routing.py:59-64 | answers the selected route or an error |
| Routing.RoutingTable.ResolveRetained | src/secrets_kit/daemon/routing.py:66-78 | answers only authenticated evidence of the adapter, healthy or not |
| Routing.RoutingTable.SelectedRoute | src/secrets_kit/daemon/routing.py:228-245 | authenticated evidence first, then runtime, then bootstrap |
| Routing.RoutingTable.Routes | src/secrets_kit/daemon/routing.py:80-92 | exactly the successful resolutions of all known peers, sorted by peer |
| Endpoints.AppendPeerId | src/secrets_kit/daemon/transport.py:2818-2821 | the result ends in the peer's identity and extends the endpoint |
| Endpoints.AppendPeerIdOnce | src/secrets_kit/daemon/transport.py:2818-2821 | appending twice is appending once |
| Endpoints.PeerEndpoint | src/secrets_kit/daemon/transport.py:2761-2765 | a candidate's endpoint names its peer |
| Endpoints.PeerstoreEndpoint | src/secrets_kit/daemon/transport.py:2791-2816 | empty, or an endpoint naming the peer |
| Endpoints.SelectedCircuitFor | src/secrets_kit/daemon/transport.py:2876-2887 | empty, or a circuit to this very peer |
| BindingRuns.StepKeepsInv | src/secrets_kit/daemon/transport.py:2049-2423 | every step of every task keeps the binding invariant |
| BindingRuns.BindingOwnership | src/secrets_kit/daemon/transport.py:2064-2093 | in every run at most one outbound attempt per peer is past the gate, the in-flight set holds exactly those peers, and stored in-flight tuples belong to running attempts |
| BindingRuns.NothingStuck | src/secrets_kit/daemon/transport.py:2277-2308 | once all attempts have ended, however they ended, nothing is in flight and no tuple is |
| BindingRuns.NeverOverwritesAnother | src/secrets_kit/daemon/transport.py:2213-2308 | a continuing or ending attempt changes only a tuple it stored itself |
| BindingRuns.ClaimsWereVerified | src/secrets_kit/daemon/transport.py:2169-2212 | every claim of a run stems from an earlier verification step |
| BindingRuns.RoutesAreAuthenticated | src/secrets_kit/daemon/transport.py:2405-2526 | every discovered route of every run is keyed by its node, backed by an earlier verified claim for exactly that node and identity, and ends in that identity |
| BindingSafety.ChoiceNamesPeer | src/secrets_kit/daemon/transport.py:2467-2507 | every inbound endpoint choice names the peer, and leaves a known circuit only over a stream proven direct |
| BindingRuns.InboundReplacesCircuitOnlyDirectly | src/secrets_kit/daemon/transport.py:2467-2526 | an inbound binding replaces a circuit of the same identity by a direct route only when a LAN candidate was known and the stream proven direct |
| BindingRuns.TableRefines | src/secrets_kit/daemon/transport.py:2213-2243 | the transport changes the table only through its operations, one per step |
| BindingRuns.DirectRouteIsSticky | src/secrets_kit/daemon/transport.py:2213-2243 | direct-path stickiness over the transport's runs |
| FollowUps.FollowUpIffAnnounced | src/secrets_kit/daemon/transport.py:2277-2338 | at the end of an attempt, however it ends, the then-selected candidate with another endpoint is queued exactly when it stands announced |
| FollowUps.NoLostFollowUp | src/secrets_kit/daemon/transport.py:1705-1745 | nothing announced is lost while the peer has no direct binding |
| LostFollowUp.DirectBindingLosesFollowUp | src/secrets_kit/daemon/transport.py:1705-1745 | for every plausible scene a run from the start in which a relay route is announced for the first time while an attempt runs, and at the end of the attempt the then-selected candidate, another endpoint, is not queued |
| LanFallback.FailedLanAttemptTriesRelay | src/secrets_kit/daemon/transport.py:2306-2338 | in every run, a LAN attempt that ends unhealthy announces and queues the candidate kept beside it unless that is the endpoint just tried; for a peer some relay listed in this generation that candidate is its circuit, and it is always queued |
| LanFallback.StepKeepsKinds | src/secrets_kit/daemon/transport.py:1697-1745 | every step keeps LAN candidates, hints and LAN attempts free of relay addresses, and the candidate of a listed peer a circuit |
| LanFallback.PlainIsNotRelayed | src/secrets_kit/daemon/transport.py:2761-2765 | so a LAN endpoint is never the text of a relay endpoint of the same peer |
| RssCandidates.RelayOfCircuit | src/secrets_kit/daemon/transport.py:1684-1704 | the relay read off a circuit endpoint is the relay it was built from |
| RssCandidates.LowestRankWins | src/secrets_kit/daemon/transport.py:1684-1745 | after processing replies, with failed deliveries and LAN announcements in between, the candidate is the circuit through the first configured relay that listed the peer |
| RssCandidates.ReplyOrderIrrelevant | src/secrets_kit/daemon/transport.py:1580-1587 | two histories in which the same relays list a peer leave the same circuit |
| Mdns.Candidate | src/secrets_kit/daemon/mdns.py:199-224 | a candidate exactly for announcements with a valid port, another identity and only proper addresses; never the local peer |
| Mdns.CandidateIsPlain | src/secrets_kit/daemon/mdns.py:212-224 | the addresses of a candidate never run over a relay |
| Mdns.DaemonMdns.ParsePeerInfo | src/secrets_kit/daemon/mdns.py:199-224 | the parsing loop gives that candidate |
| Mdns.DaemonMdns.PublishRemovedOrRemaining | src/secrets_kit/daemon/mdns.py:182-197 | publishes the peer's first remaining announcement, or its removal, only while active |
| Mdns.DaemonMdns.RemoveService | src/secrets_kit/daemon/mdns.py:138-151 | removes one name of the current membership, never the own one, and republishes |
| Mdns.DaemonMdns.CommitUpdate | src/secrets_kit/daemon/mdns.py:163-180 | the locked part of an update as a function of table and view |
| Mdns.DaemonMdns.UpdateService | src/secrets_kit/daemon/mdns.py:153-180 | an update of the current membership changes table and view so, any other nothing |
| Mdns.DaemonMdns.RemoveAllCandidates | src/secrets_kit/daemon/mdns.py:271-279 | empties the table and, while active, removes exactly its peers from the view |
| Mdns.DaemonMdns.Stop | src/secrets_kit/daemon/mdns.py:99-103 | after a stop nothing is announced, and no callback of any membership has an effect on table or view any more |
| Mdns.UpdatedAgrees | src/secrets_kit/daemon/mdns.py:163-180 | an update keeps names unique and the view exact, also when a name changes peer |
| Mdns.RemovedAgrees | src/secrets_kit/daemon/mdns.py:138-151 | a removal keeps the view exact |
| MdnsRuns.StepKeepsInv | src/secrets_kit/daemon/mdns.py:130-311 | every interleaved step keeps the discovery invariant |
| MdnsRuns.ViewAgreement | src/secrets_kit/daemon/mdns.py:130-197 | in every run the listener holds exactly the announced peers, each with a current announcement, and never the local peer or the own name |
| MdnsRuns.DetachedNeverReturns | src/secrets_kit/daemon/mdns.py:241-311 | after a refresh has cleared candidates nothing of an earlier membership remains or comes back, whatever lookups were in flight |
| MdnsRuns.OneMembership | src/secrets_kit/daemon/mdns.py:241-311 | all announcements held at a time come from one membership, the current one if there is one |
| MdnsRuns.SilentAfterStop | src/secrets_kit/daemon/mdns.py:99-128 | after stop nothing is announced and the listener is not called again |
| MdnsRuns.OrphansIff | src/secrets_kit/daemon/mdns.py:241-302 | announcements stand without a membership exactly when an opening failed in a refresh after its browser had begun to report, and since then nothing detached, stopped or withdrew the last of them |
| MdnsRuns.AbortedStartStops | src/secrets_kit/daemon/mdns.py:84-90 | after an opening that fails within start, nothing but the stop follows: no refresh runs, and then nothing is announced |
| MdnsRuns.FailedOpenOrphans | src/secrets_kit/daemon/mdns.py:259-302 | such a run through a refresh exists, for every announcement |
| Uninstall.Snapshot | src/secrets_kit/uninstall.py:62-87 | succeeds exactly when every entry is owned, not writable by others and of a known kind, and then lists exactly the entries |
| Uninstall.CheckGeneration | src/secrets_kit/uninstall.py:152-179 | accepts exactly empty directories and those agreeing with their only receipt |
| Uninstall.PlanRuntime | src/secrets_kit/uninstall.py:133-179 | visits the runtime directory by name; accepts exactly when every child is acceptable and collects links, generations and launcher digests |
| Uninstall.PlanLauncher | src/secrets_kit/uninstall.py:180-187 | lists a launcher exactly when present with a digest some receipt vouches for |
| Uninstall.PlanService | src/secrets_kit/uninstall.py:188-207 | a service definition needs a verified runtime and the expected content |
| Uninstall.RemovalPlan | src/secrets_kit/uninstall.py:122-214 | a plan exactly for acceptable installations, listing links, then launchers, then generations, each by name |
| Uninstall.PlanUnique | src/secrets_kit/uninstall.py:208-214 | an installation has one plan |
| FileTree.WalkStable | src/secrets_kit/uninstall.py:146-151 | link resolution depends only on the entries it looks at |
| FileTree.WalkBroken | src/secrets_kit/uninstall.py:146-151 | resolution through a link fails once the link is gone |
| FileTree.WalkPart | src/secrets_kit/uninstall.py:146-151 | taking entries away cannot make a path resolve, or resolve differently |
| RemovalRuns.StepKeepsReady | src/secrets_kit/uninstall.py:454-490 | every file operation of the removal keeps the installation acceptable and resumable |
| RemovalRuns.StepShrinks | src/secrets_kit/uninstall.py:463-490 | every operation strictly reduces the work left |
| RemovalRuns.Moves | src/secrets_kit/uninstall.py:454-490 | while something is listed there is a next operation |
| RemovalRuns.StepPlan | src/secrets_kit/uninstall.py:208-210 | after an operation the planner lists what it listed before, without the first item if that is gone |
| RemovalSafety.CrashesCanBeResumed | src/secrets_kit/uninstall.py:454-490 | a crash after any operation of any number of attempts leaves an accepted tree whose plan is a suffix of the first one, with boundedly many operations left |
| RemovalSafety.RepeatingRemovesEverything | src/secrets_kit/uninstall.py:454-490 | attempts repeated until no operation is left end with nothing listed |
| RemovalSafety.NothingElseChanges | src/secrets_kit/uninstall.py:454-490 | over any run from any tree, whatever was not planned is exactly as it was |
| RemovalSafety.AcceptedIsAccounted | src/secrets_kit/uninstall.py:160-176 | everything in an accepted generation is its directory, a receipt, or recorded in the receipt |
| RemovalSafety.DeletesOnlyAccounted | src/secrets_kit/uninstall.py:454-490 | from every accepted tree, each deleted path was a listed link or launcher, or a generation's directory, receipt or recorded entry |
| RemovalSafety.CrashSafeIff | src/secrets_kit/uninstall.py:146-187 | every cut-off point is accepted again exactly when the links stand in order and no stray receipt name is there |
| RemovalExamples.ReversedFails | src/secrets_kit/uninstall.py:146-151 | under any home, an accepted installation whose `previous` leads through `current` is not crash safe |
| RemovalExamples.DanglingFails | src/secrets_kit/uninstall.py:160-168 | under any home, an accepted begun removal with a dangling link under the original receipt's name is not crash safe |
| RemovalLoop.Disk.RemoveTree | src/secrets_kit/uninstall.py:484-485 | recursive removal, leaf by leaf, of exactly one entry |
| RemovalLoop.Disk.RemoveEntries | src/secrets_kit/uninstall.py:479-487 | removes every entry but the receipts and nothing outside the generation |
| RemovalLoop.Disk.RemoveGeneration | src/secrets_kit/uninstall.py:463-490 | removes exactly a checked generation, every intermediate tree being a step of the removal; fails exactly when something stands under the original receipt's name in a begun removal |
| RemovalLoop.Disk.RemoveItem | src/secrets_kit/uninstall.py:454-459 | removes the first item of the plan and leaves the rest of it listed and checked, or fails only for such a generation |
| RemovalLoop.Disk.RemovePlanned | src/secrets_kit/uninstall.py:454-460 | from every accepted installation: the loop finishes exactly when no begun removal holds anything under the original receipt's name; then nothing is listed and what is left is accepted, and with the links in order so was every tree on the way; finished or not, everything unplanned is untouched |
| ShellProfile.ExactBlockStart | src/secrets_kit/uninstall.py:231-256 | nothing exactly when no marker occurs, a position exactly for the single exact block, an error otherwise |
| ShellProfile.InspectProfile | src/secrets_kit/uninstall.py:284-301 | true exactly for profiles with the block, false exactly for those without any marker |
| ShellProfile.WithoutBlock | src/secrets_kit/uninstall.py:317-328 | removes exactly the three lines, or fails when there is no exact block |
| ShellProfile.PlainLines | src/secrets_kit/uninstall.py:231-249 | a text has a marker exactly when one of its lines has |
| ShellProfile.RemovalLeavesPlain | src/secrets_kit/uninstall.py:317-328 | what is left has no marker, so inspecting again finds nothing |
| ShellProfile.RoundTrip | src/secrets_kit/uninstall.py:317-328 | a block inserted between whole lines is found there, and removing it restores the text around it exactly |
| ShellProfile.InstallThenRemove | install.sh:1285-1288 | removing what the installer appends gives the profile back with one empty line more, never the same text |
| Scheduler.OneWorker | src/secrets_kit/daemon/server.py:643-740 | in every run at most one worker process runs, and pending peers imply a pending wake |
| Scheduler.PendingPeers | src/secrets_kit/daemon/server.py:658-667 | the pending peers are exactly those observed since the last launch or stop |
| Scheduler.EachPeerToTheNextLaunch | src/secrets_kit/daemon/server.py:678-722 | a launch is told exactly those peers, and an observation counts for one launch only |
| Scheduler.RequestsAreServed | src/secrets_kit/daemon/server.py:653-722 | a request is answered by the first poll without a running worker, unless stopped before |
| Scheduler.NoLaunchAfterStop | src/secrets_kit/daemon/server.py:724-730 | after a stop no poll launches without a new request |
| Scheduler.ObservationReachesWorker | src/secrets_kit/daemon/server.py:803-837 | in the server's loop every observation not cancelled by a stop reaches the first worker started after it |
| Scheduler.ToldInServer | src/secrets_kit/daemon/server.py:803-837 | in the server's loop a worker is told of a peer exactly when it was observed since the last worker or stop |
| Scheduler.ToldIffLaunched | src/secrets_kit/daemon/server.py:714-722 | whoever polls on after a failed launch: a peer observed once reaches the first worker started afterwards exactly when the first launch afterwards succeeds |
| Scheduler.LostObservation | src/secrets_kit/daemon/server.py:714-722 | such a use of the class, ruled out by the server's loop, in which an observation is lost |
| Scheduler.OutboundScheduler.constructor | src/secrets_kit/daemon/server.py:646-651 | due after the startup grace |
| Scheduler.OutboundScheduler.RequestWake | src/secrets_kit/daemon/server.py:653-656 | the wake step |
| Scheduler.OutboundScheduler.ObserveRoute | src/secrets_kit/daemon/server.py:658-667 | the observation step, ignoring anything but an installed route with a textual node |
| Scheduler.OutboundScheduler.Timeout | src/secrets_kit/daemon/server.py:669-676 | never waits past the next run or a pending wake, and otherwise as long as allowed |
| Scheduler.OutboundScheduler.PollWorker | src/secrets_kit/daemon/server.py:678-722 | the poll step; what a launch is told is the sorted pending set |
| Scheduler.OutboundScheduler.StopWorker | src/secrets_kit/daemon/server.py:724-740 | the stop step, giving up the worker |
| Base64Url.RoundTrip | src/secrets_kit/crypto/codecs.py:33-52 | decoding inverts encoding for every byte string; length and alphabet of encodings |
| Base64Url.EncodingIffCanonical | src/secrets_kit/crypto/codecs.py:40-52 | a text the decoder takes is the encoding of its bytes exactly when it is canonical |
| Base64Url.NonCanonicalTexts | src/secrets_kit/crypto/codecs.py:40-52 | a standard-alphabet text, a padded one and one with stray bits are each taken as the bytes of another text |
| InvitationCode.KeyBytesIff | src/secrets_kit/protocol/peer_invitation.py:40-46 | a key text is accepted exactly when it is the encoding of 32 bytes |
| InvitationCode.CodeRoundTrip | src/secrets_kit/protocol/peer_invitation.py:66-80 | every secret is read back from its 92-character code |
| InvitationCode.AcceptedCodesAreCodes | src/secrets_kit/protocol/peer_invitation.py:66-80 | every accepted code is the code of the secret it is read as |
| InvitationFrames.BlobRoundTrip | src/secrets_kit/crypto/codecs.py:55-95 | decoding a blob's JSON gives the blob |
| InvitationFrames.SealedFits | src/secrets_kit/protocol/peer_invitation.py:99-117 | whatever is sealed takes at most 22008 bytes, below the 32768-byte limit |
| InvitationFrames.ChecksSigned | src/secrets_kit/protocol/peer_invitation.py:138-163 | the checks accept a signed message exactly for fitting time, expectations and key, and a verifying signature |
| InvitationFrames.SealedOpensIff | src/secrets_kit/protocol/peer_invitation.py:99-165 | what seals opens to the same body, signer and expiry exactly from 30 seconds before issue up to expiry with fitting expectations |
| InvitationFrames.FrameFitsReply | src/secrets_kit/protocol/peer_invitation_mailbox.py:67-71 | every frame's padded text fits the 43700-character reply limit |
| InvitationFrames.ReplyFrameIff | src/secrets_kit/protocol/peer_invitation_mailbox.py:92-102 | a reply text is taken exactly when it is some frame's encoding, and gives that frame |
| InvitationFrames.ReadStages | src/secrets_kit/protocol/peer_invitation_mailbox.py:85-105 | all four stages are read, or the reply refused when one is not acceptable |
| InvitationFrames.FrameFitsRequest | src/secrets_kit/protocol/peer_invitation_mailbox.py:47-50 | create and put requests with any frame fit 64 KiB whenever their other fields take at most 21000 characters |
| Framing.FirstFrameIff | src/secrets_kit/daemon/transport.py:2694-2696 | bytes start with a frame exactly when they are that frame followed by the rest |
| Framing.FramesRoundTrip | src/secrets_kit/daemon/transport.py:3005-3010 | any list of payloads within the limit is read back exactly, whatever follows |
| Framing.TruncatedIsError | src/secrets_kit/daemon/transport.py:3005-3022 | a stream cut anywhere is an error |
| Framing.Reader.ReadExact | src/secrets_kit/daemon/transport.py:3013-3022 | exactly the bytes asked for, or an error exactly when the stream is too short, however it is split into reads |
| Framing.Reader.ReadFrame | src/secrets_kit/daemon/transport.py:3005-3010 | the first frame of what is left, or its error |
| Framing.Reader.ReadFrames | src/secrets_kit/daemon/transport.py:3005-3022 | repeated reading gives the frames of the byte sequence |
| PrefixRelocation.ReplaceBinaryPrefix | src/secrets_kit/install_native_prefix.py:104-127 | succeeds exactly for valid prefixes, a placeholder only in terminated strings, and none left; the length check never fails |
| PrefixRelocation.RelocationKeepsOffsets | src/secrets_kit/install_native_prefix.py:118-127 | same length; every string at its offset, unchanged or rewritten in full and filled with NUL |
| PrefixRelocation.OccurrencesAreInStrings | src/secrets_kit/install_native_prefix.py:115-127 | the placeholder occurs in the data exactly when it occurs in a string, before and after relocation |
| PrefixRelocation.GluePieces | src/secrets_kit/install_native_prefix.py:121-122 | replacing is joining the stretches between occurrences with the prefix instead of the placeholder |
| PrefixRelocation.PiecesAreClear | src/secrets_kit/install_native_prefix.py:121-122 | those stretches contain no further occurrence |
| PrefixRelocation.IndependentLeavesNone | src/secrets_kit/install_native_prefix.py:118-127 | whatever the data, no placeholder is left when the new prefix neither lies in the placeholder nor shares an end with it |
| PrefixRelocation.SharedEndLeavesOne | src/secrets_kit/install_native_prefix.py:118-127 | with prefixes that share an end a placeholder can form anew |
| PayloadCodec.PlaintextRoundTrip | src/secrets_kit/protocol/payload_codec.py:75-110 | the identity codec gives back what it was given |
| PayloadCodec.EncryptedRoundTrip | src/secrets_kit/protocol/payload_codec.py:120-219 | the receiver of an encrypted payload gets back what was encrypted |
| PayloadCodec.DecodingBindsContext | src/secrets_kit/protocol/payload_codec.py:171-219 | an encrypted payload decodes only in the envelope context, codec and bound metadata it was encrypted for |
| PayloadCodec.SameAssociatedData | src/secrets_kit/protocol/payload_codec.py:457-475 | the associated data determines every bound field |
| Envelope.ParseIff | src/secrets_kit/protocol/envelope.py:212-316 | the parser takes exactly the dictionary forms of valid envelopes and gives back the envelope |
| Envelope.RejectDuplicates | src/secrets_kit/protocol/envelope.py:378-386 | refuses exactly objects with a repeated member, and otherwise keeps exactly the members |
| EnvelopeSigning.SignedVerifies | src/secrets_kit/protocol/envelope_signing.py:36-106 | a signed envelope verifies under the signer's key, differs only in its signature, and stays valid |
| EnvelopeSigning.SigningBytesBind | src/secrets_kit/protocol/envelope_signing.py:60-62 | the signed bytes determine the whole envelope but for the signature text |
| EnvelopeSigning.DictionaryInjective | src/secrets_kit/protocol/envelope.py:174-192 | different envelopes have different dictionary forms |
| EnvelopePipeline.BuiltIsValid | src/secrets_kit/protocol/envelope.py:93-143 | built envelopes are valid |
| EnvelopePipeline.SentIsReceived | src/secrets_kit/protocol/envelope.py:93-143 | what is built, signed and sent is parsed, verified and decoded to the original canonical payload |

## Left out

- Mdns.DaemonMdns.UpdateService: the class runs callbacks one at a time; interleavings at the two locks are in MdnsRuns.
- Scheduler.OneWorker: polls and stops come from one thread, as the server's loop does it (src/secrets_kit/daemon/server.py:803-837); a poll during a stop's termination wait is not modelled.
- FollowUps.FollowUpIffAnnounced: concerns peers without a LAN candidate during the attempt, as the source's follow-up selection does.
- Scheduler.OutboundScheduler.StopWorker: gives up the worker; the wait for its end is the separate event `Stopped` of the runs.
- Route binding is a state machine over values, not a class: the source's interleaving across awaits has no sequential form. Relay reservations, relay authentication deadlines and connection workarounds are outside it; a connection notice is a gate step on any candidate, and direct hints enter parsed, as the plain addresses their validation admits (src/secrets_kit/daemon/control.py:62-81).
- RSS replies are lists of peers already checked for shape and count; `last_contact` times, routing event records and status reports are dropped.
- Network and service libraries, sockets, threads and clocks: outcomes and times are parameters of steps. Callbacks into other components are taken not to raise.
- Cryptographic primitives, JSON text and multiaddress text: functions of library records with stated properties.
- mDNS restart after stop: one object serves one lifetime.
- Uninstall: archive, purge and service-manager control are I/O; ownership and permission bits are attributes of nodes; the home directory is taken to be free of symbolic links and directories to be listable; resolution follows at most a given number of links; relative paths are component lists.
- Profile files: decoding errors, link and owner checks, and the atomic replacement are I/O; the edit is modelled on decoded text.
- Hexadecimal parsing, identifier syntax of envelopes and transactions, and lenient base64 decoding are library functions of the envelope models.
- Keyring, keystore, peer registry, metadata merge, version comparison, command line, locales, MCP server, installers and release scripts: they would only add easy members.
