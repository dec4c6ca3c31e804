# link-p2p: a verified model of its mesh, packet plane and codecs

link-p2p joins machines into a small virtual network. A *hub* accepts any number of *spokes*, keeps
an index of who holds which virtual address, forwards packets between them, and tells every spoke
who is in the mesh. The same program speaks a SOCKS5 front end, a control socket for its daemon,
human-readable short codes for its keys, translated messages and wrapped help texts.

This project models the parts of that program where one function's text does not tell what the
whole does, and proves what the whole does. `dafny verify dfyconfig.toml` checks everything.

## How the model is laid out

**Membership and roster.** `HubIndex` holds the dual-stack index and its two updates. `Rcu` runs those
updates as load / compute / compare-and-swap retry loops, many at once, and shows that they act like
atomic operations. `RosterTypes`, `RosterProtocol` and `RosterConvergence` are the roster protocol as a
transition system: each session task of the hub accepts, claims, registers its fan-out queue, takes
a snapshot, collects the fans, sends one Joined per fan, pumps, releases, drops its fan, collects
again and sends one Left per fan, while every spoke reads its stream; all steps of all sessions
interleave freely. Convergence is proved from one inductive invariant. `RosterSecrecy` follows hidden spokes,
`RosterFans` lost fans and `RosterLocks` full queues through every run; `RosterSettling` shows when convergence is
reached. `RosterLimits` and `RosterReconnect` hold the concrete runs in which things go wrong. `SpokeMesh` is the
spoke's table, `HubForward` the forwarding of packets over whole runs, `PacketHeaders` what both read from a packet.

**Packet plane.** `InetSum` (the Internet checksum), `IcmpErrors` (the two "too big" builders), `IcmpRate`
(the injection limit), `MtuControl` (the shared interface MTU and its raise gate).

**Codecs and texts.** `Crockford` and `ShortCode`, `MoCatalog`, `TemplateFormat`, `HelpText`, `RosterWire`,
`CtlFrame` and `Socks5` over `ByteStream`. `Reconnect` holds the backoff and both reconnect loops.

`Net`, `Arith`, `Bits` and `Text` are shared helpers.

Code that mutates an object is a class with the object's fields; loops are loops. Each such method
is tied to a specification function or stated outright, and what the program promises is then proved
about the specification, over all inputs and all runs.

## Hypotheses the code needs

The convergence theorems ask `RosterProtocol.Allowed` of every step, and each clause of it is one assumption:

* the sessions of one peer do not overlap, the Left broadcast of the earlier one included (`Alone`;
  `RosterLimits.ReconnectLosesFan` is the failing run without it);
* no node joins, dials or lists itself: the hub's id does not join its mesh, a spoke completes no direct link with
  its own id and does not start with itself on its roster, and a link with the hub's id carries the hub's addresses;
* the visible membership fits one 4096-entry snapshot.

Nothing is asked of the roster a spoke connects with, nor of when direct links complete. The roster is not
cleared on reconnect (src/tun/spoke.rs:37-41), so a session starts with any roster at all, and
`spoke_install_direct` writes the peer into the roster at any moment (src/tun/spoke.rs:126). Both can leave an
entry the hub will never correct; the proof follows these *loose* entries through every run:

* an entry becomes loose when the session's fan is registered while the hub has nothing to tell of that peer
  (no visible session of it is in the index or has its Left yet to be collected), or when a direct link completes
  that does not settle (`MakesLoose`). A link settles when a message about the peer is still unread or the hub has
  something of it to tell yet, and repeats the peer's addresses where they have been told (`LinkSettles`);
* it is put right when a snapshot lists the peer, a message about it is sent to the session, or a link with it
  settles (`PutsRight`);
* an entry is loose if and only if some step made it so and none has put it right since (`LooseExactly`).

With that, convergence is exact: once all is sent and read, a spoke's roster is right about an id if and only if its
entry is not loose (`RosterConverges`).

Fan queues have their 32 slots in the model: a full queue only delays a sender, so the safety theorems do not need
unbounded queues. When such a delay lasts for ever is settled in `RosterLocks`; wherever it does not, convergence
can be reached (`RosterSettling.ConvergenceIsReachable`).

The theorems about hidden spokes (`RosterSecrecy`), lost fans (`RosterFans`), wait sets and the crowd bound need
none of these hypotheses. `RosterLocks.LockUpExactly` needs the first only.

## Findings

* **A crowd joining at once can lock the hub up.** A session's own fan queue is drained only by a
  task started after its Joined broadcast (src/tun/hub.rs:620, 632), and that broadcast includes its
  own queue. When 32 other spokes announce themselves between its registration and its broadcast,
  it waits for room in a queue only it would empty. The state is reachable inside all hypotheses
  (`HubCanLockUp`). Sessions that wait for each other in a circle lock up as well without any waiting for itself
  (`MutualIsWaitSet`); every such shape is a *wait set*, permanent whatever happens (`WaitSetForEver`), and where
  the hub's tasks are not settled and there is none, some task can go on (`ProgressOrWaitSet`).
  **Exactly when the hub is lost:** call a set of sessions that have yet to finish their Joined broadcast
  *overfull* when each has more than 32 messages waiting in its queue or owed to it by members of the set. A
  settled state can still be reached if and only if there is no overfull set (`LockUpExactly`; no two sessions of
  one peer overlapping). None arises while no session is listed by more than 32 broadcasts, its own included,
  between its registration and its own pumping (`SmallCrowdNeverLocks`).
* **A reconnect that overlaps its predecessor's teardown loses its fan** and is not told of later joins and
  leaves (`ReconnectLosesFan`). Over every run, a listening session is without its fan if and only if another
  session of its peer has registered or dropped one since it registered its own (`FanLostExactly`), and it never
  gets one back (`LostForGood`, `NeverAddressedAgain`).
* `try_claim_peer` looks at the IPv4 slot only, and only at the id in it. At the reload a claim is installed exactly
  when its swap met no foreign entry and no other session of its peer has taken a slot over since; Ok is the answer
  exactly when the last session of its peer on the IPv4 slot, whichever that is, is not released. So the answer is
  wrong exactly when a refused or displaced claim finds another session of its own peer there (`ClaimOkExactly`,
  `ClaimAnswerExactly`). Both happen: an earlier session holds the slot of a refused claim
  (`OverlapClaimsOkWithoutInstalling`), and a newer session takes the slots over between swap and reload
  (`NewerSessionClaimsOk`). A session told "already claimed" has left an entry behind exactly when its swap met no
  foreign entry and no session of its peer has taken its IPv6 slot over since (`RefusedLeaksExactly`; the
  instance is `ChangedPairLeaksASlot`), which cannot be when the peer keeps to one address pair
  (`RefusedLeaksNothing`).
* **A reconnecting spoke keeps peers that are gone.** It learns of a peer, loses its hub, the peer leaves, it
  reconnects: every broadcast is complete and every message read, and the peer is still on its roster
  (`ReconnectKeepsStalePeer`). A link that completes before the fan is registered does the same
  (`EarlyLinkOutlivesPeer`). The entries this happens to are exactly the loose ones.
* **Hidden spokes can become known.** docs/subsystems/tun.md says other spokes cannot learn a hidden spoke's
  addresses. The hub never sends them, in any run (`HiddenIsNeverTold`). But the hidden spoke learns of the others
  and dials those with a higher id, and the link puts it on their rosters (`HiddenDialsIn`). In every run that is
  the only way: a spoke lists a peer that has only been hidden if and only if it had it on its roster when it
  connected or has completed a direct link with it since (`HiddenKnownIffLinked`).
* `parse_endpoint_token` splits a 53-character code one byte before its end (src/contacts.rs:213), which panics when
  the last character takes several bytes: at exactly the tokens that the key type's parser refuses and that have 53
  characters besides separators, the last of them not ASCII (`PanicsExactly`; `AccentedPanics` is one).
* A character beyond ASCII in a short code is not refused as invalid but read as what its low byte stands for: the
  decoder compares `u as u8` (src/contacts.rs:322), so that U+0130 is a zero (`LowByteDecides`).
* The checksum's 32-bit sum is exact up to 131074 bytes, and not for any longer length
  (`SumFitsExactly`).
* The hold-off is decided on the gate value read before the clock and before a concurrent note; a raise
  can therefore slip in between a shrink and its note, or just after the note (`RaiseBeforeNote`,
  `RaiseAfterNote`). A hub raise within 15 seconds of the last note always is of the second kind
  (`EarlyRaiseSawAnOlderGate`), and a shrink not yet noted holds nothing back (`OwedNotesHoldNothing`). The cycle
  bound counts cycles whose shrink was recorded before the gate read.
* A cut control frame of a foreign version is "truncated" to the stream reader and a version mismatch
  to the buffer reader; otherwise the two agree (`ReadersAgree`).
* An MO file with any unknown magic is read as big-endian.

## Model

| member | source | states |
|---|---|---|
| `HubIndex.UpdateSafety` | src/tun/hub.rs:51-63 | whatever the index, one claim or release keeps every entry under its own addresses, never hands a slot from one peer id straight to another, and a release spares every other session's entry; a claim frees nothing |
| `HubIndex.ClaimExactly` | src/tun/hub.rs:51-63 | a claim takes both slots when each is empty or holds a session of the same peer, and otherwise changes nothing; every other slot stays |
| `HubIndex.ReleaseExactly` | src/tun/hub.rs:85-107 | a release takes out each of its two slots if that still holds the session, and nothing else |
| `HubIndex.RunUnderOwnVips` | src/tun/hub.rs:26-29 | after every run of claims and releases each entry sits under its own virtual addresses |
| `HubIndex.HandoverThroughEmpty` | src/tun/hub.rs:54-57 | in any run, an IPv4 slot that passes from one peer id to another was empty at some moment in between |
| `HubIndex.HandoverThroughEmpty6` | src/tun/hub.rs:54-57 | the same for IPv6 slots |
| `HubIndex.EntriesComeFromClaims` | src/tun/hub.rs:59-62 | every entry in either map was put there by a claim of the run |
| `HubIndex.ReleasedNeverReturns` | src/tun/hub.rs:85-107 | a session torn down at any point of a run, and not claiming again, holds no slot however the run goes on |
| `HubIndex.FixedPairsMirror` | src/tun/hub.rs:26-29 | with one fixed address pair per peer the IPv4 and IPv6 maps hold exactly the same sessions after every run |
| `Rcu.RunIsLinear` | src/tun/hub.rs:43-63 | in every interleaving of the retry loops the shared index equals the operations applied one after the other in the order of their successful swaps, each exactly once |
| `Rcu.ClaimOkIffInstalled` | src/tun/hub.rs:64-73 | without an overlapping session of the peer, the check after the reload says Ok exactly when the claim's own swap installed the entry, whatever other peers store in between |
| `Rcu.ClaimAnswer` | src/tun/hub.rs:43-73 | the same in a run of the small steps: the flag a claim returns is true if and only if no foreign entry stood in its way at its swap, and then the entry is installed under both addresses |
| `Rcu.ClaimOkExactly` | src/tun/hub.rs:51-73 | whatever other sessions of any peer did before the claim's swap and do before its reload: the claim is installed at the reload iff its swap met no foreign entry and no session of its peer took one of its slots over since; the answer is Ok iff the last session of the peer on the IPv4 slot is not released; so the two differ iff a refused or displaced claim finds a session of its peer kept there |
| `Rcu.ClaimAnswerExactly` | src/tun/hub.rs:43-73 | the same three equivalences for the flag a claim returns in any run of the retry loops, overlapping sessions of its own peer included |
| `Rcu.EntryUntilDisplaced` | src/tun/hub.rs:51-107 | through any operations of other sessions an entry stays whole exactly until a session of the same peer takes one of its slots over, and never comes back |
| `Rcu.SlotExactly` | src/tun/hub.rs:51-107 | after any claims and releases an IPv4 slot holds a peer's id iff the last session of that peer to take it, or the one there at the start, was not released since |
| `Rcu.NewerSessionClaimsOk` | src/tun/hub.rs:59-66 | the concrete overlap after the swap: a newer session of the peer has both slots, and the older one is told Ok |
| `Rcu.RefusedLeaksExactly` | src/tun/hub.rs:64-72 | in any sequence of operations a session told "already claimed" has left an entry in the index iff its swap met no foreign entry and no later successful claim of its peer took its IPv6 slot |
| `Rcu.RefusedAnswerLeaksExactly` | src/tun/hub.rs:43-73 | the same in any run of the retry loops, for a claim that returns false |
| `Rcu.RefusedLeaksNothing` | src/tun/hub.rs:64-72 | over every run in which that peer announces one pair only, a refused claim leaves nothing, whatever overlaps |
| `Rcu.ReleaseAnswer` | src/tun/hub.rs:109-111 | in a run of the retry loops a release returns true exactly when neither slot of its pair holds anyone at the reload |
| `Rcu.OthersChangeNothing` | src/tun/hub.rs:54-56 | any operations of other peers leave a peer's installed entry installed and cannot produce one that is not there |
| `Rcu.SessionsOverLeaveNothing` | src/tun/hub.rs:85-107 | a peer all of whose sessions have released has no entry left in either map |
| `Rcu.OverlapClaimsOkWithoutInstalling` | src/tun/hub.rs:64-66 | the concrete failing case of the Ok check without the no-overlap hypothesis |
| `Rcu.ChangedPairLeaksASlot` | src/tun/hub.rs:66-72 | the concrete run in which a refused claim leaves an IPv6 slot behind when a peer changes its pair |
| `Rcu.HubPeers.Update` | src/tun/hub.rs:51-63 | the retry loop as a loop over a cell that other tasks store into: its effect is one atomic operation between what the others did before and after |
| `Rcu.HubPeers.TryClaimPeer` | src/tun/hub.rs:43-73 | claim through the loop and the reload, whatever other sessions store meanwhile: what Ok and what being installed at return mean, each if and only if; with no other session of the peer about, both hold exactly when the entry was free at the swap |
| `Rcu.HubPeers.RemoveIfOwned` | src/tun/hub.rs:85-111 | release through the loop; the flag is true exactly when both slots are empty in the reloaded table |
| `RosterTypes.ReadingKeepsTold` | src/tun/spoke.rs:268-356 | reading the next message does not change what a spoke will finally believe about any other peer, snapshots included |
| `RosterTypes.ListedIsInserted` | src/tun/spoke.rs:269-286 | after a snapshot the roster says of each peer what its last entry in the snapshot says, and what it said before if there is none |
| `RosterTypes.NeverListsItself` | src/tun/spoke.rs:274-276 | applying a snapshot never lists the spoke itself |
| `RosterConvergence.RunKeepsInv` | src/tun/hub.rs:504-676 | the invariant of the whole protocol holds after every run, reconnects and early links included: fans match sessions, the index holds exactly the attached sessions, and roster plus unread messages plus pending broadcasts agree with them about every entry that is not loose, and disagree about every loose one |
| `RosterConvergence.StepKeepsInv` | src/tun/hub.rs:547-676 | every single step of every task - accept, claim, fan, snapshot, collect, one send, forward, read, release, drop, any direct link - keeps that invariant, with the loose entries it makes or puts right |
| `RosterConvergence.LinkClauseIsExact` | src/tun/spoke.rs:109-130 | a direct link at a listening spoke leaves all that spokes will believe right if and only if it settles: a message about that peer is still to be read, or the hub has something of it to tell yet, its addresses agreeing where they have been told |
| `RosterConvergence.RosterConverges` | src/tun/hub.rs:563-676 | in every interleaving, on a first session or a later one: once the broadcasts are complete and an attached spoke has read its stream, its roster is right about an id iff that is none of its loose entries, and is exactly the hub plus the attached visible peers except itself iff it has no loose entry |
| `RosterConvergence.LooseExactly` | src/tun/spoke.rs:37-41 | in every run an entry is loose iff at some step the fan was registered with nothing to be told of the listed peer, or a link completed that did not settle, and no snapshot, message or settling link has put it right since |
| `RosterReconnect.ReconnectKeepsStalePeer` | src/tun/spoke.rs:37-41 | the concrete run within all hypotheses: a spoke reconnects with the roster it left with, all is told and read, and it still lists a peer that has left |
| `RosterConvergence.AnnouncedPeerIsOnItsWay` | src/tun/hub.rs:113-119 | at every moment of every run, what a spoke has read and still has to read of an announced peer, whose Joined is not still to be sent to it, amounts to that peer's addresses iff that peer's entry is not loose |
| `RosterConvergence.StepKeepsQuiet` | src/tun/hub.rs:666-676 | a peer that is neither announced nor about to be announced or retracted stays unknown to every listener through every step, its loose entries aside |
| `RosterConvergence.StepKeepsAnnounced` | src/tun/hub.rs:607-621 | every step keeps every listener's knowledge of every announced peer, its loose entries aside |
| `RosterConvergence.StepKeepsLoose` | src/tun/spoke.rs:109-130 | every step keeps loose entries what they are: on the roster, with no message about them under way, and wrong where their peer has been announced to the spoke |
| `RosterConvergence.SettledConverges` | src/tun/spoke.rs:255-357 | from the invariant alone: in a settled state a spoke that has read everything is right about exactly the ids that are not loose, both ways |
| `RosterSettling.ConvergenceIsReachable` | src/tun/hub.rs:607-641 | after every run within the hypotheses with no overfull set, one continuation within them settles and makes every attached spoke, whichever of its sessions it is on, right about exactly the ids that are not among its loose entries |
| `RosterSettling.SmallCrowdNeverLocks` | src/tun/hub.rs:607-641 | over every run whatever: while each boarding session has been listed by at most 32 broadcasts since it registered, its own and those about to be collected counted, there is no overfull set |
| `RosterSettling.PendingIsListed` | src/tun/hub.rs:113-119 | over every run, a boarding session's queue and the sends still on their way to it are at most the broadcasts that have listed it |
| `RosterSecrecy.RunKeepsSecret` | src/tun/hub.rs:121-142 | every run whatever keeps: the index holds only what sessions claimed, hidden sessions never broadcast, and no message under way names a hidden one |
| `RosterSecrecy.HiddenIsNeverTold` | src/tun/hub.rs:131-140 | in every run, overlapping sessions and all, no Snapshot, Joined or Left on its way to any spoke names anyone but the hub and sessions that are not hidden |
| `RosterSecrecy.HiddenKnownIffLinked` | docs/subsystems/tun.md:26-28 | in every run, a spoke lists a peer that has only been hidden if and only if that peer was on its roster when it connected or it has completed a direct link with that peer since |
| `RosterSecrecy.HiddenDialsIn` | src/tun/spoke.rs:109-130 | the run in which it happens: a hidden spoke reads its snapshot, has the lower id, dials, and is on the other's roster |
| `RosterFans.FanLostExactly` | src/tun/hub.rs:666-676 | in every run, a listening session has its fan if and only if no other session of its peer has registered or dropped one since it registered its own |
| `RosterFans.ListenersHaveRegistered` | src/tun/hub.rs:563-576 | every listening session has registered its fan at some step of the run |
| `RosterFans.LostForGood` | src/tun/hub.rs:666-676 | in every run, a session past its registration that has no fan never has one again |
| `RosterFans.NeverAddressedAgain` | src/tun/hub.rs:113-119 | and no broadcast collected from then on is addressed to it |
| `RosterLocks.StepKeepsWaitSet` | src/tun/hub.rs:113-119 | no step of anyone takes a member out of a wait set: announcing sessions with full queues each of which still has to send to one of them |
| `RosterLocks.WaitSetForEver` | src/tun/hub.rs:113-119 | over every run a wait set is permanent and nothing settles, self-waits and circular waits alike |
| `RosterLocks.WaitersWaitForEver` | src/tun/hub.rs:113-118 | in every run whoever has a member of a wait set on its list keeps it there for ever |
| `RosterLocks.SpokesReadOn` | src/tun/spoke.rs:255-268 | a lock-up is the hub's: at any time a spoke can read what has reached it, and no wait set is resolved by that |
| `RosterLocks.TaskStepDecreases` | src/tun/hub.rs:563-676 | every step the hub's tasks take by themselves uses up work, so their schedules end |
| `RosterLocks.ScheduleIsFinite` | src/tun/hub.rs:563-676 | the length of a schedule of the hub's own tasks and the work left after it are together at most the work there was at its start |
| `RosterLocks.ProgressOrWaitSet` | src/tun/hub.rs:113-119 | the converse: in every reachable state that is not settled and whose jammed sessions are no wait set, some task can go on |
| `RosterLocks.StepKeepsDoom` | src/tun/hub.rs:607-641 | without overlapping sessions of one peer, once there is an overfull set there is one for ever, whoever comes and goes |
| `RosterLocks.UndoomedSettles` | src/tun/hub.rs:607-676 | where there is no overfull set, the hub's own tasks have a schedule that completes every broadcast |
| `RosterLocks.LockUpExactly` | src/tun/hub.rs:607-641 | after every run without overlapping sessions of one peer, a settled state can still be reached if and only if there is no overfull set |
| `RosterLimits.ReconnectLosesFan` | src/tun/hub.rs:666-676 | the five-step run in which only the no-overlap hypothesis fails: the successor owns both slots and its fan is gone |
| `RosterLimits.HubCanLockUp` | src/tun/hub.rs:620-641 | from the empty hub a wait set of one, with its 32 slots full, is reached with 33 spokes by enabled steps within all hypotheses |
| `RosterLimits.MutualIsWaitSet` | src/tun/hub.rs:113-118 | two full sessions past their own sends that owe each other are a wait set, and neither waits for itself |
| `RosterLimits.EarlyLinkOutlivesPeer` | src/tun/spoke.rs:109-130 | a direct link completed before the spoke's fan is registered stays on its roster when that peer leaves, with nothing more to be told of it |
| `SpokeMesh.SharedMesh.constructor` | src/tun/spoke.rs:24-35 | a fresh table knows no hub, no link and no peer |
| `SpokeMesh.SharedMesh.SetHub` | src/tun/spoke.rs:674-681 | connecting to the hub stores its addresses, its link and its roster entry; every other roster entry and all direct links stay |
| `SpokeMesh.SharedMesh.ClearHub` | src/tun/spoke.rs:37-41 | disconnecting leaves the roster and every direct link as they were, and from then on packets leave by the link filed under their destination or not at all |
| `SpokeMesh.SharedMesh.InstallDirect` | src/tun/spoke.rs:109-130 | a direct link is entered in the roster and under both addresses of its peer, unless either is the spoke's own; every other entry and the hub's fields stay |
| `SpokeMesh.SharedMesh.DropDirect` | src/tun/spoke.rs:156-159 | the end of a direct link removes exactly its peer's two addresses: every other link, the hub's and the roster stay |
| `SpokeMesh.SharedMesh.ApplyRosterMsg` | src/tun/spoke.rs:268-356 | folding a message in, entry by entry for a snapshot, leaves in the roster what the message says of every other peer and nothing new of the spoke; Left takes exactly its peer's two links along, other messages none, and the hub's fields stay |
| `SpokeMesh.SharedMesh.Route` | src/tun/spoke.rs:522-531 | no way out for the spoke's own packets; a packet for the hub takes the hub's link; any other the direct link filed under its destination; without one the hub's link if it is for the mesh, and none if not |
| `SpokeMesh.RunKeepsLinks` | src/tun/spoke.rs:77-83 | after any run of updates each direct link sits under the addresses its peer announced, none under the spoke's own, and the hub's three fields are set together |
| `SpokeMesh.LinksAreFiled` | src/tun/spoke.rs:109-159 | over every run a link stands under an address if and only if an update filed it there and no later one replaced it, ended it or told that its peer left |
| `SpokeMesh.DirectLinkIsUsed` | src/tun/spoke.rs:43-72 | over every run, a packet not for the hub leaves by the link filed for its destination; with none filed, by the hub's link if it is for the mesh and not at all if it is not |
| `SpokeMesh.LinkCarriesItsPeer` | src/tun/spoke.rs:43-72 | over every run, a direct link whose addresses no later update has touched takes every packet for its peer, of either family, hub or no hub |
| `SpokeMesh.LeftFallsBackToHub` | src/tun/spoke.rs:348-354 | after any run, once a peer's Left is folded in, packets for its addresses go by the hub's link or, without a hub, nowhere |
| `SpokeMesh.HubLinkIsTheLast` | src/tun/spoke.rs:37-41 | over every run the hub's addresses and link are those of the last connection, if that has not ended since |
| `SpokeMesh.HubIsNeverShadowed` | src/tun/spoke.rs:45-51 | after any run a packet for the hub takes the hub's own link, whatever direct links exist |
| `SpokeMesh.OnlyToHubOrHolder` | src/tun/spoke.rs:43-72 | after any run a packet leaves by the hub's link or by the link of exactly the peer it is addressed to |
| `SpokeMesh.OrderDoesNotMatter` | src/tun/spoke.rs:269-286 | however a snapshot with distinct ids is sorted before it is stored, the roster comes out the same |
| `PacketHeaders.V4Reads` | src/tun/mod.rs:329-342 | of an IPv4 packet the source is read behind 12 bytes and the destination behind 16, and nothing as IPv6 |
| `PacketHeaders.V6Reads` | src/tun/mod.rs:344-360 | of an IPv6 packet the source is read behind 8 bytes and the destination behind 24, and nothing as IPv4 |
| `PacketHeaders.ShortReadsNothing` | src/tun/mod.rs:330-347 | a packet without a whole header of its version has no addresses and is for nobody |
| `PacketHeaders.MeshOctets` | src/tun/mod.rs:319-326 | the mesh is exactly the addresses that begin 172.24 and fd24:ac18:0:0 |
| `HubForward.HubPlane.EnqueuePeer` | src/tun/hub.rs:35-38 | the peer's old queue stays a prefix and gains the packet exactly when it has room; no queue grows beyond 256, no other changes |
| `HubForward.HubPlane.TakeDatagram` | src/tun/hub.rs:230-249 | one datagram from a spoke: to the hub's TUN exactly when its source is the sender's and it is for the hub; appended to the queue of whom the index lists under its destination exactly when its source is the sender's, it is for the mesh, neither for hub nor sender, and there is room; otherwise nowhere |
| `HubForward.HubPlane.TakeFromTun` | src/tun/hub.rs:186-208 | one packet from the hub's TUN is appended to the queue of whom the index lists under its destination exactly when it is for the mesh, not for the hub, and there is room; an installed session always gets it |
| `HubForward.DeliveryIsSound` | src/tun/hub.rs:144-249 | over every run of the whole star each packet is only where it may be: at the hub or at the session holding its destination, from the address its sender announced, never at its sender, after at most two hops |
| `HubForward.RelayedIsAccepted` | src/tun/spoke.rs:758-776 | every packet relayed from another spoke passes the receiving spoke's source filter |
| `HubForward.HolderIsReached` | src/tun/hub.rs:144-153 | an attached session gets every honest packet for either of its addresses in three steps when nothing loses it |
| `HubForward.HubReachesHolder` | src/tun/hub.rs:186-208 | a packet of the hub's own for an attached session is queued, sent and delivered when the spoke's filter passes it |
| `HubForward.HubSendsExactly` | src/tun/hub.rs:186-208 | a packet of the hub's own is queued for t exactly when it is for the mesh, not for the hub, and the index lists t under its destination; otherwise it is gone |
| `HubForward.HubTakesExactly` | src/tun/hub.rs:230-249 | a spoke's packet is delivered to the hub, queued for t, or gone, each under its exact condition |
| `HubForward.FilterIsTheMesh` | src/tun/spoke.rs:758-776 | a spoke lets in exactly packets whose source is the hub's or begins 172.24 or fd24:ac18:0:0 |
| `InetSum.InetChecksum` | src/tun/mod.rs:708-721 | the loop with its wrapping 32-bit accumulator returns the one's-complement checksum for every buffer up to 131074 bytes; folding ends |
| `InetSum.SumFitsExactly` | src/tun/mod.rs:709-716 | the 32-bit sum is exact for a length if and only if that is at most 131074 bytes |
| `InetSum.SelfVerifies` | src/tun/mod.rs:708-721 | stored into its zeroed even-offset field, the checksum makes any buffer verify, odd lengths and all zeros included |
| `InetSum.VerifiesWhenMultiple` | src/tun/mod.rs:708-721 | a buffer verifies exactly when its words add up to a positive multiple of 65535 |
| `InetSum.OneWordChangeIsMissed` | src/tun/mod.rs:708-721 | a verifying buffer with one changed word still verifies exactly when 0x0000 and 0xFFFF traded places in a buffer not all zero |
| `IcmpErrors.BuildFragNeeded` | src/tun/mod.rs:737-797 | the IPv4 builder, buffer by buffer, returns what the specification names, for every input |
| `IcmpErrors.BuildPktTooBig` | src/tun/mod.rs:807-861 | the same for the ICMPv6 builder |
| `IcmpErrors.FragNeededIsSound` | src/tun/mod.rs:737-797 | whatever it returns has the exact header bytes, matching lengths, verifying checksums, the quote of header and 8 bytes, the announced MTU, the original source as destination, at most 96 bytes, and neither builder answers it |
| `IcmpErrors.FragNeededAnswersExactly` | src/tun/mod.rs:738-773 | it answers exactly the IPv4 packets with a whole header that are not ICMP and whose source is not 0.0.0.0, 255.255.255.255, in 224/4 or in 127/8, on the address's number; the 65535-byte check never fires |
| `IcmpErrors.PktTooBigAnswersExactly` | src/tun/mod.rs:807-826 | the ICMPv6 builder answers exactly the packets with a whole header that are not ICMPv6 and whose source is not ::, not ::1 and not in ff00::/8 |
| `IcmpErrors.PktTooBigIsSound` | src/tun/mod.rs:807-861 | the same for ICMPv6 with the pseudo-header checksum, and at most 1280 bytes |
| `IcmpErrors.MeshIsAnswered` | src/tun/mod.rs:737-826 | every packet with a whole header and a source in the mesh that is not ICMP is answered, in both families |
| `IcmpErrors.AnswerGoesBack` | src/tun/mod.rs:737-861 | what the packet plane reads from either error: from the gateway, to the original packet's source |
| `IcmpRate.SenderLoop` | src/tun/mod.rs:1063-1098 | the loop injects at exactly the times of the specification |
| `IcmpRate.AnsweredExactly` | src/tun/mod.rs:1084-1098 | for every packet of every history: an error is injected if and only if the packet is oversize, a builder answers it, and fewer than 20 were injected since its window was opened |
| `IcmpRate.WindowIsCurrent` | src/tun/mod.rs:1084-1097 | the sender's two variables are always the moment of the last restart, a second or more after the one before, and the errors injected since |
| `IcmpRate.RateBound` | src/tun/mod.rs:655 | for every trace with a monotone clock, every half-open interval of T nanoseconds holds at most 20 * (ceil(T in seconds) + 1) injected errors |
| `IcmpRate.OneSecondBound` | src/tun/mod.rs:655 | at most 40 in any one second |
| `IcmpRate.FortyInOneSecond` | src/tun/mod.rs:1084-1087 | a trace that does inject 40 in one second |
| `MtuControl.Iface.Shrink` | src/tun/mod.rs:633-641 | the MTU falls to the clamped ceiling if that is lower; the answer is true when it fell and the OS took it, an error when it fell and the OS refused, false otherwise |
| `MtuControl.Iface.Refresh` | src/tun/mod.rs:603-625 | a refresh never lowers, changes nothing before the gate, raises within the user's bound and the path's, and past the gate leaves the MTU at no less than both allow |
| `MtuControl.Iface.StartHubSession` | src/tun/hub.rs:585-592 | a session start on the hub takes the MTU to the smallest of what it was, the user's bound and the path's ceiling |
| `MtuControl.Iface.StartSpokeSession` | src/tun/spoke.rs:638-641 | a spoke's session start sets the smaller of path ceiling and user's bound, or fails and changes nothing |
| `MtuControl.NeverAboveUser` | src/tun/mod.rs:603-641 | over every interleaving of senders, refreshes and session starts the shared MTU stays within the user's bound |
| `MtuControl.StepSetsMtu` | src/tun/mod.rs:603-641 | at any point of any run, what each step makes of the MTU: session starts, shrinks and refreshes, in numbers |
| `MtuControl.StepSetsGate` | src/tun/mod.rs:677-681 | only a note moves the gate, to 15 seconds after itself, and only a shrink the OS took is owed one |
| `MtuControl.StepKeepsInv` | src/tun/mod.rs:673-701 | each step keeps the gate at least 15 seconds behind the last note and completed cycles 15 seconds apart |
| `MtuControl.NoRaiseInHoldoff` | src/tun/mod.rs:684-701 | on the hub a raise comes only from a refresh, and at least 15 seconds after the last shrink recorded before its gate read |
| `MtuControl.EarlyRaiseSawAnOlderGate` | src/tun/mod.rs:694-700 | a hub raise less than 15 seconds after the last recorded shrink was decided on a gate read before that record |
| `MtuControl.OwedNotesHoldNothing` | src/tun/mod.rs:1069-1075 | a shrink not yet recorded holds nothing back: a refresh raises exactly when the gate it read has passed and its path allows more |
| `MtuControl.CycleBound` | src/tun/mod.rs:651 | in any window of T any run completes at most floor(T / 15 s) + 1 cycles of recorded shrink and raise |
| `MtuControl.RaiseBeforeNote` | src/tun/mod.rs:1069-1075 | between a shrink and its note a refresh can raise straight back |
| `MtuControl.RaiseAfterNote` | src/tun/mod.rs:694-700 | a note that falls between gate read and clock read does not stop that refresh |
| `Crockford.EncodeCrockford` | src/contacts.rs:292-312 | for data of every length the streaming encoder writes the canonical ceil(8n/5) symbols whose digits are the data's bits padded with zeros; nothing shifted out of 32 bits is missed |
| `Crockford.DecodeCrockford` | src/contacts.rs:314-333 | the decoder fails exactly when some character has no value, and otherwise returns the whole bytes among the spelled bits |
| `Crockford.RoundTrip` | src/contacts.rs:292-333 | what is read from any spelling with the digits of an encoding is the encoded data |
| `Crockford.SpellingIsUnique` | src/contacts.rs:292-312 | a byte string has one canonical encoding |
| `Crockford.ValueIsPosition` | src/contacts.rs:318-324 | a character's value is its byte's position in the alphabet, upper-cased and cut to one byte, or none |
| `Crockford.CaseDoesNotMatter` | src/contacts.rs:318-324 | a symbol of the alphabet stands for its position in either case |
| `Crockford.FourLettersLeftOut` | src/contacts.rs:318-324 | I, L, O and U stand for nothing to the decoder, in either case |
| `Crockford.LowByteDecides` | src/contacts.rs:322 | a character beyond ASCII stands for what its low byte does, and is not refused |
| `Crockford.ShiftInBalanced` | src/contacts.rs:299 | shifting bits into the truncating accumulator keeps its low bits in balance with what was read and written |
| `Crockford.TakeBalanced` | src/contacts.rs:301-304 | taking the top bits out of it keeps that balance |
| `ShortCode.CheckSymbol` | src/contacts.rs:284-290 | the wrapping factor-31 hash modulo 32 is the alternating byte sum modulo 32, for data of any length |
| `ShortCode.ByteChangeMissed` | src/contacts.rs:284-290 | one changed byte goes unnoticed exactly when it changed by a multiple of 32 |
| `ShortCode.SwapMissed` | src/contacts.rs:279-290 | two exchanged neighbours go unnoticed exactly when they agree modulo 16 |
| `ShortCode.CheckMoves` | src/contacts.rs:284-290 | zeros have the check symbol 0, and adding d to a byte moves the symbol by d, up or down by the byte's distance from the end |
| `ShortCode.EncodeShortCode` | src/contacts.rs:255-264 | a 32-byte id becomes 66 characters that compact to its 52 symbols and check symbol |
| `ShortCode.DashesOfGrouped` | src/contacts.rs:258-263 | in the grouped code the dashes are exactly every fifth character |
| `ShortCode.CompactIsWhatItShows` | src/contacts.rs:198-206 | the normalisation yields a code exactly when the token shows that code's symbols in order, in any case, with I, L, O for 1, 1, 0 and separators anywhere |
| `ShortCode.ParseEndpointToken` | src/contacts.rs:193-253 | the parser's answer for every token, every error included, and the panic at exactly the tokens with 53 characters besides separators whose last is not ASCII |
| `ShortCode.PanicsExactly` | src/contacts.rs:201-213 | of the tokens no other format claims, the answer is a panic if and only if the token has 53 characters besides separators and the last is not ASCII |
| `ShortCode.AccentedPanics` | src/contacts.rs:212-213 | 52 zeros and an accented letter are such a token |
| `ShortCode.ShortCodeRoundTrip` | src/contacts.rs:193-234 | every spelling of an id's code parses to that id |
| `ShortCode.OtherSymbolRefused` | src/contacts.rs:225-229 | the same payload with any other check symbol is refused as a mismatch |
| `ShortCode.LegacyCodeRoundTrip` | src/contacts.rs:236-247 | a code without check symbol still parses to its id |
| `ShortCode.AcceptedExactly` | src/contacts.rs:211-234 | 53 characters are an id's if and only if they spell its bytes, end in their check symbol, and the key is valid |
| `ShortCode.AnswersExactly` | src/contacts.rs:211-252 | every answer of the parser and exactly when it is given: panic, invalid character, mismatch, invalid id, the id, not a code |
| `MoCatalog.ParseMo` | src/i18n.rs:289-326 | for arbitrary bytes the reader returns the specification's catalog or fails with it; every access stays inside the buffer |
| `MoCatalog.FailsExactly` | src/i18n.rs:290-317 | it fails exactly when the header is short or some announced message does not lie inside the file |
| `MoCatalog.EntryExactly` | src/i18n.rs:293-317 | whatever the bytes, message i is found exactly when both tables the header names at bytes 12 and 16 hold its lengths and offsets and both strings stand there, in the byte order the first four bytes tell |
| `MoCatalog.FileReadsBack` | src/i18n.rs:289-326 | a file that holds a list of messages, in either byte order, reads back as their catalog |
| `MoCatalog.BuildMo` | src/i18n.rs:363-399 | every list of messages whose file fits 32-bit offsets is built into a file that holds exactly it, in either byte order |
| `MoCatalog.LastOneWins` | src/i18n.rs:318-323 | of several messages with one id the catalog has the last |
| `MoCatalog.NothingElse` | src/i18n.rs:318-323 | the catalog has no key but the ids of messages with a nonempty id |
| `MoCatalog.MagicTellsTheOrder` | src/i18n.rs:293-294 | the first word of a built file tells its byte order |
| `TemplateFormat.TrFmt` | src/i18n.rs:153-183 | the loop's output is the rendering of the template's tokens |
| `TemplateFormat.SlotsAreExactly` | src/i18n.rs:161-168 | a slot token starts exactly where a brace, digits and a closing brace stand |
| `TemplateFormat.SlotsAreBraced` | src/i18n.rs:161-168 | written out: an opening brace, one or more ASCII digits, a closing brace |
| `TemplateFormat.TokensKeepTemplate` | src/i18n.rs:153-183 | the tokens put together are the template; no character is lost |
| `TemplateFormat.BraceStartsAfresh` | src/i18n.rs:161-168 | an opening brace always starts afresh: what stands before it never changes how the rest is read |
| `TemplateFormat.SlotInContext` | src/i18n.rs:170-181 | in every context a slot becomes its argument, or itself when out of range, and its surroundings what they are alone |
| `TemplateFormat.ArgumentIsInserted` | src/i18n.rs:146-150 | where a template says {n} the n-th argument stands word for word, never read again |
| `TemplateFormat.OutOfRangeStays` | src/i18n.rs:170-181 | a number without an argument, or beyond 64 bits, stays as it stands, its surroundings formatted as ever |
| `TemplateFormat.NoArguments` | src/i18n.rs:172-177 | without arguments every template stands for itself |
| `HelpText.FindSoftBreak` | src/helptext.rs:149-167 | returns the last usable soft break, unless that is the end of the text |
| `HelpText.BestBreakIsLast` | src/helptext.rs:149-167 | the break found is usable and none behind it is; with none found there is none |
| `HelpText.SoftBreakChars` | src/helptext.rs:169-171 | the soft breaks are comma, semicolon, slash, blank, tab and the three wide marks |
| `HelpText.WrapClause` | src/helptext.rs:121-146 | the loop ends and yields the specification's lines |
| `HelpText.WrapKeepsInk` | src/helptext.rs:121-146 | the lines of a clause have its characters in order, whitespace aside |
| `HelpText.WrapFits` | src/helptext.rs:121-146 | every line but a clause's last fits the width, and the last exceeds it only without a usable break in its first columns |
| `HelpText.EndsHere` | src/helptext.rs:70-107 | the branches of the splitter decide exactly whether a sentence ends here |
| `HelpText.EndsAreStops` | src/helptext.rs:70-107 | where a sentence ends, by the characters around: at a wide stop, or at an ASCII stop before whitespace or the end unless it is a dot between a lower-case letter and a lower-case word |
| `HelpText.SplitSentences` | src/helptext.rs:64-118 | the loop cuts at exactly those ends |
| `HelpText.SentencesAreWhole` | src/helptext.rs:64-118 | each sentence is a trimmed stretch that begins behind a sentence end, or at the start, and runs to the very next end: no end is missed and no other place is cut |
| `HelpText.SentencesKeepInk` | src/helptext.rs:64-118 | cutting into sentences keeps the characters and brings in no newline |
| `HelpText.HardWrapHelp` | src/helptext.rs:32-53 | the whole wrapper yields the specification's text, for every input |
| `HelpText.WrappingKeepsText` | src/helptext.rs:27-53 | the wrapped text has the same non-whitespace characters in the same order |
| `HelpText.ParagraphsAreIndependent` | src/helptext.rs:38-48 | a newline of the text stays a break: what stands before it and behind it is wrapped independently |
| `HelpText.WrappedLinesFit` | src/helptext.rs:11-53 | every line of it fits 72 columns or has no usable soft break in its first 72 |
| `HelpText.WrappedIsLaidOut` | src/helptext.rs:32-53 | the wrapped text line by line is the trimmed text paragraph by paragraph: a blank paragraph is one blank line and there is no other, every sentence begins a line and is one when it fits |
| `HelpText.WidthOfPlain` | src/helptext.rs:173-198 | text below U+1100 counts one column a character, kana and ideographs two |
| `Reconnect.Backoff.constructor` | src/runtime.rs:687-693 | a new backoff is at its first step |
| `Reconnect.Backoff.Next` | src/runtime.rs:695-699 | hands out the delay of its step and advances by one |
| `Reconnect.Backoff.Reset` | src/runtime.rs:701-703 | returns to the first step |
| `Reconnect.Backoff.AfterSession` | src/runtime.rs:707-718 | a stable session resets and asks for no delay, any other advances |
| `Reconnect.DelayIsCappedPower` | src/runtime.rs:665-699 | the k-th delay is the smaller of base doubled k times and the maximum |
| `Reconnect.SpokeLoop` | src/tun/spoke.rs:591-617 | the dial times of the spoke's loop, with one second after a stable session and the backoff's delay after any other |
| `Reconnect.SpokeGapExactly` | src/tun/spoke.rs:838-853 | the wait after a session of five seconds or more is one second, and after the k-th shorter one in a row a second doubled k - 1 times, at most thirty |
| `Reconnect.Watcher` | src/runtime.rs:849-916 | the dial times of the reconnect watcher, whether connections fail, die quickly or live, and with a connection installed before it |
| `Reconnect.WatcherGapExactly` | src/runtime.rs:849-916 | behind a connection that lived five seconds the watcher redials at once, and after the k-th failed or shorter one in a row a second doubled k - 1 times later, at most thirty |
| `Reconnect.DialsAreSpaced` | src/tun/spoke.rs:838-853 | in both loops any two dials are at least one second apart for each attempt between them |
| `Reconnect.UnstableDialRate` | src/runtime.rs:665-673 | a span of T made of unstable attempts holds at most 5 + floor(T / 30 s) dials, in both loops |
| `Reconnect.RateIsReached` | src/tun/spoke.rs:838-845 | attempts that fail at once dial exactly that often |
| `Reconnect.WaitClosedForm` | src/runtime.rs:665-668 | the least total wait of n unstable attempts: 0, 1, 3, 7, 15, 31 seconds and 30 more for each further one |
| `RosterWire.EntryReadsBack` | src/tun_roster.rs:39-59 | an encoded entry decodes to itself exactly when its id is valid |
| `RosterWire.EntryIsCanonical` | src/tun_roster.rs:46-59 | a decoded entry encodes to the bytes it came from |
| `RosterWire.EntryLayout` | src/tun_roster.rs:40-44 | an entry is 52 bytes: IPv4 address, IPv6 address, id, in this order |
| `RosterWire.EncodeSnapshot` | src/tun_roster.rs:83-94 | the loop writes magic, type, count and the first 4096 entries |
| `RosterWire.MsgLayout` | src/tun_roster.rs:62-112 | every message and the hello byte by byte: magic, type, and entry, count and entries, or flag |
| `RosterWire.ReadMsg` | src/tun_roster.rs:121-162 | the stream reader returns the specification's message and stops right behind it, or fails with it |
| `RosterWire.MsgReadsBack` | src/tun_roster.rs:83-162 | every message is read back whatever follows it, a snapshot cut to its first 4096 entries |
| `RosterWire.MsgOnlyEncoding` | src/tun_roster.rs:121-162 | the reader accepts nothing but what the encoders write |
| `RosterWire.RosterStreamReadsBack` | src/tun_roster.rs:119-162 | any messages one behind the other read back as the same list with nothing left over |
| `RosterWire.RosterStreamIsItsEncoding` | src/tun_roster.rs:119-162 | a stream that reads to its end is exactly the encoding of what was read |
| `RosterWire.ReadHello` | src/tun_roster.rs:71-81 | a hello is accepted by magic and type, and only the lowest flag bit counts |
| `Text.AsciiWhite` | src/contacts.rs:200 | the ASCII whitespace of the trimming and separator rules is tab to carriage return and the blank |
| `RosterWire.HelloReadsBack` | src/tun_roster.rs:62-81 | a hello is read back and what follows it is left in place |
| `CtlFrame.EncodeFrame` | src/tun_ctl.rs:357-372 | a frame is written exactly when its body is within 1 MiB |
| `CtlFrame.FrameLayout` | src/tun_ctl.rs:357-372 | a frame byte by byte: magic, version, length in four bytes, body |
| `CtlFrame.ReadFrame` | src/tun_ctl.rs:551-564 | the stream reader returns the specification's frame and stops behind it, or fails with its error |
| `CtlFrame.DecodeFrame` | src/tun_ctl.rs:520-532 | the buffer reader hands on a body if and only if the buffer starts with a frame of our version around it, of at most 1 MiB |
| `CtlFrame.BufferErrorsExactly` | src/tun_ctl.rs:385-432 | which error the buffer reader reports, each if and only if, on the buffer's bytes |
| `CtlFrame.StreamErrorsExactly` | src/tun_ctl.rs:551-582 | the same for the stream reader, which looks at the version last |
| `CtlFrame.ReadersAgree` | src/tun_ctl.rs:520-582 | both readers accept the same bytes with the same body, and their errors differ exactly for a cut frame of a foreign version |
| `CtlFrame.CtlStreamReadsBack` | src/tun_ctl.rs:357-399 | any frames one behind the other read back as the same list |
| `CtlFrame.CtlStreamIsItsEncoding` | src/tun_ctl.rs:385-399 | a stream that reads to its end is exactly the encoding of what was read |
| `Socks5.EncodeTarget` | src/socks5.rs:73-97 | appends the header, or fails on a domain over 255 bytes and leaves the buffer alone |
| `Socks5.TargetLayout` | src/socks5.rs:73-97 | a header byte by byte: type 1, 4 or 3, address or length and host, port |
| `Socks5.ReadTarget` | src/socks5.rs:114-148 | the reader returns the specification's target and stops behind it, or fails |
| `Socks5.UnreadableExactly` | src/socks5.rs:114-148 | an address cannot be read exactly when it is cut short, of another type, or a host that is not a string |
| `Socks5.TargetReadsBack` | src/socks5.rs:73-148 | every target is read back whatever follows it; it comes back whole if and only if it has no flow label and scope |
| `Socks5.TargetOnlyEncoding` | src/socks5.rs:114-148 | the reader accepts nothing but encoded targets |
| `Socks5.HeaderStreamReadsBack` | src/socks5.rs:73-148 | any headers one behind the other read back as the same list |
| `Socks5.HeaderStreamIsItsEncoding` | src/socks5.rs:73-148 | its converse: headers read from a stream to its end encode to that stream |
| `Socks5.AcceptHandshake` | src/socks5.rs:164-256 | the handshake's target and every byte it replies, for all client bytes |
| `Socks5.RefusalsExactly` | src/socks5.rs:164-256 | what any client bytes are answered, refusal by refusal: nothing, 5 255, the method alone, code 7, code 8, or success |
| `Socks5.RequestIsAccepted` | src/socks5.rs:164-256 | every CONNECT request that offers no authentication is accepted with its target |
| `Socks5.HeaderRepeatsRequest` | src/socks5.rs:213-256 | whenever the handshake succeeds, the stream header of its target repeats the address bytes of that very request |
| `ByteStream.StreamReadsBack` | src/tun_roster.rs:119-162 | self-delimiting values written one behind the other are read back as the same list; the law all three wire formats instantiate |
| `ByteStream.StreamIsItsEncoding` | src/tun_roster.rs:119-162 | its converse |

## Left out

- QUIC, tokio scheduling, TUN devices and route commands: foreign; connections are queues, tasks are interleaved steps, time is a monotone clock input.
- Route installation failure (src/tun/hub.rs:577-583): the path that removes a claim without a Left is not modelled; installation succeeds.
- RosterLocks.LockUpExactly: says nothing of runs in which sessions of one peer overlap, where a stolen fan can take a send off a list; wait sets are permanent there too.
- The roster a spoke connects with: any map at all that does not list the spoke itself; that it is the one its last session ended with is stated in the concrete run only.
- The order of a broadcast's sends: the source sends to one fan after the other in the map's order (src/tun/hub.rs:115-118), the model to any that remains, which allows more runs. RosterLocks.LockUpExactly does not depend on it: its schedule serves one session at a time and works for whichever receiver comes next.
- `mesh_update` races: one update of a spoke's table is atomic here; the source loads, clones and stores (src/tun/spoke.rs:77-83).
- Snapshots of more than 4096 visible peers: convergence assumes the membership fits; the wire theorem says which entries remain.
- Ownership of direct links: their end removes by address without asking whose link it is (src/tun/spoke.rs:156-159), and the model does the same.
- Order in a session's outbound packet queue over whole runs: `HubPlane` keeps the order, the runs of the star say where packets are and not in which order they arrive.
- RosterTypes.ReadingKeepsTold: says nothing about the spoke's own id, which the code never inserts.
- Poisoned mutexes: the locks' fallbacks after a panic are not modelled.
- Duration overflow: delays are unbounded numbers capped at the maximum; doubling a delay near the type's limit would panic.
- `brief_help`, `normalize_lang`, `env_lang`: the first sentence of a help text and the choice of a language; nothing else here depends on them.
- HelpText.FindSoftBreak: positions count characters where the source counts bytes of UTF-8.
- Allocation: a catalog that announces billions of messages makes the source reserve memory before it fails; 32-bit targets could overflow descriptor offsets.
- UTF-8: lossy decoding of catalog strings and the validity of domain names are parameters.
- ShortCode.ParseEndpointToken: the key type's own parser and its validity check are parameters; the round trips speak of tokens that parser does not claim.
- JSON bodies and the response cap of 4096 peers in the control protocol: only frames and versions are modelled.
- Socks5.AcceptHandshake: replies can always be written; name resolution and dialling are not part of this model.
- The phone plane, identity encryption, address derivation, service installation and the command line.
- The tie-break `should_dial` and the dialling of direct links: a direct link is one step, possible at any time between any two peers; when it completes is restricted only where a theorem says so.
