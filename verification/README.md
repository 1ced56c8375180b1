# Verification of omnidiscover

A Dafny 4.11 model of the parts of omnidiscover where several structures must agree with each other,
with proofs about every input, every run or every interleaving. `dafny verify dfyconfig.toml` checks it.

- **Fusion store** (`TimingWheel`, `Slabs`, `Store`, `Fusion`, `DNSCache`, `Observe`, `Observations`,
  `Expiry`, `Text`, `Evidence`, `FusionState`). Three slabs with freelists, three hash indexes, ownership lists, two timing
  wheels threaded through the slots, and a cached maximum. `Stores.Store` says what a state is, with one
  invariant over all of it; the class `FusionStates.FusionState` does the operations in place, on arrays,
  maps and doubly linked wheels, and every method is proved to have the effect the store operation
  names. `Runs`, `LinkMerges`, `Completeness` and `TextRun` carry the invariant, exact expiry, index completeness
  and the bounds on text over whole runs, `CollidingRun` and `CollidingRecord` are
  such runs, and `QuietRepeat`, `QuietRefresh` and `MDNSRepeat` say when an observation heard again is silent.
  What each operation does is said a second time without the functions that do it: `Identity` (which device an
  observation is of), `MergeEffects` (what a merge keeps), `TextEffects` (a text merged), `Goodbyes` (records cached, renewed,
  flushed and dismissed), `Learned`, `LearnedMessages` and `LearnedRecords` (what each message leaves in device and link, and
  its event), `Departures` (which devices a tick takes) and `Reports` (all other events).
- **Capture filter** (`Bpf`, `DiscoveryFilter`, `Ethernet`, `FilterCoverage`, `Routing`). A classic-BPF interpreter, the
  labelled assembler, the generated filter, and the userspace decoders and router it must agree with.
- **Rule classifier** (`Classifier`, `Sorting`, `Bits`). Compiled, sorted and pruned by bitsets, against the rules
  as written.
- **Engine pipeline and stream queue** (`Pipeline`, `Accounting`, `StreamQueue`). Goroutines as steps over bounded channels,
  and the coalescing queue as a class with its history.
- **Bounded parsers and lookups** (`DNSName`, `MDNSMessage`, `Checksum`, `Vendor`).

Conventions. Time is whole nanoseconds and 0 is the zero time. Words are unbounded naturals, and every
wrap the source relies on is written out: 16-bit bucket entries, the 32-bit checksum accumulator, 8-bit
extension lengths, encoder length bytes. Sequences stand for slices, maps for Go maps, sets for protocol
and field sets. Functions the source takes from elsewhere (regular expressions, address prefixes, hashes of
record data, vendor names inside the store, protocol decoders inside the pipeline) are parameters.

Where the code and a natural reading of it part, the code is kept and the difference is a result:

- A merge that finds a link or record under the same key re-keys the loser and removes it, which takes the
  survivor's index entry along. Soundness of the index always holds; completeness is lost exactly then
  (`Stores.MergeLinkIndex`, `Completeness.MergeRecordIndex`); runs reach both cases (`CollidingRuns.LateAndLost`,
  `CollidingRecords.RecordLost`).
- A link merge schedules from the last sighting, so the surviving link can be visited late, never early.
  It is in time exactly when the links merged are timely (`LinkMerges.MergeInTime`, `Expiry.NeverEarly`), and
  a run of three MNDP messages shows one that is not (`CollidingRuns.LateAndLost`).
- README.md of the repository says that identifiers a payload claims never merge devices alone. Behind a source MAC
  that is not unicast, a claimed MAC does merge two devices, exactly when it and the frame's own address are both
  known (`Fusion.ClaimMerges`); in the run above device 1 goes that way.
- The Ethernet decoder takes its type from a SNAP header, so SNAP-wrapped LLDP and IP are routed but not let
  through by the filter (`FilterCoverage.RoutedFrameFilter`, `FilterCoverage.SnapWrappedLLDP`). The other way, the filter
  passes IPv6 with extension headers whatever is behind them, and the router drops what is for no enabled protocol
  (`Routing.AcceptedRouted`, `Routing.ExtensionsUnseen`).
- The populated-field mask can reject a rule that matches an empty service text (`Classification.MaskMatters`,
  `Classification.MaskRejects`).
- README.md of the repository says that identical refreshes emit no events. They do not while the device and a link
  as the message says it stand, whatever ticks came in between (`QuietRefreshes.SilentAfter`). For LLDP and CDP on the
  clock that is until the first tick at or after the deadline the message left (`QuietRefreshes.RefreshedLLDP`,
  `QuietRefreshes.RefreshedCDP`). MNDP with an uptime must besides be near its prediction, so an identical message must
  come within six seconds (`QuietRefreshes.RefreshedMNDP`, `QuietRefreshes.RefreshedIdenticalMNDP`). mDNS must besides
  find all its records (`MDNSRepeats.RefreshedMDNS`), which more than the cache holds never do
  (`MDNSRepeats.TooManyRecords`). After a colliding merge a refresh in time can be news (`CollidingRuns.LostRefresh`).

## Model

| member | source | states |
|---|---|---|
| `Timing.ScheduledRemaining` | pkg/omnidiscover/fusion.go:660-676 | for every wheel size of at least 1, slot and round chosen for t ticks are t ticks from firing |
| `Timing.TimingWheel.constructor` | pkg/omnidiscover/fusion.go:90-99 | a new wheel has no entry on any list |
| `Timing.TimingWheel.Schedule` | pkg/omnidiscover/fusion.go:660-676 | the entry is due after the rounded-up seconds, at least one; every other entry keeps its countdown and both-way links stay correct |
| `Timing.TimingWheel.Unschedule` | pkg/omnidiscover/fusion.go:678-692 | exactly this entry loses its countdown, also in the middle of a tick's walk, which goes on behind it |
| `Timing.TimingWheel.Advance` | pkg/omnidiscover/fusion.go:1519-1521 | one tick brings every entry one nearer, and the walk of the new slot holds every entry whose time is up |
| `Timing.TimingWheel.Reached` | pkg/omnidiscover/fusion.go:1521-1523 | the entry reached is due exactly when its countdown is 0; the successor is read before the entry can move |
| `Timing.TimingWheel.Skip` | pkg/omnidiscover/fusion.go:1524-1528 | taking one round off an entry passed over changes no countdown |
| `Timing.UnlinkThreaded` | pkg/omnidiscover/fusion.go:678-692 | the writes of an unlink keep every list threaded both ways, acyclic and complete |
| `Timing.PushThreaded` | pkg/omnidiscover/fusion.go:668-675 | so do the writes of an insertion at the head |
| `Slabs.ReleaseKeeps` | pkg/omnidiscover/fusion.go:596-617 | freeing a slot keeps index soundness and completeness and the partition of slots into used and free |
| `Slabs.RekeyKeeps` | pkg/omnidiscover/fusion.go:213-238 | re-keying a slot keeps soundness always, completeness when the new key was free |
| `Slabs.ReleaseAsKeeps` | pkg/omnidiscover/fusion.go:273-310 | a slot re-keyed to a taken key and removed costs the holder of that key, and nobody else, its index entry |
| `Slabs.MoveAllIndex` | pkg/omnidiscover/fusion.go:273-310 | of a whole list of moves: the slots run into, and no others, are lost from the index |
| `Slabs.Oldest` | pkg/omnidiscover/fusion.go:187-201 | the scan finds the least index among the least scores, -1 only when nothing is used |
| `Slabs.SwapRemoved` | pkg/omnidiscover/fusion.go:606-611 | removing an owned index by moving the last one into its place removes exactly that index and keeps the list free of duplicates |
| `Stores.RemoveLinkInv` | pkg/omnidiscover/fusion.go:596-617 | the invariant holds after a link removal, and the link index stays complete if it was |
| `Stores.RemoveDNSInv` | pkg/omnidiscover/fusion.go:833-860 | the invariant holds after a record removal, with the cached maximum right |
| `Stores.Latest` | pkg/omnidiscover/fusion.go:752-760 | the recomputed value is the maximum expiry over the used records of the list, 0 if there is none |
| `Stores.ShedLinkStep` | pkg/omnidiscover/fusion.go:624-627 | each pass of the removal loop strictly shrinks the list it empties |
| `Stores.RemoveDevice` | pkg/omnidiscover/fusion.go:619-639 | terminates, keeps the invariant, and frees exactly the device slot asked for |
| `Stores.AllocDevice` | pkg/omnidiscover/fusion.go:187-211 | never fails with positive limits; the slot is unused, reserved, and in range |
| `Stores.AllocDeviceVictim` | pkg/omnidiscover/fusion.go:187-211 | it evicts only when every slot is used, and then the least recently seen device and nothing else |
| `Stores.AddDeviceInv` | pkg/omnidiscover/fusion.go:172-184 | a device filled into a reserved slot under a new key keeps the invariant |
| `Stores.PromoteInv` | pkg/omnidiscover/fusion.go:213-238 | moving a device to a key no device has keeps the invariant and, because no link can carry that key yet, both complete indexes |
| `Stores.MoveLinkInv` | pkg/omnidiscover/fusion.go:273-290 | one pass of the merge's link loop keeps the invariant and shortens the source's list |
| `Stores.MoveRecordInv` | pkg/omnidiscover/fusion.go:291-310 | one pass of the record loop keeps the invariant of a store whose source device is being emptied |
| `Stores.MoveMaxima` | pkg/omnidiscover/fusion.go:291-310 | the cached maxima of all other devices stay right through a moved or dropped record |
| `Stores.MergeDevicesInv` | pkg/omnidiscover/fusion.go:240-320 | a merge terminates in an invariant state without the source device |
| `Stores.MergeLinkIndex` | pkg/omnidiscover/fusion.go:273-290 | from a complete index a merge loses exactly the entries of links it collides with: completeness survives if and only if no link collides |
| `Stores.MergedLinkTimed` | pkg/omnidiscover/fusion.go:559-594 | the merged link's protocols are those with a deadline and its expiry is the earliest |
| `Fusion.DeviceForInv` | pkg/omnidiscover/fusion.go:136-185 | identity resolution keeps the invariant, fails exactly for observations without identity, and otherwise ends on the device that has the observation's key; which key that is says `Identities.IdentityIs` |
| `Fusion.MergedAway` | pkg/omnidiscover/fusion.go:152-162 | a device slot is left empty by identity resolution exactly when two devices are merged, and it is that of the one known by address |
| `Fusion.ClaimMerges` | pkg/omnidiscover/fusion.go:136-162 | behind a source MAC that is not unicast, two devices become one if and only if a unicast MAC is claimed and both it and the frame's own address are known |
| `Fusion.DeviceForComplete` | pkg/omnidiscover/fusion.go:136-185 | the link index stays complete through identity resolution if and only if it makes no merge whose links collide |
| `Identities.IdentityIs` | pkg/omnidiscover/fusion.go:136-145 | the key of an observation: its source MAC if unicast, whatever is claimed; otherwise a claimed unicast MAC; otherwise the sender's address on its interface; otherwise the first valid address announced; none if there is none of these |
| `Identities.DeviceKeyed` | pkg/omnidiscover/fusion.go:136-185 | the device identity resolution ends on has that key; there is none, and nothing changes, exactly when there is no key |
| `Identities.DevicesAfter` | pkg/omnidiscover/fusion.go:136-185 | which slot that is: of the device of the key, otherwise of the one known by the sender's address, otherwise of a newcomer of which nothing is known; every other device keeps its key and evidence, but one merged away or evicted |
| `MergeEffects.MergeKnows` | pkg/omnidiscover/fusion.go:240-327 | after a merge the device has exactly the MACs, addresses, protocols and capabilities either had, the later valid uptime, the earlier first and the later last sighting, and texts of the two only, all of them where there is room; the other is gone and the rest are as they were |
| `MergeEffects.MergedLinkTogether` | pkg/omnidiscover/fusion.go:559-594 | a merged link has the protocols, later deadlines and VLANs of both, is physical if either is, and keeps the rest |
| `MergeEffects.MergeLeavesLinks` | pkg/omnidiscover/fusion.go:273-290 | which links are left and what each says, given the collisions, in any store |
| `MergeEffects.MergeJoinsLinks` | pkg/omnidiscover/fusion.go:273-290 | with a complete index: links of the two on the same interface and from the same source become one; all others stay, as they were but for their device |
| `MergeEffects.MergeKeepsRecords` | pkg/omnidiscover/fusion.go:291-310 | with a complete index: a record both had is kept once, all others pass to the device |
| `Fusion.RefreshedTimed` | pkg/omnidiscover/fusion.go:471-510 | a refreshed link's protocols are those with a deadline and its expiry is the earliest |
| `Fusion.RefreshLinkInv` | pkg/omnidiscover/fusion.go:471-510 | a refresh keeps the invariant |
| `Fusion.AllocLinkInv` | pkg/omnidiscover/fusion.go:533-557 | link allocation never fails, and changes no other link's key, no device and no record |
| `Fusion.AllocLinkVictim` | pkg/omnidiscover/fusion.go:533-557 | it evicts only when every slot is used, and then the least recently seen link and nothing else |
| `Fusion.AllocLinkStep` | pkg/omnidiscover/fusion.go:538-556 | an eviction happens with every link slot used, and leaves exactly the evicted slot free |
| `Fusion.UpsertLinkInv` | pkg/omnidiscover/fusion.go:411-469 | refresh, promotion or insertion: the invariant and the completeness of the index are kept and the link returned is used |
| `DNSCache.SetDNSExpiryInv` | pkg/omnidiscover/fusion.go:736-750 | raising, lowering or keeping one expiry keeps the invariant |
| `DNSCache.NewMaximum` | pkg/omnidiscover/fusion.go:736-760 | every cached maximum stays the maximum when one expiry changes |
| `DNSCache.AllocDNSInv` | pkg/omnidiscover/fusion.go:807-831 | record allocation never fails and touches no surviving record |
| `DNSCache.AllocDNSStep` | pkg/omnidiscover/fusion.go:812-830 | it evicts only when every record slot is used, and leaves exactly the evicted slot free |
| `DNSCache.CacheDNSInv` | pkg/omnidiscover/fusion.go:694-734 | a cached record leaves every record of another key as it was; what becomes of its own says `Goodbyes` |
| `DNSCache.FlushSetInv` | pkg/omnidiscover/fusion.go:1402-1434 | after a flush every record of the set is settled; only expiries moved, and only to a second from now |
| `DNSCache.ProcessRecordInv` | pkg/omnidiscover/fusion.go:1333-1361 | one record of a message keeps the invariant and everything settled so far, evictions included |
| `DNSCache.MessageSettles` | pkg/omnidiscover/fusion.go:1333-1361 | after a whole message every cached record of a flushed set is announced by key, or was received in the last second, or expires within one (section 10.2 of RFC 6762) |
| `Goodbyes.RecordInserted` | pkg/omnidiscover/fusion.go:694-734 | a record with a lifetime not yet cached is cached as it came, its device's, for its lifetime, in ticks as in time |
| `Goodbyes.RecordRefreshed` | pkg/omnidiscover/fusion.go:694-717 | a cached one keeps its slot and takes on lifetime, flush bit, expiry and countdown |
| `Goodbyes.GoodbyeNoted` | pkg/omnidiscover/fusion.go:699-706 | the goodbye of a cached record leaves it one second and one tick; that of an unknown one does nothing |
| `Goodbyes.FlushExact` | pkg/omnidiscover/fusion.go:1402-1434 | a flush leaves exactly the stale records of its set a second, and every other as it was |
| `Goodbyes.MessageGoodbye` | pkg/omnidiscover/fusion.go:1297-1400 | after an mDNS message whose last word on a record is a goodbye, the record is gone or leaves on the next tick |
| `Goodbyes.LeftBehind` | pkg/omnidiscover/fusion.go:1554-1576 | and after that tick it is not found, whatever the clock says (section 10.1 of RFC 6762) |
| `Observations.ConcludeInv` | pkg/omnidiscover/fusion.go:1066-1107 | the common end of an observation keeps the invariant, the records, and a complete link index |
| `Observations.ObservedInv` | pkg/omnidiscover/fusion.go:1013-1295 | any LLDP, CDP or MNDP observation in a reachable state leads to a reachable state |
| `Observations.RecordedInv` | pkg/omnidiscover/fusion.go:1297-1372 | identity and records of an mDNS message keep the invariant and leave every flushed set settled |
| `Observations.ObservedMDNSInv` | pkg/omnidiscover/fusion.go:1297-1400 | the whole mDNS observation keeps the invariant, and after it, whatever its link evicted, every cached record of a flushed set is announced, just received, or expires within a second (section 10.2 of RFC 6762) |
| `Observations.MDNSLinkHeld` | pkg/omnidiscover/fusion.go:1372-1382 | the refreshed link's mDNS deadline is the later of the device's last record expiry and now plus one second |
| `Learned.UpsertLeaves` | pkg/omnidiscover/fusion.go:411-510 | the link an observation ends on, by key or else the first of the other kind on the interface or else new; its protocol, deadline, kind, VLANs and sightings; that no other link changes; and exactly when it is new or changed |
| `Learned.AllGained` | pkg/omnidiscover/fusion.go:1027-1066 | the evidence of a message adds exactly the MACs, addresses, capabilities and protocol it names |
| `Learned.TextTaken` | pkg/omnidiscover/fusion.go:1055-1057 | each text it speaks of is merged into what the device had of it |
| `Learned.ToldNews` | pkg/omnidiscover/fusion.go:1070-1096 | a message is news about a link exactly if it changes an identifier or VLAN, or its interface name is news |
| `Learned.ObservedLearns` | pkg/omnidiscover/fusion.go:1066-1108 | any LLDP, CDP or MNDP observation: device, link and event; Added exactly if device or link is new, otherwise Changed if a field differs, with exactly those fields, and none otherwise; last sighting at least the message's time |
| `LearnedMessages.LLDPLearned` | pkg/omnidiscover/fusion.go:1013-1108 | what an LLDP message leaves: chassis and port on its link, a chassis MAC other than the source as a claim, vendors, addresses, system name, capabilities, VLANs |
| `LearnedMessages.CDPLearned` | pkg/omnidiscover/fusion.go:1110-1203 | what a CDP message leaves: its platform as platform and as model, device and port as locally assigned identifiers, both lists of addresses |
| `LearnedMessages.MNDPLearned` | pkg/omnidiscover/fusion.go:1205-1295 | what an announcement leaves: its board as model above other models, zoned addresses, and the announced uptime |
| `LearnedMessages.RefreshRequest` | pkg/omnidiscover/fusion.go:1205-1208 | a refresh request teaches nothing and says nothing |
| `LearnedRecords.MDNSIdentity` | pkg/omnidiscover/fusion.go:1297-1310 | an mDNS message is of the device that the addresses of all its records would name, where neither frame nor sender do |
| `LearnedRecords.MDNSLearned` | pkg/omnidiscover/fusion.go:1297-1400 | what an mDNS message leaves and reports: the sender's and all hosts' addresses, host names merged in order, a link held until the last record expires; Added exactly for a new device or link, and exactly the fields that differ |
| `Text.MergeKeepsText` | pkg/omnidiscover/fusion.go:329-389 | merging keeps the values distinct and non-empty, at most max of them beside the canonical one, and the canonical index on a value none outranks |
| `TextRuns.RunTexts` | pkg/omnidiscover/fusion.go:322-409 | in every run every text field of every device and link holds distinct non-empty texts, at most the configured alternatives beside a canonical one that none outranks |
| `Text.MergeFieldKeepsText` | pkg/omnidiscover/fusion.go:322-327 | so does merging one whole field into another |
| `Text.CanonicalStable` | pkg/omnidiscover/fusion.go:329-409 | the canonical value changes only to the merged text, and only if that strictly outranks it |
| `TextEffects.MergeLeaves` | pkg/omnidiscover/fusion.go:329-409 | every merge of a text: said again, one more, in place of the weakest that is not canonical, longest unheard first, or not at all; and which value is canonical then |
| `Text.RepeatQuiet` | pkg/omnidiscover/fusion.go:329-389 | the same text again, at any later time, is no change |
| `Text.TextCell.Merge` | pkg/omnidiscover/fusion.go:329-389 | the in-place loops compute the merged field and whether it changed |
| `Text.TextCell.Select` | pkg/omnidiscover/fusion.go:393-409 | the in-place scan finds the canonical value |
| `Evidence.TakeAll` | pkg/omnidiscover/fusion.go:1027-1066 | the evidence of a message, merged piece by piece, ends in the folded device and the fields it changed |
| `Evidence.TakeLinkAll` | pkg/omnidiscover/fusion.go:1070-1096 | the evidence about a link, piece by piece |
| `Evidence.TakeInfo` | pkg/omnidiscover/fusion.go:246-272 | the evidence of one device merged into another, field by field and value by value, ends in what `MergeEffects.MergeKnows` says of it |
| `Evidence.TakeHost` | pkg/omnidiscover/fusion.go:1351-1361 | the host an address record names |
| `QuietRepeat.ResolvedAgain` | pkg/omnidiscover/fusion.go:136-185 | an observation resolved once resolves to the same device again, changing nothing |
| `QuietRepeat.ObservedAbsorbs` | pkg/omnidiscover/fusion.go:1013-1108 | after an observation all its evidence is known to the device and its link |
| `QuietRepeat.RepeatedObservation` | README.md:210-211 | the same observation, heard again before any tick, emits no event and takes no slot, across identity, text, link and classification |
| `QuietRepeat.RepeatedLLDP` | pkg/omnidiscover/fusion.go:1013-1108 | in particular an LLDP message, before any tick |
| `QuietRepeat.RepeatedCDP` | pkg/omnidiscover/fusion.go:1110-1203 | and a CDP message |
| `QuietRepeat.RepeatedMNDP` | pkg/omnidiscover/fusion.go:1205-1295 | an MNDP message that says no uptime, or one within five seconds of the prediction, is silent when heard again before any tick |
| `QuietRepeat.SilentMNDP` | pkg/omnidiscover/fusion.go:1462-1483 | an identified announcement heard again with any uptime, before any tick, is silent if and only if that is within five seconds of the prediction |
| `QuietRepeat.IdenticalMNDP` | pkg/omnidiscover/fusion.go:1462-1483 | so the identical message, before any tick, is silent if and only if it comes within six seconds |
| `QuietRepeat.OffPredictionReports` | pkg/omnidiscover/fusion.go:1462-1483 | an uptime off the prediction makes an event that names it |
| `MDNSRepeats.RecordsNews` | pkg/omnidiscover/fusion.go:1328-1367 | a message changes a field exactly if one of its records is not remembered: not cached, or naming a host that is news |
| `QuietRefreshes.AcquaintedSilent` | pkg/omnidiscover/fusion.go:1013-1108 | a message from a device that knows all it says is silent if and only if the link it falls on, by key or by scan, is there, carries its protocol and is as it says |
| `QuietRefreshes.StrangerEmits` | pkg/omnidiscover/fusion.go:172-184 | an observation of an unknown device always makes an event |
| `QuietRefreshes.TickEbbs` | pkg/omnidiscover/fusion.go:1519-1591 | a tick adds no device, link or index entry, and of those it leaves changes nothing but the deadlines of links |
| `QuietRefreshes.SilentAfter` | README.md:210-211 | a message heard again after any stretch of ticks, on any clock, is silent if and only if its device is still there and a link is found as it says |
| `QuietRefreshes.ClockClears` | pkg/omnidiscover/fusion.go:1519-1553 | over any stretch of a one-second clock a deadline stands exactly until the first tick at or after it |
| `QuietRefreshes.RefreshBeforeDeadline` | README.md:210-211 | in a store whose indexes are complete, a refresh of a link under its own key is silent as long as no tick has reached the deadline, on any clock |
| `QuietRefreshes.PhysicalRefresh` | README.md:210-211 | on the clock, with complete indexes and no colliding merge, a physical observation heard again any number of ticks later is silent if and only if it identifies no device or no tick has come at or after its deadline |
| `QuietRefreshes.RunClocked` | pkg/omnidiscover/fusion.go:1519-1591 | every run on the clock without colliding merges provides what that asks for |
| `QuietRefreshes.RefreshedLLDP` | pkg/omnidiscover/fusion.go:1013-1108 | so an LLDP message is silent exactly until the first tick at or after its time to live |
| `QuietRefreshes.RefreshedCDP` | pkg/omnidiscover/fusion.go:1110-1203 | and a CDP message |
| `QuietRefreshes.RefreshedMNDP` | pkg/omnidiscover/fusion.go:1205-1295 | an identified MNDP message heard again any number of ticks later, with any uptime: silent if and only if the uptime is within five seconds of the prediction, and device and link stand |
| `QuietRefreshes.RefreshedIdenticalMNDP` | pkg/omnidiscover/fusion.go:1462-1483 | so the identical message with an uptime is silent if and only if it comes within six seconds, and device and link stand |
| `MDNSRepeats.RefreshedMDNS` | pkg/omnidiscover/fusion.go:1297-1400 | an identified mDNS message heard again any number of ticks later is silent if and only if device and link stand, every record with a lifetime is cached, and no host name would be listed anew |
| `MDNSRepeats.RecordsDecide` | pkg/omnidiscover/fusion.go:1372-1400 | while no tick has reached the link's deadline, which is that of the device's last record and at least a second away, only the records matter: complete indexes, a link under its own key |
| `MDNSRepeats.SilentMDNS` | pkg/omnidiscover/fusion.go:1297-1400 | and before any tick, only the records |
| `MDNSRepeats.TooManyRecords` | pkg/omnidiscover/fusion.go:807-831 | a message of more distinct records with a lifetime than the cache holds is never silent, however soon or late it is heard again |
| `MDNSRepeats.RoomEnough` | pkg/omnidiscover/fusion.go:694-734 | with a free slot for every record and a free alternative for every host name, it is silent when heard again before any tick |
| `Expiry.AgedTimed` | pkg/omnidiscover/fusion.go:1531-1547 | clearing past deadlines leaves protocols and deadlines in agreement |
| `Expiry.ExpireLinkInv` | pkg/omnidiscover/fusion.go:1529-1553 | the visit of a due link keeps the invariant and a complete index, and leaves records alone; which device goes with it says `Departures.TickDevices` |
| `Expiry.TickLinks` | pkg/omnidiscover/fusion.go:1519-1553 | a tick ages exactly the links whose countdown was 1, by exactly their past deadlines, and removes exactly those left with none |
| `Expiry.NeverEarly` | pkg/omnidiscover/fusion.go:1531-1547 | no tick, whatever the clock says and whatever was merged before, clears a deadline that is still ahead |
| `Expiry.TickInTime` | pkg/omnidiscover/fusion.go:1519-1553 | with a tick a second, each deadline is cleared if and only if the tick is at or after it |
| `Expiry.TickRecords` | pkg/omnidiscover/fusion.go:1555-1576 | a record leaves on exactly the tick its countdown names, whatever the clock says |
| `Expiry.RecordLifetime` | pkg/omnidiscover/fusion.go:694-717 | over any stretch of ticks a record scheduled n ahead is cached before the n-th and gone from it on: a goodbye, scheduled one ahead by `Goodbyes.GoodbyeNoted`, lasts one tick unless rescued (section 10.1 of RFC 6762) |
| `Departures.TickDevices` | pkg/omnidiscover/fusion.go:1519-1591 | a tick takes a device if and only if a link or record of it leaves in that tick and it owns none afterwards; the others keep key and evidence |
| `Reports.AgedMeans` | pkg/omnidiscover/fusion.go:1531-1547 | a due link loses exactly its past deadlines and their protocols; its time to live is counted to the last one ahead |
| `Reports.TickReports` | pkg/omnidiscover/fusion.go:1519-1591 | all a tick says, in order: of each due link that it is gone or changed, then of each device that lost a record and still has a link that its services changed |
| `Reports.AllocReports` | pkg/omnidiscover/fusion.go:187-211 | evicting a device says of each of its links that it is gone |
| `Reports.IdentityReports` | pkg/omnidiscover/fusion.go:136-185 | identity resolution says what a merge or an eviction in it says, and otherwise nothing |
| `Reports.MergeReports` | pkg/omnidiscover/fusion.go:240-320 | a merge says of each link that takes another in that it changed, and nothing else |
| `Runs.EmptyInv` | pkg/omnidiscover/fusion.go:72-101 | a new store satisfies the invariant, with complete indexes |
| `Runs.DoInv` | pkg/omnidiscover/fusion.go:1013-1591 | every observation and every tick keeps the invariant |
| `Runs.Run` | pkg/omnidiscover/fusion.go:72-1591 | so every state of every run satisfies it |
| `LinkMerges.MergedOnTime` | pkg/omnidiscover/fusion.go:591-593 | a merged link is still visited in time if and only if, counted from when the two were last seen, the wheel comes round no later than counted from the last tick |
| `LinkMerges.MergeInTime` | pkg/omnidiscover/fusion.go:240-320 | a device merge leaves every link in time if and only if the pairs of links it merges are so timely |
| `LinkMerges.TimelyAlike` | pkg/omnidiscover/fusion.go:273-289 | while the link index is complete these are the pairs with the same interface and source MAC |
| `LinkMerges.SeenTimely` | pkg/omnidiscover/fusion.go:591-593 | in particular links seen since the last tick are |
| `Slabs.CollisionsAlike` | pkg/omnidiscover/fusion.go:280-284 | from a complete index a list of moves collides exactly with the slots whose key a moved slot takes |
| `Runs.DeviceForInTime` | pkg/omnidiscover/fusion.go:136-185 | identity resolution leaves every link in time if and only if any links it merges are timely |
| `Runs.ObservedInTime` | pkg/omnidiscover/fusion.go:471-521 | an observation between two ticks that merges only timely links leaves every link to be visited in time (not only then: a refresh in the same step can bring a late link back) |
| `Runs.ObservedMDNSInTime` | pkg/omnidiscover/fusion.go:1297-1400 | the same for mDNS |
| `Runs.RunInTime` | pkg/omnidiscover/fusion.go:1519-1553 | in every state of every run on a one-second clock, with timely link merges, every deadline is ahead and every link will be visited in time |
| `Runs.RunClears` | pkg/omnidiscover/fusion.go:1519-1553 | so each deadline is cleared by exactly the first tick at or after it |
| `CollidingRuns.LateAndLost` | pkg/omnidiscover/fusion.go:559-617 | a run of three MNDP messages, the last of which leaves one device of two: from then on a link is not found under its key, and the tick at its deadline leaves it |
| `CollidingRuns.LostRefresh` | pkg/omnidiscover/fusion.go:596-617 | that run goes on: the tick that removes the late link takes the entry of both along, and the third message heard again is news half a second later, its own link still good |
| `CollidingRecords.RecordLost` | pkg/omnidiscover/fusion.go:291-310 | a run of two mDNS messages and an MNDP message: whatever record both devices announced, after their merge the index of records is no longer complete |
| `CollidingRecords.TwinsCollide` | pkg/omnidiscover/fusion.go:296-306 | a record two devices are known for collides when they are merged |
| `Completeness.MergeRecordIndex` | pkg/omnidiscover/fusion.go:291-310 | a merge loses exactly the record index entries it collides with: completeness survives if and only if no record collides |
| `Completeness.IdentityWhole` | pkg/omnidiscover/fusion.go:136-185 | identity resolution keeps both indexes complete if and only if it makes no colliding merge |
| `Completeness.DoWhole` | pkg/omnidiscover/fusion.go:1013-1591 | every step but a colliding merge keeps both indexes complete (a step with one may still end complete, its own link taking up or evicting the lost one) |
| `Completeness.RunWhole` | pkg/omnidiscover/fusion.go:411-469 | in every run without a colliding merge every used link and record is found under its key |
| `FusionStates.FusionState.constructor` | pkg/omnidiscover/fusion.go:72-101 | arrays, freelists and wheels start as the empty store |
| `FusionStates.FusionState.RemoveLink` | pkg/omnidiscover/fusion.go:596-617 | the in-place removal is the store's; the other wheel and the rest of the walk are untouched |
| `FusionStates.FusionState.RemoveDNS` | pkg/omnidiscover/fusion.go:833-860 | likewise for a record, with the maximum recomputed when it was this record's |
| `FusionStates.FusionState.RecomputeDNSExpiry` | pkg/omnidiscover/fusion.go:752-760 | the scan writes the maximum over the device's used records |
| `FusionStates.FusionState.RemoveDevice` | pkg/omnidiscover/fusion.go:619-639 | both loops, then the device: the store's removal |
| `FusionStates.FusionState.AllocDevice` | pkg/omnidiscover/fusion.go:187-211 | the scan evicts the store's choice and returns its slot |
| `FusionStates.FusionState.AllocLink` | pkg/omnidiscover/fusion.go:533-557 | likewise for links, by last sighting |
| `FusionStates.FusionState.AllocDNS` | pkg/omnidiscover/fusion.go:807-831 | likewise for records, by expiry |
| `FusionStates.FusionState.PromoteDevice` | pkg/omnidiscover/fusion.go:213-238 | the loops over links and records give the promoted store |
| `FusionStates.FusionState.MergeLinks` | pkg/omnidiscover/fusion.go:559-594 | evidence absorbed, survivor rescheduled from its last sighting, the other link removed |
| `FusionStates.FusionState.MoveLink` | pkg/omnidiscover/fusion.go:273-290 | one pass of the merge over links, colliding or not |
| `FusionStates.FusionState.MoveRecord` | pkg/omnidiscover/fusion.go:291-310 | one pass of the merge over records |
| `FusionStates.FusionState.MergeDevices` | pkg/omnidiscover/fusion.go:240-320 | the whole merge, in place, is the store's merge, of which `MergeEffects` and `Reports.MergeReports` say the effect |
| `FusionStates.FusionState.DeviceFor` | pkg/omnidiscover/fusion.go:136-185 | found, merged, promoted, new, or no identity: as the store says, and `Identities.DevicesAfter` of it |
| `FusionStates.FusionState.RefreshLink` | pkg/omnidiscover/fusion.go:471-510 | the link is refreshed and rescheduled, and the result tells exactly whether anything but times changed |
| `FusionStates.FusionState.FindLink` | pkg/omnidiscover/fusion.go:418-451 | the scan returns the first used link on the interface and of the kind |
| `FusionStates.FusionState.UpsertLink` | pkg/omnidiscover/fusion.go:411-469 | the link, whether it changed and whether it is new, as the store says |
| `FusionStates.FusionState.SetDNSExpiry` | pkg/omnidiscover/fusion.go:736-750 | expiry, wheel and cached maximum |
| `FusionStates.FusionState.CacheDNS` | pkg/omnidiscover/fusion.go:694-734 | goodbye, refresh or insertion, with the effect that `Goodbyes` states, and whether a record was inserted |
| `FusionStates.FusionState.FlushDNSSet` | pkg/omnidiscover/fusion.go:1402-1434 | the loop over the device's records flushes as the store does |
| `FusionStates.FusionState.Observe` | pkg/omnidiscover/fusion.go:1013-1295 | a whole LLDP, CDP or MNDP observation in place ends in the store's state and keeps the invariant |
| `FusionStates.FusionState.ObserveMNDP` | pkg/omnidiscover/fusion.go:1205-1208 | an MNDP refresh request is ignored, any other message observed |
| `FusionStates.FusionState.ObserveMDNS` | pkg/omnidiscover/fusion.go:1297-1400 | a whole mDNS observation likewise |
| `FusionStates.FusionState.ClearPast` | pkg/omnidiscover/fusion.go:1531-1537 | the loop over protocols clears exactly the past deadlines |
| `FusionStates.FusionState.ExpireLink` | pkg/omnidiscover/fusion.go:1529-1553 | the visit unlinks the entry and may put it back at the head of the list being walked; the rest of the walk is kept; links, devices and events after it as in `Expiry.TickLinks`, `Departures.TickDevices` and `Reports.TickReports` |
| `FusionStates.FusionState.ExpireDueLinks` | pkg/omnidiscover/fusion.go:1519-1553 | the in-place walk visits exactly the links that are due, each once |
| `FusionStates.FusionState.ExpireDueRecords` | pkg/omnidiscover/fusion.go:1554-1576 | the walk removes exactly the due records and collects their devices, each once |
| `FusionStates.FusionState.Tick` | pkg/omnidiscover/fusion.go:1519-1591 | a whole tick visits exactly what is due, each once, and ends in the store's state with the invariant, so with the links, devices, records and events that `Expiry`, `Departures` and `Reports` state |
| `FusionStates.LinkStrikes` | pkg/omnidiscover/fusion.go:280-289 | re-keying a link to a taken key and removing it is the store's colliding move: the survivor's entry goes with it |
| `Bpf.RunFilter` | pkg/omnidiscover/filter_test.go:8-70 | the interpreter loop computes the program's value on a packet |
| `Bpf.FilterBuilder.Emit` | pkg/omnidiscover/capture_common.go:73-73 | an emitted instruction extends the meaning of the program so far by its effect, for every packet |
| `Bpf.FilterBuilder.Jump` | pkg/omnidiscover/capture_common.go:75-78 | a jump extends it by a branch to two labels |
| `Bpf.FilterBuilder.Mark` | pkg/omnidiscover/capture_common.go:72-72 | marking a label lands the runs that went to it |
| `Bpf.FilterBuilder.Resolve` | pkg/omnidiscover/capture_common.go:173-185 | resolving succeeds exactly when every jump is a forward distance within 255, and then the patched program means what the labelled one meant, on every packet |
| `DiscoveryFilter.TagGuard` | pkg/omnidiscover/capture_common.go:80-89 | the guard falls through exactly behind the given number of VLAN tags |
| `DiscoveryFilter.EmitProtocolPath` | pkg/omnidiscover/capture_common.go:91-139 | one path has the structured effect declared for its protocol and depth, within the jump range |
| `DiscoveryFilter.PathAtDepth` | pkg/omnidiscover/capture_common.go:91-139 | behind a packet's own tags only the path that fits its type field decides; X is still 0 for every other |
| `DiscoveryFilter.FilterAccepts` | pkg/omnidiscover/capture_common.go:23-62 | all paths in order return snaplen for exactly the declared packets |
| `DiscoveryFilter.BuildFilter` | pkg/omnidiscover/capture_common.go:19-65 | the panic is unreachable and the resolved filter returns snaplen for exactly the accepted packets, 0 for all others, for every packet and protocol set |
| `Ethernet.DecodeEthernetFrame` | pkg/omnidiscover/ethernet.go:42-108 | the offset-advancing loop decodes the frame behind 0 to 3 tags, or reports the first fault |
| `Ethernet.WalkExtensions` | pkg/omnidiscover/ethernet.go:166-203 | the bounded walk over IPv6 extension headers, with the length additions wrapping at 8 bits |
| `Ethernet.DecodeUDP` | pkg/omnidiscover/ethernet.go:113-224 | succeeds with exactly the datagram a payload carries: ports, lengths and addresses where the headers put them, behind an IPv4 header in one piece or at most eight chained IPv6 extension headers; otherwise the first fault |
| `Ethernet.UDPStands` | pkg/omnidiscover/ethernet.go:113-224 | the decoder finds a datagram exactly where one is |
| `FilterCoverage.RoutedFrameFilter` | pkg/omnidiscover/engine.go:315-346 | a frame the router queues passes the filter if and only if it is not in a SNAP wrapper or is queued as CDP; any tags, any protocol set; which frames it queues says `Routing.RouterAnswers` |
| `FilterCoverage.SnapWrappedLLDP` | pkg/omnidiscover/ethernet.go:94-94 | an LLDP frame in a SNAP wrapper: queued by the router, refused by the filter |
| `FilterCoverage.InstalledFilter` | pkg/omnidiscover/capture_common.go:19-65 | the filter as built and resolved returns snaplen for every queued Ethernet II or Cisco CDP frame |
| `Routing.FrameStands` | pkg/omnidiscover/ethernet.go:42-108 | a frame is decoded exactly where one stands, by positions, tags and lengths |
| `Routing.RouterAnswers` | pkg/omnidiscover/engine.go:302-348 | the router queues a packet as a protocol with a payload if and only if the protocol is enabled and the packet carries it: LLDP by type, CDP by SNAP header, MNDP and mDNS by port, mDNS first; and nothing if and only if it carries none |
| `Routing.AcceptedRouted` | pkg/omnidiscover/capture_common.go:19-65 | of the packets that decode and pass the filter, the router queues all but IP that carries no whole datagram, and IPv6 with extension headers whose datagram is for no enabled protocol |
| `Routing.ExtensionsUnseen` | pkg/omnidiscover/capture_common.go:164-171 | a packet that passes the filter for its extension header, is decoded, and is not queued |
| `Classification.CompileClassifier` | pkg/omnidiscover/classifier.go:93-149 | succeeds exactly for at most 256 named, valid rules with at most 128 regexps; otherwise blames the first rule that cannot be added; every rule is there once, best first, and the tables are ready for every protocol set |
| `Classification.CompilePredicates` | pkg/omnidiscover/classifier.go:151-212 | accepts exactly the valid predicates within the regexp budget, and keeps each as often as it was there, cheapest first |
| `Classification.Candidates` | pkg/omnidiscover/classifier.go:133-147 | a bit is set for exactly the rules a protocol set does not rule out, in four 64-bit words |
| `Classification.Required` | pkg/omnidiscover/classifier.go:117-121 | a bit for exactly the text fields All speaks of |
| `Classification.MACPrefixMatch` | pkg/omnidiscover/classifier.go:344-355 | whole bytes and a mask: true exactly when the leading bits agree |
| `Classification.MatchPredicate` | pkg/omnidiscover/classifier.go:309-342 | matching a compiled predicate is what the predicate as written says of the device |
| `Classification.PopulatedTextFields` | pkg/omnidiscover/classifier.go:259-289 | a bit for exactly the fields the device has text in |
| `Classification.ImpossibleRule` | pkg/omnidiscover/classifier.go:133-147 | a rule the protocol table leaves out cannot be eligible |
| `Classification.ScanWord` | pkg/omnidiscover/classifier.go:240-255 | clearing lowest set bits visits the candidates in order: the first accepted one, or none |
| `Classification.Classify` | pkg/omnidiscover/classifier.go:234-257 | returns class and name of the best eligible rule by priority, specificity and declaration order, and nothing exactly when none is eligible |
| `Classification.BestIsOne` | pkg/omnidiscover/classifier.go:124-132 | there is at most one best rule |
| `Classification.MaskMatters` | pkg/omnidiscover/classifier.go:247-247 | the populated-field mask rejects a satisfied rule if and only if All speaks of a service field the device has no text in; it is redundant for the six named text fields |
| `Classification.EmptyTextOnly` | pkg/omnidiscover/classifier.go:259-289 | and then some predicate of All accepts the empty text |
| `Classification.AgreesWithPlainScan` | pkg/omnidiscover/classifier.go:234-257 | classification agrees with a plain scan exactly when the winner of the scan is not so blocked |
| `Classification.MaskRejects` | pkg/omnidiscover/classifier.go:277-287 | a rule and a device on which the mask and a plain scan disagree |
| `Sorting.SortSorts` | pkg/omnidiscover/classifier.go:124-132 | the stable insertion sort sorts |
| `Sorting.SortPermutes` | pkg/omnidiscover/classifier.go:124-132 | and keeps every element as often as it was there |
| `Bits.ClearLowest` | pkg/omnidiscover/classifier.go:241-242 | a and a-1 is a without its lowest set bit |
| `Pipeline.StepPlaced` | pkg/omnidiscover/engine.go:349-378 | every packet slot is in exactly one of the pool, a queue, a backend's hands or a worker's hands, after every step |
| `Pipeline.StepShaken` | pkg/omnidiscover/engine.go:243-246 | an unacknowledged envelope is in exactly one place, and belongs to a worker that awaits it |
| `Pipeline.StepCarried` | pkg/omnidiscover/engine.go:213-254 | packets pass from queue to fusion in order and unaltered: neither the slot nor the message buffer is rewritten before fusion has read it |
| `Pipeline.StepOrdered` | pkg/omnidiscover/engine.go:177-189 | queues close after the backends, decoded after the workers, fusion ends last |
| `Pipeline.StepInv` | pkg/omnidiscover/engine.go:213-378 | every step of every goroutine keeps the whole invariant |
| `Pipeline.StartInv` | pkg/omnidiscover/engine.go:100-115 | the engine starts in it |
| `Pipeline.SendsGoThrough` | pkg/omnidiscover/engine.go:243-252 | releasing a slot, sending an envelope and acknowledging never block |
| `Pipeline.ClosedLast` | pkg/omnidiscover/engine.go:177-189 | no send meets a closed channel, and the message fusion reads belongs to a waiting worker |
| `Pipeline.RunInv` | pkg/omnidiscover/engine.go:119-199 | all of this holds in every state of every interleaving |
| `Pipeline.NothingLost` | pkg/omnidiscover/engine.go:177-199 | when Run has returned, per protocol routed = malformed + ignored + fused, fusion has read exactly the usable packets in routing order, and every slot is back in the pool |
| `Accounting.StepDrops` | pkg/omnidiscover/engine.go:349-372 | a packet is dropped, and counted, exactly if it is too long, every slot is taken, or its queue is full; otherwise it is queued last and as captured |
| `Accounting.AllAccounted` | pkg/omnidiscover/engine.go:177-199 | when Run has returned, every packet of a protocol handed to it was turned away for one of these reasons, malformed, ignored or fused |
| `Pipeline.StepWorks` | pkg/omnidiscover/engine.go:167-199 | every step but a capture and a tick strictly reduces the work left |
| `Pipeline.ShutdownGoesOn` | pkg/omnidiscover/engine.go:167-199 | once cancelled, until Run returns, such a step can always be taken: shutdown does not deadlock |
| `StreamQueue.CoalescedMeans` | pkg/omnidiscover/stream.go:35-44 | a coalesced event has the contents of its last view and the union of all changes |
| `StreamQueue.CoalescedKind` | pkg/omnidiscover/stream.go:38-40 | its kind is settled by the last view that is more than a change: an unseen addition survives later changes |
| `StreamQueue.OwnedStreamQueue.constructor` | pkg/omnidiscover/stream.go:21-23 | an empty queue |
| `StreamQueue.OwnedStreamQueue.Enqueue` | pkg/omnidiscover/stream.go:25-59 | coalesced, dropped when full, or appended: what waits, its batches of views and the counts, in every case |
| `StreamQueue.OwnedStreamQueue.Pop` | pkg/omnidiscover/stream.go:61-75 | the oldest waiting key leaves with everything said of it since it last left; the key list holds exactly the pending keys, each once, in the order their batches began |
| `StreamQueue.OwnedStreamQueue.Compact` | pkg/omnidiscover/stream.go:77-83 | compaction changes nothing that waits |
| `StreamQueue.OwnedStreamQueue.OrderBounded` | pkg/omnidiscover/stream.go:77-83 | the key list never exceeds max(1024, max) + max |
| `StreamQueue.OwnedStreamQueue.Close` | pkg/omnidiscover/stream.go:118-125 | closing keeps what waits |
| `DNSName.DecodeDNSName` | pkg/omnidiscover/mdns.go:171-221 | terminates; succeeds exactly when labels and pointers (section 4.1.4 of RFC 1035) spell a name within 32 labels, 32 pointers and 255 bytes, and returns its labels joined by dots and the end of its own bytes; otherwise nothing, and the issue says where and why |
| `DNSName.SpelledOnce` | pkg/omnidiscover/mdns.go:171-221 | a position of a packet spells at most one name |
| `DNSName.NoWayOn` | pkg/omnidiscover/mdns.go:171-221 | where the decoder gives up, no name within the limits is spelled |
| `DNSName.EncodeName` | pkg/omnidiscover/decoder_test.go:193-207 | the encoder writes the labels between dots |
| `DNSName.SplitJoins` | pkg/omnidiscover/decoder_test.go:193-207 | splitting at dots and joining with dots are inverse |
| `DNSName.EncodedSpells` | pkg/omnidiscover/mdns.go:171-221 | wherever encoded labels stand in a packet, the packet spells that name there and no other, within the limits |
| `DNSName.NameSurvives` | pkg/omnidiscover/decoder_test.go:193-207 | what the encoder makes of a name decodes to that name, its end just past its bytes |
| `MDNSMessages.DecodeMDNS` | pkg/omnidiscover/mdns.go:33-169 | usable exactly for a response whose header, questions and records are all framed within the packet; then the records kept, in order, are those of a known type whose data is well said, and the message is partial exactly if one of a known type is not |
| `MDNSMessages.SkipQuestions` | pkg/omnidiscover/mdns.go:66-77 | the loop ends behind the questions, or no end of the questions exists |
| `MDNSMessages.ReadRaw` | pkg/omnidiscover/mdns.go:79-99 | one record is framed, or none can be |
| `MDNSMessages.ReadData` | pkg/omnidiscover/mdns.go:121-162 | the switch over types: data that fills its length exactly, target names included, or none that does |
| `MDNSMessages.ValidateTXT` | pkg/omnidiscover/mdns.go:232-242 | true exactly if length-prefixed strings fill the bytes |
| `MDNSMessages.FramedOnce` | pkg/omnidiscover/mdns.go:79-99 | records framed from one position are framed in one way, so a shorter framing is the start of a longer one |
| `MDNSMessages.NoMessage` | pkg/omnidiscover/mdns.go:79-99 | a record that cannot be framed leaves no message, whatever follows |
| `MDNSMessages.MessageIsOne` | pkg/omnidiscover/mdns.go:33-169 | a packet is at most one message and says one list of records |
| `Vendor.WriteBuckets` | utils/genoui/main.go:190-213 | each entry of the index counts the prefixes before its bucket; the 16-bit entries are the counts if and only if there are at most 65535 prefixes |
| `Vendor.PackNames` | utils/genoui/main.go:46-69 | every prefix of every registry gets a reference to its name in the arena, unless a name is over 255 bytes or the arena outgrows its references |
| `Vendor.Search` | pkg/omnidiscover/vendor.go:62-90 | a result is a position of the target, though perhaps just behind the range; a negative one means the range does not hold it |
| `Vendor.Find` | pkg/omnidiscover/vendor.go:36-38 | searching one bucket is searching the whole registry |
| `Vendor.LeadingBits` | pkg/omnidiscover/vendor.go:36-47 | the prefixes assembled by shifting are the leading 36, 28 and 24 bits of the address |
| `Vendor.LookupMACVendor` | pkg/omnidiscover/vendor.go:26-52 | over generated tables: exact names by longest-prefix match for globally administered unicast addresses, and the other kinds told apart |
| `Vendor.LongestPrefixIsOne` | pkg/omnidiscover/vendor.go:26-52 | longest-prefix matching has one result |
| `Checksum.Checksum16` | pkg/omnidiscover/cdp.go:244-257 | the folded 32-bit sum is the ones'-complement sum of the words, for packets of up to 131074 bytes |
| `Checksum.FoldOnce` | pkg/omnidiscover/cdp.go:253-255 | adding the carry back keeps the ones'-complement value |
| `Checksum.ComplementChecks` | pkg/omnidiscover/cdp.go:104-106 | the check passes for exactly the stored values congruent to the complement, and for an all-zero rest only for 0xffff |
| `Checksum.Complemented` | pkg/omnidiscover/cdp.go:104-106 | in particular for the complement of the checksum over the zeroed field |

## Left out

- Sockets, packet rings, interface enumeration, backends beyond "captures, then stops", and the scheduling of goroutines.
- Command line, dashboard, JSON output and cloning of devices, links and events.
- Delivery by the stream queue's pump: on close it may give up an event it has already popped, so nothing is claimed.
- The notify and done channels of the stream queue, beyond the flag an accepted view sets; its dropped counter is this queue's own share.
- Services of a device (`rebuildServices`) and the eviction and generation counters: a device without services is what the store classifies, and `Classification` models the classifier on its own, services included.
- Nil receivers and nil arguments (classifier, device, message), and capacity reuse of slices.
- Hashing inside `makeDNSKey`: the pair of hashes is part of a record, and two records are taken to be the same only by key.
- Cleaning of text before it is merged; texts enter the store as cleaned.
- TLV extraction of LLDP and MNDP, and CDP's TLV loop: they copy fields into messages that the store takes as given.
- Exact lengths of IPv6 extension headers: the wrap of the 8-bit additions is modelled, no agreement with the standard is claimed.
- Message identifier and flags, issue positions, and the records left behind by a fatal error of `DecodeMDNS`; its severities and its records otherwise are modelled.
- Reading and hashing the registry files and printing the generated source.
- Regular expressions and address prefixes: sets of texts and of addresses.
- Events of the store are their kind, fields and keys; that an emitted view aliases the live device until the next call is not modelled.
- Metadata a packet is queued with (interface, timestamp, source MAC and address, VLANs), and packets that sockets hand over already labelled with a protocol.
- Interpreter opcodes the generated filters do not use.
- `FusionStates.FusionState.Observe`: evidence about a device is gathered in a value, one text cell at a time, and written to its slot once a message; services are left out.
- `FusionStates.FusionState.ObserveMDNS`: services are not rebuilt; an inserted record counts as a change of services, as in the source.
- `FusionStates.FusionState.MergeDevices`: services are not rebuilt after the merge.
- `FusionStates.FusionState.Tick`: services are not rebuilt; each wheel has its own cursor; both advance once a tick, and no record is scheduled between the two advances, so one shared cursor is the same.
- `Pipeline.ShutdownGoesOn`: says that a step is possible and that each brings the end nearer; that the scheduler takes it is assumed, as is that a cancelled backend returns.
