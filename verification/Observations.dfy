/** Whole observations: LLDP, CDP, MNDP and mDNS messages taken into the store. */
module Observations {
  import opened Model
  import opened FusionTypes
  import opened Slabs
  import opened Stores
  import opened Timing
  import opened Fusion
  import opened DNSCache
  import opened Observe
  import Texts = Text

  // ---------- what each protocol's message amounts to ----------

  /** A message as identity hints, evidence about the device, and evidence about the link. */
  datatype Observation = Observation(claimed: MAC, addresses: seq<Addr>, edits: seq<Edit>, kind: LinkKind, ttl: int, linkEdits: seq<LinkEdit>)

  const NO_MAC: MAC := [0, 0, 0, 0, 0, 0]

  function Addresses(list: seq<Addr>): seq<Edit> {
    seq(|list|, i requires 0 <= i < |list| => HasAddress(list[i]))
  }

  function ZonedAll(list: seq<Addr>, interfaceName: seq<Byte>): seq<Addr> {
    seq(|list|, i requires 0 <= i < |list| => Zoned(list[i], interfaceName))
  }

  function VLANs(list: seq<nat>): seq<LinkEdit> {
    seq(|list|, i requires 0 <= i < |list| => OnVLAN(list[i]))
  }

  function OptionVLAN(v: Option<nat>): seq<LinkEdit> { if v.Some? then [OnVLAN(v.value)] else [] }

  function Sighting(meta: Meta): seq<Edit> { if IsUnicast(meta.sourceMAC) then [SawMAC(meta.sourceMAC)] else [] }

  /** The chassis MAC an LLDP message claims. */
  function ChassisMAC(id: Identifier): MAC { if id.subtype == 4 && |id.value| == 6 then id.value else NO_MAC }

  /** The part of each message that is neither MAC nor address. */
  function LLDPSpoken(m: LLDPMessage): seq<Edit> {
    [Says(SystemName, m.systemName, 3, FieldNames), CanDo(m.capabilities), Speaks]
  }

  function CDPSpoken(m: CDPMessage): seq<Edit> {
    [Says(DeviceID, m.deviceID, 3, FieldNames), Says(SystemName, m.systemName, 3, FieldNames),
     Says(Platform, m.platform, 3, FieldPlatform), Says(ModelName, m.platform, 3, FieldModel),
     Says(Software, m.software, 3, FieldSoftware), CanDo(m.capabilities), Speaks]
  }

  function MNDPSpoken(m: MNDPMessage): seq<Edit> {
    [Says(SystemName, m.identity, 3, FieldNames), Says(Platform, m.platform, 3, FieldPlatform),
     Says(ModelName, m.board, 4, FieldModel), Says(Software, m.version, 3, FieldSoftware)]
    + (if m.uptime.Some? then [UpFor(m.uptime.value)] else []) + [Speaks]
  }

  function LLDPObservation(meta: Meta, m: LLDPMessage): Observation {
    var claimed := ChassisMAC(m.chassis);
    Observation(claimed, m.addresses,
      Sighting(meta) + (if IsUnicast(claimed) && claimed != meta.sourceMAC then [ClaimsMAC(claimed)] else [])
        + Addresses(m.addresses) + LLDPSpoken(m),
      PhysicalAdjacency, m.ttl * SECOND,
      [Chassis(m.chassis), Port(m.port), Interface(m.portDescription)] + OptionVLAN(m.pvid) + VLANs(m.vlans))
  }

  function CDPObservation(meta: Meta, m: CDPMessage): Observation {
    Observation(NO_MAC, m.addresses,
      Sighting(meta) + Addresses(m.addresses) + Addresses(m.managementAddresses) + CDPSpoken(m),
      PhysicalAdjacency, m.ttl * SECOND,
      [ChassisValue(m.deviceID), PortValue(m.portID), Interface(m.portID)] + OptionVLAN(m.nativeVLAN))
  }

  function MNDPObservation(meta: Meta, m: MNDPMessage, idleTTL: int): Observation {
    Observation(if m.mac.Some? then m.mac.value else NO_MAC, m.addresses,
      Sighting(meta) + (if m.mac.Some? then [ClaimsMAC(m.mac.value)] else [])
        + [HasAddress(meta.sourceIP)] + Addresses(ZonedAll(m.addresses, meta.interfaceName)) + MNDPSpoken(m),
      SegmentPresence, idleTTL,
      [Interface(m.interfaceName)])
  }

  // ---------- taking an observation in ----------

  function Timestamped(k: DeviceInfo, now: Time): DeviceInfo {
    k.(firstSeen := if k.firstSeen == 0 || now < k.firstSeen then now else k.firstSeen,
       lastSeen := if now > k.lastSeen then now else k.lastSeen)
  }

  function When(b: bool, f: Field): set<Field> { if b then {f} else {} }

  /** The end of every observation: link refreshed or added, link evidence, classification, and an
      event if any field changed, the link is new, or the device is. */
  ghost function Conclude(s: Store, meta: Meta, d: int, changed: set<Field>, wasNew: bool, o: Observation, w: World): Store
    requires Inv(s) && d in s.devices.keyOf
  {
    UpsertLinkInv(s, meta, d, o.kind, o.ttl);
    var u := UpsertLink(s, meta, d, o.kind, o.ttl);
    ListsThere(u.store);
    LinkThere(u.store, u.link);
    var l := ApplyLinkAll(o.linkEdits, u.store.link[u.link], meta.protocol, meta.timestamp, In(w, s.limits));
    var k := u.store.info[d];
    var matched := w.classify(FactsOf(k));
    var all := changed + When(u.changed || l.1, FieldLink) + When(matched != k.matched, FieldClassification);
    var t := u.store.(link := u.store.link[u.link := l.0], info := u.store.info[d := k.(matched := matched)]);
    if all != {} || u.added || wasNew then
      t.(events := t.events + [Event(if u.added || wasNew then Added else Changed, all, t.devices.keyOf[d], t.links.keyOf[u.link])])
    else t
  }

  lemma LinkThere(s: Store, l: int)
    requires Inv(s) && l in s.links.keyOf
    ensures l in s.link && l in s.linkOwner.owner && s.linkOwner.owner[l] in s.devices.keyOf && Timed(s.link[l])
  {
    AgreeAt(s, l);
  }

  /** LLDP, CDP and MNDP. */
  ghost function Observed(s: Store, meta: Meta, o: Observation, w: World): Store
    requires Inv(s)
  {
    DeviceForInv(s, meta, o.claimed, o.addresses);
    var r := DeviceFor(s, meta, o.claimed, o.addresses);
    if r.1 == -1 then r.0 else
    ListsThere(r.0);
    var k := r.0.info[r.1];
    var a := ApplyAll(o.edits, k, meta.protocol, meta.timestamp, In(w, s.limits));
    var s1 := r.0.(info := r.0.info[r.1 := Timestamped(a.0, meta.timestamp)]);
    InfoInv(r.0, s1);
    Conclude(s1, meta, r.1, a.1, k.protocols == {}, o, w)
  }

  /** observeMNDP: a refresh request is not an announcement. */
  ghost function ObservedMNDP(s: Store, meta: Meta, m: MNDPMessage, idleTTL: int, w: World): Store
    requires Inv(s)
  {
    if m.isRefresh then s else Observed(s, meta, MNDPObservation(meta, m, idleTTL), w)
  }

  lemma ConcludeInv(s: Store, meta: Meta, d: int, changed: set<Field>, wasNew: bool, o: Observation, w: World)
    requires Inv(s) && d in s.devices.keyOf
    ensures var t := Conclude(s, meta, d, changed, wasNew, o, w);
            && Inv(t) && t.devices == s.devices && t.limits == s.limits && t.records == s.records
            && (Complete(s.links) ==> Complete(t.links))
  {
    hide InvGap, UpsertLink, ApplyLinkAll, Complete, Refreshed, Timed;
    UpsertLinkInv(s, meta, d, o.kind, o.ttl);
    var u := UpsertLink(s, meta, d, o.kind, o.ttl);
    ListsThere(u.store);
    LinkThere(u.store, u.link);
    LinkEditsBase(o.linkEdits, u.store.link[u.link], meta.protocol, meta.timestamp, In(w, s.limits));
    var k := ApplyLinkAll(o.linkEdits, u.store.link[u.link], meta.protocol, meta.timestamp, In(w, s.limits)).0;
    var s1 := u.store.(link := u.store.link[u.link := k]);
    LinkEvidenceInv(u.store, u.link, k);
    var s2 := s1.(info := s1.info[d := s1.info[d].(matched := w.classify(FactsOf(s1.info[d])))]);
    InfoInv(s1, s2);
    var t := Conclude(s, meta, d, changed, wasNew, o, w);
    EventsInv(s2, t.events);
    assert t == s2.(events := t.events);
  }

  lemma EventsInv(s: Store, events: seq<Event>)
    requires Inv(s)
    ensures Inv(s.(events := events))
  {
    hide Sound, Complete, Partition, Owned, MaximaCached, RecordKeysAgree, LinkKeysAgree, LinksTimed;
  }

  lemma LinkEvidenceInv(s: Store, l: int, k: LinkInfo)
    requires Inv(s) && l in s.link && SameBase(s.link[l], k) && Timed(s.link[l])
    ensures Inv(s.(link := s.link[l := k]))
  {
    hide Sound, Complete, Partition, Owned, MaximaCached, RecordKeysAgree;
    var link' := s.link[l := k];
    forall x | x in s.links.keyOf ensures KeyAgrees(s.links.keyOf, link', s.linkOwner.owner, s.devices.keyOf, x) {
      assert KeyAgrees(s.links.keyOf, s.link, s.linkOwner.owner, s.devices.keyOf, x);
    }
  }

  /** Any observation, in any reachable state, leads to a reachable state. */
  lemma ObservedInv(s: Store, meta: Meta, o: Observation, w: World)
    requires Inv(s)
    ensures Inv(Observed(s, meta, o, w)) && Observed(s, meta, o, w).limits == s.limits
  {
    hide InvGap, DeviceFor, ApplyAll, Conclude, Timestamped;
    DeviceForInv(s, meta, o.claimed, o.addresses);
    var r := DeviceFor(s, meta, o.claimed, o.addresses);
    if r.1 != -1 {
      ListsThere(r.0);
      var k := r.0.info[r.1];
      var a := ApplyAll(o.edits, k, meta.protocol, meta.timestamp, In(w, s.limits));
      var s1 := r.0.(info := r.0.info[r.1 := Timestamped(a.0, meta.timestamp)]);
      InfoInv(r.0, s1);
      ConcludeInv(s1, meta, r.1, a.1, k.protocols == {}, o, w);
    }
  }

  // ---------- mDNS ----------

  /** The first address among the records, the identity of last resort. */
  function AnyAddress(records: seq<DNSRecord>): seq<Addr> {
    if records == [] then [] else if records[0].address != NoAddr then [records[0].address] else AnyAddress(records[1..])
  }

  /** How long the link of an mDNS device is held: as long as its longest record, at least a second. */
  function LinkTTL(dnsExpiry: Time, now: Time): int {
    if dnsExpiry != 0 && dnsExpiry - now >= SECOND then dnsExpiry - now else SECOND
  }

  /** Fields the i-th record changes on its own: a new record, a new address, a new host name. */
  ghost function RecordFields(s: Store, d: int, records: seq<DNSRecord>, i: nat, now: Time): set<Field>
    requires Inv(s) && d in s.devices.keyOf && i < |records|
  {
    ListsThere(s);
    var rec := records[i];
    var t := SetFlushed(s, d, records, i, now);
    When(CacheDNS(t, d, rec, now).1, FieldServices)
    + When(IsHost(rec) && Unmap(rec.address) !in s.info[d].addresses, FieldAddresses)
    + When(IsHost(rec) && HostNews(s.info[d], rec, now, s.limits.alternatives), FieldNames)
  }

  predicate HostNews(k: DeviceInfo, rec: DNSRecord, now: Time, max: nat) {
    Texts.MergeText(k.hostName, rec.name, {MDNS}, 2, now, max).1
  }

  ghost function AllRecordFields(s: Store, d: int, records: seq<DNSRecord>, n: nat, now: Time): set<Field>
    requires Inv(s) && d in s.devices.keyOf && n <= |records|
  {
    if n == 0 then {} else
    AllRecordFields(s, d, records, n - 1, now) + RecordFields(ProcessRecords(s, d, records, n - 1, now), d, records, n - 1, now)
  }

  const NO_EVIDENCE := Observation(NO_MAC, [], [], SegmentPresence, 0, [])

  /** The store with the message's identity and records taken in, before its link is. */
  ghost function Recorded(s: Store, meta: Meta, d: int, records: seq<DNSRecord>, w: World): Store
    requires Inv(s) && d in s.devices.keyOf
  {
    ListsThere(s);
    var a := ApplyAll(Sighting(meta) + [HasAddress(meta.sourceIP)], s.info[d], MDNS, meta.timestamp, In(w, s.limits));
    var s1 := s.(info := s.info[d := a.0]);
    InfoInv(s, s1);
    ListsThere(ProcessRecords(s1, d, records, |records|, meta.timestamp));
    var s2 := ProcessRecords(s1, d, records, |records|, meta.timestamp);
    s2.(info := s2.info[d := Timestamped(Apply(Speaks, s2.info[d], MDNS, meta.timestamp, In(w, s.limits)).0, meta.timestamp)])
  }

  lemma RecordedInv(s: Store, meta: Meta, d: int, records: seq<DNSRecord>, w: World)
    requires Inv(s) && d in s.devices.keyOf
    ensures var t := Recorded(s, meta, d, records, w);
            && Inv(t) && t.devices == s.devices && t.limits == s.limits && t.links == s.links
            && (Complete(s.records) ==> Complete(t.records))
            && SlotsKeyed(t) && AllSettled(t, d, records, |records|, meta.timestamp)
  {
    hide InvGap, ApplyAll, ProcessRecords, Timestamped, Apply, Complete, AllSettled;
    ListsThere(s);
    var a := ApplyAll(Sighting(meta) + [HasAddress(meta.sourceIP)], s.info[d], MDNS, meta.timestamp, In(w, s.limits));
    var s1 := s.(info := s.info[d := a.0]);
    InfoInv(s, s1);
    MessageSettles(s1, d, records, |records|, meta.timestamp);
    var s2 := ProcessRecords(s1, d, records, |records|, meta.timestamp);
    ListsThere(s2);
    InfoInv(s2, Recorded(s, meta, d, records, w));
    KeyedInv(s2);
    SettledInfo(s2, Recorded(s, meta, d, records, w), d, records, |records|, meta.timestamp);
  }

  ghost function ObservedMDNS(s: Store, meta: Meta, records: seq<DNSRecord>, w: World): Store
    requires Inv(s)
  {
    var addresses := if meta.sourceIP == NoAddr then AnyAddress(records) else [];
    DeviceForInv(s, meta, NO_MAC, addresses);
    var r := DeviceFor(s, meta, NO_MAC, addresses);
    if r.1 == -1 then r.0 else
    ListsThere(r.0);
    var k := r.0.info[r.1];
    var a := ApplyAll(Sighting(meta) + [HasAddress(meta.sourceIP)], k, MDNS, meta.timestamp, In(w, s.limits));
    var s1 := r.0.(info := r.0.info[r.1 := a.0]);
    InfoInv(r.0, s1);
    RecordedInv(r.0, meta, r.1, records, w);
    var t := Recorded(r.0, meta, r.1, records, w);
    ListsThere(t);
    Conclude(t, meta, r.1, a.1 + AllRecordFields(s1, r.1, records, |records|, meta.timestamp) + When(MDNS !in k.protocols, FieldIdentity),
             k.protocols == {}, NO_EVIDENCE.(ttl := LinkTTL(t.dnsExpiry[r.1], meta.timestamp)), w)
  }

  /** Records, their expiries and their owners. */
  ghost predicate SameRecords(s: Store, t: Store) {
    t.records == s.records && t.record == s.record && t.expiresAt == s.expiresAt && t.dnsDue == s.dnsDue && t.recordOwner == s.recordOwner
  }

  lemma AllocKeepsRecords(s: Store)
    requires Inv(s)
    ensures SameRecords(s, AllocLink(s).0)
  {
    hide InvGap, Disown, Release, Oldest;
    if s.links.free == [] { AllocLinkStep(s); }
  }

  /** A link taken up or evicted leaves all records as they were. */
  lemma UpsertKeepsRecords(s: Store, meta: Meta, d: int, kind: LinkKind, ttl: int)
    requires Inv(s) && d in s.devices.keyOf
    ensures SameRecords(s, UpsertLink(s, meta, d, kind, ttl).store)
  {
    hide InvGap, Refreshed, LinkFor, AllocLink, AddLink, RefreshChanges;
    ListsThere(s);
    LinkForThere(s, meta, d, kind);
    AllocLinkInv(s);
    AllocKeepsRecords(s);
    var a := AllocLink(s);
    ListsOf(a.0, WHOLE.(link := {a.1}));
    AddLinkShape(a.0, a.1, d, KeyFor(s, meta, d), meta, kind, ttl);
  }

  lemma ConcludeSettled(s: Store, meta: Meta, d: int, changed: set<Field>, wasNew: bool, o: Observation, w: World, records: seq<DNSRecord>, now: Time)
    requires Inv(s) && d in s.devices.keyOf && SlotsKeyed(s) && AllSettled(s, d, records, |records|, now)
    ensures var t := Conclude(s, meta, d, changed, wasNew, o, w); SlotsKeyed(t) && AllSettled(t, d, records, |records|, now)
  {
    hide InvGap, UpsertLink, ApplyLinkAll, FactsOf, Complete, FlushedBefore;
    UpsertLinkInv(s, meta, d, o.kind, o.ttl);
    UpsertKeepsRecords(s, meta, d, o.kind, o.ttl);
    var u := UpsertLink(s, meta, d, o.kind, o.ttl);
    ListsThere(u.store);
    LinkThere(u.store, u.link);
    ConcludeInv(s, meta, d, changed, wasNew, o, w);
    var t := Conclude(s, meta, d, changed, wasNew, o, w);
    KeyedInv(t);
    SameSettled(s, t, d, records, now);
  }

  lemma SameSettled(s: Store, t: Store, d: int, records: seq<DNSRecord>, now: Time)
    requires SlotsKeyed(s) && SlotsKeyed(t) && AllSettled(s, d, records, |records|, now)
    requires t.records == s.records && t.record == s.record && t.expiresAt == s.expiresAt && t.recordOwner == s.recordOwner
    ensures AllSettled(t, d, records, |records|, now)
  {
    hide FlushedBefore;
    forall r | r in t.records.keyOf && r in t.recordOwner.owner && t.recordOwner.owner[r] == d && FlushedBefore(records, |records|, SetOf(t.record[r]))
      ensures Settled(t, d, r, records, now)
    {
      assert Settled(s, d, r, records, now);
    }
  }

  /** A whole mDNS observation keeps the invariant, and leaves every set it flushed settled (section
      10.2 of RFC 6762), whatever its link then evicts. */
  lemma ObservedMDNSInv(s: Store, meta: Meta, records: seq<DNSRecord>, w: World)
    requires Inv(s)
    ensures var t := ObservedMDNS(s, meta, records, w); Inv(t) && t.limits == s.limits
    ensures var t := ObservedMDNS(s, meta, records, w);
            var d := DeviceFor(s, meta, NO_MAC, if meta.sourceIP == NoAddr then AnyAddress(records) else []).1;
            SlotsKeyed(t) && (d != -1 ==> AllSettled(t, d, records, |records|, meta.timestamp))
  {
    hide InvGap, DeviceFor, ApplyAll, Conclude, Recorded, AllRecordFields, AllSettled;
    var addresses := if meta.sourceIP == NoAddr then AnyAddress(records) else [];
    DeviceForInv(s, meta, NO_MAC, addresses);
    var r := DeviceFor(s, meta, NO_MAC, addresses);
    KeyedInv(r.0);
    if r.1 != -1 {
      ListsThere(r.0);
      var k := r.0.info[r.1];
      var a := ApplyAll(Sighting(meta) + [HasAddress(meta.sourceIP)], k, MDNS, meta.timestamp, In(w, s.limits));
      var s1 := r.0.(info := r.0.info[r.1 := a.0]);
      InfoInv(r.0, s1);
      RecordedInv(r.0, meta, r.1, records, w);
      var t := Recorded(r.0, meta, r.1, records, w);
      ListsThere(t);
      var changed := a.1 + AllRecordFields(s1, r.1, records, |records|, meta.timestamp) + When(MDNS !in k.protocols, FieldIdentity);
      var o := NO_EVIDENCE.(ttl := LinkTTL(t.dnsExpiry[r.1], meta.timestamp));
      ConcludeInv(t, meta, r.1, changed, k.protocols == {}, o, w);
      ConcludeSettled(t, meta, r.1, changed, k.protocols == {}, o, w, records, meta.timestamp);
    }
  }

  /** The link an observation ends on carries the deadline its lifetime asks for. */
  lemma ConcludeDeadline(s: Store, meta: Meta, d: int, changed: set<Field>, wasNew: bool, o: Observation, w: World) returns (l: int)
    requires Inv(s) && d in s.devices.keyOf
    ensures var t := Conclude(s, meta, d, changed, wasNew, o, w);
            && l in t.link && l in t.linkOwner.owner && t.linkOwner.owner[l] == d && t.dnsExpiry == s.dnsExpiry
            && t.link[l].expires.Get(meta.protocol) == meta.timestamp + (if o.ttl <= 0 then SECOND else o.ttl)
  {
    hide InvGap, UpsertLink, ApplyLinkAll, SameBase;
    UpsertLinkInv(s, meta, d, o.kind, o.ttl);
    var u := UpsertLink(s, meta, d, o.kind, o.ttl);
    ListsThere(u.store);
    LinkThere(u.store, u.link);
    UpsertDeadline(s, meta, d, o.kind, o.ttl);
    LinkEditsBase(o.linkEdits, u.store.link[u.link], meta.protocol, meta.timestamp, In(w, s.limits));
    BaseDeadlines(u.store.link[u.link], ApplyLinkAll(o.linkEdits, u.store.link[u.link], meta.protocol, meta.timestamp, In(w, s.limits)).0);
    l := u.link;
  }

  lemma BaseDeadlines(k: LinkInfo, r: LinkInfo)
    requires SameBase(k, r)
    ensures r.expires == k.expires && r.expiresAt == k.expiresAt
  {
  }

  lemma UpsertDeadline(s: Store, meta: Meta, d: int, kind: LinkKind, ttl: int)
    requires Inv(s) && d in s.devices.keyOf
    ensures var u := UpsertLink(s, meta, d, kind, ttl);
            && u.link in u.store.link && u.link in u.store.linkOwner.owner && u.store.linkOwner.owner[u.link] == d
            && u.store.dnsExpiry == s.dnsExpiry
            && u.store.link[u.link].expires.Get(meta.protocol) == meta.timestamp + (if ttl <= 0 then SECOND else ttl)
  {
    hide InvGap, FirstOfKind, AllocLink, Complete;
    ListsThere(s);
    LinkForThere(s, meta, d, kind);
    AllocLinkInv(s);
    ListsOf(AllocLink(s).0, WHOLE.(link := {AllocLink(s).1}));
    if KeyFor(s, meta, d) in s.links.byKey { KeyOwner(s, meta, d); }
  }

  /** A link found under a device's key is that device's. */
  lemma KeyOwner(s: Store, meta: Meta, d: int)
    requires Inv(s) && d in s.devices.keyOf && KeyFor(s, meta, d) in s.links.byKey
    ensures var l := s.links.byKey[KeyFor(s, meta, d)]; l in s.linkOwner.owner && s.linkOwner.owner[l] == d
  {
    hide Partition, Owned, MaximaCached, RecordKeysAgree, LinksTimed, LinkKeysAgree;
    var l := s.links.byKey[KeyFor(s, meta, d)];
    AgreeAt(s, l);
    CompleteAt(s.devices, d);
    CompleteAt(s.devices, s.linkOwner.owner[l]);
  }

  /** After an mDNS message the device has a link held until its last record expires, and for at
      least a second. */
  lemma MDNSLinkHeld(s: Store, meta: Meta, records: seq<DNSRecord>, w: World) returns (l: int)
    requires Inv(s) && meta.protocol == MDNS
    requires IdentityKey(meta, NO_MAC, if meta.sourceIP == NoAddr then AnyAddress(records) else []).Some?
    ensures var t := ObservedMDNS(s, meta, records, w);
            && l in t.link && l in t.linkOwner.owner && t.linkOwner.owner[l] in t.dnsExpiry
            && t.link[l].expires.Get(MDNS) == Later(t.dnsExpiry[t.linkOwner.owner[l]], meta.timestamp + SECOND)
  {
    hide InvGap, DeviceFor, ApplyAll, Conclude, Recorded, AllRecordFields;
    var addresses := if meta.sourceIP == NoAddr then AnyAddress(records) else [];
    DeviceForInv(s, meta, NO_MAC, addresses);
    var r := DeviceFor(s, meta, NO_MAC, addresses);
    ListsThere(r.0);
    var k := r.0.info[r.1];
    var a := ApplyAll(Sighting(meta) + [HasAddress(meta.sourceIP)], k, MDNS, meta.timestamp, In(w, s.limits));
    var s1 := r.0.(info := r.0.info[r.1 := a.0]);
    InfoInv(r.0, s1);
    RecordedInv(r.0, meta, r.1, records, w);
    var t := Recorded(r.0, meta, r.1, records, w);
    ListsThere(t);
    l := ConcludeDeadline(t, meta, r.1, a.1 + AllRecordFields(s1, r.1, records, |records|, meta.timestamp) + When(MDNS !in k.protocols, FieldIdentity),
                          k.protocols == {}, NO_EVIDENCE.(ttl := LinkTTL(t.dnsExpiry[r.1], meta.timestamp)), w);
  }
}
