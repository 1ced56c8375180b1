/** Whole runs of the fusion store, from its creation. */
module Runs {
  import opened Model
  import opened FusionTypes
  import opened Slabs
  import opened Stores
  import opened Timing
  import opened Fusion
  import opened DNSCache
  import opened Observe
  import opened Observations
  import opened Expiry
  import opened LinkMerges

  // ---------- the empty store ----------

  /** Indices n-1 down to 0, as the constructor stacks them. */
  function Countdown(n: nat): (r: seq<int>)
    ensures |r| == n && forall i | 0 <= i < n :: r[i] == n - 1 - i
  {
    seq(n, i => n - 1 - i)
  }

  ghost function Empty(limits: Limits): Store {
    Store(limits, Slab(map[], map[], Countdown(limits.devices)), map[],
          Slab(map[], map[], Countdown(limits.links)), Owners(map[], map[]), map[], map[],
          Slab(map[], map[], Countdown(limits.dns)), Owners(map[], map[]), map[], map[], map[], map[], [])
  }

  lemma EmptyFree<K>(t: Slab<K>, n: nat)
    requires t == Slab(map[], map[], Countdown(n))
    ensures Partition(t, n, {})
  {
    var c := Countdown(n);
    forall i | 0 <= i < n ensures i in c { assert c[n - 1 - i] == i; }
  }

  lemma EmptyInv(limits: Limits)
    requires Positive(limits)
    ensures Inv(Empty(limits)) && Complete(Empty(limits).links) && Complete(Empty(limits).records)
  {
    hide Partition;
    EmptyFree(Empty(limits).devices, limits.devices);
    EmptyFree(Empty(limits).links, limits.links);
    EmptyFree(Empty(limits).records, limits.dns);
  }

  // ---------- runs ----------

  datatype Step =
    | LinkLayer(meta: Meta, observation: Observation)
    | MulticastDNS(meta: Meta, records: seq<DNSRecord>)
    | Second(now: Time, links: seq<int>, dns: seq<int>)

  ghost function Do(s: Store, step: Step, w: World): Store
    requires Inv(s)
  {
    match step
    case LinkLayer(meta, o) => Observed(s, meta, o, w)
    case MulticastDNS(meta, records) => ObservedMDNS(s, meta, records, w)
    case Second(now, links, dns) => Tick(s, now, links, dns)
  }

  lemma DoInv(s: Store, step: Step, w: World)
    requires Inv(s)
    ensures Inv(Do(s, step, w))
  {
    hide InvGap, Observed, ObservedMDNS, Tick;
    match step {
      case LinkLayer(meta, o) => ObservedInv(s, meta, o, w);
      case MulticastDNS(meta, records) => ObservedMDNSInv(s, meta, records, w);
      case Second(now, links, dns) =>
    }
  }

  /** The store after a run. */
  ghost function Run(limits: Limits, steps: seq<Step>, w: World): (s: Store)
    requires Positive(limits)
    ensures Inv(s)
  {
    if steps == [] then EmptyInv(limits); Empty(limits)
    else
      var s := Run(limits, steps[..|steps| - 1], w);
      DoInv(s, steps[|steps| - 1], w);
      Do(s, steps[|steps| - 1], w)
  }

  // ---------- link deadlines through observations ----------

  /** Every link of t is a link of s with its deadlines and its place on the wheel. */
  ghost predicate TimesKept(s: Store, t: Store)
    requires SlotsKeyed(s) && SlotsKeyed(t)
  {
    forall l | l in t.links.keyOf ::
      l in s.links.keyOf && t.link[l].expires == s.link[l].expires && t.link[l].expiresAt == s.link[l].expiresAt && t.linkDue[l] == s.linkDue[l]
  }

  lemma TimesKeptTwice(s: Store, t: Store, u: Store)
    requires SlotsKeyed(s) && SlotsKeyed(t) && SlotsKeyed(u) && TimesKept(s, t) && TimesKept(t, u)
    ensures TimesKept(s, u)
  {
    hide SlotsKeyed;
  }

  lemma InTimeKept(s: Store, t: Store, second: nat)
    requires SlotsKeyed(s) && SlotsKeyed(t) && InTime(s, second) && TimesKept(s, t)
    ensures InTime(t, second)
  {
    forall l | l in t.links.keyOf ensures OnTime(t.link[l], t.linkDue[l], second) {
      assert OnTime(s.link[l], s.linkDue[l], second);
    }
  }

  lemma RemoveLinkTimes(s: Store, l: int, kind: EventKind)
    requires Inv(s)
    ensures SlotsKeyed(s) && SlotsKeyed(RemoveLink(s, l, kind)) && TimesKept(s, RemoveLink(s, l, kind))
  {
    hide InvGap, Disown;
    SlotsThere(s);
    RemoveLinkInv(s, l, kind, WHOLE);
    SlotsThere(RemoveLink(s, l, kind));
  }

  lemma {:induction false} ShedLinksTimes(s: Store, d: int, kind: EventKind)
    requires Inv(s) && d in s.devices.keyOf
    ensures SlotsKeyed(s) && SlotsKeyed(ShedLinks(s, d, kind)) && TimesKept(s, ShedLinks(s, d, kind))
    decreases (ListsThere(s); |s.linkOwner.lists[d]|)
  {
    hide InvGap, RemoveLink, SlotsKeyed, TimesKept;
    ListsThere(s);
    SlotsThere(s);
    SelfKept(s);
    ShedLinkStep(s, d, kind);
    if s.linkOwner.lists[d] != [] {
      RemoveLinkTimes(s, LastLink(s, d), kind);
      ShedLinksTimes(RemoveLink(s, LastLink(s, d), kind), d, kind);
      TimesKeptTwice(s, RemoveLink(s, LastLink(s, d), kind), ShedLinks(RemoveLink(s, LastLink(s, d), kind), d, kind));
    }
  }

  lemma SelfKept(s: Store)
    requires SlotsKeyed(s)
    ensures TimesKept(s, s)
  {
  }

  lemma {:induction false} ShedRecordsTimes(s: Store, d: int)
    requires Inv(s) && d in s.devices.keyOf
    ensures var t := ShedRecords(s, d); t.links == s.links && t.link == s.link && t.linkDue == s.linkDue
    decreases (ListsThere(s); |s.recordOwner.lists[d]|)
  {
    hide InvGap, Latest, Release, Disown;
    ListsThere(s);
    ShedRecordStep(s, d);
    if s.recordOwner.lists[d] != [] { ShedRecordsTimes(RemoveDNS(s, LastRecord(s, d)), d); }
  }

  lemma AllocDeviceTimes(s: Store)
    requires Inv(s)
    ensures SlotsKeyed(s) && SlotsKeyed(AllocDevice(s).0) && TimesKept(s, AllocDevice(s).0)
  {
    hide InvGap, ShedLinks, ShedRecords, Forget;
    SlotsThere(s);
    if s.devices.free == [] {
      var o := Oldest(Seen(s), s.limits.devices);
      if o in s.devices.keyOf {
        ShedLinksTimes(s, o, Evicted);
        ShedRecordsTimes(ShedLinks(s, o, Evicted), o);
        ForgetFrame(ShedRecords(ShedLinks(s, o, Evicted), o), o);
      }
      SlotsThere(RemoveDevice(s, o, Evicted));
    }
  }

  lemma PromoteTimes(s: Store, d: int, key: DeviceKey)
    requires Inv(s) && d in s.devices.keyOf && d in s.linkOwner.lists && d in s.recordOwner.lists && Inv(Promote(s, d, key))
    ensures SlotsKeyed(s) && SlotsKeyed(Promote(s, d, key)) && TimesKept(s, Promote(s, d, key))
  {
    hide InvGap, RekeyAll, Reindex, Rekey;
    SlotsThere(s);
    SlotsThere(Promote(s, d, key));
  }

  /** What an observer can check beforehand: links the observation merges are timely. */
  ghost predicate MergesTimely(s: Store, meta: Meta, claimed: MAC, addresses: seq<Addr>, second: nat) {
    var key := IdentityKey(meta, claimed, addresses);
    key.Some? && Merges(s, meta, key.value) ==>
      MergeTimely(s, s.devices.byKey[key.value], AddressedDevice(s, meta, key.value).value, second)
  }

  /** Identity resolution leaves all links in time if and only if the links it merges are timely. */
  lemma DeviceForInTime(s: Store, meta: Meta, claimed: MAC, addresses: seq<Addr>, second: nat)
    requires Inv(s) && SlotsKeyed(s) && InTime(s, second)
    ensures var t := DeviceFor(s, meta, claimed, addresses).0;
            SlotsKeyed(t) && (InTime(t, second) <==> MergesTimely(s, meta, claimed, addresses, second))
  {
    hide InvGap, Promote, MergeDevices, AllocDevice, Partition, MergeTimely, TimesKept, SlotsKeyed, InTime;
    SelfKept(s);
    DeviceForInv(s, meta, claimed, addresses);
    var t := DeviceFor(s, meta, claimed, addresses).0;
    SlotsThere(t);
    match IdentityKey(meta, claimed, addresses) {
      case None =>
      case Some(key) =>
        IndexFacts(s);
        var ip := AddressedDevice(s, meta, key);
        if ip.Some? { SoundAt(s.devices, IPKey(Unmap(meta.sourceIP), meta.iface)); }
        if Merges(s, meta, key) {
          SoundAt(s.devices, key);
          MergeInTime(s, s.devices.byKey[key], ip.value, second);
        } else if ip.Some? {
          PromoteFits(s, ip.value, key);
          PromoteTimes(s, ip.value, key);
          InTimeKept(s, t, second);
        } else if key !in s.devices.byKey {
          AllocDeviceTimes(s);
          var r := AllocDevice(s);
          AddDeviceTimes(s, r.0, AddDevice(r.0, r.1, key, meta.timestamp));
          InTimeKept(s, t, second);
        }
    }
  }

  lemma AddDeviceTimes(s: Store, t: Store, u: Store)
    requires SlotsKeyed(s) && SlotsKeyed(t) && SlotsKeyed(u) && TimesKept(s, t)
    requires u.links == t.links && u.link == t.link && u.linkDue == t.linkDue
    ensures TimesKept(s, u)
  {
  }

  /** A refresh between second k and second k + 1 puts its link in time. */
  lemma RefreshedOnTime(k: LinkInfo, meta: Meta, kind: LinkKind, ttl: int, second: nat)
    requires forall p :: k.expires.Get(p) == 0 || k.expires.Get(p) > second * SECOND
    requires second * SECOND < meta.timestamp <= (second + 1) * SECOND
    ensures var r := Refreshed(k, meta, kind, ttl); OnTime(r, Ticks(r.expiresAt - meta.timestamp), second)
  {
    hide AppendAll;
    var r := Refreshed(k, meta, kind, ttl);
    var t := if ttl <= 0 then SECOND else ttl;
    assert r.expires.Get(meta.protocol) == meta.timestamp + t;
    assert forall p :: r.expires.Get(p) == 0 || r.expires.Get(p) > second * SECOND;
  }

  /** A refresh puts its own link in time and leaves the others alone. */
  lemma RefreshInTime(s: Store, l: int, meta: Meta, kind: LinkKind, ttl: int, second: nat)
    requires l in s.link && l in s.links.keyOf && SlotsKeyed(RefreshLink(s, l, meta, kind, ttl))
    requires forall p :: s.link[l].expires.Get(p) == 0 || s.link[l].expires.Get(p) > second * SECOND
    requires forall x | x in s.links.keyOf && x != l :: x in s.link && x in s.linkDue && OnTime(s.link[x], s.linkDue[x], second)
    requires second * SECOND < meta.timestamp <= (second + 1) * SECOND
    ensures InTime(RefreshLink(s, l, meta, kind, ttl), second)
  {
    hide Refreshed, OnTime, Ticks;
    RefreshedOnTime(s.link[l], meta, kind, ttl, second);
  }

  /** Through an upsert, links are kept in time and the observed one is put in time. */
  lemma UpsertInTime(s: Store, meta: Meta, d: int, kind: LinkKind, ttl: int, second: nat)
    requires Inv(s) && d in s.devices.keyOf && SlotsKeyed(s) && InTime(s, second)
    requires second * SECOND < meta.timestamp <= (second + 1) * SECOND
    ensures var t := UpsertLink(s, meta, d, kind, ttl).store; SlotsKeyed(t) && InTime(t, second)
  {
    hide InvGap, LinkFor, AllocLink, RefreshLink, OnTime, PromoteLink, AddLink, InTime, SlotsKeyed, Complete;
    ListsThere(s);
    LinkForThere(s, meta, d, kind);
    var key := KeyFor(s, meta, d);
    var l := LinkFor(s, meta, d, kind);
    UpsertLinkInv(s, meta, d, kind, ttl);
    SlotsThere(UpsertLink(s, meta, d, kind, ttl).store);
    if key in s.links.byKey || (l != -1 && !kind.PhysicalAdjacency?) {
      AheadOf(s, l, second);
      RefreshInTime(s, l, meta, kind, ttl, second);
    } else if l != -1 {
      AheadOf(s, l, second);
      PromotedTimes(s, l, key, meta);
      PromoteLinkKeeps(s, l, key, meta);
      RefreshInTime(PromoteLink(s, l, key, meta), l, meta, kind, ttl, second);
    } else {
      AllocLinkInv(s);
      ListsOf(AllocLink(s).0, WHOLE.(link := {AllocLink(s).1}));
      AllocLinkTimes(s, second);
      AddedInTime(AllocLink(s).0, AllocLink(s).1, d, key, meta, kind, ttl, second);
    }
  }

  lemma AddedInTime(s: Store, l: int, d: int, key: LinkKey, meta: Meta, kind: LinkKind, ttl: int, second: nat)
    requires d in s.linkOwner.lists && SlotsKeyed(AddLink(s, l, d, key, meta, kind, ttl))
    requires s.links.keyOf.Keys == s.link.Keys && s.links.keyOf.Keys == s.linkDue.Keys
    requires forall x | x in s.links.keyOf :: OnTime(s.link[x], s.linkDue[x], second)
    requires second * SECOND < meta.timestamp <= (second + 1) * SECOND
    ensures InTime(AddLink(s, l, d, key, meta, kind, ttl), second)
  {
    hide OnTime, InTime, RefreshLink, SlotsKeyed, Own;
    var t := s.(links := Insert(s.links, l, key), linkOwner := Own(s.linkOwner, l, d), link := s.link[l := NewLink(meta, kind, key.device)]);
    RefreshInTime(t, l, meta, kind, ttl, second);
  }

  lemma AheadOf(s: Store, l: int, second: nat)
    requires SlotsKeyed(s) && InTime(s, second) && l in s.links.keyOf
    ensures forall p :: s.link[l].expires.Get(p) == 0 || s.link[l].expires.Get(p) > second * SECOND
    ensures forall x | x in s.links.keyOf :: x in s.link && x in s.linkDue && OnTime(s.link[x], s.linkDue[x], second)
  {
    assert OnTime(s.link[l], s.linkDue[l], second);
  }

  lemma PromotedTimes(s: Store, l: int, key: LinkKey, meta: Meta)
    requires l in s.link && l in s.links.keyOf
    ensures PromoteLink(s, l, key, meta).link[l].expires == s.link[l].expires
    ensures PromoteLink(s, l, key, meta).links.keyOf.Keys == s.links.keyOf.Keys
    ensures PromoteLink(s, l, key, meta).linkDue == s.linkDue && PromoteLink(s, l, key, meta).link.Keys == s.link.Keys
    ensures forall x | x in s.link && x != l :: PromoteLink(s, l, key, meta).link[x] == s.link[x]
  {
  }

  lemma AllocLinkTimes(s: Store, second: nat)
    requires Inv(s) && SlotsKeyed(s) && InTime(s, second)
    ensures var t := AllocLink(s).0;
            && t.links.keyOf.Keys == t.link.Keys && t.links.keyOf.Keys == t.linkDue.Keys
            && forall l | l in t.links.keyOf :: OnTime(t.link[l], t.linkDue[l], second)
  {
    hide InvGap, OnTime, Disown;
    if s.links.free == [] {
      AllocLinkStep(s);
      var o := Oldest(LinksSeen(s), s.limits.links);
      RemoveLinkTimes(s, o, Evicted);
    }
  }

  lemma ConcludeInTime(s: Store, meta: Meta, d: int, changed: set<Field>, wasNew: bool, o: Observation, w: World, second: nat)
    requires Inv(s) && d in s.devices.keyOf && SlotsKeyed(s) && InTime(s, second)
    requires second * SECOND < meta.timestamp <= (second + 1) * SECOND
    ensures var t := Conclude(s, meta, d, changed, wasNew, o, w); SlotsKeyed(t) && InTime(t, second)
  {
    hide InvGap, UpsertLink, ApplyLinkAll, OnTime, SameBase;
    UpsertLinkInv(s, meta, d, o.kind, o.ttl);
    var u := UpsertLink(s, meta, d, o.kind, o.ttl);
    ListsThere(u.store);
    LinkThere(u.store, u.link);
    UpsertInTime(s, meta, d, o.kind, o.ttl, second);
    var k := ApplyLinkAll(o.linkEdits, u.store.link[u.link], meta.protocol, meta.timestamp, In(w, s.limits)).0;
    LinkEditsBase(o.linkEdits, u.store.link[u.link], meta.protocol, meta.timestamp, In(w, s.limits));
    BaseDeadlines(u.store.link[u.link], k);
    ConcludeInv(s, meta, d, changed, wasNew, o, w);
    SlotsThere(Conclude(s, meta, d, changed, wasNew, o, w));
    SameOnTime(u.store.link[u.link], k, u.store.linkDue[u.link], second);
  }

  lemma ObservedInTime(s: Store, meta: Meta, o: Observation, w: World, second: nat)
    requires Inv(s) && SlotsKeyed(s) && InTime(s, second) && MergesTimely(s, meta, o.claimed, o.addresses, second)
    requires second * SECOND < meta.timestamp <= (second + 1) * SECOND
    ensures var t := Observed(s, meta, o, w); SlotsKeyed(t) && InTime(t, second)
  {
    hide InvGap, DeviceFor, ApplyAll, Conclude, Timestamped, InTime, SlotsKeyed, MergesTimely;
    DeviceForInv(s, meta, o.claimed, o.addresses);
    DeviceForInTime(s, meta, o.claimed, o.addresses, second);
    var r := DeviceFor(s, meta, o.claimed, o.addresses);
    if r.1 != -1 {
      ListsThere(r.0);
      var k := r.0.info[r.1];
      var a := ApplyAll(o.edits, k, meta.protocol, meta.timestamp, In(w, s.limits));
      var s1 := r.0.(info := r.0.info[r.1 := Timestamped(a.0, meta.timestamp)]);
      InfoInv(r.0, s1);
      InfoInTime(r.0, s1, second);
      ConcludeInTime(s1, meta, r.1, a.1, k.protocols == {}, o, w, second);
    }
  }

  /** Nothing about links, and no event. */
  ghost predicate LinksAlone(s: Store, t: Store) {
    t.links == s.links && t.link == s.link && t.linkDue == s.linkDue && t.linkOwner == s.linkOwner && t.events == s.events
  }

  lemma CacheKeepsLinks(s: Store, d: int, rec: DNSRecord, now: Time)
    requires Inv(s) && d in s.devices.keyOf
    ensures var t := CacheDNS(s, d, rec, now).0; LinksAlone(s, t)
  {
    hide InvGap, SetDNSExpiry, Touch, AllocDNS, AddRecord, MakeKey, Complete;
    var key := MakeKey(d, rec);
    if key in s.records.byKey {
      var r := s.records.byKey[key];
      SoundAtInv(s, key);
      RecordThere(s, r);
      ExpiryKeepsLinks(s, r, now, now + SECOND);
      TouchKeepsLinks(s, r, rec);
      ExpiryKeepsLinks(Touch(s, r, rec), r, now, now + rec.ttl * SECOND);
    } else {
      AllocDNSInv(s);
      ListsOfGap(AllocDNS(s).0, WHOLE.(record := {AllocDNS(s).1}));
      AllocKeepsLinks(s);
      AddKeepsLinks(AllocDNS(s).0, AllocDNS(s).1, d, rec, now, now + rec.ttl * SECOND);
    }
  }

  lemma ExpiryKeepsLinks(s: Store, r: int, now: Time, expires: Time)
    requires r in s.expiresAt && r in s.recordOwner.owner
    requires s.recordOwner.owner[r] in s.dnsExpiry && s.recordOwner.owner[r] in s.recordOwner.lists
    ensures var t := SetDNSExpiry(s, r, now, expires); LinksAlone(s, t)
  {
    hide Latest, Ticks;
  }

  lemma TouchKeepsLinks(s: Store, r: int, rec: DNSRecord)
    requires r in s.record
    ensures var t := Touch(s, r, rec); t == s.(record := t.record)
  {
  }

  lemma AllocKeepsLinks(s: Store)
    requires Inv(s)
    ensures var t := AllocDNS(s).0; LinksAlone(s, t)
  {
    hide InvGap, Latest, Release, Disown;
    if s.records.free == [] { AllocDNSStep(s); }
  }

  lemma AddKeepsLinks(s: Store, r: int, d: int, rec: DNSRecord, now: Time, expires: Time)
    requires d in s.recordOwner.lists && d in s.dnsExpiry
    ensures var t := AddRecord(s, r, d, rec, now, expires); LinksAlone(s, t)
  {
    hide Latest, Ticks, Insert, Own;
    AddRecordShape(s, r, d, rec, now, expires);
  }

  lemma {:induction false} ProcessKeepsLinks(s: Store, d: int, records: seq<DNSRecord>, n: nat, now: Time)
    requires Inv(s) && d in s.devices.keyOf && n <= |records|
    ensures var t := ProcessRecords(s, d, records, n, now); LinksAlone(s, t)
  {
    hide InvGap, ProcessRecord;
    if n > 0 {
      ProcessKeepsLinks(s, d, records, n - 1, now);
      OneKeepsLinks(ProcessRecords(s, d, records, n - 1, now), d, records, n - 1, now);
    }
  }

  lemma OneKeepsLinks(s: Store, d: int, records: seq<DNSRecord>, i: nat, now: Time)
    requires Inv(s) && d in s.devices.keyOf && i < |records|
    ensures var t := ProcessRecord(s, d, records, i, now); LinksAlone(s, t)
  {
    hide InvGap, FlushSet, CacheDNS, HostInfo, OthersKept, Settled, Complete;
    ListsThere(s);
    FlushSetInv(s, d, s.recordOwner.lists[d], records, SetOf(records[i]), now);
    var u := SetFlushed(s, d, records, i, now);
    CacheDNSInv(u, d, records[i], now);
    CacheKeepsLinks(u, d, records[i], now);
  }

  lemma ObservedMDNSInTime(s: Store, meta: Meta, records: seq<DNSRecord>, w: World, second: nat)
    requires Inv(s) && SlotsKeyed(s) && InTime(s, second)
    requires MergesTimely(s, meta, NO_MAC, if meta.sourceIP == NoAddr then AnyAddress(records) else [], second)
    requires second * SECOND < meta.timestamp <= (second + 1) * SECOND
    ensures var t := ObservedMDNS(s, meta, records, w); SlotsKeyed(t) && InTime(t, second)
  {
    hide InvGap, DeviceFor, ApplyAll, Conclude, Timestamped, InTime, SlotsKeyed, MergesTimely, ProcessRecords, AllRecordFields, Apply;
    var addresses := if meta.sourceIP == NoAddr then AnyAddress(records) else [];
    DeviceForInv(s, meta, NO_MAC, addresses);
    DeviceForInTime(s, meta, NO_MAC, addresses, second);
    var r := DeviceFor(s, meta, NO_MAC, addresses);
    if r.1 != -1 {
      ListsThere(r.0);
      var k := r.0.info[r.1];
      var a := ApplyAll(Sighting(meta) + [HasAddress(meta.sourceIP)], k, MDNS, meta.timestamp, In(w, s.limits));
      var s1 := r.0.(info := r.0.info[r.1 := a.0]);
      InfoInv(r.0, s1);
      ProcessKeepsLinks(s1, r.1, records, |records|, meta.timestamp);
      RecordedInv(r.0, meta, r.1, records, w);
      var t := Recorded(r.0, meta, r.1, records, w);
      InfoInTime(r.0, t, second);
      ListsThere(t);
      ConcludeInTime(t, meta, r.1, a.1 + AllRecordFields(s1, r.1, records, |records|, meta.timestamp) + When(MDNS !in k.protocols, FieldIdentity),
                     k.protocols == {}, NO_EVIDENCE.(ttl := LinkTTL(t.dnsExpiry[r.1], meta.timestamp)), w, second);
    }
  }

  // ---------- runs on a one-second clock ----------

  /** A step keeps the clock: tick k + 1 comes at second k + 1, observations come between ticks,
      ticks visit what is due, and any links an observation merges are timely. */
  ghost predicate Keeps(s: Store, second: nat, step: Step) {
    match step
    case LinkLayer(meta, o) =>
      second * SECOND < meta.timestamp <= (second + 1) * SECOND && MergesTimely(s, meta, o.claimed, o.addresses, second)
    case MulticastDNS(meta, records) =>
      second * SECOND < meta.timestamp <= (second + 1) * SECOND
      && MergesTimely(s, meta, NO_MAC, if meta.sourceIP == NoAddr then AnyAddress(records) else [], second)
    case Second(now, links, dns) => now == (second + 1) * SECOND && VisitsDue(links, Nearer(s.linkDue))
  }

  /** Ticks so far. */
  function Seconds(steps: seq<Step>): nat {
    if steps == [] then 0 else Seconds(steps[..|steps| - 1]) + if steps[|steps| - 1].Second? then 1 else 0
  }

  ghost predicate OnTheClock(limits: Limits, steps: seq<Step>, w: World)
    requires Positive(limits)
    decreases |steps|
  {
    steps == []
    || (OnTheClock(limits, steps[..|steps| - 1], w)
        && Keeps(Run(limits, steps[..|steps| - 1], w), Seconds(steps[..|steps| - 1]), steps[|steps| - 1]))
  }

  /** In every state of every run on the clock, every link deadline is ahead,
      and every link is due to be visited in time: with TickInTime, each deadline is cleared at
      exactly the first tick at or after it. */
  lemma {:induction false} RunInTime(limits: Limits, steps: seq<Step>, w: World)
    requires Positive(limits) && OnTheClock(limits, steps, w)
    ensures SlotsKeyed(Run(limits, steps, w)) && InTime(Run(limits, steps, w), Seconds(steps))
    decreases |steps|
  {
    hide InvGap, Observed, ObservedMDNS, Tick, InTime, SlotsKeyed, MergesTimely;
    if steps == [] {
      EmptyInTime(limits, w);
    } else {
      var before := steps[..|steps| - 1];
      RunInTime(limits, before, w);
      var s := Run(limits, before, w);
      match steps[|steps| - 1] {
        case LinkLayer(meta, o) => ObservedInTime(s, meta, o, w, Seconds(before));
        case MulticastDNS(meta, records) => ObservedMDNSInTime(s, meta, records, w, Seconds(before));
        case Second(now, links, dns) => TickInTime(s, Seconds(before), links, dns);
      }
    }
  }

  /** In every run on the clock, a tick clears exactly the deadlines it has reached: each goes on the
      first tick at or after it. */
  lemma RunClears(limits: Limits, steps: seq<Step>, now: Time, links: seq<int>, dns: seq<int>, w: World)
    requires Positive(limits) && OnTheClock(limits, steps + [Second(now, links, dns)], w)
    ensures var s, t := Run(limits, steps, w), Run(limits, steps + [Second(now, links, dns)], w);
            && SlotsKeyed(s) && SlotsKeyed(t)
            && forall x, p | x in s.links.keyOf && s.link[x].expires.Get(p) != 0 ::
                 ClearedBy(s, t, x, p) <==> s.link[x].expires.Get(p) <= now
  {
    hide InvGap, Tick, InTime, SlotsKeyed, ClearedBy, Observed, ObservedMDNS, MergesTimely, VisitsDue;
    var all := steps + [Second(now, links, dns)];
    assert all[..|all| - 1] == steps;
    RunInTime(limits, steps, w);
    TickInTime(Run(limits, steps, w), Seconds(steps), links, dns);
  }

  lemma EmptyInTime(limits: Limits, w: World)
    requires Positive(limits)
    ensures SlotsKeyed(Run(limits, [], w)) && InTime(Run(limits, [], w), 0)
  {
    hide Partition;
  }
}
