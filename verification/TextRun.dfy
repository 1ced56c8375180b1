/** The text fields of a whole store: in every run each holds distinct values, no more than the
    configured alternatives beside a canonical one that none outranks. */
module TextRuns {
  import opened Model
  import opened FusionTypes
  import opened Slabs
  import Text
  import opened Stores
  import opened Timing
  import opened Fusion
  import opened DNSCache
  import opened Observe
  import opened Observations
  import opened Expiry
  import opened LinkMerges
  import opened Runs

  ghost predicate DeviceTexts(k: DeviceInfo, max: nat) { forall slot :: Text.TextOK(GetText(k, slot), max) }

  ghost predicate AllDeviceTexts(info: map<int, DeviceInfo>, max: nat) { forall d | d in info :: DeviceTexts(info[d], max) }

  ghost predicate AllLinkTexts(link: map<int, LinkInfo>, max: nat) { forall l | l in link :: Text.TextOK(link[l].remoteInterface, max) }

  /** Every text field of every device and link. */
  ghost predicate TextsKept(s: Store) { AllDeviceTexts(s.info, s.limits.alternatives) && AllLinkTexts(s.link, s.limits.alternatives) }

  // ---------- evidence ----------

  lemma ApplyTexts(e: Edit, k: DeviceInfo, p: Protocol, now: Time, w: Setting)
    requires DeviceTexts(k, w.alternatives)
    ensures DeviceTexts(Apply(e, k, p, now, w).0, w.alternatives)
  {
    hide Text.TextOK, Text.MergeText;
    match e {
      case SawMAC(m) => VendorTexts(k, w.world.vendor(m), p, 3, now, w.alternatives);
      case ClaimsMAC(m) => VendorTexts(k, w.world.vendor(m), p, 2, now, w.alternatives);
      case Says(slot, text, confidence, _) =>
        Text.MergeKeepsText(GetText(k, slot), text, {p}, confidence, now, w.alternatives);
      case _ =>
    }
    forall slot ensures Text.TextOK(GetText(Apply(e, k, p, now, w).0, slot), w.alternatives) {
      assert Text.TextOK(GetText(k, slot), w.alternatives);
    }
  }

  lemma VendorTexts(k: DeviceInfo, text: seq<Byte>, p: Protocol, confidence: nat, now: Time, max: nat)
    requires DeviceTexts(k, max)
    ensures Text.TextOK(Text.MergeText(k.vendor, text, {p}, confidence, now, max).0, max)
  {
    hide Text.TextOK, Text.MergeText;
    assert Text.TextOK(GetText(k, Vendor), max);
    Text.MergeKeepsText(k.vendor, text, {p}, confidence, now, max);
  }

  lemma {:induction false} ApplyAllTexts(edits: seq<Edit>, k: DeviceInfo, p: Protocol, now: Time, w: Setting)
    requires DeviceTexts(k, w.alternatives)
    ensures DeviceTexts(ApplyAll(edits, k, p, now, w).0, w.alternatives)
  {
    hide DeviceTexts, Apply;
    if edits != [] {
      ApplyAllTexts(edits[..|edits| - 1], k, p, now, w);
      ApplyTexts(edits[|edits| - 1], ApplyAll(edits[..|edits| - 1], k, p, now, w).0, p, now, w);
    }
  }

  lemma {:induction false} ApplyLinkTexts(edits: seq<LinkEdit>, k: LinkInfo, p: Protocol, now: Time, w: Setting)
    requires Text.TextOK(k.remoteInterface, w.alternatives)
    ensures Text.TextOK(ApplyLinkAll(edits, k, p, now, w).0.remoteInterface, w.alternatives)
  {
    hide Text.TextOK, Text.MergeText;
    if edits != [] {
      var n := |edits| - 1;
      ApplyLinkTexts(edits[..n], k, p, now, w);
      var r := ApplyLinkAll(edits[..n], k, p, now, w).0;
      if edits[n].Interface? { Text.MergeKeepsText(r.remoteInterface, edits[n].name, {p}, 3, now, w.alternatives); }
    }
  }

  lemma HostTexts(k: DeviceInfo, rec: DNSRecord, now: Time, max: nat)
    requires DeviceTexts(k, max)
    ensures DeviceTexts(HostInfo(k, rec, now, max), max)
  {
    hide Text.TextOK, Text.MergeText;
    assert Text.TextOK(GetText(k, HostName), max);
    Text.MergeKeepsText(k.hostName, rec.name, {MDNS}, 2, now, max);
    forall slot ensures Text.TextOK(GetText(HostInfo(k, rec, now, max), slot), max) {
      assert Text.TextOK(GetText(k, slot), max);
    }
  }

  lemma MergedTexts(dst: DeviceInfo, src: DeviceInfo, max: nat)
    requires DeviceTexts(dst, max)
    ensures DeviceTexts(MergedInfo(dst, src, max), max)
  {
    hide Text.TextOK, Text.MergeField, AppendAll;
    forall slot ensures Text.TextOK(GetText(MergedInfo(dst, src, max), slot), max) {
      assert Text.TextOK(GetText(dst, slot), max);
      Text.MergeFieldKeepsText(GetText(dst, slot), GetText(src, slot).values, max);
    }
  }

  /** Texts do not depend on the rest of what is known of a device. */
  lemma SameTexts(k: DeviceInfo, r: DeviceInfo, max: nat)
    requires r == k.(firstSeen := r.firstSeen, lastSeen := r.lastSeen, matched := r.matched, protocols := r.protocols)
    ensures DeviceTexts(k, max) <==> DeviceTexts(r, max)
  {
    hide Text.TextOK;
    assert forall slot :: GetText(r, slot) == GetText(k, slot);
  }

  lemma NewTexts(now: Time, max: nat)
    ensures DeviceTexts(NewInfo(now), max) && Text.TextOK(NO_TEXT, max)
  {
  }

  // ---------- removal, allocation, promotion, merging ----------

  /** t has no device or link but those of s, with the same texts. */
  ghost predicate Fewer(s: Store, t: Store) {
    && t.limits == s.limits
    && (forall d | d in t.info :: d in s.info && t.info[d] == s.info[d])
    && (forall l | l in t.link :: l in s.link && t.link[l].remoteInterface == s.link[l].remoteInterface)
  }

  lemma FewerKept(s: Store, t: Store)
    requires TextsKept(s) && Fewer(s, t)
    ensures TextsKept(t)
  {
    hide DeviceTexts, Text.TextOK;
  }

  lemma FewerTwice(s: Store, t: Store, u: Store)
    requires Fewer(s, t) && Fewer(t, u)
    ensures Fewer(s, u)
  {
  }

  lemma RemoveLinkFewer(s: Store, l: int, kind: EventKind)
    requires Inv(s)
    ensures Fewer(s, RemoveLink(s, l, kind))
  {
    hide InvGap, DropLink;
    if l in s.links.keyOf {
      LinkOwnerAt(s, l);
      DropLinkFewer(s, l, kind);
    } else {
      SelfFewer(s);
    }
  }

  lemma LinkOwnerAt(s: Store, l: int)
    requires Inv(s) && l in s.links.keyOf
    ensures Attached(s, l)
  {
    ListsThere(s);
    LinkOwnerThere(s, l);
  }

  lemma DropLinkFewer(s: Store, l: int, kind: EventKind)
    requires Attached(s, l)
    ensures Fewer(s, DropLink(s, l, kind))
  {
    hide Release, Disown;
  }

  lemma {:induction false} ShedLinksFewer(s: Store, d: int, kind: EventKind)
    requires Inv(s) && d in s.devices.keyOf
    ensures Fewer(s, ShedLinks(s, d, kind))
    decreases (ListsThere(s); |s.linkOwner.lists[d]|)
  {
    hide InvGap, RemoveLink, Fewer;
    ListsThere(s);
    ShedLinkStep(s, d, kind);
    if s.linkOwner.lists[d] != [] {
      RemoveLinkFewer(s, LastLink(s, d), kind);
      ShedLinksFewer(RemoveLink(s, LastLink(s, d), kind), d, kind);
      FewerTwice(s, RemoveLink(s, LastLink(s, d), kind), ShedLinks(s, d, kind));
    } else {
      SelfFewer(s);
    }
  }

  lemma SelfFewer(s: Store)
    ensures Fewer(s, s)
  {
  }

  lemma AllocDeviceFewer(s: Store)
    requires Inv(s)
    ensures Fewer(s, AllocDevice(s).0)
  {
    hide InvGap, ShedLinks, ShedRecords, Release, DropOwner;
    if s.devices.free == [] {
      var o := Oldest(Seen(s), s.limits.devices);
      if o in s.devices.keyOf {
        ShedLinksFewer(s, o, Evicted);
        ShedRecordsTimes(ShedLinks(s, o, Evicted), o);
      }
    }
  }

  lemma PromoteFewer(s: Store, d: int, key: DeviceKey)
    requires d in s.devices.keyOf && d in s.linkOwner.lists && d in s.recordOwner.lists
    ensures Fewer(s, Promote(s, d, key))
  {
    hide RekeyAll, Reindex, Rekey;
  }

  lemma {:induction false} MoveLinksFewer(s: Store, dst: int, src: int)
    requires Inv(s) && dst in s.devices.keyOf && src in s.devices.keyOf && dst != src
    ensures Fewer(s, MoveLinks(s, dst, src))
    decreases (ListsThere(s); |s.linkOwner.lists[src]|)
  {
    hide InvGap, MoveLink, Fewer;
    ListsThere(s);
    if s.linkOwner.lists[src] != [] {
      MoveLinkStep(s, dst, src);
      MoveLinkFewer(s, dst, src);
      MoveLinksFewer(MoveLink(s, dst, src), dst, src);
      FewerTwice(s, MoveLink(s, dst, src), MoveLinks(s, dst, src));
    } else {
      SelfFewer(s);
    }
  }

  lemma MoveLinkFewer(s: Store, dst: int, src: int)
    requires Inv(s) && dst in s.devices.keyOf && src in s.devices.keyOf && dst != src
    requires src in s.linkOwner.lists && s.linkOwner.lists[src] != []
    ensures Fewer(s, MoveLink(s, dst, src))
  {
    hide Partition, Complete, MaximaCached, RecordKeysAgree, LinksTimed, LinkKeysAgree, Owned, Collides, MoveTo, HandOver, Disown, Ticks, LatestOf, AppendAll;
    LastOwned(s.linkOwner, src);
    var x := LastLink(s, src);
    var k := s.links.keyOf[x].(device := s.devices.keyOf[dst]);
    if Collides(s.links, x, k) { CollidedThere(s.links, x, k); }
  }

  lemma CollidedThere<K>(t: Slab<K>, i: int, k: K)
    requires Sound(t) && i in t.keyOf && Collides(t, i, k)
    ensures k in t.byKey && t.byKey[k] in t.keyOf
  {
  }

  lemma MergeTexts(s: Store, dst: int, src: int)
    requires Inv(s) && TextsKept(s)
    ensures TextsKept(MergeDevices(s, dst, src))
  {
    hide InvGap, MergedInfo, MoveLinks, MoveRecords, Release, DropOwner, TextsKept, Fewer;
    if dst != src && dst in s.devices.keyOf && src in s.devices.keyOf {
      ListsThere(s);
      var k := MergedInfo(s.info[dst], s.info[src], s.limits.alternatives);
      var s0 := s.(info := s.info[dst := k]);
      InfoInv(s, s0);
      WrittenTexts(s, s0, dst);
      MergedKept(s, dst, src);
      MoveLinksFewer(s0, dst, src);
      MoveLinksInv(s0, dst, src);
      var s1 := MoveLinks(s0, dst, src);
      EmptyingInv(s1, src);
      MoveRecordsInv(s1, dst, src);
      MoveRecordsTimes(s1, dst, src);
      RestFewer(s1, MoveRecords(s1, dst, src), src);
      FewerTwice(s0, s1, MergeDevices(s, dst, src));
      FewerKept(s0, MergeDevices(s, dst, src));
    }
  }

  lemma MergedKept(s: Store, dst: int, src: int)
    requires TextsKept(s) && dst in s.info && src in s.info
    ensures DeviceTexts(MergedInfo(s.info[dst], s.info[src], s.limits.alternatives), s.limits.alternatives)
  {
    hide DeviceTexts;
    MergedTexts(s.info[dst], s.info[src], s.limits.alternatives);
  }

  lemma RestFewer(s: Store, t: Store, src: int)
    requires t.info == s.info && t.link == s.link && t.limits == s.limits && src in t.devices.keyOf
    ensures Fewer(s, Forget(t, src))
  {
    hide Release, DropOwner;
  }

  /** One device's evidence replaced by evidence that keeps to the limits. */
  lemma WrittenTexts(s: Store, t: Store, d: int)
    requires t.limits == s.limits && t.link == s.link && d in t.info && t.info == s.info[d := t.info[d]]
    ensures TextsKept(s) && DeviceTexts(t.info[d], t.limits.alternatives) ==> TextsKept(t)
  {
    hide DeviceTexts, Text.TextOK;
  }

  lemma AddDeviceTexts(s: Store, d: int, key: DeviceKey, now: Time)
    requires TextsKept(s)
    ensures TextsKept(AddDevice(s, d, key, now))
  {
    hide DeviceTexts, Insert, AddOwner;
    NewTexts(now, s.limits.alternatives);
  }

  lemma DeviceForTexts(s: Store, meta: Meta, claimed: MAC, addresses: seq<Addr>)
    requires Inv(s) && TextsKept(s)
    ensures TextsKept(DeviceFor(s, meta, claimed, addresses).0)
  {
    hide InvGap, Promote, MergeDevices, AllocDevice, AddDevice, Partition, TextsKept;
    match IdentityKey(meta, claimed, addresses) {
      case None =>
      case Some(key) =>
        IndexFacts(s);
        var ip := AddressedDevice(s, meta, key);
        if ip.Some? { SoundAt(s.devices, IPKey(Unmap(meta.sourceIP), meta.iface)); }
        if Merges(s, meta, key) {
          MergeTexts(s, s.devices.byKey[key], ip.value);
        } else if ip.Some? {
          ListsThere(s);
          PromoteFewer(s, ip.value, key);
          FewerKept(s, Promote(s, ip.value, key));
        } else if key !in s.devices.byKey {
          AllocDeviceFewer(s);
          FewerKept(s, AllocDevice(s).0);
          AddDeviceTexts(AllocDevice(s).0, AllocDevice(s).1, key, meta.timestamp);
        }
    }
  }

  // ---------- links and records ----------

  lemma UpsertTexts(s: Store, meta: Meta, d: int, kind: LinkKind, ttl: int)
    requires Inv(s) && d in s.devices.keyOf && TextsKept(s)
    ensures TextsKept(UpsertLink(s, meta, d, kind, ttl).store)
  {
    hide InvGap, LinkFor, Complete, AddLink, PromoteLink, RefreshLink, AllocLink, TextsKept, Fewer;
    ListsThere(s);
    LinkForThere(s, meta, d, kind);
    var key := KeyFor(s, meta, d);
    var l := LinkFor(s, meta, d, kind);
    if key in s.links.byKey || (l != -1 && !kind.PhysicalAdjacency?) {
      RefreshTexts(s, l, meta, kind, ttl);
    } else if l != -1 {
      PromoteLinkKeeps(s, l, key, meta);
      PromoteLinkTexts(s, l, key, meta);
      RefreshTexts(PromoteLink(s, l, key, meta), l, meta, kind, ttl);
    } else {
      AllocLinkInv(s);
      ListsOf(AllocLink(s).0, WHOLE.(link := {AllocLink(s).1}));
      AllocLinkFewer(s);
      FewerKept(s, AllocLink(s).0);
      AddLinkTexts(AllocLink(s).0, AllocLink(s).1, d, key, meta, kind, ttl);
    }
  }

  lemma RefreshTexts(s: Store, l: int, meta: Meta, kind: LinkKind, ttl: int)
    requires TextsKept(s) && l in s.link
    ensures TextsKept(RefreshLink(s, l, meta, kind, ttl))
  {
    hide Text.TextOK, DeviceTexts, Ticks, AppendAll;
  }

  lemma PromoteLinkTexts(s: Store, l: int, key: LinkKey, meta: Meta)
    requires TextsKept(s) && l in s.link && l in s.links.keyOf
    ensures TextsKept(PromoteLink(s, l, key, meta))
  {
    hide Text.TextOK, DeviceTexts, Rekey;
  }

  lemma AddLinkTexts(s: Store, l: int, d: int, key: LinkKey, meta: Meta, kind: LinkKind, ttl: int)
    requires TextsKept(s) && d in s.linkOwner.lists
    ensures TextsKept(AddLink(s, l, d, key, meta, kind, ttl))
  {
    hide Text.TextOK, DeviceTexts, Ticks, AppendAll, Insert, Own;
    NewTexts(meta.timestamp, s.limits.alternatives);
  }

  lemma AllocLinkFewer(s: Store)
    requires Inv(s)
    ensures Fewer(s, AllocLink(s).0)
  {
    hide InvGap, Release, Disown, Oldest;
    if s.links.free == [] {
      AllocLinkStep(s);
      RemoveLinkFewer(s, Oldest(LinksSeen(s), s.limits.links), Evicted);
    }
  }

  lemma ConcludeTexts(s: Store, meta: Meta, d: int, changed: set<Field>, wasNew: bool, o: Observation, w: World)
    requires Inv(s) && d in s.devices.keyOf && TextsKept(s)
    ensures TextsKept(Conclude(s, meta, d, changed, wasNew, o, w))
  {
    hide InvGap, UpsertLink, ApplyLinkAll, FactsOf, Text.TextOK, DeviceTexts;
    UpsertLinkInv(s, meta, d, o.kind, o.ttl);
    UpsertTexts(s, meta, d, o.kind, o.ttl);
    var u := UpsertLink(s, meta, d, o.kind, o.ttl);
    ListsThere(u.store);
    LinkThere(u.store, u.link);
    ApplyLinkTexts(o.linkEdits, u.store.link[u.link], meta.protocol, meta.timestamp, In(w, s.limits));
    var k := u.store.info[d];
    SameTexts(k, k.(matched := w.classify(FactsOf(k))), s.limits.alternatives);
  }

  lemma ObservedTexts(s: Store, meta: Meta, o: Observation, w: World)
    requires Inv(s) && TextsKept(s)
    ensures TextsKept(Observed(s, meta, o, w))
  {
    hide InvGap, DeviceFor, ApplyAll, Conclude, TextsKept, DeviceTexts;
    DeviceForInv(s, meta, o.claimed, o.addresses);
    DeviceForTexts(s, meta, o.claimed, o.addresses);
    var r := DeviceFor(s, meta, o.claimed, o.addresses);
    if r.1 != -1 {
      ListsThere(r.0);
      var k := r.0.info[r.1];
      TextsAt(r.0, r.1);
      ApplyAllTexts(o.edits, k, meta.protocol, meta.timestamp, In(w, s.limits));
      var a := ApplyAll(o.edits, k, meta.protocol, meta.timestamp, In(w, s.limits));
      SameTexts(a.0, Timestamped(a.0, meta.timestamp), s.limits.alternatives);
      var s1 := r.0.(info := r.0.info[r.1 := Timestamped(a.0, meta.timestamp)]);
      InfoInv(r.0, s1);
      WrittenTexts(r.0, s1, r.1);
      ConcludeTexts(s1, meta, r.1, a.1, k.protocols == {}, o, w);
    }
  }

  lemma TextsAt(s: Store, d: int)
    requires TextsKept(s) && d in s.info
    ensures DeviceTexts(s.info[d], s.limits.alternatives)
  {
  }

  lemma {:induction false} ProcessTexts(s: Store, d: int, records: seq<DNSRecord>, n: nat, now: Time)
    requires Inv(s) && d in s.devices.keyOf && n <= |records| && TextsKept(s)
    ensures TextsKept(ProcessRecords(s, d, records, n, now)) && ProcessRecords(s, d, records, n, now).limits == s.limits
  {
    hide InvGap, ProcessRecord, TextsKept;
    if n > 0 {
      ProcessTexts(s, d, records, n - 1, now);
      var t := ProcessRecords(s, d, records, n - 1, now);
      ProcessRecordInv(t, d, records, n - 1, now);
      OneRecordTexts(t, d, records, n - 1, now);
    }
  }

  lemma OneRecordTexts(s: Store, d: int, records: seq<DNSRecord>, i: nat, now: Time)
    requires Inv(s) && d in s.devices.keyOf && i < |records| && TextsKept(s)
    ensures TextsKept(ProcessRecord(s, d, records, i, now))
  {
    hide InvGap, FlushSet, CacheDNS, HostInfo, OthersKept, DNSCache.Settled, Complete, TextsKept, DeviceTexts;
    ListsThere(s);
    FlushSetInv(s, d, s.recordOwner.lists[d], records, SetOf(records[i]), now);
    var t := SetFlushed(s, d, records, i, now);
    CacheDNSInv(t, d, records[i], now);
    CacheKeepsLinks(t, d, records[i], now);
    var u := CacheDNS(t, d, records[i], now).0;
    FewerSame(s, u);
    FewerKept(s, u);
    ListsThere(u);
    TextsAt(u, d);
    HostTexts(u.info[d], records[i], now, u.limits.alternatives);
    WrittenTexts(u, ProcessRecord(s, d, records, i, now), d);
  }

  lemma FewerSame(s: Store, t: Store)
    requires t.limits == s.limits && t.info == s.info && t.link == s.link
    ensures Fewer(s, t)
  {
  }

  lemma ObservedMDNSTexts(s: Store, meta: Meta, records: seq<DNSRecord>, w: World)
    requires Inv(s) && TextsKept(s)
    ensures TextsKept(ObservedMDNS(s, meta, records, w))
  {
    hide InvGap, DeviceFor, ApplyAll, Conclude, Recorded, AllRecordFields, TextsKept, AllSettled;
    var addresses := if meta.sourceIP == NoAddr then AnyAddress(records) else [];
    DeviceForInv(s, meta, NO_MAC, addresses);
    DeviceForTexts(s, meta, NO_MAC, addresses);
    var r := DeviceFor(s, meta, NO_MAC, addresses);
    if r.1 != -1 {
      ListsThere(r.0);
      var k := r.0.info[r.1];
      var a := ApplyAll(Sighting(meta) + [HasAddress(meta.sourceIP)], k, MDNS, meta.timestamp, In(w, s.limits));
      var s1 := r.0.(info := r.0.info[r.1 := a.0]);
      InfoInv(r.0, s1);
      RecordedInv(r.0, meta, r.1, records, w);
      RecordedTexts(r.0, meta, r.1, records, w);
      var t := Recorded(r.0, meta, r.1, records, w);
      ListsThere(t);
      ConcludeTexts(t, meta, r.1, a.1 + AllRecordFields(s1, r.1, records, |records|, meta.timestamp) + When(MDNS !in k.protocols, FieldIdentity),
                    k.protocols == {}, NO_EVIDENCE.(ttl := LinkTTL(t.dnsExpiry[r.1], meta.timestamp)), w);
    }
  }

  lemma RecordedTexts(s: Store, meta: Meta, d: int, records: seq<DNSRecord>, w: World)
    requires Inv(s) && d in s.devices.keyOf && TextsKept(s)
    ensures TextsKept(Recorded(s, meta, d, records, w))
  {
    hide InvGap, ApplyAll, Apply, ProcessRecords, TextsKept, DeviceTexts;
    ListsThere(s);
    var edits := Sighting(meta) + [HasAddress(meta.sourceIP)];
    TextsAt(s, d);
    ApplyAllTexts(edits, s.info[d], MDNS, meta.timestamp, In(w, s.limits));
    var s1 := s.(info := s.info[d := ApplyAll(edits, s.info[d], MDNS, meta.timestamp, In(w, s.limits)).0]);
    InfoInv(s, s1);
    WrittenTexts(s, s1, d);
    ProcessTexts(s1, d, records, |records|, meta.timestamp);
    var s2 := ProcessRecords(s1, d, records, |records|, meta.timestamp);
    ListsThere(s2);
    TextsAt(s2, d);
    ApplyTexts(Speaks, s2.info[d], MDNS, meta.timestamp, In(w, s.limits));
    var k := Apply(Speaks, s2.info[d], MDNS, meta.timestamp, In(w, s.limits)).0;
    SameTexts(k, Timestamped(k, meta.timestamp), s.limits.alternatives);
    WrittenTexts(s2, Recorded(s, meta, d, records, w), d);
  }

  // ---------- ticks ----------

  lemma ExpireLinkFewer(s: Store, l: int, now: Time)
    requires Inv(s)
    ensures Fewer(s, ExpireLink(s, l, now))
  {
    hide InvGap, Release, DropOwner, Ticks, Cleared, RemoveLink;
    if l in s.links.keyOf {
      LinkOwnerThere(s, l);
      RemoveLinkFewer(s, l, Expired);
      RemoveLinkInv(s, l, Expired, WHOLE);
      ListsThere(RemoveLink(s, l, Expired));
    }
  }

  lemma {:induction false} ExpireLinksFewer(s: Store, order: seq<int>, now: Time)
    requires Inv(s)
    ensures Fewer(s, ExpireLinks(s, order, now))
  {
    hide InvGap, ExpireLink, Fewer;
    SelfFewer(s);
    if order != [] {
      var t := ExpireLinks(s, order[..|order| - 1], now);
      ExpireLinksFewer(s, order[..|order| - 1], now);
      ExpireLinkFewer(t, order[|order| - 1], now);
      FewerTwice(s, t, ExpireLink(t, order[|order| - 1], now));
    }
  }

  lemma {:induction false} ExpireRecordsFewer(s: Store, order: seq<int>)
    requires Inv(s)
    ensures Fewer(s, ExpireRecords(s, order))
  {
    hide InvGap, Release, Disown, Latest;
    if order != [] { ExpireRecordsFewer(s, order[..|order| - 1]); }
  }

  lemma {:induction false} ReviewsFewer(s: Store, devices: seq<int>)
    requires Inv(s)
    ensures Fewer(s, ReviewAll(s, devices))
  {
    hide InvGap, Review, Fewer;
    SelfFewer(s);
    if devices != [] {
      var t := ReviewAll(s, devices[..|devices| - 1]);
      ReviewsFewer(s, devices[..|devices| - 1]);
      ReviewFewer(t, devices[|devices| - 1]);
      FewerTwice(s, t, Review(t, devices[|devices| - 1]));
    }
  }

  lemma ReviewFewer(s: Store, d: int)
    requires Inv(s)
    ensures Fewer(s, Review(s, d))
  {
    hide InvGap, Release, DropOwner;
    if d in s.devices.keyOf {
      ListsThere(s);
      if s.linkOwner.lists[d] != [] { FirstOwned(s, d); }
    }
  }

  lemma TickTexts(s: Store, now: Time, links: seq<int>, records: seq<int>)
    requires Inv(s) && TextsKept(s)
    ensures TextsKept(Tick(s, now, links, records))
  {
    hide InvGap, ExpireLinks, ExpireRecords, ReviewAll, TextsKept, Nearer;
    var s0 := s.(linkDue := Nearer(s.linkDue));
    NearerKeys(s.linkDue);
    DueInv(s, s0);
    ExpireLinksFewer(s0, links, now);
    var s1 := ExpireLinks(s0, links, now);
    NearerKeys(s1.dnsDue);
    var s2 := s1.(dnsDue := Nearer(s1.dnsDue));
    DueInv(s1, s2);
    ExpireRecordsFewer(s2, records);
    var s3 := ExpireRecords(s2, records);
    ReviewsFewer(s3, OwnersOf(s2.recordOwner.owner, records));
    FewerKept(s, s1);
    FewerSame(s1, s2);
    FewerKept(s1, s2);
    FewerKept(s2, s3);
    FewerKept(s3, Tick(s, now, links, records));
  }

  lemma NearerKeys(due: map<int, int>)
    ensures Nearer(due).Keys == due.Keys
  {
  }

  /** In every run. */
  lemma {:induction false} RunTexts(limits: Limits, steps: seq<Step>, w: World)
    requires Positive(limits)
    ensures TextsKept(Run(limits, steps, w))
  {
    hide InvGap, Observed, ObservedMDNS, Tick, TextsKept;
    if steps == [] {
      NothingWritten(limits);
    } else {
      var s := Run(limits, steps[..|steps| - 1], w);
      RunTexts(limits, steps[..|steps| - 1], w);
      match steps[|steps| - 1] {
        case LinkLayer(meta, o) => ObservedTexts(s, meta, o, w);
        case MulticastDNS(meta, records) => ObservedMDNSTexts(s, meta, records, w);
        case Second(now, links, dns) => TickTexts(s, now, links, dns);
      }
    }
  }

  lemma NothingWritten(limits: Limits)
    ensures TextsKept(Empty(limits))
  {
  }
}
