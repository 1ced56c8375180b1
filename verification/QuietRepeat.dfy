/** Repeating an observation is silent: no event, no slot, no index change. */
module QuietRepeat {
  import opened Model
  import opened FusionTypes
  import opened Slabs
  import opened Stores
  import opened Timing
  import opened Fusion
  import opened DNSCache
  import opened Observe
  import opened Observations
  import Text

  // ---------- identity ----------

  /** The device index after identity resolution: the key is there, and no address competes. */
  ghost predicate Resolved(devices: Slab<DeviceKey>, meta: Meta, key: DeviceKey, d: int) {
    && key in devices.byKey && devices.byKey[key] == d
    && !(key.MACKey? && meta.sourceIP != NoAddr && IPKey(Unmap(meta.sourceIP), meta.iface) in devices.byKey)
  }

  lemma DeviceForResolves(s: Store, meta: Meta, claimed: MAC, addresses: seq<Addr>)
    requires Inv(s) && IdentityKey(meta, claimed, addresses).Some?
    ensures var r := DeviceFor(s, meta, claimed, addresses);
            Resolved(r.0.devices, meta, IdentityKey(meta, claimed, addresses).value, r.1)
  {
    hide InvGap, Promote, MergeDevices, AllocDevice, AddDevice, Partition, Release;
    var key := IdentityKey(meta, claimed, addresses).value;
    var ipKey := IPKey(Unmap(meta.sourceIP), meta.iface);
    IndexFacts(s);
    var ip := AddressedDevice(s, meta, key);
    if ip.Some? { SoundAt(s.devices, ipKey); }
    if Merges(s, meta, key) {
      SoundAt(s.devices, key);
      MergeDevicesInv(s, s.devices.byKey[key], ip.value);
      ReleaseIndex(s.devices, ip.value);
    } else if ip.Some? {
      ListsThere(s);
      PromoteIndex(s, ip.value, key);
    } else if key !in s.devices.byKey {
      AllocIndex(s);
      AddIndex(AllocDevice(s).0, AllocDevice(s).1, key, meta.timestamp);
    }
  }

  lemma ReleaseIndex<K>(t: Slab<K>, i: int)
    requires i in t.keyOf
    ensures Release(t, i).byKey == t.byKey - {t.keyOf[i]}
  {
  }

  lemma PromoteIndex(s: Store, d: int, key: DeviceKey)
    requires d in s.devices.keyOf && d in s.linkOwner.lists && d in s.recordOwner.lists
    ensures Promote(s, d, key).devices.byKey == (s.devices.byKey - {s.devices.keyOf[d]})[key := d]
  {
  }

  lemma AddIndex(s: Store, d: int, key: DeviceKey, now: Time)
    ensures AddDevice(s, d, key, now).devices.byKey == s.devices.byKey[key := d]
  {
  }

  lemma ResolvedAgain(s: Store, meta: Meta, later: Time, claimed: MAC, addresses: seq<Addr>, d: int)
    requires Inv(s) && IdentityKey(meta, claimed, addresses).Some?
    requires Resolved(s.devices, meta, IdentityKey(meta, claimed, addresses).value, d)
    ensures DeviceFor(s, meta.(timestamp := later), claimed, addresses) == (s, d)
  {
    hide InvGap, Promote, MergeDevices, AllocDevice, AddDevice;
  }

  // ---------- the link ----------

  /** The observation would fall on link l again, and find it as it reports it. */
  ghost predicate LinkSettled(s: Store, meta: Meta, d: int, kind: LinkKind, l: int) {
    && d in s.devices.keyOf && d in s.linkOwner.lists && l != -1 && l in s.link
    && LinkFor(s, meta, d, kind) == l
    && (kind.PhysicalAdjacency? ==> KeyFor(s, meta, d) in s.links.byKey)
    && !RefreshChanges(s.link[l], meta, kind)
  }

  lemma RefreshedSettles(k: LinkInfo, meta: Meta, kind: LinkKind, ttl: int)
    ensures !RefreshChanges(Refreshed(k, meta, kind, ttl), meta, kind)
  {
    AppendAllIn(k.vlans, meta.vlans);
  }

  lemma {:induction false} SameScan(s: Store, t: Store, list: seq<int>, iface: int, kind: LinkKind)
    requires s.links.keyOf == t.links.keyOf && s.link.Keys == t.link.Keys
    requires forall x | x in s.link :: t.link[x].kind == s.link[x].kind
    ensures FirstOfKind(t, list, iface, kind) == FirstOfKind(s, list, iface, kind)
    decreases |list|
  {
    if list != [] { SameScan(s, t, list[1..], iface, kind); }
  }

  lemma UpsertSettles(s: Store, meta: Meta, d: int, kind: LinkKind, ttl: int)
    requires Inv(s) && d in s.devices.keyOf
    ensures var u := UpsertLink(s, meta, d, kind, ttl); LinkSettled(u.store, meta, d, kind, u.link)
  {
    hide InvGap, PromoteLink, LinkFor, AllocLink, AddLink, Refreshed, RefreshChanges;
    ListsThere(s);
    LinkForThere(s, meta, d, kind);
    var u := UpsertLink(s, meta, d, kind, ttl);
    UpsertLinkInv(s, meta, d, kind, ttl);
    ListsThere(u.store);
    var key := KeyFor(s, meta, d);
    var l := LinkFor(s, meta, d, kind);
    if key in s.links.byKey || (l != -1 && !kind.PhysicalAdjacency?) {
      RefreshedSettles(s.link[l], meta, kind, ttl);
      RefreshedKind(s.link[l], meta, kind, ttl);
      StillFound(s, u.store, meta, d, kind, l);
    } else if l != -1 {
      PromoteLinkKeeps(s, l, key, meta);
      PromotedFound(s, meta, d, key, kind, ttl, l);
    } else {
      AllocLinkInv(s);
      ListsOf(AllocLink(s).0, WHOLE.(link := {AllocLink(s).1}));
      AddedFound(AllocLink(s).0, AllocLink(s).1, d, key, meta, kind, ttl);
    }
  }

  lemma RefreshedKind(k: LinkInfo, meta: Meta, kind: LinkKind, ttl: int)
    ensures !kind.PhysicalAdjacency? ==> Refreshed(k, meta, kind, ttl).kind == k.kind
  {
  }

  lemma StillFound(s: Store, t: Store, meta: Meta, d: int, kind: LinkKind, l: int)
    requires d in s.devices.keyOf && d in s.linkOwner.lists && t.devices == s.devices && t.linkOwner == s.linkOwner && t.links == s.links
    requires l in s.link && t.link.Keys == s.link.Keys && forall x | x in s.link && x != l :: t.link[x] == s.link[x]
    requires KeyFor(s, meta, d) in s.links.byKey || (!kind.PhysicalAdjacency? && t.link[l].kind == s.link[l].kind)
    requires LinkFor(s, meta, d, kind) == l
    ensures LinkFor(t, meta, d, kind) == l
  {
    if KeyFor(s, meta, d) !in s.links.byKey {
      SameScan(s, t, s.linkOwner.lists[d], meta.iface, PhysicalAdjacency);
    }
  }

  lemma PromotedFound(s: Store, meta: Meta, d: int, key: LinkKey, kind: LinkKind, ttl: int, l: int)
    requires l in s.link && l in s.links.keyOf && d in s.devices.keyOf && d in s.linkOwner.lists && key == KeyFor(s, meta, d) && l != -1
    ensures l in PromoteLink(s, l, key, meta).link
    ensures LinkSettled(RefreshLink(PromoteLink(s, l, key, meta), l, meta, kind, ttl), meta, d, kind, l)
  {
    RefreshedSettles(PromoteLink(s, l, key, meta).link[l], meta, kind, ttl);
  }

  lemma AddedFound(s: Store, l: int, d: int, key: LinkKey, meta: Meta, kind: LinkKind, ttl: int)
    requires d in s.devices.keyOf && d in s.linkOwner.lists && key == KeyFor(s, meta, d) && l != -1
    ensures LinkSettled(AddLink(s, l, d, key, meta, kind, ttl), meta, d, kind, l)
  {
    RefreshedSettles(NewLink(meta, kind, key.device), meta, kind, ttl);
  }

  /** A settled link is refreshed in place. */
  lemma SettledUpsert(s: Store, meta: Meta, later: Time, d: int, kind: LinkKind, ttl: int, l: int)
    requires Inv(s) && LinkSettled(s, meta, d, kind, l)
    ensures var m := meta.(timestamp := later);
            UpsertLink(s, m, d, kind, ttl) == Upsert(RefreshLink(s, l, m, kind, ttl), l, false, false)
  {
    hide InvGap, RefreshLink, PromoteLink, AllocLink, AddLink;
  }

  /** Link evidence leaves a settled link settled. */
  lemma EvidenceSettled(s: Store, t: Store, meta: Meta, d: int, kind: LinkKind, l: int)
    requires LinkSettled(s, meta, d, kind, l) && t.devices == s.devices && t.linkOwner == s.linkOwner && t.links == s.links
    requires t.link.Keys == s.link.Keys && (forall x | x in s.link && x != l :: t.link[x] == s.link[x]) && SameBase(s.link[l], t.link[l])
    ensures LinkSettled(t, meta, d, kind, l)
  {
    StillFound(s, t, meta, d, kind, l);
  }

  lemma LinkKnownRefreshed(e: LinkEdit, k: LinkInfo, meta: Meta, kind: LinkKind, ttl: int, p: Protocol, later: Time, w: Setting)
    requires LinkKnown(e, k, p, later, w)
    ensures LinkKnown(e, Refreshed(k, meta, kind, ttl), p, later, w)
  {
    AppendAllIn(k.vlans, meta.vlans);
  }

  // ---------- the theorem ----------

  lemma KnownDespiteTimes(e: Edit, k: DeviceInfo, r: DeviceInfo, p: Protocol, now: Time, w: Setting)
    requires r == k.(firstSeen := r.firstSeen, lastSeen := r.lastSeen, matched := r.matched)
    ensures Known(e, k, p, now, w) <==> Known(e, r, p, now, w)
    ensures FactsOf(k) == FactsOf(r)
  {
  }

  /** What an observation leaves behind: identity, evidence and link as it reports them. */
  ghost predicate Absorbed(t: Store, meta: Meta, again: Observation, later: Time, w: World, d: int, l: int) {
    && Inv(t) && d in t.info && l in t.link
    && IdentityKey(meta, again.claimed, again.addresses).Some?
    && Resolved(t.devices, meta, IdentityKey(meta, again.claimed, again.addresses).value, d)
    && AllKnown(again.edits, t.info[d], meta.protocol, later, In(w, t.limits))
    && t.info[d].matched == w.classify(FactsOf(t.info[d])) && meta.protocol in t.info[d].protocols
    && LinkSettled(t, meta, d, again.kind, l)
    && forall i | 0 <= i < |again.linkEdits| :: LinkKnown(again.linkEdits[i], t.link[l], meta.protocol, later, In(w, t.limits))
  }

  /** How long a link is held: as long as asked, at least a second. */
  function Lifetime(ttl: int): int { if ttl <= 0 then SECOND else ttl }

  lemma ConcludeAbsorbs(s: Store, meta: Meta, d: int, changed: set<Field>, wasNew: bool, o: Observation, again: Observation, later: Time, w: World)
    requires Inv(s) && d in s.devices.keyOf && LinkDistinct(o.linkEdits)
    requires again == o.(edits := again.edits) && d in s.info
    requires IdentityKey(meta, o.claimed, o.addresses).Some? && Resolved(s.devices, meta, IdentityKey(meta, o.claimed, o.addresses).value, d)
    requires AllKnown(again.edits, s.info[d], meta.protocol, later, In(w, s.limits)) && meta.protocol in s.info[d].protocols
    ensures exists l :: Absorbed(Conclude(s, meta, d, changed, wasNew, o, w), meta, again, later, w, d, l)
              && l in Conclude(s, meta, d, changed, wasNew, o, w).link
              && Conclude(s, meta, d, changed, wasNew, o, w).link[l].expires.Get(meta.protocol) == meta.timestamp + Lifetime(o.ttl)
  {
    hide InvGap, UpsertLink, ApplyLinkAll, Known, RefreshChanges, LinkFor, FactsOf, LinkKnown, SameBase, Timed;
    UpsertLinkInv(s, meta, d, o.kind, o.ttl);
    var u := UpsertLink(s, meta, d, o.kind, o.ttl);
    ListsThere(u.store);
    LinkThere(u.store, u.link);
    UpsertSettles(s, meta, d, o.kind, o.ttl);
    var k := u.store.link[u.link];
    LinkEditsBase(o.linkEdits, k, meta.protocol, meta.timestamp, In(w, s.limits));
    LinkAllKnown(o.linkEdits, k, meta.protocol, meta.timestamp, later, In(w, s.limits));
    var t := Conclude(s, meta, d, changed, wasNew, o, w);
    ConcludeInv(s, meta, d, changed, wasNew, o, w);
    UpsertDeadline(s, meta, d, o.kind, o.ttl);
    BaseDeadlines(k, ApplyLinkAll(o.linkEdits, k, meta.protocol, meta.timestamp, In(w, s.limits)).0);
    EvidenceSettled(u.store, t, meta, d, o.kind, u.link);
    forall i | 0 <= i < |again.edits| ensures Known(again.edits[i], t.info[d], meta.protocol, later, In(w, s.limits)) {
      KnownDespiteTimes(again.edits[i], s.info[d], t.info[d], meta.protocol, later, In(w, s.limits));
    }
    FactsDespite(s.info[d], t.info[d]);
    assert Absorbed(t, meta, again, later, w, d, u.link);
  }

  lemma FactsDespite(k: DeviceInfo, r: DeviceInfo)
    requires r == k.(firstSeen := r.firstSeen, lastSeen := r.lastSeen, matched := r.matched)
    ensures FactsOf(k) == FactsOf(r)
  {
  }

  lemma ObservedAbsorbs(s: Store, meta: Meta, o: Observation, again: Observation, later: Time, w: World) returns (d: int, l: int)
    requires Inv(s) && IdentityKey(meta, o.claimed, o.addresses).Some?
    requires Distinct(o.edits) && LinkDistinct(o.linkEdits) && Speaks in o.edits
    requires again == o.(edits := again.edits) && Repeats(o.edits, again.edits, meta.timestamp, later)
    ensures Absorbed(Observed(s, meta, o, w), meta, again, later, w, d, l) && d == DeviceFor(s, meta, o.claimed, o.addresses).1
    ensures l in Observed(s, meta, o, w).link && Observed(s, meta, o, w).link[l].expires.Get(meta.protocol) == meta.timestamp + Lifetime(o.ttl)
  {
    hide InvGap, DeviceFor, ApplyAll, Conclude, Known, RepeatsOne, SameTarget, Absorbed;
    DeviceForInv(s, meta, o.claimed, o.addresses);
    DeviceForResolves(s, meta, o.claimed, o.addresses);
    var r := DeviceFor(s, meta, o.claimed, o.addresses);
    d := r.1;
    ListsThere(r.0);
    var k := r.0.info[d];
    var a := ApplyAll(o.edits, k, meta.protocol, meta.timestamp, In(w, s.limits));
    var k' := Timestamped(a.0, meta.timestamp);
    var s1 := r.0.(info := r.0.info[d := k']);
    InfoInv(r.0, s1);
    AppliedAllKnown(o.edits, again.edits, k, meta.protocol, meta.timestamp, later, In(w, s.limits));
    forall i | 0 <= i < |again.edits| ensures Known(again.edits[i], k', meta.protocol, later, In(w, s.limits)) {
      KnownDespiteTimes(again.edits[i], a.0, k', meta.protocol, later, In(w, s.limits));
    }
    SpokenKnown(o.edits, again.edits, k', meta.protocol, meta.timestamp, later, In(w, s.limits));
    ConcludeAbsorbs(s1, meta, d, a.1, k.protocols == {}, o, again, later, w);
    l :| Absorbed(Conclude(s1, meta, d, a.1, k.protocols == {}, o, w), meta, again, later, w, d, l)
         && l in Conclude(s1, meta, d, a.1, k.protocols == {}, o, w).link
         && Conclude(s1, meta, d, a.1, k.protocols == {}, o, w).link[l].expires.Get(meta.protocol) == meta.timestamp + Lifetime(o.ttl);
  }

  lemma SpokenKnown(edits: seq<Edit>, again: seq<Edit>, k: DeviceInfo, p: Protocol, now: Time, later: Time, w: Setting)
    requires Speaks in edits && Repeats(edits, again, now, later) && AllKnown(again, k, p, later, w)
    ensures p in k.protocols
  {
    var i :| 0 <= i < |edits| && edits[i] == Speaks;
    assert RepeatsOne(edits[i], again[i], now, later);
    assert Known(again[i], k, p, later, w);
  }

  lemma AbsorbedQuiet(t: Store, meta: Meta, o: Observation, later: Time, w: World, d: int, l: int)
    requires Absorbed(t, meta, o, later, w, d, l) && Distinct(o.edits) && LinkDistinct(o.linkEdits)
    ensures var u := Observed(t, meta.(timestamp := later), o, w);
            && u.events == t.events && u.devices == t.devices && u.links == t.links && u.linkOwner == t.linkOwner
            && u.records == t.records && u.recordOwner == t.recordOwner
  {
    hide InvGap, DeviceFor, ApplyAll, ApplyLinkAll, Known, LinkKnown, SameTarget, UpsertLink, LinkFor, RefreshChanges, FactsOf, Refreshed, Resolved;
    var m := meta.(timestamp := later);
    var p := meta.protocol;
    ResolvedAgain(t, meta, later, o.claimed, o.addresses, d);
    DeviceForInv(t, m, o.claimed, o.addresses);
    var k := t.info[d];
    KnownAllQuiet(o.edits, k, p, later, In(w, t.limits), |o.edits|);
    assert o.edits[..|o.edits|] == o.edits;
    var a := ApplyAll(o.edits, k, p, later, In(w, t.limits));
    var k' := Timestamped(a.0, later);
    var s1 := t.(info := t.info[d := k']);
    InfoInv(t, s1);
    FactsDespite(a.0, k');
    MatchedKept(o.edits, k, p, later, In(w, t.limits));
    EvidenceFree(t, s1, meta, d, o.kind, l);
    SettledUpsert(s1, meta, later, d, o.kind, o.ttl, l);
    var r := Refreshed(t.link[l], m, o.kind, o.ttl);
    forall i | 0 <= i < |o.linkEdits| ensures LinkKnown(o.linkEdits[i], r, p, later, In(w, t.limits)) {
      LinkKnownRefreshed(o.linkEdits[i], t.link[l], m, o.kind, o.ttl, p, later, In(w, t.limits));
    }
    LinkKnownAllQuiet(o.linkEdits, r, p, later, In(w, t.limits), |o.linkEdits|);
    assert o.linkEdits[..|o.linkEdits|] == o.linkEdits;
  }

  lemma EvidenceFree(s: Store, t: Store, meta: Meta, d: int, kind: LinkKind, l: int)
    requires LinkSettled(s, meta, d, kind, l) && t == s.(info := t.info)
    ensures LinkSettled(t, meta, d, kind, l)
  {
    SameScan(s, t, s.linkOwner.lists[d], meta.iface, if kind.PhysicalAdjacency? then SegmentPresence else PhysicalAdjacency);
  }

  /** Device evidence never touches the classification or the first sighting. */
  lemma {:induction false} MatchedKept(edits: seq<Edit>, k: DeviceInfo, p: Protocol, now: Time, w: Setting)
    ensures ApplyAll(edits, k, p, now, w).0.matched == k.matched
    decreases |edits|
  {
    if edits != [] { MatchedKept(edits[..|edits| - 1], k, p, now, w); }
  }

  /** The same message again, at any later time, emits nothing and takes no slot: identity, text,
      addresses, link and classification are all found as they were left. */
  lemma RepeatedObservation(s: Store, meta: Meta, o: Observation, again: Observation, later: Time, w: World)
    requires Inv(s) && Distinct(o.edits) && LinkDistinct(o.linkEdits) && Speaks in o.edits
    requires again == o.(edits := again.edits) && Repeats(o.edits, again.edits, meta.timestamp, later)
    ensures var t := Observed(s, meta, o, w); Inv(t)
    ensures var t := Observed(s, meta, o, w);
            var u := Observed(t, meta.(timestamp := later), again, w);
            && u.events == t.events && u.devices == t.devices && u.links == t.links && u.linkOwner == t.linkOwner
            && u.records == t.records && u.recordOwner == t.recordOwner
  {
    hide Observed, Absorbed, SameTarget, RepeatsOne, InvGap, IdentityKey;
    ObservedInv(s, meta, o, w);
    var t := Observed(s, meta, o, w);
    if IdentityKey(meta, o.claimed, o.addresses).Some? {
      var d, l := ObservedAbsorbs(s, meta, o, again, later, w);
      RepeatDistinct(o.edits, again.edits, meta.timestamp, later);
      AbsorbedQuiet(t, meta, again, later, w, d, l);
    } else {
      Unidentified(t, meta, later, again, w);
    }
  }

  lemma Unidentified(t: Store, meta: Meta, later: Time, o: Observation, w: World)
    requires Inv(t) && IdentityKey(meta, o.claimed, o.addresses).None?
    ensures Observed(t, meta.(timestamp := later), o, w) == t
  {
    hide InvGap;
  }

  lemma RepeatDistinct(edits: seq<Edit>, again: seq<Edit>, now: Time, later: Time)
    requires Distinct(edits) && Repeats(edits, again, now, later)
    ensures Distinct(again)
  {
    forall i, j | 0 <= i < |again| && 0 <= j < |again| && i != j ensures !SameTarget(again[i], again[j]) {
      assert RepeatsOne(edits[i], again[i], now, later) && RepeatsOne(edits[j], again[j], now, later);
      assert !SameTarget(edits[i], edits[j]);
    }
  }

  // ---------- for each protocol ----------

  predicate Bare(e: Edit) { e.SawMAC? || e.ClaimsMAC? || e.HasAddress? }

  ghost predicate WellSpoken(e: seq<Edit>) {
    && Distinct(e) && e != [] && e[|e| - 1] == Speaks
    && forall i | 0 <= i < |e| :: !Bare(e[i]) && !(e[i].Says? && e[i].slot.Vendor?)
  }

  /** MACs and addresses never share a target with what is spoken. */
  lemma BareThenSpoken(bare: seq<Edit>, spoken: seq<Edit>)
    requires (forall i | 0 <= i < |bare| :: Bare(bare[i])) && WellSpoken(spoken)
    ensures Distinct(bare + spoken) && Speaks in bare + spoken
  {
    var all := bare + spoken;
    assert all[|all| - 1] == Speaks;
    forall i, j | 0 <= i < |all| && 0 <= j < |all| && i != j ensures !SameTarget(all[i], all[j]) {
      if i >= |bare| && j >= |bare| { assert !SameTarget(spoken[i - |bare|], spoken[j - |bare|]); }
      else if i < |bare| { assert Bare(bare[i]); } else { assert Bare(bare[j]) && !Bare(spoken[i - |bare|]); }
    }
  }

  lemma LLDPSpokenDistinct(m: LLDPMessage)
    ensures WellSpoken(LLDPSpoken(m))
  {
  }

  lemma LLDPDistinct(meta: Meta, m: LLDPMessage)
    ensures var o := LLDPObservation(meta, m); Distinct(o.edits) && LinkDistinct(o.linkEdits) && Speaks in o.edits
  {
    hide SameTarget, LLDPSpoken;
    var o := LLDPObservation(meta, m);
    var claimed := ChassisMAC(m.chassis);
    var bare := Sighting(meta) + (if IsUnicast(claimed) && claimed != meta.sourceMAC then [ClaimsMAC(claimed)] else []) + Addresses(m.addresses);
    assert o.edits == bare + LLDPSpoken(m);
    LLDPSpokenDistinct(m);
    BareThenSpoken(bare, LLDPSpoken(m));
  }

  lemma RepeatSame(edits: seq<Edit>, now: Time, later: Time)
    requires now <= later && forall i | 0 <= i < |edits| :: !edits[i].UpFor?
    ensures Repeats(edits, edits, now, later)
  {
    forall i | 0 <= i < |edits| ensures RepeatsOne(edits[i], edits[i], now, later) {}
  }

  /** What an LLDP message says has no uptime, and does not depend on when it is heard. */
  lemma LLDPAlike(meta: Meta, m: LLDPMessage, later: Time)
    ensures LLDPObservation(meta.(timestamp := later), m) == LLDPObservation(meta, m)
    ensures var o := LLDPObservation(meta, m);
            && o.claimed == ChassisMAC(m.chassis) && o.addresses == m.addresses && o.kind == PhysicalAdjacency && o.ttl == m.ttl * SECOND
            && forall i | 0 <= i < |o.edits| :: !o.edits[i].UpFor?
  {
    hide ChassisMAC, IsUnicast;
  }

  /** An identical LLDP refresh is silent. */
  lemma RepeatedLLDP(s: Store, meta: Meta, m: LLDPMessage, later: Time, w: World)
    requires Inv(s) && meta.timestamp <= later
    ensures var t := Observed(s, meta, LLDPObservation(meta, m), w); Inv(t)
    ensures var t := Observed(s, meta, LLDPObservation(meta, m), w);
            var again := meta.(timestamp := later);
            var u := Observed(t, again, LLDPObservation(again, m), w);
            u.events == t.events && u.devices == t.devices && u.links == t.links && u.records == t.records
  {
    hide Observed, InvGap, Repeats, Distinct, LinkDistinct, LLDPObservation;
    var o := LLDPObservation(meta, m);
    LLDPAlike(meta, m, later);
    LLDPDistinct(meta, m);
    RepeatSame(o.edits, meta.timestamp, later);
    RepeatedObservation(s, meta, o, o, later, w);
  }

  lemma CDPSpokenDistinct(m: CDPMessage)
    ensures WellSpoken(CDPSpoken(m))
  {
  }

  lemma CDPDistinct(meta: Meta, m: CDPMessage)
    ensures var o := CDPObservation(meta, m); Distinct(o.edits) && LinkDistinct(o.linkEdits) && Speaks in o.edits
  {
    hide SameTarget, CDPSpoken;
    var o := CDPObservation(meta, m);
    CDPSpokenDistinct(m);
    var bare := Sighting(meta) + Addresses(m.addresses) + Addresses(m.managementAddresses);
    assert o.edits == bare + CDPSpoken(m);
    BareThenSpoken(bare, CDPSpoken(m));
  }

  lemma CDPAlike(meta: Meta, m: CDPMessage, later: Time)
    ensures CDPObservation(meta.(timestamp := later), m) == CDPObservation(meta, m)
    ensures var o := CDPObservation(meta, m);
            && o.claimed == NO_MAC && o.addresses == m.addresses && o.kind == PhysicalAdjacency && o.ttl == m.ttl * SECOND
            && forall i | 0 <= i < |o.edits| :: !o.edits[i].UpFor?
  {
    hide IsUnicast;
  }

  /** An identical CDP refresh is silent. */
  lemma RepeatedCDP(s: Store, meta: Meta, m: CDPMessage, later: Time, w: World)
    requires Inv(s) && meta.timestamp <= later
    ensures var t := Observed(s, meta, CDPObservation(meta, m), w); Inv(t)
    ensures var t := Observed(s, meta, CDPObservation(meta, m), w);
            var again := meta.(timestamp := later);
            var u := Observed(t, again, CDPObservation(again, m), w);
            u.events == t.events && u.devices == t.devices && u.links == t.links && u.records == t.records
  {
    hide Observed, InvGap, Repeats, Distinct, LinkDistinct, CDPObservation;
    var o := CDPObservation(meta, m);
    CDPAlike(meta, m, later);
    CDPDistinct(meta, m);
    RepeatSame(o.edits, meta.timestamp, later);
    RepeatedObservation(s, meta, o, o, later, w);
  }

  lemma MNDPSpokenDistinct(m: MNDPMessage)
    ensures WellSpoken(MNDPSpoken(m))
  {
  }

  lemma MNDPDistinct(meta: Meta, m: MNDPMessage, idleTTL: int)
    ensures var o := MNDPObservation(meta, m, idleTTL); Distinct(o.edits) && LinkDistinct(o.linkEdits) && Speaks in o.edits
  {
    hide SameTarget, MNDPSpoken;
    var o := MNDPObservation(meta, m, idleTTL);
    MNDPSpokenDistinct(m);
    var bare := Sighting(meta) + (if m.mac.Some? then [ClaimsMAC(m.mac.value)] else [])
      + [HasAddress(meta.sourceIP)] + Addresses(ZonedAll(m.addresses, meta.interfaceName));
    assert o.edits == bare + MNDPSpoken(m);
    BareThenSpoken(bare, MNDPSpoken(m));
  }

  /** An uptime announced at later within five seconds of what the one announced at now predicts. */
  predicate Predicted(seconds: nat, next: nat, now: Time, later: Time) {
    Apart(next, seconds + (if later > now then (later - now) / SECOND else 0)) <= 5
  }

  /** The next announcement: the same but for an uptime near its prediction. */
  predicate NextAnnouncement(m: MNDPMessage, n: MNDPMessage, now: Time, later: Time) {
    && n == m.(uptime := n.uptime) && (m.uptime.Some? <==> n.uptime.Some?)
    && (m.uptime.Some? ==> Predicted(m.uptime.value, n.uptime.value, now, later))
  }

  lemma MNDPRepeats(meta: Meta, m: MNDPMessage, n: MNDPMessage, idleTTL: int, later: Time)
    requires meta.timestamp <= later && NextAnnouncement(m, n, meta.timestamp, later)
    ensures Repeats(MNDPObservation(meta, m, idleTTL).edits, MNDPObservation(meta, n, idleTTL).edits, meta.timestamp, later)
  {
    hide RepeatsOne, Sighting, Addresses, MNDPSpoken;
    var bare := Sighting(meta) + (if m.mac.Some? then [ClaimsMAC(m.mac.value)] else [])
      + [HasAddress(meta.sourceIP)] + Addresses(ZonedAll(m.addresses, meta.interfaceName));
    NoUptime(meta, m);
    SpokenRepeats(m, n, meta.timestamp, later);
    RepeatSame(bare, meta.timestamp, later);
    RepeatsBoth(bare, bare, MNDPSpoken(m), MNDPSpoken(n), meta.timestamp, later);
    assert MNDPObservation(meta, m, idleTTL).edits == bare + MNDPSpoken(m);
    assert MNDPObservation(meta, n, idleTTL).edits == bare + MNDPSpoken(n);
  }

  lemma NoUptime(meta: Meta, m: MNDPMessage)
    ensures var bare := Sighting(meta) + (if m.mac.Some? then [ClaimsMAC(m.mac.value)] else [])
              + [HasAddress(meta.sourceIP)] + Addresses(ZonedAll(m.addresses, meta.interfaceName));
            forall i | 0 <= i < |bare| :: !bare[i].UpFor?
  {
  }

  lemma SpokenRepeats(m: MNDPMessage, n: MNDPMessage, now: Time, later: Time)
    requires now <= later && NextAnnouncement(m, n, now, later)
    ensures Repeats(MNDPSpoken(m), MNDPSpoken(n), now, later)
  {
    var e, f := MNDPSpoken(m), MNDPSpoken(n);
    forall i | 0 <= i < |e| ensures RepeatsOne(e[i], f[i], now, later) {}
  }

  lemma RepeatsBoth(a: seq<Edit>, b: seq<Edit>, c: seq<Edit>, d: seq<Edit>, now: Time, later: Time)
    requires Repeats(a, b, now, later) && Repeats(c, d, now, later)
    ensures Repeats(a + c, b + d, now, later)
  {
    hide RepeatsOne;
    forall i | 0 <= i < |a + c| ensures RepeatsOne((a + c)[i], (b + d)[i], now, later) {
      if i >= |a| { assert RepeatsOne(c[i - |a|], d[i - |a|], now, later); }
    }
  }

  /** An MNDP refresh whose uptime is as predicted is silent: the baseline moves on without an event. */
  lemma RepeatedMNDP(s: Store, meta: Meta, m: MNDPMessage, n: MNDPMessage, idleTTL: int, later: Time, w: World)
    requires Inv(s) && meta.timestamp <= later && NextAnnouncement(m, n, meta.timestamp, later)
    ensures var t := ObservedMNDP(s, meta, m, idleTTL, w); Inv(t)
    ensures var t := ObservedMNDP(s, meta, m, idleTTL, w);
            var u := ObservedMNDP(t, meta.(timestamp := later), n, idleTTL, w);
            u.events == t.events && u.devices == t.devices && u.links == t.links && u.records == t.records
  {
    hide Observed, InvGap, Repeats, Distinct, LinkDistinct, Predicted, MNDPObservation;
    var o := MNDPObservation(meta, m, idleTTL);
    MNDPDistinct(meta, m, idleTTL);
    MNDPRepeats(meta, m, n, idleTTL, later);
    NextAlike(meta, m, n, idleTTL, later);
    RepeatedObservation(s, meta, o, MNDPObservation(meta, n, idleTTL), later, w);
  }

  lemma NextAlike(meta: Meta, m: MNDPMessage, n: MNDPMessage, idleTTL: int, later: Time)
    requires n == m.(uptime := n.uptime)
    ensures MNDPObservation(meta, n, idleTTL) == MNDPObservation(meta, m, idleTTL).(edits := MNDPObservation(meta, n, idleTTL).edits)
    ensures MNDPObservation(meta.(timestamp := later), n, idleTTL) == MNDPObservation(meta, n, idleTTL)
    ensures n.isRefresh == m.isRefresh
  {
    hide Sighting, MNDPSpoken, ZonedAll, Addresses;
    assert Sighting(meta.(timestamp := later)) == Sighting(meta) by { SightingTimeless(meta, later); }
  }

  lemma SightingTimeless(meta: Meta, later: Time)
    ensures Sighting(meta.(timestamp := later)) == Sighting(meta)
  {
  }

  // ---------- an uptime off its prediction ----------

  /** Where the uptime is among the evidence. */
  ghost predicate UptimeAt(edits: seq<Edit>, j: nat) {
    j < |edits| && edits[j].UpFor? && forall i | 0 <= i < |edits| && i != j :: !edits[i].UpFor?
  }

  lemma UptimeOnly(e: Edit, k: DeviceInfo, p: Protocol, now: Time, w: Setting)
    requires !e.UpFor?
    ensures Apply(e, k, p, now, w).0.uptime == k.uptime
  {
    hide Text.MergeText;
  }

  lemma {:induction false} UptimeUntouched(edits: seq<Edit>, k: DeviceInfo, p: Protocol, now: Time, w: Setting)
    requires forall i | 0 <= i < |edits| :: !edits[i].UpFor?
    ensures ApplyAll(edits, k, p, now, w).0.uptime == k.uptime
  {
    hide Apply;
    if edits != [] {
      var n := |edits| - 1;
      UptimeUntouched(edits[..n], k, p, now, w);
      UptimeOnly(edits[n], ApplyAll(edits[..n], k, p, now, w).0, p, now, w);
    }
  }

  lemma UptimeApplied(e: Edit, k: DeviceInfo, p: Protocol, now: Time, w: Setting)
    requires e.UpFor?
    ensures var u := MergeUptime(k.uptime, e.seconds, p, now);
            Apply(e, k, p, now, w).0.uptime == u.0 && (u.1 ==> FieldUptime in Apply(e, k, p, now, w).1)
  {
    hide MergeUptime;
  }

  /** Whatever else a message says, its uptime is merged into what was known before the message. */
  lemma {:induction false} UptimeTaken(edits: seq<Edit>, j: nat, k: DeviceInfo, p: Protocol, now: Time, w: Setting)
    requires UptimeAt(edits, j)
    ensures var u := MergeUptime(k.uptime, edits[j].seconds, p, now);
            ApplyAll(edits, k, p, now, w).0.uptime == u.0 && (u.1 ==> FieldUptime in ApplyAll(edits, k, p, now, w).1)
    decreases |edits|
  {
    hide Apply, MergeUptime;
    var n := |edits| - 1;
    if j == n {
      UptimeUntouched(edits[..n], k, p, now, w);
      UptimeApplied(edits[n], ApplyAll(edits[..n], k, p, now, w).0, p, now, w);
    } else {
      UptimeTaken(edits[..n], j, k, p, now, w);
      UptimeOnly(edits[n], ApplyAll(edits[..n], k, p, now, w).0, p, now, w);
    }
  }

  /** Anything changed makes an event, which names it. */
  lemma ConcludeEmits(s: Store, meta: Meta, d: int, changed: set<Field>, wasNew: bool, o: Observation, w: World)
    requires Inv(s) && d in s.devices.keyOf && changed != {}
    ensures var t := Conclude(s, meta, d, changed, wasNew, o, w);
            |t.events| > |s.events| && changed <= t.events[|t.events| - 1].changed
  {
    hide InvGap, UpsertLink, ApplyLinkAll, FactsOf;
    UpsertLinkInv(s, meta, d, o.kind, o.ttl);
    UpsertEvents(s, meta, d, o.kind, o.ttl);
    var u := UpsertLink(s, meta, d, o.kind, o.ttl);
    ListsThere(u.store);
    LinkThere(u.store, u.link);
  }

  lemma UpsertEvents(s: Store, meta: Meta, d: int, kind: LinkKind, ttl: int)
    requires Inv(s) && d in s.devices.keyOf
    ensures |UpsertLink(s, meta, d, kind, ttl).store.events| >= |s.events|
  {
    hide InvGap, Refreshed, LinkFor, Complete, Disown, Release, Own, Insert;
    ListsThere(s);
    LinkForThere(s, meta, d, kind);
    AllocLinkInv(s);
    ListsOf(AllocLink(s).0, WHOLE.(link := {AllocLink(s).1}));
    AllocLinkEvents(s);
  }

  lemma AllocLinkEvents(s: Store)
    requires Inv(s)
    ensures |AllocLink(s).0.events| >= |s.events|
  {
    hide InvGap, Disown, Release, Oldest;
    if s.links.free == [] { AllocLinkStep(s); }
  }

  /** An identified observation leaves its device resolved, with the uptime it announced. */
  lemma ObservedUptime(s: Store, meta: Meta, o: Observation, j: nat, w: World) returns (d: int)
    requires Inv(s) && IdentityKey(meta, o.claimed, o.addresses).Some? && UptimeAt(o.edits, j)
    ensures var t := Observed(s, meta, o, w);
            && Inv(t) && t.limits == s.limits && d in t.info && d == DeviceFor(s, meta, o.claimed, o.addresses).1
            && Resolved(t.devices, meta, IdentityKey(meta, o.claimed, o.addresses).value, d)
            && t.info[d].uptime.valid && t.info[d].uptime.seconds == o.edits[j].seconds && t.info[d].uptime.observedAt == meta.timestamp
  {
    hide InvGap, DeviceFor, ApplyAll, Conclude, Resolved, IdentityKey;
    DeviceForInv(s, meta, o.claimed, o.addresses);
    DeviceForResolves(s, meta, o.claimed, o.addresses);
    ObservedInv(s, meta, o, w);
    var r := DeviceFor(s, meta, o.claimed, o.addresses);
    d := r.1;
    ListsThere(r.0);
    var k := r.0.info[d];
    var a := ApplyAll(o.edits, k, meta.protocol, meta.timestamp, In(w, s.limits));
    UptimeTaken(o.edits, j, k, meta.protocol, meta.timestamp, In(w, s.limits));
    var s1 := r.0.(info := r.0.info[d := Timestamped(a.0, meta.timestamp)]);
    InfoInv(r.0, s1);
    ConcludeInv(s1, meta, d, a.1, k.protocols == {}, o, w);
    ConcludeInfo(s1, meta, d, a.1, k.protocols == {}, o, w);
  }

  /** The end of an observation leaves its device but for the classification. */
  lemma ConcludeInfo(s: Store, meta: Meta, d: int, changed: set<Field>, wasNew: bool, o: Observation, w: World)
    requires Inv(s) && d in s.devices.keyOf
    ensures d in s.info
    ensures var t := Conclude(s, meta, d, changed, wasNew, o, w);
            d in t.info && t.info[d] == s.info[d].(matched := t.info[d].matched)
  {
    hide InvGap, UpsertLink, ApplyLinkAll, FactsOf;
    ListsThere(s);
    UpsertLinkInv(s, meta, d, o.kind, o.ttl);
    var u := UpsertLink(s, meta, d, o.kind, o.ttl);
    ListsThere(u.store);
    LinkThere(u.store, u.link);
  }

  /** An observation whose uptime is off what its resolved device predicts reports it. */
  lemma OffPredictionReports(t: Store, meta: Meta, o: Observation, j: nat, w: World, d: int)
    requires Inv(t) && d in t.info && IdentityKey(meta, o.claimed, o.addresses).Some? && UptimeAt(o.edits, j)
    requires Resolved(t.devices, meta, IdentityKey(meta, o.claimed, o.addresses).value, d)
    requires MergeUptime(t.info[d].uptime, o.edits[j].seconds, meta.protocol, meta.timestamp).1
    ensures var u := Observed(t, meta, o, w); |u.events| > |t.events| && FieldUptime in u.events[|u.events| - 1].changed
  {
    hide InvGap, DeviceFor, ApplyAll, Conclude, MergeUptime, IdentityKey;
    ResolvedAgain(t, meta, meta.timestamp, o.claimed, o.addresses, d);
    assert meta.(timestamp := meta.timestamp) == meta;
    DeviceForInv(t, meta, o.claimed, o.addresses);
    var k := t.info[d];
    var a := ApplyAll(o.edits, k, meta.protocol, meta.timestamp, In(w, t.limits));
    UptimeTaken(o.edits, j, k, meta.protocol, meta.timestamp, In(w, t.limits));
    var s1 := t.(info := t.info[d := Timestamped(a.0, meta.timestamp)]);
    InfoInv(t, s1);
    ConcludeEmits(s1, meta, d, a.1, k.protocols == {}, o, w);
  }

  lemma MNDPUptimeAt(meta: Meta, m: MNDPMessage, idleTTL: int) returns (j: nat)
    requires m.uptime.Some?
    ensures var e := MNDPObservation(meta, m, idleTTL).edits; UptimeAt(e, j) && e[j].seconds == m.uptime.value
  {
    hide Sighting, Addresses;
    var bare := Sighting(meta) + (if m.mac.Some? then [ClaimsMAC(m.mac.value)] else [])
      + [HasAddress(meta.sourceIP)] + Addresses(ZonedAll(m.addresses, meta.interfaceName));
    NoUptime(meta, m);
    assert MNDPObservation(meta, m, idleTTL).edits == bare + MNDPSpoken(m);
    j := |bare| + 4;
    assert MNDPSpoken(m)[4] == UpFor(m.uptime.value);
  }

  /** An identified MNDP announcement with an uptime, announced again with any uptime at any later
      time: silent if and only if that uptime is within five seconds of the prediction. */
  lemma SilentMNDP(s: Store, meta: Meta, m: MNDPMessage, n: MNDPMessage, idleTTL: int, later: Time, w: World)
    requires Inv(s) && meta.timestamp <= later && n == m.(uptime := n.uptime) && m.uptime.Some? && n.uptime.Some? && !m.isRefresh
    requires IdentityKey(meta, if m.mac.Some? then m.mac.value else NO_MAC, m.addresses).Some?
    ensures var t := ObservedMNDP(s, meta, m, idleTTL, w); Inv(t)
    ensures var t := ObservedMNDP(s, meta, m, idleTTL, w);
            var u := ObservedMNDP(t, meta.(timestamp := later), n, idleTTL, w);
            u.events == t.events <==> Predicted(m.uptime.value, n.uptime.value, meta.timestamp, later)
  {
    hide Observed, InvGap, MNDPObservation, IdentityKey, Resolved, UptimeAt, Predicted;
    var o, again := MNDPObservation(meta, m, idleTTL), MNDPObservation(meta, n, idleTTL);
    ObservedInv(s, meta, o, w);
    if Predicted(m.uptime.value, n.uptime.value, meta.timestamp, later) {
      RepeatedMNDP(s, meta, m, n, idleTTL, later, w);
    } else {
      NextAlike(meta, m, n, idleTTL, later);
      MNDPHints(meta, m, idleTTL);
      var i := MNDPUptimeAt(meta, m, idleTTL);
      var j := MNDPUptimeAt(meta, n, idleTTL);
      var t := Observed(s, meta, o, w);
      var d := ObservedUptime(s, meta, o, i, w);
      NotPredicted(t.info[d].uptime, n.uptime.value, m.uptime.value, meta.protocol, meta.timestamp, later);
      SameIdentity(meta, later, again.claimed, again.addresses, t.devices, d);
      OffPredictionReports(t, meta.(timestamp := later), again, j, w, d);
    }
  }

  lemma MNDPHints(meta: Meta, m: MNDPMessage, idleTTL: int)
    ensures var o := MNDPObservation(meta, m, idleTTL); o.claimed == (if m.mac.Some? then m.mac.value else NO_MAC) && o.addresses == m.addresses
  {
  }

  lemma SameIdentity(meta: Meta, later: Time, claimed: MAC, addresses: seq<Addr>, devices: Slab<DeviceKey>, d: int)
    ensures var m := meta.(timestamp := later);
            && IdentityKey(m, claimed, addresses) == IdentityKey(meta, claimed, addresses)
            && forall key :: Resolved(devices, m, key, d) <==> Resolved(devices, meta, key, d)
  {
  }

  lemma NotPredicted(u: Uptime, next: nat, seconds: nat, p: Protocol, now: Time, later: Time)
    requires u.valid && u.seconds == seconds && u.observedAt == now && !Predicted(seconds, next, now, later)
    ensures MergeUptime(u, next, p, later).1
  {
  }

  /** So the identical message with an uptime is silent for six seconds, and never after. */
  lemma IdenticalMNDP(s: Store, meta: Meta, m: MNDPMessage, idleTTL: int, later: Time, w: World)
    requires Inv(s) && meta.timestamp <= later && m.uptime.Some? && !m.isRefresh
    requires IdentityKey(meta, if m.mac.Some? then m.mac.value else NO_MAC, m.addresses).Some?
    ensures var t := ObservedMNDP(s, meta, m, idleTTL, w); Inv(t)
    ensures var t := ObservedMNDP(s, meta, m, idleTTL, w);
            ObservedMNDP(t, meta.(timestamp := later), m, idleTTL, w).events == t.events <==> later - meta.timestamp < 6 * SECOND
  {
    hide ObservedMNDP, InvGap, IdentityKey;
    SilentMNDP(s, meta, m, m, idleTTL, later, w);
  }
}
