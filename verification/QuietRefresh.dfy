/** Refreshes with ticks in between: when a message heard again, any number of ticks later, is silent. */
module QuietRefreshes {
  import opened Model
  import opened FusionTypes
  import opened Slabs
  import Text
  import opened Stores
  import opened Timing
  import opened Fusion
  import opened DNSCache
  import opened Observe
  import opened Observations
  import opened QuietRepeat
  import opened Expiry
  import opened Runs
  import opened Completeness

  // ---------- a known device, and whether its link is found ----------

  /** All a message says of its device is known; its link is another matter. */
  ghost predicate Acquainted(s: Store, meta: Meta, o: Observation, later: Time, w: World, d: int) {
    && Inv(s) && d in s.info && d in s.devices.keyOf && d in s.linkOwner.lists
    && IdentityKey(meta, o.claimed, o.addresses).Some?
    && Resolved(s.devices, meta, IdentityKey(meta, o.claimed, o.addresses).value, d)
    && AllKnown(o.edits, s.info[d], meta.protocol, later, In(w, s.limits))
    && s.info[d].matched == w.classify(FactsOf(s.info[d])) && meta.protocol in s.info[d].protocols
  }

  ghost predicate EvidenceKnown(edits: seq<LinkEdit>, k: LinkInfo, p: Protocol, now: Time, w: Setting) {
    forall i | 0 <= i < |edits| :: LinkKnown(edits[i], k, p, now, w)
  }

  /** The link a message falls on is there, carries its protocol, and is as the message says. */
  ghost predicate HasLink(s: Store, meta: Meta, o: Observation, later: Time, w: World, d: int)
    requires d in s.devices.keyOf && d in s.linkOwner.lists
  {
    var l := LinkFor(s, meta, d, o.kind);
    LinkSettled(s, meta, d, o.kind, l) && EvidenceKnown(o.linkEdits, s.link[l], meta.protocol, later, In(w, s.limits))
  }

  lemma AbsorbedMeans(s: Store, meta: Meta, o: Observation, later: Time, w: World, d: int, l: int)
    requires Absorbed(s, meta, o, later, w, d, l)
    ensures Acquainted(s, meta, o, later, w, d) && LinkFor(s, meta, d, o.kind) == l && HasLink(s, meta, o, later, w, d)
  {
    hide InvGap, LinkFor, Known, LinkKnown, RefreshChanges;
    ListsThere(s);
  }

  lemma Absorbs(s: Store, meta: Meta, o: Observation, later: Time, w: World, d: int)
    requires Acquainted(s, meta, o, later, w, d) && HasLink(s, meta, o, later, w, d)
    ensures Absorbed(s, meta, o, later, w, d, LinkFor(s, meta, d, o.kind))
  {
    hide InvGap, LinkFor, Known, LinkKnown, RefreshChanges;
  }

  // ---------- news about a link ----------

  /** Known evidence leaves other evidence as known, or as new, as it was. */
  lemma LinkNewsKept(e: LinkEdit, f: LinkEdit, k: LinkInfo, p: Protocol, now: Time, w: Setting)
    requires LinkKnown(f, k, p, now, w) && !SameLinkTarget(e, f)
    ensures LinkKnown(e, ApplyLink(f, k, p, now, w).0, p, now, w) <==> LinkKnown(e, k, p, now, w)
  {
    hide Text.MergeText;
  }

  /** Evidence about a link is no news if and only if each piece is known to begin with. */
  lemma {:induction false} LinkAllNews(edits: seq<LinkEdit>, k: LinkInfo, p: Protocol, now: Time, w: Setting)
    requires LinkDistinct(edits)
    ensures !ApplyLinkAll(edits, k, p, now, w).1 <==> EvidenceKnown(edits, k, p, now, w)
    ensures EvidenceKnown(edits, k, p, now, w) ==>
              forall e | forall i | 0 <= i < |edits| :: !SameLinkTarget(e, edits[i]) ::
                LinkKnown(e, ApplyLinkAll(edits, k, p, now, w).0, p, now, w) <==> LinkKnown(e, k, p, now, w)
  {
    hide LinkKnown, ApplyLink, SameLinkTarget;
    if edits != [] {
      var n := |edits| - 1;
      var r := ApplyLinkAll(edits[..n], k, p, now, w);
      LinkAllNews(edits[..n], k, p, now, w);
      LinkKnownIs(edits[n], r.0, p, now, w);
      if EvidenceKnown(edits[..n], k, p, now, w) {
        assert forall i | 0 <= i < n :: !SameLinkTarget(edits[n], edits[..n][i]);
        forall i | 0 <= i < n ensures edits[..n][i] == edits[i] {}
        if LinkKnown(edits[n], k, p, now, w) {
          forall e | forall i | 0 <= i < |edits| :: !SameLinkTarget(e, edits[i])
            ensures LinkKnown(e, ApplyLinkAll(edits, k, p, now, w).0, p, now, w) <==> LinkKnown(e, k, p, now, w)
          {
            assert forall i | 0 <= i < n :: !SameLinkTarget(e, edits[..n][i]);
            LinkNewsKept(e, edits[n], r.0, p, now, w);
          }
        }
      } else {
        var i :| 0 <= i < n && !LinkKnown(edits[..n][i], k, p, now, w);
        assert edits[i] == edits[..n][i];
      }
    }
  }

  lemma RefreshedNews(e: LinkEdit, k: LinkInfo, meta: Meta, kind: LinkKind, ttl: int, p: Protocol, now: Time, w: Setting)
    requires !RefreshChanges(k, meta, kind)
    ensures LinkKnown(e, Refreshed(k, meta, kind, ttl), p, now, w) <==> LinkKnown(e, k, p, now, w)
  {
    hide Text.MergeText;
    AppendAllIn(k.vlans, meta.vlans);
  }

  /** The end of an observation emits if its link is new, changed, or told something new. */
  lemma ConcludeReports(s: Store, meta: Meta, d: int, changed: set<Field>, wasNew: bool, o: Observation, w: World)
    requires Inv(s) && d in s.devices.keyOf
    ensures var u := UpsertLink(s, meta, d, o.kind, o.ttl);
            && u.link in u.store.link
            && (u.added || u.changed || wasNew || ApplyLinkAll(o.linkEdits, u.store.link[u.link], meta.protocol, meta.timestamp, In(w, s.limits)).1 ==>
                  |Conclude(s, meta, d, changed, wasNew, o, w).events| > |s.events|)
  {
    hide InvGap, UpsertLink, ApplyLinkAll, FactsOf;
    UpsertLinkInv(s, meta, d, o.kind, o.ttl);
    UpsertEvents(s, meta, d, o.kind, o.ttl);
    var u := UpsertLink(s, meta, d, o.kind, o.ttl);
    ListsThere(u.store);
    LinkThere(u.store, u.link);
    assert FieldLink in When(true, FieldLink);
  }

  /** Where no link is as the message says, the link it ends on is new, changed, or told something. */
  lemma UpsertNews(s: Store, meta: Meta, later: Time, d: int, o: Observation, w: World)
    requires Inv(s) && d in s.devices.keyOf && d in s.linkOwner.lists && LinkDistinct(o.linkEdits) && !HasLink(s, meta, o, later, w, d)
    ensures var m := meta.(timestamp := later); var u := UpsertLink(s, m, d, o.kind, o.ttl);
            u.link in u.store.link && (u.added || u.changed || ApplyLinkAll(o.linkEdits, u.store.link[u.link], meta.protocol, later, In(w, s.limits)).1)
  {
    hide InvGap, FirstOfKind, AllocLink, Refreshed, RefreshChanges, ApplyLinkAll, PromoteLink, AddLink, LinkDistinct;
    var m := meta.(timestamp := later);
    UpsertLinkInv(s, m, d, o.kind, o.ttl);
    LinkForThere(s, m, d, o.kind);
    var u := UpsertLink(s, m, d, o.kind, o.ttl);
    ListsThere(u.store);
    LinkThere(u.store, u.link);
    SameRefresh(s, meta, later, d, o.kind);
    var l := LinkFor(s, meta, d, o.kind);
    if !u.added && !u.changed {
      var r := Refreshed(s.link[l], m, o.kind, o.ttl);
      LinkAllNews(o.linkEdits, r, meta.protocol, later, In(w, s.limits));
      forall i | 0 <= i < |o.linkEdits|
        ensures LinkKnown(o.linkEdits[i], r, meta.protocol, later, In(w, s.limits)) <==> LinkKnown(o.linkEdits[i], s.link[l], meta.protocol, later, In(w, s.limits))
      {
        RefreshedNews(o.linkEdits[i], s.link[l], m, o.kind, o.ttl, meta.protocol, later, In(w, s.limits));
      }
    }
  }

  lemma SameRefresh(s: Store, meta: Meta, later: Time, d: int, kind: LinkKind)
    requires d in s.devices.keyOf && d in s.linkOwner.lists
    ensures var m := meta.(timestamp := later);
            && KeyFor(s, m, d) == KeyFor(s, meta, d) && LinkFor(s, m, d, kind) == LinkFor(s, meta, d, kind)
            && forall k :: RefreshChanges(k, m, kind) <==> RefreshChanges(k, meta, kind)
  {
  }

  /** A message from a known device is silent if and only if its link is found as it says. */
  lemma AcquaintedSilent(s: Store, meta: Meta, o: Observation, later: Time, w: World, d: int)
    requires Acquainted(s, meta, o, later, w, d) && Distinct(o.edits) && LinkDistinct(o.linkEdits)
    ensures Observed(s, meta.(timestamp := later), o, w).events == s.events <==> HasLink(s, meta, o, later, w, d)
  {
    hide InvGap, DeviceFor, ApplyAll, Conclude, Resolved, IdentityKey, HasLink, Distinct, LinkDistinct, AllKnown, Absorbed, Observed;
    if HasLink(s, meta, o, later, w, d) {
      Absorbs(s, meta, o, later, w, d);
      AbsorbedQuiet(s, meta, o, later, w, d, LinkFor(s, meta, d, o.kind));
    } else {
      LinklessEmits(s, meta, o, later, w, d);
    }
  }

  lemma LinklessEmits(s: Store, meta: Meta, o: Observation, later: Time, w: World, d: int)
    requires Acquainted(s, meta, o, later, w, d) && LinkDistinct(o.linkEdits) && !HasLink(s, meta, o, later, w, d)
    ensures |Observed(s, meta.(timestamp := later), o, w).events| > |s.events|
  {
    hide InvGap, DeviceFor, ApplyAll, Conclude, Resolved, IdentityKey, HasLink, LinkDistinct, AllKnown, UpsertLink, ApplyLinkAll, FactsOf;
    var m := meta.(timestamp := later);
    ResolvedAgain(s, meta, later, o.claimed, o.addresses, d);
    DeviceForInv(s, m, o.claimed, o.addresses);
    IndexFacts(s);
    var k := s.info[d];
    var a := ApplyAll(o.edits, k, meta.protocol, later, In(w, s.limits));
    var s1 := s.(info := s.info[d := Timestamped(a.0, later)]);
    InfoInv(s, s1);
    HasLinkDespite(s, s1, meta, o, later, w, d);
    UpsertNews(s1, meta, later, d, o, w);
    ConcludeReports(s1, m, d, a.1, k.protocols == {}, o, w);
  }

  lemma HasLinkDespite(s: Store, t: Store, meta: Meta, o: Observation, later: Time, w: World, d: int)
    requires d in s.devices.keyOf && d in s.linkOwner.lists && t == s.(info := t.info)
    ensures HasLink(t, meta, o, later, w, d) <==> HasLink(s, meta, o, later, w, d)
  {
    hide LinkKnown, RefreshChanges;
    SameScan(s, t, s.linkOwner.lists[d], meta.iface, if o.kind.PhysicalAdjacency? then SegmentPresence else PhysicalAdjacency);
  }

  // ---------- an unknown device ----------

  lemma {:induction false} ShedLinksEvents(s: Store, d: int, kind: EventKind)
    requires Inv(s) && d in s.devices.keyOf
    ensures |ShedLinks(s, d, kind).events| >= |s.events|
    decreases (ListsThere(s); |s.linkOwner.lists[d]|)
  {
    hide InvGap, Release, Disown;
    ListsThere(s);
    ShedLinkStep(s, d, kind);
    if s.linkOwner.lists[d] != [] { ShedLinksEvents(RemoveLink(s, LastLink(s, d), kind), d, kind); }
  }

  lemma {:induction false} ShedRecordsEvents(s: Store, d: int)
    requires Inv(s) && d in s.devices.keyOf
    ensures ShedRecords(s, d).events == s.events
    decreases (ListsThere(s); |s.recordOwner.lists[d]|)
  {
    hide InvGap, Release, Disown, Latest;
    ListsThere(s);
    ShedRecordStep(s, d);
    if s.recordOwner.lists[d] != [] { ShedRecordsEvents(RemoveDNS(s, LastRecord(s, d)), d); }
  }

  lemma AllocDeviceEvents(s: Store)
    requires Inv(s)
    ensures |AllocDevice(s).0.events| >= |s.events|
  {
    hide InvGap, ShedLinks, ShedRecords, Release, DropOwner, Oldest;
    if s.devices.free == [] {
      var o := Oldest(Seen(s), s.limits.devices);
      if o in s.devices.keyOf {
        ShedLinksEvents(s, o, Evicted);
        ShedRecordsEvents(ShedLinks(s, o, Evicted), o);
      }
    }
  }

  /** No device is known by the observation's key, nor by its address where that would do. */
  ghost predicate Stranger(s: Store, meta: Meta, claimed: MAC, addresses: seq<Addr>) {
    var key := IdentityKey(meta, claimed, addresses);
    key.Some? && key.value !in s.devices.byKey && AddressedDevice(s, meta, key.value).None?
  }

  lemma StrangerAdded(s: Store, meta: Meta, claimed: MAC, addresses: seq<Addr>)
    requires Inv(s) && Stranger(s, meta, claimed, addresses)
    ensures var r := DeviceFor(s, meta, claimed, addresses);
            Inv(r.0) && r.1 != -1 && r.1 in r.0.devices.keyOf && r.1 in r.0.info && r.0.info[r.1].protocols == {} && |r.0.events| >= |s.events|
  {
    hide InvGap, AllocDevice, Insert, AddOwner, Complete;
    DeviceForInv(s, meta, claimed, addresses);
    IndexFacts(DeviceFor(s, meta, claimed, addresses).0);
    AllocDeviceEvents(s);
  }

  /** An observation of an unknown device is never silent. */
  lemma StrangerEmits(s: Store, meta: Meta, o: Observation, w: World)
    requires Inv(s) && Stranger(s, meta, o.claimed, o.addresses)
    ensures |Observed(s, meta, o, w).events| > |s.events|
  {
    hide InvGap, DeviceFor, ApplyAll, Conclude, Stranger, UpsertLink, ApplyLinkAll;
    StrangerAdded(s, meta, o.claimed, o.addresses);
    DeviceForInv(s, meta, o.claimed, o.addresses);
    var r := DeviceFor(s, meta, o.claimed, o.addresses);
    ListsThere(r.0);
    var k := r.0.info[r.1];
    var a := ApplyAll(o.edits, k, meta.protocol, meta.timestamp, In(w, s.limits));
    var s1 := r.0.(info := r.0.info[r.1 := Timestamped(a.0, meta.timestamp)]);
    InfoInv(r.0, s1);
    ConcludeReports(s1, meta, r.1, a.1, true, o, w);
  }

  // ---------- what ticks leave ----------

  /** A link but for its deadlines. */
  predicate SaysSame(k: LinkInfo, r: LinkInfo) {
    r == k.(expires := r.expires, protocols := r.protocols, expiresAt := r.expiresAt, ttl := r.ttl)
  }

  /** t has no device, link or index entry that s has not, and says the same of those it has. */
  ghost predicate Ebbed(s: Store, t: Store) {
    && t.limits == s.limits
    && (forall d | d in t.devices.keyOf :: d in s.devices.keyOf && t.devices.keyOf[d] == s.devices.keyOf[d])
    && (forall d | d in t.info :: d in s.info && t.info[d] == s.info[d])
    && (forall k | k in t.links.byKey :: k in s.links.byKey && t.links.byKey[k] == s.links.byKey[k])
    && (forall l | l in t.links.keyOf :: l in s.links.keyOf && t.links.keyOf[l] == s.links.keyOf[l])
    && (forall l | l in t.link :: l in s.link && SaysSame(s.link[l], t.link[l]))
  }

  lemma EbbedTwice(s: Store, t: Store, u: Store)
    requires Ebbed(s, t) && Ebbed(t, u)
    ensures Ebbed(s, u)
  {
  }

  lemma SelfEbbed(s: Store)
    ensures Ebbed(s, s)
  {
  }

  lemma DropEbbs(s: Store, l: int, kind: EventKind)
    requires Attached(s, l)
    ensures Ebbed(s, DropLink(s, l, kind))
  {
    hide Disown;
  }

  lemma RemoveLinkEbbs(s: Store, l: int, kind: EventKind)
    requires Inv(s)
    ensures Ebbed(s, RemoveLink(s, l, kind))
  {
    hide InvGap, DropLink, Ebbed;
    if l in s.links.keyOf {
      ListsThere(s);
      LinkOwnerThere(s, l);
      DropEbbs(s, l, kind);
    } else {
      SelfEbbed(s);
    }
  }

  lemma ForgetEbbs(s: Store, d: int)
    requires d in s.devices.keyOf
    ensures Ebbed(s, Forget(s, d))
  {
    hide DropOwner;
  }

  lemma AgedSays(k: LinkInfo, now: Time)
    ensures SaysSame(k, Aged(k, now))
  {
  }

  lemma ExpireLinkEbbs(s: Store, l: int, now: Time)
    requires Inv(s)
    ensures Ebbed(s, ExpireLink(s, l, now))
  {
    hide InvGap, RemoveLink, Forget, Aged, Ticks, Ebbed;
    if l in s.links.keyOf {
      LinkOwnerThere(s, l);
      var t := RemoveLink(s, l, Expired);
      RemoveLinkEbbs(s, l, Expired);
      RemoveLinkInv(s, l, Expired, WHOLE);
      ListsThere(t);
      var d := s.linkOwner.owner[l];
      if Aged(s.link[l], now).protocols != {} {
        AgedEbbs(s, ExpireLink(s, l, now), l, now);
      } else {
        RemoveLinkFrame(s, l);
        ForgetEbbs(t, d);
        EbbedTwice(s, t, Forget(t, d));
      }
    } else {
      SelfEbbed(s);
    }
  }

  lemma AgedEbbs(s: Store, t: Store, l: int, now: Time)
    requires l in s.link && t == s.(link := s.link[l := Aged(s.link[l], now)], linkDue := t.linkDue, events := t.events)
    ensures Ebbed(s, t)
  {
    hide Aged, SaysSame;
    AgedSays(s.link[l], now);
    forall x | x in s.link ensures SaysSame(s.link[x], s.link[x]) { SelfSays(s.link[x]); }
  }

  lemma SelfSays(k: LinkInfo)
    ensures SaysSame(k, k)
  {
  }

  lemma {:induction false} ExpireLinksEbb(s: Store, order: seq<int>, now: Time)
    requires Inv(s)
    ensures Ebbed(s, ExpireLinks(s, order, now))
  {
    hide InvGap, ExpireLink, Ebbed;
    SelfEbbed(s);
    if order != [] {
      var t := ExpireLinks(s, order[..|order| - 1], now);
      ExpireLinksEbb(s, order[..|order| - 1], now);
      ExpireLinkEbbs(t, order[|order| - 1], now);
      EbbedTwice(s, t, ExpireLink(t, order[|order| - 1], now));
    }
  }

  lemma RemoveDNSEbbs(s: Store, r: int)
    requires Inv(s)
    ensures Ebbed(s, RemoveDNS(s, r))
  {
    hide InvGap, Release, Disown, Latest;
  }

  lemma {:induction false} ExpireRecordsEbb(s: Store, order: seq<int>)
    requires Inv(s)
    ensures Ebbed(s, ExpireRecords(s, order))
  {
    hide InvGap, RemoveDNS, Ebbed;
    SelfEbbed(s);
    if order != [] {
      var t := ExpireRecords(s, order[..|order| - 1]);
      ExpireRecordsEbb(s, order[..|order| - 1]);
      RemoveDNSEbbs(t, order[|order| - 1]);
      EbbedTwice(s, t, RemoveDNS(t, order[|order| - 1]));
    }
  }

  lemma ReviewEbbs(s: Store, d: int)
    requires Inv(s)
    ensures Ebbed(s, Review(s, d))
  {
    hide InvGap, Release, DropOwner, SaysSame, Forget;
    forall x | x in s.link ensures SaysSame(s.link[x], s.link[x]) { SelfSays(s.link[x]); }
    if d in s.devices.keyOf {
      ListsThere(s);
      ForgetEbbs(s, d);
      if s.linkOwner.lists[d] != [] { FirstOwned(s, d); }
    }
  }

  lemma {:induction false} ReviewsEbb(s: Store, devices: seq<int>)
    requires Inv(s)
    ensures Ebbed(s, ReviewAll(s, devices))
  {
    hide InvGap, Review, Ebbed;
    SelfEbbed(s);
    if devices != [] {
      var t := ReviewAll(s, devices[..|devices| - 1]);
      ReviewsEbb(s, devices[..|devices| - 1]);
      ReviewEbbs(t, devices[|devices| - 1]);
      EbbedTwice(s, t, Review(t, devices[|devices| - 1]));
    }
  }

  lemma CountedEbbs(s: Store, t: Store)
    requires t == s.(linkDue := t.linkDue, dnsDue := t.dnsDue)
    ensures Ebbed(s, t)
  {
  }

  lemma TickEbbs(s: Store, now: Time, links: seq<int>, records: seq<int>)
    requires Inv(s)
    ensures Ebbed(s, Tick(s, now, links, records))
  {
    hide InvGap, ExpireLinks, ExpireRecords, ReviewAll, Ebbed;
    var s0 := s.(linkDue := Nearer(s.linkDue));
    DueInv(s, s0);
    CountedEbbs(s, s0);
    ExpireLinksEbb(s0, links, now);
    var s1 := ExpireLinks(s0, links, now);
    EbbedTwice(s, s0, s1);
    var s2 := s1.(dnsDue := Nearer(s1.dnsDue));
    DueInv(s1, s2);
    CountedEbbs(s1, s2);
    EbbedTwice(s, s1, s2);
    ExpireRecordsEbb(s2, records);
    var s3 := ExpireRecords(s2, records);
    EbbedTwice(s, s2, s3);
    var owners := OwnersOf(s2.recordOwner.owner, records);
    ReviewsEbb(s3, owners);
    EbbedTwice(s, s3, ReviewAll(s3, owners));
  }

  lemma {:induction false} AfterEbbs(s: Store, ticks: seq<TickArgs>)
    requires Inv(s) && Quiet(s, ticks)
    ensures Ebbed(s, After(s, ticks))
    decreases |ticks|
  {
    hide InvGap, Tick, Ebbed, VisitsDue;
    SelfEbbed(s);
    if ticks != [] {
      var t := Tick(s, ticks[0].now, ticks[0].links, ticks[0].records);
      TickEbbs(s, ticks[0].now, ticks[0].links, ticks[0].records);
      AfterEbbs(t, ticks[1..]);
      EbbedTwice(s, t, After(t, ticks[1..]));
    }
  }

  // ---------- silence after any number of ticks ----------

  /** A key finds the device it found, while that is there, and none afterwards. */
  lemma StillResolved(s: Store, t: Store, meta: Meta, claimed: MAC, addresses: seq<Addr>, d: int)
    requires Inv(s) && Inv(t) && Ebbed(s, t) && d in s.info
    requires IdentityKey(meta, claimed, addresses).Some? && Resolved(s.devices, meta, IdentityKey(meta, claimed, addresses).value, d)
    ensures if d in t.devices.keyOf then
              d in t.info && t.info[d] == s.info[d] && d in t.linkOwner.lists && Resolved(t.devices, meta, IdentityKey(meta, claimed, addresses).value, d)
            else Stranger(t, meta, claimed, addresses)
  {
    hide InvGap, SaysSame, Complete, Sound, IdentityKey;
    ListsThere(s);
    ListsThere(t);
    IndexFacts(s);
    IndexFacts(t);
    var key := IdentityKey(meta, claimed, addresses).value;
    EntryStood(s, t, key);
    EntryStood(s, t, IPKey(Unmap(meta.sourceIP), meta.iface));
    if d in t.devices.keyOf {
      SoundAt(s.devices, key);
      CompleteAt(t.devices, d);
    } else if key in t.devices.byKey {
      SoundAt(t.devices, key);
    }
  }

  /** What was known of a device that is still there is known. */
  lemma StillAcquainted(s: Store, t: Store, meta: Meta, o: Observation, later: Time, w: World, d: int)
    requires Acquainted(s, meta, o, later, w, d) && Inv(t) && Ebbed(s, t)
    ensures d in t.devices.keyOf ==> Acquainted(t, meta, o, later, w, d)
    ensures d !in t.devices.keyOf ==> Stranger(t, meta, o.claimed, o.addresses)
  {
    hide InvGap, Known, FactsOf, SaysSame, Complete, Sound, IdentityKey, Resolved, Stranger;
    StillResolved(s, t, meta, o.claimed, o.addresses, d);
  }

  /** A device found under a key was found under it before. */
  lemma EntryStood(s: Store, t: Store, key: DeviceKey)
    requires Ebbed(s, t) && Complete(s.devices) && Sound(t.devices)
    ensures key in t.devices.byKey ==> key in s.devices.byKey && t.devices.byKey[key] == s.devices.byKey[key]
  {
    hide Complete, Sound, SaysSame;
    if key in t.devices.byKey {
      SoundAt(t.devices, key);
      CompleteAt(s.devices, t.devices.byKey[key]);
    }
  }

  /** The device is still there, and a link is found that is as the message says. */
  ghost predicate Stands(s: Store, meta: Meta, o: Observation, later: Time, w: World, d: int) {
    d in s.devices.keyOf && d in s.linkOwner.lists && HasLink(s, meta, o, later, w, d)
  }

  /** A message from a device once known is silent, ticks later, if and only if device and link are
      still found. */
  lemma SilentAfter(t: Store, meta: Meta, o: Observation, later: Time, w: World, d: int, ticks: seq<TickArgs>)
    requires Acquainted(t, meta, o, later, w, d) && Distinct(o.edits) && LinkDistinct(o.linkEdits) && Quiet(t, ticks)
    ensures var u := After(t, ticks);
            Observed(u, meta.(timestamp := later), o, w).events == u.events <==> Stands(u, meta, o, later, w, d)
  {
    hide InvGap, Observed, Acquainted, HasLink, Ebbed, Stranger, Distinct, LinkDistinct;
    AcquaintedInv(t, meta, o, later, w, d);
    var u, m := After(t, ticks), meta.(timestamp := later);
    AfterEbbs(t, ticks);
    StillAcquainted(t, u, meta, o, later, w, d);
    ListsThere(u);
    if d in u.devices.keyOf {
      AcquaintedSilent(u, meta, o, later, w, d);
    } else {
      StrangerAtAnyTime(u, meta, later, o.claimed, o.addresses);
      StrangerEmits(u, m, o, w);
    }
  }

  lemma AcquaintedInv(t: Store, meta: Meta, o: Observation, later: Time, w: World, d: int)
    requires Acquainted(t, meta, o, later, w, d)
    ensures Inv(t) && d in t.devices.keyOf && d in t.linkOwner.lists && d in t.info
  {
    hide InvGap;
  }

  lemma StrangerAtAnyTime(s: Store, meta: Meta, later: Time, claimed: MAC, addresses: seq<Addr>)
    ensures Stranger(s, meta.(timestamp := later), claimed, addresses) <==> Stranger(s, meta, claimed, addresses)
  {
  }

  // ---------- the link the message left ----------

  /** While the link a message left, under its own key, is there and carries the protocol, it is
      found. */
  lemma OwnLinkFound(t: Store, u: Store, meta: Meta, o: Observation, later: Time, w: World, d: int, l: int)
    requires Absorbed(t, meta, o, later, w, d, l) && d in t.devices.keyOf && KeyFor(t, meta, d) in t.links.byKey
    requires Inv(u) && Complete(u.links) && Ebbed(t, u) && l in u.links.keyOf && l in u.link && meta.protocol in u.link[l].protocols
    ensures Stands(u, meta, o, later, w, d)
  {
    hide InvGap, Known, LinkKnown, FactsOf, Complete, Sound, IdentityKey, Resolved;
    var key := KeyFor(t, meta, d);
    KeyedLink(t, meta, d, o.kind, l);
    ListsThere(u);
    OwnerStands(t, u, d, l);
    CompleteAt(u.links, l);
    SaysAsKnown(t.link[l], u.link[l], meta, o, later, In(w, t.limits));
  }

  lemma KeyedLink(t: Store, meta: Meta, d: int, kind: LinkKind, l: int)
    requires Inv(t) && LinkSettled(t, meta, d, kind, l) && KeyFor(t, meta, d) in t.links.byKey
    ensures l == t.links.byKey[KeyFor(t, meta, d)] && l in t.links.keyOf && t.links.keyOf[l] == KeyFor(t, meta, d) && l >= 0
  {
    hide InvGap;
    LinkForThere(t, meta, d, kind);
  }

  /** A link's device is where its key says. */
  lemma OwnerStands(t: Store, u: Store, d: int, l: int)
    requires Inv(t) && Inv(u) && Ebbed(t, u) && d in t.devices.keyOf && l in t.links.keyOf && l in u.links.keyOf
    requires t.links.keyOf[l].device == t.devices.keyOf[d]
    ensures d in u.devices.keyOf && d in u.linkOwner.lists && u.devices.keyOf[d] == t.devices.keyOf[d]
  {
    hide Partition, Owned, MaximaCached, RecordKeysAgree, LinksTimed, LinkKeysAgree, SaysSame, Sound;
    AgreeAt(u, l);
    var e := u.linkOwner.owner[l];
    CompleteAt(t.devices, e);
    CompleteAt(t.devices, d);
  }

  lemma SaysAsKnown(k: LinkInfo, r: LinkInfo, meta: Meta, o: Observation, later: Time, w: Setting)
    requires SaysSame(k, r) && !RefreshChanges(k, meta, o.kind) && meta.protocol in r.protocols
    requires EvidenceKnown(o.linkEdits, k, meta.protocol, later, w)
    ensures !RefreshChanges(r, meta, o.kind) && EvidenceKnown(o.linkEdits, r, meta.protocol, later, w)
  {
    hide Text.MergeText;
  }

  /** A physical link is found under its own key only, and as the message left it. */
  lemma OnlyOwnLink(t: Store, u: Store, meta: Meta, o: Observation, later: Time, w: World, d: int, l: int)
    requires Absorbed(t, meta, o, later, w, d, l) && d in t.devices.keyOf && o.kind.PhysicalAdjacency?
    requires Inv(u) && Ebbed(t, u) && Stands(u, meta, o, later, w, d)
    ensures l in u.links.keyOf && l in u.link && meta.protocol in u.link[l].protocols
  {
    hide InvGap, Known, LinkKnown, FactsOf, Complete, Sound, IdentityKey, Resolved, SaysSame;
    KeyedLink(t, meta, d, o.kind, l);
    LinkForThere(u, meta, d, o.kind);
  }

  // ---------- until when the link is there ----------

  lemma {:induction false} AfterWhole(s: Store, ticks: seq<TickArgs>)
    requires Inv(s) && Quiet(s, ticks) && Whole(s)
    ensures Whole(After(s, ticks))
    decreases |ticks|
  {
    hide InvGap, Tick, Whole, VisitsDue;
    if ticks != [] {
      TickWhole(s, ticks[0].now, ticks[0].links, ticks[0].records);
      AfterWhole(Tick(s, ticks[0].now, ticks[0].links, ticks[0].records), ticks[1..]);
    }
  }

  /** Link l carries protocol p. */
  ghost predicate Carries(s: Store, l: int, p: Protocol) { l in s.links.keyOf && l in s.link && p in s.link[l].protocols }

  lemma CarriesDeadline(s: Store, l: int, p: Protocol)
    requires Inv(s) && l in s.links.keyOf
    ensures SlotsKeyed(s) && (Carries(s, l, p) <==> s.link[l].expires.Get(p) != 0)
  {
    SlotsThere(s);
    hide InvGap;
    LinkOwnerThere(s, l);
  }

  /** A deadline that no tick has reached is there. */
  lemma {:induction false} AheadKept(s: Store, ticks: seq<TickArgs>, l: int, p: Protocol)
    requires Inv(s) && Quiet(s, ticks) && l in s.links.keyOf && l in s.link && s.link[l].expires.Get(p) != 0
    requires forall i | 0 <= i < |ticks| :: ticks[i].now < s.link[l].expires.Get(p)
    ensures Carries(After(s, ticks), l, p)
    decreases |ticks|
  {
    hide InvGap, Tick, Carries, VisitsDue;
    CarriesDeadline(s, l, p);
    if ticks != [] {
      assert ticks[0].now < s.link[l].expires.Get(p);
      NeverEarly(s, ticks[0].now, ticks[0].links, ticks[0].records, l, p);
      assert forall i | 0 <= i < |ticks[1..]| :: ticks[1..][i] == ticks[i + 1];
      AheadKept(Tick(s, ticks[0].now, ticks[0].links, ticks[0].records), ticks[1..], l, p);
    }
  }

  /** In a store whose index of links is complete, a link under its own key stands until a tick reaches
      its deadline. */
  lemma StandsAhead(t: Store, meta: Meta, o: Observation, later: Time, w: World, d: int, l: int, ticks: seq<TickArgs>)
    requires Absorbed(t, meta, o, later, w, d, l) && Whole(t) && Quiet(t, ticks)
    requires d in t.devices.keyOf && KeyFor(t, meta, d) in t.links.byKey && l in t.link
    requires forall i | 0 <= i < |ticks| :: ticks[i].now < t.link[l].expires.Get(meta.protocol)
    ensures Stands(After(t, ticks), meta, o, later, w, d)
  {
    hide InvGap, Absorbed, Acquainted, HasLink, Stands, Ebbed, Complete, Quiet, LinkSettled;
    AbsorbedLink(t, meta, o, later, w, d, l);
    AheadKept(t, ticks, l, meta.protocol);
    AfterWhole(t, ticks);
    AfterEbbs(t, ticks);
    OwnLinkFound(t, After(t, ticks), meta, o, later, w, d, l);
  }

  /** A message heard again, ticks later but before any of them has reached its link's deadline, is
      silent: on any clock, in a store whose index of links is complete, for a link under its own key. */
  lemma RefreshBeforeDeadline(t: Store, meta: Meta, o: Observation, later: Time, w: World, d: int, l: int, ticks: seq<TickArgs>)
    requires Absorbed(t, meta, o, later, w, d, l) && Distinct(o.edits) && LinkDistinct(o.linkEdits) && Whole(t) && Quiet(t, ticks)
    requires d in t.devices.keyOf && KeyFor(t, meta, d) in t.links.byKey && l in t.link
    requires forall i | 0 <= i < |ticks| :: ticks[i].now < t.link[l].expires.Get(meta.protocol)
    ensures var u := After(t, ticks); Observed(u, meta.(timestamp := later), o, w).events == u.events
  {
    hide InvGap, Observed, Absorbed, Acquainted, HasLink, Stands, Distinct, LinkDistinct, Complete, Quiet, LinkSettled;
    AbsorbedMeans(t, meta, o, later, w, d, l);
    StandsAhead(t, meta, o, later, w, d, l, ticks);
    SilentAfter(t, meta, o, later, w, d, ticks);
  }

  lemma AbsorbedLink(t: Store, meta: Meta, o: Observation, later: Time, w: World, d: int, l: int)
    requires Absorbed(t, meta, o, later, w, d, l)
    ensures Inv(t) && l in t.links.keyOf && l in t.link && t.link[l].expires.Get(meta.protocol) != 0
    ensures d in t.devices.keyOf && (o.kind.PhysicalAdjacency? ==> KeyFor(t, meta, d) in t.links.byKey)
  {
    SlotsThere(t);
    hide InvGap, Known, LinkKnown, FactsOf, LinkFor;
    CarriesDeadline(t, l, meta.protocol);
  }

  /** One tick a second, the first of them at the given second plus one. */
  ghost predicate OnSeconds(ticks: seq<TickArgs>, second: nat) {
    forall i | 0 <= i < |ticks| :: ticks[i].now == (second + 1 + i) * SECOND
  }

  /** Ticks set no deadline. */
  lemma {:induction false} DeadlineGone(s: Store, ticks: seq<TickArgs>, l: int, p: Protocol)
    requires Inv(s) && Quiet(s, ticks) && !Carries(s, l, p)
    ensures !Carries(After(s, ticks), l, p)
    decreases |ticks|
  {
    hide InvGap, Tick, Carries, VisitsDue;
    if ticks != [] {
      TickSetsNone(s, ticks[0].now, ticks[0].links, ticks[0].records, l, p);
      DeadlineGone(Tick(s, ticks[0].now, ticks[0].links, ticks[0].records), ticks[1..], l, p);
    }
  }

  lemma TickSetsNone(s: Store, now: Time, links: seq<int>, records: seq<int>, l: int, p: Protocol)
    requires Inv(s) && VisitsDue(links, Nearer(s.linkDue)) && !Carries(s, l, p)
    ensures !Carries(Tick(s, now, links, records), l, p)
  {
    hide InvGap, Tick, Ticks, VisitsDue;
    SlotsThere(s);
    TickLinks(s, now, links, records);
    if l in s.links.keyOf && l in Tick(s, now, links, records).links.keyOf { AgedKeepsOff(s.link[l], now, p); }
  }

  lemma AgedKeepsOff(k: LinkInfo, now: Time, p: Protocol)
    ensures p !in k.protocols ==> p !in Aged(k, now).protocols
  {
  }

  /** A deadline a tick clears is gone. */
  lemma ClearedGone(s: Store, now: Time, links: seq<int>, records: seq<int>, l: int, p: Protocol)
    requires Inv(s) && SlotsKeyed(s) && VisitsDue(links, Nearer(s.linkDue)) && l in s.links.keyOf
    requires SlotsKeyed(Tick(s, now, links, records)) && ClearedBy(s, Tick(s, now, links, records), l, p)
    ensures !Carries(Tick(s, now, links, records), l, p)
  {
    hide InvGap, Tick, Ticks, VisitsDue;
    TickLinks(s, now, links, records);
    var t := Tick(s, now, links, records);
    if l in t.links.keyOf { CarriesDeadline(t, l, p); }
  }

  /** On a one-second clock a deadline is there exactly until the first tick at or after it. */
  lemma {:induction false} ClockClears(s: Store, ticks: seq<TickArgs>, second: nat, l: int, p: Protocol)
    requires Inv(s) && Quiet(s, ticks) && SlotsKeyed(s) && InTime(s, second) && OnSeconds(ticks, second)
    requires l in s.links.keyOf && s.link[l].expires.Get(p) != 0
    ensures Carries(After(s, ticks), l, p) <==> s.link[l].expires.Get(p) > (second + |ticks|) * SECOND
    decreases |ticks|
  {
    hide InvGap, Tick, Carries, VisitsDue, InTime, SlotsKeyed, ClearedBy;
    CarriesDeadline(s, l, p);
    if ticks == [] {
      InTimeAhead(s, second, l, p);
    } else {
      var a := ticks[0];
      assert a.now == (second + 1) * SECOND;
      TickInTime(s, second, a.links, a.records);
      var t := Tick(s, a.now, a.links, a.records);
      assert forall i | 0 <= i < |ticks[1..]| :: ticks[1..][i] == ticks[i + 1];
      if ClearedBy(s, t, l, p) {
        ClearedGone(s, a.now, a.links, a.records, l, p);
        DeadlineGone(t, ticks[1..], l, p);
      } else {
        NotCleared(s, t, l, p);
        ClockClears(t, ticks[1..], second + 1, l, p);
      }
    }
  }

  lemma InTimeAhead(s: Store, second: nat, l: int, p: Protocol)
    requires SlotsKeyed(s) && InTime(s, second) && l in s.links.keyOf && s.link[l].expires.Get(p) != 0
    ensures s.link[l].expires.Get(p) > second * SECOND
  {
    assert OnTime(s.link[l], s.linkDue[l], second);
  }

  lemma NotCleared(s: Store, t: Store, l: int, p: Protocol)
    requires SlotsKeyed(s) && SlotsKeyed(t) && l in s.links.keyOf && s.link[l].expires.Get(p) != 0 && !ClearedBy(s, t, l, p)
    ensures l in t.links.keyOf && t.link[l].expires.Get(p) == s.link[l].expires.Get(p)
  {
  }

  /** A physical observation in a whole store on the clock, heard again after any number of ticks, is
      silent if and only if no tick has come at or after its deadline, or it identifies no device. */
  lemma PhysicalRefresh(s: Store, meta: Meta, o: Observation, ticks: seq<TickArgs>, later: Time, w: World, second: nat)
    requires Inv(s) && Whole(s) && SlotsKeyed(s) && InTime(s, second) && second * SECOND < meta.timestamp <= (second + 1) * SECOND
    requires MergesTimely(s, meta, o.claimed, o.addresses, second) && !CollidingMerge(s, meta, o.claimed, o.addresses)
    requires o.kind.PhysicalAdjacency? && Distinct(o.edits) && LinkDistinct(o.linkEdits) && Speaks in o.edits
    requires Repeats(o.edits, o.edits, meta.timestamp, later)
    requires Inv(Observed(s, meta, o, w)) && Quiet(Observed(s, meta, o, w), ticks) && OnSeconds(ticks, second)
    ensures var u := After(Observed(s, meta, o, w), ticks);
            Observed(u, meta.(timestamp := later), o, w).events == u.events <==>
              IdentityKey(meta, o.claimed, o.addresses).None? || meta.timestamp + Lifetime(o.ttl) > (second + |ticks|) * SECOND
  {
    hide InvGap, Observed, Absorbed, Acquainted, HasLink, Stands, Ebbed, Distinct, LinkDistinct, Complete, Quiet, InTime, Repeats, OnSeconds,
         MergesTimely, CollidingMerge, IdentityKey;
    var t := Observed(s, meta, o, w);
    var u := After(t, ticks);
    if IdentityKey(meta, o.claimed, o.addresses).None? {
      Unidentified(u, meta, later, o, w);
      return;
    }
    ObservedWhole(s, meta, o, w);
    ObservedInTime(s, meta, o, w, second);
    var d, l := ObservedAbsorbs(s, meta, o, o, later, w);
    AbsorbedMeans(t, meta, o, later, w, d, l);
    AbsorbedLink(t, meta, o, later, w, d, l);
    ClockClears(t, ticks, second, l, meta.protocol);
    AfterWhole(t, ticks);
    AfterEbbs(t, ticks);
    SilentAfter(t, meta, o, later, w, d, ticks);
    if Carries(u, l, meta.protocol) {
      OwnLinkFound(t, u, meta, o, later, w, d, l);
    } else if Stands(u, meta, o, later, w, d) {
      OnlyOwnLink(t, u, meta, o, later, w, d, l);
    }
  }

  // ---------- for each protocol ----------

  /** What a run on the clock without colliding merges provides, before an observation. */
  ghost predicate Clocked(s: Store, meta: Meta, o: Observation, second: nat) {
    && Inv(s) && Whole(s) && SlotsKeyed(s) && InTime(s, second) && second * SECOND < meta.timestamp <= (second + 1) * SECOND
    && MergesTimely(s, meta, o.claimed, o.addresses, second) && !CollidingMerge(s, meta, o.claimed, o.addresses)
  }

  lemma RunClocked(limits: Limits, before: seq<Step>, meta: Meta, o: Observation, w: World)
    requires Positive(limits)
    requires OnTheClock(limits, before + [LinkLayer(meta, o)], w) && NeverCollides(limits, before + [LinkLayer(meta, o)], w)
    ensures Clocked(Run(limits, before, w), meta, o, Seconds(before))
  {
    hide InvGap, Do, InTime, SlotsKeyed, MergesTimely, CollidingMerge, Complete;
    var steps := before + [LinkLayer(meta, o)];
    assert steps[..|steps| - 1] == before;
    RunInTime(limits, before, w);
    RunWhole(limits, before, w);
  }

  /** An LLDP message heard again on the clock, any number of ticks later: silent if and only if no
      tick has come at or after its deadline, its time to live after it was first heard. */
  lemma RefreshedLLDP(s: Store, meta: Meta, m: LLDPMessage, ticks: seq<TickArgs>, later: Time, w: World, second: nat)
    requires Clocked(s, meta, LLDPObservation(meta, m), second) && meta.timestamp <= later && OnSeconds(ticks, second)
    requires var t := Observed(s, meta, LLDPObservation(meta, m), w); Inv(t) && Quiet(t, ticks)
    ensures var o, again := LLDPObservation(meta, m), meta.(timestamp := later);
            var u := After(Observed(s, meta, o, w), ticks);
            Observed(u, again, LLDPObservation(again, m), w).events == u.events <==>
              IdentityKey(meta, ChassisMAC(m.chassis), m.addresses).None? || meta.timestamp + Lifetime(m.ttl * SECOND) > (second + |ticks|) * SECOND
  {
    hide Observed, InvGap, Repeats, Distinct, LinkDistinct, Quiet, OnSeconds, InTime, MergesTimely, CollidingMerge, Complete, IdentityKey,
         LLDPObservation, After;
    var o := LLDPObservation(meta, m);
    LLDPAlike(meta, m, later);
    LLDPDistinct(meta, m);
    RepeatSame(o.edits, meta.timestamp, later);
    PhysicalRefresh(s, meta, o, ticks, later, w, second);
  }

  /** The same of a CDP message. */
  lemma RefreshedCDP(s: Store, meta: Meta, m: CDPMessage, ticks: seq<TickArgs>, later: Time, w: World, second: nat)
    requires Clocked(s, meta, CDPObservation(meta, m), second) && meta.timestamp <= later && OnSeconds(ticks, second)
    requires var t := Observed(s, meta, CDPObservation(meta, m), w); Inv(t) && Quiet(t, ticks)
    ensures var o, again := CDPObservation(meta, m), meta.(timestamp := later);
            var u := After(Observed(s, meta, o, w), ticks);
            Observed(u, again, CDPObservation(again, m), w).events == u.events <==>
              IdentityKey(meta, NO_MAC, m.addresses).None? || meta.timestamp + Lifetime(m.ttl * SECOND) > (second + |ticks|) * SECOND
  {
    hide Observed, InvGap, Repeats, Distinct, LinkDistinct, Quiet, OnSeconds, InTime, MergesTimely, CollidingMerge, Complete, IdentityKey,
         CDPObservation, After;
    var o := CDPObservation(meta, m);
    CDPAlike(meta, m, later);
    CDPDistinct(meta, m);
    RepeatSame(o.edits, meta.timestamp, later);
    PhysicalRefresh(s, meta, o, ticks, later, w, second);
  }

  /** An identified MNDP message heard again, any number of ticks later, with any uptime: silent if
      and only if the uptime is within five seconds of the prediction, and device and link stand. */
  lemma RefreshedMNDP(s: Store, meta: Meta, m: MNDPMessage, n: MNDPMessage, idleTTL: int, ticks: seq<TickArgs>, later: Time, w: World)
    requires Inv(s) && meta.timestamp <= later && n == m.(uptime := n.uptime) && (m.uptime.Some? <==> n.uptime.Some?) && !m.isRefresh
    requires IdentityKey(meta, if m.mac.Some? then m.mac.value else NO_MAC, m.addresses).Some?
    requires var t := ObservedMNDP(s, meta, m, idleTTL, w); Inv(t) && Quiet(t, ticks)
    ensures var u := After(ObservedMNDP(s, meta, m, idleTTL, w), ticks);
            var d := DeviceFor(s, meta, if m.mac.Some? then m.mac.value else NO_MAC, m.addresses).1;
            ObservedMNDP(u, meta.(timestamp := later), n, idleTTL, w).events == u.events <==>
              NextAnnouncement(m, n, meta.timestamp, later) && Stands(u, meta, MNDPObservation(meta, n, idleTTL), later, w, d)
  {
    hide Observed, InvGap, MNDPObservation, IdentityKey, Resolved, UptimeAt, Predicted, Quiet, Acquainted, Absorbed, Distinct, LinkDistinct, Repeats,
         DeviceFor, Stands, HasLink, Ebbed;
    var o, again := MNDPObservation(meta, m, idleTTL), MNDPObservation(meta, n, idleTTL);
    MNDPHints(meta, m, idleTTL);
    NextAlike(meta, m, n, idleTTL, later);
    var t := Observed(s, meta, o, w);
    if NextAnnouncement(m, n, meta.timestamp, later) {
      MNDPDistinct(meta, m, idleTTL);
      MNDPDistinct(meta, n, idleTTL);
      MNDPRepeats(meta, m, n, idleTTL, later);
      var d, l := ObservedAbsorbs(s, meta, o, again, later, w);
      AbsorbedMeans(t, meta, again, later, w, d, l);
      SilentAfter(t, meta, again, later, w, d, ticks);
    } else {
      OffPredictionAfter(s, meta, m, n, idleTTL, ticks, later, w);
    }
  }

  /** An uptime off its prediction is reported, ticks or not. */
  lemma OffPredictionAfter(s: Store, meta: Meta, m: MNDPMessage, n: MNDPMessage, idleTTL: int, ticks: seq<TickArgs>, later: Time, w: World)
    requires Inv(s) && n == m.(uptime := n.uptime) && m.uptime.Some? && n.uptime.Some?
    requires IdentityKey(meta, if m.mac.Some? then m.mac.value else NO_MAC, m.addresses).Some?
    requires !Predicted(m.uptime.value, n.uptime.value, meta.timestamp, later)
    requires var t := Observed(s, meta, MNDPObservation(meta, m, idleTTL), w); Inv(t) && Quiet(t, ticks)
    ensures var u := After(Observed(s, meta, MNDPObservation(meta, m, idleTTL), w), ticks);
            |Observed(u, meta.(timestamp := later), MNDPObservation(meta, n, idleTTL), w).events| > |u.events|
  {
    hide Observed, InvGap, MNDPObservation, IdentityKey, Resolved, UptimeAt, Predicted, Quiet, DeviceFor, Ebbed, Stranger;
    var o, again := MNDPObservation(meta, m, idleTTL), MNDPObservation(meta, n, idleTTL);
    MNDPHints(meta, m, idleTTL);
    MNDPHints(meta, n, idleTTL);
    var i := MNDPUptimeAt(meta, m, idleTTL);
    var j := MNDPUptimeAt(meta, n, idleTTL);
    var t := Observed(s, meta, o, w);
    var d := ObservedUptime(s, meta, o, i, w);
    var u := After(t, ticks);
    AfterEbbs(t, ticks);
    StillResolved(t, u, meta, again.claimed, again.addresses, d);
    if d in u.devices.keyOf {
      NotPredicted(t.info[d].uptime, n.uptime.value, m.uptime.value, meta.protocol, meta.timestamp, later);
      SameIdentity(meta, later, again.claimed, again.addresses, u.devices, d);
      OffPredictionReports(u, meta.(timestamp := later), again, j, w, d);
    } else {
      StrangerAtAnyTime(u, meta, later, again.claimed, again.addresses);
      StrangerEmits(u, meta.(timestamp := later), again, w);
    }
  }

  /** So the identical message with an uptime is silent only for six seconds, ticks or not. */
  lemma RefreshedIdenticalMNDP(s: Store, meta: Meta, m: MNDPMessage, idleTTL: int, ticks: seq<TickArgs>, later: Time, w: World)
    requires Inv(s) && meta.timestamp <= later && m.uptime.Some? && !m.isRefresh
    requires IdentityKey(meta, if m.mac.Some? then m.mac.value else NO_MAC, m.addresses).Some?
    requires var t := ObservedMNDP(s, meta, m, idleTTL, w); Inv(t) && Quiet(t, ticks)
    ensures var u := After(ObservedMNDP(s, meta, m, idleTTL, w), ticks);
            var d := DeviceFor(s, meta, if m.mac.Some? then m.mac.value else NO_MAC, m.addresses).1;
            ObservedMNDP(u, meta.(timestamp := later), m, idleTTL, w).events == u.events <==>
              later - meta.timestamp < 6 * SECOND && Stands(u, meta, MNDPObservation(meta, m, idleTTL), later, w, d)
  {
    hide ObservedMNDP, InvGap, IdentityKey, Quiet, DeviceFor, Stands, MNDPObservation;
    RefreshedMNDP(s, meta, m, m, idleTTL, ticks, later, w);
  }
}
