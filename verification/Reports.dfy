/** Which events a tick, an eviction and a merge emit. */
module Reports {
  import opened Model
  import opened FusionTypes
  import opened Slabs
  import opened Stores
  import opened Timing
  import opened Fusion
  import opened Expiry
  import opened Departures
  import opened LinkMerges
  import opened MergeEffects

  // ---------- due links ----------

  /** A deadline of the link has passed. */
  ghost predicate Fades(k: LinkInfo, now: Time) { exists p :: 0 < k.expires.Get(p) <= now }

  /** No deadline of the link is ahead. */
  ghost predicate Faded(k: LinkInfo, now: Time) { forall p :: k.expires.Get(p) <= now }

  /** What is said of a due link: that it is gone if no deadline is ahead, that it changed if one has passed. */
  ghost function LinkReport(s: Store, l: int, now: Time): seq<Event>
    requires Attached(s, l) && l in s.link
  {
    var device, link := s.devices.keyOf[s.linkOwner.owner[l]], s.links.keyOf[l];
    if Faded(s.link[l], now) then [Event(Expired, {FieldLink}, device, link)]
    else if Fades(s.link[l], now) then [Event(Changed, {FieldLink}, device, link)]
    else []
  }

  ghost predicate AllAttached(s: Store, order: seq<int>) { forall l | l in order :: Attached(s, l) && l in s.link }

  ghost function LinkReports(s: Store, order: seq<int>, now: Time): seq<Event>
    requires AllAttached(s, order)
  {
    if order == [] then [] else LinkReports(s, order[..|order| - 1], now) + LinkReport(s, order[|order| - 1], now)
  }

  /** An aged link: past deadlines are gone, those ahead stand; its time to live is counted to the last of them. */
  lemma AgedMeans(k: LinkInfo, now: Time)
    requires Timed(k)
    ensures var a := Aged(k, now);
            && (forall p :: a.expires.Get(p) == if k.expires.Get(p) <= now then 0 else k.expires.Get(p))
            && (forall p :: p in a.protocols <==> k.expires.Get(p) > now)
            && (a.protocols == {} <==> Faded(k, now)) && (a.protocols != k.protocols <==> Fades(k, now))
            && (forall p :: k.expires.Get(p) > now ==> k.expires.Get(p) - now <= a.ttl) && (!Faded(k, now) ==> exists p :: k.expires.Get(p) == now + a.ttl)
            && a == k.(expires := a.expires, protocols := a.protocols, expiresAt := a.expiresAt, ttl := a.ttl)
  {
    AgedTimed(k, now);
    var a := Aged(k, now);
    if Fades(k, now) {
      var p :| 0 < k.expires.Get(p) <= now;
      assert p in k.protocols && p !in a.protocols;
    } else {
      forall p ensures p in a.protocols <==> p in k.protocols {}
      assert a.protocols == k.protocols;
    }
    if !Faded(k, now) {
      var p :| k.expires.Get(p) > now;
      assert p in a.protocols;
      var e := Cleared(k.expires, now);
      assert LatestExpiry(e) >= e.Get(p) > now;
      var q :| e.Get(q) == LatestExpiry(e);
      assert k.expires.Get(q) == now + a.ttl;
    }
  }

  lemma LinkReported(s: Store, l: int, now: Time)
    requires Inv(s) && Attached(s, l) && l in s.link
    ensures ExpireLink(s, l, now).events == s.events + LinkReport(s, l, now)
  {
    hide InvGap, Aged, Timed, Disown, Release, Faded, Fades, DropOwner, Ticks;
    LinkOwnerThere(s, l);
    AgedMeans(s.link[l], now);
    RemoveLinkInv(s, l, Expired, WHOLE);
    ListsThere(RemoveLink(s, l, Expired));
    RemoveLinkFrame(s, l);
  }

  /** The visits of due links leave the others, and the keys of all, alone. */
  lemma {:induction false} LinksReported(s: Store, order: seq<int>, now: Time)
    requires Inv(s) && NoDup(order) && AllAttached(s, order)
    ensures var t := ExpireLinks(s, order, now);
            && t.events == s.events + LinkReports(s, order, now)
            && (forall l | l in t.links.keyOf :: l in s.links.keyOf && t.links.keyOf[l] == s.links.keyOf[l])
    decreases |order|
  {
    hide InvGap, ExpireLink, LinkReport, LinkAfter, SlotsKeyed, LinkStep;
    if order != [] {
      var n := |order| - 1;
      var t := ExpireLinks(s, order[..n], now);
      LinksReported(s, order[..n], now);
      ExpireLinksEffect(s, order[..n], now);
      ExpireLinksStep(s, order[..n], now);
      StillThere(s, t, order[..n], order[n], now);
      LinkReported(t, order[n], now);
      KeysKept(t, order[n], now);
    }
  }

  lemma StillThere(s: Store, t: Store, before: seq<int>, l: int, now: Time)
    requires Inv(s) && Inv(t) && SlotsKeyed(s) && SlotsKeyed(t) && Attached(s, l) && l in s.link && l !in before && LinkStep(s, t)
    requires LinkAfter(s, t, l, l in before, now) && forall x | x in t.links.keyOf :: x in s.links.keyOf && t.links.keyOf[x] == s.links.keyOf[x]
    ensures Attached(t, l) && l in t.link && LinkReport(t, l, now) == LinkReport(s, l, now)
  {
    hide InvGap, Faded, Fades;
    ListsThere(t);
    LinkOwnerThere(t, l);
  }

  lemma KeysKept(s: Store, l: int, now: Time)
    requires Inv(s)
    ensures forall x | x in ExpireLink(s, l, now).links.keyOf :: x in s.links.keyOf && ExpireLink(s, l, now).links.keyOf[x] == s.links.keyOf[x]
  {
    hide InvGap, Aged, Disown, DropOwner, Ticks;
    if l in s.links.keyOf {
      LinkOwnerThere(s, l);
      RemoveLinkInv(s, l, Expired, WHOLE);
      ListsThere(RemoveLink(s, l, Expired));
      RemoveLinkFrame(s, l);
    }
  }

  // ---------- devices whose records expired ----------

  ghost predicate FirstAttached(s: Store, d: int) {
    d in s.devices.keyOf && d in s.linkOwner.lists && s.linkOwner.lists[d] != [] && s.linkOwner.lists[d][0] in s.links.keyOf
  }

  /** What is said of a device that lost a record: that its services changed, on its first link if it has one. */
  ghost function ServiceReport(s: Store, d: int): seq<Event> {
    if FirstAttached(s, d) then [Event(Changed, {FieldServices}, s.devices.keyOf[d], s.links.keyOf[s.linkOwner.lists[d][0]])] else []
  }

  ghost function ServiceReports(s: Store, list: seq<int>): seq<Event> {
    if list == [] then [] else ServiceReports(s, list[..|list| - 1]) + ServiceReport(s, list[|list| - 1])
  }

  /** Links and their owners, and devices that have links, are as they were. */
  ghost predicate LinksStand(s: Store, t: Store) {
    && t.links == s.links && (forall d :: FirstAttached(t, d) <==> FirstAttached(s, d))
    && forall d | FirstAttached(s, d) :: t.linkOwner.lists[d] == s.linkOwner.lists[d] && t.devices.keyOf[d] == s.devices.keyOf[d]
  }

  lemma ReviewReported(s: Store, d: int)
    requires Inv(s)
    ensures var t := Review(s, d); t.events == s.events + ServiceReport(s, d) && LinksStand(s, t)
  {
    hide InvGap, Release;
    if d in s.devices.keyOf {
      ListsThere(s);
      if s.linkOwner.lists[d] != [] { FirstOwned(s, d); } else { ForgottenStand(s, d); }
    }
  }

  lemma ForgottenStand(s: Store, d: int)
    requires d in s.devices.keyOf && d in s.linkOwner.lists && s.linkOwner.lists[d] == []
    ensures LinksStand(s, Forget(s, d)) && ServiceReport(s, d) == []
  {
  }

  lemma {:induction false} ReviewsReported(s: Store, list: seq<int>)
    requires Inv(s)
    ensures var t := ReviewAll(s, list); t.events == s.events + ServiceReports(s, list) && LinksStand(s, t)
    decreases |list|
  {
    hide InvGap, Review, ServiceReport, LinksStand;
    if list != [] {
      var n := |list| - 1;
      var t := ReviewAll(s, list[..n]);
      ReviewsReported(s, list[..n]);
      ReviewReported(t, list[n]);
      StandTwice(s, t, ReviewAll(s, list), list[n]);
    } else {
      Stands(s);
    }
  }

  lemma Stands(s: Store)
    ensures LinksStand(s, s)
  {
  }

  lemma StandTwice(s: Store, t: Store, u: Store, d: int)
    requires LinksStand(s, t) && LinksStand(t, u)
    ensures LinksStand(s, u) && ServiceReport(t, d) == ServiceReport(s, d)
  {
    hide FirstAttached;
  }

  lemma {:induction false} StandReports(s: Store, t: Store, list: seq<int>)
    requires LinksStand(s, t)
    ensures ServiceReports(t, list) == ServiceReports(s, list)
    decreases |list|
  {
    hide FirstAttached, LinksStand;
    if list != [] {
      StandReports(s, t, list[..|list| - 1]);
      Stands(t);
      StandTwice(s, t, t, list[|list| - 1]);
    }
  }

  // ---------- a tick ----------

  /** All a tick says: of each due link, in the order of the walk, that it is gone or has changed; then of each device
      that lost a record and still has a link, in the order of that walk, that its services changed. */
  lemma TickReports(s: Store, now: Time, links: seq<int>, records: seq<int>)
    requires Inv(s) && VisitsDue(links, Nearer(s.linkDue)) && VisitsDue(records, Nearer(s.dnsDue))
    ensures AllAttached(s, links)
    ensures var t := Tick(s, now, links, records);
            t.events == s.events + LinkReports(s, links, now) + ServiceReports(t, OwnersOf(s.recordOwner.owner, records))
  {
    hide InvGap, ExpireLinks, ExpireRecords, ReviewAll, LinkReports, ServiceReports, LinkStep, LinksStand, OwnersOf, Attached;
    DueAttached(s, links);
    var s0 := s.(linkDue := Nearer(s.linkDue));
    DueInv(s, s0);
    SameReports(s, s0, links, now);
    LinksReported(s0, links, now);
    ExpireLinksStep(s0, links, now);
    var s1 := ExpireLinks(s0, links, now);
    SameOwners(s0, s1);
    var s2 := s1.(dnsDue := Nearer(s1.dnsDue));
    DueInv(s1, s2);
    RecordsReported(s2, records);
    var s3, list := ExpireRecords(s2, records), OwnersOf(s2.recordOwner.owner, records);
    ReviewsReported(s3, list);
    StandReports(s3, ReviewAll(s3, list), list);
  }

  lemma SameOwners(s: Store, t: Store)
    requires LinkStep(s, t)
    ensures t.recordOwner.owner == s.recordOwner.owner
  {
  }

  lemma DueAttached(s: Store, links: seq<int>)
    requires Inv(s) && VisitsDue(links, Nearer(s.linkDue))
    ensures AllAttached(s, links)
  {
    hide InvGap;
    SlotsThere(s);
    ListsThere(s);
    forall l | l in links ensures Attached(s, l) && l in s.link { LinkOwnerThere(s, l); }
  }

  lemma {:induction false} SameReports(s: Store, t: Store, order: seq<int>, now: Time)
    requires AllAttached(s, order) && t == s.(linkDue := t.linkDue)
    ensures AllAttached(t, order) && LinkReports(t, order, now) == LinkReports(s, order, now)
    decreases |order|
  {
    if order != [] { SameReports(s, t, order[..|order| - 1], now); }
  }

  lemma {:induction false} RecordsReported(s: Store, order: seq<int>)
    requires Inv(s)
    ensures ExpireRecords(s, order).events == s.events
    decreases |order|
  {
    hide InvGap, Release, Disown, Latest;
    if order != [] { RecordsReported(s, order[..|order| - 1]); }
  }

  // ---------- evictions ----------

  /** One event for each link of a device taken off, the last first. */
  ghost function Removals(links: map<int, LinkKey>, list: seq<int>, device: DeviceKey, kind: EventKind): seq<Event>
    requires forall l | l in list :: l in links
  {
    if list == [] then [] else
    var l := list[|list| - 1];
    assert l in list;
    [Event(kind, {FieldLink}, device, links[l])] + Removals(links, list[..|list| - 1], device, kind)
  }

  lemma ShedOne(s: Store, d: int, kind: EventKind)
    requires Inv(s) && d in s.devices.keyOf && d in s.linkOwner.lists && s.linkOwner.lists[d] != []
    ensures var x, list := LastLink(s, d), s.linkOwner.lists[d]; var t := RemoveLink(s, x, kind);
            && x in s.links.keyOf && t.links.keyOf == s.links.keyOf - {x} && x !in list[..|list| - 1]
            && d in t.linkOwner.lists && t.linkOwner.lists[d] == list[..|list| - 1] && t.devices == s.devices
            && t.events == s.events + [Event(kind, {FieldLink}, s.devices.keyOf[d], s.links.keyOf[x])]
  {
    hide Complete, Partition, MaximaCached, RecordKeysAgree, LinksTimed, LinkKeysAgree, Sound;
    var x, list := LastLink(s, d), s.linkOwner.lists[d];
    LastOwned(s.linkOwner, d);
    SwapLast(list);
  }

  lemma SwapLast(list: seq<int>)
    requires list != [] && NoDup(list)
    ensures SwapRemove(list, list[|list| - 1]) == list[..|list| - 1] && list[|list| - 1] !in list[..|list| - 1]
  {
    var x := list[|list| - 1];
    assert list[FirstIndex(list, x)] == x;
  }

  lemma OwnedThere(s: Store, d: int)
    requires Inv(s) && d in s.devices.keyOf
    ensures d in s.linkOwner.lists && forall l | l in s.linkOwner.lists[d] :: l in s.links.keyOf
  {
    hide Complete, Partition, MaximaCached, RecordKeysAgree, LinksTimed, LinkKeysAgree, Sound;
  }

  lemma {:induction false} RemovalsKept(links: map<int, LinkKey>, fewer: map<int, LinkKey>, list: seq<int>, device: DeviceKey, kind: EventKind)
    requires forall l | l in list :: l in links && l in fewer && links[l] == fewer[l]
    ensures Removals(fewer, list, device, kind) == Removals(links, list, device, kind)
    decreases |list|
  {
    if list != [] {
      var l := list[|list| - 1];
      assert l in list && links[l] == fewer[l];
      RemovalsKept(links, fewer, list[..|list| - 1], device, kind);
    }
  }

  lemma {:induction false} LinksShed(s: Store, d: int, kind: EventKind)
    requires Inv(s) && d in s.devices.keyOf && d in s.linkOwner.lists && forall l | l in s.linkOwner.lists[d] :: l in s.links.keyOf
    ensures ShedLinks(s, d, kind).events == s.events + Removals(s.links.keyOf, s.linkOwner.lists[d], s.devices.keyOf[d], kind)
    decreases |s.linkOwner.lists[d]|
  {
    hide InvGap, RemoveLink;
    var list := s.linkOwner.lists[d];
    if list != [] {
      ShedLinkStep(s, d, kind);
      ShedOne(s, d, kind);
      var t := RemoveLink(s, LastLink(s, d), kind);
      OwnedThere(t, d);
      LinksShed(t, d, kind);
      RemovalsKept(s.links.keyOf, t.links.keyOf, list[..|list| - 1], s.devices.keyOf[d], kind);
    }
  }

  lemma {:induction false} RecordsShed(s: Store, d: int)
    requires Inv(s) && d in s.devices.keyOf
    ensures d in s.recordOwner.lists
    ensures ShedRecords(s, d).events == s.events
    decreases (ShedRecordStep(s, d); |s.recordOwner.lists[d]|)
  {
    hide InvGap, Disown, Release, Latest;
    ShedRecordStep(s, d);
    if s.recordOwner.lists[d] != [] { RecordsShed(RemoveDNS(s, LastRecord(s, d)), d); }
  }

  /** A device taken in when every slot is used first evicts another: one event for each of its links. */
  lemma AllocReports(s: Store)
    requires Inv(s)
    ensures var r := AllocDevice(s);
            if s.devices.free != [] then r.0.events == s.events
            else r.1 in s.devices.keyOf && r.1 in s.linkOwner.lists && (forall l | l in s.linkOwner.lists[r.1] :: l in s.links.keyOf)
                 && r.0.events == s.events + Removals(s.links.keyOf, s.linkOwner.lists[r.1], s.devices.keyOf[r.1], Evicted)
  {
    hide InvGap, ShedLinks, ShedRecords, Oldest, Release, Forget;
    if s.devices.free == [] {
      AllocDeviceVictim(s);
      var o := AllocDevice(s).1;
      OwnedThere(s, o);
      LinksShed(s, o, Evicted);
      RecordsShed(ShedLinks(s, o, Evicted), o);
      ForgetSays(ShedRecords(ShedLinks(s, o, Evicted), o), o);
    }
  }

  lemma ForgetSays(s: Store, d: int)
    requires d in s.devices.keyOf
    ensures Forget(s, d).events == s.events
  {
  }

  // ---------- merges ----------

  /** One event for each link that takes another in, under the key of both. */
  ghost function Joinings(pairs: seq<(int, int)>, newKey: map<int, LinkKey>, device: DeviceKey): seq<Event>
    requires forall p | p in pairs :: p.1 in newKey
  {
    if pairs == [] then [] else [Event(Changed, {FieldLink}, device, newKey[pairs[0].1])] + Joinings(pairs[1..], newKey, device)
  }

  lemma {:induction false} CollisionsKeyed<K>(t: Slab<K>, list: seq<int>, newKey: map<int, K>)
    ensures forall p | p in Collisions(t, list, newKey) :: p.1 in newKey
    decreases |list|
  {
    if list != [] {
      var i := list[|list| - 1];
      CollisionsKeyed(if i in t.keyOf && i in newKey then MoveTo(t, i, newKey[i]) else t, list[..|list| - 1], newKey);
    }
  }

  lemma LinksOwned(s: Store)
    requires Inv(s)
    ensures Owned(s.linkOwner)
  {
    hide Complete, Partition, MaximaCached, RecordKeysAgree, LinksTimed, LinkKeysAgree, Sound, Owned;
  }

  lemma MoveLinkSays(s: Store, dst: int, src: int)
    requires Inv(s) && dst in s.devices.keyOf && src in s.devices.keyOf && dst != src
    requires src in s.linkOwner.lists && s.linkOwner.lists[src] != [] && LastLink(s, src) in s.links.keyOf
    ensures var k := s.links.keyOf[LastLink(s, src)].(device := s.devices.keyOf[dst]);
            MoveLink(s, dst, src).events == s.events + if Collides(s.links, LastLink(s, src), k) then [Event(Changed, {FieldLink}, s.devices.keyOf[dst], k)] else []
  {
    hide InvGap, MoveTo, MergedLink, Ticks, Disown, HandOver, Collides;
    LastOwned(s.linkOwner, src) by { LinksOwned(s); }
  }

  lemma {:induction false} LinksJoined(s: Store, dst: int, src: int, newKey: map<int, LinkKey>)
    requires Inv(s) && dst in s.devices.keyOf && src in s.devices.keyOf && dst != src
    requires src in s.linkOwner.lists && forall x | x in s.linkOwner.lists[src] ::
      x in newKey && x in s.links.keyOf && newKey[x] == s.links.keyOf[x].(device := s.devices.keyOf[dst])
    requires forall p | p in Collisions(s.links, s.linkOwner.lists[src], newKey) :: p.1 in newKey
    ensures MoveLinks(s, dst, src).events == s.events + Joinings(Collisions(s.links, s.linkOwner.lists[src], newKey), newKey, s.devices.keyOf[dst])
    decreases |s.linkOwner.lists[src]|
  {
    hide InvGap, MoveLink, MoveTo, Lost, Collides, Collisions, Joinings;
    ListsThere(s);
    var list := s.linkOwner.lists[src];
    if list == [] {
      NoneJoined(s.links, newKey, s.devices.keyOf[dst]);
    } else {
      var x, rest := LastLink(s, src), list[..|list| - 1];
      assert x in list && list == rest + [x];
      MoveLinkStep(s, dst, src);
      MoveLinkSays(s, dst, src);
      MovedIndex(s, dst, src);
      DistinctInit(s, src);
      var t := MoveLink(s, dst, src);
      CollisionsKeyed(t.links, rest, newKey);
      LinksJoined(t, dst, src, newKey);
      OneJoined(s.links, list, newKey, s.devices.keyOf[dst]);
    }
  }

  lemma NoneJoined(t: Slab<LinkKey>, newKey: map<int, LinkKey>, device: DeviceKey)
    ensures Collisions(t, [], newKey) == [] && Joinings([], newKey, device) == []
  {
  }

  lemma OneJoined(t: Slab<LinkKey>, list: seq<int>, newKey: map<int, LinkKey>, device: DeviceKey)
    requires list != [] && list[|list| - 1] in t.keyOf && list[|list| - 1] in newKey
    requires forall p | p in Collisions(t, list, newKey) :: p.1 in newKey
    requires forall p | p in Collisions(MoveTo(t, list[|list| - 1], newKey[list[|list| - 1]]), list[..|list| - 1], newKey) :: p.1 in newKey
    ensures var x := list[|list| - 1]; var k := newKey[x];
            Joinings(Collisions(t, list, newKey), newKey, device)
            == (if Collides(t, x, k) then [Event(Changed, {FieldLink}, device, k)] else []) + Joinings(Collisions(MoveTo(t, x, k), list[..|list| - 1], newKey), newKey, device)
  {
    hide MoveTo;
    var x := list[|list| - 1];
    var more := Collisions(MoveTo(t, x, newKey[x]), list[..|list| - 1], newKey);
    if Collides(t, x, newKey[x]) {
      assert Collisions(t, list, newKey) == [(t.byKey[newKey[x]], x)] + more;
      assert ([(t.byKey[newKey[x]], x)] + more)[1..] == more;
    } else {
      assert [] + more == more;
      assert Collisions(t, list, newKey) == more;
    }
  }

  lemma {:induction false} MoveRecordsSay(s: Store, dst: int, src: int)
    requires Emptying(s, src) && dst in s.devices.keyOf && src in s.devices.keyOf && dst != src
    ensures MoveRecords(s, dst, src).events == s.events
    decreases (ListsThere(s); |s.recordOwner.lists[src]|)
  {
    hide InvGap, MoveTo, Disown, HandOver, Latest;
    ListsThere(s);
    if s.recordOwner.lists[src] != [] {
      MoveRecordStep(s, dst, src);
      MoveRecordsSay(MoveRecord(s, dst, src), dst, src);
    }
  }

  /** A merge says of each link that takes another in that it has changed, and nothing else. */
  lemma MergeReports(s: Store, dst: int, src: int)
    requires Inv(s) && dst != src && dst in s.devices.keyOf && src in s.devices.keyOf
    ensures src in s.linkOwner.lists
    ensures var newKey := NewLinkKeys(s, s.devices.keyOf[dst]); var pairs := Collisions(s.links, s.linkOwner.lists[src], newKey);
            (forall p | p in pairs :: p.1 in newKey) && MergeDevices(s, dst, src).events == s.events + Joinings(pairs, newKey, s.devices.keyOf[dst])
  {
    hide InvGap, MergedInfo, MoveLinks, MoveRecords, Collisions, Joinings;
    ListsThere(s);
    var s0 := s.(info := s.info[dst := MergedInfo(s.info[dst], s.info[src], s.limits.alternatives)]);
    InfoInv(s, s0);
    NewKeysFit(s, dst, src);
    MoveLinksInv(s0, dst, src);
    var newKey := NewLinkKeys(s, s.devices.keyOf[dst]);
    CollisionsKeyed(s.links, s.linkOwner.lists[src], newKey);
    LinksJoined(s0, dst, src, newKey);
    EmptyingInv(MoveLinks(s0, dst, src), src);
    MoveRecordsInv(MoveLinks(s0, dst, src), dst, src);
    MoveRecordsSay(MoveLinks(s0, dst, src), dst, src);
  }

  /** All that identity resolution says: of links that become one when it merges two devices, and of the links of the
      device evicted when it takes in a new one with every slot used. */
  lemma IdentityReports(s: Store, meta: Meta, claimed: MAC, addresses: seq<Addr>, key: DeviceKey)
    requires Inv(s) && IdentityKey(meta, claimed, addresses) == Some(key)
    ensures var r := DeviceFor(s, meta, claimed, addresses); var ip := AddressedDevice(s, meta, key);
            if Merges(s, meta, key) then r.0.events == MergeDevices(s, s.devices.byKey[key], ip.value).events
            else if ip.Some? || key in s.devices.byKey then r.0.events == s.events
            else r.0.events == AllocDevice(s).0.events
  {
    hide InvGap, MergeDevices, AllocDevice;
    DeviceForInv(s, meta, claimed, addresses);
  }
}
