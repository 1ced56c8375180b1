/** Ticks of the fusion store: links and records leave when their time has come. */
module Expiry {
  import opened Model
  import opened FusionTypes
  import opened Slabs
  import opened Stores
  import opened Timing

  // ---------- one link ----------

  function Left(t: Time, now: Time): Time { if t <= now then 0 else t }

  /** Deadlines not past at now. */
  function Cleared(e: Deadlines, now: Time): (r: Deadlines)
    ensures forall p :: r.Get(p) == Left(e.Get(p), now)
  {
    Deadlines(Left(e.lldp, now), Left(e.cdp, now), Left(e.mndp, now), Left(e.mdns, now))
  }

  /** A due link without its past protocols. */
  function Aged(k: LinkInfo, now: Time): LinkInfo {
    var e := Cleared(k.expires, now);
    k.(expires := e,
       protocols := (set p | p in k.protocols && !(k.expires.Get(p) != 0 && k.expires.Get(p) <= now)),
       expiresAt := EarliestExpiry(e),
       ttl := LatestExpiry(e) - now)
  }

  lemma AgedTimed(k: LinkInfo, now: Time)
    requires Timed(k)
    ensures Timed(Aged(k, now)) && Aged(k, now).device == k.device
    ensures Aged(k, now).protocols == {} <==> forall p :: Aged(k, now).expires.Get(p) == 0
  {
    var a := Aged(k, now);
    forall p: Protocol ensures p in a.protocols <==> a.expires.Get(p) != 0 {
      assert p in k.protocols <==> k.expires.Get(p) != 0;
    }
  }

  /** The visit of a due link: past protocols go, then the link, then a device left with nothing. */
  ghost function ExpireLink(s: Store, l: int, now: Time): Store
    requires Inv(s)
  {
    if l !in s.links.keyOf then s else
    LinkOwnerThere(s, l);
    var k := s.link[l];
    var a := Aged(k, now);
    var d := s.linkOwner.owner[l];
    if a.protocols == {} then
      RemoveLinkInv(s, l, Expired, WHOLE);
      ListsThere(RemoveLink(s, l, Expired));
      var t := RemoveLink(s, l, Expired);
      if t.linkOwner.lists[d] == [] && t.recordOwner.lists[d] == [] then Forget(t, d) else t
    else
      s.(link := s.link[l := a], linkDue := s.linkDue[l := Ticks(a.expiresAt - now)],
         events := s.events + if a.protocols != k.protocols then [Event(Changed, {FieldLink}, s.devices.keyOf[d], s.links.keyOf[l])] else [])
  }

  lemma LinkOwnerThere(s: Store, l: int)
    requires Inv(s) && l in s.links.keyOf
    ensures l in s.link && l in s.linkDue && l in s.linkOwner.owner && s.linkOwner.owner[l] in s.devices.keyOf && Timed(s.link[l])
  {
    hide Sound, Partition, Complete, MaximaCached, RecordKeysAgree, Timed;
    AgreeAt(s, l);
  }

  lemma ExpireLinkInv(s: Store, l: int, now: Time)
    requires Inv(s)
    ensures Inv(ExpireLink(s, l, now)) && ExpireLink(s, l, now).limits == s.limits
    ensures Complete(s.links) ==> Complete(ExpireLink(s, l, now).links)
    ensures ExpireLink(s, l, now).records == s.records && ExpireLink(s, l, now).dnsDue == s.dnsDue
  {
    hide InvGap, Complete, Aged, Timed, RemoveLink, Forget;
    if l in s.links.keyOf {
      LinkOwnerThere(s, l);
      AgedTimed(s.link[l], now);
      if Aged(s.link[l], now).protocols == {} {
        RemoveLinkInv(s, l, Expired, WHOLE);
        RemoveLinkFrame(s, l);
        var t := RemoveLink(s, l, Expired);
        ListsThere(t);
        var d := s.linkOwner.owner[l];
        if t.linkOwner.lists[d] == [] && t.recordOwner.lists[d] == [] {
          ForgetInv(t, d, WHOLE);
          ForgetFrame(t, d);
        }
      } else {
        AgedInv(s, ExpireLink(s, l, now), l, now);
      }
    }
  }

  lemma RemoveLinkFrame(s: Store, l: int)
    requires Inv(s) && l in s.links.keyOf
    ensures var t := RemoveLink(s, l, Expired);
            t.devices == s.devices && t.limits == s.limits && t.records == s.records && t.dnsDue == s.dnsDue && t.recordOwner == s.recordOwner
            && t.links.keyOf == s.links.keyOf - {l} && t.link == s.link - {l} && t.linkDue == s.linkDue - {l}
  {
    hide InvGap, Disown;
  }

  lemma ForgetFrame(s: Store, d: int)
    requires d in s.devices.keyOf
    ensures var t := Forget(s, d);
            t.limits == s.limits && t.records == s.records && t.dnsDue == s.dnsDue && t.links == s.links && t.link == s.link && t.linkDue == s.linkDue
  {
  }

  lemma AgedInv(s: Store, t: Store, l: int, now: Time)
    requires Inv(s) && l in s.links.keyOf && l in s.link && Timed(s.link[l])
    requires t == s.(link := s.link[l := Aged(s.link[l], now)], linkDue := t.linkDue, events := t.events)
    requires t.linkDue.Keys == s.linkDue.Keys + {l}
    ensures Inv(t)
  {
    hide Sound, Partition, Complete, Owned, MaximaCached, RecordKeysAgree, Aged, Timed;
    AgedTimed(s.link[l], now);
    var link' := s.link[l := Aged(s.link[l], now)];
    forall x | x in s.links.keyOf ensures KeyAgrees(s.links.keyOf, link', s.linkOwner.owner, s.devices.keyOf, x) {
      assert KeyAgrees(s.links.keyOf, s.link, s.linkOwner.owner, s.devices.keyOf, x);
    }
  }

  // ---------- all due links, all due records ----------

  ghost function ExpireLinks(s: Store, order: seq<int>, now: Time): (t: Store)
    requires Inv(s)
    ensures Inv(t) && t.dnsDue == s.dnsDue && t.records == s.records && t.limits == s.limits
  {
    if order == [] then s else
    var t := ExpireLinks(s, order[..|order| - 1], now);
    ExpireLinkInv(t, order[|order| - 1], now);
    ExpireLink(t, order[|order| - 1], now)
  }

  ghost function ExpireRecords(s: Store, order: seq<int>): (t: Store)
    requires Inv(s)
    ensures Inv(t) && t.limits == s.limits && t.devices == s.devices && t.links == s.links
  {
    if order == [] then s else
    var t := ExpireRecords(s, order[..|order| - 1]);
    RemoveDNSInv(t, order[|order| - 1], WHOLE);
    RemoveDNS(t, order[|order| - 1])
  }

  /** A device that lost records: reported by its first link, dropped when nothing is left. */
  ghost function Review(s: Store, d: int): (t: Store)
    requires Inv(s)
    ensures Inv(t) && t.limits == s.limits
  {
    if d !in s.devices.keyOf then s else
    ListsThere(s);
    if s.linkOwner.lists[d] != [] then
      FirstOwned(s, d);
      var t := s.(events := s.events + [Event(Changed, {FieldServices}, s.devices.keyOf[d], s.links.keyOf[s.linkOwner.lists[d][0]])]);
      ReportInv(s, t);
      t
    else if s.recordOwner.lists[d] == [] then
      ForgetInv(s, d, WHOLE);
      Forget(s, d)
    else s
  }

  lemma FirstOwned(s: Store, d: int)
    requires Inv(s) && d in s.linkOwner.lists && s.linkOwner.lists[d] != []
    ensures s.linkOwner.lists[d][0] in s.links.keyOf
  {
    hide Sound, Partition, Complete, MaximaCached, RecordKeysAgree, Timed, LinkKeysAgree;
    OwnedList(s.linkOwner, d);
    var l := s.linkOwner.lists[d][0];
    assert l in s.linkOwner.lists[d];
    assert l in s.linkOwner.owner;
  }

  lemma ReportInv(s: Store, t: Store)
    requires Inv(s) && t == s.(events := t.events)
    ensures Inv(t)
  {
    hide Sound, Complete, Partition, Owned, MaximaCached, RecordKeysAgree, LinkKeysAgree, LinksTimed;
  }

  ghost function ReviewAll(s: Store, devices: seq<int>): (t: Store)
    requires Inv(s)
    ensures Inv(t) && t.limits == s.limits
  {
    if devices == [] then s else Review(ReviewAll(s, devices[..|devices| - 1]), devices[|devices| - 1])
  }

  /** Owners of a list of records, each once, in order of first appearance. */
  ghost function OwnersOf(owner: map<int, int>, order: seq<int>): seq<int> {
    if order == [] then [] else
    var r := OwnersOf(owner, order[..|order| - 1]);
    var x := order[|order| - 1];
    if x in owner && owner[x] !in r then r + [owner[x]] else r
  }

  function Nearer(due: map<int, int>): map<int, int> { map i | i in due :: due[i] - 1 }

  /** order visits exactly the entries whose time is up, each once. */
  ghost predicate VisitsDue(order: seq<int>, due: map<int, int>) {
    NoDup(order) && forall i :: i in order <==> i in due && due[i] == 0
  }

  /** One tick, visiting due links and then due records in the given orders. */
  ghost function Tick(s: Store, now: Time, links: seq<int>, records: seq<int>): (t: Store)
    requires Inv(s)
    ensures Inv(t) && t.limits == s.limits
  {
    var s0 := s.(linkDue := Nearer(s.linkDue));
    DueInv(s, s0);
    var s1 := ExpireLinks(s0, links, now);
    var s2 := s1.(dnsDue := Nearer(s1.dnsDue));
    DueInv(s1, s2);
    ReviewAll(ExpireRecords(s2, records), OwnersOf(s2.recordOwner.owner, records))
  }

  lemma DueInv(s: Store, t: Store)
    requires Inv(s) && t == s.(linkDue := t.linkDue, dnsDue := t.dnsDue)
    requires t.linkDue.Keys == s.linkDue.Keys && t.dnsDue.Keys == s.dnsDue.Keys
    ensures Inv(t)
  {
    hide Sound, Complete, Partition, Owned, MaximaCached, RecordKeysAgree, LinkKeysAgree, LinksTimed;
  }

  // ---------- what a tick does to the links ----------

  predicate Survives(k: LinkInfo, now: Time) { Aged(k, now).protocols != {} }

  /** Link l of s as t has it: untouched, aged, or gone, depending on whether it was visited. */
  ghost predicate LinkAfter(s: Store, t: Store, l: int, visited: bool, now: Time)
    requires SlotsKeyed(s) && SlotsKeyed(t) && l in s.links.keyOf
  {
    if !visited then l in t.links.keyOf && t.link[l] == s.link[l] && t.linkDue[l] == s.linkDue[l]
    else if Survives(s.link[l], now) then
      l in t.links.keyOf && t.link[l] == Aged(s.link[l], now) && t.linkDue[l] == Ticks(Aged(s.link[l], now).expiresAt - now)
    else l !in t.links.keyOf
  }

  /** Every link of s as a tick leaves it: visited if it was one tick from its time. */
  ghost predicate LinksAfter(s: Store, t: Store, now: Time)
    requires SlotsKeyed(s) && SlotsKeyed(t)
  {
    forall x | x in s.links.keyOf :: LinkAfter(s.(linkDue := Nearer(s.linkDue)), t, x, s.linkDue[x] == 1, now)
  }

  lemma SlotsThere(s: Store)
    requires Inv(s)
    ensures SlotsKeyed(s)
  {
  }

  lemma ExpireLinkEffect(s: Store, l: int, now: Time, x: int)
    requires Inv(s) && SlotsKeyed(s) && SlotsKeyed(ExpireLink(s, l, now)) && x in s.links.keyOf
    ensures LinkAfter(s, ExpireLink(s, l, now), x, x == l, now)
  {
    hide InvGap, Aged, Timed, RemoveLink, Forget, Ticks;
    if l in s.links.keyOf {
      LinkOwnerThere(s, l);
      RemoveLinkFrame(s, l);
      RemoveLinkInv(s, l, Expired, WHOLE);
      ListsThere(RemoveLink(s, l, Expired));
      if s.linkOwner.owner[l] in RemoveLink(s, l, Expired).devices.keyOf { ForgetFrame(RemoveLink(s, l, Expired), s.linkOwner.owner[l]); }
    }
  }

  lemma {:induction false} ExpireLinksEffect(s: Store, order: seq<int>, now: Time)
    requires Inv(s) && NoDup(order)
    ensures var t := ExpireLinks(s, order, now);
            && SlotsKeyed(s) && SlotsKeyed(t)
            && (forall x | x in s.links.keyOf :: LinkAfter(s, t, x, x in order, now))
            && (forall x | x in t.links.keyOf :: x in s.links.keyOf)
    decreases |order|
  {
    hide InvGap, ExpireLink, LinkAfter, SlotsKeyed;
    SlotsThere(s);
    if order != [] {
      var n := |order| - 1;
      ExpireLinksEffect(s, order[..n], now);
      var t := ExpireLinks(s, order[..n], now);
      ExpireLinkInv(t, order[n], now);
      var u := ExpireLink(t, order[n], now);
      SlotsThere(u);
      ExpireLinkShrinks(t, order[n], now);
      assert order == order[..n] + [order[n]];
      forall x | x in s.links.keyOf ensures LinkAfter(s, u, x, x in order, now) {
        VisitStep(s, t, order[..n], order[n], now, x);
      }
    } else {
      forall x | x in s.links.keyOf ensures LinkAfter(s, s, x, false, now) { Unvisited(s, x, now); }
    }
  }

  lemma Unvisited(s: Store, x: int, now: Time)
    requires SlotsKeyed(s) && x in s.links.keyOf
    ensures LinkAfter(s, s, x, false, now)
  {
  }

  lemma ExpireLinkShrinks(s: Store, l: int, now: Time)
    requires Inv(s)
    ensures forall x | x in ExpireLink(s, l, now).links.keyOf :: x in s.links.keyOf
  {
    hide InvGap, Aged, RemoveLink, Forget;
    if l in s.links.keyOf {
      LinkOwnerThere(s, l);
      RemoveLinkFrame(s, l);
      RemoveLinkInv(s, l, Expired, WHOLE);
      ListsThere(RemoveLink(s, l, Expired));
      if s.linkOwner.owner[l] in RemoveLink(s, l, Expired).devices.keyOf { ForgetFrame(RemoveLink(s, l, Expired), s.linkOwner.owner[l]); }
    }
  }

  lemma VisitStep(s: Store, t: Store, before: seq<int>, l: int, now: Time, x: int)
    requires Inv(t) && SlotsKeyed(s) && SlotsKeyed(t) && SlotsKeyed(ExpireLink(t, l, now)) && x in s.links.keyOf && l !in before
    requires LinkAfter(s, t, x, x in before, now) && forall y | y in t.links.keyOf :: y in s.links.keyOf
    ensures LinkAfter(s, ExpireLink(t, l, now), x, x in before || x == l, now)
  {
    hide InvGap, ExpireLink, Aged, Ticks;
    ExpireLinkShrinks(t, l, now);
    if x in t.links.keyOf { ExpireLinkEffect(t, l, now, x); }
  }

  lemma {:induction false} RecordsKeepLinks(s: Store, order: seq<int>)
    requires Inv(s)
    ensures var t := ExpireRecords(s, order); t.links == s.links && t.link == s.link && t.linkDue == s.linkDue
    decreases |order|
  {
    hide InvGap, Release, Disown, Latest;
    if order != [] { RecordsKeepLinks(s, order[..|order| - 1]); }
  }

  lemma {:induction false} ReviewsKeepLinks(s: Store, devices: seq<int>)
    requires Inv(s)
    ensures var t := ReviewAll(s, devices); t.links == s.links && t.link == s.link && t.linkDue == s.linkDue
    decreases |devices|
  {
    hide InvGap, Review;
    if devices != [] {
      ReviewsKeepLinks(s, devices[..|devices| - 1]);
      ReviewKeepsLinks(ReviewAll(s, devices[..|devices| - 1]), devices[|devices| - 1]);
    }
  }

  lemma ReviewKeepsLinks(s: Store, d: int)
    requires Inv(s)
    ensures var t := Review(s, d);
            t.links == s.links && t.link == s.link && t.linkDue == s.linkDue && t.records == s.records && t.dnsDue == s.dnsDue && t.expiresAt == s.expiresAt
  {
    hide InvGap, Release, DropOwner;
    if d in s.devices.keyOf {
      ListsThere(s);
      if s.linkOwner.lists[d] != [] { FirstOwned(s, d); }
    }
  }

  /** A whole tick, link by link: exactly the links whose time was up are aged, by exactly their
      past deadlines. */
  lemma TickLinks(s: Store, now: Time, links: seq<int>, records: seq<int>)
    requires Inv(s) && SlotsKeyed(s) && VisitsDue(links, Nearer(s.linkDue))
    ensures var t := Tick(s, now, links, records);
            && SlotsKeyed(t)
            && (forall x | x in t.links.keyOf :: x in s.links.keyOf) && LinksAfter(s, t, now)
  {
    hide InvGap, Release, Disown, Latest, LinkAfter, ExpireLinks, ExpireRecords, ReviewAll;
    var s0 := s.(linkDue := Nearer(s.linkDue));
    DueInv(s, s0);
    ExpireLinksEffect(s0, links, now);
    var s1 := ExpireLinks(s0, links, now);
    var s2 := s1.(dnsDue := Nearer(s1.dnsDue));
    DueInv(s1, s2);
    RecordsKeepLinks(s2, records);
    ReviewsKeepLinks(ExpireRecords(s2, records), OwnersOf(s2.recordOwner.owner, records));
    var t := Tick(s, now, links, records);
    SlotsThere(t);
    forall x | x in s.links.keyOf ensures LinkAfter(s0, t, x, s.linkDue[x] == 1, now) {
      assert LinkAfter(s0, s1, x, x in links, now);
      SameLinksAfter(s0, s1, t, x, now);
    }
  }

  lemma SameLinksAfter(s: Store, t: Store, u: Store, x: int, now: Time)
    requires SlotsKeyed(s) && SlotsKeyed(t) && SlotsKeyed(u) && x in s.links.keyOf
    requires u.links == t.links && u.link == t.link && u.linkDue == t.linkDue
    ensures forall v :: LinkAfter(s, t, x, v, now) ==> LinkAfter(s, u, x, v, now)
  {
  }

  /** No tick, at whatever time, clears a deadline that is still ahead. */
  lemma NeverEarly(s: Store, now: Time, links: seq<int>, records: seq<int>, x: int, p: Protocol)
    requires Inv(s) && SlotsKeyed(s) && VisitsDue(links, Nearer(s.linkDue)) && x in s.links.keyOf
    requires s.link[x].expires.Get(p) > now
    ensures var t := Tick(s, now, links, records);
            x in t.links.keyOf && x in t.link && t.link[x].expires.Get(p) == s.link[x].expires.Get(p)
  {
    hide InvGap, Tick, Ticks;
    TickLinks(s, now, links, records);
    LinkOwnerThere(s, x);
    AgedTimed(s.link[x], now);
    assert Aged(s.link[x], now).expires.Get(p) != 0;
  }

  // ---------- exact expiry on a one-second clock ----------

  /** Just after second k every deadline is ahead, and every link is visited by the tick that
      first reaches its earliest deadline. */
  ghost predicate OnTime(k: LinkInfo, due: int, second: nat) {
    && due >= 1
    && (forall p :: k.expires.Get(p) == 0 || k.expires.Get(p) > second * SECOND)
    && (second + due - 1) * SECOND < k.expiresAt
  }

  ghost predicate InTime(s: Store, second: nat)
    requires SlotsKeyed(s)
  {
    forall l | l in s.links.keyOf :: OnTime(s.link[l], s.linkDue[l], second)
  }

  lemma AgedOnTime(k: LinkInfo, due: int, second: nat)
    requires Timed(k) && OnTime(k, due, second)
    ensures due > 1 ==> OnTime(k, due - 1, second + 1)
    ensures due == 1 && Survives(k, (second + 1) * SECOND) ==>
      OnTime(Aged(k, (second + 1) * SECOND), Ticks(Aged(k, (second + 1) * SECOND).expiresAt - (second + 1) * SECOND), second + 1)
  {
    var now := (second + 1) * SECOND;
    AgedTimed(k, now);
  }

  /** Deadline p of link x is there before the tick and not after it. */
  ghost predicate ClearedBy(s: Store, t: Store, x: int, p: Protocol)
    requires SlotsKeyed(s) && SlotsKeyed(t) && x in s.links.keyOf
  {
    s.link[x].expires.Get(p) != 0 && (x !in t.links.keyOf || t.link[x].expires.Get(p) != s.link[x].expires.Get(p))
  }

  /** With a tick every second, links stay in time, and each deadline is cleared by exactly the
      first tick at or after it. */
  lemma TickInTime(s: Store, second: nat, links: seq<int>, records: seq<int>)
    requires Inv(s) && SlotsKeyed(s) && InTime(s, second) && VisitsDue(links, Nearer(s.linkDue))
    ensures var t := Tick(s, (second + 1) * SECOND, links, records);
            && SlotsKeyed(t) && InTime(t, second + 1)
            && forall x, p | x in s.links.keyOf && s.link[x].expires.Get(p) != 0 ::
                 ClearedBy(s, t, x, p) <==> s.link[x].expires.Get(p) <= (second + 1) * SECOND
  {
    hide InvGap, Tick, Ticks, Aged, OnTime, Timed, ClearedBy, LinkAfter;
    var now := (second + 1) * SECOND;
    TickLinks(s, now, links, records);
    var t := Tick(s, now, links, records);
    forall x | x in t.links.keyOf ensures OnTime(t.link[x], t.linkDue[x], second + 1) { LinkInTime(s, t, x, second); }
    forall x, p | x in s.links.keyOf && s.link[x].expires.Get(p) != 0
      ensures ClearedBy(s, t, x, p) <==> s.link[x].expires.Get(p) <= now
    {
      DeadlineMet(s, t, x, p, second, links, records);
    }
  }

  lemma LinkInTime(s: Store, t: Store, x: int, second: nat)
    requires Inv(s) && SlotsKeyed(s) && SlotsKeyed(t) && InTime(s, second) && x in s.links.keyOf && x in t.links.keyOf
    requires LinkAfter(s.(linkDue := Nearer(s.linkDue)), t, x, s.linkDue[x] == 1, (second + 1) * SECOND)
    ensures OnTime(t.link[x], t.linkDue[x], second + 1)
  {
    hide InvGap, Ticks, Aged, OnTime, Timed;
    LinkOwnerThere(s, x);
    assert OnTime(s.link[x], s.linkDue[x], second);
    AgedOnTime(s.link[x], s.linkDue[x], second);
    DueAtLeastOne(s.link[x], s.linkDue[x], second);
  }

  lemma DeadlineMet(s: Store, t: Store, x: int, p: Protocol, second: nat, links: seq<int>, records: seq<int>)
    requires Inv(s) && SlotsKeyed(s) && SlotsKeyed(t) && VisitsDue(links, Nearer(s.linkDue))
    requires t == Tick(s, (second + 1) * SECOND, links, records) && InTime(t, second + 1)
    requires x in s.links.keyOf && s.link[x].expires.Get(p) != 0
    ensures ClearedBy(s, t, x, p) <==> s.link[x].expires.Get(p) <= (second + 1) * SECOND
  {
    hide InvGap, Tick, OnTime, Timed;
    if s.link[x].expires.Get(p) > (second + 1) * SECOND {
      NeverEarly(s, (second + 1) * SECOND, links, records, x, p);
    } else if x in t.links.keyOf {
      assert OnTime(t.link[x], t.linkDue[x], second + 1);
      AllAhead(t.link[x], t.linkDue[x], second + 1, p, s.link[x]);
    }
  }

  lemma DueAtLeastOne(k: LinkInfo, due: int, second: nat)
    requires OnTime(k, due, second)
    ensures due >= 1
  {
  }

  lemma AllAhead(k: LinkInfo, due: int, second: nat, p: Protocol, before: LinkInfo)
    requires OnTime(k, due, second) && before.expires.Get(p) <= second * SECOND
    ensures before.expires.Get(p) != 0 ==> k.expires.Get(p) != before.expires.Get(p)
  {
  }

  // ---------- records leave by tick count ----------

  lemma {:induction false} ExpireRecordsEffect(s: Store, order: seq<int>)
    requires Inv(s)
    ensures var t := ExpireRecords(s, order);
            && SlotsKeyed(s) && SlotsKeyed(t)
            && (forall r :: r in t.records.keyOf <==> r in s.records.keyOf && r !in order)
            && forall r | r in t.records.keyOf :: t.dnsDue[r] == s.dnsDue[r] && t.expiresAt[r] == s.expiresAt[r]
    decreases |order|
  {
    hide InvGap, Disown, Latest, SlotsKeyed;
    SlotsThere(s);
    if order != [] {
      var n := |order| - 1;
      ExpireRecordsEffect(s, order[..n]);
      assert order == order[..n] + [order[n]];
      var t := ExpireRecords(s, order[..n]);
      RemoveDNSInv(t, order[n], WHOLE);
      SlotsThere(RemoveDNS(t, order[n]));
      RemoveDNSEffect(t, order[n]);
    }
  }

  lemma RemoveDNSEffect(s: Store, r: int)
    requires Inv(s)
    ensures var t := RemoveDNS(s, r);
            SlotsKeyed(s) && t.records.keyOf == s.records.keyOf - {r} && t.dnsDue == s.dnsDue - {r} && t.expiresAt == s.expiresAt - {r}
  {
    hide Sound, Complete, Partition, Owned, MaximaCached, RecordKeysAgree, LinkKeysAgree, LinksTimed, Disown, Latest;
  }

  /** A record leaves on exactly the tick its countdown names, whatever the clock says; the links
      of its device do not matter to it, nor it to them. */
  lemma TickRecords(s: Store, now: Time, links: seq<int>, records: seq<int>)
    requires Inv(s) && SlotsKeyed(s)
    requires VisitsDue(links, Nearer(s.linkDue)) && VisitsDue(records, Nearer(s.dnsDue))
    ensures var t := Tick(s, now, links, records);
            && SlotsKeyed(t)
            && (forall r :: r in t.records.keyOf <==> r in s.records.keyOf && s.dnsDue[r] != 1)
            && forall r | r in t.records.keyOf :: t.dnsDue[r] == s.dnsDue[r] - 1
  {
    hide InvGap, ExpireLinks, ExpireRecords, ReviewAll, SlotsKeyed;
    var s0 := s.(linkDue := Nearer(s.linkDue));
    DueInv(s, s0);
    var s1 := ExpireLinks(s0, links, now);
    var s2 := s1.(dnsDue := Nearer(s1.dnsDue));
    DueInv(s1, s2);
    SlotsThere(s2);
    ExpireRecordsEffect(s2, records);
    ReviewsKeepRecords(ExpireRecords(s2, records), OwnersOf(s2.recordOwner.owner, records));
    SlotsThere(Tick(s, now, links, records));
    DueKeys(s);
    DueKeys(s2);
    DueKeys(ExpireRecords(s2, records));
  }

  lemma DueKeys(s: Store)
    requires Inv(s)
    ensures SlotsKeyed(s) && s.dnsDue.Keys == s.records.keyOf.Keys
  {
  }

  lemma {:induction false} ReviewsKeepRecords(s: Store, devices: seq<int>)
    requires Inv(s)
    ensures var t := ReviewAll(s, devices); t.records == s.records && t.dnsDue == s.dnsDue
    decreases |devices|
  {
    hide InvGap, Review;
    if devices != [] {
      ReviewsKeepRecords(s, devices[..|devices| - 1]);
      ReviewKeepsLinks(ReviewAll(s, devices[..|devices| - 1]), devices[|devices| - 1]);
    }
  }

  /** A stretch of ticks with no observation in between. */
  datatype TickArgs = TickArgs(now: Time, links: seq<int>, records: seq<int>)

  ghost predicate Quiet(s: Store, ticks: seq<TickArgs>)
    requires Inv(s)
    decreases |ticks|
  {
    ticks == []
    || (VisitsDue(ticks[0].links, Nearer(s.linkDue)) && VisitsDue(ticks[0].records, Nearer(s.dnsDue))
        && Quiet(Tick(s, ticks[0].now, ticks[0].links, ticks[0].records), ticks[1..]))
  }

  ghost function After(s: Store, ticks: seq<TickArgs>): (t: Store)
    requires Inv(s) && Quiet(s, ticks)
    ensures Inv(t)
    decreases |ticks|
  {
    if ticks == [] then s else After(Tick(s, ticks[0].now, ticks[0].links, ticks[0].records), ticks[1..])
  }

  /** A record scheduled n ticks ahead is cached after fewer than n ticks and gone after n: a
      goodbye lasts exactly one tick, and a rescue replaces its countdown. */
  lemma {:induction false} RecordLifetime(s: Store, ticks: seq<TickArgs>, r: int)
    requires Inv(s) && Quiet(s, ticks) && SlotsKeyed(s) && r in s.records.keyOf && s.dnsDue[r] >= 1
    ensures r in After(s, ticks).records.keyOf <==> |ticks| < s.dnsDue[r]
    decreases |ticks|
  {
    hide InvGap, Tick, SlotsKeyed;
    if ticks != [] {
      var t := Tick(s, ticks[0].now, ticks[0].links, ticks[0].records);
      TickRecords(s, ticks[0].now, ticks[0].links, ticks[0].records);
      DueKeys(s);
      if s.dnsDue[r] > 1 {
        DueKeys(t);
        RecordLifetime(t, ticks[1..], r);
      } else {
        GoneStaysGone(t, ticks[1..], r);
      }
    }
  }

  lemma {:induction false} GoneStaysGone(s: Store, ticks: seq<TickArgs>, r: int)
    requires Inv(s) && Quiet(s, ticks) && r !in s.records.keyOf
    ensures r !in After(s, ticks).records.keyOf
    decreases |ticks|
  {
    hide InvGap, Tick;
    if ticks != [] {
      DueKeys(s);
      TickRecords(s, ticks[0].now, ticks[0].links, ticks[0].records);
      GoneStaysGone(Tick(s, ticks[0].now, ticks[0].links, ticks[0].records), ticks[1..], r);
    }
  }
}
