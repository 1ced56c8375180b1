/** Which devices a tick takes: those that lose the last of what they own. */
module Departures {
  import opened Model
  import opened FusionTypes
  import opened Slabs
  import opened Stores
  import opened Timing
  import opened Fusion
  import opened Expiry

  // ---------- ownership from one state to the next ----------

  ghost predicate OwnsLink(s: Store, d: int) { exists l :: l in s.linkOwner.owner && s.linkOwner.owner[l] == d }

  ghost predicate OwnsRecord(s: Store, d: int) { exists r :: r in s.recordOwner.owner && s.recordOwner.owner[r] == d }

  ghost predicate LosesLink(s: Store, t: Store, d: int) {
    exists l :: l in s.linkOwner.owner && s.linkOwner.owner[l] == d && l !in t.linkOwner.owner
  }

  ghost predicate LosesRecord(s: Store, t: Store, d: int) {
    exists r :: r in s.recordOwner.owner && s.recordOwner.owner[r] == d && r !in t.recordOwner.owner
  }

  /** Links and records of t are those of s, with the same owners. */
  ghost predicate Dwindled(s: Store, t: Store) {
    && (forall l | l in t.linkOwner.owner :: l in s.linkOwner.owner && t.linkOwner.owner[l] == s.linkOwner.owner[l])
    && (forall r | r in t.recordOwner.owner :: r in s.recordOwner.owner && t.recordOwner.owner[r] == s.recordOwner.owner[r])
  }

  /** Devices of t are those of s, with the same keys and evidence. */
  ghost predicate Remaining(s: Store, t: Store) {
    && (forall d | d in t.devices.keyOf :: d in s.devices.keyOf && t.devices.keyOf[d] == s.devices.keyOf[d])
    && (forall d | d in t.info :: d in s.info && t.info[d] == s.info[d])
  }

  lemma OwnedLists(s: Store, d: int)
    requires Inv(s) && d in s.devices.keyOf
    ensures d in s.linkOwner.lists && d in s.recordOwner.lists
    ensures s.linkOwner.lists[d] == [] <==> !OwnsLink(s, d)
    ensures s.recordOwner.lists[d] == [] <==> !OwnsRecord(s, d)
  {
    hide Sound, Partition, Complete, MaximaCached, RecordKeysAgree, LinkKeysAgree, LinksTimed;
    ListMeans(s.linkOwner, d);
    ListMeans(s.recordOwner, d);
  }

  lemma ListMeans(o: Owners, d: int)
    requires Owned(o) && d in o.lists
    ensures o.lists[d] != [] <==> exists l :: l in o.owner && o.owner[l] == d
  {
    OwnedList(o, d);
    if o.lists[d] != [] {
      var l := o.lists[d][0];
      assert l in o.lists[d];
      assert l in o.owner && o.owner[l] == d;
    }
  }

  // ---------- due links ----------

  /** A step that leaves records alone takes exactly the devices that lose a link and own nothing then. */
  ghost predicate LinkStep(s: Store, t: Store) {
    && Dwindled(s, t) && Remaining(s, t) && t.recordOwner.owner == s.recordOwner.owner
    && forall d | d in s.devices.keyOf :: d !in t.devices.keyOf <==> LosesLink(s, t, d) && !OwnsLink(t, d) && !OwnsRecord(t, d)
  }

  lemma LinkStepTwice(s: Store, t: Store, u: Store)
    requires LinkStep(s, t) && LinkStep(t, u)
    ensures LinkStep(s, u)
  {
    hide LosesLink, OwnsLink, OwnsRecord;
    forall d | d in s.devices.keyOf ensures d !in u.devices.keyOf <==> LosesLink(s, u, d) && !OwnsLink(u, d) && !OwnsRecord(u, d) {
      LossTwice(s, t, u, d);
    }
  }

  lemma LossTwice(s: Store, t: Store, u: Store, d: int)
    requires Dwindled(s, t) && Dwindled(t, u) && u.recordOwner.owner == t.recordOwner.owner
    ensures LosesLink(s, u, d) <==> LosesLink(s, t, d) || LosesLink(t, u, d)
    ensures OwnsLink(u, d) ==> OwnsLink(t, d)
    ensures OwnsLink(t, d) && !OwnsLink(u, d) ==> LosesLink(t, u, d)
    ensures OwnsRecord(u, d) <==> OwnsRecord(t, d)
  {
  }

  lemma StillStep(s: Store, t: Store)
    requires t.linkOwner.owner == s.linkOwner.owner && t.recordOwner.owner == s.recordOwner.owner && t.devices == s.devices && t.info == s.info
    ensures LinkStep(s, t)
  {
  }

  lemma ExpireLinkStep(s: Store, l: int, now: Time)
    requires Inv(s)
    ensures LinkStep(s, ExpireLink(s, l, now))
  {
    hide InvGap, RemoveLink, Forget, Aged, Ticks, LinkStep;
    if l !in s.links.keyOf {
      StillStep(s, s);
    } else {
      LinkOwnerThere(s, l);
      if Aged(s.link[l], now).protocols == {} {
        var d, t := s.linkOwner.owner[l], RemoveLink(s, l, Expired);
        RemoveLinkInv(s, l, Expired, WHOLE);
        Removed(s, l);
        ListsThere(t);
        OwnedLists(t, d);
        if t.linkOwner.lists[d] == [] && t.recordOwner.lists[d] == [] { ForgetFrames(t, d); }
        RemovedStep(s, t, ExpireLink(s, l, now), l);
      } else {
        StillStep(s, ExpireLink(s, l, now));
      }
    }
  }

  lemma Removed(s: Store, l: int)
    requires Inv(s) && l in s.links.keyOf
    ensures l in s.linkOwner.owner
    ensures var t := RemoveLink(s, l, Expired);
            t.devices == s.devices && t.info == s.info && t.linkOwner.owner == s.linkOwner.owner - {l} && t.recordOwner == s.recordOwner
  {
    hide InvGap, SwapRemove;
    LinkOwnerThere(s, l);
  }

  lemma ForgetFrames(s: Store, d: int)
    requires d in s.devices.keyOf
    ensures var t := Forget(s, d);
            && t.devices.keyOf == s.devices.keyOf - {d} && t.info == s.info - {d}
            && t.linkOwner.owner == s.linkOwner.owner && t.recordOwner.owner == s.recordOwner.owner
  {
  }

  lemma RemovedStep(s: Store, t: Store, u: Store, l: int)
    requires l in s.linkOwner.owner && t.devices == s.devices && t.info == s.info
    requires t.linkOwner.owner == s.linkOwner.owner - {l} && t.recordOwner.owner == s.recordOwner.owner
    requires u.linkOwner.owner == t.linkOwner.owner && u.recordOwner.owner == t.recordOwner.owner
    requires var d := s.linkOwner.owner[l];
             if !OwnsLink(t, d) && !OwnsRecord(t, d) then u.devices.keyOf == s.devices.keyOf - {d} && u.info == s.info - {d}
             else u.devices == s.devices && u.info == s.info
    ensures LinkStep(s, u)
  {
  }

  lemma {:induction false} ExpireLinksStep(s: Store, order: seq<int>, now: Time)
    requires Inv(s)
    ensures LinkStep(s, ExpireLinks(s, order, now))
  {
    hide InvGap, ExpireLink, LinkStep;
    if order == [] {
      StillStep(s, s);
    } else {
      var t := ExpireLinks(s, order[..|order| - 1], now);
      ExpireLinksStep(s, order[..|order| - 1], now);
      ExpireLinkStep(t, order[|order| - 1], now);
      LinkStepTwice(s, t, ExpireLink(t, order[|order| - 1], now));
    }
  }

  // ---------- due records ----------

  lemma {:induction false} ExpireRecordsStep(s: Store, order: seq<int>)
    requires Inv(s)
    ensures var t := ExpireRecords(s, order);
            && Dwindled(s, t) && t.devices == s.devices && t.info == s.info && t.linkOwner.owner == s.linkOwner.owner
            && forall r | r in s.recordOwner.owner && r !in t.recordOwner.owner :: r in order
    decreases |order|
  {
    hide InvGap, RemoveDNS;
    if order != [] {
      var n := |order| - 1;
      var t := ExpireRecords(s, order[..n]);
      ExpireRecordsStep(s, order[..n]);
      RemovedRecord(t, order[n]);
      assert order == order[..n] + [order[n]];
    }
  }

  lemma RemovedRecord(s: Store, r: int)
    requires Inv(s)
    ensures var t := RemoveDNS(s, r);
            && t.devices == s.devices && t.info == s.info && t.linkOwner == s.linkOwner && t.recordOwner.owner == s.recordOwner.owner - {r}
  {
    hide Sound, Complete, Partition, Owned, MaximaCached, RecordKeysAgree, LinkKeysAgree, LinksTimed, Latest, SwapRemove;
  }

  lemma {:induction false} OwnersAre(owner: map<int, int>, order: seq<int>)
    ensures forall d :: d in OwnersOf(owner, order) <==> exists r :: r in order && r in owner && owner[r] == d
    decreases |order|
  {
    if order != [] {
      var n := |order| - 1;
      OwnersAre(owner, order[..n]);
      assert order == order[..n] + [order[n]];
    }
  }

  /** A review takes exactly the devices of its list that own nothing. */
  ghost predicate ReviewStep(s: Store, t: Store, list: seq<int>) {
    && t.linkOwner.owner == s.linkOwner.owner && t.recordOwner.owner == s.recordOwner.owner && Remaining(s, t)
    && forall d | d in s.devices.keyOf :: d !in t.devices.keyOf <==> d in list && !OwnsLink(s, d) && !OwnsRecord(s, d)
  }

  lemma ReviewOne(s: Store, d: int)
    requires Inv(s)
    ensures ReviewStep(s, Review(s, d), [d])
  {
    hide InvGap, Forget;
    if d in s.devices.keyOf {
      ListsThere(s);
      OwnedLists(s, d);
      ForgetFrames(s, d);
      if s.linkOwner.lists[d] != [] { FirstOwned(s, d); }
    }
  }

  lemma {:induction false} ReviewsStep(s: Store, list: seq<int>)
    requires Inv(s)
    ensures ReviewStep(s, ReviewAll(s, list), list)
    decreases |list|
  {
    hide InvGap, Review;
    if list != [] {
      var n := |list| - 1;
      var t := ReviewAll(s, list[..n]);
      ReviewsStep(s, list[..n]);
      ReviewOne(t, list[n]);
      assert list == list[..n] + [list[n]];
    }
  }

  // ---------- the tick ----------

  lemma CountedStep(s: Store, t: Store)
    requires t == s.(linkDue := t.linkDue, dnsDue := t.dnsDue)
    ensures LinkStep(s, t)
  {
  }

  /** What the links leave, then the records, then the reviews. */
  lemma StepsTogether(s: Store, t: Store, u: Store, v: Store, order: seq<int>, list: seq<int>)
    requires LinkStep(s, t) && Dwindled(t, u) && u.devices == t.devices && u.info == t.info && u.linkOwner.owner == t.linkOwner.owner
    requires forall r | r in t.recordOwner.owner && r !in u.recordOwner.owner :: r in order
    requires forall r | r in order && r in t.recordOwner.owner :: r !in u.recordOwner.owner
    requires forall d :: d in list <==> exists r :: r in order && r in t.recordOwner.owner && t.recordOwner.owner[r] == d
    requires ReviewStep(u, v, list)
    ensures Dwindled(s, v) && Remaining(s, v)
    ensures forall d | d in s.devices.keyOf ::
              d !in v.devices.keyOf <==> (LosesLink(s, v, d) || LosesRecord(s, v, d)) && !OwnsLink(v, d) && !OwnsRecord(v, d)
  {
    hide OwnsLink, OwnsRecord, LosesLink, LosesRecord;
    forall d | d in s.devices.keyOf
      ensures d !in v.devices.keyOf <==> (LosesLink(s, v, d) || LosesRecord(s, v, d)) && !OwnsLink(v, d) && !OwnsRecord(v, d)
    {
      SameLosses(s, t, u, v, d);
      ListedLosses(t, u, order, list, d);
    }
  }

  lemma SameLosses(s: Store, t: Store, u: Store, v: Store, d: int)
    requires Dwindled(s, t) && Dwindled(t, u) && u.linkOwner.owner == t.linkOwner.owner && t.recordOwner.owner == s.recordOwner.owner
    requires v.linkOwner.owner == u.linkOwner.owner && v.recordOwner.owner == u.recordOwner.owner
    ensures LosesLink(s, v, d) <==> LosesLink(s, t, d)
    ensures LosesRecord(s, v, d) <==> LosesRecord(t, u, d)
    ensures (OwnsLink(v, d) <==> OwnsLink(t, d)) && (OwnsLink(u, d) <==> OwnsLink(t, d)) && (OwnsRecord(v, d) <==> OwnsRecord(u, d))
    ensures OwnsRecord(u, d) ==> OwnsRecord(t, d)
    ensures OwnsRecord(t, d) && !OwnsRecord(u, d) ==> LosesRecord(t, u, d)
  {
  }

  lemma ListedLosses(t: Store, u: Store, order: seq<int>, list: seq<int>, d: int)
    requires Dwindled(t, u)
    requires forall r | r in t.recordOwner.owner && r !in u.recordOwner.owner :: r in order
    requires forall r | r in order && r in t.recordOwner.owner :: r !in u.recordOwner.owner
    requires forall d :: d in list <==> exists r :: r in order && r in t.recordOwner.owner && t.recordOwner.owner[r] == d
    ensures d in list <==> LosesRecord(t, u, d)
  {
  }

  lemma {:induction false} ListedGo(s: Store, order: seq<int>)
    requires Inv(s)
    ensures forall r | r in order :: r !in ExpireRecords(s, order).recordOwner.owner
    decreases |order|
  {
    hide InvGap, RemoveDNS;
    if order != [] {
      var n := |order| - 1;
      ListedGo(s, order[..n]);
      RemovedRecord(ExpireRecords(s, order[..n]), order[n]);
      assert order == order[..n] + [order[n]];
    }
  }

  /** A tick takes exactly the devices that lose a link or a record in it and own nothing afterwards; the
      others keep their keys and what is known of them, and what is left keeps its owner. */
  lemma TickDevices(s: Store, now: Time, links: seq<int>, records: seq<int>)
    requires Inv(s)
    ensures var t := Tick(s, now, links, records);
            && Dwindled(s, t) && Remaining(s, t)
            && forall d | d in s.devices.keyOf ::
                 d !in t.devices.keyOf <==> (LosesLink(s, t, d) || LosesRecord(s, t, d)) && !OwnsLink(t, d) && !OwnsRecord(t, d)
  {
    hide InvGap, ExpireLinks, ExpireRecords, ReviewAll, LinkStep, ReviewStep, OwnsLink, OwnsRecord, LosesLink, LosesRecord;
    var s0 := s.(linkDue := Nearer(s.linkDue));
    DueInv(s, s0);
    CountedStep(s, s0);
    ExpireLinksStep(s0, links, now);
    var s1 := ExpireLinks(s0, links, now);
    LinkStepTwice(s, s0, s1);
    var s2 := s1.(dnsDue := Nearer(s1.dnsDue));
    DueInv(s1, s2);
    CountedStep(s1, s2);
    LinkStepTwice(s, s1, s2);
    ExpireRecordsStep(s2, records);
    ListedGo(s2, records);
    var list := OwnersOf(s2.recordOwner.owner, records);
    OwnersAre(s2.recordOwner.owner, records);
    ReviewsStep(ExpireRecords(s2, records), list);
    StepsTogether(s, s2, ExpireRecords(s2, records), Tick(s, now, links, records), records, list);
  }
}
