/** When the hash indexes of links and records are complete: in every run, unless a merge collides. */
module Completeness {
  import opened Model
  import opened FusionTypes
  import opened Slabs
  import opened Stores
  import opened Timing
  import opened Fusion
  import opened DNSCache
  import opened Observe
  import opened Observations
  import opened Expiry
  import opened Runs

  // ---------- what a merge does to the record index ----------

  function NewDNSKeys(s: Store, dst: int): map<int, DNSKey> {
    map x | x in s.records.keyOf :: s.records.keyOf[x].(device := dst)
  }

  lemma {:induction false} MoveRecordsIndex(s: Store, dst: int, src: int, newKey: map<int, DNSKey>)
    requires Emptying(s, src) && dst in s.devices.keyOf && src in s.devices.keyOf && dst != src
    requires src in s.recordOwner.lists && forall x | x in s.recordOwner.lists[src] ::
      x in newKey && x in s.records.keyOf && newKey[x] == s.records.keyOf[x].(device := dst)
    ensures MoveRecords(s, dst, src).records == MoveAll(s.records, s.recordOwner.lists[src], newKey)
    decreases |s.recordOwner.lists[src]|
  {
    hide InvGap, MoveTo, Latest;
    ListsThere(s);
    var list := s.recordOwner.lists[src];
    if list != [] {
      var x := LastRecord(s, src);
      assert x in list;
      MoveRecordInv(s, dst, src);
      MoveRecordStep(s, dst, src);
      var t := MoveRecord(s, dst, src);
      assert t.records == MoveTo(s.records, x, newKey[x]);
      MoveToKeys(s.records, x, newKey[x]);
      LastDistinct(s, src);
      assert forall y | y in list[..|list| - 1] :: y in list;
      MoveRecordsIndex(t, dst, src, newKey);
    }
  }

  lemma LastDistinct(s: Store, src: int)
    requires Emptying(s, src) && src in s.recordOwner.lists && s.recordOwner.lists[src] != []
    ensures LastRecord(s, src) !in s.recordOwner.lists[src][..|s.recordOwner.lists[src]| - 1]
  {
    hide Sound, Partition, Complete, LinkKeysAgree, LinksTimed, IsLatest, MaximaCached;
  }

  /** A record of the merged device that a record of the other one collides with. */
  ghost predicate RecordStruck(s: Store, dst: int, src: int, r: int)
    requires r in s.records.keyOf
  {
    exists x :: x in s.records.keyOf && x in s.recordOwner.owner && s.recordOwner.owner[x] == src
      && s.records.keyOf[x].(device := dst) == s.records.keyOf[r]
  }

  lemma RecordsMovable(s: Store, dst: int, src: int)
    requires Inv(s) && Complete(s.records) && dst != src && dst in s.devices.keyOf && src in s.devices.keyOf
    ensures src in s.recordOwner.lists && s.recordOwner.owner.Keys == s.records.keyOf.Keys
    ensures forall i :: i in s.recordOwner.lists[src] <==> i in s.recordOwner.owner && s.recordOwner.owner[i] == src
    ensures Sound(s.records) && Movable(s.records, s.recordOwner.lists[src], NewDNSKeys(s, dst))
  {
    hide Partition, Sound, Owned, LinksTimed, IsLatest, MaximaCached, LinkKeysAgree;
    OwnedList(s.recordOwner, src);
    forall i | i in s.recordOwner.lists[src] ensures i in s.records.keyOf && s.records.keyOf[i].device == src && Indexed(s.records, i) {
    }
  }

  /** From a complete record index, a merge loses exactly the entries of the records it collides
      with: completeness survives if and only if nothing collides. */
  lemma MergeRecordIndex(s: Store, dst: int, src: int)
    requires Inv(s) && Complete(s.records) && dst != src && dst in s.devices.keyOf && src in s.devices.keyOf
    ensures var t := MergeDevices(s, dst, src);
            && (forall r | r in t.records.keyOf :: r in s.records.keyOf)
            && (forall r | r in s.records.keyOf && s.recordOwner.owner[r] != src ::
                  r in t.records.keyOf && (Indexed(t.records, r) <==> !RecordStruck(s, dst, src, r)))
            && (forall r | r in t.records.keyOf && s.recordOwner.owner[r] == src :: Indexed(t.records, r))
            && (Complete(t.records) <==> forall r | r in s.records.keyOf :: !RecordStruck(s, dst, src, r))
  {
    hide InvGap, MoveAll;
    ListsThere(s);
    var newKey := NewDNSKeys(s, dst);
    var list := s.recordOwner.lists[src];
    var s0 := s.(info := s.info[dst := MergedInfo(s.info[dst], s.info[src], s.limits.alternatives)]);
    InfoInv(s, s0);
    RecordsMovable(s, dst, src);
    MoveLinksInv(s0, dst, src);
    var s1 := MoveLinks(s0, dst, src);
    EmptyingInv(s1, src);
    ListsThere(s1);
    MoveRecordsInv(s1, dst, src);
    MoveRecordsIndex(s1, dst, src, newKey);
    MoveAllIndex(s.records, list, newKey);
    var t := MergeDevices(s, dst, src);
    assert t.records == MoveAll(s.records, list, newKey);
    forall r | r in s.records.keyOf && s.recordOwner.owner[r] != src
      ensures r in t.records.keyOf && (Indexed(t.records, r) <==> !RecordStruck(s, dst, src, r))
    {
      assert Indexed(s.records, r);
      assert Hit(s.records, list, newKey, r) <==> RecordStruck(s, dst, src, r);
    }
    forall r | r in s.records.keyOf && s.recordOwner.owner[r] == src ensures !RecordStruck(s, dst, src, r) {
      assert r in list;
    }
  }

  ghost predicate RecordsCollide(s: Store, dst: int, src: int) {
    exists r :: r in s.records.keyOf && RecordStruck(s, dst, src, r)
  }

  lemma DeviceForRecords(s: Store, meta: Meta, claimed: MAC, addresses: seq<Addr>)
    requires Inv(s) && Complete(s.records)
    ensures var key := IdentityKey(meta, claimed, addresses);
            var t := DeviceFor(s, meta, claimed, addresses).0;
            if key.Some? && Merges(s, meta, key.value) then
              (Complete(t.records) <==> !RecordsCollide(s, s.devices.byKey[key.value], AddressedDevice(s, meta, key.value).value))
            else Complete(t.records)
  {
    hide InvGap, Promote, MergeDevices, AllocDevice, AddDevice, Partition, Complete;
    match IdentityKey(meta, claimed, addresses) {
      case None =>
      case Some(key) =>
        IndexFacts(s);
        var ip := AddressedDevice(s, meta, key);
        if ip.Some? { SoundAt(s.devices, IPKey(Unmap(meta.sourceIP), meta.iface)); }
        if Merges(s, meta, key) {
          SoundAt(s.devices, key);
          MergeRecordIndex(s, s.devices.byKey[key], ip.value);
        } else if ip.Some? {
          PromoteFits(s, ip.value, key);
        } else if key !in s.devices.byKey {
          AllocFits(s, key, meta.timestamp);
        }
    }
  }

  // ---------- runs ----------

  ghost predicate Whole(s: Store) { Complete(s.links) && Complete(s.records) }

  /** The observation finds two devices to be one, and links or records of the two collide. */
  ghost predicate CollidingMerge(s: Store, meta: Meta, claimed: MAC, addresses: seq<Addr>)
    requires Inv(s)
  {
    var key := IdentityKey(meta, claimed, addresses);
    key.Some? && Merges(s, meta, key.value)
    && (IndexFacts(s); var dst, src := s.devices.byKey[key.value], AddressedDevice(s, meta, key.value).value;
        LinksCollide(s, dst, src) || RecordsCollide(s, dst, src))
  }

  ghost predicate StepCollides(s: Store, step: Step)
    requires Inv(s)
  {
    match step
    case LinkLayer(meta, o) => CollidingMerge(s, meta, o.claimed, o.addresses)
    case MulticastDNS(meta, records) => CollidingMerge(s, meta, NO_MAC, if meta.sourceIP == NoAddr then AnyAddress(records) else [])
    case Second(_, _, _) => false
  }

  /** Identity resolution keeps both indexes complete if and only if it makes no colliding merge. */
  lemma IdentityWhole(s: Store, meta: Meta, claimed: MAC, addresses: seq<Addr>)
    requires Inv(s) && Whole(s)
    ensures Whole(DeviceFor(s, meta, claimed, addresses).0) <==> !CollidingMerge(s, meta, claimed, addresses)
  {
    hide InvGap, DeviceFor, Complete, LinksCollide, RecordsCollide;
    IndexFacts(s);
    DeviceForComplete(s, meta, claimed, addresses);
    DeviceForRecords(s, meta, claimed, addresses);
  }

  lemma ObservedWhole(s: Store, meta: Meta, o: Observation, w: World)
    requires Inv(s) && Whole(s) && !CollidingMerge(s, meta, o.claimed, o.addresses)
    ensures Whole(Observed(s, meta, o, w))
  {
    hide InvGap, DeviceFor, ApplyAll, Conclude, Timestamped, Complete, CollidingMerge;
    IdentityWhole(s, meta, o.claimed, o.addresses);
    DeviceForInv(s, meta, o.claimed, o.addresses);
    var r := DeviceFor(s, meta, o.claimed, o.addresses);
    if r.1 != -1 {
      ListsThere(r.0);
      var k := r.0.info[r.1];
      var a := ApplyAll(o.edits, k, meta.protocol, meta.timestamp, In(w, s.limits));
      var s1 := r.0.(info := r.0.info[r.1 := Timestamped(a.0, meta.timestamp)]);
      InfoInv(r.0, s1);
      ConcludeInv(s1, meta, r.1, a.1, k.protocols == {}, o, w);
    }
  }

  lemma ObservedMDNSWhole(s: Store, meta: Meta, records: seq<DNSRecord>, w: World)
    requires Inv(s) && Whole(s) && !CollidingMerge(s, meta, NO_MAC, if meta.sourceIP == NoAddr then AnyAddress(records) else [])
    ensures Whole(ObservedMDNS(s, meta, records, w))
  {
    hide InvGap, DeviceFor, ApplyAll, Conclude, Recorded, AllRecordFields, Complete, CollidingMerge, AllSettled;
    var addresses := if meta.sourceIP == NoAddr then AnyAddress(records) else [];
    IdentityWhole(s, meta, NO_MAC, addresses);
    DeviceForInv(s, meta, NO_MAC, addresses);
    var r := DeviceFor(s, meta, NO_MAC, addresses);
    if r.1 != -1 {
      ListsThere(r.0);
      var k := r.0.info[r.1];
      var a := ApplyAll(Sighting(meta) + [HasAddress(meta.sourceIP)], k, MDNS, meta.timestamp, In(w, s.limits));
      var s1 := r.0.(info := r.0.info[r.1 := a.0]);
      InfoInv(r.0, s1);
      RecordedInv(r.0, meta, r.1, records, w);
      var t := Recorded(r.0, meta, r.1, records, w);
      ListsThere(t);
      ConcludeInv(t, meta, r.1, a.1 + AllRecordFields(s1, r.1, records, |records|, meta.timestamp) + When(MDNS !in k.protocols, FieldIdentity),
                  k.protocols == {}, NO_EVIDENCE.(ttl := LinkTTL(t.dnsExpiry[r.1], meta.timestamp)), w);
    }
  }

  lemma {:induction false} ExpireLinksWhole(s: Store, order: seq<int>, now: Time)
    requires Inv(s) && Whole(s)
    ensures Whole(ExpireLinks(s, order, now))
  {
    hide InvGap, ExpireLink, Complete;
    if order != [] {
      ExpireLinksWhole(s, order[..|order| - 1], now);
      ExpireLinkInv(ExpireLinks(s, order[..|order| - 1], now), order[|order| - 1], now);
    }
  }

  lemma {:induction false} ExpireRecordsWhole(s: Store, order: seq<int>)
    requires Inv(s) && Whole(s)
    ensures Whole(ExpireRecords(s, order))
  {
    hide InvGap, RemoveDNS, Complete;
    if order != [] {
      ExpireRecordsWhole(s, order[..|order| - 1]);
      RemoveDNSInv(ExpireRecords(s, order[..|order| - 1]), order[|order| - 1], WHOLE);
    }
  }

  lemma TickWhole(s: Store, now: Time, links: seq<int>, records: seq<int>)
    requires Inv(s) && Whole(s)
    ensures Whole(Tick(s, now, links, records))
  {
    hide InvGap, ExpireLinks, ExpireRecords, ReviewAll, Complete;
    var s0 := s.(linkDue := Nearer(s.linkDue));
    DueInv(s, s0);
    ExpireLinksWhole(s0, links, now);
    var s1 := ExpireLinks(s0, links, now);
    var s2 := s1.(dnsDue := Nearer(s1.dnsDue));
    DueInv(s1, s2);
    ExpireRecordsWhole(s2, records);
    var owners := OwnersOf(s2.recordOwner.owner, records);
    ReviewsKeepLinks(ExpireRecords(s2, records), owners);
    ReviewsKeepRecords(ExpireRecords(s2, records), owners);
  }

  lemma DoWhole(s: Store, step: Step, w: World)
    requires Inv(s) && Whole(s) && !StepCollides(s, step)
    ensures Whole(Do(s, step, w))
  {
    hide InvGap, Observed, ObservedMDNS, Tick, Complete, CollidingMerge;
    match step {
      case LinkLayer(meta, o) => ObservedWhole(s, meta, o, w);
      case MulticastDNS(meta, records) => ObservedMDNSWhole(s, meta, records, w);
      case Second(now, links, dns) => TickWhole(s, now, links, dns);
    }
  }

  ghost predicate NeverCollides(limits: Limits, steps: seq<Step>, w: World)
    requires Positive(limits)
  {
    steps == []
    || (NeverCollides(limits, steps[..|steps| - 1], w) && !StepCollides(Run(limits, steps[..|steps| - 1], w), steps[|steps| - 1]))
  }

  /** In every run without a colliding merge every link and every record is found under its key. */
  lemma {:induction false} RunWhole(limits: Limits, steps: seq<Step>, w: World)
    requires Positive(limits) && NeverCollides(limits, steps, w)
    ensures Whole(Run(limits, steps, w))
  {
    hide InvGap, StepCollides, Do, Complete;
    if steps == [] {
      EmptyInv(limits);
    } else {
      var before := steps[..|steps| - 1];
      RunWhole(limits, before, w);
      DoWhole(Run(limits, before, w), steps[|steps| - 1], w);
    }
  }
}
