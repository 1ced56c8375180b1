/** What a received record does to its own entry of the cache, and how long a goodbye leaves it. */
module Goodbyes {
  import opened Model
  import opened FusionTypes
  import opened Slabs
  import opened Stores
  import opened Timing
  import opened Fusion
  import opened DNSCache
  import opened Observe
  import opened Observations
  import opened Expiry

  /** The cache has an entry under a key, at slot r. */
  predicate Cached(s: Store, key: DNSKey, r: int) { key in s.records.byKey && s.records.byKey[key] == r && r in s.records.keyOf && s.records.keyOf[r] == key }

  /** Slot r expires at a time, so many ticks from now. */
  predicate Due(s: Store, r: int, expires: Time, ticks: int) { r in s.expiresAt && s.expiresAt[r] == expires && r in s.dnsDue && s.dnsDue[r] == ticks }

  predicate DueAsBefore(s: Store, t: Store, r: int) {
    r in s.expiresAt && r in t.expiresAt && t.expiresAt[r] == s.expiresAt[r] && r in s.dnsDue && r in t.dnsDue && t.dnsDue[r] == s.dnsDue[r]
  }

  function KeyOf(d: int, rec: DNSRecord): DNSKey { DNSKey(d, rec.hash, rec.typ, rec.class_) }

  lemma WholeTicks(n: nat)
    ensures Ticks(n * SECOND) == if n == 0 then 1 else n
  {
  }

  /** A record as just received: cached for its device, with its lifetime and flush bit, and lasting so
      many seconds and ticks. */
  predicate Entered(s: Store, d: int, rec: DNSRecord, now: Time) {
    KeyOf(d, rec) in s.records.byKey
    && var r := s.records.byKey[KeyOf(d, rec)];
       && Cached(s, KeyOf(d, rec), r) && Due(s, r, now + rec.ttl * SECOND, rec.ttl) && r in s.recordOwner.owner && s.recordOwner.owner[r] == d
       && r in s.record && s.record[r].ttl == rec.ttl && s.record[r].cacheFlush == rec.cacheFlush
  }

  /** A record with a lifetime that is not cached is cached as it came. */
  lemma RecordInserted(s: Store, d: int, rec: DNSRecord, now: Time)
    requires Inv(s) && d in s.devices.keyOf && rec.ttl != 0 && KeyOf(d, rec) !in s.records.byKey
    ensures var t := CacheDNS(s, d, rec, now).0; Inv(t) && Entered(t, d, rec, now) && t.record[t.records.byKey[KeyOf(d, rec)]] == rec
    ensures CacheDNS(s, d, rec, now).1
  {
    hide InvGap, Latest, AllocDNS, AddRecord, Ticks, Complete, OthersKept;
    CacheDNSInv(s, d, rec, now);
    WholeTicks(rec.ttl);
    AllocDNSInv(s);
    ListsOfGap(AllocDNS(s).0, WHOLE.(record := {AllocDNS(s).1}));
    AddRecordShape(AllocDNS(s).0, AllocDNS(s).1, d, rec, now, now + rec.ttl * SECOND);
  }

  /** One that is cached keeps its slot, and all but lifetime and flush bit. */
  lemma RecordRefreshed(s: Store, d: int, rec: DNSRecord, now: Time)
    requires Inv(s) && d in s.devices.keyOf && rec.ttl != 0 && KeyOf(d, rec) in s.records.byKey
    ensures var r := s.records.byKey[KeyOf(d, rec)]; var t := CacheDNS(s, d, rec, now).0;
            && Inv(t) && Entered(t, d, rec, now)
            && r in s.record && t.records == s.records && t.record == s.record[r := s.record[r].(ttl := rec.ttl, cacheFlush := rec.cacheFlush)]
    ensures !CacheDNS(s, d, rec, now).1
  {
    hide InvGap, Latest, AllocDNS, AddRecord, Ticks, Complete, OthersKept;
    CacheDNSInv(s, d, rec, now);
    WholeTicks(rec.ttl);
    SoundAtInv(s, MakeKey(d, rec));
    RecordThere(s, s.records.byKey[MakeKey(d, rec)]);
  }

  /** A goodbye leaves a cached record a second, which is one tick; that of an unknown record does nothing. */
  lemma GoodbyeNoted(s: Store, d: int, rec: DNSRecord, now: Time)
    requires Inv(s) && d in s.devices.keyOf && rec.ttl == 0
    ensures KeyOf(d, rec) in s.records.byKey ==>
              var r := s.records.byKey[KeyOf(d, rec)]; var t := CacheDNS(s, d, rec, now).0;
              Inv(t) && t.records == s.records && t.record == s.record && Due(t, r, now + SECOND, 1)
    ensures KeyOf(d, rec) !in s.records.byKey ==> CacheDNS(s, d, rec, now).0 == s
    ensures !CacheDNS(s, d, rec, now).1
  {
    hide InvGap, Latest, AllocDNS, AddRecord, Ticks, Complete, OthersKept;
    CacheDNSInv(s, d, rec, now);
    var key := MakeKey(d, rec);
    WholeTicks(1);
    if key in s.records.byKey {
      SoundAtInv(s, key);
      RecordThere(s, s.records.byKey[key]);
    }
  }

  // ---------- flushing ----------

  /** A record that a flush of its set settles: not announced with it, not just received, and good for
      more than a second. */
  ghost predicate Stale(s: Store, d: int, r: int, records: seq<DNSRecord>, rrset: RRSet, now: Time)
    requires SlotsKeyed(s) && r in s.records.keyOf
  {
    && s.record[r].name == rrset.name && s.record[r].typ == rrset.typ && s.record[r].class_ == rrset.class_
    && (forall i | 0 <= i < |records| :: SetOf(records[i]) == rrset ==> KeyOf(d, records[i]) != s.records.keyOf[r])
    && s.expiresAt[r] - s.record[r].ttl * SECOND < now - SECOND && s.expiresAt[r] > now + SECOND
  }

  lemma FlushOneExact(s: Store, d: int, r: int, records: seq<DNSRecord>, rrset: RRSet, now: Time)
    requires Inv(s)
    ensures var t := FlushOne(s, d, r, records, rrset, now);
            && SlotsKeyed(s) && SlotsKeyed(t) && t.records == s.records && t.record == s.record
            && forall x | x in s.records.keyOf ::
                 if x == r && Stale(s, d, x, records, rrset, now) then Due(t, x, now + SECOND, 1)
                 else DueAsBefore(s, t, x)
  {
    hide InvGap, Latest, Ticks;
    FlushOneInv(s, d, r, records, rrset, now);
    WholeTicks(1);
    if r in s.records.keyOf { RecordThere(s, r); }
  }

  /** A flush leaves exactly the stale records of its list a second, which is one tick, and touches no
      other. */
  lemma {:induction false} FlushExact(s: Store, d: int, list: seq<int>, records: seq<DNSRecord>, rrset: RRSet, now: Time)
    requires Inv(s)
    ensures var t := FlushSet(s, d, list, records, rrset, now);
            && SlotsKeyed(s) && SlotsKeyed(t) && t.records == s.records && t.record == s.record
            && forall x | x in s.records.keyOf ::
                 if x in list && Stale(s, d, x, records, rrset, now) then Due(t, x, now + SECOND, 1)
                 else DueAsBefore(s, t, x)
    decreases |list|
  {
    hide InvGap, FlushOne, SlotsKeyed, Stale;
    KeyedInv(s);
    if list != [] {
      var t := FlushOne(s, d, list[0], records, rrset, now);
      FlushOneInv(s, d, list[0], records, rrset, now);
      FlushOneExact(s, d, list[0], records, rrset, now);
      FlushExact(t, d, list[1..], records, rrset, now);
      var u := FlushSet(s, d, list, records, rrset, now);
      forall x | x in s.records.keyOf
        ensures if x in list && Stale(s, d, x, records, rrset, now) then Due(u, x, now + SECOND, 1)
                else DueAsBefore(s, u, x)
      {
        StaleOnce(s, t, d, x, records, rrset, now);
        assert x in list <==> x == list[0] || x in list[1..];
        if x in list[1..] && Stale(t, d, x, records, rrset, now) { assert Due(u, x, now + SECOND, 1); } else { assert DueAsBefore(t, u, x); }
      }
    } else {
      forall x | x in s.records.keyOf ensures DueAsBefore(s, s, x) { KeyedAt(s, x); }
    }
  }

  lemma KeyedAt(s: Store, r: int)
    requires SlotsKeyed(s) && r in s.records.keyOf
    ensures DueAsBefore(s, s, r)
  {
  }

  lemma StaleOnce(s: Store, t: Store, d: int, x: int, records: seq<DNSRecord>, rrset: RRSet, now: Time)
    requires SlotsKeyed(s) && SlotsKeyed(t) && x in s.records.keyOf && t.records == s.records && t.record == s.record
    ensures DueAsBefore(s, t, x) ==> (Stale(t, d, x, records, rrset, now) <==> Stale(s, d, x, records, rrset, now))
    ensures Due(t, x, now + SECOND, 1) ==> !Stale(t, d, x, records, rrset, now)
  {
  }

  // ---------- a goodbye in a message ----------

  /** No record is cached under the key, or one that leaves on the next tick. */
  predicate Leaving(s: Store, key: DNSKey) {
    key in s.records.byKey ==> s.records.byKey[key] in s.dnsDue && s.dnsDue[s.records.byKey[key]] == 1
  }

  lemma FlushLeaves(s: Store, d: int, records: seq<DNSRecord>, i: nat, now: Time, key: DNSKey)
    requires Inv(s) && d in s.devices.keyOf && i < |records| && Leaving(s, key)
    ensures Leaving(SetFlushed(s, d, records, i, now), key)
  {
    hide InvGap, FlushSet, Stale, Flushes;
    ListsThere(s);
    FlushExact(s, d, s.recordOwner.lists[d], records, SetOf(records[i]), now);
    var t := SetFlushed(s, d, records, i, now);
    if key in s.records.byKey && Flushes(records, i) {
      SoundAtInv(s, key);
      var r := s.records.byKey[key];
      assert Due(t, r, now + SECOND, 1) || DueAsBefore(s, t, r);
    }
  }

  lemma CacheLeaves(s: Store, d: int, rec: DNSRecord, now: Time, key: DNSKey)
    requires Inv(s) && d in s.devices.keyOf && Leaving(s, key) && (rec.ttl == 0 || KeyOf(d, rec) != key)
    ensures Leaving(CacheDNS(s, d, rec, now).0, key)
  {
    hide InvGap, Latest, Ticks, AllocDNS, AddRecord;
    WholeTicks(1);
    if key in s.records.byKey { SoundAtInv(s, key); }
    if MakeKey(d, rec) in s.records.byKey {
      SoundAtInv(s, MakeKey(d, rec));
    } else if rec.ttl != 0 {
      AllocDNSInv(s);
      AllocLeaves(s, key);
      ListsOfGap(AllocDNS(s).0, WHOLE.(record := {AllocDNS(s).1}));
      AddRecordShape(AllocDNS(s).0, AllocDNS(s).1, d, rec, now, now + rec.ttl * SECOND);
    }
  }

  /** An allocation takes a record with its entry, or none. */
  lemma AllocLeaves(s: Store, key: DNSKey)
    requires Inv(s) && Leaving(s, key)
    ensures Leaving(AllocDNS(s).0, key) && (key in AllocDNS(s).0.records.byKey ==> AllocDNS(s).0.records.byKey[key] != AllocDNS(s).1)
  {
    hide InvGap, Latest, Disown;
    AllocDNSInv(s);
    if key in s.records.byKey { SoundAtInv(s, key); }
    if s.records.free == [] { AllocDNSStep(s); } else { TopFree(s); }
  }

  lemma TopFree(s: Store)
    requires Inv(s) && s.records.free != []
    ensures s.records.free[|s.records.free| - 1] !in s.records.keyOf
  {
    hide Sound, Complete, Partition, Owned, MaximaCached, RecordKeysAgree, LinkKeysAgree, LinksTimed;
    TakeFreeKeeps(s.records, s.limits.dns);
  }

  lemma ProcessLeaves(s: Store, d: int, records: seq<DNSRecord>, i: nat, now: Time, key: DNSKey)
    requires Inv(s) && d in s.devices.keyOf && i < |records| && Leaving(s, key) && (records[i].ttl == 0 || KeyOf(d, records[i]) != key)
    ensures Leaving(ProcessRecord(s, d, records, i, now), key)
  {
    hide InvGap, CacheDNS, SetFlushed, HostInfo;
    FlushLeaves(s, d, records, i, now, key);
    CacheLeaves(SetFlushed(s, d, records, i, now), d, records[i], now, key);
  }

  /** The goodbye itself. */
  lemma ProcessGoodbye(s: Store, d: int, records: seq<DNSRecord>, i: nat, now: Time)
    requires Inv(s) && d in s.devices.keyOf && i < |records| && records[i].ttl == 0
    ensures Leaving(ProcessRecord(s, d, records, i, now), KeyOf(d, records[i]))
  {
    hide InvGap, CacheDNS, SetFlushed, HostInfo;
    GoodbyeNoted(SetFlushed(s, d, records, i, now), d, records[i], now);
  }

  /** The i-th record says goodbye, and none of the first n after it brings it back. */
  ghost predicate LastWord(d: int, records: seq<DNSRecord>, i: nat, n: nat) {
    i < n <= |records| && records[i].ttl == 0
    && forall j | i < j < n :: records[j].ttl == 0 || KeyOf(d, records[j]) != KeyOf(d, records[i])
  }

  lemma {:induction false} ProcessedGoodbye(s: Store, d: int, records: seq<DNSRecord>, i: nat, n: nat, now: Time)
    requires Inv(s) && d in s.devices.keyOf && LastWord(d, records, i, n)
    ensures Leaving(ProcessRecords(s, d, records, n, now), KeyOf(d, records[i]))
    decreases n
  {
    hide InvGap, ProcessRecord, Leaving;
    var t := ProcessRecords(s, d, records, n - 1, now);
    if i == n - 1 {
      ProcessGoodbye(t, d, records, i, now);
    } else {
      ProcessedGoodbye(s, d, records, i, n - 1, now);
      ProcessLeaves(t, d, records, n - 1, now, KeyOf(d, records[i]));
    }
  }

  lemma ConcludeLeaves(s: Store, meta: Meta, d: int, changed: set<Field>, wasNew: bool, o: Observation, w: World, key: DNSKey)
    requires Inv(s) && d in s.devices.keyOf && Leaving(s, key)
    ensures Leaving(Conclude(s, meta, d, changed, wasNew, o, w), key)
  {
    hide InvGap, UpsertLink, ApplyLinkAll, FactsOf, Complete;
    UpsertLinkInv(s, meta, d, o.kind, o.ttl);
    UpsertKeepsRecords(s, meta, d, o.kind, o.ttl);
    var u := UpsertLink(s, meta, d, o.kind, o.ttl);
    ListsThere(u.store);
    LinkThere(u.store, u.link);
  }

  /** After an mDNS message whose last word on a record is a goodbye, the record is gone, or leaves on the
      next tick. */
  lemma MessageGoodbye(s: Store, meta: Meta, records: seq<DNSRecord>, i: nat, w: World)
    requires Inv(s) && IdentityKey(meta, NO_MAC, if meta.sourceIP == NoAddr then AnyAddress(records) else []).Some?
    requires var d := DeviceFor(s, meta, NO_MAC, if meta.sourceIP == NoAddr then AnyAddress(records) else []).1; LastWord(d, records, i, |records|)
    ensures var d := DeviceFor(s, meta, NO_MAC, if meta.sourceIP == NoAddr then AnyAddress(records) else []).1;
            Leaving(ObservedMDNS(s, meta, records, w), KeyOf(d, records[i]))
  {
    hide InvGap, DeviceFor, ApplyAll, Conclude, Recorded, AllRecordFields, AllSettled, AnyAddress, IdentityKey, Leaving, LastWord, Complete;
    var addresses := if meta.sourceIP == NoAddr then AnyAddress(records) else [];
    DeviceForInv(s, meta, NO_MAC, addresses);
    var r := DeviceFor(s, meta, NO_MAC, addresses);
    ListsThere(r.0);
    var k := r.0.info[r.1];
    var a := ApplyAll(Sighting(meta) + [HasAddress(meta.sourceIP)], k, MDNS, meta.timestamp, In(w, s.limits));
    var s1 := r.0.(info := r.0.info[r.1 := a.0]);
    InfoInv(r.0, s1);
    RecordedInv(r.0, meta, r.1, records, w);
    RecordedGoodbye(r.0, meta, r.1, records, i, w);
    var t := Recorded(r.0, meta, r.1, records, w);
    ListsThere(t);
    LastInRange(r.1, records, i);
    ConcludeLeaves(t, meta, r.1, a.1 + AllRecordFields(s1, r.1, records, |records|, meta.timestamp) + When(MDNS !in k.protocols, FieldIdentity),
                   k.protocols == {}, NO_EVIDENCE.(ttl := LinkTTL(t.dnsExpiry[r.1], meta.timestamp)), w, KeyOf(r.1, records[i]));
  }

  lemma LastInRange(d: int, records: seq<DNSRecord>, i: nat)
    requires LastWord(d, records, i, |records|)
    ensures i < |records|
  {
  }

  lemma RecordedGoodbye(s: Store, meta: Meta, d: int, records: seq<DNSRecord>, i: nat, w: World)
    requires Inv(s) && d in s.devices.keyOf && LastWord(d, records, i, |records|)
    ensures Leaving(Recorded(s, meta, d, records, w), KeyOf(d, records[i]))
  {
    hide InvGap, ApplyAll, Apply, ProcessRecords, Timestamped;
    ListsThere(s);
    var s1 := s.(info := s.info[d := ApplyAll(Sighting(meta) + [HasAddress(meta.sourceIP)], s.info[d], MDNS, meta.timestamp, In(w, s.limits)).0]);
    InfoInv(s, s1);
    ProcessedGoodbye(s1, d, records, i, |records|, meta.timestamp);
  }

  // ---------- the tick after it ----------

  lemma {:induction false} ExpireRecordsIndex(s: Store, order: seq<int>)
    requires Inv(s)
    ensures var t := ExpireRecords(s, order); forall k | k in t.records.byKey :: k in s.records.byKey && t.records.byKey[k] == s.records.byKey[k]
    decreases |order|
  {
    hide InvGap, Disown, Latest;
    if order != [] { ExpireRecordsIndex(s, order[..|order| - 1]); }
  }

  /** A record that is leaving is found no more after a tick, whatever the clock says. */
  lemma LeftBehind(s: Store, now: Time, links: seq<int>, records: seq<int>, key: DNSKey)
    requires Inv(s) && VisitsDue(links, Nearer(s.linkDue)) && VisitsDue(records, Nearer(s.dnsDue)) && Leaving(s, key)
    ensures key !in Tick(s, now, links, records).records.byKey
  {
    hide InvGap, ExpireLinks, ExpireRecords, ReviewAll, VisitsDue, SlotsKeyed;
    DueKeys(s);
    TickRecords(s, now, links, records);
    var s0 := s.(linkDue := Nearer(s.linkDue));
    DueInv(s, s0);
    var s1 := ExpireLinks(s0, links, now);
    var s2 := s1.(dnsDue := Nearer(s1.dnsDue));
    DueInv(s1, s2);
    ExpireRecordsIndex(s2, records);
    ReviewsKeepRecords(ExpireRecords(s2, records), OwnersOf(s2.recordOwner.owner, records));
    var t := Tick(s, now, links, records);
    if key in t.records.byKey {
      SoundAtInv(t, key);
      SoundAtInv(s, key);
      DueKeys(t);
    }
  }
}
