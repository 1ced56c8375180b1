/** The DNS record cache: insertion, refresh, goodbye and cache-flush. */
module DNSCache {
  import opened Model
  import opened FusionTypes
  import opened Slabs
  import opened Text
  import opened Stores
  import opened Timing

  function MakeKey(d: int, r: DNSRecord): DNSKey { DNSKey(d, r.hash, r.typ, r.class_) }

  /** A record's new expiry, its place on the wheel, and the device's cached maximum. */
  function SetDNSExpiry(s: Store, r: int, now: Time, expires: Time): Store
    requires r in s.expiresAt && r in s.recordOwner.owner
    requires s.recordOwner.owner[r] in s.dnsExpiry && s.recordOwner.owner[r] in s.recordOwner.lists
  {
    var d := s.recordOwner.owner[r];
    var e := s.expiresAt[r := expires];
    s.(expiresAt := e, dnsDue := s.dnsDue[r := Ticks(expires - now)],
       dnsExpiry := if expires > s.dnsExpiry[d] then s.dnsExpiry[d := expires]
                    else if s.expiresAt[r] == s.dnsExpiry[d] && expires < s.expiresAt[r]
                    then s.dnsExpiry[d := Latest(s.recordOwner.lists[d], e)]
                    else s.dnsExpiry)
  }

  lemma RecordThere(s: Store, r: int)
    requires Inv(s) && r in s.records.keyOf
    ensures r in s.expiresAt && r in s.recordOwner.owner && r in s.record
    ensures s.recordOwner.owner[r] in s.dnsExpiry && s.recordOwner.owner[r] in s.recordOwner.lists
    ensures s.records.keyOf[r].device == s.recordOwner.owner[r]
  {
    hide Sound, Partition, Complete, LinkKeysAgree, LinksTimed, IsLatest, MaximaCached;
  }

  lemma SetDNSExpiryInv(s: Store, r: int, now: Time, expires: Time)
    requires Inv(s) && r in s.records.keyOf
    ensures r in s.expiresAt && r in s.recordOwner.owner
    ensures s.recordOwner.owner[r] in s.dnsExpiry && s.recordOwner.owner[r] in s.recordOwner.lists
    ensures Inv(SetDNSExpiry(s, r, now, expires))
  {
    hide Sound, Partition, Complete, LinkKeysAgree, LinksTimed, Owned, RecordKeysAgree, IsLatest, MaximaCached, Latest;
    RecordThere(s, r);
    NewMaximum(s, r, now, expires);
  }

  /** Raising, lowering or keeping one expiry keeps every cached maximum right. */
  lemma NewMaximum(s: Store, r: int, now: Time, expires: Time)
    requires r in s.expiresAt && r in s.recordOwner.owner && Owned(s.recordOwner)
    requires s.recordOwner.owner[r] in s.dnsExpiry && s.recordOwner.owner[r] in s.recordOwner.lists
    requires MaximaCached(s.dnsExpiry, s.recordOwner.lists, s.expiresAt, -1)
    ensures var t := SetDNSExpiry(s, r, now, expires); MaximaCached(t.dnsExpiry, t.recordOwner.lists, t.expiresAt, -1)
  {
    var t := SetDNSExpiry(s, r, now, expires);
    var d := s.recordOwner.owner[r];
    forall e | e in t.dnsExpiry && e in t.recordOwner.lists && e != -1
      ensures IsLatest(t.dnsExpiry[e], t.recordOwner.lists[e], t.expiresAt)
    {
      assert IsLatest(s.dnsExpiry[e], s.recordOwner.lists[e], s.expiresAt);
      if e == d { OneRaised(s.dnsExpiry[d], s.recordOwner.lists[d], s.expiresAt, r, expires); }
      else { assert r !in s.recordOwner.lists[e]; }
    }
  }

  lemma OneRaised(m: Time, list: seq<int>, expiresAt: map<int, Time>, r: int, expires: Time)
    requires IsLatest(m, list, expiresAt) && r in list && r in expiresAt
    ensures expires > m ==> IsLatest(expires, list, expiresAt[r := expires])
    ensures expires <= m && !(expiresAt[r] == m && expires < m) ==> IsLatest(m, list, expiresAt[r := expires])
  {
    var e := expiresAt[r := expires];
    if expires > m {
      assert r in list && r in e && e[r] == expires;
    } else if m != 0 && expiresAt[r] != m {
      var x :| x in list && x in expiresAt && expiresAt[x] == m;
      assert x in e && e[x] == m;
    } else if m != 0 {
      if expires == m { assert e[r] == m; }
    }
  }

  // ---------- allocation ----------

  ghost function Expiries(s: Store): map<int, int> { map r | r in s.expiresAt :: s.expiresAt[r] as int }

  /** A free record slot, or the slot of the record that expires first after evicting it. */
  ghost function AllocDNS(s: Store): (Store, int)
    requires Inv(s)
  {
    if s.records.free != [] then (s.(records := TakeFree(s.records)), s.records.free[|s.records.free| - 1])
    else
      var o := Oldest(Expiries(s), s.limits.dns);
      AllocDNSStep(s);
      var t := RemoveDNS(s, o);
      (t.(records := TakeFree(t.records)), o)
  }

  lemma AllocDNSStep(s: Store)
    requires Inv(s) && s.records.free == []
    ensures var o := Oldest(Expiries(s), s.limits.dns); var t := RemoveDNS(s, o);
            o in s.records.keyOf && Inv(t) && t.records.free == [o]
    ensures forall i | 0 <= i < s.limits.dns :: i in s.records.keyOf
  {
    hide Sound, Complete, Owned, MaximaCached, RecordKeysAgree, LinkKeysAgree, LinksTimed, Disown;
    NoneFree(s.records, s.limits.dns);
    assert 0 in s.records.keyOf;
    RemoveDNSInv(s, Oldest(Expiries(s), s.limits.dns), WHOLE);
  }

  lemma AllocDNSInv(s: Store)
    requires Inv(s)
    ensures var r := AllocDNS(s);
            && InvGap(r.0, WHOLE.(record := {r.1})) && r.1 >= 0 && r.1 !in r.0.records.keyOf
            && r.0.devices == s.devices && r.0.limits == s.limits && r.0.info == s.info
            && r.0.links == s.links && r.0.linkOwner == s.linkOwner && r.0.link == s.link
            && (forall x | x in r.0.records.keyOf :: x in s.records.keyOf && r.0.records.keyOf[x] == s.records.keyOf[x]
                  && x in s.expiresAt && x in r.0.expiresAt && r.0.expiresAt[x] == s.expiresAt[x]
                  && x in s.record && x in r.0.record && r.0.record[x] == s.record[x])
            && (forall k | k in r.0.records.byKey :: k in s.records.byKey)
    ensures Complete(s.records) ==> Complete(AllocDNS(s).0.records)
  {
    hide Sound, Complete, Partition, Owned, MaximaCached, RecordKeysAgree, LinkKeysAgree, LinksTimed, Disown, Latest;
    if s.records.free != [] {
      TakeFreeKeeps(s.records, s.limits.dns);
    } else {
      AllocDNSStep(s);
      var o := Oldest(Expiries(s), s.limits.dns);
      RemoveDNSInv(s, o, WHOLE);
      TakeFreeKeeps(RemoveDNS(s, o).records, s.limits.dns);
    }
  }

  /** A new record of device d, with its first expiry. */
  ghost function AddRecord(s: Store, r: int, d: int, record: DNSRecord, now: Time, expires: Time): Store
    requires d in s.recordOwner.lists && d in s.dnsExpiry
  {
    SetDNSExpiry(s.(records := Insert(s.records, r, MakeKey(d, record)), recordOwner := Own(s.recordOwner, r, d),
                    record := s.record[r := record], expiresAt := s.expiresAt[r := 0]), r, now, expires)
  }

  lemma AddRecordShape(s: Store, r: int, d: int, record: DNSRecord, now: Time, expires: Time)
    requires d in s.recordOwner.lists && d in s.dnsExpiry
    ensures var t := AddRecord(s, r, d, record, now, expires);
            && t == s.(records := Insert(s.records, r, MakeKey(d, record)), recordOwner := Own(s.recordOwner, r, d),
                       record := s.record[r := record], expiresAt := s.expiresAt[r := expires],
                       dnsDue := s.dnsDue[r := Ticks(expires - now)], dnsExpiry := t.dnsExpiry)
            && t.dnsExpiry.Keys == s.dnsExpiry.Keys
  {
    hide Insert, Ticks, Latest, MakeKey;
    assert s.expiresAt[r := 0][r := expires] == s.expiresAt[r := expires];
  }

  lemma AddRecordMaxima(s: Store, r: int, d: int, record: DNSRecord, now: Time, expires: Time)
    requires InvGap(s, WHOLE.(record := {r})) && d in s.devices.keyOf && r !in s.records.keyOf
    ensures d in s.recordOwner.lists && d in s.dnsExpiry
    ensures var t := AddRecord(s, r, d, record, now, expires); MaximaCached(t.dnsExpiry, t.recordOwner.lists, t.expiresAt, -1)
  {
    hide Sound, Complete, Partition, Owned, MaximaCached, RecordKeysAgree, LinkKeysAgree, LinksTimed, Insert, Latest, IsLatest, MakeKey, SetDNSExpiry;
    var m := s.(records := Insert(s.records, r, MakeKey(d, record)), recordOwner := Own(s.recordOwner, r, d),
                record := s.record[r := record], expiresAt := s.expiresAt[r := 0]);
    OwnKeeps(s.recordOwner, r, d);
    NewRecordMaxima(s.dnsExpiry, s.recordOwner, s.expiresAt, r, d);
    NewMaximum(m, r, now, expires);
  }

  lemma AddRecordInv(s: Store, r: int, d: int, record: DNSRecord, now: Time, expires: Time)
    requires InvGap(s, WHOLE.(record := {r})) && d in s.devices.keyOf && MakeKey(d, record) !in s.records.byKey
    ensures d in s.recordOwner.lists && d in s.dnsExpiry && r !in s.records.keyOf
    ensures var t := AddRecord(s, r, d, record, now, expires);
            && Inv(t) && (Complete(s.records) ==> Complete(t.records))
            && t.devices == s.devices && t.limits == s.limits && t.info == s.info && t.links == s.links
            && t.records.keyOf == s.records.keyOf[r := MakeKey(d, record)] && t.record == s.record[r := record]
            && t.expiresAt == s.expiresAt[r := expires]
  {
    hide Sound, Complete, Partition, Owned, MaximaCached, RecordKeysAgree, LinkKeysAgree, LinksTimed, Insert, Own, IsLatest, MakeKey, AddRecord, Ticks;
    AddedRecordParts(s, r, d, record);
    AddRecordShape(s, r, d, record, now, expires);
    AddRecordMaxima(s, r, d, record, now, expires);
  }

  /** The slab, the ownership lists and the keys, with the new record. */
  lemma AddedRecordParts(s: Store, r: int, d: int, record: DNSRecord)
    requires InvGap(s, WHOLE.(record := {r})) && d in s.devices.keyOf && MakeKey(d, record) !in s.records.byKey
    ensures d in s.recordOwner.lists && d in s.dnsExpiry && r !in s.records.keyOf
    ensures var t, o := Insert(s.records, r, MakeKey(d, record)), Own(s.recordOwner, r, d);
            && Sound(t) && Partition(t, s.limits.dns, {}) && (Complete(s.records) ==> Complete(t))
            && t.keyOf == s.records.keyOf[r := MakeKey(d, record)]
            && Owned(o) && o.owner == s.recordOwner.owner[r := d] && o.lists.Keys == s.recordOwner.lists.Keys
            && RecordKeysAgree(t.keyOf, o.owner)
  {
    hide Sound, Complete, Partition, Owned, MaximaCached, RecordKeysAgree, LinkKeysAgree, LinksTimed, Insert, Own, MakeKey;
    ReservedUnused(s.records, s.limits.dns, r);
    var key := MakeKey(d, record);
    InsertKeeps(s.records, r, key, s.limits.dns);
    NewSlot(s.records, r, key);
    OwnKeeps(s.recordOwner, r, d);
    NewOwned(s.recordOwner, r, d);
    NewRecordKeys(s.records.keyOf, s.recordOwner.owner, r, d, record);
  }

  lemma NewRecordKeys(keyOf: map<int, DNSKey>, owner: map<int, int>, r: int, d: int, record: DNSRecord)
    requires RecordKeysAgree(keyOf, owner)
    ensures RecordKeysAgree(keyOf[r := MakeKey(d, record)], owner[r := d])
  {
  }

  lemma NewRecordMaxima(cached: map<int, Time>, o: Owners, expiresAt: map<int, Time>, r: int, d: int)
    requires MaximaCached(cached, o.lists, expiresAt, -1) && Owned(o) && d in o.lists && r !in o.owner && r !in expiresAt
    ensures MaximaCached(cached, Own(o, r, d).lists, expiresAt[r := 0], -1)
  {
    forall e | e in cached && e in o.lists && e != -1 ensures IsLatest(cached[e], Own(o, r, d).lists[e], expiresAt[r := 0]) {
      assert IsLatest(cached[e], o.lists[e], expiresAt);
      assert forall x :: x in Own(o, r, d).lists[e] <==> x in o.lists[e] || (e == d && x == r);
      assert r !in o.lists[e];
    }
  }

  // ---------- one record ----------

  /** Refresh of a cached record: lifetime and flush bit, nothing the key identifies. */
  function Touch(s: Store, r: int, record: DNSRecord): Store
    requires r in s.record
  {
    s.(record := s.record[r := s.record[r].(ttl := record.ttl, cacheFlush := record.cacheFlush)])
  }

  /** One received record: a goodbye leaves a second for rescue (section 10.1 of RFC 6762), a
      known record is refreshed, an unknown one inserted. The result tells whether it was inserted. */
  ghost function CacheDNS(s: Store, d: int, record: DNSRecord, now: Time): (Store, bool)
    requires Inv(s) && d in s.devices.keyOf
  {
    var key := MakeKey(d, record);
    if key in s.records.byKey then
      var r := s.records.byKey[key];
      SoundAtInv(s, key);
      RecordThere(s, r);
      if record.ttl == 0 then (SetDNSExpiry(s, r, now, now + SECOND), false)
      else (SetDNSExpiry(Touch(s, r, record), r, now, now + record.ttl * SECOND), false)
    else if record.ttl == 0 then (s, false)
    else
      AllocDNSInv(s);
      ListsOfGap(AllocDNS(s).0, WHOLE.(record := {AllocDNS(s).1}));
      (AddRecord(AllocDNS(s).0, AllocDNS(s).1, d, record, now, now + record.ttl * SECOND), true)
  }

  lemma SoundAtInv(s: Store, k: DNSKey)
    requires Inv(s) && k in s.records.byKey
    ensures s.records.byKey[k] in s.records.keyOf && s.records.keyOf[s.records.byKey[k]] == k
  {
    hide Partition, Complete, Owned, LinkKeysAgree, LinksTimed, MaximaCached;
  }

  lemma ListsOfGap(s: Store, g: Gap)
    requires InvGap(s, g)
    ensures s.recordOwner.lists.Keys == s.devices.keyOf.Keys && s.dnsExpiry.Keys == s.devices.keyOf.Keys
  {
  }

  /** Everything a record operation leaves alone, and where it may write. */
  ghost predicate RecordFrame(s: Store, t: Store) {
    t.devices == s.devices && t.limits == s.limits && t.info == s.info && t.links == s.links
    && t.linkOwner == s.linkOwner && t.link == s.link && t.linkDue == s.linkDue && t.events == s.events
  }

  /** Slots of s still used in t, other than those holding key, are as they were. */
  ghost predicate OthersKept(s: Store, t: Store, key: DNSKey)
    requires SlotsKeyed(s) && SlotsKeyed(t)
  {
    forall x | x in t.records.keyOf && t.records.keyOf[x] != key ::
      x in s.records.keyOf && t.records.keyOf[x] == s.records.keyOf[x]
      && t.expiresAt[x] == s.expiresAt[x] && t.record[x] == s.record[x]
  }

  lemma CacheDNSInv(s: Store, d: int, record: DNSRecord, now: Time)
    requires Inv(s) && d in s.devices.keyOf
    ensures var t := CacheDNS(s, d, record, now).0;
            && Inv(t) && (Complete(s.records) ==> Complete(t.records))
            && t.devices == s.devices && t.limits == s.limits && t.info == s.info && t.links == s.links
            && OthersKept(s, t, MakeKey(d, record))
  {
    hide InvGap, Complete, SetDNSExpiry, Touch, AllocDNS, AddRecord, MakeKey, OthersKept;
    var key := MakeKey(d, record);
    KeyedInv(s);
    if key in s.records.byKey {
      KnownRecordInv(s, key, record, now);
    } else if record.ttl != 0 {
      NewRecordInv(s, d, record, now);
    } else {
      SameKept(s, key);
    }
  }

  lemma KeyedInv(s: Store)
    requires Inv(s)
    ensures SlotsKeyed(s)
  {
  }

  lemma SameKept(s: Store, key: DNSKey)
    requires SlotsKeyed(s)
    ensures OthersKept(s, s, key)
  {
  }

  lemma KnownRecordInv(s: Store, key: DNSKey, record: DNSRecord, now: Time)
    requires Inv(s) && key in s.records.byKey
    ensures var r := s.records.byKey[key];
            r in s.records.keyOf && r in s.expiresAt && r in s.recordOwner.owner && r in s.record
            && s.recordOwner.owner[r] in s.dnsExpiry && s.recordOwner.owner[r] in s.recordOwner.lists
    ensures var r := s.records.byKey[key];
            var t := SetDNSExpiry(s, r, now, now + SECOND);
            var u := SetDNSExpiry(Touch(s, r, record), r, now, now + record.ttl * SECOND);
            && Inv(t) && RecordFrame(s, t) && t.records == s.records && OthersKept(s, t, key)
            && Inv(u) && RecordFrame(s, u) && u.records == s.records && OthersKept(s, u, key)
  {
    hide InvGap, Latest, Ticks, Complete;
    var r := s.records.byKey[key];
    SoundAtInv(s, key);
    RecordThere(s, r);
    hide SetDNSExpiry;
    ExpiryFrame(s, r, key, now, now + SECOND);
    TouchInv(s, r, record);
    KeyedInv(s);
    ExpiryFrame(Touch(s, r, record), r, key, now, now + record.ttl * SECOND);
  }

  lemma ExpiryFrame(s: Store, r: int, key: DNSKey, now: Time, expires: Time)
    requires Inv(s) && r in s.records.keyOf && s.records.keyOf[r] == key
    ensures r in s.expiresAt && r in s.recordOwner.owner
    ensures s.recordOwner.owner[r] in s.dnsExpiry && s.recordOwner.owner[r] in s.recordOwner.lists
    ensures var t := SetDNSExpiry(s, r, now, expires);
            && Inv(t) && RecordFrame(s, t) && t.records == s.records && t.record == s.record && SlotsKeyed(s) && SlotsKeyed(t) && OthersKept(s, t, key)
  {
    hide InvGap, Latest, Ticks, Complete;
    RecordThere(s, r);
    SetDNSExpiryInv(s, r, now, expires);
    KeyedInv(s);
    KeyedInv(SetDNSExpiry(s, r, now, expires));
  }

  lemma NewRecordInv(s: Store, d: int, record: DNSRecord, now: Time)
    requires Inv(s) && d in s.devices.keyOf && MakeKey(d, record) !in s.records.byKey
    ensures var a := AllocDNS(s);
            d in a.0.recordOwner.lists && d in a.0.dnsExpiry
            && var t := AddRecord(a.0, a.1, d, record, now, now + record.ttl * SECOND);
               && Inv(t) && (Complete(s.records) ==> Complete(t.records)) && SlotsKeyed(s)
               && t.devices == s.devices && t.limits == s.limits && t.info == s.info && t.links == s.links
               && OthersKept(s, t, MakeKey(d, record))
  {
    hide InvGap, Complete, AllocDNS, AddRecord, MakeKey;
    AllocDNSInv(s);
    var a := AllocDNS(s);
    AddRecordInv(a.0, a.1, d, record, now, now + record.ttl * SECOND);
    KeyedInv(s);
    KeyedInv(AddRecord(a.0, a.1, d, record, now, now + record.ttl * SECOND));
  }

  lemma TouchInv(s: Store, r: int, record: DNSRecord)
    requires Inv(s) && r in s.record
    ensures Inv(Touch(s, r, record))
  {
    hide Sound, Complete, Partition, Owned, MaximaCached, RecordKeysAgree, LinkKeysAgree, LinksTimed;
  }

  // ---------- whole messages ----------

  datatype RRSet = RRSet(name: seq<Byte>, typ: nat, class_: nat)

  function SetOf(r: DNSRecord): RRSet { RRSet(r.name, r.typ, r.class_) }

  predicate Announced(key: DNSKey, d: int, records: seq<DNSRecord>) {
    exists i :: 0 <= i < |records| && MakeKey(d, records[i]) == key
  }

  predicate AnnouncedIn(key: DNSKey, d: int, records: seq<DNSRecord>, rrset: RRSet) {
    exists i :: 0 <= i < |records| && SetOf(records[i]) == rrset && MakeKey(d, records[i]) == key
  }

  /** Received within the second before now, going by its expiry and lifetime. */
  predicate JustReceived(expiresAt: Time, ttl: nat, now: Time) {
    now - (expiresAt - ttl * SECOND) <= SECOND
  }

  /** A flush leaves a second to a record of its set that is neither announced nor just received. */
  ghost function FlushOne(s: Store, d: int, r: int, records: seq<DNSRecord>, rrset: RRSet, now: Time): Store
    requires Inv(s)
  {
    if r !in s.records.keyOf then s else
    RecordThere(s, r);
    if SetOf(s.record[r]) == rrset && !AnnouncedIn(s.records.keyOf[r], d, records, rrset)
       && !JustReceived(s.expiresAt[r], s.record[r].ttl, now) && s.expiresAt[r] > now + SECOND
    then SetDNSExpiry(s, r, now, now + SECOND) else s
  }

  ghost function FlushSet(s: Store, d: int, list: seq<int>, records: seq<DNSRecord>, rrset: RRSet, now: Time): Store
    requires Inv(s)
    decreases |list|
  {
    if list == [] then s else
    FlushOneInv(s, d, list[0], records, rrset, now);
    FlushSet(FlushOne(s, d, list[0], records, rrset, now), d, list[1..], records, rrset, now)
  }

  /** A record that section 10.2 of RFC 6762 lets stay after a flush of its set. */
  ghost predicate Settled(s: Store, d: int, r: int, records: seq<DNSRecord>, now: Time)
    requires SlotsKeyed(s) && r in s.records.keyOf
  {
    || Announced(s.records.keyOf[r], d, records)
    || JustReceived(s.expiresAt[r], s.record[r].ttl, now)
    || s.expiresAt[r] <= now + SECOND
  }

  lemma FlushOneInv(s: Store, d: int, r: int, records: seq<DNSRecord>, rrset: RRSet, now: Time)
    requires Inv(s)
    ensures var t := FlushOne(s, d, r, records, rrset, now);
            && Inv(t) && SlotsKeyed(s) && SlotsKeyed(t) && RecordFrame(s, t) && t.records == s.records && t.record == s.record
            && t.recordOwner == s.recordOwner
            && (forall x | x in s.records.keyOf :: t.expiresAt[x] == s.expiresAt[x] || t.expiresAt[x] == now + SECOND)
            && (r in s.records.keyOf && SetOf(s.record[r]) == rrset ==> Settled(t, d, r, records, now))
  {
    hide InvGap, Latest, Ticks, Announced, SetOf, JustReceived;
    KeyedInv(s);
    if r in s.records.keyOf {
      RecordThere(s, r);
      AnnouncedEither(s.records.keyOf[r], d, records, rrset);
      SetDNSExpiryInv(s, r, now, now + SECOND);
      KeyedInv(SetDNSExpiry(s, r, now, now + SECOND));
    }
  }

  lemma AnnouncedEither(key: DNSKey, d: int, records: seq<DNSRecord>, rrset: RRSet)
    ensures AnnouncedIn(key, d, records, rrset) ==> Announced(key, d, records)
  {
  }

  /** Once settled, always settled while only expiries move, and only to a second from now. */
  lemma {:induction false} FlushSetInv(s: Store, d: int, list: seq<int>, records: seq<DNSRecord>, rrset: RRSet, now: Time)
    requires Inv(s)
    ensures var t := FlushSet(s, d, list, records, rrset, now);
            && Inv(t) && SlotsKeyed(s) && SlotsKeyed(t) && RecordFrame(s, t) && t.records == s.records && t.record == s.record
            && t.recordOwner == s.recordOwner
            && (forall x | x in s.records.keyOf :: t.expiresAt[x] == s.expiresAt[x] || t.expiresAt[x] == now + SECOND)
            && (forall r | r in list && r in s.records.keyOf && SetOf(s.record[r]) == rrset :: Settled(t, d, r, records, now))
    decreases |list|
  {
    hide InvGap, FlushOne, Announced, SetOf, JustReceived, SlotsKeyed;
    KeyedInv(s);
    if list != [] {
      FlushOneInv(s, d, list[0], records, rrset, now);
      FlushSetInv(FlushOne(s, d, list[0], records, rrset, now), d, list[1..], records, rrset, now);
    }
  }

  /** The first flush-marked record of its set in a message triggers the flush. */
  predicate Flushes(records: seq<DNSRecord>, i: nat)
    requires i < |records|
  {
    records[i].cacheFlush && !exists j :: 0 <= j < i && records[j].cacheFlush && SetOf(records[j]) == SetOf(records[i])
  }

  predicate IsHost(record: DNSRecord) { (record.typ == TYPE_A || record.typ == TYPE_AAAA) && record.address != NoAddr }

  function HostInfo(k: DeviceInfo, record: DNSRecord, now: Time, max: nat): DeviceInfo {
    if IsHost(record) then
      k.(addresses := AppendUnique(k.addresses, Unmap(record.address)),
         hostName := MergeText(k.hostName, record.name, {MDNS}, 2, now, max).0)
    else k
  }

  /** The set of record i flushed, if it calls for that. */
  ghost function SetFlushed(s: Store, d: int, records: seq<DNSRecord>, i: nat, now: Time): (t: Store)
    requires Inv(s) && d in s.devices.keyOf && i < |records|
    ensures Inv(t) && t.devices == s.devices && t.limits == s.limits
  {
    ListsThere(s);
    FlushSetInv(s, d, s.recordOwner.lists[d], records, SetOf(records[i]), now);
    if Flushes(records, i) then FlushSet(s, d, s.recordOwner.lists[d], records, SetOf(records[i]), now) else s
  }

  ghost function HostNoted(s: Store, d: int, record: DNSRecord, now: Time): (t: Store)
    requires Inv(s) && d in s.devices.keyOf
    ensures Inv(t) && t.devices == s.devices
  {
    ListsThere(s);
    var t := s.(info := s.info[d := HostInfo(s.info[d], record, now, s.limits.alternatives)]);
    InfoInv(s, t);
    t
  }

  ghost function ProcessRecord(s: Store, d: int, records: seq<DNSRecord>, i: nat, now: Time): (v: Store)
    requires Inv(s) && d in s.devices.keyOf && i < |records|
    ensures Inv(v) && v.devices == s.devices
  {
    var t := SetFlushed(s, d, records, i, now);
    CacheDNSInv(t, d, records[i], now);
    HostNoted(CacheDNS(t, d, records[i], now).0, d, records[i], now)
  }

  ghost function ProcessRecords(s: Store, d: int, records: seq<DNSRecord>, n: nat, now: Time): (t: Store)
    requires Inv(s) && d in s.devices.keyOf && n <= |records|
    ensures Inv(t) && t.devices == s.devices
  {
    if n == 0 then s else
    var t := ProcessRecords(s, d, records, n - 1, now);
    ProcessRecord(t, d, records, n - 1, now)
  }

  /** Sets flushed by the first n records, and the claim about them. */
  ghost predicate FlushedBefore(records: seq<DNSRecord>, n: nat, rrset: RRSet)
    requires n <= |records|
  {
    exists i :: 0 <= i < n && records[i].cacheFlush && SetOf(records[i]) == rrset
  }

  ghost predicate AllSettled(s: Store, d: int, records: seq<DNSRecord>, n: nat, now: Time)
    requires n <= |records| && SlotsKeyed(s)
  {
    forall r | r in s.records.keyOf && r in s.recordOwner.owner && s.recordOwner.owner[r] == d && FlushedBefore(records, n, SetOf(s.record[r])) ::
      Settled(s, d, r, records, now)
  }

  lemma ProcessRecordInv(s: Store, d: int, records: seq<DNSRecord>, i: nat, now: Time)
    requires Inv(s) && d in s.devices.keyOf && i < |records|
    ensures var t := ProcessRecord(s, d, records, i, now);
            && Inv(t) && t.devices == s.devices && t.limits == s.limits && t.links == s.links
            && (Complete(s.records) ==> Complete(t.records))
            && SlotsKeyed(s) && SlotsKeyed(t) && (AllSettled(s, d, records, i, now) ==> AllSettled(t, d, records, i + 1, now))
  {
    hide InvGap, FlushSet, CacheDNS, HostInfo, Complete, AllSettled;
    ListsThere(s);
    FlushSetInv(s, d, s.recordOwner.lists[d], records, SetOf(records[i]), now);
    var t := SetFlushed(s, d, records, i, now);
    CacheDNSInv(t, d, records[i], now);
    ListsThere(CacheDNS(t, d, records[i], now).0);
    var u := CacheDNS(t, d, records[i], now).0;
    var v := u.(info := u.info[d := HostInfo(u.info[d], records[i], now, s.limits.alternatives)]);
    InfoInv(u, v);
    KeyedInv(s);
    KeyedInv(t);
    KeyedInv(u);
    KeyedInv(v);
    if AllSettled(s, d, records, i, now) {
      FlushSettles(s, t, d, records, i, now);
      CacheSettles(t, u, d, records, i, now);
      SettledInfo(u, v, d, records, i + 1, now);
    }
  }

  lemma SettledInfo(u: Store, v: Store, d: int, records: seq<DNSRecord>, n: nat, now: Time)
    requires n <= |records| && SlotsKeyed(u) && v == u.(info := v.info) && AllSettled(u, d, records, n, now)
    ensures SlotsKeyed(v) && AllSettled(v, d, records, n, now)
  {
    forall r | r in v.records.keyOf && r in v.recordOwner.owner && v.recordOwner.owner[r] == d && FlushedBefore(records, n, SetOf(v.record[r]))
      ensures Settled(v, d, r, records, now)
    {
      assert Settled(u, d, r, records, now);
    }
  }

  lemma FlushSettles(s: Store, t: Store, d: int, records: seq<DNSRecord>, i: nat, now: Time)
    requires Inv(s) && i < |records| && SlotsKeyed(s) && SlotsKeyed(t) && AllSettled(s, d, records, i, now)
    requires d in s.recordOwner.lists
    requires t == SetFlushed(s, d, records, i, now)
    ensures AllSettled(t, d, records, i + 1, now)
  {
    hide InvGap, FlushSet, Announced, JustReceived;
    FlushSetInv(s, d, s.recordOwner.lists[d], records, SetOf(records[i]), now);
    forall r | r in t.records.keyOf && r in t.recordOwner.owner && t.recordOwner.owner[r] == d && FlushedBefore(records, i + 1, SetOf(t.record[r]))
      ensures Settled(t, d, r, records, now)
    {
      OnOwnersList(s, r);
      if FlushedBefore(records, i, SetOf(s.record[r])) {
        assert Settled(s, d, r, records, now);
      } else {
        assert SetOf(records[i]) == SetOf(s.record[r]) && Flushes(records, i);
      }
    }
  }

  lemma OnOwnersList(s: Store, r: int)
    requires Inv(s) && r in s.records.keyOf
    ensures r in s.recordOwner.owner && s.recordOwner.owner[r] in s.recordOwner.lists && r in s.recordOwner.lists[s.recordOwner.owner[r]]
  {
    hide Sound, Partition, Complete, LinkKeysAgree, LinksTimed, MaximaCached, RecordKeysAgree;
  }

  lemma CacheSettles(t: Store, u: Store, d: int, records: seq<DNSRecord>, i: nat, now: Time)
    requires Inv(t) && Inv(u) && i < |records| && SlotsKeyed(t) && SlotsKeyed(u)
    requires AllSettled(t, d, records, i + 1, now) && OthersKept(t, u, MakeKey(d, records[i]))
    ensures AllSettled(u, d, records, i + 1, now)
  {
    hide InvGap, JustReceived, MakeKey, FlushedBefore;
    forall r | r in u.records.keyOf && r in u.recordOwner.owner && u.recordOwner.owner[r] == d && FlushedBefore(records, i + 1, SetOf(u.record[r]))
      ensures Settled(u, d, r, records, now)
    {
      if u.records.keyOf[r] != MakeKey(d, records[i]) {
        RecordThere(t, r);
        RecordThere(u, r);
        assert Settled(t, d, r, records, now);
      }
    }
  }

  /** After a whole message, every cached record of every set it flushed is announced in it, or was
      received in the last second, or is gone within a second (section 10.2 of RFC 6762). */
  lemma {:induction false} MessageSettles(s: Store, d: int, records: seq<DNSRecord>, n: nat, now: Time)
    requires Inv(s) && d in s.devices.keyOf && n <= |records|
    ensures var t := ProcessRecords(s, d, records, n, now);
            SlotsKeyed(t) && AllSettled(t, d, records, n, now) && (Complete(s.records) ==> Complete(t.records))
            && t.limits == s.limits && t.links == s.links
  {
    hide InvGap, ProcessRecord, Complete;
    KeyedInv(s);
    if n > 0 {
      MessageSettles(s, d, records, n - 1, now);
      ProcessRecordInv(ProcessRecords(s, d, records, n - 1, now), d, records, n - 1, now);
    }
  }
}
