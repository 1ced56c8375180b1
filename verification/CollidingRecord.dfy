/** A run in which two devices that announced one record turn out to be one: the record that stays is
    no longer found under its key. */
module CollidingRecords {
  import opened Model
  import opened FusionTypes
  import opened Slabs
  import opened Stores
  import opened Timing
  import opened Fusion
  import opened DNSCache
  import opened Observe
  import opened Observations
  import opened QuietRepeat
  import opened Runs
  import opened Completeness
  import opened MDNSRepeats
  import opened CollidingRuns

  /** A record two devices are known for collides when the two are merged. */
  lemma TwinsCollide(s: Store, dst: int, src: int, rec: DNSRecord)
    requires Inv(s) && MakeKey(dst, rec) in s.records.byKey && MakeKey(src, rec) in s.records.byKey
    ensures RecordsCollide(s, dst, src)
  {
    hide InvGap;
    SoundAtInv(s, MakeKey(dst, rec));
    SoundAtInv(s, MakeKey(src, rec));
    var r, x := s.records.byKey[MakeKey(dst, rec)], s.records.byKey[MakeKey(src, rec)];
    RecordThere(s, x);
    assert s.records.keyOf[x].(device := dst) == s.records.keyOf[r];
    assert RecordStruck(s, dst, src, r);
  }

  /** After an mDNS message of one record from a newcomer: the record is cached for it, beside all
      that was. */
  lemma NewcomerCached(s: Store, meta: Meta, rec: DNSRecord, key: DeviceKey, w: World)
    requires Inv(s) && Whole(s) && s.devices.free != [] && s.records.free != [] && rec.ttl != 0
    requires IdentityKey(meta, NO_MAC, Hints(meta, [rec])) == Some(key) && key !in s.devices.byKey && AddressedDevice(s, meta, key).None?
    ensures var d, t := s.devices.free[|s.devices.free| - 1], ObservedMDNS(s, meta, [rec], w);
            && Inv(t) && Whole(t) && t.limits == s.limits && t.devices == Insert(TakeFree(s.devices), d, key)
            && MakeKey(d, rec) in t.records.byKey && s.records.byKey.Keys <= t.records.byKey.Keys && |t.records.free| + 1 >= |s.records.free|
  {
    hide InvGap, DeviceFor, ObservedMDNS, Recorded, Hints, IdentityKey, AddressedDevice, Complete, Insert, MakeKey, AllSettled;
    var addresses := Hints(meta, [rec]);
    NewcomerKnown(s, meta, NO_MAC, addresses, key);
    var d, r := s.devices.free[|s.devices.free| - 1], NewDevice(s, key, meta.timestamp);
    NewcomerBlank(s, key, meta.timestamp);
    NoMerge(s, meta, addresses, key);
    ObservedMDNSWhole(s, meta, [rec], w) by { HintsAre(meta, [rec]); }
    ObservedMDNSInv(s, meta, [rec], w);
    RecordedRoom(r, meta, d, [rec], w);
    RecordedInv(r, meta, d, [rec], w);
    RecordedConcluded(s, meta, [rec], w);
    assert Remembered(Recorded(r, meta, d, [rec], w), d, [rec][0]);
  }

  lemma HintsAre(meta: Meta, records: seq<DNSRecord>)
    ensures Hints(meta, records) == if meta.sourceIP == NoAddr then AnyAddress(records) else []
  {
    hide AnyAddress;
  }

  lemma NewcomerBlank(s: Store, key: DeviceKey, now: Time)
    requires s.devices.free != []
    ensures var d, t := s.devices.free[|s.devices.free| - 1], NewDevice(s, key, now);
            && d in t.info && t.info[d].hostName.values == [] && t.records == s.records && t.limits == s.limits
            && t.devices == Insert(TakeFree(s.devices), d, key)
  {
    hide Insert;
  }

  lemma NoMerge(s: Store, meta: Meta, addresses: seq<Addr>, key: DeviceKey)
    requires Inv(s) && IdentityKey(meta, NO_MAC, addresses) == Some(key) && AddressedDevice(s, meta, key).None?
    ensures !CollidingMerge(s, meta, NO_MAC, addresses)
  {
    hide InvGap, IdentityKey, AddressedDevice;
  }

  // ---------- the run ----------

  const ROOM := Limits(2, 2, 2, 8)

  function FromMAC(mac: MAC, ip: Addr): Meta { Meta(MDNS, [], 1, SECOND, mac, ip, []) }

  /** The record from Y behind MAC A, then from X behind no MAC; then MNDP from X claiming MAC A. */
  function Announcements(rec: DNSRecord): seq<Step> {
    [MulticastDNS(FromMAC(MAC_A, Y), [rec]), MulticastDNS(FromMAC(NO_MAC, X), [rec]), LinkLayer(From(X, SECOND), Announcement(X, SECOND, Some(MAC_A)))]
  }

  lemma MDNSIdentities(rec: DNSRecord)
    ensures IdentityKey(FromMAC(MAC_A, Y), NO_MAC, Hints(FromMAC(MAC_A, Y), [rec])) == Some(DEVICE_A)
    ensures IdentityKey(FromMAC(NO_MAC, X), NO_MAC, Hints(FromMAC(NO_MAC, X), [rec])) == Some(DEVICE_X)
  {
    assert MAC_A[5] != 0;
    assert IsUnicast(MAC_A) && !IsUnicast(NO_MAC);
  }

  /** Whatever record with a lifetime the two announce, the index of records is complete before the
      third message and no longer after it. */
  lemma RecordLost(rec: DNSRecord, w: World)
    requires rec.ttl != 0
    ensures var steps := Announcements(rec);
            && Whole(Run(ROOM, steps[..2], w)) && !Complete(Run(ROOM, steps, w).records)
            && MakeKey(0, rec) in Run(ROOM, steps[..2], w).records.byKey && MakeKey(1, rec) in Run(ROOM, steps[..2], w).records.byKey
  {
    hide InvGap, Observed, ObservedMDNS, Complete, MakeKey, IdentityKey, Hints, DeviceFor, MNDPObservation, CollidingMerge, Insert;
    var steps := Announcements(rec);
    var s0 := Run(ROOM, [], w);
    assert s0 == Empty(ROOM);
    EmptyInv(ROOM);
    RoomSlots();
    MDNSIdentities(rec);
    NewcomerCached(s0, FromMAC(MAC_A, Y), rec, DEVICE_A, w);
    var s1 := ObservedMDNS(s0, FromMAC(MAC_A, Y), [rec], w);
    OneIn(s1);
    NewcomerCached(s1, FromMAC(NO_MAC, X), rec, DEVICE_X, w);
    var s2 := ObservedMDNS(s1, FromMAC(NO_MAC, X), [rec], w);
    TwoIn(s1, s2);
    RunThree(rec, w);
    TwinsCollide(s2, 0, 1, rec);
    MergeLosesRecord(s2, w);
  }

  lemma RoomSlots()
    ensures var e := Empty(ROOM); e.devices == Slab(map[], map[], [1, 0]) && e.records.free == [1, 0]
  {
    assert Countdown(2) == [1, 0];
  }

  lemma OneIn(s: Store)
    requires s.devices == Insert(TakeFree(Slab(map[], map[], [1, 0])), 0, DEVICE_A)
    ensures s.devices == Slab(map[0 := DEVICE_A], map[DEVICE_A := 0], [1])
    ensures DEVICE_X !in s.devices.byKey && AddressedDevice(s, FromMAC(NO_MAC, X), DEVICE_X).None?
  {
    assert [1, 0][..1] == [1];
  }

  lemma TwoIn(s: Store, t: Store)
    requires s.devices == Slab(map[0 := DEVICE_A], map[DEVICE_A := 0], [1]) && t.devices == Insert(TakeFree(s.devices), 1, DEVICE_X)
    ensures t.devices.byKey == map[DEVICE_A := 0, DEVICE_X := 1]
  {
  }

  lemma RunThree(rec: DNSRecord, w: World)
    ensures var steps := Announcements(rec);
            var s1 := ObservedMDNS(Run(ROOM, [], w), FromMAC(MAC_A, Y), [rec], w);
            && Inv(s1) && Run(ROOM, steps[..2], w) == ObservedMDNS(s1, FromMAC(NO_MAC, X), [rec], w)
            && Run(ROOM, steps, w) == Observed(Run(ROOM, steps[..2], w), From(X, SECOND), Announcement(X, SECOND, Some(MAC_A)), w)
  {
    hide InvGap, Observed, ObservedMDNS, MNDPObservation;
    var steps := Announcements(rec);
    assert steps[..2] == [steps[0], steps[1]] && steps[..2][..1] == [steps[0]] && [steps[0]][..0] == [];
    assert Run(ROOM, [steps[0]], w) == Do(Run(ROOM, [], w), steps[0], w);
  }

  lemma MergeLosesRecord(s: Store, w: World)
    requires Inv(s) && Whole(s) && s.devices.byKey == map[DEVICE_A := 0, DEVICE_X := 1] && RecordsCollide(s, 0, 1)
    ensures !Complete(Observed(s, From(X, SECOND), Announcement(X, SECOND, Some(MAC_A)), w).records)
  {
    hide InvGap, DeviceFor, ApplyAll, Timestamped, Conclude, Complete, RecordsCollide, IdentityKey, MNDPObservation;
    var meta, o := From(X, SECOND), Announcement(X, SECOND, Some(MAC_A));
    MNDPHints(meta, Announcing(Some(MAC_A)), IDLE);
    Identities(SECOND);
    DeviceForRecords(s, meta, o.claimed, o.addresses);
    DeviceForInv(s, meta, o.claimed, o.addresses);
    var r := DeviceFor(s, meta, o.claimed, o.addresses);
    ListsThere(r.0);
    var k := r.0.info[r.1];
    var a := ApplyAll(o.edits, k, meta.protocol, meta.timestamp, In(w, s.limits));
    var s1 := r.0.(info := r.0.info[r.1 := Timestamped(a.0, meta.timestamp)]);
    InfoInv(r.0, s1);
    ConcludeInv(s1, meta, r.1, a.1, k.protocols == {}, o, w);
  }
}
