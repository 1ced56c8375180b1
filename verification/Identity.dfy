/** The device an observation ends on, its key, and what becomes of the other devices. */
module Identities {
  import opened Model
  import opened FusionTypes
  import opened Slabs
  import opened Stores
  import opened Timing
  import opened Fusion

  // ---------- the key ----------

  predicate Hosts(m: MAC) { m != [0, 0, 0, 0, 0, 0] && m[0] % 2 == 0 }

  function Plain(a: Addr): Addr { if a.Mapped? then V4(a.v4) else a }

  /** The first valid address of a list. */
  ghost predicate FirstNamed(addresses: seq<Addr>, i: int) {
    0 <= i < |addresses| && addresses[i] != NoAddr && forall j | 0 <= j < i :: addresses[j] == NoAddr
  }

  /** The key of the device an observation is of: its source MAC if that is a host's; otherwise a
      claimed one; otherwise the source address, otherwise the first address named, each unmapped and on
      this interface only. */
  ghost predicate KnownAs(meta: Meta, claimed: MAC, addresses: seq<Addr>, key: DeviceKey) {
    if Hosts(meta.sourceMAC) then key == MACKey(meta.sourceMAC)
    else if Hosts(claimed) then key == MACKey(claimed)
    else if meta.sourceIP != NoAddr then key == IPKey(Plain(meta.sourceIP), meta.iface)
    else exists i :: FirstNamed(addresses, i) && key == IPKey(Plain(addresses[i]), meta.iface)
  }

  lemma {:induction false} FirstValidIs(addresses: seq<Addr>)
    ensures FirstValid(addresses) == NoAddr ==> forall i :: !FirstNamed(addresses, i)
    ensures FirstValid(addresses) != NoAddr ==> exists i :: FirstNamed(addresses, i)
    ensures forall i :: FirstNamed(addresses, i) ==> FirstValid(addresses) == addresses[i]
    decreases |addresses|
  {
    if addresses != [] {
      var rest := addresses[1..];
      FirstValidIs(rest);
      forall i | FirstNamed(addresses, i) && i > 0 ensures FirstNamed(rest, i - 1) && addresses[i] == rest[i - 1] {}
      if addresses[0] != NoAddr {
        assert FirstNamed(addresses, 0);
      } else if FirstValid(rest) != NoAddr {
        var i :| FirstNamed(rest, i);
        assert FirstNamed(addresses, i + 1);
      }
    }
  }

  lemma IdentityIs(meta: Meta, claimed: MAC, addresses: seq<Addr>)
    ensures forall key :: IdentityKey(meta, claimed, addresses) == Some(key) <==> KnownAs(meta, claimed, addresses, key)
  {
    FirstValidIs(addresses);
  }

  /** Identity resolution ends on a device of that key; it ends on none, and changes nothing, exactly
      where there is no key. */
  lemma DeviceKeyed(s: Store, meta: Meta, claimed: MAC, addresses: seq<Addr>)
    requires Inv(s)
    ensures var r := DeviceFor(s, meta, claimed, addresses);
            && (r.1 == -1 <==> forall key :: !KnownAs(meta, claimed, addresses, key))
            && (r.1 == -1 ==> r.0 == s)
            && (r.1 != -1 ==> r.1 in r.0.devices.keyOf && KnownAs(meta, claimed, addresses, r.0.devices.keyOf[r.1]))
  {
    hide InvGap, DeviceFor, KnownAs;
    DeviceForInv(s, meta, claimed, addresses);
    IdentityIs(meta, claimed, addresses);
    var id := IdentityKey(meta, claimed, addresses);
    if id.None? { NoIdentity(s, meta, claimed, addresses); }
    if id.Some? { assert IdentityKey(meta, claimed, addresses) == Some(id.value); }
  }

  lemma NoIdentity(s: Store, meta: Meta, claimed: MAC, addresses: seq<Addr>)
    requires Inv(s) && IdentityKey(meta, claimed, addresses).None?
    ensures DeviceFor(s, meta, claimed, addresses) == (s, -1)
  {
    hide InvGap;
  }

  // ---------- the devices ----------

  /** The device at slot d, if there is one, has this key. */
  predicate Has(s: Store, d: int, key: DeviceKey) { d in s.devices.keyOf && s.devices.keyOf[d] == key }

  /** Nothing is known of a device but when it was first and last seen. */
  predicate Blank(k: DeviceInfo, now: Time) {
    && k.observedMACs == [] && k.claimedMACs == [] && k.addresses == [] && k.capabilities == {} && k.protocols == {} && k.matched.None?
    && k.systemName.values == [] && k.hostName.values == [] && k.protocolDeviceID.values == [] && k.vendor.values == []
    && k.model.values == [] && k.platform.values == [] && k.softwareVersion.values == []
    && !k.uptime.valid && k.firstSeen == now && k.lastSeen == now
  }

  /** The device an observation of this key is of, before it: the one of the key, otherwise the one
      known by the observation's own address, if the key is a MAC. */
  ghost predicate Before(s: Store, meta: Meta, key: DeviceKey, d: int) {
    || Has(s, d, key)
    || ((forall e :: !Has(s, e, key)) && key.MACKey? && meta.sourceIP != NoAddr && Has(s, d, IPKey(Plain(meta.sourceIP), meta.iface)))
  }

  lemma BeforeIs(s: Store, meta: Meta, key: DeviceKey)
    requires Inv(s)
    ensures forall d :: Before(s, meta, key, d) <==> if key in s.devices.byKey then s.devices.byKey[key] == d else AddressedDevice(s, meta, key) == Some(d)
  {
    hide InvGap;
    IndexFacts(s);
    HasIndexed(s, key);
    HasIndexed(s, IPKey(Plain(meta.sourceIP), meta.iface));
    if key in s.devices.byKey { assert Has(s, s.devices.byKey[key], key); }
  }

  /** The device at d has this key, and all other devices had their key and evidence before. */
  ghost predicate Keyed(s: Store, t: Store, d: int, key: DeviceKey) {
    && Has(t, d, key) && d in t.info
    && forall e | e in t.devices.keyOf && e != d :: Has(s, e, t.devices.keyOf[e]) && e in s.info && e in t.info && t.info[e] == s.info[e]
  }

  /** The newcomer is blank, in a slot that was free, or in that of the least recently seen device where none was. */
  ghost predicate Newcomer(s: Store, t: Store, d: int, now: Time) {
    && d in t.info && Blank(t.info[d], now)
    && (d in s.devices.keyOf ==> s.devices.free == [] && d in s.info && forall e | e in s.info :: s.info[d].lastSeen <= s.info[e].lastSeen)
  }

  lemma MergedKeyed(s: Store, meta: Meta, key: DeviceKey)
    requires Inv(s) && Merges(s, meta, key)
    ensures Keyed(s, MergeDevices(s, s.devices.byKey[key], AddressedDevice(s, meta, key).value), s.devices.byKey[key], key)
  {
    hide InvGap, MergeDevices, MergedInfo;
    IndexFacts(s);
    ListsThere(s);
    SoundAt(s.devices, key);
    SoundAt(s.devices, IPKey(Plain(meta.sourceIP), meta.iface));
    var dst, src := s.devices.byKey[key], AddressedDevice(s, meta, key).value;
    MergeDevicesInv(s, dst, src);
    MergeInfo(s, dst, src);
    ListsThere(MergeDevices(s, dst, src));
  }

  lemma PromotedKeyed(s: Store, d: int, key: DeviceKey)
    requires Inv(s) && d in s.devices.keyOf && d in s.linkOwner.lists && d in s.recordOwner.lists
    ensures Keyed(s, Promote(s, d, key), d, key) && d in s.info && Promote(s, d, key).info[d] == s.info[d]
  {
    hide InvGap, RekeyAll, Reindex, SetDevice;
    ListsThere(s);
  }

  lemma AddedKeyed(s: Store, key: DeviceKey, now: Time)
    requires Inv(s)
    ensures var a := AllocDevice(s); var t := AddDevice(a.0, a.1, key, now); Keyed(s, t, a.1, key) && Newcomer(s, t, a.1, now)
  {
    hide InvGap, AllocDevice;
    AllocDeviceVictim(s);
  }

  /** Where that device is, it keeps its slot, and its evidence but in a merge; where it is not, the slot is
      one that was free, or that of the least recently seen device where none was, and the device in it is
      blank. All other devices keep key and evidence. */
  lemma DevicesAfter(s: Store, meta: Meta, claimed: MAC, addresses: seq<Addr>, key: DeviceKey)
    requires Inv(s) && KnownAs(meta, claimed, addresses, key)
    ensures var r := DeviceFor(s, meta, claimed, addresses);
            && Keyed(s, r.0, r.1, key)
            && (forall d | Before(s, meta, key, d) :: r.1 == d)
            && (Before(s, meta, key, r.1) && !Merges(s, meta, key) ==> r.1 in s.info && r.0.info[r.1] == s.info[r.1])
            && (!Before(s, meta, key, r.1) ==> Newcomer(s, r.0, r.1, meta.timestamp))
  {
    hide InvGap, MergeDevices, Promote, AllocDevice, AddDevice, KnownAs, IdentityKey, Before, Keyed, Newcomer;
    IdentityIs(meta, claimed, addresses);
    IndexFacts(s);
    ListsThere(s);
    DeviceForInv(s, meta, claimed, addresses);
    BeforeIs(s, meta, key);
    var ip := AddressedDevice(s, meta, key);
    if Merges(s, meta, key) {
      MergedKeyed(s, meta, key);
    } else if ip.Some? {
      SoundAt(s.devices, IPKey(Plain(meta.sourceIP), meta.iface));
      PromotedKeyed(s, ip.value, key);
    } else if key in s.devices.byKey {
      SoundAt(s.devices, key);
      SameKeyed(s, s.devices.byKey[key], key);
    } else {
      AddedKeyed(s, key, meta.timestamp);
    }
  }

  lemma SameKeyed(s: Store, d: int, key: DeviceKey)
    requires Inv(s) && Has(s, d, key)
    ensures Keyed(s, s, d, key)
  {
    hide InvGap;
    ListsThere(s);
  }

  lemma HasIndexed(s: Store, key: DeviceKey)
    requires Sound(s.devices) && Complete(s.devices)
    ensures forall d :: Has(s, d, key) <==> key in s.devices.byKey && s.devices.byKey[key] == d
  {
    forall d | Has(s, d, key) ensures key in s.devices.byKey && s.devices.byKey[key] == d { assert Indexed(s.devices, d); }
  }

  /** A merge changes no evidence but that of the device merged into. */
  lemma MergeInfo(s: Store, dst: int, src: int)
    requires Inv(s) && dst != src && dst in s.devices.keyOf && src in s.devices.keyOf
    ensures dst in s.info && src in s.info
    ensures MergeDevices(s, dst, src).info == s.info[dst := MergedInfo(s.info[dst], s.info[src], s.limits.alternatives)] - {src}
  {
    hide InvGap, MergedInfo, MoveLinks, MoveRecords;
    ListsThere(s);
    var s0 := s.(info := s.info[dst := MergedInfo(s.info[dst], s.info[src], s.limits.alternatives)]);
    InfoInv(s, s0);
    MoveLinksInv(s0, dst, src);
    EmptyingInv(MoveLinks(s0, dst, src), src);
    MoveRecordsInv(MoveLinks(s0, dst, src), dst, src);
  }
}
