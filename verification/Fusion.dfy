/** Observations on the fusion store: identity, links and the DNS cache. */
module Fusion {
  import opened Model
  import opened FusionTypes
  import opened Slabs
  import opened Text
  import opened Stores
  import opened Timing

  // ---------- identity ----------

  /** The MAC an observation identifies its device by. */
  function IdentityMAC(meta: Meta, claimed: MAC): MAC {
    if !IsUnicast(meta.sourceMAC) && IsUnicast(claimed) then claimed else meta.sourceMAC
  }

  function FirstValid(addresses: seq<Addr>): Addr {
    if addresses == [] then NoAddr else if addresses[0] != NoAddr then addresses[0] else FirstValid(addresses[1..])
  }

  function IdentityKey(meta: Meta, claimed: MAC, addresses: seq<Addr>): Option<DeviceKey> {
    var mac := IdentityMAC(meta, claimed);
    if IsUnicast(mac) then Some(MACKey(mac))
    else if meta.sourceIP != NoAddr then Some(IPKey(Unmap(meta.sourceIP), meta.iface))
    else if FirstValid(addresses) != NoAddr then Some(IPKey(Unmap(FirstValid(addresses)), meta.iface))
    else None
  }

  /** The device known by the observation's address, when the observation also has a MAC. */
  function AddressedDevice(s: Store, meta: Meta, key: DeviceKey): Option<int> {
    var ipKey := IPKey(Unmap(meta.sourceIP), meta.iface);
    if key.MACKey? && meta.sourceIP != NoAddr && ipKey in s.devices.byKey then Some(s.devices.byKey[ipKey]) else None
  }

  /** Direct agreement of MAC and address on two devices: the case that merges. */
  predicate Merges(s: Store, meta: Meta, key: DeviceKey) {
    AddressedDevice(s, meta, key).Some? && key in s.devices.byKey && s.devices.byKey[key] != AddressedDevice(s, meta, key).value
  }

  /** The device an observation belongs to: found, merged, promoted or new; -1 without identity. */
  ghost function DeviceFor(s: Store, meta: Meta, claimed: MAC, addresses: seq<Addr>): (Store, int)
    requires Inv(s)
  {
    match IdentityKey(meta, claimed, addresses)
    case None => (s, -1)
    case Some(key) =>
      var ip := AddressedDevice(s, meta, key);
      if Merges(s, meta, key) then (MergeDevices(s, s.devices.byKey[key], ip.value), s.devices.byKey[key])
      else if ip.Some? then
        (SoundAt(s.devices, IPKey(Unmap(meta.sourceIP), meta.iface)); ListsThere(s); (Promote(s, ip.value, key), ip.value))
      else if key in s.devices.byKey then (s, s.devices.byKey[key])
      else var r := AllocDevice(s); (AddDevice(r.0, r.1, key, meta.timestamp), r.1)
  }

  lemma DeviceForInv(s: Store, meta: Meta, claimed: MAC, addresses: seq<Addr>)
    requires Inv(s)
    ensures var r := DeviceFor(s, meta, claimed, addresses);
            && Inv(r.0) && r.0.limits == s.limits
            && (IdentityKey(meta, claimed, addresses).None? <==> r.1 == -1)
            && (r.1 != -1 ==> r.1 in r.0.devices.keyOf && r.0.devices.keyOf[r.1] == IdentityKey(meta, claimed, addresses).value)
  {
    hide InvGap, Promote, MergeDevices, AllocDevice, AddDevice, Partition;
    match IdentityKey(meta, claimed, addresses) {
      case None =>
      case Some(key) =>
        IndexFacts(s);
        var ip := AddressedDevice(s, meta, key);
        if Merges(s, meta, key) {
          MergeDevicesInv(s, s.devices.byKey[key], ip.value);
        } else if ip.Some? {
          PromoteFits(s, ip.value, key);
        } else if key !in s.devices.byKey {
          AllocFits(s, key, meta.timestamp);
        }
    }
  }

  /** Used slots are never the failure value -1, and the index is a bijection. */
  lemma IndexFacts(s: Store)
    requires Inv(s)
    ensures Sound(s.devices) && Complete(s.devices) && forall d | d in s.devices.keyOf :: d >= 0
  {
  }

  lemma PromoteFits(s: Store, d: int, key: DeviceKey)
    requires Inv(s) && d in s.devices.keyOf && s.devices.keyOf[d].IPKey? && key.MACKey?
    requires key in s.devices.byKey ==> s.devices.byKey[key] == d
    ensures d in s.linkOwner.lists && d in s.recordOwner.lists
    ensures var t := Promote(s, d, key); Inv(t) && t.limits == s.limits && d in t.devices.keyOf && t.devices.keyOf[d] == key
    ensures Complete(s.links) ==> Complete(Promote(s, d, key).links)
    ensures Complete(s.records) ==> Complete(Promote(s, d, key).records)
  {
    hide InvGap, RekeyAll, Reindex, Complete, Partition;
    IndexFacts(s);
    ListsThere(s);
    if key in s.devices.byKey { SoundAt(s.devices, key); }
    PromoteInv(s, d, key);
  }

  lemma AllocFits(s: Store, key: DeviceKey, now: Time)
    requires Inv(s) && key !in s.devices.byKey
    ensures var r := AllocDevice(s); var t := AddDevice(r.0, r.1, key, now);
            && Inv(t) && t.limits == s.limits && r.1 >= 0 && r.1 in t.devices.keyOf && t.devices.keyOf[r.1] == key
            && t.links == r.0.links && t.records == r.0.records
    ensures Complete(s.links) ==> Complete(AllocDevice(s).0.links)
    ensures Complete(s.records) ==> Complete(AllocDevice(s).0.records)
  {
    hide InvGap, Complete, Partition, RemoveDevice;
    var r := AllocDevice(s);
    AllocIndex(s);
    AddDeviceInv(r.0, r.1, key, now);
  }

  /** Allocation only ever takes entries out of the device index. */
  lemma AllocIndex(s: Store)
    requires Inv(s)
    ensures forall k | k in AllocDevice(s).0.devices.byKey :: k in s.devices.byKey
  {
    hide Complete, RemoveDevice;
    if s.devices.free == [] { NoneFree(s.devices, s.limits.devices); }
  }

  /** Two devices become one exactly in a merge, and the one that goes is the one known by address.
      (An evicted device's slot is the newcomer's at once, so it is none of those left empty.) */
  lemma MergedAway(s: Store, meta: Meta, claimed: MAC, addresses: seq<Addr>, d: int)
    requires Inv(s) && d in s.devices.keyOf
    ensures var key := IdentityKey(meta, claimed, addresses);
            d !in DeviceFor(s, meta, claimed, addresses).0.devices.keyOf <==>
              key.Some? && Merges(s, meta, key.value) && AddressedDevice(s, meta, key.value) == Some(d)
  {
    hide InvGap, MergeDevices, AllocDevice, Partition, Complete, RekeyAll, Reindex, SetDevice;
    match IdentityKey(meta, claimed, addresses) {
      case None =>
      case Some(key) =>
        IndexFacts(s);
        var ip := AddressedDevice(s, meta, key);
        if ip.Some? { SoundAt(s.devices, IPKey(Unmap(meta.sourceIP), meta.iface)); }
        if Merges(s, meta, key) {
          SoundAt(s.devices, key);
          MergeDevicesInv(s, s.devices.byKey[key], ip.value);
        } else if ip.Some? {
          PromoteFits(s, ip.value, key);
        } else if key !in s.devices.byKey {
          AllocDeviceVictim(s);
        }
    }
  }

  /** Behind a source MAC that is not a host's, two devices become one if and only if a unicast MAC is
      claimed and both it and the frame's own address are known: the claim is what joins them. */
  lemma ClaimMerges(s: Store, meta: Meta, claimed: MAC, addresses: seq<Addr>)
    requires Inv(s) && !IsUnicast(meta.sourceMAC)
    ensures (exists d :: d in s.devices.keyOf && d !in DeviceFor(s, meta, claimed, addresses).0.devices.keyOf) <==>
              IsUnicast(claimed) && meta.sourceIP != NoAddr
              && MACKey(claimed) in s.devices.byKey && IPKey(Unmap(meta.sourceIP), meta.iface) in s.devices.byKey
  {
    hide InvGap, DeviceFor, Complete, IsUnicast;
    IndexFacts(s);
    var ipKey := IPKey(Unmap(meta.sourceIP), meta.iface);
    forall d | d in s.devices.keyOf
      ensures d !in DeviceFor(s, meta, claimed, addresses).0.devices.keyOf <==>
                IsUnicast(claimed) && meta.sourceIP != NoAddr && MACKey(claimed) in s.devices.byKey && ipKey in s.devices.byKey && s.devices.byKey[ipKey] == d
    {
      MergedAway(s, meta, claimed, addresses, d);
      if ipKey in s.devices.byKey { SoundAt(s.devices, ipKey); }
      if MACKey(claimed) in s.devices.byKey { SoundAt(s.devices, MACKey(claimed)); }
    }
    if ipKey in s.devices.byKey { SoundAt(s.devices, ipKey); }
  }

  /** The index of links stays complete through identity resolution unless a merge collides. */
  lemma DeviceForComplete(s: Store, meta: Meta, claimed: MAC, addresses: seq<Addr>)
    requires Inv(s) && Complete(s.links)
    ensures var key := IdentityKey(meta, claimed, addresses);
            var t := DeviceFor(s, meta, claimed, addresses).0;
            if key.Some? && Merges(s, meta, key.value) then
              (Complete(t.links) <==> !LinksCollide(s, s.devices.byKey[key.value], AddressedDevice(s, meta, key.value).value))
            else Complete(t.links)
  {
    hide InvGap, Promote, MergeDevices, AllocDevice, AddDevice, Partition, Complete;
    match IdentityKey(meta, claimed, addresses) {
      case None =>
      case Some(key) =>
        IndexFacts(s);
        var ip := AddressedDevice(s, meta, key);
        if ip.Some? { SoundAt(s.devices, IPKey(Unmap(meta.sourceIP), meta.iface)); }
        if Merges(s, meta, key) {
          SoundAt(s.devices, key);
          MergeLinkIndex(s, s.devices.byKey[key], ip.value);
        } else if ip.Some? {
          PromoteFits(s, ip.value, key);
        } else if key !in s.devices.byKey {
          AllocFits(s, key, meta.timestamp);
        }
    }
  }

  /** Some link of src has the interface and source MAC of a link of dst. */
  ghost predicate LinksCollide(s: Store, dst: int, src: int)
    requires dst in s.devices.keyOf
  {
    exists l :: l in s.links.keyOf && Struck(s, dst, src, l)
  }

  // ---------- links ----------

  /** A link after one more observation: later times, one more protocol, a fresh deadline. */
  function Refreshed(k: LinkInfo, meta: Meta, kind: LinkKind, ttl: int): LinkInfo {
    var t := if ttl <= 0 then SECOND else ttl;
    var e := k.expires.Set(meta.protocol, meta.timestamp + t);
    k.(kind := if kind.PhysicalAdjacency? then kind else k.kind,
       protocols := k.protocols + {meta.protocol},
       lastSeen := if meta.timestamp > k.lastSeen then meta.timestamp else k.lastSeen,
       expires := e, ttl := t, expiresAt := EarliestExpiry(e),
       vlans := AppendAll(k.vlans, meta.vlans))
  }

  /** Whether a refresh is more than a matter of times. */
  predicate RefreshChanges(k: LinkInfo, meta: Meta, kind: LinkKind) {
    (kind.PhysicalAdjacency? && !k.kind.PhysicalAdjacency?) || meta.protocol !in k.protocols || exists v :: v in meta.vlans && v !in k.vlans
  }

  lemma RefreshedTimed(k: LinkInfo, meta: Meta, kind: LinkKind, ttl: int)
    requires Timed(k)
    ensures Timed(Refreshed(k, meta, kind, ttl))
    ensures Refreshed(k, meta, kind, ttl).device == k.device
  {
  }

  function RefreshLink(s: Store, l: int, meta: Meta, kind: LinkKind, ttl: int): Store
    requires l in s.link
  {
    var k := Refreshed(s.link[l], meta, kind, ttl);
    s.(link := s.link[l := k], linkDue := s.linkDue[l := Ticks(k.expiresAt - meta.timestamp)])
  }

  lemma RefreshLinkInv(s: Store, l: int, meta: Meta, kind: LinkKind, ttl: int)
    requires Inv(s) && l in s.links.keyOf
    ensures l in s.link && Inv(RefreshLink(s, l, meta, kind, ttl))
  {
    hide Sound, Complete, Partition, Owned, MaximaCached, RecordKeysAgree, Refreshed, Timed, LinkKeysAgree, LinksTimed;
    SetLinkAgrees(s, l, Refreshed(s.link[l], meta, kind, ttl), meta, kind, ttl);
  }

  lemma SetLinkAgrees(s: Store, l: int, k: LinkInfo, meta: Meta, kind: LinkKind, ttl: int)
    requires l in s.links.keyOf && l in s.link && k == Refreshed(s.link[l], meta, kind, ttl) && LinksTimed(s.link)
    requires LinkKeysAgree(s.links.keyOf, s.link, s.linkOwner.owner, s.devices.keyOf)
    ensures LinkKeysAgree(s.links.keyOf, s.link[l := k], s.linkOwner.owner, s.devices.keyOf) && LinksTimed(s.link[l := k])
  {
    hide Refreshed, Timed;
    RefreshedTimed(s.link[l], meta, kind, ttl);
    forall x | x in s.links.keyOf ensures KeyAgrees(s.links.keyOf, s.link[l := k], s.linkOwner.owner, s.devices.keyOf, x) {
      assert KeyAgrees(s.links.keyOf, s.link, s.linkOwner.owner, s.devices.keyOf, x);
    }
  }

  /** The first link of a list on the interface and of the kind, -1 if there is none. */
  function FirstOfKind(s: Store, list: seq<int>, iface: int, kind: LinkKind): int {
    if list == [] then -1
    else if list[0] in s.link && list[0] in s.links.keyOf && s.links.keyOf[list[0]].iface == iface && s.link[list[0]].kind == kind then list[0]
    else FirstOfKind(s, list[1..], iface, kind)
  }

  lemma FirstOfKindFound(s: Store, list: seq<int>, iface: int, kind: LinkKind)
    requires -1 !in list
    ensures var l := FirstOfKind(s, list, iface, kind);
            if l != -1 then l in list && l in s.link && l in s.links.keyOf && s.links.keyOf[l].iface == iface && s.link[l].kind == kind
            else forall x | x in list && x in s.link && x in s.links.keyOf :: s.links.keyOf[x].iface == iface ==> s.link[x].kind != kind
  {
  }

  ghost function LinksSeen(s: Store): map<int, int> { map l | l in s.link :: s.link[l].lastSeen as int }

  /** A free link slot, or the slot of the least recently seen link after evicting it. */
  ghost function AllocLink(s: Store): (Store, int)
    requires Inv(s)
  {
    if s.links.free != [] then (s.(links := TakeFree(s.links)), s.links.free[|s.links.free| - 1])
    else
      var o := Oldest(LinksSeen(s), s.limits.links);
      AllocLinkStep(s);
      var t := RemoveLink(s, o, Evicted);
      (t.(links := TakeFree(t.links)), o)
  }

  lemma AllocLinkStep(s: Store)
    requires Inv(s) && s.links.free == []
    ensures var o := Oldest(LinksSeen(s), s.limits.links); var t := RemoveLink(s, o, Evicted);
            o in s.links.keyOf && Inv(t) && t.links.free == [o]
    ensures forall i | 0 <= i < s.limits.links :: i in s.links.keyOf
  {
    hide Sound, Complete, Owned, MaximaCached, RecordKeysAgree, LinkKeysAgree, LinksTimed, Disown;
    NoneFree(s.links, s.limits.links);
    assert 0 in s.links.keyOf;
    RemoveLinkInv(s, Oldest(LinksSeen(s), s.limits.links), Evicted, WHOLE);
  }

  lemma AllocLinkInv(s: Store)
    requires Inv(s)
    ensures var r := AllocLink(s);
            && InvGap(r.0, WHOLE.(link := {r.1})) && r.1 >= 0 && r.1 !in r.0.links.keyOf
            && r.0.devices == s.devices && r.0.limits == s.limits && r.0.info == s.info
            && r.0.records == s.records && r.0.recordOwner == s.recordOwner && r.0.dnsExpiry == s.dnsExpiry
            && r.0.record == s.record && r.0.expiresAt == s.expiresAt
            && (forall l | l in r.0.links.keyOf :: l in s.links.keyOf && r.0.links.keyOf[l] == s.links.keyOf[l])
            && (forall k | k in r.0.links.byKey :: k in s.links.byKey)
    ensures Complete(s.links) ==> Complete(AllocLink(s).0.links)
  {
    hide Sound, Complete, Partition, Owned, MaximaCached, RecordKeysAgree, LinkKeysAgree, LinksTimed, Disown;
    if s.links.free != [] {
      TakeFreeKeeps(s.links, s.limits.links);
    } else {
      AllocLinkStep(s);
      var o := Oldest(LinksSeen(s), s.limits.links);
      RemoveLinkInv(s, o, Evicted, WHOLE);
      TakeFreeKeeps(RemoveLink(s, o, Evicted).links, s.limits.links);
    }
  }

  /** A link is evicted only when every slot is used, and then the least recently seen one, which
      alone goes. */
  lemma AllocLinkVictim(s: Store)
    requires Inv(s)
    ensures SlotsKeyed(s)
    ensures var r := AllocLink(s);
            if s.links.free != [] then r.0.links.keyOf == s.links.keyOf && r.0.link == s.link
            else
              && (forall i | 0 <= i < s.limits.links :: i in s.links.keyOf)
              && r.1 in s.links.keyOf && (forall l | l in s.links.keyOf :: s.link[r.1].lastSeen <= s.link[l].lastSeen)
              && r.0.links.keyOf == s.links.keyOf - {r.1} && r.0.link == s.link - {r.1}
  {
    hide InvGap, Disown, Oldest, Partition, Complete;
    LinksThere(s);
    if s.links.free == [] {
      NoneFree(s.links, s.limits.links);
      AllocLinkStep(s);
      assert LinksSeen(s).Keys == s.links.keyOf.Keys;
      assert 0 in s.links.keyOf;
      OldestLeast(LinksSeen(s), s.limits.links);
      var o := Oldest(LinksSeen(s), s.limits.links);
      forall l | l in s.links.keyOf ensures s.link[o].lastSeen <= s.link[l].lastSeen {
        assert LinksSeen(s)[o] <= LinksSeen(s)[l];
      }
    }
  }

  lemma LinksThere(s: Store)
    requires Inv(s)
    ensures SlotsKeyed(s) && Partition(s.links, s.limits.links, {}) && s.limits.links >= 1
  {
    hide Sound, Complete, Owned, MaximaCached, RecordKeysAgree, LinkKeysAgree, LinksTimed;
  }

  function NewLink(meta: Meta, kind: LinkKind, device: DeviceKey): LinkInfo {
    LinkInfo(kind, meta.interfaceName, device, meta.sourceMAC, Identifier(0, []), Identifier(0, []), NO_TEXT,
             [], {}, 0, 0, meta.timestamp, meta.timestamp, NO_DEADLINES)
  }

  /** A new link of device d, already refreshed once. */
  ghost function AddLink(s: Store, l: int, d: int, key: LinkKey, meta: Meta, kind: LinkKind, ttl: int): Store
    requires d in s.linkOwner.lists
  {
    RefreshLink(s.(links := Insert(s.links, l, key), linkOwner := Own(s.linkOwner, l, d),
                   link := s.link[l := NewLink(meta, kind, key.device)]), l, meta, kind, ttl)
  }

  lemma AddLinkShape(s: Store, l: int, d: int, key: LinkKey, meta: Meta, kind: LinkKind, ttl: int)
    requires d in s.linkOwner.lists
    ensures var k := Refreshed(NewLink(meta, kind, key.device), meta, kind, ttl);
            AddLink(s, l, d, key, meta, kind, ttl) ==
            s.(links := Insert(s.links, l, key), linkOwner := Own(s.linkOwner, l, d), link := s.link[l := k],
               linkDue := s.linkDue[l := Ticks(k.expiresAt - meta.timestamp)])
  {
    hide Insert, Own, NewLink, Refreshed, Ticks;
    var k0 := NewLink(meta, kind, key.device);
    assert s.link[l := k0][l := Refreshed(k0, meta, kind, ttl)] == s.link[l := Refreshed(k0, meta, kind, ttl)];
  }

  lemma AddLinkInv(s: Store, l: int, d: int, key: LinkKey, meta: Meta, kind: LinkKind, ttl: int)
    requires InvGap(s, WHOLE.(link := {l})) && d in s.devices.keyOf && key !in s.links.byKey && key.device == s.devices.keyOf[d]
    ensures d in s.linkOwner.lists && l !in s.links.keyOf
    ensures var t := AddLink(s, l, d, key, meta, kind, ttl);
            Inv(t) && t.devices == s.devices && t.limits == s.limits && (Complete(s.links) ==> Complete(t.links))
  {
    hide Sound, Complete, Partition, Owned, MaximaCached, RecordKeysAgree, LinkKeysAgree, LinksTimed, Refreshed, NewLink, AddLink, Timed, Insert, Own;
    ReservedUnused(s.links, s.limits.links, l);
    InsertKeeps(s.links, l, key, s.limits.links);
    OwnKeeps(s.linkOwner, l, d);
    NewLinkTimed(meta, kind, key.device);
    RefreshedTimed(NewLink(meta, kind, key.device), meta, kind, ttl);
    AddLinkAgrees(s, l, d, key, Refreshed(NewLink(meta, kind, key.device), meta, kind, ttl));
    AddLinkShape(s, l, d, key, meta, kind, ttl);
    NewSlot(s.links, l, key);
    NewOwned(s.linkOwner, l, d);
  }

  lemma NewLinkTimed(meta: Meta, kind: LinkKind, device: DeviceKey)
    ensures Timed(NewLink(meta, kind, device)) && NewLink(meta, kind, device).device == device
  {
  }

  lemma AddLinkAgrees(s: Store, l: int, d: int, key: LinkKey, k: LinkInfo)
    requires LinkKeysAgree(s.links.keyOf, s.link, s.linkOwner.owner, s.devices.keyOf) && LinksTimed(s.link) && Timed(k)
    requires l !in s.links.keyOf && d in s.devices.keyOf && key.device == s.devices.keyOf[d] == k.device
    ensures LinkKeysAgree(s.links.keyOf[l := key], s.link[l := k], s.linkOwner.owner[l := d], s.devices.keyOf) && LinksTimed(s.link[l := k])
  {
    hide Timed;
    var keyOf' := s.links.keyOf[l := key];
    forall x | x in keyOf'
      ensures KeyAgrees(keyOf', s.link[l := k], s.linkOwner.owner[l := d], s.devices.keyOf, x)
    {
      assert x != l ==> KeyAgrees(s.links.keyOf, s.link, s.linkOwner.owner, s.devices.keyOf, x);
    }
  }

  /** Segment presence turned into a physical adjacency under the observed source MAC. */
  function PromoteLink(s: Store, l: int, key: LinkKey, meta: Meta): Store
    requires l in s.link && l in s.links.keyOf
  {
    s.(links := Rekey(s.links, l, key),
       link := s.link[l := s.link[l].(device := key.device, observedSource := meta.sourceMAC, kind := PhysicalAdjacency)])
  }

  lemma PromoteLinkInv(s: Store, l: int, d: int, key: LinkKey, meta: Meta)
    requires Inv(s) && l in s.links.keyOf && l in s.linkOwner.owner && s.linkOwner.owner[l] == d && d in s.devices.keyOf
    requires key.device == s.devices.keyOf[d] && key !in s.links.byKey
    ensures l in s.link
    ensures var t := PromoteLink(s, l, key, meta); Inv(t) && t.devices == s.devices && (Complete(s.links) ==> Complete(t.links))
  {
    hide Sound, Complete, Partition, Owned, MaximaCached, RecordKeysAgree, LinkKeysAgree, LinksTimed;
    RekeyKeeps(s.links, l, key, s.limits.links);
    PromoteLinkAgrees(s, l, d, key, meta);
  }

  lemma PromoteLinkAgrees(s: Store, l: int, d: int, key: LinkKey, meta: Meta)
    requires LinkKeysAgree(s.links.keyOf, s.link, s.linkOwner.owner, s.devices.keyOf) && LinksTimed(s.link)
    requires l in s.links.keyOf && l in s.link && l in s.linkOwner.owner && s.linkOwner.owner[l] == d && d in s.devices.keyOf
    requires key.device == s.devices.keyOf[d]
    ensures var k := s.link[l].(device := key.device, observedSource := meta.sourceMAC, kind := PhysicalAdjacency);
            LinkKeysAgree(s.links.keyOf[l := key], s.link[l := k], s.linkOwner.owner, s.devices.keyOf) && LinksTimed(s.link[l := k])
  {
    var k := s.link[l].(device := key.device, observedSource := meta.sourceMAC, kind := PhysicalAdjacency);
    assert Timed(s.link[l]);
    assert Timed(k);
    hide Timed;
    var keyOf' := s.links.keyOf[l := key];
    forall x | x in keyOf'
      ensures KeyAgrees(keyOf', s.link[l := k], s.linkOwner.owner, s.devices.keyOf, x)
    {
      assert KeyAgrees(s.links.keyOf, s.link, s.linkOwner.owner, s.devices.keyOf, x);
    }
  }

  function KeyFor(s: Store, meta: Meta, d: int): LinkKey
    requires d in s.devices.keyOf
  {
    LinkKey(meta.iface, meta.sourceMAC, s.devices.keyOf[d])
  }

  /** The existing link an observation of device d falls on: under its own key, else a segment
      link a physical observation promotes, else a physical link a segment observation joins. */
  function LinkFor(s: Store, meta: Meta, d: int, kind: LinkKind): int
    requires d in s.devices.keyOf && d in s.linkOwner.lists
  {
    var key := KeyFor(s, meta, d);
    if key in s.links.byKey then s.links.byKey[key]
    else FirstOfKind(s, s.linkOwner.lists[d], meta.iface, if kind.PhysicalAdjacency? then SegmentPresence else PhysicalAdjacency)
  }

  datatype Upsert = Upsert(store: Store, link: int, changed: bool, added: bool)

  ghost function UpsertLink(s: Store, meta: Meta, d: int, kind: LinkKind, ttl: int): Upsert
    requires Inv(s) && d in s.devices.keyOf
  {
    ListsThere(s);
    LinkForThere(s, meta, d, kind);
    var key := KeyFor(s, meta, d);
    var l := LinkFor(s, meta, d, kind);
    if key in s.links.byKey then Upsert(RefreshLink(s, l, meta, kind, ttl), l, RefreshChanges(s.link[l], meta, kind), false)
    else if l != -1 && kind.PhysicalAdjacency? then
      Upsert(RefreshLink(PromoteLink(s, l, key, meta), l, meta, kind, ttl), l, true, false)
    else if l != -1 then Upsert(RefreshLink(s, l, meta, kind, ttl), l, RefreshChanges(s.link[l], meta, kind), false)
    else
      AllocLinkInv(s);
      ListsOf(AllocLink(s).0, WHOLE.(link := {AllocLink(s).1}));
      Upsert(AddLink(AllocLink(s).0, AllocLink(s).1, d, key, meta, kind, ttl), AllocLink(s).1, true, true)
  }

  lemma ListsOf(s: Store, g: Gap)
    requires InvGap(s, g)
    ensures s.linkOwner.lists.Keys == s.devices.keyOf.Keys
  {
  }

  lemma LinkForThere(s: Store, meta: Meta, d: int, kind: LinkKind)
    requires Inv(s) && d in s.devices.keyOf
    ensures d in s.linkOwner.lists
    ensures var l := LinkFor(s, meta, d, kind);
            if KeyFor(s, meta, d) in s.links.byKey then l in s.links.keyOf && l in s.link && s.links.keyOf[l] == KeyFor(s, meta, d)
            else l != -1 ==> l in s.links.keyOf && l in s.link && l in s.linkOwner.owner && s.linkOwner.owner[l] == d
    ensures forall l | l in s.links.keyOf :: l >= 0
  {
    hide Complete, MaximaCached, RecordKeysAgree, LinkKeysAgree, LinksTimed;
    OwnedList(s.linkOwner, d);
    assert -1 !in s.linkOwner.lists[d];
    FirstOfKindFound(s, s.linkOwner.lists[d], meta.iface, if kind.PhysicalAdjacency? then SegmentPresence else PhysicalAdjacency);
  }

  lemma UpsertLinkInv(s: Store, meta: Meta, d: int, kind: LinkKind, ttl: int)
    requires Inv(s) && d in s.devices.keyOf
    ensures var u := UpsertLink(s, meta, d, kind, ttl);
            && Inv(u.store) && u.store.devices == s.devices && u.store.limits == s.limits && u.link in u.store.links.keyOf
            && u.store.info == s.info
            && (Complete(s.links) ==> Complete(u.store.links))
            && u.store.records == s.records
  {
    hide InvGap, RefreshLink, PromoteLink, Complete, LinkFor, AllocLink;
    ListsThere(s);
    LinkForThere(s, meta, d, kind);
    var key := KeyFor(s, meta, d);
    var l := LinkFor(s, meta, d, kind);
    if key in s.links.byKey || (l != -1 && !kind.PhysicalAdjacency?) {
      RefreshLinkInv(s, l, meta, kind, ttl);
      RefreshKeeps(s, l, meta, kind, ttl);
    } else if l != -1 {
      PromoteLinkInv(s, l, d, key, meta);
      PromoteLinkKeeps(s, l, key, meta);
      RefreshLinkInv(PromoteLink(s, l, key, meta), l, meta, kind, ttl);
      RefreshKeeps(PromoteLink(s, l, key, meta), l, meta, kind, ttl);
    } else {
      AllocLinkInv(s);
      var r := AllocLink(s);
      AddLinkInv(r.0, r.1, d, key, meta, kind, ttl);
      AddLinkKeeps(r.0, r.1, d, key, meta, kind, ttl);
    }
  }

  lemma RefreshKeeps(s: Store, l: int, meta: Meta, kind: LinkKind, ttl: int)
    requires l in s.link
    ensures var t := RefreshLink(s, l, meta, kind, ttl); t == s.(link := t.link, linkDue := t.linkDue)
  {
  }

  lemma PromoteLinkKeeps(s: Store, l: int, key: LinkKey, meta: Meta)
    requires l in s.link && l in s.links.keyOf
    ensures var t := PromoteLink(s, l, key, meta); t == s.(links := t.links, link := t.link) && l in t.links.keyOf && l in t.link
  {
  }

  lemma AddLinkKeeps(s: Store, l: int, d: int, key: LinkKey, meta: Meta, kind: LinkKind, ttl: int)
    requires d in s.linkOwner.lists
    ensures var t := AddLink(s, l, d, key, meta, kind, ttl);
            t == s.(links := t.links, linkOwner := t.linkOwner, link := t.link, linkDue := t.linkDue) && l in t.links.keyOf
  {
  }
}
