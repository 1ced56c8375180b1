/** The fusion store as a value: slabs and ownership as maps over the used slots, and the timing
    wheels as maps of ticks left. FusionState refines these operations in place. */
module Stores {
  import opened Model
  import opened FusionTypes
  import opened Slabs
  import opened Text
  import Timing

  datatype Store = Store(
    limits: Limits,
    devices: Slab<DeviceKey>, info: map<int, DeviceInfo>,
    links: Slab<LinkKey>, linkOwner: Owners, link: map<int, LinkInfo>, linkDue: map<int, int>,
    records: Slab<DNSKey>, recordOwner: Owners, record: map<int, DNSRecord>, expiresAt: map<int, Time>, dnsDue: map<int, int>,
    dnsExpiry: map<int, Time>,
    events: seq<Event>)

  // ---------- the invariant of every reachable state ----------

  /** Slots taken off a freelist but not filled yet, and the device a merge is emptying. */
  datatype Gap = Gap(device: set<int>, link: set<int>, record: set<int>, emptied: int)

  const WHOLE := Gap({}, {}, {}, -1)

  ghost predicate DevicesKeyed(s: Store) {
    && s.info.Keys == s.devices.keyOf.Keys && s.dnsExpiry.Keys == s.devices.keyOf.Keys
    && s.linkOwner.lists.Keys == s.devices.keyOf.Keys && s.recordOwner.lists.Keys == s.devices.keyOf.Keys
  }

  /** The wheels hold exactly the used links and records. */
  ghost predicate SlotsKeyed(s: Store) {
    && s.linkOwner.owner.Keys == s.links.keyOf.Keys && s.link.Keys == s.links.keyOf.Keys
    && s.linkDue.Keys == s.links.keyOf.Keys
    && s.recordOwner.owner.Keys == s.records.keyOf.Keys && s.record.Keys == s.records.keyOf.Keys
    && s.expiresAt.Keys == s.records.keyOf.Keys && s.dnsDue.Keys == s.records.keyOf.Keys
  }

  /** Every link carries its owner's key, in its own key and as its device. */
  ghost predicate LinkKeysAgree(keyOf: map<int, LinkKey>, link: map<int, LinkInfo>, owner: map<int, int>, device: map<int, DeviceKey>) {
    forall l | l in keyOf :: KeyAgrees(keyOf, link, owner, device, l)
  }

  ghost predicate KeyAgrees(keyOf: map<int, LinkKey>, link: map<int, LinkInfo>, owner: map<int, int>, device: map<int, DeviceKey>, l: int)
    requires l in keyOf
  {
    l in link && l in owner && owner[l] in device
    && keyOf[l].device == device[owner[l]] && link[l].device == device[owner[l]]
  }

  ghost predicate RecordKeysAgree(keyOf: map<int, DNSKey>, owner: map<int, int>) {
    forall r | r in keyOf :: r in owner && keyOf[r].device == owner[r]
  }

  /** A link's protocols are those with a deadline, and its expiry is the earliest deadline. */
  ghost predicate Timed(k: LinkInfo) {
    && (forall p :: p in k.protocols <==> k.expires.Get(p) != 0)
    && k.expiresAt == EarliestExpiry(k.expires)
  }

  ghost predicate LinksTimed(link: map<int, LinkInfo>) {
    forall l | l in link :: Timed(link[l])
  }

  /** m is the largest expiry over a record list, 0 for the empty list. */
  ghost predicate IsLatest(m: Time, list: seq<int>, expiresAt: map<int, Time>) {
    && (forall r | r in list && r in expiresAt :: expiresAt[r] <= m)
    && (m != 0 ==> exists r :: r in list && r in expiresAt && expiresAt[r] == m)
  }

  /** The cached maximum of every device but the one a merge is emptying. */
  ghost predicate MaximaCached(cached: map<int, Time>, lists: map<int, seq<int>>, expiresAt: map<int, Time>, except: int) {
    forall d | d in cached && d in lists && d != except :: IsLatest(cached[d], lists[d], expiresAt)
  }

  ghost predicate Positive(l: Limits) { l.devices >= 1 && l.links >= 1 && l.dns >= 1 }

  ghost predicate InvGap(s: Store, g: Gap) {
    && Positive(s.limits) && DevicesKeyed(s) && SlotsKeyed(s)
    && Partition(s.devices, s.limits.devices, g.device)
    && Partition(s.links, s.limits.links, g.link)
    && Partition(s.records, s.limits.dns, g.record)
    && Sound(s.devices) && Complete(s.devices) && Sound(s.links) && Sound(s.records)
    && Owned(s.linkOwner) && Owned(s.recordOwner)
    && LinkKeysAgree(s.links.keyOf, s.link, s.linkOwner.owner, s.devices.keyOf)
    && RecordKeysAgree(s.records.keyOf, s.recordOwner.owner)
    && LinksTimed(s.link) && MaximaCached(s.dnsExpiry, s.recordOwner.lists, s.expiresAt, g.emptied)
  }

  ghost predicate Inv(s: Store) { InvGap(s, WHOLE) }

  // ---------- removal ----------

  /** A used link whose owner is there. */
  predicate Attached(s: Store, l: int) {
    l in s.links.keyOf && l in s.linkOwner.owner && s.linkOwner.owner[l] in s.linkOwner.lists && s.linkOwner.owner[l] in s.devices.keyOf
  }

  /** Unschedules, unindexes and disowns a link, and reports it. */
  function DropLink(s: Store, l: int, kind: EventKind): Store
    requires Attached(s, l)
  {
    s.(events := s.events + [Event(kind, {FieldLink}, s.devices.keyOf[s.linkOwner.owner[l]], s.links.keyOf[l])],
       links := Release(s.links, l), linkOwner := Disown(s.linkOwner, l),
       link := s.link - {l}, linkDue := s.linkDue - {l})
  }

  ghost function RemoveLink(s: Store, l: int, kind: EventKind): Store
    requires exists g :: InvGap(s, g)
  {
    if l !in s.links.keyOf then s else DropLink(s, l, kind)
  }

  lemma RemoveLinkInv(s: Store, l: int, kind: EventKind, g: Gap)
    requires InvGap(s, g)
    ensures InvGap(RemoveLink(s, l, kind), g)
    ensures Complete(s.links) ==> Complete(RemoveLink(s, l, kind).links)
  {
    hide Sound, Partition, Complete, Owned, SwapRemove, MaximaCached, RecordKeysAgree, Timed;
    if l in s.links.keyOf {
      ReleaseKeeps(s.links, l, s.limits.links, g.link);
      DisownKeeps(s.linkOwner, l);
    }
  }

  /** The scan that recomputes a device's latest record expiry. */
  function Latest(list: seq<int>, expiresAt: map<int, Time>): (m: Time)
    ensures IsLatest(m, list, expiresAt)
  {
    if list == [] then 0 else
    var r := list[|list| - 1];
    var m := Latest(list[..|list| - 1], expiresAt);
    assert list == list[..|list| - 1] + [r];
    if r in expiresAt && expiresAt[r] > m then expiresAt[r] else m
  }

  predicate RecordAttached(s: Store, r: int) {
    r in s.records.keyOf && r in s.expiresAt && r in s.recordOwner.owner
    && s.recordOwner.owner[r] in s.recordOwner.lists && s.recordOwner.owner[r] in s.dnsExpiry
  }

  /** Unschedules, unindexes and disowns a record; the cached maximum is recomputed if it was its. */
  function DropDNS(s: Store, r: int): Store
    requires RecordAttached(s, r)
  {
    var d := s.recordOwner.owner[r];
    var rest := SwapRemove(s.recordOwner.lists[d], r);
    s.(records := Release(s.records, r), recordOwner := Disown(s.recordOwner, r),
       record := s.record - {r}, expiresAt := s.expiresAt - {r}, dnsDue := s.dnsDue - {r},
       dnsExpiry := if s.expiresAt[r] == s.dnsExpiry[d] then s.dnsExpiry[d := Latest(rest, s.expiresAt - {r})] else s.dnsExpiry)
  }

  ghost function RemoveDNS(s: Store, r: int): Store
    requires exists g :: InvGap(s, g)
  {
    if r !in s.records.keyOf then s else DropDNS(s, r)
  }

  lemma RemoveDNSInv(s: Store, r: int, g: Gap)
    requires InvGap(s, g)
    ensures InvGap(RemoveDNS(s, r), g)
    ensures Complete(s.records) ==> Complete(RemoveDNS(s, r).records)
  {
    hide Sound, Partition, Complete, Owned, SwapRemove, MaximaCached, IsLatest, LinkKeysAgree, Timed, LinksTimed;
    if r in s.records.keyOf {
      ReleaseKeeps(s.records, r, s.limits.dns, g.record);
      DisownKeeps(s.recordOwner, r);
      RemoveMaxima(s, r, g);
    }
  }

  lemma RemoveMaxima(s: Store, r: int, g: Gap)
    requires InvGap(s, g) && r in s.records.keyOf
    ensures var t := RemoveDNS(s, r); MaximaCached(t.dnsExpiry, t.recordOwner.lists, t.expiresAt, g.emptied)
  {
    hide Sound, Partition, Complete, SwapRemove, LinkKeysAgree, Timed, LinksTimed;
    SwapRemoved(s.recordOwner.lists[s.recordOwner.owner[r]], r);
  }

  /** Drops a device that owns nothing any more. */
  ghost function Forget(s: Store, d: int): Store
    requires d in s.devices.keyOf
  {
    s.(devices := Release(s.devices, d), info := s.info - {d}, dnsExpiry := s.dnsExpiry - {d},
       linkOwner := DropOwner(s.linkOwner, d), recordOwner := DropOwner(s.recordOwner, d))
  }

  lemma ForgetInv(s: Store, d: int, g: Gap)
    requires InvGap(s, g) && d in s.devices.keyOf && s.linkOwner.lists[d] == [] && s.recordOwner.lists[d] == []
    requires g.emptied == -1 || g.emptied == d
    ensures InvGap(Forget(s, d), g.(emptied := -1))
  {
    hide Sound, Partition, Complete, SwapRemove, IsLatest, Timed, LinksTimed;
    ReleaseKeeps(s.devices, d, s.limits.devices, g.device);
    DropOwnerKeeps(s.linkOwner, d);
    DropOwnerKeeps(s.recordOwner, d);
  }

  lemma LastOwned(o: Owners, d: int)
    requires Owned(o) && d in o.lists && o.lists[d] != []
    ensures var x := o.lists[d][|o.lists[d]| - 1]; x in o.owner && o.owner[x] == d
  {
    assert o.lists[d][|o.lists[d]| - 1] in o.lists[d];
  }

  function LastLink(s: Store, d: int): int
    requires d in s.linkOwner.lists && s.linkOwner.lists[d] != []
  {
    s.linkOwner.lists[d][|s.linkOwner.lists[d]| - 1]
  }

  function LastRecord(s: Store, d: int): int
    requires d in s.recordOwner.lists && s.recordOwner.lists[d] != []
  {
    s.recordOwner.lists[d][|s.recordOwner.lists[d]| - 1]
  }

  /** Removing the last link of a device shrinks its list. */
  lemma ShedLinkStep(s: Store, d: int, kind: EventKind)
    requires Inv(s) && d in s.devices.keyOf
    ensures d in s.linkOwner.lists
    ensures s.linkOwner.lists[d] != [] ==> var t := RemoveLink(s, LastLink(s, d), kind);
            Inv(t) && t.devices == s.devices && d in t.linkOwner.lists
            && |t.linkOwner.lists[d]| < |s.linkOwner.lists[d]| && (Complete(s.links) ==> Complete(t.links))
  {
    hide Owned, Sound, Partition, Complete, LinkKeysAgree, MaximaCached, RecordKeysAgree, LinksTimed, SwapRemove;
    if s.linkOwner.lists[d] != [] {
      LastOwned(s.linkOwner, d);
      RemoveLinkInv(s, LastLink(s, d), kind, WHOLE);
      DisownKeeps(s.linkOwner, LastLink(s, d));
    }
  }

  lemma ShedRecordStep(s: Store, d: int)
    requires Inv(s) && d in s.devices.keyOf
    ensures d in s.recordOwner.lists
    ensures s.recordOwner.lists[d] != [] ==> var t := RemoveDNS(s, LastRecord(s, d));
            Inv(t) && t.devices == s.devices && d in t.recordOwner.lists
            && |t.recordOwner.lists[d]| < |s.recordOwner.lists[d]| && (Complete(s.records) ==> Complete(t.records))
  {
    hide Owned, Sound, Partition, Complete, LinkKeysAgree, MaximaCached, RecordKeysAgree, LinksTimed, SwapRemove;
    if s.recordOwner.lists[d] != [] {
      LastOwned(s.recordOwner, d);
      RemoveDNSInv(s, LastRecord(s, d), WHOLE);
      DisownKeeps(s.recordOwner, LastRecord(s, d));
    }
  }

  /** The two loops of a device removal: each pass removes the last entry of a list, which
      shrinks it, so they end with nothing owned. */
  ghost function ShedLinks(s: Store, d: int, kind: EventKind): (t: Store)
    requires Inv(s) && d in s.devices.keyOf
    ensures Inv(t) && t.devices == s.devices && d in t.linkOwner.lists && t.linkOwner.lists[d] == []
    ensures t.info == s.info && t.limits == s.limits && t.records == s.records && t.recordOwner == s.recordOwner
    ensures Complete(s.links) ==> Complete(t.links)
    decreases (ShedLinkStep(s, d, kind); |s.linkOwner.lists[d]|)
  {
    hide InvGap, Complete;
    ShedLinkStep(s, d, kind);
    if s.linkOwner.lists[d] == [] then s
    else ShedLinks(RemoveLink(s, LastLink(s, d), kind), d, kind)
  }

  ghost function ShedRecords(s: Store, d: int): (t: Store)
    requires Inv(s) && d in s.devices.keyOf
    ensures Inv(t) && t.devices == s.devices && d in t.recordOwner.lists && t.recordOwner.lists[d] == []
    ensures t.info == s.info && t.limits == s.limits && t.links == s.links && t.linkOwner == s.linkOwner
    ensures Complete(s.records) ==> Complete(t.records)
    decreases (ShedRecordStep(s, d); |s.recordOwner.lists[d]|)
  {
    hide InvGap, Complete;
    ShedRecordStep(s, d);
    if s.recordOwner.lists[d] == [] then s
    else ShedRecords(RemoveDNS(s, LastRecord(s, d)), d)
  }

  ghost function RemoveDevice(s: Store, d: int, kind: EventKind): (t: Store)
    requires Inv(s)
    ensures Inv(t) && t.limits == s.limits
    ensures d in s.devices.keyOf ==> t.devices == Release(s.devices, d) && t.info == s.info - {d}
    ensures Complete(s.links) ==> Complete(t.links)
    ensures Complete(s.records) ==> Complete(t.records)
  {
    hide Owned, Sound, Partition, Complete, LinkKeysAgree, MaximaCached, RecordKeysAgree, LinksTimed;
    if d !in s.devices.keyOf then s else
    var t := ShedRecords(ShedLinks(s, d, kind), d);
    ForgetInv(t, d, WHOLE);
    Forget(t, d)
  }

  // ---------- allocation ----------

  ghost function Seen(s: Store): map<int, int> { map d | d in s.info :: s.info[d].lastSeen as int }

  /** A free device slot, or the slot of the least recently seen device after evicting it. */
  ghost function AllocDevice(s: Store): (r: (Store, int))
    requires Inv(s)
    ensures InvGap(r.0, WHOLE.(device := {r.1})) && r.0.limits == s.limits
    ensures 0 <= r.1 < s.limits.devices && r.1 !in r.0.devices.keyOf
    ensures Complete(s.links) ==> Complete(r.0.links)
    ensures Complete(s.records) ==> Complete(r.0.records)
  {
    if s.devices.free != [] then
      (TakeFreeKeeps(s.devices, s.limits.devices);
       (s.(devices := TakeFree(s.devices)), s.devices.free[|s.devices.free| - 1]))
    else
      var o := Oldest(Seen(s), s.limits.devices);
      NoneFree(s.devices, s.limits.devices);
      var t := RemoveDevice(s, o, Evicted);
      TakeFreeKeeps(t.devices, s.limits.devices);
      (t.(devices := TakeFree(t.devices)), o)
  }

  /** A device is evicted only when every slot is used, and then the least recently seen one, which
      alone goes. */
  lemma AllocDeviceVictim(s: Store)
    requires Inv(s)
    ensures s.info.Keys == s.devices.keyOf.Keys
    ensures var r := AllocDevice(s);
            if s.devices.free != [] then r.0.devices.keyOf == s.devices.keyOf && r.0.info == s.info
            else
              && (forall i | 0 <= i < s.limits.devices :: i in s.devices.keyOf)
              && r.1 in s.devices.keyOf && (forall d | d in s.devices.keyOf :: s.info[r.1].lastSeen <= s.info[d].lastSeen)
              && r.0.devices.keyOf == s.devices.keyOf - {r.1} && r.0.info == s.info - {r.1}
  {
    hide InvGap, RemoveDevice, Oldest, Partition, Complete;
    DevicesThere(s);
    if s.devices.free == [] {
      NoneFree(s.devices, s.limits.devices);
      assert 0 in s.devices.keyOf;
      assert Seen(s).Keys == s.devices.keyOf.Keys;
      OldestLeast(Seen(s), s.limits.devices);
      var o := Oldest(Seen(s), s.limits.devices);
      forall d | d in s.devices.keyOf ensures s.info[o].lastSeen <= s.info[d].lastSeen {
        assert Seen(s)[o] <= Seen(s)[d];
      }
    }
  }

  lemma DevicesThere(s: Store)
    requires Inv(s)
    ensures s.info.Keys == s.devices.keyOf.Keys && Partition(s.devices, s.limits.devices, {}) && s.limits.devices >= 1
  {
    hide Sound, Complete, Owned, MaximaCached, RecordKeysAgree, LinkKeysAgree, LinksTimed;
  }

  /** An empty freelist means every slot is used. */
  lemma NoneFree<K>(t: Slab<K>, n: nat)
    requires Partition(t, n, {}) && t.free == []
    ensures forall i | 0 <= i < n :: i in t.keyOf
    ensures forall i | i in t.keyOf :: 0 <= i < n
  {
    forall i | 0 <= i < n ensures i in t.keyOf {
      assert i !in t.free;
    }
  }

  // ---------- devices: creation, promotion ----------

  function NewInfo(now: Time): DeviceInfo {
    DeviceInfo([], [], [], NO_TEXT, NO_TEXT, NO_TEXT, NO_TEXT, NO_TEXT, NO_TEXT, NO_TEXT,
               Uptime(0, 0, {}, false), {}, {}, None, now, now)
  }

  ghost function AddDevice(s: Store, d: int, key: DeviceKey, now: Time): Store {
    s.(devices := Insert(s.devices, d, key), info := s.info[d := NewInfo(now)], dnsExpiry := s.dnsExpiry[d := 0],
       linkOwner := AddOwner(s.linkOwner, d), recordOwner := AddOwner(s.recordOwner, d))
  }

  lemma ReservedUnused<K>(t: Slab<K>, n: nat, i: int)
    requires Partition(t, n, {i})
    ensures i !in t.keyOf
  {
  }

  lemma NewDeviceKeys(s: Store, d: int, key: DeviceKey)
    requires LinkKeysAgree(s.links.keyOf, s.link, s.linkOwner.owner, s.devices.keyOf) && d !in s.devices.keyOf
    ensures LinkKeysAgree(s.links.keyOf, s.link, s.linkOwner.owner, s.devices.keyOf[d := key])
  {
    forall l | l in s.links.keyOf ensures KeyAgrees(s.links.keyOf, s.link, s.linkOwner.owner, s.devices.keyOf[d := key], l) {
      assert KeyAgrees(s.links.keyOf, s.link, s.linkOwner.owner, s.devices.keyOf, l);
    }
  }

  lemma NewDeviceMaxima(cached: map<int, Time>, lists: map<int, seq<int>>, expiresAt: map<int, Time>, d: int)
    requires MaximaCached(cached, lists, expiresAt, -1)
    ensures MaximaCached(cached[d := 0], lists[d := []], expiresAt, -1)
  {
  }

  lemma AddDeviceInv(s: Store, d: int, key: DeviceKey, now: Time)
    requires InvGap(s, WHOLE.(device := {d})) && key !in s.devices.byKey
    ensures d !in s.devices.keyOf && Inv(AddDevice(s, d, key, now))
  {
    hide Sound, Complete, Partition, Owned, LinksTimed, RecordKeysAgree, NewInfo, LinkKeysAgree, MaximaCached;
    ReservedUnused(s.devices, s.limits.devices, d);
    InsertKeeps(s.devices, d, key, s.limits.devices);
    NewDeviceKeys(s, d, key);
    NewDeviceMaxima(s.dnsExpiry, s.recordOwner.lists, s.expiresAt, d);
    AddOwnerKeeps(s.linkOwner, d);
    AddOwnerKeeps(s.recordOwner, d);
  }

  /** A promotion's loop over the links of the device, each moved to its new key. */
  ghost function RekeyAll(t: Slab<LinkKey>, list: seq<int>, key: DeviceKey): Slab<LinkKey>
    decreases |list|
  {
    if list == [] then t
    else RekeyAll(if list[0] in t.keyOf then Rekey(t, list[0], t.keyOf[list[0]].(device := key)) else t, list[1..], key)
  }

  /** No two links of the list, and no other link, will have the same key under the new device. */
  ghost predicate Separate(t: Slab<LinkKey>, list: seq<int>, key: DeviceKey) {
    forall i, x | i in list && i in t.keyOf && x in t.keyOf && x != i ::
      t.keyOf[x] != t.keyOf[i].(device := key) && (x in list ==> t.keyOf[x].(device := key) != t.keyOf[i].(device := key))
  }

  lemma {:induction false} RekeyAllKeeps(t: Slab<LinkKey>, list: seq<int>, key: DeviceKey, n: nat)
    requires Sound(t) && Partition(t, n, {}) && NoDup(list)
    ensures var u := RekeyAll(t, list, key);
            && Sound(u) && Partition(u, n, {}) && u.keyOf.Keys == t.keyOf.Keys
            && (forall l | l in t.keyOf :: u.keyOf[l] == if l in list then t.keyOf[l].(device := key) else t.keyOf[l])
            && (Complete(t) && Separate(t, list, key) ==> Complete(u))
    decreases |list|
  {
    hide Sound, Complete, Partition;
    if list != [] {
      var t' := if list[0] in t.keyOf then Rekey(t, list[0], t.keyOf[list[0]].(device := key)) else t;
      if list[0] in t.keyOf {
        RekeyKeeps(t, list[0], t.keyOf[list[0]].(device := key), n);
        if Complete(t) && Separate(t, list, key) { SeparateFree(t, list, key); }
      }
      RekeyAllKeeps(t', list[1..], key, n);
      assert forall l :: l in list <==> l == list[0] || l in list[1..];
      assert list[0] !in list[1..];
      if Separate(t, list, key) { SeparateTail(t, list, key); }
    }
  }

  lemma SeparateFree(t: Slab<LinkKey>, list: seq<int>, key: DeviceKey)
    requires Sound(t) && list != [] && list[0] in t.keyOf && Separate(t, list, key)
    ensures var k := t.keyOf[list[0]].(device := key); k in t.byKey ==> t.byKey[k] == list[0]
  {
  }

  lemma SeparateTail(t: Slab<LinkKey>, list: seq<int>, key: DeviceKey)
    requires list != [] && NoDup(list) && Separate(t, list, key)
    ensures Separate(if list[0] in t.keyOf then Rekey(t, list[0], t.keyOf[list[0]].(device := key)) else t, list[1..], key)
  {
    var t' := if list[0] in t.keyOf then Rekey(t, list[0], t.keyOf[list[0]].(device := key)) else t;
    forall i, x | i in list[1..] && i in t'.keyOf && x in t'.keyOf && x != i
      ensures t'.keyOf[x] != t'.keyOf[i].(device := key) && (x in list[1..] ==> t'.keyOf[x].(device := key) != t'.keyOf[i].(device := key))
    {
      assert i in list && i != list[0];
    }
  }

  /** Deleting and re-inserting each record key of a device. */
  ghost function Reindex(t: Slab<DNSKey>, list: seq<int>): Slab<DNSKey>
    decreases |list|
  {
    if list == [] then t
    else Reindex(if list[0] in t.keyOf then Rekey(t, list[0], t.keyOf[list[0]]) else t, list[1..])
  }

  lemma {:induction false} ReindexKeeps(t: Slab<DNSKey>, list: seq<int>, n: nat)
    requires Sound(t) && Partition(t, n, {})
    ensures var u := Reindex(t, list); Sound(u) && Partition(u, n, {}) && u.keyOf == t.keyOf && (Complete(t) ==> Complete(u))
    decreases |list|
  {
    hide Sound, Complete, Partition;
    if list != [] {
      if list[0] in t.keyOf {
        RekeyKeeps(t, list[0], t.keyOf[list[0]], n);
        if Complete(t) { CompleteAt(t, list[0]); }
        ReindexKeeps(Rekey(t, list[0], t.keyOf[list[0]]), list[1..], n);
      } else {
        ReindexKeeps(t, list[1..], n);
      }
    }
  }

  lemma CompleteAt<K>(t: Slab<K>, i: int)
    requires Complete(t) && i in t.keyOf
    ensures t.keyOf[i] in t.byKey && t.byKey[t.keyOf[i]] == i
  {
    assert Indexed(t, i);
  }

  function SetDevice(link: map<int, LinkInfo>, list: seq<int>, key: DeviceKey): map<int, LinkInfo> {
    map l | l in link :: if l in list then link[l].(device := key) else link[l]
  }

  /** A device known by address learns its MAC: it and everything it owns move to the new key. */
  ghost function Promote(s: Store, d: int, key: DeviceKey): Store
    requires d in s.devices.keyOf && d in s.linkOwner.lists && d in s.recordOwner.lists
  {
    s.(devices := Rekey(s.devices, d, key),
       links := RekeyAll(s.links, s.linkOwner.lists[d], key),
       link := SetDevice(s.link, s.linkOwner.lists[d], key),
       records := Reindex(s.records, s.recordOwner.lists[d]))
  }

  lemma PromoteInv(s: Store, d: int, key: DeviceKey)
    requires Inv(s) && d in s.devices.keyOf && key !in s.devices.byKey
    ensures d in s.linkOwner.lists && d in s.recordOwner.lists && Inv(Promote(s, d, key))
    ensures Complete(s.links) ==> Complete(Promote(s, d, key).links)
    ensures Complete(s.records) ==> Complete(Promote(s, d, key).records)
  {
    hide Sound, Complete, Partition, MaximaCached, RecordKeysAgree, LinksTimed, Owned, RekeyAll, Reindex;
    OwnedList(s.linkOwner, d);
    RekeyKeeps(s.devices, d, key, s.limits.devices);
    RekeyAllKeeps(s.links, s.linkOwner.lists[d], key, s.limits.links);
    ReindexKeeps(s.records, s.recordOwner.lists[d], s.limits.dns);
    if Complete(s.links) { FreshKeySeparates(s, d, key); }
    TimedSetDevice(s.link, s.linkOwner.lists[d], key);
  }

  lemma OwnedList(o: Owners, d: int)
    requires Owned(o) && d in o.lists
    ensures NoDup(o.lists[d]) && forall i :: i in o.lists[d] <==> i in o.owner && o.owner[i] == d
  {
  }

  lemma TimedSetDevice(link: map<int, LinkInfo>, list: seq<int>, key: DeviceKey)
    requires LinksTimed(link)
    ensures LinksTimed(SetDevice(link, list, key))
  {
  }

  /** No link carries the key of a device that is not there, so re-keying to it cannot collide. */
  lemma FreshKeySeparates(s: Store, d: int, key: DeviceKey)
    requires Inv(s) && d in s.devices.keyOf && key !in s.devices.byKey && Complete(s.links)
    ensures d in s.linkOwner.lists && Separate(s.links, s.linkOwner.lists[d], key)
  {
    var t := s.links;
    forall x | x in t.keyOf ensures t.keyOf[x].device != key {
      assert KeyAgrees(t.keyOf, s.link, s.linkOwner.owner, s.devices.keyOf, x);
      CompleteAt(s.devices, s.linkOwner.owner[x]);
    }
    forall i, x | i in s.linkOwner.lists[d] && i in t.keyOf && x in t.keyOf && x != i && x in s.linkOwner.lists[d]
      ensures t.keyOf[x].(device := key) != t.keyOf[i].(device := key)
    {
      assert KeyAgrees(t.keyOf, s.link, s.linkOwner.owner, s.devices.keyOf, x);
      assert KeyAgrees(t.keyOf, s.link, s.linkOwner.owner, s.devices.keyOf, i);
      CompleteAt(t, x);
      CompleteAt(t, i);
    }
  }

  // ---------- merging two devices ----------

  function AppendUnique<T(==)>(list: seq<T>, x: T): seq<T> { if x in list then list else list + [x] }

  function AppendAll<T(==)>(list: seq<T>, more: seq<T>): seq<T>
    decreases |more|
  {
    if more == [] then list else AppendAll(AppendUnique(list, more[0]), more[1..])
  }

  lemma {:induction false} AppendAllIn<T>(list: seq<T>, more: seq<T>)
    ensures forall x :: x in AppendAll(list, more) <==> x in list || x in more
    decreases |more|
  {
    if more != [] {
      AppendAllIn(AppendUnique(list, more[0]), more[1..]);
    }
  }

  /** Evidence about one device folded into another. */
  function MergedInfo(dst: DeviceInfo, src: DeviceInfo, max: nat): DeviceInfo {
    dst.(observedMACs := AppendAll(dst.observedMACs, src.observedMACs),
         claimedMACs := AppendAll(dst.claimedMACs, src.claimedMACs),
         addresses := AppendAll(dst.addresses, src.addresses),
         systemName := MergeField(dst.systemName, src.systemName.values, max),
         hostName := MergeField(dst.hostName, src.hostName.values, max),
         protocolDeviceID := MergeField(dst.protocolDeviceID, src.protocolDeviceID.values, max),
         vendor := MergeField(dst.vendor, src.vendor.values, max),
         model := MergeField(dst.model, src.model.values, max),
         platform := MergeField(dst.platform, src.platform.values, max),
         softwareVersion := MergeField(dst.softwareVersion, src.softwareVersion.values, max),
         uptime := if src.uptime.valid && (!dst.uptime.valid || src.uptime.observedAt > dst.uptime.observedAt) then src.uptime else dst.uptime,
         protocols := dst.protocols + src.protocols,
         capabilities := dst.capabilities + src.capabilities,
         firstSeen := if dst.firstSeen == 0 || src.firstSeen < dst.firstSeen then src.firstSeen else dst.firstSeen,
         lastSeen := if src.lastSeen > dst.lastSeen then src.lastSeen else dst.lastSeen)
  }

  function LatestOf(a: Deadlines, b: Deadlines): (r: Deadlines)
    ensures forall p :: r.Get(p) == if b.Get(p) > a.Get(p) then b.Get(p) else a.Get(p)
  {
    Deadlines(Later(a.lldp, b.lldp), Later(a.cdp, b.cdp), Later(a.mndp, b.mndp), Later(a.mdns, b.mdns))
  }

  /** Two links of the same key become one, with the later deadline for each protocol. */
  function MergedLink(dst: LinkInfo, src: LinkInfo): LinkInfo {
    var e := LatestOf(dst.expires, src.expires);
    dst.(protocols := dst.protocols + src.protocols,
         kind := if src.kind.PhysicalAdjacency? then PhysicalAdjacency else dst.kind,
         expires := e,
         lastSeen := if src.lastSeen > dst.lastSeen then src.lastSeen else dst.lastSeen,
         firstSeen := if src.firstSeen < dst.firstSeen then src.firstSeen else dst.firstSeen,
         vlans := AppendAll(dst.vlans, src.vlans),
         expiresAt := EarliestExpiry(e))
  }

  lemma MergedLinkTimed(dst: LinkInfo, src: LinkInfo)
    requires Timed(dst) && Timed(src)
    ensures Timed(MergedLink(dst, src))
  {
  }

  /** The last link of src arrives at dst: under its new key, or merged into the link already there. */
  ghost function MoveLink(s: Store, dst: int, src: int): Store
    requires exists g :: InvGap(s, g)
    requires dst in s.devices.keyOf && src in s.devices.keyOf && s.linkOwner.lists[src] != []
  {
    var x := LastLink(s, src);
    var key := s.devices.keyOf[dst];
    LastOwned(s.linkOwner, src);
    var k := s.links.keyOf[x].(device := key);
    if Collides(s.links, x, k) then
      var e := s.links.byKey[k];
      var merged := MergedLink(s.link[e], s.link[x]);
      s.(links := MoveTo(s.links, x, k), linkOwner := Disown(s.linkOwner, x),
         link := s.link[e := merged] - {x},
         linkDue := s.linkDue[e := Timing.Ticks(merged.expiresAt - merged.lastSeen)] - {x},
         events := s.events + [Event(Changed, {FieldLink}, key, k)])
    else
      s.(links := MoveTo(s.links, x, k), linkOwner := HandOver(s.linkOwner, src, dst),
         link := s.link[x := s.link[x].(device := key)])
  }

  lemma MoveLinkInv(s: Store, dst: int, src: int, g: Gap)
    requires InvGap(s, g) && g.link == {} && dst in s.devices.keyOf && src in s.devices.keyOf && dst != src
    requires s.linkOwner.lists[src] != []
    ensures InvGap(MoveLink(s, dst, src), g)
    ensures src in MoveLink(s, dst, src).linkOwner.lists
    ensures MoveLink(s, dst, src).linkOwner.lists[src] == s.linkOwner.lists[src][..|s.linkOwner.lists[src]| - 1]
  {
    LastOwned(s.linkOwner, src);
    var x := LastLink(s, src);
    if Collides(s.links, x, s.links.keyOf[x].(device := s.devices.keyOf[dst])) {
      LinkMergedInv(s, dst, src, g);
    } else {
      LinkHandedInv(s, dst, src, g);
    }
  }

  lemma LinkMergedInv(s: Store, dst: int, src: int, g: Gap)
    requires InvGap(s, g) && g.link == {} && dst in s.devices.keyOf && src in s.devices.keyOf && dst != src
    requires s.linkOwner.lists[src] != [] && LastLink(s, src) in s.links.keyOf
    requires Collides(s.links, LastLink(s, src), s.links.keyOf[LastLink(s, src)].(device := s.devices.keyOf[dst]))
    ensures InvGap(MoveLink(s, dst, src), g)
    ensures src in MoveLink(s, dst, src).linkOwner.lists
    ensures MoveLink(s, dst, src).linkOwner.lists[src] == s.linkOwner.lists[src][..|s.linkOwner.lists[src]| - 1]
  {
    hide Sound, Partition, Complete, Owned, SwapRemove, MaximaCached, IsLatest, RecordKeysAgree, LinkKeysAgree, LinksTimed, MoveTo, MergedLink;
    var x := LastLink(s, src);
    LastOwned(s.linkOwner, src);
    var k := s.links.keyOf[x].(device := s.devices.keyOf[dst]);
    MoveToKeeps(s.links, x, k, s.limits.links);
    MoveToKeys(s.links, x, k);
    OwnedList(s.linkOwner, src);
    LastRemoved(s.linkOwner.lists[src]);
    SoundAt(s.links, k);
    DisownKeeps(s.linkOwner, x);
    MergeAgrees(s, x, s.links.byKey[k], dst);
  }

  lemma LinkHandedInv(s: Store, dst: int, src: int, g: Gap)
    requires InvGap(s, g) && g.link == {} && dst in s.devices.keyOf && src in s.devices.keyOf && dst != src
    requires s.linkOwner.lists[src] != [] && LastLink(s, src) in s.links.keyOf
    requires !Collides(s.links, LastLink(s, src), s.links.keyOf[LastLink(s, src)].(device := s.devices.keyOf[dst]))
    ensures InvGap(MoveLink(s, dst, src), g)
    ensures src in MoveLink(s, dst, src).linkOwner.lists
    ensures MoveLink(s, dst, src).linkOwner.lists[src] == s.linkOwner.lists[src][..|s.linkOwner.lists[src]| - 1]
  {
    hide Sound, Partition, Complete, Owned, SwapRemove, MaximaCached, IsLatest, RecordKeysAgree, LinkKeysAgree, LinksTimed, MoveTo, MergedLink;
    var x := LastLink(s, src);
    LastOwned(s.linkOwner, src);
    var k := s.links.keyOf[x].(device := s.devices.keyOf[dst]);
    MoveToKeeps(s.links, x, k, s.limits.links);
    MoveToKeys(s.links, x, k);
    HandOverKeeps(s.linkOwner, src, dst);
    HandOverAgrees(s, x, dst, src);
  }

  lemma SoundAt<K>(t: Slab<K>, k: K)
    requires Sound(t) && k in t.byKey
    ensures t.byKey[k] in t.keyOf && t.keyOf[t.byKey[k]] == k
  {
  }

  lemma MoveToKeys<K>(t: Slab<K>, i: int, k: K)
    requires i in t.keyOf
    ensures MoveTo(t, i, k).keyOf == if Collides(t, i, k) then t.keyOf - {i} else t.keyOf[i := k]
  {
  }

  lemma MergeAgrees(s: Store, x: int, e: int, dst: int)
    requires SlotsKeyed(s) && x in s.link && e in s.link && x != e && LinksTimed(s.link)
    requires LinkKeysAgree(s.links.keyOf, s.link, s.linkOwner.owner, s.devices.keyOf)
    ensures var link' := s.link[e := MergedLink(s.link[e], s.link[x])] - {x};
            LinkKeysAgree(s.links.keyOf - {x}, link', s.linkOwner.owner - {x}, s.devices.keyOf) && LinksTimed(link')
  {
    hide Timed;
    MergedLinkTimed(s.link[e], s.link[x]);
    var link' := s.link[e := MergedLink(s.link[e], s.link[x])] - {x};
    forall l | l in s.links.keyOf - {x} ensures KeyAgrees(s.links.keyOf - {x}, link', s.linkOwner.owner - {x}, s.devices.keyOf, l) {
      assert KeyAgrees(s.links.keyOf, s.link, s.linkOwner.owner, s.devices.keyOf, l);
    }
  }

  lemma HandOverAgrees(s: Store, x: int, dst: int, src: int)
    requires SlotsKeyed(s) && x in s.link && LinksTimed(s.link) && dst in s.devices.keyOf
    requires dst in s.linkOwner.lists && src in s.linkOwner.lists && s.linkOwner.lists[src] != [] && LastLink(s, src) == x
    requires LinkKeysAgree(s.links.keyOf, s.link, s.linkOwner.owner, s.devices.keyOf)
    ensures var key := s.devices.keyOf[dst];
            var link' := s.link[x := s.link[x].(device := key)];
            LinkKeysAgree(s.links.keyOf[x := s.links.keyOf[x].(device := key)], link', HandOver(s.linkOwner, src, dst).owner, s.devices.keyOf)
            && LinksTimed(link')
  {
    var key := s.devices.keyOf[dst];
    var keyOf' := s.links.keyOf[x := s.links.keyOf[x].(device := key)];
    var link' := s.link[x := s.link[x].(device := key)];
    var owner' := HandOver(s.linkOwner, src, dst).owner;
    forall l | l in keyOf' ensures KeyAgrees(keyOf', link', owner', s.devices.keyOf, l) {
      assert l != x ==> KeyAgrees(s.links.keyOf, s.link, s.linkOwner.owner, s.devices.keyOf, l);
    }
  }

  /** The last record of src arrives at dst: under its new key, or dropped as a duplicate. */
  ghost function MoveRecord(s: Store, dst: int, src: int): Store
    requires exists g :: InvGap(s, g)
    requires dst in s.devices.keyOf && src in s.devices.keyOf && s.recordOwner.lists[src] != []
  {
    var x := LastRecord(s, src);
    LastOwned(s.recordOwner, src);
    var k := s.records.keyOf[x].(device := dst);
    if Collides(s.records, x, k) then
      s.(records := MoveTo(s.records, x, k), recordOwner := Disown(s.recordOwner, x),
         record := s.record - {x}, expiresAt := s.expiresAt - {x}, dnsDue := s.dnsDue - {x},
         dnsExpiry := if s.expiresAt[x] == s.dnsExpiry[dst]
                      then s.dnsExpiry[dst := Latest(s.recordOwner.lists[dst], s.expiresAt - {x})] else s.dnsExpiry)
    else
      s.(records := MoveTo(s.records, x, k), recordOwner := HandOver(s.recordOwner, src, dst),
         dnsExpiry := s.dnsExpiry[dst := Later(s.dnsExpiry[dst], s.expiresAt[x])])
  }

  lemma MoveRecordInv(s: Store, dst: int, src: int)
    requires InvGap(s, WHOLE.(emptied := src)) && dst in s.devices.keyOf && src in s.devices.keyOf && dst != src
    requires s.recordOwner.lists[src] != []
    ensures InvGap(MoveRecord(s, dst, src), WHOLE.(emptied := src))
    ensures src in MoveRecord(s, dst, src).recordOwner.lists
    ensures MoveRecord(s, dst, src).recordOwner.lists[src] == s.recordOwner.lists[src][..|s.recordOwner.lists[src]| - 1]
  {
    LastOwned(s.recordOwner, src);
    var x := LastRecord(s, src);
    if Collides(s.records, x, s.records.keyOf[x].(device := dst)) {
      RecordDroppedInv(s, dst, src);
    } else {
      RecordHandedInv(s, dst, src);
    }
  }

  lemma RecordDroppedInv(s: Store, dst: int, src: int)
    requires InvGap(s, WHOLE.(emptied := src)) && dst in s.devices.keyOf && src in s.devices.keyOf && dst != src
    requires s.recordOwner.lists[src] != [] && LastRecord(s, src) in s.records.keyOf
    requires Collides(s.records, LastRecord(s, src), s.records.keyOf[LastRecord(s, src)].(device := dst))
    ensures InvGap(MoveRecord(s, dst, src), WHOLE.(emptied := src))
    ensures src in MoveRecord(s, dst, src).recordOwner.lists
    ensures MoveRecord(s, dst, src).recordOwner.lists[src] == s.recordOwner.lists[src][..|s.recordOwner.lists[src]| - 1]
  {
    hide Sound, Partition, Complete, Owned, SwapRemove, MaximaCached, IsLatest, LinkKeysAgree, LinksTimed, MoveTo, RecordKeysAgree, Latest;
    var x := LastRecord(s, src);
    LastOwned(s.recordOwner, src);
    MoveRecordAgrees(s, dst, src);
    var k := s.records.keyOf[x].(device := dst);
    MoveToKeeps(s.records, x, k, s.limits.dns);
    MoveToKeys(s.records, x, k);
    MoveMaxima(s, dst, src);
    OwnedList(s.recordOwner, src);
    LastRemoved(s.recordOwner.lists[src]);
    DisownKeeps(s.recordOwner, x);
  }

  lemma RecordHandedInv(s: Store, dst: int, src: int)
    requires InvGap(s, WHOLE.(emptied := src)) && dst in s.devices.keyOf && src in s.devices.keyOf && dst != src
    requires s.recordOwner.lists[src] != [] && LastRecord(s, src) in s.records.keyOf
    requires !Collides(s.records, LastRecord(s, src), s.records.keyOf[LastRecord(s, src)].(device := dst))
    ensures InvGap(MoveRecord(s, dst, src), WHOLE.(emptied := src))
    ensures src in MoveRecord(s, dst, src).recordOwner.lists
    ensures MoveRecord(s, dst, src).recordOwner.lists[src] == s.recordOwner.lists[src][..|s.recordOwner.lists[src]| - 1]
  {
    hide Sound, Partition, Complete, Owned, SwapRemove, MaximaCached, IsLatest, LinkKeysAgree, LinksTimed, MoveTo, RecordKeysAgree, Latest;
    var x := LastRecord(s, src);
    LastOwned(s.recordOwner, src);
    MoveRecordAgrees(s, dst, src);
    var k := s.records.keyOf[x].(device := dst);
    MoveToKeeps(s.records, x, k, s.limits.dns);
    MoveToKeys(s.records, x, k);
    MoveMaxima(s, dst, src);
    HandOverKeeps(s.recordOwner, src, dst);
  }

  lemma MoveRecordAgrees(s: Store, dst: int, src: int)
    requires InvGap(s, WHOLE.(emptied := src)) && dst in s.devices.keyOf && src in s.devices.keyOf && dst != src
    requires s.recordOwner.lists[src] != []
    ensures var t := MoveRecord(s, dst, src); RecordKeysAgree(t.records.keyOf, t.recordOwner.owner)
  {
    hide Sound, Partition, Complete, Owned, SwapRemove, MaximaCached, IsLatest, LinkKeysAgree, LinksTimed, MoveTo;
    var x := LastRecord(s, src);
    LastOwned(s.recordOwner, src);
    MoveToKeys(s.records, x, s.records.keyOf[x].(device := dst));
  }

  lemma MoveMaxima(s: Store, dst: int, src: int)
    requires InvGap(s, WHOLE.(emptied := src)) && dst in s.devices.keyOf && src in s.devices.keyOf && dst != src
    requires s.recordOwner.lists[src] != []
    ensures var t := MoveRecord(s, dst, src); MaximaCached(t.dnsExpiry, t.recordOwner.lists, t.expiresAt, src)
  {
    hide Sound, Partition, Complete, LinkKeysAgree, LinksTimed, MoveTo, SwapRemove, RecordKeysAgree, IsLatest, Latest, Owned;
    LastOwned(s.recordOwner, src);
    var x, t := LastRecord(s, src), MoveRecord(s, dst, src);
    var lists := s.recordOwner.lists;
    forall e | e in t.dnsExpiry && e in t.recordOwner.lists && e != src
      ensures IsLatest(t.dnsExpiry[e], t.recordOwner.lists[e], t.expiresAt)
    {
      OwnedList(s.recordOwner, e);
      assert IsLatest(s.dnsExpiry[e], lists[e], s.expiresAt);
      LatestWithout(s.dnsExpiry[e], lists[e], s.expiresAt, x);
      LatestWith(s.dnsExpiry[e], lists[e], s.expiresAt, x);
    }
  }

  lemma LatestWithout(m: Time, list: seq<int>, expiresAt: map<int, Time>, x: int)
    requires IsLatest(m, list, expiresAt)
    ensures x !in list || (x in expiresAt && expiresAt[x] != m) ==> IsLatest(m, list, expiresAt - {x})
  {
    if m != 0 && (x !in list || (x in expiresAt && expiresAt[x] != m)) {
      var r :| r in list && r in expiresAt && expiresAt[r] == m;
      assert r in expiresAt - {x};
    }
  }

  lemma LatestWith(m: Time, list: seq<int>, expiresAt: map<int, Time>, x: int)
    requires IsLatest(m, list, expiresAt)
    ensures x in expiresAt ==> IsLatest(Later(m, expiresAt[x]), list + [x], expiresAt)
  {
    if x in expiresAt {
      assert x in list + [x];
      if m != 0 {
        var r :| r in list && r in expiresAt && expiresAt[r] == m;
        assert r in list + [x];
      }
    }
  }

  /** Both loops of a merge: each pass takes the last entry off the source's list. */
  ghost function MoveLinks(s: Store, dst: int, src: int): Store
    requires Inv(s) && dst in s.devices.keyOf && src in s.devices.keyOf && dst != src
    decreases (ListsThere(s); |s.linkOwner.lists[src]|)
  {
    ListsThere(s);
    if s.linkOwner.lists[src] == [] then s else
    MoveLinkStep(s, dst, src);
    MoveLinks(MoveLink(s, dst, src), dst, src)
  }

  lemma MoveLinkStep(s: Store, dst: int, src: int)
    requires Inv(s) && dst in s.devices.keyOf && src in s.devices.keyOf && dst != src
    requires src in s.linkOwner.lists && s.linkOwner.lists[src] != []
    ensures var t := MoveLink(s, dst, src);
            && Inv(t) && dst in t.devices.keyOf && src in t.devices.keyOf && src in t.linkOwner.lists
            && |t.linkOwner.lists[src]| < |s.linkOwner.lists[src]|
            && t.devices == s.devices && t.limits == s.limits && t.info == s.info
            && t.records == s.records && t.recordOwner == s.recordOwner
  {
    hide InvGap, MoveLink;
    MoveLinkInv(s, dst, src, WHOLE);
    MoveLinkFrame(s, dst, src);
  }

  lemma MoveLinkFrame(s: Store, dst: int, src: int)
    requires Inv(s) && dst in s.devices.keyOf && src in s.devices.keyOf && dst != src
    requires src in s.linkOwner.lists && s.linkOwner.lists[src] != []
    ensures var t := MoveLink(s, dst, src);
            && t.devices == s.devices && t.limits == s.limits && t.info == s.info && t.records == s.records && t.recordOwner == s.recordOwner
  {
    LastOwned(s.linkOwner, src);
    var x := LastLink(s, src);
    hide InvGap, MoveTo, HandOver, Disown, MergedLink, Timing.Ticks, LastLink, Owned, Sound;
    if Collides(s.links, x, s.links.keyOf[x].(device := s.devices.keyOf[dst])) {
      hide Collides;
    } else {
      hide Collides;
    }
  }

  lemma {:induction false} MoveLinksInv(s: Store, dst: int, src: int)
    requires Inv(s) && dst in s.devices.keyOf && src in s.devices.keyOf && dst != src
    ensures var t := MoveLinks(s, dst, src);
            && Inv(t) && t.devices == s.devices && t.limits == s.limits && t.info == s.info
            && src in t.linkOwner.lists && t.linkOwner.lists[src] == []
            && t.records == s.records && t.recordOwner == s.recordOwner
    decreases (ListsThere(s); |s.linkOwner.lists[src]|)
  {
    hide InvGap, MoveLink;
    ListsThere(s);
    if s.linkOwner.lists[src] != [] {
      MoveLinkStep(s, dst, src);
      MoveLinksInv(MoveLink(s, dst, src), dst, src);
    }
  }

  lemma ListsThere(s: Store)
    requires exists g :: InvGap(s, g)
    ensures s.linkOwner.lists.Keys == s.devices.keyOf.Keys && s.recordOwner.lists.Keys == s.devices.keyOf.Keys
    ensures s.info.Keys == s.devices.keyOf.Keys && s.dnsExpiry.Keys == s.devices.keyOf.Keys
  {
  }

  ghost predicate Emptying(s: Store, src: int) { InvGap(s, WHOLE.(emptied := src)) }

  ghost function MoveRecords(s: Store, dst: int, src: int): Store
    requires Emptying(s, src) && dst in s.devices.keyOf && src in s.devices.keyOf && dst != src
    decreases (ListsThere(s); |s.recordOwner.lists[src]|)
  {
    ListsThere(s);
    if s.recordOwner.lists[src] == [] then s else
    MoveRecordStep(s, dst, src);
    MoveRecords(MoveRecord(s, dst, src), dst, src)
  }

  lemma MoveRecordStep(s: Store, dst: int, src: int)
    requires Emptying(s, src) && dst in s.devices.keyOf && src in s.devices.keyOf && dst != src
    requires src in s.recordOwner.lists && s.recordOwner.lists[src] != []
    ensures var t := MoveRecord(s, dst, src);
            && Emptying(t, src) && dst in t.devices.keyOf && src in t.devices.keyOf && src in t.recordOwner.lists
            && |t.recordOwner.lists[src]| < |s.recordOwner.lists[src]|
            && t.devices == s.devices && t.limits == s.limits && t.info == s.info
            && t.links == s.links && t.linkOwner == s.linkOwner
  {
    hide InvGap, MoveRecord;
    MoveRecordInv(s, dst, src);
    MoveRecordFrame(s, dst, src);
  }

  lemma MoveRecordFrame(s: Store, dst: int, src: int)
    requires Emptying(s, src) && dst in s.devices.keyOf && src in s.devices.keyOf && dst != src
    requires src in s.recordOwner.lists && s.recordOwner.lists[src] != []
    ensures var t := MoveRecord(s, dst, src);
            && t.devices == s.devices && t.limits == s.limits && t.info == s.info && t.links == s.links && t.linkOwner == s.linkOwner
  {
    hide InvGap, MoveTo, HandOver, Disown, Latest, Collides, LastRecord;
  }

  lemma {:induction false} MoveRecordsInv(s: Store, dst: int, src: int)
    requires Emptying(s, src) && dst in s.devices.keyOf && src in s.devices.keyOf && dst != src
    ensures var t := MoveRecords(s, dst, src);
            && Emptying(t, src) && t.devices == s.devices && t.limits == s.limits && t.info == s.info
            && src in t.recordOwner.lists && t.recordOwner.lists[src] == []
            && t.links == s.links && t.linkOwner == s.linkOwner
    decreases (ListsThere(s); |s.recordOwner.lists[src]|)
  {
    hide InvGap, MoveRecord;
    ListsThere(s);
    if s.recordOwner.lists[src] != [] {
      MoveRecordStep(s, dst, src);
      MoveRecordsInv(MoveRecord(s, dst, src), dst, src);
    }
  }

  /** Two devices found to be one: src's evidence, links and records move to dst, src goes. */
  ghost function MergeDevices(s: Store, dst: int, src: int): Store
    requires Inv(s)
  {
    if dst == src || dst !in s.devices.keyOf || src !in s.devices.keyOf then s else
    ListsThere(s);
    var s0 := s.(info := s.info[dst := MergedInfo(s.info[dst], s.info[src], s.limits.alternatives)]);
    InfoInv(s, s0);
    MoveLinksInv(s0, dst, src);
    EmptyingInv(MoveLinks(s0, dst, src), src);
    MoveRecordsInv(MoveLinks(s0, dst, src), dst, src);
    Forget(MoveRecords(MoveLinks(s0, dst, src), dst, src), src)
  }

  lemma MergeDevicesInv(s: Store, dst: int, src: int)
    requires Inv(s)
    ensures var t := MergeDevices(s, dst, src);
            && Inv(t) && t.limits == s.limits
            && (dst != src && dst in s.devices.keyOf && src in s.devices.keyOf ==> t.devices == Release(s.devices, src))
  {
    hide InvGap, MergedInfo, Release, DropOwner, MoveLinks, MoveRecords;
    if dst != src && dst in s.devices.keyOf && src in s.devices.keyOf {
      ListsThere(s);
      var s0 := s.(info := s.info[dst := MergedInfo(s.info[dst], s.info[src], s.limits.alternatives)]);
      InfoInv(s, s0);
      MoveLinksInv(s0, dst, src);
      EmptyingInv(MoveLinks(s0, dst, src), src);
      MoveRecordsInv(MoveLinks(s0, dst, src), dst, src);
      ForgetInv(MoveRecords(MoveLinks(s0, dst, src), dst, src), src, WHOLE.(emptied := src));
    }
  }

  lemma EmptyingInv(s: Store, src: int)
    requires Inv(s)
    ensures Emptying(s, src)
  {
    hide Sound, Complete, Owned, LinkKeysAgree, LinksTimed, IsLatest;
  }

  /** The invariant does not depend on what a device's evidence says. */
  lemma InfoInv(s: Store, t: Store)
    requires Inv(s) && t == s.(info := t.info) && t.info.Keys == s.info.Keys
    ensures Inv(t)
  {
  }

  // ---------- what a merge does to the link index ----------

  function NewLinkKeys(s: Store, key: DeviceKey): map<int, LinkKey> {
    map x | x in s.links.keyOf :: s.links.keyOf[x].(device := key)
  }

  lemma {:induction false} MoveLinksIndex(s: Store, dst: int, src: int, newKey: map<int, LinkKey>)
    requires Inv(s) && dst in s.devices.keyOf && src in s.devices.keyOf && dst != src
    requires src in s.linkOwner.lists && forall x | x in s.linkOwner.lists[src] ::
      x in newKey && x in s.links.keyOf && newKey[x] == s.links.keyOf[x].(device := s.devices.keyOf[dst])
    ensures MoveLinks(s, dst, src).links == MoveAll(s.links, s.linkOwner.lists[src], newKey)
    decreases |s.linkOwner.lists[src]|
  {
    hide InvGap, MoveTo;
    ListsThere(s);
    var list := s.linkOwner.lists[src];
    if list != [] {
      var x := LastLink(s, src);
      assert x in list;
      MoveLinkInv(s, dst, src, WHOLE);
      MoveLinkStep(s, dst, src);
      var t := MoveLink(s, dst, src);
      assert t.links == MoveTo(s.links, x, newKey[x]);
      MoveToKeys(s.links, x, newKey[x]);
      DistinctInit(s, src);
      assert forall y | y in list[..|list| - 1] :: y in list;
      MoveLinksIndex(t, dst, src, newKey);
    }
  }

  lemma DistinctInit(s: Store, src: int)
    requires Inv(s) && src in s.linkOwner.lists && s.linkOwner.lists[src] != []
    ensures LastLink(s, src) !in s.linkOwner.lists[src][..|s.linkOwner.lists[src]| - 1]
  {
    hide Sound, Partition, Complete, LinkKeysAgree, LinksTimed, IsLatest, MaximaCached;
  }

  /** The links of the merged device that a link of the other one collides with. */
  ghost predicate Struck(s: Store, dst: int, src: int, l: int)
    requires l in s.links.keyOf && dst in s.devices.keyOf
  {
    exists x :: x in s.links.keyOf && x in s.linkOwner.owner && s.linkOwner.owner[x] == src
      && s.links.keyOf[x].(device := s.devices.keyOf[dst]) == s.links.keyOf[l]
  }

  /** From a complete index, a merge loses exactly the entries of the links it collides with:
      completeness survives if and only if nothing collides. */
  lemma MergeLinkIndex(s: Store, dst: int, src: int)
    requires Inv(s) && Complete(s.links) && dst != src && dst in s.devices.keyOf && src in s.devices.keyOf
    ensures var t := MergeDevices(s, dst, src);
            && (forall l | l in t.links.keyOf :: l in s.links.keyOf)
            && (forall l | l in s.links.keyOf && s.linkOwner.owner[l] != src ::
                  l in t.links.keyOf && (Indexed(t.links, l) <==> !Struck(s, dst, src, l)))
            && (forall l | l in t.links.keyOf && s.linkOwner.owner[l] == src :: Indexed(t.links, l))
            && (Complete(t.links) <==> forall l | l in s.links.keyOf :: !Struck(s, dst, src, l))
  {
    hide InvGap, MoveAll;
    ListsThere(s);
    var newKey := NewLinkKeys(s, s.devices.keyOf[dst]);
    var list := s.linkOwner.lists[src];
    var s0 := s.(info := s.info[dst := MergedInfo(s.info[dst], s.info[src], s.limits.alternatives)]);
    InfoInv(s, s0);
    MergeMovable(s, dst, src);
    MoveLinksInv(s0, dst, src);
    EmptyingInv(MoveLinks(s0, dst, src), src);
    MoveRecordsInv(MoveLinks(s0, dst, src), dst, src);
    MoveLinksIndex(s0, dst, src, newKey);
    MoveAllIndex(s.links, list, newKey);
    var t := MergeDevices(s, dst, src);
    assert t.links == MoveAll(s.links, list, newKey);
    forall l | l in s.links.keyOf && s.linkOwner.owner[l] != src
      ensures l in t.links.keyOf && (Indexed(t.links, l) <==> !Struck(s, dst, src, l))
    {
      assert Indexed(s.links, l);
      assert Hit(s.links, list, newKey, l) <==> Struck(s, dst, src, l);
    }
    forall l | l in s.links.keyOf && s.linkOwner.owner[l] == src ensures !Struck(s, dst, src, l) {
      assert l in list;
    }
  }

  lemma MergeMovable(s: Store, dst: int, src: int)
    requires Inv(s) && Complete(s.links) && dst != src && dst in s.devices.keyOf && src in s.devices.keyOf
    ensures src in s.linkOwner.lists && s.linkOwner.owner.Keys == s.links.keyOf.Keys
    ensures forall i :: i in s.linkOwner.lists[src] <==> i in s.linkOwner.owner && s.linkOwner.owner[i] == src
    ensures Sound(s.links) && Movable(s.links, s.linkOwner.lists[src], NewLinkKeys(s, s.devices.keyOf[dst]))
  {
    hide Partition, Sound, Owned, LinksTimed, IsLatest, MaximaCached, RecordKeysAgree, LinkKeysAgree;
    OwnedList(s.linkOwner, src);
    CompleteAt(s.devices, dst);
    CompleteAt(s.devices, src);
    var list := s.linkOwner.lists[src];
    forall i | i in list ensures i in s.links.keyOf && s.links.keyOf[i].device == s.devices.keyOf[src] && Indexed(s.links, i) {
      AgreeAt(s, i);
    }
  }

  lemma AgreeAt(s: Store, l: int)
    requires LinkKeysAgree(s.links.keyOf, s.link, s.linkOwner.owner, s.devices.keyOf) && l in s.links.keyOf
    ensures l in s.link && l in s.linkOwner.owner && s.linkOwner.owner[l] in s.devices.keyOf
    ensures s.links.keyOf[l].device == s.devices.keyOf[s.linkOwner.owner[l]] == s.link[l].device
  {
    assert KeyAgrees(s.links.keyOf, s.link, s.linkOwner.owner, s.devices.keyOf, l);
  }
}
