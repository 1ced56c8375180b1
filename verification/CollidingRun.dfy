/** A run in which two devices turn out to be one: their links collide, the survivor is no longer
    found under its key and expires late, and its end makes the other link's refresh news. */
module CollidingRuns {
  import opened Model
  import opened FusionTypes
  import opened Slabs
  import opened Stores
  import opened Timing
  import opened Fusion
  import opened Observe
  import opened Observations
  import opened QuietRepeat
  import opened Expiry
  import opened LinkMerges
  import opened Runs
  import opened Completeness
  import opened QuietRefreshes

  // ---------- one observation at a time, in any store ----------

  /** A link heard of once. */
  predicate Heard(k: LinkInfo, meta: Meta, o: Observation) {
    var t := if o.ttl <= 0 then SECOND else o.ttl;
    k.kind == o.kind && k.lastSeen == meta.timestamp && k.expires == NO_DEADLINES.Set(meta.protocol, meta.timestamp + t)
    && k.expiresAt == meta.timestamp + t
  }

  /** A store after an observation that no link of its device fits: a free slot is filled. */
  ghost predicate LinkAdded(s: Store, t: Store, meta: Meta, d: int, o: Observation)
    requires d in s.devices.keyOf && d in s.linkOwner.lists && s.links.free != []
  {
    var l := s.links.free[|s.links.free| - 1];
    && t.devices == s.devices && t.records == s.records && t.recordOwner == s.recordOwner && t.limits == s.limits
    && t.links == Insert(TakeFree(s.links), l, KeyFor(s, meta, d)) && t.linkOwner == Own(s.linkOwner, l, d)
    && l in t.link && Heard(t.link[l], meta, o) && t.linkDue == s.linkDue[l := Ticks(t.link[l].expiresAt - meta.timestamp)]
    && t.link.Keys == s.link.Keys + {l} && forall x | x in s.link && x != l :: t.link[x] == s.link[x]
  }

  lemma UpsertAdds(s: Store, meta: Meta, d: int, o: Observation)
    requires Inv(s) && d in s.devices.keyOf && d in s.linkOwner.lists && s.links.free != []
    requires KeyFor(s, meta, d) !in s.links.byKey && LinkFor(s, meta, d, o.kind) == -1
    ensures var u := UpsertLink(s, meta, d, o.kind, o.ttl);
            u.link == s.links.free[|s.links.free| - 1] && LinkAdded(s, u.store, meta, d, o)
  {
    hide InvGap, Insert, TakeFree, Own, Ticks, LinkFor;
    var l := s.links.free[|s.links.free| - 1];
    AllocLinkInv(s);
    ListsOf(AllocLink(s).0, WHOLE.(link := {AllocLink(s).1}));
    AddLinkShape(AllocLink(s).0, l, d, KeyFor(s, meta, d), meta, o.kind, o.ttl);
    NewLinkHeard(meta, KeyFor(s, meta, d).device, o);
  }

  lemma ConcludeAdds(s: Store, meta: Meta, d: int, changed: set<Field>, wasNew: bool, o: Observation, w: World)
    requires Inv(s) && d in s.devices.keyOf && d in s.linkOwner.lists && s.links.free != []
    requires KeyFor(s, meta, d) !in s.links.byKey && LinkFor(s, meta, d, o.kind) == -1
    ensures LinkAdded(s, Conclude(s, meta, d, changed, wasNew, o, w), meta, d, o)
  {
    hide InvGap, ApplyLinkAll, SameBase, LinkFor, FactsOf, UpsertLink, Heard, LinkAdded;
    UpsertLinkInv(s, meta, d, o.kind, o.ttl);
    UpsertAdds(s, meta, d, o);
    var u := UpsertLink(s, meta, d, o.kind, o.ttl);
    ListsThere(u.store);
    LinkThere(u.store, u.link);
    LinkEditsBase(o.linkEdits, u.store.link[u.link], meta.protocol, meta.timestamp, In(w, s.limits));
    AddedEvidence(s, u.store, Conclude(s, meta, d, changed, wasNew, o, w), meta, d, o);
  }

  /** Evidence about the link, classification and events change nothing of that. */
  lemma AddedEvidence(s: Store, t: Store, u: Store, meta: Meta, d: int, o: Observation)
    requires d in s.devices.keyOf && d in s.linkOwner.lists && s.links.free != [] && LinkAdded(s, t, meta, d, o)
    requires var l := s.links.free[|s.links.free| - 1];
             l in t.link && l in u.link && SameBase(t.link[l], u.link[l])
             && u == t.(link := t.link[l := u.link[l]], info := u.info, events := u.events)
    ensures LinkAdded(s, u, meta, d, o)
  {
    hide Insert, TakeFree, Own, Ticks, Heard, SameBase;
    var l := s.links.free[|s.links.free| - 1];
    BaseHeard(t.link[l], u.link[l], meta, o);
  }

  lemma NewLinkHeard(meta: Meta, device: DeviceKey, o: Observation)
    ensures Heard(Refreshed(NewLink(meta, o.kind, device), meta, o.kind, o.ttl), meta, o)
  {
  }

  lemma BaseHeard(k: LinkInfo, r: LinkInfo, meta: Meta, o: Observation)
    requires SameBase(k, r) && Heard(k, meta, o)
    ensures Heard(r, meta, o) && r.expiresAt == k.expiresAt
  {
  }

  /** A device never heard of, with its first link. */
  ghost predicate Joined(s: Store, t: Store, meta: Meta, key: DeviceKey, o: Observation)
    requires s.devices.free != [] && s.links.free != []
  {
    var d, l := s.devices.free[|s.devices.free| - 1], s.links.free[|s.links.free| - 1];
    && t.limits == s.limits && t.records == s.records && t.recordOwner == AddOwner(s.recordOwner, d)
    && t.devices == Insert(TakeFree(s.devices), d, key)
    && t.links == Insert(TakeFree(s.links), l, LinkKey(meta.iface, meta.sourceMAC, key))
    && t.linkOwner == Own(AddOwner(s.linkOwner, d), l, d)
    && l in t.link && Heard(t.link[l], meta, o) && t.linkDue == s.linkDue[l := Ticks(t.link[l].expiresAt - meta.timestamp)]
    && t.link.Keys == s.link.Keys + {l} && forall x | x in s.link && x != l :: t.link[x] == s.link[x]
  }

  ghost function NewDevice(s: Store, key: DeviceKey, now: Time): Store
    requires s.devices.free != []
  {
    AddDevice(s.(devices := TakeFree(s.devices)), s.devices.free[|s.devices.free| - 1], key, now)
  }

  lemma NewcomerKnown(s: Store, meta: Meta, claimed: MAC, addresses: seq<Addr>, key: DeviceKey)
    requires Inv(s) && s.devices.free != []
    requires IdentityKey(meta, claimed, addresses) == Some(key) && key !in s.devices.byKey && AddressedDevice(s, meta, key).None?
    ensures var d, t := s.devices.free[|s.devices.free| - 1], NewDevice(s, key, meta.timestamp);
            DeviceFor(s, meta, claimed, addresses) == (t, d) && Inv(t) && d in t.devices.keyOf && t.devices.keyOf[d] == key
            && d in t.linkOwner.lists && t.linkOwner.lists[d] == []
  {
    hide InvGap, Complete;
    DeviceForInv(s, meta, claimed, addresses);
    IndexFacts(DeviceFor(s, meta, claimed, addresses).0);
  }

  lemma NewcomerJoins(s: Store, meta: Meta, o: Observation, w: World, key: DeviceKey)
    requires Inv(s) && s.devices.free != [] && s.links.free != []
    requires IdentityKey(meta, o.claimed, o.addresses) == Some(key) && key !in s.devices.byKey && AddressedDevice(s, meta, key).None?
    requires LinkKey(meta.iface, meta.sourceMAC, key) !in s.links.byKey
    ensures Joined(s, Observed(s, meta, o, w), meta, key, o)
  {
    hide InvGap, ApplyAll, Timestamped, DeviceFor, IdentityKey, AddressedDevice, NewDevice, LinkAdded, Joined, Conclude, Insert, Own, AddOwner;
    NewcomerKnown(s, meta, o.claimed, o.addresses, key);
    var d, r := s.devices.free[|s.devices.free| - 1], NewDevice(s, key, meta.timestamp);
    IndexFacts(r);
    ListsThere(r);
    var k := r.info[d];
    var a := ApplyAll(o.edits, k, meta.protocol, meta.timestamp, In(w, s.limits));
    var s1 := r.(info := r.info[d := Timestamped(a.0, meta.timestamp)]);
    InfoInv(r, s1);
    NewDeviceLinks(s, key, meta.timestamp);
    ConcludeAdds(s1, meta, d, a.1, k.protocols == {}, o, w);
    AddedJoins(s, s1, Observed(s, meta, o, w), meta, key, o);
  }

  lemma NewDeviceLinks(s: Store, key: DeviceKey, now: Time)
    requires s.devices.free != []
    ensures var t := NewDevice(s, key, now); t.links == s.links && t.link == s.link
  {
  }

  lemma AddedJoins(s: Store, s1: Store, t: Store, meta: Meta, key: DeviceKey, o: Observation)
    requires s.devices.free != [] && s.links.free != [] && s1 == NewDevice(s, key, meta.timestamp).(info := s1.info)
    requires var d := s.devices.free[|s.devices.free| - 1];
             d in s1.devices.keyOf && d in s1.linkOwner.lists && s1.devices.keyOf[d] == key && LinkAdded(s1, t, meta, d, o)
    ensures Joined(s, t, meta, key, o)
  {
    hide Heard, Ticks, Insert, Own, AddOwner;
  }

  // ---------- one link of each device, under keys that become one ----------

  /** src owns link x and nothing else, and x under dst's key is where link e is. */
  ghost predicate Facing(s: Store, dst: int, src: int, e: int, x: int) {
    && Inv(s) && SlotsKeyed(s) && dst != src && dst in s.devices.keyOf && src in s.devices.keyOf
    && src in s.linkOwner.lists && s.linkOwner.lists[src] == [x] && src in s.recordOwner.lists && s.recordOwner.lists[src] == []
    && x in s.links.keyOf && e in s.links.keyOf && e != x
    && var k := s.links.keyOf[x].(device := s.devices.keyOf[dst]);
       k in s.links.byKey && s.links.byKey[k] == e && k != s.links.keyOf[x]
  }

  /** Their merge: e keeps the slot, scheduled from when the two were last seen; no key finds it. */
  lemma FacingMerge(s: Store, dst: int, src: int, e: int, x: int)
    requires Facing(s, dst, src, e, x)
    ensures var t := MergeDevices(s, dst, src);
            var m := MergedLink(s.link[e], s.link[x]);
            && t.limits == s.limits && t.devices == Release(s.devices, src)
            && t.links == ReleaseAs(s.links, x, s.links.keyOf[e])
            && t.linkOwner == DropOwner(Disown(s.linkOwner, x), src) && t.recordOwner == DropOwner(s.recordOwner, src)
            && t.link == s.link[e := m] - {x} && t.linkDue == s.linkDue[e := Ticks(m.expiresAt - m.lastSeen)] - {x}
  {
    hide InvGap, MergedInfo, MergedLink, Ticks, Release, ReleaseAs, Disown, DropOwner;
    ListsThere(s);
    var s0 := s.(info := s.info[dst := MergedInfo(s.info[dst], s.info[src], s.limits.alternatives)]);
    InfoInv(s, s0);
    SoundAtLink(s, dst, x);
    MoveLinkStep(s0, dst, src);
    var s1 := MoveLink(s0, dst, src);
    assert MoveLinks(s0, dst, src) == s1;
    EmptyingInv(s1, src);
  }

  lemma SoundAtLink(s: Store, dst: int, x: int)
    requires Inv(s) && dst in s.devices.keyOf && x in s.links.keyOf
    requires s.links.keyOf[x].(device := s.devices.keyOf[dst]) in s.links.byKey
    ensures var k := s.links.keyOf[x].(device := s.devices.keyOf[dst]); s.links.byKey[k] in s.links.keyOf && s.links.keyOf[s.links.byKey[k]] == k
  {
  }

  // ---------- the run ----------

  const MAC_A: MAC := [0, 0, 0, 0, 0, 10]
  const X := V4(1)
  const Y := V4(2)
  const DEVICE_A := MACKey(MAC_A)
  const DEVICE_X := IPKey(X, 1)
  const LINK_A := LinkKey(1, NO_MAC, DEVICE_A)
  const LINK_X := LinkKey(1, NO_MAC, DEVICE_X)
  const LIMITS := Limits(2, 2, 1, 8)
  const IDLE := 3 * SECOND

  function From(ip: Addr, t: Time): Meta { Meta(MNDP, [], 1, t, NO_MAC, ip, []) }

  function Announcing(mac: Option<MAC>): MNDPMessage { MNDPMessage(false, mac, [], [], [], [], [], [], None) }

  function Announcement(ip: Addr, t: Time, mac: Option<MAC>): Observation { MNDPObservation(From(ip, t), Announcing(mac), IDLE) }

  /** MNDP from Y with MAC A, then from X without a MAC, both a second in; two ticks; from X with MAC A. */
  const FIRST := LinkLayer(From(Y, SECOND), Announcement(Y, SECOND, Some(MAC_A)))
  const THEN := LinkLayer(From(X, SECOND), Announcement(X, SECOND, None))
  const TICK_1 := Second(SECOND, [], [])
  const TICK_2 := Second(2 * SECOND, [], [])
  const MERGING := LinkLayer(From(X, 3 * SECOND), Announcement(X, 3 * SECOND, Some(MAC_A)))
  const TICK_3 := Second(3 * SECOND, [], [])
  const TICK_4 := Second(4 * SECOND, [], [])

  /** Half a second after tick 5, the merging message again. */
  const TICK_5 := Second(5 * SECOND, [0, 1], [])
  const HALF_PAST := 5 * SECOND + SECOND / 2
  const AGAIN := LinkLayer(From(X, HALF_PAST), Announcement(X, HALF_PAST, Some(MAC_A)))

  const STEPS: seq<Step> := [FIRST, THEN, TICK_1, TICK_2, MERGING, TICK_3, TICK_4, TICK_5, AGAIN]

  /** The store after so many steps. */
  ghost function StateAfter(n: nat, w: World): Store
    requires n <= 9
  {
    Run(LIMITS, STEPS[..n], w)
  }

  lemma RunNext(n: nat, w: World)
    requires n < 9
    ensures StateAfter(n + 1, w) == Do(StateAfter(n, w), STEPS[n], w)
    ensures Seconds(STEPS[..n + 1]) == Seconds(STEPS[..n]) + if STEPS[n].Second? then 1 else 0
    ensures OnTheClock(LIMITS, STEPS[..n + 1], w) <==> OnTheClock(LIMITS, STEPS[..n], w) && Keeps(StateAfter(n, w), Seconds(STEPS[..n]), STEPS[n])
  {
    assert STEPS[..n + 1] == STEPS[..n] + [STEPS[n]];
    RunOne(STEPS[..n], STEPS[n], w);
  }

  lemma Identities(t: Time)
    ensures IdentityKey(From(Y, t), MAC_A, []) == Some(DEVICE_A) && IdentityKey(From(X, t), MAC_A, []) == Some(DEVICE_A)
    ensures IdentityKey(From(X, t), NO_MAC, []) == Some(DEVICE_X)
  {
    assert MAC_A[5] != 0;
    assert IsUnicast(MAC_A) && !IsUnicast(NO_MAC);
  }

  lemma RunOne(before: seq<Step>, step: Step, w: World)
    ensures Run(LIMITS, before + [step], w) == Do(Run(LIMITS, before, w), step, w)
    ensures Seconds(before + [step]) == Seconds(before) + if step.Second? then 1 else 0
    ensures OnTheClock(LIMITS, before + [step], w) <==> OnTheClock(LIMITS, before, w) && Keeps(Run(LIMITS, before, w), Seconds(before), step)
  {
    hide Do, Keeps;
    var steps := before + [step];
    assert steps[..|steps| - 1] == before && steps[|steps| - 1] == step;
  }

  /** Device 0 is known by its MAC. */
  ghost predicate One(s: Store) {
    && Inv(s) && s.limits == LIMITS
    && s.devices == Slab(map[0 := DEVICE_A], map[DEVICE_A := 0], [1]) && s.links == Slab(map[0 := LINK_A], map[LINK_A := 0], [1])
    && s.linkOwner == Owners(map[0 := 0], map[0 := [0]]) && s.recordOwner == Owners(map[], map[0 := []])
    && s.link.Keys == {0} && Heard(s.link[0], From(Y, SECOND), Announcement(Y, SECOND, Some(MAC_A))) && s.linkDue == map[0 := 3]
  }

  lemma FirstHeard(w: World)
    ensures One(Run(LIMITS, [FIRST], w)) && OnTheClock(LIMITS, [FIRST], w)
  {
    hide InvGap, Observed, DeviceFor, Conclude, ApplyAll, Heard, IdentityKey;
    RunOne([], FIRST, w);
    assert [] + [FIRST] == [FIRST];
    var s := Run(LIMITS, [], w);
    assert s == Empty(LIMITS);
    FreeSlots();
    Identities(SECOND);
    NewcomerJoins(s, From(Y, SECOND), Announcement(Y, SECOND, Some(MAC_A)), w, DEVICE_A);
    JoinedOne(Run(LIMITS, [FIRST], w));
  }

  lemma JoinedOne(t: Store)
    requires Inv(t) && Empty(LIMITS).devices.free == [1, 0] && Empty(LIMITS).links.free == [1, 0]
    requires Joined(Empty(LIMITS), t, From(Y, SECOND), DEVICE_A, Announcement(Y, SECOND, Some(MAC_A)))
    ensures One(t)
  {
    hide InvGap;
    assert [1, 0][..1] == [1];
    assert [] + [0] == [0];
  }

  /** Device 1 is known by address; both links are due in so many ticks. */
  ghost predicate Two(s: Store, due: int) {
    && Inv(s) && s.limits == LIMITS
    && s.devices == Slab(map[0 := DEVICE_A, 1 := DEVICE_X], map[DEVICE_A := 0, DEVICE_X := 1], [])
    && s.links == Slab(map[0 := LINK_A, 1 := LINK_X], map[LINK_A := 0, LINK_X := 1], [])
    && s.linkOwner == Owners(map[0 := 0, 1 := 1], map[0 := [0], 1 := [1]]) && s.recordOwner == Owners(map[], map[0 := [], 1 := []])
    && s.link.Keys == {0, 1} && s.linkDue == map[0 := due, 1 := due]
    && Heard(s.link[0], From(Y, SECOND), Announcement(Y, SECOND, Some(MAC_A))) && Heard(s.link[1], From(X, SECOND), Announcement(X, SECOND, None))
  }

  lemma ThenHeard(s: Store, w: World)
    requires One(s)
    ensures Two(Do(s, THEN, w), 3) && Keeps(s, 0, THEN)
  {
    hide InvGap, Observed, Heard, IdentityKey, Joined;
    Identities(SECOND);
    NewcomerJoins(s, From(X, SECOND), Announcement(X, SECOND, None), w, DEVICE_X);
    ObservedInv(s, From(X, SECOND), Announcement(X, SECOND, None), w);
    JoinedTwo(s, Do(s, THEN, w));
  }

  lemma JoinedTwo(s: Store, t: Store)
    requires One(s) && Inv(t) && Joined(s, t, From(X, SECOND), DEVICE_X, Announcement(X, SECOND, None))
    ensures Two(t, 3)
  {
    hide InvGap;
    assert [] + [1] == [1];
  }

  /** Ticks with nothing due only count down. */
  lemma QuietTick(s: Store, now: Time, w: World)
    requires Inv(s)
    ensures Do(s, Second(now, [], []), w) == s.(linkDue := Nearer(s.linkDue), dnsDue := Nearer(s.dnsDue))
  {
    hide InvGap;
  }

  lemma TwoTicks(s: Store, w: World)
    requires Two(s, 3)
    ensures Inv(s) && Inv(Do(s, TICK_1, w)) && Two(Do(s, TICK_1, w), 2) && Keeps(s, 0, TICK_1) && Two(Do(Do(s, TICK_1, w), TICK_2, w), 1) && Keeps(Do(s, TICK_1, w), 1, TICK_2)
  {
    hide InvGap, Do, Two;
    TwoTick(s, SECOND, 3, w);
    TwoTick(Do(s, TICK_1, w), 2 * SECOND, 2, w);
  }

  lemma TwoTick(s: Store, now: Time, due: int, w: World)
    requires Two(s, due) && due > 1
    ensures Inv(s) && VisitsDue([], Nearer(s.linkDue)) && Two(Do(s, Second(now, [], []), w), due - 1)
    ensures Inv(Do(s, Second(now, [], []), w))
  {
    hide InvGap, Do, VisitsDue, Two;
    TwoDue(s, due);
    QuietTick(s, now, w);
    DoInv(s, Second(now, [], []), w);
    NoneDue(s.linkDue);
    TwoCounted(s, Do(s, Second(now, [], []), w), due);
  }

  lemma TwoDue(s: Store, due: int)
    requires Two(s, due)
    ensures Inv(s) && s.linkDue == map[0 := due, 1 := due]
  {
    hide InvGap, Heard;
  }

  lemma TwoCounted(s: Store, t: Store, due: int)
    requires Two(s, due) && Inv(t) && t == s.(linkDue := Nearer(s.linkDue), dnsDue := t.dnsDue)
    ensures Two(t, due - 1)
  {
    hide InvGap, Heard;
    assert Nearer(s.linkDue) == map[0 := due - 1, 1 := due - 1];
  }

  lemma NoneDue(due: map<int, int>)
    requires due.Keys == {} || forall i | i in due :: due[i] > 1
    ensures VisitsDue([], Nearer(due))
  {
  }

  /** Both links have the key of the one device, which finds the new one; the old one, good until
      second 4, is due in so many ticks. */
  ghost predicate Collided(s: Store, due: int) {
    && Inv(s) && s.links == Slab(map[0 := LINK_A, 1 := LINK_A], map[LINK_A := 1], [])
    && s.link.Keys == {0, 1} && s.link[0].expires == NO_DEADLINES.Set(MNDP, 4 * SECOND) && s.link[0].expiresAt == 4 * SECOND
    && s.link[0].kind == s.link[1].kind == SegmentPresence && s.link[1].expires == NO_DEADLINES.Set(MNDP, 6 * SECOND)
    && s.linkDue == map[0 := due, 1 := due] && s.recordOwner.owner == map[] && s.devices.keyOf == map[0 := DEVICE_A]
  }

  lemma MergingFaces(s: Store)
    requires Two(s, 1)
    ensures Facing(s, 0, 1, 0, 1)
  {
    hide InvGap, Heard;
    SlotsThere(s);
  }

  /** What the merge leaves: device 0 with link 0, unfindable. */
  lemma MergedTwo(s: Store)
    requires Two(s, 1)
    ensures var t := MergeDevices(s, 0, 1);
            && Inv(t) && t.limits == LIMITS && t.devices == Slab(map[0 := DEVICE_A], map[DEVICE_A := 0], [1])
            && t.links == Slab(map[0 := LINK_A], map[], [1]) && t.linkOwner == Owners(map[0 := 0], map[0 := [0]])
            && t.link.Keys == {0} && t.link[0].kind == SegmentPresence && t.linkDue == map[0 := 3] && t.recordOwner.owner == map[]
            && t.link[0].expires == NO_DEADLINES.Set(MNDP, 4 * SECOND) && t.link[0].expiresAt == 4 * SECOND
  {
    hide InvGap, MergeDevices, MergedLink, Heard, Release, ReleaseAs, Disown, DropOwner;
    MergingFaces(s);
    FacingMerge(s, 0, 1, 0, 1);
    MergeDevicesInv(s, 0, 1);
    HeardMerged(s.link[0], s.link[1]);
    MergedSlabs(DEVICE_A, DEVICE_X);
    MergedSlabs(LINK_A, LINK_X);
    MergedOwners();
    MergedMaps(s.link, MergedLink(s.link[0], s.link[1]), s.linkDue);
  }

  lemma MergedSlabs<K>(a: K, x: K)
    requires a != x
    ensures var s := Slab(map[0 := a, 1 := x], map[a := 0, x := 1], []);
            Release(s, 1) == Slab(map[0 := a], map[a := 0], [1]) && ReleaseAs(s, 1, a) == Slab(map[0 := a], map[], [1])
  {
    assert [] + [1] == [1];
  }

  lemma MergedOwners()
    ensures var o, r := Owners(map[0 := 0, 1 := 1], map[0 := [0], 1 := [1]]), Owners(map[], map[0 := [], 1 := []]);
            DropOwner(Disown(o, 1), 1) == Owners(map[0 := 0], map[0 := [0]]) && DropOwner(r, 1).owner == map[]
  {
    assert SwapRemove([1], 1) == [];
  }

  lemma MergedMaps(link: map<int, LinkInfo>, m: LinkInfo, due: map<int, int>)
    requires link.Keys == {0, 1} && due == map[0 := 1, 1 := 1]
    ensures link[0 := m] - {1} == map[0 := m] && due[0 := 3] - {1} == map[0 := 3]
  {
  }

  lemma HeardMerged(a: LinkInfo, b: LinkInfo)
    requires Heard(a, From(Y, SECOND), Announcement(Y, SECOND, Some(MAC_A))) && Heard(b, From(X, SECOND), Announcement(X, SECOND, None))
    ensures var m := MergedLink(a, b);
            m.kind == SegmentPresence && m.expires == NO_DEADLINES.Set(MNDP, 4 * SECOND) && m.expiresAt == 4 * SECOND && m.lastSeen == SECOND
  {
    hide AppendAll;
  }

  lemma MergingObserved(s: Store, w: World)
    requires Two(s, 1)
    ensures Collided(Do(s, MERGING, w), 3)
  {
    hide InvGap, MergeDevices, ApplyAll, Timestamped, Heard, Conclude, IdentityKey, LinkAdded, Two, DeviceFor;
    var meta, o := From(X, 3 * SECOND), Announcement(X, 3 * SECOND, Some(MAC_A));
    MergesTwo(s);
    ObservedInv(s, meta, o, w);
    DeviceForInv(s, meta, o.claimed, o.addresses);
    MergedTwo(s);
    var r := MergeDevices(s, 0, 1);
    FoundMerged(s);
    ListsThere(r);
    var k := r.info[0];
    var a := ApplyAll(o.edits, k, MNDP, meta.timestamp, In(w, s.limits));
    var s1 := r.(info := r.info[0 := Timestamped(a.0, meta.timestamp)]);
    InfoInv(r, s1);
    NoneFits(s1, meta);
    ConcludeAdds(s1, meta, 0, a.1, k.protocols == {}, o, w);
    AddedCollides(s1, Do(s, MERGING, w));
  }

  lemma FoundMerged(s: Store)
    requires Two(s, 1)
    ensures Inv(s)
    ensures var o := Announcement(X, 3 * SECOND, Some(MAC_A));
            DeviceFor(s, From(X, 3 * SECOND), o.claimed, o.addresses) == (MergeDevices(s, 0, 1), 0)
  {
    hide InvGap, MergeDevices, IdentityKey, Two, MNDPObservation;
    Identities(3 * SECOND);
    MergesTwo(s);
    MNDPHints(From(X, 3 * SECOND), Announcing(Some(MAC_A)), IDLE);
  }

  lemma MergesTwo(s: Store)
    requires Two(s, 1)
    ensures AddressedDevice(s, From(X, 3 * SECOND), DEVICE_A) == Some(1) && s.devices.byKey[DEVICE_A] == 0 && Merges(s, From(X, 3 * SECOND), DEVICE_A)
    ensures Inv(s) && s.limits == LIMITS
  {
    hide InvGap, Heard;
  }

  lemma NoneFits(s: Store, meta: Meta)
    requires 0 in s.devices.keyOf && s.devices.keyOf[0] == DEVICE_A && s.linkOwner.lists == map[0 := [0]]
    requires s.links == Slab(map[0 := LINK_A], map[], [1]) && 0 in s.link && s.link[0].kind == SegmentPresence
    ensures LinkFor(s, meta, 0, SegmentPresence) == -1
  {
    var list := s.linkOwner.lists[0];
    assert list == [0] && list[1..] == [];
    assert FirstOfKind(s, list[1..], meta.iface, PhysicalAdjacency) == -1;
  }

  lemma AddedCollides(s: Store, t: Store)
    requires Inv(t) && s.links == Slab(map[0 := LINK_A], map[], [1]) && s.link.Keys == {0} && s.linkDue == map[0 := 3]
    requires s.devices.keyOf == map[0 := DEVICE_A] && 0 in s.linkOwner.lists
    requires s.link[0].expires == NO_DEADLINES.Set(MNDP, 4 * SECOND) && s.link[0].expiresAt == 4 * SECOND && s.link[0].kind == SegmentPresence
    requires s.recordOwner.owner == map[]
    requires LinkAdded(s, t, From(X, 3 * SECOND), 0, Announcement(X, 3 * SECOND, Some(MAC_A)))
    ensures Collided(t, 3)
  {
    hide InvGap;
  }

  lemma TwoMoreTicks(s: Store, w: World)
    requires Collided(s, 3)
    ensures Inv(s) && Inv(Do(s, TICK_3, w)) && Collided(Do(s, TICK_3, w), 2) && Collided(Do(Do(s, TICK_3, w), TICK_4, w), 1)
    ensures VisitsDue([], Nearer(s.linkDue)) && VisitsDue([], Nearer(Do(s, TICK_3, w).linkDue))
  {
    hide InvGap, Do, Collided;
    CollidedTick(s, 3 * SECOND, 3, w);
    CollidedTick(Do(s, TICK_3, w), 4 * SECOND, 2, w);
  }

  lemma CollidedTick(s: Store, now: Time, due: int, w: World)
    requires Collided(s, due) && due > 1
    ensures VisitsDue([], Nearer(s.linkDue)) && Inv(s) && Collided(Do(s, Second(now, [], []), w), due - 1)
    ensures Inv(Do(s, Second(now, [], []), w))
  {
    hide InvGap, Do, VisitsDue;
    QuietTick(s, now, w);
    DoInv(s, Second(now, [], []), w);
    NoneDue(s.linkDue);
    assert Nearer(s.linkDue) == map[0 := due - 1, 1 := due - 1];
  }

  lemma Before(w: World)
    ensures Two(StateAfter(4, w), 1) && OnTheClock(LIMITS, STEPS[..4], w) && Seconds(STEPS[..4]) == 2
  {
    hide InvGap, One, Two, Do, Heard, Keeps;
    FirstHeard(w);
    assert STEPS[..1] == [FIRST];
    ThenHeard(StateAfter(1, w), w);
    RunNext(1, w);
    TwoTicks(StateAfter(2, w), w);
    RunNext(2, w);
    RunNext(3, w);
  }

  /** The merge comes between ticks 2 and 3 of a run on the clock: device 1, known by address alone, is
      gone, for a message that claims the MAC of device 0. Its link and that of device 0, good until
      second 4, are not timely. From then on the latter is no longer found under its key, and the tick
      at second 4, like the one before, visits all that is due and leaves it. */
  lemma LateAndLost(w: World)
    ensures OnTheClock(LIMITS, STEPS[..4], w) && Seconds(STEPS[..4]) == 2 && 2 * SECOND < MERGING.meta.timestamp <= 3 * SECOND
    ensures var s, t := StateAfter(4, w), StateAfter(5, w);
            && !MergesTimely(s, MERGING.meta, MERGING.observation.claimed, MERGING.observation.addresses, 2)
            && s.devices.keyOf == map[0 := DEVICE_A, 1 := DEVICE_X] && t.devices.keyOf == map[0 := DEVICE_A]
            && Whole(s) && !Whole(t) && SlotsKeyed(t) && !InTime(t, 2)
    ensures VisitsDue([], Nearer(StateAfter(5, w).linkDue)) && VisitsDue([], Nearer(StateAfter(6, w).linkDue))
    ensures var u := StateAfter(7, w); TICK_4.now == 4 * SECOND && 0 in u.links.keyOf && 0 in u.link && u.link[0].expires.Get(MNDP) == 4 * SECOND
  {
    hide InvGap, Two, Do, Keeps, Collided, OnTheClock, MergesTimely, InTime, Whole;
    Before(w);
    RunNext(4, w);
    RunNext(5, w);
    RunNext(6, w);
    MergingObserved(StateAfter(4, w), w);
    TwoMoreTicks(StateAfter(5, w), w);
    CollidedLate(StateAfter(5, w));
    CollidedStill(StateAfter(7, w));
    TwoWhole(StateAfter(4, w));
    NotTimely(StateAfter(4, w), w);
  }

  lemma CollidedLate(t: Store)
    requires Collided(t, 3)
    ensures t.devices.keyOf == map[0 := DEVICE_A]
    ensures SlotsKeyed(t) && !InTime(t, 2) && !Whole(t)
  {
    SlotsThere(t);
    assert !OnTime(t.link[0], t.linkDue[0], 2);
    assert !Indexed(t.links, 0);
  }

  lemma CollidedStill(t: Store)
    requires Collided(t, 1)
    ensures 0 in t.links.keyOf && 0 in t.link && t.link[0].expires.Get(MNDP) == 4 * SECOND
  {
    hide InvGap;
  }

  lemma TwoWhole(s: Store)
    requires Two(s, 1)
    ensures Whole(s) && s.devices.keyOf == map[0 := DEVICE_A, 1 := DEVICE_X]
  {
    hide InvGap, Heard;
    SlotsThere(s);
    assert s.records.keyOf.Keys == {};
  }

  lemma NotTimely(s: Store, w: World)
    requires Two(s, 1)
    ensures !MergesTimely(s, MERGING.meta, MERGING.observation.claimed, MERGING.observation.addresses, 2)
  {
    hide InvGap, MergedLink, MoveTo, IdentityKey, Heard;
    Identities(3 * SECOND);
    MergesTwo(s);
    var newKey := NewLinkKeys(s, DEVICE_A);
    assert Collides(s.links, 1, newKey[1]);
    assert (0, 1) in Collisions(s.links, [1], newKey) by {
      assert Collisions(s.links, [1], newKey)[0] == (0, 1);
    }
    HeardMerged(s.link[0], s.link[1]);
    assert !Timely(s.link[0], s.link[1], 2);
  }

  // ---------- the message again ----------

  /** Tick 5 removes the stale link, and with it the entry that found the other. */
  lemma StaleLinkGoes(s: Store, w: World)
    requires Collided(s, 1)
    ensures Do(s, TICK_5, w).links.byKey == map[]
  {
    hide InvGap, Ebbed, ExpireLink;
    var s0 := s.(linkDue := Nearer(s.linkDue));
    DueInv(s, s0);
    ExpireTwo(s0, 0, 1, 5 * SECOND);
    var x := ExpireLink(s0, 0, 5 * SECOND);
    StaleExpires(s0);
    ExpireLinkEbbs(x, 1, 5 * SECOND);
    NoEntries(x, ExpireLink(x, 1, 5 * SECOND));
  }

  lemma ExpireTwo(s: Store, l: int, m: int, now: Time)
    requires Inv(s)
    ensures Inv(ExpireLink(s, l, now)) && ExpireLinks(s, [l, m], now) == ExpireLink(ExpireLink(s, l, now), m, now)
  {
    hide InvGap, ExpireLink;
    ExpireLinkInv(s, l, now);
    assert [l, m][..1] == [l] && [l][..0] == [];
    assert ExpireLinks(s, [l], now) == ExpireLink(s, l, now);
  }

  lemma StaleExpires(s: Store)
    requires Inv(s) && s.links == Slab(map[0 := LINK_A, 1 := LINK_A], map[LINK_A := 1], []) && 0 in s.link
    requires s.link[0].expires == NO_DEADLINES.Set(MNDP, 4 * SECOND)
    ensures ExpireLink(s, 0, 5 * SECOND).links.byKey == map[]
  {
    hide InvGap, Disown;
    LinkOwnerThere(s, 0);
    assert Aged(s.link[0], 5 * SECOND).protocols == {};
  }

  lemma NoEntries(s: Store, t: Store)
    requires Ebbed(s, t) && s.links.byKey == map[]
    ensures t.links.byKey == map[]
  {
    hide SaysSame;
  }

  const TICKS := [TickArgs(3 * SECOND, [], []), TickArgs(4 * SECOND, [], []), TickArgs(5 * SECOND, [0, 1], [])]

  lemma BothDue(due: map<int, int>)
    requires due == map[0 := 1, 1 := 1]
    ensures VisitsDue([0, 1], Nearer(due))
  {
  }

  lemma CollidedDue(s: Store, due: int)
    requires Collided(s, due)
    ensures VisitsDue([], Nearer(s.dnsDue))
    ensures due > 1 ==> VisitsDue([], Nearer(s.linkDue))
    ensures due == 1 ==> VisitsDue([0, 1], Nearer(s.linkDue))
  {
    hide InvGap, VisitsDue, Nearer;
    DueKeys(s);
    SlotsThere(s);
    NoneDue(s.dnsDue);
    if due > 1 { NoneDue(s.linkDue); }
    if due == 1 { BothDue(s.linkDue); }
  }

  /** The three ticks in between. */
  lemma TicksBetween(s: Store, w: World)
    requires Collided(s, 3)
    ensures Inv(s) && Inv(Do(s, TICK_3, w)) && Inv(Do(Do(s, TICK_3, w), TICK_4, w))
    ensures Quiet(s, TICKS) && After(s, TICKS) == Do(Do(Do(s, TICK_3, w), TICK_4, w), TICK_5, w)
    ensures Collided(Do(Do(s, TICK_3, w), TICK_4, w), 1)
  {
    hide InvGap, Tick, Collided, VisitsDue;
    TwoMoreTicks(s, w);
    var t := Do(s, TICK_3, w);
    var u := Do(t, TICK_4, w);
    CollidedDue(s, 3);
    CollidedDue(t, 2);
    CollidedDue(u, 1);
    assert TICKS[1..] == [TICKS[1], TICKS[2]] && TICKS[1..][1..] == [TICKS[2]] && [TICKS[2]][1..] == [];
    assert Quiet(u, [TICKS[2]]) && After(u, [TICKS[2]]) == Do(u, TICK_5, w);
    assert Quiet(t, TICKS[1..]) && After(t, TICKS[1..]) == Do(u, TICK_5, w);
  }

  /** In a store of segment links none of which is found under its key, the message finds no link. */
  lemma NoLinkFound(s: Store, t: Store, w: World)
    requires Collided(s, 3) && Inv(t) && Ebbed(s, t) && t.links.byKey == map[]
    ensures !Stands(t, From(X, 3 * SECOND), Announcement(X, 3 * SECOND, Some(MAC_A)), HALF_PAST, w, 0)
  {
    hide InvGap, LinkKnown, RefreshChanges, SaysSame;
    if 0 in t.devices.keyOf && 0 in t.linkOwner.lists {
      var l := LinkFor(t, From(X, 3 * SECOND), 0, SegmentPresence);
      ListsThere(t);
      FirstOfKindIs(t, t.linkOwner.lists[0], 1, PhysicalAdjacency);
      if l != -1 { SaysKind(s.link[l], t.link[l]); }
    }
  }

  lemma {:induction false} FirstOfKindIs(s: Store, list: seq<int>, iface: int, kind: LinkKind)
    ensures var l := FirstOfKind(s, list, iface, kind); l != -1 ==> l in s.link && s.link[l].kind == kind
    decreases |list|
  {
    if list != [] { FirstOfKindIs(s, list[1..], iface, kind); }
  }

  lemma SaysKind(k: LinkInfo, r: LinkInfo)
    requires SaysSame(k, r)
    ensures r.kind == k.kind
  {
  }

  /** The merging message left a link good until second 6. The tick at second 5 removes the other
      link, and with it the entry under which both stood; half a second later, its own link still
      there, the message is news again. */
  lemma LostRefresh(w: World)
    ensures VisitsDue([0, 1], Nearer(StateAfter(7, w).linkDue))
    ensures var s, t := StateAfter(8, w), StateAfter(9, w);
            && 1 in s.links.keyOf && 1 in s.link && s.links.keyOf[1] == LINK_A && s.link[1].expires.Get(MNDP) == 6 * SECOND && LINK_A !in s.links.byKey
            && AGAIN.observation == MERGING.observation && AGAIN.meta == MERGING.meta.(timestamp := HALF_PAST) && t.events != s.events
  {
    hide InvGap, Two, Do, Keeps, Collided, OnTheClock, VisitsDue, Stands, Acquainted, Ebbed, Absorbed, Observed, Quiet, After, IdentityKey, Distinct,
         LinkDistinct, Repeats;
    Before(w);
    RunNext(4, w);
    RunNext(5, w);
    RunNext(6, w);
    RunNext(7, w);
    RunNext(8, w);
    var s, t := StateAfter(4, w), StateAfter(5, w);
    MergingObserved(s, w);
    TicksBetween(t, w);
    CollidedDue(StateAfter(7, w), 1);
    StaleLinkGoes(StateAfter(7, w), w);
    MergingKnown(s, w);
    var u := StateAfter(8, w);
    AfterEbbs(t, TICKS);
    NoLinkFound(t, u, w);
    OwnLinkThere(StateAfter(7, w), w);
    SameAgain();
    DoAgain(u, w);
    SilentAfter(t, MERGING.meta, MERGING.observation, HALF_PAST, w, 0, TICKS);
  }

  lemma DoAgain(s: Store, w: World)
    requires Inv(s)
    ensures Do(s, AGAIN, w) == Observed(s, AGAIN.meta, AGAIN.observation, w)
  {
    hide InvGap, Observed, MNDPObservation;
  }

  lemma SameAgain()
    ensures AGAIN.observation == MERGING.observation && AGAIN.meta == MERGING.meta.(timestamp := HALF_PAST)
    ensures Distinct(MERGING.observation.edits) && LinkDistinct(MERGING.observation.linkEdits)
  {
    hide MNDPObservation, Distinct, LinkDistinct;
    MNDPDistinct(MERGING.meta, Announcing(Some(MAC_A)), IDLE);
    NextAlike(MERGING.meta, Announcing(Some(MAC_A)), Announcing(Some(MAC_A)), IDLE, HALF_PAST);
  }

  lemma OwnLinkThere(s: Store, w: World)
    requires Collided(s, 1)
    ensures var t := Do(s, TICK_5, w); 1 in t.links.keyOf && 1 in t.link && t.link[1].expires.Get(MNDP) == 6 * SECOND && t.links.keyOf[1] == LINK_A
  {
    hide InvGap, Tick, VisitsDue, SaysSame;
    SlotsThere(s);
    CollidedDue(s, 1);
    NeverEarly(s, 5 * SECOND, [0, 1], [], 1, MNDP);
    TickEbbs(s, 5 * SECOND, [0, 1], []);
  }

  lemma MergingKnown(s: Store, w: World)
    requires Two(s, 1)
    ensures Inv(s) && Acquainted(Do(s, MERGING, w), MERGING.meta, MERGING.observation, HALF_PAST, w, 0)
  {
    hide InvGap, Observed, Absorbed, Acquainted, IdentityKey, Distinct, LinkDistinct, Repeats, MNDPObservation, HasLink;
    var meta, m := MERGING.meta, Announcing(Some(MAC_A));
    Identities(3 * SECOND);
    MergesTwo(s);
    MNDPDistinct(meta, m, IDLE);
    MNDPHints(meta, m, IDLE);
    MNDPRepeats(meta, m, m, IDLE, HALF_PAST);
    var d, l := ObservedAbsorbs(s, meta, MERGING.observation, MERGING.observation, HALF_PAST, w);
    AbsorbedMeans(Do(s, MERGING, w), meta, MERGING.observation, HALF_PAST, w, d, l);
  }

  lemma FreeSlots()
    ensures Empty(LIMITS).devices.free == [1, 0] && Empty(LIMITS).links.free == [1, 0]
  {
    assert Countdown(2) == [1, 0];
  }
}
