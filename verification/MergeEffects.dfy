/** What two devices that become one leave: evidence, links and records of both. */
module MergeEffects {
  import opened Model
  import opened FusionTypes
  import opened Slabs
  import opened Text
  import opened Stores
  import opened Timing
  import opened Fusion
  import opened DNSCache
  import opened Observe
  import opened Expiry
  import opened LinkMerges
  import opened Completeness
  import opened Identities

  // ---------- texts ----------

  /** The text of b is known to a, on behalf of its protocols and with its confidence at least. */
  predicate Knows(a: seq<TextValue>, v: TextValue) { Listed(a, v.value, v.protocols, v.confidence) }

  predicate HasText(values: seq<TextValue>, text: seq<Byte>) { exists i :: 0 <= i < |values| && values[i].value == text }

  lemma MergeTextOrigin(f: TextField, value: seq<Byte>, protocols: ProtocolSet, confidence: nat, now: Time, max: nat)
    ensures forall v :: HasText(MergeText(f, value, protocols, confidence, now, max).0.values, v) ==> HasText(f.values, v) || v == value
  {
    hide Rank, Weakest, Find;
    var g := MergeText(f, value, protocols, confidence, now, max).0;
    forall v | HasText(g.values, v) && v != value ensures HasText(f.values, v) {
      var i :| 0 <= i < |g.values| && g.values[i].value == v;
      assert f.values[i].value == v;
    }
  }

  /** A merged field has texts of the two fields only. */
  lemma {:induction false} MergeFieldOrigin(dst: TextField, src: seq<TextValue>, max: nat)
    ensures forall v :: HasText(MergeField(dst, src, max).values, v) ==> HasText(dst.values, v) || HasText(src, v)
    decreases |src|
  {
    hide MergeText, HasText;
    if src != [] {
      var s := src[0];
      var next := MergeText(dst, s.value, s.protocols, s.confidence, s.lastSeen, max).0;
      MergeTextOrigin(dst, s.value, s.protocols, s.confidence, s.lastSeen, max);
      MergeFieldOrigin(next, src[1..], max);
      forall v ensures HasText(src, v) <==> v == s.value || HasText(src[1..], v) { HeadText(src, v); }
    }
  }

  lemma HeadText(src: seq<TextValue>, v: seq<Byte>)
    requires src != []
    ensures HasText(src, v) <==> v == src[0].value || HasText(src[1..], v)
  {
    if HasText(src, v) {
      var i :| 0 <= i < |src| && src[i].value == v;
      if i > 0 { assert src[1..][i - 1].value == v; }
    }
    if HasText(src[1..], v) {
      var i :| 0 <= i < |src[1..]| && src[1..][i].value == v;
      assert src[i + 1].value == v;
    }
  }

  /** With room for them all, it knows every text of both. */
  lemma {:induction false} MergeFieldRoom(dst: TextField, src: seq<TextValue>, max: nat)
    requires |dst.values| + |src| <= max + 1
    ensures forall v, p, c | Listed(dst.values, v, p, c) :: Listed(MergeField(dst, src, max).values, v, p, c)
    ensures forall i | 0 <= i < |src| :: Knows(MergeField(dst, src, max).values, src[i])
    decreases |src|
  {
    hide MergeText, Listed;
    if src != [] {
      var s := src[0];
      RoomLists(dst, s.value, s.protocols, s.confidence, s.lastSeen, max);
      var next := MergeText(dst, s.value, s.protocols, s.confidence, s.lastSeen, max).0;
      MergeFieldRoom(next, src[1..], max);
      forall i | 0 <= i < |src| ensures Knows(MergeField(dst, src, max).values, src[i]) {
        if i > 0 { assert src[1..][i - 1] == src[i]; }
      }
    }
  }

  // ---------- evidence ----------

  /** The text is listed, as seen at that time or later. */
  ghost predicate SeenSince(values: seq<TextValue>, value: seq<Byte>, t: Time) {
    value != [] ==> exists j :: 0 <= j < |values| && values[j].value == value && values[j].lastSeen >= t
  }

  lemma MergeTextSeen(f: TextField, value: seq<Byte>, protocols: ProtocolSet, confidence: nat, now: Time, max: nat)
    requires |f.values| < max + 1
    ensures var g := MergeText(f, value, protocols, confidence, now, max).0;
            SeenSince(g.values, value, now) && forall v, t | SeenSince(f.values, v, t) :: SeenSince(g.values, v, t)
  {
    hide SelectCanonical, Weakest, Rank;
    var g, i := MergeText(f, value, protocols, confidence, now, max).0, Find(f.values, value);
    if value != [] { assert g.values[i].value == value && g.values[i].lastSeen >= now; }
    forall v, t | SeenSince(f.values, v, t) && v != [] ensures SeenSince(g.values, v, t) {
      var j :| 0 <= j < |f.values| && f.values[j].value == v && f.values[j].lastSeen >= t;
      assert g.values[j].value == v && g.values[j].lastSeen >= t;
    }
  }

  /** With room for them all, texts of both are as lately seen as either saw them. */
  lemma {:induction false} MergeFieldSeen(dst: TextField, src: seq<TextValue>, max: nat)
    requires |dst.values| + |src| <= max + 1
    ensures forall v, t | SeenSince(dst.values, v, t) :: SeenSince(MergeField(dst, src, max).values, v, t)
    ensures forall i | 0 <= i < |src| :: SeenSince(MergeField(dst, src, max).values, src[i].value, src[i].lastSeen)
    decreases |src|
  {
    hide MergeText, SeenSince;
    if src != [] {
      RoomLists(dst, src[0].value, src[0].protocols, src[0].confidence, src[0].lastSeen, max);
      MergeTextSeen(dst, src[0].value, src[0].protocols, src[0].confidence, src[0].lastSeen, max);
      MergeFieldSeen(MergeText(dst, src[0].value, src[0].protocols, src[0].confidence, src[0].lastSeen, max).0, src[1..], max);
      assert forall i | 0 < i < |src| :: src[i] == src[1..][i - 1];
    }
  }

  /** r has exactly what k and o have, and what they had first comes first. */
  ghost predicate Pooled<T(!new)>(r: seq<T>, k: seq<T>, o: seq<T>) { k <= r && forall x :: x in r <==> x in k || x in o }

  lemma {:induction false} AppendAllFirst<T>(list: seq<T>, more: seq<T>)
    ensures list <= AppendAll(list, more)
    decreases |more|
  {
    if more != [] { AppendAllFirst(AppendUnique(list, more[0]), more[1..]); }
  }

  lemma AppendPools<T(!new)>(list: seq<T>, more: seq<T>)
    ensures Pooled(AppendAll(list, more), list, more)
  {
    AppendAllIn(list, more);
    AppendAllFirst(list, more);
  }

  /** The later of two valid uptimes, the first where neither is later. */
  ghost predicate LaterUptime(r: Uptime, k: Uptime, o: Uptime) {
    && (!o.valid ==> r == k) && (o.valid && !k.valid ==> r == o)
    && (k.valid && o.valid ==> r == if o.observedAt > k.observedAt then o else k)
  }

  /** The texts of slot t: none but those of the two, and with room all of both. */
  ghost predicate TextsPooled(r: DeviceInfo, k: DeviceInfo, o: DeviceInfo, t: TextSlot, max: nat) {
    && (forall v :: HasText(GetText(r, t).values, v) ==> HasText(GetText(k, t).values, v) || HasText(GetText(o, t).values, v))
    && (|GetText(k, t).values| + |GetText(o, t).values| <= max + 1 ==>
          && (forall v, p, c | Listed(GetText(k, t).values, v, p, c) :: Listed(GetText(r, t).values, v, p, c))
          && (forall v, at | SeenSince(GetText(k, t).values, v, at) :: SeenSince(GetText(r, t).values, v, at))
          && forall i | 0 <= i < |GetText(o, t).values| :: var b := GetText(o, t).values[i];
               Knows(GetText(r, t).values, b) && SeenSince(GetText(r, t).values, b.value, b.lastSeen))
  }

  /** r is what k and o know together. */
  ghost predicate Together(r: DeviceInfo, k: DeviceInfo, o: DeviceInfo, max: nat) {
    && Pooled(r.observedMACs, k.observedMACs, o.observedMACs) && Pooled(r.claimedMACs, k.claimedMACs, o.claimedMACs)
    && Pooled(r.addresses, k.addresses, o.addresses)
    && (forall p :: p in r.protocols <==> p in k.protocols || p in o.protocols)
    && (forall c :: c in r.capabilities <==> c in k.capabilities || c in o.capabilities)
    && LaterUptime(r.uptime, k.uptime, o.uptime)
    && (forall t :: TextsPooled(r, k, o, t, max))
    && r.matched == k.matched && k.lastSeen <= r.lastSeen && o.lastSeen <= r.lastSeen && r.lastSeen in {k.lastSeen, o.lastSeen}
    && (k.firstSeen == 0 ==> r.firstSeen == o.firstSeen)
    && (k.firstSeen != 0 ==> r.firstSeen <= k.firstSeen && r.firstSeen <= o.firstSeen && r.firstSeen in {k.firstSeen, o.firstSeen})
  }

  lemma MergedTexts(k: DeviceInfo, o: DeviceInfo, max: nat, t: TextSlot)
    ensures GetText(MergedInfo(k, o, max), t) == MergeField(GetText(k, t), GetText(o, t).values, max)
  {
    hide MergeField, AppendAll;
  }

  lemma MergedTogether(k: DeviceInfo, o: DeviceInfo, max: nat)
    ensures Together(MergedInfo(k, o, max), k, o, max)
  {
    hide MergeField, AppendAll, GetText, Pooled, TextsPooled;
    AppendPools(k.observedMACs, o.observedMACs);
    AppendPools(k.claimedMACs, o.claimedMACs);
    AppendPools(k.addresses, o.addresses);
    forall t ensures TextsPooled(MergedInfo(k, o, max), k, o, t, max) { TextsMerged(k, o, max, t); }
  }

  lemma TextsMerged(k: DeviceInfo, o: DeviceInfo, max: nat, t: TextSlot)
    ensures TextsPooled(MergedInfo(k, o, max), k, o, t, max)
  {
    hide MergeField, MergedInfo, HasText, Listed, GetText, SeenSince, Knows;
    MergedTexts(k, o, max, t);
    MergeFieldOrigin(GetText(k, t), GetText(o, t).values, max);
    if |GetText(k, t).values| + |GetText(o, t).values| <= max + 1 {
      MergeFieldRoom(GetText(k, t), GetText(o, t).values, max);
      MergeFieldSeen(GetText(k, t), GetText(o, t).values, max);
    }
  }

  /** The device merged into knows what the two knew; the other is gone, and the rest are as they were. */
  lemma MergeKnows(s: Store, dst: int, src: int)
    requires Inv(s) && dst != src && dst in s.devices.keyOf && src in s.devices.keyOf
    ensures var t := MergeDevices(s, dst, src);
            && dst in s.info && src in s.info && dst in t.info && src !in t.info
            && Together(t.info[dst], s.info[dst], s.info[src], s.limits.alternatives)
            && (forall d | d in s.info && d != dst && d != src :: d in t.info && t.info[d] == s.info[d])
  {
    hide InvGap, MergeDevices, Together, MergedInfo;
    MergeInfo(s, dst, src);
    MergedTogether(s.info[dst], s.info[src], s.limits.alternatives);
  }

  // ---------- links ----------

  /** r is what links k and o say together: both their protocols, for each the later deadline; physical if
      either is; seen from the earlier first to the later last; with both their VLANs, and k's names. */
  ghost predicate LinksTogether(r: LinkInfo, k: LinkInfo, o: LinkInfo) {
    && (forall p :: p in r.protocols <==> p in k.protocols || p in o.protocols)
    && (forall p :: k.expires.Get(p) <= r.expires.Get(p) && o.expires.Get(p) <= r.expires.Get(p) && r.expires.Get(p) in {k.expires.Get(p), o.expires.Get(p)})
    && (r.kind == PhysicalAdjacency <==> k.kind == PhysicalAdjacency || o.kind == PhysicalAdjacency)
    && k.lastSeen <= r.lastSeen && o.lastSeen <= r.lastSeen && r.lastSeen in {k.lastSeen, o.lastSeen}
    && r.firstSeen <= k.firstSeen && r.firstSeen <= o.firstSeen && r.firstSeen in {k.firstSeen, o.firstSeen}
    && Pooled(r.vlans, k.vlans, o.vlans)
    && r.localInterface == k.localInterface && r.observedSource == k.observedSource && r.device == k.device
    && r.remoteChassis == k.remoteChassis && r.remotePort == k.remotePort && r.remoteInterface == k.remoteInterface
  }

  lemma MergedLinkTogether(k: LinkInfo, o: LinkInfo)
    ensures LinksTogether(MergedLink(k, o), k, o)
  {
    hide AppendAll;
    AppendPools(k.vlans, o.vlans);
  }

  /** One pass: the link collided with takes in the moved one, which goes; otherwise the moved one is
      handed over. Every other link is left alone. */
  lemma MoveLinkLeaves(s: Store, dst: int, src: int)
    requires Inv(s) && dst in s.devices.keyOf && src in s.devices.keyOf && dst != src
    requires src in s.linkOwner.lists && s.linkOwner.lists[src] != []
    ensures var x := LastLink(s, src); x in s.links.keyOf && x in s.link
    ensures var x, t := LastLink(s, src), MoveLink(s, dst, src);
            var k := s.links.keyOf[x].(device := s.devices.keyOf[dst]);
            && SlotsKeyed(s) && SlotsKeyed(t) && s.devices == t.devices
            && (if Collides(s.links, x, k) then
                  var e := s.links.byKey[k];
                  && e in s.link && e != x && e !in s.linkOwner.lists[src] && Lost(t.links, e) && s.link[e].device == s.devices.keyOf[dst]
                  && t.link == s.link[e := MergedLink(s.link[e], s.link[x])] - {x} && t.linkOwner.owner == s.linkOwner.owner - {x}
                else
                  t.link == s.link[x := s.link[x].(device := s.devices.keyOf[dst])] && t.linkOwner.owner == s.linkOwner.owner[x := dst])
  {
    hide InvGap, MoveTo, MergedLink, Lost, Ticks;
    LastThere(s, src);
    SlotsThere(s);
    MoveLinkInv(s, dst, src, WHOLE);
    SlotsThere(MoveLink(s, dst, src));
    var x := LastLink(s, src);
    if Collides(s.links, x, s.links.keyOf[x].(device := s.devices.keyOf[dst])) {
      CollidedElsewhere(s, dst, src);
      EntryThere(s, s.links.keyOf[x].(device := s.devices.keyOf[dst]));
    }
  }

  lemma EntryThere(s: Store, k: LinkKey)
    requires Inv(s) && k in s.links.byKey
    ensures s.links.byKey[k] in s.links.keyOf && s.links.byKey[k] in s.link && s.link[s.links.byKey[k]].device == k.device
  {
    hide Partition, Complete, MaximaCached, RecordKeysAgree, LinksTimed, LinkKeysAgree, Owned;
    AgreeAt(s, s.links.byKey[k]);
  }

  /** The links after a merge, given its collisions: each a link kept and the link it takes in. */
  ghost predicate LinksMerged(s: Store, t: Store, list: seq<int>, pairs: seq<(int, int)>, dst: int)
    requires SlotsKeyed(s) && SlotsKeyed(t) && dst in s.devices.keyOf
  {
    var key := s.devices.keyOf[dst];
    && (forall l :: l in t.links.keyOf <==> l in s.links.keyOf && !Taken(pairs, l))
    && (forall p | p in pairs :: p.0 in s.link && p.1 in s.link && p.0 in t.link && t.link[p.0] == MergedLink(s.link[p.0].(device := key), s.link[p.1]))
    && (forall l | l in t.link :: Taking(pairs, l) || t.link[l] == if l in list then s.link[l].(device := key) else s.link[l])
    && (forall l | l in t.linkOwner.owner :: t.linkOwner.owner[l] == if l in list then dst else s.linkOwner.owner[l])
  }

  ghost predicate Taking(pairs: seq<(int, int)>, l: int) { exists p :: p in pairs && p.0 == l }

  ghost predicate Taken(pairs: seq<(int, int)>, l: int) { exists p :: p in pairs && p.1 == l }

  lemma {:induction false} MoveLinksLeave(s: Store, dst: int, src: int, newKey: map<int, LinkKey>)
    requires Inv(s) && dst in s.devices.keyOf && src in s.devices.keyOf && dst != src
    requires src in s.linkOwner.lists && forall x | x in s.linkOwner.lists[src] ::
      x in newKey && x in s.links.keyOf && newKey[x] == s.links.keyOf[x].(device := s.devices.keyOf[dst])
    ensures var t := MoveLinks(s, dst, src);
            SlotsKeyed(s) && SlotsKeyed(t) && LinksMerged(s, t, s.linkOwner.lists[src], Collisions(s.links, s.linkOwner.lists[src], newKey), dst)
    decreases |s.linkOwner.lists[src]|
  {
    hide InvGap, MoveLink, MoveTo, SlotsKeyed, Lost, LinksMerged;
    ListsThere(s);
    SlotsThere(s);
    MoveLinksInv(s, dst, src);
    SlotsThere(MoveLinks(s, dst, src));
    var list := s.linkOwner.lists[src];
    if list == [] {
      NothingMerged(s, newKey, dst);
    } else {
      var x, rest := LastLink(s, src), list[..|list| - 1];
      assert x in list && list == rest + [x];
      MoveLinkStep(s, dst, src);
      MoveLinkLeaves(s, dst, src);
      MovedIndex(s, dst, src);
      DistinctInit(s, src);
      var t := MoveLink(s, dst, src);
      MoveLinksLeave(t, dst, src, newKey);
      var more := Collisions(t.links, rest, newKey);
      if Collides(s.links, x, newKey[x]) {
        var e := s.links.byKey[newKey[x]];
        LostAvoided(t.links, rest, newKey, e);
        assert Lost(t.links, x) by { GoneLost(t.links, x); }
        LostAvoided(t.links, rest, newKey, x);
        assert Collisions(s.links, list, newKey) == [(e, x)] + more;
        OneMoreTaken(s, t, MoveLinks(s, dst, src), rest, x, e, more, dst);
      } else {
        assert Collisions(s.links, list, newKey) == more;
        OneMoreHanded(s, t, MoveLinks(s, dst, src), rest, x, more, dst);
      }
    }
  }

  lemma GoneLost<K>(t: Slab<K>, x: int)
    requires Sound(t) && x !in t.keyOf
    ensures Lost(t, x)
  {
  }

  lemma NothingMerged(s: Store, newKey: map<int, LinkKey>, dst: int)
    requires SlotsKeyed(s) && dst in s.devices.keyOf
    ensures LinksMerged(s, s, [], Collisions(s.links, [], newKey), dst)
  {
  }

  lemma MergedIgnores(k: LinkInfo, o: LinkInfo, key: DeviceKey)
    ensures MergedLink(k, o.(device := key)) == MergedLink(k, o)
  {
    hide AppendAll;
  }

  lemma OneMoreHanded(s: Store, t: Store, u: Store, rest: seq<int>, x: int, pairs: seq<(int, int)>, dst: int)
    requires SlotsKeyed(s) && SlotsKeyed(t) && SlotsKeyed(u) && dst in s.devices.keyOf && t.devices == s.devices && x in s.link && x !in rest
    requires t.link == s.link[x := s.link[x].(device := s.devices.keyOf[dst])] && t.linkOwner.owner == s.linkOwner.owner[x := dst]
    requires LinksMerged(t, u, rest, pairs, dst)
    ensures LinksMerged(s, u, rest + [x], pairs, dst)
  {
    hide MergedLink, Taking, Taken;
    var key := s.devices.keyOf[dst];
    assert t.links.keyOf.Keys == s.links.keyOf.Keys;
    forall p | p in pairs
      ensures p.0 in s.link && p.1 in s.link && p.0 in u.link && u.link[p.0] == MergedLink(s.link[p.0].(device := key), s.link[p.1])
    {
      HandedPair(s.link, t.link, u.link, x, p, key);
    }
  }

  /** Handing a link over changes nothing that a merge of links asks of it. */
  lemma HandedPair(s: map<int, LinkInfo>, t: map<int, LinkInfo>, u: map<int, LinkInfo>, x: int, p: (int, int), key: DeviceKey)
    requires x in s && t == s[x := s[x].(device := key)] && p.0 in t && p.1 in t && p.0 in u
    requires u[p.0] == MergedLink(t[p.0].(device := key), t[p.1])
    ensures p.0 in s && p.1 in s && u[p.0] == MergedLink(s[p.0].(device := key), s[p.1])
  {
    hide MergedLink;
    MergedIgnores(s[p.0].(device := key), s[p.1], key);
  }

  lemma OneMoreTaken(s: Store, t: Store, u: Store, rest: seq<int>, x: int, e: int, more: seq<(int, int)>, dst: int)
    requires SlotsKeyed(s) && SlotsKeyed(t) && SlotsKeyed(u) && dst in s.devices.keyOf && t.devices == s.devices && x in s.link && x !in rest
    requires e in s.link && e != x && e !in rest && s.link[e].device == s.devices.keyOf[dst]
    requires t.link == s.link[e := MergedLink(s.link[e], s.link[x])] - {x} && t.linkOwner.owner == s.linkOwner.owner - {x}
    requires forall p | p in more :: p.0 != e && p.1 != e && p.0 != x && p.1 != x
    requires LinksMerged(t, u, rest, more, dst)
    ensures LinksMerged(s, u, rest + [x], [(e, x)] + more, dst)
  {
    hide MergedLink, Taking, Taken;
    var pairs := [(e, x)] + more;
    assert pairs[0] == (e, x);
    assert t.links.keyOf.Keys == s.links.keyOf.Keys - {x};
    forall l ensures (Taking(pairs, l) <==> l == e || Taking(more, l)) && (Taken(pairs, l) <==> l == x || Taken(more, l)) { OneMorePair(e, x, more, l); }
    assert u.link[e] == t.link[e] && s.link[e].(device := s.devices.keyOf[dst]) == s.link[e] by { NotTaking(more, e); NotTaking(more, x); }
    forall p | p in pairs
      ensures p.0 in s.link && p.1 in s.link && p.0 in u.link && u.link[p.0] == MergedLink(s.link[p.0].(device := s.devices.keyOf[dst]), s.link[p.1])
    {
      assert p == (e, x) || p in more;
    }
  }

  lemma NotTaking(pairs: seq<(int, int)>, l: int)
    requires forall p | p in pairs :: p.0 != l && p.1 != l
    ensures !Taking(pairs, l) && !Taken(pairs, l)
  {
  }

  lemma OneMorePair(e: int, x: int, more: seq<(int, int)>, l: int)
    ensures var pairs := [(e, x)] + more; (Taking(pairs, l) <==> l == e || Taking(more, l)) && (Taken(pairs, l) <==> l == x || Taken(more, l))
  {
    var pairs := [(e, x)] + more;
    assert pairs[0] == (e, x) && forall p :: p in pairs <==> p == (e, x) || p in more;
  }

  /** After a merge, given its collisions: every link of the two is the one device's, but those taken in. */
  lemma MergeLeavesLinks(s: Store, dst: int, src: int)
    requires Inv(s) && dst in s.devices.keyOf && src in s.devices.keyOf && dst != src
    ensures src in s.linkOwner.lists
    ensures var t := MergeDevices(s, dst, src); var list := s.linkOwner.lists[src];
            SlotsKeyed(s) && SlotsKeyed(t) && LinksMerged(s, t, list, Collisions(s.links, list, NewLinkKeys(s, s.devices.keyOf[dst])), dst)
  {
    hide InvGap, MergedInfo, MoveLinks, MoveRecords, SlotsKeyed, LinksMerged, MoveAll, Collisions;
    ListsThere(s);
    SlotsThere(s);
    var s0 := s.(info := s.info[dst := MergedInfo(s.info[dst], s.info[src], s.limits.alternatives)]);
    InfoInv(s, s0);
    NewKeysFit(s, dst, src);
    MoveLinksInv(s0, dst, src);
    var newKey := NewLinkKeys(s, s.devices.keyOf[dst]);
    MoveLinksLeave(s0, dst, src, newKey);
    var s1 := MoveLinks(s0, dst, src);
    EmptyingInv(s1, src);
    MoveRecordsInv(s1, dst, src);
    MoveRecordsTimes(s1, dst, src);
    MergeDevicesInv(s, dst, src);
    var t := MergeDevices(s, dst, src);
    SlotsThere(t);
    SameLinksMerged(s, s0, s1, t, s.linkOwner.lists[src], Collisions(s.links, s.linkOwner.lists[src], newKey), dst);
  }

  lemma SameLinksMerged(s: Store, s0: Store, s1: Store, t: Store, list: seq<int>, pairs: seq<(int, int)>, dst: int)
    requires SlotsKeyed(s) && SlotsKeyed(s0) && SlotsKeyed(s1) && SlotsKeyed(t) && dst in s.devices.keyOf && s0 == s.(info := s0.info)
    requires LinksMerged(s0, s1, list, pairs, dst) && t.links == s1.links && t.link == s1.link && t.linkOwner.owner == s1.linkOwner.owner
    ensures LinksMerged(s, t, list, pairs, dst)
  {
    hide MergedLink, Taking, Taken;
  }

  /** While the index of links is complete, a link of the one and a link of the other on the same
      interface and from the same source become one, which says what both said; the rest stay, all of
      them the one device's, and say what they said. */
  lemma MergeJoinsLinks(s: Store, dst: int, src: int)
    requires Inv(s) && SlotsKeyed(s) && Complete(s.links) && dst in s.devices.keyOf && src in s.devices.keyOf && dst != src
    ensures var t := MergeDevices(s, dst, src);
            && SlotsKeyed(t)
            && (forall l :: l in t.links.keyOf <==> l in s.links.keyOf && forall e :: !Alike(s, dst, src, e, l))
            && (forall e, x | Alike(s, dst, src, e, x) :: e in t.links.keyOf && LinksTogether(t.link[e], s.link[e], s.link[x]))
            && (forall l | l in t.links.keyOf && (forall x :: !Alike(s, dst, src, l, x)) ::
                  t.link[l] == if s.linkOwner.owner[l] == src then s.link[l].(device := s.devices.keyOf[dst]) else s.link[l])
            && (forall l | l in t.links.keyOf :: t.linkOwner.owner[l] == if s.linkOwner.owner[l] == src then dst else s.linkOwner.owner[l])
  {
    hide InvGap, MergeDevices, Movable, Complete, Collisions, MergedLink, LinksTogether, LinksMerged;
    MergeLeavesLinks(s, dst, src);
    MergeMovable(s, dst, src);
    var list, newKey := s.linkOwner.lists[src], NewLinkKeys(s, s.devices.keyOf[dst]);
    CollisionsAlike(s.links, list, newKey);
    var pairs := Collisions(s.links, list, newKey);
    forall e, x ensures (e, x) in pairs <==> Alike(s, dst, src, e, x) {}
    ListMeansOwner(s, src);
    JoinsFrom(s, MergeDevices(s, dst, src), dst, src, list, pairs);
  }

  lemma ListMeansOwner(s: Store, src: int)
    requires Inv(s) && src in s.linkOwner.lists
    ensures forall l :: l in s.linkOwner.lists[src] <==> l in s.linkOwner.owner && s.linkOwner.owner[l] == src
  {
    hide Complete, Partition, MaximaCached, RecordKeysAgree, LinksTimed, LinkKeysAgree, Sound;
    OwnedList(s.linkOwner, src);
  }

  lemma JoinsFrom(s: Store, t: Store, dst: int, src: int, list: seq<int>, pairs: seq<(int, int)>)
    requires Inv(s) && SlotsKeyed(s) && SlotsKeyed(t) && dst in s.devices.keyOf && src in s.devices.keyOf && dst != src && LinksMerged(s, t, list, pairs, dst)
    requires (forall e, x :: (e, x) in pairs <==> Alike(s, dst, src, e, x)) && forall l | l in s.linkOwner.owner :: l in list <==> s.linkOwner.owner[l] == src
    ensures (forall l :: l in t.links.keyOf <==> l in s.links.keyOf && forall e :: !Alike(s, dst, src, e, l))
            && (forall e, x | Alike(s, dst, src, e, x) :: e in t.links.keyOf && LinksTogether(t.link[e], s.link[e], s.link[x]))
            && (forall l | l in t.links.keyOf && (forall x :: !Alike(s, dst, src, l, x)) ::
                  t.link[l] == if s.linkOwner.owner[l] == src then s.link[l].(device := s.devices.keyOf[dst]) else s.link[l])
            && (forall l | l in t.links.keyOf :: t.linkOwner.owner[l] == if s.linkOwner.owner[l] == src then dst else s.linkOwner.owner[l])
  {
    hide InvGap, MergedLink, LinksTogether, Alike, Taken, Taking;
    forall l ensures (Taken(pairs, l) <==> exists e :: Alike(s, dst, src, e, l)) && (Taking(pairs, l) <==> exists x :: Alike(s, dst, src, l, x)) {
      PairsAlike(s, dst, src, pairs, l);
    }
    forall e, x | Alike(s, dst, src, e, x) ensures e in t.links.keyOf && LinksTogether(t.link[e], s.link[e], s.link[x]) {
      assert (e, x) in pairs;
      AlikeDevice(s, dst, src, e, x);
      assert s.link[e].(device := s.devices.keyOf[dst]) == s.link[e];
      MergedLinkTogether(s.link[e], s.link[x]);
    }
  }

  lemma PairsAlike(s: Store, dst: int, src: int, pairs: seq<(int, int)>, l: int)
    requires SlotsKeyed(s) && dst in s.devices.keyOf && forall e, x :: (e, x) in pairs <==> Alike(s, dst, src, e, x)
    ensures (Taken(pairs, l) <==> exists e :: Alike(s, dst, src, e, l)) && (Taking(pairs, l) <==> exists x :: Alike(s, dst, src, l, x))
  {
    hide Alike;
    if Taken(pairs, l) { var p :| p in pairs && p.1 == l; assert (p.0, l) in pairs; }
    if Taking(pairs, l) { var p :| p in pairs && p.0 == l; assert (l, p.1) in pairs; }
    if exists e :: Alike(s, dst, src, e, l) { var e :| Alike(s, dst, src, e, l); assert (e, l) in pairs; }
    if exists x :: Alike(s, dst, src, l, x) { var x :| Alike(s, dst, src, l, x); assert (l, x) in pairs; }
  }

  lemma AlikeDevice(s: Store, dst: int, src: int, e: int, x: int)
    requires Inv(s) && SlotsKeyed(s) && dst in s.devices.keyOf && Alike(s, dst, src, e, x)
    ensures s.link[e].device == s.devices.keyOf[dst]
  {
    hide Partition, Complete, MaximaCached, RecordKeysAgree, LinksTimed, LinkKeysAgree, Owned, Sound;
    AgreeAt(s, e);
  }

  // ---------- records ----------

  /** A record the one device would have under a key that a record of another slot has. */
  ghost predicate Twins(s: Store, dst: int, src: int, e: int, x: int)
    requires SlotsKeyed(s)
  {
    && e in s.records.keyOf && x in s.records.keyOf && s.recordOwner.owner[x] == src && s.recordOwner.owner[e] != src
    && s.records.keyOf[e] == s.records.keyOf[x].(device := dst)
  }

  lemma {:induction false} CollisionsOfList<K>(t: Slab<K>, list: seq<int>, newKey: map<int, K>)
    ensures forall p | p in Collisions(t, list, newKey) :: p.1 in list
    decreases |list|
  {
    hide MoveTo;
    if list != [] {
      var i := list[|list| - 1];
      CollisionsOfList(if i in t.keyOf && i in newKey then MoveTo(t, i, newKey[i]) else t, list[..|list| - 1], newKey);
      assert forall x | x in list[..|list| - 1] :: x in list;
    }
  }

  /** Of a list of moves, exactly the slots that collide go. */
  lemma {:induction false} MoveAllTakes<K>(t: Slab<K>, list: seq<int>, newKey: map<int, K>)
    requires NoDup(list) && forall i | i in list :: i in t.keyOf && i in newKey
    ensures forall x :: x in MoveAll(t, list, newKey).keyOf <==> x in t.keyOf && !Taken(Collisions(t, list, newKey), x)
    decreases |list|
  {
    hide MoveTo, Taken;
    if list == [] {
      forall x ensures !Taken(Collisions(t, list, newKey), x) { NotTaking(Collisions(t, list, newKey), x); }
    } else {
      var i, rest := list[|list| - 1], list[..|list| - 1];
      assert i in list && i !in rest && forall x | x in rest :: x in list;
      MoveToKeys(t, i, newKey[i]);
      var u := MoveTo(t, i, newKey[i]);
      MoveAllTakes(u, rest, newKey);
      var more := Collisions(u, rest, newKey);
      CollisionsOfList(u, rest, newKey);
      forall x ensures Taken(Collisions(t, list, newKey), x) <==> (Collides(t, i, newKey[i]) && x == i) || Taken(more, x) {
        if Collides(t, i, newKey[i]) { OneMorePair(t.byKey[newKey[i]], i, more, x); } else { assert [] + more == more; }
      }
      NotTaken(more, i);
    }
  }

  lemma NotTaken(pairs: seq<(int, int)>, l: int)
    requires forall p | p in pairs :: p.1 != l
    ensures !Taken(pairs, l)
  {
  }

  /** What the record loop leaves of a record. */
  lemma {:induction false} MoveRecordsKeep(s: Store, dst: int, src: int)
    requires Emptying(s, src) && dst in s.devices.keyOf && src in s.devices.keyOf && dst != src
    ensures var t := MoveRecords(s, dst, src);
            && SlotsKeyed(s) && SlotsKeyed(t)
            && forall r | r in t.records.keyOf ::
                 && r in s.records.keyOf && t.record[r] == s.record[r] && t.expiresAt[r] == s.expiresAt[r] && t.dnsDue[r] == s.dnsDue[r]
                 && t.recordOwner.owner[r] == if s.recordOwner.owner[r] == src then dst else s.recordOwner.owner[r]
    decreases (ListsThere(s); |s.recordOwner.lists[src]|)
  {
    hide InvGap, MoveRecord, SlotsKeyed;
    ListsThere(s);
    KeyedEmptying(s, src);
    MoveRecordsInv(s, dst, src);
    KeyedEmptying(MoveRecords(s, dst, src), src);
    if s.recordOwner.lists[src] != [] {
      MoveRecordStep(s, dst, src);
      MoveRecordKeeps(s, dst, src);
      MoveRecordsKeep(MoveRecord(s, dst, src), dst, src);
    } else {
      NoneOwned(s, src);
    }
  }

  lemma KeyedEmptying(s: Store, src: int)
    requires Emptying(s, src)
    ensures SlotsKeyed(s)
  {
  }

  lemma NoneOwned(s: Store, src: int)
    requires Emptying(s, src) && src in s.recordOwner.lists && s.recordOwner.lists[src] == [] && SlotsKeyed(s)
    ensures forall r | r in s.records.keyOf :: s.recordOwner.owner[r] != src
  {
    hide Sound, Partition, Complete, LinkKeysAgree, LinksTimed, IsLatest, MaximaCached;
  }

  lemma MoveRecordKeeps(s: Store, dst: int, src: int)
    requires Emptying(s, src) && dst in s.devices.keyOf && src in s.devices.keyOf && dst != src
    requires src in s.recordOwner.lists && s.recordOwner.lists[src] != []
    ensures var t := MoveRecord(s, dst, src);
            && SlotsKeyed(s) && SlotsKeyed(t)
            && forall r | r in t.records.keyOf ::
                 && r in s.records.keyOf && t.record[r] == s.record[r] && t.expiresAt[r] == s.expiresAt[r] && t.dnsDue[r] == s.dnsDue[r]
                 && (t.recordOwner.owner[r] == s.recordOwner.owner[r] || (s.recordOwner.owner[r] == src && t.recordOwner.owner[r] == dst))
  {
    hide Sound, Partition, Complete, LinkKeysAgree, LinksTimed, IsLatest, MaximaCached, Latest, MoveTo, Collides;
    MoveRecordInv(s, dst, src);
    KeyedEmptying(MoveRecord(s, dst, src), src);
    LastOwned(s.recordOwner, src);
    MoveToKeys(s.records, LastRecord(s, src), s.records.keyOf[LastRecord(s, src)].(device := dst));
  }

  /** While the index of records is complete, a record of the one device under a key the other has goes;
      the rest stay, all of them the one device's, unchanged and due when they were. */
  lemma MergeKeepsRecords(s: Store, dst: int, src: int)
    requires Inv(s) && SlotsKeyed(s) && Complete(s.records) && dst in s.devices.keyOf && src in s.devices.keyOf && dst != src
    ensures var t := MergeDevices(s, dst, src);
            && SlotsKeyed(t)
            && (forall r :: r in t.records.keyOf <==> r in s.records.keyOf && forall e :: !Twins(s, dst, src, e, r))
            && (forall r | r in t.records.keyOf ::
                  && t.record[r] == s.record[r] && t.expiresAt[r] == s.expiresAt[r] && t.dnsDue[r] == s.dnsDue[r]
                  && t.recordOwner.owner[r] == (if s.recordOwner.owner[r] == src then dst else s.recordOwner.owner[r])
                  && t.records.keyOf[r] == if s.recordOwner.owner[r] == src then s.records.keyOf[r].(device := dst) else s.records.keyOf[r])
  {
    hide InvGap, MergedInfo, MoveLinks, MoveRecords, Complete, MoveAll, Collisions, Movable, SlotsKeyed;
    ListsThere(s);
    var newKey, list := NewDNSKeys(s, dst), s.recordOwner.lists[src];
    var s0 := s.(info := s.info[dst := MergedInfo(s.info[dst], s.info[src], s.limits.alternatives)]);
    InfoInv(s, s0);
    RecordsMovable(s, dst, src);
    MoveLinksInv(s0, dst, src);
    var s1 := MoveLinks(s0, dst, src);
    EmptyingInv(s1, src);
    ListsThere(s1);
    MoveLinksRecords(s0, dst, src);
    MoveRecordsInv(s1, dst, src);
    MoveRecordsIndex(s1, dst, src, newKey);
    MoveRecordsKeep(s1, dst, src);
    MoveAllIndex(s.records, list, newKey);
    MoveAllTakes(s.records, list, newKey) by { MovableList(s.records, list, newKey); }
    CollisionsAlike(s.records, list, newKey);
    MergeDevicesInv(s, dst, src);
    var t := MergeDevices(s, dst, src);
    SlotsThere(t);
    var pairs := Collisions(s.records, list, newKey);
    SlotOwners(s);
    forall e, x ensures (e, x) in pairs <==> Twins(s, dst, src, e, x) {}
    forall r ensures Taken(pairs, r) <==> exists e :: Twins(s, dst, src, e, r) { PairsTwin(s, dst, src, pairs, r); }
  }

  lemma MovableList<K>(t: Slab<K>, list: seq<int>, newKey: map<int, K>)
    requires Movable(t, list, newKey)
    ensures NoDup(list) && forall i | i in list :: i in t.keyOf && i in newKey
  {
  }

  lemma SlotOwners(s: Store)
    requires SlotsKeyed(s)
    ensures s.recordOwner.owner.Keys == s.records.keyOf.Keys
  {
  }

  lemma PairsTwin(s: Store, dst: int, src: int, pairs: seq<(int, int)>, l: int)
    requires SlotsKeyed(s) && forall e, x :: (e, x) in pairs <==> Twins(s, dst, src, e, x)
    ensures Taken(pairs, l) <==> exists e :: Twins(s, dst, src, e, l)
  {
    hide Twins;
    if Taken(pairs, l) {
      var p :| p in pairs && p.1 == l;
      assert (p.0, l) == p;
      assert Twins(s, dst, src, p.0, l);
    }
    forall e | Twins(s, dst, src, e, l) ensures Taken(pairs, l) {
      var p := (e, l);
      assert p in pairs && p.1 == l;
    }
  }

  /** The link loop leaves records alone. */
  lemma {:induction false} MoveLinksRecords(s: Store, dst: int, src: int)
    requires Inv(s) && dst in s.devices.keyOf && src in s.devices.keyOf && dst != src
    ensures var t := MoveLinks(s, dst, src);
            t.records == s.records && t.recordOwner == s.recordOwner && t.record == s.record && t.expiresAt == s.expiresAt && t.dnsDue == s.dnsDue
    decreases (ListsThere(s); |s.linkOwner.lists[src]|)
  {
    hide InvGap, MoveTo, HandOver, Disown, MergedLink, Ticks, Collides;
    ListsThere(s);
    if s.linkOwner.lists[src] != [] {
      MoveLinkStep(s, dst, src);
      MoveLinksRecords(MoveLink(s, dst, src), dst, src);
    }
  }
}
