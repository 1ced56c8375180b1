/** What a whole LLDP, CDP or MNDP observation leaves in its device and link, and what it reports. */
module Learned {
  import opened Model
  import opened FusionTypes
  import opened Slabs
  import Text
  import opened Stores
  import opened Timing
  import opened Fusion
  import opened DNSCache
  import opened Observe
  import opened Observations
  import opened QuietRepeat

  // ---------- evidence, all of it and nothing else ----------

  /** Other evidence leaves a text alone. */
  lemma TextOnly(e: Edit, k: DeviceInfo, p: Protocol, now: Time, w: Setting, t: TextSlot)
    requires !(e.Says? && e.slot == t) && !(t.Vendor? && (e.SawMAC? || e.ClaimsMAC?))
    ensures GetText(Apply(e, k, p, now, w).0, t) == GetText(k, t)
  {
    hide Text.MergeText, MergeUptime;
  }

  /** The j-th piece of evidence is the only one that bears on its text. */
  ghost predicate OnlySaid(edits: seq<Edit>, j: int) {
    && 0 <= j < |edits| && edits[j].Says? && !edits[j].slot.Vendor?
    && forall i | 0 <= i < |edits| && i != j :: !(edits[i].Says? && edits[i].slot == edits[j].slot)
  }

  ghost predicate Unsaid(edits: seq<Edit>, t: TextSlot) { forall i | 0 <= i < |edits| :: !(edits[i].Says? && edits[i].slot == t) }

  lemma {:induction false} TextUnsaid(edits: seq<Edit>, k: DeviceInfo, p: Protocol, now: Time, w: Setting, t: TextSlot)
    requires !t.Vendor? && Unsaid(edits, t)
    ensures GetText(ApplyAll(edits, k, p, now, w).0, t) == GetText(k, t)
    decreases |edits|
  {
    hide Apply, GetText;
    if edits != [] {
      var n := |edits| - 1;
      TextUnsaid(edits[..n], k, p, now, w, t);
      TextOnly(edits[n], ApplyAll(edits[..n], k, p, now, w).0, p, now, w, t);
    }
  }

  lemma SaidText(e: Edit, k: DeviceInfo, p: Protocol, now: Time, w: Setting)
    requires e.Says?
    ensures GetText(Apply(e, k, p, now, w).0, e.slot) == Text.MergeText(GetText(k, e.slot), e.text, {p}, e.confidence, now, w.alternatives).0
    ensures Apply(e, k, p, now, w).1 == if Text.MergeText(GetText(k, e.slot), e.text, {p}, e.confidence, now, w.alternatives).1 then {e.field} else {}
  {
    hide Text.MergeText;
  }

  /** A text spoken of once is merged into what the device had before the message. */
  lemma {:induction false} TextTaken(edits: seq<Edit>, j: int, k: DeviceInfo, p: Protocol, now: Time, w: Setting)
    requires OnlySaid(edits, j)
    ensures GetText(ApplyAll(edits, k, p, now, w).0, edits[j].slot)
            == Text.MergeText(GetText(k, edits[j].slot), edits[j].text, {p}, edits[j].confidence, now, w.alternatives).0
    decreases |edits|
  {
    hide Apply, GetText, Text.MergeText;
    var n := |edits| - 1;
    var r := ApplyAll(edits[..n], k, p, now, w).0;
    if j == n {
      TextUnsaid(edits[..n], k, p, now, w, edits[j].slot);
      SaidText(edits[n], r, p, now, w);
    } else {
      TextTaken(edits[..n], j, k, p, now, w);
      TextOnly(edits[n], r, p, now, w, edits[j].slot);
    }
  }

  /** MACs, addresses, capabilities and protocols after a message: what there was and what it says. */
  ghost predicate Gained(r: DeviceInfo, k: DeviceInfo, edits: seq<Edit>, p: Protocol) {
    && k.observedMACs <= r.observedMACs && k.claimedMACs <= r.claimedMACs && k.addresses <= r.addresses
    && (forall m :: m in r.observedMACs <==> m in k.observedMACs || SawMAC(m) in edits)
    && (forall m :: m in r.claimedMACs <==> m in k.claimedMACs || ClaimsMAC(m) in edits)
    && (forall a :: a in r.addresses <==> a in k.addresses || NamesAddress(edits, a))
    && (forall c :: c in r.capabilities <==> c in k.capabilities || CanDoes(edits, c))
    && (forall q :: q in r.protocols <==> q in k.protocols || (q == p && Speaks in edits))
    && r.matched == k.matched && r.firstSeen == k.firstSeen && r.lastSeen == k.lastSeen
  }

  ghost predicate NamesAddress(edits: seq<Edit>, a: Addr) { exists b :: HasAddress(b) in edits && b != NoAddr && Unmap(b) == a }

  ghost predicate CanDoes(edits: seq<Edit>, c: nat) { exists s :: CanDo(s) in edits && c in s }

  lemma {:induction false} AllGained(edits: seq<Edit>, k: DeviceInfo, p: Protocol, now: Time, w: Setting)
    ensures Gained(ApplyAll(edits, k, p, now, w).0, k, edits, p)
    decreases |edits|
  {
    hide Apply;
    if edits != [] {
      var n := |edits| - 1;
      var r := ApplyAll(edits[..n], k, p, now, w).0;
      AllGained(edits[..n], k, p, now, w);
      OneGained(edits[n], r, p, now, w);
      assert edits == edits[..n] + [edits[n]];
      OneMore(edits[..n], edits[n], Apply(edits[n], r, p, now, w).0, r, k, p);
    } else {
      NoneGained(k, p);
    }
  }

  lemma NoneGained(k: DeviceInfo, p: Protocol)
    ensures Gained(k, k, [], p)
  {
  }

  /** What one piece of evidence adds. */
  ghost predicate GainedOne(r: DeviceInfo, k: DeviceInfo, e: Edit, p: Protocol) {
    && k.observedMACs <= r.observedMACs && k.claimedMACs <= r.claimedMACs && k.addresses <= r.addresses
    && (forall m :: m in r.observedMACs <==> m in k.observedMACs || e == SawMAC(m))
    && (forall m :: m in r.claimedMACs <==> m in k.claimedMACs || e == ClaimsMAC(m))
    && (forall a :: a in r.addresses <==> a in k.addresses || (e.HasAddress? && e.address != NoAddr && Unmap(e.address) == a))
    && (forall c :: c in r.capabilities <==> c in k.capabilities || (e.CanDo? && c in e.capabilities))
    && (forall q :: q in r.protocols <==> q in k.protocols || (q == p && e.Speaks?))
    && r.matched == k.matched && r.firstSeen == k.firstSeen && r.lastSeen == k.lastSeen
  }

  lemma OneGained(e: Edit, k: DeviceInfo, p: Protocol, now: Time, w: Setting)
    ensures GainedOne(Apply(e, k, p, now, w).0, k, e, p)
  {
    hide Text.MergeText, MergeUptime;
  }

  lemma OneMore(edits: seq<Edit>, e: Edit, r: DeviceInfo, q: DeviceInfo, k: DeviceInfo, p: Protocol)
    requires Gained(q, k, edits, p) && GainedOne(r, q, e, p)
    ensures Gained(r, k, edits + [e], p)
  {
    var all := edits + [e];
    assert forall x :: x in all <==> x in edits || x == e;
    forall a ensures NamesAddress(all, a) <==> NamesAddress(edits, a) || (e.HasAddress? && e.address != NoAddr && Unmap(e.address) == a) {
      if e.HasAddress? && e.address != NoAddr && Unmap(e.address) == a { assert HasAddress(e.address) in all; }
    }
    forall c ensures CanDoes(all, c) <==> CanDoes(edits, c) || (e.CanDo? && c in e.capabilities) {
      if e.CanDo? && c in e.capabilities { assert CanDo(e.capabilities) in all; }
    }
  }

  // ---------- which fields changed ----------

  /** What a text is reported as. */
  predicate FieldNamed(e: Edit) {
    e.Says? ==> match e.slot
      case SystemName => e.field == FieldNames
      case HostName => e.field == FieldNames
      case DeviceID => e.field == FieldNames
      case Vendor => e.field == FieldVendor
      case ModelName => e.field == FieldModel
      case Platform => e.field == FieldPlatform
      case Software => e.field == FieldSoftware
  }

  /** Fields reported for MACs, protocols, addresses and capabilities are those that differ. */
  ghost predicate Differs(changed: set<Field>, k: DeviceInfo, r: DeviceInfo) {
    && (FieldIdentity in changed <==> r.observedMACs != k.observedMACs || r.claimedMACs != k.claimedMACs || r.protocols != k.protocols)
    && (FieldAddresses in changed <==> r.addresses != k.addresses)
    && (FieldCapabilities in changed <==> r.capabilities != k.capabilities)
    && FieldServices !in changed && FieldLink !in changed && FieldClassification !in changed
  }

  lemma OneDiffers(e: Edit, k: DeviceInfo, p: Protocol, now: Time, w: Setting)
    requires FieldNamed(e)
    ensures Differs(Apply(e, k, p, now, w).1, k, Apply(e, k, p, now, w).0)
  {
    hide Text.MergeText, MergeUptime;
    match e {
      case SawMAC(m) => if m !in k.observedMACs { assert |k.observedMACs + [m]| != |k.observedMACs|; }
      case ClaimsMAC(m) => if m !in k.claimedMACs { assert |k.claimedMACs + [m]| != |k.claimedMACs|; }
      case HasAddress(a) => if a != NoAddr && Unmap(a) !in k.addresses { assert |k.addresses + [Unmap(a)]| != |k.addresses|; }
      case CanDo(c) => if !(c <= k.capabilities) { var x :| x in c && x !in k.capabilities; assert x in k.capabilities + c; }
      case Speaks => if p !in k.protocols { assert p in k.protocols + {p}; }
      case _ =>
    }
  }

  lemma {:induction false} AllDiffer(edits: seq<Edit>, k: DeviceInfo, p: Protocol, now: Time, w: Setting)
    requires forall i | 0 <= i < |edits| :: FieldNamed(edits[i])
    ensures Differs(ApplyAll(edits, k, p, now, w).1, k, ApplyAll(edits, k, p, now, w).0)
    decreases |edits|
  {
    hide Apply, FieldNamed;
    if edits != [] {
      var n := |edits| - 1;
      var r := ApplyAll(edits[..n], k, p, now, w);
      AllDiffer(edits[..n], k, p, now, w);
      OneDiffers(edits[n], r.0, p, now, w);
      AllGained(edits[..n], k, p, now, w);
      OneGained(edits[n], r.0, p, now, w);
      DifferTwice(r.1, Apply(edits[n], r.0, p, now, w).1, k, r.0, Apply(edits[n], r.0, p, now, w).0, edits[..n], edits[n], p);
    }
  }

  /** What grows does not go back. */
  lemma DifferTwice(a: set<Field>, b: set<Field>, k: DeviceInfo, r: DeviceInfo, q: DeviceInfo, edits: seq<Edit>, e: Edit, p: Protocol)
    requires Differs(a, k, r) && Differs(b, r, q) && Gained(r, k, edits, p) && GainedOne(q, r, e, p)
    ensures Differs(a + b, k, q)
  {
    assert k.capabilities <= r.capabilities <= q.capabilities && k.protocols <= r.protocols <= q.protocols;
  }

  // ---------- the link ----------

  /** The link an observation of device d ends on: under its own key; otherwise the first of d's on the
      interface that is of the other kind; otherwise a new one. */
  ghost predicate LinkOf(s: Store, meta: Meta, d: int, kind: LinkKind, l: int)
    requires d in s.devices.keyOf && d in s.linkOwner.lists
  {
    var key := LinkKey(meta.iface, meta.sourceMAC, s.devices.keyOf[d]);
    if key in s.links.byKey then l == s.links.byKey[key]
    else if exists i :: Joins(s, meta.iface, d, kind, i) then exists i :: FirstJoins(s, meta.iface, d, kind, i) && l == s.linkOwner.lists[d][i]
    else l !in s.links.keyOf || (s.links.free == [] && l in s.link && forall x | x in s.link :: s.link[l].lastSeen <= s.link[x].lastSeen)
  }

  ghost predicate Joins(s: Store, iface: int, d: int, kind: LinkKind, i: int)
    requires d in s.linkOwner.lists
  {
    && 0 <= i < |s.linkOwner.lists[d]|
    && var l := s.linkOwner.lists[d][i]; l in s.link && l in s.links.keyOf && s.links.keyOf[l].iface == iface && s.link[l].kind != kind
  }

  ghost predicate FirstJoins(s: Store, iface: int, d: int, kind: LinkKind, i: int)
    requires d in s.linkOwner.lists
  {
    Joins(s, iface, d, kind, i) && forall j | 0 <= j < i :: !Joins(s, iface, d, kind, j)
  }

  /** The observation falls on no link there is. */
  ghost predicate NoLink(s: Store, meta: Meta, d: int, kind: LinkKind)
    requires d in s.devices.keyOf && d in s.linkOwner.lists
  {
    LinkKey(meta.iface, meta.sourceMAC, s.devices.keyOf[d]) !in s.links.byKey && forall i :: !Joins(s, meta.iface, d, kind, i)
  }

  lemma {:induction false} ScanFirst(s: Store, list: seq<int>, iface: int, kind: LinkKind)
    requires -1 !in list
    ensures var l := FirstOfKind(s, list, iface, kind);
            if l == -1 then forall i | 0 <= i < |list| :: !(list[i] in s.link && list[i] in s.links.keyOf && s.links.keyOf[list[i]].iface == iface && s.link[list[i]].kind == kind)
            else exists i :: 0 <= i < |list| && l == list[i] && list[i] in s.link && list[i] in s.links.keyOf && s.links.keyOf[list[i]].iface == iface && s.link[list[i]].kind == kind
                   && forall j | 0 <= j < i :: !(list[j] in s.link && list[j] in s.links.keyOf && s.links.keyOf[list[j]].iface == iface && s.link[list[j]].kind == kind)
    decreases |list|
  {
    if list != [] {
      ScanFirst(s, list[1..], iface, kind);
      assert forall i | 0 < i < |list| :: list[i] == list[1..][i - 1];
    }
  }

  /** A link before it is first refreshed. */
  predicate BlankLink(k: LinkInfo, meta: Meta, kind: LinkKind) {
    && k.kind == kind && k.localInterface == meta.interfaceName && k.observedSource == meta.sourceMAC
    && k.remoteChassis.value == [] && k.remotePort.value == [] && k.remoteInterface.values == []
    && k.vlans == [] && k.protocols == {} && k.expires == NO_DEADLINES && k.firstSeen == meta.timestamp && k.lastSeen == meta.timestamp
  }

  /** r is link k after an observation: one more protocol with its deadline, the observed VLANs, physical if
      that is how it is observed, seen now if not later, and otherwise as it was. */
  ghost predicate Sighted(r: LinkInfo, k: LinkInfo, meta: Meta, kind: LinkKind, ttl: int) {
    && (forall p :: p in r.protocols <==> p in k.protocols || p == meta.protocol)
    && (forall p :: r.expires.Get(p) == if p == meta.protocol then meta.timestamp + (if ttl <= 0 then SECOND else ttl) else k.expires.Get(p))
    && (r.kind == PhysicalAdjacency <==> k.kind == PhysicalAdjacency || kind == PhysicalAdjacency)
    && k.vlans <= r.vlans && (forall v :: v in r.vlans <==> v in k.vlans || v in meta.vlans)
    && k.lastSeen <= r.lastSeen && meta.timestamp <= r.lastSeen && r.lastSeen in {k.lastSeen, meta.timestamp} && r.firstSeen == k.firstSeen
    && r.remoteChassis == k.remoteChassis && r.remotePort == k.remotePort && r.remoteInterface == k.remoteInterface
    && r.localInterface == k.localInterface && r.ttl == (if ttl <= 0 then SECOND else ttl)
  }

  lemma RefreshedSighted(k: LinkInfo, meta: Meta, kind: LinkKind, ttl: int)
    ensures Sighted(Refreshed(k, meta, kind, ttl), k, meta, kind, ttl)
    ensures Refreshed(k, meta, kind, ttl).device == k.device && Refreshed(k, meta, kind, ttl).observedSource == k.observedSource
    ensures RefreshChanges(k, meta, kind) <==> var r := Refreshed(k, meta, kind, ttl); r.kind != k.kind || r.protocols != k.protocols || r.vlans != k.vlans
  {
    AppendAllIn(k.vlans, meta.vlans);
    VLANsFirst(k.vlans, meta.vlans);
    var r := Refreshed(k, meta, kind, ttl);
    assert r.protocols != k.protocols <==> meta.protocol !in k.protocols by { assert meta.protocol in r.protocols; }
  }

  lemma {:induction false} VLANsFirst(list: seq<nat>, more: seq<nat>)
    ensures list <= AppendAll(list, more)
    ensures (forall v | v in more :: v in list) ==> AppendAll(list, more) == list
    decreases |more|
  {
    if more != [] {
      VLANsFirst(AppendUnique(list, more[0]), more[1..]);
      assert forall v | v in more[1..] :: v in more;
    }
  }

  /** The other links are there as they were. */
  ghost predicate OtherLinks(s: Store, t: Store, l: int) {
    forall x | x != l :: (x in t.link <==> x in s.link) && (x in s.link ==> t.link[x] == s.link[x])
  }

  /** What an observation of device d leaves of the links, l the one it ends on. */
  ghost predicate LinkLeft(s: Store, t: Store, meta: Meta, d: int, kind: LinkKind, ttl: int, l: int)
    requires d in s.devices.keyOf && d in s.linkOwner.lists
  {
    var key := LinkKey(meta.iface, meta.sourceMAC, s.devices.keyOf[d]);
    && LinkOf(s, meta, d, kind, l) && OtherLinks(s, t, l)
    && l in t.link && l in t.links.keyOf && l in t.linkOwner.owner && t.linkOwner.owner[l] == d && t.links.keyOf[l].iface == meta.iface
    && l in t.linkDue && t.linkDue[l] == Ticks(t.link[l].expiresAt - meta.timestamp)
    && (kind == PhysicalAdjacency || NoLink(s, meta, d, kind) || key in s.links.byKey ==> t.links.keyOf[l] == key)
    && (if NoLink(s, meta, d, kind) then exists k :: BlankLink(k, meta, kind) && Sighted(t.link[l], k, meta, kind, ttl)
        else l in s.link && Sighted(t.link[l], s.link[l], meta, kind, ttl))
    && t.link[l].observedSource == (if NoLink(s, meta, d, kind) || (kind == PhysicalAdjacency && key !in s.links.byKey) then meta.sourceMAC else s.link[l].observedSource)
  }

  lemma UpsertLeaves(s: Store, meta: Meta, d: int, kind: LinkKind, ttl: int)
    requires Inv(s) && d in s.devices.keyOf
    ensures d in s.linkOwner.lists
    ensures var u := UpsertLink(s, meta, d, kind, ttl);
            && LinkLeft(s, u.store, meta, d, kind, ttl, u.link)
            && (u.added <==> NoLink(s, meta, d, kind))
            && (u.changed <==> NoLink(s, meta, d, kind) || (u.link in s.link && var r, k := u.store.link[u.link], s.link[u.link]; r.kind != k.kind || r.protocols != k.protocols || r.vlans != k.vlans))
  {
    hide InvGap, RefreshLink, PromoteLink, AllocLink, AddLink, Refreshed, RefreshChanges, Sighted, FirstOfKind;
    ListsThere(s);
    LinkForThere(s, meta, d, kind);
    FoundLink(s, meta, d, kind);
    var key, l := KeyFor(s, meta, d), LinkFor(s, meta, d, kind);
    if key in s.links.byKey || (l != -1 && !kind.PhysicalAdjacency?) {
      RefreshLeaves(s, meta, d, kind, ttl, l);
    } else if l != -1 {
      PromoteLeaves(s, meta, d, ttl, l);
    } else {
      AddLeaves(s, meta, d, kind, ttl);
    }
  }

  lemma FoundLink(s: Store, meta: Meta, d: int, kind: LinkKind)
    requires Inv(s) && d in s.devices.keyOf && d in s.linkOwner.lists
    ensures LinkFor(s, meta, d, kind) == -1 <==> NoLink(s, meta, d, kind)
    ensures LinkFor(s, meta, d, kind) != -1 ==> LinkOf(s, meta, d, kind, LinkFor(s, meta, d, kind))
    ensures LinkFor(s, meta, d, kind) != -1 && KeyFor(s, meta, d) !in s.links.byKey ==> var l := LinkFor(s, meta, d, kind);
              l in s.link && l in s.links.keyOf && s.links.keyOf[l].iface == meta.iface && s.link[l].kind != kind
  {
    hide InvGap, FirstOfKind;
    LinkForThere(s, meta, d, kind);
    var other := if kind.PhysicalAdjacency? then SegmentPresence else PhysicalAdjacency;
    NoMinus(s, d);
    ScanFirst(s, s.linkOwner.lists[d], meta.iface, other);
    assert forall i :: Joins(s, meta.iface, d, kind, i) <==> 0 <= i < |s.linkOwner.lists[d]| && var l := s.linkOwner.lists[d][i];
      l in s.link && l in s.links.keyOf && s.links.keyOf[l].iface == meta.iface && s.link[l].kind == other;
    if KeyFor(s, meta, d) !in s.links.byKey && LinkFor(s, meta, d, kind) != -1 {
      var l := LinkFor(s, meta, d, kind);
      var i :| 0 <= i < |s.linkOwner.lists[d]| && l == s.linkOwner.lists[d][i] && Joins(s, meta.iface, d, kind, i) && forall j | 0 <= j < i :: !Joins(s, meta.iface, d, kind, j);
      assert FirstJoins(s, meta.iface, d, kind, i);
    }
  }

  lemma NoMinus(s: Store, d: int)
    requires Inv(s) && d in s.linkOwner.lists
    ensures -1 !in s.linkOwner.lists[d]
  {
    hide Complete, MaximaCached, RecordKeysAgree, LinkKeysAgree, LinksTimed;
    OwnedList(s.linkOwner, d);
  }

  lemma RefreshLeaves(s: Store, meta: Meta, d: int, kind: LinkKind, ttl: int, l: int)
    requires Inv(s) && d in s.devices.keyOf && d in s.linkOwner.lists && l != -1 && l == LinkFor(s, meta, d, kind)
    requires KeyFor(s, meta, d) in s.links.byKey || !kind.PhysicalAdjacency?
    ensures l in s.link && LinkLeft(s, RefreshLink(s, l, meta, kind, ttl), meta, d, kind, ttl, l)
    ensures RefreshChanges(s.link[l], meta, kind) <==> var r, k := RefreshLink(s, l, meta, kind, ttl).link[l], s.link[l]; r.kind != k.kind || r.protocols != k.protocols || r.vlans != k.vlans
  {
    hide InvGap, Refreshed, RefreshChanges, Sighted, FirstOfKind, LinkOf, Ticks;
    LinkForThere(s, meta, d, kind);
    FoundLink(s, meta, d, kind);
    RefreshedSighted(s.link[l], meta, kind, ttl);
    if KeyFor(s, meta, d) in s.links.byKey { KeyOwner(s, meta, d); }
  }

  lemma PromoteLeaves(s: Store, meta: Meta, d: int, ttl: int, l: int)
    requires Inv(s) && d in s.devices.keyOf && d in s.linkOwner.lists && l != -1 && l == LinkFor(s, meta, d, PhysicalAdjacency) && KeyFor(s, meta, d) !in s.links.byKey
    ensures l in s.link && l in s.links.keyOf
    ensures var t := PromoteLink(s, l, KeyFor(s, meta, d), meta);
            && l in t.link && LinkLeft(s, RefreshLink(t, l, meta, PhysicalAdjacency, ttl), meta, d, PhysicalAdjacency, ttl, l)
            && RefreshLink(t, l, meta, PhysicalAdjacency, ttl).link[l].kind != s.link[l].kind
  {
    hide InvGap, Refreshed, RefreshChanges, FirstOfKind, LinkOf, Ticks;
    LinkForThere(s, meta, d, PhysicalAdjacency);
    FoundLink(s, meta, d, PhysicalAdjacency);
    RefreshedSighted(PromoteLink(s, l, KeyFor(s, meta, d), meta).link[l], meta, PhysicalAdjacency, ttl);
  }

  /** A slot allocated is a free one, or that of the least recently seen link, which alone is gone. */
  lemma SlotLeft(s: Store)
    requires Inv(s)
    ensures var a := AllocLink(s);
            && OtherLinks(s, a.0, a.1) && a.1 !in a.0.link
            && (a.1 !in s.links.keyOf || (s.links.free == [] && a.1 in s.link && forall x | x in s.link :: s.link[a.1].lastSeen <= s.link[x].lastSeen))
  {
    hide InvGap, AllocLink;
    AllocLinkInv(s);
    AllocLinkVictim(s);
    LinksThere(s);
    AllocLinkKeyed(s);
  }

  lemma AllocLinkKeyed(s: Store)
    requires Inv(s)
    ensures AllocLink(s).0.link.Keys == AllocLink(s).0.links.keyOf.Keys
  {
    hide InvGap, Disown, Oldest;
    LinksThere(s);
    if s.links.free == [] {
      AllocLinkStep(s);
      RemoveLinkKeyed(s, Oldest(LinksSeen(s), s.limits.links));
    }
  }

  lemma RemoveLinkKeyed(s: Store, l: int)
    requires Inv(s)
    ensures RemoveLink(s, l, Evicted).link.Keys == RemoveLink(s, l, Evicted).links.keyOf.Keys
  {
    hide InvGap, Disown;
    RemoveLinkInv(s, l, Evicted, WHOLE);
    LinksThere(RemoveLink(s, l, Evicted));
  }

  lemma AddLeaves(s: Store, meta: Meta, d: int, kind: LinkKind, ttl: int)
    requires Inv(s) && d in s.devices.keyOf && d in s.linkOwner.lists && NoLink(s, meta, d, kind)
    ensures var a := AllocLink(s);
            d in a.0.linkOwner.lists && LinkLeft(s, AddLink(a.0, a.1, d, KeyFor(s, meta, d), meta, kind, ttl), meta, d, kind, ttl, a.1)
  {
    hide InvGap, Refreshed, FirstOfKind, Ticks, Joins, FirstJoins, Sighted, AllocLink, Own, Insert, AddLink, NewLink, BlankLink;
    AllocLinkInv(s);
    SlotLeft(s);
    var a := AllocLink(s);
    ListsOf(a.0, WHOLE.(link := {a.1}));
    var key := KeyFor(s, meta, d);
    AddLinkShape(a.0, a.1, d, key, meta, kind, ttl);
    NewSlot(a.0.links, a.1, key);
    NewOwned(a.0.linkOwner, a.1, d);
    var k := NewLink(meta, kind, key.device);
    NewIsBlank(meta, kind, key.device);
    RefreshedSighted(k, meta, kind, ttl);
  }

  lemma NewIsBlank(meta: Meta, kind: LinkKind, device: DeviceKey)
    ensures BlankLink(NewLink(meta, kind, device), meta, kind)
  {
  }

  // ---------- evidence about the link ----------

  predicate AboutChassis(e: LinkEdit) { e.Chassis? || e.ChassisValue? }

  predicate AboutPort(e: LinkEdit) { e.Port? || e.PortValue? }

  /** r says of the far end what e says. */
  predicate Agrees(r: LinkInfo, e: LinkEdit) {
    match e
    case Chassis(id) => r.remoteChassis == id
    case ChassisValue(v) => v == [] || r.remoteChassis.value == v
    case Port(id) => r.remotePort == id
    case PortValue(v) => v == [] || r.remotePort.value == v
    case Interface(_) => true
    case OnVLAN(v) => v in r.vlans
  }

  /** An identifier given by its value alone: locally assigned, which is subtype 7, if the value is another. */
  predicate IdentifiedBy(r: Identifier, k: Identifier, v: seq<Byte>) {
    if v == [] || v == k.value then r == k else r == Identifier(7, v)
  }

  /** What e says by value alone. */
  predicate ByValue(r: LinkInfo, k: LinkInfo, e: LinkEdit) {
    (e.ChassisValue? ==> IdentifiedBy(r.remoteChassis, k.remoteChassis, e.chassis)) && (e.PortValue? ==> IdentifiedBy(r.remotePort, k.remotePort, e.value))
  }

  /** r is link k with all that a message says of it, and nothing else. */
  ghost predicate Told(r: LinkInfo, k: LinkInfo, edits: seq<LinkEdit>) {
    && r == k.(remoteChassis := r.remoteChassis, remotePort := r.remotePort, remoteInterface := r.remoteInterface, vlans := r.vlans)
    && (forall i | 0 <= i < |edits| :: Agrees(r, edits[i]) && ByValue(r, k, edits[i]))
    && k.vlans <= r.vlans && (forall v :: v in r.vlans <==> v in k.vlans || OnVLAN(v) in edits)
    && ((forall v :: OnVLAN(v) in edits ==> v in k.vlans) ==> r.vlans == k.vlans)
    && ((forall i | 0 <= i < |edits| :: !AboutChassis(edits[i])) ==> r.remoteChassis == k.remoteChassis)
    && ((forall i | 0 <= i < |edits| :: !AboutPort(edits[i])) ==> r.remotePort == k.remotePort)
    && ((forall i | 0 <= i < |edits| :: !edits[i].Interface?) ==> r.remoteInterface == k.remoteInterface)
  }

  lemma {:induction false} AllTold(edits: seq<LinkEdit>, k: LinkInfo, p: Protocol, now: Time, w: Setting)
    requires LinkDistinct(edits)
    ensures Told(ApplyLinkAll(edits, k, p, now, w).0, k, edits)
    decreases |edits|
  {
    hide ApplyLink, Told, SameLinkTarget;
    if edits != [] {
      var n := |edits| - 1;
      var r := ApplyLinkAll(edits[..n], k, p, now, w).0;
      AllTold(edits[..n], k, p, now, w);
      OneTold(edits[..n], edits[n], r, k, p, now, w) by { forall i | 0 <= i < n ensures !SameLinkTarget(edits[..n][i], edits[n]) { assert edits[..n][i] == edits[i]; } }
      assert edits == edits[..n] + [edits[n]];
    } else {
      NoneTold(k);
    }
  }

  lemma NoneTold(k: LinkInfo)
    ensures Told(k, k, [])
  {
  }

  lemma OneTold(edits: seq<LinkEdit>, e: LinkEdit, r: LinkInfo, k: LinkInfo, p: Protocol, now: Time, w: Setting)
    requires Told(r, k, edits) && forall i | 0 <= i < |edits| :: !SameLinkTarget(edits[i], e)
    ensures Told(ApplyLink(e, r, p, now, w).0, k, edits + [e])
  {
    hide Text.MergeText;
    var q, all := ApplyLink(e, r, p, now, w).0, edits + [e];
    assert all[|edits|] == e && forall x :: x in all <==> x in edits || x == e;
    forall i | 0 <= i < |all| ensures Agrees(q, all[i]) && ByValue(q, k, all[i]) {
      if i < |edits| { assert all[i] == edits[i] && Agrees(r, edits[i]) && ByValue(r, k, edits[i]) && !SameLinkTarget(edits[i], e); }
    }
    forall i | 0 <= i < |edits| ensures edits[i] == all[i] {}
  }

  /** The name of the far interface is merged into what the link had. */
  lemma {:induction false} InterfaceTaken(edits: seq<LinkEdit>, j: int, k: LinkInfo, p: Protocol, now: Time, w: Setting)
    requires LinkDistinct(edits) && 0 <= j < |edits| && edits[j].Interface?
    ensures ApplyLinkAll(edits, k, p, now, w).0.remoteInterface == Text.MergeText(k.remoteInterface, edits[j].name, {p}, 3, now, w.alternatives).0
    decreases |edits|
  {
    hide Text.MergeText, Told;
    var n := |edits| - 1;
    if j == n {
      AllTold(edits[..n], k, p, now, w);
      forall i | 0 <= i < n ensures !edits[..n][i].Interface? { assert !SameLinkTarget(edits[i], edits[n]); }
      InterfaceKept(ApplyLinkAll(edits[..n], k, p, now, w).0, k, edits[..n]);
    } else {
      InterfaceTaken(edits[..n], j, k, p, now, w);
      assert !SameLinkTarget(edits[j], edits[n]);
    }
  }

  lemma InterfaceKept(r: LinkInfo, k: LinkInfo, edits: seq<LinkEdit>)
    requires Told(r, k, edits) && forall i | 0 <= i < |edits| :: !edits[i].Interface?
    ensures r.remoteInterface == k.remoteInterface
  {
  }

  /** The link's text is news. */
  ghost predicate NamesInterface(edits: seq<LinkEdit>, k: LinkInfo, p: Protocol, now: Time, w: Setting) {
    exists i :: 0 <= i < |edits| && edits[i].Interface? && Text.MergeText(k.remoteInterface, edits[i].name, {p}, 3, now, w.alternatives).1
  }

  /** A message is news about a link exactly if it changes its identifiers or VLANs, or the name is news. */
  lemma {:induction false} ToldNews(edits: seq<LinkEdit>, k: LinkInfo, p: Protocol, now: Time, w: Setting)
    requires LinkDistinct(edits)
    ensures var a := ApplyLinkAll(edits, k, p, now, w);
            a.1 <==> a.0.remoteChassis != k.remoteChassis || a.0.remotePort != k.remotePort || a.0.vlans != k.vlans || NamesInterface(edits, k, p, now, w)
    decreases |edits|
  {
    hide Text.MergeText, Told, SameLinkTarget;
    if edits != [] {
      var n := |edits| - 1;
      var r := ApplyLinkAll(edits[..n], k, p, now, w);
      ToldNews(edits[..n], k, p, now, w);
      AllTold(edits[..n], k, p, now, w);
      OneNews(edits[..n], edits[n], r.0, k, p, now, w) by { forall i | 0 <= i < n ensures !SameLinkTarget(edits[..n][i], edits[n]) { assert edits[..n][i] == edits[i]; } }
      assert edits == edits[..n] + [edits[n]];
    }
  }

  lemma OneNews(edits: seq<LinkEdit>, e: LinkEdit, r: LinkInfo, k: LinkInfo, p: Protocol, now: Time, w: Setting)
    requires Told(r, k, edits) && forall i | 0 <= i < |edits| :: !SameLinkTarget(edits[i], e)
    ensures var q, news := ApplyLink(e, r, p, now, w).0, ApplyLink(e, r, p, now, w).1;
            (q.remoteChassis != k.remoteChassis || q.remotePort != k.remotePort || q.vlans != k.vlans || NamesInterface(edits + [e], k, p, now, w))
            <==> (r.remoteChassis != k.remoteChassis || r.remotePort != k.remotePort || r.vlans != k.vlans || NamesInterface(edits, k, p, now, w)) || news
  {
    hide Text.MergeText;
    var q, all := ApplyLink(e, r, p, now, w).0, edits + [e];
    assert all[|edits|] == e;
    forall i | 0 <= i < |edits| ensures all[i] == edits[i] && !SameLinkTarget(edits[i], e) {}
    NamesOneMore(edits, e, k, p, now, w);
    match e {
      case OnVLAN(v) => if v !in r.vlans { assert |r.vlans + [v]| > |r.vlans| >= |k.vlans|; }
      case Interface(_) => InterfaceKept(r, k, edits);
      case Chassis(_) =>
      case ChassisValue(_) =>
      case Port(_) =>
      case PortValue(_) =>
    }
  }

  lemma NamesOneMore(edits: seq<LinkEdit>, e: LinkEdit, k: LinkInfo, p: Protocol, now: Time, w: Setting)
    ensures NamesInterface(edits + [e], k, p, now, w)
            <==> NamesInterface(edits, k, p, now, w) || (e.Interface? && Text.MergeText(k.remoteInterface, e.name, {p}, 3, now, w.alternatives).1)
  {
    hide Text.MergeText;
    var all := edits + [e];
    assert all[|edits|] == e;
    forall i | 0 <= i < |edits| ensures all[i] == edits[i] {}
  }

  // ---------- uptime and vendor ----------

  /** An uptime announced replaces the one known; none leaves it. */
  ghost predicate UptimeLeft(r: Uptime, k: Uptime, edits: seq<Edit>, p: Protocol, now: Time) {
    && (forall i | 0 <= i < |edits| && edits[i].UpFor? :: r == Uptime(edits[i].seconds, now, (if k.valid then k.protocols else {}) + {p}, true))
    && ((forall i | 0 <= i < |edits| :: !edits[i].UpFor?) ==> r == k)
  }

  /** It is news if none was known, if it is more than five seconds off, or from another protocol. */
  ghost predicate UptimeNews(k: Uptime, edits: seq<Edit>, p: Protocol, now: Time) {
    exists i :: 0 <= i < |edits| && edits[i].UpFor? && UptimeIsNews(k, edits[i].seconds, p, now)
  }

  predicate UptimeIsNews(k: Uptime, seconds: nat, p: Protocol, now: Time) {
    !k.valid || p !in k.protocols || !Predicted(k.seconds, seconds, k.observedAt, now)
  }

  lemma {:induction false} UptimeLeaves(edits: seq<Edit>, k: DeviceInfo, p: Protocol, now: Time, w: Setting)
    requires Distinct(edits)
    ensures var a := ApplyAll(edits, k, p, now, w);
            && UptimeLeft(a.0.uptime, k.uptime, edits, p, now)
            && ((forall i | 0 <= i < |edits| :: FieldNamed(edits[i])) ==> (FieldUptime in a.1 <==> UptimeNews(k.uptime, edits, p, now)))
    decreases |edits|
  {
    hide Apply, FieldNamed, UptimeIsNews, SameTarget;
    if edits != [] {
      var n := |edits| - 1;
      var r := ApplyAll(edits[..n], k, p, now, w);
      UptimeLeaves(edits[..n], k, p, now, w);
      OneUptime(edits[n], r.0, p, now, w);
      forall i | 0 <= i < n && edits[n].UpFor? ensures !edits[..n][i].UpFor? { assert !SameTarget(edits[i], edits[n]); TwoUptimes(edits[i], edits[n]); }
      forall i | 0 <= i < n ensures edits[..n][i] == edits[i] {}
    }
  }

  lemma TwoUptimes(e: Edit, f: Edit)
    requires !SameTarget(e, f) && f.UpFor?
    ensures !e.UpFor?
  {
  }

  lemma OneUptime(e: Edit, k: DeviceInfo, p: Protocol, now: Time, w: Setting)
    ensures var a := Apply(e, k, p, now, w);
            && a.0.uptime == (if e.UpFor? then Uptime(e.seconds, now, (if k.uptime.valid then k.uptime.protocols else {}) + {p}, true) else k.uptime)
            && (FieldNamed(e) ==> (FieldUptime in a.1 <==> e.UpFor? && UptimeIsNews(k.uptime, e.seconds, p, now)))
  {
    hide Text.MergeText;
  }

  /** The evidence starts with the MAC seen and the MAC claimed, if any; no other says of MACs or the vendor. */
  ghost predicate MACsFirst(edits: seq<Edit>, saw: seq<MAC>, claims: seq<MAC>) {
    && |saw| <= 1 && |claims| <= 1 && |saw| + |claims| <= |edits|
    && (forall i | 0 <= i < |saw| :: edits[i] == SawMAC(saw[i])) && (forall i | 0 <= i < |claims| :: edits[|saw| + i] == ClaimsMAC(claims[i]))
    && forall i | |saw| + |claims| <= i < |edits| :: VendorAside(edits[i])
  }

  predicate VendorAside(e: Edit) { !e.SawMAC? && !e.ClaimsMAC? && !(e.Says? && (e.slot.Vendor? || e.field == FieldVendor)) }

  /** A MAC not seen before names its vendor, with confidence 3; then one not claimed before, with 2. */
  ghost predicate VendorLeft(r: TextField, k: DeviceInfo, saw: seq<MAC>, claims: seq<MAC>, w: World, p: Protocol, now: Time, max: nat) {
    exists v :: VendorBy(v, k.vendor, saw, k.observedMACs, 3, w, p, now, max) && VendorBy(r, v, claims, k.claimedMACs, 2, w, p, now, max)
  }

  ghost predicate VendorBy(r: TextField, k: TextField, macs: seq<MAC>, known: seq<MAC>, confidence: nat, w: World, p: Protocol, now: Time, max: nat) {
    r == if |macs| == 1 && macs[0] !in known then Text.MergeText(k, w.vendor(macs[0]), {p}, confidence, now, max).0 else k
  }

  ghost predicate VendorNews(k: DeviceInfo, saw: seq<MAC>, claims: seq<MAC>, w: World, p: Protocol, now: Time, max: nat) {
    exists v :: VendorBy(v, k.vendor, saw, k.observedMACs, 3, w, p, now, max)
                && (VendorIsNews(k.vendor, saw, k.observedMACs, 3, w, p, now, max) || VendorIsNews(v, claims, k.claimedMACs, 2, w, p, now, max))
  }

  ghost predicate VendorIsNews(k: TextField, macs: seq<MAC>, known: seq<MAC>, confidence: nat, w: World, p: Protocol, now: Time, max: nat) {
    |macs| == 1 && macs[0] !in known && Text.MergeText(k, w.vendor(macs[0]), {p}, confidence, now, max).1
  }

  lemma AsideKeepsVendor(e: Edit, k: DeviceInfo, p: Protocol, now: Time, w: Setting)
    requires VendorAside(e)
    ensures var a := Apply(e, k, p, now, w); a.0.vendor == k.vendor && FieldVendor !in a.1
  {
    hide Text.MergeText, MergeUptime;
    if e.Says? {
      var v := Text.MergeText(GetText(k, e.slot), e.text, {p}, e.confidence, now, w.alternatives).0;
      assert GetText(SetText(k, e.slot, v), Vendor) == GetText(k, Vendor);
    }
  }

  lemma SawNamesVendor(saw: seq<MAC>, k: DeviceInfo, p: Protocol, now: Time, w: Setting)
    requires |saw| == 1
    ensures var a := Apply(SawMAC(saw[0]), k, p, now, w);
            && VendorBy(a.0.vendor, k.vendor, saw, k.observedMACs, 3, w.world, p, now, w.alternatives) && a.0.claimedMACs == k.claimedMACs
            && (FieldVendor in a.1 <==> VendorIsNews(k.vendor, saw, k.observedMACs, 3, w.world, p, now, w.alternatives))
  {
    hide Text.MergeText;
  }

  lemma ClaimNamesVendor(claims: seq<MAC>, k: DeviceInfo, p: Protocol, now: Time, w: Setting)
    requires |claims| == 1
    ensures var a := Apply(ClaimsMAC(claims[0]), k, p, now, w);
            && VendorBy(a.0.vendor, k.vendor, claims, k.claimedMACs, 2, w.world, p, now, w.alternatives)
            && (FieldVendor in a.1 <==> VendorIsNews(k.vendor, claims, k.claimedMACs, 2, w.world, p, now, w.alternatives))
  {
    hide Text.MergeText;
  }

  lemma {:induction false} VendorLeaves(edits: seq<Edit>, saw: seq<MAC>, claims: seq<MAC>, k: DeviceInfo, p: Protocol, now: Time, w: Setting) returns (v: TextField)
    requires MACsFirst(edits, saw, claims)
    ensures var a := ApplyAll(edits, k, p, now, w);
            && VendorBy(v, k.vendor, saw, k.observedMACs, 3, w.world, p, now, w.alternatives)
            && VendorBy(a.0.vendor, v, claims, k.claimedMACs, 2, w.world, p, now, w.alternatives)
            && (FieldVendor in a.1 <==> VendorIsNews(k.vendor, saw, k.observedMACs, 3, w.world, p, now, w.alternatives)
                                        || VendorIsNews(v, claims, k.claimedMACs, 2, w.world, p, now, w.alternatives))
    ensures claims == [] && |saw| == |edits| ==> ApplyAll(edits, k, p, now, w).0.vendor == v && ApplyAll(edits, k, p, now, w).0.claimedMACs == k.claimedMACs
    decreases |edits|
  {
    hide Apply, VendorAside, VendorBy, VendorIsNews;
    if edits == [] {
      v := k.vendor;
      NoMACs(k, w.world, p, now, w.alternatives);
      NoMACs(k.(vendor := v), w.world, p, now, w.alternatives);
    } else {
      var n := |edits| - 1;
      var r := ApplyAll(edits[..n], k, p, now, w);
      if |saw| + |claims| <= n {
        forall i | 0 <= i < n ensures edits[..n][i] == edits[i] {}
        v := VendorLeaves(edits[..n], saw, claims, k, p, now, w);
        AsideKeepsVendor(edits[n], r.0, p, now, w);
      } else if |claims| == 1 {
        forall i | 0 <= i < n ensures edits[..n][i] == edits[i] {}
        v := VendorLeaves(edits[..n], saw, [], k, p, now, w);
        NoClaims(r.0.vendor, v, k.claimedMACs, w.world, p, now, w.alternatives);
        ClaimNamesVendor(claims, r.0, p, now, w);
      } else {
        SawNamesVendor(saw, k, p, now, w);
        v := Apply(edits[n], k, p, now, w).0.vendor;
        NoClaims(v, v, k.claimedMACs, w.world, p, now, w.alternatives);
      }
    }
  }

  lemma NoMACs(k: DeviceInfo, w: World, p: Protocol, now: Time, max: nat)
    ensures VendorBy(k.vendor, k.vendor, [], k.observedMACs, 3, w, p, now, max) && VendorBy(k.vendor, k.vendor, [], k.claimedMACs, 2, w, p, now, max)
    ensures !VendorIsNews(k.vendor, [], k.observedMACs, 3, w, p, now, max) && !VendorIsNews(k.vendor, [], k.claimedMACs, 2, w, p, now, max)
  {
  }

  lemma NoClaims(r: TextField, v: TextField, known: seq<MAC>, w: World, p: Protocol, now: Time, max: nat)
    ensures VendorBy(r, v, [], known, 2, w, p, now, max) <==> r == v
    ensures !VendorIsNews(v, [], known, 2, w, p, now, max)
  {
  }

  // ---------- the whole observation ----------

  /** r is device k after a message: with what it says, seen now, classified by what is known of it then. */
  ghost predicate DeviceLearned(r: DeviceInfo, k: DeviceInfo, meta: Meta, edits: seq<Edit>, w: World, max: nat) {
    && Gained(r.(matched := k.matched, firstSeen := k.firstSeen, lastSeen := k.lastSeen), k, edits, meta.protocol)
    && (forall j | OnlySaid(edits, j) ::
          GetText(r, edits[j].slot) == Text.MergeText(GetText(k, edits[j].slot), edits[j].text, {meta.protocol}, edits[j].confidence, meta.timestamp, max).0)
    && (forall u: TextSlot | !u.Vendor? && Unsaid(edits, u) :: GetText(r, u) == GetText(k, u))
    && UptimeLeft(r.uptime, k.uptime, edits, meta.protocol, meta.timestamp)
    && (forall saw, claims | MACsFirst(edits, saw, claims) :: VendorLeft(r.vendor, k, saw, claims, w, meta.protocol, meta.timestamp, max))
    && r.matched == w.classify(FactsOf(r))
    && meta.timestamp <= r.lastSeen && k.lastSeen <= r.lastSeen && r.lastSeen in {meta.timestamp, k.lastSeen}
    && (k.firstSeen == 0 || meta.timestamp < k.firstSeen ==> r.firstSeen == meta.timestamp) && (0 < k.firstSeen <= meta.timestamp ==> r.firstSeen == k.firstSeen)
  }

  /** What an observation changed of device, link and classification, as its event says it. */
  ghost predicate Reports(e: Event, k: DeviceInfo, r: DeviceInfo, added: bool, linkNews: bool) {
    && e.kind == (if added then Added else Changed)
    && (FieldIdentity in e.changed <==> r.observedMACs != k.observedMACs || r.claimedMACs != k.claimedMACs || r.protocols != k.protocols)
    && (FieldAddresses in e.changed <==> r.addresses != k.addresses)
    && (FieldCapabilities in e.changed <==> r.capabilities != k.capabilities)
    && (FieldLink in e.changed <==> linkNews)
    && (FieldClassification in e.changed <==> r.matched != k.matched)
    && FieldServices !in e.changed
  }

  /** The link is new, or is now of another kind, heard by one more protocol, on one more VLAN, with another
      identifier, or its far interface's name is news. */
  ghost predicate LinkNews(s: Store, meta: Meta, d: int, o: Observation, l: int, k: LinkInfo, r: LinkInfo, w: Setting)
    requires d in s.devices.keyOf && d in s.linkOwner.lists
  {
    || NoLink(s, meta, d, o.kind)
    || (l in s.link && (k.kind != s.link[l].kind || k.protocols != s.link[l].protocols || k.vlans != s.link[l].vlans))
    || r.remoteChassis != k.remoteChassis || r.remotePort != k.remotePort || r.vlans != k.vlans
    || NamesInterface(o.linkEdits, k, meta.protocol, meta.timestamp, w)
  }

  lemma TimestampedSeen(k: DeviceInfo, now: Time)
    ensures var r := Timestamped(k, now);
            && r == k.(firstSeen := r.firstSeen, lastSeen := r.lastSeen)
            && now <= r.lastSeen && k.lastSeen <= r.lastSeen && r.lastSeen in {now, k.lastSeen}
            && (k.firstSeen == 0 || now < k.firstSeen ==> r.firstSeen == now) && (0 < k.firstSeen <= now ==> r.firstSeen == k.firstSeen)
  {
  }

  /** Events up to the observation's own: a new link in a full store first evicts the link whose slot it takes. */
  ghost predicate RoomMade(s: Store, meta: Meta, d: int, kind: LinkKind, l: int, before: seq<Event>)
    requires d in s.devices.keyOf && d in s.linkOwner.lists
  {
    if NoLink(s, meta, d, kind) && s.links.free == [] then
      Attached(s, l) && before == s.events + [Event(Evicted, {FieldLink}, s.devices.keyOf[s.linkOwner.owner[l]], s.links.keyOf[l])]
    else before == s.events
  }

  /** The event at the end of an observation: there is one exactly if something changed, the link is new or
      the device is, and it says which. */
  ghost predicate EventLeft(s: Store, t: Store, meta: Meta, d: int, changed: set<Field>, wasNew: bool, o: Observation, w: World, l: int, k: LinkInfo, before: seq<Event>) {
    && d in s.devices.keyOf && d in s.linkOwner.lists && d in s.info && d in t.info && d in t.devices.keyOf && l in t.link && l in t.links.keyOf
    && RoomMade(s, meta, d, o.kind, l, before)
    && var news := LinkNews(s, meta, d, o, l, k, t.link[l], In(w, s.limits));
       var all := changed + When(news, FieldLink) + When(t.info[d].matched != s.info[d].matched, FieldClassification);
       var added := wasNew || NoLink(s, meta, d, o.kind);
       t.events == if all != {} || added then before + [Event(if added then Added else Changed, all, t.devices.keyOf[d], t.links.keyOf[l])] else before
  }

  /** The name a message gives the far interface is merged into what the link had. */
  ghost predicate InterfaceTold(r: LinkInfo, k: LinkInfo, edits: seq<LinkEdit>, meta: Meta, w: Setting) {
    forall j | 0 <= j < |edits| && edits[j].Interface? ::
      r.remoteInterface == Text.MergeText(k.remoteInterface, edits[j].name, {meta.protocol}, 3, meta.timestamp, w.alternatives).0
  }

  lemma InterfacesTaken(edits: seq<LinkEdit>, k: LinkInfo, meta: Meta, w: Setting)
    requires LinkDistinct(edits)
    ensures InterfaceTold(ApplyLinkAll(edits, k, meta.protocol, meta.timestamp, w).0, k, edits, meta, w)
  {
    hide ApplyLinkAll, Text.MergeText, LinkDistinct;
    forall j | 0 <= j < |edits| && edits[j].Interface?
      ensures ApplyLinkAll(edits, k, meta.protocol, meta.timestamp, w).0.remoteInterface
              == Text.MergeText(k.remoteInterface, edits[j].name, {meta.protocol}, 3, meta.timestamp, w.alternatives).0
    {
      InterfaceTaken(edits, j, k, meta.protocol, meta.timestamp, w);
    }
  }

  /** From device evidence on: what the end of an observation leaves. */
  lemma ConcludeLeaves(s: Store, meta: Meta, d: int, changed: set<Field>, wasNew: bool, o: Observation, w: World) returns (l: int, k: LinkInfo, before: seq<Event>)
    requires Inv(s) && d in s.devices.keyOf && LinkDistinct(o.linkEdits)
    ensures d in s.info && d in s.linkOwner.lists
    ensures var t := Conclude(s, meta, d, changed, wasNew, o, w);
            && l in t.link && LinkLeft(s, t.(link := t.link[l := k]), meta, d, o.kind, o.ttl, l) && Told(t.link[l], k, o.linkEdits)
            && t.info == s.info[d := s.info[d].(matched := w.classify(FactsOf(s.info[d])))]
            && InterfaceTold(t.link[l], k, o.linkEdits, meta, In(w, s.limits))
    ensures EventLeft(s, Conclude(s, meta, d, changed, wasNew, o, w), meta, d, changed, wasNew, o, w, l, k, before)
  {
    hide InvGap, UpsertLink, ApplyLinkAll, FactsOf, Told, LinkLeft, Sighted, LinkOf, NoLink, NamesInterface, InterfaceTold, LinkDistinct;
    ListsThere(s);
    UpsertLinkInv(s, meta, d, o.kind, o.ttl);
    UpsertLeaves(s, meta, d, o.kind, o.ttl);
    UpsertSays(s, meta, d, o.kind, o.ttl);
    var u := UpsertLink(s, meta, d, o.kind, o.ttl);
    ListsThere(u.store);
    LinkThere(u.store, u.link);
    l, before := u.link, u.store.events;
    k := u.store.link[l];
    AllTold(o.linkEdits, k, meta.protocol, meta.timestamp, In(w, s.limits));
    ToldNews(o.linkEdits, k, meta.protocol, meta.timestamp, In(w, s.limits));
    InterfacesTaken(o.linkEdits, k, meta, In(w, s.limits));
    var t := Conclude(s, meta, d, changed, wasNew, o, w);
    assert t.link[l := k] == u.store.link;
    SameLeft(s, u.store, t.(link := t.link[l := k]), meta, d, o.kind, o.ttl, l);
  }

  lemma SameLeft(s: Store, t: Store, u: Store, meta: Meta, d: int, kind: LinkKind, ttl: int, l: int)
    requires d in s.devices.keyOf && d in s.linkOwner.lists && LinkLeft(s, t, meta, d, kind, ttl, l)
    requires u.link == t.link && u.links == t.links && u.linkOwner == t.linkOwner && u.linkDue == t.linkDue
    ensures LinkLeft(s, u, meta, d, kind, ttl, l)
  {
    hide Sighted, LinkOf, NoLink;
  }

  lemma Evicts(s: Store)
    requires Inv(s)
    ensures var a := AllocLink(s);
            if s.links.free != [] then a.0.events == s.events
            else Attached(s, a.1) && a.0.events == s.events + [Event(Evicted, {FieldLink}, s.devices.keyOf[s.linkOwner.owner[a.1]], s.links.keyOf[a.1])]
  {
    hide InvGap, Disown, Release, Oldest;
    if s.links.free == [] {
      AllocLinkStep(s);
      LinkAttached(s, Oldest(LinksSeen(s), s.limits.links));
    }
  }

  lemma LinkAttached(s: Store, l: int)
    requires Inv(s) && l in s.links.keyOf
    ensures Attached(s, l)
  {
    hide Complete, Partition, MaximaCached, RecordKeysAgree, LinksTimed;
    AgreeAt(s, l);
  }

  /** A link taken up is silent but for an eviction. */
  lemma UpsertSays(s: Store, meta: Meta, d: int, kind: LinkKind, ttl: int)
    requires Inv(s) && d in s.devices.keyOf && d in s.linkOwner.lists
    ensures var u := UpsertLink(s, meta, d, kind, ttl); RoomMade(s, meta, d, kind, u.link, u.store.events)
  {
    hide InvGap, Refreshed, RefreshChanges, FirstOfKind, NoLink, AllocLink, AddLink, Attached, RefreshLink, PromoteLink;
    FoundLink(s, meta, d, kind);
    LinkForThere(s, meta, d, kind);
    if NoLink(s, meta, d, kind) {
      NoKeyYet(s, meta, d, kind);
      Evicts(s);
      AllocLinkInv(s);
      var a := AllocLink(s);
      ListsOf(a.0, WHOLE.(link := {a.1}));
      AddLinkShape(a.0, a.1, d, KeyFor(s, meta, d), meta, kind, ttl);
    } else {
      RefreshSays(s, meta, d, kind, ttl);
    }
  }

  lemma RefreshSays(s: Store, meta: Meta, d: int, kind: LinkKind, ttl: int)
    requires Inv(s) && d in s.devices.keyOf && LinkFor(s, meta, d, kind) != -1
    ensures UpsertLink(s, meta, d, kind, ttl).store.events == s.events
  {
    hide InvGap, Refreshed, RefreshChanges, FirstOfKind, Insert, AllocLink;
    LinkForThere(s, meta, d, kind);
  }

  lemma NoKeyYet(s: Store, meta: Meta, d: int, kind: LinkKind)
    requires d in s.devices.keyOf && d in s.linkOwner.lists && NoLink(s, meta, d, kind)
    ensures KeyFor(s, meta, d) !in s.links.byKey
  {
  }

  // ---------- texts and uptime in the event ----------

  /** Every text a message speaks of it speaks of once, and none of them is the vendor's. */
  ghost predicate SaidOnce(edits: seq<Edit>) { forall j | 0 <= j < |edits| && edits[j].Says? :: OnlySaid(edits, j) }

  /** Some text reported as f is news to the device. */
  ghost predicate TextNews(edits: seq<Edit>, f: Field, k: DeviceInfo, p: Protocol, now: Time, w: Setting) {
    exists j :: 0 <= j < |edits| && IsNews(edits[j], f, k, p, now, w)
  }

  predicate IsNews(e: Edit, f: Field, k: DeviceInfo, p: Protocol, now: Time, w: Setting) {
    e.Says? && e.field == f && Text.MergeText(GetText(k, e.slot), e.text, {p}, e.confidence, now, w.alternatives).1
  }

  predicate OfText(f: Field) { f == FieldNames || f == FieldModel || f == FieldPlatform || f == FieldSoftware }

  lemma {:induction false} TextFields(edits: seq<Edit>, f: Field, k: DeviceInfo, p: Protocol, now: Time, w: Setting)
    requires SaidOnce(edits) && OfText(f)
    ensures f in ApplyAll(edits, k, p, now, w).1 <==> TextNews(edits, f, k, p, now, w)
    decreases |edits|
  {
    hide Apply, IsNews, GetText;
    if edits != [] {
      var n := |edits| - 1;
      var r := ApplyAll(edits[..n], k, p, now, w);
      forall j | 0 <= j < n && edits[..n][j].Says? ensures OnlySaid(edits[..n], j) {
        assert OnlySaid(edits, j);
        forall i | 0 <= i < n && i != j ensures !(edits[..n][i].Says? && edits[..n][i].slot == edits[..n][j].slot) { assert edits[..n][i] == edits[i]; }
      }
      TextFields(edits[..n], f, k, p, now, w);
      if edits[n].Says? {
        assert OnlySaid(edits, n);
        TextUnsaid(edits[..n], k, p, now, w, edits[n].slot);
      }
      NewsApplied(edits[n], f, k, r.0, p, now, w);
      forall j | 0 <= j < n ensures edits[..n][j] == edits[j] {}
    }
  }

  lemma NewsApplied(e: Edit, f: Field, k: DeviceInfo, r: DeviceInfo, p: Protocol, now: Time, w: Setting)
    requires OfText(f) && (e.Says? ==> GetText(r, e.slot) == GetText(k, e.slot))
    ensures f in Apply(e, r, p, now, w).1 <==> IsNews(e, f, k, p, now, w)
  {
    hide Text.MergeText, MergeUptime;
  }

  // ---------- the whole of it ----------

  /** The device, the link and the event after an observation, from the store with its device found. */
  ghost predicate Learns(s: Store, t: Store, meta: Meta, d: int, o: Observation, w: World, l: int, k: LinkInfo, before: seq<Event>) {
    && d in s.devices.keyOf && d in s.linkOwner.lists && d in s.info && d in t.info && d in t.devices.keyOf && l in t.link && l in t.links.keyOf
    && DeviceLearned(t.info[d], s.info[d], meta, o.edits, w, s.limits.alternatives)
    && (forall e | e != d :: (e in t.info <==> e in s.info) && (e in s.info ==> t.info[e] == s.info[e]))
    && LinkLeft(s, t.(link := t.link[l := k]), meta, d, o.kind, o.ttl, l) && Told(t.link[l], k, o.linkEdits)
    && InterfaceTold(t.link[l], k, o.linkEdits, meta, In(w, s.limits))
    && ReportLeft(s, t, meta, d, o, w, l, k, before)
  }

  /** Fields reported for uptime, texts and vendor are those whose evidence is news. */
  ghost predicate FieldsTold(changed: set<Field>, edits: seq<Edit>, k: DeviceInfo, p: Protocol, now: Time, w: World, max: nat) {
    && (FieldUptime in changed <==> UptimeNews(k.uptime, edits, p, now))
    && (forall f | OfText(f) :: f in changed <==> TextNews(edits, f, k, p, now, Setting(w, max)))
    && (forall saw, claims | MACsFirst(edits, saw, claims) :: FieldVendor in changed <==> VendorNews(k, saw, claims, w, p, now, max))
  }

  /** One event, naming device and link, exactly if the device or the link is new or something changed: Added
      in the first case, and with the fields that changed. */
  ghost predicate ReportLeft(s: Store, t: Store, meta: Meta, d: int, o: Observation, w: World, l: int, k: LinkInfo, before: seq<Event>)
    requires d in s.devices.keyOf && d in s.linkOwner.lists && d in s.info && d in t.info && d in t.devices.keyOf && l in t.link && l in t.links.keyOf
  {
    var was, r := s.info[d], t.info[d];
    var added := was.protocols == {} || NoLink(s, meta, d, o.kind);
    var news := LinkNews(s, meta, d, o, l, k, t.link[l], In(w, s.limits));
    && RoomMade(s, meta, d, o.kind, l, before)
    && if t.events == before then
         !added && !news && r.observedMACs == was.observedMACs && r.claimedMACs == was.claimedMACs && r.protocols == was.protocols
         && r.addresses == was.addresses && r.capabilities == was.capabilities && r.matched == was.matched
         && FieldsTold({}, o.edits, was, meta.protocol, meta.timestamp, w, s.limits.alternatives)
       else
         && |t.events| == |before| + 1 && before <= t.events
         && var e := t.events[|before|];
            && Reports(e, was, r, added, news) && e.device == t.devices.keyOf[d] && e.link == t.links.keyOf[l] && (added || e.changed != {})
            && FieldsTold(e.changed, o.edits, was, meta.protocol, meta.timestamp, w, s.limits.alternatives)
  }

  lemma EvidenceTaken(k: DeviceInfo, meta: Meta, edits: seq<Edit>, w: World, max: nat)
    requires Distinct(edits) && forall i | 0 <= i < |edits| :: FieldNamed(edits[i])
    ensures var a := ApplyAll(edits, k, meta.protocol, meta.timestamp, Setting(w, max)); var r := Timestamped(a.0, meta.timestamp);
            && DeviceLearned(r.(matched := w.classify(FactsOf(r))), k, meta, edits, w, max) && Differs(a.1, k, r) && r.matched == k.matched
  {
    hide ApplyAll, Timestamped, FactsOf, FieldNamed, Text.MergeText, GetText, UptimeLeft, VendorBy, VendorIsNews, MACsFirst, Distinct, UptimeNews;
    var x := Setting(w, max);
    UptimeLeaves(edits, k, meta.protocol, meta.timestamp, x);
    var a := ApplyAll(edits, k, meta.protocol, meta.timestamp, x);
    AllGained(edits, k, meta.protocol, meta.timestamp, x);
    AllDiffer(edits, k, meta.protocol, meta.timestamp, x);
    TimestampedSeen(a.0, meta.timestamp);
    var r := Timestamped(a.0, meta.timestamp);
    SameFacts(r, r.(matched := w.classify(FactsOf(r))));
    forall saw, claims | MACsFirst(edits, saw, claims) ensures VendorLeft(a.0.vendor, k, saw, claims, w, meta.protocol, meta.timestamp, max) {
      var v := VendorLeaves(edits, saw, claims, k, meta.protocol, meta.timestamp, x);
    }
    forall j | OnlySaid(edits, j)
      ensures GetText(r.(matched := w.classify(FactsOf(r))), edits[j].slot)
              == Text.MergeText(GetText(k, edits[j].slot), edits[j].text, {meta.protocol}, edits[j].confidence, meta.timestamp, max).0
    {
      TextTaken(edits, j, k, meta.protocol, meta.timestamp, x);
      SameTexts(a.0, r.(matched := w.classify(FactsOf(r))), edits[j].slot);
    }
    forall u: TextSlot | !u.Vendor? && Unsaid(edits, u) ensures GetText(r.(matched := w.classify(FactsOf(r))), u) == GetText(k, u) {
      TextUnsaid(edits, k, meta.protocol, meta.timestamp, x, u);
      SameTexts(a.0, r.(matched := w.classify(FactsOf(r))), u);
    }
  }

  lemma SameFacts(k: DeviceInfo, r: DeviceInfo)
    requires r == k.(firstSeen := r.firstSeen, lastSeen := r.lastSeen, matched := r.matched)
    ensures FactsOf(k) == FactsOf(r)
  {
  }

  lemma SameTexts(k: DeviceInfo, r: DeviceInfo, t: TextSlot)
    requires r == k.(firstSeen := r.firstSeen, lastSeen := r.lastSeen, matched := r.matched)
    ensures GetText(r, t) == GetText(k, t)
  {
  }

  /** What any LLDP, CDP or MNDP observation with an identity leaves. */
  lemma ObservedLearns(s: Store, meta: Meta, o: Observation, w: World) returns (l: int, k: LinkInfo, before: seq<Event>)
    requires Inv(s) && IdentityKey(meta, o.claimed, o.addresses).Some? && LinkDistinct(o.linkEdits) && SaidOnce(o.edits) && Distinct(o.edits)
    requires forall i | 0 <= i < |o.edits| :: FieldNamed(o.edits[i])
    ensures var r := DeviceFor(s, meta, o.claimed, o.addresses); Learns(r.0, Observed(s, meta, o, w), meta, r.1, o, w, l, k, before)
  {
    hide InvGap, DeviceFor, ApplyAll, Conclude, Timestamped, IdentityKey, FieldNamed, DeviceLearned, Told, LinkLeft, EventLeft, ReportLeft, FactsOf, LinkDistinct, SaidOnce, Distinct, Differs, InterfaceTold;
    DeviceForInv(s, meta, o.claimed, o.addresses);
    var r := DeviceFor(s, meta, o.claimed, o.addresses);
    var d := r.1;
    ListsThere(r.0);
    var x := In(w, s.limits);
    var a := ApplyAll(o.edits, r.0.info[d], meta.protocol, meta.timestamp, x);
    var s1 := r.0.(info := r.0.info[d := Timestamped(a.0, meta.timestamp)]);
    InfoInv(r.0, s1);
    EvidenceTaken(r.0.info[d], meta, o.edits, w, s.limits.alternatives);
    var wasNew := r.0.info[d].protocols == {};
    l, k, before := ConcludeLeaves(s1, meta, d, a.1, wasNew, o, w);
    var t := Observed(s, meta, o, w);
    InfoLeft(r.0, s1, t.(link := t.link[l := k]), meta, d, o.kind, o.ttl, l);
    EventThere(s1, t, meta, d, a.1, wasNew, o, w, l, k, before);
    EventLearned(r.0, s1, t, meta, d, a.1, o, w, l, k, before);
  }

  lemma EventThere(s: Store, t: Store, meta: Meta, d: int, changed: set<Field>, wasNew: bool, o: Observation, w: World, l: int, k: LinkInfo, before: seq<Event>)
    requires EventLeft(s, t, meta, d, changed, wasNew, o, w, l, k, before)
    ensures d in t.devices.keyOf && l in t.links.keyOf && d in t.info && l in t.link
  {
  }

  lemma EventLearned(s: Store, s1: Store, t: Store, meta: Meta, d: int, changed: set<Field>, o: Observation, w: World, l: int, k: LinkInfo, before: seq<Event>)
    requires s1 == s.(info := s1.info) && d in s.info && d in s1.info && EventLeft(s1, t, meta, d, changed, s.info[d].protocols == {}, o, w, l, k, before)
    requires Distinct(o.edits) && (forall i | 0 <= i < |o.edits| :: FieldNamed(o.edits[i]))
    requires SaidOnce(o.edits) && changed == ApplyAll(o.edits, s.info[d], meta.protocol, meta.timestamp, In(w, s.limits)).1
    requires Differs(changed, s.info[d], s1.info[d]) && s1.info[d].matched == s.info[d].matched && t.info[d] == s1.info[d].(matched := t.info[d].matched)
    ensures ReportLeft(s, t, meta, d, o, w, l, k, before)
  {
    hide ApplyAll, SaidOnce, NamesInterface, Joins, Distinct, FieldNamed, FieldsTold;
    FieldsFrom(o.edits, s.info[d], meta.protocol, meta.timestamp, In(w, s.limits));
    assert FieldsTold(changed, o.edits, s.info[d], meta.protocol, meta.timestamp, w, s.limits.alternatives);
    assert forall i :: Joins(s1, meta.iface, d, o.kind, i) <==> Joins(s, meta.iface, d, o.kind, i) by { SameJoins(s, s1, meta.iface, d, o.kind); }
    forall more: set<Field> | more <= {FieldLink, FieldClassification}
      ensures FieldsTold(changed + more, o.edits, s.info[d], meta.protocol, meta.timestamp, w, s.limits.alternatives)
    {
      MoreFields(changed, more, o.edits, s.info[d], meta.protocol, meta.timestamp, w, s.limits.alternatives);
    }
    var news := LinkNews(s1, meta, d, o, l, k, t.link[l], In(w, s1.limits));
    var more := When(news, FieldLink) + When(t.info[d].matched != s1.info[d].matched, FieldClassification);
    assert changed + When(news, FieldLink) + When(t.info[d].matched != s1.info[d].matched, FieldClassification) == changed + more;
  }

  lemma MoreFields(changed: set<Field>, more: set<Field>, edits: seq<Edit>, k: DeviceInfo, p: Protocol, now: Time, w: World, max: nat)
    requires FieldsTold(changed, edits, k, p, now, w, max) && more <= {FieldLink, FieldClassification}
    ensures FieldsTold(changed + more, edits, k, p, now, w, max)
  {
    hide UptimeNews, TextNews, MACsFirst, VendorNews;
  }

  lemma FieldsFrom(edits: seq<Edit>, k: DeviceInfo, p: Protocol, now: Time, w: Setting)
    requires Distinct(edits) && SaidOnce(edits) && forall i | 0 <= i < |edits| :: FieldNamed(edits[i])
    ensures FieldsTold(ApplyAll(edits, k, p, now, w).1, edits, k, p, now, w.world, w.alternatives)
  {
    hide ApplyAll, TextNews, SaidOnce, Distinct, FieldNamed, UptimeNews, VendorNews, MACsFirst, VendorLeft, UptimeLeft;
    UptimeLeaves(edits, k, p, now, w);
    forall saw, claims | MACsFirst(edits, saw, claims) ensures FieldVendor in ApplyAll(edits, k, p, now, w).1 <==> VendorNews(k, saw, claims, w.world, p, now, w.alternatives) {
      VendorChanged(edits, saw, claims, k, p, now, w);
    }
    forall f | OfText(f) ensures f in ApplyAll(edits, k, p, now, w).1 <==> TextNews(edits, f, k, p, now, w) {
      TextFields(edits, f, k, p, now, w);
    }
  }

  lemma VendorChanged(edits: seq<Edit>, saw: seq<MAC>, claims: seq<MAC>, k: DeviceInfo, p: Protocol, now: Time, w: Setting)
    requires MACsFirst(edits, saw, claims)
    ensures FieldVendor in ApplyAll(edits, k, p, now, w).1 <==> VendorNews(k, saw, claims, w.world, p, now, w.alternatives)
  {
    hide ApplyAll, MACsFirst, VendorIsNews, Text.MergeText;
    var v := VendorLeaves(edits, saw, claims, k, p, now, w);
  }

  lemma SameJoins(s: Store, s1: Store, iface: int, d: int, kind: LinkKind)
    requires s1 == s.(info := s1.info) && d in s.linkOwner.lists
    ensures forall i :: Joins(s1, iface, d, kind, i) <==> Joins(s, iface, d, kind, i)
  {
  }

  lemma InfoLeft(s: Store, s1: Store, t: Store, meta: Meta, d: int, kind: LinkKind, ttl: int, l: int)
    requires s1 == s.(info := s1.info) && d in s.devices.keyOf && d in s.linkOwner.lists && LinkLeft(s1, t, meta, d, kind, ttl, l)
    ensures LinkLeft(s, t, meta, d, kind, ttl, l) && (NoLink(s1, meta, d, kind) <==> NoLink(s, meta, d, kind))
  {
    hide Sighted;
    assert forall i :: Joins(s1, meta.iface, d, kind, i) <==> Joins(s, meta.iface, d, kind, i);
    assert forall i :: FirstJoins(s1, meta.iface, d, kind, i) <==> FirstJoins(s, meta.iface, d, kind, i);
  }
}
