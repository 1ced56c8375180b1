/** The three link-layer observations and the mDNS observation, from message to events. */
module Observe {
  import opened Model
  import opened FusionTypes
  import opened Slabs
  import opened Text
  import opened Stores
  import opened Timing
  import opened Fusion
  import opened DNSCache

  // ---------- messages, as the decoders leave them ----------

  datatype LLDPMessage = LLDPMessage(chassis: Identifier, port: Identifier, ttl: nat, systemName: seq<Byte>,
    portDescription: seq<Byte>, capabilities: set<nat>, pvid: Option<nat>, vlans: seq<nat>, addresses: seq<Addr>)

  datatype CDPMessage = CDPMessage(deviceID: seq<Byte>, portID: seq<Byte>, systemName: seq<Byte>, ttl: nat,
    platform: seq<Byte>, software: seq<Byte>, capabilities: set<nat>, nativeVLAN: Option<nat>,
    addresses: seq<Addr>, managementAddresses: seq<Addr>)

  datatype MNDPMessage = MNDPMessage(isRefresh: bool, mac: Option<MAC>, addresses: seq<Addr>, identity: seq<Byte>, platform: seq<Byte>,
    board: seq<Byte>, version: seq<Byte>, interfaceName: seq<Byte>, uptime: Option<nat>)

  // ---------- evidence about a device ----------

  datatype TextSlot = SystemName | HostName | DeviceID | Vendor | ModelName | Platform | Software

  function GetText(k: DeviceInfo, slot: TextSlot): TextField {
    match slot
    case SystemName => k.systemName
    case HostName => k.hostName
    case DeviceID => k.protocolDeviceID
    case Vendor => k.vendor
    case ModelName => k.model
    case Platform => k.platform
    case Software => k.softwareVersion
  }

  function SetText(k: DeviceInfo, slot: TextSlot, f: TextField): (r: DeviceInfo)
    ensures forall t :: GetText(r, t) == if t == slot then f else GetText(k, t)
  {
    match slot
    case SystemName => k.(systemName := f)
    case HostName => k.(hostName := f)
    case DeviceID => k.(protocolDeviceID := f)
    case Vendor => k.(vendor := f)
    case ModelName => k.(model := f)
    case Platform => k.(platform := f)
    case Software => k.(softwareVersion := f)
  }

  /** One piece of evidence an observation carries. */
  datatype Edit =
    | SawMAC(mac: MAC)
    | ClaimsMAC(claimed: MAC)
    | HasAddress(address: Addr)
    | Says(slot: TextSlot, text: seq<Byte>, confidence: nat, field: Field)
    | CanDo(capabilities: set<nat>)
    | UpFor(seconds: nat)
    | Speaks

  /** What the store asks of its surroundings: the vendor registry and the classifier. The
      classifier sees a device through Facts only. */
  datatype World = World(vendor: MAC -> seq<Byte>, classify: Facts -> Option<(seq<Byte>, seq<Byte>)>)

  /** The world, and how many alternatives a text field of the store may hold. */
  datatype Setting = Setting(world: World, alternatives: nat)

  function In(w: World, limits: Limits): Setting { Setting(w, limits.alternatives) }

  datatype Facts = Facts(observedMACs: seq<MAC>, addresses: seq<Addr>, capabilities: set<nat>, protocols: ProtocolSet, texts: seq<seq<seq<Byte>>>)

  function ValuesOf(values: seq<TextValue>): (r: seq<seq<Byte>>)
    ensures |r| == |values| && forall i | 0 <= i < |r| :: r[i] == values[i].value
  {
    seq(|values|, i requires 0 <= i < |values| => values[i].value)
  }

  function FactsOf(k: DeviceInfo): Facts {
    Facts(k.observedMACs, k.addresses, k.capabilities, k.protocols,
          [ValuesOf(k.systemName.values), ValuesOf(k.hostName.values), ValuesOf(k.protocolDeviceID.values), ValuesOf(k.vendor.values),
           ValuesOf(k.model.values), ValuesOf(k.platform.values), ValuesOf(k.softwareVersion.values)])
  }

  /** Where an uptime announced at now should be, from the last announcement. */
  function ExpectedUptime(u: Uptime, now: Time): nat {
    if now > u.observedAt then u.seconds + (now - u.observedAt) / SECOND else u.seconds
  }

  function Apart(a: nat, b: nat): nat { if a >= b then a - b else b - a }

  function MergeUptime(u: Uptime, seconds: nat, p: Protocol, now: Time): (Uptime, bool) {
    if !u.valid then (Uptime(seconds, now, {p}, true), true)
    else (Uptime(seconds, now, u.protocols + {p}, true), Apart(seconds, ExpectedUptime(u, now)) > 5 || p !in u.protocols)
  }

  /** One piece of evidence merged in, and the fields that changed by it. */
  function Apply(e: Edit, k: DeviceInfo, p: Protocol, now: Time, w: Setting): (DeviceInfo, set<Field>) {
    match e
    case SawMAC(m) =>
      if m in k.observedMACs then (k, {}) else
      var v := MergeText(k.vendor, w.world.vendor(m), {p}, 3, now, w.alternatives);
      (k.(observedMACs := k.observedMACs + [m], vendor := v.0), if v.1 then {FieldIdentity, FieldVendor} else {FieldIdentity})
    case ClaimsMAC(m) =>
      if m in k.claimedMACs then (k, {}) else
      var v := MergeText(k.vendor, w.world.vendor(m), {p}, 2, now, w.alternatives);
      (k.(claimedMACs := k.claimedMACs + [m], vendor := v.0), if v.1 then {FieldIdentity, FieldVendor} else {FieldIdentity})
    case HasAddress(a) =>
      if a == NoAddr || Unmap(a) in k.addresses then (k, {}) else (k.(addresses := k.addresses + [Unmap(a)]), {FieldAddresses})
    case Says(slot, text, confidence, field) =>
      var v := MergeText(GetText(k, slot), text, {p}, confidence, now, w.alternatives);
      (SetText(k, slot, v.0), if v.1 then {field} else {})
    case CanDo(c) =>
      if c <= k.capabilities then (k, {}) else (k.(capabilities := k.capabilities + c), {FieldCapabilities})
    case UpFor(seconds) =>
      var u := MergeUptime(k.uptime, seconds, p, now);
      (k.(uptime := u.0), if u.1 then {FieldUptime} else {})
    case Speaks =>
      if p in k.protocols then (k, {}) else (k.(protocols := k.protocols + {p}), {FieldIdentity})
  }

  function ApplyAll(edits: seq<Edit>, k: DeviceInfo, p: Protocol, now: Time, w: Setting): (DeviceInfo, set<Field>) {
    if edits == [] then (k, {}) else
    var r := ApplyAll(edits[..|edits| - 1], k, p, now, w);
    var a := Apply(edits[|edits| - 1], r.0, p, now, w);
    (a.0, r.1 + a.1)
  }

  // ---------- repeating evidence ----------

  /** Evidence a device already has: applying it again at now changes no field. */
  predicate Known(e: Edit, k: DeviceInfo, p: Protocol, now: Time, w: Setting) {
    match e
    case SawMAC(m) => m in k.observedMACs
    case ClaimsMAC(m) => m in k.claimedMACs
    case HasAddress(a) => a == NoAddr || Unmap(a) in k.addresses
    case Says(slot, text, confidence, _) => !MergeText(GetText(k, slot), text, {p}, confidence, now, w.alternatives).1
    case CanDo(c) => c <= k.capabilities
    case UpFor(seconds) => !MergeUptime(k.uptime, seconds, p, now).1
    case Speaks => p in k.protocols
  }

  /** Two pieces of evidence that bear on the same text or uptime. */
  predicate SameTarget(e: Edit, f: Edit) {
    (e.Says? && f.Says? && e.slot == f.slot) || (e.UpFor? && f.UpFor?)
    || (e.Says? && e.slot.Vendor? && (f.SawMAC? || f.ClaimsMAC?))
  }

  lemma KnownQuiet(e: Edit, k: DeviceInfo, p: Protocol, now: Time, w: Setting)
    requires Known(e, k, p, now, w)
    ensures Apply(e, k, p, now, w).1 == {} && FactsOf(Apply(e, k, p, now, w).0) == FactsOf(k)
  {
    if e.Says? { QuietText(GetText(k, e.slot), e.text, {p}, e.confidence, now, w.alternatives); }
  }

  lemma QuietText(f: TextField, value: seq<Byte>, protocols: ProtocolSet, confidence: nat, now: Time, max: nat)
    requires !MergeText(f, value, protocols, confidence, now, max).1
    ensures ValuesOf(MergeText(f, value, protocols, confidence, now, max).0.values) == ValuesOf(f.values)
  {
    hide SelectCanonical, Rank;
  }

  /** Other evidence never makes known evidence news again. */
  lemma KnownKept(e: Edit, f: Edit, k: DeviceInfo, p: Protocol, now: Time, later: Time, w: Setting)
    requires Known(e, k, p, later, w) && !SameTarget(e, f)
    ensures Known(e, Apply(f, k, p, now, w).0, p, later, w)
  {
    hide MergeText, MergeUptime;
  }

  /** Evidence is known once applied; an uptime only for an announcement near its prediction. */
  lemma AppliedKnown(e: Edit, again: Edit, k: DeviceInfo, p: Protocol, now: Time, later: Time, w: Setting)
    requires again == e || (e.UpFor? && again.UpFor?)
    requires e.UpFor? ==> Apart(again.seconds, e.seconds + (if later > now then (later - now) / SECOND else 0)) <= 5
    ensures Known(again, Apply(e, k, p, now, w).0, p, later, w)
  {
    hide MergeText;
    if e.Says? { RepeatQuiet(GetText(k, e.slot), e.text, {p}, e.confidence, now, later, w.alternatives); }
  }

  /** The evidence of one message: no text field or uptime is spoken of twice. */
  ghost predicate Distinct(edits: seq<Edit>) {
    forall i, j | 0 <= i < |edits| && 0 <= j < |edits| && i != j :: !SameTarget(edits[i], edits[j])
  }

  ghost predicate AllKnown(edits: seq<Edit>, k: DeviceInfo, p: Protocol, now: Time, w: Setting) {
    forall i | 0 <= i < |edits| :: Known(edits[i], k, p, now, w)
  }

  /** The same evidence announced again, its uptime within five seconds of the prediction. */
  ghost predicate Repeats(edits: seq<Edit>, again: seq<Edit>, now: Time, later: Time) {
    && |again| == |edits| && now <= later
    && forall i | 0 <= i < |edits| :: RepeatsOne(edits[i], again[i], now, later)
  }

  predicate RepeatsOne(e: Edit, f: Edit, now: Time, later: Time) {
    if e.UpFor? then f.UpFor? && Apart(f.seconds, e.seconds + (if later > now then (later - now) / SECOND else 0)) <= 5
    else f == e
  }

  lemma {:induction false} AppliedAllKnown(edits: seq<Edit>, again: seq<Edit>, k: DeviceInfo, p: Protocol, now: Time, later: Time, w: Setting)
    requires Distinct(edits) && Repeats(edits, again, now, later)
    ensures AllKnown(again, ApplyAll(edits, k, p, now, w).0, p, later, w)
  {
    hide Apply, Known, RepeatsOne, SameTarget;
    if edits != [] {
      var n := |edits| - 1;
      var k' := ApplyAll(edits[..n], k, p, now, w).0;
      AppliedAllKnown(edits[..n], again[..n], k, p, now, later, w);
      OneApplied(edits[n], again[n], k', p, now, later, w);
      forall i | 0 <= i < n ensures Known(again[i], Apply(edits[n], k', p, now, w).0, p, later, w) {
        assert Known(again[..n][i], k', p, later, w);
        TargetsAlike(edits[i], again[i], edits[n], now, later);
        KnownKept(again[i], edits[n], k', p, now, later, w);
      }
    }
  }

  lemma OneApplied(e: Edit, f: Edit, k: DeviceInfo, p: Protocol, now: Time, later: Time, w: Setting)
    requires RepeatsOne(e, f, now, later)
    ensures Known(f, Apply(e, k, p, now, w).0, p, later, w)
  {
    hide Known, Apply;
    AppliedKnown(e, f, k, p, now, later, w);
  }

  lemma TargetsAlike(e: Edit, f: Edit, g: Edit, now: Time, later: Time)
    requires RepeatsOne(e, f, now, later)
    ensures SameTarget(f, g) <==> SameTarget(e, g)
    ensures SameTarget(g, f) <==> SameTarget(g, e)
  {
  }

  /** Known evidence is quiet, all of it, and hides nothing from the classifier. */
  lemma {:induction false} KnownAllQuiet(edits: seq<Edit>, k: DeviceInfo, p: Protocol, now: Time, w: Setting, n: nat)
    requires Distinct(edits) && AllKnown(edits, k, p, now, w) && n <= |edits|
    ensures var r := ApplyAll(edits[..n], k, p, now, w);
            r.1 == {} && FactsOf(r.0) == FactsOf(k) && forall i | n <= i < |edits| :: Known(edits[i], r.0, p, now, w)
  {
    hide Apply, Known, SameTarget, FactsOf;
    if n > 0 {
      KnownAllQuiet(edits, k, p, now, w, n - 1);
      var k' := ApplyAll(edits[..n - 1], k, p, now, w).0;
      assert edits[..n][..n - 1] == edits[..n - 1];
      KnownQuiet(edits[n - 1], k', p, now, w);
      forall i | n <= i < |edits| ensures Known(edits[i], Apply(edits[n - 1], k', p, now, w).0, p, now, w) {
        KnownKept(edits[i], edits[n - 1], k', p, now, now, w);
      }
    }
  }

  // ---------- evidence about a link ----------

  datatype LinkEdit =
    | Chassis(id: Identifier)
    | ChassisValue(chassis: seq<Byte>)
    | Port(port: Identifier)
    | PortValue(value: seq<Byte>)
    | Interface(name: seq<Byte>)
    | OnVLAN(vlan: nat)

  function ApplyLink(e: LinkEdit, k: LinkInfo, p: Protocol, now: Time, w: Setting): (LinkInfo, bool) {
    match e
    case Chassis(id) => if k.remoteChassis == id then (k, false) else (k.(remoteChassis := id), true)
    case ChassisValue(v) =>
      if v == [] || k.remoteChassis.value == v then (k, false) else (k.(remoteChassis := Identifier(7, v)), true)
    case Port(id) => if k.remotePort == id then (k, false) else (k.(remotePort := id), true)
    case PortValue(v) =>
      if v == [] || k.remotePort.value == v then (k, false) else (k.(remotePort := Identifier(7, v)), true)
    case Interface(name) =>
      var v := MergeText(k.remoteInterface, name, {p}, 3, now, w.alternatives);
      (k.(remoteInterface := v.0), v.1)
    case OnVLAN(v) => if v in k.vlans then (k, false) else (k.(vlans := k.vlans + [v]), true)
  }

  function ApplyLinkAll(edits: seq<LinkEdit>, k: LinkInfo, p: Protocol, now: Time, w: Setting): (LinkInfo, bool) {
    if edits == [] then (k, false) else
    var r := ApplyLinkAll(edits[..|edits| - 1], k, p, now, w);
    var a := ApplyLink(edits[|edits| - 1], r.0, p, now, w);
    (a.0, r.1 || a.1)
  }

  predicate LinkKnown(e: LinkEdit, k: LinkInfo, p: Protocol, now: Time, w: Setting) {
    !ApplyLink(e, k, p, now, w).1
  }

  predicate SameLinkTarget(e: LinkEdit, f: LinkEdit) {
    ((e.Chassis? || e.ChassisValue?) && (f.Chassis? || f.ChassisValue?))
    || ((e.Port? || e.PortValue?) && (f.Port? || f.PortValue?)) || (e.Interface? && f.Interface?)
  }

  ghost predicate LinkDistinct(edits: seq<LinkEdit>) {
    forall i, j | 0 <= i < |edits| && 0 <= j < |edits| && i != j :: !SameLinkTarget(edits[i], edits[j])
  }

  /** Everything of a link but its identifiers, interface name and VLANs, which only grow. */
  ghost predicate SameBase(k: LinkInfo, r: LinkInfo) {
    && r == k.(remoteChassis := r.remoteChassis, remotePort := r.remotePort, remoteInterface := r.remoteInterface, vlans := r.vlans)
    && forall v | v in k.vlans :: v in r.vlans
  }

  lemma {:induction false} LinkEditsBase(edits: seq<LinkEdit>, k: LinkInfo, p: Protocol, now: Time, w: Setting)
    ensures SameBase(k, ApplyLinkAll(edits, k, p, now, w).0)
  {
    hide MergeText;
    if edits != [] { LinkEditsBase(edits[..|edits| - 1], k, p, now, w); }
  }

  lemma LinkApplied(e: LinkEdit, k: LinkInfo, p: Protocol, now: Time, later: Time, w: Setting)
    ensures LinkKnown(e, ApplyLink(e, k, p, now, w).0, p, later, w)
  {
    hide MergeText;
    if e.Interface? { RepeatQuiet(k.remoteInterface, e.name, {p}, 3, now, later, w.alternatives); }
  }

  /** Known link evidence stays known through a refresh of the link and other evidence. */
  lemma LinkKnownKept(e: LinkEdit, f: LinkEdit, k: LinkInfo, p: Protocol, now: Time, later: Time, w: Setting)
    requires LinkKnown(e, k, p, later, w) && !SameLinkTarget(e, f)
    ensures LinkKnown(e, ApplyLink(f, k, p, now, w).0, p, later, w)
  {
    hide MergeText;
  }

  lemma {:induction false} LinkAllKnown(edits: seq<LinkEdit>, k: LinkInfo, p: Protocol, now: Time, later: Time, w: Setting)
    requires LinkDistinct(edits)
    ensures forall i | 0 <= i < |edits| :: LinkKnown(edits[i], ApplyLinkAll(edits, k, p, now, w).0, p, later, w)
  {
    hide ApplyLink, LinkKnown, SameLinkTarget;
    if edits != [] {
      var n := |edits| - 1;
      var k' := ApplyLinkAll(edits[..n], k, p, now, w).0;
      LinkAllKnown(edits[..n], k, p, now, later, w);
      LinkApplied(edits[n], k', p, now, later, w);
      forall i | 0 <= i < n ensures LinkKnown(edits[i], ApplyLink(edits[n], k', p, now, w).0, p, later, w) {
        assert LinkKnown(edits[..n][i], k', p, later, w);
        LinkKnownKept(edits[i], edits[n], k', p, now, later, w);
      }
    }
  }

  lemma {:induction false} LinkKnownAllQuiet(edits: seq<LinkEdit>, k: LinkInfo, p: Protocol, now: Time, w: Setting, n: nat)
    requires LinkDistinct(edits) && (forall i | 0 <= i < |edits| :: LinkKnown(edits[i], k, p, now, w)) && n <= |edits|
    ensures var r := ApplyLinkAll(edits[..n], k, p, now, w); !r.1 && forall i | n <= i < |edits| :: LinkKnown(edits[i], r.0, p, now, w)
  {
    hide LinkKnown, ApplyLink, SameLinkTarget;
    if n > 0 {
      LinkKnownAllQuiet(edits, k, p, now, w, n - 1);
      var k' := ApplyLinkAll(edits[..n - 1], k, p, now, w).0;
      assert edits[..n][..n - 1] == edits[..n - 1];
      LinkKnownIs(edits[n - 1], k', p, now, w);
      forall i | n <= i < |edits| ensures LinkKnown(edits[i], ApplyLink(edits[n - 1], k', p, now, w).0, p, now, w) {
        LinkKnownKept(edits[i], edits[n - 1], k', p, now, now, w);
      }
    }
  }

  lemma LinkKnownIs(e: LinkEdit, k: LinkInfo, p: Protocol, now: Time, w: Setting)
    ensures LinkKnown(e, k, p, now, w) <==> !ApplyLink(e, k, p, now, w).1
  {
  }
}
