/** LLDP, CDP and MNDP, message by message: what a whole observation leaves. */
module LearnedMessages {
  import opened Model
  import opened FusionTypes
  import opened Slabs
  import Text
  import opened Stores
  import opened Timing
  import opened Fusion
  import opened DNSCache
  import opened Observe
  import opened Observations
  import opened QuietRepeat
  import opened Learned

  predicate Host(m: MAC) { m != [0, 0, 0, 0, 0, 0] && m[0] % 2 == 0 }

  function Unmapped(a: Addr): Addr { if a.Mapped? then V4(a.v4) else a }

  /** The set of a list, and of what is added to it. */
  ghost predicate Adds<T(!new)>(r: seq<T>, k: seq<T>, more: seq<T>) { forall x :: x in r <==> x in k || x in more }

  ghost predicate AddsAddresses(r: seq<Addr>, k: seq<Addr>, more: seq<Addr>) {
    forall a :: a in r <==> a in k || exists b :: b in more && b != NoAddr && Unmapped(b) == a
  }

  predicate Merged(r: TextField, k: TextField, text: seq<Byte>, p: Protocol, confidence: nat, now: Time, max: nat) {
    r == Text.MergeText(k, text, {p}, confidence, now, max).0
  }

  /** The MAC a chassis identifier is, if that is what it is. */
  function ChassisHost(id: Identifier): seq<MAC> { if id.subtype == 4 && |id.value| == 6 && Host(id.value) then [id.value] else [] }

  /** The source of a message, if a single host. */
  function Sender(meta: Meta): seq<MAC> { if Host(meta.sourceMAC) then [meta.sourceMAC] else [] }

  function OtherThan(claims: seq<MAC>, source: MAC): seq<MAC> { if claims == [source] then [] else claims }

  /** What an LLDP message leaves in its device: source, chassis MAC if another, their vendors, addresses, system name and
      capabilities. */
  ghost predicate LLDPLeft(r: DeviceInfo, k: DeviceInfo, meta: Meta, m: LLDPMessage, w: World, max: nat) {
    && VendorLeft(r.vendor, k, Sender(meta), OtherThan(ChassisHost(m.chassis), meta.sourceMAC), w, LLDP, meta.timestamp, max) && r.uptime == k.uptime
    && Adds(r.observedMACs, k.observedMACs, Sender(meta))
    && Adds(r.claimedMACs, k.claimedMACs, OtherThan(ChassisHost(m.chassis), meta.sourceMAC))
    && AddsAddresses(r.addresses, k.addresses, m.addresses)
    && r.capabilities == k.capabilities + m.capabilities && r.protocols == k.protocols + {LLDP}
    && Merged(r.systemName, k.systemName, m.systemName, LLDP, 3, meta.timestamp, max)
    && r.hostName == k.hostName && r.protocolDeviceID == k.protocolDeviceID && r.model == k.model && r.platform == k.platform && r.softwareVersion == k.softwareVersion
  }

  /** And in its link: chassis, port, port description and VLANs. */
  ghost predicate LLDPLinkLeft(r: LinkInfo, k: LinkInfo, meta: Meta, m: LLDPMessage, max: nat) {
    && r.remoteChassis == m.chassis && r.remotePort == m.port
    && Merged(r.remoteInterface, k.remoteInterface, m.portDescription, LLDP, 3, meta.timestamp, max)
    && Adds(r.vlans, k.vlans, m.vlans + if m.pvid.Some? then [m.pvid.value] else [])
  }

  /** A text a message speaks of. */
  ghost predicate Speaking(edits: seq<Edit>, t: TextSlot, text: seq<Byte>, confidence: nat) {
    exists j :: OnlySaid(edits, j) && edits[j].slot == t && edits[j].text == text && edits[j].confidence == confidence
  }

  /** What is spoken behind MACs and addresses. */
  lemma BareSpoken(bare: seq<Edit>, spoken: seq<Edit>)
    requires (forall i | 0 <= i < |bare| :: Bare(bare[i])) && WellSpoken(spoken) && forall i | 0 <= i < |spoken| :: FieldNamed(spoken[i])
    ensures var e := bare + spoken;
            && SaidOnce(e) && (forall i | 0 <= i < |e| :: FieldNamed(e[i]))
            && (forall x | Bare(x) :: x in e <==> x in bare) && (forall x | !Bare(x) :: x in e <==> x in spoken)
            && (forall t :: Unsaid(e, t) <==> Unsaid(spoken, t))
            && (forall saw, claims | MACsFirst(bare, saw, claims) :: MACsFirst(e, saw, claims))
            && (forall j | 0 <= j < |spoken| && spoken[j].Says? :: Speaking(e, spoken[j].slot, spoken[j].text, spoken[j].confidence))
  {
    hide FieldNamed;
    var e := bare + spoken;
    forall i | 0 <= i < |spoken| ensures VendorAside(spoken[i]) { SpokenAside(spoken[i]); }
    forall saw, claims | MACsFirst(bare, saw, claims) ensures MACsFirst(e, saw, claims) {
      forall i | |saw| + |claims| <= i < |e| ensures VendorAside(e[i]) { if i >= |bare| { assert e[i] == spoken[i - |bare|]; } else { assert e[i] == bare[i]; } }
      forall i | 0 <= i < |bare| ensures e[i] == bare[i] {}
    }
    forall i | 0 <= i < |e| ensures FieldNamed(e[i]) && (i < |bare| ==> !e[i].Says?) { if i < |bare| { BareNamed(e[i]); } }
    forall i, j | |bare| <= i < |e| && |bare| <= j < |e| && i != j && e[i].Says? && e[j].Says? ensures e[i].slot != e[j].slot {
      assert !SameTarget(spoken[i - |bare|], spoken[j - |bare|]);
    }
    forall i | |bare| <= i < |e| && e[i].Says? ensures OnlySaid(e, i) { assert !(spoken[i - |bare|].Says? && spoken[i - |bare|].slot.Vendor?); }
    forall j | 0 <= j < |spoken| && spoken[j].Says? ensures Speaking(e, spoken[j].slot, spoken[j].text, spoken[j].confidence) { assert OnlySaid(e, |bare| + j); }
    forall t ensures Unsaid(e, t) <==> Unsaid(spoken, t) {
      if Unsaid(e, t) { forall i | 0 <= i < |spoken| ensures !(spoken[i].Says? && spoken[i].slot == t) { assert e[|bare| + i] == spoken[i]; } }
    }
  }

  lemma SpokenAside(e: Edit)
    requires FieldNamed(e) && !Bare(e) && !(e.Says? && e.slot.Vendor?)
    ensures VendorAside(e)
  {
  }

  lemma BareNamed(e: Edit)
    requires Bare(e)
    ensures FieldNamed(e) && !e.Says?
  {
  }

  /** Evidence of MACs, one of each kind at most, and addresses. */
  function BareOf(saw: seq<MAC>, claims: seq<MAC>, list: seq<Addr>): seq<Edit> {
    (if saw == [] then [] else [SawMAC(saw[0])]) + (if claims == [] then [] else [ClaimsMAC(claims[0])]) + Addresses(list)
  }

  lemma BareSays(saw: seq<MAC>, claims: seq<MAC>, list: seq<Addr>)
    requires |saw| <= 1 && |claims| <= 1
    ensures var bare := BareOf(saw, claims, list);
            && MACsFirst(bare, saw, claims) && (forall i | 0 <= i < |bare| :: Bare(bare[i]))
            && (forall x :: SawMAC(x) in bare <==> x in saw) && (forall x :: ClaimsMAC(x) in bare <==> x in claims)
            && (forall a :: HasAddress(a) in bare <==> a in list)
  {
    hide Addresses;
    ListedAddresses(list);
    var macs := (if saw == [] then [] else [SawMAC(saw[0])]) + if claims == [] then [] else [ClaimsMAC(claims[0])];
    var bare := BareOf(saw, claims, list);
    assert bare == macs + Addresses(list);
    forall i | |macs| <= i < |bare| ensures bare[i].HasAddress? { assert bare[i] == Addresses(list)[i - |macs|]; }
    forall x ensures x in bare <==> x in macs || x in Addresses(list) {}
    forall x | x in saw ensures SawMAC(x) in macs { assert macs[0] == SawMAC(x); }
    forall x | x in claims ensures ClaimsMAC(x) in macs { assert macs[|saw|] == ClaimsMAC(x); }
  }

  lemma LLDPBare(meta: Meta, m: LLDPMessage)
    ensures LLDPObservation(meta, m).edits == BareOf(Sender(meta), OtherThan(ChassisHost(m.chassis), meta.sourceMAC), m.addresses) + LLDPSpoken(m)
  {
    hide Addresses, LLDPSpoken;
  }

  lemma LLDPSaid(m: LLDPMessage)
    ensures var e := LLDPSpoken(m);
            && WellSpoken(e) && (forall i | 0 <= i < |e| :: FieldNamed(e[i])) && (forall i | 0 <= i < |e| :: !e[i].UpFor?) && (forall c :: CanDo(c) in e <==> c == m.capabilities)
            && e[0] == Says(SystemName, m.systemName, 3, FieldNames) && forall t | t != SystemName :: Unsaid(e, t)
  {
    LLDPSpokenDistinct(m);
    assert LLDPSpoken(m)[1] == CanDo(m.capabilities);
  }

  lemma ListedAddresses(list: seq<Addr>)
    ensures (forall a :: HasAddress(a) in Addresses(list) <==> a in list) && |Addresses(list)| == |list| && forall i | 0 <= i < |list| :: Addresses(list)[i].HasAddress?
  {
    forall a | a in list ensures HasAddress(a) in Addresses(list) {
      var i :| 0 <= i < |list| && list[i] == a;
      assert Addresses(list)[i] == HasAddress(a);
    }
  }

  /** A device's lists and sets after a message, its vendor and uptime, and its text fields, from what the message says. */
  lemma GainedMeans(r: DeviceInfo, k: DeviceInfo, meta: Meta, edits: seq<Edit>, w: World, max: nat)
    requires DeviceLearned(r, k, meta, edits, w, max) && Speaks in edits
    ensures forall m :: m in r.observedMACs <==> m in k.observedMACs || SawMAC(m) in edits
    ensures forall m :: m in r.claimedMACs <==> m in k.claimedMACs || ClaimsMAC(m) in edits
    ensures forall a :: a in r.addresses <==> a in k.addresses || exists b :: HasAddress(b) in edits && b != NoAddr && Unmapped(b) == a
    ensures forall c :: c in r.capabilities <==> c in k.capabilities || CanDoes(edits, c)
    ensures r.protocols == k.protocols + {meta.protocol}
    ensures forall t, text, confidence | Speaking(edits, t, text, confidence) :: Merged(GetText(r, t), GetText(k, t), text, meta.protocol, confidence, meta.timestamp, max)
    ensures forall t: TextSlot | !t.Vendor? && Unsaid(edits, t) :: GetText(r, t) == GetText(k, t)
    ensures forall saw, claims | MACsFirst(edits, saw, claims) :: VendorLeft(r.vendor, k, saw, claims, w, meta.protocol, meta.timestamp, max)
    ensures UptimeLeft(r.uptime, k.uptime, edits, meta.protocol, meta.timestamp)
  {
    hide FactsOf, GetText, Text.MergeText, UptimeLeft, VendorLeft, MACsFirst;
    forall a ensures NamesAddress(edits, a) <==> exists b :: HasAddress(b) in edits && b != NoAddr && Unmapped(b) == a {}
    forall q ensures q in r.protocols <==> q in k.protocols + {meta.protocol} {}
  }

  /** A device after a message of MACs, addresses and what is spoken behind them. */
  ghost predicate MessageLeft(r: DeviceInfo, k: DeviceInfo, meta: Meta, saw: seq<MAC>, claims: seq<MAC>, list: seq<Addr>, spoken: seq<Edit>, w: World, max: nat) {
    && Adds(r.observedMACs, k.observedMACs, saw) && Adds(r.claimedMACs, k.claimedMACs, claims) && AddsAddresses(r.addresses, k.addresses, list)
    && (forall c :: c in r.capabilities <==> c in k.capabilities || CanDoes(spoken, c)) && r.protocols == k.protocols + {meta.protocol}
    && (forall i | 0 <= i < |spoken| :: TextLeft(r, k, meta, spoken[i], max)) && (forall t: TextSlot | !t.Vendor? && Unsaid(spoken, t) :: GetText(r, t) == GetText(k, t))
    && VendorLeft(r.vendor, k, saw, claims, w, meta.protocol, meta.timestamp, max) && UptimeLeft(r.uptime, k.uptime, spoken, meta.protocol, meta.timestamp)
  }

  predicate TextLeft(r: DeviceInfo, k: DeviceInfo, meta: Meta, e: Edit, max: nat) {
    e.Says? ==> Merged(GetText(r, e.slot), GetText(k, e.slot), e.text, meta.protocol, e.confidence, meta.timestamp, max)
  }

  lemma MessageMeans(r: DeviceInfo, k: DeviceInfo, meta: Meta, saw: seq<MAC>, claims: seq<MAC>, list: seq<Addr>, spoken: seq<Edit>, w: World, max: nat)
    requires |saw| <= 1 && |claims| <= 1 && WellSpoken(spoken) && (forall i | 0 <= i < |spoken| :: FieldNamed(spoken[i]))
    requires DeviceLearned(r, k, meta, BareOf(saw, claims, list) + spoken, w, max)
    ensures MessageLeft(r, k, meta, saw, claims, list, spoken, w, max)
  {
    hide DeviceLearned, FieldNamed, Unsaid, Speaking, Merged, WellSpoken, VendorLeft, MACsFirst, BareOf, GetText;
    var bare := BareOf(saw, claims, list);
    var e := bare + spoken;
    BareSays(saw, claims, list);
    assert Speaks in spoken by { EndsSpeaking(spoken); }
    BareSpoken(bare, spoken);
    GainedMeans(r, k, meta, e, w, max);
    forall c ensures CanDoes(e, c) <==> CanDoes(spoken, c) {}
    forall i | 0 <= i < |spoken| && spoken[i].Says? ensures TextLeft(r, k, meta, spoken[i], max) { assert Speaking(e, spoken[i].slot, spoken[i].text, spoken[i].confidence); }
    SpokenUptime(r.uptime, k.uptime, bare, spoken, meta.protocol, meta.timestamp);
  }

  lemma EndsSpeaking(spoken: seq<Edit>)
    requires WellSpoken(spoken)
    ensures Speaks in spoken
  {
  }

  lemma SpokenUptime(r: Uptime, k: Uptime, bare: seq<Edit>, spoken: seq<Edit>, p: Protocol, now: Time)
    requires (forall i | 0 <= i < |bare| :: Bare(bare[i])) && UptimeLeft(r, k, bare + spoken, p, now)
    ensures UptimeLeft(r, k, spoken, p, now)
  {
    forall i | 0 <= i < |spoken| ensures (bare + spoken)[|bare| + i] == spoken[i] {}
  }

  lemma LLDPFrom(r: DeviceInfo, k: DeviceInfo, meta: Meta, m: LLDPMessage, w: World, max: nat)
    requires DeviceLearned(r, k, meta, LLDPObservation(meta, m).edits, w, max) && meta.protocol == LLDP
    ensures LLDPLeft(r, k, meta, m, w, max)
  {
    hide DeviceLearned, LLDPObservation, LLDPSpoken, FieldNamed, Unsaid, Merged, WellSpoken, VendorLeft, BareOf, Adds, AddsAddresses, GetText;
    var said, claims := LLDPSpoken(m), OtherThan(ChassisHost(m.chassis), meta.sourceMAC);
    LLDPBare(meta, m);
    LLDPSaid(m);
    MessageMeans(r, k, meta, Sender(meta), claims, m.addresses, said, w, max);
    assert TextLeft(r, k, meta, said[0], max);
    TextsNamed(r, k);
    forall c ensures CanDoes(said, c) <==> c in m.capabilities { if c in m.capabilities { assert CanDo(m.capabilities) in said; } }
    assert Unsaid(said, HostName) && Unsaid(said, DeviceID) && Unsaid(said, ModelName) && Unsaid(said, Platform) && Unsaid(said, Software);
    assert r.capabilities == k.capabilities + m.capabilities;
  }

  lemma TextsNamed(r: DeviceInfo, k: DeviceInfo)
    ensures forall q | q == r || q == k ::
              && GetText(q, SystemName) == q.systemName && GetText(q, HostName) == q.hostName && GetText(q, DeviceID) == q.protocolDeviceID
              && GetText(q, ModelName) == q.model && GetText(q, Platform) == q.platform && GetText(q, Software) == q.softwareVersion
  {
  }

  lemma LLDPLinkFrom(r: LinkInfo, k: LinkInfo, meta: Meta, m: LLDPMessage, w: Setting)
    requires Told(r, k, LLDPObservation(meta, m).linkEdits) && InterfaceTold(r, k, LLDPObservation(meta, m).linkEdits, meta, w) && meta.protocol == LLDP
    ensures LLDPLinkLeft(r, k, meta, m, w.alternatives)
  {
    hide Sighting, Addresses, LLDPSpoken, Text.MergeText;
    var e := LLDPObservation(meta, m).linkEdits;
    assert e[0] == Chassis(m.chassis) && e[1] == Port(m.port) && e[2] == Interface(m.portDescription);
    assert Agrees(r, e[0]) && Agrees(r, e[1]);
    VLANsListed(m.vlans);
    forall v ensures OnVLAN(v) in e <==> v in m.vlans || m.pvid == Some(v) {
      assert e == e[..3] + OptionVLAN(m.pvid) + VLANs(m.vlans);
      assert OnVLAN(v) in e <==> OnVLAN(v) in OptionVLAN(m.pvid) || OnVLAN(v) in VLANs(m.vlans);
    }
  }

  lemma VLANsListed(list: seq<nat>)
    ensures forall v :: OnVLAN(v) in VLANs(list) <==> v in list
  {
    forall v | v in list ensures OnVLAN(v) in VLANs(list) {
      var i :| 0 <= i < |list| && list[i] == v;
      assert VLANs(list)[i] == OnVLAN(v);
    }
  }

  /** A whole LLDP observation: l is the link it ends on, as the message tells it from k, the link as merely
      sighted for the message's time to live. */
  lemma LLDPLearned(s: Store, meta: Meta, m: LLDPMessage, w: World) returns (l: int, k: LinkInfo, before: seq<Event>)
    requires Inv(s) && meta.protocol == LLDP && IdentityKey(meta, ChassisMAC(m.chassis), m.addresses).Some?
    ensures var o := LLDPObservation(meta, m); var r := DeviceFor(s, meta, ChassisMAC(m.chassis), m.addresses); var t := Observed(s, meta, o, w);
            && Learns(r.0, t, meta, r.1, o, w, l, k, before)
            && LLDPLeft(t.info[r.1], r.0.info[r.1], meta, m, w, s.limits.alternatives) && LLDPLinkLeft(t.link[l], k, meta, m, s.limits.alternatives)
            && LinkLeft(r.0, t.(link := t.link[l := k]), meta, r.1, PhysicalAdjacency, m.ttl * SECOND, l)
  {
    hide InvGap, DeviceFor, Observed, IdentityKey, LLDPObservation, DeviceLearned, Told, LinkLeft, ReportLeft, InterfaceTold, LLDPLeft, LLDPLinkLeft, LLDPSpoken,
         FieldNamed, SaidOnce, LinkDistinct, WellSpoken, BareOf;
    var o := LLDPObservation(meta, m);
    LLDPAlike(meta, m, meta.timestamp);
    LLDPDistinct(meta, m);
    var bare := BareOf(Sender(meta), OtherThan(ChassisHost(m.chassis), meta.sourceMAC), m.addresses);
    LLDPBare(meta, m);
    BareSays(Sender(meta), OtherThan(ChassisHost(m.chassis), meta.sourceMAC), m.addresses);
    LLDPSaid(m);
    BareSpoken(bare, LLDPSpoken(m));
    DeviceForInv(s, meta, o.claimed, o.addresses);
    l, k, before := ObservedLearns(s, meta, o, w);
    var r := DeviceFor(s, meta, o.claimed, o.addresses);
    var t := Observed(s, meta, o, w);
    LLDPFrom(t.info[r.1], r.0.info[r.1], meta, m, w, s.limits.alternatives);
    LLDPLinkFrom(t.link[l], k, meta, m, In(w, s.limits));
  }
  // ---------- CDP ----------

  /** What a CDP message leaves in its device: source and its vendor, both lists of addresses, names, capabilities and software,
      its platform as platform and as model. */
  ghost predicate CDPLeft(r: DeviceInfo, k: DeviceInfo, meta: Meta, m: CDPMessage, w: World, max: nat) {
    && VendorLeft(r.vendor, k, Sender(meta), [], w, CDP, meta.timestamp, max) && r.uptime == k.uptime
    && Adds(r.observedMACs, k.observedMACs, Sender(meta)) && Adds(r.claimedMACs, k.claimedMACs, [])
    && AddsAddresses(r.addresses, k.addresses, m.addresses + m.managementAddresses)
    && r.capabilities == k.capabilities + m.capabilities && r.protocols == k.protocols + {CDP}
    && Merged(r.protocolDeviceID, k.protocolDeviceID, m.deviceID, CDP, 3, meta.timestamp, max)
    && Merged(r.systemName, k.systemName, m.systemName, CDP, 3, meta.timestamp, max)
    && Merged(r.platform, k.platform, m.platform, CDP, 3, meta.timestamp, max)
    && Merged(r.model, k.model, m.platform, CDP, 3, meta.timestamp, max)
    && Merged(r.softwareVersion, k.softwareVersion, m.software, CDP, 3, meta.timestamp, max)
    && r.hostName == k.hostName
  }

  /** And in its link: device and port, if given, the port as its interface, and the native VLAN. */
  ghost predicate CDPLinkLeft(r: LinkInfo, k: LinkInfo, meta: Meta, m: CDPMessage, max: nat) {
    && r.remoteChassis == (if m.deviceID == [] || m.deviceID == k.remoteChassis.value then k.remoteChassis else Identifier(7, m.deviceID))
    && r.remotePort == (if m.portID == [] || m.portID == k.remotePort.value then k.remotePort else Identifier(7, m.portID))
    && Merged(r.remoteInterface, k.remoteInterface, m.portID, CDP, 3, meta.timestamp, max)
    && Adds(r.vlans, k.vlans, if m.nativeVLAN.Some? then [m.nativeVLAN.value] else [])
  }

  lemma CDPBare(meta: Meta, m: CDPMessage)
    ensures CDPObservation(meta, m).edits == BareOf(Sender(meta), [], m.addresses + m.managementAddresses) + CDPSpoken(m)
  {
    hide CDPSpoken;
    assert Addresses(m.addresses + m.managementAddresses) == Addresses(m.addresses) + Addresses(m.managementAddresses);
  }

  lemma CDPSaid(m: CDPMessage)
    ensures var e := CDPSpoken(m);
            && WellSpoken(e) && (forall i | 0 <= i < |e| :: FieldNamed(e[i])) && (forall i | 0 <= i < |e| :: !e[i].UpFor?) && (forall c :: CanDo(c) in e <==> c == m.capabilities)
            && e[..5] == [Says(DeviceID, m.deviceID, 3, FieldNames), Says(SystemName, m.systemName, 3, FieldNames), Says(Platform, m.platform, 3, FieldPlatform),
                          Says(ModelName, m.platform, 3, FieldModel), Says(Software, m.software, 3, FieldSoftware)]
            && Unsaid(e, HostName)
  {
    CDPSpokenDistinct(m);
    assert CDPSpoken(m)[5] == CanDo(m.capabilities);
  }

  lemma CDPFrom(r: DeviceInfo, k: DeviceInfo, meta: Meta, m: CDPMessage, w: World, max: nat)
    requires DeviceLearned(r, k, meta, CDPObservation(meta, m).edits, w, max) && meta.protocol == CDP
    ensures CDPLeft(r, k, meta, m, w, max)
  {
    hide DeviceLearned, CDPObservation, CDPSpoken, FieldNamed, Unsaid, Merged, WellSpoken, VendorLeft, BareOf, Adds, AddsAddresses, GetText;
    var said := CDPSpoken(m);
    CDPBare(meta, m);
    CDPSaid(m);
    MessageMeans(r, k, meta, Sender(meta), [], m.addresses + m.managementAddresses, said, w, max);
    forall j | 0 <= j < 5 ensures said[j] == said[..5][j] && TextLeft(r, k, meta, said[j], max) {}
    assert TextLeft(r, k, meta, said[0], max) && TextLeft(r, k, meta, said[1], max) && TextLeft(r, k, meta, said[2], max)
           && TextLeft(r, k, meta, said[3], max) && TextLeft(r, k, meta, said[4], max);
    TextsNamed(r, k);
    forall c ensures CanDoes(said, c) <==> c in m.capabilities { if c in m.capabilities { assert CanDo(m.capabilities) in said; } }
    assert Unsaid(said, HostName);
    assert r.capabilities == k.capabilities + m.capabilities;
  }

  lemma CDPLinkFrom(r: LinkInfo, k: LinkInfo, meta: Meta, m: CDPMessage, w: Setting)
    requires var o := CDPObservation(meta, m); Told(r, k, o.linkEdits) && InterfaceTold(r, k, o.linkEdits, meta, w)
    requires meta.protocol == CDP
    ensures CDPLinkLeft(r, k, meta, m, w.alternatives)
  {
    hide Sighting, Addresses, CDPSpoken, Text.MergeText;
    var e := CDPObservation(meta, m).linkEdits;
    assert e[0] == ChassisValue(m.deviceID) && e[1] == PortValue(m.portID) && e[2] == Interface(m.portID);
    assert ByValue(r, k, e[0]) && ByValue(r, k, e[1]);
    forall v: nat ensures OnVLAN(v) in e <==> m.nativeVLAN == Some(v) { assert e == e[..3] + OptionVLAN(m.nativeVLAN); }
  }

  /** A whole CDP observation. */
  lemma CDPLearned(s: Store, meta: Meta, m: CDPMessage, w: World) returns (l: int, k: LinkInfo, before: seq<Event>)
    requires Inv(s) && meta.protocol == CDP && IdentityKey(meta, NO_MAC, m.addresses).Some?
    ensures var o := CDPObservation(meta, m); var r := DeviceFor(s, meta, NO_MAC, m.addresses); var t := Observed(s, meta, o, w);
            && Learns(r.0, t, meta, r.1, o, w, l, k, before)
            && CDPLeft(t.info[r.1], r.0.info[r.1], meta, m, w, s.limits.alternatives) && CDPLinkLeft(t.link[l], k, meta, m, s.limits.alternatives)
            && LinkLeft(r.0, t.(link := t.link[l := k]), meta, r.1, PhysicalAdjacency, m.ttl * SECOND, l)
  {
    hide InvGap, DeviceFor, Observed, IdentityKey, CDPObservation, DeviceLearned, Told, LinkLeft, ReportLeft, InterfaceTold, CDPLeft, CDPLinkLeft, CDPSpoken,
         FieldNamed, SaidOnce, LinkDistinct, WellSpoken, BareOf;
    var o := CDPObservation(meta, m);
    CDPAlike(meta, m, meta.timestamp);
    CDPDistinct(meta, m);
    var bare := BareOf(Sender(meta), [], m.addresses + m.managementAddresses);
    CDPBare(meta, m);
    BareSays(Sender(meta), [], m.addresses + m.managementAddresses);
    CDPSaid(m);
    BareSpoken(bare, CDPSpoken(m));
    DeviceForInv(s, meta, o.claimed, o.addresses);
    l, k, before := ObservedLearns(s, meta, o, w);
    var r := DeviceFor(s, meta, o.claimed, o.addresses);
    var t := Observed(s, meta, o, w);
    CDPFrom(t.info[r.1], r.0.info[r.1], meta, m, w, s.limits.alternatives);
    CDPLinkFrom(t.link[l], k, meta, m, In(w, s.limits));
  }

  // ---------- MNDP ----------

  /** The address with the interface it was heard on, if it is good on one interface only and names none. */
  predicate ZonedAs(a: Addr, b: Addr, interfaceName: seq<Byte>) {
    a == (if IsLinkLocal(b) && b.zone == [] then V6(b.bits, interfaceName) else b)
  }

  function Claim(m: MNDPMessage): seq<MAC> { if m.mac.Some? then [m.mac.value] else [] }

  /** An address of the announcement: the sender's, or one announced. */
  ghost predicate Announced(a: Addr, meta: Meta, m: MNDPMessage) {
    || (meta.sourceIP != NoAddr && a == Unmapped(meta.sourceIP))
    || exists b, c :: b in m.addresses && b != NoAddr && ZonedAs(c, b, meta.interfaceName) && a == Unmapped(c)
  }

  /** What an announcement leaves in its device: source, claimed MAC, their vendors, sender and announced addresses, identity,
      platform, board as model with more confidence, version and uptime. */
  ghost predicate MNDPLeft(r: DeviceInfo, k: DeviceInfo, meta: Meta, m: MNDPMessage, w: World, max: nat) {
    && VendorLeft(r.vendor, k, Sender(meta), Claim(m), w, MNDP, meta.timestamp, max)
    && Adds(r.observedMACs, k.observedMACs, Sender(meta))
    && Adds(r.claimedMACs, k.claimedMACs, Claim(m))
    && (forall a :: a in r.addresses <==> a in k.addresses || Announced(a, meta, m))
    && r.capabilities == k.capabilities && r.protocols == k.protocols + {MNDP}
    && Merged(r.systemName, k.systemName, m.identity, MNDP, 3, meta.timestamp, max)
    && Merged(r.platform, k.platform, m.platform, MNDP, 3, meta.timestamp, max)
    && Merged(r.model, k.model, m.board, MNDP, 4, meta.timestamp, max)
    && Merged(r.softwareVersion, k.softwareVersion, m.version, MNDP, 3, meta.timestamp, max)
    && r.hostName == k.hostName && r.protocolDeviceID == k.protocolDeviceID
    && r.uptime == (if m.uptime.Some? then Uptime(m.uptime.value, meta.timestamp, (if k.uptime.valid then k.uptime.protocols else {}) + {MNDP}, true) else k.uptime)
  }

  lemma MNDPBare(meta: Meta, m: MNDPMessage, idleTTL: int)
    ensures MNDPObservation(meta, m, idleTTL).edits
            == BareOf(Sender(meta), Claim(m), [meta.sourceIP] + ZonedAll(m.addresses, meta.interfaceName)) + MNDPSpoken(m)
  {
    hide MNDPSpoken, ZonedAll;
    var zoned := ZonedAll(m.addresses, meta.interfaceName);
    assert Addresses([meta.sourceIP] + zoned) == [HasAddress(meta.sourceIP)] + Addresses(zoned);
  }

  lemma AllZoned(list: seq<Addr>, interfaceName: seq<Byte>)
    ensures forall a :: a in ZonedAll(list, interfaceName) <==> exists b :: b in list && ZonedAs(a, b, interfaceName)
  {
    var zoned := ZonedAll(list, interfaceName);
    forall a ensures a in zoned <==> exists b :: b in list && ZonedAs(a, b, interfaceName) {
      if a in zoned { var i :| 0 <= i < |zoned| && zoned[i] == a; assert ZonedAs(a, list[i], interfaceName); }
      if b :| b in list && ZonedAs(a, b, interfaceName) { var i :| 0 <= i < |list| && list[i] == b; assert zoned[i] == a; }
    }
  }

  lemma MNDPSaid(m: MNDPMessage)
    ensures var e := MNDPSpoken(m);
            && WellSpoken(e) && (forall i | 0 <= i < |e| :: FieldNamed(e[i])) && (forall c :: CanDo(c) !in e)
            && 5 <= |e| && e[..4] == [Says(SystemName, m.identity, 3, FieldNames), Says(Platform, m.platform, 3, FieldPlatform),
                          Says(ModelName, m.board, 4, FieldModel), Says(Software, m.version, 3, FieldSoftware)]
            && Unsaid(e, HostName) && Unsaid(e, DeviceID)
  {
    MNDPSpokenDistinct(m);
  }

  lemma MNDPFrom(r: DeviceInfo, k: DeviceInfo, meta: Meta, m: MNDPMessage, idleTTL: int, w: World, max: nat)
    requires DeviceLearned(r, k, meta, MNDPObservation(meta, m, idleTTL).edits, w, max) && meta.protocol == MNDP
    ensures MNDPLeft(r, k, meta, m, w, max)
  {
    hide DeviceLearned, MNDPObservation, MNDPSpoken, FieldNamed, Unsaid, Merged, WellSpoken, VendorLeft, BareOf, Adds, AddsAddresses, GetText, ZonedAll, Announced;
    var said, list := MNDPSpoken(m), [meta.sourceIP] + ZonedAll(m.addresses, meta.interfaceName);
    MNDPBare(meta, m, idleTTL);
    MNDPSaid(m);
    MessageMeans(r, k, meta, Sender(meta), Claim(m), list, said, w, max);
    forall j | 0 <= j < 4 ensures said[j] == said[..4][j] && TextLeft(r, k, meta, said[j], max) {}
    assert TextLeft(r, k, meta, said[0], max) && TextLeft(r, k, meta, said[1], max) && TextLeft(r, k, meta, said[2], max) && TextLeft(r, k, meta, said[3], max);
    TextsNamed(r, k);
    forall c ensures !CanDoes(said, c) {}
    UptimeSaid(r.uptime, k.uptime, m, meta.protocol, meta.timestamp);
    assert Unsaid(said, HostName) && Unsaid(said, DeviceID);
    assert r.capabilities == k.capabilities;
    ZonedAddresses(r, k, meta, m);
  }

  lemma UptimeSaid(r: Uptime, k: Uptime, m: MNDPMessage, p: Protocol, now: Time)
    requires UptimeLeft(r, k, MNDPSpoken(m), p, now)
    ensures r == if m.uptime.Some? then Uptime(m.uptime.value, now, (if k.valid then k.protocols else {}) + {p}, true) else k
  {
    if m.uptime.Some? { assert MNDPSpoken(m)[4] == UpFor(m.uptime.value); }
  }

  lemma ZoneKeeps(a: Addr, b: Addr, interfaceName: seq<Byte>)
    requires ZonedAs(a, b, interfaceName)
    ensures a == NoAddr <==> b == NoAddr
  {
  }

  lemma ZonedAddresses(r: DeviceInfo, k: DeviceInfo, meta: Meta, m: MNDPMessage)
    requires AddsAddresses(r.addresses, k.addresses, [meta.sourceIP] + ZonedAll(m.addresses, meta.interfaceName))
    ensures forall a :: a in r.addresses <==> a in k.addresses || Announced(a, meta, m)
  {
    hide ZonedAll, IsLinkLocal;
    AllZoned(m.addresses, meta.interfaceName);
    var list := [meta.sourceIP] + ZonedAll(m.addresses, meta.interfaceName);
    assert forall b :: b in list <==> b == meta.sourceIP || b in ZonedAll(m.addresses, meta.interfaceName);
    forall c, b | ZonedAs(c, b, meta.interfaceName) ensures c == NoAddr <==> b == NoAddr { ZoneKeeps(c, b, meta.interfaceName); }
    forall a ensures Announced(a, meta, m) <==> exists b :: b in list && b != NoAddr && Unmapped(b) == a {
      if b :| b in list && b != NoAddr && Unmapped(b) == a {
        if b != meta.sourceIP { var c :| c in m.addresses && ZonedAs(b, c, meta.interfaceName); }
      }
      if Announced(a, meta, m) && !(meta.sourceIP != NoAddr && a == Unmapped(meta.sourceIP)) {
        var b, c :| b in m.addresses && b != NoAddr && ZonedAs(c, b, meta.interfaceName) && a == Unmapped(c);
        assert c in list;
      }
    }
  }

  /** A refresh request is not an announcement: nothing is learned from it, and nothing said. */
  lemma RefreshRequest(s: Store, meta: Meta, m: MNDPMessage, idleTTL: int, w: World)
    requires Inv(s) && m.isRefresh
    ensures ObservedMNDP(s, meta, m, idleTTL, w) == s
  {
  }

  /** A whole MNDP announcement. */
  lemma MNDPLearned(s: Store, meta: Meta, m: MNDPMessage, idleTTL: int, w: World) returns (l: int, k: LinkInfo, before: seq<Event>)
    requires Inv(s) && meta.protocol == MNDP && !m.isRefresh && IdentityKey(meta, if m.mac.Some? then m.mac.value else NO_MAC, m.addresses).Some?
    ensures var o := MNDPObservation(meta, m, idleTTL); var r := DeviceFor(s, meta, if m.mac.Some? then m.mac.value else NO_MAC, m.addresses);
            var t := ObservedMNDP(s, meta, m, idleTTL, w);
            && Learns(r.0, t, meta, r.1, o, w, l, k, before)
            && MNDPLeft(t.info[r.1], r.0.info[r.1], meta, m, w, s.limits.alternatives)
            && (forall n | n in Claim(m) :: n in t.info[r.1].claimedMACs)
            && t.link[l] == k.(remoteInterface := t.link[l].remoteInterface)
            && Merged(t.link[l].remoteInterface, k.remoteInterface, m.interfaceName, MNDP, 3, meta.timestamp, s.limits.alternatives)
            && LinkLeft(r.0, t.(link := t.link[l := k]), meta, r.1, SegmentPresence, idleTTL, l)
  {
    hide InvGap, DeviceFor, Observed, IdentityKey, MNDPObservation, DeviceLearned, Told, LinkLeft, ReportLeft, InterfaceTold, MNDPLeft, MNDPSpoken,
         FieldNamed, SaidOnce, LinkDistinct, WellSpoken, BareOf, VendorLeft, Merged;
    var o := MNDPObservation(meta, m, idleTTL);
    MNDPHints(meta, m, idleTTL);
    MNDPDistinct(meta, m, idleTTL);
    MNDPLinks(meta, m, idleTTL);
    var list := [meta.sourceIP] + ZonedAll(m.addresses, meta.interfaceName);
    var bare := BareOf(Sender(meta), Claim(m), list);
    MNDPBare(meta, m, idleTTL);
    BareSays(Sender(meta), Claim(m), list);
    MNDPSaid(m);
    BareSpoken(bare, MNDPSpoken(m));
    DeviceForInv(s, meta, o.claimed, o.addresses);
    l, k, before := ObservedLearns(s, meta, o, w);
    var r := DeviceFor(s, meta, o.claimed, o.addresses);
    var t := Observed(s, meta, o, w);
    MNDPFrom(t.info[r.1], r.0.info[r.1], meta, m, idleTTL, w, s.limits.alternatives);
    MNDPClaims(t.info[r.1], r.0.info[r.1], meta, m, w, s.limits.alternatives);
    MNDPLinkFrom(t.link[l], k, meta, m, In(w, s.limits), o.linkEdits);
  }

  lemma MNDPClaims(r: DeviceInfo, k: DeviceInfo, meta: Meta, m: MNDPMessage, w: World, max: nat)
    requires MNDPLeft(r, k, meta, m, w, max)
    ensures forall n | n in Claim(m) :: n in r.claimedMACs
  {
    hide VendorLeft, Merged;
  }

  lemma MNDPLinks(meta: Meta, m: MNDPMessage, idleTTL: int)
    ensures var o := MNDPObservation(meta, m, idleTTL); o.kind == SegmentPresence && o.ttl == idleTTL && o.linkEdits == [Interface(m.interfaceName)]
  {
    hide Sighting, Addresses, MNDPSpoken, ZonedAll;
  }

  lemma MNDPLinkFrom(r: LinkInfo, k: LinkInfo, meta: Meta, m: MNDPMessage, w: Setting, e: seq<LinkEdit>)
    requires e == [Interface(m.interfaceName)] && Told(r, k, e) && InterfaceTold(r, k, e, meta, w) && meta.protocol == MNDP
    ensures r == k.(remoteInterface := r.remoteInterface) && Merged(r.remoteInterface, k.remoteInterface, m.interfaceName, MNDP, 3, meta.timestamp, w.alternatives)
  {
    hide Text.MergeText;
    assert e[0] == Interface(m.interfaceName);
    assert forall v :: OnVLAN(v) !in e;
  }
}
