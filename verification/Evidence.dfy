/** Evidence taken in step by step: the loops behind the functions of Observe, over text cells. */
module Evidence {
  import opened Model
  import opened FusionTypes
  import opened Text
  import opened Stores
  import opened Fusion
  import opened DNSCache
  import opened Observe
  import opened Observations

  method TakeText(f: TextField, text: seq<Byte>, protocols: ProtocolSet, confidence: nat, now: Time, max: nat) returns (g: TextField, changed: bool)
    ensures (g, changed) == MergeText(f, text, protocols, confidence, now, max)
  {
    var cell := new TextCell(f);
    changed := cell.Merge(text, protocols, confidence, now, max);
    g := cell.Field();
  }

  /** mergeTextField. */
  method TakeField(dst: TextField, src: TextField, max: nat) returns (g: TextField)
    ensures g == MergeField(dst, src.values, max)
  {
    hide MergeText;
    g := dst;
    assert src.values[0..] == src.values;
    for i := 0 to |src.values|
      invariant MergeField(g, src.values[i..], max) == MergeField(dst, src.values, max)
    {
      var v := src.values[i];
      var changed;
      g, changed := TakeText(g, v.value, v.protocols, v.confidence, v.lastSeen, max);
      assert src.values[i..][1..] == src.values[i + 1..];
    }
  }

  /** appendUniqueMAC and appendUniqueAddr over a list. */
  method AppendEach<T(==)>(list: seq<T>, more: seq<T>) returns (r: seq<T>)
    ensures r == AppendAll(list, more)
  {
    r := list;
    assert more[0..] == more;
    for i := 0 to |more|
      invariant AppendAll(r, more[i..]) == AppendAll(list, more)
    {
      assert more[i..][1..] == more[i + 1..];
      r := AppendUnique(r, more[i]);
    }
  }

  /** The evidence of one device folded into another, field by field. */
  method TakeInfo(dst: DeviceInfo, src: DeviceInfo, max: nat) returns (r: DeviceInfo)
    ensures r == MergedInfo(dst, src, max)
  {
    hide MergeField, AppendAll;
    var observed := AppendEach(dst.observedMACs, src.observedMACs);
    var claimed := AppendEach(dst.claimedMACs, src.claimedMACs);
    var addresses := AppendEach(dst.addresses, src.addresses);
    r := dst.(observedMACs := observed, claimedMACs := claimed, addresses := addresses);
    var f := TakeField(r.systemName, src.systemName, max);
    r := r.(systemName := f);
    f := TakeField(r.hostName, src.hostName, max);
    r := r.(hostName := f);
    f := TakeField(r.protocolDeviceID, src.protocolDeviceID, max);
    r := r.(protocolDeviceID := f);
    f := TakeField(r.vendor, src.vendor, max);
    r := r.(vendor := f);
    f := TakeField(r.model, src.model, max);
    r := r.(model := f);
    f := TakeField(r.platform, src.platform, max);
    r := r.(platform := f);
    f := TakeField(r.softwareVersion, src.softwareVersion, max);
    r := r.(softwareVersion := f);
    if src.uptime.valid && (!r.uptime.valid || src.uptime.observedAt > r.uptime.observedAt) { r := r.(uptime := src.uptime); }
    r := r.(protocols := r.protocols + src.protocols, capabilities := r.capabilities + src.capabilities);
    if r.firstSeen == 0 || src.firstSeen < r.firstSeen { r := r.(firstSeen := src.firstSeen); }
    if src.lastSeen > r.lastSeen { r := r.(lastSeen := src.lastSeen); }
  }

  method TakeMAC(k: DeviceInfo, m: MAC, p: Protocol, confidence: nat, now: Time, w: Setting) returns (vendor: TextField, changed: set<Field>)
    ensures var v := MergeText(k.vendor, w.world.vendor(m), {p}, confidence, now, w.alternatives);
            vendor == v.0 && changed == if v.1 then {FieldIdentity, FieldVendor} else {FieldIdentity}
  {
    hide MergeText;
    var news;
    vendor, news := TakeText(k.vendor, w.world.vendor(m), {p}, confidence, now, w.alternatives);
    changed := {FieldIdentity};
    if news { changed := changed + {FieldVendor}; }
  }

  method TakeEdit(e: Edit, k: DeviceInfo, p: Protocol, now: Time, w: Setting) returns (r: DeviceInfo, changed: set<Field>)
    ensures (r, changed) == Apply(e, k, p, now, w)
  {
    hide MergeText, MergeUptime;
    r, changed := k, {};
    match e {
      case SawMAC(m) =>
        if m !in k.observedMACs {
          var vendor;
          vendor, changed := TakeMAC(k, m, p, 3, now, w);
          r := r.(observedMACs := r.observedMACs + [m], vendor := vendor);
        }
      case ClaimsMAC(m) =>
        if m !in k.claimedMACs {
          var vendor;
          vendor, changed := TakeMAC(k, m, p, 2, now, w);
          r := r.(claimedMACs := r.claimedMACs + [m], vendor := vendor);
        }
      case HasAddress(a) =>
        if a != NoAddr && Unmap(a) !in k.addresses { r, changed := r.(addresses := r.addresses + [Unmap(a)]), {FieldAddresses}; }
      case Says(slot, text, confidence, field) =>
        var f, news := TakeText(GetText(k, slot), text, {p}, confidence, now, w.alternatives);
        r := SetText(r, slot, f);
        if news { changed := {field}; }
      case CanDo(c) =>
        if !(c <= k.capabilities) { r, changed := r.(capabilities := r.capabilities + c), {FieldCapabilities}; }
      case UpFor(seconds) =>
        var u := MergeUptime(k.uptime, seconds, p, now);
        r := r.(uptime := u.0);
        if u.1 { changed := {FieldUptime}; }
      case Speaks =>
        if p !in k.protocols { r, changed := r.(protocols := r.protocols + {p}), {FieldIdentity}; }
    }
  }

  /** The evidence of a message, piece by piece. */
  method TakeAll(edits: seq<Edit>, k: DeviceInfo, p: Protocol, now: Time, w: Setting) returns (r: DeviceInfo, changed: set<Field>)
    ensures (r, changed) == ApplyAll(edits, k, p, now, w)
  {
    hide Apply;
    r, changed := k, {};
    for i := 0 to |edits|
      invariant (r, changed) == ApplyAll(edits[..i], k, p, now, w)
    {
      var more;
      r, more := TakeEdit(edits[i], r, p, now, w);
      changed := changed + more;
      assert edits[..i + 1][..i] == edits[..i];
    }
    assert edits[..|edits|] == edits;
  }

  method TakeLinkEdit(e: LinkEdit, k: LinkInfo, p: Protocol, now: Time, w: Setting) returns (r: LinkInfo, changed: bool)
    ensures (r, changed) == ApplyLink(e, k, p, now, w)
  {
    hide MergeText;
    r, changed := k, false;
    match e {
      case Chassis(id) =>
        if k.remoteChassis != id { r, changed := r.(remoteChassis := id), true; }
      case ChassisValue(v) =>
        if v != [] && k.remoteChassis.value != v { r, changed := r.(remoteChassis := Identifier(7, v)), true; }
      case Port(id) =>
        if k.remotePort != id { r, changed := r.(remotePort := id), true; }
      case PortValue(v) =>
        if v != [] && k.remotePort.value != v { r, changed := r.(remotePort := Identifier(7, v)), true; }
      case Interface(name) =>
        var f;
        f, changed := TakeText(k.remoteInterface, name, {p}, 3, now, w.alternatives);
        r := r.(remoteInterface := f);
      case OnVLAN(v) =>
        if v !in k.vlans { r, changed := r.(vlans := r.vlans + [v]), true; }
    }
  }

  method TakeLinkAll(edits: seq<LinkEdit>, k: LinkInfo, p: Protocol, now: Time, w: Setting) returns (r: LinkInfo, changed: bool)
    ensures (r, changed) == ApplyLinkAll(edits, k, p, now, w)
  {
    hide ApplyLink;
    r, changed := k, false;
    for i := 0 to |edits|
      invariant (r, changed) == ApplyLinkAll(edits[..i], k, p, now, w)
    {
      var more;
      r, more := TakeLinkEdit(edits[i], r, p, now, w);
      changed := changed || more;
      assert edits[..i + 1][..i] == edits[..i];
    }
    assert edits[..|edits|] == edits;
  }

  /** The host an address record names: its address and its name. */
  method TakeHost(k: DeviceInfo, rec: DNSRecord, now: Time, max: nat) returns (r: DeviceInfo, address: bool, name: bool)
    ensures r == HostInfo(k, rec, now, max)
    ensures var host := IsHost(rec);
            address == (host && Unmap(rec.address) !in k.addresses) && name == (host && HostNews(k, rec, now, max))
  {
    hide MergeText;
    r, address, name := k, false, false;
    if IsHost(rec) {
      address := Unmap(rec.address) !in k.addresses;
      r := r.(addresses := AppendUnique(r.addresses, Unmap(rec.address)));
      var f;
      f, name := TakeText(r.hostName, rec.name, {MDNS}, 2, now, max);
      r := r.(hostName := f);
    }
  }
}
