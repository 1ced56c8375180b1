/** Entities of the fusion store. */
module FusionTypes {
  import opened Model

  /** Nanoseconds; 0 is the zero time, and every observation is later. */
  type Time = nat

  type MAC = m: seq<Byte> | |m| == 6 witness [0, 0, 0, 0, 0, 0]

  predicate IsUnicast(m: MAC) { m != [0, 0, 0, 0, 0, 0] && m[0] % 2 == 0 }

  /** Addresses up to what the store asks of them: validity, equality, unmapping and zones. */
  datatype Addr = NoAddr | V4(bits: nat) | Mapped(v4: nat) | V6(bits: nat, zone: seq<Byte>)

  function Unmap(a: Addr): Addr { if a.Mapped? then V4(a.v4) else a }

  /** fe80::/10: the leading ten of 128 bits. */
  predicate IsLinkLocal(a: Addr) { a.V6? && a.bits / 0x40_0000_0000_0000_0000_0000_0000_0000 == 0x3fa }

  /** A link-local address is good on one interface only, which an announcement does not name. */
  function Zoned(a: Addr, interfaceName: seq<Byte>): Addr {
    if IsLinkLocal(a) && a.zone == [] then a.(zone := interfaceName) else a
  }

  datatype DeviceKey = MACKey(mac: MAC) | IPKey(ip: Addr, iface: int)

  datatype LinkKey = LinkKey(iface: int, sourceMAC: MAC, device: DeviceKey)

  datatype LinkKind = PhysicalAdjacency | SegmentPresence

  datatype EventKind = Added | Changed | Expired | Evicted

  datatype Field = FieldIdentity | FieldAddresses | FieldNames | FieldModel | FieldPlatform | FieldSoftware
    | FieldCapabilities | FieldServices | FieldLink | FieldClassification | FieldVendor | FieldUptime

  datatype Event = Event(kind: EventKind, changed: set<Field>, device: DeviceKey, link: LinkKey)

  datatype TextValue = TextValue(value: seq<Byte>, protocols: ProtocolSet, confidence: nat, firstSeen: Time, lastSeen: Time)

  datatype TextField = TextField(values: seq<TextValue>, canonical: nat)

  const NO_TEXT := TextField([], 0)

  datatype Uptime = Uptime(seconds: nat, observedAt: Time, protocols: ProtocolSet, valid: bool)

  /** A discovered device, without its key: keys are kept by the slab. */
  datatype DeviceInfo = DeviceInfo(
    observedMACs: seq<MAC>, claimedMACs: seq<MAC>, addresses: seq<Addr>,
    systemName: TextField, hostName: TextField, protocolDeviceID: TextField, vendor: TextField,
    model: TextField, platform: TextField, softwareVersion: TextField,
    uptime: Uptime, capabilities: set<nat>, protocols: ProtocolSet,
    matched: Option<(seq<Byte>, seq<Byte>)>,
    firstSeen: Time, lastSeen: Time)

  datatype Identifier = Identifier(subtype: nat, value: seq<Byte>)

  /** A discovered link, without its key, with the deadline of each protocol. */
  datatype LinkInfo = LinkInfo(
    kind: LinkKind, localInterface: seq<Byte>, device: DeviceKey, observedSource: MAC,
    remoteChassis: Identifier, remotePort: Identifier, remoteInterface: TextField,
    vlans: seq<nat>, protocols: ProtocolSet, ttl: int, expiresAt: Time, firstSeen: Time, lastSeen: Time,
    expires: Deadlines)

  /** One deadline a protocol; 0 when the protocol does not support the link. */
  datatype Deadlines = Deadlines(lldp: Time, cdp: Time, mndp: Time, mdns: Time) {
    function Get(p: Protocol): Time {
      match p
      case LLDP => lldp
      case CDP => cdp
      case MNDP => mndp
      case MDNS => mdns
    }

    function Set(p: Protocol, t: Time): (r: Deadlines)
      ensures forall q :: r.Get(q) == if q == p then t else Get(q)
    {
      match p
      case LLDP => this.(lldp := t)
      case CDP => this.(cdp := t)
      case MNDP => this.(mndp := t)
      case MDNS => this.(mdns := t)
    }
  }

  const NO_DEADLINES := Deadlines(0, 0, 0, 0)

  /** hash stands for the pair of hashes over the name and record data. */
  datatype DNSRecord = DNSRecord(name: seq<Byte>, typ: nat, class_: nat, cacheFlush: bool, ttl: nat, address: Addr, hash: (nat, nat))

  datatype DNSKey = DNSKey(device: int, hash: (nat, nat), typ: nat, class_: nat)

  /** Where and when an observation was made. */
  datatype Meta = Meta(protocol: Protocol, interfaceName: seq<Byte>, iface: int, timestamp: Time, sourceMAC: MAC, sourceIP: Addr, vlans: seq<nat>)

  datatype Limits = Limits(devices: nat, links: nat, dns: nat, alternatives: nat)

  // ---------- deadlines ----------

  function Earlier(a: Time, b: Time): Time {
    if b != 0 && (a == 0 || b < a) then b else a
  }

  function Later(a: Time, b: Time): Time { if b > a then b else a }

  /** The earliest deadline that is set, 0 if none is. */
  function EarliestExpiry(e: Deadlines): (t: Time)
    ensures t == 0 <==> forall p :: e.Get(p) == 0
    ensures t != 0 ==> (exists p :: e.Get(p) == t) && forall p :: e.Get(p) == 0 || t <= e.Get(p)
  {
    var t := Earlier(Earlier(Earlier(Earlier(0, e.Get(LLDP)), e.Get(CDP)), e.Get(MNDP)), e.Get(MDNS));
    assert t == e.Get(LLDP) || t == e.Get(CDP) || t == e.Get(MNDP) || t == e.Get(MDNS);
    t
  }

  function LatestExpiry(e: Deadlines): (t: Time)
    ensures (exists p :: e.Get(p) == t) && forall p :: e.Get(p) <= t
  {
    var t := Later(Later(Later(e.Get(LLDP), e.Get(CDP)), e.Get(MNDP)), e.Get(MDNS));
    assert t == e.Get(LLDP) || t == e.Get(CDP) || t == e.Get(MNDP) || t == e.Get(MDNS);
    t
  }
}
