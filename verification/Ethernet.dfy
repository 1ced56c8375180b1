/** The userspace side: Ethernet and UDP decoding, and the routing of a captured frame to a
    protocol queue. */
module Ethernet {
  import opened Model
  import opened Bits
  import opened Bpf
  import opened DiscoveryFilter

  const CISCO_OUI: seq<Byte> := [0x00, 0x00, 0x0c]
  const CDP_PID := 0x2000

  datatype Issue = TooShort | TooManyVLANTags | InvalidHeader | Fragmented | WrongProtocol

  datatype Decoded<+T> = Clean(value: T) | Fatal(issue: Issue, off: nat, typ: nat)

  datatype LLC = NoLLC | LLC(dsap: Byte, ssap: Byte, control: Byte) | SNAP(oui: seq<Byte>, pid: nat)

  datatype Frame = Frame(destination: seq<Byte>, source: seq<Byte>, vlans: seq<nat>, etherType: nat, llc: LLC, payload: seq<Byte>)

  datatype UDPPacket = UDPPacket(sourceIP: seq<Byte>, destinationIP: seq<Byte>, sourcePort: nat, destinationPort: nat, payload: seq<Byte>)

  // ---------- Ethernet II and IEEE 802.3 LLC/SNAP ----------

  /** An 802.3 body of the given length field, starting at off. */
  function LLCFrame(b: seq<Byte>, off: nat, length: nat, vlans: seq<nat>): Decoded<Frame>
    requires 12 <= off <= |b|
  {
    var data := if length < |b| - off then b[off..off + length] else b[off..];
    if |data| < 3 then Fatal(TooShort, off, 0)
    else if data[0] == 0xaa && data[1] == 0xaa && data[2] == 0x03 then
      if |data| < 8 then Fatal(TooShort, off + 3, 0)
      else Clean(Frame(b[..6], b[6..12], vlans, Half(data, 6), SNAP(data[3..6], Half(data, 6)), data[8..]))
    else Clean(Frame(b[..6], b[6..12], vlans, 0, LLC(data[0], data[1], data[2]), data[3..]))
  }

  /** The frame behind the tags already read. */
  function FrameFrom(b: seq<Byte>, vlans: seq<nat>): Decoded<Frame>
    requires |vlans| <= MAX_VLAN_TAGS && |b| >= 14 + 4 * |vlans|
    decreases MAX_VLAN_TAGS - |vlans|
  {
    var off := 14 + 4 * |vlans|;
    var et := Half(b, off - 2);
    if IsTag(et) then
      if |vlans| == MAX_VLAN_TAGS then Fatal(TooManyVLANTags, off, et)
      else if off + 4 > |b| then Fatal(TooShort, off, et)
      else FrameFrom(b, vlans + [And(Half(b, off), 0x0fff)])
    else if et >= 0x600 then Clean(Frame(b[..6], b[6..12], vlans, et, NoLLC, b[off..]))
    else LLCFrame(b, off, et, vlans)
  }

  function FrameOf(b: seq<Byte>): Decoded<Frame> {
    if |b| < 14 then Fatal(TooShort, |b|, 0) else FrameFrom(b, [])
  }

  method DecodeEthernetFrame(b: seq<Byte>) returns (st: Decoded<Frame>)
    ensures st == FrameOf(b)
  {
    hide Half, And, LLCFrame;
    if |b| < 14 { return Fatal(TooShort, |b|, 0); }
    var dst := Frame(b[..6], b[6..12], [], 0, NoLLC, []);
    var et := Half(b, 12);
    var off := 14;
    while et == ETHERTYPE_VLAN || et == ETHERTYPE_QINQ
      invariant |dst.vlans| <= MAX_VLAN_TAGS && off == 14 + 4 * |dst.vlans| <= |b| && et == Half(b, off - 2)
      invariant dst == Frame(b[..6], b[6..12], dst.vlans, 0, NoLLC, [])
      invariant FrameOf(b) == FrameFrom(b, dst.vlans)
      decreases MAX_VLAN_TAGS - |dst.vlans|
    {
      if |dst.vlans| == MAX_VLAN_TAGS { return Fatal(TooManyVLANTags, off, et); }
      if off + 4 > |b| { return Fatal(TooShort, off, et); }
      dst := dst.(vlans := dst.vlans + [And(Half(b, off), 0x0fff)]);
      et := Half(b, off + 2);
      off := off + 4;
    }
    if et >= 0x0600 {
      dst := dst.(etherType := et, payload := b[off..]);
      return Clean(dst);
    }
    st := DecodeLLC(b, off, et, dst);
  }

  /** The 802.3 branch: the length field bounds the body, whose header is LLC or SNAP. */
  method DecodeLLC(b: seq<Byte>, off: nat, length: nat, frame: Frame) returns (st: Decoded<Frame>)
    requires 12 <= off <= |b| && frame == Frame(b[..6], b[6..12], frame.vlans, 0, NoLLC, [])
    ensures st == LLCFrame(b, off, length, frame.vlans)
  {
    hide Half;
    var dst := frame;
    var data := b[off..];
    if length < |data| {
      data := data[..length];
      assert data == b[off..off + length];
    }
    if |data| < 3 { return Fatal(TooShort, off, 0); }
    if data[0] == 0xaa && data[1] == 0xaa && data[2] == 0x03 {
      if |data| < 8 { return Fatal(TooShort, off + 3, 0); }
      dst := dst.(llc := SNAP(data[3..6], Half(data, 6)));
      dst := dst.(etherType := dst.llc.pid, payload := data[8..]);
      return Clean(dst);
    }
    dst := dst.(llc := LLC(data[0], data[1], data[2]), payload := data[3..]);
    return Clean(dst);
  }

  // ---------- UDP over IPv4 and IPv6 ----------

  /** The datagram in an IP payload. */
  function Datagram(src: seq<Byte>, dst: seq<Byte>, p: seq<Byte>): Decoded<UDPPacket> {
    if |p| < 8 then Fatal(TooShort, 0, UDP) else
    var n := Half(p, 4);
    if n < 8 || n > |p| then Fatal(InvalidHeader, 4, UDP)
    else Clean(UDPPacket(src, dst, Half(p, 0), Half(p, 2), p[8..n]))
  }

  function IPv4UDP(p: seq<Byte>): Decoded<UDPPacket> {
    if |p| < 20 || p[0] / 16 != 4 then Fatal(TooShort, 0, ETHERTYPE_IPV4) else
    var ihl := And(p[0], 0x0f) * 4;
    var total := Half(p, 2);
    if ihl < 20 || ihl > |p| then Fatal(InvalidHeader, 0, ETHERTYPE_IPV4)
    else if total < ihl || total > |p| then Fatal(InvalidHeader, 2, ETHERTYPE_IPV4)
    else if And(Half(p, 6), 0x3fff) != 0 then Fatal(Fragmented, 6, ETHERTYPE_IPV4)
    else if p[9] != UDP then Fatal(WrongProtocol, 9, p[9])
    else Datagram(p[12..16], p[16..20], p[ihl..total])
  }

  /** Length of an extension header; the additions wrap at 8 bits as the source's do. */
  function ExtensionLength(next: Byte, lengthByte: Byte): nat {
    var n: int := lengthByte;
    if next == 51 then (n + 2) % 256 * 4 else (n + 1) % 256 * 8
  }

  /** Offset of the UDP header behind at most 8 - ext further extension headers. */
  function SkipExtensions(p: seq<Byte>, total: nat, next: Byte, off: nat, ext: nat): (r: Decoded<nat>)
    requires total <= |p| && off <= total && ext <= 8
    ensures r.Clean? ==> off <= r.value <= total
    decreases 8 - ext
  {
    if next == UDP then Clean(off)
    else if ext == 8 then Fatal(InvalidHeader, off, next)
    else if next in {0, 43, 60, 51} then
      if off + 2 > total then Fatal(TooShort, off, next) else
      var n := ExtensionLength(next, p[off + 1]);
      if (next != 51 && n < 8) || off + n > total then Fatal(InvalidHeader, off, next)
      else SkipExtensions(p, total, p[off], off + n, ext + 1)
    else if next == 44 then Fatal(Fragmented, off, next)
    else Fatal(WrongProtocol, off, next)
  }

  function IPv6UDP(p: seq<Byte>): Decoded<UDPPacket> {
    if |p| < 40 || p[0] / 16 != 6 then Fatal(TooShort, 0, ETHERTYPE_IPV6) else
    var total := 40 + Half(p, 4);
    if total > |p| then Fatal(InvalidHeader, 4, ETHERTYPE_IPV6) else
    match SkipExtensions(p, total, p[6], 40, 0)
    case Fatal(i, o, t) => Fatal(i, o, t)
    case Clean(off) => Datagram(p[8..24], p[24..40], p[off..total])
  }

  function UDPOf(frame: Frame): Decoded<UDPPacket> {
    if frame.etherType == ETHERTYPE_IPV4 then IPv4UDP(frame.payload)
    else if frame.etherType == ETHERTYPE_IPV6 then IPv6UDP(frame.payload)
    else Fatal(WrongProtocol, 0, frame.etherType)
  }

  // ---------- what a datagram is ----------

  /** A UDP header stands at at, its length within what ends at end. */
  predicate DatagramAt(p: seq<Byte>, at: nat, end: nat, u: UDPPacket) {
    && at + 8 <= end <= |p|
    && u.sourcePort == Half(p, at) && u.destinationPort == Half(p, at + 2)
    && 8 <= Half(p, at + 4) <= end - at && u.payload == p[at + 8..at + Half(p, at + 4)]
  }

  /** IPv4: 20 to 60 bytes of header, the datagram behind them, the whole in one piece. */
  predicate IPv4Carries(p: seq<Byte>, u: UDPPacket) {
    && |p| >= 20 && p[0] / 16 == 4 && p[9] == UDP && Half(p, 6) % 0x4000 == 0
    && 20 <= p[0] % 16 * 4 <= Half(p, 2) && u.sourceIP == p[12..16] && u.destinationIP == p[16..20]
    && DatagramAt(p, p[0] % 16 * 4, Half(p, 2), u)
  }

  /** Headers by type and position, each naming the next and saying where it stands. */
  predicate Passes(p: seq<Byte>, total: nat, h: (Byte, nat), n: (Byte, nat))
    requires total <= |p|
  {
    h.0 in {0, 43, 60, 51} && h.1 + 2 <= total && n.0 == p[h.1] && n.1 == h.1 + ExtensionLength(h.0, p[h.1 + 1])
    && (h.0 == 51 || n.1 >= h.1 + 8)
  }

  predicate Chained(p: seq<Byte>, total: nat, hs: seq<(Byte, nat)>, i: nat)
    requires total <= |p| && i < |hs|
  {
    hs[i].1 <= total && (i + 1 < |hs| ==> Passes(p, total, hs[i], hs[i + 1]))
  }

  /** A chain of headers ending at a UDP header. */
  ghost predicate Headers(p: seq<Byte>, total: nat, hs: seq<(Byte, nat)>)
    requires total <= |p|
  {
    hs != [] && hs[|hs| - 1].0 == UDP && forall i | 0 <= i < |hs| :: Chained(p, total, hs, i)
  }

  /** IPv6: at most eight extension headers, then the datagram. */
  ghost predicate IPv6Carries(p: seq<Byte>, u: UDPPacket) {
    && |p| >= 40 && p[0] / 16 == 6 && 40 + Half(p, 4) <= |p| && u.sourceIP == p[8..24] && u.destinationIP == p[24..40]
    && exists hs: seq<(Byte, nat)> :: Headers(p, 40 + Half(p, 4), hs) && |hs| <= 9 && hs[0] == (p[6], 40) && DatagramAt(p, hs[|hs| - 1].1, 40 + Half(p, 4), u)
  }

  ghost predicate CarriesUDP(frame: Frame, u: UDPPacket) {
    (frame.etherType == ETHERTYPE_IPV4 && IPv4Carries(frame.payload, u)) || (frame.etherType == ETHERTYPE_IPV6 && IPv6Carries(frame.payload, u))
  }

  lemma SliceOfSlice(p: seq<Byte>, at: nat, end: nat, i: nat, j: nat)
    requires at <= end <= |p| && i <= j <= end - at
    ensures p[at..end][i..j] == p[at + i..at + j]
  {
    var a, b := p[at..end][i..j], p[at + i..at + j];
    assert |a| == |b| && forall k | 0 <= k < |a| :: a[k] == p[at + i + k] == b[k];
  }

  lemma DatagramStands(src: seq<Byte>, dst: seq<Byte>, p: seq<Byte>, at: nat, end: nat, u: UDPPacket)
    requires at <= end <= |p|
    ensures Datagram(src, dst, p[at..end]) == Clean(u) <==> u.sourceIP == src && u.destinationIP == dst && DatagramAt(p, at, end, u)
  {
    var d := p[at..end];
    if |d| >= 8 {
      assert Half(d, 0) == Half(p, at) && Half(d, 2) == Half(p, at + 2) && Half(d, 4) == Half(p, at + 4);
      var n := Half(d, 4);
      if 8 <= n <= |d| { SliceOfSlice(p, at, end, 8, n); }
    }
  }

  /** The walk finds the end of a chain of headers, and only that. */
  lemma {:induction false} SkipFinds(p: seq<Byte>, total: nat, next: Byte, off: nat, ext: nat) returns (hs: seq<(Byte, nat)>)
    requires total <= |p| && off <= total && ext <= 8 && SkipExtensions(p, total, next, off, ext).Clean?
    ensures Headers(p, total, hs) && |hs| <= 9 - ext && hs[0] == (next, off)
    ensures SkipExtensions(p, total, next, off, ext) == Clean(hs[|hs| - 1].1)
    decreases 8 - ext
  {
    if next == UDP {
      hs := [(next, off)];
    } else {
      var n := off + ExtensionLength(next, p[off + 1]);
      var rest := SkipFinds(p, total, p[off], n, ext + 1);
      hs := [(next, off)] + rest;
      assert Passes(p, total, (next, off), (p[off], n));
      forall i | 0 <= i < |hs| ensures Chained(p, total, hs, i) {
        if i > 0 { assert Chained(p, total, rest, i - 1); }
      }
    }
  }

  lemma {:induction false} ChainSkips(p: seq<Byte>, total: nat, hs: seq<(Byte, nat)>, ext: nat)
    requires total <= |p| && ext <= 8 && Headers(p, total, hs) && |hs| <= 9 - ext
    ensures hs[0].1 <= total && SkipExtensions(p, total, hs[0].0, hs[0].1, ext) == Clean(hs[|hs| - 1].1)
    decreases |hs|
  {
    assert Chained(p, total, hs, 0);
    if |hs| > 1 {
      var rest := hs[1..];
      forall i | 0 <= i < |rest| ensures Chained(p, total, rest, i) { assert Chained(p, total, hs, i + 1); }
      assert rest[0].1 <= total by { assert Chained(p, total, rest, 0); }
      ChainSkips(p, total, rest, ext + 1);
    }
  }

  /** The decoder finds a datagram exactly where one is. */
  lemma UDPStands(frame: Frame, u: UDPPacket)
    ensures UDPOf(frame) == Clean(u) <==> CarriesUDP(frame, u)
  {
    hide Half, And, Datagram, DatagramAt, SkipExtensions;
    var p := frame.payload;
    if frame.etherType == ETHERTYPE_IPV4 && |p| >= 20 {
      Masks(p[0], Half(p, 6));
      var ihl, total := p[0] % 16 * 4, Half(p, 2);
      if ihl <= total <= |p| { DatagramStands(p[12..16], p[16..20], p, ihl, total, u); }
      else { TooFar(p, ihl, total, u); }
    } else if frame.etherType == ETHERTYPE_IPV6 && |p| >= 40 && 40 + Half(p, 4) <= |p| {
      V6Stands(p, 40 + Half(p, 4), u);
    }
  }

  lemma TooFar(p: seq<Byte>, at: nat, end: nat, u: UDPPacket)
    requires !(at <= end <= |p|)
    ensures !DatagramAt(p, at, end, u)
  {
  }

  lemma Masks(a: Byte, b: nat)
    ensures And(a, 0x0f) == a % 16 && And(b, 0x3fff) == b % 0x4000
  {
    AndLowMask(a, 4);
    AndLowMask(b, 14);
    assert Pow2(4) == 16;
    assert Pow2(10) == 1024;
    assert Pow2(14) == 0x4000;
  }

  lemma V6Stands(p: seq<Byte>, total: nat, u: UDPPacket)
    requires |p| >= 40 && total == 40 + Half(p, 4) <= |p|
    ensures var skipped := SkipExtensions(p, total, p[6], 40, 0);
            (skipped.Clean? && Datagram(p[8..24], p[24..40], p[skipped.value..total]) == Clean(u))
            <==> u.sourceIP == p[8..24] && u.destinationIP == p[24..40]
                 && exists hs: seq<(Byte, nat)> :: Headers(p, total, hs) && |hs| <= 9 && hs[0] == (p[6], 40) && DatagramAt(p, hs[|hs| - 1].1, total, u)
  {
    hide Half, Datagram, DatagramAt, SkipExtensions, Chained;
    var skipped := SkipExtensions(p, total, p[6], 40, 0);
    if skipped.Clean? {
      var hs := SkipFinds(p, total, p[6], 40, 0);
      DatagramStands(p[8..24], p[24..40], p, skipped.value, total, u);
    }
    forall hs: seq<(Byte, nat)> | Headers(p, total, hs) && |hs| <= 9 && hs != [] && hs[0] == (p[6], 40) ensures skipped == Clean(hs[|hs| - 1].1) {
      ChainSkips(p, total, hs, 0);
    }
  }

  /** The bounded walk over IPv6 extension headers. */
  method WalkExtensions(p: seq<Byte>, total: nat) returns (st: Decoded<nat>)
    requires 40 <= total <= |p|
    ensures st == SkipExtensions(p, total, p[6], 40, 0)
  {
    hide SkipExtensions, ExtensionLength;
    var next: Byte, off: nat, ext: nat := p[6], 40, 0;
    while next != UDP
      invariant off <= total <= |p| && ext <= 8
      invariant SkipExtensions(p, total, p[6], 40, 0) == SkipExtensions(p, total, next, off, ext)
      decreases 8 - ext
    {
      SkipStops(p, total, next, off, ext);
      if ext == 8 { return Fatal(InvalidHeader, off, next); }
      if next == 0 || next == 43 || next == 60 {
        if off + 2 > total { return Fatal(TooShort, off, next); }
        var lengthByte: int := p[off + 1];
        var n := (lengthByte + 1) % 256 * 8;
        SkipOne(p, total, next, off, ext, n);
        if n < 8 || off + n > total { return Fatal(InvalidHeader, off, next); }
        next, off := p[off], off + n;
      } else if next == 44 {
        return Fatal(Fragmented, off, next);
      } else if next == 51 {
        if off + 2 > total { return Fatal(TooShort, off, next); }
        var lengthByte: int := p[off + 1];
        var n := (lengthByte + 2) % 256 * 4;
        SkipOne(p, total, next, off, ext, n);
        if off + n > total { return Fatal(InvalidHeader, off, next); }
        next, off := p[off], off + n;
      } else {
        return Fatal(WrongProtocol, off, next);
      }
      ext := ext + 1;
    }
    SkipStops(p, total, next, off, ext);
    return Clean(off);
  }

  lemma SkipStops(p: seq<Byte>, total: nat, next: Byte, off: nat, ext: nat)
    requires total <= |p| && off <= total && ext <= 8
    ensures next == UDP ==> SkipExtensions(p, total, next, off, ext) == Clean(off)
    ensures next != UDP && ext == 8 ==> SkipExtensions(p, total, next, off, ext) == Fatal(InvalidHeader, off, next)
    ensures next in {0, 43, 60, 51} && ext < 8 && off + 2 > total ==> SkipExtensions(p, total, next, off, ext) == Fatal(TooShort, off, next)
    ensures next == 44 && ext < 8 ==> SkipExtensions(p, total, next, off, ext) == Fatal(Fragmented, off, next)
    ensures next !in {0, 43, 60, 51, 44, UDP} && ext < 8 ==> SkipExtensions(p, total, next, off, ext) == Fatal(WrongProtocol, off, next)
  {
  }

  lemma SkipOne(p: seq<Byte>, total: nat, next: Byte, off: nat, ext: nat, n: nat)
    requires total <= |p| && off + 2 <= total && ext < 8 && next in {0, 43, 60, 51}
    requires var lengthByte: int := p[off + 1]; n == if next == 51 then (lengthByte + 2) % 256 * 4 else (lengthByte + 1) % 256 * 8
    ensures SkipExtensions(p, total, next, off, ext) ==
      if (next != 51 && n < 8) || off + n > total then Fatal(InvalidHeader, off, next) else SkipExtensions(p, total, p[off], off + n, ext + 1)
  {
  }

  lemma AllStand(frame: Frame)
    ensures forall u :: UDPOf(frame) == Clean(u) <==> CarriesUDP(frame, u)
  {
    hide UDPOf, CarriesUDP;
    forall u ensures UDPOf(frame) == Clean(u) <==> CarriesUDP(frame, u) { UDPStands(frame, u); }
  }

  method DecodeUDP(frame: Frame) returns (st: Decoded<UDPPacket>)
    ensures st == UDPOf(frame)
    ensures forall u :: st == Clean(u) <==> CarriesUDP(frame, u)
  {
    hide Half, And, CarriesUDP, SkipExtensions;
    AllStand(frame);
    var src: seq<Byte>, target: seq<Byte>, payload: seq<Byte>;
    var p := frame.payload;
    if frame.etherType == ETHERTYPE_IPV4 {
      if |p| < 20 || p[0] / 16 != 4 { return Fatal(TooShort, 0, ETHERTYPE_IPV4); }
      var ihl := And(p[0], 0x0f) * 4;
      if ihl < 20 || ihl > |p| { return Fatal(InvalidHeader, 0, ETHERTYPE_IPV4); }
      var total := Half(p, 2);
      if total < ihl || total > |p| { return Fatal(InvalidHeader, 2, ETHERTYPE_IPV4); }
      if And(Half(p, 6), 0x3fff) != 0 { return Fatal(Fragmented, 6, ETHERTYPE_IPV4); }
      if p[9] != UDP { return Fatal(WrongProtocol, 9, p[9]); }
      src, target, payload := p[12..16], p[16..20], p[ihl..total];
    } else if frame.etherType == ETHERTYPE_IPV6 {
      if |p| < 40 || p[0] / 16 != 6 { return Fatal(TooShort, 0, ETHERTYPE_IPV6); }
      var total := 40 + Half(p, 4);
      if total > |p| { return Fatal(InvalidHeader, 4, ETHERTYPE_IPV6); }
      src, target := p[8..24], p[24..40];
      var skipped := WalkExtensions(p, total);
      if skipped.Fatal? { return Fatal(skipped.issue, skipped.off, skipped.typ); }
      payload := p[skipped.value..total];
    } else {
      return Fatal(WrongProtocol, 0, frame.etherType);
    }
    if |payload| < 8 { return Fatal(TooShort, 0, UDP); }
    var udpLen := Half(payload, 4);
    if udpLen < 8 || udpLen > |payload| { return Fatal(InvalidHeader, 4, UDP); }
    return Clean(UDPPacket(src, target, Half(payload, 0), Half(payload, 2), payload[8..udpLen]));
  }

  // ---------- routing ----------

  predicate PortOf(u: UDPPacket, port: nat) { u.sourcePort == port || u.destinationPort == port }

  /** The queue a captured frame goes to and the payload it is queued with. */
  function RouteFrame(frame: Frame, protocols: ProtocolSet): Option<(Protocol, seq<Byte>)> {
    if frame.etherType == ETHERTYPE_LLDP && LLDP in protocols then Some((LLDP, frame.payload))
    else if frame.llc == SNAP(CISCO_OUI, CDP_PID) && CDP in protocols then Some((CDP, frame.payload))
    else if frame.etherType != ETHERTYPE_IPV4 && frame.etherType != ETHERTYPE_IPV6 then None
    else match UDPOf(frame)
      case Fatal(_, _, _) => None
      case Clean(u) =>
        if PortOf(u, MDNS_PORT) && MDNS in protocols then Some((MDNS, u.payload))
        else if PortOf(u, MNDP_PORT) && MNDP in protocols then Some((MNDP, u.payload))
        else None
  }

  function Route(pkt: seq<Byte>, protocols: ProtocolSet): Option<(Protocol, seq<Byte>)> {
    match FrameOf(pkt)
    case Fatal(_, _, _) => None
    case Clean(frame) => RouteFrame(frame, protocols)
  }
}
