/** What the router answers, in terms of what a packet carries. */
module Routing {
  import opened Model
  import opened Bits
  import opened Bpf
  import opened DiscoveryFilter
  import opened Ethernet
  import opened FilterCoverage

  // ---------- frames ----------

  /** n VLAN tags of the packet, each a type field of 0x8100 or 0x88a8 with its identifier behind it. */
  predicate Tagged(b: seq<Byte>, vlans: seq<nat>) {
    && |b| >= 14 + 4 * |vlans|
    && forall i | 0 <= i < |vlans| :: Half(b, 12 + 4 * i) in {0x8100, 0x88a8} && vlans[i] == Half(b, 14 + 4 * i) % 0x1000
  }

  /** An LLC or SNAP header at at, its length within what ends at end. */
  predicate LLCAt(b: seq<Byte>, at: nat, end: nat, f: Frame)
    requires at <= end <= |b|
  {
    && end - at >= 3
    && if b[at] == 0xaa && b[at + 1] == 0xaa && b[at + 2] == 0x03 then
         end - at >= 8 && f.llc == SNAP(b[at + 3..at + 6], Half(b, at + 6)) && f.etherType == Half(b, at + 6) && f.payload == b[at + 8..end]
       else f.llc == LLC(b[at], b[at + 1], b[at + 2]) && f.etherType == 0 && f.payload == b[at + 3..end]
  }

  /** The body behind the tags: typed from 0x600 on, otherwise of the length given. */
  predicate BodyAt(b: seq<Byte>, f: Frame)
    requires |b| >= 14 + 4 * |f.vlans|
  {
    var at := 14 + 4 * |f.vlans|;
    var t := Half(b, at - 2);
    if t >= 0x600 then f.llc == NoLLC && f.etherType == t && f.payload == b[at..]
    else LLCAt(b, at, if at + t < |b| then at + t else |b|, f)
  }

  /** The frame a packet is: addresses, at most three tags, and the body behind them. */
  predicate FrameAt(b: seq<Byte>, f: Frame) {
    && |b| >= 14 && f.destination == b[..6] && f.source == b[6..12]
    && |f.vlans| <= 3 && Tagged(b, f.vlans) && Half(b, 12 + 4 * |f.vlans|) !in {0x8100, 0x88a8} && BodyAt(b, f)
  }

  lemma {:induction false} FrameStandsFrom(b: seq<Byte>, vlans: seq<nat>, f: Frame)
    requires |vlans| <= MAX_VLAN_TAGS && Tagged(b, vlans)
    ensures FrameFrom(b, vlans) == Clean(f) <==> FrameAt(b, f) && vlans <= f.vlans
    decreases MAX_VLAN_TAGS - |vlans|
  {
    hide LLCFrame, Half, And, BodyAt, FrameAt;
    var off := 14 + 4 * |vlans|;
    if !IsTag(Half(b, off - 2)) {
      BodyStands(b, vlans, f);
      BodyBehind(b, vlans, f);
    } else if |vlans| < MAX_VLAN_TAGS && off + 4 <= |b| {
      TagMask(Half(b, off));
      FrameStandsFrom(b, vlans + [And(Half(b, off), 0x0fff)], f);
      TagBehind(b, vlans, f);
    } else {
      NoRoom(b, vlans, f);
    }
  }

  lemma BodyBehind(b: seq<Byte>, vlans: seq<nat>, f: Frame)
    requires |vlans| <= MAX_VLAN_TAGS && Tagged(b, vlans) && !IsTag(Half(b, 12 + 4 * |vlans|))
    ensures FrameAt(b, f) && vlans <= f.vlans
            <==> f.destination == b[..6] && f.source == b[6..12] && f.vlans == vlans && BodyAt(b, f.(vlans := vlans))
  {
    hide BodyAt, Half;
    if FrameAt(b, f) && vlans <= f.vlans {
      TagTells(b, vlans, f);
      assert f.vlans == vlans && f.(vlans := vlans) == f;
    }
    if f.vlans == vlans { assert f.(vlans := vlans) == f; }
  }

  lemma TagBehind(b: seq<Byte>, vlans: seq<nat>, f: Frame)
    requires |vlans| < MAX_VLAN_TAGS && Tagged(b, vlans) && IsTag(Half(b, 12 + 4 * |vlans|)) && 18 + 4 * |vlans| <= |b|
    ensures FrameAt(b, f) && vlans <= f.vlans <==> FrameAt(b, f) && vlans + [Half(b, 14 + 4 * |vlans|) % 0x1000] <= f.vlans
  {
    hide BodyAt, Half;
    var more := vlans + [Half(b, 14 + 4 * |vlans|) % 0x1000];
    if FrameAt(b, f) && vlans <= f.vlans {
      TagTells(b, vlans, f);
      assert f.vlans[|vlans|] == more[|vlans|] && f.vlans[..|vlans| + 1] == more;
    }
    if more <= f.vlans { assert vlans == more[..|vlans|] <= f.vlans; }
  }

  lemma NoRoom(b: seq<Byte>, vlans: seq<nat>, f: Frame)
    requires Tagged(b, vlans) && IsTag(Half(b, 12 + 4 * |vlans|)) && (|vlans| >= MAX_VLAN_TAGS || 18 + 4 * |vlans| > |b|)
    ensures !(FrameAt(b, f) && vlans <= f.vlans)
  {
    hide BodyAt, Half;
    if FrameAt(b, f) && vlans <= f.vlans { TagTells(b, vlans, f); }
  }

  /** A tag stands behind the tags read so far exactly if the frame has more. */
  lemma TagTells(b: seq<Byte>, vlans: seq<nat>, f: Frame)
    requires FrameAt(b, f) && vlans <= f.vlans && 14 + 4 * |vlans| <= |b|
    ensures IsTag(Half(b, 12 + 4 * |vlans|)) <==> |f.vlans| > |vlans|
  {
    hide LLCFrame, Half, And, BodyAt;
  }

  lemma TagMask(t: nat)
    ensures And(t, 0x0fff) == t % 0x1000
  {
    AndLowMask(t, 12);
    assert Pow2(12) == 0x1000 by { assert Pow2(6) == 64; }
  }

  lemma BodyStands(b: seq<Byte>, vlans: seq<nat>, f: Frame)
    requires |vlans| <= MAX_VLAN_TAGS && |b| >= 14 + 4 * |vlans| && !IsTag(Half(b, 12 + 4 * |vlans|))
    ensures FrameFrom(b, vlans) == Clean(f) <==> f.destination == b[..6] && f.source == b[6..12] && f.vlans == vlans && BodyAt(b, f.(vlans := vlans))
  {
    hide Half, LLCFrame, LLCAt;
    var off := 14 + 4 * |vlans|;
    var t := Half(b, off - 2);
    if t >= 0x600 {
      assert FrameFrom(b, vlans) == Clean(Frame(b[..6], b[6..12], vlans, t, NoLLC, b[off..]));
    } else {
      assert FrameFrom(b, vlans) == LLCFrame(b, off, t, vlans);
      LLCStands(b, off, t, if off + t < |b| then off + t else |b|, vlans, f);
    }
  }

  lemma LLCStands(b: seq<Byte>, off: nat, t: nat, end: nat, vlans: seq<nat>, f: Frame)
    requires 12 <= off <= |b| && end == if off + t < |b| then off + t else |b|
    ensures LLCFrame(b, off, t, vlans) == Clean(f) <==> f.destination == b[..6] && f.source == b[6..12] && f.vlans == vlans && LLCAt(b, off, end, f.(vlans := vlans))
  {
    var data := b[off..end];
    assert data == if t < |b| - off then b[off..off + t] else b[off..];
    if |data| >= 3 {
      assert data[0] == b[off] && data[1] == b[off + 1] && data[2] == b[off + 2];
      SliceOfSlice(b, off, end, 3, |data|);
      if |data| >= 8 {
        SliceOfSlice(b, off, end, 3, 6);
        SliceOfSlice(b, off, end, 8, |data|);
        assert data[8..|data|] == data[8..] && data[6] == b[off + 6] && data[7] == b[off + 7];
        assert Half(data, 6) == Half(b, off + 6);
      }
      assert data[3..|data|] == data[3..];
    }
  }

  /** The decoder finds a frame exactly where one is. */
  lemma FrameStands(b: seq<Byte>, f: Frame)
    ensures FrameOf(b) == Clean(f) <==> FrameAt(b, f)
  {
    hide BodyAt;
    if |b| >= 14 { FrameStandsFrom(b, [], f); }
  }

  // ---------- what a packet is wanted as ----------

  predicate OnPort(u: UDPPacket, port: nat) { u.sourcePort == port || u.destinationPort == port }

  /** The packet carries protocol p, in a frame or datagram whose payload is q. */
  ghost predicate CarriesAs(b: seq<Byte>, p: Protocol, q: seq<Byte>) {
    exists f :: FrameAt(b, f) && match p
      case LLDP => f.etherType == 0x88cc && q == f.payload
      case CDP => f.llc == SNAP([0x00, 0x00, 0x0c], 0x2000) && q == f.payload
      case MNDP => exists u :: CarriesUDP(f, u) && OnPort(u, 5678) && q == u.payload
      case MDNS => exists u :: CarriesUDP(f, u) && OnPort(u, 5353) && q == u.payload
  }

  lemma FrameIsOne(b: seq<Byte>, f: Frame, g: Frame)
    requires FrameAt(b, f) && FrameAt(b, g)
    ensures f == g
  {
    FrameStands(b, f);
    FrameStands(b, g);
  }

  lemma UDPTypes(f: Frame)
    ensures UDPOf(f).Clean? ==> f.etherType == ETHERTYPE_IPV4 || f.etherType == ETHERTYPE_IPV6
  {
  }

  lemma SNAPType(b: seq<Byte>, f: Frame)
    requires FrameAt(b, f) && f.llc.SNAP?
    ensures f.etherType == f.llc.pid
  {
    hide Half, Tagged;
  }

  /** The frame's payload, or its datagram's, as that of a protocol. */
  predicate Offers(f: Frame, p: Protocol, q: seq<Byte>) {
    match p
    case LLDP => f.etherType == 0x88cc && q == f.payload
    case CDP => f.llc == SNAP([0x00, 0x00, 0x0c], 0x2000) && q == f.payload
    case MDNS => UDPOf(f).Clean? && OnPort(UDPOf(f).value, 5353) && q == UDPOf(f).value.payload
    case MNDP => UDPOf(f).Clean? && OnPort(UDPOf(f).value, 5678) && q == UDPOf(f).value.payload
  }

  /** What a packet carries is what its frame offers. */
  lemma CarriedBy(b: seq<Byte>, f: Frame, p: Protocol, q: seq<Byte>)
    requires FrameOf(b) == Clean(f)
    ensures CarriesAs(b, p, q) <==> Offers(f, p, q)
  {
    hide FrameAt, CarriesUDP, UDPOf;
    FrameStands(b, f);
    forall g | FrameAt(b, g) ensures g == f { FrameIsOne(b, f, g); }
    AllStand(f);
  }

  lemma CarriesNothing(b: seq<Byte>, p: Protocol, q: seq<Byte>)
    requires FrameOf(b).Fatal?
    ensures !CarriesAs(b, p, q)
  {
    hide FrameAt, CarriesUDP;
    forall f ensures !FrameAt(b, f) { FrameStands(b, f); }
  }

  // ---------- the answers ----------

  lemma FrameAnswers(f: Frame, protocols: ProtocolSet, p: Protocol, q: seq<Byte>)
    requires f.llc.SNAP? ==> f.etherType == f.llc.pid
    ensures RouteFrame(f, protocols) == Some((p, q)) <==>
              p in protocols && Offers(f, p, q) && (p == MNDP ==> MDNS !in protocols || forall r :: !Offers(f, MDNS, r))
  {
    hide UDPOf;
    UDPTypes(f);
    if UDPOf(f).Clean? && OnPort(UDPOf(f).value, 5353) { assert Offers(f, MDNS, UDPOf(f).value.payload); }
  }

  lemma FrameUnanswered(f: Frame, protocols: ProtocolSet)
    ensures RouteFrame(f, protocols).None? ==> forall p, q | p in protocols :: !Offers(f, p, q)
  {
    hide UDPOf;
    UDPTypes(f);
  }

  /** The router queues a packet as an enabled protocol it carries, with that payload; as mDNS before
      MNDP where a datagram is both; and not at all exactly where it carries no enabled protocol. */
  lemma RouterAnswers(b: seq<Byte>, protocols: ProtocolSet)
    ensures forall p, q :: Route(b, protocols) == Some((p, q)) <==>
              p in protocols && CarriesAs(b, p, q) && (p == MNDP ==> MDNS !in protocols || forall r :: !CarriesAs(b, MDNS, r))
    ensures Route(b, protocols).None? <==> forall p, q | p in protocols :: !CarriesAs(b, p, q)
  {
    hide UDPOf, CarriesAs, FrameOf, RouteFrame, Offers, FrameAt;
    match FrameOf(b) {
      case Fatal(_, _, _) => forall p, q ensures !CarriesAs(b, p, q) { CarriesNothing(b, p, q); }
      case Clean(f) =>
        forall p, q ensures CarriesAs(b, p, q) <==> Offers(f, p, q) { CarriedBy(b, f, p, q); }
        FrameStands(b, f);
        if f.llc.SNAP? { SNAPType(b, f); }
        forall p, q { FrameAnswers(f, protocols, p, q); }
        FrameUnanswered(f, protocols);
        if Route(b, protocols).Some? {
          var x := Route(b, protocols).value;
          assert Route(b, protocols) == Some((x.0, x.1));
        }
    }
  }

  // ---------- the filter against the router, from its side ----------

  predicate Wanted(u: UDPPacket, protocols: ProtocolSet) {
    (MDNS in protocols && OnPort(u, 5353)) || (MNDP in protocols && OnPort(u, 5678))
  }

  lemma PortsStand(b: seq<Byte>, off: nat, from: nat, to: nat, src: seq<Byte>, dst: seq<Byte>, protocols: ProtocolSet)
    requires off <= |b| && from <= to <= |b| - off && Datagram(src, dst, b[off..][from..to]).Clean?
    ensures PortsMatch(b, off + from, protocols) <==> Wanted(Datagram(src, dst, b[off..][from..to]).value, protocols)
  {
    var q := b[off..][from..to];
    assert q[0] == b[off + from] && q[1] == b[off + from + 1] && q[2] == b[off + from + 2] && q[3] == b[off + from + 3];
    assert Half(q, 0) == Half(b, off + from) && Half(q, 2) == Half(b, off + from + 2);
  }

  lemma IPv4Wanted(b: seq<Byte>, off: nat, protocols: ProtocolSet)
    requires off <= |b| && IPv4UDP(b[off..]).Clean?
    ensures IPv4Match(b, off, protocols) <==> Wanted(IPv4UDP(b[off..]).value, protocols)
  {
    hide Datagram, PortsMatch, And, Half, Wanted;
    var p := b[off..];
    PayloadField(b, off, 6);
    PortsStand(b, off, And(p[0], 15) * 4, Half(p, 2), p[12..16], p[16..20], protocols);
  }

  lemma IPv6Wanted(b: seq<Byte>, off: nat, protocols: ProtocolSet)
    requires off <= |b| && IPv6UDP(b[off..]).Clean? && b[off..][6] == UDP
    ensures IPv6Match(b, off, protocols) <==> Wanted(IPv6UDP(b[off..]).value, protocols)
  {
    hide Datagram, PortsMatch, Half, Wanted;
    var p := b[off..];
    PortsStand(b, off, 40, 40 + Half(p, 4), p[8..24], p[24..40], protocols);
  }

  /** An accepted frame of a given type is queued if it is LLDP, or IP with a datagram for an enabled
      protocol. */
  lemma PlainAccepted(b: seq<Byte>, f: Frame, protocols: ProtocolSet)
    requires Located(b, f) && f.llc.NoLLC? && MatchAt(b, |f.vlans|, protocols)
    ensures RouteFrame(f, protocols).Some? <==> f.etherType == ETHERTYPE_LLDP || (UDPOf(f).Clean? && Wanted(UDPOf(f).value, protocols))
    ensures f.etherType == ETHERTYPE_LLDP || f.etherType == ETHERTYPE_IPV4 || f.etherType == ETHERTYPE_IPV6
    ensures UDPOf(f).Clean? && (f.etherType == ETHERTYPE_IPV4 || (|f.payload| > 6 && f.payload[6] == UDP)) ==> Wanted(UDPOf(f).value, protocols)
  {
    hide IPv4Match, IPv6Match, IPv4UDP, IPv6UDP, CDPMatch, Half;
    var off := 14 + 4 * |f.vlans|;
    assert TypeAt(b, |f.vlans|) == Some(Half(b, 12 + 4 * |f.vlans|));
    if f.etherType == ETHERTYPE_IPV4 && IPv4UDP(f.payload).Clean? { IPv4Wanted(b, off, protocols); }
    if f.etherType == ETHERTYPE_IPV6 && IPv6UDP(f.payload).Clean? && |f.payload| > 6 && f.payload[6] == UDP { IPv6Wanted(b, off, protocols); }
  }

  lemma CDPAccepted(b: seq<Byte>, off: nat, length: nat, vlans: seq<nat>)
    requires 12 <= off <= |b| && LLCFrame(b, off, length, vlans).Clean? && CDPMatch(b, off)
    ensures LLCFrame(b, off, length, vlans).value.llc == SNAP(CISCO_OUI, CDP_PID)
  {
    var data := if length < |b| - off then b[off..off + length] else b[off..];
    WordParts(b, off, 0xaaaa, 0x0300);
    assert data[0] == b[off] && data[1] == b[off + 1] && data[2] == b[off + 2];
    assert LLCFrame(b, off, length, vlans).value.llc.SNAP?;
    CDPWords(b, off, length, vlans);
  }

  ghost predicate HasDatagram(f: Frame) { exists u :: CarriesUDP(f, u) }

  /** A datagram for an enabled protocol, or one whose ports the filter has looked at. */
  ghost predicate HasWanted(f: Frame, protocols: ProtocolSet) {
    exists u :: CarriesUDP(f, u) && (Wanted(u, protocols) || f.payload[6] == 17)
  }

  /** Of the packets that decode and that the filter lets through, the router queues all but IP that the
      filter cannot see through: a datagram that does not decode, or one for another port behind IPv6
      extension headers. */
  lemma AcceptedRouted(b: seq<Byte>, f: Frame, protocols: ProtocolSet)
    requires FrameOf(b) == Clean(f) && Accepts(b, protocols)
    ensures Route(b, protocols).Some? <==> (f.etherType == 0x0800 ==> HasDatagram(f)) && (f.etherType == 0x86dd ==> HasWanted(f, protocols))
  {
    hide CDPMatch, IPv4Match, IPv6Match, UDPOf, LLCFrame, Half, CarriesUDP, Wanted;
    AllStand(f);
    FrameLocated(b, []);
    var n := |f.vlans|;
    var off := 14 + 4 * n;
    AcceptsAtDepth(b, n, protocols);
    assert TypeAt(b, n) == Some(Half(b, 12 + 4 * n));
    if f.llc.NoLLC? {
      PlainAccepted(b, f, protocols);
      UDPTypes(f);
      V6Long(f);
    } else {
      CDPAccepted(b, off, Half(b, 12 + 4 * n), f.vlans);
      LLCKinds(b, off, Half(b, 12 + 4 * n), f.vlans);
    }
  }

  lemma V6Long(f: Frame)
    ensures f.etherType == ETHERTYPE_IPV6 && UDPOf(f).Clean? ==> |f.payload| > 6
  {
  }

  const IPV6_HEADER: seq<Byte> := [0x60, 0, 0, 0, 0, 16, 0, 64] + seq(32, _ => 0)
  const HOP_BY_HOP: seq<Byte> := [17, 0, 0, 0, 0, 0, 0, 0]
  const PORT_ONE_TO_ONE: seq<Byte> := [0, 1, 0, 1, 0, 8, 0, 0]

  /** IPv6 with an empty hop-by-hop header before a datagram from port 1 to port 1. */
  const SEEN_NOT_WANTED: seq<Byte> := seq(12, _ => 0) + [0x86, 0xdd] + (IPV6_HEADER + HOP_BY_HOP + PORT_ONE_TO_ONE)

  lemma HeaderSkipped(header: seq<Byte>, options: seq<Byte>, rest: seq<Byte>)
    requires |header| == 40 && |options| == 8 && options[0] == 17 && options[1] == 0
    ensures var p := header + options + rest; |p| == 48 + |rest| && SkipExtensions(p, |p|, 0, 40, 0) == Clean(48) && p[48..] == rest
  {
    var p := header + options + rest;
    assert p[40] == 17 && p[41] == 0;
    assert SkipExtensions(p, |p|, 17, 48, 1) == Clean(48);
  }

  lemma PortsOne()
    ensures var d := PORT_ONE_TO_ONE; |d| == 8 && Half(d, 4) == 8 && Half(d, 0) == 1 && Half(d, 2) == 1
  {
  }

  lemma PlainHeader()
    ensures var h := IPV6_HEADER; |h| == 40 && h[0] == 0x60 && h[6] == 0 && Half(h, 4) == 16
  {
  }

  /** The filter lets such a packet through, whatever its ports; the router does not queue it. */
  lemma ExtensionsUnseen()
    ensures Accepts(SEEN_NOT_WANTED, {MDNS}) && FrameOf(SEEN_NOT_WANTED).Clean? && HasDatagram(FrameOf(SEEN_NOT_WANTED).value)
    ensures Route(SEEN_NOT_WANTED, {MDNS}).None?
  {
    hide Accepts, HasDatagram, UDPOf, FrameOf, Route;
    var f := SeenFrame();
    SeenCarried(f);
    SeenAccepted();
    SeenUnrouted(f);
  }

  lemma SeenFrame() returns (f: Frame)
    ensures FrameOf(SEEN_NOT_WANTED) == Clean(f) && f.payload == IPV6_HEADER + HOP_BY_HOP + PORT_ONE_TO_ONE && f.etherType == 0x86dd && f.llc == NoLLC
  {
    var b, p := SEEN_NOT_WANTED, IPV6_HEADER + HOP_BY_HOP + PORT_ONE_TO_ONE;
    f := Frame(b[..6], b[6..12], [], 0x86dd, NoLLC, p);
    assert Half(b, 12) == 0x86dd && b[14..] == p;
  }

  lemma SeenAccepted()
    ensures Accepts(SEEN_NOT_WANTED, {MDNS})
  {
    var b, p := SEEN_NOT_WANTED, IPV6_HEADER + HOP_BY_HOP + PORT_ONE_TO_ONE;
    PlainHeader();
    assert Half(b, 12) == 0x86dd && b[20] == p[6] == IPV6_HEADER[6];
    hide PortsMatch;
    assert IPv6Match(b, 14, {MDNS});
    assert TypeAt(b, 0) == Some(0x86dd);
    assert MatchAt(b, 0, {MDNS}) && TagsTo(b, 0);
  }

  lemma SeenUnrouted(f: Frame)
    requires FrameOf(SEEN_NOT_WANTED) == Clean(f) && f.etherType == 0x86dd && f.llc == NoLLC
    requires UDPOf(f).Clean? && UDPOf(f).value.sourcePort == 1 && UDPOf(f).value.destinationPort == 1
    ensures Route(SEEN_NOT_WANTED, {MDNS}).None?
  {
    hide FrameOf, UDPOf;
  }

  lemma SeenCarried(f: Frame)
    requires f.payload == IPV6_HEADER + HOP_BY_HOP + PORT_ONE_TO_ONE && f.etherType == 0x86dd
    ensures HasDatagram(f) && UDPOf(f).Clean? && UDPOf(f).value.sourcePort == 1 && UDPOf(f).value.destinationPort == 1 && f.payload[6] == 0
  {
    hide SkipExtensions;
    PlainHeader();
    PortsOne();
    HeaderSkipped(IPV6_HEADER, HOP_BY_HOP, PORT_ONE_TO_ONE);
    assert Half(f.payload, 4) == Half(IPV6_HEADER, 4);
    assert f.payload[48..56] == PORT_ONE_TO_ONE;
    UDPStands(f, UDPOf(f).value);
  }
}
