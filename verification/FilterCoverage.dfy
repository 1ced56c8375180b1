/** The kernel filter against the userspace router. */
module FilterCoverage {
  import opened Model
  import opened Bits
  import opened Bpf
  import opened DiscoveryFilter
  import opened Ethernet

  /** Where a decoded frame's type field and body lie in the packet. */
  ghost predicate Located(b: seq<Byte>, f: Frame) {
    var n := |f.vlans|;
    && n <= MAX_VLAN_TAGS && |b| >= 14 + 4 * n && TagsTo(b, n) && !TagsTo(b, n + 1)
    && var et, off := Half(b, 12 + 4 * n), 14 + 4 * n;
       if f.llc.NoLLC? then et >= 0x600 && f.etherType == et && f.payload == b[off..]
       else et < 0x600 && LLCFrame(b, off, et, f.vlans) == Clean(f)
  }

  lemma {:induction false} FrameLocated(b: seq<Byte>, vlans: seq<nat>)
    requires |vlans| <= MAX_VLAN_TAGS && |b| >= 14 + 4 * |vlans| && TagsTo(b, |vlans|)
    ensures FrameFrom(b, vlans).Clean? ==> Located(b, FrameFrom(b, vlans).value)
    decreases MAX_VLAN_TAGS - |vlans|
  {
    hide LLCFrame, Half, And;
    var off := 14 + 4 * |vlans|;
    var et := Half(b, off - 2);
    assert TypeAt(b, |vlans|) == Some(et);
    if IsTag(et) {
      assert TagsTo(b, |vlans| + 1);
      if |vlans| < MAX_VLAN_TAGS && off + 4 <= |b| {
        FrameLocated(b, vlans + [And(Half(b, off), 0x0fff)]);
      }
    } else {
      LLCVlans(b, off, et, vlans);
    }
  }

  lemma LLCVlans(b: seq<Byte>, off: nat, length: nat, vlans: seq<nat>)
    requires 12 <= off <= |b|
    ensures var r := LLCFrame(b, off, length, vlans); r.Clean? ==> r.value.vlans == vlans && !r.value.llc.NoLLC?
  {
  }

  /** A field of a frame's payload is a field of the packet. */
  lemma PayloadField(b: seq<Byte>, off: nat, at: nat)
    requires off + at + 2 <= |b|
    ensures Half(b[off..], at) == Half(b, off + at)
  {
  }

  lemma DatagramPorts(b: seq<Byte>, off: nat, from: nat, to: nat, src: seq<Byte>, dst: seq<Byte>, protocols: ProtocolSet)
    requires off <= |b| && from <= to <= |b| - off
    requires var u := Datagram(src, dst, b[off..][from..to]);
             u.Clean? && ((PortOf(u.value, MDNS_PORT) && MDNS in protocols) || (PortOf(u.value, MNDP_PORT) && MNDP in protocols))
    ensures PortsMatch(b, off + from, protocols)
  {
    var q := b[off..][from..to];
    assert q[0] == b[off + from] && q[1] == b[off + from + 1] && q[2] == b[off + from + 2] && q[3] == b[off + from + 3];
    assert Half(q, 0) == Half(b, off + from) && Half(q, 2) == Half(b, off + from + 2);
  }

  lemma IPv4Passes(b: seq<Byte>, off: nat, protocols: ProtocolSet)
    requires off <= |b|
    requires var u := IPv4UDP(b[off..]);
             u.Clean? && ((PortOf(u.value, MDNS_PORT) && MDNS in protocols) || (PortOf(u.value, MNDP_PORT) && MNDP in protocols))
    ensures IPv4Match(b, off, protocols)
  {
    hide Datagram, PortsMatch, And, Half;
    var p := b[off..];
    PayloadField(b, off, 6);
    DatagramPorts(b, off, And(p[0], 15) * 4, Half(p, 2), p[12..16], p[16..20], protocols);
  }

  lemma IPv6Passes(b: seq<Byte>, off: nat, protocols: ProtocolSet)
    requires off <= |b|
    requires var u := IPv6UDP(b[off..]);
             u.Clean? && ((PortOf(u.value, MDNS_PORT) && MDNS in protocols) || (PortOf(u.value, MNDP_PORT) && MNDP in protocols))
    ensures IPv6Match(b, off, protocols)
  {
    hide Datagram, PortsMatch, Half;
    var p := b[off..];
    if p[6] == UDP {
      DatagramPorts(b, off, 40, 40 + Half(p, 4), p[8..24], p[24..40], protocols);
    }
  }

  /** The two words the filter compares are exactly an LLC/SNAP header of Cisco's CDP. */
  lemma CDPWords(b: seq<Byte>, off: nat, length: nat, vlans: seq<nat>)
    requires 12 <= off <= |b| && LLCFrame(b, off, length, vlans).Clean?
    requires LLCFrame(b, off, length, vlans).value.llc.SNAP?
    ensures CDPMatch(b, off) <==> LLCFrame(b, off, length, vlans).value.llc == SNAP(CISCO_OUI, CDP_PID)
  {
    var data := if length < |b| - off then b[off..off + length] else b[off..];
    assert forall i | 0 <= i < 8 :: data[i] == b[off + i];
    assert data[3..6] == [b[off + 3], b[off + 4], b[off + 5]];
    if b[off + 3] == 0 && b[off + 4] == 0 && b[off + 5] == 0x0c { assert data[3..6] == CISCO_OUI; }
    if data[3..6] == CISCO_OUI { assert data[3..6][0] == 0 && data[3..6][1] == 0 && data[3..6][2] == 0x0c; }
    WordParts(b, off, 0xaaaa, 0x0300);
    WordParts(b, off + 4, 0x000c, 0x2000);
  }

  lemma WordParts(b: seq<Byte>, off: nat, hi: nat, lo: nat)
    requires off + 4 <= |b| && hi < 0x1_0000 && lo < 0x1_0000
    ensures Word(b, off) == hi * 0x1_0000 + lo <==> Half(b, off) == hi && Half(b, off + 2) == lo
  {
  }

  /** For a frame the router queues, the filter passes it if and only if it is not wrapped in
      SNAP, or it is queued as CDP: SNAP-wrapped LLDP and IP reach the decoder only where no
      filter is installed. Any number of tags, any protocol selection. */
  lemma RoutedFrameFilter(b: seq<Byte>, protocols: ProtocolSet)
    requires FrameOf(b).Clean? && Route(b, protocols).Some?
    ensures Accepts(b, protocols) <==> !FrameOf(b).value.llc.SNAP? || Route(b, protocols).value.0 == CDP
  {
    hide CDPMatch, IPv4Match, IPv6Match, UDPOf, LLCFrame, Half;
    FrameLocated(b, []);
    var f := FrameOf(b).value;
    var n := |f.vlans|;
    var off := 14 + 4 * n;
    AcceptsAtDepth(b, n, protocols);
    assert TypeAt(b, n) == Some(Half(b, 12 + 4 * n));
    if f.llc.NoLLC? {
      RoutedPlain(b, f, protocols);
    } else {
      LLCKinds(b, off, Half(b, 12 + 4 * n), f.vlans);
      if f.llc.SNAP? { CDPWords(b, off, Half(b, 12 + 4 * n), f.vlans); }
    }
  }

  lemma LLCKinds(b: seq<Byte>, off: nat, length: nat, vlans: seq<nat>)
    requires 12 <= off <= |b| && LLCFrame(b, off, length, vlans).Clean?
    ensures var f := LLCFrame(b, off, length, vlans).value;
            if f.llc.SNAP? then f.etherType == f.llc.pid else f.etherType == 0
  {
  }

  lemma RoutedPlain(b: seq<Byte>, f: Frame, protocols: ProtocolSet)
    requires Located(b, f) && f.llc.NoLLC? && RouteFrame(f, protocols).Some?
    ensures MatchAt(b, |f.vlans|, protocols)
  {
    hide IPv4Match, IPv6Match, IPv4UDP, IPv6UDP, CDPMatch;
    var off := 14 + 4 * |f.vlans|;
    if f.etherType == ETHERTYPE_IPV4 { IPv4Passes(b, off, protocols); }
    if f.etherType == ETHERTYPE_IPV6 { IPv6Passes(b, off, protocols); }
  }

  /** An LLDP frame in a SNAP wrapper: queued by the router, dropped by the filter. */
  lemma SnapWrappedLLDP()
    ensures var b := seq(12, _ => 0) + [0x00, 0x08, 0xaa, 0xaa, 0x03, 0x00, 0x00, 0x00, 0x88, 0xcc];
            Route(b, {LLDP}) == Some((LLDP, [])) && !Accepts(b, {LLDP})
  {
    var b: seq<Byte> := seq(12, _ => 0) + [0x00, 0x08, 0xaa, 0xaa, 0x03, 0x00, 0x00, 0x00, 0x88, 0xcc];
    assert Half(b, 12) == 8;
    var data := b[14..];
    assert data == [0xaa, 0xaa, 0x03, 0x00, 0x00, 0x00, 0x88, 0xcc];
    assert Half(data, 6) == 0x88cc;
    RoutedFrameFilter(b, {LLDP});
  }

  ghost predicate Queued(b: seq<Byte>, protocols: ProtocolSet) {
    FrameOf(b).Clean? && Route(b, protocols).Some?
  }

  /** Ethernet II, or Cisco's CDP in its SNAP wrapper. */
  ghost predicate Direct(b: seq<Byte>, protocols: ProtocolSet)
    requires Queued(b, protocols)
  {
    !FrameOf(b).value.llc.SNAP? || Route(b, protocols).value.0 == CDP
  }

  /** The installed filter against the router, over every packet the router queues. */
  method InstalledFilter(protocols: ProtocolSet, snaplen: nat) returns (ins: seq<Insn>)
    ensures forall b | Queued(b, protocols) :: Run(ins, 0, 0, 0, b) == if Direct(b, protocols) then snaplen else 0
  {
    ins := BuildFilter(protocols, snaplen);
    forall b | Queued(b, protocols) ensures Run(ins, 0, 0, 0, b) == if Direct(b, protocols) then snaplen else 0 {
      RoutedFrameFilter(b, protocols);
    }
  }
}
