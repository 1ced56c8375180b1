/** The kernel-side capture filter: one guarded path per VLAN depth and protocol, assembled
    through the builder, and the packets it accepts. */
module DiscoveryFilter {
  import opened Model
  import opened Bits
  import opened Bpf

  const ETHERTYPE_IPV4 := 0x0800
  const ETHERTYPE_VLAN := 0x8100
  const ETHERTYPE_QINQ := 0x88a8
  const ETHERTYPE_IPV6 := 0x86dd
  const ETHERTYPE_LLDP := 0x88cc
  const MAX_VLAN_TAGS := 3
  const MDNS_PORT := 5353
  const MNDP_PORT := 5678
  const UDP := 17

  predicate IsTag(t: nat) { t == ETHERTYPE_VLAN || t == ETHERTYPE_QINQ }

  /** The type field behind `depth` VLAN tags. */
  function TypeAt(pkt: seq<Byte>, depth: nat): Option<nat> { LoadAt(pkt, 12 + 4 * depth, 2) }

  predicate WantsUDP(protocols: ProtocolSet) { MNDP in protocols || MDNS in protocols }

  predicate Selected(port: nat, protocols: ProtocolSet) {
    (MDNS in protocols && port == MDNS_PORT) || (MNDP in protocols && port == MNDP_PORT)
  }

  predicate IsExtension(next: nat) { next in {0, 43, 44, 51, 60} }

  // ---------- what the filter accepts, declaratively ----------

  predicate Reads(pkt: seq<Byte>, off: nat, size: nat, v: nat)
    requires size in {1, 2, 4}
  {
    LoadAt(pkt, off, size) == Some(v)
  }

  predicate SelectedAt(pkt: seq<Byte>, off: nat, protocols: ProtocolSet) {
    LoadAt(pkt, off, 2).Some? && Selected(LoadAt(pkt, off, 2).value, protocols)
  }

  /** Source or destination port is wanted; the destination is read only after the source. */
  predicate PortsMatch(pkt: seq<Byte>, off: nat, protocols: ProtocolSet) {
    LoadAt(pkt, off, 2).Some? && (SelectedAt(pkt, off, protocols) || SelectedAt(pkt, off + 2, protocols))
  }

  predicate CDPMatch(pkt: seq<Byte>, p: nat) {
    Reads(pkt, p, 4, 0xaaaa0300) && Reads(pkt, p + 4, 4, 0x000c2000)
  }

  predicate IPv4Match(pkt: seq<Byte>, p: nat, protocols: ProtocolSet) {
    && Reads(pkt, p + 9, 1, UDP)
    && LoadAt(pkt, p + 6, 2).Some? && And(LoadAt(pkt, p + 6, 2).value, 0x3fff) == 0
    && LoadAt(pkt, p, 1).Some? && PortsMatch(pkt, p + 4 * And(LoadAt(pkt, p, 1).value, 15), protocols)
  }

  predicate IPv6Match(pkt: seq<Byte>, p: nat, protocols: ProtocolSet) {
    && LoadAt(pkt, p + 6, 1).Some?
    && var next := LoadAt(pkt, p + 6, 1).value;
       if next == UDP then PortsMatch(pkt, p + 40, protocols) else IsExtension(next)
  }

  /** The frame behind `depth` tags is one an enabled protocol wants. */
  predicate MatchAt(pkt: seq<Byte>, depth: nat, protocols: ProtocolSet) {
    && TypeAt(pkt, depth).Some?
    && var t, p := TypeAt(pkt, depth).value, 14 + 4 * depth;
       || (LLDP in protocols && t == ETHERTYPE_LLDP)
       || (CDP in protocols && t < 0x600 && CDPMatch(pkt, p))
       || (WantsUDP(protocols) && t == ETHERTYPE_IPV4 && IPv4Match(pkt, p, protocols))
       || (WantsUDP(protocols) && t == ETHERTYPE_IPV6 && IPv6Match(pkt, p, protocols))
  }

  /** The first n type fields are all VLAN tags. */
  predicate TagsTo(pkt: seq<Byte>, n: nat) {
    forall i | 0 <= i < n :: TypeAt(pkt, i).Some? && IsTag(TypeAt(pkt, i).value)
  }

  ghost predicate Accepts(pkt: seq<Byte>, protocols: ProtocolSet) {
    exists d | 0 <= d <= MAX_VLAN_TAGS :: TagsTo(pkt, d) && MatchAt(pkt, d, protocols)
  }

  // ---------- the paths as structured checks ----------

  /** Outcome of a check, in terms of the path it belongs to. */
  datatype Verdict = Abort | Accept(a: nat, x: nat) | Reject(a: nat, x: nat) | On(a: nat, x: nat)

  datatype PathKind = PathLLDP | PathCDP | PathIPv4 | PathIPv6

  function Guard(pkt: seq<Byte>, n: nat, a: nat, x: nat): (v: Verdict)
    ensures !v.Accept?
  {
    if n == 0 then On(a, x) else
    var g := Guard(pkt, n - 1, a, x);
    if !g.On? then g else
    match TypeAt(pkt, n - 1)
    case None => Abort
    case Some(t) => if IsTag(t) then On(t, g.x) else Reject(t, g.x)
  }

  function Settle(ok: bool, a: nat, x: nat): (v: Verdict)
    ensures !v.On?
  { if ok then Accept(a, x) else Reject(a, x) }

  function PortCheck(pkt: seq<Byte>, off: nat, protocols: ProtocolSet, x: nat): (v: Verdict)
    ensures !v.On?
  {
    match LoadAt(pkt, (off + x) % U32, 2)
    case None => Abort
    case Some(src) =>
      if Selected(src, protocols) then Accept(src, x) else
      match LoadAt(pkt, (off + 2 + x) % U32, 2)
      case None => Abort
      case Some(dst) => Settle(Selected(dst, protocols), dst, x)
  }

  function CDPCheck(pkt: seq<Byte>, t: nat, p: nat, x: nat): (v: Verdict)
    ensures !v.On?
  {
    if t >= 0x600 then Reject(t, x) else
    match LoadAt(pkt, p, 4)
    case None => Abort
    case Some(w) =>
      if w != 0xaaaa0300 then Reject(w, x) else
      match LoadAt(pkt, p + 4, 4)
      case None => Abort
      case Some(v) => Settle(v == 0x000c2000, v, x)
  }

  function IPv4Check(pkt: seq<Byte>, t: nat, p: nat, protocols: ProtocolSet, x: nat): (v: Verdict)
    ensures !v.On?
  {
    if t != ETHERTYPE_IPV4 then Reject(t, x) else
    match LoadAt(pkt, p + 9, 1)
    case None => Abort
    case Some(proto) =>
      if proto != UDP then Reject(proto, x) else
      match LoadAt(pkt, p + 6, 2)
      case None => Abort
      case Some(frag) =>
        if And(frag, 0x3fff) != 0 then Reject(frag, x) else
        match LoadAt(pkt, p, 1)
        case None => Abort
        case Some(v) => PortCheck(pkt, p, protocols, 4 * And(v, 15))
  }

  function IPv6Check(pkt: seq<Byte>, t: nat, p: nat, protocols: ProtocolSet, x: nat): (v: Verdict)
    ensures !v.On?
  {
    if t != ETHERTYPE_IPV6 then Reject(t, x) else
    match LoadAt(pkt, p + 6, 1)
    case None => Abort
    case Some(next) =>
      if next == UDP then PortCheck(pkt, p + 40, protocols, x) else Settle(IsExtension(next), next, x)
  }

  function Body(pkt: seq<Byte>, kind: PathKind, t: nat, p: nat, protocols: ProtocolSet, x: nat): (v: Verdict)
    ensures !v.On?
  {
    match kind
    case PathLLDP => Settle(t == ETHERTYPE_LLDP, t, x)
    case PathCDP => CDPCheck(pkt, t, p, x)
    case PathIPv4 => IPv4Check(pkt, t, p, protocols, x)
    case PathIPv6 => IPv6Check(pkt, t, p, protocols, x)
  }

  function Path(pkt: seq<Byte>, depth: nat, kind: PathKind, protocols: ProtocolSet, a: nat, x: nat): Verdict {
    var g := Guard(pkt, depth, a, x);
    if !g.On? then g else
    match TypeAt(pkt, depth)
    case None => Abort
    case Some(t) => Body(pkt, kind, t, 14 + 4 * depth, protocols, g.x)
  }

  // ---------- emission ----------

  /** A verdict as jumps to the two labels of its path. */
  function Jumps(v: Verdict, accept: nat, reject: nat): Out {
    match v
    case Abort => Halt(0)
    case Accept(a, x) => Go(accept, a, x)
    case Reject(a, x) => Go(reject, a, x)
    case On(a, x) => Fall(a, x)
  }

  /** No old label moved; every new one is marked. */
  ghost predicate NewMarked(was: seq<int>, labels: seq<int>) {
    && |was| <= |labels| && (forall l | 0 <= l < |was| :: labels[l] == was[l])
    && forall l | |was| <= l < |labels| :: labels[l] != -1
  }

  /** The builder is inside a path that began at s, with room for n more instructions. */
  ghost predicate Room(b: FilterBuilder, s: nat, n: nat)
    reads b
  {
    b.Valid() && b.Local(s) && |b.ins| + n <= s + 256
  }

  ghost predicate Open(b: FilterBuilder, l: nat)
    reads b
  {
    l < |b.labels| && b.labels[l] == -1
  }

  ghost function GuardOut(o: Out, pkt: seq<Byte>, n: nat, reject: nat): Out {
    if o.Fall? then Jumps(Guard(pkt, n, o.a, o.x), 0, reject) else o
  }

  ghost function TestOut(o: Out, pkt: seq<Byte>, load: Insn, op: Op, k: nat, onTrue: nat, onFalse: nat): Out
    requires !IsJump(load.op) && IsJump(op)
  {
    if !o.Fall? then o else
    var r := Step(load, o.a, o.x, pkt);
    if r.Fall? then Go(if Taken(op, r.a, k) then onTrue else onFalse, r.a, r.x) else r
  }

  /** A load followed by a jump on the loaded value. */
  method Test(b: FilterBuilder, load: Insn, op: Op, k: nat, onTrue: nat, onFalse: nat, ghost s: nat)
    requires Room(b, s, 2) && Open(b, onTrue) && Open(b, onFalse) && !IsJump(load.op) && IsJump(op)
    modifies b
    ensures Room(b, s, 0) && b.labels == old(b.labels) && |b.ins| == |old(b.ins)| + 2
    ensures forall pkt :: b.Meaning(pkt) == TestOut(old(b.Meaning(pkt)), pkt, load, op, k, onTrue, onFalse)
  {
    hide FilterBuilder.Valid, FilterBuilder.Local, FilterBuilder.Meaning, Step;
    b.Emit(load, s);
    b.Jump(op, k, onTrue, onFalse, s);
  }

  /** One iteration of the tag guard: the type field in front of the next header is a tag. */
  method OneTag(b: FilterBuilder, tag: nat, reject: nat, ghost s: nat)
    requires Room(b, s, 3) && Open(b, reject)
    modifies b
    ensures Room(b, s, 0) && NewMarked(old(b.labels), b.labels) && |b.ins| == |old(b.ins)| + 3
    ensures forall pkt :: b.Meaning(pkt) == TagOut(old(b.Meaning(pkt)), pkt, tag, reject)
  {
    hide FilterBuilder.Valid, FilterBuilder.Local, FilterBuilder.Meaning;
    var checkQinQ := b.Label(s);
    var matched := b.Label(s);
    Test(b, Insn(LdH, 0, 0, 12 + tag * 4), Jeq, ETHERTYPE_VLAN, matched, checkQinQ, s);
    b.Mark(checkQinQ, s);
    b.Jump(Jeq, ETHERTYPE_QINQ, matched, reject, s);
    b.Mark(matched, s);
  }

  ghost function TagOut(o: Out, pkt: seq<Byte>, tag: nat, reject: nat): Out {
    if !o.Fall? then o else
    match TypeAt(pkt, tag)
    case None => Halt(0)
    case Some(t) => if IsTag(t) then Fall(t, o.x) else Go(reject, t, o.x)
  }

  method TagGuard(b: FilterBuilder, depth: nat, reject: nat, ghost s: nat)
    requires Room(b, s, 3 * depth) && Open(b, reject)
    modifies b
    ensures Room(b, s, 0) && NewMarked(old(b.labels), b.labels) && |b.ins| == |old(b.ins)| + 3 * depth
    ensures forall pkt :: b.Meaning(pkt) == GuardOut(old(b.Meaning(pkt)), pkt, depth, reject)
  {
    for tag := 0 to depth
      invariant Room(b, s, 3 * (depth - tag)) && NewMarked(old(b.labels), b.labels) && |b.ins| == |old(b.ins)| + 3 * tag
      invariant forall pkt :: b.Meaning(pkt) == GuardOut(old(b.Meaning(pkt)), pkt, tag, reject)
    {
      OneTag(b, tag, reject, s);
    }
  }

  ghost function SelectOut(o: Out, protocols: ProtocolSet, accept: nat, reject: nat): Out {
    if o.Fall? then Go(if Selected(o.a, protocols) then accept else reject, o.a, o.x) else o
  }

  method EmitSelectedPortChecks(b: FilterBuilder, protocols: ProtocolSet, accept: nat, reject: nat, ghost s: nat)
    requires Room(b, s, 2) && Open(b, accept) && Open(b, reject) && WantsUDP(protocols)
    modifies b
    ensures Room(b, s, 0) && NewMarked(old(b.labels), b.labels) && |b.ins| <= |old(b.ins)| + 2
    ensures forall pkt :: b.Meaning(pkt) == SelectOut(old(b.Meaning(pkt)), protocols, accept, reject)
  {
    hide FilterBuilder.Valid, FilterBuilder.Local, FilterBuilder.Meaning;
    if MDNS in protocols && MNDP in protocols {
      var checkMNDP := b.Label(s);
      b.Jump(Jeq, MDNS_PORT, accept, checkMNDP, s);
      b.Mark(checkMNDP, s);
      b.Jump(Jeq, MNDP_PORT, accept, reject, s);
    } else if MDNS in protocols {
      b.Jump(Jeq, MDNS_PORT, accept, reject, s);
    } else {
      b.Jump(Jeq, MNDP_PORT, accept, reject, s);
    }
  }

  ghost function PortsOut(o: Out, pkt: seq<Byte>, off: nat, protocols: ProtocolSet, accept: nat, reject: nat): Out {
    if o.Fall? then Jumps(PortCheck(pkt, off, protocols, o.x), accept, reject) else o
  }

  method EmitUDPPortChecks(b: FilterBuilder, off: nat, protocols: ProtocolSet, accept: nat, reject: nat, ghost s: nat)
    requires Room(b, s, 6) && Open(b, accept) && Open(b, reject) && WantsUDP(protocols)
    modifies b
    ensures Room(b, s, 0) && NewMarked(old(b.labels), b.labels) && |b.ins| <= |old(b.ins)| + 6
    ensures forall pkt :: b.Meaning(pkt) == PortsOut(old(b.Meaning(pkt)), pkt, off, protocols, accept, reject)
  {
    hide FilterBuilder.Valid, FilterBuilder.Local, FilterBuilder.Meaning, Selected, LoadAt;
    var checkDestination := b.Label(s);
    b.Emit(Insn(LdHInd, 0, 0, off), s);
    EmitSelectedPortChecks(b, protocols, accept, checkDestination, s);
    b.Mark(checkDestination, s);
    b.Emit(Insn(LdHInd, 0, 0, off + 2), s);
    EmitSelectedPortChecks(b, protocols, accept, reject, s);
  }

  const EXTENSIONS: seq<nat> := [0, 43, 44, 51, 60]

  /** Extension headers tried so far; a byte never equals the final comparison's constant. */
  ghost function ExtensionOut(o: Out, n: nat, accept: nat): Out
    requires n <= 5
  {
    if o.Fall? && o.a in EXTENSIONS[..n] then Go(accept, o.a, o.x) else o
  }

  method EmitIPv6ExtensionChecks(b: FilterBuilder, accept: nat, reject: nat, ghost s: nat)
    requires Room(b, s, 6) && Open(b, accept) && Open(b, reject)
    requires forall pkt :: b.Meaning(pkt).Fall? ==> b.Meaning(pkt).a < 256
    modifies b
    ensures Room(b, s, 0) && NewMarked(old(b.labels), b.labels) && |b.ins| == |old(b.ins)| + 6
    ensures forall pkt :: b.Meaning(pkt) == ExtensionsOut(old(b.Meaning(pkt)), accept, reject)
  {
    hide FilterBuilder.Valid, FilterBuilder.Local, FilterBuilder.Meaning;
    for n := 0 to 5
      invariant Room(b, s, 6 - n) && NewMarked(old(b.labels), b.labels) && |b.ins| == |old(b.ins)| + n
      invariant forall pkt :: b.Meaning(pkt) == ExtensionOut(old(b.Meaning(pkt)), n, accept)
    {
      var next := b.Label(s);
      b.Jump(Jeq, EXTENSIONS[n], accept, next, s);
      b.Mark(next, s);
      assert EXTENSIONS[..n + 1] == EXTENSIONS[..n] + [EXTENSIONS[n]];
    }
    assert EXTENSIONS[..5] == EXTENSIONS;
    b.Jump(Jeq, 0xffff_ffff, accept, reject, s);
  }

  ghost function ExtensionsOut(o: Out, accept: nat, reject: nat): Out {
    if o.Fall? then Go(if IsExtension(o.a) then accept else reject, o.a, o.x) else o
  }

  // The four kinds of path, each from the type field on.

  /** The path's checks, entered with whatever its tag guard let through. */
  ghost function BodyOut(o: Out, pkt: seq<Byte>, kind: PathKind, depth: nat, protocols: ProtocolSet, accept: nat, reject: nat): Out {
    if !o.Fall? then o else
    match TypeAt(pkt, depth)
    case None => Halt(0)
    case Some(t) => Jumps(Body(pkt, kind, t, 14 + 4 * depth, protocols, o.x), accept, reject)
  }

  method EmitLLDP(b: FilterBuilder, depth: nat, protocols: ProtocolSet, accept: nat, reject: nat, ghost s: nat)
    requires Room(b, s, 2) && Open(b, accept) && Open(b, reject)
    modifies b
    ensures Room(b, s, 0) && NewMarked(old(b.labels), b.labels) && |b.ins| <= |old(b.ins)| + 2
    ensures forall pkt :: b.Meaning(pkt) == BodyOut(old(b.Meaning(pkt)), pkt, PathLLDP, depth, protocols, accept, reject)
  {
    Test(b, Insn(LdH, 0, 0, 12 + depth * 4), Jeq, ETHERTYPE_LLDP, accept, reject, s);
  }

  method EmitCDP(b: FilterBuilder, depth: nat, protocols: ProtocolSet, accept: nat, reject: nat, ghost s: nat)
    requires Room(b, s, 6) && Open(b, accept) && Open(b, reject)
    modifies b
    ensures Room(b, s, 0) && NewMarked(old(b.labels), b.labels) && |b.ins| <= |old(b.ins)| + 6
    ensures forall pkt :: b.Meaning(pkt) == BodyOut(old(b.Meaning(pkt)), pkt, PathCDP, depth, protocols, accept, reject)
  {
    hide FilterBuilder.Valid, FilterBuilder.Local, FilterBuilder.Meaning, LoadAt;
    var payload := 14 + depth * 4;
    var lengthOK := b.Label(s);
    Test(b, Insn(LdH, 0, 0, 12 + depth * 4), Jge, 0x0600, reject, lengthOK, s);
    b.Mark(lengthOK, s);
    var secondWord := b.Label(s);
    Test(b, Insn(LdW, 0, 0, payload), Jeq, 0xaaaa0300, secondWord, reject, s);
    b.Mark(secondWord, s);
    Test(b, Insn(LdW, 0, 0, payload + 4), Jeq, 0x000c2000, accept, reject, s);
  }

  /** The IPv4 checks up to the header length: unfragmented UDP, four times the length nibble in X. */
  ghost function HeaderOut(o: Out, pkt: seq<Byte>, depth: nat, reject: nat): Out {
    if !o.Fall? then o else
    var p := 14 + 4 * depth;
    match TypeAt(pkt, depth)
    case None => Halt(0)
    case Some(t) =>
      if t != ETHERTYPE_IPV4 then Go(reject, t, o.x) else
      match LoadAt(pkt, p + 9, 1)
      case None => Halt(0)
      case Some(proto) =>
        if proto != UDP then Go(reject, proto, o.x) else
        match LoadAt(pkt, p + 6, 2)
        case None => Halt(0)
        case Some(frag) =>
          if And(frag, 0x3fff) != 0 then Go(reject, frag, o.x) else
          match LoadAt(pkt, p, 1)
          case None => Halt(0)
          case Some(v) => Fall(frag, 4 * And(v, 15))
  }

  method EmitIPv4Header(b: FilterBuilder, depth: nat, reject: nat, ghost s: nat)
    requires Room(b, s, 7) && Open(b, reject)
    modifies b
    ensures Room(b, s, 0) && NewMarked(old(b.labels), b.labels) && |b.ins| == |old(b.ins)| + 7
    ensures forall pkt :: b.Meaning(pkt) == HeaderOut(old(b.Meaning(pkt)), pkt, depth, reject)
  {
    hide FilterBuilder.Valid, FilterBuilder.Local, FilterBuilder.Meaning, LoadAt, And;
    var payload := 14 + depth * 4;
    var ipProtocol := b.Label(s);
    var fragments := b.Label(s);
    var ports := b.Label(s);
    Test(b, Insn(LdH, 0, 0, 12 + depth * 4), Jeq, ETHERTYPE_IPV4, ipProtocol, reject, s);
    b.Mark(ipProtocol, s);
    Test(b, Insn(LdB, 0, 0, payload + 9), Jeq, UDP, fragments, reject, s);
    b.Mark(fragments, s);
    Test(b, Insn(LdH, 0, 0, payload + 6), Jset, 0x3fff, reject, ports, s);
    b.Mark(ports, s);
    b.Emit(Insn(LdxMsh, 0, 0, payload), s);
  }

  method EmitIPv4(b: FilterBuilder, depth: nat, protocols: ProtocolSet, accept: nat, reject: nat, ghost s: nat)
    requires Room(b, s, 13) && Open(b, accept) && Open(b, reject) && WantsUDP(protocols)
    modifies b
    ensures Room(b, s, 0) && NewMarked(old(b.labels), b.labels) && |b.ins| <= |old(b.ins)| + 13
    ensures forall pkt :: b.Meaning(pkt) == BodyOut(old(b.Meaning(pkt)), pkt, PathIPv4, depth, protocols, accept, reject)
  {
    hide FilterBuilder.Valid, FilterBuilder.Local, FilterBuilder.Meaning, LoadAt, And, PortCheck;
    EmitIPv4Header(b, depth, reject, s);
    EmitUDPPortChecks(b, 14 + depth * 4, protocols, accept, reject, s);
  }

  method EmitIPv6(b: FilterBuilder, depth: nat, protocols: ProtocolSet, accept: nat, reject: nat, ghost s: nat)
    requires Room(b, s, 16) && Open(b, accept) && Open(b, reject) && WantsUDP(protocols)
    modifies b
    ensures Room(b, s, 0) && NewMarked(old(b.labels), b.labels) && |b.ins| <= |old(b.ins)| + 16
    ensures forall pkt :: b.Meaning(pkt) == BodyOut(old(b.Meaning(pkt)), pkt, PathIPv6, depth, protocols, accept, reject)
  {
    hide FilterBuilder.Valid, FilterBuilder.Local, FilterBuilder.Meaning, PortCheck, IsExtension;
    var payload := 14 + depth * 4;
    var checkNext := b.Label(s);
    var directUDP := b.Label(s);
    var extension := b.Label(s);
    Test(b, Insn(LdH, 0, 0, 12 + depth * 4), Jeq, ETHERTYPE_IPV6, checkNext, reject, s);
    b.Mark(checkNext, s);
    Test(b, Insn(LdB, 0, 0, payload + 6), Jeq, UDP, directUDP, extension, s);
    b.Mark(extension, s);
    EmitIPv6ExtensionChecks(b, accept, reject, s);
    b.Mark(directUDP, s);
    EmitUDPPortChecks(b, payload + 40, protocols, accept, reject, s);
  }

  // ---------- whole paths and the whole filter ----------

  /** Between paths every label is marked and every jump is within reach. */
  ghost predicate Closed(b: FilterBuilder)
    reads b
  {
    && b.Valid() && (forall l | 0 <= l < |b.labels| :: b.labels[l] != -1)
    && b.Local(|b.ins|)
  }

  lemma ClosedRuns(b: FilterBuilder, pkt: seq<Byte>)
    requires Closed(b)
    ensures Resolvable(b.code, b.labels) && !b.Meaning(pkt).Go?
  {
    forall i | 0 <= i < |b.code| && b.code[i].Branch?
      ensures Reaches(b.labels, b.code[i].onTrue, i) && Reaches(b.labels, b.code[i].onFalse, i)
    {
      var j :| 0 <= j < |b.fixups| && b.fixups[j].index == i;
    }
    if b.Meaning(pkt).Go? {
      var at := ExecGo(b.code, b.labels, 0, 0, 0, pkt);
      assert false;
    }
  }

  /** What a whole path does with a packet that reached it. */
  function PathOut(o: Out, pkt: seq<Byte>, depth: nat, kind: PathKind, protocols: ProtocolSet, snaplen: nat): Out {
    if !o.Fall? then o else
    match Path(pkt, depth, kind, protocols, o.a, o.x)
    case Accept(_, _) => Halt(snaplen)
    case Reject(a, x) => Fall(a, x)
    case _ => Halt(0)
  }

  predicate Wanted(kind: PathKind, protocols: ProtocolSet) {
    match kind
    case PathLLDP => LLDP in protocols
    case PathCDP => CDP in protocols
    case _ => WantsUDP(protocols)
  }

  method EmitChecks(b: FilterBuilder, depth: nat, kind: PathKind, protocols: ProtocolSet, accept: nat, reject: nat, ghost s: nat)
    requires Room(b, s, 16) && Open(b, accept) && Open(b, reject) && Wanted(kind, protocols)
    modifies b
    ensures Room(b, s, 0) && NewMarked(old(b.labels), b.labels) && |b.ins| <= |old(b.ins)| + 16
    ensures forall pkt :: b.Meaning(pkt) == BodyOut(old(b.Meaning(pkt)), pkt, kind, depth, protocols, accept, reject)
  {
    hide Body, BodyOut, FilterBuilder.Valid, FilterBuilder.Local, FilterBuilder.Meaning;
    match kind {
      case PathLLDP => EmitLLDP(b, depth, protocols, accept, reject, s);
      case PathCDP => EmitCDP(b, depth, protocols, accept, reject, s);
      case PathIPv4 => EmitIPv4(b, depth, protocols, accept, reject, s);
      case PathIPv6 => EmitIPv6(b, depth, protocols, accept, reject, s);
    }
  }

  method EmitProtocolPath(b: FilterBuilder, depth: nat, kind: PathKind, protocols: ProtocolSet, snaplen: nat)
    requires Closed(b) && depth <= MAX_VLAN_TAGS && Wanted(kind, protocols)
    modifies b
    ensures Closed(b)
    ensures forall pkt :: b.Meaning(pkt) == PathOut(old(b.Meaning(pkt)), pkt, depth, kind, protocols, snaplen)
  {
    hide FilterBuilder.Meaning, Guard, Body, FilterBuilder.Valid;
    ghost var s := |b.ins|;
    forall pkt: seq<Byte> ensures !b.Meaning(pkt).Go? { ClosedRuns(b, pkt); }
    var reject := b.Label(s);
    var accept := b.Label(s);
    TagGuard(b, depth, reject, s);
    EmitChecks(b, depth, kind, protocols, accept, reject, s);
    b.Mark(accept, s);
    b.Emit(Insn(Ret, 0, 0, snaplen), s);
    b.Mark(reject, s);
  }

  /** The paths of one VLAN depth, in emission order. */
  function DepthOut(o: Out, pkt: seq<Byte>, depth: nat, protocols: ProtocolSet, snaplen: nat): Out {
    var o1 := if LLDP in protocols then PathOut(o, pkt, depth, PathLLDP, protocols, snaplen) else o;
    var o2 := if CDP in protocols then PathOut(o1, pkt, depth, PathCDP, protocols, snaplen) else o1;
    if WantsUDP(protocols)
    then PathOut(PathOut(o2, pkt, depth, PathIPv4, protocols, snaplen), pkt, depth, PathIPv6, protocols, snaplen)
    else o2
  }

  function DepthsOut(pkt: seq<Byte>, n: nat, protocols: ProtocolSet, snaplen: nat): Out {
    if n == 0 then Fall(0, 0) else DepthOut(DepthsOut(pkt, n - 1, protocols, snaplen), pkt, n - 1, protocols, snaplen)
  }

  method EmitDepth(b: FilterBuilder, depth: nat, protocols: ProtocolSet, snaplen: nat)
    requires Closed(b) && depth <= MAX_VLAN_TAGS
    modifies b
    ensures Closed(b)
    ensures forall pkt :: b.Meaning(pkt) == DepthOut(old(b.Meaning(pkt)), pkt, depth, protocols, snaplen)
  {
    hide FilterBuilder.Meaning, Path, Closed;
    if LLDP in protocols { EmitProtocolPath(b, depth, PathLLDP, protocols, snaplen); }
    if CDP in protocols { EmitProtocolPath(b, depth, PathCDP, protocols, snaplen); }
    if WantsUDP(protocols) {
      EmitProtocolPath(b, depth, PathIPv4, protocols, snaplen);
      EmitProtocolPath(b, depth, PathIPv6, protocols, snaplen);
    }
  }

  /** Builds and resolves the filter; the panic on an over-long jump is unreachable, and the
      result returns snaplen for exactly the accepted packets. */
  method BuildFilter(protocols: ProtocolSet, snaplen: nat) returns (ins: seq<Insn>)
    ensures forall pkt :: Run(ins, 0, 0, 0, pkt) == if Accepts(pkt, protocols) then snaplen else 0
  {
    hide FilterBuilder.Meaning, DepthOut, Exec, Run;
    var b := new FilterBuilder();
    for depth := 0 to MAX_VLAN_TAGS + 1
      invariant Closed(b)
      invariant forall pkt :: b.Meaning(pkt) == DepthsOut(pkt, depth, protocols, snaplen)
    {
      EmitDepth(b, depth, protocols, snaplen);
    }
    b.Emit(Insn(Ret, 0, 0, 0), |b.ins|);
    var ok, out := Finish(b);
    ins := out;
    forall pkt: seq<Byte> ensures Run(ins, 0, 0, 0, pkt) == if Accepts(pkt, protocols) then snaplen else 0 {
      FilterAccepts(pkt, protocols, snaplen);
    }
  }

  /** A closed program always resolves. */
  method Finish(b: FilterBuilder) returns (ok: bool, out: seq<Insn>)
    requires b.Valid() && (forall l | 0 <= l < |b.labels| :: b.labels[l] != -1)
    requires exists s :: b.Local(s)
    modifies b
    ensures ok && forall pkt :: Run(out, 0, 0, 0, pkt) == Value(old(b.Meaning(pkt)))
  {
    assert Resolvable(b.code, b.labels) by {
      forall i | 0 <= i < |b.code| && b.code[i].Branch?
        ensures Reaches(b.labels, b.code[i].onTrue, i) && Reaches(b.labels, b.code[i].onFalse, i)
      {
        var j :| 0 <= j < |b.fixups| && b.fixups[j].index == i;
      }
    }
    ok, out := b.Resolve();
  }

  // ---------- the paths together accept exactly the declared packets ----------

  /** Behind n tags a guard lets the packet on with the last type read and X unchanged. */
  lemma {:induction false} GuardTags(pkt: seq<Byte>, n: nat, a: nat, x: nat)
    ensures var g := Guard(pkt, n, a, x);
            if TagsTo(pkt, n) then g.On? && g.x == x else g.Abort? || (g.Reject? && g.x == x)
  {
    if n > 0 {
      GuardTags(pkt, n - 1, a, x);
      if TagsTo(pkt, n) { assert TagsTo(pkt, n - 1); }
    }
  }

  /** The type field value a kind of path looks for. */
  predicate Fits(kind: PathKind, t: nat) {
    match kind
    case PathLLDP => t == ETHERTYPE_LLDP
    case PathCDP => t < 0x600
    case PathIPv4 => t == ETHERTYPE_IPV4
    case PathIPv6 => t == ETHERTYPE_IPV6
  }

  predicate KindMatch(pkt: seq<Byte>, kind: PathKind, p: nat, protocols: ProtocolSet) {
    match kind
    case PathLLDP => true
    case PathCDP => CDPMatch(pkt, p)
    case PathIPv4 => IPv4Match(pkt, p, protocols)
    case PathIPv6 => IPv6Match(pkt, p, protocols)
  }

  lemma PortsAgree(pkt: seq<Byte>, off: nat, x: nat, protocols: ProtocolSet)
    requires off + x + 2 < U32
    ensures PortCheck(pkt, off, protocols, x).Accept? == PortsMatch(pkt, off + x, protocols)
  {
  }

  lemma IPv4Agrees(pkt: seq<Byte>, t: nat, p: nat, protocols: ProtocolSet)
    requires p < 100
    ensures IPv4Check(pkt, t, p, protocols, 0).Accept? == (t == ETHERTYPE_IPV4 && IPv4Match(pkt, p, protocols))
  {
    hide PortsMatch, PortCheck, And;
    var v := LoadAt(pkt, p, 1);
    if v.Some? {
      NibbleBound(v.value);
      PortsAgree(pkt, p, 4 * And(v.value, 15), protocols);
    }
  }

  lemma IPv6Agrees(pkt: seq<Byte>, t: nat, p: nat, protocols: ProtocolSet)
    requires p < 100
    ensures IPv6Check(pkt, t, p, protocols, 0).Accept? == (t == ETHERTYPE_IPV6 && IPv6Match(pkt, p, protocols))
  {
    hide PortsMatch, PortCheck;
    PortsAgree(pkt, p + 40, 0, protocols);
  }

  /** The checks of a kind agree with what the kind declares, when X is still 0. */
  lemma BodyMatches(pkt: seq<Byte>, t: nat, p: nat, protocols: ProtocolSet, kind: PathKind)
    requires p < 100
    ensures var v := Body(pkt, kind, t, p, protocols, 0);
            if Fits(kind, t) then v.Accept? == KindMatch(pkt, kind, p, protocols) else v == Reject(t, 0)
  {
    hide IPv4Match, IPv6Match, PortCheck, LoadAt, And;
    match kind {
      case PathLLDP =>
      case PathCDP =>
      case PathIPv4 => IPv4Agrees(pkt, t, p, protocols);
      case PathIPv6 => IPv6Agrees(pkt, t, p, protocols);
    }
  }

  lemma NibbleBound(v: nat)
    ensures And(v, 15) < 16
  {
    assert Pow2(4) == 16;
    AndLowMask(v, 4);
  }

  /** A path reached at its own depth with X = 0: only the kind that fits the type field can end
      the program or change X. */
  lemma PathAtDepth(o: Out, pkt: seq<Byte>, depth: nat, kind: PathKind, protocols: ProtocolSet, snaplen: nat)
    requires depth <= MAX_VLAN_TAGS && TagsTo(pkt, depth) && o.Fall? && o.x == 0
    ensures var r := PathOut(o, pkt, depth, kind, protocols, snaplen);
            match TypeAt(pkt, depth)
            case None => r == Halt(0)
            case Some(t) =>
              if !Fits(kind, t) then r == Fall(t, 0)
              else !r.Go? && Value(r) == if KindMatch(pkt, kind, 14 + 4 * depth, protocols) then snaplen else 0
  {
    hide CDPMatch, IPv4Match, IPv6Match, Guard, Body;
    GuardTags(pkt, depth, o.a, o.x);
    if TypeAt(pkt, depth).Some? {
      var t := TypeAt(pkt, depth).value;
      BodyMatches(pkt, t, 14 + 4 * depth, protocols, kind);
    }
  }

  /** A path deeper than the packet's tags changes no result. */
  lemma PathTooDeep(o: Out, pkt: seq<Byte>, depth: nat, kind: PathKind, protocols: ProtocolSet, snaplen: nat)
    requires !TagsTo(pkt, depth) && !o.Go?
    ensures var r := PathOut(o, pkt, depth, kind, protocols, snaplen); !r.Go? && Value(r) == Value(o)
  {
    hide Guard, Body;
    if o.Fall? { GuardTags(pkt, depth, o.a, o.x); }
  }

  lemma DepthTooDeep(o: Out, pkt: seq<Byte>, depth: nat, protocols: ProtocolSet, snaplen: nat)
    requires !TagsTo(pkt, depth) && !o.Go?
    ensures var r := DepthOut(o, pkt, depth, protocols, snaplen); !r.Go? && Value(r) == Value(o)
  {
    hide PathOut;
    PathTooDeep(o, pkt, depth, PathLLDP, protocols, snaplen);
    var o1 := if LLDP in protocols then PathOut(o, pkt, depth, PathLLDP, protocols, snaplen) else o;
    PathTooDeep(o1, pkt, depth, PathCDP, protocols, snaplen);
    var o2 := if CDP in protocols then PathOut(o1, pkt, depth, PathCDP, protocols, snaplen) else o1;
    PathTooDeep(o2, pkt, depth, PathIPv4, protocols, snaplen);
    PathTooDeep(PathOut(o2, pkt, depth, PathIPv4, protocols, snaplen), pkt, depth, PathIPv6, protocols, snaplen);
  }

  /** The paths of the packet's own depth decide as MatchAt declares; a further tag leaves X at 0. */
  lemma DepthDecides(o: Out, pkt: seq<Byte>, depth: nat, protocols: ProtocolSet, snaplen: nat)
    requires depth <= MAX_VLAN_TAGS && TagsTo(pkt, depth) && o.Fall? && o.x == 0
    ensures var r := DepthOut(o, pkt, depth, protocols, snaplen);
            if TagsTo(pkt, depth + 1) then r.Fall? && r.x == 0
            else !r.Go? && Value(r) == if MatchAt(pkt, depth, protocols) then snaplen else 0
  {
    hide PathOut, CDPMatch, IPv4Match, IPv6Match;
    assert TagsTo(pkt, depth + 1) <==> TypeAt(pkt, depth).Some? && IsTag(TypeAt(pkt, depth).value);
    Later(o, pkt, depth, PathLLDP, protocols, snaplen);
    var o1 := if LLDP in protocols then PathOut(o, pkt, depth, PathLLDP, protocols, snaplen) else o;
    Later(o1, pkt, depth, PathCDP, protocols, snaplen);
    var o2 := if CDP in protocols then PathOut(o1, pkt, depth, PathCDP, protocols, snaplen) else o1;
    Later(o2, pkt, depth, PathIPv4, protocols, snaplen);
    var o3 := PathOut(o2, pkt, depth, PathIPv4, protocols, snaplen);
    Later(o3, pkt, depth, PathIPv6, protocols, snaplen);
  }

  /** PathAtDepth where it applies; once a fitting kind has run, no other kind fits. */
  lemma Later(o: Out, pkt: seq<Byte>, depth: nat, kind: PathKind, protocols: ProtocolSet, snaplen: nat)
    requires depth <= MAX_VLAN_TAGS && TagsTo(pkt, depth)
    ensures o.Halt? ==> PathOut(o, pkt, depth, kind, protocols, snaplen) == o
    ensures o.Fall? ==> var r := PathOut(o, pkt, depth, kind, protocols, snaplen);
            match TypeAt(pkt, depth)
            case None => r == Halt(0)
            case Some(t) =>
              if !Fits(kind, t) then r == Fall(t, o.x)
              else o.x == 0 ==> !r.Go? && Value(r) == if KindMatch(pkt, kind, 14 + 4 * depth, protocols) then snaplen else 0
  {
    hide CDPMatch, IPv4Match, IPv6Match, PortCheck;
    if o.Fall? {
      if o.x == 0 { PathAtDepth(o, pkt, depth, kind, protocols, snaplen); }
      GuardTags(pkt, depth, o.a, o.x);
    }
  }

  /** The number of leading tags among the first n type fields. */
  function TagCount(pkt: seq<Byte>, n: nat): (d: nat)
    ensures d <= n && TagsTo(pkt, d) && (d < n ==> !TagsTo(pkt, d + 1))
  {
    if n == 0 then 0 else
    var d := TagCount(pkt, n - 1);
    if d == n - 1 && TypeAt(pkt, d).Some? && IsTag(TypeAt(pkt, d).value) then n else d
  }

  lemma {:induction false} DepthsDecide(pkt: seq<Byte>, n: nat, protocols: ProtocolSet, snaplen: nat)
    requires n <= MAX_VLAN_TAGS + 1
    ensures var o, d := DepthsOut(pkt, n, protocols, snaplen), TagCount(pkt, n);
            if d == n then o.Fall? && o.x == 0
            else !o.Go? && Value(o) == if MatchAt(pkt, d, protocols) then snaplen else 0
  {
    hide DepthOut, MatchAt;
    if n > 0 {
      DepthsDecide(pkt, n - 1, protocols, snaplen);
      var o := DepthsOut(pkt, n - 1, protocols, snaplen);
      if TagCount(pkt, n - 1) == n - 1 {
        DepthDecides(o, pkt, n - 1, protocols, snaplen);
      } else {
        DepthTooDeep(o, pkt, n - 1, protocols, snaplen);
      }
    }
  }

  /** Only the depth just behind a packet's tags can match. */
  lemma AcceptsAtDepth(pkt: seq<Byte>, d: nat, protocols: ProtocolSet)
    requires d <= MAX_VLAN_TAGS + 1 && TagsTo(pkt, d) && (d <= MAX_VLAN_TAGS ==> !TagsTo(pkt, d + 1))
    ensures Accepts(pkt, protocols) <==> d <= MAX_VLAN_TAGS && MatchAt(pkt, d, protocols)
  {
    hide CDPMatch, IPv4Match, IPv6Match;
    assert forall e | d < e <= MAX_VLAN_TAGS :: TagsTo(pkt, e) ==> TagsTo(pkt, d + 1);
    forall e | 0 <= e < d ensures !MatchAt(pkt, e, protocols) {
      assert IsTag(TypeAt(pkt, e).value);
    }
  }

  /** All paths followed by the final return of 0: the declared packets, and no others. */
  lemma FilterAccepts(pkt: seq<Byte>, protocols: ProtocolSet, snaplen: nat)
    ensures Value(Then(DepthsOut(pkt, MAX_VLAN_TAGS + 1, protocols, snaplen), Plain(Insn(Ret, 0, 0, 0)), pkt))
            == if Accepts(pkt, protocols) then snaplen else 0
  {
    hide CDPMatch, IPv4Match, IPv6Match, DepthsOut;
    DepthsDecide(pkt, MAX_VLAN_TAGS + 1, protocols, snaplen);
    AcceptsAtDepth(pkt, TagCount(pkt, MAX_VLAN_TAGS + 1), protocols);
  }
}
