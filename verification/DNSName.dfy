/** DNS names with compression pointers (section 4.1.4 of RFC 1035): the bounded decoder finds
    exactly the names that labels and pointers spell out within its limits. */
module DNSName {
  import opened Model

  const MAX_LABELS := 32
  const MAX_NAME := 255
  const DOT: Byte := 46

  datatype Issue = NoIssue | TooShort | TooLarge | InvalidHeader | CompressionLoop | TooManyLabels

  /** What a position of a packet says: a label, or a pointer to go on from. */
  datatype Hop = Label(text: seq<Byte>) | Pointer(target: nat)

  // ---------- what a packet spells ----------

  /** The hop at a position; None at the end of a name and where the packet is not well formed. */
  function HopAt(packet: seq<Byte>, off: nat): Option<Hop> {
    if off >= |packet| then None
    else if 1 <= packet[off] <= 63 && off + 1 + packet[off] as int <= |packet| then Some(Label(packet[off + 1..off + 1 + packet[off] as int]))
    else if packet[off] >= 192 && off + 2 <= |packet| then Some(Pointer(Half(packet, off) % 0x4000))
    else None
  }

  /** Where reading goes on after a hop. */
  function After(off: nat, hop: Hop): nat {
    match hop
    case Label(text) => off + 1 + |text|
    case Pointer(target) => target
  }

  /** Following hops from one position leads to another. */
  ghost predicate Leads(packet: seq<Byte>, off: nat, hops: seq<Hop>, to: nat)
    decreases |hops|
  {
    if hops == [] then to == off else HopAt(packet, off) == Some(hops[0]) && Leads(packet, After(off, hops[0]), hops[1..], to)
  }

  /** hops are a whole name: they lead to a terminating zero byte. */
  ghost predicate Spells(packet: seq<Byte>, off: nat, hops: seq<Hop>) {
    exists to :: Leads(packet, off, hops, to) && Terminal(packet, to)
  }

  predicate Terminal(packet: seq<Byte>, at: nat) { at < |packet| && packet[at] == 0 }

  function Labels(hops: seq<Hop>): seq<seq<Byte>> {
    if hops == [] then [] else
    Labels(hops[..|hops| - 1]) + if hops[|hops| - 1].Label? then [hops[|hops| - 1].text] else []
  }

  function Pointers(hops: seq<Hop>): nat {
    if hops == [] then 0 else Pointers(hops[..|hops| - 1]) + if hops[|hops| - 1].Pointer? then 1 else 0
  }

  /** Labels joined by dots. */
  function Joined(labels: seq<seq<Byte>>): seq<Byte> {
    if labels == [] then []
    else if |labels| == 1 then labels[0]
    else Joined(labels[..|labels| - 1]) + [DOT] + labels[|labels| - 1]
  }

  /** The end of the name's own bytes: past the first pointer, or past the zero byte. */
  function OwnEnd(off: nat, hops: seq<Hop>): nat
    decreases |hops|
  {
    if hops == [] then off + 1
    else if hops[0].Pointer? then off + 2
    else OwnEnd(After(off, hops[0]), hops[1..])
  }

  predicate WithinLimits(hops: seq<Hop>) {
    |Labels(hops)| <= MAX_LABELS && Pointers(hops) <= MAX_LABELS && |Joined(Labels(hops))| <= MAX_NAME
  }

  // ---------- hops are determined ----------

  lemma {:induction false} LeadsOn(packet: seq<Byte>, off: nat, hops: seq<Hop>, at: nat, hop: Hop)
    requires Leads(packet, off, hops, at) && HopAt(packet, at) == Some(hop)
    ensures Leads(packet, off, hops + [hop], After(at, hop))
    decreases |hops|
  {
    if hops == [] {
      assert [hop][1..] == [];
      assert hops + [hop] == [hop];
    } else {
      assert (hops + [hop])[1..] == hops[1..] + [hop];
      LeadsOn(packet, After(off, hops[0]), hops[1..], at, hop);
    }
  }

  /** Whatever a position spells goes through every position its hops lead to. */
  lemma {:induction false} OneWay(packet: seq<Byte>, off: nat, hops: seq<Hop>, at: nat, whole: seq<Hop>, end: nat)
    requires Leads(packet, off, hops, at) && Leads(packet, off, whole, end) && Terminal(packet, end)
    ensures |hops| <= |whole| && whole[..|hops|] == hops && Leads(packet, at, whole[|hops|..], end)
    decreases |hops|
  {
    if hops == [] {
      assert whole[0..] == whole;
    } else {
      assert whole != [];
      OneWay(packet, After(off, hops[0]), hops[1..], at, whole[1..], end);
      assert whole == [whole[0]] + whole[1..];
      assert whole[|hops|..] == whole[1..][|hops[1..]|..];
    }
  }

  /** A name is spelled in one way only. */
  lemma SpelledOnce(packet: seq<Byte>, off: nat, a: seq<Hop>, b: seq<Hop>)
    requires Spells(packet, off, a) && Spells(packet, off, b)
    ensures a == b
  {
    var x :| Leads(packet, off, a, x) && Terminal(packet, x);
    var y :| Leads(packet, off, b, y) && Terminal(packet, y);
    OneWay(packet, off, a, x, b, y);
    OneWay(packet, off, b, y, a, x);
    assert a[..|b|] == b && b[..|a|] == a;
  }

  lemma {:induction false} CountsGrow(hops: seq<Hop>, n: nat)
    requires n <= |hops|
    ensures |Labels(hops[..n])| <= |Labels(hops)| && Pointers(hops[..n]) <= Pointers(hops)
    ensures |Joined(Labels(hops[..n]))| <= |Joined(Labels(hops))|
    decreases |hops|
  {
    if n < |hops| {
      assert hops[..|hops| - 1][..n] == hops[..n];
      CountsGrow(hops[..|hops| - 1], n);
      assert hops == hops[..|hops| - 1] + [hops[|hops| - 1]];
      CountOne(hops[..|hops| - 1], hops[|hops| - 1]);
    } else {
      assert hops[..n] == hops;
    }
  }

  lemma CountOne(hops: seq<Hop>, hop: Hop)
    ensures Labels(hops + [hop]) == if hop.Label? then Labels(hops) + [hop.text] else Labels(hops)
    ensures Pointers(hops + [hop]) == Pointers(hops) + if hop.Pointer? then 1 else 0
    ensures hop.Label? && Labels(hops) != [] ==> Joined(Labels(hops + [hop])) == Joined(Labels(hops)) + [DOT] + hop.text
    ensures hop.Label? && Labels(hops) == [] ==> Joined(Labels(hops + [hop])) == hop.text
  {
    assert (hops + [hop])[..|hops|] == hops;
    if hop.Label? { assert (Labels(hops) + [hop.text])[..|Labels(hops)|] == Labels(hops); }
  }

  /** If the next hop breaks a limit, or there is none and no end either, nothing within the limits
      is spelled. */
  lemma NoWayOn(packet: seq<Byte>, off: nat, hops: seq<Hop>, at: nat)
    requires Leads(packet, off, hops, at) && !Terminal(packet, at)
    requires HopAt(packet, at).Some? ==> !WithinLimits(hops + [HopAt(packet, at).value])
    ensures forall whole | Spells(packet, off, whole) :: !WithinLimits(whole)
  {
    forall whole | Spells(packet, off, whole) ensures !WithinLimits(whole) {
      var end :| Leads(packet, off, whole, end) && Terminal(packet, end);
      OneWay(packet, off, hops, at, whole, end);
      var rest := whole[|hops|..];
      assert rest != [];
      assert whole[..|hops| + 1] == hops + [rest[0]];
      CountsGrow(whole, |hops| + 1);
    }
  }

  // ---------- the decoder ----------

  /** Positions and hops where decoding gave up, by issue. */
  ghost predicate Explains(packet: seq<Byte>, issue: Issue, hops: seq<Hop>, at: nat) {
    match issue
    case NoIssue => true
    case TooShort => at >= |packet| || (packet[at] >= 192 && at + 1 >= |packet|) || (1 <= packet[at] <= 63 && at + 1 + packet[at] as int > |packet|)
    case InvalidHeader => at < |packet| && 64 <= packet[at] < 192
    case CompressionLoop => HopAt(packet, at).Some? && HopAt(packet, at).value.Pointer? && Pointers(hops) == MAX_LABELS
    case TooManyLabels => HopAt(packet, at).Some? && HopAt(packet, at).value.Label? && |Labels(hops)| == MAX_LABELS
    case TooLarge => HopAt(packet, at).Some? && HopAt(packet, at).value.Label? && |Joined(Labels(hops + [HopAt(packet, at).value]))| > MAX_NAME
  }

  /** decodeDNSName: succeeds exactly when the packet spells a name within 32 labels, 32 pointers and
      255 bytes, and then returns its labels joined by dots and the end of its own bytes. */
  method DecodeDNSName(packet: seq<Byte>, start: nat) returns (name: seq<Byte>, next: nat, issue: Issue, ghost hops: seq<Hop>, ghost at: nat)
    ensures issue.NoIssue? <==> exists h :: Spells(packet, start, h) && WithinLimits(h)
    ensures issue.NoIssue? ==> Spells(packet, start, hops) && WithinLimits(hops) && name == Joined(Labels(hops)) && next == OwnEnd(start, hops)
    ensures !issue.NoIssue? ==> name == [] && next == start && Leads(packet, start, hops, at) && Explains(packet, issue, hops, at)
  {
    hide Labels, Pointers, Joined, Leads, FirstPointer, OwnEnd, Spells;
    var off: nat, end: int := start, -1;
    var labels, jumps := 0, 0;
    var dst: seq<Byte> := [];
    hops := [];
    NothingYet(packet, start);
    while true
      invariant Leads(packet, start, hops, off) && labels == |Labels(hops)| && jumps == Pointers(hops)
      invariant dst == Joined(Labels(hops)) && WithinLimits(hops) && (labels == 0 <==> dst == [])
      invariant end == FirstPointer(start, hops) && -1 <= end
      decreases 2 * MAX_LABELS - labels - jumps
    {
      at := off;
      if off >= |packet| {
        NoWayOn(packet, start, hops, off);
        return [], start, TooShort, hops, at;
      }
      var length := packet[off] as int;
      if length == 0 {
        if end < 0 { end := off + 1; }
        EndFound(packet, start, hops, off);
        return dst, end, NoIssue, hops, at;
      } else if length >= 192 {
        if off + 1 >= |packet| {
          NoWayOn(packet, start, hops, off);
          return [], start, TooShort, hops, at;
        }
        ghost var hop := Pointer(Half(packet, off) % 0x4000);
        CountOne(hops, hop);
        if jumps + 1 > MAX_LABELS {
          NoWayOn(packet, start, hops, off);
          return [], start, CompressionLoop, hops, at;
        }
        LeadsOn(packet, start, hops, off, hop);
        FirstPointerOn(packet, start, hops, off, hop);
        if end < 0 { end := off + 2; }
        off := Half(packet, off) % 0x4000;
        jumps := jumps + 1;
        hops := hops + [hop];
      } else if length >= 64 {
        NoWayOn(packet, start, hops, off);
        return [], start, InvalidHeader, hops, at;
      } else {
        if off + 1 + length > |packet| {
          NoWayOn(packet, start, hops, off);
          return [], start, TooShort, hops, at;
        }
        ghost var hop := Label(packet[off + 1..off + 1 + length]);
        CountOne(hops, hop);
        labels := labels + 1;
        if labels > MAX_LABELS {
          NoWayOn(packet, start, hops, off);
          return [], start, TooManyLabels, hops, at;
        }
        if |dst| != 0 {
          if |dst| + 1 > MAX_NAME {
            NoWayOn(packet, start, hops, off);
            return [], start, TooLarge, hops, at;
          }
          dst := dst + [DOT];
        }
        if |dst| + length > MAX_NAME {
          NoWayOn(packet, start, hops, off);
          return [], start, TooLarge, hops, at;
        }
        LeadsOn(packet, start, hops, off, hop);
        FirstPointerOn(packet, start, hops, off, hop);
        dst := dst + packet[off + 1..off + 1 + length];
        off := off + 1 + length;
        hops := hops + [hop];
      }
    }
  }

  lemma NothingYet(packet: seq<Byte>, start: nat)
    ensures Leads(packet, start, [], start) && Labels([]) == [] && Pointers([]) == 0 && Joined([]) == [] && FirstPointer(start, []) == -1
  {
  }

  /** Where the name's own bytes end if hops already hold a pointer, -1 otherwise. */
  ghost function FirstPointer(off: nat, hops: seq<Hop>): int
    decreases |hops|
  {
    if hops == [] then -1 else if hops[0].Pointer? then off + 2 else FirstPointer(After(off, hops[0]), hops[1..])
  }

  lemma {:induction false} FirstPointerOn(packet: seq<Byte>, off: nat, hops: seq<Hop>, at: nat, hop: Hop)
    requires Leads(packet, off, hops, at)
    ensures FirstPointer(off, hops + [hop]) == if FirstPointer(off, hops) >= 0 then FirstPointer(off, hops) else if hop.Pointer? then at + 2 else -1
    decreases |hops|
  {
    if hops == [] {
      assert hops + [hop] == [hop];
    } else {
      assert (hops + [hop])[1..] == hops[1..] + [hop];
      if hops[0].Label? { FirstPointerOn(packet, After(off, hops[0]), hops[1..], at, hop); }
    }
  }

  lemma {:induction false} OwnEndIs(packet: seq<Byte>, off: nat, hops: seq<Hop>, at: nat)
    requires Leads(packet, off, hops, at)
    ensures OwnEnd(off, hops) == if FirstPointer(off, hops) >= 0 then FirstPointer(off, hops) else at + 1
    decreases |hops|
  {
    if hops != [] && hops[0].Label? { OwnEndIs(packet, After(off, hops[0]), hops[1..], at); }
  }

  lemma EndFound(packet: seq<Byte>, start: nat, hops: seq<Hop>, at: nat)
    requires Leads(packet, start, hops, at) && Terminal(packet, at)
    ensures Spells(packet, start, hops)
    ensures OwnEnd(start, hops) == if FirstPointer(start, hops) >= 0 then FirstPointer(start, hops) else at + 1
  {
    OwnEndIs(packet, start, hops, at);
  }

  // ---------- the uncompressed encoding ----------

  /** Labels one after the other, each after its length byte. */
  function Flat(labels: seq<seq<Byte>>): seq<Byte> {
    if labels == [] then []
    else Flat(labels[..|labels| - 1]) + [|labels[|labels| - 1]| % 256] + labels[|labels| - 1]
  }

  function Encoded(labels: seq<seq<Byte>>): seq<Byte> { Flat(labels) + [0] }

  /** The labels of a dotted name. */
  function Split(name: seq<Byte>): (r: seq<seq<Byte>>)
    ensures r != []
  {
    if name == [] then [[]] else
    var r := Split(name[..|name| - 1]);
    if name[|name| - 1] == DOT then r + [[]] else r[..|r| - 1] + [r[|r| - 1] + [name[|name| - 1]]]
  }

  /** Splitting at dots and joining with dots are inverse. */
  lemma {:induction false} SplitJoins(name: seq<Byte>)
    ensures Joined(Split(name)) == name
  {
    if name != [] {
      var init, last := name[..|name| - 1], name[|name| - 1];
      SplitJoins(init);
      var r := Split(init);
      assert name == init + [last];
      if last == DOT {
        assert (r + [[]])[..|r|] == r;
      } else {
        var s := r[..|r| - 1] + [r[|r| - 1] + [last]];
        assert s[..|s| - 1] == r[..|r| - 1];
      }
    }
  }

  /** The encoder, over a name as written. */
  method EncodeName(name: seq<Byte>) returns (out: seq<Byte>)
    ensures out == if name == [] then [0] else Encoded(Split(name))
  {
    hide Split, Flat;
    if name == [] { return [0]; }
    out := [];
    var start: nat := 0;
    ghost var done: seq<seq<Byte>> := [];
    SplitNone(name);
    for i := 0 to |name| + 1
      invariant start <= i && out == Flat(done)
      invariant i <= |name| ==> Split(name[..i]) == done + [name[start..i]]
      invariant i > |name| ==> Split(name) == done
    {
      if i < |name| { SplitNext(name, i, done, start); }
      if i == |name| || name[i] == DOT {
        FlatNext(done, name[start..i]);
        out := out + [(i - start) % 256] + name[start..i];
        done := done + [name[start..i]];
        start := i + 1;
      }
      if i == |name| { assert name[..|name|] == name; }
    }
    out := out + [0];
  }

  lemma SplitNone(name: seq<Byte>)
    ensures Split(name[..0]) == [name[0..0]] && Flat([]) == []
  {
  }

  /** One more character: the last label grows, or a new one begins. */
  lemma SplitNext(name: seq<Byte>, i: nat, done: seq<seq<Byte>>, start: nat)
    requires start <= i < |name| && Split(name[..i]) == done + [name[start..i]]
    ensures Split(name[..i + 1]) == if name[i] == DOT then done + [name[start..i]] + [name[i + 1..i + 1]] else done + [name[start..i + 1]]
  {
    assert name[..i + 1][..i] == name[..i];
    assert (done + [name[start..i]])[..|done|] == done;
    assert name[start..i] + [name[i]] == name[start..i + 1];
    assert name[i + 1..i + 1] == [];
    assert name[..i + 1][|name[..i + 1]| - 1] == name[i];
  }

  lemma FlatNext(done: seq<seq<Byte>>, text: seq<Byte>)
    ensures Flat(done + [text]) == Flat(done) + [|text| % 256] + text
  {
    assert (done + [text])[..|done|] == done;
  }

  predicate Encodable(labels: seq<seq<Byte>>) {
    |labels| <= MAX_LABELS && |Joined(labels)| <= MAX_NAME && forall i | 0 <= i < |labels| :: 1 <= |labels[i]| <= 63
  }

  function AsHops(labels: seq<seq<Byte>>): seq<Hop> {
    seq(|labels|, i requires 0 <= i < |labels| => Label(labels[i]))
  }

  lemma {:induction false} FlatPrefix(labels: seq<seq<Byte>>, n: nat)
    requires n <= |labels|
    ensures |Flat(labels[..n])| <= |Flat(labels)| && Flat(labels)[..|Flat(labels[..n])|] == Flat(labels[..n])
    decreases |labels|
  {
    if n < |labels| {
      assert labels[..|labels| - 1][..n] == labels[..n];
      FlatPrefix(labels[..|labels| - 1], n);
    } else {
      assert labels[..n] == labels;
    }
  }

  lemma {:induction false} FlatLeads(packet: seq<Byte>, off: nat, labels: seq<seq<Byte>>, n: nat)
    requires n <= |labels| && off + |Flat(labels)| <= |packet| && packet[off..off + |Flat(labels)|] == Flat(labels)
    requires forall i | 0 <= i < |labels| :: 1 <= |labels[i]| <= 63
    ensures Leads(packet, off, AsHops(labels[..n]), off + |Flat(labels[..n])|)
    ensures Labels(AsHops(labels[..n])) == labels[..n] && Pointers(AsHops(labels[..n])) == 0
    decreases n
  {
    hide Leads, Labels, Pointers, Flat, HopAt;
    assert labels[..0] == [] && AsHops([]) == [];
    NothingYet(packet, off);
    FlatNone();
    if n > 0 {
      var m := n - 1;
      FlatLeads(packet, off, labels, m);
      FlatPrefix(labels, n);
      var f, text := Flat(labels[..m]), labels[m];
      assert labels[..n] == labels[..m] + [text];
      FlatNext(labels[..m], text);
      FlatByte(packet, off, Flat(labels), Flat(labels[..n]), f, text);
      HopThere(packet, off + |f|, text);
      assert AsHops(labels[..n]) == AsHops(labels[..m]) + [Label(text)];
      LeadsOn(packet, off, AsHops(labels[..m]), off + |f|, Label(text));
      CountOne(AsHops(labels[..m]), Label(text));
    }
  }

  lemma FlatNone()
    ensures Flat([]) == []
  {
  }

  lemma HopThere(packet: seq<Byte>, at: nat, text: seq<Byte>)
    requires 1 <= |text| <= 63 && at + 1 + |text| <= |packet| && packet[at] == |text| && packet[at + 1..at + 1 + |text|] == text
    ensures HopAt(packet, at) == Some(Label(text))
  {
  }

  lemma FlatByte(packet: seq<Byte>, off: nat, whole: seq<Byte>, upTo: seq<Byte>, f: seq<Byte>, text: seq<Byte>)
    requires off + |whole| <= |packet| && packet[off..off + |whole|] == whole
    requires |upTo| <= |whole| && whole[..|upTo|] == upTo && |text| < 256 && upTo == f + [|text|] + text
    ensures var at := off + |f|;
            at + 1 + |text| <= |packet| && packet[at] == |text| && packet[at + 1..at + 1 + |text|] == text
  {
    var at := off + |f|;
    assert packet[at] == whole[|f|] == upTo[|f|];
    forall i | 0 <= i < |text| ensures packet[at + 1 + i] == text[i] {
      assert packet[at + 1 + i] == whole[|f| + 1 + i] == upTo[|f| + 1 + i];
    }
  }

  lemma {:induction false} NoPointers(off: nat, hops: seq<Hop>)
    requires forall i | 0 <= i < |hops| :: hops[i].Label?
    ensures FirstPointer(off, hops) == -1
    decreases |hops|
  {
    if hops != [] { NoPointers(After(off, hops[0]), hops[1..]); }
  }

  /** Decoding inverts the encoder: wherever an encoded name stands in a packet, the packet spells
      that name there and no other, within the limits, and its bytes are its own. */
  lemma EncodedSpells(packet: seq<Byte>, off: nat, labels: seq<seq<Byte>>)
    requires Encodable(labels) && off + |Encoded(labels)| <= |packet| && packet[off..off + |Encoded(labels)|] == Encoded(labels)
    ensures exists h :: Spells(packet, off, h)
    ensures forall h | Spells(packet, off, h) :: WithinLimits(h) && Joined(Labels(h)) == Joined(labels) && OwnEnd(off, h) == off + |Encoded(labels)|
  {
    var n := |Flat(labels)|;
    assert packet[off..off + n] == Encoded(labels)[..n] == Flat(labels);
    assert packet[off + n] == Encoded(labels)[n];
    FlatLeads(packet, off, labels, |labels|);
    assert labels[..|labels|] == labels;
    var hops := AsHops(labels);
    NoPointers(off, hops);
    EndFound(packet, off, hops, off + n);
    forall h | Spells(packet, off, h) ensures h == hops { SpelledOnce(packet, off, h, hops); }
  }

  /** The same for a name as written: what the encoder makes of it decodes to it. */
  lemma NameSurvives(packet: seq<Byte>, off: nat, name: seq<Byte>, labels: seq<seq<Byte>>, h: seq<Hop>)
    requires labels == Split(name) && Encodable(labels) && Spells(packet, off, h)
    requires off + |Encoded(labels)| <= |packet| && packet[off..off + |Encoded(labels)|] == Encoded(labels)
    ensures WithinLimits(h) && Joined(Labels(h)) == name && OwnEnd(off, h) == off + |Encoded(labels)|
  {
    hide Encodable, Encoded, Spells, WithinLimits, Labels, Joined, OwnEnd, Split;
    EncodedSpells(packet, off, labels);
    SplitJoins(name);
  }
}
