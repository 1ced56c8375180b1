/** mDNS messages: questions skipped, records framed one after the other, and each record of a known
    type kept or left out by what its data says. */
module MDNSMessages {
  import opened Model
  import opened DNSName

  const MAX_RECORDS := 256

  const TYPE_PTR := 12
  const TYPE_TXT := 16
  const TYPE_SRV := 33

  datatype Data = Address(bytes: seq<Byte>) | Target(name: seq<Byte>)
    | Server(priority: nat, weight: nat, port: nat, host: seq<Byte>) | Texts(texts: seq<Byte>)

  datatype Record = Record(name: seq<Byte>, typ: nat, class_: nat, cacheFlush: bool, ttl: nat, data: Data)

  datatype Severity = Clean | Ignored | Partial | Fatal

  function LowerName(name: seq<Byte>): (r: seq<Byte>)
    ensures |r| == |name| && forall i | 0 <= i < |r| :: r[i] == Lower(name[i])
  {
    seq(|name|, i requires 0 <= i < |name| => Lower(name[i]))
  }

  // ---------- what a packet says ----------

  /** A name within the decoder's limits stands at off, and its own bytes end at next. */
  ghost predicate NameAt(packet: seq<Byte>, off: nat, name: seq<Byte>, next: nat) {
    exists h :: Spells(packet, off, h) && WithinLimits(h) && name == Joined(Labels(h)) && next == OwnEnd(off, h)
  }

  lemma NameIsOne(packet: seq<Byte>, off: nat, a: seq<Byte>, x: nat, b: seq<Byte>, y: nat)
    requires NameAt(packet, off, a, x) && NameAt(packet, off, b, y)
    ensures a == b && x == y
  {
    hide Spells, WithinLimits, Labels, Joined, OwnEnd;
    var g :| Spells(packet, off, g) && WithinLimits(g) && a == Joined(Labels(g)) && x == OwnEnd(off, g);
    var h :| Spells(packet, off, h) && WithinLimits(h) && b == Joined(Labels(h)) && y == OwnEnd(off, h);
    SpelledOnce(packet, off, g, h);
  }

  /** A record's frame: its fixed fields, and where its data begins and ends. */
  datatype Raw = Raw(name: seq<Byte>, typ: nat, class_: nat, ttl: nat, rdata: nat, end: nat)

  ghost predicate RawAt(packet: seq<Byte>, off: nat, r: Raw) {
    exists next: nat :: NameAt(packet, off, r.name, next) && Fields(packet, next, r)
  }

  predicate Fields(packet: seq<Byte>, next: nat, r: Raw) {
    && next + 10 <= |packet|
    && r.typ == Half(packet, next) && r.class_ == Half(packet, next + 2) && r.ttl == Word(packet, next + 4)
    && r.rdata == next + 10 && r.end == r.rdata + Half(packet, next + 8) && r.end <= |packet|
  }

  lemma RawIsOne(packet: seq<Byte>, off: nat, a: Raw, b: Raw)
    requires RawAt(packet, off, a) && RawAt(packet, off, b)
    ensures a == b
  {
    hide NameAt;
    var x: nat :| NameAt(packet, off, a.name, x) && Fields(packet, x, a);
    var y: nat :| NameAt(packet, off, b.name, y) && Fields(packet, y, b);
    NameIsOne(packet, off, a.name, x, b.name, y);
  }

  /** n questions stand from off to end. */
  ghost predicate Questions(packet: seq<Byte>, off: nat, n: nat, end: nat) {
    if n == 0 then end == off
    else exists mid: nat, name, next: nat :: Questions(packet, off, n - 1, mid) && NameAt(packet, mid, name, next) && end == next + 4 && end <= |packet|
  }

  lemma {:induction false} QuestionsEndOnce(packet: seq<Byte>, off: nat, n: nat, x: nat, y: nat)
    requires Questions(packet, off, n, x) && Questions(packet, off, n, y)
    ensures x == y
  {
    hide NameAt;
    if n > 0 {
      var m: nat, a, i: nat :| Questions(packet, off, n - 1, m) && NameAt(packet, m, a, i) && x == i + 4;
      var o: nat, b, j: nat :| Questions(packet, off, n - 1, o) && NameAt(packet, o, b, j) && y == j + 4;
      QuestionsEndOnce(packet, off, n - 1, m, o);
      NameIsOne(packet, m, a, i, b, j);
    }
  }

  /** The questions of a message begin with any lesser number of them. */
  lemma {:induction false} FewerQuestions(packet: seq<Byte>, off: nat, n: nat, m: nat, end: nat)
    requires Questions(packet, off, n, end) && m < n
    ensures exists mid: nat, name, next: nat :: Questions(packet, off, m, mid) && NameAt(packet, mid, name, next) && next + 4 <= |packet|
  {
    hide NameAt;
    var mid: nat, name, next: nat :| Questions(packet, off, n - 1, mid) && NameAt(packet, mid, name, next) && end == next + 4 && end <= |packet|;
    if m < n - 1 { FewerQuestions(packet, off, n - 1, m, mid); }
  }

  function EndOf(off: nat, raws: seq<Raw>): nat { if raws == [] then off else raws[|raws| - 1].end }

  /** Records framed one after the other from off. */
  ghost predicate Framed(packet: seq<Byte>, off: nat, raws: seq<Raw>) {
    raws == [] || (Framed(packet, off, raws[..|raws| - 1]) && RawAt(packet, EndOf(off, raws[..|raws| - 1]), raws[|raws| - 1]))
  }

  lemma {:induction false} FramedOnce(packet: seq<Byte>, off: nat, raws: seq<Raw>, whole: seq<Raw>)
    requires Framed(packet, off, raws) && Framed(packet, off, whole) && |raws| <= |whole|
    ensures whole[..|raws|] == raws && (|raws| < |whole| ==> RawAt(packet, EndOf(off, raws), whole[|raws|]))
    decreases |whole|
  {
    hide RawAt;
    if |raws| < |whole| {
      var init := whole[..|whole| - 1];
      FramedOnce(packet, off, raws, init);
      assert init[..|raws|] == whole[..|raws|];
      if |raws| == |init| { assert init == raws; }
    } else if raws != [] {
      var a, b := raws[..|raws| - 1], whole[..|whole| - 1];
      FramedOnce(packet, off, a, b);
      assert a == b;
      RawIsOne(packet, EndOf(off, a), raws[|raws| - 1], whole[|whole| - 1]);
      assert raws == a + [raws[|raws| - 1]] && whole == b + [whole[|whole| - 1]];
    }
  }

  predicate Response(flags: nat) { flags / 0x8000 % 2 == 1 && flags / 0x800 % 16 == 0 && flags % 16 == 0 }

  function Count(packet: seq<Byte>): nat
    requires |packet| >= 12
  {
    Half(packet, 6) + Half(packet, 8) + Half(packet, 10)
  }

  /** The whole message: raws are its records, behind its questions. */
  ghost predicate Message(packet: seq<Byte>, raws: seq<Raw>) {
    && |packet| >= 12 && Response(Half(packet, 2)) && Half(packet, 4) <= MAX_RECORDS && Count(packet) <= MAX_RECORDS
    && |raws| == Count(packet) && exists off: nat :: Questions(packet, 12, Half(packet, 4), off) && Framed(packet, off, raws)
  }

  // ---------- what a record says ----------

  predicate Known(typ: nat) { typ == TYPE_A || typ == TYPE_AAAA || typ == TYPE_PTR || typ == TYPE_SRV || typ == TYPE_TXT }

  /** Length-prefixed strings filling b exactly. */
  predicate Strings(b: seq<Byte>)
    decreases |b|
  {
    b == [] || (1 + b[0] as int <= |b| && Strings(b[1 + b[0] as int..]))
  }

  /** The data of a record; a name in it must end where the data ends. */
  ghost predicate Says(packet: seq<Byte>, r: Raw, d: Data)
    requires r.rdata <= r.end <= |packet|
  {
    var n := r.end - r.rdata;
    if r.typ == TYPE_A then n == 4 && d == Address(packet[r.rdata..r.end])
    else if r.typ == TYPE_AAAA then n == 16 && d == Address(packet[r.rdata..r.end])
    else if r.typ == TYPE_PTR then d.Target? && TargetAt(packet, r.rdata, d.name, r.end)
    else if r.typ == TYPE_SRV then
      n >= 7 && d.Server? && d.priority == Half(packet, r.rdata) && d.weight == Half(packet, r.rdata + 2) && d.port == Half(packet, r.rdata + 4)
      && TargetAt(packet, r.rdata + 6, d.host, r.end)
    else r.typ == TYPE_TXT && Strings(packet[r.rdata..r.end]) && d == Texts(packet[r.rdata..r.end])
  }

  ghost predicate TargetAt(packet: seq<Byte>, off: nat, name: seq<Byte>, end: nat) {
    exists spelled :: NameAt(packet, off, spelled, end) && name == LowerName(spelled)
  }

  ghost predicate WellSaid(packet: seq<Byte>, r: Raw)
    requires r.rdata <= r.end <= |packet|
  {
    exists d :: Says(packet, r, d)
  }

  ghost predicate IsRecord(packet: seq<Byte>, r: Raw, record: Record)
    requires r.rdata <= r.end <= |packet|
  {
    record.name == LowerName(r.name) && record.typ == r.typ && record.class_ == r.class_ % 0x8000
    && record.cacheFlush == (r.class_ >= 0x8000) && record.ttl == r.ttl && Says(packet, r, record.data)
  }

  ghost predicate InPacket(packet: seq<Byte>, raws: seq<Raw>) { forall i | 0 <= i < |raws| :: raws[i].rdata <= raws[i].end <= |packet| }

  /** The records kept, in order: those of a known type whose data is well said. */
  ghost predicate Keeps(packet: seq<Byte>, raws: seq<Raw>, records: seq<Record>)
    requires InPacket(packet, raws)
    decreases |raws|
  {
    if raws == [] then records == []
    else
      var r := raws[|raws| - 1];
      if Known(r.typ) && WellSaid(packet, r) then
        records != [] && IsRecord(packet, r, records[|records| - 1]) && Keeps(packet, raws[..|raws| - 1], records[..|records| - 1])
      else Keeps(packet, raws[..|raws| - 1], records)
  }

  /** Some record of a known type is not well said. */
  ghost predicate Spoiled(packet: seq<Byte>, raws: seq<Raw>)
    requires InPacket(packet, raws)
  {
    exists i :: 0 <= i < |raws| && Known(raws[i].typ) && !WellSaid(packet, raws[i])
  }

  lemma {:induction false} FramedInPacket(packet: seq<Byte>, off: nat, raws: seq<Raw>)
    requires Framed(packet, off, raws)
    ensures InPacket(packet, raws)
  {
    hide NameAt, Half, Word;
    if raws != [] {
      FramedInPacket(packet, off, raws[..|raws| - 1]);
      var r := raws[|raws| - 1];
      var next: nat :| NameAt(packet, EndOf(off, raws[..|raws| - 1]), r.name, next) && Fields(packet, next, r);
      assert raws == raws[..|raws| - 1] + [r];
    }
  }

  lemma SaidOnce(packet: seq<Byte>, r: Raw, c: Data, d: Data)
    requires r.rdata <= r.end <= |packet| && Says(packet, r, c) && Says(packet, r, d)
    ensures c == d
  {
    hide NameAt, Strings, Half, LowerName;
    if r.typ == TYPE_PTR { TargetOnce(packet, r.rdata, c.name, d.name, r.end); }
    if r.typ == TYPE_SRV { TargetOnce(packet, r.rdata + 6, c.host, d.host, r.end); }
  }

  lemma TargetOnce(packet: seq<Byte>, off: nat, a: seq<Byte>, b: seq<Byte>, end: nat)
    requires TargetAt(packet, off, a, end) && TargetAt(packet, off, b, end)
    ensures a == b
  {
    hide NameAt;
    var x :| NameAt(packet, off, x, end) && a == LowerName(x);
    var y :| NameAt(packet, off, y, end) && b == LowerName(y);
    NameIsOne(packet, off, x, end, y, end);
  }

  lemma {:induction false} KeptOnce(packet: seq<Byte>, raws: seq<Raw>, a: seq<Record>, b: seq<Record>)
    requires InPacket(packet, raws) && Keeps(packet, raws, a) && Keeps(packet, raws, b)
    ensures a == b
    decreases |raws|
  {
    hide Says, Known, WellSaid, LowerName;
    if raws != [] {
      var r := raws[|raws| - 1];
      if Known(r.typ) && WellSaid(packet, r) {
        SaidOnce(packet, r, a[|a| - 1].data, b[|b| - 1].data);
        KeptOnce(packet, raws[..|raws| - 1], a[..|a| - 1], b[..|b| - 1]);
        assert a == a[..|a| - 1] + [a[|a| - 1]] && b == b[..|b| - 1] + [b[|b| - 1]];
      } else {
        KeptOnce(packet, raws[..|raws| - 1], a, b);
      }
    }
  }

  /** A packet is at most one message, and says one list of records. */
  lemma MessageIsOne(packet: seq<Byte>, v: seq<Raw>, a: seq<Record>, w: seq<Raw>, b: seq<Record>)
    requires Message(packet, v) && InPacket(packet, v) && Keeps(packet, v, a)
    requires Message(packet, w) && InPacket(packet, w) && Keeps(packet, w, b)
    ensures v == w && a == b
  {
    hide Half, RawAt, Questions, Response;
    var x: nat :| Questions(packet, 12, Half(packet, 4), x) && Framed(packet, x, v);
    var y: nat :| Questions(packet, 12, Half(packet, 4), y) && Framed(packet, y, w);
    QuestionsEndOnce(packet, 12, Half(packet, 4), x, y);
    FramedOnce(packet, x, v, w);
    assert w[..|v|] == w;
    KeptOnce(packet, v, a, b);
  }

  // ---------- the decoder ----------

  method ReadName(packet: seq<Byte>, off: nat) returns (ok: bool, name: seq<Byte>, next: nat)
    ensures ok ==> NameAt(packet, off, name, next)
    ensures !ok ==> forall n, x: nat :: !NameAt(packet, off, n, x)
  {
    hide Spells, WithinLimits, Labels, Joined, OwnEnd;
    var issue: Issue;
    ghost var hops, at;
    name, next, issue, hops, at := DecodeDNSName(packet, off);
    ok := issue.NoIssue?;
  }

  /** validateTXT. */
  method ValidateTXT(b: seq<Byte>) returns (ok: bool)
    ensures ok <==> Strings(b)
  {
    var off := 0;
    assert b[0..] == b;
    while off < |b|
      invariant 0 <= off <= |b| && (Strings(b) <==> Strings(b[off..]))
    {
      var n := b[off] as int;
      if off + 1 + n <= |b| { assert b[off..][1 + n..] == b[off + 1 + n..]; }
      off := off + 1;
      if off + n > |b| { return false; }
      off := off + n;
    }
    return true;
  }

  /** The switch over record types: the data, if it is well said. */
  method ReadData(packet: seq<Byte>, r: Raw) returns (valid: bool, d: Data)
    requires r.rdata <= r.end <= |packet| && Known(r.typ)
    ensures valid ==> Says(packet, r, d)
    ensures valid <==> WellSaid(packet, r)
  {
    hide NameAt, Strings, Half, LowerName;
    var n := r.end - r.rdata;
    var bytes := packet[r.rdata..r.end];
    d := Address([]);
    if r.typ == TYPE_A {
      return n == 4, Address(bytes);
    } else if r.typ == TYPE_AAAA {
      return n == 16, Address(bytes);
    } else if r.typ == TYPE_PTR {
      var ok, name, next := ReadName(packet, r.rdata);
      if ok { TargetOnly(packet, r.rdata, name, next); }
      valid := ok && next == r.end;
      if valid { d := Target(LowerName(name)); }
    } else if r.typ == TYPE_SRV {
      if n < 7 { return false, d; }
      var ok, name, next := ReadName(packet, r.rdata + 6);
      if ok { TargetOnly(packet, r.rdata + 6, name, next); }
      valid := ok && next == r.end;
      if valid { d := Server(Half(packet, r.rdata), Half(packet, r.rdata + 2), Half(packet, r.rdata + 4), LowerName(name)); }
    } else {
      valid := ValidateTXT(bytes);
      if valid { d := Texts(bytes); }
    }
  }

  lemma TargetOnly(packet: seq<Byte>, off: nat, name: seq<Byte>, next: nat)
    requires NameAt(packet, off, name, next)
    ensures TargetAt(packet, off, LowerName(name), next)
    ensures forall n, end: nat :: TargetAt(packet, off, n, end) ==> end == next
  {
    hide NameAt;
    forall n, end: nat | TargetAt(packet, off, n, end) ensures end == next {
      var spelled :| NameAt(packet, off, spelled, end) && n == LowerName(spelled);
      NameIsOne(packet, off, name, next, spelled, end);
    }
  }

  method SkipQuestions(packet: seq<Byte>, n: nat) returns (ok: bool, off: nat)
    ensures ok ==> Questions(packet, 12, n, off)
    ensures !ok ==> forall end: nat :: !Questions(packet, 12, n, end)
  {
    hide NameAt;
    off := 12;
    for i := 0 to n
      invariant Questions(packet, 12, i, off)
    {
      var found, name, next := ReadName(packet, off);
      if !found || next + 4 > |packet| {
        forall a, x: nat | NameAt(packet, off, a, x) ensures x + 4 > |packet| {
          if found { NameIsOne(packet, off, name, next, a, x); }
        }
        forall end: nat ensures !Questions(packet, 12, n, end) { QuestionsStop(packet, n, i, off, end); }
        return false, off;
      }
      off := next + 4;
    }
    ok := true;
  }

  lemma QuestionsStop(packet: seq<Byte>, n: nat, i: nat, off: nat, end: nat)
    requires i < n && Questions(packet, 12, i, off)
    requires forall name, next: nat :: NameAt(packet, off, name, next) ==> next + 4 > |packet|
    ensures !Questions(packet, 12, n, end)
  {
    hide NameAt;
    if Questions(packet, 12, n, end) {
      FewerQuestions(packet, 12, n, i, end);
      var mid: nat, name, next: nat :| Questions(packet, 12, i, mid) && NameAt(packet, mid, name, next) && next + 4 <= |packet|;
      QuestionsEndOnce(packet, 12, i, off, mid);
    }
  }

  /** One record's frame. */
  method ReadRaw(packet: seq<Byte>, off: nat) returns (ok: bool, r: Raw)
    ensures ok ==> RawAt(packet, off, r)
    ensures !ok ==> forall x :: !RawAt(packet, off, x)
  {
    hide NameAt, Half, Word;
    r := Raw([], 0, 0, 0, 0, 0);
    var found, name, next := ReadName(packet, off);
    if !found { return false, r; }
    forall n, x: nat | NameAt(packet, off, n, x) ensures x == next { NameIsOne(packet, off, name, next, n, x); }
    if next + 10 > |packet| { return false, r; }
    var rdata := next + 10;
    var end := rdata + Half(packet, next + 8);
    if end > |packet| { return false, r; }
    r := Raw(name, Half(packet, next), Half(packet, next + 2), Word(packet, next + 4), rdata, end);
    assert Fields(packet, next, r);
    ok := true;
  }

  /** DecodeMDNS: usable exactly for a response whose questions and records are all framed, whatever
      their types; then it keeps, in order, exactly the records of a known type whose data is well
      said, and is partial exactly if one of a known type is not. */
  method DecodeMDNS(packet: seq<Byte>) returns (severity: Severity, records: seq<Record>, ghost raws: seq<Raw>)
    ensures severity.Ignored? <==> |packet| >= 12 && !Response(Half(packet, 2))
    ensures severity.Clean? || severity.Partial? <==> exists whole :: Message(packet, whole)
    ensures severity.Clean? || severity.Partial? ==>
              Message(packet, raws) && InPacket(packet, raws) && Keeps(packet, raws, records) && |records| <= MAX_RECORDS
              && (severity.Partial? <==> Spoiled(packet, raws))
  {
    hide Half, RawAt, Response, Questions, Known, IsRecord, WellSaid;
    records, raws := [], [];
    if |packet| < 12 { return Fatal, records, raws; }
    if !Response(Half(packet, 2)) { return Ignored, records, raws; }
    var total := Count(packet);
    if Half(packet, 4) > MAX_RECORDS || total > MAX_RECORDS { return Fatal, records, raws; }
    var ok, off := SkipQuestions(packet, Half(packet, 4));
    if !ok { return Fatal, records, raws; }
    ghost var start := off;
    severity := Clean;
    for i := 0 to total
      invariant |raws| == i && Framed(packet, start, raws) && off == EndOf(start, raws)
      invariant InPacket(packet, raws) && Keeps(packet, raws, records) && |records| <= i
      invariant !severity.Fatal? && !severity.Ignored? && (severity.Partial? <==> Spoiled(packet, raws))
    {
      var found, r := ReadRaw(packet, off);
      if !found {
        NoMessage(packet, start, raws);
        return Fatal, records, raws;
      }
      Appended(packet, start, raws, r);
      if Known(r.typ) {
        var valid, d := ReadData(packet, r);
        if valid {
          var record := Record(LowerName(r.name), r.typ, r.class_ % 0x8000, r.class_ >= 0x8000, r.ttl, d);
          KeptOne(packet, raws, records, r, record);
          records := records + [record];
        } else {
          severity := Partial;
        }
      }
      raws := raws + [r];
      off := r.end;
    }
    assert Message(packet, raws);
  }

  lemma Appended(packet: seq<Byte>, off: nat, raws: seq<Raw>, r: Raw)
    requires Framed(packet, off, raws) && RawAt(packet, EndOf(off, raws), r) && InPacket(packet, raws)
    ensures Framed(packet, off, raws + [r]) && InPacket(packet, raws + [r]) && r.rdata <= r.end <= |packet|
    ensures (raws + [r])[..|raws|] == raws
    ensures Spoiled(packet, raws + [r]) <==> Spoiled(packet, raws) || (Known(r.typ) && !WellSaid(packet, r))
  {
    hide RawAt, WellSaid, Known;
    assert (raws + [r])[..|raws|] == raws;
    FramedInPacket(packet, off, raws + [r]);
    assert (raws + [r])[|raws|] == r;
    if Spoiled(packet, raws) {
      var i :| 0 <= i < |raws| && Known(raws[i].typ) && !WellSaid(packet, raws[i]);
      assert (raws + [r])[i] == raws[i];
    }
  }

  lemma KeptOne(packet: seq<Byte>, raws: seq<Raw>, records: seq<Record>, r: Raw, record: Record)
    requires InPacket(packet, raws) && Keeps(packet, raws, records) && r.rdata <= r.end <= |packet|
    requires Known(r.typ) && Says(packet, r, record.data)
    requires record == Record(LowerName(r.name), r.typ, r.class_ % 0x8000, r.class_ >= 0x8000, r.ttl, record.data)
    ensures InPacket(packet, raws + [r]) && Keeps(packet, raws + [r], records + [record])
  {
    hide Says;
    assert (raws + [r])[..|raws|] == raws && (records + [record])[..|records|] == records;
    assert WellSaid(packet, r);
  }

  /** A record that cannot be framed leaves no message. */
  lemma NoMessage(packet: seq<Byte>, off: nat, raws: seq<Raw>)
    requires |packet| >= 12 && Questions(packet, 12, Half(packet, 4), off) && Framed(packet, off, raws) && |raws| < Count(packet)
    requires forall x :: !RawAt(packet, EndOf(off, raws), x)
    ensures forall whole :: !Message(packet, whole)
  {
    hide RawAt, Questions, Half, Response;
    forall whole ensures !Message(packet, whole) {
      if Message(packet, whole) {
        var o: nat :| Questions(packet, 12, Half(packet, 4), o) && Framed(packet, o, whole);
        QuestionsEndOnce(packet, 12, Half(packet, 4), off, o);
        FramedOnce(packet, off, raws, whole);
      }
    }
  }
}
