/** What a whole mDNS observation leaves in its device and link, and what it reports. */
module LearnedRecords {
  import opened Model
  import opened FusionTypes
  import opened Slabs
  import Text
  import opened Stores
  import opened Timing
  import opened Fusion
  import opened DNSCache
  import opened Observe
  import opened Observations
  import opened QuietRepeat
  import opened QuietRefreshes
  import opened MDNSRepeats
  import opened Runs
  import opened Identities
  import opened Learned
  import opened LearnedMessages

  // ---------- the identity of last resort ----------

  function AddressesOf(records: seq<DNSRecord>): seq<Addr> { seq(|records|, i requires 0 <= i < |records| => records[i].address) }

  /** An mDNS message is of the device that the addresses of all its records would name. */
  lemma MDNSIdentity(meta: Meta, records: seq<DNSRecord>, key: DeviceKey)
    ensures IdentityKey(meta, NO_MAC, Hints(meta, records)) == Some(key) <==> KnownAs(meta, NO_MAC, AddressesOf(records), key)
  {
    IdentityIs(meta, NO_MAC, AddressesOf(records));
    FirstNamedAddress(records);
  }

  lemma {:induction false} FirstNamedAddress(records: seq<DNSRecord>)
    ensures FirstValid(AnyAddress(records)) == FirstValid(AddressesOf(records))
    decreases |records|
  {
    if records != [] {
      FirstNamedAddress(records[1..]);
      assert AddressesOf(records)[1..] == AddressesOf(records[1..]);
    }
  }

  // ---------- hosts ----------

  /** The record names a host by its address. */
  predicate NamesHost(rec: DNSRecord) { (rec.typ == 1 || rec.typ == 28) && rec.address != NoAddr }

  /** One of the first n records gives this address. */
  ghost predicate AddressNamed(records: seq<DNSRecord>, n: nat, a: Addr)
    requires n <= |records|
  {
    exists i :: 0 <= i < n && NamesHost(records[i]) && a == Unmapped(records[i].address)
  }

  /** The host name after the first n records: those of hosts merged in turn, with confidence 2. */
  function NamesMerged(f: TextField, records: seq<DNSRecord>, n: nat, now: Time, max: nat): TextField
    requires n <= |records|
  {
    if n == 0 then f
    else
      var g := NamesMerged(f, records, n - 1, now, max);
      if NamesHost(records[n - 1]) then Text.MergeText(g, records[n - 1].name, {MDNS}, 2, now, max).0 else g
  }

  ghost predicate HostsTaken(r: DeviceInfo, k: DeviceInfo, records: seq<DNSRecord>, n: nat, now: Time, max: nat)
    requires n <= |records|
  {
    && r == k.(addresses := r.addresses, hostName := NamesMerged(k.hostName, records, n, now, max))
    && k.addresses <= r.addresses && (forall a :: a in r.addresses <==> a in k.addresses || AddressNamed(records, n, a))
    && ((forall a | AddressNamed(records, n, a) :: a in k.addresses) ==> r.addresses == k.addresses)
  }

  lemma OneHost(r: DeviceInfo, k: DeviceInfo, records: seq<DNSRecord>, n: nat, now: Time, max: nat)
    requires n < |records| && HostsTaken(r, k, records, n, now, max)
    ensures HostsTaken(HostInfo(r, records[n], now, max), k, records, n + 1, now, max)
  {
    hide Text.MergeText;
    var q := HostInfo(r, records[n], now, max);
    forall a ensures AddressNamed(records, n + 1, a) <==> AddressNamed(records, n, a) || (NamesHost(records[n]) && a == Unmapped(records[n].address)) {}
  }

  lemma {:induction false} AllHosts(s: Store, d: int, records: seq<DNSRecord>, n: nat, now: Time)
    requires Inv(s) && d in s.devices.keyOf && n <= |records| && d in s.info
    ensures var t := ProcessRecords(s, d, records, n, now);
            d in t.info && HostsTaken(t.info[d], s.info[d], records, n, now, s.limits.alternatives) && t.info == s.info[d := t.info[d]] && t.limits == s.limits
  {
    hide InvGap, ProcessRecord, HostInfo, HostsTaken;
    if n > 0 {
      AllHosts(s, d, records, n - 1, now);
      var t := ProcessRecords(s, d, records, n - 1, now);
      ProcessedOne(t, d, records, n - 1, now);
      ProcessedOthers(t, d, records, n - 1, now);
      OneHost(t.info[d], s.info[d], records, n - 1, now, s.limits.alternatives);
    } else {
      NoHost(s.info[d], records, now, s.limits.alternatives);
      assert s.info == s.info[d := s.info[d]];
    }
  }

  lemma NoHost(k: DeviceInfo, records: seq<DNSRecord>, now: Time, max: nat)
    ensures HostsTaken(k, k, records, 0, now, max)
  {
  }

  lemma ProcessedOthers(s: Store, d: int, records: seq<DNSRecord>, i: nat, now: Time)
    requires Inv(s) && d in s.devices.keyOf && i < |records| && d in s.info
    ensures var t := ProcessRecord(s, d, records, i, now); d in t.info && t.info == s.info[d := t.info[d]] && t.limits == s.limits
  {
    hide InvGap, FlushSet, CacheDNS, HostInfo, OthersKept, DNSCache.Settled, Complete, JustReceived, DNSCache.Announced;
    ListsThere(s);
    FlushSetInv(s, d, s.recordOwner.lists[d], records, SetOf(records[i]), now);
    var t := SetFlushed(s, d, records, i, now);
    CacheDNSInv(t, d, records[i], now);
  }

  // ---------- the device ----------

  /** What an mDNS message leaves in its device: source and its vendor, the sender's address and those of hosts, their
      names, seen now, classified by what is known of it then. */
  ghost predicate MDNSLeft(r: DeviceInfo, k: DeviceInfo, meta: Meta, records: seq<DNSRecord>, w: World, max: nat) {
    && VendorLeft(r.vendor, k, Sender(meta), [], w, MDNS, meta.timestamp, max) && r.uptime == k.uptime
    && Adds(r.observedMACs, k.observedMACs, Sender(meta)) && k.observedMACs <= r.observedMACs && r.claimedMACs == k.claimedMACs && k.addresses <= r.addresses
    && (forall a :: a in r.addresses <==> a in k.addresses || (meta.sourceIP != NoAddr && a == Unmapped(meta.sourceIP)) || AddressNamed(records, |records|, a))
    && r.capabilities == k.capabilities && r.protocols == k.protocols + {MDNS}
    && r.hostName == NamesMerged(k.hostName, records, |records|, meta.timestamp, max)
    && r.systemName == k.systemName && r.protocolDeviceID == k.protocolDeviceID && r.model == k.model && r.platform == k.platform
    && r.softwareVersion == k.softwareVersion
    && meta.timestamp <= r.lastSeen && k.lastSeen <= r.lastSeen && r.lastSeen in {meta.timestamp, k.lastSeen}
    && (k.firstSeen == 0 || meta.timestamp < k.firstSeen ==> r.firstSeen == meta.timestamp) && (0 < k.firstSeen <= meta.timestamp ==> r.firstSeen == k.firstSeen)
  }

  /** What the frame says: its source, and its sender's address. */
  ghost predicate FrameLeft(r: DeviceInfo, k: DeviceInfo, meta: Meta, w: World, max: nat) {
    && r == k.(observedMACs := r.observedMACs, addresses := r.addresses, vendor := r.vendor)
    && VendorLeft(r.vendor, k, Sender(meta), [], w, MDNS, meta.timestamp, max)
    && Adds(r.observedMACs, k.observedMACs, Sender(meta)) && k.observedMACs <= r.observedMACs && k.addresses <= r.addresses
    && AddsAddresses(r.addresses, k.addresses, [meta.sourceIP])
  }

  lemma FrameTaken(k: DeviceInfo, meta: Meta, w: World, max: nat)
    ensures var a := ApplyAll(Sighting(meta) + [HasAddress(meta.sourceIP)], k, MDNS, meta.timestamp, Setting(w, max));
            && FrameLeft(a.0, k, meta, w, max) && a.1 <= {FieldIdentity, FieldAddresses, FieldVendor}
            && (FieldIdentity in a.1 <==> a.0.observedMACs != k.observedMACs) && (FieldAddresses in a.1 <==> a.0.addresses != k.addresses)
            && (FieldVendor in a.1 <==> VendorNews(k, Sender(meta), [], w, MDNS, meta.timestamp, max))
  {
    hide Text.MergeText, ApplyAll, VendorBy, VendorNews, Addresses, MACsFirst, Apply;
    var x := Setting(w, max);
    var e := Sighting(meta) + [HasAddress(meta.sourceIP)];
    assert e == BareOf(Sender(meta), [], [meta.sourceIP]) by { OneAddress(meta.sourceIP); }
    BareSays(Sender(meta), [], [meta.sourceIP]);
    forall i | 0 <= i < |e| ensures FieldNamed(e[i]) { BareNamed(e[i]); }
    AllGained(e, k, MDNS, meta.timestamp, x);
    AllDiffer(e, k, MDNS, meta.timestamp, x);
    var v := VendorLeaves(e, Sender(meta), [], k, MDNS, meta.timestamp, x);
    VendorChanged(e, Sender(meta), [], k, MDNS, meta.timestamp, x);
    BareOnly(e, k, meta.timestamp, x);
    FrameGained(ApplyAll(e, k, MDNS, meta.timestamp, x).0, k, meta, e);
  }

  lemma OneAddress(a: Addr)
    ensures Addresses([a]) == [HasAddress(a)]
  {
  }

  lemma FrameGained(r: DeviceInfo, k: DeviceInfo, meta: Meta, e: seq<Edit>)
    requires Gained(r, k, e, MDNS) && (forall x :: SawMAC(x) in e <==> x in Sender(meta)) && forall a :: HasAddress(a) in e <==> a in [meta.sourceIP]
    ensures Adds(r.observedMACs, k.observedMACs, Sender(meta)) && AddsAddresses(r.addresses, k.addresses, [meta.sourceIP])
    ensures k.observedMACs <= r.observedMACs && k.addresses <= r.addresses
  {
    forall a ensures NamesAddress(e, a) <==> exists b :: b in [meta.sourceIP] && b != NoAddr && Unmapped(b) == a {}
  }

  /** MACs and addresses change nothing else. */
  lemma {:induction false} BareOnly(edits: seq<Edit>, k: DeviceInfo, now: Time, w: Setting)
    requires forall i | 0 <= i < |edits| :: edits[i].SawMAC? || edits[i].HasAddress?
    ensures var a := ApplyAll(edits, k, MDNS, now, w);
            a.0 == k.(observedMACs := a.0.observedMACs, addresses := a.0.addresses, vendor := a.0.vendor) && a.1 <= {FieldIdentity, FieldAddresses, FieldVendor}
    decreases |edits|
  {
    hide Text.MergeText;
    if edits != [] { BareOnly(edits[..|edits| - 1], k, now, w); }
  }

  lemma SpokenMDNS(k: DeviceInfo, now: Time, w: Setting)
    ensures var r := Timestamped(Apply(Speaks, k, MDNS, now, w).0, now);
            && r == k.(protocols := k.protocols + {MDNS}, firstSeen := r.firstSeen, lastSeen := r.lastSeen)
            && now <= r.lastSeen && k.lastSeen <= r.lastSeen && r.lastSeen in {now, k.lastSeen}
            && (k.firstSeen == 0 || now < k.firstSeen ==> r.firstSeen == now) && (0 < k.firstSeen <= now ==> r.firstSeen == k.firstSeen)
  {
    TimestampedSeen(Apply(Speaks, k, MDNS, now, w).0, now);
  }

  /** Frame, hosts, and the protocol. */
  lemma LeftTogether(k: DeviceInfo, a: DeviceInfo, b: DeviceInfo, r: DeviceInfo, meta: Meta, records: seq<DNSRecord>, w: World, max: nat)
    requires FrameLeft(a, k, meta, w, max) && HostsTaken(b, a, records, |records|, meta.timestamp, max)
    requires r == Timestamped(Apply(Speaks, b, MDNS, meta.timestamp, Setting(w, max)).0, meta.timestamp)
    ensures MDNSLeft(r, k, meta, records, w, max) && r.matched == k.matched
  {
    hide VendorLeft, Apply, Timestamped, AddressNamed;
    SpokenMDNS(b, meta.timestamp, Setting(w, max));
    assert forall c :: c in [meta.sourceIP] <==> c == meta.sourceIP;
  }

  // ---------- what is reported ----------

  /** The i-th record takes a slot of the cache: it has a lifetime, and by then none is cached under its key. */
  ghost predicate Enters(s: Store, d: int, records: seq<DNSRecord>, i: nat, now: Time)
    requires Inv(s) && d in s.devices.keyOf && i < |records|
  {
    records[i].ttl != 0 && DNSKey(d, records[i].hash, records[i].typ, records[i].class_) !in ProcessRecords(s, d, records, i, now).records.byKey
  }

  /** The name of the i-th record's host is news to the names merged by then. */
  predicate NameIsNews(f: TextField, records: seq<DNSRecord>, i: nat, now: Time, max: nat)
    requires i < |records|
  {
    NamesHost(records[i]) && Text.MergeText(NamesMerged(f, records, i, now, max), records[i].name, {MDNS}, 2, now, max).1
  }

  ghost predicate RecordsTold(changed: set<Field>, s: Store, d: int, records: seq<DNSRecord>, n: nat, now: Time)
    requires Inv(s) && d in s.devices.keyOf && n <= |records| && d in s.info
  {
    && changed <= {FieldServices, FieldAddresses, FieldNames}
    && (FieldServices in changed <==> AnyEnters(s, d, records, n, now))
    && (FieldAddresses in changed <==> exists a :: a !in s.info[d].addresses && AddressNamed(records, n, a))
    && (FieldNames in changed <==> AnyNews(s.info[d].hostName, records, n, now, s.limits.alternatives))
  }

  ghost predicate AnyEnters(s: Store, d: int, records: seq<DNSRecord>, n: nat, now: Time)
    requires Inv(s) && d in s.devices.keyOf && n <= |records|
  {
    exists i: nat :: i < n && Enters(s, d, records, i, now)
  }

  ghost predicate AnyNews(f: TextField, records: seq<DNSRecord>, n: nat, now: Time, max: nat)
    requires n <= |records|
  {
    exists i: nat :: i < n && NameIsNews(f, records, i, now, max)
  }

  lemma OneMoreEnters(s: Store, d: int, records: seq<DNSRecord>, n: nat, now: Time)
    requires Inv(s) && d in s.devices.keyOf && n < |records|
    ensures AnyEnters(s, d, records, n + 1, now) <==> AnyEnters(s, d, records, n, now) || Enters(s, d, records, n, now)
  {
    hide Enters, InvGap;
  }

  lemma OneMoreNews(f: TextField, records: seq<DNSRecord>, n: nat, now: Time, max: nat)
    requires n < |records|
    ensures AnyNews(f, records, n + 1, now, max) <==> AnyNews(f, records, n, now, max) || NameIsNews(f, records, n, now, max)
  {
    hide NameIsNews;
  }

  lemma OneRecordTold(s: Store, d: int, records: seq<DNSRecord>, i: nat, now: Time)
    requires Inv(s) && d in s.devices.keyOf && i < |records| && d in s.info
    ensures var c := RecordFields(s, d, records, i, now); var rec := records[i];
            && c <= {FieldServices, FieldAddresses, FieldNames}
            && (FieldServices in c <==> rec.ttl != 0 && DNSKey(d, rec.hash, rec.typ, rec.class_) !in s.records.byKey)
            && (FieldAddresses in c <==> NamesHost(rec) && Unmapped(rec.address) !in s.info[d].addresses)
            && (FieldNames in c <==> NamesHost(rec) && Text.MergeText(s.info[d].hostName, rec.name, {MDNS}, 2, now, s.limits.alternatives).1)
  {
    hide InvGap, FlushSet, CacheDNS, Text.MergeText, JustReceived, DNSCache.Announced;
    ListsThere(s);
    FlushSetInv(s, d, s.recordOwner.lists[d], records, SetOf(records[i]), now);
    CacheNews(SetFlushed(s, d, records, i, now), d, records[i], now);
  }

  lemma {:induction false} AllRecordsTold(s: Store, d: int, records: seq<DNSRecord>, n: nat, now: Time)
    requires Inv(s) && d in s.devices.keyOf && n <= |records| && d in s.info
    ensures RecordsTold(AllRecordFields(s, d, records, n, now), s, d, records, n, now)
  {
    hide InvGap, ProcessRecord, RecordFields, NamesHost, HostInfo, Text.MergeText, AnyEnters, AnyNews, AddressNamed;
    if n > 0 {
      OneMoreEnters(s, d, records, n - 1, now);
      OneMoreNews(s.info[d].hostName, records, n - 1, now, s.limits.alternatives);
      var t := ProcessRecords(s, d, records, n - 1, now);
      AllRecordsTold(s, d, records, n - 1, now);
      AllHosts(s, d, records, n - 1, now);
      OneRecordTold(t, d, records, n - 1, now);
      MoreNamed(s.info[d], t.info[d], records, n - 1);
    } else {
      NoneTold(s, d, records, now);
    }
  }

  lemma NoneTold(s: Store, d: int, records: seq<DNSRecord>, now: Time)
    requires Inv(s) && d in s.devices.keyOf && d in s.info
    ensures RecordsTold({}, s, d, records, 0, now)
  {
    hide InvGap;
  }

  lemma MoreNamed(k: DeviceInfo, r: DeviceInfo, records: seq<DNSRecord>, n: nat)
    requires n < |records| && forall a :: a in r.addresses <==> a in k.addresses || AddressNamed(records, n, a)
    ensures (exists a :: a !in k.addresses && AddressNamed(records, n + 1, a))
            <==> (exists a :: a !in k.addresses && AddressNamed(records, n, a)) || (NamesHost(records[n]) && Unmapped(records[n].address) !in r.addresses)
  {
    forall a ensures AddressNamed(records, n + 1, a) <==> AddressNamed(records, n, a) || (NamesHost(records[n]) && a == Unmapped(records[n].address)) {}
    if NamesHost(records[n]) && Unmapped(records[n].address) !in r.addresses {
      assert AddressNamed(records, n + 1, Unmapped(records[n].address));
    }
  }

  // ---------- the whole of it ----------

  /** The fields reported are those that differ: of what was known of the device, and of the link. */
  ghost predicate MDNSFields(all: set<Field>, was: DeviceInfo, r: DeviceInfo, heard: Store, meta: Meta, d: int, records: seq<DNSRecord>, linkNews: bool, w: World)
    requires Inv(heard) && d in heard.devices.keyOf
  {
    var max := heard.limits.alternatives;
    && all <= {FieldIdentity, FieldAddresses, FieldNames, FieldServices, FieldVendor, FieldLink, FieldClassification}
    && (FieldIdentity in all <==> r.observedMACs != was.observedMACs || r.protocols != was.protocols)
    && (FieldAddresses in all <==> r.addresses != was.addresses)
    && (FieldNames in all <==> AnyNews(was.hostName, records, |records|, meta.timestamp, max))
    && (FieldServices in all <==> AnyEnters(heard, d, records, |records|, meta.timestamp))
    && (FieldVendor in all <==> VendorNews(was, Sender(meta), [], w, MDNS, meta.timestamp, max))
    && (FieldLink in all <==> linkNews) && (FieldClassification in all <==> r.matched != was.matched)
  }

  lemma FieldsTogether(was: DeviceInfo, a: (DeviceInfo, set<Field>), b: DeviceInfo, c: set<Field>, r: DeviceInfo, heard: Store, meta: Meta, d: int,
                       records: seq<DNSRecord>, linkNews: bool, w: World)
    requires Inv(heard) && d in heard.devices.keyOf && d in heard.info && heard.info[d] == a.0
    requires FrameLeft(a.0, was, meta, w, heard.limits.alternatives) && a.1 <= {FieldIdentity, FieldAddresses, FieldVendor}
    requires (FieldIdentity in a.1 <==> a.0.observedMACs != was.observedMACs) && (FieldAddresses in a.1 <==> a.0.addresses != was.addresses)
    requires FieldVendor in a.1 <==> VendorNews(was, Sender(meta), [], w, MDNS, meta.timestamp, heard.limits.alternatives)
    requires HostsTaken(b, a.0, records, |records|, meta.timestamp, heard.limits.alternatives) && RecordsTold(c, heard, d, records, |records|, meta.timestamp)
    requires r == b.(protocols := was.protocols + {MDNS}, firstSeen := r.firstSeen, lastSeen := r.lastSeen, matched := r.matched)
    ensures MDNSFields(a.1 + c + When(MDNS !in was.protocols, FieldIdentity) + When(linkNews, FieldLink) + When(r.matched != was.matched, FieldClassification),
                       was, r, heard, meta, d, records, linkNews, w)
  {
    hide InvGap, AnyEnters, AnyNews, VendorNews, VendorLeft, AddressNamed, NamesMerged;
    assert r.protocols != was.protocols <==> MDNS !in was.protocols by { assert MDNS in r.protocols; }
    assert was.addresses <= a.0.addresses <= b.addresses;
    if x :| x !in a.0.addresses && AddressNamed(records, |records|, x) { assert x in b.addresses; }
  }

  lemma RecordedLeft(s: Store, meta: Meta, d: int, records: seq<DNSRecord>, w: World)
    requires Inv(s) && d in s.devices.keyOf
    ensures d in s.info
    ensures var x := In(w, s.limits); var a := ApplyAll(Sighting(meta) + [HasAddress(meta.sourceIP)], s.info[d], MDNS, meta.timestamp, x);
            var heard := s.(info := s.info[d := a.0]);
            Inv(heard)
    ensures var x := In(w, s.limits); var a := ApplyAll(Sighting(meta) + [HasAddress(meta.sourceIP)], s.info[d], MDNS, meta.timestamp, x);
            var heard := s.(info := s.info[d := a.0]); var b := ProcessRecords(heard, d, records, |records|, meta.timestamp); var t := Recorded(s, meta, d, records, w);
            && d in b.info && HostsTaken(b.info[d], a.0, records, |records|, meta.timestamp, s.limits.alternatives)
            && d in t.info && t.info[d] == Timestamped(Apply(Speaks, b.info[d], MDNS, meta.timestamp, x).0, meta.timestamp)
            && t.info == s.info[d := t.info[d]] && t.limits == s.limits
  {
    hide InvGap, ApplyAll, ProcessRecords, Timestamped, Apply, HostsTaken;
    ListsThere(s);
    var x := In(w, s.limits);
    var a := ApplyAll(Sighting(meta) + [HasAddress(meta.sourceIP)], s.info[d], MDNS, meta.timestamp, x);
    var heard := s.(info := s.info[d := a.0]);
    InfoInv(s, heard);
    AllHosts(heard, d, records, |records|, meta.timestamp);
  }

  /** A link side that is the same leaves the same links. */
  lemma SameSide(s: Store, s1: Store, t: Store, meta: Meta, d: int, kind: LinkKind, ttl: int, l: int)
    requires s1.links == s.links && s1.link == s.link && s1.linkOwner == s.linkOwner && s1.devices == s.devices
    requires d in s.devices.keyOf && d in s.linkOwner.lists && LinkLeft(s1, t, meta, d, kind, ttl, l)
    ensures LinkLeft(s, t, meta, d, kind, ttl, l) && (NoLink(s1, meta, d, kind) <==> NoLink(s, meta, d, kind))
  {
    hide Sighted;
    assert forall i :: Joins(s1, meta.iface, d, kind, i) <==> Joins(s, meta.iface, d, kind, i);
    assert forall i :: FirstJoins(s1, meta.iface, d, kind, i) <==> FirstJoins(s, meta.iface, d, kind, i);
  }

  lemma ConcludeExpiries(s: Store, meta: Meta, d: int, changed: set<Field>, wasNew: bool, o: Observation, w: World)
    requires Inv(s) && d in s.devices.keyOf
    ensures Conclude(s, meta, d, changed, wasNew, o, w).dnsExpiry == s.dnsExpiry
  {
    hide InvGap, UpsertLink, ApplyLinkAll, FactsOf;
    UpsertLinkInv(s, meta, d, o.kind, o.ttl);
    UpsertDeadline(s, meta, d, o.kind, o.ttl);
    var u := UpsertLink(s, meta, d, o.kind, o.ttl);
    ListsThere(u.store);
    LinkThere(u.store, u.link);
  }

  /** How long the link is held: until the device's last record expires, and for a second at least. */
  ghost predicate Held(ttl: int, expiry: Time, now: Time) { SECOND <= ttl && now + ttl == if expiry > now + SECOND then expiry else now + SECOND }

  lemma HeldIs(expiry: Time, now: Time)
    ensures Held(LinkTTL(expiry, now), expiry, now)
  {
  }

  /** Device, link and event after an mDNS message, from the store with its device found. */
  ghost predicate LearnsRecords(s: Store, t: Store, meta: Meta, d: int, records: seq<DNSRecord>, w: World, heard: Store, l: int, ttl: int, before: seq<Event>, all: set<Field>) {
    && d in s.devices.keyOf && d in s.linkOwner.lists && d in s.info && d in t.info && d in t.devices.keyOf && l in t.link && l in t.links.keyOf && d in t.dnsExpiry
    && MDNSLeft(t.info[d], s.info[d], meta, records, w, s.limits.alternatives) && t.info[d].matched == w.classify(FactsOf(t.info[d]))
    && t.info == s.info[d := t.info[d]]
    && LinkLeft(s, t, meta, d, SegmentPresence, ttl, l) && Held(ttl, t.dnsExpiry[d], meta.timestamp)
    && Inv(heard) && heard == s.(info := heard.info) && heard.devices == s.devices && heard.limits == s.limits
    && MDNSFields(all, s.info[d], t.info[d], heard, meta, d, records, MDNSLinkNews(s, meta, d, l, t), w)
    && RoomMade(s, meta, d, SegmentPresence, l, before)
    && var added := s.info[d].protocols == {} || NoLink(s, meta, d, SegmentPresence);
       t.events == if all != {} || added then before + [Event(if added then Added else Changed, all, t.devices.keyOf[d], t.links.keyOf[l])] else before
  }

  /** The link is new, or heard by mDNS for the first time, or on one more VLAN. */
  ghost predicate MDNSLinkNews(s: Store, meta: Meta, d: int, l: int, t: Store)
    requires d in s.devices.keyOf && d in s.linkOwner.lists && l in t.link
  {
    NoLink(s, meta, d, SegmentPresence)
    || (l in s.link && (t.link[l].kind != s.link[l].kind || t.link[l].protocols != s.link[l].protocols || t.link[l].vlans != s.link[l].vlans))
  }

  lemma ToldNothing(r: LinkInfo, k: LinkInfo)
    requires Told(r, k, [])
    ensures r == k
  {
  }

  lemma NothingNews(s: Store, meta: Meta, d: int, l: int, t: Store, ttl: int, w: Setting)
    requires d in s.devices.keyOf && d in s.linkOwner.lists && l in t.link
    ensures LinkNews(s, meta, d, NO_EVIDENCE.(ttl := ttl), l, t.link[l], t.link[l], w) <==> MDNSLinkNews(s, meta, d, l, t)
  {
    hide NoLink;
  }

  /** A whole mDNS observation: all is what it reports, before what was reported ahead of it, heard the store with the
      message's frame taken in. */
  lemma MDNSLearned(s: Store, meta: Meta, records: seq<DNSRecord>, w: World)
    returns (heard: Store, l: int, ttl: int, before: seq<Event>, all: set<Field>)
    requires Inv(s) && meta.protocol == MDNS && IdentityKey(meta, NO_MAC, Hints(meta, records)).Some?
    ensures var r := DeviceFor(s, meta, NO_MAC, Hints(meta, records));
            LearnsRecords(r.0, ObservedMDNS(s, meta, records, w), meta, r.1, records, w, heard, l, ttl, before, all)
  {
    hide InvGap, DeviceFor, ApplyAll, Conclude, Recorded, AllRecordFields, IdentityKey, ProcessRecords, Timestamped, Apply, LinkLeft, RoomMade, FrameLeft, HostsTaken,
         MDNSLeft, MDNSFields, RecordsTold, FactsOf, NoLink, MDNSLinkNews, LinkNews, Told, LinkTTL, VendorNews, Held, LinkDistinct, InterfaceTold;
    DeviceForInv(s, meta, NO_MAC, Hints(meta, records));
    var r := DeviceFor(s, meta, NO_MAC, Hints(meta, records));
    var d, x := r.1, In(w, s.limits);
    ListsThere(r.0);
    var k := r.0.info[d];
    var a := ApplyAll(Sighting(meta) + [HasAddress(meta.sourceIP)], k, MDNS, meta.timestamp, x);
    heard := r.0.(info := r.0.info[d := a.0]);
    InfoInv(r.0, heard);
    FrameTaken(k, meta, w, s.limits.alternatives);
    RecordedLeft(r.0, meta, d, records, w);
    AllRecordsTold(heard, d, records, |records|, meta.timestamp);
    RecordedInv(r.0, meta, d, records, w);
    RecordedLinks(r.0, meta, d, records, w);
    var b := ProcessRecords(heard, d, records, |records|, meta.timestamp).info[d];
    var u := Recorded(r.0, meta, d, records, w);
    LeftTogether(k, a.0, b, u.info[d], meta, records, w, s.limits.alternatives);
    ListsThere(u);
    ttl := LinkTTL(u.dnsExpiry[d], meta.timestamp);
    HeldIs(u.dnsExpiry[d], meta.timestamp);
    var c := AllRecordFields(heard, d, records, |records|, meta.timestamp);
    var changed := a.1 + c + When(MDNS !in k.protocols, FieldIdentity);
    var o := NO_EVIDENCE.(ttl := ttl);
    NothingDistinct();
    var k1;
    l, k1, before := ConcludeLeaves(u, meta, d, changed, k.protocols == {}, o, w);
    ConcludeExpiries(u, meta, d, changed, k.protocols == {}, o, w);
    var t := ObservedMDNS(s, meta, records, w);
    assert t == Conclude(u, meta, d, changed, k.protocols == {}, o, w);
    all := MDNSConcluded(r.0, u, t, meta, d, records, w, heard, l, k1, ttl, before, a, b, c);
  }

  lemma NothingDistinct()
    ensures LinkDistinct([])
  {
  }

  lemma MDNSConcluded(s: Store, u: Store, t: Store, meta: Meta, d: int, records: seq<DNSRecord>, w: World, heard: Store, l: int, k1: LinkInfo, ttl: int, before: seq<Event>,
                      a: (DeviceInfo, set<Field>), b: DeviceInfo, c: set<Field>) returns (all: set<Field>)
    requires Inv(heard) && heard == s.(info := heard.info) && d in s.devices.keyOf && d in s.linkOwner.lists && d in s.info && d in heard.info && heard.info[d] == a.0
    requires d in u.info && d in u.devices.keyOf && d in u.linkOwner.lists && u.devices == s.devices && u.limits == s.limits && LinksAlone(s, u) && u.info == s.info[d := u.info[d]]
    requires FrameLeft(a.0, s.info[d], meta, w, s.limits.alternatives) && a.1 <= {FieldIdentity, FieldAddresses, FieldVendor}
    requires (FieldIdentity in a.1 <==> a.0.observedMACs != s.info[d].observedMACs) && (FieldAddresses in a.1 <==> a.0.addresses != s.info[d].addresses)
    requires FieldVendor in a.1 <==> VendorNews(s.info[d], Sender(meta), [], w, MDNS, meta.timestamp, s.limits.alternatives)
    requires HostsTaken(b, a.0, records, |records|, meta.timestamp, s.limits.alternatives) && RecordsTold(c, heard, d, records, |records|, meta.timestamp)
    requires u.info[d] == Timestamped(Apply(Speaks, b, MDNS, meta.timestamp, In(w, s.limits)).0, meta.timestamp)
    requires MDNSLeft(u.info[d], s.info[d], meta, records, w, s.limits.alternatives) && u.info[d].matched == s.info[d].matched
    requires l in t.link && Told(t.link[l], k1, []) && LinkLeft(u, t.(link := t.link[l := k1]), meta, d, SegmentPresence, ttl, l)
    requires t.info == u.info[d := u.info[d].(matched := w.classify(FactsOf(u.info[d])))] && d in u.dnsExpiry && t.dnsExpiry == u.dnsExpiry
    requires Held(ttl, t.dnsExpiry[d], meta.timestamp)
    requires EventLeft(u, t, meta, d, a.1 + c + When(MDNS !in s.info[d].protocols, FieldIdentity), s.info[d].protocols == {}, NO_EVIDENCE.(ttl := ttl), w, l, k1, before)
    ensures LearnsRecords(s, t, meta, d, records, w, heard, l, ttl, before, all)
  {
    hide InvGap, FrameLeft, HostsTaken, MDNSLeft, MDNSFields, RecordsTold, FactsOf, NoLink, MDNSLinkNews, LinkNews, Told, VendorNews, Held, LinkLeft, Timestamped, Apply, RoomMade;
    ToldNothing(t.link[l], k1);
    assert t.link[l := k1] == t.link;
    SameSide(s, u, t, meta, d, SegmentPresence, ttl, l);
    SameRoom(s, u, meta, d, l, before);
    NothingNews(u, meta, d, l, t, ttl, In(w, u.limits));
    SameNewsSide(s, u, meta, d, l, t);
    var news := MDNSLinkNews(s, meta, d, l, t);
    all := a.1 + c + When(MDNS !in s.info[d].protocols, FieldIdentity) + When(news, FieldLink) + When(t.info[d].matched != s.info[d].matched, FieldClassification);
    SpokenMDNS(b, meta.timestamp, In(w, s.limits));
    SetMatched(u.info[d], t.info[d], s.info[d], meta, records, w, s.limits.alternatives);
    HostsProtocols(b, a.0, s.info[d], meta, records, w, s.limits.alternatives);
    FieldsTogether(s.info[d], a, b, c, t.info[d], heard, meta, d, records, news, w);
  }

  lemma HostsProtocols(b: DeviceInfo, a: DeviceInfo, k: DeviceInfo, meta: Meta, records: seq<DNSRecord>, w: World, max: nat)
    requires FrameLeft(a, k, meta, w, max) && HostsTaken(b, a, records, |records|, meta.timestamp, max)
    ensures b.protocols == k.protocols
  {
  }

  lemma SetMatched(r: DeviceInfo, q: DeviceInfo, k: DeviceInfo, meta: Meta, records: seq<DNSRecord>, w: World, max: nat)
    requires MDNSLeft(r, k, meta, records, w, max) && q == r.(matched := w.classify(FactsOf(r)))
    ensures MDNSLeft(q, k, meta, records, w, max) && q.matched == w.classify(FactsOf(q))
  {
    hide VendorLeft, AddressNamed, NamesMerged;
    Learned.SameFacts(r, q);
  }

  lemma SameRoom(s: Store, u: Store, meta: Meta, d: int, l: int, before: seq<Event>)
    requires d in s.devices.keyOf && d in s.linkOwner.lists && u.devices == s.devices && LinksAlone(s, u) && RoomMade(u, meta, d, SegmentPresence, l, before)
    ensures RoomMade(s, meta, d, SegmentPresence, l, before) && (NoLink(u, meta, d, SegmentPresence) <==> NoLink(s, meta, d, SegmentPresence))
  {
    assert forall i :: Joins(u, meta.iface, d, SegmentPresence, i) <==> Joins(s, meta.iface, d, SegmentPresence, i);
  }

  lemma SameNewsSide(s: Store, u: Store, meta: Meta, d: int, l: int, t: Store)
    requires d in s.devices.keyOf && d in s.linkOwner.lists && u.devices == s.devices && LinksAlone(s, u) && l in t.link
    ensures MDNSLinkNews(u, meta, d, l, t) <==> MDNSLinkNews(s, meta, d, l, t)
  {
    assert forall i :: Joins(u, meta.iface, d, SegmentPresence, i) <==> Joins(s, meta.iface, d, SegmentPresence, i);
  }
}
