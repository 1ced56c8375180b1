/** An mDNS message heard again: silent if and only if the store still has all of it. */
module MDNSRepeats {
  import opened Model
  import opened FusionTypes
  import opened Slabs
  import Text
  import opened Stores
  import opened Timing
  import opened Fusion
  import opened DNSCache
  import opened Observe
  import opened Observations
  import opened QuietRepeat
  import opened Expiry
  import opened Runs
  import opened TextRuns
  import opened Completeness
  import opened QuietRefreshes

  // ---------- one record, again ----------

  /** The record is cached, or is a goodbye; a host it names is known by that address and name. */
  ghost predicate Remembered(s: Store, d: int, rec: DNSRecord)
    requires d in s.info
  {
    && (rec.ttl != 0 ==> MakeKey(d, rec) in s.records.byKey)
    && (IsHost(rec) ==> Unmap(rec.address) in s.info[d].addresses && !HostNews(s.info[d], rec, 0, s.limits.alternatives))
  }

  /** Two states alike in all that decides whether a message is news. */
  ghost predicate AsKnown(s: Store, t: Store, d: int) {
    && d in s.info && d in t.info && t.records == s.records && t.limits == s.limits && t.info == s.info[d := t.info[d]]
    && t.info[d] == s.info[d].(hostName := t.info[d].hostName)
    && Text.SameSaid(s.info[d].hostName.values, t.info[d].hostName.values) && t.info[d].hostName.canonical == s.info[d].hostName.canonical
    && Text.CanonicalBest(t.info[d].hostName)
  }

  lemma RememberedAsKnown(s: Store, t: Store, d: int, rec: DNSRecord)
    requires AsKnown(s, t, d)
    ensures Remembered(s, d, rec) <==> Remembered(t, d, rec)
  {
    hide Text.MergeText;
    Text.SameNews(s.info[d].hostName, t.info[d].hostName, rec.name, {MDNS}, 2, 0, 0, s.limits.alternatives);
  }

  lemma CacheNews(s: Store, d: int, rec: DNSRecord, now: Time)
    requires Inv(s) && d in s.devices.keyOf
    ensures var r := CacheDNS(s, d, rec, now);
            && (r.1 <==> rec.ttl != 0 && MakeKey(d, rec) !in s.records.byKey)
            && (!r.1 ==> r.0.records == s.records)
  {
    hide InvGap, Latest, Ticks, AllocDNS, AddRecord, MakeKey;
  }

  /** A record changes a field exactly if it is not remembered. */
  lemma RecordNews(s: Store, d: int, records: seq<DNSRecord>, i: nat, now: Time)
    requires Inv(s) && d in s.devices.keyOf && i < |records| && d in s.info
    ensures RecordFields(s, d, records, i, now) == {} <==> Remembered(s, d, records[i])
  {
    hide InvGap, FlushSet, CacheDNS, Text.MergeText, MakeKey, JustReceived, Announced;
    ListsThere(s);
    var rec := records[i];
    FlushSetInv(s, d, s.recordOwner.lists[d], records, SetOf(rec), now);
    var t := SetFlushed(s, d, records, i, now);
    CacheNews(t, d, rec, now);
    Text.SameNews(s.info[d].hostName, s.info[d].hostName, rec.name, {MDNS}, 2, 0, now, s.limits.alternatives);
    assert FieldServices in When(true, FieldServices) && FieldAddresses in When(true, FieldAddresses) && FieldNames in When(true, FieldNames);
  }

  /** A remembered record leaves everything as known as it was. */
  lemma RecordQuiet(s: Store, d: int, records: seq<DNSRecord>, i: nat, now: Time)
    requires Inv(s) && d in s.devices.keyOf && i < |records| && d in s.info
    requires Remembered(s, d, records[i]) && Text.CanonicalBest(s.info[d].hostName)
    ensures AsKnown(s, ProcessRecord(s, d, records, i, now), d)
  {
    hide InvGap, FlushSet, CacheDNS, Text.MergeText, MakeKey, JustReceived, Announced, Text.CanonicalBest, Text.SameSaid;
    ListsThere(s);
    var rec := records[i];
    FlushSetInv(s, d, s.recordOwner.lists[d], records, SetOf(rec), now);
    var t := SetFlushed(s, d, records, i, now);
    CacheDNSInv(t, d, rec, now);
    CacheNews(t, d, rec, now);
    Text.SameNews(s.info[d].hostName, s.info[d].hostName, rec.name, {MDNS}, 2, 0, now, s.limits.alternatives) by { SelfSaid(s.info[d].hostName.values); }
    SelfSaid(s.info[d].hostName.values);
    if IsHost(rec) { Text.QuietSame(s.info[d].hostName, rec.name, {MDNS}, 2, now, s.limits.alternatives); }
  }

  lemma SelfSaid(values: seq<TextValue>)
    ensures Text.SameSaid(values, values)
  {
  }

  lemma AsKnownTwice(s: Store, t: Store, u: Store, d: int)
    requires AsKnown(s, t, d) && AsKnown(t, u, d)
    ensures AsKnown(s, u, d)
  {
    hide Text.CanonicalBest;
  }

  /** A message changes no field exactly if all its records are remembered to begin with. */
  lemma {:induction false} RecordsNews(s: Store, d: int, records: seq<DNSRecord>, n: nat, now: Time)
    requires Inv(s) && d in s.devices.keyOf && n <= |records| && d in s.info && Text.CanonicalBest(s.info[d].hostName)
    ensures AllRecordFields(s, d, records, n, now) == {} <==> forall i | 0 <= i < n :: Remembered(s, d, records[i])
    ensures AllRecordFields(s, d, records, n, now) == {} ==> AsKnown(s, ProcessRecords(s, d, records, n, now), d)
  {
    hide InvGap, ProcessRecord, RecordFields, Remembered, AsKnown, Text.CanonicalBest;
    if n == 0 {
      SelfKnown(s, d);
    } else {
      RecordsNews(s, d, records, n - 1, now);
      var t := ProcessRecords(s, d, records, n - 1, now);
      ListsThere(t);
      RecordNews(t, d, records, n - 1, now);
      if AllRecordFields(s, d, records, n - 1, now) == {} {
        RememberedAsKnown(s, t, d, records[n - 1]);
        if Remembered(t, d, records[n - 1]) {
          KnownCanonical(s, t, d);
          RecordQuiet(t, d, records, n - 1, now);
          AsKnownTwice(s, t, ProcessRecord(t, d, records, n - 1, now), d);
        }
      }
    }
  }

  lemma SelfKnown(s: Store, d: int)
    requires d in s.info && Text.CanonicalBest(s.info[d].hostName)
    ensures AsKnown(s, s, d)
  {
    hide Text.CanonicalBest;
  }

  lemma KnownCanonical(s: Store, t: Store, d: int)
    requires AsKnown(s, t, d)
    ensures Text.CanonicalBest(t.info[d].hostName)
  {
  }

  // ---------- what a message leaves behind ----------

  function Hints(meta: Meta, records: seq<DNSRecord>): seq<Addr> { if meta.sourceIP == NoAddr then AnyAddress(records) else [] }

  function HostEdits(records: seq<DNSRecord>): seq<Edit> {
    seq(|records|, i requires 0 <= i < |records| => HasAddress(if IsHost(records[i]) then records[i].address else NoAddr))
  }

  /** All a message says of its device but names. */
  function SaidOf(meta: Meta, records: seq<DNSRecord>): seq<Edit> {
    Sighting(meta) + [HasAddress(meta.sourceIP)] + HostEdits(records) + [Speaks]
  }

  ghost predicate Grown(k: DeviceInfo, r: DeviceInfo) {
    r.observedMACs == k.observedMACs && r.protocols == k.protocols && forall a | a in k.addresses :: a in r.addresses
  }

  lemma HostGrows(k: DeviceInfo, rec: DNSRecord, now: Time, max: nat)
    ensures var r := HostInfo(k, rec, now, max); Grown(k, r) && (IsHost(rec) ==> Unmap(rec.address) in r.addresses)
  {
    hide Text.MergeText;
  }

  lemma ProcessedOne(s: Store, d: int, records: seq<DNSRecord>, i: nat, now: Time)
    requires Inv(s) && d in s.devices.keyOf && i < |records| && d in s.info
    ensures var t := ProcessRecord(s, d, records, i, now);
            d in t.info && t.info[d] == HostInfo(s.info[d], records[i], now, s.limits.alternatives)
  {
    hide InvGap, FlushSet, CacheDNS, HostInfo, OthersKept, DNSCache.Settled, Complete, JustReceived, Announced;
    ListsThere(s);
    FlushSetInv(s, d, s.recordOwner.lists[d], records, SetOf(records[i]), now);
    var t := SetFlushed(s, d, records, i, now);
    CacheDNSInv(t, d, records[i], now);
  }

  lemma {:induction false} ProcessedInfo(s: Store, d: int, records: seq<DNSRecord>, n: nat, now: Time)
    requires Inv(s) && d in s.devices.keyOf && n <= |records| && d in s.info
    ensures var t := ProcessRecords(s, d, records, n, now);
            d in t.info && Grown(s.info[d], t.info[d]) && forall i | 0 <= i < n && IsHost(records[i]) :: Unmap(records[i].address) in t.info[d].addresses
  {
    hide InvGap, ProcessRecord, HostInfo;
    if n > 0 {
      ProcessedInfo(s, d, records, n - 1, now);
      var t := ProcessRecords(s, d, records, n - 1, now);
      ProcessedOne(t, d, records, n - 1, now);
      HostGrows(t.info[d], records[n - 1], now, t.limits.alternatives);
    }
  }

  lemma SightingKnown(meta: Meta, k: DeviceInfo, now: Time, later: Time, w: Setting)
    ensures AllKnown(Sighting(meta) + [HasAddress(meta.sourceIP)], ApplyAll(Sighting(meta) + [HasAddress(meta.sourceIP)], k, MDNS, now, w).0, MDNS, later, w)
  {
    hide Apply, Known, SameTarget, RepeatsOne;
    var edits := Sighting(meta) + [HasAddress(meta.sourceIP)];
    BareDistinct(edits);
    ghost var later' := if later < now then now else later;
    BareRepeats(edits, now, later');
    AppliedAllKnown(edits, edits, k, MDNS, now, later', w);
    var r := ApplyAll(edits, k, MDNS, now, w).0;
    forall i | 0 <= i < |edits| ensures Known(edits[i], r, MDNS, later, w) { BareTimeless(edits[i], r, later', later, w); }
  }

  lemma BareDistinct(edits: seq<Edit>)
    requires forall i | 0 <= i < |edits| :: Bare(edits[i])
    ensures Distinct(edits)
  {
  }

  lemma BareRepeats(edits: seq<Edit>, now: Time, later: Time)
    requires now <= later && forall i | 0 <= i < |edits| :: Bare(edits[i])
    ensures Repeats(edits, edits, now, later)
  {
  }

  lemma BareTimeless(e: Edit, k: DeviceInfo, now: Time, later: Time, w: Setting)
    requires Bare(e)
    ensures Known(e, k, MDNS, now, w) <==> Known(e, k, MDNS, later, w)
  {
  }

  lemma BareGrows(e: Edit, k: DeviceInfo, r: DeviceInfo, now: Time, w: Setting)
    requires (e.SawMAC? || e.HasAddress?) && Known(e, k, MDNS, now, w) && Grown(k, r.(protocols := k.protocols))
    ensures Known(e, r, MDNS, now, w)
  {
  }

  /** Taken in, a message's evidence is known. */
  lemma RecordedKnown(s: Store, meta: Meta, d: int, records: seq<DNSRecord>, later: Time, w: World)
    requires Inv(s) && d in s.devices.keyOf
    ensures var t := Recorded(s, meta, d, records, w);
            d in t.info && AllKnown(SaidOf(meta, records), t.info[d], MDNS, later, In(w, s.limits)) && MDNS in t.info[d].protocols
  {
    hide InvGap, ApplyAll, ProcessRecords, Known, Grown, IsHost;
    ListsThere(s);
    var sighting := Sighting(meta) + [HasAddress(meta.sourceIP)];
    var x := In(w, s.limits);
    SightingKnown(meta, s.info[d], meta.timestamp, later, x);
    var s1 := s.(info := s.info[d := ApplyAll(sighting, s.info[d], MDNS, meta.timestamp, x).0]);
    InfoInv(s, s1);
    ProcessedInfo(s1, d, records, |records|, meta.timestamp);
    var s2 := ProcessRecords(s1, d, records, |records|, meta.timestamp);
    var r := Recorded(s, meta, d, records, w).info[d];
    SpokenGrows(s2.info[d], r, meta.timestamp, x);
    var said := SaidOf(meta, records);
    forall i | 0 <= i < |said| ensures Known(said[i], r, MDNS, later, x) {
      if i < |sighting| {
        assert said[i] == sighting[i] && Known(sighting[i], s1.info[d], MDNS, later, x);
        GrownTwice(s1.info[d], s2.info[d], r);
        BareGrows(said[i], s1.info[d], r, later, x);
      } else if i < |said| - 1 {
        var j := i - |sighting|;
        assert said[i] == HostEdits(records)[j];
        HostKnown(records[j], s2.info[d], r, later, x);
      } else {
        SpeaksKnown(r, later, x);
      }
    }
  }

  lemma SpokenGrows(k: DeviceInfo, r: DeviceInfo, now: Time, w: Setting)
    requires r == Timestamped(Apply(Speaks, k, MDNS, now, w).0, now)
    ensures Grown(k, r.(protocols := k.protocols)) && MDNS in r.protocols
  {
  }

  lemma GrownTwice(k: DeviceInfo, r: DeviceInfo, q: DeviceInfo)
    requires Grown(k, r) && Grown(r, q.(protocols := r.protocols))
    ensures Grown(k, q.(protocols := k.protocols))
  {
  }

  lemma HostKnown(rec: DNSRecord, k: DeviceInfo, r: DeviceInfo, now: Time, w: Setting)
    requires IsHost(rec) ==> Unmap(rec.address) in k.addresses
    requires Grown(k, r.(protocols := k.protocols))
    ensures Known(HasAddress(if IsHost(rec) then rec.address else NoAddr), r, MDNS, now, w)
  {
  }

  lemma SpeaksKnown(k: DeviceInfo, now: Time, w: Setting)
    requires MDNS in k.protocols
    ensures Known(Speaks, k, MDNS, now, w)
  {
  }

  // ---------- the theorem ----------

  /** A message as identity hints and what it says, its link held for ttl. */
  function MessageEvidence(meta: Meta, records: seq<DNSRecord>, ttl: int): Observation {
    NO_EVIDENCE.(addresses := Hints(meta, records), edits := SaidOf(meta, records), ttl := ttl)
  }

  /** The end of an observation does not look at hints or evidence about the device. */
  lemma ConcludeOnly(s: Store, meta: Meta, d: int, changed: set<Field>, wasNew: bool, o: Observation, q: Observation, w: World)
    requires Inv(s) && d in s.devices.keyOf && q == o.(addresses := q.addresses, edits := q.edits)
    ensures Conclude(s, meta, d, changed, wasNew, q, w) == Conclude(s, meta, d, changed, wasNew, o, w)
  {
    hide InvGap, UpsertLink, ApplyLinkAll, FactsOf;
  }

  lemma MessageAbsorbed(s: Store, meta: Meta, records: seq<DNSRecord>, later: Time, w: World) returns (l: int, ttl: int)
    requires Inv(s) && meta.protocol == MDNS && IdentityKey(meta, NO_MAC, Hints(meta, records)).Some?
    ensures var t := ObservedMDNS(s, meta, records, w); var d := DeviceFor(s, meta, NO_MAC, Hints(meta, records)).1;
            && Absorbed(t, meta, MessageEvidence(meta, records, ttl), later, w, d, l)
            && l in t.link && d in t.dnsExpiry && t.link[l].expires.Get(MDNS) == Later(t.dnsExpiry[d], meta.timestamp + SECOND)
  {
    hide InvGap, DeviceFor, ApplyAll, Conclude, Recorded, AllRecordFields, AllSettled, Absorbed, IdentityKey, SaidOf, AllKnown, LinkDistinct;
    var addresses := Hints(meta, records);
    DeviceForInv(s, meta, NO_MAC, addresses);
    DeviceForResolves(s, meta, NO_MAC, addresses);
    var r := DeviceFor(s, meta, NO_MAC, addresses);
    ListsThere(r.0);
    var k := r.0.info[r.1];
    var a := ApplyAll(Sighting(meta) + [HasAddress(meta.sourceIP)], k, MDNS, meta.timestamp, In(w, s.limits));
    var s1 := r.0.(info := r.0.info[r.1 := a.0]);
    InfoInv(r.0, s1);
    RecordedInv(r.0, meta, r.1, records, w);
    RecordedKnown(r.0, meta, r.1, records, later, w);
    var t := Recorded(r.0, meta, r.1, records, w);
    ListsThere(t);
    var changed := a.1 + AllRecordFields(s1, r.1, records, |records|, meta.timestamp) + When(MDNS !in k.protocols, FieldIdentity);
    ttl := LinkTTL(t.dnsExpiry[r.1], meta.timestamp);
    var o := NO_EVIDENCE.(ttl := ttl, addresses := addresses);
    ConcludeOnly(t, meta, r.1, changed, k.protocols == {}, NO_EVIDENCE.(ttl := ttl), o, w);
    NoLinkEvidence();
    ConcludeAbsorbs(t, meta, r.1, changed, k.protocols == {}, o, MessageEvidence(meta, records, ttl), later, w);
    var u := Conclude(t, meta, r.1, changed, k.protocols == {}, o, w);
    l :| Absorbed(u, meta, MessageEvidence(meta, records, ttl), later, w, r.1, l)
         && l in u.link && u.link[l].expires.Get(meta.protocol) == meta.timestamp + Lifetime(ttl);
    var _ := ConcludeDeadline(t, meta, r.1, changed, k.protocols == {}, o, w);
  }

  lemma NoLinkEvidence()
    ensures LinkDistinct([])
  {
  }

  /** The bare evidence of a known device changes nothing of it. */
  lemma {:induction false} BareQuiet(edits: seq<Edit>, k: DeviceInfo, now: Time, w: Setting)
    requires AllKnown(edits, k, MDNS, now, w) && forall i | 0 <= i < |edits| :: edits[i].SawMAC? || edits[i].HasAddress?
    ensures ApplyAll(edits, k, MDNS, now, w) == (k, {})
    decreases |edits|
  {
    hide Text.MergeText;
    if edits != [] {
      var n := |edits| - 1;
      assert Known(edits[n], k, MDNS, now, w);
      BareQuiet(edits[..n], k, now, w);
      var none: set<Field> := {};
      assert Apply(edits[n], k, MDNS, now, w) == (k, none) && none + none == none;
    }
  }

  lemma SightingIsKnown(meta: Meta, records: seq<DNSRecord>, k: DeviceInfo, now: Time, w: Setting)
    requires AllKnown(SaidOf(meta, records), k, MDNS, now, w)
    ensures ApplyAll(Sighting(meta) + [HasAddress(meta.sourceIP)], k, MDNS, now, w) == (k, {})
  {
    hide Known, ApplyAll;
    var sighting, said := Sighting(meta) + [HasAddress(meta.sourceIP)], SaidOf(meta, records);
    forall i | 0 <= i < |sighting| ensures Known(sighting[i], k, MDNS, now, w) { assert said[i] == sighting[i]; }
    BareQuiet(sighting, k, now, w);
  }

  /** The message again, heard by a store acquainted with its device: silent if and only if all its
      records are remembered and its link is found as it says. */
  lemma AcquaintedAgain(t: Store, meta: Meta, records: seq<DNSRecord>, later: Time, w: World, d: int, ttl: int)
    requires Acquainted(t, meta, MessageEvidence(meta, records, ttl), later, w, d) && meta.protocol == MDNS
    requires Text.CanonicalBest(t.info[d].hostName)
    ensures var u := ObservedMDNS(t, meta.(timestamp := later), records, w);
            u.events == t.events <==>
              (forall i | 0 <= i < |records| :: Remembered(t, d, records[i])) && HasLink(t, meta, MessageEvidence(meta, records, ttl), later, w, d)
  {
    hide InvGap, DeviceFor, ApplyAll, Conclude, Recorded, AllRecordFields, Remembered, AllSettled, IdentityKey, Resolved, SaidOf, AllKnown,
         LinkSettled, Text.CanonicalBest, HasLink;
    var m, addresses := meta.(timestamp := later), Hints(meta, records);
    ResolvedAgain(t, meta, later, NO_MAC, addresses, d);
    DeviceForInv(t, m, NO_MAC, addresses);
    ListsThere(t);
    var k := t.info[d];
    SightingTimeless(meta, later);
    SightingIsKnown(meta, records, k, later, In(w, t.limits));
    RecordedInv(t, m, d, records, w);
    var r := Recorded(t, m, d, records, w);
    ListsThere(r);
    RecordsNews(t, d, records, |records|, later);
    var changed := AllRecordFields(t, d, records, |records|, later);
    var o := NO_EVIDENCE.(ttl := LinkTTL(r.dnsExpiry[d], later));
    IndexFacts(t);
    AgainConcludes(t, m, records, w, d);
    RecordedLinks(t, m, d, records, w);
    if changed != {} {
      ConcludeEmits(r, m, d, changed, false, o, w);
    } else if HasLink(t, meta, MessageEvidence(meta, records, ttl), later, w, d) {
      RecordedFacts(t, m, d, records, w);
      QuietConclude(t, r, meta, later, d, LinkFor(t, meta, d, SegmentPresence), o, w) by { LinkThereSettled(t, meta, records, ttl, later, w, d); }
    } else {
      NoLinkStill(t, r, meta, records, ttl, later, w, d, o);
      NoLinkEvidence();
      UpsertNews(r, meta, later, d, o, w);
      ConcludeReports(r, m, d, changed, false, o, w);
    }
  }

  lemma LinkThereSettled(t: Store, meta: Meta, records: seq<DNSRecord>, ttl: int, later: Time, w: World, d: int)
    requires d in t.devices.keyOf && d in t.linkOwner.lists && HasLink(t, meta, MessageEvidence(meta, records, ttl), later, w, d)
    ensures LinkSettled(t, meta, d, SegmentPresence, LinkFor(t, meta, d, SegmentPresence))
  {
    hide LinkFor, LinkSettled, SaidOf, Hints;
  }

  /** Records leave a missing link missing. */
  lemma NoLinkStill(t: Store, r: Store, meta: Meta, records: seq<DNSRecord>, ttl: int, later: Time, w: World, d: int, o: Observation)
    requires d in t.devices.keyOf && d in t.linkOwner.lists && LinksAlone(t, r) && r.devices == t.devices && o == NO_EVIDENCE.(ttl := o.ttl)
    requires !HasLink(t, meta, MessageEvidence(meta, records, ttl), later, w, d)
    ensures d in r.linkOwner.lists && !HasLink(r, meta, o, later, w, d)
  {
    hide SaidOf, Hints, RefreshChanges;
    SameScan(t, r, t.linkOwner.lists[d], meta.iface, PhysicalAdjacency);
  }

  /** The changes of a message from a known, resolved device are those of its records. */
  lemma AgainConcludes(t: Store, m: Meta, records: seq<DNSRecord>, w: World, d: int)
    requires Inv(t) && d in t.info && d in t.devices.keyOf && d != -1 && MDNS in t.info[d].protocols
    requires DeviceFor(t, m, NO_MAC, Hints(m, records)) == (t, d)
    requires ApplyAll(Sighting(m) + [HasAddress(m.sourceIP)], t.info[d], MDNS, m.timestamp, In(w, t.limits)) == (t.info[d], {})
    ensures var r := Recorded(t, m, d, records, w);
            && Inv(r) && d in r.devices.keyOf && d in r.dnsExpiry
            && ObservedMDNS(t, m, records, w)
               == Conclude(r, m, d, AllRecordFields(t, d, records, |records|, m.timestamp), false,
                           NO_EVIDENCE.(ttl := LinkTTL(r.dnsExpiry[d], m.timestamp)), w)
  {
    hide InvGap, DeviceFor, ApplyAll, Conclude, Recorded, AllRecordFields, AllSettled;
    RecordedInv(t, m, d, records, w);
    ListsThere(Recorded(t, m, d, records, w));
    var k := t.info[d];
    assert t.(info := t.info[d := k]) == t;
    var none: set<Field> := {};
    var changed := AllRecordFields(t, d, records, |records|, m.timestamp);
    assert none + changed + When(MDNS !in k.protocols, FieldIdentity) == changed;
    assert k.protocols != {};
  }

  lemma RecordedLinks(s: Store, meta: Meta, d: int, records: seq<DNSRecord>, w: World)
    requires Inv(s) && d in s.devices.keyOf
    ensures LinksAlone(s, Recorded(s, meta, d, records, w))
  {
    hide InvGap, ApplyAll, Apply, ProcessRecords, Timestamped;
    ListsThere(s);
    var s1 := s.(info := s.info[d := ApplyAll(Sighting(meta) + [HasAddress(meta.sourceIP)], s.info[d], MDNS, meta.timestamp, In(w, s.limits)).0]);
    InfoInv(s, s1);
    ProcessKeepsLinks(s1, d, records, |records|, meta.timestamp);
  }

  /** A message that changes no field leaves the classifier's view of the device. */
  lemma RecordedFacts(t: Store, meta: Meta, d: int, records: seq<DNSRecord>, w: World)
    requires Inv(t) && d in t.devices.keyOf && d in t.info && MDNS in t.info[d].protocols && Text.CanonicalBest(t.info[d].hostName)
    requires ApplyAll(Sighting(meta) + [HasAddress(meta.sourceIP)], t.info[d], MDNS, meta.timestamp, In(w, t.limits)) == (t.info[d], {})
    requires AllRecordFields(t, d, records, |records|, meta.timestamp) == {}
    ensures var r := Recorded(t, meta, d, records, w);
            d in r.info && FactsOf(r.info[d]) == FactsOf(t.info[d]) && r.info[d].matched == t.info[d].matched
  {
    hide InvGap, ApplyAll, ProcessRecords, AllRecordFields, Remembered, Text.CanonicalBest;
    assert t.(info := t.info[d := t.info[d]]) == t;
    RecordsNews(t, d, records, |records|, meta.timestamp);
    var u := ProcessRecords(t, d, records, |records|, meta.timestamp);
    ListsThere(u);
    SameFacts(t.info[d], u.info[d], Recorded(t, meta, d, records, w).info[d]);
  }

  lemma SameFacts(k: DeviceInfo, r: DeviceInfo, q: DeviceInfo)
    requires r == k.(hostName := r.hostName) && Text.SameSaid(k.hostName.values, r.hostName.values)
    requires q == r.(firstSeen := q.firstSeen, lastSeen := q.lastSeen)
    ensures FactsOf(q) == FactsOf(k) && q.matched == k.matched
  {
    assert ValuesOf(r.hostName.values) == ValuesOf(k.hostName.values) by {
      assert forall i | 0 <= i < |k.hostName.values| :: Text.SameButTimes(k.hostName.values[i], r.hostName.values[i]);
    }
  }

  /** With no field changed and the link settled, the end of the observation emits nothing. */
  lemma QuietConclude(t: Store, r: Store, meta: Meta, later: Time, d: int, l: int, o: Observation, w: World)
    requires Inv(r) && d in r.devices.keyOf && d in t.info && d in r.info && LinksAlone(t, r) && r.devices == t.devices
    requires LinkSettled(t, meta, d, SegmentPresence, l) && o == NO_EVIDENCE.(ttl := o.ttl)
    requires FactsOf(r.info[d]) == FactsOf(t.info[d]) && r.info[d].matched == t.info[d].matched == w.classify(FactsOf(t.info[d]))
    ensures Conclude(r, meta.(timestamp := later), d, {}, false, o, w).events == t.events
  {
    hide InvGap, UpsertLink, FactsOf, Refreshed, RefreshChanges, LinkFor;
    StaysSettled(t, r, meta, d, l);
    SettledUpsert(r, meta, later, d, SegmentPresence, o.ttl, l);
    UpsertLinkInv(r, meta.(timestamp := later), d, SegmentPresence, o.ttl);
  }

  lemma StaysSettled(t: Store, r: Store, meta: Meta, d: int, l: int)
    requires LinkSettled(t, meta, d, SegmentPresence, l) && LinksAlone(t, r) && r.devices == t.devices
    ensures LinkSettled(r, meta, d, SegmentPresence, l)
  {
    EvidenceSettled(t, r, meta, d, SegmentPresence, l);
  }

  /** An mDNS message from an unknown device is never silent. */
  lemma StrangerMDNS(s: Store, meta: Meta, records: seq<DNSRecord>, w: World)
    requires Inv(s) && Stranger(s, meta, NO_MAC, Hints(meta, records))
    ensures |ObservedMDNS(s, meta, records, w).events| > |s.events|
  {
    hide InvGap, DeviceFor, ApplyAll, Conclude, Recorded, AllRecordFields, AllSettled, Stranger, UpsertLink, ApplyLinkAll, AnyAddress;
    var addresses := Hints(meta, records);
    StrangerAdded(s, meta, NO_MAC, addresses);
    DeviceForInv(s, meta, NO_MAC, addresses);
    var r := DeviceFor(s, meta, NO_MAC, addresses);
    ListsThere(r.0);
    var k := r.0.info[r.1];
    var a := ApplyAll(Sighting(meta) + [HasAddress(meta.sourceIP)], k, MDNS, meta.timestamp, In(w, s.limits));
    var s1 := r.0.(info := r.0.info[r.1 := a.0]);
    InfoInv(r.0, s1);
    RecordedInv(r.0, meta, r.1, records, w);
    RecordedLinks(r.0, meta, r.1, records, w);
    var t := Recorded(r.0, meta, r.1, records, w);
    ListsThere(t);
    ConcludeReports(t, meta, r.1, a.1 + AllRecordFields(s1, r.1, records, |records|, meta.timestamp) + When(MDNS !in k.protocols, FieldIdentity),
                    true, NO_EVIDENCE.(ttl := LinkTTL(t.dnsExpiry[r.1], meta.timestamp)), w);
  }

  /** An identified mDNS message heard again, any number of ticks later, is silent if and only if the
      store still has all of it: its device and link stand, each record with a lifetime is cached, and
      each host name is listed, or is too weak to be. */
  lemma RefreshedMDNS(s: Store, meta: Meta, records: seq<DNSRecord>, ticks: seq<TickArgs>, later: Time, w: World)
    requires Inv(s) && TextsKept(s) && meta.protocol == MDNS && IdentityKey(meta, NO_MAC, Hints(meta, records)).Some?
    requires var t := ObservedMDNS(s, meta, records, w); Inv(t) && Quiet(t, ticks)
    ensures var u := After(ObservedMDNS(s, meta, records, w), ticks); var d := DeviceFor(s, meta, NO_MAC, Hints(meta, records)).1;
            ObservedMDNS(u, meta.(timestamp := later), records, w).events == u.events <==>
              d in u.info && (forall i | 0 <= i < |records| :: Remembered(u, d, records[i]))
              && Stands(u, meta, MessageEvidence(meta, records, 0), later, w, d)
  {
    hide InvGap, ObservedMDNS, DeviceFor, IdentityKey, TextsKept, Remembered, AllSettled, Hints, MessageEvidence, Acquainted, Absorbed, Quiet, HasLink,
         Ebbed, Stranger;
    ObservedMDNSTexts(s, meta, records, w);
    var l, ttl := MessageAbsorbed(s, meta, records, later, w);
    var d := DeviceFor(s, meta, NO_MAC, Hints(meta, records)).1;
    var t := ObservedMDNS(s, meta, records, w);
    var u := After(t, ticks);
    AbsorbedMeans(t, meta, MessageEvidence(meta, records, ttl), later, w, d, l);
    AfterEbbs(t, ticks);
    StillAcquainted(t, u, meta, MessageEvidence(meta, records, ttl), later, w, d);
    ListsThere(u);
    EvidenceHints(meta, records, ttl);
    if d in u.devices.keyOf {
      AcquaintedInv(u, meta, MessageEvidence(meta, records, ttl), later, w, d);
      StillBest(t, u, d);
      AcquaintedAgain(u, meta, records, later, w, d, ttl);
      AnyLifetime(u, meta, records, ttl, later, w, d);
    } else {
      StrangerAtAnyTime(u, meta, later, NO_MAC, Hints(meta, records));
      StrangerMDNS(u, meta.(timestamp := later), records, w);
    }
  }

  /** While its link's deadline is ahead of every tick, only the records matter: in a whole store, for
      a link under its own key, held until its device's last record expires and for at least a second. */
  lemma RecordsDecide(s: Store, meta: Meta, records: seq<DNSRecord>, ticks: seq<TickArgs>, later: Time, w: World)
    requires Inv(s) && TextsKept(s) && meta.protocol == MDNS && IdentityKey(meta, NO_MAC, Hints(meta, records)).Some?
    requires Whole(s) && !CollidingMerge(s, meta, NO_MAC, Hints(meta, records))
    requires var t := ObservedMDNS(s, meta, records, w); var d := DeviceFor(s, meta, NO_MAC, Hints(meta, records)).1;
             && Inv(t) && Quiet(t, ticks) && d in t.devices.keyOf && d in t.dnsExpiry && KeyFor(t, meta, d) in t.links.byKey
             && forall i | 0 <= i < |ticks| :: ticks[i].now < Later(t.dnsExpiry[d], meta.timestamp + SECOND)
    ensures var u := After(ObservedMDNS(s, meta, records, w), ticks); var d := DeviceFor(s, meta, NO_MAC, Hints(meta, records)).1;
            && d in u.info
            && (ObservedMDNS(u, meta.(timestamp := later), records, w).events == u.events <==>
                  forall i | 0 <= i < |records| :: Remembered(u, d, records[i]))
  {
    hide InvGap, ObservedMDNS, DeviceFor, IdentityKey, TextsKept, Remembered, AllSettled, MessageEvidence, Absorbed, Quiet, HasLink, Complete,
         CollidingMerge, AnyAddress;
    ObservedMDNSWhole(s, meta, records, w);
    var l, ttl := MessageAbsorbed(s, meta, records, later, w);
    var d := DeviceFor(s, meta, NO_MAC, Hints(meta, records)).1;
    var t := ObservedMDNS(s, meta, records, w);
    var u := After(t, ticks);
    StandsAhead(t, meta, MessageEvidence(meta, records, ttl), later, w, d, l, ticks);
    AnyLifetime(u, meta, records, ttl, later, w, d);
    ListsThere(u);
    RefreshedMDNS(s, meta, records, ticks, later, w);
  }

  lemma EvidenceHints(meta: Meta, records: seq<DNSRecord>, ttl: int)
    ensures var o := MessageEvidence(meta, records, ttl); o.claimed == NO_MAC && o.addresses == Hints(meta, records)
    ensures forall later :: Hints(meta.(timestamp := later), records) == Hints(meta, records)
  {
    hide SaidOf, AnyAddress;
  }

  lemma StillBest(t: Store, u: Store, d: int)
    requires TextsKept(t) && Ebbed(t, u) && d in u.info
    ensures Text.CanonicalBest(u.info[d].hostName)
  {
    hide SaysSame;
    HostNameBest(t, d);
  }

  lemma AnyLifetime(s: Store, meta: Meta, records: seq<DNSRecord>, ttl: int, later: Time, w: World, d: int)
    requires d in s.devices.keyOf && d in s.linkOwner.lists
    ensures HasLink(s, meta, MessageEvidence(meta, records, ttl), later, w, d) <==> HasLink(s, meta, MessageEvidence(meta, records, 0), later, w, d)
  {
    hide SaidOf, Hints, LinkSettled, LinkFor, LinkKnown;
  }

  /** At once, before any tick, device and link stand: what is left to ask is the records. */
  lemma SilentMDNS(s: Store, meta: Meta, records: seq<DNSRecord>, later: Time, w: World)
    requires Inv(s) && TextsKept(s) && meta.protocol == MDNS && IdentityKey(meta, NO_MAC, Hints(meta, records)).Some?
    ensures var t := ObservedMDNS(s, meta, records, w); var d := DeviceFor(s, meta, NO_MAC, Hints(meta, records)).1;
            Inv(t) && TextsKept(t) && d in t.info
    ensures var t := ObservedMDNS(s, meta, records, w); var d := DeviceFor(s, meta, NO_MAC, Hints(meta, records)).1;
            ObservedMDNS(t, meta.(timestamp := later), records, w).events == t.events <==> forall i | 0 <= i < |records| :: Remembered(t, d, records[i])
  {
    hide InvGap, ObservedMDNS, DeviceFor, IdentityKey, TextsKept, Remembered, AllSettled, Hints, Absorbed, Acquainted, MessageEvidence, HasLink;
    ObservedMDNSInv(s, meta, records, w);
    ObservedMDNSTexts(s, meta, records, w);
    var l, ttl := MessageAbsorbed(s, meta, records, later, w);
    var d := DeviceFor(s, meta, NO_MAC, Hints(meta, records)).1;
    var t := ObservedMDNS(s, meta, records, w);
    AbsorbedMeans(t, meta, MessageEvidence(meta, records, ttl), later, w, d, l);
    AcquaintedInv(t, meta, MessageEvidence(meta, records, ttl), later, w, d);
    HostNameBest(t, d);
    AcquaintedAgain(t, meta, records, later, w, d, ttl);
  }

  lemma HostNameBest(t: Store, d: int)
    requires TextsKept(t) && d in t.info
    ensures Text.CanonicalBest(t.info[d].hostName)
  {
    assert Text.TextOK(GetText(t.info[d], HostName), t.limits.alternatives);
  }

  // ---------- too many records, and room enough ----------

  /** The keys under which a message's records with a lifetime are cached. */
  ghost function LiveKeys(d: int, records: seq<DNSRecord>): set<DNSKey> {
    set i | 0 <= i < |records| && records[i].ttl != 0 :: MakeKey(d, records[i])
  }

  lemma {:induction false} Pigeonhole<K>(keys: set<K>, slots: map<K, int>, n: nat)
    requires keys <= slots.Keys && (forall k | k in keys :: 0 <= slots[k] < n)
    requires forall k, l | k in keys && l in keys && k != l :: slots[k] != slots[l]
    ensures |keys| <= n
    decreases n
  {
    if keys != {} {
      var k :| k in keys;
      if n > 0 && exists l :: l in keys && slots[l] == n - 1 {
        var l :| l in keys && slots[l] == n - 1;
        Pigeonhole(keys - {l}, slots, n - 1);
      } else {
        assert 0 <= slots[k] < n;
        Pigeonhole(keys, slots, n - 1);
      }
    }
  }

  lemma SlotsInRange(s: Store, key: DNSKey)
    requires Inv(s) && key in s.records.byKey
    ensures 0 <= s.records.byKey[key] < s.limits.dns && s.records.byKey[key] in s.records.keyOf && s.records.keyOf[s.records.byKey[key]] == key
  {
    hide Complete, Owned, LinkKeysAgree, LinksTimed, MaximaCached, RecordKeysAgree;
  }

  /** More records with a lifetime than the cache holds: no store remembers them all. */
  lemma SomeForgotten(s: Store, d: int, records: seq<DNSRecord>)
    requires Inv(s) && d in s.info && |LiveKeys(d, records)| > s.limits.dns
    ensures exists i :: 0 <= i < |records| && !Remembered(s, d, records[i])
  {
    hide InvGap, MakeKey, HostNews;
    if forall i | 0 <= i < |records| :: Remembered(s, d, records[i]) {
      var keys := LiveKeys(d, records);
      forall k | k in keys
        ensures k in s.records.byKey && 0 <= s.records.byKey[k] < s.limits.dns
                && s.records.byKey[k] in s.records.keyOf && s.records.keyOf[s.records.byKey[k]] == k
      {
        var i :| 0 <= i < |records| && records[i].ttl != 0 && MakeKey(d, records[i]) == k;
        assert Remembered(s, d, records[i]);
        SlotsInRange(s, k);
      }
      Pigeonhole(keys, s.records.byKey, s.limits.dns);
      assert false;
    }
  }

  /** An identified message of more records with a lifetime than the cache holds is never silent,
      however soon or late it is heard again. */
  lemma TooManyRecords(s: Store, meta: Meta, records: seq<DNSRecord>, ticks: seq<TickArgs>, later: Time, w: World)
    requires Inv(s) && TextsKept(s) && meta.protocol == MDNS && IdentityKey(meta, NO_MAC, Hints(meta, records)).Some?
    requires |LiveKeys(DeviceFor(s, meta, NO_MAC, Hints(meta, records)).1, records)| > s.limits.dns
    requires var t := ObservedMDNS(s, meta, records, w); Inv(t) && Quiet(t, ticks)
    ensures var u := After(ObservedMDNS(s, meta, records, w), ticks); ObservedMDNS(u, meta.(timestamp := later), records, w).events != u.events
  {
    hide InvGap, ObservedMDNS, DeviceFor, IdentityKey, TextsKept, Remembered, AllSettled, Hints, MessageEvidence, Quiet, Stands, Ebbed, LiveKeys;
    var d := DeviceFor(s, meta, NO_MAC, Hints(meta, records)).1;
    var t := ObservedMDNS(s, meta, records, w);
    var u := After(t, ticks);
    RefreshedMDNS(s, meta, records, ticks, later, w);
    SameLimits(s, meta, records, w);
    AfterEbbs(t, ticks);
    EbbedLimits(t, u);
    if d in u.info { SomeForgotten(u, d, records); }
  }

  lemma EbbedLimits(s: Store, t: Store)
    requires Ebbed(s, t)
    ensures t.limits == s.limits
  {
    hide SaysSame;
  }

  lemma SameLimits(s: Store, meta: Meta, records: seq<DNSRecord>, w: World)
    requires Inv(s)
    ensures ObservedMDNS(s, meta, records, w).limits == s.limits
  {
    hide InvGap, DeviceFor, ApplyAll, Conclude, Recorded, AllRecordFields, AllSettled, AnyAddress;
    var addresses := Hints(meta, records);
    DeviceForInv(s, meta, NO_MAC, addresses);
    var r := DeviceFor(s, meta, NO_MAC, addresses);
    if r.1 != -1 {
      ListsThere(r.0);
      var k := r.0.info[r.1];
      var a := ApplyAll(Sighting(meta) + [HasAddress(meta.sourceIP)], k, MDNS, meta.timestamp, In(w, s.limits));
      var s1 := r.0.(info := r.0.info[r.1 := a.0]);
      InfoInv(r.0, s1);
      RecordedInv(r.0, meta, r.1, records, w);
      var t := Recorded(r.0, meta, r.1, records, w);
      ListsThere(t);
      ConcludeInv(t, meta, r.1, a.1 + AllRecordFields(s1, r.1, records, |records|, meta.timestamp) + When(MDNS !in k.protocols, FieldIdentity),
                  k.protocols == {}, NO_EVIDENCE.(ttl := LinkTTL(t.dnsExpiry[r.1], meta.timestamp)), w);
    }
  }

  /** A record taken in while a slot is free evicts none. */
  lemma CacheRoom(s: Store, d: int, rec: DNSRecord, now: Time)
    requires Inv(s) && d in s.devices.keyOf && s.records.free != []
    ensures var t := CacheDNS(s, d, rec, now).0;
            && |t.records.free| >= |s.records.free| - 1 && s.records.byKey.Keys <= t.records.byKey.Keys
            && (rec.ttl != 0 ==> MakeKey(d, rec) in t.records.byKey)
  {
    hide InvGap, MakeKey, Latest, Ticks;
    if MakeKey(d, rec) !in s.records.byKey && rec.ttl != 0 {
      AllocDNSInv(s);
      ListsOfGap(AllocDNS(s).0, WHOLE.(record := {AllocDNS(s).1}));
      AddRecordShape(AllocDNS(s).0, AllocDNS(s).1, d, rec, now, now + rec.ttl * SECOND);
    } else {
      CacheNews(s, d, rec, now);
    }
  }

  lemma ProcessRoom(s: Store, d: int, records: seq<DNSRecord>, i: nat, now: Time)
    requires Inv(s) && d in s.devices.keyOf && i < |records| && d in s.info && s.records.free != []
    ensures var t := ProcessRecord(s, d, records, i, now);
            && |t.records.free| >= |s.records.free| - 1 && s.records.byKey.Keys <= t.records.byKey.Keys && t.limits == s.limits
            && (records[i].ttl != 0 ==> MakeKey(d, records[i]) in t.records.byKey)
  {
    hide InvGap, FlushSet, CacheDNS, HostInfo, OthersKept, DNSCache.Settled, Complete, JustReceived, Announced, MakeKey;
    ListsThere(s);
    FlushSetInv(s, d, s.recordOwner.lists[d], records, SetOf(records[i]), now);
    var t := SetFlushed(s, d, records, i, now);
    CacheDNSInv(t, d, records[i], now);
    CacheRoom(t, d, records[i], now);
  }

  ghost predicate NameListed(k: DeviceInfo, rec: DNSRecord) {
    IsHost(rec) ==> Text.Listed(k.hostName.values, rec.name, {MDNS}, 2)
  }

  lemma HostRoom(k: DeviceInfo, rec: DNSRecord, now: Time, max: nat)
    requires |k.hostName.values| < max + 1
    ensures var r := HostInfo(k, rec, now, max);
            |r.hostName.values| <= |k.hostName.values| + 1 && NameListed(r, rec) && forall q | NameListed(k, q) :: NameListed(r, q)
  {
    hide Text.MergeText, Text.Listed;
    if IsHost(rec) { Text.RoomLists(k.hostName, rec.name, {MDNS}, 2, now, max); }
  }

  /** With a free slot and a free alternative for each, records are all cached and listed. */
  lemma {:induction false} ProcessedRoom(s: Store, d: int, records: seq<DNSRecord>, n: nat, now: Time)
    requires Inv(s) && d in s.devices.keyOf && n <= |records| && d in s.info
    requires n <= |s.records.free| && |s.info[d].hostName.values| + n <= s.limits.alternatives + 1
    ensures var t := ProcessRecords(s, d, records, n, now);
            && d in t.info && |t.records.free| + n >= |s.records.free| && |t.info[d].hostName.values| <= |s.info[d].hostName.values| + n
            && t.limits == s.limits && s.records.byKey.Keys <= t.records.byKey.Keys
            && forall i | 0 <= i < n :: (records[i].ttl != 0 ==> MakeKey(d, records[i]) in t.records.byKey) && NameListed(t.info[d], records[i])
  {
    hide InvGap, ProcessRecord, HostInfo, MakeKey, NameListed;
    if n > 0 {
      ProcessedRoom(s, d, records, n - 1, now);
      var t := ProcessRecords(s, d, records, n - 1, now);
      ProcessRoom(t, d, records, n - 1, now);
      ProcessedOne(t, d, records, n - 1, now);
      HostRoom(t.info[d], records[n - 1], now, t.limits.alternatives);
    }
  }

  lemma {:induction false} SightingNames(edits: seq<Edit>, k: DeviceInfo, now: Time, w: Setting)
    requires forall i | 0 <= i < |edits| :: edits[i].SawMAC? || edits[i].HasAddress?
    ensures ApplyAll(edits, k, MDNS, now, w).0.hostName == k.hostName
    decreases |edits|
  {
    hide Text.MergeText;
    if edits != [] { SightingNames(edits[..|edits| - 1], k, now, w); }
  }

  /** Where a device has room for all of a message, it remembers all of it, and no record is evicted. */
  lemma RecordedRoom(s: Store, meta: Meta, d: int, records: seq<DNSRecord>, w: World)
    requires Inv(s) && d in s.devices.keyOf && d in s.info
    requires |records| <= |s.records.free| && |s.info[d].hostName.values| + |records| <= s.limits.alternatives + 1
    ensures var t := Recorded(s, meta, d, records, w);
            && d in t.info && (forall i | 0 <= i < |records| :: Remembered(t, d, records[i]))
            && s.records.byKey.Keys <= t.records.byKey.Keys && |t.records.free| + |records| >= |s.records.free|
  {
    hide InvGap, ApplyAll, ProcessRecords, Known, MakeKey, Text.MergeText, Text.Listed, SaidOf, AllKnown, AllSettled, Complete;
    ListsThere(s);
    var sighting := Sighting(meta) + [HasAddress(meta.sourceIP)];
    var s1 := s.(info := s.info[d := ApplyAll(sighting, s.info[d], MDNS, meta.timestamp, In(w, s.limits)).0]);
    InfoInv(s, s1);
    SightingNames(sighting, s.info[d], meta.timestamp, In(w, s.limits));
    ProcessedInfo(s1, d, records, |records|, meta.timestamp);
    ProcessedRoom(s1, d, records, |records|, meta.timestamp);
    RecordedInv(s, meta, d, records, w);
    var t := Recorded(s, meta, d, records, w);
    forall i | 0 <= i < |records| ensures Remembered(t, d, records[i]) {
      if IsHost(records[i]) { Text.ListedQuiet(t.info[d].hostName, records[i].name, {MDNS}, 2, 0, t.limits.alternatives); }
    }
  }

  /** An identified message is silent when heard again at once if, its device found, every one of its
      records has a free slot and every host name a free alternative to go to. */
  lemma RoomEnough(s: Store, meta: Meta, records: seq<DNSRecord>, later: Time, w: World)
    requires Inv(s) && TextsKept(s) && meta.protocol == MDNS && IdentityKey(meta, NO_MAC, Hints(meta, records)).Some?
    requires var r := DeviceFor(s, meta, NO_MAC, Hints(meta, records));
             r.1 in r.0.info && |records| <= |r.0.records.free| && |r.0.info[r.1].hostName.values| + |records| <= s.limits.alternatives + 1
    ensures var t := ObservedMDNS(s, meta, records, w); Inv(t) && ObservedMDNS(t, meta.(timestamp := later), records, w).events == t.events
  {
    hide InvGap, DeviceFor, ObservedMDNS, Recorded, TextsKept, Remembered, Hints, IdentityKey;
    SilentMDNS(s, meta, records, later, w);
    var addresses := Hints(meta, records);
    DeviceForInv(s, meta, NO_MAC, addresses);
    var r := DeviceFor(s, meta, NO_MAC, addresses);
    RecordedRoom(r.0, meta, r.1, records, w);
    RecordedConcluded(s, meta, records, w);
    var t := ObservedMDNS(s, meta, records, w);
    forall i | 0 <= i < |records| ensures Remembered(t, r.1, records[i]) {
      RememberedDespite(Recorded(r.0, meta, r.1, records, w), t, r.1, records[i]);
    }
  }

  lemma RememberedDespite(s: Store, t: Store, d: int, rec: DNSRecord)
    requires d in s.info && d in t.info && t.records == s.records && t.limits == s.limits
    requires t.info[d].addresses == s.info[d].addresses && t.info[d].hostName == s.info[d].hostName
    ensures Remembered(s, d, rec) <==> Remembered(t, d, rec)
  {
    hide Text.MergeText;
  }

  /** The end of an observation leaves records, addresses and names. */
  lemma RecordedConcluded(s: Store, meta: Meta, records: seq<DNSRecord>, w: World)
    requires Inv(s) && IdentityKey(meta, NO_MAC, Hints(meta, records)).Some?
    ensures var r := DeviceFor(s, meta, NO_MAC, Hints(meta, records)); Inv(r.0) && r.1 in r.0.devices.keyOf
    ensures var r := DeviceFor(s, meta, NO_MAC, Hints(meta, records)); var q := Recorded(r.0, meta, r.1, records, w);
            var t := ObservedMDNS(s, meta, records, w);
            && r.1 in q.info && r.1 in t.info && t.records == q.records && t.limits == q.limits && t.devices == q.devices
            && t.info[r.1].addresses == q.info[r.1].addresses && t.info[r.1].hostName == q.info[r.1].hostName
  {
    hide InvGap, DeviceFor, ApplyAll, Conclude, Recorded, AllRecordFields, AllSettled, AnyAddress, IdentityKey;
    var addresses := Hints(meta, records);
    DeviceForInv(s, meta, NO_MAC, addresses);
    var r := DeviceFor(s, meta, NO_MAC, addresses);
    ListsThere(r.0);
    var k := r.0.info[r.1];
    var a := ApplyAll(Sighting(meta) + [HasAddress(meta.sourceIP)], k, MDNS, meta.timestamp, In(w, s.limits));
    var s1 := r.0.(info := r.0.info[r.1 := a.0]);
    InfoInv(r.0, s1);
    RecordedInv(r.0, meta, r.1, records, w);
    var t := Recorded(r.0, meta, r.1, records, w);
    ListsThere(t);
    var changed := a.1 + AllRecordFields(s1, r.1, records, |records|, meta.timestamp) + When(MDNS !in k.protocols, FieldIdentity);
    var o := NO_EVIDENCE.(ttl := LinkTTL(t.dnsExpiry[r.1], meta.timestamp));
    ConcludeInv(t, meta, r.1, changed, k.protocols == {}, o, w);
    ConcludeInfo(t, meta, r.1, changed, k.protocols == {}, o, w);
  }
}
