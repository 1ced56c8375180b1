/** The fusion store in place: slabs of entries, freelists, hash indexes, and two timing wheels
    threaded through the slots. Every method is proved against its operation on Stores.Store. */
module FusionStates {
  import opened Model
  import opened FusionTypes
  import opened Slabs
  import opened Stores
  import opened Timing
  import opened Fusion
  import opened DNSCache
  import opened Observe
  import opened Observations
  import opened Expiry
  import opened Runs
  import opened Evidence

  datatype DeviceEntry = DeviceEntry(used: bool, key: DeviceKey, info: DeviceInfo, links: seq<int>, dns: seq<int>, dnsExpiry: Time)

  datatype LinkEntry = LinkEntry(used: bool, key: LinkKey, info: LinkInfo, device: int)

  datatype DNSEntry = DNSEntry(used: bool, key: DNSKey, record: DNSRecord, device: int, expiresAt: Time)

  const NO_DEVICE := DeviceEntry(false, IPKey(NoAddr, 0), NewInfo(0), [], [], 0)

  const NO_LINK := LinkEntry(false, LinkKey(0, [0, 0, 0, 0, 0, 0], IPKey(NoAddr, 0)),
    LinkInfo(SegmentPresence, [], IPKey(NoAddr, 0), [0, 0, 0, 0, 0, 0], Identifier(0, []), Identifier(0, []), NO_TEXT,
             [], {}, 0, 0, 0, 0, NO_DEADLINES), -1)

  const NO_RECORD := DNSEntry(false, DNSKey(-1, (0, 0), 0, 0), DNSRecord([], 0, 0, false, 0, NoAddr, (0, 0)), -1, 0)

  // ---------- what a slab says of its used slots ----------

  function Column<E, V>(es: seq<E>, used: E -> bool, get: E -> V): map<int, V> {
    map i | 0 <= i < |es| && used(es[i]) :: get(es[i])
  }

  function DeviceUsed(e: DeviceEntry): bool { e.used }
  function DeviceKeyOf(e: DeviceEntry): DeviceKey { e.key }
  function DeviceInfoOf(e: DeviceEntry): DeviceInfo { e.info }
  function LinksOf(e: DeviceEntry): seq<int> { e.links }
  function DNSOf(e: DeviceEntry): seq<int> { e.dns }
  function DNSExpiryOf(e: DeviceEntry): Time { e.dnsExpiry }
  function LinkUsed(e: LinkEntry): bool { e.used }
  function LinkKeyOf(e: LinkEntry): LinkKey { e.key }
  function LinkInfoOf(e: LinkEntry): LinkInfo { e.info }
  function LinkDeviceOf(e: LinkEntry): int { e.device }
  function DNSUsed(e: DNSEntry): bool { e.used }
  function DNSKeyOf(e: DNSEntry): DNSKey { e.key }
  function RecordOf(e: DNSEntry): DNSRecord { e.record }
  function DNSDeviceOf(e: DNSEntry): int { e.device }
  function ExpiresAtOf(e: DNSEntry): Time { e.expiresAt }

  /** A column after one slot is written. */
  function Put<V>(m: map<int, V>, i: int, used: bool, v: V): map<int, V> { if used then m[i := v] else m - {i} }

  lemma ColumnWritten<E, V>(es: seq<E>, used: E -> bool, get: E -> V, i: nat, e: E)
    requires i < |es|
    ensures Column(es[i := e], used, get) == Put(Column(es, used, get), i, used(e), get(e))
    ensures used(es[i]) && used(e) && get(e) == get(es[i]) ==> Column(es[i := e], used, get) == Column(es, used, get)
  {
  }

  lemma ColumnFree<E, V>(es: seq<E>, used: E -> bool, get: E -> V)
    requires forall i | 0 <= i < |es| :: !used(es[i])
    ensures Column(es, used, get) == map[]
  {
  }

  /** Columns of the three slabs. */
  function DeviceKeys(es: seq<DeviceEntry>): map<int, DeviceKey> { Column(es, DeviceUsed, DeviceKeyOf) }
  function DeviceInfos(es: seq<DeviceEntry>): map<int, DeviceInfo> { Column(es, DeviceUsed, DeviceInfoOf) }
  function LinkLists(es: seq<DeviceEntry>): map<int, seq<int>> { Column(es, DeviceUsed, LinksOf) }
  function DNSLists(es: seq<DeviceEntry>): map<int, seq<int>> { Column(es, DeviceUsed, DNSOf) }
  function DNSExpiries(es: seq<DeviceEntry>): map<int, Time> { Column(es, DeviceUsed, DNSExpiryOf) }
  function LinkKeys(es: seq<LinkEntry>): map<int, LinkKey> { Column(es, LinkUsed, LinkKeyOf) }
  function LinkInfos(es: seq<LinkEntry>): map<int, LinkInfo> { Column(es, LinkUsed, LinkInfoOf) }
  function LinkOwners(es: seq<LinkEntry>): map<int, int> { Column(es, LinkUsed, LinkDeviceOf) }
  function DNSKeys(es: seq<DNSEntry>): map<int, DNSKey> { Column(es, DNSUsed, DNSKeyOf) }
  function DNSRecords(es: seq<DNSEntry>): map<int, DNSRecord> { Column(es, DNSUsed, RecordOf) }
  function DNSOwners(es: seq<DNSEntry>): map<int, int> { Column(es, DNSUsed, DNSDeviceOf) }
  function DNSTimes(es: seq<DNSEntry>): map<int, Time> { Column(es, DNSUsed, ExpiresAtOf) }

  lemma DeviceWritten(es: seq<DeviceEntry>, i: nat, e: DeviceEntry)
    requires i < |es|
    ensures var r, same := es[i := e], es[i].used && e.used;
            && DeviceKeys(r) == (if same && e.key == es[i].key then DeviceKeys(es) else Put(DeviceKeys(es), i, e.used, e.key))
            && DeviceInfos(r) == (if same && e.info == es[i].info then DeviceInfos(es) else Put(DeviceInfos(es), i, e.used, e.info))
            && LinkLists(r) == (if same && e.links == es[i].links then LinkLists(es) else Put(LinkLists(es), i, e.used, e.links))
            && DNSLists(r) == (if same && e.dns == es[i].dns then DNSLists(es) else Put(DNSLists(es), i, e.used, e.dns))
            && DNSExpiries(r) == (if same && e.dnsExpiry == es[i].dnsExpiry then DNSExpiries(es) else Put(DNSExpiries(es), i, e.used, e.dnsExpiry))
  {
    hide Column, Put;
    ColumnWritten(es, DeviceUsed, DeviceKeyOf, i, e);
    ColumnWritten(es, DeviceUsed, DeviceInfoOf, i, e);
    ColumnWritten(es, DeviceUsed, LinksOf, i, e);
    ColumnWritten(es, DeviceUsed, DNSOf, i, e);
    ColumnWritten(es, DeviceUsed, DNSExpiryOf, i, e);
  }

  lemma LinkWritten(es: seq<LinkEntry>, i: nat, e: LinkEntry)
    requires i < |es|
    ensures var r, same := es[i := e], es[i].used && e.used;
            && LinkKeys(r) == (if same && e.key == es[i].key then LinkKeys(es) else Put(LinkKeys(es), i, e.used, e.key))
            && LinkInfos(r) == (if same && e.info == es[i].info then LinkInfos(es) else Put(LinkInfos(es), i, e.used, e.info))
            && LinkOwners(r) == (if same && e.device == es[i].device then LinkOwners(es) else Put(LinkOwners(es), i, e.used, e.device))
  {
    hide Column, Put;
    ColumnWritten(es, LinkUsed, LinkKeyOf, i, e);
    ColumnWritten(es, LinkUsed, LinkInfoOf, i, e);
    ColumnWritten(es, LinkUsed, LinkDeviceOf, i, e);
  }

  lemma DNSWritten(es: seq<DNSEntry>, i: nat, e: DNSEntry)
    requires i < |es|
    ensures var r, same := es[i := e], es[i].used && e.used;
            && DNSKeys(r) == (if same && e.key == es[i].key then DNSKeys(es) else Put(DNSKeys(es), i, e.used, e.key))
            && DNSRecords(r) == (if same && e.record == es[i].record then DNSRecords(es) else Put(DNSRecords(es), i, e.used, e.record))
            && DNSOwners(r) == (if same && e.device == es[i].device then DNSOwners(es) else Put(DNSOwners(es), i, e.used, e.device))
            && DNSTimes(r) == (if same && e.expiresAt == es[i].expiresAt then DNSTimes(es) else Put(DNSTimes(es), i, e.used, e.expiresAt))
  {
    hide Column, Put;
    ColumnWritten(es, DNSUsed, DNSKeyOf, i, e);
    ColumnWritten(es, DNSUsed, RecordOf, i, e);
    ColumnWritten(es, DNSUsed, DNSDeviceOf, i, e);
    ColumnWritten(es, DNSUsed, ExpiresAtOf, i, e);
  }

  lemma NothingUsed(ds: seq<DeviceEntry>, ls: seq<LinkEntry>, rs: seq<DNSEntry>)
    requires forall i | 0 <= i < |ds| :: !ds[i].used
    requires forall i | 0 <= i < |ls| :: !ls[i].used
    requires forall i | 0 <= i < |rs| :: !rs[i].used
    ensures DeviceKeys(ds) == map[] && DeviceInfos(ds) == map[] && LinkLists(ds) == map[] && DNSLists(ds) == map[] && DNSExpiries(ds) == map[]
    ensures LinkKeys(ls) == map[] && LinkInfos(ls) == map[] && LinkOwners(ls) == map[]
    ensures DNSKeys(rs) == map[] && DNSRecords(rs) == map[] && DNSOwners(rs) == map[] && DNSTimes(rs) == map[]
  {
    hide Column;
    ColumnFree(ds, DeviceUsed, DeviceKeyOf);
    ColumnFree(ds, DeviceUsed, DeviceInfoOf);
    ColumnFree(ds, DeviceUsed, LinksOf);
    ColumnFree(ds, DeviceUsed, DNSOf);
    ColumnFree(ds, DeviceUsed, DNSExpiryOf);
    ColumnFree(ls, LinkUsed, LinkKeyOf);
    ColumnFree(ls, LinkUsed, LinkInfoOf);
    ColumnFree(ls, LinkUsed, LinkDeviceOf);
    ColumnFree(rs, DNSUsed, DNSKeyOf);
    ColumnFree(rs, DNSUsed, RecordOf);
    ColumnFree(rs, DNSUsed, DNSDeviceOf);
    ColumnFree(rs, DNSUsed, ExpiresAtOf);
  }

  class FusionState {
    const limits: Limits
    const devices: array<DeviceEntry>
    const links: array<LinkEntry>
    const dns: array<DNSEntry>
    const linkWheel: TimingWheel
    const dnsWheel: TimingWheel
    var deviceByKey: map<DeviceKey, int>
    var linkByKey: map<LinkKey, int>
    var dnsByKey: map<DNSKey, int>
    var freeDevices: seq<int>
    var freeLinks: seq<int>
    var freeDNS: seq<int>
    var events: seq<Event>

    ghost function Repr(): set<object> {
      {this, devices, links, dns, linkWheel, linkWheel.heads, linkWheel.nodes, dnsWheel, dnsWheel.heads, dnsWheel.nodes}
    }

    ghost predicate Valid()
      reads Repr()
    {
      && devices.Length == limits.devices && links.Length == limits.links && dns.Length == limits.dns
      && linkWheel.Valid() && dnsWheel.Valid()
      && linkWheel.nodes.Length == links.Length && dnsWheel.nodes.Length == dns.Length
      && linkWheel != dnsWheel && linkWheel.heads != dnsWheel.heads && linkWheel.nodes != dnsWheel.nodes
    }

    /** No tick is walking a wheel. */
    ghost predicate Calm()
      reads Repr()
    {
      Valid() && linkWheel.walk == [] && dnsWheel.walk == []
    }

    ghost function View(): Store
      reads Repr()
    {
      Store(limits,
        Slab(DeviceKeys(devices[..]), deviceByKey, freeDevices), DeviceInfos(devices[..]),
        Slab(LinkKeys(links[..]), linkByKey, freeLinks), Owners(LinkOwners(links[..]), LinkLists(devices[..])),
        LinkInfos(links[..]), linkWheel.Countdown(),
        Slab(DNSKeys(dns[..]), dnsByKey, freeDNS), Owners(DNSOwners(dns[..]), DNSLists(devices[..])),
        DNSRecords(dns[..]), DNSTimes(dns[..]), dnsWheel.Countdown(),
        DNSExpiries(devices[..]), events)
    }

    /** newFusionState: every slot free, both wheels empty. */
    constructor (limits: Limits, slots: nat)
      requires slots >= 1
      ensures Calm() && fresh(Repr()) && View() == Empty(limits)
    {
      hide TimingWheel.Valid, TimingWheel.Countdown, Column, NewInfo, Runs.Countdown;
      this.limits := limits;
      devices := new DeviceEntry[limits.devices](_ => NO_DEVICE);
      links := new LinkEntry[limits.links](_ => NO_LINK);
      dns := new DNSEntry[limits.dns](_ => NO_RECORD);
      linkWheel := new TimingWheel(slots, limits.links);
      dnsWheel := new TimingWheel(slots, limits.dns);
      deviceByKey, linkByKey, dnsByKey := map[], map[], map[];
      freeDevices := Countdown(limits.devices);
      freeLinks := Countdown(limits.links);
      freeDNS := Countdown(limits.dns);
      events := [];
      new;
      NothingUsed(devices[..], links[..], dns[..]);
    }

    // ---------- reading a slot ----------

    lemma DeviceAt(d: int)
      requires Valid()
      ensures devices.Length == limits.devices && View().limits == limits
      ensures d in View().devices.keyOf <==> 0 <= d < devices.Length && devices[d].used
      ensures d in View().devices.keyOf ==> var e, s := devices[d], View();
              && s.devices.keyOf[d] == e.key && d in s.info && s.info[d] == e.info && d in s.dnsExpiry && s.dnsExpiry[d] == e.dnsExpiry
              && d in s.linkOwner.lists && s.linkOwner.lists[d] == e.links && d in s.recordOwner.lists && s.recordOwner.lists[d] == e.dns
    {
    }

    lemma LinkAt(l: int)
      requires Valid()
      ensures links.Length == limits.links && View().limits == limits
      ensures l in View().links.keyOf <==> 0 <= l < links.Length && links[l].used
      ensures l in View().links.keyOf ==> var e, s := links[l], View();
              && s.links.keyOf[l] == e.key && l in s.link && s.link[l] == e.info && l in s.linkOwner.owner && s.linkOwner.owner[l] == e.device
    {
    }

    lemma DNSAt(r: int)
      requires Valid()
      ensures dns.Length == limits.dns && View().limits == limits
      ensures r in View().records.keyOf <==> 0 <= r < dns.Length && dns[r].used
      ensures r in View().records.keyOf ==> var e, s := dns[r], View();
              && s.records.keyOf[r] == e.key && r in s.record && s.record[r] == e.record && r in s.recordOwner.owner
              && s.recordOwner.owner[r] == e.device && r in s.expiresAt && s.expiresAt[r] == e.expiresAt
    {
    }

    /** The hash indexes and freelists are the view's own. */
    lemma Indexes()
      ensures var s := View();
              && s.devices.byKey == deviceByKey && s.links.byKey == linkByKey && s.records.byKey == dnsByKey
              && s.devices.free == freeDevices && s.links.free == freeLinks && s.records.free == freeDNS && s.limits == limits
    {
    }

    lemma TwoWheels()
      requires Valid()
      ensures linkWheel != dnsWheel
    {
    }

    // ---------- single writes, and what they do to the view ----------

    method SetInfo(d: int, info: DeviceInfo)
      requires Valid() && d in View().devices.keyOf
      modifies devices
      ensures Valid() && View() == old(View()).(info := old(View()).info[d := info])
    {
      hide Column, TimingWheel.Countdown, TimingWheel.Valid;
      DeviceAt(d);
      DeviceWritten(devices[..], d, devices[d].(info := info));
      devices[d] := devices[d].(info := info);
    }

    method SetLinkList(d: int, list: seq<int>)
      requires Valid() && d in View().devices.keyOf
      modifies devices
      ensures Valid() && View() == old(View()).(linkOwner := old(View()).linkOwner.(lists := old(View()).linkOwner.lists[d := list]))
    {
      hide Column, TimingWheel.Countdown, TimingWheel.Valid;
      DeviceAt(d);
      DeviceWritten(devices[..], d, devices[d].(links := list));
      devices[d] := devices[d].(links := list);
    }

    method SetDNSList(d: int, list: seq<int>)
      requires Valid() && d in View().devices.keyOf
      modifies devices
      ensures Valid() && View() == old(View()).(recordOwner := old(View()).recordOwner.(lists := old(View()).recordOwner.lists[d := list]))
    {
      hide Column, TimingWheel.Countdown, TimingWheel.Valid;
      DeviceAt(d);
      DeviceWritten(devices[..], d, devices[d].(dns := list));
      devices[d] := devices[d].(dns := list);
    }

    method SetDNSMaximum(d: int, t: Time)
      requires Valid() && d in View().devices.keyOf
      modifies devices
      ensures Valid() && View() == old(View()).(dnsExpiry := old(View()).dnsExpiry[d := t])
    {
      hide Column, TimingWheel.Countdown, TimingWheel.Valid;
      DeviceAt(d);
      DeviceWritten(devices[..], d, devices[d].(dnsExpiry := t));
      devices[d] := devices[d].(dnsExpiry := t);
    }

    method SetLink(l: int, info: LinkInfo)
      requires Valid() && l in View().links.keyOf
      modifies links
      ensures Valid() && View() == old(View()).(link := old(View()).link[l := info])
    {
      hide Column, TimingWheel.Countdown, TimingWheel.Valid;
      LinkAt(l);
      LinkWritten(links[..], l, links[l].(info := info));
      links[l] := links[l].(info := info);
    }

    method SetLinkKey(l: int, key: LinkKey)
      requires Valid() && l in View().links.keyOf
      modifies links
      ensures Valid() && View() == old(View()).(links := old(View()).links.(keyOf := old(View()).links.keyOf[l := key]))
    {
      hide Column, TimingWheel.Countdown, TimingWheel.Valid;
      LinkAt(l);
      LinkWritten(links[..], l, links[l].(key := key));
      links[l] := links[l].(key := key);
    }

    method SetLinkOwner(l: int, d: int)
      requires Valid() && l in View().links.keyOf
      modifies links
      ensures Valid() && View() == old(View()).(linkOwner := old(View()).linkOwner.(owner := old(View()).linkOwner.owner[l := d]))
    {
      hide Column, TimingWheel.Countdown, TimingWheel.Valid;
      LinkAt(l);
      LinkWritten(links[..], l, links[l].(device := d));
      links[l] := links[l].(device := d);
    }

    method SetRecord(r: int, record: DNSRecord)
      requires Valid() && r in View().records.keyOf
      modifies dns
      ensures Valid() && View() == old(View()).(record := old(View()).record[r := record])
    {
      hide Column, TimingWheel.Countdown, TimingWheel.Valid;
      DNSAt(r);
      DNSWritten(dns[..], r, dns[r].(record := record));
      dns[r] := dns[r].(record := record);
    }

    method SetDNSKey(r: int, key: DNSKey)
      requires Valid() && r in View().records.keyOf
      modifies dns
      ensures Valid() && View() == old(View()).(records := old(View()).records.(keyOf := old(View()).records.keyOf[r := key]))
    {
      hide Column, TimingWheel.Countdown, TimingWheel.Valid;
      DNSAt(r);
      DNSWritten(dns[..], r, dns[r].(key := key));
      dns[r] := dns[r].(key := key);
    }

    method SetDNSOwner(r: int, d: int)
      requires Valid() && r in View().records.keyOf
      modifies dns
      ensures Valid() && View() == old(View()).(recordOwner := old(View()).recordOwner.(owner := old(View()).recordOwner.owner[r := d]))
    {
      hide Column, TimingWheel.Countdown, TimingWheel.Valid;
      DNSAt(r);
      DNSWritten(dns[..], r, dns[r].(device := d));
      dns[r] := dns[r].(device := d);
    }

    method SetExpiresAt(r: int, t: Time)
      requires Valid() && r in View().records.keyOf
      modifies dns
      ensures Valid() && View() == old(View()).(expiresAt := old(View()).expiresAt[r := t])
    {
      hide Column, TimingWheel.Countdown, TimingWheel.Valid;
      DNSAt(r);
      DNSWritten(dns[..], r, dns[r].(expiresAt := t));
      dns[r] := dns[r].(expiresAt := t);
    }

    method Emit(e: Event)
      requires Valid()
      modifies this`events
      ensures Valid() && View() == old(View()).(events := old(View()).events + [e])
    {
      hide Column, TimingWheel.Countdown, TimingWheel.Valid;
      events := events + [e];
    }

    method IndexLink(key: LinkKey, l: int)
      requires Valid()
      modifies this`linkByKey
      ensures Valid() && View() == old(View()).(links := old(View()).links.(byKey := old(View()).links.byKey[key := l]))
    {
      hide Column, TimingWheel.Countdown, TimingWheel.Valid;
      linkByKey := linkByKey[key := l];
    }

    method UnindexLink(key: LinkKey)
      requires Valid()
      modifies this`linkByKey
      ensures Valid() && View() == old(View()).(links := old(View()).links.(byKey := old(View()).links.byKey - {key}))
    {
      hide Column, TimingWheel.Countdown, TimingWheel.Valid;
      linkByKey := linkByKey - {key};
    }

    method IndexDNS(key: DNSKey, r: int)
      requires Valid()
      modifies this`dnsByKey
      ensures Valid() && View() == old(View()).(records := old(View()).records.(byKey := old(View()).records.byKey[key := r]))
    {
      hide Column, TimingWheel.Countdown, TimingWheel.Valid;
      dnsByKey := dnsByKey[key := r];
    }

    method UnindexDNS(key: DNSKey)
      requires Valid()
      modifies this`dnsByKey
      ensures Valid() && View() == old(View()).(records := old(View()).records.(byKey := old(View()).records.byKey - {key}))
    {
      hide Column, TimingWheel.Countdown, TimingWheel.Valid;
      dnsByKey := dnsByKey - {key};
    }

    method ScheduleLink(l: int, now: Time, expiry: Time)
      requires Valid() && l in View().links.keyOf && (l in linkWheel.walk ==> l == linkWheel.walk[0])
      modifies linkWheel, linkWheel.heads, linkWheel.nodes
      ensures Valid() && View() == old(View()).(linkDue := old(View()).linkDue[l := Ticks(expiry - now)])
      ensures linkWheel.walk == if l in old(linkWheel.walk) then old(linkWheel.walk)[1..] else old(linkWheel.walk)
    {
      hide Column, TimingWheel.Countdown, TimingWheel.Valid;
      LinkAt(l);
      linkWheel.Schedule(l, now, expiry);
    }

    method UnscheduleLink(l: int)
      requires Valid() && l in View().links.keyOf && (l in linkWheel.walk ==> l == linkWheel.walk[0])
      modifies linkWheel, linkWheel.heads, linkWheel.nodes
      ensures Valid() && View() == old(View()).(linkDue := old(View()).linkDue - {l})
      ensures linkWheel.walk == if l in old(linkWheel.walk) then old(linkWheel.walk)[1..] else old(linkWheel.walk)
    {
      hide Column, TimingWheel.Countdown, TimingWheel.Valid;
      LinkAt(l);
      linkWheel.Unschedule(l);
    }

    method ScheduleDNS(r: int, now: Time, expiry: Time)
      requires Valid() && r in View().records.keyOf && (r in dnsWheel.walk ==> r == dnsWheel.walk[0])
      modifies dnsWheel, dnsWheel.heads, dnsWheel.nodes
      ensures Valid() && View() == old(View()).(dnsDue := old(View()).dnsDue[r := Ticks(expiry - now)])
      ensures dnsWheel.walk == if r in old(dnsWheel.walk) then old(dnsWheel.walk)[1..] else old(dnsWheel.walk)
    {
      hide Column, TimingWheel.Countdown, TimingWheel.Valid;
      DNSAt(r);
      dnsWheel.Schedule(r, now, expiry);
    }

    method UnscheduleDNS(r: int)
      requires Valid() && r in View().records.keyOf && (r in dnsWheel.walk ==> r == dnsWheel.walk[0])
      modifies dnsWheel, dnsWheel.heads, dnsWheel.nodes
      ensures Valid() && View() == old(View()).(dnsDue := old(View()).dnsDue - {r})
      ensures dnsWheel.walk == if r in old(dnsWheel.walk) then old(dnsWheel.walk)[1..] else old(dnsWheel.walk)
    {
      hide Column, TimingWheel.Countdown, TimingWheel.Valid;
      DNSAt(r);
      dnsWheel.Unschedule(r);
    }

    /** A link's slot goes back to the freelist. */
    method FreeLink(l: int)
      requires Valid() && l in View().links.keyOf
      modifies this`freeLinks, links
      ensures Valid()
      ensures View() == old(View()).(links := old(View()).links.(keyOf := old(View()).links.keyOf - {l}, free := old(View()).links.free + [l]),
                linkOwner := old(View()).linkOwner.(owner := old(View()).linkOwner.owner - {l}), link := old(View()).link - {l})
    {
      hide Column, TimingWheel.Countdown, TimingWheel.Valid;
      LinkAt(l);
      LinkWritten(links[..], l, NO_LINK);
      links[l] := NO_LINK;
      freeLinks := freeLinks + [l];
    }

    method FreeRecord(r: int)
      requires Valid() && r in View().records.keyOf
      modifies this`freeDNS, dns
      ensures Valid()
      ensures View() == old(View()).(records := old(View()).records.(keyOf := old(View()).records.keyOf - {r}, free := old(View()).records.free + [r]),
                recordOwner := old(View()).recordOwner.(owner := old(View()).recordOwner.owner - {r}),
                record := old(View()).record - {r}, expiresAt := old(View()).expiresAt - {r})
    {
      hide Column, TimingWheel.Countdown, TimingWheel.Valid;
      DNSAt(r);
      DNSWritten(dns[..], r, NO_RECORD);
      dns[r] := NO_RECORD;
      freeDNS := freeDNS + [r];
    }

    /** dropDevice, for a device that owns nothing. */
    method DropDevice(d: int)
      requires Valid() && d in View().devices.keyOf
      modifies this`deviceByKey, this`freeDevices, devices
      ensures Valid() && View() == Forget(old(View()), d)
    {
      hide Column, TimingWheel.Countdown, TimingWheel.Valid;
      DeviceAt(d);
      DeviceWritten(devices[..], d, NO_DEVICE);
      deviceByKey := deviceByKey - {devices[d].key};
      devices[d] := NO_DEVICE;
      freeDevices := freeDevices + [d];
    }

    method TakeDevice() returns (d: int)
      requires Valid() && View().devices.free != []
      modifies this`freeDevices
      ensures Valid() && View() == old(View()).(devices := TakeFree(old(View()).devices))
      ensures var free := old(View()).devices.free; d == free[|free| - 1]
    {
      hide Column, TimingWheel.Countdown, TimingWheel.Valid;
      var n := |freeDevices|;
      d := freeDevices[n - 1];
      freeDevices := freeDevices[..n - 1];
    }

    method TakeLink() returns (l: int)
      requires Valid() && View().links.free != []
      modifies this`freeLinks
      ensures Valid() && View() == old(View()).(links := TakeFree(old(View()).links))
      ensures var free := old(View()).links.free; l == free[|free| - 1]
    {
      hide Column, TimingWheel.Countdown, TimingWheel.Valid;
      var n := |freeLinks|;
      l := freeLinks[n - 1];
      freeLinks := freeLinks[..n - 1];
    }

    method TakeRecord() returns (r: int)
      requires Valid() && View().records.free != []
      modifies this`freeDNS
      ensures Valid() && View() == old(View()).(records := TakeFree(old(View()).records))
      ensures var free := old(View()).records.free; r == free[|free| - 1]
    {
      hide Column, TimingWheel.Countdown, TimingWheel.Valid;
      var n := |freeDNS|;
      r := freeDNS[n - 1];
      freeDNS := freeDNS[..n - 1];
    }

    method FillDevice(d: int, key: DeviceKey, now: Time)
      requires Valid() && 0 <= d < limits.devices && d !in View().devices.keyOf
      modifies this`deviceByKey, devices
      ensures Valid() && View() == AddDevice(old(View()), d, key, now)
    {
      hide Column, TimingWheel.Countdown, TimingWheel.Valid;
      DeviceAt(d);
      var e := DeviceEntry(true, key, NewInfo(now), [], [], 0);
      DeviceWritten(devices[..], d, e);
      devices[d] := e;
      deviceByKey := deviceByKey[key := d];
    }

    /** A device's own part of a promotion. */
    method RekeyDevice(d: int, key: DeviceKey)
      requires Valid() && d in View().devices.keyOf
      modifies this`deviceByKey, devices
      ensures Valid() && View() == old(View()).(devices := Rekey(old(View()).devices, d, key))
    {
      hide Column, TimingWheel.Countdown, TimingWheel.Valid;
      DeviceAt(d);
      DeviceWritten(devices[..], d, devices[d].(key := key));
      deviceByKey := deviceByKey - {devices[d].key};
      devices[d] := devices[d].(key := key);
      deviceByKey := deviceByKey[key := d];
    }

    method FillLink(l: int, key: LinkKey, info: LinkInfo, d: int)
      requires Valid() && 0 <= l < limits.links && l !in View().links.keyOf
      modifies this`linkByKey, links
      ensures Valid()
      ensures View() == old(View()).(links := Insert(old(View()).links, l, key), link := old(View()).link[l := info],
                linkOwner := old(View()).linkOwner.(owner := old(View()).linkOwner.owner[l := d]))
    {
      hide Column, TimingWheel.Countdown, TimingWheel.Valid;
      LinkAt(l);
      LinkWritten(links[..], l, LinkEntry(true, key, info, d));
      links[l] := LinkEntry(true, key, info, d);
      linkByKey := linkByKey[key := l];
    }

    method FillRecord(r: int, key: DNSKey, record: DNSRecord, d: int)
      requires Valid() && 0 <= r < limits.dns && r !in View().records.keyOf
      modifies this`dnsByKey, dns
      ensures Valid()
      ensures View() == old(View()).(records := Insert(old(View()).records, r, key), record := old(View()).record[r := record], expiresAt := old(View()).expiresAt[r := 0],
                recordOwner := old(View()).recordOwner.(owner := old(View()).recordOwner.owner[r := d]))
    {
      hide Column, TimingWheel.Countdown, TimingWheel.Valid;
      DNSAt(r);
      DNSWritten(dns[..], r, DNSEntry(true, key, record, d, 0));
      dns[r] := DNSEntry(true, key, record, d, 0);
      dnsByKey := dnsByKey[key := r];
    }

    // ---------- removal ----------

    /** Removal of an owned index: the last one takes its place. */
    static method RemoveFrom(list: seq<int>, x: int) returns (r: seq<int>)
      ensures r == SwapRemove(list, x)
    {
      r := list;
      for i := 0 to |list|
        invariant r == list && forall k | 0 <= k < i :: list[k] != x
      {
        if list[i] == x {
          FirstIs(list, x, i);
          r := list[i := list[|list| - 1]];
          r := r[..|r| - 1];
          return;
        }
      }
    }

    method RemoveLink(l: int, kind: EventKind)
      requires Valid() && (l in View().links.keyOf ==> Attached(View(), l))
      requires l in linkWheel.walk ==> l == linkWheel.walk[0]
      modifies Repr()
      ensures Valid() && dnsWheel.walk == old(dnsWheel.walk)
      ensures View() == if l in old(View()).links.keyOf then DropLink(old(View()), l, kind) else old(View())
      ensures l in old(View()).links.keyOf ==>
                linkWheel.walk == if l in old(linkWheel.walk) then old(linkWheel.walk)[1..] else old(linkWheel.walk)
      ensures l !in old(View()).links.keyOf ==> linkWheel.walk == old(linkWheel.walk)
    {
      hide FusionState.Valid, FusionState.View, SwapRemove;
      LinkAt(l);
      TwoWheels();
      if l < 0 || l >= links.Length || !links[l].used { return; }
      var e := links[l];
      DeviceAt(e.device);
      var d := devices[e.device];
      Emit(Event(kind, {FieldLink}, d.key, e.key));
      UnscheduleLink(l);
      UnindexLink(e.key);
      var rest := RemoveFrom(d.links, l);
      SetLinkList(e.device, rest);
      FreeLink(l);
    }

    /** recomputeDNSExpiry. */
    method RecomputeDNSExpiry(d: int)
      requires Valid() && d in View().devices.keyOf && d in View().recordOwner.lists
      modifies devices
      ensures Valid()
      ensures View() == old(View()).(dnsExpiry := old(View()).dnsExpiry[d := Latest(old(View()).recordOwner.lists[d], old(View()).expiresAt)])
    {
      hide FusionState.Valid, FusionState.View, IsLatest;
      DeviceAt(d);
      var list := devices[d].dns;
      var m := 0;
      for i := 0 to |list|
        invariant Valid() && View() == old(View()) && m == Latest(list[..i], View().expiresAt)
      {
        DNSAt(list[i]);
        SameSlots();
        assert list[..i + 1][..i] == list[..i];
        if 0 <= list[i] < dns.Length && dns[list[i]].used && dns[list[i]].expiresAt > m { m := dns[list[i]].expiresAt; }
      }
      assert list[..|list|] == list;
      SetDNSMaximum(d, m);
    }

    /** Expiries are kept for the used record slots only. */
    lemma SameSlots()
      requires Valid()
      ensures View().expiresAt.Keys == View().records.keyOf.Keys
    {
    }

    method RemoveDNS(r: int)
      requires Valid() && (r in View().records.keyOf ==> RecordAttached(View(), r) && View().recordOwner.owner[r] in View().devices.keyOf)
      requires r in dnsWheel.walk ==> r == dnsWheel.walk[0]
      modifies Repr()
      ensures Valid() && linkWheel.walk == old(linkWheel.walk)
      ensures View() == if r in old(View()).records.keyOf then DropDNS(old(View()), r) else old(View())
      ensures r in old(View()).records.keyOf ==>
                dnsWheel.walk == if r in old(dnsWheel.walk) then old(dnsWheel.walk)[1..] else old(dnsWheel.walk)
      ensures r !in old(View()).records.keyOf ==> dnsWheel.walk == old(dnsWheel.walk)
    {
      hide FusionState.Valid, FusionState.View, SwapRemove, Latest, IsLatest;
      DNSAt(r);
      TwoWheels();
      if r < 0 || r >= dns.Length || !dns[r].used { return; }
      var e := dns[r];
      DeviceAt(e.device);
      var d := devices[e.device];
      var wasLatest := e.expiresAt == d.dnsExpiry;
      UnscheduleDNS(r);
      UnindexDNS(e.key);
      var rest := RemoveFrom(d.dns, r);
      SetDNSList(e.device, rest);
      FreeRecord(r);
      if wasLatest { RecomputeDNSExpiry(e.device); }
    }

    /** The loop that removes the links of a device, last first. */
    method RemoveLinks(d: int, kind: EventKind)
      requires Calm() && Inv(View()) && d in View().devices.keyOf
      modifies Repr()
      ensures Calm() && View() == ShedLinks(old(View()), d, kind)
    {
      hide FusionState.Valid, FusionState.View, InvGap, DropLink, Complete;
      ghost var s := View();
      ListsThere(s);
      DeviceAt(d);
      while |devices[d].links| != 0
        invariant Calm() && Inv(View()) && d in View().devices.keyOf && d in View().linkOwner.lists
        invariant 0 <= d < devices.Length && devices[d].links == View().linkOwner.lists[d]
        invariant ShedLinks(View(), d, kind) == ShedLinks(s, d, kind)
        decreases |devices[d].links|
      {
        ShedLinkStep(View(), d, kind);
        LastLinkThere(View(), d);
        RemoveLink(devices[d].links[|devices[d].links| - 1], kind);
        DeviceAt(d);
      }
    }

    method RemoveRecords(d: int)
      requires Calm() && Inv(View()) && d in View().devices.keyOf
      modifies Repr()
      ensures Calm() && View() == ShedRecords(old(View()), d)
    {
      hide FusionState.Valid, FusionState.View, InvGap, DropDNS, Complete;
      ghost var s := View();
      ListsThere(s);
      DeviceAt(d);
      while |devices[d].dns| != 0
        invariant Calm() && Inv(View()) && d in View().devices.keyOf && d in View().recordOwner.lists
        invariant 0 <= d < devices.Length && devices[d].dns == View().recordOwner.lists[d]
        invariant ShedRecords(View(), d) == ShedRecords(s, d)
        decreases |devices[d].dns|
      {
        ShedRecordStep(View(), d);
        LastRecordThere(View(), d);
        RemoveDNS(devices[d].dns[|devices[d].dns| - 1]);
        DeviceAt(d);
      }
    }

    method RemoveDevice(d: int, kind: EventKind)
      requires Calm() && Inv(View())
      modifies Repr()
      ensures Calm() && View() == Stores.RemoveDevice(old(View()), d, kind)
    {
      hide FusionState.Valid, FusionState.View, InvGap, ShedLinks, ShedRecords, Complete, Release, Forget;
      DeviceAt(d);
      if d < 0 || d >= devices.Length || !devices[d].used { return; }
      RemoveLinks(d, kind);
      RemoveRecords(d);
      DropDevice(d);
    }

    // ---------- allocation: a free slot, or an evicted one ----------

    /** The least recently seen device, -1 if there is none. */
    method OldestDevice() returns (oldest: int)
      requires Calm() && Inv(View())
      ensures oldest == Oldest(Seen(View()), limits.devices)
    {
      hide FusionState.Valid, FusionState.View, InvGap;
      ghost var s := View();
      ListsThere(s);
      DeviceAt(0);
      oldest := -1;
      for i := 0 to devices.Length
        invariant Calm() && View() == s && oldest == Oldest(Seen(s), i)
      {
        DeviceAt(i);
        DeviceAt(oldest);
        if devices[i].used && (oldest < 0 || devices[i].info.lastSeen < devices[oldest].info.lastSeen) { oldest := i; }
      }
    }

    method AllocDevice() returns (d: int)
      requires Calm() && Inv(View())
      modifies Repr()
      ensures Calm() && (View(), d) == Stores.AllocDevice(old(View()))
    {
      hide FusionState.Valid, FusionState.View, InvGap, Complete, Stores.RemoveDevice, Stores.AllocDevice, Seen, Oldest, Release, Partition, TakeFree;
      ghost var s := View();
      Indexes();
      EveryDeviceUsed(s);
      if |freeDevices| > 0 { d := TakeDevice(); return; }
      var oldest := OldestDevice();
      RemoveDevice(oldest, Evicted);
      d := TakeDevice();
    }

    method AllocLink() returns (l: int)
      requires Calm() && Inv(View())
      modifies Repr()
      ensures Calm() && (View(), l) == Fusion.AllocLink(old(View()))
    {
      hide FusionState.Valid, FusionState.View, InvGap, Complete, Disown;
      ghost var s := View();
      Indexes();
      if |freeLinks| > 0 { l := TakeLink(); return; }
      var oldest := -1;
      for i := 0 to links.Length
        invariant Calm() && View() == s && oldest == Oldest(LinksSeen(s), i)
      {
        LinkAt(i);
        LinkAt(oldest);
        SlotsThere(s);
        if links[i].used && (oldest < 0 || links[i].info.lastSeen < links[oldest].info.lastSeen) { oldest := i; }
      }
      LinkAt(0);
      AllocLinkStep(s);
      LinkOwnerAttached(s, oldest);
      RemoveLink(oldest, Evicted);
      l := TakeLink();
    }

    method AllocDNS() returns (r: int)
      requires Calm() && Inv(View())
      modifies Repr()
      ensures Calm() && (View(), r) == DNSCache.AllocDNS(old(View()))
    {
      hide FusionState.Valid, FusionState.View, InvGap, Complete, Disown, Latest;
      ghost var s := View();
      Indexes();
      if |freeDNS| > 0 { r := TakeRecord(); return; }
      var oldest := -1;
      for i := 0 to dns.Length
        invariant Calm() && View() == s && oldest == Oldest(Expiries(s), i)
      {
        DNSAt(i);
        DNSAt(oldest);
        SlotsThere(s);
        if dns[i].used && (oldest < 0 || dns[i].expiresAt < dns[oldest].expiresAt) { oldest := i; }
      }
      DNSAt(0);
      AllocDNSStep(s);
      RecordOwnerAttached(s, oldest);
      RemoveDNS(oldest);
      r := TakeRecord();
    }

    // ---------- identity ----------

    method PromoteDevice(d: int, key: DeviceKey)
      requires Calm() && Inv(View()) && d in View().devices.keyOf
      modifies Repr()
      ensures Calm() && d in old(View()).linkOwner.lists && d in old(View()).recordOwner.lists
      ensures View() == Promote(old(View()), d, key)
    {
      hide FusionState.Valid, FusionState.View, InvGap, Stores.SetDevice, RekeyAll, Reindex;
      ListsThere(View());
      SlotsThere(View());
      OwnRecordKeys(View(), d);
      RekeyDevice(d, key);
      RekeyLinks(d, key);
      ReindexRecords(d);
    }

    /** The part of a promotion that moves the device's links to its new key. */
    method RekeyLinks(d: int, key: DeviceKey)
      requires Calm() && d in View().devices.keyOf && d in View().linkOwner.lists && View().links.keyOf.Keys == View().link.Keys
      modifies this`linkByKey, links
      ensures Calm()
      ensures var s := old(View());
              View() == s.(links := RekeyAll(s.links, s.linkOwner.lists[d], key), link := SetDevice(s.link, s.linkOwner.lists[d], key))
    {
      hide FusionState.Valid, FusionState.View, Stores.SetDevice;
      ghost var s := View();
      DeviceAt(d);
      var list := devices[d].links;
      SetDeviceNone(s.link, list, key);
      for i := 0 to |list|
        invariant Calm() && View().links.keyOf.Keys == s.link.Keys
        invariant View() == s.(links := View().links, link := SetDevice(s.link, list[..i], key))
        invariant RekeyAll(View().links, list[i..], key) == RekeyAll(s.links, list, key)
      {
        var l := list[i];
        LinkAt(l);
        SetDeviceStep(s.link, list, i, key);
        assert list[i..][0] == l && list[i..][1..] == list[i + 1..];
        if 0 <= l < links.Length && links[l].used { RekeyOwnLink(l, links[l].key.(device := key), links[l].info.(device := key)); }
      }
      assert list[..|list|] == list;
    }

    /** delete, write, insert: a link under its new key. */
    method RekeyOwnLink(l: int, key: LinkKey, info: LinkInfo)
      requires Calm() && l in View().links.keyOf
      modifies this`linkByKey, links
      ensures Calm()
      ensures View() == old(View()).(links := Rekey(old(View()).links, l, key), link := old(View()).link[l := info])
    {
      hide FusionState.Valid, FusionState.View;
      LinkAt(l);
      UnindexLink(links[l].key);
      SetLink(l, info);
      SetLinkKey(l, key);
      IndexLink(key, l);
    }

    /** The part of a promotion that re-inserts the device's record keys. */
    method ReindexRecords(d: int)
      requires Calm() && d in View().devices.keyOf && d in View().recordOwner.lists
      requires forall r | r in View().recordOwner.lists[d] && r in View().records.keyOf :: View().records.keyOf[r].device == d
      modifies this`dnsByKey, dns
      ensures Calm()
      ensures View() == old(View()).(records := Reindex(old(View()).records, old(View()).recordOwner.lists[d]))
    {
      hide FusionState.Valid, FusionState.View;
      ghost var s := View();
      DeviceAt(d);
      var list := devices[d].dns;
      for i := 0 to |list|
        invariant Calm() && View() == s.(records := View().records) && View().records.keyOf == s.records.keyOf
        invariant Reindex(View().records, list[i..]) == Reindex(s.records, list)
      {
        var r := list[i];
        DNSAt(r);
        assert list[i..][0] == r && list[i..][1..] == list[i + 1..];
        if 0 <= r < dns.Length && dns[r].used {
          var key := dns[r].key.(device := d);
          UnindexDNS(dns[r].key);
          SetDNSKey(r, key);
          IndexDNS(key, r);
        }
      }
    }

    // ---------- merging two devices ----------

    /** mergeLinks: l's evidence goes into e, and l goes. */
    method MergeLinks(e: int, l: int)
      requires Calm() && e in View().links.keyOf && e in View().link && Attached(View(), l) && l in View().link && e != l
      modifies Repr()
      ensures Calm()
      ensures Attached(Absorbed(old(View()), e, l), l)
      ensures View() == DropLink(Absorbed(old(View()), e, l), l, Changed)
    {
      hide FusionState.Valid, FusionState.View, MergedLink, DropLink;
      LinkAt(e);
      LinkAt(l);
      var k := MergedLink(links[e].info, links[l].info);
      SetLink(e, k);
      ScheduleLink(e, k.lastSeen, k.expiresAt);
      TwoWheels();
      RemoveLink(l, Changed);
    }

    /** One pass of the link loop of a merge. */
    method MoveLink(dst: int, src: int)
      requires Calm() && Inv(View()) && dst in View().devices.keyOf && src in View().devices.keyOf && dst != src
      requires View().linkOwner.lists[src] != []
      modifies Repr()
      ensures Calm() && View() == Stores.MoveLink(old(View()), dst, src)
    {
      hide FusionState.Valid, FusionState.View, InvGap, MergedLink, DropLink, Stores.MoveLink;
      ghost var s := View();
      ListsThere(s);
      LastLinkThere(s, src);
      DeviceAt(src);
      DeviceAt(dst);
      var key, list, others := devices[dst].key, devices[src].links, devices[dst].links;
      var l := list[|list| - 1];
      LinkAt(l);
      var e := links[l];
      var k := e.key.(device := key);
      SetLinkList(src, list[..|list| - 1]);
      UnindexLink(e.key);
      SetLinkOwner(l, dst);
      SetLink(l, e.info.(device := key));
      SetLinkKey(l, k);
      Indexes();
      assert View() == InTransit(s, dst, src);
      LinkArrives(s, dst, src);
      if k in linkByKey && linkByKey[k] != l {
        LinkStrikes(s, dst, src);
        MergeLinks(linkByKey[k], l);
      } else {
        IndexLink(k, l);
        SetLinkList(dst, others + [l]);
      }
    }

    /** One pass of the record loop of a merge. */
    method MoveRecord(dst: int, src: int)
      requires Calm() && Emptying(View(), src) && dst in View().devices.keyOf && src in View().devices.keyOf && dst != src
      requires src in View().recordOwner.lists && View().recordOwner.lists[src] != []
      modifies Repr()
      ensures Calm() && View() == Stores.MoveRecord(old(View()), dst, src)
    {
      hide FusionState.Valid, FusionState.View, InvGap, DropDNS, Stores.MoveRecord, Latest;
      ghost var s := View();
      DeviceAt(src);
      DeviceAt(dst);
      var list, others := devices[src].dns, devices[dst].dns;
      var r := list[|list| - 1];
      RecordOnList(s, src);
      DNSAt(r);
      var e := dns[r];
      var k := e.key.(device := dst);
      SetDNSList(src, list[..|list| - 1]);
      UnindexDNS(e.key);
      SetDNSOwner(r, dst);
      SetDNSKey(r, k);
      Indexes();
      assert View() == DNSInTransit(s, dst, src);
      RecordArrives(s, dst, src);
      if k in dnsByKey && dnsByKey[k] != r {
        RecordStrikes(s, dst, src);
        RemoveDNS(r);
      } else {
        IndexDNS(k, r);
        SetDNSList(dst, others + [r]);
        DeviceAt(dst);
        if e.expiresAt > devices[dst].dnsExpiry { SetDNSMaximum(dst, e.expiresAt); }
      }
    }

    method MergeDevices(dst: int, src: int)
      requires Calm() && Inv(View())
      requires 0 <= dst < limits.devices && 0 <= src < limits.devices
      modifies Repr()
      ensures Calm() && View() == Stores.MergeDevices(old(View()), dst, src)
    {
      hide FusionState.Valid, FusionState.View, InvGap, Stores.MoveLink, Stores.MoveRecord, MergedInfo, Release, DropOwner;
      DeviceAt(dst);
      DeviceAt(src);
      if dst == src || !devices[dst].used || !devices[src].used { return; }
      ghost var s := View();
      ListsThere(s);
      var merged := TakeInfo(devices[dst].info, devices[src].info, limits.alternatives);
      SetInfo(dst, merged);
      ghost var s0 := View();
      InfoInv(s, s0);
      DeviceAt(src);
      while |devices[src].links| != 0
        invariant Calm() && Inv(View()) && dst in View().devices.keyOf && src in View().devices.keyOf && src in View().linkOwner.lists
        invariant 0 <= src < devices.Length && devices[src].links == View().linkOwner.lists[src]
        invariant MoveLinks(View(), dst, src) == MoveLinks(s0, dst, src)
        decreases |devices[src].links|
      {
        MoveLinkStep(View(), dst, src);
        MoveLink(dst, src);
        DeviceAt(src);
      }
      MoveLinksInv(s0, dst, src);
      EmptyingInv(View(), src);
      ghost var s1 := View();
      ListsThere(s1);
      DeviceAt(src);
      while |devices[src].dns| != 0
        invariant Calm() && Emptying(View(), src) && dst in View().devices.keyOf && src in View().devices.keyOf && src in View().recordOwner.lists
        invariant 0 <= src < devices.Length && devices[src].dns == View().recordOwner.lists[src]
        invariant MoveRecords(View(), dst, src) == MoveRecords(s1, dst, src)
        decreases |devices[src].dns|
      {
        MoveRecordStep(View(), dst, src);
        MoveRecord(dst, src);
        DeviceAt(src);
      }
      DropDevice(src);
    }

    /** The device an observation belongs to, -1 for an observation without identity. */
    method DeviceFor(meta: Meta, claimed: MAC, addresses: seq<Addr>) returns (d: int)
      requires Calm() && Inv(View())
      modifies Repr()
      ensures Calm() && (View(), d) == Fusion.DeviceFor(old(View()), meta, claimed, addresses)
    {
      hide FusionState.Valid, FusionState.View, InvGap, Stores.MergeDevices, Stores.AllocDevice, Promote, AddDevice;
      ghost var s := View();
      var identity := IdentityKey(meta, claimed, addresses);
      if identity.None? { return -1; }
      var key := identity.value;
      IndexFacts(s);
      Indexes();
      if key.MACKey? && meta.sourceIP != NoAddr {
        var ipKey := IPKey(Unmap(meta.sourceIP), meta.iface);
        if ipKey in deviceByKey {
          d := deviceByKey[ipKey];
          DeviceAt(d);
          if key in deviceByKey && deviceByKey[key] != d {
            var known := deviceByKey[key];
            DeviceAt(known);
            MergeDevices(known, d);
            return known;
          }
          PromoteDevice(d, key);
          return;
        }
      }
      if key in deviceByKey { return deviceByKey[key]; }
      AllocFits(s, key, meta.timestamp);
      AllocFree(s);
      d := AllocDevice();
      Indexes();
      FillDevice(d, key, meta.timestamp);
    }

    // ---------- links ----------

    /** The VLANs of an observation join a link's; news tells whether one was missing. */
    static method AppendVLANs(have: seq<nat>, more: seq<nat>) returns (r: seq<nat>, news: bool)
      ensures r == AppendAll(have, more) && (news <==> exists v :: v in more && v !in have)
    {
      r, news := have, false;
      for i := 0 to |more|
        invariant AppendAll(r, more[i..]) == AppendAll(have, more)
        invariant forall v :: v in r <==> v in have || v in more[..i]
        invariant news <==> exists v :: v in more[..i] && v !in have
      {
        assert more[i..][0] == more[i] && more[i..][1..] == more[i + 1..];
        assert more[..i + 1] == more[..i] + [more[i]];
        if more[i] !in r {
          r := r + [more[i]];
          news := true;
        }
      }
      assert more[..|more|] == more;
    }

    /** A link's fields after one more observation. */
    static method Refresh(k: LinkInfo, meta: Meta, kind: LinkKind, ttl: int) returns (r: LinkInfo, changed: bool)
      ensures r == Refreshed(k, meta, kind, ttl) && (changed <==> RefreshChanges(k, meta, kind))
    {
      hide AppendAll, EarliestExpiry;
      var vlans, news := AppendVLANs(k.vlans, meta.vlans);
      r, changed := k, news;
      if kind.PhysicalAdjacency? && !k.kind.PhysicalAdjacency? {
        r := r.(kind := kind);
        changed := true;
      }
      if meta.protocol !in k.protocols {
        r := r.(protocols := k.protocols + {meta.protocol});
        changed := true;
      } else {
        assert k.protocols + {meta.protocol} == k.protocols;
      }
      if meta.timestamp > k.lastSeen { r := r.(lastSeen := meta.timestamp); }
      var t := if ttl <= 0 then SECOND else ttl;
      var expires := k.expires.Set(meta.protocol, meta.timestamp + t);
      r := r.(expires := expires, ttl := t, expiresAt := EarliestExpiry(expires), vlans := vlans);
    }

    method RefreshLink(l: int, meta: Meta, kind: LinkKind, ttl: int) returns (changed: bool)
      requires Calm() && l in View().links.keyOf && l in View().link
      modifies Repr()
      ensures Calm() && View() == Fusion.RefreshLink(old(View()), l, meta, kind, ttl)
      ensures changed <==> RefreshChanges(old(View()).link[l], meta, kind)
    {
      hide FusionState.Valid, FusionState.View, Refreshed, RefreshChanges;
      LinkAt(l);
      TwoWheels();
      var k;
      k, changed := Refresh(links[l].info, meta, kind, ttl);
      SetLink(l, k);
      ScheduleLink(l, meta.timestamp, k.expiresAt);
    }

    /** The first used link of a device on the interface and of the kind, -1 if there is none. */
    method FindLink(d: int, iface: int, kind: LinkKind) returns (l: int)
      requires Valid() && d in View().devices.keyOf && d in View().linkOwner.lists && View().link.Keys == View().links.keyOf.Keys
      ensures l == FirstOfKind(View(), View().linkOwner.lists[d], iface, kind)
    {
      hide FusionState.Valid, FusionState.View;
      DeviceAt(d);
      var list := devices[d].links;
      ghost var s := View();
      for i := 0 to |list|
        invariant Valid() && View() == s
        invariant FirstOfKind(View(), list[i..], iface, kind) == FirstOfKind(View(), list, iface, kind)
      {
        LinkAt(list[i]);
        assert list[i..][0] == list[i] && list[i..][1..] == list[i + 1..];
        if 0 <= list[i] < links.Length && links[list[i]].used && links[list[i]].key.iface == iface && links[list[i]].info.kind == kind {
          return list[i];
        }
      }
      return -1;
    }

    /** The write part of promoting segment presence to a physical adjacency. */
    method PromoteLink(l: int, key: LinkKey, meta: Meta)
      requires Calm() && l in View().links.keyOf && l in View().link
      modifies this`linkByKey, links
      ensures Calm() && View() == Fusion.PromoteLink(old(View()), l, key, meta)
    {
      hide FusionState.Valid, FusionState.View;
      LinkAt(l);
      RekeyOwnLink(l, key, links[l].info.(device := key.device, observedSource := meta.sourceMAC, kind := PhysicalAdjacency));
    }

    method UpsertLink(meta: Meta, d: int, kind: LinkKind, ttl: int) returns (l: int, changed: bool, added: bool)
      requires Calm() && Inv(View()) && d in View().devices.keyOf
      modifies Repr()
      ensures Calm() && Upsert(View(), l, changed, added) == Fusion.UpsertLink(old(View()), meta, d, kind, ttl)
    {
      hide FusionState.Valid, FusionState.View, InvGap, Fusion.RefreshLink, Fusion.PromoteLink, FirstOfKind, Fusion.AllocLink, Own, Insert, RefreshChanges;
      ghost var s := View();
      ListsThere(s);
      SlotsThere(s);
      LinkForThere(s, meta, d, kind);
      Indexes();
      DeviceAt(d);
      added := false;
      var key := LinkKey(meta.iface, meta.sourceMAC, devices[d].key);
      if key in linkByKey {
        l := linkByKey[key];
        changed := RefreshLink(l, meta, kind, ttl);
        return;
      }
      l := FindLink(d, meta.iface, if kind.PhysicalAdjacency? then SegmentPresence else PhysicalAdjacency);
      if l != -1 && kind.PhysicalAdjacency? {
        PromoteLink(l, key, meta);
        PromoteLinkKeeps(s, l, key, meta);
        var _ := RefreshLink(l, meta, kind, ttl);
        changed := true;
        return;
      }
      if l != -1 {
        changed := RefreshLink(l, meta, kind, ttl);
        return;
      }
      AllocLinkInv(s);
      AllocLinkRoom(s);
      l := AllocLink();
      AddLink(l, d, key, meta, kind, ttl);
      changed, added := true, true;
    }

    /** Filling a fresh slot with a link of device d. */
    method AddLink(l: int, d: int, key: LinkKey, meta: Meta, kind: LinkKind, ttl: int)
      requires Calm() && d in View().devices.keyOf && d in View().linkOwner.lists
      requires 0 <= l < limits.links && l !in View().links.keyOf
      modifies Repr()
      ensures Calm() && View() == Fusion.AddLink(old(View()), l, d, key, meta, kind, ttl)
    {
      hide FusionState.Valid, FusionState.View, NewLink, Fusion.RefreshLink;
      DeviceAt(d);
      var list := devices[d].links;
      FillLink(l, key, NewLink(meta, kind, key.device), d);
      SetLinkList(d, list + [l]);
      var _ := RefreshLink(l, meta, kind, ttl);
    }

    // ---------- the record cache ----------

    method SetDNSExpiry(r: int, now: Time, expires: Time)
      requires Calm() && r in View().records.keyOf && RecordAttached(View(), r) && View().recordOwner.owner[r] in View().devices.keyOf
      modifies Repr()
      ensures Calm() && View() == DNSCache.SetDNSExpiry(old(View()), r, now, expires)
    {
      hide FusionState.Valid, FusionState.View, Latest;
      DNSAt(r);
      TwoWheels();
      var e := dns[r];
      SetExpiresAt(r, expires);
      ScheduleDNS(r, now, expires);
      DeviceAt(e.device);
      var d := devices[e.device];
      if expires > d.dnsExpiry {
        SetDNSMaximum(e.device, expires);
      } else if e.expiresAt == d.dnsExpiry && expires < e.expiresAt {
        RecomputeDNSExpiry(e.device);
      }
    }

    method AddRecord(r: int, d: int, record: DNSRecord, now: Time, expires: Time)
      requires Calm() && d in View().devices.keyOf && d in View().recordOwner.lists && d in View().dnsExpiry
      requires 0 <= r < limits.dns && r !in View().records.keyOf
      modifies Repr()
      ensures Calm() && View() == DNSCache.AddRecord(old(View()), r, d, record, now, expires)
    {
      hide FusionState.Valid, FusionState.View, DNSCache.SetDNSExpiry;
      DeviceAt(d);
      var list := devices[d].dns;
      FillRecord(r, MakeKey(d, record), record, d);
      SetDNSList(d, list + [r]);
      SetDNSExpiry(r, now, expires);
    }

    method CacheDNS(d: int, record: DNSRecord, now: Time) returns (added: bool)
      requires Calm() && Inv(View()) && d in View().devices.keyOf
      modifies Repr()
      ensures Calm() && (View(), added) == DNSCache.CacheDNS(old(View()), d, record, now)
    {
      hide FusionState.Valid, FusionState.View, InvGap, DNSCache.SetDNSExpiry, DNSCache.AllocDNS, DNSCache.AddRecord, MakeKey;
      ghost var s := View();
      Indexes();
      var key := MakeKey(d, record);
      if key in dnsByKey {
        var r := dnsByKey[key];
        SoundAtInv(s, key);
        RecordThere(s, r);
        RecordOwnerAttached(s, r);
        DNSAt(r);
        if record.ttl == 0 {
          SetDNSExpiry(r, now, now + SECOND);
        } else {
          SetRecord(r, dns[r].record.(ttl := record.ttl, cacheFlush := record.cacheFlush));
          SetDNSExpiry(r, now, now + record.ttl * SECOND);
        }
        return false;
      }
      if record.ttl == 0 { return false; }
      AllocDNSInv(s);
      AllocDNSRoom(s);
      ListsOfGap(DNSCache.AllocDNS(s).0, WHOLE.(record := {DNSCache.AllocDNS(s).1}));
      var r := AllocDNS();
      AddRecord(r, d, record, now, now + record.ttl * SECOND);
      added := true;
    }

    /** Whether a message announces the record under this key in this set. */
    static method Announces(records: seq<DNSRecord>, d: int, key: DNSKey, rrset: RRSet) returns (found: bool)
      ensures found <==> AnnouncedIn(key, d, records, rrset)
    {
      hide MakeKey, SetOf;
      for i := 0 to |records|
        invariant forall j | 0 <= j < i :: !(SetOf(records[j]) == rrset && MakeKey(d, records[j]) == key)
      {
        if SetOf(records[i]) == rrset && MakeKey(d, records[i]) == key { return true; }
      }
      return false;
    }

    method FlushRecord(d: int, r: int, records: seq<DNSRecord>, rrset: RRSet, now: Time)
      requires Calm() && Inv(View())
      modifies Repr()
      ensures Calm() && View() == FlushOne(old(View()), d, r, records, rrset, now)
    {
      hide FusionState.Valid, FusionState.View, InvGap, DNSCache.SetDNSExpiry, AnnouncedIn, SetOf;
      DNSAt(r);
      if 0 <= r < dns.Length && dns[r].used {
        RecordThere(View(), r);
        RecordOwnerAttached(View(), r);
        var e := dns[r];
        if SetOf(e.record) == rrset {
          var keep := Announces(records, d, e.key, rrset);
          var receivedAt := e.expiresAt - e.record.ttl * SECOND;
          if !keep && now - receivedAt > SECOND && e.expiresAt > now + SECOND { SetDNSExpiry(r, now, now + SECOND); }
        }
      }
    }

    /** flushDNSSet. */
    method FlushDNSSet(d: int, records: seq<DNSRecord>, rrset: RRSet, now: Time)
      requires Calm() && Inv(View()) && d in View().devices.keyOf
      modifies Repr()
      ensures Calm() && d in old(View()).recordOwner.lists
      ensures View() == FlushSet(old(View()), d, old(View()).recordOwner.lists[d], records, rrset, now)
    {
      hide FusionState.Valid, FusionState.View, InvGap, FlushOne, Settled, RecordFrame;
      ghost var s := View();
      ListsThere(s);
      DeviceAt(d);
      ghost var list := devices[d].dns;
      FlushSetInv(s, d, list, records, rrset, now);
      var pos := 0;
      while pos < |devices[d].dns|
        invariant Calm() && Inv(View()) && View().recordOwner == s.recordOwner && d in View().devices.keyOf
        invariant 0 <= d < devices.Length && devices[d].dns == list && 0 <= pos <= |list|
        invariant FlushSet(View(), d, list[pos..], records, rrset, now) == FlushSet(s, d, list, records, rrset, now)
        decreases |list| - pos
      {
        FlushOneInv(View(), d, list[pos], records, rrset, now);
        FlushKeepsDevices(View(), d, list[pos], records, rrset, now);
        assert list[pos..][0] == list[pos] && list[pos..][1..] == list[pos + 1..];
        FlushRecord(d, devices[d].dns[pos], records, rrset, now);
        DeviceAt(d);
        pos := pos + 1;
      }
    }

    // ---------- observations ----------

    /** The common end of every observation. */
    method Conclude(meta: Meta, d: int, changed: set<Field>, wasNew: bool, o: Observation, w: World)
      requires Calm() && Inv(View()) && d in View().devices.keyOf
      modifies Repr()
      ensures Calm() && View() == Observations.Conclude(old(View()), meta, d, changed, wasNew, o, w)
    {
      hide FusionState.Valid, FusionState.View, InvGap, Fusion.UpsertLink, ApplyLinkAll, FactsOf, Complete;
      UpsertLinkInv(View(), meta, d, o.kind, o.ttl);
      var l, linkChanged, added := UpsertLink(meta, d, o.kind, o.ttl);
      ListsThere(View());
      LinkThere(View(), l);
      LinkAt(l);
      DeviceAt(d);
      var key, linkKey, k := devices[d].key, links[l].key, devices[d].info;
      var info, news := TakeLinkAll(o.linkEdits, links[l].info, meta.protocol, meta.timestamp, In(w, limits));
      var matched := w.classify(FactsOf(k));
      SetLink(l, info);
      SetInfo(d, k.(matched := matched));
      var all := changed + When(linkChanged || news, FieldLink) + When(matched != k.matched, FieldClassification);
      if all != {} || added || wasNew { Emit(Event(if added || wasNew then Added else Changed, all, key, linkKey)); }
    }

    /** A device's evidence taken in where it is kept. */
    method TakeIn(d: int, edits: seq<Edit>, p: Protocol, now: Time, w: World) returns (changed: set<Field>)
      requires Calm() && Inv(View()) && d in View().devices.keyOf && d in View().info
      modifies devices
      ensures Calm() && var s := old(View()); var a := ApplyAll(edits, s.info[d], p, now, In(w, s.limits));
              View() == s.(info := s.info[d := a.0]) && changed == a.1
    {
      hide FusionState.Valid, FusionState.View, InvGap, ApplyAll;
      ListsThere(View());
      DeviceAt(d);
      var info, more := TakeAll(edits, devices[d].info, p, now, In(w, limits));
      assert unchanged(Repr());
      changed := more;
      SetInfo(d, info);
    }

    /** The device is known by mDNS from now on. */
    method Speaking(d: int, now: Time, w: World)
      requires Calm() && Inv(View()) && d in View().devices.keyOf && d in View().info
      modifies devices
      ensures Calm() && var s := old(View());
              View() == s.(info := s.info[d := Timestamped(Apply(Speaks, s.info[d], MDNS, now, In(w, s.limits)).0, now)])
    {
      hide FusionState.Valid, FusionState.View, InvGap, Apply, Timestamped;
      DeviceAt(d);
      var info, _ := TakeEdit(Speaks, devices[d].info, MDNS, now, In(w, limits));
      assert unchanged(Repr());
      SetInfo(d, Timestamped(info, now));
    }

    method TakeHostIn(d: int, rec: DNSRecord, now: Time) returns (address: bool, name: bool)
      requires Calm() && Inv(View()) && d in View().devices.keyOf && d in View().info
      modifies devices
      ensures Calm() && var s := old(View());
              View() == s.(info := s.info[d := HostInfo(s.info[d], rec, now, s.limits.alternatives)])
      ensures var k := old(View()).info[d];
              var host := IsHost(rec);
              address == (host && Unmap(rec.address) !in k.addresses) && name == (host && HostNews(k, rec, now, old(View()).limits.alternatives))
    {
      hide FusionState.Valid, FusionState.View, InvGap, HostInfo, HostNews, Unmap;
      DeviceAt(d);
      var info;
      info, address, name := TakeHost(devices[d].info, rec, now, limits.alternatives);
      assert unchanged(Repr());
      SetInfo(d, info);
    }

    /** observeLLDP, observeCDP and observeMNDP. */
    method Observe(meta: Meta, o: Observation, w: World)
      requires Calm() && Inv(View())
      modifies Repr()
      ensures Calm() && View() == Observed(old(View()), meta, o, w) && Inv(View())
    {
      hide FusionState.Valid, FusionState.View, InvGap, Fusion.DeviceFor, ApplyAll, Observations.Conclude, Timestamped;
      ghost var s := View();
      DeviceForInv(s, meta, o.claimed, o.addresses);
      ObservedInv(s, meta, o, w);
      var d := DeviceFor(meta, o.claimed, o.addresses);
      if d == -1 { return; }
      ghost var t := View();
      ListsThere(t);
      DeviceAt(d);
      var k := devices[d].info;
      var info, changed := TakeAll(o.edits, k, meta.protocol, meta.timestamp, In(w, limits));
      SetInfo(d, Timestamped(info, meta.timestamp));
      InfoInv(t, View());
      Conclude(meta, d, changed, k.protocols == {}, o, w);
    }

    /** observeMNDP: a refresh request is ignored. */
    method ObserveMNDP(meta: Meta, m: MNDPMessage, idleTTL: int, w: World)
      requires Calm() && Inv(View())
      modifies Repr()
      ensures Calm() && View() == ObservedMNDP(old(View()), meta, m, idleTTL, w) && Inv(View())
    {
      hide FusionState.Valid, FusionState.View, InvGap, Observed, MNDPObservation;
      if m.isRefresh { return; }
      Observe(meta, MNDPObservation(meta, m, idleTTL), w);
    }

    /** Whether record i is the first of its set in the message to ask for a flush. */
    static method FirstToFlush(records: seq<DNSRecord>, i: nat) returns (first: bool)
      requires i < |records|
      ensures first <==> Flushes(records, i)
    {
      hide SetOf;
      if !records[i].cacheFlush { return false; }
      for j := 0 to i
        invariant forall m | 0 <= m < j :: !(records[m].cacheFlush && SetOf(records[m]) == SetOf(records[i]))
      {
        if records[j].cacheFlush && SetOf(records[j]) == SetOf(records[i]) { return false; }
      }
      return true;
    }

    /** The flush a record may ask for, before the record itself is cached. */
    method FlushFor(d: int, records: seq<DNSRecord>, i: nat, now: Time)
      requires Calm() && Inv(View()) && d in View().devices.keyOf && i < |records|
      modifies Repr()
      ensures Calm() && View() == SetFlushed(old(View()), d, records, i, now)
    {
      hide FusionState.Valid, FusionState.View, InvGap, FlushSet, Flushes, SetOf;
      ListsThere(View());
      var flush := FirstToFlush(records, i);
      if flush { FlushDNSSet(d, records, SetOf(records[i]), now); }
    }

    method ProcessRecord(d: int, records: seq<DNSRecord>, i: nat, now: Time) returns (changed: set<Field>)
      requires Calm() && Inv(View()) && d in View().devices.keyOf && i < |records|
      modifies Repr()
      ensures Calm() && View() == DNSCache.ProcessRecord(old(View()), d, records, i, now)
      ensures changed == RecordFields(old(View()), d, records, i, now)
    {
      hide FusionState.Valid, FusionState.View, InvGap, SetFlushed, DNSCache.CacheDNS, OthersKept, HostInfo, When, HostNews, Unmap, Complete, MakeKey,
           DNSCache.ProcessRecord, RecordFields;
      ghost var s := View();
      ListsThere(s);
      FlushedInv(s, d, records, i, now);
      FlushFor(d, records, i, now);
      CacheDNSInv(View(), d, records[i], now);
      var added := CacheDNS(d, records[i], now);
      ListsThere(View());
      var address, name := TakeHostIn(d, records[i], now);
      changed := When(added, FieldServices) + When(address, FieldAddresses) + When(name, FieldNames);
      ProcessedParts(s, d, records, i, now);
    }

    /** The identity and records of an mDNS message taken in, and the fields they changed. */
    method Record(meta: Meta, d: int, records: seq<DNSRecord>, w: World) returns (changed: set<Field>)
      requires Calm() && Inv(View()) && d in View().devices.keyOf
      modifies Repr()
      ensures Calm() && View() == Recorded(old(View()), meta, d, records, w)
      ensures changed == MDNSFields(old(View()), meta, d, records, w)
    {
      hide FusionState.Valid, FusionState.View, InvGap, ApplyAll, Apply, Timestamped, DNSCache.ProcessRecord, RecordFields, AllSettled;
      ghost var s := View();
      ListsThere(s);
      DeviceAt(d);
      var k := devices[d].info;
      var first := TakeIn(d, Sighting(meta) + [HasAddress(meta.sourceIP)], MDNS, meta.timestamp, w);
      ghost var s1 := View();
      InfoInv(s, s1);
      changed := {};
      for i := 0 to |records|
        invariant Calm() && Inv(View()) && d in View().devices.keyOf && View().limits == s.limits
        invariant View() == ProcessRecords(s1, d, records, i, meta.timestamp)
        invariant changed == AllRecordFields(s1, d, records, i, meta.timestamp)
      {
        ProcessRecordInv(View(), d, records, i, meta.timestamp);
        var more := ProcessRecord(d, records, i, meta.timestamp);
        changed := changed + more;
      }
      ListsThere(View());
      Speaking(d, meta.timestamp, w);
      changed := first + changed + When(MDNS !in k.protocols, FieldIdentity);
    }

    /** observeMDNS. */
    method ObserveMDNS(meta: Meta, records: seq<DNSRecord>, w: World)
      requires Calm() && Inv(View())
      modifies Repr()
      ensures Calm() && View() == ObservedMDNS(old(View()), meta, records, w) && Inv(View())
    {
      hide FusionState.Valid, FusionState.View, InvGap, Fusion.DeviceFor, ApplyAll, Observations.Conclude, Recorded, AllRecordFields;
      ghost var s := View();
      var addresses := if meta.sourceIP == NoAddr then AnyAddress(records) else [];
      DeviceForInv(s, meta, NO_MAC, addresses);
      ObservedMDNSInv(s, meta, records, w);
      var d := DeviceFor(meta, NO_MAC, addresses);
      if d == -1 { return; }
      ghost var t := View();
      ListsThere(t);
      DeviceAt(d);
      var k := devices[d].info;
      RecordedInv(t, meta, d, records, w);
      var changed := Record(meta, d, records, w);
      ListsThere(View());
      DeviceAt(d);
      Conclude(meta, d, changed, k.protocols == {}, NO_EVIDENCE.(ttl := LinkTTL(devices[d].dnsExpiry, meta.timestamp)), w);
    }

    // ---------- the tick ----------

    method AdvanceLinks() returns (first: int)
      requires Calm()
      modifies linkWheel
      ensures Valid() && dnsWheel.walk == [] && View() == old(View()).(linkDue := Nearer(old(View()).linkDue))
      ensures first == At(linkWheel.walk, 0) && NoDup(linkWheel.walk)
      ensures forall l | l in linkWheel.walk :: l in View().linkDue
      ensures forall l | l in View().linkDue && View().linkDue[l] <= 0 :: l in linkWheel.walk
    {
      hide Column, TimingWheel.Countdown, TimingWheel.Valid;
      first := linkWheel.Advance();
    }

    method AdvanceDNS() returns (first: int)
      requires Calm()
      modifies dnsWheel
      ensures Valid() && linkWheel.walk == [] && View() == old(View()).(dnsDue := Nearer(old(View()).dnsDue))
      ensures first == At(dnsWheel.walk, 0) && NoDup(dnsWheel.walk)
      ensures forall r | r in dnsWheel.walk :: r in View().dnsDue
      ensures forall r | r in View().dnsDue && View().dnsDue[r] <= 0 :: r in dnsWheel.walk
    {
      hide Column, TimingWheel.Countdown, TimingWheel.Valid;
      first := dnsWheel.Advance();
    }

    /** The entry the walk has reached is passed over, or found due and left to the caller. */
    method VisitLink(l: int) returns (next: int, due: bool)
      requires Valid() && linkWheel.walk != [] && l == linkWheel.walk[0] && l >= 0
      modifies linkWheel, linkWheel.nodes
      ensures Valid() && View() == old(View()) && next == At(old(linkWheel.walk), 1)
      ensures l in View().linkDue && View().linkDue[l] >= 0 && (due <==> View().linkDue[l] == 0)
      ensures linkWheel.walk == if due then old(linkWheel.walk) else old(linkWheel.walk)[1..]
    {
      hide Column, TimingWheel.Countdown, TimingWheel.Valid;
      next, due := linkWheel.Reached(l);
      if !due { linkWheel.Skip(l); }
    }

    method VisitDNS(r: int) returns (next: int, due: bool)
      requires Valid() && dnsWheel.walk != [] && r == dnsWheel.walk[0] && r >= 0
      modifies dnsWheel, dnsWheel.nodes
      ensures Valid() && View() == old(View()) && next == At(old(dnsWheel.walk), 1)
      ensures r in View().dnsDue && View().dnsDue[r] >= 0 && (due <==> View().dnsDue[r] == 0)
      ensures dnsWheel.walk == if due then old(dnsWheel.walk) else old(dnsWheel.walk)[1..]
    {
      hide Column, TimingWheel.Countdown, TimingWheel.Valid;
      next, due := dnsWheel.Reached(r);
      if !due { dnsWheel.Skip(r); }
    }

    /** The deadlines of a link that have passed are cleared, protocol by protocol. */
    static method ClearPast(k: LinkInfo, now: Time) returns (expires: Deadlines, protocols: ProtocolSet, changed: bool)
      requires Timed(k)
      ensures expires == Cleared(k.expires, now) && protocols == Aged(k, now).protocols && (changed <==> protocols != k.protocols)
    {
      hide EarliestExpiry, LatestExpiry;
      expires, protocols, changed := k.expires, k.protocols, false;
      for i := 0 to 4
        invariant expires == ClearedTo(k.expires, i, now) && protocols == SupportedTo(k, i, now)
        invariant changed <==> protocols != k.protocols
      {
        var p := ORDER[i];
        Ordinals(i);
        if expires.Get(p) != 0 && expires.Get(p) <= now {
          assert p in k.protocols;
          expires := expires.Set(p, 0);
          protocols := protocols - {p};
          changed := true;
        }
      }
      assert forall p: Protocol :: Ordinal(p) < 4;
    }

    /** A due link without its past protocols; changed tells whether one went. */
    static method Age(k: LinkInfo, now: Time) returns (a: LinkInfo, changed: bool)
      requires Timed(k)
      ensures a == Aged(k, now) && (changed <==> a.protocols != k.protocols)
    {
      hide EarliestExpiry, LatestExpiry, Timed;
      var expires, protocols;
      expires, protocols, changed := ClearPast(k, now);
      a := k.(expires := expires, protocols := protocols, expiresAt := EarliestExpiry(expires), ttl := LatestExpiry(expires) - now);
    }

    /** A link with nothing left goes, and its device with it if that has nothing left. */
    method RemoveExpired(l: int)
      requires Valid() && dnsWheel.walk == [] && l !in linkWheel.walk && Attached(View(), l)
      requires View().linkOwner.owner[l] in View().recordOwner.lists && View().linkOwner.owner[l] in View().devices.keyOf
      modifies Repr()
      ensures Valid() && dnsWheel.walk == [] && linkWheel.walk == old(linkWheel.walk)
      ensures View() == WithoutLink(old(View()), l)
    {
      hide FusionState.Valid, FusionState.View, Forget;
      LinkAt(l);
      TwoWheels();
      var d := links[l].device;
      RemoveLink(l, Expired);
      DeviceAt(d);
      if devices[d].used && devices[d].links == [] && devices[d].dns == [] { DropDevice(d); }
    }

    /** The visit of a due link. */
    method ExpireLink(l: int, now: Time)
      requires Valid() && dnsWheel.walk == [] && Inv(View()) && l in View().links.keyOf
      requires linkWheel.walk != [] && l == linkWheel.walk[0] && NoDup(linkWheel.walk)
      modifies Repr()
      ensures Valid() && dnsWheel.walk == [] && linkWheel.walk == old(linkWheel.walk)[1..]
      ensures View() == Expiry.ExpireLink(old(View()), l, now)
    {
      hide FusionState.Valid, FusionState.View, InvGap, WithoutLink, Aged, Timed, Expiry.ExpireLink, Timing.Ticks;
      ghost var s := View();
      LinkOwnerThere(s, l);
      LinkOwnerAttached(s, l);
      ListsThere(s);
      ExpireLinkCases(s, l, now);
      LinkAt(l);
      TwoWheels();
      var e := links[l];
      DeviceAt(e.device);
      var key := devices[e.device].key;
      UnscheduleLink(l);
      assert l !in linkWheel.walk;
      var k, changed := Age(e.info, now);
      if k.protocols == {} {
        RemoveExpired(l);
      } else {
        Reschedule(l, k, now);
        if changed { Emit(Event(Changed, {FieldLink}, key, e.key)); }
      }
    }

    method Reschedule(l: int, k: LinkInfo, now: Time)
      requires Valid() && l in View().links.keyOf && l !in linkWheel.walk
      modifies links, linkWheel, linkWheel.heads, linkWheel.nodes
      ensures Valid() && linkWheel.walk == old(linkWheel.walk)
      ensures View() == old(View()).(link := old(View()).link[l := k], linkDue := old(View()).linkDue[l := Timing.Ticks(k.expiresAt - now)])
    {
      hide FusionState.Valid, FusionState.View, Timing.Ticks;
      SetLink(l, k);
      ScheduleLink(l, now, k.expiresAt);
    }

    /** The link half of a tick: the walk unlinks entries and may put them back at the head of the
        list it walks. */
    method ExpireDueLinks(now: Time) returns (ghost order: seq<int>)
      requires Calm() && Inv(View())
      modifies Repr()
      ensures Calm() && VisitsDue(order, Nearer(old(View()).linkDue))
      ensures Inv(old(View()).(linkDue := Nearer(old(View()).linkDue)))
      ensures View() == ExpireLinks(old(View()).(linkDue := Nearer(old(View()).linkDue)), order, now)
    {
      hide FusionState.Valid, FusionState.View, InvGap, Expiry.ExpireLink, Complete, WalkLeft;
      ghost var s := View();
      var idx := AdvanceLinks();
      ghost var s0 := View();
      DueInv(s, s0);
      DueLinksUsed(s0);
      order := [];
      WalkStarts(linkWheel.walk, s0.linkDue);
      while idx >= 0
        invariant Valid() && dnsWheel.walk == [] && Inv(View()) && idx == At(linkWheel.walk, 0)
        invariant View() == ExpireLinks(s0, order, now)
        invariant WalkLeft(linkWheel.walk, order, s0.linkDue, View().linkDue)
        decreases |linkWheel.walk|
      {
        ghost var w, t := linkWheel.walk, View();
        DueLinksUsed(t);
        WalkStep(w, order, s0.linkDue, t.linkDue);
        var next, due := VisitLink(idx);
        if due {
          ExpireLinkInv(t, idx, now);
          OneLinkVisited(t, idx, now);
          ExpireLink(idx, now);
          WalkVisited(w, order, s0.linkDue, t.linkDue, View().linkDue);
          order := order + [idx];
          assert order[..|order| - 1] + [idx] == order;
        }
        idx := next;
      }
      WalkEnds(linkWheel.walk, order, s0.linkDue, View().linkDue);
    }

    /** The record half: every due record goes; the devices that lost one are returned. */
    method ExpireDueRecords() returns (owners: seq<int>, ghost order: seq<int>)
      requires Calm() && Inv(View())
      modifies Repr()
      ensures Calm() && VisitsDue(order, Nearer(old(View()).dnsDue))
      ensures Inv(old(View()).(dnsDue := Nearer(old(View()).dnsDue)))
      ensures View() == ExpireRecords(old(View()).(dnsDue := Nearer(old(View()).dnsDue)), order)
      ensures owners == OwnersOf(old(View()).recordOwner.owner, order)
    {
      hide FusionState.Valid, FusionState.View, InvGap, Complete, DropDNS, WalkLeft;
      ghost var s := View();
      var idx := AdvanceDNS();
      ghost var s0 := View();
      DueInv(s, s0);
      DueRecordsUsed(s0);
      order, owners := [], [];
      WalkStarts(dnsWheel.walk, s0.dnsDue);
      while idx >= 0
        invariant Valid() && linkWheel.walk == [] && Inv(View()) && idx == At(dnsWheel.walk, 0)
        invariant View() == ExpireRecords(s0, order) && owners == OwnersOf(s.recordOwner.owner, order)
        invariant WalkLeft(dnsWheel.walk, order, s0.dnsDue, View().dnsDue)
        invariant forall r | r in View().recordOwner.owner :: r in s.recordOwner.owner && s.recordOwner.owner[r] == View().recordOwner.owner[r]
        decreases |dnsWheel.walk|
      {
        ghost var w, t := dnsWheel.walk, View();
        DueRecordsUsed(t);
        WalkStep(w, order, s0.dnsDue, t.dnsDue);
        var next, due := VisitDNS(idx);
        if due {
          RemoveDNSInv(t, idx, WHOLE);
          OneRecordGone(t, idx);
          RecordOwnerAttached(t, idx);
          DNSAt(idx);
          var d := dns[idx].device;
          RemoveDNS(idx);
          if d !in owners { owners := owners + [d]; }
          WalkVisited(w, order, s0.dnsDue, t.dnsDue, View().dnsDue);
          order := order + [idx];
          assert order[..|order| - 1] + [idx] == order;
        }
        idx := next;
      }
      WalkEnds(dnsWheel.walk, order, s0.dnsDue, View().dnsDue);
    }

    /** The first used link of a device; under the invariant that is the first of its list. */
    method FirstLink(d: int) returns (l: int)
      requires Calm() && Inv(View()) && d in View().devices.keyOf
      ensures d in View().linkOwner.lists
      ensures l == At(View().linkOwner.lists[d], 0) && (l != -1 ==> l in View().links.keyOf) && (l == -1 <==> View().linkOwner.lists[d] == [])
    {
      hide FusionState.Valid, FusionState.View, InvGap;
      ListsThere(View());
      DeviceAt(d);
      ghost var s := View();
      var list := devices[d].links;
      for i := 0 to |list|
        invariant i == 0 && Valid() && View() == s
      {
        FirstOwned(View(), d);
        LinkAt(list[i]);
        if 0 <= list[i] < links.Length && links[list[i]].used { return list[i]; }
      }
      return -1;
    }

    method ReviewDevice(d: int)
      requires Calm() && Inv(View())
      modifies Repr()
      ensures Calm() && View() == Review(old(View()), d)
    {
      hide FusionState.Valid, FusionState.View, InvGap, Forget;
      DeviceAt(d);
      if d < 0 || d >= devices.Length || !devices[d].used { return; }
      ListsThere(View());
      var l := FirstLink(d);
      if l >= 0 {
        FirstOwned(View(), d);
        LinkAt(l);
        Emit(Event(Changed, {FieldServices}, devices[d].key, links[l].key));
      } else {
        LinksNotNegative(View());
        if devices[d].dns == [] { DropDevice(d); }
      }
    }

    /** One tick: exactly the due links and the due records are visited, each once. */
    method Tick(now: Time) returns (ghost linkOrder: seq<int>, ghost dnsOrder: seq<int>)
      requires Calm() && Inv(View())
      modifies Repr()
      ensures Calm() && Inv(View())
      ensures VisitsDue(linkOrder, Nearer(old(View()).linkDue)) && VisitsDue(dnsOrder, Nearer(old(View()).dnsDue))
      ensures View() == Expiry.Tick(old(View()), now, linkOrder, dnsOrder)
    {
      hide FusionState.Valid, FusionState.View, InvGap, ExpireLinks, ExpireRecords, Review;
      linkOrder := ExpireDueLinks(now);
      ghost var s1 := View();
      var owners;
      owners, dnsOrder := ExpireDueRecords();
      ghost var s3 := View();
      for i := 0 to |owners|
        invariant Calm() && Inv(View()) && View() == ReviewAll(s3, owners[..i])
      {
        assert owners[..i + 1][..i] == owners[..i];
        ReviewDevice(owners[i]);
      }
      assert owners[..|owners|] == owners;
    }
  }

  /** The link on the move, once popped, re-keyed and handed to dst. */
  ghost function InTransit(s: Store, dst: int, src: int): Store
    requires Inv(s) && dst in s.devices.keyOf && src in s.devices.keyOf && dst != src
    requires src in s.linkOwner.lists && s.linkOwner.lists[src] != []
  {
    LastLinkThere(s, src);
    SlotsThere(s);
    var l, list := LastLink(s, src), s.linkOwner.lists[src];
    var key := s.devices.keyOf[dst];
    s.(links := s.links.(keyOf := s.links.keyOf[l := s.links.keyOf[l].(device := key)], byKey := s.links.byKey - {s.links.keyOf[l]}),
       linkOwner := Owners(s.linkOwner.owner[l := dst], s.linkOwner.lists[src := list[..|list| - 1]]),
       link := s.link[l := s.link[l].(device := key)])
  }

  /** No collision: the link is indexed under its new key and joins dst's list. */
  lemma LinkArrives(s: Store, dst: int, src: int)
    requires Inv(s) && dst in s.devices.keyOf && src in s.devices.keyOf && dst != src
    requires src in s.linkOwner.lists && s.linkOwner.lists[src] != []
    ensures var l, t := LastLink(s, src), InTransit(s, dst, src);
            && l in t.links.keyOf && dst in t.linkOwner.lists
            && var k := t.links.keyOf[l];
               !(k in t.links.byKey && t.links.byKey[k] != l) ==>
                 t.(links := t.links.(byKey := t.links.byKey[k := l]),
                    linkOwner := t.linkOwner.(lists := t.linkOwner.lists[dst := t.linkOwner.lists[dst] + [l]])) == Stores.MoveLink(s, dst, src)
  {
    hide Partition, Complete, MaximaCached, LinksTimed, MergedLink, LinkKeysAgree, Owned;
    LastLinkThere(s, src);
    ListsThere(s);
  }

  function Absorbed(t: Store, e: int, l: int): Store
    requires e in t.link && l in t.link
  {
    var m := MergedLink(t.link[e], t.link[l]);
    t.(link := t.link[e := m], linkDue := t.linkDue[e := Timing.Ticks(m.expiresAt - m.lastSeen)])
  }

  /** A collision: removing the re-keyed link takes the survivor's index entry with it. */
  lemma LinkStrikes(s: Store, dst: int, src: int)
    requires Inv(s) && dst in s.devices.keyOf && src in s.devices.keyOf && dst != src
    requires src in s.linkOwner.lists && s.linkOwner.lists[src] != []
    requires var l, t := LastLink(s, src), InTransit(s, dst, src);
             l in t.links.keyOf && t.links.keyOf[l] in t.links.byKey && t.links.byKey[t.links.keyOf[l]] != l
    ensures var l, t := LastLink(s, src), InTransit(s, dst, src); var e := t.links.byKey[t.links.keyOf[l]];
            && l in t.link && e in t.links.keyOf && e in t.link && Attached(t, l) && Attached(Absorbed(t, e, l), l)
            && DropLink(Absorbed(t, e, l), l, Changed) == Stores.MoveLink(s, dst, src)
  {
    hide Partition, Complete, MaximaCached, LinksTimed, MergedLink, LinkKeysAgree, SwapRemove, Timing.Ticks, Release, Disown, MoveTo,
         Owned, Sound, RecordKeysAgree, SlotsKeyed, DevicesKeyed;
    LastLinkThere(s, src);
    LastOwned(s.linkOwner, src);
    SlotsThere(s);
    ListsThere(s);
    LinkMeets(s, dst, src);
    hide InvGap;
    var l, t := LastLink(s, src), InTransit(s, dst, src);
    var k := t.links.keyOf[l];
    var e := t.links.byKey[k];
    StruckIndex(s.links, l, k);
    StruckOwner(s.linkOwner, l, src, dst);
    OnlyTimesMerged(s.link[e], s.link[l], s.devices.keyOf[dst]);
    MoveLinkStrikes(s, dst, src);
    hide Stores.MoveLink, Collides, MergedLink;
    Erased(s.link, l, t.link[l], e, MergedLink(s.link[e], s.link[l]));
  }

  /** The store's move of a link whose new key is taken. */
  lemma MoveLinkStrikes(s: Store, dst: int, src: int)
    requires Inv(s) && dst in s.devices.keyOf && src in s.devices.keyOf && src in s.linkOwner.lists && s.linkOwner.lists[src] != []
    requires SlotsKeyed(s) && LastLink(s, src) in s.links.keyOf
    requires Collides(s.links, LastLink(s, src), s.links.keyOf[LastLink(s, src)].(device := s.devices.keyOf[dst]))
    ensures var l := LastLink(s, src); var k := s.links.keyOf[l].(device := s.devices.keyOf[dst]); var e := s.links.byKey[k];
            && e in s.link && l in s.linkOwner.owner && s.linkOwner.owner[l] in s.linkOwner.lists
            && var m := MergedLink(s.link[e], s.link[l]);
               Stores.MoveLink(s, dst, src)
               == s.(links := MoveTo(s.links, l, k), linkOwner := Disown(s.linkOwner, l), link := s.link[e := m] - {l},
                     linkDue := s.linkDue[e := Timing.Ticks(m.expiresAt - m.lastSeen)] - {l},
                     events := s.events + [Event(Changed, {FieldLink}, s.devices.keyOf[dst], k)])
  {
    hide Partition, Complete, MaximaCached, LinksTimed, MergedLink, LinkKeysAgree, RecordKeysAgree, MoveTo, Disown, Timing.Ticks;
    LastOwned(s.linkOwner, src);
    SoundAt(s.links, s.links.keyOf[LastLink(s, src)].(device := s.devices.keyOf[dst]));
  }

  lemma Erased<V>(m: map<int, V>, l: int, v: V, e: int, w: V)
    requires e != l
    ensures m[l := v][e := w] - {l} == m[e := w] - {l}
  {
  }

  lemma LinkMeets(s: Store, dst: int, src: int)
    requires Inv(s) && dst in s.devices.keyOf && src in s.devices.keyOf && dst != src
    requires src in s.linkOwner.lists && s.linkOwner.lists[src] != []
    ensures var l, list := LastLink(s, src), s.linkOwner.lists[src];
            && l in s.links.keyOf && dst in s.linkOwner.lists && l !in s.linkOwner.lists[dst]
            && SwapRemove(list, l) == list[..|list| - 1] && SwapRemove(s.linkOwner.lists[dst], l) == s.linkOwner.lists[dst]
    ensures forall k | k in s.links.byKey :: s.links.byKey[k] in s.links.keyOf && s.links.keyOf[s.links.byKey[k]] == k
  {
    hide Partition, Complete, MaximaCached, LinksTimed, LinkKeysAgree, RecordKeysAgree;
    LastLinkThere(s, src);
    LastOwned(s.linkOwner, src);
    ListsThere(s);
    OwnedList(s.linkOwner, src);
    OwnedList(s.linkOwner, dst);
    LastRemoved(s.linkOwner.lists[src]);
    NotListed(s.linkOwner.lists[dst], LastLink(s, src));
  }

  /** Taking a slot out of the index, re-keying it to a taken key and releasing it. */
  lemma StruckIndex<K>(t: Slab<K>, i: int, k: K)
    requires i in t.keyOf && Collides(t, i, k)
    ensures Release(t.(keyOf := t.keyOf[i := k], byKey := t.byKey - {t.keyOf[i]}), i) == MoveTo(t, i, k)
  {
  }

  lemma StruckOwner(o: Owners, i: int, src: int, dst: int)
    requires src in o.lists && dst in o.lists && src != dst && i in o.owner && o.owner[i] == src && i !in o.lists[dst]
    requires o.lists[src] != [] && SwapRemove(o.lists[src], i) == o.lists[src][..|o.lists[src]| - 1]
    ensures Disown(Owners(o.owner[i := dst], o.lists[src := o.lists[src][..|o.lists[src]| - 1]]), i) == Disown(o, i)
  {
    var list := o.lists[src][..|o.lists[src]| - 1];
    var p := Owners(o.owner[i := dst], o.lists[src := list]);
    assert p.lists[dst] == o.lists[dst];
    assert p.lists[dst := p.lists[dst]] == p.lists;
  }

  lemma RecordOnList(s: Store, d: int)
    requires Emptying(s, d) && d in s.recordOwner.lists && s.recordOwner.lists[d] != []
    ensures RecordAttached(s, LastRecord(s, d)) && s.recordOwner.owner[LastRecord(s, d)] == d
    ensures LastRecord(s, d) in s.record && LastRecord(s, d) in s.dnsDue
    ensures s.recordOwner.lists.Keys == s.devices.keyOf.Keys && s.dnsExpiry.Keys == s.devices.keyOf.Keys
  {
    hide Sound, Partition, Complete, MaximaCached, RecordKeysAgree, LinksTimed, LinkKeysAgree;
    LastOwned(s.recordOwner, d);
  }

  /** The record on the move, once popped, re-keyed and handed to dst. */
  ghost function DNSInTransit(s: Store, dst: int, src: int): Store
    requires Emptying(s, src) && dst in s.devices.keyOf && src in s.devices.keyOf && dst != src
    requires src in s.recordOwner.lists && s.recordOwner.lists[src] != []
  {
    RecordOnList(s, src);
    var r, list := LastRecord(s, src), s.recordOwner.lists[src];
    s.(records := s.records.(keyOf := s.records.keyOf[r := s.records.keyOf[r].(device := dst)], byKey := s.records.byKey - {s.records.keyOf[r]}),
       recordOwner := Owners(s.recordOwner.owner[r := dst], s.recordOwner.lists[src := list[..|list| - 1]]))
  }

  lemma RecordArrives(s: Store, dst: int, src: int)
    requires Emptying(s, src) && dst in s.devices.keyOf && src in s.devices.keyOf && dst != src
    requires src in s.recordOwner.lists && s.recordOwner.lists[src] != []
    ensures var r, t := LastRecord(s, src), DNSInTransit(s, dst, src);
            && r in t.records.keyOf && dst in t.recordOwner.lists && dst in t.dnsExpiry && r in t.expiresAt
            && var k := t.records.keyOf[r];
               !(k in t.records.byKey && t.records.byKey[k] != r) ==>
                 t.(records := t.records.(byKey := t.records.byKey[k := r]),
                    recordOwner := t.recordOwner.(lists := t.recordOwner.lists[dst := t.recordOwner.lists[dst] + [r]]),
                    dnsExpiry := if t.expiresAt[r] > t.dnsExpiry[dst] then t.dnsExpiry[dst := t.expiresAt[r]] else t.dnsExpiry)
                 == Stores.MoveRecord(s, dst, src)
  {
    hide Partition, Complete, MaximaCached, LinksTimed, LinkKeysAgree, Owned, Sound, RecordKeysAgree, SlotsKeyed, DevicesKeyed;
    RecordOnList(s, src);
    assert s.dnsExpiry[dst := s.dnsExpiry[dst]] == s.dnsExpiry;
  }

  lemma RecordStrikes(s: Store, dst: int, src: int)
    requires Emptying(s, src) && dst in s.devices.keyOf && src in s.devices.keyOf && dst != src
    requires src in s.recordOwner.lists && s.recordOwner.lists[src] != []
    requires var r, t := LastRecord(s, src), DNSInTransit(s, dst, src);
             r in t.records.keyOf && t.records.keyOf[r] in t.records.byKey && t.records.byKey[t.records.keyOf[r]] != r
    ensures var r, t := LastRecord(s, src), DNSInTransit(s, dst, src);
            RecordAttached(t, r) && t.recordOwner.owner[r] in t.devices.keyOf && DropDNS(t, r) == Stores.MoveRecord(s, dst, src)
  {
    hide Partition, Complete, MaximaCached, LinksTimed, LinkKeysAgree, SwapRemove, Release, Disown, MoveTo,
         Owned, Sound, RecordKeysAgree, SlotsKeyed, DevicesKeyed, Latest;
    RecordOnList(s, src);
    var r, list := LastRecord(s, src), s.recordOwner.lists[src];
    OwnedList(s.recordOwner, src);
    OwnedList(s.recordOwner, dst);
    LastRemoved(list);
    NotListed(s.recordOwner.lists[dst], r);
    StruckIndex(s.records, r, DNSInTransit(s, dst, src).records.keyOf[r]);
    StruckOwner(s.recordOwner, r, src, dst);
  }

  lemma AllocFree(s: Store)
    requires Inv(s)
    ensures var r := Stores.AllocDevice(s); r.0.limits == s.limits && 0 <= r.1 < s.limits.devices && r.1 !in r.0.devices.keyOf
  {
    hide InvGap;
  }

  lemma AllocLinkRoom(s: Store)
    requires Inv(s)
    ensures var r := Fusion.AllocLink(s);
            0 <= r.1 < s.limits.links && r.0.linkOwner.lists.Keys == r.0.devices.keyOf.Keys
  {
    hide Sound, Complete, Owned, MaximaCached, RecordKeysAgree, LinkKeysAgree, LinksTimed, Disown;
    AllocLinkInv(s);
    if s.links.free != [] { assert s.links.free[|s.links.free| - 1] in s.links.free; } else { AllocLinkStep(s); }
  }

  lemma AllocDNSRoom(s: Store)
    requires Inv(s)
    ensures 0 <= DNSCache.AllocDNS(s).1 < s.limits.dns
  {
    hide Sound, Complete, Owned, MaximaCached, RecordKeysAgree, LinkKeysAgree, LinksTimed, Disown, Latest;
    AllocDNSInv(s);
    if s.records.free != [] { assert s.records.free[|s.records.free| - 1] in s.records.free; } else { AllocDNSStep(s); }
  }

  lemma FlushKeepsDevices(s: Store, d: int, r: int, records: seq<DNSRecord>, rrset: RRSet, now: Time)
    requires Inv(s)
    ensures FlushOne(s, d, r, records, rrset, now).devices == s.devices
  {
    hide InvGap;
    FlushOneInv(s, d, r, records, rrset, now);
  }

  /** A flush writes expiries, not evidence. */
  lemma FlushedInv(s: Store, d: int, records: seq<DNSRecord>, i: nat, now: Time)
    requires Inv(s) && d in s.devices.keyOf && i < |records|
    ensures var t := SetFlushed(s, d, records, i, now); t.info == s.info && t.limits == s.limits && t.devices == s.devices && Inv(t)
  {
    hide InvGap, FlushSet, OthersKept, Settled, Flushes;
    ListsThere(s);
    FlushSetInv(s, d, s.recordOwner.lists[d], records, SetOf(records[i]), now);
  }

  /** The parts a record's processing is made of. */
  lemma ProcessedParts(s: Store, d: int, records: seq<DNSRecord>, i: nat, now: Time)
    requires Inv(s) && d in s.devices.keyOf && i < |records|
    ensures var t := SetFlushed(s, d, records, i, now);
            && Inv(t) && d in t.devices.keyOf && d in s.info && d in DNSCache.CacheDNS(t, d, records[i], now).0.info
            && var u, host := DNSCache.CacheDNS(t, d, records[i], now), IsHost(records[i]);
               && DNSCache.ProcessRecord(s, d, records, i, now)
                  == u.0.(info := u.0.info[d := HostInfo(u.0.info[d], records[i], now, s.limits.alternatives)])
               && RecordFields(s, d, records, i, now)
                  == When(u.1, FieldServices) + When(host && Unmap(records[i].address) !in s.info[d].addresses, FieldAddresses)
                     + When(host && HostNews(s.info[d], records[i], now, s.limits.alternatives), FieldNames)
  {
    hide InvGap, FlushSet, DNSCache.CacheDNS, OthersKept, HostInfo, When, HostNews, Flushes, Settled;
    FlushedInv(s, d, records, i, now);
    ListsThere(s);
    CacheDNSInv(SetFlushed(s, d, records, i, now), d, records[i], now);
    ListsThere(DNSCache.CacheDNS(SetFlushed(s, d, records, i, now), d, records[i], now).0);
  }

  /** The device fields an mDNS message changes. */
  ghost function MDNSFields(s: Store, meta: Meta, d: int, records: seq<DNSRecord>, w: World): set<Field>
    requires Inv(s) && d in s.devices.keyOf
  {
    ListsThere(s);
    var a := ApplyAll(Sighting(meta) + [HasAddress(meta.sourceIP)], s.info[d], MDNS, meta.timestamp, In(w, s.limits));
    InfoInv(s, s.(info := s.info[d := a.0]));
    a.1 + AllRecordFields(s.(info := s.info[d := a.0]), d, records, |records|, meta.timestamp) + When(MDNS !in s.info[d].protocols, FieldIdentity)
  }

  const ORDER: seq<Protocol> := [LLDP, CDP, MNDP, MDNS]

  lemma Ordinals(i: nat)
    requires i < 4
    ensures Ordinal(ORDER[i]) == i && forall p: Protocol :: Ordinal(p) == i ==> p == ORDER[i]
  {
  }

  /** The deadlines and protocols of a link once the first n protocols have been looked at. */
  function ClearedTo(e: Deadlines, n: nat, now: Time): Deadlines {
    Deadlines(if n > 0 then Left(e.lldp, now) else e.lldp, if n > 1 then Left(e.cdp, now) else e.cdp,
              if n > 2 then Left(e.mndp, now) else e.mndp, if n > 3 then Left(e.mdns, now) else e.mdns)
  }

  function SupportedTo(k: LinkInfo, n: nat, now: Time): ProtocolSet {
    set p | p in k.protocols && !(Ordinal(p) < n && k.expires.Get(p) != 0 && k.expires.Get(p) <= now)
  }

  ghost function WithoutLink(s: Store, l: int): Store
    requires Attached(s, l) && s.linkOwner.owner[l] in s.recordOwner.lists && s.linkOwner.owner[l] in s.devices.keyOf
  {
    var d := s.linkOwner.owner[l];
    var t := DropLink(s, l, Expired);
    if t.linkOwner.lists[d] == [] && t.recordOwner.lists[d] == [] then Forget(t, d) else t
  }

  /** What a due visit comes to, once the link is off the wheel. */
  lemma ExpireLinkCases(s: Store, l: int, now: Time)
    requires Inv(s) && l in s.links.keyOf
    ensures Attached(s, l) && l in s.link && s.linkOwner.owner[l] in s.recordOwner.lists
    ensures var t, a, d := s.(linkDue := s.linkDue - {l}), Aged(s.link[l], now), s.linkOwner.owner[l];
            Expiry.ExpireLink(s, l, now) ==
            if a.protocols == {} then WithoutLink(t, l)
            else t.(link := t.link[l := a], linkDue := t.linkDue[l := Timing.Ticks(a.expiresAt - now)],
                    events := t.events + if a.protocols != s.link[l].protocols then [Event(Changed, {FieldLink}, s.devices.keyOf[d], s.links.keyOf[l])] else [])
  {
    hide InvGap, Aged, Release, Disown, Timing.Ticks;
    LinkOwnerThere(s, l);
    LinkOwnerAttached(s, l);
    ListsThere(s);
    assert s.linkDue - {l} - {l} == s.linkDue - {l};
    var x := Timing.Ticks(Aged(s.link[l], now).expiresAt - now);
    assert (s.linkDue - {l})[l := x] == s.linkDue[l := x];
  }

  /** What is left of a walk: entries not yet visited, each as the tick found it; every due entry
      has been visited or is still ahead. */
  ghost predicate WalkLeft(walk: seq<int>, order: seq<int>, due: map<int, int>, now: map<int, int>) {
    && NoDup(walk) && NoDup(order)
    && (forall i | i in order :: i in due && due[i] == 0 && i !in walk)
    && (forall i | i in walk :: i in due && i in now && now[i] == due[i] && i >= 0)
    && (forall i | i in due && due[i] <= 0 :: i in order || i in walk)
  }

  lemma WalkStarts(w: seq<int>, due: map<int, int>)
    requires NoDup(w) && (forall i | i in w :: i in due && i >= 0) && forall i | i in due && due[i] <= 0 :: i in w
    ensures WalkLeft(w, [], due, due)
  {
  }

  lemma WalkEnds(w: seq<int>, order: seq<int>, due: map<int, int>, now: map<int, int>)
    requires WalkLeft(w, order, due, now) && At(w, 0) < 0
    ensures w == [] && VisitsDue(order, due)
  {
    HeadIn(w);
  }

  lemma WalkStep(w: seq<int>, order: seq<int>, due: map<int, int>, now: map<int, int>)
    requires w != [] && WalkLeft(w, order, due, now)
    ensures w[0] >= 0 && w[0] in now && (now[w[0]] > 0 ==> WalkLeft(w[1..], order, due, now))
    ensures forall i | i in w[1..] :: i in w && i != w[0]
    ensures NoDup(w)
  {
    assert w[0] in w;
    forall i | i in w && i != w[0] ensures i in w[1..] {
      var k := FirstIndex(w, i);
      assert w[1..][k - 1] == i;
    }
  }

  lemma WalkVisited(w: seq<int>, order: seq<int>, due: map<int, int>, now: map<int, int>, next: map<int, int>)
    requires w != [] && WalkLeft(w, order, due, now) && w[0] in now && now[w[0]] == 0
    requires forall i | i in now && i != w[0] :: i in next && next[i] == now[i]
    ensures WalkLeft(w[1..], order + [w[0]], due, next)
  {
    assert w[0] in w;
    WalkStep(w, order, due, now);
    forall i | i in w && i != w[0] ensures i in w[1..] {
      var k := FirstIndex(w, i);
      assert w[1..][k - 1] == i;
    }
    forall i | i in order + [w[0]] ensures i in due && due[i] == 0 && i !in w[1..] {
      assert i in order ==> i !in w;
    }
  }

  lemma DueLinksUsed(s: Store)
    requires Inv(s)
    ensures s.linkDue.Keys == s.links.keyOf.Keys && forall l | l in s.linkDue :: l >= 0
  {
    hide Sound, Complete, Owned, MaximaCached, RecordKeysAgree, LinkKeysAgree, LinksTimed;
  }

  lemma DueRecordsUsed(s: Store)
    requires Inv(s)
    ensures s.dnsDue.Keys == s.records.keyOf.Keys && forall r | r in s.dnsDue :: r >= 0
  {
    hide Sound, Complete, Owned, MaximaCached, RecordKeysAgree, LinkKeysAgree, LinksTimed;
  }

  lemma OneLinkVisited(s: Store, l: int, now: Time)
    requires Inv(s) && l in s.links.keyOf
    ensures forall i | i in s.linkDue && i != l :: i in Expiry.ExpireLink(s, l, now).linkDue && Expiry.ExpireLink(s, l, now).linkDue[i] == s.linkDue[i]
  {
    hide InvGap, Aged, Release, Disown, Timing.Ticks;
    ExpireLinkCases(s, l, now);
  }

  lemma OneRecordGone(s: Store, r: int)
    requires Inv(s) && r in s.records.keyOf
    ensures var t := Stores.RemoveDNS(s, r);
            t.dnsDue == s.dnsDue - {r} && t.recordOwner.owner == s.recordOwner.owner - {r}
  {
    hide InvGap, Latest;
    RecordOwnerAttached(s, r);
  }

  lemma LinksNotNegative(s: Store)
    requires Inv(s)
    ensures forall l | l in s.links.keyOf :: l >= 0
  {
    hide Sound, Complete, Owned, MaximaCached, RecordKeysAgree, LinkKeysAgree, LinksTimed;
  }

  lemma NotListed(list: seq<int>, x: int)
    requires x !in list
    ensures SwapRemove(list, x) == list
  {
  }

  lemma OnlyTimesMerged(a: LinkInfo, b: LinkInfo, key: DeviceKey)
    ensures MergedLink(a, b.(device := key)) == MergedLink(a, b)
  {
  }

  lemma OwnRecordKeys(s: Store, d: int)
    requires Inv(s) && d in s.recordOwner.lists
    ensures forall r | r in s.recordOwner.lists[d] && r in s.records.keyOf :: s.records.keyOf[r].device == d
  {
    hide Sound, Partition, Complete, MaximaCached, LinksTimed, LinkKeysAgree;
  }

  lemma SetDeviceNone(link: map<int, LinkInfo>, list: seq<int>, key: DeviceKey)
    ensures SetDevice(link, list[..0], key) == link
  {
  }

  lemma SetDeviceStep(link: map<int, LinkInfo>, list: seq<int>, i: nat, key: DeviceKey)
    requires i < |list|
    ensures var m := SetDevice(link, list[..i], key);
            && m.Keys == link.Keys
            && SetDevice(link, list[..i + 1], key) == if list[i] in m then m[list[i] := m[list[i]].(device := key)] else m
  {
    assert list[..i + 1] == list[..i] + [list[i]];
  }

  lemma EveryDeviceUsed(s: Store)
    requires Inv(s)
    ensures s.devices.free != [] ==>
              Stores.AllocDevice(s) == (s.(devices := TakeFree(s.devices)), s.devices.free[|s.devices.free| - 1])
    ensures s.devices.free == [] ==>
              var o := Oldest(Seen(s), s.limits.devices);
              var t := Stores.RemoveDevice(s, o, Evicted);
              && o in s.devices.keyOf && o >= 0 && t.devices.free == [o]
              && Stores.AllocDevice(s) == (t.(devices := TakeFree(t.devices)), o)
  {
    hide Sound, Complete, Owned, LinkKeysAgree, LinksTimed, MaximaCached, RecordKeysAgree, Stores.RemoveDevice;
    if s.devices.free == [] {
      NoneFree(s.devices, s.limits.devices);
      assert 0 in s.info;
    }
  }

  lemma LinkOwnerAttached(s: Store, l: int)
    requires Inv(s) && l in s.links.keyOf
    ensures Attached(s, l)
  {
    hide InvGap;
    LinkOwnerThere(s, l);
    ListsThere(s);
  }

  lemma RecordOwnerAttached(s: Store, r: int)
    requires Inv(s) && r in s.records.keyOf
    ensures RecordAttached(s, r) && s.recordOwner.owner[r] in s.devices.keyOf
  {
    hide InvGap;
    RecordThere(s, r);
    ListsThere(s);
  }

  /** The last link of a device can be removed. */
  lemma LastLinkThere(s: Store, d: int)
    requires Inv(s) && d in s.linkOwner.lists && s.linkOwner.lists[d] != []
    ensures Attached(s, LastLink(s, d))
  {
    hide Sound, Partition, Complete, MaximaCached, RecordKeysAgree, LinksTimed, LinkKeysAgree;
    LastOwned(s.linkOwner, d);
  }

  lemma LastRecordThere(s: Store, d: int)
    requires Inv(s) && d in s.recordOwner.lists && s.recordOwner.lists[d] != []
    ensures RecordAttached(s, LastRecord(s, d)) && s.recordOwner.owner[LastRecord(s, d)] in s.devices.keyOf
  {
    hide Sound, Partition, Complete, MaximaCached, RecordKeysAgree, LinksTimed, LinkKeysAgree;
    LastOwned(s.recordOwner, d);
  }

  lemma FirstIs(list: seq<int>, x: int, i: nat)
    requires i < |list| && list[i] == x && forall k | 0 <= k < i :: list[k] != x
    ensures x in list && FirstIndex(list, x) == i
  {
  }
}
