/** What merging devices does to the clock of their links. */
module LinkMerges {
  import opened Model
  import opened FusionTypes
  import opened Slabs
  import opened Stores
  import opened Timing
  import opened Expiry

  /** Of two links that become one: counted from when they were last seen, as a merge does, the
      wheel comes round no later than counted from the last tick. */
  predicate Timely(a: LinkInfo, b: LinkInfo, second: nat) {
    var m := MergedLink(a, b);
    Ticks(m.expiresAt - m.lastSeen) <= Ticks(m.expiresAt - second * SECOND)
  }

  ghost predicate AllTimely(link: map<int, LinkInfo>, pairs: seq<(int, int)>, second: nat) {
    forall p | p in pairs && p.0 in link && p.1 in link :: Timely(link[p.0], link[p.1], second)
  }

  /** A merge schedules the surviving link from when it was last seen, not from now: it is in time
      if and only if the two links are timely. */
  lemma MergedOnTime(a: LinkInfo, b: LinkInfo, dueA: int, dueB: int, second: nat)
    requires Timed(a) && Timed(b) && OnTime(a, dueA, second) && OnTime(b, dueB, second)
    ensures var m := MergedLink(a, b); OnTime(m, Ticks(m.expiresAt - m.lastSeen), second) <==> Timely(a, b, second)
  {
    hide AppendAll, Ticks;
    var m := MergedLink(a, b);
    AheadMerged(a, b, dueA, dueB, second);
    DueInTime(m.expiresAt - second * SECOND, Ticks(m.expiresAt - m.lastSeen));
  }

  lemma AheadMerged(a: LinkInfo, b: LinkInfo, dueA: int, dueB: int, second: nat)
    requires Timed(a) && OnTime(a, dueA, second) && OnTime(b, dueB, second)
    ensures var m := MergedLink(a, b);
            m.expiresAt > second * SECOND && forall p :: m.expires.Get(p) == 0 || m.expires.Get(p) > second * SECOND
  {
    hide AppendAll;
    assert a.expires.Get(LLDP) != 0 || a.expires.Get(CDP) != 0 || a.expires.Get(MNDP) != 0 || a.expires.Get(MDNS) != 0;
  }

  /** A countdown of due ticks ends before t has gone by, counted to the tick before, if and only if
      it is no longer than the countdown of t. */
  lemma DueInTime(t: int, due: int)
    requires t > 0
    ensures due >= 1 ==> ((due - 1) * SECOND < t <==> due <= Ticks(t))
    ensures Ticks(t) >= 1
  {
  }

  /** Links seen since the last tick are timely. */
  lemma SeenTimely(a: LinkInfo, b: LinkInfo, second: nat)
    requires second * SECOND <= a.lastSeen || second * SECOND <= b.lastSeen
    ensures Timely(a, b, second)
  {
  }

  /** Links alike in all that a merge's schedule depends on. */
  predicate SameClock(k: LinkInfo, r: LinkInfo) { r.expires == k.expires && r.lastSeen == k.lastSeen }

  lemma TimelySame(a: LinkInfo, b: LinkInfo, c: LinkInfo, d: LinkInfo, second: nat)
    requires SameClock(a, c) && SameClock(b, d)
    ensures Timely(a, b, second) <==> Timely(c, d, second)
  {
  }

  /** One pass of the merge's link loop: nothing but the link it collides with can come out of time. */
  lemma MoveLinkInTime(s: Store, dst: int, src: int, second: nat)
    requires Inv(s) && dst in s.devices.keyOf && src in s.devices.keyOf && dst != src
    requires SlotsKeyed(s) && InTime(s, second) && src in s.linkOwner.lists && s.linkOwner.lists[src] != []
    ensures var x := LastLink(s, src); x in s.links.keyOf && x in s.link
    ensures var x, t := LastLink(s, src), MoveLink(s, dst, src);
            var k := s.links.keyOf[x].(device := s.devices.keyOf[dst]);
            && SlotsKeyed(t)
            && (if Collides(s.links, x, k) then
                  var e := s.links.byKey[k];
                  && e in t.links.keyOf && e in s.link && e !in s.linkOwner.lists[src] && Lost(t.links, e)
                  && (OnTime(t.link[e], t.linkDue[e], second) <==> Timely(s.link[e], s.link[x], second))
                  && (InTime(t, second) <==> Timely(s.link[e], s.link[x], second))
                  && forall l | l in t.links.keyOf && l != e :: l in s.link && t.link[l] == s.link[l]
                else
                  InTime(t, second) && forall l | l in t.links.keyOf :: l in s.link && SameClock(s.link[l], t.link[l]))
  {
    hide InvGap, MoveTo, MoveLink, OnTime, Timely, Lost;
    LastThere(s, src);
    if Collides(s.links, LastLink(s, src), s.links.keyOf[LastLink(s, src)].(device := s.devices.keyOf[dst])) {
      RunsInto(s, dst, src, second);
    } else {
      MovesOver(s, dst, src, second);
    }
  }

  lemma LastThere(s: Store, src: int)
    requires Inv(s) && src in s.linkOwner.lists && s.linkOwner.lists[src] != []
    ensures LastLink(s, src) in s.links.keyOf && LastLink(s, src) in s.link
  {
    hide Owned, Partition, Complete, MaximaCached, RecordKeysAgree, LinksTimed, LinkKeysAgree, Sound;
    LastOwned(s.linkOwner, src);
  }

  lemma MovesOver(s: Store, dst: int, src: int, second: nat)
    requires Inv(s) && dst in s.devices.keyOf && src in s.devices.keyOf && dst != src
    requires SlotsKeyed(s) && InTime(s, second) && src in s.linkOwner.lists && s.linkOwner.lists[src] != []
    requires LastLink(s, src) in s.links.keyOf && !Collides(s.links, LastLink(s, src), s.links.keyOf[LastLink(s, src)].(device := s.devices.keyOf[dst]))
    ensures var t := MoveLink(s, dst, src);
            && SlotsKeyed(t) && InTime(t, second)
            && forall l | l in t.links.keyOf :: l in s.link && SameClock(s.link[l], t.link[l])
  {
    hide InvGap, MoveTo, Collides, OnTime, HandOver;
    var x, t := LastLink(s, src), MoveLink(s, dst, src);
    MoveLinkInv(s, dst, src, WHOLE);
    SlotsThere(t);
    MoveToKeys(s.links, x, s.links.keyOf[x].(device := s.devices.keyOf[dst]));
    forall l | l in t.links.keyOf ensures OnTime(t.link[l], t.linkDue[l], second) {
      assert OnTime(s.link[l], s.linkDue[l], second);
      SameOnTime(s.link[l], t.link[l], s.linkDue[l], second);
    }
  }

  lemma RunsInto(s: Store, dst: int, src: int, second: nat)
    requires Inv(s) && dst in s.devices.keyOf && src in s.devices.keyOf && dst != src
    requires SlotsKeyed(s) && InTime(s, second) && src in s.linkOwner.lists && s.linkOwner.lists[src] != []
    requires LastLink(s, src) in s.links.keyOf && Collides(s.links, LastLink(s, src), s.links.keyOf[LastLink(s, src)].(device := s.devices.keyOf[dst]))
    ensures var x, t := LastLink(s, src), MoveLink(s, dst, src);
            var e := s.links.byKey[s.links.keyOf[x].(device := s.devices.keyOf[dst])];
            && SlotsKeyed(t) && e in t.links.keyOf && e in s.link && e !in s.linkOwner.lists[src] && Lost(t.links, e)
            && (OnTime(t.link[e], t.linkDue[e], second) <==> Timely(s.link[e], s.link[x], second))
            && (InTime(t, second) <==> Timely(s.link[e], s.link[x], second))
            && forall l | l in t.links.keyOf && l != e :: l in s.link && t.link[l] == s.link[l]
  {
    hide Partition, Complete, MaximaCached, RecordKeysAgree, LinkKeysAgree, MoveTo, MergedLink, Ticks, OnTime, Timely, Timed, Disown, Lost, Owned;
    var x, t := LastLink(s, src), MoveLink(s, dst, src);
    MoveLinkInv(s, dst, src, WHOLE);
    SlotsThere(t);
    var k := s.links.keyOf[x].(device := s.devices.keyOf[dst]);
    MoveToKeys(s.links, x, k);
    SoundAt(s.links, k);
    var e := s.links.byKey[k];
    CollidedElsewhere(s, dst, src);
    assert OnTime(s.link[e], s.linkDue[e], second) && OnTime(s.link[x], s.linkDue[x], second);
    MergedOnTime(s.link[e], s.link[x], s.linkDue[e], s.linkDue[x], second);
    forall l | l in t.links.keyOf && l != e ensures OnTime(t.link[l], t.linkDue[l], second) {
      assert OnTime(s.link[l], s.linkDue[l], second);
    }
  }

  /** The link a moved link runs into belongs to the other device, and no key finds it afterwards. */
  lemma CollidedElsewhere(s: Store, dst: int, src: int)
    requires Inv(s) && dst in s.devices.keyOf && src in s.devices.keyOf && dst != src && src in s.linkOwner.lists && s.linkOwner.lists[src] != []
    requires LastLink(s, src) in s.links.keyOf
    requires Collides(s.links, LastLink(s, src), s.links.keyOf[LastLink(s, src)].(device := s.devices.keyOf[dst]))
    ensures var x := LastLink(s, src);
            var k := s.links.keyOf[x].(device := s.devices.keyOf[dst]);
            s.links.byKey[k] !in s.linkOwner.lists[src] && Lost(MoveTo(s.links, x, k), s.links.byKey[k])
  {
    hide Partition, MaximaCached, RecordKeysAgree, LinksTimed, LinkKeysAgree, Complete;
    var k := s.links.keyOf[LastLink(s, src)].(device := s.devices.keyOf[dst]);
    SoundAt(s.links, k);
    var e := s.links.byKey[k];
    AgreeAt(s, e);
    CompleteAt(s.devices, dst);
    CompleteAt(s.devices, s.linkOwner.owner[e]);
  }

  /** A link that no key finds is left alone by the rest of the loop. */
  lemma {:induction false} LostLeftAlone(s: Store, dst: int, src: int, e: int)
    requires Inv(s) && dst in s.devices.keyOf && src in s.devices.keyOf && dst != src
    requires src in s.linkOwner.lists && e !in s.linkOwner.lists[src] && e in s.links.keyOf && Lost(s.links, e)
    ensures var t := MoveLinks(s, dst, src);
            && SlotsKeyed(s) && SlotsKeyed(t) && e in t.links.keyOf && t.link[e] == s.link[e] && t.linkDue[e] == s.linkDue[e]
    decreases |s.linkOwner.lists[src]|
  {
    hide InvGap, MoveLink, SlotsKeyed, Lost;
    ListsThere(s);
    SlotsThere(s);
    MoveLinksInv(s, dst, src);
    SlotsThere(MoveLinks(s, dst, src));
    if s.linkOwner.lists[src] != [] {
      MoveLinkStep(s, dst, src);
      LostLeft(s, dst, src, e);
      LostLeftAlone(MoveLink(s, dst, src), dst, src, e);
    }
  }

  lemma LostLeft(s: Store, dst: int, src: int, e: int)
    requires Inv(s) && dst in s.devices.keyOf && src in s.devices.keyOf && dst != src
    requires src in s.linkOwner.lists && s.linkOwner.lists[src] != [] && e !in s.linkOwner.lists[src] && e in s.links.keyOf && Lost(s.links, e)
    ensures var t := MoveLink(s, dst, src);
            && SlotsKeyed(s) && SlotsKeyed(t) && e in t.links.keyOf && t.link[e] == s.link[e] && t.linkDue[e] == s.linkDue[e]
            && Lost(t.links, e) && src in t.linkOwner.lists && e !in t.linkOwner.lists[src]
  {
    hide Partition, Complete, MaximaCached, RecordKeysAgree, MergedLink, Ticks, Disown, HandOver, LinksTimed, LinkKeysAgree;
    LastOwned(s.linkOwner, src);
    MoveLinkInv(s, dst, src, WHOLE);
    SlotsThere(MoveLink(s, dst, src));
    var x := LastLink(s, src);
    MoveToKeys(s.links, x, s.links.keyOf[x].(device := s.devices.keyOf[dst]));
  }

  lemma MovedIndex(s: Store, dst: int, src: int)
    requires Inv(s) && dst in s.devices.keyOf && src in s.devices.keyOf && dst != src
    requires src in s.linkOwner.lists && s.linkOwner.lists[src] != [] && LastLink(s, src) in s.links.keyOf
    ensures var x, t := LastLink(s, src), MoveLink(s, dst, src);
            var k := s.links.keyOf[x].(device := s.devices.keyOf[dst]);
            && t.links == MoveTo(s.links, x, k) && Sound(t.links) && t.link.Keys == t.links.keyOf.Keys
            && t.links.keyOf == (if Collides(s.links, x, k) then s.links.keyOf - {x} else s.links.keyOf[x := k])
            && s.link.Keys == s.links.keyOf.Keys
            && src in t.linkOwner.lists && t.linkOwner.lists[src] == s.linkOwner.lists[src][..|s.linkOwner.lists[src]| - 1]
  {
    hide Partition, Complete, MaximaCached, RecordKeysAgree, MergedLink, Ticks, LinksTimed, LinkKeysAgree, Owned, Sound, MoveTo, Disown, HandOver;
    MoveLinkInv(s, dst, src, WHOLE);
    var x := LastLink(s, src);
    MoveToKeys(s.links, x, s.links.keyOf[x].(device := s.devices.keyOf[dst]));
  }

  /** The links still to be merged are those they were. */
  lemma {:induction false} RestTimely(s: Store, t: Store, x: int, k: LinkKey, rest: seq<int>, newKey: map<int, LinkKey>, second: nat)
    requires x in s.links.keyOf && x in newKey && newKey[x] == k && x !in rest && Sound(t.links)
    requires t.links == MoveTo(s.links, x, k) && s.link.Keys == s.links.keyOf.Keys && t.link.Keys == t.links.keyOf.Keys
    requires t.links.keyOf == if Collides(s.links, x, k) then s.links.keyOf - {x} else s.links.keyOf[x := k]
    requires Collides(s.links, x, k) ==>
               var e := s.links.byKey[k];
               e in s.link && e !in rest && Lost(t.links, e) && Timely(s.link[e], s.link[x], second)
               && forall l | l in t.links.keyOf && l != e :: l in s.link && t.link[l] == s.link[l]
    requires !Collides(s.links, x, k) ==> forall l | l in t.link :: l in s.link && SameClock(s.link[l], t.link[l])
    ensures AllTimely(s.link, Collisions(s.links, rest + [x], newKey), second) <==> AllTimely(t.link, Collisions(t.links, rest, newKey), second)
  {
    hide Timely, MoveTo;
    var list := rest + [x];
    assert list[..|list| - 1] == rest && list[|list| - 1] == x;
    var more := Collisions(t.links, rest, newKey);
    if Collides(s.links, x, k) {
      var e := s.links.byKey[k];
      LostAvoided(t.links, rest, newKey, e);
      assert Lost(t.links, x);
      LostAvoided(t.links, rest, newKey, x);
      assert Collisions(s.links, list, newKey) == [(e, x)] + more;
      assert ([(e, x)] + more)[0] == (e, x);
      assert forall p :: p in [(e, x)] + more <==> p == (e, x) || p in more;
    } else {
      assert t.link.Keys == s.link.Keys;
      assert Collisions(s.links, list, newKey) == more;
      forall p | p in more && p.0 in s.link && p.1 in s.link
        ensures p.0 in t.link && p.1 in t.link && (Timely(s.link[p.0], s.link[p.1], second) <==> Timely(t.link[p.0], t.link[p.1], second))
      {
        var a, b := p.0, p.1;
        assert a in t.link && b in t.link;
        TimelySame(s.link[a], s.link[b], t.link[a], t.link[b], second);
      }
    }
  }

  lemma StaysLate(s: Store, t: Store, e: int, second: nat)
    requires SlotsKeyed(s) && SlotsKeyed(t) && e in s.links.keyOf && e in t.links.keyOf && t.link[e] == s.link[e] && t.linkDue[e] == s.linkDue[e]
    requires !OnTime(s.link[e], s.linkDue[e], second)
    ensures !InTime(t, second)
  {
    hide OnTime;
  }

  /** The merge's link loop leaves all links in time if and only if the links it merges are timely:
      a link merged out of time stays so, for it is merged once and then no key finds it. */
  lemma {:induction false} MoveLinksInTime(s: Store, dst: int, src: int, newKey: map<int, LinkKey>, second: nat)
    requires Inv(s) && dst in s.devices.keyOf && src in s.devices.keyOf && dst != src && SlotsKeyed(s) && InTime(s, second)
    requires src in s.linkOwner.lists && forall x | x in s.linkOwner.lists[src] ::
      x in newKey && x in s.links.keyOf && newKey[x] == s.links.keyOf[x].(device := s.devices.keyOf[dst])
    ensures var t := MoveLinks(s, dst, src);
            SlotsKeyed(t) && (InTime(t, second) <==> AllTimely(s.link, Collisions(s.links, s.linkOwner.lists[src], newKey), second))
    decreases |s.linkOwner.lists[src]|
  {
    hide InvGap, MoveLink, MoveTo, SlotsKeyed, InTime, OnTime, Timely, Lost, AllTimely;
    ListsThere(s);
    MoveLinksInv(s, dst, src);
    SlotsThere(MoveLinks(s, dst, src));
    var list := s.linkOwner.lists[src];
    if list != [] {
      var x, rest := LastLink(s, src), list[..|list| - 1];
      assert x in list && list == rest + [x];
      MoveLinkStep(s, dst, src);
      MoveLinkInTime(s, dst, src, second);
      MovedIndex(s, dst, src);
      DistinctInit(s, src);
      var t := MoveLink(s, dst, src);
      if InTime(t, second) {
        MoveLinksInTime(t, dst, src, newKey, second);
        RestTimely(s, t, x, newKey[x], rest, newKey, second);
      } else {
        var e := s.links.byKey[newKey[x]];
        LostLeftAlone(t, dst, src, e);
        StaysLate(t, MoveLinks(t, dst, src), e, second);
        FirstUntimely(s, x, newKey, list, second);
      }
    } else {
      NoneUntimely(s, newKey, second);
    }
  }

  lemma FirstUntimely(s: Store, x: int, newKey: map<int, LinkKey>, list: seq<int>, second: nat)
    requires list != [] && x == list[|list| - 1] && x in s.links.keyOf && x in newKey && Collides(s.links, x, newKey[x])
    requires x in s.link && s.links.byKey[newKey[x]] in s.link && !Timely(s.link[s.links.byKey[newKey[x]]], s.link[x], second)
    ensures !AllTimely(s.link, Collisions(s.links, list, newKey), second)
  {
    hide Timely, MoveTo;
    assert (s.links.byKey[newKey[x]], x) in Collisions(s.links, list, newKey);
  }

  lemma NoneUntimely(s: Store, newKey: map<int, LinkKey>, second: nat)
    ensures AllTimely(s.link, Collisions(s.links, [], newKey), second)
  {
  }


  lemma SameOnTime(k: LinkInfo, r: LinkInfo, due: int, second: nat)
    requires r.expires == k.expires && r.expiresAt == k.expiresAt
    ensures OnTime(k, due, second) <==> OnTime(r, due, second)
  {
  }

  lemma {:induction false} MoveRecordsTimes(s: Store, dst: int, src: int)
    requires Emptying(s, src) && dst in s.devices.keyOf && src in s.devices.keyOf && dst != src
    ensures var t := MoveRecords(s, dst, src); t.links == s.links && t.link == s.link && t.linkDue == s.linkDue
    decreases (ListsThere(s); |s.recordOwner.lists[src]|)
  {
    hide InvGap, MoveTo, HandOver, Disown, Latest, Collides;
    ListsThere(s);
    if s.recordOwner.lists[src] != [] {
      MoveRecordStep(s, dst, src);
      MoveRecordsTimes(MoveRecord(s, dst, src), dst, src);
    }
  }

  /** What the caller of a merge can check: the links it will merge are timely. */
  ghost predicate MergeTimely(s: Store, dst: int, src: int, second: nat) {
    && dst in s.devices.keyOf && src in s.linkOwner.lists
    && AllTimely(s.link, Collisions(s.links, s.linkOwner.lists[src], NewLinkKeys(s, s.devices.keyOf[dst])), second)
  }

  /** A device merge leaves all links in time if and only if the links it merges are timely. */
  lemma MergeInTime(s: Store, dst: int, src: int, second: nat)
    requires Inv(s) && SlotsKeyed(s) && InTime(s, second) && dst in s.devices.keyOf && src in s.devices.keyOf && dst != src
    ensures SlotsKeyed(MergeDevices(s, dst, src))
    ensures InTime(MergeDevices(s, dst, src), second) <==> MergeTimely(s, dst, src, second)
  {
    hide InvGap, MergedInfo, MoveLinks, MoveRecords, Forget, SlotsKeyed, InTime, AllTimely;
    MergeDevicesInv(s, dst, src);
    SlotsThere(MergeDevices(s, dst, src));
    ListsThere(s);
    var s0 := s.(info := s.info[dst := MergedInfo(s.info[dst], s.info[src], s.limits.alternatives)]);
    InfoInv(s, s0);
    InfoInTime(s, s0, second);
    NewKeysFit(s, dst, src);
    MoveLinksInv(s0, dst, src);
    MoveLinksInTime(s0, dst, src, NewLinkKeys(s, s.devices.keyOf[dst]), second);
    var s1 := MoveLinks(s0, dst, src);
    EmptyingInv(s1, src);
    MoveRecordsInv(s1, dst, src);
    MoveRecordsTimes(s1, dst, src);
    ForgetFrame(MoveRecords(s1, dst, src), src);
    SameInTime(s1, MergeDevices(s, dst, src), second);
  }

  lemma InfoInTime(s: Store, t: Store, second: nat)
    requires SlotsKeyed(s) && InTime(s, second) && t.link == s.link && t.linkDue == s.linkDue && t.links == s.links && Inv(t)
    ensures SlotsKeyed(t) && InTime(t, second)
  {
  }

  lemma SameInTime(s: Store, t: Store, second: nat)
    requires SlotsKeyed(s) && SlotsKeyed(t) && t.links == s.links && t.link == s.link && t.linkDue == s.linkDue
    ensures InTime(s, second) <==> InTime(t, second)
  {
  }

  lemma NewKeysFit(s: Store, dst: int, src: int)
    requires Inv(s) && dst in s.devices.keyOf && src in s.devices.keyOf
    ensures src in s.linkOwner.lists
    ensures var newKey := NewLinkKeys(s, s.devices.keyOf[dst]);
            forall x | x in s.linkOwner.lists[src] :: x in newKey && x in s.links.keyOf && newKey[x] == s.links.keyOf[x].(device := s.devices.keyOf[dst])
  {
    hide Partition, Complete, MaximaCached, RecordKeysAgree, LinksTimed, LinkKeysAgree, Sound;
    OwnedList(s.linkOwner, src);
  }

  /** While the index of links is complete, that is: any link of one device with the interface and
      source of a link of the other is timely with it. */
  lemma TimelyAlike(s: Store, dst: int, src: int, second: nat)
    requires Inv(s) && SlotsKeyed(s) && Complete(s.links) && dst in s.devices.keyOf && src in s.devices.keyOf && dst != src
    ensures MergeTimely(s, dst, src, second) <==> forall e, x | Alike(s, dst, src, e, x) :: Timely(s.link[e], s.link[x], second)
  {
    hide InvGap, Timely, Movable, Complete;
    MergeMovable(s, dst, src);
    var list, newKey := s.linkOwner.lists[src], NewLinkKeys(s, s.devices.keyOf[dst]);
    CollisionsAlike(s.links, list, newKey);
    var pairs := Collisions(s.links, list, newKey);
    forall e, x ensures (e, x) in pairs <==> Alike(s, dst, src, e, x) {}
    AllTimelyAlike(s, dst, src, pairs, second);
  }

  /** Link x of src would have the key that link e of another device has. */
  ghost predicate Alike(s: Store, dst: int, src: int, e: int, x: int)
    requires SlotsKeyed(s) && dst in s.devices.keyOf
  {
    && e in s.links.keyOf && x in s.links.keyOf && s.linkOwner.owner[x] == src && s.linkOwner.owner[e] != src
    && s.links.keyOf[e] == s.links.keyOf[x].(device := s.devices.keyOf[dst])
  }

  lemma AllTimelyAlike(s: Store, dst: int, src: int, pairs: seq<(int, int)>, second: nat)
    requires SlotsKeyed(s) && dst in s.devices.keyOf
    requires forall e, x :: (e, x) in pairs <==> Alike(s, dst, src, e, x)
    ensures AllTimely(s.link, pairs, second) <==> forall e, x | Alike(s, dst, src, e, x) :: Timely(s.link[e], s.link[x], second)
  {
    hide Timely;
    if AllTimely(s.link, pairs, second) {
      forall e, x | Alike(s, dst, src, e, x) ensures Timely(s.link[e], s.link[x], second) {
        assert (e, x) in pairs;
      }
    } else {
      var p :| p in pairs && p.0 in s.link && p.1 in s.link && !Timely(s.link[p.0], s.link[p.1], second);
      assert (p.0, p.1) in pairs && Alike(s, dst, src, p.0, p.1);
    }
  }
}
