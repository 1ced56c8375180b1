/** MAC vendor lookup: the generator's bucket index and name arena, and the bucketed binary search
    that reads them, which together are longest-prefix matching over the three registries. */
module Vendor {
  import opened Model
  import opened FusionTypes

  // ---------- registries ----------

  datatype Entry = Entry(prefix: nat, name: seq<Byte>)

  /** The lengths of assigned prefixes. */
  predicate IsLength(bits: nat) { bits == 24 || bits == 28 || bits == 36 }

  /** 2 to the number of bits of a prefix after its first 12. */
  function Span(bits: nat): (n: nat)
    ensures n > 0
  {
    if bits == 24 then 0x1000 else if bits == 28 then 0x1_0000 else 0x100_0000
  }

  /** 2 to the number of bits of an address after its prefix. */
  function Block(bits: nat): (n: nat)
    ensures n > 0
  {
    if bits == 24 then 0x100_0000 else if bits == 28 then 0x10_0000 else 0x1000
  }

  /** A registry as read: prefixes of so many bits in ascending order, each with a name. */
  ghost predicate Registry(entries: seq<Entry>, bits: nat) {
    && (forall i | 0 <= i < |entries| :: entries[i].prefix < BUCKETS * Span(bits) && entries[i].name != [])
    && (forall i, j | 0 <= i < j < |entries| :: entries[i].prefix < entries[j].prefix)
  }

  const BUCKETS := 4096
  const MAX_ARENA := 0x100_0000

  /** The leading 12 bits of a prefix. */
  function Bucket(prefix: nat, bits: nat): nat { prefix / Span(bits) }

  // ---------- the generator ----------

  /** index[b] is the number of entries in the buckets before b. */
  ghost predicate Splits(entries: seq<Entry>, bits: nat, index: seq<nat>)
  {
    |index| == BUCKETS + 1 && forall b | 0 <= b <= BUCKETS :: SplitsAt(entries, bits, index[b], b)
  }

  ghost predicate SplitsAt(entries: seq<Entry>, bits: nat, n: nat, b: nat)
  {
    n <= |entries| && forall i: nat | i < |entries| :: i < n <==> BucketAt(entries, bits, i) < b
  }

  /** The bucket of entry i, past all buckets for no entry. */
  function BucketAt(entries: seq<Entry>, bits: nat, i: nat): nat {
    if i < |entries| then Bucket(entries[i].prefix, bits) else BUCKETS
  }

  lemma BucketOrder(entries: seq<Entry>, bits: nat, i: nat, j: nat)
    requires Registry(entries, bits) && i <= j < |entries|
    ensures Bucket(entries[i].prefix, bits) <= Bucket(entries[j].prefix, bits) < BUCKETS
  {
  }

  /** While bucket b is counted: the n entries counted so far are of b or before, and no entry
      before b is left. */
  ghost predicate Within(entries: seq<Entry>, bits: nat, n: nat, b: nat) {
    && n <= |entries| && (forall i: nat | i < |entries| && BucketAt(entries, bits, i) < b :: i < n)
    && forall i: nat | i < n :: BucketAt(entries, bits, i) <= b
  }

  lemma NoneSplit(entries: seq<Entry>, bits: nat)
    ensures SplitsAt(entries, bits, 0, 0)
    ensures forall n: nat, b: nat | SplitsAt(entries, bits, n, b) :: Within(entries, bits, n, b)
  {
  }

  lemma SplitCount(entries: seq<Entry>, bits: nat, n: nat, b: nat)
    requires SplitsAt(entries, bits, n, b)
    ensures n <= |entries|
  {
  }

  lemma OneWithin(entries: seq<Entry>, bits: nat, n: nat, b: nat)
    requires Within(entries, bits, n, b) && n < |entries| && Bucket(entries[n].prefix, bits) == b
    ensures Within(entries, bits, n + 1, b)
  {
  }

  lemma AllWithin(entries: seq<Entry>, bits: nat, n: nat, b: nat)
    requires Registry(entries, bits) && Within(entries, bits, n, b) && !(n < |entries| && Bucket(entries[n].prefix, bits) == b)
    ensures SplitsAt(entries, bits, n, b + 1)
  {
    assert n < |entries| ==> BucketAt(entries, bits, n) > b;
    forall i: nat | i < |entries| ensures i < n <==> BucketAt(entries, bits, i) < b + 1 {
      if i >= n { BucketOrder(entries, bits, n, i); }
    }
  }

  lemma AllSplit(entries: seq<Entry>, bits: nat)
    requires Registry(entries, bits)
    ensures SplitsAt(entries, bits, |entries|, BUCKETS)
  {
    forall i: nat | i < |entries| ensures BucketAt(entries, bits, i) < BUCKETS { BucketOrder(entries, bits, i, i); }
  }

  /** writeBuckets: one pass over the sorted entries; each count is stored in 16 bits. */
  method WriteBuckets(bits: nat, entries: seq<Entry>) returns (buckets: array<nat>, ghost index: seq<nat>)
    requires Registry(entries, bits)
    ensures fresh(buckets) && buckets.Length == BUCKETS + 1 && Splits(entries, bits, index)
    ensures forall b | 0 <= b <= BUCKETS :: buckets[b] == index[b] % 0x1_0000
    ensures buckets[..] == index <==> |entries| <= 0xFFFF
  {
    hide SplitsAt, Within, Registry;
    NoneSplit(entries, bits);
    buckets := new nat[BUCKETS + 1](_ => 0);
    index := [];
    var entry := 0;
    for bucket := 0 to BUCKETS
      invariant SplitsAt(entries, bits, entry, bucket)
      invariant |index| == bucket && forall b | 0 <= b < bucket :: buckets[b] == index[b] % 0x1_0000 && SplitsAt(entries, bits, index[b], b)
    {
      buckets[bucket] := entry % 0x1_0000;
      index := index + [entry];
      while entry < |entries| && entries[entry].prefix / Span(bits) == bucket
        invariant Within(entries, bits, entry, bucket)
        invariant forall b | 0 <= b <= bucket :: buckets[b] == index[b] % 0x1_0000 && SplitsAt(entries, bits, index[b], b)
      {
        OneWithin(entries, bits, entry, bucket);
        entry := entry + 1;
      }
      AllWithin(entries, bits, entry, bucket);
    }
    AllSplit(entries, bits);
    buckets[BUCKETS] := |entries| % 0x1_0000;
    index := index + [|entries|];
    if |entries| <= 0xFFFF {
      forall b | 0 <= b <= BUCKETS ensures buckets[b] == index[b] { SplitCount(entries, bits, index[b], b); }
    }
  }

  /** A reference into the arena: offset above the low byte, length in it. */
  predicate Refers(arena: seq<Byte>, ref: nat, name: seq<Byte>) {
    ref % 256 == |name| && ref / 256 + |name| <= |arena| && arena[ref / 256..ref / 256 + |name|] == name && ref < 0x1_0000_0000
  }

  ghost predicate RefersAll(arena: seq<Byte>, refs: seq<nat>, entries: seq<Entry>) {
    |refs| <= |entries| && forall i | 0 <= i < |refs| :: Refers(arena, refs[i], entries[i].name)
  }

  lemma RefersStill(arena: seq<Byte>, more: seq<Byte>, ref: nat, name: seq<Byte>)
    requires Refers(arena, ref, name)
    ensures Refers(arena + more, ref, name)
  {
    assert (arena + more)[ref / 256..ref / 256 + |name|] == arena[ref / 256..ref / 256 + |name|];
  }

  /** Every name seen so far has a reference to it in the arena. */
  ghost predicate Interned(arena: seq<Byte>, nameRefs: map<seq<Byte>, nat>) {
    forall name | name in nameRefs :: |name| <= 255 && Refers(arena, nameRefs[name], name)
  }

  /** References by name: entries of the same name share one. */
  ghost predicate Shared(nameRefs: map<seq<Byte>, nat>, refs: seq<nat>, entries: seq<Entry>) {
    |refs| <= |entries| && forall i | 0 <= i < |refs| :: entries[i].name in nameRefs && refs[i] == nameRefs[entries[i].name]
  }

  datatype Packing = Packed | NameTooLong | ArenaFull

  /** One registry's references, its new names appended to the arena. */
  method PackGroup(arena: seq<Byte>, nameRefs: map<seq<Byte>, nat>, entries: seq<Entry>)
    returns (outcome: Packing, arena': seq<Byte>, nameRefs': map<seq<Byte>, nat>, refs: seq<nat>)
    requires Interned(arena, nameRefs)
    ensures outcome.Packed? ==> Interned(arena', nameRefs') && |refs| == |entries| && Shared(nameRefs', refs, entries)
    ensures outcome.Packed? ==> forall name | name in nameRefs :: name in nameRefs' && nameRefs'[name] == nameRefs[name]
    ensures outcome.NameTooLong? ==> exists i :: 0 <= i < |entries| && |entries[i].name| > 255
    ensures outcome.ArenaFull? ==> |arena'| >= MAX_ARENA
  {
    hide Refers;
    arena', nameRefs', refs := arena, nameRefs, [];
    for i := 0 to |entries|
      invariant |refs| == i && Interned(arena', nameRefs') && Shared(nameRefs', refs, entries)
      invariant forall name | name in nameRefs :: name in nameRefs' && nameRefs'[name] == nameRefs[name]
    {
      var name := entries[i].name;
      if name !in nameRefs' {
        if |name| > 255 { return NameTooLong, arena', nameRefs', refs; }
        if |arena'| >= MAX_ARENA { return ArenaFull, arena', nameRefs', refs; }
        Intern(arena', nameRefs', name);
        nameRefs' := nameRefs'[name := |arena'| * 256 + |name|];
        arena' := arena' + name;
      }
      refs := refs + [nameRefs'[name]];
    }
    outcome := Packed;
  }

  lemma Intern(arena: seq<Byte>, nameRefs: map<seq<Byte>, nat>, name: seq<Byte>)
    requires Interned(arena, nameRefs) && |name| <= 255 && |arena| < MAX_ARENA
    ensures Interned(arena + name, nameRefs[name := |arena| * 256 + |name|])
  {
    var more := nameRefs[name := |arena| * 256 + |name|];
    assert (arena + name)[|arena|..|arena| + |name|] == name;
    forall other | other in more ensures |other| <= 255 && Refers(arena + name, more[other], other) {
      if other != name { RefersStill(arena, name, nameRefs[other], other); }
    }
  }

  /** The arena and references main builds: every entry of every registry is named through its
      reference, unless a name is too long or the arena outgrows its references. */
  method PackNames(groups: seq<seq<Entry>>) returns (outcome: Packing, arena: seq<Byte>, refs: seq<seq<nat>>)
    ensures outcome.Packed? ==> |refs| == |groups| && forall g | 0 <= g < |groups| :: |refs[g]| == |groups[g]| && RefersAll(arena, refs[g], groups[g])
    ensures outcome.NameTooLong? ==> exists g, i :: 0 <= g < |groups| && 0 <= i < |groups[g]| && |groups[g][i].name| > 255
    ensures outcome.ArenaFull? ==> |arena| >= MAX_ARENA
  {
    hide Refers, Interned;
    arena, refs := [], [];
    var nameRefs: map<seq<Byte>, nat> := map[];
    NothingInterned();
    for g := 0 to |groups|
      invariant |refs| == g && Interned(arena, nameRefs)
      invariant forall h | 0 <= h < g :: |refs[h]| == |groups[h]| && Shared(nameRefs, refs[h], groups[h])
    {
      var mine;
      ghost var before := nameRefs;
      outcome, arena, nameRefs, mine := PackGroup(arena, nameRefs, groups[g]);
      if !outcome.Packed? { return; }
      forall h | 0 <= h < g ensures Shared(nameRefs, refs[h], groups[h]) { assert Shared(before, refs[h], groups[h]); }
      refs := refs + [mine];
    }
    forall g | 0 <= g < |groups| ensures RefersAll(arena, refs[g], groups[g]) { AllRefer(arena, nameRefs, refs[g], groups[g]); }
    outcome := Packed;
  }

  lemma NothingInterned()
    ensures Interned([], map[])
  {
  }

  lemma AllRefer(arena: seq<Byte>, nameRefs: map<seq<Byte>, nat>, refs: seq<nat>, entries: seq<Entry>)
    requires Interned(arena, nameRefs) && Shared(nameRefs, refs, entries)
    ensures RefersAll(arena, refs, entries)
  {
    hide Refers;
  }

  // ---------- the lookup ----------

  datatype Table = Table(prefixes: seq<nat>, refs: seq<nat>, buckets: seq<nat>)

  /** A table as the generator makes it from a registry. */
  ghost predicate Generated(t: Table, arena: seq<Byte>, entries: seq<Entry>, bits: nat)
  {
    && Registry(entries, bits) && |t.prefixes| == |entries| && |t.refs| == |entries|
    && (forall i | 0 <= i < |entries| :: t.prefixes[i] == entries[i].prefix)
    && RefersAll(arena, t.refs, entries) && Splits(entries, bits, t.buckets)
  }

  datatype Source = Unknown | MAL | MAM | MAS | LocallyAdministered | Multicast

  datatype Result = Result(name: seq<Byte>, prefixBits: nat, source: Source)

  const NO_RESULT := Result([], 0, Unknown)

  /** A MAC as a 48-bit number. */
  function MACValue(m: MAC): nat {
    ((((m[0] as int * 256 + m[1] as int) * 256 + m[2] as int) * 256 + m[3] as int) * 256 + m[4] as int) * 256 + m[5] as int
  }

  /** The entry of a registry a MAC begins with. */
  ghost predicate Assigned(entries: seq<Entry>, bits: nat, m: MAC, i: nat)
  {
    i < |entries| && entries[i].prefix == MACValue(m) / Block(bits)
  }

  ghost predicate Unassigned(entries: seq<Entry>, bits: nat, m: MAC)
  {
    forall i: nat :: !Assigned(entries, bits, m, i)
  }

  /** searchUint32 and searchUint64, on values in ascending order. */
  method Search(values: seq<nat>, target: nat, from: nat, to: nat) returns (r: int)
    requires from <= to <= |values| && forall i, j | 0 <= i < j < |values| :: values[i] < values[j]
    ensures -1 <= r < |values| && (r >= 0 ==> values[r] == target)
    ensures r < 0 ==> forall i | from <= i < to :: values[i] != target
  {
    var lo, hi := from, to;
    while lo < hi
      invariant from <= lo <= hi <= to
      invariant forall i | from <= i < lo :: values[i] < target
      invariant forall i | hi <= i < to :: values[i] >= target
    {
      var mid := (lo + hi) / 2;
      if values[mid] < target { lo := mid + 1; } else { hi := mid; }
    }
    if lo < |values| && values[lo] == target { return lo; }
    assert forall i | lo < i < to :: values[lo] < values[i];
    return -1;
  }

  /** One registry looked up through its bucket. */
  method Find(t: Table, prefix: nat, bits: nat, ghost arena: seq<Byte>, ghost entries: seq<Entry>) returns (i: int)
    requires prefix < BUCKETS * Span(bits) && Generated(t, arena, entries, bits)
    ensures -1 <= i < |entries| && (i >= 0 ==> entries[i].prefix == prefix)
    ensures i < 0 ==> forall k | 0 <= k < |entries| :: entries[k].prefix != prefix
  {
    var bucket := prefix / Span(bits);
    assert SplitsAt(entries, bits, t.buckets[bucket], bucket) && SplitsAt(entries, bits, t.buckets[bucket + 1], bucket + 1);
    var lo, hi := t.buckets[bucket], t.buckets[bucket + 1];
    assert lo > hi ==> BucketAt(entries, bits, hi) < bucket;
    i := Search(t.prefixes, prefix, lo, hi);
    if i < 0 {
      forall k | 0 <= k < |entries| ensures entries[k].prefix != prefix {
        assert t.prefixes[k] == entries[k].prefix && BucketAt(entries, bits, k) == Bucket(entries[k].prefix, bits);
      }
    }
  }

  /** vendorResult. */
  function VendorResult(arena: seq<Byte>, ref: nat, bits: nat, source: Source): Result {
    var offset, length := ref / 256, ref % 256;
    if length == 0 || offset + length > |arena| then NO_RESULT
    else Result(arena[offset..offset + length], bits, source)
  }

  lemma NameRecovered(arena: seq<Byte>, ref: nat, name: seq<Byte>, bits: nat, source: Source)
    requires Refers(arena, ref, name) && name != []
    ensures VendorResult(arena, ref, bits, source) == Result(name, bits, source)
  {
  }

  /** The prefix the code assembles by shifting. */
  function Prefix(m: MAC, bits: nat): nat {
    var a, b, c, d, e: int := m[0], m[1], m[2], m[3], m[4];
    if bits == 36 then a * 0x1000_0000 + b * 0x10_0000 + c * 0x1000 + d * 16 + e / 16
    else if bits == 28 then a * 0x10_0000 + b * 0x1000 + c * 16 + d / 16
    else a * 0x1_0000 + b * 256 + c
  }

  /** It is the leading bits of the address. */
  lemma LeadingBits(m: MAC, bits: nat)
    requires IsLength(bits)
    ensures Prefix(m, bits) == MACValue(m) / Block(bits) && Prefix(m, bits) < BUCKETS * Span(bits)
  {
  }

  /** LookupMACVendor over generated tables: addresses that are not globally administered unicast are
      named as such; any other gets the exact name of the longest assigned prefix it begins with. */
  method LookupMACVendor(m: MAC, mas: Table, mam: Table, mal: Table, arena: seq<Byte>,
                         ghost s: seq<Entry>, ghost md: seq<Entry>, ghost l: seq<Entry>) returns (r: Result)
    requires Generated(mas, arena, s, 36) && Generated(mam, arena, md, 28) && Generated(mal, arena, l, 24)
    ensures MACValue(m) == 0 ==> r == NO_RESULT
    ensures MACValue(m) != 0 && m[0] % 2 == 1 ==> r == Result([], 0, Multicast)
    ensures MACValue(m) != 0 && m[0] % 2 == 0 && m[0] / 2 % 2 == 1 ==> r == Result([], 0, LocallyAdministered)
    ensures MACValue(m) != 0 && m[0] % 4 == 0 ==> LongestPrefix(m, s, md, l, r)
  {
    if m == [0, 0, 0, 0, 0, 0] { return NO_RESULT; }
    if m[0] % 2 == 1 { return Result([], 0, Multicast); }
    if m[0] / 2 % 2 == 1 { return Result([], 0, LocallyAdministered); }
    hide Splits, Generated, Refers, MACValue, Prefix, Span, Block;
    LeadingBits(m, 36);
    LeadingBits(m, 28);
    LeadingBits(m, 24);
    var i := Find(mas, Prefix(m, 36), 36, arena, s);
    if i >= 0 { return Named(mas, i, arena, s, 36, MAS); }
    i := Find(mam, Prefix(m, 28), 28, arena, md);
    if i >= 0 { return Named(mam, i, arena, md, 28, MAM); }
    i := Find(mal, Prefix(m, 24), 24, arena, l);
    if i >= 0 { return Named(mal, i, arena, l, 24, MAL); }
    r := NO_RESULT;
  }

  /** Linear longest-prefix matching over the three registries. */
  ghost predicate LongestPrefix(m: MAC, s: seq<Entry>, md: seq<Entry>, l: seq<Entry>, r: Result) {
    || (exists i: nat :: Assigned(s, 36, m, i) && r == Result(s[i].name, 36, MAS))
    || (Unassigned(s, 36, m) && exists i: nat :: Assigned(md, 28, m, i) && r == Result(md[i].name, 28, MAM))
    || (Unassigned(s, 36, m) && Unassigned(md, 28, m) && exists i: nat :: Assigned(l, 24, m, i) && r == Result(l[i].name, 24, MAL))
    || (Unassigned(s, 36, m) && Unassigned(md, 28, m) && Unassigned(l, 24, m) && r == NO_RESULT)
  }

  /** The matching has one result. */
  lemma LongestPrefixIsOne(m: MAC, s: seq<Entry>, md: seq<Entry>, l: seq<Entry>, a: Result, b: Result)
    requires Registry(s, 36) && Registry(md, 28) && Registry(l, 24) && LongestPrefix(m, s, md, l, a) && LongestPrefix(m, s, md, l, b)
    ensures a == b
  {
  }

  /** The name of entry i, read through its reference. */
  function Named(t: Table, i: nat, arena: seq<Byte>, ghost entries: seq<Entry>, bits: nat, source: Source): (r: Result)
    requires Generated(t, arena, entries, bits) && i < |entries|
    ensures r == Result(entries[i].name, bits, source)
  {
    NameRecovered(arena, t.refs[i], entries[i].name, bits, source);
    VendorResult(arena, t.refs[i], bits, source)
  }
}
