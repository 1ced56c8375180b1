/** Merging of text evidence: a bounded list of alternatives with one canonical value. */
module Text {
  import opened Model
  import opened FusionTypes

  function Rank(v: TextValue): nat { v.confidence * 16 + |v.protocols| }

  /** The scan for a value outranking the best so far, from position i on. */
  function Better(values: seq<TextValue>, best: nat, i: nat): (r: nat)
    requires best < |values| && i <= |values|
    ensures r < |values| && Rank(values[r]) >= Rank(values[best])
    ensures forall k | i <= k < |values| :: Rank(values[k]) <= Rank(values[r])
    ensures r != best ==> i <= r && Rank(values[r]) > Rank(values[best])
    decreases |values| - i
  {
    if i == |values| then best
    else Better(values, if Rank(values[i]) > Rank(values[best]) then i else best, i + 1)
  }

  function SelectCanonical(f: TextField): (g: TextField)
    ensures g.values == f.values
  {
    if f.values == [] then f.(canonical := 0)
    else f.(canonical := Better(f.values, if f.canonical < |f.values| then f.canonical else 0, 0))
  }

  /** The first position holding a value, |values| if there is none. */
  function Find(values: seq<TextValue>, value: seq<Byte>): (i: nat)
    ensures i <= |values| && (i < |values| ==> values[i].value == value)
    ensures forall k | 0 <= k < i :: values[k].value != value
  {
    if values == [] || values[0].value == value then 0 else 1 + Find(values[1..], value)
  }

  predicate WeakerThan(a: TextValue, b: TextValue) {
    Rank(a) < Rank(b) || (Rank(a) == Rank(b) && a.lastSeen < b.lastSeen)
  }

  /** The weakest value among the first n other than the canonical one, the first of equals; -1
      if there is no other. */
  function Weakest(values: seq<TextValue>, canonical: nat, n: nat): (r: int)
    requires n <= |values|
    ensures r == -1 <==> n == 0 || (n == 1 && canonical == 0)
    ensures r >= -1
    ensures r != -1 ==> 0 <= r < n && r != canonical
    ensures r != -1 ==> forall k | 0 <= k < n && k != canonical :: !WeakerThan(values[k], values[r])
  {
    if n == 0 then -1 else
    var r := Weakest(values, canonical, n - 1);
    if n - 1 != canonical && (r < 0 || WeakerThan(values[n - 1], values[r])) then n - 1 else r
  }

  function Fresh(value: seq<Byte>, protocols: ProtocolSet, confidence: nat, now: Time): TextValue {
    TextValue(value, protocols, confidence, now, now)
  }

  /** One more observation of a value already listed. */
  function Again(v: TextValue, protocols: ProtocolSet, confidence: nat, now: Time): TextValue {
    v.(protocols := v.protocols + protocols,
       confidence := if confidence > v.confidence then confidence else v.confidence,
       lastSeen := if now > v.lastSeen then now else v.lastSeen)
  }

  /** The field after one observation, and whether that changed it beyond its time stamps. */
  function MergeText(f: TextField, value: seq<Byte>, protocols: ProtocolSet, confidence: nat, now: Time, max: nat): (TextField, bool) {
    if value == [] then (f, false) else
    var i := Find(f.values, value);
    if i < |f.values| then
      var v := f.values[i];
      (SelectCanonical(f.(values := f.values[i := Again(v, protocols, confidence, now)])),
       !(protocols <= v.protocols) || confidence > v.confidence)
    else if |f.values| < max + 1 then
      (SelectCanonical(f.(values := f.values + [Fresh(value, protocols, confidence, now)])), true)
    else
      var r := Weakest(f.values, f.canonical, |f.values|);
      if r < 0 || Rank(Fresh(value, protocols, confidence, now)) < Rank(f.values[r]) then (f, false)
      else (SelectCanonical(f.(values := f.values[r := Fresh(value, protocols, confidence, now)])), true)
  }

  ghost predicate ValuesDistinct(values: seq<TextValue>) {
    && (forall k | 0 <= k < |values| :: values[k].value != [])
    && (forall j, k | 0 <= j < k < |values| :: values[j].value != values[k].value)
  }

  ghost predicate CanonicalBest(f: TextField) {
    && (f.values == [] ==> f.canonical == 0)
    && (f.values != [] ==> f.canonical < |f.values|)
    && (forall k | 0 <= k < |f.values| :: Rank(f.values[k]) <= Rank(f.values[f.canonical]))
  }

  /** Distinct non-empty values, at most max of them beside the canonical one, which none outranks. */
  ghost predicate TextOK(f: TextField, max: nat) { |f.values| <= max + 1 && ValuesDistinct(f.values) && CanonicalBest(f) }

  lemma MergeKeepsText(f: TextField, value: seq<Byte>, protocols: ProtocolSet, confidence: nat, now: Time, max: nat)
    requires TextOK(f, max)
    ensures TextOK(MergeText(f, value, protocols, confidence, now, max).0, max)
  {
    hide Rank, Weakest, ValuesDistinct, CanonicalBest, SelectCanonical;
    if value != [] {
      var i := Find(f.values, value);
      var r := Weakest(f.values, f.canonical, |f.values|);
      if i < |f.values| {
        Distinctly(f.values, i, Again(f.values[i], protocols, confidence, now));
        SelectsBest(f.(values := f.values[i := Again(f.values[i], protocols, confidence, now)]));
      } else if |f.values| < max + 1 {
        OneMore(f.values, Fresh(value, protocols, confidence, now));
        SelectsBest(f.(values := f.values + [Fresh(value, protocols, confidence, now)]));
      } else if r >= 0 {
        Distinctly(f.values, r, Fresh(value, protocols, confidence, now));
        SelectsBest(f.(values := f.values[r := Fresh(value, protocols, confidence, now)]));
      }
    }
  }

  lemma SelectsBest(f: TextField)
    ensures CanonicalBest(SelectCanonical(f))
  {
    hide Rank;
  }

  lemma Distinctly(values: seq<TextValue>, i: nat, v: TextValue)
    requires ValuesDistinct(values) && i < |values| && v.value != []
    requires v.value == values[i].value || forall k | 0 <= k < |values| :: values[k].value != v.value
    ensures ValuesDistinct(values[i := v])
  {
  }

  lemma OneMore(values: seq<TextValue>, v: TextValue)
    requires ValuesDistinct(values) && v.value != [] && forall k | 0 <= k < |values| :: values[k].value != v.value
    ensures ValuesDistinct(values + [v])
  {
  }

  /** The canonical text is replaced only by one that strictly outranks what it was merged with. */
  lemma CanonicalStable(f: TextField, value: seq<Byte>, protocols: ProtocolSet, confidence: nat, now: Time, max: nat)
    requires TextOK(f, max) && f.values != []
    ensures var g := MergeText(f, value, protocols, confidence, now, max).0;
            g.canonical == f.canonical
            || (g.values[g.canonical].value == value && Rank(g.values[g.canonical]) > Rank(f.values[f.canonical]))
  {
    var g := MergeText(f, value, protocols, confidence, now, max).0;
    var i := Find(f.values, value);
    if i < |f.values| {
      AgainRank(f.values[i], protocols, confidence, now);
    }
  }

  lemma AgainRank(v: TextValue, protocols: ProtocolSet, confidence: nat, now: Time)
    ensures Rank(Again(v, protocols, confidence, now)) >= Rank(v)
  {
    Subset(v.protocols, v.protocols + protocols);
  }

  lemma Subset<T>(a: set<T>, b: set<T>)
    requires a <= b
    ensures |a| <= |b|
  {
    assert b == a + (b - a);
  }

  lemma FreshRank(value: seq<Byte>, protocols: ProtocolSet, confidence: nat, t0: Time, t1: Time)
    ensures Rank(Fresh(value, protocols, confidence, t0)) == Rank(Fresh(value, protocols, confidence, t1))
  {
  }

  lemma AgainCovers(v: TextValue, protocols: ProtocolSet, confidence: nat, now: Time)
    ensures var w := Again(v, protocols, confidence, now);
            w.value == v.value && protocols <= w.protocols && confidence <= w.confidence
  {
  }

  lemma Found(values: seq<TextValue>, value: seq<Byte>, i: nat)
    requires i < |values| && values[i].value == value && forall k | 0 <= k < i :: values[k].value != value
    ensures Find(values, value) == i
  {
  }

  /** Repeating an observation at any later time changes nothing but time stamps. */
  lemma RepeatQuiet(f: TextField, value: seq<Byte>, protocols: ProtocolSet, confidence: nat, t0: Time, t1: Time, max: nat)
    ensures !MergeText(MergeText(f, value, protocols, confidence, t0, max).0, value, protocols, confidence, t1, max).1
  {
    hide SelectCanonical, Rank, Again;
    var g := MergeText(f, value, protocols, confidence, t0, max).0;
    var i := Find(f.values, value);
    var r := Weakest(f.values, f.canonical, |f.values|);
    if i < |f.values| {
      AgainCovers(f.values[i], protocols, confidence, t0);
      Found(g.values, value, i);
    } else if |f.values| < max + 1 {
      if value != [] { Found(g.values, value, |f.values|); }
    } else if value != [] && r >= 0 && Rank(Fresh(value, protocols, confidence, t0)) >= Rank(f.values[r]) {
      Found(g.values, value, r);
    }
    FreshRank(value, protocols, confidence, t0, t1);
  }

  /** Lists that differ in time stamps only. */
  ghost predicate SameSaid(a: seq<TextValue>, b: seq<TextValue>) {
    |a| == |b| && forall i | 0 <= i < |a| :: SameButTimes(a[i], b[i])
  }

  predicate SameButTimes(a: TextValue, b: TextValue) { b == a.(firstSeen := b.firstSeen, lastSeen := b.lastSeen) }

  /** An observation that changes nothing leaves all but time stamps. */
  lemma QuietSame(f: TextField, value: seq<Byte>, protocols: ProtocolSet, confidence: nat, now: Time, max: nat)
    requires CanonicalBest(f) && !MergeText(f, value, protocols, confidence, now, max).1
    ensures var g := MergeText(f, value, protocols, confidence, now, max).0;
            SameSaid(f.values, g.values) && g.canonical == f.canonical && CanonicalBest(g)
  {
    hide Weakest;
    var i := Find(f.values, value);
    if value != [] && i < |f.values| {
      var v := f.values[i];
      assert v.protocols + protocols == v.protocols;
      var values := f.values[i := Again(v, protocols, confidence, now)];
      assert forall k | 0 <= k < |values| :: SameButTimes(f.values[k], values[k]) && Rank(values[k]) == Rank(f.values[k]);
    }
  }

  /** Whether an observation is news depends on nothing else. */
  lemma SameNews(f: TextField, g: TextField, value: seq<Byte>, protocols: ProtocolSet, confidence: nat, now: Time, later: Time, max: nat)
    requires SameSaid(f.values, g.values) && g.canonical == f.canonical
    ensures MergeText(f, value, protocols, confidence, now, max).1 == MergeText(g, value, protocols, confidence, later, max).1
  {
    hide SelectCanonical, Again, Weakest;
    var i := Find(f.values, value);
    assert forall k | 0 <= k < |f.values| :: SameButTimes(f.values[k], g.values[k]);
    if i < |f.values| { Found(g.values, value, i); } else { NotFound(g.values, value); }
    SameWeakest(f.values, g.values, f.canonical);
    FreshRank(value, protocols, confidence, now, later);
  }

  /** The value is listed, on behalf of these protocols and with this confidence at least. */
  predicate Listed(values: seq<TextValue>, value: seq<Byte>, protocols: ProtocolSet, confidence: nat) {
    var i := Find(values, value);
    value != [] ==> i < |values| && protocols <= values[i].protocols && confidence <= values[i].confidence
  }

  /** With room for one more, an observation lists its value and unlists none. */
  lemma RoomLists(f: TextField, value: seq<Byte>, protocols: ProtocolSet, confidence: nat, now: Time, max: nat)
    requires |f.values| < max + 1
    ensures var g := MergeText(f, value, protocols, confidence, now, max).0;
            && |g.values| <= |f.values| + 1 && Listed(g.values, value, protocols, confidence)
            && forall v, p, c | Listed(f.values, v, p, c) :: Listed(g.values, v, p, c)
  {
    hide SelectCanonical;
    var g := MergeText(f, value, protocols, confidence, now, max).0;
    var i := Find(f.values, value);
    if value != [] {
      Found(g.values, value, i);
      forall v, p, c | Listed(f.values, v, p, c) && v != [] ensures Listed(g.values, v, p, c) {
        Found(g.values, v, Find(f.values, v));
      }
    }
  }

  /** A listed value is no news. */
  lemma ListedQuiet(f: TextField, value: seq<Byte>, protocols: ProtocolSet, confidence: nat, now: Time, max: nat)
    requires Listed(f.values, value, protocols, confidence)
    ensures !MergeText(f, value, protocols, confidence, now, max).1
  {
  }

  lemma NotFound(values: seq<TextValue>, value: seq<Byte>)
    requires forall k | 0 <= k < |values| :: values[k].value != value
    ensures Find(values, value) == |values|
  {
  }

  lemma SameWeakest(a: seq<TextValue>, b: seq<TextValue>, canonical: nat)
    requires SameSaid(a, b)
    ensures var q, r := Weakest(a, canonical, |a|), Weakest(b, canonical, |b|);
            (q < 0 <==> r < 0) && (q >= 0 ==> Rank(a[q]) == Rank(b[r]))
  {
    hide Rank;
    var q, r := Weakest(a, canonical, |a|), Weakest(b, canonical, |b|);
    if q >= 0 {
      SameRank(a[q], b[q]);
      SameRank(a[r], b[r]);
      assert !WeakerThan(a[r], a[q]) && !WeakerThan(b[q], b[r]);
    }
  }

  lemma SameRank(a: TextValue, b: TextValue)
    requires SameButTimes(a, b)
    ensures Rank(a) == Rank(b)
  {
  }

  /** All values of one field merged into another, as when two devices become one. */
  function MergeField(dst: TextField, src: seq<TextValue>, max: nat): TextField
    decreases |src|
  {
    if src == [] then dst
    else MergeField(MergeText(dst, src[0].value, src[0].protocols, src[0].confidence, src[0].lastSeen, max).0, src[1..], max)
  }

  lemma {:induction false} MergeFieldKeepsText(dst: TextField, src: seq<TextValue>, max: nat)
    requires TextOK(dst, max)
    ensures TextOK(MergeField(dst, src, max), max)
    decreases |src|
  {
    if src != [] {
      MergeKeepsText(dst, src[0].value, src[0].protocols, src[0].confidence, src[0].lastSeen, max);
      MergeFieldKeepsText(MergeText(dst, src[0].value, src[0].protocols, src[0].confidence, src[0].lastSeen, max).0, src[1..], max);
    }
  }

  // ---------- in place ----------

  /** A field of the store, updated by its loops. */
  class TextCell {
    var values: seq<TextValue>
    var canonical: nat

    function Field(): TextField
      reads this
    {
      TextField(values, canonical)
    }

    constructor (f: TextField)
      ensures Field() == f
    {
      values, canonical := f.values, f.canonical;
    }

    method Select()
      modifies this`canonical
      ensures Field() == old(SelectCanonical(Field()))
    {
      if |values| == 0 {
        canonical := 0;
        return;
      }
      var cur := canonical;
      if cur >= |values| { cur := 0; }
      var best: nat := cur;
      for i := 0 to |values|
        invariant best < |values| && Better(values, cur, 0) == Better(values, best, i)
      {
        if Rank(values[i]) > Rank(values[best]) { best := i; }
      }
      canonical := best;
    }

    method Merge(value: seq<Byte>, protocols: ProtocolSet, confidence: nat, now: Time, max: nat) returns (changed: bool)
      modifies this
      ensures (Field(), changed) == old(MergeText(Field(), value, protocols, confidence, now, max))
    {
      hide SelectCanonical;
      if |value| == 0 { return false; }
      for i := 0 to |values|
        invariant values == old(values) && canonical == old(canonical)
        invariant forall k | 0 <= k < i :: values[k].value != value
      {
        if values[i].value == value {
          changed := !(protocols <= values[i].protocols) || confidence > values[i].confidence;
          assert Find(values, value) == i;
          values := values[i := Again(values[i], protocols, confidence, now)];
          Select();
          return;
        }
      }
      assert Find(values, value) == |values|;
      if |values| < max + 1 {
        values := values + [Fresh(value, protocols, confidence, now)];
        Select();
        return true;
      }
      var replace := -1;
      for i := 0 to |values|
        invariant values == old(values) && canonical == old(canonical)
        invariant replace == Weakest(values, canonical, i)
      {
        if i != canonical && (replace < 0 || WeakerThan(values[i], values[replace])) { replace := i; }
      }
      if replace < 0 || Rank(Fresh(value, protocols, confidence, now)) < Rank(values[replace]) { return false; }
      values := values[replace := Fresh(value, protocols, confidence, now)];
      Select();
      return true;
    }
  }
}
