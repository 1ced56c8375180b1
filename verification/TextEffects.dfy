/** What a text merged into a field leaves of it, said without the loops that do it. */
module TextEffects {
  import opened Model
  import opened FusionTypes
  import opened Text

  /** A text is as good as its confidence, and among those of one confidence as the protocols behind it. */
  function Weight(confidence: nat, protocols: ProtocolSet): nat { confidence * 16 + |protocols| }

  function WeightOf(v: TextValue): nat { Weight(v.confidence, v.protocols) }

  predicate Holds(values: seq<TextValue>, i: int, value: seq<Byte>) { 0 <= i < |values| && values[i].value == value }

  /** All but the i-th are as they were. */
  ghost predicate Others(r: seq<TextValue>, values: seq<TextValue>, i: int) {
    |r| == |values| && forall k | 0 <= k < |values| && k != i :: r[k] == values[k]
  }

  /** v said again: on behalf of more protocols, with the higher confidence, seen now if not later. */
  ghost predicate HeardAgain(r: TextValue, v: TextValue, protocols: ProtocolSet, confidence: nat, now: Time) {
    && r.value == v.value && r.firstSeen == v.firstSeen
    && (forall p :: p in r.protocols <==> p in v.protocols || p in protocols)
    && confidence <= r.confidence && v.confidence <= r.confidence && r.confidence in {v.confidence, confidence}
    && now <= r.lastSeen && v.lastSeen <= r.lastSeen && r.lastSeen in {v.lastSeen, now}
  }

  ghost predicate AgainIsNews(v: TextValue, protocols: ProtocolSet, confidence: nat) {
    v.confidence < confidence || exists p :: p in protocols && p !in v.protocols
  }

  /** The value to give way is the weakest but the canonical one, of those the longest unheard, of those the first;
      and the newcomer is no weaker. */
  ghost predicate GivesWay(f: TextField, i: int, weight: nat) {
    && 0 <= i < |f.values| && i != f.canonical && WeightOf(f.values[i]) <= weight
    && forall k | 0 <= k < |f.values| && k != i && k != f.canonical ::
         var a, b := f.values[i], f.values[k];
         WeightOf(a) < WeightOf(b) || (WeightOf(a) == WeightOf(b) && (a.lastSeen < b.lastSeen || (a.lastSeen == b.lastSeen && i < k)))
  }

  /** The canonical value stays unless another outweighs it; then the first of the weightiest takes over. */
  ghost predicate Chosen(values: seq<TextValue>, was: nat, c: nat) {
    if values == [] then c == 0 else
    var at := if was < |values| then was else 0;
    && c < |values| && (forall k | 0 <= k < |values| :: WeightOf(values[k]) <= WeightOf(values[c]))
    && (c != at ==> WeightOf(values[at]) < WeightOf(values[c]) && forall k | 0 <= k < c :: WeightOf(values[k]) < WeightOf(values[c]))
  }

  /** g and changed are what an observation of a text makes of field f. */
  ghost predicate TextLeft(f: TextField, g: TextField, changed: bool, value: seq<Byte>, protocols: ProtocolSet, confidence: nat, now: Time, max: nat) {
    if value == [] then g == f && !changed
    else if exists i :: Holds(f.values, i, value) then
      exists i :: Holds(f.values, i, value) && Others(g.values, f.values, i) && HeardAgain(g.values[i], f.values[i], protocols, confidence, now)
                  && (changed <==> AgainIsNews(f.values[i], protocols, confidence)) && Chosen(g.values, f.canonical, g.canonical)
    else if |f.values| <= max then
      changed && g.values == f.values + [TextValue(value, protocols, confidence, now, now)] && Chosen(g.values, f.canonical, g.canonical)
    else if exists i :: GivesWay(f, i, Weight(confidence, protocols)) then
      changed && Chosen(g.values, f.canonical, g.canonical)
      && exists i :: GivesWay(f, i, Weight(confidence, protocols)) && Others(g.values, f.values, i) && g.values[i] == TextValue(value, protocols, confidence, now, now)
    else g == f && !changed
  }

  lemma {:induction false} BetterFirst(values: seq<TextValue>, best: nat, i: nat)
    requires best < |values| && i <= |values|
    ensures var r := Better(values, best, i); r != best ==> forall k | i <= k < r :: Rank(values[k]) < Rank(values[r])
    decreases |values| - i
  {
    hide Rank;
    if i < |values| { BetterFirst(values, if Rank(values[i]) > Rank(values[best]) then i else best, i + 1); }
  }

  lemma {:induction false} WeakestFirst(values: seq<TextValue>, canonical: nat, n: nat)
    requires n <= |values|
    ensures var r := Weakest(values, canonical, n); r != -1 ==> forall k | 0 <= k < r && k != canonical :: WeakerThan(values[r], values[k])
  {
    if n > 0 { WeakestFirst(values, canonical, n - 1); }
  }

  lemma Selected(f: TextField)
    ensures Chosen(f.values, f.canonical, SelectCanonical(f).canonical)
  {
    if f.values != [] { BetterFirst(f.values, if f.canonical < |f.values| then f.canonical else 0, 0); }
  }

  lemma WeakestGivesWay(f: TextField, weight: nat)
    ensures var r := Weakest(f.values, f.canonical, |f.values|);
            if r >= 0 && Rank(f.values[r]) <= weight then GivesWay(f, r, weight) else forall i :: !GivesWay(f, i, weight)
  {
    WeakestFirst(f.values, f.canonical, |f.values|);
    var r := Weakest(f.values, f.canonical, |f.values|);
    if r >= 0 && Rank(f.values[r]) <= weight {
      forall k | 0 <= k < |f.values| && k != r && k != f.canonical
        ensures var a, b := f.values[r], f.values[k];
                WeightOf(a) < WeightOf(b) || (WeightOf(a) == WeightOf(b) && (a.lastSeen < b.lastSeen || (a.lastSeen == b.lastSeen && r < k)))
      {
        assert !WeakerThan(f.values[k], f.values[r]);
        if k < r { assert WeakerThan(f.values[r], f.values[k]); }
      }
    } else if r >= 0 {
      forall i | 0 <= i < |f.values| && i != f.canonical ensures WeightOf(f.values[i]) > weight { assert !WeakerThan(f.values[i], f.values[r]); }
    }
  }

  /** Every merge of a text. */
  lemma MergeLeaves(f: TextField, value: seq<Byte>, protocols: ProtocolSet, confidence: nat, now: Time, max: nat)
    ensures var r := MergeText(f, value, protocols, confidence, now, max); TextLeft(f, r.0, r.1, value, protocols, confidence, now, max)
  {
    hide SelectCanonical, Chosen, GivesWay, Weakest, Rank;
    if value != [] {
      var i := Find(f.values, value);
      if i < |f.values| {
        assert Holds(f.values, i, value);
        var values := f.values[i := Again(f.values[i], protocols, confidence, now)];
        Selected(f.(values := values));
        assert Others(values, f.values, i);
        NewsIs(f.values[i], protocols, confidence);
      } else if |f.values| < max + 1 {
        Selected(f.(values := f.values + [Fresh(value, protocols, confidence, now)]));
      } else {
        WeakestGivesWay(f, Weight(confidence, protocols));
        FreshWeight(value, protocols, confidence, now);
        var r := Weakest(f.values, f.canonical, |f.values|);
        if r >= 0 && Rank(f.values[r]) <= Weight(confidence, protocols) {
          var values := f.values[r := Fresh(value, protocols, confidence, now)];
          Selected(f.(values := values));
          assert Others(values, f.values, r);
        }
      }
    }
  }

  lemma FreshWeight(value: seq<Byte>, protocols: ProtocolSet, confidence: nat, now: Time)
    ensures Rank(Fresh(value, protocols, confidence, now)) == Weight(confidence, protocols)
  {
  }

  lemma NewsIs(v: TextValue, protocols: ProtocolSet, confidence: nat)
    ensures !(protocols <= v.protocols) || confidence > v.confidence <==> AgainIsNews(v, protocols, confidence)
  {
  }
}
