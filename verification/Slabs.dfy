/** What the three slabs and the two ownership relations have in common. */
module Slabs {
  import opened Model

  /** The removal of an owned index: the last one takes its place. */
  function SwapRemove(l: seq<int>, x: int): seq<int> {
    if x !in l then l else l[FirstIndex(l, x) := l[|l| - 1]][..|l| - 1]
  }

  lemma SwapRemoved(l: seq<int>, x: int)
    requires NoDup(l)
    ensures NoDup(SwapRemove(l, x))
    ensures forall y :: y in SwapRemove(l, x) <==> y in l && y != x
    ensures x in l ==> |SwapRemove(l, x)| == |l| - 1
  {
    if x in l {
      var i, r := FirstIndex(l, x), SwapRemove(l, x);
      assert forall k | 0 <= k < |r| :: r[k] == if k == i then l[|l| - 1] else l[k];
      forall y | y in l && y != x ensures y in r {
        var k := FirstIndex(l, y);
        assert r[if k == |l| - 1 then i else k] == y;
      }
    }
  }

  /** The freelist holds each index that is not in use, once. */
  ghost predicate FreeOK(n: nat, used: set<int>, free: seq<int>) {
    && NoDup(free)
    && (forall i | i in used :: 0 <= i < n)
    && forall i :: i in free <==> 0 <= i < n && i !in used
  }

  /** The index an allocation takes: the least of the lowest-scored ones, as a scan finds it. */
  function Oldest(score: map<int, int>, n: nat): (o: int)
    ensures o == -1 <==> forall i | i in score :: !(0 <= i < n)
    ensures o != -1 ==> 0 <= o < n && o in score
    ensures o != -1 ==> forall i | i in score && 0 <= i < n :: score[o] < score[i] || (score[o] == score[i] && o <= i)
  {
    if n == 0 then -1 else
    var o := Oldest(score, n - 1);
    if n - 1 in score && (o == -1 || score[n - 1] < score[o]) then n - 1 else o
  }

  lemma OldestLeast(score: map<int, int>, n: nat)
    requires (exists i :: i in score) && forall i | i in score :: 0 <= i < n
    ensures var o := Oldest(score, n); o in score && forall i | i in score :: score[o] <= score[i]
  {
  }

  // ---------- a slab with its hash index and freelist ----------

  /** keyOf has the used slots. */
  datatype Slab<K(==)> = Slab(keyOf: map<int, K>, byKey: map<K, int>, free: seq<int>)

  /** Every index entry points at a used slot holding its key. */
  ghost predicate Sound<K>(t: Slab<K>) {
    forall k | k in t.byKey :: t.byKey[k] in t.keyOf && t.keyOf[t.byKey[k]] == k
  }

  ghost predicate Indexed<K>(t: Slab<K>, i: int)
    requires i in t.keyOf
  {
    t.keyOf[i] in t.byKey && t.byKey[t.keyOf[i]] == i
  }

  /** Every used slot is indexed, so keys are unique. */
  ghost predicate Complete<K>(t: Slab<K>) { forall i | i in t.keyOf :: Indexed(t, i) }

  /** Used slots and freelist partition 0..n; one slot may be reserved by an allocation. */
  ghost predicate Partition<K>(t: Slab<K>, n: nat, reserved: set<int>) {
    reserved !! t.keyOf.Keys && FreeOK(n, t.keyOf.Keys + reserved, t.free)
  }

  function Release<K>(t: Slab<K>, i: int): Slab<K>
    requires i in t.keyOf
  {
    Slab(t.keyOf - {i}, t.byKey - {t.keyOf[i]}, t.free + [i])
  }

  function TakeFree<K>(t: Slab<K>): Slab<K>
    requires t.free != []
  {
    t.(free := t.free[..|t.free| - 1])
  }

  function Insert<K>(t: Slab<K>, i: int, k: K): Slab<K> {
    t.(keyOf := t.keyOf[i := k], byKey := t.byKey[k := i])
  }

  lemma NewSlot<K>(t: Slab<K>, i: int, k: K)
    ensures Insert(t, i, k).keyOf == t.keyOf[i := k]
  {
  }

  function Rekey<K>(t: Slab<K>, i: int, k: K): Slab<K>
    requires i in t.keyOf
  {
    t.(keyOf := t.keyOf[i := k], byKey := (t.byKey - {t.keyOf[i]})[k := i])
  }

  /** A slot re-keyed to a key already taken and then released: the key's entry goes with it. */
  function ReleaseAs<K>(t: Slab<K>, i: int, k: K): Slab<K>
    requires i in t.keyOf
  {
    Slab(t.keyOf - {i}, t.byKey - {t.keyOf[i]} - {k}, t.free + [i])
  }

  lemma ReleaseKeeps<K>(t: Slab<K>, i: int, n: nat, reserved: set<int>)
    requires Sound(t) && Partition(t, n, reserved) && i in t.keyOf
    ensures Sound(Release(t, i)) && Partition(Release(t, i), n, reserved)
    ensures Complete(t) ==> Complete(Release(t, i))
  {
    var u := Release(t, i);
    assert forall x :: x in u.free <==> x in t.free || x == i;
    assert forall x | x in u.keyOf && Indexed(t, x) && Complete(t) :: Indexed(t, i) && Indexed(u, x);
  }

  lemma TakeFreeKeeps<K>(t: Slab<K>, n: nat)
    requires Sound(t) && Partition(t, n, {}) && t.free != []
    ensures var u, i := TakeFree(t), t.free[|t.free| - 1];
            Sound(u) && Partition(u, n, {i}) && (Complete(t) ==> Complete(u)) && 0 <= i < n && i !in t.keyOf
  {
    var u, i := TakeFree(t), t.free[|t.free| - 1];
    assert t.free == u.free + [i];
    assert forall x :: x in t.free <==> x in u.free || x == i;
    assert forall x | x in t.keyOf && Indexed(t, x) :: Indexed(u, x);
  }

  lemma InsertKeeps<K>(t: Slab<K>, i: int, k: K, n: nat)
    requires Sound(t) && Partition(t, n, {i}) && k !in t.byKey
    ensures Sound(Insert(t, i, k)) && Partition(Insert(t, i, k), n, {})
    ensures Complete(t) ==> Complete(Insert(t, i, k))
  {
    var u := Insert(t, i, k);
    assert u.keyOf.Keys + {} == t.keyOf.Keys + {i};
    assert forall x | x in t.keyOf && Indexed(t, x) :: Indexed(u, x);
  }

  /** Re-keying is sound whatever the new key; it stays complete when the key was free. */
  lemma RekeyKeeps<K>(t: Slab<K>, i: int, k: K, n: nat)
    requires Sound(t) && Partition(t, n, {}) && i in t.keyOf
    ensures Sound(Rekey(t, i, k)) && Partition(Rekey(t, i, k), n, {})
    ensures Complete(t) && (k !in t.byKey || t.byKey[k] == i) ==> Complete(Rekey(t, i, k))
  {
    var u := Rekey(t, i, k);
    assert u.keyOf.Keys == t.keyOf.Keys;
    if Complete(t) && (k !in t.byKey || t.byKey[k] == i) {
      forall x | x in u.keyOf ensures Indexed(u, x) {
        assert Indexed(t, x) && Indexed(t, i);
      }
    }
  }

  /** The index after a collision: the survivor's entry, and no other, is lost. */
  lemma ReleaseAsKeeps<K>(t: Slab<K>, i: int, k: K, n: nat)
    requires Sound(t) && Partition(t, n, {}) && i in t.keyOf
    ensures Sound(ReleaseAs(t, i, k)) && Partition(ReleaseAs(t, i, k), n, {})
    ensures Complete(t) ==> forall x | x in ReleaseAs(t, i, k).keyOf :: Indexed(ReleaseAs(t, i, k), x) <==> t.keyOf[x] != k
  {
    var u := ReleaseAs(t, i, k);
    assert forall x :: x in u.free <==> x in t.free || x == i;
    if Complete(t) {
      forall x | x in u.keyOf ensures Indexed(u, x) <==> t.keyOf[x] != k {
        assert Indexed(t, x) && Indexed(t, i);
      }
    }
  }

  // ---------- moving slots to new keys, as a merge does ----------

  /** Another slot is found under k once slot i's own entry is gone. */
  ghost predicate Collides<K>(t: Slab<K>, i: int, k: K)
    requires i in t.keyOf
  {
    k in t.byKey && k != t.keyOf[i] && t.byKey[k] != i
  }

  ghost function MoveTo<K>(t: Slab<K>, i: int, k: K): Slab<K>
    requires i in t.keyOf
  {
    if Collides(t, i, k) then ReleaseAs(t, i, k) else Rekey(t, i, k)
  }

  lemma MoveToKeeps<K>(t: Slab<K>, i: int, k: K, n: nat)
    requires Sound(t) && Partition(t, n, {}) && i in t.keyOf
    ensures Sound(MoveTo(t, i, k)) && Partition(MoveTo(t, i, k), n, {})
  {
    ReleaseAsKeeps(t, i, k, n);
    RekeyKeeps(t, i, k, n);
  }

  /** Slots of a list moved one by one from its end. */
  ghost function MoveAll<K>(t: Slab<K>, list: seq<int>, newKey: map<int, K>): Slab<K>
    decreases |list|
  {
    if list == [] then t else
    var i := list[|list| - 1];
    MoveAll(if i in t.keyOf && i in newKey then MoveTo(t, i, newKey[i]) else t, list[..|list| - 1], newKey)
  }

  /** Before and while a list is moved: its slots and the slots it collides with are indexed, and
      no two of its slots get the same key, nor one that is still on the list. */
  ghost predicate Movable<K>(t: Slab<K>, list: seq<int>, newKey: map<int, K>) {
    && NoDup(list)
    && (forall i | i in list :: i in t.keyOf && i in newKey && Indexed(t, i))
    && (forall i, j | i in list && j in list && i != j :: newKey[i] != newKey[j])
    && (forall i, j | i in list && j in list :: newKey[i] != t.keyOf[j])
    && (forall i, x | i in list && x in t.keyOf && t.keyOf[x] == newKey[i] :: Indexed(t, x))
  }

  /** A slot outside the list whose key a moved slot arrives at. */
  ghost predicate Hit<K>(t: Slab<K>, list: seq<int>, newKey: map<int, K>, x: int)
    requires x in t.keyOf
  {
    exists i :: i in list && i in newKey && newKey[i] == t.keyOf[x]
  }

  lemma MoveToIndex<K>(t: Slab<K>, list: seq<int>, newKey: map<int, K>)
    requires Sound(t) && list != [] && Movable(t, list, newKey)
    ensures var i := list[|list| - 1]; i in t.keyOf && i in newKey && i in list
    ensures var i := list[|list| - 1]; var u := MoveTo(t, i, newKey[i]);
            && Movable(u, list[..|list| - 1], newKey)
            && (forall x | x in u.keyOf && x != i :: x in t.keyOf && u.keyOf[x] == t.keyOf[x]
                 && (Indexed(u, x) <==> Indexed(t, x) && t.keyOf[x] != newKey[i]))
            && (i in u.keyOf ==> Indexed(u, i) && u.keyOf[i] == newKey[i])
            && (forall x | x in t.keyOf && x != i :: x in u.keyOf)
            && (i in u.keyOf <==> !exists x :: x in t.keyOf && x !in list && t.keyOf[x] == newKey[i])
  {
    var i := list[|list| - 1];
    assert i in list && Indexed(t, i);
    var u := MoveTo(t, i, newKey[i]);
    var rest := list[..|list| - 1];
    assert forall j | j in rest :: j in list && j != i;
    forall x | x in t.keyOf && x != i ensures x in u.keyOf && u.keyOf[x] == t.keyOf[x] && (Indexed(u, x) <==> Indexed(t, x) && t.keyOf[x] != newKey[i]) {
    }
    if Collides(t, i, newKey[i]) {
      var x := t.byKey[newKey[i]];
      assert x in t.keyOf && t.keyOf[x] == newKey[i] && x !in list;
    }
  }

  /** What moving a list does to the index: the slots it runs into, and no others, are lost from
      the index, and the slots that run into them are released. */
  lemma {:induction false} MoveAllIndex<K>(t: Slab<K>, list: seq<int>, newKey: map<int, K>)
    requires Sound(t) && Movable(t, list, newKey)
    ensures var u := MoveAll(t, list, newKey);
            && (forall x | x in t.keyOf && x !in list :: x in u.keyOf && u.keyOf[x] == t.keyOf[x]
                 && (Indexed(u, x) <==> Indexed(t, x) && !Hit(t, list, newKey, x)))
            && (forall x | x in list && x in u.keyOf :: u.keyOf[x] == newKey[x] && Indexed(u, x))
            && (forall x | x in u.keyOf :: x in t.keyOf)
    decreases |list|
  {
    if list != [] {
      var i := list[|list| - 1];
      MoveToIndex(t, list, newKey);
      var u := MoveTo(t, i, newKey[i]);
      var rest := list[..|list| - 1];
      assert list == rest + [i];
      assert Sound(u);
      MoveAllIndex(u, rest, newKey);
      assert forall x :: x in list <==> x in rest || x == i;
      forall x | x in t.keyOf && x !in list ensures Hit(t, list, newKey, x) <==> Hit(u, rest, newKey, x) || newKey[i] == t.keyOf[x] {
      }
      if i in u.keyOf { assert !Hit(u, rest, newKey, i); }
    }
  }

  /** The collisions a list of moves makes: each the slot found under the new key, and the slot moved. */
  ghost function Collisions<K>(t: Slab<K>, list: seq<int>, newKey: map<int, K>): seq<(int, int)>
    decreases |list|
  {
    if list == [] then [] else
    var i := list[|list| - 1];
    if i in t.keyOf && i in newKey then
      (if Collides(t, i, newKey[i]) then [(t.byKey[newKey[i]], i)] else [])
      + Collisions(MoveTo(t, i, newKey[i]), list[..|list| - 1], newKey)
    else Collisions(t, list[..|list| - 1], newKey)
  }

  ghost predicate Lost<K>(t: Slab<K>, e: int) { forall k | k in t.byKey :: t.byKey[k] != e }

  /** A slot that no key finds any more takes no part in further collisions. */
  lemma {:induction false} LostAvoided<K>(t: Slab<K>, list: seq<int>, newKey: map<int, K>, e: int)
    requires e !in list && Lost(t, e)
    ensures forall p | p in Collisions(t, list, newKey) :: p.0 != e && p.1 != e
    decreases |list|
  {
    if list != [] {
      var i := list[|list| - 1];
      var u := if i in t.keyOf && i in newKey then MoveTo(t, i, newKey[i]) else t;
      LostStays(t, i, newKey, e);
      LostAvoided(u, list[..|list| - 1], newKey, e);
    }
  }

  lemma LostStays<K>(t: Slab<K>, i: int, newKey: map<int, K>, e: int)
    requires i != e && Lost(t, e)
    ensures i in t.keyOf && i in newKey ==> Lost(MoveTo(t, i, newKey[i]), e)
  {
  }

  /** From a complete index, the collisions are exactly the slots of the list whose new key another
      slot has. */
  lemma {:induction false} CollisionsAlike<K>(t: Slab<K>, list: seq<int>, newKey: map<int, K>)
    requires Sound(t) && Movable(t, list, newKey)
    ensures forall e, x :: (e, x) in Collisions(t, list, newKey)
              <==> x in list && e !in list && e in t.keyOf && t.keyOf[e] == newKey[x]
    decreases |list|
  {
    if list != [] {
      var i := list[|list| - 1];
      MoveToIndex(t, list, newKey);
      var u := MoveTo(t, i, newKey[i]);
      var rest := list[..|list| - 1];
      assert list == rest + [i];
      assert Sound(u);
      CollisionsAlike(u, rest, newKey);
      assert forall x :: x in list <==> x in rest || x == i;
      forall e, x ensures (e, x) in Collisions(t, list, newKey) <==> x in list && e !in list && e in t.keyOf && t.keyOf[e] == newKey[x] {
        if x == i && e in t.keyOf && t.keyOf[e] == newKey[i] { assert Indexed(t, e); }
      }
    }
  }

  // ---------- ownership ----------

  datatype Owners = Owners(owner: map<int, int>, lists: map<int, seq<int>>)

  /** An entry is on an owner's list, exactly once, iff the owner owns it. */
  ghost predicate Owned(o: Owners) {
    && (forall i | i in o.owner :: o.owner[i] in o.lists && i in o.lists[o.owner[i]])
    && (forall d, i | d in o.lists && i in o.lists[d] :: i in o.owner && o.owner[i] == d)
    && (forall d | d in o.lists :: NoDup(o.lists[d]))
  }

  function Own(o: Owners, i: int, d: int): Owners
    requires d in o.lists
  {
    Owners(o.owner[i := d], o.lists[d := o.lists[d] + [i]])
  }

  lemma NewOwned(o: Owners, i: int, d: int)
    requires d in o.lists
    ensures Own(o, i, d).owner == o.owner[i := d] && Own(o, i, d).lists.Keys == o.lists.Keys
  {
  }

  function Disown(o: Owners, i: int): Owners
    requires i in o.owner && o.owner[i] in o.lists
  {
    Owners(o.owner - {i}, o.lists[o.owner[i] := SwapRemove(o.lists[o.owner[i]], i)])
  }

  function AddOwner(o: Owners, d: int): Owners { o.(lists := o.lists[d := []]) }

  function DropOwner(o: Owners, d: int): Owners { o.(lists := o.lists - {d}) }

  /** The last entry of one list handed to another owner. */
  function HandOver(o: Owners, src: int, dst: int): Owners
    requires src in o.lists && dst in o.lists && o.lists[src] != []
  {
    var l := o.lists[src];
    Own(o.(lists := o.lists[src := l[..|l| - 1]]), l[|l| - 1], dst)
  }

  lemma OwnKeeps(o: Owners, i: int, d: int)
    requires Owned(o) && d in o.lists && i !in o.owner
    ensures Owned(Own(o, i, d))
  {
    var p := Own(o, i, d);
    forall e, x | e in p.lists && x in p.lists[e] ensures x in p.owner && p.owner[x] == e {
      assert e != d ==> x in o.lists[e];
    }
  }

  lemma DisownKeeps(o: Owners, i: int)
    requires Owned(o) && i in o.owner
    ensures o.owner[i] in o.lists && Owned(Disown(o, i))
    ensures |Disown(o, i).lists[o.owner[i]]| == |o.lists[o.owner[i]]| - 1
  {
    var d := o.owner[i];
    assert d in o.lists && i in o.lists[d] && NoDup(o.lists[d]);
    SwapRemoved(o.lists[d], i);
  }

  lemma AddOwnerKeeps(o: Owners, d: int)
    requires Owned(o) && d !in o.lists
    ensures Owned(AddOwner(o, d))
  {
  }

  lemma DropOwnerKeeps(o: Owners, d: int)
    requires Owned(o) && d in o.lists && o.lists[d] == []
    ensures Owned(DropOwner(o, d))
  {
  }

  lemma HandOverKeeps(o: Owners, src: int, dst: int)
    requires Owned(o) && src in o.lists && dst in o.lists && src != dst && o.lists[src] != []
    ensures var i := o.lists[src][|o.lists[src]| - 1];
            i in o.owner && o.owner[i] == src && Owned(HandOver(o, src, dst))
  {
    var l := o.lists[src];
    var i := l[|l| - 1];
    assert l == l[..|l| - 1] + [i];
    LastRemoved(l);
    DisownKeeps(o, i);
    OwnKeeps(Disown(o, i), i, dst);
    assert HandOver(o, src, dst).owner == Own(Disown(o, i), i, dst).owner;
  }

  lemma LastRemoved(l: seq<int>)
    requires NoDup(l) && l != []
    ensures SwapRemove(l, l[|l| - 1]) == l[..|l| - 1]
  {
  }
}
