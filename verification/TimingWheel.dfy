/** The timing wheels of the fusion store: entries threaded through doubly linked lists, one list
    a slot, refined to a map from entry to the number of ticks left. */
module Timing {
  import opened Model

  const SECOND := 1_000_000_000

  /** Whole ticks a duration takes: rounded up, at least one. */
  function Ticks(d: int): (t: nat)
    ensures t >= 1
    ensures d > 0 ==> (t - 1) * SECOND < d <= t * SECOND
    ensures d <= 0 ==> t == 1
  {
    if d <= 0 then 1 else (d + SECOND - 1) / SECOND
  }

  /** Wheel fields of a link or DNS record; slot is -1 while it is on no list. */
  datatype Node = Node(slot: int, round: nat, prev: int, next: int)

  /** The entry at position k of a list, -1 outside it. */
  function At(l: seq<int>, k: int): int {
    if 0 <= k < |l| then l[k] else -1
  }

  /** l is what the links spell out for slot j, in both directions. */
  ghost predicate Chained(ns: seq<Node>, head: int, l: seq<int>, j: int) {
    && head == At(l, 0) && NoDup(l)
    && forall k | 0 <= k < |l| :: Linked(ns, l, k, j)
  }

  ghost predicate Linked(ns: seq<Node>, l: seq<int>, k: nat, j: int)
    requires k < |l|
  {
    && 0 <= l[k] < |ns|
    && ns[l[k]].slot == j && ns[l[k]].prev == At(l, k - 1) && ns[l[k]].next == At(l, k + 1)
  }

  /** Steps from the cursor forward to a slot, a full turn for the slot under the cursor. */
  function Distance(cursor: nat, slot: int, size: nat): int {
    if slot > cursor then slot - cursor else slot + size - cursor
  }

  /** Ticks left for an entry; one the current tick has yet to visit is due after its rounds. */
  function Remaining(n: Node, cursor: nat, size: nat, waiting: bool): int {
    n.round * size + if waiting then 0 else Distance(cursor, n.slot, size)
  }

  /** Where an entry due in t ticks goes: its slot, and the full turns to let pass. */
  function SlotFor(cursor: nat, t: nat, size: nat): (slot: nat)
    requires size >= 1
    ensures slot < size
  {
    (cursor + t) % size
  }

  function RoundFor(t: nat, size: nat): nat
    requires size >= 1 && t >= 1
  {
    (t - 1) / size
  }

  /** Scheduling t ticks ahead is t ticks from firing, for every wheel size. */
  lemma ScheduledRemaining(cursor: nat, t: nat, size: nat)
    requires size >= 1 && cursor < size && t >= 1
    ensures Remaining(Node(SlotFor(cursor, t, size), RoundFor(t, size), -1, -1), cursor, size, false) == t
  {
    var q, r := (t - 1) / size, (t - 1) % size;
    assert t == q * size + r + 1;
    var y := cursor + r + 1;
    assert cursor + t == q * size + y;
    if y < size {
      ModUnique(cursor + t, size, q, y);
    } else {
      assert q * size + y == (q + 1) * size + (y - size);
      ModUnique(cursor + t, size, q + 1, y - size);
    }
  }

  // ---------- one list: unlinking and inserting at the head ----------

  function Drop(l: seq<int>, k: nat): (r: seq<int>)
    requires k < |l|
    ensures |r| == |l| - 1 && forall m | 0 <= m < |r| :: r[m] == if m < k then l[m] else l[m + 1]
  {
    l[..k] + l[k + 1..]
  }

  lemma DropKeeps(l: seq<int>, k: nat)
    requires k < |l| && NoDup(l)
    ensures NoDup(Drop(l, k)) && l[k] !in Drop(l, k)
    ensures forall x | x in l && x != l[k] :: x in Drop(l, k)
  {
    forall x | x in l && x != l[k] ensures x in Drop(l, k) {
      var m :| 0 <= m < |l| && l[m] == x;
      assert Drop(l, k)[if m < k then m else m - 1] == x;
    }
  }

  /** The three writes of an unlink. */
  function Unlink(ns: seq<Node>, idx: nat): (r: seq<Node>)
    requires idx < |ns| && -1 <= ns[idx].prev < |ns| && -1 <= ns[idx].next < |ns|
    ensures |r| == |ns|
  {
    var e := ns[idx];
    var a := if e.prev >= 0 then ns[e.prev := ns[e.prev].(next := e.next)] else ns;
    var b := if e.next >= 0 then a[e.next := a[e.next].(prev := e.prev)] else a;
    b[idx := e.(slot := -1, prev := -1, next := -1)]
  }

  lemma UnlinkValue(ns: seq<Node>, idx: nat, i: nat)
    requires idx < |ns| && i < |ns| && -1 <= ns[idx].prev < |ns| && -1 <= ns[idx].next < |ns|
    requires ns[idx].prev != idx && ns[idx].next != idx && (ns[idx].prev >= 0 ==> ns[idx].prev != ns[idx].next)
    ensures var e, n := ns[idx], ns[i];
            Unlink(ns, idx)[i] ==
            if i == idx then e.(slot := -1, prev := -1, next := -1)
            else Node(n.slot, n.round, if i == e.next then e.prev else n.prev, if i == e.prev then e.next else n.next)
  {
  }

  /** Neighbours of a threaded entry are on its own list. */
  lemma Neighbours(ns: seq<Node>, l: seq<int>, k: nat, j: int)
    requires Chained(ns, At(l, 0), l, j) && k < |l|
    ensures 0 <= l[k] < |ns| && var e := ns[l[k]];
            && -1 <= e.prev < |ns| && -1 <= e.next < |ns| && e.slot == j
            && (e.prev >= 0 ==> k > 0 && e.prev == l[k - 1] && ns[e.prev].slot == j)
            && (e.next >= 0 ==> e.next == At(l, k + 1) && ns[e.next].slot == j)
            && (e.prev < 0 <==> k == 0)
            && (e.prev >= 0 && e.next >= 0 ==> e.prev != e.next) && e.prev != l[k] && e.next != l[k]
  {
    assert Linked(ns, l, k, j);
    if k > 0 { assert Linked(ns, l, k - 1, j); }
    if k + 1 < |l| { assert Linked(ns, l, k + 1, j); }
  }

  lemma DropAt(l: seq<int>, k: nat, i: int)
    requires k < |l| && i >= -1
    ensures At(Drop(l, k), i) == At(l, if i < k then i else i + 1)
  {
  }

  lemma UnlinkedAt(ns: seq<Node>, l: seq<int>, k: nat, j: int, m: nat)
    requires Chained(ns, At(l, 0), l, j) && k < |l| && m < |l| && m != k
    ensures 0 <= l[k] < |ns| && -1 <= ns[l[k]].prev < |ns| && -1 <= ns[l[k]].next < |ns|
    ensures Linked(Unlink(ns, l[k]), Drop(l, k), if m < k then m else m - 1, j)
  {
    Neighbours(ns, l, k, j);
    assert Linked(ns, l, m, j) && Linked(ns, l, k, j);
    UnlinkValue(ns, l[k], l[m]);
    assert l[m] == At(l, k + 1) <==> m == k + 1;
    assert l[m] == At(l, k - 1) <==> m == k - 1;
    hide Chained, At, Drop, Unlink;
    var m' := if m < k then m else m - 1;
    DropAt(l, k, m' - 1);
    DropAt(l, k, m' + 1);
  }

  lemma Unlinked(ns: seq<Node>, l: seq<int>, k: nat, j: int)
    requires Chained(ns, At(l, 0), l, j) && k < |l|
    ensures 0 <= l[k] < |ns| && -1 <= ns[l[k]].prev < |ns| && -1 <= ns[l[k]].next < |ns|
    ensures Chained(Unlink(ns, l[k]), At(Drop(l, k), 0), Drop(l, k), j)
  {
    hide Linked, Unlink;
    Neighbours(ns, l, k, j);
    DropKeeps(l, k);
    var d := Drop(l, k);
    forall m | 0 <= m < |d| ensures Linked(Unlink(ns, l[k]), d, m, j) {
      UnlinkedAt(ns, l, k, j, if m < k then m else m + 1);
    }
  }

  /** Unlinking touches the links of one list only, and no slot or round but the entry's own. */
  lemma UnlinkFrame(ns: seq<Node>, l: seq<int>, k: nat, j: int)
    requires Chained(ns, At(l, 0), l, j) && k < |l|
    ensures 0 <= l[k] < |ns| && -1 <= ns[l[k]].prev < |ns| && -1 <= ns[l[k]].next < |ns|
    ensures var r := Unlink(ns, l[k]);
            && r[l[k]] == ns[l[k]].(slot := -1, prev := -1, next := -1)
            && (forall i | 0 <= i < |ns| && i != l[k] :: r[i].slot == ns[i].slot && r[i].round == ns[i].round)
            && (forall i | 0 <= i < |ns| && ns[i].slot != j :: r[i] == ns[i])
  {
    Neighbours(ns, l, k, j);
  }

  /** The writes of an insertion at the head of a list. */
  function Push(ns: seq<Node>, head: int, idx: nat, slot: int, round: nat): (r: seq<Node>)
    requires idx < |ns| && -1 <= head < |ns|
    ensures |r| == |ns|
  {
    var a := ns[idx := Node(slot, round, -1, head)];
    if head >= 0 then a[head := a[head].(prev := idx)] else a
  }

  lemma Pushed(ns: seq<Node>, l: seq<int>, idx: nat, j: int, round: nat)
    requires Chained(ns, At(l, 0), l, j) && idx < |ns| && idx !in l && -1 <= At(l, 0) < |ns|
    ensures Chained(Push(ns, At(l, 0), idx, j, round), idx, [idx] + l, j)
  {
    var l' := [idx] + l;
    var r := Push(ns, At(l, 0), idx, j, round);
    assert Linked(r, l', 0, j);
    forall k | 1 <= k < |l'| ensures Linked(r, l', k, j) {
      assert l'[k] == l[k - 1] && Linked(ns, l, k - 1, j);
      assert k > 1 ==> l[k - 1] != l[0];
    }
  }

  /** w is the end of l: the part of a list a walk has yet to visit. */
  ghost predicate Suffix(w: seq<int>, l: seq<int>) {
    |w| <= |l| && w == l[|l| - |w|..]
  }

  /** Dropping an entry other than a later one of the walk leaves the rest of the walk a suffix. */
  lemma SuffixAfterDrop(w: seq<int>, l: seq<int>, k: nat)
    requires Suffix(w, l) && NoDup(l) && k < |l| && (l[k] in w ==> l[k] == w[0])
    ensures Suffix(if l[k] in w then w[1..] else w, Drop(l, k))
    ensures forall x | x in w && x != l[k] :: x in if l[k] in w then w[1..] else w
  {
    var s := |l| - |w|;
    assert k >= s ==> w[k - s] == l[k];
    if l[k] in w {
      assert w[0] == l[s];
      assert k == s;
    }
  }

  lemma SuffixAfterPush(w: seq<int>, l: seq<int>, x: int)
    requires Suffix(w, l)
    ensures Suffix(w, [x] + l)
  {
    assert ([x] + l)[|l| + 1 - |w|..] == l[|l| - |w|..];
  }

  // ---------- all lists of a wheel ----------

  ghost predicate OnList(ns: seq<Node>, lists: seq<seq<int>>, i: int)
    requires 0 <= i < |ns|
  {
    0 <= ns[i].slot < |lists| && i in lists[ns[i].slot]
  }

  /** Every list is threaded; every entry with a slot is on that slot's list. */
  ghost predicate Threaded(ns: seq<Node>, hs: seq<int>, lists: seq<seq<int>>) {
    && |hs| == |lists|
    && (forall j | 0 <= j < |lists| :: Chained(ns, hs[j], lists[j], j))
    && (forall i | 0 <= i < |ns| && ns[i].slot != -1 :: OnList(ns, lists, i))
  }

  /** A list keeps its threading when none of its entries is written. */
  lemma OtherList(ns: seq<Node>, r: seq<Node>, head: int, l: seq<int>, j: int)
    requires Chained(ns, head, l, j) && |r| == |ns|
    requires forall i | 0 <= i < |ns| && ns[i].slot == j :: r[i] == ns[i]
    ensures Chained(r, head, l, j)
  {
    forall k | 0 <= k < |l| ensures Linked(r, l, k, j) {
      assert Linked(ns, l, k, j);
    }
  }

  lemma HeadAfterDrop(ns: seq<Node>, l: seq<int>, k: nat, j: int)
    requires Chained(ns, At(l, 0), l, j) && k < |l|
    ensures 0 <= l[k] < |ns|
    ensures At(Drop(l, k), 0) == if ns[l[k]].prev >= 0 then At(l, 0) else ns[l[k]].next
  {
    Neighbours(ns, l, k, j);
    assert Linked(ns, l, k, j);
  }

  lemma UnlinkThreaded(ns: seq<Node>, hs: seq<int>, lists: seq<seq<int>>, idx: nat)
    requires Threaded(ns, hs, lists) && idx < |ns| && ns[idx].slot != -1
    ensures OnList(ns, lists, idx) && -1 <= ns[idx].prev < |ns| && -1 <= ns[idx].next < |ns|
    ensures var j := ns[idx].slot;
            var d := Drop(lists[j], FirstIndex(lists[j], idx));
            && hs[j := At(d, 0)] == (if ns[idx].prev >= 0 then hs else hs[j := ns[idx].next])
            && Threaded(Unlink(ns, idx), hs[j := At(d, 0)], lists[j := d])
  {
    hide Unlink, Chained, Drop, FirstIndex, At;
    assert OnList(ns, lists, idx);
    var j := ns[idx].slot;
    var l := lists[j];
    var k := FirstIndex(l, idx);
    var d := Drop(l, k);
    ChainedHead(ns, hs[j], l, j);
    Neighbours(ns, l, k, j);
    var r := Unlink(ns, idx);
    HeadAfterDrop(ns, l, k, j);
    Unlinked(ns, l, k, j);
    UnlinkFrame(ns, l, k, j);
    DropKeeps(l, k);
    forall j' | 0 <= j' < |lists| && j' != j ensures Chained(r, hs[j'], lists[j'], j') {
      OtherList(ns, r, hs[j'], lists[j'], j');
    }
    forall i | 0 <= i < |r| && r[i].slot != -1 ensures OnList(r, lists[j := d], i) {
      assert OnList(ns, lists, i);
    }
  }

  lemma ChainedHead(ns: seq<Node>, head: int, l: seq<int>, j: int)
    requires Chained(ns, head, l, j)
    ensures head == At(l, 0) && NoDup(l) && -1 <= head < |ns|
  {
    assert l != [] ==> Linked(ns, l, 0, j);
  }

  lemma PushFrame(ns: seq<Node>, head: int, idx: nat, slot: int, round: nat)
    requires idx < |ns| && -1 <= head < |ns| && head != idx
    ensures var r := Push(ns, head, idx, slot, round);
            r[idx] == Node(slot, round, -1, head)
            && (forall i | 0 <= i < |ns| && i != idx :: r[i].slot == ns[i].slot && r[i].round == ns[i].round)
            && (forall i | 0 <= i < |ns| && i != idx && i != head :: r[i] == ns[i])
  {
  }

  lemma PushThreaded(ns: seq<Node>, hs: seq<int>, lists: seq<seq<int>>, idx: nat, j: nat, round: nat)
    requires Threaded(ns, hs, lists) && idx < |ns| && ns[idx].slot == -1 && j < |hs|
    ensures |hs| == |lists| && -1 <= hs[j] < |ns| && hs[j] != idx
    ensures Threaded(Push(ns, hs[j], idx, j, round), hs[j := idx], lists[j := [idx] + lists[j]])
  {
    hide Push, Chained;
    var l := lists[j];
    WalkSlots(ns, hs, lists, j, []);
    ChainedHead(ns, hs[j], l, j);
    Pushed(ns, l, idx, j, round);
    var r := Push(ns, hs[j], idx, j, round);
    PushFrame(ns, hs[j], idx, j, round);
    forall j' | 0 <= j' < |lists| && j' != j ensures Chained(r, hs[j'], lists[j'], j') {
      OtherList(ns, r, hs[j'], lists[j'], j');
    }
    forall i | 0 <= i < |r| && r[i].slot != -1 ensures OnList(r, lists[j := [idx] + l], i) {
      assert i != idx ==> OnList(ns, lists, i);
    }
  }

  lemma OnListBounds(ns: seq<Node>, lists: seq<seq<int>>, i: int)
    requires 0 <= i < |ns| && OnList(ns, lists, i)
    ensures 0 <= ns[i].slot < |lists| && i in lists[ns[i].slot]
  {
  }

  lemma OnListBoundsT(ns: seq<Node>, hs: seq<int>, lists: seq<seq<int>>, i: int)
    requires Threaded(ns, hs, lists) && 0 <= i < |ns| && ns[i].slot != -1
    ensures |hs| == |lists| && 0 <= ns[i].slot < |lists| && i in lists[ns[i].slot]
  {
    assert OnList(ns, lists, i);
  }

  /** The entries of a list all carry its slot number. */
  lemma WalkSlots(ns: seq<Node>, hs: seq<int>, lists: seq<seq<int>>, j: nat, w: seq<int>)
    requires Threaded(ns, hs, lists) && j < |hs|
    ensures |hs| == |lists| && NoDup(lists[j])
    ensures forall k | 0 <= k < |lists[j]| :: 0 <= lists[j][k] < |ns| && ns[lists[j][k]].slot == j
    ensures Suffix(w, lists[j]) ==> NoDup(w) && forall x | x in w :: 0 <= x < |ns| && ns[x].slot == j
  {
    var l := lists[j];
    assert Chained(ns, hs[j], l, j);
    forall k | 0 <= k < |l| ensures 0 <= l[k] < |ns| && ns[l[k]].slot == j {
      assert Linked(ns, l, k, j);
    }
  }

  lemma ThreadedSize(ns: seq<Node>, hs: seq<int>, lists: seq<seq<int>>)
    requires Threaded(ns, hs, lists)
    ensures |hs| == |lists|
  {
  }

  lemma NoSlot(ns: seq<Node>, hs: seq<int>, lists: seq<seq<int>>, j: nat, i: nat)
    requires Threaded(ns, hs, lists) && j < |lists| && i < |ns| && ns[i].slot < 0
    ensures ns[i].slot == -1 && i !in lists[j]
  {
    assert ns[i].slot != -1 ==> OnList(ns, lists, i);
    WalkSlots(ns, hs, lists, j, []);
  }

  lemma HeadOf(ns: seq<Node>, hs: seq<int>, lists: seq<seq<int>>, j: nat)
    requires Threaded(ns, hs, lists) && j < |hs|
    ensures |hs| == |lists| && hs[j] == At(lists[j], 0)
  {
    assert Chained(ns, hs[j], lists[j], j);
  }

  lemma CursorStep(c: nat, size: nat)
    requires c < size
    ensures (c + 1) % size == if c + 1 < size then c + 1 else 0
  {
  }

  lemma DistanceStep(c: nat, slot: int, size: nat)
    requires c < size && 0 <= slot < size
    ensures var c' := (c + 1) % size;
            if slot == c' then Distance(c, slot, size) == 1
            else Distance(c', slot, size) == Distance(c, slot, size) - 1 && Distance(c', slot, size) > 0
  {
    CursorStep(c, size);
  }

  lemma RoundsNonNegative(round: nat, size: nat)
    requires size >= 1
    ensures round * size >= 0 && (round * size == 0 <==> round == 0)
  {
  }

  lemma OneRound(round: nat, size: nat)
    requires round > 0
    ensures (round - 1) * size + size == round * size
  {
  }

  lemma SameLinks(ns: seq<Node>, r: seq<Node>, hs: seq<int>, lists: seq<seq<int>>)
    requires Threaded(ns, hs, lists) && |r| == |ns|
    requires forall i | 0 <= i < |ns| :: r[i].slot == ns[i].slot && r[i].prev == ns[i].prev && r[i].next == ns[i].next
    ensures Threaded(r, hs, lists)
  {
    forall j | 0 <= j < |lists| ensures Chained(r, hs[j], lists[j], j) {
      forall k | 0 <= k < |lists[j]| ensures Linked(r, lists[j], k, j) {
        assert Chained(ns, hs[j], lists[j], j) && Linked(ns, lists[j], k, j);
      }
    }
    forall i | 0 <= i < |r| && r[i].slot != -1 ensures OnList(r, lists, i) {
      assert OnList(ns, lists, i);
    }
  }

  lemma ReachedNode(ns: seq<Node>, hs: seq<int>, lists: seq<seq<int>>, j: nat, w: seq<int>)
    requires Threaded(ns, hs, lists) && j < |lists| && Suffix(w, lists[j]) && w != []
    ensures 0 <= w[0] < |ns| && ns[w[0]].next == At(w, 1)
  {
    var l := lists[j];
    var k := |l| - |w|;
    assert Chained(ns, hs[j], l, j) && Linked(ns, l, k, j);
  }

  /** Ticks left for every entry on a list. */
  ghost function CountdownOf(ns: seq<Node>, cursor: nat, size: nat, walk: seq<int>): map<int, int> {
    map i | 0 <= i < |ns| && ns[i].slot != -1 :: Remaining(ns[i], cursor, size, i in walk)
  }

  lemma PushCountdown(ns: seq<Node>, head: int, cursor: nat, size: nat, walk: seq<int>, idx: nat, slot: int, round: nat)
    requires idx < |ns| && -1 <= head < |ns| && head != idx && idx !in walk && slot != -1
    ensures CountdownOf(Push(ns, head, idx, slot, round), cursor, size, walk)
            == CountdownOf(ns, cursor, size, walk)[idx := Remaining(Node(slot, round, -1, -1), cursor, size, false)]
  {
    PushFrame(ns, head, idx, slot, round);
  }

  lemma SameButOne(ns: seq<Node>, r: seq<Node>, cursor: nat, size: nat, w: seq<int>, w': seq<int>, idx: nat)
    requires |r| == |ns| && idx < |ns| && r[idx].slot == -1
    requires forall i | 0 <= i < |ns| && i != idx :: r[i].slot == ns[i].slot && r[i].round == ns[i].round
    requires w' == if idx in w then w[1..] else w
    requires idx in w ==> w[0] == idx && NoDup(w)
    ensures CountdownOf(r, cursor, size, w') == CountdownOf(ns, cursor, size, w) - {idx}
  {
    forall i | i != idx ensures i in w' <==> i in w {
      if i in w && idx in w {
        var k := FirstIndex(w, i);
        assert w'[k - 1] == i;
      }
    }
  }

  /** What is left of a walk when an entry leaves its list: the entry was the next one, or is not on
      the walk. */
  lemma WalkAfterDrop(ns: seq<Node>, hs: seq<int>, lists: seq<seq<int>>, cursor: nat, walk: seq<int>, idx: nat)
    requires Threaded(ns, hs, lists) && cursor < |lists| && Suffix(walk, lists[cursor])
    requires idx < |ns| && ns[idx].slot >= 0 && (idx in walk ==> idx == walk[0])
    ensures var j := ns[idx].slot;
            && j < |lists| && idx in lists[j]
            && Suffix(if idx in walk then walk[1..] else walk, lists[j := Drop(lists[j], FirstIndex(lists[j], idx))][cursor])
    ensures idx in walk ==> NoDup(walk)
  {
    hide Threaded, Drop;
    var l := lists[cursor];
    ThreadedSize(ns, hs, lists);
    WalkSlots(ns, hs, lists, cursor, walk);
    OnListBoundsT(ns, hs, lists, idx);
    if ns[idx].slot == cursor {
      SuffixAfterDrop(walk, l, FirstIndex(l, idx));
    } else {
      assert idx !in walk;
    }
  }

  class TimingWheel {
    const heads: array<int>
    const nodes: array<Node>
    var cursor: nat
    /** Contents of each slot's list, and the part of the current slot a tick has yet to visit. */
    ghost var lists: seq<seq<int>>
    ghost var walk: seq<int>

    ghost predicate Valid()
      reads this, heads, nodes
    {
      && heads.Length >= 1 && cursor < heads.Length && |lists| == heads.Length
      && Threaded(nodes[..], heads[..], lists)
      && Suffix(walk, lists[cursor])
    }

    /** Ticks left for every scheduled entry. */
    ghost function Countdown(): map<int, int>
      reads this, heads, nodes
    {
      CountdownOf(nodes[..], cursor, heads.Length, walk)
    }

    constructor (size: nat, n: nat)
      requires size >= 1
      ensures Valid() && walk == [] && Countdown() == map[] && nodes.Length == n
      ensures fresh(heads) && fresh(nodes)
    {
      heads := new int[size](_ => -1);
      nodes := new Node[n](_ => Node(-1, 0, 0, 0));
      cursor := 0;
      lists := seq(size, _ => []);
      walk := [];
    }

    /** The writes of an unlink. */
    method Detach(idx: nat)
      requires Threaded(nodes[..], heads[..], lists) && idx < nodes.Length && nodes[idx].slot != -1
      modifies this`lists, heads, nodes
      ensures OnList(old(nodes[..]), old(lists), idx)
      ensures var j := old(nodes[idx].slot); var d := Drop(old(lists)[j], FirstIndex(old(lists)[j], idx));
              && lists == old(lists)[j := d]
              && Threaded(nodes[..], heads[..], lists)
              && nodes[idx] == old(nodes[idx]).(slot := -1, prev := -1, next := -1)
              && forall i | 0 <= i < nodes.Length && i != idx ::
                   nodes[i].slot == old(nodes[i].slot) && nodes[i].round == old(nodes[i].round)
    {
      hide Threaded, Drop, FirstIndex, Chained, OnList;
      ghost var was := nodes[..];
      ghost var hs := heads[..];
      UnlinkThreaded(was, hs, lists, idx);
      var e := nodes[idx];
      OnListBounds(was, lists, idx);
      ThreadedSize(was, hs, lists);
      if e.prev >= 0 { nodes[e.prev] := nodes[e.prev].(next := e.next); } else { heads[e.slot] := e.next; }
      if e.next >= 0 { nodes[e.next] := nodes[e.next].(prev := e.prev); }
      nodes[idx] := e.(slot := -1, prev := -1, next := -1);
      assert nodes[..] == Unlink(was, idx);
      assert heads[..] == if e.prev >= 0 then hs else hs[e.slot := e.next];
      lists := lists[e.slot := Drop(lists[e.slot], FirstIndex(lists[e.slot], idx))];
    }

    /** Takes an entry off its list; a no-op for one that is on none. */
    method Unschedule(idx: nat)
      requires Valid() && idx < nodes.Length && (idx in walk ==> idx == walk[0])
      modifies this`lists, this`walk, heads, nodes
      ensures Valid() && nodes[idx].slot == -1
      ensures walk == if idx in old(walk) then old(walk)[1..] else old(walk)
      ensures Countdown() == old(Countdown()) - {idx}
    {
      hide Threaded, CountdownOf, NoDup;
      if nodes[idx].slot < 0 {
        NoSlot(nodes[..], heads[..], lists, cursor, idx);
        SameButOne(nodes[..], nodes[..], cursor, heads.Length, walk, walk, idx);
        return;
      }
      Leave(idx);
    }

    /** An entry on a list leaves it, and the walk if the walk has just reached it. */
    method Leave(idx: nat)
      requires Valid() && idx < nodes.Length && nodes[idx].slot >= 0 && (idx in walk ==> idx == walk[0])
      modifies this`lists, this`walk, heads, nodes
      ensures Valid() && nodes[idx].slot == -1
      ensures walk == if idx in old(walk) then old(walk)[1..] else old(walk)
      ensures Countdown() == old(Countdown()) - {idx}
    {
      hide Threaded, Drop, CountdownOf, NoDup, Suffix, FirstIndex;
      WalkAfterDrop(nodes[..], heads[..], lists, cursor, walk, idx);
      ghost var was, w := nodes[..], walk;
      Detach(idx);
      walk := if idx in walk then walk[1..] else walk;
      SameButOne(was, nodes[..], cursor, heads.Length, w, walk, idx);
    }

    /** Puts an entry the rounded-up number of seconds ahead, at the head of its new list. */
    method Schedule(idx: nat, now: int, expiry: int)
      requires Valid() && idx < nodes.Length && (idx in walk ==> idx == walk[0])
      modifies this`lists, this`walk, heads, nodes
      ensures Valid() && walk == if idx in old(walk) then old(walk)[1..] else old(walk)
      ensures Countdown() == old(Countdown())[idx := Ticks(expiry - now)]
    {
      hide TimingWheel.Valid, TimingWheel.Countdown, SlotFor, RoundFor, Ticks;
      Unschedule(idx);
      Bounds();
      var ticks := Ticks(expiry - now);
      ScheduledRemaining(cursor, ticks, heads.Length);
      Place(idx, SlotFor(cursor, ticks, heads.Length), RoundFor(ticks, heads.Length));
    }

    lemma Bounds()
      requires Valid()
      ensures heads.Length >= 1 && cursor < heads.Length
    {
    }

    /** Links an entry that is on no list in at the head of a slot. */
    method Place(idx: nat, slot: nat, round: nat)
      requires Valid() && idx < nodes.Length && nodes[idx].slot == -1 && slot < heads.Length
      modifies this`lists, heads, nodes
      ensures Valid()
      ensures Countdown() == old(Countdown())[idx := Remaining(Node(slot, round, -1, -1), cursor, heads.Length, false)]
    {
      hide Threaded, Push, CountdownOf;
      WalkSlots(nodes[..], heads[..], lists, cursor, walk);
      PushThreaded(nodes[..], heads[..], lists, idx, slot, round);
      SuffixAfterPush(walk, lists[cursor], idx);
      PushCountdown(nodes[..], heads[slot], cursor, heads.Length, walk, idx, slot, round);
      Attach(idx, slot, round);
    }

    /** The writes of an insertion. */
    method Attach(idx: nat, slot: nat, round: nat)
      requires idx < nodes.Length && slot < heads.Length && -1 <= heads[slot] < nodes.Length && |lists| == heads.Length
      modifies this`lists, heads, nodes
      ensures nodes[..] == Push(old(nodes[..]), old(heads[slot]), idx, slot, round)
      ensures heads[..] == old(heads[..])[slot := idx]
      ensures lists == old(lists)[slot := [idx] + old(lists)[slot]]
    {
      nodes[idx] := Node(slot, round, -1, heads[slot]);
      var next := nodes[idx].next;
      if next >= 0 { nodes[next] := nodes[next].(prev := idx); }
      heads[slot] := idx;
      lists := lists[slot := [idx] + lists[slot]];
    }

    /** One tick: every entry is one tick nearer, and the walk starts at the new slot's head. */
    method Advance() returns (first: int)
      requires Valid() && walk == []
      modifies this`cursor, this`walk
      ensures Valid() && first == At(walk, 0) && NoDup(walk)
      ensures Countdown() == map i | i in old(Countdown()) :: old(Countdown())[i] - 1
      ensures forall i | i in walk :: i in Countdown()
      ensures forall i | i in Countdown() && Countdown()[i] <= 0 :: i in walk
    {
      hide Threaded;
      ghost var c := cursor;
      cursor := (cursor + 1) % heads.Length;
      CursorStep(c, heads.Length);
      first := heads[cursor];
      walk := lists[cursor];
      WalkSlots(nodes[..], heads[..], lists, cursor, walk);
      HeadOf(nodes[..], heads[..], lists, cursor);
      forall i | 0 <= i < nodes.Length && nodes[i].slot != -1
        ensures 0 <= nodes[i].slot < heads.Length && (i in walk <==> nodes[i].slot == cursor)
        ensures Remaining(nodes[i], cursor, heads.Length, i in walk) == Remaining(nodes[i], c, heads.Length, false) - 1
        ensures i !in walk ==> Remaining(nodes[i], cursor, heads.Length, i in walk) > 0
      {
        OnListBoundsT(nodes[..], heads[..], lists, i);
        DistanceStep(c, nodes[i].slot, heads.Length);
        RoundsNonNegative(nodes[i].round, heads.Length);
      }
    }

    /** The entry the walk has reached: its successor, and whether it is due. */
    method Reached(idx: nat) returns (next: int, due: bool)
      requires Valid() && walk != [] && idx == walk[0]
      ensures idx < nodes.Length && next == At(walk, 1) && NoDup(walk)
      ensures idx in Countdown() && Countdown()[idx] >= 0 && (due <==> Countdown()[idx] == 0) && (due <==> nodes[idx].round == 0)
    {
      WalkSlots(nodes[..], heads[..], lists, cursor, walk);
      ReachedNode(nodes[..], heads[..], lists, cursor, walk);
      next := nodes[idx].next;
      due := nodes[idx].round == 0;
      RoundsNonNegative(nodes[idx].round, heads.Length);
    }

    /** Passing over an entry with rounds left: one round fewer, no change in the ticks left. */
    method Skip(idx: nat)
      requires Valid() && walk != [] && idx == walk[0] && idx < nodes.Length && nodes[idx].round > 0
      modifies this`walk, nodes
      ensures Valid() && walk == old(walk)[1..]
      ensures Countdown() == old(Countdown())
    {
      hide Threaded;
      WalkSlots(nodes[..], heads[..], lists, cursor, walk);
      ghost var was := nodes[..];
      nodes[idx] := nodes[idx].(round := nodes[idx].round - 1);
      walk := walk[1..];
      SameLinks(was, nodes[..], heads[..], lists);
      OneRound(was[idx].round, heads.Length);
      assert Suffix(walk, lists[cursor]);
    }
  }
}
