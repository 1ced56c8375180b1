/** The coalescing event queue of a stream: bounded, first in first out by link, keeping for each
    waiting link one event that stands for all views of it since it last left the queue. */
module StreamQueue {
  import opened Model
  import opened FusionTypes

  /** An event view; the contents are the device and link as they are at that moment. */
  datatype View<C> = View(kind: EventKind, changed: set<Field>, link: Option<LinkKey>, contents: C)

  /** An event owned by the queue. */
  datatype Owned<C> = Owned(kind: EventKind, changed: set<Field>, contents: C)

  /** cloneEventInto. */
  function Clone<C>(v: View<C>): Owned<C> { Owned(v.kind, v.changed, v.contents) }

  /** An event overtaken by a later view of the same link. */
  function Coalesce<C>(e: Owned<C>, v: View<C>): Owned<C> {
    Owned(if e.kind.Added? && v.kind.Changed? then Added else v.kind, v.changed + e.changed, v.contents)
  }

  /** What a batch of views comes to. */
  function Coalesced<C>(vs: seq<View<C>>): Owned<C>
    requires vs != []
  {
    if |vs| == 1 then Clone(vs[0]) else Coalesce(Coalesced(vs[..|vs| - 1]), vs[|vs| - 1])
  }

  /** A batch carries the latest contents and every change. */
  lemma {:induction false} CoalescedMeans<C>(vs: seq<View<C>>)
    requires vs != []
    ensures Coalesced(vs).contents == vs[|vs| - 1].contents
    ensures forall f :: f in Coalesced(vs).changed <==> exists i :: 0 <= i < |vs| && f in vs[i].changed
  {
    if |vs| > 1 {
      var n := |vs| - 1;
      CoalescedMeans(vs[..n]);
      forall f ensures f in Coalesced(vs).changed <==> exists i :: 0 <= i < |vs| && f in vs[i].changed {
        if i :| 0 <= i < |vs| && f in vs[i].changed {
          assert i < n ==> f in vs[..n][i].changed;
        }
      }
    }
  }

  /** Position of the last view that is more than a change, -1 if there is none. */
  function LastTurn<C>(vs: seq<View<C>>): (i: int)
    ensures -1 <= i < |vs|
    ensures i >= 0 ==> !vs[i].kind.Changed? && forall j | i < j < |vs| :: vs[j].kind.Changed?
    ensures i < 0 ==> forall j | 0 <= j < |vs| :: vs[j].kind.Changed?
  {
    if vs == [] then -1 else if !vs[|vs| - 1].kind.Changed? then |vs| - 1 else LastTurn(vs[..|vs| - 1])
  }

  /** A consumer that has not seen a link added is told so, however many changes followed; an
      expiry or eviction is reported only if nothing followed it. */
  lemma {:induction false} CoalescedKind<C>(vs: seq<View<C>>)
    requires vs != []
    ensures var i := LastTurn(vs);
            Coalesced(vs).kind ==
            if i < 0 then Changed else if i == |vs| - 1 || vs[i].kind.Added? then vs[i].kind else Changed
  {
    if |vs| > 1 { CoalescedKind(vs[..|vs| - 1]); }
  }

  lemma {:induction false} KeysCounted(l: seq<LinkKey>, s: set<LinkKey>)
    requires NoDup(l) && forall k :: k in l <==> k in s
    ensures |s| == |l|
    decreases |l|
  {
    if l == [] {
      assert s == {};
    } else {
      var rest := l[1..];
      forall k ensures k in rest <==> k in s - {l[0]} {
        if k in s && k != l[0] {
          var i :| 0 <= i < |l| && l[i] == k;
          assert rest[i - 1] == k;
        }
      }
      KeysCounted(rest, s - {l[0]});
    }
  }

  const COMPACT_AT := 1024

  /** The waiting keys are the pending ones, each once, in the order their batches began; each
      pending event is its batch of views. */
  ghost predicate Listed<C>(waiting: seq<LinkKey>, pending: map<LinkKey, Owned<C>>, views: map<LinkKey, seq<View<C>>>, since: map<LinkKey, nat>, now: nat) {
    && Exactly(waiting, pending.Keys)
    && views.Keys == pending.Keys && since.Keys == pending.Keys
    && (forall k | k in pending :: Batch(pending, views, since, now, k))
    && InOrder(waiting, since)
  }

  ghost predicate Batch<C>(pending: map<LinkKey, Owned<C>>, views: map<LinkKey, seq<View<C>>>, since: map<LinkKey, nat>, now: nat, k: LinkKey) {
    && k in pending && k in views && k in since
    && views[k] != [] && pending[k] == Coalesced(views[k]) && since[k] < now
  }

  /** A list of the elements of a set, each once. */
  ghost predicate Exactly(l: seq<LinkKey>, s: set<LinkKey>) { NoDup(l) && forall k :: k in l <==> k in s }

  ghost predicate InOrder(waiting: seq<LinkKey>, since: map<LinkKey, nat>) {
    forall i, j | 0 <= i < j < |waiting| :: Earlier(since, waiting[i], waiting[j])
  }

  ghost predicate Earlier(since: map<LinkKey, nat>, a: LinkKey, b: LinkKey) {
    a in since && b in since && since[a] < since[b]
  }

  lemma ListedSize<C>(waiting: seq<LinkKey>, pending: map<LinkKey, Owned<C>>, views: map<LinkKey, seq<View<C>>>, since: map<LinkKey, nat>, now: nat)
    requires Listed(waiting, pending, views, since, now)
    ensures |pending| == |waiting|
  {
    KeysCounted(waiting, pending.Keys);
    assert |pending.Keys| == |pending|;
  }

  lemma ListedLater<C>(waiting: seq<LinkKey>, pending: map<LinkKey, Owned<C>>, views: map<LinkKey, seq<View<C>>>, since: map<LinkKey, nat>, now: nat)
    requires Listed(waiting, pending, views, since, now)
    ensures Listed(waiting, pending, views, since, now + 1)
  {
    hide Coalesced;
    forall k | k in pending ensures Batch(pending, views, since, now + 1, k) { assert Batch(pending, views, since, now, k); }
  }

  lemma ListedKeys<C>(waiting: seq<LinkKey>, pending: map<LinkKey, Owned<C>>, views: map<LinkKey, seq<View<C>>>, since: map<LinkKey, nat>, now: nat)
    requires Listed(waiting, pending, views, since, now)
    ensures views.Keys == pending.Keys && forall k | k in views :: views[k] != []
  {
    forall k | k in views ensures views[k] != [] { assert Batch(pending, views, since, now, k); }
  }

  /** One more view of a waiting link. */
  lemma ListedAgain<C>(waiting: seq<LinkKey>, pending: map<LinkKey, Owned<C>>, views: map<LinkKey, seq<View<C>>>, since: map<LinkKey, nat>, now: nat, k: LinkKey, v: View<C>)
    requires Listed(waiting, pending, views, since, now) && k in pending && k in views && views[k] != []
    ensures Listed(waiting, pending[k := Coalesce(pending[k], v)], views[k := views[k] + [v]], since, now)
  {
    hide Coalesce, Clone;
    assert (views[k] + [v])[..|views[k]|] == views[k];
    assert Coalesced(views[k] + [v]) == Coalesce(Coalesced(views[k]), v);
    hide Coalesced;
    var p, b := pending[k := Coalesce(pending[k], v)], views[k := views[k] + [v]];
    assert Batch(pending, views, since, now, k);
    forall x | x in p ensures Batch(p, b, since, now, x) { assert Batch(pending, views, since, now, x); }
  }

  /** The first view of a link that is not waiting. */
  lemma ListedNew<C>(waiting: seq<LinkKey>, pending: map<LinkKey, Owned<C>>, views: map<LinkKey, seq<View<C>>>, since: map<LinkKey, nat>, now: nat, k: LinkKey, v: View<C>)
    requires Listed(waiting, pending, views, since, now) && k !in pending
    ensures Listed(waiting + [k], pending[k := Clone(v)], views[k := [v]], since[k := now], now + 1)
  {
    assert Coalesced([v]) == Clone(v);
    hide Coalesced, Clone;
    var w := waiting + [k];
    var p := pending[k := Clone(v)];
    forall x | x in p ensures Batch(p, views[k := [v]], since[k := now], now + 1, x) {
      if x != k { assert Batch(pending, views, since, now, x); }
    }
    assert k !in waiting;
    forall i, j | 0 <= i < j < |w| ensures w[i] != w[j] && Earlier(since[k := now], w[i], w[j]) {
      assert waiting[i] in waiting;
      if j < |waiting| { assert Earlier(since, waiting[i], waiting[j]) && waiting[j] in waiting; }
    }
  }

  /** The first waiting link leaves. */
  lemma ListedPop<C>(waiting: seq<LinkKey>, pending: map<LinkKey, Owned<C>>, views: map<LinkKey, seq<View<C>>>, since: map<LinkKey, nat>, now: nat)
    requires Listed(waiting, pending, views, since, now) && waiting != []
    ensures waiting[0] in pending && waiting[0] in views && views[waiting[0]] != [] && pending[waiting[0]] == Coalesced(views[waiting[0]])
    ensures Listed(waiting[1..], pending - {waiting[0]}, views - {waiting[0]}, since - {waiting[0]}, now)
    ensures |pending - {waiting[0]}| == |pending| - 1
  {
    hide Coalesced, InOrder, Exactly, Batch;
    var k := waiting[0];
    ExactlyRest(waiting, pending.Keys);
    OneFewer(pending, k);
    assert (pending - {k}).Keys == pending.Keys - {k};
    InOrderRest(waiting, since);
    assert Batch(pending, views, since, now, k);
    BatchThere(pending, views, since, now, k);
    forall x | x in pending - {k} ensures Batch(pending - {k}, views - {k}, since - {k}, now, x) {
      assert Batch(pending, views, since, now, x);
      BatchKept(pending, views, since, now, k, x);
    }
  }

  lemma BatchThere<C>(pending: map<LinkKey, Owned<C>>, views: map<LinkKey, seq<View<C>>>, since: map<LinkKey, nat>, now: nat, k: LinkKey)
    requires Batch(pending, views, since, now, k)
    ensures k in pending && k in views && views[k] != [] && pending[k] == Coalesced(views[k])
  {
  }

  lemma BatchKept<C>(pending: map<LinkKey, Owned<C>>, views: map<LinkKey, seq<View<C>>>, since: map<LinkKey, nat>, now: nat, k: LinkKey, x: LinkKey)
    requires Batch(pending, views, since, now, x) && x != k
    ensures Batch(pending - {k}, views - {k}, since - {k}, now, x)
  {
  }

  lemma ExactlyRest(l: seq<LinkKey>, s: set<LinkKey>)
    requires Exactly(l, s) && l != []
    ensures l[0] in s && Exactly(l[1..], s - {l[0]})
  {
    assert l[0] in l;
    Headless(l);
  }

  /** The first waiting key is pending, so a pop never has to look further. */
  lemma FirstPending<C>(waiting: seq<LinkKey>, pending: map<LinkKey, Owned<C>>, views: map<LinkKey, seq<View<C>>>, since: map<LinkKey, nat>, now: nat, n: nat)
    requires Listed(waiting, pending, views, since, now) && n < |waiting| && forall i | 0 <= i < n :: waiting[i] !in pending
    ensures n == 0
  {
    assert waiting[0] in waiting;
  }

  lemma NonePending<C>(waiting: seq<LinkKey>, pending: map<LinkKey, Owned<C>>, views: map<LinkKey, seq<View<C>>>, since: map<LinkKey, nat>, now: nat)
    requires Listed(waiting, pending, views, since, now) && forall i | 0 <= i < |waiting| :: waiting[i] !in pending
    ensures waiting == []
  {
    HeadIn(waiting);
  }

  lemma InOrderRest(waiting: seq<LinkKey>, since: map<LinkKey, nat>)
    requires waiting != [] && InOrder(waiting, since)
    ensures InOrder(waiting[1..], since - {waiting[0]})
  {
    forall i, j | 0 <= i < j < |waiting[1..]| ensures Earlier(since - {waiting[0]}, waiting[1..][i], waiting[1..][j]) {
      assert Earlier(since, waiting[0], waiting[i + 1]) && Earlier(since, waiting[0], waiting[j + 1]);
      StillEarlier(since, waiting[0], waiting[i + 1], waiting[j + 1]);
    }
  }

  lemma OneFewer<V>(m: map<LinkKey, V>, k: LinkKey)
    requires k in m
    ensures |m - {k}| == |m| - 1
  {
    assert (m - {k}).Keys == m.Keys - {k};
    assert |m.Keys| == |m| && |(m - {k}).Keys| == |m - {k}|;
  }

  lemma StillEarlier(since: map<LinkKey, nat>, k: LinkKey, a: LinkKey, b: LinkKey)
    requires Earlier(since, a, b) && a != k && b != k
    ensures Earlier(since - {k}, a, b)
  {
  }

  class OwnedStreamQueue<C> {
    const max: nat
    var pending: map<LinkKey, Owned<C>>
    var order: seq<LinkKey>
    var head: nat
    var notified: bool
    var closed: bool
    var dropped: nat
    /** Views behind each pending event, when the first of them came, and counts of views and events. */
    ghost var views: map<LinkKey, seq<View<C>>>
    ghost var since: map<LinkKey, nat>
    ghost var enqueued: nat
    ghost var coalesced: nat
    ghost var popped: nat

    /** Keys still to be popped, in order. */
    ghost function Waiting(): seq<LinkKey>
      reads this
    {
      if head <= |order| then order[head..] else []
    }

    ghost predicate Valid()
      reads this
    {
      && head <= |order| && (head <= COMPACT_AT || head * 2 < |order|)
      && Listed(Waiting(), pending, views, since, enqueued) && |pending| <= max
      && enqueued == coalesced + dropped + popped + |pending|
    }

    constructor (max: nat)
      ensures Valid() && this.max == max && !closed && Waiting() == [] && pending == map[]
      ensures enqueued == coalesced == dropped == popped == 0
    {
      this.max := max;
      pending, order, head, notified, closed, dropped := map[], [], 0, false, false, 0;
      views, since, enqueued, coalesced, popped := map[], map[], 0, 0, 0;
    }

    /** However many events pass through, the key list stays bounded. */
    lemma OrderBounded()
      requires Valid()
      ensures |order| <= (if max > COMPACT_AT then max else COMPACT_AT) + max
    {
      ListedSize(Waiting(), pending, views, since, enqueued);
    }

    /** A pending event overwritten by a later view, keeping an unseen addition and every change. */
    static method Overtake(existing: Owned<C>, view: View<C>) returns (e: Owned<C>)
      ensures e == Coalesce(existing, view)
    {
      var oldKind, oldChanged := existing.kind, existing.changed;
      e := Clone(view);
      if oldKind.Added? && view.kind.Changed? { e := e.(kind := Added); }
      e := e.(changed := e.changed + oldChanged);
    }

    method Enqueue(view: View<C>)
      requires Valid()
      modifies this
      ensures Valid() && closed == old(closed)
      ensures view.link.None? || closed ==>
                pending == old(pending) && Waiting() == old(Waiting()) && views == old(views) && enqueued == old(enqueued) && dropped == old(dropped)
      ensures view.link.Some? && !closed ==> enqueued == old(enqueued) + 1 && popped == old(popped)
      ensures view.link.Some? && !closed && view.link.value in old(pending) ==>
                Waiting() == old(Waiting()) && dropped == old(dropped)
                && views == old(views)[view.link.value := old(views)[view.link.value] + [view]]
      ensures view.link.Some? && !closed && view.link.value !in old(pending) && |old(pending)| >= max ==>
                Waiting() == old(Waiting()) && views == old(views) && pending == old(pending) && dropped == old(dropped) + 1
      ensures view.link.Some? && !closed && view.link.value !in old(pending) && |old(pending)| < max ==>
                Waiting() == old(Waiting()) + [view.link.value] && dropped == old(dropped) && notified
                && views == old(views)[view.link.value := [view]]
    {
      hide Listed, Coalesced, Coalesce, Clone;
      if view.link.None? { return; }
      var key := view.link.value;
      if closed { return; }
      ghost var waiting := Waiting();
      ListedKeys(waiting, pending, views, since, enqueued);
      if key in pending {
        Again(key, view);
      } else if |pending| >= max {
        dropped := dropped + 1;
        ListedLater(waiting, pending, views, since, enqueued);
        enqueued := enqueued + 1;
      } else {
        First(key, view);
      }
    }

    /** A view of a link that is waiting already. */
    method Again(key: LinkKey, view: View<C>)
      requires Valid() && key in pending && key in views && views[key] != []
      modifies this
      ensures Valid() && closed == old(closed) && Waiting() == old(Waiting()) && dropped == old(dropped) && popped == old(popped)
      ensures enqueued == old(enqueued) + 1 && views == old(views)[key := old(views)[key] + [view]]
    {
      hide Listed, Coalesced, Coalesce, Clone;
      ListedAgain(Waiting(), pending, views, since, enqueued, key, view);
      var e := Overtake(pending[key], view);
      pending := pending[key := e];
      views := views[key := views[key] + [view]];
      ListedLater(Waiting(), pending, views, since, enqueued);
      enqueued, coalesced := enqueued + 1, coalesced + 1;
    }

    /** The first view of a link since it last left, while there is room. */
    method First(key: LinkKey, view: View<C>)
      requires Valid() && key !in pending && |pending| < max
      modifies this
      ensures Valid() && closed == old(closed) && Waiting() == old(Waiting()) + [key] && dropped == old(dropped) && popped == old(popped) && notified
      ensures enqueued == old(enqueued) + 1 && views == old(views)[key := [view]]
    {
      hide Listed, Coalesced, Coalesce, Clone;
      ghost var waiting := Waiting();
      ListedNew(waiting, pending, views, since, enqueued, key, view);
      pending := pending[key := Clone(view)];
      order := order + [key];
      views, since := views[key := [view]], since[key := enqueued];
      enqueued := enqueued + 1;
      assert Waiting() == waiting + [key];
      notified := true;
    }

    /** The oldest waiting link leaves with everything that was said of it. */
    method Pop() returns (event: Option<Owned<C>>)
      requires Valid()
      modifies this
      ensures Valid() && closed == old(closed) && dropped == old(dropped) && enqueued == old(enqueued)
      ensures event.None? <==> old(Waiting()) == []
      ensures event.None? ==> Waiting() == [] && views == old(views) && popped == old(popped)
      ensures event.Some? ==>
                && old(Waiting())[0] in old(views) && old(views)[old(Waiting())[0]] != []
                && event.value == Coalesced(old(views)[old(Waiting())[0]])
                && Waiting() == old(Waiting())[1..] && views == old(views) - {old(Waiting())[0]} && popped == old(popped) + 1
    {
      hide Listed, Coalesced;
      ghost var waiting := Waiting();
      while head < |order|
        invariant old(head) <= head <= |order|
        invariant forall i | old(head) <= i < head :: order[i] !in pending
        invariant pending == old(pending) && order == old(order) && views == old(views) && since == old(since)
        invariant popped == old(popped) && coalesced == old(coalesced) && closed == old(closed) && dropped == old(dropped) && enqueued == old(enqueued)
      {
        if order[head] in pending {
          assert waiting == order[old(head)..] && waiting[head - old(head)] == order[head];
          FirstPending(waiting, pending, views, since, enqueued, head - old(head));
          var e := TakeFirst();
          return Some(e);
        }
        head := head + 1;
      }
      NonePending(waiting, pending, views, since, enqueued);
      assert Waiting() == [];
      Compact();
      event := None;
    }

    /** The event of the first key leaves the queue. */
    method TakeFirst() returns (event: Owned<C>)
      requires Valid() && Waiting() != []
      modifies this
      ensures Valid() && closed == old(closed) && dropped == old(dropped) && enqueued == old(enqueued)
      ensures old(Waiting())[0] in old(views) && old(views)[old(Waiting())[0]] != []
      ensures event == Coalesced(old(views)[old(Waiting())[0]])
      ensures Waiting() == old(Waiting())[1..] && views == old(views) - {old(Waiting())[0]} && popped == old(popped) + 1
    {
      hide Listed, Coalesced;
      ghost var waiting := Waiting();
      ListedPop(waiting, pending, views, since, enqueued);
      var key := order[head];
      head := head + 1;
      event := pending[key];
      pending := pending - {key};
      views, since, popped := views - {key}, since - {key}, popped + 1;
      assert Waiting() == waiting[1..];
      Compact();
    }

    /** Keys already popped are dropped once they are many and at least half of the list. */
    method Compact()
      requires head <= |order|
      modifies this`order, this`head
      ensures head <= |order| && Waiting() == old(Waiting()) && (head <= COMPACT_AT || head * 2 < |order|)
    {
      if head > COMPACT_AT && head * 2 >= |order| {
        order := order[head..];
        head := 0;
      }
    }

    method Close()
      requires Valid()
      modifies this`closed
      ensures Valid() && closed && Waiting() == old(Waiting())
    {
      hide Listed;
      if !closed { closed := true; }
    }
  }
}
