/** What becomes of every captured packet: dropped, malformed, ignored or fused, and for which reason it is dropped. */
module Accounting {
  import opened Model
  import opened Pipeline

  // ---------- counts ----------

  predicate Captures(step: Step, p: Protocol) { step.Capture? && step.protocol == p }

  /** How many packets of a protocol the first n steps handed to the engine. */
  ghost function Captured(steps: seq<Step>, n: nat, p: Protocol): nat
    requires n <= |steps|
  {
    if n == 0 then 0 else Captured(steps, n - 1, p) + if Captures(steps[n - 1], p) then 1 else 0
  }

  predicate Carries(b: Backend, p: Protocol) { (b.Filling? || b.Offering?) && b.protocol == p }

  /** How many packets of a protocol the backends hold. */
  ghost function InHand(bs: seq<Backend>, p: Protocol): nat {
    if bs == [] then 0 else InHand(bs[..|bs| - 1], p) + if Carries(bs[|bs| - 1], p) then 1 else 0
  }

  lemma {:induction false} OneBackend(bs: seq<Backend>, b: nat, v: Backend, p: Protocol)
    requires b < |bs|
    ensures InHand(bs[b := v], p) == InHand(bs, p) - (if Carries(bs[b], p) then 1 else 0) + if Carries(v, p) then 1 else 0
    decreases |bs|
  {
    hide Carries;
    var n := |bs| - 1;
    if b < n {
      OneBackend(bs[..n], b, v, p);
      assert bs[b := v][..n] == bs[..n][b := v];
    } else {
      assert bs[b := v][..n] == bs[..n];
    }
  }

  lemma {:induction false} NoneInHand(bs: seq<Backend>, p: Protocol)
    requires forall b | 0 <= b < |bs| :: !Carries(bs[b], p)
    ensures InHand(bs, p) == 0
    decreases |bs|
  {
    if bs != [] { NoneInHand(bs[..|bs| - 1], p); }
  }

  // ---------- one step ----------

  /** A slot of the pool is free. */
  ghost predicate SlotFree<M>(c: Config<M>, s: State<M>) { exists x: nat :: x < Slots(c) && x in s.place && s.place[x] == Pooled }

  /** The packet a step has the router turn away: one too long, one that finds every slot taken, or one that finds
      its protocol's queue full. */
  ghost predicate TurnsAway<M>(c: Config<M>, s: State<M>, step: Step, p: Protocol) {
    match step
    case Capture(_, q, packet) => q == p && (|packet.payload| > c.maxFrame || !SlotFree(c, s))
    case Offer(b) => b < |s.backends| && Carries(s.backends[b], p) && |s.queues.Get(p)| == c.protocolQueue
    case _ => false
  }

  /** The packet a step has the router queue. */
  ghost predicate Queues<M>(c: Config<M>, s: State<M>, step: Step, p: Protocol, packet: Packet) {
    && step.Offer? && step.b < |s.backends| && s.backends[step.b].Offering? && Carries(s.backends[step.b], p)
    && |s.queues.Get(p)| < c.protocolQueue && packet == s.backends[step.b].packet
  }

  lemma FreeSlot<M>(c: Config<M>, s: State<M>)
    requires Placed(c, s)
    ensures s.free != [] <==> SlotFree(c, s)
  {
    hide Per.Get;
    if s.free != [] { assert Holds(s, Pooled, s.free[0]); }
    if x: nat :| x < Slots(c) && x in s.place && s.place[x] == Pooled { assert Holds(s, Pooled, x); }
  }

  lemma CaptureDrops<M>(c: Config<M>, s: State<M>, step: Step, p: Protocol)
    requires Enabled(c, s, step) && step.Capture? && (s.free != [] <==> SlotFree(c, s))
    ensures var t := Do(c, s, step);
            t.dropped.Get(p) == s.dropped.Get(p) + (if TurnsAway(c, s, step, p) then 1 else 0) && t.routed == s.routed
  {
    hide SlotFree, Per.Get;
  }

  lemma OfferDrops<M>(c: Config<M>, s: State<M>, step: Step, p: Protocol)
    requires Enabled(c, s, step) && step.Offer? && |s.queues.Get(p)| <= c.protocolQueue
    ensures var t := Do(c, s, step);
            && t.dropped.Get(p) == s.dropped.Get(p) + (if TurnsAway(c, s, step, p) then 1 else 0)
            && t.routed.Get(p) == s.routed.Get(p) + if Queues(c, s, step, p, s.backends[step.b].packet) then [s.backends[step.b].packet] else []
  {
    hide Per.Get;
  }

  lemma ElsewhereDrops<M>(c: Config<M>, s: State<M>, step: Step, p: Protocol)
    requires Enabled(c, s, step) && !step.Capture? && !step.Offer?
    ensures var t := Do(c, s, step); t.dropped == s.dropped && t.routed == s.routed && !TurnsAway(c, s, step, p)
  {
    hide Per.Get;
  }

  /** A packet is dropped exactly for these reasons, and counted once; one that finds room is queued, last and as
      captured. */
  lemma StepDrops<M>(c: Config<M>, s: State<M>, step: Step, p: Protocol)
    requires Inv(c, s) && Enabled(c, s, step)
    ensures var t := Do(c, s, step);
            && t.dropped.Get(p) == s.dropped.Get(p) + (if TurnsAway(c, s, step, p) then 1 else 0)
            && (forall packet | Queues(c, s, step, p, packet) :: t.routed.Get(p) == s.routed.Get(p) + [packet])
            && ((forall packet :: !Queues(c, s, step, p, packet)) ==> t.routed.Get(p) == s.routed.Get(p))
  {
    hide Inv, Enabled, Do, TurnsAway, SlotFree, Placed, Per.Get;
    Pooling(c, s);
    FreeSlot(c, s);
    if step.Capture? { CaptureDrops(c, s, step, p); } else if step.Offer? { OfferDrops(c, s, step, p); } else { ElsewhereDrops(c, s, step, p); }
  }

  lemma Pooling<M>(c: Config<M>, s: State<M>)
    requires Inv(c, s)
    ensures Placed(c, s) && forall p: Protocol :: |s.queues.Get(p)| <= c.protocolQueue
  {
    hide Carried, Shaken, Ordered, Offered, Placed, Per.Get;
  }

  // ---------- runs ----------

  /** Every packet captured so far is dropped, queued, or in a backend's hands. */
  ghost predicate Accounted<M>(s: State<M>, steps: seq<Step>, n: nat, p: Protocol)
    requires n <= |steps|
  {
    Captured(steps, n, p) == Account(s, p)
  }

  ghost function Account<M>(s: State<M>, p: Protocol): nat { s.dropped.Get(p) + |s.routed.Get(p)| + InHand(s.backends, p) }

  lemma CaptureAccounted<M>(c: Config<M>, s: State<M>, step: Step, p: Protocol)
    requires Enabled(c, s, step) && step.Capture?
    ensures Account(Do(c, s, step), p) == Account(s, p) + if Captures(step, p) then 1 else 0
  {
    hide InHand, Per.Get;
    OneBackend(s.backends, step.b, Do(c, s, step).backends[step.b], p);
  }

  lemma OfferAccounted<M>(c: Config<M>, s: State<M>, step: Step, p: Protocol)
    requires Enabled(c, s, step) && step.Offer?
    ensures Account(Do(c, s, step), p) == Account(s, p)
  {
    hide InHand, Per.Get;
    OneBackend(s.backends, step.b, Do(c, s, step).backends[step.b], p);
  }

  lemma HandAccounted<M>(c: Config<M>, s: State<M>, step: Step, p: Protocol)
    requires Enabled(c, s, step) && (step.Fill? || step.GiveBack? || step.Stop?)
    ensures Account(Do(c, s, step), p) == Account(s, p)
  {
    hide InHand, Per.Get;
    OneBackend(s.backends, step.b, Do(c, s, step).backends[step.b], p);
  }

  lemma ElsewhereAccounted<M>(c: Config<M>, s: State<M>, step: Step, p: Protocol)
    requires Enabled(c, s, step) && !(step.Capture? || step.Offer? || step.Fill? || step.GiveBack? || step.Stop?)
    ensures Account(Do(c, s, step), p) == Account(s, p)
  {
    hide InHand, Per.Get;
  }

  /** A packet captured is one more to account for; no other step adds or loses one. */
  lemma StepAccounted<M>(c: Config<M>, s: State<M>, step: Step, p: Protocol)
    requires Enabled(c, s, step)
    ensures Account(Do(c, s, step), p) == Account(s, p) + if Captures(step, p) then 1 else 0
  {
    hide Account, Enabled, Do, Captures;
    match step {
      case Capture(_, _, _) => CaptureAccounted(c, s, step, p);
      case Offer(_) => OfferAccounted(c, s, step, p);
      case Fill(_) => HandAccounted(c, s, step, p);
      case GiveBack(_) => HandAccounted(c, s, step, p);
      case Stop(_) => HandAccounted(c, s, step, p);
      case _ => ElsewhereAccounted(c, s, step, p);
    }
    NotCaptured(step, p);
  }

  lemma NotCaptured(step: Step, p: Protocol)
    ensures Captures(step, p) ==> step.Capture?
  {
  }

  lemma {:induction false} RunAccounted<M>(c: Config<M>, n: nat, states: seq<State<M>>, steps: seq<Step>, i: nat, p: Protocol)
    requires Run(c, n, states, steps) && i <= |steps|
    ensures Accounted(states[i], steps, i, p)
  {
    hide Enabled, Do, InHand, Captures, Start, Per.Get;
    if i == 0 {
      StartAccounted(c, n, p);
    } else {
      RunAccounted(c, n, states, steps, i - 1, p);
      assert Follows(c, states[i - 1], steps[i - 1], states[i]);
      StepAccounted(c, states[i - 1], steps[i - 1], p);
    }
  }

  lemma StartAccounted<M>(c: Config<M>, n: nat, p: Protocol)
    ensures var s := Start(c, n); s.dropped.Get(p) == 0 && s.routed.Get(p) == [] && InHand(s.backends, p) == 0
  {
    NoneInHand(Start(c, n).backends, p);
  }

  /** How many packets were turned away in the first n steps. */
  ghost function TurnedAway<M>(c: Config<M>, states: seq<State<M>>, steps: seq<Step>, n: nat, p: Protocol): nat
    requires n <= |steps| <= |states|
  {
    if n == 0 then 0 else TurnedAway(c, states, steps, n - 1, p) + if TurnsAway(c, states[n - 1], steps[n - 1], p) then 1 else 0
  }

  lemma {:induction false} RunDrops<M>(c: Config<M>, n: nat, states: seq<State<M>>, steps: seq<Step>, i: nat, p: Protocol)
    requires Run(c, n, states, steps) && i <= |steps|
    ensures states[i].dropped.Get(p) == TurnedAway(c, states, steps, i, p)
  {
    hide Enabled, Do, Inv, TurnsAway, Start, Per.Get;
    if i == 0 {
      StartAccounted(c, n, p);
    } else {
      RunDrops(c, n, states, steps, i - 1, p);
      RunInv(c, n, states, steps, i - 1);
      assert Follows(c, states[i - 1], steps[i - 1], states[i]);
      StepDrops(c, states[i - 1], steps[i - 1], p);
    }
  }

  /** When Run has returned, in any interleaving, every packet handed to the engine was turned away for one of the
      three reasons, found malformed, ignored, or fused. */
  lemma AllAccounted<M>(c: Config<M>, n: nat, states: seq<State<M>>, steps: seq<Step>, p: Protocol)
    requires Run(c, n, states, steps) && states[|steps|].main.Returned?
    ensures var s := states[|steps|];
            Captured(steps, |steps|, p) == TurnedAway(c, states, steps, |steps|, p) + s.malformed.Get(p) + s.ignored.Get(p) + |s.fused.Get(p)|
  {
    hide Inv, Captured, TurnedAway, Kept, Per.Get, NoDup;
    var s := states[|steps|];
    RunInv(c, n, states, steps, |steps|);
    RunAccounted(c, n, states, steps, |steps|, p);
    RunDrops(c, n, states, steps, |steps|, p);
    NothingLost(c, n, states, steps, p);
    AllStopped(c, s);
    NoneInHand(s.backends, p);
  }

  lemma AllStopped<M>(c: Config<M>, s: State<M>)
    requires Inv(c, s) && s.main.Returned?
    ensures forall b | 0 <= b < |s.backends| :: s.backends[b].Stopped?
  {
    hide Carried, Shaken, Placed, Offered, Per.Get;
  }
}
