/** The engine's pipeline as steps over bounded channels: capture backends, a pool of packet slots,
    one decode worker a protocol, the fusion loop with its acknowledgements, and shutdown. */
module Pipeline {
  import opened Model

  /** One value a protocol. */
  datatype Per<T> = Per(lldp: T, cdp: T, mndp: T, mdns: T) {
    function Get(p: Protocol): T {
      match p
      case LLDP => lldp
      case CDP => cdp
      case MNDP => mndp
      case MDNS => mdns
    }

    function Set(p: Protocol, v: T): (r: Per<T>)
      ensures forall q :: r.Get(q) == if q == p then v else Get(q)
    {
      match p
      case LLDP => this.(lldp := v)
      case CDP => this.(cdp := v)
      case MNDP => this.(mndp := v)
      case MDNS => this.(mdns := v)
    }
  }

  function Each<T>(v: T): (r: Per<T>)
    ensures forall p :: r.Get(p) == v
  {
    Per(v, v, v, v)
  }

  /** A captured payload with its metadata. */
  datatype Packet = Packet(payload: seq<Byte>, meta: nat)

  /** What a decoder makes of a packet; the message is what fusion is given. */
  datatype Verdict<M> = Fatal | Ignored | Usable(message: M)

  datatype Config<!M> = Config(enabled: ProtocolSet, protocolQueue: nat, maxFrame: nat, decode: (Protocol, Packet) -> Verdict<M>)

  const DECODED_CAPACITY := 8

  /** Packet slots made by New, which is the capacity of the free channel as well. */
  function Slots<M>(c: Config<M>): nat { c.protocolQueue * |c.enabled| + |c.enabled| }

  // ---------- where each goroutine stands ----------

  datatype Backend =
    | Capturing
    | Filling(slot: nat, protocol: Protocol, packet: Packet)
    | Offering(slot: nat, protocol: Protocol, packet: Packet)
    | Returning(slot: nat)
    | Stopped

  datatype Worker =
    | Waiting
    | Decoding(slot: nat)
    | Sending(slot: nat)
    | Awaiting(slot: nat)
    | Releasing(slot: nat)
    | Exited

  datatype FusionLoop = Selecting | Fusing(of: Protocol) | Acking(to: Protocol) | Ended

  /** Run's own progress. */
  datatype Main = Running | Cancelled | Closing | Draining | Joining | Returned

  /** The one place a slot is in. */
  datatype Place = Pooled | Queued(protocol: Protocol) | AtBackend(index: nat) | AtWorker(protocol: Protocol)

  /** queues and decoded are channels; buffer holds each worker's message, which an envelope points
      into. place, routed, taken and fused are history: where every slot is, the packets a queue has
      accepted, how many a worker has received, and the messages fusion has read. */
  datatype State<M> = State(
    free: seq<nat>, queues: Per<seq<nat>>, closed: ProtocolSet, decoded: seq<Protocol>, decodedClosed: bool, acks: Per<nat>,
    backends: seq<Backend>, workers: Per<Worker>, fusion: FusionLoop, main: Main,
    data: map<nat, Packet>, buffer: Per<Option<M>>,
    dropped: Per<nat>, malformed: Per<nat>, ignored: Per<nat>,
    place: map<nat, Place>, routed: Per<seq<Packet>>, taken: Per<nat>, fused: Per<seq<Option<M>>>)

  function Numbers(n: nat): (r: seq<nat>)
    ensures |r| == n && forall i | 0 <= i < n :: r[i] == i
  {
    seq(n, i requires i >= 0 => i)
  }

  /** After New, with n backends opened and the workers and the fusion loop started. */
  function Start<M>(c: Config<M>, n: nat): State<M> {
    State(Numbers(Slots(c)), Each([]), {}, [], false, Each(0),
      seq(n, _ => Capturing), Per(StartWorker(c, LLDP), StartWorker(c, CDP), StartWorker(c, MNDP), StartWorker(c, MDNS)), Selecting, Running,
      map[], Each(None), Each(0), Each(0), Each(0),
      map i: nat | i in Numbers(Slots(c)) :: Pooled, Each([]), Each(0), Each([]))
  }

  function StartWorker<M>(c: Config<M>, p: Protocol): Worker { if p in c.enabled then Waiting else Exited }

  // ---------- steps ----------

  datatype Step =
    | Capture(b: nat, protocol: Protocol, packet: Packet)
    | Fill(b: nat)
    | Offer(b: nat)
    | GiveBack(b: nat)
    | Stop(b: nat)
    | Receive(p: Protocol)
    | Decode(p: Protocol)
    | Send(p: Protocol)
    | TakeAck(p: Protocol)
    | Release(p: Protocol)
    | Exit(p: Protocol)
    | Take
    | Observe
    | Ack
    | Tick
    | End
    | Cancel
    | BackendsJoined
    | CloseQueue(p: Protocol)
    | QueuesClosed
    | WorkersJoined
    | Return

  /** A step that can be taken; a send on a full channel and a receive from an empty one cannot. */
  ghost predicate Enabled<M>(c: Config<M>, s: State<M>, step: Step) {
    match step
    case Capture(b, p, _) => b < |s.backends| && s.backends[b].Capturing? && p in c.enabled
    case Fill(b) => b < |s.backends| && s.backends[b].Filling?
    case Offer(b) => b < |s.backends| && s.backends[b].Offering?
    case GiveBack(b) => b < |s.backends| && s.backends[b].Returning? && |s.free| < Slots(c)
    case Stop(b) => b < |s.backends| && s.backends[b].Capturing?
    case Receive(p) => s.workers.Get(p).Waiting? && s.queues.Get(p) != []
    case Decode(p) => s.workers.Get(p).Decoding? && s.workers.Get(p).slot in s.data
    case Send(p) => s.workers.Get(p).Sending? && |s.decoded| < DECODED_CAPACITY
    case TakeAck(p) => s.workers.Get(p).Awaiting? && s.acks.Get(p) > 0
    case Release(p) => s.workers.Get(p).Releasing? && |s.free| < Slots(c)
    case Exit(p) => s.workers.Get(p).Waiting? && s.queues.Get(p) == [] && p in s.closed
    case Take => s.fusion.Selecting? && s.decoded != []
    case Observe => s.fusion.Fusing?
    case Ack => s.fusion.Acking? && s.acks.Get(s.fusion.to) < 1
    case Tick => s.fusion.Selecting?
    case End => s.fusion.Selecting? && s.decoded == [] && s.decodedClosed
    case Cancel => s.main.Running?
    case BackendsJoined => s.main.Cancelled? && forall b | 0 <= b < |s.backends| :: s.backends[b].Stopped?
    case CloseQueue(p) => s.main.Closing? && p in c.enabled && p !in s.closed
    case QueuesClosed => s.main.Closing? && c.enabled <= s.closed
    case WorkersJoined => s.main.Draining? && forall p :: s.workers.Get(p).Exited?
    case Return => s.main.Joining? && s.fusion.Ended?
  }

  function Bump(counts: Per<nat>, p: Protocol): Per<nat> { counts.Set(p, counts.Get(p) + 1) }

  ghost function Do<M>(c: Config<M>, s: State<M>, step: Step): State<M>
    requires Enabled(c, s, step)
  {
    match step
    case Capture(b, p, packet) =>
      if |packet.payload| > c.maxFrame || s.free == [] then s.(dropped := Bump(s.dropped, p))
      else s.(free := s.free[1..], backends := s.backends[b := Filling(s.free[0], p, packet)], place := s.place[s.free[0] := AtBackend(b)])
    case Fill(b) =>
      var at := s.backends[b];
      s.(data := s.data[at.slot := at.packet], backends := s.backends[b := Offering(at.slot, at.protocol, at.packet)])
    case Offer(b) =>
      var at := s.backends[b];
      var p := at.protocol;
      if |s.queues.Get(p)| < c.protocolQueue then
        s.(queues := s.queues.Set(p, s.queues.Get(p) + [at.slot]), routed := s.routed.Set(p, s.routed.Get(p) + [at.packet]),
           backends := s.backends[b := Capturing], place := s.place[at.slot := Queued(p)])
      else s.(dropped := Bump(s.dropped, p), backends := s.backends[b := Returning(at.slot)])
    case GiveBack(b) =>
      var x := s.backends[b].slot;
      s.(free := s.free + [x], backends := s.backends[b := Capturing], place := s.place[x := Pooled])
    case Stop(b) => s.(backends := s.backends[b := Stopped])
    case Receive(p) =>
      var x := s.queues.Get(p)[0];
      s.(queues := s.queues.Set(p, s.queues.Get(p)[1..]), workers := s.workers.Set(p, Decoding(x)),
         place := s.place[x := AtWorker(p)], taken := Bump(s.taken, p))
    case Decode(p) =>
      var x := s.workers.Get(p).slot;
      (match c.decode(p, s.data[x])
       case Fatal => s.(buffer := s.buffer.Set(p, None), malformed := Bump(s.malformed, p), workers := s.workers.Set(p, Releasing(x)))
       case Ignored => s.(buffer := s.buffer.Set(p, None), ignored := Bump(s.ignored, p), workers := s.workers.Set(p, Releasing(x)))
       case Usable(m) => s.(buffer := s.buffer.Set(p, Some(m)), workers := s.workers.Set(p, Sending(x))))
    case Send(p) => s.(decoded := s.decoded + [p], workers := s.workers.Set(p, Awaiting(s.workers.Get(p).slot)))
    case TakeAck(p) => s.(acks := s.acks.Set(p, s.acks.Get(p) - 1), workers := s.workers.Set(p, Releasing(s.workers.Get(p).slot)))
    case Release(p) =>
      var x := s.workers.Get(p).slot;
      s.(free := s.free + [x], workers := s.workers.Set(p, Waiting), place := s.place[x := Pooled])
    case Exit(p) => s.(workers := s.workers.Set(p, Exited))
    case Take => s.(decoded := s.decoded[1..], fusion := Fusing(s.decoded[0]))
    case Observe =>
      var p := s.fusion.of;
      s.(fused := s.fused.Set(p, s.fused.Get(p) + [s.buffer.Get(p)]), fusion := Acking(p))
    case Ack => s.(acks := Bump(s.acks, s.fusion.to), fusion := Selecting)
    case Tick => s
    case End => s.(fusion := Ended)
    case Cancel => s.(main := Cancelled)
    case BackendsJoined => s.(main := Closing)
    case CloseQueue(p) => s.(closed := s.closed + {p})
    case QueuesClosed => s.(main := Draining)
    case WorkersJoined => s.(main := Joining, decodedClosed := true)
    case Return => s.(main := Returned)
  }

  // ---------- the invariant ----------

  predicate WorkerHolds(w: Worker, x: nat) { !w.Waiting? && !w.Exited? && w.slot == x }

  predicate BackendHolds(b: Backend, x: nat) { !b.Capturing? && !b.Stopped? && b.slot == x }

  predicate Holds<M>(s: State<M>, at: Place, x: nat) {
    match at
    case Pooled => x in s.free
    case Queued(p) => x in s.queues.Get(p)
    case AtBackend(b) => 0 <= b < |s.backends| && BackendHolds(s.backends[b], x)
    case AtWorker(p) => WorkerHolds(s.workers.Get(p), x)
  }

  /** Every slot is in exactly one of: the pool, a queue, a backend's hands, a worker's hands. */
  ghost predicate Placed<M>(c: Config<M>, s: State<M>) {
    && (forall x: nat :: x in s.place <==> x < Slots(c))
    && (forall at: Place, x: nat :: Holds(s, at, x) <==> x in s.place && s.place[x] == at)
    && NoDup(s.free) && forall p: Protocol :: NoDup(s.queues.Get(p))
  }

  /** An unacknowledged envelope is in exactly one of: the decoded channel, the fusion loop's hands,
      the worker's ack channel; and only of a worker that awaits it. */
  ghost predicate Shaken<M>(s: State<M>, p: Protocol) {
    var holding := s.fusion == Fusing(p) || s.fusion == Acking(p);
    && s.acks.Get(p) <= 1
    && (s.workers.Get(p).Awaiting? <==> p in s.decoded || holding || s.acks.Get(p) == 1)
    && !(p in s.decoded && holding) && !(p in s.decoded && s.acks.Get(p) == 1) && !(holding && s.acks.Get(p) == 1)
  }

  /** The messages of the usable packets, in order. */
  function Kept<M>(c: Config<M>, p: Protocol, packets: seq<Packet>): seq<Option<M>> {
    if packets == [] then [] else
    var rest := Kept(c, p, packets[..|packets| - 1]);
    match c.decode(p, packets[|packets| - 1])
    case Usable(m) => rest + [Some(m)]
    case _ => rest
  }

  /** The worker's packet is still to be decoded, or its message to be read. */
  ghost predicate Unread<M>(s: State<M>, p: Protocol) {
    s.workers.Get(p).Decoding? || MessageHeld(s, p)
  }

  /** The worker's buffer holds a message fusion has still to read. */
  ghost predicate MessageHeld<M>(s: State<M>, p: Protocol) {
    var w := s.workers.Get(p);
    w.Sending? || (w.Awaiting? && (p in s.decoded || s.fusion == Fusing(p)))
  }

  /** Packets whose outcome is settled: all received, less the one still in the worker's hands. */
  ghost function Settled<M>(s: State<M>, p: Protocol): int { s.taken.Get(p) - if Unread(s, p) then 1 else 0 }

  /** Slots in the queue and with the worker hold the packets as routed, in order; the worker's
      message is the decoding of its packet from decoding until fusion has read it; and what fusion
      has read is what the settled packets decode to. */
  ghost predicate Carried<M>(c: Config<M>, s: State<M>, p: Protocol) {
    var w, q, r, t := s.workers.Get(p), s.queues.Get(p), s.routed.Get(p), s.taken.Get(p);
    && |r| == t + |q|
    && (forall k | 0 <= k < |q| :: q[k] in s.data && s.data[q[k]] == r[t + k])
    && (!w.Waiting? && !w.Exited? ==> t > 0 && w.slot in s.data && s.data[w.slot] == r[t - 1])
    && (MessageHeld(s, p) ==>
          c.decode(p, r[t - 1]).Usable? && s.buffer.Get(p) == Some(c.decode(p, r[t - 1]).message))
    && 0 <= Settled(s, p) <= |r|
    && s.fused.Get(p) == Kept(c, p, r[..Settled(s, p)])
    && Settled(s, p) == s.malformed.Get(p) + s.ignored.Get(p) + |s.fused.Get(p)|
  }

  ghost predicate Offered<M>(c: Config<M>, s: State<M>) {
    forall b | 0 <= b < |s.backends| ::
      && (s.backends[b].Filling? || s.backends[b].Offering? ==> s.backends[b].protocol in c.enabled)
      && (s.backends[b].Offering? ==> s.backends[b].slot in s.data && s.data[s.backends[b].slot] == s.backends[b].packet)
  }

  /** Shutdown order. */
  ghost predicate Ordered<M>(c: Config<M>, s: State<M>) {
    && s.closed <= c.enabled
    && (s.closed != {} || s.main.Closing? || s.main.Draining? || s.main.Joining? || s.main.Returned? ==>
          forall b | 0 <= b < |s.backends| :: s.backends[b].Stopped?)
    && (s.closed != {} ==> !s.main.Running? && !s.main.Cancelled?)
    && (s.main.Draining? || s.main.Joining? || s.main.Returned? ==> s.closed == c.enabled)
    && (s.main.Joining? || s.main.Returned? <==> s.decodedClosed)
    && (s.decodedClosed ==> forall p :: s.workers.Get(p).Exited?)
    && (forall p :: s.workers.Get(p).Exited? ==> p !in c.enabled || (p in s.closed && s.queues.Get(p) == []))
    && (forall p | p !in c.enabled :: s.workers.Get(p).Exited? && s.queues.Get(p) == [])
    && (s.fusion.Ended? ==> s.decodedClosed && s.decoded == [])
    && (s.main.Returned? ==> s.fusion.Ended?)
  }

  ghost predicate Inv<M>(c: Config<M>, s: State<M>) {
    && Placed(c, s) && NoDup(s.decoded) && (forall p: Protocol :: Shaken(s, p) && Carried(c, s, p) && |s.queues.Get(p)| <= c.protocolQueue)
    && Offered(c, s) && Ordered(c, s)
  }

  // ---------- one slot moving ----------

  /** Slot x went to one place, and nothing else moved. */
  ghost predicate OnlyMoved<M>(s: State<M>, t: State<M>, x: nat, to: Place) {
    && t.place == s.place[x := to]
    && forall at: Place, y: nat :: Holds(t, at, y) <==> if y == x then at == to else Holds(s, at, y)
  }

  lemma Moved<M>(c: Config<M>, s: State<M>, t: State<M>, x: nat, to: Place)
    requires Placed(c, s) && x < Slots(c) && OnlyMoved(s, t, x, to)
    requires NoDup(t.free) && forall p: Protocol :: NoDup(t.queues.Get(p))
    ensures Placed(c, t)
  {
    hide Holds;
  }

  lemma Unmoved<M>(c: Config<M>, s: State<M>, t: State<M>)
    requires Placed(c, s) && t.place == s.place && t.free == s.free && t.queues == s.queues
    requires forall at: Place, y: nat :: Holds(t, at, y) <==> Holds(s, at, y)
    ensures Placed(c, t)
  {
    hide Holds;
  }

  lemma Lengthened<T>(l: seq<T>, x: T)
    requires NoDup(l) && x !in l
    ensures NoDup(l + [x]) && forall y :: y in l + [x] <==> y in l || y == x
  {
  }

  lemma CapturePlaced<M>(c: Config<M>, s: State<M>, b: nat, p: Protocol, packet: Packet)
    requires Placed(c, s) && Enabled(c, s, Capture(b, p, packet))
    ensures Placed(c, Do(c, s, Capture(b, p, packet)))
  {
    var t := Do(c, s, Capture(b, p, packet));
    if |packet.payload| > c.maxFrame || s.free == [] {
      Unmoved(c, s, t);
    } else {
      var x := s.free[0];
      Headless(s.free);
      assert Holds(s, Pooled, x);
      forall at: Place, y: nat ensures Holds(t, at, y) <==> if y == x then at == AtBackend(b) else Holds(s, at, y) {
      assert Holds(s, at, y) <==> y in s.place && s.place[y] == at;
      }
      Moved(c, s, t, x, AtBackend(b));
    }
  }

  lemma ReceivePlaced<M>(c: Config<M>, s: State<M>, p: Protocol)
    requires Placed(c, s) && Enabled(c, s, Receive(p))
    ensures Placed(c, Do(c, s, Receive(p)))
  {
    var t := Do(c, s, Receive(p));
    var x := s.queues.Get(p)[0];
    Headless(s.queues.Get(p));
    assert Holds(s, Queued(p), x);
    forall at: Place, y: nat ensures Holds(t, at, y) <==> if y == x then at == AtWorker(p) else Holds(s, at, y) {
      assert Holds(s, at, y) <==> y in s.place && s.place[y] == at;
    }
    Moved(c, s, t, x, AtWorker(p));
  }

  lemma GiveBackPlaced<M>(c: Config<M>, s: State<M>, b: nat)
    requires Placed(c, s) && Enabled(c, s, GiveBack(b))
    ensures Placed(c, Do(c, s, GiveBack(b)))
  {
    var t := Do(c, s, GiveBack(b));
    var x := s.backends[b].slot;
    assert Holds(s, AtBackend(b), x);
    assert !Holds(s, Pooled, x);
    Lengthened(s.free, x);
    forall at: Place, y: nat ensures Holds(t, at, y) <==> if y == x then at == Pooled else Holds(s, at, y) {
      assert Holds(s, at, y) <==> y in s.place && s.place[y] == at;
    }
    Moved(c, s, t, x, Pooled);
  }

  lemma ReleasePlaced<M>(c: Config<M>, s: State<M>, p: Protocol)
    requires Placed(c, s) && Enabled(c, s, Release(p))
    ensures Placed(c, Do(c, s, Release(p)))
  {
    var t := Do(c, s, Release(p));
    var x := s.workers.Get(p).slot;
    assert Holds(s, AtWorker(p), x);
    assert !Holds(s, Pooled, x);
    Lengthened(s.free, x);
    forall at: Place, y: nat ensures Holds(t, at, y) <==> if y == x then at == Pooled else Holds(s, at, y) {
      assert Holds(s, at, y) <==> y in s.place && s.place[y] == at;
    }
    Moved(c, s, t, x, Pooled);
  }

  lemma OfferPlaced<M>(c: Config<M>, s: State<M>, b: nat)
    requires Placed(c, s) && Enabled(c, s, Offer(b))
    ensures Placed(c, Do(c, s, Offer(b)))
  {
    var t := Do(c, s, Offer(b));
    var x, p := s.backends[b].slot, s.backends[b].protocol;
    if |s.queues.Get(p)| < c.protocolQueue {
      assert Holds(s, AtBackend(b), x);
      assert !Holds(s, Queued(p), x);
      Lengthened(s.queues.Get(p), x);
      forall at: Place, y: nat ensures Holds(t, at, y) <==> if y == x then at == Queued(p) else Holds(s, at, y) {
        assert Holds(s, at, y) <==> y in s.place && s.place[y] == at;
      }
      Moved(c, s, t, x, Queued(p));
    } else {
      Unmoved(c, s, t);
    }
  }

  /** No step loses or duplicates a slot. */
  lemma StepPlaced<M>(c: Config<M>, s: State<M>, step: Step)
    requires Placed(c, s) && Enabled(c, s, step)
    ensures Placed(c, Do(c, s, step))
  {
    hide Placed, Do, Enabled;
    match step {
      case Capture(b, p, packet) => CapturePlaced(c, s, b, p, packet);
      case Offer(b) => OfferPlaced(c, s, b);
      case GiveBack(b) => GiveBackPlaced(c, s, b);
      case Receive(p) => ReceivePlaced(c, s, p);
      case Release(p) => ReleasePlaced(c, s, p);
      case Fill(b) => BackendPlaced(c, s, step);
      case Stop(b) => BackendPlaced(c, s, step);
      case Decode(p) => WorkerPlaced(c, s, step);
      case Send(p) => WorkerPlaced(c, s, step);
      case TakeAck(p) => WorkerPlaced(c, s, step);
      case Exit(p) => WorkerPlaced(c, s, step);
      case _ => ElsewherePlaced(c, s, step);
    }
  }

  lemma BackendPlaced<M>(c: Config<M>, s: State<M>, step: Step)
    requires Placed(c, s) && Enabled(c, s, step) && (step.Fill? || step.Stop?)
    ensures Placed(c, Do(c, s, step))
  {
    hide Placed, Per.Get, Per.Set;
    HandsKept(c, s, Do(c, s, step));
  }

  lemma WorkerPlaced<M>(c: Config<M>, s: State<M>, step: Step)
    requires Placed(c, s) && Enabled(c, s, step) && (step.Decode? || step.Send? || step.TakeAck? || step.Exit?)
    ensures Placed(c, Do(c, s, step))
  {
    hide Placed, Per.Get, Per.Set;
    HandsKept(c, s, Do(c, s, step));
  }

  lemma ElsewherePlaced<M>(c: Config<M>, s: State<M>, step: Step)
    requires Placed(c, s) && Enabled(c, s, step)
    requires step.Take? || step.Observe? || step.Ack? || step.Tick? || step.End? || step.Cancel? || step.BackendsJoined? || step.CloseQueue?
      || step.QueuesClosed? || step.WorkersJoined? || step.Return?
    ensures Placed(c, Do(c, s, step))
  {
    hide Placed, Per.Get, Per.Set;
    HandsKept(c, s, Do(c, s, step));
  }

  /** Nobody took or let go of a slot. */
  lemma HandsKept<M>(c: Config<M>, s: State<M>, t: State<M>)
    requires Placed(c, s) && t.place == s.place && t.free == s.free && t.queues == s.queues && |t.backends| == |s.backends|
    requires forall b: nat, x: nat | b < |s.backends| :: BackendHolds(t.backends[b], x) <==> BackendHolds(s.backends[b], x)
    requires forall p: Protocol, x: nat :: WorkerHolds(t.workers.Get(p), x) <==> WorkerHolds(s.workers.Get(p), x)
    ensures Placed(c, t)
  {
    hide Placed, BackendHolds, WorkerHolds;
    Unmoved(c, s, t);
  }

  // ---------- the handshake ----------

  lemma AwaitingKept<M>(s: State<M>, t: State<M>, p: Protocol)
    requires Shaken(s, p) && t.decoded == s.decoded && t.acks == s.acks && t.fusion == s.fusion
    requires t.workers.Get(p).Awaiting? <==> s.workers.Get(p).Awaiting?
    ensures Shaken(t, p)
  {
  }

  lemma SendShaken<M>(c: Config<M>, s: State<M>, q: Protocol, p: Protocol)
    requires NoDup(s.decoded) && Shaken(s, p) && Shaken(s, q) && Enabled(c, s, Send(q))
    ensures NoDup(Do(c, s, Send(q)).decoded) && Shaken(Do(c, s, Send(q)), p)
  {
    Lengthened(s.decoded, q);
  }

  lemma TakeShaken<M>(c: Config<M>, s: State<M>, p: Protocol)
    requires NoDup(s.decoded) && Shaken(s, p) && Enabled(c, s, Take)
    ensures NoDup(Do(c, s, Take).decoded) && Shaken(Do(c, s, Take), p)
  {
    Headless(s.decoded);
  }

  lemma AckShaken<M>(c: Config<M>, s: State<M>, p: Protocol)
    requires Shaken(s, p) && Enabled(c, s, Ack)
    ensures Shaken(Do(c, s, Ack), p) && Do(c, s, Ack).decoded == s.decoded
  {
  }

  lemma TakeAckShaken<M>(c: Config<M>, s: State<M>, q: Protocol, p: Protocol)
    requires Shaken(s, p) && Enabled(c, s, TakeAck(q))
    ensures Shaken(Do(c, s, TakeAck(q)), p) && Do(c, s, TakeAck(q)).decoded == s.decoded
  {
  }

  lemma ObserveShaken<M>(c: Config<M>, s: State<M>, p: Protocol)
    requires Shaken(s, p) && Enabled(c, s, Observe)
    ensures Shaken(Do(c, s, Observe), p) && Do(c, s, Observe).decoded == s.decoded
  {
  }

  lemma EndShaken<M>(c: Config<M>, s: State<M>, p: Protocol)
    requires Shaken(s, p) && Enabled(c, s, End)
    ensures Shaken(Do(c, s, End), p) && Do(c, s, End).decoded == s.decoded
  {
  }

  lemma WorkerShaken<M>(c: Config<M>, s: State<M>, step: Step, q: Protocol, p: Protocol)
    requires Shaken(s, p) && Enabled(c, s, step)
    requires step == Receive(q) || step == Decode(q) || step == Release(q) || step == Exit(q)
    ensures Shaken(Do(c, s, step), p) && Do(c, s, step).decoded == s.decoded
  {
    hide Shaken, Per.Get, Per.Set;
    var t := Do(c, s, step);
    assert t.decoded == s.decoded && t.acks == s.acks && t.fusion == s.fusion;
    assert !t.workers.Get(q).Awaiting? && !s.workers.Get(q).Awaiting?;
    assert p != q ==> t.workers.Get(p) == s.workers.Get(p);
    hide Do;
    AwaitingKept(s, t, p);
  }

  lemma ElsewhereShaken<M>(c: Config<M>, s: State<M>, step: Step, p: Protocol)
    requires Shaken(s, p) && Enabled(c, s, step)
    requires step.Capture? || step.Fill? || step.Offer? || step.GiveBack? || step.Stop? || step.Tick? || step.Cancel? || step.BackendsJoined?
      || step.CloseQueue? || step.QueuesClosed? || step.WorkersJoined? || step.Return?
    ensures Shaken(Do(c, s, step), p) && Do(c, s, step).decoded == s.decoded
  {
    hide Shaken, Per.Get, Per.Set;
    AwaitingKept(s, Do(c, s, step), p);
  }

  /** No step loses or duplicates an envelope or an acknowledgement. */
  lemma StepShaken<M>(c: Config<M>, s: State<M>, step: Step, p: Protocol)
    requires NoDup(s.decoded) && (forall q: Protocol :: Shaken(s, q)) && Enabled(c, s, step)
    ensures NoDup(Do(c, s, step).decoded) && Shaken(Do(c, s, step), p)
  {
    hide Shaken, Do;
    assert Shaken(s, p);
    match step {
      case Send(q) => assert Shaken(s, q); SendShaken(c, s, q, p);
      case TakeAck(q) => TakeAckShaken(c, s, q, p);
      case Take => TakeShaken(c, s, p);
      case Observe => ObserveShaken(c, s, p);
      case Ack => AckShaken(c, s, p);
      case End => EndShaken(c, s, p);
      case Receive(q) => WorkerShaken(c, s, step, q, p);
      case Decode(q) => WorkerShaken(c, s, step, q, p);
      case Release(q) => WorkerShaken(c, s, step, q, p);
      case Exit(q) => WorkerShaken(c, s, step, q, p);
      case _ => ElsewhereShaken(c, s, step, p);
    }
  }

  // ---------- packets from queue to fusion ----------

  lemma CarriedKept<M>(c: Config<M>, s: State<M>, t: State<M>, p: Protocol)
    requires Carried(c, s, p) && t.workers.Get(p) == s.workers.Get(p) && t.queues.Get(p) == s.queues.Get(p)
    requires t.routed.Get(p) == s.routed.Get(p) && t.taken.Get(p) == s.taken.Get(p) && t.fused.Get(p) == s.fused.Get(p)
    requires t.malformed.Get(p) == s.malformed.Get(p) && t.ignored.Get(p) == s.ignored.Get(p) && t.buffer.Get(p) == s.buffer.Get(p)
    requires MessageHeld(t, p) <==> MessageHeld(s, p)
    requires forall x: nat | x in s.data && (x in s.queues.Get(p) || WorkerHolds(s.workers.Get(p), x)) :: x in t.data && t.data[x] == s.data[x]
    ensures Carried(c, t, p)
  {
    hide Kept, MessageHeld;
  }

  /** Kept takes packets one at a time. */
  lemma KeptNext<M>(c: Config<M>, p: Protocol, r: seq<Packet>, n: nat)
    requires n < |r|
    ensures Kept(c, p, r[..n + 1]) ==
            match c.decode(p, r[n]) case Usable(m) => Kept(c, p, r[..n]) + [Some(m)] case _ => Kept(c, p, r[..n])
  {
    assert r[..n + 1][..n] == r[..n];
  }

  lemma OfferCarried<M>(c: Config<M>, s: State<M>, b: nat, p: Protocol)
    requires Enabled(c, s, Offer(b)) && Carried(c, s, p)
    requires s.backends[b].slot in s.data && s.data[s.backends[b].slot] == s.backends[b].packet
    ensures Carried(c, Do(c, s, Offer(b)), p)
  {
    if s.backends[b].protocol == p && |s.queues.Get(p)| < c.protocolQueue {
      AcceptCarried(c, s, b);
    } else {
      hide Carried, Per.Get, Per.Set;
      CarriedKept(c, s, Do(c, s, Offer(b)), p);
    }
  }

  lemma AcceptCarried<M>(c: Config<M>, s: State<M>, b: nat)
    requires Enabled(c, s, Offer(b)) && Carried(c, s, s.backends[b].protocol)
    requires s.backends[b].slot in s.data && s.data[s.backends[b].slot] == s.backends[b].packet
    requires |s.queues.Get(s.backends[b].protocol)| < c.protocolQueue
    ensures Carried(c, Do(c, s, Offer(b)), s.backends[b].protocol)
  {
    hide Kept, Per.Get, Per.Set;
    var t, p := Do(c, s, Offer(b)), s.backends[b].protocol;
    var n := Settled(s, p);
    assert t.routed.Get(p)[..n] == s.routed.Get(p)[..n];
  }

  lemma ReceiveCarried<M>(c: Config<M>, s: State<M>, q: Protocol, p: Protocol)
    requires Enabled(c, s, Receive(q)) && Carried(c, s, p)
    ensures Carried(c, Do(c, s, Receive(q)), p)
  {
    hide Kept, Per.Get, Per.Set;
  }

  lemma DecodeCarried<M>(c: Config<M>, s: State<M>, q: Protocol, p: Protocol)
    requires Enabled(c, s, Decode(q)) && Carried(c, s, p)
    ensures Carried(c, Do(c, s, Decode(q)), p)
  {
    hide Carried, Per.Get, Per.Set;
    if p == q { DecodeOwn(c, s, p); } else { CarriedKept(c, s, Do(c, s, Decode(q)), p); }
  }

  lemma DecodeOwn<M>(c: Config<M>, s: State<M>, p: Protocol)
    requires Enabled(c, s, Decode(p)) && Carried(c, s, p)
    ensures Carried(c, Do(c, s, Decode(p)), p)
  {
    hide Kept, Per.Get, Per.Set;
    var t, n, r := Do(c, s, Decode(p)), s.taken.Get(p), s.routed.Get(p);
    KeptNext(c, p, r, n - 1);
    assert s.data[s.workers.Get(p).slot] == r[n - 1];
    assert t.routed == s.routed && t.taken == s.taken && t.queues == s.queues && t.data == s.data;
    assert Settled(s, p) == n - 1;
    match c.decode(p, r[n - 1]) {
      case Usable(_) => assert Settled(t, p) == n - 1;
      case _ => assert Settled(t, p) == n;
    }
  }

  lemma ObserveCarried<M>(c: Config<M>, s: State<M>, p: Protocol)
    requires Enabled(c, s, Observe) && Carried(c, s, p) && Shaken(s, p)
    ensures Carried(c, Do(c, s, Observe), p)
  {
    hide Kept, Per.Get, Per.Set;
    if s.fusion == Fusing(p) { KeptNext(c, p, s.routed.Get(p), s.taken.Get(p) - 1); }
  }

  lemma HandshakeCarried<M>(c: Config<M>, s: State<M>, step: Step, p: Protocol)
    requires Enabled(c, s, step) && Carried(c, s, p) && Shaken(s, p) && NoDup(s.decoded)
    requires step.Send? || step.TakeAck? || step.Take? || step.Ack?
    ensures Carried(c, Do(c, s, step), p)
  {
    hide Kept, Per.Get, Per.Set;
    if step.Take? { Headless(s.decoded); }
  }

  lemma FillCarried<M>(c: Config<M>, s: State<M>, b: nat, p: Protocol)
    requires Enabled(c, s, Fill(b)) && Carried(c, s, p) && Placed(c, s)
    ensures Carried(c, Do(c, s, Fill(b)), p)
  {
    hide Carried, Kept;
    var x := s.backends[b].slot;
    assert Holds(s, AtBackend(b), x);
    assert !Holds(s, Queued(p), x) && !Holds(s, AtWorker(p), x);
    CarriedKept(c, s, Do(c, s, Fill(b)), p);
  }

  lemma WorkerEndCarried<M>(c: Config<M>, s: State<M>, step: Step, p: Protocol)
    requires Enabled(c, s, step) && Carried(c, s, p) && (step.Release? || step.Exit?)
    ensures Carried(c, Do(c, s, step), p)
  {
    hide Kept, Per.Get, Per.Set;
  }

  lemma ElsewhereCarried<M>(c: Config<M>, s: State<M>, step: Step, p: Protocol)
    requires Enabled(c, s, step) && Carried(c, s, p)
    requires step.Capture? || step.GiveBack? || step.Stop? || step.Tick? || step.End? || step.Cancel? || step.BackendsJoined?
      || step.CloseQueue? || step.QueuesClosed? || step.WorkersJoined? || step.Return?
    ensures Carried(c, Do(c, s, step), p)
  {
    hide Carried, Per.Get, Per.Set;
    CarriedKept(c, s, Do(c, s, step), p);
  }

  /** Every step carries every packet on: nothing is reordered, rewritten in use, or read twice. */
  lemma StepCarried<M>(c: Config<M>, s: State<M>, step: Step, p: Protocol)
    requires Enabled(c, s, step) && Placed(c, s) && NoDup(s.decoded) && Shaken(s, p) && Carried(c, s, p) && Offered(c, s)
    ensures Carried(c, Do(c, s, step), p)
  {
    hide Carried, Do, Placed, Shaken;
    match step {
      case Offer(b) => OfferCarried(c, s, b, p);
      case Receive(q) => ReceiveCarried(c, s, q, p);
      case Decode(q) => DecodeCarried(c, s, q, p);
      case Observe => ObserveCarried(c, s, p);
      case Send(q) => HandshakeCarried(c, s, step, p);
      case TakeAck(q) => HandshakeCarried(c, s, step, p);
      case Take => HandshakeCarried(c, s, step, p);
      case Ack => HandshakeCarried(c, s, step, p);
      case Fill(b) => FillCarried(c, s, b, p);
      case Release(q) => WorkerEndCarried(c, s, step, p);
      case Exit(q) => WorkerEndCarried(c, s, step, p);
      case _ => ElsewhereCarried(c, s, step, p);
    }
  }

  // ---------- the rest of the invariant ----------

  lemma StepOffered<M>(c: Config<M>, s: State<M>, step: Step)
    requires Enabled(c, s, step) && Offered(c, s) && Placed(c, s)
    ensures Offered(c, Do(c, s, step))
  {
    hide Per.Get, Per.Set;
    if step.Fill? {
      FillOffered(c, s, step.b);
    } else if step.Capture? || step.Offer? || step.GiveBack? || step.Stop? {
      HandsOffered(c, s, step);
    } else {
      assert Do(c, s, step).backends == s.backends && Do(c, s, step).data == s.data;
    }
  }

  lemma HandsOffered<M>(c: Config<M>, s: State<M>, step: Step)
    requires Enabled(c, s, step) && Offered(c, s) && (step.Capture? || step.Offer? || step.GiveBack? || step.Stop?)
    ensures Offered(c, Do(c, s, step))
  {
    hide Per.Get, Per.Set;
  }

  lemma FillOffered<M>(c: Config<M>, s: State<M>, b: nat)
    requires Enabled(c, s, Fill(b)) && Offered(c, s) && Placed(c, s)
    ensures Offered(c, Do(c, s, Fill(b)))
  {
    hide Per.Get, Per.Set;
    var x := s.backends[b].slot;
    forall d: nat | d < |s.backends| && d != b && s.backends[d].Offering? ensures s.backends[d].slot != x {
      assert Holds(s, AtBackend(d), s.backends[d].slot) && Holds(s, AtBackend(b), x);
    }
  }

  lemma BackendOrdered<M>(c: Config<M>, s: State<M>, step: Step)
    requires Enabled(c, s, step) && Ordered(c, s) && Offered(c, s)
    requires step.Capture? || step.Fill? || step.Offer? || step.GiveBack? || step.Stop?
    ensures Ordered(c, Do(c, s, step))
  {
    hide Per.Get, Per.Set;
  }

  lemma WorkerOrdered<M>(c: Config<M>, s: State<M>, step: Step)
    requires Enabled(c, s, step) && Ordered(c, s)
    requires step.Receive? || step.Decode? || step.Send?
    ensures Ordered(c, Do(c, s, step))
  {
    hide Per.Get, Per.Set;
  }

  lemma HandOrdered<M>(c: Config<M>, s: State<M>, step: Step)
    requires Enabled(c, s, step) && Ordered(c, s)
    requires step.TakeAck? || step.Release? || step.Exit?
    ensures Ordered(c, Do(c, s, step))
  {
    hide Per.Get, Per.Set;
  }

  lemma FusionOrdered<M>(c: Config<M>, s: State<M>, step: Step)
    requires Enabled(c, s, step) && Ordered(c, s)
    requires step.Take? || step.Observe? || step.Ack? || step.Tick? || step.End?
    ensures Ordered(c, Do(c, s, step))
  {
    hide Per.Get, Per.Set;
  }

  lemma MainOrdered<M>(c: Config<M>, s: State<M>, step: Step)
    requires Enabled(c, s, step) && Ordered(c, s)
    requires step.Cancel? || step.BackendsJoined? || step.CloseQueue? || step.QueuesClosed? || step.WorkersJoined? || step.Return?
    ensures Ordered(c, Do(c, s, step))
  {
    hide Per.Get, Per.Set;
  }

  lemma StepOrdered<M>(c: Config<M>, s: State<M>, step: Step)
    requires Enabled(c, s, step) && Ordered(c, s) && Offered(c, s)
    ensures Ordered(c, Do(c, s, step))
  {
    hide Do, Enabled, Ordered, Offered;
    match step {
      case Capture(_, _, _) => BackendOrdered(c, s, step);
      case Fill(_) => BackendOrdered(c, s, step);
      case Offer(_) => BackendOrdered(c, s, step);
      case GiveBack(_) => BackendOrdered(c, s, step);
      case Stop(_) => BackendOrdered(c, s, step);
      case Receive(_) => WorkerOrdered(c, s, step);
      case Decode(_) => WorkerOrdered(c, s, step);
      case Send(_) => WorkerOrdered(c, s, step);
      case TakeAck(_) => HandOrdered(c, s, step);
      case Release(_) => HandOrdered(c, s, step);
      case Exit(_) => HandOrdered(c, s, step);
      case Take => FusionOrdered(c, s, step);
      case Observe => FusionOrdered(c, s, step);
      case Ack => FusionOrdered(c, s, step);
      case Tick => FusionOrdered(c, s, step);
      case End => FusionOrdered(c, s, step);
      case _ => MainOrdered(c, s, step);
    }
  }

  lemma StepCapacity<M>(c: Config<M>, s: State<M>, step: Step, p: Protocol)
    requires Enabled(c, s, step) && |s.queues.Get(p)| <= c.protocolQueue
    ensures |Do(c, s, step).queues.Get(p)| <= c.protocolQueue
  {
    hide Per.Get, Per.Set;
  }

  /** Every step keeps the invariant. */
  lemma StepInv<M>(c: Config<M>, s: State<M>, step: Step)
    requires Enabled(c, s, step) && Inv(c, s)
    ensures Inv(c, Do(c, s, step))
  {
    hide Do, Enabled, Placed, Shaken, Carried, Offered, Ordered, NoDup;
    StepPlaced(c, s, step);
    StepOffered(c, s, step);
    assert forall p: Protocol :: Shaken(s, p);
    StepOrdered(c, s, step);
    StepShaken(c, s, step, LLDP);
    var t := Do(c, s, step);
    forall p: Protocol ensures Shaken(t, p) && Carried(c, t, p) && |t.queues.Get(p)| <= c.protocolQueue {
      assert Shaken(s, p) && Carried(c, s, p);
      StepShaken(c, s, step, p);
      StepCarried(c, s, step, p);
      StepCapacity(c, s, step, p);
    }
  }

  lemma StartInv<M>(c: Config<M>, n: nat)
    ensures Inv(c, Start(c, n))
  {
    var s := Start(c, n);
    var all := Numbers(Slots(c));
    forall x: nat ensures x in all <==> x < Slots(c) {
      if x < Slots(c) { assert all[x] == x; }
    }
    forall p: Protocol ensures Shaken(s, p) && Carried(c, s, p) && |s.queues.Get(p)| <= c.protocolQueue {
    }
  }

  // ---------- nothing blocks, nothing is sent on a closed channel ----------

  lemma {:induction false} FewerThan(l: seq<nat>, n: nat)
    requires NoDup(l) && forall x | x in l :: x < n
    ensures |l| <= n
    decreases n
  {
    if n == 0 {
      HeadIn(l);
    } else if n - 1 in l {
      var i :| 0 <= i < |l| && l[i] == n - 1;
      var rest := l[..i] + l[i + 1..];
      forall x | x in rest ensures x in l && x != n - 1 {
        var k :| 0 <= k < |rest| && rest[k] == x;
        assert rest[k] == if k < i then l[k] else l[k + 1];
      }
      forall j, k | 0 <= j < k < |rest| ensures rest[j] != rest[k] {
        assert rest[j] == l[if j < i then j else j + 1] && rest[k] == l[if k < i then k else k + 1];
      }
      FewerThan(rest, n - 1);
    } else {
      forall x | x in l ensures x < n - 1 { }
      FewerThan(l, n - 1);
    }
  }

  /** While anyone holds a slot there is room to give it back. */
  lemma RoomInPool<M>(c: Config<M>, s: State<M>, x: nat)
    requires Placed(c, s) && x < Slots(c) && x !in s.free
    ensures |s.free| < Slots(c)
  {
    forall y | y in s.free + [x] ensures y < Slots(c) { assert y in s.free ==> Holds(s, Pooled, y); }
    Lengthened(s.free, x);
    FewerThan(s.free + [x], Slots(c));
  }

  lemma FourEnvelopes(decoded: seq<Protocol>)
    requires NoDup(decoded)
    ensures |decoded| <= 4
  {
    var ordinals := seq(|decoded|, i requires 0 <= i < |decoded| => Ordinal(decoded[i]));
    forall i, j | 0 <= i < j < |ordinals| ensures ordinals[i] != ordinals[j] { OrdinalIsOne(decoded[i], decoded[j]); }
    FewerThan(ordinals, 4);
  }

  lemma OrdinalIsOne(p: Protocol, q: Protocol)
    ensures Ordinal(p) == Ordinal(q) ==> p == q
  {
  }

  /** A worker about to release, a backend about to give back, a worker about to send and the fusion
      loop about to acknowledge can all go on at once. */
  lemma SendsGoThrough<M>(c: Config<M>, s: State<M>)
    requires Inv(c, s)
    ensures forall p | s.workers.Get(p).Releasing? :: Enabled(c, s, Release(p))
    ensures forall b: nat | b < |s.backends| && s.backends[b].Returning? :: Enabled(c, s, GiveBack(b))
    ensures forall p | s.workers.Get(p).Sending? :: Enabled(c, s, Send(p))
    ensures s.fusion.Acking? ==> Enabled(c, s, Ack)
  {
    hide Carried, Ordered, Offered, Per.Get;
    forall p | s.workers.Get(p).Releasing? ensures Enabled(c, s, Release(p)) {
      assert Holds(s, AtWorker(p), s.workers.Get(p).slot);
      assert !Holds(s, Pooled, s.workers.Get(p).slot);
      RoomInPool(c, s, s.workers.Get(p).slot);
    }
    forall b: nat | b < |s.backends| && s.backends[b].Returning? ensures Enabled(c, s, GiveBack(b)) {
      assert Holds(s, AtBackend(b), s.backends[b].slot);
      assert !Holds(s, Pooled, s.backends[b].slot);
      RoomInPool(c, s, s.backends[b].slot);
    }
    FourEnvelopes(s.decoded);
    if s.fusion.Acking? { assert Shaken(s, s.fusion.to); }
  }

  /** No queue is closed while a backend may offer to it, nor decoded while a worker may send, and
      the fusion loop's buffers are those of workers that wait. */
  lemma ClosedLast<M>(c: Config<M>, s: State<M>)
    requires Inv(c, s)
    ensures forall b: nat, p | b < |s.backends| && p in s.closed :: s.backends[b].Stopped?
    ensures s.decodedClosed ==> forall p :: s.workers.Get(p).Exited?
    ensures s.fusion.Fusing? ==> s.workers.Get(s.fusion.of).Awaiting?
  {
    hide Carried, Placed, Per.Get;
    if s.fusion.Fusing? { assert Shaken(s, s.fusion.of); }
  }

  // ---------- runs ----------

  ghost predicate Follows<M>(c: Config<M>, s: State<M>, step: Step, t: State<M>) { Enabled(c, s, step) && t == Do(c, s, step) }

  /** A run of the engine with n backends, any interleaving. */
  ghost predicate Run<M>(c: Config<M>, n: nat, states: seq<State<M>>, steps: seq<Step>) {
    && |states| == |steps| + 1 && states[0] == Start(c, n)
    && forall i | 0 <= i < |steps| :: Follows(c, states[i], steps[i], states[i + 1])
  }

  lemma {:induction false} RunInv<M>(c: Config<M>, n: nat, states: seq<State<M>>, steps: seq<Step>, i: nat)
    requires Run(c, n, states, steps) && i <= |steps|
    ensures Inv(c, states[i])
  {
    hide Inv, Enabled, Do;
    if i == 0 {
      StartInv(c, n);
    } else {
      RunInv(c, n, states, steps, i - 1);
      assert Follows(c, states[i - 1], steps[i - 1], states[i]);
      StepInv(c, states[i - 1], steps[i - 1]);
    }
  }

  /** When Run has returned: every packet ever routed has been counted malformed or ignored or been
      fused, fusion has read exactly the usable ones in the order they were routed, nothing is left
      in any channel, and every slot is back in the pool. */
  lemma NothingLost<M>(c: Config<M>, n: nat, states: seq<State<M>>, steps: seq<Step>, p: Protocol)
    requires Run(c, n, states, steps) && states[|steps|].main.Returned?
    ensures var s := states[|steps|];
            && |s.routed.Get(p)| == s.malformed.Get(p) + s.ignored.Get(p) + |s.fused.Get(p)|
            && s.fused.Get(p) == Kept(c, p, s.routed.Get(p))
            && s.queues.Get(p) == [] && s.decoded == []
            && NoDup(s.free) && forall x: nat :: x in s.free <==> x < Slots(c)
  {
    var s := states[|steps|];
    hide Inv, Run, Kept, Per.Get, NoDup;
    RunInv(c, n, states, steps, |steps|);
    AllExited(c, s, p);
    AllSettled(c, s, p);
    forall x: nat ensures x in s.free <==> x < Slots(c) { SlotPooled(c, s, x); }
  }

  lemma AllExited<M>(c: Config<M>, s: State<M>, p: Protocol)
    requires Inv(c, s) && s.main.Returned?
    ensures s.workers.Get(p).Exited? && s.queues.Get(p) == [] && s.decoded == [] && NoDup(s.free)
    ensures forall b: nat | b < |s.backends| :: s.backends[b].Stopped?
  {
    hide Carried, Shaken, Per.Get;
  }

  lemma AllSettled<M>(c: Config<M>, s: State<M>, p: Protocol)
    requires Inv(c, s) && s.workers.Get(p).Exited? && s.queues.Get(p) == []
    ensures |s.routed.Get(p)| == s.malformed.Get(p) + s.ignored.Get(p) + |s.fused.Get(p)|
    ensures s.fused.Get(p) == Kept(c, p, s.routed.Get(p))
  {
    hide Kept, Per.Get, Placed, Ordered, Shaken, Offered;
    assert Carried(c, s, p);
    assert s.routed.Get(p)[..|s.routed.Get(p)|] == s.routed.Get(p);
  }

  lemma SlotPooled<M>(c: Config<M>, s: State<M>, x: nat)
    requires Inv(c, s) && s.main.Returned?
    ensures x in s.free <==> x < Slots(c)
  {
    hide Carried, Shaken, Per.Get, Ordered, Offered;
    forall p ensures s.workers.Get(p).Exited? && s.queues.Get(p) == [] { AllExited(c, s, p); }
    AllExited(c, s, LLDP);
    if x < Slots(c) { assert Holds(s, s.place[x], x); } else { assert !Holds(s, Pooled, x); }
  }

  // ---------- shutdown always completes ----------

  function BackendWork(b: Backend): nat {
    match b
    case Filling(_, _, _) => 11
    case Offering(_, _, _) => 10
    case Returning(_) => 2
    case Capturing => 1
    case Stopped => 0
  }

  function BackendsWork(bs: seq<Backend>): nat {
    if bs == [] then 0 else BackendsWork(bs[..|bs| - 1]) + BackendWork(bs[|bs| - 1])
  }

  /** Steps a worker and its envelope have to go before the worker can exit. */
  ghost function WorkerWork<M>(s: State<M>, p: Protocol): nat {
    match s.workers.Get(p)
    case Exited => 0
    case Waiting => 1
    case Releasing(_) => 2
    case Awaiting(_) => if p in s.decoded then 6 else if s.fusion == Fusing(p) then 5 else if s.fusion == Acking(p) then 4 else 3
    case Sending(_) => 7
    case Decoding(_) => 8
  }

  ghost function ProtocolWork<M>(s: State<M>, p: Protocol): nat { 8 * |s.queues.Get(p)| + WorkerWork(s, p) }

  function MainWork(m: Main): nat {
    match m
    case Running => 5
    case Cancelled => 4
    case Closing => 3
    case Draining => 2
    case Joining => 1
    case Returned => 0
  }

  ghost function FourWork<M>(s: State<M>): nat {
    ProtocolWork(s, LLDP) + ProtocolWork(s, CDP) + ProtocolWork(s, MNDP) + ProtocolWork(s, MDNS)
  }

  /** Steps left, not counting further captures and ticks. */
  ghost function Work<M>(c: Config<M>, s: State<M>): nat {
    BackendsWork(s.backends) + FourWork(s) + (if s.fusion.Ended? then 0 else 1) + MainWork(s.main) + |c.enabled - s.closed|
  }

  lemma {:induction false} BackendStepped(bs: seq<Backend>, b: nat, v: Backend)
    requires b < |bs|
    ensures BackendsWork(bs[b := v]) == BackendsWork(bs) - BackendWork(bs[b]) + BackendWork(v)
  {
    var n := |bs| - 1;
    if b == n {
      assert bs[b := v][..n] == bs[..n];
    } else {
      assert bs[b := v][..n] == bs[..n][b := v];
      BackendStepped(bs[..n], b, v);
    }
  }

  lemma FourStepped<M>(s: State<M>, t: State<M>, p: Protocol)
    requires forall q: Protocol | q != p :: ProtocolWork(t, q) == ProtocolWork(s, q)
    ensures FourWork(t) == FourWork(s) - ProtocolWork(s, p) + ProtocolWork(t, p)
  {
    hide ProtocolWork;
  }

  lemma FourKept<M>(s: State<M>, t: State<M>)
    requires t.queues == s.queues && t.workers == s.workers && t.decoded == s.decoded
    requires t.fusion == s.fusion || (!s.fusion.Fusing? && !s.fusion.Acking? && !t.fusion.Fusing? && !t.fusion.Acking?)
    ensures FourWork(t) == FourWork(s)
  {
    hide ProtocolWork;
    ProtocolKept(s, t, LLDP);
    ProtocolKept(s, t, CDP);
    ProtocolKept(s, t, MNDP);
    ProtocolKept(s, t, MDNS);
  }

  lemma ProtocolKept<M>(s: State<M>, t: State<M>, p: Protocol)
    requires t.queues == s.queues && t.workers == s.workers && t.decoded == s.decoded
    requires t.fusion == s.fusion || (!s.fusion.Fusing? && !s.fusion.Acking? && !t.fusion.Fusing? && !t.fusion.Acking?)
    ensures ProtocolWork(t, p) == ProtocolWork(s, p)
  {
  }

  /** Only protocol p's part of the state changed. */
  lemma OneWork<M>(s: State<M>, t: State<M>, p: Protocol)
    requires forall q: Protocol | q != p :: t.queues.Get(q) == s.queues.Get(q) && t.workers.Get(q) == s.workers.Get(q) && (q in t.decoded <==> q in s.decoded)
    requires t.fusion == s.fusion
    ensures FourWork(t) == FourWork(s) - ProtocolWork(s, p) + ProtocolWork(t, p)
  {
    hide Per.Get, FourWork;
    FourStepped(s, t, p);
  }

  lemma BackendWorks<M>(c: Config<M>, s: State<M>, step: Step)
    requires Enabled(c, s, step) && (step.Fill? || step.GiveBack? || step.Stop?)
    ensures Work(c, Do(c, s, step)) < Work(c, s)
  {
    hide Per.Get, Per.Set, BackendsWork, FourWork, ProtocolWork;
    var t := Do(c, s, step);
    BackendStepped(s.backends, step.b, t.backends[step.b]);
    FourKept(s, t);
  }

  lemma OfferWorks<M>(c: Config<M>, s: State<M>, b: nat)
    requires Enabled(c, s, Offer(b))
    ensures Work(c, Do(c, s, Offer(b))) < Work(c, s)
  {
    hide Per.Get, Per.Set, BackendsWork, FourWork;
    var t := Do(c, s, Offer(b));
    BackendStepped(s.backends, b, t.backends[b]);
    OneWork(s, t, s.backends[b].protocol);
  }

  lemma WorkerWorks<M>(c: Config<M>, s: State<M>, step: Step, p: Protocol)
    requires Enabled(c, s, step) && Shaken(s, p)
    requires step == Receive(p) || step == Exit(p)
    ensures Work(c, Do(c, s, step)) < Work(c, s)
  {
    hide Per.Get, Per.Set, BackendsWork, FourWork;
    OneWork(s, Do(c, s, step), p);
  }

  lemma DecodeWorks<M>(c: Config<M>, s: State<M>, step: Step, p: Protocol)
    requires Enabled(c, s, step) && Shaken(s, p)
    requires step == Decode(p)
    ensures Work(c, Do(c, s, step)) < Work(c, s)
  {
    hide Per.Get, Per.Set, BackendsWork, FourWork;
    OneWork(s, Do(c, s, step), p);
  }

  lemma HandWorks<M>(c: Config<M>, s: State<M>, step: Step, p: Protocol)
    requires Enabled(c, s, step) && Shaken(s, p)
    requires step == Send(p) || step == TakeAck(p) || step == Release(p)
    ensures Work(c, Do(c, s, step)) < Work(c, s)
  {
    hide Per.Get, Per.Set, BackendsWork, FourWork;
    OneWork(s, Do(c, s, step), p);
  }

  lemma TakeWorks<M>(c: Config<M>, s: State<M>)
    requires Enabled(c, s, Take) && Shaken(s, s.decoded[0]) && NoDup(s.decoded)
    ensures Work(c, Do(c, s, Take)) < Work(c, s)
  {
    hide Per.Get, Per.Set, BackendsWork, FourWork;
    Headless(s.decoded);
    FourStepped(s, Do(c, s, Take), s.decoded[0]);
  }

  lemma ObserveWorks<M>(c: Config<M>, s: State<M>)
    requires Enabled(c, s, Observe) && Shaken(s, s.fusion.of)
    ensures Work(c, Do(c, s, Observe)) < Work(c, s)
  {
    hide Per.Get, Per.Set, BackendsWork, FourWork;
    FourStepped(s, Do(c, s, Observe), s.fusion.of);
  }

  lemma AckWorks<M>(c: Config<M>, s: State<M>)
    requires Enabled(c, s, Ack) && Shaken(s, s.fusion.to)
    ensures Work(c, Do(c, s, Ack)) < Work(c, s)
  {
    hide Per.Get, Per.Set, BackendsWork, FourWork;
    FourStepped(s, Do(c, s, Ack), s.fusion.to);
  }

  lemma MainWorks<M>(c: Config<M>, s: State<M>, step: Step)
    requires Enabled(c, s, step)
    requires step.Cancel? || step.BackendsJoined? || step.QueuesClosed? || step.WorkersJoined? || step.Return?
    ensures Work(c, Do(c, s, step)) < Work(c, s)
  {
    hide Per.Get, Per.Set, BackendsWork, FourWork, ProtocolWork;
    FourKept(s, Do(c, s, step));
  }

  lemma CloseWorks<M>(c: Config<M>, s: State<M>, p: Protocol)
    requires Enabled(c, s, CloseQueue(p))
    ensures Work(c, Do(c, s, CloseQueue(p))) < Work(c, s)
  {
    hide Per.Get, Per.Set, BackendsWork, FourWork, ProtocolWork;
    FourKept(s, Do(c, s, CloseQueue(p)));
    assert c.enabled - s.closed == (c.enabled - (s.closed + {p})) + {p};
  }

  lemma EndWorks<M>(c: Config<M>, s: State<M>)
    requires Enabled(c, s, End)
    ensures Work(c, Do(c, s, End)) < Work(c, s)
  {
    hide Per.Get, Per.Set, BackendsWork, FourWork, ProtocolWork;
    FourKept(s, Do(c, s, End));
  }

  /** Every step but a capture and a tick brings the end nearer. */
  lemma StepWorks<M>(c: Config<M>, s: State<M>, step: Step)
    requires Enabled(c, s, step) && Inv(c, s) && !step.Capture? && !step.Tick?
    ensures Work(c, Do(c, s, step)) < Work(c, s)
  {
    hide Work, Do, Placed, Carried, Offered, Ordered, Shaken, Per.Get;
    assert forall p: Protocol :: Shaken(s, p);
    match step {
      case Fill(b) => BackendWorks(c, s, step);
      case Offer(b) => OfferWorks(c, s, b);
      case GiveBack(b) => BackendWorks(c, s, step);
      case Stop(b) => BackendWorks(c, s, step);
      case Receive(p) => WorkerWorks(c, s, step, p);
      case Decode(p) => DecodeWorks(c, s, step, p);
      case Send(p) => HandWorks(c, s, step, p);
      case TakeAck(p) => HandWorks(c, s, step, p);
      case Release(p) => HandWorks(c, s, step, p);
      case Exit(p) => WorkerWorks(c, s, step, p);
      case Take => TakeWorks(c, s);
      case Observe => ObserveWorks(c, s);
      case Ack => AckWorks(c, s);
      case End => EndWorks(c, s);
      case CloseQueue(p) => CloseWorks(c, s, p);
      case _ => MainWorks(c, s, step);
    }
  }

  /** Once cancelled, and until Run has returned, some step other than a capture or a tick can be
      taken: the engine never deadlocks on its way out. With StepWorks, at most Work more of them. */
  lemma ShutdownGoesOn<M>(c: Config<M>, s: State<M>) returns (step: Step)
    requires Inv(c, s) && !s.main.Running? && !s.main.Returned?
    ensures Enabled(c, s, step) && !step.Capture? && !step.Tick?
  {
    hide Carried, Placed, Per.Get, Slots;
    SendsGoThrough(c, s);
    match s.main {
      case Cancelled =>
        if b: nat :| b < |s.backends| && !s.backends[b].Stopped? {
          step := match s.backends[b]
            case Capturing => Stop(b)
            case Filling(_, _, _) => Fill(b)
            case Offering(_, _, _) => Offer(b)
            case _ => GiveBack(b);
        } else {
          step := BackendsJoined;
        }
      case Closing =>
        if p :| p in c.enabled && p !in s.closed { step := CloseQueue(p); } else { step := QueuesClosed; }
      case Draining =>
        if p: Protocol :| !s.workers.Get(p).Exited? { step := WorkerGoesOn(c, s, p); } else { step := WorkersJoined; }
      case Joining =>
        match s.fusion {
          case Ended => step := Return;
          case Fusing(_) => step := Observe;
          case Acking(_) => step := Ack;
          case Selecting =>
            NoneHeld(s);
            step := End;
        }
      case _ =>
    }
  }

  /** With every worker gone no envelope is left. */
  lemma NoneHeld<M>(s: State<M>)
    requires (forall p: Protocol :: Shaken(s, p)) && forall p :: s.workers.Get(p).Exited?
    ensures s.decoded == []
  {
    hide Per.Get;
    HeadIn(s.decoded);
    forall p: Protocol ensures p !in s.decoded { assert Shaken(s, p); }
  }

  lemma WorkerGoesOn<M>(c: Config<M>, s: State<M>, p: Protocol) returns (step: Step)
    requires Inv(c, s) && s.main.Draining? && !s.workers.Get(p).Exited?
    ensures Enabled(c, s, step) && !step.Capture? && !step.Tick?
  {
    hide Placed, Per.Get, Slots, Kept;
    SendsGoThrough(c, s);
    assert Carried(c, s, p) && Shaken(s, p);
    match s.workers.Get(p) {
      case Waiting => step := if s.queues.Get(p) != [] then Receive(p) else Exit(p);
      case Decoding(_) => step := Decode(p);
      case Sending(_) => step := Send(p);
      case Releasing(_) => step := Release(p);
      case _ =>
        if s.acks.Get(p) > 0 {
          step := TakeAck(p);
        } else {
          step := match s.fusion case Fusing(_) => Observe case Acking(_) => Ack case _ => Take;
        }
    }
  }
}
