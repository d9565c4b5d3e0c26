/**
 * runner/pkg/engine.go: `InitRunner` as a step relation. One producer goroutine fills a bounded
 * channel of warm containers, the main loop starts one worker per delivery, workers take a warm
 * container or create one themselves, and the context may be cancelled at any moment.
 *
 * Containers are named by the number of the slot issue that created them (1, 2, 3, ...), which
 * is unbounded; the slot id they carry is that number in uint32 arithmetic.
 */
module Engine {
  import opened Text

  type Serial = nat
  const UINT32: nat := 0x1_0000_0000

  /** The value of `slotCounter.Add(1)` at the n-th issue. */
  function SlotId(n: Serial): nat {
    n % UINT32
  }

  datatype Producer =
    | AtTop                       // before the check of ctx.Done()
    | Issuing                     // check passed, slot not yet taken
    | Creating(serial: Serial)    // inside CreateWarmContainer
    | Holding(made: Serial)       // at the select that sends it
    | Stopped

  datatype Settlement = Ack | Nack(requeue: bool)

  /** The program points of a worker goroutine; `c` is its container variable, None being nil. */
  datatype Phase =
    | Choosing
    | SlotIssuing
    | SlotCreating(serial: Serial)
    | Ready(c: Option<Serial>)
    | Refused(c: Option<Serial>)
    | Orchestrating(c: Option<Serial>)
    | OrchestrationOver(c: Option<Serial>)
    | Acked(c: Option<Serial>)
    | Finished(c: Option<Serial>)

  /** `parsed` records whether the job spec parsed, `settled` the calls made on the delivery. */
  datatype Worker = Worker(phase: Phase, parsed: bool, settled: seq<Settlement>) {
    predicate Live() {
      !phase.Finished?
    }

    function Owned(): Option<Serial> {
      if phase.Choosing? || phase.SlotIssuing? || phase.SlotCreating? then None else phase.c
    }
  }

  datatype MainLoop = Serving | AwaitingWorkers | Returned | LeftOnClosedQueue

  /** Where a container is; kept as a history of moves. */
  datatype Place = InHand | InQueue | AtWorker(w: nat) | Deleted

  datatype State = State(
    ctxDone: bool,
    issued: nat,
    failures: nat,
    producer: Producer,
    queue: seq<Serial>,
    deleted: set<Serial>,
    workers: seq<Worker>,
    wg: int,
    main: MainLoop,
    crashed: bool,
    taken: seq<Serial>,
    place: map<Serial, Place>)

  const INIT: State := State(false, 0, 0, AtTop, [], {}, [], 0, Serving, false, [], map[])

  datatype Action =
    | Cancel
    | ProducerChecks
    | ProducerIssues
    | ProducerCreated(ok: bool)
    | ProducerSends
    | ProducerHandsOver(w: nat)
    | ProducerGivesUp
    | MainReceives
    | MainStops
    | MainReturns
    | MainSeesClosed
    | Takes(w: nat)
    | TimesOut(w: nat)
    | Issues(w: nat)
    | Created(w: nat, ok: bool)
    | Parses(w: nat, ok: bool)
    | NacksAgain(w: nat)
    | OrchestrationEnds(w: nat, usesContainer: bool)
    | Acks(w: nat)
    | SignalsDone(w: nat)

  predicate Enabled(cap: nat, s: State, a: Action) {
    && !s.crashed
    && match a
       case Cancel => true
       case ProducerChecks => s.producer.AtTop?
       case ProducerIssues => s.producer.Issuing?
       case ProducerCreated(_) => s.producer.Creating?
       case ProducerSends => s.producer.Holding? && |s.queue| < cap
       case ProducerHandsOver(w) => s.producer.Holding? && s.queue == [] && w < |s.workers| && s.workers[w].phase.Choosing?
       case ProducerGivesUp => s.producer.Holding? && s.ctxDone
       case MainReceives => s.main.Serving?
       case MainStops => s.main.Serving? && s.ctxDone
       case MainReturns => s.main.AwaitingWorkers? && s.wg == 0
       case MainSeesClosed => s.main.Serving?
       case Takes(w) => w < |s.workers| && s.workers[w].phase.Choosing? && s.queue != []
       case TimesOut(w) => w < |s.workers| && s.workers[w].phase.Choosing?
       case Issues(w) => w < |s.workers| && s.workers[w].phase.SlotIssuing?
       case Created(w, _) => w < |s.workers| && s.workers[w].phase.SlotCreating?
       case Parses(w, _) => w < |s.workers| && s.workers[w].phase.Ready?
       case NacksAgain(w) => w < |s.workers| && s.workers[w].phase.Refused?
       case OrchestrationEnds(w, _) => w < |s.workers| && s.workers[w].phase.Orchestrating?
       case Acks(w) => w < |s.workers| && s.workers[w].phase.OrchestrationOver?
       case SignalsDone(w) => w < |s.workers| && s.workers[w].phase.Acked?
  }

  function Goto(s: State, w: nat, p: Phase): State
    requires w < |s.workers|
  {
    s.(workers := s.workers[w := s.workers[w].(phase := p)])
  }

  function Settle(s: State, w: nat, x: Settlement): State
    requires w < |s.workers|
  {
    s.(workers := s.workers[w := s.workers[w].(settled := s.workers[w].settled + [x])])
  }

  /** Hands container c to worker w. */
  function Give(s: State, w: nat, c: Serial): State
    requires w < |s.workers|
  {
    Goto(s, w, Ready(Some(c))).(taken := s.taken + [c], place := s.place[c := AtWorker(w)])
  }

  function Apply(cap: nat, s: State, a: Action): State
    requires Enabled(cap, s, a)
  {
    match a
    case Cancel => s.(ctxDone := true)
    case ProducerChecks => s.(producer := if s.ctxDone then Stopped else Issuing)
    case ProducerIssues => s.(issued := s.issued + 1, producer := Creating(s.issued + 1))
    case ProducerCreated(ok) =>
      var c := s.producer.serial;
      if ok then s.(producer := Holding(c), place := s.place[c := InHand])
      else s.(producer := AtTop, failures := s.failures + 1)
    case ProducerSends =>
      var c := s.producer.made;
      s.(producer := AtTop, queue := s.queue + [c], place := s.place[c := InQueue])
    case ProducerHandsOver(w) => Give(s, w, s.producer.made).(producer := AtTop)
    case ProducerGivesUp =>
      var c := s.producer.made;
      s.(producer := Stopped, deleted := s.deleted + {c}, place := s.place[c := Deleted])
    case MainReceives => s.(workers := s.workers + [Worker(Choosing, true, [])], wg := s.wg + 1)
    case MainStops => s.(main := AwaitingWorkers)
    case MainReturns => s.(main := Returned)
    case MainSeesClosed => s.(main := LeftOnClosedQueue)
    case Takes(w) => Give(s, w, s.queue[0]).(queue := s.queue[1..])
    case TimesOut(w) => Goto(s, w, SlotIssuing)
    case Issues(w) => Goto(s, w, SlotCreating(s.issued + 1)).(issued := s.issued + 1)
    case Created(w, ok) =>
      var c := s.workers[w].phase.serial;
      if ok then Goto(s, w, Ready(Some(c))).(place := s.place[c := AtWorker(w)])
      else Goto(s, w, Ready(None)).(failures := s.failures + 1)
    case Parses(w, ok) =>
      var c := s.workers[w].phase.c;
      if ok then Goto(s, w, Orchestrating(c))
      else
        var t := Settle(Goto(s, w, Refused(c)), w, Nack(false));
        t.(workers := t.workers[w := t.workers[w].(parsed := false)])
    case NacksAgain(w) => Settle(Goto(s, w, Orchestrating(s.workers[w].phase.c)), w, Nack(true))
    case OrchestrationEnds(w, usesContainer) =>
      var c := s.workers[w].phase.c;
      if usesContainer && c.None? then s.(crashed := true)
      else Goto(s, w, OrchestrationOver(c))
    case Acks(w) => Settle(Goto(s, w, Acked(s.workers[w].phase.c)), w, Ack)
    case SignalsDone(w) => Goto(s, w, Finished(s.workers[w].phase.c)).(wg := s.wg - 1)
  }

  // ---- runs ----

  ghost predicate CanRun(cap: nat, acts: seq<Action>)
    decreases |acts|, 0
  {
    acts == [] || (CanRun(cap, acts[..|acts| - 1]) && Enabled(cap, Run(cap, acts[..|acts| - 1]), acts[|acts| - 1]))
  }

  ghost function Run(cap: nat, acts: seq<Action>): State
    requires CanRun(cap, acts)
    decreases |acts|, 1
  {
    if acts == [] then INIT else Apply(cap, Run(cap, acts[..|acts| - 1]), acts[|acts| - 1])
  }

  // ---- the invariant ----

  /** Container c is at p, read off the channel, the goroutines and the deletions. */
  predicate Is(s: State, c: Serial, p: Place) {
    match p
    case InHand => s.producer == Holding(c)
    case InQueue => c in s.queue
    case Deleted => c in s.deleted
    case AtWorker(w) => w < |s.workers| && s.workers[w].Owned() == Some(c)
  }

  /** Every container is where its last move put it, and nowhere else. */
  ghost predicate Placed(s: State) {
    forall c, p :: Is(s, c, p) <==> c in s.place && s.place[c] == p
  }

  datatype Maker = ByProducer | ByWorker(w: nat)

  /** Slot n is being turned into a container by m. */
  predicate IsMaking(s: State, n: Serial, m: Maker) {
    match m
    case ByProducer => s.producer == Creating(n)
    case ByWorker(w) => w < |s.workers| && s.workers[w].phase == SlotCreating(n)
  }

  /** Slots in creation are issued, not yet created, and no two creations share one. */
  ghost predicate SlotsApart(s: State) {
    && (forall c | c in s.place :: 1 <= c <= s.issued)
    && (forall n: Serial, m | IsMaking(s, n, m) :: 1 <= n <= s.issued && n !in s.place)
    && (forall n: Serial, m, m' | IsMaking(s, n, m) && IsMaking(s, n, m') :: m == m')
  }

  ghost predicate Increasing(q: seq<Serial>) {
    forall i, j | 0 <= i < j < |q| :: q[i] < q[j]
  }

  /** The warm containers in the order in which they leave, are queued, and are made. */
  function WarmOrder(s: State): seq<Serial> {
    s.queue + match s.producer
              case Creating(n) => [n]
              case Holding(n) => [n]
              case _ => []
  }

  /** The warm containers among those given to workers come first in that order. */
  ghost predicate WarmOrdered(s: State) {
    Increasing(s.taken + WarmOrder(s)) && forall i | 0 <= i < |s.taken + WarmOrder(s)| :: (s.taken + WarmOrder(s))[i] <= s.issued
  }

  function CountLive(ws: seq<Worker>): nat {
    if ws == [] then 0 else CountLive(ws[..|ws| - 1]) + if ws[|ws| - 1].Live() then 1 else 0
  }

  function CountCreating(ws: seq<Worker>): nat {
    if ws == [] then 0 else CountCreating(ws[..|ws| - 1]) + if ws[|ws| - 1].phase.SlotCreating? then 1 else 0
  }

  function InCreation(s: State): nat {
    CountCreating(s.workers) + if s.producer.Creating? then 1 else 0
  }

  /** The calls a worker has made on its delivery, by program point. */
  function SettledAt(p: Phase, parsed: bool): seq<Settlement> {
    var nacks := if parsed then [] else [Nack(false), Nack(true)];
    match p
    case Refused(_) => [Nack(false)]
    case Orchestrating(_) => nacks
    case OrchestrationOver(_) => nacks
    case Acked(_) => nacks + [Ack]
    case Finished(_) => nacks + [Ack]
    case _ => []
  }

  predicate BeforeParsing(p: Phase) {
    p.Choosing? || p.SlotIssuing? || p.SlotCreating? || p.Ready?
  }

  predicate WorkerOk(x: Worker, failures: nat) {
    && x.settled == SettledAt(x.phase, x.parsed)
    && (x.phase.Refused? ==> !x.parsed)
    && (BeforeParsing(x.phase) ==> x.parsed)
    && (x.phase.Ready? || !BeforeParsing(x.phase) ==> x.phase.c.Some? || failures > 0)
  }

  ghost predicate DeliveriesOk(s: State) {
    forall w | 0 <= w < |s.workers| :: WorkerOk(s.workers[w], s.failures)
  }

  ghost predicate Inv(cap: nat, s: State) {
    && Placed(s)
    && SlotsApart(s)
    && WarmOrdered(s)
    && DeliveriesOk(s)
    && |s.queue| <= cap
    && s.wg == CountLive(s.workers)
    && s.issued == InCreation(s) + s.failures + |s.place.Keys|
    && (s.main.Returned? ==> s.wg == 0)
    && (s.crashed ==> s.failures > 0)
  }

  // ---- counting ----

  lemma {:induction false} CountsAfterUpdate(ws: seq<Worker>, w: nat, x: Worker)
    requires w < |ws|
    ensures CountLive(ws[w := x]) ==
            CountLive(ws) - (if ws[w].Live() then 1 else 0) + (if x.Live() then 1 else 0)
    ensures CountCreating(ws[w := x]) ==
            CountCreating(ws) - (if ws[w].phase.SlotCreating? then 1 else 0) + (if x.phase.SlotCreating? then 1 else 0)
  {
    var n := |ws| - 1;
    if w == n {
      assert ws[w := x][..n] == ws[..n];
    } else {
      assert ws[w := x][..n] == ws[..n][w := x];
      CountsAfterUpdate(ws[..n], w, x);
    }
  }

  lemma {:induction false} CountsAfterAppend(ws: seq<Worker>, x: Worker)
    ensures CountLive(ws + [x]) == CountLive(ws) + if x.Live() then 1 else 0
    ensures CountCreating(ws + [x]) == CountCreating(ws) + if x.phase.SlotCreating? then 1 else 0
  {
    assert (ws + [x])[..|ws|] == ws;
  }

  lemma {:induction false} NoneLive(ws: seq<Worker>)
    ensures CountLive(ws) == 0 <==> forall w | 0 <= w < |ws| :: !ws[w].Live()
  {
    if ws != [] {
      NoneLive(ws[..|ws| - 1]);
      assert forall w | 0 <= w < |ws| - 1 :: ws[..|ws| - 1][w] == ws[w];
    }
  }

  lemma {:induction false} NewKey(m: map<Serial, Place>, c: Serial, p: Place)
    ensures m[c := p].Keys == m.Keys + {c}
    ensures |m[c := p].Keys| == |m.Keys| + if c in m then 0 else 1
  {
    assert m[c := p].Keys == m.Keys + {c};
    if c in m {
      assert m.Keys + {c} == m.Keys;
    }
  }

  // ---- preservation ----

  /** The worker whose own step an action is. */
  function Actor(a: Action): Option<nat> {
    match a
    case Takes(w) => Some(w)
    case ProducerHandsOver(w) => Some(w)
    case TimesOut(w) => Some(w)
    case Issues(w) => Some(w)
    case Created(w, _) => Some(w)
    case Parses(w, _) => Some(w)
    case NacksAgain(w) => Some(w)
    case OrchestrationEnds(w, _) => Some(w)
    case Acks(w) => Some(w)
    case SignalsDone(w) => Some(w)
    case _ => None
  }

  /** A step changes the worker that takes it and no other; only the main loop starts one. */
  lemma {:induction false} StepWorkers(cap: nat, s: State, a: Action)
    requires Enabled(cap, s, a)
    ensures var t := Apply(cap, s, a);
            match Actor(a)
            case Some(w) => w < |s.workers| && |t.workers| == |s.workers| && t.workers == s.workers[w := t.workers[w]]
            case None => t.workers == if a.MainReceives? then s.workers + [Worker(Choosing, true, [])] else s.workers
  {
  }

  lemma {:induction false} Stays(s: State, t: State)
    requires Placed(s) && t.place == s.place
    requires forall c, p :: Is(t, c, p) <==> Is(s, c, p)
    ensures Placed(t)
  {
  }

  lemma {:induction false} Moves(s: State, t: State, c: Serial, p: Place, q: Place)
    requires Placed(s) && Is(s, c, p) && p != q && t.place == s.place[c := q]
    requires forall d, r | d != c || (r != p && r != q) :: Is(t, d, r) <==> Is(s, d, r)
    requires !Is(t, c, p) && Is(t, c, q)
    ensures Placed(t)
  {
    assert forall r :: Is(s, c, r) <==> r == p;
  }

  lemma {:induction false} Appears(s: State, t: State, c: Serial, q: Place)
    requires Placed(s) && c !in s.place && t.place == s.place[c := q]
    requires forall d, r | d != c || r != q :: Is(t, d, r) <==> Is(s, d, r)
    requires Is(t, c, q)
    ensures Placed(t)
  {
  }

  /** Actions that move no container. */
  predicate MovesNothing(a: Action) {
    match a
    case ProducerCreated(ok) => !ok
    case Created(w, ok) => !ok
    case ProducerSends => false
    case ProducerHandsOver(w) => false
    case ProducerGivesUp => false
    case Takes(w) => false
    case _ => true
  }

  lemma {:induction false} NothingChangesHands(cap: nat, s: State, a: Action)
    requires Enabled(cap, s, a) && MovesNothing(a)
    ensures var t := Apply(cap, s, a);
            && t.place == s.place && t.queue == s.queue && t.deleted == s.deleted
            && forall c :: t.producer == Holding(c) <==> s.producer == Holding(c)
  {
  }

  lemma {:induction false} ActorKeepsOwn(cap: nat, s: State, a: Action)
    requires Enabled(cap, s, a) && MovesNothing(a) && Actor(a).Some?
    ensures Apply(cap, s, a).workers[Actor(a).value].Owned() == s.workers[Actor(a).value].Owned()
  {
  }

  lemma {:induction false} NothingMoves(cap: nat, s: State, a: Action)
    requires Enabled(cap, s, a) && MovesNothing(a)
    ensures Apply(cap, s, a).place == s.place
    ensures forall c, p :: Is(Apply(cap, s, a), c, p) <==> Is(s, c, p)
  {
    var t := Apply(cap, s, a);
    StepWorkers(cap, s, a);
    NothingChangesHands(cap, s, a);
    forall c, p
      ensures Is(t, c, p) <==> Is(s, c, p)
    {
      if p.AtWorker? && Actor(a) == Some(p.w) {
        ActorKeepsOwn(cap, s, a);
      }
    }
  }

  predicate Succeeds(a: Action) {
    (a.ProducerCreated? || a.Created?) && a.ok
  }

  lemma {:induction false} CreationPlaces(cap: nat, s: State, a: Action)
    requires Placed(s) && SlotsApart(s) && Enabled(cap, s, a) && Succeeds(a)
    ensures Placed(Apply(cap, s, a))
  {
    var t := Apply(cap, s, a);
    if a.ProducerCreated? {
      assert IsMaking(s, s.producer.serial, ByProducer);
      Appears(s, t, s.producer.serial, InHand);
    } else {
      assert IsMaking(s, s.workers[a.w].phase.serial, ByWorker(a.w));
      Appears(s, t, s.workers[a.w].phase.serial, AtWorker(a.w));
    }
  }

  lemma {:induction false} QueueHeadIsFresh(s: State)
    requires WarmOrdered(s) && s.queue != []
    ensures s.queue[0] !in s.queue[1..]
  {
    var all := s.taken + WarmOrder(s);
    forall j | 1 <= j < |s.queue|
      ensures s.queue[0] != s.queue[j]
    {
      assert all[|s.taken|] == s.queue[0] && all[|s.taken| + j] == s.queue[j];
    }
  }

  lemma {:induction false} TakingMoves(cap: nat, s: State, a: Action)
    requires Placed(s) && WarmOrdered(s) && Enabled(cap, s, a) && a.Takes?
    ensures Placed(Apply(cap, s, a))
  {
    var t := Apply(cap, s, a);
    QueueHeadIsFresh(s);
    assert s.queue == [s.queue[0]] + t.queue;
    Moves(s, t, s.queue[0], InQueue, AtWorker(a.w));
  }

  lemma {:induction false} ProducerMoves(cap: nat, s: State, a: Action)
    requires Placed(s) && Enabled(cap, s, a) && (a.ProducerSends? || a.ProducerHandsOver? || a.ProducerGivesUp?)
    ensures Placed(Apply(cap, s, a))
  {
    var t := Apply(cap, s, a);
    match a
    case ProducerSends =>
      Moves(s, t, s.producer.made, InHand, InQueue);
    case ProducerHandsOver(w) =>
      Moves(s, t, s.producer.made, InHand, AtWorker(w));
    case ProducerGivesUp =>
      Moves(s, t, s.producer.made, InHand, Deleted);
  }

  lemma {:induction false} StepPlaced(cap: nat, s: State, a: Action)
    requires Placed(s) && SlotsApart(s) && WarmOrdered(s) && Enabled(cap, s, a)
    ensures Placed(Apply(cap, s, a))
  {
    var t := Apply(cap, s, a);
    if MovesNothing(a) {
      NothingMoves(cap, s, a);
      Stays(s, t);
    } else if a.ProducerCreated? || a.Created? {
      CreationPlaces(cap, s, a);
    } else if a.Takes? {
      TakingMoves(cap, s, a);
    } else {
      ProducerMoves(cap, s, a);
    }
  }

  lemma {:induction false} MakersStay(s: State, t: State)
    requires SlotsApart(s) && t.issued == s.issued && t.place.Keys == s.place.Keys
    requires forall n: Serial, m :: IsMaking(t, n, m) ==> IsMaking(s, n, m)
    ensures SlotsApart(t)
  {
  }

  lemma {:induction false} MakerStarts(s: State, t: State, who: Maker)
    requires SlotsApart(s) && t.issued == s.issued + 1 && t.place == s.place
    requires forall n: Serial, m :: IsMaking(t, n, m) ==> IsMaking(s, n, m) || (n == s.issued + 1 && m == who)
    ensures SlotsApart(t)
  {
  }

  lemma {:induction false} MakerSucceeds(s: State, t: State, c: Serial, who: Maker)
    requires SlotsApart(s) && IsMaking(s, c, who) && t.issued == s.issued && t.place.Keys == s.place.Keys + {c}
    requires forall n: Serial, m :: IsMaking(t, n, m) ==> IsMaking(s, n, m) && m != who
    ensures SlotsApart(t)
  {
  }

  function One(b: bool): int {
    if b then 1 else 0
  }

  predicate IssuesSlot(a: Action) {
    a.ProducerIssues? || a.Issues?
  }

  predicate Fails(a: Action) {
    (a.ProducerCreated? || a.Created?) && !a.ok
  }

  /** What a step adds to the counters. */
  lemma {:induction false} StepTallies(cap: nat, s: State, a: Action)
    requires Enabled(cap, s, a)
    ensures Apply(cap, s, a).issued == s.issued + One(IssuesSlot(a))
    ensures Apply(cap, s, a).failures == s.failures + One(Fails(a))
    ensures Apply(cap, s, a).wg == s.wg + One(a.MainReceives?) - One(a.SignalsDone?)
    ensures One(Apply(cap, s, a).producer.Creating?) ==
            One(s.producer.Creating?) + One(a.ProducerIssues?) - One(a.ProducerCreated?)
  {
  }

  /** What a worker's step adds to the number of live workers and of workers creating a container. */
  lemma {:induction false} ActorTallies(cap: nat, s: State, a: Action)
    requires Enabled(cap, s, a) && Actor(a).Some?
    ensures var x, y := s.workers[Actor(a).value], Apply(cap, s, a).workers[Actor(a).value];
            && One(y.Live()) == One(x.Live()) - One(a.SignalsDone?)
            && One(y.phase.SlotCreating?) == One(x.phase.SlotCreating?) + One(a.Issues?) - One(a.Created?)
  {
  }

  lemma {:induction false} NoNewMaker(cap: nat, s: State, a: Action)
    requires Enabled(cap, s, a) && !a.ProducerIssues? && !a.Issues?
    ensures Apply(cap, s, a).issued == s.issued
    ensures forall n: Serial, m :: IsMaking(Apply(cap, s, a), n, m) ==> IsMaking(s, n, m)
  {
    StepTallies(cap, s, a);
    StepWorkers(cap, s, a);
    if Actor(a).Some? {
      ActorTallies(cap, s, a);
    }
  }

  lemma {:induction false} MovedIsKnown(cap: nat, s: State, a: Action)
    requires Placed(s) && Enabled(cap, s, a) && !((a.ProducerCreated? || a.Created?) && a.ok)
    ensures Apply(cap, s, a).place.Keys == s.place.Keys
  {
    if a.Takes? {
      assert Is(s, s.queue[0], InQueue);
    } else if a.ProducerSends? || a.ProducerHandsOver? || a.ProducerGivesUp? {
      assert Is(s, s.producer.made, InHand);
    }
  }

  lemma {:induction false} StepSlotsApart(cap: nat, s: State, a: Action)
    requires Placed(s) && SlotsApart(s) && Enabled(cap, s, a)
    ensures SlotsApart(Apply(cap, s, a))
  {
    var t := Apply(cap, s, a);
    if a.ProducerIssues? {
      MakerStarts(s, t, ByProducer);
    } else if a.Issues? {
      MakerStarts(s, t, ByWorker(a.w));
    } else if a.ProducerCreated? && a.ok {
      MakerSucceeds(s, t, s.producer.serial, ByProducer);
    } else if a.Created? && a.ok {
      MakerSucceeds(s, t, s.workers[a.w].phase.serial, ByWorker(a.w));
    } else {
      NoNewMaker(cap, s, a);
      MovedIsKnown(cap, s, a);
      MakersStay(s, t);
    }
  }

  lemma {:induction false} WarmStays(s: State, t: State)
    requires WarmOrdered(s) && t.issued >= s.issued && t.taken + WarmOrder(t) == s.taken + WarmOrder(s)
    ensures WarmOrdered(t)
  {
  }

  lemma {:induction false} WarmGrows(s: State, t: State)
    requires WarmOrdered(s) && t.issued == s.issued + 1
    requires t.taken + WarmOrder(t) == s.taken + WarmOrder(s) + [t.issued]
    ensures WarmOrdered(t)
  {
  }

  lemma {:induction false} LosesLast(s: State, t: State, c: Serial)
    requires WarmOrdered(s) && t.issued == s.issued
    requires t.taken == s.taken && t.queue == s.queue && WarmOrder(s) == s.queue + [c] && WarmOrder(t) == s.queue
    ensures WarmOrdered(t)
  {
    var before, after := s.taken + WarmOrder(s), t.taken + WarmOrder(t);
    assert before == after + [c];
    assert forall i | 0 <= i < |after| :: after[i] == before[i];
  }

  lemma {:induction false} SameWarmOrder(cap: nat, s: State, a: Action)
    requires Enabled(cap, s, a)
    requires !a.ProducerIssues? && !a.ProducerGivesUp? && !(a.ProducerCreated? && !a.ok)
    ensures Apply(cap, s, a).taken + WarmOrder(Apply(cap, s, a)) == s.taken + WarmOrder(s)
    ensures Apply(cap, s, a).issued >= s.issued
  {
    var t := Apply(cap, s, a);
    if a.Takes? {
      assert s.queue == [s.queue[0]] + t.queue;
    }
  }

  lemma {:induction false} StepWarmOrdered(cap: nat, s: State, a: Action)
    requires WarmOrdered(s) && Enabled(cap, s, a)
    ensures WarmOrdered(Apply(cap, s, a))
  {
    var t := Apply(cap, s, a);
    if a.ProducerIssues? {
      assert t.taken + WarmOrder(t) == s.taken + WarmOrder(s) + [t.issued];
      WarmGrows(s, t);
    } else if a.ProducerCreated? && !a.ok {
      LosesLast(s, t, s.producer.serial);
    } else if a.ProducerGivesUp? {
      LosesLast(s, t, s.producer.made);
    } else {
      SameWarmOrder(cap, s, a);
      WarmStays(s, t);
    }
  }

  lemma {:induction false} StepKeys(cap: nat, s: State, a: Action)
    requires Placed(s) && SlotsApart(s) && Enabled(cap, s, a)
    ensures |Apply(cap, s, a).place.Keys| ==
            |s.place.Keys| + One(Succeeds(a))
  {
    if a.ProducerCreated? && a.ok {
      assert IsMaking(s, s.producer.serial, ByProducer);
      NewKey(s.place, s.producer.serial, InHand);
    } else if a.Created? && a.ok {
      assert IsMaking(s, s.workers[a.w].phase.serial, ByWorker(a.w));
      NewKey(s.place, s.workers[a.w].phase.serial, AtWorker(a.w));
    } else {
      MovedIsKnown(cap, s, a);
    }
  }

  lemma {:induction false} StepCounts(cap: nat, s: State, a: Action)
    requires Placed(s) && SlotsApart(s) && Enabled(cap, s, a)
    requires s.wg == CountLive(s.workers) && s.issued == InCreation(s) + s.failures + |s.place.Keys|
    ensures var t := Apply(cap, s, a);
            && t.wg == CountLive(t.workers)
            && t.issued == InCreation(t) + t.failures + |t.place.Keys|
  {
    var t := Apply(cap, s, a);
    StepWorkers(cap, s, a);
    StepKeys(cap, s, a);
    StepTallies(cap, s, a);
    if Actor(a).Some? {
      var w := Actor(a).value;
      CountsAfterUpdate(s.workers, w, t.workers[w]);
      ActorTallies(cap, s, a);
    } else {
      CountsAfterAppend(s.workers, Worker(Choosing, true, []));
    }
  }

  predicate GetsContainer(a: Action) {
    a.Takes? || a.ProducerHandsOver? || a.TimesOut? || a.Issues? || a.Created?
  }

  lemma {:induction false} GettingStaysOk(cap: nat, s: State, a: Action)
    requires Enabled(cap, s, a) && GetsContainer(a) && WorkerOk(s.workers[a.w], s.failures)
    ensures WorkerOk(Apply(cap, s, a).workers[a.w], Apply(cap, s, a).failures)
  {
  }

  lemma {:induction false} SettlingStaysOk(cap: nat, s: State, a: Action)
    requires Enabled(cap, s, a) && (a.Parses? || a.NacksAgain? || a.Acks?) && WorkerOk(s.workers[a.w], s.failures)
    ensures WorkerOk(Apply(cap, s, a).workers[a.w], Apply(cap, s, a).failures)
  {
  }

  lemma {:induction false} EndingStaysOk(cap: nat, s: State, a: Action)
    requires Enabled(cap, s, a) && (a.OrchestrationEnds? || a.SignalsDone?) && WorkerOk(s.workers[a.w], s.failures)
    ensures WorkerOk(Apply(cap, s, a).workers[a.w], Apply(cap, s, a).failures)
  {
  }

  lemma {:induction false} ActorStaysOk(cap: nat, s: State, a: Action)
    requires Enabled(cap, s, a) && Actor(a).Some? && WorkerOk(s.workers[Actor(a).value], s.failures)
    ensures WorkerOk(Apply(cap, s, a).workers[Actor(a).value], Apply(cap, s, a).failures)
  {
    if GetsContainer(a) {
      GettingStaysOk(cap, s, a);
    } else if a.Parses? || a.NacksAgain? || a.Acks? {
      SettlingStaysOk(cap, s, a);
    } else {
      EndingStaysOk(cap, s, a);
    }
  }

  lemma {:induction false} StepDeliveries(cap: nat, s: State, a: Action)
    requires DeliveriesOk(s) && Enabled(cap, s, a)
    ensures DeliveriesOk(Apply(cap, s, a))
  {
    var t := Apply(cap, s, a);
    StepWorkers(cap, s, a);
    StepTallies(cap, s, a);
    forall w | 0 <= w < |t.workers|
      ensures WorkerOk(t.workers[w], t.failures)
    {
      if Actor(a) == Some(w) {
        ActorStaysOk(cap, s, a);
      } else if w < |s.workers| {
        assert WorkerOk(s.workers[w], s.failures);
      }
    }
  }

  /** Once the main loop has returned no worker is live or gets started; a crash needs a nil container. */
  lemma {:induction false} StepMain(cap: nat, s: State, a: Action)
    requires Inv(cap, s) && Enabled(cap, s, a)
    ensures var t := Apply(cap, s, a);
            (t.main.Returned? ==> t.wg == 0) && (t.crashed ==> t.failures > 0) && |t.queue| <= cap
  {
    NoneLive(s.workers);
    StepTallies(cap, s, a);
    if Actor(a).Some? {
      assert WorkerOk(s.workers[Actor(a).value], s.failures);
      assert s.workers[Actor(a).value].Live();
    }
  }

  lemma {:induction false} StepKeepsInv(cap: nat, s: State, a: Action)
    requires Inv(cap, s) && Enabled(cap, s, a)
    ensures Inv(cap, Apply(cap, s, a))
  {
    StepPlaced(cap, s, a);
    StepSlotsApart(cap, s, a);
    StepWarmOrdered(cap, s, a);
    StepCounts(cap, s, a);
    StepDeliveries(cap, s, a);
    StepMain(cap, s, a);
  }

  lemma {:induction false} InvAtStart(cap: nat)
    ensures Inv(cap, INIT)
  {
    assert INIT.place.Keys == {};
  }

  lemma {:induction false} RunKeepsInv(cap: nat, acts: seq<Action>)
    requires CanRun(cap, acts)
    ensures Inv(cap, Run(cap, acts))
    decreases |acts|
  {
    if acts == [] {
      InvAtStart(cap);
    } else {
      RunKeepsInv(cap, acts[..|acts| - 1]);
      StepKeepsInv(cap, Run(cap, acts[..|acts| - 1]), acts[|acts| - 1]);
    }
  }

  // ---- containers ----

  function Count(acts: seq<Action>, p: Action -> bool): nat {
    if acts == [] then 0 else Count(acts[..|acts| - 1], p) + if p(acts[|acts| - 1]) then 1 else 0
  }

  /** The containers a run has created. */
  ghost function Made(cap: nat, acts: seq<Action>): set<Serial>
    requires CanRun(cap, acts)
    decreases |acts|
  {
    if acts == [] then {}
    else
      var init, a := acts[..|acts| - 1], acts[|acts| - 1];
      var s := Run(cap, init);
      if a.ProducerCreated? && a.ok then Made(cap, init) + {s.producer.serial}
      else if a.Created? && a.ok then Made(cap, init) + {s.workers[a.w].phase.serial}
      else Made(cap, init)
  }

  lemma {:induction false} HistoryStep(cap: nat, s: State, a: Action)
    requires Inv(cap, s) && Enabled(cap, s, a)
    ensures var t := Apply(cap, s, a);
            && t.issued == s.issued + One(IssuesSlot(a))
            && t.failures == s.failures + One(Fails(a))
            && |t.place.Keys| == |s.place.Keys| + One(Succeeds(a))
            && t.place.Keys == s.place.Keys +
                               if !Succeeds(a) then {}
                               else if a.ProducerCreated? then {s.producer.serial}
                               else {s.workers[a.w].phase.serial}
  {
    StepTallies(cap, s, a);
    StepKeys(cap, s, a);
    if !Succeeds(a) {
      MovedIsKnown(cap, s, a);
    }
  }

  lemma {:induction false} HistoryOf(cap: nat, acts: seq<Action>)
    requires CanRun(cap, acts)
    ensures var s := Run(cap, acts);
            && s.place.Keys == Made(cap, acts)
            && s.issued == Count(acts, IssuesSlot)
            && s.failures == Count(acts, Fails)
            && |s.place.Keys| == Count(acts, Succeeds)
    decreases |acts|
  {
    if acts != [] {
      var init, a := acts[..|acts| - 1], acts[|acts| - 1];
      HistoryOf(cap, init);
      RunKeepsInv(cap, init);
      HistoryStep(cap, Run(cap, init), a);
    }
  }

  /**
   * Over every interleaving, each container created is in exactly one place (the producer's
   * hand, the warm queue, one worker, or deleted), nothing else is anywhere, no two workers share
   * one, the queue holds none twice and never exceeds its capacity.
   */
  lemma {:induction false} EachContainerInOnePlace(cap: nat, acts: seq<Action>)
    requires CanRun(cap, acts)
    ensures var s := Run(cap, acts);
            && (forall c :: c in Made(cap, acts) <==> exists p :: Is(s, c, p))
            && (forall c, p, q | Is(s, c, p) && Is(s, c, q) :: p == q)
            && (forall i, j | 0 <= i < j < |s.queue| :: s.queue[i] != s.queue[j])
            && |s.queue| <= cap
  {
    RunKeepsInv(cap, acts);
    HistoryOf(cap, acts);
    var s := Run(cap, acts);
    forall c
      ensures c in Made(cap, acts) <==> exists p :: Is(s, c, p)
    {
      if c in s.place {
        assert Is(s, c, s.place[c]);
      }
    }
    forall i, j | 0 <= i < j < |s.queue|
      ensures s.queue[i] != s.queue[j]
    {
      var all := s.taken + WarmOrder(s);
      assert all[|s.taken| + i] == s.queue[i] && all[|s.taken| + j] == s.queue[j];
    }
  }

  lemma {:induction false} WorkersShareNothing(cap: nat, acts: seq<Action>, v: nat, w: nat)
    requires CanRun(cap, acts) && v < |Run(cap, acts).workers| && w < |Run(cap, acts).workers| && v != w
    ensures var s := Run(cap, acts);
            s.workers[v].Owned().Some? ==> s.workers[v].Owned() != s.workers[w].Owned()
  {
    RunKeepsInv(cap, acts);
    var s := Run(cap, acts);
    if s.workers[v].Owned().Some? {
      assert Is(s, s.workers[v].Owned().value, AtWorker(v));
      if s.workers[w].Owned().Some? {
        assert Is(s, s.workers[w].Owned().value, AtWorker(w));
      }
    }
  }

  /** Slots issued are accounted for: in creation, failed, or turned into a container. */
  lemma {:induction false} SlotsAreAccountedFor(cap: nat, acts: seq<Action>)
    requires CanRun(cap, acts)
    ensures Count(acts, IssuesSlot) == InCreation(Run(cap, acts)) + Count(acts, Fails) + |Made(cap, acts)|
    ensures |Made(cap, acts)| == Count(acts, Succeeds)
  {
    RunKeepsInv(cap, acts);
    HistoryOf(cap, acts);
  }

  // ---- slot ids ----

  /** uint32 slot ids tell the first n issues apart exactly when n does not exceed 2^32. */
  lemma {:induction false} SlotIdsAreDistinctIff(n: nat)
    ensures (forall i: nat, j: nat | 1 <= i < j <= n :: SlotId(i) != SlotId(j)) <==> n <= 4_294_967_296
  {
    if n > UINT32 {
      assert SlotId(1) == SlotId(UINT32 + 1);
    } else {
      forall i: nat, j: nat | 1 <= i < j <= n
        ensures SlotId(i) != SlotId(j)
      {
        if j < UINT32 {
          assert SlotId(i) == i && SlotId(j) == j;
        } else {
          assert SlotId(j) == 0 && SlotId(i) == i;
        }
      }
    }
  }

  /** No two containers, warm or on-demand, carry the same slot id until 2^32 slots were issued. */
  lemma {:induction false} SlotIdsAreUnique(cap: nat, acts: seq<Action>, c: Serial, d: Serial)
    requires CanRun(cap, acts) && Count(acts, IssuesSlot) <= UINT32
    requires c in Made(cap, acts) && d in Made(cap, acts) && c != d
    ensures SlotId(c) != SlotId(d)
  {
    RunKeepsInv(cap, acts);
    HistoryOf(cap, acts);
    SlotIdsAreDistinctIff(Count(acts, IssuesSlot));
    assert SlotId(if c < d then c else d) != SlotId(if c < d then d else c);
  }

  lemma {:induction false} TakenIncrease(s: State)
    requires WarmOrdered(s) && s.issued < UINT32
    ensures forall i, j | 0 <= i < j < |s.taken| :: SlotId(s.taken[i]) < SlotId(s.taken[j])
  {
    var all := s.taken + WarmOrder(s);
    forall i, j | 0 <= i < j < |s.taken|
      ensures SlotId(s.taken[i]) < SlotId(s.taken[j])
    {
      assert all[i] == s.taken[i] && all[j] == s.taken[j];
      assert SlotId(s.taken[i]) == s.taken[i] && SlotId(s.taken[j]) == s.taken[j];
    }
  }

  /** The slot ids that leave the warm queue over a whole run are strictly increasing. */
  lemma {:induction false} WarmSlotIdsIncrease(cap: nat, acts: seq<Action>)
    requires CanRun(cap, acts) && Count(acts, IssuesSlot) < UINT32
    ensures var taken := Run(cap, acts).taken;
            forall i, j | 0 <= i < j < |taken| :: SlotId(taken[i]) < SlotId(taken[j])
  {
    RunKeepsInv(cap, acts);
    HistoryOf(cap, acts);
    TakenIncrease(Run(cap, acts));
  }

  // ---- workers and deliveries ----

  /** The wait group counts the live workers, and a return by cancellation leaves none. */
  lemma {:induction false} WaitGroupCountsLiveWorkers(cap: nat, acts: seq<Action>)
    requires CanRun(cap, acts)
    ensures var s := Run(cap, acts);
            && s.wg == CountLive(s.workers)
            && (s.main.Returned? ==> forall w | 0 <= w < |s.workers| :: s.workers[w].phase.Finished?)
  {
    RunKeepsInv(cap, acts);
    NoneLive(Run(cap, acts).workers);
  }

  /**
   * The calls on a delivery: none before parsing; exactly one Ack if the job spec parsed;
   * and for one that did not, Nack without requeue, Nack with requeue, and then still an Ack.
   */
  lemma {:induction false} DeliveryIsSettled(cap: nat, acts: seq<Action>, w: nat)
    requires CanRun(cap, acts) && w < |Run(cap, acts).workers|
    ensures var x := Run(cap, acts).workers[w];
            && (x.phase.Finished? ==> x.settled == if x.parsed then [Ack] else [Nack(false), Nack(true), Ack])
            && (x.phase.Finished? ==> (|x.settled| == 1 <==> x.parsed))
            && (HasPrefix([Nack(false), Nack(true), Ack], x.settled) || x.settled == [Ack])
            && multiset(x.settled)[Ack] <= 1
  {
    RunKeepsInv(cap, acts);
    var s := Run(cap, acts);
    assert WorkerOk(s.workers[w], s.failures);
  }

  predicate PastOrchestration(p: Phase) {
    p.OrchestrationOver? || p.Acked? || p.Finished?
  }

  predicate EndsOrchestration(a: Action, w: nat) {
    a.OrchestrationEnds? && a.w == w
  }

  lemma {:induction false} StepPast(cap: nat, s: State, a: Action, w: nat)
    requires Enabled(cap, s, a) && w < |Apply(cap, s, a).workers|
    requires PastOrchestration(Apply(cap, s, a).workers[w].phase) && !EndsOrchestration(a, w)
    ensures w < |s.workers| && PastOrchestration(s.workers[w].phase)
  {
    StepWorkers(cap, s, a);
  }

  lemma {:induction false} PastNeedsEnd(cap: nat, acts: seq<Action>, w: nat)
    requires CanRun(cap, acts) && w < |Run(cap, acts).workers| && PastOrchestration(Run(cap, acts).workers[w].phase)
    ensures exists j | 0 <= j < |acts| :: EndsOrchestration(acts[j], w)
    decreases |acts|
  {
    var init, a := acts[..|acts| - 1], acts[|acts| - 1];
    if !EndsOrchestration(a, w) {
      StepPast(cap, Run(cap, init), a, w);
      PastNeedsEnd(cap, init, w);
      var j :| 0 <= j < |init| && EndsOrchestration(init[j], w);
      assert EndsOrchestration(acts[j], w);
    }
  }

  /** A delivery is acked only after its orchestration returned. */
  lemma {:induction false} AckFollowsOrchestration(cap: nat, acts: seq<Action>, w: nat)
    requires CanRun(cap, acts) && w < |Run(cap, acts).workers| && Ack in Run(cap, acts).workers[w].settled
    ensures exists j | 0 <= j < |acts| :: EndsOrchestration(acts[j], w)
  {
    RunKeepsInv(cap, acts);
    var s := Run(cap, acts);
    assert WorkerOk(s.workers[w], s.failures);
    PastNeedsEnd(cap, acts, w);
  }

  // ---- shutdown ends ----

  function Rank(p: Phase): nat {
    match p
    case Choosing => 8
    case SlotIssuing => 7
    case SlotCreating(_) => 6
    case Ready(_) => 5
    case Refused(_) => 4
    case Orchestrating(_) => 3
    case OrchestrationOver(_) => 2
    case Acked(_) => 1
    case Finished(_) => 0
  }

  function TotalRank(ws: seq<Worker>): nat {
    if ws == [] then 0 else TotalRank(ws[..|ws| - 1]) + Rank(ws[|ws| - 1].phase)
  }

  lemma {:induction false} RankAfterUpdate(ws: seq<Worker>, w: nat, x: Worker)
    requires w < |ws|
    ensures TotalRank(ws[w := x]) == TotalRank(ws) - Rank(ws[w].phase) + Rank(x.phase)
  {
    var n := |ws| - 1;
    if w == n {
      assert ws[w := x][..n] == ws[..n];
    } else {
      assert ws[w := x][..n] == ws[..n][w := x];
      RankAfterUpdate(ws[..n], w, x);
    }
  }

  /** A live worker always has a step of its own to take: no worker waits for the producer for ever. */
  lemma {:induction false} LiveWorkerCanStep(cap: nat, s: State, w: nat) returns (a: Action)
    requires !s.crashed && w < |s.workers| && s.workers[w].Live()
    ensures Actor(a) == Some(w) && Enabled(cap, s, a)
    ensures var t := Apply(cap, s, a);
            !t.crashed && t.main == s.main && w < |t.workers| && t.workers[w].parsed == s.workers[w].parsed
  {
    match s.workers[w].phase
    case Choosing => a := TimesOut(w);
    case SlotIssuing => a := Issues(w);
    case SlotCreating(_) => a := Created(w, true);
    case Ready(_) => a := Parses(w, true);
    case Refused(_) => a := NacksAgain(w);
    case Orchestrating(_) => a := OrchestrationEnds(w, false);
    case OrchestrationOver(_) => a := Acks(w);
    case Acked(_) => a := SignalsDone(w);
  }

  lemma {:induction false} ActorRank(cap: nat, s: State, a: Action)
    requires Enabled(cap, s, a) && Actor(a).Some?
    ensures var t := Apply(cap, s, a);
            !t.crashed ==> Rank(t.workers[Actor(a).value].phase) < Rank(s.workers[Actor(a).value].phase)
  {
  }

  lemma {:induction false} RankStep(cap: nat, s: State, a: Action)
    requires Enabled(cap, s, a) && !s.main.Serving?
    ensures var t := Apply(cap, s, a);
            && !t.main.Serving?
            && (Actor(a).Some? && !t.crashed ==> TotalRank(t.workers) < TotalRank(s.workers))
            && (Actor(a).None? ==> TotalRank(t.workers) == TotalRank(s.workers))
  {
    StepWorkers(cap, s, a);
    if Actor(a).Some? {
      RankAfterUpdate(s.workers, Actor(a).value, Apply(cap, s, a).workers[Actor(a).value]);
      ActorRank(cap, s, a);
    }
  }

  lemma {:induction false} RankZero(ws: seq<Worker>)
    ensures TotalRank(ws) == 0 <==> CountLive(ws) == 0
  {
    if ws != [] {
      RankZero(ws[..|ws| - 1]);
    }
  }

  /**
   * Once the main loop waits for its workers, every worker step lowers the total rank, no other
   * step raises it, and rank 0 is exactly what lets the loop return: shutdown cannot go on for ever.
   */
  lemma {:induction false} ShutdownEnds(cap: nat, acts: seq<Action>, a: Action)
    requires CanRun(cap, acts) && Enabled(cap, Run(cap, acts), a) && !Run(cap, acts).main.Serving?
    ensures var s, t := Run(cap, acts), Apply(cap, Run(cap, acts), a);
            && !t.main.Serving?
            && (Actor(a).Some? && !t.crashed ==> TotalRank(t.workers) < TotalRank(s.workers))
            && (Actor(a).None? ==> TotalRank(t.workers) == TotalRank(s.workers))
            && (s.main.AwaitingWorkers? ==> (Enabled(cap, s, MainReturns) <==> TotalRank(s.workers) == 0))
  {
    RunKeepsInv(cap, acts);
    RankStep(cap, Run(cap, acts), a);
    RankZero(Run(cap, acts).workers);
  }
}
