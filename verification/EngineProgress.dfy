/**
 * What the engine can still do from every state it may be in: fill the queue of warm containers,
 * hand one to a waiting delivery, bring every delivery to its end, and shut down.
 */
module EngineProgress {
  import opened Text
  import opened Engine
  import opened EngineFaults

  // ---- cancellation ----

  lemma {:induction false} StoppingStep(cap: nat, s: State, a: Action)
    requires Enabled(cap, s, a)
    ensures var t := Apply(cap, s, a);
            && (t.ctxDone <==> s.ctxDone || a == Cancel)
            && (t.producer.Stopped? ==> s.producer.Stopped? || s.ctxDone)
            && (t.main.AwaitingWorkers? || t.main.Returned? ==> s.main.AwaitingWorkers? || s.main.Returned? || s.ctxDone)
            && (t.main.Serving? <==> s.main.Serving? && a != MainStops && a != MainSeesClosed)
            && (t.main.LeftOnClosedQueue? ==> s.main.LeftOnClosedQueue? || a == MainSeesClosed)
  {
  }

  /** The context is done exactly after a cancellation; only then have the producer and the main loop stopped. */
  lemma {:induction false} StoppedOnlyAfterCancel(cap: nat, acts: seq<Action>)
    requires CanRun(cap, acts)
    ensures var s := Run(cap, acts);
            && (s.ctxDone <==> Cancel in acts)
            && (s.producer.Stopped? ==> s.ctxDone)
            && (s.main.AwaitingWorkers? || s.main.Returned? ==> s.ctxDone)
            && (s.main.Serving? <==> MainStops !in acts && MainSeesClosed !in acts)
    decreases |acts|
  {
    if acts != [] {
      StoppedOnlyAfterCancel(cap, acts[..|acts| - 1]);
      StoppingStep(cap, Run(cap, acts[..|acts| - 1]), acts[|acts| - 1]);
      InLonger(acts, Cancel);
      InLonger(acts, MainStops);
      InLonger(acts, MainSeesClosed);
    }
  }

  lemma {:induction false} ClosedIsSeen(cap: nat, acts: seq<Action>)
    requires CanRun(cap, acts) && Run(cap, acts).main.LeftOnClosedQueue?
    ensures MainSeesClosed in acts
    decreases |acts|
  {
    InLonger(acts, MainSeesClosed);
    StoppingStep(cap, Run(cap, acts[..|acts| - 1]), acts[|acts| - 1]);
    if acts[|acts| - 1] != MainSeesClosed {
      ClosedIsSeen(cap, acts[..|acts| - 1]);
    }
  }

  predicate WarmIssue(a: Action) {
    a.ProducerIssues?
  }

  /** Whether the producer is past its check of the context but has not taken a slot yet. */
  function Pending(s: State): nat {
    if s.producer.Issuing? then 1 else 0
  }

  lemma {:induction false} IssueStep(cap: nat, s: State, a: Action)
    requires Enabled(cap, s, a) && s.ctxDone
    ensures Apply(cap, s, a).ctxDone && One(WarmIssue(a)) + Pending(Apply(cap, s, a)) <= Pending(s)
  {
  }

  lemma {:induction false} IssuesWhenDone(cap: nat, acts: seq<Action>, more: seq<Action>)
    requires CanRun(cap, acts) && Run(cap, acts).ctxDone && CanRun(cap, acts + more)
    ensures Run(cap, acts + more).ctxDone
    ensures Count(more, WarmIssue) + Pending(Run(cap, acts + more)) <= Pending(Run(cap, acts))
    decreases |more|
  {
    if more == [] {
      assert acts + more == acts;
    } else {
      var init, a := more[..|more| - 1], more[|more| - 1];
      var all := acts + more;
      assert all[..|all| - 1] == acts + init && all[|all| - 1] == a;
      IssuesWhenDone(cap, acts, init);
      IssueStep(cap, Run(cap, acts + init), a);
    }
  }

  /** Once cancelled, the producer takes at most one more slot, and only if it had already passed its check. */
  lemma {:induction false} AtMostOneMoreIssue(cap: nat, acts: seq<Action>, more: seq<Action>)
    requires CanRun(cap, acts) && Cancel in acts && CanRun(cap, acts + more)
    ensures Count(more, WarmIssue) <= if Run(cap, acts).producer.Issuing? then 1 else 0
  {
    StoppedOnlyAfterCancel(cap, acts);
    IssuesWhenDone(cap, acts, more);
  }

  // ---- the producer fills the queue ----

  predicate IsProducers(a: Action) {
    a.ProducerChecks? || a.ProducerIssues? || a.ProducerCreated? || a.ProducerSends?
  }

  ghost predicate ByTheProducer(more: seq<Action>) {
    forall i | 0 <= i < |more| :: IsProducers(more[i])
  }

  function StepsToHold(p: Producer): nat {
    match p
    case AtTop => 3
    case Issuing => 2
    case Creating(_) => 1
    case _ => 0
  }

  /** What the producer alone leaves unchanged. */
  predicate OnlyProduced(s: State, t: State) {
    t == s.(issued := t.issued, producer := t.producer, queue := t.queue, place := t.place)
  }

  /** Uncancelled, the producer comes to hold a container, and has changed nothing else. */
  lemma {:induction false} ComesToHold(cap: nat, acts: seq<Action>, s: State) returns (more: seq<Action>, t: State)
    requires Reaches(cap, acts, s) && !s.crashed && !s.ctxDone && !s.producer.Stopped?
    ensures Reaches(cap, acts + more, t) && ByTheProducer(more)
    ensures t.producer.Holding? && OnlyProduced(s, t) && t.queue == s.queue
    decreases StepsToHold(s.producer)
  {
    if s.producer.Holding? {
      more, t := [], s;
      assert acts + more == acts;
    } else {
      var a := match s.producer case AtTop => ProducerChecks case Issuing => ProducerIssues case _ => ProducerCreated(true);
      ReachesNext(cap, acts, s, a);
      var rest;
      rest, t := ComesToHold(cap, acts + [a], Apply(cap, s, a));
      more := [a] + rest;
      JoinIsAssociative(acts, [a], rest);
    }
  }

  /** With room in the queue, the producer puts one new container into it. */
  lemma {:induction false} AddsOne(cap: nat, acts: seq<Action>, s: State) returns (more: seq<Action>, t: State)
    requires Reaches(cap, acts, s) && !s.crashed && !s.ctxDone && !s.producer.Stopped? && |s.queue| < cap
    ensures Reaches(cap, acts + more, t) && ByTheProducer(more) && OnlyProduced(s, t)
    ensures |t.queue| == |s.queue| + 1 && HasPrefix(t.queue, s.queue) && t.producer.AtTop?
  {
    more, t := ComesToHold(cap, acts, s);
    ReachesNext(cap, acts + more, t, ProducerSends);
    JoinIsAssociative(acts, more, [ProducerSends]);
    more, t := more + [ProducerSends], Apply(cap, t, ProducerSends);
  }

  /** Until it is cancelled the producer can fill the queue, whatever else is going on. */
  lemma {:induction false} QueueCanBeFilled(cap: nat, acts: seq<Action>, s: State) returns (more: seq<Action>, t: State)
    requires Reaches(cap, acts, s) && !s.crashed && Cancel !in acts
    ensures Reaches(cap, acts + more, t) && ByTheProducer(more) && OnlyProduced(s, t)
    ensures |t.queue| == cap && HasPrefix(t.queue, s.queue)
    decreases cap - |s.queue|
  {
    StoppedOnlyAfterCancel(cap, acts);
    RunKeepsInv(cap, acts);
    if |s.queue| == cap {
      more, t := [], s;
      assert acts + more == acts;
    } else {
      var one, next := AddsOne(cap, acts, s);
      assert Cancel !in acts + one;
      var rest;
      rest, t := QueueCanBeFilled(cap, acts + one, next);
      more := one + rest;
      JoinIsAssociative(acts, one, rest);
      assert t.queue[..|s.queue|] == t.queue[..|next.queue|][..|s.queue|];
    }
  }

  // ---- deliveries ----

  /**
   * A delivery that waits for a container can get a warm one: the first in the queue, or, while
   * the producer runs, the next one made, even if the queue has no capacity at all.
   */
  lemma {:induction false} GetsWarmContainer(cap: nat, acts: seq<Action>, s: State, w: nat)
    returns (more: seq<Action>, t: State, c: Serial)
    requires Reaches(cap, acts, s) && !s.crashed && w < |s.workers| && s.workers[w].phase.Choosing?
    requires s.queue != [] || Cancel !in acts
    ensures Reaches(cap, acts + more, t) && |t.workers| == |s.workers|
    ensures t.workers[w].phase == Ready(Some(c)) && t.taken == s.taken + [c]
    ensures s.queue != [] ==> more == [Takes(w)] && c == s.queue[0] && t.queue == s.queue[1..]
    ensures more != [] && (s.queue == [] ==> t.queue == [] && ByTheProducer(more[..|more| - 1]))
  {
    more, t := [], s;
    assert acts + more == acts;
    var a := Takes(w);
    if s.queue == [] {
      StoppedOnlyAfterCancel(cap, acts);
      more, t := ComesToHold(cap, acts, s);
      a := ProducerHandsOver(w);
    }
    ReachesNext(cap, acts + more, t, a);
    JoinIsAssociative(acts, more, [a]);
    assert (more + [a])[..|more|] == more;
    more, t := more + [a], Apply(cap, t, a);
    c := t.workers[w].phase.c.value;
  }

  /** While the main loop serves, a delivery that comes in gets a worker of its own. */
  lemma {:induction false} DeliveryGetsWorker(cap: nat, acts: seq<Action>, s: State)
    requires Reaches(cap, acts, s) && !s.crashed && MainStops !in acts && MainSeesClosed !in acts
    ensures Reaches(cap, acts + [MainReceives], s.(workers := s.workers + [Worker(Choosing, true, [])], wg := s.wg + 1))
  {
    StoppedOnlyAfterCancel(cap, acts);
    ReachesNext(cap, acts, s, MainReceives);
  }

  /** Every delivery under way can be brought to its end, with an Ack if its job spec parses. */
  lemma {:induction false} DeliveryCanEnd(cap: nat, acts: seq<Action>, s: State, w: nat) returns (more: seq<Action>, t: State)
    requires Reaches(cap, acts, s) && !s.crashed && w < |s.workers|
    ensures Reaches(cap, acts + more, t) && !t.crashed && |t.workers| == |s.workers| && t.workers[w].phase.Finished?
    ensures t.workers[w].parsed == s.workers[w].parsed
    ensures BeforeParsing(s.workers[w].phase) ==> t.workers[w].settled == [Ack]
    ensures forall v | 0 <= v < |s.workers| && v != w :: t.workers[v] == s.workers[v]
    decreases Rank(s.workers[w].phase)
  {
    RunKeepsInv(cap, acts);
    assert WorkerOk(s.workers[w], s.failures);
    if s.workers[w].Live() {
      var a := LiveWorkerCanStep(cap, s, w);
      ReachesNext(cap, acts, s, a);
      StepWorkers(cap, s, a);
      ActorRank(cap, s, a);
      var next := Apply(cap, s, a);
      var rest;
      rest, t := DeliveryCanEnd(cap, acts + [a], next, w);
      more := [a] + rest;
      JoinIsAssociative(acts, [a], rest);
      DeliveryIsSettled(cap, acts + more, w);
    } else {
      more, t := [], s;
      assert acts + more == acts;
    }
  }

  // ---- shutdown ----

  /** After a cancellation the producer can stop; a container it still makes is deleted. */
  lemma {:induction false} ProducerCanStop(cap: nat, acts: seq<Action>, s: State) returns (more: seq<Action>, t: State)
    requires Reaches(cap, acts, s) && !s.crashed && s.ctxDone
    ensures Reaches(cap, acts + more, t) && t.producer.Stopped?
    ensures t == s.(producer := Stopped, issued := t.issued, place := t.place, deleted := t.deleted)
    ensures s.deleted <= t.deleted && (s.producer.Holding? ==> s.producer.made in t.deleted)
    ensures |t.deleted - s.deleted| <= 1
    decreases if s.producer.AtTop? then 1 else StepsToHold(s.producer) + 1
  {
    if s.producer.Stopped? {
      more, t := [], s;
      assert acts + more == acts;
      assert t.deleted - s.deleted == {};
    } else {
      var a := match s.producer
               case AtTop => ProducerChecks
               case Issuing => ProducerIssues
               case Creating(_) => ProducerCreated(true)
               case _ => ProducerGivesUp;
      ReachesNext(cap, acts, s, a);
      var next := Apply(cap, s, a);
      if next.producer.Stopped? {
        more, t := [a], next;
        assert t.deleted - s.deleted <= if s.producer.Holding? then {s.producer.made} else {};
      } else {
        var rest;
        rest, t := ProducerCanStop(cap, acts + [a], next);
        more := [a] + rest;
        JoinIsAssociative(acts, [a], rest);
      }
    }
  }

  lemma {:induction false} SomeoneIsLive(ws: seq<Worker>) returns (w: nat)
    requires CountLive(ws) > 0
    ensures w < |ws| && ws[w].Live()
  {
    NoneLive(ws);
    w :| w < |ws| && ws[w].Live();
  }

  lemma {:induction false} WaitingStep(cap: nat, s: State, w: nat) returns (a: Action)
    requires !s.crashed && s.main.AwaitingWorkers? && w < |s.workers| && s.workers[w].Live()
    ensures Enabled(cap, s, a)
    ensures var t := Apply(cap, s, a);
            && !t.crashed && t.main == s.main && |t.workers| == |s.workers| && TotalRank(t.workers) < TotalRank(s.workers)
            && (s.producer.Stopped? ==> t.producer.Stopped?)
  {
    a := LiveWorkerCanStep(cap, s, w);
    StepWorkers(cap, s, a);
    RankStep(cap, s, a);
  }

  /** While the main loop waits, the workers can all come to their end. */
  lemma {:induction false} WorkersCanEnd(cap: nat, acts: seq<Action>, s: State) returns (more: seq<Action>, t: State)
    requires Reaches(cap, acts, s) && !s.crashed && s.main.AwaitingWorkers?
    ensures Reaches(cap, acts + more, t) && !t.crashed && t.main.AwaitingWorkers? && CountLive(t.workers) == 0
    ensures (s.producer.Stopped? ==> t.producer.Stopped?) && |t.workers| == |s.workers|
    decreases TotalRank(s.workers)
  {
    if CountLive(s.workers) == 0 {
      more, t := [], s;
      assert acts + more == acts;
    } else {
      var w := SomeoneIsLive(s.workers);
      var a := WaitingStep(cap, s, w);
      ReachesNext(cap, acts, s, a);
      var rest;
      rest, t := WorkersCanEnd(cap, acts + [a], Apply(cap, s, a));
      more := [a] + rest;
      JoinIsAssociative(acts, [a], rest);
    }
  }

  /** After a cancellation the main loop can come to return. */
  lemma {:induction false} CancelledCanComplete(cap: nat, acts: seq<Action>, s: State) returns (more: seq<Action>, t: State)
    requires Reaches(cap, acts, s) && !s.crashed && s.ctxDone && !s.main.LeftOnClosedQueue?
    ensures Reaches(cap, acts + more, t) && t.main.Returned? && t.producer.Stopped?
    ensures |t.workers| == |s.workers| && forall w | 0 <= w < |t.workers| :: t.workers[w].phase.Finished?
  {
    RunKeepsInv(cap, acts);
    var rest;
    more, t := ProducerCanStop(cap, acts, s);
    if t.main.Serving? {
      ReachesNext(cap, acts + more, t, MainStops);
      JoinIsAssociative(acts, more, [MainStops]);
      more, t := more + [MainStops], Apply(cap, t, MainStops);
    }
    if t.main.AwaitingWorkers? {
      rest, t := WorkersCanEnd(cap, acts + more, t);
      JoinIsAssociative(acts, more, rest);
      more := more + rest;
      RunKeepsInv(cap, acts + more);
      ReachesNext(cap, acts + more, t, MainReturns);
      JoinIsAssociative(acts, more, [MainReturns]);
      more, t := more + [MainReturns], Apply(cap, t, MainReturns);
    }
    NoneLive(t.workers);
  }

  /**
   * Graceful shutdown is always possible: in every live state the context can be cancelled, and
   * then the main loop, unless it has left on a closed queue, can return with the producer stopped
   * and no worker live, and no delivery is dropped on the way.
   */
  lemma {:induction false} ShutdownCanComplete(cap: nat, acts: seq<Action>, s: State) returns (more: seq<Action>, t: State)
    requires Reaches(cap, acts, s) && !s.crashed && MainSeesClosed !in acts
    ensures Reaches(cap, acts + [Cancel] + more, t) && t.main.Returned? && t.producer.Stopped?
    ensures |t.workers| == |s.workers| && forall w | 0 <= w < |t.workers| :: t.workers[w].phase.Finished?
  {
    if s.main.LeftOnClosedQueue? {
      ClosedIsSeen(cap, acts);
    }
    ReachesNext(cap, acts, s, Cancel);
    more, t := CancelledCanComplete(cap, acts + [Cancel], s.(ctxDone := true));
  }
}
