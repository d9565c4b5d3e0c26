/** The two runs of the engine that end badly: a nil container, and a job spec that does not parse. */
module EngineFaults {
  import opened Text
  import opened Engine

  lemma {:induction false} RunNext(cap: nat, acts: seq<Action>, a: Action)
    requires CanRun(cap, acts) && Enabled(cap, Run(cap, acts), a)
    ensures CanRun(cap, acts + [a]) && Run(cap, acts + [a]) == Apply(cap, Run(cap, acts), a)
  {
    var all := acts + [a];
    assert all[..|all| - 1] == acts && all[|all| - 1] == a && all != [];
  }

  /** Appending x to a history: what is in it was there before or is x. */
  lemma {:induction false} InLonger(acts: seq<Action>, a: Action)
    requires acts != []
    ensures a in acts <==> a in acts[..|acts| - 1] || a == acts[|acts| - 1]
  {
    assert acts == acts[..|acts| - 1] + [acts[|acts| - 1]];
  }

  // ---- the nil container ----

  /** Worker w has a container variable to work with, and it is nil. */
  predicate IsNil(s: State, w: nat) {
    && w < |s.workers|
    && (s.workers[w].phase.Ready? || !BeforeParsing(s.workers[w].phase))
    && s.workers[w].phase.c.None?
  }

  lemma {:induction false} ActorNil(cap: nat, s: State, a: Action, w: nat)
    requires Enabled(cap, s, a) && Actor(a) == Some(w)
    ensures IsNil(Apply(cap, s, a), w) <==> IsNil(s, w) || a == Created(w, false)
  {
  }

  lemma {:induction false} StepNil(cap: nat, s: State, a: Action, w: nat)
    requires Enabled(cap, s, a)
    ensures IsNil(Apply(cap, s, a), w) <==> IsNil(s, w) || a == Created(w, false)
  {
    StepWorkers(cap, s, a);
    if Actor(a) == Some(w) {
      ActorNil(cap, s, a, w);
    }
  }

  /** A worker's container is nil exactly if its own on-demand creation failed. */
  lemma {:induction false} NilIffOwnCreationFailed(cap: nat, acts: seq<Action>, w: nat)
    requires CanRun(cap, acts)
    ensures IsNil(Run(cap, acts), w) <==> Created(w, false) in acts
    decreases |acts|
  {
    if acts != [] {
      var init, a := acts[..|acts| - 1], acts[|acts| - 1];
      NilIffOwnCreationFailed(cap, init, w);
      StepNil(cap, Run(cap, init), a, w);
      InLonger(acts, Created(w, false));
    }
  }

  // ---- the crash ----

  lemma {:induction false} StepCrash(cap: nat, s: State, a: Action)
    requires Enabled(cap, s, a)
    ensures Apply(cap, s, a).crashed <==> a.OrchestrationEnds? && a.usesContainer && IsNil(s, a.w)
  {
  }

  predicate IsPast(s: State, w: nat) {
    w < |s.workers| && PastOrchestration(s.workers[w].phase)
  }

  lemma {:induction false} StaysPast(cap: nat, s: State, a: Action, w: nat)
    requires Enabled(cap, s, a) && (IsPast(s, w) || EndsOrchestration(a, w))
    ensures Apply(cap, s, a).crashed || IsPast(Apply(cap, s, a), w)
  {
    StepWorkers(cap, s, a);
  }

  /** An orchestration that ended has crashed the runner or let its worker go on. */
  lemma {:induction false} EndedIsPast(cap: nat, acts: seq<Action>, x: Action)
    requires CanRun(cap, acts) && x.OrchestrationEnds? && x in acts
    ensures Run(cap, acts).crashed || IsPast(Run(cap, acts), x.w)
    decreases |acts|
  {
    var init, a := acts[..|acts| - 1], acts[|acts| - 1];
    InLonger(acts, x);
    if a != x {
      EndedIsPast(cap, init, x);
    }
    StaysPast(cap, Run(cap, init), a, x.w);
  }

  /** Worker w's own creation failed, and its orchestration got as far as using the container. */
  predicate UsedNil(acts: seq<Action>, w: nat) {
    Created(w, false) in acts && OrchestrationEnds(w, true) in acts
  }

  lemma {:induction false} CrashStep(cap: nat, acts: seq<Action>, w: nat)
    requires CanRun(cap, acts) && UsedNil(acts, w)
    ensures Run(cap, acts).crashed
    decreases |acts|
  {
    var init, a := acts[..|acts| - 1], acts[|acts| - 1];
    var s := Run(cap, init);
    InLonger(acts, Created(w, false));
    InLonger(acts, OrchestrationEnds(w, true));
    NilIffOwnCreationFailed(cap, init, w);
    StepCrash(cap, s, a);
    if OrchestrationEnds(w, true) in init {
      EndedIsPast(cap, init, OrchestrationEnds(w, true));
      assert !s.crashed && IsPast(s, w);
      assert a != Created(w, false);
      CrashStep(cap, init, w);
    }
  }

  /**
   * The runner has crashed exactly if some worker whose own on-demand creation failed got its
   * orchestration as far as using the container. Failed warm creations never crash it.
   */
  lemma {:induction false} CrashIffNilUsed(cap: nat, acts: seq<Action>)
    requires CanRun(cap, acts)
    ensures Run(cap, acts).crashed <==> exists w :: UsedNil(acts, w)
  {
    if w :| UsedNil(acts, w) {
      CrashStep(cap, acts, w);
    }
    if acts != [] && Run(cap, acts).crashed {
      var init, a := acts[..|acts| - 1], acts[|acts| - 1];
      StepCrash(cap, Run(cap, init), a);
      NilIffOwnCreationFailed(cap, init, a.w);
      assert UsedNil(acts, a.w);
    }
  }

  /** In particular a crash needs a failed creation, and one of a worker's own. */
  lemma {:induction false} CrashNeedsFailedCreation(cap: nat, acts: seq<Action>)
    requires CanRun(cap, acts) && Run(cap, acts).crashed
    ensures Count(acts, Fails) > 0 && exists w :: Created(w, false) in acts
  {
    RunKeepsInv(cap, acts);
    HistoryOf(cap, acts);
    CrashIffNilUsed(cap, acts);
    var w :| UsedNil(acts, w);
    assert Created(w, false) in acts;
  }

  /** While the orchestration of such a worker has not returned, the runner may still crash. */
  lemma {:induction false} CrashStaysPossible(cap: nat, acts: seq<Action>, w: nat) returns (more: seq<Action>)
    requires CanRun(cap, acts) && !Run(cap, acts).crashed
    requires Created(w, false) in acts && !IsPast(Run(cap, acts), w)
    ensures CanRun(cap, acts + more) && Run(cap, acts + more).crashed
  {
    NilIffOwnCreationFailed(cap, acts, w);
    var s := Run(cap, acts);
    more := if s.workers[w].phase.Ready? then [Parses(w, true)]
            else if s.workers[w].phase.Refused? then [NacksAgain(w)]
            else [];
    if more == [] {
      assert acts + more == acts;
    } else {
      RunNext(cap, acts, more[0]);
      StepNil(cap, s, more[0], w);
      assert acts + more == acts + [more[0]];
    }
    var t := Run(cap, acts + more);
    assert IsNil(t, w) && t.workers[w].phase.Orchestrating? && !t.crashed;
    RunNext(cap, acts + more, OrchestrationEnds(w, true));
    StepCrash(cap, t, OrchestrationEnds(w, true));
    JoinIsAssociative(acts, more, [OrchestrationEnds(w, true)]);
    more := more + [OrchestrationEnds(w, true)];
  }

  /** The first delivery can end up with any outcome of its on-demand creation. */
  function OnDemand(ok: bool): seq<Action> {
    [MainReceives] + [TimesOut(0)] + [Issues(0)] + [Created(0, ok)]
  }

  ghost predicate Reaches(cap: nat, acts: seq<Action>, s: State) {
    CanRun(cap, acts) && Run(cap, acts) == s
  }

  lemma {:induction false} ReachesNext(cap: nat, acts: seq<Action>, s: State, a: Action)
    requires Reaches(cap, acts, s) && Enabled(cap, s, a)
    ensures Reaches(cap, acts + [a], Apply(cap, s, a))
  {
    RunNext(cap, acts, a);
  }

  /** The state of one worker at a program point, with so many slots issued. */
  function OneWorker(p: Phase, issued: nat): State {
    INIT.(workers := [Worker(p, true, [])], wg := 1, issued := issued)
  }

  lemma {:induction false} ReceivesFirst(cap: nat)
    ensures Reaches(cap, [MainReceives], OneWorker(Choosing, 0))
  {
    assert [] + [MainReceives] == [MainReceives];
    ReachesNext(cap, [], INIT, MainReceives);
    assert INIT.workers + [Worker(Choosing, true, [])] == [Worker(Choosing, true, [])];
  }

  lemma {:induction false} TakesSlot(cap: nat, acts: seq<Action>)
    requires Reaches(cap, acts, OneWorker(Choosing, 0))
    ensures Reaches(cap, acts + [TimesOut(0)] + [Issues(0)], OneWorker(SlotCreating(1), 1))
  {
    ReachesNext(cap, acts, OneWorker(Choosing, 0), TimesOut(0));
    assert Apply(cap, OneWorker(Choosing, 0), TimesOut(0)) == OneWorker(SlotIssuing, 0);
    ReachesNext(cap, acts + [TimesOut(0)], OneWorker(SlotIssuing, 0), Issues(0));
    assert Apply(cap, OneWorker(SlotIssuing, 0), Issues(0)) == OneWorker(SlotCreating(1), 1);
  }

  lemma {:induction false} OnDemandRuns(cap: nat, ok: bool)
    ensures CanRun(cap, OnDemand(ok))
    ensures var s := Run(cap, OnDemand(ok));
            !s.crashed && s.workers == [Worker(Ready(if ok then Some(1) else None), true, [])]
  {
    ReceivesFirst(cap);
    TakesSlot(cap, [MainReceives]);
    ReachesNext(cap, [MainReceives] + [TimesOut(0)] + [Issues(0)], OneWorker(SlotCreating(1), 1), Created(0, ok));
  }

  /** A run that crashes, whatever the capacity of the queue. */
  lemma {:induction false} RunThatCrashes(cap: nat) returns (acts: seq<Action>)
    ensures acts == OnDemand(false) + [Parses(0, true)] + [OrchestrationEnds(0, true)]
    ensures CanRun(cap, acts) && Run(cap, acts).crashed
  {
    OnDemandRuns(cap, false);
    RunNext(cap, OnDemand(false), Parses(0, true));
    acts := OnDemand(false) + [Parses(0, true)] + [OrchestrationEnds(0, true)];
    RunNext(cap, OnDemand(false) + [Parses(0, true)], OrchestrationEnds(0, true));
  }

  // ---- the job spec that does not parse ----

  /** After this live run worker w is x. */
  ghost predicate At(cap: nat, acts: seq<Action>, w: nat, x: Worker) {
    CanRun(cap, acts) && !Run(cap, acts).crashed && w < |Run(cap, acts).workers| && Run(cap, acts).workers[w] == x
  }

  /** The worker after the next of the steps above. */
  function Next(x: Worker): Worker {
    match x.phase
    case Ready(c) => Worker(Refused(c), false, x.settled + [Nack(false)])
    case Refused(c) => Worker(Orchestrating(c), x.parsed, x.settled + [Nack(true)])
    case Orchestrating(c) => Worker(OrchestrationOver(c), x.parsed, x.settled)
    case OrchestrationOver(c) => Worker(Acked(c), x.parsed, x.settled + [Ack])
    case Acked(c) => Worker(Finished(c), x.parsed, x.settled)
    case _ => x
  }

  function StepOf(p: Phase, w: nat): Action {
    match p
    case Ready(_) => Parses(w, false)
    case Refused(_) => NacksAgain(w)
    case Orchestrating(_) => OrchestrationEnds(w, false)
    case OrchestrationOver(_) => Acks(w)
    case _ => SignalsDone(w)
  }

  lemma {:induction false} Advances(cap: nat, acts: seq<Action>, w: nat, x: Worker)
    requires At(cap, acts, w, x) && (x.phase.Ready? || !BeforeParsing(x.phase)) && !x.phase.Finished?
    ensures At(cap, acts + [StepOf(x.phase, w)], w, Next(x))
  {
    RunNext(cap, acts, StepOf(x.phase, w));
    StepCrash(cap, Run(cap, acts), StepOf(x.phase, w));
  }

  predicate UnderWay(p: Phase) {
    (p.Ready? || !BeforeParsing(p)) && !p.Finished?
  }

  /** The steps a worker has left to take, and the worker after them. */
  function Rest(x: Worker, w: nat): seq<Action>
    decreases Rank(x.phase)
  {
    if UnderWay(x.phase) then [StepOf(x.phase, w)] + Rest(Next(x), w) else []
  }

  function Last(x: Worker): Worker
    decreases Rank(x.phase)
  {
    if UnderWay(x.phase) then Last(Next(x)) else x
  }

  lemma {:induction false} RunsOn(cap: nat, acts: seq<Action>, w: nat, x: Worker)
    requires At(cap, acts, w, x)
    ensures At(cap, acts + Rest(x, w), w, Last(x))
    decreases Rank(x.phase)
  {
    if UnderWay(x.phase) {
      var a := StepOf(x.phase, w);
      Advances(cap, acts, w, x);
      RunsOn(cap, acts + [a], w, Next(x));
      JoinIsAssociative(acts, [a], Rest(Next(x), w));
    } else {
      assert acts + Rest(x, w) == acts;
    }
  }

  lemma {:induction false} LastOfUnparsed(c: Option<Serial>, parsed: bool)
    ensures Last(Worker(Ready(c), parsed, [])) == Worker(Finished(c), false, [Nack(false), Nack(true), Ack])
  {
    var one := Next(Worker(Ready(c), parsed, []));
    var two := Next(one);
    var three := Next(two);
    var four := Next(three);
    assert four == Worker(Acked(c), false, [Nack(false), Nack(true), Ack]);
    assert Last(four) == Last(Next(four)) == Next(four);
    assert Last(one) == Last(two) == Last(three) == Last(four);
  }

  lemma {:induction false} NothingSettledYet(cap: nat, acts: seq<Action>, w: nat)
    requires CanRun(cap, acts) && w < |Run(cap, acts).workers| && Run(cap, acts).workers[w].phase.Ready?
    ensures Run(cap, acts).workers[w].settled == []
  {
    RunKeepsInv(cap, acts);
    assert WorkerOk(Run(cap, acts).workers[w], Run(cap, acts).failures);
  }

  /** From any live run, a delivery about to be parsed can end in two Nacks and an Ack. */
  lemma {:induction false} UnparsedIsAckedToo(cap: nat, acts: seq<Action>, w: nat)
    requires CanRun(cap, acts) && !Run(cap, acts).crashed
    requires w < |Run(cap, acts).workers| && Run(cap, acts).workers[w].phase.Ready?
    ensures var x := Run(cap, acts).workers[w];
            var more := Rest(x, w);
            && CanRun(cap, acts + more) && w < |Run(cap, acts + more).workers|
            && Run(cap, acts + more).workers[w] == Worker(Finished(x.phase.c), false, [Nack(false), Nack(true), Ack])
  {
    var x := Run(cap, acts).workers[w];
    NothingSettledYet(cap, acts, w);
    RunsOn(cap, acts, w, x);
    LastOfUnparsed(x.phase.c, x.parsed);
  }

  /** A run in which it does, whatever the capacity of the queue. */
  lemma {:induction false} RunWithUnparsed(cap: nat) returns (acts: seq<Action>)
    ensures CanRun(cap, acts) && Run(cap, acts).workers != []
    ensures Run(cap, acts).workers[0] == Worker(Finished(Some(1)), false, [Nack(false), Nack(true), Ack])
  {
    OnDemandRuns(cap, true);
    var x := Run(cap, OnDemand(true)).workers[0];
    UnparsedIsAckedToo(cap, OnDemand(true), 0);
    acts := OnDemand(true) + Rest(x, 0);
  }
}
