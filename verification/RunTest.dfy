/**
 * ajagent/internal/runtest.go: `runTestCase`, the race between the deadline, the output limit
 * and the end of the process, as a step relation.
 *
 * The process writes into two pipes; two copying goroutines hand chunks of any size to the
 * two limit writers; the deadline fires at any moment; `cmd.Wait` returns only after the process
 * has ended and both pipes were copied to their end. Once both branches of the `select`
 * are ready either may be taken.
 */
module RunTest {
  import opened Text
  import opened Verdicts
  import opened SignalHandler
  import opened LimitWriter
  import opened Whitespace

  /** The parts of the execution spec and the test that matter here. */
  datatype Config = Config(logLimitKB: nat, memoryLimitMB: nat, expected: seq<byte>, index: nat) {
    function Limit(): nat {
      logLimitKB * 1000
    }
  }

  /** One output stream: what the process wrote, and the chunks its writer was handed so far. */
  datatype Stream = Stream(produced: seq<byte>, chunks: seq<seq<byte>>, eof: bool) {
    function Copied(): seq<byte> {
      Concat(chunks)
    }

    function Writer(cfg: Config): Writer {
      After(cfg.Limit(), true, chunks)
    }

    predicate Flagged(cfg: Config) {
      Writer(cfg).limitReached
    }

    /** The next n bytes are handed to the writer. */
    function Handed(n: nat): Stream
      requires |Copied()| + n <= |produced|
    {
      this.(chunks := chunks + [produced[|Copied()|..|Copied()| + n]])
    }

    predicate Drained() {
      eof && Copied() == produced
    }
  }

  /** Which return statement ended it: after `done` delivered, or which of the deadline branch's checks. */
  datatype Ending = ByWait | ByStdoutCheck | ByStderrCheck | ByDeadline

  /** Where the `select` stands. The deadline branch reads the two flags one after the other. */
  datatype Phase =
    | Selecting
    | ContextBranch(stdoutClear: bool)
    | Finished(info: RuntimeInfo, end: Ending)

  datatype State = State(
    out: Stream,
    err: Stream,
    ctxDone: bool,
    timerFired: bool,
    exit: Option<Exit>,
    waited: Option<WaitError>,
    phase: Phase,
    flaggedAtPick: bool)

  datatype Action =
    | Produce(toErr: bool, bytes: seq<byte>)
    | Copy(toErr: bool, n: nat)
    | CloseEnd(toErr: bool)
    | Timer
    | EndProcess(how: Exit)
    | WaitReturns(result: WaitError)
    | PickContext
    | CheckStdout
    | CheckStderr
    | PickDone

  const INIT: State :=
    State(Stream([], [], false), Stream([], [], false), false, false, None, None, Selecting, false)

  function Pick(s: State, toErr: bool): Stream {
    if toErr then s.err else s.out
  }

  function WithStream(s: State, toErr: bool, t: Stream): State {
    if toErr then s.(err := t) else s.(out := t)
  }

  predicate AnyFlag(cfg: Config, s: State) {
    s.out.Flagged(cfg) || s.err.Flagged(cfg)
  }

  /** What `cmd.Wait` may return: an exit status other than 0 wins over every other error. */
  predicate WaitMayReturn(exit: Exit, result: WaitError) {
    if exit.status == Code(0) then !result.ExitError? else result == ExitError(exit)
  }

  predicate Enabled(s: State, a: Action) {
    && !s.phase.Finished?
    && match a
       case Produce(toErr, bytes) => !Pick(s, toErr).eof
       case Copy(toErr, n) =>
         var t := Pick(s, toErr);
         0 < n && |t.Copied()| + n <= |t.produced|
       case CloseEnd(_) => true
       case Timer => true
       case EndProcess(_) => s.exit.None?
       case WaitReturns(result) =>
         s.exit.Some? && s.waited.None? && s.out.Drained() && s.err.Drained() && WaitMayReturn(s.exit.value, result)
       case PickContext => s.phase.Selecting? && s.ctxDone
       case CheckStdout => s.phase == ContextBranch(false)
       case CheckStderr => s.phase == ContextBranch(true)
       case PickDone => s.phase.Selecting? && s.waited.Some?
  }

  function Info(cfg: Config, s: State, verdict: string, details: string): RuntimeInfo {
    RuntimeInfo(verdict, s.out.Writer(cfg).buf, s.err.Writer(cfg).buf, details)
  }

  const TOO_MUCH := "Code attempted to write too much"

  /** The branch taken when `done` delivers, and the output comparison after it. */
  function DoneInfo(cfg: Config, s: State): RuntimeInfo
    requires s.waited.Some?
  {
    if AnyFlag(cfg, s) then Info(cfg, s, OLE, TOO_MUCH)
    else if s.waited.value != NoError then
      var cause := Classify(cfg.memoryLimitMB, s.waited.value);
      Info(cfg, s, if cause.isSignal then cause.verdict else RE, cause.details)
    else if TrimSpace(s.out.Writer(cfg).buf) != TrimSpace(cfg.expected) then
      Info(cfg, s, WrongText(cfg.index), "Output mismatch against expected testcase answers")
    else Info(cfg, s, PassText(cfg.index), "Output matched expectation")
  }

  function Apply(cfg: Config, s: State, a: Action): State
    requires Enabled(s, a)
  {
    match a
    case Produce(toErr, bytes) =>
      var t := Pick(s, toErr);
      WithStream(s, toErr, t.(produced := t.produced + bytes))
    case Copy(toErr, n) =>
      var t := Pick(s, toErr);
      var cancelled := t.Handed(n).Writer(cfg).cancels > t.Writer(cfg).cancels;
      WithStream(s, toErr, t.Handed(n)).(ctxDone := s.ctxDone || cancelled)
    case CloseEnd(toErr) => WithStream(s, toErr, Pick(s, toErr).(eof := true))
    case Timer => s.(ctxDone := true, timerFired := true)
    case EndProcess(how) => s.(exit := Some(how))
    case WaitReturns(result) => s.(waited := Some(result))
    case PickContext => s.(phase := ContextBranch(false), flaggedAtPick := AnyFlag(cfg, s))
    case CheckStdout =>
      if s.out.Flagged(cfg) then s.(phase := Finished(Info(cfg, s, OLE, TOO_MUCH), ByStdoutCheck))
      else s.(phase := ContextBranch(true))
    case CheckStderr =>
      if s.err.Flagged(cfg) then s.(phase := Finished(Info(cfg, s, OLE, TOO_MUCH), ByStderrCheck))
      else s.(phase := Finished(Info(cfg, s, TLE, "Code tried to run for too long"), ByDeadline))
    case PickDone => s.(phase := Finished(DoneInfo(cfg, s), ByWait), flaggedAtPick := AnyFlag(cfg, s))
  }

  // ---- runs ----

  /** The states a schedule leads through exist: every action is enabled when its turn comes. */
  ghost predicate CanRun(cfg: Config, acts: seq<Action>)
    decreases |acts|, 0
  {
    acts == [] || (CanRun(cfg, acts[..|acts| - 1]) && Enabled(Run(cfg, acts[..|acts| - 1]), acts[|acts| - 1]))
  }

  ghost function Run(cfg: Config, acts: seq<Action>): State
    requires CanRun(cfg, acts)
    decreases |acts|, 1
  {
    if acts == [] then INIT else Apply(cfg, Run(cfg, acts[..|acts| - 1]), acts[|acts| - 1])
  }

  // ---- the invariant ----

  ghost predicate StreamOk(t: Stream) {
    HasPrefix(t.produced, t.Copied())
  }

  ghost predicate WaitOk(s: State) {
    s.waited.Some? ==>
      && s.exit.Some?
      && s.out.Drained() && s.err.Drained()
      && WaitMayReturn(s.exit.value, s.waited.value)
  }

  /** The context is done only by the deadline or by a writer at its limit. */
  ghost predicate ContextOk(cfg: Config, s: State) {
    && (s.ctxDone ==> s.timerFired || AnyFlag(cfg, s))
    && (s.phase.ContextBranch? ==>
          && s.ctxDone
          && (s.flaggedAtPick ==> AnyFlag(cfg, s))
          && (s.phase.stdoutClear ==> (s.flaggedAtPick ==> s.err.Flagged(cfg)) && (s.timerFired || s.err.Flagged(cfg))))
  }

  predicate EndedBy(s: State, sig: nat) {
    s.exit.Some? && s.exit.value.status == Signal(sig)
  }

  predicate PeakOver(cfg: Config, s: State) {
    s.exit.Some? && OverThreshold(PeakMemBytes(s.exit.value), cfg.memoryLimitMB)
  }

  /** The process ended with status 0, and its whole stdout is in the buffer. */
  ghost predicate RanCleanly(cfg: Config, s: State) {
    && s.exit.Some? && s.exit.value.status == Code(0)
    && !AnyFlag(cfg, s)
    && s.out.Writer(cfg).buf == s.out.produced
  }

  /** What the checks of the deadline branch read. */
  ghost predicate EndingOk(cfg: Config, s: State, end: Ending) {
    match end
    case ByWait => s.waited.Some? && s.flaggedAtPick == AnyFlag(cfg, s)
    case ByStdoutCheck => s.out.Flagged(cfg)
    case ByStderrCheck => s.err.Flagged(cfg)
    case ByDeadline => s.timerFired && !s.err.Flagged(cfg)
  }

  /** Exactly when each verdict is given. */
  ghost predicate Justified(cfg: Config, s: State, info: RuntimeInfo, end: Ending) {
    var v, byWait := info.verdict, end.ByWait?;
    && EndingOk(cfg, s, end)
    && (s.flaggedAtPick ==> v == OLE)
    && (v == OLE <==> end.ByStdoutCheck? || end.ByStderrCheck? || (byWait && (AnyFlag(cfg, s) || EndedBy(s, SIGPIPE))))
    && (v == TLE <==> end.ByDeadline? || (byWait && !AnyFlag(cfg, s) && EndedBy(s, SIGKILL) && !PeakOver(cfg, s)))
    && (v == MLE <==> byWait && !AnyFlag(cfg, s) && EndedBy(s, SIGKILL) && PeakOver(cfg, s))
    && (v == RE <==> byWait && !AnyFlag(cfg, s) && s.waited != Some(NoError) && !EndedBy(s, SIGPIPE) && !EndedBy(s, SIGKILL))
    && (v == PassText(cfg.index) <==>
          byWait && s.waited == Some(NoError) && !AnyFlag(cfg, s) &&
          EqualUpToSurroundingSpace(s.out.produced, cfg.expected))
    && (v == WrongText(cfg.index) <==>
          byWait && s.waited == Some(NoError) && !AnyFlag(cfg, s) &&
          !EqualUpToSurroundingSpace(s.out.produced, cfg.expected))
    && (v == PassText(cfg.index) || v == WrongText(cfg.index) ==> RanCleanly(cfg, s))
    && (v == OLE || v == TLE || v == MLE || v == RE || v == PassText(cfg.index) || v == WrongText(cfg.index))
    && info.stdout == s.out.Writer(cfg).buf && info.stderr == s.err.Writer(cfg).buf
  }

  /** What the report says besides the verdict, for every way to end. */
  ghost predicate Explained(cfg: Config, s: State, info: RuntimeInfo, end: Ending) {
    match end
    case ByStdoutCheck => info.details == "Code attempted to write too much"
    case ByStderrCheck => info.details == "Code attempted to write too much"
    case ByDeadline => info.details == "Code tried to run for too long"
    case ByWait =>
      && (AnyFlag(cfg, s) ==> info.details == "Code attempted to write too much")
      && (!AnyFlag(cfg, s) ==>
            match s.waited
            case None => false
            case Some(NoError) =>
              info.details == if EqualUpToSurroundingSpace(s.out.produced, cfg.expected)
                              then "Output matched expectation" else "Output mismatch against expected testcase answers"
            case Some(OtherError(text)) => info.details == text
            case Some(ExitError(exit)) => info.details == Classify(cfg.memoryLimitMB, ExitError(exit)).details)
  }

  ghost predicate Inv(cfg: Config, s: State) {
    && StreamOk(s.out) && StreamOk(s.err)
    && WaitOk(s)
    && ContextOk(cfg, s)
    && (s.phase.Finished? ==> Justified(cfg, s, s.phase.info, s.phase.end) && Explained(cfg, s, s.phase.info, s.phase.end))
  }

  // ---- preservation, action by action ----

  lemma {:induction false} CopyMore(t: Stream, n: nat)
    requires StreamOk(t) && |t.Copied()| + n <= |t.produced|
    ensures StreamOk(t.Handed(n))
  {
    var at := |t.Copied()|;
    ConcatPushes(t.chunks, t.produced[at..at + n]);
    assert t.produced[..at + n] == t.produced[..at] + t.produced[at..at + n];
  }

  /** Copying more never lowers a flag; it calls cancel exactly when it raises one. */
  lemma {:induction false} CopyFlags(cfg: Config, t: Stream, n: nat)
    requires 0 < n && |t.Copied()| + n <= |t.produced|
    ensures t.Flagged(cfg) ==> t.Handed(n).Flagged(cfg)
    ensures t.Handed(n).Writer(cfg).cancels > t.Writer(cfg).cancels <==> t.Handed(n).Flagged(cfg) && !t.Flagged(cfg)
  {
    var p := t.produced[|t.Copied()|..|t.Copied()| + n];
    OneMoreWrite(cfg.Limit(), true, t.chunks, p);
    AfterHolds(cfg.Limit(), true, t.chunks);
    AfterHolds(cfg.Limit(), true, t.chunks + [p]);
  }

  lemma {:induction false} BuffersAreBounded(cfg: Config, t: Stream)
    ensures |t.Writer(cfg).buf| <= cfg.Limit()
    ensures !t.Flagged(cfg) ==> t.Writer(cfg).buf == t.Copied()
  {
    AfterHolds(cfg.Limit(), true, t.chunks);
    if !t.Flagged(cfg) {
      NothingLostBelowLimit(cfg.Limit(), true, t.chunks);
    }
  }

  lemma {:induction false} CopyKeepsContext(cfg: Config, s: State, toErr: bool, n: nat)
    requires ContextOk(cfg, s) && Enabled(s, Copy(toErr, n))
    requires var t := Pick(s, toErr);
             && (t.Flagged(cfg) ==> t.Handed(n).Flagged(cfg))
             && (t.Handed(n).Writer(cfg).cancels > t.Writer(cfg).cancels ==> t.Handed(n).Flagged(cfg))
    ensures ContextOk(cfg, Apply(cfg, s, Copy(toErr, n)))
  {
  }

  lemma {:induction false} CopyKeeps(cfg: Config, s: State, toErr: bool, n: nat)
    requires Inv(cfg, s) && Enabled(s, Copy(toErr, n))
    ensures Inv(cfg, Apply(cfg, s, Copy(toErr, n)))
  {
    CopyMore(Pick(s, toErr), n);
    CopyFlags(cfg, Pick(s, toErr), n);
    CopyKeepsContext(cfg, s, toErr, n);
  }

  lemma {:induction false} TextsDiffer(i: nat)
    ensures PassText(i) !in {OLE, TLE, MLE, RE} && WrongText(i) !in {OLE, TLE, MLE, RE}
    ensures PassText(i) != WrongText(i)
    ensures OLE != TLE && OLE != MLE && OLE != RE && TLE != MLE && TLE != RE && MLE != RE
  {
    IndexedTexts(i);
    assert RE[0] == 'R' && OLE[0] == 'O' && MLE[0] == 'M' && TLE[0] == 'T';
  }

  lemma {:induction false} FlagChecksKeep(cfg: Config, s: State, a: Action)
    requires a.CheckStdout? || a.CheckStderr?
    requires Inv(cfg, s) && Enabled(s, a)
    ensures Inv(cfg, Apply(cfg, s, a))
  {
    TextsDiffer(cfg.index);
    BuffersAreBounded(cfg, s.out);
    BuffersAreBounded(cfg, s.err);
  }

  lemma {:induction false} DoneFlagged(cfg: Config, s: State)
    requires Inv(cfg, s) && Enabled(s, PickDone) && AnyFlag(cfg, s)
    ensures Justified(cfg, Apply(cfg, s, PickDone), DoneInfo(cfg, s), ByWait)
  {
    TextsDiffer(cfg.index);
  }

  lemma {:induction false} DoneFailed(cfg: Config, s: State)
    requires Inv(cfg, s) && Enabled(s, PickDone) && !AnyFlag(cfg, s) && s.waited.value != NoError
    ensures Justified(cfg, Apply(cfg, s, PickDone), DoneInfo(cfg, s), ByWait)
  {
    TextsDiffer(cfg.index);
    VerdictTellsCause(cfg.memoryLimitMB, s.waited.value);
  }

  /** A clean exit below the limits leaves the whole output in the buffer that is compared. */
  lemma {:induction false} ComparedOutput(cfg: Config, s: State)
    requires Inv(cfg, s) && Enabled(s, PickDone) && !AnyFlag(cfg, s) && s.waited.value == NoError
    ensures RanCleanly(cfg, s)
    ensures DoneInfo(cfg, s).verdict ==
            if EqualUpToSurroundingSpace(s.out.produced, cfg.expected) then PassText(cfg.index) else WrongText(cfg.index)
  {
    BuffersAreBounded(cfg, s.out);
    TrimComparesUpToSpace(s.out.produced, cfg.expected);
  }

  lemma {:induction false} ComparedIsJustified(cfg: Config, s: State, info: RuntimeInfo)
    requires s.waited == Some(NoError) && RanCleanly(cfg, s) && !s.flaggedAtPick
    requires info.stdout == s.out.Writer(cfg).buf && info.stderr == s.err.Writer(cfg).buf
    requires info.verdict ==
             if EqualUpToSurroundingSpace(s.out.produced, cfg.expected) then PassText(cfg.index) else WrongText(cfg.index)
    ensures Justified(cfg, s, info, ByWait)
  {
    TextsDiffer(cfg.index);
  }

  lemma {:induction false} DoneCompared(cfg: Config, s: State)
    requires Inv(cfg, s) && Enabled(s, PickDone) && !AnyFlag(cfg, s) && s.waited.value == NoError
    ensures Justified(cfg, Apply(cfg, s, PickDone), DoneInfo(cfg, s), ByWait)
  {
    ComparedOutput(cfg, s);
    ComparedIsJustified(cfg, Apply(cfg, s, PickDone), DoneInfo(cfg, s));
  }

  lemma {:induction false} DoneExplained(cfg: Config, s: State)
    requires Inv(cfg, s) && Enabled(s, PickDone)
    ensures Explained(cfg, Apply(cfg, s, PickDone), DoneInfo(cfg, s), ByWait)
  {
    if !AnyFlag(cfg, s) && s.waited.value == NoError {
      BuffersAreBounded(cfg, s.out);
      TrimComparesUpToSpace(s.out.produced, cfg.expected);
    }
  }

  lemma {:induction false} DoneKeeps(cfg: Config, s: State)
    requires Inv(cfg, s) && Enabled(s, PickDone)
    ensures Inv(cfg, Apply(cfg, s, PickDone))
  {
    DoneExplained(cfg, s);
    if AnyFlag(cfg, s) {
      DoneFlagged(cfg, s);
    } else if s.waited.value != NoError {
      DoneFailed(cfg, s);
    } else {
      DoneCompared(cfg, s);
    }
  }

  lemma {:induction false} StepKeepsInv(cfg: Config, s: State, a: Action)
    requires Inv(cfg, s) && Enabled(s, a)
    ensures Inv(cfg, Apply(cfg, s, a))
  {
    match a
    case Copy(toErr, n) => CopyKeeps(cfg, s, toErr, n);
    case CheckStdout => FlagChecksKeep(cfg, s, a);
    case CheckStderr => FlagChecksKeep(cfg, s, a);
    case PickDone => DoneKeeps(cfg, s);
    case _ =>
  }

  lemma {:induction false} RunKeepsInv(cfg: Config, acts: seq<Action>)
    requires CanRun(cfg, acts)
    ensures Inv(cfg, Run(cfg, acts))
    decreases |acts|
  {
    if acts != [] {
      RunKeepsInv(cfg, acts[..|acts| - 1]);
      StepKeepsInv(cfg, Run(cfg, acts[..|acts| - 1]), acts[|acts| - 1]);
    }
  }

  // ---- the copiers ----

  ghost predicate NoEmptyChunk(t: Stream) {
    forall i | 0 <= i < |t.chunks| :: t.chunks[i] != []
  }

  lemma {:induction false} HandsBytes(t: Stream, n: nat)
    requires NoEmptyChunk(t) && 0 < n && |t.Copied()| + n <= |t.produced|
    ensures NoEmptyChunk(t.Handed(n))
  {
    var chunk := t.produced[|t.Copied()|..|t.Copied()| + n];
    assert |chunk| == n && t.Handed(n).chunks == t.chunks + [chunk];
  }

  lemma {:induction false} StepHandsBytes(cfg: Config, s: State, a: Action)
    requires Enabled(s, a) && NoEmptyChunk(s.out) && NoEmptyChunk(s.err)
    ensures NoEmptyChunk(Apply(cfg, s, a).out) && NoEmptyChunk(Apply(cfg, s, a).err)
  {
    if a.Copy? {
      HandsBytes(Pick(s, a.toErr), a.n);
    }
  }

  /**
   * The copiers never make an empty write, so in every run what a writer holds, its flag and its
   * calls of cancel are those of one write of all copied bytes, even under a limit of 0.
   */
  lemma {:induction false} WritersSeeOnlyBytes(cfg: Config, acts: seq<Action>)
    requires CanRun(cfg, acts)
    ensures var s := Run(cfg, acts);
            && NoEmptyChunk(s.out) && NoEmptyChunk(s.err)
            && s.out.Writer(cfg) == After(cfg.Limit(), true, if s.out.Copied() == [] then [] else [s.out.Copied()])
            && s.err.Writer(cfg) == After(cfg.Limit(), true, if s.err.Copied() == [] then [] else [s.err.Copied()])
    decreases |acts|
  {
    if acts != [] {
      WritersSeeOnlyBytes(cfg, acts[..|acts| - 1]);
      StepHandsBytes(cfg, Run(cfg, acts[..|acts| - 1]), acts[|acts| - 1]);
    }
    OnlyBytesMatter(cfg.Limit(), true, Run(cfg, acts).out.chunks);
    OnlyBytesMatter(cfg.Limit(), true, Run(cfg, acts).err.chunks);
  }

  // ---- what happens once ----

  lemma {:induction false} InLonger(acts: seq<Action>, a: Action)
    requires acts != []
    ensures a in acts <==> a in acts[..|acts| - 1] || a == acts[|acts| - 1]
  {
    assert acts == acts[..|acts| - 1] + [acts[|acts| - 1]];
  }

  lemma {:induction false} OneStepOnce(cfg: Config, s: State, a: Action)
    requires Enabled(s, a)
    ensures var t := Apply(cfg, s, a);
            && (a.EndProcess? ==> s.exit.None? && t.exit == Some(a.how)) && (!a.EndProcess? ==> t.exit == s.exit)
            && (a.WaitReturns? ==> s.waited.None? && t.waited == Some(a.result)) && (!a.WaitReturns? ==> t.waited == s.waited)
  {
  }

  lemma {:induction false} OneStepOfSelect(cfg: Config, s: State, a: Action)
    requires Enabled(s, a)
    ensures var p, q := s.phase, Apply(cfg, s, a).phase;
            match a
            case PickContext => p.Selecting? && q.ContextBranch?
            case PickDone => p.Selecting? && q.Finished? && q.end.ByWait?
            case CheckStdout => p.ContextBranch? && (q.ContextBranch? || (q.Finished? && !q.end.ByWait?))
            case CheckStderr => p.ContextBranch? && q.Finished? && !q.end.ByWait?
            case _ => p == q
  {
  }

  /** How a run's last action relates to the runs before and after it. */
  lemma {:induction false} LastStep(cfg: Config, acts: seq<Action>) returns (s: State, a: Action)
    requires CanRun(cfg, acts) && acts != []
    ensures a == acts[|acts| - 1] && CanRun(cfg, acts[..|acts| - 1]) && s == Run(cfg, acts[..|acts| - 1])
    ensures Enabled(s, a) && Run(cfg, acts) == Apply(cfg, s, a)
  {
    s, a := Run(cfg, acts[..|acts| - 1]), acts[|acts| - 1];
  }

  /** The process ends once and waiting returns once, and what they said stays. */
  lemma {:induction false} EndsOnce(cfg: Config, acts: seq<Action>, how: Exit, result: WaitError)
    requires CanRun(cfg, acts)
    ensures Run(cfg, acts).exit == Some(how) <==> EndProcess(how) in acts
    ensures Run(cfg, acts).waited == Some(result) <==> WaitReturns(result) in acts
    decreases |acts|
  {
    if acts != [] {
      var s, a := LastStep(cfg, acts);
      OneStepOnce(cfg, s, a);
      EndsOnce(cfg, acts[..|acts| - 1], how, result);
      InLonger(acts, EndProcess(how));
      InLonger(acts, WaitReturns(result));
    }
  }

  /** The select is resolved once, in favour of one of its two branches, which also ends the test. */
  lemma {:induction false} SelectsOnce(cfg: Config, acts: seq<Action>)
    requires CanRun(cfg, acts)
    ensures var p := Run(cfg, acts).phase;
            && (p.Selecting? <==> PickContext !in acts && PickDone !in acts)
            && (p.ContextBranch? ==> PickContext in acts && PickDone !in acts)
            && (p.Finished? ==> (p.end.ByWait? <==> PickDone in acts) && (p.end.ByWait? <==> PickContext !in acts))
            && (PickContext in acts || PickDone in acts ==>
                  !Enabled(Run(cfg, acts), PickContext) && !Enabled(Run(cfg, acts), PickDone))
    decreases |acts|
  {
    if acts != [] {
      var s, a := LastStep(cfg, acts);
      OneStepOfSelect(cfg, s, a);
      SelectsOnce(cfg, acts[..|acts| - 1]);
      InLonger(acts, PickContext);
      InLonger(acts, PickDone);
    }
  }

  // ---- what holds at the end of every run ----

  /** A state some schedule ends in, with the verdict given. */
  ghost predicate Ends(cfg: Config, s: State, info: RuntimeInfo) {
    exists acts :: CanRun(cfg, acts) && Run(cfg, acts) == s && s.phase.Finished? && s.phase.info == info
  }

  lemma {:induction false} EndsAreJustified(cfg: Config, s: State, info: RuntimeInfo)
    requires Ends(cfg, s, info)
    ensures Inv(cfg, s) && s.phase.Finished? && s.phase.info == info
  {
    var acts :| CanRun(cfg, acts) && Run(cfg, acts) == s && s.phase.Finished? && s.phase.info == info;
    RunKeepsInv(cfg, acts);
  }

  /**
   * A passing verdict is sound in every interleaving: exit status 0, no stream at its limit, the
   * compared buffer is all the process wrote, and it equals the expected output up to surrounding
   * whitespace. Conversely a run that `done` resolved with no error passes as soon as that holds.
   */
  lemma {:induction false} PassIsSound(cfg: Config, s: State, info: RuntimeInfo)
    requires Ends(cfg, s, info)
    ensures IsPass(info.verdict) ==>
              && s.exit.Some? && s.exit.value.status == Code(0)
              && !s.out.Flagged(cfg) && !s.err.Flagged(cfg)
              && info.stdout == s.out.produced
              && EqualUpToSurroundingSpace(s.out.produced, cfg.expected)
    ensures (s.phase.end.ByWait? && s.waited == Some(NoError) && !AnyFlag(cfg, s) &&
             EqualUpToSurroundingSpace(s.out.produced, cfg.expected)) ==> IsPass(info.verdict)
  {
    EndsAreJustified(cfg, s, info);
    IndexedTexts(cfg.index);
    if IsFatal(info.verdict) {
      FatalIsNoPass(info.verdict);
    }
  }

  /**
   * A stream that reached its limit before the select was resolved makes the verdict OLE
   * whichever branch won. Exactly: if `done` won, the verdict is OLE iff a flag is up or the process
   * ended by SIGPIPE; if the deadline won, iff one of its two reads found its flag up, be it one
   * that was raised only after the deadline branch was entered.
   */
  lemma {:induction false} OleIsExact(cfg: Config, s: State, info: RuntimeInfo)
    requires Ends(cfg, s, info)
    ensures s.flaggedAtPick ==> info.verdict == OLE
    ensures s.phase.end.ByWait? ==> (info.verdict == OLE <==> AnyFlag(cfg, s) || EndedBy(s, SIGPIPE))
    ensures !s.phase.end.ByWait? ==> (info.verdict == OLE <==> s.phase.end.ByStdoutCheck? || s.phase.end.ByStderrCheck?)
    ensures s.phase.end.ByStdoutCheck? ==> s.out.Flagged(cfg)
    ensures s.phase.end.ByStderrCheck? ==> s.err.Flagged(cfg)
    ensures s.phase.end.ByDeadline? ==> !s.err.Flagged(cfg) && !s.flaggedAtPick
  {
    EndsAreJustified(cfg, s, info);
  }

  /**
   * If `done` won without a flag, a SIGKILL is TLE below the memory threshold and MLE above it,
   * and any other failure but SIGPIPE is RE; if the deadline won and both its reads found their
   * flags down, the verdict is TLE. There is no other way to any of them.
   */
  lemma {:induction false} KillVerdictsAreJustified(cfg: Config, s: State, info: RuntimeInfo)
    requires Ends(cfg, s, info)
    ensures info.verdict == TLE <==>
            s.phase.end.ByDeadline? || (s.phase.end.ByWait? && !AnyFlag(cfg, s) && EndedBy(s, SIGKILL) && !PeakOver(cfg, s))
    ensures s.phase.end.ByDeadline? ==> s.timerFired
    ensures info.verdict == RE <==>
            s.phase.end.ByWait? && !AnyFlag(cfg, s) && s.waited != Some(NoError) && !EndedBy(s, SIGPIPE) && !EndedBy(s, SIGKILL)
    ensures info.verdict == MLE <==> s.phase.end.ByWait? && !AnyFlag(cfg, s) && EndedBy(s, SIGKILL) && PeakOver(cfg, s)
    ensures |info.stdout| <= cfg.Limit() && |info.stderr| <= cfg.Limit()
  {
    EndsAreJustified(cfg, s, info);
    BuffersAreBounded(cfg, s.out);
    BuffersAreBounded(cfg, s.err);
  }

  /** Every report of a started process is explained by the way it ended. */
  lemma {:induction false} ReportIsExplained(cfg: Config, s: State, info: RuntimeInfo)
    requires Ends(cfg, s, info)
    ensures Explained(cfg, s, info, s.phase.end)
  {
    EndsAreJustified(cfg, s, info);
  }

  /** Every verdict of a started process is one of these six texts. */
  lemma {:induction false} VerdictIsOneOfSix(cfg: Config, s: State, info: RuntimeInfo)
    requires Ends(cfg, s, info)
    ensures info.verdict in {OLE, TLE, MLE, RE, PassText(cfg.index), WrongText(cfg.index)}
  {
    EndsAreJustified(cfg, s, info);
  }

  /** A schedule in which nothing happens but the deadline, which kills the process. */
  function DeadlineKill(kill: Exit): seq<Action> {
    [Timer, EndProcess(kill), CloseEnd(false), CloseEnd(true), WaitReturns(ExitError(kill))]
  }

  const CLOSED: Stream := Stream([], [], true)

  lemma {:induction false} Unroll(cfg: Config, acts: seq<Action>, a: Action)
    requires CanRun(cfg, acts) && Enabled(Run(cfg, acts), a)
    ensures CanRun(cfg, acts + [a]) && Run(cfg, acts + [a]) == Apply(cfg, Run(cfg, acts), a)
  {
    var all := acts + [a];
    assert all[..|all| - 1] == acts && all[|all| - 1] == a && all != [];
  }

  lemma {:induction false} DeadlineKillRuns(cfg: Config, kill: Exit)
    requires kill.status == Signal(SIGKILL)
    ensures CanRun(cfg, DeadlineKill(kill))
    ensures Run(cfg, DeadlineKill(kill)) ==
            State(CLOSED, CLOSED, true, true, Some(kill), Some(ExitError(kill)), Selecting, false)
  {
    var acts := DeadlineKill(kill);
    Unroll(cfg, [], Timer);
    assert [] + [Timer] == acts[..1];
    Unroll(cfg, acts[..1], EndProcess(kill));
    assert acts[..1] + [EndProcess(kill)] == acts[..2];
    Unroll(cfg, acts[..2], CloseEnd(false));
    assert acts[..2] + [CloseEnd(false)] == acts[..3];
    Unroll(cfg, acts[..3], CloseEnd(true));
    assert acts[..3] + [CloseEnd(true)] == acts[..4];
    Unroll(cfg, acts[..4], WaitReturns(ExitError(kill)));
    assert acts[..4] + [WaitReturns(ExitError(kill))] == acts;
  }

  /** The same killed process read through the deadline branch... */
  lemma {:induction false} DeadlineKillAsTle(cfg: Config, kill: Exit) returns (s: State, info: RuntimeInfo)
    requires kill.status == Signal(SIGKILL)
    ensures Ends(cfg, s, info) && info.verdict == TLE && s.exit == Some(kill)
  {
    DeadlineKillRuns(cfg, kill);
    var acts := DeadlineKill(kill);
    Unroll(cfg, acts, PickContext);
    Unroll(cfg, acts + [PickContext], CheckStdout);
    Unroll(cfg, acts + [PickContext] + [CheckStdout], CheckStderr);
    s := Run(cfg, acts + [PickContext] + [CheckStdout] + [CheckStderr]);
    info := s.phase.info;
  }

  /** ... and through the wait branch. */
  lemma {:induction false} DeadlineKillAsMle(cfg: Config, kill: Exit) returns (s: State, info: RuntimeInfo)
    requires kill.status == Signal(SIGKILL) && OverThreshold(PeakMemBytes(kill), cfg.memoryLimitMB)
    ensures Ends(cfg, s, info) && info.verdict == MLE && s.exit == Some(kill)
  {
    DeadlineKillRuns(cfg, kill);
    var acts := DeadlineKill(kill);
    Unroll(cfg, acts, PickDone);
    s := Run(cfg, acts + [PickDone]);
    info := s.phase.info;
  }

  /**
   * The race is visible: a process the deadline killed while it held 2 MB under a limit of 512 MB
   * ends in TLE under one schedule and in MLE under another.
   */
  lemma {:induction false} DeadlineMayReadAsMle(expected: seq<byte>)
    ensures var cfg := Config(256, 512, expected, 1);
            exists s, t, late, early ::
              && Ends(cfg, s, late) && late.verdict == TLE
              && Ends(cfg, t, early) && early.verdict == MLE
              && s.exit == t.exit && s.exit == Some(Exit(Signal(SIGKILL), Some(2048)))
  {
    var cfg := Config(256, 512, expected, 1);
    var kill := Exit(Signal(SIGKILL), Some(2048));
    var s, late := DeadlineKillAsTle(cfg, kill);
    var t, early := DeadlineKillAsMle(cfg, kill);
    assert Ends(cfg, s, late) && Ends(cfg, t, early);
  }

  // ---- runs, step by step ----

  ghost predicate Reaches(cfg: Config, acts: seq<Action>, s: State) {
    CanRun(cfg, acts) && Run(cfg, acts) == s
  }

  lemma {:induction false} ReachesNext(cfg: Config, acts: seq<Action>, s: State, a: Action)
    requires Reaches(cfg, acts, s) && Enabled(s, a)
    ensures Reaches(cfg, acts + [a], Apply(cfg, s, a))
  {
    Unroll(cfg, acts, a);
  }

  // ---- output floods ----

  function Flooded(bytes: seq<byte>): Stream {
    Stream(bytes, [bytes], false)
  }

  lemma {:induction false} FloodIsFlagged(cfg: Config, bytes: seq<byte>)
    requires |bytes| == cfg.Limit() > 0
    ensures var t := Stream(bytes, [], false);
            && t.Copied() == [] && !t.Flagged(cfg) && t.Writer(cfg).cancels == 0 && t.Handed(|bytes|) == Flooded(bytes)
            && Flooded(bytes).Flagged(cfg) && Flooded(bytes).Writer(cfg).buf == bytes && Flooded(bytes).Writer(cfg).cancels == 1
  {
    ConcatOne(bytes);
    AfterHolds(cfg.Limit(), true, []);
    AfterHolds(cfg.Limit(), true, [bytes]);
    assert bytes[0..|bytes|] == bytes && [] + [bytes] == [bytes] && bytes[..cfg.Limit()] == bytes;
  }

  lemma {:induction false} ProduceAll(cfg: Config, acts: seq<Action>, s: State, toErr: bool, bytes: seq<byte>)
    requires Reaches(cfg, acts, s) && !s.phase.Finished? && Pick(s, toErr) == Stream([], [], false)
    ensures Reaches(cfg, acts + [Produce(toErr, bytes)], WithStream(s, toErr, Stream(bytes, [], false)))
  {
    ReachesNext(cfg, acts, s, Produce(toErr, bytes));
    assert [] + bytes == bytes;
  }

  lemma {:induction false} CopyAll(cfg: Config, acts: seq<Action>, s: State, toErr: bool, bytes: seq<byte>)
    requires Reaches(cfg, acts, s) && !s.phase.Finished? && |bytes| == cfg.Limit() > 0
    requires Pick(s, toErr) == Stream(bytes, [], false)
    ensures Reaches(cfg, acts + [Copy(toErr, |bytes|)], WithStream(s, toErr, Flooded(bytes)).(ctxDone := true))
  {
    FloodIsFlagged(cfg, bytes);
    ReachesNext(cfg, acts, s, Copy(toErr, |bytes|));
  }

  lemma {:induction false} FinishesBy(cfg: Config, acts: seq<Action>, s: State, a: Action, info: RuntimeInfo)
    requires Reaches(cfg, acts, s) && Enabled(s, a) && Apply(cfg, s, a).phase.Finished? && Apply(cfg, s, a).phase.info == info
    ensures Ends(cfg, Apply(cfg, s, a), info)
  {
    ReachesNext(cfg, acts, s, a);
  }

  lemma {:induction false} FloodStdout(cfg: Config, bytes: seq<byte>) returns (acts: seq<Action>)
    requires |bytes| == cfg.Limit() > 0
    ensures Reaches(cfg, acts, INIT.(out := Flooded(bytes), ctxDone := true, timerFired := true, phase := ContextBranch(false)))
  {
    acts := [];
    ProduceAll(cfg, acts, INIT, false, bytes);
    acts := acts + [Produce(false, bytes)];
    var s := INIT.(out := Stream(bytes, [], false));
    ReachesNext(cfg, acts, s, Timer);
    acts := acts + [Timer];
    s := s.(ctxDone := true, timerFired := true);
    FloodIsFlagged(cfg, bytes);
    ReachesNext(cfg, acts, s, PickContext);
    acts := acts + [PickContext];
    s := s.(phase := ContextBranch(false));
    AfterHolds(cfg.Limit(), true, []);
    CopyAll(cfg, acts, s, false, bytes);
    acts := acts + [Copy(false, |bytes|)];
  }

  /**
   * The one OLE that neither a limit hit before the select was resolved nor a SIGPIPE explains:
   * the deadline fires first, its branch is entered with both flags down, and stdout reaches the
   * limit before the branch reads its flag. The process has not even ended.
   */
  lemma {:induction false} LateFlagIsOle(cfg: Config, bytes: seq<byte>) returns (s: State, info: RuntimeInfo)
    requires |bytes| == cfg.Limit() > 0
    ensures Ends(cfg, s, info) && info.verdict == OLE && !s.flaggedAtPick && s.exit.None?
    ensures s.phase.end.ByStdoutCheck? && s.timerFired
  {
    var acts := FloodStdout(cfg, bytes);
    var before := INIT.(out := Flooded(bytes), ctxDone := true, timerFired := true, phase := ContextBranch(false));
    FloodIsFlagged(cfg, bytes);
    s := Apply(cfg, before, CheckStdout);
    info := s.phase.info;
    FinishesBy(cfg, acts, before, CheckStdout, info);
  }

  lemma {:induction false} FloodBoth(cfg: Config, bytes: seq<byte>) returns (acts: seq<Action>)
    requires |bytes| == cfg.Limit() > 0
    ensures Reaches(cfg, acts, INIT.(out := Flooded(bytes), err := Flooded(bytes), ctxDone := true))
  {
    acts := [];
    ProduceAll(cfg, acts, INIT, false, bytes);
    acts := acts + [Produce(false, bytes)];
    var s := INIT.(out := Stream(bytes, [], false));
    ProduceAll(cfg, acts, s, true, bytes);
    acts := acts + [Produce(true, bytes)];
    s := s.(err := Stream(bytes, [], false));
    CopyAll(cfg, acts, s, false, bytes);
    acts := acts + [Copy(false, |bytes|)];
    s := s.(out := Flooded(bytes), ctxDone := true);
    CopyAll(cfg, acts, s, true, bytes);
    acts := acts + [Copy(true, |bytes|)];
  }

  /** What happens before the process runs. */
  datatype Setup =
    | InputUnreadable(error: string)
    | ExpectedUnreadable(error: string)
    | NoRunArgs
    | StartFails(error: string)
    | Started

  /** `runTestCase`: four early failures, or whatever the race ends with. */
  ghost predicate MayReport(cfg: Config, setup: Setup, info: RuntimeInfo) {
    match setup
    case InputUnreadable(error) => info == RuntimeInfo(IE, [], [], error)
    case ExpectedUnreadable(error) => info == RuntimeInfo(IE, [], [], error)
    case NoRunArgs => info == RuntimeInfo(IE, [], [], "Missing execution arguments in run specifications")
    case StartFails(error) => info == RuntimeInfo(IE, [], [], error)
    case Started => exists s :: Ends(cfg, s, info)
  }

  /** A program that floods both its streams is reported with both buffers full. */
  lemma {:induction false} FloodIsReported(cfg: Config, bytes: seq<byte>)
    requires |bytes| == cfg.Limit() > 0
    ensures MayReport(cfg, Started, RuntimeInfo(OLE, bytes, bytes, TOO_MUCH))
  {
    var acts := FloodBoth(cfg, bytes);
    var s := INIT.(out := Flooded(bytes), err := Flooded(bytes), ctxDone := true);
    FloodIsFlagged(cfg, bytes);
    ReachesNext(cfg, acts, s, PickContext);
    var t := s.(phase := ContextBranch(false), flaggedAtPick := true);
    FinishesBy(cfg, acts + [PickContext], t, CheckStdout, RuntimeInfo(OLE, bytes, bytes, TOO_MUCH));
  }

  // ---- which tests can be passed at all ----

  /** One stream as it is after the process wrote these bytes and one copy took them all. */
  function Wrote(bytes: seq<byte>, eof: bool): Stream {
    Stream(bytes, if bytes == [] then [] else [bytes], eof)
  }

  lemma {:induction false} WroteIsUnflagged(cfg: Config, bytes: seq<byte>, eof: bool)
    requires bytes == [] || |bytes| < cfg.Limit()
    ensures Wrote(bytes, eof).Copied() == bytes && !Wrote(bytes, eof).Flagged(cfg)
    ensures Wrote(bytes, eof).Writer(cfg).cancels == 0 && Wrote(bytes, eof).Writer(cfg).buf == bytes
  {
    var chunks := Wrote(bytes, eof).chunks;
    if bytes != [] {
      ConcatOne(bytes);
    }
    AfterHolds(cfg.Limit(), true, chunks);
    NothingLostBelowLimit(cfg.Limit(), true, chunks);
  }

  lemma {:induction false} CanWrite(cfg: Config, bytes: seq<byte>) returns (acts: seq<Action>)
    requires bytes == [] || |bytes| < cfg.Limit()
    ensures Reaches(cfg, acts, INIT.(out := Wrote(bytes, false)))
  {
    acts := [];
    if bytes != [] {
      var t := INIT.out.(produced := bytes);
      ReachesNext(cfg, acts, INIT, Produce(false, bytes));
      assert [] + bytes == bytes;
      acts := acts + [Produce(false, bytes)];
      assert Reaches(cfg, acts, INIT.(out := t));
      WroteIsUnflagged(cfg, bytes, false);
      WroteIsUnflagged(cfg, [], false);
      assert t.Copied() == [] && bytes[0..|bytes|] == bytes;
      assert t.Handed(|bytes|) == Wrote(bytes, false);
      ReachesNext(cfg, acts, INIT.(out := t), Copy(false, |bytes|));
      acts := acts + [Copy(false, |bytes|)];
    }
  }

  const CLEAN: Exit := Exit(Code(0), None)

  lemma {:induction false} CanFinish(cfg: Config, bytes: seq<byte>, acts: seq<Action>, result: WaitError)
    returns (all: seq<Action>, s: State)
    requires (bytes == [] || |bytes| < cfg.Limit()) && !result.ExitError?
    requires Reaches(cfg, acts, INIT.(out := Wrote(bytes, false)))
    ensures s == INIT.(out := Wrote(bytes, true), err := CLOSED, exit := Some(CLEAN), waited := Some(result))
    ensures Reaches(cfg, all, s)
  {
    WroteIsUnflagged(cfg, bytes, true);
    s := INIT.(out := Wrote(bytes, false));
    ReachesNext(cfg, acts, s, CloseEnd(false));
    all, s := acts + [CloseEnd(false)], s.(out := Wrote(bytes, true));
    ReachesNext(cfg, all, s, CloseEnd(true));
    all, s := all + [CloseEnd(true)], s.(err := CLOSED);
    ReachesNext(cfg, all, s, EndProcess(CLEAN));
    all, s := all + [EndProcess(CLEAN)], s.(exit := Some(CLEAN));
    ReachesNext(cfg, all, s, WaitReturns(result));
    all, s := all + [WaitReturns(result)], s.(waited := Some(result));
  }

  ghost predicate CanPass(cfg: Config) {
    exists s, info :: Ends(cfg, s, info) && IsPass(info.verdict)
  }

  lemma {:induction false} RightOutputPasses(cfg: Config, bytes: seq<byte>, s: State)
    requires bytes == [] || |bytes| < cfg.Limit()
    requires EqualUpToSurroundingSpace(bytes, cfg.expected)
    requires s.out == Wrote(bytes, true) && s.err == CLOSED && s.waited == Some(NoError)
    ensures IsPass(DoneInfo(cfg, s).verdict)
  {
    WroteIsUnflagged(cfg, bytes, true);
    WroteIsUnflagged(cfg, [], true);
    TrimComparesUpToSpace(bytes, cfg.expected);
    IndexedTexts(cfg.index);
  }

  lemma {:induction false} PassesAtLast(cfg: Config, acts: seq<Action>, s: State)
    requires Reaches(cfg, acts, s) && Enabled(s, PickDone) && IsPass(DoneInfo(cfg, s).verdict)
    ensures CanPass(cfg)
  {
    ReachesNext(cfg, acts, s, PickDone);
    assert Ends(cfg, Apply(cfg, s, PickDone), DoneInfo(cfg, s));
  }

  lemma {:induction false} RightOutputCanPass(cfg: Config, bytes: seq<byte>)
    requires bytes == [] || |bytes| < cfg.Limit()
    requires EqualUpToSurroundingSpace(bytes, cfg.expected)
    ensures CanPass(cfg)
  {
    var acts := CanWrite(cfg, bytes);
    var all, s := CanFinish(cfg, bytes, acts, NoError);
    RightOutputPasses(cfg, bytes, s);
    PassesAtLast(cfg, all, s);
  }

  /**
   * Exit status 0 and the right answer are not enough: where waiting itself fails, because the context
   * was done or copying broke off, the report is a runtime error with that error's text.
   */
  lemma {:induction false} CleanExitMayFail(cfg: Config, bytes: seq<byte>, text: string) returns (s: State, info: RuntimeInfo)
    requires bytes == [] || |bytes| < cfg.Limit()
    ensures Ends(cfg, s, info) && s.exit == Some(CLEAN) && s.out.produced == bytes && s.phase.end.ByWait?
    ensures info.verdict == "Runtime error" && info.details == text
  {
    var acts := CanWrite(cfg, bytes);
    var all, t := CanFinish(cfg, bytes, acts, OtherError(text));
    WroteIsUnflagged(cfg, bytes, true);
    WroteIsUnflagged(cfg, [], true);
    s, info := Apply(cfg, t, PickDone), DoneInfo(cfg, t);
    FinishesBy(cfg, all, t, PickDone, info);
  }

  lemma {:induction false} PassedBelowLimit(cfg: Config, s: State, info: RuntimeInfo)
    requires Ends(cfg, s, info) && !s.out.Flagged(cfg) && info.stdout == s.out.produced
    requires EqualUpToSurroundingSpace(s.out.produced, cfg.expected)
    ensures TrimSpace(cfg.expected) == [] || |TrimSpace(cfg.expected)| < cfg.Limit()
  {
    EndsAreJustified(cfg, s, info);
    TrimComparesUpToSpace(s.out.produced, cfg.expected);
    TrimIsNoLonger(s.out.produced);
    AfterHolds(cfg.Limit(), true, s.out.chunks);
    if s.out.chunks == [] {
      assert s.out.Writer(cfg).buf == [];
    }
  }

  /**
   * Some program under some schedule passes a test exactly if the trimmed expected output is
   * shorter than the log limit, or blank: a test whose answer reaches the limit cannot be passed.
   */
  lemma {:induction false} PassablePreciselyBelowLimit(cfg: Config)
    ensures CanPass(cfg) <==> TrimSpace(cfg.expected) == [] || |TrimSpace(cfg.expected)| < cfg.Limit()
  {
    var core := TrimSpace(cfg.expected);
    if CanPass(cfg) {
      var s, info :| Ends(cfg, s, info) && IsPass(info.verdict);
      PassIsSound(cfg, s, info);
      PassedBelowLimit(cfg, s, info);
    }
    if core == [] || |core| < cfg.Limit() {
      TrimmedIsEqual(cfg.expected);
      RightOutputCanPass(cfg, core);
    }
  }

  // ---- the whole of runTestCase ----

  /** Some run led to this report, exited with status 0, and wrote the expected output, all of it reported. */
  ghost predicate SolvedTest(cfg: Config, info: RuntimeInfo) {
    exists s ::
      && Ends(cfg, s, info)
      && s.exit.Some? && s.exit.value.status == Code(0)
      && s.out.produced == info.stdout
      && EqualUpToSurroundingSpace(s.out.produced, cfg.expected)
  }

  /** Judged from outside: a pass means the process started and the output was right. */
  lemma {:induction false} ReportedPassIsSound(cfg: Config, setup: Setup, info: RuntimeInfo)
    requires MayReport(cfg, setup, info) && IsPass(info.verdict)
    ensures setup == Started && SolvedTest(cfg, info)
  {
    FatalIsNoPass(IE);
    var s :| Ends(cfg, s, info);
    PassIsSound(cfg, s, info);
  }

  /** What is reported on a process that was never started is an internal error, with empty logs. */
  lemma {:induction false} NeverStartedIsIE(cfg: Config, setup: Setup, info: RuntimeInfo)
    requires setup != Started
    ensures MayReport(cfg, setup, info) <==>
            && info.verdict == "Internal error" && info.stdout == [] && info.stderr == []
            && info.details == if setup.NoRunArgs? then "Missing execution arguments in run specifications" else setup.error
  {
  }

  lemma {:induction false} ReportedPassIsPassable(cfg: Config, setup: Setup, info: RuntimeInfo)
    requires MayReport(cfg, setup, info) && IsPass(info.verdict)
    ensures TrimSpace(cfg.expected) == [] || |TrimSpace(cfg.expected)| < cfg.Limit()
  {
    ReportedPassIsSound(cfg, setup, info);
    var s :| Ends(cfg, s, info);
    assert CanPass(cfg);
    PassablePreciselyBelowLimit(cfg);
  }

  lemma {:induction false} ReportedLogsAreBounded(cfg: Config, setup: Setup, info: RuntimeInfo)
    requires MayReport(cfg, setup, info)
    ensures |info.stdout| <= cfg.Limit() && |info.stderr| <= cfg.Limit()
  {
    if setup == Started {
      var s :| Ends(cfg, s, info);
      KillVerdictsAreJustified(cfg, s, info);
    }
  }

  // ---- a line break at the end of the output ----

  /** The right answer followed by a line break is right, for both line breaks in use. */
  lemma {:induction false} LineBreakIsNoMatter(expected: seq<byte>, end: seq<byte>)
    requires end == [10] || end == [13, 10]
    ensures EqualUpToSurroundingSpace(expected + end, expected)
  {
    LineBreakTrims(expected, end);
    TrimComparesUpToSpace(expected + end, expected);
  }

  /**
   * A program that prints the expected answer and a line break, exits with status 0 and stays
   * below the limits passes: in every run that is resolved by its end without an error.
   */
  lemma {:induction false} LineBreakPasses(cfg: Config, s: State, info: RuntimeInfo, end: seq<byte>)
    requires Ends(cfg, s, info) && (end == [10] || end == [13, 10])
    requires s.phase.end.ByWait? && s.waited == Some(NoError) && !s.out.Flagged(cfg) && !s.err.Flagged(cfg)
    requires s.out.produced == cfg.expected + end
    ensures info.verdict == "Running test " + Decimal(cfg.index)
  {
    LineBreakIsNoMatter(cfg.expected, end);
    EndsAreJustified(cfg, s, info);
    TextsInFull(cfg.index);
  }

  /** Such a run there is, whenever that output is shorter than the log limit. */
  lemma {:induction false} LineBreakCanPass(cfg: Config, end: seq<byte>)
    requires (end == [10] || end == [13, 10]) && |cfg.expected + end| < cfg.Limit()
    ensures CanPass(cfg)
  {
    LineBreakIsNoMatter(cfg.expected, end);
    RightOutputCanPass(cfg, cfg.expected + end);
  }

  /** A clean run whose answer differs inside visible characters is a wrong answer. */
  lemma {:induction false} OtherAnswerIsWrong(cfg: Config, s: State, info: RuntimeInfo)
    requires Ends(cfg, s, info) && s.phase.end.ByWait? && s.waited == Some(NoError)
    requires !s.out.Flagged(cfg) && !s.err.Flagged(cfg)
    requires BetweenVisible(s.out.produced) && BetweenVisible(cfg.expected) && s.out.produced != cfg.expected
    ensures info.verdict == "Wrong answer in test " + Decimal(cfg.index)
  {
    VisibleStays(s.out.produced);
    VisibleStays(cfg.expected);
    TrimComparesUpToSpace(s.out.produced, cfg.expected);
    EndsAreJustified(cfg, s, info);
    TextsInFull(cfg.index);
  }
}
