/** ajagent/internal/ajagent.go: `RunnerAgent`, the judge loop and its event stream. */
module Agent {
  import opened Text
  import opened Verdicts
  import opened TestFiles
  import opened Whitespace
  import RunTest

  /** What `runTestCase` reports for a pair of files and its index; any report at all. */
  type TestRun = (Pair, nat) -> RuntimeInfo

  datatype Compilation = NoCompiler | Compiles | CompileFails(stdout: seq<byte>, stderr: seq<byte>)

  /** The instruction line read from the socket. */
  datatype Payload =
    | ReadFails(error: string)
    | Malformed(error: string)
    | Spec(haltOnFirstError: bool, testsetPath: string, compilation: Compilation)

  // ---- the specification ----

  function Report(dir: TestDir, run: TestRun, i: nat): RuntimeInfo
    requires Exists(dir, i)
  {
    run(FindTestcaseFiles(dir, i).value, i)
  }

  /** The reports of the tests 1..n, n being the length of the contiguous run of pairs. */
  function Reports(dir: TestDir, run: TestRun): (rs: seq<RuntimeInfo>)
    ensures |rs| == TestCount(dir)
  {
    seq(TestCount(dir), k requires 0 <= k < TestCount(dir) => Report(dir, run, k + 1))
  }

  predicate Stops(verdict: string, halt: bool) {
    IsFatal(verdict) || (halt && !IsPass(verdict))
  }

  /** The first test after which judging ends early, or the number of tests. */
  function FirstStop(rs: seq<RuntimeInfo>, halt: bool): (k: nat)
    ensures k <= |rs|
    ensures k < |rs| ==> Stops(rs[k].verdict, halt)
    ensures forall j | 0 <= j < k :: !Stops(rs[j].verdict, halt)
  {
    if rs == [] then 0
    else
      var k := FirstStop(rs[..|rs| - 1], halt);
      if k < |rs| - 1 || Stops(rs[|rs| - 1].verdict, halt) then k else |rs|
  }

  /** The tests that are judged: up to and including the one that stops judging. */
  function Judged(rs: seq<RuntimeInfo>, halt: bool): seq<RuntimeInfo> {
    rs[..Min(FirstStop(rs, halt) + 1, |rs|)]
  }

  function InfoEvent(r: RuntimeInfo): Event {
    Event(INFO, r.verdict, r.stdout, r.stderr, r.details)
  }

  function InfoEvents(rs: seq<RuntimeInfo>): seq<Event> {
    seq(|rs|, k requires 0 <= k < |rs| => InfoEvent(rs[k]))
  }

  function ResultEvent(status: string): Event {
    Event(RESULT, status, [], [], "")
  }

  ghost predicate AllPass(rs: seq<RuntimeInfo>) {
    forall k | 0 <= k < |rs| :: IsPass(rs[k].verdict)
  }

  /** The final verdict of a submission whose tests report rs. */
  ghost function FinalVerdict(rs: seq<RuntimeInfo>, halt: bool): string {
    var stop := FirstStop(rs, halt);
    if rs == [] then IE
    else if stop < |rs| then if IsFatal(rs[stop].verdict) then rs[stop].verdict else WA
    else if AllPass(rs) then AC
    else WA
  }

  function NoTestsEvent(testsetPath: string): Event {
    Event(ERROR, IE, [], [], "No valid testcases or .in files found in '" + testsetPath + "'")
  }

  ghost function JudgingEvents(rs: seq<RuntimeInfo>, halt: bool, testsetPath: string): seq<Event> {
    InfoEvents(Judged(rs, halt)) +
    (if rs == [] then [NoTestsEvent(testsetPath)] else []) +
    [ResultEvent(FinalVerdict(rs, halt))]
  }

  /** Everything the agent emits. */
  ghost function AgentEvents(payload: Payload, dir: TestDir, run: TestRun): seq<Event> {
    match payload
    case ReadFails(error) => [Event(FATAL, IE, [], [], "Failed to recieved execspec: " + error + "\n")]
    case Malformed(error) =>
      [Event(FATAL, IE, [], [], "Failed to unmarshal execspec: " + error + "\n"), ResultEvent(IE)]
    case Spec(halt, testsetPath, compilation) =>
      if compilation.CompileFails?
      then [Event(ERROR, CE, compilation.stdout, compilation.stderr, ""), ResultEvent(CE)]
      else JudgingEvents(Reports(dir, run), halt, testsetPath)
  }

  // ---- the program ----

  /** The agent's end of the socket, as the sequence of events handed to the JSON encoder. */
  class StreamConn {
    var sent: seq<Event>

    constructor ()
      ensures sent == []
    {
      sent := [];
    }

    /** `sendEvent` */
    method SendEvent(kind: string, status: string, stdout: seq<byte>, stderr: seq<byte>, details: string)
      modifies this
      ensures sent == old(sent) + [Event(kind, status, stdout, stderr, details)]
    {
      sent := sent + [Event(kind, status, stdout, stderr, details)];
    }

    /** `sendResult` */
    method SendResult(status: string)
      modifies this
      ensures sent == old(sent) + [ResultEvent(status)]
    {
      SendEvent(RESULT, status, [], [], "");
    }
  }

  /** None of these reports ends judging. */
  ghost predicate GoesOn(rs: seq<RuntimeInfo>, halt: bool) {
    forall j | 0 <= j < |rs| :: !Stops(rs[j].verdict, halt)
  }

  lemma {:induction false} OneMoreReport(rs: seq<RuntimeInfo>, r: RuntimeInfo, halt: bool)
    ensures InfoEvents(rs + [r]) == InfoEvents(rs) + [InfoEvent(r)]
    ensures AllPass(rs + [r]) <==> AllPass(rs) && IsPass(r.verdict)
    ensures GoesOn(rs + [r], halt) <==> GoesOn(rs, halt) && !Stops(r.verdict, halt)
  {
    var all := rs + [r];
    assert all[|rs|] == r && forall j | 0 <= j < |rs| :: all[j] == rs[j];
  }

  /** The RESULT sent from inside the loop. */
  function StopResult(r: RuntimeInfo): Event {
    ResultEvent(if IsFatal(r.verdict) then r.verdict else WA)
  }

  function StoppedEvents(done: seq<RuntimeInfo>): seq<Event>
    requires done != []
  {
    InfoEvents(done) + [StopResult(done[|done| - 1])]
  }

  ghost predicate StopsAtLast(done: seq<RuntimeInfo>, halt: bool) {
    done != [] && Stops(done[|done| - 1].verdict, halt) && GoesOn(done[..|done| - 1], halt)
  }

  lemma {:induction false} SentSoFar(before: seq<Event>, done: seq<RuntimeInfo>, r: RuntimeInfo)
    ensures before + InfoEvents(done) + [InfoEvent(r)] == before + InfoEvents(done + [r])
    ensures before + InfoEvents(done + [r]) + [StopResult(r)] == before + StoppedEvents(done + [r])
  {
    assert InfoEvents(done + [r]) == InfoEvents(done) + [InfoEvent(r)];
    JoinIsAssociative(before, InfoEvents(done + [r]), [StopResult(r)]);
  }

  /** Judging was stopped by test k. */
  lemma {:induction false} StoppedBy(rs: seq<RuntimeInfo>, halt: bool, k: nat, testsetPath: string)
    requires k < |rs| && Stops(rs[k].verdict, halt)
    requires GoesOn(rs[..k], halt)
    ensures |Judged(rs, halt)| == k + 1
    ensures JudgingEvents(rs, halt, testsetPath) ==
            StoppedEvents(rs[..k + 1])
  {
    assert forall j | 0 <= j < k :: rs[j] == rs[..k][j];
    assert FirstStop(rs, halt) == k;
  }

  lemma {:induction false} StoppedWith(rs: seq<RuntimeInfo>, done: seq<RuntimeInfo>, halt: bool, testsetPath: string)
    requires |done| <= |rs| && done == rs[..|done|] && StopsAtLast(done, halt)
    ensures |Judged(rs, halt)| == |done|
    ensures JudgingEvents(rs, halt, testsetPath) == StoppedEvents(done)
  {
    var k := |done| - 1;
    assert done[..k] == rs[..k] && done[k] == rs[k];
    StoppedBy(rs, halt, k, testsetPath);
  }

  /** What is sent when the loop has run out of tests. */
  function Conclusion(testCount: nat, allCorrect: bool, testsetPath: string): seq<Event> {
    if testCount == 0 then [NoTestsEvent(testsetPath), ResultEvent(IE)]
    else [ResultEvent(if allCorrect then AC else WA)]
  }

  /** Nothing stopped judging. */
  lemma {:induction false} NeverStopped(rs: seq<RuntimeInfo>, halt: bool, testsetPath: string)
    requires GoesOn(rs, halt)
    ensures Judged(rs, halt) == rs
    ensures JudgingEvents(rs, halt, testsetPath) ==
            InfoEvents(rs) + Conclusion(|rs|, AllPass(rs), testsetPath)
  {
    assert FirstStop(rs, halt) == |rs|;
    assert rs[..|rs|] == rs;
    assert InfoEvents([]) == [];
  }

  /** The judged pairs are those found for the indices 1, 2, ... */
  ghost predicate FoundInOrder(dir: TestDir, judged: seq<Pair>) {
    forall k | 0 <= k < |judged| :: FindTestcaseFiles(dir, k + 1) == Some(judged[k])
  }

  predicate IsReport(dir: TestDir, run: TestRun, r: RuntimeInfo, i: nat) {
    Exists(dir, i) && r == run(FindTestcaseFiles(dir, i).value, i)
  }

  /** rs are the reports of the tests 1, 2, ... up to the first index without files. */
  ghost predicate AreReports(dir: TestDir, run: TestRun, rs: seq<RuntimeInfo>) {
    (forall k | 0 <= k < |rs| :: IsReport(dir, run, rs[k], k + 1)) && !Exists(dir, |rs| + 1)
  }

  lemma {:induction false} ReportsAreReports(dir: TestDir, run: TestRun)
    ensures AreReports(dir, run, Reports(dir, run))
  {
    forall k | 0 <= k < |Reports(dir, run)|
      ensures IsReport(dir, run, Reports(dir, run)[k], k + 1)
    {
      assert Reports(dir, run)[k] == Report(dir, run, k + 1);
    }
  }

  lemma {:induction false} ReportsMatch(dir: TestDir, run: TestRun, rs: seq<RuntimeInfo>, i: nat)
    requires AreReports(dir, run, rs) && 1 <= i <= |rs| + 1
    ensures FindTestcaseFiles(dir, i).None? <==> i == |rs| + 1
    ensures i <= |rs| ==> rs[i - 1] == run(FindTestcaseFiles(dir, i).value, i)
  {
    assert i <= |rs| ==> IsReport(dir, run, rs[i - 1], i);
  }

  lemma {:induction false} OneMoreFound(dir: TestDir, judged: seq<Pair>, found: Pair)
    requires FoundInOrder(dir, judged) && FindTestcaseFiles(dir, |judged| + 1) == Some(found)
    ensures FoundInOrder(dir, judged + [found])
  {
  }

  /** What judging test i adds to everything the loop keeps track of. */
  lemma {:induction false} OneMoreTest(
    dir: TestDir, run: TestRun, rs: seq<RuntimeInfo>, before: seq<Event>,
    done: seq<RuntimeInfo>, judged: seq<Pair>, i: nat, halt: bool)
    requires AreReports(dir, run, rs) && 1 <= i <= |rs| && done == rs[..i - 1]
    requires |judged| == i - 1 && FoundInOrder(dir, judged) && Exists(dir, i)
    ensures var found := FindTestcaseFiles(dir, i).value;
            var r := run(found, i);
            && rs[..i] == done + [r] && FoundInOrder(dir, judged + [found])
            && (AllPass(done + [r]) <==> AllPass(done) && IsPass(r.verdict))
            && (GoesOn(done + [r], halt) <==> GoesOn(done, halt) && !Stops(r.verdict, halt))
            && (GoesOn(done, halt) && Stops(r.verdict, halt) ==> StopsAtLast(done + [r], halt))
            && before + InfoEvents(done) + [InfoEvent(r)] == before + InfoEvents(done + [r])
            && before + InfoEvents(done + [r]) + [StopResult(r)] == before + StoppedEvents(done + [r])
  {
    var found := FindTestcaseFiles(dir, i).value;
    var r := run(found, i);
    ReportsMatch(dir, run, rs, i);
    TakeOneMore(rs, i - 1);
    OneMoreFound(dir, judged, found);
    OneMoreReport(done, r, halt);
    SentSoFar(before, done, r);
    assert (done + [r])[..|done|] == done;
  }

  /** The loop itself; `stopped` tells that it returned from inside, with the RESULT already sent. */
  method JudgeLoop(conn: StreamConn, halt: bool, dir: TestDir, run: TestRun, ghost rs: seq<RuntimeInfo>)
    returns (stopped: bool, testCount: nat, allCorrect: bool, ghost done: seq<RuntimeInfo>, ghost judged: seq<Pair>, ghost lookups: nat)
    requires AreReports(dir, run, rs)
    modifies conn
    ensures lookups <= 1 + |rs| && testCount <= |rs|
    ensures |judged| == testCount && done == rs[..testCount]
    ensures FoundInOrder(dir, judged)
    ensures stopped ==> StopsAtLast(done, halt) && conn.sent == old(conn.sent) + StoppedEvents(done)
    ensures !stopped ==>
              && done == rs && GoesOn(rs, halt) && (allCorrect <==> AllPass(rs))
              && conn.sent == old(conn.sent) + InfoEvents(rs)
  {
    judged, lookups, stopped, done := [], 0, false, [];
    testCount := 0;
    allCorrect := true;
    var i := 1;
    while true
      invariant 1 <= i <= |rs| + 1 && done == rs[..i - 1]
      invariant testCount == i - 1 == |judged| == lookups
      invariant FoundInOrder(dir, judged)
      invariant GoesOn(done, halt)
      invariant allCorrect <==> AllPass(done)
      invariant conn.sent == old(conn.sent) + InfoEvents(done)
      decreases |rs| + 1 - i
    {
      lookups := lookups + 1;
      var found := FindTestcaseFiles(dir, i);
      ReportsMatch(dir, run, rs, i);
      if found.None? {
        assert done == rs;
        return;
      }
      testCount := i;
      OneMoreTest(dir, run, rs, old(conn.sent), done, judged, i, halt);
      judged := judged + [found.value];
      var runInfo := run(found.value, i);
      conn.SendEvent(INFO, runInfo.verdict, runInfo.stdout, runInfo.stderr, runInfo.details);
      done := done + [runInfo];
      if IsFatal(runInfo.verdict) {
        conn.SendResult(runInfo.verdict);
        stopped := true;
        return;
      }
      if halt && !IsPass(runInfo.verdict) {
        conn.SendResult(WA);
        stopped := true;
        return;
      }
      if !IsPass(runInfo.verdict) {
        allCorrect := false;
      }
      i := i + 1;
    }
  }

  /** What `RunnerAgent` does once the loop has run out of tests. */
  method Conclude(conn: StreamConn, testCount: nat, allCorrect: bool, testsetPath: string)
    modifies conn
    ensures conn.sent == old(conn.sent) + Conclusion(testCount, allCorrect, testsetPath)
  {
    if testCount == 0 {
      conn.SendEvent(ERROR, IE, [], [], "No valid testcases or .in files found in '" + testsetPath + "'");
      conn.SendResult(IE);
      return;
    }
    if !allCorrect {
      conn.SendResult(WA);
      return;
    }
    conn.SendResult(AC);
  }

  /** The judge loop and what follows it. */
  method Judge(conn: StreamConn, halt: bool, testsetPath: string, dir: TestDir, run: TestRun)
    returns (ghost judged: seq<Pair>, ghost lookups: nat)
    modifies conn
    ensures conn.sent == old(conn.sent) + JudgingEvents(Reports(dir, run), halt, testsetPath)
    ensures lookups <= 1 + TestCount(dir)
    ensures FoundInOrder(dir, judged)
    ensures |judged| == |Judged(Reports(dir, run), halt)|
  {
    ghost var rs := Reports(dir, run);
    ReportsAreReports(dir, run);
    var stopped, testCount, allCorrect;
    ghost var done;
    stopped, testCount, allCorrect, done, judged, lookups := JudgeLoop(conn, halt, dir, run, rs);
    if stopped {
      StoppedWith(rs, done, halt, testsetPath);
    } else {
      NeverStopped(rs, halt, testsetPath);
      Conclude(conn, testCount, allCorrect, testsetPath);
      JoinIsAssociative(old(conn.sent), InfoEvents(rs), Conclusion(testCount, allCorrect, testsetPath));
    }
  }

  /** Distinct indices find distinct files. */
  lemma {:induction false} NeverTwice(dir: TestDir, judged: seq<Pair>)
    requires FoundInOrder(dir, judged)
    ensures forall i, j | 0 <= i < j < |judged| :: judged[i].input != judged[j].input && judged[i].output != judged[j].output
  {
    forall i, j | 0 <= i < j < |judged|
      ensures judged[i].input != judged[j].input && judged[i].output != judged[j].output
    {
      assert FindTestcaseFiles(dir, i + 1) == Some(judged[i]) && FindTestcaseFiles(dir, j + 1) == Some(judged[j]);
      var k := FoundSpelling(dir, i + 1);
      var l := FoundSpelling(dir, j + 1);
      SpellingsNeverCoincide(i + 1, k, j + 1, l);
      var a, b := Spelling(i + 1, k), Spelling(j + 1, l);
      assert (a + ".out")[..|a|] == a && (b + ".out")[..|b|] == b;
      assert |a + ".out"| == |a| + 4 && |b + ".out"| == |b| + 4;
    }
  }

  /**
   * `RunnerAgent`: emits exactly the specified events. It looks up at most one index more than
   * there are `.in` files, and judges each pair of files at most once.
   */
  method RunnerAgent(conn: StreamConn, payload: Payload, dir: TestDir, run: TestRun)
    returns (ghost judged: seq<Pair>, ghost lookups: nat)
    modifies conn
    ensures conn.sent == old(conn.sent) + AgentEvents(payload, dir, run)
    ensures lookups <= 1 + |set name | name in dir && IsInput(name)|
    ensures forall i, j | 0 <= i < j < |judged| :: judged[i].input != judged[j].input && judged[i].output != judged[j].output
    ensures payload.Spec? && !payload.compilation.CompileFails? ==>
              |judged| == |Judged(Reports(dir, run), payload.haltOnFirstError)|
  {
    judged, lookups := [], 0;
    match payload {
      case ReadFails(error) =>
        conn.SendEvent(FATAL, IE, [], [], "Failed to recieved execspec: " + error + "\n");
        return;
      case Malformed(error) =>
        conn.SendEvent(FATAL, IE, [], [], "Failed to unmarshal execspec: " + error + "\n");
        conn.SendResult(IE);
        return;
      case Spec(halt, testsetPath, compilation) =>
        if compilation.CompileFails? {
          conn.SendEvent(ERROR, CE, compilation.stdout, compilation.stderr, "");
          conn.SendResult(CE);
          return;
        }
        judged, lookups := Judge(conn, halt, testsetPath, dir, run);
        NeverTwice(dir, judged);
        RunIsBoundedByInputs(dir);
    }
  }

  // ---- properties of the event stream ----

  ghost predicate IsResult(e: Event) {
    e.kind == RESULT
  }

  lemma {:induction false} KindsDiffer()
    ensures INFO != RESULT && ERROR != RESULT && FATAL != RESULT
  {
    assert RESULT[0] == 'R';
  }

  /** One RESULT, and it comes last, on every path but the failed read, which has none. */
  lemma {:induction false} ResultOnceAndLast(payload: Payload, dir: TestDir, run: TestRun)
    ensures var es := AgentEvents(payload, dir, run);
            if payload.ReadFails? then forall k | 0 <= k < |es| :: !IsResult(es[k])
            else |es| > 0 && forall k | 0 <= k < |es| :: IsResult(es[k]) <==> k == |es| - 1
  {
    KindsDiffer();
  }

  lemma {:induction false} AcIsNotWaOrIe()
    ensures AC != WA && AC != IE
  {
    assert AC[0] == 'A';
  }

  /** Accepted exactly when there is a test and every test passes, halting or not. */
  lemma {:induction false} AcceptedIff(rs: seq<RuntimeInfo>, halt: bool)
    ensures FinalVerdict(rs, halt) == AC <==> rs != [] && AllPass(rs)
  {
    AcIsNotWaOrIe();
    var stop := FirstStop(rs, halt);
    if rs != [] && stop < |rs| {
      if IsFatal(rs[stop].verdict) {
        FatalIsNoPass(rs[stop].verdict);
      }
      assert !IsPass(rs[stop].verdict);
    }
  }

  /** Without halting: the first fatal verdict, else Wrong answer if any test fails, else Accepted. */
  lemma {:induction false} FullRunVerdict(rs: seq<RuntimeInfo>, f: nat)
    requires rs != []
    requires f <= |rs| && (f < |rs| ==> IsFatal(rs[f].verdict)) && forall j | 0 <= j < f :: !IsFatal(rs[j].verdict)
    ensures FinalVerdict(rs, false) == if f < |rs| then rs[f].verdict else if AllPass(rs) then AC else WA
    ensures Judged(rs, false) == if f < |rs| then rs[..f + 1] else rs
  {
    var stop := FirstStop(rs, false);
    assert stop < |rs| ==> IsFatal(rs[stop].verdict);
    assert f < |rs| ==> Stops(rs[f].verdict, false);
  }

  /** With halting: the first test that does not pass decides, and nothing after it is judged. */
  lemma {:induction false} HaltingVerdict(rs: seq<RuntimeInfo>, b: nat)
    requires rs != []
    requires b <= |rs| && (b < |rs| ==> !IsPass(rs[b].verdict)) && forall j | 0 <= j < b :: IsPass(rs[j].verdict)
    ensures FinalVerdict(rs, true) == if b == |rs| then AC else if IsFatal(rs[b].verdict) then rs[b].verdict else WA
    ensures Judged(rs, true) == rs[..Min(b + 1, |rs|)]
  {
    var stop := FirstStop(rs, true);
    forall j | 0 <= j < b
      ensures !Stops(rs[j].verdict, true)
    {
      if IsFatal(rs[j].verdict) {
        FatalIsNoPass(rs[j].verdict);
      }
    }
    assert stop < |rs| ==> Stops(rs[stop].verdict, true);
    assert b < |rs| ==> Stops(rs[b].verdict, true);
  }

  /** A wrong answer comes before the first fatal verdict. */
  ghost predicate WrongBeforeFatal(rs: seq<RuntimeInfo>) {
    exists f, w | 0 <= w < f < |rs| ::
      IsFatal(rs[f].verdict) && !IsPass(rs[w].verdict) && forall j | 0 <= j < f :: !IsFatal(rs[j].verdict)
  }

  lemma {:induction false} InfoPrefix(rs: seq<RuntimeInfo>, a: nat, b: nat)
    requires a <= b <= |rs|
    ensures HasPrefix(InfoEvents(rs[..b]), InfoEvents(rs[..a]))
  {
  }

  lemma {:induction false} WrongFirst(rs: seq<RuntimeInfo>)
    requires WrongBeforeFatal(rs)
    ensures FinalVerdict(rs, true) == WA && IsFatal(FinalVerdict(rs, false))
    ensures FinalVerdict(rs, true) != FinalVerdict(rs, false)
  {
    var f, w :| 0 <= w < f < |rs| && IsFatal(rs[f].verdict) && !IsPass(rs[w].verdict) &&
      forall j | 0 <= j < f :: !IsFatal(rs[j].verdict);
    FullRunVerdict(rs, f);
    FatalIsNoPass(rs[f].verdict);
    var h := FirstStop(rs, true);
    assert Stops(rs[w].verdict, true);
    assert h <= w;
  }

  /** A halting run that stops before the full run does was stopped by a wrong answer. */
  lemma {:induction false} StoppedEarlier(rs: seq<RuntimeInfo>, h: nat, f: nat)
    requires h == FirstStop(rs, true) && f == FirstStop(rs, false)
    ensures h < f < |rs| ==> WrongBeforeFatal(rs)
  {
    if h < f < |rs| {
      forall j | 0 <= j < f
        ensures !IsFatal(rs[j].verdict)
      {
        assert !Stops(rs[j].verdict, false);
      }
      assert Stops(rs[h].verdict, true);
      assert Stops(rs[f].verdict, false);
      assert IsFatal(rs[f].verdict) && !IsPass(rs[h].verdict);
    }
  }

  lemma {:induction false} NoWrongFirst(rs: seq<RuntimeInfo>)
    requires !WrongBeforeFatal(rs)
    ensures FinalVerdict(rs, true) == FinalVerdict(rs, false)
  {
    var h, f := FirstStop(rs, true), FirstStop(rs, false);
    if f < |rs| {
      assert Stops(rs[f].verdict, false);
      assert Stops(rs[f].verdict, true);
      StoppedEarlier(rs, h, f);
    } else if h < |rs| {
      assert Stops(rs[h].verdict, true) && !Stops(rs[h].verdict, false);
    }
  }

  /**
   * The same tests judged with and without halting: the halting run's INFO events are a prefix,
   * both are Accepted or neither is, and the results differ exactly when a wrong answer comes
   * before the first fatal verdict, and then the halting run says Wrong answer.
   */
  lemma {:induction false} HaltingAgainstFull(rs: seq<RuntimeInfo>)
    ensures HasPrefix(InfoEvents(Judged(rs, false)), InfoEvents(Judged(rs, true)))
    ensures FinalVerdict(rs, true) == AC <==> FinalVerdict(rs, false) == AC
    ensures FinalVerdict(rs, true) != FinalVerdict(rs, false) <==> WrongBeforeFatal(rs)
    ensures WrongBeforeFatal(rs) ==> FinalVerdict(rs, true) == WA && IsFatal(FinalVerdict(rs, false))
  {
    AcceptedIff(rs, true);
    AcceptedIff(rs, false);
    var h, f := FirstStop(rs, true), FirstStop(rs, false);
    assert f < |rs| ==> Stops(rs[f].verdict, true);
    InfoPrefix(rs, Min(h + 1, |rs|), Min(f + 1, |rs|));
    if WrongBeforeFatal(rs) {
      WrongFirst(rs);
    } else {
      NoWrongFirst(rs);
    }
  }

  // ---- together with runTestCase ----

  ghost predicate ReportIsReal(p: Pair, i: nat, run: TestRun, cfg: (Pair, nat) -> RunTest.Config, setup: (Pair, nat) -> RunTest.Setup) {
    cfg(p, i).index == i && RunTest.MayReport(cfg(p, i), setup(p, i), run(p, i))
  }

  /** Every report is one `runTestCase` may make for that test under some interleaving. */
  ghost predicate ReportsAreReal(dir: TestDir, run: TestRun, cfg: (Pair, nat) -> RunTest.Config, setup: (Pair, nat) -> RunTest.Setup) {
    forall i: nat | Exists(dir, i) :: ReportIsReal(FindTestcaseFiles(dir, i).value, i, run, cfg, setup)
  }

  ghost predicate Solved(dir: TestDir, i: nat, run: TestRun, cfg: (Pair, nat) -> RunTest.Config) {
    Exists(dir, i) && RunTest.SolvedTest(cfg(FindTestcaseFiles(dir, i).value, i), Report(dir, run, i))
  }

  lemma {:induction false} AcceptedPassesAll(payload: Payload, dir: TestDir, run: TestRun)
    requires ResultEvent(AC) in AgentEvents(payload, dir, run)
    ensures Reports(dir, run) != [] && AllPass(Reports(dir, run))
  {
    AcIsNotWaOrIe();
    assert AC[0] != CE[0];
    KindsDiffer();
    ResultOnceAndLast(payload, dir, run);
    assert payload.Spec? && !payload.compilation.CompileFails?;
    assert FinalVerdict(Reports(dir, run), payload.haltOnFirstError) == AC;
    AcceptedIff(Reports(dir, run), payload.haltOnFirstError);
  }

  lemma {:induction false} PassedIsSolved(
    dir: TestDir, i: nat, run: TestRun, cfg: (Pair, nat) -> RunTest.Config, setup: (Pair, nat) -> RunTest.Setup)
    requires ReportsAreReal(dir, run, cfg, setup)
    requires 1 <= i <= TestCount(dir) && AllPass(Reports(dir, run))
    ensures Solved(dir, i, run, cfg)
  {
    var p := FindTestcaseFiles(dir, i).value;
    assert ReportIsReal(p, i, run, cfg, setup);
    assert Reports(dir, run)[i - 1] == run(p, i);
    RunTest.ReportedPassIsSound(cfg(p, i), setup(p, i), run(p, i));
  }

  /**
   * An Accepted result is sound whatever the schedules of the tests were: there is at least one
   * test, and for each one the process was started, exited with status 0, and its complete stdout
   * equals the expected output up to surrounding whitespace.
   */
  lemma {:induction false} AcceptedIsSound(
    payload: Payload, dir: TestDir, run: TestRun,
    cfg: (Pair, nat) -> RunTest.Config, setup: (Pair, nat) -> RunTest.Setup)
    requires ReportsAreReal(dir, run, cfg, setup)
    requires ResultEvent(AC) in AgentEvents(payload, dir, run)
    ensures TestCount(dir) >= 1
    ensures forall i: nat | 1 <= i <= TestCount(dir) :: Solved(dir, i, run, cfg)
  {
    AcceptedPassesAll(payload, dir, run);
    forall i: nat | 1 <= i <= TestCount(dir)
      ensures Solved(dir, i, run, cfg)
    {
      PassedIsSolved(dir, i, run, cfg, setup);
    }
  }

  /** The agent's RESULT carries a status and nothing else. */
  lemma {:induction false} ResultsAreBare(payload: Payload, dir: TestDir, run: TestRun, e: Event)
    requires e in AgentEvents(payload, dir, run) && e.kind == RESULT
    ensures e == ResultEvent(e.status)
  {
    KindsDiffer();
  }

  // ---- which reports end judging, and with what ----

  function Passed(i: nat): string {
    "Running test " + Decimal(i)
  }

  function Wrong(i: nat): string {
    "Wrong answer in test " + Decimal(i)
  }

  /** A report that carries the index of its test; every other one is an end of judging. */
  predicate NamesTest(r: RuntimeInfo, i: nat) {
    r.verdict == Passed(i) || r.verdict == Wrong(i)
  }

  /** Of all reports `runTestCase` may make, judging goes on past those that name their test, and if it halts past a pass only. */
  lemma {:induction false} GoesOnIffNamed(cfg: RunTest.Config, setup: RunTest.Setup, r: RuntimeInfo)
    requires RunTest.MayReport(cfg, setup, r)
    ensures !Stops(r.verdict, false) <==> NamesTest(r, cfg.index)
    ensures !Stops(r.verdict, true) <==> r.verdict == Passed(cfg.index)
    ensures IsPass(r.verdict) <==> r.verdict == Passed(cfg.index)
    ensures setup != RunTest.Started ==> r.verdict == "Internal error" && Stops(r.verdict, false)
  {
    TextsInFull(cfg.index);
    IndexedTexts(cfg.index);
    if setup == RunTest.Started {
      var s :| RunTest.Ends(cfg, s, r);
      RunTest.VerdictIsOneOfSix(cfg, s, r);
    }
    if IsFatal(r.verdict) {
      FatalIsNoPass(r.verdict);
    }
  }

  lemma {:induction false} RealReport(
    dir: TestDir, run: TestRun, cfg: (Pair, nat) -> RunTest.Config, setup: (Pair, nat) -> RunTest.Setup, k: nat)
    requires ReportsAreReal(dir, run, cfg, setup) && k < |Reports(dir, run)|
    ensures var r := Reports(dir, run)[k];
            && (!Stops(r.verdict, false) <==> NamesTest(r, k + 1))
            && (!Stops(r.verdict, true) <==> r.verdict == Passed(k + 1))
            && (IsPass(r.verdict) <==> r.verdict == Passed(k + 1))
            && Passed(k + 1) != Wrong(k + 1)
  {
    var p := FindTestcaseFiles(dir, k + 1).value;
    assert ReportIsReal(p, k + 1, run, cfg, setup);
    GoesOnIffNamed(cfg(p, k + 1), setup(p, k + 1), run(p, k + 1));
    assert Passed(k + 1)[0] != Wrong(k + 1)[0];
  }

  /** The stream: one INFO event for each of the first n reports, with all it says, and a bare RESULT. */
  ghost predicate IsStream(es: seq<Event>, rs: seq<RuntimeInfo>, n: nat, result: string) {
    && n <= |rs| && |es| == n + 1
    && (forall j | 0 <= j < n :: es[j] == Event("INFO", rs[j].verdict, rs[j].stdout, rs[j].stderr, rs[j].details))
    && es[n] == Event("RESULT", result, [], [], "")
  }

  /** k is the first report that does not name its test, or there is none. */
  ghost predicate FirstUnnamed(rs: seq<RuntimeInfo>, k: nat) {
    && k <= |rs| && (k < |rs| ==> !NamesTest(rs[k], k + 1))
    && forall j | 0 <= j < k :: NamesTest(rs[j], j + 1)
  }

  /** k is the first report that is no pass, or there is none. */
  ghost predicate FirstUnpassed(rs: seq<RuntimeInfo>, k: nat) {
    && k <= |rs| && (k < |rs| ==> rs[k].verdict != Passed(k + 1))
    && forall j | 0 <= j < k :: rs[j].verdict == Passed(j + 1)
  }

  ghost predicate AllPassed(rs: seq<RuntimeInfo>) {
    forall j | 0 <= j < |rs| :: rs[j].verdict == Passed(j + 1)
  }

  lemma {:induction false} StreamOfJudged(rs: seq<RuntimeInfo>, halt: bool, testsetPath: string, k: nat)
    requires rs != [] && k <= |rs| && FirstStop(rs, halt) == k
    ensures IsStream(JudgingEvents(rs, halt, testsetPath), rs, Min(k + 1, |rs|), FinalVerdict(rs, halt))
  {
  }

  lemma {:induction false} FullResult(rs: seq<RuntimeInfo>, k: nat)
    requires rs != [] && FirstStop(rs, false) == k
    requires forall j | 0 <= j < |rs| :: IsPass(rs[j].verdict) <==> rs[j].verdict == Passed(j + 1)
    ensures FinalVerdict(rs, false) == if k < |rs| then rs[k].verdict else if AllPassed(rs) then "Accepted" else "Wrong answer"
  {
    assert AllPassed(rs) <==> AllPass(rs);
  }

  /** Without halting: all tests up to the first that fails outright, which gives the result; else all tests. */
  lemma {:induction false} FullStream(
    rs: seq<RuntimeInfo>, testsetPath: string, k: nat)
    requires rs != [] && FirstUnnamed(rs, k)
    requires forall j | 0 <= j < |rs| :: !Stops(rs[j].verdict, false) <==> NamesTest(rs[j], j + 1)
    requires forall j | 0 <= j < |rs| :: IsPass(rs[j].verdict) <==> rs[j].verdict == Passed(j + 1)
    ensures IsStream(JudgingEvents(rs, false, testsetPath), rs, Min(k + 1, |rs|),
                     if k < |rs| then rs[k].verdict
                     else if AllPassed(rs) then "Accepted"
                     else "Wrong answer")
  {
    assert FirstStop(rs, false) == k;
    FullResult(rs, k);
    StreamOfJudged(rs, false, testsetPath, k);
  }

  /** With halting: all tests up to the first that does not pass. */
  lemma {:induction false} HaltingStream(
    rs: seq<RuntimeInfo>, testsetPath: string, k: nat)
    requires rs != [] && FirstUnpassed(rs, k)
    requires forall j | 0 <= j < |rs| :: !Stops(rs[j].verdict, true) <==> rs[j].verdict == Passed(j + 1)
    requires forall j | 0 <= j < |rs| :: !Stops(rs[j].verdict, false) <==> NamesTest(rs[j], j + 1)
    requires forall j | 0 <= j < |rs| :: IsPass(rs[j].verdict) <==> rs[j].verdict == Passed(j + 1)
    ensures IsStream(JudgingEvents(rs, true, testsetPath), rs, Min(k + 1, |rs|),
                     if k == |rs| then "Accepted"
                     else if rs[k].verdict == Wrong(k + 1) then "Wrong answer"
                     else rs[k].verdict)
  {
    assert FirstStop(rs, true) == k;
    StreamOfJudged(rs, true, testsetPath, k);
  }

  /**
   * Everything the agent emits for tests that were really run: INFO events up to the test that ends
   * judging and the RESULT it leads to. Without halting that is the first test whose report
   * does not name it (a fatal verdict, which is the result); with halting the first that is no pass.
   */
  lemma {:induction false} JudgedToTheEnd(
    payload: Payload, dir: TestDir, run: TestRun, cfg: (Pair, nat) -> RunTest.Config, setup: (Pair, nat) -> RunTest.Setup, k: nat)
    requires ReportsAreReal(dir, run, cfg, setup) && TestCount(dir) >= 1
    requires payload.Spec? && !payload.compilation.CompileFails?
    ensures var rs, es := Reports(dir, run), AgentEvents(payload, dir, run);
            && (!payload.haltOnFirstError && FirstUnnamed(rs, k) ==>
                  IsStream(es, rs, Min(k + 1, |rs|),
                           if k < |rs| then rs[k].verdict
                           else if AllPassed(rs) then "Accepted"
                           else "Wrong answer"))
            && (payload.haltOnFirstError && FirstUnpassed(rs, k) ==>
                  IsStream(es, rs, Min(k + 1, |rs|),
                           if k == |rs| then "Accepted"
                           else if rs[k].verdict == Wrong(k + 1) then "Wrong answer"
                           else rs[k].verdict))
  {
    var rs := Reports(dir, run);
    forall j: nat | j < |rs|
      ensures !Stops(rs[j].verdict, false) <==> NamesTest(rs[j], j + 1)
      ensures !Stops(rs[j].verdict, true) <==> rs[j].verdict == Passed(j + 1)
      ensures IsPass(rs[j].verdict) <==> rs[j].verdict == Passed(j + 1)
    {
      RealReport(dir, run, cfg, setup, j);
    }
    if !payload.haltOnFirstError && FirstUnnamed(rs, k) {
      FullStream(rs, payload.testsetPath, k);
    }
    if payload.haltOnFirstError && FirstUnpassed(rs, k) {
      HaltingStream(rs, payload.testsetPath, k);
    }
  }

  lemma {:induction false} DeadlineIsUnnamed(cfg: RunTest.Config, s: RunTest.State, r: RuntimeInfo, i: nat)
    requires RunTest.Ends(cfg, s, r) && s.phase.end.ByDeadline?
    ensures r.verdict == "Time limit exceeded" && r.verdict != Passed(i) && r.verdict != Wrong(i)
  {
    RunTest.KillVerdictsAreJustified(cfg, s, r);
    assert TLE[0] != Passed(i)[0] && TLE[0] != Wrong(i)[0];
  }

  /** In particular a test ended by the deadline, after passes only, is the last one judged, and the result is TLE. */
  lemma {:induction false} DeadlineEndsJudging(
    payload: Payload, dir: TestDir, run: TestRun, cfg: (Pair, nat) -> RunTest.Config, setup: (Pair, nat) -> RunTest.Setup,
    k: nat, s: RunTest.State)
    requires ReportsAreReal(dir, run, cfg, setup) && k < TestCount(dir)
    requires payload.Spec? && !payload.compilation.CompileFails?
    requires forall j | 0 <= j < k :: Reports(dir, run)[j].verdict == Passed(j + 1)
    requires var p := FindTestcaseFiles(dir, k + 1).value;
             RunTest.Ends(cfg(p, k + 1), s, Report(dir, run, k + 1)) && s.phase.end.ByDeadline?
    ensures IsStream(AgentEvents(payload, dir, run), Reports(dir, run), k + 1, "Time limit exceeded")
  {
    var rs := Reports(dir, run);
    DeadlineIsUnnamed(cfg(FindTestcaseFiles(dir, k + 1).value, k + 1), s, Report(dir, run, k + 1), k + 1);
    assert rs[k] == Report(dir, run, k + 1);
    assert FirstUnpassed(rs, k) && FirstUnnamed(rs, k);
    JudgedToTheEnd(payload, dir, run, cfg, setup, k);
  }

  /** The two streams without any test, and what a directory without tests leads to. */
  lemma {:induction false} UnjudgedStreams(payload: Payload, dir: TestDir, run: TestRun)
    ensures var es := AgentEvents(payload, dir, run);
            && (payload.Malformed? ==>
                  && |es| == 2 && es[1] == Event("RESULT", "Internal error", [], [], "")
                  && es[0].kind == "FATAL" && es[0].status == "Internal error")
            && (payload.Spec? && payload.compilation.CompileFails? ==>
                  es == [Event("ERROR", "Compilation error", payload.compilation.stdout, payload.compilation.stderr, ""),
                         Event("RESULT", "Compilation error", [], [], "")])
            && (payload.Spec? && !payload.compilation.CompileFails? && TestCount(dir) == 0 ==>
                  && |es| == 2 && es[1] == Event("RESULT", "Internal error", [], [], "")
                  && es[0].kind == "ERROR" && es[0].status == "Internal error")
  {
    if payload.Spec? && !payload.compilation.CompileFails? && TestCount(dir) == 0 {
      assert Reports(dir, run) == [];
      assert InfoEvents(Judged([], payload.haltOnFirstError)) == [];
    }
  }

  // ---- which submissions can be Accepted at all ----

  type Configs = (Pair, nat) -> RunTest.Config

  /** A report with which some program passes the test, if there is one. */
  ghost function PassingReport(cfg: RunTest.Config): (info: RuntimeInfo)
    requires RunTest.CanPass(cfg)
    ensures IsPass(info.verdict) && exists s :: RunTest.Ends(cfg, s, info)
  {
    var s, info :| RunTest.Ends(cfg, s, info) && IsPass(info.verdict);
    info
  }

  /** Every test that can be passed is passed; the input of any other is unreadable. */
  ghost function BestRun(cfg: Configs): TestRun {
    (p: Pair, i: nat) => if RunTest.CanPass(cfg(p, i)) then PassingReport(cfg(p, i)) else RuntimeInfo(IE, [], [], "")
  }

  ghost function BestSetup(cfg: Configs): (Pair, nat) -> RunTest.Setup {
    (p: Pair, i: nat) => if RunTest.CanPass(cfg(p, i)) then RunTest.Started else RunTest.InputUnreadable("")
  }

  predicate HasIndex(dir: TestDir, cfg: Configs, i: nat)
    requires Exists(dir, i)
  {
    cfg(FindTestcaseFiles(dir, i).value, i).index == i
  }

  ghost predicate HasIndices(dir: TestDir, cfg: Configs) {
    forall i: nat | Exists(dir, i) :: HasIndex(dir, cfg, i)
  }

  /** The trimmed answer of test i is blank or shorter than the log limit. */
  predicate AnswerFits(dir: TestDir, cfg: Configs, i: nat)
    requires Exists(dir, i)
  {
    var c := cfg(FindTestcaseFiles(dir, i).value, i);
    TrimSpace(c.expected) == [] || |TrimSpace(c.expected)| < c.Limit()
  }

  ghost predicate Accepts(payload: Payload, dir: TestDir, cfg: Configs, run: TestRun, setup: (Pair, nat) -> RunTest.Setup) {
    ReportsAreReal(dir, run, cfg, setup) && ResultEvent(AC) in AgentEvents(payload, dir, run)
  }

  lemma {:induction false} BestReportPasses(cfg: Configs, p: Pair, i: nat)
    requires var c := cfg(p, i); TrimSpace(c.expected) == [] || |TrimSpace(c.expected)| < c.Limit()
    ensures IsPass(BestRun(cfg)(p, i).verdict)
  {
    RunTest.PassablePreciselyBelowLimit(cfg(p, i));
  }

  lemma {:induction false} BestReportIsReal(cfg: Configs, p: Pair, i: nat)
    requires cfg(p, i).index == i
    ensures ReportIsReal(p, i, BestRun(cfg), cfg, BestSetup(cfg))
  {
  }

  lemma {:induction false} BestRunIsReal(dir: TestDir, cfg: Configs)
    requires HasIndices(dir, cfg)
    ensures ReportsAreReal(dir, BestRun(cfg), cfg, BestSetup(cfg))
  {
    forall i: nat | Exists(dir, i)
      ensures ReportIsReal(FindTestcaseFiles(dir, i).value, i, BestRun(cfg), cfg, BestSetup(cfg))
    {
      assert HasIndex(dir, cfg, i);
      BestReportIsReal(cfg, FindTestcaseFiles(dir, i).value, i);
    }
  }

  lemma {:induction false} BestRunPasses(dir: TestDir, cfg: Configs)
    requires forall i: nat | 1 <= i <= TestCount(dir) :: AnswerFits(dir, cfg, i)
    ensures AllPass(Reports(dir, BestRun(cfg)))
  {
    ReportsAreReports(dir, BestRun(cfg));
    var rs := Reports(dir, BestRun(cfg));
    forall k: nat | k < |rs|
      ensures IsPass(rs[k].verdict)
    {
      assert IsReport(dir, BestRun(cfg), rs[k], k + 1) && AnswerFits(dir, cfg, k + 1);
      BestReportPasses(cfg, FindTestcaseFiles(dir, k + 1).value, k + 1);
    }
  }

  lemma {:induction false} AllPassIsAccepted(payload: Payload, dir: TestDir, run: TestRun)
    requires payload.Spec? && !payload.compilation.CompileFails?
    requires TestCount(dir) >= 1 && AllPass(Reports(dir, run))
    ensures ResultEvent(AC) in AgentEvents(payload, dir, run)
  {
    AcceptedIff(Reports(dir, run), payload.haltOnFirstError);
    var es := AgentEvents(payload, dir, run);
    assert es[|es| - 1] == ResultEvent(AC);
  }

  lemma {:induction false} PassedAnswerFits(
    dir: TestDir, cfg: Configs, run: TestRun, setup: (Pair, nat) -> RunTest.Setup, i: nat)
    requires ReportsAreReal(dir, run, cfg, setup)
    requires 1 <= i <= TestCount(dir) && AllPass(Reports(dir, run))
    ensures AnswerFits(dir, cfg, i)
  {
    var p := FindTestcaseFiles(dir, i).value;
    assert ReportIsReal(p, i, run, cfg, setup);
    assert Reports(dir, run)[i - 1] == run(p, i);
    RunTest.ReportedPassIsPassable(cfg(p, i), setup(p, i), run(p, i));
  }

  lemma {:induction false} AcceptedAnswerFits(
    payload: Payload, dir: TestDir, cfg: Configs, run: TestRun, setup: (Pair, nat) -> RunTest.Setup, i: nat)
    requires Accepts(payload, dir, cfg, run, setup) && 1 <= i <= TestCount(dir)
    ensures AnswerFits(dir, cfg, i)
  {
    AcceptedPassesAll(payload, dir, run);
    assert Exists(dir, i);
    PassedAnswerFits(dir, cfg, run, setup, i);
  }

  /**
   * Some program is Accepted under some schedules exactly if there is a test and the trimmed
   * answer of every test is blank or shorter than the log limit.
   */
  lemma {:induction false} AcceptedIsPossibleIff(payload: Payload, dir: TestDir, cfg: Configs)
    requires payload.Spec? && !payload.compilation.CompileFails? && HasIndices(dir, cfg)
    ensures (exists run, setup :: Accepts(payload, dir, cfg, run, setup)) <==>
            TestCount(dir) >= 1 && forall i: nat | 1 <= i <= TestCount(dir) :: AnswerFits(dir, cfg, i)
  {
    if run, setup :| Accepts(payload, dir, cfg, run, setup) {
      AcceptedPassesAll(payload, dir, run);
      forall i: nat | 1 <= i <= TestCount(dir)
        ensures AnswerFits(dir, cfg, i)
      {
        AcceptedAnswerFits(payload, dir, cfg, run, setup, i);
      }
    }
    if TestCount(dir) >= 1 && forall i: nat | 1 <= i <= TestCount(dir) :: AnswerFits(dir, cfg, i) {
      BestRunIsReal(dir, cfg);
      BestRunPasses(dir, cfg);
      AllPassIsAccepted(payload, dir, BestRun(cfg));
      assert Accepts(payload, dir, cfg, BestRun(cfg), BestSetup(cfg));
    }
  }
}
