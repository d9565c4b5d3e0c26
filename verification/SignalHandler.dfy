/** ajagent/internal/sighandler.go: from the way a process ended to a verdict. */
module SignalHandler {
  import opened Text
  import opened Verdicts

  datatype WaitStatus = Code(code: nat) | Signal(sig: nat)

  /** How the process ended; `maxrssKB` is its peak memory if the kernel reported one. */
  datatype Exit = Exit(status: WaitStatus, maxrssKB: Option<nat>)

  /** The error of `cmd.Wait()`: an ExitError, or any other error (context, copying). */
  datatype WaitError = NoError | ExitError(exit: Exit) | OtherError(text: string)

  datatype Cause = Cause(verdict: string, details: string, isSignal: bool)

  const SIGILL := 4
  const SIGABRT := 6
  const SIGFPE := 8
  const SIGKILL := 9
  const SIGSEGV := 11
  const SIGPIPE := 13

  /** `uint64(sysUsage.Maxrss) * 1024`, in uint64 arithmetic; 0 when there is no usage record. */
  function PeakMemBytes(exit: Exit): nat {
    match exit.maxrssKB
    case None => 0
    case Some(kb) => (kb * 1024) % 0x1_0000_0000_0000_0000
  }

  /** The test the code makes: bytes on the left, a number of megabytes on the right. */
  predicate OverThreshold(peakMemBytes: nat, memoryLimitMB: nat) {
    peakMemBytes as real >= memoryLimitMB as real * 0.95
  }

  function Classify(memoryLimitMB: nat, err: WaitError): Cause
    requires err != NoError
  {
    match err
    case OtherError(text) => Cause(RE, text, false)
    case ExitError(exit) =>
      match exit.status
      case Code(code) => Cause(RE, "Exited with status " + Decimal(code), false)
      case Signal(sig) =>
        if sig == SIGPIPE then Cause(OLE, "Output limit exceeded (SIGPIPE)", true)
        else if sig == SIGABRT then Cause(RE, "Aborted (SIGABRT)", true)
        else if sig == SIGILL then Cause(RE, "Illegal instruction (SIGILL)", true)
        else if sig == SIGSEGV then Cause(RE, "Segmentation fault (SIGSEGV)", true)
        else if sig == SIGFPE then Cause(RE, "Floating point exception (SIGFPE / Division by Zero)", true)
        else if sig == SIGKILL then
          var peak := PeakMemBytes(exit);
          if OverThreshold(peak, memoryLimitMB)
          then Cause(MLE, "Memory Used: [ " + Decimal(peak / (1024 * 1024)) + " MB / " + Decimal(memoryLimitMB) + " MB]", true)
          else Cause(TLE, "Time Limit Exceeded", true)
        else Cause(RE, "Terminated by signal " + Decimal(sig), true)
  }

  predicate KilledBy(err: WaitError, sig: nat) {
    err.ExitError? && err.exit.status == Signal(sig)
  }

  /** Which cause gives which verdict, in both directions. */
  lemma {:induction false} VerdictTellsCause(memoryLimitMB: nat, err: WaitError)
    requires err != NoError
    ensures var v := Classify(memoryLimitMB, err).verdict;
            && (v == OLE <==> KilledBy(err, SIGPIPE))
            && (v == MLE <==> KilledBy(err, SIGKILL) && OverThreshold(PeakMemBytes(err.exit), memoryLimitMB))
            && (v == TLE <==> KilledBy(err, SIGKILL) && !OverThreshold(PeakMemBytes(err.exit), memoryLimitMB))
            && (v == RE <==> !KilledBy(err, SIGPIPE) && !KilledBy(err, SIGKILL))
  {
    assert RE[0] == 'R' && OLE[0] == 'O' && MLE[0] == 'M' && TLE[0] == 'T';
  }

  /** The verdict and the explanation of every end of a process, by the numbers of the signals. */
  lemma {:induction false} CauseOfExit(memoryLimitMB: nat, exit: Exit)
    ensures var c := Classify(memoryLimitMB, ExitError(exit));
            match exit.status
            case Code(n) => c.verdict == "Runtime error" && c.details == "Exited with status " + Decimal(n)
            case Signal(n) =>
              && (n == 13 ==> c.verdict == "Output limit exceeded" && c.details == "Output limit exceeded (SIGPIPE)")
              && (n == 9 ==> c.verdict in {"Memory limit exceeded", "Time limit exceeded"})
              && (n == 9 && c.verdict == "Time limit exceeded" ==> c.details == "Time Limit Exceeded")
              && (n != 13 && n != 9 ==> c.verdict == "Runtime error")
              && (n == 4 ==> c.details == "Illegal instruction (SIGILL)")
              && (n == 6 ==> c.details == "Aborted (SIGABRT)")
              && (n == 8 ==> c.details == "Floating point exception (SIGFPE / Division by Zero)")
              && (n == 11 ==> c.details == "Segmentation fault (SIGSEGV)")
              && (n !in {4, 6, 8, 9, 11, 13} ==> c.details == "Terminated by signal " + Decimal(n))
  {
    assert MLE[0] != TLE[0];
  }

  // ---- the memory check against its evident intent ----

  /** What the check is meant to be: the peak reached 95% of the limit, both in bytes. */
  predicate ReachedLimit(peakMemBytes: nat, memoryLimitMB: nat) {
    20 * peakMemBytes >= 19 * memoryLimitMB * (1024 * 1024)
  }

  lemma {:induction false} OverIff(peakMemBytes: nat, memoryLimitMB: nat)
    ensures OverThreshold(peakMemBytes, memoryLimitMB) <==> 20 * peakMemBytes >= 19 * memoryLimitMB
  {
    assert 20.0 * (peakMemBytes as real) == (20 * peakMemBytes) as real;
    assert 19.0 * (memoryLimitMB as real) == (19 * memoryLimitMB) as real;
  }

  /** The units make the check and its intent agree exactly when the peak is tiny or really at the limit. */
  lemma {:induction false} ThresholdMeetsIntent(peakMemBytes: nat, memoryLimitMB: nat)
    ensures OverThreshold(peakMemBytes, memoryLimitMB) == ReachedLimit(peakMemBytes, memoryLimitMB)
       <==> !(19 * memoryLimitMB <= 20 * peakMemBytes < 19 * 1048576 * memoryLimitMB)
  {
    OverIff(peakMemBytes, memoryLimitMB);
  }

  /** A SIGKILL in whole kilobytes of peak memory, as the kernel counts it. */
  function Killed(kb: nat): WaitError {
    ExitError(Exit(Signal(SIGKILL), Some(kb)))
  }

  lemma {:induction false} KilledIsMleIff(memoryLimitMB: nat, kb: nat)
    requires kb < 0x40_0000_0000_0000
    ensures Classify(memoryLimitMB, Killed(kb)).verdict == MLE <==> 20480 * kb >= 19 * memoryLimitMB
  {
    assert PeakMemBytes(Exit(Signal(SIGKILL), Some(kb))) == kb * 1024;
    VerdictTellsCause(memoryLimitMB, Killed(kb));
    OverIff(kb * 1024, memoryLimitMB);
  }

  /** The peak is uint64 arithmetic: it starts again every 2^54 kilobytes. */
  lemma {:induction false} PeakWraps(status: WaitStatus, kb: nat)
    ensures PeakMemBytes(Exit(status, Some(kb + 0x40_0000_0000_0000))) == PeakMemBytes(Exit(status, Some(kb)))
    ensures kb < 0x40_0000_0000_0000 ==> PeakMemBytes(Exit(status, Some(kb))) == kb * 1024
  {
  }

  /** The memory that an MLE states is the peak in whole megabytes. */
  lemma {:induction false} MleStatesPeak(memoryLimitMB: nat, kb: nat)
    requires kb < 0x40_0000_0000_0000 && 20480 * kb >= 19 * memoryLimitMB
    ensures Classify(memoryLimitMB, Killed(kb)).details ==
            "Memory Used: [ " + Decimal(kb / 1024) + " MB / " + Decimal(memoryLimitMB) + " MB]"
  {
    KilledIsMleIff(memoryLimitMB, kb);
    assert kb * 1024 / (1024 * 1024) == kb / 1024;
    VerdictTellsCause(memoryLimitMB, Killed(kb));
  }

  /** Without a usage record the peak counts as 0, which is over the threshold of a limit of 0 only. */
  lemma {:induction false} UnrecordedPeak(memoryLimitMB: nat)
    ensures Classify(memoryLimitMB, ExitError(Exit(Signal(9), None))).verdict ==
            if memoryLimitMB == 0 then "Memory limit exceeded" else "Time limit exceeded"
  {
    OverIff(0, memoryLimitMB);
  }

  /** A process of 2 MB killed for any reason under a 512 MB limit is reported as out of memory. */
  lemma {:induction false} SmallProcessReadsAsMle()
    ensures Classify(512, Killed(2048)).verdict == MLE && !ReachedLimit(PeakMemBytes(Killed(2048).exit), 512)
  {
    KilledIsMleIff(512, 2048);
  }

  /**
   * The kernel counts peak memory in whole kilobytes, so the TLE branch of a SIGKILL is dead for
   * every process that used any memory: exactly when the limit is at most 1077 MB.
   */
  lemma {:induction false} KillIsAlwaysMle(memoryLimitMB: nat)
    ensures (forall kb: nat | 0 < kb < 0x40_0000_0000_0000 :: Classify(memoryLimitMB, Killed(kb)).verdict == MLE)
       <==> memoryLimitMB <= 1077
  {
    forall kb: nat | 0 < kb < 0x40_0000_0000_0000
      ensures Classify(memoryLimitMB, Killed(kb)).verdict == MLE <==> 20480 * kb >= 19 * memoryLimitMB
    {
      KilledIsMleIff(memoryLimitMB, kb);
    }
    if memoryLimitMB > 1077 {
      assert Classify(memoryLimitMB, Killed(1)).verdict != MLE;
    }
  }
}
