/** ajagent/internal/utils.go: verdict texts, event types and the event record. */
module Verdicts {
  import opened Text

  const OK := "Running test"
  const AC := "Accepted"
  const WA := "Wrong answer"
  const TLE := "Time limit exceeded"
  const RE := "Runtime error"
  const MLE := "Memory limit exceeded"
  const OLE := "Output limit exceeded"
  const CE := "Compilation error"
  const IE := "Internal error"

  const FATAL := "FATAL"
  const ERROR := "ERROR"
  const INFO := "INFO"
  const RESULT := "RESULT"

  /** What `runTestCase` reports; the logs are raw bytes. */
  datatype RuntimeInfo = RuntimeInfo(verdict: string, stdout: seq<byte>, stderr: seq<byte>, details: string)

  /** One message on the agent's socket. */
  datatype Event = Event(kind: string, status: string, stdout: seq<byte>, stderr: seq<byte>, details: string)

  /** The verdicts that end judging at once. */
  predicate IsFatal(verdict: string) {
    verdict == RE || verdict == TLE || verdict == OLE || verdict == MLE || verdict == IE
  }

  /** `strings.HasPrefix(verdict, verdictOK)` */
  predicate IsPass(verdict: string) {
    HasPrefix(verdict, OK)
  }

  lemma {:induction false} FatalIsNoPass(verdict: string)
    requires IsFatal(verdict)
    ensures !IsPass(verdict) && verdict != WA && verdict != AC
  {
    assert RE[3] != OK[3] && TLE[0] != OK[0] && OLE[0] != OK[0] && MLE[0] != OK[0] && IE[0] != OK[0];
    NoPrefix(verdict, OK, if verdict == RE then 3 else 0);
  }

  /** The two verdict texts that carry the test's index. */
  function PassText(i: nat): string {
    OK + " " + Decimal(i)
  }

  function WrongText(i: nat): string {
    WA + " in test " + Decimal(i)
  }

  lemma {:induction false} IndexedTexts(i: nat)
    ensures IsPass(PassText(i)) && !IsFatal(PassText(i))
    ensures !IsPass(WrongText(i)) && !IsFatal(WrongText(i))
  {
    assert PassText(i)[..|OK|] == OK;
    if IsFatal(PassText(i)) {
      FatalIsNoPass(PassText(i));
    }
    assert WrongText(i)[0] == 'W' && WrongText(i)[0] != RE[0] && WrongText(i)[0] != TLE[0];
    assert WrongText(i)[0] != MLE[0] && WrongText(i)[0] != OLE[0] && WrongText(i)[0] != IE[0];
    NoPrefix(WrongText(i), OK, 0);
  }

  lemma {:induction false} TextsInFull(i: nat)
    ensures PassText(i) == "Running test " + Decimal(i) && WrongText(i) == "Wrong answer in test " + Decimal(i)
  {
    assert "Running test " == OK + " " && "Wrong answer in test " == WA + " in test ";
  }
}
