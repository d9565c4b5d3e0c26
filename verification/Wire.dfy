/**
 * The records on the way from the agent to the client: the event line on the socket, the payload
 * the runner publishes for it (runner/internal/exesubmission.go), and the SDK's JudgeEvent.
 */
module Wire {
  import opened Text
  import opened Verdicts
  import opened Json

  /** `utils.RMQPayload` */
  datatype Payload = Payload(kind: string, status: string, details: string)

  /** `JudgeEvent` of sdk/src/alpinejudge/models.py */
  datatype JudgeEvent = JudgeEvent(kind: string, status: string, stdout: string, stderr: string, details: string)

  const BLANK: Payload := Payload("", "", "")

  function EventMembers(e: Event): Members {
    [ ("Type", Lift(e.kind)), ("Status", Lift(e.status)), ("Stdout", Runes(e.stdout)),
      ("Stderr", Runes(e.stderr)), ("Details", Lift(e.details)) ]
  }

  /** The line `sendEvent` encodes, without its newline. */
  function EventText(e: Event): string {
    Object(EventMembers(e))
  }

  function PayloadMembers(p: Payload): Members {
    [("Type", Lift(p.kind)), ("Status", Lift(p.status)), ("Details", Lift(p.details))]
  }

  function PayloadText(p: Payload): string {
    Object(PayloadMembers(p))
  }

  /** `json.Unmarshal` into a fresh Event and the choice of three fields; an error leaves all blank. */
  function Project(line: string): Payload {
    match ParseObject(line)
    case None => BLANK
    case Some(d) => Payload(Get(d, "Type"), Get(d, "Status"), Get(d, "Details"))
  }

  /** The message published for a scanned line. */
  function Route(line: string): string {
    PayloadText(Project(line))
  }

  /** `JudgeEvent.from_dict` */
  function FromDict(d: Decoded): JudgeEvent {
    JudgeEvent(Get(d, "Type"), Get(d, "Status"), Get(d, "Stdout"), Get(d, "Stderr"), Get(d, "Details"))
  }

  function PayloadOf(e: Event): Payload {
    Payload(e.kind, e.status, e.details)
  }

  function View(p: Payload): JudgeEvent {
    JudgeEvent(p.kind, p.status, "", "", p.details)
  }

  // ---- round trips ----

  lemma {:induction false} KeysDiffer()
    ensures "Stdout" != "Type" && "Stderr" != "Type"
    ensures "Details" != "Type" && "Details" != "Status" && "Stderr" != "Type" && "Stderr" != "Status"
    ensures "Stdout" != "Type" && "Stdout" != "Status" && "Status" != "Type" && "Details" != "Stdout" && "Details" != "Stderr"
  {
    assert "Details"[0] != "Type"[0] && "Details"[0] != "Status"[0] && "Stderr"[2] != "Status"[2];
    assert "Stdout"[2] != "Status"[2] && "Status"[0] != "Type"[0];
  }

  lemma {:induction false} GetTwo(d: Decoded, key: string)
    requires |d| == 2
    ensures Get(d, key) == if d[1].0 == key then d[1].1 else if d[0].0 == key then d[0].1 else ""
  {
    assert d[..1][..0] == [];
    assert Get(d[..1], key) == if d[0].0 == key then d[0].1 else "";
  }

  /** Lookup one and two members further in. */
  lemma {:induction false} GetIn(d: Decoded, key: string)
    requires |d| == 5 && d[4].0 != key && d[3].0 != key && d[2].0 != key
    ensures Get(d, key) == if d[1].0 == key then d[1].1 else if d[0].0 == key then d[0].1 else ""
  {
    assert Get(d, key) == Get(d[..4], key);
    assert d[..4][..3] == d[..3];
    assert Get(d[..4], key) == Get(d[..3], key);
    assert d[..3][..2] == d[..2];
    GetTwo(d[..2], key);
  }

  lemma {:induction false} EventDecodes(e: Event)
    ensures ParseObject(EventText(e)).Some?
    ensures var d := ParseObject(EventText(e)).value;
            Get(d, "Type") == e.kind && Get(d, "Status") == e.status && Get(d, "Details") == e.details
  {
    var ms := EventMembers(e);
    ObjectRoundTrip(ms);
    CleanOfLift(e.kind);
    CleanOfLift(e.status);
    CleanOfLift(e.details);
    var d := CleanMembers(ms);
    assert d == [("Type", e.kind), ("Status", e.status), ("Stdout", Clean(Runes(e.stdout))),
                 ("Stderr", Clean(Runes(e.stderr))), ("Details", e.details)];
    KeysDiffer();
    GetIn(d, "Type");
    GetIn(d, "Status");
  }

  /** The two logs of an event line, which the runner stores; bytes that are no UTF-8 become U+FFFD. */
  lemma {:induction false} LogsDecode(e: Event)
    ensures ParseObject(EventText(e)).Some?
    ensures var d := ParseObject(EventText(e)).value;
            Get(d, "Stdout") == Clean(Runes(e.stdout)) && Get(d, "Stderr") == Clean(Runes(e.stderr))
  {
    var ms := EventMembers(e);
    ObjectRoundTrip(ms);
    var d := CleanMembers(ms);
    assert d[2] == ("Stdout", Clean(Runes(e.stdout))) && d[3] == ("Stderr", Clean(Runes(e.stderr))) && d[4].0 == "Details";
    KeysDiffer();
    assert "Stdout"[3] != "Stderr"[3];
    assert Get(d, "Stderr") == Get(d[..4], "Stderr") == d[3].1;
    assert d[..4][..3] == d[..3];
    assert Get(d, "Stdout") == Get(d[..4], "Stdout") == Get(d[..3], "Stdout") == d[2].1;
  }

  /** Read as a record of the SDK, an event line gives all five fields. */
  lemma {:induction false} EventReadsBack(e: Event)
    ensures ParseObject(EventText(e)).Some?
    ensures FromDict(ParseObject(EventText(e)).value) ==
            JudgeEvent(e.kind, e.status, Clean(Runes(e.stdout)), Clean(Runes(e.stderr)), e.details)
  {
    EventDecodes(e);
    LogsDecode(e);
  }

  /** Logs that are text in UTF-8 arrive as that text. */
  lemma {:induction false} TextLogsDecode(e: Event, out: string, err: string)
    requires e.stdout == Utf8Text(out) && e.stderr == Utf8Text(err)
    ensures ParseObject(EventText(e)).Some?
    ensures var d := ParseObject(EventText(e)).value; Get(d, "Stdout") == out && Get(d, "Stderr") == err
  {
    LogsDecode(e);
    RunesOfText(out);
    RunesOfText(err);
    CleanOfLift(out);
    CleanOfLift(err);
  }

  /** The runner recovers type, status and details of an event line exactly. */
  lemma {:induction false} ProjectEvent(e: Event)
    ensures Project(EventText(e)) == PayloadOf(e)
  {
    EventDecodes(e);
  }

  lemma {:induction false} RouteEvent(e: Event)
    ensures Route(EventText(e)) == PayloadText(PayloadOf(e))
  {
    ProjectEvent(e);
  }

  /** A line cut short decodes to the blank payload. */
  lemma {:induction false} ProjectCut(e: Event, k: nat)
    requires k < |EventText(e)|
    ensures Project(EventText(e)[..k]) == BLANK
  {
    CutObjectFails(EventMembers(e), k);
  }

  /** The SDK reads back exactly the payload that was published. */
  lemma {:induction false} PayloadDecodes(p: Payload)
    ensures ParseObject(PayloadText(p)).Some? && FromDict(ParseObject(PayloadText(p)).value) == View(p)
  {
    var ms := PayloadMembers(p);
    ObjectRoundTrip(ms);
    CleanOfLift(p.kind);
    CleanOfLift(p.status);
    CleanOfLift(p.details);
    var d := CleanMembers(ms);
    assert d == [("Type", p.kind), ("Status", p.status), ("Details", p.details)];
    KeysDiffer();
    GetTwo(d[..2], "Type");
    GetTwo(d[..2], "Status");
    GetTwo(d[..2], "Stdout");
    GetTwo(d[..2], "Stderr");
  }

  lemma {:induction false} CutPayloadFails(p: Payload, k: nat)
    requires k < |PayloadText(p)|
    ensures ParseObject(PayloadText(p)[..k]).None?
  {
    CutObjectFails(PayloadMembers(p), k);
  }

  // ---- what the encoded texts contain ----

  /** U+0085, which the encoder leaves raw, in one of the published fields. */
  predicate PayloadHasNel(p: Payload) {
    NEL in p.kind || NEL in p.status || NEL in p.details
  }

  lemma {:induction false} LiftHas(s: string, c: char)
    ensures Scalar(c) in Lift(s) <==> c in s
  {
    if c in s {
      var i :| 0 <= i < |s| && s[i] == c;
      assert Lift(s)[i] == Scalar(c);
    }
  }

  lemma {:induction false} NelOfPayload(p: Payload)
    ensures HasNel(PayloadMembers(p)) <==> PayloadHasNel(p)
  {
    var ms := PayloadMembers(p);
    LiftHas(p.kind, NEL);
    LiftHas(p.status, NEL);
    LiftHas(p.details, NEL);
    if PayloadHasNel(p) {
      assert Scalar(NEL) in ms[0].1 || Scalar(NEL) in ms[1].1 || Scalar(NEL) in ms[2].1;
    }
  }

  lemma {:induction false} PayloadIsSafe(p: Payload)
    ensures Safe(PayloadText(p), PayloadHasNel(p))
    ensures NEL in PayloadText(p) <==> PayloadHasNel(p)
    ensures |PayloadText(p)| >= 2 && PayloadText(p)[0] == '{' && PayloadText(p)[|PayloadText(p)| - 1] == '}'
  {
    var ms := PayloadMembers(p);
    ObjectIsSafe(ms);
    NelOfPayload(p);
  }

  /** An event line has no newline in it and ends in a brace. */
  lemma {:induction false} EventLineIsSafe(e: Event)
    ensures Safe(EventText(e), true)
    ensures |EventText(e)| >= 2 && EventText(e)[0] == '{' && EventText(e)[|EventText(e)| - 1] == '}'
  {
    ObjectIsSafe(EventMembers(e));
  }

  /** The bytes the three texts of an event take on its line. */
  function TextsSize(kind: string, status: string, details: string): nat {
    EncodedSize(Lift(kind)) + EncodedSize(Lift(status)) + EncodedSize(Lift(details))
  }

  lemma {:induction false} EncodedText(s: string)
    ensures EncodedSize(Lift(s)) <= 6 * Utf8Size(s)
  {
    TailSize(Lift(s));
    LiftWidth(s);
  }

  lemma {:induction false} EncodedLog(s: seq<byte>)
    ensures EncodedSize(Runes(s)) <= 6 * |s|
  {
    TailSize(Runes(s));
    RunesTakeAllBytes(s);
  }

  /** The exact size of an event line: sixty bytes of frame and what its five fields are encoded to. */
  lemma {:induction false} EventLineExactly(e: Event)
    ensures Utf8Size(EventText(e)) ==
            60 + TextsSize(e.kind, e.status, e.details) + EncodedSize(Runes(e.stdout)) + EncodedSize(Runes(e.stderr))
  {
    var ms := EventMembers(e);
    ObjectSize(ms);
    assert ms[1..][1..] == ms[2..] && ms[2..][1..] == ms[3..] && ms[3..][1..] == ms[4..] && ms[4..][1..] == [];
    assert SizeOf(ms[4..]) == 13 + EncodedSize(ms[4].1);
    assert SizeOf(ms[3..]) == 12 + EncodedSize(ms[3].1) + SizeOf(ms[4..]);
    assert SizeOf(ms[2..]) == 12 + EncodedSize(ms[2].1) + SizeOf(ms[3..]);
    assert SizeOf(ms[1..]) == 12 + EncodedSize(ms[1].1) + SizeOf(ms[2..]);
    assert SizeOf(ms) == 10 + EncodedSize(ms[0].1) + SizeOf(ms[1..]);
  }

  /** The size of an event line: sixty bytes of frame and at most six for each byte of its fields. */
  lemma {:induction false} EventLineSize(e: Event)
    ensures Utf8Size(EventText(e)) <=
            60 + 6 * (Utf8Size(e.kind) + Utf8Size(e.status) + |e.stdout| + |e.stderr| + Utf8Size(e.details))
  {
    EventLineExactly(e);
    EncodedText(e.kind);
    EncodedText(e.status);
    EncodedText(e.details);
    EncodedLog(e.stdout);
    EncodedLog(e.stderr);
  }
}
