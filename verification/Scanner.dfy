/** runner/internal/exesubmission.go: the scanner loop over the agent's socket. */
module Scanner {
  import opened Text
  import opened Verdicts
  import opened Json
  import opened Wire

  /** The initial buffer of 60 KB already allows lines below its own size. */
  const INITIAL_BUFFER: nat := 60 * 1024

  /** The line size at which `bufio.Scanner` gives up. */
  function Cap(maxLogCapKB: int): (cap: nat)
    ensures cap >= maxLogCapKB * 1024
  {
    if maxLogCapKB * 1024 > INITIAL_BUFFER then maxLogCapKB * 1024 else INITIAL_BUFFER
  }

  /** A line fits if it and its newline fit the buffer. */
  predicate Fits(line: string, cap: nat) {
    Utf8Size(line) < cap
  }

  /** The text cut at newlines, given the part of the current line already read; a last unended line counts. */
  function LinesFrom(line: string, s: string): seq<string>
    decreases |s|
  {
    if s == "" then if line == "" then [] else [line]
    else if s[0] == '\n' then [line] + LinesFrom("", s[1..])
    else LinesFrom(line + [s[0]], s[1..])
  }

  function DropCR(line: string): string {
    if line != "" && line[|line| - 1] == '\r' then line[..|line| - 1] else line
  }

  datatype Scanned = Scanned(tokens: seq<string>, tooLong: bool)

  function ScanLines(lines: seq<string>, cap: nat): Scanned {
    if lines == [] then Scanned([], false)
    else if !Fits(lines[0], cap) then Scanned([], true)
    else
      var rest := ScanLines(lines[1..], cap);
      rest.(tokens := [DropCR(lines[0])] + rest.tokens)
  }

  /** All tokens of a text that ends where the connection ends. */
  function Scan(text: string, cap: nat): Scanned {
    ScanLines(LinesFrom("", text), cap)
  }

  /** A `bufio.Scanner` over text that has arrived: `pending` are the lines not yet returned. */
  class LineScanner {
    const cap: nat
    var pending: seq<string>
    var failed: bool

    constructor (text: string, cap: nat)
      ensures this.cap == cap && pending == LinesFrom("", text) && !failed
    {
      this.cap := cap;
      pending := LinesFrom("", text);
      failed := false;
    }

    /** `Scan` and `Bytes` */
    method Next() returns (token: Option<string>)
      modifies this
      ensures old(failed) ==> token.None? && failed && pending == old(pending)
      ensures !old(failed) && old(pending) == [] ==> token.None? && !failed && pending == []
      ensures !old(failed) && old(pending) != [] && !Fits(old(pending)[0], cap) ==>
                token.None? && failed && pending == old(pending)
      ensures !old(failed) && old(pending) != [] && Fits(old(pending)[0], cap) ==>
                !failed && token == Some(DropCR(old(pending)[0])) && pending == old(pending)[1..]
    {
      if failed || pending == [] {
        return None;
      }
      if !Fits(pending[0], cap) {
        failed := true;
        return None;
      }
      token := Some(DropCR(pending[0]));
      pending := pending[1..];
    }
  }

  /** The bodies of those messages whose publishing succeeds. */
  function Published(tokens: seq<string>, from: nat, accepts: nat -> bool): seq<string> {
    if tokens == [] then []
    else (if accepts(from) then [Route(tokens[0])] else []) + Published(tokens[1..], from + 1, accepts)
  }

  /** What is published for the lines still to be scanned, counting from the n-th token. */
  function PublishedFrom(lines: seq<string>, cap: nat, n: nat, accepts: nat -> bool): seq<string> {
    Published(ScanLines(lines, cap).tokens, n, accepts)
  }

  lemma {:induction false} ForwardStep(lines: seq<string>, cap: nat, n: nat, accepts: nat -> bool)
    requires lines != [] && Fits(lines[0], cap)
    ensures ScanLines(lines, cap).tooLong == ScanLines(lines[1..], cap).tooLong
    ensures PublishedFrom(lines, cap, n, accepts) ==
            (if accepts(n) then [Route(DropCR(lines[0]))] else []) + PublishedFrom(lines[1..], cap, n + 1, accepts)
  {
    var tokens := ScanLines(lines, cap).tokens;
    assert tokens[0] == DropCR(lines[0]) && tokens[1..] == ScanLines(lines[1..], cap).tokens;
  }

  lemma {:induction false} PublishJoins(done: seq<string>, body: string, ok: bool, rest: seq<string>)
    ensures done + ((if ok then [body] else []) + rest) == (if ok then done + [body] else done) + rest
  {
  }

  lemma {:induction false} ForwardOne(published: seq<string>, lines: seq<string>, cap: nat, n: nat, accepts: nat -> bool)
    requires lines != [] && Fits(lines[0], cap)
    ensures ScanLines(lines, cap).tooLong == ScanLines(lines[1..], cap).tooLong
    ensures published + PublishedFrom(lines, cap, n, accepts) ==
            (if accepts(n) then published + [Route(DropCR(lines[0]))] else published) +
            PublishedFrom(lines[1..], cap, n + 1, accepts)
  {
    ForwardStep(lines, cap, n, accepts);
    PublishJoins(published, Route(DropCR(lines[0])), accepts(n), PublishedFrom(lines[1..], cap, n + 1, accepts));
  }

  /** The loop of `ExecSubm`: every scanned line is projected and published; a failed publish is dropped. */
  method ForwardEvents(text: string, cap: nat, accepts: nat -> bool) returns (published: seq<string>, tooLong: bool)
    ensures tooLong == Scan(text, cap).tooLong
    ensures published == Published(Scan(text, cap).tokens, 0, accepts)
  {
    var scanner := new LineScanner(text, cap);
    ghost var lines := scanner.pending;
    published := [];
    var n := 0;
    while true
      invariant !scanner.failed && scanner.cap == cap
      invariant ScanLines(lines, cap).tooLong == ScanLines(scanner.pending, cap).tooLong
      invariant PublishedFrom(lines, cap, 0, accepts) == published + PublishedFrom(scanner.pending, cap, n, accepts)
      decreases |scanner.pending|
    {
      ghost var before := scanner.pending;
      var token := scanner.Next();
      if token.None? {
        tooLong := scanner.failed;
        return;
      }
      var body := Route(token.value);
      ForwardOne(published, before, cap, n, accepts);
      if accepts(n) {
        published := published + [body];
      }
      n := n + 1;
    }
  }

  // ---- the lines the agent writes ----

  function WireText(lines: seq<string>): string {
    if lines == [] then "" else lines[0] + "\n" + WireText(lines[1..])
  }

  predicate IsEventLine(l: string) {
    '\n' !in l && l != "" && l[|l| - 1] == '}'
  }

  lemma {:induction false} LinesTake(line: string, s: string, rest: string)
    requires '\n' !in s
    ensures LinesFrom(line, s + rest) == LinesFrom(line + s, rest)
    decreases |s|
  {
    if s == "" {
      assert s + rest == rest && line + s == line;
    } else {
      assert (s + rest)[1..] == s[1..] + rest;
      assert line + [s[0]] + s[1..] == line + s;
      LinesTake(line + [s[0]], s[1..], rest);
    }
  }

  lemma {:induction false} OneLine(l: string, rest: string)
    requires '\n' !in l
    ensures LinesFrom("", l + "\n" + rest) == [l] + LinesFrom("", rest)
    ensures LinesFrom("", l) == if l == "" then [] else [l]
  {
    LinesTake("", l, "\n" + rest);
    assert "" + l == l;
    assert l + "\n" + rest == l + ("\n" + rest);
    assert ("\n" + rest)[1..] == rest;
    LinesTake("", l, "");
    assert l + "" == l;
  }

  /**
   * Whatever part of the agent's lines arrives before the connection ends, the scanner sees
   * whole lines in order, and at most one more that is a part of the next line.
   */
  lemma {:induction false} ScannerSeesLines(lines: seq<string>, k: nat) returns (j: nat, part: string)
    requires forall i | 0 <= i < |lines| :: IsEventLine(lines[i])
    requires k <= |WireText(lines)|
    ensures j <= |lines|
    ensures part != "" ==> j < |lines| && HasPrefix(lines[j], part)
    ensures LinesFrom("", WireText(lines)[..k]) == lines[..j] + if part == "" then [] else [part]
    ensures k == |WireText(lines)| ==> j == |lines| && part == ""
  {
    if lines == [] {
      j, part := 0, "";
    } else {
      var l, rest := lines[0], WireText(lines[1..]);
      if k <= |l| {
        j, part := 0, l[..k];
        assert WireText(lines)[..k] == l[..k];
        assert '\n' !in l[..k];
        OneLine(l[..k], "");
      } else {
        var m := k - |l| - 1;
        assert WireText(lines)[..k] == l + "\n" + rest[..m];
        OneLine(l, rest[..m]);
        var i;
        i, part := ScannerSeesLines(lines[1..], m);
        j := i + 1;
        assert lines[..j] == [l] + lines[1..][..i];
      }
    }
  }

  /** How many lines come before the first that does not fit. */
  function FittingLines(lines: seq<string>, cap: nat): (n: nat)
    ensures n <= |lines|
    ensures forall i | 0 <= i < n :: Fits(lines[i], cap)
    ensures n < |lines| ==> !Fits(lines[n], cap)
  {
    if lines == [] || !Fits(lines[0], cap) then 0 else 1 + FittingLines(lines[1..], cap)
  }

  /** The scanner returns the lines before the first that does not fit, unchanged, and fails exactly if there is one. */
  lemma {:induction false} ScanStopsAtMisfit(lines: seq<string>, cap: nat)
    requires forall i | 0 <= i < |lines| :: IsEventLine(lines[i])
    ensures ScanLines(lines, cap) == Scanned(lines[..FittingLines(lines, cap)], FittingLines(lines, cap) < |lines|)
  {
    if lines != [] && Fits(lines[0], cap) {
      ScanStopsAtMisfit(lines[1..], cap);
      assert DropCR(lines[0]) == lines[0];
      assert lines[..FittingLines(lines, cap)] == [lines[0]] + lines[1..][..FittingLines(lines[1..], cap)];
    }
  }

  /** A whole stream of event lines is scanned back line by line, up to the first one over the cap. */
  lemma {:induction false} ScanRoundTrip(lines: seq<string>, cap: nat)
    requires forall i | 0 <= i < |lines| :: IsEventLine(lines[i])
    ensures Scan(WireText(lines), cap) ==
            Scanned(lines[..FittingLines(lines, cap)], FittingLines(lines, cap) < |lines|)
  {
    var j, part := ScannerSeesLines(lines, |WireText(lines)|);
    assert WireText(lines)[..|WireText(lines)|] == WireText(lines);
    assert lines[..j] + [] == lines;
    ScanStopsAtMisfit(lines, cap);
  }

  /** A line ended by a carriage return and a newline is returned without either. */
  lemma {:induction false} ReturnIsDropped(l: string, rest: string, cap: nat)
    requires '\n' !in l && Fits(l + "\r", cap)
    ensures Scan(l + "\r\n" + rest, cap).tokens == [l] + Scan(rest, cap).tokens
  {
    var line := l + "\r";
    assert l + "\r\n" + rest == line + "\n" + rest;
    OneLine(line, rest);
    assert line[..|line| - 1] == l && DropCR(line) == l;
    var lines := [line] + LinesFrom("", rest);
    assert lines[0] == line && lines[1..] == LinesFrom("", rest);
  }

  // ---- the size bound ----

  /** The bytes of an event's fields other than its two logs. */
  function OtherBytes(e: Event): nat {
    Utf8Size(e.kind) + Utf8Size(e.status) + Utf8Size(e.details)
  }

  predicate LogsWithin(e: Event, logLimitKB: nat) {
    |e.stdout| <= logLimitKB * 1000 && |e.stderr| <= logLimitKB * 1000
  }

  /**
   * Every event whose logs respect the limit has a line of at most 60 + 12000 * LogLimitKB bytes
   * and six times its other fields, so a scanner cap above that never stops on it.
   */
  lemma {:induction false} EventFits(e: Event, logLimitKB: nat, maxLogCapKB: int)
    requires LogsWithin(e, logLimitKB)
    ensures Utf8Size(EventText(e)) <= 60 + 12000 * logLimitKB + 6 * OtherBytes(e)
    ensures maxLogCapKB * 1024 > 60 + 12000 * logLimitKB + 6 * OtherBytes(e) ==> Fits(EventText(e), Cap(maxLogCapKB))
  {
    EventLineSize(e);
  }

  /** Every event with these texts and logs within the limit has a line that fits. */
  ghost predicate CapSuffices(kind: string, status: string, details: string, logLimitKB: nat, cap: nat) {
    forall stdout, stderr | |stdout| <= logLimitKB * 1000 && |stderr| <= logLimitKB * 1000 ::
      Fits(EventText(Event(kind, status, stdout, stderr, details)), cap)
  }

  /** An event whose two logs are full of control characters. */
  function WorstEvent(kind: string, status: string, details: string, logLimitKB: nat): Event {
    Event(kind, status, Controls(logLimitKB * 1000), Controls(logLimitKB * 1000), details)
  }

  lemma {:induction false} WorstEventSize(kind: string, status: string, details: string, logLimitKB: nat)
    ensures Utf8Size(EventText(WorstEvent(kind, status, details, logLimitKB))) ==
            60 + 12000 * logLimitKB + TextsSize(kind, status, details)
  {
    EventLineExactly(WorstEvent(kind, status, details, logLimitKB));
    ControlsSize(logLimitKB * 1000);
  }

  /** The bound is exact: the scanner survives all logs within the limit exactly if its cap is above it. */
  lemma {:induction false} CapSufficesIff(kind: string, status: string, details: string, logLimitKB: nat, cap: nat)
    ensures CapSuffices(kind, status, details, logLimitKB, cap) <==>
            60 + 12000 * logLimitKB + TextsSize(kind, status, details) < cap
  {
    WorstEventSize(kind, status, details, logLimitKB);
    var worst := WorstEvent(kind, status, details, logLimitKB);
    assert CapSuffices(kind, status, details, logLimitKB, cap) ==> Fits(EventText(worst), cap);
    forall stdout, stderr | |stdout| <= logLimitKB * 1000 && |stderr| <= logLimitKB * 1000
      ensures Utf8Size(EventText(Event(kind, status, stdout, stderr, details))) <=
              60 + 12000 * logLimitKB + TextsSize(kind, status, details)
    {
      EventLineExactly(Event(kind, status, stdout, stderr, details));
      EncodedLog(stdout);
      EncodedLog(stderr);
    }
  }

  /** In bytes: the setting in kilobytes counts from 61 on; up to 60 the initial buffer of 61440 bytes decides. */
  lemma {:induction false} FitsIff(line: string, maxLogCapKB: int)
    ensures Fits(line, Cap(maxLogCapKB)) <==> Utf8Size(line) + 1 <= if maxLogCapKB <= 60 then 61440 else 1024 * maxLogCapKB
  {
  }

  /** With a MAX_LOG_CAP_KB of 1024, some event within the limit does not fit as soon as the limit is above 87 KB. */
  lemma {:induction false} ShippedCapIsTooSmall(kind: string, status: string, details: string, logLimitKB: nat)
    requires logLimitKB >= 88
    ensures var e := WorstEvent(kind, status, details, logLimitKB);
            LogsWithin(e, logLimitKB) && !Fits(EventText(e), Cap(1024))
  {
    WorstEventSize(kind, status, details, logLimitKB);
  }
}
