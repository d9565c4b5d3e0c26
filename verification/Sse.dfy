/**
 * Server-sent events: the frames of dispatcher/internal/endpoints.go and the reader of
 * sdk/src/alpinejudge/client.py. httpx's `aiter_lines` cuts the stream where Python's
 * `str.splitlines` does, which is at more characters than the newline.
 */
module Sse {
  import opened Text
  import opened Json
  import opened Wire
  import Whitespace

  /** `fmt.Fprintf(w, "data: %s\n\n", body)` */
  function Frame(body: string): string {
    "data: " + body + "\n\n"
  }

  function Frames(bodies: seq<string>): string {
    if bodies == [] then "" else Frame(bodies[0]) + Frames(bodies[1..])
  }

  predicate IsBreak(c: char) {
    var x := c as int;
    0x0A <= x <= 0x0D || 0x1C <= x <= 0x1E || x == 0x85 || x == 0x2028 || x == 0x2029
  }

  /** `splitlines`, given the part of the current line already read. */
  function SplitFrom(line: string, s: string): seq<string>
    decreases |s|
  {
    if s == "" then if line == "" then [] else [line]
    else if IsBreak(s[0]) then
      [line] + SplitFrom("", if |s| > 1 && s[0] == '\r' && s[1] == '\n' then s[2..] else s[1..])
    else SplitFrom(line + [s[0]], s[1..])
  }

  function SplitLines(s: string): seq<string> {
    SplitFrom("", s)
  }

  /** Python's `str.isspace` of one character. */
  predicate IsPySpace(c: char) {
    var x := c as int;
    0x09 <= x <= 0x0D || 0x1C <= x <= 0x20 || x == 0x85 || x == 0xA0 || x == 0x1680 || 0x2000 <= x <= 0x200A ||
    x == 0x2028 || x == 0x2029 || x == 0x202F || x == 0x205F || x == 0x3000
  }

  function StripLeft(s: string): string {
    if s != "" && IsPySpace(s[0]) then StripLeft(s[1..]) else s
  }

  function StripRight(s: string): string {
    if s != "" && IsPySpace(s[|s| - 1]) then StripRight(s[..|s| - 1]) else s
  }

  function Strip(s: string): string {
    StripRight(StripLeft(s))
  }

  /** The data a line carries, if it is a nonempty data line. */
  function DataOf(line: string): Option<string> {
    var l := Strip(line);
    if line == "" || !HasPrefix(l, "data:") then None
    else
      var raw := Strip(l[5..]);
      if raw == "" then None else Some(raw)
  }

  function Payloads(lines: seq<string>): seq<string> {
    if lines == [] then []
    else (match DataOf(lines[0]) case None => [] case Some(raw) => [raw]) + Payloads(lines[1..])
  }

  /** What the generator yields, and how it ends: with an exception, after a RESULT, or with the stream. */
  datatype Heard = Heard(events: seq<JudgeEvent>, raised: bool, ended: bool)

  function Consume(raws: seq<string>): Heard {
    if raws == [] then Heard([], false, false)
    else
      match ParseObject(raws[0])
      case None => Heard([], true, false)
      case Some(d) =>
        var event := FromDict(d);
        if event.kind == "RESULT" then Heard([event], false, true)
        else
          var rest := Consume(raws[1..]);
          rest.(events := [event] + rest.events)
  }

  /** What a client hears of a text it received. */
  function Listen(text: string): Heard {
    Consume(Payloads(SplitLines(text)))
  }

  function Prepend(events: seq<JudgeEvent>, h: Heard): Heard {
    h.(events := events + h.events)
  }

  function HeardFrom(lines: seq<string>): Heard {
    Consume(Payloads(lines))
  }

  lemma {:induction false} PayloadsStep(lines: seq<string>, i: nat)
    requires i < |lines|
    ensures Payloads(lines[i..]) ==
            (match DataOf(lines[i]) case None => [] case Some(raw) => [raw]) + Payloads(lines[i + 1..])
  {
    assert lines[i..][1..] == lines[i + 1..];
  }

  lemma {:induction false} ConsumeStep(raw: string, raws: seq<string>)
    ensures Consume([raw] + raws) ==
            match ParseObject(raw)
            case None => Heard([], true, false)
            case Some(d) =>
              if FromDict(d).kind == "RESULT" then Heard([FromDict(d)], false, true)
              else Prepend([FromDict(d)], Consume(raws))
  {
    assert ([raw] + raws)[1..] == raws;
  }

  lemma {:induction false} HearNothing(lines: seq<string>, i: nat)
    requires i < |lines| && DataOf(lines[i]).None?
    ensures HeardFrom(lines[i..]) == HeardFrom(lines[i + 1..])
  {
    PayloadsStep(lines, i);
    assert [] + Payloads(lines[i + 1..]) == Payloads(lines[i + 1..]);
  }

  lemma {:induction false} HearData(lines: seq<string>, i: nat, raw: string)
    requires i < |lines| && DataOf(lines[i]) == Some(raw)
    ensures HeardFrom(lines[i..]) ==
            match ParseObject(raw)
            case None => Heard([], true, false)
            case Some(d) =>
              if FromDict(d).kind == "RESULT" then Heard([FromDict(d)], false, true)
              else Prepend([FromDict(d)], HeardFrom(lines[i + 1..]))
  {
    PayloadsStep(lines, i);
    ConsumeStep(raw, Payloads(lines[i + 1..]));
  }

  lemma {:induction false} PrependTwice(a: seq<JudgeEvent>, b: seq<JudgeEvent>, h: Heard)
    ensures Prepend(a, Prepend(b, h)) == Prepend(a + b, h)
  {
    assert a + (b + h.events) == a + b + h.events;
  }

  /** `listen_events`: the loop over the response's lines. */
  method ListenEvents(lines: seq<string>) returns (heard: Heard)
    ensures heard == HeardFrom(lines)
  {
    heard := Heard([], false, false);
    var i := 0;
    assert lines[0..] == lines;
    while i < |lines|
      invariant 0 <= i <= |lines|
      invariant !heard.raised && !heard.ended
      invariant HeardFrom(lines) == Prepend(heard.events, HeardFrom(lines[i..]))
    {
      var line := lines[i];
      i := i + 1;
      if line == "" {
        HearNothing(lines, i - 1);
        continue;
      }
      var lineStr := Strip(line);
      if !HasPrefix(lineStr, "data:") {
        HearNothing(lines, i - 1);
        continue;
      }
      var raw := Strip(lineStr[5..]);
      if raw == "" {
        HearNothing(lines, i - 1);
        continue;
      }
      HearData(lines, i - 1, raw);
      var dict := ParseObject(raw);
      if dict.None? {
        heard := heard.(raised := true);
        return;
      }
      var event := FromDict(dict.value);
      PrependTwice(heard.events, [event], HeardFrom(lines[i..]));
      heard := heard.(events := heard.events + [event]);
      if event.kind == "RESULT" {
        heard := heard.(ended := true);
        return;
      }
    }
    assert lines[i..] == [];
  }

  lemma {:induction false} ConsumeEnds(raws: seq<string>)
    ensures var h := Consume(raws);
            h.ended <==> h.events != [] && h.events[|h.events| - 1].kind == "RESULT"
  {
    if raws != [] {
      assert raws == [raws[0]] + raws[1..];
      ConsumeStep(raws[0], raws[1..]);
      ConsumeEnds(raws[1..]);
    }
  }

  /** The generator stops by itself exactly if the last event it yielded is a RESULT. */
  lemma {:induction false} EndsOnResult(text: string)
    ensures var h := Listen(text);
            h.ended <==> h.events != [] && h.events[|h.events| - 1].kind == "RESULT"
  {
    ConsumeEnds(Payloads(SplitLines(text)));
  }

  // ---- the framing round trip ----

  predicate NoBreaks(s: string) {
    forall i | 0 <= i < |s| :: !IsBreak(s[i])
  }

  /** Nonempty, without line breaks, and without whitespace at either end. */
  predicate IsBody(b: string) {
    b != "" && NoBreaks(b) && !IsPySpace(b[0]) && !IsPySpace(b[|b| - 1])
  }

  lemma {:induction false} SplitTakesLine(line: string, s: string, rest: string)
    requires NoBreaks(s)
    ensures SplitFrom(line, s + rest) == SplitFrom(line + s, rest)
    decreases |s|
  {
    if s == "" {
      assert s + rest == rest && line + s == line;
    } else {
      assert (s + rest)[0] == s[0] && (s + rest)[1..] == s[1..] + rest;
      assert line + [s[0]] + s[1..] == line + s;
      SplitTakesLine(line + [s[0]], s[1..], rest);
    }
  }

  lemma {:induction false} LineAndBlank(line: string, rest: string)
    requires NoBreaks(line)
    ensures SplitLines(line + ("\n\n" + rest)) == [line, ""] + SplitLines(rest)
  {
    SplitTakesLine("", line, "\n\n" + rest);
    assert "" + line == line;
    assert ("\n\n" + rest)[1..] == "\n" + rest;
    assert ("\n" + rest)[1..] == rest;
  }

  lemma {:induction false} FrameLines(b: string, rest: string)
    requires NoBreaks(b)
    ensures SplitLines(Frame(b) + rest) == ["data: " + b, ""] + SplitLines(rest)
  {
    var line := "data: " + b;
    assert NoBreaks(line);
    JoinIsAssociative(line, "\n\n", rest);
    LineAndBlank(line, rest);
  }

  /** A visible first character stops stripping from the right. */
  lemma {:induction false} StripRightKeeps(p: string, x: string)
    requires x != "" && !IsPySpace(x[0])
    ensures StripRight(p + x) == p + StripRight(x)
    ensures StripRight(x) != "" && HasPrefix(x, StripRight(x))
    decreases |x|
  {
    if IsPySpace(x[|x| - 1]) {
      assert (p + x)[..|p + x| - 1] == p + x[..|x| - 1];
      StripRightKeeps(p, x[..|x| - 1]);
    }
  }

  lemma {:induction false} StripData(x: string)
    requires x != "" && !IsPySpace(x[0])
    ensures Strip("data: " + x) == "data: " + StripRight(x)
  {
    assert StripLeft("data: " + x) == "data: " + x;
    StripRightKeeps("data: ", x);
  }

  lemma {:induction false} StripValue(y: string)
    requires y != "" && !IsPySpace(y[0]) && StripRight(y) == y
    ensures Strip(" " + y) == y
  {
    assert (" " + y)[1..] == y;
    assert StripLeft(y) == y;
  }

  lemma {:induction false} StripRightTwice(x: string)
    ensures StripRight(StripRight(x)) == StripRight(x)
  {
    if x != "" && IsPySpace(x[|x| - 1]) {
      StripRightTwice(x[..|x| - 1]);
    }
  }

  /** Stripping a data line whose data starts with something visible. */
  lemma {:induction false} DataLine(x: string)
    requires x != "" && !IsPySpace(x[0])
    ensures DataOf("data: " + x) == Some(StripRight(x))
    ensures StripRight(x) != "" && HasPrefix(x, StripRight(x))
  {
    StripRightKeeps("", x);
    StripRightTwice(x);
    StripData(x);
    var y := StripRight(x);
    assert y[0] == x[0];
    StripValue(y);
    assert ("data: " + y)[..5] == "data:";
    assert ("data: " + y)[5..] == " " + y;
  }

  lemma {:induction false} FrameIsRead(b: string, rest: string)
    requires IsBody(b)
    ensures Payloads(SplitLines(Frame(b) + rest)) == [b] + Payloads(SplitLines(rest))
  {
    FrameLines(b, rest);
    DataLine(b);
    var lines := ["data: " + b, ""] + SplitLines(rest);
    PayloadsStep(lines, 0);
    PayloadsStep(lines, 1);
    assert lines[0..] == lines && lines[2..] == SplitLines(rest);
  }

  /** Reading the frames of any sequence of bodies gives back exactly that sequence. */
  lemma {:induction false} FramingRoundTrip(bodies: seq<string>)
    requires forall i | 0 <= i < |bodies| :: IsBody(bodies[i])
    ensures Payloads(SplitLines(Frames(bodies))) == bodies
  {
    if bodies != [] {
      FrameIsRead(bodies[0], Frames(bodies[1..]));
      FramingRoundTrip(bodies[1..]);
    }
  }

  // ---- where lines end, and what is stripped ----

  /** The characters at which `str.splitlines` cuts. */
  const LINE_BREAKS: set<int> := {0x0A, 0x0B, 0x0C, 0x0D, 0x1C, 0x1D, 0x1E, 0x85, 0x2028, 0x2029}

  /** Printable ASCII. */
  predicate IsPrintable(s: string) {
    forall i | 0 <= i < |s| :: 0x20 <= s[i] as int <= 0x7E
  }

  lemma {:induction false} PrintableLine(s: string)
    requires IsPrintable(s)
    ensures NoBreaks(s) && SplitLines(s) == if s == "" then [] else [s]
  {
    SplitTakesLine("", s, "");
    assert s + "" == s && "" + s == s;
  }

  lemma {:induction false} CutsAt(a: string, c: char, b: string)
    requires NoBreaks(a) && IsBreak(c) && (b == "" || b[0] != '\n')
    ensures SplitLines(a + [c] + b) == [a] + SplitLines(b)
  {
    assert a + [c] + b == a + ([c] + b);
    SplitTakesLine("", a, [c] + b);
    assert "" + a == a && ([c] + b)[1..] == b;
  }

  /** One character between printable texts cuts them exactly if it is one of those; so does "\r\n", once. */
  lemma {:induction false} CutsExactlyAt(a: string, c: char, b: string)
    requires IsPrintable(a) && IsPrintable(b) && b != ""
    ensures SplitLines(a + [c] + b) == if c as int in LINE_BREAKS then [a, b] else [a + [c] + b]
    ensures SplitLines(a + "\r\n" + b) == [a, b]
  {
    PrintableLine(a);
    PrintableLine(b);
    if IsBreak(c) {
      CutsAt(a, c, b);
      assert [a] + [b] == [a, b];
    } else {
      var s := a + [c] + b;
      SplitTakesLine("", s, "");
      assert s + "" == s && "" + s == s;
    }
    assert a + "\r\n" + b == a + ("\r\n" + b);
    SplitTakesLine("", a, "\r\n" + b);
    assert "" + a == a && ("\r\n" + b)[2..] == b;
    assert [a] + [b] == [a, b];
  }

  /** What `str.strip` removes: the code points of White_Space and the four separators before the space. */
  predicate IsStripped(c: char) {
    c as int in Whitespace.WHITE_SPACE || c as int in {0x1C, 0x1D, 0x1E, 0x1F}
  }

  lemma {:induction false} StripsOne(c: char, s: string)
    requires s != "" && !IsPySpace(s[0]) && !IsPySpace(s[|s| - 1])
    ensures IsPySpace(c) ==> Strip([c] + s) == s && Strip(s + [c]) == s
    ensures !IsPySpace(c) ==> Strip([c] + s) == [c] + s && Strip(s + [c]) == s + [c]
  {
    assert ([c] + s)[1..] == s && (s + [c])[..|s|] == s;
    assert StripRight(s) == s && StripLeft(s) == s;
  }

  /** A character at an end of a text with visible ends is stripped exactly if it is one of those. */
  lemma {:induction false} StripsExactly(c: char, s: string)
    requires s != "" && 0x21 <= s[0] as int <= 0x7E && 0x21 <= s[|s| - 1] as int <= 0x7E
    ensures Strip([c] + s) == if IsStripped(c) then s else [c] + s
    ensures Strip(s + [c]) == if IsStripped(c) then s else s + [c]
  {
    StripsOne(c, s);
  }
}
