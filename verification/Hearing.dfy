/** What a client hears of a stream of published payloads, whole or cut off anywhere. */
module Hearing {
  import opened Text
  import opened Json
  import opened Wire
  import opened Sse

  function Texts(ps: seq<Payload>): seq<string> {
    seq(|ps|, i requires 0 <= i < |ps| => PayloadText(ps[i]))
  }

  function Views(ps: seq<Payload>): seq<JudgeEvent> {
    seq(|ps|, i requires 0 <= i < |ps| => View(ps[i]))
  }

  /** The bytes the dispatcher writes for these payloads. */
  function Stream(ps: seq<Payload>): string {
    Frames(Texts(ps))
  }

  /** How many payloads there are up to and including the first RESULT. */
  function UpToResult(ps: seq<Payload>): (m: nat)
    ensures m <= |ps|
  {
    if ps == [] then 0 else if ps[0].kind == "RESULT" then 1 else 1 + UpToResult(ps[1..])
  }

  /** How many payloads come before the first one with a raw U+0085. */
  function UpToNel(ps: seq<Payload>): (m: nat)
    ensures m <= |ps|
  {
    if ps == [] || PayloadHasNel(ps[0]) then 0 else 1 + UpToNel(ps[1..])
  }

  /** What there is to hear of these payloads. */
  function HeardOf(ps: seq<Payload>): Heard {
    var m, n := UpToResult(ps), UpToNel(ps);
    if n < m then Heard(Views(ps)[..n], true, false)
    else Heard(Views(ps)[..m], false, m > 0 && ps[m - 1].kind == "RESULT")
  }

  // ---- the first line ----

  lemma {:induction false} FirstLine(x: string, t: string)
    requires NoBreaks(x) && (t != "" ==> IsBreak(t[0]) && t[0] != '\r')
    ensures SplitLines("data: " + x + t) == ["data: " + x] + SplitLines(if t == "" then "" else t[1..])
  {
    var line := "data: " + x;
    assert NoBreaks("data: ");
    assert NoBreaks(line);
    SplitTakesLine("", line, t);
    assert "" + line == line;
  }

  /** A proper part of an encoded payload makes the reader raise, whatever comes after it. */
  lemma {:induction false} PartRaises(p: Payload, x: string, more: seq<string>)
    requires x != "" && |x| < |PayloadText(p)| && HasPrefix(PayloadText(p), x)
    ensures HeardFrom(["data: " + x] + more) == Heard([], true, false)
  {
    PayloadIsSafe(p);
    assert x[0] == '{';
    DataLine(x);
    var y := StripRight(x);
    assert y == PayloadText(p)[..|y|];
    CutPayloadFails(p, |y|);
    var lines := ["data: " + x] + more;
    HearData(lines, 0, y);
    assert lines[0..] == lines;
  }

  /** A whole encoded payload is heard as its view. */
  lemma {:induction false} WholeIsHeard(p: Payload, more: seq<string>)
    ensures HeardFrom(["data: " + PayloadText(p)] + more) ==
            if p.kind == "RESULT" then Heard([View(p)], false, true) else Prepend([View(p)], HeardFrom(more))
  {
    var b := PayloadText(p);
    PayloadIsSafe(p);
    DataLine(b);
    assert StripRight(b) == b;
    PayloadDecodes(p);
    var lines := ["data: " + b] + more;
    HearData(lines, 0, b);
    assert lines[0..] == lines && lines[1..] == more;
  }

  lemma {:induction false} EmptyLineIsSilent(more: seq<string>)
    ensures HeardFrom([""] + more) == HeardFrom(more)
  {
    HearNothing([""] + more, 0);
    assert ([""] + more)[0..] == [""] + more && ([""] + more)[1..] == more;
  }

  /** Payloads without U+0085 have no line break at all. */
  lemma {:induction false} NoNelNoBreaks(p: Payload)
    ensures !PayloadHasNel(p) ==> NoBreaks(PayloadText(p))
    ensures forall i | 0 <= i < |PayloadText(p)| && IsBreak(PayloadText(p)[i]) :: PayloadText(p)[i] == NEL
  {
    PayloadIsSafe(p);
  }

  lemma {:induction false} FirstIndex(s: string, c: char) returns (j: nat)
    requires c in s
    ensures j < |s| && s[j] == c && c !in s[..j]
  {
    if s[0] == c {
      j := 0;
    } else {
      var i := FirstIndex(s[1..], c);
      j := i + 1;
      assert s[..j] == [s[0]] + s[1..][..i];
    }
  }

  /** Where the first U+0085 of a payload's text is. */
  lemma {:induction false} FirstNel(p: Payload) returns (j: nat)
    requires PayloadHasNel(p)
    ensures 0 < j < |PayloadText(p)| && PayloadText(p)[j] == NEL && NoBreaks(PayloadText(p)[..j])
  {
    PayloadIsSafe(p);
    NoNelNoBreaks(p);
    j := FirstIndex(PayloadText(p), NEL);
  }

  lemma {:induction false} ShorterHasNoBreaks(s: string, a: nat, b: nat)
    requires a <= b <= |s| && NoBreaks(s[..b])
    ensures NoBreaks(s[..a])
  {
    assert forall i | 0 <= i < a :: s[..a][i] == s[..b][i];
  }

  // ---- the whole stream ----

  lemma {:induction false} StreamSplits(ps: seq<Payload>)
    requires ps != []
    ensures Stream(ps) == Frame(PayloadText(ps[0])) + Stream(ps[1..])
  {
    assert Texts(ps)[1..] == Texts(ps[1..]);
  }

  lemma {:induction false} ViewsSplit(ps: seq<Payload>, m: nat)
    requires 0 < m <= |ps|
    ensures Views(ps)[..m] == [View(ps[0])] + Views(ps[1..])[..m - 1]
  {
  }

  lemma {:induction false} CleanFrameHeard(p: Payload, rest: string)
    requires !PayloadHasNel(p)
    ensures Listen(Frame(PayloadText(p)) + rest) ==
            if p.kind == "RESULT" then Heard([View(p)], false, true) else Prepend([View(p)], Listen(rest))
  {
    NoNelNoBreaks(p);
    FrameLines(PayloadText(p), rest);
    var more := [""] + SplitLines(rest);
    assert ["data: " + PayloadText(p), ""] + SplitLines(rest) == ["data: " + PayloadText(p)] + more;
    WholeIsHeard(p, more);
    EmptyLineIsSilent(SplitLines(rest));
  }

  lemma {:induction false} BodySplits(b: string, j: nat, rest: string)
    requires j < |b|
    ensures var t := b[j..] + ("\n\n" + rest); Frame(b) + rest == "data: " + b[..j] + t && t[0] == b[j]
  {
    assert b == b[..j] + b[j..];
    assert Frame(b) + rest == ("data: " + b[..j]) + (b[j..] + ("\n\n" + rest));
  }

  lemma {:induction false} NelFrameRaises(p: Payload, rest: string)
    requires PayloadHasNel(p)
    ensures Listen(Frame(PayloadText(p)) + rest) == Heard([], true, false)
  {
    var b := PayloadText(p);
    var j := FirstNel(p);
    var t := b[j..] + ("\n\n" + rest);
    BodySplits(b, j, rest);
    FirstLine(b[..j], t);
    PartRaises(p, b[..j], SplitLines(t[1..]));
  }

  lemma {:induction false} OneMoreHeard(ps: seq<Payload>)
    requires ps != [] && !PayloadHasNel(ps[0])
    ensures var m, n := UpToResult(ps), UpToNel(ps);
            && Views(ps)[..n] == [View(ps[0])] + Views(ps[1..])[..UpToNel(ps[1..])]
            && (ps[0].kind == "RESULT" ==> m == 1 && Views(ps)[..m] == [View(ps[0])])
            && (ps[0].kind != "RESULT" ==> Views(ps)[..m] == [View(ps[0])] + Views(ps[1..])[..UpToResult(ps[1..])])
            && (ps[0].kind != "RESULT" && m > 1 ==> ps[m - 1] == ps[1..][m - 2])
  {
    ViewsSplit(ps, UpToNel(ps));
    ViewsSplit(ps, UpToResult(ps));
  }

  /**
   * A client that reads the whole stream hears the payloads up to the first RESULT, and stops
   * there, exactly if none of them holds a raw U+0085; otherwise it hears those before the first
   * such payload and raises.
   */
  lemma {:induction false} StreamIsHeard(ps: seq<Payload>)
    ensures Listen(Stream(ps)) == HeardOf(ps)
  {
    if ps != [] {
      StreamSplits(ps);
      if PayloadHasNel(ps[0]) {
        NelFrameRaises(ps[0], Stream(ps[1..]));
      } else {
        CleanFrameHeard(ps[0], Stream(ps[1..]));
        StreamIsHeard(ps[1..]);
        OneMoreHeard(ps);
      }
    }
  }

  // ---- a stream cut off anywhere ----

  /** x is a nonempty part of p's text without breaks, followed by nothing or by a break: it is the only data line. */
  lemma {:induction false} LineOfPart(p: Payload, x: string, t: string)
    requires x != "" && NoBreaks(x) && |x| < |PayloadText(p)| && HasPrefix(PayloadText(p), x)
    requires t != "" ==> IsBreak(t[0]) && t[0] != '\r'
    ensures Listen("data: " + x + t) == Heard([], true, false)
  {
    FirstLine(x, t);
    PartRaises(p, x, SplitLines(if t == "" then "" else t[1..]));
  }

  lemma {:induction false} LineOfWhole(p: Payload, t: string)
    requires !PayloadHasNel(p) && (t == "" || t == "\n")
    ensures Listen("data: " + PayloadText(p) + t).events == [View(p)]
  {
    NoNelNoBreaks(p);
    FirstLine(PayloadText(p), t);
    WholeIsHeard(p, SplitLines(""));
  }

  lemma {:induction false} CutInBody(b: string, k: nat)
    requires 6 < k <= 6 + |b|
    ensures Frame(b)[..k] == "data: " + b[..k - 6] + ""
  {
    TakeOfJoin("data: " + b, "\n\n", k);
    TakeOfJoin("data: ", b, k);
  }

  lemma {:induction false} CutAfterBody(b: string, k: nat)
    requires 6 + |b| <= k < |Frame(b)|
    ensures Frame(b)[..k] == "data: " + b + "\n\n"[..k - 6 - |b|]
    ensures "\n\n"[..k - 6 - |b|] == "" || "\n\n"[..k - 6 - |b|] == "\n"
  {
    TakeOfJoin("data: " + b, "\n\n", k);
  }

  /** Cutting behind the j-th character of the body. */
  lemma {:induction false} CutPastBody(b: string, j: nat, k: nat)
    requires j < |b| && 6 + j < k < |Frame(b)|
    ensures var t := (b[j..] + "\n\n")[..k - 6 - j];
            Frame(b)[..k] == "data: " + b[..j] + t && t != "" && t[0] == b[j]
  {
    assert b == b[..j] + b[j..];
    assert Frame(b) == ("data: " + b[..j]) + (b[j..] + "\n\n");
    TakeOfJoin("data: " + b[..j], b[j..] + "\n\n", k);
  }

  lemma {:induction false} CutCleanFrame(p: Payload, k: nat)
    requires 6 < k < |Frame(PayloadText(p))| && !PayloadHasNel(p)
    ensures Listen(Frame(PayloadText(p))[..k]).events == [] || Listen(Frame(PayloadText(p))[..k]).events == [View(p)]
  {
    var b := PayloadText(p);
    NoNelNoBreaks(p);
    if k - 6 < |b| {
      CutInBody(b, k);
      ShorterHasNoBreaks(b, k - 6, |b|);
      LineOfPart(p, b[..k - 6], "");
    } else {
      CutAfterBody(b, k);
      LineOfWhole(p, "\n\n"[..k - 6 - |b|]);
    }
  }

  lemma {:induction false} CutNelFrame(p: Payload, k: nat)
    requires 6 < k < |Frame(PayloadText(p))| && PayloadHasNel(p)
    ensures Listen(Frame(PayloadText(p))[..k]).events == []
  {
    var b := PayloadText(p);
    var j := FirstNel(p);
    if k - 6 <= j {
      CutInBody(b, k);
      ShorterHasNoBreaks(b, k - 6, j);
      LineOfPart(p, b[..k - 6], "");
    } else {
      CutPastBody(b, j, k);
      LineOfPart(p, b[..j], (b[j..] + "\n\n")[..k - 6 - j]);
    }
  }

  lemma {:induction false} StripRightPrefix(s: string)
    ensures HasPrefix(s, StripRight(s))
  {
    if s != "" && IsPySpace(s[|s| - 1]) {
      StripRightPrefix(s[..|s| - 1]);
    }
  }

  lemma {:induction false} BlankHasNoData(s: string)
    requires HasPrefix(" ", s)
    ensures Strip(s) == ""
  {
    if s != "" {
      assert s == " " && s[1..] == "";
    }
  }

  lemma {:induction false} HeadHasNoData(s: string)
    requires s != "" && HasPrefix("data: ", s)
    ensures DataOf(s).None?
  {
    assert s[0] == 'd' && StripLeft(s) == s;
    StripRightPrefix(s);
    var l := StripRight(s);
    if |l| >= 5 {
      assert l == "data: "[..|l|];
      BlankHasNoData(l[5..]);
    }
  }

  /** The first characters of "data: " carry nothing. */
  lemma {:induction false} HeadIsSilent(k: nat)
    requires k <= 6
    ensures Listen("data: "[..k]) == Heard([], false, false)
  {
    var s := "data: "[..k];
    assert NoBreaks(s);
    SplitTakesLine("", s, "");
    assert s + "" == s && "" + s == s;
    assert SplitLines(s) == if s == "" then [] else [s];
    if s != "" {
      HeadHasNoData(s);
      EmptyLineIsSilent([]);
      HearNothing([s], 0);
      assert [s][0..] == [s] && [s][1..] == [];
    }
  }

  /** What is heard of the first k characters of a frame. */
  lemma {:induction false} CutFrameHeard(p: Payload, k: nat)
    requires k < |Frame(PayloadText(p))|
    ensures HasPrefix([View(p)], Listen(Frame(PayloadText(p))[..k]).events)
  {
    if k <= 6 {
      assert Frame(PayloadText(p))[..k] == "data: "[..k];
      HeadIsSilent(k);
    } else if PayloadHasNel(p) {
      CutNelFrame(p, k);
    } else {
      CutCleanFrame(p, k);
    }
  }

  /** The client heard payloads in order, none twice, and none after a RESULT. */
  predicate HearsPrefix(ps: seq<Payload>, stream: string) {
    HasPrefix(Views(ps)[..UpToResult(ps)], Listen(stream).events)
  }

  lemma {:induction false} CutInFirst(ps: seq<Payload>, k: nat)
    requires ps != [] && k < |Frame(PayloadText(ps[0]))|
    ensures HearsPrefix(ps, Frame(PayloadText(ps[0]))[..k])
  {
    CutFrameHeard(ps[0], k);
    ViewsSplit(ps, UpToResult(ps));
  }

  lemma {:induction false} AfterFirstFrame(ps: seq<Payload>, rest: string)
    requires ps != [] && HearsPrefix(ps[1..], rest)
    ensures HearsPrefix(ps, Frame(PayloadText(ps[0])) + rest)
  {
    if PayloadHasNel(ps[0]) {
      NelFrameRaises(ps[0], rest);
    } else {
      CleanFrameHeard(ps[0], rest);
      ViewsSplit(ps, UpToResult(ps));
    }
  }

  lemma {:induction false} CutStream(ps: seq<Payload>, k: nat)
    requires ps != [] && k <= |Stream(ps)|
    ensures var f := Frame(PayloadText(ps[0]));
            && |Stream(ps)| == |f| + |Stream(ps[1..])|
            && Stream(ps)[..k] == if k < |f| then f[..k] else f + Stream(ps[1..])[..k - |f|]
  {
    StreamSplits(ps);
    TakeOfJoin(Frame(PayloadText(ps[0])), Stream(ps[1..]), k);
  }

  /**
   * Whatever part of the stream reaches a client, it yields a prefix of the payloads up to the
   * first RESULT, each exactly as published.
   */
  lemma {:induction false} CutStreamIsHeard(ps: seq<Payload>, k: nat)
    requires k <= |Stream(ps)|
    ensures HearsPrefix(ps, Stream(ps)[..k])
  {
    if ps != [] {
      CutStream(ps, k);
      var n := |Frame(PayloadText(ps[0]))|;
      if k < n {
        CutInFirst(ps, k);
      } else {
        CutStreamIsHeard(ps[1..], k - n);
        AfterFirstFrame(ps, Stream(ps[1..])[..k - n]);
      }
    }
  }
}
