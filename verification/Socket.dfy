/**
 * The socket as the bytes on it: what `ForwardEvents` makes of any part of the agent's text is
 * what the steps of the pipeline make of a link.
 */
module Socket {
  import opened Text
  import opened Verdicts
  import opened Json
  import opened Wire
  import opened Scanner
  import opened Pipeline
  import opened Delivery

  /** The encoder's line for an event has no newline and ends in a brace. */
  lemma {:induction false} EventIsLine(e: Event)
    ensures IsEventLine(EventText(e))
  {
    EventLineIsSafe(e);
    assert forall i | 0 <= i < |EventText(e)| :: Harmless(EventText(e)[i]);
  }

  lemma {:induction false} ScriptIsLines(script: seq<Event>)
    ensures forall i | 0 <= i < |script| :: IsEventLine(LinesOf(script)[i])
  {
    forall i | 0 <= i < |script|
      ensures IsEventLine(LinesOf(script)[i])
    {
      EventIsLine(script[i]);
    }
  }

  /** What the agent writes for a script is scanned back line by line, up to the first that does not fit. */
  lemma {:induction false} ScriptIsScannedBack(script: seq<Event>, cap: nat)
    ensures Scan(WireText(LinesOf(script)), cap) ==
            Scanned(LinesOf(script)[..FirstMisfit(script, cap)], FirstMisfit(script, cap) < |script|)
  {
    ScriptIsLines(script);
    ScanRoundTrip(LinesOf(script), cap);
  }

  // ---- a part of the text is a link ----

  /** The link after the first j events were written whole. */
  function Sending(key: string, script: seq<Event>, j: nat): Link
    requires j <= |script|
  {
    Link(key, script, j, seq(j, i requires 0 <= i < j => Line(i, EventText(script[i]))), false, 0, false)
  }

  /** It is what the steps of the pipeline lead to. */
  lemma {:induction false} SendingIsEmitting(key: string, script: seq<Event>, j: nat)
    requires j <= |script|
    ensures j == 0 ==> State([Sending(key, script, j)], [], map[]) == Start([(key, script)])
    ensures j > 0 ==> Sending(key, script, j) == EmitOn(Sending(key, script, j - 1), Whole)
  {
    if j == 0 {
      assert Start([(key, script)]).links[0] == Sending(key, script, 0);
    } else {
      var before, l := Sending(key, script, j - 1), Sending(key, script, j);
      assert l.wire == before.wire + [Line(j - 1, EventText(script[j - 1]))];
    }
  }

  function TextsOf(wire: seq<Line>): seq<string> {
    seq(|wire|, i requires 0 <= i < |wire| => wire[i].text)
  }

  lemma {:induction false} OneMoreText(wire: seq<Line>, l: Line)
    ensures TextsOf(wire + [l]) == TextsOf(wire) + [l.text]
  {
  }

  /** The link after j whole events and the first p characters of one more. */
  function Tearing(key: string, script: seq<Event>, j: nat, p: nat): Link
    requires j < |script| && 0 < p < |EventText(script[j])|
  {
    EmitOn(Sending(key, script, j), Torn(p))
  }

  ghost predicate IsWhole(key: string, script: seq<Event>, l: Link) {
    exists j | 0 <= j <= |script| :: l == Sending(key, script, j)
  }

  ghost predicate IsTorn(key: string, script: seq<Event>, l: Link) {
    exists j, p | 0 <= j < |script| && 0 < p < |EventText(script[j])| :: l == Tearing(key, script, j, p)
  }

  /** l is a link after some whole emits and possibly one torn one, and these are its lines. */
  ghost predicate ArrivesAs(key: string, script: seq<Event>, lines: seq<string>, l: Link) {
    && LinkOk(l) && l.script == script && l.key == key && l.taken == 0 && !l.stopped && TextsOf(l.wire) == lines
    && (IsWhole(key, script, l) || IsTorn(key, script, l))
  }

  lemma {:induction false} WholeArrives(key: string, script: seq<Event>, j: nat)
    requires j <= |script|
    ensures ArrivesAs(key, script, LinesOf(script)[..j], Sending(key, script, j))
  {
    var l := Sending(key, script, j);
    assert forall i | 0 <= i < j :: LineOk(l, i);
    assert TextsOf(l.wire) == LinesOf(script)[..j];
    assert IsWhole(key, script, l);
  }

  lemma {:induction false} TornArrives(key: string, script: seq<Event>, j: nat, p: nat)
    requires j < |script| && 0 < p < |EventText(script[j])|
    ensures ArrivesAs(key, script, LinesOf(script)[..j] + [EventText(script[j])[..p]], Tearing(key, script, j, p))
  {
    var before, l := Sending(key, script, j), Tearing(key, script, j, p);
    WholeArrives(key, script, j);
    EmitKeepsLink(before, Torn(p));
    OneMoreText(before.wire, Line(j, EventText(script[j])[..p]));
    assert IsTorn(key, script, l);
  }

  lemma {:induction false} LinesAreLink(key: string, script: seq<Event>, j: nat, part: string) returns (l: Link)
    requires j <= |script| && (part != "" ==> j < |script| && HasPrefix(EventText(script[j]), part))
    ensures ArrivesAs(key, script, LinesOf(script)[..j] + if part == "" then [] else [part], l)
    ensures part == "" ==> l == Sending(key, script, j)
  {
    if part == "" {
      l := Sending(key, script, j);
      WholeArrives(key, script, j);
      assert LinesOf(script)[..j] + [] == LinesOf(script)[..j];
    } else if |part| < |EventText(script[j])| {
      l := Tearing(key, script, j, |part|);
      TornArrives(key, script, j, |part|);
    } else {
      l := Sending(key, script, j + 1);
      WholeArrives(key, script, j + 1);
      TakeOneMore(LinesOf(script), j);
      assert part == EventText(script[j])[..|part|] == LinesOf(script)[j];
    }
  }

  /**
   * Whatever part of the agent's text arrives before the connection ends, the scanner sees the
   * lines of a link whose events were written whole but for a last one that may be torn; all of
   * the text is every event written whole.
   */
  lemma {:induction false} TextIsLink(key: string, script: seq<Event>, k: nat) returns (l: Link)
    requires k <= |WireText(LinesOf(script))|
    ensures ArrivesAs(key, script, LinesFrom("", WireText(LinesOf(script))[..k]), l)
    ensures k == |WireText(LinesOf(script))| ==> l == Sending(key, script, |script|)
  {
    ScriptIsLines(script);
    var j, part := ScannerSeesLines(LinesOf(script), k);
    l := LinesAreLink(key, script, j, part);
    if k == |WireText(LinesOf(script))| {
      assert LinesOf(script)[..j] + [] == LinesOf(script)[..|script|];
    }
  }

  // ---- scanning a link ----

  /** The pipeline's scanner runs on link a until it has stopped or taken every line; accepts(n) tells whether the n-th publish succeeds. */
  function ScanOn(cap: nat, s: State, a: nat, n: nat, accepts: nat -> bool): State
    requires a < |s.links|
    decreases if a < |s.links| && !s.links[a].stopped then 1 + |s.links[a].wire| - s.links[a].taken else 0
  {
    if s.links[a].stopped || s.links[a].taken >= |s.links[a].wire| then s
    else ScanOn(cap, Apply(cap, s, ScanLine(a, accepts(n))), a, n + 1, accepts)
  }

  /** No line ends in the carriage return that the scanner would drop. */
  ghost predicate NoCR(lines: seq<string>) {
    forall i | 0 <= i < |lines| :: DropCR(lines[i]) == lines[i]
  }

  /** The lines a link's scanner has not taken yet. */
  function Untaken(l: Link): seq<string>
    requires l.taken <= |l.wire|
  {
    TextsOf(l.wire)[l.taken..]
  }

  lemma {:induction false} OneMoreBody(log: seq<Entry>, e: Entry)
    ensures Bodies(log + [e]) == Bodies(log) + [e.body]
  {
  }

  lemma {:induction false} ScanFitting(cap: nat, s: State, a: nat, ok: bool)
    requires a < |s.links| && !s.links[a].stopped && s.links[a].taken < |s.links[a].wire|
    requires Fits(s.links[a].wire[s.links[a].taken].text, cap)
    ensures var l, t := s.links[a], Apply(cap, s, ScanLine(a, ok));
            && a < |t.links| && t.links[a] == l.(taken := l.taken + 1)
            && Bodies(LogOf(t, l.key)) == Bodies(LogOf(s, l.key)) + if ok then [Route(l.wire[l.taken].text)] else []
  {
    var l := s.links[a];
    OneMoreBody(LogOf(s, l.key), Entry(a, l.taken, Route(l.wire[l.taken].text)));
    assert Bodies(LogOf(s, l.key)) + [] == Bodies(LogOf(s, l.key));
  }

  lemma {:induction false} ScanMisfit(cap: nat, s: State, a: nat, ok: bool)
    requires a < |s.links| && !s.links[a].stopped && s.links[a].taken < |s.links[a].wire|
    requires !Fits(s.links[a].wire[s.links[a].taken].text, cap)
    ensures var t := Apply(cap, s, ScanLine(a, ok));
            a < |t.links| && t.links[a].stopped && LogOf(t, s.links[a].key) == LogOf(s, s.links[a].key)
  {
  }

  lemma {:induction false} PublishedStep(lines: seq<string>, cap: nat, n: nat, accepts: nat -> bool)
    requires lines != [] && NoCR(lines)
    ensures Fits(lines[0], cap) ==>
              && PublishedFrom(lines, cap, n, accepts) ==
                 (if accepts(n) then [Route(lines[0])] else []) + PublishedFrom(lines[1..], cap, n + 1, accepts)
              && ScanLines(lines, cap).tooLong == ScanLines(lines[1..], cap).tooLong
    ensures !Fits(lines[0], cap) ==> PublishedFrom(lines, cap, n, accepts) == [] && ScanLines(lines, cap).tooLong
  {
    if Fits(lines[0], cap) {
      ForwardStep(lines, cap, n, accepts);
    }
  }

  /** The pipeline publishes for the untaken lines what the loop over the text publishes, and stops when it does. */
  lemma {:induction false} ScanOnPublishes(cap: nat, s: State, a: nat, n: nat, accepts: nat -> bool)
    requires a < |s.links| && !s.links[a].stopped && s.links[a].taken <= |s.links[a].wire| && NoCR(Untaken(s.links[a]))
    ensures var l, t := s.links[a], ScanOn(cap, s, a, n, accepts);
            && Bodies(LogOf(t, l.key)) == Bodies(LogOf(s, l.key)) + PublishedFrom(Untaken(l), cap, n, accepts)
            && a < |t.links| && t.links[a].stopped == ScanLines(Untaken(l), cap).tooLong
    decreases |s.links[a].wire| - s.links[a].taken
  {
    var l := s.links[a];
    var lines := Untaken(l);
    if l.taken < |l.wire| {
      var t := Apply(cap, s, ScanLine(a, accepts(n)));
      PublishedStep(lines, cap, n, accepts);
      if !Fits(lines[0], cap) {
        ScanMisfit(cap, s, a, accepts(n));
      } else {
        ScanFitting(cap, s, a, accepts(n));
        assert Untaken(t.links[a]) == lines[1..];
        ScanOnPublishes(cap, t, a, n + 1, accepts);
        JoinIsAssociative(
          Bodies(LogOf(s, l.key)), if accepts(n) then [Route(lines[0])] else [], PublishedFrom(lines[1..], cap, n + 1, accepts));
      }
    }
  }

  lemma {:induction false} PartsHaveNoCR(script: seq<Event>, l: Link)
    requires LinkOk(l) && l.script == script
    ensures NoCR(TextsOf(l.wire))
  {
    forall i | 0 <= i < |l.wire|
      ensures DropCR(l.wire[i].text) == l.wire[i].text
    {
      assert LineOk(l, i);
      var text := EventText(script[l.wire[i].origin]);
      EventLineIsSafe(script[l.wire[i].origin]);
      assert forall j | 0 <= j < |l.wire[i].text| :: l.wire[i].text[j] == text[j] && Harmless(text[j]);
    }
  }

  // ---- together ----

  /** A run of the pipeline's steps leads to this one link, with nothing scanned and no client yet. */
  ghost predicate IsSent(cap: nat, key: string, script: seq<Event>, acts: seq<Action>, l: Link) {
    CanRun(cap, [(key, script)], acts) && Run(cap, [(key, script)], acts) == State([l], [], map[])
  }

  lemma {:induction false} CanSend(cap: nat, key: string, script: seq<Event>, j: nat) returns (acts: seq<Action>)
    requires j <= |script|
    ensures IsSent(cap, key, script, acts, Sending(key, script, j))
  {
    SendingIsEmitting(key, script, j);
    if j == 0 {
      acts := [];
    } else {
      acts := CanSend(cap, key, script, j - 1);
      OneMoreAction(cap, [(key, script)], acts, Emit(0, Whole));
      acts := acts + [Emit(0, Whole)];
    }
  }

  lemma {:induction false} CanTear(cap: nat, key: string, script: seq<Event>, j: nat, p: nat) returns (acts: seq<Action>)
    requires j < |script| && 0 < p < |EventText(script[j])|
    ensures IsSent(cap, key, script, acts, Tearing(key, script, j, p))
  {
    acts := CanSend(cap, key, script, j);
    OneMoreAction(cap, [(key, script)], acts, Emit(0, Torn(p)));
    acts := acts + [Emit(0, Torn(p))];
  }

  lemma {:induction false} CanArrive(cap: nat, key: string, script: seq<Event>, l: Link) returns (acts: seq<Action>)
    requires IsWhole(key, script, l) || IsTorn(key, script, l)
    ensures IsSent(cap, key, script, acts, l)
  {
    if IsWhole(key, script, l) {
      var j: nat :| j <= |script| && l == Sending(key, script, j);
      acts := CanSend(cap, key, script, j);
    } else {
      var j: nat, p: nat :| j < |script| && 0 < p < |EventText(script[j])| && l == Tearing(key, script, j, p);
      acts := CanTear(cap, key, script, j, p);
    }
  }

  /**
   * `ForwardEvents` on whatever part of the agent's text arrived publishes, whichever publishes
   * succeed, exactly the bodies that the pipeline's scanner logs for a link its steps lead to, with
   * whole events and at most a torn last one, and fails exactly if that scanner stops.
   */
  lemma {:induction false} SocketMeetsPipeline(key: string, script: seq<Event>, k: nat, cap: nat, accepts: nat -> bool)
    returns (l: Link, acts: seq<Action>)
    requires k <= |WireText(LinesOf(script))|
    ensures var text := WireText(LinesOf(script))[..k];
            var t := ScanOn(cap, State([l], [], map[]), 0, 0, accepts);
            && ArrivesAs(key, script, LinesFrom("", text), l) && IsSent(cap, key, script, acts, l)
            && Published(Scan(text, cap).tokens, 0, accepts) == Bodies(LogOf(t, key))
            && t.links != [] && Scan(text, cap).tooLong == t.links[0].stopped
  {
    l := TextIsLink(key, script, k);
    acts := CanArrive(cap, key, script, l);
    var s := State([l], [], map[]);
    PartsHaveNoCR(script, l);
    assert Untaken(l) == TextsOf(l.wire);
    ScanOnPublishes(cap, s, 0, 0, accepts);
    assert Bodies(LogOf(s, key)) == [];
  }
}
