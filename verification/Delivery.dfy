/** The event pipeline when nothing fails on the path from one agent to one client. */
module Delivery {
  import opened Text
  import opened Verdicts
  import opened Json
  import opened Wire
  import opened Sse
  import opened Hearing
  import opened Scanner
  import opened Pipeline
  import Agent
  import LimitWriter
  import RunTest
  import TestFiles

  type Scripts = seq<(string, seq<Event>)>

  /**
   * A step at which nothing fails between agent a and client c: its lines are written while the
   * socket is open and accepted when scanned, and the client is served and stays. All others may fail.
   */
  predicate Faultless(s: State, x: Action, a: nat, c: nat) {
    match x
    case Emit(b, how) => b == a ==> how == Whole || (how == Lost && b < |s.links| && s.links[b].stopped)
    case ScanLine(b, accepted) => b == a ==> accepted
    case Serve(d, ok) => d == c ==> ok
    case Leave(d) => d != c
    case Bind(_) => true
    case Fetch(_) => true
  }

  ghost predicate FaultlessRun(cap: nat, scripts: Scripts, acts: seq<Action>, a: nat, c: nat)
    requires CanRun(cap, scripts, acts)
    decreases |acts|
  {
    acts == [] ||
    (var init := acts[..|acts| - 1];
     FaultlessRun(cap, scripts, init, a, c) && Faultless(Run(cap, scripts, init), acts[|acts| - 1], a, c))
  }

  ghost predicate OnlyScript(scripts: Scripts, a: nat) {
    a < |scripts| && forall b | 0 <= b < |scripts| && scripts[b].0 == scripts[a].0 :: b == a
  }

  function LinesOf(script: seq<Event>): seq<string> {
    seq(|script|, i requires 0 <= i < |script| => EventText(script[i]))
  }

  /** How many events come before the first whose line does not fit the scanner. */
  function FirstMisfit(script: seq<Event>, cap: nat): (n: nat)
    ensures n <= |script|
    ensures forall i | 0 <= i < n :: Fits(EventText(script[i]), cap)
    ensures n < |script| ==> !Fits(EventText(script[n]), cap)
  {
    var n := FittingLines(LinesOf(script), cap);
    assert forall i | 0 <= i < n :: LinesOf(script)[i] == EventText(script[i]);
    n
  }

  ghost predicate AllFit(script: seq<Event>, cap: nat) {
    forall i | 0 <= i < |script| :: Fits(EventText(script[i]), cap)
  }

  lemma {:induction false} AllFitIff(script: seq<Event>, cap: nat)
    ensures AllFit(script, cap) <==> FirstMisfit(script, cap) == |script|
  {
  }

  function PayloadsOf(script: seq<Event>): seq<Payload> {
    seq(|script|, i requires 0 <= i < |script| => PayloadOf(script[i]))
  }

  ghost predicate SameScripts(s: State, scripts: Scripts) {
    |s.links| == |scripts| && forall b | 0 <= b < |scripts| :: s.links[b].key == scripts[b].0 && s.links[b].script == scripts[b].1
  }

  /**
   * Every event emitted while the socket was open is on the wire, and every line before the first
   * that does not fit is accepted, in order; at that line the scanner stops.
   */
  ghost predicate CleanLink(l: Link, a: nat, log: seq<Entry>, misfit: nat) {
    && !l.torn && |l.wire| <= l.sent <= |l.script| && (!l.stopped ==> |l.wire| == l.sent)
    && (forall i | 0 <= i < |l.wire| :: l.wire[i] == Line(i, EventText(l.script[i])))
    && l.taken <= misfit && l.taken <= |l.wire| && (l.stopped ==> l.taken == misfit < |l.script|)
    && |log| == l.taken
    && (forall i | 0 <= i < l.taken :: log[i] == Entry(a, i, PayloadText(PayloadOf(l.script[i]))))
  }

  ghost predicate CleanInv(cap: nat, s: State, scripts: Scripts, a: nat, c: nat) {
    && SameScripts(s, scripts) && OnlyScript(scripts, a)
    && CleanLink(s.links[a], a, LogOf(s, scripts[a].0), FirstMisfit(scripts[a].1, cap))
    && (c < |s.clients| ==> s.clients[c].serving)
  }

  lemma {:induction false} EmitStaysClean(l: Link, a: nat, log: seq<Entry>, misfit: nat, how: Outcome)
    requires CleanLink(l, a, log, misfit) && l.sent < |l.script|
    requires (how == Whole && !l.stopped) || (how == Lost && l.stopped)
    ensures CleanLink(EmitOn(l, how), a, log, misfit)
  {
  }

  lemma {:induction false} ScanStaysClean(l: Link, a: nat, log: seq<Entry>, misfit: nat)
    requires CleanLink(l, a, log, misfit) && !l.stopped && l.taken < |l.wire| && l.taken < misfit
    ensures CleanLink(l.(taken := l.taken + 1), a, log + [Entry(a, l.taken, Route(l.wire[l.taken].text))], misfit)
  {
    assert l.wire[l.taken].text == EventText(l.script[l.taken]);
    RouteEvent(l.script[l.taken]);
    var all := log + [Entry(a, l.taken, Route(l.wire[l.taken].text))];
    forall i | 0 <= i < l.taken + 1
      ensures all[i] == Entry(a, i, PayloadText(PayloadOf(l.script[i])))
    {
      assert i < l.taken ==> all[i] == log[i];
    }
  }

  /** The next line fits exactly if it comes before the first that does not. */
  lemma {:induction false} NextFitsIff(cap: nat, l: Link, a: nat, log: seq<Entry>)
    requires CleanLink(l, a, log, FirstMisfit(l.script, cap)) && l.taken < |l.wire|
    ensures Fits(l.wire[l.taken].text, cap) <==> l.taken < FirstMisfit(l.script, cap)
  {
    assert l.wire[l.taken] == Line(l.taken, EventText(l.script[l.taken]));
  }

  lemma {:induction false} ScriptsStay(cap: nat, s: State, x: Action, scripts: Scripts)
    requires SameScripts(s, scripts) && Enabled(s, x)
    ensures SameScripts(Apply(cap, s, x), scripts)
  {
  }

  lemma {:induction false} ServingStays(cap: nat, s: State, x: Action, a: nat, c: nat)
    requires Enabled(s, x) && Faultless(s, x, a, c) && (c < |s.clients| ==> s.clients[c].serving)
    ensures var t := Apply(cap, s, x); c < |t.clients| ==> t.clients[c].serving
  {
  }

  lemma {:induction false} OwnEmit(cap: nat, s: State, x: Action, a: nat, misfit: nat)
    requires Enabled(s, x) && x.Emit? && x.a == a && (x.how == Whole || (x.how == Lost && s.links[a].stopped))
    requires CleanLink(s.links[a], a, LogOf(s, s.links[a].key), misfit)
    ensures CleanLink(Apply(cap, s, x).links[a], a, LogOf(Apply(cap, s, x), s.links[a].key), misfit)
  {
    EmitStaysClean(s.links[a], a, LogOf(s, s.links[a].key), misfit, x.how);
  }

  /** What an accepted scan of link a does to the link and to its log. */
  lemma {:induction false} ScanOf(cap: nat, s: State, a: nat)
    requires Enabled(s, ScanLine(a, true))
    ensures var l, t := s.links[a], Apply(cap, s, ScanLine(a, true));
            var text := l.wire[l.taken].text;
            && (Fits(text, cap) ==>
                  t.links[a] == l.(taken := l.taken + 1) && LogOf(t, l.key) == LogOf(s, l.key) + [Entry(a, l.taken, Route(text))])
            && (!Fits(text, cap) ==> t.links[a] == l.(stopped := true) && LogOf(t, l.key) == LogOf(s, l.key))
  {
  }

  lemma {:induction false} StopStaysClean(l: Link, a: nat, log: seq<Entry>, misfit: nat)
    requires CleanLink(l, a, log, misfit) && l.taken == misfit < |l.wire|
    ensures CleanLink(l.(stopped := true), a, log, misfit)
  {
  }

  lemma {:induction false} OwnScan(cap: nat, s: State, x: Action, a: nat)
    requires Enabled(s, x) && x == ScanLine(a, true)
    requires CleanLink(s.links[a], a, LogOf(s, s.links[a].key), FirstMisfit(s.links[a].script, cap))
    ensures CleanLink(Apply(cap, s, x).links[a], a, LogOf(Apply(cap, s, x), s.links[a].key), FirstMisfit(s.links[a].script, cap))
  {
    var l := s.links[a];
    NextFitsIff(cap, l, a, LogOf(s, l.key));
    ScanOf(cap, s, a);
    if l.taken < FirstMisfit(l.script, cap) {
      ScanStaysClean(l, a, LogOf(s, l.key), FirstMisfit(l.script, cap));
    } else {
      StopStaysClean(l, a, LogOf(s, l.key), FirstMisfit(l.script, cap));
    }
  }

  /** Steps of others leave the link and the log of agent a alone. */
  lemma {:induction false} OtherStep(cap: nat, s: State, x: Action, a: nat)
    requires Enabled(s, x) && a < |s.links| && !(x.Emit? && x.a == a) && !(x.ScanLine? && x.a == a)
    requires forall b | 0 <= b < |s.links| && s.links[b].key == s.links[a].key :: b == a
    ensures var t := Apply(cap, s, x);
            t.links[a] == s.links[a] && LogOf(t, s.links[a].key) == LogOf(s, s.links[a].key)
  {
    if x.ScanLine? {
      assert s.links[x.a].key != s.links[a].key;
    }
  }

  lemma {:induction false} CleanStep(cap: nat, s: State, x: Action, scripts: Scripts, a: nat, c: nat)
    requires CleanInv(cap, s, scripts, a, c) && Enabled(s, x) && Faultless(s, x, a, c)
    ensures CleanInv(cap, Apply(cap, s, x), scripts, a, c)
  {
    ScriptsStay(cap, s, x, scripts);
    ServingStays(cap, s, x, a, c);
    if x.Emit? && x.a == a {
      OwnEmit(cap, s, x, a, FirstMisfit(scripts[a].1, cap));
    } else if x.ScanLine? && x.a == a {
      OwnScan(cap, s, x, a);
    } else {
      OtherStep(cap, s, x, a);
    }
  }

  lemma {:induction false} CleanAtStart(cap: nat, scripts: Scripts, a: nat, c: nat)
    requires OnlyScript(scripts, a)
    ensures CleanInv(cap, Start(scripts), scripts, a, c)
  {
  }

  lemma {:induction false} CleanRun(cap: nat, scripts: Scripts, acts: seq<Action>, a: nat, c: nat)
    requires CanRun(cap, scripts, acts) && FaultlessRun(cap, scripts, acts, a, c) && OnlyScript(scripts, a)
    ensures CleanInv(cap, Run(cap, scripts, acts), scripts, a, c)
    decreases |acts|
  {
    if acts == [] {
      CleanAtStart(cap, scripts, a, c);
    } else {
      CleanRun(cap, scripts, acts[..|acts| - 1], a, c);
      CleanStep(cap, Run(cap, scripts, acts[..|acts| - 1]), acts[|acts| - 1], scripts, a, c);
    }
  }

  // ---- what was written to the client ----

  lemma {:induction false} CleanBodies(l: Link, a: nat, log: seq<Entry>, misfit: nat)
    requires CleanLink(l, a, log, misfit)
    ensures Bodies(log) == Texts(PayloadsOf(l.script)[..l.taken])
  {
    forall i | 0 <= i < l.taken
      ensures Bodies(log)[i] == Texts(PayloadsOf(l.script)[..l.taken])[i]
    {
      assert log[i] == Entry(a, i, PayloadText(PayloadOf(l.script[i])));
    }
  }

  /** The client was written a stretch of the script from its binding on, and nothing from the n-th event on. */
  predicate WritesStretch(d: Client, script: seq<Event>, n: nat) {
    d.from + |d.written| <= n <= |script| && d.written == Texts(PayloadsOf(script)[d.from..d.from + |d.written|])
  }

  /** In every state a faultless path is in, a client was written a stretch of the script before the first misfit. */
  lemma {:induction false} WrittenBeforeMisfit(cap: nat, s: State, scripts: Scripts, a: nat, c: nat)
    requires CleanInv(cap, s, scripts, a, c) && c < |s.clients| && s.clients[c].key == scripts[a].0
    requires ClientOk(s.clients[c], LogOf(s, scripts[a].0))
    ensures WritesStretch(s.clients[c], scripts[a].1, FirstMisfit(scripts[a].1, cap))
  {
    var d, l := s.clients[c], s.links[a];
    var ps := PayloadsOf(l.script);
    CleanBodies(l, a, LogOf(s, d.key), FirstMisfit(scripts[a].1, cap));
    WrittenFromBinding(d, LogOf(s, d.key), ps[..l.taken]);
    assert ps[..l.taken][d.from..d.from + |d.written|] == ps[d.from..d.from + |d.written|];
  }

  /** The agent has emitted everything, the scanner has nothing left to take, and nothing is on the way to the client. */
  predicate Quiet(s: State, a: nat, c: nat)
    requires a < |s.links| && c < |s.clients|
  {
    && s.links[a].sent == |s.links[a].script| && (s.links[a].stopped || s.links[a].taken == |s.links[a].wire|)
    && s.clients[c].hand.None? && s.clients[c].queue == []
  }

  lemma {:induction false} QuietIsAtMisfit(cap: nat, s: State, scripts: Scripts, a: nat, c: nat)
    requires CleanInv(cap, s, scripts, a, c) && c < |s.clients| && Quiet(s, a, c)
    ensures s.links[a].taken == FirstMisfit(scripts[a].1, cap)
  {
  }

  /** A client bound after `from` messages is written exactly the rest of the script before the first misfit. */
  lemma {:induction false} QuietMeansDelivered(cap: nat, s: State, scripts: Scripts, a: nat, c: nat)
    requires CleanInv(cap, s, scripts, a, c) && c < |s.clients| && s.clients[c].key == scripts[a].0
    requires ClientOk(s.clients[c], LogOf(s, scripts[a].0))
    requires Quiet(s, a, c)
    ensures var d, n := s.clients[c], FirstMisfit(scripts[a].1, cap);
            d.from <= n && d.written == Texts(PayloadsOf(scripts[a].1)[d.from..n])
  {
    var d, log := s.clients[c], LogOf(s, scripts[a].0);
    QuietIsAtMisfit(cap, s, scripts, a, c);
    WrittenBeforeMisfit(cap, s, scripts, a, c);
    assert d.written == Backlog(d);
    assert |d.written| == |log| - d.from;
  }

  // ---- what the client hears ----

  ghost predicate Completed(s: State, scripts: Scripts, a: nat, c: nat) {
    a < |scripts| && a < |s.links| && c < |s.clients| && s.clients[c].key == scripts[a].0 && Quiet(s, a, c)
  }

  /** A faultless run after which client c is bound to the submission of agent a. */
  ghost predicate UnderWay(cap: nat, scripts: Scripts, acts: seq<Action>, a: nat, c: nat) {
    && CanRun(cap, scripts, acts) && FaultlessRun(cap, scripts, acts, a, c) && OnlyScript(scripts, a)
    && c < |Run(cap, scripts, acts).clients| && Run(cap, scripts, acts).clients[c].key == scripts[a].0
  }

  /**
   * If nothing fails between an agent and a client, a completed run lets the client hear exactly
   * what there is to hear of the events between its binding and the first line over the scanner's cap.
   */
  lemma {:induction false} CompletedRunYieldsAll(cap: nat, scripts: Scripts, acts: seq<Action>, a: nat, c: nat)
    requires UnderWay(cap, scripts, acts, a, c) && Completed(Run(cap, scripts, acts), scripts, a, c)
    ensures var d, n := Run(cap, scripts, acts).clients[c], FirstMisfit(scripts[a].1, cap);
            d.from <= n && Listen(Frames(d.written)) == HeardOf(PayloadsOf(scripts[a].1)[d.from..n])
  {
    RunKeepsInv(cap, scripts, acts);
    CleanRun(cap, scripts, acts, a, c);
    var s := Run(cap, scripts, acts);
    assert ClientOk(s.clients[c], LogOf(s, s.clients[c].key));
    QuietMeansDelivered(cap, s, scripts, a, c);
    StreamIsHeard(PayloadsOf(scripts[a].1)[s.clients[c].from..FirstMisfit(scripts[a].1, cap)]);
  }

  ghost predicate NoNel(script: seq<Event>) {
    forall i | 0 <= i < |script| :: !PayloadHasNel(PayloadOf(script[i]))
  }

  /** There is exactly one RESULT, and it is the last event. */
  ghost predicate EndsInResult(script: seq<Event>) {
    script != [] && forall i | 0 <= i < |script| :: script[i].kind == RESULT <==> i == |script| - 1
  }

  lemma {:induction false} NoNelThroughout(ps: seq<Payload>)
    requires forall i | 0 <= i < |ps| :: !PayloadHasNel(ps[i])
    ensures UpToNel(ps) == |ps|
  {
    if ps != [] {
      NoNelThroughout(ps[1..]);
    }
  }

  lemma {:induction false} NoResultBefore(ps: seq<Payload>)
    requires forall i | 0 <= i < |ps| - 1 :: ps[i].kind != "RESULT"
    ensures UpToResult(ps) == |ps|
  {
    if ps != [] {
      NoResultBefore(ps[1..]);
    }
  }

  lemma {:induction false} ViewsOfStretch(ps: seq<Payload>, from: nat, to: nat)
    requires from <= to <= |ps|
    ensures var part := ps[from..to]; Views(part)[..|part|] == Views(ps)[from..to]
  {
  }

  /** What there is to hear of a stretch of a script that ends in its only RESULT and has no raw U+0085. */
  lemma {:induction false} StretchOfScript(script: seq<Event>, from: nat, to: nat)
    requires from <= to <= |script| && NoNel(script) && EndsInResult(script)
    ensures HeardOf(PayloadsOf(script)[from..to]) ==
            Heard(Views(PayloadsOf(script))[from..to], false, from < to == |script|)
  {
    var ps := PayloadsOf(script)[from..to];
    assert forall i | 0 <= i < |ps| :: ps[i] == PayloadOf(script[from + i]);
    NoNelThroughout(ps);
    NoResultBefore(ps);
    ViewsOfStretch(PayloadsOf(script), from, to);
  }

  /**
   * For a script that ends in its only RESULT and has no raw U+0085: a completed faultless run
   * yields the projected events from the binding up to the first line over the cap, and it ends
   * with the RESULT exactly if every line fits and the client was bound before it.
   */
  lemma {:induction false} CompletedRunEndsIff(cap: nat, scripts: Scripts, acts: seq<Action>, a: nat, c: nat)
    requires UnderWay(cap, scripts, acts, a, c) && Completed(Run(cap, scripts, acts), scripts, a, c)
    requires NoNel(scripts[a].1) && EndsInResult(scripts[a].1)
    ensures var d, n := Run(cap, scripts, acts).clients[c], FirstMisfit(scripts[a].1, cap);
            && d.from <= n
            && Listen(Frames(d.written)).events == Views(PayloadsOf(scripts[a].1))[d.from..n]
            && !Listen(Frames(d.written)).raised
            && (Listen(Frames(d.written)).ended <==> AllFit(scripts[a].1, cap) && d.from < |scripts[a].1|)
  {
    CompletedRunYieldsAll(cap, scripts, acts, a, c);
    StretchOfScript(scripts[a].1, Run(cap, scripts, acts).clients[c].from, FirstMisfit(scripts[a].1, cap));
    AllFitIff(scripts[a].1, cap);
  }

  /** A received part of frames without a RESULT does not end the generator. */
  lemma {:induction false} NoResultNoEnd(ps: seq<Payload>, stream: string)
    requires HasPrefix(Stream(ps), stream) && forall i | 0 <= i < |ps| :: ps[i].kind != "RESULT"
    ensures !Listen(stream).ended
  {
    CutStreamIsHeard(ps, |stream|);
    EndsOnResult(stream);
    var events := Listen(stream).events;
    if events != [] {
      var j := |events| - 1;
      assert events[j] == Views(ps)[..UpToResult(ps)][j] == View(ps[j]);
    }
  }

  lemma {:induction false} StretchHasNoResult(script: seq<Event>, from: nat, to: nat)
    requires from <= to < |script| && EndsInResult(script)
    ensures var ps := PayloadsOf(script)[from..to]; forall i | 0 <= i < |ps| :: ps[i].kind != "RESULT"
  {
    forall i | 0 <= i < to - from
      ensures PayloadsOf(script)[from..to][i].kind != "RESULT"
    {
      assert PayloadsOf(script)[from..to][i] == PayloadOf(script[from + i]);
    }
  }

  lemma {:induction false} StretchNoEnd(script: seq<Event>, d: Client, upTo: nat, stream: string)
    requires WritesStretch(d, script, upTo) && upTo < |script| && EndsInResult(script)
    requires HasPrefix(Frames(d.written), stream)
    ensures !Listen(stream).ended
  {
    var to := d.from + |d.written|;
    StretchHasNoResult(script, d.from, to);
    NoResultNoEnd(PayloadsOf(script)[d.from..to], stream);
  }

  lemma {:induction false} NotPastMisfit(cap: nat, s: State, scripts: Scripts, a: nat, c: nat, stream: string)
    requires CleanInv(cap, s, scripts, a, c) && c < |s.clients| && s.clients[c].key == scripts[a].0
    requires ClientOk(s.clients[c], LogOf(s, scripts[a].0)) && HasPrefix(Frames(s.clients[c].written), stream)
    requires EndsInResult(scripts[a].1) && FirstMisfit(scripts[a].1, cap) < |scripts[a].1|
    ensures !Listen(stream).ended
  {
    WrittenBeforeMisfit(cap, s, scripts, a, c);
    StretchNoEnd(scripts[a].1, s.clients[c], FirstMisfit(scripts[a].1, cap), stream);
  }

  /**
   * The other half of the cap: if some line does not fit, then in every state a faultless path can
   * be in, whatever was received so far, no client of that submission is told that judging ended.
   */
  lemma {:induction false} NeverPastMisfit(
    cap: nat, scripts: Scripts, acts: seq<Action>, a: nat, c: nat, stream: string)
    requires UnderWay(cap, scripts, acts, a, c) && HasPrefix(Frames(Run(cap, scripts, acts).clients[c].written), stream)
    requires EndsInResult(scripts[a].1) && !AllFit(scripts[a].1, cap)
    ensures !Listen(stream).ended
  {
    RunKeepsInv(cap, scripts, acts);
    CleanRun(cap, scripts, acts, a, c);
    AllFitIff(scripts[a].1, cap);
    NotPastMisfit(cap, Run(cap, scripts, acts), scripts, a, c, stream);
  }

  // ---- every faultless run can be completed ----

  function Remaining(s: State, a: nat, c: nat): nat
    requires a < |s.links| && c < |s.clients|
    requires s.links[a].sent <= |s.links[a].script| && s.links[a].taken <= |s.links[a].wire|
  {
    4 * (|s.links[a].script| - s.links[a].sent) + 3 * (|s.links[a].wire| - s.links[a].taken) +
    (if s.links[a].stopped then 0 else 1) + 2 * |s.clients[c].queue| + |InHand(s.clients[c])|
  }

  /** The steps that move an event along the path from agent a to client c. */
  predicate OnPath(x: Action, a: nat, c: nat) {
    (x.Emit? && x.a == a) || (x.ScanLine? && x.a == a) || (x.Fetch? && x.c == c) || (x.Serve? && x.c == c)
  }

  lemma {:induction false} PathStepAdvances(cap: nat, s: State, x: Action, a: nat, c: nat)
    requires Enabled(s, x) && Faultless(s, x, a, c) && OnPath(x, a, c)
    requires a < |s.links| && c < |s.clients| && s.clients[c].key == s.links[a].key
    requires s.links[a].sent <= |s.links[a].script| && s.links[a].taken <= |s.links[a].wire|
    ensures var t := Apply(cap, s, x);
            && |t.links| == |s.links| && |t.clients| == |s.clients| && t.clients[c].key == s.clients[c].key
            && t.links[a].sent <= |t.links[a].script| && t.links[a].taken <= |t.links[a].wire|
            && Remaining(t, a, c) < Remaining(s, a, c)
  {
  }

  lemma {:induction false} OtherStepsWait(cap: nat, s: State, x: Action, a: nat, c: nat)
    requires Enabled(s, x) && a < |s.links| && c < |s.clients| && s.clients[c].key == s.links[a].key
    requires forall b | 0 <= b < |s.links| && s.links[b].key == s.links[a].key :: b == a
    requires !OnPath(x, a, c)
    ensures var t := Apply(cap, s, x);
            && a < |t.links| && c < |t.clients| && t.links[a] == s.links[a]
            && t.clients[c].key == s.clients[c].key && t.clients[c].from == s.clients[c].from
            && t.clients[c].queue == s.clients[c].queue && t.clients[c].hand == s.clients[c].hand
  {
    if x.ScanLine? {
      assert s.links[x.a].key != s.links[a].key;
    }
  }

  /** No step ever sends the path back: steps on it bring the end nearer, all others leave it where it is. */
  lemma {:induction false} NoStepDelays(cap: nat, s: State, x: Action, scripts: Scripts, a: nat, c: nat)
    requires CleanInv(cap, s, scripts, a, c) && Enabled(s, x) && Faultless(s, x, a, c)
    requires c < |s.clients| && s.clients[c].key == scripts[a].0
    ensures var t := Apply(cap, s, x);
            && a < |t.links| && c < |t.clients| && t.clients[c].key == s.clients[c].key
            && t.links[a].sent <= |t.links[a].script| && t.links[a].taken <= |t.links[a].wire|
            && if OnPath(x, a, c) then Remaining(t, a, c) < Remaining(s, a, c) else Remaining(t, a, c) == Remaining(s, a, c)
  {
    if OnPath(x, a, c) {
      PathStepAdvances(cap, s, x, a, c);
    } else {
      OtherStepsWait(cap, s, x, a, c);
    }
  }

  /** While the path is not quiet, one of its own faultless steps is enabled, and it brings the end nearer. */
  lemma {:induction false} PathCanAdvance(cap: nat, s: State, scripts: Scripts, a: nat, c: nat) returns (x: Action)
    requires Inv(s) && CleanInv(cap, s, scripts, a, c)
    requires c < |s.clients| && s.clients[c].key == scripts[a].0 && !Quiet(s, a, c)
    ensures Enabled(s, x) && Faultless(s, x, a, c)
    ensures var t := Apply(cap, s, x);
            && |t.links| == |s.links| && |t.clients| == |s.clients| && t.clients[c].key == s.clients[c].key
            && CleanInv(cap, t, scripts, a, c)
            && Remaining(t, a, c) < Remaining(s, a, c)
  {
    var l, d := s.links[a], s.clients[c];
    if d.hand.Some? {
      x := Serve(c, true);
    } else if d.queue != [] {
      x := Fetch(c);
    } else if !l.stopped && l.taken < |l.wire| {
      x := ScanLine(a, true);
    } else {
      x := Emit(a, if l.stopped then Lost else Whole);
    }
    CleanStep(cap, s, x, scripts, a, c);
    PathStepAdvances(cap, s, x, a, c);
  }

  lemma {:induction false} OneMoreAction(cap: nat, scripts: Scripts, acts: seq<Action>, x: Action)
    requires CanRun(cap, scripts, acts) && Enabled(Run(cap, scripts, acts), x)
    ensures CanRun(cap, scripts, acts + [x]) && Run(cap, scripts, acts + [x]) == Apply(cap, Run(cap, scripts, acts), x)
  {
    assert (acts + [x])[..|acts + [x]| - 1] == acts;
  }

  lemma {:induction false} OneMoreFaultless(cap: nat, scripts: Scripts, acts: seq<Action>, x: Action, a: nat, c: nat)
    requires CanRun(cap, scripts, acts) && FaultlessRun(cap, scripts, acts, a, c)
    requires Enabled(Run(cap, scripts, acts), x) && Faultless(Run(cap, scripts, acts), x, a, c)
    ensures CanRun(cap, scripts, acts + [x]) && FaultlessRun(cap, scripts, acts + [x], a, c)
  {
    OneMoreAction(cap, scripts, acts, x);
    assert (acts + [x])[..|acts + [x]| - 1] == acts;
  }

  ghost function Distance(cap: nat, scripts: Scripts, acts: seq<Action>, a: nat, c: nat): nat
    requires UnderWay(cap, scripts, acts, a, c)
  {
    CleanRun(cap, scripts, acts, a, c);
    Remaining(Run(cap, scripts, acts), a, c)
  }

  /** `more` is a faultless continuation that brings everything to the client. */
  ghost predicate Completes(cap: nat, scripts: Scripts, acts: seq<Action>, more: seq<Action>, a: nat, c: nat) {
    UnderWay(cap, scripts, acts + more, a, c) && Completed(Run(cap, scripts, acts + more), scripts, a, c)
  }

  lemma {:induction false} RunAdvances(cap: nat, scripts: Scripts, acts: seq<Action>, a: nat, c: nat)
    returns (x: Action)
    requires UnderWay(cap, scripts, acts, a, c) && !Completed(Run(cap, scripts, acts), scripts, a, c)
    ensures UnderWay(cap, scripts, acts + [x], a, c)
    ensures Distance(cap, scripts, acts + [x], a, c) < Distance(cap, scripts, acts, a, c)
  {
    CleanRun(cap, scripts, acts, a, c);
    RunKeepsInv(cap, scripts, acts);
    x := PathCanAdvance(cap, Run(cap, scripts, acts), scripts, a, c);
    OneMoreAction(cap, scripts, acts, x);
    OneMoreFaultless(cap, scripts, acts, x, a, c);
  }

  /** However a faultless run goes, it can be continued without a fault until everything is delivered. */
  lemma {:induction false} EveryRunCompletes(cap: nat, scripts: Scripts, acts: seq<Action>, a: nat, c: nat)
    returns (more: seq<Action>)
    requires UnderWay(cap, scripts, acts, a, c)
    ensures Completes(cap, scripts, acts, more, a, c)
    decreases Distance(cap, scripts, acts, a, c)
  {
    if Completed(Run(cap, scripts, acts), scripts, a, c) {
      more := [];
      assert acts + more == acts;
    } else {
      var x := RunAdvances(cap, scripts, acts, a, c);
      var rest := EveryRunCompletes(cap, scripts, acts + [x], a, c);
      more := [x] + rest;
      JoinIsAssociative(acts, [x], rest);
    }
  }

  // ---- from the judge to the client ----

  /** Six times its other fields still leaves room in the scanner for every event. */
  ghost predicate CapIsEnough(script: seq<Event>, logLimitKB: nat, maxLogCapKB: int) {
    forall i | 0 <= i < |script| :: maxLogCapKB * 1024 > 60 + 12000 * logLimitKB + 6 * OtherBytes(script[i])
  }

  /** No log exceeds the limit, neither the tests' nor the compiler's. */
  ghost predicate LogsBounded(payload: Agent.Payload, dir: TestFiles.TestDir, run: Agent.TestRun, logLimitKB: nat) {
    && (payload.Spec? && payload.compilation.CompileFails? ==>
          |payload.compilation.stdout| <= logLimitKB * 1000 && |payload.compilation.stderr| <= logLimitKB * 1000)
    && forall k | 0 <= k < |Agent.Reports(dir, run)| ::
         |Agent.Reports(dir, run)[k].stdout| <= logLimitKB * 1000 && |Agent.Reports(dir, run)[k].stderr| <= logLimitKB * 1000
  }

  /** A log is what a limit writer without a cancel function kept of some writes. */
  ghost predicate KeptByWriter(log: seq<byte>, logLimitKB: nat) {
    exists chunks :: log == LimitWriter.After(logLimitKB * 1000, false, chunks).buf
  }

  ghost predicate CompilerLogsAreReal(payload: Agent.Payload, logLimitKB: nat) {
    payload.Spec? && payload.compilation.CompileFails? ==>
      KeptByWriter(payload.compilation.stdout, logLimitKB) && KeptByWriter(payload.compilation.stderr, logLimitKB)
  }

  lemma {:induction false} KeptIsBounded(log: seq<byte>, logLimitKB: nat)
    requires KeptByWriter(log, logLimitKB)
    ensures |log| <= logLimitKB * 1000
  {
    var chunks :| log == LimitWriter.After(logLimitKB * 1000, false, chunks).buf;
    LimitWriter.AfterHolds(logLimitKB * 1000, false, chunks);
  }

  lemma {:induction false} ReportIsBounded(
    dir: TestFiles.TestDir, run: Agent.TestRun, i: nat,
    cfg: (TestFiles.Pair, nat) -> RunTest.Config, setup: (TestFiles.Pair, nat) -> RunTest.Setup)
    requires Agent.ReportsAreReal(dir, run, cfg, setup) && TestFiles.Exists(dir, i)
    ensures var p, r := TestFiles.FindTestcaseFiles(dir, i).value, Agent.Report(dir, run, i);
            |r.stdout| <= cfg(p, i).logLimitKB * 1000 && |r.stderr| <= cfg(p, i).logLimitKB * 1000
  {
    var p := TestFiles.FindTestcaseFiles(dir, i).value;
    assert Agent.ReportIsReal(p, i, run, cfg, setup);
    RunTest.ReportedLogsAreBounded(cfg(p, i), setup(p, i), run(p, i));
  }

  /** Whatever the schedules of the tests and of the compiler were, no log exceeds the limit of the execution spec. */
  lemma {:induction false} RealLogsAreBounded(
    payload: Agent.Payload, dir: TestFiles.TestDir, run: Agent.TestRun, logLimitKB: nat,
    cfg: (TestFiles.Pair, nat) -> RunTest.Config, setup: (TestFiles.Pair, nat) -> RunTest.Setup)
    requires Agent.ReportsAreReal(dir, run, cfg, setup) && CompilerLogsAreReal(payload, logLimitKB)
    requires forall p, i :: cfg(p, i).logLimitKB == logLimitKB
    ensures LogsBounded(payload, dir, run, logLimitKB)
  {
    if payload.Spec? && payload.compilation.CompileFails? {
      KeptIsBounded(payload.compilation.stdout, logLimitKB);
      KeptIsBounded(payload.compilation.stderr, logLimitKB);
    }
    var rs := Agent.Reports(dir, run);
    forall k | 0 <= k < |rs|
      ensures |rs[k].stdout| <= logLimitKB * 1000 && |rs[k].stderr| <= logLimitKB * 1000
    {
      assert rs[k] == Agent.Report(dir, run, k + 1);
      ReportIsBounded(dir, run, k + 1, cfg, setup);
    }
  }

  lemma {:induction false} AgentLogsWithin(payload: Agent.Payload, dir: TestFiles.TestDir, run: Agent.TestRun, logLimitKB: nat)
    requires LogsBounded(payload, dir, run, logLimitKB)
    ensures var es := Agent.AgentEvents(payload, dir, run); forall i | 0 <= i < |es| :: LogsWithin(es[i], logLimitKB)
  {
  }

  lemma {:induction false} LinesFit(
    payload: Agent.Payload, dir: TestFiles.TestDir, run: Agent.TestRun, logLimitKB: nat, maxLogCapKB: int)
    requires LogsBounded(payload, dir, run, logLimitKB)
    requires CapIsEnough(Agent.AgentEvents(payload, dir, run), logLimitKB, maxLogCapKB)
    ensures AllFit(Agent.AgentEvents(payload, dir, run), Cap(maxLogCapKB))
  {
    var script := Agent.AgentEvents(payload, dir, run);
    AgentLogsWithin(payload, dir, run, logLimitKB);
    forall i | 0 <= i < |script|
      ensures Fits(EventText(script[i]), Cap(maxLogCapKB))
    {
      EventFits(script[i], logLimitKB, maxLogCapKB);
    }
  }

  /** A script the agent emits after it has read the execution spec. */
  lemma {:induction false} JudgingEndsInResult(payload: Agent.Payload, dir: TestFiles.TestDir, run: Agent.TestRun)
    requires !payload.ReadFails?
    ensures EndsInResult(Agent.AgentEvents(payload, dir, run))
  {
    Agent.ResultOnceAndLast(payload, dir, run);
  }

  /**
   * From judging to watching: a client bound before the first message hears the agent's event
   * stream, projected, up to the first line over the scanner's cap, whatever was judged, and
   * stops at the RESULT exactly if there is no such line; provided the execution spec reached the
   * agent, nothing on the path fails, and no published field holds a raw U+0085.
   */
  lemma {:induction false} WatcherSeesJudging(
    payload: Agent.Payload, dir: TestFiles.TestDir, run: Agent.TestRun, cap: nat,
    scripts: Scripts, acts: seq<Action>, a: nat, c: nat)
    requires !payload.ReadFails? && UnderWay(cap, scripts, acts, a, c)
    requires scripts[a].1 == Agent.AgentEvents(payload, dir, run) && NoNel(scripts[a].1)
    requires Completed(Run(cap, scripts, acts), scripts, a, c) && Run(cap, scripts, acts).clients[c].from == 0
    ensures var script := Agent.AgentEvents(payload, dir, run);
            var n := FirstMisfit(script, cap);
            Listen(Frames(Run(cap, scripts, acts).clients[c].written)) ==
            Heard(Views(PayloadsOf(script))[..n], false, n == |script|)
  {
    JudgingEndsInResult(payload, dir, run);
    CompletedRunYieldsAll(cap, scripts, acts, a, c);
    StretchOfScript(scripts[a].1, 0, FirstMisfit(scripts[a].1, cap));
  }

  lemma {:induction false} BindingStays(cap: nat, s: State, x: Action, c: nat)
    requires Enabled(s, x) && c < |s.clients|
    ensures var t := Apply(cap, s, x);
            c < |t.clients| && t.clients[c].key == s.clients[c].key && t.clients[c].from == s.clients[c].from
  {
  }

  /** A client whose binding is the first thing that happens misses nothing. */
  lemma {:induction false} FirstMissesNothing(cap: nat, scripts: Scripts, acts: seq<Action>, key: string)
    requires acts != [] && acts[0] == Bind(key) && CanRun(cap, scripts, acts)
    ensures var s := Run(cap, scripts, acts); s.clients != [] && s.clients[0].key == key && s.clients[0].from == 0
    decreases |acts|
  {
    var init, x := acts[..|acts| - 1], acts[|acts| - 1];
    if init == [] {
      assert Run(cap, scripts, init) == Start(scripts);
    } else {
      FirstMissesNothing(cap, scripts, init, key);
      BindingStays(cap, Run(cap, scripts, init), x, 0);
    }
  }

  lemma {:induction false} BindingComesFirst(cap: nat, key: string, script: seq<Event>)
    ensures UnderWay(cap, [(key, script)], [Bind(key)], 0, 0)
  {
    OneMoreFaultless(cap, [(key, script)], [], Bind(key), 0, 0);
    assert [] + [Bind(key)] == [Bind(key)];
    FirstMissesNothing(cap, [(key, script)], [Bind(key)], key);
  }

  /** Whatever is judged, there is a run in which a client hears all of it that the cap lets through. */
  lemma {:induction false} JudgingCanBeWatched(
    payload: Agent.Payload, dir: TestFiles.TestDir, run: Agent.TestRun, cap: nat, key: string)
    returns (acts: seq<Action>)
    requires !payload.ReadFails? && NoNel(Agent.AgentEvents(payload, dir, run))
    ensures var script := Agent.AgentEvents(payload, dir, run);
            var n := FirstMisfit(script, cap);
            && UnderWay(cap, [(key, script)], acts, 0, 0) && Completed(Run(cap, [(key, script)], acts), [(key, script)], 0, 0)
            && Run(cap, [(key, script)], acts).clients[0].from == 0
            && Listen(Frames(Run(cap, [(key, script)], acts).clients[0].written)) ==
               Heard(Views(PayloadsOf(script))[..n], false, n == |script|)
  {
    var scripts := [(key, Agent.AgentEvents(payload, dir, run))];
    BindingComesFirst(cap, key, scripts[0].1);
    var more := EveryRunCompletes(cap, scripts, [Bind(key)], 0, 0);
    acts := [Bind(key)] + more;
    FirstMissesNothing(cap, scripts, acts, key);
    WatcherSeesJudging(payload, dir, run, cap, scripts, acts, 0, 0);
  }

  // ---- a verdict that is lost ----

  /** The report on a program that fills both its streams with control characters, for every test. */
  function FloodRun(logLimitKB: nat): Agent.TestRun {
    (p: TestFiles.Pair, i: nat) =>
      RuntimeInfo(OLE, Controls(logLimitKB * 1000), Controls(logLimitKB * 1000), RunTest.TOO_MUCH)
  }

  ghost predicate HasLimit(cfg: Agent.Configs, logLimitKB: nat) {
    forall p, i :: cfg(p, i).logLimitKB == logLimitKB && cfg(p, i).index == i
  }

  lemma {:induction false} FloodRunIsReal(dir: TestFiles.TestDir, cfg: Agent.Configs, logLimitKB: nat)
    requires HasLimit(cfg, logLimitKB) && logLimitKB > 0
    ensures Agent.ReportsAreReal(dir, FloodRun(logLimitKB), cfg, (p: TestFiles.Pair, i: nat) => RunTest.Started)
  {
    forall i: nat | TestFiles.Exists(dir, i)
      ensures Agent.ReportIsReal(TestFiles.FindTestcaseFiles(dir, i).value, i, FloodRun(logLimitKB), cfg,
                                 (p: TestFiles.Pair, j: nat) => RunTest.Started)
    {
      var p := TestFiles.FindTestcaseFiles(dir, i).value;
      assert cfg(p, i).logLimitKB == logLimitKB && cfg(p, i).index == i;
      RunTest.FloodIsReported(cfg(p, i), Controls(logLimitKB * 1000));
    }
  }

  lemma {:induction false} FloodEvents(dir: TestFiles.TestDir, halt: bool, testsetPath: string, logLimitKB: nat)
    requires TestFiles.Exists(dir, 1)
    ensures Agent.AgentEvents(Agent.Spec(halt, testsetPath, Agent.NoCompiler), dir, FloodRun(logLimitKB)) ==
            [WorstEvent(INFO, OLE, RunTest.TOO_MUCH, logLimitKB), Agent.ResultEvent(OLE)]
  {
    var rs := Agent.Reports(dir, FloodRun(logLimitKB));
    assert TestFiles.TestCount(dir) != 0;
    assert rs[0] == Agent.Report(dir, FloodRun(logLimitKB), 1);
    Agent.StoppedBy(rs, halt, 0, testsetPath);
    assert rs[..1] == [rs[0]];
    assert Agent.InfoEvents([rs[0]]) == [WorstEvent(INFO, OLE, RunTest.TOO_MUCH, logLimitKB)];
  }

  lemma {:induction false} NoNelInTexts()
    ensures NEL !in INFO && NEL !in OLE && NEL !in RESULT && NEL !in RunTest.TOO_MUCH && NEL !in ""
  {
  }

  lemma {:induction false} FloodDoesNotFit(logLimitKB: nat)
    requires logLimitKB >= 88
    ensures var script := [WorstEvent(INFO, OLE, RunTest.TOO_MUCH, logLimitKB), Agent.ResultEvent(OLE)];
            FirstMisfit(script, Cap(1024)) == 0 && NoNel(script)
  {
    ShippedCapIsTooSmall(INFO, OLE, RunTest.TOO_MUCH, logLimitKB);
    NoNelInTexts();
  }

  /**
   * With MAX_LOG_CAP_KB at 1024 and any log limit above 87 KB, on every testset with a first test: a
   * judged program that floods both its streams is reported within that limit, and a client that
   * was bound first hears nothing of a run in which nothing fails, not even the RESULT.
   */
  lemma {:induction false} VerdictIsLost(
    dir: TestFiles.TestDir, cfg: Agent.Configs, halt: bool, testsetPath: string, logLimitKB: nat, key: string)
    returns (acts: seq<Action>)
    requires TestFiles.Exists(dir, 1) && HasLimit(cfg, logLimitKB) && logLimitKB >= 88
    ensures Agent.ReportsAreReal(dir, FloodRun(logLimitKB), cfg, (p: TestFiles.Pair, i: nat) => RunTest.Started)
    ensures var script := Agent.AgentEvents(Agent.Spec(halt, testsetPath, Agent.NoCompiler), dir, FloodRun(logLimitKB));
            var scripts := [(key, script)];
            && script == [WorstEvent(INFO, OLE, RunTest.TOO_MUCH, logLimitKB), Agent.ResultEvent(OLE)]
            && UnderWay(Cap(1024), scripts, acts, 0, 0) && Completed(Run(Cap(1024), scripts, acts), scripts, 0, 0)
            && Run(Cap(1024), scripts, acts).clients[0].from == 0
            && Listen(Frames(Run(Cap(1024), scripts, acts).clients[0].written)) == Heard([], false, false)
  {
    FloodRunIsReal(dir, cfg, logLimitKB);
    FloodEvents(dir, halt, testsetPath, logLimitKB);
    FloodDoesNotFit(logLimitKB);
    acts := JudgingCanBeWatched(
      Agent.Spec(halt, testsetPath, Agent.NoCompiler), dir, FloodRun(logLimitKB), Cap(1024), key);
  }

  // ---- submissions without a RESULT ----

  lemma {:induction false} ScriptsOfRun(cap: nat, scripts: Scripts, acts: seq<Action>)
    requires CanRun(cap, scripts, acts)
    ensures SameScripts(Run(cap, scripts, acts), scripts)
    decreases |acts|
  {
    if acts != [] {
      ScriptsOfRun(cap, scripts, acts[..|acts| - 1]);
      ScriptsStay(cap, Run(cap, scripts, acts[..|acts| - 1]), acts[|acts| - 1], scripts);
    }
  }

  lemma {:induction false} NothingHeardIsResult(l: Link, stream: string)
    requires HearsInOrder(l, stream) && forall i | 0 <= i < |l.script| :: l.script[i].kind != RESULT
    ensures !Listen(stream).ended
  {
    EndsOnResult(stream);
    var events := Listen(stream).events;
    var idx :| Follows(l, events, idx);
    if events != [] {
      assert FollowsAt(l, events, idx, |events| - 1);
    }
  }

  /**
   * After a failed read of the execution spec there is no RESULT, so in every reachable state,
   * with any losses, cut lines and late bindings, the client's generator has not ended.
   */
  lemma {:induction false} FailedReadNeverEnds(
    payload: Agent.Payload, dir: TestFiles.TestDir, run: Agent.TestRun,
    cap: nat, scripts: Scripts, acts: seq<Action>, a: nat, c: nat, stream: string)
    requires payload.ReadFails? && OnlyScript(scripts, a) && scripts[a].1 == Agent.AgentEvents(payload, dir, run)
    requires CanRun(cap, scripts, acts)
    requires var s := Run(cap, scripts, acts);
             c < |s.clients| && s.clients[c].key == scripts[a].0 && HasPrefix(Frames(s.clients[c].written), stream)
    ensures !Listen(stream).ended
  {
    ScriptsOfRun(cap, scripts, acts);
    ClientHearsSubsequence(cap, scripts, acts, a, c, stream);
    Agent.ResultOnceAndLast(payload, dir, run);
    NothingHeardIsResult(Run(cap, scripts, acts).links[a], stream);
  }

  // ---- what a heard verdict means ----

  /** A RESULT that a client hears is the agent's own, with its status. */
  lemma {:induction false} HeardResultIsSent(l: Link, stream: string, j: nat)
    requires HearsInOrder(l, stream) && j < |Listen(stream).events| && Listen(stream).events[j].kind == RESULT
    ensures exists e :: e in l.script && e.kind == RESULT && e.status == Listen(stream).events[j].status
  {
    var events := Listen(stream).events;
    var idx :| Follows(l, events, idx);
    assert FollowsAt(l, events, idx, j);
    assert l.script[idx[j]] in l.script;
  }

  /**
   * From the client back to the judge: in every reachable state, with any losses, cut lines and
   * late bindings, a client that hears the RESULT Accepted can rely on it: there is at least
   * one test, and every test was really solved.
   */
  lemma {:induction false} HeardAcceptedIsSound(
    payload: Agent.Payload, dir: TestFiles.TestDir, run: Agent.TestRun,
    cfg: Agent.Configs, setup: (TestFiles.Pair, nat) -> RunTest.Setup,
    cap: nat, scripts: Scripts, acts: seq<Action>, a: nat, c: nat, stream: string, j: nat)
    requires Agent.ReportsAreReal(dir, run, cfg, setup)
    requires OnlyScript(scripts, a) && scripts[a].1 == Agent.AgentEvents(payload, dir, run) && CanRun(cap, scripts, acts)
    requires var s := Run(cap, scripts, acts);
             c < |s.clients| && s.clients[c].key == scripts[a].0 && HasPrefix(Frames(s.clients[c].written), stream)
    requires j < |Listen(stream).events|
    requires Listen(stream).events[j].kind == RESULT && Listen(stream).events[j].status == AC
    ensures TestFiles.TestCount(dir) >= 1
    ensures forall i: nat | 1 <= i <= TestFiles.TestCount(dir) :: Agent.Solved(dir, i, run, cfg)
  {
    ScriptsOfRun(cap, scripts, acts);
    ClientHearsSubsequence(cap, scripts, acts, a, c, stream);
    HeardResultIsSent(Run(cap, scripts, acts).links[a], stream, j);
    var e :| e in Agent.AgentEvents(payload, dir, run) && e.kind == RESULT && e.status == AC;
    Agent.ResultsAreBare(payload, dir, run, e);
    Agent.AcceptedIsSound(payload, dir, run, cfg, setup);
  }

  // ---- a payload that breaks its frame ----

  lemma {:induction false} SizeAtMost(s: string)
    ensures Utf8Size(s) <= 4 * |s|
  {
    if s != "" {
      SizeAtMost(s[1..]);
    }
  }

  lemma {:induction false} QuotedPathSize(testsetPath: string)
    ensures Utf8Size(EventText(Agent.NoTestsEvent(testsetPath))) <= 60 + 6 * (500 + 4 * |testsetPath|)
  {
    var e := Agent.NoTestsEvent(testsetPath);
    assert |e.details| <= 100 + |testsetPath| && |e.kind| == 5 && |e.status| == 14;
    SizeAtMost(e.kind);
    SizeAtMost(e.status);
    SizeAtMost(e.details);
    EventLineSize(e);
  }

  /** The event on a testset path without tests, which is quoted in it. */
  lemma {:induction false} QuotedPathFits(testsetPath: string, maxLogCapKB: int)
    requires |testsetPath| <= 2000
    ensures Fits(EventText(Agent.NoTestsEvent(testsetPath)), Cap(maxLogCapKB))
  {
    QuotedPathSize(testsetPath);
  }

  lemma {:induction false} QuotedPathHasNel(testsetPath: string)
    requires NEL in testsetPath
    ensures PayloadHasNel(PayloadOf(Agent.NoTestsEvent(testsetPath)))
  {
  }

  lemma {:induction false} EventsWithoutTests(dir: TestFiles.TestDir, run: Agent.TestRun, halt: bool, testsetPath: string)
    requires TestFiles.TestCount(dir) == 0
    ensures Agent.AgentEvents(Agent.Spec(halt, testsetPath, Agent.NoCompiler), dir, run) ==
            [Agent.NoTestsEvent(testsetPath), Agent.ResultEvent(IE)]
  {
    assert Agent.Reports(dir, run) == [];
  }

  lemma {:induction false} FirstNelRaises(ps: seq<Payload>)
    requires ps != [] && PayloadHasNel(ps[0])
    ensures HeardOf(ps) == Heard([], true, false)
  {
  }

  /**
   * A raw U+0085 does reach clients: on a testset without tests whose path contains one, every
   * completed faultless run in which the client is bound first makes its generator raise at once.
   */
  lemma {:induction false} NelReachesClient(
    dir: TestFiles.TestDir, run: Agent.TestRun, halt: bool, testsetPath: string, maxLogCapKB: int, key: string)
    returns (acts: seq<Action>)
    requires TestFiles.TestCount(dir) == 0 && NEL in testsetPath && |testsetPath| <= 2000
    ensures var cap := Cap(maxLogCapKB);
            var scripts := [(key, Agent.AgentEvents(Agent.Spec(halt, testsetPath, Agent.NoCompiler), dir, run))];
            && UnderWay(cap, scripts, acts, 0, 0) && Completed(Run(cap, scripts, acts), scripts, 0, 0)
            && Listen(Frames(Run(cap, scripts, acts).clients[0].written)) == Heard([], true, false)
  {
    var cap := Cap(maxLogCapKB);
    var script := [Agent.NoTestsEvent(testsetPath), Agent.ResultEvent(IE)];
    EventsWithoutTests(dir, run, halt, testsetPath);
    QuotedPathFits(testsetPath, maxLogCapKB);
    QuotedPathHasNel(testsetPath);
    BindingComesFirst(cap, key, script);
    var more := EveryRunCompletes(cap, [(key, script)], [Bind(key)], 0, 0);
    acts := [Bind(key)] + more;
    FirstMissesNothing(cap, [(key, script)], acts, key);
    CompletedRunYieldsAll(cap, [(key, script)], acts, 0, 0);
    assert FirstMisfit(script, cap) > 0;
    FirstNelRaises(PayloadsOf(script)[0..FirstMisfit(script, cap)]);
  }
}
