/**
 * What faults do to what a client hears: a line cut short, events lost on the socket or in a
 * failed publish, and a client that is gone.
 */
module PipelineFaults {
  import opened Text
  import opened Verdicts
  import opened Wire
  import opened Sse
  import opened Hearing
  import opened Scanner
  import opened Pipeline
  import Delivery
  import Socket

  predicate PicksAt(l: Link, events: seq<JudgeEvent>, idx: seq<nat>, j: nat)
    requires j < |idx| == |events|
  {
    idx[j] < l.sent <= |l.script| && events[j] == View(PayloadOf(l.script[idx[j]]))
  }

  /** idx picks, in order, the events of the script that were heard, each exactly as projected. */
  ghost predicate Picks(l: Link, events: seq<JudgeEvent>, idx: seq<nat>) {
    && |idx| == |events|
    && (forall i, j | 0 <= i < j < |idx| :: idx[i] < idx[j])
    && (forall j | 0 <= j < |idx| :: PicksAt(l, events, idx, j))
  }

  lemma {:induction false} UntornPicks(l: Link, events: seq<JudgeEvent>)
    requires !l.torn && exists idx :: Follows(l, events, idx)
    ensures exists idx :: Picks(l, events, idx)
  {
    var idx :| Follows(l, events, idx);
    forall j | 0 <= j < |idx|
      ensures PicksAt(l, events, idx, j)
    {
      assert FollowsAt(l, events, idx, j);
    }
    assert Picks(l, events, idx);
  }

  /** Without a torn line, what any client hears in any reachable state are projected script events and nothing else. */
  lemma {:induction false} UntornIsHeardExactly(
    cap: nat, scripts: seq<(string, seq<Event>)>, acts: seq<Action>, a: nat, c: nat, stream: string)
    requires CanRun(cap, scripts, acts)
    requires var s := Run(cap, scripts, acts);
             c < |s.clients| && OnlyAgent(s, a, s.clients[c].key) && HasPrefix(Frames(s.clients[c].written), stream)
    requires !Run(cap, scripts, acts).links[a].torn
    ensures exists idx :: Picks(Run(cap, scripts, acts).links[a], Listen(stream).events, idx)
  {
    ClientHearsSubsequence(cap, scripts, acts, a, c, stream);
    UntornPicks(Run(cap, scripts, acts).links[a], Listen(stream).events);
  }

  // ---- a run in which a blank event is heard ----

  /** The agent's first event is cut after k characters, and what arrived is scanned, published and served. */
  function TornRun(key: string, k: nat): seq<Action> {
    [Bind(key)] + [Emit(0, Torn(k))] + [ScanLine(0, true)] + [Fetch(0)] + [Serve(0, true)]
  }

  ghost predicate Reaches(cap: nat, scripts: seq<(string, seq<Event>)>, acts: seq<Action>, s: State) {
    CanRun(cap, scripts, acts) && Run(cap, scripts, acts) == s
  }

  lemma {:induction false} ReachesNext(cap: nat, scripts: seq<(string, seq<Event>)>, acts: seq<Action>, s: State, x: Action)
    requires Reaches(cap, scripts, acts, s) && Enabled(s, x)
    ensures Reaches(cap, scripts, acts + [x], Apply(cap, s, x))
  {
    Delivery.OneMoreAction(cap, scripts, acts, x);
  }

  /** One agent, one client, and the messages accepted so far. */
  function Pair(key: string, l: Link, d: Client, log: seq<Entry>): State {
    State([l], [d], if log == [] then map[] else map[key := log])
  }

  function Waiting(key: string): Client {
    Client(key, 0, [], None, [], true)
  }

  lemma {:induction false} BindsFirst(cap: nat, key: string, script: seq<Event>)
    ensures Reaches(cap, [(key, script)], [Bind(key)], Pair(key, Socket.Sending(key, script, 0), Waiting(key), []))
  {
    Socket.SendingIsEmitting(key, script, 0);
    assert [] + [Bind(key)] == [Bind(key)];
    ReachesNext(cap, [(key, script)], [], Start([(key, script)]), Bind(key));
    assert [] + [Waiting(key)] == [Waiting(key)];
  }

  /** The link after the first event was torn, with its line taken or not. */
  function TornLink(key: string, script: seq<Event>, k: nat, taken: nat): Link
    requires script != [] && k < |EventText(script[0])|
  {
    Link(key, script, 1, [Line(0, EventText(script[0])[..k])], true, taken, false)
  }

  lemma {:induction false} Tears(cap: nat, key: string, script: seq<Event>, k: nat)
    requires script != [] && 0 < k < |EventText(script[0])|
    ensures Reaches(cap, [(key, script)], [Bind(key)] + [Emit(0, Torn(k))], Pair(key, TornLink(key, script, k, 0), Waiting(key), []))
  {
    BindsFirst(cap, key, script);
    var s := Pair(key, Socket.Sending(key, script, 0), Waiting(key), []);
    ReachesNext(cap, [(key, script)], [Bind(key)], s, Emit(0, Torn(k)));
    assert EmitOn(s.links[0], Torn(k)) == TornLink(key, script, k, 0);
  }

  lemma {:induction false} ScansBlank(cap: nat, key: string, script: seq<Event>, k: nat, s: State, acts: seq<Action>)
    requires script != [] && 0 < k < |EventText(script[0])| && Fits(EventText(script[0])[..k], cap)
    requires s == Pair(key, TornLink(key, script, k, 0), Waiting(key), []) && Reaches(cap, [(key, script)], acts, s)
    ensures var blank := PayloadText(BLANK);
            Reaches(cap, [(key, script)], acts + [ScanLine(0, true)],
                    Pair(key, TornLink(key, script, k, 1), Waiting(key).(queue := [blank]), [Entry(0, 0, blank)]))
  {
    ProjectCut(script[0], k);
    ReachesNext(cap, [(key, script)], acts, s, ScanLine(0, true));
    var t, e := Apply(cap, s, ScanLine(0, true)), Entry(0, 0, PayloadText(BLANK));
    assert t.clients == [Deliver(s.clients[0], key, e.body)];
    assert [] + [e] == [e] && [] + [e.body] == [e.body];
  }

  lemma {:induction false} ServesOne(cap: nat, key: string, scripts: seq<(string, seq<Event>)>, l: Link, b: string, log: seq<Entry>, acts: seq<Action>)
    requires Reaches(cap, scripts, acts, Pair(key, l, Waiting(key).(queue := [b]), log))
    ensures Reaches(cap, scripts, acts + [Fetch(0)] + [Serve(0, true)], Pair(key, l, Waiting(key).(written := [b]), log))
  {
    var s := Pair(key, l, Waiting(key).(queue := [b]), log);
    ReachesNext(cap, scripts, acts, s, Fetch(0));
    var t := Pair(key, l, Waiting(key).(hand := Some(b)), log);
    assert [b][1..] == [];
    assert Apply(cap, s, Fetch(0)) == t;
    ReachesNext(cap, scripts, acts + [Fetch(0)], t, Serve(0, true));
    assert [] + [b] == [b];
  }

  lemma {:induction false} BlankIsHeard()
    ensures Listen(Frames([PayloadText(BLANK)])) == Heard([View(BLANK)], false, false)
  {
    var ps := [BLANK];
    assert Texts(ps) == [PayloadText(BLANK)];
    StreamIsHeard(ps);
    assert UpToResult(ps) == 1 && UpToNel(ps) == 1;
    assert Views(ps)[..1] == [View(BLANK)];
  }

  /**
   * The blank event is no artefact of the invariant: for every script and every place to cut its
   * first line, there is a run in which the client hears exactly one blank event.
   */
  lemma {:induction false} TornLineIsHeardBlank(cap: nat, key: string, script: seq<Event>, k: nat)
    requires script != [] && 0 < k < |EventText(script[0])| && Fits(EventText(script[0])[..k], cap)
    ensures CanRun(cap, [(key, script)], TornRun(key, k))
    ensures var s := Run(cap, [(key, script)], TornRun(key, k));
            && s.links != [] && s.links[0].torn && s.clients != []
            && Listen(Frames(s.clients[0].written)) == Heard([View(BLANK)], false, false)
  {
    Tears(cap, key, script, k);
    var acts := [Bind(key)] + [Emit(0, Torn(k))];
    ScansBlank(cap, key, script, k, Pair(key, TornLink(key, script, k, 0), Waiting(key), []), acts);
    var blank := PayloadText(BLANK);
    ServesOne(cap, key, [(key, script)], TornLink(key, script, k, 1), blank, [Entry(0, 0, blank)], acts + [ScanLine(0, true)]);
    BlankIsHeard();
  }

  // ---- every selection of events can be what is heard ----

  /** What becomes of one event of the script. */
  datatype Fate = Arrives | Unsent | Unpublished

  type Fates = nat -> Fate

  /** The payloads of those among the first n events that arrive. */
  function Kept(script: seq<Event>, fates: Fates, n: nat): seq<Payload>
    requires n <= |script|
  {
    if n == 0 then []
    else Kept(script, fates, n - 1) + if fates(n - 1).Arrives? then [PayloadOf(script[n - 1])] else []
  }

  predicate AllScanned(l: Link, key: string, script: seq<Event>, n: nat) {
    l == Link(key, script, n, l.wire, false, |l.wire|, false)
  }

  /** The first n events have met their fates, and everything accepted was served. */
  ghost predicate Handled(s: State, key: string, script: seq<Event>, fates: Fates, n: nat)
    requires n <= |script|
  {
    && |s.links| == 1 && AllScanned(s.links[0], key, script, n)
    && s.clients == [Client(key, 0, [], None, Texts(Kept(script, fates, n)), true)]
  }

  lemma {:induction false} EmitsOne(cap: nat, s: State, key: string, script: seq<Event>, fates: Fates, n: nat, how: Outcome)
    requires n < |script| && Handled(s, key, script, fates, n) && (how.Whole? || how.Lost?)
    ensures Enabled(s, Emit(0, how))
    ensures var t := Apply(cap, s, Emit(0, how));
            && t.clients == s.clients && |t.links| == 1
            && t.links[0] == Link(key, script, n + 1,
                                  s.links[0].wire + if how.Whole? then [Line(n, EventText(script[n]))] else [],
                                  false, |s.links[0].wire|, false)
  {
    assert s.links[0].wire + [] == s.links[0].wire;
  }

  lemma {:induction false} ScansOne(cap: nat, s: State, key: string, script: seq<Event>, n: nat, wire: seq<Line>, ok: bool)
    requires n < |script| && Fits(EventText(script[n]), cap) && |s.links| == |s.clients| == 1
    requires s.links[0] == Link(key, script, n + 1, wire + [Line(n, EventText(script[n]))], false, |wire|, false)
    requires s.clients[0].key == key
    ensures Enabled(s, ScanLine(0, ok))
    ensures var t := Apply(cap, s, ScanLine(0, ok));
            && |t.links| == 1 && AllScanned(t.links[0], key, script, n + 1)
            && t.clients == if ok then [s.clients[0].(queue := s.clients[0].queue + [PayloadText(PayloadOf(script[n]))])] else s.clients
  {
    RouteEvent(script[n]);
    assert s.links[0].wire[|wire|] == Line(n, EventText(script[n]));
    assert s.clients == [s.clients[0]];
  }

  lemma {:induction false} TextsGrow(ps: seq<Payload>, p: Payload)
    ensures Texts(ps + [p]) == Texts(ps) + [PayloadText(p)]
  {
  }

  /** One waiting message is fetched and written. */
  lemma {:induction false} ServesWaiting(
    cap: nat, scripts: seq<(string, seq<Event>)>, acts: seq<Action>, s: State, key: string, b: string, written: seq<string>)
    requires Reaches(cap, scripts, acts, s) && s.clients == [Client(key, 0, [b], None, written, true)]
    ensures Reaches(cap, scripts, acts + [Fetch(0)] + [Serve(0, true)], s.(clients := [Client(key, 0, [], None, written + [b], true)]))
  {
    ReachesNext(cap, scripts, acts, s, Fetch(0));
    var t := s.(clients := [Client(key, 0, [], Some(b), written, true)]);
    assert [b][1..] == [];
    assert Apply(cap, s, Fetch(0)) == t;
    ReachesNext(cap, scripts, acts + [Fetch(0)], t, Serve(0, true));
    assert Apply(cap, t, Serve(0, true)) == s.(clients := [Client(key, 0, [], None, written + [b], true)]);
  }

  /** After these actions the first n events of the script have met their fates. */
  ghost predicate HandlesUpTo(
    cap: nat, scripts: seq<(string, seq<Event>)>, acts: seq<Action>, key: string, script: seq<Event>, fates: Fates, n: nat)
    requires n <= |script|
  {
    CanRun(cap, scripts, acts) && Handled(Run(cap, scripts, acts), key, script, fates, n)
  }

  lemma {:induction false} NothingKept(script: seq<Event>, fates: Fates, n: nat)
    requires n < |script| && !fates(n).Arrives?
    ensures Kept(script, fates, n + 1) == Kept(script, fates, n)
  {
  }

  lemma {:induction false} GoesUnsent(
    cap: nat, scripts: seq<(string, seq<Event>)>, acts: seq<Action>, key: string, script: seq<Event>, fates: Fates, n: nat)
    requires n < |script| && fates(n).Unsent? && HandlesUpTo(cap, scripts, acts, key, script, fates, n)
    ensures HandlesUpTo(cap, scripts, acts + [Emit(0, Lost)], key, script, fates, n + 1)
  {
    var s := Run(cap, scripts, acts);
    EmitsOne(cap, s, key, script, fates, n, Lost);
    NothingKept(script, fates, n);
    ReachesNext(cap, scripts, acts, s, Emit(0, Lost));
    assert s.links[0].wire + [] == s.links[0].wire;
  }

  lemma {:induction false} GetsScanned(
    cap: nat, scripts: seq<(string, seq<Event>)>, acts: seq<Action>, key: string, script: seq<Event>, fates: Fates, n: nat, ok: bool)
    returns (t: State)
    requires n < |script| && Fits(EventText(script[n]), cap) && HandlesUpTo(cap, scripts, acts, key, script, fates, n)
    ensures Reaches(cap, scripts, acts + [Emit(0, Whole)] + [ScanLine(0, ok)], t)
    ensures |t.links| == 1 && AllScanned(t.links[0], key, script, n + 1)
    ensures t.clients == [Client(key, 0, if ok then [PayloadText(PayloadOf(script[n]))] else [], None,
                                 Texts(Kept(script, fates, n)), true)]
  {
    var s := Run(cap, scripts, acts);
    EmitsOne(cap, s, key, script, fates, n, Whole);
    ReachesNext(cap, scripts, acts, s, Emit(0, Whole));
    t := Apply(cap, s, Emit(0, Whole));
    ScansOne(cap, t, key, script, n, s.links[0].wire, ok);
    ReachesNext(cap, scripts, acts + [Emit(0, Whole)], t, ScanLine(0, ok));
    var b := PayloadText(PayloadOf(script[n]));
    assert [] + [b] == [b];
    t := Apply(cap, t, ScanLine(0, ok));
  }

  lemma {:induction false} GoesUnpublished(
    cap: nat, scripts: seq<(string, seq<Event>)>, acts: seq<Action>, key: string, script: seq<Event>, fates: Fates, n: nat)
    requires n < |script| && Fits(EventText(script[n]), cap) && fates(n).Unpublished?
    requires HandlesUpTo(cap, scripts, acts, key, script, fates, n)
    ensures HandlesUpTo(cap, scripts, acts + [Emit(0, Whole)] + [ScanLine(0, false)], key, script, fates, n + 1)
  {
    var t := GetsScanned(cap, scripts, acts, key, script, fates, n, false);
    NothingKept(script, fates, n);
  }

  lemma {:induction false} GetsServed(
    cap: nat, scripts: seq<(string, seq<Event>)>, acts: seq<Action>, key: string, script: seq<Event>, fates: Fates, n: nat)
    requires n < |script| && Fits(EventText(script[n]), cap) && fates(n).Arrives?
    requires HandlesUpTo(cap, scripts, acts, key, script, fates, n)
    ensures HandlesUpTo(cap, scripts, acts + [Emit(0, Whole)] + [ScanLine(0, true)] + [Fetch(0)] + [Serve(0, true)],
                        key, script, fates, n + 1)
  {
    var r := GetsScanned(cap, scripts, acts, key, script, fates, n, true);
    var ps, b := Kept(script, fates, n), PayloadText(PayloadOf(script[n]));
    ServesWaiting(cap, scripts, acts + [Emit(0, Whole)] + [ScanLine(0, true)], r, key, b, Texts(ps));
    TextsGrow(ps, PayloadOf(script[n]));
  }

  lemma {:induction false} MeetsFate(
    cap: nat, scripts: seq<(string, seq<Event>)>, acts: seq<Action>, key: string, script: seq<Event>, fates: Fates, n: nat)
    returns (all: seq<Action>)
    requires n < |script| && Fits(EventText(script[n]), cap) && HandlesUpTo(cap, scripts, acts, key, script, fates, n)
    ensures HandlesUpTo(cap, scripts, all, key, script, fates, n + 1)
  {
    match fates(n)
    case Unsent =>
      GoesUnsent(cap, scripts, acts, key, script, fates, n);
      all := acts + [Emit(0, Lost)];
    case Unpublished =>
      GoesUnpublished(cap, scripts, acts, key, script, fates, n);
      all := acts + [Emit(0, Whole)] + [ScanLine(0, false)];
    case Arrives =>
      GetsServed(cap, scripts, acts, key, script, fates, n);
      all := acts + [Emit(0, Whole)] + [ScanLine(0, true)] + [Fetch(0)] + [Serve(0, true)];
  }

  lemma {:induction false} NoneMet(cap: nat, key: string, script: seq<Event>, fates: Fates)
    ensures HandlesUpTo(cap, [(key, script)], [Bind(key)], key, script, fates, 0)
  {
    BindsFirst(cap, key, script);
    assert Texts(Kept(script, fates, 0)) == [];
  }

  lemma {:induction false} RestMeetFates(
    cap: nat, scripts: seq<(string, seq<Event>)>, acts: seq<Action>, key: string, script: seq<Event>, fates: Fates, n: nat)
    returns (all: seq<Action>)
    requires n <= |script| && Delivery.AllFit(script, cap) && HandlesUpTo(cap, scripts, acts, key, script, fates, n)
    ensures HandlesUpTo(cap, scripts, all, key, script, fates, |script|)
    decreases |script| - n
  {
    if n == |script| {
      all := acts;
    } else {
      var next := MeetsFate(cap, scripts, acts, key, script, fates, n);
      all := RestMeetFates(cap, scripts, next, key, script, fates, n + 1);
    }
  }

  /**
   * The subsequence that a client hears can be any: whichever events are lost on the socket and
   * whichever publishes fail, there is a run in which a client hears exactly what there is to
   * hear of the others.
   */
  lemma {:induction false} AnySelectionCanBeHeard(cap: nat, key: string, script: seq<Event>, fates: Fates) returns (acts: seq<Action>)
    requires Delivery.AllFit(script, cap)
    ensures CanRun(cap, [(key, script)], acts)
    ensures var s := Run(cap, [(key, script)], acts);
            |s.clients| == 1 && Listen(Frames(s.clients[0].written)) == HeardOf(Kept(script, fates, |script|))
  {
    NoneMet(cap, key, script, fates);
    acts := RestMeetFates(cap, [(key, script)], [Bind(key)], key, script, fates, 0);
    StreamIsHeard(Kept(script, fates, |script|));
  }

  // ---- a client that is gone ----

  lemma {:induction false} StaysGone(cap: nat, s: State, x: Action, c: nat)
    requires Enabled(s, x) && c < |s.clients| && !s.clients[c].serving
    ensures var t := Apply(cap, s, x);
            c < |t.clients| && !t.clients[c].serving && t.clients[c].written == s.clients[c].written
  {
  }

  lemma {:induction false} Goes(cap: nat, scripts: seq<(string, seq<Event>)>, acts: seq<Action>, c: nat, x: Action)
    requires x == Leave(c) || x == Serve(c, false)
    requires CanRun(cap, scripts, acts) && Enabled(Run(cap, scripts, acts), x)
    ensures CanRun(cap, scripts, acts + [x])
    ensures var s, t := Run(cap, scripts, acts), Run(cap, scripts, acts + [x]);
            && c < |s.clients| && c < |t.clients| && !t.clients[c].serving
            && t.clients[c].written == s.clients[c].written + if x.Serve? then [s.clients[c].hand.value] else []
  {
    ReachesNext(cap, scripts, acts, Run(cap, scripts, acts), x);
  }

  /** After these actions the client is not served any more, and this is what was written to it. */
  ghost predicate IsGone(cap: nat, scripts: seq<(string, seq<Event>)>, acts: seq<Action>, c: nat, written: seq<string>) {
    && CanRun(cap, scripts, acts) && c < |Run(cap, scripts, acts).clients|
    && !Run(cap, scripts, acts).clients[c].serving && Run(cap, scripts, acts).clients[c].written == written
  }

  lemma {:induction false} GoneOneMore(
    cap: nat, scripts: seq<(string, seq<Event>)>, acts: seq<Action>, c: nat, written: seq<string>, all: seq<Action>)
    requires CanRun(cap, scripts, all) && all != [] && all[..|all| - 1] == acts && IsGone(cap, scripts, acts, c, written)
    ensures IsGone(cap, scripts, all, c, written)
  {
    StaysGone(cap, Run(cap, scripts, acts), all[|all| - 1], c);
  }

  lemma {:induction false} GoneStays(
    cap: nat, scripts: seq<(string, seq<Event>)>, acts: seq<Action>, c: nat, written: seq<string>, more: seq<Action>)
    requires IsGone(cap, scripts, acts, c, written) && CanRun(cap, scripts, acts + more)
    ensures IsGone(cap, scripts, acts + more, c, written)
    decreases |more|
  {
    if more == [] {
      assert acts + more == acts;
    } else {
      var all, init := acts + more, more[..|more| - 1];
      assert all[..|all| - 1] == acts + init;
      GoneStays(cap, scripts, acts, c, written, init);
      GoneOneMore(cap, scripts, acts + init, c, written, all);
    }
  }

  /** After a client left, or a write to it failed, nothing more is written to it in any continuation. */
  lemma {:induction false} GoneIsFinal(cap: nat, scripts: seq<(string, seq<Event>)>, acts: seq<Action>, c: nat, x: Action, more: seq<Action>)
    requires x == Leave(c) || x == Serve(c, false)
    requires CanRun(cap, scripts, acts) && Enabled(Run(cap, scripts, acts), x) && CanRun(cap, scripts, acts + [x] + more)
    ensures var d := Run(cap, scripts, acts).clients[c];
            IsGone(cap, scripts, acts + [x] + more, c, d.written + if x.Serve? then [d.hand.value] else [])
  {
    Goes(cap, scripts, acts, c, x);
    var d := Run(cap, scripts, acts).clients[c];
    GoneStays(cap, scripts, acts + [x], c, d.written + if x.Serve? then [d.hand.value] else [], more);
  }

  /** A client that is served may leave at any time. */
  lemma {:induction false} MayLeave(cap: nat, scripts: seq<(string, seq<Event>)>, acts: seq<Action>, c: nat)
    requires CanRun(cap, scripts, acts) && c < |Run(cap, scripts, acts).clients|
    ensures CanRun(cap, scripts, acts + [Leave(c)])
    ensures Run(cap, scripts, acts).clients[c].serving && Run(cap, scripts, acts).clients[c].hand.Some? ==>
              CanRun(cap, scripts, acts + [Serve(c, false)])
  {
    ReachesNext(cap, scripts, acts, Run(cap, scripts, acts), Leave(c));
    var s := Run(cap, scripts, acts);
    if s.clients[c].serving && s.clients[c].hand.Some? {
      ReachesNext(cap, scripts, acts, s, Serve(c, false));
    }
  }
}
