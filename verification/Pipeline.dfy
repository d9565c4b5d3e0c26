/**
 * The event pipeline as a step relation: agent socket, runner scanner, direct exchange, one queue
 * per client, the dispatcher's SSE handler. Any number of agents and clients run side by side;
 * writes, publishes and frame writes may fail at any time, an agent may be cut off in the middle
 * of a line, a client may bind late or leave. The broker keeps order per queue and delivers a
 * message to every queue bound with exactly its routing key.
 */
module Pipeline {
  import opened Text
  import opened Verdicts
  import opened Wire
  import opened Sse
  import opened Hearing
  import opened Scanner

  /** A line that reached the socket, and the event of the script it was encoded from. */
  datatype Line = Line(origin: nat, text: string)

  /** One agent's connection: what it will emit, how far it got, and how far the scanner got. */
  datatype Link = Link(key: string, script: seq<Event>, sent: nat, wire: seq<Line>, torn: bool, taken: nat, stopped: bool)

  /** A message the exchange accepted: its body and the line it was made from. */
  datatype Entry = Entry(link: nat, line: nat, body: string)

  /**
   * One SSE request: its queue (bound when `from` messages had been accepted for its key), the
   * message in the hand of the forwarding goroutine, and the bodies whose frame the handler began to write.
   */
  datatype Client = Client(key: string, from: nat, queue: seq<string>, hand: Option<string>, written: seq<string>, serving: bool)

  datatype State = State(links: seq<Link>, clients: seq<Client>, log: map<string, seq<Entry>>)

  datatype Outcome = Whole | Lost | Torn(k: nat)

  datatype Action =
    | Emit(a: nat, how: Outcome)
    | ScanLine(a: nat, accepted: bool)
    | Bind(key: string)
    | Fetch(c: nat)
    | Serve(c: nat, ok: bool)
    | Leave(c: nat)

  function LogOf(s: State, key: string): seq<Entry> {
    if key in s.log then s.log[key] else []
  }

  predicate Enabled(s: State, x: Action) {
    match x
    case Emit(a, how) =>
      && a < |s.links| && s.links[a].sent < |s.links[a].script|
      && (!how.Lost? ==> !s.links[a].torn && !s.links[a].stopped)
      && (how.Torn? ==> 0 < how.k < |EventText(s.links[a].script[s.links[a].sent])|)
    case ScanLine(a, _) => a < |s.links| && s.links[a].taken < |s.links[a].wire| && !s.links[a].stopped
    case Bind(_) => true
    case Fetch(c) => c < |s.clients| && s.clients[c].hand.None? && s.clients[c].queue != []
    case Serve(c, _) => c < |s.clients| && s.clients[c].hand.Some? && s.clients[c].serving
    case Leave(c) => c < |s.clients|
  }

  /** The exchange: the message goes to every queue whose binding key equals its routing key. */
  function Deliver(c: Client, key: string, body: string): Client {
    if c.key == key then c.(queue := c.queue + [body]) else c
  }

  function Publish(s: State, key: string, e: Entry): State {
    s.(log := s.log[key := LogOf(s, key) + [e]],
       clients := seq(|s.clients|, i requires 0 <= i < |s.clients| => Deliver(s.clients[i], key, e.body)))
  }

  function EmitOn(l: Link, how: Outcome): Link
    requires l.sent < |l.script|
    requires how.Torn? ==> how.k < |EventText(l.script[l.sent])|
  {
    var text := EventText(l.script[l.sent]);
    match how
    case Lost => l.(sent := l.sent + 1)
    case Whole => l.(sent := l.sent + 1, wire := l.wire + [Line(l.sent, text)])
    case Torn(k) => l.(sent := l.sent + 1, wire := l.wire + [Line(l.sent, text[..k])], torn := true)
  }

  function Apply(cap: nat, s: State, x: Action): State
    requires Enabled(s, x)
  {
    match x
    case Emit(a, how) => s.(links := s.links[a := EmitOn(s.links[a], how)])
    case ScanLine(a, accepted) =>
      var l := s.links[a];
      var text := l.wire[l.taken].text;
      if !Fits(text, cap) then s.(links := s.links[a := l.(stopped := true)])
      else
        var t := s.(links := s.links[a := l.(taken := l.taken + 1)]);
        if accepted then Publish(t, l.key, Entry(a, l.taken, Route(text))) else t
    case Bind(key) => s.(clients := s.clients + [Client(key, |LogOf(s, key)|, [], None, [], true)])
    case Fetch(c) =>
      var q := s.clients[c].queue;
      s.(clients := s.clients[c := s.clients[c].(hand := Some(q[0]), queue := q[1..])])
    case Serve(c, ok) =>
      var d := s.clients[c];
      s.(clients := s.clients[c := d.(hand := None, written := d.written + [d.hand.value], serving := ok)])
    case Leave(c) => s.(clients := s.clients[c := s.clients[c].(serving := false)])
  }

  // ---- runs ----

  /** Agents about to start, with their submission's key and the events they will emit. */
  function Start(scripts: seq<(string, seq<Event>)>): State {
    State(seq(|scripts|, i requires 0 <= i < |scripts| => Link(scripts[i].0, scripts[i].1, 0, [], false, 0, false)), [], map[])
  }

  ghost predicate CanRun(cap: nat, scripts: seq<(string, seq<Event>)>, acts: seq<Action>)
    decreases |acts|, 0
  {
    acts == [] ||
    (CanRun(cap, scripts, acts[..|acts| - 1]) && Enabled(Run(cap, scripts, acts[..|acts| - 1]), acts[|acts| - 1]))
  }

  ghost function Run(cap: nat, scripts: seq<(string, seq<Event>)>, acts: seq<Action>): State
    requires CanRun(cap, scripts, acts)
    decreases |acts|, 1
  {
    if acts == [] then Start(scripts) else Apply(cap, Run(cap, scripts, acts[..|acts| - 1]), acts[|acts| - 1])
  }

  // ---- the invariant ----

  predicate LineOk(l: Link, i: nat)
    requires i < |l.wire|
  {
    && l.wire[i].origin < l.sent <= |l.script|
    && var text := EventText(l.script[l.wire[i].origin]);
       l.wire[i].text == text ||
       (l.torn && i == |l.wire| - 1 && |l.wire[i].text| < |text| && l.wire[i].text == text[..|l.wire[i].text|])
  }

  /** The lines on the wire are encodings of the script in order; only the last may be cut. */
  ghost predicate LinkOk(l: Link) {
    && l.sent <= |l.script|
    && l.taken <= |l.wire|
    && (forall i | 0 <= i < |l.wire| :: LineOk(l, i))
    && (forall i, j | 0 <= i < j < |l.wire| :: l.wire[i].origin < l.wire[j].origin)
  }

  predicate EntryOk(links: seq<Link>, key: string, e: Entry) {
    && e.link < |links| && links[e.link].key == key
    && e.line < links[e.link].taken <= |links[e.link].wire|
    && e.body == Route(links[e.link].wire[e.line].text)
  }

  /** Accepted messages come from scanned lines, each line at most once and in order. */
  ghost predicate LogOk(links: seq<Link>, key: string, log: seq<Entry>) {
    && (forall i | 0 <= i < |log| :: EntryOk(links, key, log[i]))
    && (forall i, j | 0 <= i < j < |log| && log[i].link == log[j].link :: log[i].line < log[j].line)
  }

  function Bodies(log: seq<Entry>): seq<string> {
    seq(|log|, i requires 0 <= i < |log| => log[i].body)
  }

  function InHand(c: Client): seq<string> {
    match c.hand case None => [] case Some(b) => [b]
  }

  /** The bodies written, held and queued, in that order. */
  function Backlog(c: Client): seq<string> {
    c.written + InHand(c) + c.queue
  }

  /** Written, held and queued bodies are together everything accepted for the key since the binding. */
  predicate ClientOk(c: Client, log: seq<Entry>) {
    c.from <= |log| && Backlog(c) == Bodies(log)[c.from..]
  }

  ghost predicate Inv(s: State) {
    && (forall a | 0 <= a < |s.links| :: LinkOk(s.links[a]))
    && (forall key :: LogOk(s.links, key, LogOf(s, key)))
    && (forall c | 0 <= c < |s.clients| :: ClientOk(s.clients[c], LogOf(s, s.clients[c].key)))
  }

  lemma {:induction false} EmitKeepsLink(l: Link, how: Outcome)
    requires LinkOk(l) && l.sent < |l.script| && (!how.Lost? ==> !l.torn)
    requires how.Torn? ==> 0 < how.k < |EventText(l.script[l.sent])|
    ensures LinkOk(EmitOn(l, how))
  {
    var m := EmitOn(l, how);
    forall i | 0 <= i < |m.wire|
      ensures LineOk(m, i)
    {
      if i < |l.wire| {
        assert LineOk(l, i) && m.wire[i] == l.wire[i];
      }
    }
    forall i, j | 0 <= i < j < |m.wire|
      ensures m.wire[i].origin < m.wire[j].origin
    {
      assert LineOk(l, i) && m.wire[i] == l.wire[i];
      if j < |l.wire| {
        assert m.wire[j] == l.wire[j];
      }
    }
  }

  /** Changing one link without taking back scanned lines keeps the log in order. */
  lemma {:induction false} LogKept(links: seq<Link>, a: nat, m: Link, key: string, log: seq<Entry>)
    requires a < |links| && LogOk(links, key, log)
    requires m.key == links[a].key && links[a].taken <= m.taken <= |m.wire|
    requires |links[a].wire| <= |m.wire| && m.wire[..|links[a].wire|] == links[a].wire
    ensures LogOk(links[a := m], key, log)
  {
    forall i | 0 <= i < |log|
      ensures EntryOk(links[a := m], key, log[i])
    {
      assert EntryOk(links, key, log[i]);
      if log[i].link == a {
        assert m.wire[log[i].line] == m.wire[..|links[a].wire|][log[i].line];
      }
    }
  }

  lemma {:induction false} EmitKeeps(cap: nat, s: State, x: Action)
    requires x.Emit? && Inv(s) && Enabled(s, x)
    ensures Inv(Apply(cap, s, x))
  {
    var t := Apply(cap, s, x);
    var m := EmitOn(s.links[x.a], x.how);
    EmitKeepsLink(s.links[x.a], x.how);
    assert m.wire[..|s.links[x.a].wire|] == s.links[x.a].wire;
    forall key
      ensures LogOk(t.links, key, LogOf(t, key))
    {
      LogKept(s.links, x.a, m, key, LogOf(s, key));
    }
  }

  lemma {:induction false} TakeKeepsLink(l: Link, m: Link)
    requires LinkOk(l) && l.taken < |l.wire|
    requires m == l.(taken := l.taken + 1) || m == l.(stopped := true)
    ensures LinkOk(m)
  {
    forall i | 0 <= i < |m.wire|
      ensures LineOk(m, i)
    {
      assert LineOk(l, i);
    }
  }

  lemma {:induction false} TakeKeeps(s: State, a: nat, m: Link)
    requires Inv(s) && a < |s.links| && s.links[a].taken < |s.links[a].wire|
    requires m == s.links[a].(taken := s.links[a].taken + 1) || m == s.links[a].(stopped := true)
    ensures Inv(s.(links := s.links[a := m]))
  {
    var t := s.(links := s.links[a := m]);
    assert m.wire[..|m.wire|] == m.wire;
    TakeKeepsLink(s.links[a], m);
    forall key
      ensures LogOk(t.links, key, LogOf(t, key))
    {
      LogKept(s.links, a, m, key, LogOf(s, key));
    }
  }

  lemma {:induction false} LogGrows(links: seq<Link>, key: string, log: seq<Entry>, e: Entry)
    requires LogOk(links, key, log) && EntryOk(links, key, e)
    requires forall i | 0 <= i < |log| && log[i].link == e.link :: log[i].line < e.line
    ensures LogOk(links, key, log + [e])
  {
    var all := log + [e];
    forall i | 0 <= i < |all|
      ensures EntryOk(links, key, all[i])
    {
      assert all[i] == if i < |log| then log[i] else e;
    }
    forall i, j | 0 <= i < j < |all| && all[i].link == all[j].link
      ensures all[i].line < all[j].line
    {
      assert all[i] == log[i];
      assert all[j] == if j < |log| then log[j] else e;
    }
  }

  lemma {:induction false} DeliverKeeps(c: Client, log: seq<Entry>, key: string, e: Entry)
    requires ClientOk(c, log)
    ensures ClientOk(Deliver(c, key, e.body), if c.key == key then log + [e] else log)
  {
    var d := Deliver(c, key, e.body);
    if c.key == key {
      assert Bodies(log + [e]) == Bodies(log) + [e.body];
      assert Backlog(d) == Backlog(c) + [e.body];
    }
  }

  lemma {:induction false} PublishKeeps(s: State, key: string, e: Entry)
    requires Inv(s) && EntryOk(s.links, key, e)
    requires forall i | 0 <= i < |LogOf(s, key)| && LogOf(s, key)[i].link == e.link :: LogOf(s, key)[i].line < e.line
    ensures Inv(Publish(s, key, e))
  {
    var t := Publish(s, key, e);
    LogGrows(s.links, key, LogOf(s, key), e);
    assert forall k :: LogOf(t, k) == if k == key then LogOf(s, key) + [e] else LogOf(s, k);
    forall c | 0 <= c < |t.clients|
      ensures ClientOk(t.clients[c], LogOf(t, t.clients[c].key))
    {
      DeliverKeeps(s.clients[c], LogOf(s, s.clients[c].key), key, e);
    }
  }

  lemma {:induction false} ScanKeeps(cap: nat, s: State, x: Action)
    requires x.ScanLine? && Inv(s) && Enabled(s, x)
    ensures Inv(Apply(cap, s, x))
  {
    var l := s.links[x.a];
    if !Fits(l.wire[l.taken].text, cap) {
      TakeKeeps(s, x.a, l.(stopped := true));
    } else {
      var m := l.(taken := l.taken + 1);
      var t := s.(links := s.links[x.a := m]);
      TakeKeeps(s, x.a, m);
      if x.accepted {
        assert LogOf(t, l.key) == LogOf(s, l.key);
        forall i | 0 <= i < |LogOf(s, l.key)| && LogOf(s, l.key)[i].link == x.a
          ensures LogOf(s, l.key)[i].line < l.taken
        {
          assert LogOk(s.links, l.key, LogOf(s, l.key));
          assert EntryOk(s.links, l.key, LogOf(s, l.key)[i]);
        }
        PublishKeeps(t, l.key, Entry(x.a, l.taken, Route(l.wire[l.taken].text)));
      }
    }
  }

  /** A client may move messages along, as long as none is lost, added or reordered. */
  lemma {:induction false} ClientKept(s: State, c: nat, e: Client)
    requires Inv(s) && c < |s.clients|
    requires e.key == s.clients[c].key && e.from == s.clients[c].from
    requires Backlog(e) == Backlog(s.clients[c])
    ensures Inv(s.(clients := s.clients[c := e]))
  {
    var t := s.(clients := s.clients[c := e]);
    assert forall key :: LogOf(t, key) == LogOf(s, key);
    assert ClientOk(e, LogOf(s, e.key)) by {
      assert ClientOk(s.clients[c], LogOf(s, s.clients[c].key));
    }
  }

  lemma {:induction false} BindKeeps(s: State, key: string)
    requires Inv(s)
    ensures Inv(s.(clients := s.clients + [Client(key, |LogOf(s, key)|, [], None, [], true)]))
  {
    var d := Client(key, |LogOf(s, key)|, [], None, [], true);
    var t := s.(clients := s.clients + [d]);
    assert forall k :: LogOf(t, k) == LogOf(s, k);
    assert Bodies(LogOf(s, key))[|LogOf(s, key)|..] == [];
    forall c | 0 <= c < |t.clients|
      ensures ClientOk(t.clients[c], LogOf(t, t.clients[c].key))
    {
      if c < |s.clients| {
        assert ClientOk(s.clients[c], LogOf(s, s.clients[c].key));
      }
    }
    assert t.links == s.links;
  }

  lemma {:induction false} FetchIsQuiet(d: Client)
    requires d.hand.None? && d.queue != []
    ensures Backlog(d.(hand := Some(d.queue[0]), queue := d.queue[1..])) == Backlog(d)
  {
    assert d.queue == [d.queue[0]] + d.queue[1..];
  }

  lemma {:induction false} ServeIsQuiet(d: Client, ok: bool)
    requires d.hand.Some?
    ensures Backlog(d.(hand := None, written := d.written + [d.hand.value], serving := ok)) == Backlog(d)
  {
  }

  lemma {:induction false} FetchKeeps(cap: nat, s: State, x: Action)
    requires x.Fetch? && Inv(s) && Enabled(s, x)
    ensures Inv(Apply(cap, s, x))
  {
    var d := s.clients[x.c];
    FetchIsQuiet(d);
    ClientKept(s, x.c, d.(hand := Some(d.queue[0]), queue := d.queue[1..]));
  }

  lemma {:induction false} ServeKeeps(cap: nat, s: State, x: Action)
    requires x.Serve? && Inv(s) && Enabled(s, x)
    ensures Inv(Apply(cap, s, x))
  {
    var d := s.clients[x.c];
    ServeIsQuiet(d, x.ok);
    ClientKept(s, x.c, d.(hand := None, written := d.written + [d.hand.value], serving := x.ok));
  }

  lemma {:induction false} LeaveKeeps(cap: nat, s: State, x: Action)
    requires x.Leave? && Inv(s) && Enabled(s, x)
    ensures Inv(Apply(cap, s, x))
  {
    ClientKept(s, x.c, s.clients[x.c].(serving := false));
  }

  lemma {:induction false} RunKeepsInv(cap: nat, scripts: seq<(string, seq<Event>)>, acts: seq<Action>)
    requires CanRun(cap, scripts, acts)
    ensures Inv(Run(cap, scripts, acts))
    decreases |acts|
  {
    if acts != [] {
      var init, x := acts[..|acts| - 1], acts[|acts| - 1];
      RunKeepsInv(cap, scripts, init);
      var s := Run(cap, scripts, init);
      if x.Emit? {
        EmitKeeps(cap, s, x);
      } else if x.ScanLine? {
        ScanKeeps(cap, s, x);
      } else if x.Bind? {
        BindKeeps(s, x.key);
      } else if x.Fetch? {
        FetchKeeps(cap, s, x);
      } else if x.Serve? {
        ServeKeeps(cap, s, x);
      } else {
        LeaveKeeps(cap, s, x);
      }
    }
  }

  // ---- what any client hears in any reachable state ----

  function TextOf(links: seq<Link>, e: Entry): string {
    if e.link < |links| && e.line < |links[e.link].wire| then links[e.link].wire[e.line].text else ""
  }

  /** The payloads accepted for a key. */
  function LogPayloads(links: seq<Link>, log: seq<Entry>): seq<Payload> {
    seq(|log|, i requires 0 <= i < |log| => Project(TextOf(links, log[i])))
  }

  lemma {:induction false} BodiesAreTexts(links: seq<Link>, key: string, log: seq<Entry>)
    requires forall i | 0 <= i < |log| :: EntryOk(links, key, log[i])
    ensures Bodies(log) == Texts(LogPayloads(links, log))
  {
    forall i | 0 <= i < |log|
      ensures Bodies(log)[i] == Texts(LogPayloads(links, log))[i]
    {
      assert EntryOk(links, key, log[i]);
    }
  }

  lemma {:induction false} WrittenFromBinding(d: Client, log: seq<Entry>, ps: seq<Payload>)
    requires ClientOk(d, log) && Bodies(log) == Texts(ps)
    ensures d.from + |d.written| <= |ps| && d.written == Texts(ps[d.from..d.from + |d.written|])
  {
    var n := |d.written|;
    assert d.written == Backlog(d)[..n] == Texts(ps)[d.from..][..n];
    assert Texts(ps)[d.from..][..n] == Texts(ps)[d.from..d.from + n] == Texts(ps[d.from..d.from + n]);
  }

  /** Everything the client's handler began to write, as payloads: a contiguous stretch of the log from the binding on. */
  lemma {:induction false} WrittenIsStretchOfLog(s: State, c: nat)
    requires Inv(s) && c < |s.clients|
    ensures var d := s.clients[c];
            var all := LogPayloads(s.links, LogOf(s, d.key));
            d.from + |d.written| <= |all| && d.written == Texts(all[d.from..d.from + |d.written|])
  {
    var d := s.clients[c];
    var log := LogOf(s, d.key);
    assert LogOk(s.links, d.key, log);
    BodiesAreTexts(s.links, d.key, log);
    WrittenFromBinding(d, log, LogPayloads(s.links, log));
  }

  /** No other agent runs under the same submission id. */
  ghost predicate OnlyAgent(s: State, a: nat, key: string) {
    a < |s.links| && s.links[a].key == key && forall b | 0 <= b < |s.links| && s.links[b].key == key :: b == a
  }

  predicate FollowsAt(l: Link, events: seq<JudgeEvent>, idx: seq<nat>, j: nat)
    requires j < |idx| == |events|
  {
    && idx[j] < l.sent <= |l.script|
    && (events[j] == View(PayloadOf(l.script[idx[j]])) ||
        (l.torn && j == |events| - 1 && events[j] == View(BLANK)))
  }

  /**
   * idx picks, in order, the events of the agent's script that were heard; the last one heard may
   * instead be blank if the agent was cut off in the middle of a line.
   */
  ghost predicate Follows(l: Link, events: seq<JudgeEvent>, idx: seq<nat>) {
    && |idx| == |events|
    && (forall i, j | 0 <= i < j < |idx| :: idx[i] < idx[j])
    && (forall j | 0 <= j < |idx| :: FollowsAt(l, events, idx, j))
  }

  /** The script positions of the messages in a log that all come from link a. */
  function Origins(l: Link, log: seq<Entry>): seq<nat> {
    seq(|log|, i requires 0 <= i < |log| => if log[i].line < |l.wire| then l.wire[log[i].line].origin else 0)
  }

  lemma {:induction false} LineProjects(l: Link, i: nat)
    requires LinkOk(l) && i < |l.wire|
    ensures l.wire[i].origin < l.sent <= |l.script|
    ensures Project(l.wire[i].text) == PayloadOf(l.script[l.wire[i].origin]) ||
            (l.torn && i == |l.wire| - 1 && Project(l.wire[i].text) == BLANK)
  {
    assert LineOk(l, i);
    var e := l.script[l.wire[i].origin];
    ProjectEvent(e);
    if l.wire[i].text != EventText(e) {
      ProjectCut(e, |l.wire[i].text|);
    }
  }

  /** The log of the only agent under a key has that agent's lines, in order. */
  ghost predicate FromOnly(l: Link, a: nat, log: seq<Entry>) {
    && LinkOk(l)
    && (forall i | 0 <= i < |log| :: log[i].link == a && log[i].line < |l.wire|)
    && (forall i, j | 0 <= i < j < |log| :: log[i].line < log[j].line)
  }

  lemma {:induction false} LogIsFromOnly(s: State, a: nat, key: string)
    requires Inv(s) && OnlyAgent(s, a, key)
    ensures FromOnly(s.links[a], a, LogOf(s, key))
  {
    var log := LogOf(s, key);
    assert LogOk(s.links, key, log);
    assert LinkOk(s.links[a]);
    assert forall i | 0 <= i < |log| :: EntryOk(s.links, key, log[i]) && log[i].link == a;
  }

  lemma {:induction false} EntryFollows(l: Link, a: nat, links: seq<Link>, log: seq<Entry>, lo: nat, hi: nat, j: nat)
    requires a < |links| && links[a] == l && FromOnly(l, a, log) && lo <= hi <= |log| && j < hi - lo
    ensures FollowsAt(l, Views(LogPayloads(links, log)[lo..hi]), Origins(l, log)[lo..hi], j)
  {
    var events, idx := Views(LogPayloads(links, log)[lo..hi]), Origins(l, log)[lo..hi];
    var e := log[lo + j];
    LineProjects(l, e.line);
    assert idx[j] == l.wire[e.line].origin;
    assert events[j] == View(Project(l.wire[e.line].text));
    if j < hi - lo - 1 {
      assert e.line < log[lo + j + 1].line;
    }
  }

  lemma {:induction false} OriginsIncrease(l: Link, a: nat, log: seq<Entry>, lo: nat, hi: nat)
    requires FromOnly(l, a, log) && lo <= hi <= |log|
    ensures var idx := Origins(l, log)[lo..hi]; forall i, j | 0 <= i < j < |idx| :: idx[i] < idx[j]
  {
    var idx := Origins(l, log)[lo..hi];
    forall i, j | 0 <= i < j < |idx|
      ensures idx[i] < idx[j]
    {
      assert log[lo + i].line < log[lo + j].line;
      assert idx[i] == l.wire[log[lo + i].line].origin && idx[j] == l.wire[log[lo + j].line].origin;
    }
  }

  /** A stretch of the log follows the script of the only agent under its key. */
  lemma {:induction false} StretchFollows(links: seq<Link>, a: nat, log: seq<Entry>, lo: nat, hi: nat)
    requires a < |links| && FromOnly(links[a], a, log) && lo <= hi <= |log|
    ensures Follows(links[a], Views(LogPayloads(links, log)[lo..hi]), Origins(links[a], log)[lo..hi])
  {
    var events, idx := Views(LogPayloads(links, log)[lo..hi]), Origins(links[a], log)[lo..hi];
    OriginsIncrease(links[a], a, log, lo, hi);
    forall j | 0 <= j < |idx|
      ensures FollowsAt(links[a], events, idx, j)
    {
      EntryFollows(links[a], a, links, log, lo, hi, j);
    }
  }

  lemma {:induction false} FollowsPrefix(l: Link, events: seq<JudgeEvent>, idx: seq<nat>, heard: seq<JudgeEvent>)
    requires Follows(l, events, idx) && HasPrefix(events, heard)
    ensures Follows(l, heard, idx[..|heard|])
  {
    forall j | 0 <= j < |heard|
      ensures FollowsAt(l, heard, idx[..|heard|], j)
    {
      assert FollowsAt(l, events, idx, j);
      assert heard[j] == events[..|heard|][j];
    }
  }

  lemma {:induction false} OnlyLastIsResult(ps: seq<Payload>)
    ensures forall j | 0 <= j < UpToResult(ps) - 1 :: ps[j].kind != "RESULT"
    decreases |ps|
  {
    if ps != [] && ps[0].kind != "RESULT" {
      OnlyLastIsResult(ps[1..]);
      forall j | 0 <= j < UpToResult(ps) - 1
        ensures ps[j].kind != "RESULT"
      {
        if j > 0 {
          assert ps[j] == ps[1..][j - 1];
        }
      }
    }
  }

  lemma {:induction false} HeardFollows(l: Link, ps: seq<Payload>, idx: seq<nat>, heard: seq<JudgeEvent>)
    requires Follows(l, Views(ps), idx) && HasPrefix(Views(ps)[..UpToResult(ps)], heard)
    ensures Follows(l, heard, idx[..|heard|])
    ensures forall j | 0 <= j < |heard| - 1 :: heard[j].kind != "RESULT"
  {
    assert heard == Views(ps)[..UpToResult(ps)][..|heard|] == Views(ps)[..|heard|];
    FollowsPrefix(l, Views(ps), idx, heard);
    OnlyLastIsResult(ps);
    forall j | 0 <= j < |heard| - 1
      ensures heard[j].kind != "RESULT"
    {
      assert heard[j] == Views(ps)[j] == View(ps[j]);
    }
  }

  /** What the SDK yields from a stream: events the agent has emitted, in order, and none after a RESULT. */
  ghost predicate HearsInOrder(l: Link, stream: string) {
    && (exists idx :: Follows(l, Listen(stream).events, idx))
    && forall j | 0 <= j < |Listen(stream).events| - 1 :: Listen(stream).events[j].kind != "RESULT"
  }

  lemma {:induction false} FollowingIsHeard(l: Link, ps: seq<Payload>, idx: seq<nat>, stream: string)
    requires Follows(l, Views(ps), idx) && HasPrefix(Stream(ps), stream)
    ensures HearsInOrder(l, stream)
  {
    CutStreamIsHeard(ps, |stream|);
    HeardFollows(l, ps, idx, Listen(stream).events);
  }

  lemma {:induction false} StateIsHeard(s: State, a: nat, c: nat, stream: string)
    requires Inv(s) && c < |s.clients| && OnlyAgent(s, a, s.clients[c].key)
    requires HasPrefix(Frames(s.clients[c].written), stream)
    ensures HearsInOrder(s.links[a], stream)
  {
    var d := s.clients[c];
    var l, log, lo, hi := s.links[a], LogOf(s, d.key), d.from, d.from + |d.written|;
    WrittenIsStretchOfLog(s, c);
    LogIsFromOnly(s, a, d.key);
    StretchFollows(s.links, a, log, lo, hi);
    FollowingIsHeard(l, LogPayloads(s.links, log)[lo..hi], Origins(l, log)[lo..hi], stream);
  }

  /**
   * In every reachable state, whatever part of a client's stream reached it: what the SDK yields
   * is an order-preserving subsequence of the events the agent has emitted, each with exactly its
   * type, status and details (except for a blank last event after a line cut short), and nothing
   * is yielded after a RESULT.
   */
  lemma {:induction false} ClientHearsSubsequence(
    cap: nat, scripts: seq<(string, seq<Event>)>, acts: seq<Action>, a: nat, c: nat, stream: string)
    requires CanRun(cap, scripts, acts)
    requires var s := Run(cap, scripts, acts);
             c < |s.clients| && OnlyAgent(s, a, s.clients[c].key) && HasPrefix(Frames(s.clients[c].written), stream)
    ensures HearsInOrder(Run(cap, scripts, acts).links[a], stream)
  {
    RunKeepsInv(cap, scripts, acts);
    StateIsHeard(Run(cap, scripts, acts), a, c, stream);
  }
}
