/** internal/agenthttp/server.go:500-511, 530-541, 636-678 and internal/adapter/http_runtime.go:222-314: a
    run that appends events under a lock, the pages it answers polls with, and the client that polls. */
module Polling {

  const BUFFER := 16 * 1024 * 1024
  const PAGE := 2 * 1024 * 1024

  datatype Event = Event(sequence: int, kind: string, payload: string)

  /** The four states either side writes; Other is anything else a reply may hold. */
  datatype RunState = Starting | Running | Exited | Unknown | Other

  /** known is false once the controller has restarted and forgotten the run; the events it had
      buffered are kept here for comparison only. */
  datatype Run = Run(known: bool, state: RunState, events: seq<Event>, bytes: int)

  datatype Page = Page(state: RunState, events: seq<Event>, more: bool)

  /** JSON as far as it matters: which texts are valid, and how a payload reads after the reply that
      carries it was encoded and decoded. */
  datatype Json = Json(valid: string -> bool, wire: string -> string)

  ghost predicate Sound(json: Json) {
    forall p {:trigger json.wire(p)} :: json.valid(p) ==> json.valid(json.wire(p)) && json.wire(p) != ""
  }

  datatype Step = Launched | Emitted(kind: string, payload: string) | Finished | Restarted

  const CREATED := Run(true, Starting, [], 0)

  predicate Live(r: Run) {
    r.known && r.state != Exited
  }

  predicate Admits(r: Run, kind: string, payload: string, json: Json) {
    kind != "" && json.valid(payload) && r.bytes + |payload| <= BUFFER
  }

  /** execute returns after setting EXITED, so nothing follows. */
  function Next(r: Run, step: Step, json: Json): Run {
    match step
    case Restarted => r.(known := false)
    case Launched => if Live(r) then r.(state := Running) else r
    case Finished => if Live(r) then r.(state := Exited) else r
    case Emitted(kind, payload) =>
      if Live(r) && Admits(r, kind, payload, json) then
        r.(events := r.events + [Event(|r.events| + 1, kind, payload)], bytes := r.bytes + |payload|)
      else r
  }

  function Ran(r: Run, steps: seq<Step>, json: Json): Run {
    if steps == [] then r else Next(Ran(r, steps[..|steps| - 1], json), steps[|steps| - 1], json)
  }

  // ---------- pages ----------

  /** The page that starts at event i ends before event Cut(events, i, i, 0). */
  function Cut(events: seq<Event>, from: nat, i: nat, used: int): (end: nat)
    requires from <= i <= |events|
    ensures i <= end <= |events|
    ensures from < |events| ==> from < end
    decreases |events| - i
  {
    if i == |events| || (i > from && used + |events[i].payload| > PAGE) then i
    else Cut(events, from, i + 1, used + |events[i].payload|)
  }

  function Start(r: Run, after: nat): (i: nat)
    ensures i <= |r.events|
  {
    if after < |r.events| then after else |r.events|
  }

  function Wire(e: Event, json: Json): Event {
    e.(payload := json.wire(e.payload))
  }

  function Wired(events: seq<Event>, json: Json): (out: seq<Event>)
    ensures |out| == |events|
    ensures forall i :: 0 <= i < |events| ==> out[i] == Wire(events[i], json)
  {
    seq(|events|, i requires 0 <= i < |events| => Wire(events[i], json))
  }

  function Answer(r: Run, after: nat, json: Json): Page {
    if !r.known then Page(Unknown, [], false)
    else
      var i := Start(r, after);
      var end := Cut(r.events, i, i, 0);
      Page(r.state, Wired(r.events[i..end], json), end < |r.events|)
  }

  function Size(events: seq<Event>): int {
    if events == [] then 0 else Size(events[..|events| - 1]) + |events[|events| - 1].payload|
  }

  /** A page is the longest run of unseen events within the byte limit, and at least one of them. */
  lemma {:induction false} PageIsLongest(events: seq<Event>, from: nat, i: nat)
    requires from <= i <= |events| && (i > from + 1 ==> Size(events[from..i]) <= PAGE)
    ensures var end := Cut(events, from, i, Size(events[from..i]));
      && end >= i
      && (end > from + 1 ==> Size(events[from..end]) <= PAGE)
      && (end < |events| ==> end > from && Size(events[from..end + 1]) > PAGE)
    decreases |events| - i
  {
    if i < |events| {
      OneMore(events, from, i);
      if i == from || Size(events[from..i]) + |events[i].payload| <= PAGE {
        PageIsLongest(events, from, i + 1);
      } else {
        assert Cut(events, from, i, Size(events[from..i])) == i;
      }
    }
  }

  lemma OneMore(events: seq<Event>, from: nat, i: nat)
    requires from <= i < |events|
    ensures Size(events[from..i + 1]) == Size(events[from..i]) + |events[i].payload|
  {
    assert events[from..i + 1][..i - from] == events[from..i];
  }

  ghost predicate Numbered(events: seq<Event>) {
    forall i :: 0 <= i < |events| ==> events[i].sequence == i + 1
  }

  class RunItem {
    var known: bool
    var state: RunState
    var events: seq<Event>
    var bytes: int

    ghost predicate Valid()
      reads this
    {
      Numbered(events)
    }

    ghost function Current(): Run
      reads this
    {
      Run(known, state, events, bytes)
    }

    constructor ()
      ensures Valid() && Current() == CREATED
    {
      known, state, events, bytes := true, Starting, [], 0;
    }

    /** server.go:500-511: the callback execute hands to its parser, so it runs before execute ends. */
    method Append(kind: string, payload: string, json: Json) returns (ok: bool)
      requires Valid() && Live(Current())
      modifies this
      ensures Valid() && ok == Admits(old(Current()), kind, payload, json)
      ensures Current() == Next(old(Current()), Emitted(kind, payload), json)
    {
      if kind == "" || !json.valid(payload) {
        return false;
      }
      if bytes + |payload| > BUFFER {
        return false;
      }
      events := events + [Event(|events| + 1, kind, payload)];
      bytes := bytes + |payload|;
      return true;
    }

    method Execute(steps: seq<Step>, json: Json)
      requires Valid()
      modifies this
      ensures Valid() && Current() == Ran(old(Current()), steps, json)
    {
      for k := 0 to |steps|
        invariant Valid() && Current() == Ran(old(Current()), steps[..k], json)
      {
        assert steps[..k + 1][..k] == steps[..k];
        match steps[k]
        case Restarted =>
          known := false;
        case Launched =>
          if known && state != Exited {
            state := Running;
          }
        case Finished =>
          if known && state != Exited {
            state := Exited;
          }
        case Emitted(kind, payload) =>
          if known && state != Exited {
            var _ := Append(kind, payload, json);
          }
      }
      assert steps[..|steps|] == steps;
    }

    /** server.go:661-674: the loop over the buffered events. */
    method Fill(after: nat) returns (taken: seq<Event>, more: bool)
      requires Valid()
      ensures var from := Start(Current(), after);
        var end := Cut(events, from, from, 0);
        taken == events[from..end] && more == (end < |events|)
    {
      ghost var from := Start(Current(), after);
      taken, more := [], false;
      var used, k := 0, 0;
      while k < |events|
        invariant 0 <= k <= |events| && !more
        invariant k <= from ==> taken == [] && used == 0
        invariant k >= from ==> taken == events[from..k] && Cut(events, from, k, used) == Cut(events, from, from, 0)
      {
        if events[k].sequence > after {
          if used + |events[k].payload| > PAGE && |taken| > 0 {
            more := true;
            return;
          }
          taken := taken + [events[k]];
          used := used + |events[k].payload|;
        }
        k := k + 1;
      }
    }

    /** server.go:636-678 */
    method Inspect(after: nat, json: Json) returns (page: Page)
      requires Valid()
      ensures page == Answer(Current(), after, json)
    {
      if !known {
        return Page(Unknown, [], false);
      }
      var taken, more := Fill(after);
      page := Page(state, Wired(taken, json), more);
    }
  }

  // ---------- the client ----------

  datatype Ending = Polls | Done | Gone | Cancelled | Malformed | EmitRefused | BadState

  datatype Client = Client(cursor: nat, emitted: seq<Event>, ending: Ending)

  const FRESH := Client(0, [], Polls)

  function Take(c: Client, e: Event, json: Json, emits: nat -> bool): Client {
    if c.ending != Polls || e.sequence <= c.cursor then c
    else if e.sequence != c.cursor + 1 || e.kind == "" || e.payload == "" || !json.valid(e.payload) then
      c.(ending := Malformed)
    else if !emits(e.sequence) then c.(ending := EmitRefused)
    else c.(cursor := e.sequence, emitted := c.emitted + [e])
  }

  function TakeAll(c: Client, events: seq<Event>, json: Json, emits: nat -> bool): Client {
    if events == [] then c
    else Take(TakeAll(c, events[..|events| - 1], json, emits), events[|events| - 1], json, emits)
  }

  function Settled(c: Client, page: Page): Client {
    if c.ending != Polls then c
    else match page.state
      case Exited => if page.more then c else c.(ending := Done)
      case Starting => c
      case Running => c
      case Unknown => c.(ending := Gone)
      case Other => c.(ending := BadState)
  }

  function Polled(c: Client, page: Page, json: Json, emits: nat -> bool): Client {
    Settled(TakeAll(c, page.events, json, emits), page)
  }

  /** What happens around one poll: the run moves on, then the request is answered or fails, the
      failure being the context's or not. */
  datatype Turn = Turn(steps: seq<Step>, answered: bool, cancelled: bool)

  datatype World = World(run: Run, client: Client)

  const BEGIN := World(CREATED, FRESH)

  function Advance(w: World, turn: Turn, json: Json, emits: nat -> bool): World {
    var run := Ran(w.run, turn.steps, json);
    World(run,
          if w.client.ending != Polls then w.client
          else if turn.answered then Polled(w.client, Answer(run, w.client.cursor, json), json, emits)
          else w.client.(ending := if turn.cancelled then Cancelled else Gone))
  }

  function After(w: World, turns: seq<Turn>, json: Json, emits: nat -> bool): World {
    if turns == [] then w else Advance(After(w, turns[..|turns| - 1], json, emits), turns[|turns| - 1], json, emits)
  }

  /** http_runtime.go:281-295: the loop over one page. emits says which events the callback accepts. */
  method Consume(c: Client, events: seq<Event>, json: Json, emits: nat -> bool) returns (out: Client)
    requires c.ending == Polls
    ensures out == TakeAll(c, events, json, emits)
  {
    var sequence: nat, emitted := c.cursor, c.emitted;
    for k := 0 to |events|
      invariant TakeAll(c, events[..k], json, emits) == Client(sequence, emitted, Polls)
    {
      assert events[..k + 1][..k] == events[..k];
      var e := events[k];
      if e.sequence > sequence {
        if e.sequence != sequence + 1 || e.kind == "" || e.payload == "" || !json.valid(e.payload) {
          StoppedStays(c, events, k + 1, json, emits);
          return Client(sequence, emitted, Malformed);
        }
        if !emits(e.sequence) {
          StoppedStays(c, events, k + 1, json, emits);
          return Client(sequence, emitted, EmitRefused);
        }
        emitted := emitted + [e];
        sequence := e.sequence;
      }
    }
    assert events[..|events|] == events;
    out := Client(sequence, emitted, Polls);
  }

  lemma {:induction false} StoppedStays(c: Client, events: seq<Event>, k: nat, json: Json, emits: nat -> bool)
    requires k <= |events| && TakeAll(c, events[..k], json, emits).ending != Polls
    ensures TakeAll(c, events, json, emits) == TakeAll(c, events[..k], json, emits)
    decreases |events| - k
  {
    if k < |events| {
      assert events[..k + 1][..k] == events[..k];
      StoppedStays(c, events, k + 1, json, emits);
    } else {
      assert events[..k] == events;
    }
  }

  /** http_runtime.go:222-314: poll until something ends it, or until the given turns are over. */
  method Serve(item: RunItem, turns: seq<Turn>, json: Json, emits: nat -> bool) returns (client: Client, used: nat)
    requires item.Valid()
    modifies item
    ensures item.Valid() && used <= |turns| && (client.ending == Polls ==> used == |turns|)
    ensures World(item.Current(), client) == After(World(old(item.Current()), FRESH), turns[..used], json, emits)
  {
    client, used := FRESH, 0;
    while used < |turns| && client.ending == Polls
      invariant used <= |turns| && item.Valid()
      invariant World(item.Current(), client) == After(World(old(item.Current()), FRESH), turns[..used], json, emits)
    {
      var turn := turns[used];
      assert turns[..used + 1][..used] == turns[..used];
      item.Execute(turn.steps, json);
      if !turn.answered {
        client := client.(ending := if turn.cancelled then Cancelled else Gone);
      } else {
        var page := item.Inspect(client.cursor, json);
        client := Consume(client, page.events, json, emits);
        if client.ending == Polls {
          match page.state
          case Exited =>
            if !page.more {
              client := client.(ending := Done);
            }
          case Starting =>
          case Running =>
          case Unknown =>
            client := client.(ending := Gone);
          case Other =>
            client := client.(ending := BadState);
        }
      }
      used := used + 1;
    }
  }

  // ---------- exactly once, in order ----------

  /** Every buffered event passes the client's checks. */
  ghost predicate Fit(r: Run, json: Json) {
    && Numbered(r.events)
    && forall i :: 0 <= i < |r.events| ==> r.events[i].kind != "" && json.valid(r.events[i].payload)
  }

  lemma {:induction false} RunGrows(r: Run, steps: seq<Step>, json: Json)
    requires Fit(r, json)
    ensures var s := Ran(r, steps, json);
      && Fit(s, json) && r.events <= s.events
      && (!Live(r) ==> s.events == r.events && s.state == r.state)
      && (s.known ==> r.known)
      && (s.state == Unknown ==> r.state == Unknown) && (s.state == Other ==> r.state == Other)
  {
    if steps != [] {
      RunGrows(r, steps[..|steps| - 1], json);
    }
  }

  /** The client has emitted exactly the first cursor events of the run. */
  ghost predicate InStep(w: World, json: Json) {
    && Fit(w.run, json) && w.run.state != Unknown && w.run.state != Other
    && At(w.client, w.run.events, json)
    && w.client.ending != Malformed && w.client.ending != BadState
    && (w.client.ending == Done ==> w.run.state == Exited && w.client.cursor == |w.run.events|)
  }

  /** Client c is at event c.cursor of the given events. */
  ghost predicate At(c: Client, events: seq<Event>, json: Json) {
    c.cursor <= |events| && c.emitted == Wired(events[..c.cursor], json)
  }

  lemma TakesNext(c: Client, r: Run, json: Json, emits: nat -> bool)
    requires Sound(json) && Fit(r, json) && c.ending == Polls && c.cursor < |r.events| && At(c, r.events, json)
    ensures var d := Take(c, Wire(r.events[c.cursor], json), json, emits);
      && At(d, r.events, json)
      && d.cursor == (if emits(c.cursor + 1) then c.cursor + 1 else c.cursor)
      && d.ending == (if emits(c.cursor + 1) then Polls else EmitRefused)
  {
    var k := c.cursor;
    assert Wired(r.events[..k + 1], json) == Wired(r.events[..k], json) + [Wire(r.events[k], json)];
  }

  lemma SliceGrows(events: seq<Event>, from: nat, k: nat, json: Json)
    requires from < k <= |events|
    ensures Wired(events[from..k], json) == Wired(events[from..k - 1], json) + [Wire(events[k - 1], json)]
  {
  }

  lemma TakesOneMore(c: Client, before: seq<Event>, e: Event, json: Json, emits: nat -> bool)
    ensures TakeAll(c, before + [e], json, emits) == Take(TakeAll(c, before, json, emits), e, json, emits)
  {
    assert (before + [e])[..|before|] == before;
  }

  /** Where a client stands after taking the events up to k. */
  ghost predicate Reached(c: Client, d: Client, k: nat, emits: nat -> bool) {
    && c.cursor <= d.cursor <= k
    && ((d.ending == Polls && d.cursor == k) || (d.ending == EmitRefused && d.cursor < k && !emits(d.cursor + 1)))
  }

  /** Taking events cursor..k of the run one after the other never meets a malformed one. */
  lemma {:induction false} TakesRun(c: Client, r: Run, k: nat, json: Json, emits: nat -> bool)
    requires Sound(json) && Fit(r, json) && c.ending == Polls && At(c, r.events, json) && c.cursor <= k <= |r.events|
    ensures At(TakeAll(c, Wired(r.events[c.cursor..k], json), json, emits), r.events, json)
    ensures Reached(c, TakeAll(c, Wired(r.events[c.cursor..k], json), json, emits), k, emits)
  {
    if k == c.cursor {
      assert Wired(r.events[c.cursor..k], json) == [];
    } else {
      TakesRun(c, r, k - 1, json, emits);
      SliceGrows(r.events, c.cursor, k, json);
      var before, e := Wired(r.events[c.cursor..k - 1], json), Wire(r.events[k - 1], json);
      TakesOneMore(c, before, e, json, emits);
      ReachesNext(c, TakeAll(c, before, json, emits), r, k, json, emits);
    }
  }

  lemma ReachesNext(c: Client, d: Client, r: Run, k: nat, json: Json, emits: nat -> bool)
    requires Sound(json) && Fit(r, json) && c.cursor < k <= |r.events|
    requires At(d, r.events, json) && Reached(c, d, k - 1, emits)
    ensures At(Take(d, Wire(r.events[k - 1], json), json, emits), r.events, json)
    ensures Reached(c, Take(d, Wire(r.events[k - 1], json), json, emits), k, emits)
  {
    if d.ending == Polls {
      TakesNext(d, r, json, emits);
    }
  }

  lemma TurnInStep(w: World, turn: Turn, json: Json, emits: nat -> bool)
    requires Sound(json) && InStep(w, json)
    ensures InStep(Advance(w, turn, json, emits), json)
  {
    var run := Ran(w.run, turn.steps, json);
    RunGrows(w.run, turn.steps, json);
    AtGrows(w.client, w.run.events, run.events, json);
    if w.client.ending == Polls && turn.answered && run.known {
      PageTaken(w.client, run, json, emits);
    }
  }

  lemma {:induction false} RunInStep(w: World, turns: seq<Turn>, json: Json, emits: nat -> bool)
    requires Sound(json) && InStep(w, json)
    ensures InStep(After(w, turns, json, emits), json)
  {
    if turns != [] {
      RunInStep(w, turns[..|turns| - 1], json, emits);
      TurnInStep(After(w, turns[..|turns| - 1], json, emits), turns[|turns| - 1], json, emits);
    }
  }

  /** For every interleaving of the run with the polls, failed requests and restarts included: what is
      emitted is the first events of the run, each once and in order; no reply is ever taken for
      malformed; and a normal end means that everything was emitted and nothing will follow. */
  lemma ExactlyOnce(turns: seq<Turn>, json: Json, emits: nat -> bool)
    requires Sound(json)
    ensures var w := After(BEGIN, turns, json, emits);
      && |w.client.emitted| <= |w.run.events|
      && w.client.emitted == Wired(w.run.events[..|w.client.emitted|], json)
      && w.client.ending != Malformed && w.client.ending != BadState
      && (w.client.ending == Done ==> w.run.state == Exited && w.client.emitted == Wired(w.run.events, json))
  {
    assert InStep(BEGIN, json);
    RunInStep(BEGIN, turns, json, emits);
    var w := After(BEGIN, turns, json, emits);
    assert w.run.events[..|w.run.events|] == w.run.events;
  }

  /** Once returned normally, no later step of the run adds an event. */
  lemma NothingFollows(turns: seq<Turn>, later: seq<Step>, json: Json, emits: nat -> bool)
    requires Sound(json) && After(BEGIN, turns, json, emits).client.ending == Done
    ensures var w := After(BEGIN, turns, json, emits);
      w.client.emitted == Wired(Ran(w.run, later, json).events, json)
  {
    ExactlyOnce(turns, json, emits);
    assert InStep(BEGIN, json);
    RunInStep(BEGIN, turns, json, emits);
    RunGrows(After(BEGIN, turns, json, emits).run, later, json);
  }

  /** An answered poll with something unseen emits at least one event, or the callback refused it. */
  lemma PollProgresses(w: World, turn: Turn, json: Json, emits: nat -> bool)
    requires Sound(json) && InStep(w, json) && w.client.ending == Polls && turn.answered
    requires Ran(w.run, turn.steps, json).known && w.client.cursor < |Ran(w.run, turn.steps, json).events|
    ensures var c := Advance(w, turn, json, emits).client;
      c.cursor > w.client.cursor || (c.ending == EmitRefused && !emits(w.client.cursor + 1))
  {
    var c, r := w.client, Ran(w.run, turn.steps, json);
    RunGrows(w.run, turn.steps, json);
    AtGrows(c, w.run.events, r.events, json);
    PageProgresses(c, r, json, emits);
  }

  lemma PageProgresses(c: Client, r: Run, json: Json, emits: nat -> bool)
    requires Sound(json) && Fit(r, json) && r.known && c.ending == Polls && At(c, r.events, json)
    requires c.cursor < |r.events|
    ensures var d := Polled(c, Answer(r, c.cursor, json), json, emits);
      d.cursor > c.cursor || (d.ending == EmitRefused && !emits(c.cursor + 1))
  {
    PageTaken(c, r, json, emits);
  }

  lemma AtGrows(c: Client, a: seq<Event>, b: seq<Event>, json: Json)
    requires At(c, a, json) && a <= b
    ensures At(c, b, json)
  {
    assert b[..c.cursor] == a[..c.cursor];
  }

  lemma PageTaken(c: Client, r: Run, json: Json, emits: nat -> bool)
    requires Sound(json) && Fit(r, json) && r.known && c.ending == Polls && At(c, r.events, json)
    ensures var page := Answer(r, c.cursor, json);
      var d := TakeAll(c, page.events, json, emits);
      && At(d, r.events, json)
      && Reached(c, d, Cut(r.events, c.cursor, c.cursor, 0), emits)
      && page.state == r.state && (page.more <==> Cut(r.events, c.cursor, c.cursor, 0) < |r.events|)
  {
    TakesRun(c, r, Cut(r.events, c.cursor, c.cursor, 0), json, emits);
  }

  ghost predicate Answered(turns: seq<Turn>) {
    forall i :: 0 <= i < |turns| ==> turns[i].answered && Restarted !in turns[i].steps
  }

  lemma {:induction false} StaysKnown(r: Run, steps: seq<Step>, json: Json)
    requires Restarted !in steps && r.known
    ensures Ran(r, steps, json).known
  {
    if steps != [] {
      StaysKnown(r, steps[..|steps| - 1], json);
    }
  }

  /** From an exited run, answered polls end the client after at most as many as there are unseen
      events (and one when there are none). */
  lemma {:induction false} PollsEnd(w: World, turns: seq<Turn>, json: Json, emits: nat -> bool)
    requires Sound(json) && InStep(w, json) && w.client.ending == Polls
    requires w.run.known && w.run.state == Exited && Answered(turns)
    requires forall n: nat :: emits(n)
    ensures var d := After(w, turns, json, emits);
      && d.run.known && d.run.state == Exited && d.run.events == w.run.events && InStep(d, json)
      && (d.client.ending == Done || (d.client.ending == Polls && d.client.cursor >= w.client.cursor + |turns|))
      && (turns != [] && |turns| >= |w.run.events| - w.client.cursor ==> d.client.ending == Done)
  {
    if turns != [] {
      var last := turns[|turns| - 1];
      var m := After(w, turns[..|turns| - 1], json, emits);
      PollsEnd(w, turns[..|turns| - 1], json, emits);
      StaysKnown(m.run, last.steps, json);
      RunGrows(m.run, last.steps, json);
      TurnInStep(m, last, json, emits);
      if m.client.ending == Polls {
        PageTaken(m.client, Ran(m.run, last.steps, json), json, emits);
      }
    }
  }

  // ---------- a server that may answer anything ----------

  function PolledAll(c: Client, pages: seq<Page>, json: Json, emits: nat -> bool): Client {
    if pages == [] then c
    else Polled(PolledAll(c, pages[..|pages| - 1], json, emits), pages[|pages| - 1], json, emits)
  }

  ghost predicate Counted(c: Client, json: Json) {
    && c.cursor == |c.emitted|
    && Numbered(c.emitted)
    && forall i :: 0 <= i < |c.emitted| ==> c.emitted[i].kind != "" && json.valid(c.emitted[i].payload)
  }

  lemma {:induction false} TakesCounted(c: Client, events: seq<Event>, json: Json, emits: nat -> bool)
    requires Counted(c, json)
    ensures Counted(TakeAll(c, events, json, emits), json)
    ensures c.emitted <= TakeAll(c, events, json, emits).emitted
  {
    if events != [] {
      TakesCounted(c, events[..|events| - 1], json, emits);
    }
  }

  lemma PollCounted(c: Client, page: Page, json: Json, emits: nat -> bool)
    requires Counted(c, json)
    ensures Counted(Polled(c, page, json, emits), json)
    ensures c.emitted <= Polled(c, page, json, emits).emitted
  {
    TakesCounted(c, page.events, json, emits);
  }

  lemma PrefixOfPrefix(a: seq<Event>, b: seq<Event>, c: seq<Event>)
    requires a <= b <= c
    ensures a <= c
  {
  }

  /** Whatever the replies hold, replays, gaps and reorderings included, the callback sees well-formed
      events numbered 1, 2, 3 and so on, and none is ever withdrawn. */
  lemma {:induction false} NumberedWhateverIsAnswered(pages: seq<Page>, k: nat, json: Json, emits: nat -> bool)
    requires k <= |pages|
    ensures Counted(PolledAll(FRESH, pages, json, emits), json)
    ensures PolledAll(FRESH, pages[..k], json, emits).emitted <= PolledAll(FRESH, pages, json, emits).emitted
  {
    if pages == [] {
      assert pages[..k] == pages;
    } else {
      var n := |pages| - 1;
      var m := if k <= n then k else n;
      NumberedWhateverIsAnswered(pages[..n], m, json, emits);
      var c := PolledAll(FRESH, pages[..n], json, emits);
      PollCounted(c, pages[n], json, emits);
      if k <= n {
        assert pages[..n][..k] == pages[..k];
        PrefixOfPrefix(PolledAll(FRESH, pages[..k], json, emits).emitted, c.emitted, Polled(c, pages[n], json, emits).emitted);
      } else {
        assert pages[..k] == pages;
      }
    }
  }

  // ---------- what a run buffers ----------

  lemma AppendedSize(events: seq<Event>, e: Event)
    ensures Size(events + [e]) == Size(events) + |e.payload|
  {
    assert (events + [e])[..|events|] == events;
  }

  /** A run counts the bytes it buffers, and never buffers more than 16 MiB. */
  lemma {:induction false} BufferBounded(steps: seq<Step>, json: Json)
    ensures var r := Ran(CREATED, steps, json); r.bytes == Size(r.events) && Size(r.events) <= 16_777_216
  {
    if steps != [] {
      var k := |steps| - 1;
      BufferBounded(steps[..k], json);
      var r := Ran(CREATED, steps[..k], json);
      if steps[k].Emitted? {
        AppendedSize(r.events, Event(|r.events| + 1, steps[k].kind, steps[k].payload));
      }
    }
  }

  /** An event of a running run that has a kind, a valid payload and room is appended as it is, under the next
      number; any other changes nothing. */
  lemma EmissionExact(steps: seq<Step>, kind: string, payload: string, json: Json)
    ensures var r, next := Ran(CREATED, steps, json), Ran(CREATED, steps + [Emitted(kind, payload)], json);
      if r.known && r.state != Exited && kind != "" && json.valid(payload) && Size(r.events) + |payload| <= 16_777_216
      then next.events == r.events + [Event(|r.events| + 1, kind, payload)] && next.state == r.state && next.known
      else next == r
  {
    var more := steps + [Emitted(kind, payload)];
    assert more[..|more| - 1] == steps;
    BufferBounded(steps, json);
  }

  /** Every buffered event was emitted during the run, with a kind and a valid payload. */
  lemma {:induction false} EveryEventEmitted(steps: seq<Step>, json: Json, i: nat) returns (k: nat)
    requires i < |Ran(CREATED, steps, json).events|
    ensures var e := Ran(CREATED, steps, json).events[i];
      k < |steps| && steps[k] == Emitted(e.kind, e.payload) && e.kind != "" && json.valid(e.payload) && e.sequence == i + 1
  {
    var last := |steps| - 1;
    var r := Ran(CREATED, steps[..last], json);
    if i < |r.events| {
      k := EveryEventEmitted(steps[..last], json, i);
    } else {
      k := last;
    }
  }
}
