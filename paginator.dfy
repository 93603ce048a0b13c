/** One relay's backward pagination (createPaginator in main.go), run as a
    sequential loop over subscription windows.

    A worker checkpoints its cursor, asks the relay for events created at or
    before the cursor (the `until` bound of NIP-01, "Communication between
    clients and relays"), forwards every event it receives, lowers the cursor
    to the oldest timestamp seen, pauses for its interval, and goes on. It
    stops when it cannot connect to the relay, when a window brings nothing,
    when the relay refuses the subscription, or when the run is cancelled.

    The relay's side is an input: the list of answers it gives to successive
    subscription requests. When that list runs out the run is reported as
    Pending: what is modelled is then a prefix of an execution that goes on. */
module Paginator {
  import opened Wrappers
  import opened Events
  import opened Config

  /** How a window ends. */
  datatype WindowEnd =
    | Drained        // the event channel was closed: leave without unsubscribing
    | Eose           // end of stored events: unsubscribe and leave
    | ClosedByRelay  // the relay closed the subscription: unsubscribe and leave
    | Cancel         // the shared context was cancelled: unsubscribe and stop

  /** The events received in one window, in arrival order, and how it ended. */
  datatype Window = Window(events: seq<Event>, end: WindowEnd)

  /** The relay's answer to one subscription request. */
  datatype Subscription = Refused | Opened(window: Window)

  /** The worker's effects on the outside, in order (the forwarded events are
      kept apart, as the output stream). */
  datatype Action =
    | Checkpoint(url: string, until: int)  // UpdateUntil(url, until)
    | Subscribe(until: int)                // a subscription with filter.Until == until
    | Unsubscribe
    | Sleep(seconds: int)

  datatype Outcome =
    | ConnectFailed    // the relay could not be reached
    | SubscribeFailed  // a subscription request was refused
    | Exhausted        // a window delivered no event
    | Cancelled        // the shared context was cancelled during a window
    | Pending          // the modelled answers ran out; the worker would go on

  /** A worker run: its actions, the events it sent to the output stream, its
      final cursor, how many subscription answers it used, and how it ended. */
  datatype Run = Run(actions: seq<Action>, sent: seq<RelayEvent>, cursor: int, windows: nat, outcome: Outcome)

  /** A relay whose seed cursor parsed, as handed to its worker. */
  datatype Launch = Launch(url: string, since: int, interval: int)

  /** The cursor after a window that started at `start` and received `events`
      in this order. Each event is compared with the running cursor (the
      filter's Until points at the cursor variable itself), so the result is the
      minimum of `start` and every timestamp received. */
  function WindowCursor(start: int, events: seq<Event>): (r: int)
    ensures r <= start
    ensures forall e <- events :: r <= e.createdAt
    ensures r == start || exists e <- events :: e.createdAt == r
    decreases |events|
  {
    if events == [] then start
    else
      var n := |events| - 1;
      assert events == events[..n] + [events[n]];
      var before := WindowCursor(start, events[..n]);
      if events[n].createdAt < before then events[n].createdAt else before
  }

  /** `m` is the least of `start` and of the timestamps in `events`. */
  ghost predicate IsLowest(m: int, start: int, events: seq<Event>)
  {
    && m <= start
    && (forall e <- events :: m <= e.createdAt)
    && (m == start || exists e <- events :: e.createdAt == m)
  }

  /** The events tagged with the relay they came from. */
  function Tag(url: string, events: seq<Event>): (r: seq<RelayEvent>)
    ensures |r| == |events|
  {
    seq(|events|, i requires 0 <= i < |events| => RelayEvent(events[i], url))
  }

  /** The events an answer delivers: none when the subscription was refused. */
  function Delivered(s: Subscription): seq<Event>
  {
    if s.Opened? then s.window.events else []
  }

  /** Every event received over a list of subscription answers, in order. */
  function Received(subs: seq<Subscription>): seq<Event>
    decreases |subs|
  {
    if subs == [] then [] else Delivered(subs[0]) + Received(subs[1..])
  }

  /** `prefix`, `sent` and `windows` happened before the run `rest`. */
  function After(prefix: seq<Action>, sent: seq<RelayEvent>, windows: nat, rest: Run): Run
  {
    Run(prefix + rest.actions, sent + rest.sent, rest.cursor, windows + rest.windows, rest.outcome)
  }

  /** What one subscription does, after the checkpoint that precedes it: its
      actions, the events it forwards, the cursor after it, and, when the worker
      stops there, how the run ends. */
  datatype Step = Step(actions: seq<Action>, sent: seq<RelayEvent>, cursor: int, stop: Option<Outcome>)

  /** One subscription with upper bound `cursor`, the relay answering `answer`. */
  function WindowStep(url: string, cursor: int, interval: int, answer: Subscription): (r: Step)
    ensures |r.actions| > 0 && r.actions[0] == Subscribe(cursor)
    ensures forall a <- r.actions :: !a.Checkpoint?
  {
    match answer
    case Refused => Step([Subscribe(cursor)], [], cursor, Some(SubscribeFailed))
    case Opened(window) =>
      var sent := Tag(url, window.events);
      var next := WindowCursor(cursor, window.events);
      if window.end == Cancel then Step([Subscribe(cursor), Unsubscribe], sent, next, Some(Cancelled))
      else
        var closed := if window.end == Drained then [Subscribe(cursor)] else [Subscribe(cursor), Unsubscribe];
        if window.events == [] then Step(closed, sent, next, Some(Exhausted))
        else Step(closed + [Sleep(interval)], sent, next, None)
  }

  /** The pagination loop from cursor `cursor`, the relay answering with `subs`:
      checkpoint, then one window, and so on until a window stops the worker. */
  function Paginate(url: string, cursor: int, interval: int, subs: seq<Subscription>): Run
    decreases |subs|
  {
    if subs == [] then Run([Checkpoint(url, cursor)], [], cursor, 0, Pending)
    else
      var step := WindowStep(url, cursor, interval, subs[0]);
      if step.stop.Some? then Run([Checkpoint(url, cursor)] + step.actions, step.sent, step.cursor, 1, step.stop.value)
      else After([Checkpoint(url, cursor)] + step.actions, step.sent, 1, Paginate(url, step.cursor, interval, subs[1..]))
  }

  /** A whole worker: connect, then paginate from the seed cursor. */
  function Worker(w: Launch, connected: bool, subs: seq<Subscription>): Run
  {
    if connected then Paginate(w.url, w.since, w.interval, subs)
    else Run([], [], w.since, 0, ConnectFailed)
  }

  /** The value of the most recent checkpoint among `actions`, if any. */
  function LastCheckpoint(actions: seq<Action>): Option<int>
    decreases |actions|
  {
    if actions == [] then None
    else if actions[|actions| - 1].Checkpoint? then Some(actions[|actions| - 1].until)
    else LastCheckpoint(actions[..|actions| - 1])
  }

  /** A window that lets the worker go on: it delivered events and was not
      cancelled. */
  predicate Continues(s: Subscription)
  {
    s.Opened? && s.window.events != [] && s.window.end != Cancel
  }

  /** How a run ends on an answer that does not let it go on. */
  function Ending(s: Subscription): Outcome
    requires !Continues(s)
  {
    if s.Refused? then SubscribeFailed
    else if s.window.end == Cancel then Cancelled
    else Exhausted
  }

  /** Launches workers for the relays in list order, and stops at the first
      relay whose seed cursor does not parse (a `break`, not a `continue`).
      `parse` stands for reading the calendar layout and taking Unix seconds. */
  method LaunchWorkers(config: AppConfig, parse: string -> Option<int>) returns (launched: seq<Launch>)
    ensures |launched| <= config.relays.Length
    ensures forall k :: 0 <= k < |launched| ==>
      && parse(config.relays[k].until).Some?
      && launched[k] == Launch(config.relays[k].url, parse(config.relays[k].until).value, config.relays[k].interval)
    ensures |launched| < config.relays.Length ==> parse(config.relays[|launched|].until).None?
    ensures forall j :: 0 <= j < config.relays.Length && parse(config.relays[j].until).None? ==> |launched| <= j
  {
    var relays := config.relays;
    launched := [];
    var i := 0;
    while i < relays.Length
      invariant 0 <= i <= relays.Length && |launched| == i
      invariant forall k :: 0 <= k < i ==>
        && parse(relays[k].until).Some?
        && launched[k] == Launch(relays[k].url, parse(relays[k].until).value, relays[k].interval)
    {
      var since := parse(relays[i].until);
      if since.None? {
        break;
      }
      launched := launched + [Launch(relays[i].url, since.value, relays[i].interval)];
      i := i + 1;
    }
  }

  lemma LastCheckpointAppend(actions: seq<Action>, a: Action)
    ensures LastCheckpoint(actions + [a]) == if a.Checkpoint? then Some(a.until) else LastCheckpoint(actions)
  {
    assert (actions + [a])[..|actions|] == actions;
  }

  lemma {:induction false} LastCheckpointsAppend(actions: seq<Action>, more: seq<Action>)
    requires forall a <- more :: !a.Checkpoint?
    ensures LastCheckpoint(actions + more) == LastCheckpoint(actions)
    decreases |more|
  {
    if more != [] {
      var n := |more| - 1;
      assert actions + more == (actions + more[..n]) + [more[n]];
      LastCheckpointAppend(actions + more[..n], more[n]);
      LastCheckpointsAppend(actions, more[..n]);
    } else {
      assert actions + more == actions;
    }
  }

  lemma AfterAppend(p: seq<Action>, s: seq<RelayEvent>, o: nat, q: seq<Action>, t: seq<RelayEvent>, n: nat, rest: Run)
    ensures After(p, s, o, After(q, t, n, rest)) == After(p + q, s + t, o + n, rest)
  {
    assert p + (q + rest.actions) == (p + q) + rest.actions;
    assert s + (t + rest.sent) == (s + t) + rest.sent;
  }

  /** One round of the pagination loop, seen from the whole run: what is left
      of the run after `windows` answers is a checkpoint of the current cursor
      followed either by the end (no answer left, or a window that stops the
      worker) or by the rest of the run from the next cursor. */
  lemma PaginateFrom(url: string, since: int, interval: int, subs: seq<Subscription>,
                     trace: seq<Action>, sent: seq<RelayEvent>, windows: nat, cursor: int)
    requires windows <= |subs|
    requires Paginate(url, since, interval, subs) == After(trace, sent, windows, Paginate(url, cursor, interval, subs[windows..]))
    ensures windows == |subs| ==>
      Paginate(url, since, interval, subs) == Run(trace + [Checkpoint(url, cursor)], sent, cursor, windows, Pending)
    ensures windows < |subs| ==>
      var step := WindowStep(url, cursor, interval, subs[windows]);
      var trace' := trace + [Checkpoint(url, cursor)] + step.actions;
      if step.stop.Some? then
        Paginate(url, since, interval, subs) == Run(trace', sent + step.sent, step.cursor, windows + 1, step.stop.value)
      else
        Paginate(url, since, interval, subs)
          == After(trace', sent + step.sent, windows + 1, Paginate(url, step.cursor, interval, subs[windows + 1..]))
  {
    if windows < |subs| {
      assert subs[windows..][0] == subs[windows] && subs[windows..][1..] == subs[windows + 1..];
      var step := WindowStep(url, cursor, interval, subs[windows]);
      assert trace + ([Checkpoint(url, cursor)] + step.actions) == trace + [Checkpoint(url, cursor)] + step.actions;
      if step.stop.None? {
        AfterAppend(trace, sent, windows, [Checkpoint(url, cursor)] + step.actions, step.sent, 1,
                    Paginate(url, step.cursor, interval, subs[windows + 1..]));
      }
    } else {
      assert subs[windows..] == [];
    }
  }

  /** The inner loop of a window: every received event is forwarded, tagged
      with its relay, whatever its timestamp; the cursor is compared with each
      event and lowered to it when the event is older; `keepGoing` records that
      something arrived. */
  method ConsumeWindow(url: string, start: int, events: seq<Event>)
    returns (cursor: int, forwarded: seq<RelayEvent>, keepGoing: bool)
    ensures cursor == WindowCursor(start, events)
    ensures forwarded == Tag(url, events)
    ensures keepGoing <==> events != []
  {
    cursor, forwarded, keepGoing := start, [], false;
    var i := 0;
    while i < |events|
      invariant 0 <= i <= |events|
      invariant keepGoing == (i > 0)
      invariant cursor == WindowCursor(start, events[..i])
      invariant forwarded == Tag(url, events[..i])
    {
      assert events[..i + 1][..i] == events[..i];
      assert Tag(url, events[..i + 1]) == Tag(url, events[..i]) + [RelayEvent(events[i], url)];
      keepGoing := true;
      forwarded := forwarded + [RelayEvent(events[i], url)];
      if events[i].createdAt < cursor {
        cursor := events[i].createdAt;
      }
      i := i + 1;
    }
    assert events[..i] == events;
  }

  /** One window after its checkpoint: subscribe with the cursor as upper bound,
      consume what arrives, release the subscription unless the event channel
      was closed, and decide whether to sleep and go on. */
  method ServeWindow(url: string, cursor: int, interval: int, answer: Subscription)
    returns (actions: seq<Action>, sent: seq<RelayEvent>, next: int, stop: Option<Outcome>)
    ensures Step(actions, sent, next, stop) == WindowStep(url, cursor, interval, answer)
  {
    actions := [Subscribe(cursor)];
    if answer.Refused? {
      return actions, [], cursor, Some(SubscribeFailed);
    }
    var keepGoing;
    next, sent, keepGoing := ConsumeWindow(url, cursor, answer.window.events);
    match answer.window.end {
      case Cancel =>
        return actions + [Unsubscribe], sent, next, Some(Cancelled);
      case Drained =>
      case Eose =>
        actions := actions + [Unsubscribe];
      case ClosedByRelay =>
        actions := actions + [Unsubscribe];
    }
    if !keepGoing {
      return actions, sent, next, Some(Exhausted);
    }
    actions := actions + [Sleep(interval)];
    stop := None;
  }

  /** The relay list once the checkpoints of one relay have been applied:
      untouched if there was none, otherwise carrying the last one. */
  function Checkpointed(rs: seq<RelayConfig>, url: string, format: int -> string, last: Option<int>): seq<RelayConfig>
  {
    match last
    case None => rs
    case Some(c) => Retimed(rs, url, format(c))
  }

  /** The file rewrites made by the checkpoints among `actions`, in order:
      each checkpoint of cursor `c` rewrites, with `format(c)`, the entries of
      `rs` carrying its URL whose read succeeds. */
  function CheckpointEdits(rs: seq<RelayConfig>, path: string, format: int -> string, unreadable: set<int>,
                           actions: seq<Action>): seq<Edit>
    decreases |actions|
  {
    if actions == [] then []
    else
      var a := actions[|actions| - 1];
      CheckpointEdits(rs, path, format, unreadable, actions[..|actions| - 1])
        + (if a.Checkpoint? then Edits(rs, path, a.url, format(a.until), unreadable) else [])
  }

  lemma CheckpointEditsAppend(rs: seq<RelayConfig>, path: string, format: int -> string, unreadable: set<int>,
                              actions: seq<Action>, a: Action)
    ensures CheckpointEdits(rs, path, format, unreadable, actions + [a])
      == CheckpointEdits(rs, path, format, unreadable, actions)
         + (if a.Checkpoint? then Edits(rs, path, a.url, format(a.until), unreadable) else [])
  {
    assert (actions + [a])[..|actions|] == actions;
  }

  lemma {:induction false} CheckpointEditsSkip(rs: seq<RelayConfig>, path: string, format: int -> string,
                                               unreadable: set<int>, actions: seq<Action>, more: seq<Action>)
    requires forall a <- more :: !a.Checkpoint?
    ensures CheckpointEdits(rs, path, format, unreadable, actions + more)
      == CheckpointEdits(rs, path, format, unreadable, actions)
    decreases |more|
  {
    if more != [] {
      var n := |more| - 1;
      assert actions + more == (actions + more[..n]) + [more[n]];
      CheckpointEditsAppend(rs, path, format, unreadable, actions + more[..n], more[n]);
      CheckpointEditsSkip(rs, path, format, unreadable, actions, more[..n]);
    } else {
      assert actions + more == actions;
    }
  }

  /** The checkpoint at the top of each pagination round: UpdateUntil with the
      relay's URL and the current cursor. Whatever was checkpointed before, the
      list afterwards carries this cursor on this relay's entries only. */
  method SaveCursor(config: AppConfig, url: string, cursor: int, format: int -> string, unreadable: set<int>,
                    ghost rs: seq<RelayConfig>, ghost last: Option<int>)
    returns (edits: seq<Edit>)
    requires config.relays[..] == Checkpointed(rs, url, format, last)
    modifies config.relays
    ensures config.relays[..] == Checkpointed(rs, url, format, Some(cursor))
    ensures edits == Edits(old(config.relays[..]), config.path, url, format(cursor), unreadable)
    ensures edits == Edits(rs, config.path, url, format(cursor), unreadable)
  {
    ghost var current := config.relays[..];
    edits := config.UpdateUntil(url, cursor, format, unreadable);
    RetimedChangesOnlyMatches(rs, url, format(cursor));
    if last.Some? {
      RetimedOverwrites(rs, url, format(last.value), format(cursor));
      RetimedChangesOnlyMatches(rs, url, format(last.value));
      EditsFollowUrls(current, rs, config.path, url, format(cursor), unreadable);
    }
  }

  /** One worker: it connects, then repeatedly checkpoints its cursor through
      UpdateUntil, subscribes with that cursor as the upper bound, forwards
      every event of the window while lowering the cursor, and decides whether
      to sleep and open another window. `format` renders a cursor for the
      configuration, `unreadable` is where the configuration file cannot be read.
      The run is the one Worker describes, the shared configuration holds the
      last checkpoint, and the file rewrites are those of the run's checkpoints,
      in order. */
  method RunWorker(config: AppConfig, w: Launch, connected: bool, subs: seq<Subscription>,
                   format: int -> string, unreadable: set<int>)
    returns (trace: seq<Action>, sent: seq<RelayEvent>, cursor: int, windows: nat, outcome: Outcome, edits: seq<Edit>)
    modifies config.relays
    ensures Run(trace, sent, cursor, windows, outcome) == Worker(w, connected, subs)
    ensures config.relays[..] == Checkpointed(old(config.relays[..]), w.url, format, LastCheckpoint(trace))
    ensures edits == CheckpointEdits(old(config.relays[..]), config.path, format, unreadable, trace)
  {
    ghost var rs := config.relays[..];
    trace, sent, cursor, windows, edits := [], [], w.since, 0, [];
    if !connected {
      outcome := ConnectFailed;
      return;
    }
    while true
      invariant windows <= |subs|
      invariant Paginate(w.url, w.since, w.interval, subs)
        == After(trace, sent, windows, Paginate(w.url, cursor, w.interval, subs[windows..]))
      invariant config.relays[..] == Checkpointed(rs, w.url, format, LastCheckpoint(trace))
      invariant edits == CheckpointEdits(rs, config.path, format, unreadable, trace)
      decreases |subs| - windows
    {
      // checkpoint the cursor before opening the window
      ghost var before := trace;
      var written := SaveCursor(config, w.url, cursor, format, unreadable, rs, LastCheckpoint(trace));
      LastCheckpointAppend(trace, Checkpoint(w.url, cursor));
      CheckpointEditsAppend(rs, config.path, format, unreadable, trace, Checkpoint(w.url, cursor));
      trace := trace + [Checkpoint(w.url, cursor)];
      edits := edits + written;
      if windows == |subs| {
        PaginateFrom(w.url, w.since, w.interval, subs, before, sent, windows, cursor);
        outcome := Pending;
        return;
      }
      var actions, forwarded, stop;
      ghost var start := cursor;
      actions, forwarded, cursor, stop := ServeWindow(w.url, cursor, w.interval, subs[windows]);
      PaginateFrom(w.url, w.since, w.interval, subs, before, sent, windows, start);
      LastCheckpointsAppend(trace, actions);
      CheckpointEditsSkip(rs, config.path, format, unreadable, trace, actions);
      trace := trace + actions;
      sent := sent + forwarded;
      windows := windows + 1;
      if stop.Some? {
        outcome := stop.value;
        return;
      }
    }
  }
}
