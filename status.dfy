/** The status display's state machine (tui.go): per-kind counters, per-relay
    statistics, the number of stored events and the quit flag, updated one
    message at a time. Rendering, the spinner animation and the program loop
    that feeds the messages are not modelled. */
module Status {

  /** The date a relay's statistics start from: the largest 32-bit signed
      integer, so that the first event seen replaces it. */
  const MaxInt32: int := 0x7fff_ffff

  /** Per-relay statistics: events seen, pagination offset, and the oldest
      creation date seen (Unix seconds). */
  datatype RelayStats = RelayStats(url: string, seen: int, offset: int, date: int)

  /** The messages the display handles. */
  datatype Msg =
    | KeyPress                                              // any key
    | Insert                                                // UIInsertMsg: an event was stored
    | RelayPagination(url: string)                          // UIRelayPaginationMsg
    | RelayEventSeen(url: string, kind: int, createdAt: int)  // UIRelayEventMsg
    | SpinnerTick                                           // the spinner's animation tick
    | Unrecognised                                          // any other message

  /** The command handed back with the new state. */
  datatype Cmd = NoCmd | Quit | SpinnerCmd

  /** The counters of the display. */
  datatype UIState = UIState(kinds: map<int, int>, relays: map<string, RelayStats>,
                             total: int, responses: int, quitting: bool)

  /** The state the display starts in: both maps empty, every counter zero. */
  function Initial(): UIState
  {
    UIState(map[], map[], 0, 0, false)
  }

  /** A relay seen for the first time. */
  function NewRelay(url: string): RelayStats
  {
    RelayStats(url, 0, 1, MaxInt32)
  }

  /** A relay's statistics, or a new entry when it has none yet. */
  function StatsOf(s: UIState, url: string): RelayStats
  {
    if url in s.relays then s.relays[url] else NewRelay(url)
  }

  /** A kind's counter, zero when the kind has not been seen. */
  function KindCount(kinds: map<int, int>, kind: int): int
  {
    if kind in kinds then kinds[kind] else 0
  }

  /** The display's answer to one message: the new state and the command. */
  function Next(s: UIState, m: Msg): (UIState, Cmd)
  {
    match m
    case KeyPress => (s.(quitting := true), Quit)
    case Insert => (s.(total := s.total + 1), NoCmd)
    case RelayPagination(url) =>
      var stats := StatsOf(s, url);
      (s.(relays := s.relays[url := stats.(offset := stats.offset + 1)]), NoCmd)
    case RelayEventSeen(url, kind, createdAt) =>
      var stats := StatsOf(s, url);
      var date := if stats.date > createdAt then createdAt else stats.date;
      (s.(relays := s.relays[url := stats.(seen := stats.seen + 1, date := date)],
          kinds := s.kinds[kind := KindCount(s.kinds, kind) + 1]), NoCmd)
    case SpinnerTick => (s, SpinnerCmd)
    case Unrecognised => (s, NoCmd)
  }

  /** The state after handling `msgs` in order. */
  function Replay(s: UIState, msgs: seq<Msg>): UIState
    decreases |msgs|
  {
    if msgs == [] then s else Replay(Next(s, msgs[0]).0, msgs[1..])
  }

  /** The display model. The source's Update has a value receiver and hands back
      the updated copy, which the program loop keeps; its two maps are shared by
      every copy. The net effect, modelled here, is an update in place. */
  class UI {
    var kinds: map<int, int>
    var relays: map<string, RelayStats>
    var total: int
    var responses: int
    var quitting: bool

    function State(): UIState
      reads this
    {
      UIState(kinds, relays, total, responses, quitting)
    }

    constructor ()
      ensures State() == Initial()
    {
      kinds := map[];
      relays := map[];
      total := 0;
      responses := 0;
      quitting := false;
    }

    /** Returns the relay's statistics; a relay without any is first given a
        new entry (seen 0, offset 1, date MaxInt32), which is stored. An
        existing entry is returned as it is and nothing changes. */
    method GetOrCreateRelay(url: string) returns (r: RelayStats)
      modifies this
      ensures url in old(relays) ==> r == old(relays[url]) && relays == old(relays)
      ensures url !in old(relays) ==> r == RelayStats(url, 0, 1, MaxInt32) && relays == old(relays)[url := r]
      ensures kinds == old(kinds) && total == old(total) && responses == old(responses) && quitting == old(quitting)
    {
      if url !in relays {
        r := RelayStats(url, 0, 1, MaxInt32);
        relays := relays[url := r];
        return;
      }
      r := relays[url];
    }

    /** Adds one to a kind's counter, starting it at zero if absent. */
    method IncrementKind(kind: int)
      modifies this
      ensures kinds == old(kinds)[kind := KindCount(old(kinds), kind) + 1]
      ensures relays == old(relays) && total == old(total) && responses == old(responses) && quitting == old(quitting)
    {
      var k := 0;
      if kind in kinds {
        k := kinds[kind];
      }
      k := k + 1;
      kinds := kinds[kind := k];
    }

    /** Handles one message. */
    method Update(msg: Msg) returns (cmd: Cmd)
      modifies this
      ensures (State(), cmd) == Next(old(State()), msg)
    {
      match msg {
        case KeyPress =>
          quitting := true;
          return Quit;
        case Insert =>
          total := total + 1;
          return NoCmd;
        case RelayPagination(url) =>
          ghost var before := State();
          var stats := GetOrCreateRelay(url);
          stats := stats.(offset := stats.offset + 1);
          relays := relays[url := stats];
          assert relays == before.relays[url := stats];
          return NoCmd;
        case RelayEventSeen(url, kind, createdAt) =>
          ghost var before := State();
          var stats := GetOrCreateRelay(url);
          stats := stats.(seen := stats.seen + 1);
          if stats.date > createdAt {
            stats := stats.(date := createdAt);
          }
          relays := relays[url := stats];
          assert relays == before.relays[url := stats];
          IncrementKind(kind);
          return NoCmd;
        case SpinnerTick =>
          return SpinnerCmd;
        case Unrecognised =>
          return NoCmd;
      }
    }
  }

  /** The sum of a map's values. */
  ghost function Total<K>(m: map<K, int>): int
    decreases |m|
  {
    if m == map[] then 0
    else
      var k :| k in m;
      m[k] + Total(m - {k})
  }

  /** The `seen` counters of the relays, by URL. */
  ghost function SeenCounts(relays: map<string, RelayStats>): map<string, int>
  {
    map u | u in relays :: relays[u].seen
  }

  /** The cross-map invariant: all kind counters add up to all relays' `seen`. */
  ghost predicate CountsAgree(s: UIState)
  {
    Total(s.kinds) == Total(SeenCounts(s.relays))
  }

  /** Taking any one key out of a map takes exactly its value off the sum. */
  lemma {:induction false} TotalRemove<K>(m: map<K, int>, k: K)
    requires k in m
    ensures Total(m) == m[k] + Total(m - {k})
    decreases |m|
  {
    var j :| j in m && Total(m) == m[j] + Total(m - {j});
    if j != k {
      TotalRemove(m - {j}, k);
      TotalRemove(m - {k}, j);
      assert m - {j} - {k} == m - {k} - {j};
    }
  }

  /** Setting one key changes the sum by the difference of the values. */
  lemma TotalUpdate<K>(m: map<K, int>, k: K, v: int)
    ensures Total(m[k := v]) == Total(m) - (if k in m then m[k] else 0) + v
  {
    TotalRemove(m[k := v], k);
    assert m[k := v] - {k} == m - {k};
    if k in m {
      TotalRemove(m, k);
    } else {
      assert m - {k} == m;
    }
  }

  lemma SeenCountsUpdate(relays: map<string, RelayStats>, url: string, stats: RelayStats)
    ensures SeenCounts(relays[url := stats]) == SeenCounts(relays)[url := stats.seen]
  {
  }

  /** An insert notification adds exactly one to `total` and changes nothing
      else. */
  lemma InsertCountsOnce(s: UIState)
    ensures Next(s, Insert).1 == NoCmd
    ensures var r := Next(s, Insert).0;
      r.total == s.total + 1 && r.kinds == s.kinds && r.relays == s.relays
      && r.responses == s.responses && r.quitting == s.quitting
  {
  }

  /** An event notification creates the relay's entry if absent, adds one to
      its `seen` and to the kind's counter, lowers its date to the event's if
      older, and changes no other counter, kind or relay. */
  lemma RelayEventCounts(s: UIState, url: string, kind: int, createdAt: int)
    ensures var r := Next(s, RelayEventSeen(url, kind, createdAt)).0;
      && url in r.relays
      && r.relays[url].url == StatsOf(s, url).url
      && r.relays[url].seen == StatsOf(s, url).seen + 1
      && r.relays[url].offset == StatsOf(s, url).offset
      && r.relays[url].date == (if createdAt < StatsOf(s, url).date then createdAt else StatsOf(s, url).date)
      && r.relays[url].date <= StatsOf(s, url).date
      && kind in r.kinds && r.kinds[kind] == KindCount(s.kinds, kind) + 1
      && (forall k :: k != kind ==> (k in r.kinds <==> k in s.kinds))
      && (forall k :: k != kind && k in s.kinds ==> r.kinds[k] == s.kinds[k])
      && r.total == s.total && r.responses == s.responses && r.quitting == s.quitting
  {
  }

  /** A pagination notification adds one to that relay's offset (creating the
      entry if absent) and changes nothing else. */
  lemma PaginationCounts(s: UIState, url: string)
    ensures var r := Next(s, RelayPagination(url)).0;
      && url in r.relays
      && r.relays[url] == StatsOf(s, url).(offset := StatsOf(s, url).offset + 1)
      && r.kinds == s.kinds && r.total == s.total && r.responses == s.responses && r.quitting == s.quitting
  {
  }

  /** The URL a message is about, if any. */
  function Subject(m: Msg): string
  {
    match m
    case RelayPagination(url) => url
    case RelayEventSeen(url, _, _) => url
    case _ => []
  }

  /** A message about one relay leaves every other relay's statistics as they
      were (messages about no relay leave all of them). */
  lemma OtherRelaysUntouched(s: UIState, m: Msg, other: string)
    requires !(m.RelayPagination? || m.RelayEventSeen?) || other != Subject(m)
    ensures (other in Next(s, m).0.relays) == (other in s.relays)
    ensures other in s.relays ==> Next(s, m).0.relays[other] == s.relays[other]
  {
  }

  /** A key press sets `quitting` and asks to quit; a message the display does
      not recognise leaves it unchanged. */
  lemma KeyPressQuits(s: UIState)
    ensures Next(s, KeyPress) == (s.(quitting := true), Quit)
    ensures Next(s, Unrecognised) == (s, NoCmd)
    ensures Next(s, SpinnerTick).0 == s
  {
  }

  /** A relay's entry, once created, stays, and its date never increases. */
  lemma {:induction false} DatesNeverIncrease(s: UIState, msgs: seq<Msg>, url: string)
    requires url in s.relays
    ensures url in Replay(s, msgs).relays
    ensures Replay(s, msgs).relays[url].date <= s.relays[url].date
    decreases |msgs|
  {
    if msgs != [] {
      var t := Next(s, msgs[0]).0;
      assert url in t.relays && t.relays[url].date <= s.relays[url].date;
      DatesNeverIncrease(t, msgs[1..], url);
    }
  }

  /** One message adds one to the sum of the relays' `seen` counters if it is
      an event notification, and nothing otherwise. */
  lemma SeenTotalStep(s: UIState, m: Msg)
    ensures Total(SeenCounts(Next(s, m).0.relays)) == Total(SeenCounts(s.relays)) + (if m.RelayEventSeen? then 1 else 0)
  {
    match m
    case RelayPagination(url) => PaginationSeenTotal(s, url);
    case RelayEventSeen(url, kind, createdAt) => EventSeenTotal(s, url, kind, createdAt);
    case _ =>
  }

  lemma PaginationSeenTotal(s: UIState, url: string)
    ensures Total(SeenCounts(Next(s, RelayPagination(url)).0.relays)) == Total(SeenCounts(s.relays))
  {
    var stats := StatsOf(s, url);
    SeenCountsUpdate(s.relays, url, stats.(offset := stats.offset + 1));
    TotalUpdate(SeenCounts(s.relays), url, stats.seen);
  }

  lemma EventSeenTotal(s: UIState, url: string, kind: int, createdAt: int)
    ensures Total(SeenCounts(Next(s, RelayEventSeen(url, kind, createdAt)).0.relays)) == Total(SeenCounts(s.relays)) + 1
  {
    var stats := StatsOf(s, url);
    var date := if stats.date > createdAt then createdAt else stats.date;
    SeenCountsUpdate(s.relays, url, stats.(seen := stats.seen + 1, date := date));
    TotalUpdate(SeenCounts(s.relays), url, stats.seen + 1);
  }

  /** One message adds one to the sum of the kind counters if it is an event
      notification, and nothing otherwise. */
  lemma KindTotalStep(s: UIState, m: Msg)
    ensures Total(Next(s, m).0.kinds) == Total(s.kinds) + (if m.RelayEventSeen? then 1 else 0)
  {
    if m.RelayEventSeen? {
      TotalUpdate(s.kinds, m.kind, KindCount(s.kinds, m.kind) + 1);
    }
  }

  /** One message keeps the kind counters and the relays' `seen` counters
      adding up to the same sum. */
  lemma NextKeepsCountsAgreeing(s: UIState, m: Msg)
    requires CountsAgree(s)
    ensures CountsAgree(Next(s, m).0)
  {
    SeenTotalStep(s, m);
    KindTotalStep(s, m);
  }

  /** From the initial state, whatever messages arrive, the kind counters add
      up to the relays' `seen` counters. */
  lemma {:induction false} CountsAgreeFromStart(msgs: seq<Msg>)
    ensures CountsAgree(Replay(Initial(), msgs))
  {
    assert SeenCounts(map[]) == map[];
    CountsAgreeAlong(Initial(), msgs);
  }

  lemma {:induction false} CountsAgreeAlong(s: UIState, msgs: seq<Msg>)
    requires CountsAgree(s)
    ensures CountsAgree(Replay(s, msgs))
    decreases |msgs|
  {
    if msgs != [] {
      NextKeepsCountsAgreeing(s, msgs[0]);
      CountsAgreeAlong(Next(s, msgs[0]).0, msgs[1..]);
    }
  }

  /** How many insert notifications `msgs` holds. */
  function Inserts(msgs: seq<Msg>): nat
    decreases |msgs|
  {
    if msgs == [] then 0 else (if msgs[0].Insert? then 1 else 0) + Inserts(msgs[1..])
  }

  /** How many event notifications `msgs` holds. */
  function Sightings(msgs: seq<Msg>): nat
    decreases |msgs|
  {
    if msgs == [] then 0 else (if msgs[0].RelayEventSeen? then 1 else 0) + Sightings(msgs[1..])
  }

  /** Replaying messages adds one to `total` per insert notification and one
      to the relays' `seen` counters, all together, per event notification. */
  lemma {:induction false} ReplayCounts(s: UIState, msgs: seq<Msg>)
    ensures Replay(s, msgs).total == s.total + Inserts(msgs)
    ensures Total(SeenCounts(Replay(s, msgs).relays)) == Total(SeenCounts(s.relays)) + Sightings(msgs)
    decreases |msgs|
  {
    if msgs != [] {
      var m := msgs[0];
      SeenTotalStep(s, m);
      ReplayCounts(Next(s, m).0, msgs[1..]);
    }
  }
}
