/** What a relay's pagination run guarantees, proved about Paginator.Paginate
    and therefore, through RunWorker's postcondition, about the worker loop. */
module PaginatorProperties {
  import opened Events
  import opened Config
  import opened Paginator

  /** No event of `events` is older than `c`. */
  ghost predicate NoneBelow(events: seq<Event>, c: int)
  {
    forall e <- events :: c <= e.createdAt
  }

  lemma TagAppend(url: string, a: seq<Event>, b: seq<Event>)
    ensures Tag(url, a + b) == Tag(url, a) + Tag(url, b)
  {
  }

  /** One window forwards what it delivered, moves the cursor to the window
      minimum, and lets the worker go on exactly when it `Continues`. */
  lemma StepFacts(url: string, c: int, interval: int, s: Subscription)
    ensures WindowStep(url, c, interval, s).sent == Tag(url, Delivered(s))
    ensures WindowStep(url, c, interval, s).cursor == WindowCursor(c, Delivered(s))
    ensures WindowStep(url, c, interval, s).stop.None? <==> Continues(s)
    ensures WindowStep(url, c, interval, s).stop.Some? ==> WindowStep(url, c, interval, s).stop.value == Ending(s)
    ensures Unsubscribe in WindowStep(url, c, interval, s).actions <==> s.Opened? && s.window.end != Drained
  {
  }

  lemma ReceivedFirst(subs: seq<Subscription>, n: nat)
    requires 0 < n <= |subs|
    ensures Received(subs[..n]) == Delivered(subs[0]) + Received(subs[1..][..n - 1])
  {
    assert subs[..n][0] == subs[0];
    assert subs[..n][1..] == subs[1..][..n - 1];
  }

  lemma LowestCompose(m: int, mid: int, start: int, a: seq<Event>, b: seq<Event>)
    requires IsLowest(mid, start, a) && IsLowest(m, mid, b)
    ensures IsLowest(m, start, a + b)
  {
    if m != start {
      if m == mid {
        var e :| e in a && e.createdAt == mid;
        assert e in a + b;
      } else {
        var e :| e in b && e.createdAt == m;
        assert e in a + b;
      }
    }
  }

  /** The window minimum does not depend on the order in which the events
      arrive: any rearrangement of a window gives the same cursor. */
  lemma WindowCursorOrderFree(start: int, a: seq<Event>, b: seq<Event>)
    requires multiset(a) == multiset(b)
    ensures WindowCursor(start, a) == WindowCursor(start, b)
  {
    var ra, rb := WindowCursor(start, a), WindowCursor(start, b);
    if ra != start {
      var e :| e in a && e.createdAt == ra;
      assert e in multiset(b);
    }
    if rb != start {
      var e :| e in b && e.createdAt == rb;
      assert e in multiset(a);
    }
  }

  /** Every event received is sent to the output stream, tagged with the
      relay, in arrival order, whatever its timestamp, and nothing else is sent. */
  lemma {:induction false} SentIsEveryReceivedEvent(url: string, c: int, interval: int, subs: seq<Subscription>)
    ensures Paginate(url, c, interval, subs).windows <= |subs|
    ensures Paginate(url, c, interval, subs).sent
      == Tag(url, Received(subs[..Paginate(url, c, interval, subs).windows]))
    decreases |subs|
  {
    if subs != [] {
      var step := WindowStep(url, c, interval, subs[0]);
      StepFacts(url, c, interval, subs[0]);
      if step.stop.Some? {
        ReceivedFirst(subs, 1);
      } else {
        var rest := Paginate(url, step.cursor, interval, subs[1..]);
        SentIsEveryReceivedEvent(url, step.cursor, interval, subs[1..]);
        ReceivedFirst(subs, rest.windows + 1);
        TagAppend(url, Delivered(subs[0]), Received(subs[1..][..rest.windows]));
      }
    }
  }

  /** The final cursor is the least of the seed cursor and of every timestamp
      received during the run, whatever the arrival order. */
  lemma {:induction false} CursorIsRunningMinimum(url: string, c: int, interval: int, subs: seq<Subscription>)
    ensures Paginate(url, c, interval, subs).windows <= |subs|
    ensures IsLowest(Paginate(url, c, interval, subs).cursor, c,
                     Received(subs[..Paginate(url, c, interval, subs).windows]))
    decreases |subs|
  {
    if subs == [] {
      assert subs[..0] == [];
    } else {
      var step := WindowStep(url, c, interval, subs[0]);
      StepFacts(url, c, interval, subs[0]);
      if step.stop.Some? {
        FirstWindowLowest(url, c, interval, subs);
      } else {
        CursorIsRunningMinimum(url, step.cursor, interval, subs[1..]);
        LaterWindowsLowest(url, c, interval, subs);
      }
    }
  }

  /** A run that goes past its first window ends at the least of that window's
      minimum and of what the rest of the run received. */
  lemma LaterWindowsLowest(url: string, c: int, interval: int, subs: seq<Subscription>)
    requires subs != [] && WindowStep(url, c, interval, subs[0]).stop.None?
    requires var next := WindowStep(url, c, interval, subs[0]).cursor;
      var rest := Paginate(url, next, interval, subs[1..]);
      rest.windows <= |subs| - 1 && IsLowest(rest.cursor, next, Received(subs[1..][..rest.windows]))
    ensures Paginate(url, c, interval, subs).windows <= |subs|
    ensures IsLowest(Paginate(url, c, interval, subs).cursor, c,
                     Received(subs[..Paginate(url, c, interval, subs).windows]))
  {
    var step := WindowStep(url, c, interval, subs[0]);
    StepFacts(url, c, interval, subs[0]);
    var rest := Paginate(url, step.cursor, interval, subs[1..]);
    ReceivedFirst(subs, rest.windows + 1);
    LowestCompose(rest.cursor, step.cursor, c, Delivered(subs[0]), Received(subs[1..][..rest.windows]));
  }

  /** A run that stops at its first window ends at that window's minimum. */
  lemma FirstWindowLowest(url: string, c: int, interval: int, subs: seq<Subscription>)
    requires subs != [] && WindowStep(url, c, interval, subs[0]).stop.Some?
    ensures Paginate(url, c, interval, subs).windows == 1
    ensures IsLowest(Paginate(url, c, interval, subs).cursor, c, Received(subs[..1]))
  {
    StepFacts(url, c, interval, subs[0]);
    ReceivedFirst(subs, 1);
    assert subs[1..][..0] == [];
    assert Delivered(subs[0]) + [] == Delivered(subs[0]);
  }

  /** Every checkpoint among `actions` is of relay `url` and lies in [lo, hi]. */
  ghost predicate CheckpointsWithin(actions: seq<Action>, url: string, lo: int, hi: int)
  {
    forall i :: 0 <= i < |actions| && actions[i].Checkpoint? ==>
      actions[i].url == url && lo <= actions[i].until <= hi
  }

  /** Successive checkpoints among `actions` never increase. */
  ghost predicate CheckpointsDescend(actions: seq<Action>)
  {
    forall i, j :: 0 <= i < j < |actions| && actions[i].Checkpoint? && actions[j].Checkpoint? ==>
      actions[j].until <= actions[i].until
  }

  /** Every subscription among `actions` comes right after a checkpoint of
      relay `url` at the subscription's own upper bound. */
  ghost predicate SubscribesGuarded(actions: seq<Action>, url: string)
  {
    forall j :: 0 <= j < |actions| && actions[j].Subscribe? ==>
      0 < j && actions[j - 1] == Checkpoint(url, actions[j].until)
  }

  /** A checkpoint at `c`, then actions without checkpoints, then a run whose
      checkpoints descend within [lo, mid] with mid <= c: all the checkpoints
      descend within [lo, c]. */
  lemma JoinCheckpoints(url: string, c: int, more: seq<Action>, rest: seq<Action>, lo: int, mid: int)
    requires forall a <- more :: !a.Checkpoint?
    requires lo <= mid <= c
    requires CheckpointsWithin(rest, url, lo, mid) && CheckpointsDescend(rest)
    ensures CheckpointsWithin([Checkpoint(url, c)] + more + rest, url, lo, c)
    ensures CheckpointsDescend([Checkpoint(url, c)] + more + rest)
  {
    var pre := [Checkpoint(url, c)] + more;
    var all := pre + rest;
    forall i | 0 < i < |pre| ensures !pre[i].Checkpoint? {
      assert pre[i] in more;
    }
    forall i | 0 <= i < |all| && all[i].Checkpoint?
      ensures all[i].url == url && lo <= all[i].until <= c
    {
      if |pre| <= i {
        assert all[i] == rest[i - |pre|];
      }
    }
    forall i, j | 0 <= i < j < |all| && all[i].Checkpoint? && all[j].Checkpoint?
      ensures all[j].until <= all[i].until
    {
      assert |pre| <= j && all[j] == rest[j - |pre|];
      if |pre| <= i {
        assert all[i] == rest[i - |pre|];
      }
    }
  }

  /** A checkpoint at `c`, then a subscription at `c` and actions that are not
      subscriptions, then a run whose subscriptions are guarded: every
      subscription is guarded. */
  lemma JoinSubscribes(url: string, c: int, more: seq<Action>, rest: seq<Action>)
    requires |more| > 0 && more[0] == Subscribe(c)
    requires forall j :: 0 < j < |more| ==> !more[j].Subscribe?
    requires SubscribesGuarded(rest, url)
    ensures SubscribesGuarded([Checkpoint(url, c)] + more + rest, url)
  {
    var pre := [Checkpoint(url, c)] + more;
    var all := pre + rest;
    forall j | 0 <= j < |all| && all[j].Subscribe?
      ensures 0 < j && all[j - 1] == Checkpoint(url, all[j].until)
    {
      if |pre| <= j {
        assert all[j] == rest[j - |pre|];
        assert all[j - 1] == rest[j - 1 - |pre|];
      } else {
        assert all[j] == more[j - 1];
      }
    }
  }

  /** Every checkpoint is of this relay and lies between the final cursor and
      the seed cursor, and the checkpointed cursor never increases. */
  lemma {:induction false} CheckpointsNeverIncrease(url: string, c: int, interval: int, subs: seq<Subscription>)
    ensures Paginate(url, c, interval, subs).cursor <= c
    ensures CheckpointsWithin(Paginate(url, c, interval, subs).actions, url, Paginate(url, c, interval, subs).cursor, c)
    ensures CheckpointsDescend(Paginate(url, c, interval, subs).actions)
    decreases |subs|
  {
    if subs != [] {
      var step := WindowStep(url, c, interval, subs[0]);
      if step.stop.None? {
        var rest := Paginate(url, step.cursor, interval, subs[1..]);
        CheckpointsNeverIncrease(url, step.cursor, interval, subs[1..]);
        JoinCheckpoints(url, c, step.actions, rest.actions, rest.cursor, step.cursor);
      } else {
        JoinCheckpoints(url, c, step.actions, [], step.cursor, step.cursor);
        assert [Checkpoint(url, c)] + step.actions + [] == [Checkpoint(url, c)] + step.actions;
      }
    }
  }

  /** The run opens with a checkpoint of the seed cursor, and every
      subscription comes right after the checkpoint of the very cursor it uses
      as its upper bound. */
  lemma {:induction false} CheckpointPrecedesSubscribe(url: string, c: int, interval: int, subs: seq<Subscription>)
    ensures Paginate(url, c, interval, subs).actions[0] == Checkpoint(url, c)
    ensures SubscribesGuarded(Paginate(url, c, interval, subs).actions, url)
    decreases |subs|
  {
    if subs != [] {
      var step := WindowStep(url, c, interval, subs[0]);
      forall j | 0 < j < |step.actions| ensures !step.actions[j].Subscribe? {
      }
      if step.stop.None? {
        var rest := Paginate(url, step.cursor, interval, subs[1..]);
        CheckpointPrecedesSubscribe(url, step.cursor, interval, subs[1..]);
        JoinSubscribes(url, c, step.actions, rest.actions);
      } else {
        JoinSubscribes(url, c, step.actions, []);
        assert [Checkpoint(url, c)] + step.actions + [] == [Checkpoint(url, c)] + step.actions;
      }
    }
  }

  /** Every checkpoint but the first comes right after a pause of the
      configured interval, and every pause is followed at once by a
      checkpoint. */
  ghost predicate SleepsBetweenWindows(actions: seq<Action>, interval: int)
  {
    && (forall j :: 0 < j < |actions| && actions[j].Checkpoint? ==> actions[j - 1] == Sleep(interval))
    && (forall j :: 0 <= j < |actions| && actions[j].Sleep? ==>
          actions[j] == Sleep(interval) && j + 1 < |actions| && actions[j + 1].Checkpoint?)
  }

  /** A checkpoint, then one window's actions, then the rest of the run: the
      pauses stay between windows when the window ends with the pause and the
      rest opens with a checkpoint. */
  lemma JoinSleeps(url: string, c: int, interval: int, more: seq<Action>, rest: seq<Action>)
    requires |more| > 0 && more[|more| - 1] == Sleep(interval)
    requires forall a <- more :: !a.Checkpoint?
    requires forall j :: 0 <= j < |more| - 1 ==> !more[j].Sleep?
    requires |rest| > 0 && rest[0].Checkpoint?
    requires SleepsBetweenWindows(rest, interval)
    ensures SleepsBetweenWindows([Checkpoint(url, c)] + more + rest, interval)
  {
    var pre := [Checkpoint(url, c)] + more;
    var all := pre + rest;
    forall j | 0 < j < |all| && all[j].Checkpoint? ensures all[j - 1] == Sleep(interval) {
      if j == |pre| {
        assert all[j - 1] == more[|more| - 1];
      } else if |pre| < j {
        assert all[j] == rest[j - |pre|] && all[j - 1] == rest[j - 1 - |pre|];
      }
    }
    forall j | 0 <= j < |all| && all[j].Sleep?
      ensures all[j] == Sleep(interval) && j + 1 < |all| && all[j + 1].Checkpoint?
    {
      if |pre| <= j {
        assert all[j] == rest[j - |pre|];
        assert j + 1 - |pre| < |rest| && all[j + 1] == rest[j + 1 - |pre|];
      } else if 0 < j {
        assert all[j] == more[j - 1];
        assert j == |pre| - 1 && all[j + 1] == rest[0];
      }
    }
  }

  /** A window that stops the worker has no pause in it. */
  lemma JoinFinal(url: string, c: int, interval: int, more: seq<Action>)
    requires forall a <- more :: !a.Checkpoint? && !a.Sleep?
    ensures SleepsBetweenWindows([Checkpoint(url, c)] + more, interval)
  {
    var all := [Checkpoint(url, c)] + more;
    forall j | 0 < j < |all| ensures !all[j].Checkpoint? && !all[j].Sleep? {
      assert all[j] == more[j - 1];
    }
  }

  /** The worker pauses for its interval after every window that lets it go
      on, and only there: each later checkpoint, and so each later window,
      comes right after a pause, and each pause leads straight to the next
      checkpoint. */
  lemma {:induction false} SleepBeforeLaterCheckpoints(url: string, c: int, interval: int, subs: seq<Subscription>)
    ensures SleepsBetweenWindows(Paginate(url, c, interval, subs).actions, interval)
    decreases |subs|
  {
    if subs == [] {
      JoinFinal(url, c, interval, []);
      assert [Checkpoint(url, c)] + [] == [Checkpoint(url, c)];
    } else {
      var step := WindowStep(url, c, interval, subs[0]);
      if step.stop.None? {
        var rest := Paginate(url, step.cursor, interval, subs[1..]);
        SleepBeforeLaterCheckpoints(url, step.cursor, interval, subs[1..]);
        CheckpointPrecedesSubscribe(url, step.cursor, interval, subs[1..]);
        JoinSleeps(url, c, interval, step.actions, rest.actions);
      } else {
        JoinFinal(url, c, interval, step.actions);
      }
    }
  }

  /** The run goes on exactly while windows deliver events without being
      cancelled: every window before the last one did, and the run ends on the
      first that does not (with the matching outcome) or when the answers run
      out (Pending). */
  lemma {:induction false} StopsAtFirstTerminalWindow(url: string, c: int, interval: int, subs: seq<Subscription>)
    ensures Paginate(url, c, interval, subs).windows <= |subs|
    ensures forall k :: 0 <= k < Paginate(url, c, interval, subs).windows - 1 ==> Continues(subs[k])
    ensures Paginate(url, c, interval, subs).outcome == Pending <==>
      Paginate(url, c, interval, subs).windows == |subs| && forall k :: 0 <= k < |subs| ==> Continues(subs[k])
    ensures var r := Paginate(url, c, interval, subs);
      r.outcome != Pending ==> 0 < r.windows && !Continues(subs[r.windows - 1]) && r.outcome == Ending(subs[r.windows - 1])
    decreases |subs|
  {
    if subs != [] {
      var step := WindowStep(url, c, interval, subs[0]);
      StepFacts(url, c, interval, subs[0]);
      if step.stop.None? {
        var rest := Paginate(url, step.cursor, interval, subs[1..]);
        StopsAtFirstTerminalWindow(url, step.cursor, interval, subs[1..]);
        forall k | 0 < k < |subs| ensures subs[k] == subs[1..][k - 1] {
        }
      }
    }
  }

  /** A cancelled run ends by releasing the subscription of the window that
      was cancelled, right after that window's checkpoint and request: no
      further checkpoint or window follows. */
  lemma {:induction false} CancellationReleasesSubscription(url: string, c: int, interval: int, subs: seq<Subscription>)
    ensures var r := Paginate(url, c, interval, subs);
      r.outcome == Cancelled ==>
        && |r.actions| >= 3
        && r.actions[|r.actions| - 1] == Unsubscribe
        && r.actions[|r.actions| - 2].Subscribe?
        && r.actions[|r.actions| - 3] == Checkpoint(url, r.actions[|r.actions| - 2].until)
    decreases |subs|
  {
    if subs != [] {
      var r := Paginate(url, c, interval, subs);
      var step := WindowStep(url, c, interval, subs[0]);
      if step.stop.None? {
        var pre := [Checkpoint(url, c)] + step.actions;
        var rest := Paginate(url, step.cursor, interval, subs[1..]);
        CancellationReleasesSubscription(url, step.cursor, interval, subs[1..]);
        assert r.actions == pre + rest.actions;
        if rest.outcome == Cancelled {
          var n := |rest.actions|;
          assert r.actions[|r.actions| - 1] == rest.actions[n - 1];
          assert r.actions[|r.actions| - 2] == rest.actions[n - 2];
          assert r.actions[|r.actions| - 3] == rest.actions[n - 3];
        }
      }
    }
  }

  /** Windows that deliver events, none of them older than the cursor, leave
      the cursor where it is and keep the worker polling: with the inclusive
      `until` bound, a relay that keeps returning the event at the boundary
      keeps the worker re-opening the same window. */
  lemma {:induction false} NoOlderEventKeepsPolling(url: string, c: int, interval: int, subs: seq<Subscription>)
    requires forall k :: 0 <= k < |subs| ==> Continues(subs[k]) && NoneBelow(subs[k].window.events, c)
    ensures var r := Paginate(url, c, interval, subs);
      r.outcome == Pending && r.cursor == c && r.windows == |subs|
    ensures var r := Paginate(url, c, interval, subs);
      forall i :: 0 <= i < |r.actions| && r.actions[i].Checkpoint? ==> r.actions[i] == Checkpoint(url, c)
    decreases |subs|
  {
    CheckpointsNeverIncrease(url, c, interval, subs);
    if subs != [] {
      var step := WindowStep(url, c, interval, subs[0]);
      StepFacts(url, c, interval, subs[0]);
      var events := subs[0].window.events;
      assert NoneBelow(events, c);
      assert WindowCursor(c, events) == c;
      NoOlderEventKeepsPolling(url, c, interval, subs[1..]);
    }
  }

  /** When every read of the file succeeds, replaying on the file's cursor
      column the rewrites of a sequence of checkpoints of relay `url` leaves it
      equal to the in-memory cursors after those checkpoints. */
  lemma {:induction false} FileFollowsCheckpoints(rs: seq<RelayConfig>, path: string, url: string,
                                                  format: int -> string, actions: seq<Action>)
    requires forall i :: 0 <= i < |actions| && actions[i].Checkpoint? ==> actions[i].url == url
    ensures ApplyEdits(Untils(rs), CheckpointEdits(rs, path, format, {}, actions))
      == Untils(Checkpointed(rs, url, format, LastCheckpoint(actions)))
    decreases |actions|
  {
    if actions != [] {
      var n := |actions| - 1;
      var a := actions[n];
      assert actions[..n] + [a] == actions;
      FileFollowsCheckpoints(rs, path, url, format, actions[..n]);
      LastCheckpointAppend(actions[..n], a);
      CheckpointEditsAppend(rs, path, format, {}, actions[..n], a);
      if a.Checkpoint? {
        var last := LastCheckpoint(actions[..n]);
        var mid := Checkpointed(rs, url, format, last);
        var u := format(a.until);
        ApplyEditsAppend(Untils(rs), CheckpointEdits(rs, path, format, {}, actions[..n]), Edits(rs, path, url, u, {}));
        if last.Some? {
          RetimedChangesOnlyMatches(rs, url, format(last.value));
          RetimedOverwrites(rs, url, format(last.value), u);
        }
        EditsFollowUrls(rs, mid, path, url, u, {});
        PersistedMatchesMemory(mid, path, url, u);
      } else {
        var before := CheckpointEdits(rs, path, format, {}, actions[..n]);
        assert before + [] == before;
        assert CheckpointEdits(rs, path, format, {}, actions) == before;
        assert LastCheckpoint(actions) == LastCheckpoint(actions[..n]);
      }
    }
  }

  /** For a whole worker, when every read succeeds: a file whose cursors
      matched memory before the run matches it again afterwards, since every
      checkpoint of the run is of the worker's own relay. */
  lemma WorkerFileMatchesMemory(rs: seq<RelayConfig>, path: string, w: Launch, connected: bool,
                                subs: seq<Subscription>, format: int -> string)
    ensures var actions := Worker(w, connected, subs).actions;
      ApplyEdits(Untils(rs), CheckpointEdits(rs, path, format, {}, actions))
        == Untils(Checkpointed(rs, w.url, format, LastCheckpoint(actions)))
  {
    var actions := Worker(w, connected, subs).actions;
    if connected {
      CheckpointsNeverIncrease(w.url, w.since, w.interval, subs);
    }
    FileFollowsCheckpoints(rs, path, w.url, format, actions);
  }

  /** Every checkpoint of a run reaches the file: for each checkpoint of cursor
      `c`, every entry of its relay whose read succeeds is rewritten to
      `format(c)`. */
  lemma {:induction false} CheckpointsReachFile(rs: seq<RelayConfig>, path: string, format: int -> string,
                                                unreadable: set<int>, actions: seq<Action>)
    ensures forall i, k ::
      (0 <= i < |actions| && actions[i].Checkpoint? && 0 <= k < |rs| && rs[k].url == actions[i].url && k !in unreadable)
        ==> Edit(path, k, format(actions[i].until)) in CheckpointEdits(rs, path, format, unreadable, actions)
    decreases |actions|
  {
    if actions != [] {
      var n := |actions| - 1;
      var a := actions[n];
      CheckpointsReachFile(rs, path, format, unreadable, actions[..n]);
      var edits := CheckpointEdits(rs, path, format, unreadable, actions);
      var tail := if a.Checkpoint? then Edits(rs, path, a.url, format(a.until), unreadable) else [];
      assert edits == CheckpointEdits(rs, path, format, unreadable, actions[..n]) + tail;
      if a.Checkpoint? {
        EditsCoverMatches(rs, path, a.url, format(a.until), unreadable);
      }
      forall i, k | 0 <= i < |actions| && actions[i].Checkpoint? && 0 <= k < |rs| && rs[k].url == actions[i].url
                    && k !in unreadable
        ensures Edit(path, k, format(actions[i].until)) in edits
      {
        if i < n {
          assert actions[..n][i] == actions[i];
        }
      }
    }
  }
}
