# Nostr harvester — a verified model of its core

The harvester backfills Nostr events from a list of relays into a store. Each
relay has one worker that pages backwards through the relay's history. Every
round, the worker:

1. checkpoints its cursor into the configuration file;
2. subscribes for events created at or before the cursor (the inclusive
   `until` bound of NIP-01);
3. forwards every event it receives;
4. lowers the cursor to the oldest timestamp it saw.

The worker stops when it cannot connect to the relay, when a window brings
nothing, when the relay refuses the subscription, or when the run is
cancelled. Between windows it pauses for the relay's interval. A dispatcher drains the merged
stream. It runs the signature check and the filter on each event, tells the
status display about the event, attempts to save it, and tells the display
again when the save succeeded.

The model has six modules.

- `Wrappers`: Option and Result.
- `Events`: the event and the relay-tagged event.
- `Config` (config.go): the relay descriptors and the shared filter.
  - `AppConfig` is a class whose relay list is an array. The source's
    `UpdateUntil` has a value receiver, so only the slice's shared backing
    array can change. The model's method therefore modifies that array and
    nothing else.
  - The file rewrites are returned as abstract edits `(path, index, until)`.
  - Failed reads of the file are a set of loop indices given as a parameter.
  - Loading takes the read result and the YAML decoder as parameters.
- `Paginator` (createPaginator in main.go):
  - The relay's behaviour is an input: the sequence of answers it gives to
    successive subscriptions.
  - `Paginate` is the specification of one worker, built from the one-window
    function `WindowStep`.
  - `RunWorker` is the imperative loop. It is proved to produce exactly the run
    `Worker` describes. It checkpoints through `AppConfig.UpdateUntil`, and it
    leaves the shared configuration holding the last checkpoint. Its file
    rewrites are exactly those of the run's checkpoints, in order.
  - `LaunchWorkers` models the launch loop with its `break`.
- `PaginatorProperties`: what a run guarantees.
  - Every received event is forwarded.
  - The cursor is the running minimum, independent of arrival order.
  - Checkpoints never increase and always precede the subscription they bound.
  - The run stops at the first terminal window.
  - Cancellation releases the subscription.
  - A relay that keeps answering without older events keeps the worker polling
    at the same cursor.
  - Every checkpoint is written to each entry of its relay whose file read
    succeeds. For a worker running alone, when every read succeeds, the
    file's cursors end equal to the ones in memory.
  - The worker pauses for its interval between windows, and only there.
- `Status` (tui.go): the display as a pure transition function `Next` over a
  `UIState` value. The class `UI`'s `Update` is proved to perform exactly that
  transition. `GetOrCreateRelay` and `IncrementKind`, which it calls, are each
  proved against an exact contract of their own. Lemmas cover the per-message effects and the invariant that
  the kind counters and the relays' `seen` counters add up to the same sum.
- `Dispatcher` (the loop at the end of `main`): the results of the signature
  check, the filter match and the save are inputs carried by each delivery.
  - `Dispatch` is proved to produce exactly the effect trace `Trace`. The trace
    holds the display notifications and the save attempts in one sequence.
  - The lemmas show that only events that get past both checks reach the
    store. Each event is announced right before its save is attempted, and
    an insert is announced right after a successful save.
  - Composed with `Status`, the display's `total` equals the number of
    successful saves. The relays' `seen` counters, and the kind counters, add
    up to the number of accepted events.

Note that the source behaves as follows, and the model does the same:

- A seed cursor that does not parse stops the launch loop (`break`). Every
  later relay goes unharvested, not just that one.
- A window whose event channel is closed ends without unsubscribing.
- A key press only sets `quitting` and asks the display to quit. Nothing in the
  source cancels the workers' shared context.
- The dispatcher discards the verdict of the signature check
  (main.go:132). It skips an event only when the check returns an error. An
  event whose signature is checked and found invalid is announced and saved
  like a valid one.

## Model

| member | source | states |
|---|---|---|
| Config.Load | config.go:25-38 | A file that cannot be read gives `NotFound`, a decoding error is passed back as `Malformed`, and otherwise a fresh configuration holds the decoded relays and filter and records the path |
| Config.AppConfig.constructor | config.go:30-37 | The loaded configuration holds exactly the document's relays and filter, and the path it was read from |
| Config.AppConfig.UpdateUntil | config.go:40-62 | Every entry with the URL, and only those, gets the formatted cursor in memory. One file edit of `.relays[i].until` is made per matching entry whose read succeeds, in list order. Only the shared relay array changes |
| Config.RetimedChangesOnlyMatches | config.go:44-47 | The list keeps its length. URLs and intervals never change. Every matching entry gets the new cursor and every other entry is unchanged |
| Config.RetimedOverwrites | config.go:44-47 | A later checkpoint of the same relay entirely overwrites an earlier one |
| Config.EditsTargetMatches | config.go:44-59 | Every edit writes the loaded path, at the index of an entry with the URL whose read succeeded, with the new cursor. Edit indices strictly increase |
| Config.EditsCoverMatches | config.go:44-52 | Every matching entry whose read succeeds is rewritten, duplicates included, because the loop never exits early |
| Config.EditsReplayPrefix | config.go:44-59 | When every file read succeeds, applying the edits of the first `n` entries to the stored cursor column sets exactly the matching entries among them and leaves the rest |
| Config.EditsFollowUrls | config.go:44-59 | Which entries a checkpoint rewrites depends only on the entries' URLs, not on the cursors they held |
| Config.PersistedMatchesMemory | config.go:44-59 | If the file's cursor column matched memory before the call and every read succeeds, the column after the call's edits equals the in-memory cursors |
| Paginator.WindowCursor | main.go:65-67 | The cursor after a window is at most the starting cursor and at most every received timestamp, and equals one of them |
| Paginator.WindowStep | main.go:48-82 | Every window starts with a subscription bounded by the current cursor and contains no checkpoint |
| Paginator.LaunchWorkers | main.go:24-31 | Workers are launched for the longest prefix of relays whose seed cursor parses, each with its URL, parsed cursor and interval. The relay after the prefix has an unparsable cursor, and no relay before it does |
| Paginator.ConsumeWindow | main.go:53-67 | Every received event is forwarded, tagged with its relay. The cursor ends at the window minimum. `keepGoing` holds exactly when something arrived |
| Paginator.ServeWindow | main.go:48-82 | One window's actions, forwarded events, next cursor and stop decision are those of `WindowStep` |
| Paginator.SaveCursor | main.go:44-46 | After the checkpoint, the relay list carries this cursor on the relay's entries only, whatever was checkpointed before. The file edits are exactly `UpdateUntil`'s for this cursor: one per entry of the relay whose read succeeds, each writing `format(cursor)` |
| Paginator.RunWorker | main.go:35-83 | The worker's actions, output, final cursor, windows and outcome are exactly `Worker`'s. The shared configuration ends holding the last checkpoint. The file edits are those of the trace's checkpoints, in order, each writing its own cursor |
| PaginatorProperties.StepFacts | main.go:53-82 | A window forwards what it delivered and moves the cursor to the window minimum. It lets the worker go on exactly when it delivered events and was not cancelled. It releases the subscription exactly when the window ended on end-of-stored-events, a close or cancellation, and not when the event channel was closed |
| PaginatorProperties.WindowCursorOrderFree | main.go:65-67 | The cursor after a window does not depend on the order in which its events arrive |
| PaginatorProperties.SentIsEveryReceivedEvent | main.go:57-63 | The output stream is every event received over the windows used, in order, tagged with the relay |
| PaginatorProperties.CursorIsRunningMinimum | main.go:40-67 | The final cursor is the least of the seed cursor and of every timestamp received |
| PaginatorProperties.CheckpointsNeverIncrease | main.go:43-67 | Every checkpoint is of this relay and lies between the final cursor and the seed. Successive checkpoints never increase |
| PaginatorProperties.CheckpointPrecedesSubscribe | main.go:44-48 | The run opens with a checkpoint of the seed cursor. Every subscription comes right after a checkpoint of its own upper bound |
| PaginatorProperties.SleepBeforeLaterCheckpoints | main.go:43-82 | Every checkpoint after the first comes right after a pause of the configured interval. Every pause is of that interval and leads straight to the next checkpoint, so the worker pauses after each window that lets it go on and at no other point |
| PaginatorProperties.StopsAtFirstTerminalWindow | main.go:48-82 | The worker goes on exactly while windows deliver events uncancelled. It is still going only if every answer let it. Otherwise its outcome is the ending of the last window used |
| PaginatorProperties.CancellationReleasesSubscription | main.go:74-76 | A cancelled run ends with a checkpoint, a subscription at that cursor, and its release |
| PaginatorProperties.NoOlderEventKeepsPolling | main.go:61-82 | A relay that keeps answering with events none older than the cursor keeps the worker polling at the same cursor, checkpointing the same value each round |
| PaginatorProperties.CheckpointsReachFile | main.go:44-46 | For every checkpoint of cursor `c` in a run, every entry of its relay whose read succeeds gets an edit writing `format(c)` |
| PaginatorProperties.FileFollowsCheckpoints | main.go:44-46 | For a worker running alone, when every read succeeds, replaying the rewrites of a relay's checkpoints on a file cursor column that matched memory leaves it equal to the in-memory cursors after them |
| PaginatorProperties.WorkerFileMatchesMemory | main.go:35-83 | For a whole worker running alone, when every read succeeds, a file that matched memory before the run matches it again afterwards |
| Status.UI.constructor | tui.go:44-49 | The display starts with both maps empty, every counter zero and `quitting` false |
| Status.UI.GetOrCreateRelay | tui.go:69-82 | An existing entry is returned and nothing changes. A missing one is created with seen 0, offset 1 and date MaxInt32, stored, and returned |
| Status.UI.IncrementKind | tui.go:84-91 | The kind's counter goes up by one, starting from zero when absent. Nothing else changes |
| Status.UI.Update | tui.go:97-134 | Handling a message moves the display to the state `Next` gives and returns its command |
| Status.InsertCountsOnce | tui.go:104-106 | A stored-event message adds exactly one to `total` and changes nothing else |
| Status.RelayEventCounts | tui.go:114-124 | An event message creates the relay's entry if absent and adds one to its `seen` and to its kind's counter. It lowers the relay's date to the event's when older, and leaves every other kind and counter unchanged |
| Status.PaginationCounts | tui.go:108-112 | A pagination message adds one to the relay's offset, creating the entry if absent, and changes nothing else |
| Status.OtherRelaysUntouched | tui.go:108-124 | A message about one relay leaves every other relay's entry, and its presence, as they were |
| Status.KeyPressQuits | tui.go:97-133 | A key press sets `quitting` and returns the quit command. A tick or an unrecognised message leaves the state unchanged |
| Status.DatesNeverIncrease | tui.go:114-122 | A relay's entry, once created, stays, and its date never increases, whatever messages follow |
| Status.NextKeepsCountsAgreeing | tui.go:114-124 | Every message keeps the sum of the kind counters equal to the sum of the relays' `seen` counters |
| Status.SeenTotalStep | tui.go:108-122 | One message adds one to the sum of the relays' `seen` counters when it reports an event, and leaves the sum unchanged otherwise |
| Status.KindTotalStep | tui.go:114-124 | One message adds one to the sum of the kind counters when it reports an event, and leaves the sum unchanged otherwise |
| Status.CountsAgreeFromStart | tui.go:44-124 | From the initial display, after any messages, the kind counters and the relays' `seen` counters add up to the same number |
| Status.ReplayCounts | tui.go:104-124 | After a run of messages, `total` has grown by the number of stored-event messages, and the relays' `seen` counters by the number of event messages |
| Dispatcher.Dispatch | main.go:131-149 | The loop's effects are exactly `Trace`. For each event that gets past both checks, it announces the event and attempts the save, then announces the insert if the save succeeded. Any other event has no effect |
| Dispatcher.SavesOnlyAccepted | main.go:132-143 | The save attempts are exactly the events of the deliveries whose signature check returned no error and that matched the filter: one per such delivery, in stream order, duplicates included, and none for any other delivery |
| Dispatcher.AttemptedAreAccepted | main.go:132-143 | The sequence of save attempts equals the sequence of accepted events, delivery by delivery |
| Dispatcher.AcceptedEventsExact | main.go:132-137 | There is one accepted event per delivery that gets past both checks; each such delivery's event is among them, and each of them belongs to such a delivery |
| Dispatcher.NotificationsExact | main.go:138-148 | The display is told, per delivery and in stream order, about each event that gets past both checks, then about its insert when the save succeeded, and about nothing else |
| Dispatcher.AnnouncedBeforeSaved | main.go:138-148 | Every save attempt comes right after the announcement of the same accepted event. Every event announcement is followed at once by the save attempt of an event with the same kind and creation time (that it is the very event announced follows from `AttemptedAreAccepted`). Every insert announcement comes right after the successful save of an event, which in turn follows that event's announcement |
| Dispatcher.InvalidSignatureStillSaved | main.go:132-143 | An event whose signature check returns no error but an invalid verdict, and that matches the filter, is announced and saved exactly like a valid one |
| Dispatcher.NotificationCounts | main.go:138-148 | The notifications hold one insert per successful save and one event notification per accepted event |
| Dispatcher.DisplayMatchesDispatch | main.go:131-149 | Fed the dispatcher's notifications from its initial state, the display's `total` is the number of successful saves. Its relays' `seen` counters and its kind counters each add up to the number of accepted events |

## Left out

- Concurrency is not modelled: the goroutines, the WaitGroup, the bounded
  output channel, its closing, and the interleaving of the workers and the
  dispatcher. Each worker and the dispatcher are modelled as sequential runs
  over their inputs, so nothing about blocking, back-pressure or the closing
  of the merged stream is stated.
- Relay connections, subscriptions and the Postgres store are not modelled.
  The relay's answers, the connect result, the signature check, the filter
  match and the save outcome are inputs.
- Time parsing and formatting in the calendar layout are parameters (`parse`,
  `format`). Sleeping is recorded as an action only.
- Reading and decoding YAML, and evaluating the yq expression, are not
  modelled. Each rewrite is an abstract edit of one cursor field.
- Config.AppConfig.UpdateUntil: a failed yq evaluation is not modelled. The
  source ignores that error and would write the empty result over the file.
  The ignored error of the file write is not modelled either.
- Config.AppConfig.UpdateUntil: the source reads the whole file, rewrites one
  field and writes the whole file back, once per matching entry. Workers
  checkpoint concurrently and without any lock, so one worker's rewrite can be
  overwritten by another worker's stale copy of the file, and a read made
  during a write can see a truncated file. Duplicate URLs make two workers
  rewrite each other's entries. The model treats each rewrite as an edit of
  one field applied in order, so `PersistedMatchesMemory`,
  `FileFollowsCheckpoints`, `WorkerFileMatchesMemory` and `RunWorker`'s
  statement about the whole relay array hold for a worker running alone only.
- Config.AppConfig.UpdateUntil: one set of unreadable indices holds for every
  call, so reads that fail only at some checkpoints are not modelled.
- Paginator.RunWorker: the relay's answers form a finite list. When it runs
  out the run is reported as `Pending`, so an unbounded run is only modelled
  through its prefixes.
- Paginator.RunWorker: cancellation is observed only while a window is
  consumed, as in the source's `select`. Cancellation during the sleep or
  during a blocked send is not modelled.
- Paginator.Tag: each forwarded event is tagged with the relay's configured
  URL. The source tags it with the connection object returned by the connect
  call; the connection itself is not modelled.
- Event timestamps, the cursor and the display counters are unbounded
  integers. Go's `int` and `int64` overflow is not modelled.
- Status.UI.Update: the spinner's own state and the command it returns on a
  tick are collapsed into `SpinnerCmd`. `View`, `Init` and the program loop
  that forwards messages are not modelled.
- The `responses` counter of the display is carried but never changed, as in
  the source.
- The pagination message is handled by the display, but no part of the source
  sends it.
- Environment loading, command-line handling, logging set-up and store
  initialisation in `main` are not modelled.
