/** The dispatch loop at the end of main.go: every event of the merged stream
    is checked, announced to the status display, saved, and announced again
    once saved. The signature check, the filter match and the store are not
    modelled: their outcomes come with each event. */
module Dispatcher {
  import opened Events
  import opened Status

  /** What the signature check returns: an error, or a verdict. The loop
      discards the verdict and skips an event only when the check errs. */
  datatype SignatureCheck = CheckError | Checked(valid: bool)

  /** One event taken from the merged stream, with the result of the
      signature check, of the filter match and of the save attempt. */
  datatype Delivery = Delivery(item: RelayEvent, signature: SignatureCheck, matchesFilter: bool, saved: bool)

  /** The loop's effects on the outside, in order. */
  datatype Effect =
    | Notify(msg: Msg)    // a message sent to the status display
    | Save(event: Event)  // a save attempt handed to the store

  /** Gets past both checks, so it is announced and a save is attempted. */
  predicate Accepted(d: Delivery)
  {
    !d.signature.CheckError? && d.matchesFilter
  }

  /** The display notification for an accepted event. */
  function Seen(d: Delivery): Msg
  {
    RelayEventSeen(d.item.relay, d.item.event.kind, d.item.event.createdAt)
  }

  /** What the loop does with one event: nothing when a check fails;
      otherwise announce it, attempt the save, and, if the save succeeded,
      announce the insert. */
  function Effects(d: Delivery): seq<Effect>
  {
    if !Accepted(d) then []
    else [Notify(Seen(d)), Save(d.item.event)] + (if d.saved then [Notify(Insert)] else [])
  }

  /** The effects of a whole stream, in order. */
  function Trace(ds: seq<Delivery>): seq<Effect>
    decreases |ds|
  {
    if ds == [] then [] else Trace(ds[..|ds| - 1]) + Effects(ds[|ds| - 1])
  }

  /** The messages among `effects`, in order. */
  function Messages(effects: seq<Effect>): seq<Msg>
    decreases |effects|
  {
    if effects == [] then []
    else
      var e := effects[|effects| - 1];
      Messages(effects[..|effects| - 1]) + (if e.Notify? then [e.msg] else [])
  }

  /** The save attempts among `effects`, in order. */
  function Saves(effects: seq<Effect>): seq<Event>
    decreases |effects|
  {
    if effects == [] then []
    else
      var e := effects[|effects| - 1];
      Saves(effects[..|effects| - 1]) + (if e.Save? then [e.event] else [])
  }

  /** What the display is told about a stream. */
  function Notifications(ds: seq<Delivery>): seq<Msg>
  {
    Messages(Trace(ds))
  }

  /** The events handed to the store for a stream. */
  function Attempted(ds: seq<Delivery>): seq<Event>
  {
    Saves(Trace(ds))
  }

  /** How many events get past both checks. */
  function AcceptedCount(ds: seq<Delivery>): nat
    decreases |ds|
  {
    if ds == [] then 0 else AcceptedCount(ds[..|ds| - 1]) + (if Accepted(ds[|ds| - 1]) then 1 else 0)
  }

  /** How many events get past both checks and are saved. */
  function StoredCount(ds: seq<Delivery>): nat
    decreases |ds|
  {
    if ds == [] then 0
    else StoredCount(ds[..|ds| - 1]) + (if Accepted(ds[|ds| - 1]) && ds[|ds| - 1].saved then 1 else 0)
  }

  /** The loop over the merged stream. An error from the signature check or a
      failed filter match skips the event; a failed save skips only the insert
      notification. */
  method Dispatch(stream: seq<Delivery>) returns (effects: seq<Effect>)
    ensures effects == Trace(stream)
  {
    effects := [];
    var i := 0;
    while i < |stream|
      invariant 0 <= i <= |stream|
      invariant effects == Trace(stream[..i])
    {
      var d := stream[i];
      assert stream[..i + 1][..i] == stream[..i];
      i := i + 1;
      if d.signature.CheckError? {
        continue;
      }
      if !d.matchesFilter {
        continue;
      }
      effects := effects + [Notify(RelayEventSeen(d.item.relay, d.item.event.kind, d.item.event.createdAt))];
      effects := effects + [Save(d.item.event)];
      if !d.saved {
        continue;
      }
      effects := effects + [Notify(Insert)];
    }
    assert stream[..i] == stream;
  }

  lemma {:induction false} ProjectionsAppend(a: seq<Effect>, b: seq<Effect>)
    ensures Messages(a + b) == Messages(a) + Messages(b)
    ensures Saves(a + b) == Saves(a) + Saves(b)
    decreases |b|
  {
    if b == [] {
      assert a + b == a;
    } else {
      var n := |b| - 1;
      assert (a + b)[..|a + b| - 1] == a + b[..n];
      ProjectionsAppend(a, b[..n]);
    }
  }

  /** One event's messages and save attempts. */
  lemma EffectProjections(d: Delivery)
    ensures Saves(Effects(d)) == if Accepted(d) then [d.item.event] else []
    ensures Messages(Effects(d)) == if !Accepted(d) then [] else [Seen(d)] + (if d.saved then [Insert] else [])
  {
    if Accepted(d) {
      var one := [Notify(Seen(d))];
      var two := one + [Save(d.item.event)];
      assert one[..0] == [] && two[..1] == one;
      assert Messages(one) == [Seen(d)] && Saves(one) == [];
      assert Messages(two) == [Seen(d)] && Saves(two) == [d.item.event];
      if d.saved {
        var three := two + [Notify(Insert)];
        assert three[..2] == two && Effects(d) == three;
      } else {
        assert Effects(d) == two;
      }
    }
  }

  /** A stream's messages and save attempts, event by event. */
  lemma StreamProjections(ds: seq<Delivery>)
    requires ds != []
    ensures Notifications(ds) == Notifications(ds[..|ds| - 1]) + Messages(Effects(ds[|ds| - 1]))
    ensures Attempted(ds) == Attempted(ds[..|ds| - 1]) + Saves(Effects(ds[|ds| - 1]))
  {
    ProjectionsAppend(Trace(ds[..|ds| - 1]), Effects(ds[|ds| - 1]));
  }

  /** The events of the deliveries that get past both checks, in stream
      order, duplicates included. */
  function AcceptedEvents(ds: seq<Delivery>): seq<Event>
    decreases |ds|
  {
    if ds == [] then []
    else AcceptedEvents(ds[..|ds| - 1]) + (if Accepted(ds[|ds| - 1]) then [ds[|ds| - 1].item.event] else [])
  }

  /** What the display is told about each delivery that gets past both
      checks, in stream order: the event, then the insert if it was saved. */
  function Announced(ds: seq<Delivery>): seq<Msg>
    decreases |ds|
  {
    if ds == [] then []
    else
      var d := ds[|ds| - 1];
      Announced(ds[..|ds| - 1]) + (if Accepted(d) then [Seen(d)] + (if d.saved then [Insert] else []) else [])
  }

  /** The accepted events are one per accepted delivery, and each is the
      event of some accepted delivery. */
  lemma {:induction false} AcceptedEventsExact(ds: seq<Delivery>)
    ensures |AcceptedEvents(ds)| == AcceptedCount(ds)
    ensures forall k :: 0 <= k < |ds| && Accepted(ds[k]) ==> ds[k].item.event in AcceptedEvents(ds)
    ensures forall e <- AcceptedEvents(ds) :: exists d <- ds :: Accepted(d) && d.item.event == e
    decreases |ds|
  {
    if ds != [] {
      var n := |ds| - 1;
      AcceptedEventsExact(ds[..n]);
      forall k | 0 <= k < |ds| && Accepted(ds[k]) ensures ds[k].item.event in AcceptedEvents(ds) {
        if k < n {
          assert ds[..n][k] == ds[k];
        }
      }
      forall e <- AcceptedEvents(ds) ensures exists d <- ds :: Accepted(d) && d.item.event == e {
        if e in AcceptedEvents(ds[..n]) {
          var d :| d in ds[..n] && Accepted(d) && d.item.event == e;
          assert d in ds;
        } else {
          assert ds[n] in ds;
        }
      }
    }
  }

  /** The save attempts are exactly the accepted events. */
  lemma {:induction false} AttemptedAreAccepted(ds: seq<Delivery>)
    ensures Attempted(ds) == AcceptedEvents(ds)
    decreases |ds|
  {
    if ds != [] {
      var n := |ds| - 1;
      AttemptedAreAccepted(ds[..n]);
      StreamProjections(ds);
      EffectProjections(ds[n]);
    }
  }

  /** Exactly the events that get past the signature check without error and
      match the filter reach the store: one attempt per such delivery, in
      stream order, and none for any other delivery. */
  lemma SavesOnlyAccepted(ds: seq<Delivery>)
    ensures Attempted(ds) == AcceptedEvents(ds)
    ensures |Attempted(ds)| == AcceptedCount(ds)
    ensures forall k :: 0 <= k < |ds| && Accepted(ds[k]) ==> ds[k].item.event in Attempted(ds)
    ensures forall e <- Attempted(ds) :: exists d <- ds :: Accepted(d) && d.item.event == e
  {
    AttemptedAreAccepted(ds);
    AcceptedEventsExact(ds);
  }

  /** The display is told, per delivery and in stream order, about every
      event that gets past both checks and then about its insert when the
      save succeeded, and about nothing else. */
  lemma {:induction false} NotificationsExact(ds: seq<Delivery>)
    ensures Notifications(ds) == Announced(ds)
    decreases |ds|
  {
    if ds != [] {
      var n := |ds| - 1;
      NotificationsExact(ds[..n]);
      StreamProjections(ds);
      EffectProjections(ds[n]);
    }
  }

  /** Every save attempt comes right after the announcement of the same
      accepted event. */
  ghost predicate SavesAnnounced(t: seq<Effect>, ds: seq<Delivery>)
  {
    forall j :: 0 <= j < |t| && t[j].Save? ==>
      0 < j && exists d <- ds :: Accepted(d) && t[j - 1] == Notify(Seen(d)) && t[j] == Save(d.item.event)
  }

  /** Every insert announcement comes right after the successful save attempt
      of an event, itself right after that event's announcement. */
  ghost predicate InsertsAfterSaves(t: seq<Effect>, ds: seq<Delivery>)
  {
    forall j :: 0 <= j < |t| && t[j] == Notify(Insert) ==>
      1 < j && exists d <- ds :: Accepted(d) && d.saved && t[j - 2] == Notify(Seen(d)) && t[j - 1] == Save(d.item.event)
  }

  /** Every event announcement is followed at once by the save attempt of an
      event of that kind and creation time. */
  ghost predicate AnnouncementsSaved(t: seq<Effect>)
  {
    forall j :: 0 <= j < |t| && t[j].Notify? && t[j].msg.RelayEventSeen? ==>
      j + 1 < |t| && t[j + 1].Save?
      && t[j + 1].event.kind == t[j].msg.kind && t[j + 1].event.createdAt == t[j].msg.createdAt
  }

  /** Appending one event's effects keeps save attempts announced. */
  lemma JoinSaves(pre: seq<Effect>, init: seq<Delivery>, ds: seq<Delivery>, d: Delivery)
    requires forall x <- init :: x in ds
    requires d in ds
    requires SavesAnnounced(pre, init)
    ensures SavesAnnounced(pre + Effects(d), ds)
  {
    var b := Effects(d);
    var t := pre + b;
    forall j | 0 <= j < |t| && t[j].Save?
      ensures 0 < j && exists x <- ds :: Accepted(x) && t[j - 1] == Notify(Seen(x)) && t[j] == Save(x.item.event)
    {
      if j < |pre| {
        assert t[j] == pre[j] && t[j - 1] == pre[j - 1];
        var x :| x in init && Accepted(x) && pre[j - 1] == Notify(Seen(x)) && pre[j] == Save(x.item.event);
      } else {
        assert j == |pre| + 1 && t[j - 1] == b[0] && t[j] == b[1];
      }
    }
  }

  /** Appending one event's effects keeps inserts right after their saves. */
  lemma JoinInserts(pre: seq<Effect>, init: seq<Delivery>, ds: seq<Delivery>, d: Delivery)
    requires forall x <- init :: x in ds
    requires d in ds
    requires InsertsAfterSaves(pre, init)
    ensures InsertsAfterSaves(pre + Effects(d), ds)
  {
    var b := Effects(d);
    var t := pre + b;
    forall j | 0 <= j < |t| && t[j] == Notify(Insert)
      ensures 1 < j && exists x <- ds :: Accepted(x) && x.saved && t[j - 2] == Notify(Seen(x)) && t[j - 1] == Save(x.item.event)
    {
      if j < |pre| {
        assert t[j] == pre[j] && t[j - 1] == pre[j - 1] && t[j - 2] == pre[j - 2];
        var x :| x in init && Accepted(x) && x.saved && pre[j - 2] == Notify(Seen(x)) && pre[j - 1] == Save(x.item.event);
      } else {
        assert j == |pre| + 2 && t[j - 2] == b[0] && t[j - 1] == b[1];
      }
    }
  }

  /** Appending one event's effects keeps every announcement followed by its
      save attempt. */
  lemma JoinAnnouncements(pre: seq<Effect>, d: Delivery)
    requires AnnouncementsSaved(pre)
    ensures AnnouncementsSaved(pre + Effects(d))
  {
    var b := Effects(d);
    var t := pre + b;
    forall j | 0 <= j < |t| && t[j].Notify? && t[j].msg.RelayEventSeen?
      ensures j + 1 < |t| && t[j + 1].Save?
        && t[j + 1].event.kind == t[j].msg.kind && t[j + 1].event.createdAt == t[j].msg.createdAt
    {
      if j < |pre| {
        assert t[j] == pre[j] && t[j + 1] == pre[j + 1];
      } else {
        assert j == |pre| && t[j] == b[0] && t[j + 1] == b[1];
      }
    }
  }

  /** The loop announces each accepted event before it attempts to save it,
      and announces an insert only right after that save: for every save
      attempt the announcement of the same event comes just before it, for
      every insert announcement the event's announcement and save attempt come
      just before it, and every event announcement is followed at once by the
      save attempt. */
  lemma {:induction false} AnnouncedBeforeSaved(ds: seq<Delivery>)
    ensures SavesAnnounced(Trace(ds), ds)
    ensures InsertsAfterSaves(Trace(ds), ds)
    ensures AnnouncementsSaved(Trace(ds))
    decreases |ds|
  {
    if ds != [] {
      var n := |ds| - 1;
      AnnouncedBeforeSaved(ds[..n]);
      assert ds[n] in ds;
      JoinSaves(Trace(ds[..n]), ds[..n], ds, ds[n]);
      JoinInserts(Trace(ds[..n]), ds[..n], ds, ds[n]);
      JoinAnnouncements(Trace(ds[..n]), ds[n]);
    }
  }

  lemma {:induction false} InsertsAppend(a: seq<Msg>, b: seq<Msg>)
    ensures Inserts(a + b) == Inserts(a) + Inserts(b)
    ensures Sightings(a + b) == Sightings(a) + Sightings(b)
    decreases |a|
  {
    if a == [] {
      assert a + b == b;
    } else {
      assert (a + b)[1..] == a[1..] + b;
      InsertsAppend(a[1..], b);
    }
  }

  /** One event's messages: an event notification if it gets past both
      checks, and an insert if it is also saved. */
  lemma EffectCounts(d: Delivery)
    ensures Inserts(Messages(Effects(d))) == if Accepted(d) && d.saved then 1 else 0
    ensures Sightings(Messages(Effects(d))) == if Accepted(d) then 1 else 0
  {
    EffectProjections(d);
    var msgs := Messages(Effects(d));
    if Accepted(d) {
      var tail := if d.saved then [Insert] else [];
      assert msgs[1..] == tail;
      assert Inserts(tail) == (if d.saved then 1 else 0) && Sightings(tail) == 0;
    }
  }

  /** The stream's notifications hold one insert per saved event and one
      event notification per accepted event. */
  lemma {:induction false} NotificationCounts(ds: seq<Delivery>)
    ensures Inserts(Notifications(ds)) == StoredCount(ds)
    ensures Sightings(Notifications(ds)) == AcceptedCount(ds)
    decreases |ds|
  {
    if ds != [] {
      var n := |ds| - 1;
      NotificationCounts(ds[..n]);
      StreamProjections(ds);
      EffectCounts(ds[n]);
      InsertsAppend(Notifications(ds[..n]), Messages(Effects(ds[n])));
    }
  }

  /** Fed the dispatcher's notifications from its initial state, the display
      shows as inserted exactly the events whose save succeeded, and its
      relays' `seen` counters and its kind counters each add up to the events
      that got past both checks. */
  lemma DisplayMatchesDispatch(ds: seq<Delivery>)
    ensures Replay(Initial(), Notifications(ds)).total == StoredCount(ds)
    ensures Total(SeenCounts(Replay(Initial(), Notifications(ds)).relays)) == AcceptedCount(ds)
    ensures Total(Replay(Initial(), Notifications(ds)).kinds) == AcceptedCount(ds)
  {
    NotificationCounts(ds);
    ReplayCounts(Initial(), Notifications(ds));
    CountsAgreeFromStart(Notifications(ds));
    assert SeenCounts(map[]) == map[];
  }

  /** The verdict of the signature check plays no part: an event whose
      signature is checked without error and found invalid, and that matches
      the filter, is announced and handed to the store like a valid one. */
  lemma InvalidSignatureStillSaved(d: Delivery)
    requires d.signature == Checked(false) && d.matchesFilter
    ensures Accepted(d)
    ensures Effects(d)[..2] == [Notify(Seen(d)), Save(d.item.event)]
    ensures Effects(d) == Effects(d.(signature := Checked(true)))
  {
  }
}
