/**
 What a reader can hold one due scan to: the order of its messages and its marks
 (internal/brain/deliver.go, digest.go, check.go, reminder_step.go). Nothing is
 marked before a message that says it, stamps increase in the order things were
 shown, and nothing of a unit is retired before the unit was planned again.
 */
module PassTrace {
  import opened Options
  import opened Stores

  /** The id an event marks as having reached the user. */
  function Marks(e: Event): Option<string> {
    match e
    case Marked(id, _) => Some(id)
    case Reasked(id, _) => Some(id)
    case GoalFired(id) => Some(id)
    case QuestionAsked(id) => Some(id)
    case _ => None
  }

  function Stamp(e: Event): Option<int> {
    match e
    case Marked(_, at) => Some(at)
    case Reasked(_, at) => Some(at)
    case _ => None
  }

  /** A message of this pass, sent before event k, says id. */
  ghost predicate SaidBefore(events: seq<Event>, k: nat, id: string) {
    exists j :: 0 <= j < k && j < |events| && events[j].Sent? && id in events[j].ids
  }

  /** Nothing is marked before a message that says it went out. */
  ghost predicate Honest(events: seq<Event>) {
    forall k :: 0 <= k < |events| && Marks(events[k]).Some? ==> SaidBefore(events, k, Marks(events[k]).value)
  }

  /** Stamps increase, none is before now, and the next one is later still. */
  ghost predicate Increasing(events: seq<Event>, now: int, next: Option<int>) {
    && (forall i, j :: 0 <= i < j < |events| && Stamp(events[i]).Some? && Stamp(events[j]).Some? ==>
         Stamp(events[i]).value < Stamp(events[j]).value)
    && (forall i :: 0 <= i < |events| && Stamp(events[i]).Some? ==>
         now <= Stamp(events[i]).value && next.Some? && Stamp(events[i]).value < next.value)
  }

  ghost predicate PlannedBefore(events: seq<Event>, k: nat, unit: string) {
    unit == "" || exists j :: 0 <= j < k && j < |events| && events[j] == Planned(unit)
  }

  /** Nothing of a unit is retired as stale before the unit was planned again; a row of no unit has nothing to plan. */
  ghost predicate PlannedFirst(events: seq<Event>) {
    forall k :: 0 <= k < |events| && events[k].Retired? ==> PlannedBefore(events, k, events[k].unit)
  }

  /** No unit is planned twice. */
  ghost predicate PlannedOnce(events: seq<Event>) {
    forall i, j :: 0 <= i < j < |events| && events[i].Planned? ==> events[i] != events[j]
  }

  /** The last message before event m; -1 when there is none. */
  function MessageBefore(events: seq<Event>, m: nat): (k: int)
    requires m <= |events|
    ensures -1 <= k < m && (k >= 0 ==> events[k].Sent?)
    ensures forall l :: k < l < m ==> !events[l].Sent?
  {
    if m == 0 then -1 else if events[m - 1].Sent? then m - 1 else MessageBefore(events, m - 1)
  }

  /** Event m marks what the last message before it says at place a. */
  predicate ShownAt(events: seq<Event>, m: nat, a: int)
    requires m < |events|
  {
    var k := MessageBefore(events, m);
    k >= 0 && 0 <= a < |events[k].ids| && Marks(events[m]) == Some(events[k].ids[a])
  }

  /** What event j marks was shown after what event i marks: in a later message, or further on in the same one. */
  ghost predicate ShownLater(events: seq<Event>, i: nat, j: nat)
    requires i < |events| && j < |events|
  {
    var k, l := MessageBefore(events, i), MessageBefore(events, j);
    k < l || (k == l && exists a, b :: a < b && ShownAt(events, i, a) && ShownAt(events, j, b))
  }

  /** Everything stamped is in the last message before its stamp, and what was stamped later was shown later. */
  ghost predicate AsShown(events: seq<Event>) {
    && (forall m :: 0 <= m < |events| && Stamp(events[m]).Some? ==> exists a :: ShownAt(events, m, a))
    && (forall i, j :: 0 <= i < j < |events| && Stamp(events[i]).Some? && Stamp(events[j]).Some? ==>
         ShownLater(events, i, j))
  }

  /** Nothing is marked before a message that says it; stamps increase in the order things were shown; and nothing of a
      unit is retired before the unit was planned, once. */
  ghost predicate TraceOk(events: seq<Event>, now: int, next: Option<int>) {
    Traced(events, now, next) && AsShown(events)
  }

  ghost predicate Traced(events: seq<Event>, now: int, next: Option<int>) {
    Honest(events) && Increasing(events, now, next) && PlannedFirst(events) && PlannedOnce(events)
  }

  /** The last message says these, and what was stamped since it is among the first `place` of them. */
  ghost predicate Showing(events: seq<Event>, ids: seq<string>, place: nat) {
    var k := MessageBefore(events, |events|);
    && k >= 0 && events[k].ids == ids
    && forall m :: k < m < |events| && Stamp(events[m]).Some? ==> exists a :: a < place && ShownAt(events, m, a)
  }

  lemma SaidStays(events: seq<Event>, e: Event, k: nat, id: string)
    requires SaidBefore(events, k, id) && k <= |events|
    ensures SaidBefore(events + [e], k, id)
  {
    var j :| 0 <= j < k && j < |events| && events[j].Sent? && id in events[j].ids;
    assert (events + [e])[j] == events[j];
  }

  lemma PlannedStays(events: seq<Event>, e: Event, k: nat, unit: string)
    requires PlannedBefore(events, k, unit) && k <= |events|
    ensures PlannedBefore(events + [e], k, unit)
  {
    if unit != "" {
      var j :| 0 <= j < k && j < |events| && events[j] == Planned(unit);
      assert (events + [e])[j] == Planned(unit);
    }
  }

  lemma {:induction false} SameMessage(events: seq<Event>, e: Event, m: nat)
    requires m <= |events|
    ensures MessageBefore(events + [e], m) == MessageBefore(events, m)
  {
    if m > 0 {
      SameMessage(events, e, m - 1);
    }
  }

  lemma {:induction false} MessageSince(events: seq<Event>, m: nat, n: nat)
    requires m <= n <= |events| && MessageBefore(events, n) < m
    ensures MessageBefore(events, m) == MessageBefore(events, n)
  {
    if m < n {
      MessageSince(events, m, n - 1);
    }
  }

  lemma ShownStays(events: seq<Event>, e: Event)
    ensures forall m, a :: 0 <= m < |events| ==> (ShownAt(events + [e], m, a) <==> ShownAt(events, m, a))
    ensures forall i, j :: 0 <= i < j < |events| && ShownLater(events, i, j) ==> ShownLater(events + [e], i, j)
  {
    var after := events + [e];
    forall m | 0 <= m < |events|
      ensures MessageBefore(after, m) == MessageBefore(events, m)
    {
      SameMessage(events, e, m);
    }
    hide MessageBefore;
    assert forall m, a :: 0 <= m < |events| ==> (ShownAt(after, m, a) <==> ShownAt(events, m, a));
    forall i, j | 0 <= i < j < |events| && ShownLater(events, i, j)
      ensures ShownLater(after, i, j)
    {
      if MessageBefore(events, i) == MessageBefore(events, j) {
        var a, b :| a < b && ShownAt(events, i, a) && ShownAt(events, j, b);
        assert ShownAt(after, i, a) && ShownAt(after, j, b);
      }
    }
  }

  /** An event without a stamp. */
  lemma AsShownGrows(events: seq<Event>, e: Event)
    requires AsShown(events) && Stamp(e).None?
    ensures AsShown(events + [e])
  {
    ShownStays(events, e);
    hide ShownAt, ShownLater;
    var after := events + [e];
    forall m | 0 <= m < |after| && Stamp(after[m]).Some?
      ensures exists a :: ShownAt(after, m, a)
    {
      var a :| ShownAt(events, m, a);
      assert ShownAt(after, m, a);
    }
  }

  /** The stamp of what stands at the next place of the last message. */
  lemma StampIsShown(events: seq<Event>, e: Event, ids: seq<string>, place: nat)
    requires AsShown(events) && Showing(events, ids, place) && place < |ids| && Marks(e) == Some(ids[place])
    ensures AsShown(events + [e]) && Showing(events + [e], ids, place + 1)
  {
    var after, n := events + [e], |events|;
    var k := MessageBefore(events, n);
    ShownStays(events, e);
    SameMessage(events, e, n);
    assert ShownAt(after, n, place);
    assert MessageBefore(after, n + 1) == k;
    forall i | 0 <= i < n && Stamp(events[i]).Some?
      ensures ShownLater(after, i, n) && (exists a :: ShownAt(after, i, a))
      ensures k < i ==> exists a :: a < place && ShownAt(after, i, a)
    {
      SameMessage(events, e, i);
      StampedBefore(events, ids, place, i);
      var a :| ShownAt(events, i, a) && (k < i ==> a < place);
      assert ShownAt(after, i, a);
    }
    hide ShownAt, ShownLater, MessageBefore;
  }

  lemma StampedBefore(events: seq<Event>, ids: seq<string>, place: nat, i: nat)
    requires AsShown(events) && Showing(events, ids, place) && i < |events| && Stamp(events[i]).Some?
    ensures var k := MessageBefore(events, |events|);
            && (if k < i then MessageBefore(events, i) == k else MessageBefore(events, i) < k)
            && exists a :: ShownAt(events, i, a) && (k < i ==> a < place)
  {
    var k := MessageBefore(events, |events|);
    if k < i {
      MessageSince(events, i, |events|);
    } else {
      assert i != k;
    }
    hide ShownAt;
  }

  lemma ShowingOn(events: seq<Event>, e: Event, ids: seq<string>, place: nat)
    requires Showing(events, ids, place) && !e.Sent? && Stamp(e).None?
    ensures Showing(events + [e], ids, place)
  {
    var after, n := events + [e], |events|;
    ShownStays(events, e);
    SameMessage(events, e, n);
    var k := MessageBefore(events, n);
    assert MessageBefore(after, n + 1) == k;
    hide ShownAt, ShownLater, MessageBefore;
    forall m | k < m < |after| && Stamp(after[m]).Some?
      ensures exists a :: a < place && ShownAt(after, m, a)
    {
      var a :| a < place && ShownAt(events, m, a);
      assert ShownAt(after, m, a);
    }
  }

  lemma ShowingFurther(events: seq<Event>, ids: seq<string>, place: nat, further: nat)
    requires Showing(events, ids, place) && place <= further
    ensures Showing(events, ids, further)
  {
    hide ShownAt;
  }

  lemma ShownIsSaid(events: seq<Event>, ids: seq<string>, place: nat, id: string)
    requires Showing(events, ids, place) && id in ids
    ensures SaidBefore(events, |events|, id)
  {
    assert events[MessageBefore(events, |events|)].ids == ids;
  }

  /** A message, or a mark of what an earlier message said, with a stamp just taken. */
  lemma TracedGrows(events: seq<Event>, e: Event, now: int, before: Option<int>, next: Option<int>)
    requires Traced(events, now, before) && !e.Planned? && !e.Retired?
    requires Marks(e).Some? ==> SaidBefore(events, |events|, Marks(e).value)
    requires Stamp(e).Some? ==> now <= Stamp(e).value && (before.Some? ==> before.value <= Stamp(e).value)
    requires Stamp(e).Some? ==> next == Some(Stamp(e).value + 1)
    requires before.Some? ==> next.Some? && before.value <= next.value
    ensures Traced(events + [e], now, next)
  {
    var after := events + [e];
    forall k | 0 <= k < |after| && Marks(after[k]).Some?
      ensures SaidBefore(after, k, Marks(after[k]).value)
    {
      SaidStays(events, e, k, Marks(after[k]).value);
    }
    forall k | 0 <= k < |after| && after[k].Retired?
      ensures PlannedBefore(after, k, after[k].unit)
    {
      PlannedStays(events, e, k, after[k].unit);
    }
  }

  /** An event without a stamp: a message, or a mark of what an earlier message said. */
  lemma TraceGrows(events: seq<Event>, e: Event, now: int, next: Option<int>)
    requires TraceOk(events, now, next) && !e.Planned? && !e.Retired? && Stamp(e).None?
    requires Marks(e).Some? ==> SaidBefore(events, |events|, Marks(e).value)
    ensures TraceOk(events + [e], now, next)
  {
    TracedGrows(events, e, now, next, next);
    AsShownGrows(events, e);
  }

  lemma TraceWaits(events: seq<Event>, now: int, before: Option<int>, next: Option<int>)
    requires TraceOk(events, now, before) && (before.Some? ==> next.Some? && before.value <= next.value)
    ensures TraceOk(events, now, next)
  {
    hide AsShown;
  }

  lemma JustSaid(events: seq<Event>, e: Event, now: int, next: Option<int>)
    requires TraceOk(events, now, next) && e.Sent?
    ensures TraceOk(events + [e], now, next) && Showing(events + [e], e.ids, 0)
  {
    TraceGrows(events, e, now, next);
    assert MessageBefore(events + [e], |events| + 1) == |events|;
    hide TraceOk, ShownAt;
  }

  /** What a write that stamps a row leaves: its mark when it landed, and a failure when it reported one. */
  ghost predicate Wrote(events: seq<Event>, after: seq<Event>, e: Event) {
    || after == events || after == events + [e]
    || (e.Marked? && (after == events + [Unmarked(e.id)] || after == events + [e] + [Unmarked(e.id)]))
  }

  lemma MarkTraced(events: seq<Event>, after: seq<Event>, e: Event, ids: seq<string>, place: nat, now: int,
                   before: Option<int>, at: int)
    requires TraceOk(events, now, before) && Showing(events, ids, place)
    requires place < |ids| && Marks(e) == Some(ids[place]) && Stamp(e) == Some(at)
    requires now <= at && (before.Some? ==> before.value <= at)
    requires Wrote(events, after, e)
    ensures TraceOk(after, now, Some(at + 1)) && Showing(after, ids, place + 1)
  {
    ShownIsSaid(events, ids, place, ids[place]);
    StampTraced(events, e, ids, place, now, before, at);
    TraceWaits(events, now, before, Some(at + 1));
    ShowingFurther(events, ids, place, place + 1);
    hide TraceOk, Showing;
    if e.Marked? {
      FailureTraced(events, Unmarked(e.id), ids, place + 1, now, Some(at + 1));
      FailureTraced(events + [e], Unmarked(e.id), ids, place + 1, now, Some(at + 1));
    }
  }

  lemma StampTraced(events: seq<Event>, e: Event, ids: seq<string>, place: nat, now: int, before: Option<int>, at: int)
    requires TraceOk(events, now, before) && Showing(events, ids, place)
    requires place < |ids| && Marks(e) == Some(ids[place]) && Stamp(e) == Some(at)
    requires now <= at && (before.Some? ==> before.value <= at)
    ensures TraceOk(events + [e], now, Some(at + 1)) && Showing(events + [e], ids, place + 1)
  {
    ShownIsSaid(events, ids, place, ids[place]);
    hide AsShown, Showing;
    TracedGrows(events, e, now, before, Some(at + 1));
    StampIsShown(events, e, ids, place);
  }

  /** A failure noted marks nothing. */
  lemma FailureTraced(events: seq<Event>, e: Event, ids: seq<string>, place: nat, now: int, next: Option<int>)
    requires TraceOk(events, now, next) && Showing(events, ids, place) && (e.Unmarked? || e.Unlogged?)
    ensures TraceOk(events + [e], now, next) && Showing(events + [e], ids, place)
  {
    hide TraceOk, Showing;
    TraceGrows(events, e, now, next);
    ShowingOn(events, e, ids, place);
  }

  /** No message goes out after event `from`. */
  ghost predicate NoSends(events: seq<Event>, from: nat) {
    forall k :: from <= k < |events| ==> !events[k].Sent?
  }

  /** Nor does a focus become the incumbent. */
  ghost predicate OnlyMarks(events: seq<Event>, from: nat) {
    NoSends(events, from) && forall k :: from <= k < |events| ==> !events[k].FocusPublished?
  }

  lemma OnlyMarksGrows(events: seq<Event>, events0: seq<Event>, events1: seq<Event>, e: Event)
    requires events <= events0 && OnlyMarks(events0, |events|) && !e.Sent? && !e.FocusPublished?
    requires Wrote(events0, events1, e)
    ensures events <= events1 && OnlyMarks(events1, |events|)
  {
  }

  /** Each mark after event `from` is on its row. */
  ghost predicate MarksLanded(events: seq<Event>, from: nat, rows: map<string, Row>) {
    from <= |events| && LandedOn(events[from..], rows)
  }

  lemma MarksStayLanded(events: seq<Event>, after: seq<Event>, from: nat, rows: map<string, Row>,
                        rows': map<string, Row>)
    requires events <= after && MarksLanded(events, from, rows) && Grows(rows, rows')
    requires LandedOn(after[|events|..], rows')
    ensures MarksLanded(after, from, rows')
  {
    assert after[from..] == events[from..] + after[|events|..];
  }

  lemma LandedFromEarlier(events: seq<Event>, from: nat, since: nat, rows: map<string, Row>)
    requires from <= since && MarksLanded(events, since, rows)
    requires forall k :: from <= k < since ==> !events[k].Marked?
    ensures MarksLanded(events, from, rows)
  {
    forall k | 0 <= k < |events| - from && events[from..][k].Marked?
      ensures events[from..][k].id in rows && rows[events[from..][k].id].Rank() == 2
    {
      assert events[from..][k] == events[since..][from + k - since];
    }
  }

  lemma NothingLandedYet(events: seq<Event>, rows: map<string, Row>)
    ensures MarksLanded(events, |events|, rows)
  {
  }

  /** A unit that cannot be read is held; a row of no unit never is. */
  predicate Held(unreadable: string -> bool, unit: string) {
    unit != "" && unreadable(unit)
  }

  /** Units planned and rows retired, and nothing else; none of them of a unit that is held. */
  ghost predicate PlanTrace(events: seq<Event>, unreadable: string -> bool) {
    && PlannedFirst(events) && PlannedOnce(events)
    && forall k :: 0 <= k < |events| ==> (events[k].Planned? || events[k].Retired?) && !Held(unreadable, events[k].unit)
  }

  lemma PlansAreTraced(events: seq<Event>, unreadable: string -> bool, now: int)
    requires PlanTrace(events, unreadable)
    ensures TraceOk(events, now, None)
  {
    hide ShownAt, ShownLater;
  }

  lemma PlanNext(events: seq<Event>, unreadable: string -> bool, unit: string)
    requires PlanTrace(events, unreadable) && !Held(unreadable, unit) && Planned(unit) !in events
    ensures PlanTrace(events + [Planned(unit)], unreadable)
    ensures PlannedBefore(events + [Planned(unit)], |events| + 1, unit)
  {
    var e := Planned(unit);
    var after := events + [e];
    assert after[|events|] == e;
    forall k | 0 <= k < |after| && after[k].Retired?
      ensures PlannedBefore(after, k, after[k].unit)
    {
      PlannedStays(events, e, k, after[k].unit);
    }
  }

  lemma RetireNext(events: seq<Event>, unreadable: string -> bool, id: string, unit: string)
    requires PlanTrace(events, unreadable) && !Held(unreadable, unit) && PlannedBefore(events, |events|, unit)
    ensures PlanTrace(events + [Retired(id, unit)], unreadable)
    ensures PlannedBefore(events + [Retired(id, unit)], |events| + 1, unit)
  {
    var e := Retired(id, unit);
    var after := events + [e];
    PlannedStays(events, e, |events|, unit);
    forall k | 0 <= k < |after| && after[k].Retired?
      ensures PlannedBefore(after, k, after[k].unit)
    {
      PlannedStays(events, e, k, after[k].unit);
    }
  }

  predicate IsMark(e: Event, id: string, again: bool) {
    if again then e.Reasked? && e.id == id else e.Marked? && e.id == id
  }

  /** Since event `from` the id was marked surfaced, or asked again. */
  ghost predicate MarkedSince(events: seq<Event>, from: nat, id: string, again: bool) {
    exists k :: from <= k < |events| && IsMark(events[k], id, again)
  }

  ghost predicate AllMarked(events: seq<Event>, from: nat, ids: seq<string>, again: bool) {
    forall k :: 0 <= k < |ids| ==> MarkedSince(events, from, ids[k], again)
  }

  lemma MarkedStays(events: seq<Event>, after: seq<Event>, from: nat, ids: seq<string>, again: bool)
    requires AllMarked(events, from, ids, again) && events <= after
    ensures AllMarked(after, from, ids, again)
  {
  }

  lemma OneMoreMarked(events: seq<Event>, from: nat, ids: seq<string>, k: nat, again: bool)
    requires k < |ids| && AllMarked(events, from, ids[..k], again) && MarkedSince(events, from, ids[k], again)
    ensures AllMarked(events, from, ids[..k + 1], again)
  {
  }
}
