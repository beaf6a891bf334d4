/**
 How often a reminder goes out (internal/brain/deliver.go, reminder_step.go,
 render.go): what has to hold of the rows, of the pushes sent so far and of what
 a process remembers for a reminder never to be pushed twice by one process.

 `since` is how much was pushed before the process began, `unmarked` what it sent
 and could not mark, `behind` what stood in a message after a reminder whose audit
 row failed, and `forgotten` both of these of earlier processes. What they are is
 read off the events the ports recorded.
 */
module PushLedger {
  import opened Options
  import opened Stores
  import opened PassTrace
  import opened PushQueue

  /** A row stamped with its time of day is retried as a push until it is delivered; a recurring one from before waits
      for its digest. */
  predicate Pushed(row: Row) {
    row.rule.None? || (row.anchor.Some? && row.anchor.value.at.Some?)
  }

  /** A fired row with no memory of having been sent is queued again. */
  predicate Retried(row: Row, id: string, unmarked: set<string>) {
    row.Rank() == 1 && Pushed(row) && id !in unmarked
  }

  datatype Ledger = Ledger(pushed: seq<string>, since: nat, unmarked: set<string>, behind: set<string>,
                           forgotten: set<string>)
  {
    /** What this process pushed. */
    function Life(): seq<string> {
      if since <= |pushed| then pushed[since..] else []
    }

    /** What is remembered once these events have come to pass. */
    function After(events: seq<Event>): Ledger {
      this.(pushed := pushed + Pushes(events), unmarked := unmarked + LeftUnmarked(events),
            behind := behind + LeftBehind(events))
    }

    function AfterAll(passes: seq<seq<Event>>): Ledger {
      this.(pushed := pushed + PushesOf(passes), unmarked := unmarked + UnmarkedOf(passes),
            behind := behind + BehindOf(passes))
    }
  }

  // ---- what the events of a pass leave to remember ----

  /** Every reminder a push said, in order. */
  function Pushes(events: seq<Event>): seq<string> {
    if events == [] then []
    else
      var e := events[|events| - 1];
      Pushes(events[..|events| - 1]) + if e.Sent? && e.push then e.ids else []
  }

  /** The reminders of the last message, if it was a push. */
  function LastPush(events: seq<Event>): seq<string> {
    if events == [] then []
    else
      var e := events[|events| - 1];
      if e.Sent? then if e.push then e.ids else [] else LastPush(events[..|events| - 1])
  }

  /** The reminders of a push whose mark reported a failure. */
  function LeftUnmarked(events: seq<Event>): set<string> {
    if events == [] then {}
    else
      var e, before := events[|events| - 1], events[..|events| - 1];
      LeftUnmarked(before) + if e.Unmarked? && e.id in LastPush(before) then {e.id} else {}
  }

  /** An audit row of the marking of a push. */
  predicate MarksRow(action: Action) {
    action == DeliveredRow || action == ConflictRow
  }

  /** What stands in a message after id. */
  function StandAfter(ids: seq<string>, id: string): set<string> {
    set i, j | 0 <= i < j < |ids| && ids[i] == id :: ids[j]
  }

  /** The reminders of a push that stand after one whose audit row could not be written. */
  function LeftBehind(events: seq<Event>): set<string> {
    if events == [] then {}
    else
      var e, before := events[|events| - 1], events[..|events| - 1];
      LeftBehind(before) + if e.Unlogged? && MarksRow(e.action) then StandAfter(LastPush(before), e.id) else {}
  }

  function PushesOf(passes: seq<seq<Event>>): seq<string> {
    if passes == [] then [] else PushesOf(passes[..|passes| - 1]) + Pushes(passes[|passes| - 1])
  }

  function UnmarkedOf(passes: seq<seq<Event>>): set<string> {
    if passes == [] then {} else UnmarkedOf(passes[..|passes| - 1]) + LeftUnmarked(passes[|passes| - 1])
  }

  function BehindOf(passes: seq<seq<Event>>): set<string> {
    if passes == [] then {} else BehindOf(passes[..|passes| - 1]) + LeftBehind(passes[|passes| - 1])
  }

  /** What the process that ends with these passes may send again after a restart: what it sent and could not mark, and
      what it left behind. */
  function ForgottenOf(passes: seq<seq<Event>>): set<string> {
    UnmarkedOf(passes) + BehindOf(passes)
  }

  /** The i-th event is the last message, and a push. */
  ghost predicate LastIs(events: seq<Event>, i: int) {
    0 <= i < |events| && events[i].Sent? && events[i].push && NoSends(events, i + 1)
  }

  lemma {:induction false} LastPushIs(events: seq<Event>, id: string)
    ensures id in LastPush(events) <==> exists i :: LastIs(events, i) && id in events[i].ids
    ensures forall i :: LastIs(events, i) ==> LastPush(events) == events[i].ids
  {
    if events != [] {
      var n := |events| - 1;
      LastPushIs(events[..n], id);
      forall i
        ensures LastIs(events, i) <==> if events[n].Sent? then i == n && events[n].push else LastIs(events[..n], i)
      {
        assert 0 <= i < n && events[n].Sent? ==> !NoSends(events, i + 1);
      }
      if events[n].Sent? && events[n].push {
        assert LastIs(events, n);
      }
    }
  }

  /** The j-th event is an audit row that failed about a reminder of push i, and id stands after it there. */
  ghost predicate StandsBehind(events: seq<Event>, i: int, j: int, id: string) {
    && 0 <= j < |events| && events[j].Unlogged? && MarksRow(events[j].action)
    && LastIs(events[..j], i) && id in StandAfter(events[i].ids, events[j].id)
  }

  lemma LastStands(events: seq<Event>, id: string)
    requires events != []
    ensures var n := |events| - 1;
            var e, before := events[n], events[..n];
            && LeftBehind(events) == LeftBehind(before) +
                 (if e.Unlogged? && MarksRow(e.action) then StandAfter(LastPush(before), e.id) else {})
            && (e.Unlogged? && MarksRow(e.action) && id in StandAfter(LastPush(before), e.id) <==>
                  exists i :: StandsBehind(events, i, n, id))
  {
    var n := |events| - 1;
    var e, before := events[n], events[..n];
    LastPushIs(before, id);
    hide LeftBehind, LastIs, LastPush;
    if e.Unlogged? && MarksRow(e.action) && id in StandAfter(LastPush(before), e.id) {
      var a, b :| 0 <= a < b < |LastPush(before)| && LastPush(before)[a] == e.id && LastPush(before)[b] == id;
      var i :| LastIs(before, i) && id in before[i].ids;
      assert StandsBehind(events, i, n, id);
    }
  }

  /** Left behind is exactly what stands in a push after a reminder whose audit row could not be written. */
  lemma {:induction false} BehindExactlyWhen(events: seq<Event>, id: string)
    ensures id in LeftBehind(events) <==> exists i, j :: StandsBehind(events, i, j, id)
  {
    if events != [] {
      var n := |events| - 1;
      var e, before := events[n], events[..n];
      BehindExactlyWhen(before, id);
      forall i, j | 0 <= j < n
        ensures StandsBehind(events, i, j, id) <==> StandsBehind(before, i, j, id)
      {
        assert before[..j] == events[..j];
      }
      hide LeftBehind, StandsBehind;
      LastStands(events, id);
    }
  }

  /** The j-th event is a mark of a reminder of push i that reported a failure. */
  ghost predicate FailsToMark(events: seq<Event>, i: int, j: int, id: string) {
    0 <= j < |events| && events[j] == Unmarked(id) && LastIs(events[..j], i) && id in events[i].ids
  }

  lemma LastFails(events: seq<Event>, id: string)
    requires events != []
    ensures var n := |events| - 1;
            var e, before := events[n], events[..n];
            && LeftUnmarked(events) == LeftUnmarked(before) +
                 (if e.Unmarked? && e.id in LastPush(before) then {e.id} else {})
            && (e == Unmarked(id) && id in LastPush(before) <==> exists i :: FailsToMark(events, i, n, id))
  {
    var n := |events| - 1;
    var before := events[..n];
    LastPushIs(before, id);
    hide LeftUnmarked, LastIs, LastPush;
    if events[n] == Unmarked(id) && id in LastPush(before) {
      var i :| LastIs(before, i) && id in before[i].ids;
      assert FailsToMark(events, i, n, id);
    }
  }

  lemma {:induction false} UnmarkedExactlyWhen(events: seq<Event>, id: string)
    ensures id in LeftUnmarked(events) <==> exists i, j :: FailsToMark(events, i, j, id)
  {
    if events != [] {
      var n := |events| - 1;
      var before := events[..n];
      UnmarkedExactlyWhen(before, id);
      forall i, j | 0 <= j < n
        ensures FailsToMark(events, i, j, id) <==> FailsToMark(before, i, j, id)
      {
        assert before[..j] == events[..j];
      }
      hide LeftUnmarked, FailsToMark;
      LastFails(events, id);
    }
  }

  /** Over a history, what was left is what some pass of it left. */
  lemma {:induction false} LeftBySomePass(passes: seq<seq<Event>>, id: string)
    ensures id in BehindOf(passes) <==> exists k :: 0 <= k < |passes| && id in LeftBehind(passes[k])
    ensures id in UnmarkedOf(passes) <==> exists k :: 0 <= k < |passes| && id in LeftUnmarked(passes[k])
  {
    if passes != [] {
      var n := |passes| - 1;
      LeftBySomePass(passes[..n], id);
      hide LeftBehind, LeftUnmarked;
      assert forall k :: 0 <= k < n ==> passes[..n][k] == passes[k];
    }
  }

  lemma EventNext(l: Ledger, events: seq<Event>, e: Event)
    ensures LastPush(events + [e]) == if e.Sent? then if e.push then e.ids else [] else LastPush(events)
    ensures l.After(events + [e]) ==
            var now := l.After(events);
            now.(pushed := now.pushed + (if e.Sent? && e.push then e.ids else []),
                 unmarked := now.unmarked + (if e.Unmarked? && e.id in LastPush(events) then {e.id} else {}),
                 behind := now.behind + (if e.Unlogged? && MarksRow(e.action) then StandAfter(LastPush(events), e.id)
                                         else {}))
  {
    assert (events + [e])[..|events|] == events;
  }

  lemma NothingYet(l: Ledger)
    ensures l.After([]) == l == l.AfterAll([]) && LastPush([]) == []
  {
    assert l.pushed + [] == l.pushed;
  }

  /** Plans and retirements leave nothing to remember. */
  lemma {:induction false} PlansAreNoPushes(l: Ledger, events: seq<Event>)
    requires forall k :: 0 <= k < |events| ==> events[k].Planned? || events[k].Retired?
    ensures l.After(events) == l && LastPush(events) == []
  {
    NothingYet(l);
    if events != [] {
      var n := |events| - 1;
      assert events == events[..n] + [events[n]];
      PlansAreNoPushes(l, events[..n]);
      EventNext(l, events[..n], events[n]);
      assert l.pushed + [] == l.pushed;
    }
  }

  /** Neither does a digest, whatever of it could not be marked. */
  lemma {:induction false} ADigestIsNoPush(l: Ledger, before: seq<Event>, after: seq<Event>)
    requires before <= after && (after != before ==> after[|before|].Sent? && !after[|before|].push)
    requires NoSends(after, |before| + 1)
    ensures l.After(after) == l.After(before) && (after != before ==> LastPush(after) == [])
    decreases |after|
  {
    if after != before {
      var n := |after| - 1;
      assert after == after[..n] + [after[n]];
      ADigestIsNoPush(l, before, after[..n]);
      EventNext(l, after[..n], after[n]);
      assert l.After(before).pushed + [] == l.After(before).pushed;
    }
  }

  lemma PassNext(l: Ledger, passes: seq<seq<Event>>, events: seq<Event>)
    ensures l.AfterAll(passes + [events]) == l.AfterAll(passes).After(events)
  {
    OnePassMore(passes, events);
    assert l.pushed + (PushesOf(passes) + Pushes(events)) == l.pushed + PushesOf(passes) + Pushes(events);
    hide PushesOf, UnmarkedOf, BehindOf, Pushes, LeftUnmarked, LeftBehind;
  }

  /** The last event is an audit row about the reminder's mark that failed. */
  predicate RowLost(events: seq<Event>, id: string) {
    events != [] && var e := events[|events| - 1]; e.Unlogged? && MarksRow(e.action) && e.id == id
  }

  /** The audit row about the k-th reminder of the message was lost, and the reminders after it were left behind. */
  predicate LostAt(events: seq<Event>, group: seq<Copy>, k: nat, behind: set<string>, after: set<string>)
    requires k < |group|
  {
    RowLost(events, group[k].id) && after == behind + SetOf(Ids(group)[k + 1..])
  }

  /** Pass after pass, what is pushed again was left by a pass before it. */
  ghost predicate Steady(l: Ledger, passes: seq<seq<Event>>) {
    forall n :: 0 <= n < |passes| ==> PushedAgainIfLeft(l.AfterAll(passes[..n]), l.AfterAll(passes[..n + 1]).pushed)
  }

  ghost predicate AgainOnlyWhatWasLeft(passes: seq<seq<Event>>) {
    forall n, id :: 0 <= n < |passes| && id in Pushes(passes[n]) && id in PushesOf(passes[..n]) ==>
      id in ForgottenOf(passes[..n])
  }

  lemma SteadyNext(l: Ledger, passes: seq<seq<Event>>, events: seq<Event>)
    requires Steady(l, passes) && PushedAgainIfLeft(l.AfterAll(passes), l.AfterAll(passes).After(events).pushed)
    ensures Steady(l, passes + [events])
  {
    PassNext(l, passes, events);
    hide PushedAgainIfLeft, Ledger.After, Ledger.AfterAll;
    var after := passes + [events];
    assert after[..|passes|] == passes && after[..|passes| + 1] == after;
    forall n | 0 <= n < |passes|
      ensures PushedAgainIfLeft(l.AfterAll(after[..n]), l.AfterAll(after[..n + 1]).pushed)
    {
      assert after[..n] == passes[..n] && after[..n + 1] == passes[..n + 1];
    }
  }

  /** A process that starts with nothing of its own adds to a history that stays like that. */
  lemma LifeIsSteady(passes: seq<seq<Event>>, more: seq<seq<Event>>, before: seq<string>)
    requires AgainOnlyWhatWasLeft(passes) && before == PushesOf(passes)
    requires Steady(Ledger(before, |before|, {}, {}, ForgottenOf(passes)), more)
    ensures AgainOnlyWhatWasLeft(passes + more)
  {
    var all := passes + more;
    hide Pushes, PushesOf, UnmarkedOf, BehindOf, ForgottenOf, Steady;
    forall n, id | 0 <= n < |all| && id in Pushes(all[n]) && id in PushesOf(all[..n])
      ensures id in ForgottenOf(all[..n])
    {
      if n < |passes| {
        assert all[..n] == passes[..n];
      } else {
        assert all[..n] == passes + more[..n - |passes|];
        OneOfALife(passes, more, n - |passes|, before, id);
      }
    }
  }

  lemma OneOfALife(passes: seq<seq<Event>>, more: seq<seq<Event>>, n: nat, before: seq<string>, id: string)
    requires n < |more| && before == PushesOf(passes)
    requires Steady(Ledger(before, |before|, {}, {}, ForgottenOf(passes)), more)
    requires id in Pushes(more[n]) && id in PushesOf(passes + more[..n])
    ensures id in ForgottenOf(passes + more[..n])
  {
    var l := Ledger(before, |before|, {}, {}, ForgottenOf(passes));
    var now := l.AfterAll(more[..n]);
    assert more[..n + 1] == more[..n] + [more[n]];
    assert PushedAgainIfLeft(now, l.AfterAll(more[..n + 1]).pushed);
    PassNext(l, more[..n], more[n]);
    hide Pushes, PushesOf, UnmarkedOf, BehindOf, ForgottenOf, Steady;
    LifeSoFar(passes, more[..n], before);
    hide Ledger.AfterAll;
    var k :| 0 <= k < |Pushes(more[n])| && Pushes(more[n])[k] == id;
    assert now.After(more[n]).pushed[|now.pushed| + k] == id;
  }

  lemma LifeSoFar(passes: seq<seq<Event>>, more: seq<seq<Event>>, before: seq<string>)
    requires before == PushesOf(passes)
    ensures var now := Ledger(before, |before|, {}, {}, ForgottenOf(passes)).AfterAll(more);
            now.pushed == PushesOf(passes + more) && now.behind + now.forgotten <= ForgottenOf(passes + more)
  {
    PassesJoin(passes, more);
    hide PushesOf, UnmarkedOf, BehindOf;
  }

  lemma OnePassMore(passes: seq<seq<Event>>, events: seq<Event>)
    ensures PushesOf(passes + [events]) == PushesOf(passes) + Pushes(events)
    ensures UnmarkedOf(passes + [events]) == UnmarkedOf(passes) + LeftUnmarked(events)
    ensures BehindOf(passes + [events]) == BehindOf(passes) + LeftBehind(events)
  {
    assert (passes + [events])[..|passes|] == passes;
    hide Pushes, LeftUnmarked, LeftBehind;
  }

  ghost predicate Joins(a: seq<seq<Event>>, b: seq<seq<Event>>) {
    && PushesOf(a + b) == PushesOf(a) + PushesOf(b)
    && UnmarkedOf(a + b) == UnmarkedOf(a) + UnmarkedOf(b) && BehindOf(a + b) == BehindOf(a) + BehindOf(b)
  }

  lemma JoinsNext(a: seq<seq<Event>>, b: seq<seq<Event>>, events: seq<Event>)
    requires Joins(a, b)
    ensures Joins(a, b + [events])
  {
    hide PushesOf, UnmarkedOf, BehindOf, Pushes, LeftUnmarked, LeftBehind;
    assert a + (b + [events]) == (a + b) + [events];
    OnePassMore(b, events);
    OnePassMore(a + b, events);
    assert PushesOf(a) + (PushesOf(b) + Pushes(events)) == PushesOf(a) + PushesOf(b) + Pushes(events);
  }

  lemma {:induction false} PassesJoin(a: seq<seq<Event>>, b: seq<seq<Event>>)
    ensures Joins(a, b)
  {
    if b == [] {
      assert a + b == a && PushesOf(a) + [] == PushesOf(a);
    } else {
      PassesJoin(a, b[..|b| - 1]);
      assert b == b[..|b| - 1] + [b[|b| - 1]];
      hide Joins;
      JoinsNext(a, b[..|b| - 1], b[|b| - 1]);
    }
  }

  lemma StandAfterIs(ids: seq<string>, k: nat)
    requires k < |ids| && Apart(ids)
    ensures StandAfter(ids, ids[k]) == SetOf(ids[k + 1..])
  {
    forall id
      ensures id in StandAfter(ids, ids[k]) <==> id in SetOf(ids[k + 1..])
    {
      if id in StandAfter(ids, ids[k]) {
        var i, j :| 0 <= i < j < |ids| && ids[i] == ids[k] && ids[j] == id;
        assert ids[k + 1..][j - k - 1] == id;
      }
      if id in SetOf(ids[k + 1..]) {
        var j :| 0 <= j < |ids| - k - 1 && ids[k + 1..][j] == id;
        assert ids[k + 1 + j] == id;
      }
    }
  }

  /** A reminder is in two pushes only if it is one of `behind`. */
  ghost predicate NoRepeat(pushes: seq<string>, behind: set<string>) {
    forall i, j :: 0 <= i < j < |pushes| && pushes[i] == pushes[j] ==> pushes[i] in behind
  }

  /** Whatever was pushed is marked or over, or remembered. */
  ghost predicate Accounted(rows: map<string, Row>, pushes: seq<string>, unmarked: set<string>, behind: set<string>) {
    forall i :: 0 <= i < |pushes| ==> Settled(rows, pushes[i], unmarked, behind)
  }

  ghost predicate Settled(rows: map<string, Row>, id: string, unmarked: set<string>, behind: set<string>) {
    id in rows && rows[id].Rank() >= 1 && (rows[id].Rank() == 2 || id in unmarked || id in behind)
  }

  /** What a process holds of the pushes: over its own life only `behind` can repeat, over all lives also what a
      restart forgot. */
  ghost predicate Kept(rows: map<string, Row>, l: Ledger) {
    && l.since <= |l.pushed|
    && NoRepeat(l.Life(), l.behind) && NoRepeat(l.pushed, l.behind + l.forgotten)
    && Accounted(rows, l.Life(), l.unmarked, l.behind) && Accounted(rows, l.pushed, l.unmarked, l.behind + l.forgotten)
  }

  lemma KeptMeans(rows: map<string, Row>, l: Ledger)
    requires Kept(rows, l)
    ensures l.since <= |l.pushed| && NoRepeat(l.Life(), l.behind) && NoRepeat(l.pushed, l.behind + l.forgotten)
  {
  }

  /** Of what was pushed since, a reminder pushed before was left behind by this process, or left by an earlier one. */
  ghost predicate PushedAgainIfLeft(l: Ledger, pushed: seq<string>) {
    forall k :: |l.pushed| <= k < |pushed| ==>
      (pushed[k] in l.Life() ==> pushed[k] in l.behind) && (pushed[k] in l.pushed ==> pushed[k] in l.behind + l.forgotten)
  }

  lemma WaitingArePushed(rows: map<string, Row>, l: Ledger, ids: seq<string>, pushed: seq<string>)
    requires AllWait(rows, ids, l) && PushedOnce(l.pushed, pushed, ids)
    ensures PushedAgainIfLeft(l, pushed)
  {
    forall k | |l.pushed| <= k < |pushed|
      ensures Waits(rows, pushed[k], l)
    {
      assert pushed[|l.pushed|..][k - |l.pushed|] == pushed[k];
      assert pushed[k] in pushed[|l.pushed|..];
      var j :| 0 <= j < |ids| && ids[j] == pushed[k];
      assert Waits(rows, ids[j], l);
    }
  }

  /** A row waiting to be pushed: fired, and not pushed yet unless it is one that can repeat. */
  ghost predicate Waits(rows: map<string, Row>, id: string, l: Ledger) {
    && id in rows && rows[id].Rank() >= 1
    && (id in l.Life() ==> id in l.behind) && (id in l.pushed ==> id in l.behind + l.forgotten)
  }

  ghost predicate AllWait(rows: map<string, Row>, ids: seq<string>, l: Ledger) {
    forall k :: 0 <= k < |ids| ==> Waits(rows, ids[k], l)
  }

  lemma GrowsIsReflexive(rows: map<string, Row>)
    ensures Grows(rows, rows)
  {
  }

  lemma GrowsKeepsKept(rows: map<string, Row>, after: map<string, Row>, l: Ledger)
    requires Grows(rows, after) && Kept(rows, l)
    ensures Kept(after, l)
  {
  }

  lemma GrowsKeepsWaiting(rows: map<string, Row>, after: map<string, Row>, ids: seq<string>, l: Ledger)
    requires Grows(rows, after) && AllWait(rows, ids, l)
    ensures AllWait(after, ids, l)
  {
  }

  lemma NoneWaits(rows: map<string, Row>, l: Ledger)
    ensures Grows(rows, rows) && AllWait(rows, [], l)
  {
  }

  function SetOf(ids: seq<string>): set<string> {
    set i | 0 <= i < |ids| :: ids[i]
  }

  predicate Apart(ids: seq<string>) {
    forall i, j :: 0 <= i < j < |ids| ==> ids[i] != ids[j]
  }

  /** The marks still to write: each row sent is accounted for by being one of them. */
  ghost predicate Marking(rows: map<string, Row>, l: Ledger, left: set<string>) {
    && l.since <= |l.pushed|
    && NoRepeat(l.Life(), l.behind) && NoRepeat(l.pushed, l.behind + l.forgotten)
    && Accounted(rows, l.Life(), l.unmarked, l.behind + left)
    && Accounted(rows, l.pushed, l.unmarked, l.behind + l.forgotten + left)
  }

  lemma StartMarking(rows: map<string, Row>, l: Ledger, ids: seq<string>)
    requires Kept(rows, l) && AllWait(rows, ids, l) && Apart(ids)
    ensures Marking(rows, l.(pushed := l.pushed + ids), SetOf(ids))
  {
  }

  /** A row marked, moved on by another or remembered is no longer left to mark. */
  lemma MarkOne(rows: map<string, Row>, after: map<string, Row>, l: Ledger, unmarked: set<string>,
                left: set<string>, rest: set<string>, id: string)
    requires Marking(rows, l, left) && Grows(rows, after)
    requires l.unmarked <= unmarked && left == rest + {id}
    requires id in rows ==> after[id].Rank() == 2 || id in unmarked
    ensures Marking(after, l.(unmarked := unmarked), rest)
  {
  }

  /** Where an audit row fails, what is left to mark is behind. */
  lemma LeaveRest(rows: map<string, Row>, l: Ledger, left: set<string>)
    requires Marking(rows, l, left)
    ensures Marking(rows, l.(behind := l.behind + left), {})
  {
  }

  lemma StopMarking(rows: map<string, Row>, l: Ledger)
    requires Marking(rows, l, {})
    ensures Kept(rows, l)
  {
  }

  lemma LeftToMark(ids: seq<string>, k: nat)
    requires k < |ids|
    ensures SetOf(ids[k..]) == SetOf(ids[k + 1..]) + {ids[k]}
  {
  }

  ghost predicate AllFired(rows: map<string, Row>, ids: seq<string>) {
    forall k :: 0 <= k < |ids| ==> ids[k] in rows && rows[ids[k]].Rank() >= 1
  }

  /** Each is surfaced, or over. */
  ghost predicate AllOver(rows: map<string, Row>, ids: seq<string>) {
    forall k :: 0 <= k < |ids| ==> ids[k] in rows && rows[ids[k]].Rank() == 2
  }

  lemma FiredAt(rows: map<string, Row>, group: seq<Copy>, k: nat)
    requires k < |group| && AllFired(rows, Ids(group))
    ensures Ids(group)[k] == group[k].id && group[k].id in rows && rows[group[k].id].Rank() >= 1
  {
  }

  lemma ReadyToSend(rows: map<string, Row>, group: seq<Copy>, l: Ledger)
    requires DistinctIds(group) && AllWait(rows, Ids(group), l)
    ensures Apart(Ids(group)) && AllFired(rows, Ids(group))
  {
  }

  lemma NoneLeft(rows: map<string, Row>)
    ensures SetOf([]) == {} && AllOver(rows, [])
  {
  }

  lemma FiredAndOverStay(rows: map<string, Row>, after: map<string, Row>, ids: seq<string>, k: nat)
    requires Grows(rows, after) && AllFired(rows, ids) && k < |ids|
    ensures AllFired(after, ids)
    ensures AllOver(rows, ids[..k]) ==> AllOver(after, ids[..k])
    ensures AllOver(rows, ids[..k]) && ids[k] in after && after[ids[k]].Rank() == 2 ==> AllOver(after, ids[..k + 1])
  {
  }

  lemma JustFiredWaits(rows: map<string, Row>, after: map<string, Row>, id: string, l: Ledger)
    requires Kept(rows, l)
    requires id in rows && rows[id].status == Armed && id in after && after[id].status == Fired
    ensures Waits(after, id, l)
  {
  }

  lemma RetriedWaits(rows: map<string, Row>, id: string, l: Ledger)
    requires Kept(rows, l)
    requires id in rows && rows[id].Rank() == 1 && id !in l.unmarked
    ensures Waits(rows, id, l)
  {
  }

  lemma NotYet(undelivered: seq<Copy>, k: nat, retry: seq<Copy>)
    requires DistinctIds(undelivered) && k < |undelivered|
    requires forall j :: 0 <= j < |retry| ==> retry[j] in undelivered[..k]
    ensures undelivered[k].id !in Ids(retry)
  {
  }

  lemma IdAt(copies: seq<Copy>, k: nat)
    requires k < |copies|
    ensures Ids(copies)[k] == copies[k].id && copies[k].id in Ids(copies)
  {
  }

  lemma OneWaits(rows: map<string, Row>, copies: seq<Copy>, k: nat, l: Ledger)
    requires k < |copies| && AllWait(rows, Ids(copies), l)
    ensures Waits(rows, copies[k].id, l)
  {
    assert Ids(copies)[k] == copies[k].id;
  }

  lemma QueueGrows(queue: seq<Copy>, t: Copy, rows: map<string, Row>, l: Ledger)
    requires DistinctIds(queue) && AllWait(rows, Ids(queue), l) && Waits(rows, t.id, l)
    ensures AllWait(rows, Ids(queue + [t]), l)
    ensures t.id !in Ids(queue) ==> DistinctIds(queue + [t])
    ensures t.id in Ids(queue + [t])
    ensures forall id :: id in Ids(queue) ==> id in Ids(queue + [t])
  {
    assert Ids(queue + [t]) == Ids(queue) + [t.id];
    hide Waits;
    forall k | 0 <= k < |Ids(queue + [t])|
      ensures Waits(rows, Ids(queue + [t])[k], l)
    {
    }
    assert forall k :: 0 <= k < |queue| ==> Ids(queue)[k] == queue[k].id;
  }

  /** What is pushed beyond `before` is of `ids`, each at most once. */
  ghost predicate PushedOnce(before: seq<string>, after: seq<string>, ids: seq<string>) {
    before <= after && Apart(after[|before|..]) && forall id :: id in after[|before|..] ==> id in ids
  }

  ghost predicate NoneIn(ids: seq<string>, others: seq<string>) {
    forall k :: 0 <= k < |ids| ==> ids[k] !in others
  }

  lemma PushedAreApart(before: seq<string>, after: seq<string>, ids: seq<string>)
    requires PushedOnce(before, after, ids)
    ensures Apart(after[|before|..])
  {
  }

  lemma NoPush(pushed: seq<string>, ids: seq<string>)
    ensures PushedOnce(pushed, pushed, ids)
  {
  }

  ghost predicate AllIn(ids: seq<string>, others: seq<string>) {
    forall k :: 0 <= k < |ids| ==> ids[k] in others
  }

  lemma OneMorePush(before: seq<string>, pushed: seq<string>, sent: seq<string>, ids: seq<string>)
    requires PushedOnce(before, pushed, ids) && Apart(sent) && NoneIn(sent, pushed[|before|..])
    requires AllIn(sent, ids)
    ensures PushedOnce(before, pushed + sent, ids)
  {
  }

  lemma StillWaiting(rows: map<string, Row>, after: map<string, Row>, ids: seq<string>, l: Ledger, l': Ledger,
                     sent: seq<string>, from: nat)
    requires from <= |l.pushed| && NoneIn(ids, l.pushed[from..]) && NoneIn(ids, sent)
    requires AllWait(rows, ids, l) && Grows(rows, after)
    requires l.since == l'.since <= |l.pushed| && l.behind <= l'.behind && l.forgotten == l'.forgotten
    requires l'.pushed == l.pushed || l'.pushed == l.pushed + sent
    ensures AllWait(after, ids, l') && NoneIn(ids, l'.pushed[from..])
  {
  }

  lemma GroupsWait(queued: seq<Copy>, groups: seq<seq<Copy>>, rows: map<string, Row>, l: Ledger)
    requires AllWait(rows, Ids(queued), l)
    requires forall t :: t in queued <==> InGroup(groups, t)
    ensures forall i :: 0 <= i < |groups| ==> AllWait(rows, Ids(groups[i]), l)
    ensures forall i, k :: 0 <= i < |groups| && 0 <= k < |groups[i]| ==> Ids(groups[i])[k] in Ids(queued)
    ensures queued == [] && (forall i :: 0 <= i < |groups| ==> groups[i] != []) ==> groups == []
  {
    assert groups != [] && groups[0] != [] ==> groups[0][0] in groups[0] && InGroup(groups, groups[0][0]);
    hide Waits;
    forall i, k | 0 <= i < |groups| && 0 <= k < |groups[i]|
      ensures Waits(rows, Ids(groups[i])[k], l) && Ids(groups[i])[k] in Ids(queued)
    {
      assert InGroup(groups, groups[i][k]);
      var j :| 0 <= j < |queued| && queued[j] == groups[i][k];
      assert Waits(rows, Ids(queued)[j], l);
    }
  }

  lemma GroupsAreApartByIds(queued: seq<Copy>, groups: seq<seq<Copy>>)
    requires forall i :: 0 <= i < |groups| ==> DistinctIds(groups[i])
    requires forall i, j, a, b :: 0 <= i < j < |groups| && a in groups[i] && b in groups[j] ==> a.id != b.id
    ensures forall i, j :: 0 <= i < j < |groups| ==> NoneIn(Ids(groups[j]), Ids(groups[i]))
    ensures forall i :: 0 <= i < |groups| ==> Apart(Ids(groups[i])) && NoneIn(Ids(groups[i]), [])
  {
  }

  /** The messages from the i-th on still wait, and what they say has not been pushed since push `from`. */
  ghost predicate Pend(groups: seq<seq<Copy>>, i: nat, rows: map<string, Row>, l: Ledger, from: nat) {
    && from <= |l.pushed| && l.since <= |l.pushed|
    && (forall j :: i <= j < |groups| ==> PendAt(groups, j, rows, l, from))
    && (forall j, k :: i <= j < k < |groups| ==> NoneIn(Ids(groups[k]), Ids(groups[j])))
  }

  ghost predicate PendAt(groups: seq<seq<Copy>>, j: nat, rows: map<string, Row>, l: Ledger, from: nat)
    requires j < |groups| && from <= |l.pushed|
  {
    && groups[j] != [] && DistinctIds(groups[j]) && Apart(Ids(groups[j]))
    && AllWait(rows, Ids(groups[j]), l) && NoneIn(Ids(groups[j]), l.pushed[from..])
  }

  lemma AllPend(queued: seq<Copy>, groups: seq<seq<Copy>>, rows: map<string, Row>, l: Ledger)
    requires AllWait(rows, Ids(queued), l) && DistinctIds(queued) && Ordered(groups, Grouping(queued))
    requires l.since <= |l.pushed|
    ensures Pend(groups, 0, rows, l, |l.pushed|)
    ensures queued == [] ==> groups == []
    ensures forall i :: 0 <= i < |groups| ==> AllIn(Ids(groups[i]), Ids(queued))
  {
    EachRowGoesInOneMessage(queued, groups);
    GroupsWait(queued, groups, rows, l);
    GroupsAreApartByIds(queued, groups);
    hide AllWait, Ordered, Grouping, NoneIn, Apart;
    assert l.pushed[|l.pushed|..] == [];
  }

  lemma OnePends(groups: seq<seq<Copy>>, i: nat, rows: map<string, Row>, l: Ledger, from: nat)
    requires i < |groups| && Pend(groups, i, rows, l, from)
    ensures from <= |l.pushed| && PendAt(groups, i, rows, l, from)
  {
  }

  lemma NextPends(groups: seq<seq<Copy>>, i: nat, rows: map<string, Row>, after: map<string, Row>, l: Ledger, l': Ledger,
                  from: nat)
    requires i < |groups| && Pend(groups, i, rows, l, from) && Grows(rows, after)
    requires l.since == l'.since && l.behind <= l'.behind && l.forgotten == l'.forgotten
    requires l'.pushed == l.pushed || l'.pushed == l.pushed + Ids(groups[i])
    ensures Pend(groups, i + 1, after, l', from)
  {
    hide AllWait, Apart;
    forall j | i < j < |groups|
      ensures PendAt(groups, j, after, l', from)
    {
      assert PendAt(groups, j, rows, l, from);
      assert NoneIn(Ids(groups[j]), Ids(groups[i]));
      hide Grows, NoneIn, Ids, DistinctIds;
      StillWaiting(rows, after, Ids(groups[j]), l, l', Ids(groups[i]), from);
    }
  }

  predicate AllThere(rows: map<string, Row>, copies: seq<Copy>) {
    forall k :: 0 <= k < |copies| ==> copies[k].id in rows
  }

  lemma StillThere(rows: map<string, Row>, after: map<string, Row>, copies: seq<Copy>)
    requires Grows(rows, after) && AllThere(rows, copies)
    ensures AllThere(after, copies)
  {
  }

  lemma OneIsThere(rows: map<string, Row>, copies: seq<Copy>, k: nat)
    requires AllThere(rows, copies) && k < |copies|
    ensures copies[k].id in rows
  {
  }

  /** No reminder but those of `behind` is in more than n pushes. */
  ghost predicate AtMost(pushes: seq<string>, n: nat, behind: set<string>) {
    forall id :: id !in behind ==> multiset(pushes)[id] <= n
  }

  lemma NothingPushed(rows: map<string, Row>, timers: map<string, TimerRow>)
    ensures NoRepeat([], {}) && Accounted(rows, [], {}, {}) && AtMost([], 0, {}) && TimersOnce(timers, [])
  {
  }

  lemma AllKnown(rows: map<string, Row>, pushed: seq<string>, forgotten: set<string>)
    requires Accounted(rows, pushed, {}, forgotten)
    ensures forall k :: 0 <= k < |pushed| ==> pushed[k] in rows
  {
  }

  lemma ProcessEnds(rows: map<string, Row>, l: Ledger)
    requires Kept(rows, l)
    ensures NoRepeat(l.pushed, l.forgotten + l.behind + l.unmarked) &&
            Accounted(rows, l.pushed, {}, l.forgotten + l.behind + l.unmarked)
    ensures l.since <= |l.pushed| && NoRepeat(l.Life(), l.behind)
  {
  }

  lemma {:induction false} OnceEach(pushes: seq<string>, behind: set<string>, id: string)
    requires NoRepeat(pushes, behind) && id !in behind
    ensures multiset(pushes)[id] <= 1
  {
    if pushes != [] {
      var n := |pushes| - 1;
      assert pushes == pushes[..n] + [pushes[n]];
      OnceEach(pushes[..n], behind, id);
      if pushes[n] == id {
        assert id !in pushes[..n];
        assert id !in multiset(pushes[..n]);
      }
    }
  }

  lemma OneLifeMore(before: seq<string>, pushed: seq<string>, n: nat, behind: set<string>, more: set<string>)
    requires before <= pushed && AtMost(before, n, behind) && NoRepeat(pushed[|before|..], more)
    ensures AtMost(pushed, n + 1, behind + more)
  {
    assert pushed == before + pushed[|before|..];
    forall id | id !in behind + more
      ensures multiset(pushed)[id] <= n + 1
    {
      OnceEach(pushed[|before|..], more, id);
    }
  }

  ghost predicate TimersOnce(rows: map<string, TimerRow>, sent: seq<string>) {
    Apart(sent) && forall k :: 0 <= k < |sent| ==> sent[k] in rows && rows[sent[k]].status != Pending
  }

  lemma TimersGrowKeepsOnce(rows: map<string, TimerRow>, after: map<string, TimerRow>, sent: seq<string>)
    requires TimersGrow(rows, after) && TimersOnce(rows, sent)
    ensures TimersOnce(after, sent)
  {
  }

  // ---- what is tried ----

  function IdsOfEach(groups: seq<seq<Copy>>): (ids: seq<seq<string>>)
    ensures |ids| == |groups|
  {
    seq(|groups|, i requires 0 <= i < |groups| => Ids(groups[i]))
  }

  /** One message is tried for each unit queued, in the order they were queued, saying all its rows in order. */
  ghost predicate TriedAll(queue: seq<Copy>, tried: seq<seq<string>>) {
    exists groups :: Ordered(groups, Grouping(queue)) && tried == IdsOfEach(groups)
  }

  lemma GroupsTried(queue: seq<Copy>, groups: seq<seq<Copy>>)
    requires Ordered(groups, Grouping(queue))
    ensures TriedAll(queue, IdsOfEach(groups))
  {
  }

  lemma NoneTried(groups: seq<seq<Copy>>)
    ensures IdsOfEach(groups[..0]) == []
  {
  }

  lemma OneTried(groups: seq<seq<Copy>>, i: nat)
    requires i < |groups|
    ensures IdsOfEach(groups[..i + 1]) == IdsOfEach(groups[..i]) + [Ids(groups[i])]
  {
  }

  /** Every queued reminder is in one of the messages tried, and nothing else is. */
  lemma EveryQueuedRowIsTried(queue: seq<Copy>, tried: seq<seq<string>>)
    requires DistinctIds(queue) && TriedAll(queue, tried)
    ensures forall id :: id in Ids(queue) <==> TriedIn(tried, id)
  {
    var groups :| Ordered(groups, Grouping(queue)) && tried == IdsOfEach(groups);
    EachRowGoesInOneMessage(queue, groups);
    hide Ordered, Grouping, IdsOfEach, TriedIn, InGroup;
    forall id
      ensures id in Ids(queue) <==> TriedIn(tried, id)
    {
      if id in Ids(queue) {
        QueuedIsTried(queue, groups, id);
      }
      if TriedIn(tried, id) {
        OnlyQueuedAreTried(queue, groups, id);
      }
    }
  }

  lemma QueuedIsTried(queue: seq<Copy>, groups: seq<seq<Copy>>, id: string)
    requires id in Ids(queue)
    requires forall t :: t in queue ==> InGroup(groups, t)
    ensures TriedIn(IdsOfEach(groups), id)
  {
    var k :| 0 <= k < |queue| && Ids(queue)[k] == id;
    assert InGroup(groups, queue[k]);
    var i :| 0 <= i < |groups| && queue[k] in groups[i];
    var j :| 0 <= j < |groups[i]| && groups[i][j] == queue[k];
    assert Ids(groups[i])[j] == id;
    assert IdsOfEach(groups)[i] == Ids(groups[i]);
  }

  lemma OnlyQueuedAreTried(queue: seq<Copy>, groups: seq<seq<Copy>>, id: string)
    requires TriedIn(IdsOfEach(groups), id)
    requires forall t :: InGroup(groups, t) ==> t in queue
    ensures id in Ids(queue)
  {
    var i :| 0 <= i < |groups| && id in Ids(groups[i]);
    var j :| 0 <= j < |groups[i]| && Ids(groups[i])[j] == id;
    assert InGroup(groups, groups[i][j]);
    var k :| 0 <= k < |queue| && queue[k] == groups[i][j];
    assert Ids(queue)[k] == id;
  }

  ghost predicate TriedIn(tried: seq<seq<string>>, id: string) {
    exists i :: 0 <= i < |tried| && id in tried[i]
  }

  /** Something about one of these reminders could not be written. */
  ghost predicate Broke(events: seq<Event>, ids: seq<string>) {
    exists k :: 0 <= k < |events| && FailsFor(events[k], ids)
  }

  predicate FailsFor(e: Event, ids: seq<string>) {
    (e.Unmarked? || e.Unlogged?) && e.id in ids
  }

  /** The messages were tried in order up to one that could not be dealt with. */
  ghost predicate StoppedIn(groups: seq<seq<Copy>>, tried: seq<seq<string>>, events: seq<Event>) {
    exists k :: 0 <= k < |groups| && tried == IdsOfEach(groups[..k + 1]) && Broke(events, Ids(groups[k]))
  }

  /** Every reminder fired is in the queue, each once; and one message was tried for each unit queued, or these were
      tried in order up to one about which something could not be written. */
  ghost predicate FiredIsTried(fired: seq<string>, queue: seq<Copy>, tried: seq<seq<string>>, events: seq<Event>) {
    && DistinctIds(queue) && (forall id :: id in fired ==> id in Ids(queue))
    && exists groups :: Ordered(groups, Grouping(queue)) && (tried == IdsOfEach(groups) || StoppedIn(groups, tried, events))
  }

  lemma BrokeLater(events: seq<Event>, after: seq<Event>, ids: seq<string>)
    requires Broke(events, ids) && events <= after
    ensures Broke(after, ids)
  {
    var k :| 0 <= k < |events| && FailsFor(events[k], ids);
    assert FailsFor(after[k], ids);
  }

  lemma JustBroke(events: seq<Event>, e: Event, ids: seq<string>)
    requires FailsFor(e, ids)
    ensures Broke(events + [e], ids)
  {
    assert FailsFor((events + [e])[|events|], ids);
  }

  lemma StoppedHere(groups: seq<seq<Copy>>, k: nat, events: seq<Event>)
    requires k < |groups| && Broke(events, Ids(groups[k]))
    ensures StoppedIn(groups, IdsOfEach(groups[..k + 1]), events)
  {
  }

  lemma StillTried(fired: seq<string>, queue: seq<Copy>, tried: seq<seq<string>>, events: seq<Event>, after: seq<Event>)
    requires FiredIsTried(fired, queue, tried, events) && events <= after
    ensures FiredIsTried(fired, queue, tried, after)
  {
    hide Ordered, Grouping, DistinctIds;
    var groups :| Ordered(groups, Grouping(queue)) && (tried == IdsOfEach(groups) || StoppedIn(groups, tried, events));
    if StoppedIn(groups, tried, events) {
      var k :| 0 <= k < |groups| && tried == IdsOfEach(groups[..k + 1]) && Broke(events, Ids(groups[k]));
      BrokeLater(events, after, Ids(groups[k]));
      StoppedHere(groups, k, after);
    }
  }

  lemma FiredWasTried(fired: seq<string>, queue: seq<Copy>, groups: seq<seq<Copy>>, tried: seq<seq<string>>,
                      events: seq<Event>)
    requires DistinctIds(queue) && Ordered(groups, Grouping(queue)) && forall id :: id in fired ==> id in Ids(queue)
    requires tried == IdsOfEach(groups) || StoppedIn(groups, tried, events)
    ensures FiredIsTried(fired, queue, tried, events)
  {
    hide Ordered, Grouping, StoppedIn, IdsOfEach, DistinctIds;
  }

  /** Every reminder fired is in one of the messages tried, unless something about a queued one could not be written. */
  lemma AllFiredAreTried(fired: seq<string>, queue: seq<Copy>, tried: seq<seq<string>>, events: seq<Event>)
    requires FiredIsTried(fired, queue, tried, events)
    ensures Broke(events, Ids(queue)) || forall id :: id in fired ==> TriedIn(tried, id)
  {
    var groups :| Ordered(groups, Grouping(queue)) && (tried == IdsOfEach(groups) || StoppedIn(groups, tried, events));
    if tried == IdsOfEach(groups) {
      GroupsTried(queue, groups);
      EveryQueuedRowIsTried(queue, tried);
    } else {
      var k :| 0 <= k < |groups| && tried == IdsOfEach(groups[..k + 1]) && Broke(events, Ids(groups[k]));
      EachRowGoesInOneMessage(queue, groups);
      hide Ordered, Grouping, IdsOfEach;
      GroupIdsQueued(queue, groups, k);
      var j :| 0 <= j < |events| && FailsFor(events[j], Ids(groups[k]));
      assert FailsFor(events[j], Ids(queue));
    }
    hide TriedIn, TriedAll, Ordered, Grouping;
  }

  lemma GroupIdsQueued(queue: seq<Copy>, groups: seq<seq<Copy>>, k: nat)
    requires k < |groups| && forall t :: InGroup(groups, t) ==> t in queue
    ensures forall id :: id in Ids(groups[k]) ==> id in Ids(queue)
  {
    forall id | id in Ids(groups[k])
      ensures id in Ids(queue)
    {
      var j :| 0 <= j < |groups[k]| && Ids(groups[k])[j] == id;
      assert InGroup(groups, groups[k][j]);
      var i :| 0 <= i < |queue| && queue[i] == groups[k][j];
      assert Ids(queue)[i] == id;
    }
  }

  // ---- what is queued ----

  /** Each is as one of the reads from `from` on found it. */
  ghost predicate AsRead(copies: seq<Copy>, found: seq<map<string, Row>>, from: nat) {
    forall k :: 0 <= k < |copies| ==> ReadAs(copies[k], found, from)
  }

  ghost predicate ReadAs(t: Copy, found: seq<map<string, Row>>, from: nat) {
    exists i :: from <= i < |found| && t.id in found[i] && found[i][t.id] == t.row
  }

  lemma QueuedAsRead(queue: seq<Copy>, after: seq<Copy>, more: seq<Copy>, before: seq<map<string, Row>>,
                     found: seq<map<string, Row>>, from: nat, k: nat, keep: Row -> bool)
    requires AsRead(queue, before, from) && before <= found && from <= k < |found| && Found(found[k], more, keep)
    requires forall t :: t in after ==> t in queue || t in more
    ensures AsRead(after, found, from)
  {
    hide Found;
    forall t | t in after
      ensures ReadAs(t, found, from)
    {
      if t in queue {
        assert ReadAs(t, before, from);
        var i :| from <= i < |before| && t.id in before[i] && before[i][t.id] == t.row;
        assert found[i] == before[i];
      } else {
        FoundIsThere(found[k], more, keep, t);
      }
    }
  }

  lemma StillAsRead(queue: seq<Copy>, before: seq<map<string, Row>>, found: seq<map<string, Row>>, from: nat)
    requires AsRead(queue, before, from) && before <= found
    ensures AsRead(queue, found, from)
  {
    forall t | t in queue
      ensures ReadAs(t, found, from)
    {
      assert ReadAs(t, before, from);
      var i :| from <= i < |before| && t.id in before[i] && before[i][t.id] == t.row;
      assert found[i] == before[i];
    }
  }

  lemma FoundIsThere(rows: map<string, Row>, copies: seq<Copy>, keep: Row -> bool, t: Copy)
    requires Found(rows, copies, keep) && t in copies
    ensures t.id in rows && rows[t.id] == t.row
  {
  }
}
