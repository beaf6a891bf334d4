/**
 What one due scan reads and comes to (internal/brain/check.go): its report is
 what the verdicts say of the rows it read, and a scan that writes did what they
 say.
 */
module PassResult {
  import opened Options
  import opened Stores
  import opened DueTally
  import opened PushQueue
  import opened PushLedger
  import opened DigestPass

  /** Armed and due, and not a goal check-in. */
  predicate DueNow(row: Row, now: int) {
    row.status == Armed && row.fireAt <= now && !row.goalAsk
  }

  function DueBy(now: int): Row -> bool {
    (row: Row) => DueNow(row, now)
  }

  // ---- what a whole scan reads and does ----

  /** What the scan read before its push, of the rows as they had become since it began: the due rows, the due timers,
      and, when it can speak, the rows fired and unseen. */
  ghost predicate PushRead(rows: map<string, Row>, found: seq<map<string, Row>>, from: nat,
                           timersFound: seq<map<string, TimerRow>>, timersFrom: nat, trail: Trail, now: int,
                           canDeliver: bool) {
    && from < |found| && Grows(rows, found[from]) && Found(found[from], trail.due, DueBy(now))
    && timersFrom < |timersFound| && TimersFound(timersFound[timersFrom], trail.timers, now)
    && if canDeliver then UndeliveredRead(rows, found, from + 1, trail.undelivered) else trail.undelivered == []
  }

  ghost predicate UndeliveredRead(rows: map<string, Row>, found: seq<map<string, Row>>, from: nat,
                                  undelivered: seq<Copy>) {
    from < |found| && Grows(rows, found[from]) && Found(found[from], undelivered, Unseen)
  }

  lemma ReadOn(rows: map<string, Row>, after: map<string, Row>, before: seq<map<string, Row>>,
               found: seq<map<string, Row>>, timersFound: seq<map<string, TimerRow>>, from: nat, timersFrom: nat,
               trail: Trail, now: int)
    requires before <= found && Grows(rows, after)
    requires PushRead(rows, before, from, timersFound, timersFrom, trail.(undelivered := []), now, false)
    ensures UndeliveredRead(after, found, from + 1, trail.undelivered) ==>
              PushRead(rows, found, from, timersFound, timersFrom, trail, now, true)
  {
  }

  /** And what its digest read, if one was owed. */
  ghost predicate DigestHasRead(found: seq<map<string, Row>>, from: nat, digest: DigestTrail, core: Core) {
    if core.digestOwed then DigestRead(found, from, digest) && AskedAgain(digest.reasks, digest.open, core)
    else digest == NO_DIGEST
  }

  ghost predicate AllRead(rows: map<string, Row>, found: seq<map<string, Row>>, from: nat,
                          timersFound: seq<map<string, TimerRow>>, timersFrom: nat, trail: Trail, core: Core, now: int,
                          hasChannel: bool, hasConversation: bool) {
    var canDeliver := hasChannel && hasConversation;
    && PushRead(rows, found, from, timersFound, timersFrom, trail, now, canDeliver)
    && if hasChannel then DigestHasRead(found, from + (if canDeliver then 2 else 1), trail.digest, core)
       else trail.digest == NO_DIGEST
  }

  lemma AllIsRead(rows: map<string, Row>, before: seq<map<string, Row>>, found: seq<map<string, Row>>, from: nat,
                  timersFound: seq<map<string, TimerRow>>, timersFrom: nat, trail: Trail, digest: DigestTrail, core: Core,
                  now: int, hasChannel: bool, hasConversation: bool)
    requires before <= found && |before| == from + (if hasChannel && hasConversation then 2 else 1)
    requires PushRead(rows, before, from, timersFound, timersFrom, trail, now, hasChannel && hasConversation)
    requires if hasChannel then DigestHasRead(found, |before|, digest, core) else digest == NO_DIGEST
    ensures AllRead(rows, found, from, timersFound, timersFrom, trail.(digest := digest), core, now, hasChannel,
                    hasConversation)
  {
    hide Found, Grows, TimersFound, DigestRead, AskedAgain, DueNow;
  }

  /** The counts are those of the verdicts; a scan that writes did what they say, and tried to say it; a dry run counts
      what it would push. */
  ghost predicate Did(report: Report, trail: Trail, core: Core, canDeliver: bool, unmarked: set<string>,
                      rows: map<string, Row>, timers: map<string, TimerRow>, tried: seq<seq<string>>, commit: bool) {
    && Previews(report, trail, core, canDeliver)
    && if commit
       then SettledBy(rows, timers, trail, core, canDeliver) &&
           (canDeliver ==> AllAreTried(trail, core, true, unmarked, tried))
       else report.delivered == report.fired + |Retries(trail, core, canDeliver, unmarked)|
  }

  /** When a reminder that went out goes out again. A scan that loses no write tries it exactly when it reads it fired
      and unseen, a push and deliverable, and its process does not remember it as sent and not marked. And then it stood
      in a message after one whose audit row failed, or an earlier process sent it and left it unmarked or behind. */
  lemma AReminderGoesOutAgainExactlyWhen(rows: map<string, Row>, l: Ledger, found: seq<map<string, Row>>, from: nat,
                                         timersFound: seq<map<string, TimerRow>>, timersFrom: nat, trail: Trail,
                                         core: Core, now: int, tried: seq<seq<string>>, id: string)
    requires Kept(rows, l) && id in l.pushed
    requires PushRead(rows, found, from, timersFound, timersFrom, trail, now, true)
    requires TallyOf(trail.due, core, true).Some? && AllAreTried(trail, core, true, l.unmarked, tried)
    ensures TriedIn(tried, id) <==> id !in l.unmarked && exists t :: t in trail.undelivered && PushedAgain(t, core, id)
    ensures TriedIn(tried, id) ==> id in l.behind + l.forgotten && (id in l.Life() ==> id in l.behind)
  {
    var sum := TallyOf(trail.due, core, true).value;
    TheTallyIsTheVerdicts(trail.due, core, true, sum);
    UndeliveredAre(trail.undelivered, core, sum.settled, l.unmarked);
    WentOutBefore(rows, l, id);
    NotDueAgain(rows, found[from], trail.due, now, id);
    InIds(Retries(trail, core, true, l.unmarked), id);
    hide TallyOf, RetryOf, StaleOf, MovesByVerdicts, TriedIn, Kept, Ids;
  }

  predicate PushedAgain(t: Copy, core: Core, id: string) {
    t.id == id && Pushed(t.row) && IsDeliverable(core.judge(t, true))
  }

  lemma WentOutBefore(rows: map<string, Row>, l: Ledger, id: string)
    requires Kept(rows, l) && id in l.pushed
    ensures id in rows && rows[id].Rank() >= 1
    ensures rows[id].Rank() == 1 && id !in l.unmarked ==>
              id in l.behind + l.forgotten && (id in l.Life() ==> id in l.behind)
  {
    var k :| 0 <= k < |l.pushed| && l.pushed[k] == id;
    assert Settled(rows, l.pushed[k], l.unmarked, l.behind + l.forgotten);
    if id in l.Life() {
      var j :| 0 <= j < |l.Life()| && l.Life()[j] == id;
      assert Settled(rows, l.Life()[j], l.unmarked, l.behind);
    }
  }

  lemma NotDueAgain(rows: map<string, Row>, found: map<string, Row>, due: seq<Copy>, now: int, id: string)
    requires Grows(rows, found) && Found(found, due, DueBy(now)) && id in rows && rows[id].Rank() >= 1
    ensures id !in Ids(due)
  {
  }

  lemma InIds(copies: seq<Copy>, id: string)
    ensures id in Ids(copies) <==> exists t :: t in copies && t.id == id
  {
    if t :| t in copies && t.id == id {
      var k :| 0 <= k < |copies| && copies[k] == t;
      assert Ids(copies)[k] == id;
    }
  }

  lemma AfterPush(settled: Report, report: Report, trail: Trail, core: Core, canDeliver: bool, unmarked: set<string>,
                  rows: map<string, Row>, after: map<string, Row>, timers: map<string, TimerRow>, queued: seq<Copy>,
                  tried: seq<seq<string>>, commit: bool)
    requires Previews(settled, trail, core, canDeliver) && Grows(rows, after)
    requires report == settled.(delivered := report.delivered)
    requires if commit then SettledBy(rows, timers, trail, core, canDeliver)
             else report.delivered == settled.fired + |Retries(trail, core, canDeliver, unmarked)|
    requires commit && canDeliver ==>
               QueuedBy(trail, core, true, unmarked, queued) && DistinctIds(queued) && TriedAll(queued, tried)
    ensures Did(report, trail, core, canDeliver, unmarked, after, timers, tried, commit)
  {
    hide SettledBy, AllAreTried, QueuedBy, TallyOf, Retries, Plannable, StaleRows, Grows, TriedAll, DistinctIds,
      CountArmed, PastOf;
    if commit {
      SettledStays(rows, after, timers, trail, core, canDeliver);
      if canDeliver {
        QueuedAreTried(trail, core, unmarked, queued, tried);
      }
    }
  }

  /** What was settled and tried is the same whatever the digest went on to do; what it lapsed is counted too. */
  lemma WithDigest(report: Report, carried: nat, lapsed: nat, trail: Trail, digest: DigestTrail, core: Core,
                   canDeliver: bool,
                   unmarked: set<string>, rows: map<string, Row>, after: map<string, Row>, timers: map<string, TimerRow>,
                   tried: seq<seq<string>>, commit: bool)
    requires Did(report, trail, core, canDeliver, unmarked, rows, timers, tried, commit) && Grows(rows, after)
    requires trail.digest == NO_DIGEST && lapsed == |PastOf(digest.pending, core)|
    ensures Did(report.(carried := carried, lapsed := report.lapsed + lapsed), trail.(digest := digest), core,
                canDeliver, unmarked, after, timers, tried, commit)
  {
    hide Previews, SettledBy, AllAreTried, Retries, PastOf, Grows;
    DigestCounts(report, carried, lapsed, trail, digest, core, canDeliver);
    DigestChangesNothing(trail, digest, core, canDeliver, unmarked, tried);
    if commit {
      SettledStays(rows, after, timers, trail, core, canDeliver);
    }
  }

  lemma DigestCounts(report: Report, carried: nat, lapsed: nat, trail: Trail, digest: DigestTrail, core: Core,
                     canDeliver: bool)
    requires Previews(report, trail, core, canDeliver) && trail.digest == NO_DIGEST &&
              lapsed == |PastOf(digest.pending, core)|
    ensures Previews(report.(carried := carried, lapsed := report.lapsed + lapsed), trail.(digest := digest), core,
                     canDeliver)
  {
    hide TallyOf, CountArmed, Plannable, StaleOf, TimerTallyOf;
  }

  /** What a scan fires and sends again does not depend on what its digest reads. */
  lemma DigestChangesNothing(trail: Trail, digest: DigestTrail, core: Core, canDeliver: bool, unmarked: set<string>,
                             tried: seq<seq<string>>)
    ensures Retries(trail.(digest := digest), core, canDeliver, unmarked) == Retries(trail, core, canDeliver, unmarked)
    ensures AllAreTried(trail.(digest := digest), core, canDeliver, unmarked, tried) <==>
            AllAreTried(trail, core, canDeliver, unmarked, tried)
  {
    hide TallyOf, RetryOf, TriedIn, Ids;
    assert forall id :: FiredBy(trail.(digest := digest), core, canDeliver, id) <==> FiredBy(trail, core, canDeliver, id);
  }

  lemma FoundAreThere(rows: map<string, Row>, copies: seq<Copy>, keep: Row -> bool)
    requires Found(rows, copies, keep)
    ensures DistinctIds(copies) && AllThere(rows, copies)
  {
  }

  lemma TimersAreThere(rows: map<string, TimerRow>, due: seq<Timer>, now: int)
    requires TimersFound(rows, due, now)
    ensures forall k :: 0 <= k < |due| ==> due[k].id in rows
  {
  }

  /** What the verdicts say was done: rows fired or expired, the stale rows of units that are not held retired, timers
      fired or cancelled. */
  ghost predicate SettledBy(rows: map<string, Row>, timers: map<string, TimerRow>, trail: Trail, core: Core,
                            canDeliver: bool) {
    && TallyOf(trail.due, core, canDeliver).Some? && Moved(rows, TallyOf(trail.due, core, canDeliver).value.settled)
    && Ended(rows, Plannable(StaleRows(trail, core, canDeliver), core))
    && TimersMoved(timers, trail.timers, core)
  }

  /** And by its digest: rows whose event is past lapsed, check-ins whose time is up closed. */
  ghost predicate LapsedBy(rows: map<string, Row>, digest: DigestTrail, core: Core) {
    Ended(rows, PastOf(digest.pending, core)) && TimeIsUp(rows, digest.open, core)
  }

  lemma NothingLapsed(rows: map<string, Row>, core: Core)
    ensures LapsedBy(rows, NO_DIGEST, core) && PastOf(NO_DIGEST.pending, core) == []
  {
  }

  lemma SettledStays(rows: map<string, Row>, after: map<string, Row>, timers: map<string, TimerRow>, trail: Trail,
                     core: Core, canDeliver: bool)
    requires Grows(rows, after) && SettledBy(rows, timers, trail, core, canDeliver)
    ensures SettledBy(after, timers, trail, core, canDeliver)
    ensures forall digest :: SettledBy(after, timers, trail.(digest := digest), core, canDeliver)
  {
  }

  /** The queue holds what the verdicts fire and what is queued again, and nothing else. */
  ghost predicate QueuedBy(trail: Trail, core: Core, canDeliver: bool, unmarked: set<string>, queue: seq<Copy>) {
    forall id :: id in Ids(queue) <==>
      FiredBy(trail, core, canDeliver, id) || id in Ids(Retries(trail, core, canDeliver, unmarked))
  }

  lemma QueuedAreTried(trail: Trail, core: Core, unmarked: set<string>, queue: seq<Copy>, tried: seq<seq<string>>)
    requires QueuedBy(trail, core, true, unmarked, queue) && DistinctIds(queue) && TriedAll(queue, tried)
    ensures AllAreTried(trail, core, true, unmarked, tried)
  {
    EveryQueuedRowIsTried(queue, tried);
    hide TriedIn, TriedAll, TallyOf, RetryOf;
  }

  /** A report of the due rows and timers alone. */
  ghost predicate Tallied(report: Report, trail: Trail, tally: Tally, timed: TimerTally, commit: bool) {
    && trail.digest == NO_DIGEST && trail.undelivered == []
    && report == Report(|trail.due|, |trail.timers|, tally.fired, if commit then 0 else tally.fired, tally.expired, 0,
                        timed.fired, timed.cancelled, 0)
  }

  /** The due rows and timers came to what their verdicts say. */
  ghost predicate ByVerdicts(trail: Trail, tally: Tally, timed: TimerTally, core: Core, canDeliver: bool) {
    TallyOf(trail.due, core, canDeliver) == Some(tally) && timed == TimerTallyOf(trail.timers, core)
  }

  lemma AfterReplan(report: Report, trail: Trail, core: Core, tally: Tally, timed: TimerTally, expired: nat, lapsed: nat)
    requires TallyOf(trail.due, core, true) == Some(tally) && timed == TimerTallyOf(trail.timers, core)
    requires var stale := Plannable(tally.stale + StaleOf(trail.undelivered, core), core);
             expired == CountArmed(stale) && expired + lapsed == |stale|
    requires trail.digest == NO_DIGEST && report.triggersDue == |trail.due| && report.timersDue == |trail.timers|
    requires report.fired == tally.fired && report.expired == tally.expired + expired && report.lapsed == lapsed
    requires report.timersFired == timed.fired && report.timersCancelled == timed.cancelled
    ensures Previews(report, trail, core, true)
  {
  }

  lemma SettledAfterReplan(rows: map<string, Row>, after: map<string, Row>, timers: map<string, TimerRow>, trail: Trail,
                           core: Core, tally: Tally)
    requires TallyOf(trail.due, core, true) == Some(tally) && Moved(rows, tally.settled) && Grows(rows, after)
    requires Ended(after, Plannable(tally.stale + StaleOf(trail.undelivered, core), core))
    requires TimersMoved(timers, trail.timers, core)
    ensures SettledBy(after, timers, trail, core, true)
  {
  }

  lemma QueuedAfterReplan(trail: Trail, core: Core, unmarked: set<string>, tally: Tally, before: seq<Copy>,
                          queue: seq<Copy>)
    requires TallyOf(trail.due, core, true) == Some(tally) && FiredAreQueued(tally.settled, before)
    requires forall id :: id in Ids(queue) <==>
               id in Ids(before) || id in Ids(RetryOf(trail.undelivered, core, tally.settled, unmarked))
    ensures QueuedBy(trail, core, true, unmarked, queue)
  {
  }

  lemma SettledWithoutReplan(report: Report, rows: map<string, Row>, timers: map<string, TimerRow>, trail: Trail,
                             core: Core,
                             tally: Tally, timed: TimerTally, queue: seq<Copy>, unmarked: set<string>, commit: bool,
                                 smooth: bool)
    requires Tallied(report, trail, tally, timed, commit) && (smooth ==> ByVerdicts(trail, tally, timed, core, false))
    requires commit && smooth ==>
               Moved(rows, tally.settled) && TimersMoved(timers, trail.timers, core) &&
                   FiredAreQueued(tally.settled, queue)
    ensures smooth ==> Previews(report, trail, core, false)
    ensures Retries(trail, core, false, unmarked) == []
    ensures commit && smooth ==>
              SettledBy(rows, timers, trail, core, false) && QueuedBy(trail, core, false, unmarked, queue)
  {
  }

  lemma RetriesAre(trail: Trail, core: Core, canDeliver: bool, tally: Tally, unmarked: set<string>)
    requires TallyOf(trail.due, core, canDeliver) == Some(tally)
    ensures Retries(trail, core, canDeliver, unmarked) ==
            if canDeliver then RetryOf(trail.undelivered, core, tally.settled, unmarked) else []
  {
  }

  /** What the digest's part of a scan did: nothing when there was nothing to say, else one message tried. */
  ghost predicate DigestRan(tried: seq<string>, tried': seq<string>, events: seq<Event>, carried: nat,
                            core: Core, ready: Option<Gathered>, p: Packing, hasConversation: bool) {
    if ready.None? then tried' == tried && carried == 0
    else exists from :: 0 <= from <= |events| && DigestDone(tried, tried', events[..from], events, carried, core,
                                                            ready.value, p, hasConversation)
  }

  lemma TheDigestRan(tried: seq<string>, tried': seq<string>, before: seq<Event>, events: seq<Event>, carried: nat,
                     core: Core, ready: Option<Gathered>, p: Packing, hasConversation: bool)
    requires before <= events
    requires ready.None? ==> tried' == tried && carried == 0
    requires ready.Some? ==> DigestDone(tried, tried', before, events, carried, core, ready.value, p, hasConversation)
    ensures DigestRan(tried, tried', events, carried, core, ready, p, hasConversation)
  {
    assert events[..|before|] == before;
  }
}
