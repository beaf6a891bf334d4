/**
 The ports one due scan writes through (internal/ports/triggerrepo.go and its
 SQL, internal/ports/channel.go): trigger rows behind conditional writes, the
 audit log, and the channel. Any write may fail, and one that reports a failure
 may have landed. Around every call others change rows too; all that is known
 of them is that no row is deleted and none goes back: armed, then fired, then
 surfaced or over.
 */
module Stores {
  import opened Options

  datatype Status = Armed | Fired | Expired

  /** A recurring row armed since its time of day is kept carries it in `at`. */
  datatype Anchor = Anchor(day: int, at: Option<int>)

  /** A goal check-in is the digest's to ask, never the due loop's to fire. */
  datatype Row = Row(unit: Option<string>, fireAt: int, rule: Option<string>, anchor: Option<Anchor>, goalAsk: bool,
                     status: Status, surfaced: Option<int>, answered: bool, reasks: nat)
  {
    /** How far the row has come: armed, fired and unseen, or seen or over. */
    function Rank(): nat {
      match status
      case Armed => 0
      case Fired => if surfaced.None? then 1 else 2
      case Expired => 2
    }

    /** A reminder surfaced and not answered yet. */
    predicate Open() {
      status == Fired && surfaced.Some? && !answered
    }
  }

  /** A row as a scan read it. */
  datatype Copy = Copy(id: string, row: Row)

  datatype Write = Done | Conflict | Failed

  /** How a step of a scan ended. */
  datatype Outcome = Ok | Error

  /** What a pass did that a reader can hold it to, in order, and what of it could not be written. */
  datatype Event =
    | Sent(text: string, ids: seq<string>, push: bool)  // a message went out, what it says, and if it was a push
    | Marked(id: string, at: int)                       // surfaced_at written
    | Unmarked(id: string)                              // the write of surfaced_at reported a failure
    | Unlogged(action: Action, id: string)              // the audit row about a reminder of a message failed
    | Reasked(id: string, at: int)                      // asked again: restamped and counted
    | GoalFired(id: string)                             // a goal check-in became an open one
    | QuestionAsked(id: string)                         // a relation question marked asked
    | FocusPublished                                    // the round the digest was ranked by became the incumbent
    | Planned(unit: string)                             // the unit's reminders were planned, or it is owed none
    | Retired(id: string, unit: string)                 // a stale row of the unit was expired or lapsed

  /** The audit rows of a scan. */
  datatype Action =
    | FiredRow | ExpiredRow | LapsedRow | DeliveredRow | TimerFiredRow | TimerCancelledRow | ConflictRow
    | SendFailedRow | PlannedRow | CheckinExpiredRow | ReaskedRow | ReaskSkippedRow | GoalAskedRow | QuestionAskedRow
    | QuestionExpiredRow | FocusUnavailableRow | DigestSentRow | DigestHeldRow

  /** How many of the audit rows record each effect a scan reports. */
  datatype Audit = Audit(fired: int, expired: int, lapsed: int, delivered: int, timersFired: int, timersCancelled: int,
                         conflicts: int)
  {
    function Plus(that: Audit): Audit {
      Audit(fired + that.fired, expired + that.expired, lapsed + that.lapsed, delivered + that.delivered,
            timersFired + that.timersFired, timersCancelled + that.timersCancelled, conflicts + that.conflicts)
    }

    function Note(action: Action): Audit {
      match action
      case FiredRow => this.(fired := fired + 1)
      case ExpiredRow => this.(expired := expired + 1)
      case LapsedRow => this.(lapsed := lapsed + 1)
      case DeliveredRow => this.(delivered := delivered + 1)
      case TimerFiredRow => this.(timersFired := timersFired + 1)
      case TimerCancelledRow => this.(timersCancelled := timersCancelled + 1)
      case ConflictRow => this.(conflicts := conflicts + 1)
      case _ => this
    }
  }

  function AuditOf(rows: seq<Action>): Audit {
    if rows == [] then Audit(0, 0, 0, 0, 0, 0, 0) else AuditOf(rows[..|rows| - 1]).Note(rows[|rows| - 1])
  }

  /** What went wrong so far, over all ports: reads and writes that failed, the audit rows among them, and writes that
      lost a race. */
  class Faults {
    ghost var failures: nat
    ghost var lost: nat
    ghost var conflicts: nat

    constructor ()
      ensures failures == lost == conflicts == 0
    {
      failures, lost, conflicts := 0, 0, 0;
    }

    ghost method NoteRow(ok: bool)
      modifies this
      ensures NotedRow(ok)
    {
      failures := failures + if ok then 0 else 1;
      lost := lost + if ok then 0 else 1;
    }

    twostate predicate NotedRow(ok: bool)
      reads this
    {
      && failures == old(failures) + (if ok then 0 else 1) && lost == old(lost) + (if ok then 0 else 1)
      && conflicts == old(conflicts)
    }

    ghost method Note(w: Write)
      modifies this
      ensures Noted(w)
    {
      failures := failures + if w == Failed then 1 else 0;
      conflicts := conflicts + if w == Conflict then 1 else 0;
    }

    twostate predicate Noted(w: Write)
      reads this
    {
      && failures == old(failures) + (if w == Failed then 1 else 0)
      && conflicts == old(conflicts) + (if w == Conflict then 1 else 0) && lost == old(lost)
    }

    /** A step ends in an error only when something failed. */
    twostate predicate Explain(outcome: Outcome)
      reads this
    {
      && old(failures) <= failures && old(lost) <= lost && old(conflicts) <= conflicts
      && (outcome == Error ==> old(failures) < failures)
    }

    /** A step that takes a lost race for a failure. */
    twostate predicate ExplainStrictly(outcome: Outcome)
      reads this
    {
      && old(failures) <= failures && old(lost) <= lost && old(conflicts) <= conflicts
      && (outcome == Error ==> old(failures) < failures || old(conflicts) < conflicts)
    }

    /** A read or a write of something outside this model; it may fail. */
    method Try() returns (ok: bool)
      modifies this
      ensures Noted(if ok then Done else Failed)
    {
      ok := *;
      Note(if ok then Done else Failed);
    }

    /** No write lost a race. */
    twostate predicate Smooth()
      reads this
    {
      conflicts == old(conflicts)
    }
  }

  /** The passes so far with the rows each of their reads found, and of the one under way its events and the reminders
      it has fired and queued. The ports write it. */
  class Journal {
    ghost var passes: seq<seq<Event>>
    ghost var readings: seq<seq<map<string, Row>>>
    ghost var events: seq<Event>
    ghost var fired: seq<string>

    constructor ()
      ensures passes == [] && readings == [] && events == [] && fired == []
    {
      passes, readings, events, fired := [], [], [], [];
    }

    ghost method Add(e: Event)
      modifies this`events
      ensures events == old(events) + [e]
    {
      events := events + [e];
    }

    ghost method AddFired(id: string)
      modifies this`fired
      ensures fired == old(fired) + [id]
    {
      fired := fired + [id];
    }

    /** The pass under way is over. */
    ghost method Close(found: seq<map<string, Row>>)
      modifies this
      ensures passes == old(passes) + [old(events)] && readings == old(readings) + [found] && events == [] && fired == []
    {
      passes, readings, events, fired := passes + [events], readings + [found], [], [];
    }
  }

  /** A row goes on and never back; what is over stays over. */
  predicate GoesOn(before: Row, after: Row) {
    before.Rank() <= after.Rank() && (before.status == Expired ==> after.status == Expired)
  }

  /** No row is deleted and none goes back. */
  predicate Grows(before: map<string, Row>, after: map<string, Row>) {
    forall id :: id in before ==> id in after && GoesOn(before[id], after[id])
  }

  lemma GrowsIsTransitive(a: map<string, Row>, b: map<string, Row>, c: map<string, Row>)
    requires Grows(a, b) && Grows(b, c)
    ensures Grows(a, c)
  {
  }

  predicate DistinctIds(copies: seq<Copy>) {
    forall i, j :: 0 <= i < j < |copies| ==> copies[i].id != copies[j].id
  }

  /** Copies of rows as they are now. */
  predicate Fresh(rows: map<string, Row>, copies: seq<Copy>) {
    DistinctIds(copies) && forall k :: 0 <= k < |copies| ==> copies[k].id in rows && rows[copies[k].id] == copies[k].row
  }

  /** The rows that satisfy keep, each once and no others. */
  ghost predicate Found(rows: map<string, Row>, copies: seq<Copy>, keep: Row -> bool) {
    && Fresh(rows, copies)
    && (forall k :: 0 <= k < |copies| ==> keep(copies[k].row))
    && (forall id :: id in rows && keep(rows[id]) ==> Copy(id, rows[id]) in copies)
  }

  /** Each mark among these events is on its row. */
  ghost predicate LandedOn(events: seq<Event>, rows: map<string, Row>) {
    forall k :: 0 <= k < |events| && events[k].Marked? ==> events[k].id in rows && rows[events[k].id].Rank() == 2
  }

  class TriggerStore {
    const journal: Journal
    const faults: Faults
    var rows: map<string, Row>
    /** How many writes were asked of it, and the rows as each read of the pass under way found them. */
    ghost var writes: nat
    ghost var found: seq<map<string, Row>>

    constructor (journal: Journal, faults: Faults)
      ensures this.journal == journal && this.faults == faults && rows == map[] && writes == 0 && found == []
    {
      this.journal, this.faults, rows, writes, found := journal, faults, map[], 0, [];
    }

    /** The pass under way is over. */
    ghost method Close()
      modifies this`found, journal
      ensures journal.passes == old(journal.passes) + [old(journal.events)]
      ensures journal.readings == old(journal.readings) + [old(found)] && found == []
      ensures journal.events == [] && journal.fired == []
    {
      journal.Close(found);
      found := [];
    }

    /** Captures, corrections, answers and other passes. */
    method Others()
      modifies this`rows
      ensures Grows(old(rows), rows)
    {
      assert Grows(rows, rows);
      var next: map<string, Row> :| Grows(rows, next);
      rows := next;
    }

    /** Moves an armed row on. */
    method Leave(id: string, to: Status) returns (w: Write)
      requires to != Armed
      modifies this`rows, this`writes, faults
      ensures Grows(old(rows), rows) && writes == old(writes) + 1 && faults.Noted(w)
      ensures w.Done? ==> id in rows && rows[id].status == to && (id in old(rows) ==> old(rows)[id].status == Armed)
      ensures w.Conflict? ==> id in rows ==> rows[id].status != Armed
    {
      writes := writes + 1;
      Others();
      var failed: bool, landed: bool := *, *;
      w := if failed then Failed else if id in rows && rows[id].status == Armed then Done else Conflict;
      if id in rows && rows[id].status == Armed && (!failed || landed) {
        rows := rows[id := rows[id].(status := to)];
      }
      faults.Note(w);
    }

    /** Leave and the successor's create, in one write. */
    method Rearm(id: string, to: Status, successor: string, next: Row) returns (w: Write)
      requires to != Armed && next.status == Armed
      modifies this`rows, this`writes, faults
      ensures Grows(old(rows), rows) && writes == old(writes) + 1 && faults.Noted(w)
      ensures w.Done? ==> id in rows && rows[id].status == to && (id in old(rows) ==> old(rows)[id].status == Armed)
      ensures w.Done? ==> successor in rows && rows[successor] == next && successor !in old(rows)
      ensures w.Conflict? ==> id in rows ==> rows[id].status != Armed
    {
      writes := writes + 1;
      Others();
      var failed: bool, landed: bool := *, *;
      var free := id in rows && rows[id].status == Armed && successor !in rows;
      w := if failed || successor in rows then Failed else if free then Done else Conflict;
      if free && (!failed || landed) {
        rows := rows[id := rows[id].(status := to)][successor := next];
      }
      faults.Note(w);
    }

    /** Writes surfaced_at on a fired row that has none. */
    method Surface(id: string, at: int) returns (w: Write)
      modifies this`rows, this`writes, journal`events, faults
      ensures Grows(old(rows), rows) && writes == old(writes) + 1 && faults.Noted(w)
      ensures w.Done? ==> id in rows && rows[id].Rank() == 2 && journal.events == old(journal.events) + [Marked(id, at)]
      ensures w.Conflict? ==> journal.events == old(journal.events) && (id in rows ==> rows[id].Rank() != 1)
      ensures w.Failed? ==> journal.events == old(journal.events) + [Unmarked(id)] ||
                            journal.events == old(journal.events) + [Marked(id, at)] + [Unmarked(id)]
      ensures LandedOn(journal.events[|old(journal.events)|..], rows)
    {
      writes := writes + 1;
      Others();
      var failed: bool, landed: bool := *, *;
      var open := id in rows && rows[id].Rank() == 1;
      w := if failed then Failed else if open then Done else Conflict;
      if open && (!failed || landed) {
        rows := rows[id := rows[id].(surfaced := Some(at))];
        journal.Add(Marked(id, at));
      }
      if failed {
        journal.Add(Unmarked(id));
      }
      faults.Note(w);
    }

    /** Ends a fired row that never reached the user. */
    method Lapse(id: string) returns (w: Write)
      modifies this`rows, this`writes, faults
      ensures Grows(old(rows), rows) && writes == old(writes) + 1 && faults.Noted(w)
      ensures w.Done? ==> id in rows && rows[id].status == Expired
      ensures w.Conflict? ==> id in rows ==> rows[id].Rank() != 1
    {
      writes := writes + 1;
      Others();
      var failed: bool, landed: bool := *, *;
      var open := id in rows && rows[id].Rank() == 1;
      w := if failed then Failed else if open then Done else Conflict;
      if open && (!failed || landed) {
        rows := rows[id := rows[id].(status := Expired)];
      }
      faults.Note(w);
    }

    /** Restamps an open check-in and counts the re-ask. */
    method Reask(id: string, at: int) returns (w: Write)
      modifies this`rows, this`writes, journal`events, faults
      ensures Grows(old(rows), rows) && writes == old(writes) + 1 && faults.Noted(w)
      ensures journal.events == old(journal.events) || journal.events == old(journal.events) + [Reasked(id, at)]
      ensures w.Done? ==> journal.events == old(journal.events) + [Reasked(id, at)]
      ensures w.Conflict? ==> id in rows ==> !rows[id].Open()
    {
      writes := writes + 1;
      Others();
      var failed: bool, landed: bool := *, *;
      var open := id in rows && rows[id].Open();
      w := if failed then Failed else if open then Done else Conflict;
      if open && (!failed || landed) {
        rows := rows[id := rows[id].(surfaced := Some(at), reasks := rows[id].reasks + 1)];
        journal.Add(Reasked(id, at));
      }
      faults.Note(w);
    }

    /** Closes an open check-in. */
    method ExpireUnanswered(id: string) returns (w: Write)
      modifies this`rows, this`writes, faults
      ensures Grows(old(rows), rows) && writes == old(writes) + 1 && faults.Noted(w)
      ensures w.Done? ==> id in rows && rows[id].status == Expired
      ensures w.Conflict? ==> id in rows ==> !rows[id].Open()
    {
      writes := writes + 1;
      Others();
      var failed: bool, landed: bool := *, *;
      var open := id in rows && rows[id].Open();
      w := if failed then Failed else if open then Done else Conflict;
      if open && (!failed || landed) {
        rows := rows[id := rows[id].(status := Expired)];
      }
      faults.Note(w);
    }

    /** Fires a goal check-in the digest just asked. */
    method FireGoal(id: string) returns (w: Write)
      modifies this`rows, this`writes, journal`events, faults
      ensures Grows(old(rows), rows) && writes == old(writes) + 1 && faults.Noted(w)
      ensures journal.events == old(journal.events) || journal.events == old(journal.events) + [GoalFired(id)]
      ensures w.Done? ==> journal.events == old(journal.events) + [GoalFired(id)]
      ensures w.Conflict? ==> id in rows ==> rows[id].status != Armed
    {
      writes := writes + 1;
      Others();
      var failed: bool, landed: bool := *, *;
      var armed := id in rows && rows[id].status == Armed;
      w := if failed then Failed else if armed then Done else Conflict;
      if armed && (!failed || landed) {
        rows := rows[id := rows[id].(status := Fired)];
        journal.Add(GoalFired(id));
      }
      faults.Note(w);
    }

    /** One unit's plan: rows moved, armed and cancelled, all of them armed ones or new. Which, is the plan's. */
    method WritePlan(unit: string) returns (ok: bool)
      modifies this`rows, this`writes, journal`events, faults
      ensures Grows(old(rows), rows) && writes == old(writes) + 1 && faults.Noted(if ok then Done else Failed)
      ensures journal.events == old(journal.events) + if ok then [Planned(unit)] else []
    {
      writes := writes + 1;
      Others();
      ok := *;
      faults.Note(if ok then Done else Failed);
      if ok {
        journal.Add(Planned(unit));
      }
    }

    /** The rows that satisfy keep, as others may have left them by now, in any order; None when the read fails. */
    method Read(keep: Row -> bool) returns (copies: Option<seq<Copy>>)
      modifies this`rows, this`found, faults
      ensures Grows(old(rows), rows) && faults.Noted(if copies.Some? then Done else Failed)
      ensures found == old(found) + if copies.Some? then [rows] else []
      ensures copies.Some? ==> Found(rows, copies.value, keep)
    {
      Others();
      var failed: bool := *;
      faults.Note(if failed then Failed else Done);
      if failed {
        return None;
      }
      found := found + [rows];
      var all: seq<Copy> := [];
      var ids := rows.Keys;
      while ids != {}
        modifies {}
        invariant ids <= rows.Keys
        invariant Fresh(rows, all)
        invariant forall k :: 0 <= k < |all| ==> all[k].id !in ids && keep(all[k].row)
        invariant forall id :: id in rows && id !in ids && keep(rows[id]) ==> Copy(id, rows[id]) in all
        decreases |ids|
      {
        var id :| id in ids;
        ids := ids - {id};
        if keep(rows[id]) {
          all := all + [Copy(id, rows[id])];
        }
      }
      copies := Some(all);
    }
  }

  /** The audit log; the actions alone. */
  class DecisionLog {
    const journal: Journal
    const faults: Faults
    var rows: seq<Action>

    constructor (journal: Journal, faults: Faults)
      ensures this.journal == journal && this.faults == faults && rows == []
    {
      this.journal, this.faults, rows := journal, faults, [];
    }

    /** A row about one reminder of a message. */
    method RecordOf(action: Action, id: string) returns (ok: bool)
      modifies this, faults, journal`events
      ensures rows == old(rows) + if ok then [action] else []
      ensures AuditOf(rows) == if ok then AuditOf(old(rows)).Note(action) else AuditOf(old(rows))
      ensures faults.NotedRow(ok)
      ensures journal.events == old(journal.events) + if ok then [] else [Unlogged(action, id)]
    {
      ok := Record(action);
      assert journal.events + [] == journal.events;
      if !ok {
        journal.Add(Unlogged(action, id));
      }
    }

    method Record(action: Action) returns (ok: bool)
      modifies this, faults
      ensures rows == old(rows) + if ok then [action] else []
      ensures AuditOf(rows) == if ok then AuditOf(old(rows)).Note(action) else AuditOf(old(rows))
      ensures faults.NotedRow(ok)
    {
      ok := *;
      faults.NoteRow(ok);
      if ok {
        rows := rows + [action];
        assert rows[..|rows| - 1] == old(rows);
      }
    }
  }

  /** Where messages go out. `pushed` is every reminder a message of a flush said, `timers` every timer
      one said, in order, across restarts. */
  class Channel {
    const journal: Journal
    ghost var pushed: seq<string>
    ghost var timers: seq<string>
    /** Every push message tried, in order, whether or not it went out. */
    ghost var tried: seq<seq<string>>
    /** Every digest tried, and every timer. */
    ghost var digests: seq<string>
    ghost var rung: seq<string>

    constructor (journal: Journal)
      ensures this.journal == journal && pushed == [] && timers == [] && tried == [] && digests == [] && rung == []
    {
      this.journal, pushed, timers, tried, digests, rung := journal, [], [], [], [], [];
    }

    /** One message saying these reminders. */
    method SendPush(text: string, ids: seq<string>) returns (ok: bool)
      modifies this`pushed, this`tried, journal`events
      ensures pushed == old(pushed) + if ok then ids else []
      ensures tried == old(tried) + [ids]
      ensures journal.events == old(journal.events) + if ok then [Sent(text, ids, true)] else []
    {
      ok := *;
      tried := tried + [ids];
      if ok {
        pushed := pushed + ids;
        journal.Add(Sent(text, ids, true));
      }
    }

    /** The digest's one message. */
    method SendDigest(text: string, ghost ids: seq<string>) returns (ok: bool)
      modifies this`digests, journal`events
      ensures journal.events == old(journal.events) + if ok then [Sent(text, ids, false)] else []
      ensures digests == old(digests) + [text]
    {
      ok := *;
      digests := digests + [text];
      if ok {
        journal.Add(Sent(text, ids, false));
      }
    }

    method SendTimer(id: string) returns (ok: bool)
      modifies this`timers, this`rung
      ensures timers == old(timers) + if ok then [id] else []
      ensures rung == old(rung) + [id]
    {
      ok := *;
      rung := rung + [id];
      if ok {
        timers := timers + [id];
      }
    }
  }

  /** The queue of relation questions; `closed` are those expired unanswered. */
  class Questions {
    const journal: Journal
    const faults: Faults
    ghost var closed: seq<string>

    constructor (journal: Journal, faults: Faults)
      ensures this.journal == journal && this.faults == faults
    {
      this.journal, this.faults, closed := journal, faults, [];
    }

    method Expire(id: string) returns (ok: bool)
      modifies this`closed, faults
      ensures faults.Noted(if ok then Done else Failed)
      ensures closed == old(closed) || closed == old(closed) + [id]
      ensures ok ==> closed == old(closed) + [id]
    {
      ok := *;
      var landed: bool := *;
      faults.Note(if ok then Done else Failed);
      if ok || landed {
        closed := closed + [id];
      }
    }

    method MarkAsked(id: string) returns (ok: bool)
      modifies journal`events, faults
      ensures faults.Noted(if ok then Done else Failed)
      ensures journal.events == old(journal.events) || journal.events == old(journal.events) + [QuestionAsked(id)]
      ensures ok ==> journal.events == old(journal.events) + [QuestionAsked(id)]
    {
      ok := *;
      var landed: bool := *;
      faults.Note(if ok then Done else Failed);
      if ok || landed {
        journal.Add(QuestionAsked(id));
      }
    }
  }

  /** What learns from an unanswered check-in. */
  class Signals {
    const faults: Faults
    ghost var ignored: seq<string>

    constructor (faults: Faults)
      ensures this.faults == faults && ignored == []
    {
      this.faults, ignored := faults, [];
    }

    method Ignored(id: string) returns (ok: bool)
      modifies this, faults
      ensures faults.Noted(if ok then Done else Failed)
      ensures ignored == old(ignored) || ignored == old(ignored) + [id]
      ensures ok ==> ignored == old(ignored) + [id]
    {
      ok := *;
      var landed: bool := *;
      faults.Note(if ok then Done else Failed);
      if ok || landed {
        ignored := ignored + [id];
      }
    }
  }

  datatype TimerStatus = Pending | TimerFired | Cancelled

  datatype TimerRow = TimerRow(fireAt: int, status: TimerStatus)

  datatype Timer = Timer(id: string, fireAt: int)

  /** No timer is deleted or moved, and what it came to stays. */
  predicate TimersGrow(before: map<string, TimerRow>, after: map<string, TimerRow>) {
    forall id :: id in before ==>
      && id in after && after[id].fireAt == before[id].fireAt
      && (before[id].status != Pending ==> after[id].status == before[id].status)
  }

  /** The timers pending and due, each once and no others. */
  ghost predicate TimersFound(rows: map<string, TimerRow>, due: seq<Timer>, now: int) {
    && (forall i, j :: 0 <= i < j < |due| ==> due[i].id != due[j].id)
    && (forall t :: t in due <==> t.id in rows && rows[t.id] == TimerRow(t.fireAt, Pending) && t.fireAt <= now)
  }

  class TimerStore {
    const faults: Faults
    var rows: map<string, TimerRow>
    ghost var writes: nat
    ghost var found: seq<map<string, TimerRow>>

    constructor (faults: Faults)
      ensures this.faults == faults && rows == map[] && writes == 0
    {
      this.faults, rows, writes, found := faults, map[], 0, [];
    }

    method Others()
      modifies this`rows
      ensures TimersGrow(old(rows), rows)
    {
      assert TimersGrow(rows, rows);
      var next: map<string, TimerRow> :| TimersGrow(rows, next);
      rows := next;
    }

    /** Moves a pending timer on. */
    method Leave(id: string, to: TimerStatus) returns (w: Write)
      requires to != Pending
      modifies this`rows, this`writes, faults
      ensures TimersGrow(old(rows), rows) && writes == old(writes) + 1 && faults.Noted(w)
      ensures w.Done? ==> id in rows && rows[id].status == to && (id in old(rows) ==> old(rows)[id].status == Pending)
      ensures w.Conflict? ==> id in rows ==> rows[id].status != Pending
    {
      writes := writes + 1;
      Others();
      var failed: bool, landed: bool := *, *;
      var pending := id in rows && rows[id].status == Pending;
      w := if failed then Failed else if pending then Done else Conflict;
      if pending && (!failed || landed) {
        rows := rows[id := rows[id].(status := to)];
      }
      faults.Note(w);
    }

    /** The timers pending and due, in any order; None when the read fails. */
    method Due(now: int) returns (due: Option<seq<Timer>>)
      modifies this`rows, this`found, faults
      ensures TimersGrow(old(rows), rows) && faults.Noted(if due.Some? then Done else Failed)
      ensures found == old(found) + if due.Some? then [rows] else []
      ensures due.Some? ==> TimersFound(rows, due.value, now)
    {
      Others();
      var failed: bool := *;
      faults.Note(if failed then Failed else Done);
      if failed {
        return None;
      }
      found := found + [rows];
      var all: seq<Timer> := [];
      var ids := rows.Keys;
      while ids != {}
        modifies {}
        invariant ids <= rows.Keys
        invariant forall i, j :: 0 <= i < j < |all| ==> all[i].id != all[j].id
        invariant forall t :: t in all <==>
                    t.id in rows && t.id !in ids && rows[t.id] == TimerRow(t.fireAt, Pending) && t.fireAt <= now
        decreases |ids|
      {
        var id :| id in ids;
        ids := ids - {id};
        if rows[id].status == Pending && rows[id].fireAt <= now {
          all := all + [Timer(id, rows[id].fireAt)];
        }
      }
      due := Some(all);
    }
  }
}
