/**
 One due scan (internal/brain/check.go, deliver.go, reminder_step.go,
 reminder_gate.go, digest.go, digest_checkin.go, render.go): due reminders are
 fired and queued, timers sent, stale reminders planned again and retired,
 undelivered ones queued again, the queue pushed, and the digest sent. A scan
 sends first and marks after; what it could not mark its process remembers.

 The verdicts, the wording and the plans are parameters, new ones for each scan;
 every send, read and write may fail. A step that ends in an error points to a
 read or a write that failed, and one that ends well says what its rows, its
 messages and its audit rows came to.
 */
module CheckPass {
  import opened Options
  import opened Stores
  import opened DueTally
  import opened PassTrace
  import opened PushLedger
  import opened PushQueue
  import opened DigestPass
  import opened PassResult
  import DigestText
  import RowOrder

  /** How many of the ids were not said before. */
  function Unsaid(ids: seq<string>, said: set<string>): nat {
    if ids == [] then 0
    else Unsaid(ids[..|ids| - 1], said) + if ids[|ids| - 1] in said then 0 else 1
  }

  lemma UnsaidNext(ids: seq<string>, said: set<string>, k: nat)
    requires k < |ids|
    ensures Unsaid(ids[..k + 1], said) == Unsaid(ids[..k], said) + if ids[k] in said then 0 else 1
  {
    assert ids[..k + 1][..k] == ids[..k];
  }

  function Repeated(action: Action, n: nat): seq<Action> {
    seq(n, _ => action)
  }

  lemma NoneUnsaid(said: set<string>)
    ensures Unsaid([], said) == 0
  {
  }

  lemma SaidNext(group: seq<Copy>, k: nat)
    requires k < |group| && DistinctIds(group)
    ensures SetOf(Ids(group)[..k + 1]) == SetOf(Ids(group)[..k]) + {group[k].id}
    ensures group[k].id !in SetOf(Ids(group)[..k])
  {
    var ids := Ids(group);
    assert ids[k] == group[k].id && ids[..k + 1] == ids[..k] + [ids[k]];
    SetNext(ids[..k], ids[k]);
  }

  lemma SetNext(ids: seq<string>, id: string)
    ensures SetOf(ids + [id]) == SetOf(ids) + {id}
  {
    assert forall i :: 0 <= i < |ids| ==> (ids + [id])[i] == ids[i];
    assert (ids + [id])[|ids|] == id;
  }

  /** A row that arms its next occurrence when it leaves armed, and that occurrence. */
  predicate Recurs(row: Row) {
    row.rule.Some? && row.anchor.Some?
  }

  function NextOf(t: Copy, core: Core): Row {
    t.row.(fireAt := core.rearmed(t), status := Armed, surfaced := None, answered := false, reasks := 0)
  }

  /** The audit rows a report stands for. */
  function Counted(r: Report): Audit {
    Audit(r.fired, r.expired, r.lapsed, r.delivered, r.timersFired, r.timersCancelled, 0)
  }

  /** How much a scan reads of the rows before its digest does: the due ones, and those undelivered when it can speak. */
  function ReadsBefore(canDeliver: bool): nat {
    if canDeliver then 2 else 1
  }

  /** How a scan found things: the rows, how much was read, tried and said before, and the books. */
  datatype Start = Start(rows: map<string, Row>, found: nat, timersFound: nat, tried: nat, unmarked: set<string>,
                         rung: seq<string>, digests: seq<string>, conflicts: nat, books: Audit)

  /** One process: its ports, and what it remembers for its own life. */
  class Runner {
    const store: TriggerStore
    const timers: TimerStore
    const log: DecisionLog
    const channel: Channel
    const questions: Questions
    const signals: Signals
    const journal: Journal
    const faults: Faults
    /** Whether a channel is configured, and whether the vault names one conversation. */
    const hasChannel: bool
    const hasConversation: bool
    const loud: IdSet
    const outage: IdSet
    const unmarked: IdSet
    const unreadable: IdSet
    /** How much was pushed before this process began; what restarts forgot; and what stood in a message after a
        reminder whose audit row failed, so that it is neither marked nor remembered. */
    ghost const since: nat
    ghost const forgotten: set<string>
    ghost var behind: set<string>

    /** A process starts: it remembers nothing, so what earlier passes sent and could not mark, or left behind, may go
        out again. */
    constructor (store: TriggerStore, timers: TimerStore, log: DecisionLog, channel: Channel, questions: Questions,
                 signals: Signals, journal: Journal, faults: Faults, hasChannel: bool, hasConversation: bool)
      requires store.journal == channel.journal == questions.journal == log.journal == journal
      requires store.faults == timers.faults == log.faults == questions.faults == signals.faults == faults
      requires NoRepeat(channel.pushed, ForgottenOf(journal.passes))
      requires Accounted(store.rows, channel.pushed, {}, ForgottenOf(journal.passes))
      ensures Valid() && fresh({loud, outage, unmarked, unreadable})
      ensures this.store == store && this.timers == timers && this.log == log && this.faults == faults
      ensures this.channel == channel && this.questions == questions && this.signals == signals
      ensures this.journal == journal
      ensures this.hasChannel == hasChannel && this.hasConversation == hasConversation
      ensures Memory() == Ledger(channel.pushed, |channel.pushed|, {}, {}, ForgottenOf(journal.passes))
    {
      this.store, this.timers, this.log := store, timers, log;
      this.channel, this.questions, this.signals := channel, questions, signals;
      this.journal, this.faults := journal, faults;
      this.hasChannel, this.hasConversation := hasChannel, hasConversation;
      loud := new IdSet();
      outage := new IdSet();
      unmarked := new IdSet();
      unreadable := new IdSet();
      this.since, this.forgotten, this.behind := |channel.pushed|, ForgottenOf(journal.passes), {};
      new;
      assert channel.pushed[since..] == [] && {} + this.forgotten == this.forgotten;
    }

    predicate CanDeliver() {
      hasChannel && hasConversation
    }

    ghost function Memory(): Ledger
      reads this, channel, unmarked
    {
      Ledger(channel.pushed, since, unmarked.seen, behind, forgotten)
    }

    ghost predicate Wired() {
      && store.journal == channel.journal == questions.journal == log.journal == journal
      && store.faults == timers.faults == log.faults == questions.faults == signals.faults == faults
      && loud != unmarked && outage != unmarked && unreadable != unmarked
    }

    ghost predicate Valid()
      reads this, store, channel, unmarked
    {
      Wired() && since <= |channel.pushed| && Kept(store.rows, Memory())
    }

    /** What the process remembers is what it remembered before and what the events of this pass leave, and every message
        of them was composed of what it is held to say. */
    ghost predicate Along(core: Core, before: Ledger)
      reads this, channel, unmarked, journal
    {
      Memory() == before.After(journal.events) && Composed(journal.events, core)
    }

    /** What a pass may do to the rest: rows go on, pushes are added, nobody is forgotten within a life. */
    twostate predicate Goes()
      reads this, store, channel, unmarked
    {
      Grows(old(store.rows), store.rows) && old(channel.pushed) <= channel.pushed &&
        old(unmarked.seen) <= unmarked.seen && old(behind) <= behind
    }

    /** What the audit rows count, the races they record set against the races there were. */
    ghost function Books(): Audit
      reads log, faults
    {
      AuditOf(log.rows).Plus(Audit(0, 0, 0, 0, 0, 0, -(faults.conflicts as int)))
    }

    /** The audit rows written count exactly these effects, and one for each write that lost a race. */
    twostate predicate Audited(fired: int, expired: int, lapsed: int, delivered: int, timersFired: int,
                               timersCancelled: int)
      reads log, faults
    {
      Books() == old(Books()).Plus(Audit(fired, expired, lapsed, delivered, timersFired, timersCancelled, 0))
    }

    /** A verdict; none when the unit it needs cannot be read. */
    method Judge(core: Core, t: Copy, fired: bool) returns (j: Option<Judgment>)
      modifies faults
      ensures j == core.judge(t, fired)
      ensures faults.Noted(if j.Some? then Done else Failed) && Books() == old(Books())
    {
      j := core.judge(t, fired);
      faults.Note(if j.Some? then Done else Failed);
    }

    // ---- the push ----

    /** Marks one row of a message that went out. One that could not be marked is remembered, and never sent again by
        this process; where its audit row fails, the rows after it are left behind. */
    method MarkRow(id: string, stamps: SurfaceStamps, now: int, ghost ids: seq<string>, ghost k: nat, ghost core: Core,
                   ghost before: Ledger)
      returns (w: Write, recorded: bool)
      requires Wired() && k < |ids| && ids[k] == id && Apart(ids)
      requires Marking(store.rows, Memory(), SetOf(ids[k..]))
      requires id in store.rows && store.rows[id].Rank() >= 1
      requires TraceOk(journal.events, now, stamps.next) && Showing(journal.events, ids, k)
      requires Along(core, before) && LastPush(journal.events) == ids
      modifies store`rows, store`writes, journal`events, log, faults, unmarked, stamps, this`behind
      ensures Marking(store.rows, Memory(), if recorded then SetOf(ids[k + 1..]) else {})
      ensures Grows(old(store.rows), store.rows) && old(journal.events) <= journal.events
      ensures TraceOk(journal.events, now, stamps.next) && Showing(journal.events, ids, k + 1)
      ensures Along(core, before) && LastPush(journal.events) == ids
      ensures unmarked.seen == old(unmarked.seen) + if w == Failed then {id} else {}
      ensures behind == old(behind) + if recorded then {} else SetOf(ids[k + 1..])
      ensures if w == Failed then recorded else id in store.rows && store.rows[id].Rank() == 2
      ensures w == Failed || !recorded ==> Broke(journal.events, ids)
      ensures !recorded ==> RowLost(journal.events, id)
      ensures faults.Explain(if recorded && w != Failed then Ok else Error)
      ensures faults.conflicts == old(faults.conflicts) + if w == Conflict then 1 else 0
      ensures recorded ==> Audited(0, 0, 0, if w == Done then 1 else 0, 0, 0)
      ensures recorded <==> faults.lost == old(faults.lost)
    {
      hide Wired, Marking, TraceOk, Showing, Kept, AuditOf, LastPush, Broke, Along, SetOf, Apart, RowLost;
      w := StampRow(id, stamps, now, ids, k, core, before);
      recorded := true;
      assert behind + {} == behind;
      if w != Failed {
        recorded := RecordMark(if w == Conflict then ConflictRow else DeliveredRow, id, ids, k, now, stamps, core,
                               before);
      }
    }

    /** The mark itself; a row that could not be marked is remembered. */
    method StampRow(id: string, stamps: SurfaceStamps, now: int, ghost ids: seq<string>, ghost k: nat, ghost core: Core,
                    ghost before: Ledger)
      returns (w: Write)
      requires Wired() && k < |ids| && ids[k] == id && Apart(ids)
      requires Marking(store.rows, Memory(), SetOf(ids[k..]))
      requires id in store.rows && store.rows[id].Rank() >= 1
      requires TraceOk(journal.events, now, stamps.next) && Showing(journal.events, ids, k)
      requires Along(core, before) && LastPush(journal.events) == ids
      modifies store`rows, store`writes, journal`events, faults, unmarked, stamps
      ensures Marking(store.rows, Memory(), SetOf(ids[k + 1..]))
      ensures Grows(old(store.rows), store.rows) && old(journal.events) <= journal.events
      ensures TraceOk(journal.events, now, stamps.next) && Showing(journal.events, ids, k + 1)
      ensures Along(core, before) && LastPush(journal.events) == ids
      ensures unmarked.seen == old(unmarked.seen) + if w == Failed then {id} else {}
      ensures w == Failed ==> Broke(journal.events, ids)
      ensures w != Failed ==> id in store.rows && store.rows[id].Rank() == 2
      ensures faults.Noted(w)
    {
      hide Marking, TraceOk, Showing, Kept, LastPush, Broke, Composed, SetOf, Ledger.After, Apart;
      ghost var events0 := journal.events;
      var at := stamps.Take(now);
      w := store.Surface(id, at);
      SurfaceNext(before, events0, journal.events, id, at, w, ids, core);
      MarkTraced(events0, journal.events, Marked(id, at), ids, k, now, old(stamps.next), at);
      assert unmarked.seen + {} == unmarked.seen;
      if w == Failed {
        var _ := unmarked.First(id);
      }
      LeftToMark(ids, k);
      MarkOne(old(store.rows), store.rows, old(Memory()), unmarked.seen, SetOf(ids[k..]), SetOf(ids[k + 1..]), id);
    }

    /** The audit row of a mark; where it fails, the rows after it are left behind. */
    method RecordMark(action: Action, id: string, ghost ids: seq<string>, ghost k: nat, ghost now: int,
                      ghost stamps: SurfaceStamps, ghost core: Core, ghost before: Ledger)
      returns (recorded: bool)
      requires Wired() && k < |ids| && ids[k] == id && Apart(ids) && MarksRow(action)
      requires Marking(store.rows, Memory(), SetOf(ids[k + 1..]))
      requires TraceOk(journal.events, now, stamps.next) && Showing(journal.events, ids, k + 1)
      requires Along(core, before) && LastPush(journal.events) == ids
      modifies journal`events, log, faults, this`behind
      ensures Marking(store.rows, Memory(), if recorded then SetOf(ids[k + 1..]) else {})
      ensures old(journal.events) <= journal.events
      ensures TraceOk(journal.events, now, stamps.next) && Showing(journal.events, ids, k + 1)
      ensures Along(core, before) && LastPush(journal.events) == ids
      ensures behind == old(behind) + if recorded then {} else SetOf(ids[k + 1..])
      ensures !recorded ==> RowLost(journal.events, id) && Broke(journal.events, ids)
      ensures faults.NotedRow(recorded)
      ensures recorded ==> AuditOf(log.rows) == AuditOf(old(log.rows)).Note(action)
    {
      hide Marking, TraceOk, Showing, Kept, AuditOf, LastPush, Broke, Composed, SetOf, Ledger.After, Apart;
      ghost var events0 := journal.events;
      recorded := log.RecordOf(action, id);
      assert events0 + [] == events0 && behind + {} == behind;
      if !recorded {
        RowLostNext(before, events0, action, ids, k, core);
        FailureTraced(events0, Unlogged(action, id), ids, k + 1, now, stamps.next);
        LeaveRest(store.rows, Memory(), SetOf(ids[k + 1..]));
        behind := behind + SetOf(ids[k + 1..]);
      }
    }

    /** Every row of a message that went out is marked, even when an earlier one could not be. */
    method MarkSent(group: seq<Copy>, stamps: SurfaceStamps, now: int, ghost core: Core, ghost before: Ledger)
      returns (delivered: nat, outcome: Outcome)
      requires Wired() && DistinctIds(group) && Apart(Ids(group))
      requires Marking(store.rows, Memory(), SetOf(Ids(group)))
      requires AllFired(store.rows, Ids(group))
      requires TraceOk(journal.events, now, stamps.next) && Showing(journal.events, Ids(group), 0)
      requires Along(core, before) && LastPush(journal.events) == Ids(group)
      modifies store`rows, store`writes, journal`events, log, faults, unmarked, stamps, this`behind
      ensures Valid() && Goes() && TraceOk(journal.events, now, stamps.next) && Along(core, before)
      ensures faults.Explain(outcome)
      ensures outcome == Error ==> Broke(journal.events, Ids(group))
      ensures outcome == Ok ==> behind == old(behind) && unmarked.seen == old(unmarked.seen)
      // where an audit row is lost, the rows after it are left behind, and no others
      ensures faults.lost == old(faults.lost) ==> behind == old(behind)
      ensures faults.lost != old(faults.lost) ==>
                exists k :: 0 <= k < |group| && LostAt(journal.events, group, k, old(behind), behind)
      ensures outcome == Ok ==> AllOver(store.rows, Ids(group))
      // a row is delivered, or was moved on by another
      ensures outcome == Ok ==> delivered + faults.conflicts - old(faults.conflicts) == |group|
      ensures outcome == Ok ==> Audited(0, 0, 0, delivered, 0, 0)
    {
      hide Wired, Marking, TraceOk, Showing, Kept, Grows, Books, AllFired, AllOver, DistinctIds, SetOf, Ids, Apart,
        Broke, LastPush, Along;
      delivered := 0;
      ghost var ids := Ids(group);
      var failed := false;
      assert ids[0..] == ids && ids[..0] == [];
      GrowsIsReflexive(store.rows);
      NoneLeft(store.rows);
      for k := 0 to |group|
        invariant Marking(store.rows, Memory(), SetOf(ids[k..]))
        invariant Grows(old(store.rows), store.rows) && old(unmarked.seen) <= unmarked.seen
        invariant behind == old(behind) && faults.lost == old(faults.lost)
        invariant TraceOk(journal.events, now, stamps.next) && Showing(journal.events, ids, k)
        invariant Along(core, before) && LastPush(journal.events) == ids
        invariant if failed then Broke(journal.events, ids)
                  else unmarked.seen == old(unmarked.seen) && AllOver(store.rows, ids[..k])
        invariant AllFired(store.rows, ids)
        invariant faults.Explain(if failed then Error else Ok) && Audited(0, 0, 0, delivered, 0, 0)
        invariant !failed ==> delivered + faults.conflicts - old(faults.conflicts) == k
      {
        ghost var rows0, events0 := store.rows, journal.events;
        FiredAt(store.rows, group, k);
        var w, recorded := MarkRow(group[k].id, stamps, now, ids, k, core, before);
        GrowsIsTransitive(old(store.rows), rows0, store.rows);
        FiredAndOverStay(rows0, store.rows, ids, k);
        if failed {
          BrokeLater(events0, journal.events, ids);
        }
        failed := failed || w == Failed;
        delivered := delivered + if w == Done then 1 else 0;
        if !recorded {
          StopMarking(store.rows, Memory());
          assert LostAt(journal.events, group, k, old(behind), behind);
          return delivered, Error;
        }
      }
      assert ids[|group|..] == [] && ids[..|group|] == ids;
      StopMarking(store.rows, Memory());
      outcome := if failed then Error else Ok;
    }

    /** One message for the reminders of one unit: sent, then marked. A failed send is said once an outage and
        swallowed. */
    method Deliver(core: Core, group: seq<Copy>, stamps: SurfaceStamps, now: int, ghost before: Ledger)
      returns (delivered: nat, outcome: Outcome)
      requires Valid() && group != [] && DistinctIds(group)
      requires AllWait(store.rows, Ids(group), Memory())
      requires TraceOk(journal.events, now, stamps.next) && Along(core, before)
      modifies store`rows, store`writes, journal`events, log, faults, channel`pushed, channel`tried, outage, unmarked,
               stamps, this`behind
      ensures Valid() && Goes() && TraceOk(journal.events, now, stamps.next) && Along(core, before)
      ensures faults.Explain(outcome)
      // it stops for something that could not be written about a reminder of this message
      ensures outcome == Error ==> Broke(journal.events, Ids(group))
      ensures channel.tried == old(channel.tried) + if CanDeliver() then [Ids(group)] else []
      // it went out whole or not at all
      ensures channel.pushed == old(channel.pushed) || (CanDeliver() &&
              channel.pushed == old(channel.pushed) + Ids(group))
      ensures outcome == Ok ==> behind == old(behind) && unmarked.seen == old(unmarked.seen)
      ensures faults.lost == old(faults.lost) ==> behind == old(behind)
      ensures outcome == Ok ==> Audited(0, 0, 0, delivered, 0, 0)
      ensures channel.pushed == old(channel.pushed) ==>
                delivered == 0 && behind == old(behind) && unmarked.seen == old(unmarked.seen) &&
                store.rows == old(store.rows) && faults.Smooth() &&
                    (outcome == Ok ==> journal.events == old(journal.events))
      ensures outcome == Ok && hasChannel && !hasConversation ==>
                log.rows == old(log.rows) + Repeated(SendFailedRow, |group|)
      // a failed send is said once an outage for each reminder
      ensures outcome == Ok && CanDeliver() && channel.pushed == old(channel.pushed) ==>
                log.rows == old(log.rows) + Repeated(SendFailedRow, Unsaid(Ids(group), old(outage.seen))) &&
                outage.seen == old(outage.seen) + SetOf(Ids(group))
      ensures channel.pushed != old(channel.pushed) ==> outage.seen == {}
      // where an audit row of a message that went out is lost, the rows after it are left behind, and no others
      ensures channel.pushed != old(channel.pushed) && faults.lost != old(faults.lost) ==>
                exists k :: 0 <= k < |group| && LostAt(journal.events, group, k, old(behind), behind)
      ensures outcome == Ok && channel.pushed != old(channel.pushed) ==>
                AllOver(store.rows, Ids(group)) && delivered + faults.conflicts - old(faults.conflicts) == |group|
    {
      hide Kept, TraceOk, Marking, Showing, Books, Unsaid, AllWait, AllFired, AllOver, Apart, DistinctIds, Ids, SetOf,
        Repeated, Grows, Broke, Along, LastPush;
      assert old(channel.pushed) + [] == old(channel.pushed) && old(channel.tried) + [] == old(channel.tried);
      GrowsIsReflexive(store.rows);
      if !hasChannel {
        return 0, Ok;
      }
      if !hasConversation {
        outcome := SayUndelivered(group, false, core, before, stamps, now);
        return 0, outcome;
      }
      var sent := SendGroup(core, group, stamps, now, before);
      if !sent {
        outcome := SayUndelivered(group, true, core, before, stamps, now);
        return 0, outcome;
      }
      delivered, outcome := MarkSent(group, stamps, now, core, before);
    }

    /** The message itself. Once it went out its rows are all accounted for as left to mark, and the outage is over. */
    method SendGroup(core: Core, group: seq<Copy>, stamps: SurfaceStamps, now: int, ghost before: Ledger)
      returns (sent: bool)
      requires Valid() && group != [] && DistinctIds(group) && CanDeliver()
      requires AllWait(store.rows, Ids(group), Memory())
      requires TraceOk(journal.events, now, stamps.next) && Along(core, before)
      modifies journal`events, channel`pushed, channel`tried, outage
      ensures TraceOk(journal.events, now, stamps.next) && Along(core, before)
      ensures channel.tried == old(channel.tried) + [Ids(group)]
      ensures !sent ==> channel.pushed == old(channel.pushed) && journal.events == old(journal.events) &&
                        outage.seen == old(outage.seen)
      ensures sent ==>
                && channel.pushed == old(channel.pushed) + Ids(group) && outage.seen == {}
                && Marking(store.rows, Memory(), SetOf(Ids(group))) && AllFired(store.rows, Ids(group))
                && Showing(journal.events, Ids(group), 0) && LastPush(journal.events) == Ids(group) && Apart(Ids(group))
                && channel.pushed != old(channel.pushed)
    {
      hide Kept, TraceOk, Marking, Showing, AllWait, AllFired, Apart, DistinctIds, SetOf, Composed, LastPush,
        Ledger.After;
      ghost var ids, events0 := Ids(group), journal.events;
      ReadyToSend(store.rows, group, Memory());
      var text := core.pushText(group);
      sent := channel.SendPush(text, Ids(group));
      assert events0 + [] == events0 && old(channel.pushed) + [] == old(channel.pushed);
      if sent {
        outage.Clear();
        StartMarking(store.rows, old(Memory()), ids);
        JustSaid(events0, Sent(text, ids, true), now, stamps.next);
        PushNext(before, events0, group, core);
      }
    }

    /** An audit row for each reminder, or for each not yet said in this outage. */
    method SayUndelivered(group: seq<Copy>, once: bool, ghost core: Core, ghost before: Ledger,
                          ghost stamps: SurfaceStamps, ghost now: int)
      returns (outcome: Outcome)
      requires Wired() && DistinctIds(group)
      requires TraceOk(journal.events, now, stamps.next) && Along(core, before)
      modifies log, faults, outage, journal`events
      ensures TraceOk(journal.events, now, stamps.next) && Along(core, before)
      ensures faults.Explain(outcome) && faults.Smooth()
      ensures outcome == Ok ==> Audited(0, 0, 0, 0, 0, 0) && journal.events == old(journal.events)
      ensures outcome == Ok ==>
                log.rows == old(log.rows) +
                            Repeated(SendFailedRow, if once then Unsaid(Ids(group), old(outage.seen)) else |group|)
      ensures outcome == Ok ==> outage.seen == old(outage.seen) + if once then SetOf(Ids(group)) else {}
      ensures outcome == Error ==> Broke(journal.events, Ids(group))
    {
      hide Unsaid, TraceOk, Along, Broke, AuditOf, SetOf, Ids, DistinctIds;
      ghost var ids := Ids(group);
      NoneUnsaid(old(outage.seen));
      NoneLeft(map[]);
      assert ids[..0] == [] && outage.seen + {} == outage.seen;
      for k := 0 to |group|
        invariant TraceOk(journal.events, now, stamps.next) && Along(core, before)
        invariant faults.Explain(Ok) && faults.Smooth() && Audited(0, 0, 0, 0, 0, 0)
        invariant journal.events == old(journal.events)
        invariant log.rows == old(log.rows) +
                              Repeated(SendFailedRow, if once then Unsaid(ids[..k], old(outage.seen)) else k)
        invariant outage.seen == old(outage.seen) + if once then SetOf(ids[..k]) else {}
      {
        IdAt(group, k);
        UnsaidNext(ids, old(outage.seen), k);
        SaidNext(group, k);
        var recorded := SayOneUndelivered(group, k, once, core, before, stamps, now);
        if !recorded {
          return Error;
        }
      }
      assert ids[..|group|] == ids;
      outcome := Ok;
    }

    method SayOneUndelivered(group: seq<Copy>, k: nat, once: bool, ghost core: Core, ghost before: Ledger,
                             ghost stamps: SurfaceStamps, ghost now: int)
      returns (recorded: bool)
      requires Wired() && k < |group|
      requires TraceOk(journal.events, now, stamps.next) && Along(core, before)
      modifies log, faults, outage, journal`events
      ensures TraceOk(journal.events, now, stamps.next) && Along(core, before)
      ensures faults.Explain(if recorded then Ok else Error) && faults.Smooth()
      ensures recorded ==> Audited(0, 0, 0, 0, 0, 0) && journal.events == old(journal.events)
      ensures recorded ==>
                log.rows == old(log.rows) + if once && group[k].id in old(outage.seen) then [] else [SendFailedRow]
      ensures outage.seen == old(outage.seen) + if once then {group[k].id} else {}
      ensures !recorded ==> Broke(journal.events, Ids(group))
    {
      hide TraceOk, Composed, Ledger.After, Broke, AuditOf, Ids;
      recorded := true;
      var first := true;
      assert outage.seen + {} == outage.seen && log.rows + [] == log.rows && journal.events + [] == journal.events;
      if once {
        first := outage.First(group[k].id);
      }
      if first {
        recorded := log.RecordOf(SendFailedRow, group[k].id);
        if !recorded {
          IdAt(group, k);
          NotSaidNext(before, old(journal.events), group[k].id, Ids(group), now, stamps.next, core);
        }
      }
    }

    /** One message for each group, in order, up to an error. */
    method PushGroups(core: Core, groups: seq<seq<Copy>>, ghost ids: seq<string>, stamps: SurfaceStamps, now: int,
                      ghost before: Ledger)
      returns (delivered: nat, outcome: Outcome)
      requires Valid() && TraceOk(journal.events, now, stamps.next) && Along(core, before)
      requires Pend(groups, 0, store.rows, Memory(), |channel.pushed|)
      requires forall i :: 0 <= i < |groups| ==> AllIn(Ids(groups[i]), ids)
      modifies store`rows, store`writes, journal`events, log, faults, channel`pushed, channel`tried, outage, unmarked,
               stamps, this`behind
      ensures Valid() && Goes() && TraceOk(journal.events, now, stamps.next) && Along(core, before)
      ensures faults.Explain(outcome)
      ensures PushedOnce(old(channel.pushed), channel.pushed, ids)
      ensures outcome == Ok ==> behind == old(behind) && unmarked.seen == old(unmarked.seen)
      ensures faults.lost == old(faults.lost) ==> behind == old(behind)
      ensures !CanDeliver() ==>
                delivered == 0 && channel.pushed == old(channel.pushed) && channel.tried == old(channel.tried)
      // every message is tried, or those up to one about which something could not be written
      ensures old(channel.tried) <= channel.tried
      ensures CanDeliver() ==>
                var tried := channel.tried[|old(channel.tried)|..];
                if outcome == Ok then tried == IdsOfEach(groups) else StoppedIn(groups, tried, journal.events)
      ensures outcome == Ok ==>
                delivered + faults.conflicts - old(faults.conflicts) == |channel.pushed| - |old(channel.pushed)|
      ensures outcome == Ok ==> Audited(0, 0, 0, delivered, 0, 0)
      ensures groups == [] ==>
                && outcome == Ok && delivered == 0
                && unchanged(store, log, channel, journal, faults, outage, unmarked, stamps, this)
    {
      hide Wired, Kept, TraceOk, AllWait, Books, Unsaid, AllOver, Pend, NoneIn, Apart, PushedOnce, DistinctIds, Grows,
        Ids, IdsOfEach, SetOf, Repeated, AllIn, Along, Broke, StoppedIn, RowLost;
      delivered, outcome := 0, Ok;
      NoPush(channel.pushed, ids);
      GrowsIsReflexive(store.rows);
      NoneTried(groups);
      for i := 0 to |groups|
        invariant i == 0 ==>
                    delivered == 0 && unchanged(store, log, channel, journal, faults, outage, unmarked, stamps, this)
        invariant Valid() && Goes() && TraceOk(journal.events, now, stamps.next) && Along(core, before)
        invariant behind == old(behind) && unmarked.seen == old(unmarked.seen)
        invariant PushedOnce(old(channel.pushed), channel.pushed, ids)
        invariant Pend(groups, i, store.rows, Memory(), |old(channel.pushed)|)
        invariant !CanDeliver() ==> delivered == 0 && channel.pushed == old(channel.pushed)
        invariant channel.tried == old(channel.tried) + if CanDeliver() then IdsOfEach(groups[..i]) else []
        invariant faults.Explain(Ok) && Audited(0, 0, 0, delivered, 0, 0)
        invariant delivered + faults.conflicts - old(faults.conflicts) == |channel.pushed| - |old(channel.pushed)|
      {
        ghost var rows0, pushed0, memory0 := store.rows, channel.pushed, Memory();
        OnePends(groups, i, rows0, memory0, |old(channel.pushed)|);
        OneTried(groups, i);
        var n, result := Deliver(core, groups[i], stamps, now, before);
        delivered := delivered + n;
        GrowsIsTransitive(old(store.rows), rows0, store.rows);
        if channel.pushed != pushed0 {
          OneMorePush(old(channel.pushed), pushed0, Ids(groups[i]), ids);
        }
        NextPends(groups, i, rows0, store.rows, memory0, Memory(), |old(channel.pushed)|);
        if result == Error {
          StoppedHere(groups, i, journal.events);
          assert CanDeliver() ==> channel.tried[|old(channel.tried)|..] == IdsOfEach(groups[..i + 1]);
          return delivered, Error;
        }
      }
      assert groups[..|groups|] == groups;
      assert CanDeliver() ==> channel.tried[|old(channel.tried)|..] == IdsOfEach(groups);
    }

    /** Pushes the queue, one message a unit, and empties it first: nothing queued is ever sent twice. */
    method Flush(core: Core, q: Queue, stamps: SurfaceStamps, now: int, ghost before: Ledger)
      returns (delivered: nat, outcome: Outcome, ghost groups: seq<seq<Copy>>)
      requires Valid() && DistinctIds(q.rows)
      requires AllWait(store.rows, Ids(q.rows), Memory())
      requires TraceOk(journal.events, now, stamps.next) && Along(core, before)
      modifies store`rows, store`writes, journal`events, log, faults, channel`pushed, channel`tried, outage, unmarked,
               stamps, q, this`behind
      ensures q.rows == []
      ensures Valid() && Goes() && TraceOk(journal.events, now, stamps.next) && Along(core, before)
      ensures faults.Explain(outcome)
      ensures PushedOnce(old(channel.pushed), channel.pushed, Ids(old(q.rows)))
      ensures outcome == Ok ==> behind == old(behind) && unmarked.seen == old(unmarked.seen)
      ensures faults.lost == old(faults.lost) ==> behind == old(behind)
      ensures !CanDeliver() ==>
                delivered == 0 && channel.pushed == old(channel.pushed) && channel.tried == old(channel.tried)
      // one message for each unit, every one of them tried, or those up to one about which something could not be written
      ensures old(channel.tried) <= channel.tried && Ordered(groups, Grouping(old(q.rows)))
      ensures CanDeliver() ==>
                var tried := channel.tried[|old(channel.tried)|..];
                if outcome == Ok then tried == IdsOfEach(groups) else StoppedIn(groups, tried, journal.events)
      // each reminder pushed was delivered, or was moved on by another; each delivery has its audit row
      ensures outcome == Ok ==>
                delivered + faults.conflicts - old(faults.conflicts) == |channel.pushed| - |old(channel.pushed)|
      ensures outcome == Ok ==> Audited(0, 0, 0, delivered, 0, 0)
      ensures old(q.rows) == [] ==>
                && outcome == Ok && delivered == 0
                && unchanged(store, log, channel, journal, faults, outage, unmarked, stamps, this)
    {
      hide Kept, TraceOk, AllWait, Ordered, Grouping, Books, Pend, PushedOnce, DistinctIds, Grows, Ids, IdsOfEach,
        AllIn, Along, StoppedIn;
      var split := q.Groups();
      groups := split;
      ghost var queued := q.rows;
      q.rows := [];
      AllPend(queued, split, store.rows, Memory());
      delivered, outcome := PushGroups(core, split, Ids(queued), stamps, now, before);
    }

    /** Pushes the queue of a scan, in which all it fired waits, and says what its messages come to. */
    method PushQueued(core: Core, q: Queue, stamps: SurfaceStamps, now: int, ghost before: Ledger)
      returns (delivered: nat, outcome: Outcome)
      requires Valid() && QueueOk(q.rows) && Memory() == before
      requires forall id :: id in journal.fired ==> id in Ids(q.rows)
      requires TraceOk(journal.events, now, stamps.next) && Along(core, before)
      modifies store`rows, store`writes, journal`events, log, faults, channel`pushed, channel`tried, outage, unmarked,
               stamps, q, this`behind
      ensures Valid() && Goes() && TraceOk(journal.events, now, stamps.next) && Along(core, before)
      ensures faults.Explain(outcome)
      ensures Apart(channel.pushed[|old(channel.pushed)|..]) && PushedAgainIfLeft(before, channel.pushed)
      ensures outcome == Ok ==> behind == old(behind) && unmarked.seen == old(unmarked.seen)
      ensures faults.lost == old(faults.lost) ==> behind == old(behind)
      ensures old(channel.tried) <= channel.tried
      ensures CanDeliver() ==>
                var tried := channel.tried[|old(channel.tried)|..];
                && FiredIsTried(journal.fired, old(q.rows), tried, journal.events)
                && (outcome == Ok ==> TriedAll(old(q.rows), tried))
      ensures outcome == Ok ==> Audited(0, 0, 0, delivered, 0, 0)
      ensures !CanDeliver() || old(q.rows) == [] ==> delivered == 0
      ensures old(q.rows) == [] ==>
                outcome == Ok && unchanged(store, log, channel, journal, faults, outage, unmarked, stamps, this)
    {
      hide Kept, TraceOk, AllWait, Ordered, Grouping, Books, PushedOnce, DistinctIds, Grows, Ids, IdsOfEach, Along,
        StoppedIn, FiredIsTried, TriedAll, PushedAgainIfLeft, Apart;
      ghost var rows1, queued, groups := store.rows, q.rows, [];
      delivered, outcome, groups := Flush(core, q, stamps, now, before);
      PushedAreApart(old(channel.pushed), channel.pushed, Ids(queued));
      WaitingArePushed(rows1, before, Ids(queued), channel.pushed);
      if CanDeliver() {
        FiredWasTried(journal.fired, queued, groups, channel.tried[|old(channel.tried)|..], journal.events);
        GroupsTried(queued, groups);
      }
    }

    // ---- the due rows ----

    /** Out of armed: fired or expired, and for a recurring row its next occurrence armed in the same write. */
    method LeaveArmed(core: Core, t: Copy, to: Status) returns (w: Write)
      requires Wired() && to != Armed
      modifies store`rows, store`writes, faults
      ensures Grows(old(store.rows), store.rows) && store.writes == old(store.writes) + 1 && faults.Noted(w)
      ensures w.Done? ==> t.id in store.rows && store.rows[t.id].status == to
      ensures w.Done? && t.id in old(store.rows) ==> old(store.rows)[t.id].status == Armed
      ensures w.Conflict? ==> t.id in store.rows ==> store.rows[t.id].status != Armed
      ensures w.Done? && Recurs(t.row) ==>
                exists next :: next in store.rows && next !in old(store.rows) && store.rows[next] == NextOf(t, core)
    {
      if !Recurs(t.row) {
        w := store.Leave(t.id, to);
      } else {
        var successor: string := *;
        w := store.Rearm(t.id, to, successor, NextOf(t, core));
      }
    }

    /** A lost race is recorded and skipped; anything else is an error. */
    method Lost(w: Write) returns (outcome: Outcome)
      requires Wired() && w != Done
      modifies log, faults
      ensures w == Failed ==> outcome == Error && unchanged(log, faults)
      ensures w == Conflict ==> faults.Explain(outcome) && faults.Smooth()
      ensures outcome == Ok ==> w == Conflict && log.rows == old(log.rows) + [ConflictRow] &&
                                AuditOf(log.rows) == AuditOf(old(log.rows)).Note(ConflictRow)
    {
      if w == Failed {
        return Error;
      }
      var recorded := log.Record(ConflictRow);
      outcome := if recorded then Ok else Error;
    }

    /** The queue holds fired rows, each once, none that this process already pushed. */
    ghost predicate QueueOk(rows: seq<Copy>)
      reads this, store, channel, unmarked
    {
      DistinctIds(rows) && AllWait(store.rows, Ids(rows), Memory())
    }

    /** Moves one due row to fired and queues it; a dry run reports the same and does neither. */
    method FireAndDeliver(core: Core, t: Copy, commit: bool, q: Queue) returns (fired: nat, outcome: Outcome)
      requires Valid() && QueueOk(q.rows) && t.id in store.rows && (commit ==> t.id !in Ids(q.rows))
      modifies store`rows, store`writes, log, faults, journal`fired, q
      ensures Valid() && QueueOk(q.rows) && Grows(old(store.rows), store.rows)
      ensures !commit ==> outcome == Ok && fired == 1 && unchanged(store, log, faults, journal, q)
      ensures faults.Explain(outcome) && fired <= 1
      ensures q.rows == old(q.rows) + if commit && fired == 1 then [t] else []
      ensures journal.fired == old(journal.fired) + if commit && fired == 1 then [t.id] else []
      ensures commit && fired == 1 ==> outcome == Ok && t.id in store.rows && store.rows[t.id].Rank() >= 1
      ensures commit && outcome == Ok ==>
                fired + faults.conflicts - old(faults.conflicts) == 1 && Audited(fired, 0, 0, 0, 0, 0)
    {
      hide Kept, AllWait, Grows, Books, Ids;
      GrowsIsReflexive(store.rows);
      assert q.rows + [] == q.rows && journal.fired + [] == journal.fired;
      if !commit {
        return 1, Ok;
      }
      fired, outcome := FireNow(core, t, q);
    }

    /** The write that fires it; a lost race is recorded, and then it is not this scan's to queue. */
    method FireNow(core: Core, t: Copy, q: Queue) returns (fired: nat, outcome: Outcome)
      requires Valid() && QueueOk(q.rows) && t.id in store.rows && t.id !in Ids(q.rows)
      modifies store`rows, store`writes, log, faults, journal`fired, q
      ensures Valid() && QueueOk(q.rows) && Grows(old(store.rows), store.rows)
      ensures faults.Explain(outcome) && fired <= 1
      ensures q.rows == old(q.rows) + if fired == 1 then [t] else []
      ensures journal.fired == old(journal.fired) + if fired == 1 then [t.id] else []
      ensures fired == 1 ==> outcome == Ok && t.id in store.rows && store.rows[t.id].Rank() >= 1
      ensures outcome == Ok ==> fired + faults.conflicts - old(faults.conflicts) == 1 && Audited(fired, 0, 0, 0, 0, 0)
    {
      hide Wired, Kept, AllWait, Grows, AuditOf, Ids, Recurs, NextOf;
      assert q.rows + [] == q.rows && journal.fired + [] == journal.fired;
      var w := LeaveArmed(core, t, Fired);
      GrowsKeepsKept(old(store.rows), store.rows, Memory());
      GrowsKeepsWaiting(old(store.rows), store.rows, Ids(q.rows), Memory());
      if w != Done {
        fired := 0;
        outcome := Lost(w);
      } else {
        JustFiredWaits(old(store.rows), store.rows, t.id, Memory());
        fired, outcome := QueueFired(t, q);
      }
    }

    /** Queues a row just fired, once that is recorded. */
    method QueueFired(t: Copy, q: Queue) returns (fired: nat, outcome: Outcome)
      requires Valid() && QueueOk(q.rows) && Waits(store.rows, t.id, Memory()) && t.id !in Ids(q.rows)
      modifies log, faults, journal`fired, q
      ensures Valid() && QueueOk(q.rows)
      ensures faults.Explain(outcome) && fired <= 1 && (fired == 1 <==> outcome == Ok) && faults.Smooth()
      ensures q.rows == old(q.rows) + if fired == 1 then [t] else []
      ensures journal.fired == old(journal.fired) + if fired == 1 then [t.id] else []
      ensures fired == 1 ==> Audited(1, 0, 0, 0, 0, 0)
    {
      hide Kept, AllWait, AuditOf, Ids, Waits;
      assert q.rows + [] == q.rows && journal.fired + [] == journal.fired;
      var recorded := log.Record(FiredRow);
      if !recorded {
        return 0, Error;
      }
      QueueGrows(q.rows, t, store.rows, Memory());
      q.Add(t);
      journal.AddFired(t.id);
      return 1, Ok;
    }

    /** Expires an armed row or lapses a fired one; a dry run reports it and writes nothing. */
    method Retire(core: Core, s: StaleRow, commit: bool) returns (done: bool, outcome: Outcome)
      requires Valid()
      modifies store`rows, store`writes, log, faults
      ensures Valid() && Grows(old(store.rows), store.rows)
      ensures !commit ==> outcome == Ok && done && unchanged(store, log, faults)
      ensures faults.Explain(outcome)
      ensures commit && done ==>
                s.t.id in store.rows && store.rows[s.t.id].status == Expired && faults.Smooth()
      ensures !done && outcome == Ok ==>
                faults.conflicts == old(faults.conflicts) + 1 && Audited(0, 0, 0, 0, 0, 0)
      ensures !done && outcome == Ok && s.t.id in store.rows ==>
                if s.armed then store.rows[s.t.id].status != Armed else store.rows[s.t.id].Rank() != 1
      ensures commit && done && outcome == Ok ==>
                Audited(0, if s.armed then 1 else 0, if s.armed then 0 else 1, 0, 0, 0)
    {
      hide Kept, Grows, Books;
      GrowsIsReflexive(store.rows);
      if !commit {
        return true, Ok;
      }
      done, outcome := RetireNow(core, s);
    }

    method RetireNow(core: Core, s: StaleRow) returns (done: bool, outcome: Outcome)
      requires Valid()
      modifies store`rows, store`writes, log, faults
      ensures Valid() && Grows(old(store.rows), store.rows)
      ensures faults.Explain(outcome)
      ensures done ==> s.t.id in store.rows && store.rows[s.t.id].status == Expired && faults.Smooth()
      ensures !done && outcome == Ok ==>
                faults.conflicts == old(faults.conflicts) + 1 && Audited(0, 0, 0, 0, 0, 0)
      ensures !done && outcome == Ok && s.t.id in store.rows ==>
                if s.armed then store.rows[s.t.id].status != Armed else store.rows[s.t.id].Rank() != 1
      ensures done && outcome == Ok ==> Audited(0, if s.armed then 1 else 0, if s.armed then 0 else 1, 0, 0, 0)
    {
      hide Kept, Grows, AuditOf, Recurs, NextOf;
      var w;
      if s.armed {
        w := LeaveArmed(core, s.t, Expired);
      } else {
        w := store.Lapse(s.t.id);
      }
      GrowsKeepsKept(old(store.rows), store.rows, Memory());
      if w != Done {
        done := false;
        outcome := Lost(w);
      } else {
        var recorded := log.Record(if s.armed then ExpiredRow else LapsedRow);
        done, outcome := true, if recorded then Ok else Error;
      }
    }

    /** One due row: parked for the re-plan, left as it is, fired or expired. */
    method DueOne(core: Core, t: Copy, act: Act, commit: bool, q: Queue, sum: Tally)
      returns (tally: Tally, outcome: Outcome)
      requires Valid() && QueueOk(q.rows) && t.id in store.rows && t.id !in sum.settled
      requires commit ==> FiredAreQueued(sum.settled, q.rows) && Moved(store.rows, sum.settled)
      requires commit ==> journal.fired == Ids(q.rows)
      requires act != Leave(Armed)
      modifies store`rows, store`writes, log, faults, journal`fired, loud, q
      ensures Valid() && QueueOk(q.rows) && Grows(old(store.rows), store.rows)
      ensures commit ==> FiredAreQueued(tally.settled, q.rows) && Moved(store.rows, tally.settled)
      ensures commit ==> journal.fired == Ids(q.rows)
      ensures q.rows == old(q.rows) || q.rows == old(q.rows) + [t]
      ensures forall id :: id in tally.settled ==> id in sum.settled || id == t.id
      ensures !commit ==> outcome == Ok && unchanged(store, log, faults, journal, loud, q)
      ensures faults.Explain(outcome)
      ensures outcome == Ok && faults.Smooth() ==> tally == TallyOne(sum, t, act)
      ensures commit && outcome == Ok ==> Audited(tally.fired - sum.fired, tally.expired - sum.expired, 0, 0, 0, 0)
      // a reminder that cannot be pushed is said once a process
      ensures act == Strand && commit && hasChannel && outcome == Ok ==>
                loud.seen == old(loud.seen) + {t.id} &&
                log.rows == old(log.rows) + if t.id in old(loud.seen) then [] else [SendFailedRow]
    {
      hide Kept, AllWait, Grows, AuditOf, Ids, Moved, FiredAreQueued;
      GrowsIsReflexive(store.rows);
      tally, outcome := sum, Ok;
      match act {
        case Park =>
          tally := sum.(stale := sum.stale + [StaleRow(t, true)]);
        case Strand =>
          if commit && hasChannel {
            assert log.rows + [] == log.rows;
            var first := loud.First(t.id);
            if first {
              var recorded := log.Record(SendFailedRow);
              outcome := if recorded then Ok else Error;
            }
          }
        case Leave(to) =>
          ghost var queue0 := q.rows;
          if to == Fired {
            if commit {
              NotQueued(sum.settled, q.rows, t.id);
            }
            var fired;
            fired, outcome := FireAndDeliver(core, t, commit, q);
            if fired > 0 {
              tally := sum.(fired := sum.fired + 1, settled := sum.settled[t.id := true]);
            }
            if commit {
              IdsGrow(queue0, t);
              FiredNext(old(store.rows), store.rows, sum.settled, queue0, t, fired);
            }
          } else {
            var done;
            done, outcome := Retire(core, StaleRow(t, true), commit);
            GrowsKeepsWaiting(old(store.rows), store.rows, Ids(q.rows), Memory());
            if done {
              tally := sum.(expired := sum.expired + 1, settled := sum.settled[t.id := false]);
            }
            if commit {
              ExpiredNext(old(store.rows), store.rows, sum.settled, q.rows, t.id, done);
            }
          }
        case Nothing =>
      }
    }

    /** The due rows, one verdict each. */
    method DueLoop(core: Core, due: seq<Copy>, commit: bool, q: Queue) returns (tally: Tally, outcome: Outcome)
      requires Valid() && q.rows == [] && journal.fired == [] && DistinctIds(due) && AllThere(store.rows, due)
      modifies store`rows, store`writes, log, faults, journal`fired, loud, q
      ensures Valid() && QueueOk(q.rows) && Grows(old(store.rows), store.rows)
      ensures commit ==> FiredAreQueued(tally.settled, q.rows) && Moved(store.rows, tally.settled)
      ensures commit ==> journal.fired == Ids(q.rows)
      ensures forall t :: t in q.rows ==> t in due
      ensures faults.Explain(outcome)
      // a dry run touches nothing, and reaches what the writing run reaches when no write is lost
      ensures !commit ==> faults.Smooth() && unchanged(store, log, journal, loud, q)
      ensures outcome == Ok ==> TallyOf(due, core, CanDeliver()).Some?
      ensures outcome == Ok && faults.Smooth() ==> TallyOf(due, core, CanDeliver()) == Some(tally)
      ensures !commit ==> (outcome == Ok <==> TallyOf(due, core, CanDeliver()).Some?)
      ensures commit && outcome == Ok ==> Audited(tally.fired, tally.expired, 0, 0, 0, 0)
    {
      hide Memory, Wired, Kept, AllWait, Grows, TallyOf, Books, Ids, Moved, FiredAreQueued, SettledAre, DistinctIds,
        AllThere, ActOn, TallyOne;
      GrowsIsReflexive(store.rows);
      tally, outcome := Tally(0, 0, [], map[]), Ok;
      EmptyTally(core, CanDeliver());
      NoneMoved(store.rows);
      NoneWaits(store.rows, Memory());
      NoIds();
      assert due[..0] == [];
      for n := 0 to |due|
        invariant Valid() && QueueOk(q.rows) && Grows(old(store.rows), store.rows)
        invariant outcome == Ok && (!commit ==> faults.Smooth() && unchanged(store, log, journal, loud, q))
        invariant TallyOf(due[..n], core, CanDeliver()).Some?
        invariant faults.Smooth() ==> TallyOf(due[..n], core, CanDeliver()) == Some(tally)
        invariant AllThere(store.rows, due)
        invariant SettledAre(tally.settled, due[..n]) && forall t :: t in q.rows ==> t in due
        invariant commit ==> FiredAreQueued(tally.settled, q.rows) && Moved(store.rows, tally.settled)
        invariant commit ==> journal.fired == Ids(q.rows)
        invariant faults.Explain(Ok) && (commit ==> Audited(tally.fired, tally.expired, 0, 0, 0, 0))
      {
        var t := due[n];
        TallyNext(due, n, core, CanDeliver(), TallyOf(due[..n], core, CanDeliver()).value);
        var j := Judge(core, t, false);
        if !j.Some? {
          FirstFailureStops(due, n + 1, core, CanDeliver());
          return tally, Error;
        }
        ghost var rows0, tally0 := store.rows, tally;
        NotSettledYet(tally.settled, due, n);
        OneIsThere(store.rows, due, n);
        NoRowIsLeftArmed(t, j.value, CanDeliver());
        tally, outcome := DueOne(core, t, ActOn(t, j.value, CanDeliver()), commit, q, tally);
        GrowsIsTransitive(old(store.rows), rows0, store.rows);
        StillThere(rows0, store.rows, due);
        OneMoreSettled(tally0.settled, due, n, tally.settled);
        if outcome == Error {
          return;
        }
      }
      assert due[..|due|] == due;
    }

    // ---- the due timers ----

    /** One due timer, fired and sent, or cancelled. A timer's send is its delivery: it is never tried again. */
    method TimerOne(t: Timer, to: TimerStatus, commit: bool) returns (moved: bool, outcome: Outcome)
      requires Valid() && TimersOnce(timers.rows, channel.timers) && t.id in timers.rows && to != Pending
      modifies timers`rows, timers`writes, log, faults, channel`timers, channel`rung
      ensures Valid() && TimersOnce(timers.rows, channel.timers) && TimersGrow(old(timers.rows), timers.rows)
      ensures !commit ==> outcome == Ok && moved && unchanged(timers, log, faults, channel)
      ensures faults.Explain(outcome)
      ensures commit && moved ==> t.id in timers.rows && timers.rows[t.id].status == to && faults.Smooth()
      ensures commit && outcome == Ok && !moved ==> faults.conflicts == old(faults.conflicts) + 1
      ensures commit && outcome == Ok ==>
                Audited(0, 0, 0, 0, if moved && to == TimerFired then 1 else 0, if moved && to == Cancelled then 1 else 0)
      ensures commit && outcome == Ok && moved ==>
                channel.rung == old(channel.rung) + if CanDeliver() && to == TimerFired then [t.id] else []
    {
      hide Kept, AuditOf, TimersOnce, TimersGrow;
      TimersStay(timers.rows);
      assert channel.rung + [] == channel.rung;
      if !commit {
        return true, Ok;
      }
      var w := timers.Leave(t.id, to);
      TimersGrowKeepsOnce(old(timers.rows), timers.rows, channel.timers);
      if w != Done {
        outcome := Lost(w);
        return false, outcome;
      }
      var recorded := log.Record(if to == TimerFired then TimerFiredRow else TimerCancelledRow);
      if !recorded {
        return true, Error;
      }
      if to == TimerFired && CanDeliver() {
        Rings(old(timers.rows), timers.rows, channel.timers, t.id);
        recorded := Ring(t.id);
      }
      return true, if recorded then Ok else Error;
    }

    /** A timer's one send; a failed one leaves a row. */
    method Ring(id: string) returns (ok: bool)
      requires Wired()
      modifies log, faults, channel`timers, channel`rung
      ensures channel.timers == old(channel.timers) || channel.timers == old(channel.timers) + [id]
      ensures channel.rung == old(channel.rung) + [id]
      ensures faults.Explain(if ok then Ok else Error) && faults.Smooth() && (ok ==> Audited(0, 0, 0, 0, 0, 0))
    {
      hide AuditOf;
      ok := true;
      assert channel.timers + [] == channel.timers;
      var sent := channel.SendTimer(id);
      if !sent {
        ok := log.Record(SendFailedRow);
      }
    }

    /** The due timers, one verdict each. */
    method TimerLoop(core: Core, due: seq<Timer>, commit: bool) returns (tally: TimerTally, outcome: Outcome)
      requires Valid() && TimersOnce(timers.rows, channel.timers)
      requires forall k :: 0 <= k < |due| ==> due[k].id in timers.rows
      modifies timers`rows, timers`writes, log, faults, channel`timers, channel`rung
      ensures Valid() && TimersOnce(timers.rows, channel.timers) && TimersGrow(old(timers.rows), timers.rows)
      ensures !commit ==> outcome == Ok && unchanged(timers, log, faults, channel)
      ensures faults.Explain(outcome)
      ensures outcome == Ok && faults.Smooth() ==> tally == TimerTallyOf(due, core)
      ensures commit && outcome == Ok && faults.Smooth() ==> TimersMoved(timers.rows, due, core)
      // every timer it fires is tried, once and in order, when there is somewhere to speak
      ensures commit && outcome == Ok && faults.Smooth() ==>
                channel.rung == old(channel.rung) + if CanDeliver() then RingingOf(due, core) else []
      ensures commit && outcome == Ok ==> Audited(0, 0, 0, 0, tally.fired, tally.cancelled)
    {
      hide Wired, Kept, Books, TimersMoved, RingingOf, TimerTallyOf, TimersOnce, TimersGrow;
      tally, outcome := TimerTally(0, 0), Ok;
      NoTimers(timers.rows, core);
      assert due[..0] == [] && channel.rung + [] == channel.rung;
      for n := 0 to |due|
        invariant Valid() && TimersOnce(timers.rows, channel.timers) && TimersGrow(old(timers.rows), timers.rows)
        invariant outcome == Ok && (!commit ==> unchanged(timers, log, faults, channel))
        invariant faults.Explain(Ok)
        invariant faults.Smooth() ==> tally == TimerTallyOf(due[..n], core)
        invariant commit && faults.Smooth() ==> TimersMoved(timers.rows, due[..n], core)
        invariant commit && faults.Smooth() ==>
                    channel.rung == old(channel.rung) + if CanDeliver() then RingingOf(due[..n], core) else []
        invariant commit ==> Audited(0, 0, 0, 0, tally.fired, tally.cancelled)
        invariant forall k :: 0 <= k < |due| ==> due[k].id in timers.rows
      {
        TimerNext(due, n, core);
        var t := due[n];
        var transition := TimerTransition(core.timer(t));
        ghost var rows0, rung0 := timers.rows, channel.rung;
        if transition.None? {
          TimersStay(rows0);
          TimerMoved(rows0, rows0, due, n, core);
          continue;
        }
        var moved;
        moved, outcome := TimerOne(t, transition.value, commit);
        TimerLeft(old(timers.rows), rows0, timers.rows, due);
        if outcome == Error {
          return;
        }
        if moved {
          if commit {
            TimerMoved(rows0, timers.rows, due, n, core);
            if faults.Smooth() {
              RungNext(old(channel.rung), rung0, channel.rung, due, n, core, CanDeliver());
            }
          }
          tally := if transition.value == TimerFired then tally.(fired := tally.fired + 1)
                   else tally.(cancelled := tally.cancelled + 1);
        }
      }
      assert due[..|due|] == due;
    }

    // ---- the reminder step ----

    /** Plans one unit again. A unit that cannot be read is held: its rows are neither sent nor retired. One that is owed
        nothing, being gone, without an instant or with nothing ahead, is gone through with nothing written. */
    method ReplanUnit(core: Core, unit: string, commit: bool) returns (held: bool, outcome: Outcome)
      requires Wired()
      modifies store`rows, store`writes, log, journal`events, faults
      ensures Grows(old(store.rows), store.rows)
      ensures held <==> Held(core.unreadable, unit)
      ensures held || unit == "" ==> outcome == Ok && unchanged(store, log, journal, faults)
      ensures !core.owed(unit) ==> unchanged(store, log)
      ensures faults.Explain(outcome) && faults.Smooth()
      ensures !commit ==> unchanged(store, log, journal)
      ensures journal.events == old(journal.events) || journal.events == old(journal.events) + [Planned(unit)]
      ensures journal.events != old(journal.events) ==> !held && unit != ""
      ensures outcome == Ok && !held && commit && unit != "" ==> journal.events == old(journal.events) + [Planned(unit)]
      // one plan and its row, when it is owed one
      ensures outcome == Ok && !held && commit && unit != "" && core.owed(unit) ==>
                store.writes == old(store.writes) + 1 && log.rows == old(log.rows) + [PlannedRow]
      ensures outcome == Ok ==> Audited(0, 0, 0, 0, 0, 0)
    {
      hide AuditOf;
      GrowsIsReflexive(store.rows);
      held, outcome := false, Ok;
      if unit == "" {
        return;
      }
      if core.unreadable(unit) {
        return true, Ok;
      }
      var read := faults.Try();
      if !read {
        return false, Error;
      }
      if commit && !core.owed(unit) {
        journal.Add(Planned(unit));
      }
      if commit && core.owed(unit) {
        var planned := store.WritePlan(unit);
        if !planned {
          return false, Error;
        }
        var recorded := log.Record(PlannedRow);
        if !recorded {
          return false, Error;
        }
      }
    }

    /** Retires the rows of one unit, planned before. */
    method RetireGroup(core: Core, group: seq<StaleRow>, unit: string, commit: bool, q: Queue, ghost waiting: seq<string>)
      returns (expired: nat, lapsed: nat, outcome: Outcome)
      requires Valid() && QueueOk(q.rows) && AllWait(store.rows, waiting, Memory())
      requires PlanTrace(journal.events, core.unreadable) && !Held(core.unreadable, unit)
      requires commit ==> PlannedBefore(journal.events, |journal.events|, unit)
      modifies store`rows, store`writes, log, journal`events, faults
      ensures Valid() && QueueOk(q.rows) && AllWait(store.rows, waiting, Memory()) && Grows(old(store.rows), store.rows)
      ensures PlanTrace(journal.events, core.unreadable)
      ensures forall e :: e in journal.events ==> e in old(journal.events) || e.Retired?
      ensures faults.Explain(outcome)
      ensures !commit ==> outcome == Ok && unchanged(store, log, journal, faults)
      ensures outcome == Ok && faults.Smooth() ==> expired == CountArmed(group) && expired + lapsed == |group|
      ensures outcome == Ok && faults.Smooth() && commit ==> Ended(store.rows, group)
      // each row is retired, or was moved on by another
      ensures outcome == Ok && commit ==>
                expired + lapsed + faults.conflicts - old(faults.conflicts) == |group| &&
                    Audited(0, expired, lapsed, 0, 0, 0)
    {
      hide Wired, Kept, AllWait, Grows, PlanTrace, PlannedBefore, CountArmed, Ended, Books, DistinctIds, Ids;
      GrowsIsReflexive(store.rows);
      NoneArmed(core);
      NoneEnded(store.rows);
      expired, lapsed, outcome := 0, 0, Ok;
      assert group[..0] == [];
      for k := 0 to |group|
        invariant Valid() && QueueOk(q.rows) && AllWait(store.rows, waiting, Memory()) &&
                    Grows(old(store.rows), store.rows)
        invariant PlanTrace(journal.events, core.unreadable)
        invariant forall e :: e in journal.events ==> e in old(journal.events) || e.Retired?
        invariant commit ==> PlannedBefore(journal.events, |journal.events|, unit)
        invariant outcome == Ok && faults.Explain(Ok) && (!commit ==> unchanged(store, log, journal, faults))
        invariant faults.Smooth() ==> expired == CountArmed(group[..k]) && expired + lapsed == k
        invariant faults.Smooth() && commit ==> Ended(store.rows, group[..k])
        invariant commit ==>
                    expired + lapsed + faults.conflicts - old(faults.conflicts) == k &&
                        Audited(0, expired, lapsed, 0, 0, 0)
      {
        ghost var rows0 := store.rows;
        var retired;
        retired, outcome := Retire(core, group[k], commit);
        Onward(old(store.rows), rows0, store.rows, q.rows, waiting);
        EndedNext(rows0, store.rows, group, k);
        ArmedNext(group[..k], group[k]);
        assert group[..k + 1] == group[..k] + [group[k]];
        if retired && commit {
          RetireNext(journal.events, core.unreadable, group[k].t.id, unit);
          journal.Add(Retired(group[k].t.id, unit));
        }
        if retired && group[k].armed {
          expired := expired + 1;
        } else if retired {
          lapsed := lapsed + 1;
        }
        if outcome == Error {
          return;
        }
      }
      assert group[..|group|] == group;
    }

    /** One unit: planned, and then its stale rows retired, unless it is held. */
    method RetireUnit(core: Core, group: seq<StaleRow>, unit: string, commit: bool, q: Queue, ghost waiting: seq<string>)
      returns (expired: nat, lapsed: nat, outcome: Outcome)
      requires Valid() && QueueOk(q.rows) && AllWait(store.rows, waiting, Memory())
      requires PlanTrace(journal.events, core.unreadable) && Planned(unit) !in journal.events
      modifies store`rows, store`writes, log, journal`events, faults
      ensures Valid() && QueueOk(q.rows) && AllWait(store.rows, waiting, Memory()) && Grows(old(store.rows), store.rows)
      ensures PlanTrace(journal.events, core.unreadable)
      ensures forall e :: e in journal.events ==> e in old(journal.events) || e == Planned(unit) || e.Retired?
      ensures faults.Explain(outcome)
      ensures Held(core.unreadable, unit) ==>
                outcome == Ok && expired == lapsed == 0 && unchanged(store, log, journal, faults)
      ensures !commit ==> faults.Smooth() && unchanged(store, log, journal)
      ensures outcome == Ok && !Held(core.unreadable, unit) && faults.Smooth() ==>
                expired == CountArmed(group) && expired + lapsed == |group|
      ensures outcome == Ok && !Held(core.unreadable, unit) && faults.Smooth() && commit ==> Ended(store.rows, group)
      ensures outcome == Ok && commit ==>
                && expired + lapsed + faults.conflicts - old(faults.conflicts) ==
                    (if Held(core.unreadable, unit) then 0 else |group|)
                && Audited(0, expired, lapsed, 0, 0, 0)
    {
      hide Kept, AllWait, Grows, PlanTrace, PlannedBefore, CountArmed, Ended, Books, DistinctIds, Ids;
      expired, lapsed := 0, 0;
      GrowsIsReflexive(store.rows);
      var held;
      held, outcome := ReplanUnit(core, unit, commit);
      Onward(old(store.rows), old(store.rows), store.rows, q.rows, waiting);
      if journal.events != old(journal.events) {
        PlanNext(old(journal.events), core.unreadable, unit);
      }
      NothingToPlan(journal.events);
      if held || outcome == Error {
        return;
      }
      ghost var rows1, events1 := store.rows, journal.events;
      expired, lapsed, outcome := RetireGroup(core, group, unit, commit, q, waiting);
      GrowsIsTransitive(old(store.rows), rows1, store.rows);
      assert forall e :: e in events1 ==> e in old(journal.events) || e == Planned(unit);
    }

    /** Plans each unit that has a stale row, once, and only then retires the rows of the units that are not held. */
    method RetireStale(core: Core, stale: seq<StaleRow>, commit: bool, q: Queue, ghost waiting: seq<string>)
      returns (expired: nat, lapsed: nat, outcome: Outcome)
      requires Valid() && QueueOk(q.rows) && AllWait(store.rows, waiting, Memory())
      requires journal.events == []
      modifies store`rows, store`writes, log, journal`events, faults
      ensures Valid() && QueueOk(q.rows) && AllWait(store.rows, waiting, Memory()) && Grows(old(store.rows), store.rows)
      ensures PlanTrace(journal.events, core.unreadable)
      ensures faults.Explain(outcome)
      ensures !commit ==> faults.Smooth() && unchanged(store, log, journal)
      ensures outcome == Ok && faults.Smooth() ==>
                expired == CountArmed(Plannable(stale, core)) && expired + lapsed == |Plannable(stale, core)|
      ensures outcome == Ok && faults.Smooth() && commit ==> Ended(store.rows, Plannable(stale, core))
      ensures outcome == Ok && commit ==>
                && expired + lapsed + faults.conflicts - old(faults.conflicts) == |Plannable(stale, core)|
                && Audited(0, expired, lapsed, 0, 0, 0)
    {
      hide Wired, Kept, AllWait, Grows, PlanTrace, CountArmed, Plannable, Ended, EndedBut, NotPlanned, RowsOf, Books,
        DistinctIds, Ids;
      GrowsIsReflexive(store.rows);
      NoneArmed(core);
      expired, lapsed, outcome := 0, 0, Ok;
      var left := stale;
      NothingPlanned(journal.events, stale, store.rows, core);
      while |left| > 0
        invariant Valid() && QueueOk(q.rows) && AllWait(store.rows, waiting, Memory()) &&
                    Grows(old(store.rows), store.rows)
        invariant PlanTrace(journal.events, core.unreadable) && NotPlanned(journal.events, left)
        invariant outcome == Ok && faults.Explain(Ok) && (!commit ==> faults.Smooth() && unchanged(store, log, journal))
        invariant faults.Smooth() ==>
                    && expired + CountArmed(Plannable(left, core)) == CountArmed(Plannable(stale, core))
                    && expired + lapsed + |Plannable(left, core)| == |Plannable(stale, core)|
        invariant faults.Smooth() && commit ==> EndedBut(store.rows, stale, left, core)
        invariant commit ==>
                    && expired + lapsed + faults.conflicts - old(faults.conflicts) + |Plannable(left, core)| ==
                        |Plannable(stale, core)|
                    && Audited(0, expired, lapsed, 0, 0, 0)
        decreases |left|
      {
        ghost var rows0, events0 := store.rows, journal.events;
        var unit := UnitKey(left[0].t);
        FirstIsNotPlanned(events0, left);
        var group, rest := SplitByUnit(left, unit);
        var e, l;
        e, l, outcome := RetireUnit(core, group, unit, commit, q, waiting);
        GrowsIsTransitive(old(store.rows), rows0, store.rows);
        PlannableSplits(left, unit, core);
        OneUnitOn(stale, left, unit, core, rows0, store.rows, events0, journal.events);
        if outcome == Error {
          return;
        }
        expired, lapsed := expired + e, lapsed + l;
        left := rest;
      }
      assert left == [];
      if commit && faults.Smooth() {
        AllGoneThrough(store.rows, stale, core);
      }
    }

    /** Time passes for the store: what waits still waits. */
    lemma Onward(first: map<string, Row>, rows: map<string, Row>, after: map<string, Row>, queue: seq<Copy>,
                 waiting: seq<string>)
      requires Grows(first, rows) && Grows(rows, after) && Wired() && since <= |channel.pushed|
      requires Kept(rows, Memory())
      requires AllWait(rows, Ids(queue), Memory())
      requires AllWait(rows, waiting, Memory())
      ensures Grows(first, after) && Kept(after, Memory())
      ensures AllWait(after, Ids(queue), Memory())
      ensures AllWait(after, waiting, Memory())
    {
    }

    /** Sets the late and superseded apart from those to queue again. */
    method SortUndelivered(core: Core, found: seq<Copy>, settled: map<string, bool>)
      returns (stale: seq<StaleRow>, retry: seq<Copy>, judged: bool)
      requires Valid() && Found(store.rows, found, Unseen)
      modifies faults
      ensures faults.Explain(if judged then Ok else Error) && faults.Smooth()
      ensures judged ==> stale == StaleOf(found, core) && retry == RetryOf(found, core, settled, unmarked.seen)
      ensures DistinctIds(retry) && AllWait(store.rows, Ids(retry), Memory()) && forall t :: t in retry ==> t in found
    {
      hide Kept, AllWait, StaleOf, RetryOf;
      NoneWaits(store.rows, Memory());
      NoneUndelivered(core, settled, unmarked.seen);
      stale, retry, judged := [], [], false;
      assert found[..0] == [];
      for k := 0 to |found|
        invariant DistinctIds(retry) && forall j :: 0 <= j < |retry| ==> retry[j] in found[..k]
        invariant AllWait(store.rows, Ids(retry), Memory())
        invariant stale == StaleOf(found[..k], core) && retry == RetryOf(found[..k], core, settled, unmarked.seen)
        invariant faults.Explain(Ok) && faults.Smooth()
      {
        var t := found[k];
        assert found[..k + 1] == found[..k] + [t];
        UndeliveredNext(found, k, core, settled, unmarked.seen);
        if !Pushed(t.row) {
          continue;
        }
        var j := Judge(core, t, true);
        if !j.Some? {
          return;
        }
        if j.value.verdict == Stale && j.value.reason != Passed {
          stale := stale + [StaleRow(t, false)];
        } else if j.value.verdict == DeliverNow && t.id !in settled && !unmarked.Has(t.id) {
          RetriedWaits(store.rows, t.id, Memory());
          assert t.id !in Ids(retry) by { NotYet(found, k, retry); }
          QueueGrows(retry, t, store.rows, Memory());
          retry := retry + [t];
        }
      }
      assert found[..|found|] == found;
      judged := true;
    }

    method QueueAll(retry: seq<Copy>, q: Queue)
      requires QueueOk(q.rows) && AllWait(store.rows, Ids(retry), Memory())
      modifies q
      ensures QueueOk(q.rows)
      ensures forall id :: id in Ids(q.rows) <==> id in Ids(old(q.rows)) || id in Ids(retry)
      ensures forall t :: t in q.rows ==> t in old(q.rows) || t in retry
    {
      hide AllWait;
      assert retry[..0] == [];
      for k := 0 to |retry|
        invariant QueueOk(q.rows) && forall t :: t in q.rows ==> t in old(q.rows) || t in retry
        invariant AllWait(store.rows, Ids(retry), Memory())
        invariant forall id :: id in Ids(q.rows) <==> id in Ids(old(q.rows)) || id in Ids(retry[..k])
      {
        OneWaits(store.rows, retry, k, Memory());
        QueueGrows(q.rows, retry[k], store.rows, Memory());
        assert retry[..k + 1] == retry[..k] + [retry[k]];
        IdsNext(retry[..k], retry[k]);
        IdsNext(q.rows, retry[k]);
        q.Add(retry[k]);
      }
      assert retry[..|retry|] == retry;
    }

    /** The reminder step: what is stale is planned again and retired, what was never delivered is queued again. */
    method Replan(core: Core, parked: seq<StaleRow>, settled: map<string, bool>, q: Queue, commit: bool)
      returns (expired: nat, lapsed: nat, shown: nat, outcome: Outcome, ghost undelivered: seq<Copy>)
      requires Valid() && QueueOk(q.rows) && journal.events == []
      modifies store, log, journal`events, faults, q
      ensures Valid() && QueueOk(q.rows) && Grows(old(store.rows), store.rows)
      ensures PlanTrace(journal.events, core.unreadable)
      ensures faults.Explain(outcome)
      ensures !commit ==> faults.Smooth() && store.writes == old(store.writes) && unchanged(log, journal, q)
      ensures old(store.found) <= store.found
      ensures outcome == Ok ==>
                |store.found| == |old(store.found)| + 1 &&
                UndeliveredRead(old(store.rows), store.found, |old(store.found)|, undelivered)
      ensures var stale := Plannable(parked + StaleOf(undelivered, core), core);
              && (outcome == Ok && faults.Smooth() ==> expired == CountArmed(stale) && expired + lapsed == |stale|)
              && (outcome == Ok && faults.Smooth() && commit ==> Ended(store.rows, stale))
              && (outcome == Ok && commit ==> expired + lapsed + faults.conflicts - old(faults.conflicts) == |stale|)
      ensures outcome == Ok && commit ==> Audited(0, expired, lapsed, 0, 0, 0)
      ensures outcome == Ok ==> shown == if commit then 0 else |RetryOf(undelivered, core, settled, unmarked.seen)|
      ensures outcome == Ok && commit ==>
                forall id :: id in Ids(q.rows) <==>
                     id in Ids(old(q.rows)) || id in Ids(RetryOf(undelivered, core, settled, unmarked.seen))
      ensures outcome == Error ==> q.rows == old(q.rows)
      ensures forall t :: t in q.rows ==> t in old(q.rows) || t in undelivered
    {
      hide Kept, AllWait, Grows, StaleOf, RetryOf, Plannable, CountArmed, Ended, PlanTrace, AuditOf, Found, DistinctIds,
        Ids;
      expired, lapsed, shown, outcome, undelivered := 0, 0, 0, Error, [];
      NothingPlanned(journal.events, [], store.rows, core);
      var read := store.Read(Unseen);
      GrowsIsReflexive(old(store.rows));
      Onward(old(store.rows), old(store.rows), store.rows, q.rows, []) by {
        NoneWaits(old(store.rows), Memory());
      }
      if !read.Some? {
        return;
      }
      undelivered := read.value;
      var stale, retry, judged := SortUndelivered(core, read.value, settled);
      if !judged {
        return;
      }
      ghost var rows1 := store.rows;
      expired, lapsed, outcome := RetireStale(core, parked + stale, commit, q, Ids(retry));
      GrowsIsTransitive(old(store.rows), rows1, store.rows);
      if outcome == Error {
        return;
      }
      if commit {
        QueueAll(retry, q);
      } else {
        shown := |retry|;
      }
    }

    // ---- the digest ----

    /** Closes the check-ins whose time is up, and returns those to ask again: the longest waiting, no more than a
        digest asks. */
    method OpenCheckins(core: Core, commit: bool) returns (ask: seq<Copy>, outcome: Outcome, ghost open: seq<Copy>)
      requires Valid()
      modifies store, log, faults, unreadable, signals
      ensures Valid() && Grows(old(store.rows), store.rows)
      ensures faults.Explain(outcome)
      ensures !commit ==> faults.Smooth() && store.writes == old(store.writes) && unchanged(log, unreadable, signals)
      ensures old(store.found) <= store.found
      ensures outcome == Ok ==>
                |store.found| == |old(store.found)| + 1 && Found(store.found[|old(store.found)|], open, IsOpen)
      ensures outcome == Ok ==> AskedAgain(ask, open, core)
      ensures outcome == Ok && commit && faults.Smooth() ==>
                TimeIsUp(store.rows, open, core) && signals.ignored == old(signals.ignored) + ClosedOf(open, core)
      // a re-ask that was skipped is recorded once a morning
      ensures outcome == Ok && commit ==>
                unreadable.seen == old(unreadable.seen) + SkippedOf(open, core)
      ensures outcome == Ok && commit ==> Audited(0, 0, 0, 0, 0, 0)
    {
      hide Kept, Grows, AuditOf, AgainOf, TimeIsUp, Found, SkippedOf, AskedAgain, ClosedOf;
      ask, outcome, open := [], Error, [];
      var delivered := store.Read(IsOpen);
      GrowsKeepsKept(old(store.rows), store.rows, Memory());
      if !delivered.Some? {
        return;
      }
      open := delivered.value;
      ghost var rows1 := store.rows;
      var again;
      again, outcome := StepCheckins(core, delivered.value, commit);
      GrowsIsTransitive(old(store.rows), rows1, store.rows);
      var sorted := RowOrder.Sort(again, WaitingSince);
      ask := sorted[..if |sorted| < MAX_REASKS then |sorted| else MAX_REASKS];
      if outcome == Ok {
        LongestAreAsked(ask, sorted, open, core);
      }
    }

    /** One step of each open check-in: closed, left to wait, or returned to be asked again. */
    method StepCheckins(core: Core, open: seq<Copy>, commit: bool) returns (again: seq<Copy>, outcome: Outcome)
      requires Valid()
      modifies store`rows, store`writes, log, faults, unreadable, signals
      ensures Valid() && Grows(old(store.rows), store.rows)
      ensures faults.Explain(outcome)
      ensures !commit ==> outcome == Ok && unchanged(store, log, faults, unreadable, signals)
      ensures outcome == Ok ==> again == AgainOf(open, core)
      ensures outcome == Ok && commit && faults.Smooth() ==>
                TimeIsUp(store.rows, open, core) && signals.ignored == old(signals.ignored) + ClosedOf(open, core)
      ensures outcome == Ok && commit ==> unreadable.seen == old(unreadable.seen) + SkippedOf(open, core)
      ensures outcome == Ok && commit ==> Audited(0, 0, 0, 0, 0, 0)
    {
      hide Kept, Grows, Books, AgainOf, TimeIsUp, SkippedOf, SkipKey, ClosedOf;
      again, outcome := [], Ok;
      GrowsIsReflexive(store.rows);
      NoneOpen(store.rows, core);
      assert open[..0] == [] && unreadable.seen + {} == unreadable.seen && signals.ignored + [] == signals.ignored;
      for k := 0 to |open|
        invariant Valid() && Grows(old(store.rows), store.rows)
        invariant outcome == Ok && faults.Explain(Ok) && (!commit ==> unchanged(store, log, faults, unreadable, signals))
        invariant again == AgainOf(open[..k], core)
        invariant commit && faults.Smooth() ==>
                    TimeIsUp(store.rows, open[..k], core) &&
                      signals.ignored == old(signals.ignored) + ClosedOf(open[..k], core)
        invariant commit ==> unreadable.seen == old(unreadable.seen) + SkippedOf(open[..k], core)
        invariant commit ==> Audited(0, 0, 0, 0, 0, 0)
      {
        ghost var rows0 := store.rows;
        AgainNext(open, k, core);
        SkippedNext(open, k, core);
        ClosedNext(open, k, core);
        if commit {
          outcome := StepCheckin(core, open[k]);
          GrowsIsTransitive(old(store.rows), rows0, store.rows);
          if outcome == Error {
            return;
          }
          if faults.Smooth() {
            TimeIsUpNext(rows0, store.rows, open, k, core);
          }
        }
        if core.step(open[k]) == AskAgain {
          again := again + [open[k]];
        }
      }
      assert open[..|open|] == open;
    }

    /** What one open check-in writes: a row when its re-ask is skipped, and its end when its time is up. */
    method StepCheckin(core: Core, c: Copy) returns (outcome: Outcome)
      requires Valid()
      modifies store`rows, store`writes, log, faults, unreadable, signals
      ensures Valid() && Grows(old(store.rows), store.rows) && faults.Explain(outcome)
      ensures outcome == Ok && core.step(c) == Close && faults.Smooth() ==>
                c.id in store.rows && store.rows[c.id].status == Expired
      ensures outcome == Ok && faults.Smooth() ==>
                signals.ignored == old(signals.ignored) + if core.step(c) == Close then [c.id] else []
      ensures outcome == Ok ==>
                unreadable.seen == old(unreadable.seen) + if core.reaskSkipped(c) then {SkipKey(c, core)} else {}
      ensures outcome == Ok ==> Audited(0, 0, 0, 0, 0, 0)
    {
      hide Kept, Grows, Books, SkipKey;
      outcome := Ok;
      GrowsIsReflexive(store.rows);
      assert unreadable.seen + {} == unreadable.seen && signals.ignored + [] == signals.ignored;
      if core.reaskSkipped(c) {
        var said := SaySkipped(core, c);
        if !said {
          return Error;
        }
      }
      if core.step(c) == Close {
        outcome := CloseCheckin(c);
      }
    }

    /** Records once a morning that a check-in was not asked again because its unit could not be read. */
    method SaySkipped(core: Core, c: Copy) returns (ok: bool)
      requires Wired()
      modifies log, faults, unreadable
      ensures faults.Explain(if ok then Ok else Error) && faults.Smooth()
      ensures unreadable.seen == old(unreadable.seen) + {SkipKey(c, core)}
      ensures ok ==> Audited(0, 0, 0, 0, 0, 0)
      ensures ok ==> log.rows ==
                     old(log.rows) + if SkipKey(c, core) in old(unreadable.seen) then [] else [ReaskSkippedRow]
    {
      hide AuditOf;
      assert log.rows + [] == log.rows;
      var first := unreadable.First(SkipKey(c, core));
      ok := true;
      if first {
        ok := log.Record(ReaskSkippedRow);
      }
    }

    /** Closes one check-in nobody answered, and tells what learns from it. One another moved on is skipped. */
    method CloseCheckin(c: Copy) returns (outcome: Outcome)
      requires Valid()
      modifies store`rows, store`writes, log, faults, signals
      ensures Valid() && Grows(old(store.rows), store.rows) && faults.Explain(outcome)
      ensures outcome == Ok ==> Audited(0, 0, 0, 0, 0, 0)
      ensures outcome == Ok && faults.Smooth() ==> signals.ignored == old(signals.ignored) + [c.id]
      ensures outcome == Ok ==>
                log.rows == old(log.rows) + [if faults.Smooth() then CheckinExpiredRow else ConflictRow]
      ensures outcome == Ok && faults.Smooth() ==> c.id in store.rows && store.rows[c.id].status == Expired
    {
      hide Kept, Grows, AuditOf;
      var w := store.ExpireUnanswered(c.id);
      GrowsKeepsKept(old(store.rows), store.rows, Memory());
      if w != Done {
        outcome := Lost(w);
        return;
      }
      var recorded := log.Record(CheckinExpiredRow);
      var told := recorded;
      if recorded {
        told := signals.Ignored(c.id);
      }
      outcome := if told then Ok else Error;
    }

    /** The fired, unseen rows a digest may carry, and those whose event is past. A late or superseded one is the
        re-plan's. */
    method SplitPast(core: Core, pending: seq<Copy>) returns (kept: seq<Copy>, past: seq<StaleRow>, ok: bool)
      requires Wired()
      modifies faults
      ensures faults.Explain(if ok then Ok else Error) && faults.Smooth()
      ensures ok ==> kept == KeptOf(pending, core) && past == PastOf(pending, core)
    {
      hide KeptOf, PastOf;
      kept, past, ok := [], [], true;
      NonePending(core);
      assert pending[..0] == [];
      for k := 0 to |pending|
        invariant faults.Explain(Ok) && faults.Smooth()
        invariant kept == KeptOf(pending[..k], core) && past == PastOf(pending[..k], core)
      {
        KeptAndPastNext(pending, k, core);
        var j := Judge(core, pending[k], true);
        if !j.Some? {
          return [], [], false;
        }
        if j.value.verdict != Stale {
          if !Pushed(pending[k].row) {
            kept := kept + [pending[k]];
          }
        } else if j.value.reason == Passed {
          past := past + [StaleRow(pending[k], false)];
        }
      }
      assert pending[..|pending|] == pending;
    }

    /** Lapses the rows whose event is past. */
    method LapsePast(core: Core, past: seq<StaleRow>, commit: bool) returns (lapsed: nat, outcome: Outcome)
      requires Valid() && forall k :: 0 <= k < |past| ==> !past[k].armed
      modifies store`rows, store`writes, log, faults
      ensures Valid() && Grows(old(store.rows), store.rows)
      ensures faults.Explain(outcome)
      ensures !commit ==> outcome == Ok && unchanged(store, log, faults)
      ensures outcome == Ok && faults.Smooth() ==> lapsed == |past|
      ensures outcome == Ok && faults.Smooth() && commit ==> Ended(store.rows, past)
      ensures outcome == Ok && commit ==>
                lapsed + faults.conflicts - old(faults.conflicts) == |past| && Audited(0, 0, lapsed, 0, 0, 0)
    {
      hide Kept, Grows, Ended, Books;
      lapsed, outcome := 0, Ok;
      GrowsIsReflexive(store.rows);
      NoneEnded(store.rows);
      assert past[..0] == [];
      for k := 0 to |past|
        invariant Valid() && Grows(old(store.rows), store.rows)
        invariant outcome == Ok && faults.Explain(Ok) && (!commit ==> unchanged(store, log, faults))
        invariant faults.Smooth() ==> lapsed == k
        invariant faults.Smooth() && commit ==> Ended(store.rows, past[..k])
        invariant commit ==> lapsed + faults.conflicts - old(faults.conflicts) == k && Audited(0, 0, lapsed, 0, 0, 0)
      {
        ghost var rows0 := store.rows;
        var done;
        done, outcome := Retire(core, past[k], commit);
        GrowsIsTransitive(old(store.rows), rows0, store.rows);
        EndedNext(rows0, store.rows, past, k);
        lapsed := lapsed + if done then 1 else 0;
        if outcome == Error {
          return;
        }
      }
      assert past[..|past|] == past;
    }

    /** The fired, unseen rows: those whose event is past are lapsed, and those a digest may carry returned. */
    method KeepPending(core: Core, commit: bool)
      returns (pending: seq<Copy>, lapsed: nat, outcome: Outcome, ghost read: seq<Copy>)
      requires Valid()
      modifies store, log, faults
      ensures Valid() && Grows(old(store.rows), store.rows)
      ensures faults.Explain(outcome)
      ensures !commit ==> faults.Smooth() && store.writes == old(store.writes) && unchanged(log)
      ensures old(store.found) <= store.found
      ensures outcome == Ok ==>
                && |store.found| == |old(store.found)| + 1 && Found(store.found[|old(store.found)|], read, Unseen)
                && Grows(old(store.rows), store.found[|old(store.found)|]) && pending == KeptOf(read, core)
      ensures outcome == Ok && faults.Smooth() ==> lapsed == |PastOf(read, core)|
      ensures outcome == Ok && faults.Smooth() && commit ==> Ended(store.rows, PastOf(read, core))
      ensures outcome == Ok && commit ==> Audited(0, 0, lapsed, 0, 0, 0)
    {
      hide Kept, Grows, AuditOf, Ended, PastOf, KeptOf, Found;
      pending, lapsed, outcome, read := [], 0, Error, [];
      var unseen := store.Read(Unseen);
      GrowsKeepsKept(old(store.rows), store.rows, Memory());
      if !unseen.Some? {
        return;
      }
      read := unseen.value;
      var tasks := faults.Try();
      if !tasks {
        return;
      }
      var kept, past, split := SplitPast(core, unseen.value);
      if !split {
        return;
      }
      ghost var rows1 := store.rows;
      PastAreFired(read, core);
      lapsed, outcome := LapsePast(core, past, commit);
      GrowsIsTransitive(old(store.rows), rows1, store.rows);
      pending := kept;
    }

    /** What this morning's digest has to say, when one is owed and there is anything; the rows whose event is past are
        lapsed. */
    method GatherDigest(core: Core, commit: bool)
      returns (ready: Option<Gathered>, lapsed: nat, outcome: Outcome, ghost trail: DigestTrail)
      requires Valid()
      modifies store, log, faults, unreadable, questions`closed, signals
      ensures Valid() && Grows(old(store.rows), store.rows)
      ensures faults.Explain(outcome)
      ensures !commit ==> faults.Smooth() && store.writes == old(store.writes) && unchanged(log, unreadable, questions, signals)
      ensures old(store.found) <= store.found
      ensures !core.digestOwed && outcome == Ok ==> trail == NO_DIGEST && unchanged(store, log, unreadable, questions, signals)
      // the questions enough digests went out on are closed
      ensures core.digestOwed && outcome == Ok && commit ==>
                questions.closed == old(questions.closed) + StaleQuestions(core)
      ensures core.digestOwed && outcome == Ok ==>
                && DigestRead(store.found, |old(store.found)|, trail) && AskedAgain(trail.reasks, trail.open, core)
                && |old(store.found)| + 2 <= |store.found|
                && Grows(old(store.rows), store.found[|old(store.found)| + 1])
      ensures outcome == Ok ==> ready == ReadyBy(core, trail)
      ensures outcome == Ok && faults.Smooth() ==> lapsed == |PastOf(trail.pending, core)|
      ensures outcome == Ok && faults.Smooth() && commit ==>
                Ended(store.rows, PastOf(trail.pending, core)) && TimeIsUp(store.rows, trail.open, core)
      ensures outcome == Ok && commit ==> Audited(0, 0, lapsed, 0, 0, 0)
      ensures ready.Some? ==> WellGathered(ready.value)
    {
      hide Wired, Kept, Grows, AuditOf, TimeIsUp, AskedAgain, Ended, PastOf, KeptOf, Found, ReadyOf, WellGathered;
      ready, lapsed, outcome, trail := None, 0, Error, NO_DIGEST;
      GrowsIsReflexive(store.rows);
      NothingOpen(store.rows, core);
      assert questions.closed + [] == questions.closed;
      var history := faults.Try();
      if !history {
        return;
      }
      if !core.digestOwed {
        outcome := Ok;
        return;
      }
      outcome := SweepQuestions(core, commit);
      if outcome == Error {
        return;
      }
      var reasks, pending;
      ghost var open, read;
      reasks, outcome, open := OpenCheckins(core, commit);
      if outcome == Error {
        return;
      }
      ghost var rows1 := store.rows;
      pending, lapsed, outcome, read := KeepPending(core, commit);
      GrowsIsTransitive(old(store.rows), rows1, store.rows);
      if outcome == Ok {
        GrowsIsTransitive(old(store.rows), rows1, store.found[|old(store.found)| + 1]);
      }
      if commit && faults.Smooth() {
        TimeIsUpStays(rows1, store.rows, open, core);
      }
      if outcome == Error {
        return;
      }
      trail := DigestTrail(open, reasks, read);
      var asks := ReadAsks(core);
      if !asks {
        outcome := Error;
        return;
      }
      ready := ReadyOf(core, pending, reasks);
    }

    /** The question and the goal check-in to ask, on a morning that is not low, and what ranks the items. */
    method ReadAsks(core: Core) returns (ok: bool)
      modifies faults
      ensures faults.Explain(if ok then Ok else Error) && faults.Smooth() && faults.lost == old(faults.lost)
    {
      ok := true;
      if !core.lowEnergy {
        ok := faults.Try();
        if ok {
          ok := faults.Try();
        }
      }
      if ok {
        ok := faults.Try();
      }
    }

    /** The morning's energy read, closes the questions enough digests went out on by the audit rows, each with its row;
        the first that cannot be closed or recorded ends the pass. */
    method SweepQuestions(core: Core, commit: bool) returns (outcome: Outcome)
      requires Wired()
      modifies log, faults, questions`closed
      ensures faults.Explain(outcome) && faults.Smooth()
      ensures !commit ==> unchanged(log, questions)
      ensures outcome == Ok && commit ==>
                && questions.closed == old(questions.closed) + StaleQuestions(core)
                && log.rows == old(log.rows) + Repeated(QuestionExpiredRow, |StaleQuestions(core)|)
      ensures outcome == Ok ==> Audited(0, 0, 0, 0, 0, 0)
    {
      hide AuditOf, DigestQuestions.Stale, DigestQuestions.Waiting;
      var open, history := core.openQuestions, core.history;
      var read := faults.Try();
      if read {
        read := faults.Try();
      }
      if !read {
        return Error;
      }
      NothingSwept(history, questions.closed);
      assert open[..0] == [];
      outcome := Ok;
      if !commit {
        return;
      }
      for k := 0 to |open|
        invariant faults.Explain(Ok) && faults.Smooth() && Audited(0, 0, 0, 0, 0, 0)
        invariant questions.closed == old(questions.closed) + QuestionIds(DigestQuestions.Stale(open[..k], history))
        invariant log.rows == old(log.rows) +
                              Repeated(QuestionExpiredRow, |DigestQuestions.Stale(open[..k], history)|)
      {
        SweptNext(open, history, k);
        var stale := DigestQuestions.IsStale(history, open[k]);
        if stale {
          var closed := CloseQuestion(open[k].id);
          if !closed {
            return Error;
          }
        }
      }
      assert open[..|open|] == open;
    }

    /** Closes one question, and records that. */
    method CloseQuestion(id: string) returns (ok: bool)
      requires Wired()
      modifies log, faults, questions`closed
      ensures faults.Explain(if ok then Ok else Error) && faults.Smooth() && (ok ==> Audited(0, 0, 0, 0, 0, 0))
      ensures ok ==> questions.closed == old(questions.closed) + [id] && log.rows == old(log.rows) + [QuestionExpiredRow]
    {
      hide AuditOf;
      ok := questions.Expire(id);
      if ok {
        ok := log.Record(QuestionExpiredRow);
      }
    }

    /** The marking of a digest's message came so far: what is marked of it is among the first `place` of what it says. */
    ghost predicate SoFar(rows: map<string, Row>, events: seq<Event>, now: int, next: Option<int>, ids: seq<string>,
                          place: nat)
      reads this, store, channel, unmarked, journal
    {
      && Valid() && Grows(rows, store.rows)
      && TraceOk(journal.events, now, next) && Showing(journal.events, ids, place)
      && events <= journal.events && OnlyMarks(journal.events, |events|)
      && MarksLanded(journal.events, |events|, store.rows)
    }

    /** One stamped mark of something the digest said. */
    method MarkShown(id: string, again: bool, stamps: SurfaceStamps, now: int, ghost ids: seq<string>, ghost place: nat,
                     ghost rows: map<string, Row>, ghost events: seq<Event>)
      returns (w: Write)
      requires SoFar(rows, events, now, stamps.next, ids, place) && place < |ids| && ids[place] == id
      modifies store`rows, store`writes, journal`events, faults, stamps
      ensures SoFar(rows, events, now, stamps.next, ids, place + 1) && old(journal.events) <= journal.events
      ensures faults.Noted(w)
      ensures w == Done ==> MarkedSince(journal.events, |events|, id, again)
    {
      hide Kept, Grows, TraceOk, Showing, OnlyMarks, MarksLanded;
      ghost var rows0, events0, next0 := store.rows, journal.events, stamps.next;
      var at := stamps.Take(now);
      ghost var e;
      if again {
        w := store.Reask(id, at);
        e := Reasked(id, at);
        assert LandedOn(journal.events[|events0|..], store.rows);
      } else {
        w := store.Surface(id, at);
        e := Marked(id, at);
      }
      GrowsIsTransitive(rows, rows0, store.rows);
      GrowsKeepsKept(rows0, store.rows, Memory());
      MarkTraced(events0, journal.events, e, ids, place, now, next0, at);
      OnlyMarksGrows(events, events0, journal.events, e);
      MarksStayLanded(events0, journal.events, |events|, rows0, store.rows);
      if w == Done {
        assert journal.events[|events0|] == e;
      }
    }

    /** A mark that carries no stamp. */
    lemma PlainMark(first: map<string, Row>, rows: map<string, Row>, after: map<string, Row>, events: seq<Event>,
                    events0: seq<Event>, events1: seq<Event>, e: Event, ids: seq<string>, place: nat, now: int,
                    next: Option<int>)
      requires Grows(first, rows) && Grows(rows, after) && Wired() && since <= |channel.pushed|
      requires Kept(rows, Memory())
      requires TraceOk(events0, now, next) && Showing(events0, ids, place) && events <= events0
      requires OnlyMarks(events0, |events|) && MarksLanded(events0, |events|, rows)
      requires Marks(e).Some? && Marks(e).value in ids && Stamp(e).None?
      requires events1 == events0 || events1 == events0 + [e]
      ensures Grows(first, after) && Kept(after, Memory())
      ensures TraceOk(events1, now, next) && Showing(events1, ids, place) && events <= events1
      ensures OnlyMarks(events1, |events|) && MarksLanded(events1, |events|, after)
    {
      GrowsIsTransitive(first, rows, after);
      GrowsKeepsKept(rows, after, Memory());
      OnlyMarksGrows(events, events0, events1, e);
      MarksStayLanded(events0, events1, |events|, rows, after);
      ShownIsSaid(events0, ids, place, Marks(e).value);
      hide Kept, Grows, TraceOk, SaidBefore, Showing;
      if events1 != events0 {
        TraceGrows(events0, e, now, next);
        ShowingOn(events0, e, ids, place);
      }
    }

    /** Marks the day's items the digest said. */
    method MarkItems(sent: seq<string>, stamps: SurfaceStamps, now: int, ghost ids: seq<string>,
                     ghost rows: map<string, Row>, ghost events: seq<Event>)
      returns (outcome: Outcome)
      requires SoFar(rows, events, now, stamps.next, ids, 0) && sent <= ids
      modifies store`rows, store`writes, journal`events, faults, stamps
      ensures SoFar(rows, events, now, stamps.next, ids, |sent|)
      ensures faults.ExplainStrictly(outcome)
      ensures outcome == Ok ==> faults.Smooth() && Books() == old(Books())
      ensures outcome == Ok ==> AllMarked(journal.events, |events|, sent, false)
    {
      hide SoFar, MarkedSince;
      assert sent[..0] == [];
      for k := 0 to |sent|
        invariant SoFar(rows, events, now, stamps.next, ids, k) && AllMarked(journal.events, |events|, sent[..k], false)
        invariant faults.ExplainStrictly(Ok) && faults.Smooth()
      {
        ghost var events0 := journal.events;
        var w := MarkShown(sent[k], false, stamps, now, ids, k, rows, events);
        if w != Done {
          SoFarFurther(rows, events, now, stamps.next, ids, k + 1, |sent|);
          return Error;
        }
        MarkedStays(events0, journal.events, |events|, sent[..k], false);
        OneMoreMarked(journal.events, |events|, sent, k, false);
      }
      assert sent[..|sent|] == sent;
      outcome := Ok;
    }

    /** Marks the check-ins the digest asked again, each counted with its restamp. */
    method MarkReasked(asked: seq<string>, stamps: SurfaceStamps, now: int, ghost ids: seq<string>, ghost place: nat,
                       ghost rows: map<string, Row>, ghost events: seq<Event>)
      returns (outcome: Outcome)
      requires Wired() && SoFar(rows, events, now, stamps.next, ids, place)
      requires place <= |ids| && asked <= ids[place..]
      modifies store`rows, store`writes, journal`events, log, faults, stamps
      ensures SoFar(rows, events, now, stamps.next, ids, place + |asked|) && old(journal.events) <= journal.events
      ensures faults.Explain(outcome)
      ensures outcome == Ok && faults.Smooth() ==> AllMarked(journal.events, |events|, asked, true)
      ensures outcome == Ok ==> Audited(0, 0, 0, 0, 0, 0)
    {
      hide SoFar, MarkedSince, AuditOf;
      assert asked[..0] == [];
      for k := 0 to |asked|
        invariant SoFar(rows, events, now, stamps.next, ids, place + k) && old(journal.events) <= journal.events
        invariant faults.Smooth() ==> AllMarked(journal.events, |events|, asked[..k], true)
        invariant faults.Explain(Ok) && Audited(0, 0, 0, 0, 0, 0)
      {
        ghost var events0 := journal.events;
        assert asked[k] == ids[place..][k];
        var w := MarkShown(asked[k], true, stamps, now, ids, place + k, rows, events);
        outcome := Ok;
        if w != Done {
          outcome := Lost(w);
        } else {
          if faults.Smooth() {
            MarkedStays(events0, journal.events, |events|, asked[..k], true);
            OneMoreMarked(journal.events, |events|, asked, k, true);
          }
          var recorded := log.Record(ReaskedRow);
          outcome := if recorded then Ok else Error;
        }
        if outcome == Error {
          SoFarFurther(rows, events, now, stamps.next, ids, place + k + 1, place + |asked|);
          return;
        }
      }
      assert asked[..|asked|] == asked;
      outcome := Ok;
    }

    /** Fires and marks the goal check-in the digest asked. */
    method MarkGoal(goal: string, stamps: SurfaceStamps, now: int, ghost ids: seq<string>, ghost place: nat,
                    ghost rows: map<string, Row>, ghost events: seq<Event>)
      returns (outcome: Outcome)
      requires Wired() && SoFar(rows, events, now, stamps.next, ids, place) && place < |ids| && ids[place] == goal
      modifies store`rows, store`writes, log, journal`events, faults, stamps
      ensures SoFar(rows, events, now, stamps.next, ids, place + 1) && old(journal.events) <= journal.events
      ensures faults.ExplainStrictly(outcome) && (outcome == Ok ==> faults.Smooth() && Audited(0, 0, 0, 0, 0, 0))
      ensures outcome == Ok ==>
                MarkedSince(journal.events, |events|, goal, false) && GoalFired(goal) in journal.events[|events|..]
    {
      hide Kept, Grows, TraceOk, Showing, OnlyMarks, MarksLanded, MarkedSince, AuditOf;
      outcome := Error;
      var w := store.FireGoal(goal);
      PlainMark(rows, old(store.rows), store.rows, events, old(journal.events), journal.events, GoalFired(goal), ids, place,
                now, stamps.next);
      if w != Done {
        SoFarFurther(rows, events, now, stamps.next, ids, place, place + 1);
        return;
      }
      ghost var at := |journal.events| - 1;
      assert journal.events[at] == GoalFired(goal);
      w := MarkShown(goal, false, stamps, now, ids, place, rows, events);
      if w != Done {
        return;
      }
      assert journal.events[|events|..][at - |events|] == GoalFired(goal);
      var recorded := log.Record(GoalAskedRow);
      outcome := if recorded then Ok else Error;
    }

    /** Marks the question the digest asked. */
    method MarkQuestion(question: string, stamps: SurfaceStamps, now: int, ghost ids: seq<string>, ghost place: nat,
                        ghost rows: map<string, Row>, ghost events: seq<Event>)
      returns (outcome: Outcome)
      requires Wired() && SoFar(rows, events, now, stamps.next, ids, place) && question in ids
      modifies log, journal`events, faults
      ensures SoFar(rows, events, now, stamps.next, ids, place) && old(journal.events) <= journal.events
      ensures faults.Explain(outcome) && (outcome == Ok ==> faults.Smooth() && Audited(0, 0, 0, 0, 0, 0))
      ensures outcome == Ok ==> QuestionAsked(question) in journal.events[|events|..]
    {
      hide Kept, Grows, TraceOk, Showing, OnlyMarks, MarksLanded, AuditOf;
      var ok := questions.MarkAsked(question);
      GrowsIsReflexive(store.rows);
      PlainMark(rows, store.rows, store.rows, events, old(journal.events), journal.events, QuestionAsked(question), ids,
                place, now, stamps.next);
      if !ok {
        return Error;
      }
      assert journal.events[|events|..] == old(journal.events)[|events|..] + [QuestionAsked(question)];
      var recorded := log.Record(QuestionAskedRow);
      outcome := if recorded then Ok else Error;
    }

    /** Marks the goal check-in and the question, if the digest asked them. */
    method MarkAsks(goal: Option<string>, question: Option<string>, stamps: SurfaceStamps, now: int,
                    ghost ids: seq<string>, ghost place: nat, ghost rows: map<string, Row>, ghost events: seq<Event>)
      returns (outcome: Outcome)
      requires Wired() && SoFar(rows, events, now, stamps.next, ids, place)
      requires place <= |ids| && ids[place..] == Maybe(goal) + Maybe(question)
      modifies store`rows, store`writes, log, journal`events, faults, stamps
      ensures SoFar(rows, events, now, stamps.next, ids, |ids|) && old(journal.events) <= journal.events
      ensures faults.ExplainStrictly(outcome) && (outcome == Ok ==> faults.Smooth() && Audited(0, 0, 0, 0, 0, 0))
      ensures outcome == Ok ==> AsksMarked(journal.events, |events|, goal, question)
    {
      hide Wired, SoFar, MarkedSince, Books;
      outcome := Ok;
      ghost var next := place + |Maybe(goal)|;
      assert |ids| == next + |Maybe(question)|;
      if goal.Some? {
        assert ids[place] == ids[place..][0];
        outcome := MarkGoal(goal.value, stamps, now, ids, place, rows, events);
        if outcome == Error {
          SoFarFurther(rows, events, now, stamps.next, ids, next, |ids|);
          return;
        }
      }
      ghost var events1 := journal.events;
      SoFarMeans(rows, events, now, stamps.next, ids, next);
      if question.Some? {
        assert question.value == ids[place..][|Maybe(goal)|];
        outcome := MarkQuestion(question.value, stamps, now, ids, next, rows, events);
      }
      SoFarFurther(rows, events, now, stamps.next, ids, next, |ids|);
      StaysMarked(events1, journal.events, |events|, goal);
    }

    lemma StartsSoFar(rows: map<string, Row>, events: seq<Event>, now: int, next: Option<int>, ids: seq<string>)
      requires Valid() && rows == store.rows && events == journal.events && OnlyMarks(events, |events|)
      requires TraceOk(events, now, next) && Showing(events, ids, 0)
      ensures SoFar(rows, events, now, next, ids, 0)
    {
      NothingLandedYet(events, rows);
    }

    lemma SoFarFurther(rows: map<string, Row>, events: seq<Event>, now: int, next: Option<int>, ids: seq<string>,
                       place: nat, further: nat)
      requires SoFar(rows, events, now, next, ids, place) && place <= further
      ensures SoFar(rows, events, now, next, ids, further)
    {
      hide Kept, Grows, TraceOk, OnlyMarks, MarksLanded, Showing;
      ShowingFurther(journal.events, ids, place, further);
    }

    lemma SoFarMeans(rows: map<string, Row>, events: seq<Event>, now: int, next: Option<int>, ids: seq<string>,
                     place: nat)
      requires SoFar(rows, events, now, next, ids, place)
      ensures Valid() && Grows(rows, store.rows) && TraceOk(journal.events, now, next)
      ensures events <= journal.events && OnlyMarks(journal.events, |events|)
      ensures MarksLanded(journal.events, |events|, store.rows)
    {
    }

    /** Marks everything the digest that just went out said: its items, the check-ins it asked again, the goal, the
        question. */
    method MarkDigest(g: Gathered, ghost p: Packing, sent: seq<string>, asked: seq<string>, stamps: SurfaceStamps,
                      now: int)
      returns (outcome: Outcome)
      requires Valid() && TraceOk(journal.events, now, stamps.next)
      requires sent == ItemIds(p.sent) && asked == p.asked
      requires Showing(journal.events, ItemIds(p.sent) + p.asked + Maybe(g.goal) + Maybe(g.question), 0)
      modifies store`rows, store`writes, log, journal`events, faults, stamps
      ensures Valid() && Grows(old(store.rows), store.rows) && TraceOk(journal.events, now, stamps.next)
      ensures old(journal.events) <= journal.events && OnlyMarks(journal.events, |old(journal.events)|)
      ensures MarksLanded(journal.events, |old(journal.events)|, store.rows)
      ensures faults.ExplainStrictly(outcome)
      ensures outcome == Ok ==> DigestMarked(journal.events, |old(journal.events)|, g, p)
      ensures outcome == Ok && faults.Smooth() ==> AllMarked(journal.events, |old(journal.events)|, p.asked, true)
      ensures outcome == Ok ==> Audited(0, 0, 0, 0, 0, 0)
    {
      hide Kept, Grows, TraceOk, Showing, OnlyMarks, MarksLanded, AllMarked, Books, DigestMarked, MarkedSince, SoFar,
        Maybe, ItemIds, AsksMarked;
      GrowsIsReflexive(store.rows);
      ghost var ids := sent + asked + Maybe(g.goal) + Maybe(g.question);
      ghost var rows0, events0 := store.rows, journal.events;
      NothingSentYet(events0);
      StartsSoFar(rows0, events0, now, stamps.next, ids);
      ghost var place := |sent| + |asked|;
      assert ids[|sent|..] == asked + Maybe(g.goal) + Maybe(g.question);
      assert ids[place..] == Maybe(g.goal) + Maybe(g.question);
      outcome := MarkItems(sent, stamps, now, ids, rows0, events0);
      SoFarMeans(rows0, events0, now, stamps.next, ids, |sent|);
      if outcome == Error {
        return;
      }
      ghost var events1 := journal.events;
      outcome := MarkReasked(asked, stamps, now, ids, |sent|, rows0, events0);
      SoFarMeans(rows0, events0, now, stamps.next, ids, place);
      if outcome == Error {
        return;
      }
      ghost var events2 := journal.events;
      outcome := MarkAsks(g.goal, g.question, stamps, now, ids, place, rows0, events0);
      SoFarMeans(rows0, events0, now, stamps.next, ids, |ids|);
      if outcome == Error {
        return;
      }
      MarkedStays(events1, journal.events, |events0|, sent, false);
      if faults.Smooth() {
        MarkedStays(events2, journal.events, |events0|, asked, true);
      }
      AllIsMarked(journal.events, |events0|, g, p);
    }

    /** A row for the digest, and one for each item held back: the audit trail is the counter of its patience. */
    method RecordSent(held: seq<DigestText.Item>) returns (ok: bool)
      requires Wired()
      modifies log, faults
      ensures faults.Explain(if ok then Ok else Error) && faults.Smooth()
      ensures ok ==> Audited(0, 0, 0, 0, 0, 0) && EndsWith(log.rows, [DigestSentRow] + Repeated(DigestHeldRow, |held|))
    {
      hide AuditOf;
      ok := log.Record(DigestSentRow);
      if !ok {
        return;
      }
      ghost var rows1 := log.rows;
      for k := 0 to |held|
        invariant faults.Explain(Ok) && faults.Smooth()
        invariant log.rows == rows1 + Repeated(DigestHeldRow, k) && Audited(0, 0, 0, 0, 0, 0)
      {
        ok := log.Record(DigestHeldRow);
        if !ok {
          return;
        }
      }
      assert log.rows == old(log.rows) + ([DigestSentRow] + Repeated(DigestHeldRow, |held|));
      ok := true;
    }

    /** Sends the digest and only then marks what it said. What does not fit is neither said nor marked. */
    method SendDigest(core: Core, g: Gathered, stamps: SurfaceStamps, now: int)
      returns (carried: nat, outcome: Outcome, ghost p: Packing)
      requires Valid() && hasChannel && WellGathered(g) && TraceOk(journal.events, now, stamps.next)
      modifies store`rows, store`writes, log, journal`events, faults, channel`digests, stamps
      ensures Valid() && Grows(old(store.rows), store.rows) && TraceOk(journal.events, now, stamps.next)
      ensures faults.ExplainStrictly(outcome)
      // one message is tried when there is somewhere to speak: the first in drop order that fits
      ensures old(channel.digests) <= channel.digests &&
              |channel.digests| == |old(channel.digests)| + if hasConversation then 1 else 0
      ensures hasConversation ==> Packs(channel.digests[|old(channel.digests)|], g, p)
      // it went out, or nothing happened that the user could have seen
      ensures if journal.events == old(journal.events) then carried == 0
              else DigestWent(old(journal.events), journal.events, core, g, p)
      ensures MarksLanded(journal.events, |old(journal.events)|, store.rows)
      ensures outcome == Ok && journal.events == old(journal.events) ==> log.rows == old(log.rows) + [SendFailedRow]
      // and then all it said is marked, and what it holds back is counted
      ensures outcome == Ok && journal.events != old(journal.events) ==>
                && carried == |p.sent| && DigestMarked(journal.events, MarksFrom(old(journal.events), core), g, p)
                && EndsWith(log.rows, [DigestSentRow] + Repeated(DigestHeldRow, |g.held|))
      ensures outcome == Ok && journal.events != old(journal.events) && faults.Smooth() ==>
                AllMarked(journal.events, MarksFrom(old(journal.events), core), p.asked, true)
      ensures outcome == Ok ==> Audited(0, 0, 0, 0, 0, 0)
    {
      hide Kept, Grows, TraceOk, Showing, AllMarked, DigestMarked, OnlyMarks, MarksLanded, DigestText.IsMessage, AuditOf, EndsWith,
        ItemIds, Maybe, Repeated, DigestWent, Packs;
      carried, outcome, p := 0, Error, Packing([], 0, [], [], []);
      GrowsIsReflexive(store.rows);
      NothingLandedYet(journal.events, store.rows);
      if !hasConversation {
        var recorded := log.Record(SendFailedRow);
        return 0, if recorded then Ok else Error, p;
      }
      ghost var events0 := journal.events;
      var went, sent, asked;
      went, sent, asked, p := SayDigest(core, g, stamps, now);
      if !went {
        var recorded := log.Record(SendFailedRow);
        return 0, if recorded then Ok else Error, p;
      }
      ghost var events1 := journal.events;
      outcome := MarkDigest(g, p, ItemIds(sent), asked, stamps, now);
      WentAndWasMarked(events0, events1, journal.events, core, g, p, store.rows);
      if outcome == Error {
        return;
      }
      var recorded := RecordSent(g.held);
      outcome := if recorded then Ok else Error;
      carried := |sent|;
    }

    /** The one message of a digest: the first in drop order that fits. Once it went out, the focus it was ranked by is
        the incumbent. */
    method SayDigest(core: Core, g: Gathered, stamps: SurfaceStamps, now: int)
      returns (went: bool, sent: seq<DigestText.Item>, asked: seq<string>, ghost p: Packing)
      requires Wired() && TraceOk(journal.events, now, stamps.next)
      modifies journal`events, channel`digests
      ensures TraceOk(journal.events, now, stamps.next) && sent == p.sent && asked == p.asked
      ensures |channel.digests| == |old(channel.digests)| + 1 && old(channel.digests) <= channel.digests
      ensures Packs(channel.digests[|old(channel.digests)|], g, p)
      ensures if went then
                && DigestWent(old(journal.events), journal.events, core, g, p)
                && |journal.events| == MarksFrom(old(journal.events), core)
                && Showing(journal.events, ItemIds(p.sent) + p.asked + Maybe(g.goal) + Maybe(g.question), 0)
              else journal.events == old(journal.events)
    {
      hide TraceOk, Showing, DigestText.IsMessage, ItemIds, Maybe;
      var text, named;
      text, sent, asked, named := DigestText.DigestMessage(g.morning);
      ghost var lines: seq<DigestText.Line>, drops: nat :|
        DigestText.IsMessage(g.morning, lines, drops, text, sent, asked, named);
      p := Packing(lines, drops, sent, asked, named);
      ghost var ids := ItemIds(sent) + asked + Maybe(g.goal) + Maybe(g.question);
      ghost var events0 := journal.events;
      went := channel.SendDigest(text, ids);
      assert events0 + [] == events0;
      if went {
        var focused := Focused(core);
        JustSaid(events0, Sent(text, ids, false), now, stamps.next);
        if focused {
          TraceGrows(journal.events, FocusPublished, now, stamps.next);
          ShowingOn(journal.events, FocusPublished, ids, 0);
          journal.Add(FocusPublished);
        }
        ItWent(events0, journal.events, core, text, ids, g, p);
      }
    }

    /** One digest, if one is owed. A dry run composes it and stops. */
    method AssembleDigest(core: Core, stamps: SurfaceStamps, now: int, commit: bool)
      returns (carried: nat, lapsed: nat, outcome: Outcome, ghost trail: DigestTrail, ghost p: Packing)
      requires Valid() && hasChannel && TraceOk(journal.events, now, stamps.next)
      modifies store, log, journal`events, faults, channel`digests, unreadable, stamps, questions`closed,
               signals
      ensures Valid() && Grows(old(store.rows), store.rows) && TraceOk(journal.events, now, stamps.next)
      ensures faults.ExplainStrictly(outcome)
      ensures !commit ==> faults.Smooth() && store.writes == old(store.writes) &&
                          unchanged(log, channel, journal, unreadable, stamps, questions, signals)
      ensures old(store.found) <= store.found
      ensures outcome == Ok ==> if core.digestOwed then
                DigestRead(store.found, |old(store.found)|, trail) && AskedAgain(trail.reasks, trail.open, core)
              else trail == NO_DIGEST
      ensures outcome == Ok && faults.Smooth() ==> lapsed == |PastOf(trail.pending, core)|
      ensures outcome == Ok && faults.Smooth() && commit ==>
                Ended(store.rows, PastOf(trail.pending, core)) && TimeIsUp(store.rows, trail.open, core)
      ensures outcome == Ok && commit ==> Audited(0, 0, lapsed, 0, 0, 0)
      // nothing owed or nothing to say: nothing is sent, and nothing marked
      ensures outcome == Ok && ReadyBy(core, trail).None? ==>
                carried == 0 && channel.digests == old(channel.digests) && journal.events == old(journal.events)
      ensures outcome == Ok && ReadyBy(core, trail).Some? && !commit ==>
                carried == |p.sent| && exists text :: Packs(text, ReadyBy(core, trail).value, p)
      ensures outcome == Ok && ReadyBy(core, trail).Some? && commit ==>
                DigestDone(old(channel.digests), channel.digests, old(journal.events), journal.events, carried, core,
                           SentBy(core, trail).value, p, hasConversation)
      // whatever fails, no message goes out but the digest of what was read, and what it marks is on its row
      ensures DigestTail(old(journal.events), journal.events, store.found, |old(store.found)|, core, trail, p)
      ensures DigestLanded(old(journal.events), journal.events, old(store.rows), store.found, |old(store.found)|,
                           store.rows)
    {
      hide Wired, Kept, Grows, TraceOk, DigestText.IsMessage, AuditOf, KeptOf, PastOf, ReadyOf, Ended, TimeIsUp,
        AskedAgain, DigestRead,
        DigestDone, DigestTail;
      carried, p := 0, Packing([], 0, [], [], []);
      var ready;
      ready, lapsed, outcome, trail := GatherDigest(core, commit);
      NoDigestYet(journal.events, store.found, |old(store.found)|, core, trail, p);
      if outcome == Error || ready.None? {
        return;
      }
      if !commit {
        var text, sent, asked, named := DigestText.DigestMessage(ready.value.morning);
        ghost var lines: seq<DigestText.Line>, drops: nat :|
          DigestText.IsMessage(ready.value.morning, lines, drops, text, sent, asked, named);
        p := Packing(lines, drops, sent, asked, named);
        assert Packs(text, ready.value, p);
        NoDigestYet(journal.events, store.found, |old(store.found)|, core, trail, p);
        return |sent|, lapsed, Ok, trail, p;
      }
      ghost var rows0 := store.rows;
      carried, outcome, p := RankAndSend(core, ready.value, stamps, now);
      GrowsIsTransitive(old(store.rows), rows0, store.rows);
      TheTailIs(old(journal.events), journal.events, store.found, |old(store.found)|, core, trail, ready.value, p);
      if faults.Smooth() && outcome == Ok {
        EndedStays(rows0, store.rows, PastOf(trail.pending, core));
        TimeIsUpStays(rows0, store.rows, trail.open, core);
      }
    }

    /** The digest that is ready, split by what is in focus and sent. */
    method RankAndSend(core: Core, ready: Gathered, stamps: SurfaceStamps, now: int)
      returns (carried: nat, outcome: Outcome, ghost p: Packing)
      requires Valid() && hasChannel && WellGathered(ready) && TraceOk(journal.events, now, stamps.next)
      modifies store`rows, store`writes, log, journal`events, faults, channel`digests, stamps
      ensures Valid() && Grows(old(store.rows), store.rows) && TraceOk(journal.events, now, stamps.next)
      ensures faults.ExplainStrictly(outcome)
      ensures outcome == Ok ==>
                && Audited(0, 0, 0, 0, 0, 0)
                && DigestDone(old(channel.digests), channel.digests, old(journal.events), journal.events, carried, core,
                              Ranked(core, ready), p, hasConversation)
      ensures journal.events == old(journal.events) ||
              DigestWent(old(journal.events), journal.events, core, Ranked(core, ready), p)
      ensures MarksLanded(journal.events, |old(journal.events)|, store.rows)
    {
      hide Kept, Grows, TraceOk, Packs, Books, Ranked, DigestMarked, AllMarked, WellGathered, Repeated, EndsWith,
        DigestWent, MarksLanded;
      carried, p := 0, Packing([], 0, [], [], []);
      GrowsIsReflexive(store.rows);
      NothingLandedYet(journal.events, store.rows);
      var ranked := ReadFocus(core);
      if !ranked {
        outcome := Error;
      } else {
        var g := Ranked(core, ready);
        carried, outcome, p := SendDigest(core, g, stamps, now);
      }
    }

    /** What is in focus, when the digest is about to be sent; that it cannot be computed is recorded, and does not stop
        it. */
    method ReadFocus(core: Core) returns (ok: bool)
      requires Wired()
      modifies log, faults
      ensures faults.Explain(if ok then Ok else Error) && faults.Smooth()
      ensures ok ==> Audited(0, 0, 0, 0, 0, 0)
      ensures ok ==> log.rows == old(log.rows) +
                                 if hasConversation && core.hasKeeper && core.focus.None? then [FocusUnavailableRow] else []
    {
      hide AuditOf;
      ok := true;
      assert log.rows + [] == log.rows;
      if hasConversation && core.hasKeeper && core.focus.None? {
        ok := log.Record(FocusUnavailableRow);
      }
    }

    // ---- a whole pass ----

    /** The due rows, read and settled. */
    method SettleDue(core: Core, q: Queue, now: int, commit: bool)
      returns (tally: Tally, outcome: Outcome, due: seq<Copy>)
      requires Valid() && q.rows == [] && journal.fired == []
      modifies store, log, faults, journal`fired, loud, q
      ensures Valid() && QueueOk(q.rows) && Grows(old(store.rows), store.rows)
      ensures faults.Explain(outcome)
      ensures !commit ==> faults.Smooth() && store.writes == old(store.writes) && unchanged(log, journal, loud, q)
      ensures old(store.found) <= store.found
      ensures outcome == Ok ==>
                |store.found| == |old(store.found)| + 1 && Found(store.found[|old(store.found)|], due, DueBy(now)) &&
                Grows(old(store.rows), store.found[|old(store.found)|])
      ensures commit ==> journal.fired == Ids(q.rows)
      ensures AsRead(q.rows, store.found, |old(store.found)|)
      ensures outcome == Ok ==> TallyOf(due, core, CanDeliver()).Some?
      ensures outcome == Ok && faults.Smooth() ==> TallyOf(due, core, CanDeliver()) == Some(tally)
      ensures outcome == Ok && commit ==>
                && FiredAreQueued(tally.settled, q.rows) && Moved(store.rows, tally.settled)
                && Audited(tally.fired, tally.expired, 0, 0, 0, 0)
    {
      hide Kept, AllWait, Grows, TallyOf, Moved, FiredAreQueued, AuditOf, Ids, Found, DistinctIds;
      tally, outcome, due := Tally(0, 0, [], map[]), Error, [];
      NoIds();
      NoneWaits(store.rows, Memory());
      var read := store.Read(DueBy(now));
      GrowsKeepsKept(old(store.rows), store.rows, Memory());
      GrowsKeepsWaiting(old(store.rows), store.rows, [], Memory());
      if !read.Some? {
        return;
      }
      due := read.value;
      FoundAreThere(store.rows, due, DueBy(now));
      ghost var rows1 := store.rows;
      tally, outcome := DueLoop(core, read.value, commit, q);
      GrowsIsTransitive(old(store.rows), rows1, store.rows);
      QueuedAsRead([], q.rows, due, old(store.found), store.found, |old(store.found)|, |old(store.found)|, DueBy(now));
    }

    /** The due timers, read and settled. */
    method SettleTimers(core: Core, now: int, commit: bool)
      returns (tally: TimerTally, outcome: Outcome, due: seq<Timer>)
      requires Valid() && TimersOnce(timers.rows, channel.timers)
      modifies timers, log, faults, channel`timers, channel`rung
      ensures Valid() && TimersOnce(timers.rows, channel.timers)
      ensures faults.Explain(outcome)
      ensures !commit ==> faults.Smooth() && timers.writes == old(timers.writes) && unchanged(log, channel)
      ensures old(timers.found) <= timers.found
      ensures outcome == Ok ==>
                |timers.found| == |old(timers.found)| + 1 && TimersFound(timers.found[|old(timers.found)|], due, now)
      ensures outcome == Ok && faults.Smooth() ==> tally == TimerTallyOf(due, core)
      ensures outcome == Ok && faults.Smooth() && commit ==>
                && TimersMoved(timers.rows, due, core)
                && channel.rung == old(channel.rung) + if CanDeliver() then RingingOf(due, core) else []
      ensures outcome == Ok && commit ==> Audited(0, 0, 0, 0, tally.fired, tally.cancelled)
    {
      hide Kept, TimersOnce, TimersGrow, TimersMoved, RingingOf, TimerTallyOf, AuditOf, TimersFound;
      tally, outcome, due := TimerTally(0, 0), Error, [];
      var waiting := timers.Due(now);
      TimersGrowKeepsOnce(old(timers.rows), timers.rows, channel.timers);
      if !waiting.Some? {
        return;
      }
      due := waiting.value;
      TimersAreThere(timers.rows, due, now);
      tally, outcome := TimerLoop(core, waiting.value, commit);
    }

    /** The due rows and the due timers, before the reminder step. */
    method SettleFound(core: Core, q: Queue, now: int, commit: bool)
      returns (report: Report, outcome: Outcome, tally: Tally, ghost timed: TimerTally, ghost trail: Trail)
      requires Valid() && TimersOnce(timers.rows, channel.timers) && q.rows == [] && journal.fired == []
      modifies store, timers, log, faults, journal`fired, loud, channel`timers, channel`rung, q
      ensures Valid() && TimersOnce(timers.rows, channel.timers) && Grows(old(store.rows), store.rows)
      ensures QueueOk(q.rows)
      ensures faults.Explain(outcome)
      ensures !commit ==> faults.Smooth() && unchanged(log, channel, journal, loud, q) &&
                          store.writes == old(store.writes) && timers.writes == old(timers.writes)
      ensures old(store.found) <= store.found && old(timers.found) <= timers.found
      ensures outcome == Ok ==>
                |store.found| == |old(store.found)| + 1 &&
                PushRead(old(store.rows), store.found, |old(store.found)|, timers.found, |old(timers.found)|, trail,
                         now, false)
      ensures commit ==> journal.fired == Ids(q.rows)
      ensures AsRead(q.rows, store.found, |old(store.found)|)
      ensures outcome == Ok ==> Tallied(report, trail, tally, timed, commit)
      ensures outcome == Ok && faults.Smooth() ==> ByVerdicts(trail, tally, timed, core, CanDeliver())
      ensures outcome == Ok && commit ==>
                FiredAreQueued(tally.settled, q.rows) && Moved(store.rows, tally.settled) &&
                Audited(tally.fired, tally.expired, 0, 0, timed.fired, timed.cancelled)
      ensures outcome == Ok && faults.Smooth() && commit ==>
                && TimersMoved(timers.rows, trail.timers, core)
                && channel.rung == old(channel.rung) + if CanDeliver() then RingingOf(trail.timers, core) else []
    {
      hide Kept, AllWait, Grows, TallyOf, TimersOnce, Found, TimersFound, Moved, FiredAreQueued, Books, Ids,
        DistinctIds, TimerTallyOf, TimersMoved, RingingOf;
      report, outcome, trail := NOTHING_DONE, Error, Trail([], [], [], NO_DIGEST);
      timed := TimerTally(0, 0);
      var came, due, dueTimers;
      tally, outcome, due := SettleDue(core, q, now, commit);
      if outcome == Error {
        return;
      }
      came, outcome, dueTimers := SettleTimers(core, now, commit);
      timed := came;
      trail := Trail(due, dueTimers, [], NO_DIGEST);
      report := NOTHING_DONE.(triggersDue := |due|, timersDue := |dueTimers|, fired := tally.fired,
        delivered := if commit then 0 else tally.fired, expired := tally.expired, timersFired := came.fired,
        timersCancelled := came.cancelled);
    }

    /** Everything up to the push: what is due is settled and queued. */
    method Settle(core: Core, q: Queue, now: int, commit: bool)
      returns (report: Report, outcome: Outcome, ghost trail: Trail)
      requires Valid() && TimersOnce(timers.rows, channel.timers) && q.rows == [] && journal.events == [] &&
                journal.fired == []
      modifies store, timers, log, journal`events, journal`fired, faults, loud, channel`timers, channel`rung, q
      ensures Valid() && TimersOnce(timers.rows, channel.timers) && Grows(old(store.rows), store.rows)
      ensures QueueOk(q.rows) && PlanTrace(journal.events, core.unreadable)
      ensures faults.Explain(outcome)
      ensures !commit ==> faults.Smooth() && unchanged(log, channel, journal, loud, q) &&
                          store.writes == old(store.writes) && timers.writes == old(timers.writes)
      ensures old(store.found) <= store.found
      ensures outcome == Ok ==>
                && trail.digest == NO_DIGEST
                && |store.found| == |old(store.found)| + (if CanDeliver() then 2 else 1)
                && PushRead(old(store.rows), store.found, |old(store.found)|, timers.found, |old(timers.found)|, trail,
                            now, CanDeliver())
      // what it fired waits in the queue, however it ends
      ensures commit ==> forall id :: id in journal.fired ==> id in Ids(q.rows)
      ensures AsRead(q.rows, store.found, |old(store.found)|)
      ensures outcome == Ok && faults.Smooth() ==> Previews(report, trail, core, CanDeliver())
      ensures outcome == Ok && !commit ==>
                report.delivered == report.fired + |Retries(trail, core, CanDeliver(), unmarked.seen)|
      ensures outcome == Ok && commit ==>
                report.delivered == 0 &&
                Audited(report.fired, report.expired, report.lapsed, 0, report.timersFired, report.timersCancelled)
      ensures outcome == Ok && faults.Smooth() && commit ==>
                && SettledBy(store.rows, timers.rows, trail, core, CanDeliver())
                && QueuedBy(trail, core, CanDeliver(), unmarked.seen, q.rows)
                && channel.rung == old(channel.rung) + if CanDeliver() then RingingOf(trail.timers, core) else []
    {
      hide Wired, Kept, AllWait, Grows, TimersOnce, PlanTrace, Previews, Moved, FiredAreQueued, Books, Ids, DistinctIds,
        TimersMoved, RingingOf, SettledBy, QueuedBy, Retries, PushRead, ByVerdicts, Found;
      NothingPlanned(journal.events, [], store.rows, core);
      var tally;
      ghost var timed;
      report, outcome, tally, timed, trail := SettleFound(core, q, now, commit);
      if outcome == Error {
        return;
      }
      ghost var smooth := faults.Smooth();
      ghost var rows1, found1 := store.rows, store.found;
      if CanDeliver() {
        report, outcome, trail := SettleStale(core, report, trail, tally, timed, q, commit, smooth, |old(store.found)|);
        GrowsIsTransitive(old(store.rows), rows1, store.rows);
        ReadOn(old(store.rows), rows1, found1, store.found, timers.found, |old(store.found)|, |old(timers.found)|,
               trail, now);
      } else {
        SettledWithoutReplan(report, store.rows, timers.rows, trail, core, tally, timed, q.rows, unmarked.seen, commit,
                             smooth);
      }
    }

    /** The reminder step of a scan that can speak, after its due rows and timers. `smooth` is whether no write of theirs
        lost a race. */
    method SettleStale(core: Core, before: Report, ghost seen: Trail, tally: Tally, ghost timed: TimerTally, q: Queue,
                       commit: bool, ghost smooth: bool, ghost from: nat)
      returns (report: Report, outcome: Outcome, ghost trail: Trail)
      requires Valid() && CanDeliver() && QueueOk(q.rows) && journal.events == []
      requires Tallied(before, seen, tally, timed, commit)
      requires smooth ==> ByVerdicts(seen, tally, timed, core, true)
      requires !commit ==> smooth
      requires AsRead(q.rows, store.found, from) && from <= |store.found|
      requires commit && smooth ==>
                 && Moved(store.rows, tally.settled) && FiredAreQueued(tally.settled, q.rows)
                 && TimersMoved(timers.rows, seen.timers, core)
      modifies store, log, journal`events, faults, q
      ensures Valid() && QueueOk(q.rows) && Grows(old(store.rows), store.rows)
      ensures PlanTrace(journal.events, core.unreadable)
      ensures faults.Explain(outcome)
      ensures !commit ==> faults.Smooth() && store.writes == old(store.writes) && unchanged(log, journal, q)
      ensures old(store.found) <= store.found
      ensures outcome == Ok ==>
                && |store.found| == |old(store.found)| + 1
                && UndeliveredRead(old(store.rows), store.found, |old(store.found)|, trail.undelivered)
      ensures forall id :: id in Ids(old(q.rows)) ==> id in Ids(q.rows)
      ensures AsRead(q.rows, store.found, from)
      ensures trail == seen.(undelivered := trail.undelivered)
      ensures outcome == Ok && smooth && faults.Smooth() ==> Previews(report, trail, core, true)
      ensures outcome == Ok && !commit ==>
                report.delivered == report.fired + |Retries(trail, core, true, unmarked.seen)|
      ensures outcome == Ok && commit ==>
                report.delivered == 0 && Audited(0, report.expired - before.expired, report.lapsed, 0, 0, 0)
      ensures report.fired == before.fired && report.timersFired == before.timersFired &&
              report.timersCancelled == before.timersCancelled && report.carried == 0
      ensures outcome == Ok && smooth && faults.Smooth() && commit ==>
                SettledBy(store.rows, timers.rows, trail, core, true) &&
                    QueuedBy(trail, core, true, unmarked.seen, q.rows)
    {
      hide Kept, AllWait, Grows, TallyOf, Found, PlanTrace, Previews, Moved, FiredAreQueued, Books, AsRead, Ids, DistinctIds,
        Ended, Plannable, CountArmed, StaleOf, RetryOf, TimerTallyOf, TimersMoved, SettledBy, QueuedBy, Retries;
      ghost var rows1, queue1, found1 := store.rows, q.rows, store.found;
      var expired, lapsed, shown;
      ghost var undelivered;
      expired, lapsed, shown, outcome, undelivered := Replan(core, tally.stale, tally.settled, q, commit);
      StillAsRead(queue1, found1, store.found, from);
      if outcome == Ok {
        QueuedAsRead(queue1, q.rows, undelivered, found1, store.found, from, |found1|, Unseen);
      }
      trail := seen.(undelivered := undelivered);
      report := before.(expired := before.expired + expired, lapsed := lapsed, delivered := before.delivered + shown);
      if outcome == Ok && smooth && faults.Smooth() {
        RetriesAre(trail, core, true, tally, unmarked.seen);
        AfterReplan(report, trail, core, tally, timed, expired, lapsed);
        if commit {
          SettledAfterReplan(rows1, store.rows, timers.rows, trail, core, tally);
          QueuedAfterReplan(trail, core, unmarked.seen, tally, queue1, q.rows);
        }
      }
    }

    /** What is due is settled and then pushed; a scan that aborts before its push still pushes what it had queued. */
    method SettleAndPush(core: Core, stamps: SurfaceStamps, q: Queue, now: int, commit: bool)
      returns (report: Report, outcome: Outcome, ghost trail: Trail, ghost queue: seq<Copy>)
      requires Valid() && TimersOnce(timers.rows, channel.timers)
      requires journal.events == [] && journal.fired == [] && stamps.next == None && q.rows == []
      modifies store, timers, log, channel`pushed, channel`tried, channel`timers, channel`rung, journal`events,
          journal`fired, faults, loud,
               outage, unmarked, stamps, q, this`behind
      ensures Valid() && Grows(old(store.rows), store.rows) && TimersOnce(timers.rows, channel.timers)
      ensures old(channel.pushed) <= channel.pushed && TraceOk(journal.events, now, stamps.next)
      ensures faults.Explain(outcome)
      ensures Apart(channel.pushed[|old(channel.pushed)|..])
      ensures faults.lost == old(faults.lost) ==> behind == old(behind)
      ensures faults.failures == old(faults.failures) ==> behind == old(behind) && unmarked.seen == old(unmarked.seen)
      ensures !commit ==>
                && faults.Smooth() && unchanged(log, channel, journal, loud, outage, unmarked, stamps, this)
                && store.writes == old(store.writes) && timers.writes == old(timers.writes)
      // a scan that aborts before its push still pushes what it had fired, in the messages of its queue, whose rows are
      // as it read them
      ensures old(channel.tried) <= channel.tried && old(store.found) <= store.found
      ensures AsRead(queue, store.found, |old(store.found)|)
      ensures commit && CanDeliver() ==>
                FiredIsTried(journal.fired, queue, channel.tried[|old(channel.tried)|..], journal.events)
      ensures Along(core, old(Memory())) && PushedAgainIfLeft(old(Memory()), channel.pushed)
      ensures outcome == Ok ==> PushesWell(old(Begins()), core, now, commit, report, trail)
    {
      hide Kept, AllWait, Grows, TraceOk, TimersOnce, Apart, PushedOnce, TriedAll, Previews, PlanTrace, Books,
        AllAreTried, PushRead, SettledBy, QueuedBy, Retries, RingingOf, DistinctIds, Ids, Did, NoRepeat, Ordered,
        Grouping, IdsOfEach, StoppedIn, FiredIsTried, Along, AsRead, PushedAgainIfLeft;
      report, outcome, trail := Settle(core, q, now, commit);
      OnlyPlans(old(Memory()), core, now);
      queue := q.rows;
      ghost var rows1 := store.rows;
      var delivered, flushed := PushQueued(core, q, stamps, now, old(Memory()));
      GrowsIsTransitive(old(store.rows), rows1, store.rows);
      if outcome == Error || flushed == Error {
        outcome := Error;
        return;
      }
      ghost var settled := report;
      report := report.(delivered := report.delivered + delivered);
      if faults.Smooth() {
        AfterPush(settled, report, trail, core, CanDeliver(), old(unmarked.seen), rows1, store.rows, timers.rows, queue,
                  channel.tried[|old(channel.tried)|..], commit);
      }
    }

    /** Plans and retirements leave the process what it remembered. */
    lemma OnlyPlans(before: Ledger, core: Core, now: int)
      requires PlanTrace(journal.events, core.unreadable) && Memory() == before
      ensures TraceOk(journal.events, now, None) && Along(core, before)
    {
      PlansAreTraced(journal.events, core.unreadable, now);
      PlansAreNoPushes(before, journal.events);
      PlansAreComposed(journal.events, core);
    }

    twostate predicate Untouched()
      reads this, store, timers, log, channel, faults, loud, outage, unmarked, unreadable, questions, signals
    {
      && faults.Smooth() && store.writes == old(store.writes) && timers.writes == old(timers.writes)
      && unchanged(log, channel, loud, outage, unmarked, unreadable, questions, signals, this)
    }

    ghost function Begins(): Start
      reads store, timers, channel, unmarked, faults, log
    {
      Start(store.rows, |store.found|, |timers.found|, |channel.tried|, unmarked.seen, channel.rung, channel.digests,
            faults.conflicts, Books())
    }

    /** What a scan that came so far did up to its push. */
    ghost predicate PushesWell(start: Start, core: Core, now: int, commit: bool, report: Report, trail: Trail)
      reads store, timers, channel, faults, log
    {
      && trail.digest == NO_DIGEST && start.tried <= |channel.tried| && start.conflicts <= faults.conflicts
      && |store.found| == start.found + (if CanDeliver() then 2 else 1)
      && PushRead(start.rows, store.found, start.found, timers.found, start.timersFound, trail, now, CanDeliver())
      && (faults.conflicts == start.conflicts ==>
            Did(report, trail, core, CanDeliver(), start.unmarked, store.rows, timers.rows,
                channel.tried[start.tried..], commit))
      && (faults.conflicts == start.conflicts && commit ==>
            channel.rung == start.rung + if CanDeliver() then RingingOf(trail.timers, core) else [])
      && (commit ==> Books() == start.books.Plus(Counted(report)))
    }

    /** What a scan that ends well did. */
    ghost predicate EndsWell(start: Start, core: Core, now: int, commit: bool, report: Report, trail: Trail, p: Packing)
      reads store, timers, channel, journal, faults, log
    {
      // the rows it went through are all there were when it read them
      && AllRead(start.rows, store.found, start.found, timers.found, start.timersFound, trail, core, now, hasChannel,
                 hasConversation)
      // when no write is lost, the counts are those of the verdicts, what they say was done, and the messages say the
      // reminders fired and those queued again, and no others
      && start.tried <= |channel.tried|
      && (faults.conflicts == start.conflicts ==>
            Did(report, trail, core, CanDeliver(), start.unmarked, store.rows, timers.rows,
                channel.tried[start.tried..], commit))
      && (faults.conflicts == start.conflicts && commit ==>
            LapsedBy(store.rows, trail.digest, core) &&
            channel.rung == start.rung + if CanDeliver() then RingingOf(trail.timers, core) else [])
      // the audit trail counts what the report counts, races and all
      && (commit ==> Books() == start.books.Plus(Counted(report)))
      // a digest goes out when one is owed and there is something to say, and what it says is then marked
      && (commit && hasChannel ==>
            DigestRan(start.digests, channel.digests, journal.events, report.carried, core, SentBy(core, trail.digest),
                      p, hasConversation))
    }

    /** Where a scan's reads for its digest begin, after those of its push. */
    function DigestReads(): nat {
      ReadsBefore(CanDeliver())
    }

    /** One scan, with its own stamps. */
    method At(core: Core, stamps: SurfaceStamps, q: Queue, now: int, commit: bool)
      returns (report: Report, outcome: Outcome, ghost trail: Trail, ghost queue: seq<Copy>, ghost p: Packing)
      requires Valid() && TimersOnce(timers.rows, channel.timers)
      requires journal.events == [] && journal.fired == [] && stamps.next == None && q.rows == []
      modifies store, timers, log, channel, journal`events, journal`fired, faults, loud, outage, unmarked, unreadable,
               stamps, q, questions`closed, signals, this`behind
      ensures Valid() && Grows(old(store.rows), store.rows) && TimersOnce(timers.rows, channel.timers)
      // an aborted scan points to what failed, and reports nothing
      ensures faults.ExplainStrictly(outcome) && (outcome == Error ==> report == NOTHING_DONE)
      // nothing is marked that this scan did not say first, stamps increase in the order things were shown, and no
      // unit's stale row is retired before the unit was planned again
      ensures TraceOk(journal.events, now, stamps.next)
      // no reminder is in two of its pushes, and one pushed before was left behind, by this process or an earlier one
      ensures old(channel.pushed) <= channel.pushed && Apart(channel.pushed[|old(channel.pushed)|..])
      ensures PushedAgainIfLeft(old(Memory()), channel.pushed)
      ensures since <= |channel.pushed|
      ensures NoRepeat(channel.pushed[since..], behind) && NoRepeat(channel.pushed, behind + forgotten)
      // one is only when an audit row was lost, and none is left unmarked unless something failed
      ensures faults.lost == old(faults.lost) ==> behind == old(behind)
      ensures faults.failures == old(faults.failures) ==> behind == old(behind) && unmarked.seen == old(unmarked.seen)
      // what it fired is in a message it tried, however it ends, unless a message before it could not be dealt with
      ensures old(channel.tried) <= channel.tried
      ensures AsRead(queue, store.found, |old(store.found)|)
      ensures commit && CanDeliver() ==>
                FiredIsTried(journal.fired, queue, channel.tried[|old(channel.tried)|..], journal.events)
      // what it remembers in the end is what its events leave
      ensures Memory() == old(Memory()).After(journal.events)
      // whatever fails, its messages are pushes that say their reminders and at most one digest, of what it read; what
      // the digest said was unseen when it was read, and what it marks is on its row
      ensures Says(journal.events, store.found, |old(store.found)| + DigestReads(), core, trail.digest, p)
      ensures Landed(journal.events, old(store.rows), store.found, |old(store.found)| + DigestReads(), store.rows)
      // a dry run writes, sends, records and remembers nothing
      ensures !commit ==> Untouched() && journal.events == []
      ensures outcome == Ok ==> EndsWell(old(Begins()), core, now, commit, report, trail, p)
    {
      hide Kept, Grows, TraceOk, TimersOnce, NoRepeat, Apart, Books, FiredIsTried, Composed, Ledger.After, PushesWell,
        EndsWell, Says, Landed, AsRead, PushedAgainIfLeft, ReadsBefore;
      p := Packing([], 0, [], [], []);
      report, outcome, trail, queue := SettleAndPush(core, stamps, q, now, commit);
      ghost var rows1, found1 := store.rows, store.found;
      SaysNoDigest(journal.events, old(store.rows), found1, |old(store.found)| + DigestReads(), core, trail.digest, p,
                   rows1);
      if outcome == Ok {
        report, outcome, trail, p :=
          Conclude(core, stamps, now, commit, report, trail, queue, old(Begins()), old(Memory()));
        GrowsIsTransitive(old(store.rows), rows1, store.rows);
        StillAsRead(queue, found1, store.found, |old(store.found)|);
      }
      KeptMeans(store.rows, Memory());
      report := if outcome == Error then NOTHING_DONE else report;
    }

    /** What follows the push, added to what was settled and pushed. The ghosts are what the scan began with. */
    method Conclude(core: Core, stamps: SurfaceStamps, now: int, commit: bool, settled: Report, ghost seen: Trail,
                    ghost queue: seq<Copy>, ghost start: Start, ghost before: Ledger)
      returns (report: Report, outcome: Outcome, ghost trail: Trail, ghost p: Packing)
      requires Valid() && TraceOk(journal.events, now, stamps.next) && Along(core, before)
      requires PushesWell(start, core, now, commit, settled, seen) && channel.digests == start.digests
      requires start.tried <= |channel.tried| && Grows(start.rows, store.rows)
      requires commit && CanDeliver() ==>
                 FiredIsTried(journal.fired, queue, channel.tried[start.tried..], journal.events)
      modifies store, log, journal`events, faults, channel`digests, unreadable, stamps, questions`closed,
               signals
      ensures Valid() && Grows(old(store.rows), store.rows) && TraceOk(journal.events, now, stamps.next)
      ensures faults.ExplainStrictly(outcome)
      ensures Memory() == before.After(journal.events) && old(store.found) <= store.found
      ensures Says(journal.events, store.found, start.found + DigestReads(), core, trail.digest, p)
      ensures Landed(journal.events, start.rows, store.found, start.found + DigestReads(), store.rows)
      ensures commit && CanDeliver() ==>
                FiredIsTried(journal.fired, queue, channel.tried[start.tried..], journal.events)
      ensures !commit ==> faults.Smooth() && store.writes == old(store.writes) &&
                          unchanged(log, channel, journal, unreadable, stamps, questions, signals)
      ensures outcome == Ok ==> EndsWell(start, core, now, commit, report, trail, p)
    {
      hide Kept, Grows, TraceOk, Books, PushRead, LapsedBy, SentBy, DigestRan, PastOf, AllRead, DigestHasRead, Did,
        DigestTail, DigestLanded, Says, Landed, FiredIsTried, Composed, Ledger.After, RingingOf;
      ghost var rows1, found1, events1, tried := store.rows, store.found, journal.events, channel.tried[start.tried..];
      var carried, lapsed;
      ghost var digest;
      carried, lapsed, outcome, digest, p := Finish(core, stamps, now, commit);
      TheTailIsSaid(before, events1, journal.events, store.found, |found1|, core, digest, p);
      TheTailHasLanded(start.rows, rows1, events1, journal.events, store.found, |found1|, core, digest, p, store.rows);
      if commit && CanDeliver() {
        StillTried(journal.fired, queue, tried, events1, journal.events);
      }
      if outcome == Ok {
        AllIsRead(start.rows, found1, store.found, start.found, timers.found, start.timersFound, seen, digest, core, now,
                  hasChannel, hasConversation);
        if faults.conflicts == start.conflicts {
          WithDigest(settled, carried, lapsed, seen, digest, core, CanDeliver(), start.unmarked, old(store.rows),
                     store.rows, timers.rows, tried, commit);
        }
      }
      report := settled.(carried := carried, lapsed := settled.lapsed + lapsed);
      trail := seen.(digest := digest);
    }

    /** What follows the push: the digest, and a row for each unit some row was judged without. */
    method Finish(core: Core, stamps: SurfaceStamps, now: int, commit: bool)
      returns (carried: nat, lapsed: nat, outcome: Outcome, ghost digest: DigestTrail, ghost p: Packing)
      requires Valid() && TraceOk(journal.events, now, stamps.next)
      modifies store, log, journal`events, faults, channel`digests, unreadable, stamps, questions`closed,
               signals
      ensures Valid() && Grows(old(store.rows), store.rows) && TraceOk(journal.events, now, stamps.next)
      ensures faults.ExplainStrictly(outcome)
      // one digest at the most, and no other message
      ensures DigestTail(old(journal.events), journal.events, store.found, |old(store.found)|, core, digest, p)
      ensures DigestLanded(old(journal.events), journal.events, old(store.rows), store.found, |old(store.found)|,
                           store.rows)
      ensures !commit ==> faults.Smooth() && store.writes == old(store.writes) &&
                          unchanged(log, channel, journal, unreadable, stamps, questions, signals)
      ensures old(store.found) <= store.found
      ensures outcome == Ok ==> if hasChannel then DigestHasRead(store.found, |old(store.found)|, digest, core)
                                else digest == NO_DIGEST && carried == lapsed == 0
      ensures outcome == Ok && faults.Smooth() ==> lapsed == |PastOf(digest.pending, core)|
      ensures outcome == Ok && faults.Smooth() && commit ==> LapsedBy(store.rows, digest, core)
      ensures outcome == Ok && commit ==> Audited(0, 0, lapsed, 0, 0, 0)
      ensures outcome == Ok && commit && hasChannel ==>
                DigestRan(old(channel.digests), channel.digests, journal.events, carried, core, SentBy(core, digest), p,
                          hasConversation)
    {
      hide Kept, Grows, TraceOk, Books, DigestHasRead, SentBy, DigestRan, PastOf, LapsedBy, DigestTail, MarksLanded;
      carried, lapsed, outcome, digest, p := 0, 0, Ok, NO_DIGEST, Packing([], 0, [], [], []);
      NoDigestYet(journal.events, store.found, |store.found|, core, digest, p);
      GrowsIsReflexive(store.rows);
      NothingLapsed(store.rows, core);
      if hasChannel {
        carried, lapsed, outcome, digest, p := DigestPart(core, stamps, now, commit);
        if outcome == Error {
          return;
        }
      }
      if commit {
        var said := SayDamaged(core);
        if !said {
          outcome := Error;
        }
      }
    }

    /** The digest's part of a scan. */
    method DigestPart(core: Core, stamps: SurfaceStamps, now: int, commit: bool)
      returns (carried: nat, lapsed: nat, outcome: Outcome, ghost digest: DigestTrail, ghost p: Packing)
      requires Valid() && hasChannel && TraceOk(journal.events, now, stamps.next)
      modifies store, log, journal`events, faults, channel`digests, unreadable, stamps, questions`closed,
               signals
      ensures Valid() && Grows(old(store.rows), store.rows) && TraceOk(journal.events, now, stamps.next)
      ensures faults.ExplainStrictly(outcome)
      ensures DigestTail(old(journal.events), journal.events, store.found, |old(store.found)|, core, digest, p)
      ensures DigestLanded(old(journal.events), journal.events, old(store.rows), store.found, |old(store.found)|,
                           store.rows)
      ensures !commit ==> faults.Smooth() && store.writes == old(store.writes) &&
                          unchanged(log, channel, journal, unreadable, stamps, questions, signals)
      ensures old(store.found) <= store.found
      ensures outcome == Ok ==> DigestHasRead(store.found, |old(store.found)|, digest, core)
      ensures outcome == Ok && faults.Smooth() ==> lapsed == |PastOf(digest.pending, core)|
      ensures outcome == Ok && faults.Smooth() && commit ==> LapsedBy(store.rows, digest, core)
      ensures outcome == Ok && commit ==>
                && Audited(0, 0, lapsed, 0, 0, 0)
                && DigestRan(old(channel.digests), channel.digests, journal.events, carried, core,
                             SentBy(core, digest), p, hasConversation)
    {
      hide Kept, Grows, TraceOk, Books, DigestRead, AskedAgain, ReadyBy, Ranked, DigestDone, DigestRan, IsDigest,
        PastOf, Ended, TimeIsUp, DigestTail, DigestLanded;
      carried, lapsed, outcome, digest, p := AssembleDigest(core, stamps, now, commit);
      TailGoesOn(old(journal.events), journal.events, store.found, |old(store.found)|, core, digest, p);
      if outcome == Ok && commit {
        TheDigestRan(old(channel.digests), channel.digests, old(journal.events), journal.events, carried, core,
                     SentBy(core, digest), p, hasConversation);
      }
    }

    /** One row for each unit some row was judged without. */
    method SayDamaged(core: Core) returns (ok: bool)
      requires Wired()
      modifies log, faults
      ensures faults.Explain(if ok then Ok else Error) && faults.Smooth()
      ensures ok ==> log.rows == old(log.rows) + Repeated(SendFailedRow, |core.damaged|) && Audited(0, 0, 0, 0, 0, 0)
    {
      hide AuditOf;
      for k := 0 to |core.damaged|
        invariant faults.Explain(Ok) && faults.Smooth()
        invariant log.rows == old(log.rows) + Repeated(SendFailedRow, k) && Audited(0, 0, 0, 0, 0, 0)
      {
        ok := log.Record(SendFailedRow);
        if !ok {
          return;
        }
      }
      ok := true;
    }
  }

  datatype Scan = Scan(core: Core, now: int, commit: bool)

  /** A pass kept its order: marks after messages, stamps increasing, plans before retirements; and its messages are
      pushes that say their reminders and at most one digest, of what the pass read. */
  ghost predicate WellOrdered(events: seq<Event>, found: seq<map<string, Row>>, from: nat, scan: Scan) {
    && (exists trail, p :: Says(events, found, from, scan.core, trail, p))
    && exists next :: TraceOk(events, scan.now, next)
  }

  ghost predicate InOrder(passes: seq<seq<Event>>, readings: seq<seq<map<string, Row>>>, from: nat, scans: seq<Scan>) {
    && |passes| == |readings| == |scans|
    && forall k :: 0 <= k < |scans| ==> WellOrdered(passes[k], readings[k], from, scans[k])
  }

  /** No digest carries an item that a digest of a pass before it was seen with. */
  ghost predicate SaysNothingAgain(before: seq<seq<Event>>, passes: seq<seq<Event>>,
                                   readings: seq<seq<map<string, Row>>>, from: nat, scans: seq<Scan>) {
    forall n, id :: 0 <= n < |passes| && n < |readings| && n < |scans| && ShownBy(before + passes[..n], id) ==>
      !CarriedBy(passes[n], readings[n], from, scans[n].core, id)
  }

  /** One scan of a process, from a pass that is over to the next. */
  method OneScan(runner: Runner, scan: Scan)
    returns (ghost events: seq<Event>, ghost found: seq<map<string, Row>>)
    requires runner.Valid() && TimersOnce(runner.timers.rows, runner.channel.timers)
    requires runner.journal.events == [] && runner.journal.fired == [] && runner.store.found == []
    modifies runner.store, runner.timers, runner.log, runner.channel, runner.journal, runner.faults, runner.loud,
             runner.outage, runner.unmarked, runner.unreadable, runner.questions`closed, runner.signals, runner`behind
    ensures runner.Valid() && TimersOnce(runner.timers.rows, runner.channel.timers)
    ensures runner.journal.events == [] && runner.journal.fired == [] && runner.store.found == []
    ensures runner.journal.passes == old(runner.journal.passes) + [events]
    ensures runner.journal.readings == old(runner.journal.readings) + [found]
    ensures WellOrdered(events, found, runner.DigestReads(), scan)
    ensures runner.Memory() == old(runner.Memory()).After(events)
    ensures PushedAgainIfLeft(old(runner.Memory()), runner.Memory().pushed)
    ensures Grows(old(runner.store.rows), runner.store.rows)
    ensures Landed(events, old(runner.store.rows), found, runner.DigestReads(), runner.store.rows)
    ensures runner.faults.Explain(Ok)
    ensures runner.faults.lost == old(runner.faults.lost) ==> runner.behind == old(runner.behind)
    ensures runner.faults.failures == old(runner.faults.failures) ==>
              runner.behind == old(runner.behind) && runner.unmarked.seen == old(runner.unmarked.seen)
  {
    hide Kept, TimersOnce, NoRepeat, Apart, Grows, TraceOk, Runner.EndsWell, Runner.Untouched, FiredIsTried, Ledger.After,
      Says, Landed, PushedAgainIfLeft, AsRead;
    var stamps := new SurfaceStamps();
    var q := new Queue();
    ghost var from := runner.DigestReads();
    var _, _, trail, _, p := runner.At(scan.core, stamps, q, scan.now, scan.commit);
    events, found := runner.journal.events, runner.store.found;
    assert Says(events, found, from, scan.core, trail.digest, p) && TraceOk(events, scan.now, stamps.next);
    runner.store.Close();
  }

  /** One process, scan after scan. */
  method Live(runner: Runner, scans: seq<Scan>)
    requires runner.Valid() && TimersOnce(runner.timers.rows, runner.channel.timers)
    requires runner.journal.events == [] && runner.journal.fired == [] && runner.store.found == []
    requires AllShownAreOver(runner.journal.passes, runner.store.rows)
    modifies runner.store, runner.timers, runner.log, runner.channel, runner.journal, runner.faults, runner.loud,
             runner.outage, runner.unmarked, runner.unreadable, runner.questions`closed, runner.signals, runner`behind
    ensures runner.Valid() && TimersOnce(runner.timers.rows, runner.channel.timers)
    ensures runner.journal.events == [] && runner.journal.fired == [] && runner.store.found == []
    // what it remembers is what its scans' events leave, and nothing else
    ensures old(runner.journal.passes) <= runner.journal.passes && old(runner.journal.readings) <= runner.journal.readings
    ensures var passes := runner.journal.passes[|old(runner.journal.passes)|..];
            var readings := runner.journal.readings[|old(runner.journal.readings)|..];
            && InOrder(passes, readings, runner.DigestReads(), scans)
            && runner.Memory() == old(runner.Memory()).AfterAll(passes)
            // what it pushes again was left before, and what a digest was seen with is in none after it
            && Steady(old(runner.Memory()), passes)
            && SaysNothingAgain(old(runner.journal.passes), passes, readings, runner.DigestReads(), scans)
    ensures AllShownAreOver(runner.journal.passes, runner.store.rows)
    ensures runner.faults.Explain(Ok)
    ensures runner.faults.lost == old(runner.faults.lost) ==> runner.behind == old(runner.behind)
    ensures runner.faults.failures == old(runner.faults.failures) ==>
              runner.behind == old(runner.behind) && runner.unmarked.seen == old(runner.unmarked.seen)
  {
    hide Kept, TimersOnce, Grows, Ledger.After, Ledger.AfterAll, Landed, PushedAgainIfLeft, Steady, SaysNothingAgain,
      InOrder, WellOrdered, AllShownAreOver;
    NothingYet(runner.Memory());
    ghost var passes, readings := [], [];
    ghost var before, from, memory := runner.journal.passes, runner.DigestReads(), runner.Memory();
    NoScanYet(memory, before, from, scans);
    assert runner.journal.passes + [] == runner.journal.passes && runner.journal.readings + [] == runner.journal.readings;
    for k := 0 to |scans|
      invariant runner.Valid() && TimersOnce(runner.timers.rows, runner.channel.timers)
      invariant runner.journal.events == [] && runner.journal.fired == [] && runner.store.found == []
      invariant runner.journal.passes == before + passes
      invariant runner.journal.readings == old(runner.journal.readings) + readings
      invariant InOrder(passes, readings, from, scans[..k]) && runner.Memory() == memory.AfterAll(passes)
      invariant Steady(memory, passes) && SaysNothingAgain(before, passes, readings, from, scans[..k])
      invariant AllShownAreOver(before + passes, runner.store.rows)
      invariant runner.faults.Explain(Ok)
      invariant runner.faults.lost == old(runner.faults.lost) ==> runner.behind == old(runner.behind)
      invariant runner.faults.failures == old(runner.faults.failures) ==>
                  runner.behind == old(runner.behind) && runner.unmarked.seen == old(runner.unmarked.seen)
    {
      ghost var rows0 := runner.store.rows;
      ghost var events, found := OneScan(runner, scans[k]);
      PassNext(memory, passes, events);
      SteadyNext(memory, passes, events);
      OnePassInOrder(passes, readings, events, found, from, scans, k);
      OnePassSaysNothingAgain(before, passes, readings, events, found, from, scans, k, rows0, runner.store.rows);
      assert (before + passes) + [events] == before + (passes + [events]);
      passes, readings := passes + [events], readings + [found];
    }
    assert scans[..|scans|] == scans;
    assert runner.journal.passes[|before|..] == passes;
    assert runner.journal.readings[|old(runner.journal.readings)|..] == readings;
  }

  lemma NoScanYet(memory: Ledger, before: seq<seq<Event>>, from: nat, scans: seq<Scan>)
    ensures InOrder([], [], from, scans[..0]) && Steady(memory, []) && SaysNothingAgain(before, [], [], from, scans[..0])
    ensures before + [] == before
  {
  }

  lemma OnePassInOrder(passes: seq<seq<Event>>, readings: seq<seq<map<string, Row>>>, events: seq<Event>,
                       found: seq<map<string, Row>>, from: nat, scans: seq<Scan>, k: nat)
    requires k < |scans| && InOrder(passes, readings, from, scans[..k]) && WellOrdered(events, found, from, scans[k])
    ensures InOrder(passes + [events], readings + [found], from, scans[..k + 1])
  {
    hide WellOrdered;
  }

  lemma OnePassSaysNothingAgain(before: seq<seq<Event>>, passes: seq<seq<Event>>, readings: seq<seq<map<string, Row>>>,
                                events: seq<Event>, found: seq<map<string, Row>>, from: nat, scans: seq<Scan>, k: nat,
                                rows: map<string, Row>, after: map<string, Row>)
    requires k < |scans| && InOrder(passes, readings, from, scans[..k])
    requires SaysNothingAgain(before, passes, readings, from, scans[..k])
    requires AllShownAreOver(before + passes, rows) && Grows(rows, after) && Landed(events, rows, found, from, after)
    ensures SaysNothingAgain(before, passes + [events], readings + [found], from, scans[..k + 1])
    ensures AllShownAreOver(before + passes + [events], after)
  {
    ShownNext(before + passes, events, rows, found, from, after);
    hide WellOrdered, ShownBy, CarriedBy, Landed, AllShownAreOver, Grows;
    forall n, id | 0 <= n <= k && ShownBy(before + (passes + [events])[..n], id)
      ensures !CarriedBy((passes + [events])[n], (readings + [found])[n], from, scans[n].core, id)
    {
      assert (passes + [events])[..n] == passes[..n];
      if n == k {
        assert passes[..n] == passes;
        NeverCarriedAgain(before + passes, events, rows, found, from, scans[k].core, after, id);
      } else {
        assert scans[..k][n] == scans[n];
      }
    }
  }

  /** One process from its start to its end, and what it remembered then. */
  method OneLife(store: TriggerStore, timers: TimerStore, log: DecisionLog, channel: Channel, questions: Questions,
                 signals: Signals, journal: Journal, faults: Faults, hasChannel: bool, hasConversation: bool, scans: seq<Scan>)
    returns (ghost memory: Ledger)
    requires store.journal == channel.journal == questions.journal == log.journal == journal
    requires store.faults == timers.faults == log.faults == questions.faults == signals.faults == faults
    requires journal.events == [] && journal.fired == [] && store.found == [] && TimersOnce(timers.rows, channel.timers)
    requires NoRepeat(channel.pushed, ForgottenOf(journal.passes))
    requires Accounted(store.rows, channel.pushed, {}, ForgottenOf(journal.passes))
    requires AllShownAreOver(journal.passes, store.rows)
    modifies store, timers, log, channel, journal, faults, questions`closed, signals
    ensures journal.events == [] && journal.fired == [] && store.found == [] && TimersOnce(timers.rows, channel.timers)
    ensures old(journal.passes) <= journal.passes && old(journal.readings) <= journal.readings
    ensures memory == Ledger(old(channel.pushed), |old(channel.pushed)|, {}, {}, ForgottenOf(old(journal.passes)))
                      .AfterAll(journal.passes[|old(journal.passes)|..])
    ensures LifeKept(old(journal.passes), old(channel.pushed), journal.passes[|old(journal.passes)|..],
                     journal.readings[|old(journal.readings)|..], ReadsBefore(hasChannel && hasConversation), scans)
    ensures AllShownAreOver(journal.passes, store.rows)
    ensures Kept(store.rows, memory) && memory.pushed == channel.pushed && faults.Explain(Ok)
    ensures faults.lost == old(faults.lost) ==> memory.behind == {}
    ensures faults.failures == old(faults.failures) ==> memory.behind == {} && memory.unmarked == {}
  {
    hide Kept, NoRepeat, Accounted, TimersOnce, InOrder, ForgottenOf, Ledger.AfterAll, AllShownAreOver, Steady,
      SaysNothingAgain;
    var runner := new Runner(store, timers, log, channel, questions, signals, journal, faults, hasChannel, hasConversation);
    Live(runner, scans);
    memory := runner.Memory();
  }

  /** What one process adds to the history of those before it. */
  ghost predicate LifeKept(before: seq<seq<Event>>, pushed: seq<string>, passes: seq<seq<Event>>,
                           readings: seq<seq<map<string, Row>>>, from: nat, scans: seq<Scan>) {
    && InOrder(passes, readings, from, scans) && SaysNothingAgain(before, passes, readings, from, scans)
    && Steady(Ledger(pushed, |pushed|, {}, {}, ForgottenOf(before)), passes)
  }

  function AllOf(lives: seq<seq<Scan>>): seq<Scan> {
    if lives == [] then [] else AllOf(lives[..|lives| - 1]) + lives[|lives| - 1]
  }

  /** Scan after scan, process after process, whatever fails and whenever a process ends. A timer goes out at most once;
      a reminder goes out twice only if it was sent and could not be marked, or stood in a message after one whose
      audit row could not be written, in a pass before the one that sends it again; and never more often than there
      were processes, unless it was left behind like that. Every digest is of what its pass read, and an item that was
      marked after one is in none after it. What could not be marked and what was left behind are read off the events of
      the passes, which the ports record: while no audit row is lost nothing is left behind, and while nothing fails
      nothing goes out twice. */
  method Run(hasChannel: bool, hasConversation: bool, lives: seq<seq<Scan>>)
    returns (store: TriggerStore, channel: Channel, timers: TimerStore, journal: Journal, faults: Faults)
    ensures InOrder(journal.passes, journal.readings, ReadsBefore(hasChannel && hasConversation), AllOf(lives))
    ensures channel.pushed == PushesOf(journal.passes)
    ensures TimersOnce(timers.rows, channel.timers)
    ensures NoRepeat(channel.pushed, ForgottenOf(journal.passes)) && AgainOnlyWhatWasLeft(journal.passes)
    ensures AtMost(channel.pushed, |lives|, BehindOf(journal.passes))
    ensures SaysNothingAgain([], journal.passes, journal.readings, ReadsBefore(hasChannel && hasConversation),
                             AllOf(lives))
    ensures faults.lost == 0 ==> BehindOf(journal.passes) == {}
    ensures faults.failures == 0 ==> ForgottenOf(journal.passes) == {}
    ensures forall k :: 0 <= k < |channel.pushed| ==> channel.pushed[k] in store.rows
  {
    hide Kept, NoRepeat, Accounted, AtMost, TimersOnce, BehindOf, UnmarkedOf, PushesOf, ForgottenOf,
      Ledger.AfterAll, AllShownAreOver, Wholly, LifeKept;
    journal := new Journal();
    faults := new Faults();
    store := new TriggerStore(journal, faults);
    channel := new Channel(journal);
    timers := new TimerStore(faults);
    var log := new DecisionLog(journal, faults);
    var questions := new Questions(journal, faults);
    var signals := new Signals(faults);
    NothingPushed(store.rows, timers.rows);
    NothingShownYet(store.rows);
    ghost var from := ReadsBefore(hasChannel && hasConversation);
    NoPassYet(from);
    assert lives[..0] == [];
    for n := 0 to |lives|
      invariant fresh({store, channel, timers, log, questions, signals, journal, faults})
      invariant store.journal == channel.journal == questions.journal == log.journal == journal
      invariant store.faults == timers.faults == log.faults == questions.faults == signals.faults == faults
      invariant journal.events == [] && journal.fired == [] && store.found == []
      invariant Wholly(journal.passes, journal.readings, from, AllOf(lives[..n]))
      invariant AllShownAreOver(journal.passes, store.rows)
      invariant channel.pushed == PushesOf(journal.passes)
      invariant NoRepeat(channel.pushed, ForgottenOf(journal.passes))
      invariant Accounted(store.rows, channel.pushed, {}, ForgottenOf(journal.passes))
      invariant AtMost(channel.pushed, n, BehindOf(journal.passes)) && TimersOnce(timers.rows, channel.timers)
      invariant faults.lost == 0 ==> BehindOf(journal.passes) == {}
      invariant faults.failures == 0 ==> ForgottenOf(journal.passes) == {}
    {
      ghost var before, passes, readings := channel.pushed, journal.passes, journal.readings;
      ghost var memory := OneLife(store, timers, log, channel, questions, signals, journal, faults, hasChannel, hasConversation,
                                  lives[n]);
      ghost var more, moreRead := journal.passes[|passes|..], journal.readings[|readings|..];
      assert journal.passes == passes + more && journal.readings == readings + moreRead;
      OneLifeWholly(passes, readings, more, moreRead, from, before, lives, n);
      OneLifeOn(store.rows, memory, passes, more, before, n);
    }
    assert lives[..|lives|] == lives;
    AllKnown(store.rows, channel.pushed, ForgottenOf(journal.passes));
    WhollyMeans(journal.passes, journal.readings, from, AllOf(lives));
  }

  /** What holds of a whole history. */
  ghost predicate Wholly(passes: seq<seq<Event>>, readings: seq<seq<map<string, Row>>>, from: nat, scans: seq<Scan>) {
    && InOrder(passes, readings, from, scans) && SaysNothingAgain([], passes, readings, from, scans)
    && AgainOnlyWhatWasLeft(passes)
  }

  lemma WhollyMeans(passes: seq<seq<Event>>, readings: seq<seq<map<string, Row>>>, from: nat, scans: seq<Scan>)
    requires Wholly(passes, readings, from, scans)
    ensures InOrder(passes, readings, from, scans) && SaysNothingAgain([], passes, readings, from, scans)
    ensures AgainOnlyWhatWasLeft(passes)
  {
  }

  lemma NoPassYet(from: nat)
    ensures Wholly([], [], from, AllOf([])) && PushesOf([]) == [] && ForgottenOf([]) == {} && BehindOf([]) == {}
  {
  }

  lemma LifeJoins(l: Ledger, passes: seq<seq<Event>>, more: seq<seq<Event>>, before: seq<string>)
    requires before == PushesOf(passes)
    requires l == Ledger(before, |before|, {}, {}, ForgottenOf(passes)).AfterAll(more)
    ensures PushesOf(passes + more) == l.pushed && ForgottenOf(passes + more) == l.forgotten + l.behind + l.unmarked
    ensures BehindOf(passes + more) == BehindOf(passes) + l.behind
    ensures l.forgotten == ForgottenOf(passes) && before <= l.pushed && l.since == |before|
  {
    PassesJoin(passes, more);
    hide UnmarkedOf, BehindOf, PushesOf;
    assert {} + UnmarkedOf(more) == UnmarkedOf(more) && {} + BehindOf(more) == BehindOf(more);
  }

  /** A process ended: what may go out again is what its passes and those before left. */
  lemma OneLifeOn(rows: map<string, Row>, l: Ledger, passes: seq<seq<Event>>, more: seq<seq<Event>>, before: seq<string>,
                  n: nat)
    requires Kept(rows, l) && AtMost(before, n, BehindOf(passes)) && before == PushesOf(passes)
    requires l == Ledger(before, |before|, {}, {}, ForgottenOf(passes)).AfterAll(more)
    ensures PushesOf(passes + more) == l.pushed && ForgottenOf(passes + more) == ForgottenOf(passes) + l.behind +
              l.unmarked
    ensures BehindOf(passes + more) == BehindOf(passes) + l.behind
    ensures NoRepeat(l.pushed, ForgottenOf(passes + more)) && Accounted(rows, l.pushed, {}, ForgottenOf(passes + more))
    ensures AtMost(l.pushed, n + 1, BehindOf(passes + more))
  {
    LifeJoins(l, passes, more, before);
    ProcessEnds(rows, l);
    hide Kept, NoRepeat, Accounted, AtMost, UnmarkedOf, BehindOf, PushesOf, ForgottenOf, Ledger.AfterAll;
    OneLifeMore(before, l.pushed, n, BehindOf(passes), l.behind);
  }

  lemma OneLifeWholly(passes: seq<seq<Event>>, readings: seq<seq<map<string, Row>>>, more: seq<seq<Event>>,
                      moreRead: seq<seq<map<string, Row>>>, from: nat, before: seq<string>, lives: seq<seq<Scan>>,
                      n: nat)
    requires n < |lives| && before == PushesOf(passes) && Wholly(passes, readings, from, AllOf(lives[..n]))
    requires LifeKept(passes, before, more, moreRead, from, lives[n])
    ensures Wholly(passes + more, readings + moreRead, from, AllOf(lives[..n + 1]))
  {
    assert lives[..n + 1][..n] == lives[..n];
    var scans := AllOf(lives[..n]);
    assert AllOf(lives[..n + 1]) == scans + lives[n];
    LifeIsSteady(passes, more, before);
    hide AgainOnlyWhatWasLeft, Steady, AllOf, PushesOf, ForgottenOf, ShownBy, CarriedBy;
    InOrderJoins(passes, readings, more, moreRead, from, scans, lives[n]);
    SaidOnceJoins(passes, readings, more, moreRead, from, scans, lives[n]);
  }

  lemma InOrderJoins(passes: seq<seq<Event>>, readings: seq<seq<map<string, Row>>>, more: seq<seq<Event>>,
                     moreRead: seq<seq<map<string, Row>>>, from: nat, scans: seq<Scan>, moreScans: seq<Scan>)
    requires InOrder(passes, readings, from, scans) && InOrder(more, moreRead, from, moreScans)
    ensures InOrder(passes + more, readings + moreRead, from, scans + moreScans)
  {
    hide WellOrdered;
  }

  lemma SaidOnceJoins(passes: seq<seq<Event>>, readings: seq<seq<map<string, Row>>>, more: seq<seq<Event>>,
                      moreRead: seq<seq<map<string, Row>>>, from: nat, scans: seq<Scan>, moreScans: seq<Scan>)
    requires |passes| == |readings| == |scans| && |more| == |moreRead| == |moreScans|
    requires SaysNothingAgain([], passes, readings, from, scans)
    requires SaysNothingAgain(passes, more, moreRead, from, moreScans)
    ensures SaysNothingAgain([], passes + more, readings + moreRead, from, scans + moreScans)
  {
    hide ShownBy, CarriedBy;
    var all := passes + more;
    forall n, id | 0 <= n < |all| && ShownBy([] + all[..n], id)
      ensures !CarriedBy(all[n], (readings + moreRead)[n], from, (scans + moreScans)[n].core, id)
    {
      if n < |passes| {
        assert [] + all[..n] == [] + passes[..n];
      } else {
        assert [] + all[..n] == passes + more[..n - |passes|];
      }
    }
  }
}
