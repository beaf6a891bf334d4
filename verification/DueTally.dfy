/**
 What a due scan decides, apart from whether its writes land
 (internal/brain/check.go, triggerTransition, timerTransition and the two due
 loops; internal/brain/reminder_step.go, the worklist by unit). A dry run and a
 writing run read their counts off the same functions.
 */
module DueTally {
  import opened Options
  import opened PassTrace
  import opened Stores
  import opened PushQueue
  import opened PushLedger
  import DigestQuestions
  import DigestText

  datatype Verdict = Waiting | Defer | DeliverNow | Stale

  datatype Reason = NoReason | Passed | Overdue | Superseded

  datatype Judgment = Judgment(verdict: Verdict, reason: Reason)

  datatype Step = WaitOn | AskAgain | Close

  /** The items a digest carries and those it holds back: each is one or the other, and a morning that is not low
      carries all of them as they are. */
  ghost predicate Splits(f: (seq<DigestText.Item>, bool) -> (seq<DigestText.Item>, seq<DigestText.Item>)) {
    && (forall items :: f(items, false) == (items, []))
    && forall items :: multiset(f(items, true).0) + multiset(f(items, true).1) == multiset(items)
  }

  type Split = f: (seq<DigestText.Item>, bool) -> (seq<DigestText.Item>, seq<DigestText.Item>) | Splits(f)
    witness (items, low) => (items, [])

  /** What one scan, at its instant, gets from the rest of the system. A judgment is None when the unit it needs
      cannot be read; a unit that is `unreadable` cannot be planned for. */
  datatype Core = Core(
    judge: (Copy, bool) -> Option<Judgment>,
    timer: Timer -> Verdict,
    rearmed: Copy -> int,           // the instant of a recurring row's next occurrence
    unreadable: string -> bool,
    owed: string -> bool,           // the unit is there, has an instant, and is owed reminders
    damaged: seq<string>,           // the units some row was judged without
    pushText: seq<Copy> -> string,
    step: Copy -> Step,             // what to do with an open check-in
    reaskSkipped: Copy -> bool,     // a re-ask is due and its unit cannot be read
    today: string,
    digestOwed: bool,
    lowEnergy: bool,
    tasks: seq<DigestText.DueLine>,
    question: Option<(string, DigestText.Question)>,
    goal: Option<(string, string)>,  // the goal check-in to ask, and its words
    openQuestions: seq<DigestQuestions.Question>,
    history: seq<DigestQuestions.Row>,   // the audit rows of the last days
    split: Split,
    hasKeeper: bool,
    focus: Option<Split>,           // the split ranked by what is in focus; None when that cannot be computed
    say: Copy -> string,
    phrases: DigestText.Phrases)

  function QuestionIds(questions: seq<DigestQuestions.Question>): (ids: seq<string>)
    ensures |ids| == |questions|
  {
    seq(|questions|, k requires 0 <= k < |questions| => questions[k].id)
  }

  /** The open questions that enough digests went out on, by the audit rows read. */
  function StaleQuestions(core: Core): seq<string> {
    QuestionIds(DigestQuestions.Stale(core.openQuestions, core.history))
  }

  lemma NothingSwept(history: seq<DigestQuestions.Row>, closed: seq<string>)
    ensures QuestionIds(DigestQuestions.Stale([], history)) == [] && closed + [] == closed
  {
  }

  lemma SweptNext(open: seq<DigestQuestions.Question>, history: seq<DigestQuestions.Row>, k: nat)
    requires k < |open|
    ensures var before, after := DigestQuestions.Stale(open[..k], history), DigestQuestions.Stale(open[..k + 1], history);
            QuestionIds(after) == QuestionIds(before) +
              (if DigestQuestions.Waiting(history, open[k]) then [] else [open[k].id])
  {
    DigestQuestions.StaleNext(open, history, k);
  }

  /** How many digests held an item back, by the audit rows read; one that cannot be read counts for none. */
  function Deferrals(core: Core): string -> nat {
    (id: string) => if id == "" then 0 else DigestQuestions.HeldCount(core.history, id)
  }

  /** What a scan does with one due row. */
  datatype Act = Park | Strand | Leave(to: Status) | Nothing

  /** triggerTransition: the status a verdict writes, if it writes one. */
  function TriggerTransition(v: Verdict): Option<Status> {
    match v
    case Stale => Some(Expired)
    case DeliverNow => Some(Fired)
    case _ => None
  }

  function TimerTransition(v: Verdict): Option<TimerStatus> {
    match v
    case Stale => Some(Cancelled)
    case DeliverNow => Some(TimerFired)
    case _ => None
  }

  /** A pass that can speak plans a stale one-shot again before it retires it; one that cannot leaves a one-shot as it
      found it. */
  function ActOn(t: Copy, j: Judgment, canDeliver: bool): Act {
    if j.verdict == Stale && j.reason != Passed && t.row.rule.None? && canDeliver then Park
    else if t.row.rule.None? && !canDeliver && (j.verdict == DeliverNow || (j.verdict == Stale && j.reason != Passed))
    then Strand
    else
      match TriggerTransition(j.verdict)
      case None => Nothing
      case Some(to) => Leave(to)
  }

  /** A due row is fired when it is deliverable and there is somewhere to speak, or it recurs; it is expired when it is
      stale and its event is past, or it recurs; a stale one-shot whose event is ahead is never expired here: it is
      planned again by a pass that can speak, and left as it was by one that cannot, like a deliverable one. */
  lemma WhatADueRowComesTo(t: Copy, j: Judgment, canDeliver: bool)
    ensures var act, recurs := ActOn(t, j, canDeliver), t.row.rule.Some?;
            var ahead := j.verdict == Stale && j.reason != Passed;
            && (act == Leave(Fired) <==> j.verdict == DeliverNow && (recurs || canDeliver))
            && (act == Leave(Expired) <==> j.verdict == Stale && (recurs || j.reason == Passed))
            && (act == Park <==> ahead && !recurs && canDeliver)
            && (act == Strand <==> (ahead || j.verdict == DeliverNow) && !recurs && !canDeliver)
            && (act == Nothing <==> j.verdict == Waiting || j.verdict == Defer)
  {
  }

  lemma NoRowIsLeftArmed(t: Copy, j: Judgment, canDeliver: bool)
    ensures ActOn(t, j, canDeliver) != Leave(Armed)
  {
  }

  datatype StaleRow = StaleRow(t: Copy, armed: bool)

  /** What the due loop comes to: how many rows it fires and expires, which it parks, and which it moved, true when
      fired. */
  datatype Tally = Tally(fired: nat, expired: nat, stale: seq<StaleRow>, settled: map<string, bool>)

  function TallyOne(sum: Tally, t: Copy, act: Act): Tally {
    match act
    case Park => sum.(stale := sum.stale + [StaleRow(t, true)])
    case Leave(Fired) => sum.(fired := sum.fired + 1, settled := sum.settled[t.id := true])
    case Leave(Expired) => sum.(expired := sum.expired + 1, settled := sum.settled[t.id := false])
    case _ => sum
  }

  /** The whole loop over due rows; None when one cannot be judged. */
  function TallyOf(due: seq<Copy>, core: Core, canDeliver: bool): Option<Tally> {
    if due == [] then Some(Tally(0, 0, [], map[]))
    else
      var t := due[|due| - 1];
      match TallyOf(due[..|due| - 1], core, canDeliver)
      case None => None
      case Some(sum) =>
        match core.judge(t, false)
        case None => None
        case Some(j) => Some(TallyOne(sum, t, ActOn(t, j, canDeliver)))
  }

  lemma EmptyTally(core: Core, canDeliver: bool)
    ensures TallyOf([], core, canDeliver) == Some(Tally(0, 0, [], map[]))
  {
  }

  lemma TallyNext(due: seq<Copy>, n: nat, core: Core, canDeliver: bool, sum: Tally)
    requires n < |due| && TallyOf(due[..n], core, canDeliver) == Some(sum)
    ensures TallyOf(due[..n + 1], core, canDeliver) ==
            match core.judge(due[n], false)
            case None => None
            case Some(j) => Some(TallyOne(sum, due[n], ActOn(due[n], j, canDeliver)))
  {
    assert due[..n + 1][..n] == due[..n];
  }

  lemma {:induction false} FirstFailureStops(due: seq<Copy>, n: nat, core: Core, canDeliver: bool)
    requires n <= |due| && TallyOf(due[..n], core, canDeliver) == None
    ensures TallyOf(due, core, canDeliver) == None
    decreases |due| - n
  {
    if n < |due| {
      assert due[..n + 1][..n] == due[..n];
      FirstFailureStops(due, n + 1, core, canDeliver);
    } else {
      assert due[..n] == due;
    }
  }

  predicate Comes(t: Copy, core: Core, canDeliver: bool, act: Act) {
    core.judge(t, false).Some? && ActOn(t, core.judge(t, false).value, canDeliver) == act
  }

  /** Some due row of that id comes to that. */
  ghost predicate SomeComes(due: seq<Copy>, core: Core, canDeliver: bool, id: string, act: Act) {
    exists k :: 0 <= k < |due| && due[k].id == id && Comes(due[k], core, canDeliver, act)
  }

  lemma SomeComesNext(due: seq<Copy>, core: Core, canDeliver: bool, id: string, act: Act)
    requires due != []
    ensures var n := |due| - 1;
            SomeComes(due, core, canDeliver, id, act) <==>
            SomeComes(due[..n], core, canDeliver, id, act) || (due[n].id == id && Comes(due[n], core, canDeliver, act))
  {
    var n := |due| - 1;
    if SomeComes(due, core, canDeliver, id, act) {
      var k :| 0 <= k < |due| && due[k].id == id && Comes(due[k], core, canDeliver, act);
      assert k < n ==> due[..n][k] == due[k];
    }
    if SomeComes(due[..n], core, canDeliver, id, act) {
      var k :| 0 <= k < n && due[..n][k].id == id && Comes(due[..n][k], core, canDeliver, act);
      assert due[k] == due[..n][k];
    }
  }

  /** It moves exactly the rows whose verdict fires or expires them, each counted once. */
  ghost predicate MovesByVerdicts(sum: Tally, due: seq<Copy>, core: Core, canDeliver: bool) {
    (forall id :: MovesAs(sum.settled, due, core, canDeliver, id)) && sum.fired + sum.expired == |sum.settled|
  }

  ghost predicate MovesAs(settled: map<string, bool>, due: seq<Copy>, core: Core, canDeliver: bool, id: string) {
    && (id in settled && settled[id] <==> SomeComes(due, core, canDeliver, id, Leave(Fired)))
    && (id in settled && !settled[id] <==> SomeComes(due, core, canDeliver, id, Leave(Expired)))
  }

  lemma OneMoreMove(before: Tally, due: seq<Copy>, core: Core, canDeliver: bool, act: Act)
    requires due != [] && MovesByVerdicts(before, due[..|due| - 1], core, canDeliver)
    requires Comes(due[|due| - 1], core, canDeliver, act) && act != Leave(Armed)
    requires due[|due| - 1].id !in before.settled
    ensures MovesByVerdicts(TallyOne(before, due[|due| - 1], act), due, core, canDeliver)
  {
    var after := TallyOne(before, due[|due| - 1], act);
    forall id
      ensures MovesAs(after.settled, due, core, canDeliver, id)
    {
      assert MovesAs(before.settled, due[..|due| - 1], core, canDeliver, id);
      SomeComesNext(due, core, canDeliver, id, Leave(Fired));
      SomeComesNext(due, core, canDeliver, id, Leave(Expired));
      hide SomeComes, ActOn;
    }
  }

  /** What the loop comes to, row by row: beside the rows it moves, it parks exactly those to plan again. */
  lemma {:induction false} TheTallyIsTheVerdicts(due: seq<Copy>, core: Core, canDeliver: bool, sum: Tally)
    requires DistinctIds(due) && TallyOf(due, core, canDeliver) == Some(sum)
    ensures MovesByVerdicts(sum, due, core, canDeliver) && SettledAre(sum.settled, due)
    ensures forall s :: s in sum.stale <==> s.armed && s.t in due && Comes(s.t, core, canDeliver, Park)
  {
    if due != [] {
      var n := |due| - 1;
      var t, before := due[n], TallyOf(due[..n], core, canDeliver).value;
      var act := ActOn(t, core.judge(t, false).value, canDeliver);
      TheTallyIsTheVerdicts(due[..n], core, canDeliver, before);
      assert due == due[..n] + [t] && due[..n + 1] == due && sum == TallyOne(before, t, act);
      NotSettledYet(before.settled, due, n);
      OneMoreSettled(before.settled, due, n, sum.settled);
      NoRowIsLeftArmed(t, core.judge(t, false).value, canDeliver);
      OneMoreMove(before, due, core, canDeliver, act);
      hide DistinctIds, ActOn, SettledAre, MovesByVerdicts, TallyOf;
    }
  }

  datatype TimerTally = TimerTally(fired: nat, cancelled: nat)

  function TimerTallyOf(due: seq<Timer>, core: Core): TimerTally {
    if due == [] then TimerTally(0, 0)
    else
      var sum := TimerTallyOf(due[..|due| - 1], core);
      match TimerTransition(core.timer(due[|due| - 1]))
      case Some(TimerFired) => sum.(fired := sum.fired + 1)
      case Some(Cancelled) => sum.(cancelled := sum.cancelled + 1)
      case _ => sum
  }

  /** The timers the verdicts fire, in order. */
  function RingingOf(due: seq<Timer>, core: Core): seq<string> {
    if due == [] then []
    else
      var t := due[|due| - 1];
      RingingOf(due[..|due| - 1], core) + if TimerTransition(core.timer(t)) == Some(TimerFired) then [t.id] else []
  }

  lemma TimerNext(due: seq<Timer>, n: nat, core: Core)
    requires n < |due|
    ensures var sum := TimerTallyOf(due[..n], core);
            TimerTallyOf(due[..n + 1], core) ==
            match TimerTransition(core.timer(due[n]))
            case Some(TimerFired) => sum.(fired := sum.fired + 1)
            case Some(Cancelled) => sum.(cancelled := sum.cancelled + 1)
            case _ => sum
    ensures RingingOf(due[..n + 1], core) ==
            RingingOf(due[..n], core) +
            if TimerTransition(core.timer(due[n])) == Some(TimerFired) then [due[n].id] else []
  {
    assert due[..n + 1][..n] == due[..n];
  }

  /** Each timer with a verdict that moves it has moved as the verdict says. */
  ghost predicate TimersMoved(rows: map<string, TimerRow>, due: seq<Timer>, core: Core) {
    forall k :: 0 <= k < |due| && TimerTransition(core.timer(due[k])).Some? ==>
      due[k].id in rows && rows[due[k].id].status == TimerTransition(core.timer(due[k])).value
  }

  /** What the pass did with the rows it moved out of armed: fired ones are fired or further, expired ones over. */
  ghost predicate Moved(rows: map<string, Row>, settled: map<string, bool>) {
    forall id :: id in settled ==>
      id in rows && if settled[id] then rows[id].Rank() >= 1 else rows[id].status == Expired
  }

  lemma NoneMoved(rows: map<string, Row>)
    ensures Moved(rows, map[]) && SettledAre(map[], []) && FiredAreQueued(map[], [])
  {
  }

  /** What the pass moved are rows it went through. */
  ghost predicate SettledAre(settled: map<string, bool>, due: seq<Copy>) {
    forall id :: id in settled ==> id in Ids(due)
  }

  lemma NotSettledYet(settled: map<string, bool>, due: seq<Copy>, n: nat)
    requires n < |due| && DistinctIds(due) && SettledAre(settled, due[..n])
    ensures due[n].id !in settled
  {
  }

  lemma OneMoreSettled(settled: map<string, bool>, due: seq<Copy>, n: nat, after: map<string, bool>)
    requires n < |due| && SettledAre(settled, due[..n])
    requires forall id :: id in after ==> id in settled || id == due[n].id
    ensures SettledAre(after, due[..n + 1])
  {
    assert due[..n + 1] == due[..n] + [due[n]];
    IdsNext(due[..n], due[n]);
  }

  /** The queue holds exactly what the pass fired. */
  ghost predicate FiredAreQueued(settled: map<string, bool>, queue: seq<Copy>) {
    forall id :: id in Ids(queue) <==> id in settled && settled[id]
  }

  lemma NotQueued(settled: map<string, bool>, queue: seq<Copy>, id: string)
    requires FiredAreQueued(settled, queue) && id !in settled
    ensures id !in Ids(queue)
  {
  }

  lemma FiredNext(rows: map<string, Row>, after: map<string, Row>, settled: map<string, bool>, queue: seq<Copy>, t: Copy,
                  fired: nat)
    requires Grows(rows, after) && Moved(rows, settled) && FiredAreQueued(settled, queue) && fired <= 1
    requires fired == 1 ==> t.id in after && after[t.id].Rank() >= 1
    ensures Moved(after, if fired == 1 then settled[t.id := true] else settled)
    ensures FiredAreQueued(if fired == 1 then settled[t.id := true] else settled, queue + if fired == 1 then [t] else [])
  {
    IdsNext(queue, t);
    assert queue + [] == queue;
  }

  lemma ExpiredNext(rows: map<string, Row>, after: map<string, Row>, settled: map<string, bool>, queue: seq<Copy>,
                    id: string, done: bool)
    requires Grows(rows, after) && Moved(rows, settled) && FiredAreQueued(settled, queue) && id !in settled
    requires done ==> id in after && after[id].status == Expired
    ensures Moved(after, if done then settled[id := false] else settled)
    ensures FiredAreQueued(if done then settled[id := false] else settled, queue)
  {
  }

  lemma IdsGrow(queue: seq<Copy>, t: Copy)
    ensures Ids(queue + [t]) == Ids(queue) + [t.id] && Ids(queue + []) == Ids(queue) + []
  {
  }

  lemma NoIds()
    ensures Ids([]) == [] && DistinctIds([])
  {
  }

  lemma NoTimers(rows: map<string, TimerRow>, core: Core)
    ensures TimersMoved(rows, [], core) && TimerTallyOf([], core) == TimerTally(0, 0) && RingingOf([], core) == []
    ensures TimersGrow(rows, rows)
  {
  }

  lemma TimerMoved(rows: map<string, TimerRow>, after: map<string, TimerRow>, due: seq<Timer>, n: nat, core: Core)
    requires n < |due| && TimersGrow(rows, after)
    requires var to := TimerTransition(core.timer(due[n]));
             to.Some? ==> due[n].id in after && after[due[n].id].status == to.value
    ensures TimersMoved(rows, due[..n], core) ==> TimersMoved(after, due[..n + 1], core)
  {
  }

  lemma TimerLeft(first: map<string, TimerRow>, rows: map<string, TimerRow>, after: map<string, TimerRow>,
                  due: seq<Timer>)
    requires TimersGrow(first, rows) && TimersGrow(rows, after)
    requires forall k :: 0 <= k < |due| ==> due[k].id in rows
    ensures TimersGrow(first, after)
    ensures forall k :: 0 <= k < |due| ==> due[k].id in after
  {
  }

  lemma TimersStay(rows: map<string, TimerRow>)
    ensures TimersGrow(rows, rows)
  {
  }

  lemma RungNext(first: seq<string>, before: seq<string>, after: seq<string>, due: seq<Timer>, n: nat, core: Core,
                 canDeliver: bool)
    requires n < |due|
    requires before == first + if canDeliver then RingingOf(due[..n], core) else []
    requires after == before +
               if canDeliver && TimerTransition(core.timer(due[n])) == Some(TimerFired) then [due[n].id] else []
    ensures after == first + if canDeliver then RingingOf(due[..n + 1], core) else []
  {
    TimerNext(due, n, core);
  }

  lemma Rings(rows: map<string, TimerRow>, after: map<string, TimerRow>, sent: seq<string>, id: string)
    requires TimersOnce(rows, sent) && TimersOnce(after, sent)
    requires id in rows && rows[id].status == Pending && id in after && after[id].status != Pending
    ensures TimersOnce(after, sent + [id]) && TimersOnce(after, sent + [])
  {
  }

  // ---- what a scan read, and what its report comes to ----

  /** What the parts of one scan read, each all the rows there were to read at its moment. */
  datatype Trail = Trail(due: seq<Copy>, timers: seq<Timer>, undelivered: seq<Copy>, digest: DigestTrail)

  datatype DigestTrail = DigestTrail(open: seq<Copy>, reasks: seq<Copy>, pending: seq<Copy>)

  /** What one scan did, in counts. */
  datatype Report = Report(triggersDue: nat, timersDue: nat, fired: nat, delivered: nat, expired: nat, lapsed: nat,
                           timersFired: nat, timersCancelled: nat, carried: nat)

  const NOTHING_DONE := Report(0, 0, 0, 0, 0, 0, 0, 0, 0)

  /** The counts of rows and timers are what the verdicts alone say of what was read. */
  ghost predicate Previews(r: Report, trail: Trail, core: Core, canDeliver: bool) {
    && TallyOf(trail.due, core, canDeliver).Some?
    && r.triggersDue == |trail.due| && r.timersDue == |trail.timers|
    && r.fired == TallyOf(trail.due, core, canDeliver).value.fired
    && r.timersFired == TimerTallyOf(trail.timers, core).fired
    && r.timersCancelled == TimerTallyOf(trail.timers, core).cancelled
    && var stale := StaleRows(trail, core, canDeliver);
      && r.expired == TallyOf(trail.due, core, canDeliver).value.expired + CountArmed(Plannable(stale, core))
      && r.lapsed == |Plannable(stale, core)| - CountArmed(Plannable(stale, core)) + |PastOf(trail.digest.pending, core)|
  }

  /** The stale rows of a scan that can speak: those its due loop parked, then the late and superseded undelivered. */
  function StaleRows(trail: Trail, core: Core, canDeliver: bool): seq<StaleRow> {
    if !canDeliver || TallyOf(trail.due, core, canDeliver).None? then []
    else TallyOf(trail.due, core, canDeliver).value.stale + StaleOf(trail.undelivered, core)
  }

  /** The rows queued again. */
  function Retries(trail: Trail, core: Core, canDeliver: bool, unmarked: set<string>): seq<Copy> {
    if !canDeliver || TallyOf(trail.due, core, canDeliver).None? then []
    else RetryOf(trail.undelivered, core, TallyOf(trail.due, core, canDeliver).value.settled, unmarked)
  }

  predicate FiredBy(trail: Trail, core: Core, canDeliver: bool, id: string) {
    && TallyOf(trail.due, core, canDeliver).Some?
    && var settled := TallyOf(trail.due, core, canDeliver).value.settled;
      id in settled && settled[id]
  }

  /** The reminders in the messages are those the verdicts fire and those queued again, and no others. */
  ghost predicate AllAreTried(trail: Trail, core: Core, canDeliver: bool, unmarked: set<string>,
                              tried: seq<seq<string>>) {
    forall id :: TriedIn(tried, id) <==>
      FiredBy(trail, core, canDeliver, id) || id in Ids(Retries(trail, core, canDeliver, unmarked))
  }

  function UnitKey(t: Copy): string {
    match t.row.unit
    case None => ""
    case Some(u) => u
  }

  /** The rows of the unit, or those of the others, in order. */
  function RowsOf(stale: seq<StaleRow>, unit: string, wanted: bool): seq<StaleRow> {
    if stale == [] then []
    else
      var last := stale[|stale| - 1];
      RowsOf(stale[..|stale| - 1], unit, wanted) + if (UnitKey(last.t) == unit) == wanted then [last] else []
  }

  method SplitByUnit(stale: seq<StaleRow>, unit: string) returns (group: seq<StaleRow>, rest: seq<StaleRow>)
    ensures group == RowsOf(stale, unit, true) && rest == RowsOf(stale, unit, false)
  {
    group, rest := [], [];
    for n := 0 to |stale|
      invariant group == RowsOf(stale[..n], unit, true) && rest == RowsOf(stale[..n], unit, false)
    {
      assert stale[..n + 1][..n] == stale[..n];
      if UnitKey(stale[n].t) == unit {
        group := group + [stale[n]];
      } else {
        rest := rest + [stale[n]];
      }
    }
    assert stale[..|stale|] == stale;
  }

  /** The rows of a unit and the others are all the rows, each once. */
  lemma {:induction false} SplitIsWhole(stale: seq<StaleRow>, unit: string)
    ensures multiset(RowsOf(stale, unit, true)) + multiset(RowsOf(stale, unit, false)) == multiset(stale)
    ensures |RowsOf(stale, unit, true)| + |RowsOf(stale, unit, false)| == |stale|
  {
    if stale != [] {
      var n := |stale| - 1;
      SplitIsWhole(stale[..n], unit);
      assert stale == stale[..n] + [stale[n]];
      RowsOfLast(stale, unit, true);
      RowsOfLast(stale, unit, false);
      hide RowsOf;
    }
  }

  lemma RowsOfLast(stale: seq<StaleRow>, unit: string, wanted: bool)
    requires stale != []
    ensures var n := |stale| - 1;
            var last := if (UnitKey(stale[n].t) == unit) == wanted then [stale[n]] else [];
            && |RowsOf(stale, unit, wanted)| == |RowsOf(stale[..n], unit, wanted)| + |last|
            && multiset(RowsOf(stale, unit, wanted)) == multiset(RowsOf(stale[..n], unit, wanted)) + multiset(last)
  {
  }

  lemma {:induction false} SplitByKey(stale: seq<StaleRow>, unit: string, wanted: bool)
    ensures forall x :: x in RowsOf(stale, unit, wanted) ==> x in stale && ((UnitKey(x.t) == unit) == wanted)
    ensures stale != [] && UnitKey(stale[0].t) == unit && wanted ==> RowsOf(stale, unit, wanted) != []
  {
    if stale != [] {
      var n := |stale| - 1;
      SplitByKey(stale[..n], unit, wanted);
      assert forall x :: x in stale[..n] ==> x in stale;
      assert n > 0 ==> stale[..n][0] == stale[0];
    }
  }

  /** What the re-plan step makes of the rows that were fired and never reached the user: the late and the
      superseded are stale, the deliverable are queued again unless this pass or this process already had them. */
  function StaleOf(undelivered: seq<Copy>, core: Core): seq<StaleRow> {
    if undelivered == [] then []
    else
      var t := undelivered[|undelivered| - 1];
      StaleOf(undelivered[..|undelivered| - 1], core) + if Pushed(t.row) && IsStale(core.judge(t,
          true)) then [StaleRow(t, false)] else []
  }

  function RetryOf(undelivered: seq<Copy>, core: Core, settled: map<string, bool>, unmarked: set<string>): seq<Copy> {
    if undelivered == [] then []
    else
      var t := undelivered[|undelivered| - 1];
      RetryOf(undelivered[..|undelivered| - 1], core, settled, unmarked)
      + if IsDeliverable(core.judge(t, true)) && t.id !in settled && Retried(t.row, t.id, unmarked) then [t] else []
  }

  predicate IsStale(j: Option<Judgment>) {
    j.Some? && j.value.verdict == Stale && j.value.reason != Passed
  }

  predicate IsDeliverable(j: Option<Judgment>) {
    j.Some? && j.value.verdict == DeliverNow
  }

  lemma UndeliveredNext(undelivered: seq<Copy>, k: nat, core: Core, settled: map<string, bool>, unmarked: set<string>)
    requires k < |undelivered|
    ensures var t := undelivered[k];
            && StaleOf(undelivered[..k + 1], core)
               == StaleOf(undelivered[..k], core) + (if Pushed(t.row) &&
                 IsStale(core.judge(t, true)) then [StaleRow(t, false)] else [])
            && RetryOf(undelivered[..k + 1], core, settled, unmarked)
               == RetryOf(undelivered[..k], core, settled, unmarked)
                  + (if IsDeliverable(core.judge(t, true)) && t.id !in settled &&
                    Retried(t.row, t.id, unmarked) then [t] else [])
  {
    assert undelivered[..k + 1][..k] == undelivered[..k];
  }

  function CountArmed(rows: seq<StaleRow>): nat {
    if rows == [] then 0 else CountArmed(rows[..|rows| - 1]) + if rows[|rows| - 1].armed then 1 else 0
  }

  /** The stale rows whose units can be planned for. */
  function Plannable(stale: seq<StaleRow>, core: Core): seq<StaleRow> {
    if stale == [] then []
    else
      var s := stale[|stale| - 1];
      Plannable(stale[..|stale| - 1], core) + if Held(core.unreadable, UnitKey(s.t)) then [] else [s]
  }

  lemma {:induction false} PlannableAre(stale: seq<StaleRow>, core: Core)
    ensures forall s :: s in Plannable(stale, core) <==> s in stale && !Held(core.unreadable, UnitKey(s.t))
  {
    if stale != [] {
      PlannableAre(stale[..|stale| - 1], core);
      assert stale == stale[..|stale| - 1] + [stale[|stale| - 1]];
    }
  }

  /** Taking one unit out of the worklist takes out its rows, or nothing when it is held. */
  lemma {:induction false} PlannableSplits(left: seq<StaleRow>, unit: string, core: Core)
    ensures var group := if Held(core.unreadable, unit) then [] else RowsOf(left, unit, true);
            var rest := Plannable(RowsOf(left, unit, false), core);
            && |Plannable(left, core)| == |group| + |rest|
            && CountArmed(Plannable(left, core)) == CountArmed(group) + CountArmed(rest)
  {
    if left != [] {
      hide RowsOf, Plannable, CountArmed, UnitKey;
      var n := |left| - 1;
      var s, before := left[n], left[..n];
      assert left == before + [s];
      PlannableSplits(before, unit, core);
      RowsOfNext(before, s, unit);
      PlannableNext(before, s, core);
      PlannableNext(RowsOf(before, unit, false), s, core);
      ArmedNext(RowsOf(before, unit, true), s);
    }
  }

  lemma RowsOfNext(before: seq<StaleRow>, s: StaleRow, unit: string)
    ensures var (group, rest) := (RowsOf(before, unit, true), RowsOf(before, unit, false));
            && RowsOf(before + [s], unit, true) == (if UnitKey(s.t) == unit then group + [s] else group)
            && RowsOf(before + [s], unit, false) == (if UnitKey(s.t) == unit then rest else rest + [s])
  {
  }

  lemma PlannableNext(before: seq<StaleRow>, s: StaleRow, core: Core)
    ensures var one := if Held(core.unreadable, UnitKey(s.t)) then 0 else 1;
            && |Plannable(before + [s], core)| == |Plannable(before, core)| + one
            && CountArmed(Plannable(before + [s], core)) == CountArmed(Plannable(before, core)) +
                if s.armed then one else 0
  {
    assert (before + [s])[..|before|] == before && Plannable(before, core) + [] == Plannable(before, core);
    ArmedNext(Plannable(before, core), s);
  }

  lemma NoneArmed(core: Core)
    ensures CountArmed([]) == 0 && Plannable([], core) == []
  {
  }

  lemma ArmedNext(rows: seq<StaleRow>, s: StaleRow)
    ensures CountArmed(rows + [s]) == CountArmed(rows) + if s.armed then 1 else 0
  {
  }

  lemma {:induction false} ArmedAreSome(rows: seq<StaleRow>)
    ensures CountArmed(rows) <= |rows|
  {
    if rows != [] {
      ArmedAreSome(rows[..|rows| - 1]);
    }
  }

  lemma NoneUndelivered(core: Core, settled: map<string, bool>, unmarked: set<string>)
    ensures StaleOf([], core) == [] && RetryOf([], core, settled, unmarked) == []
  {
  }

  /** Every row retired is over. */
  ghost predicate Ended(rows: map<string, Row>, stale: seq<StaleRow>) {
    forall k :: 0 <= k < |stale| ==> stale[k].t.id in rows && rows[stale[k].t.id].status == Expired
  }

  lemma EndedStays(rows: map<string, Row>, after: map<string, Row>, stale: seq<StaleRow>)
    requires Ended(rows, stale) && Grows(rows, after)
    ensures Ended(after, stale)
  {
  }

  lemma NoneEnded(rows: map<string, Row>)
    ensures Ended(rows, [])
  {
  }

  lemma EndedNext(rows: map<string, Row>, after: map<string, Row>, group: seq<StaleRow>, k: nat)
    requires k < |group| && Grows(rows, after)
    ensures var id := group[k].t.id;
            Ended(rows, group[..k]) && id in after && after[id].status == Expired ==> Ended(after, group[..k + 1])
  {
  }

  /** None of the units in the worklist was planned yet. */
  ghost predicate NotPlanned(events: seq<Event>, left: seq<StaleRow>) {
    forall k :: 0 <= k < |left| ==> Planned(UnitKey(left[k].t)) !in events
  }

  /** Part way through the worklist: the rows gone through whose units are not held are over. */
  ghost predicate EndedBut(rows: map<string, Row>, stale: seq<StaleRow>, left: seq<StaleRow>, core: Core) {
    forall k :: 0 <= k < |stale| && stale[k] !in left && !Held(core.unreadable, UnitKey(stale[k].t)) ==>
      stale[k].t.id in rows && rows[stale[k].t.id].status == Expired
  }

  /** One unit taken out of the worklist: nothing of it is left, its rows are over unless it is held, and the other
      units are as they were. */
  lemma OneUnitOn(stale: seq<StaleRow>, left: seq<StaleRow>, unit: string, core: Core, rows: map<string, Row>,
                  after: map<string, Row>, events: seq<Event>, events': seq<Event>)
    requires left != [] && unit == UnitKey(left[0].t) && Grows(rows, after)
    requires NotPlanned(events, left)
    requires forall e :: e in events' ==> e in events || e == Planned(unit) || e.Retired?
    ensures NotPlanned(events', RowsOf(left, unit, false)) && |RowsOf(left, unit, false)| < |left|
    ensures EndedBut(rows, stale, left, core) && (!Held(core.unreadable, unit) ==>
                                                  Ended(after, RowsOf(left, unit, true))) ==>
              EndedBut(after, stale, RowsOf(left, unit, false), core)
  {
    var group, rest := RowsOf(left, unit, true), RowsOf(left, unit, false);
    SplitIsWhole(left, unit);
    SplitByKey(left, unit, true);
    SplitByKey(left, unit, false);
    hide RowsOf;
    forall k | 0 <= k < |rest|
      ensures Planned(UnitKey(rest[k].t)) !in events'
    {
      assert rest[k] in rest && rest[k] in left;
    }
    if EndedBut(rows, stale, left, core) && (!Held(core.unreadable, unit) ==> Ended(after, group)) {
      forall k | 0 <= k < |stale| && stale[k] !in rest && !Held(core.unreadable, UnitKey(stale[k].t))
        ensures stale[k].t.id in after && after[stale[k].t.id].status == Expired
      {
        if stale[k] in left {
          assert stale[k] in multiset(left);
          assert stale[k] in multiset(group) + multiset(rest);
          assert stale[k] in group;
        }
      }
    }
  }

  lemma NothingPlanned(events: seq<Event>, stale: seq<StaleRow>, rows: map<string, Row>, core: Core)
    requires events == []
    ensures NotPlanned(events, stale) && EndedBut(rows, stale, stale, core) && PlanTrace(events, core.unreadable)
  {
  }

  lemma FirstIsNotPlanned(events: seq<Event>, left: seq<StaleRow>)
    requires left != [] && NotPlanned(events, left)
    ensures Planned(UnitKey(left[0].t)) !in events
  {
  }

  lemma NothingToPlan(events: seq<Event>)
    ensures PlannedBefore(events, |events|, "")
  {
  }

  lemma AllGoneThrough(rows: map<string, Row>, stale: seq<StaleRow>, core: Core)
    requires EndedBut(rows, stale, [], core)
    ensures Ended(rows, Plannable(stale, core))
  {
  }

  // ---- the digest's rows ----

  /** The fired, unseen rows a digest may carry: not pushes, and not stale. */
  function KeptOf(pending: seq<Copy>, core: Core): seq<Copy> {
    if pending == [] then []
    else
      var t := pending[|pending| - 1];
      KeptOf(pending[..|pending| - 1], core)
      + if core.judge(t, true).Some? && core.judge(t, true).value.verdict != Stale && !Pushed(t.row) then [t] else []
  }

  /** Those whose event is past, to lapse. A late or superseded one is the re-plan's. */
  function PastOf(pending: seq<Copy>, core: Core): seq<StaleRow> {
    if pending == [] then []
    else
      var t := pending[|pending| - 1];
      PastOf(pending[..|pending| - 1], core)
      + if core.judge(t, true) == Some(Judgment(Stale, Passed)) then [StaleRow(t, false)] else []
  }

  /** Of the rows fired and unseen, which the re-plan step takes for stale, and which it queues again. */
  lemma {:induction false} UndeliveredAre(undelivered: seq<Copy>, core: Core, settled: map<string, bool>,
                                          unmarked: set<string>)
    ensures forall s :: s in StaleOf(undelivered, core) <==>
              !s.armed && s.t in undelivered && Pushed(s.t.row) && IsStale(core.judge(s.t, true))
    ensures forall t :: t in RetryOf(undelivered, core, settled, unmarked) <==>
              && t in undelivered && IsDeliverable(core.judge(t, true))
              && t.id !in settled && Retried(t.row, t.id, unmarked)
  {
    if undelivered != [] {
      var n := |undelivered| - 1;
      UndeliveredAre(undelivered[..n], core, settled, unmarked);
      assert undelivered == undelivered[..n] + [undelivered[n]];
    }
  }

  /** And which the digest carries, and which it lapses. */
  lemma {:induction false} PendingAre(pending: seq<Copy>, core: Core)
    ensures forall t :: t in KeptOf(pending, core) <==>
              t in pending && core.judge(t, true).Some? && core.judge(t, true).value.verdict != Stale && !Pushed(t.row)
    ensures forall s :: s in PastOf(pending, core) <==>
              !s.armed && s.t in pending && core.judge(s.t, true) == Some(Judgment(Stale, Passed))
  {
    if pending != [] {
      var n := |pending| - 1;
      PendingAre(pending[..n], core);
      assert pending == pending[..n] + [pending[n]];
    }
  }

  /** A fired row nobody saw has one place at most: pushed again, planned again, carried by the digest or lapsed by it. */
  lemma AnUnseenRowHasOnePlace(rows: seq<Copy>, core: Core, settled: map<string, bool>, unmarked: set<string>, t: Copy)
    requires t in rows && core.judge(t, true).Some?
    ensures var places := [t in RetryOf(rows, core, settled, unmarked), StaleRow(t, false) in StaleOf(rows, core),
                           t in KeptOf(rows, core), StaleRow(t, false) in PastOf(rows, core)];
            forall i, j :: 0 <= i < j < 4 ==> !(places[i] && places[j])
    // and one that is deliverable or past has one, unless this pass or this process had it already
    ensures var j := core.judge(t, true).value;
            && (j == Judgment(Stale, Passed) ==> StaleRow(t, false) in PastOf(rows, core))
            && (j.verdict == DeliverNow && !Pushed(t.row) ==> t in KeptOf(rows, core))
            && (j.verdict == DeliverNow && Pushed(t.row) && t.row.Rank() == 1 ==>
                  t in RetryOf(rows, core, settled, unmarked) || t.id in settled || t.id in unmarked)
  {
    UndeliveredAre(rows, core, settled, unmarked);
    PendingAre(rows, core);
    hide RetryOf, StaleOf, KeptOf, PastOf;
  }
}
