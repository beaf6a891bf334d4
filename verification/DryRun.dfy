/**
 What a dry run of a due scan foretells (internal/brain/check.go, CheckRequest;
 internal/brain/reminder_step.go, replan; internal/brain/reminder_gate.go,
 judge). It reads the rows as they are; a scan that writes reads the undelivered
 after its own due loop and the digest's rows after its own push. So the two
 differ in two things, both about late and superseded reminders: a row the scan
 fires is judged again as a fired one, and may be stale then; and a fired row
 that names no event is judged by its unit's armed reminders, which the due loop
 may just have moved on.
 */
module DryRun {
  import opened Options
  import opened Stores
  import opened DueTally
  import opened PassTrace
  import opened PushQueue
  import opened PushLedger
  import opened DigestPass
  import opened PassResult
  import DigestText
  import RowOrder

  // ---- counting, whatever the order ----

  function Filter<T>(xs: seq<T>, keep: T -> bool): seq<T> {
    if xs == [] then []
    else Filter(xs[..|xs| - 1], keep) + if keep(xs[|xs| - 1]) then [xs[|xs| - 1]] else []
  }

  predicate NoTwice<T(==)>(xs: seq<T>) {
    forall i, j :: 0 <= i < j < |xs| ==> xs[i] != xs[j]
  }

  function Those<T>(xs: seq<T>, keep: T -> bool): set<T> {
    set x | x in xs && keep(x)
  }

  lemma {:induction false} FilterCounts<T>(xs: seq<T>, keep: T -> bool)
    requires NoTwice(xs)
    ensures |Filter(xs, keep)| == |Those(xs, keep)|
  {
    if xs == [] {
      assert Those(xs, keep) == {};
    } else {
      var before, x := xs[..|xs| - 1], xs[|xs| - 1];
      FilterCounts(before, keep);
      assert xs == before + [x];
      assert Those(xs, keep) == Those(before, keep) + if keep(x) then {x} else {};
      assert x !in before;
    }
  }

  lemma SameCounts<T>(xs: seq<T>, ys: seq<T>, keep: T -> bool)
    requires NoTwice(xs) && NoTwice(ys) && forall x :: x in xs <==> x in ys
    ensures |Filter(xs, keep)| == |Filter(ys, keep)|
  {
    FilterCounts(xs, keep);
    FilterCounts(ys, keep);
    assert Those(xs, keep) == Those(ys, keep);
  }

  // ---- the counts of a scan ----

  function Comers(core: Core, canDeliver: bool, act: Act): Copy -> bool {
    (t: Copy) => Comes(t, core, canDeliver, act)
  }

  /** Stale before its event, and its unit can be planned for. */
  function Parked(core: Core, canDeliver: bool): Copy -> bool {
    (t: Copy) => Comes(t, core, canDeliver, Park) && !Held(core.unreadable, UnitKey(t))
  }

  /** An undelivered push the re-plan step lapses. */
  predicate LapsedByPlan(t: Copy, core: Core) {
    Pushed(t.row) && IsStale(core.judge(t, true)) && !Held(core.unreadable, UnitKey(t))
  }

  function PlanLapses(core: Core): Copy -> bool {
    (t: Copy) => LapsedByPlan(t, core)
  }

  /** A row whose event is past, which the digest lapses. */
  function DigestLapses(core: Core): Copy -> bool {
    (t: Copy) => core.judge(t, true) == Some(Judgment(Stale, Passed))
  }

  function Rung(core: Core, to: TimerStatus): Timer -> bool {
    (t: Timer) => TimerTransition(core.timer(t)) == Some(to)
  }

  lemma FilterNext<T>(xs: seq<T>, keep: T -> bool)
    requires xs != []
    ensures |Filter(xs, keep)| == |Filter(xs[..|xs| - 1], keep)| + if keep(xs[|xs| - 1]) then 1 else 0
  {
  }

  /** The counts of the due loop are of the rows its verdicts fire, expire and park. */
  ghost predicate CountsOf(sum: Tally, due: seq<Copy>, core: Core, canDeliver: bool) {
    && sum.fired == |Filter(due, Comers(core, canDeliver, Leave(Fired)))|
    && sum.expired == |Filter(due, Comers(core, canDeliver, Leave(Expired)))|
    && |Plannable(sum.stale, core)| == CountArmed(Plannable(sum.stale, core)) == |Filter(due, Parked(core, canDeliver))|
  }

  lemma {:induction false} TallyCounts(due: seq<Copy>, core: Core, canDeliver: bool, sum: Tally)
    requires TallyOf(due, core, canDeliver) == Some(sum)
    ensures CountsOf(sum, due, core, canDeliver)
  {
    if due != [] {
      var n := |due| - 1;
      var before := TallyOf(due[..n], core, canDeliver).value;
      TallyCounts(due[..n], core, canDeliver, before);
      var act := ActOn(due[n], core.judge(due[n], false).value, canDeliver);
      NoRowIsLeftArmed(due[n], core.judge(due[n], false).value, canDeliver);
      assert sum == TallyOne(before, due[n], act) && Comes(due[n], core, canDeliver, act);
      hide TallyOf, ActOn, CountsOf, TallyOne;
      CountNext(before, due, core, canDeliver, act);
    }
  }

  lemma CountNext(before: Tally, due: seq<Copy>, core: Core, canDeliver: bool, act: Act)
    requires due != [] && CountsOf(before, due[..|due| - 1], core, canDeliver)
    requires Comes(due[|due| - 1], core, canDeliver, act) && act != Leave(Armed)
    ensures CountsOf(TallyOne(before, due[|due| - 1], act), due, core, canDeliver)
  {
    hide Filter, Plannable, CountArmed, ActOn, Comers, Parked, Comes, Held, UnitKey;
    var t := due[|due| - 1];
    FilterNext(due, Comers(core, canDeliver, Leave(Fired)));
    FilterNext(due, Comers(core, canDeliver, Leave(Expired)));
    FilterNext(due, Parked(core, canDeliver));
    OneAct(t, core, canDeliver, act);
    PlannableNext(before.stale, StaleRow(t, true), core);
  }

  /** A row comes to one thing only. */
  lemma OneAct(t: Copy, core: Core, canDeliver: bool, act: Act)
    requires Comes(t, core, canDeliver, act)
    ensures Comers(core, canDeliver, Leave(Fired))(t) == (act == Leave(Fired))
    ensures Comers(core, canDeliver, Leave(Expired))(t) == (act == Leave(Expired))
    ensures Parked(core, canDeliver)(t) == (act == Park && !Held(core.unreadable, UnitKey(t)))
  {
    hide ActOn, Held;
  }

  lemma {:induction false} PlanCounts(parked: seq<StaleRow>, undelivered: seq<Copy>, core: Core)
    ensures var stale := Plannable(parked + StaleOf(undelivered, core), core);
            && |stale| == |Plannable(parked, core)| + |Filter(undelivered, PlanLapses(core))|
            && CountArmed(stale) == CountArmed(Plannable(parked, core))
  {
    if undelivered == [] {
      assert parked + StaleOf(undelivered, core) == parked;
    } else {
      PlanCounts(parked, undelivered[..|undelivered| - 1], core);
      FilterNext(undelivered, PlanLapses(core));
      hide Filter, Plannable, CountArmed;
      OneMoreStale(parked, undelivered, core);
    }
  }

  lemma OneMoreStale(parked: seq<StaleRow>, undelivered: seq<Copy>, core: Core)
    requires undelivered != []
    ensures var t, before := undelivered[|undelivered| - 1], StaleOf(undelivered[..|undelivered| - 1], core);
            var stale := parked + StaleOf(undelivered, core);
            && |Plannable(stale, core)| == |Plannable(parked + before, core)| + (if LapsedByPlan(t, core) then 1 else 0)
            && CountArmed(Plannable(stale, core)) == CountArmed(Plannable(parked + before, core))
  {
    var t, before := undelivered[|undelivered| - 1], StaleOf(undelivered[..|undelivered| - 1], core);
    var s := StaleRow(t, false);
    PlannableNext(parked + before, s, core);
    hide Plannable, CountArmed;
    if Pushed(t.row) && IsStale(core.judge(t, true)) {
      assert parked + StaleOf(undelivered, core) == parked + before + [s];
    } else {
      assert parked + StaleOf(undelivered, core) == parked + before;
    }
  }

  lemma {:induction false} PastCounts(pending: seq<Copy>, core: Core)
    ensures |PastOf(pending, core)| == |Filter(pending, DigestLapses(core))|
  {
    if pending != [] {
      PastCounts(pending[..|pending| - 1], core);
    }
  }

  lemma {:induction false} TimerCounts(due: seq<Timer>, core: Core)
    ensures TimerTallyOf(due, core).fired == |Filter(due, Rung(core, TimerFired))|
    ensures TimerTallyOf(due, core).cancelled == |Filter(due, Rung(core, Cancelled))|
  {
    if due != [] {
      TimerCounts(due[..|due| - 1], core);
    }
  }

  // ---- how rows are judged ----

  /** What the gate makes of a row by its own event, and which rows name one: in the payload, by a lead or a rule. */
  datatype Gate = Gate(judge: (Copy, bool) -> Option<Judgment>, names: string -> bool)

  predicate NamesNone(gate: Gate, t: Copy) {
    t.row.rule.None? && !gate.names(t.id)
  }

  /** The unit of t has a one-shot armed. */
  predicate HasArmed(rows: map<string, Row>, t: Copy) {
    t.row.unit.Some? && exists id | id in rows :: ArmedOneShot(rows[id], t.row.unit)
  }

  predicate ArmedOneShot(row: Row, unit: Option<string>) {
    row.status == Armed && row.rule.None? && row.unit == unit
  }

  /** A fired row that names no event is superseded when its unit has a one-shot armed, unless its event is past, which it
      is or is not whatever is armed. */
  function JudgeFired(gate: Gate, rows: map<string, Row>, t: Copy): Option<Judgment> {
    var j := gate.judge(t, true);
    if j.Some? && j != Some(Judgment(Stale, Passed)) && NamesNone(gate, t) && HasArmed(rows, t)
    then Some(Judgment(Stale, Superseded)) else j
  }

  /** A scan whose judgments of fired rows read these. */
  function Judging(core: Core, gate: Gate, rows: map<string, Row>): (judging: Core)
    ensures forall t :: judging.judge(t, false) == gate.judge(t, false)
    ensures forall t :: judging.judge(t, true) == JudgeFired(gate, rows, t)
    ensures judging == core.(judge := judging.judge)
  {
    core.(judge := (t, fired) => if fired then JudgeFired(gate, rows, t) else gate.judge(t, false))
  }

  /** Its digest, which judges later, would make the same of any rows at any other time: one judgment of a fired row
      serves a scan. */
  lemma {:induction false} TheDigestJudgesAlike(core: Core, gate: Gate, rows: map<string, Row>, late: map<string, Row>,
                                                pending: seq<Copy>)
    ensures KeptOf(pending, Judging(core, gate, rows)) == KeptOf(pending, Judging(core, gate, late))
    ensures PastOf(pending, Judging(core, gate, rows)) == PastOf(pending, Judging(core, gate, late))
  {
    if pending != [] {
      var n := |pending| - 1;
      TheDigestJudgesAlike(core, gate, rows, late, pending[..n]);
      JudgedAlike(core, gate, rows, late, pending[n]);
      hide Judging, HasArmed;
    }
  }

  /** What does not depend on the rows: how an armed row is judged, and of a fired one whether its event is past and
      whether a digest may carry it. */
  lemma JudgedAlike(core: Core, gate: Gate, rows: map<string, Row>, late: map<string, Row>, t: Copy)
    ensures var a, b := Judging(core, gate, rows), Judging(core, gate, late);
            && a.judge(t, false) == b.judge(t, false)
            && (a.judge(t, true) == Some(Judgment(Stale, Passed)) <==> b.judge(t, true) == Some(Judgment(Stale, Passed)))
            && (Keeps(t, a) <==> Keeps(t, b))
  {
    hide HasArmed, Judging;
    assert NamesNone(gate, t) ==> Pushed(t.row);
  }

  /** Two scans that judge alike but for fired rows, of which the second finds no more superseded. */
  ghost predicate Eases(a: Core, b: Core) {
    && a.timer == b.timer && a.unreadable == b.unreadable
    && (forall t :: a.judge(t, false) == b.judge(t, false) && (Keeps(t, a) <==> Keeps(t, b)))
    && (forall t :: DigestLapses(a)(t) <==> DigestLapses(b)(t))
    && forall t :: EasesAt(a, b, t)
  }

  ghost predicate EasesAt(a: Core, b: Core, t: Copy) {
    (LapsedByPlan(t, b) ==> LapsedByPlan(t, a)) &&
      (IsDeliverable(a.judge(t, true)) ==> IsDeliverable(b.judge(t, true)))
  }

  lemma TheScanEases(core: Core, gate: Gate, rows: map<string, Row>, middle: map<string, Row>,
                     settled: map<string, bool>)
    requires AfterDueLoop(rows, middle, settled)
    ensures Eases(Judging(core, gate, rows), Judging(core, gate, middle))
  {
    var a, b := Judging(core, gate, rows), Judging(core, gate, middle);
    forall t: Copy
      ensures a.judge(t, false) == b.judge(t, false) && (Keeps(t, a) <==> Keeps(t, b))
      ensures DigestLapses(a)(t) <==> DigestLapses(b)(t)
      ensures EasesAt(a, b, t)
    {
      JudgedAlike(core, gate, rows, middle, t);
      FewerAreArmed(rows, middle, settled, t);
      hide HasArmed, AfterDueLoop;
    }
    hide Judging, Keeps, DigestLapses, EasesAt, AfterDueLoop;
  }

  lemma FewerAreArmed(rows: map<string, Row>, middle: map<string, Row>, settled: map<string, bool>, t: Copy)
    requires AfterDueLoop(rows, middle, settled)
    ensures HasArmed(middle, t) <==>
            t.row.unit.Some? && exists id :: id in rows && ArmedOneShot(rows[id], t.row.unit) && id !in settled
    ensures HasArmed(middle, t) ==> HasArmed(rows, t)
  {
    forall id
      ensures id in middle && ArmedOneShot(middle[id], t.row.unit) <==>
              id in rows && ArmedOneShot(rows[id], t.row.unit) && id !in settled
    {
      if id in rows {
        assert middle[id] == MovedBy(rows[id], id, settled);
      }
    }
  }

  /** An undelivered row that only a dry run finds superseded. */
  function Freed(dry: Core, wet: Core): Copy -> bool {
    (t: Copy) => LapsedByPlan(t, dry) && !LapsedByPlan(t, wet)
  }

  /** And of these, or of those only a dry run cannot send for it, the ones the scan sends. */
  function FreedAndSent(dry: Core, wet: Core, unmarked: set<string>): Copy -> bool {
    (t: Copy) => Retried(t.row, t.id, unmarked) && IsDeliverable(wet.judge(t, true)) &&
                 !IsDeliverable(dry.judge(t, true))
  }

  /** Such a row names no event and is not late by itself, its unit can be planned for, and every one-shot its unit has
      armed, of which there is one, is one the due loop fires or expires. */
  lemma ARowIsFreedExactlyWhen(core: Core, gate: Gate, rows: map<string, Row>, middle: map<string, Row>,
                               settled: map<string, bool>, unmarked: set<string>, t: Copy)
    requires AfterDueLoop(rows, middle, settled)
    ensures var dry, wet := Judging(core, gate, rows), Judging(core, gate, middle);
            var frees := && NamesNone(gate, t) && HasArmed(rows, t)
                         && forall id :: id in rows && ArmedOneShot(rows[id], t.row.unit) ==> id in settled;
            var j := gate.judge(t, true);
            && (Freed(dry, wet)(t) <==>
                  frees && j.Some? && j.value.verdict != Stale && !Held(core.unreadable, UnitKey(t)))
            && (FreedAndSent(dry, wet, unmarked)(t) <==> frees && IsDeliverable(j) && Retried(t.row, t.id, unmarked))
  {
    FewerAreArmed(rows, middle, settled, t);
    assert NamesNone(gate, t) ==> Pushed(t.row);
    assert HasArmed(rows, t) ==> t.row.unit.Some?;
    hide AfterDueLoop, HasArmed, UnitKey, Judging, ArmedOneShot, Retried;
  }

  /** And a row is stale once fired that is late by itself then, or that names no event and whose unit has another one-shot
      the due loop leaves armed. */
  lemma ARowIsStaleOnceFiredExactlyWhen(core: Core, gate: Gate, rows: map<string, Row>, middle: map<string, Row>,
                                        settled: map<string, bool>, canDeliver: bool, t: Copy)
    requires AfterDueLoop(rows, middle, settled)
    ensures var u := AsFired(t);
            var j := gate.judge(u, true);
            var newer := && NamesNone(gate, t) && t.row.unit.Some?
                         && exists id :: id in rows && ArmedOneShot(rows[id], t.row.unit) && id !in settled;
            FiredThenPlanned(Judging(core, gate, middle), canDeliver)(t) <==>
              && canDeliver && FiredUnseen(t, Judging(core, gate, middle), canDeliver) && Pushed(t.row)
              && !Held(core.unreadable, UnitKey(t))
              && (IsStale(j) || (newer && j.Some? && j != Some(Judgment(Stale, Passed))))
  {
    FewerAreArmed(rows, middle, settled, AsFired(t));
    hide AfterDueLoop, HasArmed, UnitKey, Judging, FiredUnseen;
    assert UnitKey(AsFired(t)) == UnitKey(t) by {
      SameUnit(t);
    }
  }

  lemma SameUnit(t: Copy)
    ensures UnitKey(AsFired(t)) == UnitKey(t)
  {
  }

  // ---- what the two read, nobody else writing ----

  /** A row the due loop fires, as it is then. */
  function AsFired(t: Copy): Copy {
    Copy(t.id, t.row.(status := Fired))
  }

  function MovedBy(row: Row, id: string, settled: map<string, bool>): Row {
    if id in settled then row.(status := if settled[id] then Fired else Expired) else row
  }

  /** The rows after the scan's own due loop: those it settled have moved, and what is new is the next occurrence of one
      that recurs, armed. */
  ghost predicate AfterDueLoop(rows: map<string, Row>, after: map<string, Row>, settled: map<string, bool>) {
    && (forall id :: id in rows ==> id in after && after[id] == MovedBy(rows[id], id, settled))
    && (forall id :: id in after && id !in rows ==> after[id].status == Armed && after[id].rule.Some?)
  }

  /** And at its digest: what was unseen still is, but for rows it retired or said by then, and nothing else is. */
  ghost predicate AfterPush(rows: map<string, Row>, after: map<string, Row>, gone: set<string>) {
    && (forall id :: id in after && Unseen(after[id]) ==> id in rows && rows[id] == after[id] && id !in gone)
    && (forall id :: id in rows && Unseen(rows[id]) && id !in gone ==> id in after && after[id] == rows[id])
  }

  /** What a dry run reads: the rows and timers as they are. */
  ghost predicate DryReads(rows: map<string, Row>, timers: map<string, TimerRow>, trail: Trail, now: int,
                           canDeliver: bool, digests: bool) {
    && Found(rows, trail.due, DueBy(now)) && TimersFound(timers, trail.timers, now)
    && (if canDeliver then Found(rows, trail.undelivered, Unseen) else trail.undelivered == [])
    && (if digests then Found(rows, trail.digest.pending, Unseen) else trail.digest.pending == [])
  }

  /** What a scan that writes reads of the same rows and timers: the undelivered after its due loop, and the digest's
      rows after its push. What is gone by then it retired, or said in a message. */
  ghost predicate WetReads(rows: map<string, Row>, timers: map<string, TimerRow>, trail: Trail, core: Core, now: int,
                           canDeliver: bool, digests: bool, tried: seq<seq<string>>, middle: map<string, Row>,
                           late: map<string, Row>, gone: set<string>) {
    && Found(rows, trail.due, DueBy(now)) && TimersFound(timers, trail.timers, now)
    && TallyOf(trail.due, core, canDeliver).Some?
    && AfterDueLoop(rows, middle, TallyOf(trail.due, core, canDeliver).value.settled)
    && (if canDeliver then Found(middle, trail.undelivered, Unseen) else trail.undelivered == [])
    && AfterPush(middle, late, gone)
    && (if digests then Found(late, trail.digest.pending, Unseen) else trail.digest.pending == [])
    && forall id :: id in gone ==> canDeliver && (TriedIn(tried, id) || RetiredBy(trail, core, canDeliver, id))
  }

  /** A stale row of the scan, of a unit that can be planned for. */
  ghost predicate RetiredBy(trail: Trail, core: Core, canDeliver: bool, id: string) {
    exists s :: s in Plannable(StaleRows(trail, core, canDeliver), core) && s.t.id == id
  }

  predicate FiredUnseen(t: Copy, core: Core, canDeliver: bool) {
    Comes(t, core, canDeliver, Leave(Fired)) && Unseen(AsFired(t).row)
  }

  /** A row the scan fires and its re-plan step then lapses. */
  function FiredThenPlanned(core: Core, canDeliver: bool): Copy -> bool {
    (t: Copy) => canDeliver && FiredUnseen(t, core, canDeliver) && LapsedByPlan(AsFired(t), core)
  }

  /** A row the scan fires, could not say, and its digest then lapses. */
  function FiredThenPast(core: Core, canDeliver: bool, digests: bool, gone: set<string>): Copy -> bool {
    (t: Copy) => digests && FiredUnseen(t, core, canDeliver) && t.id !in gone && DigestLapses(core)(AsFired(t))
  }

  /** A row the scan lapses though it has just fired it. */
  function LapsedAsFired(core: Core, canDeliver: bool, digests: bool, gone: set<string>): Copy -> bool {
    (t: Copy) => FiredThenPlanned(core, canDeliver)(t) || FiredThenPast(core, canDeliver, digests, gone)(t)
  }

  lemma CopiesAreApart(copies: seq<Copy>)
    requires DistinctIds(copies)
    ensures NoTwice(copies)
  {
  }

  lemma TimersAreApart(rows: map<string, TimerRow>, due: seq<Timer>, now: int)
    requires TimersFound(rows, due, now)
    ensures NoTwice(due)
  {
  }

  lemma SameFound(rows: map<string, Row>, a: seq<Copy>, b: seq<Copy>, keep: Row -> bool)
    requires Found(rows, a, keep) && Found(rows, b, keep)
    ensures NoTwice(a) && NoTwice(b) && forall t :: t in a <==> t in b
  {
    assert forall t :: t in a <==> t.id in rows && t.row == rows[t.id] && keep(t.row);
    assert forall t :: t in b <==> t.id in rows && t.row == rows[t.id] && keep(t.row);
  }

  /** What is unseen after the due loop: what was before, and what it fired. */
  lemma UnseenThen(rows: map<string, Row>, middle: map<string, Row>, due: seq<Copy>, core: Core, now: int,
                   canDeliver: bool, sum: Tally, id: string)
    requires Found(rows, due, DueBy(now)) && TallyOf(due, core, canDeliver) == Some(sum)
    requires AfterDueLoop(rows, middle, sum.settled)
    ensures id in middle && Unseen(middle[id]) <==>
            || (id in rows && Unseen(rows[id]))
            || (id in rows && Copy(id, rows[id]) in due && Comes(Copy(id, rows[id]), core, canDeliver, Leave(Fired))
                && Unseen(AsFired(Copy(id, rows[id])).row))
    ensures id in rows && Unseen(rows[id]) ==> id in middle && middle[id] == rows[id]
    ensures id in rows && Copy(id, rows[id]) in due && Comes(Copy(id, rows[id]), core, canDeliver, Leave(Fired)) ==>
              id in middle && middle[id] == AsFired(Copy(id, rows[id])).row
  {
    TheTallyIsTheVerdicts(due, core, canDeliver, sum);
    assert MovesAs(sum.settled, due, core, canDeliver, id);
    SomeIs(rows, due, now, core, canDeliver, id, Leave(Fired));
    hide TallyOf, Comes;
  }

  lemma SomeIs(rows: map<string, Row>, due: seq<Copy>, now: int, core: Core, canDeliver: bool, id: string, act: Act)
    requires Found(rows, due, DueBy(now))
    ensures SomeComes(due, core, canDeliver, id, act) <==>
            id in rows && Copy(id, rows[id]) in due && Comes(Copy(id, rows[id]), core, canDeliver, act)
    ensures forall t :: t in due ==> t.id in rows && t.row == rows[t.id] && t.row.status == Armed
    ensures id in Ids(due) <==> id in rows && Copy(id, rows[id]) in due
  {
    hide Comes;
    if id in rows && Copy(id, rows[id]) in due {
      var k :| 0 <= k < |due| && due[k] == Copy(id, rows[id]);
      assert Ids(due)[k] == id;
    }
  }

  lemma {:induction false} ImageCounts(some: set<Copy>)
    requires forall a, b :: a in some && b in some && a.id == b.id ==> a == b
    ensures |set t | t in some :: AsFired(t)| == |some|
  {
    if some != {} {
      var t :| t in some;
      var rest := some - {t};
      ImageCounts(rest);
      var image := set u | u in rest :: AsFired(u);
      assert (set u | u in some :: AsFired(u)) == image + {AsFired(t)};
      assert forall u :: u in rest ==> AsFired(u).id != t.id;
      assert AsFired(t) !in image;
    }
  }

  /** The rows of `after` with that verdict: those of `before`, and those just fired. */
  lemma JoinCounts(after: seq<Copy>, before: seq<Copy>, due: seq<Copy>, keep: Copy -> bool, joins: Copy -> bool)
    requires NoTwice(after) && NoTwice(before) && DistinctIds(due)
    requires forall t :: t in after && keep(t) ==> t in before || exists u :: u in due && joins(u) && t == AsFired(u)
    requires forall t :: t in before && keep(t) ==> t in after
    requires forall u :: u in due && joins(u) ==> AsFired(u) in after && keep(AsFired(u)) && AsFired(u) !in before
    ensures |Filter(after, keep)| == |Filter(before, keep)| + |Filter(due, joins)|
  {
    CopiesAreApart(due);
    FilterCounts(after, keep);
    FilterCounts(before, keep);
    FilterCounts(due, joins);
    hide Filter, NoTwice;
    ImageCounts(Those(due, joins));
    Joined(after, before, due, keep, joins);
  }

  lemma Joined(after: seq<Copy>, before: seq<Copy>, due: seq<Copy>, keep: Copy -> bool, joins: Copy -> bool)
    requires forall t :: t in after && keep(t) ==> t in before || exists u :: u in due && joins(u) && t == AsFired(u)
    requires forall t :: t in before && keep(t) ==> t in after
    requires forall u :: u in due && joins(u) ==> AsFired(u) in after && keep(AsFired(u)) && AsFired(u) !in before
    ensures var image := set t | t in Those(due, joins) :: AsFired(t);
            Those(after, keep) == Those(before, keep) + image && Those(before, keep) !! image
  {
    var image := set t | t in Those(due, joins) :: AsFired(t);
    forall t
      ensures t in Those(after, keep) <==> t in Those(before, keep) || t in image
      ensures !(t in Those(before, keep) && t in image)
    {
      if t in after && keep(t) && t !in before {
        var u :| u in due && joins(u) && t == AsFired(u);
        assert u in Those(due, joins);
      }
    }
  }

  lemma UndeliveredCounts(rows: map<string, Row>, middle: map<string, Row>, due: seq<Copy>, before: seq<Copy>,
                          after: seq<Copy>, core: Core, now: int, sum: Tally)
    requires Found(rows, due, DueBy(now)) && TallyOf(due, core, true) == Some(sum)
    requires AfterDueLoop(rows, middle, sum.settled)
    requires Found(rows, before, Unseen) && Found(middle, after, Unseen)
    ensures |Filter(after, PlanLapses(core))| ==
            |Filter(before, PlanLapses(core))| + |Filter(due, FiredThenPlanned(core, true))|
  {
    SameFound(rows, before, before, Unseen);
    SameFound(middle, after, after, Unseen);
    forall id
      ensures JoinsAt(rows, due, before, after, PlanLapses(core), FiredThenPlanned(core, true), id)
    {
      UnseenThen(rows, middle, due, core, now, true, sum, id);
      hide TallyOf, Comes, AfterDueLoop, Found, Unseen, JoinsAt;
      UndeliveredAt(rows, middle, due, before, after, core, now, id);
    }
    hide TallyOf, Comes, LapsedByPlan, AfterDueLoop, JoinsAt;
    JoinAll(rows, due, before, after, PlanLapses(core), FiredThenPlanned(core, true));
  }

  lemma CopiesAt(rows: map<string, Row>, copies: seq<Copy>, keep: Row -> bool, id: string)
    requires Found(rows, copies, keep)
    ensures forall t :: t in copies && t.id == id ==> id in rows && t.row == rows[id] && keep(t.row)
    ensures id in rows && keep(rows[id]) ==> Copy(id, rows[id]) in copies
  {
  }

  lemma UndeliveredAt(rows: map<string, Row>, middle: map<string, Row>, due: seq<Copy>, before: seq<Copy>,
                      after: seq<Copy>, core: Core, now: int, id: string)
    requires Found(rows, due, DueBy(now)) && Found(rows, before, Unseen) && Found(middle, after, Unseen)
    requires var fires := id in rows && Copy(id, rows[id]) in due && FiredUnseen(Copy(id, rows[id]), core, true);
             && (id in middle && Unseen(middle[id]) <==> fires || (id in rows && Unseen(rows[id])))
             && (id in rows && Unseen(rows[id]) ==> id in middle && middle[id] == rows[id])
             && (fires ==> id in middle && middle[id] == AsFired(Copy(id, rows[id])).row)
    ensures JoinsAt(rows, due, before, after, PlanLapses(core), FiredThenPlanned(core, true), id)
  {
    CopiesAt(rows, before, Unseen, id);
    CopiesAt(middle, after, Unseen, id);
    CopiesAt(rows, due, DueBy(now), id);
    hide Found, Comes, LapsedByPlan;
  }

  /** At one id: what is kept after is kept before or joins. */
  ghost predicate JoinsAt(rows: map<string, Row>, due: seq<Copy>, before: seq<Copy>, after: seq<Copy>,
                          keep: Copy -> bool, joins: Copy -> bool, id: string) {
    && (forall t :: t in after && t.id == id && keep(t) ==>
         t in before || (id in rows && var u := Copy(id, rows[id]); u in due && joins(u) && t == AsFired(u)))
    && (forall t :: t in before && t.id == id && keep(t) ==> t in after)
    && (forall u :: u in due && u.id == id && joins(u) ==>
         AsFired(u) in after && keep(AsFired(u)) && AsFired(u) !in before)
  }

  lemma JoinAll(rows: map<string, Row>, due: seq<Copy>, before: seq<Copy>, after: seq<Copy>,
                keep: Copy -> bool, joins: Copy -> bool)
    requires NoTwice(after) && NoTwice(before) && DistinctIds(due)
    requires forall id :: JoinsAt(rows, due, before, after, keep, joins, id)
    ensures |Filter(after, keep)| == |Filter(before, keep)| + |Filter(due, joins)|
  {
    forall t | t in after && keep(t)
      ensures t in before || exists u :: u in due && joins(u) && t == AsFired(u)
    {
      assert JoinsAt(rows, due, before, after, keep, joins, t.id);
    }
    forall t | t in before && keep(t)
      ensures t in after
    {
      assert JoinsAt(rows, due, before, after, keep, joins, t.id);
    }
    forall u | u in due && joins(u)
      ensures AsFired(u) in after && keep(AsFired(u)) && AsFired(u) !in before
    {
      assert JoinsAt(rows, due, before, after, keep, joins, u.id);
    }
    JoinCounts(after, before, due, keep, joins);
  }

  lemma PendingCounts(rows: map<string, Row>, middle: map<string, Row>, late: map<string, Row>, gone: set<string>,
                      due: seq<Copy>, before: seq<Copy>, after: seq<Copy>, core: Core, now: int, canDeliver: bool,
                      sum: Tally)
    requires Found(rows, due, DueBy(now)) && TallyOf(due, core, canDeliver) == Some(sum)
    requires AfterDueLoop(rows, middle, sum.settled) && AfterPush(middle, late, gone)
    requires Found(rows, before, Unseen) && Found(late, after, Unseen)
    requires forall t :: t in before && DigestLapses(core)(t) ==> t.id !in gone
    ensures |Filter(after, DigestLapses(core))| ==
            |Filter(before, DigestLapses(core))| + |Filter(due, FiredThenPast(core, canDeliver, true, gone))|
  {
    SameFound(rows, before, before, Unseen);
    SameFound(late, after, after, Unseen);
    forall id
      ensures JoinsAt(rows, due, before, after, DigestLapses(core), FiredThenPast(core, canDeliver, true, gone), id)
    {
      UnseenThen(rows, middle, due, core, now, canDeliver, sum, id);
      hide TallyOf, Comes, AfterDueLoop, AfterPush, Found, Unseen, JoinsAt;
      PendingAt(rows, middle, late, gone, due, before, after, core, now, canDeliver, DigestLapses(core),
                FiredThenPast(core, canDeliver, true, gone), id);
    }
    hide TallyOf, Comes, AfterDueLoop, AfterPush, JoinsAt;
    JoinAll(rows, due, before, after, DigestLapses(core), FiredThenPast(core, canDeliver, true, gone));
  }

  lemma PendingAt(rows: map<string, Row>, middle: map<string, Row>, late: map<string, Row>, gone: set<string>,
                  due: seq<Copy>, before: seq<Copy>, after: seq<Copy>, core: Core, now: int, canDeliver: bool,
                  keep: Copy -> bool, joins: Copy -> bool, id: string)
    requires Found(rows, due, DueBy(now)) && AfterPush(middle, late, gone)
    requires Found(rows, before, Unseen) && Found(late, after, Unseen)
    requires forall t :: t in before && keep(t) ==> t.id !in gone
    requires forall t :: joins(t) <==> FiredUnseen(t, core, canDeliver) && t.id !in gone && keep(AsFired(t))
    requires var fires := id in rows && Copy(id, rows[id]) in due && FiredUnseen(Copy(id, rows[id]), core, canDeliver);
             && (id in middle && Unseen(middle[id]) <==> fires || (id in rows && Unseen(rows[id])))
             && (id in rows && Unseen(rows[id]) ==> id in middle && middle[id] == rows[id])
             && (fires ==> id in middle && middle[id] == AsFired(Copy(id, rows[id])).row)
    ensures JoinsAt(rows, due, before, after, keep, joins, id)
  {
    CopiesAt(rows, before, Unseen, id);
    CopiesAt(late, after, Unseen, id);
    CopiesAt(rows, due, DueBy(now), id);
    hide Found, Comes;
  }

  /** A row unseen before the scan whose event is past is neither retired by it as late nor said by it. */
  lemma PastIsNotGone(rows: map<string, Row>, middle: map<string, Row>, trail: Trail, core: Core, now: int,
                      unmarked: set<string>, tried: seq<seq<string>>, t: Copy)
    requires Found(rows, trail.due, DueBy(now)) && TallyOf(trail.due, core, true).Some?
    requires AfterDueLoop(rows, middle, TallyOf(trail.due, core, true).value.settled)
    requires Found(middle, trail.undelivered, Unseen) && AllAreTried(trail, core, true, unmarked, tried)
    requires t.id in rows && rows[t.id] == t.row && Unseen(t.row) && core.judge(t, true) == Some(Judgment(Stale, Passed))
    ensures !TriedIn(tried, t.id) && !RetiredBy(trail, core, true, t.id)
  {
    var sum := TallyOf(trail.due, core, true).value;
    TheTallyIsTheVerdicts(trail.due, core, true, sum);
    assert MovesAs(sum.settled, trail.due, core, true, t.id);
    SomeIs(rows, trail.due, now, core, true, t.id, Leave(Fired));
    UnseenThen(rows, middle, trail.due, core, now, true, sum, t.id);
    UndeliveredAre(trail.undelivered, core, sum.settled, unmarked);
    PlannableAre(StaleRows(trail, core, true), core);
    InIds(Retries(trail, core, true, unmarked), t.id);
    hide TallyOf, RetryOf, StaleOf, Plannable, TriedIn, AfterDueLoop, Comes, Ids;
    assert forall u :: u in trail.undelivered && u.id == t.id ==> u == t;
  }

  lemma NothingGone(rows: map<string, Row>, timers: map<string, TimerRow>, trail: Trail, core: Core, now: int,
                    canDeliver: bool, digests: bool, unmarked: set<string>, tried: seq<seq<string>>,
                    middle: map<string, Row>, late: map<string, Row>, gone: set<string>, before: seq<Copy>)
    requires WetReads(rows, timers, trail, core, now, canDeliver, digests, tried, middle, late, gone)
    requires canDeliver ==> AllAreTried(trail, core, true, unmarked, tried)
    requires Found(rows, before, Unseen)
    ensures forall t :: t in before && DigestLapses(core)(t) ==> t.id !in gone
  {
    forall t | t in before && DigestLapses(core)(t)
      ensures t.id !in gone
    {
      if canDeliver {
        PastIsNotGone(rows, middle, trail, core, now, unmarked, tried, t);
      }
    }
  }

  /** The counts of a report, by the rows its verdicts name. */
  lemma ReportCounts(r: Report, trail: Trail, core: Core, canDeliver: bool)
    requires Previews(r, trail, core, canDeliver) && (!canDeliver ==> trail.undelivered == [])
    ensures r.triggersDue == |trail.due| && r.timersDue == |trail.timers|
    ensures r.fired == |Filter(trail.due, Comers(core, canDeliver, Leave(Fired)))|
    ensures r.expired == |Filter(trail.due, Comers(core, canDeliver, Leave(Expired)))|
                         + |Filter(trail.due, Parked(core, canDeliver))|
    ensures r.lapsed == |Filter(trail.undelivered, PlanLapses(core))|
                        + |Filter(trail.digest.pending, DigestLapses(core))|
    ensures r.timersFired == |Filter(trail.timers, Rung(core, TimerFired))|
    ensures r.timersCancelled == |Filter(trail.timers, Rung(core, Cancelled))|
  {
    var sum := TallyOf(trail.due, core, canDeliver).value;
    TallyCounts(trail.due, core, canDeliver, sum);
    PlanCounts(sum.stale, trail.undelivered, core);
    PastCounts(trail.digest.pending, core);
    TimerCounts(trail.timers, core);
    if !canDeliver {
      NoneParked(trail.due, core);
      NoneArmed(core);
    }
    hide TallyOf, Filter, Plannable, CountArmed, PastOf, StaleOf, TimerTallyOf;
  }

  lemma {:induction false} NoneParked(due: seq<Copy>, core: Core)
    ensures Filter(due, Parked(core, false)) == []
  {
    if due != [] {
      NoneParked(due[..|due| - 1], core);
    }
  }

  // ---- which reminders are said ----

  /** The reminders of some message. */
  function SaidIn(tried: seq<seq<string>>): set<string> {
    set i, j | 0 <= i < |tried| && 0 <= j < |tried[i]| :: tried[i][j]
  }

  lemma {:induction false} ApartSize(ids: seq<string>)
    requires Apart(ids)
    ensures |SetOf(ids)| == |ids|
  {
    if ids == [] {
      assert SetOf(ids) == {};
    } else {
      var n := |ids| - 1;
      ApartSize(ids[..n]);
      assert SetOf(ids) == SetOf(ids[..n]) + {ids[n]} by {
        assert forall k :: 0 <= k < n ==> ids[..n][k] == ids[k];
      }
      assert ids[n] !in SetOf(ids[..n]);
    }
  }

  lemma {:induction false} FilterIsApart(copies: seq<Copy>, keep: Copy -> bool)
    requires DistinctIds(copies)
    ensures DistinctIds(Filter(copies, keep))
    ensures forall t :: t in Filter(copies, keep) <==> t in copies && keep(t)
  {
    if copies != [] {
      var n := |copies| - 1;
      FilterIsApart(copies[..n], keep);
      assert copies == copies[..n] + [copies[n]];
      var before := Filter(copies[..n], keep);
      assert forall k :: 0 <= k < |before| ==> before[k] in copies[..n];
    }
  }

  /** Deliverable, and not remembered as sent. */
  function SentAgain(core: Core, settled: map<string, bool>, unmarked: set<string>): Copy -> bool {
    (t: Copy) => IsDeliverable(core.judge(t, true)) && t.id !in settled && Retried(t.row, t.id, unmarked)
  }

  lemma {:induction false} RetryIsFilter(undelivered: seq<Copy>, core: Core, settled: map<string, bool>,
                                         unmarked: set<string>)
    ensures RetryOf(undelivered, core, settled, unmarked) == Filter(undelivered, SentAgain(core, settled, unmarked))
  {
    if undelivered != [] {
      RetryIsFilter(undelivered[..|undelivered| - 1], core, settled, unmarked);
    }
  }

  /** A reminder fires by the verdicts exactly when a due row of that id does. */
  lemma FiresByVerdict(rows: map<string, Row>, trail: Trail, core: Core, now: int, canDeliver: bool, id: string)
    requires Found(rows, trail.due, DueBy(now)) && TallyOf(trail.due, core, canDeliver).Some?
    ensures FiredBy(trail, core, canDeliver, id) <==>
            id in rows && Copy(id, rows[id]) in trail.due && Comes(Copy(id, rows[id]), core, canDeliver, Leave(Fired))
    ensures id in rows && Unseen(rows[id]) ==> id !in TallyOf(trail.due, core, canDeliver).value.settled
  {
    var sum := TallyOf(trail.due, core, canDeliver).value;
    TheTallyIsTheVerdicts(trail.due, core, canDeliver, sum);
    assert MovesAs(sum.settled, trail.due, core, canDeliver, id);
    SomeIs(rows, trail.due, now, core, canDeliver, id, Leave(Fired));
    hide TallyOf, Comes;
  }

  /** And is queued again exactly when it is read unseen before the scan, deliverable and not remembered. */
  lemma QueuedAgain(rows: map<string, Row>, trail: Trail, core: Core, now: int, unmarked: set<string>,
                    undelivered: seq<Copy>, id: string)
    requires Found(rows, trail.due, DueBy(now)) && TallyOf(trail.due, core, true).Some?
    requires Found(rows, undelivered, Unseen)
    requires forall t: Copy :: t.id == id && id !in TallyOf(trail.due, core, true).value.settled ==>
               (t in trail.undelivered <==> t in undelivered)
    ensures id in Ids(Retries(trail, core, true, unmarked)) <==>
            exists t :: t in undelivered && t.id == id && SentAgain(core, map[], unmarked)(t)
  {
    var settled := TallyOf(trail.due, core, true).value.settled;
    FiresByVerdict(rows, trail, core, now, true, id);
    UndeliveredAre(trail.undelivered, core, settled, unmarked);
    InIds(Retries(trail, core, true, unmarked), id);
    assert forall t :: t in undelivered && t.id == id ==> id in rows && t.row == rows[id] && Unseen(rows[id]);
    hide TallyOf, RetryOf, StaleOf, Ids, Found;
  }

  /** What a dry run counts as delivered: the rows due that fire, and the undelivered that are sent again. */
  function Foretold(trail: Trail, core: Core, canDeliver: bool, unmarked: set<string>): seq<string> {
    Ids(Filter(trail.due, Comers(core, canDeliver, Leave(Fired)))) + Ids(Retries(trail, core, canDeliver, unmarked))
  }

  lemma ForetoldAre(rows: map<string, Row>, trail: Trail, core: Core, now: int, unmarked: set<string>)
    requires Found(rows, trail.due, DueBy(now)) && TallyOf(trail.due, core, true).Some?
    requires Found(rows, trail.undelivered, Unseen)
    ensures |Foretold(trail, core, true, unmarked)| ==
            |Filter(trail.due, Comers(core, true, Leave(Fired)))| + |Retries(trail, core, true, unmarked)|
    ensures |SetOf(Foretold(trail, core, true, unmarked))| == |Foretold(trail, core, true, unmarked)|
    ensures forall id :: id in SetOf(Foretold(trail, core, true, unmarked)) <==>
              FiredBy(trail, core, true, id) || id in Ids(Retries(trail, core, true, unmarked))
  {
    var settled := TallyOf(trail.due, core, true).value.settled;
    var fires := Comers(core, true, Leave(Fired));
    var fired, retries := Filter(trail.due, fires), Retries(trail, core, true, unmarked);
    FilterIsApart(trail.due, fires);
    RetryIsFilter(trail.undelivered, core, settled, unmarked);
    FilterIsApart(trail.undelivered, SentAgain(core, settled, unmarked));
    forall id
      ensures id in Ids(fired) <==> FiredBy(trail, core, true, id)
      ensures id in Ids(fired) ==> id !in Ids(retries)
    {
      FiresByVerdict(rows, trail, core, now, true, id);
      SomeIs(rows, trail.due, now, core, true, id, Leave(Fired));
      InIds(fired, id);
      InIds(retries, id);
      hide TallyOf, RetryOf, Ids, Filter, Comes, Found;
    }
    hide TallyOf, RetryOf, Filter, Found;
    JoinedApart(fired, retries);
    ApartSize(Foretold(trail, core, true, unmarked));
    InEither(Ids(fired), Ids(retries));
  }

  lemma JoinedApart(a: seq<Copy>, b: seq<Copy>)
    requires DistinctIds(a) && DistinctIds(b) && forall id :: id in Ids(a) ==> id !in Ids(b)
    ensures Apart(Ids(a) + Ids(b))
  {
    var ids := Ids(a) + Ids(b);
    forall i, j | 0 <= i < j < |ids|
      ensures ids[i] != ids[j]
    {
      if i < |a| <= j {
        assert Ids(b)[j - |a|] == ids[j] && ids[i] == Ids(a)[i] && Ids(a)[i] in Ids(a);
      } else if j < |a| {
        assert ids[i] == a[i].id && ids[j] == a[j].id;
      } else {
        assert ids[i] == b[i - |a|].id && ids[j] == b[j - |a|].id;
      }
    }
  }

  lemma InEither(a: seq<string>, b: seq<string>)
    ensures forall id :: id in SetOf(a + b) <==> id in a || id in b
  {
    assert forall k :: 0 <= k < |a| ==> (a + b)[k] == a[k];
    assert forall k :: 0 <= k < |b| ==> (a + b)[|a| + k] == b[k];
  }

  /** Both fire and send again the same reminders. */
  lemma SameSaid(rows: map<string, Row>, middle: map<string, Row>, d: Trail, w: Trail, core: Core, now: int,
                 unmarked: set<string>, id: string)
    requires Found(rows, d.due, DueBy(now)) && Found(rows, w.due, DueBy(now))
    requires TallyOf(d.due, core, true).Some? && TallyOf(w.due, core, true).Some?
    requires Found(rows, d.undelivered, Unseen)
    requires AfterDueLoop(rows, middle, TallyOf(w.due, core, true).value.settled) && Found(middle, w.undelivered, Unseen)
    ensures FiredBy(w, core, true, id) <==> FiredBy(d, core, true, id)
    ensures id in Ids(Retries(w, core, true, unmarked)) <==> id in Ids(Retries(d, core, true, unmarked))
  {
    FiresByVerdict(rows, d, core, now, true, id);
    FiresByVerdict(rows, w, core, now, true, id);
    SameFound(rows, d.due, w.due, DueBy(now));
    QueuedAgain(rows, d, core, now, unmarked, d.undelivered, id);
    forall t: Copy | t.id == id && id !in TallyOf(w.due, core, true).value.settled
      ensures t in w.undelivered <==> t in d.undelivered
    {
      assert t in w.undelivered <==> id in middle && middle[id] == t.row && Unseen(t.row);
      assert t in d.undelivered <==> id in rows && rows[id] == t.row && Unseen(t.row);
    }
    QueuedAgain(rows, w, core, now, unmarked, d.undelivered, id);
  }

  /** What a dry run foretells of a scan that writes, loses no write and is alone: what comes due, is fired, expires, and
      what its timers come to. What it lapses is what the scan lapses, but for the rows the scan fires that are stale once
      fired, which it lapses on top, and the undelivered the dry run takes for superseded by a one-shot the due loop
      moves on. And the reminders it counts as delivered are those its messages say, each once, but for the undelivered
      of that kind that are sent. */
  lemma WhatADryRunForetells(dry: Report, wet: Report, d: Trail, w: Trail, core: Core, gate: Gate, now: int,
                             canDeliver: bool, digests: bool, unmarked: set<string>, rows: map<string, Row>,
                             timers: map<string, TimerRow>, middle: map<string, Row>, late: map<string, Row>,
                             gone: set<string>, after: map<string, Row>, timersAfter: map<string, TimerRow>,
                             tried: seq<seq<string>>)
    requires Did(dry, d, Judging(core, gate, rows), canDeliver, unmarked, rows, timers, [], false)
    requires Did(wet, w, Judging(core, gate, middle), canDeliver, unmarked, after, timersAfter, tried, true)
    requires DryReads(rows, timers, d, now, canDeliver, digests)
    requires WetReads(rows, timers, w, Judging(core, gate, middle), now, canDeliver, digests, tried, middle, late, gone)
    ensures wet == dry.(delivered := wet.delivered, carried := wet.carried, lapsed := wet.lapsed)
    ensures var a, b := Judging(core, gate, rows), Judging(core, gate, middle);
            var onTop := |Filter(w.due, LapsedAsFired(b, canDeliver, digests, gone))|;
            var freed := |Filter(d.undelivered, Freed(a, b))|;
            wet.lapsed + freed == dry.lapsed + onTop && (wet.lapsed == dry.lapsed <==> onTop == freed)
    ensures canDeliver ==>
              var a, b := Judging(core, gate, rows), Judging(core, gate, middle);
              var sent := Filter(d.undelivered, FreedAndSent(a, b, unmarked));
              && SaidIn(tried) == SetOf(Foretold(d, a, true, unmarked)) + SetOf(Ids(sent))
              && |SaidIn(tried)| == dry.delivered + |sent|
    ensures !canDeliver ==> dry.delivered == dry.fired
  {
    var a, b := Judging(core, gate, rows), Judging(core, gate, middle);
    TheScanEases(core, gate, rows, middle, TallyOf(w.due, b, canDeliver).value.settled);
    hide Judging;
    ForetoldByEasing(dry, wet, d, w, a, b, now, canDeliver, digests, unmarked, rows, timers, middle, late, gone, after,
                     timersAfter, tried);
  }

  lemma ForetoldByEasing(dry: Report, wet: Report, d: Trail, w: Trail, a: Core, b: Core, now: int, canDeliver: bool,
                         digests: bool, unmarked: set<string>, rows: map<string, Row>, timers: map<string, TimerRow>,
                         middle: map<string, Row>, late: map<string, Row>, gone: set<string>, after: map<string, Row>,
                         timersAfter: map<string, TimerRow>, tried: seq<seq<string>>)
    requires Eases(a, b)
    requires Did(dry, d, a, canDeliver, unmarked, rows, timers, [], false)
    requires Did(wet, w, b, canDeliver, unmarked, after, timersAfter, tried, true)
    requires DryReads(rows, timers, d, now, canDeliver, digests)
    requires WetReads(rows, timers, w, b, now, canDeliver, digests, tried, middle, late, gone)
    ensures wet == dry.(delivered := wet.delivered, carried := wet.carried, lapsed := wet.lapsed)
    ensures wet.lapsed + |Filter(d.undelivered, Freed(a, b))| ==
            dry.lapsed + |Filter(w.due, LapsedAsFired(b, canDeliver, digests, gone))|
    ensures canDeliver ==>
              var sent := Filter(d.undelivered, FreedAndSent(a, b, unmarked));
              && SaidIn(tried) == SetOf(Foretold(d, a, true, unmarked)) + SetOf(Ids(sent))
              && |SaidIn(tried)| == dry.delivered + |sent|
    ensures !canDeliver ==> dry.delivered == dry.fired
  {
    hide Filter, Found, AfterDueLoop, AfterPush, TallyOf, Previews, SettledBy, AllAreTried, Retries, TriedIn,
      TimersFound, RetiredBy, SetOf, SaidIn, Foretold, Eases;
    SameCountsOf(d, w, rows, timers, a, b, now, canDeliver);
    ReportCounts(dry, d, a, canDeliver);
    ReportCounts(wet, w, b, canDeliver);
    LapsedCounts(d, w, a, b, now, canDeliver, digests, unmarked, rows, timers, middle, late, gone, tried);
    if canDeliver {
      JudgedAll(dry, d, a);
      ForetoldIsSaid(d, w, rows, middle, a, b, now, unmarked, tried);
      ForetoldAre(rows, d, a, now, unmarked);
    } else {
      NothingAgain(d, a, unmarked);
    }
  }

  lemma JudgedAll(r: Report, trail: Trail, core: Core)
    requires Previews(r, trail, core, true)
    ensures TallyOf(trail.due, core, true).Some?
  {
  }

  lemma NothingAgain(trail: Trail, core: Core, unmarked: set<string>)
    ensures Retries(trail, core, false, unmarked) == []
  {
  }

  lemma {:induction false} FilterAlike<T>(xs: seq<T>, f: T -> bool, g: T -> bool)
    requires forall x :: f(x) <==> g(x)
    ensures Filter(xs, f) == Filter(xs, g)
  {
    if xs != [] {
      FilterAlike(xs[..|xs| - 1], f, g);
    }
  }

  lemma ComesAlike(a: Core, b: Core, canDeliver: bool, act: Act)
    requires Eases(a, b)
    ensures forall t :: Comers(a, canDeliver, act)(t) <==> Comers(b, canDeliver, act)(t)
    ensures forall t :: Parked(a, canDeliver)(t) <==> Parked(b, canDeliver)(t)
  {
    hide ActOn, EasesAt, Keeps;
  }

  /** Both read the same due rows and timers and judge armed ones alike, so as many of any kind. */
  lemma SameCountsOf(d: Trail, w: Trail, rows: map<string, Row>, timers: map<string, TimerRow>, a: Core, b: Core,
                     now: int, canDeliver: bool)
    requires Eases(a, b)
    requires Found(rows, d.due, DueBy(now)) && TimersFound(timers, d.timers, now)
    requires Found(rows, w.due, DueBy(now)) && TimersFound(timers, w.timers, now)
    ensures |d.due| == |w.due| && |d.timers| == |w.timers|
    ensures |Filter(d.due, Comers(a, canDeliver, Leave(Fired)))| == |Filter(w.due, Comers(b, canDeliver, Leave(Fired)))|
    ensures |Filter(d.due, Comers(a, canDeliver, Leave(Expired)))| ==
            |Filter(w.due, Comers(b, canDeliver, Leave(Expired)))|
    ensures |Filter(d.due, Parked(a, canDeliver))| == |Filter(w.due, Parked(b, canDeliver))|
    ensures |Filter(d.timers, Rung(a, TimerFired))| == |Filter(w.timers, Rung(b, TimerFired))|
    ensures |Filter(d.timers, Rung(a, Cancelled))| == |Filter(w.timers, Rung(b, Cancelled))|
  {
    ComesAlike(a, b, canDeliver, Leave(Fired));
    ComesAlike(a, b, canDeliver, Leave(Expired));
    assert forall t :: Rung(a, TimerFired)(t) <==> Rung(b, TimerFired)(t);
    assert forall t :: Rung(a, Cancelled)(t) <==> Rung(b, Cancelled)(t);
    hide Found, TimersFound, Filter, NoTwice, Comers, Parked, Rung, Eases;
    SameDue(d, w, rows, now, Comers(a, canDeliver, Leave(Fired)), Comers(b, canDeliver, Leave(Fired)));
    SameDue(d, w, rows, now, Comers(a, canDeliver, Leave(Expired)), Comers(b, canDeliver, Leave(Expired)));
    SameDue(d, w, rows, now, Parked(a, canDeliver), Parked(b, canDeliver));
    SameTimers(d, w, timers, now, Rung(a, TimerFired), Rung(b, TimerFired));
    SameTimers(d, w, timers, now, Rung(a, Cancelled), Rung(b, Cancelled));
  }

  lemma SameDue(d: Trail, w: Trail, rows: map<string, Row>, now: int, keep: Copy -> bool, keep': Copy -> bool)
    requires Found(rows, d.due, DueBy(now)) && Found(rows, w.due, DueBy(now)) && forall t :: keep(t) <==> keep'(t)
    ensures |Filter(d.due, keep)| == |Filter(w.due, keep')| && |d.due| == |w.due|
  {
    SameFound(rows, d.due, w.due, DueBy(now));
    hide Found, Filter, NoTwice;
    FilterAlike(w.due, keep, keep');
    SameCounts(d.due, w.due, keep);
    SameCounts(d.due, w.due, _ => true);
    AllAreKept(d.due);
    AllAreKept(w.due);
  }

  lemma SameTimers(d: Trail, w: Trail, timers: map<string, TimerRow>, now: int, keep: Timer -> bool,
                   keep': Timer -> bool)
    requires TimersFound(timers, d.timers, now) && TimersFound(timers, w.timers, now)
    requires forall t :: keep(t) <==> keep'(t)
    ensures |Filter(d.timers, keep)| == |Filter(w.timers, keep')| && |d.timers| == |w.timers|
  {
    TimersAreApart(timers, d.timers, now);
    TimersAreApart(timers, w.timers, now);
    assert forall t :: t in d.timers <==> t in w.timers;
    hide TimersFound, Filter, NoTwice;
    FilterAlike(w.timers, keep, keep');
    SameCounts(d.timers, w.timers, keep);
    SameCounts(d.timers, w.timers, _ => true);
    AllAreKept(d.timers);
    AllAreKept(w.timers);
  }

  lemma {:induction false} AllAreKept<T>(xs: seq<T>)
    ensures |Filter(xs, _ => true)| == |xs|
  {
    if xs != [] {
      AllAreKept(xs[..|xs| - 1]);
    }
  }

  lemma {:induction false} TallyAlike(due: seq<Copy>, a: Core, b: Core, canDeliver: bool)
    requires Eases(a, b)
    ensures TallyOf(due, a, canDeliver) == TallyOf(due, b, canDeliver)
  {
    if due != [] {
      TallyAlike(due[..|due| - 1], a, b, canDeliver);
      assert a.judge(due[|due| - 1], false) == b.judge(due[|due| - 1], false);
      hide Eases, ActOn, TallyOne;
    }
  }

  lemma ForetoldIsSaid(d: Trail, w: Trail, rows: map<string, Row>, middle: map<string, Row>, a: Core, b: Core, now: int,
                       unmarked: set<string>, tried: seq<seq<string>>)
    requires Eases(a, b)
    requires Found(rows, d.due, DueBy(now)) && Found(rows, w.due, DueBy(now)) && Found(rows, d.undelivered, Unseen)
    requires TallyOf(d.due, a, true).Some? && TallyOf(w.due, b, true).Some?
    requires AfterDueLoop(rows, middle, TallyOf(w.due, b, true).value.settled) && Found(middle, w.undelivered, Unseen)
    requires AllAreTried(w, b, true, unmarked, tried)
    ensures var sent := Filter(d.undelivered, FreedAndSent(a, b, unmarked));
            && SaidIn(tried) == SetOf(Foretold(d, a, true, unmarked)) + SetOf(Ids(sent))
            && |SaidIn(tried)| == |SetOf(Foretold(d, a, true, unmarked))| + |sent|
  {
    var foretold, sent := Foretold(d, a, true, unmarked), Filter(d.undelivered, FreedAndSent(a, b, unmarked));
    TallyAlike(d.due, a, b, true);
    ForetoldAre(rows, d, a, now, unmarked);
    FilterIsApart(d.undelivered, FreedAndSent(a, b, unmarked));
    forall id
      ensures id in SaidIn(tried) <==> id in SetOf(foretold) || id in SetOf(Ids(sent))
      ensures !(id in SetOf(foretold) && id in SetOf(Ids(sent)))
    {
      SameSaid(rows, middle, d, w, b, now, unmarked, id);
      SaidWhenEased(rows, d, a, b, now, unmarked, id);
      Said(tried, id);
      InSetOf(Ids(sent), id);
      hide Found, TallyOf, AfterDueLoop, SetOf, SaidIn, Retries, Ids, TriedIn, Foretold, Filter, Eases;
    }
    ApartIds(sent);
    ApartSize(Ids(sent));
    hide Found, TallyOf, AfterDueLoop, SetOf, SaidIn, Retries, TriedIn, Foretold, Filter, Eases, AllAreTried;
    DisjointSize(SaidIn(tried), SetOf(foretold), SetOf(Ids(sent)));
  }

  lemma DisjointSize(all: set<string>, x: set<string>, y: set<string>)
    requires forall id :: id in all <==> id in x || id in y
    requires forall id :: !(id in x && id in y)
    ensures all == x + y && |all| == |x| + |y|
  {
    assert x !! y;
  }

  lemma InSetOf(ids: seq<string>, id: string)
    ensures id in SetOf(ids) <==> id in ids
  {
  }

  lemma ApartIds(copies: seq<Copy>)
    requires DistinctIds(copies)
    ensures Apart(Ids(copies)) && |Ids(copies)| == |copies|
  {
  }

  /** What a scan that judges by what is armed after its due loop queues again: what a dry run does, and those it frees. */
  lemma SaidWhenEased(rows: map<string, Row>, d: Trail, a: Core, b: Core, now: int, unmarked: set<string>, id: string)
    requires Eases(a, b) && Found(rows, d.due, DueBy(now)) && Found(rows, d.undelivered, Unseen)
    requires TallyOf(d.due, a, true).Some? && TallyOf(d.due, a, true) == TallyOf(d.due, b, true)
    ensures FiredBy(d, a, true, id) <==> FiredBy(d, b, true, id)
    ensures var sent := Filter(d.undelivered, FreedAndSent(a, b, unmarked));
            && (id in Ids(Retries(d, b, true, unmarked)) <==>
                  id in Ids(Retries(d, a, true, unmarked)) || id in Ids(sent))
            && (id in Ids(sent) ==> !FiredBy(d, a, true, id) && id !in Ids(Retries(d, a, true, unmarked)))
  {
    var sent := Filter(d.undelivered, FreedAndSent(a, b, unmarked));
    var settled := TallyOf(d.due, a, true).value.settled;
    FiresByVerdict(rows, d, a, now, true, id);
    UndeliveredAre(d.undelivered, a, settled, unmarked);
    UndeliveredAre(d.undelivered, b, settled, unmarked);
    FilterIsApart(d.undelivered, FreedAndSent(a, b, unmarked));
    InIds(sent, id);
    InIds(Retries(d, a, true, unmarked), id);
    InIds(Retries(d, b, true, unmarked), id);
    assert forall t :: t in d.undelivered && t.id == id ==> id in rows && rows[id] == t.row && Unseen(t.row);
    hide TallyOf, RetryOf, StaleOf, Ids, Filter, Found;
    forall t: Copy
      ensures IsDeliverable(a.judge(t, true)) ==> IsDeliverable(b.judge(t, true))
    {
      assert EasesAt(a, b, t);
    }
    hide Eases, EasesAt;
  }

  lemma Said(tried: seq<seq<string>>, id: string)
    ensures id in SaidIn(tried) <==> TriedIn(tried, id)
  {
    if TriedIn(tried, id) {
      var i :| 0 <= i < |tried| && id in tried[i];
      var j :| 0 <= j < |tried[i]| && tried[i][j] == id;
    }
  }

  lemma {:induction false} FreedCounts(undelivered: seq<Copy>, a: Core, b: Core)
    requires Eases(a, b)
    ensures |Filter(undelivered, PlanLapses(a))| ==
            |Filter(undelivered, PlanLapses(b))| + |Filter(undelivered, Freed(a, b))|
  {
    if undelivered != [] {
      var t := undelivered[|undelivered| - 1];
      FreedCounts(undelivered[..|undelivered| - 1], a, b);
      assert EasesAt(a, b, t);
      FilterNext(undelivered, PlanLapses(a));
      FilterNext(undelivered, PlanLapses(b));
      FilterNext(undelivered, Freed(a, b));
      hide Filter, LapsedByPlan, Eases;
    }
  }

  lemma LapsedCounts(d: Trail, w: Trail, a: Core, b: Core, now: int, canDeliver: bool, digests: bool,
                     unmarked: set<string>, rows: map<string, Row>, timers: map<string, TimerRow>,
                     middle: map<string, Row>, late: map<string, Row>, gone: set<string>, tried: seq<seq<string>>)
    requires Eases(a, b)
    requires DryReads(rows, timers, d, now, canDeliver, digests)
    requires WetReads(rows, timers, w, b, now, canDeliver, digests, tried, middle, late, gone)
    requires canDeliver ==> AllAreTried(w, b, true, unmarked, tried)
    ensures |Filter(w.undelivered, PlanLapses(b))| + |Filter(w.digest.pending, DigestLapses(b))|
            + |Filter(d.undelivered, Freed(a, b))| ==
            |Filter(d.undelivered, PlanLapses(a))| + |Filter(d.digest.pending, DigestLapses(a))| +
            |Filter(w.due, LapsedAsFired(b, canDeliver, digests, gone))|
  {
    var sum := TallyOf(w.due, b, canDeliver).value;
    FreedCounts(d.undelivered, a, b);
    FilterAlike(d.digest.pending, DigestLapses(a), DigestLapses(b));
    EitherCounts(w.due, b, canDeliver, digests, gone);
    hide Eases;
    if canDeliver {
      UndeliveredCounts(rows, middle, w.due, d.undelivered, w.undelivered, b, now, sum);
    } else {
      NoneKept(w.due, FiredThenPlanned(b, canDeliver));
    }
    if digests {
      NothingGone(rows, timers, w, b, now, canDeliver, digests, unmarked, tried, middle, late, gone, d.digest.pending);
      PendingCounts(rows, middle, late, gone, w.due, d.digest.pending, w.digest.pending, b, now, canDeliver, sum);
    } else {
      NoneKept(w.due, FiredThenPast(b, canDeliver, digests, gone));
    }
    hide Filter, Found, AfterDueLoop, AfterPush, TallyOf, AllAreTried, RetiredBy, TriedIn, TimersFound;
  }

  lemma {:induction false} NoneKept(copies: seq<Copy>, keep: Copy -> bool)
    requires forall t :: !keep(t)
    ensures |Filter(copies, keep)| == 0
  {
    if copies != [] {
      NoneKept(copies[..|copies| - 1], keep);
    }
  }

  /** A row is lapsed as late or as past, not both. */
  lemma {:induction false} EitherCounts(due: seq<Copy>, core: Core, canDeliver: bool, digests: bool, gone: set<string>)
    ensures |Filter(due, LapsedAsFired(core, canDeliver, digests, gone))| ==
            |Filter(due, FiredThenPlanned(core, canDeliver))| +
                |Filter(due, FiredThenPast(core, canDeliver, digests, gone))|
  {
    if due != [] {
      EitherCounts(due[..|due| - 1], core, canDeliver, digests, gone);
      var t := due[|due| - 1];
      if FiredThenPlanned(core, canDeliver)(t) {
        assert LapsedByPlan(AsFired(t), core) && core.judge(AsFired(t), true) != Some(Judgment(Stale, Passed));
        assert !DigestLapses(core)(AsFired(t));
      }
      assert LapsedAsFired(core, canDeliver, digests, gone)(t) <==>
             FiredThenPlanned(core, canDeliver)(t) || FiredThenPast(core, canDeliver, digests, gone)(t);
      FilterNext(due, LapsedAsFired(core, canDeliver, digests, gone));
      FilterNext(due, FiredThenPlanned(core, canDeliver));
      FilterNext(due, FiredThenPast(core, canDeliver, digests, gone));
      hide Filter, FiredUnseen;
    }
  }

  // ---- what the digest carries ----

  /** A row the scan fires, could not say, and its digest then carries. */
  function FiredThenCarried(core: Core, canDeliver: bool, gone: set<string>): Copy -> bool {
    (t: Copy) => FiredUnseen(t, core, canDeliver) && t.id !in gone && Keeps(AsFired(t), core)
  }

  /** A row unseen before the scan that a digest may carry is neither retired by it nor said by it. */
  lemma KeptIsNotGone(rows: map<string, Row>, middle: map<string, Row>, trail: Trail, core: Core, now: int,
                      unmarked: set<string>, tried: seq<seq<string>>, t: Copy)
    requires Found(rows, trail.due, DueBy(now)) && TallyOf(trail.due, core, true).Some?
    requires AfterDueLoop(rows, middle, TallyOf(trail.due, core, true).value.settled)
    requires Found(middle, trail.undelivered, Unseen) && AllAreTried(trail, core, true, unmarked, tried)
    requires t.id in rows && rows[t.id] == t.row && Unseen(t.row) && Keeps(t, core)
    ensures !TriedIn(tried, t.id) && !RetiredBy(trail, core, true, t.id)
  {
    var sum := TallyOf(trail.due, core, true).value;
    TheTallyIsTheVerdicts(trail.due, core, true, sum);
    assert MovesAs(sum.settled, trail.due, core, true, t.id);
    SomeIs(rows, trail.due, now, core, true, t.id, Leave(Fired));
    UnseenThen(rows, middle, trail.due, core, now, true, sum, t.id);
    UndeliveredAre(trail.undelivered, core, sum.settled, unmarked);
    PlannableAre(StaleRows(trail, core, true), core);
    InIds(Retries(trail, core, true, unmarked), t.id);
    hide TallyOf, RetryOf, StaleOf, Plannable, TriedIn, AfterDueLoop, Comes, Ids;
    assert forall u :: u in trail.undelivered && u.id == t.id ==> u == t;
  }

  lemma NoneKeptIsGone(rows: map<string, Row>, timers: map<string, TimerRow>, trail: Trail, core: Core, now: int,
                       canDeliver: bool, unmarked: set<string>, tried: seq<seq<string>>, middle: map<string, Row>,
                       late: map<string, Row>, gone: set<string>, before: seq<Copy>)
    requires WetReads(rows, timers, trail, core, now, canDeliver, true, tried, middle, late, gone)
    requires canDeliver ==> AllAreTried(trail, core, true, unmarked, tried)
    requires Found(rows, before, Unseen)
    ensures forall t :: t in before && Keeps(t, core) ==> t.id !in gone
  {
    forall t | t in before && Keeps(t, core)
      ensures t.id !in gone
    {
      if canDeliver {
        KeptIsNotGone(rows, middle, trail, core, now, unmarked, tried, t);
      }
    }
  }

  ghost predicate SameCopies(a: seq<Copy>, b: seq<Copy>) {
    forall t :: t in a <==> t in b
  }

  predicate NoneOf(copies: seq<Copy>, some: Copy -> bool) {
    forall t :: t in copies ==> !some(t)
  }

  /** Both would carry the same rows exactly when the scan fires none that its digest then carries. */
  lemma TheSameAreKeptExactlyWhen(d: Trail, w: Trail, core: Core, gate: Gate, now: int, canDeliver: bool,
                                  unmarked: set<string>, rows: map<string, Row>, timers: map<string, TimerRow>,
                                  middle: map<string, Row>, late: map<string, Row>, gone: set<string>,
                                  tried: seq<seq<string>>)
    requires DryReads(rows, timers, d, now, canDeliver, true)
    requires WetReads(rows, timers, w, Judging(core, gate, middle), now, canDeliver, true, tried, middle, late, gone)
    requires canDeliver ==> AllAreTried(w, Judging(core, gate, middle), true, unmarked, tried)
    ensures var a, b := Judging(core, gate, rows), Judging(core, gate, middle);
            SameCopies(KeptOf(w.digest.pending, b), KeptOf(d.digest.pending, a)) <==>
            NoneOf(w.due, FiredThenCarried(b, canDeliver, gone))
  {
    hide SameCopies, NoneOf, Judging, WetReads, DryReads, KeptOf, FiredThenCarried, AllAreTried;
    KeptByOneJudgment(d, w, Judging(core, gate, middle), now, canDeliver, unmarked, rows, timers, middle, late, gone,
                      tried);
    TheDigestJudgesAlike(core, gate, rows, middle, d.digest.pending);
  }

  lemma KeptByOneJudgment(d: Trail, w: Trail, core: Core, now: int, canDeliver: bool, unmarked: set<string>,
                          rows: map<string, Row>, timers: map<string, TimerRow>, middle: map<string, Row>,
                          late: map<string, Row>, gone: set<string>, tried: seq<seq<string>>)
    requires DryReads(rows, timers, d, now, canDeliver, true)
    requires WetReads(rows, timers, w, core, now, canDeliver, true, tried, middle, late, gone)
    requires canDeliver ==> AllAreTried(w, core, true, unmarked, tried)
    ensures SameCopies(KeptOf(w.digest.pending, core), KeptOf(d.digest.pending, core)) <==>
            NoneOf(w.due, FiredThenCarried(core, canDeliver, gone))
  {
    var sum, before, after := TallyOf(w.due, core, canDeliver).value, d.digest.pending, w.digest.pending;
    var keep, joins := Keeper(core), FiredThenCarried(core, canDeliver, gone);
    NoneKeptIsGone(rows, timers, w, core, now, canDeliver, unmarked, tried, middle, late, gone, before);
    hide TallyOf, Comes, AfterDueLoop, AfterPush, Found, AllAreTried, KeptOf, FiredUnseen, JoinsAt, RetiredBy, TriedIn,
      TimersFound;
    forall id
      ensures JoinsAt(rows, w.due, before, after, keep, joins, id)
    {
      KeptJoin(rows, middle, late, gone, w.due, before, after, core, now, canDeliver, sum, id);
    }
    hide WetReads, DryReads, FiredThenCarried, Keeper, SameCopies, NoneOf;
    KeptExactlyWhen(rows, w.due, before, after, core, joins);
  }

  lemma KeptExactlyWhen(rows: map<string, Row>, due: seq<Copy>, before: seq<Copy>, after: seq<Copy>, core: Core,
                        joins: Copy -> bool)
    requires forall id :: JoinsAt(rows, due, before, after, Keeper(core), joins, id)
    ensures SameCopies(KeptOf(after, core), KeptOf(before, core)) <==> NoneOf(due, joins)
  {
    KeptAre(before, core);
    KeptAre(after, core);
    hide KeptOf, JoinsAt, Keeps;
    if NoneOf(due, joins) {
      forall t
        ensures t in KeptOf(after, core) <==> t in KeptOf(before, core)
      {
        JoinsHere(rows, due, before, after, core, joins, t.id);
      }
      assert SameCopies(KeptOf(after, core), KeptOf(before, core));
    } else {
      var u :| u in due && joins(u);
      JoinsHere(rows, due, before, after, core, joins, u.id);
      assert AsFired(u) in KeptOf(after, core) && AsFired(u) !in KeptOf(before, core);
      assert !SameCopies(KeptOf(after, core), KeptOf(before, core));
    }
  }

  /** At one id: what is kept after is kept before, unless a row joins. */
  lemma JoinsHere(rows: map<string, Row>, due: seq<Copy>, before: seq<Copy>, after: seq<Copy>, core: Core,
                  joins: Copy -> bool, id: string)
    requires JoinsAt(rows, due, before, after, Keeper(core), joins, id)
    ensures forall u :: u in due && u.id == id && joins(u) ==>
              AsFired(u) in after && Keeps(AsFired(u), core) && AsFired(u) !in before
    ensures NoneOf(due, joins) ==>
              forall t: Copy :: t.id == id && Keeps(t, core) ==> (t in after <==> t in before)
  {
    hide Keeps;
  }

  function Keeper(core: Core): Copy -> bool {
    (t: Copy) => Keeps(t, core)
  }

  lemma KeptJoin(rows: map<string, Row>, middle: map<string, Row>, late: map<string, Row>, gone: set<string>,
                 due: seq<Copy>, before: seq<Copy>, after: seq<Copy>, core: Core, now: int, canDeliver: bool, sum: Tally,
                 id: string)
    requires Found(rows, due, DueBy(now)) && TallyOf(due, core, canDeliver) == Some(sum)
    requires AfterDueLoop(rows, middle, sum.settled) && AfterPush(middle, late, gone)
    requires Found(rows, before, Unseen) && Found(late, after, Unseen)
    requires forall t :: t in before && Keeps(t, core) ==> t.id !in gone
    ensures JoinsAt(rows, due, before, after, Keeper(core), FiredThenCarried(core, canDeliver, gone), id)
  {
    UnseenThen(rows, middle, due, core, now, canDeliver, sum, id);
    hide TallyOf, Comes, AfterDueLoop, AfterPush, Found, Unseen, JoinsAt, Keeps;
    PendingAt(rows, middle, late, gone, due, before, after, core, now, canDeliver, Keeper(core),
              FiredThenCarried(core, canDeliver, gone), id);
  }

  lemma {:induction false} KeptInOrder(pending: seq<Copy>, core: Core, key: Copy -> RowOrder.Key)
    requires RowOrder.Sorted(pending, key) && DistinctIds(pending)
    ensures RowOrder.Sorted(KeptOf(pending, core), key) && DistinctIds(KeptOf(pending, core))
  {
    if pending != [] {
      var n := |pending| - 1;
      KeptInOrder(pending[..n], core, key);
      KeptAre(pending[..n], core);
      var kept := KeptOf(pending[..n], core);
      hide KeptOf;
      forall k | 0 <= k < |kept|
        ensures !RowOrder.Less(key(pending[n]), key(kept[k])) && kept[k].id != pending[n].id
      {
        assert kept[k] in pending[..n];
        var i :| 0 <= i < n && pending[i] == kept[k];
      }
      KeptNext(pending, core);
    }
  }

  lemma KeptNext(pending: seq<Copy>, core: Core)
    requires pending != []
    ensures var n := |pending| - 1;
            KeptOf(pending, core) == KeptOf(pending[..n], core) + if Keeps(pending[n], core) then [pending[n]] else []
  {
  }

  /** Then the digest a dry run packs is the one the scan sends, to the letter, and as many items are carried: when the
      store lists unseen rows in an order, both ask the same check-ins again, and no focus ranks a low morning anew. */
  lemma ADryRunPacksTheDigestThatIsSent(d: Trail, w: Trail, core: Core, gate: Gate, now: int, canDeliver: bool,
                                        unmarked: set<string>, rows: map<string, Row>, timers: map<string, TimerRow>,
                                        middle: map<string, Row>, late: map<string, Row>, gone: set<string>,
                                        tried: seq<seq<string>>, key: Copy -> RowOrder.Key, text: string, p: Packing,
                                        text': string, p': Packing)
    requires DryReads(rows, timers, d, now, canDeliver, true)
    requires WetReads(rows, timers, w, Judging(core, gate, middle), now, canDeliver, true, tried, middle, late, gone)
    requires canDeliver ==> AllAreTried(w, Judging(core, gate, middle), true, unmarked, tried)
    requires NoneOf(w.due, FiredThenCarried(Judging(core, gate, middle), canDeliver, gone))
    requires RowOrder.Sorted(d.digest.pending, key) && RowOrder.Sorted(w.digest.pending, key)
    requires (forall t: Copy :: key(t).id == t.id) && d.digest.reasks == w.digest.reasks
    requires core.lowEnergy ==> !Focused(core)
    requires ReadyBy(Judging(core, gate, rows), d.digest).Some?
    requires Packs(text, ReadyBy(Judging(core, gate, rows), d.digest).value, p)
    requires SentBy(Judging(core, gate, middle), w.digest).Some?
    requires Packs(text', SentBy(Judging(core, gate, middle), w.digest).value, p')
    ensures text == text' && p.sent == p'.sent && p.asked == p'.asked && |p.sent| == |p'.sent|
  {
    var a, b := Judging(core, gate, rows), Judging(core, gate, middle);
    TheSameAreKeptExactlyWhen(d, w, core, gate, now, canDeliver, unmarked, rows, timers, middle, late, gone, tried);
    TheDigestJudgesAlike(core, gate, rows, middle, d.digest.pending);
    assert DistinctIds(d.digest.pending) && DistinctIds(w.digest.pending);
    hide SameCopies, NoneOf, KeptOf, DryReads, WetReads, AllAreTried, FiredThenCarried, ReadyBy, SentBy, Packs;
    hide DistinctIds, Judging;
    KeptAlike(d.digest, w.digest, b, key);
    ReadyAlike(d.digest, w.digest, a, b);
    NotRankedAnew(b, w.digest);
    PackedAlike(ReadyBy(a, d.digest).value, text, p, text', p');
  }

  lemma KeptAlike(d: DigestTrail, w: DigestTrail, core: Core, key: Copy -> RowOrder.Key)
    requires RowOrder.Sorted(d.pending, key) && RowOrder.Sorted(w.pending, key) && forall t: Copy :: key(t).id == t.id
    requires DistinctIds(d.pending) && DistinctIds(w.pending)
    requires SameCopies(KeptOf(w.pending, core), KeptOf(d.pending, core))
    ensures KeptOf(d.pending, core) == KeptOf(w.pending, core)
  {
    KeptInOrder(d.pending, core, key);
    KeptInOrder(w.pending, core, key);
    hide KeptOf, RowOrder.Sorted;
    RowOrder.SortedOnce(KeptOf(d.pending, core), KeptOf(w.pending, core), key);
  }

  lemma ReadyAlike(d: DigestTrail, w: DigestTrail, a: Core, b: Core)
    requires KeptOf(d.pending, a) == KeptOf(w.pending, b) && d.reasks == w.reasks && b == a.(judge := b.judge)
    ensures ReadyBy(a, d) == ReadyBy(b, w)
  {
  }

  lemma PackedAlike(g: Gathered, text: string, p: Packing, text': string, p': Packing)
    requires Packs(text, g, p) && Packs(text', g, p')
    ensures text == text' && p.sent == p'.sent && p.asked == p'.asked
  {
    hide DigestText.IsMessage;
    DigestText.AMorningHasOneMessage(g.morning, p.lines, p.drops, text, p.sent, p.asked, p.named,
                                     p'.lines, p'.drops, text', p'.sent, p'.asked, p'.named);
  }

  lemma NotRankedAnew(core: Core, trail: DigestTrail)
    requires ReadyBy(core, trail).Some? && (core.lowEnergy ==> !Focused(core))
    ensures SentBy(core, trail) == ReadyBy(core, trail)
  {
  }

  // ---- a row stale once fired, and a row the due loop frees ----

  /** And such a row there can be: a reminder that names no event, whose unit has another one-shot armed, is deliverable
      while armed and superseded once fired. A dry run then lapses nothing, and a scan whose send fails lapses it. */
  lemma ARowStaleOnceFiredIsNotForetold(core: Core, gate: Gate, t: Copy, other: Copy, now: int)
    requires DueNow(t.row, now) && t.row.rule.None? && t.row.surfaced.None? && !Held(core.unreadable, UnitKey(t))
    requires NamesNone(gate, t) && t.row.unit.Some? && ArmedOneShot(other.row, t.row.unit)
    requires other.id != t.id && other.row.fireAt > now
    requires gate.judge(t, false) == gate.judge(AsFired(t), true) == Some(Judgment(DeliverNow, NoReason))
    ensures var rows, middle := map[t.id := t.row, other.id := other.row], map[t.id := AsFired(t).row, other.id := other.row];
            var late := map[t.id := t.row.(status := Expired), other.id := other.row];
            var d, w := Trail([t], [], [], NO_DIGEST), Trail([t], [], [AsFired(t)], NO_DIGEST);
            var a, b := Judging(core, gate, rows), Judging(core, gate, middle);
            && DryReads(rows, map[], d, now, true, false)
            && WetReads(rows, map[], w, b, now, true, false, [[t.id]], middle, late, {t.id})
            && Did(Report(1, 0, 1, 1, 0, 0, 0, 0, 0), d, a, true, {}, rows, map[], [], false)
            && Did(Report(1, 0, 1, 0, 0, 1, 0, 0, 0), w, b, true, {}, late, map[], [[t.id]], true)
  {
    var rows, middle := map[t.id := t.row, other.id := other.row], map[t.id := AsFired(t).row, other.id := other.row];
    var late := map[t.id := t.row.(status := Expired), other.id := other.row];
    var a, b := Judging(core, gate, rows), Judging(core, gate, middle);
    assert ArmedOneShot(rows[other.id], t.row.unit) && ArmedOneShot(middle[other.id], t.row.unit);
    assert HasArmed(rows, AsFired(t)) && HasArmed(middle, AsFired(t));
    hide DryReads, WetReads, Did, Judging, HasArmed;
    StaleOnceFiredReads(b, t, other, now);
    StaleOnceFiredDid(a, t, rows, late);
    StaleOnceFiredDid(b, t, rows, late);
  }

  lemma StaleOnceFiredReads(core: Core, t: Copy, other: Copy, now: int)
    requires DueNow(t.row, now) && t.row.rule.None? && t.row.surfaced.None? && !Held(core.unreadable, UnitKey(t))
    requires other.id != t.id && other.row.status == Armed && other.row.fireAt > now
    requires core.judge(t, false) == Some(Judgment(DeliverNow, NoReason))
    requires core.judge(AsFired(t), true) == Some(Judgment(Stale, Superseded))
    ensures var rows, middle := map[t.id := t.row, other.id := other.row], map[t.id := AsFired(t).row, other.id := other.row];
            var late := map[t.id := t.row.(status := Expired), other.id := other.row];
            && DryReads(rows, map[], Trail([t], [], [], NO_DIGEST), now, true, false)
            && WetReads(rows, map[], Trail([t], [], [AsFired(t)], NO_DIGEST), core, now, true, false, [[t.id]], middle,
                        late, {t.id})
  {
    hide TallyOf, StaleOf, Plannable, CountArmed, RetryOf, TriedIn;
    StaleOnceFiredMeans(core, t);
    SaidAlone(t.id, t.id);
  }

  lemma StaleOnceFiredDid(core: Core, t: Copy, rows: map<string, Row>, late: map<string, Row>)
    requires t.row.rule.None? && !Held(core.unreadable, UnitKey(t)) && t.id in late && late[t.id].status == Expired
    requires core.judge(t, false) == Some(Judgment(DeliverNow, NoReason))
    requires core.judge(AsFired(t), true) == Some(Judgment(Stale, Superseded))
    ensures Did(Report(1, 0, 1, 1, 0, 0, 0, 0, 0), Trail([t], [], [], NO_DIGEST), core, true, {}, rows, map[], [], false)
    ensures Did(Report(1, 0, 1, 0, 0, 1, 0, 0, 0), Trail([t], [], [AsFired(t)], NO_DIGEST), core, true, {}, late, map[],
                [[t.id]], true)
  {
    hide Previews, SettledBy, AllAreTried, Retries;
    StaleOnceFiredCounts(core, t);
    StaleOnceFiredSettles(core, t, late);
  }

  lemma StaleOnceFiredCounts(core: Core, t: Copy)
    requires t.row.rule.None? && !Held(core.unreadable, UnitKey(t))
    requires core.judge(t, false) == Some(Judgment(DeliverNow, NoReason))
    requires core.judge(AsFired(t), true) == Some(Judgment(Stale, Superseded))
    ensures var d, w := Trail([t], [], [], NO_DIGEST), Trail([t], [], [AsFired(t)], NO_DIGEST);
            && Previews(Report(1, 0, 1, 1, 0, 0, 0, 0, 0), d, core, true) && Retries(d, core, true, {}) == []
            && Previews(Report(1, 0, 1, 0, 0, 1, 0, 0, 0), w, core, true) && Retries(w, core, true, {}) == []
  {
    hide TallyOf, StaleOf, Plannable, CountArmed, RetryOf, PastOf, TimerTallyOf, RingingOf;
    StaleOnceFiredMeans(core, t);
    NonePending(core);
    NoTimers(map[], core);
    assert [] + StaleOf([], core) == [];
  }

  lemma StaleOnceFiredSettles(core: Core, t: Copy, late: map<string, Row>)
    requires t.row.rule.None? && !Held(core.unreadable, UnitKey(t)) && t.id in late && late[t.id].status == Expired
    requires core.judge(t, false) == Some(Judgment(DeliverNow, NoReason))
    requires core.judge(AsFired(t), true) == Some(Judgment(Stale, Superseded))
    ensures var w := Trail([t], [], [AsFired(t)], NO_DIGEST);
            SettledBy(late, map[], w, core, true) && AllAreTried(w, core, true, {}, [[t.id]])
  {
    hide TallyOf, StaleOf, Plannable, RetryOf, TriedIn, CountArmed;
    StaleOnceFiredMeans(core, t);
    var w := Trail([t], [], [AsFired(t)], NO_DIGEST);
    assert StaleRows(w, core, true) == StaleOf([AsFired(t)], core);
    NoIds();
    forall id
      ensures TriedIn([[t.id]], id) <==> FiredBy(w, core, true, id) || id in Ids(Retries(w, core, true, {}))
    {
      SaidAlone(t.id, id);
      assert Retries(w, core, true, {}) == [] && (FiredBy(w, core, true, id) <==> id == t.id);
    }
  }

  /** The other way about: an undelivered push that names no event waits, and its unit's one armed one-shot is due. The
      dry run takes the first for superseded, and says one lapsed and one delivered; the scan fires the second, finds
      nothing armed, lapses nothing and sends both. */
  lemma AnUndeliveredRowIsFreedByTheDueLoop(core: Core, gate: Gate, l: Copy, t: Copy, now: int)
    requires DueNow(t.row, now) && ArmedOneShot(t.row, l.row.unit) && t.row.surfaced.None? && t.id != l.id
    requires Unseen(l.row) && l.row.unit.Some? && NamesNone(gate, l) && !Held(core.unreadable, UnitKey(l))
    requires gate.judge(t, false) == gate.judge(AsFired(t), true) == gate.judge(l, true) == Some(Judgment(DeliverNow, NoReason))
    ensures var rows, middle := map[l.id := l.row, t.id := t.row], map[l.id := l.row, t.id := AsFired(t).row];
            var late := map[l.id := l.row.(surfaced := Some(now)), t.id := AsFired(t).row.(surfaced := Some(now))];
            var d, w := Trail([t], [], [l], NO_DIGEST), Trail([t], [], [l, AsFired(t)], NO_DIGEST);
            var a, b := Judging(core, gate, rows), Judging(core, gate, middle);
            && DryReads(rows, map[], d, now, true, false)
            && WetReads(rows, map[], w, b, now, true, false, [[l.id, t.id]], middle, late, {l.id, t.id})
            && Did(Report(1, 0, 1, 1, 0, 1, 0, 0, 0), d, a, true, {}, rows, map[], [], false)
            && Did(Report(1, 0, 1, 2, 0, 0, 0, 0, 0), w, b, true, {}, late, map[], [[l.id, t.id]], true)
  {
    var rows, middle := map[l.id := l.row, t.id := t.row], map[l.id := l.row, t.id := AsFired(t).row];
    var late := map[l.id := l.row.(surfaced := Some(now)), t.id := AsFired(t).row.(surfaced := Some(now))];
    var a, b := Judging(core, gate, rows), Judging(core, gate, middle);
    assert ArmedOneShot(rows[t.id], l.row.unit);
    assert HasArmed(rows, l) && !HasArmed(middle, l) && !HasArmed(middle, AsFired(t));
    hide DryReads, WetReads, Did, Judging, HasArmed;
    FreedReads(b, l, t, now);
    FreedDryDid(a, l, t, rows);
    FreedWetDid(b, l, t, late);
  }

  lemma FreedReads(core: Core, l: Copy, t: Copy, now: int)
    requires DueNow(t.row, now) && t.row.rule.None? && t.row.surfaced.None? && t.id != l.id && Unseen(l.row)
    requires l.row.rule.None?
    requires core.judge(t, false) == core.judge(AsFired(t), true) == core.judge(l, true) == Some(Judgment(DeliverNow, NoReason))
    ensures var rows, middle := map[l.id := l.row, t.id := t.row], map[l.id := l.row, t.id := AsFired(t).row];
            var late := map[l.id := l.row.(surfaced := Some(now)), t.id := AsFired(t).row.(surfaced := Some(now))];
            && DryReads(rows, map[], Trail([t], [], [l], NO_DIGEST), now, true, false)
            && WetReads(rows, map[], Trail([t], [], [l, AsFired(t)], NO_DIGEST), core, now, true, false, [[l.id, t.id]],
                        middle, late, {l.id, t.id})
  {
    hide TallyOf, StaleOf, Plannable, CountArmed, RetryOf, TriedIn;
    FreedMeans(core, l, t);
    TwoSaid(l.id, t.id, l.id);
    TwoSaid(l.id, t.id, t.id);
  }

  lemma TwoSaid(x: string, y: string, id: string)
    ensures TriedIn([[x, y]], id) <==> id == x || id == y
  {
    assert [[x, y]][0] == [x, y] && [x, y][0] == x && [x, y][1] == y;
  }

  /** The scan of a row that fires and of another that waits and can be sent again. */
  lemma FreedMeans(core: Core, l: Copy, t: Copy)
    requires t.row.rule.None? && l.row.rule.None? && Unseen(l.row) && t.id != l.id
    requires core.judge(t, false) == core.judge(AsFired(t), true) == core.judge(l, true) == Some(Judgment(DeliverNow, NoReason))
    ensures var settled := map[t.id := true];
            && TallyOf([t], core, true) == Some(Tally(1, 0, [], settled))
            && StaleOf([l, AsFired(t)], core) == [] && RetryOf([l, AsFired(t)], core, settled, {}) == [l]
            && Plannable([], core) == [] && CountArmed([]) == 0
  {
    var settled, both := map[t.id := true], [l, AsFired(t)];
    hide TallyOf, StaleOf, RetryOf, Plannable, CountArmed;
    EmptyTally(core, true);
    TallyNext([t], 0, core, true, Tally(0, 0, [], map[]));
    NoneUndelivered(core, settled, {});
    UndeliveredNext(both, 0, core, settled, {});
    UndeliveredNext(both, 1, core, settled, {});
    NoneArmed(core);
    assert [t][..0] == [] && [t][..1] == [t] && both[..0] == [] && both[..1] == [l] && both[..2] == both;
  }

  lemma FreedWetDid(core: Core, l: Copy, t: Copy, late: map<string, Row>)
    requires t.row.rule.None? && l.row.rule.None? && Unseen(l.row) && t.id != l.id
    requires t.id in late && late[t.id].status == Fired
    requires core.judge(t, false) == core.judge(AsFired(t), true) == core.judge(l, true) == Some(Judgment(DeliverNow, NoReason))
    ensures Did(Report(1, 0, 1, 2, 0, 0, 0, 0, 0), Trail([t], [], [l, AsFired(t)], NO_DIGEST), core, true, {}, late,
                map[], [[l.id, t.id]], true)
  {
    var w := Trail([t], [], [l, AsFired(t)], NO_DIGEST);
    hide TallyOf, StaleOf, Plannable, CountArmed, RetryOf, PastOf, TimerTallyOf, TriedIn;
    FreedMeans(core, l, t);
    NonePending(core);
    NoTimers(map[], core);
    assert [] + StaleOf(w.undelivered, core) == [];
    assert AllAreTried(w, core, true, {}, [[l.id, t.id]]) by {
      forall id
        ensures TriedIn([[l.id, t.id]], id) <==> FiredBy(w, core, true, id) || id in Ids(Retries(w, core, true, {}))
      {
        TwoSaid(l.id, t.id, id);
        assert Ids([l]) == [l.id];
      }
    }
    NoneEnded(late);
  }

  /** The dry run, for which the one that waits is superseded. */
  lemma FreedDryDid(core: Core, l: Copy, t: Copy, rows: map<string, Row>)
    requires t.row.rule.None? && l.row.rule.None? && !Held(core.unreadable, UnitKey(l))
    requires core.judge(t, false) == Some(Judgment(DeliverNow, NoReason))
    requires core.judge(l, true) == Some(Judgment(Stale, Superseded))
    ensures Did(Report(1, 0, 1, 1, 0, 1, 0, 0, 0), Trail([t], [], [l], NO_DIGEST), core, true, {}, rows, map[], [], false)
  {
    var d, settled := Trail([t], [], [l], NO_DIGEST), map[t.id := true];
    hide TallyOf, StaleOf, Plannable, CountArmed, RetryOf, PastOf, TimerTallyOf, RingingOf;
    EmptyTally(core, true);
    TallyNext([t], 0, core, true, Tally(0, 0, [], map[]));
    NoneUndelivered(core, settled, {});
    UndeliveredNext([l], 0, core, settled, {});
    OneIsPlannable(core, StaleRow(l, false));
    NonePending(core);
    NoTimers(map[], core);
    assert [t][..0] == [] && [t][..1] == [t] && [l][..0] == [] && [l][..1] == [l];
    assert [] + StaleOf([l], core) == [StaleRow(l, false)];
  }

  lemma SaidAlone(id: string, other: string)
    ensures TriedIn([[id]], other) <==> other == id
  {
    assert [[id]][0] == [id] && [id][0] == id;
  }

  /** The scan of one row that is stale once fired: it is fired, and then it is the one stale row, and not sent again. */
  lemma StaleOnceFiredMeans(core: Core, t: Copy)
    requires t.row.rule.None? && !Held(core.unreadable, UnitKey(t))
    requires core.judge(t, false) == Some(Judgment(DeliverNow, NoReason))
    requires core.judge(AsFired(t), true) == Some(Judgment(Stale, Superseded))
    ensures var settled, s := map[t.id := true], StaleRow(AsFired(t), false);
            && TallyOf([t], core, true) == Some(Tally(1, 0, [], settled))
            && [] + StaleOf([AsFired(t)], core) == [s] && Plannable([s], core) == [s] && CountArmed([s]) == 0
            && RetryOf([AsFired(t)], core, settled, {}) == []
            && StaleOf([], core) == [] && RetryOf([], core, settled, {}) == []
            && Plannable([], core) == [] && CountArmed([]) == 0
  {
    var settled := map[t.id := true];
    hide TallyOf, StaleOf, RetryOf, Plannable, CountArmed;
    EmptyTally(core, true);
    TallyNext([t], 0, core, true, Tally(0, 0, [], map[]));
    NoneUndelivered(core, settled, {});
    UndeliveredNext([AsFired(t)], 0, core, settled, {});
    NoneArmed(core);
    OneIsPlannable(core, StaleRow(AsFired(t), false));
    assert [t][..0] == [] && [t][..1] == [t] && [AsFired(t)][..0] == [] && [AsFired(t)][..1] == [AsFired(t)];
  }

  lemma OneIsPlannable(core: Core, s: StaleRow)
    requires !Held(core.unreadable, UnitKey(s.t)) && !s.armed
    ensures Plannable([s], core) == [s] && CountArmed([s]) == 0
  {
    assert [s][..0] == [];
  }

  /** A scan retires a reminder as late or superseded and pushes it as well exactly when it fires a push that is stale
      once fired: its fresh row is lapsed by the re-plan step, and it is already in the queue. */
  lemma OneScanRetiresAndPushesExactlyWhen(rows: map<string, Row>, middle: map<string, Row>, w: Trail, core: Core,
                                           now: int,
                                           unmarked: set<string>, tried: seq<seq<string>>, id: string)
    requires Found(rows, w.due, DueBy(now)) && TallyOf(w.due, core, true).Some?
    requires AfterDueLoop(rows, middle, TallyOf(w.due, core, true).value.settled) && Found(middle, w.undelivered, Unseen)
    requires AllAreTried(w, core, true, unmarked, tried)
    ensures RetiredBy(w, core, true, id) && TriedIn(tried, id) <==>
            exists t :: t in w.due && t.id == id && FiredThenPlanned(core, true)(t)
  {
    hide TallyOf, RetiredBy, TriedIn, Retries, Ids, LapsedByPlan, Comes;
    var sum := TallyOf(w.due, core, true).value;
    RetiredMeans(w, core, id);
    AgainMeans(w, core, unmarked, id);
    FiresByVerdict(rows, w, core, now, true, id);
    SomeIs(rows, w.due, now, core, true, id, Park);
    UnseenThen(rows, middle, w.due, core, now, true, sum, id);
    assert forall u :: u in w.undelivered && u.id == id ==> id in middle && u.row == middle[id] && Unseen(u.row);
    assert id in middle && Unseen(middle[id]) ==> Copy(id, middle[id]) in w.undelivered;
    hide Found, AfterDueLoop;
    if id in rows {
      OneActAlone(core, Copy(id, rows[id]));
    }
  }

  lemma OneActAlone(core: Core, t: Copy)
    ensures !(Comes(t, core, true, Park) && Comes(t, core, true, Leave(Fired)))
    ensures FiredThenPlanned(core, true)(t) <==> FiredUnseen(t, core, true) && LapsedByPlan(AsFired(t), core)
  {
  }

  /** What is retired was parked, or is an undelivered push the re-plan step lapses. */
  lemma RetiredMeans(w: Trail, core: Core, id: string)
    requires TallyOf(w.due, core, true).Some? && DistinctIds(w.due)
    ensures RetiredBy(w, core, true, id) ==>
              || (exists t :: t in w.due && t.id == id && Comes(t, core, true, Park))
              || (exists u :: u in w.undelivered && u.id == id && LapsedByPlan(u, core))
    ensures (exists u :: u in w.undelivered && u.id == id && LapsedByPlan(u, core)) ==> RetiredBy(w, core, true, id)
  {
    var sum := TallyOf(w.due, core, true).value;
    TheTallyIsTheVerdicts(w.due, core, true, sum);
    UndeliveredAre(w.undelivered, core, sum.settled, {});
    PlannableAre(StaleRows(w, core, true), core);
    hide TallyOf, RetryOf, StaleOf, Plannable, MovesByVerdicts, Comes;
    if u :| u in w.undelivered && u.id == id && LapsedByPlan(u, core) {
      assert StaleRow(u, false) in StaleOf(w.undelivered, core);
      assert StaleRow(u, false) in StaleRows(w, core, true);
    }
  }

  /** What is queued again is not stale. */
  lemma AgainMeans(w: Trail, core: Core, unmarked: set<string>, id: string)
    requires TallyOf(w.due, core, true).Some? && DistinctIds(w.undelivered)
    ensures id in Ids(Retries(w, core, true, unmarked)) ==>
              exists u :: u in w.undelivered && u.id == id && !LapsedByPlan(u, core)
  {
    UndeliveredAre(w.undelivered, core, TallyOf(w.due, core, true).value.settled, unmarked);
    InIds(Retries(w, core, true, unmarked), id);
    hide TallyOf, RetryOf, StaleOf, Ids;
  }
}
