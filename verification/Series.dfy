/**
 Recurring series (internal/brain/deliver.go, leave; internal/brain/reminder_gate.go, retire).

 A recurring reminder that leaves armed arms its next occurrence in the same
 write. Scans overlap: each holds copies of the rows it read, and acts on them
 later, when another scan may already have moved the row on.
 */
module Series {
  import opened Options

  datatype Status = Armed | Fired | Expired

  datatype Anchor = Anchor(month: int, day: int, weekday: Option<int>, at: Option<(int, int)>)

  /** `series` names the row a chain of occurrences began with; a one-shot is a chain of one. */
  datatype Row = Row(series: string, rule: Option<string>, anchor: Option<Anchor>, fireAt: int, status: Status,
                     surfaced: bool)
  {
    predicate Recurs() {
      rule.Some? && anchor.Some?
    }
  }

  datatype Copy = Copy(id: string, row: Row)

  /** `armed` is every reminder armed so far, `started` those armed to recur; `held` is what each scan has read. */
  datatype State = State(rows: map<string, Row>, armed: set<string>, started: set<string>, held: seq<seq<Copy>>)

  datatype Step =
    // a scan reads rows that are armed now
    | Scan(scan: nat, ids: seq<string>)
    // it acts on one copy: fires it or expires it, as leave does, with a fresh successor id and the next instant
    | Leave(scan: nat, k: nat, fire: bool, successor: string, next: int)
    // a write that failed, or a scan that stopped: nothing is written
    | Stop(scan: nat)
    // a fired row reaches the user, or lapses
    | Surface(id: string)
    | Lapse(id: string)
    // a correction moves an armed row; the anchor is kept when the move carries none
    | Reschedule(id: string, fireAt: int, anchor: Option<Anchor>)
    // a capture arms a new reminder, one-shot, or recurring with a rule and an anchor, never one without the other
    | Arm(id: string, rule: Option<string>, anchor: Option<Anchor>, fireAt: int)

  // ---- the store: one conditional write each ----

  /** Fire and Expire: out of armed, or a conflict. */
  function Leaves(rows: map<string, Row>, id: string, fire: bool): Option<map<string, Row>> {
    if id in rows && rows[id].status == Armed then
      Some(rows[id := rows[id].(status := if fire then Fired else Expired)])
    else None
  }

  /** Rearm: the row leaves armed and its successor is created armed, both or neither. */
  function Rearm(rows: map<string, Row>, id: string, fire: bool, successor: string, row: Row): Option<map<string,
                 Row>> {
    match Leaves(rows, id, fire)
    case None => None
    case Some(left) => if successor in rows then None else Some(left[successor := row])
  }

  /** What leave writes for a copy: the copy decides which write, the stored row decides whether it lands. */
  function LeaveRow(rows: map<string, Row>, c: Copy, fire: bool, successor: string, next: int): Option<map<string,
                    Row>> {
    if !c.row.Recurs() then Leaves(rows, c.id, fire)
    else Rearm(rows, c.id, fire, successor, Row(c.row.series, c.row.rule, c.row.anchor, next, Armed, false))
  }

  function OrKeep(rows: map<string, Row>, written: Option<map<string, Row>>): map<string, Row> {
    match written
    case None => rows
    case Some(after) => after
  }

  predicate Enabled(s: State, step: Step) {
    match step
    case Scan(p, ids) => p < |s.held| && forall id | id in ids :: id in s.rows && s.rows[id].status == Armed
    case Leave(p, k, _, _, _) => p < |s.held| && k < |s.held[p]|
    case Stop(p) => p < |s.held|
    case Arm(_, rule, anchor, _) => rule.Some? <==> anchor.Some?
    case _ => true
  }

  function After(s: State, step: Step): State
    requires Enabled(s, step)
  {
    match step
    case Scan(p, ids) => s.(held := s.held[p := seq(|ids|, i requires 0 <= i < |ids| => Copy(ids[i], s.rows[ids[i]]))])
    case Leave(p, k, fire, successor, next) =>
      s.(rows := OrKeep(s.rows, LeaveRow(s.rows, s.held[p][k], fire, successor, next)))
    case Stop(p) => s.(held := s.held[p := []])
    case Surface(id) =>
      if id in s.rows && s.rows[id].status == Fired then s.(rows := s.rows[id := s.rows[id].(surfaced := true)]) else s
    case Lapse(id) =>
      if id in s.rows && s.rows[id].status == Fired && !s.rows[id].surfaced
      then s.(rows := s.rows[id := s.rows[id].(status := Expired)]) else s
    case Reschedule(id, fireAt, anchor) =>
      if id in s.rows && s.rows[id].status == Armed
      then s.(rows := s.rows[id := s.rows[id].(fireAt := fireAt,
                                               anchor := if anchor.Some? then anchor else s.rows[id].anchor)])
      else s
    case Arm(id, rule, anchor, fireAt) =>
      if id in s.rows then s else NewlyArmed(s, Row(id, rule, anchor, fireAt, Armed, false))
  }

  function NewlyArmed(s: State, row: Row): State {
    s.(rows := s.rows[row.series := row], armed := s.armed + {row.series},
       started := s.started + if row.Recurs() then {row.series} else {})
  }

  ghost predicate IsRun(states: seq<State>, steps: seq<Step>) {
    && |states| == |steps| + 1
    && states[0].rows == map[] && states[0].armed == states[0].started == {}
    && (forall p :: 0 <= p < |states[0].held| ==> states[0].held[p] == [])
    && forall i :: 0 <= i < |steps| ==> Enabled(states[i], steps[i]) && states[i + 1] == After(states[i], steps[i])
  }

  /** The armed occurrences of a series. */
  function ArmedOf(rows: map<string, Row>, series: string): set<string> {
    set id | id in rows && rows[id].series == series && rows[id].status == Armed
  }

  ghost predicate OneArmed(rows: map<string, Row>, series: string) {
    exists id :: ArmedOf(rows, series) == {id}
  }

  /** A copy agrees with its row on what decides how the row leaves, whatever else moved since. */
  ghost predicate Faithful(s: State, c: Copy) {
    && c.id in s.rows
    && c.row.series == s.rows[c.id].series
    && (c.row.series in s.started ==> c.row.Recurs()) && (c.row.rule.Some? ==> c.row.series in s.started)
  }

  /** A row of a started series can go on, and every row with a rule is of one. */
  ghost predicate WellFormed(armed: set<string>, started: set<string>, row: Row) {
    && row.series in armed
    && (row.series in started ==> row.Recurs()) && (row.rule.Some? ==> row.series in started)
  }

  ghost predicate Inv(s: State) {
    && s.started <= s.armed <= s.rows.Keys
    && (forall series :: series in s.started ==> OneArmed(s.rows, series))
    && (forall id :: id in s.rows ==> WellFormed(s.armed, s.started, s.rows[id]))
    && (forall p, k :: 0 <= p < |s.held| && 0 <= k < |s.held[p]| ==> Faithful(s, s.held[p][k]))
  }

  /** One row written: it alone enters or leaves the armed set. */
  lemma ArmedAfter(rows: map<string, Row>, id: string, row: Row, series: string)
    ensures ArmedOf(rows[id := row], series)
         == ArmedOf(rows, series) - {id} + if row.series == series && row.status == Armed then {id} else {}
  {
  }

  lemma ArmedIff(rows: map<string, Row>, id: string, series: string)
    ensures id in ArmedOf(rows, series) <==> id in rows && rows[id].series == series && rows[id].status == Armed
  {
  }

  /** The write itself: whatever the copy says, a started series still has one armed occurrence after it. */
  lemma LeaveKeepsOneArmed(rows: map<string, Row>, c: Copy, fire: bool, successor: string, next: int, series: string)
    requires OneArmed(rows, series)
    requires c.id in rows && c.row.series == rows[c.id].series && (c.row.series == series ==> c.row.Recurs())
    ensures OneArmed(OrKeep(rows, LeaveRow(rows, c, fire, successor, next)), series)
  {
    hide ArmedOf;
    if LeaveRow(rows, c, fire, successor, next).Some? {
      var left := rows[c.id].(status := if fire then Fired else Expired);
      var row := Row(c.row.series, c.row.rule, c.row.anchor, next, Armed, false);
      ArmedIff(rows, c.id, series);
      ArmedAfter(rows, c.id, left, series);
      ArmedAfter(rows[c.id := left], successor, row, series);
      ArmedIff(rows, successor, series);
    }
  }

  lemma ArmKeepsOneArmed(rows: map<string, Row>, row: Row, series: string)
    requires row.series !in rows && row.status == Armed
    requires series == row.series ==> forall id :: id in rows ==> rows[id].series != series
    requires series != row.series ==> OneArmed(rows, series)
    ensures OneArmed(rows[row.series := row], series)
  {
    ArmedAfter(rows, row.series, row, series);
    if series == row.series {
      assert ArmedOf(rows, series) == {};
    } else {
      ArmedIff(rows, row.series, series);
    }
  }

  /** A row that keeps its series and whether it is armed leaves every armed set as it was. */
  lemma TouchKeepsOneArmed(rows: map<string, Row>, id: string, row: Row, series: string)
    requires OneArmed(rows, series)
    requires id in rows && row.series == rows[id].series && (row.status == Armed <==> rows[id].status == Armed)
    ensures OneArmed(rows[id := row], series)
  {
  }

  /** No row is deleted, each stays of its series, and each is well formed. */
  ghost predicate AllWellFormed(armed: set<string>, started: set<string>, rows: map<string, Row>,
                                after: map<string, Row>) {
    && rows.Keys <= after.Keys
    && (forall id :: id in after ==> WellFormed(armed, started, after[id]))
    && (forall id :: id in rows ==> after[id].series == rows[id].series)
  }

  lemma LeaveKeepsWellFormed(rows: map<string, Row>, armed: set<string>, started: set<string>, c: Copy,
                             fire: bool, successor: string, next: int)
    requires forall id :: id in rows ==> WellFormed(armed, started, rows[id])
    requires c.id in rows && c.row.series == rows[c.id].series
    requires c.row.rule.Some? ==> c.row.series in started
    ensures AllWellFormed(armed, started, rows, OrKeep(rows, LeaveRow(rows, c, fire, successor, next)))
  {
  }

  lemma RowsKeepInv(s: State, rows: map<string, Row>)
    requires Inv(s) && s.rows.Keys <= rows.Keys
    requires forall series :: series in s.started ==> OneArmed(rows, series)
    requires forall id :: id in rows ==> WellFormed(s.armed, s.started, rows[id])
    requires forall id :: id in s.rows ==> rows[id].series == s.rows[id].series
    ensures Inv(s.(rows := rows))
  {
    hide OneArmed, WellFormed;
    forall p, k | 0 <= p < |s.held| && 0 <= k < |s.held[p]|
      ensures Faithful(s.(rows := rows), s.held[p][k])
    {
      assert Faithful(s, s.held[p][k]);
    }
  }

  lemma LeaveKeepsInv(s: State, c: Copy, fire: bool, successor: string, next: int)
    requires Inv(s) && Faithful(s, c)
    ensures Inv(s.(rows := OrKeep(s.rows, LeaveRow(s.rows, c, fire, successor, next))))
  {
    var rows := OrKeep(s.rows, LeaveRow(s.rows, c, fire, successor, next));
    LeaveKeepsWellFormed(s.rows, s.armed, s.started, c, fire, successor, next);
    hide OneArmed, LeaveRow, WellFormed, OrKeep;
    forall series | series in s.started
      ensures OneArmed(rows, series)
    {
      LeaveKeepsOneArmed(s.rows, c, fire, successor, next, series);
    }
    hide Inv;
    RowsKeepInv(s, rows);
  }

  lemma ArmKeepsInv(s: State, row: Row)
    requires Inv(s) && row.series !in s.rows && row.status == Armed && (row.rule.Some? <==> row.anchor.Some?)
    ensures Inv(NewlyArmed(s, row))
  {
    var s' := NewlyArmed(s, row);
    forall id | id in s.rows
      ensures s.rows[id].series != row.series && WellFormed(s'.armed, s'.started, s.rows[id])
    {
      assert WellFormed(s.armed, s.started, s.rows[id]);
    }
    assert WellFormed(s'.armed, s'.started, row);
    hide OneArmed, WellFormed;
    forall series | series in s'.started
      ensures OneArmed(s'.rows, series)
    {
      ArmKeepsOneArmed(s.rows, row, series);
    }
    forall p, k | 0 <= p < |s.held| && 0 <= k < |s.held[p]|
      ensures Faithful(s', s.held[p][k])
    {
      assert Faithful(s, s.held[p][k]);
    }
  }

  lemma TouchKeepsWellFormed(rows: map<string, Row>, armed: set<string>, started: set<string>, id: string, row: Row)
    requires forall x :: x in rows ==> WellFormed(armed, started, rows[x])
    requires id in rows && row.series == rows[id].series && row.rule == rows[id].rule
    requires rows[id].anchor.Some? ==> row.anchor.Some?
    ensures var after := rows[id := row];
            forall x :: x in after ==> WellFormed(armed, started, after[x])
  {
  }

  lemma TouchKeepsInv(s: State, id: string, row: Row)
    requires Inv(s) && id in s.rows && row.series == s.rows[id].series && row.rule == s.rows[id].rule
    requires s.rows[id].anchor.Some? ==> row.anchor.Some?
    requires row.status == Armed <==> s.rows[id].status == Armed
    ensures Inv(s.(rows := s.rows[id := row]))
  {
    hide OneArmed, WellFormed, Faithful;
    TouchKeepsWellFormed(s.rows, s.armed, s.started, id, row);
    forall series | series in s.started
      ensures OneArmed(s.rows[id := row], series)
    {
      TouchKeepsOneArmed(s.rows, id, row, series);
    }
    RowsKeepInv(s, s.rows[id := row]);
  }

  lemma ScanKeepsInv(s: State, p: nat, ids: seq<string>)
    requires Inv(s) && Enabled(s, Scan(p, ids))
    ensures Inv(After(s, Scan(p, ids)))
  {
  }

  lemma StepKeepsInv(s: State, step: Step)
    requires Inv(s) && Enabled(s, step)
    ensures Inv(After(s, step))
  {
    match step {
      case Scan(p, ids) =>
        ScanKeepsInv(s, p, ids);
      case Stop(p) =>
        hide OneArmed, WellFormed;
        assert forall q, k :: 0 <= q < |s.held| && q != p && 0 <= k < |s.held[q]| ==> Faithful(s, s.held[q][k]);
      case Leave(p, k, fire, successor, next) =>
        assert Faithful(s, s.held[p][k]);
        hide Inv, LeaveRow;
        LeaveKeepsInv(s, s.held[p][k], fire, successor, next);
      case Arm(id, rule, anchor, fireAt) =>
        hide Inv, NewlyArmed;
        if id !in s.rows {
          ArmKeepsInv(s, Row(id, rule, anchor, fireAt, Armed, false));
        }
      case _ =>
        hide Inv;
        if step.id in s.rows && After(s, step).rows != s.rows {
          TouchKeepsInv(s, step.id, After(s, step).rows[step.id]);
        }
    }
  }

  lemma {:induction false} RunKeepsInv(states: seq<State>, steps: seq<Step>, i: nat)
    requires IsRun(states, steps) && i < |states|
    ensures Inv(states[i])
  {
    if i > 0 {
      RunKeepsInv(states, steps, i - 1);
      StepKeepsInv(states[i - 1], steps[i - 1]);
    }
  }

  /** In every state of every interleaving of scans, the series of every row that has a rule has exactly one armed
      occurrence: none is lost between leaving and re-arming, and no two scans arm two. */
  lemma SeriesNeverStopsNorForks(states: seq<State>, steps: seq<Step>, i: nat, id: string)
    requires IsRun(states, steps) && i < |states|
    requires id in states[i].rows && states[i].rows[id].rule.Some?
    ensures |ArmedOf(states[i].rows, states[i].rows[id].series)| == 1
  {
    RunKeepsInv(states, steps, i);
    assert WellFormed(states[i].armed, states[i].started, states[i].rows[id]);
    var one :| ArmedOf(states[i].rows, states[i].rows[id].series) == {one};
  }

  /** A row that has left armed stays so, and no scan, whatever copy of it it still holds, can leave it again: an
      occurrence is fired or expired once, and arms one successor. */
  lemma {:induction false} ARowIsLeftOnce(states: seq<State>, steps: seq<Step>, i: nat, j: nat, c: Copy, fire: bool,
                                          successor: string, next: int)
    requires IsRun(states, steps) && i <= j < |states|
    requires c.id in states[i].rows && states[i].rows[c.id].status != Armed
    ensures c.id in states[j].rows && states[j].rows[c.id].status != Armed
    ensures LeaveRow(states[j].rows, c, fire, successor, next) == None
  {
    if i < j {
      ARowIsLeftOnce(states, steps, i, j - 1, c, fire, successor, next);
      var s, step := states[j - 1], steps[j - 1];
      assert Enabled(s, step) && states[j] == After(s, step);
      hide IsRun;
      if step.Leave? {
        hide Enabled;
        LeftStaysLeft(s.rows, s.held[step.scan][step.k], step.fire, step.successor, step.next, c.id);
      }
    }
  }

  lemma LeftStaysLeft(rows: map<string, Row>, c: Copy, fire: bool, successor: string, next: int, id: string)
    requires id in rows && rows[id].status != Armed
    ensures var after := OrKeep(rows, LeaveRow(rows, c, fire, successor, next));
            id in after && after[id].status != Armed
  {
  }

  /** It takes both a rule and an anchor: when a scan takes the armed row of a series out of armed, one occurrence is
      armed after it exactly when the copy it held has both. */
  lemma ALeaveGoesOnExactlyWhenItsCopyRecurs(rows: map<string, Row>, c: Copy, fire: bool, successor: string, next: int)
    requires ArmedOf(rows, c.row.series) == {c.id}
    requires LeaveRow(rows, c, fire, successor, next).Some?
    ensures OneArmed(LeaveRow(rows, c, fire, successor, next).value, c.row.series) <==> c.row.Recurs()
  {
    var series := c.row.series;
    ArmedIff(rows, c.id, series);
    if c.row.Recurs() {
      assert OneArmed(rows, series);
      LeaveKeepsOneArmed(rows, c, fire, successor, next, series);
    } else {
      ArmedAfter(rows, c.id, rows[c.id].(status := if fire then Fired else Expired), series);
    }
  }
}
