/**
 The digest's counters and the questions they close (internal/brain/digest.go,
 heldCounts, digestsSince, expireStaleQuestions, assembleDigest).

 How long a question has waited is never stored: it is counted from the audit
 rows of the digests that went out since it was asked, among the rows of the
 last `HISTORY_DAYS` days. So the count is right exactly as long as the window
 still holds those rows.
 */
module DigestQuestions {
  import opened Options

  const MAX_DEFERRALS: nat := 3
  const HISTORY_DAYS := MAX_DEFERRALS + 2
  const DAY := 86400
  const WINDOW := HISTORY_DAYS * DAY

  datatype Action = DigestSent | DigestHeld | OtherAction

  /** One audit row; `id` is "" when its context cannot be read. */
  datatype Row = Row(action: Action, at: int, id: string)

  datatype Question = Question(id: string, askedAt: Option<int>)

  /** The rows a pass reads: those of the last days. */
  function Since(log: seq<Row>, from: int): seq<Row> {
    if log == [] then []
    else Since(log[..|log| - 1], from) + if log[|log| - 1].at >= from then [log[|log| - 1]] else []
  }

  /** How many digests went out strictly after `at`. */
  function SentSince(history: seq<Row>, at: int): nat {
    if history == [] then 0
    else
      var row := history[|history| - 1];
      SentSince(history[..|history| - 1], at) + if row.action == DigestSent && row.at > at then 1 else 0
  }

  function HeldCount(history: seq<Row>, id: string): nat {
    if history == [] then 0
    else
      var row := history[|history| - 1];
      HeldCount(history[..|history| - 1], id) + if row.action == DigestHeld && row.id == id then 1 else 0
  }

  method DigestsSince(history: seq<Row>, at: int) returns (n: nat)
    ensures n == SentSince(history, at)
  {
    n := 0;
    for i := 0 to |history|
      invariant n == SentSince(history[..i], at)
    {
      assert history[..i + 1][..i] == history[..i];
      if history[i].action == DigestSent && history[i].at > at {
        n := n + 1;
      }
    }
    assert history[..|history|] == history;
  }

  /** How many digests held each item back, counted from the rows; a row that cannot be read counts for no one. */
  method HeldCounts(history: seq<Row>) returns (counts: map<string, nat>)
    ensures "" !in counts
    ensures forall id :: id != "" ==> (id in counts <==> HeldCount(history, id) > 0)
    ensures forall id :: id in counts ==> counts[id] == HeldCount(history, id)
  {
    counts := map[];
    for i := 0 to |history|
      invariant "" !in counts
      invariant forall id :: id != "" ==> (id in counts <==> HeldCount(history[..i], id) > 0)
      invariant forall id :: id in counts ==> counts[id] == HeldCount(history[..i], id)
    {
      assert history[..i + 1][..i] == history[..i];
      var row := history[i];
      if row.action == DigestHeld && row.id != "" {
        counts := counts[row.id := 1 + if row.id in counts then counts[row.id] else 0];
      }
    }
    assert history[..|history|] == history;
  }

  predicate Waiting(history: seq<Row>, q: Question) {
    q.askedAt.None? || SentSince(history, q.askedAt.value) < MAX_DEFERRALS
  }

  /** The questions a sweep leaves open, in the order it found them. */
  function Swept(open: seq<Question>, history: seq<Row>): seq<Question> {
    if open == [] then []
    else Swept(open[..|open| - 1], history) + if Waiting(history, open[|open| - 1]) then [open[|open| - 1]] else []
  }

  /** And those it closes. */
  function Stale(open: seq<Question>, history: seq<Row>): seq<Question> {
    if open == [] then []
    else Stale(open[..|open| - 1], history) + if Waiting(history, open[|open| - 1]) then [] else [open[|open| - 1]]
  }

  /** Each open question is closed or left, once. */
  lemma {:induction false} ClosedOrLeft(open: seq<Question>, history: seq<Row>)
    ensures multiset(Stale(open, history)) + multiset(Swept(open, history)) == multiset(open)
    ensures forall q :: q in Stale(open, history) <==> q in open && !Waiting(history, q)
  {
    if open != [] {
      var n := |open| - 1;
      ClosedOrLeft(open[..n], history);
      assert open == open[..n] + [open[n]];
      hide Waiting;
    }
  }

  /** What a sweep that writes came to: every stale question closed and recorded, in order; or it stopped at the first
      that could not be closed, or not recorded. */
  ghost predicate SweepOf(stale: seq<Question>, closes: Question -> bool, records: Question -> bool,
                          closed: seq<Question>,
                          recorded: seq<Question>, expired: Option<nat>) {
    if expired.Some? then
      closed == recorded == stale && expired.value == |stale| && forall q :: q in stale ==> closes(q) && records(q)
    else
      exists k :: 0 <= k < |stale| && StopsAt(stale, k, closes, records, closed, recorded)
  }

  ghost predicate StopsAt(stale: seq<Question>, k: nat, closes: Question -> bool, records: Question -> bool,
                          closed: seq<Question>, recorded: seq<Question>)
    requires k < |stale|
  {
    && recorded == stale[..k] && (forall q :: q in stale[..k] ==> closes(q) && records(q))
    && if closes(stale[k]) then !records(stale[k]) && closed == stale[..k + 1] else closed == stale[..k]
  }

  /** Closes every question that enough digests have gone out on, each with its row; a dry run closes none and counts
      the same. None for the count when the open questions, a close or a row fail. */
  method ExpireStaleQuestions(open: Option<seq<Question>>, history: seq<Row>, commit: bool, closes: Question -> bool,
                              records: Question -> bool)
    returns (closed: seq<Question>, recorded: seq<Question>, expired: Option<nat>)
    ensures open.None? ==> closed == recorded == [] && expired == None
    ensures open.Some? && !commit ==> closed == recorded == [] && expired == Some(|Stale(open.value, history)|)
    ensures open.Some? && commit ==>
              SweepOf(Stale(open.value, history), closes, records, closed, recorded, expired)
  {
    closed, recorded, expired := [], [], None;
    if open.None? {
      return;
    }
    var n: nat := 0;
    for i := 0 to |open.value|
      invariant n == |Stale(open.value[..i], history)|
      invariant if commit then closed == recorded == Stale(open.value[..i], history) else closed == recorded == []
      invariant commit ==> forall q :: q in closed ==> closes(q) && records(q)
    {
      var q := open.value[i];
      var stale := IsStale(history, q);
      StaleNext(open.value, history, i);
      if stale {
        n := n + 1;
        if commit {
          StaleStarts(open.value, history, i);
          if !closes(q) {
            assert StopsAt(Stale(open.value, history), n - 1, closes, records, closed, recorded);
            return;
          }
          closed := closed + [q];
          if !records(q) {
            assert StopsAt(Stale(open.value, history), n - 1, closes, records, closed, recorded);
            return;
          }
          recorded := recorded + [q];
        }
      }
    }
    assert open.value[..|open.value|] == open.value;
    expired := Some(n);
  }

  method IsStale(history: seq<Row>, q: Question) returns (stale: bool)
    ensures stale <==> !Waiting(history, q)
  {
    stale := false;
    if q.askedAt.Some? {
      var n := DigestsSince(history, q.askedAt.value);
      stale := n >= MAX_DEFERRALS;
    }
  }

  lemma StaleNext(open: seq<Question>, history: seq<Row>, i: nat)
    requires i < |open|
    ensures Stale(open[..i + 1], history) ==
            Stale(open[..i], history) + if Waiting(history, open[i]) then [] else [open[i]]
  {
    assert open[..i + 1][..i] == open[..i];
  }

  /** What is stale among the first questions comes first. */
  lemma {:induction false} StaleStarts(open: seq<Question>, history: seq<Row>, i: nat)
    requires i < |open| && !Waiting(history, open[i])
    ensures var before, all := Stale(open[..i], history), Stale(open, history);
            before + [open[i]] <= all && |before| < |all| && all[..|before|] == before && all[|before|] == open[i]
            && all[..|before| + 1] == before + [open[i]]
    decreases |open|
  {
    var n := |open| - 1;
    if i < n {
      StaleStarts(open[..n], history, i);
      assert open[..n][..i] == open[..i];
    }
  }

  // ---- mornings ----

  /** One digest pass that sweeps to the end: what was answered since the last one, or closed by a sweep that stopped on
      the way; whether the message went out, with which question; and whether its audit row was written (a failed write
      after the send leaves the digest due again). */
  datatype Morning = Morning(now: int, answered: set<string>, sent: bool, asks: Option<string>, recorded: bool)

  datatype State = State(log: seq<Row>, open: seq<Question>)

  function Unanswered(open: seq<Question>, answered: set<string>): seq<Question> {
    if open == [] then []
    else Unanswered(open[..|open| - 1], answered) + if open[|open| - 1].id in answered then [] else [open[|open| - 1]]
  }

  /** The open questions after the sweep of a pass, before it asks one. */
  function AfterSweep(s: State, m: Morning): seq<Question> {
    Swept(Unanswered(s.open, m.answered), Since(s.log, m.now - WINDOW))
  }

  function After(s: State, m: Morning): State {
    var swept := AfterSweep(s, m);
    if !m.sent then State(s.log, swept)
    else
      State(s.log + if m.recorded then [Row(DigestSent, m.now, "")] else [],
            swept + if m.asks.Some? then [Question(m.asks.value, Some(m.now))] else [])
  }

  const START := State([], [])

  /** Passes come at increasing instants. */
  ghost predicate IsRun(states: seq<State>, mornings: seq<Morning>) {
    && |states| == |mornings| + 1
    && states[0] == START
    && (forall i :: 0 <= i < |mornings| ==> states[i + 1] == After(states[i], mornings[i]))
    && (forall i, j :: 0 <= i < j < |mornings| ==> mornings[i].now < mornings[j].now)
  }

  // ---- what the log knows of the open questions ----

  ghost predicate HasRow(log: seq<Row>, at: int) {
    Row(DigestSent, at, "") in log
  }

  /** Questions in the order asked, none later than `now`. */
  ghost predicate Ordered(open: seq<Question>, now: int) {
    && (forall k :: 0 <= k < |open| ==> open[k].askedAt.Some? && open[k].askedAt.value <= now)
    && (forall i, j :: 0 <= i < j < |open| ==> open[i].askedAt.value < open[j].askedAt.value)
  }

  /** How many open questions were asked by a digest that left no row. */
  ghost function Unrecorded(open: seq<Question>, log: seq<Row>): nat {
    if open == [] then 0
    else
      var q := open[|open| - 1];
      Unrecorded(open[..|open| - 1], log) + if q.askedAt.Some? && HasRow(log, q.askedAt.value) then 0 else 1
  }

  /** Every digest since q was asked is still among the rows read. */
  ghost predicate Covered(log: seq<Row>, q: Question, now: int) {
    q.askedAt.Some? && forall k :: 0 <= k < |log| && log[k].at > q.askedAt.value ==> log[k].at >= now - WINDOW
  }

  lemma {:induction false} FilterOrdered(open: seq<Question>, answered: set<string>, history: seq<Row>, now: int)
    requires Ordered(open, now)
    ensures Ordered(Unanswered(open, answered), now) && Ordered(Swept(open, history), now)
    ensures forall q :: q in Unanswered(open, answered) ==> q in open
    ensures forall q :: q in Swept(open, history) ==> q in open && Waiting(history, q)
  {
    if open != [] {
      var n := |open| - 1;
      FilterOrdered(open[..n], answered, history, now);
      assert forall q :: q in open[..n] ==> q.askedAt.Some? && q.askedAt.value < open[n].askedAt.value;
    }
  }

  /** While the rows are all there, the window changes nothing. */
  lemma {:induction false} WindowKeepsTheCount(log: seq<Row>, at: int, from: int)
    requires forall k :: 0 <= k < |log| && log[k].at > at ==> log[k].at >= from
    ensures SentSince(Since(log, from), at) == SentSince(log, at)
  {
    if log != [] {
      var n := |log| - 1;
      var rest, row := Since(log[..n], from), log[n];
      WindowKeepsTheCount(log[..n], at, from);
      if row.at >= from {
        assert (rest + [row])[..|rest|] == rest;
        assert SentSince(rest + [row], at) == SentSince(rest, at) +
            if row.action == DigestSent && row.at > at then 1 else 0;
      } else {
        assert Since(log, from) == rest;
      }
    }
  }

  /** The distinct rows of the digests that went out after `at`. */
  ghost function SentRows(log: seq<Row>, at: int): set<Row> {
    if log == [] then {}
    else
      var row := log[|log| - 1];
      SentRows(log[..|log| - 1], at) + if row.action == DigestSent && row.at > at then {row} else {}
  }

  lemma {:induction false} SentRowsAreCounted(log: seq<Row>, at: int)
    ensures |SentRows(log, at)| <= SentSince(log, at)
    ensures forall row :: row in log && row.action == DigestSent && row.at > at ==> row in SentRows(log, at)
  {
    if log != [] {
      SentRowsAreCounted(log[..|log| - 1], at);
    }
  }

  /** Each later question that left a row left one of its own. */
  lemma {:induction false} LaterQuestionsLeftRows(open: seq<Question>, log: seq<Row>, at: int, now: int)
    returns (rows: set<Row>)
    requires Ordered(open, now) && forall k :: 0 <= k < |open| ==> open[k].askedAt.value > at
    ensures |rows| + Unrecorded(open, log) == |open|
    ensures forall row :: row in rows ==> row in log && row.action == DigestSent && row.at > at
    ensures forall row :: row in rows ==> exists k :: 0 <= k < |open| && open[k].askedAt == Some(row.at)
  {
    rows := {};
    if open != [] {
      hide HasRow;
      var n := |open| - 1;
      var q := open[n];
      rows := LaterQuestionsLeftRows(open[..n], log, at, now);
      assert forall k :: 0 <= k < n ==> open[..n][k] == open[k];
      if HasRow(log, q.askedAt.value) {
        var row := OneRow(log, q.askedAt.value);
        assert row !in rows;
        rows := rows + {row};
      }
    }
  }

  lemma OneRow(log: seq<Row>, at: int) returns (row: Row)
    requires HasRow(log, at)
    ensures row in log && row.action == DigestSent && row.at == at
  {
    row := Row(DigestSent, at, "");
  }

  lemma {:induction false} UnrecordedSplits(open: seq<Question>, log: seq<Row>)
    requires open != []
    ensures Unrecorded(open, log) == Unrecorded(open[..1], log) + Unrecorded(open[1..], log)
  {
    var n := |open| - 1;
    if n > 0 {
      UnrecordedSplits(open[..n], log);
      assert open[..n][..1] == open[..1] && open[1..][..n - 1] == open[..n][1..];
      assert open[1..][n - 1] == open[n];
    } else {
      assert open[..1] == open && open[1..] == [];
    }
  }

  /** The first question still waiting sees every later one's digest, so there are few of them. */
  lemma FewWait(open: seq<Question>, log: seq<Row>, now: int)
    requires Ordered(open, now)
    requires open != [] ==> SentSince(log, open[0].askedAt.value) < MAX_DEFERRALS
    ensures |open| <= MAX_DEFERRALS + Unrecorded(open, log)
  {
    if open != [] {
      var at := open[0].askedAt.value;
      var rows := LaterQuestionsLeftRows(open[1..], log, at, now);
      SentRowsAreCounted(log, at);
      SubsetSize(rows, SentRows(log, at));
      UnrecordedSplits(open, log);
    }
  }

  lemma {:induction false} SubsetSize<T>(a: set<T>, b: set<T>)
    requires forall x :: x in a ==> x in b
    ensures |a| <= |b|
  {
    if a != {} {
      var x :| x in a;
      SubsetSize(a - {x}, b - {x});
    }
  }

  lemma StepIsOrdered(s: State, m: Morning, before: int)
    requires Ordered(s.open, before) && before < m.now
    ensures Ordered(AfterSweep(s, m), before) && Ordered(After(s, m).open, m.now)
    ensures forall q :: q in AfterSweep(s, m) ==> q in s.open && Waiting(Since(s.log, m.now - WINDOW), q)
  {
    var history := Since(s.log, m.now - WINDOW);
    hide Ordered, Since, Swept, Unanswered, Waiting;
    FilterOrdered(s.open, m.answered, history, before);
    FilterOrdered(Unanswered(s.open, m.answered), m.answered, history, before);
    OrderedAppend(AfterSweep(s, m), before, m.now, m.asks);
  }

  lemma OrderedAppend(open: seq<Question>, before: int, now: int, asks: Option<string>)
    requires Ordered(open, before) && before < now
    ensures Ordered(open, now)
    ensures Ordered(open + if asks.Some? then [Question(asks.value, Some(now))] else [], now)
  {
  }

  /** The instant just before pass i. */
  function Before(mornings: seq<Morning>, i: nat): int
    requires i <= |mornings|
  {
    if i > 0 then mornings[i - 1].now else if i < |mornings| then mornings[i].now - 1 else 0
  }

  lemma {:induction false} RunIsOrdered(states: seq<State>, mornings: seq<Morning>, i: nat)
    requires IsRun(states, mornings) && i < |states|
    ensures Ordered(states[i].open, Before(mornings, i))
  {
    if i > 0 {
      RunIsOrdered(states, mornings, i - 1);
      StepIsOrdered(states[i - 1], mornings[i - 1], Before(mornings, i - 1));
    }
  }

  /** In every run, as long as the window covers the open questions, at most MAX_DEFERRALS of them are open
      after a sweep, besides those asked by a digest whose row was never written; and one more once it asks. */
  lemma OpenQuestionsAreBounded(states: seq<State>, mornings: seq<Morning>, i: nat)
    requires IsRun(states, mornings) && i < |mornings|
    requires forall q :: q in states[i].open ==> Covered(states[i].log, q, mornings[i].now)
    ensures var swept := AfterSweep(states[i], mornings[i]);
            && |swept| <= MAX_DEFERRALS + Unrecorded(swept, states[i].log)
            && |states[i + 1].open| <= |swept| + 1
  {
    RunIsOrdered(states, mornings, i);
    StepFollows(states, mornings, i);
    hide IsRun, Ordered, AfterSweep, Unrecorded, Covered;
    StepIsBounded(states[i], mornings[i], Before(mornings, i));
  }

  lemma StepFollows(states: seq<State>, mornings: seq<Morning>, i: nat)
    requires IsRun(states, mornings) && i < |mornings|
    ensures i + 1 < |states| && states[i + 1] == After(states[i], mornings[i]) && Before(mornings, i) < mornings[i].now
  {
  }

  lemma StepIsBounded(s: State, m: Morning, before: int)
    requires Ordered(s.open, before) && before < m.now
    requires forall q :: q in s.open ==> Covered(s.log, q, m.now)
    ensures |AfterSweep(s, m)| <= MAX_DEFERRALS + Unrecorded(AfterSweep(s, m), s.log)
    ensures |After(s, m).open| <= |AfterSweep(s, m)| + 1
  {
    StepIsOrdered(s, m, before);
    OldestStillWaits(s, m);
    hide Ordered, AfterSweep, Unrecorded, Covered, SentSince;
    FewWait(AfterSweep(s, m), s.log, before);
  }

  /** The question open the longest is one the sweep left, and the window held every row counted for it. */
  lemma OldestStillWaits(s: State, m: Morning)
    requires forall q :: q in AfterSweep(s, m) ==> q in s.open && Waiting(Since(s.log, m.now - WINDOW), q)
    requires forall q :: q in s.open ==> Covered(s.log, q, m.now)
    ensures var swept := AfterSweep(s, m);
            swept != [] ==> swept[0].askedAt.Some? && SentSince(s.log, swept[0].askedAt.value) < MAX_DEFERRALS
  {
    var swept := AfterSweep(s, m);
    hide AfterSweep, Since, SentSince;
    if swept != [] {
      assert swept[0] in swept;
      assert Covered(s.log, swept[0], m.now);
      WindowKeepsTheCount(s.log, swept[0].askedAt.value, m.now - WINDOW);
    }
  }

  // ---- a steady cadence: when the window is wide enough ----

  /** Digests every `gap` seconds, each asking one question nobody answers, each leaving its row. */
  function Steady(gap: nat, n: nat): State {
    if n == 0 then START else After(Steady(gap, n - 1), Morning((n - 1) * gap, {}, true, Some("q"), true))
  }

  function AskedAtStep(gap: nat, k: nat): Question {
    Question("q", Some(k * gap))
  }

  ghost predicate SteadyLog(gap: nat, log: seq<Row>) {
    forall k :: 0 <= k < |log| ==> log[k] == Row(DigestSent, k * gap, "")
  }

  /** Of the first i rows, those after row k and inside the window of pass n: at least the last MAX_DEFERRALS
      when the window reaches that far back, always fewer when it does not. */
  predicate CountIs(gap: nat, n: nat, k: nat, i: nat, count: nat) {
    && (i <= k + 1 ==> count == 0)
    && (i > k ==> count <= i - 1 - k)
    && (MAX_DEFERRALS * gap <= WINDOW && n - k > MAX_DEFERRALS ==> count >= i - (n - MAX_DEFERRALS))
    && (MAX_DEFERRALS * gap > WINDOW ==>
         if i <= n - MAX_DEFERRALS then count == 0 else count <= i - 1 - (n - MAX_DEFERRALS))
  }

  lemma {:induction false} SteadyCount(gap: nat, log: seq<Row>, n: nat, k: nat, i: nat)
    requires gap > 0 && SteadyLog(gap, log) && |log| == n && i <= n && k < n
    ensures CountIs(gap, n, k, i, SentSince(Since(log[..i], n * gap - WINDOW), k * gap))
  {
    if i > 0 {
      hide Since, SentSince, CountIs;
      var j := i - 1;
      SteadyCount(gap, log, n, k, j);
      assert log[..i][..j] == log[..j] && log[..i][j] == log[j];
      SentSinceNext(log[..i], n * gap - WINDOW, k * gap);
      CountNext(gap, n, k, j, SentSince(Since(log[..j], n * gap - WINDOW), k * gap));
    }
  }

  lemma CountNext(gap: nat, n: nat, k: nat, j: nat, count: nat)
    requires gap > 0 && j < n && k < n && CountIs(gap, n, k, j, count)
    ensures CountIs(gap, n, k, j + 1, count + if j * gap > k * gap && j * gap >= n * gap - WINDOW then 1 else 0)
  {
    RowIsCounted(gap, n, k, j);
  }

  lemma SentSinceNext(log: seq<Row>, from: int, at: int)
    requires log != []
    ensures var row := log[|log| - 1];
            SentSince(Since(log, from), at)
            == SentSince(Since(log[..|log| - 1], from), at) +
                if row.action == DigestSent && row.at > at && row.at >= from then 1 else 0
  {
    var rest, row := Since(log[..|log| - 1], from), log[|log| - 1];
    assert (rest + [row])[..|rest|] == rest && rest + [] == rest;
  }

  lemma RowIsCounted(gap: nat, n: nat, k: nat, j: nat)
    requires gap > 0
    ensures j * gap > k * gap <==> j > k
    ensures MAX_DEFERRALS * gap <= WINDOW && n - j <= MAX_DEFERRALS ==> j * gap >= n * gap - WINDOW
    ensures MAX_DEFERRALS * gap > WINDOW && n - j >= MAX_DEFERRALS ==> j * gap < n * gap - WINDOW
  {
  }

  lemma SteadyWaits(gap: nat, log: seq<Row>, n: nat, k: nat)
    requires gap > 0 && SteadyLog(gap, log) && |log| == n && k < n
    ensures Waiting(Since(log, n * gap - WINDOW), AskedAtStep(gap, k)) <==>
              MAX_DEFERRALS * gap > WINDOW || n - k <= MAX_DEFERRALS
  {
    SteadyCount(gap, log, n, k, n);
    assert log[..n] == log;
  }

  lemma {:induction false} SweptKeepsATail(open: seq<Question>, history: seq<Row>, keep: nat)
    requires keep <= |open|
    requires forall k :: 0 <= k < |open| ==> (Waiting(history, open[k]) <==> k >= keep)
    ensures Swept(open, history) == open[keep..]
  {
    if open != [] {
      var n := |open| - 1;
      if keep <= n {
        SweptKeepsATail(open[..n], history, keep);
        assert open[keep..] == open[..n][keep..] + [open[n]];
      } else {
        SweptKeepsATail(open[..n], history, n);
        assert open[..n][n..] == [] && open[keep..] == [];
      }
    }
  }

  lemma {:induction false} NobodyAnswers(open: seq<Question>)
    ensures Unanswered(open, {}) == open
  {
    if open != [] {
      NobodyAnswers(open[..|open| - 1]);
    }
  }

  /** The questions of the last `width` passes before pass n, oldest first. */
  function LastAsked(gap: nat, n: nat, width: nat): (open: seq<Question>)
    requires width <= n
    ensures |open| == width
  {
    seq(width, k requires 0 <= k < width => AskedAtStep(gap, n - width + k))
  }

  function OpenWidth(gap: nat, n: nat): nat {
    if MAX_DEFERRALS * gap <= WINDOW && n > MAX_DEFERRALS + 1 then MAX_DEFERRALS + 1 else n
  }

  /** Exactly when the queue is bounded: with digests every `gap` seconds it holds at most MAX_DEFERRALS + 1
      questions if and only if MAX_DEFERRALS of those digests fit the window that is read (40 hours apart
      or less). With digests further apart no question is ever closed and all n stay open. */
  lemma {:induction false} TheWindowBoundsTheQueueExactlyWhenItHoldsEnoughDigests(gap: nat, n: nat)
    requires gap > 0
    ensures |Steady(gap, n).open| == if MAX_DEFERRALS * gap <= WINDOW && n > MAX_DEFERRALS + 1 then MAX_DEFERRALS +
              1 else n
    ensures Steady(gap, n).open == LastAsked(gap, n, OpenWidth(gap, n))
    ensures |Steady(gap, n).log| == n && SteadyLog(gap, Steady(gap, n).log)
  {
    if n > 0 {
      var p := n - 1;
      TheWindowBoundsTheQueueExactlyWhenItHoldsEnoughDigests(gap, p);
      SteadyStep(gap, p);
    }
  }

  lemma SteadyNext(gap: nat, p: nat)
    ensures var s := Steady(gap, p);
            var swept := Swept(s.open, Since(s.log, p * gap - WINDOW));
            Steady(gap, p + 1) == State(s.log + [Row(DigestSent, p * gap, "")], swept + [AskedAtStep(gap, p)])
  {
    NobodyAnswers(Steady(gap, p).open);
    hide Since, Swept, Unanswered;
  }

  lemma SteadyStep(gap: nat, p: nat)
    requires gap > 0
    requires Steady(gap, p).open == LastAsked(gap, p, OpenWidth(gap, p))
    requires |Steady(gap, p).log| == p && SteadyLog(gap, Steady(gap, p).log)
    ensures Steady(gap, p + 1).open == LastAsked(gap, p + 1, OpenWidth(gap, p + 1))
    ensures |Steady(gap, p + 1).log| == p + 1 && SteadyLog(gap, Steady(gap, p + 1).log)
  {
    hide Since, Swept, Waiting, Steady;
    var s := Steady(gap, p);
    var history := Since(s.log, p * gap - WINDOW);
    var keep := OpenWidth(gap, p) + 1 - OpenWidth(gap, p + 1);
    SteadyNext(gap, p);
    forall k | 0 <= k < |s.open|
      ensures Waiting(history, s.open[k]) <==> k >= keep
    {
      SteadyWaits(gap, s.log, p, p - |s.open| + k);
    }
    SweptKeepsATail(s.open, history, keep);
  }

  /** The mornings at these instants, each with a digest that asks a question and whose audit row is never written. */
  function WithNoRows(at: seq<int>): State {
    if at == [] then START
    else After(WithNoRows(at[..|at| - 1]), Morning(at[|at| - 1], {}, true, Some("q"), false))
  }

  /** A digest whose audit row is never written can be sent again and again, and each time asks one more question: the
      bound needs the rows, not only the digests. */
  lemma {:induction false} WithoutItsRowADigestAsksAgain(at: seq<int>)
    ensures WithNoRows(at) == State([], Asked(at)) && |WithNoRows(at).open| == |at|
  {
    if at == [] {
      assert Asked([]) == [];
    } else {
      var n := |at| - 1;
      WithoutItsRowADigestAsksAgain(at[..n]);
      hide After;
      AsksOnTopOf(at[..n], at[n]);
      assert at[..n] + [at[n]] == at;
    }
  }

  /** Questions asked at these instants. */
  function Asked(at: seq<int>): (open: seq<Question>)
    ensures |open| == |at|
  {
    seq(|at|, k requires 0 <= k < |at| => Question("q", Some(at[k])))
  }

  /** With no row in the log, a pass closes nothing and asks one more. */
  lemma AsksOnTopOf(at: seq<int>, now: int)
    ensures After(State([], Asked(at)), Morning(now, {}, true, Some("q"), false)) == State([], Asked(at + [now]))
  {
    hide Swept, Unanswered, Since, Waiting;
    var open := Asked(at);
    NothingSince(now - WINDOW);
    AllStayOpen(open, {}, []);
    assert Asked(at + [now]) == open + [Question("q", Some(now))];
  }

  lemma NothingSince(from: int)
    ensures Since([], from) == [] && forall q :: Waiting([], q)
  {
  }

  lemma {:induction false} AllStayOpen(open: seq<Question>, answered: set<string>, history: seq<Row>)
    requires forall q :: q in open ==> q.id !in answered && Waiting(history, q)
    ensures Unanswered(open, answered) == open && Swept(open, history) == open
  {
    if open != [] {
      hide Waiting;
      AllStayOpen(open[..|open| - 1], answered, history);
      assert open == open[..|open| - 1] + [open[|open| - 1]];
    }
  }
}
