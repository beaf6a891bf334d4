/**
 Numbered catch-up attempts (internal/brain/reminder_step.go, armCatchUp).

 A pass reads the ids a unit's one-shot reminders already used, takes the next
 number for the event's instant, and creates the row under that number. Any
 number of passes may read before any of them creates; the id is what makes two
 passes racing for one attempt resolve to one reminder.
 */
module CatchUp {
  import opened Options

  const MAX_INT64: int := 0x7FFF_FFFF_FFFF_FFFF
  const MIN_INT64: int := -0x8000_0000_0000_0000

  // ---- strconv, in base ten ----

  function Digit(d: nat): (c: char)
    requires d < 10
    ensures '0' <= c <= '9' && DigitValue(c) == d
  {
    ('0' as int + d) as char
  }

  function DigitValue(c: char): int {
    c as int - '0' as int
  }

  predicate IsDigits(s: string) {
    forall i :: 0 <= i < |s| ==> '0' <= s[i] <= '9'
  }

  function Itoa(n: nat): (s: string)
    ensures s != [] && IsDigits(s)
  {
    if n < 10 then [Digit(n)] else Itoa(n / 10) + [Digit(n % 10)]
  }

  function Value(s: string): int {
    if s == [] then 0 else 10 * Value(s[..|s| - 1]) + DigitValue(s[|s| - 1])
  }

  /** An optional sign and at least one digit, in range; anything else is an error. */
  function Atoi(s: string): Option<int> {
    var signed := s != [] && (s[0] == '+' || s[0] == '-');
    var digits := if signed then s[1..] else s;
    if digits == [] || !IsDigits(digits) then None
    else
      var n := if signed && s[0] == '-' then -Value(digits) else Value(digits);
      if MIN_INT64 <= n <= MAX_INT64 then Some(n) else None
  }

  lemma {:induction false} ValueOfItoa(n: nat)
    ensures Value(Itoa(n)) == n
  {
    if n >= 10 {
      ValueOfItoa(n / 10);
      assert Itoa(n)[..|Itoa(n)| - 1] == Itoa(n / 10);
    } else {
      assert Itoa(n)[..0] == [];
    }
  }

  /** The attempt written into an id is the attempt read back from it. */
  lemma AtoiOfItoa(n: nat)
    requires n <= MAX_INT64
    ensures Atoi(Itoa(n)) == Some(n)
  {
    ValueOfItoa(n);
  }

  // ---- the id of an attempt ----

  function Prefix(unitId: string, about: string): string {
    "catch-up:" + unitId + ":" + about + ":"
  }

  function Id(prefix: string, attempt: nat): string {
    prefix + Itoa(attempt)
  }

  lemma IdsAreDistinct(prefix: string, m: nat, n: nat)
    requires Id(prefix, m) == Id(prefix, n)
    ensures m == n
  {
    assert Id(prefix, m)[|prefix|..] == Itoa(m) && Id(prefix, n)[|prefix|..] == Itoa(n);
    ValueOfItoa(m);
    ValueOfItoa(n);
  }

  /** Two instants of one unit never read each other's attempts: their texts have one length (RFC 3339 in UTC). */
  lemma InstantsDoNotMeet(unitId: string, a: string, b: string, attempt: nat)
    requires |a| == |b| && a != b
    ensures !(Prefix(unitId, a) <= Id(Prefix(unitId, b), attempt))
  {
    var lead := "catch-up:" + unitId + ":";
    assert Prefix(unitId, a)[|lead|..|lead| + |a|] == a;
    assert Id(Prefix(unitId, b), attempt)[|lead|..|lead| + |b|] == b;
  }

  // ---- the scan of the ids used ----

  /** The attempt number carried by an id of this instant, if it parses. */
  function Number(prefix: string, id: string): Option<int> {
    if prefix <= id then Atoi(id[|prefix|..]) else None
  }

  /** An int one higher, as a 64-bit int wraps it. */
  function Inc(n: int): int {
    if n == MAX_INT64 then MIN_INT64 else n + 1
  }

  function Raise(prefix: string, attempt: int, id: string): int {
    match Number(prefix, id)
    case Some(n) => if n >= attempt then Inc(n) else attempt
    case None => attempt
  }

  function Scan(prefix: string, tried: seq<string>): int {
    if tried == [] then 1 else Raise(prefix, Scan(prefix, tried[..|tried| - 1]), tried[|tried| - 1])
  }

  /** Reads the next attempt off the ids already used. */
  method NextAttempt(prefix: string, tried: seq<string>) returns (attempt: int)
    ensures attempt == Scan(prefix, tried)
  {
    attempt := 1;
    for i := 0 to |tried|
      invariant attempt == Scan(prefix, tried[..i])
    {
      var number := Number(prefix, tried[i]);
      if number.Some? && number.value >= attempt {
        attempt := Inc(number.value);
      }
      assert tried[..i + 1][..i] == tried[..i];
    }
    assert tried[..|tried|] == tried;
  }

  // ---- passes over one unit and one event instant ----

  datatype Pass = Idle | HasRead(attempt: int)

  /** `rows` is the id of every one-shot reminder the unit ever had: none is ever deleted. */
  datatype State = State(rows: set<string>, passes: seq<Pass>)

  datatype Step =
    | Read(pass: nat, tried: seq<string>)   // OneShotForUnit, in whatever order it returns the rows
    | Create(pass: nat)                     // Create under the id of the attempt read
    | Crash(pass: nat)                      // the pass ends between the two, or never read
    | Other(id: string)                     // any other reminder of the unit is created

  predicate Enabled(prefix: string, s: State, step: Step) {
    match step
    case Read(p, tried) => p < |s.passes| && (set id | id in tried) == s.rows
    case Create(p) => p < |s.passes| && s.passes[p].HasRead? && s.passes[p].attempt >= 0
    case Crash(p) => p < |s.passes|
    case Other(id) => !(prefix <= id)
  }

  /** The id a step creates: none when another pass took it first. */
  function Created(prefix: string, s: State, step: Step): Option<string>
    requires Enabled(prefix, s, step)
  {
    match step
    case Create(p) =>
      var id := Id(prefix, s.passes[p].attempt);
      if id in s.rows then None else Some(id)
    case Other(id) => if id in s.rows then None else Some(id)
    case _ => None
  }

  function After(prefix: string, s: State, step: Step): State
    requires Enabled(prefix, s, step)
  {
    var created := Created(prefix, s, step);
    var rows := if created.Some? then s.rows + {created.value} else s.rows;
    match step
    case Read(p, tried) => State(rows, s.passes[p := HasRead(Scan(prefix, tried))])
    case Create(p) => State(rows, s.passes[p := Idle])
    case Crash(p) => State(rows, s.passes[p := Idle])
    case Other(_) => State(rows, s.passes)
  }

  /** A run from a unit with no catch-up for this instant, under any interleaving of any number of passes. */
  ghost predicate IsRun(prefix: string, states: seq<State>, steps: seq<Step>) {
    && |states| == |steps| + 1
    && (forall id :: id in states[0].rows ==> !(prefix <= id))
    && (forall p :: 0 <= p < |states[0].passes| ==> states[0].passes[p].Idle?)
    && forall i :: 0 <= i < |steps| ==>
         Enabled(prefix, states[i], steps[i]) && states[i + 1] == After(prefix, states[i], steps[i])
  }

  ghost predicate IsAttempt(prefix: string, id: string, k: nat) {
    exists n: nat :: 1 <= n <= k && Id(prefix, n) == id
  }

  /** The attempts used are exactly 1 to k, and no pass holds a number past the next one. */
  ghost predicate Consecutive(prefix: string, s: State, k: nat) {
    && (forall n: nat :: Id(prefix, n) in s.rows <==> 1 <= n <= k)
    && (forall id :: id in s.rows && prefix <= id ==> IsAttempt(prefix, id, k))
    && (forall p :: 0 <= p < |s.passes| && s.passes[p].HasRead? ==> 1 <= s.passes[p].attempt <= k + 1)
  }

  lemma NumberOfId(prefix: string, n: nat)
    requires n <= MAX_INT64
    ensures Number(prefix, Id(prefix, n)) == Some(n)
  {
    assert Id(prefix, n)[|prefix|..] == Itoa(n);
    AtoiOfItoa(n);
  }

  /** Whatever order the rows come in, the scan lands on one more than the largest attempt among them. */
  lemma {:induction false} ScanIsOnePastTheLargest(prefix: string, tried: seq<string>, k: nat)
    requires k < MAX_INT64
    requires forall id :: id in tried && prefix <= id ==> IsAttempt(prefix, id, k)
    ensures 1 <= Scan(prefix, tried) <= k + 1
    ensures forall n: nat :: n <= k && Id(prefix, n) in tried ==> n < Scan(prefix, tried)
  {
    assert forall id :: !(prefix <= id) ==> Number(prefix, id) == None;
    hide Number, Id;
    if tried != [] {
      var before, id := tried[..|tried| - 1], tried[|tried| - 1];
      ScanIsOnePastTheLargest(prefix, before, k);
      if IsAttempt(prefix, id, k) {
        assert id in tried && IsAttempt(prefix, id, k);
        var n: nat :| 1 <= n <= k && Id(prefix, n) == id;
        NumberOfId(prefix, n);
      }
      forall n: nat | n <= k && Id(prefix, n) in tried
        ensures n < Scan(prefix, tried)
      {
        if Id(prefix, n) == id {
          NumberOfId(prefix, n);
        } else {
          assert Id(prefix, n) in before;
        }
      }
    }
  }

  lemma StepKeepsConsecutive(prefix: string, s: State, step: Step, k: nat) returns (k': nat)
    requires Consecutive(prefix, s, k) && Enabled(prefix, s, step) && k < MAX_INT64
    ensures Consecutive(prefix, After(prefix, s, step), k')
    ensures k' == k + if step.Create? && Created(prefix, s, step).Some? then 1 else 0
    ensures step.Create? && Created(prefix, s, step).Some? ==> Created(prefix, s, step) == Some(Id(prefix, k + 1))
  {
    var s' := After(prefix, s, step);
    k' := k;
    match step {
      case Read(p, tried) =>
        ScanIsOnePastTheLargest(prefix, tried, k);
      case Create(p) =>
        var a := s.passes[p].attempt;
        if Id(prefix, a) !in s.rows {
          k' := k + 1;
          forall n: nat
            ensures Id(prefix, n) in s'.rows <==> 1 <= n <= k'
          {
            if Id(prefix, n) == Id(prefix, a) {
              IdsAreDistinct(prefix, n, a);
            }
          }
        }
      case Crash(p) =>
      case Other(id) =>
        assert forall n: nat :: prefix <= Id(prefix, n);
    }
  }

  /** How many creates of a run won their attempt. */
  function Won(prefix: string, states: seq<State>, steps: seq<Step>): nat
    requires |states| >= |steps|
  {
    if steps == [] then 0
    else
      var i := |steps| - 1;
      Won(prefix, states, steps[..i])
      + if steps[i].Create? && Enabled(prefix, states[i], steps[i]) && Created(prefix, states[i], steps[i]).Some?
        then 1 else 0
  }

  lemma RunPrefix(prefix: string, states: seq<State>, steps: seq<Step>, i: nat)
    requires IsRun(prefix, states, steps) && i <= |steps|
    ensures |states| == |steps| + 1 && IsRun(prefix, states[..i + 1], steps[..i])
    ensures i < |steps| ==> Enabled(prefix, states[i], steps[i]) && states[i + 1] == After(prefix, states[i], steps[i])
  {
  }

  lemma {:induction false} RunIsConsecutive(prefix: string, states: seq<State>, steps: seq<Step>)
    requires IsRun(prefix, states, steps) && |steps| < MAX_INT64
    ensures Won(prefix, states, steps) <= |steps|
    ensures Consecutive(prefix, states[|steps|], Won(prefix, states, steps))
  {
    if steps == [] {
      assert forall n: nat :: prefix <= Id(prefix, n);
    } else {
      hide Consecutive, After, Enabled, Created, IsRun;
      var i := |steps| - 1;
      RunPrefix(prefix, states, steps, i);
      RunIsConsecutive(prefix, states[..i + 1], steps[..i]);
      WonOfPrefix(prefix, states, steps[..i], i + 1);
      var _ := StepKeepsConsecutive(prefix, states[i], steps[i], Won(prefix, states, steps[..i]));
    }
  }

  lemma {:induction false} WonOfPrefix(prefix: string, states: seq<State>, steps: seq<Step>, n: nat)
    requires |steps| <= n <= |states|
    ensures Won(prefix, states[..n], steps) == Won(prefix, states, steps)
  {
    if steps != [] {
      WonOfPrefix(prefix, states, steps[..|steps| - 1], n);
    }
  }

  /** In every state of every run the attempts ever used are exactly 1 to k, where k is the number of
      creates that won: one row for each number, none skipped, none taken twice. */
  lemma AttemptsAreConsecutive(prefix: string, states: seq<State>, steps: seq<Step>, i: nat)
    requires IsRun(prefix, states, steps) && |steps| < MAX_INT64
    requires i < |states|
    ensures forall n: nat :: Id(prefix, n) in states[i].rows <==> 1 <= n <= Won(prefix, states, steps[..i])
    ensures forall id :: id in states[i].rows && prefix <= id ==> IsAttempt(prefix, id, Won(prefix, states, steps[..i]))
  {
    RunPrefix(prefix, states, steps, i);
    hide After, Enabled, IsRun;
    RunIsConsecutive(prefix, states[..i + 1], steps[..i]);
    WonOfPrefix(prefix, states, steps[..i], i + 1);
  }

  /** A pass that lost the race leaves every row as it was; one that won adds the next number and nothing else. */
  lemma ARacedCreateAddsTheNextAttemptOrNothing(prefix: string, states: seq<State>, steps: seq<Step>, i: nat)
    requires IsRun(prefix, states, steps) && |steps| < MAX_INT64
    requires i < |steps| && steps[i].Create?
    ensures var k := Won(prefix, states, steps[..i]);
            || (states[i + 1].rows == states[i].rows && states[i].passes[steps[i].pass].attempt <= k)
            || (states[i + 1].rows == states[i].rows + {Id(prefix, k + 1)} &&
              states[i].passes[steps[i].pass].attempt == k + 1)
  {
    RunPrefix(prefix, states, steps, i);
    RunIsConsecutive(prefix, states[..i + 1], steps[..i]);
    WonOfPrefix(prefix, states, steps[..i], i + 1);
    hide IsRun, Won;
    var _ := StepKeepsConsecutive(prefix, states[i], steps[i], Won(prefix, states, steps[..i]));
  }
}
