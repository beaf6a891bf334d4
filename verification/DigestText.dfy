/**
 The daily digest's one message (internal/brain/digest.go, digestMessageGoal and
 composeDigest; internal/brain/render.go, clip).

 The carried items are grouped into lines, one line a unit, and the message is
 shortened until it fits: the check-ins asked again give way first, the last
 first, then the day's lines, never the last one. What is left out is neither
 sent nor marked. The wording is a parameter: every result holds in any language.
 */
module DigestText {
  import opened Options

  const MESSAGE_UNITS := 4096
  const REMINDER_TEXT_RUNES := 500
  const QUESTION_SNIPPET_RUNES := 60

  datatype Phrases = Phrases(
    morning: string,
    header: nat -> string,
    item: string -> string,
    more: nat -> string,
    askAgain: string,
    done: string -> string,
    oneMore: string,
    question: (string, string) -> string,
    somethingYouAsked: string)

  datatype Trigger = Trigger(id: string, unit: Option<string>, text: string)

  datatype Item = Item(id: string, deferrals: nat)

  datatype DueLine = DueLine(unit: string, text: string)

  datatype Question = Question(from: string, to: string)

  datatype Line = Line(text: string, items: seq<Item>)

  // ---- lengths ----

  /** How a rune is counted: two code units past the basic plane. */
  function Utf16Units(s: string): nat {
    if s == [] then 0 else Utf16Units(s[..|s| - 1]) + if s[|s| - 1] as int >= 0x1_0000 then 2 else 1
  }

  method Utf16Len(s: string) returns (n: nat)
    ensures n == Utf16Units(s)
  {
    n := 0;
    for i := 0 to |s|
      invariant n == Utf16Units(s[..i])
    {
      assert s[..i + 1][..i] == s[..i];
      n := n + if s[i] as int >= 0x1_0000 then 2 else 1;
    }
    assert s[..|s|] == s;
  }

  function Cut(s: string, runes: nat): (r: string)
    ensures |r| <= runes + 1
    ensures |s| <= runes ==> r == s
    ensures |s| > runes ==> s[..runes] <= r
  {
    if |s| > runes then s[..runes] + "\U{2026}" else s
  }

  function Clip(s: string): string {
    Cut(s, REMINDER_TEXT_RUNES)
  }

  function Snippet(s: string): string {
    Cut(s, QUESTION_SNIPPET_RUNES)
  }

  // ---- the items and their units ----

  /** The row of an id: the last of the pending rows under it. */
  function ById(pending: seq<Trigger>): map<string, Trigger> {
    if pending == [] then map[] else ById(pending[..|pending| - 1])[pending[|pending| - 1].id := pending[|pending| - 1]]
  }

  /** An item whose row is unknown has no unit and nothing to say. */
  function RowOf(byId: map<string, Trigger>, item: Item): Trigger {
    if item.id in byId then byId[item.id] else Trigger("", None, "")
  }

  function UnitOf(byId: map<string, Trigger>, item: Item): Option<string> {
    RowOf(byId, item).unit
  }

  function Said(phrases: Phrases, byId: map<string, Trigger>, item: Item): string {
    var text := RowOf(byId, item).text;
    if text == "" then phrases.somethingYouAsked else text
  }

  /** The carried items of one unit, in the order they are carried. */
  function OfUnit(byId: map<string, Trigger>, carry: seq<Item>, unit: string): seq<Item> {
    if carry == [] then []
    else
      OfUnit(byId, carry[..|carry| - 1], unit)
      + if UnitOf(byId, carry[|carry| - 1]) == Some(unit) then [carry[|carry| - 1]] else []
  }

  predicate HasUnit(byId: map<string, Trigger>, carry: seq<Item>, unit: string) {
    exists k :: 0 <= k < |carry| && UnitOf(byId, carry[k]) == Some(unit)
  }

  predicate IsDue(tasks: seq<DueLine>, unit: string) {
    exists k :: 0 <= k < |tasks| && tasks[k].unit == unit
  }

  /** The items that open a line of their own: no unit, or the first of a unit that is not due today. */
  function Openers(byId: map<string, Trigger>, tasks: seq<DueLine>, carry: seq<Item>): seq<Item> {
    if carry == [] then []
    else
      var before, item := carry[..|carry| - 1], carry[|carry| - 1];
      Openers(byId, tasks, before)
      + match UnitOf(byId, item)
        case None => [item]
        case Some(u) => if IsDue(tasks, u) || HasUnit(byId, before, u) then [] else [item]
  }

  function ItemsOf(lines: seq<Line>): seq<Item> {
    if lines == [] then [] else ItemsOf(lines[..|lines| - 1]) + lines[|lines| - 1].items
  }

  /** What one line stands for, given what is carried: a due task and its unit's reminders,
      a unit's reminders, or one reminder of no unit. */
  ghost predicate Stands(phrases: Phrases, byId: map<string, Trigger>, tasks: seq<DueLine>, carry: seq<Item>,
                         i: nat, line: Line) {
    if i < |tasks| then
      && line.text == tasks[i].text
      && line.items == if IsDue(tasks[i + 1..], tasks[i].unit) then [] else OfUnit(byId, carry, tasks[i].unit)
    else
      && line.items != []
      && line.text == Said(phrases, byId, line.items[0])
      && match UnitOf(byId, line.items[0])
         case None => |line.items| == 1
         case Some(u) => line.items == OfUnit(byId, carry, u) && !IsDue(tasks, u)
  }

  ghost predicate Grouped(phrases: Phrases, byId: map<string, Trigger>, tasks: seq<DueLine>, carry: seq<Item>,
                          lines: seq<Line>) {
    var openers := Openers(byId, tasks, carry);
    && |lines| == |tasks| + |openers|
    && (forall i :: 0 <= i < |lines| ==> Stands(phrases, byId, tasks, carry, i, lines[i]))
    && (forall i :: |tasks| <= i < |lines| ==> lines[i].items[0] == openers[i - |tasks|])
    && multiset(ItemsOf(lines)) == multiset(carry)
  }

  /** Where each unit's line is: its last due task's, else the one its first carried item opened. */
  ghost predicate Indexed(byId: map<string, Trigger>, tasks: seq<DueLine>, carry: seq<Item>, lines: seq<Line>,
                          lineOf: map<string, nat>) {
    && (forall u :: u in lineOf <==> IsDue(tasks, u) || HasUnit(byId, carry, u))
    && (forall u :: u in lineOf ==> Leads(byId, tasks, lines, u, lineOf[u]))
    && (forall i, u :: 0 <= i < |lines| && Leads(byId, tasks, lines, u, i) ==> u in lineOf && lineOf[u] == i)
  }

  /** Line i is the one unit u's reminders join. */
  ghost predicate Leads(byId: map<string, Trigger>, tasks: seq<DueLine>, lines: seq<Line>, u: string, i: nat) {
    && i < |lines|
    && if i < |tasks| then tasks[i].unit == u && !IsDue(tasks[i + 1..], u)
       else lines[i].items != [] && UnitOf(byId, lines[i].items[0]) == Some(u) && !IsDue(tasks, u)
  }

  lemma HasUnitAfter(byId: map<string, Trigger>, carry: seq<Item>, item: Item, u: string)
    ensures HasUnit(byId, carry + [item], u) <==> HasUnit(byId, carry, u) || UnitOf(byId, item) == Some(u)
  {
    if HasUnit(byId, carry, u) {
      var k :| 0 <= k < |carry| && UnitOf(byId, carry[k]) == Some(u);
      assert UnitOf(byId, (carry + [item])[k]) == Some(u);
    }
    assert (carry + [item])[|carry|] == item;
  }

  lemma {:induction false} OfUnitIsEmpty(byId: map<string, Trigger>, carry: seq<Item>, u: string)
    ensures OfUnit(byId, carry, u) == [] <==> !HasUnit(byId, carry, u)
  {
    if carry != [] {
      OfUnitIsEmpty(byId, carry[..|carry| - 1], u);
      HasUnitAfter(byId, carry[..|carry| - 1], carry[|carry| - 1], u);
      assert carry == carry[..|carry| - 1] + [carry[|carry| - 1]];
    }
  }

  lemma {:induction false} ItemsOfJoin(lines: seq<Line>, i: nat, item: Item)
    requires i < |lines|
    ensures multiset(ItemsOf(Join(lines, i, item))) == multiset(ItemsOf(lines)) + multiset{item}
  {
    var after, n := Join(lines, i, item), |lines| - 1;
    if i < n {
      ItemsOfJoin(lines[..n], i, item);
      assert after[..n] == Join(lines[..n], i, item);
    } else {
      assert after[..n] == lines[..n];
    }
  }

  lemma AfterItem(byId: map<string, Trigger>, tasks: seq<DueLine>, carry: seq<Item>, item: Item)
    ensures Openers(byId, tasks, carry + [item]) == Openers(byId, tasks, carry)
              + match UnitOf(byId, item)
                case None => [item]
                case Some(u) => if IsDue(tasks, u) || HasUnit(byId, carry, u) then [] else [item]
    ensures forall u :: OfUnit(byId, carry + [item], u) == OfUnit(byId, carry, u) +
              if UnitOf(byId, item) == Some(u) then [item] else []
    ensures forall u :: HasUnit(byId, carry + [item], u) <==> HasUnit(byId, carry, u) || UnitOf(byId, item) == Some(u)
    ensures multiset(carry + [item]) == multiset(carry) + multiset{item}
  {
    assert (carry + [item])[..|carry|] == carry;
    forall u
      ensures HasUnit(byId, carry + [item], u) <==> HasUnit(byId, carry, u) || UnitOf(byId, item) == Some(u)
    {
      HasUnitAfter(byId, carry, item, u);
    }
  }

  function Join(lines: seq<Line>, i: nat, item: Item): seq<Line>
    requires i < |lines|
  {
    lines[i := lines[i].(items := lines[i].items + [item])]
  }

  lemma JoinKeepsGrouped(phrases: Phrases, byId: map<string, Trigger>, tasks: seq<DueLine>, carry: seq<Item>,
                         item: Item, u: string, lines: seq<Line>, i: nat)
    requires Grouped(phrases, byId, tasks, carry, lines)
    requires UnitOf(byId, item) == Some(u) && (IsDue(tasks, u) || HasUnit(byId, carry, u)) && i < |lines|
    requires forall j :: 0 <= j < |lines| ==> (Leads(byId, tasks, lines, u, j) <==> j == i)
    ensures Grouped(phrases, byId, tasks, carry + [item], Join(lines, i, item))
  {
    var after := Join(lines, i, item);
    AfterItem(byId, tasks, carry, item);
    OfUnitIsEmpty(byId, carry, u);
    ItemsOfJoin(lines, i, item);
    forall j | 0 <= j < |after|
      ensures Stands(phrases, byId, tasks, carry + [item], j, after[j])
      ensures j >= |tasks| ==> after[j].items[0] == lines[j].items[0]
    {
      assert Stands(phrases, byId, tasks, carry, j, lines[j]);
      assert Leads(byId, tasks, lines, u, j) <==> j == i;
    }
    assert Openers(byId, tasks, carry + [item]) == Openers(byId, tasks, carry);
  }

  lemma JoinKeepsIndexed(byId: map<string, Trigger>, tasks: seq<DueLine>, carry: seq<Item>, item: Item, u: string,
                         lines: seq<Line>, lineOf: map<string, nat>)
    requires Indexed(byId, tasks, carry, lines, lineOf)
    requires UnitOf(byId, item) == Some(u) && u in lineOf && lineOf[u] < |lines|
    requires lineOf[u] >= |tasks| ==> lines[lineOf[u]].items != []
    ensures Indexed(byId, tasks, carry + [item], Join(lines, lineOf[u], item), lineOf)
  {
    forall v
      ensures HasUnit(byId, carry + [item], v) <==> HasUnit(byId, carry, v) || UnitOf(byId, item) == Some(v)
    {
      HasUnitAfter(byId, carry, item, v);
    }
    hide IsDue, HasUnit;
    var after := Join(lines, lineOf[u], item);
    assert forall v, j :: 0 <= j < |lines| ==> (Leads(byId, tasks, after, v, j) <==> Leads(byId, tasks, lines, v, j));
  }

  /** An item whose unit has a line joins it. */
  lemma JoinKeeps(phrases: Phrases, byId: map<string, Trigger>, tasks: seq<DueLine>, carry: seq<Item>, item: Item,
                  u: string, lines: seq<Line>, lineOf: map<string, nat>)
    requires Grouped(phrases, byId, tasks, carry, lines) && Indexed(byId, tasks, carry, lines, lineOf)
    requires UnitOf(byId, item) == Some(u) && u in lineOf
    ensures lineOf[u] < |lines|
    ensures Grouped(phrases, byId, tasks, carry + [item], Join(lines, lineOf[u], item))
    ensures Indexed(byId, tasks, carry + [item], Join(lines, lineOf[u], item), lineOf)
  {
    hide Grouped;
    assert Leads(byId, tasks, lines, u, lineOf[u]);
    JoinKeepsGrouped(phrases, byId, tasks, carry, item, u, lines, lineOf[u]);
    JoinKeepsIndexed(byId, tasks, carry, item, u, lines, lineOf);
  }

  /** A line keeps what it stands for when the next item is of no unit, or of one not seen before. */
  lemma StandsKept(phrases: Phrases, byId: map<string, Trigger>, tasks: seq<DueLine>, carry: seq<Item>, item: Item,
                   j: nat, line: Line)
    requires Stands(phrases, byId, tasks, carry, j, line)
    requires UnitOf(byId, item).Some? ==>
               !IsDue(tasks, UnitOf(byId, item).value) && !HasUnit(byId, carry, UnitOf(byId, item).value)
    ensures Stands(phrases, byId, tasks, carry + [item], j, line)
  {
    hide OfUnit, HasUnit, Said, Openers;
    AfterItem(byId, tasks, carry, item);
    if j >= |tasks| && UnitOf(byId, line.items[0]).Some? {
      OfUnitIsEmpty(byId, carry, UnitOf(byId, line.items[0]).value);
    }
    assert forall u :: OfUnit(byId, carry, u) + [] == OfUnit(byId, carry, u);
  }

  /** An item of no unit, or of a unit without a line, opens one at the end. */
  lemma OpenKeepsGrouped(phrases: Phrases, byId: map<string, Trigger>, tasks: seq<DueLine>, carry: seq<Item>,
                         item: Item, lines: seq<Line>)
    requires Grouped(phrases, byId, tasks, carry, lines)
    requires UnitOf(byId, item).Some? ==>
               !IsDue(tasks, UnitOf(byId, item).value) && !HasUnit(byId, carry, UnitOf(byId, item).value)
    ensures Grouped(phrases, byId, tasks, carry + [item], lines + [Line(Said(phrases, byId, item), [item])])
  {
    hide Stands, OfUnit, HasUnit, IsDue, Said, ItemsOf, Openers, UnitOf;
    var line := Line(Said(phrases, byId, item), [item]);
    var after := lines + [line];
    OneMoreLine(byId, tasks, carry, item, lines, line);
    forall j | 0 <= j < |after|
      ensures Stands(phrases, byId, tasks, carry + [item], j, after[j])
    {
      if j < |lines| {
        StandsKept(phrases, byId, tasks, carry, item, j, lines[j]);
      } else {
        OpenStands(phrases, byId, tasks, carry, item, |lines|);
      }
    }
  }

  /** The openers and the items, with one line more. */
  lemma OneMoreLine(byId: map<string, Trigger>, tasks: seq<DueLine>, carry: seq<Item>, item: Item, lines: seq<Line>,
                    line: Line)
    requires line.items == [item]
    requires UnitOf(byId, item).Some? ==>
               !IsDue(tasks, UnitOf(byId, item).value) && !HasUnit(byId, carry, UnitOf(byId, item).value)
    ensures Openers(byId, tasks, carry + [item]) == Openers(byId, tasks, carry) + [item]
    ensures multiset(ItemsOf(lines + [line])) == multiset(ItemsOf(lines)) + multiset{item}
    ensures multiset(carry + [item]) == multiset(carry) + multiset{item}
  {
    AfterItem(byId, tasks, carry, item);
    hide OfUnit, HasUnit, IsDue, Openers;
    assert (lines + [line])[..|lines|] == lines;
  }

  lemma OpenStands(phrases: Phrases, byId: map<string, Trigger>, tasks: seq<DueLine>, carry: seq<Item>, item: Item,
                   i: nat)
    requires i >= |tasks|
    requires UnitOf(byId, item).Some? ==>
               !IsDue(tasks, UnitOf(byId, item).value) && !HasUnit(byId, carry, UnitOf(byId, item).value)
    ensures Stands(phrases, byId, tasks, carry + [item], i, Line(Said(phrases, byId, item), [item]))
  {
    AfterItem(byId, tasks, carry, item);
    if UnitOf(byId, item).Some? {
      OfUnitIsEmpty(byId, carry, UnitOf(byId, item).value);
    }
  }

  lemma OpenKeepsIndexed(byId: map<string, Trigger>, tasks: seq<DueLine>, carry: seq<Item>, item: Item, text: string,
                         lines: seq<Line>, lineOf: map<string, nat>)
    requires Indexed(byId, tasks, carry, lines, lineOf) && |lines| >= |tasks|
    requires UnitOf(byId, item).Some? ==> UnitOf(byId, item).value !in lineOf
    ensures Indexed(byId, tasks, carry + [item], lines + [Line(text, [item])],
                    match UnitOf(byId, item) case None => lineOf case Some(u) => lineOf[u := |lines|])
  {
    hide OfUnit, Openers;
    var after := lines + [Line(text, [item])];
    forall u
      ensures HasUnit(byId, carry + [item], u) <==> HasUnit(byId, carry, u) || UnitOf(byId, item) == Some(u)
    {
      HasUnitAfter(byId, carry, item, u);
    }
    hide IsDue, HasUnit;
    assert forall v, j :: 0 <= j < |lines| ==> (Leads(byId, tasks, after, v, j) <==> Leads(byId, tasks, lines, v, j));
    assert forall v :: Leads(byId, tasks, after, v, |lines|) ==> UnitOf(byId, item) == Some(v);
  }

  lemma TasksAlone(phrases: Phrases, byId: map<string, Trigger>, tasks: seq<DueLine>, lines: seq<Line>)
    requires |lines| == |tasks| && forall i :: 0 <= i < |tasks| ==> lines[i] == Line(tasks[i].text, [])
    ensures Grouped(phrases, byId, tasks, [], lines)
  {
    NoItems(lines);
  }

  lemma {:induction false} NoItems(lines: seq<Line>)
    requires forall i :: 0 <= i < |lines| ==> lines[i].items == []
    ensures ItemsOf(lines) == []
  {
    if lines != [] {
      NoItems(lines[..|lines| - 1]);
    }
  }

  method IndexPending(pending: seq<Trigger>) returns (byId: map<string, Trigger>)
    ensures byId == ById(pending)
  {
    byId := map[];
    for i := 0 to |pending|
      invariant byId == ById(pending[..i])
    {
      assert pending[..i + 1][..i] == pending[..i];
      byId := byId[pending[i].id := pending[i]];
    }
    assert pending[..|pending|] == pending;
  }

  method TaskLines(ghost byId: map<string, Trigger>, tasks: seq<DueLine>) returns (lines: seq<Line>,
                   lineOf: map<string, nat>)
    ensures |lines| == |tasks| && forall i :: 0 <= i < |tasks| ==> lines[i] == Line(tasks[i].text, [])
    ensures Indexed(byId, tasks, [], lines, lineOf)
  {
    lines, lineOf := [], map[];
    for i := 0 to |tasks|
      invariant |lines| == i && forall k :: 0 <= k < i ==> lines[k] == Line(tasks[k].text, [])
      invariant forall k :: 0 <= k < i ==> tasks[k].unit in lineOf
      invariant forall u :: u in lineOf ==>
                  lineOf[u] < i && tasks[lineOf[u]].unit == u && forall k :: lineOf[u] < k < i ==> tasks[k].unit != u
    {
      lineOf := lineOf[tasks[i].unit := |lines|];
      lines := lines + [Line(tasks[i].text, [])];
    }
    forall i, u | 0 <= i < |lines| && Leads(byId, tasks, lines, u, i)
      ensures u in lineOf && lineOf[u] == i
    {
      if i < lineOf[u] {
        LaterIsDue(tasks, i, lineOf[u]);
      }
    }
  }

  /** The lines of the day: the tasks due lead, then one line a unit, in the order carried. */
  method GroupLines(phrases: Phrases, tasks: seq<DueLine>, carry: seq<Item>, pending: seq<Trigger>)
    returns (lines: seq<Line>)
    ensures Grouped(phrases, ById(pending), tasks, carry, lines)
  {
    var byId := IndexPending(pending);
    var lineOf: map<string, nat>;
    lines, lineOf := TaskLines(byId, tasks);
    TasksAlone(phrases, byId, tasks, lines);
    hide Grouped, Indexed, IsDue;
    for i := 0 to |carry|
      invariant Grouped(phrases, byId, tasks, carry[..i], lines) && Indexed(byId, tasks, carry[..i], lines, lineOf)
    {
      var item, unit := carry[i], UnitOf(byId, carry[i]);
      assert carry[..i + 1] == carry[..i] + [item];
      if unit.Some? && unit.value in lineOf {
        JoinKeeps(phrases, byId, tasks, carry[..i], item, unit.value, lines, lineOf);
        lines := Join(lines, lineOf[unit.value], item);
      } else {
        OpenKeeps(phrases, byId, tasks, carry[..i], item, lines, lineOf);
        if unit.Some? {
          lineOf := lineOf[unit.value := |lines|];
        }
        lines := lines + [Line(Said(phrases, byId, item), [item])];
      }
    }
    assert carry[..|carry|] == carry;
  }

  lemma OpenKeeps(phrases: Phrases, byId: map<string, Trigger>, tasks: seq<DueLine>, carry: seq<Item>, item: Item,
                  lines: seq<Line>, lineOf: map<string, nat>)
    requires Grouped(phrases, byId, tasks, carry, lines) && Indexed(byId, tasks, carry, lines, lineOf)
    requires UnitOf(byId, item).Some? ==> UnitOf(byId, item).value !in lineOf
    ensures var after := lines + [Line(Said(phrases, byId, item), [item])];
            && Grouped(phrases, byId, tasks, carry + [item], after)
            && Indexed(byId, tasks, carry + [item], after,
                       match UnitOf(byId, item) case None => lineOf case Some(u) => lineOf[u := |lines|])
  {
    assert |lines| >= |tasks|;
    assert UnitOf(byId, item).Some? ==>
             !IsDue(tasks, UnitOf(byId, item).value) && !HasUnit(byId, carry, UnitOf(byId, item).value);
    hide Grouped, Indexed;
    OpenKeepsGrouped(phrases, byId, tasks, carry, item, lines);
    OpenKeepsIndexed(byId, tasks, carry, item, Said(phrases, byId, item), lines, lineOf);
  }

  // ---- the message ----

  function Body(phrases: Phrases, lines: seq<Line>): string {
    if lines == [] then "" else Body(phrases, lines[..|lines| - 1]) + "\n" + phrases.item(lines[|lines| - 1].text)
  }

  function Joined(parts: seq<string>): string {
    if parts == [] then ""
    else if |parts| == 1 then parts[0]
    else Joined(parts[..|parts| - 1]) + "\n" + parts[|parts| - 1]
  }

  function QuestionLine(phrases: Phrases, q: Question): string {
    phrases.question(Snippet(q.from), Snippet(q.to))
  }

  /** The greeting, then the lines kept and the note of those left out. */
  function Head(phrases: Phrases, lines: seq<Line>, keep: nat): string
    requires keep <= |lines|
  {
    if keep == 0 then phrases.morning
    else
      phrases.header(keep) + Body(phrases, lines[..keep])
      + if keep < |lines| then "\n" + phrases.more(|lines| - keep) else ""
  }

  function Again(phrases: Phrases, asks: seq<string>): string {
    if asks == [] then "" else "\n\n" + (phrases.askAgain + "\n" + Joined(asks))
  }

  function GoalPart(goal: string): string {
    if goal == "" then "" else "\n\n" + goal
  }

  /** "One more" only when something was said before it. */
  function QuestionPart(phrases: Phrases, question: Option<Question>, first: bool): string {
    match question
    case None => ""
    case Some(q) => "\n\n" + (if first then "" else phrases.oneMore) + QuestionLine(phrases, q)
  }

  function Compose(phrases: Phrases, lines: seq<Line>, keep: nat, asks: seq<string>, question: Option<Question>,
                   goal: string): string
    requires keep <= |lines|
  {
    Head(phrases, lines, keep) + Again(phrases, asks) + GoalPart(goal) +
        QuestionPart(phrases, question, keep == 0 && asks == [] && goal == "")
  }

  function Ask(phrases: Phrases, t: Trigger): string {
    phrases.item(phrases.done(Clip(t.text)))
  }

  function Asks(phrases: Phrases, reasks: seq<Trigger>): (asks: seq<string>)
    ensures |asks| == |reasks|
  {
    seq(|reasks|, i requires 0 <= i < |reasks| => Ask(phrases, reasks[i]))
  }

  /** One thing to say: everything a digest could hold. */
  datatype Morning = Morning(
    phrases: Phrases, tasks: seq<DueLine>, carry: seq<Item>, pending: seq<Trigger>, reasks: seq<Trigger>,
    question: Option<Question>, goal: string)

  /** The order things are dropped in: the re-asks from the last, then the lines from the last but never the first. */
  function DropCount(m: Morning, lines: seq<Line>): nat {
    |m.reasks| + if |lines| > 0 then |lines| - 1 else 0
  }

  function Kept(m: Morning, lines: seq<Line>, drops: nat): nat
    requires drops <= DropCount(m, lines)
    ensures Kept(m, lines, drops) <= |lines|
  {
    if drops <= |m.reasks| then |lines| else |lines| - (drops - |m.reasks|)
  }

  function Asked(m: Morning, drops: nat): nat
    ensures Asked(m, drops) <= |m.reasks|
  {
    if drops <= |m.reasks| then |m.reasks| - drops else 0
  }

  function Candidate(m: Morning, lines: seq<Line>, drops: nat): string
    requires drops <= DropCount(m, lines)
  {
    Compose(m.phrases, lines, Kept(m, lines, drops), Asks(m.phrases, m.reasks)[..Asked(m, drops)], m.question, m.goal)
  }

  predicate Fits(text: string) {
    Utf16Units(text) <= MESSAGE_UNITS
  }

  /** The message is the first in drop order that fits, else the last there is. */
  ghost predicate FirstThatFits(m: Morning, lines: seq<Line>, drops: nat) {
    && drops <= DropCount(m, lines)
    && (forall d :: 0 <= d < drops ==> !Fits(Candidate(m, lines, d)))
    && (Fits(Candidate(m, lines, drops)) || drops == DropCount(m, lines))
  }

  function Named(tasks: seq<DueLine>): (units: seq<string>)
    ensures |units| == |tasks|
  {
    seq(|tasks|, i requires 0 <= i < |tasks| => tasks[i].unit)
  }

  function IdsOf(rows: seq<Trigger>): (ids: seq<string>)
    ensures |ids| == |rows|
  {
    seq(|rows|, i requires 0 <= i < |rows| => rows[i].id)
  }

  /** The message, the carried items it holds, the check-ins it asks again and the units of the tasks it names,
      for one grouping of the carried items and one number of things dropped. */
  ghost predicate IsMessage(m: Morning, lines: seq<Line>, drops: nat, text: string, sent: seq<Item>,
                            asked: seq<string>, named: seq<string>) {
    && Grouped(m.phrases, ById(m.pending), m.tasks, m.carry, lines)
    && FirstThatFits(m, lines, drops)
    && text == Candidate(m, lines, drops)
    && sent == ItemsOf(lines[..Kept(m, lines, drops)])
    && asked == IdsOf(m.reasks[..Asked(m, drops)])
    && named == Named(m.tasks)[..if Kept(m, lines, drops) < |m.tasks| then Kept(m, lines, drops) else |m.tasks|]
  }

  method DigestMessage(m: Morning) returns (text: string, sent: seq<Item>, asked: seq<string>, named: seq<string>)
    ensures exists lines: seq<Line>, drops: nat :: IsMessage(m, lines, drops, text, sent, asked, named)
  {
    var all := GroupLines(m.phrases, m.tasks, m.carry, m.pending);
    assert |all| >= |m.tasks|;
    hide Grouped, Candidate, FirstThatFits;
    var keep, ask;
    text, keep, ask := Shorten(m, all);
    ghost var drops: nat :| Packed(m, all, drops, text, keep, ask);
    sent := Items(all[..keep]);
    asked := IdsOf(m.reasks[..ask]);
    named := Named(m.tasks)[..if keep < |m.tasks| then keep else |m.tasks|];
    assert IsMessage(m, all, drops, text, sent, asked, named);
  }

  method Items(lines: seq<Line>) returns (items: seq<Item>)
    ensures items == ItemsOf(lines)
  {
    items := [];
    for i := 0 to |lines|
      invariant items == ItemsOf(lines[..i])
    {
      assert lines[..i + 1][..i] == lines[..i];
      items := items + lines[i].items;
    }
    assert lines[..|lines|] == lines;
  }

  /** Drops one thing at a time until the message fits or one line is left. */
  method Shorten(m: Morning, lines: seq<Line>) returns (text: string, keep: nat, ask: nat)
    ensures exists drops: nat :: Packed(m, lines, drops, text, keep, ask)
  {
    hide Utf16Units, Compose;
    var asks: seq<string> := [];
    for i := 0 to |m.reasks|
      invariant asks == Asks(m.phrases, m.reasks)[..i]
    {
      asks := asks + [Ask(m.phrases, m.reasks[i])];
    }
    assert asks == Asks(m.phrases, m.reasks);

    keep, ask := |lines|, |asks|;
    ghost var drops: nat := 0;
    text := Compose(m.phrases, lines, keep, asks[..ask], m.question, m.goal);
    var length := Utf16Len(text);
    while length > MESSAGE_UNITS && (ask > 0 || keep > 1)
      invariant drops <= DropCount(m, lines) && keep == Kept(m, lines, drops) && ask == Asked(m, drops)
      invariant text == Candidate(m, lines, drops) && length == Utf16Units(text)
      invariant forall d :: 0 <= d < drops ==> !Fits(Candidate(m, lines, d))
      decreases ask, keep
    {
      if ask > 0 {
        ask := ask - 1;
      } else {
        keep := keep - 1;
      }
      drops := drops + 1;
      text := Compose(m.phrases, lines, keep, asks[..ask], m.question, m.goal);
      length := Utf16Len(text);
    }
    assert Packed(m, lines, drops, text, keep, ask);
  }

  /** The first in drop order that fits, or the last there is, and how many lines and check-ins it keeps. */
  ghost predicate Packed(m: Morning, lines: seq<Line>, drops: nat, text: string, keep: nat, ask: nat) {
    FirstThatFits(m, lines, drops) && text == Candidate(m, lines, drops) && keep == Kept(m, lines, drops) &&
      ask == Asked(m, drops)
  }

  // ---- what the message means ----

  lemma {:induction false} ItemsOfConcat(a: seq<Line>, b: seq<Line>)
    ensures ItemsOf(a + b) == ItemsOf(a) + ItemsOf(b)
  {
    if b == [] {
      assert a + b == a;
    } else {
      assert (a + b)[..|a + b| - 1] == a + b[..|b| - 1];
      ItemsOfConcat(a, b[..|b| - 1]);
    }
  }

  lemma LinesAreOnce(phrases: Phrases, byId: map<string, Trigger>, tasks: seq<DueLine>, carry: seq<Item>, a: seq<Line>,
                     b: seq<Line>)
    requires Grouped(phrases, byId, tasks, carry, a) && Grouped(phrases, byId, tasks, carry, b)
    ensures a == b
  {
    hide Openers, OfUnit, IsDue, ItemsOf, Said, UnitOf;
    forall i | 0 <= i < |a|
      ensures a[i] == b[i]
    {
      assert Stands(phrases, byId, tasks, carry, i, a[i]) && Stands(phrases, byId, tasks, carry, i, b[i]);
      if i >= |tasks| {
        assert a[i].items[0] == b[i].items[0];
      }
    }
  }

  /** One morning has one message: whoever packs it says the same, and sends the same items. */
  lemma AMorningHasOneMessage(m: Morning, a: seq<Line>, da: nat, ta: string, sa: seq<Item>, aa: seq<string>,
                              na: seq<string>, b: seq<Line>, db: nat, tb: string, sb: seq<Item>, ab: seq<string>,
                              nb: seq<string>)
    requires IsMessage(m, a, da, ta, sa, aa, na) && IsMessage(m, b, db, tb, sb, ab, nb)
    ensures ta == tb && sa == sb && aa == ab && na == nb
  {
    LinesAreOnce(m.phrases, ById(m.pending), m.tasks, m.carry, a, b);
    hide Grouped, Candidate, Fits, DropCount;
    assert da == db;
  }

  /** Nothing carried is lost and nothing is sent twice: what is sent and what is left for tomorrow
      are together exactly what was carried, and a line is sent whole or left whole. */
  lemma SentAndLeftAreTheCarried(m: Morning, lines: seq<Line>, drops: nat)
    requires Grouped(m.phrases, ById(m.pending), m.tasks, m.carry, lines) && drops <= DropCount(m, lines)
    ensures var keep := Kept(m, lines, drops);
            multiset(ItemsOf(lines[..keep])) + multiset(ItemsOf(lines[keep..])) == multiset(m.carry)
  {
    var keep := Kept(m, lines, drops);
    assert lines[..keep] + lines[keep..] == lines && multiset(ItemsOf(lines)) == multiset(m.carry);
    hide Grouped, Kept, ItemsOf;
    ItemsOfConcat(lines[..keep], lines[keep..]);
  }

  /** The re-asks give way before any line does, and a task due before no reminder. */
  lemma ReasksGiveWayFirst(m: Morning, lines: seq<Line>, drops: nat)
    requires drops <= DropCount(m, lines)
    ensures Asked(m, drops) > 0 ==> Kept(m, lines, drops) == |lines|
    ensures lines != [] ==> Kept(m, lines, drops) >= 1
    ensures drops == DropCount(m, lines) ==>
              Asked(m, drops) == 0 && Kept(m, lines, drops) == if lines == [] then 0 else 1
    ensures forall d :: 0 <= d < drops ==>
              Kept(m, lines, d) + Asked(m, d) == Kept(m, lines, drops) + Asked(m, drops) + (drops - d)
  {
  }

  /** Two carried items of one unit are always sent together or left together. */
  lemma OneLineAUnit(phrases: Phrases, byId: map<string, Trigger>, tasks: seq<DueLine>, carry: seq<Item>,
                     lines: seq<Line>, i: nat, j: nat, a: Item, b: Item)
    requires Grouped(phrases, byId, tasks, carry, lines)
    requires i < |lines| && j < |lines| && a in lines[i].items && b in lines[j].items
    requires UnitOf(byId, a).Some? && UnitOf(byId, a) == UnitOf(byId, b)
    ensures i == j
  {
    var u := UnitOf(byId, a).value;
    UnitOfLine(phrases, byId, tasks, carry, i, lines[i], a);
    UnitOfLine(phrases, byId, tasks, carry, j, lines[j], b);
    if i < |tasks| && j < |tasks| && i != j {
      if i < j {
        LaterIsDue(tasks, i, j);
      } else {
        LaterIsDue(tasks, j, i);
      }
    } else if i >= |tasks| && j >= |tasks| && i != j {
      OpenersAreOfDistinctUnits(byId, tasks, carry, i - |tasks|, j - |tasks|, u);
    }
  }

  lemma LaterIsDue(tasks: seq<DueLine>, i: nat, j: nat)
    requires i < j < |tasks|
    ensures IsDue(tasks[i + 1..], tasks[j].unit)
  {
  }

  lemma UnitOfLine(phrases: Phrases, byId: map<string, Trigger>, tasks: seq<DueLine>, carry: seq<Item>, i: nat,
                   line: Line, item: Item)
    requires Stands(phrases, byId, tasks, carry, i, line) && item in line.items && UnitOf(byId, item).Some?
    ensures i < |tasks| ==> tasks[i].unit == UnitOf(byId, item).value && !IsDue(tasks[i + 1..], tasks[i].unit)
    ensures i >= |tasks| ==> UnitOf(byId, line.items[0]) == UnitOf(byId, item) && !IsDue(tasks, UnitOf(byId, item).value)
  {
    if i < |tasks| {
      OfUnitIsOfUnit(byId, carry, tasks[i].unit);
    } else if UnitOf(byId, line.items[0]).Some? {
      OfUnitIsOfUnit(byId, carry, UnitOf(byId, line.items[0]).value);
    }
  }

  lemma {:induction false} OfUnitIsOfUnit(byId: map<string, Trigger>, carry: seq<Item>, u: string)
    ensures forall x :: x in OfUnit(byId, carry, u) ==> UnitOf(byId, x) == Some(u)
  {
    if carry != [] {
      OfUnitIsOfUnit(byId, carry[..|carry| - 1], u);
    }
  }

  lemma {:induction false} OpenersAreOfDistinctUnits(byId: map<string, Trigger>, tasks: seq<DueLine>,
                                                     carry: seq<Item>, i: nat, j: nat, u: string)
    requires var o := Openers(byId, tasks, carry);
             i < |o| && j < |o| && UnitOf(byId, o[i]) == UnitOf(byId, o[j]) == Some(u)
    ensures i == j
  {
    var n := |carry| - 1;
    var before := Openers(byId, tasks, carry[..n]);
    if i < |before| && j < |before| {
      OpenersAreOfDistinctUnits(byId, tasks, carry[..n], i, j, u);
    } else if i < |before| {
      OpenersAreCarried(byId, tasks, carry[..n], i);
    } else if j < |before| {
      OpenersAreCarried(byId, tasks, carry[..n], j);
    }
  }

  lemma {:induction false} OpenersAreCarried(byId: map<string, Trigger>, tasks: seq<DueLine>, carry: seq<Item>, i: nat)
    requires i < |Openers(byId, tasks, carry)|
    ensures exists k :: 0 <= k < |carry| && carry[k] == Openers(byId, tasks, carry)[i]
  {
    var n := |carry| - 1;
    if i < |Openers(byId, tasks, carry[..n])| {
      OpenersAreCarried(byId, tasks, carry[..n], i);
      var k :| 0 <= k < n && carry[..n][k] == Openers(byId, tasks, carry[..n])[i];
      assert carry[k] == Openers(byId, tasks, carry)[i];
    }
  }

  ghost predicate SplitsAt(text: string, a: string, part: string, b: string) {
    text == a + part + b
  }

  ghost predicate Says(text: string, part: string) {
    exists a, b :: SplitsAt(text, a, part, b)
  }

  lemma SaysAt(text: string, a: string, part: string, b: string)
    requires text == a + part + b
    ensures Says(text, part)
  {
    assert SplitsAt(text, a, part, b);
  }

  lemma {:induction false} BodySays(phrases: Phrases, lines: seq<Line>, i: nat) returns (a: string, b: string)
    requires i < |lines|
    ensures Body(phrases, lines) == a + phrases.item(lines[i].text) + b
  {
    var n := |lines| - 1;
    if i == n {
      a, b := Body(phrases, lines[..n]) + "\n", "";
    } else {
      a, b := BodySays(phrases, lines[..n], i);
      b := b + ("\n" + phrases.item(lines[n].text));
    }
  }

  lemma {:induction false} JoinedSays(parts: seq<string>, i: nat) returns (a: string, b: string)
    requires i < |parts|
    ensures Joined(parts) == a + parts[i] + b
  {
    var n := |parts| - 1;
    if n == 0 {
      a, b := "", "";
    } else if i == n {
      a, b := Joined(parts[..n]) + "\n", "";
    } else {
      a, b := JoinedSays(parts[..n], i);
      b := b + ("\n" + parts[n]);
    }
  }

  lemma SaysWithin(text: string, a: string, inner: string, b: string, part: string)
    requires text == a + inner + b && Says(inner, part)
    ensures Says(text, part)
  {
    var x, y :| SplitsAt(inner, x, part, y);
    assert text == (a + x) + part + (y + b);
    SaysAt(text, a + x, part, y + b);
  }

  lemma HeadSays(phrases: Phrases, lines: seq<Line>, keep: nat, i: nat)
    requires i < keep <= |lines|
    ensures Says(Head(phrases, lines, keep), phrases.item(lines[i].text))
  {
    var a, b := BodySays(phrases, lines[..keep], i);
    var body := Body(phrases, lines[..keep]);
    SaysAt(body, a, phrases.item(lines[i].text), b);
    SaysWithin(Head(phrases, lines, keep), phrases.header(keep), body,
               if keep < |lines| then "\n" + phrases.more(|lines| - keep) else "",
               phrases.item(lines[i].text));
  }

  lemma AgainSays(phrases: Phrases, asks: seq<string>, i: nat)
    requires i < |asks|
    ensures Says(Again(phrases, asks), asks[i])
  {
    var a, b := JoinedSays(asks, i);
    SaysAt(Joined(asks), a, asks[i], b);
    SaysWithin(Again(phrases, asks), "\n\n" + phrases.askAgain + "\n", Joined(asks), "", asks[i]);
  }

  /** The four parts of a message, in order. */
  function Parts(m: Morning, lines: seq<Line>, drops: nat): (string, string, string, string)
    requires drops <= DropCount(m, lines)
  {
    var keep, asks := Kept(m, lines, drops), Asks(m.phrases, m.reasks)[..Asked(m, drops)];
    (Head(m.phrases, lines, keep), Again(m.phrases, asks), GoalPart(m.goal),
     QuestionPart(m.phrases, m.question, keep == 0 && asks == [] && m.goal == ""))
  }

  lemma PartsMakeTheText(m: Morning, lines: seq<Line>, drops: nat)
    requires drops <= DropCount(m, lines)
    ensures var (head, again, goal, question) := Parts(m, lines, drops);
            && Candidate(m, lines, drops) == "" + head + (again + goal + question)
            && Candidate(m, lines, drops) == head + again + (goal + question)
            && Candidate(m, lines, drops) == (head + again) + goal + question
            && Candidate(m, lines, drops) == (head + again + goal) + question + ""
  {
    hide Head, Again, GoalPart, QuestionPart;
    var (head, again, goal, question) := Parts(m, lines, drops);
    Regroup(head, again, goal, question);
  }

  lemma Regroup(a: string, b: string, c: string, d: string)
    ensures a + b + c + d == "" + a + (b + c + d) == a + b + (c + d) == (a + b) + c + d == (a + b + c) + d + ""
  {
  }

  lemma GoalAndQuestionAreSaid(phrases: Phrases, goal: string, question: Option<Question>, first: bool)
    ensures Says(GoalPart(goal), goal)
    ensures question.Some? ==> Says(QuestionPart(phrases, question, first), QuestionLine(phrases, question.value))
  {
    SaysAt(GoalPart(goal), if goal == "" then "" else "\n\n", goal, "");
    if question.Some? {
      var q := QuestionLine(phrases, question.value);
      var lead := "\n\n" + if first then "" else phrases.oneMore;
      SaysAt(QuestionPart(phrases, question, first), lead, q, "");
    }
  }

  /** Whatever had to be dropped, the text carries every line it keeps, every check-in it asks, the goal and the
      question. */
  lemma TheTextSaysWhatItHolds(m: Morning, lines: seq<Line>, drops: nat)
    requires drops <= DropCount(m, lines)
    ensures forall i :: 0 <= i < Kept(m, lines, drops) ==>
              Says(Candidate(m, lines, drops), m.phrases.item(lines[i].text))
    ensures forall i :: 0 <= i < Asked(m, drops) ==> Says(Candidate(m, lines, drops), Ask(m.phrases, m.reasks[i]))
    ensures Says(Candidate(m, lines, drops), m.goal)
    ensures m.question.Some? ==> Says(Candidate(m, lines, drops), QuestionLine(m.phrases, m.question.value))
  {
    var keep, asks, text := Kept(m, lines, drops), Asks(m.phrases, m.reasks)[..Asked(m, drops)],
        Candidate(m, lines, drops);
    var (head, again, goal, question) := Parts(m, lines, drops);
    PartsMakeTheText(m, lines, drops);
    hide Head, Again, GoalPart, QuestionPart, Says, Compose, Candidate;
    GoalAndQuestionAreSaid(m.phrases, m.goal, m.question, keep == 0 && asks == [] && m.goal == "");
    SaysWithin(text, head + again, goal, question, m.goal);
    if m.question.Some? {
      SaysWithin(text, head + again + goal, question, "", QuestionLine(m.phrases, m.question.value));
    }
    forall i | 0 <= i < keep
      ensures Says(text, m.phrases.item(lines[i].text))
    {
      HeadSays(m.phrases, lines, keep, i);
      SaysWithin(text, "", head, again + goal + question, m.phrases.item(lines[i].text));
    }
    forall i | 0 <= i < |asks|
      ensures Says(text, Ask(m.phrases, m.reasks[i]))
    {
      AgainSays(m.phrases, asks, i);
      SaysWithin(text, head, again, goal + question, asks[i]);
    }
  }

  lemma {:induction false} ItemHasALine(lines: seq<Line>, item: Item) returns (i: nat)
    requires item in ItemsOf(lines)
    ensures i < |lines| && item in lines[i].items
  {
    var n := |lines| - 1;
    if item in lines[n].items {
      i := n;
    } else {
      i := ItemHasALine(lines[..n], item);
    }
  }

  /** The text says the line of item x, one of those sent. */
  ghost predicate SaysItem(m: Morning, lines: seq<Line>, text: string, x: Item) {
    exists i :: 0 <= i < |lines| && x in lines[i].items && Says(text, m.phrases.item(lines[i].text))
  }

  /** The text asks the check-in of this id again. */
  ghost predicate SaysAsked(m: Morning, text: string, id: string) {
    exists i :: 0 <= i < |m.reasks| && m.reasks[i].id == id && Says(text, Ask(m.phrases, m.reasks[i]))
  }

  /** Everything the caller will mark is in the text: each item sent, each check-in asked, the goal's words and the
      question. */
  lemma WhatIsMarkedIsSaid(m: Morning, lines: seq<Line>, drops: nat, text: string, sent: seq<Item>,
                           asked: seq<string>, named: seq<string>)
    requires IsMessage(m, lines, drops, text, sent, asked, named)
    ensures forall x :: x in sent ==> SaysItem(m, lines, text, x)
    ensures forall id :: id in asked ==> SaysAsked(m, text, id)
    ensures Says(text, m.goal) && (m.question.Some? ==> Says(text, QuestionLine(m.phrases, m.question.value)))
  {
    TheTextSaysWhatItHolds(m, lines, drops);
    var keep := Kept(m, lines, drops);
    hide Grouped, FirstThatFits, Candidate, Says, Ask;
    forall x | x in sent
      ensures SaysItem(m, lines, text, x)
    {
      var i := ItemHasALine(lines[..keep], x);
      assert lines[..keep][i] == lines[i];
    }
    forall id | id in asked
      ensures SaysAsked(m, text, id)
    {
      var i :| 0 <= i < |asked| && asked[i] == id;
      assert m.reasks[..Asked(m, drops)][i] == m.reasks[i];
    }
  }
}
