/**
 The reminders one pass will push (internal/brain/render.go, pushQueue), the ids
 a process remembers and the stamps a pass hands out (internal/brain/check.go,
 idSet and surfaceStamps).
 */
module PushQueue {
  import opened Options
  import opened Stores
  import RowOrder

  /** A set of ids a process remembers for its own life. */
  class IdSet {
    var seen: set<string>

    constructor ()
      ensures seen == {}
    {
      seen := {};
    }

    method First(id: string) returns (first: bool)
      modifies this
      ensures first <==> id !in old(seen)
      ensures seen == old(seen) + {id}
    {
      first := id !in seen;
      seen := seen + {id};
    }

    predicate Has(id: string)
      reads this
    {
      id in seen
    }

    method Clear()
      modifies this
      ensures seen == {}
    {
      seen := {};
    }
  }

  /** A pass's surfaced_at instants, a second apart. */
  class SurfaceStamps {
    var next: Option<int>

    constructor ()
      ensures next == None
    {
      next := None;
    }

    /** The next stamp, never before now, always after the one before it. */
    method Take(now: int) returns (at: int)
      modifies this
      ensures at >= now && next == Some(at + 1)
      ensures old(next).Some? ==> at >= old(next).value
    {
      if next.None? || next.value < now {
        next := Some(now);
      }
      at := next.value;
      next := Some(at + 1);
    }
  }

  // ---- groups ----

  function Ids(copies: seq<Copy>): (ids: seq<string>)
    ensures |ids| == |copies|
  {
    seq(|copies|, i requires 0 <= i < |copies| => copies[i].id)
  }

  lemma IdsNext(copies: seq<Copy>, t: Copy)
    ensures Ids(copies + [t]) == Ids(copies) + [t.id]
    ensures forall id :: id in Ids(copies + [t]) <==> id in Ids(copies) || id == t.id
  {
  }

  /** The rows of one unit, in the order queued. */
  function OfUnit(rows: seq<Copy>, unit: string): seq<Copy> {
    if rows == [] then []
    else OfUnit(rows[..|rows| - 1], unit) + if rows[|rows| - 1].row.unit == Some(unit) then [rows[|rows| - 1]] else []
  }

  predicate HasUnit(rows: seq<Copy>, unit: string) {
    exists k :: 0 <= k < |rows| && rows[k].row.unit == Some(unit)
  }

  /** The rows that open a message: each of no unit, and the first of each unit. */
  function Openers(rows: seq<Copy>): seq<Copy> {
    if rows == [] then []
    else
      var before, t := rows[..|rows| - 1], rows[|rows| - 1];
      Openers(before) + if t.row.unit.Some? && HasUnit(before, t.row.unit.value) then [] else [t]
  }

  /** The message an opener opens: its unit's rows, or itself alone. */
  function GroupOf(rows: seq<Copy>, opener: Copy): seq<Copy> {
    match opener.row.unit
    case None => [opener]
    case Some(u) => OfUnit(rows, u)
  }

  function Grouping(rows: seq<Copy>): (groups: seq<seq<Copy>>)
    ensures |groups| == |Openers(rows)|
  {
    var openers := Openers(rows);
    seq(|openers|, i requires 0 <= i < |openers| => GroupOf(rows, openers[i]))
  }

  function KeyOf(t: Copy): RowOrder.Key {
    RowOrder.Key(t.row.fireAt, t.id)
  }

  /** Each group of the grouping, in the order it is said. */
  ghost predicate Ordered(groups: seq<seq<Copy>>, grouping: seq<seq<Copy>>) {
    && |groups| == |grouping|
    && forall i :: 0 <= i < |groups| ==>
         multiset(groups[i]) == multiset(grouping[i]) && RowOrder.Sorted(groups[i], KeyOf)
  }

  class Queue {
    var rows: seq<Copy>

    constructor ()
      ensures rows == []
    {
      rows := [];
    }

    /** Queues a row unless its id is queued. */
    method Add(t: Copy)
      modifies this
      ensures rows == if t.id in Ids(old(rows)) then old(rows) else old(rows) + [t]
    {
      var queued := false;
      for k := 0 to |rows|
        invariant queued <==> exists j :: 0 <= j < k && rows[j].id == t.id
      {
        queued := queued || rows[k].id == t.id;
      }
      assert forall j :: 0 <= j < |rows| ==> Ids(rows)[j] == rows[j].id;
      if !queued {
        rows := rows + [t];
      }
    }

    /** One message a unit, first found first. */
    method Groups() returns (groups: seq<seq<Copy>>)
      ensures Ordered(groups, Grouping(rows))
    {
      hide Openers, OfUnit, HasUnit;
      var split: seq<seq<Copy>>, byUnit: map<string, nat> := [], map[];
      NoRows();
      for n := 0 to |rows|
        invariant split == Grouping(rows[..n]) && Numbered(byUnit, rows[..n])
      {
        var t := rows[n];
        assert rows[..n + 1] == rows[..n] + [t];
        if t.row.unit.None? {
          OpenGroup(rows[..n], t, byUnit);
          split := split + [[t]];
        } else if t.row.unit.value !in byUnit {
          OpenGroup(rows[..n], t, byUnit);
          byUnit := byUnit[t.row.unit.value := |split|];
          split := split + [[t]];
        } else {
          var i := byUnit[t.row.unit.value];
          JoinGroup(rows[..n], t, byUnit);
          split := split[i := split[i] + [t]];
        }
      }
      assert rows[..|rows|] == rows;
      groups := [];
      for i := 0 to |split|
        invariant Ordered(groups, split[..i])
      {
        var g := RowOrder.Sort(split[i], KeyOf);
        groups := groups + [g];
      }
      assert split[..|split|] == split;
    }
  }

  /** Which group each unit's is. */
  ghost predicate Numbered(byUnit: map<string, nat>, rows: seq<Copy>) {
    && (forall u :: u in byUnit <==> HasUnit(rows, u))
    && (forall u :: u in byUnit ==> byUnit[u] < |Openers(rows)|)
    && (forall u, i :: u in byUnit && 0 <= i < |Openers(rows)| ==> (Openers(rows)[i].row.unit == Some(u) <==>
         i == byUnit[u]))
  }

  lemma NoRows()
    ensures Grouping([]) == [] && Numbered(map[], [])
  {
  }

  lemma HasUnitNext(rows: seq<Copy>, t: Copy, u: string)
    ensures HasUnit(rows + [t], u) <==> HasUnit(rows, u) || t.row.unit == Some(u)
  {
    if HasUnit(rows, u) {
      var k :| 0 <= k < |rows| && rows[k].row.unit == Some(u);
      assert (rows + [t])[k].row.unit == Some(u);
    }
    assert (rows + [t])[|rows|] == t;
  }

  lemma {:induction false} OfUnitIsEmpty(rows: seq<Copy>, u: string)
    requires !HasUnit(rows, u)
    ensures OfUnit(rows, u) == []
  {
    if rows != [] {
      assert rows == rows[..|rows| - 1] + [rows[|rows| - 1]];
      HasUnitNext(rows[..|rows| - 1], rows[|rows| - 1], u);
      OfUnitIsEmpty(rows[..|rows| - 1], u);
    }
  }

  lemma {:induction false} OpenersAreRows(rows: seq<Copy>)
    ensures forall i :: 0 <= i < |Openers(rows)| ==> Openers(rows)[i] in rows
    ensures forall i :: 0 <= i < |Openers(rows)| && Openers(rows)[i].row.unit.Some? ==>
              HasUnit(rows, Openers(rows)[i].row.unit.value)
  {
    if rows != [] {
      var n := |rows| - 1;
      OpenersAreRows(rows[..n]);
      assert rows == rows[..n] + [rows[n]];
      forall u
        ensures HasUnit(rows, u) <==> HasUnit(rows[..n], u) || rows[n].row.unit == Some(u)
      {
        HasUnitNext(rows[..n], rows[n], u);
      }
    }
  }

  lemma AfterRow(rows: seq<Copy>, t: Copy)
    ensures Openers(rows + [t]) == Openers(rows) + if t.row.unit.Some? && HasUnit(rows, t.row.unit.value) then [] else [t]
    ensures forall u :: OfUnit(rows + [t], u) == OfUnit(rows, u) + if t.row.unit == Some(u) then [t] else []
    ensures forall u :: HasUnit(rows + [t], u) <==> HasUnit(rows, u) || t.row.unit == Some(u)
  {
  }

  lemma OpenGroup(rows: seq<Copy>, t: Copy, byUnit: map<string, nat>)
    requires Numbered(byUnit, rows) && (t.row.unit.Some? ==> t.row.unit.value !in byUnit)
    ensures Grouping(rows + [t]) == Grouping(rows) + [[t]]
    ensures Numbered(if t.row.unit.Some? then byUnit[t.row.unit.value := |Openers(rows)|] else byUnit, rows + [t])
  {
    AfterRow(rows, t);
    OpenersAreRows(rows);
    OpenNumbered(rows, t, byUnit);
    if t.row.unit.Some? {
      OfUnitIsEmpty(rows, t.row.unit.value);
    }
    var openers := Openers(rows);
    forall i | 0 <= i < |openers|
      ensures GroupOf(rows + [t], openers[i]) == GroupOf(rows, openers[i])
    {
      GroupNext(rows, t, openers[i]);
      assert GroupOf(rows, openers[i]) + [] == GroupOf(rows, openers[i]);
      hide Openers, OfUnit, GroupOf, Grouping;
    }
    hide Openers, HasUnit, Numbered, Grouping;
    GroupingAt(rows, openers, t);
  }

  lemma OpenNumbered(rows: seq<Copy>, t: Copy, byUnit: map<string, nat>)
    requires Numbered(byUnit, rows) && (t.row.unit.Some? ==> t.row.unit.value !in byUnit)
    ensures Numbered(if t.row.unit.Some? then byUnit[t.row.unit.value := |Openers(rows)|] else byUnit, rows + [t])
  {
    AfterRow(rows, t);
    OpenersAreRows(rows);
    hide Openers, HasUnit, OfUnit;
    var openers := Openers(rows);
    assert Openers(rows + [t]) == openers + [t];
    assert forall i :: 0 <= i < |openers| ==> (openers + [t])[i] == openers[i];
  }

  lemma GroupNext(rows: seq<Copy>, t: Copy, opener: Copy)
    ensures GroupOf(rows + [t], opener) == GroupOf(rows, opener) +
              if opener.row.unit.Some? && t.row.unit == opener.row.unit then [t] else []
  {
  }

  lemma GroupingAt(rows: seq<Copy>, openers: seq<Copy>, t: Copy)
    requires openers == Openers(rows) && Openers(rows + [t]) == openers + [t]
    requires forall i :: 0 <= i < |openers| ==> GroupOf(rows + [t], openers[i]) == GroupOf(rows, openers[i])
    requires GroupOf(rows + [t], t) == [t]
    ensures Grouping(rows + [t]) == Grouping(rows) + [[t]]
  {
  }

  lemma JoinGroup(rows: seq<Copy>, t: Copy, byUnit: map<string, nat>)
    requires Numbered(byUnit, rows) && t.row.unit.Some? && t.row.unit.value in byUnit
    ensures var i := byUnit[t.row.unit.value];
            i < |Grouping(rows)| && Grouping(rows + [t]) == Grouping(rows)[i := Grouping(rows)[i] + [t]]
    ensures Numbered(byUnit, rows + [t])
  {
    hide Openers, OfUnit, HasUnit, GroupOf;
    AfterRow(rows, t);
    OpenersAreRows(rows);
    var openers, at := Openers(rows), byUnit[t.row.unit.value];
    assert Openers(rows + [t]) == openers;
    forall i | 0 <= i < |openers|
      ensures GroupOf(rows + [t], openers[i]) == if i == at then GroupOf(rows, openers[i]) +
                [t] else GroupOf(rows, openers[i])
    {
      GroupNext(rows, t, openers[i]);
      assert openers[i].row.unit == t.row.unit <==> i == at;
      assert GroupOf(rows, openers[i]) + [] == GroupOf(rows, openers[i]);
    }
  }

  // ---- every queued row is in exactly one message ----

  ghost predicate InGroup(groups: seq<seq<Copy>>, t: Copy) {
    exists i :: 0 <= i < |groups| && t in groups[i]
  }

  lemma {:induction false} OfUnitIsOfUnit(rows: seq<Copy>, u: string)
    ensures forall t :: t in OfUnit(rows, u) <==> t in rows && t.row.unit == Some(u)
    ensures DistinctIds(rows) ==> DistinctIds(OfUnit(rows, u))
  {
    if rows != [] {
      var n := |rows| - 1;
      OfUnitIsOfUnit(rows[..n], u);
      assert rows == rows[..n] + [rows[n]];
      if DistinctIds(rows) {
        var before := OfUnit(rows[..n], u);
        forall i | 0 <= i < |before|
          ensures before[i].id != rows[n].id
        {
          assert before[i] in rows[..n];
        }
      }
    }
  }

  lemma {:induction false} OpenersAreApart(rows: seq<Copy>, i: nat, j: nat)
    requires DistinctIds(rows) && i < j < |Openers(rows)|
    ensures Openers(rows)[i].id != Openers(rows)[j].id
    ensures Openers(rows)[i].row.unit.Some? ==> Openers(rows)[i].row.unit != Openers(rows)[j].row.unit
  {
    var n := |rows| - 1;
    var before := Openers(rows[..n]);
    OpenersAreRows(rows[..n]);
    if j < |before| {
      OpenersAreApart(rows[..n], i, j);
    } else {
      assert before[i] in rows[..n];
    }
  }

  lemma {:induction false} EveryRowHasAnOpener(rows: seq<Copy>, t: Copy) returns (i: nat)
    requires t in rows
    ensures i < |Openers(rows)|
    ensures if t.row.unit.None? then Openers(rows)[i] == t else Openers(rows)[i].row.unit == t.row.unit
  {
    var n := |rows| - 1;
    if t in rows[..n] {
      i := EveryRowHasAnOpener(rows[..n], t);
    } else {
      assert rows == rows[..n] + [rows[n]];
      if t.row.unit.Some? && HasUnit(rows[..n], t.row.unit.value) {
        var k :| 0 <= k < n && rows[..n][k].row.unit == t.row.unit;
        i := EveryRowHasAnOpener(rows[..n], rows[..n][k]);
      } else {
        i := |Openers(rows)| - 1;
      }
    }
  }

  /** The rows of a message are those that belong with its opener. */
  ghost predicate IsGroup(rows: seq<Copy>, opener: Copy, group: seq<Copy>) {
    && (forall t :: t in group <==> t in rows && Belongs(opener, t))
    && group != [] && DistinctIds(group)
  }

  /** Every queued row is in a message; no row is in two; and a message is about one unit. */
  lemma EachRowGoesInOneMessage(rows: seq<Copy>, groups: seq<seq<Copy>>)
    requires DistinctIds(rows) && Ordered(groups, Grouping(rows))
    ensures forall t :: t in rows <==> InGroup(groups, t)
    ensures forall i :: 0 <= i < |groups| ==> groups[i] != [] && DistinctIds(groups[i])
    ensures forall i, a, b :: 0 <= i < |groups| && a in groups[i] && b in groups[i] ==>
              a == b || (a.row.unit == b.row.unit && a.row.unit.Some?)
    ensures forall i, j, a, b :: 0 <= i < j < |groups| && a in groups[i] && b in groups[j] ==> a.id != b.id
  {
    var openers := Openers(rows);
    OpenersAreRows(rows);
    forall i | 0 <= i < |groups|
      ensures IsGroup(rows, openers[i], groups[i])
    {
      MembersOfGroup(rows, openers[i], groups[i]);
    }
    forall t | t in rows
      ensures InGroup(groups, t)
    {
      var i := EveryRowHasAnOpener(rows, t);
      assert IsGroup(rows, openers[i], groups[i]);
    }
    forall i, j | 0 <= i < j < |groups|
      ensures ApartIds(groups[i], groups[j])
    {
      GroupsAreApart(rows, i, j, groups[i], groups[j]);
    }
    hide Openers, Ordered, DistinctIds;
  }

  ghost predicate ApartIds(a: seq<Copy>, b: seq<Copy>) {
    forall x, y :: x in a && y in b ==> x.id != y.id
  }

  lemma GroupsAreApart(rows: seq<Copy>, i: nat, j: nat, a: seq<Copy>, b: seq<Copy>)
    requires DistinctIds(rows) && i < j < |Openers(rows)|
    requires IsGroup(rows, Openers(rows)[i], a) && IsGroup(rows, Openers(rows)[j], b)
    ensures ApartIds(a, b)
  {
    OpenersAreApart(rows, i, j);
    hide DistinctIds, Openers;
    forall x, y | x in a && y in b
      ensures x.id != y.id
    {
      if x.id == y.id {
        SameCopy(rows, x, y);
      }
    }
  }

  ghost predicate Belongs(opener: Copy, t: Copy) {
    if opener.row.unit.None? then t == opener else t.row.unit == opener.row.unit
  }

  lemma SameCopy(rows: seq<Copy>, a: Copy, b: Copy)
    requires DistinctIds(rows) && a in rows && b in rows && a.id == b.id
    ensures a == b
  {
  }

  lemma MembersOfGroup(rows: seq<Copy>, opener: Copy, group: seq<Copy>)
    requires DistinctIds(rows) && opener in rows && multiset(group) == multiset(GroupOf(rows, opener))
    ensures IsGroup(rows, opener, group)
  {
    var g := GroupOf(rows, opener);
    if opener.row.unit.Some? {
      OfUnitIsOfUnit(rows, opener.row.unit.value);
    }
    assert forall t :: t in group <==> t in multiset(group);
    assert forall t :: t in g <==> t in multiset(g);
    assert opener in group;
    DistinctSurvivesOrder(g, group);
  }

  /** Reordering keeps ids apart. */
  lemma DistinctSurvivesOrder(a: seq<Copy>, b: seq<Copy>)
    requires DistinctIds(a) && multiset(a) == multiset(b)
    ensures DistinctIds(b)
  {
    forall i, j | 0 <= i < j < |b|
      ensures b[i].id != b[j].id
    {
      assert b[i] in multiset(b) && b[j] in multiset(b);
      assert b[i] in a && b[j] in a;
      if b[i].id == b[j].id {
        SameCopy(a, b[i], b[j]);
        assert b == b[..i] + [b[i]] + b[i + 1..j] + [b[j]] + b[j + 1..];
        assert multiset(b)[b[i]] >= 2;
        AtMostOnce(a, b[i]);
      }
    }
  }

  lemma {:induction false} AtMostOnce(a: seq<Copy>, t: Copy)
    requires DistinctIds(a)
    ensures multiset(a)[t] <= 1
  {
    if a != [] {
      var n := |a| - 1;
      AtMostOnce(a[..n], t);
      assert a == a[..n] + [a[n]];
      if t == a[n] {
        assert t !in a[..n];
        assert t !in multiset(a[..n]);
      }
    }
  }
}
