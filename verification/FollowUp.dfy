/**
 What a follow-up is read against (internal/brain/followup.go, conversationFor):
 the chat's recent turns, and the live units they name, lettered so that the
 answer can point at one. When there are more live units than letters, the
 newest turns' units get them.
 */
module FollowUp {
  import opened Options

  const MAX_ITEMS: nat := 20

  datatype Turn = Turn(text: string, units: seq<string>)

  /** A turn as the prompt shows it: the positions, from 1, of the units it names. */
  datatype ShownTurn = ShownTurn(text: string, about: seq<nat>)

  /** What the prompt shows; `items` is what each lettered unit says now. */
  datatype Conversation = Conversation(turns: seq<ShownTurn>, items: seq<string>)

  // ---- the ids the turns name ----

  function Mentions(turns: seq<Turn>): seq<string> {
    if turns == [] then [] else Mentions(turns[..|turns| - 1]) + turns[|turns| - 1].units
  }

  /** The turns newest first, each turn's units in their own order. */
  function NewestFirst(turns: seq<Turn>): seq<string> {
    if turns == [] then [] else turns[|turns| - 1].units + NewestFirst(turns[..|turns| - 1])
  }

  function FirstAppearances(ids: seq<string>): seq<string> {
    if ids == [] then []
    else
      var before := FirstAppearances(ids[..|ids| - 1]);
      if ids[|ids| - 1] in before then before else before + [ids[|ids| - 1]]
  }

  /** The first MAX_ITEMS live ids of a list. */
  function Picked(ids: seq<string>, live: set<string>): (picked: set<string>)
    ensures |picked| <= MAX_ITEMS
  {
    if ids == [] then {}
    else
      var before, id := Picked(ids[..|ids| - 1], live), ids[|ids| - 1];
      if id in live && |before| < MAX_ITEMS then before + {id} else before
  }

  function Kept(ids: seq<string>, keep: set<string>): seq<string> {
    if ids == [] then []
    else Kept(ids[..|ids| - 1], keep) + if ids[|ids| - 1] in keep then [ids[|ids| - 1]] else []
  }

  function Shown(turns: seq<Turn>, live: set<string>): seq<string> {
    Kept(FirstAppearances(Mentions(turns)), Picked(NewestFirst(turns), live))
  }

  ghost predicate Distinct(ids: seq<string>) {
    forall i, j :: 0 <= i < j < |ids| ==> ids[i] != ids[j]
  }

  /** The positions name, in the turn's order, exactly those of its units that are lettered. */
  ghost predicate Points(about: seq<nat>, units: seq<string>, shown: seq<string>) {
    && (forall k :: 0 <= k < |about| ==> 1 <= about[k] <= |shown|)
    && Names(about, shown) == Kept(units, set id | id in shown)
  }

  function Names(about: seq<nat>, shown: seq<string>): seq<string>
    requires forall k :: 0 <= k < |about| ==> 1 <= about[k] <= |shown|
  {
    seq(|about|, k requires 0 <= k < |about| => shown[about[k] - 1])
  }

  // ---- the loops ----

  method DistinctIds(turns: seq<Turn>) returns (ids: seq<string>)
    ensures ids == FirstAppearances(Mentions(turns))
  {
    ids := [];
    assert ids == FirstAppearances(Mentions(turns[..0]));
    for i := 0 to |turns|
      invariant ids == FirstAppearances(Mentions(turns[..i]))
    {
      hide FirstAppearances;
      assert turns[..i + 1][..i] == turns[..i];
      ids := AddNew(ids, turns[i].units, Mentions(turns[..i]));
    }
    assert turns[..|turns|] == turns;
  }

  method AddNew(known: seq<string>, units: seq<string>, ghost before: seq<string>) returns (ids: seq<string>)
    requires known == FirstAppearances(before)
    ensures ids == FirstAppearances(before + units)
  {
    hide FirstAppearances;
    ids := known;
    assert before + units[..0] == before;
    for j := 0 to |units|
      invariant ids == FirstAppearances(before + units[..j])
    {
      assert before + units[..j + 1] == before + units[..j] + [units[j]];
      AppearsNext(before + units[..j], units[j]);
      if units[j] !in ids {
        ids := ids + [units[j]];
      }
    }
    assert units[..|units|] == units;
  }

  lemma AppearsNext(ids: seq<string>, id: string)
    ensures var before := FirstAppearances(ids);
            FirstAppearances(ids + [id]) == if id in before then before else before + [id]
  {
  }

  method Newest(turns: seq<Turn>, live: set<string>) returns (newest: set<string>)
    ensures newest == Picked(NewestFirst(turns), live)
  {
    newest := {};
    var i := |turns|;
    assert NewestFirst(turns[i..]) == [];
    hide NewestFirst;
    while i > 0 && |newest| < MAX_ITEMS
      invariant 0 <= i <= |turns|
      invariant newest == Picked(NewestFirst(turns[i..]), live)
    {
      i := i - 1;
      NewestFirstAdds(turns, i);
      newest := PickMore(newest, turns[i].units, live, NewestFirst(turns[i + 1..]));
    }
    StopsEarly(turns, live, i);
  }

  /** One turn's units, in order, on top of those of the newer turns. */
  method PickMore(newer: set<string>, units: seq<string>, live: set<string>, ghost before: seq<string>)
    returns (newest: set<string>)
    requires newer == Picked(before, live)
    ensures newest == Picked(before + units, live)
  {
    hide Picked;
    newest := newer;
    assert before + units[..0] == before;
    for j := 0 to |units|
      invariant newest == Picked(before + units[..j], live)
    {
      assert before + units[..j + 1] == before + units[..j] + [units[j]];
      PickedNext(before + units[..j], units[j], live);
      if units[j] in live && |newest| < MAX_ITEMS {
        newest := newest + {units[j]};
      }
    }
    assert units[..|units|] == units;
  }

  lemma PickedNext(ids: seq<string>, id: string, live: set<string>)
    ensures var before := Picked(ids, live);
            Picked(ids + [id], live) == if id in live && |before| < MAX_ITEMS then before + {id} else before
  {
  }

  lemma NewestFirstAdds(turns: seq<Turn>, i: nat)
    requires i < |turns|
    ensures NewestFirst(turns[i..]) == NewestFirst(turns[i + 1..]) + turns[i].units
  {
    NewestFirstSplits(turns[i..], 1);
    assert turns[i..][1..] == turns[i + 1..] && turns[i..][..1] == [turns[i]];
  }

  lemma StopsEarly(turns: seq<Turn>, live: set<string>, i: nat)
    requires i <= |turns| && (i == 0 || |Picked(NewestFirst(turns[i..]), live)| == MAX_ITEMS)
    ensures Picked(NewestFirst(turns[i..]), live) == Picked(NewestFirst(turns), live)
  {
    if i == 0 {
      assert turns[0..] == turns;
    } else {
      NewestFirstSplits(turns, i);
      PickedIsFull(NewestFirst(turns[i..]), NewestFirst(turns[..i]), live);
    }
  }

  method IndexIn(shown: seq<string>, id: string) returns (at: Option<nat>)
    ensures match at
            case None => id !in shown
            case Some(k) => k < |shown| && shown[k] == id
  {
    for k := 0 to |shown|
      invariant id !in shown[..k]
    {
      if shown[k] == id {
        return Some(k);
      }
      assert shown[..k + 1] == shown[..k] + [shown[k]];
    }
    assert shown[..|shown|] == shown;
    return None;
  }

  method About(units: seq<string>, shown: seq<string>) returns (about: seq<nat>)
    ensures Points(about, units, shown)
  {
    about := [];
    for j := 0 to |units|
      invariant Points(about, units[..j], shown)
    {
      assert units[..j + 1][..j] == units[..j];
      ghost var before := about;
      var at := IndexIn(shown, units[j]);
      if at.Some? {
        about := about + [at.value + 1];
        assert Names(about, shown) == Names(before, shown) + [units[j]];
      }
    }
    assert units[..|units|] == units;
  }

  /** `recent` is the chat's last turns, oldest first; `read` is the units that are live now, which may fail to be
      read. */
  method ConversationFor(recent: seq<Turn>, aboutReferent: bool, read: seq<string> -> Option<map<string, string>>)
    returns (conv: Conversation, shown: seq<string>)
    ensures recent == [] || aboutReferent ==> conv == Conversation([], []) && shown == []
    ensures recent != [] && !aboutReferent ==>
              var live := Live(read, FirstAppearances(Mentions(recent)));
              && shown == Shown(recent, live.Keys)
              && |conv.items| == |shown|
              && (forall k :: 0 <= k < |shown| ==> shown[k] in live && conv.items[k] == live[shown[k]])
              && |conv.turns| == |recent|
              && (forall i :: 0 <= i < |recent| ==>
                    conv.turns[i].text == recent[i].text && Points(conv.turns[i].about, recent[i].units, shown))
  {
    if |recent| == 0 || aboutReferent {
      return Conversation([], []), [];
    }
    hide Picked, NewestFirst, FirstAppearances, Mentions, Points, Kept;
    var ids := DistinctIds(recent);
    var live := Live(read, ids);
    var newest := Newest(recent, live.Keys);
    PickedAreLive(NewestFirst(recent), live.Keys);
    var items, turns;
    shown, items := Letter(ids, newest, live);
    turns := ShowTurns(recent, shown);
    conv := Conversation(turns, items);
  }

  method Letter(ids: seq<string>, newest: set<string>, live: map<string, string>) returns (shown: seq<string>,
                items: seq<string>)
    requires newest <= live.Keys
    ensures shown == Kept(ids, newest) && |items| == |shown|
    ensures forall i :: 0 <= i < |shown| ==> shown[i] in live && items[i] == live[shown[i]]
  {
    shown, items := [], [];
    for k := 0 to |ids|
      invariant shown == Kept(ids[..k], newest) && |items| == |shown|
      invariant forall i :: 0 <= i < |shown| ==> shown[i] in live && items[i] == live[shown[i]]
    {
      assert ids[..k + 1][..k] == ids[..k];
      if ids[k] in newest {
        shown, items := shown + [ids[k]], items + [live[ids[k]]];
      }
    }
    assert ids[..|ids|] == ids;
  }

  method ShowTurns(recent: seq<Turn>, shown: seq<string>) returns (turns: seq<ShownTurn>)
    ensures |turns| == |recent|
    ensures forall i :: 0 <= i < |recent| ==>
              turns[i].text == recent[i].text && Points(turns[i].about, recent[i].units, shown)
  {
    hide Points;
    turns := [];
    for i := 0 to |recent|
      invariant |turns| == i
      invariant forall k :: 0 <= k < i ==>
                  turns[k].text == recent[k].text && Points(turns[k].about, recent[k].units, shown)
    {
      var about := About(recent[i].units, shown);
      turns := turns + [ShownTurn(recent[i].text, about)];
    }
  }

  /** A unit that cannot be read is left out rather than failing the capture. */
  function Live(read: seq<string> -> Option<map<string, string>>, ids: seq<string>): map<string, string> {
    match read(ids)
    case None => map[]
    case Some(live) => live
  }

  // ---- which units are lettered ----

  lemma {:induction false} NewestFirstSplits(turns: seq<Turn>, t: nat)
    requires t <= |turns|
    ensures NewestFirst(turns) == NewestFirst(turns[t..]) + NewestFirst(turns[..t])
  {
    var n := |turns| - 1;
    if t == |turns| {
      assert turns[..t] == turns && turns[t..] == [];
    } else {
      NewestFirstSplits(turns[..n], t);
      assert turns[..n][..t] == turns[..t] && turns[t..][..n - t] == turns[..n][t..];
    }
  }

  /** Once every letter is taken, whatever follows takes none. */
  lemma {:induction false} PickedIsFull(ids: seq<string>, more: seq<string>, live: set<string>)
    requires |Picked(ids, live)| == MAX_ITEMS
    ensures Picked(ids + more, live) == Picked(ids, live)
  {
    if more == [] {
      assert ids + more == ids;
    } else {
      PickedIsFull(ids, more[..|more| - 1], live);
      assert (ids + more)[..|ids| + |more| - 1] == ids + more[..|more| - 1];
    }
  }

  lemma {:induction false} PickedAreLive(ids: seq<string>, live: set<string>)
    ensures forall id :: id in Picked(ids, live) ==> id in live && id in ids
    ensures |Picked(ids, live)| < MAX_ITEMS ==> forall id :: id in ids && id in live ==> id in Picked(ids, live)
  {
    if ids != [] {
      PickedAreLive(ids[..|ids| - 1], live);
    }
  }

  lemma {:induction false} PickedGrows(ids: seq<string>, more: seq<string>, live: set<string>)
    ensures Picked(ids, live) <= Picked(ids + more, live)
  {
    if more == [] {
      assert ids + more == ids;
    } else {
      PickedGrows(ids, more[..|more| - 1], live);
      assert (ids + more)[..|ids| + |more| - 1] == ids + more[..|more| - 1];
    }
  }

  lemma {:induction false} FirstAppearancesAreDistinct(ids: seq<string>)
    ensures Distinct(FirstAppearances(ids))
    ensures forall id :: id in FirstAppearances(ids) <==> id in ids
  {
    if ids != [] {
      FirstAppearancesAreDistinct(ids[..|ids| - 1]);
      assert ids == ids[..|ids| - 1] + [ids[|ids| - 1]];
    }
  }

  lemma {:induction false} MentionedEitherWay(turns: seq<Turn>)
    ensures forall id :: id in Mentions(turns) <==> Named(turns, id)
    ensures forall id :: id in NewestFirst(turns) <==> Named(turns, id)
  {
    if turns != [] {
      MentionedEitherWay(turns[..|turns| - 1]);
      assert turns == turns[..|turns| - 1] + [turns[|turns| - 1]];
    }
  }

  ghost predicate Named(turns: seq<Turn>, id: string) {
    exists t :: 0 <= t < |turns| && id in turns[t].units
  }

  lemma {:induction false} KeptIsOrdered(ids: seq<string>, keep: set<string>)
    requires Distinct(ids)
    ensures Distinct(Kept(ids, keep))
    ensures forall id :: id in Kept(ids, keep) <==> id in ids && id in keep
    ensures forall i, j :: 0 <= i < j < |Kept(ids, keep)| ==> Before(ids, Kept(ids, keep)[i], Kept(ids, keep)[j])
  {
    if ids != [] {
      var n := |ids| - 1;
      KeptIsOrdered(ids[..n], keep);
      assert ids == ids[..n] + [ids[n]];
      var before := Kept(ids[..n], keep);
      forall i, j | 0 <= i < j < |before|
        ensures Before(ids, before[i], before[j])
      {
        assert Before(ids[..n], before[i], before[j]);
        var a, b :| 0 <= a < b < n && ids[..n][a] == before[i] && ids[..n][b] == before[j];
        assert ids[a] == before[i] && ids[b] == before[j];
      }
      forall i | 0 <= i < |before|
        ensures Before(ids, before[i], ids[n])
      {
        assert before[i] in ids[..n];
        var a :| 0 <= a < n && ids[..n][a] == before[i];
        assert ids[a] == before[i];
      }
    }
  }

  ghost predicate Before(ids: seq<string>, x: string, y: string) {
    exists a, b :: 0 <= a < b < |ids| && ids[a] == x && ids[b] == y
  }

  /** The first place an id is named. */
  ghost predicate FirstAt(ids: seq<string>, k: nat) {
    k < |ids| && ids[k] !in ids[..k]
  }

  lemma {:induction false} FirstAppearancesInOrder(ids: seq<string>, x: string, y: string) returns (a: nat, b: nat)
    requires Before(FirstAppearances(ids), x, y)
    ensures a < b < |ids| && ids[a] == x && ids[b] == y && FirstAt(ids, a) && FirstAt(ids, b)
  {
    var n := |ids| - 1;
    var before := FirstAppearances(ids[..n]);
    FirstAppearancesAreDistinct(ids[..n]);
    var i, j :| 0 <= i < j < |FirstAppearances(ids)| && FirstAppearances(ids)[i] == x && FirstAppearances(ids)[j] == y;
    if j < |before| {
      assert before[i] == x && before[j] == y;
      a, b := FirstAppearancesInOrder(ids[..n], x, y);
      assert ids[..n][..a] == ids[..a] && ids[..n][..b] == ids[..b];
    } else {
      assert before[i] == x && y == ids[n] && y !in ids[..n];
      a := FirstPlace(ids[..n], x);
      b := n;
      assert ids[..n][..a] == ids[..a];
    }
  }

  lemma {:induction false} FirstPlace(ids: seq<string>, x: string) returns (a: nat)
    requires x in ids
    ensures a < |ids| && ids[a] == x && FirstAt(ids, a)
  {
    var n := |ids| - 1;
    if x in ids[..n] {
      a := FirstPlace(ids[..n], x);
      assert ids[..n][..a] == ids[..a];
    } else {
      assert ids == ids[..n] + [ids[n]];
      a := n;
    }
  }

  /** At most MAX_ITEMS units are lettered, each once, each live and named, in the order they first appear. */
  lemma LetteredUnitsAreLiveDistinctAndInOrder(turns: seq<Turn>, live: set<string>)
    ensures var shown := Shown(turns, live);
            && |shown| <= MAX_ITEMS && Distinct(shown)
            && (forall id :: id in shown ==> id in live && Named(turns, id))
            && (forall i, j :: 0 <= i < j < |shown| ==> FirstNamedBefore(Mentions(turns), shown[i], shown[j]))
  {
    var ids, picked, shown := FirstAppearances(Mentions(turns)), Picked(NewestFirst(turns), live), Shown(turns, live);
    FirstAppearancesAreDistinct(Mentions(turns));
    KeptIsOrdered(ids, picked);
    PickedAreLive(NewestFirst(turns), live);
    MentionedEitherWay(turns);
    hide Kept, Picked, FirstAppearances, Mentions, NewestFirst, Named, Before;
    DistinctFits(shown, picked);
    forall i, j | 0 <= i < j < |shown|
      ensures FirstNamedBefore(Mentions(turns), shown[i], shown[j])
    {
      var a, b := FirstAppearancesInOrder(Mentions(turns), shown[i], shown[j]);
    }
  }

  ghost predicate FirstNamedBefore(ids: seq<string>, x: string, y: string) {
    exists a: nat, b: nat :: a < b < |ids| && ids[a] == x && ids[b] == y && FirstAt(ids, a) && FirstAt(ids, b)
  }

  lemma {:induction false} DistinctFits(ids: seq<string>, within: set<string>)
    requires Distinct(ids) && forall id :: id in ids ==> id in within
    ensures |ids| <= |within|
    ensures (forall id :: id in within ==> id in ids) ==> |ids| == |within|
  {
    if ids != [] {
      var n := |ids| - 1;
      assert ids == ids[..n] + [ids[n]];
      DistinctFits(ids[..n], within - {ids[n]});
    }
  }

  lemma ShownIsPicked(turns: seq<Turn>, live: set<string>)
    ensures forall id :: id in Shown(turns, live) <==> id in Picked(NewestFirst(turns), live)
    ensures |Shown(turns, live)| == |Picked(NewestFirst(turns), live)|
  {
    var ids, picked := FirstAppearances(Mentions(turns)), Picked(NewestFirst(turns), live);
    FirstAppearancesAreDistinct(Mentions(turns));
    KeptIsOrdered(ids, picked);
    PickedAreLive(NewestFirst(turns), live);
    MentionedEitherWay(turns);
    hide Kept, Picked, FirstAppearances, Mentions, NewestFirst, Named, Before;
    DistinctFits(Shown(turns, live), picked);
  }

  /** A live unit goes unlettered only when turns at least as new as every turn naming it take all the letters. */
  lemma OnlyNewerUnitsTakeALetterAway(turns: seq<Turn>, live: set<string>, id: string, t: nat)
    requires t < |turns| && id in turns[t].units && id in live
    requires id !in Shown(turns, live)
    ensures |Shown(turns, live)| == MAX_ITEMS
    ensures forall other :: other in Shown(turns, live) ==> Named(turns[t..], other)
  {
    ShownIsPicked(turns, live);
    var since := NewestFirst(turns[t..]);
    NewestFirstSplits(turns, t);
    MentionedEitherWay(turns[t..]);
    assert turns[t..][0] == turns[t];
    assert id in since;
    PickedAreLive(since, live);
    PickedGrows(since, NewestFirst(turns[..t]), live);
    PickedIsFull(since, NewestFirst(turns[..t]), live);
  }

  /** The exchange a follow-up answers can always be bound: while the turns from t on name no more live units
      than there are letters, every one of those units has one. */
  lemma TheNewestUnitsAlwaysHaveALetter(turns: seq<Turn>, live: set<string>, recent: set<string>, id: string, t: nat)
    requires t < |turns| && id in turns[t].units && id in live
    requires forall other :: other in live && Named(turns[t..], other) ==> other in recent
    requires |recent| <= MAX_ITEMS
    ensures id in Shown(turns, live)
  {
    if id !in Shown(turns, live) {
      OnlyNewerUnitsTakeALetterAway(turns, live, id, t);
      LetteredUnitsAreLiveDistinctAndInOrder(turns, live);
      assert turns[t..][0] == turns[t];
      assert id in recent;
      hide Shown, Named;
      DistinctFits(Shown(turns, live), recent - {id});
      assert false;
    }
  }
}
