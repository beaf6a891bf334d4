/**
 What a digest reads, says and marks (internal/brain/digest.go, digest_checkin.go,
 reminder_gate.go): which open check-ins are asked again or closed, which rows it
 may carry and which are past, what there is to say, and what has to be marked
 once it went out.
 */
module DigestPass {
  import opened Options
  import opened Stores
  import opened DueTally
  import opened PassTrace
  import opened PushLedger
  import opened PushQueue
  import DigestText
  import RowOrder

  function ItemIds(items: seq<DigestText.Item>): (ids: seq<string>)
    ensures |ids| == |items|
  {
    seq(|items|, k requires 0 <= k < |items| => items[k].id)
  }

  function AsSaid(copies: seq<Copy>, say: Copy -> string): (rows: seq<DigestText.Trigger>)
    ensures |rows| == |copies|
  {
    seq(|copies|, k requires 0 <= k < |copies| =>
      DigestText.Trigger(copies[k].id, copies[k].row.unit, say(copies[k])))
  }

  function AsItems(copies: seq<Copy>, deferrals: string -> nat): (items: seq<DigestText.Item>)
    ensures |items| == |copies|
  {
    seq(|copies|, k requires 0 <= k < |copies| => DigestText.Item(copies[k].id, deferrals(copies[k].id)))
  }

  /** What a digest is made of, the rows of the goal check-in and the question it asks, what it holds back, and what it
      could have carried. */
  datatype Gathered = Gathered(morning: DigestText.Morning, goal: Option<string>, question: Option<string>,
                               held: seq<DigestText.Item>, items: seq<DigestText.Item>)

  /** The digest that is sent: with a focus the same items are split again. */
  function Ranked(core: Core, g: Gathered): (ranked: Gathered)
    ensures WellGathered(g) ==> WellGathered(ranked)
    ensures core.focus.None? || !core.hasKeeper ==> ranked == g
    ensures ranked == g.(morning := g.morning.(carry := ranked.morning.carry), held := ranked.held)
    ensures core.focus.Some? && core.hasKeeper ==>
              (ranked.morning.carry, ranked.held) == core.focus.value(g.items, core.lowEnergy)
  {
    if core.focus.None? || !core.hasKeeper then g
    else
      var (carry, held) := core.focus.value(g.items, core.lowEnergy);
      g.(morning := g.morning.(carry := carry), held := held)
  }

  /** What a digest has to say: the items carried, the check-ins to ask again, the tasks due, and on a morning that is
      not low one question and one goal check-in. None when that is nothing. */
  function ReadyOf(core: Core, pending: seq<Copy>, reasks: seq<Copy>): (ready: Option<Gathered>)
    ensures ready.Some? ==> WellGathered(ready.value)
    ensures ready.Some? && core.lowEnergy ==> ready.value.goal.None? && ready.value.question.None?
  {
    var question := if core.lowEnergy then None else core.question;
    var goal := if core.lowEnergy then None else core.goal;
    var (carry, held) := core.split(AsItems(pending, Deferrals(core)), core.lowEnergy);
    if (pending == [] || carry == []) && reasks == [] && question.None? && goal.None? && core.tasks == [] then None
    else
      Some(Gathered(
        DigestText.Morning(core.phrases, core.tasks, carry, AsSaid(pending, core.say), AsSaid(reasks, core.say),
                           if question.Some? then Some(question.value.1) else None,
                           if goal.Some? then goal.value.1 else ""),
        if goal.Some? then Some(goal.value.0) else None,
        if question.Some? then Some(question.value.0) else None,
        held, AsItems(pending, Deferrals(core))))
  }

  /** A question is asked exactly when there is one, and words of a goal only for a goal check-in. */
  predicate WellGathered(g: Gathered) {
    (g.question.Some? <==> g.morning.question.Some?) && (g.goal.None? ==> g.morning.goal == "")
  }

  /** How a morning was packed into one message, and what of it the message holds. */
  datatype Packing = Packing(lines: seq<DigestText.Line>, drops: nat, sent: seq<DigestText.Item>, asked: seq<string>,
                             named: seq<string>)

  ghost predicate Packs(text: string, g: Gathered, p: Packing) {
    DigestText.IsMessage(g.morning, p.lines, p.drops, text, p.sent, p.asked, p.named)
  }

  /** The message is the morning's, the first in drop order that fits, and what it is held to say is what its kept
      lines stand for. */
  ghost predicate IsDigestOf(e: Event, g: Gathered, p: Packing) {
    e.Sent? && !e.push && Packs(e.text, g, p) && e.ids == ItemIds(p.sent) + p.asked + Maybe(g.goal) + Maybe(g.question)
  }

  /** A digest's text carries the item's line, the check-in's question, the goal's words if it has any, or the relation
      question. */
  ghost predicate Tells(text: string, g: Gathered, p: Packing, id: string) {
    || (exists x :: x in p.sent && x.id == id && DigestText.SaysItem(g.morning, p.lines, text, x))
    || (id in p.asked && DigestText.SaysAsked(g.morning, text, id))
    || (g.goal == Some(id) && (g.morning.goal == "" || DigestText.Says(text, g.morning.goal)))
    || (g.question == Some(id) && g.morning.question.Some?
        && DigestText.Says(text, DigestText.QuestionLine(g.morning.phrases, g.morning.question.value)))
  }

  /** A digest's message is held to say nothing its text does not carry, but for a goal check-in without words. */
  lemma ADigestSaysAllItIsHeldTo(e: Event, g: Gathered, p: Packing, id: string)
    requires IsDigestOf(e, g, p) && WellGathered(g) && id in e.ids
    ensures Tells(e.text, g, p, id)
  {
    DigestText.WhatIsMarkedIsSaid(g.morning, p.lines, p.drops, e.text, p.sent, p.asked, p.named);
    hide DigestText.IsMessage, DigestText.SaysItem, DigestText.SaysAsked, DigestText.Says;
    if id in ItemIds(p.sent) {
      var k :| 0 <= k < |p.sent| && ItemIds(p.sent)[k] == id;
      assert p.sent[k] in p.sent;
    }
  }

  /** A goal check-in without words is fired and marked as asked after a message that is, to the letter, the one of a
      morning with no goal check-in. */
  lemma AGoalWithoutWordsIsNotSaid(e: Event, g: Gathered, p: Packing, id: string)
    requires IsDigestOf(e, g, p) && WellGathered(g) && g.goal == Some(id) && g.morning.goal == ""
    ensures var without := g.(goal := None);
            && id in e.ids && WellGathered(without)
            && IsDigestOf(e.(ids := ItemIds(p.sent) + p.asked + Maybe(g.question)), without, p)
  {
    var before := ItemIds(p.sent) + p.asked;
    assert e.ids[|before|] == id;
    assert before + Maybe(None) == before;
    hide DigestText.IsMessage;
  }

  const MAX_REASKS: nat := 3

  function WaitingSince(c: Copy): RowOrder.Key {
    RowOrder.Key(if c.row.surfaced.Some? then c.row.surfaced.value else 0, c.id)
  }

  /** The open check-ins whose step is to be asked again. */
  function AgainOf(open: seq<Copy>, core: Core): seq<Copy> {
    if open == [] then []
    else
      var c := open[|open| - 1];
      AgainOf(open[..|open| - 1], core) + if core.step(c) == AskAgain then [c] else []
  }

  /** Asked again are the longest waiting of those to ask, no more than a digest asks. */
  ghost predicate AskedAgain(ask: seq<Copy>, open: seq<Copy>, core: Core) {
    exists waiting ::
      && multiset(waiting) == multiset(AgainOf(open, core)) && RowOrder.Sorted(waiting, WaitingSince)
      && ask == waiting[..if |waiting| < MAX_REASKS then |waiting| else MAX_REASKS]
  }

  lemma AgainNext(open: seq<Copy>, k: nat, core: Core)
    requires k < |open|
    ensures AgainOf(open[..k + 1], core) == AgainOf(open[..k], core) +
              if core.step(open[k]) == AskAgain then [open[k]] else []
  {
    assert open[..k + 1][..k] == open[..k];
  }

  lemma {:induction false} AgainAre(open: seq<Copy>, core: Core)
    ensures forall c :: c in AgainOf(open, core) <==> c in open && core.step(c) == AskAgain
  {
    if open != [] {
      AgainAre(open[..|open| - 1], core);
      assert open == open[..|open| - 1] + [open[|open| - 1]];
    }
  }

  /** No check-in is asked again but one whose step is to be, and one left out has waited no longer than any asked. */
  lemma TheLongestWaitingAreAsked(ask: seq<Copy>, open: seq<Copy>, core: Core)
    requires AskedAgain(ask, open, core)
    ensures |ask| <= MAX_REASKS && forall c :: c in ask ==> c in open && core.step(c) == AskAgain
    ensures forall c, d :: c in ask && d in open && core.step(d) == AskAgain && d !in ask ==>
              |ask| == MAX_REASKS && !RowOrder.Less(WaitingSince(d), WaitingSince(c))
  {
    AgainAre(open, core);
    var waiting :| && multiset(waiting) == multiset(AgainOf(open, core)) && RowOrder.Sorted(waiting, WaitingSince)
                   && ask == waiting[..if |waiting| < MAX_REASKS then |waiting| else MAX_REASKS];
    assert forall c :: c in waiting <==> c in multiset(waiting);
    assert forall c :: c in AgainOf(open, core) <==> c in multiset(AgainOf(open, core));
  }

  /** Each check-in whose time is up is closed. */
  ghost predicate TimeIsUp(rows: map<string, Row>, open: seq<Copy>, core: Core) {
    forall k :: 0 <= k < |open| && core.step(open[k]) == Close ==>
      open[k].id in rows && rows[open[k].id].status == Expired
  }

  lemma TimeIsUpNext(rows: map<string, Row>, after: map<string, Row>, open: seq<Copy>, k: nat, core: Core)
    requires k < |open| && TimeIsUp(rows, open[..k], core) && Grows(rows, after)
    requires core.step(open[k]) == Close ==> open[k].id in after && after[open[k].id].status == Expired
    ensures TimeIsUp(after, open[..k + 1], core)
  {
  }

  lemma KeptAndPastNext(pending: seq<Copy>, k: nat, core: Core)
    requires k < |pending|
    ensures var t := pending[k];
            && KeptOf(pending[..k + 1], core)
               == KeptOf(pending[..k], core) + (if core.judge(t, true).Some? && core.judge(t, true).value.verdict != Stale
                                                   && !Pushed(t.row) then [t] else [])
            && PastOf(pending[..k + 1], core)
               == PastOf(pending[..k], core)
                  + (if core.judge(t, true) == Some(Judgment(Stale, Passed)) then [StaleRow(t, false)] else [])
  {
    assert pending[..k + 1][..k] == pending[..k];
  }

  lemma NonePending(core: Core)
    ensures KeptOf([], core) == [] && PastOf([], core) == []
  {
  }

  lemma {:induction false} PastAreFired(pending: seq<Copy>, core: Core)
    ensures forall k :: 0 <= k < |PastOf(pending, core)| ==> !PastOf(pending, core)[k].armed
  {
    if pending != [] {
      PastAreFired(pending[..|pending| - 1], core);
    }
  }

  function Maybe(id: Option<string>): seq<string> {
    match id
    case None => []
    case Some(x) => [x]
  }

  /** Fired and never shown. */
  predicate Unseen(row: Row) {
    row.Rank() == 1
  }

  predicate IsOpen(row: Row) {
    row.Open()
  }

  // ---- what the digest reads and does ----

  const NO_DIGEST := DigestTrail([], [], [])

  /** What the digest read: the open check-ins, and then the rows fired and unseen. */
  ghost predicate DigestRead(found: seq<map<string, Row>>, from: nat, trail: DigestTrail) {
    from + 2 <= |found| && Found(found[from], trail.open, IsOpen) && Found(found[from + 1], trail.pending, Unseen)
  }

  /** What there is to say, by what was read. */
  function ReadyBy(core: Core, trail: DigestTrail): Option<Gathered> {
    if core.digestOwed then ReadyOf(core, KeptOf(trail.pending, core), trail.reasks) else None
  }

  /** And what the digest that is sent says of it. */
  function SentBy(core: Core, trail: DigestTrail): Option<Gathered> {
    match ReadyBy(core, trail)
    case None => None
    case Some(g) => Some(Ranked(core, g))
  }

  /** The message is the digest of what was read: what there is to say, split by what is in focus, in the first form
      that fits. */
  ghost predicate IsDigest(e: Event, core: Core, trail: DigestTrail, p: Packing) {
    SentBy(core, trail).Some? && IsDigestOf(e, SentBy(core, trail).value, p)
  }

  /** A focus was computed for the digest. */
  predicate Focused(core: Core) {
    core.hasKeeper && core.focus.Some?
  }

  /** Where the marks of a digest begin: after its message, and after its focus became the incumbent. */
  function MarksFrom(before: seq<Event>, core: Core): nat {
    |before| + if Focused(core) then 2 else 1
  }

  /** The event after `before` is the digest's message; the focus it was ranked by, if any, becomes the incumbent at
      once, before anything is marked; and no message follows it. */
  ghost predicate DigestWent(before: seq<Event>, after: seq<Event>, core: Core, g: Gathered, p: Packing) {
    && MarksFrom(before, core) <= |after| && before <= after && IsDigestOf(after[|before|], g, p)
    && (Focused(core) ==> after[|before| + 1].FocusPublished?) && OnlyMarks(after, MarksFrom(before, core))
  }

  lemma ItWent(before: seq<Event>, after: seq<Event>, core: Core, text: string, ids: seq<string>, g: Gathered,
               p: Packing)
    requires after == before + [Sent(text, ids, false)] + if Focused(core) then [FocusPublished] else []
    requires Packs(text, g, p) && ids == ItemIds(p.sent) + p.asked + Maybe(g.goal) + Maybe(g.question)
    ensures DigestWent(before, after, core, g, p)
  {
  }

  /** Its marks follow the message. */
  lemma WentAndWasMarked(before: seq<Event>, sent: seq<Event>, after: seq<Event>, core: Core, g: Gathered, p: Packing,
                         rows: map<string, Row>)
    requires DigestWent(before, sent, core, g, p) && |sent| == MarksFrom(before, core)
    requires sent <= after && OnlyMarks(after, |sent|) && MarksLanded(after, |sent|, rows)
    ensures DigestWent(before, after, core, g, p) && MarksLanded(after, |before|, rows) && after != before
  {
    hide OnlyMarks, MarksLanded, Packs;
    StillWent(before, sent, after, core, g, p);
    LandedFromEarlier(after, |before|, |sent|, rows);
  }

  lemma StillWent(before: seq<Event>, sent: seq<Event>, after: seq<Event>, core: Core, g: Gathered, p: Packing)
    requires DigestWent(before, sent, core, g, p) && |sent| == MarksFrom(before, core)
    requires sent <= after && OnlyMarks(after, |sent|)
    ensures DigestWent(before, after, core, g, p)
    ensures forall k :: |before| <= k < |sent| ==> !after[k].Marked?
  {
    hide OnlyMarks, Packs, ItemIds, Maybe;
    var at := |before|;
    assert sent[at].Sent? && after[at] == sent[at];
    assert |sent| == at + 2 ==> after[at + 1] == sent[at + 1];
    hide IsDigestOf;
  }

  /** Nothing happened, or the digest of what was read came first, and no message after it. */
  ghost predicate DigestTail(before: seq<Event>, after: seq<Event>, found: seq<map<string, Row>>, from: nat, core: Core,
                             trail: DigestTrail, p: Packing) {
    || after == before
    || (DigestRead(found, from, trail) && AskedAgain(trail.reasks, trail.open, core) && SentBy(core, trail).Some?
        && DigestWent(before, after, core, SentBy(core, trail).value, p))
  }

  lemma NoDigestYet(events: seq<Event>, found: seq<map<string, Row>>, from: nat, core: Core, trail: DigestTrail,
                    p: Packing)
    ensures DigestTail(events, events, found, from, core, trail, p)
  {
  }

  lemma TheTailIs(before: seq<Event>, after: seq<Event>, found: seq<map<string, Row>>, from: nat, core: Core,
                  trail: DigestTrail, ready: Gathered, p: Packing)
    requires DigestRead(found, from, trail) && AskedAgain(trail.reasks, trail.open, core)
    requires ReadyBy(core, trail) == Some(ready)
    requires after == before || DigestWent(before, after, core, Ranked(core, ready), p)
    ensures DigestTail(before, after, found, from, core, trail, p)
  {
  }

  lemma TailGoesOn(before: seq<Event>, after: seq<Event>, found: seq<map<string, Row>>, from: nat, core: Core,
                   trail: DigestTrail, p: Packing)
    requires DigestTail(before, after, found, from, core, trail, p)
    ensures before <= after && NoSends(after, |before| + 1)
    ensures after != before ==> from + 1 < |found| && after[|before|].Sent? && !after[|before|].push
    ensures after != before ==> IsDigest(after[|before|], core, trail, p)
  {
    hide Packs, SentBy, AskedAgain, Found;
  }

  /** What a digest said was read unseen, of the rows as they had become, and its marks are on their rows. */
  ghost predicate DigestLanded(before: seq<Event>, after: seq<Event>, rows: map<string, Row>,
                               found: seq<map<string, Row>>, from: nat, rows': map<string, Row>) {
    after != before ==> from + 1 < |found| && Grows(rows, found[from + 1]) && MarksLanded(after, |before|, rows')
  }

  /** One push of these reminders. */
  predicate IsPushOf(e: Event, group: seq<Copy>, core: Core) {
    group != [] && e == Sent(core.pushText(group), Ids(group), true)
  }

  /** Every message is a push that words the reminders it is held to say. */
  ghost predicate Composed(events: seq<Event>, core: Core) {
    forall k :: 0 <= k < |events| && events[k].Sent? ==> IsComposed(events[k], core)
  }

  ghost predicate IsComposed(e: Event, core: Core) {
    exists group :: IsPushOf(e, group, core)
  }

  /** Pushes that word the reminders they are held to say, and then at most one digest, of what was read. */
  ghost predicate Says(events: seq<Event>, found: seq<map<string, Row>>, from: nat, core: Core, trail: DigestTrail,
                       p: Packing) {
    exists n :: && 0 <= n <= |events| && Composed(events[..n], core)
                && DigestTail(events[..n], events, found, from, core, trail, p)
  }

  /** Of every digest: what it said was read unseen of the rows as they had become, and its marks are on their rows. */
  ghost predicate Landed(events: seq<Event>, rows: map<string, Row>, found: seq<map<string, Row>>, from: nat,
                         rows': map<string, Row>) {
    forall k :: 0 <= k < |events| && events[k].Sent? && !events[k].push ==>
      from + 1 < |found| && Grows(rows, found[from + 1]) && MarksLanded(events, k, rows')
  }

  lemma ComposedNext(events: seq<Event>, e: Event, core: Core)
    requires Composed(events, core) && (e.Sent? ==> IsComposed(e, core))
    ensures Composed(events + [e], core)
  {
    hide IsComposed;
  }

  lemma PlansAreComposed(events: seq<Event>, core: Core)
    requires forall k :: 0 <= k < |events| ==> events[k].Planned? || events[k].Retired?
    ensures Composed(events, core)
  {
  }

  /** A scan that sent no digest. */
  lemma SaysNoDigest(events: seq<Event>, rows: map<string, Row>, found: seq<map<string, Row>>, from: nat, core: Core,
                     trail: DigestTrail, p: Packing, rows': map<string, Row>)
    requires Composed(events, core)
    ensures Says(events, found, from, core, trail, p) && Landed(events, rows, found, from, rows')
  {
    assert events[..|events|] == events;
    NoDigestYet(events, found, from, core, trail, p);
    forall k | 0 <= k < |events| && events[k].Sent?
      ensures events[k].push
    {
      assert IsComposed(events[k], core);
    }
    hide Composed, DigestTail;
  }

  /** A push that words the reminder among others, or the digest of what was read with the line of it in its text. */
  ghost predicate TellsOf(e: Event, core: Core, trail: DigestTrail, p: Packing, id: string) {
    || (exists group :: IsPushOf(e, group, core) && id in Ids(group))
    || (IsDigest(e, core, trail, p) && Tells(e.text, SentBy(core, trail).value, p, id))
  }

  /** Whatever failed and however the pass ended, every mark follows a message of the pass whose text tells of what it
      marks. */
  lemma EveryMarkWasTold(events: seq<Event>, found: seq<map<string, Row>>, from: nat, core: Core, trail: DigestTrail,
                         p: Packing, now: int, next: Option<int>, m: nat)
    requires Says(events, found, from, core, trail, p) && TraceOk(events, now, next)
    requires m < |events| && Marks(events[m]).Some?
    ensures exists k :: 0 <= k < m && TellsOf(events[k], core, trail, p, Marks(events[m]).value)
  {
    var id := Marks(events[m]).value;
    assert SaidBefore(events, m, id);
    hide TraceOk;
    var k :| 0 <= k < m && events[k].Sent? && id in events[k].ids;
    var n :| && 0 <= n <= |events| && Composed(events[..n], core)
             && DigestTail(events[..n], events, found, from, core, trail, p);
    hide Says, DigestTail, SentBy, Packs, Tells;
    if k < n {
      assert IsComposed(events[..n][k], core);
    } else {
      TailGoesOn(events[..n], events, found, from, core, trail, p);
      assert k == n;
      SentIsGathered(core, trail);
      ADigestSaysAllItIsHeldTo(events[k], SentBy(core, trail).value, p, id);
    }
  }

  lemma SentIsGathered(core: Core, trail: DigestTrail)
    requires SentBy(core, trail).Some?
    ensures WellGathered(SentBy(core, trail).value)
  {
  }

  /** What a digest leaves of what was remembered and composed before it. */
  lemma TheTailIsSaid(l: Ledger, before: seq<Event>, after: seq<Event>, found: seq<map<string, Row>>, from: nat,
                      core: Core, trail: DigestTrail, p: Packing)
    requires Composed(before, core) && DigestTail(before, after, found, from, core, trail, p)
    ensures l.After(after) == l.After(before) && before <= after && Says(after, found, from, core, trail, p)
  {
    TailGoesOn(before, after, found, from, core, trail, p);
    assert after[..|before|] == before;
    hide DigestTail, Composed, IsDigest;
    ADigestIsNoPush(l, before, after);
  }

  lemma TheTailLanded(before: seq<Event>, after: seq<Event>, rows: map<string, Row>, found: seq<map<string, Row>>,
                      from: nat, core: Core, rows': map<string, Row>)
    requires Composed(before, core) && before <= after && NoSends(after, |before| + 1)
    requires DigestLanded(before, after, rows, found, from, rows')
    ensures Landed(after, rows, found, from, rows')
  {
    hide Grows, MarksLanded, IsComposed, NoSends;
    forall k | 0 <= k < |after| && after[k].Sent? && !after[k].push
      ensures k == |before|
    {
      OnlyTheDigest(before, after, core, k);
    }
  }

  /** Of the rows as the scan found them when it began. */
  lemma TheTailHasLanded(start: map<string, Row>, rows: map<string, Row>, before: seq<Event>, after: seq<Event>,
                         found: seq<map<string, Row>>, from: nat, core: Core, trail: DigestTrail, p: Packing,
                         rows': map<string, Row>)
    requires Grows(start, rows) && Composed(before, core)
    requires DigestTail(before, after, found, from, core, trail, p)
    requires DigestLanded(before, after, rows, found, from, rows')
    ensures Landed(after, start, found, from, rows')
  {
    TailGoesOn(before, after, found, from, core, trail, p);
    if after != before {
      GrowsIsTransitive(start, rows, found[from + 1]);
    }
    hide DigestTail, Composed, IsDigest, Grows, MarksLanded;
    TheTailLanded(before, after, start, found, from, core, rows');
  }

  lemma OnlyTheDigest(before: seq<Event>, after: seq<Event>, core: Core, k: nat)
    requires Composed(before, core) && before <= after && NoSends(after, |before| + 1)
    requires k < |after| && after[k].Sent? && !after[k].push
    ensures k == |before|
  {
    assert k < |before| ==> IsComposed(before[k], core);
  }

  /** A push went out. */
  lemma PushNext(l: Ledger, events: seq<Event>, group: seq<Copy>, core: Core)
    requires Composed(events, core) && group != []
    ensures var after := events + [Sent(core.pushText(group), Ids(group), true)];
            && l.After(after) == l.After(events).(pushed := l.After(events).pushed + Ids(group))
            && LastPush(after) == Ids(group) && Composed(after, core)
  {
    var e := Sent(core.pushText(group), Ids(group), true);
    assert IsPushOf(e, group, core);
    hide Composed;
    ComposedNext(events, e, core);
    EventNext(l, events, e);
  }

  /** A failure noted about a reminder of the last push. */
  lemma FailureNext(l: Ledger, events: seq<Event>, e: Event, ids: seq<string>, core: Core)
    requires LastPush(events) == ids && (e.Unmarked? || e.Unlogged?) && e.id in ids && Composed(events, core)
    ensures LastPush(events + [e]) == ids && Composed(events + [e], core) && Broke(events + [e], ids)
    ensures l.After(events + [e]) ==
            var now := l.After(events);
            now.(unmarked := now.unmarked + (if e.Unmarked? then {e.id} else {}),
                 behind := now.behind + (if e.Unlogged? && MarksRow(e.action) then StandAfter(ids, e.id) else {}))
  {
    JustBroke(events, e, ids);
    hide Composed, Broke;
    ComposedNext(events, e, core);
    EventNext(l, events, e);
    assert l.After(events).pushed + [] == l.After(events).pushed;
  }

  /** A row of the last push was marked, was moved on by another, or its mark failed. */
  lemma SurfaceNext(l: Ledger, events: seq<Event>, after: seq<Event>, id: string, at: int, w: Write, ids: seq<string>,
                    core: Core)
    requires LastPush(events) == ids && id in ids && Composed(events, core)
    requires w.Done? ==> after == events + [Marked(id, at)]
    requires w.Conflict? ==> after == events
    requires w.Failed? ==> after == events + [Unmarked(id)] || after == events + [Marked(id, at)] + [Unmarked(id)]
    ensures LastPush(after) == ids && Composed(after, core) && events <= after && Wrote(events, after, Marked(id, at))
    ensures l.After(after) ==
            l.After(events).(unmarked := l.After(events).unmarked + if w == Failed then {id} else {})
    ensures w == Failed ==> Broke(after, ids)
  {
    var e, now := Marked(id, at), l.After(events);
    assert now.pushed + [] == now.pushed && now.behind + {} == now.behind && now.unmarked + {} == now.unmarked;
    ComposedNext(events, e, core);
    EventNext(l, events, e);
    hide Composed, Broke, LastPush, Ledger.After;
    if w == Failed {
      FailureNext(l, events, Unmarked(id), ids, core);
      FailureNext(l, events + [e], Unmarked(id), ids, core);
    }
  }

  lemma RowLostNext(l: Ledger, events: seq<Event>, action: Action, ids: seq<string>, k: nat, core: Core)
    requires LastPush(events) == ids && k < |ids| && Apart(ids) && MarksRow(action) && Composed(events, core)
    ensures var after := events + [Unlogged(action, ids[k])];
            && LastPush(after) == ids && Composed(after, core) && Broke(after, ids)
            && l.After(after) == l.After(events).(behind := l.After(events).behind + SetOf(ids[k + 1..]))
  {
    hide Composed, Broke, LastPush, Ledger.After, Apart;
    StandAfterIs(ids, k);
    FailureNext(l, events, Unlogged(action, ids[k]), ids, core);
  }

  /** A failed send could not be recorded. */
  lemma NotSaidNext(l: Ledger, events: seq<Event>, id: string, ids: seq<string>, now: int, next: Option<int>, core: Core)
    requires Composed(events, core) && TraceOk(events, now, next) && id in ids
    ensures var after := events + [Unlogged(SendFailedRow, id)];
            && l.After(after) == l.After(events) && Composed(after, core) && Broke(after, ids) &&
                TraceOk(after, now, next)
  {
    var e := Unlogged(SendFailedRow, id);
    JustBroke(events, e, ids);
    ComposedNext(events, e, core);
    EventNext(l, events, e);
    assert l.After(events).pushed + [] == l.After(events).pushed;
    hide TraceOk;
    TraceGrows(events, e, now, next);
  }

  ghost predicate AsksMarked(events: seq<Event>, from: nat, goal: Option<string>, question: Option<string>) {
    && from <= |events| && AllMarked(events, from, Maybe(goal), false)
    && (goal.Some? ==> GoalFired(goal.value) in events[from..])
    && (question.Some? ==> QuestionAsked(question.value) in events[from..])
  }

  /** The items it carried, the goal check-in and the question are marked. */
  ghost predicate DigestMarked(events: seq<Event>, from: nat, g: Gathered, p: Packing) {
    AsksMarked(events, from, g.goal, g.question) && AllMarked(events, from, ItemIds(p.sent), false)
  }

  lemma StaysMarked(events: seq<Event>, after: seq<Event>, from: nat, goal: Option<string>)
    requires from <= |events| && events <= after
    requires goal.Some? ==> MarkedSince(events, from, goal.value, false) && GoalFired(goal.value) in events[from..]
    ensures AllMarked(after, from, Maybe(goal), false)
    ensures goal.Some? ==> GoalFired(goal.value) in after[from..]
  {
  }

  lemma AllIsMarked(events: seq<Event>, from: nat, g: Gathered, p: Packing)
    requires AllMarked(events, from, ItemIds(p.sent), false) && AsksMarked(events, from, g.goal, g.question)
    ensures DigestMarked(events, from, g, p)
  {
  }

  predicate EndsWith(rows: seq<Action>, tail: seq<Action>) {
    |tail| <= |rows| && rows[|rows| - |tail|..] == tail
  }

  lemma NothingSentYet(events: seq<Event>)
    ensures OnlyMarks(events, |events|)
  {
  }

  /** One message tried, and what followed when it went out. */
  ghost predicate DigestDone(tried: seq<string>, tried': seq<string>, events: seq<Event>, after: seq<Event>, carried: nat,
                             core: Core, g: Gathered, p: Packing, hasConversation: bool) {
    && tried <= tried' && |tried'| == |tried| + (if hasConversation then 1 else 0)
    && (hasConversation ==> Packs(tried'[|tried|], g, p))
    && (after == events ==> carried == 0)
    && (after != events ==> DigestWent(events, after, core, g, p) && DigestMarked(after, MarksFrom(events, core), g, p)
                            && carried == |p.sent|)
  }

  /** The check-ins whose time is up, in order. */
  function ClosedOf(open: seq<Copy>, core: Core): seq<string> {
    if open == [] then []
    else
      var c := open[|open| - 1];
      ClosedOf(open[..|open| - 1], core) + if core.step(c) == Close then [c.id] else []
  }

  lemma ClosedNext(open: seq<Copy>, k: nat, core: Core)
    requires k < |open|
    ensures ClosedOf(open[..k + 1], core) == ClosedOf(open[..k], core) +
              if core.step(open[k]) == Close then [open[k].id] else []
  {
    assert open[..k + 1][..k] == open[..k];
  }

  lemma NoneOpen(rows: map<string, Row>, core: Core)
    ensures AgainOf([], core) == [] && SkippedOf([], core) == {} && TimeIsUp(rows, [], core) && ClosedOf([], core) == []
  {
  }

  lemma NothingOpen(rows: map<string, Row>, core: Core)
    ensures TimeIsUp(rows, [], core) && PastOf([], core) == [] && Ended(rows, [])
  {
  }

  lemma TimeIsUpStays(rows: map<string, Row>, after: map<string, Row>, open: seq<Copy>, core: Core)
    requires TimeIsUp(rows, open, core) && Grows(rows, after)
    ensures TimeIsUp(after, open, core)
  {
  }

  lemma LongestAreAsked(ask: seq<Copy>, waiting: seq<Copy>, open: seq<Copy>, core: Core)
    requires multiset(waiting) == multiset(AgainOf(open, core)) && RowOrder.Sorted(waiting, WaitingSince)
    requires ask == waiting[..if |waiting| < MAX_REASKS then |waiting| else MAX_REASKS]
    ensures AskedAgain(ask, open, core)
  {
  }

  function SkipKey(c: Copy, core: Core): string {
    c.id + "@" + core.today
  }

  /** The check-ins whose re-ask was skipped because their unit could not be read. */
  function SkippedOf(open: seq<Copy>, core: Core): set<string> {
    if open == [] then {}
    else
      var c := open[|open| - 1];
      SkippedOf(open[..|open| - 1], core) + if core.reaskSkipped(c) then {SkipKey(c, core)} else {}
  }

  lemma SkippedNext(open: seq<Copy>, k: nat, core: Core)
    requires k < |open|
    ensures SkippedOf(open[..k + 1], core) == SkippedOf(open[..k], core) +
              if core.reaskSkipped(open[k]) then {SkipKey(open[k], core)} else {}
  {
    assert open[..k + 1][..k] == open[..k];
  }

  // ---- how often a digest says an item ----

  /** One of these passes wrote, after its digest's message, that the user saw it. */
  ghost predicate ShownBy(passes: seq<seq<Event>>, id: string) {
    exists n :: 0 <= n < |passes| && MarkedAfterDigest(passes[n], id)
  }

  ghost predicate MarkedAfterDigest(events: seq<Event>, id: string) {
    exists k, m :: 0 <= k < m < |events| && events[k].Sent? && !events[k].push && events[m].Marked? && events[m].id == id
  }

  /** The digest of this pass carried it. */
  ghost predicate CarriedBy(events: seq<Event>, found: seq<map<string, Row>>, from: nat, core: Core, id: string) {
    exists trail, p, k :: 0 <= k < |events| && CarriesAt(events, k, found, from, core, trail, p, id)
  }

  ghost predicate CarriesAt(events: seq<Event>, k: nat, found: seq<map<string, Row>>, from: nat, core: Core,
                            trail: DigestTrail, p: Packing, id: string)
    requires k < |events|
  {
    DigestRead(found, from, trail) && IsDigest(events[k], core, trail, p) && id in ItemIds(p.sent)
  }

  ghost predicate AllShownAreOver(passes: seq<seq<Event>>, rows: map<string, Row>) {
    forall id :: ShownBy(passes, id) ==> id in rows && rows[id].Rank() == 2
  }

  lemma NothingShownYet(rows: map<string, Row>)
    ensures AllShownAreOver([], rows)
  {
  }

  lemma ShownNext(passes: seq<seq<Event>>, events: seq<Event>, rows: map<string, Row>, found: seq<map<string, Row>>,
                  from: nat, after: map<string, Row>)
    requires AllShownAreOver(passes, rows) && Grows(rows, after) && Landed(events, rows, found, from, after)
    ensures AllShownAreOver(passes + [events], after)
  {
    forall id | ShownBy(passes + [events], id)
      ensures id in after && after[id].Rank() == 2
    {
      var n :| 0 <= n < |passes| + 1 && MarkedAfterDigest((passes + [events])[n], id);
      if n < |passes| {
        assert ShownBy(passes, id);
      } else {
        var k, m :| && 0 <= k < m < |events| && events[k].Sent? && !events[k].push && events[m].Marked?
                    && events[m].id == id;
        assert events[k..][m - k] == events[m];
      }
    }
  }

  /** A row read unseen that a digest may carry. */
  predicate Keeps(t: Copy, core: Core) {
    core.judge(t, true).Some? && core.judge(t, true).value.verdict != Stale && !Pushed(t.row)
  }

  lemma {:induction false} KeptAre(pending: seq<Copy>, core: Core)
    ensures forall t :: t in KeptOf(pending, core) <==> t in pending && Keeps(t, core)
  {
    if pending != [] {
      var n := |pending| - 1;
      KeptAre(pending[..n], core);
      assert pending == pending[..n] + [pending[n]];
    }
  }

  lemma SentAreCarried(text: string, g: Gathered, p: Packing, x: DigestText.Item)
    requires Packs(text, g, p) && x in p.sent
    ensures x in g.morning.carry
  {
    DigestText.SentAndLeftAreTheCarried(g.morning, p.lines, p.drops);
    hide DigestText.Grouped, DigestText.FirstThatFits, DigestText.Candidate;
    assert x in multiset(p.sent);
    assert x in multiset(g.morning.carry);
  }

  lemma CarriedAreItems(f: Split, items: seq<DigestText.Item>, low: bool, x: DigestText.Item)
    requires x in f(items, low).0
    ensures x in items
  {
    assert x in multiset(f(items, low).0);
    assert x in multiset(items);
  }

  lemma CarriedAreKept(core: Core, trail: DigestTrail, x: DigestText.Item)
    requires SentBy(core, trail).Some? && x in SentBy(core, trail).value.morning.carry
    ensures exists t :: t in KeptOf(trail.pending, core) && t.id == x.id
  {
    var kept := KeptOf(trail.pending, core);
    var items := AsItems(kept, Deferrals(core));
    hide KeptOf, Splits;
    if Focused(core) {
      CarriedAreItems(core.focus.value, items, core.lowEnergy, x);
    } else {
      CarriedAreItems(core.split, items, core.lowEnergy, x);
    }
    var i :| 0 <= i < |items| && items[i] == x;
    assert kept[i] in kept && kept[i].id == x.id;
  }

  /** Every item a digest carries was read fired and unseen. */
  lemma EachItemWasPending(e: Event, core: Core, trail: DigestTrail, p: Packing, id: string)
    requires IsDigest(e, core, trail, p) && id in ItemIds(p.sent)
    ensures exists t :: t in trail.pending && t.id == id
  {
    var k :| 0 <= k < |p.sent| && ItemIds(p.sent)[k] == id;
    hide Packs, SentBy, KeptOf;
    SentAreCarried(e.text, SentBy(core, trail).value, p, p.sent[k]);
    CarriedAreKept(core, trail, p.sent[k]);
    KeptAre(trail.pending, core);
  }

  lemma CarriedWasUnseen(events: seq<Event>, rows: map<string, Row>, found: seq<map<string, Row>>, from: nat, core: Core,
                         after: map<string, Row>, id: string)
    requires Landed(events, rows, found, from, after) && CarriedBy(events, found, from, core, id)
    ensures id in rows ==> rows[id].Rank() <= 1
  {
    var trail, p, k :| 0 <= k < |events| && CarriesAt(events, k, found, from, core, trail, p, id);
    EachItemWasPending(events[k], core, trail, p, id);
    var t :| t in trail.pending && t.id == id;
    hide Packs, SentBy, MarksLanded, ItemIds;
    FoundIsThere(found[from + 1], trail.pending, Unseen, t);
    assert Unseen(t.row);
  }

  /** What an earlier digest marked as seen is in no later one. */
  lemma NeverCarriedAgain(passes: seq<seq<Event>>, events: seq<Event>, rows: map<string, Row>,
                          found: seq<map<string, Row>>, from: nat, core: Core, after: map<string, Row>, id: string)
    requires AllShownAreOver(passes, rows) && Landed(events, rows, found, from, after) && ShownBy(passes, id)
    ensures !CarriedBy(events, found, from, core, id)
  {
    hide ShownBy, CarriedBy, Landed;
    if CarriedBy(events, found, from, core, id) {
      CarriedWasUnseen(events, rows, found, from, core, after, id);
    }
  }
}
