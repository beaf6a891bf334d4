/**
 One focus computation (internal/brain/focuskeeper.go) and the bars it reads
 relations through (internal/brain/awake.go).

 A round sweeps the relations of every member of the held snapshot P and, once
 it has selected, of its own next snapshot P'. Each member's relations and each
 type's thresholds are read at most once a round. Ranking and selecting are
 parameters.
 */
module FocusEdges {
  import opened Options

  datatype Kind = Task | Load

  datatype Thresholds = Thresholds(persist: real, surface: real)

  datatype Relation = Relation(kind: string, from: string, to: string, strength: real, confidence: real)

  datatype Edge = Edge(from: string, to: string, strength: real)

  datatype Candidate = Candidate(id: string, facts: string)

  datatype Ranked = Ranked(id: string, score: real)

  /** One whole snapshot: what is in focus, of both kinds. */
  datatype Incumbent = Incumbent(task: seq<string>, load: seq<string>)

  function Selection(p: Option<Incumbent>, kind: Kind): seq<string> {
    match p
    case None => []
    case Some(i) => if kind == Task then i.task else i.load
  }

  function Members(p: Option<Incumbent>): seq<string> {
    Selection(p, Task) + Selection(p, Load)
  }

  /** What the stores answer one round. */
  datatype Store = Store(
    relations: string -> Option<seq<Relation>>,
    thresholds: string -> Option<Option<Thresholds>>,
    margin: Option<real>,
    candidates: Kind -> Option<seq<Candidate>>)

  /** The parts of internal/core a round calls. `resolve` turns a type's stored row, or none, into its thresholds. */
  datatype Core = Core(
    resolve: Option<Thresholds> -> Thresholds,
    dormant: (real, Thresholds) -> bool,
    rank: (seq<Candidate>, map<string, real>) -> seq<Ranked>,
    select: (Kind, seq<Ranked>, seq<string>, real) -> seq<string>,
    adjacency: (seq<string>, seq<Edge>) -> map<string, real>)

  ghost predicate Distinct(ids: seq<string>) {
    forall i, j :: 0 <= i < j < |ids| ==> ids[i] != ids[j]
  }

  // ---- what direct reads would give ----

  function BarOf(store: Store, core: Core, kind: string): Option<Thresholds> {
    match store.thresholds(kind)
    case None => None
    case Some(row) => Some(core.resolve(row))
  }

  /** The relations without the dormant ones, in order; None when a bar cannot be read. */
  function AwakeOf(store: Store, core: Core, rels: seq<Relation>): Option<seq<Relation>> {
    if rels == [] then Some([])
    else
      var r := rels[|rels| - 1];
      match AwakeOf(store, core, rels[..|rels| - 1])
      case None => None
      case Some(kept) =>
        match BarOf(store, core, r.kind)
        case None => None
        case Some(t) => Some(kept + if core.dormant(r.confidence, t) then [] else [r])
  }

  function AsEdges(rels: seq<Relation>): (edges: seq<Edge>)
    ensures |edges| == |rels|
  {
    seq(|rels|, i requires 0 <= i < |rels| => Edge(rels[i].from, rels[i].to, rels[i].strength))
  }

  function EdgesOf(store: Store, core: Core, id: string): Option<seq<Edge>> {
    match store.relations(id)
    case None => None
    case Some(rels) =>
      match AwakeOf(store, core, rels)
      case None => None
      case Some(awake) => Some(AsEdges(awake))
  }

  /** Member by member, a read each; None when one of them fails. */
  function Sweep(store: Store, core: Core, ids: seq<string>): Option<seq<Edge>> {
    if ids == [] then Some([])
    else
      match Sweep(store, core, ids[..|ids| - 1])
      case None => None
      case Some(before) =>
        match EdgesOf(store, core, ids[|ids| - 1])
        case None => None
        case Some(edges) => Some(before + edges)
  }

  lemma AwakeNext(store: Store, core: Core, rels: seq<Relation>, i: nat, kept: seq<Relation>)
    requires i < |rels| && AwakeOf(store, core, rels[..i]) == Some(kept)
    ensures AwakeOf(store, core, rels[..i + 1]) ==
            match BarOf(store, core, rels[i].kind)
            case None => None
            case Some(t) => Some(kept + if core.dormant(rels[i].confidence, t) then [] else [rels[i]])
  {
    assert rels[..i + 1][..i] == rels[..i];
  }

  lemma {:induction false} AFailedBarStops(store: Store, core: Core, rels: seq<Relation>, i: nat)
    requires i <= |rels| && AwakeOf(store, core, rels[..i]) == None
    ensures AwakeOf(store, core, rels) == None
    decreases |rels| - i
  {
    if i < |rels| {
      assert rels[..i + 1][..i] == rels[..i];
      AFailedBarStops(store, core, rels, i + 1);
    } else {
      assert rels[..i] == rels;
    }
  }

  lemma SweepNext(store: Store, core: Core, ids: seq<string>, i: nat, before: seq<Edge>)
    requires i < |ids| && Sweep(store, core, ids[..i]) == Some(before)
    ensures Sweep(store, core, ids[..i + 1]) ==
            match EdgesOf(store, core, ids[i])
            case None => None
            case Some(edges) => Some(before + edges)
  {
    assert ids[..i + 1][..i] == ids[..i];
  }

  lemma {:induction false} AFailedReadStops(store: Store, core: Core, ids: seq<string>, i: nat)
    requires i <= |ids| && Sweep(store, core, ids[..i]) == None
    ensures Sweep(store, core, ids) == None
    decreases |ids| - i
  {
    if i < |ids| {
      assert ids[..i + 1][..i] == ids[..i];
      AFailedReadStops(store, core, ids, i + 1);
    } else {
      assert ids[..i] == ids;
    }
  }

  /** A sweep fails exactly when a member's relations, or the bar of one of them, cannot be read. */
  lemma {:induction false} SweepFailsExactlyWhen(store: Store, core: Core, ids: seq<string>)
    ensures Sweep(store, core, ids).None? <==> exists i :: 0 <= i < |ids| && EdgesOf(store, core, ids[i]).None?
  {
    if ids != [] {
      var n := |ids| - 1;
      SweepFailsExactlyWhen(store, core, ids[..n]);
      assert forall i :: 0 <= i < n ==> ids[..n][i] == ids[i];
      hide EdgesOf;
    }
  }

  // ---- bars ----

  class Bars {
    const store: Store
    const core: Core
    var byType: map<string, Thresholds>
    /** Every type whose thresholds were read, in order, the read that failed included. */
    ghost var asked: seq<string>

    ghost predicate Valid()
      reads this
    {
      && Distinct(asked) && (forall t :: t in asked <==> t in byType)
      && forall t :: t in byType ==> BarOf(store, core, t) == Some(byType[t])
    }

    constructor (store: Store, core: Core)
      ensures Valid() && this.store == store && this.core == core && asked == []
    {
      this.store, this.core, byType, asked := store, core, map[], [];
    }

    /** The type's bar, read the first time it is asked for. */
    method Of(kind: string) returns (t: Option<Thresholds>)
      requires Valid()
      modifies this
      ensures t == BarOf(store, core, kind) && (t.Some? ==> Valid())
      ensures Distinct(asked) && asked == old(asked) + if kind in old(asked) then [] else [kind]
    {
      if kind in byType {
        assert asked + [] == asked;
        return Some(byType[kind]);
      }
      asked := asked + [kind];
      var row := store.thresholds(kind);
      if row.None? {
        return None;
      }
      byType := byType[kind := core.resolve(row.value)];
      return Some(byType[kind]);
    }

    /** rs without its dormant relations, in rs's order. */
    method Awake(rs: seq<Relation>) returns (out: Option<seq<Relation>>)
      requires Valid()
      modifies this
      ensures out == AwakeOf(store, core, rs) && (out.Some? ==> Valid())
      ensures Distinct(asked) && old(asked) <= asked
      ensures forall t :: t in asked ==> t in old(asked) || HasKind(rs, t)
    {
      hide Distinct, AwakeOf, BarOf;
      assert AwakeOf(store, core, rs[..0]) == Some([]) by { NothingRead(store, core, rs, []); }
      var kept: seq<Relation> := [];
      assert old(asked) + [] == asked;
      for i := 0 to |rs|
        invariant Valid() && old(asked) <= asked
        invariant AwakeOf(store, core, rs[..i]) == Some(kept)
        invariant forall t :: t in asked ==> t in old(asked) || HasKind(rs, t)
      {
        AwakeNext(store, core, rs, i, kept);
        var t := Of(rs[i].kind);
        if t.None? {
          AFailedBarStops(store, core, rs, i + 1);
          return None;
        }
        if !core.dormant(rs[i].confidence, t.value) {
          kept := kept + [rs[i]];
        } else {
          assert kept + [] == kept;
        }
      }
      assert rs[..|rs|] == rs;
      out := Some(kept);
    }
  }

  predicate HasKind(rels: seq<Relation>, kind: string) {
    exists i :: 0 <= i < |rels| && rels[i].kind == kind
  }

  lemma NothingRead(store: Store, core: Core, rels: seq<Relation>, ids: seq<string>)
    ensures AwakeOf(store, core, rels[..0]) == Some([]) && Sweep(store, core, ids[..0]) == Some([])
  {
  }

  datatype Question = Question(relationType: string, confidence: real)

  datatype First = Failed | NoneAwake | Found(k: nat)

  predicate Asleep(store: Store, core: Core, q: Question) {
    var bar := BarOf(store, core, q.relationType);
    bar.Some? && core.dormant(q.confidence, bar.value)
  }

  /** The first question that is not asleep decides: it is found, or its bar cannot be read. */
  ghost predicate IsFirst(store: Store, core: Core, queued: seq<Question>, k: nat) {
    k < |queued| && (forall i :: 0 <= i < k ==> Asleep(store, core, queued[i])) && !Asleep(store, core, queued[k])
  }

  /** The first queued question whose relation is awake; the bars are read once a type, and only as far as needed. With
      no relation store every question is awake. */
  method FirstAwakeQuestion(rels: Option<Store>, core: Core, queued: seq<Question>)
    returns (first: First, ghost asked: seq<string>)
    ensures rels.None? ==> first == (if queued == [] then NoneAwake else Found(0)) && asked == []
    ensures rels.Some? ==>
              match first
              case NoneAwake => forall i :: 0 <= i < |queued| ==> Asleep(rels.value, core, queued[i])
              case Found(k) => IsFirst(rels.value, core, queued, k) &&
                  BarOf(rels.value, core, queued[k].relationType).Some?
              case Failed => exists k: nat ::
                               IsFirst(rels.value, core, queued, k) &&
                                   BarOf(rels.value, core, queued[k].relationType).None?
    ensures Distinct(asked)
    ensures forall t :: t in asked ==> exists i :: 0 <= i < |queued| && queued[i].relationType == t
    ensures first.Found? ==> forall t :: t in asked ==> exists i :: 0 <= i <= first.k && queued[i].relationType == t
  {
    if queued == [] || rels.None? {
      return if queued == [] then NoneAwake else Found(0), [];
    }
    var b := new Bars(rels.value, core);
    for i := 0 to |queued|
      invariant fresh(b) && b.Valid() && b.core == core && b.store == rels.value
      invariant forall j :: 0 <= j < i ==> Asleep(rels.value, core, queued[j])
      invariant forall t :: t in b.asked ==> exists j :: 0 <= j < i && queued[j].relationType == t
    {
      var t := b.Of(queued[i].relationType);
      if t.None? {
        assert IsFirst(rels.value, core, queued, i);
        return Failed, b.asked;
      }
      if !core.dormant(queued[i].confidence, t.value) {
        return Found(i), b.asked;
      }
    }
    return NoneAwake, b.asked;
  }

  // ---- one round's edges ----

  class EdgeCache {
    const store: Store
    const core: Core
    var byUnit: map<string, seq<Edge>>
    /** Built here rather than on the first read; building it reads nothing. */
    const bars: Bars
    /** Every unit whose relations were read, in order, the read that failed included. */
    ghost var asked: seq<string>

    constructor (store: Store, core: Core)
      ensures Valid() && this.store == store && this.core == core && asked == [] && bars.asked == [] && fresh(bars)
    {
      this.store, this.core, byUnit, asked := store, core, map[], [];
      bars := new Bars(store, core);
    }

    ghost predicate AskedOnce()
      reads this, bars
    {
      Distinct(asked) && Distinct(bars.asked)
    }

    ghost predicate Valid()
      reads this, bars
    {
      && bars.core == core && bars.store == store && bars.Valid()
      && AskedOnce() && (forall id :: id in asked <==> id in byUnit)
      && forall id :: id in byUnit ==> EdgesOf(store, core, id) == Some(byUnit[id])
    }

    /** A member's edges, read the first time they are asked for. */
    method MemberEdges(id: string) returns (edges: Option<seq<Edge>>)
      requires Valid()
      modifies this, bars
      ensures edges == EdgesOf(store, core, id) && (edges.Some? ==> Valid())
      ensures AskedOnce() && asked == old(asked) + if id in old(asked) then [] else [id]
      ensures old(bars.asked) <= bars.asked
    {
      if id in byUnit {
        assert asked + [] == asked && bars.asked + [] == bars.asked;
        return Some(byUnit[id]);
      }
      asked := asked + [id];
      var answer := store.relations(id);
      if !answer.Some? {
        return None;
      }
      var awake := bars.Awake(answer.value);
      if awake.None? {
        return None;
      }
      byUnit := byUnit[id := AsEdges(awake.value)];
      return Some(byUnit[id]);
    }

    /** The sweep over every member of p, as edges. */
    method Edges(p: Option<Incumbent>) returns (edges: Option<seq<Edge>>)
      requires Valid()
      modifies this, bars
      ensures edges == Sweep(store, core, Members(p)) && (edges.Some? ==> Valid())
      ensures AskedOnce() && old(asked) <= asked && old(bars.asked) <= bars.asked
      ensures forall x :: x in asked ==> x in old(asked) || x in Members(p)
      ensures edges.Some? ==> forall x :: x in Members(p) ==> x in asked
    {
      hide Sweep, EdgesOf, Distinct, Bars.Valid;
      var ids := Members(p);
      var all: seq<Edge> := [];
      NothingRead(store, core, [], ids);
      for i := 0 to |ids|
        invariant Valid() && old(asked) <= asked && old(bars.asked) <= bars.asked
        invariant forall x :: x in asked <==> x in old(asked) || x in ids[..i]
        invariant Sweep(store, core, ids[..i]) == Some(all)
      {
        SweepNext(store, core, ids, i, all);
        assert ids[..i + 1] == ids[..i] + [ids[i]];
        var member := MemberEdges(ids[i]);
        if member.None? {
          AFailedReadStops(store, core, ids, i + 1);
          return None;
        }
        all := all + member.value;
      }
      assert ids[..|ids|] == ids;
      edges := Some(all);
    }
  }

  // ---- the round ----

  datatype Round = Round(members: map<Kind, seq<Ranked>>, next: Incumbent, adjacent: map<string, real>,
                         nextAdjacent: map<string, real>)

  /** A kind's ranking: its candidates, with adjacency to P's own members of that kind. */
  function RankedOf(core: Core, store: Store, p: Option<Incumbent>, edges: seq<Edge>, kind: Kind): Option<seq<Ranked>> {
    match store.candidates(kind)
    case None => None
    case Some(candidates) => Some(core.rank(candidates, core.adjacency(Selection(p, kind), edges)))
  }

  /** The next snapshot: both kinds, against one P and one reading of its edges. */
  function Next(core: Core, store: Store, p: Option<Incumbent>): Option<Incumbent> {
    match Sweep(store, core, Members(p))
    case None => None
    case Some(edges) =>
      var task, load := RankedOf(core, store, p, edges, Task), RankedOf(core, store, p, edges, Load);
      if store.margin.None? || task.None? || load.None? then None
      else
        Some(Incumbent(core.select(Task, task.value, Selection(p, Task), store.margin.value),
                       core.select(Load, load.value, Selection(p, Load), store.margin.value)))
  }

  /** The round a reader who memoized nothing would compute. */
  ghost predicate IsRound(core: Core, store: Store, p: Option<Incumbent>, r: Round) {
    && Next(core, store, p) == Some(r.next)
    && var edges := Sweep(store, core, Members(p));
      var nextEdges := Sweep(store, core, Members(Some(r.next)));
      && nextEdges.Some?
      && r.adjacent == core.adjacency(Members(p), edges.value)
      && r.nextAdjacent == core.adjacency(Members(Some(r.next)), nextEdges.value)
      && r.members.Keys == {Task, Load}
      && (forall kind :: kind in r.members ==>
           Scored(r.members[kind], RankedOf(core, store, p, edges.value, kind).value, Selection(Some(r.next), kind)))
  }

  /** Every read a round needs succeeds. */
  ghost predicate Readable(core: Core, store: Store, p: Option<Incumbent>) {
    Next(core, store, p).Some? && Sweep(store, core, Members(Next(core, store, p))).Some?
  }

  /** Each member in the order selected, with the very score this round's ranking gave it. */
  ghost predicate Scored(members: seq<Ranked>, ranked: seq<Ranked>, selected: seq<string>) {
    && |members| == |selected|
    && forall k :: 0 <= k < |selected| && Listed(ranked, selected[k]) ==>
         members[k] in ranked && members[k].id == selected[k]
  }

  predicate Listed(ranked: seq<Ranked>, id: string) {
    exists k :: 0 <= k < |ranked| && ranked[k].id == id
  }

  method Score(ranked: seq<Ranked>, selected: seq<string>) returns (members: seq<Ranked>)
    ensures Scored(members, ranked, selected)
  {
    var scoreById: map<string, Ranked> := map[];
    for k := 0 to |ranked|
      invariant forall id :: id in scoreById ==> scoreById[id].id == id && scoreById[id] in ranked
      invariant forall j :: 0 <= j < k ==> ranked[j].id in scoreById
    {
      scoreById := scoreById[ranked[k].id := ranked[k]];
    }
    members := [];
    for k := 0 to |selected|
      invariant |members| == k
      invariant forall j :: 0 <= j < k && Listed(ranked, selected[j]) ==>
                  members[j] in ranked && members[j].id == selected[j]
    {
      members := members + [if selected[k] in scoreById then scoreById[selected[k]] else Ranked("", 0.0)];
    }
  }

  class FocusKeeper {
    const core: Core
    var held: Option<Incumbent>

    constructor (core: Core)
      ensures this.core == core && held == None
    {
      this.core, held := core, None;
    }

    /** Reads and never stores. `units` and `types` are every unit and every type the relation store was asked about. */
    method Compute(store: Store) returns (r: Option<Round>, ghost units: seq<string>, ghost types: seq<string>)
      ensures held == old(held)
      ensures r.Some? ==> IsRound(core, store, held, r.value)
      ensures r.Some? <==> Readable(core, store, held)
      ensures Distinct(units) && Distinct(types)
      ensures r.Some? ==> forall id :: id in units <==> id in Members(held) || id in Members(Some(r.value.next))
    {
      hide Sweep;
      var prev := held;
      units, types := [], [];
      if !store.margin.Some? {
        return None, units, types;
      }
      var margin := store.margin.value;
      var cache := new EdgeCache(store, core);
      var edges := cache.Edges(prev);
      units, types := cache.asked, cache.bars.asked;
      if edges.None? {
        return None, units, types;
      }
      var task, load := store.candidates(Task), store.candidates(Load);
      if !task.Some? || !load.Some? {
        return None, units, types;
      }
      var rankedTask := core.rank(task.value, core.adjacency(Selection(prev, Task), edges.value));
      var rankedLoad := core.rank(load.value, core.adjacency(Selection(prev, Load), edges.value));
      var next := Incumbent(core.select(Task, rankedTask, Selection(prev, Task), margin),
                            core.select(Load, rankedLoad, Selection(prev, Load), margin));
      var membersTask := Score(rankedTask, next.task);
      var membersLoad := Score(rankedLoad, next.load);
      var nextEdges := cache.Edges(Some(next));
      units, types := cache.asked, cache.bars.asked;
      if nextEdges.None? {
        return None, units, types;
      }
      r := Some(Round(map[Task := membersTask, Load := membersLoad], next,
                      core.adjacency(Members(prev), edges.value), core.adjacency(Members(Some(next)), nextEdges.value)));
    }

    method Publish(r: Round)
      modifies this
      ensures held == Some(r.next)
    {
      held := Some(r.next);
    }
  }

  // ---- any number of writers ----

  /** Each writer loads the held snapshot once, computes against it, and later may publish. */
  datatype Step = LoadHeld(writer: nat) | PublishRound(writer: nat, round: Round, store: Store) | Restart

  datatype State = State(held: Option<Incumbent>, loaded: seq<Option<Incumbent>>)

  ghost predicate Enabled(core: Core, s: State, step: Step) {
    match step
    case LoadHeld(w) => w < |s.loaded|
    case PublishRound(w, r, store) => w < |s.loaded| && IsRound(core, store, s.loaded[w], r)
    case Restart => true
  }

  ghost function After(s: State, step: Step): State {
    match step
    case LoadHeld(w) => if w < |s.loaded| then s.(loaded := s.loaded[w := s.held]) else s
    case PublishRound(_, r, _) => s.(held := Some(r.next))
    case Restart => State(None, seq(|s.loaded|, w => None))
  }

  ghost predicate IsRun(core: Core, states: seq<State>, steps: seq<Step>) {
    && |states| == |steps| + 1
    && states[0].held == None && (forall w :: 0 <= w < |states[0].loaded| ==> states[0].loaded[w] == None)
    && forall i :: 0 <= i < |steps| ==>
         Enabled(core, states[i], steps[i]) && states[i + 1] == After(states[i], steps[i])
  }

  /** Step i published p, whole, and p is the round its writer computed against the snapshot it had loaded. */
  ghost predicate PublishedAt(core: Core, states: seq<State>, steps: seq<Step>, i: nat, p: Option<Incumbent>)
    requires i < |steps| && i < |states|
  {
    var step := steps[i];
    && step.PublishRound? && p == Some(step.round.next) && step.writer < |states[i].loaded|
    && IsRound(core, step.store, states[i].loaded[step.writer], step.round)
  }

  ghost predicate HeldBefore(states: seq<State>, n: nat, p: Option<Incumbent>) {
    p == None || exists j: nat :: j < n && j < |states| && states[j].held == p
  }

  /** However writers interleave, what is held is never a mix: it is what one step published, the two selections one
      writer computed in one round, against one snapshot that was held before it loaded it. */
  lemma {:induction false} HeldIsAlwaysOneWholeRound(core: Core, states: seq<State>, steps: seq<Step>, n: nat)
    requires IsRun(core, states, steps) && n < |states|
    ensures states[n].held == None || exists i: nat :: i < n && PublishedAt(core, states, steps, i, states[n].held)
    ensures forall w :: 0 <= w < |states[n].loaded| ==> HeldBefore(states, n, states[n].loaded[w])
  {
    if n > 0 {
      HeldIsAlwaysOneWholeRound(core, states, steps, n - 1);
      hide IsRound;
      if steps[n - 1].PublishRound? {
        assert PublishedAt(core, states, steps, n - 1, states[n].held);
      }
    }
  }
}
