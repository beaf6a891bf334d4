/**
 The nightly derive phase, from the judge's proposals to what is written
 (internal/brain/consolidate.go: derive, usableVector, embedForMerge,
 mergeAgainstActiveAndRetired, persistRoutes; the routing rules and the merge
 are internal/core/consolidation/shield.go and derive.go).

 A proposal is screened, compared with the active and the retired beliefs, and
 either skipped, or reinforces a belief, or creates one. What the user retired
 must not come back, and one unusable vector must not stop the night.
 */
module DeriveScreen {
  import opened Options

  // ---- vectors ----

  datatype Float = NaN | Inf | Fin(r: real)

  type Vector = seq<Float>

  datatype Cause = EmbedError | NonFinite | ZeroVector | DimensionMismatch

  predicate Finite(v: Vector) {
    forall i :: 0 <= i < |v| ==> v[i].Fin?
  }

  predicate Zero(v: Vector) {
    forall i :: 0 <= i < |v| ==> v[i] == Fin(0.0)
  }

  /** What recall.Normalize refuses: it meets a component that is not finite, or sums to no magnitude. */
  method Normalizes(v: Vector) returns (refused: Option<Cause>)
    ensures refused == Refusal(v)
  {
    var zero := true;
    for i := 0 to |v|
      invariant forall k :: 0 <= k < i ==> v[k].Fin?
      invariant zero <==> Zero(v[..i])
    {
      if !v[i].Fin? {
        return Some(NonFinite);
      }
      zero := zero && v[i].r == 0.0;
    }
    assert v[..|v|] == v;
    return if zero then Some(ZeroVector) else None;
  }

  function Refusal(v: Vector): Option<Cause> {
    if !Finite(v) then Some(NonFinite) else if Zero(v) then Some(ZeroVector) else None
  }

  /** usableVector: why v cannot be compared with vectors of length dim; 0 is no reference yet. */
  function Unusable(v: Vector, dim: nat): Option<Cause> {
    if Refusal(v).Some? then Refusal(v) else if dim > 0 && |v| != dim then Some(DimensionMismatch) else None
  }

  // ---- the beliefs and the proposals ----

  datatype Belief = Belief(id: string, key: string, derived: bool)

  /** Whose text is embedded; each is embedded at most once, and may fail. */
  datatype Subject = Active(i: nat) | Retired(i: nat) | Proposed(i: nat)

  /** A vector, and which belief or proposal it is of. */
  datatype Entry = Entry(of: nat, vector: Vector)

  datatype Dropped = Dropped(of: nat, cause: Cause)

  datatype Embeddings = Embeddings(
    active: seq<Entry>, retired: seq<Entry>, proposed: seq<Entry>,
    dropped: seq<Dropped>, unusable: map<nat, Cause>)

  predicate Increasing(s: seq<nat>) {
    forall i, j :: 0 <= i < j < |s| ==> s[i] < s[j]
  }

  function Ofs(entries: seq<Entry>): (s: seq<nat>)
    ensures |s| == |entries|
  {
    seq(|entries|, k requires 0 <= k < |entries| => entries[k].of)
  }

  /** dim is the length every comparison of this pass uses: the first active vector's, else the first usable
      proposal's. */
  ghost predicate Reference(dim: nat, embed: Subject -> Option<Vector>, actives: nat, pending: seq<nat>) {
    var first := if actives > 0 && embed(Active(0)).Some? then |embed(Active(0)).value| else 0;
    if first > 0 then dim == first
    else if dim == 0 then forall k :: 0 <= k < |pending| && embed(Proposed(pending[k])).Some? ==>
         Unusable(embed(Proposed(pending[k])).value, 0).Some?
    else exists k :: FirstUsable(embed, pending, k, dim)
  }

  ghost predicate FirstUsable(embed: Subject -> Option<Vector>, pending: seq<nat>, k: nat, dim: nat) {
    && k < |pending| && embed(Proposed(pending[k])).Some?
    && |embed(Proposed(pending[k])).value| == dim && Unusable(embed(Proposed(pending[k])).value, 0).None?
    && forall j :: 0 <= j < k && embed(Proposed(pending[j])).Some? ==>
         Unusable(embed(Proposed(pending[j])).value, 0).Some?
  }

  /** The pending proposals split into usable and unusable, each with its own vector, in order. */
  ghost predicate ProposalsSplit(vs: Embeddings, embed: Subject -> Option<Vector>, pending: seq<nat>, dim: nat) {
    && Increasing(Ofs(vs.proposed))
    && (forall k :: 0 <= k < |vs.proposed| ==>
          vs.proposed[k].of in pending && embed(Proposed(vs.proposed[k].of)) == Some(vs.proposed[k].vector)
          && Unusable(vs.proposed[k].vector, dim) == None)
    && (forall p :: p in vs.unusable ==>
          p in pending && embed(Proposed(p)).Some? && Unusable(embed(Proposed(p)).value, dim) == Some(vs.unusable[p]))
    && (forall p :: p in pending ==> (p in Ofs(vs.proposed) <==> p !in vs.unusable))
  }

  /** The retired beliefs split into compared and dropped, each once, in order. */
  ghost predicate RetiredSplit(vs: Embeddings, embed: Subject -> Option<Vector>, retired: nat, dim: nat) {
    && Increasing(Ofs(vs.retired))
    && (forall k :: 0 <= k < |vs.retired| ==>
          vs.retired[k].of < retired && Comparable(embed(Retired(vs.retired[k].of)), dim) == None
          && embed(Retired(vs.retired[k].of)) == Some(vs.retired[k].vector))
    && (forall k :: 0 <= k < |vs.dropped| ==>
          vs.dropped[k].of < retired && Comparable(embed(Retired(vs.dropped[k].of)), dim) == Some(vs.dropped[k].cause))
    && (forall r :: 0 <= r < retired ==> (r in Ofs(vs.retired) <==> Comparable(embed(Retired(r)), dim) == None))
    && (forall r: nat :: r < retired && Comparable(embed(Retired(r)), dim).Some? ==>
         Dropped(r, Comparable(embed(Retired(r)), dim).value) in vs.dropped)
  }

  function Comparable(answer: Option<Vector>, dim: nat): Option<Cause> {
    match answer
    case None => Some(EmbedError)
    case Some(v) => Unusable(v, dim)
  }

  /** An active belief or a proposal that fails to embed aborts; a retired one only when the pass was cancelled. */
  ghost predicate EmbedAborts(embed: Subject -> Option<Vector>, cancelled: nat -> bool, actives: nat, retired: nat,
                              pending: seq<nat>) {
    || (exists i: nat :: i < actives && embed(Active(i)).None?)
    || (exists i: nat :: i < retired && embed(Retired(i)).None? && cancelled(i))
    || (exists k :: 0 <= k < |pending| && embed(Proposed(pending[k])).None?)
  }

  method EmbedForMerge(embed: Subject -> Option<Vector>, cancelled: nat -> bool, actives: nat, retired: nat,
                       pending: seq<nat>)
    returns (r: Option<Embeddings>, ghost dim: nat)
    requires Increasing(pending)
    ensures r.None? <==> EmbedAborts(embed, cancelled, actives, retired, pending)
    ensures r.Some? ==>
              && |r.value.active| == actives
              && (forall i :: 0 <= i < actives ==>
                   r.value.active[i].of == i && embed(Active(i)) == Some(r.value.active[i].vector))
              && Reference(dim, embed, actives, pending)
              && ProposalsSplit(r.value, embed, pending, dim)
              && RetiredSplit(r.value, embed, retired, dim)
  {
    dim := 0;
    var active: seq<Entry> := [];
    for i := 0 to actives
      invariant |active| == i
      invariant forall k :: 0 <= k < i ==> active[k].of == k && embed(Active(k)) == Some(active[k].vector)
    {
      if embed(Active(i)).None? {
        return None, dim;
      }
      active := active + [Entry(i, embed(Active(i)).value)];
    }
    for i := 0 to retired
      invariant forall k :: 0 <= k < i && embed(Retired(k)).None? ==> !cancelled(k)
    {
      if embed(Retired(i)).None? && cancelled(i) {
        return None, dim;
      }
    }
    for k := 0 to |pending|
      invariant forall j :: 0 <= j < k ==> embed(Proposed(pending[j])).Some?
    {
      if embed(Proposed(pending[k])).None? {
        return None, dim;
      }
    }
    var d := if |active| > 0 then |active[0].vector| else 0;
    var vs := Embeddings(active, [], [], [], map[]);
    vs, d := ScreenProposals(vs, embed, actives, pending, d);
    dim := d;
    vs := ScreenRetired(vs, embed, retired, d);
    r := Some(vs);
  }

  method ScreenProposals(vs0: Embeddings, embed: Subject -> Option<Vector>, ghost actives: nat, pending: seq<nat>,
                         first: nat)
    returns (vs: Embeddings, dim: nat)
    requires Increasing(pending) && vs0.proposed == [] && vs0.unusable == map[]
    requires first == if actives > 0 && embed(Active(0)).Some? then |embed(Active(0)).value| else 0
    requires forall k :: 0 <= k < |pending| ==> embed(Proposed(pending[k])).Some?
    ensures vs == vs0.(proposed := vs.proposed, unusable := vs.unusable)
    ensures Reference(dim, embed, actives, pending) && ProposalsSplit(vs, embed, pending, dim)
  {
    hide Finite, Zero;
    var proposed: seq<Entry>, unusable: map<nat, Cause> := [], map[];
    dim := first;
    assert pending[..0] == [];
    for k := 0 to |pending|
      invariant dim == 0 ==> first == 0 && proposed == []
      invariant Reference(dim, embed, actives, pending[..k])
      invariant ProposalsSplit(vs0.(proposed := proposed, unusable := unusable), embed, pending[..k], dim)
    {
      var p := pending[k];
      var v := embed(Proposed(p)).value;
      ghost var before := vs0.(proposed := proposed, unusable := unusable);
      assert pending[..k + 1] == pending[..k] + [p];
      var cause := Unusable(v, dim);
      if cause.Some? {
        SplitUnusable(before, embed, pending, k, dim, cause.value);
        KeepReference(embed, actives, pending, k, dim);
        unusable := unusable[p := cause.value];
      } else {
        SplitUsable(before, embed, pending, k, dim);
        TakeReference(embed, actives, pending, k, dim);
        if dim == 0 {
          dim := |v|;
        }
        proposed := proposed + [Entry(p, v)];
      }
    }
    assert pending[..|pending|] == pending;
    vs := vs0.(proposed := proposed, unusable := unusable);
  }

  lemma SplitUnusable(vs: Embeddings, embed: Subject -> Option<Vector>, pending: seq<nat>, k: nat, dim: nat,
                      cause: Cause)
    requires k < |pending| && Increasing(pending) && embed(Proposed(pending[k])).Some?
    requires ProposalsSplit(vs, embed, pending[..k], dim) &&
             Unusable(embed(Proposed(pending[k])).value, dim) == Some(cause)
    ensures ProposalsSplit(vs.(unusable := vs.unusable[pending[k] := cause]), embed, pending[..k + 1], dim)
  {
  }

  /** The first usable vector fixes the length: no vector judged before it is judged differently after it. */
  lemma SplitUsable(vs: Embeddings, embed: Subject -> Option<Vector>, pending: seq<nat>, k: nat, dim: nat)
    requires k < |pending| && Increasing(pending) && embed(Proposed(pending[k])).Some?
    requires ProposalsSplit(vs, embed, pending[..k], dim) && Unusable(embed(Proposed(pending[k])).value, dim) == None
    requires dim == 0 ==> vs.proposed == []
    ensures var v := embed(Proposed(pending[k])).value;
            && |v| > 0
            && ProposalsSplit(vs.(proposed := vs.proposed + [Entry(pending[k], v)]), embed, pending[..k + 1],
                              if dim == 0 then |v| else dim)
  {
    var v := embed(Proposed(pending[k])).value;
    var after := vs.(proposed := vs.proposed + [Entry(pending[k], v)]);
    assert |v| > 0;
    assert forall w: Vector :: dim == 0 && Unusable(w, 0).Some? ==> Unusable(w, |v|) == Unusable(w, 0);
    hide Refusal, Unusable;
    assert forall j :: 0 <= j < k ==> pending[..k][j] < pending[k];
    assert pending[..k + 1] == pending[..k] + [pending[k]];
    assert Ofs(after.proposed) == Ofs(vs.proposed) + [pending[k]];
    assert forall j :: 0 <= j < |vs.proposed| ==>
             Ofs(vs.proposed)[j] == vs.proposed[j].of && vs.proposed[j].of in pending[..k];
    assert forall p :: p in vs.unusable ==> p in pending[..k];
  }

  lemma KeepReference(embed: Subject -> Option<Vector>, actives: nat, pending: seq<nat>, k: nat, dim: nat)
    requires k < |pending| && embed(Proposed(pending[k])).Some? && Reference(dim, embed, actives, pending[..k])
    requires Unusable(embed(Proposed(pending[k])).value, dim).Some?
    ensures Reference(dim, embed, actives, pending[..k + 1])
  {
    hide Refusal;
    var more := pending[..k + 1];
    assert forall j :: 0 <= j < k ==> more[j] == pending[..k][j];
    if j :| FirstUsable(embed, pending[..k], j, dim) {
      assert FirstUsable(embed, more, j, dim);
    }
  }

  lemma TakeReference(embed: Subject -> Option<Vector>, actives: nat, pending: seq<nat>, k: nat, dim: nat)
    requires k < |pending| && embed(Proposed(pending[k])).Some? && Reference(dim, embed, actives, pending[..k])
    requires Unusable(embed(Proposed(pending[k])).value, dim) == None && |embed(Proposed(pending[k])).value| > 0
    ensures Reference(if dim == 0 then |embed(Proposed(pending[k])).value| else dim, embed, actives, pending[..k + 1])
  {
    hide Refusal;
    var more := pending[..k + 1];
    assert forall j :: 0 <= j < k ==> more[j] == pending[..k][j];
    if dim == 0 {
      assert FirstUsable(embed, more, k, |embed(Proposed(pending[k])).value|);
    } else if j :| FirstUsable(embed, pending[..k], j, dim) {
      assert FirstUsable(embed, more, j, dim);
    }
  }

  method ScreenRetired(vs0: Embeddings, embed: Subject -> Option<Vector>, retired: nat, dim: nat)
    returns (vs: Embeddings)
    requires vs0.retired == [] && vs0.dropped == []
    ensures vs == vs0.(retired := vs.retired, dropped := vs.dropped)
    ensures RetiredSplit(vs, embed, retired, dim)
  {
    hide Unusable;
    var compared: seq<Entry>, dropped: seq<Dropped> := [], [];
    for i := 0 to retired
      invariant RetiredSplit(vs0.(retired := compared, dropped := dropped), embed, i, dim)
    {
      var cause := Comparable(embed(Retired(i)), dim);
      if cause.Some? {
        dropped := dropped + [Dropped(i, cause.value)];
      } else {
        ghost var before := compared;
        compared := compared + [Entry(i, embed(Retired(i)).value)];
        assert Ofs(compared) == Ofs(before) + [i];
      }
    }
    vs := vs0.(retired := compared, dropped := dropped);
  }

  // ---- the merge ----

  const MERGE_COSINE := 0.85

  datatype Decision = Decision(proposed: nat, into: Option<nat>, similarity: real)

  /** The similarity of two vectors: a dot product of the two normalized. */
  type Sim = (Vector, Vector) -> real

  /** A decision for v names a nearest existing belief, if it is near enough. */
  ghost predicate Decided(d: Decision, existing: seq<Entry>, v: Vector, sim: Sim) {
    if !Finite(v) then d.into == None
    else
      match d.into
      case None => forall j :: 0 <= j < |existing| ==> sim(existing[j].vector, v) < MERGE_COSINE
      case Some(b) =>
        && d.similarity >= MERGE_COSINE
        && (forall j :: 0 <= j < |existing| ==> sim(existing[j].vector, v) <= d.similarity)
        && (exists k :: 0 <= k < |existing| && existing[k].of == b && sim(existing[k].vector, v) == d.similarity)
  }

  /** What makes the whole call fail: an existing vector refused or of another length, a proposed one of no
      magnitude or, with something to compare it to, of another length. */
  ghost predicate MergeFails(existing: seq<Entry>, proposed: seq<Entry>) {
    || (exists k :: 0 <= k < |existing| && Unusable(existing[k].vector, |existing[0].vector|).Some?)
    || (exists k :: 0 <= k < |proposed| && Refusal(proposed[k].vector) == Some(ZeroVector))
    || (exists k :: 0 <= k < |proposed| && existing != []
                    && Refusal(proposed[k].vector) == None && |proposed[k].vector| != |existing[0].vector|)
  }

  method MergeProposals(existing: seq<Entry>, proposed: seq<Entry>, sim: Sim) returns (r: Option<seq<Decision>>)
    ensures r.None? <==> MergeFails(existing, proposed)
    ensures r.Some? ==> |r.value| == |proposed|
    ensures r.Some? ==> forall i :: 0 <= i < |proposed| ==>
              r.value[i].proposed == i && Decided(r.value[i], existing, proposed[i].vector, sim)
  {
    hide Decided, Zero;
    for k := 0 to |existing|
      invariant forall j :: 0 <= j < k ==> Refusal(existing[j].vector) == None
    {
      var refused := Normalizes(existing[k].vector);
      if refused.Some? {
        assert Unusable(existing[k].vector, |existing[0].vector|).Some?;
        return None;
      }
    }
    for k := 0 to |existing|
      invariant forall j :: 0 <= j < k ==> |existing[j].vector| == |existing[0].vector|
    {
      if |existing[k].vector| != |existing[0].vector| {
        NotEmpty(existing[0].vector);
        assert Unusable(existing[k].vector, |existing[0].vector|).Some?;
        return None;
      }
    }
    var decisions: seq<Decision> := [];
    for i := 0 to |proposed|
      invariant |decisions| == i
      invariant forall k :: 0 <= k < i ==> Refusal(proposed[k].vector) != Some(ZeroVector)
      invariant forall k :: 0 <= k < i ==> existing != [] && Refusal(proposed[k].vector) == None ==>
                  |proposed[k].vector| == |existing[0].vector|
      invariant forall k :: 0 <= k < i ==>
                  decisions[k].proposed == k && Decided(decisions[k], existing, proposed[k].vector, sim)
    {
      var v := proposed[i].vector;
      var refused := Normalizes(v);
      if refused == Some(ZeroVector) {
        return None;
      }
      if refused.None? && |existing| > 0 && |v| != |existing[0].vector| {
        return None;
      }
      var d := Decide(i, existing, v, refused.Some?, sim);
      decisions := decisions + [d];
    }
    r := Some(decisions);
  }

  lemma NotEmpty(v: Vector)
    requires Refusal(v) == None
    ensures |v| > 0
  {
  }

  method Decide(i: nat, existing: seq<Entry>, v: Vector, corrupted: bool, sim: Sim) returns (d: Decision)
    requires corrupted <==> !Finite(v)
    ensures d.proposed == i && Decided(d, existing, v, sim)
  {
    hide Finite;
    if corrupted || |existing| == 0 {
      return Decision(i, None, 0.0);
    }
    var best := 0;
    for k := 1 to |existing|
      invariant best < |existing|
      invariant forall j :: 0 <= j < k ==> sim(existing[j].vector, v) <= sim(existing[best].vector, v)
    {
      if sim(existing[k].vector, v) > sim(existing[best].vector, v) {
        best := k;
      }
    }
    var similarity := sim(existing[best].vector, v);
    d := if similarity >= MERGE_COSINE then Decision(i, Some(existing[best].of), similarity) else Decision(i, None, 0.0);
  }

  /** What the screen hands the merge can always be merged with the retired beliefs, and with the active ones
      exactly when the active beliefs' own vectors are usable together: no retired belief and no proposal,
      however broken its vector, stops the night. */
  lemma OnlyAnActiveBeliefCanStopTheMerge(vs: Embeddings, embed: Subject -> Option<Vector>, actives: nat,
                                          retired: nat, pending: seq<nat>, dim: nat)
    requires |vs.active| == actives && forall i :: 0 <= i < actives ==> embed(Active(i)) == Some(vs.active[i].vector)
    requires Reference(dim, embed, actives, pending) && ProposalsSplit(vs, embed, pending, dim) &&
             RetiredSplit(vs, embed, retired, dim)
    requires vs.proposed != []
    ensures dim > 0 && forall k :: 0 <= k < |vs.proposed| ==>
              Finite(vs.proposed[k].vector) && !Zero(vs.proposed[k].vector) && |vs.proposed[k].vector| == dim
    ensures forall k :: 0 <= k < |vs.retired| ==>
              Finite(vs.retired[k].vector) && !Zero(vs.retired[k].vector) && |vs.retired[k].vector| == dim
    ensures !MergeFails(vs.retired, vs.proposed)
    ensures MergeFails(vs.active, vs.proposed) <==>
              exists i :: 0 <= i < actives && Unusable(vs.active[i].vector, |vs.active[0].vector|).Some?
  {
    assert Ofs(vs.proposed)[0] == vs.proposed[0].of;
    assert Unusable(vs.proposed[0].vector, dim) == None;
    var k :| 0 <= k < |pending| && pending[k] == vs.proposed[0].of;
    assert dim > 0;
    hide Finite, Zero;
    assert forall j :: 0 <= j < |vs.retired| ==> Unusable(vs.retired[j].vector, dim) == None;
  }

  /** The decisions against one set of beliefs, told apart by the proposals' own numbers. */
  ghost predicate Remapped(ds: seq<Decision>, existing: seq<Entry>, proposed: seq<Entry>, sim: Sim) {
    && |ds| == |proposed|
    && forall k :: 0 <= k < |ds| ==>
         ds[k].proposed == proposed[k].of && Decided(ds[k], existing, proposed[k].vector, sim)
  }

  method MergeAgainst(existing: seq<Entry>, proposed: seq<Entry>, sim: Sim) returns (r: Option<seq<Decision>>)
    ensures r.None? <==> MergeFails(existing, proposed)
    ensures r.Some? ==> Remapped(r.value, existing, proposed, sim)
  {
    var decided := MergeProposals(existing, proposed, sim);
    if decided.None? {
      return None;
    }
    hide Decided, MergeFails;
    var ds := decided.value;
    for k := 0 to |ds|
      invariant |ds| == |proposed|
      invariant forall j :: 0 <= j < |ds| ==> ds[j].proposed == if j < k then proposed[j].of else j
      invariant forall j :: 0 <= j < |ds| ==> Decided(ds[j], existing, proposed[j].vector, sim)
    {
      DecidedRenamed(ds[k], existing, proposed[k].vector, sim, proposed[ds[k].proposed].of);
      ds := ds[k := ds[k].(proposed := proposed[ds[k].proposed].of)];
    }
    r := Some(ds);
  }

  lemma DecidedRenamed(d: Decision, existing: seq<Entry>, v: Vector, sim: Sim, name: nat)
    requires Decided(d, existing, v, sim)
    ensures Decided(d.(proposed := name), existing, v, sim)
  {
  }

  // ---- the judge's response ----

  /** One belief the judge proposed, as its JSON gave it. */
  datatype Candidate = Candidate(facet: string, key: string, content: string, confidence: Float)

  predicate Sound(c: Candidate, facets: set<string>) {
    c.facet in facets && c.key != "" && c.content != "" && c.confidence.Fin? && 0.0 <= c.confidence.r <= 1.0
  }

  function TopicKey(c: Candidate): string {
    "derived/" + c.facet + "/" + c.key
  }

  function KeysOf(cs: seq<Candidate>): set<string> {
    set k | 0 <= k < |cs| :: TopicKey(cs[k])
  }

  /** The sound candidates, the first of each topic key, in order. */
  function Decoded(candidates: seq<Candidate>, facets: set<string>): seq<Candidate> {
    if candidates == [] then []
    else
      var before, c := Decoded(candidates[..|candidates| - 1], facets), candidates[|candidates| - 1];
      before + if Sound(c, facets) && TopicKey(c) !in KeysOf(before) then [c] else []
  }

  method DecodeDerivedBeliefs(candidates: seq<Candidate>, facets: set<string>) returns (proposals: seq<Candidate>)
    ensures proposals == Decoded(candidates, facets)
  {
    hide TopicKey;
    proposals := [];
    var seen: set<string> := {};
    for n := 0 to |candidates|
      invariant proposals == Decoded(candidates[..n], facets) && seen == KeysOf(proposals)
    {
      var c := candidates[n];
      assert candidates[..n + 1][..n] == candidates[..n];
      if Sound(c, facets) && TopicKey(c) !in seen {
        KeysNext(proposals, c);
        seen, proposals := seen + {TopicKey(c)}, proposals + [c];
      }
    }
    assert candidates[..|candidates|] == candidates;
  }

  lemma KeysNext(cs: seq<Candidate>, c: Candidate)
    ensures KeysOf(cs + [c]) == KeysOf(cs) + {TopicKey(c)}
  {
    hide TopicKey;
    var after := cs + [c];
    forall key
      ensures key in KeysOf(after) <==> key in KeysOf(cs) || key == TopicKey(c)
    {
      if key in KeysOf(cs) {
        var k :| 0 <= k < |cs| && TopicKey(cs[k]) == key;
        assert TopicKey(after[k]) == key;
      }
      assert TopicKey(after[|cs|]) == TopicKey(c);
    }
  }

  /** One response never proposes one belief twice, and proposes a belief for every key it proposed soundly. */
  lemma {:induction false} EachKeyIsProposedOnce(candidates: seq<Candidate>, facets: set<string>)
    ensures var out := Decoded(candidates, facets);
            && (forall i, j :: 0 <= i < j < |out| ==> TopicKey(out[i]) != TopicKey(out[j]))
            && (forall k :: 0 <= k < |out| ==> Sound(out[k], facets) && out[k] in candidates)
            && (forall at :: 0 <= at < |candidates| && Sound(candidates[at], facets) ==>
                 TopicKey(candidates[at]) in KeysOf(out))
  {
    if candidates != [] {
      var n := |candidates| - 1;
      var before, c := Decoded(candidates[..n], facets), candidates[n];
      var out := Decoded(candidates, facets);
      EachKeyIsProposedOnce(candidates[..n], facets);
      KeysNext(before, c);
      assert forall i :: 0 <= i < |before| ==> TopicKey(before[i]) in KeysOf(before);
      assert candidates == candidates[..n] + [c];
      assert out == before || (out == before + [c] && Sound(c, facets) && TopicKey(c) !in KeysOf(before));
      assert Sound(c, facets) ==> TopicKey(c) in KeysOf(out);
      hide TopicKey, Sound, Decoded, KeysOf;
      forall at | 0 <= at < |candidates| && Sound(candidates[at], facets)
        ensures TopicKey(candidates[at]) in KeysOf(out)
      {
        assert at < n ==> candidates[..n][at] == candidates[at];
      }
    }
  }

  /** Of two that share a key, the first stands. */
  lemma {:induction false} TheFirstOfAKeyStands(candidates: seq<Candidate>, facets: set<string>, at: nat)
    requires FirstOfItsKey(candidates, facets, at)
    ensures candidates[at] in Decoded(candidates, facets)
  {
    hide TopicKey, Sound;
    var n := |candidates| - 1;
    if at < n {
      TheFirstOfAKeyStands(candidates[..n], facets, at);
    } else {
      EachKeyIsProposedOnce(candidates[..n], facets);
      assert forall k :: 0 <= k < n ==> candidates[..n][k] == candidates[k];
    }
  }

  /** The candidate is sound, with no sound one of its key before it. */
  ghost predicate FirstOfItsKey(candidates: seq<Candidate>, facets: set<string>, at: nat) {
    && at < |candidates| && Sound(candidates[at], facets)
    && forall k :: 0 <= k < at && Sound(candidates[k], facets) ==> TopicKey(candidates[k]) != TopicKey(candidates[at])
  }

  // ---- the routes ----

  datatype Route = SkipRetired(retired: nat, similar: bool) | Reinforce(active: nat) | Create

  function FirstWithKey(beliefs: seq<Belief>, key: string): (r: Option<nat>)
    ensures r.None? ==> !HasKey(beliefs, key)
    ensures r.Some? ==> r.value < |beliefs| && beliefs[r.value].key == key
  {
    if beliefs == [] then None
    else
      var before := FirstWithKey(beliefs[..|beliefs| - 1], key);
      if before.Some? then before else if beliefs[|beliefs| - 1].key == key then Some(|beliefs| - 1) else None
  }

  predicate HasKey(beliefs: seq<Belief>, key: string) {
    exists k :: 0 <= k < |beliefs| && beliefs[k].key == key
  }

  /** A belief the user stated or edited: its text is never the judge's to rewrite. */
  ghost predicate StatedWithKey(active: seq<Belief>, key: string) {
    exists k: nat :: IsStated(active, k, key)
  }

  predicate IsStated(active: seq<Belief>, k: nat, key: string) {
    k < |active| && active[k].key == key && !active[k].derived
  }

  function LastStated(active: seq<Belief>, key: string): (r: Option<nat>)
    ensures r.None? ==> !StatedWithKey(active, key)
    ensures r.Some? ==> IsStated(active, r.value, key)
  {
    if active == [] then None
    else if active[|active| - 1].key == key && !active[|active| - 1].derived then Some(|active| - 1)
    else
      assert forall k: nat :: k < |active| - 1 ==> (IsStated(active, k, key) <==>
               IsStated(active[..|active| - 1], k, key));
      LastStated(active[..|active| - 1], key)
  }

  /** The decision that names a neighbour for proposal i. */
  function Qualifying(ds: seq<Decision>, i: nat): (r: Option<Decision>)
    ensures r.None? ==> forall k :: 0 <= k < |ds| && ds[k].proposed == i ==> ds[k].into == None
    ensures r.Some? ==> r.value in ds && r.value.proposed == i && r.value.into.Some?
  {
    if ds == [] then None
    else if ds[|ds| - 1].proposed == i && ds[|ds| - 1].into.Some? then Some(ds[|ds| - 1])
    else Qualifying(ds[..|ds| - 1], i)
  }

  function RouteOne(i: nat, key: string, active: seq<Belief>, retired: seq<Belief>, act: seq<Decision>,
                    ret: seq<Decision>): Route {
    RouteBy(FirstWithKey(retired, key), Qualifying(act, i), Qualifying(ret, i), LastStated(active, key))
  }

  /** First match wins; a tie goes to the retired belief. */
  function RouteBy(hit: Option<nat>, a: Option<Decision>, r: Option<Decision>, stated: Option<nat>): Route
    requires (a.Some? ==> a.value.into.Some?) && (r.Some? ==> r.value.into.Some?)
  {
    if hit.Some? then SkipRetired(hit.value, false)
    else if r.Some? && (a.None? || r.value.similarity >= a.value.similarity) then SkipRetired(r.value.into.value, true)
    else if stated.Some? then Reinforce(stated.value)
    else if a.Some? then Reinforce(a.value.into.value)
    else Create
  }

  // ---- what is written ----

  datatype Reason = RetiredKey | RetiredSimilar | Unchecked | ChangedSinceRead

  datatype Outcome = Skipped(reason: Reason) | Reinforced(active: nat) | Created | Nothing

  /** How the store takes the write of one proposal and its row: it lands; it is refused because the user changed the
      belief since it was read; or it, or the row, fails. */
  datatype Answer = Lands | Refused | Breaks

  /** What one proposal comes to: a refused write is a skip, a belief that cannot be reinforced further is left alone. */
  function OutcomeOf(route: Route, blind: bool, answer: Answer, ceiling: nat -> bool): Outcome {
    if blind then Skipped(Unchecked)
    else
      match route
      case SkipRetired(_, similar) => Skipped(if similar then RetiredSimilar else RetiredKey)
      case Reinforce(a) =>
        if ceiling(a) then Nothing else if answer == Refused then Skipped(ChangedSinceRead) else Reinforced(a)
      case Create => if answer == Refused then Skipped(ChangedSinceRead) else Created
  }

  /** A failed write ends the phase; a belief left alone writes nothing that could fail. */
  predicate Stops(route: Route, blind: bool, answer: Answer, ceiling: nat -> bool) {
    answer == Breaks && !(!blind && route.Reinforce? && ceiling(route.active))
  }

  /** Applies every route in order, one outcome a proposal, up to the first whose write or row fails. */
  method PersistRoutes(routes: seq<Route>, retiredCount: nat, unusable: map<nat, Cause>, answers: nat -> Answer,
                       ceiling: nat -> bool)
    returns (ok: bool, outcomes: seq<Outcome>)
    ensures if ok then |outcomes| == |routes| else |outcomes| < |routes|
    ensures forall k :: 0 <= k < |outcomes| ==>
              && !Stops(routes[k], k in unusable && retiredCount > 0, answers(k), ceiling)
              && outcomes[k] == OutcomeOf(routes[k], k in unusable && retiredCount > 0, answers(k), ceiling)
    ensures !ok ==> var k := |outcomes|; Stops(routes[k], k in unusable && retiredCount > 0, answers(k), ceiling)
  {
    outcomes := [];
    for k := 0 to |routes|
      invariant |outcomes| == k
      invariant forall j :: 0 <= j < k ==>
                  && !Stops(routes[j], j in unusable && retiredCount > 0, answers(j), ceiling)
                  && outcomes[j] == OutcomeOf(routes[j], j in unusable && retiredCount > 0, answers(j), ceiling)
    {
      var answer := answers(k);
      if k in unusable && retiredCount > 0 {
        if answer == Breaks {
          return false, outcomes;
        }
        outcomes := outcomes + [Skipped(Unchecked)];
        continue;
      }
      match routes[k] {
        case SkipRetired(_, similar) =>
          if answer == Breaks {
            return false, outcomes;
          }
          outcomes := outcomes + [Skipped(if similar then RetiredSimilar else RetiredKey)];
        case Reinforce(a) =>
          if ceiling(a) {
            outcomes := outcomes + [Nothing];
            continue;
          }
          if answer == Breaks {
            return false, outcomes;
          }
          outcomes := outcomes + [if answer == Refused then Skipped(ChangedSinceRead) else Reinforced(a)];
        case Create =>
          if answer == Breaks {
            return false, outcomes;
          }
          outcomes := outcomes + [if answer == Refused then Skipped(ChangedSinceRead) else Created];
      }
    }
    ok := true;
  }

  // ---- the phase ----

  /** One night's proposals: their topic keys, the beliefs read before the judge was asked, which of the active ones
      cannot be reinforced further, and how the store takes each proposal's write. */
  datatype Night = Night(keys: seq<string>, active: seq<Belief>, retired: seq<Belief>, embed: Subject -> Option<Vector>,
                         sim: Sim, ceiling: nat -> bool, answers: nat -> Answer)

  function Similarity(n: Night, s: Subject, i: nat): real {
    if n.embed(s).Some? && n.embed(Proposed(i)).Some? then n.sim(n.embed(s).value, n.embed(Proposed(i)).value) else 0.0
  }

  /** A retired belief that could be compared is near enough, and no active one is nearer. */
  ghost predicate RetiredIsNearest(n: Night, dim: nat, i: nat) {
    && Comparable(n.embed(Proposed(i)), dim) == None
    && exists r: nat :: NearestRetired(n, dim, i, r)
  }

  ghost predicate NearestRetired(n: Night, dim: nat, i: nat, r: nat) {
    && r < |n.retired| && Comparable(n.embed(Retired(r)), dim) == None
    && Similarity(n, Retired(r), i) >= MERGE_COSINE
    && forall a: nat :: a < |n.active| ==> Similarity(n, Active(a), i) <= Similarity(n, Retired(r), i)
  }

  /** Proposal i might be what the user retired. */
  ghost predicate Shielded(n: Night, dim: nat, i: nat)
    requires i < |n.keys|
  {
    || HasKey(n.retired, n.keys[i])
    || (n.retired != [] && Comparable(n.embed(Proposed(i)), dim).Some?)
    || RetiredIsNearest(n, dim, i)
  }

  predicate IsShield(o: Outcome) {
    o.Skipped? && o.reason != ChangedSinceRead
  }

  /** Belief a is the active one nearest to proposal i, and near enough. */
  ghost predicate NearestActive(n: Night, i: nat, a: nat) {
    && a < |n.active| && Similarity(n, Active(a), i) >= MERGE_COSINE
    && forall b: nat :: b < |n.active| ==> Similarity(n, Active(b), i) <= Similarity(n, Active(a), i)
  }

  /** Proposal i is another word for belief a: the one the user stated under its key, else the nearest. */
  ghost predicate SaysAgain(n: Night, dim: nat, i: nat, a: nat)
    requires i < |n.keys|
  {
    if StatedWithKey(n.active, n.keys[i]) then IsStated(n.active, a, n.keys[i])
    else Comparable(n.embed(Proposed(i)), dim) == None && NearestActive(n, i, a)
  }

  /** Something that cannot be reinforced further says it already. */
  ghost predicate SaidForGood(n: Night, dim: nat, i: nat)
    requires i < |n.keys|
  {
    exists a: nat :: SaysAgain(n, dim, i, a) && n.ceiling(a)
  }

  /** What one proposal comes to. */
  ghost predicate Right(n: Night, dim: nat, i: nat, o: Outcome)
    requires i < |n.keys|
  {
    && (IsShield(o) <==> Shielded(n, dim, i))
    && match o
       case Skipped(reason) => reason == ChangedSinceRead ==> n.answers(i) == Refused
       case Reinforced(a) => SaysAgain(n, dim, i, a) && !n.ceiling(a) && n.answers(i) == Lands
       case Nothing => SaidForGood(n, dim, i)
       case Created => n.answers(i) == Lands && forall a: nat :: !SaysAgain(n, dim, i, a)
  }

  /** The decisions the routes are made from. */
  ghost predicate Compared(n: Night, dim: nat, pending: seq<nat>, vs: Embeddings, act: seq<Decision>,
                           ret: seq<Decision>) {
    && |vs.active| == |n.active|
    && (forall a :: 0 <= a < |n.active| ==> vs.active[a].of == a && n.embed(Active(a)) == Some(vs.active[a].vector))
    && ProposalsSplit(vs, n.embed, pending, dim) && RetiredSplit(vs, n.embed, |n.retired|, dim)
    && Remapped(act, vs.active, vs.proposed, n.sim) && Remapped(ret, vs.retired, vs.proposed, n.sim)
  }

  ghost predicate Pending(n: Night, pending: seq<nat>) {
    Increasing(pending) && forall i: nat :: i in pending <==> i < |n.keys| && !HasKey(n.retired, n.keys[i])
  }

  method PendingOf(n: Night) returns (pending: seq<nat>)
    ensures Pending(n, pending)
  {
    hide HasKey;
    pending := [];
    for i := 0 to |n.keys|
      invariant Increasing(pending) && forall j: nat :: j in pending <==> j < i && !HasKey(n.retired, n.keys[j])
    {
      var hit := FirstWithKey(n.retired, n.keys[i]);
      if hit.None? {
        pending := pending + [i];
        assert forall j :: 0 <= j < |pending| - 1 ==> pending[j] in pending[..|pending| - 1];
      } else {
        assert HasKey(n.retired, n.keys[i]) by { KeyFound(n.retired, n.keys[i], hit.value); }
      }
    }
  }

  lemma KeyFound(beliefs: seq<Belief>, key: string, k: nat)
    requires k < |beliefs| && beliefs[k].key == key
    ensures HasKey(beliefs, key)
  {
  }

  /** a is proposal i's nearest active belief, if one is near enough. */
  ghost predicate SaysActive(n: Night, i: nat, a: Option<Decision>) {
    && (a.None? ==> forall b: nat :: b < |n.active| ==> Similarity(n, Active(b), i) < MERGE_COSINE)
    && (a.Some? ==> a.value.into.Some? && NearestActive(n, i, a.value.into.value))
    && (a.Some? ==> a.value.similarity == Similarity(n, Active(a.value.into.value), i))
  }

  /** r is its nearest comparable retired belief, if one is near enough. */
  ghost predicate SaysRetired(n: Night, dim: nat, i: nat, r: Option<Decision>) {
    && (r.None? ==> forall b: nat :: b < |n.retired| && Comparable(n.embed(Retired(b)), dim) == None ==>
         Similarity(n, Retired(b), i) < MERGE_COSINE)
    && (r.Some? ==>
          && r.value.into.Some? && r.value.into.value < |n.retired| &&
            Comparable(n.embed(Retired(r.value.into.value)), dim) == None
          && r.value.similarity == Similarity(n, Retired(r.value.into.value), i) >= MERGE_COSINE
          && forall b: nat :: b < |n.retired| && Comparable(n.embed(Retired(b)), dim) == None ==>
               Similarity(n, Retired(b), i) <= r.value.similarity)
  }

  /** Entry k of the usable proposals is proposal i, with a vector that can be compared. */
  ghost predicate UsableAt(n: Night, dim: nat, vs: Embeddings, i: nat, k: nat) {
    && k < |vs.proposed| && vs.proposed[k].of == i && Finite(vs.proposed[k].vector)
    && n.embed(Proposed(i)) == Some(vs.proposed[k].vector) && Comparable(n.embed(Proposed(i)), dim) == None
  }

  lemma UsableSomewhere(n: Night, dim: nat, pending: seq<nat>, vs: Embeddings, i: nat) returns (k: nat)
    requires ProposalsSplit(vs, n.embed, pending, dim) && i in pending && i !in vs.unusable
    ensures UsableAt(n, dim, vs, i, k)
  {
    k :| 0 <= k < |vs.proposed| && Ofs(vs.proposed)[k] == i;
  }

  lemma ActiveSaid(n: Night, dim: nat, vs: Embeddings, act: seq<Decision>, i: nat, k: nat)
    requires |vs.active| == |n.active|
    requires forall a :: 0 <= a < |n.active| ==> vs.active[a].of == a && n.embed(Active(a)) == Some(vs.active[a].vector)
    requires Remapped(act, vs.active, vs.proposed, n.sim) && Increasing(Ofs(vs.proposed)) && UsableAt(n, dim, vs, i, k)
    ensures SaysActive(n, i, Qualifying(act, i))
  {
    OnlyDecision(act, vs.active, vs.proposed, n.sim, k);
    assert Decided(act[k], vs.active, vs.proposed[k].vector, n.sim);
    hide Finite, Remapped, Increasing, Qualifying;
    assert forall b: nat :: b < |n.active| ==>
             Similarity(n, Active(b), i) == n.sim(vs.active[b].vector, vs.proposed[k].vector);
  }

  lemma RetiredSaid(n: Night, dim: nat, vs: Embeddings, ret: seq<Decision>, i: nat, k: nat)
    requires RetiredSplit(vs, n.embed, |n.retired|, dim)
    requires Remapped(ret, vs.retired, vs.proposed, n.sim) && Increasing(Ofs(vs.proposed)) && UsableAt(n, dim, vs, i, k)
    ensures SaysRetired(n, dim, i, Qualifying(ret, i))
  {
    OnlyDecision(ret, vs.retired, vs.proposed, n.sim, k);
    assert Decided(ret[k], vs.retired, vs.proposed[k].vector, n.sim);
    var v := vs.proposed[k].vector;
    forall b: nat | b < |n.retired| && Comparable(n.embed(Retired(b)), dim) == None
      ensures exists j :: 0 <= j < |vs.retired| && vs.retired[j].of == b &&
                Similarity(n, Retired(b), i) == n.sim(vs.retired[j].vector, v)
    {
      assert b in Ofs(vs.retired);
      var j :| 0 <= j < |vs.retired| && Ofs(vs.retired)[j] == b;
    }
    forall j | 0 <= j < |vs.retired|
      ensures Similarity(n, Retired(vs.retired[j].of), i) == n.sim(vs.retired[j].vector, v)
    {
    }
    hide Finite, Remapped, Increasing, Qualifying, Comparable, Similarity;
  }

  /** No two decisions are about one proposal. */
  lemma {:induction false} OnlyDecision(ds: seq<Decision>, existing: seq<Entry>, proposed: seq<Entry>, sim: Sim, k: nat)
    requires Remapped(ds, existing, proposed, sim) && Increasing(Ofs(proposed)) && k < |ds|
    ensures forall j :: 0 <= j < |ds| && ds[j].proposed == ds[k].proposed ==> j == k
    ensures Qualifying(ds, ds[k].proposed) == if ds[k].into.Some? then Some(ds[k]) else None
  {
    hide Decided;
    assert forall j :: 0 <= j < |ds| ==> ds[j].proposed == Ofs(proposed)[j];
  }

  /** A proposal the merge did not compare has no decision. */
  lemma {:induction false} NoDecision(ds: seq<Decision>, existing: seq<Entry>, proposed: seq<Entry>, sim: Sim, i: nat)
    requires Remapped(ds, existing, proposed, sim) && i !in Ofs(proposed)
    ensures Qualifying(ds, i) == None
  {
    assert forall j :: 0 <= j < |ds| ==> ds[j].proposed == Ofs(proposed)[j];
  }

  lemma ComparedIsRight(n: Night, dim: nat, i: nat, a: Option<Decision>, r: Option<Decision>, stated: Option<nat>,
                        o: Outcome)
    requires i < |n.keys| && !HasKey(n.retired, n.keys[i])
    requires Comparable(n.embed(Proposed(i)), dim) == None && SaysActive(n, i, a) && SaysRetired(n, dim, i, r)
    requires if stated.Some? then IsStated(n.active, stated.value, n.keys[i]) else !StatedWithKey(n.active, n.keys[i])
    requires n.answers(i) != Breaks || o == Nothing
    requires o == OutcomeOf(RouteBy(None, a, r, stated), false, n.answers(i), n.ceiling)
    ensures Right(n, dim, i, o)
  {
    hide HasKey, Comparable, Similarity, IsStated;
    if r.Some? && (a.None? || r.value.similarity >= a.value.similarity) {
      assert NearestRetired(n, dim, i, r.value.into.value);
    }
  }

  lemma RouteIsRight(n: Night, dim: nat, pending: seq<nat>, vs: Embeddings, act: seq<Decision>, ret: seq<Decision>,
                     i: nat, o: Outcome)
    requires Pending(n, pending) && i < |n.keys|
    requires if pending == [] then vs.unusable == map[] else Compared(n, dim, pending, vs, act, ret)
    requires var (route, blind) := (RouteOne(i, n.keys[i], n.active, n.retired, act, ret),
                                    i in vs.unusable && |n.retired| > 0);
             !Stops(route, blind, n.answers(i), n.ceiling) && o == OutcomeOf(route, blind, n.answers(i), n.ceiling)
    ensures Right(n, dim, i, o)
  {
    var a, r, stated := Qualifying(act, i), Qualifying(ret, i), LastStated(n.active, n.keys[i]);
    if i !in pending {
      assert i !in vs.unusable;
      hide Compared, RetiredIsNearest, StatedWithKey, HasKey;
    } else if i in vs.unusable {
      NoDecision(act, vs.active, vs.proposed, n.sim, i);
      NoDecision(ret, vs.retired, vs.proposed, n.sim, i);
      assert Comparable(n.embed(Proposed(i)), dim).Some?;
      hide Compared, StatedWithKey, HasKey, FirstWithKey, LastStated, Qualifying;
    } else {
      var k := UsableSomewhere(n, dim, pending, vs, i);
      ActiveSaid(n, dim, vs, act, i, k);
      RetiredSaid(n, dim, vs, ret, i, k);
      hide Compared, Right, SaysActive, SaysRetired, Comparable, StatedWithKey, HasKey, FirstWithKey, LastStated,
        Qualifying;
      ComparedIsRight(n, dim, i, a, r, stated, o);
    }
  }

  /** One night. Nothing is written unless every embedding the phase needs succeeded and the active beliefs'
      own vectors can be compared; then each proposal, in order, comes to what is right for it. */
  method Derive(n: Night, cancelled: nat -> bool, journalFails: bool)
    returns (stopped: bool, ok: bool, outcomes: seq<Outcome>, ghost dim: nat, ghost pending: seq<nat>)
    ensures Pending(n, pending)
    ensures stopped ==> outcomes == []
    ensures stopped ==> pending != []
    ensures stopped && !journalFails && !EmbedAborts(n.embed, cancelled, |n.active|, |n.retired|, pending) ==>
              n.active != [] && exists a: nat :: a < |n.active| && ActiveUnusable(n, a)
    ensures pending != [] && EmbedAborts(n.embed, cancelled, |n.active|, |n.retired|, pending) ==> stopped
    ensures !stopped && pending != [] ==> Reference(dim, n.embed, |n.active|, pending)
    ensures !stopped ==> if ok then |outcomes| == |n.keys| else |outcomes| < |n.keys| && n.answers(|outcomes|) == Breaks
    ensures |outcomes| <= |n.keys| && forall i: nat :: i < |outcomes| ==> Right(n, dim, i, outcomes[i])
  {
    hide Right, Reference, EmbedAborts, MergeFails, ProposalsSplit, RetiredSplit, Remapped, OutcomeOf, Pending;
    stopped, ok, outcomes, dim := true, false, [], 0;
    var todo := PendingOf(n);
    pending := todo;
    var vs, act, ret := Embeddings([], [], [], [], map[]), [], [];
    assert Increasing(todo) by { PendingIncreases(n, todo); }
    if |todo| > 0 {
      var embedded: Option<Embeddings>;
      embedded, dim := EmbedForMerge(n.embed, cancelled, |n.active|, |n.retired|, todo);
      if embedded.None? || (|embedded.value.dropped| > 0 && journalFails) {
        return;
      }
      vs := embedded.value;
      if |vs.proposed| > 0 {
        OnlyAnActiveBeliefCanStopTheMerge(vs, n.embed, |n.active|, |n.retired|, todo, dim);
        var merged := MergeAgainst(vs.active, vs.proposed, n.sim);
        if merged.None? {
          ActiveToBlame(n, vs);
          return;
        }
        act := merged.value;
        merged := MergeAgainst(vs.retired, vs.proposed, n.sim);
        if merged.None? {
          return;
        }
        ret := merged.value;
      }
    }
    NothingToCompare(vs.active, n.sim);
    NothingToCompare(vs.retired, n.sim);
    stopped := false;
    var routes := seq(|n.keys|, i requires 0 <= i < |n.keys| => RouteOne(i, n.keys[i], n.active, n.retired, act, ret));
    ok, outcomes := PersistRoutes(routes, |n.retired|, vs.unusable, n.answers, n.ceiling);
    forall i: nat | i < |outcomes|
      ensures Right(n, dim, i, outcomes[i])
    {
      RouteIsRight(n, dim, todo, vs, act, ret, i, outcomes[i]);
    }
  }

  lemma PendingIncreases(n: Night, pending: seq<nat>)
    requires Pending(n, pending)
    ensures Increasing(pending)
  {
  }

  lemma ActiveToBlame(n: Night, vs: Embeddings)
    requires |vs.active| == |n.active|
    requires forall a :: 0 <= a < |n.active| ==> n.embed(Active(a)) == Some(vs.active[a].vector)
    requires exists a :: 0 <= a < |n.active| && Unusable(vs.active[a].vector, |vs.active[0].vector|).Some?
    ensures n.active != [] && exists a: nat :: a < |n.active| && ActiveUnusable(n, a)
  {
    hide Unusable;
    var a: nat :| a < |n.active| && Unusable(vs.active[a].vector, |vs.active[0].vector|).Some?;
    assert ActiveUnusable(n, a);
  }

  lemma NothingToCompare(existing: seq<Entry>, sim: Sim)
    ensures Remapped([], existing, [], sim)
  {
  }

  ghost predicate ActiveUnusable(n: Night, a: nat) {
    n.embed(Active(0)).Some? && n.embed(Active(a)).Some? &&
      Unusable(n.embed(Active(a)).value, |n.embed(Active(0)).value|).Some?
  }
}
