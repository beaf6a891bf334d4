/**
 The runner's memory of the messages it handled (internal/channels/dedup.go).

 The class is the ring and its index map, updated in place. `Memory` is what
 they stand for: the last ids newly marked, oldest first. `stuck` records the one
 way the two come apart: the ring uses "" for a free slot, so an empty id that
 is marked and then overwritten is never deleted from the index.
 */
module DedupRing {

  datatype Memory = Memory(window: seq<string>, stuck: bool) {
    predicate Remembers(id: string) {
      id in window || (stuck && id == "")
    }

    function Mark(capacity: nat, id: string): Memory {
      if capacity == 0 || Remembers(id) then this
      else if |window| < capacity then Memory(window + [id], stuck)
      else if window == [] then this
      else Memory(window[1..] + [id], stuck || window[0] == "")
    }
  }

  const FRESH := Memory([], false)

  predicate Distinct<T(==)>(s: seq<T>) {
    forall i, j :: 0 <= i < j < |s| ==> s[i] != s[j]
  }

  function Elements<T>(s: seq<T>): set<T> {
    set x | x in s
  }

  function Last<T>(s: seq<T>, n: nat): seq<T> {
    if |s| <= n then s else s[|s| - n..]
  }

  /** The slots hold the window: a prefix while some are free, the whole ring from `next` once none is. */
  ghost predicate Layout(slots: seq<string>, next: nat, window: seq<string>) {
    && (if slots == [] then next == 0 else next < |slots|)
    && |window| <= |slots|
    && (|window| < |slots| ==> next == |window| && slots[..next] == window && forall k :: next <= k < |slots| ==>
         slots[k] == "")
    && (|window| == |slots| ==> window == slots[next..] + slots[..next])
  }

  /** The index is a second view of the same memory, never a second store. */
  ghost predicate Indexed(index: map<string, bool>, memory: Memory) {
    && Distinct(memory.window)
    && (memory.stuck ==> "" !in memory.window)
    && (forall id :: id in index <==> memory.Remembers(id))
    && (forall id :: id in index ==> index[id])
  }

  lemma LayoutStep(slots: seq<string>, next: nat, window: seq<string>, id: string)
    requires slots != [] && Layout(slots, next, window)
    ensures Layout(slots[next := id], (next + 1) % |slots|,
                   if |window| < |slots| then window + [id] else window[1..] + [id])
    ensures |window| == |slots| ==> window[0] == slots[next]
    ensures |window| < |slots| ==> slots[next] == ""
  {
    var after, n := slots[next := id], (next + 1) % |slots|;
    if |window| < |slots| {
      assert after[..next + 1] == window + [id];
      if next + 1 == |slots| {
        assert n == 0;
        assert after[0..] + after[..0] == window + [id];
      } else {
        assert n == next + 1;
      }
    } else if next + 1 == |slots| {
      assert n == 0;
      assert after[0..] + after[..0] == slots[..next] + [id] == window[1..] + [id];
    } else {
      assert n == next + 1;
      assert window == [slots[next]] + slots[next + 1..] + slots[..next];
      assert window[1..] == slots[next + 1..] + slots[..next];
      assert after[n..] + after[..n] == slots[next + 1..] + (slots[..next] + [id]);
    }
  }

  lemma IndexStep(index: map<string, bool>, memory: Memory, capacity: nat, id: string)
    requires capacity > 0 && Indexed(index, memory) && !memory.Remembers(id)
    requires |memory.window| <= capacity
    ensures var full := |memory.window| == capacity;
            var kept := if full && memory.window[0] != "" then map k | k in index && k != memory.window[0] :: index[k]
                        else index;
            Indexed(kept[id := true], memory.Mark(capacity, id))
  {
  }

  class Ring {
    const ids: array<string>
    var index: map<string, bool>
    var next: nat
    ghost var memory: Memory

    ghost predicate Valid()
      reads this, ids
    {
      Layout(ids[..], next, memory.window) && Indexed(index, memory)
    }

    constructor (capacity: int)
      ensures Valid() && fresh(ids) && memory == FRESH
      ensures ids.Length == if capacity < 0 then 0 else capacity
    {
      var slots := if capacity < 0 then 0 else capacity;
      ids := new string[slots](_ => "");
      index := map[];
      next := 0;
      memory := FRESH;
    }

    predicate Seen(id: string)
      requires Valid()
      reads this, ids
      ensures Seen(id) == memory.Remembers(id)
    {
      id in index && index[id]
    }

    method Mark(id: string)
      requires Valid()
      modifies this, ids
      ensures Valid()
      ensures memory == old(memory).Mark(ids.Length, id)
    {
      if ids.Length == 0 || (id in index && index[id]) {
        return;
      }
      LayoutStep(ids[..], next, memory.window, id);
      IndexStep(index, memory, ids.Length, id);
      var previous := ids[next];
      if previous != "" {
        index := map k | k in index && k != previous :: index[k];
      }
      ids[next] := id;
      index := index[id := true];
      next := (next + 1) % ids.Length;
      memory := memory.Mark(ids.Length, id);
    }

    /** The index never outgrows the slots, but by the one empty id it cannot forget. */
    lemma TheIndexIsBounded()
      requires Valid()
      ensures |index| == |memory.window| + if memory.stuck then 1 else 0
      ensures |memory.window| <= ids.Length
    {
      DistinctCount(memory.window);
      assert |index| == |index.Keys|;
      assert index.Keys == Elements(memory.window) + if memory.stuck then {""} else {};
    }
  }

  lemma {:induction false} DistinctCount<T>(s: seq<T>)
    requires Distinct(s)
    ensures |Elements(s)| == |s|
  {
    if s == [] {
      assert Elements(s) == {};
    } else {
      var rest := s[..|s| - 1];
      DistinctCount(rest);
      assert s == rest + [s[|s| - 1]];
      assert Elements(s) == Elements(rest) + {s[|s| - 1]};
    }
  }

  /** The memory after marking every id of `marks`, in order, from a fresh ring. */
  function MarkAll(capacity: nat, marks: seq<string>): Memory {
    if marks == [] then FRESH
    else MarkAll(capacity, marks[..|marks| - 1]).Mark(capacity, marks[|marks| - 1])
  }

  /** The marks that were new when they were made: not remembered at the time. */
  function NewMarks(capacity: nat, marks: seq<string>): seq<string> {
    if marks == [] then []
    else
      var before, id := marks[..|marks| - 1], marks[|marks| - 1];
      NewMarks(capacity, before) + if MarkAll(capacity, before).Remembers(id) then [] else [id]
  }

  /** `memory` is the last `capacity` of `news`, stuck if and only if an empty id was pushed out. */
  ghost predicate HoldsLast(capacity: nat, news: seq<string>, memory: Memory) {
    var kept := Last(news, capacity);
    && memory.window == kept && Distinct(kept)
    && (memory.stuck <==> "" in news[..|news| - |kept|])
    && (memory.stuck ==> "" !in kept)
  }

  lemma NewMarkStep(capacity: nat, news: seq<string>, memory: Memory, id: string)
    requires capacity > 0 && HoldsLast(capacity, news, memory) && !memory.Remembers(id)
    ensures HoldsLast(capacity, news + [id], memory.Mark(capacity, id))
  {
    var after := news + [id];
    if |news| < capacity {
      assert after[..0] == [];
      assert news[..0] == [];
    } else {
      var d := |news| - capacity;
      assert after[..d + 1] == news[..d] + [news[d]];
      assert after[d + 1..] == memory.window[1..] + [id];
    }
  }

  /** Over every history of marks, the ring holds the last `capacity` new ones, oldest
      evicted first, and it is stuck exactly when an empty id was among the evicted. */
  lemma {:induction false} RingHoldsTheLastNewMarks(capacity: nat, marks: seq<string>)
    requires capacity > 0
    ensures HoldsLast(capacity, NewMarks(capacity, marks), MarkAll(capacity, marks))
  {
    if marks == [] {
    } else {
      var before, id := marks[..|marks| - 1], marks[|marks| - 1];
      RingHoldsTheLastNewMarks(capacity, before);
      var memory := MarkAll(capacity, before);
      if !memory.Remembers(id) {
        NewMarkStep(capacity, NewMarks(capacity, before), memory, id);
      } else {
        assert NewMarks(capacity, marks) == NewMarks(capacity, before);
      }
    }
  }

  /** Exactly when the ring is the bounded memory it is meant to be: it remembers the last
      `capacity` new marks and nothing else, if and only if no empty id was pushed out of it. */
  lemma ExactUnlessAnEmptyIdWasEvicted(capacity: nat, marks: seq<string>)
    requires capacity > 0
    ensures var news := NewMarks(capacity, marks);
            (forall id :: MarkAll(capacity, marks).Remembers(id) <==> id in Last(news, capacity))
            <==> "" !in news[..|news| - |Last(news, capacity)|]
  {
    RingHoldsTheLastNewMarks(capacity, marks);
    if MarkAll(capacity, marks).stuck {
      assert MarkAll(capacity, marks).Remembers("");
    }
  }

  /** A ring of one slot that was given an empty id still remembers it after it was overwritten. */
  lemma AnEmptyIdIsNeverForgotten()
    ensures var memory := MarkAll(1, ["", "7", "8"]);
            memory.window == ["8"] && memory.Remembers("")
  {
    var a := ["", "7", "8"];
    assert a[..2] == ["", "7"] && a[..2][..1] == [""] && a[..2][..1][..0] == [];
    assert MarkAll(1, [""]).window == [""] by { assert [""][..0] == []; }
    assert MarkAll(1, ["", "7"]) == Memory(["7"], true) by { assert ["", "7"][..1] == [""]; }
  }
}
