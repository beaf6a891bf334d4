/**
 The polling loop of one channel (internal/channels/runner.go) over a cursor
 transport: receive, skip what was handled, handle the rest, mark, confirm,
 back off. Polls, handler calls and confirms fail nondeterministically, and a
 confirm that reports failure may still have reached the transport.
 */
module ChannelRunner {
  import opened DedupRing

  const DEDUP_WINDOW := 256
  const BACKOFF_BASE: nat := 1
  const BACKOFF_MAX: nat := 300

  datatype Message = Message(id: string, text: string)

  datatype Poll =
    | Batch(msgs: seq<Message>)
    | PollFailed
    | Unauthorized

  function Ids(msgs: seq<Message>): (ids: seq<string>)
    ensures |ids| == |msgs|
  {
    seq(|msgs|, i requires 0 <= i < |msgs| => msgs[i].id)
  }

  /** The channel: every admitted message in arrival order, and a cursor.
      Confirming an id acknowledges everything up to it; what is past the cursor is returned again. */
  class Transport {
    var log: seq<Message>
    var acked: nat
    /** Every poll, with the cursor it was made at, and how many confirms reported failure. */
    ghost var polls: seq<(nat, Poll)>
    ghost var unconfirmed: nat

    ghost predicate Valid()
      reads this
    {
      acked <= |log| && Distinct(Ids(log))
    }

    constructor ()
      ensures Valid() && acked == 0
    {
      log, acked, polls, unconfirmed := [], 0, [], 0;
    }

    method Receive() returns (poll: Poll)
      requires Valid()
      modifies this`log, this`polls
      ensures Valid() && old(log) <= log && polls == old(polls) + [(acked, poll)]
      ensures poll.Batch? ==> poll.msgs <= log[acked..]
    {
      assert log + [] == log;
      var arrived: seq<Message> :| Distinct(Ids(log + arrived));
      assert old(log) <= log + arrived;
      log := log + arrived;
      if * {
        poll := PollFailed;
      } else if * {
        poll := Unauthorized;
      } else {
        var n: nat :| acked + n <= |log|;
        poll := Batch(log[acked..acked + n]);
      }
      polls := polls + [(acked, poll)];
    }

    /** The cursor after confirming the message at index k; it never moves back. */
    function Through(k: nat): nat
      reads this
    {
      if k < acked then acked else k + 1
    }

    method Confirm(id: string) returns (ok: bool)
      requires Valid()
      modifies this`acked, this`unconfirmed
      ensures Valid() && unconfirmed == old(unconfirmed) + if ok then 0 else 1
      ensures acked == old(acked) || exists k :: 0 <= k < |log| && log[k].id == id && acked == old(Through(k))
      ensures ok ==> exists k :: 0 <= k < |log| && log[k].id == id && acked == old(Through(k))
    {
      if k: nat :| k < |log| && log[k].id == id {
        ok := *;
        var landed: bool := *;
        if ok || landed {
          acked := Through(k);
        }
      } else {
        ok := false;
      }
      unconfirmed := unconfirmed + if ok then 0 else 1;
    }
  }

  /** What handles a message durably; `handled` is every success, in order, across restarts. */
  class Handler {
    ghost var handled: seq<string>
    ghost var failures: nat

    constructor ()
      ensures handled == []
    {
      handled, failures := [], 0;
    }

    method Handle(msg: Message) returns (ok: bool)
      modifies this
      ensures handled == old(handled) + if ok then [msg.id] else []
      ensures failures == old(failures) + if ok then 0 else 1
    {
      ok := *;
      if ok {
        handled := handled + [msg.id];
      } else {
        failures := failures + 1;
      }
    }
  }

  /** An id occurs twice in h only with more than `gap` positions between the start of one and the other. */
  ghost predicate NoEarlyRepeat(h: seq<string>, gap: nat) {
    forall i, j :: 0 <= i < j < |h| && h[i] == h[j] ==> j - i > gap
  }

  /** The ring is the last window of what this process handled, and that process repeats no recent work. */
  ghost predicate Tracks(handled: seq<string>, since: nat, memory: Memory) {
    && since <= |handled|
    && HoldsLast(DEDUP_WINDOW, handled[since..], memory)
    && NoEarlyRepeat(handled[since..], DEDUP_WINDOW)
  }

  /** Everything before position n of the log was handled. */
  ghost predicate Handled(log: seq<Message>, n: nat, handled: seq<string>) {
    n <= |log| && forall k :: 0 <= k < n ==> log[k].id in handled
  }

  /** Of the first n ids, each is already remembered or before position `reach`. */
  ghost predicate CaughtUp(had: Memory, ids: seq<string>, n: nat, reach: int) {
    n <= |ids| && forall j :: 0 <= j < n ==> had.Remembers(ids[j]) || j < reach
  }

  /** Each of the messages is one the ring remembers. */
  predicate AllKnown(had: Memory, msgs: seq<Message>) {
    forall k :: 0 <= k < |msgs| ==> had.Remembers(msgs[k].id)
  }

  lemma KnownNext(had: Memory, msgs: seq<Message>, i: nat)
    requires i < |msgs|
    ensures AllKnown(had, msgs[..i + 1]) <==> AllKnown(had, msgs[..i]) && had.Remembers(msgs[i].id)
    ensures AllKnown(had, msgs) ==> AllKnown(had, msgs[..i + 1])
  {
  }

  class Runner {
    const transport: Transport
    const handler: Handler
    const seen: Ring
    /** How much of the handler's history is older than this process. */
    ghost const since: nat

    ghost predicate Valid()
      reads this, transport, handler, seen, seen.ids
    {
      && transport.Valid()
      && seen.Valid()
      && seen.ids.Length == DEDUP_WINDOW
      && Tracks(handler.handled, since, seen.memory)
    }

    /** No message was acknowledged before a handler call on it succeeded. */
    ghost predicate NothingLost()
      reads this, transport, handler
    {
      Handled(transport.log, transport.acked, handler.handled)
    }

    /** Everything past the cursor was handled by this process and is remembered: a confirm failed after the work was
        done, and nothing has arrived since. */
    ghost predicate Stuck()
      reads transport, seen
    {
      forall k :: transport.acked <= k < |transport.log| ==> seen.memory.Remembers(transport.log[k].id)
    }

    /** Nothing moved. */
    twostate predicate StoodStill()
      reads transport, handler, seen
    {
      && transport.acked == old(transport.acked) && handler.handled == old(handler.handled)
      && seen.memory == old(seen.memory)
    }

    /** No handler call failed, and no confirm. */
    twostate predicate NothingFailed()
      reads transport, handler
    {
      handler.failures == old(handler.failures) && transport.unconfirmed == old(transport.unconfirmed)
    }

    /** A process starts: its ring is empty, the transport and the work already done are not. */
    constructor (transport: Transport, handler: Handler)
      requires transport.Valid()
      ensures Valid()
      ensures this.transport == transport && this.handler == handler && since == |handler.handled|
      ensures fresh(seen) && fresh(seen.ids)
    {
      this.transport, this.handler := transport, handler;
      seen := new Ring(DEDUP_WINDOW);
      since := |handler.handled|;
      new;
      assert handler.handled[since..] == [];
    }

    /** Handle, then mark, then confirm one message the ring does not remember: the one at `at` in the log. */
    method HandleOne(msg: Message, ghost at: nat) returns (handled: bool, confirmed: bool)
      requires Valid() && NothingLost()
      requires transport.acked <= at < |transport.log| && transport.log[at] == msg
      requires Handled(transport.log, at, handler.handled)
      requires !seen.memory.Remembers(msg.id)
      modifies transport`acked, transport`unconfirmed, handler, seen, seen.ids
      ensures Valid() && NothingLost()
      ensures handler.handled == old(handler.handled) + if handled then [msg.id] else []
      ensures handled ==> Handled(transport.log, at + 1, handler.handled)
      ensures seen.memory == if handled then old(seen.memory).Mark(DEDUP_WINDOW, msg.id) else old(seen.memory)
      ensures forall id :: seen.memory.Remembers(id) ==> old(seen.memory).Remembers(id) || id == msg.id
      ensures transport.acked == old(transport.acked) || (handled && transport.acked == at + 1)
      ensures confirmed ==> handled && transport.acked == at + 1
      ensures confirmed <==> NothingFailed()
    {
      hide Layout, Indexed, Tracks, Handled, Distinct;
      confirmed := false;
      handled := handler.Handle(msg);
      if !handled {
        assert handler.handled == old(handler.handled);
        return;
      }
      TracksStep(old(handler.handled), since, seen.memory, msg.id);
      HandledNext(transport.log, at, old(handler.handled), msg.id);
      seen.Mark(msg.id);
      OnlyAt(transport.log, at);
      confirmed := transport.Confirm(msg.id);
    }

    method HandleBatch(msgs: seq<Message>) returns (progressed: bool, ghost done: seq<string>)
      requires Valid() && NothingLost()
      requires msgs <= transport.log[transport.acked..]
      modifies transport`acked, transport`unconfirmed, handler, seen, seen.ids
      ensures Valid() && NothingLost()
      ensures old(transport.acked) <= transport.acked
      // the batch made progress exactly when it was empty or a confirm it saw land moved the cursor
      ensures msgs == [] ==> progressed && transport.acked == old(transport.acked)
      ensures msgs != [] && progressed ==> transport.acked > old(transport.acked)
      // only messages of the batch are handled
      ensures handler.handled == old(handler.handled) + done && forall id :: id in done ==> id in Ids(msgs)
      // a batch nothing failed in leaves no message unhandled, and the cursor passes all it did not know
      ensures NothingFailed() ==> Handled(transport.log, old(transport.acked) + |msgs|, handler.handled)
      ensures NothingFailed() ==> CaughtUp(old(seen.memory), Ids(msgs), |msgs|,
                                           if progressed then transport.acked - old(transport.acked) else 0)
      // a batch of redeliveries moves nothing: none of them is confirmed again
      ensures AllKnown(old(seen.memory), msgs) ==> StoodStill() && (progressed <==> msgs == [])
      ensures NothingFailed() ==> (progressed <==> msgs == [] || !AllKnown(old(seen.memory), msgs))
    {
      hide Layout, Indexed, Tracks, Handled, Distinct, CaughtUp, AllKnown, Ids, Memory.Remembers, Memory.Mark;
      done := [];
      NothingYet(transport.log, transport.acked, msgs, seen.memory);
      if |msgs| == 0 {
        return true, [];
      }
      ghost var start, ids, had := transport.acked, Ids(msgs), seen.memory;
      progressed := false;
      for i := 0 to |msgs|
        invariant Valid() && NothingLost() && NothingFailed()
        invariant if AllKnown(had, msgs[..i]) then StoodStill() && !progressed else progressed
        invariant start <= transport.acked <= start + i
        invariant progressed ==> transport.acked > start
        invariant Handled(transport.log, start + i, handler.handled)
        invariant handler.handled == old(handler.handled) + done && forall id :: id in done ==> id in ids
        invariant forall id :: seen.memory.Remembers(id) ==> had.Remembers(id) || id in ids[..i]
        invariant CaughtUp(had, ids, i, if progressed then transport.acked - start else 0)
      {
        var msg := msgs[i];
        assert ids[..i + 1] == ids[..i] + [msg.id];
        NotBefore(ids, i);
        KnownNext(had, msgs, i);
        CaughtUpNext(had, ids, i, if progressed then transport.acked - start else 0);
        if seen.Seen(msg.id) {
          assert had.Remembers(msg.id);
          RememberedWasHandled(handler.handled, since, seen.memory, msg.id);
          HandledNext(transport.log, start + i, handler.handled, msg.id);
          continue;
        }
        var handled, confirmed := HandleOne(msg, start + i);
        done := done + if handled then [msg.id] else [];
        if !handled || !confirmed {
          return progressed, done;
        }
        progressed := true;
      }
      assert msgs[..|msgs|] == msgs;
    }

    /** Polls until the context is done, after `polls` polls, or until the channel refuses the credential.
        `moved` says of each completed poll whether it made progress. */
    method Run(polls: nat) returns (refused: bool, sleeps: seq<nat>, ghost moved: seq<bool>)
      requires Valid() && NothingLost()
      modifies transport, handler, seen, seen.ids
      ensures Valid() && NothingLost()
      ensures old(transport.acked) <= transport.acked
      ensures sleeps == Sleeps(moved)
      ensures if refused then |moved| < polls else |moved| == polls
      // one wait, or none, for what each poll brought; it stops early only on a refused credential
      ensures Polled(old(transport.polls), transport.polls, transport.acked, moved, refused)
      // once stuck, the cursor stays where it is until something new arrives, however often it polls
      ensures old(transport.log) <= transport.log
      ensures old(Stuck()) && transport.log == old(transport.log) ==> StoodStill()
    {
      hide Layout, Indexed, Tracks, Handled, Polled, Sleeps, Streak, Distinct, CaughtUp, Ring.Valid;
      NothingPolled(transport.polls, transport.acked);
      refused, sleeps, moved := false, [], [];
      var failures := 0;
      for n := 0 to polls
        invariant Valid() && NothingLost()
        invariant old(transport.acked) <= transport.acked && old(transport.log) <= transport.log
        invariant old(Stuck()) && transport.log == old(transport.log) ==> StoodStill()
        invariant Polled(old(transport.polls), transport.polls, transport.acked, moved, false)
        invariant |moved| == n && failures == Streak(moved) && sleeps == Sleeps(moved)
      {
        var progressed := false;
        ghost var polls0, acked0, log0 := transport.polls, transport.acked, transport.log;
        var poll := transport.Receive();
        HandledStays(log0, transport.log, acked0, handler.handled);
        match poll {
          case Unauthorized =>
            OnePollMore(old(transport.polls), polls0, acked0, acked0, moved, poll, false);
            return true, sleeps, moved;
          case PollFailed =>
          case Batch(msgs) =>
            var moving, _ := HandleBatch(msgs);
            progressed := moving;
        }
        OnePollMore(old(transport.polls), polls0, acked0, transport.acked, moved, poll, progressed);
        SleepNext(moved, progressed);
        moved := moved + [progressed];
        if progressed {
          failures := 0;
        } else {
          failures := failures + 1;
          var wait := BackoffForFailures(failures);
          sleeps := sleeps + [wait];
        }
      }
    }
  }

  /** What each poll brought: a failed one no progress, an empty batch progress, and a batch reported to have made
      progress moved the cursor before the next poll. */
  ghost predicate Polled(before: seq<(nat, Poll)>, after: seq<(nat, Poll)>, acked: nat, moved: seq<bool>, refused: bool) {
    && before <= after && |after| == |before| + |moved| + (if refused then 1 else 0)
    && (refused ==> after[|after| - 1].1.Unauthorized?)
    && forall k :: 0 <= k < |moved| ==>
         var (cursor, poll) := after[|before| + k];
         var next := if |before| + k + 1 < |after| then after[|before| + k + 1].0 else acked;
         Brought(poll, cursor, next, moved[k])
  }

  predicate Brought(poll: Poll, cursor: nat, next: nat, moved: bool) {
    match poll
    case PollFailed => !moved && next == cursor
    case Batch(msgs) => if msgs == [] then moved && next == cursor else cursor <= next && (moved ==> cursor < next)
    case Unauthorized => false
  }

  lemma NothingPolled(polls: seq<(nat, Poll)>, acked: nat)
    ensures Polled(polls, polls, acked, [], false) && Streak([]) == 0 && Sleeps([]) == []
  {
  }

  lemma SleepNext(moved: seq<bool>, progressed: bool)
    ensures Streak(moved + [progressed]) == if progressed then 0 else Streak(moved) + 1
    ensures Sleeps(moved + [progressed]) == Sleeps(moved) + if progressed then [] else [Backoff(Streak(moved) + 1)]
    ensures Sleeps(moved) + [] == Sleeps(moved)
  {
  }

  lemma OnePollMore(first: seq<(nat, Poll)>, before: seq<(nat, Poll)>, cursor: nat, acked: nat, moved: seq<bool>,
                    poll: Poll, progressed: bool)
    requires Polled(first, before, cursor, moved, false)
    ensures poll.Unauthorized? ==> Polled(first, before + [(cursor, poll)], acked, moved, true)
    ensures Brought(poll, cursor, acked, progressed) ==>
              Polled(first, before + [(cursor, poll)], acked, moved + [progressed], false)
  {
  }

  /** One process after another over the same channel, each stopped after the polls `lives` gives it:
      no restart, whenever it comes, loses a message. */
  method RunAcrossRestarts(lives: seq<nat>) returns (transport: Transport, handler: Handler)
    ensures transport.Valid() && Handled(transport.log, transport.acked, handler.handled)
  {
    transport := new Transport();
    handler := new Handler();
    for n := 0 to |lives|
      invariant fresh(transport) && fresh(handler)
      invariant transport.Valid() && Handled(transport.log, transport.acked, handler.handled)
    {
      var runner := new Runner(transport, handler);
      var _, _, _ := runner.Run(lives[n]);
    }
  }

  /** How many polls in a row, up to now, made no progress: a failed poll and a batch that confirmed nothing alike. */
  function Streak(moved: seq<bool>): nat {
    if moved == [] || moved[|moved| - 1] then 0 else 1 + Streak(moved[..|moved| - 1])
  }

  /** The waits of a run: one after each poll without progress, growing with the streak. */
  function Sleeps(moved: seq<bool>): seq<nat> {
    if moved == [] then []
    else Sleeps(moved[..|moved| - 1]) + if moved[|moved| - 1] then [] else [Backoff(Streak(moved))]
  }

  function Pow2(n: nat): nat {
    if n == 0 then 1 else 2 * Pow2(n - 1)
  }

  /** Doubling from the base, capped. */
  function Backoff(n: int): nat {
    if n <= 1 then BACKOFF_BASE
    else if BACKOFF_BASE * Pow2(n - 1) < BACKOFF_MAX then BACKOFF_BASE * Pow2(n - 1) else BACKOFF_MAX
  }

  method BackoffForFailures(n: int) returns (wait: nat)
    ensures wait == Backoff(n)
  {
    wait := BACKOFF_BASE;
    var i := 1;
    while i < n
      invariant 1 <= i && (i <= n || n <= 1) && (n <= 1 ==> i == 1)
      invariant wait == BACKOFF_BASE * Pow2(i - 1) && wait <= BACKOFF_MAX
    {
      if wait >= BACKOFF_MAX / 2 {
        Pow2Grows(i, n - 1);
        return BACKOFF_MAX;
      }
      wait := wait * 2;
      i := i + 1;
    }
    if wait > BACKOFF_MAX {
      wait := BACKOFF_MAX;
    }
  }

  lemma {:induction false} Pow2Grows(a: nat, b: nat)
    requires a <= b
    ensures Pow2(a) <= Pow2(b)
  {
    if a < b {
      Pow2Grows(a, b - 1);
    }
  }

  /** A dead channel is polled ever more slowly, but never less often than the ceiling:
      no progress from some point on makes the waits grow without a break up to the cap. */
  lemma {:induction false} WaitsNeverShrinkWhileNothingMoves(moved: seq<bool>)
    requires forall k :: 0 <= k < |moved| ==> !moved[k]
    ensures Streak(moved) == |moved| == |Sleeps(moved)|
    ensures forall k :: 0 <= k < |moved| ==> Sleeps(moved)[k] == Backoff(k + 1)
    ensures forall k :: 0 < k < |moved| ==> Sleeps(moved)[k - 1] <= Sleeps(moved)[k] <= BACKOFF_MAX
  {
    if moved != [] {
      WaitsNeverShrinkWhileNothingMoves(moved[..|moved| - 1]);
      if |moved| > 1 {
        Pow2Grows(|moved| - 2, |moved| - 1);
      }
    }
  }

  lemma NothingYet(log: seq<Message>, acked: nat, msgs: seq<Message>, had: Memory)
    requires acked <= |log| && Distinct(Ids(log)) && msgs <= log[acked..]
    ensures Distinct(Ids(msgs)) && CaughtUp(had, Ids(msgs), 0, 0)
    ensures AllKnown(had, msgs[..0]) && (msgs == [] ==> AllKnown(had, msgs))
    ensures forall k :: 0 <= k < |msgs| ==> msgs[k] == log[acked + k] && Ids(msgs)[k] == msgs[k].id
  {
    assert forall k :: 0 <= k < |msgs| ==> msgs[k] == log[acked + k] && Ids(msgs)[k] == Ids(log)[acked + k];
  }

  lemma NotBefore(ids: seq<string>, i: nat)
    requires i < |ids| && Distinct(ids)
    ensures ids[i] !in ids[..i]
  {
  }

  /** One more id that was remembered, or that the cursor has passed. */
  lemma CaughtUpNext(had: Memory, ids: seq<string>, i: nat, reach: int)
    requires i < |ids| && CaughtUp(had, ids, i, reach)
    ensures had.Remembers(ids[i]) ==> CaughtUp(had, ids, i + 1, reach)
    ensures CaughtUp(had, ids, i + 1, i + 1)
  {
  }

  lemma TracksStep(handled: seq<string>, since: nat, memory: Memory, id: string)
    requires Tracks(handled, since, memory) && !memory.Remembers(id)
    ensures Tracks(handled + [id], since, memory.Mark(DEDUP_WINDOW, id))
    ensures forall x :: memory.Mark(DEDUP_WINDOW, id).Remembers(x) ==> memory.Remembers(x) || x == id
  {
    hide HoldsLast, NoEarlyRepeat;
    var news := handled[since..];
    assert (handled + [id])[since..] == news + [id];
    NewMarkStep(DEDUP_WINDOW, news, memory, id);
    NoEarlyRepeatStep(news, memory, id);
  }

  lemma NoEarlyRepeatStep(news: seq<string>, memory: Memory, id: string)
    requires HoldsLast(DEDUP_WINDOW, news, memory) && !memory.Remembers(id)
    requires NoEarlyRepeat(news, DEDUP_WINDOW)
    ensures NoEarlyRepeat(news + [id], DEDUP_WINDOW)
  {
  }

  lemma RememberedWasHandled(handled: seq<string>, since: nat, memory: Memory, id: string)
    requires Tracks(handled, since, memory) && memory.Remembers(id)
    ensures id in handled
  {
  }

  lemma HandledNext(log: seq<Message>, n: nat, handled: seq<string>, id: string)
    requires n < |log| && Handled(log, n, handled) && log[n].id == id
    ensures forall m: nat :: m <= n + 1 ==> Handled(log, m, handled + [id])
    ensures id in handled ==> Handled(log, n + 1, handled)
  {
  }

  lemma HandledStays(log: seq<Message>, more: seq<Message>, n: nat, handled: seq<string>)
    requires Handled(log, n, handled) && log <= more
    ensures Handled(more, n, handled)
  {
  }

  lemma OnlyAt(log: seq<Message>, at: nat)
    requires at < |log| && Distinct(Ids(log))
    ensures forall k :: 0 <= k < |log| && log[k].id == log[at].id ==> k == at
  {
    assert forall k :: 0 <= k < |log| ==> Ids(log)[k] == log[k].id;
  }
}
