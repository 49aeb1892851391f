/**
 The client's batcher (pkg/sdk/batch/batch.go): the buffer its lock protects, as a heap
 object, and the protocol of its threads, as a state machine.  A step is what one thread does
 between two points where others may interfere: a critical section, a compare-and-swap, a
 store.
 */
module Batching {
  import opened Metrics

  /* ---- the buffer ---- */

  function Flat(batches: seq<seq<Metric>>): seq<Metric> {
    if batches == [] then [] else Flat(batches[..|batches| - 1]) + batches[|batches| - 1]
  }

  /** The critical section of `Add`. */
  function Appended(current: seq<Metric>, m: Metric): seq<Metric> { current + [m] }

  predicate Full(current: seq<Metric>, max: nat) { |current| >= max }

  /** The critical section of `flush` and `Flush`: an empty buffer yields no batch. */
  function Taken(batches: seq<seq<Metric>>, current: seq<Metric>): seq<seq<Metric>> {
    if current == [] then batches else batches + [current]
  }

  lemma TakenFlat(batches: seq<seq<Metric>>, current: seq<Metric>)
    ensures Flat(Taken(batches, current)) == Flat(batches) + current
    ensures (forall i :: 0 <= i < |batches| ==> batches[i] != []) ==>
            forall i :: 0 <= i < |Taken(batches, current)| ==> Taken(batches, current)[i] != []
  {
    if current != [] { assert (batches + [current])[..|batches|] == batches; }
  }

  /** The slice `metrics` over its backing array, and the copies handed out. */
  class Buffer {
    var store: array<Metric>
    var length: nat
    const max: nat
    ghost var copies: seq<array<Metric>>
    ghost var batches: seq<seq<Metric>>

    /** No copy shares the backing array, and each still holds the batch it was made of. */
    ghost predicate Valid()
      reads this, store, copies
    {
      && length <= store.Length
      && |copies| == |batches|
      && (forall i :: 0 <= i < |copies| ==> copies[i] != store && copies[i][..] == batches[i])
    }

    ghost function Current(): seq<Metric>
      reads this, store
      requires length <= store.Length
    {
      store[..length]
    }

    constructor (max: nat, blank: Metric)
      ensures Valid() && this.max == max && Current() == [] && batches == [] && fresh(store)
    {
      this.max, length := max, 0;
      copies, batches := [], [];
      store := new Metric[max](_ => blank);
    }

    /** `append` under the lock: in place while there is room, else into a larger array. */
    method Append(m: Metric) returns (shouldFlush: bool)
      requires Valid()
      modifies this, store
      ensures Valid() && batches == old(batches) && copies == old(copies)
      ensures store == old(store) || fresh(store)
      ensures Current() == Appended(old(Current()), m)
      ensures shouldFlush == Full(Current(), max)
    {
      if length == store.Length {
        var larger := new Metric[2 * length + 1](i requires 0 <= i reads this, store =>
          if i < store.Length then store[i] else m);
        assert larger[..length] == store[..length];
        store := larger;
      }
      store[length] := m;
      length := length + 1;
      assert store[..length] == store[..length - 1] + [m];
      shouldFlush := length >= max;
    }

    /** Copying the buffer out and truncating it to `[:0]`; null when there is nothing. */
    method Take() returns (copy: array?<Metric>)
      requires Valid()
      modifies this
      ensures Valid() && store == old(store) && store[..] == old(store[..])
      ensures Current() == []
      ensures batches == Taken(old(batches), old(Current()))
      ensures copy == null <==> old(Current()) == []
      ensures copy != null ==> fresh(copy) && copy[..] == old(Current()) && copies == old(copies) + [copy]
      ensures copy == null ==> copies == old(copies)
    {
      if length == 0 { return null; }
      copy := new Metric[length](i requires 0 <= i < length <= store.Length reads this, store => store[i]);
      assert copy[..] == store[..length];
      batches := batches + [store[..length]];
      copies := copies + [copy];
      length := 0;
    }
  }

  /* ---- the protocol ---- */

  /** Where a thread stands. */
  datatype Thread =
    | Adding(metric: Metric) // in `Add`, before the lock
    | Swapping               // in `Add`, the buffer was full; before the compare-and-swap
    | Taking                 // its compare-and-swap succeeded; before the lock in `flush`
    | Clearing               // after `flush`; before `flushing.Store(false)`
    | Draining               // in `Flush`, before the lock
    | Stopping               // in `Stop`, waiting for the loop to end
    | Waiting                // the flush loop at its select
    | Finished

  /** The flush loop is thread 0. */
  const LOOP: nat := 0

  datatype State = State(
    threads: map<nat, Thread>,
    added: seq<Metric>,           // every metric added, in the order of the lock
    current: seq<Metric>,         // the buffer
    batches: seq<seq<Metric>>,    // the batches taken, in the order of the lock
    flushing: bool,
    cancelled: bool)

  predicate At(s: State, t: nat, pc: Thread) { t in s.threads && s.threads[t] == pc }

  function Move(s: State, t: nat, pc: Thread): State { s.(threads := s.threads[t := pc]) }

  /** A new call of `Add`, `Flush` or `Stop`. */
  ghost predicate Call(s: State, t: nat, s': State) {
    t !in s.threads && t != LOOP &&
    ((exists m :: s' == Move(s, t, Adding(m))) || s' == Move(s, t, Draining) || s' == Move(s, t, Stopping).(cancelled := true))
  }

  ghost predicate Add(s: State, t: nat, s': State, max: nat) {
    t in s.threads && s.threads[t].Adding? &&
    var m := s.threads[t].metric;
    var current := Appended(s.current, m);
    s' == Move(s, t, if Full(current, max) then Swapping else Finished).(added := s.added + [m], current := current)
  }

  /** The compare-and-swap of `Add`; on success a new thread flushes. */
  ghost predicate Swap(s: State, t: nat, s': State) {
    At(s, t, Swapping) &&
    if s.flushing then s' == Move(s, t, Finished)
    else exists u: nat :: u !in s.threads && u != LOOP && s' == Move(Move(s, t, Finished), u, Taking).(flushing := true)
  }

  /** The ticker fires; on success the loop itself flushes. */
  ghost predicate Tick(s: State, s': State) {
    At(s, LOOP, Waiting) && s' == if s.flushing then s else Move(s, LOOP, Taking).(flushing := true)
  }

  ghost predicate Take(s: State, t: nat, s': State) {
    At(s, t, Taking) && s' == Move(s, t, Clearing).(batches := Taken(s.batches, s.current), current := [])
  }

  ghost predicate Clear(s: State, t: nat, s': State) {
    At(s, t, Clearing) && s' == Move(s, t, if t == LOOP then Waiting else Finished).(flushing := false)
  }

  ghost predicate Drain(s: State, t: nat, s': State) {
    At(s, t, Draining) && s' == Move(s, t, Finished).(batches := Taken(s.batches, s.current), current := [])
  }

  ghost predicate LoopEnds(s: State, s': State) {
    At(s, LOOP, Waiting) && s.cancelled && s' == Move(s, LOOP, Finished)
  }

  ghost predicate LoopAwaited(s: State, t: nat, s': State) {
    At(s, t, Stopping) && At(s, LOOP, Finished) && s' == Move(s, t, Draining)
  }

  ghost predicate Step(s: State, t: nat, s': State, max: nat) {
    || Call(s, t, s') || Add(s, t, s', max) || Swap(s, t, s') || Tick(s, s') || Take(s, t, s')
    || Clear(s, t, s') || Drain(s, t, s') || LoopEnds(s, s') || LoopAwaited(s, t, s')
  }

  ghost predicate Init(s: State) {
    s == State(map[LOOP := Waiting], [], [], [], false, false)
  }

  /** An `Add` goes on to flush exactly when the buffer then holds the wanted number of metrics. */
  lemma AddFlushes(s: State, t: nat, s': State, max: nat)
    requires Add(s, t, s', max)
    ensures |s'.current| == |s.current| + 1 && (s'.threads[t] == Swapping <==> |s.current| + 1 >= max)
  {
  }

  /** Between a successful compare-and-swap and the store that follows it. */
  predicate Owner(s: State, t: nat) { t in s.threads && (s.threads[t] == Taking || s.threads[t] == Clearing) }

  /** Nothing is lost, duplicated or reordered, and no batch is empty. */
  ghost predicate Conserves(s: State) {
    && Flat(s.batches) + s.current == s.added
    && (forall i :: 0 <= i < |s.batches| ==> s.batches[i] != [])
  }

  /** The flag is set exactly while one thread, and no more than one, owns the flush. */
  ghost predicate Exclusive(s: State) {
    && (s.flushing <==> exists t :: Owner(s, t))
    && (forall t, u :: Owner(s, t) && Owner(s, u) ==> t == u)
  }

  /** Only the loop waits at the select. */
  ghost predicate LoopOnly(s: State) {
    LOOP in s.threads && forall t :: t in s.threads && s.threads[t].Waiting? ==> t == LOOP
  }

  ghost predicate Inv(s: State) { Conserves(s) && Exclusive(s) && LoopOnly(s) }

  lemma StepConserves(s: State, t: nat, s': State, max: nat)
    requires Conserves(s) && Step(s, t, s', max)
    ensures Conserves(s')
  {
    hide Flat, Taken;
    TakenFlat(s.batches, s.current);
    if Add(s, t, s', max) {
      var m := s.threads[t].metric;
      assert Flat(s.batches) + (s.current + [m]) == Flat(s.batches) + s.current + [m];
    } else if Take(s, t, s') || Drain(s, t, s') {
      assert Flat(s'.batches) + [] == Flat(s'.batches);
    }
  }

  /** A step that neither makes nor ends an owner and leaves the flag alone. */
  lemma OwnersUnchanged(s: State, s': State)
    requires Exclusive(s) && s'.flushing == s.flushing
    requires forall t :: Owner(s', t) <==> Owner(s, t)
    ensures Exclusive(s')
  {
    if s.flushing { var t :| Owner(s, t); assert Owner(s', t); }
  }

  lemma StepExclusive(s: State, t: nat, s': State, max: nat)
    requires Exclusive(s) && Step(s, t, s', max)
    ensures Exclusive(s')
  {
    hide Exclusive, Owner, Step, Clear, Swap;
    if Swap(s, t, s') && !s.flushing {
      SwapGains(s, t, s');
    } else if Tick(s, s') && !s.flushing {
      TickGains(s, s');
    } else if Clear(s, t, s') {
      ClearLoses(s, t, s');
    } else {
      forall u ensures Owner(s', u) <==> Owner(s, u) { OthersKeep(s, t, s', max, u); }
      OthersKeep(s, t, s', max, t);
      OwnersUnchanged(s, s');
    }
  }

  predicate OwnsAlike(s: State, s': State, u: nat) {
    (Owner(s', u) <==> Owner(s, u)) && s'.flushing == s.flushing
  }

  lemma AddOwns(s: State, t: nat, s': State, max: nat, u: nat)
    requires Call(s, t, s') || Add(s, t, s', max)
    ensures OwnsAlike(s, s', u)
  {
  }

  lemma BusyOwns(s: State, t: nat, s': State, u: nat)
    requires s.flushing && (Swap(s, t, s') || Tick(s, s'))
    ensures OwnsAlike(s, s', u)
  {
  }

  lemma TakeOwns(s: State, t: nat, s': State, u: nat)
    requires Take(s, t, s') || Drain(s, t, s')
    ensures OwnsAlike(s, s', u)
  {
  }

  lemma EndOwns(s: State, t: nat, s': State, u: nat)
    requires LoopEnds(s, s') || LoopAwaited(s, t, s')
    ensures OwnsAlike(s, s', u)
  {
  }

  lemma OthersKeep(s: State, t: nat, s': State, max: nat, u: nat)
    requires Step(s, t, s', max) && !Clear(s, t, s') && !(!s.flushing && (Swap(s, t, s') || Tick(s, s')))
    ensures OwnsAlike(s, s', u)
  {
    hide OwnsAlike, Call, Add, Swap, Tick, Take, Clear, Drain, LoopEnds, LoopAwaited;
    if Call(s, t, s') || Add(s, t, s', max) { AddOwns(s, t, s', max, u); }
    else if Swap(s, t, s') || Tick(s, s') { BusyOwns(s, t, s', u); }
    else if Take(s, t, s') || Drain(s, t, s') { TakeOwns(s, t, s', u); }
    else { EndOwns(s, t, s', u); }
  }

  lemma SwapGains(s: State, t: nat, s': State)
    requires Exclusive(s) && !s.flushing && Swap(s, t, s')
    ensures Exclusive(s')
  {
    hide Exclusive;
    var u: nat :| u !in s.threads && u != LOOP && s' == Move(Move(s, t, Finished), u, Taking).(flushing := true);
    OwnerGained(s, s', u);
  }

  lemma TickGains(s: State, s': State)
    requires Exclusive(s) && !s.flushing && Tick(s, s')
    ensures Exclusive(s')
  {
    hide Exclusive;
    OwnerGained(s, s', LOOP);
  }

  lemma ClearLoses(s: State, t: nat, s': State)
    requires Exclusive(s) && Clear(s, t, s')
    ensures Exclusive(s')
  {
    hide Exclusive;
    OwnerLost(s, s', t);
  }

  lemma OwnerGained(s: State, s': State, u: nat)
    requires Exclusive(s) && !s.flushing && s'.flushing
    requires Owner(s', u) && forall t :: Owner(s', t) ==> t == u || Owner(s, t)
    ensures Exclusive(s')
  {
    hide Owner;
  }

  lemma OwnerLost(s: State, s': State, u: nat)
    requires Exclusive(s) && Owner(s, u) && !s'.flushing
    requires forall t :: Owner(s', t) ==> t != u && Owner(s, t)
    ensures Exclusive(s')
  {
    hide Owner;
    assert forall t :: Owner(s, t) ==> t == u;
  }

  lemma StepKeeps(s: State, t: nat, s': State, max: nat)
    requires Inv(s) && Step(s, t, s', max)
    ensures Inv(s')
  {
    hide Conserves, Exclusive, LoopOnly, Step;
    StepConserves(s, t, s', max);
    StepExclusive(s, t, s', max);
    StepLoopOnly(s, t, s', max);
  }

  lemma StepLoopOnly(s: State, t: nat, s': State, max: nat)
    requires LoopOnly(s) && Step(s, t, s', max)
    ensures LoopOnly(s')
  {
    hide Flat, Taken, Appended, Full;
  }

  /** A run of any number of threads, interleaved in any way; `who[i]` takes step `i`. */
  ghost predicate Run(run: seq<State>, who: seq<nat>, max: nat) {
    && |run| == |who| + 1 && Init(run[0])
    && forall i :: 0 <= i < |who| ==> Step(run[i], who[i], run[i + 1], max)
  }

  /** In every interleaving the batches in the order they were taken, followed by the buffer,
      are the metrics in the order they were added; no batch is empty; and the flag is set
      exactly while one thread is between its compare-and-swap and its store. */
  lemma {:induction false} RunKeeps(run: seq<State>, who: seq<nat>, max: nat, n: nat)
    requires Run(run, who, max) && n < |run|
    ensures Inv(run[n])
    decreases n
  {
    hide Step, Inv;
    if n == 0 {
      Start(run[0]);
    } else {
      RunKeeps(run, who, max, n - 1);
      StepKeeps(run[n - 1], who[n - 1], run[n], max);
    }
  }

  lemma Start(s: State)
    requires Init(s)
    ensures Inv(s)
  {
  }

  /** Batches, once taken, stay what they are: a later state only has more of them. */
  lemma {:induction false} BatchesStay(run: seq<State>, who: seq<nat>, max: nat, m: nat, n: nat)
    requires Run(run, who, max) && m <= n < |run|
    ensures run[m].batches <= run[n].batches && run[m].added <= run[n].added
    decreases n - m
  {
    hide Init;
    if m < n {
      assert Step(run[n - 1], who[n - 1], run[n], max);
      BatchesStay(run, who, max, m, n - 1);
    }
  }

  /** When the flush of `Flush` or `Stop` has taken its batch, everything added before has
      been handed out. */
  lemma DrainedAll(run: seq<State>, who: seq<nat>, max: nat, n: nat)
    requires Run(run, who, max) && n < |who| && Drain(run[n], who[n], run[n + 1])
    ensures Flat(run[n + 1].batches) == run[n].added == run[n + 1].added
  {
    RunKeeps(run, who, max, n + 1);
    assert Flat(run[n + 1].batches) + [] == Flat(run[n + 1].batches);
  }

  /** Once the loop has ended it stays ended, so `Stop` flushes after the last tick. */
  lemma {:induction false} LoopStaysEnded(run: seq<State>, who: seq<nat>, max: nat, m: nat, n: nat)
    requires Run(run, who, max) && m <= n < |run| && At(run[m], LOOP, Finished)
    ensures At(run[n], LOOP, Finished)
    decreases n - m
  {
    if m < n {
      LoopStaysEnded(run, who, max, m, n - 1);
      assert Step(run[n - 1], who[n - 1], run[n], max);
    }
  }

  /* ---- when a full buffer is left waiting ---- */

  /** Nothing is under way: every thread has finished, but for the loop that may be waiting. */
  ghost predicate Quiet(s: State) {
    forall t :: t in s.threads ==> s.threads[t] == Finished || (t == LOOP && s.threads[t] == Waiting)
  }

  /** An `Add` that found the buffer full loses its compare-and-swap, the buffer still being full. */
  ghost predicate Lost(s: State, t: nat, s': State, max: nat) {
    Swap(s, t, s') && s.flushing && Full(s.current, max)
  }

  /** The buffer is emptied. */
  ghost predicate Empties(s: State, t: nat, s': State) { Take(s, t, s') || Drain(s, t, s') }

  /** Step `k` lost, and the buffer has not been emptied between then and state `n`. */
  ghost predicate LostAt(run: seq<State>, who: seq<nat>, max: nat, k: nat, n: nat)
    requires |run| == |who| + 1 && k < n < |run|
  {
    && Lost(run[k], who[k], run[k + 1], max)
    && forall j :: k < j < n ==> !Empties(run[j], who[j], run[j + 1])
  }

  ghost predicate LostBefore(run: seq<State>, who: seq<nat>, max: nat, n: nat)
    requires |run| == |who| + 1 && n < |run|
  {
    exists k: nat :: k < n && LostAt(run, who, max, k, n)
  }

  /** A flush will be tried or is on its way. */
  ghost predicate Pending(s: State) { exists t :: Tries(s, t) }

  ghost predicate Tries(s: State, t: nat) { t in s.threads && (s.threads[t] == Swapping || s.threads[t] == Taking) }

  lemma StepGrows(s: State, t: nat, s': State, max: nat)
    requires Step(s, t, s', max) && !Empties(s, t, s')
    ensures s.current <= s'.current
  {
  }

  /** A flush that is tried is won, on its way, or lost to another. */
  lemma TriesStay(s: State, t: nat, s': State, max: nat, u: nat)
    requires Step(s, t, s', max) && !Empties(s, t, s') && Tries(s, u) && Full(s.current, max)
    ensures Pending(s') || Lost(s, t, s', max)
  {
    hide Appended;
    if u == t && Swap(s, t, s') {
      if !s.flushing {
        var v: nat :| v !in s.threads && v != LOOP && s' == Move(Move(s, t, Finished), v, Taking).(flushing := true);
        assert Tries(s', v);
      }
    } else {
      assert Tries(s', u);
    }
  }

  /** A buffer becomes full through an `Add`, which then tries to flush. */
  lemma FillingTries(s: State, t: nat, s': State, max: nat)
    requires Step(s, t, s', max) && !Full(s.current, max) && Full(s'.current, max)
    ensures Empties(s, t, s') || Pending(s')
  {
    if Add(s, t, s', max) { assert Tries(s', t); }
  }

  lemma LostStays(run: seq<State>, who: seq<nat>, max: nat, n: nat)
    requires |run| == |who| + 1 && n < |who| && LostBefore(run, who, max, n) && !Empties(run[n], who[n], run[n + 1])
    ensures LostBefore(run, who, max, n + 1)
  {
    hide Lost, Empties;
    var k: nat :| k < n && LostAt(run, who, max, k, n);
    assert LostAt(run, who, max, k, n + 1);
  }

  lemma LostNow(run: seq<State>, who: seq<nat>, max: nat, n: nat)
    requires |run| == |who| + 1 && n < |who| && Lost(run[n], who[n], run[n + 1], max)
    ensures LostBefore(run, who, max, n + 1)
  {
    assert LostAt(run, who, max, n, n + 1);
  }

  lemma {:induction false} FullIsPending(run: seq<State>, who: seq<nat>, max: nat, n: nat)
    requires Run(run, who, max) && max >= 1 && n < |run|
    ensures Full(run[n].current, max) ==> Pending(run[n]) || LostBefore(run, who, max, n)
    decreases n
  {
    hide Step, Pending, Lost, Empties, LostBefore, Full;
    if n == 0 {
      EmptyIsNotFull(run[0], max);
    } else {
      var s, t, s' := run[n - 1], who[n - 1], run[n];
      FullIsPending(run, who, max, n - 1);
      assert Step(run[n - 1], who[n - 1], run[n - 1 + 1], max);
      if Empties(s, t, s') {
        EmptiedIsNotFull(s, t, s', max);
      } else if Full(s'.current, max) {
        if !Full(s.current, max) {
          FillingTries(s, t, s', max);
        } else if LostBefore(run, who, max, n - 1) {
          LostStays(run, who, max, n - 1);
        } else {
          PendingStays(s, t, s', max);
          if Lost(s, t, s', max) { LostNow(run, who, max, n - 1); }
        }
      }
    }
  }

  lemma PendingStays(s: State, t: nat, s': State, max: nat)
    requires Step(s, t, s', max) && !Empties(s, t, s') && Pending(s) && Full(s.current, max)
    ensures Pending(s') || Lost(s, t, s', max)
  {
    hide Step, Empties, Lost, Full, Tries;
    var u :| Tries(s, u);
    TriesStay(s, t, s', max, u);
  }

  lemma EmptyIsNotFull(s: State, max: nat)
    requires Init(s) && max >= 1
    ensures !Full(s.current, max)
  {
  }

  lemma EmptiedIsNotFull(s: State, t: nat, s': State, max: nat)
    requires Empties(s, t, s') && max >= 1
    ensures !Full(s'.current, max)
  {
    hide Taken;
  }

  lemma {:induction false} LostIsFull(run: seq<State>, who: seq<nat>, max: nat, k: nat, n: nat)
    requires Run(run, who, max) && k < n < |run| && LostAt(run, who, max, k, n)
    ensures Full(run[n].current, max)
    decreases n
  {
    hide Step, Empties, Init;
    if n > k + 1 {
      LostIsFull(run, who, max, k, n - 1);
      assert Step(run[n - 1], who[n - 1], run[n - 1 + 1], max);
      StepGrows(run[n - 1], who[n - 1], run[n], max);
    }
  }

  lemma QuietIsNotPending(s: State)
    requires Quiet(s)
    ensures !Pending(s)
  {
  }

  /** When nothing is under way the buffer is full exactly when some `Add` lost its
      compare-and-swap to a flush that had already emptied the buffer, and the buffer has not
      been emptied since. */
  lemma {:induction false} QuietButFull(run: seq<State>, who: seq<nat>, max: nat, n: nat)
    requires Run(run, who, max) && max >= 1 && n < |run| && Quiet(run[n])
    ensures Full(run[n].current, max) <==> LostBefore(run, who, max, n)
  {
    hide Init, Step, Full, Pending, Quiet, LostAt;
    QuietIsNotPending(run[n]);
    FullIsPending(run, who, max, n);
    if LostBefore(run, who, max, n) {
      var k: nat :| k < n && LostAt(run, who, max, k, n);
      LostIsFull(run, who, max, k, n);
    }
  }

  /** With room for one: the second metric is added after the first flush has taken its batch
      but before it clears the flag, so the compare-and-swap of the second `Add` fails. */
  function Missed(a: Metric, b: Metric, n: nat): State {
    if n == 0 then State(map[LOOP := Waiting], [], [], [], false, false)
    else
      var s := Missed(a, b, n - 1);
      if n == 1 then Move(s, 1, Adding(a))
      else if n == 2 then Move(s, 1, Swapping).(added := [a], current := [a])
      else if n == 3 then Move(Move(s, 1, Finished), 2, Taking).(flushing := true)
      else if n == 4 then Move(s, 2, Clearing).(batches := [[a]], current := [])
      else if n == 5 then Move(s, 3, Adding(b))
      else if n == 6 then Move(s, 3, Swapping).(added := [a, b], current := [b])
      else if n == 7 then Move(s, 3, Finished)
      else Move(s, 2, Finished).(flushing := false)
  }

  const MISSED_BY: seq<nat> := [1, 1, 1, 2, 3, 3, 3, 2]

  lemma MissedFirst(a: Metric, b: Metric)
    ensures Init(Missed(a, b, 0)) && Call(Missed(a, b, 0), 1, Missed(a, b, 1))
    ensures Add(Missed(a, b, 1), 1, Missed(a, b, 2), 1) && Swap(Missed(a, b, 2), 1, Missed(a, b, 3))
    ensures Missed(a, b, 3) == State(map[LOOP := Waiting, 1 := Finished, 2 := Taking], [a], [a], [], true, false)
  {
    var s2 := Missed(a, b, 2);
    assert Appended([], a) == [a];
    assert Missed(a, b, 3) == Move(Move(s2, 1, Finished), 2, Taking).(flushing := true);
  }

  lemma MissedNext(a: Metric, b: Metric)
    requires Missed(a, b, 3) == State(map[LOOP := Waiting, 1 := Finished, 2 := Taking], [a], [a], [], true, false)
    ensures Take(Missed(a, b, 3), 2, Missed(a, b, 4)) && Call(Missed(a, b, 4), 3, Missed(a, b, 5))
    ensures Missed(a, b, 5) ==
            State(map[LOOP := Waiting, 1 := Finished, 2 := Clearing, 3 := Adding(b)], [a], [], [[a]], true, false)
  {
  }

  lemma MissedLast(a: Metric, b: Metric)
    requires Missed(a, b, 5) ==
             State(map[LOOP := Waiting, 1 := Finished, 2 := Clearing, 3 := Adding(b)], [a], [], [[a]], true, false)
    ensures Add(Missed(a, b, 5), 3, Missed(a, b, 6), 1) && Swap(Missed(a, b, 6), 3, Missed(a, b, 7))
    ensures Clear(Missed(a, b, 7), 2, Missed(a, b, 8))
    ensures Missed(a, b, 8).threads == map[LOOP := Waiting, 1 := Finished, 2 := Finished, 3 := Finished]
    ensures Missed(a, b, 8).current == [b] && !Missed(a, b, 8).flushing
  {
    assert Appended([], b) == [b] && [a] + [b] == [a, b];
  }

  /** The flag makes a full buffer wait for the next `Add` or tick: a run ends with a full
      buffer and no flush under way while every thread but the waiting loop has finished. */
  lemma FullBufferMayWait(a: Metric, b: Metric)
    ensures var run := seq(9, n requires 0 <= n => Missed(a, b, n));
            && Run(run, MISSED_BY, 1) && Full(run[8].current, 1) && !run[8].flushing
            && forall t :: t in run[8].threads ==> run[8].threads[t] == if t == LOOP then Waiting else Finished
  {
    hide Missed, Call, Add, Swap, Take, Clear;
    MissedFirst(a, b);
    MissedNext(a, b);
    MissedLast(a, b);
  }
}
