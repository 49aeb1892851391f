/**
 Runs of `CompactAndCleanup` (pkg/compaction/compactor.go) without assumptions on time: samples
 of any age arrive at any moment and runs lie as far apart as they may.  Then samples can be
 lost, and this is which.
 */
module LateRuns {
  import opened Instants
  import opened Integers
  import opened Metrics
  import opened MemoryStorage
  import opened Compactor
  import opened CompactionRuns

  ghost predicate LateIngest(s: State, t: State) { exists m :: LateIngests(s, t, m) }

  ghost predicate LateIngests(s: State, t: State, m: Metric) {
    && IsRaw(m) && s.arrived + 1 < TWO64
    && t == s.(raw := s.raw[s.arrived := m], arrived := s.arrived + 1)
  }

  /** The samples a run that begins now will fold. */
  function DueNow(s: State): set<nat> {
    set i | i in s.raw && Within(s.raw[i].timestamp, s.clock - COMPACT_5M_LOOKBACK, s.clock - COMPACT_5M_DELAY)
  }

  ghost predicate LateBegin(s: State, t: State) {
    s.phase.Idle? && t == s.(phase := Queried5m(s.clock, s.foldedFive, DueNow(s)))
  }

  ghost predicate AnyNext(s: State, t: State) { Next(s, t) || LateIngest(s, t) || LateBegin(s, t) }

  /** At the start nothing was folded. */
  ghost predicate AnyInit(s: State) {
    && s.phase.Idle? && s.folded == {} && s.arrived < TWO64
    && (forall i: nat :: i in s.raw <==> i < s.arrived)
    && (forall i :: i in s.raw ==> IsRaw(s.raw[i]))
  }

  ghost predicate AnyRun(run: seq<State>) {
    && run != [] && AnyInit(run[0])
    && forall i :: 0 <= i < |run| - 1 ==> AnyNext(run[i], run[i + 1])
  }

  /** Every run is one of these. */
  lemma RunIsAny(run: seq<State>)
    requires Run(run)
    ensures AnyRun(run)
  {
    hide Next;
  }

  /* ---- single steps ---- */

  /** Samples are raw, numbered in order of arrival, and never change. */
  ghost predicate Numbers(s: State) {
    forall i :: i in s.raw ==> i < s.arrived && IsRaw(s.raw[i])
  }

  ghost predicate Unchanged(s: State, t: State) {
    && s.arrived <= t.arrived
    && (forall i :: i in t.raw && i < s.arrived ==> i in s.raw && t.raw[i] == s.raw[i])
  }

  lemma BeginIsLate(s: State, t: State)
    requires Begin(s, t)
    ensures LateBegin(s, t)
  {
  }

  lemma DeletionNumbers(s: State, t: State)
    requires DeleteRaw(s, t) && Numbers(s)
    ensures Numbers(t) && Unchanged(s, t)
  {
    hide IsRaw, Stays;
  }

  lemma StepNumbers(s: State, t: State)
    requires AnyNext(s, t) && Numbers(s)
    ensures Numbers(t) && Unchanged(s, t)
  {
    hide IsRaw, Orders, Listing, Lists, FoldRaw, FoldFive, AsFive, Begin, Query1h, DeleteRaw;
    if DeleteRaw(s, t) { DeletionNumbers(s, t); }
    else if LateIngest(s, t) { var m :| LateIngests(s, t, m); }
    else if Ingest(s, t) { var m :| Ingests(s, t, m); }
    else if Begin(s, t) || Query1h(s, t) { PhaseSteps(s, t); }
    else if Write5m(s, t) { var order, ks, out :| Writes5m(s, t, order, ks, out); }
    else if Write1h(s, t) { var order, out :| Writes1h(s, t, order, out); }
  }

  lemma LateIsBystander(s: State, t: State)
    requires LateIngest(s, t) || LateBegin(s, t)
    ensures Bystander(s, t)
  {
    if LateIngest(s, t) { var m :| LateIngests(s, t, m); }
  }

  ghost predicate Writes(s: State, t: State) { s.phase.Queried5m? && Write5m(s, t) }

  /** Only a write of five-minute aggregates folds, and it folds its batch. */
  lemma StepFolds(s: State, t: State)
    requires AnyNext(s, t)
    ensures t.folded == if Writes(s, t) then s.folded + s.phase.batch else s.folded
  {
    hide Orders, Listing, Lists, FoldRaw, FoldFive, AsFive, IsRaw, Stays, Begin, Query1h;
    if LateIngest(s, t) { var m :| LateIngests(s, t, m); }
    else if Ingest(s, t) { var m :| Ingests(s, t, m); }
    else if Begin(s, t) || Query1h(s, t) { PhaseSteps(s, t); }
    else if Write5m(s, t) { var order, ks, out :| Writes5m(s, t, order, ks, out); }
    else if Write1h(s, t) { var order, out :| Writes1h(s, t, order, out); }
    if Writes(s, t) { var order, ks, out :| Writes5m(s, t, order, ks, out); }
  }

  /** Only a deletion removes samples: those before the cutoff. */
  lemma StepRemoves(s: State, t: State, i: nat)
    requires AnyNext(s, t) && Numbers(s) && i in s.raw
    ensures i !in t.raw <==> DeleteRaw(s, t) && s.raw[i].timestamp < s.phase.now - RAW_RETENTION
  {
    if DeleteRaw(s, t) {
    } else if LateIngest(s, t) || LateBegin(s, t) {
      LateIsBystander(s, t);
    } else {
      hide Next, Stays;
      SampleSteps(s, t);
    }
  }

  predicate Folding(p: Phase) { p.Queried5m? || p.Written5m? }

  /** A batch is chosen when a run begins and stays. */
  lemma StepBatch(s: State, t: State)
    requires AnyNext(s, t) && Folding(t.phase)
    ensures LateBegin(s, t) || (Folding(s.phase) && s.phase.now == t.phase.now && s.phase.batch == t.phase.batch)
  {
    hide Orders, Listing, Lists, FoldRaw, FoldFive, AsFive, IsRaw, Stays;
    if LateIngest(s, t) { var m :| LateIngests(s, t, m); }
    else if Ingest(s, t) { var m :| Ingests(s, t, m); }
    else if Begin(s, t) { BeginIsLate(s, t); }
    else if Write5m(s, t) { var order, ks, out :| Writes5m(s, t, order, ks, out); }
  }

  /* ---- runs ---- */

  lemma {:induction false} AnyNumbers(run: seq<State>, n: nat)
    requires AnyRun(run) && n < |run|
    ensures Numbers(run[n])
  {
    hide AnyNext, Numbers;
    if n == 0 {
      FirstNumbers(run[0]);
    } else {
      AnyNumbers(run, n - 1);
      assert AnyNext(run[n - 1], run[n - 1 + 1]);
      StepNumbers(run[n - 1], run[n]);
    }
  }

  lemma FirstNumbers(s: State)
    requires AnyInit(s)
    ensures Numbers(s)
  {
  }

  lemma {:induction false} AnyUnchanged(run: seq<State>, b: nat, n: nat)
    requires AnyRun(run) && b <= n < |run|
    ensures Unchanged(run[b], run[n])
    decreases n - b
  {
    hide AnyNext, Numbers;
    if b < n {
      AnyUnchanged(run, b, n - 1);
      AnyNumbers(run, n - 1);
      assert AnyNext(run[n - 1], run[n - 1 + 1]);
      StepNumbers(run[n - 1], run[n]);
    }
  }

  /** Step `k` folds sample `i`. */
  ghost predicate FoldsAt(run: seq<State>, k: nat, i: nat)
    requires k + 1 < |run|
  {
    Writes(run[k], run[k + 1]) && i in run[k].phase.batch
  }

  ghost predicate FoldedBefore(run: seq<State>, n: nat, i: nat)
    requires n < |run|
  {
    exists k: nat :: k < n && FoldsAt(run, k, i)
  }

  lemma {:induction false} FoldedExactly(run: seq<State>, n: nat, i: nat)
    requires AnyRun(run) && n < |run|
    ensures i in run[n].folded <==> FoldedBefore(run, n, i)
  {
    hide AnyNext, Writes;
    if n > 0 {
      FoldedExactly(run, n - 1, i);
      assert AnyNext(run[n - 1], run[n - 1 + 1]);
      StepFolds(run[n - 1], run[n]);
      if FoldsAt(run, n - 1, i) { assert FoldedBefore(run, n, i); }
    }
  }

  /** Where the run that is folding at state `n` began. */
  lemma {:induction false} BeganAt(run: seq<State>, n: nat) returns (b: nat)
    requires AnyRun(run) && n < |run| && Folding(run[n].phase)
    ensures b < n && LateBegin(run[b], run[b + 1])
    ensures run[n].phase.now == run[b].clock && run[n].phase.batch == DueNow(run[b])
  {
    hide AnyNext, LateBegin, DueNow, Folding;
    if n == 0 { IdleFirst(run[0]); }
    assert AnyNext(run[n - 1], run[n - 1 + 1]);
    StepBatch(run[n - 1], run[n]);
    if LateBegin(run[n - 1], run[n]) {
      b := n - 1;
      BatchIsDue(run[b], run[n]);
    } else {
      b := BeganAt(run, n - 1);
    }
  }

  lemma IdleFirst(s: State)
    requires AnyInit(s)
    ensures !Folding(s.phase)
  {
  }

  lemma BatchIsDue(s: State, t: State)
    requires LateBegin(s, t)
    ensures t.phase.Queried5m? && t.phase.now == s.clock && t.phase.batch == DueNow(s)
  {
  }

  lemma StepWritten(s: State, t: State)
    requires AnyNext(s, t) && t.phase.Written5m?
    ensures Writes(s, t) || t.phase == s.phase
  {
    hide Orders, Listing, Lists, FoldRaw, FoldFive, AsFive, IsRaw, Stays, Begin, Query1h;
    if LateIngest(s, t) { var m :| LateIngests(s, t, m); }
    else if Ingest(s, t) { var m :| Ingests(s, t, m); }
    else if Begin(s, t) || Query1h(s, t) { PhaseSteps(s, t); }
  }

  lemma WritesSame(s: State, t: State)
    requires Writes(s, t)
    ensures t.phase.Written5m? && t.phase.batch == s.phase.batch
  {
    hide Orders, Listing, FoldRaw;
    var order, ks, out :| Writes5m(s, t, order, ks, out);
  }

  /** A batch about to be deleted has been folded. */
  lemma {:induction false} BatchFolded(run: seq<State>, n: nat)
    requires AnyRun(run) && n < |run| && run[n].phase.Written5m?
    ensures run[n].phase.batch <= run[n].folded
  {
    hide AnyNext, Writes;
    assert n > 0;
    var s, t := run[n - 1], run[n];
    assert AnyNext(s, run[n - 1 + 1]);
    StepWritten(s, t);
    StepFolds(s, t);
    if Writes(s, t) { WritesSame(s, t); } else { BatchFolded(run, n - 1); }
  }

  /** Step `n` removes sample `i`, which no write has folded. */
  ghost predicate LostAt(run: seq<State>, n: nat, i: nat)
    requires n + 1 < |run|
  {
    i in run[n].raw && i !in run[n + 1].raw && i !in run[n].folded
  }

  /** What a deletion loses: the samples before the cutoff that no write has folded, which means
      that they stood before the window of the deleting run or arrived after it had begun, and
      that no earlier write folded them. */
  lemma {:induction false} LostExactly(run: seq<State>, n: nat, i: nat) returns (b: nat)
    requires AnyRun(run) && n + 1 < |run| && DeleteRaw(run[n], run[n + 1])
    ensures b < n && LateBegin(run[b], run[b + 1]) && run[b].clock == run[n].phase.now
    ensures var now := run[n].phase.now;
            LostAt(run, n, i) <==>
              && i in run[n].raw && run[n].raw[i].timestamp < now - RAW_RETENTION
              && (run[n].raw[i].timestamp < now - COMPACT_5M_LOOKBACK || i >= run[b].arrived)
              && !FoldedBefore(run, n, i)
  {
    hide AnyNext, LateBegin, Writes, FoldedBefore, Stays, IsRaw;
    b := BeganAt(run, n);
    AnyNumbers(run, n);
    AnyNumbers(run, b);
    AnyUnchanged(run, b, n);
    FoldedExactly(run, n, i);
    assert AnyNext(run[n], run[n + 1]);
    if i in run[n].raw {
      StepRemoves(run[n], run[n + 1], i);
      BatchFolded(run, n);
    }
  }

  /* ---- samples are lost ---- */

  lemma BeginsLate(s: State) returns (t: State)
    requires s.phase.Idle?
    ensures LateBegin(s, t) && t.raw == s.raw && t.folded == s.folded && t.arrived == s.arrived
    ensures t.phase == Queried5m(s.clock, s.foldedFive, DueNow(s))
  {
    t := s.(phase := Queried5m(s.clock, s.foldedFive, DueNow(s)));
  }

  lemma StoreStep(s: State, t: State)
    requires Write5m(s, t) || DeleteRaw(s, t)
    ensures AnyNext(s, t)
  {
  }

  lemma TooOld(m: Metric, s: State)
    requires m.timestamp == 0 && s.raw == map[0 := m] && s.clock == 13 * HOUR
    ensures DueNow(s) == {}
  {
  }

  lemma AnyStart(m: Metric)
    requires IsRaw(m)
    ensures AnyInit(Start(m))
  {
  }

  /** A store with one sample and, thirteen hours later, the first run: the sample stands before
      its window and before its cutoff, and is deleted without having been folded. */
  lemma LossHappens(m: Metric) returns (run: seq<State>)
    requires IsRaw(m) && m.timestamp == 0
    ensures AnyRun(run) && |run| == 5 && DeleteRaw(run[3], run[4]) && LostAt(run, 3, 0)
  {
    hide Next, LateBegin, DeleteRaw, Write5m, AnyInit, Numbers, IsRaw, LateIngest, DueNow;
    var s := Start(m);
    var v := s.(clock := 13 * HOUR);
    AnyStart(m);
    TickIsNext(s, v);
    TooOld(m, v);
    var begun := BeginsLate(v);
    var written := WriteFive(begun);
    StoreStep(begun, written);
    StepFolds(begun, written);
    var deleted := DeletesRaw(written);
    StoreStep(written, deleted);
    run := [s, v, begun, written, deleted];
    AnyNumbers(run, 3);
    StepRemoves(written, deleted, 0);
  }
}
