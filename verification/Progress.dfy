/** Counters over completed tool batches: consecutive failures and repeated batches. */
module Progress {
  import opened Prelude
  import opened History
  import opened Evidence

  const FINISH_TASK_NAME: string := "finish_task"
  const NO_PROGRESS_WARNING_REPEAT: nat := 2
  const NO_PROGRESS_TERMINATION_REPEAT: nat := 3

  /** One completed batch: the calls, one result for each, and whether a successful call
      of a writing tool was among them. */
  datatype Batch = Batch(calls: seq<ToolCall>, results: seq<ToolResult>, modified: bool)

  /** The semantic digest of a batch. */
  type Fingerprint = (seq<ToolCall>, seq<ToolResult>) -> string

  predicate AllFailed(b: Batch) {
    forall i :: 0 <= i < |b.results| ==> !b.results[i].ok
  }

  /** A batch the loop can complete: calls paired with results, a modifying one has a
      success, and no success of the finish call, which would have ended the run. */
  ghost predicate Completed(b: Batch) {
    && |b.calls| == |b.results| > 0
    && (b.modified ==> !AllFailed(b))
    && forall i :: 0 <= i < |b.results| && b.results[i].ok ==> b.calls[i].name != FINISH_TASK_NAME
  }

  predicate SameBatch(fp: Fingerprint, a: Batch, b: Batch) {
    !a.modified && !b.modified && fp(a.calls, a.results) == fp(b.calls, b.results)
  }

  /** `n` is the length of the longest suffix of batches that failed completely. */
  ghost predicate LongestFailedSuffix(batches: seq<Batch>, n: nat) {
    && n <= |batches|
    && (forall i :: |batches| - n <= i < |batches| ==> AllFailed(batches[i]))
    && (n < |batches| ==> !AllFailed(batches[|batches| - n - 1]))
  }

  /** `n` is the length of the longest suffix of batches that did the same as the newest
      one and left the workspace alone. */
  ghost predicate LongestRepeatedSuffix(fp: Fingerprint, batches: seq<Batch>, n: nat) {
    && n <= |batches|
    && (forall i :: |batches| - n <= i < |batches| ==> SameBatch(fp, batches[i], batches[|batches| - 1]))
    && (n < |batches| ==> !SameBatch(fp, batches[|batches| - n - 1], batches[|batches| - 1]))
  }

  lemma OneFailedLength(batches: seq<Batch>, m: nat, n: nat)
    requires LongestFailedSuffix(batches, m) && LongestFailedSuffix(batches, n)
    ensures m == n
  {
  }

  lemma OneRepeatedLength(fp: Fingerprint, batches: seq<Batch>, m: nat, n: nat)
    requires LongestRepeatedSuffix(fp, batches, m) && LongestRepeatedSuffix(fp, batches, n)
    ensures m == n
  {
  }

  /** Update the failure counter of a run after one completed batch. */
  method UpdateConsecutiveFailures(b: Batch, state: RunState)
    requires |b.calls| == |b.results|
    modifies state`consecutiveFailures
    ensures state.consecutiveFailures == FailuresAfter(b, old(state.consecutiveFailures))
  {
    if b.modified {
      state.consecutiveFailures := 0;
      return;
    }
    if b.results != [] && AllFailed(b) {
      state.consecutiveFailures := state.consecutiveFailures + 1;
      return;
    }
    var ordinarySuccess := false;
    for i := 0 to |b.calls|
      invariant ordinarySuccess <==> OrdinarySuccess(b, i)
    {
      if b.calls[i].name != FINISH_TASK_NAME && b.results[i].ok {
        ordinarySuccess := true;
      }
    }
    if ordinarySuccess {
      state.consecutiveFailures := 0;
    }
  }

  predicate OrdinarySuccess(b: Batch, upTo: nat)
    requires upTo <= |b.calls| == |b.results|
  {
    exists i :: 0 <= i < upTo && b.calls[i].name != FINISH_TASK_NAME && b.results[i].ok
  }

  function FailuresAfter(b: Batch, failures: nat): nat
    requires |b.calls| == |b.results|
  {
    if b.modified then 0
    else if b.results != [] && AllFailed(b) then failures + 1
    else if OrdinarySuccess(b, |b.calls|) then 0
    else failures
  }

  /** Over every run of completed batches the counter is the one length of the longest
      suffix of completely failed ones. */
  lemma FailuresCountSuffix(batches: seq<Batch>, failures: nat, b: Batch)
    requires LongestFailedSuffix(batches, failures) && Completed(b)
    ensures forall n: nat :: LongestFailedSuffix(batches + [b], n) <==> n == FailuresAfter(b, failures)
  {
    FailuresStillCount(batches, failures, b);
    forall n: nat | LongestFailedSuffix(batches + [b], n) ensures n == FailuresAfter(b, failures) {
      OneFailedLength(batches + [b], n, FailuresAfter(b, failures));
    }
  }

  lemma FailuresStillCount(batches: seq<Batch>, failures: nat, b: Batch)
    requires LongestFailedSuffix(batches, failures) && Completed(b)
    ensures LongestFailedSuffix(batches + [b], FailuresAfter(b, failures))
  {
    if !AllFailed(b) {
      var i :| 0 <= i < |b.results| && b.results[i].ok;
      assert b.calls[i].name != FINISH_TASK_NAME;
      assert OrdinarySuccess(b, |b.calls|);
    }
    var all := batches + [b];
    assert all[|batches|] == b;
    assert failures < |batches| ==> all[|batches| - failures - 1] == batches[|batches| - failures - 1];
  }

  datatype Observation = Observation(repeats: nat, warn: bool, terminate: bool)

  /** Detects identical consecutive batches. */
  class NoProgressTracker {
    const fp: Fingerprint
    var fingerprint: Option<string>
    var repeats: nat
    ghost var seen: seq<Batch>

    ghost predicate Valid()
      reads this
    {
      && LongestRepeatedSuffix(fp, seen, repeats)
      && match fingerprint
         case None => repeats == 0
         case Some(f) =>
           && repeats > 0
           && seen[|seen| - 1].modified == false
           && f == fp(seen[|seen| - 1].calls, seen[|seen| - 1].results)
    }

    constructor (fp: Fingerprint)
      ensures Valid() && seen == [] && this.fp == fp
    {
      this.fp, fingerprint, repeats, seen := fp, None, 0, [];
    }

    method Reset()
      modifies this`fingerprint, this`repeats
      ensures fingerprint == None && repeats == 0
    {
      fingerprint, repeats := None, 0;
    }

    /** The count is the longest suffix of batches equal to this one since the last
        modifying batch; the second warns, the third ends the run. */
    method Observe(b: Batch) returns (o: Observation)
      requires Valid()
      modifies this
      ensures Valid() && seen == old(seen) + [b]
      ensures forall n: nat :: LongestRepeatedSuffix(fp, seen, n) <==> n == repeats
      ensures o == Observation(repeats, repeats == NO_PROGRESS_WARNING_REPEAT, repeats >= NO_PROGRESS_TERMINATION_REPEAT)
      ensures repeats <= old(repeats) + 1
    {
      if b.modified {
        seen := seen + [b];
        Reset();
        OnlyRepeats();
        return Observation(0, false, false);
      }
      var f := fp(b.calls, b.results);
      if fingerprint == Some(f) {
        repeats := repeats + 1;
      } else {
        fingerprint, repeats := Some(f), 1;
      }
      seen := seen + [b];
      o := Observation(repeats, repeats == NO_PROGRESS_WARNING_REPEAT, repeats >= NO_PROGRESS_TERMINATION_REPEAT);
      OnlyRepeats();
    }

    lemma OnlyRepeats()
      requires Valid()
      ensures forall n: nat :: LongestRepeatedSuffix(fp, seen, n) <==> n == repeats
    {
      forall n: nat | LongestRepeatedSuffix(fp, seen, n) ensures n == repeats {
        OneRepeatedLength(fp, seen, n, repeats);
      }
    }
  }
}
