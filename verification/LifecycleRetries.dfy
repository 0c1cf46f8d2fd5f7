/** How long a creation keeps trying after KV failures, over whole runs: any other work, on
    this creation or elsewhere, may come between two failures. */
module LifecycleRetries {
  import opened Outcomes
  import opened Lifecycle
  import opened LifecycleSafety
  import opened LifecycleHistory

  // ---------- What is counted ----------

  /** Step k changed the row of this operation. */
  predicate Changes(states: seq<State>, steps: seq<Step>, id: Id, k: nat) {
    && k < |steps| && k + 1 < |states| && Target(steps[k]) == Some(id)
    && id in states[k].ops && id in states[k + 1].ops && states[k + 1].ops[id] != states[k].ops[id]
  }

  predicate Fails(states: seq<State>, steps: seq<Step>, id: Id, k: nat) {
    Changes(states, steps, id, k) && steps[k].DoKvFailure?
  }

  predicate Retries(states: seq<State>, steps: seq<Step>, id: Id, k: nat) {
    Changes(states, steps, id, k) && steps[k].DoRetry?
  }

  predicate Resolves(states: seq<State>, steps: seq<Step>, id: Id, k: nat) {
    Changes(states, steps, id, k) && steps[k].DoResolve?
  }

  /** The KV failures recorded by the steps from `first` up to m. */
  function Failures(states: seq<State>, steps: seq<Step>, id: Id, first: nat, m: nat): nat {
    if m <= first then 0
    else Failures(states, steps, id, first, m - 1) + if Fails(states, steps, id, m - 1) then 1 else 0
  }

  /** The other retryable failures recorded meanwhile, each of which stores a nearer time. */
  function PlainRetries(states: seq<State>, steps: seq<Step>, id: Id, first: nat, m: nat): nat {
    if m <= first then 0
    else PlainRetries(states, steps, id, first, m - 1) + if Retries(states, steps, id, m - 1) then 1 else 0
  }

  /** When the last of those KV failures was recorded. */
  function LastFailure(states: seq<State>, steps: seq<Step>, id: Id, first: nat, m: nat): int
    requires Fails(states, steps, id, first) && first < m
  {
    if m - 1 > first && !Fails(states, steps, id, m - 1) then LastFailure(states, steps, id, first, m - 1)
    else if Fails(states, steps, id, m - 1) then steps[m - 1].now
    else steps[first].now
  }

  /** The first KV failure of a creation that nothing resolves or removes up to m. */
  predicate FirstFailure(states: seq<State>, steps: seq<Step>, id: Id, first: nat, m: nat) {
    && first < m < |states| && |states| == |steps| + 1 && Fails(states, steps, id, first)
    && states[first].ops[id].kvCount == 0 && states[first].ops[id].kvDeadline == None
    && (forall k :: first < k <= m ==> id in states[k].ops)
    && (forall k :: first <= k < m ==> !Resolves(states, steps, id, k))
  }

  /** A failure comes at or after the retry time stored in the row, and a plain retry is not
      dated before the failure that precedes it. */
  predicate PacedAt(states: seq<State>, steps: seq<Step>, id: Id, first: nat, k: nat)
    requires Fails(states, steps, id, first) && first < k
  {
    && (Fails(states, steps, id, k) && states[k].ops[id].nextRetry.Some? ==> states[k].ops[id].nextRetry.value <= steps[k].now)
    && (Retries(states, steps, id, k) ==> LastFailure(states, steps, id, first, k) <= steps[k].now)
  }

  predicate Paced(states: seq<State>, steps: seq<Step>, id: Id, first: nat, m: nat)
    requires FirstFailure(states, steps, id, first, m)
  {
    forall k :: first < k < m ==> PacedAt(states, steps, id, first, k)
  }

  // ---------- One step ----------

  lemma RetryStep(s: State, id: Id, seen: Op, failure: Failed, now: int)
    requires id in s.ops
    ensures var op' := Retry(s, id, seen, failure, now).ops[id];
            op' == s.ops[id] || op' == Retried(s.ops[id], seen, failure, now)
  {
  }

  /** What a step that is neither of the three leaves of the retry accounting. */
  predicate Quiet(op: Op, op': Op) {
    && op'.kv == op.kv && op'.kvCount == op.kvCount && op'.kvDeadline == op.kvDeadline
    && (op'.phase in {Pending, Materializing} ==> op.phase in {Pending, Materializing} && op'.nextRetry == op.nextRetry)
  }

  lemma QuietStep(s: State, step: Step, id: Id)
    requires Inv(s) && Enabled(s, step) && id in s.ops && id in Apply(s, step).ops
    requires Target(step) == Some(id) ==> !step.DoKvFailure? && !step.DoRetry? && !step.DoResolve?
    ensures Quiet(s.ops[id], Apply(s, step).ops[id])
  {
    RowFacts(s, id);
    if Target(step) != Some(id) {
      OtherRowsStay(s, step, id);
      hide Inv, Enabled, Apply;
    } else if step.DoMaterialize? || step.DoActivate? {
      hide Inv, Agrees, EntityMoved, RowSet, ActivateClaims;
    } else {
      OtherTargetsAreQuiet(s, step, id);
    }
  }

  lemma OtherTargetsAreQuiet(s: State, step: Step, id: Id)
    requires Inv(s) && Enabled(s, step) && id in s.ops && id in Apply(s, step).ops && Target(step) == Some(id)
    requires !step.DoKvFailure? && !step.DoRetry? && !step.DoResolve? && !step.DoMaterialize? && !step.DoActivate?
    ensures Quiet(s.ops[id], Apply(s, step).ops[id])
  {
    hide Inv, Agrees, OpValid, EntityMoved, EntityDropped, EntityTaken, RowSet, RowActive, ActivateClaims, DropClaims, ReleaseClaims,
         HiddenRowDropped, KeyUsed, ClaimAll, GuardHolds, DeleteGuard, ReadEarlier, KvFailure, Resolve, Retry, Materialize, Activate;
  }

  // ---------- The accounts of a run ----------

  /** The row after n failures, the last of them at `last`, the first at t0. */
  predicate Counted(op: Op, t0: int, n: nat, last: int) {
    && 1 <= n == op.kvCount <= KV_RETRY_LIMIT && op.kvDeadline == Some(t0 + KV_RETRY_WINDOW_MS)
    && (op.kv == Blocked <==> n == KV_RETRY_LIMIT || last >= t0 + KV_RETRY_WINDOW_MS)
    && (op.kv == Blocked <==> op.phase == TerminalFailed && op.cleanupAt == None)
  }

  /** The earliest that n paced failures with r plain retries among them can take until the
      next one: thirty seconds each, twenty-five less for every plain retry. */
  function PaceBound(t0: int, n: nat, r: nat): int {
    Earlier(t0 + KV_RETRY_WINDOW_MS, t0 + KV_RETRY_DELAY_MS * n - (KV_RETRY_DELAY_MS - RETRY_DELAY_MS) * r)
  }

  predicate OnPace(op: Op, t0: int, n: nat, r: nat, last: int) {
    && n >= 1 && last >= PaceBound(t0, n - 1, r)
    && (op.phase in {Pending, Materializing} ==> op.nextRetry.Some? && op.nextRetry.value >= PaceBound(t0, n, r))
    && (n >= 2 ==> KV_RETRY_DELAY_MS * (n - 2) < KV_RETRY_WINDOW_MS + (KV_RETRY_DELAY_MS - RETRY_DELAY_MS) * r)
  }

  lemma FirstFailureCounts(s: State, id: Id, seen: Op, failure: Failed, now: int)
    requires Inv(s) && Enabled(s, DoKvFailure(id, seen, failure, now)) && id in s.ops
    requires s.ops[id].kvCount == 0 && s.ops[id].kvDeadline == None
    requires KvFailure(s, id, seen, failure, now).ops[id] != s.ops[id]
    ensures var op' := KvFailure(s, id, seen, failure, now).ops[id]; Counted(op', now, 1, now) && OnPace(op', now, 1, 0, now)
  {
    KvFailureStep(s, id, seen, failure, now);
    hide Inv, Enabled, KvFailure;
  }

  /** A further failure was recorded of a row not yet blocked. */
  lemma FailureCounts(op: Op, failure: Failed, now: int, t0: int, n: nat, last: int)
    requires Counted(op, t0, n, last) && op.phase in {Pending, Materializing}
    ensures Counted(KvFailed(op, op, failure, now), t0, n + 1, now)
  {
  }

  lemma FailureOnPace(op: Op, failure: Failed, now: int, t0: int, n: nat, r: nat, last: int)
    requires Counted(op, t0, n, last) && OnPace(op, t0, n, r, last) && op.phase in {Pending, Materializing}
    requires op.nextRetry.Some? ==> op.nextRetry.value <= now
    ensures OnPace(KvFailed(op, op, failure, now), t0, n + 1, r, now)
  {
  }

  lemma RetryCounts(op: Op, seen: Op, failure: Failed, now: int, t0: int, n: nat, last: int)
    requires Counted(op, t0, n, last) && Live(op)
    ensures Counted(Retried(op, seen, failure, now), t0, n, last)
  {
  }

  lemma RetryOnPace(op: Op, seen: Op, failure: Failed, now: int, t0: int, n: nat, r: nat, last: int)
    requires OnPace(op, t0, n, r, last) && last <= now
    ensures OnPace(Retried(op, seen, failure, now), t0, n, r + 1, last)
  {
  }

  lemma QuietCounts(op: Op, op': Op, t0: int, n: nat, last: int)
    requires Counted(op, t0, n, last) && Quiet(op, op') && OpValid(op')
    ensures Counted(op', t0, n, last)
  {
  }

  lemma QuietOnPace(op: Op, op': Op, t0: int, n: nat, r: nat, last: int)
    requires OnPace(op, t0, n, r, last) && Quiet(op, op')
    ensures OnPace(op', t0, n, r, last)
  {
  }

  /** A row that recorded a failure was still pending or materializing. */
  lemma RecordedRowWasOpen(s: State, id: Id, seen: Op, failure: Failed, now: int)
    requires id in s.ops && KvFailure(s, id, seen, failure, now).ops[id] != s.ops[id]
    ensures s.ops[id].phase in {Pending, Materializing}
  {
  }

  /** The accounts after a step, from those before it. */
  lemma StepCounts(s: State, step: Step, id: Id, t0: int, n: nat, last: int)
    requires Inv(s) && Enabled(s, step) && Inv(Apply(s, step)) && id in s.ops && id in Apply(s, step).ops
    requires Counted(s.ops[id], t0, n, last)
    requires Target(step) == Some(id) && step.DoResolve? ==> Apply(s, step).ops[id] == s.ops[id]
    ensures var op, op' := s.ops[id], Apply(s, step).ops[id];
            if Moved(s, step, id) && step.DoKvFailure?
            then Counted(op', t0, n + 1, step.now)
            else Counted(op', t0, n, last)
  {
    var op, op' := s.ops[id], Apply(s, step).ops[id];
    RowFacts(Apply(s, step), id);
    hide Inv, Enabled, Counted, OpValid, Quiet;
    if op' != op {
      if Target(step) == Some(id) && step.DoKvFailure? {
        KvFailureStep(s, id, step.seen, step.failure, step.now);
        RecordedRowWasOpen(s, id, step.seen, step.failure, step.now);
        FailureCounts(op, step.failure, step.now, t0, n, last);
      } else if Target(step) == Some(id) && step.DoRetry? {
        RetryStep(s, id, step.seen, step.failure, step.now);
        RetryCounts(op, step.seen, step.failure, step.now, t0, n, last);
      } else {
        QuietStep(s, step, id);
        QuietCounts(op, op', t0, n, last);
      }
    }
  }

  lemma StepOnPace(s: State, step: Step, id: Id, t0: int, n: nat, r: nat, last: int)
    requires Inv(s) && Enabled(s, step) && id in s.ops && id in Apply(s, step).ops
    requires Counted(s.ops[id], t0, n, last) && OnPace(s.ops[id], t0, n, r, last)
    requires Target(step) == Some(id) && step.DoResolve? ==> Apply(s, step).ops[id] == s.ops[id]
    requires Moved(s, step, id) && step.DoKvFailure? && s.ops[id].nextRetry.Some? ==> s.ops[id].nextRetry.value <= step.now
    requires Moved(s, step, id) && step.DoRetry? ==> last <= step.now
    ensures var op, op' := s.ops[id], Apply(s, step).ops[id];
            if Moved(s, step, id) && step.DoKvFailure? then OnPace(op', t0, n + 1, r, step.now)
            else if Moved(s, step, id) && step.DoRetry? then OnPace(op', t0, n, r + 1, last)
            else OnPace(op', t0, n, r, last)
  {
    var op, op' := s.ops[id], Apply(s, step).ops[id];
    hide Inv, Enabled, Counted, OnPace, Quiet;
    if op' != op {
      if Target(step) == Some(id) && step.DoKvFailure? {
        KvFailureStep(s, id, step.seen, step.failure, step.now);
        RecordedRowWasOpen(s, id, step.seen, step.failure, step.now);
        FailureOnPace(op, step.failure, step.now, t0, n, r, last);
      } else if Target(step) == Some(id) && step.DoRetry? {
        RetryStep(s, id, step.seen, step.failure, step.now);
        RetryOnPace(op, step.seen, step.failure, step.now, t0, n, r, last);
      } else {
        QuietStep(s, step, id);
        QuietOnPace(op, op', t0, n, r, last);
      }
    }
  }

  /** The step changed the row of this operation. */
  predicate Moved(s: State, step: Step, id: Id)
    requires Enabled(s, step) && id in s.ops && id in Apply(s, step).ops
  {
    Target(step) == Some(id) && Apply(s, step).ops[id] != s.ops[id]
  }

  lemma FirstStepCounts(s: State, step: Step, id: Id)
    requires Inv(s) && Enabled(s, step) && id in s.ops && id in Apply(s, step).ops && step.DoKvFailure? && Moved(s, step, id)
    requires s.ops[id].kvCount == 0 && s.ops[id].kvDeadline == None
    ensures var op' := Apply(s, step).ops[id]; Counted(op', step.now, 1, step.now) && OnPace(op', step.now, 1, 0, step.now)
  {
    hide Inv, Counted, OnPace;
    FirstFailureCounts(s, id, step.seen, step.failure, step.now);
  }

  /** The stretch of a run before its last step. */
  lemma OneStepBack(states: seq<State>, steps: seq<Step>, id: Id, first: nat, m: nat)
    requires IsRun(states, steps) && Inv(states[0]) && FirstFailure(states, steps, id, first, m) && m > first + 1
    ensures FirstFailure(states, steps, id, first, m - 1) && id in states[m - 1].ops && id in states[m].ops
    ensures Enabled(states[m - 1], steps[m - 1]) && states[m] == Apply(states[m - 1], steps[m - 1])
    ensures Inv(states[m - 1]) && Inv(states[m])
    ensures Target(steps[m - 1]) == Some(id) && steps[m - 1].DoResolve? ==> states[m].ops[id] == states[m - 1].ops[id]
    ensures Fails(states, steps, id, m - 1) <==> Moved(states[m - 1], steps[m - 1], id) && steps[m - 1].DoKvFailure?
    ensures Retries(states, steps, id, m - 1) <==> Moved(states[m - 1], steps[m - 1], id) && steps[m - 1].DoRetry?
    ensures Paced(states, steps, id, first, m) ==>
              Paced(states, steps, id, first, m - 1) && PacedAt(states, steps, id, first, m - 1)
  {
    hide Inv, Enabled, Apply;
    RunsAreSafe(states, steps, m - 1);
    RunsAreSafe(states, steps, m);
    assert !Resolves(states, steps, id, m - 1);
  }

  lemma {:induction false} RunCounts(states: seq<State>, steps: seq<Step>, id: Id, first: nat, m: nat)
    requires IsRun(states, steps) && Inv(states[0]) && FirstFailure(states, steps, id, first, m)
    ensures id in states[m].ops
    ensures Counted(states[m].ops[id], steps[first].now, Failures(states, steps, id, first, m), LastFailure(states, steps, id, first, m))
    decreases m
  {
    hide Inv, Enabled, Apply, Counted, OnPace;
    if m == first + 1 {
      RunsAreSafe(states, steps, first);
      FirstStepCounts(states[first], steps[first], id);
      assert Failures(states, steps, id, first, first) == 0;
    } else {
      OneStepBack(states, steps, id, first, m);
      RunCounts(states, steps, id, first, m - 1);
      StepCounts(states[m - 1], steps[m - 1], id, steps[first].now, Failures(states, steps, id, first, m - 1),
                 LastFailure(states, steps, id, first, m - 1));
    }
  }

  lemma {:induction false} RunOnPace(states: seq<State>, steps: seq<Step>, id: Id, first: nat, m: nat)
    requires IsRun(states, steps) && Inv(states[0]) && FirstFailure(states, steps, id, first, m)
    requires Paced(states, steps, id, first, m)
    ensures id in states[m].ops
    ensures OnPace(states[m].ops[id], steps[first].now, Failures(states, steps, id, first, m),
                   PlainRetries(states, steps, id, first, m), LastFailure(states, steps, id, first, m))
    decreases m
  {
    hide Inv, Enabled, Apply, Counted, OnPace, Paced;
    if m == first + 1 {
      RunsAreSafe(states, steps, first);
      FirstStepCounts(states[first], steps[first], id);
      assert Failures(states, steps, id, first, first) == 0 && PlainRetries(states, steps, id, first, first) == 0;
    } else {
      OneStepBack(states, steps, id, first, m);
      RunOnPace(states, steps, id, first, m - 1);
      RunCounts(states, steps, id, first, m - 1);
      StepOnPace(states[m - 1], steps[m - 1], id, steps[first].now, Failures(states, steps, id, first, m - 1),
                 PlainRetries(states, steps, id, first, m - 1), LastFailure(states, steps, id, first, m - 1));
    }
  }

  /** From the first KV failure of a creation on, whatever else runs: at most 128 failures are
      recorded; the deadline stays one hour after the first; and the creation is blocked
      exactly from the 128th failure, or the first one at or past the deadline. */
  lemma KvFailuresAreBounded(states: seq<State>, steps: seq<Step>, id: Id, first: nat, m: nat)
    requires IsRun(states, steps) && Inv(states[0]) && FirstFailure(states, steps, id, first, m)
    ensures var n, last := Failures(states, steps, id, first, m), LastFailure(states, steps, id, first, m);
            var deadline := steps[first].now + KV_RETRY_WINDOW_MS;
            && id in states[m].ops
            && 1 <= n == states[m].ops[id].kvCount <= KV_RETRY_LIMIT
            && states[m].ops[id].kvDeadline == Some(deadline)
            && (states[m].ops[id].kv == Blocked <==> n == KV_RETRY_LIMIT || last >= deadline)
  {
    RunCounts(states, steps, id, first, m);
  }

  /** n failures with r plain retries among them took 30 (n - 1) - 25 r seconds at least, or
      reached the deadline; a creation that took an hour is blocked, so that without plain
      retries the 121st failure blocks it. */
  predicate BlocksEarly(op: Op, t0: int, n: nat, r: nat, last: int) {
    var spent := KV_RETRY_DELAY_MS * (n - 1) - (KV_RETRY_DELAY_MS - RETRY_DELAY_MS) * r;
    && last >= Earlier(t0 + KV_RETRY_WINDOW_MS, t0 + spent)
    && (spent >= KV_RETRY_WINDOW_MS ==> op.kv == Blocked)
    && spent < KV_RETRY_WINDOW_MS + KV_RETRY_DELAY_MS
    && (r == 0 ==> n <= 121 && (n == 121 ==> op.kv == Blocked))
  }

  lemma PaceMeans(op: Op, t0: int, n: nat, r: nat, last: int)
    requires Counted(op, t0, n, last) && OnPace(op, t0, n, r, last)
    ensures BlocksEarly(op, t0, n, r, last)
  {
  }

  /** The same run when every failure waits for the retry time stored in the row. */
  lemma PacedFailuresBlockEarly(states: seq<State>, steps: seq<Step>, id: Id, first: nat, m: nat)
    requires IsRun(states, steps) && Inv(states[0]) && FirstFailure(states, steps, id, first, m)
    requires Paced(states, steps, id, first, m)
    ensures id in states[m].ops
    ensures BlocksEarly(states[m].ops[id], steps[first].now, Failures(states, steps, id, first, m),
                        PlainRetries(states, steps, id, first, m), LastFailure(states, steps, id, first, m))
  {
    hide Inv, Enabled, Apply, IsRun, Paced, Counted, OnPace, BlocksEarly;
    RunCounts(states, steps, id, first, m);
    RunOnPace(states, steps, id, first, m);
    PaceMeans(states[m].ops[id], steps[first].now, Failures(states, steps, id, first, m),
              PlainRetries(states, steps, id, first, m), LastFailure(states, steps, id, first, m));
  }
}
