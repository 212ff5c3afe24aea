/**
 * The bounded-queue-depth loop of `nvfuse_aio_test_rw` as a state machine
 * over `cur_depth` and `user_ctx.io_remaining`.
 *
 * One state per program point of the loop:
 *   Head     the `while (io_remaining > 0 || cur_depth)` test
 *   Fill     the `for (idx = 0; idx < MAX_AIO_CTX; idx++)` fill loop
 *   Submit   the call to `nvfuse_io_submit`
 *   Poll     the label RETRY_WAIT_COMPLETION: `nvfuse_io_getevents`, the
 *            per-completion decrement and the runtime check
 *   CloseFd  the label CLOSE_FD: queue deinit, buffer free, fsync, close
 *   Returned the function has returned 0
 *   Hung     `nvfuse_io_getevents` was asked for at least one completion
 *            with nothing in flight, and never returns
 *
 * `Step` allows every transition the code can take for some reply of the
 * storage engine. The replies are constrained only by assumptions about the
 * engine, whose code is not part of this model: a successful allocation
 * consumes part of the remaining bytes, a poll returns between 1 and
 * `cur_depth` completions, completions and their callback leave
 * `io_remaining` alone, and `io_remaining` never goes below zero.
 */
module AioMachine {
  import opened Base

  datatype Phase = Head | Fill | Submit | Poll | CloseFd | Returned | Hung

  datatype LoopState = LoopState(
    phase: Phase,
    depth: int,          // cur_depth
    remaining: nat,      // user_ctx.io_remaining
    batch: nat,          // idx: requests placed in list[] by this round's fill
    budgetUp: bool,      // the last runtime check found the budget spent
    submitFailed: bool)  // nvfuse_io_submit reported an error

  /** The state on entry to the loop, once `io_remaining` holds the file's allocated size. */
  function Start(size: nat): (s: LoopState)
    ensures s.phase == Head && s.depth == 0 && s.remaining == size
    ensures !s.budgetUp && !s.submitFailed
  {
    LoopState(Head, 0, size, 0, false, false)
  }

  /** The condition of the outer `while`. */
  predicate MoreWork(s: LoopState) {
    s.remaining > 0 || s.depth != 0
  }

  /** The fill loop may call the allocator only while all three bounds allow it. */
  predicate CanAdmit(qdepth: int, s: LoopState) {
    s.batch < MAX_AIO_CTX && s.depth < qdepth && s.remaining != 0
  }

  predicate Terminal(s: LoopState) {
    s.phase == Returned || s.phase == Hung
  }

  /**
   * One transition of the loop, for some reply of the storage engine. A
   * finished run has no successor, no transition hands bytes back, and only
   * an allocation within the fill bounds adds a request to the queue.
   */
  predicate Step(qdepth: int, runtime: int, s: LoopState, t: LoopState): (b: bool)
    ensures b ==> !Terminal(s)
    ensures b ==> t.remaining <= s.remaining
    ensures b && t.depth > s.depth ==> s.phase == Fill && CanAdmit(qdepth, s) && t.depth == s.depth + 1
  {
    match s.phase
    case Head =>
      t == s.(phase := if MoreWork(s) then Fill else CloseFd, batch := 0)
    case Fill =>
      // list[idx] received a request: cur_depth++, idx++
      (CanAdmit(qdepth, s) && t.phase == Fill && t.depth == s.depth + 1
       && t.remaining < s.remaining && t.batch == s.batch + 1
       && t.budgetUp == s.budgetUp && t.submitFailed == s.submitFailed)
      // the fill loop ended: a bound was reached or the allocator returned NULL
      || t == s.(phase := Submit)
    case Submit =>
      t == s.(phase := Poll) || t == s.(phase := CloseFd, submitFailed := true)
    case Poll =>
      if s.depth <= 0 then
        t == s.(phase := Hung)
      else
        // between 1 and cur_depth completions, then the runtime check
        && 0 <= t.depth < s.depth
        && t.remaining == s.remaining && t.batch == s.batch
        && t.submitFailed == s.submitFailed
        && (runtime == 0 ==> !t.budgetUp)
        && (s.budgetUp ==> t.budgetUp)
        && t.phase == (if t.budgetUp then (if t.depth != 0 then Poll else CloseFd) else Head)
    case CloseFd =>
      t == s.(phase := Returned)
    case Returned => false
    case Hung => false
  }

  /** The move from `run[i]` to `run[i + 1]` is a step. */
  predicate StepAt(qdepth: int, runtime: int, run: seq<LoopState>, i: int)
    requires 0 <= i < |run| - 1
  {
    Step(qdepth, runtime, run[i], run[i + 1])
  }

  /** `run` is a sequence of states that starts in `init` and follows `Step`. */
  predicate IsRunFrom(qdepth: int, runtime: int, init: LoopState, run: seq<LoopState>) {
    && |run| >= 1
    && run[0] == init
    && forall i :: 0 <= i < |run| - 1 ==> StepAt(qdepth, runtime, run, i)
  }

  /** Appending a state reached by one step keeps a run a run. */
  lemma Extend(qdepth: int, runtime: int, init: LoopState, run: seq<LoopState>, t: LoopState)
    requires IsRunFrom(qdepth, runtime, init, run)
    requires Step(qdepth, runtime, run[|run| - 1], t)
    ensures IsRunFrom(qdepth, runtime, init, run + [t])
  {
    var run' := run + [t];
    forall i | 0 <= i < |run'| - 1
      ensures StepAt(qdepth, runtime, run', i)
    {
      if i < |run| - 1 {
        assert StepAt(qdepth, runtime, run, i);
        assert run'[i] == run[i] && run'[i + 1] == run[i + 1];
      }
    }
  }

  /** The facts every reachable state satisfies. */
  predicate Inv(qdepth: int, runtime: int, s: LoopState) {
    // 0 <= cur_depth <= qdepth (and no request at all when qdepth <= 0)
    && 0 <= s.depth <= Max(qdepth, 0)
    // at most MAX_AIO_CTX per round; this round's requests are all in flight
    && s.batch <= MAX_AIO_CTX
    && (s.phase == Fill || s.phase == Submit ==> s.batch <= s.depth)
    // once the budget is spent nothing is admitted: only polling remains
    && (s.budgetUp ==> runtime != 0 && (s.phase == Poll || s.phase == CloseFd || s.phase == Returned))
    && (s.budgetUp && s.phase == Poll ==> s.depth > 0)
    // assert(cur_depth == 0) on the normal way out
    && (!s.submitFailed && (s.phase == CloseFd || s.phase == Returned) ==> s.depth == 0)
    && (s.submitFailed ==> s.phase == CloseFd || s.phase == Returned)
    && (s.phase == Hung ==> s.depth == 0)
    // an empty queue inside the loop body means there are bytes left to issue
    && ((s.phase == Fill || s.phase == Submit || s.phase == Poll || s.phase == Hung) && s.depth == 0
        ==> s.remaining > 0 && !s.budgetUp)
    // the loop condition is the only other way out: everything was issued
    && ((s.phase == CloseFd || s.phase == Returned) && !s.submitFailed && !s.budgetUp ==> s.remaining == 0)
  }

  lemma InvStart(qdepth: int, runtime: int, size: nat)
    ensures Inv(qdepth, runtime, Start(size))
  {
  }

  lemma InvStep(qdepth: int, runtime: int, s: LoopState, t: LoopState)
    requires Inv(qdepth, runtime, s) && Step(qdepth, runtime, s, t)
    ensures Inv(qdepth, runtime, t)
  {
  }

  /** Every state of every run satisfies the invariant. */
  lemma {:induction false} RunInv(qdepth: int, runtime: int, size: nat, run: seq<LoopState>, i: nat)
    requires IsRunFrom(qdepth, runtime, Start(size), run)
    requires i < |run|
    ensures Inv(qdepth, runtime, run[i])
  {
    if i == 0 {
      InvStart(qdepth, runtime, size);
    } else {
      RunInv(qdepth, runtime, size, run, i - 1);
      assert StepAt(qdepth, runtime, run, i - 1);
      InvStep(qdepth, runtime, run[i - 1], run[i]);
    }
  }

  /** `0 <= cur_depth <= qdepth` and at most MAX_AIO_CTX admissions per round, throughout. */
  lemma DepthBounded(qdepth: int, runtime: int, size: nat, run: seq<LoopState>, i: nat)
    requires IsRunFrom(qdepth, runtime, Start(size), run)
    requires i < |run|
    ensures 0 <= run[i].depth && (qdepth > 0 ==> run[i].depth <= qdepth)
    ensures qdepth <= 0 ==> run[i].depth == 0
    ensures run[i].batch <= MAX_AIO_CTX
  {
    RunInv(qdepth, runtime, size, run, i);
  }

  /** `io_remaining` never grows. */
  lemma {:induction false} RemainingNonIncreasing(qdepth: int, runtime: int, init: LoopState, run: seq<LoopState>, i: nat, j: nat)
    requires IsRunFrom(qdepth, runtime, init, run)
    requires i <= j < |run|
    ensures run[j].remaining <= run[i].remaining
  {
    if i < j {
      RemainingNonIncreasing(qdepth, runtime, init, run, i, j - 1);
      assert StepAt(qdepth, runtime, run, j - 1);
    }
  }

  /**
   * Once the runtime check has fired the budget stays spent and no state
   * after it is a fill: no new request is admitted.
   */
  lemma {:induction false} NoAdmissionAfterBudget(qdepth: int, runtime: int, size: nat, run: seq<LoopState>, i: nat, j: nat)
    requires IsRunFrom(qdepth, runtime, Start(size), run)
    requires i <= j < |run| && run[i].budgetUp
    ensures run[j].budgetUp && run[j].phase != Fill && run[j].phase != Head
  {
    RunInv(qdepth, runtime, size, run, j);
    if i < j {
      NoAdmissionAfterBudget(qdepth, runtime, size, run, i, j - 1);
      RunInv(qdepth, runtime, size, run, j - 1);
      assert StepAt(qdepth, runtime, run, j - 1);
    }
  }

  /** With `runtime == 0` the time check never fires. */
  lemma ZeroRuntimeNeverExpires(qdepth: int, size: nat, run: seq<LoopState>, i: nat)
    requires IsRunFrom(qdepth, 0, Start(size), run)
    requires i < |run|
    ensures !run[i].budgetUp
  {
    RunInv(qdepth, 0, size, run, i);
  }

  /**
   * How a run can end: it returns (after CLOSE_FD) with nothing in flight
   * unless a submission failed, or it blocks in `nvfuse_io_getevents` with
   * an empty queue while bytes remain to be issued. A return that was
   * caused neither by a submission error nor by the runtime budget comes
   * from the loop condition, so every byte was issued.
   */
  lemma Outcomes(qdepth: int, runtime: int, size: nat, run: seq<LoopState>)
    requires IsRunFrom(qdepth, runtime, Start(size), run)
    requires Terminal(run[|run| - 1])
    ensures var last := run[|run| - 1];
      || (last.phase == Returned && (last.submitFailed || last.depth == 0))
      || (last.phase == Hung && last.depth == 0 && last.remaining > 0 && !last.budgetUp)
    ensures var last := run[|run| - 1];
      last.phase == Returned && !last.submitFailed && !last.budgetUp ==> last.remaining == 0
  {
    RunInv(qdepth, runtime, size, run, |run| - 1);
  }

  /**
   * The cleanup label is on every way out that returns: the state before
   * `Returned` is always CLOSE_FD.
   */
  lemma ReturnsOnlyThroughCloseFd(qdepth: int, runtime: int, init: LoopState, run: seq<LoopState>, i: nat)
    requires IsRunFrom(qdepth, runtime, init, run)
    requires 0 < i < |run| && run[i].phase == Returned
    ensures run[i - 1].phase == CloseFd
  {
    assert StepAt(qdepth, runtime, run, i - 1);
  }

  /**
   * With a nonpositive queue depth nothing is ever admitted, so a run over
   * a nonempty file cannot drain normally: it blocks in the first poll, or
   * leaves through a failed submission.
   */
  lemma {:induction false} NonPositiveDepthNeverDrains(qdepth: int, runtime: int, size: nat, run: seq<LoopState>, i: nat)
    requires qdepth <= 0 && size > 0
    requires IsRunFrom(qdepth, runtime, Start(size), run)
    requires i < |run|
    ensures run[i].depth == 0 && run[i].remaining == size
    ensures run[i].phase == CloseFd || run[i].phase == Returned ==> run[i].submitFailed
  {
    RunInv(qdepth, runtime, size, run, i);
    if i > 0 {
      NonPositiveDepthNeverDrains(qdepth, runtime, size, run, i - 1);
      assert StepAt(qdepth, runtime, run, i - 1);
    }
  }

  /**
   * A submission error leaves CLOSE_FD with requests still in flight,
   * including requests an earlier, successful submission handed to the
   * engine: the first round admits two and one completes, the second round
   * admits one more and its submission fails, and the run returns with
   * `cur_depth == 2` while that round placed only one request in `list[]`.
   */
  lemma SubmitErrorAbandonsInFlight()
    ensures var run := [Start(3), LoopState(Fill, 0, 3, 0, false, false),
                        LoopState(Fill, 1, 2, 1, false, false), LoopState(Fill, 2, 1, 2, false, false),
                        LoopState(Submit, 2, 1, 2, false, false), LoopState(Poll, 2, 1, 2, false, false),
                        LoopState(Head, 1, 1, 2, false, false), LoopState(Fill, 1, 1, 0, false, false),
                        LoopState(Fill, 2, 0, 1, false, false), LoopState(Submit, 2, 0, 1, false, false),
                        LoopState(CloseFd, 2, 0, 1, false, true), LoopState(Returned, 2, 0, 1, false, true)];
      && IsRunFrom(4, 0, Start(3), run)
      && run[|run| - 1].phase == Returned && run[|run| - 1].depth == 2 && run[|run| - 1].batch == 1
  {
  }
}
