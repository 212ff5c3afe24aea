/**
 * `nvfuse_aio_test_rw`, the bounded-queue-depth AIO driver that both
 * harnesses carry (the copies in regression_test.c and perf.c differ only in
 * whitespace and in what the progress line prints beside the percentage).
 *
 * The storage engine it calls is an oracle: `Env` holds the result of each
 * setup call and, for the calls made inside the loop, a reply per call
 * number. `Wf` states what the model assumes about those replies; the
 * engine's code is not part of this model. The method follows the C control
 * flow statement by statement and returns the run of `AioMachine` states it
 * went through, so every lemma of `AioMachine` applies to it.
 */
module AioDriver {
  import opened Base
  import opened AioMachine

  datatype Env = Env(
    openOk: bool,                       // nvfuse_openfile_path returned a descriptor
    getattrOk: bool,                    // nvfuse_getattr found the file
    allocatedSize: nat,                 // stat_buf.st_size after nvfuse_fallocate
    queueInitOk: bool,                  // nvfuse_aio_queue_init succeeded
    bufferOk: bool,                     // nvfuse_alloc_aligned_buffer returned a buffer
    alloc: (nat, nat) -> Option<nat>,   // (call, io_remaining): None for NULL, else io_remaining afterwards
    submitFails: nat -> bool,           // call: nvfuse_io_submit returned nonzero
    completions: (nat, nat) -> nat,     // (call, cur_depth): count returned by nvfuse_io_getevents
    ioCurr: nat -> nat,                 // round: user_ctx.io_curr when the progress bar is drawn
    elapsed: nat -> bool)               // check: nvfuse_time_since_now(&tv) >= runtime

  /** The oracle calls one run of the driver made. */
  datatype Calls = Calls(
    rounds: nat,       // passes through the loop body, one nvfuse_io_submit each
    allocs: nat,       // calls to nvfuse_aio_test_alloc_req
    polls: nat,        // calls to nvfuse_io_getevents that returned
    clockChecks: nat)  // calls to nvfuse_time_since_now (only made when runtime != 0)

  /** What the model assumes about the engine's replies. */
  ghost predicate Wf(env: Env) {
    // a request, once allocated, takes some of the remaining bytes
    && (forall k, r :: env.alloc(k, r).Some? ==> env.alloc(k, r).value < r)
    // a poll for at least one completion returns between 1 and the number in flight
    && (forall k, d :: 0 < d ==> 1 <= env.completions(k, d) <= d)
    // time does not run backwards
    && (forall i, j :: i <= j && env.elapsed(i) ==> env.elapsed(j))
  }

  /** Open, getattr, queue init and buffer allocation all succeeded. */
  predicate SetupOk(env: Env) {
    env.openOk && env.getattrOk && env.queueInitOk && env.bufferOk
  }

  /** The first `n` calls to `nvfuse_io_submit` succeeded. */
  predicate SubmitsSucceeded(env: Env, n: int)
    decreases n
  {
    n <= 0 || (!env.submitFails(n - 1) && SubmitsSucceeded(env, n - 1))
  }

  lemma {:induction false} SubmitsSucceededAll(env: Env, n: int)
    ensures SubmitsSucceeded(env, n) <==> forall k :: 0 <= k < n ==> !env.submitFails(k)
    decreases n
  {
    if n > 0 {
      SubmitsSucceededAll(env, n - 1);
    }
  }

  /**
   * `io_remaining` after `n` consecutive allocator calls, numbered from
   * `first`, all returned a request; `None` once one of them returned NULL.
   */
  function AfterAllocs(env: Env, first: nat, remaining: nat, n: nat): (r: Option<nat>)
    ensures Wf(env) && r.Some? ==> r.value <= remaining && (n > 0 ==> r.value < remaining)
  {
    if n == 0 then Some(remaining)
    else match AfterAllocs(env, first, remaining, n - 1)
      case None => None
      case Some(rem) => env.alloc(first + n - 1, rem)
  }

  /**
   * `cur_depth` after `n` consecutive waits, numbered from `first`: each
   * retires the completions that `nvfuse_io_getevents` reported. A wait on
   * an empty queue never returns, so the count stops changing there.
   */
  function AfterPolls(env: Env, first: nat, depth: int, n: nat): (r: int)
    ensures Wf(env) && 0 <= depth ==> 0 <= r <= depth && (n > 0 && depth > 0 ==> r < depth)
  {
    if n == 0 then depth
    else
      var d := AfterPolls(env, first, depth, n - 1);
      if d <= 0 then d else d - env.completions(first + n - 1, d)
  }

  /** How a round, or the whole loop, ended. */
  datatype Exit =
    | Continue     // back at the loop condition
    | Drained      // the loop condition failed: nothing left and nothing in flight
    | SubmitError  // `goto CLOSE_FD` after nvfuse_io_submit failed
    | BlockedWait  // nvfuse_io_getevents was entered with nothing in flight
    | BudgetSpent  // the `break` once the budget is spent and the queue is empty

  /** `cur_depth`, `io_remaining` and the engine calls made so far, at the loop condition. */
  datatype Cursor = Cursor(depth: int, remaining: nat, allocs: nat, polls: nat, clocks: nat, rounds: nat)

  /** Where the fill loop stopped: `cur_depth`, `io_remaining`, allocator calls and `idx`. */
  datatype Filled = Filled(depth: int, remaining: nat, allocs: nat, admitted: nat)

  /** Where the completion wait stopped: `cur_depth`, waits, clock readings and why. */
  datatype Polled = Polled(depth: int, polls: nat, clocks: nat, exit: Exit)

  /** Where a round, or the loop, stopped. */
  datatype Stop = Stop(at: Cursor, exit: Exit)

  /**
   * The fill loop from its `idx`-th iteration on, as a function of the
   * allocator's replies: it admits while all three bounds allow, and a NULL
   * reply ends it after one more call.
   */
  function FillSpec(env: Env, qdepth: int, depth: int, remaining: nat, allocs: nat, idx: nat): Filled
    requires idx <= MAX_AIO_CTX
    decreases MAX_AIO_CTX - idx
  {
    if idx == MAX_AIO_CTX || depth >= qdepth || remaining == 0 then Filled(depth, remaining, allocs, idx)
    else match env.alloc(allocs, remaining)
      case None => Filled(depth, remaining, allocs + 1, idx)
      case Some(rem) => FillSpec(env, qdepth, depth + 1, rem, allocs + 1, idx + 1)
  }

  /**
   * The fill loop admits at most MAX_AIO_CTX requests, each adding one to
   * `cur_depth`; it never hands bytes back and takes some whenever it
   * admits a request.
   */
  lemma {:induction false} FillSpecBounds(env: Env, qdepth: int, depth: int, remaining: nat, allocs: nat, idx: nat)
    requires Wf(env) && idx <= MAX_AIO_CTX
    ensures var f := FillSpec(env, qdepth, depth, remaining, allocs, idx);
      && idx <= f.admitted <= MAX_AIO_CTX && f.depth == depth + (f.admitted - idx)
      && f.remaining <= remaining && (f.admitted > idx ==> f.remaining < remaining)
    decreases MAX_AIO_CTX - idx
  {
    if !(idx == MAX_AIO_CTX || depth >= qdepth || remaining == 0) {
      match env.alloc(allocs, remaining)
      case None =>
      case Some(rem) => FillSpecBounds(env, qdepth, depth + 1, rem, allocs + 1, idx + 1);
    }
  }

  /** A request the allocator grants moves the chain of replies on by one call. */
  lemma {:induction false} AfterAllocsShift(env: Env, first: nat, remaining: nat, n: nat, rem: nat)
    requires env.alloc(first, remaining) == Some(rem)
    ensures AfterAllocs(env, first, remaining, n + 1) == AfterAllocs(env, first + 1, rem, n)
  {
    if n > 0 {
      AfterAllocsShift(env, first, remaining, n - 1, rem);
    }
  }

  /**
   * Where the fill loop stops, read back as the allocator's replies: every
   * admitted request came from a granted call, and the loop ended either on
   * a bound, with no call left over, or on one NULL reply asked for while
   * every bound still allowed a request.
   */
  lemma {:induction false} FillSpecAllocs(env: Env, qdepth: int, depth: int, remaining: nat, allocs: nat, idx: nat)
    requires idx <= MAX_AIO_CTX
    ensures var f := FillSpec(env, qdepth, depth, remaining, allocs, idx);
      && idx <= f.admitted
      && AfterAllocs(env, allocs, remaining, f.admitted - idx) == Some(f.remaining)
      && (f.allocs == allocs + (f.admitted - idx) ==> f.admitted == MAX_AIO_CTX || f.depth >= qdepth || f.remaining == 0)
      && (f.allocs != allocs + (f.admitted - idx) ==>
           && f.allocs == allocs + (f.admitted - idx) + 1
           && f.admitted < MAX_AIO_CTX && f.depth < qdepth && f.remaining != 0
           && env.alloc(f.allocs - 1, f.remaining).None?)
    decreases MAX_AIO_CTX - idx
  {
    if !(idx == MAX_AIO_CTX || depth >= qdepth || remaining == 0) {
      match env.alloc(allocs, remaining)
      case None =>
      case Some(rem) =>
        FillSpecAllocs(env, qdepth, depth + 1, rem, allocs + 1, idx + 1);
        var f := FillSpec(env, qdepth, depth + 1, rem, allocs + 1, idx + 1);
        assert FillSpec(env, qdepth, depth, remaining, allocs, idx) == f;
        AfterAllocsShift(env, allocs, remaining, f.admitted - (idx + 1), rem);
    }
  }

  /** The fill loop's result, read from the start of a round, as the allocator's replies. */
  lemma FillResult(env: Env, qdepth: int, depth0: int, remaining0: nat, allocs0: nat, f: Filled)
    requires FillSpec(env, qdepth, depth0, remaining0, allocs0, 0) == f
    ensures AfterAllocs(env, allocs0, remaining0, f.admitted) == Some(f.remaining)
    ensures f.allocs == allocs0 + f.admitted ==> f.admitted == MAX_AIO_CTX || f.depth >= qdepth || f.remaining == 0
    ensures f.allocs != allocs0 + f.admitted ==>
      && f.allocs == allocs0 + f.admitted + 1
      && f.admitted < MAX_AIO_CTX && f.depth < qdepth && f.remaining != 0
      && env.alloc(f.allocs - 1, f.remaining).None?
  {
    FillSpecAllocs(env, qdepth, depth0, remaining0, allocs0, 0);
  }

  /**
   * A round that starts with an empty queue and bytes left to write, and
   * admits nothing, either has no depth to fill or got NULL from the allocator.
   */
  lemma FillResultEmpty(env: Env, qdepth: int, remaining0: nat, allocs0: nat, f: Filled)
    requires remaining0 != 0
    requires FillSpec(env, qdepth, 0, remaining0, allocs0, 0) == f
    ensures f.admitted > 0 || qdepth <= 0 || (f.allocs > 0 && env.alloc(f.allocs - 1, f.remaining).None?)
  {
    if qdepth > 0 {
      match env.alloc(allocs0, remaining0)
      case None =>
      case Some(rem) => FillSpecAllocs(env, qdepth, 1, rem, allocs0 + 1, 1);
    }
  }

  /** A fill step that gets a request admits it and goes on with the next slot. */
  lemma FillSpecAdmits(env: Env, qdepth: int, depth: int, remaining: nat, allocs: nat, idx: nat, rem: nat)
    requires idx < MAX_AIO_CTX && depth < qdepth && remaining != 0 && env.alloc(allocs, remaining) == Some(rem)
    ensures FillSpec(env, qdepth, depth, remaining, allocs, idx) == FillSpec(env, qdepth, depth + 1, rem, allocs + 1, idx + 1)
  {
  }

  /** The fill loop stops at a bound, or after one allocation call that returned NULL. */
  lemma FillSpecStops(env: Env, qdepth: int, depth: int, remaining: nat, allocs: nat, idx: nat, f: Filled)
    requires idx <= MAX_AIO_CTX && f.admitted == idx && f.depth == depth && f.remaining == remaining
    requires f.allocs == allocs ==> idx == MAX_AIO_CTX || depth >= qdepth || remaining == 0
    requires f.allocs != allocs ==>
      && f.allocs == allocs + 1
      && idx < MAX_AIO_CTX && depth < qdepth && remaining != 0 && env.alloc(allocs, remaining).None?
    ensures FillSpec(env, qdepth, depth, remaining, allocs, idx) == f
  {
  }

  /**
   * RETRY_WAIT_COMPLETION as a function of the completion counts and clock
   * readings: it blocks on an empty queue, and otherwise waits again only
   * while the budget is spent and requests are still in flight.
   */
  function PollSpec(env: Env, runtime: int, depth: int, polls: nat, clocks: nat): Polled
    requires Wf(env)
    decreases depth
  {
    if depth <= 0 then Polled(depth, polls, clocks, BlockedWait)
    else
      var left := depth - env.completions(polls, depth);
      var clocks' := if runtime != 0 then clocks + 1 else clocks;
      if runtime == 0 || !env.elapsed(clocks) then Polled(left, polls + 1, clocks', Continue)
      else if left != 0 then PollSpec(env, runtime, left, polls + 1, clocks')
      else Polled(0, polls + 1, clocks', BudgetSpent)
  }

  /**
   * The wait blocks exactly when it is entered with nothing in flight;
   * otherwise it leaves `cur_depth` within `0..depth`, returns to the loop
   * condition with fewer in flight, or leaves the loop with none once a set
   * budget is spent.
   */
  lemma {:induction false} PollSpecBounds(env: Env, runtime: int, depth: int, polls: nat, clocks: nat)
    requires Wf(env)
    ensures var p := PollSpec(env, runtime, depth, polls, clocks);
      && (0 <= depth ==> 0 <= p.depth <= depth)
      && (p.exit == BlockedWait <==> depth <= 0)
      && (p.exit == Continue || p.exit == BudgetSpent || p.exit == BlockedWait)
      && (p.exit == Continue ==> p.depth < depth)
      && (p.exit == BudgetSpent ==> p.depth == 0 && runtime != 0)
    decreases depth
  {
    if depth > 0 {
      var left := depth - env.completions(polls, depth);
      var clocks' := if runtime != 0 then clocks + 1 else clocks;
      if runtime != 0 && env.elapsed(clocks) && left != 0 {
        PollSpecBounds(env, runtime, left, polls + 1, clocks');
      }
    }
  }

  /** Waits counted from the second one on, after the first retired its completions. */
  lemma {:induction false} AfterPollsShift(env: Env, first: nat, depth: int, n: nat)
    requires depth > 0
    ensures AfterPolls(env, first, depth, n + 1)
         == AfterPolls(env, first + 1, depth - env.completions(first, depth), n)
  {
    if n > 0 {
      AfterPollsShift(env, first, depth, n - 1);
    }
  }

  /**
   * The waits `PollSpec` makes are consecutive calls that each retire what
   * they report, and the clock is read once after each of them exactly when
   * a budget is set.
   */
  lemma {:induction false} PollSpecCounts(env: Env, runtime: int, depth: int, polls: nat, clocks: nat)
    requires Wf(env)
    ensures var p := PollSpec(env, runtime, depth, polls, clocks);
      && p.polls >= polls
      && p.depth == AfterPolls(env, polls, depth, p.polls - polls)
      && p.clocks == clocks + (if runtime != 0 then p.polls - polls else 0)
    decreases depth
  {
    if depth > 0 {
      var left := depth - env.completions(polls, depth);
      var clocks' := if runtime != 0 then clocks + 1 else clocks;
      if runtime != 0 && env.elapsed(clocks) && left != 0 {
        PollSpecCounts(env, runtime, left, polls + 1, clocks');
        var p := PollSpec(env, runtime, left, polls + 1, clocks');
        assert PollSpec(env, runtime, depth, polls, clocks) == p;
        AfterPollsShift(env, polls, depth, p.polls - polls - 1);
      }
    }
  }

  /** One pass through the loop body: fill, submit, and wait unless the submission failed. */
  function RoundSpec(env: Env, qdepth: int, runtime: int, c: Cursor): Stop
    requires Wf(env)
  {
    var f := FillSpec(env, qdepth, c.depth, c.remaining, c.allocs, 0);
    if env.submitFails(c.rounds) then
      Stop(Cursor(f.depth, f.remaining, f.allocs, c.polls, c.clocks, c.rounds + 1), SubmitError)
    else
      var p := PollSpec(env, runtime, f.depth, c.polls, c.clocks);
      Stop(Cursor(p.depth, f.remaining, f.allocs, p.polls, p.clocks, c.rounds + 1), p.exit)
  }

  /**
   * A round never raises `io_remaining`, keeps `cur_depth` nonnegative, and
   * when it returns to the loop condition it leaves less to issue or fewer
   * in flight.
   */
  lemma RoundSpecProgress(env: Env, qdepth: int, runtime: int, c: Cursor)
    requires Wf(env) && 0 <= c.depth
    ensures var r := RoundSpec(env, qdepth, runtime, c);
      && 0 <= r.at.depth && r.at.rounds == c.rounds + 1 && r.at.remaining <= c.remaining
      && r.exit != Drained
      && (r.exit == Continue ==>
            r.at.remaining < c.remaining || (r.at.remaining == c.remaining && r.at.depth < c.depth))
  {
    var f := FillSpec(env, qdepth, c.depth, c.remaining, c.allocs, 0);
    FillSpecBounds(env, qdepth, c.depth, c.remaining, c.allocs, 0);
    PollSpecBounds(env, runtime, f.depth, c.polls, c.clocks);
  }

  /** The outer `while` from cursor `c` on, until it is left or blocks. */
  function LoopSpec(env: Env, qdepth: int, runtime: int, c: Cursor): Stop
    requires Wf(env) && 0 <= c.depth
    decreases c.remaining, c.depth
  {
    if !(c.remaining > 0 || c.depth != 0) then Stop(c, Drained)
    else
      RoundSpecProgress(env, qdepth, runtime, c);
      var r := RoundSpec(env, qdepth, runtime, c);
      if r.exit == Continue then LoopSpec(env, qdepth, runtime, r.at) else r
  }

  /**
   * The `i`-th round along `trail`, a list of cursors at successive tests of
   * the loop condition ending with where the loop stopped: the test passed,
   * and the round it let in led to the next cursor. Every round but the last
   * came back to the loop condition; the last one ended for `exit`, unless
   * `exit` is `Drained`, when it came back too and the condition failed.
   */
  ghost predicate RoundLed(env: Env, qdepth: int, runtime: int, trail: seq<Cursor>, i: int, exit: Exit)
    requires Wf(env)
  {
    && 0 <= i < |trail| - 1
    && 0 <= trail[i].depth && (trail[i].remaining > 0 || trail[i].depth != 0)
    && RoundSpec(env, qdepth, runtime, trail[i])
       == Stop(trail[i + 1], if i == |trail| - 2 && exit != Drained then exit else Continue)
  }

  /** The loop ran along `trail` and stopped at its last cursor for `exit`. */
  ghost predicate RanAlong(env: Env, qdepth: int, runtime: int, trail: seq<Cursor>, exit: Exit)
    requires Wf(env)
  {
    && |trail| >= 1 && 0 <= trail[|trail| - 1].depth && exit != Continue
    && (exit != Drained ==> |trail| >= 2)
    && (forall i :: 0 <= i < |trail| - 1 ==> RoundLed(env, qdepth, runtime, trail, i, exit))
    && (exit == Drained ==> trail[|trail| - 1].remaining == 0 && trail[|trail| - 1].depth == 0)
  }

  /**
   * The rounds along a trail are the loop's: from the trail's first cursor
   * `LoopSpec` stops where the trail ends, for the same reason.
   */
  lemma {:induction false} RanAlongLoopSpec(env: Env, qdepth: int, runtime: int, trail: seq<Cursor>, exit: Exit)
    requires Wf(env) && RanAlong(env, qdepth, runtime, trail, exit) && 0 <= trail[0].depth
    ensures LoopSpec(env, qdepth, runtime, trail[0]) == Stop(trail[|trail| - 1], exit)
    decreases |trail|
  {
    if |trail| > 1 {
      assert RoundLed(env, qdepth, runtime, trail, 0, exit);
      RoundSpecProgress(env, qdepth, runtime, trail[0]);
      if |trail| == 2 && exit != Drained {
      } else {
        var rest := trail[1..];
        forall i | 0 <= i < |rest| - 1
          ensures RoundLed(env, qdepth, runtime, rest, i, exit)
        {
          assert RoundLed(env, qdepth, runtime, trail, i + 1, exit);
        }
        RanAlongLoopSpec(env, qdepth, runtime, rest, exit);
      }
    }
  }
  /**
   * A round that finds the queue empty, may admit something, and gets NULL
   * from its first allocation: the submission of nothing succeeds and the
   * wait for one completion never returns.
   */
  predicate RefillFails(env: Env, qdepth: int, c: Cursor) {
    && c.depth == 0 && c.remaining > 0 && qdepth > 0
    && env.alloc(c.allocs, c.remaining).None? && !env.submitFails(c.rounds)
  }

  /** The `i`-th cursor of `trail` starts such a round. */
  predicate RefillFailsAt(env: Env, qdepth: int, trail: seq<Cursor>, i: int) {
    0 <= i < |trail| && RefillFails(env, qdepth, trail[i])
  }

  /** Such a round blocks, having made one allocation call and nothing else. */
  lemma NullIntoEmptyQueueBlocks(env: Env, qdepth: int, runtime: int, c: Cursor)
    requires Wf(env) && RefillFails(env, qdepth, c)
    ensures RoundSpec(env, qdepth, runtime, c) == Stop(c.(allocs := c.allocs + 1, rounds := c.rounds + 1), BlockedWait)
    ensures LoopSpec(env, qdepth, runtime, c) == Stop(c.(allocs := c.allocs + 1, rounds := c.rounds + 1), BlockedWait)
  {
    assert FillSpec(env, qdepth, 0, c.remaining, c.allocs, 0) == Filled(0, c.remaining, c.allocs + 1, 0);
    assert PollSpec(env, runtime, 0, c.polls, c.clocks) == Polled(0, c.polls, c.clocks, BlockedWait);
  }

  /** Along a trail, such a round is the last one, and the run blocked in it. */
  lemma RanAlongBlocksAt(env: Env, qdepth: int, runtime: int, trail: seq<Cursor>, exit: Exit, i: int)
    requires Wf(env) && RanAlong(env, qdepth, runtime, trail, exit)
    requires 0 <= i < |trail| - 1 && RefillFails(env, qdepth, trail[i])
    ensures i == |trail| - 2 && exit == BlockedWait
    ensures trail[|trail| - 1] == trail[i].(allocs := trail[i].allocs + 1, rounds := trail[i].rounds + 1)
  {
    assert RoundLed(env, qdepth, runtime, trail, i, exit);
    NullIntoEmptyQueueBlocks(env, qdepth, runtime, trail[i]);
  }
  /** Along a trail, a round that finds the queue empty and gets NULL at once can only be the last one. */
  lemma RanAlongRefillBlocks(env: Env, qdepth: int, runtime: int, trail: seq<Cursor>, exit: Exit, blocked: bool)
    requires Wf(env) && RanAlong(env, qdepth, runtime, trail, exit)
    requires blocked <==> exit == BlockedWait
    ensures forall i :: 0 <= i < |trail| - 1 && RefillFailsAt(env, qdepth, trail, i) ==> i == |trail| - 2 && blocked
  {
    forall i | 0 <= i < |trail| - 1 && RefillFailsAt(env, qdepth, trail, i)
      ensures i == |trail| - 2 && blocked
    {
      RanAlongBlocksAt(env, qdepth, runtime, trail, exit, i);
    }
  }



  /** A round that came back to the loop condition extends a trail of such rounds. */
  lemma RanAlongSnoc(env: Env, qdepth: int, runtime: int, trail: seq<Cursor>, next: Cursor)
    requires Wf(env) && |trail| >= 1 && 0 <= next.depth
    requires forall i :: 0 <= i < |trail| - 1 ==> RoundLed(env, qdepth, runtime, trail, i, Drained)
    requires var c := trail[|trail| - 1];
      && 0 <= c.depth && (c.remaining > 0 || c.depth != 0)
      && RoundSpec(env, qdepth, runtime, c) == Stop(next, Continue)
    ensures forall i :: 0 <= i < |trail| ==> RoundLed(env, qdepth, runtime, trail + [next], i, Drained)
  {
    forall i | 0 <= i < |trail|
      ensures RoundLed(env, qdepth, runtime, trail + [next], i, Drained)
    {
      if i < |trail| - 1 {
        assert RoundLed(env, qdepth, runtime, trail, i, Drained);
      }
    }
  }

  /** A round that left the loop ends the trail, for the reason it left. */
  lemma RanAlongLeave(env: Env, qdepth: int, runtime: int, trail: seq<Cursor>, final: Cursor, exit: Exit)
    requires Wf(env) && |trail| >= 1
    requires forall i :: 0 <= i < |trail| - 1 ==> RoundLed(env, qdepth, runtime, trail, i, Drained)
    requires var c := trail[|trail| - 1];
      && 0 <= c.depth && (c.remaining > 0 || c.depth != 0) && exit != Continue
      && RoundSpec(env, qdepth, runtime, c) == Stop(final, exit)
    ensures RanAlong(env, qdepth, runtime, trail + [final], exit)
  {
    var c := trail[|trail| - 1];
    RoundSpecProgress(env, qdepth, runtime, c);
    forall i | 0 <= i < |trail|
      ensures RoundLed(env, qdepth, runtime, trail + [final], i, exit)
    {
      if i < |trail| - 1 {
        assert RoundLed(env, qdepth, runtime, trail, i, Drained);
      }
    }
  }

  /**
   * One more round on the trail, from its fill and its wait: it either came
   * back to the loop condition or ended the trail for the reason it left.
   */
  lemma RoundExtendsTrail(env: Env, qdepth: int, runtime: int, trail: seq<Cursor>, f: Filled, submitFailed: bool,
                          p: Polled)
    requires Wf(env) && |trail| >= 1
    requires forall i :: 0 <= i < |trail| - 1 ==> RoundLed(env, qdepth, runtime, trail, i, Drained)
    requires var c := trail[|trail| - 1];
      && 0 <= c.depth && (c.remaining > 0 || c.depth != 0)
      && FillSpec(env, qdepth, c.depth, c.remaining, c.allocs, 0) == f
      && submitFailed == env.submitFails(c.rounds)
      && (!submitFailed ==> PollSpec(env, runtime, f.depth, c.polls, c.clocks) == p)
    ensures var c := trail[|trail| - 1];
      var next := if submitFailed then Cursor(f.depth, f.remaining, f.allocs, c.polls, c.clocks, c.rounds + 1)
                  else Cursor(p.depth, f.remaining, f.allocs, p.polls, p.clocks, c.rounds + 1);
      var exit := if submitFailed then SubmitError else p.exit;
      && (exit == Continue ==> forall i :: 0 <= i < |trail| ==> RoundLed(env, qdepth, runtime, trail + [next], i, Drained))
      && (exit != Continue ==> RanAlong(env, qdepth, runtime, trail + [next], exit))
  {
    var c := trail[|trail| - 1];
    var next := if submitFailed then Cursor(f.depth, f.remaining, f.allocs, c.polls, c.clocks, c.rounds + 1)
                else Cursor(p.depth, f.remaining, f.allocs, p.polls, p.clocks, c.rounds + 1);
    var exit := if submitFailed then SubmitError else p.exit;
    assert RoundSpec(env, qdepth, runtime, c) == Stop(next, exit);
    RoundSpecProgress(env, qdepth, runtime, c);
    if exit == Continue {
      RanAlongSnoc(env, qdepth, runtime, trail, next);
    } else {
      RanAlongLeave(env, qdepth, runtime, trail, next, exit);
    }
  }

  /** The exit a loop state stands for. */
  function Ending(s: LoopState): Exit {
    if s.phase == Hung then BlockedWait
    else if s.submitFailed then SubmitError
    else if s.budgetUp then BudgetSpent
    else if s.phase == Head then Continue
    else Drained
  }

  /** `curr_progress` of one round: `io_curr * 100 / file_size`. */
  function ProgressValue(env: Env, round: nat): int {
    if env.allocatedSize == 0 then 0 else env.ioCurr(round) * 100 / env.allocatedSize
  }

  /** The progress values of the first `n` rounds, in order. */
  function ProgressValues(env: Env, n: nat): (vs: seq<int>)
    ensures |vs| == n
  {
    if n == 0 then [] else ProgressValues(env, n - 1) + [ProgressValue(env, n - 1)]
  }

  function LastOr0(xs: seq<int>): int {
    if xs == [] then 0 else xs[|xs| - 1]
  }

  /**
   * The progress values printed: never the initial 0 first, and never the
   * same value twice in a row.
   */
  predicate Deduplicated(dots: seq<int>) {
    && (|dots| > 0 ==> dots[0] != 0)
    && forall i :: 0 < i < |dots| ==> dots[i] != dots[i - 1]
  }

  /**
   * What the inline progress block prints for the values `vals` computed
   * round after round: a value whenever it differs from `last_progress`,
   * which starts at 0 and is updated to every value printed.
   */
  function Dedup(vals: seq<int>): (dots: seq<int>)
    ensures |dots| <= |vals|
  {
    if vals == [] then []
    else
      var prev := Dedup(vals[..|vals| - 1]);
      var v := vals[|vals| - 1];
      if v != LastOr0(prev) then prev + [v] else prev
  }

  /**
   * The printed values never start with 0 and never repeat the previous
   * one, and the value printed last is the value computed last.
   */
  lemma {:induction false} DedupProperties(vals: seq<int>)
    ensures Deduplicated(Dedup(vals))
    ensures LastOr0(Dedup(vals)) == LastOr0(vals)
  {
    if vals != [] {
      DedupProperties(vals[..|vals| - 1]);
    }
  }

  /**
   * The dots the driver prints in its first `n` rounds, built round by
   * round as the loop builds them.
   */
  function Printed(env: Env, n: nat): (dots: seq<int>)
    ensures |dots| <= n
  {
    if n == 0 then []
    else
      var prev := Printed(env, n - 1);
      var v := ProgressValue(env, n - 1);
      if v != LastOr0(prev) then prev + [v] else prev
  }

  /** Built round by round, the dots are those `Dedup` gives for the progress values. */
  lemma {:induction false} PrintedIsDedup(env: Env, n: nat)
    ensures Printed(env, n) == Dedup(ProgressValues(env, n))
  {
    if n > 0 {
      PrintedIsDedup(env, n - 1);
      assert ProgressValues(env, n)[..n - 1] == ProgressValues(env, n - 1);
    }
  }

  /**
   * Each round prints its value exactly when it differs from the value the
   * previous round computed (0 before the first round): every change is
   * printed, and nothing else.
   */
  lemma DedupPrintsChanges(vals: seq<int>, i: nat)
    requires i < |vals|
    ensures var previous := if i == 0 then 0 else vals[i - 1];
      Dedup(vals[..i + 1]) == if vals[i] != previous then Dedup(vals[..i]) + [vals[i]] else Dedup(vals[..i])
  {
    assert vals[..i + 1][..i] == vals[..i];
    DedupProperties(vals[..i]);
    if i > 0 {
      assert LastOr0(vals[..i]) == vals[i - 1];
    }
  }

  /**
   * The fill loop of one round: admit requests until MAX_AIO_CTX are in
   * this round's list, the queue holds `qdepth`, nothing remains to issue,
   * or the allocator returns NULL. Each admitted request is one allocator
   * reply, and the `idx` requests admitted are the ones submitted.
   */
  method FillRound(env: Env, qdepth: int, runtime: int, ghost init: LoopState, run0: seq<LoopState>,
                   curDepth0: int, ioRemaining0: nat, allocCalls0: nat)
    returns (run: seq<LoopState>, curDepth: int, ioRemaining: nat, idx: nat, allocCalls: nat)
    requires Wf(env)
    requires IsRunFrom(qdepth, runtime, init, run0)
    requires run0[|run0| - 1] == LoopState(Fill, curDepth0, ioRemaining0, 0, false, false)
    ensures IsRunFrom(qdepth, runtime, init, run)
    ensures run[|run| - 1] == LoopState(Fill, curDepth, ioRemaining, idx, false, false)
    ensures idx <= MAX_AIO_CTX && curDepth == curDepth0 + idx
    ensures FillSpec(env, qdepth, curDepth0, ioRemaining0, allocCalls0, 0) == Filled(curDepth, ioRemaining, allocCalls, idx)
  {
    run, curDepth, ioRemaining, allocCalls := run0, curDepth0, ioRemaining0, allocCalls0;
    idx := 0;
    while idx < MAX_AIO_CTX
      invariant IsRunFrom(qdepth, runtime, init, run)
      invariant run[|run| - 1] == LoopState(Fill, curDepth, ioRemaining, idx, false, false)
      invariant idx <= MAX_AIO_CTX && curDepth == curDepth0 + idx
      invariant allocCalls == allocCalls0 + idx
      invariant FillSpec(env, qdepth, curDepth0, ioRemaining0, allocCalls0, 0)
             == FillSpec(env, qdepth, curDepth, ioRemaining, allocCalls, idx)
    {
      if curDepth >= qdepth || ioRemaining == 0 {
        break;
      }
      var admitted;
      run, admitted, curDepth, ioRemaining, idx := AllocOnce(env, qdepth, runtime, init, run, curDepth, ioRemaining, idx, allocCalls);
      allocCalls := allocCalls + 1;
      if !admitted {
        return;
      }
    }
    FillSpecStops(env, qdepth, curDepth, ioRemaining, allocCalls, idx, Filled(curDepth, ioRemaining, allocCalls, idx));
  }

  /** One pass of the fill loop's body, once every bound allows it: one call to the allocator. */
  method AllocOnce(env: Env, qdepth: int, runtime: int, ghost init: LoopState, run0: seq<LoopState>,
                   curDepth0: int, ioRemaining0: nat, idx0: nat, allocCalls0: nat)
    returns (run: seq<LoopState>, admitted: bool, curDepth: int, ioRemaining: nat, idx: nat)
    requires Wf(env)
    requires IsRunFrom(qdepth, runtime, init, run0)
    requires run0[|run0| - 1] == LoopState(Fill, curDepth0, ioRemaining0, idx0, false, false)
    requires idx0 < MAX_AIO_CTX && curDepth0 < qdepth && ioRemaining0 != 0
    ensures IsRunFrom(qdepth, runtime, init, run)
    ensures run[|run| - 1] == LoopState(Fill, curDepth, ioRemaining, idx, false, false)
    ensures admitted <==> env.alloc(allocCalls0, ioRemaining0).Some?
    ensures admitted ==>
      && env.alloc(allocCalls0, ioRemaining0) == Some(ioRemaining)
      && curDepth == curDepth0 + 1 && idx == idx0 + 1
    ensures !admitted ==> ioRemaining == ioRemaining0 && curDepth == curDepth0 && idx == idx0
    ensures FillSpec(env, qdepth, curDepth0, ioRemaining0, allocCalls0, idx0)
         == if admitted then FillSpec(env, qdepth, curDepth, ioRemaining, allocCalls0 + 1, idx)
            else Filled(curDepth, ioRemaining, allocCalls0 + 1, idx)
  {
    var req := env.alloc(allocCalls0, ioRemaining0);
    if req.None? {
      run, admitted, curDepth, ioRemaining, idx := run0, false, curDepth0, ioRemaining0, idx0;
      FillSpecStops(env, qdepth, curDepth, ioRemaining, allocCalls0, idx, Filled(curDepth, ioRemaining, allocCalls0 + 1, idx));
      return;
    }
    FillSpecAdmits(env, qdepth, curDepth0, ioRemaining0, allocCalls0, idx0, req.value);
    admitted, curDepth, ioRemaining, idx := true, curDepth0 + 1, req.value, idx0 + 1;
    var t := LoopState(Fill, curDepth, ioRemaining, idx, false, false);
    Extend(qdepth, runtime, init, run0, t);
    run := run0 + [t];
  }

  /** One `nvfuse_io_getevents` that returns: each completion it reports takes one off `cur_depth`. */
  method WaitOnce(env: Env, curDepth0: int, pollCalls0: nat) returns (curDepth: int, pollCalls: nat)
    requires Wf(env) && curDepth0 > 0
    ensures pollCalls == pollCalls0 + 1
    ensures curDepth == curDepth0 - env.completions(pollCalls0, curDepth0)
    ensures 0 <= curDepth < curDepth0
  {
    var cnt := env.completions(pollCalls0, curDepth0);
    pollCalls := pollCalls0 + 1;
    curDepth := curDepth0;
    var j := 0;
    while j < cnt
      invariant 0 <= j <= cnt && curDepth == curDepth0 - j
    {
      curDepth := curDepth - 1;
      j := j + 1;
    }
  }

  /** One wait that returns, as `PollSpec` sees it: the budget check decides whether another follows. */
  lemma PollSpecWait(env: Env, runtime: int, depth: int, polls: nat, clocks: nat, left: int, timeUp: bool)
    requires Wf(env) && depth > 0
    requires left == depth - env.completions(polls, depth)
    requires timeUp == (runtime != 0 && env.elapsed(clocks))
    ensures var clocks' := if runtime != 0 then clocks + 1 else clocks;
      && (!timeUp ==> PollSpec(env, runtime, depth, polls, clocks) == Polled(left, polls + 1, clocks', Continue))
      && (timeUp && left != 0 ==> PollSpec(env, runtime, depth, polls, clocks) == PollSpec(env, runtime, left, polls + 1, clocks'))
      && (timeUp && left == 0 ==> PollSpec(env, runtime, depth, polls, clocks) == Polled(0, polls + 1, clocks', BudgetSpent))
  {
  }

  /**
   * One wait that returns, then the budget check: with a budget set the
   * clock is read once, and the loop goes round again only when the budget
   * is spent with requests still in flight.
   */
  method WaitAndCheck(env: Env, qdepth: int, runtime: int, ghost init: LoopState, run0: seq<LoopState>, s0: LoopState,
                      curDepth0: int, pollCalls0: nat, clockChecks0: nat)
    returns (run: seq<LoopState>, s: LoopState, curDepth: int, pollCalls: nat, clockChecks: nat, timeUp: bool)
    requires Wf(env) && IsRunFrom(qdepth, runtime, init, run0) && run0[|run0| - 1] == s0
    requires s0.phase == Poll && s0.depth == curDepth0 && curDepth0 > 0 && !s0.submitFailed
    // a spent budget was read off the clock, which does not run backwards
    requires s0.budgetUp ==> runtime != 0 && clockChecks0 > 0 && env.elapsed(clockChecks0 - 1)
    ensures IsRunFrom(qdepth, runtime, init, run) && run[|run| - 1] == s
    ensures pollCalls == pollCalls0 + 1
    ensures curDepth == curDepth0 - env.completions(pollCalls0, curDepth0) && 0 <= curDepth < curDepth0
    // `runtime && nvfuse_time_since_now(&tv) >= runtime`: no clock reading without a budget
    ensures clockChecks == clockChecks0 + (if runtime != 0 then 1 else 0)
    ensures timeUp == (runtime != 0 && env.elapsed(clockChecks0))
    ensures s == s0.(phase := if timeUp then (if curDepth != 0 then Poll else CloseFd) else Head,
                     depth := curDepth, budgetUp := timeUp)
    // the waits still to come are those `PollSpec` gives from here
    ensures PollSpec(env, runtime, curDepth0, pollCalls0, clockChecks0)
         == if s.phase == Poll then PollSpec(env, runtime, curDepth, pollCalls, clockChecks)
            else Polled(curDepth, pollCalls, clockChecks, Ending(s))
  {
    curDepth, pollCalls := WaitOnce(env, curDepth0, pollCalls0);
    timeUp, clockChecks := false, clockChecks0;
    if runtime != 0 {
      timeUp := env.elapsed(clockChecks);
      clockChecks := clockChecks + 1;
    }
    var next := if timeUp then (if curDepth != 0 then Poll else CloseFd) else Head;
    s := s0.(phase := next, depth := curDepth, budgetUp := timeUp);
    Extend(qdepth, runtime, init, run0, s);
    run := run0 + [s];
    PollSpecWait(env, runtime, curDepth0, pollCalls0, clockChecks0, curDepth, timeUp);
  }

  /**
   * The loop behind the `goto RETRY_WAIT_COMPLETION`: one wait and budget
   * check after another, while the budget is spent and requests are still
   * in flight; its end state is the one `PollSpec` gives.
   */
  method RetryWait(env: Env, qdepth: int, runtime: int, ghost init: LoopState, run0: seq<LoopState>,
                   curDepth0: int, pollCalls0: nat, clockChecks0: nat)
    returns (run: seq<LoopState>, s: LoopState, curDepth: int, pollCalls: nat, clockChecks: nat)
    requires Wf(env)
    requires IsRunFrom(qdepth, runtime, init, run0)
    requires var s := run0[|run0| - 1];
      s.phase == Poll && s.depth == curDepth0 && !s.budgetUp && !s.submitFailed
    requires 0 <= curDepth0
    ensures IsRunFrom(qdepth, runtime, init, run) && run[|run| - 1] == s
    ensures PollSpec(env, runtime, curDepth0, pollCalls0, clockChecks0) == Polled(curDepth, pollCalls, clockChecks, Ending(s))
    ensures s == run0[|run0| - 1].(phase := s.phase, depth := curDepth, budgetUp := s.budgetUp)
    ensures s.phase == Head || s.phase == CloseFd || s.phase == Hung
    ensures s.phase == Head ==> !s.budgetUp
    ensures s.phase == Hung ==> !s.budgetUp && pollCalls == pollCalls0
    ensures s.phase != Hung ==>
      pollCalls > pollCalls0 && (s.budgetUp <==> runtime != 0 && clockChecks > 0 && env.elapsed(clockChecks - 1))
  {
    run, curDepth, pollCalls, clockChecks := run0, curDepth0, pollCalls0, clockChecks0;
    s := run[|run| - 1];
    var timeUp := false;
    while true
      invariant IsRunFrom(qdepth, runtime, init, run) && run[|run| - 1] == s
      invariant s == run0[|run0| - 1].(depth := curDepth, budgetUp := timeUp)
      invariant 0 <= curDepth <= curDepth0 && pollCalls0 <= pollCalls
      invariant pollCalls == pollCalls0 ==> !timeUp
      invariant pollCalls != pollCalls0 ==>
                  timeUp && curDepth > 0 && runtime != 0 && clockChecks > 0 && env.elapsed(clockChecks - 1)
      invariant PollSpec(env, runtime, curDepth, pollCalls, clockChecks) == PollSpec(env, runtime, curDepth0, pollCalls0, clockChecks0)
      decreases curDepth
    {
      if curDepth <= 0 {
        // waiting for one completion with nothing in flight
        s := s.(phase := Hung);
        Extend(qdepth, runtime, init, run, s);
        run := run + [s];
        return;
      }
      run, s, curDepth, pollCalls, clockChecks, timeUp := WaitAndCheck(env, qdepth, runtime, init, run, s, curDepth, pollCalls, clockChecks);
      if s.phase != Poll {
        return;
      }
    }
  }

  /**
   * RETRY_WAIT_COMPLETION: wait for at least one completion, retire each one,
   * check the runtime budget, and keep polling while the budget is spent and
   * requests are still in flight. Returns `Head` for the next round,
   * `CloseFd` once the budget is spent and the queue is empty, or `Hung`
   * when the wait is entered with nothing in flight.
   */
  method PollRound(env: Env, qdepth: int, runtime: int, ghost init: LoopState, run0: seq<LoopState>,
                   curDepth0: int, pollCalls0: nat, clockChecks0: nat)
    returns (run: seq<LoopState>, curDepth: int, pollCalls: nat, clockChecks: nat)
    requires Wf(env)
    requires IsRunFrom(qdepth, runtime, init, run0)
    requires var s := run0[|run0| - 1];
      s.phase == Poll && s.depth == curDepth0 && !s.budgetUp && !s.submitFailed
    requires 0 <= curDepth0
    ensures IsRunFrom(qdepth, runtime, init, run)
    // every wait retires the completions it reported, and nothing else changes `cur_depth`
    ensures pollCalls >= pollCalls0 && curDepth == AfterPolls(env, pollCalls0, curDepth0, pollCalls - pollCalls0)
    // the clock is read once per wait, and only when a budget is set
    ensures clockChecks == clockChecks0 + (if runtime != 0 then pollCalls - pollCalls0 else 0)
    ensures PollSpec(env, runtime, curDepth0, pollCalls0, clockChecks0)
         == Polled(curDepth, pollCalls, clockChecks, Ending(run[|run| - 1]))
    ensures var s, s0 := run[|run| - 1], run0[|run0| - 1];
      && s.depth == curDepth && 0 <= curDepth && s.remaining == s0.remaining && !s.submitFailed
      && (s.phase == Head || s.phase == CloseFd || s.phase == Hung)
      && (s.phase == Head ==> 0 <= curDepth < curDepth0 && !s.budgetUp)
      && (s.phase == CloseFd ==> curDepth == 0)
      // the wait blocks only when it is entered with nothing in flight
      && (s.phase == Hung ==> curDepth0 == 0 && !s.budgetUp && pollCalls == pollCalls0)
      // otherwise some wait returned, and the last clock reading decided the budget
      && (s.phase != Hung ==>
            pollCalls > pollCalls0 && (s.budgetUp <==> runtime != 0 && env.elapsed(clockChecks - 1)))
  {
    var s;
    run, s, curDepth, pollCalls, clockChecks := RetryWait(env, qdepth, runtime, init, run0, curDepth0, pollCalls0, clockChecks0);
    PollSpecCounts(env, runtime, curDepth0, pollCalls0, clockChecks0);
    PollSpecBounds(env, runtime, curDepth0, pollCalls0, clockChecks0);
  }


  /**
   * The progress bar of one round. When `io_curr * 100 / file_size` differs
   * from `last_progress`, the value is recorded in `dots` (the C code
   * prints a dot for it) and `last_progress` takes it. The percentage and
   * throughput line printed every tenth percent is not recorded.
   */
  method DrawProgress(env: Env, round: nat, lastProgress0: int, dots0: seq<int>)
    returns (lastProgress: int, dots: seq<int>)
    requires env.allocatedSize > 0
    requires dots0 == Printed(env, round) && lastProgress0 == LastOr0(dots0)
    ensures dots == Printed(env, round + 1) && lastProgress == LastOr0(dots)
  {
    var currProgress := env.ioCurr(round) * 100 / env.allocatedSize;
    lastProgress, dots := lastProgress0, dots0;
    if currProgress != lastProgress {
      dots := dots + [currProgress];
      lastProgress := currProgress;
    }
  }

  /**
   * The first half of one pass through the body of the outer `while`: the
   * fill loop and the progress bar, up to the call to `nvfuse_io_submit`.
   */
  method Admit(env: Env, qdepth: int, runtime: int, ghost init: LoopState, run0: seq<LoopState>, round: nat,
               curDepth0: int, ioRemaining0: nat, lastProgress0: int, dots0: seq<int>, allocCalls0: nat)
    returns (run: seq<LoopState>, curDepth: int, ioRemaining: nat, idx: nat, lastProgress: int, dots: seq<int>,
             allocCalls: nat)
    requires Wf(env) && env.allocatedSize > 0
    requires IsRunFrom(qdepth, runtime, init, run0)
    requires var s := run0[|run0| - 1];
      s == LoopState(Head, curDepth0, ioRemaining0, s.batch, false, false) && MoreWork(s)
    requires 0 <= curDepth0
    requires dots0 == Printed(env, round) && lastProgress0 == LastOr0(dots0)
    ensures IsRunFrom(qdepth, runtime, init, run)
    ensures run[|run| - 1] == LoopState(Submit, curDepth, ioRemaining, idx, false, false)
    ensures dots == Printed(env, round + 1) && lastProgress == LastOr0(dots)
    ensures curDepth == curDepth0 + idx
    ensures FillSpec(env, qdepth, curDepth0, ioRemaining0, allocCalls0, 0) == Filled(curDepth, ioRemaining, allocCalls, idx)
    ensures AfterAllocs(env, allocCalls0, ioRemaining0, idx) == Some(ioRemaining)
    ensures allocCalls == allocCalls0 + idx ==> idx == MAX_AIO_CTX || curDepth >= qdepth || ioRemaining == 0
    ensures allocCalls != allocCalls0 + idx ==>
      && allocCalls == allocCalls0 + idx + 1
      && idx < MAX_AIO_CTX && curDepth < qdepth && ioRemaining != 0
      && env.alloc(allocCalls - 1, ioRemaining).None?
    ensures idx > 0 ==> ioRemaining < ioRemaining0
    ensures idx == 0 ==> ioRemaining == ioRemaining0
    // nothing admitted into an empty queue: the depth allows nothing or the allocator said NULL
    ensures curDepth == 0 ==> qdepth <= 0 || (allocCalls > 0 && env.alloc(allocCalls - 1, ioRemaining).None?)
  {
    var t := LoopState(Fill, curDepth0, ioRemaining0, 0, false, false);
    Extend(qdepth, runtime, init, run0, t);
    run := run0 + [t];
    run, curDepth, ioRemaining, idx, allocCalls := FillRound(env, qdepth, runtime, init, run, curDepth0, ioRemaining0, allocCalls0);
    ghost var f := Filled(curDepth, ioRemaining, allocCalls, idx);
    FillResult(env, qdepth, curDepth0, ioRemaining0, allocCalls0, f);
    FillSpecBounds(env, qdepth, curDepth0, ioRemaining0, allocCalls0, 0);
    if curDepth0 == 0 {
      FillResultEmpty(env, qdepth, ioRemaining0, allocCalls0, f);
    }

    lastProgress, dots := DrawProgress(env, round, lastProgress0, dots0);

    t := LoopState(Submit, curDepth, ioRemaining, idx, false, false);
    Extend(qdepth, runtime, init, run, t);
    run := run + [t];
  }

  /**
   * What holds each time the outer `while` tests its condition, after
   * `rounds` passes through its body: the run so far ends there with no
   * error and an unspent budget, the dots printed are those of the rounds
   * so far, and every submission so far succeeded.
   */
  predicate AtLoopHead(env: Env, qdepth: int, runtime: int, run: seq<LoopState>, dots: seq<int>, rounds: nat,
                       curDepth: int, ioRemaining: nat, lastProgress: int, pollCalls: nat, clockChecks: nat)
  {
    && IsRunFrom(qdepth, runtime, Start(env.allocatedSize), run)
    && run[|run| - 1] == LoopState(Head, curDepth, ioRemaining, run[|run| - 1].batch, false, false)
    && 0 <= curDepth
    && (env.allocatedSize > 0 || (ioRemaining == 0 && curDepth == 0 && rounds == 0))
    && (rounds == 0 ==> ioRemaining == env.allocatedSize && curDepth == 0)
    && dots == Printed(env, rounds) && lastProgress == LastOr0(dots)
    && SubmitsSucceeded(env, rounds)
    && clockChecks == (if runtime != 0 then pollCalls else 0)
    && (runtime == 0 || clockChecks == 0 || !env.elapsed(clockChecks - 1))
  }

  /**
   * How the outer `while` is left after `rounds` passes through its body:
   * by its condition, by a `goto CLOSE_FD`, by the `break` on a spent
   * budget, or blocked in the wait. The dots printed are those of every
   * round; every submission but the last succeeded and the last one decides
   * a submission error; the last clock reading decides the budget; and the
   * wait blocks only when an empty queue could not be refilled, because the
   * queue depth allows nothing or the allocator's last reply was NULL.
   */
  predicate LoopExit(env: Env, qdepth: int, runtime: int, run: seq<LoopState>, dots: seq<int>, rounds: nat,
                     allocCalls: nat, pollCalls: nat, clockChecks: nat)
  {
    && IsRunFrom(qdepth, runtime, Start(env.allocatedSize), run)
    && |run| > 0
    && var s := run[|run| - 1];
    && ((s.phase == Head && !MoreWork(s) && !s.submitFailed && !s.budgetUp) || s.phase == CloseFd || s.phase == Hung)
    && (rounds == 0 <==> env.allocatedSize == 0)
    && dots == Printed(env, rounds)
    && SubmitsSucceeded(env, rounds - 1)
    && (s.submitFailed <==> rounds > 0 && env.submitFails(rounds - 1))
    && clockChecks == (if runtime != 0 then pollCalls else 0)
    && (s.budgetUp <==> runtime != 0 && clockChecks > 0 && env.elapsed(clockChecks - 1))
    && (s.phase == Hung ==> qdepth <= 0 || (allocCalls > 0 && env.alloc(allocCalls - 1, s.remaining).None?))
  }

  /**
   * The second half of one pass through the body of the outer `while`:
   * `nvfuse_io_submit`, then, unless it failed, the completion wait.
   */
  method SubmitAndWait(env: Env, qdepth: int, runtime: int, ghost init: LoopState, run0: seq<LoopState>, round: nat,
                       curDepth0: int, pollCalls0: nat, clockChecks0: nat)
    returns (run: seq<LoopState>, curDepth: int, pollCalls: nat, clockChecks: nat)
    requires Wf(env)
    requires IsRunFrom(qdepth, runtime, init, run0)
    requires var s := run0[|run0| - 1];
      s.phase == Submit && s.depth == curDepth0 && !s.budgetUp && !s.submitFailed
    requires 0 <= curDepth0
    ensures IsRunFrom(qdepth, runtime, init, run)
    ensures var s, s0 := run[|run| - 1], run0[|run0| - 1];
      && s.depth == curDepth && 0 <= curDepth && s.remaining == s0.remaining
      && (s.submitFailed <==> env.submitFails(round))
      && (s.phase == Head || s.phase == CloseFd || s.phase == Hung)
      // a failed submission leaves for CLOSE_FD before any wait
      && (env.submitFails(round) ==>
            && s.phase == CloseFd && !s.budgetUp
            && curDepth == curDepth0 && pollCalls == pollCalls0 && clockChecks == clockChecks0)
      && (!env.submitFails(round) ==>
            && pollCalls >= pollCalls0 && clockChecks == clockChecks0 + (if runtime != 0 then pollCalls - pollCalls0 else 0)
            && PollSpec(env, runtime, curDepth0, pollCalls0, clockChecks0)
               == Polled(curDepth, pollCalls, clockChecks, Ending(s))
            && (s.phase == Head ==> curDepth < curDepth0 && !s.budgetUp)
            && (s.phase == Hung ==> curDepth0 == 0 && !s.budgetUp && pollCalls == pollCalls0)
            && (s.phase != Hung ==>
                  pollCalls > pollCalls0 && (s.budgetUp <==> runtime != 0 && env.elapsed(clockChecks - 1))))
  {
    pollCalls, clockChecks := pollCalls0, clockChecks0;
    var t := run0[|run0| - 1];
    if env.submitFails(round) {
      t := t.(phase := CloseFd, submitFailed := true);
      Extend(qdepth, runtime, init, run0, t);
      run, curDepth := run0 + [t], curDepth0;
    } else {
      t := t.(phase := Poll);
      Extend(qdepth, runtime, init, run0, t);
      run := run0 + [t];
      run, curDepth, pollCalls, clockChecks := PollRound(env, qdepth, runtime, init, run, curDepth0, pollCalls, clockChecks);
    }
  }

  /**
   * One pass through the body of the outer `while`: the fill loop, the
   * progress bar, the submission and the completion wait. It ends back at
   * the loop condition with less work left, at CLOSE_FD after a submission
   * error or once the budget is spent with nothing in flight, or blocked in
   * `nvfuse_io_getevents`.
   */
  method Round(env: Env, qdepth: int, runtime: int, run0: seq<LoopState>, dots0: seq<int>, round: nat,
               curDepth0: int, ioRemaining0: nat, lastProgress0: int,
               allocCalls0: nat, pollCalls0: nat, clockChecks0: nat, ghost trail0: seq<Cursor>)
    returns (run: seq<LoopState>, dots: seq<int>, curDepth: int, ioRemaining: nat, lastProgress: int,
             allocCalls: nat, pollCalls: nat, clockChecks: nat, ghost trail: seq<Cursor>)
    requires Wf(env)
    requires AtLoopHead(env, qdepth, runtime, run0, dots0, round, curDepth0, ioRemaining0, lastProgress0, pollCalls0, clockChecks0)
    requires MoreWork(run0[|run0| - 1])
    // the rounds so far all came back to the loop condition, this one starts at the last
    requires |trail0| >= 1 && trail0[|trail0| - 1] == Cursor(curDepth0, ioRemaining0, allocCalls0, pollCalls0, clockChecks0, round)
    requires forall i :: 0 <= i < |trail0| - 1 ==> RoundLed(env, qdepth, runtime, trail0, i, Drained)
    ensures IsRunFrom(qdepth, runtime, Start(env.allocatedSize), run)
    ensures run[|run| - 1].depth == curDepth && run[|run| - 1].remaining == ioRemaining
    ensures var s := run[|run| - 1];
      // back at the loop condition with less left to issue or fewer in flight ...
      && (s.phase == Head ==>
            && AtLoopHead(env, qdepth, runtime, run, dots, round + 1, curDepth, ioRemaining, lastProgress, pollCalls, clockChecks)
            && (ioRemaining < ioRemaining0 || (ioRemaining == ioRemaining0 && curDepth < curDepth0)))
      // ... or out of the loop
      && (s.phase != Head ==> LoopExit(env, qdepth, runtime, run, dots, round + 1, allocCalls, pollCalls, clockChecks))
    // the trail grows by where this round ended
    ensures trail == trail0 + [Cursor(curDepth, ioRemaining, allocCalls, pollCalls, clockChecks, round + 1)]
    ensures var s := run[|run| - 1];
      && (s.phase == Head ==> forall i :: 0 <= i < |trail| - 1 ==> RoundLed(env, qdepth, runtime, trail, i, Drained))
      && (s.phase != Head ==> RanAlong(env, qdepth, runtime, trail, Ending(s)))
  {
    ghost var init := Start(env.allocatedSize);
    var idx;
    run, curDepth, ioRemaining, idx, lastProgress, dots, allocCalls :=
      Admit(env, qdepth, runtime, init, run0, round, curDepth0, ioRemaining0, lastProgress0, dots0, allocCalls0);
    ghost var f := Filled(curDepth, ioRemaining, allocCalls, idx);
    run, curDepth, pollCalls, clockChecks := SubmitAndWait(env, qdepth, runtime, init, run, round, curDepth, pollCalls0, clockChecks0);
    RoundExtendsTrail(env, qdepth, runtime, trail0, f, env.submitFails(round),
                      Polled(curDepth, pollCalls, clockChecks, Ending(run[|run| - 1])));
    trail := trail0 + [Cursor(curDepth, ioRemaining, allocCalls, pollCalls, clockChecks, round + 1)];
  }

  /**
   * The way out through CLOSE_FD, from the loop condition or from a `goto
   * CLOSE_FD`: queue deinit, buffer free, fsync and close, then return 0.
   */
  method CloseAndReturn(qdepth: int, runtime: int, ghost init: LoopState, run0: seq<LoopState>)
    returns (run: seq<LoopState>)
    requires IsRunFrom(qdepth, runtime, init, run0)
    requires var s := run0[|run0| - 1];
      (s.phase == Head && !MoreWork(s)) || s.phase == CloseFd
    ensures IsRunFrom(qdepth, runtime, init, run)
    ensures var s, s0 := run[|run| - 1], run0[|run0| - 1];
      && s == s0.(phase := Returned, batch := s.batch)
      && s.phase == Returned && s.depth == s0.depth && s.remaining == s0.remaining
      && s.budgetUp == s0.budgetUp && s.submitFailed == s0.submitFailed
  {
    run := run0;
    var s := run[|run| - 1];
    if s.phase == Head {
      // the loop condition failed: `assert(cur_depth == 0)` holds here
      s := s.(phase := CloseFd, batch := 0);
      Extend(qdepth, runtime, init, run, s);
      run := run + [s];
    }
    s := s.(phase := Returned);
    Extend(qdepth, runtime, init, run, s);
    run := run + [s];
  }

  /**
   * The outer `while` from `io_remaining = file_size` on, until the loop
   * condition fails, a `goto CLOSE_FD` or the `break` on a spent budget
   * leaves it, or the wait blocks.
   */
  method Loop(env: Env, qdepth: int, runtime: int)
    returns (run: seq<LoopState>, dots: seq<int>, rounds: nat, allocCalls: nat, pollCalls: nat, clockChecks: nat,
             ghost trail: seq<Cursor>)
    requires Wf(env)
    ensures LoopExit(env, qdepth, runtime, run, dots, rounds, allocCalls, pollCalls, clockChecks)
    // the rounds the engine's replies determine, from `io_remaining = file_size` on
    ensures var s := run[|run| - 1];
      && |trail| >= 1 && trail[0] == Cursor(0, env.allocatedSize, 0, 0, 0, 0)
      && trail[|trail| - 1] == Cursor(s.depth, s.remaining, allocCalls, pollCalls, clockChecks, rounds)
      && RanAlong(env, qdepth, runtime, trail, if s.phase == Head then Drained else Ending(s))
  {
    var ioRemaining: nat := env.allocatedSize;
    var curDepth := 0;
    var lastProgress := 0;
    allocCalls, pollCalls, clockChecks, rounds := 0, 0, 0, 0;
    run, dots := [Start(env.allocatedSize)], [];
    trail := [Cursor(0, env.allocatedSize, 0, 0, 0, 0)];

    while ioRemaining > 0 || curDepth != 0
      invariant AtLoopHead(env, qdepth, runtime, run, dots, rounds, curDepth, ioRemaining, lastProgress, pollCalls, clockChecks)
      invariant |trail| >= 1 && trail[0] == Cursor(0, env.allocatedSize, 0, 0, 0, 0)
      invariant trail[|trail| - 1] == Cursor(curDepth, ioRemaining, allocCalls, pollCalls, clockChecks, rounds)
      invariant forall i :: 0 <= i < |trail| - 1 ==> RoundLed(env, qdepth, runtime, trail, i, Drained)
      decreases ioRemaining, curDepth
    {
      run, dots, curDepth, ioRemaining, lastProgress, allocCalls, pollCalls, clockChecks, trail :=
        Round(env, qdepth, runtime, run, dots, rounds, curDepth, ioRemaining, lastProgress,
              allocCalls, pollCalls, clockChecks, trail);
      rounds := rounds + 1;
      if run[|run| - 1].phase != Head {
        // blocked, a submission error, or the budget is spent and nothing is in flight
        return;
      }
    }
    // the loop condition failed
    assert rounds > 0 ==> !env.submitFails(rounds - 1);
  }

  /**
   * Returns `None` when the driver blocks forever in `nvfuse_io_getevents`,
   * otherwise the C return value; `run` is the sequence of loop states
   * (empty when setup fails), `dots` the progress percentages printed and
   * `calls` how many of each loop-time oracle call the run made.
   */
  method TestRw(env: Env, qdepth: int, runtime: int)
    returns (ret: Option<int>, run: seq<LoopState>, dots: seq<int>, calls: Calls, ghost trail: seq<Cursor>)
    requires Wf(env)
    ensures !SetupOk(env) ==> ret == Some(-1) && run == [] && dots == [] && calls == Calls(0, 0, 0, 0)
    ensures SetupOk(env) ==> IsRunFrom(qdepth, runtime, Start(env.allocatedSize), run) && Terminal(run[|run| - 1])
    ensures ret.None? <==> SetupOk(env) && run[|run| - 1].phase == Hung
    ensures ret.Some? ==> ret.value == (if SetupOk(env) then 0 else -1)
    // the loop body runs exactly when the file is not empty
    ensures SetupOk(env) ==> (calls.rounds == 0 <==> env.allocatedSize == 0)
    // the dots: every round's value that differs from the last one printed
    ensures dots == Dedup(ProgressValues(env, calls.rounds))
    // every submission but the last succeeded, and the run ends on a
    // submission error exactly when the last one failed
    ensures forall k :: 0 <= k < calls.rounds - 1 ==> !env.submitFails(k)
    ensures SetupOk(env) ==> (run[|run| - 1].submitFailed <==> calls.rounds > 0 && env.submitFails(calls.rounds - 1))
    // the clock is read once after each wait that returns, and never without a budget
    ensures calls.clockChecks == (if runtime != 0 then calls.polls else 0)
    // the run ends on the budget exactly when the last clock reading was past it
    ensures SetupOk(env) ==>
      (run[|run| - 1].budgetUp <==> runtime != 0 && calls.clockChecks > 0 && env.elapsed(calls.clockChecks - 1))
    // it blocks only after a round that admitted nothing into an empty queue:
    // the queue depth allows nothing, or the allocator's last reply was NULL
    ensures ret.None? ==>
              qdepth <= 0 || (calls.allocs > 0 && env.alloc(calls.allocs - 1, run[|run| - 1].remaining).None?)
    // the end state, the calls made and the way out are those the engine's replies determine
    ensures SetupOk(env) ==>
      && |trail| >= 1 && trail[0] == Cursor(0, env.allocatedSize, 0, 0, 0, 0)
      && trail[|trail| - 1] == Cursor(run[|run| - 1].depth, run[|run| - 1].remaining, calls.allocs, calls.polls,
                                      calls.clockChecks, calls.rounds)
      && RanAlong(env, qdepth, runtime, trail, Ending(run[|run| - 1]))
    // conversely, a round that finds the queue empty, may admit something and
    // gets NULL from its first allocation is the last one, and it blocks
    ensures SetupOk(env) ==>
      forall i :: 0 <= i < |trail| - 1 && RefillFailsAt(env, qdepth, trail, i) ==> i == |trail| - 2 && ret.None?
  {
    // open, fallocate (whose result is not checked), getattr, queue init and
    // buffer allocation, in that order: the first failure returns -1
    if !env.openOk || !env.getattrOk || !env.queueInitOk || !env.bufferOk {
      return Some(-1), [], [], Calls(0, 0, 0, 0), [];
    }
    // file_size = st_size, io_remaining = file_size: the loop starts at `Start(env.allocatedSize)`
    ret, run, dots, calls, trail := Drive(env, qdepth, runtime);
    RanAlongRefillBlocks(env, qdepth, runtime, trail, Ending(run[|run| - 1]), ret.None?);
  }

  /** The run once setup has succeeded: the outer loop, then what follows it. */
  method Drive(env: Env, qdepth: int, runtime: int)
    returns (ret: Option<int>, run: seq<LoopState>, dots: seq<int>, calls: Calls, ghost trail: seq<Cursor>)
    requires Wf(env)
    ensures IsRunFrom(qdepth, runtime, Start(env.allocatedSize), run) && Terminal(run[|run| - 1])
    ensures ret.None? <==> run[|run| - 1].phase == Hung
    ensures ret.Some? ==> ret.value == 0
    ensures calls.rounds == 0 <==> env.allocatedSize == 0
    ensures dots == Dedup(ProgressValues(env, calls.rounds))
    ensures forall k :: 0 <= k < calls.rounds - 1 ==> !env.submitFails(k)
    ensures run[|run| - 1].submitFailed <==> calls.rounds > 0 && env.submitFails(calls.rounds - 1)
    ensures calls.clockChecks == (if runtime != 0 then calls.polls else 0)
    ensures run[|run| - 1].budgetUp <==> runtime != 0 && calls.clockChecks > 0 && env.elapsed(calls.clockChecks - 1)
    ensures ret.None? ==>
              qdepth <= 0 || (calls.allocs > 0 && env.alloc(calls.allocs - 1, run[|run| - 1].remaining).None?)
    ensures && |trail| >= 1 && trail[0] == Cursor(0, env.allocatedSize, 0, 0, 0, 0)
            && trail[|trail| - 1] == Cursor(run[|run| - 1].depth, run[|run| - 1].remaining, calls.allocs, calls.polls,
                                            calls.clockChecks, calls.rounds)
            && RanAlong(env, qdepth, runtime, trail, Ending(run[|run| - 1]))
    ensures ret.None? <==> Ending(run[|run| - 1]) == BlockedWait
  {
    var rounds, allocCalls, pollCalls, clockChecks;
    run, dots, rounds, allocCalls, pollCalls, clockChecks, trail := Loop(env, qdepth, runtime);
    calls := Calls(rounds, allocCalls, pollCalls, clockChecks);
    SubmitsSucceededAll(env, calls.rounds - 1);
    PrintedIsDedup(env, calls.rounds);
    ret, run := Finish(env, qdepth, runtime, run, dots, calls, trail);
  }

  /**
   * What follows the outer loop: a blocked wait never returns; every other
   * way out goes through CLOSE_FD and returns 0 with the loop's end state.
   */
  method Finish(env: Env, qdepth: int, runtime: int, run0: seq<LoopState>, dots: seq<int>, calls: Calls,
                ghost trail: seq<Cursor>)
    returns (ret: Option<int>, run: seq<LoopState>)
    requires Wf(env)
    requires LoopExit(env, qdepth, runtime, run0, dots, calls.rounds, calls.allocs, calls.polls, calls.clockChecks)
    requires var s := run0[|run0| - 1];
      && |trail| >= 1 && trail[0] == Cursor(0, env.allocatedSize, 0, 0, 0, 0)
      && trail[|trail| - 1] == Cursor(s.depth, s.remaining, calls.allocs, calls.polls, calls.clockChecks, calls.rounds)
      && RanAlong(env, qdepth, runtime, trail, if s.phase == Head then Drained else Ending(s))
    ensures IsRunFrom(qdepth, runtime, Start(env.allocatedSize), run) && Terminal(run[|run| - 1])
    ensures ret.None? <==> run[|run| - 1].phase == Hung
    ensures ret.Some? ==> ret.value == 0
    ensures run[|run| - 1].submitFailed <==> calls.rounds > 0 && env.submitFails(calls.rounds - 1)
    ensures run[|run| - 1].budgetUp <==> runtime != 0 && calls.clockChecks > 0 && env.elapsed(calls.clockChecks - 1)
    ensures ret.None? ==>
              qdepth <= 0 || (calls.allocs > 0 && env.alloc(calls.allocs - 1, run[|run| - 1].remaining).None?)
    ensures && |trail| >= 1 && trail[0] == Cursor(0, env.allocatedSize, 0, 0, 0, 0)
            && trail[|trail| - 1] == Cursor(run[|run| - 1].depth, run[|run| - 1].remaining, calls.allocs, calls.polls,
                                            calls.clockChecks, calls.rounds)
            && RanAlong(env, qdepth, runtime, trail, Ending(run[|run| - 1]))
    ensures ret.None? <==> Ending(run[|run| - 1]) == BlockedWait
  {
    if run0[|run0| - 1].phase == Hung {
      return None, run0;
    }
    run := CloseAndReturn(qdepth, runtime, Start(env.allocatedSize), run0);
    ret := Some(0);
  }

}
