# NVFUSE benchmark and regression harnesses in Dafny

This project models the integer core of the two NVFUSE test programs:
`examples/regression_test/regression_test.c`, the regression harness, and
`examples/perf/perf.c`, the AIO benchmark. Both drive the NVFUSE storage
engine through its API and report with `printf`. The model covers the
logic between those calls:

- **The AIO driver `nvfuse_aio_test_rw`.** Both files carry a copy; the
  two differ only in whitespace and in what the progress line prints next
  to the percentage. It keeps up to `qdepth` requests in flight and admits at most
  `MAX_AIO_CTX` (256) per round. It polls for completions, and once a
  runtime budget is spent it drains the queue without admitting more.
  `AioMachine` states the loop as a transition relation over `cur_depth`
  and `io_remaining`. `AioDriver.TestRw` follows the C control flow and
  returns the run of machine states it went through, so the lemmas about
  runs hold for it.
- **Progress reporting.** `rt_progress_report` remembers the last
  percentage and prints a dot only when it changes. The driver has an
  inline version of the same idea (`Progress`, `AioDriver.Dedup`).
- **Workload sizing.** Each test picks its item count or file size from
  the test type (`MAX_TEST`, `QUICK_TEST`, `MILL_TEST`) (`Sizing`).
- **The regression driver.** `rt_main` walks the test table and stops at
  the first failure. It publishes one record per passed case.
  `rt_gen_aio_rw` runs a write pass and then a read pass. The `-T` option
  picks the test type (`Regression`).
- **Statistics.** The regression `print_stats` copies records into a
  table and sums device counters (`RegressionStats`). The perf
  `print_stats` folds per-core AIO records into one group record
  (`PerfStats`).
- **The perf command line.** This covers option validation into the
  static settings, `perf_run`'s engine dispatch and `perf_aio`'s cleanup
  (`Perf`).

The storage engine is an oracle. `AioDriver.Env` holds the outcome of each
setup call (open, getattr, queue init, buffer allocation) and the
allocated file size. It also holds, per call number, the reply of each
call made inside the loop: request allocation, submission, completion
count, the progress counter `io_curr`, and whether the runtime budget has
elapsed. The engine's code is not part of this model. `AioDriver.Wf`
states what the model assumes about its replies:

- a successful allocation takes part of the remaining bytes;
- a poll with requests in flight returns between 1 and `cur_depth`
  completions;
- the clock does not run backwards.

Nothing in the harness checks these; the proofs hold for engines that
behave this way.

A poll with nothing in flight asks `nvfuse_io_getevents` for at least one
completion that can never come. The model treats it as blocking forever,
and the methods return `None` for that outcome. Ring messages, `statvfs`
figures and test-function results are parameters.

Behaviours of the code worth knowing:

- **A submission error abandons requests in flight.** On a submission
  error the driver jumps straight to the cleanup label with every earlier
  request still in flight, and returns 0
  (`AioMachine.SubmitErrorAbandonsInFlight`). It does not drain first.
- **perf `-Q` rejects only 0.** A negative queue depth is accepted, and
  so is a missing `-Q`, which leaves it at 0. With such a depth the
  driver never admits a request. Over a nonempty file it blocks in its
  first poll or leaves through a failed submission
  (`Perf.MissingOrNegativeQdepthAccepted`,
  `AioMachine.NonPositiveDepthNeverDrains`).
- **perf `main` never prints statistics once the handle is created.**
  When `nvfuse_create_handle` succeeds, `perf_run` ends the process with
  `exit(0)` whatever the AIO pass returned, so `print_stats(1)` in perf's
  `main` is not reached. Only a failed handle creation returns from
  `perf_run` (`Perf.PerfRun`).
- **`rt_main` returns 0 after a failed case.** The failure path jumps to
  `RET` and returns 0, not an error code (`Regression.RtMain`).

## Model

| member | source | states |
|---|---|---|
| AioMachine.Step | examples/regression_test/regression_test.c:494-552 | one move of the loop: a finished run has no successor, no move gives bytes back, and only an allocation within the three fill bounds adds a request |
| AioMachine.InvStep | examples/regression_test/regression_test.c:494-552 | every move preserves the loop invariant `Inv` |
| AioMachine.RunInv | examples/regression_test/regression_test.c:494-552 | every state of every run from the start state satisfies the loop invariant `Inv` |
| AioMachine.DepthBounded | examples/regression_test/regression_test.c:497-506 | throughout a run `0 <= cur_depth <= qdepth`, and `cur_depth` stays 0 when `qdepth <= 0`; a round admits at most 256 requests |
| AioMachine.RemainingNonIncreasing | examples/regression_test/regression_test.c:500-505 | `io_remaining` never grows along a run |
| AioMachine.NoAdmissionAfterBudget | examples/regression_test/regression_test.c:536-541 | once the runtime check fires it stays fired, and no later state is a fill or a new round: only polling and cleanup remain |
| AioMachine.ZeroRuntimeNeverExpires | examples/regression_test/regression_test.c:536 | with `runtime == 0` the time check never fires |
| AioMachine.Outcomes | examples/regression_test/regression_test.c:494-552 | a finished run either returned with `cur_depth == 0` or after a submission error, or blocked polling an empty queue with bytes left and the budget unspent; a return that followed neither a submission error nor the spent budget left `io_remaining == 0` |
| AioMachine.ReturnsOnlyThroughCloseFd | examples/regression_test/regression_test.c:520-552 | every return is preceded by the CLOSE_FD cleanup, on the normal path and the submission-error path alike |
| AioMachine.NonPositiveDepthNeverDrains | examples/regression_test/regression_test.c:497-499 | with `qdepth <= 0` and a nonempty file nothing is ever admitted, and the run can only return through a submission error |
| AioMachine.SubmitErrorAbandonsInFlight | examples/regression_test/regression_test.c:520-525 | a concrete two-round run with queue depth 4: the first round's request is still in flight when the second round's submission fails, and the run returns with two requests in flight |
| AioDriver.FillSpecBounds | examples/regression_test/regression_test.c:497-506 | the fill loop, as a function of the allocator's replies, admits at most 256 requests, each adding one to `cur_depth`; it never raises `io_remaining` and lowers it whenever it admits something |
| AioDriver.FillSpecAllocs | examples/regression_test/regression_test.c:497-506 | where the fill loop stops, read back as replies: `io_remaining` is what the granted calls left (`AfterAllocs`); it stopped on a bound with no call left over, or after exactly one more call that returned NULL while all three bounds were open |
| AioDriver.FillResult | examples/regression_test/regression_test.c:497-506 | the same from the start of a round, with `idx` starting at 0 |
| AioDriver.FillResultEmpty | examples/regression_test/regression_test.c:497-506 | a round entered with an empty queue and bytes to issue admits a request unless `qdepth <= 0` or the allocator's last reply was NULL |
| AioDriver.AllocOnce | examples/regression_test/regression_test.c:500-505 | one allocator call inside the bounds: the request is admitted exactly when the reply is not NULL, and then `cur_depth` and `idx` grow by one and `io_remaining` is the reply; the fill loop's outcome from here is the outcome from the next slot, or this stop |
| AioDriver.FillRound | examples/regression_test/regression_test.c:497-506 | the fill loop's steps are machine steps, and it ends where `FillSpec` ends for the allocator's replies: the same `cur_depth`, `io_remaining`, allocator calls and `idx` |
| AioDriver.AfterAllocs | examples/regression_test/regression_test.c:500-505 | a chain of successful allocations never increases `io_remaining`, and strictly lowers it when nonempty |
| AioDriver.PollSpecBounds | examples/regression_test/regression_test.c:527-541 | the completion wait blocks exactly when entered with nothing in flight; otherwise `cur_depth` stays within `0..depth`, a return to the loop condition leaves fewer in flight, and leaving on the budget needs a budget and an empty queue |
| AioDriver.PollSpecCounts | examples/regression_test/regression_test.c:527-541 | the waits are consecutive calls that each retire what they report (`AfterPolls`), and the clock is read once after each exactly when a budget is set |
| AioDriver.WaitOnce | examples/regression_test/regression_test.c:529-534 | one returned wait: one more call, and `cur_depth` drops by the reported count, staying nonnegative and strictly lower |
| AioDriver.WaitAndCheck | examples/regression_test/regression_test.c:529-541 | one wait plus the budget check: the machine moves to the loop condition, another wait or cleanup as the clock reply says, and `PollSpec` from before equals `PollSpec` from after, or the stop reached here |
| AioDriver.RetryWait | examples/regression_test/regression_test.c:527-541 | the RETRY_WAIT_COMPLETION loop ends where `PollSpec` ends: at the loop condition without the budget, in cleanup, or blocked without any wait having returned |
| AioDriver.PollRound | examples/regression_test/regression_test.c:527-541 | the completion loop's steps are machine steps; `cur_depth` is what retiring each wait's reported completions leaves (`AfterPolls`); the clock is read once per wait and only when a budget is set; it ends in a new round with a smaller `cur_depth`, in cleanup with an empty queue once the budget is spent, or blocked when entered with an empty queue; the budget counts as spent exactly when the last clock reading said so |
| AioDriver.AfterPolls | examples/regression_test/regression_test.c:530-534 | retiring the reported completions never raises `cur_depth` nor takes it below 0, and strictly lowers a nonempty queue once a wait returns |
| AioDriver.RoundSpecProgress | examples/regression_test/regression_test.c:494-541 | one round as a function of the replies never raises `io_remaining`, keeps `cur_depth` nonnegative, and, when it goes back to the loop condition, leaves less to issue or fewer in flight |
| AioDriver.RanAlongLoopSpec | examples/regression_test/regression_test.c:494-542 | a trail of rounds each given by `RoundSpec` ends where `LoopSpec`, the outer loop as a function of the replies, ends, for the same reason |
| AioDriver.NullIntoEmptyQueueBlocks | examples/regression_test/regression_test.c:497-541 | a round entered with an empty queue, bytes left, `qdepth > 0`, a NULL first allocation and a successful submission blocks in its wait, after one allocator call, and so does the loop from there |
| AioDriver.RanAlongRefillBlocks | examples/regression_test/regression_test.c:494-541 | on a trail of the loop's rounds, a round that starts that way is the last round and the run blocks |
| AioDriver.PrintedIsDedup | examples/regression_test/regression_test.c:509-518 | the dots the loop prints round by round are the deduplication of the progress values |
| AioDriver.DedupProperties | examples/regression_test/regression_test.c:509-518 | the printed values never start with 0 nor repeat the previous one, and the last printed is the last computed |
| AioDriver.DedupPrintsChanges | examples/regression_test/regression_test.c:509-518 | a round prints its value exactly when it differs from the previous round's value (0 before the first) |
| AioDriver.SubmitsSucceededAll | examples/regression_test/regression_test.c:520-525 | the per-round record of successful submissions means every one of the first `n` submissions succeeded |
| AioDriver.DrawProgress | examples/regression_test/regression_test.c:509-518 | one round's progress block extends the printed values as `Dedup` specifies and remembers the last printed value |
| AioDriver.Admit | examples/regression_test/regression_test.c:494-518 | from the loop head, one fill plus progress: it ends where `FillSpec` ends for this round's replies, so `cur_depth` grows by the number admitted, `io_remaining` is what the granted calls left, and an empty queue afterwards means `qdepth <= 0` or a NULL allocation |
| AioDriver.SubmitAndWait | examples/regression_test/regression_test.c:519-541 | the submission and the wait: a failed submission goes to cleanup with the counters unchanged; otherwise the wait ends where `PollSpec` ends for the replies |
| AioDriver.Round | examples/regression_test/regression_test.c:494-542 | one loop iteration ends at the cursor and for the reason `RoundSpec` gives for the replies; it returns to the loop head with `(io_remaining, cur_depth)` lexicographically smaller, or ends in cleanup or blocking |
| AioDriver.CloseAndReturn | examples/regression_test/regression_test.c:544-552 | the CLOSE_FD cleanup moves to the returned state and changes nothing else |
| AioDriver.Loop | examples/regression_test/regression_test.c:494-542 | the outer loop ends in cleanup, at the head with no work, or blocked; its rounds are those `RoundSpec` gives, from `io_remaining = file_size` on, so it ends where `LoopSpec` ends; a submission error exactly when the last submission failed, the budget exactly when the last clock reading was past it |
| AioDriver.Finish | examples/regression_test/regression_test.c:542-552 | after the loop: a blocked run returns nothing; otherwise cleanup and return 0, with the way out unchanged |
| AioDriver.Drive | examples/regression_test/regression_test.c:494-552 | the loop and its cleanup: the run blocks exactly when the rounds the replies determine end in a blocked wait |
| AioDriver.TestRw | examples/regression_test/regression_test.c:417-553 | a setup failure returns -1 with no loop state; otherwise the states visited form a run of the machine ending in return or blocking, and the end state, the engine calls made and the way out are those of the rounds `RoundSpec` gives (so `LoopSpec`'s); conversely a round entered with an empty queue, `qdepth > 0`, a NULL first allocation and a successful submission is the last and the call blocks; the loop runs exactly when the file is nonempty; the dots are `Dedup` of the per-round progress values; all submissions but the last succeeded; the clock is read once per returned wait when a budget is set and never otherwise; it blocks only when `qdepth <= 0` or the allocator's last reply was NULL (the perf.c:61-197 copy differs only in whitespace and in the progress `printf`, which shows MB/s instead of the average request size) |
| Progress.Percent | examples/regression_test/regression_test.c:92 | the percentage `(curr + 1) * 100 / max` with truncating division, nonnegative for nonnegative items and a positive total |
| Progress.PercentAsWritten | examples/regression_test/regression_test.c:92 | the same expression in 32-bit arithmetic agrees with `Percent` whenever the product fits in 32 bits |
| Progress.PercentRange | examples/regression_test/regression_test.c:86-92 | for `0 <= curr < max` the percentage lies in 0..100 and is 100 at `curr == max - 1` |
| Progress.PercentMonotone | examples/regression_test/regression_test.c:92 | later items never give a smaller percentage |
| Progress.PercentOverflows | examples/regression_test/regression_test.c:92 | item 21,474,836 of 30,000,000 yields -71 in 32-bit arithmetic against 71 intended |
| Progress.ProgressMeter.constructor | examples/regression_test/regression_test.c:60 | `last_percent` starts at 0 |
| Progress.ProgressMeter.Reset | examples/regression_test/regression_test.c:81-84 | reset sets the remembered percentage to 0 |
| Progress.ProgressMeter.Report | examples/regression_test/regression_test.c:86-102 | prints nothing and keeps the state when the percentage is unchanged; otherwise remembers it and prints a dot, plus "N%" exactly for multiples of 10 |
| Progress.ReportPhase | examples/regression_test/regression_test.c:149-171 | a reset-then-loop phase succeeds exactly when every item's operation does; the dotted percentages strictly increase within 1..100 and end at 100 after a complete nonempty phase |
| Sizing.DecodeTestType | examples/regression_test/regression_test.c:104-116 | a name exists exactly for test types 1..3 |
| Sizing.DecodeInjective | examples/regression_test/regression_test.c:104-116 | distinct test types have distinct names |
| Sizing.InodeCount | examples/regression_test/regression_test.c:133-147 | defined exactly for types 1..3: MAX uses all free inodes, QUICK 100, MILL the smaller of the free inodes and one million |
| Sizing.FileBytes | examples/regression_test/regression_test.c:357-373 | the file size is defined exactly for types 1..3 |
| Sizing.MillFileFitsFreeSpace | examples/regression_test/regression_test.c:624-640 | the MILL size never exceeds the free space, its cap, or the MAX size |
| Sizing.FileBytesClusterAligned | examples/regression_test/regression_test.c:664-680 | every chosen size is a whole number of 4096-byte clusters when the cap is |
| Sizing.SmallFileCount | examples/regression_test/regression_test.c:711-727 | defined exactly for types 1..3: MAX half the free clusters, QUICK 100, MILL the smaller of that half and one million |
| Regression.PassedPrefix | examples/regression_test/regression_test.c:859-866 | counts the cases before the first failing one: all of those pass, and the case at that index fails unless the table is exhausted |
| Regression.Records | examples/regression_test/regression_test.c:873-878 | the `k`-th published record carries the caller's core number and sequence `k` |
| Regression.StatRing.Put | examples/regression_test/regression_test.c:881 | a put appends the record to the ring |
| Regression.RtMain | examples/regression_test/regression_test.c:823-904 | handle or ring failure returns -1 and publishes nothing; otherwise exactly one record per leading passed case is published in order, and the result is 0 even after a failed case, -1 only if the rusage ring lookup fails after a full pass |
| Regression.RtGenAioRw | examples/regression_test/regression_test.c:555-608 | the write pass comes first; the read pass only follows a successful write pass and removal; every path that returns ends by removing the file; a write failure returns -1 after removing it; the result is 0 exactly when both passes and both removals succeed |
| Regression.ParseTestType | examples/regression_test/regression_test.c:1159-1171 | options are accepted exactly when all are `-T` with a value in 1..3; the last one wins, QUICK_TEST by default, and the chosen type has a name |
| RegressionStats.PlaceContents | examples/regression_test/regression_test.c:940-958 | with distinct slots each received record ends up in its own slot and every other slot is untouched |
| RegressionStats.PlaceOrderIndependent | examples/regression_test/regression_test.c:940-958 | any two arrival orders of the same records produce the same table |
| RegressionStats.GatherRtStats | examples/regression_test/regression_test.c:906-958 | a failed ring lookup returns before anything is received, with no record placed; otherwise, under the assertion of line 946, the table has `num_cores * num_tc` slots and holds the received records at their slots; the gather completes exactly when the lookup succeeds and enough records arrive |
| RegressionStats.ReceiveRtStats | examples/regression_test/regression_test.c:940-958 | the receive loop places each received record at its slot and stops at the first failed receive |
| RegressionStats.PublishedRecordsBreakAssertion | examples/regression_test/regression_test.c:946 | the records `rt_main` publishes from lcore 1 put the last of the 8 cases at slot 8 of an 8-slot table, violating the assertion |
| RegressionStats.CorrectedPlacementFillsTable | examples/regression_test/regression_test.c:956 | placed relative to the worker core, a full run's records are in range, distinct, and fill slot `k` with case `k` |
| RegressionStats.SumDevConcat | examples/regression_test/regression_test.c:992-1003 | the device-counter sum over a concatenation is the sum of the parts' sums |
| RegressionStats.SumDevSingle | examples/regression_test/regression_test.c:992-1003 | with one core the sum is that core's counters |
| RegressionStats.SumDeviceStats | examples/regression_test/regression_test.c:979-1003 | the sum exists exactly when the lookup and all `num_cores` receives succeed, and is then the field-wise sum of the received counters |
| Perf.ValidBlockSizeIff | examples/perf/perf.c:419-425 | `-B` is accepted exactly when it is a positive multiple of 4096 |
| Perf.EngineByName | examples/perf/perf.c:426-435 | `-E` names an engine exactly for "libaio" and "sync" |
| Perf.AcceptsIffAllValid | examples/perf/perf.c:413-462 | an option list is accepted exactly when each option is valid |
| Perf.FlagsSetIffGiven | examples/perf/perf.c:443-451 | after an accepted list, `-R`, `-D` and `-W` are 1 exactly when given and otherwise keep their value |
| Perf.AcceptedValuesChecked | examples/perf/perf.c:419-457 | every setting an accepted list changed passed its check: block size, nonzero depth, nonzero runtime, a named engine |
| Perf.MissingOrNegativeQdepthAccepted | examples/perf/perf.c:436-441 | a list without `-Q` is accepted with depth 0, and `-Q -1` is accepted |
| Perf.PerfGlobals.constructor | examples/perf/perf.c:245-252 | every static setting starts at 0 |
| Perf.PerfGlobals.ParseOptions | examples/perf/perf.c:413-462 | the option loop leaves the settings and verdict that `ApplyOpts` specifies, including values stored before their check failed |
| Perf.PerfMain | examples/perf/perf.c:391-486 | no arguments or a rejected core argument return -1 with settings untouched; otherwise the options are applied, and the result is 0 exactly when they are valid and SPDK configuration succeeds |
| Perf.PerfAio | examples/perf/perf.c:199-225 | the file is removed whenever the pass returns, even after a setup failure; the result is -1 exactly when the removal fails |
| Perf.PerfRun | examples/perf/perf.c:347-373 | only the AIO engine runs a workload, of `file_size` MB; the process exits with status 0 whatever the workload returned |
| PerfStats.FoldMinIsMinimum | examples/perf/perf.c:311-330 | the group minimum latency is at most every core's minimum and equals one of them; it stays all ones with no record |
| PerfStats.FoldMaxIsMaximum | examples/perf/perf.c:312-332 | the group maximum latency is at least every core's maximum and is either 0 or one of them |
| PerfStats.FoldConcat | examples/perf/perf.c:315-338 | folding two batches and combining them equals folding all records |
| PerfStats.SingleCoreGroupIsRecord | examples/perf/perf.c:340 | with one core, as `main` calls it at line 476, the group record equals that core's record |
| PerfStats.AggregateAio | examples/perf/perf.c:290-345 | the group record exists exactly when the lookup and all `num_cores` receives succeed, and is then the fold of the received records with the execution time divided by `num_cores` |

## Left out

- Storage-engine calls are not modelled. These are open, fallocate,
  getattr, rmfile, mkdir, rmdir, mkfile, statvfs, fsync, handle creation
  and the AIO primitives. They are foreign code, so each is an oracle
  reply or a boolean parameter.
- Wall-clock time is a per-check boolean "budget elapsed". Floating-point
  reporting is not modelled: throughput, averages, latency ratios and
  `_print_stats`.
- The SPDK/DPDK plumbing is left out: reactor, events, message rings,
  mempools, core-argument parsing. Ring contents are sequences given to
  the gathering methods. Only lcore 1 runs a workload, so nothing is
  concurrent.
- The contents of `list[]` are not modelled. Neither is whatever
  `nvfuse_aio_test_callback` records. The model tracks request counts
  only. How `io_remaining` and `io_curr` change inside the engine is not
  visible, so the model only assumes allocation consumes bytes.
- The direction (`is_read`), `is_rand`, `is_direct` and `io_size`
  arguments are not modelled. Their effects are inside the engine, and
  the `READ`/`WRITE` values come from a header that is not part of this
  model.
- The metadata tests are not modelled beyond their sizing and progress
  loops: `rt_create_files`, `rt_create_dirs`, `rt_create_max_sized_file`
  and `rt_create_4KB_files`. `Regression.RtMain` takes each test
  function's result as a parameter.
- The two AIO test wrappers `rt_create_max_sized_file_aio_4KB` and
  `rt_create_max_sized_file_aio_128KB` are represented by their parts:
  `Sizing.FileBytes` with the 128 GB cap, and `Regression.RtGenAioRw`.
- Sizing.InodeCount: counts are unbounded. Storing `f_ffree` or
  `f_bfree / 2` in a 32-bit `s32` count is not modelled.
- Sizing.SmallFileCount: the same 32-bit truncation of the count is not
  modelled.
- PerfStats.AggregateAio: the 64-bit counter sums are unbounded, without
  wrap-around. The `timeval_add` and rusage accumulation is left out
  because it is external struct arithmetic.
- RegressionStats.SumDeviceStats: the device counter sums are unbounded,
  without wrap-around.
- Progress.ProgressMeter.Report uses the overflow-free percentage. The
  32-bit version is `Progress.PercentAsWritten` (see Findings).
- Perf.PerfRun: the engine that an unset `ioengine` (no `-E`) selects is
  unknown, because `AIO`'s value is in a header. The model treats an
  unset engine as neither AIO nor sync.
- `nvfuse_io_getevents` and `nvfuse_aio_test_callback` are assumed to
  leave `io_remaining` alone: a poll step keeps it unchanged. Their code
  is not part of this model.
- `io_remaining` is a `nat`: the engine is assumed never to take more
  bytes than remain. In C a negative `io_remaining` would keep the outer
  loop going while `cur_depth != 0` (line 495), and the fill test
  `io_remaining == 0` (line 498) would go on admitting requests. The model
  does not cover that.
- AioMachine.Outcomes: `last.remaining > 0` on a blocked run, and the
  conjunct of `Inv` behind it, rest on the assumption that a NULL
  allocation leaves `io_remaining` unchanged. `nvfuse_aio_test_alloc_req`
  is not part of this model; one that took bytes and then returned NULL
  could leave a run blocked with `io_remaining == 0`.
- Termination of `AioDriver.Loop` rests on the assumption in `Wf` that
  every successful allocation strictly lowers `io_remaining`. An engine
  that handed out zero-byte requests could keep the C loop running
  forever.
- perf with `-B` omitted passes `block_size` 0 (its static initial value,
  examples/perf/perf.c:246, passed at examples/perf/perf.c:363) as
  `io_size`. Allocations of 0 bytes break the assumption above, and with
  `runtime == 0` the C loop may then never end. The model does not cover
  that case.
- AioMachine.NonPositiveDepthNeverDrains is about the loop only. With a
  depth of 0 or less, `nvfuse_aio_queue_init` (line 477) or the buffer
  allocation of `io_size * qdepth` bytes (line 487) may fail first, and
  `AioDriver.TestRw` then returns -1 before the loop.
- Progress.ReportPhase: its promise (percentages strictly increasing
  within 1..100) is proved for the overflow-free `Percent`. In C the
  product overflows for `max` above 21,474,836 and the printed values can
  be negative or decrease (see Findings).
- The non-Linux build is not modelled. There `file_size` is not replaced
  by the allocated size.
- `malloc` failure in both `print_stats` is not handled by the source. It
  is not modelled, and neither are leaks on early returns.
- The rusage records and `print_rusage` are not modelled, and neither is
  the IPC latency block of the regression `print_stats`.

## Findings

| source | as written | input that shows it | evidently intended | confidence | as-written member | corrected member |
|---|---|---|---|---|---|---|
| examples/regression_test/regression_test.c:946 | the slot is `sequence * num_cores + lcore_id`, but the only worker is lcore 1 and `main` passes `num_cores` = 1 | the 8th passed case publishes sequence 7 from lcore 1: slot 8 in an 8-slot table, so the assertion fails (or the copy overruns the table) | slot `sequence * num_cores + (lcore_id - 1)`, the core's index among the workers | not executed | RegressionStats.PublishedRecordsBreakAssertion | RegressionStats.CorrectedPlacementFillsTable |
| examples/regression_test/regression_test.c:92 | `(curr + 1) * 100` is computed in 32-bit `int` | MAX_TEST with 30,000,000 free inodes: item 21,474,836 reports -71 instead of 71 | a percentage in 0..100 that never decreases, e.g. computed in 64 bits | not executed | Progress.PercentOverflows | Progress.PercentRange |
