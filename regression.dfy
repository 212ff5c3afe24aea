/**
 * The regression harness around the AIO driver: the table of test cases,
 * `rt_main`'s fail-fast walk over it, `rt_gen_aio_rw`'s write-then-read
 * sequencing, and the `-T` option of `main`.
 */
module Regression {
  import opened Base
  import opened AioDriver
  import opened Sizing

  const SEQUENTIAL: int := 0
  const RANDOM: int := 1

  /** The test functions the table points at. */
  datatype TestFunction =
    | CreateFiles | CreateDirs | CreateMaxSizedFile
    | CreateMaxSizedFileAio4KB | CreateMaxSizedFileAio128KB | Create4KBFiles

  /** One entry of `rt_ctx[]`; `pass_criteria_ignore` is never read and is not kept. */
  datatype RtCase = RtCase(test: TestFunction, name: string, arg: int, passCriteria: int)

  const RT_CASES: seq<RtCase> := [
    RtCase(CreateFiles, "Creating Max Number of Files.", 0, 0),
    RtCase(CreateDirs, "Creating Max Number of Directories.", 0, 0),
    RtCase(CreateMaxSizedFile, "Creating Maximum Sized Single File.", 0, 0),
    RtCase(CreateMaxSizedFileAio4KB, "Creating Maximum Sized Single File with 4KB Sequential AIO Read and Write.", SEQUENTIAL, 0),
    RtCase(CreateMaxSizedFileAio4KB, "Creating Maximum Sized Single File with 4KB Random AIO Read and Write.", RANDOM, 0),
    RtCase(CreateMaxSizedFileAio128KB, "Creating Maximum Sized Single File with 128KB Sequential AIO Read and Write.", SEQUENTIAL, 0),
    RtCase(CreateMaxSizedFileAio128KB, "Creating Maximum Sized Single File with 128KB Random AIO Read and Write.", RANDOM, 0),
    RtCase(Create4KBFiles, "Creating 4KB files with fsync.", 0, 0)
  ]

  /** The integer fields of an `RT_STAT` record; `total_time` is a measured duration and is not kept. */
  datatype RtStat = RtStat(lcoreId: int, sequence: int)

  /** The test fails only when its criterion is 0 and the result differs from it. */
  predicate CaseFails(c: RtCase, result: int) {
    c.passCriteria == 0 && result != c.passCriteria
  }

  /**
   * The number of leading cases that pass: every case before it passes and,
   * unless the whole table passed, the case at it fails.
   */
  function PassedPrefix(cases: seq<RtCase>, results: seq<int>): (n: nat)
    requires |results| == |cases|
    ensures n <= |cases|
    ensures forall i :: 0 <= i < n ==> !CaseFails(cases[i], results[i])
    ensures n < |cases| ==> CaseFails(cases[n], results[n])
  {
    if cases == [] then 0
    else if CaseFails(cases[0], results[0]) then 0
    else 1 + PassedPrefix(cases[1..], results[1..])
  }

  /** The records of the first `n` passed cases, as stamped by core `lcoreId`. */
  function Records(lcoreId: int, n: nat): (rs: seq<RtStat>)
    ensures |rs| == n
    ensures forall i :: 0 <= i < n ==> rs[i] == RtStat(lcoreId, i)
  {
    seq(n, i => RtStat(lcoreId, i))
  }

  /** The `RT_STAT` message ring: records are appended in the order they are put. */
  class StatRing {
    var items: seq<RtStat>

    constructor()
      ensures items == []
    {
      items := [];
    }

    method Put(stat: RtStat)
      modifies this
      ensures items == old(items) + [stat]
    {
      items := items + [stat];
    }
  }

  /**
   * `rt_main(arg)`: run the cases in table order, stop at the first
   * failure, and publish one record per passed case before moving on.
   * `results[i]` is what case `i`'s test function returns.
   */
  method RtMain(arg: int, handleOk: bool, ringOk: bool, rusageRingOk: bool, results: seq<int>, ring: StatRing)
    returns (ret: int)
    requires |results| == |RT_CASES|
    modifies ring
    ensures !(handleOk && ringOk) ==> ret == -1 && ring.items == old(ring.items)
    ensures handleOk && ringOk ==>
      var n := PassedPrefix(RT_CASES, results);
      && ring.items == old(ring.items) + Records(arg, n)
      && ret == (if n == |RT_CASES| && !rusageRingOk then -1 else 0)
  {
    if !handleOk {
      return -1;
    }
    if !ringOk {
      return -1;
    }
    var cur := 0;
    while cur < |RT_CASES|
      invariant 0 <= cur <= |RT_CASES|
      invariant forall i :: 0 <= i < cur ==> !CaseFails(RT_CASES[i], results[i])
      invariant ring.items == old(ring.items) + Records(arg, cur)
    {
      var index := cur + 1;
      if CaseFails(RT_CASES[cur], results[cur]) {
        // goto RET: a failed run still returns 0
        return 0;
      }
      ring.Put(RtStat(arg, index - 1));
      assert Records(arg, cur + 1) == Records(arg, cur) + [RtStat(arg, cur)];
      cur := cur + 1;
    }
    // the rusage record goes to its own ring
    if !rusageRingOk {
      return -1;
    }
    return 0;
  }

  /** One `nvfuse_aio_test_rw` pass with no time budget, of which `rt_gen_aio_rw` keeps only the result. */
  method AioPass(env: Env, qdepth: int) returns (res: Option<int>)
    requires Wf(env)
    ensures !SetupOk(env) ==> res == Some(-1)
    ensures res.Some? ==> res.value == (if SetupOk(env) then 0 else -1)
  {
    var r, run, dots, calls, trail := TestRw(env, qdepth, 0);
    res := r;
  }

  /** What `rt_gen_aio_rw` asks of the engine, in order. */
  datatype Action = WritePhase | RemoveFile | ReadPhase

  /**
   * `rt_gen_aio_rw`: an AIO write pass, removal of the file, an AIO read
   * pass and a second removal, both passes with no time budget. `rmOk(k)`
   * is the outcome of the `k`-th `nvfuse_rmfile_path` call. `None` means a
   * pass blocked forever.
   */
  method RtGenAioRw(writeEnv: Env, readEnv: Env, rmOk: nat -> bool, qdepth: int)
    returns (ret: Option<int>, actions: seq<Action>)
    requires Wf(writeEnv) && Wf(readEnv)
    ensures |actions| > 0 && actions[0] == WritePhase
    ensures ret.Some? ==> (ret.value == 0 || ret.value == -1) && actions[|actions| - 1] == RemoveFile
    ensures ReadPhase in actions ==>
      |actions| >= 3 && actions[..3] == [WritePhase, RemoveFile, ReadPhase] && SetupOk(writeEnv) && rmOk(0)
    ensures !SetupOk(writeEnv) ==> ret == Some(-1) && actions == [WritePhase, RemoveFile]
    ensures ret == Some(0) <==>
      && actions == [WritePhase, RemoveFile, ReadPhase, RemoveFile]
      && SetupOk(writeEnv) && SetupOk(readEnv) && rmOk(0) && rmOk(1)
  {
    var res := AioPass(writeEnv, qdepth);
    actions := [WritePhase];
    if res.None? {
      return None, actions;
    }
    if res.value < 0 {
      // AIO_ERROR: remove the file; the result is -1 either way
      actions := actions + [RemoveFile];
      return Some(-1), actions;
    }
    actions := actions + [RemoveFile];
    if !rmOk(0) {
      return Some(-1), actions;
    }

    res := AioPass(readEnv, qdepth);
    actions := actions + [ReadPhase];
    if res.None? {
      return None, actions;
    }
    actions := actions + [RemoveFile];
    if res.value < 0 || !rmOk(1) {
      return Some(-1), actions;
    }
    return Some(0), actions;
  }

  /** An application option of the regression harness. */
  datatype AppOpt = TestTypeOpt(value: int) | OtherOpt

  /**
   * The `getopt` loop of `main`: `-T` sets the test type, which must lie
   * in 1..3; any other option is invalid. `None` is the INVALID_ARGS exit.
   */
  method ParseTestType(opts: seq<AppOpt>) returns (testType: Option<int>)
    ensures testType.Some? <==> forall i :: 0 <= i < |opts| ==> opts[i].TestTypeOpt? && IsTestType(opts[i].value)
    ensures testType.Some? ==> testType.value == (if opts == [] then QUICK_TEST else opts[|opts| - 1].value)
    ensures testType.Some? ==> IsTestType(testType.value) && DecodeTestType(testType.value).Some?
  {
    var current := QUICK_TEST;
    var i := 0;
    while i < |opts|
      invariant 0 <= i <= |opts|
      invariant forall k :: 0 <= k < i ==> opts[k].TestTypeOpt? && IsTestType(opts[k].value)
      invariant current == (if i == 0 then QUICK_TEST else opts[i - 1].value)
    {
      if !opts[i].TestTypeOpt? {
        return None;
      }
      current := opts[i].value;
      if current < MAX_TEST || current > MILL_TEST {
        return None;
      }
      i := i + 1;
    }
    return Some(current);
  }
}
