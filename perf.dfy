/**
 * The perf harness: the option loop of `main`, which fills the static
 * settings, `perf_run`'s engine dispatch, and `perf_aio`, which runs one AIO
 * pass and then removes the test file.
 */
module Perf {
  import opened Base
  import opened AioDriver

  /** `ioengine`: unset until `-E` names an engine. */
  datatype Engine = EngineUnset | Aio | Sync

  /** The static settings of perf.c. */
  datatype Settings = Settings(
    fileSize: int,     // -S, in MB
    blockSize: int,    // -B, in bytes
    ioengine: Engine,  // -E
    qdepth: int,       // -Q
    isRand: int,       // -R
    directIo: int,     // -D
    isWrite: int,      // -W
    runtime: int)      // -T, in seconds

  /** Every static starts at 0. */
  const DEFAULT_SETTINGS: Settings := Settings(0, 0, EngineUnset, 0, 0, 0, 0, 0)

  /** One option as `getopt` returns it, its argument already converted by `atoi`. */
  datatype PerfOpt =
    | SizeOpt(mb: int)
    | BlockOpt(bytes: int)
    | EngineOpt(name: string)
    | QdepthOpt(depth: int)
    | RandOpt
    | DirectOpt
    | WriteOpt
    | RuntimeOpt(seconds: int)
    | UnknownOpt

  /** The test of `-B`: rejected when not a multiple of the cluster size or below it. */
  predicate ValidBlockSize(b: int) {
    !(CRem(b, CLUSTER_SIZE) != 0 || b < CLUSTER_SIZE)
  }

  /** A block size is accepted exactly when it is a positive multiple of 4096 bytes. */
  lemma ValidBlockSizeIff(b: int)
    ensures ValidBlockSize(b) <==> b >= CLUSTER_SIZE && b % CLUSTER_SIZE == 0
  {
    if b >= 0 {
      assert CRem(b, CLUSTER_SIZE) == b % CLUSTER_SIZE;
    }
  }

  /** The engine named by an `-E` argument, if any. */
  function EngineByName(name: string): (e: Option<Engine>)
    ensures e.Some? <==> name == "libaio" || name == "sync"
    ensures e.Some? ==> e.value != EngineUnset
  {
    if name == "libaio" then Some(Aio)
    else if name == "sync" then Some(Sync)
    else None
  }

  predicate OptValid(o: PerfOpt) {
    match o
    case BlockOpt(b) => ValidBlockSize(b)
    case EngineOpt(n) => EngineByName(n).Some?
    case QdepthOpt(q) => q != 0
    case RuntimeOpt(t) => t != 0
    case UnknownOpt => false
    case _ => true
  }

  /**
   * One pass of the option loop: the value is stored first, then checked;
   * `false` is the jump to INVALID_ARGS.
   */
  function ApplyOpt(s: Settings, o: PerfOpt): (Settings, bool) {
    match o
    case SizeOpt(mb) => (s.(fileSize := mb), true)
    case BlockOpt(b) => (s.(blockSize := b), ValidBlockSize(b))
    case EngineOpt(n) =>
      var e := EngineByName(n);
      if e.Some? then (s.(ioengine := e.value), true) else (s, false)
    case QdepthOpt(q) => (s.(qdepth := q), q != 0)
    case RandOpt => (s.(isRand := 1), true)
    case DirectOpt => (s.(directIo := 1), true)
    case WriteOpt => (s.(isWrite := 1), true)
    case RuntimeOpt(t) => (s.(runtime := t), t != 0)
    case UnknownOpt => (s, false)
  }

  /** The whole option loop, stopping at the first invalid option. */
  function ApplyOpts(s: Settings, opts: seq<PerfOpt>): (r: (Settings, bool))
    decreases |opts|
  {
    if opts == [] then (s, true)
    else
      var (s', ok) := ApplyOpt(s, opts[0]);
      if !ok then (s', false) else ApplyOpts(s', opts[1..])
  }

  /** The options are accepted exactly when each of them is valid. */
  lemma {:induction false} AcceptsIffAllValid(s: Settings, opts: seq<PerfOpt>)
    ensures ApplyOpts(s, opts).1 <==> forall i :: 0 <= i < |opts| ==> OptValid(opts[i])
    decreases |opts|
  {
    if opts != [] {
      var (s', ok) := ApplyOpt(s, opts[0]);
      AcceptsIffAllValid(s', opts[1..]);
      if ok {
        assert forall i :: 1 <= i < |opts| ==> opts[i] == opts[1..][i - 1];
      }
    }
  }

  /**
   * After an accepted option list, `-R`, `-D` and `-W` are 1 exactly when
   * given and otherwise keep their value.
   */
  lemma {:induction false} FlagsSetIffGiven(s: Settings, opts: seq<PerfOpt>)
    requires ApplyOpts(s, opts).1
    ensures var r := ApplyOpts(s, opts).0;
      && r.isRand == (if RandOpt in opts then 1 else s.isRand)
      && r.directIo == (if DirectOpt in opts then 1 else s.directIo)
      && r.isWrite == (if WriteOpt in opts then 1 else s.isWrite)
    decreases |opts|
  {
    if opts != [] {
      var (s', ok) := ApplyOpt(s, opts[0]);
      FlagsSetIffGiven(s', opts[1..]);
      assert opts == [opts[0]] + opts[1..];
    }
  }

  /**
   * Every setting an accepted option list changed passed its check: a block
   * size that is a positive multiple of 4096, a nonzero queue depth, a
   * nonzero runtime, a named engine.
   */
  lemma {:induction false} AcceptedValuesChecked(s: Settings, opts: seq<PerfOpt>)
    requires ApplyOpts(s, opts).1
    ensures var r := ApplyOpts(s, opts).0;
      && (r.blockSize == s.blockSize || (r.blockSize >= CLUSTER_SIZE && r.blockSize % CLUSTER_SIZE == 0))
      && (r.qdepth == s.qdepth || r.qdepth != 0)
      && (r.runtime == s.runtime || r.runtime != 0)
      && (r.ioengine == s.ioengine || r.ioengine != EngineUnset)
    decreases |opts|
  {
    if opts != [] {
      var (s', ok) := ApplyOpt(s, opts[0]);
      AcceptedValuesChecked(s', opts[1..]);
      if opts[0].BlockOpt? {
        ValidBlockSizeIff(opts[0].bytes);
      }
    }
  }

  /**
   * Leaving out `-Q` is not rejected: the queue depth stays 0, so the AIO
   * loop never admits a request (see `AioMachine.NonPositiveDepthNeverDrains`).
   * A negative depth is accepted as well.
   */
  lemma MissingOrNegativeQdepthAccepted()
    ensures ApplyOpts(DEFAULT_SETTINGS, [EngineOpt("libaio")]) == (DEFAULT_SETTINGS.(ioengine := Aio), true)
    ensures ApplyOpts(DEFAULT_SETTINGS, [QdepthOpt(-1)]) == (DEFAULT_SETTINGS.(qdepth := -1), true)
  {
    assert [EngineOpt("libaio")][1..] == [];
    assert [QdepthOpt(-1)][1..] == [];
  }

  /** The static variables of perf.c, written by the option loop. */
  class PerfGlobals {
    var fileSize: int
    var blockSize: int
    var ioengine: Engine
    var qdepth: int
    var isRand: int
    var directIo: int
    var isWrite: int
    var runtime: int

    constructor()
      ensures Snapshot() == DEFAULT_SETTINGS
    {
      fileSize, blockSize, ioengine, qdepth := 0, 0, EngineUnset, 0;
      isRand, directIo, isWrite, runtime := 0, 0, 0, 0;
    }

    function Snapshot(): Settings
      reads this
    {
      Settings(fileSize, blockSize, ioengine, qdepth, isRand, directIo, isWrite, runtime)
    }

    /** The `getopt` loop of `main`; `ok == false` is the jump to INVALID_ARGS. */
    method ParseOptions(opts: seq<PerfOpt>) returns (ok: bool)
      modifies this
      ensures (Snapshot(), ok) == ApplyOpts(old(Snapshot()), opts)
    {
      var i := 0;
      while i < |opts|
        invariant 0 <= i <= |opts|
        invariant ApplyOpts(old(Snapshot()), opts) == ApplyOpts(Snapshot(), opts[i..])
      {
        assert opts[i..][0] == opts[i] && opts[i..][1..] == opts[i + 1..];
        match opts[i] {
        case SizeOpt(mb) =>
          fileSize := mb;
        case BlockOpt(b) =>
          blockSize := b;
          if CRem(blockSize, CLUSTER_SIZE) != 0 || blockSize < CLUSTER_SIZE {
            return false;
          }
        case EngineOpt(name) =>
          if name == "libaio" {
            ioengine := Aio;
          } else if name == "sync" {
            ioengine := Sync;
          } else {
            return false;
          }
        case QdepthOpt(q) =>
          qdepth := q;
          if qdepth == 0 {
            return false;
          }
        case RandOpt =>
          isRand := 1;
        case DirectOpt =>
          directIo := 1;
        case WriteOpt =>
          isWrite := 1;
        case RuntimeOpt(t) =>
          runtime := t;
          if runtime == 0 {
            return false;
          }
        case UnknownOpt =>
          return false;
        }
        i := i + 1;
      }
      assert opts[i..] == [];
      ok := true;
    }
  }

  /**
   * `main` up to the start of the application: no arguments, a rejected
   * core argument, a rejected option or a failed SPDK configuration
   * return -1, and 0 stands for "the application was started". What
   * happens after that is `PerfRun`'s.
   */
  method PerfMain(argc: int, coreArgsOk: bool, opts: seq<PerfOpt>, configureOk: bool, g: PerfGlobals)
    returns (ret: int)
    modifies g
    ensures argc == 1 || !coreArgsOk ==> ret == -1 && g.Snapshot() == old(g.Snapshot())
    ensures argc != 1 && coreArgsOk ==>
      var (s, ok) := ApplyOpts(old(g.Snapshot()), opts);
      g.Snapshot() == s && ret == (if ok && configureOk then 0 else -1)
  {
    if argc == 1 {
      return -1;
    }
    if !coreArgsOk {
      return -1;
    }
    var ok := g.ParseOptions(opts);
    if !ok {
      return -1;
    }
    if !configureOk {
      return -1;
    }
    // 0: the application was started; spdk_app_start runs perf_run on
    // lcore 1, which ends the process (PerfRun)
    return 0;
  }

  /**
   * `perf_aio`: one AIO pass, then removal of the test file whatever the
   * pass returned. The result is -1 exactly when the removal fails.
   */
  method PerfAio(env: Env, rmOk: bool, qdepth: int, runtime: int) returns (ret: Option<int>, removed: bool)
    requires Wf(env)
    ensures ret.Some? ==> removed && ret.value == (if rmOk then 0 else -1)
    ensures !SetupOk(env) ==> ret == Some(if rmOk then 0 else -1)
  {
    var res, run, dots, calls, trail := TestRw(env, qdepth, runtime);
    if res.None? {
      return None, false;
    }
    // the error branch and the normal path both reach AIO_ERROR
    removed := true;
    if !rmOk {
      return Some(-1), removed;
    }
    return Some(0), removed;
  }

  /** How `perf_run` ends. */
  datatype RunOutcome =
    | HandleFailed     // returns without stopping the application
    | Exited(status: int)
    | Blocked          // the AIO pass never returns

  /**
   * `perf_run`: only the AIO engine runs a workload, on a file of
   * `file_size` MB; the process then exits with status 0 whatever the
   * workload returned.
   */
  method PerfRun(g: PerfGlobals, handleOk: bool, env: Env, rmOk: bool)
    returns (outcome: RunOutcome, ranAio: bool, requestedBytes: int)
    requires Wf(env)
    ensures !handleOk ==> outcome == HandleFailed && !ranAio
    ensures handleOk ==> (ranAio <==> g.ioengine == Aio)
    ensures ranAio ==> requestedBytes == g.fileSize * MB
    ensures outcome.Exited? ==> outcome.status == 0
    ensures handleOk && g.ioengine != Aio ==> outcome == Exited(0)
  {
    requestedBytes := 0;
    if !handleOk {
      return HandleFailed, false, requestedBytes;
    }
    ranAio := false;
    if g.ioengine == Aio {
      ranAio := true;
      requestedBytes := g.fileSize * MB;
      var res, removed := PerfAio(env, rmOk, g.qdepth, g.runtime);
      if res.None? {
        return Blocked, ranAio, requestedBytes;
      }
    }
    // destroy the handle, stop the application, exit(0)
    outcome := Exited(0);
  }
}
