/**
 * The integer part of perf's `print_stats`: the per-core AIO records are
 * folded into one group record whose counters are sums, whose minimum
 * latency is the minimum of the per-core minima (starting from all ones)
 * and whose maximum latency is the maximum of the per-core maxima
 * (starting from 0); the summed execution time is then divided by the
 * number of cores.
 */
module PerfStats {
  import opened Base

  /** The integer fields of an `AIO_STAT` record, in TSC ticks, requests and bytes. */
  datatype AioStat = AioStat(
    executionTsc: nat,
    latTotalCount: nat,
    latTotalTsc: nat,
    totalSize: nat,
    latMinTsc: U64,
    latMaxTsc: U64)

  /** The zeroed sum with `aio_lat_min_tsc = ~0` and `aio_lat_max_tsc = 0`. */
  const FOLD_START: AioStat := AioStat(0, 0, 0, 0, U64_MAX, 0)

  /** What one pass of the loop adds to the running group record. */
  function Combine(acc: AioStat, cur: AioStat): AioStat {
    AioStat(
      acc.executionTsc + cur.executionTsc,
      acc.latTotalCount + cur.latTotalCount,
      acc.latTotalTsc + cur.latTotalTsc,
      acc.totalSize + cur.totalSize,
      Min(acc.latMinTsc, cur.latMinTsc),
      Max(acc.latMaxTsc, cur.latMaxTsc))
  }

  /** The group record before the division, over the records in arrival order. */
  function Fold(rs: seq<AioStat>): AioStat {
    if rs == [] then FOLD_START else Combine(Fold(rs[..|rs| - 1]), rs[|rs| - 1])
  }

  /** The group record: the fold with the execution time divided by the core count. */
  function Group(rs: seq<AioStat>, numCores: int): AioStat
    requires numCores > 0
  {
    var f := Fold(rs);
    f.(executionTsc := f.executionTsc / numCores)
  }

  /**
   * The group minimum is at most every core's minimum and equals one of
   * them; with no record it stays all ones.
   */
  lemma {:induction false} FoldMinIsMinimum(rs: seq<AioStat>)
    ensures forall i :: 0 <= i < |rs| ==> Fold(rs).latMinTsc <= rs[i].latMinTsc
    ensures rs == [] ==> Fold(rs).latMinTsc == U64_MAX
    ensures rs != [] ==> exists i :: 0 <= i < |rs| && Fold(rs).latMinTsc == rs[i].latMinTsc
  {
    if rs != [] {
      var front := rs[..|rs| - 1];
      FoldMinIsMinimum(front);
      assert forall i :: 0 <= i < |front| ==> front[i] == rs[i];
      if front != [] && Fold(front).latMinTsc < rs[|rs| - 1].latMinTsc {
        var i :| 0 <= i < |front| && Fold(front).latMinTsc == front[i].latMinTsc;
        assert Fold(rs).latMinTsc == rs[i].latMinTsc;
      } else {
        assert Fold(rs).latMinTsc == rs[|rs| - 1].latMinTsc;
      }
    }
  }

  /**
   * The group maximum is at least every core's maximum and, unless it is
   * the starting 0, equals one of them.
   */
  lemma {:induction false} FoldMaxIsMaximum(rs: seq<AioStat>)
    ensures forall i :: 0 <= i < |rs| ==> rs[i].latMaxTsc <= Fold(rs).latMaxTsc
    ensures Fold(rs).latMaxTsc == 0 || exists i :: 0 <= i < |rs| && Fold(rs).latMaxTsc == rs[i].latMaxTsc
  {
    if rs != [] {
      var front := rs[..|rs| - 1];
      FoldMaxIsMaximum(front);
      assert forall i :: 0 <= i < |front| ==> front[i] == rs[i];
      if Fold(front).latMaxTsc > rs[|rs| - 1].latMaxTsc {
        var i :| 0 <= i < |front| && Fold(front).latMaxTsc == front[i].latMaxTsc;
        assert Fold(rs).latMaxTsc == rs[i].latMaxTsc;
      } else {
        assert Fold(rs).latMaxTsc == rs[|rs| - 1].latMaxTsc;
      }
    }
  }

  lemma CombineStart(x: AioStat)
    ensures Combine(FOLD_START, x) == x && Combine(x, FOLD_START) == x
  {
  }

  lemma CombineAssoc(x: AioStat, y: AioStat, z: AioStat)
    ensures Combine(Combine(x, y), z) == Combine(x, Combine(y, z))
  {
  }

  /**
   * Folding two batches of records and combining the results is folding
   * all of them: the group record does not depend on how the arrivals are
   * split.
   */
  lemma {:induction false} FoldConcat(a: seq<AioStat>, b: seq<AioStat>)
    ensures Fold(a + b) == Combine(Fold(a), Fold(b))
  {
    if b == [] {
      assert a + b == a;
      CombineStart(Fold(a));
    } else {
      var front, x := b[..|b| - 1], b[|b| - 1];
      assert (a + b)[..|a + b| - 1] == a + front;
      assert (a + b)[|a + b| - 1] == x;
      FoldConcat(a, front);
      CombineAssoc(Fold(a), Fold(front), x);
    }
  }

  /** With a single core, as perf's `main` calls it, the group record is that core's record. */
  lemma SingleCoreGroupIsRecord(r: AioStat)
    ensures Group([r], 1) == r
  {
    assert [r][..0] == [];
    CombineStart(r);
    assert Fold([r]) == r;
    assert r.executionTsc / 1 == r.executionTsc;
  }

  /**
   * The aggregation loop: one receive per core, each record combined into
   * the group; a failed ring lookup or receive returns before the group
   * record exists. `replies` is what the ring holds, in arrival order.
   */
  method AggregateAio(numCores: int, lookupOk: bool, replies: seq<AioStat>) returns (group: Option<AioStat>)
    requires numCores > 0
    ensures group.Some? <==> lookupOk && |replies| >= numCores
    ensures group.Some? ==> group.value == Group(replies[..numCores], numCores)
  {
    if !lookupOk {
      return None;
    }
    var sum := FOLD_START;
    var cur := 0;
    while cur < numCores
      invariant 0 <= cur <= numCores && cur <= |replies|
      invariant sum == Fold(replies[..cur])
    {
      if cur >= |replies| {
        return None;
      }
      var stat := replies[cur];
      assert replies[..cur + 1][..cur] == replies[..cur];
      sum := AioStat(
        sum.executionTsc + stat.executionTsc,
        sum.latTotalCount + stat.latTotalCount,
        sum.latTotalTsc + stat.latTotalTsc,
        sum.totalSize + stat.totalSize,
        Min(sum.latMinTsc, stat.latMinTsc),
        Max(sum.latMaxTsc, stat.latMaxTsc));
      cur := cur + 1;
    }
    sum := sum.(executionTsc := sum.executionTsc / numCores);
    return Some(sum);
  }
}
