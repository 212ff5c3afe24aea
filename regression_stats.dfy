/**
 * The integer part of the regression harness's `print_stats`: the `RT_STAT`
 * records received from the ring are copied into a dense table indexed by
 * `sequence * num_cores + lcore_id`, and the device counters of each core
 * are summed.
 *
 * The slot is computed relative to a `base` core number: the code as
 * written uses `lcore_id` itself (`base == 0`), while the only worker core
 * is lcore 1, so the intended placement subtracts the first worker's
 * number (`base == FIRST_WORKER_LCORE`).
 */
module RegressionStats {
  import opened Base
  import opened Regression

  /** `regression_run` calls `rt_main((void *)1)`, and only lcore 1 is launched. */
  const FIRST_WORKER_LCORE: int := 1

  function Slot(r: RtStat, numCores: int, base: int): int {
    r.sequence * numCores + (r.lcoreId - base)
  }

  /** `assert(sequence * num_cores + lcore_id < num_cores * num_tc)`, with the slot also nonnegative. */
  predicate SlotsInRange(rs: seq<RtStat>, numCores: int, size: nat, base: int) {
    forall i :: 0 <= i < |rs| ==> 0 <= Slot(rs[i], numCores, base) < size
  }

  /** The table after copying `rs` into it in arrival order. */
  function Place(table: seq<Option<RtStat>>, rs: seq<RtStat>, numCores: int, base: int): (t: seq<Option<RtStat>>)
    requires SlotsInRange(rs, numCores, |table|, base)
    ensures |t| == |table|
  {
    if rs == [] then table
    else
      var last := rs[|rs| - 1];
      Place(table, rs[..|rs| - 1], numCores, base)[Slot(last, numCores, base) := Some(last)]
  }

  /** Copying one more record updates that record's slot and nothing else. */
  lemma PlaceSnoc(table: seq<Option<RtStat>>, rs: seq<RtStat>, i: nat, numCores: int, base: int)
    requires i < |rs| && SlotsInRange(rs[..i + 1], numCores, |table|, base)
    ensures SlotsInRange(rs[..i], numCores, |table|, base)
    ensures Place(table, rs[..i + 1], numCores, base)
      == Place(table, rs[..i], numCores, base)[Slot(rs[i], numCores, base) := Some(rs[i])]
  {
    assert rs[..i + 1][..i] == rs[..i];
    assert rs[..i + 1][i] == rs[i];
  }

  predicate DistinctSlots(rs: seq<RtStat>, numCores: int, base: int) {
    forall i, j :: 0 <= i < j < |rs| ==> Slot(rs[i], numCores, base) != Slot(rs[j], numCores, base)
  }

  /**
   * With distinct slots every record ends up in its own slot and every
   * other slot keeps its old contents, whatever the arrival order.
   */
  lemma {:induction false} PlaceContents(table: seq<Option<RtStat>>, rs: seq<RtStat>, numCores: int, base: int)
    requires SlotsInRange(rs, numCores, |table|, base) && DistinctSlots(rs, numCores, base)
    ensures forall j :: 0 <= j < |rs| ==> Place(table, rs, numCores, base)[Slot(rs[j], numCores, base)] == Some(rs[j])
    ensures forall k :: 0 <= k < |table| && (forall j :: 0 <= j < |rs| ==> Slot(rs[j], numCores, base) != k) ==>
      Place(table, rs, numCores, base)[k] == table[k]
  {
    if rs != [] {
      var front := rs[..|rs| - 1];
      assert SlotsInRange(front, numCores, |table|, base);
      PlaceContents(table, front, numCores, base);
      forall k | 0 <= k < |table| && (forall j :: 0 <= j < |rs| ==> Slot(rs[j], numCores, base) != k)
        ensures Place(table, rs, numCores, base)[k] == table[k]
      {
        forall j | 0 <= j < |front|
          ensures Slot(front[j], numCores, base) != k
        {
          assert front[j] == rs[j];
        }
      }
      forall j | 0 <= j < |rs|
        ensures Place(table, rs, numCores, base)[Slot(rs[j], numCores, base)] == Some(rs[j])
      {
        if j < |rs| - 1 {
          assert front[j] == rs[j];
        }
      }
    }
  }

  /** Two arrival orders of the same records give the same table. */
  lemma PlaceOrderIndependent(table: seq<Option<RtStat>>, rs1: seq<RtStat>, rs2: seq<RtStat>, numCores: int, base: int)
    requires multiset(rs1) == multiset(rs2)
    requires SlotsInRange(rs1, numCores, |table|, base) && DistinctSlots(rs1, numCores, base)
    requires SlotsInRange(rs2, numCores, |table|, base) && DistinctSlots(rs2, numCores, base)
    ensures Place(table, rs1, numCores, base) == Place(table, rs2, numCores, base)
  {
    PlaceContents(table, rs1, numCores, base);
    PlaceContents(table, rs2, numCores, base);
    var t1, t2 := Place(table, rs1, numCores, base), Place(table, rs2, numCores, base);
    forall k | 0 <= k < |table|
      ensures t1[k] == t2[k]
    {
      if j1 :| 0 <= j1 < |rs1| && Slot(rs1[j1], numCores, base) == k {
        assert rs1[j1] in multiset(rs2);
        var j2 :| 0 <= j2 < |rs2| && rs2[j2] == rs1[j1];
      } else {
        forall j2 | 0 <= j2 < |rs2|
          ensures Slot(rs2[j2], numCores, base) != k
        {
          assert rs2[j2] in multiset(rs1);
          assert rs2[j2] in rs1;
        }
      }
    }
  }

  /**
   * `print_stats` up to the end of its gather loop. `lookupOk` is whether
   * the stat ring lookup succeeded; when it fails `print_stats` returns
   * before the table is cleared or anything is received, reported as
   * `complete == false` with every slot empty.
   */
  method GatherRtStats(numCores: nat, numTc: nat, base: int, lookupOk: bool, replies: seq<RtStat>)
    returns (table: array<Option<RtStat>>, complete: bool)
    requires lookupOk ==> SlotsInRange(replies[..Min(|replies|, numCores * numTc)], numCores, numCores * numTc, base)
    ensures table.Length == numCores * numTc
    ensures complete <==> lookupOk && |replies| >= numCores * numTc
    ensures !lookupOk ==> table[..] == seq(numCores * numTc, k => None)
    ensures lookupOk ==>
      var got := replies[..Min(|replies|, numCores * numTc)];
      table[..] == Place(seq(numCores * numTc, k => None), got, numCores, base)
    ensures fresh(table)
  {
    if !lookupOk {
      table := new Option<RtStat>[numCores * numTc](k => None);
      return table, false;
    }
    table, complete := ReceiveRtStats(numCores, numTc, base, replies);
  }

  /**
   * The gather loop: `num_cores * num_tc` receives, each record copied to its
   * slot. `replies` is what the ring holds, in arrival order; a receive on
   * an empty ring fails and ends `print_stats`, reported as `complete ==
   * false`. The assertion of the loop is the precondition on the records
   * that are received.
   */
  method ReceiveRtStats(numCores: nat, numTc: nat, base: int, replies: seq<RtStat>)
    returns (table: array<Option<RtStat>>, complete: bool)
    requires SlotsInRange(replies[..Min(|replies|, numCores * numTc)], numCores, numCores * numTc, base)
    ensures table.Length == numCores * numTc
    ensures complete <==> |replies| >= numCores * numTc
    ensures var got := replies[..Min(|replies|, numCores * numTc)];
      table[..] == Place(seq(numCores * numTc, k => None), got, numCores, base)
    ensures fresh(table)
  {
    var size := numCores * numTc;
    table := new Option<RtStat>[size](k => None);
    var i := 0;
    while i < size
      invariant 0 <= i <= Min(|replies|, size)
      invariant SlotsInRange(replies[..i], numCores, size, base)
      invariant table[..] == Place(seq(size, k => None), replies[..i], numCores, base)
    {
      if i >= |replies| {
        return table, false;
      }
      var stat := replies[i];
      assert replies[..i + 1] == replies[..Min(|replies|, size)][..i + 1];
      PlaceSnoc(seq(size, k => None), replies, i, numCores, base);
      var slot := Slot(stat, numCores, base);
      table[slot] := Some(stat);
      i := i + 1;
    }
    assert replies[..i] == replies[..Min(|replies|, size)];
    complete := true;
  }

  /**
   * As written (`base == 0`), the records `rt_main` publishes from lcore 1
   * violate the assertion: with `num_cores == 1` the last of the eight
   * test cases lands in slot 8 of an 8-slot table.
   */
  lemma PublishedRecordsBreakAssertion()
    ensures var rs := Records(FIRST_WORKER_LCORE, |RT_CASES|);
      !SlotsInRange(rs, 1, 1 * |RT_CASES|, 0) && Slot(rs[|RT_CASES| - 1], 1, 0) == 1 * |RT_CASES|
  {
    var rs := Records(FIRST_WORKER_LCORE, |RT_CASES|);
    assert Slot(rs[7], 1, 0) == 8;
  }

  /**
   * Placed relative to the worker core, the records of a full run on one
   * core fill the table exactly: slot `k` holds the record of case `k`.
   */
  lemma CorrectedPlacementFillsTable(lcoreId: int, n: nat)
    ensures SlotsInRange(Records(lcoreId, n), 1, 1 * n, lcoreId)
    ensures DistinctSlots(Records(lcoreId, n), 1, lcoreId)
    ensures forall k :: 0 <= k < n ==>
      Place(seq(1 * n, k => None), Records(lcoreId, n), 1, lcoreId)[k] == Some(RtStat(lcoreId, k))
  {
    var rs := Records(lcoreId, n);
    assert forall i :: 0 <= i < n ==> Slot(rs[i], 1, lcoreId) == i;
    PlaceContents(seq(1 * n, k => None), rs, 1, lcoreId);
  }

  /** The integer device counters of one core. */
  datatype DevStat = DevStat(totalIo: nat, readIo: nat, writeIo: nat)

  function AddDev(a: DevStat, b: DevStat): DevStat {
    DevStat(a.totalIo + b.totalIo, a.readIo + b.readIo, a.writeIo + b.writeIo)
  }

  const ZERO_DEV: DevStat := DevStat(0, 0, 0)

  lemma AddDevZero(x: DevStat)
    ensures AddDev(x, ZERO_DEV) == x
  {
  }

  lemma AddDevAssoc(x: DevStat, y: DevStat, z: DevStat)
    ensures AddDev(AddDev(x, y), z) == AddDev(x, AddDev(y, z))
  {
  }

  /** Field-wise sum of the counters of `ds`. */
  function SumDev(ds: seq<DevStat>): DevStat {
    if ds == [] then ZERO_DEV else AddDev(SumDev(ds[..|ds| - 1]), ds[|ds| - 1])
  }

  /** Summing a concatenation is summing the parts. */
  lemma {:induction false} SumDevConcat(a: seq<DevStat>, b: seq<DevStat>)
    ensures SumDev(a + b) == AddDev(SumDev(a), SumDev(b))
  {
    if b == [] {
      assert a + b == a;
      AddDevZero(SumDev(a));
    } else {
      var front, x := b[..|b| - 1], b[|b| - 1];
      assert (a + b)[..|a + b| - 1] == a + front;
      assert (a + b)[|a + b| - 1] == x;
      SumDevConcat(a, front);
      AddDevAssoc(SumDev(a), SumDev(front), x);
    }
  }

  /** With one core the sum is that core's counters. */
  lemma SumDevSingle(d: DevStat)
    ensures SumDev([d]) == d
  {
    assert [d][..0] == [];
  }

  /**
   * The device-statistics block: `num_cores` receives, each added field by
   * field to a zeroed sum. `None` when the ring lookup or a receive fails.
   */
  method SumDeviceStats(numCores: int, lookupOk: bool, replies: seq<DevStat>) returns (sum: Option<DevStat>)
    ensures sum.Some? <==> lookupOk && (numCores <= 0 || |replies| >= numCores)
    ensures sum.Some? ==> sum.value == SumDev(replies[..Max(numCores, 0)])
  {
    var acc := ZERO_DEV;
    if !lookupOk {
      return None;
    }
    var i := 0;
    while i < numCores
      invariant 0 <= Max(numCores, 0) && i <= Max(numCores, 0) && i <= |replies|
      invariant acc == SumDev(replies[..i])
    {
      if i >= |replies| {
        return None;
      }
      var cur := replies[i];
      assert replies[..i + 1][..i] == replies[..i];
      acc := DevStat(acc.totalIo + cur.totalIo, acc.readIo + cur.readIo, acc.writeIo + cur.writeIo);
      i := i + 1;
    }
    return Some(acc);
  }
}
