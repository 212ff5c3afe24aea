/**
 * Progress reporting of the regression harness: `rt_progress_reset` and
 * `rt_progress_report` keep one remembered percentage (`last_percent`) and
 * print a dot each time the computed percentage changes, followed by
 * "N%" when the new value is a multiple of ten.
 */
module Progress {
  import opened Base

  /**
   * The percentage `(curr + 1) * 100 / max` computed without overflow; the
   * C code computes it in 32-bit `int` (see `PercentAsWritten`).
   */
  function Percent(curr: int, max: int): (p: int)
    requires max != 0
    ensures 0 <= curr && 0 < max ==> p >= 0
  {
    CDiv((curr + 1) * 100, max)
  }

  /** The same expression in 32-bit arithmetic, where `(curr + 1) * 100` wraps. */
  function PercentAsWritten(curr: int, max: int): (p: int)
    requires S32_MIN <= curr < S32_MAX && max != 0
    ensures S32_MIN <= (curr + 1) * 100 <= S32_MAX ==> p == Percent(curr, max)
  {
    CDiv(WrapS32((curr + 1) * 100), max)
  }

  lemma DivMonotone(a: int, b: int, m: int)
    requires 0 <= a <= b && 0 < m
    ensures a / m <= b / m
  {
    assert m * (a / m) <= a;
    assert b < m * (b / m + 1);
    MulCancel(m, a / m, b / m + 1);
  }

  lemma MulCancel(m: int, x: int, y: int)
    requires 0 < m && m * x < m * y
    ensures x < y
  {
  }

  /** Inside the loop `for (i = 0; i < max; i++)` the value lies in 0..100 and reaches 100 at the last item. */
  lemma PercentRange(curr: int, max: int)
    requires 0 <= curr < max
    ensures 0 <= Percent(curr, max) <= 100
    ensures curr == max - 1 ==> Percent(curr, max) == 100
  {
    var n := (curr + 1) * 100;
    var q := n / max;
    assert Percent(curr, max) == q;
    assert max * q <= n < max * q + max;
    assert n <= max * 100 < max * 101;
    MulCancel(max, q, 101);
    if curr == max - 1 {
      assert max * 100 < max * (q + 1);
      MulCancel(max, 100, q + 1);
    }
  }

  /** Later items never report a smaller percentage. */
  lemma PercentMonotone(c1: int, c2: int, max: int)
    requires 0 <= c1 <= c2 && 0 < max
    ensures Percent(c1, max) <= Percent(c2, max)
  {
    DivMonotone((c1 + 1) * 100, (c2 + 1) * 100, max);
  }

  /**
   * With more than 21,474,836 items the product leaves the 32-bit range:
   * item 21,474,836 of 30,000,000 is reported as -71 instead of 71.
   */
  lemma PercentOverflows()
    ensures PercentAsWritten(21474836, 30000000) == -71
    ensures Percent(21474836, 30000000) == 71
  {
  }

  /** What one call of `rt_progress_report` prints. */
  datatype Output = Silent | Dot | DotAndPercent(percent: int)

  /** The remembered state `last_percent`. */
  class ProgressMeter {
    var lastPercent: int

    /** `static s32 last_percent` starts at 0. */
    constructor()
      ensures lastPercent == 0
    {
      lastPercent := 0;
    }

    /** `rt_progress_reset`. */
    method Reset()
      modifies this
      ensures lastPercent == 0
    {
      lastPercent := 0;
    }

    /** `rt_progress_report(curr, max)`. */
    method Report(curr: int, max: int) returns (out: Output)
      requires max != 0
      modifies this
      ensures var p := Percent(curr, max);
        if p == old(lastPercent) then
          out == Silent && lastPercent == old(lastPercent)
        else
          lastPercent == p && out == (if CRem(p, 10) == 0 then DotAndPercent(p) else Dot)
    {
      var currPercent := Percent(curr, max);
      if currPercent != lastPercent {
        lastPercent := currPercent;
        if CRem(currPercent, 10) == 0 {
          out := DotAndPercent(currPercent);
        } else {
          out := Dot;
        }
      } else {
        out := Silent;
      }
    }
  }

  predicate StrictlyIncreasing(s: seq<int>) {
    forall i, j :: 0 <= i < j < |s| ==> s[i] < s[j]
  }

  /**
   * One phase of a metadata test: reset the meter, then for each of `max`
   * items run the operation and report progress, stopping at the first
   * failure. `printed` lists the percentage behind every dot.
   */
  method ReportPhase(meter: ProgressMeter, max: int, opOk: nat -> bool) returns (ok: bool, printed: seq<int>)
    modifies meter
    ensures ok <==> forall i: nat :: i < max ==> opOk(i)
    ensures StrictlyIncreasing(printed)
    ensures forall k :: 0 <= k < |printed| ==> 1 <= printed[k] <= 100
    ensures ok && max > 0 ==> |printed| > 0 && printed[|printed| - 1] == 100
    ensures meter.lastPercent == (if printed == [] then 0 else printed[|printed| - 1])
  {
    meter.Reset();
    printed := [];
    var i: nat := 0;
    while i < max
      invariant forall k: nat :: k < i ==> opOk(k)
      invariant i > 0 ==> i <= max && meter.lastPercent == Percent(i - 1, max)
      invariant i == 0 ==> printed == []
      invariant meter.lastPercent == (if printed == [] then 0 else printed[|printed| - 1])
      invariant StrictlyIncreasing(printed)
      invariant forall k :: 0 <= k < |printed| ==> 1 <= printed[k] <= 100
    {
      if !opOk(i) {
        return false, printed;
      }
      PercentRange(i, max);
      if i > 0 {
        PercentMonotone(i - 1, i, max);
      }
      ghost var last := meter.lastPercent;
      var out := meter.Report(i, max);
      if out != Silent {
        assert last < meter.lastPercent <= 100 && 1 <= meter.lastPercent;
        printed := printed + [meter.lastPercent];
      }
      i := i + 1;
    }
    ok := true;
    if max > 0 {
      PercentRange(max - 1, max);
    }
  }
}
