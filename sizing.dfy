/**
 * Workload sizing of the regression tests: each test picks its item count
 * or file size from the selected test type (`MAX_TEST`, `QUICK_TEST`,
 * `MILL_TEST`) and the free inodes or clusters reported by `statvfs`. An
 * unknown test type makes the test return -1, modelled as `None`.
 */
module Sizing {
  import opened Base

  const MAX_TEST: int := 1
  const QUICK_TEST: int := 2
  const MILL_TEST: int := 3

  /** The items of a million test are capped at one million. */
  const MILL_ITEMS: nat := 1000000

  /** The file of `rt_create_max_sized_file` in a million test is capped at 1 TB. */
  const MAX_SIZED_FILE_CAP: nat := TB

  /** The AIO test files in a million test are capped at 128 GB. */
  const AIO_FILE_CAP: nat := 128 * GB

  predicate IsTestType(t: int) {
    t == MAX_TEST || t == QUICK_TEST || t == MILL_TEST
  }

  /** `rt_decode_test_type`: the name of a known test type, or NULL. */
  function DecodeTestType(t: int): (name: Option<string>)
    ensures name.Some? <==> IsTestType(t)
  {
    if t == MAX_TEST then Some("MAX_TEST")
    else if t == QUICK_TEST then Some("QUICK_TEST")
    else if t == MILL_TEST then Some("MILL_TEST")
    else None
  }

  /** Distinct test types have distinct names. */
  lemma DecodeInjective(a: int, b: int)
    requires DecodeTestType(a).Some? && DecodeTestType(a) == DecodeTestType(b)
    ensures a == b
  {
  }

  /**
   * Number of files or directories of `rt_create_files` and
   * `rt_create_dirs`, from the free inode count.
   */
  function InodeCount(testType: int, freeInodes: nat): (n: Option<nat>)
    ensures n.Some? <==> IsTestType(testType)
    ensures testType == QUICK_TEST ==> n == Some(100)
    ensures testType == MAX_TEST ==> n == Some(freeInodes)
    ensures testType == MILL_TEST ==>
      n.Some? && n.value <= freeInodes && n.value <= MILL_ITEMS && (n.value == freeInodes || n.value == MILL_ITEMS)
  {
    if testType == MAX_TEST then Some(freeInodes)
    else if testType == QUICK_TEST then Some(100)
    else if testType == MILL_TEST then Some(if freeInodes < MILL_ITEMS then freeInodes else MILL_ITEMS)
    else None
  }

  /**
   * File size in bytes of `rt_create_max_sized_file` (cap 1 TB) and of the
   * two AIO tests (cap 128 GB), from the free cluster count: a million test
   * uses the cap unless it exceeds the free space, and then half the free
   * clusters.
   */
  function FileBytes(testType: int, freeClusters: nat, millCap: nat): (bytes: Option<nat>)
    ensures bytes.Some? <==> IsTestType(testType)
  {
    if testType == MAX_TEST then Some(freeClusters * CLUSTER_SIZE)
    else if testType == QUICK_TEST then Some(100 * MB)
    else if testType == MILL_TEST then
      Some(if millCap > freeClusters * CLUSTER_SIZE then (freeClusters / 2) * CLUSTER_SIZE else millCap)
    else None
  }

  /** Number of 4 KB files of `rt_create_4KB_files`: half the free clusters, each file taking one. */
  function SmallFileCount(testType: int, freeClusters: nat): (n: Option<nat>)
    ensures n.Some? <==> IsTestType(testType)
    ensures testType == QUICK_TEST ==> n == Some(100)
    ensures testType == MAX_TEST ==> n == Some(freeClusters / 2)
    ensures testType == MILL_TEST ==>
      n.Some? && n.value <= freeClusters / 2 && n.value <= MILL_ITEMS && (n.value == freeClusters / 2 || n.value == MILL_ITEMS)
  {
    if testType == MAX_TEST then Some(freeClusters / 2)
    else if testType == QUICK_TEST then Some(100)
    else if testType == MILL_TEST then
      var nr := freeClusters / 2;
      Some(if nr > MILL_ITEMS then MILL_ITEMS else nr)
    else None
  }

  /**
   * A million test never exceeds the free space nor its cap, and never
   * asks for more than a maximum test does.
   */
  lemma MillFileFitsFreeSpace(freeClusters: nat, millCap: nat)
    ensures var b := FileBytes(MILL_TEST, freeClusters, millCap).value;
      && b <= freeClusters * CLUSTER_SIZE
      && b <= millCap
      && b <= FileBytes(MAX_TEST, freeClusters, millCap).value
  {
    var free := freeClusters * CLUSTER_SIZE;
    if millCap > free {
      assert (freeClusters / 2) * CLUSTER_SIZE <= free;
    }
  }

  /** Every chosen size is a whole number of clusters whenever the cap is. */
  lemma FileBytesClusterAligned(testType: int, freeClusters: nat, millCap: nat)
    requires IsTestType(testType) && millCap % CLUSTER_SIZE == 0
    ensures FileBytes(testType, freeClusters, millCap).value % CLUSTER_SIZE == 0
  {
    assert 100 * MB == 25600 * CLUSTER_SIZE;
  }
}
