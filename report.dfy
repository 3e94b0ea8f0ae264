/**
 * The summary printed after a run (trial.py:162-167): how many distinct ULDs hold
 * priority packages, and the delay cost K for each of them.
 */
module Report {
  import opened Allocator

  /** The delay cost charged for every ULD that priority packages are spread into (trial.py:57). */
  const K := 40

  /** priority_package_ids: the Package_IDs of the priority rows, in table order. */
  function PriorityPackageIds(packages: seq<Package>): (ids: seq<string>)
    ensures |ids| <= |packages|
    ensures forall id :: id in ids <==> exists i | 0 <= i < |packages| :: packages[i].priority && packages[i].id == id
  {
    if packages == [] then []
    else
      var rest := PriorityPackageIds(packages[1..]);
      assert forall i | 1 <= i < |packages| :: packages[1..][i - 1] == packages[i];
      (if packages[0].priority then [packages[0].id] else []) + rest
  }

  /** The list comprehension of trial.py:164: the ULD of every result entry whose package id is a priority id. */
  function PriorityUldList(results: seq<Allocation>, ids: seq<string>): (us: seq<string>)
    ensures |us| <= |results|
    ensures forall u :: u in us <==> exists k | 0 <= k < |results| :: results[k].packageId in ids && results[k].uldId == u
  {
    if results == [] then []
    else
      var rest := PriorityUldList(results[1..], ids);
      assert forall k | 1 <= k < |results| :: results[1..][k - 1] == results[k];
      (if results[0].packageId in ids then [results[0].uldId] else []) + rest
  }

  /** priority_uld_count: the number of distinct ULDs in that list. */
  function PriorityUldCount(results: seq<Allocation>, ids: seq<string>): nat {
    |set u | u in PriorityUldList(results, ids)|
  }

  /** The printed Cost Delay. */
  function DelayCost(count: nat): int {
    K * count
  }

  /** A sequence has at most as many distinct elements as entries. */
  lemma {:induction false} DistinctAtMostLength(s: seq<string>)
    ensures |set x | x in s| <= |s|
  {
    if s != [] {
      DistinctAtMostLength(s[1..]);
      assert (set x | x in s) == (set x | x in s[1..]) + {s[0]};
    }
  }

  /** A subset is no larger than its superset. */
  lemma {:induction false} SubsetNoLarger(a: set<string>, b: set<string>)
    requires a <= b
    ensures |a| <= |b|
    decreases |a|
  {
    if a != {} {
      var x :| x in a;
      SubsetNoLarger(a - {x}, b - {x});
    }
  }

  /** The count is the number of distinct ULDs that received at least one priority package. */
  lemma PriorityUldCountCountsUlds(results: seq<Allocation>, ids: seq<string>)
    ensures PriorityUldCount(results, ids) ==
            |set k | 0 <= k < |results| && results[k].packageId in ids :: results[k].uldId|
  {
    var us := PriorityUldList(results, ids);
    assert (set u | u in us) == set k | 0 <= k < |results| && results[k].packageId in ids :: results[k].uldId;
  }

  /** The count is zero exactly when no result entry carries a priority package id. */
  lemma PriorityUldCountZero(results: seq<Allocation>, ids: seq<string>)
    ensures PriorityUldCount(results, ids) == 0 <==> forall k | 0 <= k < |results| :: results[k].packageId !in ids
  {
    var us := PriorityUldList(results, ids);
    var distinct := set u | u in us;
    if exists k | 0 <= k < |results| :: results[k].packageId in ids {
      var k :| 0 <= k < |results| && results[k].packageId in ids;
      assert results[k].uldId in distinct;
    } else {
      assert distinct == {};
    }
  }

  /**
   * After a whole run, the count is at most the number of result entries, hence at most
   * the number of packages, and at most the number of ULDs; the cost is K times the count.
   */
  lemma PriorityUldCountBounds(ulds: seq<Uld>, packages: seq<Package>)
    ensures var results := Allocate(ulds, packages);
      var count := PriorityUldCount(results, PriorityPackageIds(packages));
      && count <= |results| <= |packages|
      && count <= |UldKeys(ulds)|
      && 0 <= DelayCost(count) <= K * |UldKeys(ulds)|
  {
    var keys := UldKeys(ulds);
    var init := InitialState(ulds);
    var order := SortPackages(packages);
    var results := Allocate(ulds, packages);
    var us := PriorityUldList(results, PriorityPackageIds(packages));
    DistinctAtMostLength(us);
    RunOnlyAppends(keys, init, order);
    InitiallyConsistent(ulds);
    RunKeepsConsistent(keys, init, init, order);
    assert (set u | u in us) <= set u | u in keys;
    SubsetNoLarger(set u | u in us, set u | u in keys);
    DistinctAtMostLength(keys);
  }
}
