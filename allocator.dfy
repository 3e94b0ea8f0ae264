/**
 * The allocation driver, fit_packages_to_uld (trial.py:75-146). Packages are sorted
 * once by (Type, Volume, Weight), all descending. For each package the ULDs are tried
 * in descending order of remaining volume; a ULD whose remaining weight or volume is
 * below the package's is skipped; the first ULD whose search succeeds receives the
 * package, which updates that ULD's entries of the allocations, remaining_space and
 * occupied_positions dictionaries and appends one entry to allocations_result.
 * A package no ULD accepts leaves no trace.
 */
module Allocator {
  import opened Options
  import opened Geometry
  import opened Sorting
  import opened Search

  /** A row of the ULD table: ULD_ID, Length, Width, Height, Weight_Limit. */
  datatype Uld = Uld(id: string, length: int, width: int, height: int, weightLimit: int)

  /** A row of the package table: Package_ID, Length, Width, Height, Weight, Type (true: priority). */
  datatype Package = Package(id: string, length: int, width: int, height: int, weight: int, priority: bool)

  /** A value of remaining_space: the interior Length, Width, Height and the remaining Volume and Weight. */
  datatype Space = Space(length: int, width: int, height: int, volume: int, weight: int)

  /** An entry of allocations_result: (Package_ID, ULD id, position). */
  datatype Allocation = Allocation(packageId: string, uldId: string, position: Point)

  /** Where a package goes: best_uld and best_position. */
  datatype Placement = Placement(uld: string, position: Point)

  /** The allocator's per-run state: the allocations, remaining_space and occupied_positions dictionaries and allocations_result. */
  datatype State = State(
    allocations: map<string, seq<string>>,
    remaining: map<string, Space>,
    occupied: map<string, seq<Region>>,
    results: seq<Allocation>)

  function PackageDims(p: Package): Dims {
    Dims(p.length, p.width, p.height)
  }

  /** The Volume column added at trial.py:94. */
  function PackageVolume(p: Package): int {
    Volume(PackageDims(p))
  }

  function Interior(space: Space): Dims {
    Dims(space.length, space.width, space.height)
  }

  // ---------------------------------------------------------------------------
  // Initial state (trial.py:76-91)

  /** The keys of the per-ULD dictionaries, in insertion order: each ULD_ID once, where it first occurs. */
  function UldKeys(ulds: seq<Uld>): (keys: seq<string>)
    ensures forall i, j | 0 <= i < j < |keys| :: keys[i] != keys[j]
    ensures forall u :: u in keys <==> exists i | 0 <= i < |ulds| :: ulds[i].id == u
  {
    if ulds == [] then []
    else
      var keys := UldKeys(ulds[..|ulds| - 1]);
      var id := ulds[|ulds| - 1].id;
      assert forall i | 0 <= i < |ulds| - 1 :: ulds[..|ulds| - 1][i] == ulds[i];
      if id in keys then keys else keys + [id]
  }

  /**
   * The keys follow the table: of two keys, the earlier one occurs in the ULD table
   * before every occurrence of the later one (dictionary insertion order, trial.py:76).
   */
  lemma {:induction false} UldKeysFollowFirstOccurrence(ulds: seq<Uld>, i: int, j: int, q: int)
    requires 0 <= i < j < |UldKeys(ulds)|
    requires 0 <= q < |ulds| && ulds[q].id == UldKeys(ulds)[j]
    ensures exists p | 0 <= p < q :: ulds[p].id == UldKeys(ulds)[i]
  {
    var n := |ulds|;
    var init := ulds[..n - 1];
    var before := UldKeys(init);
    var keys := UldKeys(ulds);
    var id := ulds[n - 1].id;
    assert forall k | 0 <= k < n - 1 :: init[k] == ulds[k];
    if id in before {
      assert keys == before;
      if q < n - 1 {
        UldKeysFollowFirstOccurrence(init, i, j, q);
        var p :| 0 <= p < q && init[p].id == before[i];
        assert ulds[p].id == keys[i];
      } else {
        assert before[i] in before;
        var p :| 0 <= p < n - 1 && init[p].id == before[i];
        assert ulds[p].id == keys[i];
      }
    } else {
      assert keys == before + [id];
      if j < |before| {
        assert keys[j] in before;
        assert q < n - 1;
        UldKeysFollowFirstOccurrence(init, i, j, q);
        var p :| 0 <= p < q && init[p].id == before[i];
        assert ulds[p].id == keys[i];
      } else {
        assert keys[i] == before[i] && before[i] in before;
        var p :| 0 <= p < n - 1 && init[p].id == before[i];
        assert forall k | 0 <= k < n - 1 :: init[k].id != id;
        assert ulds[p].id == keys[i];
      }
    }
  }

  /** With distinct ULD_IDs the keys are the table's ids in table order. */
  lemma {:induction false} UldKeysOfDistinctIds(ulds: seq<Uld>)
    requires forall i, j | 0 <= i < j < |ulds| :: ulds[i].id != ulds[j].id
    ensures UldKeys(ulds) == seq(|ulds|, i requires 0 <= i < |ulds| => ulds[i].id)
  {
    if ulds != [] {
      var init := ulds[..|ulds| - 1];
      assert forall k | 0 <= k < |ulds| - 1 :: init[k] == ulds[k];
      UldKeysOfDistinctIds(init);
      var id := ulds[|ulds| - 1].id;
      assert forall k | 0 <= k < |init| :: UldKeys(init)[k] != id;
      assert UldKeys(ulds) == UldKeys(init) + [id];
    }
  }

  /** A ULD's entry of remaining_space at the start: its interior, its full volume and its weight limit. */
  function InitialSpace(uld: Uld): Space {
    Space(uld.length, uld.width, uld.height, uld.length * uld.width * uld.height, uld.weightLimit)
  }

  /** remaining_space at the start: an entry for every ULD_ID, built from one of the rows carrying it. */
  function InitialSpaces(ulds: seq<Uld>): (spaces: map<string, Space>)
    ensures forall u :: u in spaces <==> exists i | 0 <= i < |ulds| :: ulds[i].id == u
    ensures forall u | u in spaces :: exists i | 0 <= i < |ulds| :: spaces[u] == InitialSpace(ulds[i])
  {
    if ulds == [] then map[]
    else
      var rest := InitialSpaces(ulds[1..]);
      assert forall i | 1 <= i < |ulds| :: ulds[1..][i - 1] == ulds[i];
      rest[ulds[0].id := InitialSpace(ulds[0])]
  }

  /** The row used for an id is the one `.values[0]` selects: the first row carrying that id. */
  lemma {:induction false} InitialSpacesTakeFirstRow(ulds: seq<Uld>, i: int)
    requires 0 <= i < |ulds|
    requires forall j | 0 <= j < i :: ulds[j].id != ulds[i].id
    ensures InitialSpaces(ulds)[ulds[i].id] == InitialSpace(ulds[i])
  {
    if i > 0 {
      assert forall j | 0 <= j < i - 1 :: ulds[1..][j] == ulds[j + 1];
      InitialSpacesTakeFirstRow(ulds[1..], i - 1);
    }
  }

  /** Every dictionary of the state has an entry for every key. */
  predicate Tracks(keys: seq<string>, st: State) {
    forall u | u in keys :: u in st.allocations && u in st.remaining && u in st.occupied
  }

  /** A dictionary with an empty list for every key, as allocations and occupied_positions start. */
  function EmptyLists<T>(keys: seq<string>): (m: map<string, seq<T>>)
    ensures forall u :: u in m <==> u in keys
    ensures forall u | u in m :: m[u] == []
  {
    map u | u in keys :: []
  }

  function InitialState(ulds: seq<Uld>): (st: State)
    ensures Tracks(UldKeys(ulds), st)
  {
    var keys := UldKeys(ulds);
    State(EmptyLists(keys), InitialSpaces(ulds), EmptyLists(keys), [])
  }

  // ---------------------------------------------------------------------------
  // Orders (trial.py:94-95 and 109)

  /** The sort key of `a`, (Type, Volume, Weight), is at least that of `b`; True sorts above False. */
  predicate KeyAtLeast(a: Package, b: Package) {
    if a.priority != b.priority then a.priority
    else if PackageVolume(a) != PackageVolume(b) then PackageVolume(a) > PackageVolume(b)
    else a.weight >= b.weight
  }

  /** The processing order: the packages sorted by (Type, Volume, Weight), all descending. */
  function SortPackages(packages: seq<Package>): (order: seq<Package>)
    ensures multiset(order) == multiset(packages)
    ensures |order| == |packages|
  {
    SortDescending(packages, KeyAtLeast)
  }

  /** Remaining volume of ULD `u` (every key has an entry while the allocator runs). */
  function VolumeOf(remaining: map<string, Space>, u: string): int {
    if u in remaining then remaining[u].volume else 0
  }

  /** The ULD order tried for one package: the keys by descending remaining volume, ties in key order. */
  function ByRemainingVolume(keys: seq<string>, remaining: map<string, Space>): (order: seq<string>)
    ensures multiset(order) == multiset(keys)
    ensures forall u :: u in order <==> u in keys
  {
    var order := SortDescending(keys, (u: string, v: string) => VolumeOf(remaining, u) >= VolumeOf(remaining, v));
    assert forall u :: u in order <==> u in multiset(order);
    order
  }

  /**
   * Packages are processed in a permutation of the input ordered by (Type, Volume, Weight),
   * all descending; in particular every priority package comes before every other one.
   */
  lemma ProcessingOrder(packages: seq<Package>)
    ensures multiset(SortPackages(packages)) == multiset(packages)
    ensures forall i, j | 0 <= i < j < |SortPackages(packages)| ::
              KeyAtLeast(SortPackages(packages)[i], SortPackages(packages)[j])
    ensures forall i, j | 0 <= i < j < |SortPackages(packages)| && SortPackages(packages)[j].priority ::
              SortPackages(packages)[i].priority
  {
    SortDescendingIsSorted(packages, KeyAtLeast);
  }

  /** The ULDs are tried in a permutation of the keys with non-increasing remaining volume. */
  lemma UldOrder(keys: seq<string>, remaining: map<string, Space>)
    ensures multiset(ByRemainingVolume(keys, remaining)) == multiset(keys)
    ensures forall i, j | 0 <= i < j < |ByRemainingVolume(keys, remaining)| ::
              VolumeOf(remaining, ByRemainingVolume(keys, remaining)[i]) >=
              VolumeOf(remaining, ByRemainingVolume(keys, remaining)[j])
  {
    var atLeast := (u: string, v: string) => VolumeOf(remaining, u) >= VolumeOf(remaining, v);
    SortDescendingIsSorted(keys, atLeast);
  }

  /** Python's sorted is stable: of two ULDs with equal remaining volume, the one earlier in key order is tried first. */
  lemma UldTiesKeepKeyOrder(keys: seq<string>, remaining: map<string, Space>, i: int, j: int)
    requires 0 <= i < j < |keys|
    requires VolumeOf(remaining, keys[i]) == VolumeOf(remaining, keys[j])
    ensures Before(ByRemainingVolume(keys, remaining), keys[i], keys[j])
  {
    var atLeast := (u: string, v: string) => VolumeOf(remaining, u) >= VolumeOf(remaining, v);
    SortDescendingIsStable(keys, atLeast, i, j);
  }

  // ---------------------------------------------------------------------------
  // One package (trial.py:99-144)

  /** The budget pre-filter of trial.py:110. */
  predicate HasBudget(space: Space, pkg: Package) {
    space.weight >= pkg.weight && space.volume >= PackageVolume(pkg)
  }

  /** The outcome of trying one ULD: skipped by the pre-filter, or searched over all six orientations. */
  function Attempt(space: Space, occupied: seq<Region>, pkg: Package): Option<Point> {
    if HasBudget(space, pkg) then SearchRotations(Interior(space), occupied, Rotations(PackageDims(pkg)), None)
    else None
  }

  /** The ULD loop (trial.py:109-135): the first ULD of `order` whose attempt succeeds. */
  function PlaceIn(remaining: map<string, Space>, occupied: map<string, seq<Region>>, order: seq<string>, pkg: Package)
    : (r: Option<Placement>)
    requires forall u | u in order :: u in remaining && u in occupied
    ensures r.Some? ==> r.value.uld in order
  {
    if order == [] then None
    else
      var found := Attempt(remaining[order[0]], occupied[order[0]], pkg);
      if found.Some? then Some(Placement(order[0], found.value))
      else PlaceIn(remaining, occupied, order[1..], pkg)
  }

  /** `(p_length, p_width, p_height)` after the rotation loop: always the last orientation, (H, W, L). */
  function LastRotation(pkg: Package): Dims {
    var rots := Rotations(PackageDims(pkg));
    rots[|rots| - 1]
  }

  /** The commit of trial.py:137-144. */
  function Commit(st: State, pl: Placement, pkg: Package): State
    requires pl.uld in st.allocations && pl.uld in st.remaining && pl.uld in st.occupied
  {
    var u := pl.uld;
    var space := st.remaining[u];
    State(
      st.allocations[u := st.allocations[u] + [pkg.id]],
      st.remaining[u := space.(volume := space.volume - PackageVolume(pkg), weight := space.weight - pkg.weight)],
      st.occupied[u := st.occupied[u] + [Region(pl.position, LastRotation(pkg))]],
      st.results + [Allocation(pkg.id, u, pl.position)])
  }

  /** The placement chosen for `pkg` in state `st`, if any. */
  function Choose(keys: seq<string>, st: State, pkg: Package): (r: Option<Placement>)
    requires Tracks(keys, st)
    ensures r.Some? ==> r.value.uld in keys
  {
    PlaceIn(st.remaining, st.occupied, ByRemainingVolume(keys, st.remaining), pkg)
  }

  /** One iteration of the package loop. */
  function Step(keys: seq<string>, st: State, pkg: Package): (next: State)
    requires Tracks(keys, st)
    ensures Tracks(keys, next)
  {
    match Choose(keys, st, pkg)
    case None => st
    case Some(pl) => Commit(st, pl, pkg)
  }

  /** The package loop over `pkgs` from state `st`. */
  function Run(keys: seq<string>, st: State, pkgs: seq<Package>): (final: State)
    requires Tracks(keys, st)
    ensures Tracks(keys, final)
    decreases |pkgs|
  {
    if pkgs == [] then st else Run(keys, Step(keys, st, pkgs[0]), pkgs[1..])
  }

  /** fit_packages_to_uld: the result list of a whole run. */
  function Allocate(ulds: seq<Uld>, packages: seq<Package>): seq<Allocation> {
    Run(UldKeys(ulds), InitialState(ulds), SortPackages(packages)).results
  }

  // ---------------------------------------------------------------------------
  // Properties of one package's placement

  /**
   * A ULD accepts a package only when it passes the budget pre-filter and the position
   * found is feasible for one of the package's orientations; it refuses the package
   * exactly when the pre-filter fails or no orientation fits anywhere free.
   */
  lemma AttemptMeaning(space: Space, occupied: seq<Region>, pkg: Package)
    ensures var rots := Rotations(PackageDims(pkg));
      match Attempt(space, occupied, pkg)
      case Some(p) =>
        HasBudget(space, pkg) && exists i | 0 <= i < |rots| :: Feasible(Interior(space), occupied, rots[i], p)
      case None =>
        !HasBudget(space, pkg) || forall i, q | 0 <= i < |rots| :: !Feasible(Interior(space), occupied, rots[i], q)
  {
    SearchRotationsSound(Interior(space), occupied, Rotations(PackageDims(pkg)), None);
  }

  /**
   * The package goes to the first ULD of the order whose attempt succeeds, at the
   * position that attempt found; it goes nowhere exactly when every attempt fails.
   */
  lemma {:induction false} PlaceInIsFirstSuccess(
    remaining: map<string, Space>, occupied: map<string, seq<Region>>, order: seq<string>, pkg: Package)
    requires forall u | u in order :: u in remaining && u in occupied
    ensures match PlaceIn(remaining, occupied, order, pkg)
      case Some(pl) =>
        exists k | 0 <= k < |order| ::
          && order[k] == pl.uld
          && Attempt(remaining[order[k]], occupied[order[k]], pkg) == Some(pl.position)
          && forall j | 0 <= j < k :: Attempt(remaining[order[j]], occupied[order[j]], pkg).None?
      case None =>
        forall j | 0 <= j < |order| :: Attempt(remaining[order[j]], occupied[order[j]], pkg).None?
  {
    if order != [] {
      var found := Attempt(remaining[order[0]], occupied[order[0]], pkg);
      if found.Some? {
        assert PlaceIn(remaining, occupied, order, pkg) == Some(Placement(order[0], found.value));
      } else {
        PlaceInIsFirstSuccess(remaining, occupied, order[1..], pkg);
        match PlaceIn(remaining, occupied, order, pkg)
        case Some(pl) =>
          var k :| 0 <= k < |order[1..]| && order[1..][k] == pl.uld
            && Attempt(remaining[order[1..][k]], occupied[order[1..][k]], pkg) == Some(pl.position)
            && forall j | 0 <= j < k :: Attempt(remaining[order[1..][j]], occupied[order[1..][j]], pkg).None?;
          assert forall j | 0 < j <= k :: order[j] == order[1..][j - 1];
          assert order[k + 1] == pl.uld;
        case None =>
          assert forall j | 0 < j < |order| :: order[j] == order[1..][j - 1];
      }
    }
  }

  /**
   * A commit changes only the chosen ULD: its volume and weight drop by exactly the
   * package's, and stay non-negative because the pre-filter passed; its occupied list
   * gains one region (at the position found, with the last orientation's extent); its
   * interior never changes; the result list gains one entry. An unplaced package
   * changes nothing.
   */
  lemma StepCommitsToOneUld(keys: seq<string>, st: State, pkg: Package)
    requires Tracks(keys, st)
    ensures var next := Step(keys, st, pkg);
      match Choose(keys, st, pkg)
      case None => next == st
      case Some(pl) =>
        var u := pl.uld;
        && u in keys
        && HasBudget(st.remaining[u], pkg)
        && next.remaining[u].volume == st.remaining[u].volume - PackageVolume(pkg) >= 0
        && next.remaining[u].weight == st.remaining[u].weight - pkg.weight >= 0
        && Interior(next.remaining[u]) == Interior(st.remaining[u])
        && next.occupied[u] == st.occupied[u] + [Region(pl.position, LastRotation(pkg))]
        && next.allocations[u] == st.allocations[u] + [pkg.id]
        && next.results == st.results + [Allocation(pkg.id, u, pl.position)]
        && (forall v | v in keys && v != u ::
              && next.remaining[v] == st.remaining[v]
              && next.occupied[v] == st.occupied[v]
              && next.allocations[v] == st.allocations[v])
  {
    match Choose(keys, st, pkg)
    case None =>
    case Some(pl) =>
      PlaceInIsFirstSuccess(st.remaining, st.occupied, ByRemainingVolume(keys, st.remaining), pkg);
  }

  // ---------------------------------------------------------------------------
  // Properties of a whole run

  /** The Package_IDs that allocations_result records for ULD `u`, in order. */
  function PackagesIn(results: seq<Allocation>, u: string): seq<string> {
    if results == [] then []
    else
      var last := results[|results| - 1];
      PackagesIn(results[..|results| - 1], u) + (if last.uldId == u then [last.packageId] else [])
  }

  /**
   * What a run keeps true: every dictionary has every key; interiors never change;
   * each ULD's allocations list is exactly the result entries for that ULD and has as
   * many entries as its occupied list; every result names a key; and a ULD that has
   * received a package has non-negative remaining volume and weight.
   */
  ghost predicate Consistent(keys: seq<string>, init: State, st: State) {
    && Tracks(keys, init) && Tracks(keys, st)
    && (forall u | u in keys :: Interior(st.remaining[u]) == Interior(init.remaining[u]))
    && (forall u | u in keys :: st.allocations[u] == PackagesIn(st.results, u))
    && (forall u | u in keys :: |st.occupied[u]| == |st.allocations[u]|)
    && (forall k | 0 <= k < |st.results| :: st.results[k].uldId in keys)
    && (forall u | u in keys && st.occupied[u] != [] :: st.remaining[u].volume >= 0 && st.remaining[u].weight >= 0)
  }

  /** The state before the first package is consistent. */
  lemma InitiallyConsistent(ulds: seq<Uld>)
    ensures Consistent(UldKeys(ulds), InitialState(ulds), InitialState(ulds))
  {
  }

  /** The chosen ULD of a placement is a key and passed the budget pre-filter. */
  lemma ChosenUldHasBudget(keys: seq<string>, st: State, pkg: Package)
    requires Tracks(keys, st)
    ensures match Choose(keys, st, pkg)
      case None => true
      case Some(pl) => pl.uld in keys && HasBudget(st.remaining[pl.uld], pkg)
  {
    var order := ByRemainingVolume(keys, st.remaining);
    PlaceInIsFirstSuccess(st.remaining, st.occupied, order, pkg);
  }

  lemma CommitKeepsConsistent(keys: seq<string>, init: State, st: State, pl: Placement, pkg: Package)
    requires Consistent(keys, init, st)
    requires pl.uld in keys && HasBudget(st.remaining[pl.uld], pkg)
    ensures Consistent(keys, init, Commit(st, pl, pkg))
  {
    var next := Commit(st, pl, pkg);
    assert next.results[..|next.results| - 1] == st.results;
    forall k | 0 <= k < |next.results| ensures next.results[k].uldId in keys {
      if k < |st.results| {
        assert next.results[k] == st.results[k];
      }
    }
  }

  lemma StepKeepsConsistent(keys: seq<string>, init: State, st: State, pkg: Package)
    requires Consistent(keys, init, st)
    ensures Consistent(keys, init, Step(keys, st, pkg))
  {
    ChosenUldHasBudget(keys, st, pkg);
    match Choose(keys, st, pkg)
    case None =>
    case Some(pl) =>
      CommitKeepsConsistent(keys, init, st, pl, pkg);
  }

  /** Every run keeps the state consistent. */
  lemma {:induction false} RunKeepsConsistent(keys: seq<string>, init: State, st: State, pkgs: seq<Package>)
    requires Consistent(keys, init, st)
    ensures Consistent(keys, init, Run(keys, st, pkgs))
    decreases |pkgs|
  {
    if pkgs != [] {
      StepKeepsConsistent(keys, init, st, pkgs[0]);
      RunKeepsConsistent(keys, init, Step(keys, st, pkgs[0]), pkgs[1..]);
    }
  }

  /** Every ULD has non-negative remaining volume and weight. */
  ghost predicate BudgetsNonNegative(keys: seq<string>, st: State)
    requires Tracks(keys, st)
  {
    forall u | u in keys :: st.remaining[u].volume >= 0 && st.remaining[u].weight >= 0
  }

  lemma ProductNonNegative(a: int, b: int, c: int)
    requires a >= 0 && b >= 0 && c >= 0
    ensures a * b * c >= 0
  {
    assert a * b >= 0;
  }

  /** ULDs with non-negative dimensions and weight limits start with non-negative budgets. */
  lemma InitialBudgetsNonNegative(ulds: seq<Uld>)
    requires forall i | 0 <= i < |ulds| ::
      ulds[i].length >= 0 && ulds[i].width >= 0 && ulds[i].height >= 0 && ulds[i].weightLimit >= 0
    ensures BudgetsNonNegative(UldKeys(ulds), InitialState(ulds))
  {
    var spaces := InitialSpaces(ulds);
    forall u | u in UldKeys(ulds) ensures spaces[u].volume >= 0 && spaces[u].weight >= 0 {
      var i :| 0 <= i < |ulds| && spaces[u] == InitialSpace(ulds[i]);
      ProductNonNegative(ulds[i].length, ulds[i].width, ulds[i].height);
    }
  }

  /** Remaining budgets never become negative: the pre-filter guards every decrement. */
  lemma {:induction false} RunKeepsBudgetsNonNegative(keys: seq<string>, st: State, pkgs: seq<Package>)
    requires Tracks(keys, st) && BudgetsNonNegative(keys, st)
    ensures BudgetsNonNegative(keys, Run(keys, st, pkgs))
    decreases |pkgs|
  {
    if pkgs != [] {
      StepCommitsToOneUld(keys, st, pkgs[0]);
      RunKeepsBudgetsNonNegative(keys, Step(keys, st, pkgs[0]), pkgs[1..]);
    }
  }

  /**
   * `idx` maps the result entries `entries` to strictly increasing positions of `pkgs`
   * whose Package_ID they carry: the entries follow the processing order, one per
   * placed package at most.
   */
  ghost predicate InProcessingOrder(entries: seq<Allocation>, pkgs: seq<Package>, idx: seq<int>) {
    && |idx| == |entries|
    && (forall k | 0 <= k < |idx| :: 0 <= idx[k] < |pkgs| && entries[k].packageId == pkgs[idx[k]].id)
    && (forall k, m | 0 <= k < m < |idx| :: idx[k] < idx[m])
  }

  /** Entries in order for the packages after the first are in order for all of them. */
  lemma InOrderAfterFirst(entries: seq<Allocation>, pkgs: seq<Package>, idx: seq<int>) returns (shifted: seq<int>)
    requires pkgs != [] && InProcessingOrder(entries, pkgs[1..], idx)
    ensures InProcessingOrder(entries, pkgs, shifted)
    ensures forall k | 0 <= k < |shifted| :: shifted[k] > 0
  {
    shifted := seq(|idx|, k requires 0 <= k < |idx| => idx[k] + 1);
    assert forall k | 0 <= k < |idx| :: pkgs[shifted[k]] == pkgs[1..][idx[k]];
  }

  /** An entry for the first package may precede entries for the later ones. */
  lemma InOrderWithFirst(e: Allocation, entries: seq<Allocation>, pkgs: seq<Package>, idx: seq<int>)
    requires pkgs != [] && e.packageId == pkgs[0].id
    requires InProcessingOrder(entries, pkgs, idx)
    requires forall k | 0 <= k < |idx| :: idx[k] > 0
    ensures InProcessingOrder([e] + entries, pkgs, [0] + idx)
  {
    var all, ix := [e] + entries, [0] + idx;
    assert forall k | 1 <= k < |ix| :: ix[k] == idx[k - 1] && all[k] == entries[k - 1];
  }

  /**
   * If the first package appended at most its own entry to `before`, giving `mid`, and
   * the entries after `mid` follow the remaining packages, then everything after
   * `before` follows all of them.
   */
  lemma AppendedInOrder(before: seq<Allocation>, mid: seq<Allocation>, all: seq<Allocation>,
                        pkgs: seq<Package>, idx: seq<int>)
    requires pkgs != []
    requires || mid == before
             || (|mid| == |before| + 1 && mid[..|before|] == before && mid[|before|].packageId == pkgs[0].id)
    requires |mid| <= |all| && all[..|mid|] == mid
    requires InProcessingOrder(all[|mid|..], pkgs[1..], idx)
    ensures exists idx' :: InProcessingOrder(all[|before|..], pkgs, idx')
  {
    var rest := all[|mid|..];
    var shifted := InOrderAfterFirst(rest, pkgs, idx);
    if mid == before {
      assert all[|before|..] == rest;
    } else {
      assert all[|before|..] == [mid[|before|]] + rest;
      InOrderWithFirst(mid[|before|], rest, pkgs, shifted);
    }
  }

  /** One package adds at most one result entry, carrying its Package_ID, and only appends. */
  lemma StepAppendsAtMostOne(keys: seq<string>, st: State, pkg: Package)
    requires Tracks(keys, st)
    ensures var next := Step(keys, st, pkg);
      && (forall u | u in keys :: st.occupied[u] <= next.occupied[u])
      && (|| next.results == st.results
          || (&& |next.results| == |st.results| + 1
              && next.results[..|st.results|] == st.results
              && next.results[|st.results|].packageId == pkg.id))
  {
    match Choose(keys, st, pkg)
    case None =>
    case Some(pl) =>
      var next := Commit(st, pl, pkg);
      assert next.results[..|st.results|] == st.results;
  }

  /**
   * Results are append-only: a run keeps the earlier entries and adds at most one
   * entry per processed package; occupied lists only grow.
   */
  lemma {:induction false} RunOnlyAppends(keys: seq<string>, st: State, pkgs: seq<Package>)
    requires Tracks(keys, st)
    ensures var final := Run(keys, st, pkgs);
      && |st.results| <= |final.results| <= |st.results| + |pkgs|
      && final.results[..|st.results|] == st.results
      && (forall u | u in keys :: st.occupied[u] <= final.occupied[u])
    decreases |pkgs|
  {
    if pkgs != [] {
      var next := Step(keys, st, pkgs[0]);
      var final := Run(keys, next, pkgs[1..]);
      assert Run(keys, st, pkgs) == final;
      StepAppendsAtMostOne(keys, st, pkgs[0]);
      RunOnlyAppends(keys, next, pkgs[1..]);
      assert final.results[..|st.results|] == next.results[..|st.results|];
      forall u | u in keys ensures st.occupied[u] <= final.occupied[u] {
        assert st.occupied[u] <= next.occupied[u] <= final.occupied[u];
      }
    }
  }

  /** The state after the first package of a run, and what that step does to the results. */
  lemma FirstStep(keys: seq<string>, st: State, pkgs: seq<Package>) returns (next: State)
    requires Tracks(keys, st) && pkgs != []
    ensures Tracks(keys, next) && Run(keys, st, pkgs) == Run(keys, next, pkgs[1..])
    ensures || next.results == st.results
            || (&& |next.results| == |st.results| + 1
                && next.results[..|st.results|] == st.results
                && next.results[|st.results|].packageId == pkgs[0].id)
  {
    next := Step(keys, st, pkgs[0]);
    StepAppendsAtMostOne(keys, st, pkgs[0]);
  }

  /** The entries a run appends follow the processing order, one per placed package at most. */
  lemma {:induction false} RunAppendsInOrder(keys: seq<string>, st: State, pkgs: seq<Package>)
    requires Tracks(keys, st)
    ensures |st.results| <= |Run(keys, st, pkgs).results|
    ensures exists idx :: InProcessingOrder(Run(keys, st, pkgs).results[|st.results|..], pkgs, idx)
    decreases |pkgs|
  {
    RunOnlyAppends(keys, st, pkgs);
    var all := Run(keys, st, pkgs).results;
    if pkgs == [] {
      assert InProcessingOrder(all[|st.results|..], pkgs, []);
    } else {
      var next := FirstStep(keys, st, pkgs);
      RunOnlyAppends(keys, next, pkgs[1..]);
      RunAppendsInOrder(keys, next, pkgs[1..]);
      var idx :| InProcessingOrder(all[|next.results|..], pkgs[1..], idx);
      AppendedInOrder(st.results, next.results, all, pkgs, idx);
    }
  }

  /**
   * The result of a whole run has at most one entry per package, every entry names a
   * ULD of the table, and the entries follow the processing order.
   */
  lemma AllocateIsOrderedLog(ulds: seq<Uld>, packages: seq<Package>)
    ensures var results := Allocate(ulds, packages);
      && |results| <= |packages|
      && (forall k | 0 <= k < |results| :: results[k].uldId in UldKeys(ulds))
      && exists idx :: InProcessingOrder(results, SortPackages(packages), idx)
  {
    var keys, init, order := UldKeys(ulds), InitialState(ulds), SortPackages(packages);
    InitiallyConsistent(ulds);
    RunKeepsConsistent(keys, init, init, order);
    RunOnlyAppends(keys, init, order);
    RunAppendsInOrder(keys, init, order);
    assert Allocate(ulds, packages)[|init.results|..] == Allocate(ulds, packages);
  }

  /** The states a whole run passes through, one per processed package, ending in the run's result. */
  lemma AllocationTrace(ulds: seq<Uld>, packages: seq<Package>) returns (states: seq<State>)
    ensures var keys, order := UldKeys(ulds), SortPackages(packages);
      && |states| == |order| + 1
      && states[0] == InitialState(ulds)
      && (forall k | 0 <= k < |states| :: Tracks(keys, states[k]))
      && (forall k | 0 <= k < |order| :: states[k + 1] == Step(keys, states[k], order[k]))
      && states[|order|].results == Allocate(ulds, packages)
  {
    var keys, order := UldKeys(ulds), SortPackages(packages);
    states := Trace(keys, InitialState(ulds), order);
    TraceFollowsRun(keys, InitialState(ulds), order);
  }

  // ---------------------------------------------------------------------------
  // The loops as written

  /**
   * trial.py:100-135 for one package: the ULD loop with the budget pre-filter and the
   * rotation loop. Returns best_uld, best_position and the extent the rotation loop
   * leaves in (p_length, p_width, p_height).
   */
  method FitPackage(keys: seq<string>, remainingSpace: map<string, Space>,
                    occupiedPositions: map<string, seq<Region>>, package: Package)
    returns (bestUld: Option<string>, bestPosition: Option<Point>, extent: Dims)
    requires forall u | u in keys :: u in remainingSpace && u in occupiedPositions
    ensures bestUld.Some? <==> bestPosition.Some?
    ensures PlaceIn(remainingSpace, occupiedPositions, ByRemainingVolume(keys, remainingSpace), package) ==
            if bestUld.Some? then Some(Placement(bestUld.value, bestPosition.value)) else None
    ensures bestUld.Some? ==> extent == LastRotation(package)
  {
    var packageVolume := PackageVolume(package);
    var packageWeight := package.weight;
    var packageRotations := Rotations(PackageDims(package));
    var isAllocated := false;
    bestUld, bestPosition := None, None;
    extent := Dims(0, 0, 0);
    var ulds := ByRemainingVolume(keys, remainingSpace);
    ghost var goal := PlaceIn(remainingSpace, occupiedPositions, ulds, package);
    var i := 0;
    while i < |ulds|
      invariant 0 <= i <= |ulds|
      invariant !isAllocated && bestUld == None && bestPosition == None
      invariant goal == PlaceIn(remainingSpace, occupiedPositions, ulds[i..], package)
    {
      var uld := ulds[i];
      assert ulds[i..][1..] == ulds[i + 1..];
      if remainingSpace[uld].weight >= packageWeight && remainingSpace[uld].volume >= packageVolume {
        isAllocated, bestPosition, extent :=
          SearchOrientations(Interior(remainingSpace[uld]), occupiedPositions[uld], packageRotations);
        if isAllocated {
          bestUld := Some(uld);
          break;
        }
      }
      i := i + 1;
    }
  }

  /**
   * The commit block of trial.py:137-144 as written, two in-place decrements included:
   * it does to the dictionaries and the result list exactly what Commit describes.
   */
  method CommitPlacement(allocations: map<string, seq<string>>, remainingSpace: map<string, Space>,
                         occupiedPositions: map<string, seq<Region>>, allocationsResult: seq<Allocation>,
                         bestUld: string, bestPosition: Point, extent: Dims, package: Package)
    returns (allocations': map<string, seq<string>>, remainingSpace': map<string, Space>,
             occupiedPositions': map<string, seq<Region>>, allocationsResult': seq<Allocation>)
    requires bestUld in allocations && bestUld in remainingSpace && bestUld in occupiedPositions
    requires extent == LastRotation(package)
    ensures State(allocations', remainingSpace', occupiedPositions', allocationsResult') ==
            Commit(State(allocations, remainingSpace, occupiedPositions, allocationsResult), Placement(bestUld, bestPosition), package)
  {
    allocations' := allocations[bestUld := allocations[bestUld] + [package.id]];
    remainingSpace' := remainingSpace[bestUld := remainingSpace[bestUld].(volume := remainingSpace[bestUld].volume - PackageVolume(package))];
    remainingSpace' := remainingSpace'[bestUld := remainingSpace'[bestUld].(weight := remainingSpace'[bestUld].weight - package.weight)];
    occupiedPositions' := occupiedPositions[bestUld := occupiedPositions[bestUld] + [Region(bestPosition, extent)]];
    allocationsResult' := allocationsResult + [Allocation(package.id, bestUld, bestPosition)];
  }

  /** The step for a package, given the placement the ULD loop chose for it. */
  lemma StepFollowsPlacement(keys: seq<string>, st: State, pkg: Package, chosen: Option<Placement>)
    requires Tracks(keys, st)
    requires PlaceIn(st.remaining, st.occupied, ByRemainingVolume(keys, st.remaining), pkg) == chosen
    ensures chosen.Some? ==> chosen.value.uld in keys && Step(keys, st, pkg) == Commit(st, chosen.value, pkg)
    ensures chosen.None? ==> Step(keys, st, pkg) == st
  {
    assert Choose(keys, st, pkg) == chosen;
  }

  /** The states the package loop passes through: `st`, then the state after each package of `pkgs`. */
  function Trace(keys: seq<string>, st: State, pkgs: seq<Package>): (states: seq<State>)
    requires Tracks(keys, st)
    ensures |states| == |pkgs| + 1 && states[0] == st
    decreases |pkgs|
  {
    if pkgs == [] then [st] else [st] + Trace(keys, Step(keys, st, pkgs[0]), pkgs[1..])
  }

  /** Each state of the trace is the step of the previous one, and the last state is the run's. */
  lemma {:induction false} TraceFollowsRun(keys: seq<string>, st: State, pkgs: seq<Package>)
    requires Tracks(keys, st)
    ensures var states := Trace(keys, st, pkgs);
      && (forall k | 0 <= k < |states| :: Tracks(keys, states[k]))
      && (forall k | 0 <= k < |pkgs| :: states[k + 1] == Step(keys, states[k], pkgs[k]))
      && states[|pkgs|] == Run(keys, st, pkgs)
    decreases |pkgs|
  {
    if pkgs != [] {
      var next := Step(keys, st, pkgs[0]);
      var rest := Trace(keys, next, pkgs[1..]);
      TraceFollowsRun(keys, next, pkgs[1..]);
      var states := Trace(keys, st, pkgs);
      assert states == [st] + rest;
      assert forall k | 1 <= k < |states| :: states[k] == rest[k - 1];
      assert forall k | 1 <= k < |pkgs| :: pkgs[k] == pkgs[1..][k - 1];
    }
  }

  /**
   * fit_packages_to_uld (trial.py:75-146): processes the packages in sorted order,
   * committing each placement to the per-ULD dictionaries, and returns allocations_result.
   */
  method FitPackagesToUld(ulds: seq<Uld>, packages: seq<Package>) returns (allocationsResult: seq<Allocation>)
    ensures allocationsResult == Allocate(ulds, packages)
    ensures |allocationsResult| <= |packages|
    ensures forall k | 0 <= k < |allocationsResult| :: allocationsResult[k].uldId in UldKeys(ulds)
    ensures exists idx :: InProcessingOrder(allocationsResult, SortPackages(packages), idx)
  {
    var keys := UldKeys(ulds);
    var allocations: map<string, seq<string>> := EmptyLists(keys);
    var remainingSpace := InitialSpaces(ulds);
    var occupiedPositions: map<string, seq<Region>> := EmptyLists(keys);
    var packageOrder := SortPackages(packages);
    allocationsResult := [];
    ghost var init := InitialState(ulds);
    assert init == State(allocations, remainingSpace, occupiedPositions, allocationsResult);
    ghost var trace := AllocationTrace(ulds, packages);
    var i := 0;
    while i < |packageOrder|
      invariant 0 <= i <= |packageOrder|
      invariant State(allocations, remainingSpace, occupiedPositions, allocationsResult) == trace[i]
    {
      var package := packageOrder[i];
      ghost var st := State(allocations, remainingSpace, occupiedPositions, allocationsResult);
      var bestUld, bestPosition, extent := FitPackage(keys, remainingSpace, occupiedPositions, package);
      ghost var chosen := if bestUld.Some? then Some(Placement(bestUld.value, bestPosition.value)) else None;
      StepFollowsPlacement(keys, st, package, chosen);
      if bestUld.Some? {
        allocations, remainingSpace, occupiedPositions, allocationsResult := CommitPlacement(
          allocations, remainingSpace, occupiedPositions, allocationsResult, bestUld.value, bestPosition.value, extent, package);
      }
      i := i + 1;
    }
    AllocateIsOrderedLog(ulds, packages);
  }
}
