# Greedy ULD packing engine, modelled in Dafny

This project models the packing engine of `trial.py`. The engine packs boxes
(packages) into unit load devices (ULDs) with a greedy first-fit strategy:

- `rotate_package` lists the six axis-aligned orientations of a package.
- `is_overlapping` tests whether two axis-aligned boxes collide. The comparisons are
  strict, so boxes that only touch do not collide.
- `fit_packages_to_uld` sorts the packages by (Type, Volume, Weight), all descending.
  For each package it tries the ULDs in descending order of remaining volume. A ULD
  is searched only when its remaining weight and volume cover the package's. The search
  scans integer origins x, then y, then z, under every orientation, and rejects an
  origin whose box collides with a region already in that ULD. The first ULD whose
  search succeeds receives the package. That ULD's allocation list, remaining volume
  and weight, and occupied-region list are then updated, and one
  `(Package_ID, ULD_ID, position)` entry is appended to the result list.
- After the run, the number of distinct ULDs holding priority packages is counted, and
  the delay cost is K = 40 times that count.

The model follows the code as written, including three behaviours of the loops:

1. The rotation loop is never left after a success. The `break`s leave only the y and x
   loops, and the `allocated` flag stays set. Every later orientation therefore scans
   only the column x = 0, y = 0. If that column has a free z, it overwrites the
   position found so far.
2. The extent recorded in the occupied list is whatever orientation the rotation loop
   assigned last, (Height, Width, Length). It need not be the orientation the recorded
   position was found with.
3. A package that no ULD accepts leaves no trace: no result entry and no state change.

Files:

- `geometry.dfy` (modules `Options`, `Geometry`): points, extents, regions, the six
  orientations and the collision test.
- `sorting.dfy` (module `Sorting`): a stable descending insertion sort. It stands for
  pandas' `sort_values` on the package table and Python's `sorted` on the ULD keys.
- `search.dfy` (module `Search`): the placement search inside one ULD. The x, y and z
  loops are specified by the functions `FirstFreeZ`/`FirstFreeY`/`FirstFreeX`. The
  rotation loop is specified by `SearchRotations`, with `ScanSpec` for one pass of its
  body. The methods `AnyOverlap`, `ScanRotation` and `SearchOrientations` are the loops
  as written, each proved equal to its function.
- `allocator.dfy` (module `Allocator`): the driver. `PlaceIn`, `Commit`, `Step` and `Run`
  specify it. `FitPackage`, `CommitPlacement` and `FitPackagesToUld` are the loops and
  dictionary updates as written, proved to compute `PlaceIn`, `Commit` and `Allocate`.
- `report.dfy` (module `Report`): the priority-ULD count and the delay cost.

Python's dictionaries become Dafny `map`s keyed by ULD id. The key order of the
dictionaries (`UldKeys`) is made explicit because `sorted` uses it to break ties.
`None` becomes `Option.None`.

## Model

| member | source | states |
|---|---|---|
| Geometry.Rotations | trial.py:63-73 | exactly six orientations, in the order (L,W,H), (L,H,W), (W,L,H), (W,H,L), (H,L,W), (H,W,L) |
| Geometry.RotationsKeepSides | trial.py:63-73 | every orientation has the same multiset of side lengths as the package |
| Geometry.RotationsKeepVolume | trial.py:63-73 | every orientation has the package's volume |
| Geometry.RotationsComplete | trial.py:63-73 | every arrangement of the package's three side lengths is one of the six orientations |
| Geometry.Overlapping | trial.py:147-158 | the definition of is_overlapping: collision on each axis unless one box ends where or before the other starts; its properties are stated by the four lemmas below |
| Geometry.OverlapIsStrictOnEveryAxis | trial.py:148-158 | collision holds iff, on every axis, new start < existing end and new end > existing start |
| Geometry.TouchingBoxesDoNotOverlap | trial.py:154-156 | boxes that meet only on a face, edge or corner do not collide |
| Geometry.OverlapSymmetric | trial.py:148-158 | the collision test gives the same answer when the two boxes swap roles |
| Geometry.OverlapIffShareACell | trial.py:148-158 | for boxes with positive extent, collision holds iff some unit cell of the integer grid lies in both boxes |
| Sorting.SortDescendingIsSorted | trial.py:95 | the sort returns a permutation of its input in which every element's key is at least every later element's key |
| Sorting.SortDescendingIsStable | trial.py:109 | of two input elements with equal keys, the earlier one also comes earlier in the output |
| Search.FirstFreeZ | trial.py:117-128 | the definition of the z loop from a given z for one column; FirstFreeZIsFirst states its meaning |
| Search.FirstFreeY | trial.py:116-130 | the definition of the y loop for one row; FirstFreeYIsFirst states its meaning |
| Search.FirstFreeX | trial.py:115-132 | the definition of the x loop; FirstFreeXIsFirst and FirstFitIsFirstFeasible state its meaning |
| Search.ColumnScan | trial.py:115-132 | the definition of a pass once the flag is set: only the column x = 0, y = 0 is scanned; ScanAssignsOnlyFeasible states its effect |
| Search.ScanSpec | trial.py:112-132 | the definition of one pass of the rotation loop body; ScanAssignsOnlyFeasible and OversizedRotationHasNoCandidates state its properties |
| Search.SearchRotations | trial.py:111-132 | the definition of the rotation loop, which never stops early; SearchRotationsSound and SearchFailsIffNothingFeasible state its meaning |
| Search.FirstFreeZIsFirst | trial.py:117-128 | the z loop finds the lowest free z of the column at or above its start; it finds none only when no z of the column is free |
| Search.FirstFreeYIsFirst | trial.py:116-130 | within a row x, the y loop finds the first feasible origin in scan order; it finds none only when the row has no feasible origin |
| Search.FirstFreeXIsFirst | trial.py:115-132 | the x loop finds the first feasible origin in scan order from its start; it finds none only when no origin there is feasible |
| Search.FirstFitIsFirstFeasible | trial.py:115-132 | with nothing allocated, the scan of one orientation returns the first feasible origin in x, y, z order (inside the bounds and colliding with no occupied region); it returns none exactly when no origin is feasible |
| Search.ScanAssignsOnlyFeasible | trial.py:119-132 | whenever a pass assigns best_position, the box there with the current orientation is inside the ULD and collides with nothing; once allocated, a pass never loses the position and can move it only to x = 0, y = 0 |
| Search.OversizedRotationHasNoCandidates | trial.py:115-117 | an orientation longer, wider or taller than the interior has no candidate origin and leaves best_position unchanged |
| Search.SearchRotationsSound | trial.py:111-132 | the rotation loop ends with a position that is feasible for one of the orientations, keeps an earlier success, and fails from the start only when no orientation has a feasible origin |
| Search.SearchFailsIffNothingFeasible | trial.py:111-132 | the search of a ULD fails exactly when no orientation fits anywhere free |
| Search.RotationLoopQuirks | trial.py:111-132 | on a concrete ULD, the first orientation finds (0,1,0). A later orientation overwrites this with (0,0,1). The recorded last orientation (H,W,L) does not fit at (0,0,1). |
| Search.OccupiedRegionsCanOverlap | trial.py:111-142 | three boxes placed in turn into a 2 x 2 x 2 interior land at (0,0,0), (1,0,0) and (0,1,0); the second and third regions, recorded with their last orientations, collide |
| Search.AnyOverlap | trial.py:119-123 | the inner loop reports a collision iff some occupied region collides with the candidate box |
| Search.ScanRotation | trial.py:112-132 | the x/y/z loops for one orientation, starting from the flag and position left by earlier orientations, compute exactly one pass of ScanSpec; the flag is set iff a position is held |
| Search.SearchOrientations | trial.py:111-132 | the rotation loop over all orientations computes SearchRotations from nothing allocated; the extent left behind is the last orientation |
| Allocator.UldKeys | trial.py:76 | the dictionary keys contain each ULD_ID of the table exactly once and nothing else; their order is stated by UldKeysFollowFirstOccurrence and UldKeysOfDistinctIds |
| Allocator.UldKeysFollowFirstOccurrence | trial.py:76 | of two keys, the earlier one occurs in the ULD table before every occurrence of the later one (dictionary insertion order) |
| Allocator.UldKeysOfDistinctIds | trial.py:76 | with distinct ULD_IDs the keys are exactly the table's ids in table order |
| Allocator.InitialSpaces | trial.py:79-89 | remaining_space has an entry for exactly the ULD_IDs of the table, each built from a row carrying that id |
| Allocator.InitialSpacesTakeFirstRow | trial.py:81-87 | the row used for an id is the first row carrying it (`.values[0]`) |
| Allocator.InitialState | trial.py:76-91 | every dictionary starts with an entry for every key |
| Allocator.SortPackages | trial.py:94-95 | the processing order is a permutation of the package table |
| Allocator.ByRemainingVolume | trial.py:109 | the ULD order is a permutation of the keys |
| Allocator.ProcessingOrder | trial.py:94-95 | packages are processed in (Type, Volume, Weight)-descending order, so every priority package comes before every non-priority one |
| Allocator.UldOrder | trial.py:109 | ULDs are tried in a permutation of the keys with non-increasing remaining volume |
| Allocator.UldTiesKeepKeyOrder | trial.py:109 | ULDs with equal remaining volume are tried in key order, which is the order of first occurrence in the ULD table (UldKeysFollowFirstOccurrence) |
| Allocator.KeyAtLeast | trial.py:95 | the definition of the package sort key: (Type, Volume, Weight) compared lexicographically, descending; ProcessingOrder states the resulting order |
| Allocator.HasBudget | trial.py:110 | the definition of the budget pre-filter: remaining weight and remaining volume cover the package's; AttemptMeaning and ChosenUldHasBudget state its role |
| Allocator.Attempt | trial.py:110-132 | the definition of one ULD's attempt: the pre-filter, then the rotation loop; AttemptMeaning states its meaning |
| Allocator.LastRotation | trial.py:142 | the definition of the recorded extent: the last orientation (H, W, L); FitPackage states that the loop leaves exactly this |
| Allocator.Commit | trial.py:137-144 | the definition of the commit; StepCommitsToOneUld and CommitKeepsConsistent state its effect |
| Allocator.Allocate | trial.py:75-146 | the definition of fit_packages_to_uld's result: the run from the initial state over the sorted packages; AllocateIsOrderedLog and FitPackagesToUld state its properties |
| Allocator.PlaceIn | trial.py:109-135 | a chosen ULD is one of those tried |
| Allocator.Choose | trial.py:109-135 | the ULD chosen for a package is a key |
| Allocator.Step | trial.py:99-144 | one package keeps an entry for every key in every dictionary |
| Allocator.Run | trial.py:99-144 | the package loop keeps an entry for every key in every dictionary |
| Allocator.AttemptMeaning | trial.py:110-132 | a ULD accepts a package only when it passes the budget pre-filter, at a position feasible for one orientation; it refuses exactly when the pre-filter fails or no orientation fits anywhere free |
| Allocator.PlaceInIsFirstSuccess | trial.py:109-135 | the package goes to the first ULD in the order whose attempt succeeds, at that attempt's position; it goes nowhere iff every attempt fails |
| Allocator.StepCommitsToOneUld | trial.py:137-144 | a commit changes only the chosen ULD. Its volume and weight drop by exactly the package's and stay non-negative. Its interior is unchanged. Its occupied list gains one region: the position found, with the last orientation's extent. Its allocation list gains the Package_ID, and the result list gains one entry. An unplaced package changes nothing. |
| Allocator.ChosenUldHasBudget | trial.py:110 | the ULD a package goes to is a key that passed the budget pre-filter |
| Allocator.InitiallyConsistent | trial.py:76-91 | the initial state satisfies the run invariant |
| Allocator.CommitKeepsConsistent | trial.py:137-144 | a commit to a ULD that passed the pre-filter keeps the run invariant |
| Allocator.StepKeepsConsistent | trial.py:99-144 | one package keeps the run invariant |
| Allocator.RunKeepsConsistent | trial.py:99-144 | every run keeps the run invariant: interiors fixed; each allocation list equals the result entries for that ULD and is as long as its occupied list; every result names a key; a ULD that has received a package has non-negative volume and weight |
| Allocator.InitialBudgetsNonNegative | trial.py:79-89 | ULDs with non-negative dimensions and weight limits start with non-negative remaining volume and weight |
| Allocator.RunKeepsBudgetsNonNegative | trial.py:110-140 | remaining volume and weight never become negative, because a ULD is charged only after passing the budget pre-filter |
| Allocator.StepAppendsAtMostOne | trial.py:137-144 | one package only appends: at most one result entry, carrying its Package_ID; occupied lists only grow |
| Allocator.RunOnlyAppends | trial.py:97-144 | a run keeps earlier results, adds at most one entry per package and only extends occupied lists |
| Allocator.RunAppendsInOrder | trial.py:99-144 | the appended entries correspond to strictly increasing positions of the processing order, each carrying that package's id |
| Allocator.AllocateIsOrderedLog | trial.py:97-146 | the result of a whole run has at most one entry per package, each entry names a ULD of the table, and the entries follow the processing order |
| Allocator.TraceFollowsRun | trial.py:99-144 | the package loop passes through one state per package, each the step of the previous one, and ends in the run's final state |
| Allocator.FitPackage | trial.py:100-135 | the ULD loop with the budget pre-filter and the rotation loop computes PlaceIn over the ULD order. On success the extent left behind is the last orientation. |
| Allocator.CommitPlacement | trial.py:137-144 | the dictionary updates as written (two separate decrements included) produce exactly the Commit state |
| Allocator.FitPackagesToUld | trial.py:75-146 | the result list is Allocate of the tables. It has at most one entry per package, every entry names a ULD of the table, and entries follow the processing order. |
| Report.PriorityPackageIds | trial.py:163 | the list holds exactly the Package_IDs of the priority rows, with at most one entry per row |
| Report.PriorityUldList | trial.py:164 | the list holds exactly the ULD ids of result entries whose package id is a priority id |
| Report.PriorityUldCount | trial.py:164 | the definition of priority_uld_count, the number of distinct ULDs in the list; PriorityUldCountCountsUlds, PriorityUldCountZero and PriorityUldCountBounds state its meaning |
| Report.DelayCost | trial.py:167 | the definition of the printed cost, K times the count; PriorityUldCountBounds bounds it |
| Report.PriorityUldCountCountsUlds | trial.py:164 | the count equals the number of distinct ULDs among result entries with a priority package id |
| Report.PriorityUldCountZero | trial.py:164 | the count is zero iff no result entry carries a priority package id |
| Report.PriorityUldCountBounds | trial.py:163-167 | after a run, the count is at most the number of result entries, which is at most the number of packages. It is also at most the number of ULDs. The printed cost K × count lies between 0 and K × (number of ULDs). |

## Left out

- Data literals and the pandas DataFrame construction (trial.py:1-61): the model takes the ULD and package tables as sequences of integer records. Cost_of_Delay is never read by the engine, so it is not a field of `Package`.
- Printing (trial.py:166-170) is output only. The model computes the printed count and cost as values.
- final.cpp is not part of this model. It has CSV I/O, a clock, and an OpenMP loop with a data race on shared state. Its placement never checks overlap, so it has no sequential behaviour worth stating.
- The `positions` dictionary (trial.py:77) is built and never used.
- Allocator.SortPackages: pandas' `sort_values` is not guaranteed stable. The model uses a stable sort, but only the (Type, Volume, Weight) order is claimed (Allocator.ProcessingOrder). No tie-break beyond those keys is stated.
- Allocator.FitPackagesToUld: Python integers are unbounded but pandas stores int64 columns. Overflow of Volume (Length × Width × Height) or of the budget arithmetic is not modelled.
- No non-overlap invariant is stated for the occupied lists, because it does not hold: each region is recorded with the last orientation, not the one its position was found with. Search.OccupiedRegionsCanOverlap shows two recorded regions of one ULD that collide, and Search.RotationLoopQuirks shows a recorded region that does not even fit the interior at its position.
- Unplaced packages: the code appends nothing for them (trial.py:137-144), so `uld_id is not None` (trial.py:164) is always true.
- Input validation (negative dimensions, duplicate ids) is not performed by the code, so the model accepts any integers. Non-negative budgets are proved under non-negative inputs (Allocator.InitialBudgetsNonNegative).
