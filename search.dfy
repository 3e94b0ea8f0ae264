/**
 * The placement search inside one ULD (trial.py:111-132): for every orientation
 * in turn, scan integer origins x, then y, then z, and accept an origin whose box
 * collides with none of the ULD's occupied regions.
 *
 * The scan keeps one `allocated` flag for all orientations and the `break`s after
 * a success leave only the y and x loops. So once an orientation has succeeded,
 * each later orientation visits only the column x = 0, y = 0 and, if that column
 * has a free z, overwrites the position found so far.
 */
module Search {
  import opened Options
  import opened Geometry

  /** The box at `p` with extent `rot` collides with no occupied region. */
  predicate Free(occupied: seq<Region>, p: Point, rot: Dims) {
    forall i | 0 <= i < |occupied| :: !Overlapping(p, Corner(p, rot), occupied[i])
  }

  /** `p` is an origin the scan visits for extent `rot`: 0 <= x <= L - l, 0 <= y <= W - w, 0 <= z <= H - h. */
  predicate Candidate(interior: Dims, rot: Dims, p: Point) {
    && 0 <= p.x <= interior.l - rot.l
    && 0 <= p.y <= interior.w - rot.w
    && 0 <= p.z <= interior.h - rot.h
  }

  /** `p` is a visited origin at which the box is free. */
  predicate Feasible(interior: Dims, occupied: seq<Region>, rot: Dims, p: Point) {
    Candidate(interior, rot, p) && Free(occupied, p, rot)
  }

  /** The scan visits `p` before `q`: x is the outer loop, then y, then z. */
  predicate ScannedBefore(p: Point, q: Point) {
    p.x < q.x || (p.x == q.x && (p.y < q.y || (p.y == q.y && p.z < q.z)))
  }

  /** The z loop (trial.py:117): the first free z at or after `z` in the column (x, y). */
  function FirstFreeZ(interior: Dims, occupied: seq<Region>, rot: Dims, x: int, y: int, z: int): Option<int>
    decreases interior.h - rot.h - z + 1
  {
    if z > interior.h - rot.h then None
    else if Free(occupied, Point(x, y, z), rot) then Some(z)
    else FirstFreeZ(interior, occupied, rot, x, y, z + 1)
  }

  /** The y loop (trial.py:116) from `y` on, for the row x. */
  function FirstFreeY(interior: Dims, occupied: seq<Region>, rot: Dims, x: int, y: int): Option<Point>
    decreases interior.w - rot.w - y + 1
  {
    if y > interior.w - rot.w then None
    else match FirstFreeZ(interior, occupied, rot, x, y, 0)
      case Some(z) => Some(Point(x, y, z))
      case None => FirstFreeY(interior, occupied, rot, x, y + 1)
  }

  /** The x loop (trial.py:115) from `x` on. */
  function FirstFreeX(interior: Dims, occupied: seq<Region>, rot: Dims, x: int): Option<Point>
    decreases interior.l - rot.l - x + 1
  {
    if x > interior.l - rot.l then None
    else match FirstFreeY(interior, occupied, rot, x, 0)
      case Some(p) => Some(p)
      case None => FirstFreeX(interior, occupied, rot, x + 1)
  }

  /** The scan of one orientation while nothing is allocated yet. */
  function FirstFit(interior: Dims, occupied: seq<Region>, rot: Dims): Option<Point> {
    FirstFreeX(interior, occupied, rot, 0)
  }

  /**
   * The scan of one orientation once `allocated` is set: the x and y loops each run
   * their first iteration only, so just the column x = 0, y = 0 is searched.
   */
  function ColumnScan(interior: Dims, occupied: seq<Region>, rot: Dims): Option<int> {
    if rot.l <= interior.l && rot.w <= interior.w then FirstFreeZ(interior, occupied, rot, 0, 0, 0)
    else None
  }

  /** One pass of the rotation loop body, given the best position found so far (None: nothing allocated yet). */
  function ScanSpec(interior: Dims, occupied: seq<Region>, rot: Dims, found: Option<Point>): Option<Point> {
    if found.None? then FirstFit(interior, occupied, rot)
    else match ColumnScan(interior, occupied, rot)
      case Some(z) => Some(Point(0, 0, z))
      case None => found
  }

  /** The rotation loop (trial.py:111-132): it never stops early. */
  function SearchRotations(interior: Dims, occupied: seq<Region>, rots: seq<Dims>, found: Option<Point>): Option<Point>
    decreases |rots|
  {
    if rots == [] then found
    else SearchRotations(interior, occupied, rots[1..], ScanSpec(interior, occupied, rots[0], found))
  }

  // ---------------------------------------------------------------------------
  // What the scan finds

  /** The z loop finds the lowest free z of the column, and finds none only when no z of the column is free. */
  lemma {:induction false} FirstFreeZIsFirst(interior: Dims, occupied: seq<Region>, rot: Dims, x: int, y: int, z0: int)
    ensures match FirstFreeZ(interior, occupied, rot, x, y, z0)
      case Some(z) =>
        && z0 <= z <= interior.h - rot.h
        && Free(occupied, Point(x, y, z), rot)
        && forall z' | z0 <= z' < z :: !Free(occupied, Point(x, y, z'), rot)
      case None =>
        forall z' | z0 <= z' <= interior.h - rot.h :: !Free(occupied, Point(x, y, z'), rot)
    decreases interior.h - rot.h - z0 + 1
  {
    if z0 <= interior.h - rot.h && !Free(occupied, Point(x, y, z0), rot) {
      FirstFreeZIsFirst(interior, occupied, rot, x, y, z0 + 1);
    }
  }

  /** The y loop, for a row x inside the bounds, finds the first feasible origin of that row from y0 on. */
  lemma {:induction false} FirstFreeYIsFirst(interior: Dims, occupied: seq<Region>, rot: Dims, x: int, y0: int)
    requires 0 <= x <= interior.l - rot.l && 0 <= y0
    ensures match FirstFreeY(interior, occupied, rot, x, y0)
      case Some(p) =>
        && Feasible(interior, occupied, rot, p) && p.x == x && y0 <= p.y
        && forall q | Feasible(interior, occupied, rot, q) && q.x == x && y0 <= q.y :: !ScannedBefore(q, p)
      case None =>
        forall q | Feasible(interior, occupied, rot, q) && q.x == x :: q.y < y0
    decreases interior.w - rot.w - y0 + 1
  {
    if y0 <= interior.w - rot.w {
      FirstFreeZIsFirst(interior, occupied, rot, x, y0, 0);
      match FirstFreeZ(interior, occupied, rot, x, y0, 0)
      case Some(z) =>
        forall q | Feasible(interior, occupied, rot, q) && q.x == x && y0 <= q.y
          ensures !ScannedBefore(q, Point(x, y0, z))
        {
        }
      case None =>
        FirstFreeYIsFirst(interior, occupied, rot, x, y0 + 1);
        forall q | Feasible(interior, occupied, rot, q) && q.x == x
          ensures q.y != y0
        {
        }
    }
  }

  /** The x loop finds the first feasible origin from x0 on. */
  lemma {:induction false} FirstFreeXIsFirst(interior: Dims, occupied: seq<Region>, rot: Dims, x0: int)
    requires 0 <= x0
    ensures match FirstFreeX(interior, occupied, rot, x0)
      case Some(p) =>
        && Feasible(interior, occupied, rot, p) && x0 <= p.x
        && forall q | Feasible(interior, occupied, rot, q) && x0 <= q.x :: !ScannedBefore(q, p)
      case None =>
        forall q | Feasible(interior, occupied, rot, q) :: q.x < x0
    decreases interior.l - rot.l - x0 + 1
  {
    if x0 <= interior.l - rot.l {
      FirstFreeYIsFirst(interior, occupied, rot, x0, 0);
      if FirstFreeY(interior, occupied, rot, x0, 0).None? {
        FirstFreeXIsFirst(interior, occupied, rot, x0 + 1);
      }
    }
  }

  /**
   * First fit: the scan of an orientation returns the feasible origin that comes
   * first in x, y, z order, and returns nothing exactly when no origin is feasible.
   */
  lemma FirstFitIsFirstFeasible(interior: Dims, occupied: seq<Region>, rot: Dims)
    ensures match FirstFit(interior, occupied, rot)
      case Some(p) =>
        && Feasible(interior, occupied, rot, p)
        && forall q | Feasible(interior, occupied, rot, q) :: !ScannedBefore(q, p)
      case None =>
        forall q :: !Feasible(interior, occupied, rot, q)
  {
    FirstFreeXIsFirst(interior, occupied, rot, 0);
  }

  /**
   * Whenever the loop body assigns a position, the box at it with the current
   * orientation lies inside the ULD and collides with no occupied region; a later
   * orientation can only move the position onto the column x = 0, y = 0; and a
   * success is never undone.
   */
  lemma ScanAssignsOnlyFeasible(interior: Dims, occupied: seq<Region>, rot: Dims, found: Option<Point>)
    ensures var r := ScanSpec(interior, occupied, rot, found);
      && (r != found ==> r.Some? && Feasible(interior, occupied, rot, r.value))
      && (found.Some? ==> r.Some?)
      && (found.Some? && r != found ==> r.value.x == 0 && r.value.y == 0)
  {
    if found.None? {
      FirstFitIsFirstFeasible(interior, occupied, rot);
    } else if rot.l <= interior.l && rot.w <= interior.w {
      FirstFreeZIsFirst(interior, occupied, rot, 0, 0, 0);
    }
  }

  /** An orientation that is longer, wider or taller than the interior has no candidate origin and changes nothing. */
  lemma OversizedRotationHasNoCandidates(interior: Dims, occupied: seq<Region>, rot: Dims, found: Option<Point>)
    requires rot.l > interior.l || rot.w > interior.w || rot.h > interior.h
    ensures forall p :: !Candidate(interior, rot, p)
    ensures ScanSpec(interior, occupied, rot, found) == found
  {
    if found.None? {
      FirstFitIsFirstFeasible(interior, occupied, rot);
    } else if rot.l <= interior.l && rot.w <= interior.w {
      FirstFreeZIsFirst(interior, occupied, rot, 0, 0, 0);
    }
  }

  /**
   * The rotation loop succeeds exactly when some orientation has a feasible origin,
   * and the position it ends with is feasible for one of the orientations.
   */
  lemma {:induction false} SearchRotationsSound(interior: Dims, occupied: seq<Region>, rots: seq<Dims>, found: Option<Point>)
    ensures var r := SearchRotations(interior, occupied, rots, found);
      && (r != found ==> r.Some? && exists i | 0 <= i < |rots| :: Feasible(interior, occupied, rots[i], r.value))
      && (found.Some? ==> r.Some?)
      && (found.None? && r.None? ==> forall i, q | 0 <= i < |rots| :: !Feasible(interior, occupied, rots[i], q))
    decreases |rots|
  {
    if rots != [] {
      var next := ScanSpec(interior, occupied, rots[0], found);
      ScanAssignsOnlyFeasible(interior, occupied, rots[0], found);
      SearchRotationsSound(interior, occupied, rots[1..], next);
      var r := SearchRotations(interior, occupied, rots, found);
      if r != found {
        if r == next {
          assert Feasible(interior, occupied, rots[0], r.value);
        } else {
          var i :| 0 <= i < |rots[1..]| && Feasible(interior, occupied, rots[1..][i], r.value);
          assert rots[1..][i] == rots[i + 1];
        }
      }
      if found.None? && r.None? {
        assert next.None?;
        FirstFitIsFirstFeasible(interior, occupied, rots[0]);
        forall i, q | 0 <= i < |rots| ensures !Feasible(interior, occupied, rots[i], q) {
          if i > 0 {
            assert rots[i] == rots[1..][i - 1];
          }
        }
      }
    }
  }

  /** The search of a ULD (starting with nothing allocated) fails exactly when no orientation fits anywhere free. */
  lemma SearchFailsIffNothingFeasible(interior: Dims, occupied: seq<Region>, rots: seq<Dims>)
    ensures SearchRotations(interior, occupied, rots, None).None? <==>
            forall i, q | 0 <= i < |rots| :: !Feasible(interior, occupied, rots[i], q)
  {
    SearchRotationsSound(interior, occupied, rots, None);
  }

  /**
   * Both quirks of the rotation loop on one small case: a 1 x 2 x 2 interior whose
   * corner cell is taken, and a 1 x 1 x 2 package. The first orientation's first fit
   * is (0, 1, 0); the second orientation, (1, 2, 1), finds (0, 0, 1) in the column
   * x = 0, y = 0 and overwrites it; and the last orientation, (2, 1, 1), whose extent
   * the allocator records with the position, does not fit the interior there.
   */
  lemma RotationLoopQuirks()
    ensures
      var interior := Dims(1, 2, 2);
      var occupied := [Region(Point(0, 0, 0), Dims(1, 1, 1))];
      var rots := Rotations(Dims(1, 1, 2));
      && FirstFit(interior, occupied, rots[0]) == Some(Point(0, 1, 0))
      && SearchRotations(interior, occupied, rots, None) == Some(Point(0, 0, 1))
      && !Candidate(interior, rots[5], Point(0, 0, 1))
  {
    var interior := Dims(1, 2, 2);
    var occupied := [Region(Point(0, 0, 0), Dims(1, 1, 1))];
    var rots := Rotations(Dims(1, 1, 2));
    assert Overlapping(Point(0, 0, 0), Corner(Point(0, 0, 0), rots[0]), occupied[0]);
    assert Free(occupied, Point(0, 1, 0), rots[0]);
    assert FirstFit(interior, occupied, rots[0]) == Some(Point(0, 1, 0));
    assert Overlapping(Point(0, 0, 0), Corner(Point(0, 0, 0), rots[1]), occupied[0]);
    assert Free(occupied, Point(0, 0, 1), rots[1]);
    var after1 := ScanSpec(interior, occupied, rots[1], Some(Point(0, 1, 0)));
    assert after1 == Some(Point(0, 0, 1));
    var after2 := ScanSpec(interior, occupied, rots[2], after1);
    assert after2 == after1;
    var after3 := ScanSpec(interior, occupied, rots[3], after2);
    assert after3 == after1;
    assert ScanSpec(interior, occupied, rots[4], after3) == after1;
    assert ScanSpec(interior, occupied, rots[5], after1) == after1;
    assert rots[1..][1..][1..][1..][1..][1..] == [];
  }

  /** The first package of OccupiedRegionsCanOverlap, a 2 x 1 x 1 box in the empty 2 x 2 x 2 interior, goes to the origin. */
  lemma FirstBoxAtOrigin()
    ensures SearchRotations(Dims(2, 2, 2), [], Rotations(Dims(2, 1, 1)), None) == Some(Point(0, 0, 0))
  {
    var interior, rots := Dims(2, 2, 2), Rotations(Dims(2, 1, 1));
    var origin := Some(Point(0, 0, 0));
    assert Free([], Point(0, 0, 0), rots[0]);
    assert ScanSpec(interior, [], rots[0], None) == origin;
    forall k | 1 <= k < 6
      ensures ScanSpec(interior, [], rots[k], origin) == origin
    {
      assert Free([], Point(0, 0, 0), rots[k]);
    }
    assert rots[1..][1..][1..][1..][1..][1..] == [];
  }

  /** The second one, a 1 x 2 x 1 box, collides at x = 0 and goes to (1, 0, 0); no later column x = 0, y = 0 is free. */
  lemma SecondBoxBesideIt()
    ensures SearchRotations(Dims(2, 2, 2), [Region(Point(0, 0, 0), Dims(1, 1, 2))], Rotations(Dims(1, 2, 1)), None)
            == Some(Point(1, 0, 0))
  {
    var interior, rots := Dims(2, 2, 2), Rotations(Dims(1, 2, 1));
    var occupied := [Region(Point(0, 0, 0), Dims(1, 1, 2))];
    var found := Some(Point(1, 0, 0));
    assert Overlapping(Point(0, 0, 0), Corner(Point(0, 0, 0), rots[0]), occupied[0]);
    assert Overlapping(Point(0, 0, 1), Corner(Point(0, 0, 1), rots[0]), occupied[0]);
    assert Free(occupied, Point(1, 0, 0), rots[0]);
    assert FirstFreeX(interior, occupied, rots[0], 1) == found;
    assert ScanSpec(interior, occupied, rots[0], None) == found;
    forall k | 1 <= k < 6
      ensures ScanSpec(interior, occupied, rots[k], found) == found
    {
      assert Overlapping(Point(0, 0, 0), Corner(Point(0, 0, 0), rots[k]), occupied[0]);
      assert Overlapping(Point(0, 0, 1), Corner(Point(0, 0, 1), rots[k]), occupied[0]);
    }
    assert rots[1..][1..][1..][1..][1..][1..] == [];
  }

  /** The third one, a 1 x 1 x 2 box, goes to (0, 1, 0); again no later column x = 0, y = 0 is free. */
  lemma ThirdBoxBehindThem()
    ensures SearchRotations(Dims(2, 2, 2), [Region(Point(0, 0, 0), Dims(1, 1, 2)), Region(Point(1, 0, 0), Dims(1, 2, 1))],
                            Rotations(Dims(1, 1, 2)), None)
            == Some(Point(0, 1, 0))
  {
    var interior, rots := Dims(2, 2, 2), Rotations(Dims(1, 1, 2));
    var occupied := [Region(Point(0, 0, 0), Dims(1, 1, 2)), Region(Point(1, 0, 0), Dims(1, 2, 1))];
    var found := Some(Point(0, 1, 0));
    assert Overlapping(Point(0, 0, 0), Corner(Point(0, 0, 0), rots[0]), occupied[0]);
    assert Free(occupied, Point(0, 1, 0), rots[0]);
    assert FirstFreeY(interior, occupied, rots[0], 0, 1) == found;
    assert ScanSpec(interior, occupied, rots[0], None) == found;
    forall k | 1 <= k < 6
      ensures ScanSpec(interior, occupied, rots[k], found) == found
    {
      assert Overlapping(Point(0, 0, 0), Corner(Point(0, 0, 0), rots[k]), occupied[0]);
      assert Overlapping(Point(0, 0, 1), Corner(Point(0, 0, 1), rots[k]), occupied[0]);
    }
    assert rots[1..][1..][1..][1..][1..][1..] == [];
  }

  /**
   * Regions recorded in one ULD can collide. Three boxes, 2 x 1 x 1, 1 x 2 x 1 and
   * 1 x 1 x 2, are placed in that order into a 2 x 2 x 2 interior, each region recorded
   * with the last orientation (H, W, L) of its box. The search puts them at (0, 0, 0),
   * (1, 0, 0) and (0, 1, 0); the second and third recorded regions then overlap.
   */
  lemma OccupiedRegionsCanOverlap()
    ensures
      var interior := Dims(2, 2, 2);
      var first, second, third := Dims(2, 1, 1), Dims(1, 2, 1), Dims(1, 1, 2);
      var r1 := Region(Point(0, 0, 0), Rotations(first)[5]);
      var r2 := Region(Point(1, 0, 0), Rotations(second)[5]);
      var r3 := Region(Point(0, 1, 0), Rotations(third)[5]);
      && SearchRotations(interior, [], Rotations(first), None) == Some(r1.origin)
      && SearchRotations(interior, [r1], Rotations(second), None) == Some(r2.origin)
      && SearchRotations(interior, [r1, r2], Rotations(third), None) == Some(r3.origin)
      && Overlapping(r3.origin, Corner(r3.origin, r3.extent), r2)
  {
    FirstBoxAtOrigin();
    SecondBoxBesideIt();
    ThirdBoxBehindThem();
  }

  // ---------------------------------------------------------------------------
  // The loops as written

  /** trial.py:119-123: does the box from `start` to `end` collide with any occupied region? */
  method AnyOverlap(occupied: seq<Region>, start: Point, end: Point) returns (overlap: bool)
    ensures overlap <==> exists i | 0 <= i < |occupied| :: Overlapping(start, end, occupied[i])
  {
    overlap := false;
    var i := 0;
    while i < |occupied|
      invariant 0 <= i <= |occupied|
      invariant forall j | 0 <= j < i :: !Overlapping(start, end, occupied[j])
    {
      if Overlapping(start, end, occupied[i]) {
        overlap := true;
        break;
      }
      i := i + 1;
    }
  }

  /**
   * trial.py:112-132 for one orientation `rotation`: the x, y and z loops with the
   * shared `allocated` flag (here `isAllocated`), starting from the flag and position left by the
   * previous orientations.
   */
  method ScanRotation(interior: Dims, occupied: seq<Region>, rotation: Dims, wasAllocated: bool, previous: Option<Point>)
    returns (isAllocated: bool, bestPosition: Option<Point>)
    requires wasAllocated <==> previous.Some?
    ensures isAllocated <==> bestPosition.Some?
    ensures bestPosition == ScanSpec(interior, occupied, rotation, previous)
  {
    isAllocated, bestPosition := wasAllocated, previous;
    ghost var goal := ScanSpec(interior, occupied, rotation, previous);
    var x := 0;
    while x < interior.l - rotation.l + 1
      invariant 0 <= x
      invariant wasAllocated ==> x == 0 && isAllocated && bestPosition == previous
      invariant !wasAllocated ==> !isAllocated && bestPosition == None
      invariant !wasAllocated ==> goal == FirstFreeX(interior, occupied, rotation, x)
    {
      var y := 0;
      while y < interior.w - rotation.w + 1
        invariant 0 <= y
        invariant wasAllocated ==> y == 0 && isAllocated && bestPosition == previous
        invariant !wasAllocated ==> !isAllocated && bestPosition == None
        invariant !wasAllocated ==> (FirstFreeX(interior, occupied, rotation, x) ==
          match FirstFreeY(interior, occupied, rotation, x, y)
            case Some(p) => Some(p)
            case None => FirstFreeX(interior, occupied, rotation, x + 1))
      {
        var z := 0;
        while z < interior.h - rotation.h + 1
          invariant 0 <= z
          invariant isAllocated == wasAllocated && bestPosition == previous
          invariant FirstFreeZ(interior, occupied, rotation, x, y, 0) == FirstFreeZ(interior, occupied, rotation, x, y, z)
        {
          var overlap := AnyOverlap(occupied, Point(x, y, z), Corner(Point(x, y, z), rotation));
          if !overlap {
            bestPosition := Some(Point(x, y, z));
            isAllocated := true;
            break;
          }
          z := z + 1;
        }
        if isAllocated {
          assert bestPosition == goal;
          break;
        }
        y := y + 1;
      }
      if isAllocated {
        assert bestPosition == goal;
        break;
      }
      x := x + 1;
    }
  }

  /**
   * trial.py:111-132 for one ULD: the rotation loop over all orientations, which never
   * stops early. Returns the `allocated` flag, best_position and the orientation that
   * (p_length, p_width, p_height) holds afterwards.
   */
  method SearchOrientations(interior: Dims, occupied: seq<Region>, rotations: seq<Dims>)
    returns (isAllocated: bool, bestPosition: Option<Point>, extent: Dims)
    ensures isAllocated <==> bestPosition.Some?
    ensures bestPosition == SearchRotations(interior, occupied, rotations, None)
    ensures rotations != [] ==> extent == rotations[|rotations| - 1]
  {
    isAllocated, bestPosition := false, None;
    extent := Dims(0, 0, 0);
    var r := 0;
    while r < |rotations|
      invariant 0 <= r <= |rotations|
      invariant isAllocated <==> bestPosition.Some?
      invariant 0 < r ==> extent == rotations[r - 1]
      invariant SearchRotations(interior, occupied, rotations, None) ==
                SearchRotations(interior, occupied, rotations[r..], bestPosition)
    {
      assert rotations[r..][1..] == rotations[r + 1..];
      extent := rotations[r];
      isAllocated, bestPosition := ScanRotation(interior, occupied, extent, isAllocated, bestPosition);
      r := r + 1;
    }
    assert rotations[r..] == [];
  }
}
