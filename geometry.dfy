/** Optional values: Python's `None` versus a present value. */
module Options {
  datatype Option<+T> = None | Some(value: T)
}

/**
 * Axis-aligned boxes in a ULD's integer coordinate frame: the six orientations
 * of a package (rotate_package) and the collision test (is_overlapping).
 */
module Geometry {

  /** A point; x runs along the ULD's length, y along its width, z along its height. */
  datatype Point = Point(x: int, y: int, z: int)

  /** An extent (length, width, height) along the x, y and z axes. */
  datatype Dims = Dims(l: int, w: int, h: int)

  /** An occupied region: the origin a package was placed at and the extent recorded for it. */
  datatype Region = Region(origin: Point, extent: Dims)

  function Volume(d: Dims): int {
    d.l * d.w * d.h
  }

  /** The corner opposite to `p` of the box that starts at `p` and has extent `d`. */
  function Corner(p: Point, d: Dims): Point {
    Point(p.x + d.l, p.y + d.w, p.z + d.h)
  }

  /** The three side lengths of `d`, forgetting which axis each one lies on. */
  function Sides(d: Dims): multiset<int> {
    multiset{d.l, d.w, d.h}
  }

  /** rotate_package: the six orientations of a package, in the order the placement search tries them. */
  function Rotations(d: Dims): (r: seq<Dims>)
    ensures |r| == 6
  {
    [ Dims(d.l, d.w, d.h), Dims(d.l, d.h, d.w),
      Dims(d.w, d.l, d.h), Dims(d.w, d.h, d.l),
      Dims(d.h, d.l, d.w), Dims(d.h, d.w, d.l) ]
  }

  /** Swapping the last two of three side lengths keeps them. */
  lemma SwapLastTwo(a: int, b: int, c: int)
    ensures multiset{a, c, b} == multiset{a, b, c}
  {
  }

  /** Swapping the first two of three side lengths keeps them. */
  lemma SwapFirstTwo(a: int, b: int, c: int)
    ensures multiset{b, a, c} == multiset{a, b, c}
  {
  }

  /** Rotating three side lengths to the left keeps them. */
  lemma RotateLeft(a: int, b: int, c: int)
    ensures multiset{b, c, a} == multiset{a, b, c}
  {
  }

  /** Rotating three side lengths to the right keeps them. */
  lemma RotateRight(a: int, b: int, c: int)
    ensures multiset{c, a, b} == multiset{a, b, c}
  {
  }

  /** Reversing three side lengths keeps them. */
  lemma Reverse(a: int, b: int, c: int)
    ensures multiset{c, b, a} == multiset{a, b, c}
  {
  }

  /** Every orientation keeps the package's side lengths. */
  lemma RotationsKeepSides(d: Dims)
    ensures forall i | 0 <= i < 6 :: Sides(Rotations(d)[i]) == Sides(d)
  {
    var a, b, c := d.l, d.w, d.h;
    var r := Rotations(d);
    forall i | 0 <= i < 6
      ensures Sides(r[i]) == Sides(d)
    {
      var q := r[i];
      if i == 0 {
        assert q == Dims(a, b, c);
      } else if i == 1 {
        assert q == Dims(a, c, b);
        SwapLastTwo(a, b, c);
      } else if i == 2 {
        assert q == Dims(b, a, c);
        SwapFirstTwo(a, b, c);
      } else if i == 3 {
        assert q == Dims(b, c, a);
        RotateLeft(a, b, c);
      } else if i == 4 {
        assert q == Dims(c, a, b);
        RotateRight(a, b, c);
      } else {
        assert q == Dims(c, b, a);
        Reverse(a, b, c);
      }
    }
  }

  /** Hence every orientation has the package's volume. */
  lemma RotationsKeepVolume(d: Dims)
    ensures forall i | 0 <= i < 6 :: Volume(Rotations(d)[i]) == Volume(d)
  {
    var a, b, c := d.l, d.w, d.h;
    assert a * c == c * a && b * c == c * b && a * b == b * a;
    assert a * c * b == a * (c * b) == a * (b * c) == a * b * c;
    assert b * a * c == a * b * c;
    assert b * c * a == a * (b * c) == a * b * c;
    assert c * a * b == (a * b) * c;
    assert c * b * a == (b * a) * c;
  }

  /** Removing one equal side from two equal multisets of three sides leaves the same pair, maybe swapped. */
  lemma CancelSide(v: int, a: int, b: int, c: int, d: int)
    requires multiset{v, a, b} == multiset{v, c, d}
    ensures (a == c && b == d) || (a == d && b == c)
  {
    var m, n := multiset{v, a, b}, multiset{v, c, d};
    assert m[a] == n[a] && m[b] == n[b] && m[c] == n[c] && m[d] == n[d];
  }

  /** Conversely, every arrangement of the package's side lengths is one of the six orientations. */
  lemma RotationsComplete(d: Dims, q: Dims)
    requires Sides(q) == Sides(d)
    ensures q in Rotations(d)
  {
    var r := Rotations(d);
    assert Sides(q)[q.l] == Sides(d)[q.l];
    if q.l == d.l {
      CancelSide(q.l, q.w, q.h, d.w, d.h);
      assert q == r[0] || q == r[1];
    } else if q.l == d.w {
      SwapFirstTwo(d.l, d.w, d.h);
      CancelSide(q.l, q.w, q.h, d.l, d.h);
      assert q == r[2] || q == r[3];
    } else {
      RotateRight(d.l, d.w, d.h);
      CancelSide(q.l, q.w, q.h, d.l, d.w);
      assert q == r[4] || q == r[5];
    }
  }

  /**
   * is_overlapping: does the box from `newStart` to `newEnd` collide with `existing`?
   * An axis keeps the boxes apart when one ends where (or before) the other starts.
   */
  predicate Overlapping(newStart: Point, newEnd: Point, existing: Region) {
    var s := existing.origin;
    var e := Corner(s, existing.extent);
    var overlapX := !(newEnd.x <= s.x || newStart.x >= e.x);
    var overlapY := !(newEnd.y <= s.y || newStart.y >= e.y);
    var overlapZ := !(newEnd.z <= s.z || newStart.z >= e.z);
    overlapX && overlapY && overlapZ
  }

  /** The collision test compares strictly on every axis. */
  lemma OverlapIsStrictOnEveryAxis(newStart: Point, newEnd: Point, existing: Region)
    ensures
      var s := existing.origin;
      var e := Corner(s, existing.extent);
      Overlapping(newStart, newEnd, existing) <==>
        && newStart.x < e.x && newEnd.x > s.x
        && newStart.y < e.y && newEnd.y > s.y
        && newStart.z < e.z && newEnd.z > s.z
  {
  }

  /** Boxes that only share a face (or an edge, or a corner) do not collide. */
  lemma TouchingBoxesDoNotOverlap(newStart: Point, newEnd: Point, existing: Region)
    requires
      var s := existing.origin;
      var e := Corner(s, existing.extent);
      newEnd.x == s.x || newStart.x == e.x || newEnd.y == s.y ||
      newStart.y == e.y || newEnd.z == s.z || newStart.z == e.z
    ensures !Overlapping(newStart, newEnd, existing)
  {
  }

  /** The collision test does not depend on which of the two boxes is the new one. */
  lemma OverlapSymmetric(a: Region, b: Region)
    ensures Overlapping(a.origin, Corner(a.origin, a.extent), b)
        == Overlapping(b.origin, Corner(b.origin, b.extent), a)
  {
  }

  /** The unit cell at `c` lies in the box from `lo` to `hi`. */
  predicate CellInside(c: Point, lo: Point, hi: Point) {
    lo.x <= c.x < hi.x && lo.y <= c.y < hi.y && lo.z <= c.z < hi.z
  }

  /** An independent notion of collision: some unit cell of the integer grid lies in both boxes. */
  ghost predicate ShareACell(newStart: Point, newEnd: Point, existing: Region) {
    exists c: Point :: CellInside(c, newStart, newEnd) &&
                       CellInside(c, existing.origin, Corner(existing.origin, existing.extent))
  }

  function Max(a: int, b: int): int { if a < b then b else a }

  /** For boxes with positive extent, is_overlapping holds exactly when the boxes share a grid cell. */
  lemma OverlapIffShareACell(newStart: Point, newEnd: Point, existing: Region)
    requires newStart.x < newEnd.x && newStart.y < newEnd.y && newStart.z < newEnd.z
    requires existing.extent.l > 0 && existing.extent.w > 0 && existing.extent.h > 0
    ensures Overlapping(newStart, newEnd, existing) <==> ShareACell(newStart, newEnd, existing)
  {
    var s := existing.origin;
    var e := Corner(s, existing.extent);
    if Overlapping(newStart, newEnd, existing) {
      var c := Point(Max(newStart.x, s.x), Max(newStart.y, s.y), Max(newStart.z, s.z));
      assert CellInside(c, newStart, newEnd) && CellInside(c, s, e);
    }
  }
}
