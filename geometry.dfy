/** struct box of library/geometry.h: an axis-aligned box kept as its two
    corners, which starts empty and only grows. */
module Geometry {
  import opened MathLib
  import opened Vectors

  /** The corners of an empty box: the minimum at +FLT_MAX and the maximum
      at -FLT_MAX on every axis, so that the first point extended by
      replaces both. */
  const EmptyMin: Vec3 := [FltMax, FltMax, FltMax]
  const EmptyMax: Vec3 := [-FltMax, -FltMax, -FltMax]

  /** The minimum corner after extending by p: std::min on each axis. */
  function MinCorner(lo: Vec3, p: Vec3): (r: Vec3)
    ensures forall i | 0 <= i < 3 :: r[i] <= lo[i] && r[i] <= p[i]
    ensures forall i | 0 <= i < 3 :: r[i] == lo[i] || r[i] == p[i]
  {
    [Min(lo[0], p[0]), Min(lo[1], p[1]), Min(lo[2], p[2])]
  }

  /** The maximum corner after extending by p: std::max on each axis. */
  function MaxCorner(hi: Vec3, p: Vec3): (r: Vec3)
    ensures forall i | 0 <= i < 3 :: r[i] >= hi[i] && r[i] >= p[i]
    ensures forall i | 0 <= i < 3 :: r[i] == hi[i] || r[i] == p[i]
  {
    [Max(hi[0], p[0]), Max(hi[1], p[1]), Max(hi[2], p[2])]
  }

  /** p lies in the box with corners lo and hi. */
  predicate Contains(lo: Vec3, hi: Vec3, p: Vec3)
  {
    forall i | 0 <= i < 3 :: lo[i] <= p[i] <= hi[i]
  }

  /** Every component of p is a finite float. */
  predicate InFloatRange(p: Vec3)
  {
    forall i | 0 <= i < 3 :: -FltMax <= p[i] <= FltMax
  }

  /** p with r subtracted from, or added to, every component. */
  function Offset(p: Vec3, r: real): (q: Vec3)
    ensures forall i | 0 <= i < 3 :: q[i] == p[i] + r
  {
    [p[0] + r, p[1] + r, p[2] + r]
  }

  /** largest_side(): the extent along x when it is strictly the largest,
      else the extent along y when it beats z, else the extent along z. */
  function LargestExtent(lo: Vec3, hi: Vec3): (r: real)
    ensures forall i | 0 <= i < 3 :: r >= hi[i] - lo[i]
    ensures exists i | 0 <= i < 3 :: r == hi[i] - lo[i]
  {
    if hi[0] - lo[0] > hi[1] - lo[1] && hi[0] - lo[0] > hi[2] - lo[2] then
      hi[0] - lo[0]
    else if hi[1] - lo[1] > hi[2] - lo[2] then
      hi[1] - lo[1]
    else
      hi[2] - lo[2]
  }

  class Box {
    var min: Vec3
    var max: Vec3

    /** box(): a new box is empty. */
    constructor()
      ensures min == EmptyMin && max == EmptyMax
    {
      min := EmptyMin;
      max := EmptyMax;
    }

    /** empty() */
    method Empty()
      modifies this
      ensures min == EmptyMin && max == EmptyMax
    {
      min := EmptyMin;
      max := EmptyMax;
    }

    /** largest_side() */
    function LargestSide(): (r: real)
      reads this
      ensures forall i | 0 <= i < 3 :: r >= max[i] - min[i]
      ensures exists i | 0 <= i < 3 :: r == max[i] - min[i]
    {
      LargestExtent(min, max)
    }

    /** extend(x, y, z): the box grows to take in the point. */
    method Extend(x: real, y: real, z: real)
      modifies this
      ensures min == MinCorner(old(min), [x, y, z])
      ensures max == MaxCorner(old(max), [x, y, z])
      ensures Contains(min, max, [x, y, z])
    {
      min := min[0 := Min(min[0], x)];
      min := min[1 := Min(min[1], y)];
      min := min[2 := Min(min[2], z)];
      max := max[0 := Max(max[0], x)];
      max := max[1 := Max(max[1], y)];
      max := max[2 := Max(max[2], z)];
    }

    /** extend(const vec3f&): the same as extend(v[0], v[1], v[2]). */
    method ExtendPoint(v: Vec3)
      modifies this
      ensures min == MinCorner(old(min), v) && max == MaxCorner(old(max), v)
    {
      Extend(v[0], v[1], v[2]);
      assert [v[0], v[1], v[2]] == v;
    }

    /** extend(x, y, z, r): the box grows to take in the cube of half-side
        r around the point. */
    method ExtendRadius(x: real, y: real, z: real, r: real)
      modifies this
      ensures min == MinCorner(old(min), Offset([x, y, z], -r))
      ensures max == MaxCorner(old(max), Offset([x, y, z], r))
    {
      min := min[0 := Min(min[0], x - r)];
      min := min[1 := Min(min[1], y - r)];
      min := min[2 := Min(min[2], z - r)];
      max := max[0 := Max(max[0], x + r)];
      max := max[1 := Max(max[1], y + r)];
      max := max[2 := Max(max[2], z + r)];
    }
  }

  // ---------------------------------------------------------------------
  // Properties

  /** After extending, the box contains the point. */
  lemma ExtendContains(lo: Vec3, hi: Vec3, p: Vec3)
    ensures Contains(MinCorner(lo, p), MaxCorner(hi, p), p)
  {
  }

  /** Extending never shrinks the box: whatever it contained it still
      contains. */
  lemma ExtendNeverShrinks(lo: Vec3, hi: Vec3, p: Vec3, q: Vec3)
    requires Contains(lo, hi, q)
    ensures Contains(MinCorner(lo, p), MaxCorner(hi, p), q)
  {
  }

  /** Extending twice by the same point is extending once. */
  lemma ExtendIdempotent(lo: Vec3, hi: Vec3, p: Vec3)
    ensures MinCorner(MinCorner(lo, p), p) == MinCorner(lo, p)
    ensures MaxCorner(MaxCorner(hi, p), p) == MaxCorner(hi, p)
  {
  }

  /** Extending an empty box by one finite point gives the box holding only
      that point, whose largest side is 0. */
  lemma ExtendEmpty(p: Vec3)
    requires InFloatRange(p)
    ensures MinCorner(EmptyMin, p) == p && MaxCorner(EmptyMax, p) == p
    ensures LargestExtent(p, p) == 0.0
  {
  }

  /** With r >= 0 the radius form contains the whole cube [p - r, p + r]. */
  lemma ExtendRadiusContains(lo: Vec3, hi: Vec3, p: Vec3, r: real, q: Vec3)
    requires r >= 0.0
    requires forall i | 0 <= i < 3 :: p[i] - r <= q[i] <= p[i] + r
    ensures Contains(MinCorner(lo, Offset(p, -r)), MaxCorner(hi, Offset(p, r)), q)
  {
  }

  /** An empty box contains no point. */
  lemma EmptyContainsNothing(p: Vec3)
    ensures !Contains(EmptyMin, EmptyMax, p)
  {
    assert EmptyMin[0] > EmptyMax[0];
  }
}
