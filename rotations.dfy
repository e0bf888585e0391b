/** rot4f, an angle followed by an axis, and its conversions to and from
    mat4f: mat4f(const rot4f&), mat4f::calc_rot4f, rot4f::mult and
    operator*(rot4f, rot4f). */
module Rotations {
  import opened MathLib
  import opened Vectors
  import opened Matrices

  /** rot4f(): angle 0 about the x axis. */
  const NoRotation: Vec4 := [0.0, 1.0, 0.0, 0.0]

  /** mat4f(const rot4f&): the rotation matrix of the angle and axis. It
      moves no point of the origin's last row and column, and it leaves a
      unit axis where it is. */
  function RotMatrix(lib: Libm, r: Vec4): (m: Mat4)
    ensures m[3] == 0.0 && m[7] == 0.0 && m[11] == 0.0
    ensures m[12] == 0.0 && m[13] == 0.0 && m[14] == 0.0 && m[15] == 1.0
    ensures r[1] * r[1] + r[2] * r[2] + r[3] * r[3] == 1.0 ==> PointTimes(r[1..], m) == r[1..]
  {
    AxisFixed(lib, r);
    Rotation(lib, r[0], r[1], r[2], r[3])
  }

  /** The rotation of a rot4f with a unit axis fixes that axis. */
  lemma AxisFixed(lib: Libm, r: Vec4)
    ensures r[1] * r[1] + r[2] * r[2] + r[3] * r[3] == 1.0 ==>
      PointTimes(r[1..], Rotation(lib, r[0], r[1], r[2], r[3])) == r[1..]
  {
    if r[1] * r[1] + r[2] * r[2] + r[3] * r[3] == 1.0 {
      RotationFixesAxis(lib, r[0], r[1], r[2], r[3]);
      assert r[1..] == [r[1], r[2], r[3]];
    }
  }

  // ---------------------------------------------------------------------
  // calc_rot4f

  /** The cosine calc_rot4f reads off the trace of the upper 3x3 block. */
  function TraceCosine(m: Mat4): real
  {
    (m[0] + m[5] + m[10] - 1.0) / 2.0
  }

  /** The cosine clamped into [-1, 1] before acos. */
  function Clamp(c: real): (r: real)
    ensures -1.0 <= r <= 1.0
    ensures -1.0 <= c <= 1.0 ==> r == c
    ensures c > 1.0 ==> r == 1.0
    ensures c < -1.0 ==> r == -1.0
  {
    if c > 1.0 then 1.0 else if c < -1.0 then -1.0 else c
  }

  /** The unnormalised axis: the antisymmetric part of the 3x3 block. */
  function AxisOf(m: Mat4): Vec3
  {
    [m[6] - m[9], m[8] - m[2], m[1] - m[4]]
  }

  /** What calc_rot4f writes: acos of the clamped cosine, then the axis
      divided by its length. */
  function CalcRot(lib: Libm, m: Mat4): (r: Vec4)
    ensures Lawful(lib) && Dot(AxisOf(m), AxisOf(m)) > 0.0 ==>
      && Dot(r[1..], r[1..]) == 1.0
      && Dot(r[1..], AxisOf(m)) == Length(lib, AxisOf(m))
  {
    NormalizeFacts(lib, AxisOf(m));
    [lib.acos(Clamp(TraceCosine(m)))] + Normalize(lib, AxisOf(m))
  }

  /** mat4f::calc_rot4f(out): the receiver is the matrix m, `rotation` the
      rot4f written through the pointer. The sine the source computes is
      never used. */
  method CalcRotInto(lib: Libm, m: Mat4, rotation: array<real>)
    requires rotation.Length == 4
    modifies rotation
    ensures rotation[..] == CalcRot(lib, m)
  {
    var cosine := (m[0] + m[5] + m[10] - 1.0) / 2.0;
    if cosine > 1.0 {
      cosine := 1.0;
    }
    if cosine < -1.0 {
      cosine := -1.0;
    }
    rotation[0] := lib.acos(cosine);
    var sine := lib.sin(rotation[0]);
    rotation[1] := m[6] - m[9];
    rotation[2] := m[8] - m[2];
    rotation[3] := m[1] - m[4];
    ghost var axis := AxisOf(m);
    assert rotation[..] == [lib.acos(Clamp(TraceCosine(m)))] + axis;
    var d := lib.sqrt(rotation[1] * rotation[1] + rotation[2] * rotation[2] + rotation[3] * rotation[3]);
    TailLength(lib, rotation[..], rotation[1] * rotation[1] + rotation[2] * rotation[2] + rotation[3] * rotation[3]);
    NormalizeTail(lib, rotation, d);
  }

  /** The last three components of the receiver divided by d, the length of
      that part. */
  method NormalizeTail(lib: Libm, r: array<real>, d: real)
    requires r.Length == 4 && d == Length(lib, r[1..])
    modifies r
    ensures r[..] == Renormalized(lib, old(r[..]))
  {
    ghost var v := r[..];
    r[1] := FDiv(r[1], d);
    r[2] := FDiv(r[2], d);
    r[3] := FDiv(r[3], d);
    assert r[..] == [v[0]] + Normalize(lib, v[1..]);
  }

  /** The length the source computes from the three axis components is
      the length of the axis. */
  lemma TailLength(lib: Libm, r: Vec4, x: real)
    requires x == r[1] * r[1] + r[2] * r[2] + r[3] * r[3]
    ensures lib.sqrt(x) == Length(lib, r[1..])
  {
    var axis := r[1..];
    Dot3(axis, axis);
    assert axis[0] == r[1] && axis[1] == r[2] && axis[2] == r[3];
    assert x == Dot(axis, axis);
  }

  /** A rotation with its axis divided by the axis length: the angle is
      kept, a non-zero axis becomes a unit axis pointing its way, and a
      rotation whose axis is already a unit vector is left as it is. */
  function Renormalized(lib: Libm, r: Vec4): (n: Vec4)
    ensures n[0] == r[0]
    ensures Lawful(lib) && Dot(r[1..], r[1..]) > 0.0 ==>
      && Dot(n[1..], n[1..]) == 1.0
      && Dot(n[1..], r[1..]) == Length(lib, r[1..])
    ensures Lawful(lib) && Dot(r[1..], r[1..]) == 1.0 ==> n == r
  {
    NormalizeFacts(lib, r[1..]);
    assert [r[0]] + r[1..] == r;
    [r[0]] + Normalize(lib, r[1..])
  }

  /** Renormalising twice is renormalising once. */
  lemma RenormalizedIdempotent(lib: Libm, r: Vec4)
    requires Lawful(lib) && Dot(r[1..], r[1..]) > 0.0
    ensures Renormalized(lib, Renormalized(lib, r)) == Renormalized(lib, r)
  {
  }

  // ---------------------------------------------------------------------
  // Composition

  /** rot4f::mult(r1, r2): the rotation of the product of the two matrices,
      with its axis normalised once more. */
  function RotProduct(lib: Libm, r1: Vec4, r2: Vec4): (r: Vec4)
    ensures var m := Mul(RotMatrix(lib, r1), RotMatrix(lib, r2));
      Lawful(lib) && Dot(AxisOf(m), AxisOf(m)) > 0.0 ==>
        && Dot(r[1..], r[1..]) == 1.0
        && r == CalcRot(lib, m)
  {
    Renormalized(lib, CalcRot(lib, Mul(RotMatrix(lib, r1), RotMatrix(lib, r2))))
  }

  /** rot4f::mult(r1, r2) on the receiver `self`. Both matrices are built
      before the receiver is written, so either operand may be the
      receiver. */
  method RotMult(lib: Libm, self: array<real>, r1: array<real>, r2: array<real>)
    requires self.Length == 4 && r1.Length == 4 && r2.Length == 4
    modifies self
    ensures self[..] == RotProduct(lib, old(r1[..]), old(r2[..]))
  {
    var matrix1 := RotMatrix(lib, r1[..]);
    var matrix2 := RotMatrix(lib, r2[..]);
    var matrix3 := Mul(matrix1, matrix2);
    RotOfMatrix(lib, matrix3, self);
  }

  /** The part of rot4f::mult after the product is formed: calc_rot4f into
      the receiver, then the axis divided by its length. */
  method RotOfMatrix(lib: Libm, m: Mat4, self: array<real>)
    requires self.Length == 4
    modifies self
    ensures self[..] == Renormalized(lib, CalcRot(lib, m))
  {
    CalcRotInto(lib, m, self);
    Renormalize(lib, self);
  }

  /** The renormalisation at the end of rot4f::mult: the axis length
      computed from the three components, then NormalizeTail. */
  method Renormalize(lib: Libm, self: array<real>)
    requires self.Length == 4
    modifies self
    ensures self[..] == Renormalized(lib, old(self[..]))
  {
    var dist := lib.sqrt(self[1] * self[1] + self[2] * self[2] + self[3] * self[3]);
    TailLength(lib, self[..], self[1] * self[1] + self[2] * self[2] + self[3] * self[3]);
    NormalizeTail(lib, self, dist);
  }

  /** operator*(r1, r2): a fresh rot4f set by rot4f::mult. */
  method RotTimes(lib: Libm, r1: Vec4, r2: Vec4) returns (t: Vec4)
    ensures t == RotProduct(lib, r1, r2)
  {
    var a := new real[4];
    a[0], a[1], a[2], a[3] := NoRotation[0], NoRotation[1], NoRotation[2], NoRotation[3];
    var b1 := new real[4];
    b1[0], b1[1], b1[2], b1[3] := r1[0], r1[1], r1[2], r1[3];
    var b2 := new real[4];
    b2[0], b2[1], b2[2], b2[3] := r2[0], r2[1], r2[2], r2[3];
    assert b1[..] == r1 && b2[..] == r2;
    RotMult(lib, a, b1, b2);
    t := a[..];
  }

  // ---------------------------------------------------------------------
  // Properties

  /** calc_rot4f inverts mat4f(const rot4f&) on the axis: for a unit axis
      (x, y, z) and sin a > 0 it finds (x, y, z) again, and the cosine it
      reads off the trace is cos a. */
  lemma CalcRotOfRotation(lib: Libm, a: real, x: real, y: real, z: real)
    requires Lawful(lib) && x * x + y * y + z * z == 1.0 && lib.sin(a) > 0.0
    ensures TraceCosine(Rotation(lib, a, x, y, z)) == lib.cos(a)
    ensures CalcRot(lib, Rotation(lib, a, x, y, z))[0] == lib.acos(Clamp(lib.cos(a)))
    ensures CalcRot(lib, Rotation(lib, a, x, y, z))[1..] == [x, y, z]
  {
    var m := Rotation(lib, a, x, y, z);
    var s := lib.sin(a);
    TraceCosineOfRotation(lib, a, x, y, z);
    AxisOfRotation(lib, a, x, y, z, s);
    NormalizeScaledUnit(lib, s, x, y, z);
  }

  /** The antisymmetric part of a rotation's 3x3 block is 2 sin a times
      the axis. */
  lemma AxisOfRotation(lib: Libm, a: real, x: real, y: real, z: real, s: real)
    requires s == lib.sin(a)
    ensures AxisOf(Rotation(lib, a, x, y, z)) == [2.0 * s * x, 2.0 * s * y, 2.0 * s * z]
  {
    var m := Rotation(lib, a, x, y, z);
    RotationAxisEntries(lib, a, x, y, z, s);
    var axis := AxisOf(m);
    assert axis[0] == 2.0 * s * x && axis[1] == 2.0 * s * y && axis[2] == 2.0 * s * z;
  }

  /** The three differences AxisOf takes, each on a rotation. */
  lemma RotationAxisEntries(lib: Libm, a: real, x: real, y: real, z: real, s: real)
    requires s == lib.sin(a)
    ensures var m := Rotation(lib, a, x, y, z);
      && m[6] - m[9] == 2.0 * s * x
      && m[8] - m[2] == 2.0 * s * y
      && m[1] - m[4] == 2.0 * s * z
  {
    RotationAxisX(lib, a, x, y, z, s);
    RotationAxisY(lib, a, x, y, z, s);
    RotationAxisZ(lib, a, x, y, z, s);
  }

  /** The x component of RotationAxisEntries. */
  lemma RotationAxisX(lib: Libm, a: real, x: real, y: real, z: real, s: real)
    requires s == lib.sin(a)
    ensures var m := Rotation(lib, a, x, y, z); m[6] - m[9] == 2.0 * s * x
  {
    var m := Rotation(lib, a, x, y, z);
    AxisEntry(m[6], m[9], (1.0 - lib.cos(a)) * y * z, s, x);
  }

  /** The y component of RotationAxisEntries. */
  lemma RotationAxisY(lib: Libm, a: real, x: real, y: real, z: real, s: real)
    requires s == lib.sin(a)
    ensures var m := Rotation(lib, a, x, y, z); m[8] - m[2] == 2.0 * s * y
  {
    var m := Rotation(lib, a, x, y, z);
    AxisEntry(m[8], m[2], (1.0 - lib.cos(a)) * x * z, s, y);
  }

  /** The z component of RotationAxisEntries. */
  lemma RotationAxisZ(lib: Libm, a: real, x: real, y: real, z: real, s: real)
    requires s == lib.sin(a)
    ensures var m := Rotation(lib, a, x, y, z); m[1] - m[4] == 2.0 * s * z
  {
    var m := Rotation(lib, a, x, y, z);
    AxisEntry(m[1], m[4], (1.0 - lib.cos(a)) * x * y, s, z);
  }

  /** One component of AxisOfRotation: the two entries mirrored across the
      diagonal share the symmetric part p and differ in the sign of s w. */
  lemma AxisEntry(u: real, v: real, p: real, s: real, w: real)
    requires u == p + s * w && v == p - s * w
    ensures u - v == 2.0 * s * w
  {
  }

  /** The cosine read off the trace of a rotation about a unit axis is the
      cosine of its angle. */
  lemma TraceCosineOfRotation(lib: Libm, a: real, x: real, y: real, z: real)
    requires x * x + y * y + z * z == 1.0
    ensures TraceCosine(Rotation(lib, a, x, y, z)) == lib.cos(a)
  {
    TraceOfRotation(Rotation(lib, a, x, y, z), 1.0 - lib.cos(a), lib.cos(a), x, y, z);
  }

  /** Normalising a positive multiple of a unit vector gives the unit
      vector. */
  lemma NormalizeScaledUnit(lib: Libm, s: real, x: real, y: real, z: real)
    requires Lawful(lib) && x * x + y * y + z * z == 1.0 && s > 0.0
    ensures Normalize(lib, [2.0 * s * x, 2.0 * s * y, 2.0 * s * z]) == [x, y, z]
  {
    var axis := [2.0 * s * x, 2.0 * s * y, 2.0 * s * z];
    Dot3(axis, axis);
    ScaledUnitLength(s, x, y, z);
    assert Dot(axis, axis) == (2.0 * s) * (2.0 * s);
    SqrtUnique(lib, Dot(axis, axis), 2.0 * s);
    var l := Length(lib, axis);
    assert l == 2.0 * s;
    var n := Normalize(lib, axis);
    assert n[0] == FDiv(2.0 * s * x, l) == x;
    assert n[1] == FDiv(2.0 * s * y, l) == y;
    assert n[2] == FDiv(2.0 * s * z, l) == z;
  }

  /** The trace of the 3x3 block of a rotation about a unit axis. */
  lemma TraceOfRotation(m: Mat4, t: real, c: real, x: real, y: real, z: real)
    requires x * x + y * y + z * z == 1.0 && t == 1.0 - c
    requires m[0] == t * x * x + c && m[5] == t * y * y + c && m[10] == t * z * z + c
    ensures TraceCosine(m) == c
  {
    assert (t * x * x + c) + (t * y * y + c) + (t * z * z + c) == t * (x * x + y * y + z * z) + 3.0 * c;
  }

  /** The squared length of 2s(x, y, z) for a unit (x, y, z). */
  lemma ScaledUnitLength(s: real, x: real, y: real, z: real)
    requires x * x + y * y + z * z == 1.0
    ensures (2.0 * s * x) * (2.0 * s * x) + (2.0 * s * y) * (2.0 * s * y) + (2.0 * s * z) * (2.0 * s * z)
      == (2.0 * s) * (2.0 * s)
  {
    assert (2.0 * s * x) * (2.0 * s * x) + (2.0 * s * y) * (2.0 * s * y) + (2.0 * s * z) * (2.0 * s * z)
      == (2.0 * s) * (2.0 * s) * (x * x + y * y + z * z);
  }

  /** A left operand whose matrix is the identity leaves rot4f::mult with
      the rotation read off the right operand's matrix. */
  lemma RotProductLeftIdentity(lib: Libm, r1: Vec4, r2: Vec4)
    requires RotMatrix(lib, r1) == Identity
    ensures RotProduct(lib, r1, r2) == Renormalized(lib, CalcRot(lib, RotMatrix(lib, r2)))
  {
    MulIdentity(RotMatrix(lib, r2));
  }

  /** Reading a rotation back off its own matrix and renormalising gives
      the unit axis again and the clamped cosine of the angle. */
  lemma RenormalizedRoundTrip(lib: Libm, r: Vec4)
    requires Lawful(lib)
    requires r[1] * r[1] + r[2] * r[2] + r[3] * r[3] == 1.0 && lib.sin(r[0]) > 0.0
    ensures Renormalized(lib, CalcRot(lib, RotMatrix(lib, r)))[1..] == r[1..]
    ensures Renormalized(lib, CalcRot(lib, RotMatrix(lib, r)))[0] == lib.acos(Clamp(lib.cos(r[0])))
  {
    CalcRotOfRotation(lib, r[0], r[1], r[2], r[3]);
    var c := CalcRot(lib, RotMatrix(lib, r));
    assert c[1..] == [r[1], r[2], r[3]];
    Dot3(c[1..], c[1..]);
    NormalizeUnitFixed(lib, c[1..]);
  }

  /** Composing with a zero-angle rotation on the left keeps the axis of
      the other rotation and reads off its cosine. */
  lemma RotProductZeroLeft(lib: Libm, r1: Vec4, r2: Vec4)
    requires Lawful(lib) && r1[0] == 0.0
    requires r2[1] * r2[1] + r2[2] * r2[2] + r2[3] * r2[3] == 1.0 && lib.sin(r2[0]) > 0.0
    ensures RotProduct(lib, r1, r2)[1..] == r2[1..]
    ensures RotProduct(lib, r1, r2)[0] == lib.acos(Clamp(lib.cos(r2[0])))
  {
    RotationZeroAngle(lib, r1[1], r1[2], r1[3]);
    RotProductLeftIdentity(lib, r1, r2);
    RenormalizedRoundTrip(lib, r2);
  }
}
