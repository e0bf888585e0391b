/** The 4x4 float matrix mat4f: sixteen entries in row-major order, entry
    (i, j) at index 4 * i + j. Points are row vectors multiplied on the
    left, so a translation keeps its offset in entries 12, 13 and 14. */
module Matrices {
  import opened MathLib
  import opened Vectors

  type Mat4 = m: seq<real> | |m| == 16 witness Zero

  /** A matrix of zeros (mat4f::clear). */
  const Zero: seq<real> := seq(16, _ => 0.0)

  /** mat4f::identity */
  const Identity: Mat4 := [1.0, 0.0, 0.0, 0.0,
                           0.0, 1.0, 0.0, 0.0,
                           0.0, 0.0, 1.0, 0.0,
                           0.0, 0.0, 0.0, 1.0]

  /** The row of entry k, k / 4 written without division. */
  function RowOf(k: int): (i: int)
    requires 0 <= k < 16
    ensures 0 <= i < 4 && 4 * i <= k < 4 * i + 4
  {
    if k < 4 then 0 else if k < 8 then 1 else if k < 12 then 2 else 3
  }

  /** The column of entry k, k % 4 written without division. */
  function ColOf(k: int): (j: int)
    requires 0 <= k < 16
    ensures 0 <= j < 4 && k == 4 * RowOf(k) + j
  {
    k - 4 * RowOf(k)
  }

  /** Entry (i, j) of a matrix. */
  function At(m: seq<real>, i: int, j: int): real
    requires |m| == 16 && 0 <= i < 4 && 0 <= j < 4
  {
    m[4 * i + j]
  }

  /** Row i of m1 times column j of m2. */
  function RowCol(m1: Mat4, m2: Mat4, i: int, j: int): real
    requires 0 <= i < 4 && 0 <= j < 4
  {
    m1[4 * i] * m2[j] + m1[4 * i + 1] * m2[4 + j]
      + m1[4 * i + 2] * m2[8 + j] + m1[4 * i + 3] * m2[12 + j]
  }

  /** operator*(m1, m2) */
  function Mul(m1: Mat4, m2: Mat4): Mat4
  {
    seq(16, k requires 0 <= k < 16 => RowCol(m1, m2, RowOf(k), ColOf(k)))
  }

  /** transpose(in): entry i + 4 * j of the result is entry j + 4 * i. */
  function TransposeOf(m: Mat4): Mat4
  {
    seq(16, k requires 0 <= k < 16 => m[4 * ColOf(k) + RowOf(k)])
  }

  /** mat4f::determinant, the sum of products of 2x2 minors of the upper
      and lower row pairs. */
  function Determinant(m: Mat4): real
  {
    (m[0] * m[5] - m[1] * m[4]) * (m[10] * m[15] - m[11] * m[14])
      + (m[2] * m[4] - m[0] * m[6]) * (m[9] * m[15] - m[11] * m[13])
      + (m[0] * m[7] - m[3] * m[4]) * (m[9] * m[14] - m[10] * m[13])
      + (m[1] * m[6] - m[2] * m[5]) * (m[8] * m[15] - m[11] * m[12])
      + (m[3] * m[5] - m[1] * m[7]) * (m[8] * m[14] - m[10] * m[12])
      + (m[2] * m[7] - m[3] * m[6]) * (m[8] * m[13] - m[9] * m[12])
  }

  /** mat4f::translation(x, y, z) */
  function Translation(x: real, y: real, z: real): (m: Mat4)
    ensures forall k :: 0 <= k < 12 ==> m[k] == Identity[k]
    ensures m[12] == x && m[13] == y && m[14] == z && m[15] == 1.0
  {
    Identity[12 := x][13 := y][14 := z]
  }

  /** mat4f::scale(x, y, z) */
  function Scaling(x: real, y: real, z: real): (m: Mat4)
    ensures forall k :: 0 <= k < 16 && k != 0 && k != 5 && k != 10 ==> m[k] == Identity[k]
    ensures m[0] == x && m[5] == y && m[10] == z
  {
    Identity[0 := x][5 := y][10 := z]
  }

  /** mat4f::frustum(left, right, bottom, top, near, far), as written: the
      x and y offsets A and B are stored in entries 2 and 6. */
  function Frustum(left: real, right: real, bottom: real, top: real, nearClip: real, farClip: real): (m: Mat4)
    ensures m[11] == -1.0 && m[15] == 0.0
    ensures m[2] == FDiv(right + left, right - left) && m[6] == FDiv(top + bottom, top - bottom)
    ensures m[0] == FDiv(2.0 * nearClip, right - left) && m[5] == FDiv(2.0 * nearClip, top - bottom)
    ensures m[10] == FDiv(-(farClip + nearClip), farClip - nearClip)
    ensures m[14] == FDiv(-2.0 * farClip * nearClip, farClip - nearClip)
    ensures forall k :: 0 <= k < 16 && k !in {0, 2, 5, 6, 10, 11, 14, 15} ==> m[k] == Identity[k]
  {
    var a := FDiv(right + left, right - left);
    var b := FDiv(top + bottom, top - bottom);
    var c := FDiv(-(farClip + nearClip), farClip - nearClip);
    var d := FDiv(-2.0 * farClip * nearClip, farClip - nearClip);
    Identity[0 := FDiv(2.0 * nearClip, right - left)][5 := FDiv(2.0 * nearClip, top - bottom)]
      [2 := a][6 := b][10 := c][14 := d][11 := -1.0][15 := 0.0]
  }

  /** The frustum with A and B stored where the row-vector convention of
      the rest of the library puts the z terms of x and y: entries 8 and 9. */
  function FrustumCorrected(left: real, right: real, bottom: real, top: real, nearClip: real, farClip: real): (m: Mat4)
    ensures m[11] == -1.0 && m[15] == 0.0 && m[2] == 0.0 && m[6] == 0.0
    ensures m[8] == FDiv(right + left, right - left) && m[9] == FDiv(top + bottom, top - bottom)
    ensures m[0] == FDiv(2.0 * nearClip, right - left) && m[5] == FDiv(2.0 * nearClip, top - bottom)
    ensures m[10] == FDiv(-(farClip + nearClip), farClip - nearClip)
    ensures m[14] == FDiv(-2.0 * farClip * nearClip, farClip - nearClip)
    ensures forall k :: 0 <= k < 16 && k !in {0, 2, 5, 6, 8, 9, 10, 11, 14, 15} ==> m[k] == Identity[k]
  {
    var a := FDiv(right + left, right - left);
    var b := FDiv(top + bottom, top - bottom);
    var c := FDiv(-(farClip + nearClip), farClip - nearClip);
    var d := FDiv(-2.0 * farClip * nearClip, farClip - nearClip);
    Identity[0 := FDiv(2.0 * nearClip, right - left)][5 := FDiv(2.0 * nearClip, top - bottom)]
      [8 := a][9 := b][10 := c][14 := d][11 := -1.0][15 := 0.0]
  }

  /** mat4f::rotation(a, x, y, z): the axis-angle matrix. Whatever sin and
      cos return, the last column and the last row are those of an affine
      map. */
  function Rotation(lib: Libm, a: real, x: real, y: real, z: real): (m: Mat4)
    ensures m[3] == 0.0 && m[7] == 0.0 && m[11] == 0.0
    ensures m[12] == 0.0 && m[13] == 0.0 && m[14] == 0.0 && m[15] == 1.0
  {
    var c := lib.cos(a);
    var s := lib.sin(a);
    var t := 1.0 - c;
    [t * x * x + c, t * x * y + s * z, t * x * z - s * y, 0.0,
     t * x * y - s * z, t * y * y + c, t * y * z + s * x, 0.0,
     t * x * z + s * y, t * y * z - s * x, t * z * z + c, 0.0,
     0.0, 0.0, 0.0, 1.0]
  }

  /** operator*(vec4f, mat4f): the row vector v times m. */
  function Vec4Times(v: Vec4, m: Mat4): Vec4
  {
    seq(4, i requires 0 <= i < 4 => m[i] * v[0] + m[4 + i] * v[1] + m[8 + i] * v[2] + m[12 + i] * v[3])
  }

  /** operator*(vec3f, mat4f): the point p, with w taken as 1, times m; the
      fourth component of the product is dropped, not divided by. */
  function PointTimes(p: Vec3, m: Mat4): Vec3
  {
    [m[0] * p[0] + m[4] * p[1] + m[8] * p[2] + m[12],
     m[1] * p[0] + m[5] * p[1] + m[9] * p[2] + m[13],
     m[2] * p[0] + m[6] * p[1] + m[10] * p[2] + m[14]]
  }

  /** A matrix whose last column is (0, 0, 0, 1): it maps points to points. */
  predicate Affine(m: Mat4)
  {
    m[3] == 0.0 && m[7] == 0.0 && m[11] == 0.0 && m[15] == 1.0
  }

  // ---------------------------------------------------------------------
  // The loops of the source

  /** mat4f::mult(m1, m2): the product is built in a temporary and then
      copied into the receiver, so the receiver may be either operand. */
  method MulInto(self: array<real>, m1: array<real>, m2: array<real>)
    requires self.Length == 16 && m1.Length == 16 && m2.Length == 16
    modifies self
    ensures self[..] == Mul(old(m1[..]), old(m2[..]))
  {
    var a: Mat4 := m1[..];
    var b: Mat4 := m2[..];
    var t := new real[16];
    var j := 0;
    while j < 4
      invariant 0 <= j <= 4
      invariant forall i', j' :: 0 <= i' < 4 && 0 <= j' < j ==> At(t[..], i', j') == RowCol(a, b, i', j')
    {
      var i := 0;
      while i < 4
        invariant 0 <= i <= 4
        invariant forall i', j' :: 0 <= i' < 4 && 0 <= j' < j ==> At(t[..], i', j') == RowCol(a, b, i', j')
        invariant forall i' :: 0 <= i' < i ==> At(t[..], i', j) == RowCol(a, b, i', j)
      {
        t[i * 4 + j] := RowCol(a, b, i, j);
        i := i + 1;
      }
      j := j + 1;
    }
    forall k | 0 <= k < 16
      ensures t[k] == Mul(a, b)[k]
    {
      assert At(t[..], RowOf(k), ColOf(k)) == RowCol(a, b, RowOf(k), ColOf(k));
    }
    CopyInto(self, t);
  }

  /** The receiver's assignment operator: every entry of src is copied. */
  method CopyInto(self: array<real>, src: array<real>)
    requires self.Length == 16 && src.Length == 16
    modifies self
    ensures self[..] == old(src[..])
  {
    var s := src[..];
    var i := 0;
    while i < 16
      invariant 0 <= i <= 16
      invariant self[..i] == s[..i]
    {
      self[i] := s[i];
      i := i + 1;
    }
  }

  /** mat4f::transpose(in): in is copied first, so the receiver may be in. */
  method Transpose(self: array<real>, src: array<real>)
    requires self.Length == 16 && src.Length == 16
    modifies self
    ensures self[..] == TransposeOf(old(src[..]))
  {
    var t: Mat4 := src[..];
    var i := 0;
    while i < 4
      invariant 0 <= i <= 4
      invariant forall i', j' :: 0 <= i' < i && 0 <= j' < 4 ==> At(self[..], j', i') == At(t, i', j')
    {
      var j := 0;
      while j < 4
        invariant 0 <= j <= 4
        invariant forall i', j' :: 0 <= i' < i && 0 <= j' < 4 ==> At(self[..], j', i') == At(t, i', j')
        invariant forall j' :: 0 <= j' < j ==> At(self[..], j', i) == At(t, i, j')
      {
        self[i + j * 4] := t[j + i * 4];
        j := j + 1;
      }
      i := i + 1;
    }
    forall k | 0 <= k < 16
      ensures self[k] == TransposeOf(t)[k]
    {
      assert At(self[..], RowOf(k), ColOf(k)) == At(t, ColOf(k), RowOf(k));
    }
  }

  // ---------------------------------------------------------------------
  // Properties

  /** One entry of a triple product regrouped: the row (a0..a3) times the
      columns of b, times the column (c0..c3), equals the row times the
      rows of b times the column. */
  lemma Regroup(a0: real, a1: real, a2: real, a3: real,
                b00: real, b01: real, b02: real, b03: real,
                b10: real, b11: real, b12: real, b13: real,
                b20: real, b21: real, b22: real, b23: real,
                b30: real, b31: real, b32: real, b33: real,
                c0: real, c1: real, c2: real, c3: real)
    ensures (a0 * b00 + a1 * b10 + a2 * b20 + a3 * b30) * c0
          + (a0 * b01 + a1 * b11 + a2 * b21 + a3 * b31) * c1
          + (a0 * b02 + a1 * b12 + a2 * b22 + a3 * b32) * c2
          + (a0 * b03 + a1 * b13 + a2 * b23 + a3 * b33) * c3
         == a0 * (b00 * c0 + b01 * c1 + b02 * c2 + b03 * c3)
          + a1 * (b10 * c0 + b11 * c1 + b12 * c2 + b13 * c3)
          + a2 * (b20 * c0 + b21 * c1 + b22 * c2 + b23 * c3)
          + a3 * (b30 * c0 + b31 * c1 + b32 * c2 + b33 * c3)
  {
  }

  /** The matrix product is associative. */
  lemma MulAssociative(a: Mat4, b: Mat4, c: Mat4)
    ensures Mul(Mul(a, b), c) == Mul(a, Mul(b, c))
  {
    forall k | 0 <= k < 16
      ensures Mul(Mul(a, b), c)[k] == Mul(a, Mul(b, c))[k]
    {
      MulAssociativeAt(a, b, c, RowOf(k), ColOf(k));
    }
  }

  /** Entry (i, j) of MulAssociative. */
  lemma MulAssociativeAt(a: Mat4, b: Mat4, c: Mat4, i: int, j: int)
    requires 0 <= i < 4 && 0 <= j < 4
    ensures RowCol(Mul(a, b), c, i, j) == RowCol(a, Mul(b, c), i, j)
  {
    MulRowCol(a, b, c, i, j);
    RowColMul(a, b, c, i, j);
    RegroupAt(a, b, c, i, j);
  }

  /** The regrouping step of MulAssociativeAt, by entries. */
  lemma RegroupAt(a: Mat4, b: Mat4, c: Mat4, i: int, j: int)
    requires 0 <= i < 4 && 0 <= j < 4
    ensures RowCol(a, b, i, 0) * c[j] + RowCol(a, b, i, 1) * c[4 + j]
          + RowCol(a, b, i, 2) * c[8 + j] + RowCol(a, b, i, 3) * c[12 + j]
         == a[4 * i] * RowCol(b, c, 0, j) + a[4 * i + 1] * RowCol(b, c, 1, j)
          + a[4 * i + 2] * RowCol(b, c, 2, j) + a[4 * i + 3] * RowCol(b, c, 3, j)
  {
    Regroup(a[4 * i], a[4 * i + 1], a[4 * i + 2], a[4 * i + 3],
            b[0], b[1], b[2], b[3], b[4], b[5], b[6], b[7],
            b[8], b[9], b[10], b[11], b[12], b[13], b[14], b[15],
            c[j], c[4 + j], c[8 + j], c[12 + j]);
  }

  /** Row i of a product times column j of c, by the entries of the product. */
  lemma MulRowCol(a: Mat4, b: Mat4, c: Mat4, i: int, j: int)
    requires 0 <= i < 4 && 0 <= j < 4
    ensures RowCol(Mul(a, b), c, i, j)
         == RowCol(a, b, i, 0) * c[j] + RowCol(a, b, i, 1) * c[4 + j]
          + RowCol(a, b, i, 2) * c[8 + j] + RowCol(a, b, i, 3) * c[12 + j]
  {
    var ab := Mul(a, b);
    assert ab[4 * i] == RowCol(a, b, i, 0) && ab[4 * i + 1] == RowCol(a, b, i, 1);
    assert ab[4 * i + 2] == RowCol(a, b, i, 2) && ab[4 * i + 3] == RowCol(a, b, i, 3);
  }

  /** Row i of a times column j of a product, by the entries of the product. */
  lemma RowColMul(a: Mat4, b: Mat4, c: Mat4, i: int, j: int)
    requires 0 <= i < 4 && 0 <= j < 4
    ensures RowCol(a, Mul(b, c), i, j)
         == a[4 * i] * RowCol(b, c, 0, j) + a[4 * i + 1] * RowCol(b, c, 1, j)
          + a[4 * i + 2] * RowCol(b, c, 2, j) + a[4 * i + 3] * RowCol(b, c, 3, j)
  {
    var bc := Mul(b, c);
    assert bc[j] == RowCol(b, c, 0, j) && bc[4 + j] == RowCol(b, c, 1, j);
    assert bc[8 + j] == RowCol(b, c, 2, j) && bc[12 + j] == RowCol(b, c, 3, j);
  }

  /** The identity is neutral on both sides of the product. */
  lemma MulIdentity(m: Mat4)
    ensures Mul(Identity, m) == m && Mul(m, Identity) == m
  {
    forall k | 0 <= k < 16
      ensures Mul(Identity, m)[k] == m[k] && Mul(m, Identity)[k] == m[k]
    {
      var i, j := RowOf(k), ColOf(k);
      assert Mul(Identity, m)[k] == RowCol(Identity, m, i, j);
    }
  }

  /** Transposing twice gives back the original matrix. */
  lemma TransposeInvolutive(m: Mat4)
    ensures TransposeOf(TransposeOf(m)) == m
    ensures TransposeOf(Identity) == Identity
  {
    forall k | 0 <= k < 16
      ensures TransposeOf(TransposeOf(m))[k] == m[k]
    {
      var i, j := RowOf(k), ColOf(k);
      assert RowOf(4 * j + i) == j && ColOf(4 * j + i) == i;
    }
  }

  /** The determinant of the identity is 1 and that of a scale is the
      product of its factors. */
  lemma DeterminantExamples(x: real, y: real, z: real)
    ensures Determinant(Identity) == 1.0
    ensures Determinant(Scaling(x, y, z)) == x * y * z
    ensures Determinant(Translation(x, y, z)) == 1.0
  {
  }

  /** A point times a translation is moved by the offset. */
  lemma PointTranslation(p: Vec3, x: real, y: real, z: real)
    ensures PointTimes(p, Translation(x, y, z)) == Add(p, [x, y, z])
  {
    var m := Translation(x, y, z);
    assert m[0] == 1.0 && m[1] == 0.0 && m[2] == 0.0 && m[4] == 0.0 && m[5] == 1.0;
    assert m[6] == 0.0 && m[8] == 0.0 && m[9] == 0.0 && m[10] == 1.0;
    assert PointTimes(p, m)[0] == p[0] + x;
    assert PointTimes(p, m)[1] == p[1] + y;
    assert PointTimes(p, m)[2] == p[2] + z;
  }

  /** A point times a scale is the component-wise product. */
  lemma PointScale(p: Vec3, x: real, y: real, z: real)
    ensures PointTimes(p, Scaling(x, y, z)) == MulComponents(p, [x, y, z])
  {
    var m := Scaling(x, y, z);
    assert m[1] == 0.0 && m[2] == 0.0 && m[4] == 0.0 && m[6] == 0.0;
    assert m[8] == 0.0 && m[9] == 0.0 && m[12] == 0.0 && m[13] == 0.0 && m[14] == 0.0;
    assert m[0] == x && m[5] == y && m[10] == z;
    var r := PointTimes(p, m);
    assert r[0] == p[0] * x && r[1] == p[1] * y && r[2] == p[2] * z;
    assert r == [p[0] * x, p[1] * y, p[2] * z];
    var q := MulComponents(p, [x, y, z]);
    assert q[0] == p[0] * x && q[1] == p[1] * y && q[2] == p[2] * z;
  }

  /** The row-vector product is associative: multiplying by a product is
      multiplying by each factor in turn. */
  lemma Vec4TimesMul(v: Vec4, a: Mat4, b: Mat4)
    ensures Vec4Times(v, Mul(a, b)) == Vec4Times(Vec4Times(v, a), b)
  {
    forall j | 0 <= j < 4
      ensures Vec4Times(v, Mul(a, b))[j] == Vec4Times(Vec4Times(v, a), b)[j]
    {
      Vec4TimesMulAt(v, a, b, j);
    }
  }

  /** Component j of Vec4TimesMul. */
  lemma Vec4TimesMulAt(v: Vec4, a: Mat4, b: Mat4, j: int)
    requires 0 <= j < 4
    ensures Vec4Times(v, Mul(a, b))[j] == Vec4Times(Vec4Times(v, a), b)[j]
  {
    Vec4TimesProduct(v, a, b, j);
    var va := Vec4Times(v, a);
    Vec4TimesAt(va, b, j);
    Vec4RegroupAt(v, a, b, j);
  }

  /** The regrouping step of Vec4TimesMulAt, by entries. */
  lemma Vec4RegroupAt(v: Vec4, a: Mat4, b: Mat4, j: int)
    requires 0 <= j < 4
    ensures var va := Vec4Times(v, a);
      va[0] * b[j] + va[1] * b[4 + j] + va[2] * b[8 + j] + va[3] * b[12 + j]
      == v[0] * RowCol(a, b, 0, j) + v[1] * RowCol(a, b, 1, j)
       + v[2] * RowCol(a, b, 2, j) + v[3] * RowCol(a, b, 3, j)
  {
    var va := Vec4Times(v, a);
    Vec4TimesAt(v, a, 0);
    Vec4TimesAt(v, a, 1);
    Vec4TimesAt(v, a, 2);
    Vec4TimesAt(v, a, 3);
    Regroup(v[0], v[1], v[2], v[3],
            a[0], a[1], a[2], a[3], a[4], a[5], a[6], a[7],
            a[8], a[9], a[10], a[11], a[12], a[13], a[14], a[15],
            b[j], b[4 + j], b[8 + j], b[12 + j]);
  }

  /** Component j of v times a product, by the entries of the product. */
  lemma Vec4TimesProduct(v: Vec4, a: Mat4, b: Mat4, j: int)
    requires 0 <= j < 4
    ensures Vec4Times(v, Mul(a, b))[j]
         == v[0] * RowCol(a, b, 0, j) + v[1] * RowCol(a, b, 1, j)
          + v[2] * RowCol(a, b, 2, j) + v[3] * RowCol(a, b, 3, j)
  {
    var ab := Mul(a, b);
    assert ab[j] == RowCol(a, b, 0, j) && ab[4 + j] == RowCol(a, b, 1, j);
    assert ab[8 + j] == RowCol(a, b, 2, j) && ab[12 + j] == RowCol(a, b, 3, j);
  }

  /** Component j of v times m. */
  lemma Vec4TimesAt(v: Vec4, m: Mat4, j: int)
    requires 0 <= j < 4
    ensures Vec4Times(v, m)[j] == v[0] * m[j] + v[1] * m[4 + j] + v[2] * m[8 + j] + v[3] * m[12 + j]
  {
  }

  /** A point times a product whose first factor is affine is the point
      transformed by each factor in turn. */
  lemma PointTimesMul(p: Vec3, a: Mat4, b: Mat4)
    requires Affine(a)
    ensures PointTimes(p, Mul(a, b)) == PointTimes(PointTimes(p, a), b)
  {
    var pa := PointTimes(p, a);
    PointTimesDropsW(p, a);
    PointTimesDropsW(p, Mul(a, b));
    PointTimesDropsW(pa, b);
    Vec4TimesMul(p + [1.0], a, b);
    var va := Vec4Times(p + [1.0], a);
    assert va[3] == 1.0;
    assert va == pa + [1.0];
  }

  /** Every point on the rotation axis stays where it is when the axis has
      unit length, whatever sin and cos return. */
  lemma RotationFixesAxis(lib: Libm, a: real, x: real, y: real, z: real)
    requires x * x + y * y + z * z == 1.0
    ensures PointTimes([x, y, z], Rotation(lib, a, x, y, z)) == [x, y, z]
  {
    var m := Rotation(lib, a, x, y, z);
    RotationAxisX(lib, a, x, y, z);
    RotationAxisY(lib, a, x, y, z);
    RotationAxisZ(lib, a, x, y, z);
    PointFixed([x, y, z], m);
  }

  /** The first component of RotationFixesAxis. */
  lemma RotationAxisX(lib: Libm, a: real, x: real, y: real, z: real)
    requires x * x + y * y + z * z == 1.0
    ensures var m := Rotation(lib, a, x, y, z); m[0] * x + m[4] * y + m[8] * z == x
  {
    var m := Rotation(lib, a, x, y, z);
    RotationFixesAxisRow(1.0 - lib.cos(a), lib.cos(a), lib.sin(a), x, y, z, m[0], m[4], m[8]);
  }

  /** The second component of RotationFixesAxis. */
  lemma RotationAxisY(lib: Libm, a: real, x: real, y: real, z: real)
    requires x * x + y * y + z * z == 1.0
    ensures var m := Rotation(lib, a, x, y, z); m[1] * x + m[5] * y + m[9] * z == y
  {
    var m := Rotation(lib, a, x, y, z);
    RotationFixesAxisRow(1.0 - lib.cos(a), lib.cos(a), lib.sin(a), y, z, x, m[5], m[9], m[1]);
  }

  /** The third component of RotationFixesAxis. */
  lemma RotationAxisZ(lib: Libm, a: real, x: real, y: real, z: real)
    requires x * x + y * y + z * z == 1.0
    ensures var m := Rotation(lib, a, x, y, z); m[2] * x + m[6] * y + m[10] * z == z
  {
    var m := Rotation(lib, a, x, y, z);
    RotationFixesAxisRow(1.0 - lib.cos(a), lib.cos(a), lib.sin(a), z, x, y, m[10], m[2], m[6]);
  }

  /** One component of RotationFixesAxis: with u, v, w the entries that
      multiply x, y and z, the component comes out as x. */
  lemma RotationFixesAxisRow(t: real, c: real, s: real, x: real, y: real, z: real, u: real, v: real, w: real)
    requires x * x + y * y + z * z == 1.0 && t == 1.0 - c
    requires u == t * x * x + c && v == t * x * y - s * z && w == t * x * z + s * y
    ensures u * x + v * y + w * z == x
  {
    assert u * x + v * y + w * z == t * x * (x * x + y * y + z * z) + c * x;
  }

  /** A point times m is the point extended with w = 1 times m, with the
      fourth component dropped. */
  lemma PointTimesDropsW(p: Vec3, m: Mat4)
    ensures PointTimes(p, m) == Vec4Times(p + [1.0], m)[..3]
  {
    var q := p + [1.0];
    assert q[0] == p[0] && q[1] == p[1] && q[2] == p[2] && q[3] == 1.0;
    var v := Vec4Times(q, m);
    var r := PointTimes(p, m);
    assert v[0] == m[0] * p[0] + m[4] * p[1] + m[8] * p[2] + m[12] * 1.0;
    assert v[1] == m[1] * p[0] + m[5] * p[1] + m[9] * p[2] + m[13] * 1.0;
    assert v[2] == m[2] * p[0] + m[6] * p[1] + m[10] * p[2] + m[14] * 1.0;
    assert v[0] == r[0] && v[1] == r[1] && v[2] == r[2];
  }

  /** A point whose three components each come out unchanged is a fixed
      point. */
  lemma PointFixed(p: Vec3, m: Mat4)
    requires m[0] * p[0] + m[4] * p[1] + m[8] * p[2] + m[12] == p[0]
    requires m[1] * p[0] + m[5] * p[1] + m[9] * p[2] + m[13] == p[1]
    requires m[2] * p[0] + m[6] * p[1] + m[10] * p[2] + m[14] == p[2]
    ensures PointTimes(p, m) == p
  {
    var r := PointTimes(p, m);
    assert r[0] == p[0] && r[1] == p[1] && r[2] == p[2];
  }

  /** A rotation by angle 0 is the identity when cos 0 = 1 and sin 0 = 0. */
  lemma RotationZeroAngle(lib: Libm, x: real, y: real, z: real)
    requires Lawful(lib)
    ensures Rotation(lib, 0.0, x, y, z) == Identity
  {
    var m := Rotation(lib, 0.0, x, y, z);
    assert lib.cos(0.0) == 1.0 && lib.sin(0.0) == 0.0;
    assert m[0] == 1.0 && m[1] == 0.0 && m[2] == 0.0;
    assert m[4] == 0.0 && m[5] == 1.0 && m[6] == 0.0;
    assert m[8] == 0.0 && m[9] == 0.0 && m[10] == 1.0;
  }

  // ---------------------------------------------------------------------
  // The frustum

  /** As written, the x and y of clip space do not depend on the offsets A
      and B at all: x is only scaled, whatever left + right is. */
  lemma FrustumIgnoresOffset(l: real, r: real, b: real, t: real, n: real, f: real, x: real, y: real, z: real)
    ensures var v := Vec4Times([x, y, z, 1.0], Frustum(l, r, b, t, n, f));
      v[0] == FDiv(2.0 * n, r - l) * x && v[1] == FDiv(2.0 * n, t - b) * y && v[3] == -z
  {
    var m := Frustum(l, r, b, t, n, f);
    assert m[4] == 0.0 && m[8] == 0.0 && m[12] == 0.0 && m[1] == 0.0 && m[9] == 0.0 && m[13] == 0.0;
    assert m[3] == 0.0 && m[7] == 0.0;
    Vec4TimesAt([x, y, z, 1.0], m, 0);
    Vec4TimesAt([x, y, z, 1.0], m, 1);
    Vec4TimesAt([x, y, z, 1.0], m, 3);
  }

  /** The frustum with left 0, right 2, bottom -1, top 1, near 1, far 10
      takes the near corner (0, -1, -1) to x = 0 in clip space with w = 1,
      the middle of the view, where the corrected frustum takes it to
      x = -1, the left edge. */
  lemma FrustumCornerAsWritten()
    ensures var v := Vec4Times([0.0, -1.0, -1.0, 1.0], Frustum(0.0, 2.0, -1.0, 1.0, 1.0, 10.0));
      v[0] == 0.0 && v[3] == 1.0
    ensures var v := Vec4Times([0.0, -1.0, -1.0, 1.0], FrustumCorrected(0.0, 2.0, -1.0, 1.0, 1.0, 10.0));
      v[0] == -1.0 && v[3] == 1.0
  {
    FrustumIgnoresOffset(0.0, 2.0, -1.0, 1.0, 1.0, 10.0, 0.0, -1.0, -1.0);
    FrustumCorrectedCorners(0.0, 2.0, -1.0, 1.0, 1.0, 10.0);
  }

  /** The corrected frustum takes the near corners (left, bottom, -near) and
      (right, top, -near) to the corners of clip space, with w = near, so
      that they land on (-1, -1, -1) and (1, 1, -1) after the divide by w. */
  lemma FrustumCorrectedCorners(l: real, r: real, b: real, t: real, n: real, f: real)
    requires r != l && t != b && f != n
    ensures Vec4Times([l, b, -n, 1.0], FrustumCorrected(l, r, b, t, n, f)) == [-n, -n, -n, n]
    ensures Vec4Times([r, t, -n, 1.0], FrustumCorrected(l, r, b, t, n, f)) == [n, n, -n, n]
  {
    FrustumCorrectedShape(l, r, b, t, n, f);
    var m := FrustumCorrected(l, r, b, t, n, f);
    NearEdge(l, r, n, m[0], m[8]);
    NearEdge(b, t, n, m[5], m[9]);
    Depth(n, f, m[10], m[14]);
    PerspectiveImage(m, l, b, -n, -n, -n, -n);
    PerspectiveImage(m, r, t, -n, n, n, -n);
  }

  /** The entries of the corrected frustum. */
  lemma FrustumCorrectedShape(l: real, r: real, b: real, t: real, n: real, f: real)
    ensures var m := FrustumCorrected(l, r, b, t, n, f);
      m[1] == 0.0 && m[2] == 0.0 && m[3] == 0.0 && m[4] == 0.0 && m[6] == 0.0 && m[7] == 0.0
      && m[11] == -1.0 && m[12] == 0.0 && m[13] == 0.0 && m[15] == 0.0
      && m[0] == FDiv(2.0 * n, r - l) && m[8] == FDiv(r + l, r - l)
      && m[5] == FDiv(2.0 * n, t - b) && m[9] == FDiv(t + b, t - b)
      && m[10] == FDiv(-(f + n), f - n) && m[14] == FDiv(-2.0 * f * n, f - n)
  {
  }

  /** A point (x, y, z) with w = 1 times a matrix shaped like the
      corrected frustum: its clip-space w is -z, and x, y and z are the
      given combinations of the entries. */
  lemma PerspectiveImage(m: Mat4, x: real, y: real, z: real, cx: real, cy: real, cz: real)
    requires m[1] == 0.0 && m[2] == 0.0 && m[3] == 0.0 && m[4] == 0.0
    requires m[6] == 0.0 && m[7] == 0.0 && m[11] == -1.0
    requires m[12] == 0.0 && m[13] == 0.0 && m[15] == 0.0
    requires m[0] * x + m[8] * z == cx && m[5] * y + m[9] * z == cy && m[10] * z + m[14] == cz
    ensures Vec4Times([x, y, z, 1.0], m) == [cx, cy, cz, -z]
  {
    var v := Vec4Times([x, y, z, 1.0], m);
    Vec4TimesAt([x, y, z, 1.0], m, 0);
    Vec4TimesAt([x, y, z, 1.0], m, 1);
    Vec4TimesAt([x, y, z, 1.0], m, 2);
    Vec4TimesAt([x, y, z, 1.0], m, 3);
    assert v[0] == cx && v[1] == cy && v[2] == cz && v[3] == -z;
  }

  /** The corrected frustum takes the far plane to depth 1 after the divide
      by w: the point (0, 0, -far) comes out with z = w = far. */
  lemma FrustumFarPlane(l: real, r: real, b: real, t: real, n: real, f: real)
    requires f != n
    ensures var v := Vec4Times([0.0, 0.0, -f, 1.0], FrustumCorrected(l, r, b, t, n, f));
      v[2] == f && v[3] == f
  {
    FrustumCorrectedShape(l, r, b, t, n, f);
    var m := FrustumCorrected(l, r, b, t, n, f);
    Depth(n, f, m[10], m[14]);
    PerspectiveImage(m, 0.0, 0.0, -f, m[0] * 0.0 + m[8] * (-f), m[5] * 0.0 + m[9] * (-f), f);
  }

  /** One axis of the near plane: with scale s = 2 near / (hi - lo) and
      offset o = (hi + lo) / (hi - lo), lo goes to -near and hi to near. */
  lemma NearEdge(lo: real, hi: real, n: real, s: real, o: real)
    requires hi != lo
    requires s == FDiv(2.0 * n, hi - lo) && o == FDiv(hi + lo, hi - lo)
    ensures s * lo + o * (-n) == -n && s * hi + o * (-n) == n
  {
    var d := hi - lo;
    assert s * d == 2.0 * n && o * d == hi + lo;
    assert (s * lo + o * (-n)) * d == (-n) * d;
    assert (s * hi + o * (-n)) * d == n * d;
  }

  /** Depth: with c = -(far + near) / (far - near) and
      d = -2 far near / (far - near), z = -near goes to -near and
      z = -far to far. */
  lemma Depth(n: real, f: real, c: real, d: real)
    requires f != n
    requires c == FDiv(-(f + n), f - n) && d == FDiv(-2.0 * f * n, f - n)
    ensures c * (-n) + d == -n && c * (-f) + d == f
  {
    var e := f - n;
    assert c * e == -(f + n) && d * e == -2.0 * f * n;
    assert (c * (-n) + d) * e == (-n) * e;
    assert (c * (-f) + d) * e == f * e;
  }
}
