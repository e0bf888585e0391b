/** Fixed-size float vectors (vec2f, vec3f, vec4f) and the free functions
    over them. A vector is a sequence of reals; the operators of the OPS
    macro work for every dimension, so they are stated once for sequences of
    equal length. The members that change the receiver in place work on an
    array that stands for the receiver's m_v. */
module Vectors {
  import opened MathLib

  type Vec2 = v: seq<real> | |v| == 2 witness [0.0, 0.0]
  type Vec3 = v: seq<real> | |v| == 3 witness [0.0, 0.0, 0.0]
  type Vec4 = v: seq<real> | |v| == 4 witness [0.0, 0.0, 0.0, 0.0]

  // ---------------------------------------------------------------------
  // Component-wise operators (the OPS macro, vec_scale, vec_blend)

  /** operator+(v0, v1) */
  function Add(v0: seq<real>, v1: seq<real>): (r: seq<real>)
    requires |v0| == |v1|
    ensures |r| == |v0|
  {
    seq(|v0|, i requires 0 <= i < |v0| => v0[i] + v1[i])
  }

  /** operator-(v0, v1) */
  function Sub(v0: seq<real>, v1: seq<real>): (r: seq<real>)
    requires |v0| == |v1|
    ensures |r| == |v0|
  {
    seq(|v0|, i requires 0 <= i < |v0| => v0[i] - v1[i])
  }

  /** unary operator-(v) */
  function Neg(v: seq<real>): (r: seq<real>)
    ensures |r| == |v|
  {
    seq(|v|, i requires 0 <= i < |v| => -v[i])
  }

  /** operator*(v, w), operator*(w, v) and vec_scale(v, w): each component
      times w. */
  function Scale(v: seq<real>, w: real): (r: seq<real>)
    ensures |r| == |v|
  {
    seq(|v|, i requires 0 <= i < |v| => v[i] * w)
  }

  /** operator/(v, w), and also operator/(w, v): the scalar-first form
      divides each component of v by w as well. */
  function DivScalar(v: seq<real>, w: real): (r: seq<real>)
    ensures |r| == |v|
  {
    seq(|v|, i requires 0 <= i < |v| => FDiv(v[i], w))
  }

  /** operator*(v0, v1): the component-wise product. */
  function MulComponents(v0: seq<real>, v1: seq<real>): (r: seq<real>)
    requires |v0| == |v1|
    ensures |r| == |v0|
  {
    seq(|v0|, i requires 0 <= i < |v0| => v0[i] * v1[i])
  }

  /** vec3f::operator/=(const vec3f&): the component-wise quotient. */
  function DivComponents(v0: seq<real>, v1: seq<real>): (r: seq<real>)
    requires |v0| == |v1|
    ensures |r| == |v0|
  {
    seq(|v0|, i requires 0 <= i < |v0| => FDiv(v0[i], v1[i]))
  }

  /** vec_blend(v0, w0, v1, w1) = v0 * w0 + v1 * w1 */
  function Blend(v0: seq<real>, w0: real, v1: seq<real>, w1: real): (r: seq<real>)
    requires |v0| == |v1|
    ensures |r| == |v0|
  {
    seq(|v0|, i requires 0 <= i < |v0| => v0[i] * w0 + v1[i] * w1)
  }

  // ---------------------------------------------------------------------
  // Dot product and length

  /** The sum vec_dot accumulates, in the loop's order. */
  function Dot(v0: seq<real>, v1: seq<real>): real
    requires |v0| == |v1|
  {
    if |v0| == 0 then 0.0
    else Dot(v0[..|v0| - 1], v1[..|v0| - 1]) + v0[|v0| - 1] * v1[|v0| - 1]
  }

  /** vec_length: the square root of the sum of squares. */
  function Length(lib: Libm, v: seq<real>): real
  {
    lib.sqrt(Dot(v, v))
  }

  /** vec_normalize: each component divided by the length. */
  function Normalize(lib: Libm, v: seq<real>): (r: seq<real>)
    ensures |r| == |v|
  {
    DivScalar(v, Length(lib, v))
  }

  /** vec_reflect(i, n) = vec_blend(i, 1, n, -2 * vec_dot(i, n)) */
  function Reflect(i: seq<real>, n: seq<real>): (r: seq<real>)
    requires |i| == |n|
    ensures |r| == |i|
  {
    Blend(i, 1.0, n, -2.0 * Dot(i, n))
  }

  /** vec_cross(v0, v1) */
  function Cross(v0: Vec3, v1: Vec3): Vec3
  {
    [v0[1] * v1[2] - v0[2] * v1[1],
     v0[2] * v1[0] - v0[0] * v1[2],
     v0[0] * v1[1] - v0[1] * v1[0]]
  }

  // ---------------------------------------------------------------------
  // The loops of the source, proved against the functions above

  /** operator==: false at the first differing component. */
  method Equal(v0: seq<real>, v1: seq<real>) returns (eq: bool)
    requires |v0| == |v1|
    ensures eq <==> v0 == v1
  {
    for i := 0 to |v0|
      invariant v0[..i] == v1[..i]
    {
      if v0[i] != v1[i] {
        return false;
      }
    }
    assert v0 == v0[..|v0|] && v1 == v1[..|v1|];
    return true;
  }

  /** vec_dot */
  method VecDot(v0: seq<real>, v1: seq<real>) returns (total: real)
    requires |v0| == |v1|
    ensures total == Dot(v0, v1)
  {
    total := 0.0;
    for i := 0 to |v0|
      invariant total == Dot(v0[..i], v1[..i])
    {
      assert v0[..i + 1][..i] == v0[..i] && v1[..i + 1][..i] == v1[..i];
      total := total + v0[i] * v1[i];
    }
    assert v0[..|v0|] == v0 && v1[..|v1|] == v1;
  }

  /** vec_length, vec3f::length and vec4f::length: the same loop over
      squares followed by one square root. */
  method VecLength(lib: Libm, v: seq<real>) returns (len: real)
    ensures len == Length(lib, v)
  {
    var sum := 0.0;
    for i := 0 to |v|
      invariant sum == Dot(v[..i], v[..i])
    {
      assert v[..i + 1][..i] == v[..i];
      sum := sum + v[i] * v[i];
    }
    assert v[..|v|] == v;
    len := lib.sqrt(sum);
  }

  // ---------------------------------------------------------------------
  // Members that update the receiver in place

  /** operator+=(v): alias-safe, since component i is read before it is
      written. */
  method AddAssign(self: array<real>, v: array<real>)
    requires self.Length == v.Length
    modifies self
    ensures self[..] == Add(old(self[..]), old(v[..]))
  {
    for i := 0 to self.Length
      invariant forall k :: 0 <= k < i ==> self[k] == old(self[k]) + old(v[k])
      invariant forall k :: i <= k < self.Length ==> self[k] == old(self[k]) && v[k] == old(v[k])
    {
      self[i] := self[i] + v[i];
    }
  }

  /** operator-=(v) */
  method SubAssign(self: array<real>, v: array<real>)
    requires self.Length == v.Length
    modifies self
    ensures self[..] == Sub(old(self[..]), old(v[..]))
  {
    for i := 0 to self.Length
      invariant forall k :: 0 <= k < i ==> self[k] == old(self[k]) - old(v[k])
      invariant forall k :: i <= k < self.Length ==> self[k] == old(self[k]) && v[k] == old(v[k])
    {
      self[i] := self[i] - v[i];
    }
  }

  /** vec3f::operator*=(const vec3f&) */
  method MulAssign(self: array<real>, v: array<real>)
    requires self.Length == v.Length
    modifies self
    ensures self[..] == MulComponents(old(self[..]), old(v[..]))
  {
    for i := 0 to self.Length
      invariant forall k :: 0 <= k < i ==> self[k] == old(self[k]) * old(v[k])
      invariant forall k :: i <= k < self.Length ==> self[k] == old(self[k]) && v[k] == old(v[k])
    {
      self[i] := self[i] * v[i];
    }
    assert forall k :: 0 <= k < self.Length ==> self[..][k] == MulComponents(old(self[..]), old(v[..]))[k];
  }

  /** vec3f::operator/=(const vec3f&) */
  method DivAssignComponents(self: array<real>, v: array<real>)
    requires self.Length == v.Length
    modifies self
    ensures self[..] == DivComponents(old(self[..]), old(v[..]))
  {
    for i := 0 to self.Length
      invariant forall k :: 0 <= k < i ==> self[k] == FDiv(old(self[k]), old(v[k]))
      invariant forall k :: i <= k < self.Length ==> self[k] == old(self[k]) && v[k] == old(v[k])
    {
      self[i] := FDiv(self[i], v[i]);
    }
  }

  /** operator*=(float) */
  method ScaleAssign(self: array<real>, w: real)
    modifies self
    ensures self[..] == Scale(old(self[..]), w)
  {
    for i := 0 to self.Length
      invariant forall k :: 0 <= k < i ==> self[k] == old(self[k]) * w
      invariant forall k :: i <= k < self.Length ==> self[k] == old(self[k])
    {
      self[i] := self[i] * w;
    }
    assert forall k :: 0 <= k < self.Length ==> self[..][k] == Scale(old(self[..]), w)[k];
  }

  /** operator/=(float) */
  method DivAssign(self: array<real>, w: real)
    modifies self
    ensures self[..] == DivScalar(old(self[..]), w)
  {
    for i := 0 to self.Length
      invariant forall k :: 0 <= k < i ==> self[k] == FDiv(old(self[k]), w)
      invariant forall k :: i <= k < self.Length ==> self[k] == old(self[k])
    {
      self[i] := FDiv(self[i], w);
    }
  }

  /** normalize(): *this = vec_normalize(*this) */
  method NormalizeInPlace(lib: Libm, self: array<real>)
    modifies self
    ensures self[..] == Normalize(lib, old(self[..]))
  {
    var n := Normalize(lib, self[..]);
    forall k | 0 <= k < self.Length {
      self[k] := n[k];
    }
  }

  /** vec3f::cross(v1): overwrites the receiver with the cross product and
      returns it. The product is built in a temporary first, so v1 may be
      the receiver itself. */
  method CrossInPlace(self: array<real>, v1: array<real>) returns (r: Vec3)
    requires self.Length == 3 && v1.Length == 3
    modifies self
    ensures self[..] == Cross(old(self[..]), old(v1[..]))
    ensures r == self[..]
  {
    var tmp := Cross(self[..], v1[..]);
    self[0], self[1], self[2] := tmp[0], tmp[1], tmp[2];
    r := self[..];
  }

  // ---------------------------------------------------------------------
  // Properties

  /** The assertions of the vector test program. */
  lemma AddSubExample()
    ensures Add([1.0, 0.0, 0.0], [0.0, 1.0, 0.0]) == [1.0, 1.0, 0.0]
    ensures Sub([1.0, 0.0, 0.0], [0.0, 1.0, 0.0]) == [1.0, -1.0, 0.0]
  {
  }

  /** Subtracting what was added gives back the original vector. */
  lemma AddSubCancel(v0: seq<real>, v1: seq<real>)
    requires |v0| == |v1|
    ensures Sub(Add(v0, v1), v1) == v0
    ensures Add(v0, v1) == Add(v1, v0)
  {
  }

  /** Negation is scaling by -1 and subtraction from zero. */
  lemma NegIsScale(v: seq<real>)
    ensures Neg(v) == Scale(v, -1.0)
    ensures Neg(v) == Sub(seq(|v|, _ => 0.0), v)
  {
  }

  /** Dividing by a nonzero scalar undoes scaling by it, and dividing by
      nonzero components undoes multiplying by them. */
  lemma DivUndoesScale(v: seq<real>, w: real, u: seq<real>)
    requires w != 0.0 && |u| == |v|
    requires forall i | 0 <= i < |u| :: u[i] != 0.0
    ensures DivScalar(Scale(v, w), w) == v
    ensures DivComponents(MulComponents(v, u), u) == v
  {
    var a := DivScalar(Scale(v, w), w);
    var b := DivComponents(MulComponents(v, u), u);
    forall i | 0 <= i < |v| ensures a[i] == v[i] && b[i] == v[i] {
      CancelFactor(v[i], w);
      CancelFactor(v[i], u[i]);
    }
  }

  /** x w / w = x for a nonzero w. */
  lemma CancelFactor(x: real, w: real)
    requires w != 0.0
    ensures FDiv(x * w, w) == x
  {
    var q := FDiv(x * w, w);
    assert q * w == x * w;
    assert (q - x) * w == 0.0;
  }

  /** The dot product is linear in its first argument: the blend of two
      vectors dotted with c is the blend of the two dot products. */
  lemma {:induction false} DotBlend(a: seq<real>, s: real, b: seq<real>, t: real, c: seq<real>)
    requires |a| == |b| == |c|
    ensures Dot(Blend(a, s, b, t), c) == s * Dot(a, c) + t * Dot(b, c)
  {
    if |a| > 0 {
      var n := |a| - 1;
      forall k | 0 <= k < n
        ensures Blend(a, s, b, t)[..n][k] == Blend(a[..n], s, b[..n], t)[k]
      {
      }
      var bl := Blend(a, s, b, t);
      assert bl[..n] == Blend(a[..n], s, b[..n], t);
      DotBlend(a[..n], s, b[..n], t, c[..n]);
      assert Dot(bl, c) == Dot(bl[..n], c[..n]) + (a[n] * s + b[n] * t) * c[n];
      BlendStep(a[n], b[n], s, t, Dot(a[..n], c[..n]), Dot(b[..n], c[..n]), c[n]);
    }
  }

  /** The last step of DotBlend. */
  lemma BlendStep(x: real, y: real, s: real, t: real, p: real, q: real, z: real)
    ensures (s * p + t * q) + (x * s + y * t) * z == s * (p + x * z) + t * (q + y * z)
  {
  }

  /** The dot product is symmetric. */
  lemma {:induction false} DotSymmetric(a: seq<real>, b: seq<real>)
    requires |a| == |b|
    ensures Dot(a, b) == Dot(b, a)
  {
    if |a| > 0 {
      DotSymmetric(a[..|a| - 1], b[..|a| - 1]);
    }
  }

  /** Scaling one argument scales the dot product. */
  lemma {:induction false} DotScale(a: seq<real>, w: real, b: seq<real>)
    requires |a| == |b|
    ensures Dot(Scale(a, w), b) == w * Dot(a, b)
  {
    if |a| > 0 {
      var n := |a| - 1;
      forall k | 0 <= k < n
        ensures Scale(a, w)[..n][k] == Scale(a[..n], w)[k]
      {
      }
      assert Scale(a, w)[..n] == Scale(a[..n], w);
      DotScale(a[..n], w, b[..n]);
    }
  }

  /** The dot product of a vector with itself is never negative. */
  lemma {:induction false} DotSelfNonNegative(a: seq<real>)
    ensures Dot(a, a) >= 0.0
  {
    if |a| > 0 {
      DotSelfNonNegative(a[..|a| - 1]);
    }
  }

  /** The dot product of two 3-vectors written out. */
  lemma Dot3(a: seq<real>, b: seq<real>)
    requires |a| == |b| == 3
    ensures Dot(a, b) == a[0] * b[0] + a[1] * b[1] + a[2] * b[2]
  {
    assert a[..3] == a && b[..3] == b;
    assert a[..2][..1] == a[..1] && b[..2][..1] == b[..1];
    assert a[..1][..0] == [] && b[..1][..0] == [];
    assert Dot(a[..1], b[..1]) == a[0] * b[0];
    assert Dot(a[..2], b[..2]) == a[0] * b[0] + a[1] * b[1];
  }

  /** Reflecting about a unit normal flips the normal component. */
  lemma ReflectFlipsNormal(i: seq<real>, n: seq<real>)
    requires |i| == |n| && Dot(n, n) == 1.0
    ensures Dot(Reflect(i, n), n) == -Dot(i, n)
  {
    DotBlend(i, 1.0, n, -2.0 * Dot(i, n), n);
  }

  /** The cross product is perpendicular to both arguments and changes sign
      when they are swapped. */
  lemma CrossPerpendicular(v0: Vec3, v1: Vec3)
    ensures Dot(Cross(v0, v1), v0) == 0.0 && Dot(Cross(v0, v1), v1) == 0.0
    ensures Cross(v1, v0) == Neg(Cross(v0, v1))
  {
    Dot3(Cross(v0, v1), v0);
    Dot3(Cross(v0, v1), v1);
  }

  /** A vector of non-zero length normalizes to unit length. */
  lemma NormalizeUnit(lib: Libm, v: seq<real>)
    requires Lawful(lib) && Dot(v, v) > 0.0
    ensures Dot(Normalize(lib, v), Normalize(lib, v)) == 1.0
  {
    var l := Length(lib, v);
    assert l * l == Dot(v, v) && l > 0.0;
    var w := 1.0 / l;
    var s := Scale(v, w);
    NormalizeIsScale(lib, v);
    DotScale(v, w, s);
    DotSymmetric(v, s);
    DotScale(v, w, v);
    UnitArithmetic(l, w, Dot(v, v), Dot(s, v), Dot(s, s));
  }

  /** What vec_normalize promises: a vector of non-zero length becomes a
      unit vector pointing its way (its dot product with the original is the
      original's length), and a unit vector is left as it is. */
  lemma NormalizeFacts(lib: Libm, v: seq<real>)
    ensures Lawful(lib) && Dot(v, v) > 0.0 ==>
      && Dot(Normalize(lib, v), Normalize(lib, v)) == 1.0
      && Dot(Normalize(lib, v), v) == Length(lib, v)
    ensures Lawful(lib) && Dot(v, v) == 1.0 ==> Normalize(lib, v) == v
  {
    if Lawful(lib) && Dot(v, v) > 0.0 {
      NormalizeUnit(lib, v);
      var l := Length(lib, v);
      assert l * l == Dot(v, v) && l > 0.0;
      NormalizeIsScale(lib, v);
      DotScale(v, 1.0 / l, v);
      ReciprocalTimesSquare(l);
    }
    if Lawful(lib) && Dot(v, v) == 1.0 {
      NormalizeUnitFixed(lib, v);
    }
  }

  /** (1 / l) (l l) = l for a non-zero l. */
  lemma ReciprocalTimesSquare(l: real)
    requires l != 0.0
    ensures (1.0 / l) * (l * l) == l
  {
    assert (1.0 / l) * (l * l) == ((1.0 / l) * l) * l;
  }

  /** A unit vector is left as it is by normalisation. */
  lemma NormalizeUnitFixed(lib: Libm, v: seq<real>)
    requires Lawful(lib) && Dot(v, v) == 1.0
    ensures Normalize(lib, v) == v
  {
    SqrtUnique(lib, 1.0, 1.0);
    assert Length(lib, v) == 1.0;
    forall k | 0 <= k < |v|
      ensures Normalize(lib, v)[k] == v[k]
    {
    }
  }

  /** Dividing by a non-zero length is scaling by its reciprocal. */
  lemma NormalizeIsScale(lib: Libm, v: seq<real>)
    requires Length(lib, v) != 0.0
    ensures Normalize(lib, v) == Scale(v, 1.0 / Length(lib, v))
  {
    var l := Length(lib, v);
    forall k | 0 <= k < |v|
      ensures Normalize(lib, v)[k] == Scale(v, 1.0 / l)[k]
    {
      assert FDiv(v[k], l) == v[k] * (1.0 / l);
    }
  }

  /** The real arithmetic behind NormalizeUnit. */
  lemma UnitArithmetic(l: real, w: real, d: real, y: real, x: real)
    requires l > 0.0 && l * l == d && w == 1.0 / l
    requires y == w * d && x == w * y
    ensures x == 1.0
  {
    assert w * l == 1.0;
    assert x == (w * l) * (w * l);
  }
}
