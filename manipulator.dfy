/** struct manipulator of library/manipulator.h and library/manipulator.cpp:
    a camera or object transform driven by 2D drags. The rotation is a
    rot4f, the translation, scale and centre are vec3f, and the world axes
    are the axes of the current frame as seen from the manipulator. */
module Manipulators {
  import opened MathLib
  import opened Vectors
  import opened Matrices
  import opened Inversion
  import opened Rotations
  import opened Geometry

  /** enum manipulator::mode */
  datatype Mode = Rotate | Roll | Scroll | Dolly

  /** The default reference size: the diagonal of a cube of side 2. */
  const DefaultReferenceSize: real := 3.465

  const UnitX: Vec3 := [1.0, 0.0, 0.0]
  const UnitY: Vec3 := [0.0, 1.0, 0.0]
  const UnitZ: Vec3 := [0.0, 0.0, 1.0]
  const Origin: Vec3 := [0.0, 0.0, 0.0]
  const UnitScale: Vec3 := [1.0, 1.0, 1.0]

  // ---------------------------------------------------------------------
  // drag_to_rotation

  /** The length of the drag, computed with both components scaled by
      10000 under the square root and the root divided by 10000. */
  function DragDistance(lib: Libm, dx: real, dy: real): real
  {
    lib.sqrt(dx * 10000.0 * dx * 10000.0 + dy * 10000.0 * dy * 10000.0) / 10000.0
  }

  /** drag_to_rotation(dx, dy, out): the angle is pi times the drag length
      and the axis is (dy, dx, 0) divided by that length. The source writes
      the four components through the out-pointer; here they are the
      result. */
  function DragToRotation(lib: Libm, dx: real, dy: real): (r: Vec4)
    ensures r[0] == Pi * DragDistance(lib, dx, dy) && r[3] == 0.0
    ensures r[1] * DragDistance(lib, dx, dy) == dy || DragDistance(lib, dx, dy) == 0.0
    ensures r[2] * DragDistance(lib, dx, dy) == dx || DragDistance(lib, dx, dy) == 0.0
  {
    var dist := DragDistance(lib, dx, dy);
    [Pi * dist, FDiv(dy, dist), FDiv(dx, dist), 0.0]
  }

  /** The rotation move() composes on the right in ROTATE mode: the angle
      of the drag, and the drag axis carried into the frame by the world
      axes (the rot4f() default with its angle and axis overwritten). */
  function LocalRotation(lib: Libm, worldX: Vec3, worldY: Vec3, dx: real, dy: real): (r: Vec4)
    ensures r[0] == Pi * DragDistance(lib, dx, dy)
    ensures Orthonormal(worldX, worldY) ==>
      && Dot(r[1..], worldX) == DragToRotation(lib, dx, dy)[1]
      && Dot(r[1..], worldY) == DragToRotation(lib, dx, dy)[2]
    ensures Lawful(lib) && (dx != 0.0 || dy != 0.0) && Orthonormal(worldX, worldY) ==>
      r[1] * r[1] + r[2] * r[2] + r[3] * r[3] == 1.0
  {
    var world := DragToRotation(lib, dx, dy);
    LocalAxis(lib, worldX, worldY, dx, dy);
    [world[0]] + Add(Scale(worldX, world[1]), Scale(worldY, world[2]))
  }

  /** Two world axes of unit length at right angles. */
  predicate Orthonormal(x: Vec3, y: Vec3)
  {
    Dot(x, x) == 1.0 && Dot(y, y) == 1.0 && Dot(x, y) == 0.0
  }

  /** The drag axis carried into orthonormal world axes keeps its two
      components along them, and so its unit length. */
  lemma LocalAxis(lib: Libm, worldX: Vec3, worldY: Vec3, dx: real, dy: real)
    ensures var w := DragToRotation(lib, dx, dy);
      var v := Add(Scale(worldX, w[1]), Scale(worldY, w[2]));
      && (Orthonormal(worldX, worldY) ==> Dot(v, worldX) == w[1] && Dot(v, worldY) == w[2])
      && (Lawful(lib) && (dx != 0.0 || dy != 0.0) && Orthonormal(worldX, worldY) ==>
            v[0] * v[0] + v[1] * v[1] + v[2] * v[2] == 1.0)
  {
    var w := DragToRotation(lib, dx, dy);
    if Orthonormal(worldX, worldY) {
      Combination(worldX, worldY, w[1], w[2]);
      if Lawful(lib) && (dx != 0.0 || dy != 0.0) {
        DragUnitAxis(lib, dx, dy);
      }
    }
  }

  /** For orthonormal x and y, a x + b y has components a and b along them
      and squared length a^2 + b^2. */
  lemma Combination(x: Vec3, y: Vec3, a: real, b: real)
    requires Orthonormal(x, y)
    ensures var v := Add(Scale(x, a), Scale(y, b));
      && Dot(v, x) == a && Dot(v, y) == b
      && v[0] * v[0] + v[1] * v[1] + v[2] * v[2] == a * a + b * b
  {
    CombinationAlong(x, y, a, b);
    CombinationLength(x, y, a, b);
  }

  // The components along x and y, by linearity of the dot product.
  lemma CombinationAlong(x: Vec3, y: Vec3, a: real, b: real)
    requires Orthonormal(x, y)
    ensures var v := Add(Scale(x, a), Scale(y, b)); Dot(v, x) == a && Dot(v, y) == b
  {
    var v := Add(Scale(x, a), Scale(y, b));
    assert v == Blend(x, a, y, b);
    DotBlend(x, a, y, b, x);
    DotBlend(x, a, y, b, y);
    DotSymmetric(x, y);
  }

  // The squared length, expanded through the same linearity.
  lemma CombinationLength(x: Vec3, y: Vec3, a: real, b: real)
    requires Orthonormal(x, y)
    ensures var v := Add(Scale(x, a), Scale(y, b)); v[0] * v[0] + v[1] * v[1] + v[2] * v[2] == a * a + b * b
  {
    var v := Add(Scale(x, a), Scale(y, b));
    assert v == Blend(x, a, y, b);
    CombinationAlong(x, y, a, b);
    DotBlend(x, a, y, b, v);
    DotSymmetric(x, v);
    DotSymmetric(y, v);
    Dot3(v, v);
  }

  // ---------------------------------------------------------------------
  // What move() does to the rotation and to the translation

  /** The rotation after move(dx, dy) in the given mode. */
  function RotatedBy(lib: Libm, mode: Mode, rotation: Vec4, worldX: Vec3, worldY: Vec3, dx: real, dy: real): Vec4
  {
    match mode
    case Rotate =>
      if dx != 0.0 || dy != 0.0 then RotProduct(lib, rotation, LocalRotation(lib, worldX, worldY, dx, dy))
      else rotation
    case Roll => RotProduct(lib, rotation, [Pi * 2.0 * -dy, 0.0, 0.0, 1.0])
    case Scroll => rotation
    case Dolly => rotation
  }

  /** The translation after move(dx, dy) in the given mode, with the
      products grouped as the source writes them. */
  function TranslatedBy(mode: Mode, translation: Vec3, worldX: Vec3, worldY: Vec3, worldZ: Vec3,
                        referenceSize: real, motionScale: real, dx: real, dy: real): Vec3
  {
    match mode
    case Rotate => translation
    case Roll => translation
    case Scroll =>
      Add(Add(translation, Scale(Scale(Scale(worldX, dx), referenceSize), motionScale)),
          Scale(Scale(Scale(worldY, -dy), referenceSize), motionScale))
    case Dolly => Add(translation, Scale(Scale(Scale(worldZ, dy), referenceSize), motionScale))
  }

  // ---------------------------------------------------------------------
  // calc_view_matrix

  /** The view matrix: T(-center) S(scale) R(rotation) T(offset) with the
      library's product, so that a point is moved by -center first and by
      the offset last. */
  function ViewMatrix(lib: Libm, rotation: Vec4, offset: Vec3, center: Vec3, scale: Vec3): Mat4
  {
    Mul(Translation(-center[0], -center[1], -center[2]),
        Mul(Scaling(scale[0], scale[1], scale[2]),
            Mul(RotMatrix(lib, rotation), Translation(offset[0], offset[1], offset[2]))))
  }

  /** calc_view_matrix(rotation, offset, center, scale, out), the four
      assignments of the source in order. */
  method CalcViewMatrix(lib: Libm, rotation: Vec4, offset: Vec3, center: Vec3, scale: Vec3) returns (view: Mat4)
    ensures view == ViewMatrix(lib, rotation, offset, center, scale)
  {
    view := Translation(offset[0], offset[1], offset[2]);
    view := Mul(RotMatrix(lib, rotation), view);
    view := Mul(Scaling(scale[0], scale[1], scale[2]), view);
    view := Mul(Translation(-center[0], -center[1], -center[2]), view);
  }

  // ---------------------------------------------------------------------
  // set_frame

  /** The inverse set_frame computes: mat4f::invert with its default
      singular_fail, into a matrix other than the frame. Its result flag
      is ignored. */
  function FrameInverse(frame: Mat4): Mat4
  {
    InvertAsWritten(frame, false, true).result
  }

  /** Row i of m without its fourth entry. */
  function Row3(m: Mat4, i: int): (r: Vec3)
    requires 0 <= i < 4
    ensures forall j | 0 <= j < 3 :: r[j] == m[4 * i + j]
  {
    [m[4 * i], m[4 * i + 1], m[4 * i + 2]]
  }

  /** The camera distance the box constructor uses: the reference size
      divided by the cosine of the whole field of view. */
  function CameraDistanceAsWritten(lib: Libm, referenceSize: real, fov: real): real
  {
    FDiv(-referenceSize, lib.cos(fov))
  }

  /** The camera distance with half the field of view, as in the older
      revision: the box's reference size is the hypotenuse seen at half
      the field of view. */
  function CameraDistance(lib: Libm, referenceSize: real, fov: real): (z: real)
    ensures lib.cos(fov / 2.0) != 0.0 ==> -z * lib.cos(fov / 2.0) == referenceSize
  {
    FDiv(-referenceSize, lib.cos(fov / 2.0))
  }

  class Manipulator {
    const lib: Libm
    var mode: Mode
    var matrix: Mat4
    var frame: Mat4
    var worldX: Vec3
    var worldY: Vec3
    var worldZ: Vec3
    var referenceSize: real
    var motionScale: real
    var rotation: Vec4
    var translation: Vec3
    var scale: Vec3
    var center: Vec3

    /** The matrix is the view matrix of the current rotation, translation,
        centre and scale. */
    ghost predicate Valid()
      reads this
    {
      matrix == ViewMatrix(lib, rotation, translation, center, scale)
    }

    /** manipulator(): unit world axes, no offset, unit scale, the default
        reference size and the rot4f() rotation, in ROTATE mode. The frame
        is left uninitialised, as mat4f() leaves it. */
    constructor(lib: Libm)
      ensures this.lib == lib && Valid()
      ensures worldX == UnitX && worldY == UnitY && worldZ == UnitZ
      ensures center == Origin && scale == UnitScale
      ensures referenceSize == DefaultReferenceSize && motionScale == 1.0
      ensures translation == Origin && rotation == NoRotation && mode == Rotate
    {
      this.lib := lib;
      worldX := UnitX;
      worldY := UnitY;
      worldZ := UnitZ;
      center := Origin;
      scale := UnitScale;
      referenceSize := DefaultReferenceSize;
      motionScale := 1.0;
      translation := Origin;
      rotation := NoRotation;
      var view := CalcViewMatrix(lib, NoRotation, Origin, Origin, UnitScale);
      matrix := view;
      mode := Rotate;
    }

    /** manipulator(bounds, fov): as the default, but the reference size is
        the box's largest side and the camera is pulled back along z by it
        divided by cos(fov). */
    constructor FromBox(lib: Libm, bounds: Box, fov: real)
      ensures this.lib == lib && Valid()
      ensures worldX == UnitX && worldY == UnitY && worldZ == UnitZ
      ensures center == Origin && scale == UnitScale
      ensures referenceSize == bounds.LargestSide() && motionScale == 1.0
      ensures translation == [0.0, 0.0, CameraDistanceAsWritten(lib, bounds.LargestSide(), fov)]
      ensures rotation == NoRotation && mode == Rotate
    {
      this.lib := lib;
      worldX := UnitX;
      worldY := UnitY;
      worldZ := UnitZ;
      center := Origin;
      scale := UnitScale;
      var side := bounds.LargestSide();
      referenceSize := side;
      motionScale := 1.0;
      translation := [0.0, 0.0, FDiv(-side, lib.cos(fov))];
      rotation := NoRotation;
      var view := CalcViewMatrix(lib, NoRotation, [0.0, 0.0, FDiv(-side, lib.cos(fov))], Origin, UnitScale);
      matrix := view;
      mode := Rotate;
    }

    /** calculate_matrix(): only the matrix changes. */
    method CalculateMatrix()
      modifies this
      ensures Valid()
      ensures mode == old(mode) && frame == old(frame) && rotation == old(rotation)
      ensures translation == old(translation) && scale == old(scale) && center == old(center)
      ensures worldX == old(worldX) && worldY == old(worldY) && worldZ == old(worldZ)
      ensures referenceSize == old(referenceSize) && motionScale == old(motionScale)
    {
      matrix := CalcViewMatrix(lib, rotation, translation, center, scale);
    }

    /** set_frame(frame): the frame is stored and the world axes become the
        first three rows of its inverse. Nothing else changes. */
    method SetFrame(newFrame: Mat4)
      modifies this
      ensures frame == newFrame
      ensures worldX == Row3(FrameInverse(newFrame), 0)
      ensures worldY == Row3(FrameInverse(newFrame), 1)
      ensures worldZ == Row3(FrameInverse(newFrame), 2)
      ensures mode == old(mode) && matrix == old(matrix) && rotation == old(rotation)
      ensures translation == old(translation) && scale == old(scale) && center == old(center)
      ensures referenceSize == old(referenceSize) && motionScale == old(motionScale)
      ensures old(Valid()) ==> Valid()
    {
      frame := newFrame;
      var inverse := InverseOf(newFrame);
      SetAxes(inverse);
    }

    /** The world axes from the inverse frame: the images of the unit axes
        minus the image of the origin. */
    method SetAxes(inverse: Mat4)
      modifies this
      ensures worldX == Row3(inverse, 0) && worldY == Row3(inverse, 1) && worldZ == Row3(inverse, 2)
      ensures mode == old(mode) && matrix == old(matrix) && rotation == old(rotation) && frame == old(frame)
      ensures translation == old(translation) && scale == old(scale) && center == old(center)
      ensures referenceSize == old(referenceSize) && motionScale == old(motionScale)
    {
      var origin := PointTimes(Origin, inverse);
      worldX := Sub(PointTimes(UnitX, inverse), origin);
      worldY := Sub(PointTimes(UnitY, inverse), origin);
      worldZ := Sub(PointTimes(UnitZ, inverse), origin);
      AxesOfInverse(inverse);
    }

    /** move(dx, dy): the rotation and the translation change as the mode
        says, the matrix is rebuilt from them, and nothing else changes. */
    method Move(dx: real, dy: real)
      modifies this
      ensures rotation == RotatedBy(lib, old(mode), old(rotation), old(worldX), old(worldY), dx, dy)
      ensures translation == TranslatedBy(old(mode), old(translation), old(worldX), old(worldY), old(worldZ),
                                          old(referenceSize), old(motionScale), dx, dy)
      ensures Valid()
      ensures mode == old(mode) && frame == old(frame) && scale == old(scale) && center == old(center)
      ensures worldX == old(worldX) && worldY == old(worldY) && worldZ == old(worldZ)
      ensures referenceSize == old(referenceSize) && motionScale == old(motionScale)
    {
      rotation, translation := MoveStep(lib, mode, rotation, translation, worldX, worldY, worldZ,
                                        referenceSize, motionScale, dx, dy);
      CalculateMatrix();
    }
  }

  /** The switch of move(): the rotation and the translation after a drag
      of (dx, dy) in the given mode. */
  method MoveStep(lib: Libm, mode: Mode, rotation: Vec4, translation: Vec3, worldX: Vec3, worldY: Vec3, worldZ: Vec3,
                  referenceSize: real, motionScale: real, dx: real, dy: real)
    returns (newRotation: Vec4, newTranslation: Vec3)
    ensures newRotation == RotatedBy(lib, mode, rotation, worldX, worldY, dx, dy)
    ensures newTranslation == TranslatedBy(mode, translation, worldX, worldY, worldZ, referenceSize, motionScale, dx, dy)
  {
    newRotation, newTranslation := rotation, translation;
    match mode {
      case Rotate =>
        if dx != 0.0 || dy != 0.0 {
          newRotation := RotateStep(lib, rotation, worldX, worldY, dx, dy);
        }
      case Roll =>
        newRotation := RotTimes(lib, rotation, [Pi * 2.0 * -dy, 0.0, 0.0, 1.0]);
      case Scroll =>
        newTranslation := Add(Add(translation, Scale(Scale(Scale(worldX, dx), referenceSize), motionScale)),
                              Scale(Scale(Scale(worldY, -dy), referenceSize), motionScale));
      case Dolly =>
        newTranslation := Add(translation, Scale(Scale(Scale(worldZ, dy), referenceSize), motionScale));
    }
  }

  /** ROTATE with a drag that is not zero: the drag rotation, its axis
      carried into the frame, composed on the right of the current one. */
  method RotateStep(lib: Libm, rotation: Vec4, worldX: Vec3, worldY: Vec3, dx: real, dy: real)
    returns (newRotation: Vec4)
    ensures newRotation == RotProduct(lib, rotation, LocalRotation(lib, worldX, worldY, dx, dy))
  {
    var worldRotation := DragToRotation(lib, dx, dy);
    var localRotation := NoRotation[0 := worldRotation[0]];
    var axis := Add(Scale(worldX, worldRotation[1]), Scale(worldY, worldRotation[2]));
    localRotation := localRotation[1 := axis[0]][2 := axis[1]][3 := axis[2]];
    assert localRotation == LocalRotation(lib, worldX, worldY, dx, dy);
    newRotation := RotTimes(lib, rotation, localRotation);
  }

  // ---------------------------------------------------------------------
  // Properties

  /** `mat4f i; i.invert(frame);`: the inverse is computed into a fresh
      matrix from a copy of the frame, and the flag invert returns is
      dropped. */
  method InverseOf(frame: Mat4) returns (inverse: Mat4)
    ensures inverse == FrameInverse(frame)
  {
    var source := new real[16](k => if 0 <= k < 16 then frame[k] else 0.0);
    var i := new real[16];
    assert source[..] == frame;
    var _ := Invert(i, source, true);
    inverse := i[..];
  }

  /** The world axes set_frame computes are the rows of the inverse: the
      image of a unit axis minus the image of the origin. */
  lemma AxesOfInverse(m: Mat4)
    ensures Sub(PointTimes(UnitX, m), PointTimes(Origin, m)) == Row3(m, 0)
    ensures Sub(PointTimes(UnitY, m), PointTimes(Origin, m)) == Row3(m, 1)
    ensures Sub(PointTimes(UnitZ, m), PointTimes(Origin, m)) == Row3(m, 2)
  {
    var o := PointTimes(Origin, m);
    assert o == [m[12], m[13], m[14]];
    var x := Sub(PointTimes(UnitX, m), o);
    assert x[0] == m[0] && x[1] == m[1] && x[2] == m[2];
    var y := Sub(PointTimes(UnitY, m), o);
    assert y[0] == m[4] && y[1] == m[5] && y[2] == m[6];
    var z := Sub(PointTimes(UnitZ, m), o);
    assert z[0] == m[8] && z[1] == m[9] && z[2] == m[10];
  }

  /** Because the result of invert is ignored, a frame whose determinant is
      below EPSILON gives the unit world axes. */
  lemma SingularFrameUnitAxes(frame: Mat4)
    requires Abs(Determinant(frame)) < Epsilon
    ensures Row3(FrameInverse(frame), 0) == UnitX
    ensures Row3(FrameInverse(frame), 1) == UnitY
    ensures Row3(FrameInverse(frame), 2) == UnitZ
  {
    SingularFrameIdentity(frame);
    IdentityRows();
  }

  /** The ignored result of invert leaves the identity behind. */
  lemma SingularFrameIdentity(frame: Mat4)
    requires Abs(Determinant(frame)) < Epsilon
    ensures FrameInverse(frame) == Identity
  {
    SingularLeavesIdentity(frame);
  }

  /** The rows of the identity are the unit axes. */
  lemma IdentityRows()
    ensures Row3(Identity, 0) == UnitX && Row3(Identity, 1) == UnitY && Row3(Identity, 2) == UnitZ
  {
  }

  /** With a lawful libm and a drag that is not zero, the drag length is
      the Euclidean length of (dx, dy) and the drag axis is a unit vector. */
  lemma DragUnitAxis(lib: Libm, dx: real, dy: real)
    requires Lawful(lib) && (dx != 0.0 || dy != 0.0)
    ensures var d := DragDistance(lib, dx, dy); d > 0.0 && d * d == dx * dx + dy * dy
    ensures var r := DragToRotation(lib, dx, dy); r[1] * r[1] + r[2] * r[2] == 1.0
  {
    DragPositive(lib, dx, dy);
    DragSquare(lib, dx, dy);
    var d := DragDistance(lib, dx, dy);
    var r := DragToRotation(lib, dx, dy);
    UnitQuotients(r[1], r[2], d, dy, dx);
  }

  /** A drag that is not zero has a positive length. */
  lemma DragPositive(lib: Libm, dx: real, dy: real)
    requires Lawful(lib) && (dx != 0.0 || dy != 0.0)
    ensures DragDistance(lib, dx, dy) > 0.0
  {
    ScaledSquaresPositive(dx, dy);
  }

  /** The scaling by 10000 under the root and the division after it cancel:
      the drag length squared is dx^2 + dy^2. */
  lemma DragSquare(lib: Libm, dx: real, dy: real)
    requires Lawful(lib)
    ensures DragDistance(lib, dx, dy) * DragDistance(lib, dx, dy) == dx * dx + dy * dy
  {
    var x := dx * 10000.0 * dx * 10000.0 + dy * 10000.0 * dy * 10000.0;
    ScaledSquaresNonNegative(dx, dy);
    var r := lib.sqrt(x);
    assert r * r == x;
    RootScale(r, x, DragDistance(lib, dx, dy), dx * dx + dy * dy);
    assert x == 100000000.0 * (dx * dx + dy * dy);
  }

  /** The scaled sum of squares of a drag that is not zero is positive. */
  lemma ScaledSquaresPositive(dx: real, dy: real)
    requires dx != 0.0 || dy != 0.0
    ensures dx * 10000.0 * dx * 10000.0 + dy * 10000.0 * dy * 10000.0 > 0.0
  {
    if dx != 0.0 {
      assert dx * 10000.0 * dx * 10000.0 > 0.0;
      assert dy * 10000.0 * dy * 10000.0 >= 0.0;
    } else {
      assert dy * 10000.0 * dy * 10000.0 > 0.0;
    }
  }

  /** The scaled sum of squares is never negative. */
  lemma ScaledSquaresNonNegative(dx: real, dy: real)
    ensures dx * 10000.0 * dx * 10000.0 + dy * 10000.0 * dy * 10000.0 >= 0.0
  {
    assert dx * 10000.0 * dx * 10000.0 >= 0.0;
    assert dy * 10000.0 * dy * 10000.0 >= 0.0;
  }

  /** Dividing a root of 10^8 s by 10^4 gives a root of s. */
  lemma RootScale(r: real, x: real, d: real, s: real)
    requires r * r == x && d == r / 10000.0 && x == 100000000.0 * s
    ensures d * d == s
  {
    assert d * d == (r * r) / 100000000.0;
  }

  /** (p, q) is a unit vector when p d = a, q d = b and d * d = a * a + b * b > 0. */
  lemma UnitQuotients(p: real, q: real, d: real, b: real, a: real)
    requires p * d == b && q * d == a && d * d == a * a + b * b && d > 0.0
    ensures p * p + q * q == 1.0
  {
    var w := 1.0 / d;
    assert d * w == 1.0;
    assert p == p * (d * w) == (p * d) * w == b * w;
    assert q == q * (d * w) == (q * d) * w == a * w;
    assert p * p + q * q == (b * b + a * a) * (w * w);
    assert (b * b + a * a) * (w * w) == (d * w) * (d * w);
  }

  /** In ROTATE mode with the unit world axes, the local rotation turns
      about (dy, dx, 0) over the drag length, a unit axis. */
  lemma RotateWithUnitAxes(lib: Libm, dx: real, dy: real)
    requires Lawful(lib) && (dx != 0.0 || dy != 0.0)
    ensures var r := LocalRotation(lib, UnitX, UnitY, dx, dy);
      var d := DragDistance(lib, dx, dy);
      && r[0] == Pi * d
      && r[1] * d == dy && r[2] * d == dx && r[3] == 0.0
      && r[1] * r[1] + r[2] * r[2] + r[3] * r[3] == 1.0
  {
    DragUnitAxis(lib, dx, dy);
    var w := DragToRotation(lib, dx, dy);
    var r := LocalRotation(lib, UnitX, UnitY, dx, dy);
    var axis := Add(Scale(UnitX, w[1]), Scale(UnitY, w[2]));
    assert axis[0] == w[1] && axis[1] == w[2] && axis[2] == 0.0;
    assert r[1..] == axis;
    assert r[1] == axis[0] && r[2] == axis[1] && r[3] == axis[2];
  }

  /** A zero drag in ROTATE mode, and any drag in SCROLL or DOLLY mode,
      leaves the rotation as it is. */
  lemma RotationUntouched(lib: Libm, mode: Mode, rotation: Vec4, worldX: Vec3, worldY: Vec3, dx: real, dy: real)
    requires (mode == Rotate && dx == 0.0 && dy == 0.0) || mode == Scroll || mode == Dolly
    ensures RotatedBy(lib, mode, rotation, worldX, worldY, dx, dy) == rotation
  {
  }

  /** In SCROLL mode the translation moves by (worldX dx - worldY dy) times
      the reference size and the motion scale. */
  lemma ScrollDelta(translation: Vec3, worldX: Vec3, worldY: Vec3, worldZ: Vec3,
                    referenceSize: real, motionScale: real, dx: real, dy: real)
    ensures var t := TranslatedBy(Scroll, translation, worldX, worldY, worldZ, referenceSize, motionScale, dx, dy);
      forall i | 0 <= i < 3 ::
        t[i] == translation[i] + (worldX[i] * dx - worldY[i] * dy) * (referenceSize * motionScale)
  {
    var t := TranslatedBy(Scroll, translation, worldX, worldY, worldZ, referenceSize, motionScale, dx, dy);
    forall i | 0 <= i < 3
      ensures t[i] == translation[i] + (worldX[i] * dx - worldY[i] * dy) * (referenceSize * motionScale)
    {
      ScrollStep(translation[i], worldX[i], worldY[i], referenceSize, motionScale, dx, dy);
    }
  }

  /** One component of ScrollDelta. */
  lemma ScrollStep(t: real, x: real, y: real, r: real, m: real, dx: real, dy: real)
    ensures t + x * dx * r * m + y * -dy * r * m == t + (x * dx - y * dy) * (r * m)
  {
  }

  /** In DOLLY mode the translation moves by worldZ dy times the reference
      size and the motion scale; dx plays no part. */
  lemma DollyDelta(translation: Vec3, worldX: Vec3, worldY: Vec3, worldZ: Vec3,
                   referenceSize: real, motionScale: real, dx: real, dy: real, dx2: real)
    ensures var t := TranslatedBy(Dolly, translation, worldX, worldY, worldZ, referenceSize, motionScale, dx, dy);
      forall i | 0 <= i < 3 :: t[i] == translation[i] + worldZ[i] * dy * referenceSize * motionScale
    ensures TranslatedBy(Dolly, translation, worldX, worldY, worldZ, referenceSize, motionScale, dx, dy)
         == TranslatedBy(Dolly, translation, worldX, worldY, worldZ, referenceSize, motionScale, dx2, dy)
  {
  }

  /** In ROLL mode the rotation is composed with a turn of -2 pi dy about
      z; dx plays no part, and the translation is left as it is. */
  lemma RollIgnoresDx(lib: Libm, rotation: Vec4, worldX: Vec3, worldY: Vec3, worldZ: Vec3, translation: Vec3,
                      referenceSize: real, motionScale: real, dx: real, dy: real, dx2: real)
    ensures RotatedBy(lib, Roll, rotation, worldX, worldY, dx, dy) == RotatedBy(lib, Roll, rotation, worldX, worldY, dx2, dy)
    ensures TranslatedBy(Roll, translation, worldX, worldY, worldZ, referenceSize, motionScale, dx, dy) == translation
  {
  }

  /** The SCROLL example: reference size 10, motion scale 1, unit axes and
      a drag of (0.1, 0) moves the translation by 1 along x only. */
  lemma ScrollExample(translation: Vec3)
    ensures TranslatedBy(Scroll, translation, UnitX, UnitY, UnitZ, 10.0, 1.0, 0.1, 0.0)
         == [translation[0] + 1.0, translation[1], translation[2]]
  {
    ScrollDelta(translation, UnitX, UnitY, UnitZ, 10.0, 1.0, 0.1, 0.0);
  }

  /** The view matrix maps a point by moving it by -center, scaling it,
      rotating it and finally adding the offset. */
  lemma ViewMatrixMapsPoint(lib: Libm, rotation: Vec4, offset: Vec3, center: Vec3, scale: Vec3, p: Vec3)
    ensures PointTimes(p, ViewMatrix(lib, rotation, offset, center, scale))
         == Add(PointTimes(MulComponents(Sub(p, center), scale), RotMatrix(lib, rotation)), offset)
  {
    var t0 := Translation(-center[0], -center[1], -center[2]);
    var s := Scaling(scale[0], scale[1], scale[2]);
    var r := RotMatrix(lib, rotation);
    var t1 := Translation(offset[0], offset[1], offset[2]);
    TranslationAffine(-center[0], -center[1], -center[2]);
    ScalingAffine(scale[0], scale[1], scale[2]);
    assert Affine(r);
    PointThroughFour(p, t0, s, r, t1);
    MoveByNegation(p, center);
    ScaleBy(Sub(p, center), scale);
    var q := PointTimes(MulComponents(Sub(p, center), scale), r);
    MoveBy(q, offset);
  }

  /** A point carried through a product of four matrices, the first three
      affine, is carried through each in turn. */
  lemma PointThroughFour(p: Vec3, a: Mat4, b: Mat4, c: Mat4, d: Mat4)
    requires Affine(a) && Affine(b) && Affine(c)
    ensures PointTimes(p, Mul(a, Mul(b, Mul(c, d))))
         == PointTimes(PointTimes(PointTimes(PointTimes(p, a), b), c), d)
  {
    PointTimesMul(p, a, Mul(b, Mul(c, d)));
    PointTimesMul(PointTimes(p, a), b, Mul(c, d));
    PointTimesMul(PointTimes(PointTimes(p, a), b), c, d);
  }

  /** The translation by -center subtracts the center. */
  lemma MoveByNegation(p: Vec3, center: Vec3)
    ensures PointTimes(p, Translation(-center[0], -center[1], -center[2])) == Sub(p, center)
  {
    PointTranslation(p, -center[0], -center[1], -center[2]);
  }

  /** The scaling by scale multiplies componentwise. */
  lemma ScaleBy(p: Vec3, scale: Vec3)
    ensures PointTimes(p, Scaling(scale[0], scale[1], scale[2])) == MulComponents(p, scale)
  {
    PointScale(p, scale[0], scale[1], scale[2]);
    assert [scale[0], scale[1], scale[2]] == scale;
  }

  /** The translation by offset adds the offset. */
  lemma MoveBy(p: Vec3, offset: Vec3)
    ensures PointTimes(p, Translation(offset[0], offset[1], offset[2])) == Add(p, offset)
  {
    PointTranslation(p, offset[0], offset[1], offset[2]);
    assert [offset[0], offset[1], offset[2]] == offset;
  }

  /** A translation maps points to points. */
  lemma TranslationAffine(x: real, y: real, z: real)
    ensures Affine(Translation(x, y, z))
  {
    var m := Translation(x, y, z);
    assert m[3] == Identity[3] && m[7] == Identity[7] && m[11] == Identity[11];
  }

  /** A scaling maps points to points. */
  lemma ScalingAffine(x: real, y: real, z: real)
    ensures Affine(Scaling(x, y, z))
  {
    var m := Scaling(x, y, z);
    assert m[3] == Identity[3] && m[7] == Identity[7] && m[11] == Identity[11] && m[15] == Identity[15];
  }

  /** The default manipulator's matrix is the identity when cos 0 = 1 and
      sin 0 = 0. */
  lemma DefaultMatrixIdentity(lib: Libm)
    requires Lawful(lib)
    ensures ViewMatrix(lib, NoRotation, Origin, Origin, UnitScale) == Identity
  {
    RotationZeroAngle(lib, 1.0, 0.0, 0.0);
    assert RotMatrix(lib, NoRotation) == Identity;
    ZeroTranslation();
    UnitScaling();
    IdentityView(lib, NoRotation, Origin, Origin, UnitScale);
  }

  /** When each of the four factors is the identity, so is the view matrix. */
  lemma IdentityView(lib: Libm, rotation: Vec4, offset: Vec3, center: Vec3, scale: Vec3)
    requires RotMatrix(lib, rotation) == Identity
    requires Translation(offset[0], offset[1], offset[2]) == Identity
    requires Translation(-center[0], -center[1], -center[2]) == Identity
    requires Scaling(scale[0], scale[1], scale[2]) == Identity
    ensures ViewMatrix(lib, rotation, offset, center, scale) == Identity
  {
    MulIdentity(Identity);
  }

  /** Translating by the origin, or by its negation, is the identity. */
  lemma ZeroTranslation()
    ensures Translation(Origin[0], Origin[1], Origin[2]) == Identity
    ensures Translation(-Origin[0], -Origin[1], -Origin[2]) == Identity
  {
    assert Translation(0.0, 0.0, 0.0) == Identity;
  }

  /** Scaling by ones is the identity. */
  lemma UnitScaling()
    ensures Scaling(UnitScale[0], UnitScale[1], UnitScale[2]) == Identity
  {
    assert Scaling(1.0, 1.0, 1.0) == Identity;
  }

  /** The box constructor as written: with a right-angle field of view,
      where cos(pi/2) = 0, the camera distance is a division by zero (0
      here, -infinity in floating point), while the half-angle distance is
      the expected -side / cos(pi/4). */
  lemma RightAngleFieldOfView(lib: Libm, side: real)
    requires lib.cos(Pi / 2.0) == 0.0 && lib.cos(Pi / 4.0) > 0.0 && side > 0.0
    ensures CameraDistanceAsWritten(lib, side, Pi / 2.0) == 0.0
    ensures CameraDistance(lib, side, Pi / 2.0) < 0.0
    ensures -CameraDistance(lib, side, Pi / 2.0) * lib.cos(Pi / 4.0) == side
  {
    assert Pi / 2.0 / 2.0 == Pi / 4.0;
  }
}
