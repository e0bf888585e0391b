/** The older, C-style transform of spin.cpp: the box helpers over a pair of
    vec3f corners, and the Transform record driven by the xform* functions.
    It is the same manipulator as the library's, with three differences in
    the code: the view matrix multiplies its factors in the opposite order,
    SCROLL moves along +worldY for a positive dy, and the initialisers assign
    worldX three times. */
module SpinTransform {
  import opened MathLib
  import opened Vectors
  import opened Matrices
  import opened Rotations
  import opened Geometry
  import opened Manipulators

  // ---------------------------------------------------------------------
  // box_set_empty and box_extend on two vec3f passed by reference

  /** box_set_empty(boxmin, boxmax) */
  method BoxSetEmpty(boxmin: array<real>, boxmax: array<real>)
    requires boxmin.Length == 3 && boxmax.Length == 3 && boxmin != boxmax
    modifies boxmin, boxmax
    ensures boxmin[..] == EmptyMin && boxmax[..] == EmptyMax
  {
    boxmin[0], boxmin[1], boxmin[2] := FltMax, FltMax, FltMax;
    boxmax[0], boxmax[1], boxmax[2] := -FltMax, -FltMax, -FltMax;
  }

  /** box_extend(boxmin, boxmax, x, y, z): each corner takes in the point,
      one component at a time. */
  method BoxExtend(boxmin: array<real>, boxmax: array<real>, x: real, y: real, z: real)
    requires boxmin.Length == 3 && boxmax.Length == 3 && boxmin != boxmax
    modifies boxmin, boxmax
    ensures boxmin[..] == MinCorner(old(boxmin[..]), [x, y, z])
    ensures boxmax[..] == MaxCorner(old(boxmax[..]), [x, y, z])
  {
    boxmin[0] := Min(boxmin[0], x);
    boxmin[1] := Min(boxmin[1], y);
    boxmin[2] := Min(boxmin[2], z);
    boxmax[0] := Max(boxmax[0], x);
    boxmax[1] := Max(boxmax[1], y);
    boxmax[2] := Max(boxmax[2], z);
  }

  /** box_extend(boxmin, boxmax, x, y, z, r): the corners take in the cube
      of half-side r around the point. */
  method BoxExtendRadius(boxmin: array<real>, boxmax: array<real>, x: real, y: real, z: real, r: real)
    requires boxmin.Length == 3 && boxmax.Length == 3 && boxmin != boxmax
    modifies boxmin, boxmax
    ensures boxmin[..] == MinCorner(old(boxmin[..]), Offset([x, y, z], -r))
    ensures boxmax[..] == MaxCorner(old(boxmax[..]), Offset([x, y, z], r))
  {
    boxmin[0] := Min(boxmin[0], x - r);
    boxmin[1] := Min(boxmin[1], y - r);
    boxmin[2] := Min(boxmin[2], z - r);
    boxmax[0] := Max(boxmax[0], x + r);
    boxmax[1] := Max(boxmax[1], y + r);
    boxmax[2] := Max(boxmax[2], z + r);
  }

  /** After box_set_empty and one box_extend by a finite point, the corners
      are that point: the box holds it and nothing else. */
  method EmptyThenExtend(boxmin: array<real>, boxmax: array<real>, p: Vec3)
    requires boxmin.Length == 3 && boxmax.Length == 3 && boxmin != boxmax
    requires InFloatRange(p)
    modifies boxmin, boxmax
    ensures boxmin[..] == p && boxmax[..] == p
  {
    BoxSetEmpty(boxmin, boxmax);
    BoxExtend(boxmin, boxmax, p[0], p[1], p[2]);
    assert [p[0], p[1], p[2]] == p;
    ExtendEmpty(p);
  }

  // ---------------------------------------------------------------------
  // calcViewMatrix

  /** The view matrix of spin.cpp: T(offset) R(rotation) S(scale)
      T(-center), multiplied from the left, so that a point is moved by the
      offset first and by -center last. */
  function SpinViewMatrix(lib: Libm, rotation: Vec4, offset: Vec3, center: Vec3, scale: Vec3): Mat4
  {
    Mul(Mul(Mul(Translation(offset[0], offset[1], offset[2]), RotMatrix(lib, rotation)),
            Scaling(scale[0], scale[1], scale[2])),
        Translation(-center[0], -center[1], -center[2]))
  }

  /** calcViewMatrix(rotation, offset, center, scale, out): the identity,
      overwritten by the translation, then three products on the right. The
      printf calls are not modelled. */
  method SpinCalcViewMatrix(lib: Libm, rotation: Vec4, offset: Vec3, center: Vec3, scale: Vec3)
    returns (view: Mat4)
    ensures view == SpinViewMatrix(lib, rotation, offset, center, scale)
  {
    view := Identity;
    view := Translation(offset[0], offset[1], offset[2]);
    view := Mul(view, RotMatrix(lib, rotation));
    view := Mul(view, Scaling(scale[0], scale[1], scale[2]));
    view := Mul(view, Translation(-center[0], -center[1], -center[2]));
  }

  // ---------------------------------------------------------------------
  // xformMotion

  /** The translation after xformMotion(dx, dy): as the library's move(),
      except that SCROLL adds worldY dy where the library subtracts it. */
  function SpinTranslatedBy(mode: Mode, translation: Vec3, worldX: Vec3, worldY: Vec3, worldZ: Vec3,
                            referenceSize: real, motionScale: real, dx: real, dy: real): Vec3
  {
    match mode
    case Rotate => translation
    case Roll => translation
    case Scroll =>
      Add(Add(translation, Scale(Scale(Scale(worldX, dx), referenceSize), motionScale)),
          Scale(Scale(Scale(worldY, dy), referenceSize), motionScale))
    case Dolly => Add(translation, Scale(Scale(Scale(worldZ, dy), referenceSize), motionScale))
  }

  /** The switch of xformMotion. */
  method MotionStep(lib: Libm, mode: Mode, rotation: Vec4, translation: Vec3, worldX: Vec3, worldY: Vec3, worldZ: Vec3,
                    referenceSize: real, motionScale: real, dx: real, dy: real)
    returns (newRotation: Vec4, newTranslation: Vec3)
    ensures newRotation == RotatedBy(lib, mode, rotation, worldX, worldY, dx, dy)
    ensures newTranslation == SpinTranslatedBy(mode, translation, worldX, worldY, worldZ, referenceSize, motionScale, dx, dy)
  {
    newRotation, newTranslation := rotation, translation;
    match mode {
      case Rotate =>
        if dx != 0.0 || dy != 0.0 {
          newRotation := RotateStep(lib, rotation, worldX, worldY, dx, dy);
        }
      case Roll =>
        newRotation := RotTimes(lib, rotation, [Pi * 2.0 * -dy, 0.0, 0.0, 1.0]);
      case Scroll =>
        newTranslation := Add(Add(translation, Scale(Scale(Scale(worldX, dx), referenceSize), motionScale)),
                              Scale(Scale(Scale(worldY, dy), referenceSize), motionScale));
      case Dolly =>
        newTranslation := Add(translation, Scale(Scale(Scale(worldZ, dy), referenceSize), motionScale));
    }
  }

  /** The largest extent of the box, by the if-chain of
      xformInitializeViewFromBox. */
  method ReferenceSizeOf(boxmin: Vec3, boxmax: Vec3) returns (size: real)
    ensures size == LargestExtent(boxmin, boxmax)
    ensures forall i | 0 <= i < 3 :: size >= boxmax[i] - boxmin[i]
  {
    if boxmax[0] - boxmin[0] > boxmax[1] - boxmin[1] && boxmax[0] - boxmin[0] > boxmax[2] - boxmin[2] {
      size := boxmax[0] - boxmin[0];
    } else if boxmax[1] - boxmin[1] > boxmax[2] - boxmin[2] {
      size := boxmax[1] - boxmin[1];
    } else {
      size := boxmax[2] - boxmin[2];
    }
  }

  /** The Transform record. Callers allocate it and then call one of the
      initialisers; until then every field holds whatever it held. */
  class Transform {
    const lib: Libm
    var mode: Mode
    var matrix: Mat4
    var frame: Mat4
    var worldX: Vec3
    var worldY: Vec3
    var worldZ: Vec3
    var referenceSize: real
    var motionScale: real
    var rotation: Vec4
    var translation: Vec3
    var scale: Vec3
    var center: Vec3

    /** The matrix is spin's view matrix of the current rotation,
        translation, centre and scale. */
    ghost predicate Valid()
      reads this
    {
      matrix == SpinViewMatrix(lib, rotation, translation, center, scale)
    }

    /** A Transform as allocated: no field is set. */
    constructor(lib: Libm)
      ensures this.lib == lib
    {
      this.lib := lib;
    }

    /** xformCalcMatrix(xform): only the matrix changes. */
    method CalcMatrix()
      modifies this
      ensures Valid()
      ensures mode == old(mode) && frame == old(frame) && rotation == old(rotation)
      ensures translation == old(translation) && scale == old(scale) && center == old(center)
      ensures worldX == old(worldX) && worldY == old(worldY) && worldZ == old(worldZ)
      ensures referenceSize == old(referenceSize) && motionScale == old(motionScale)
    {
      matrix := SpinCalcViewMatrix(lib, rotation, translation, center, scale);
    }

    /** xformSetFrame(xform, frame): as the library's set_frame, the world
        axes become the first three rows of the frame's inverse. */
    method SetFrame(newFrame: Mat4)
      modifies this
      ensures frame == newFrame
      ensures worldX == Row3(FrameInverse(newFrame), 0)
      ensures worldY == Row3(FrameInverse(newFrame), 1)
      ensures worldZ == Row3(FrameInverse(newFrame), 2)
      ensures mode == old(mode) && matrix == old(matrix) && rotation == old(rotation)
      ensures translation == old(translation) && scale == old(scale) && center == old(center)
      ensures referenceSize == old(referenceSize) && motionScale == old(motionScale)
      ensures old(Valid()) ==> Valid()
    {
      frame := newFrame;
      var inverse := InverseOf(newFrame);
      SetAxes(inverse);
    }

    /** The world axes from the inverse frame: the images of the unit axes
        minus the image of the origin. */
    method SetAxes(inverse: Mat4)
      modifies this
      ensures worldX == Row3(inverse, 0) && worldY == Row3(inverse, 1) && worldZ == Row3(inverse, 2)
      ensures mode == old(mode) && matrix == old(matrix) && rotation == old(rotation) && frame == old(frame)
      ensures translation == old(translation) && scale == old(scale) && center == old(center)
      ensures referenceSize == old(referenceSize) && motionScale == old(motionScale)
    {
      var origin := PointTimes(Origin, inverse);
      worldX := Sub(PointTimes(UnitX, inverse), origin);
      worldY := Sub(PointTimes(UnitY, inverse), origin);
      worldZ := Sub(PointTimes(UnitZ, inverse), origin);
      AxesOfInverse(inverse);
    }

    /** xformMotion(xform, dx, dy): the rotation and the translation change
        as the mode says, the matrix is rebuilt, and nothing else changes. */
    method Motion(dx: real, dy: real)
      modifies this
      ensures rotation == RotatedBy(lib, old(mode), old(rotation), old(worldX), old(worldY), dx, dy)
      ensures translation == SpinTranslatedBy(old(mode), old(translation), old(worldX), old(worldY), old(worldZ),
                                              old(referenceSize), old(motionScale), dx, dy)
      ensures Valid()
      ensures mode == old(mode) && frame == old(frame) && scale == old(scale) && center == old(center)
      ensures worldX == old(worldX) && worldY == old(worldY) && worldZ == old(worldZ)
      ensures referenceSize == old(referenceSize) && motionScale == old(motionScale)
    {
      rotation, translation := MotionStep(lib, mode, rotation, translation, worldX, worldY, worldZ,
                                          referenceSize, motionScale, dx, dy);
      CalcMatrix();
    }

    /** The assignments every initialiser shares: no centre offset, unit
        scale, the given reference size and camera offset, the rot4f()
        rotation, ROTATE mode and the matrix rebuilt from them. */
    method ResetView(size: real, offset: Vec3)
      modifies this
      ensures center == Origin && scale == UnitScale
      ensures referenceSize == size && motionScale == 1.0
      ensures translation == offset && rotation == NoRotation && mode == Rotate
      ensures worldX == old(worldX) && worldY == old(worldY) && worldZ == old(worldZ)
      ensures frame == old(frame) && Valid()
    {
      center := Origin;
      scale := UnitScale;
      referenceSize := size;
      motionScale := 1.0;
      translation := offset;
      rotation := NoRotation;
      mode := Rotate;
      CalcMatrix();
    }

    /** xformInitialize(xform) as written: worldX is assigned the three unit
        axes in turn and ends as the z axis, while worldY and worldZ keep
        whatever they held. The rest is the library's default state. */
    method Initialize()
      modifies this
      ensures worldX == UnitZ && worldY == old(worldY) && worldZ == old(worldZ)
      ensures center == Origin && scale == UnitScale
      ensures referenceSize == DefaultReferenceSize && motionScale == 1.0
      ensures translation == Origin && rotation == NoRotation && mode == Rotate
      ensures frame == old(frame) && Valid()
    {
      worldX := UnitX;
      worldX := UnitY;
      worldX := UnitZ;
      ResetView(DefaultReferenceSize, Origin);
    }

    /** xformInitialize with the unit world axes it evidently means to set. */
    method InitializeCorrected()
      modifies this
      ensures worldX == UnitX && worldY == UnitY && worldZ == UnitZ
      ensures center == Origin && scale == UnitScale
      ensures referenceSize == DefaultReferenceSize && motionScale == 1.0
      ensures translation == Origin && rotation == NoRotation && mode == Rotate
      ensures frame == old(frame) && Valid()
    {
      worldX := UnitX;
      worldY := UnitY;
      worldZ := UnitZ;
      ResetView(DefaultReferenceSize, Origin);
    }

    /** xformInitializeViewFromBox(xform, boxmin, boxmax, fov) as written:
        the same three assignments to worldX; the reference size is the
        box's largest extent and the camera is pulled back along z by it
        divided by cos(fov / 2). */
    method InitializeViewFromBox(boxmin: Vec3, boxmax: Vec3, fov: real)
      modifies this
      ensures worldX == UnitZ && worldY == old(worldY) && worldZ == old(worldZ)
      ensures center == Origin && scale == UnitScale
      ensures referenceSize == LargestExtent(boxmin, boxmax) && motionScale == 1.0
      ensures translation == [0.0, 0.0, CameraDistance(lib, LargestExtent(boxmin, boxmax), fov)]
      ensures rotation == NoRotation && mode == Rotate
      ensures frame == old(frame) && Valid()
    {
      worldX := UnitX;
      worldX := UnitY;
      worldX := UnitZ;
      var size := ReferenceSizeOf(boxmin, boxmax);
      ResetView(size, [0.0, 0.0, FDiv(-size, lib.cos(fov / 2.0))]);
    }

    /** xformInitializeViewFromBox with the unit world axes. */
    method InitializeViewFromBoxCorrected(boxmin: Vec3, boxmax: Vec3, fov: real)
      modifies this
      ensures worldX == UnitX && worldY == UnitY && worldZ == UnitZ
      ensures center == Origin && scale == UnitScale
      ensures referenceSize == LargestExtent(boxmin, boxmax) && motionScale == 1.0
      ensures translation == [0.0, 0.0, CameraDistance(lib, LargestExtent(boxmin, boxmax), fov)]
      ensures rotation == NoRotation && mode == Rotate
      ensures frame == old(frame) && Valid()
    {
      worldX := UnitX;
      worldY := UnitY;
      worldZ := UnitZ;
      var size := ReferenceSizeOf(boxmin, boxmax);
      ResetView(size, [0.0, 0.0, FDiv(-size, lib.cos(fov / 2.0))]);
    }
  }

  // ---------------------------------------------------------------------
  // Properties

  /** SCROLL in spin moves the translation by (worldX dx + worldY dy) times
      the reference size and the motion scale. */
  lemma SpinScrollDelta(translation: Vec3, worldX: Vec3, worldY: Vec3, worldZ: Vec3,
                        referenceSize: real, motionScale: real, dx: real, dy: real)
    ensures var t := SpinTranslatedBy(Scroll, translation, worldX, worldY, worldZ, referenceSize, motionScale, dx, dy);
      forall i | 0 <= i < 3 ::
        t[i] == translation[i] + (worldX[i] * dx + worldY[i] * dy) * (referenceSize * motionScale)
  {
    var t := SpinTranslatedBy(Scroll, translation, worldX, worldY, worldZ, referenceSize, motionScale, dx, dy);
    forall i | 0 <= i < 3
      ensures t[i] == translation[i] + (worldX[i] * dx + worldY[i] * dy) * (referenceSize * motionScale)
    {
      SpinScrollStep(translation[i], worldX[i], worldY[i], referenceSize, motionScale, dx, dy);
    }
  }

  /** One component of SpinScrollDelta. */
  lemma SpinScrollStep(t: real, x: real, y: real, r: real, m: real, dx: real, dy: real)
    ensures t + x * dx * r * m + y * dy * r * m == t + (x * dx + y * dy) * (r * m)
  {
  }

  /** The two SCROLLs differ only in the sign of dy: spin's scroll by
      (dx, dy) is the library's scroll by (dx, -dy). Every other mode moves
      the translation in the same way. */
  lemma ScrollSignFlipped(mode: Mode, translation: Vec3, worldX: Vec3, worldY: Vec3, worldZ: Vec3,
                          referenceSize: real, motionScale: real, dx: real, dy: real)
    ensures SpinTranslatedBy(Scroll, translation, worldX, worldY, worldZ, referenceSize, motionScale, dx, dy)
         == TranslatedBy(Scroll, translation, worldX, worldY, worldZ, referenceSize, motionScale, dx, -dy)
    ensures mode != Scroll ==>
      SpinTranslatedBy(mode, translation, worldX, worldY, worldZ, referenceSize, motionScale, dx, dy)
      == TranslatedBy(mode, translation, worldX, worldY, worldZ, referenceSize, motionScale, dx, dy)
  {
    assert --dy == dy;
  }

  /** The product of two matrices that map points to points maps points to
      points. */
  lemma MulAffine(a: Mat4, b: Mat4)
    requires Affine(a) && Affine(b)
    ensures Affine(Mul(a, b))
  {
    var m := Mul(a, b);
    assert m[3] == RowCol(a, b, 0, 3);
    assert m[7] == RowCol(a, b, 1, 3);
    assert m[11] == RowCol(a, b, 2, 3);
    assert m[15] == RowCol(a, b, 3, 3);
  }

  /** A point carried through a left-nested product of four matrices, the
      first three affine, is carried through each in turn. */
  lemma PointThroughNested(p: Vec3, a: Mat4, b: Mat4, c: Mat4, d: Mat4)
    requires Affine(a) && Affine(b) && Affine(c)
    ensures PointTimes(p, Mul(Mul(Mul(a, b), c), d))
         == PointTimes(PointTimes(PointTimes(PointTimes(p, a), b), c), d)
  {
    MulAffine(a, b);
    MulAffine(Mul(a, b), c);
    PointTimesMul(p, Mul(Mul(a, b), c), d);
    PointTimesMul(p, Mul(a, b), c);
    PointTimesMul(p, a, b);
  }

  /** spin's view matrix moves a point by the offset, rotates it, scales it
      and subtracts the centre last: the reverse of the library's order. */
  lemma SpinViewMatrixMapsPoint(lib: Libm, rotation: Vec4, offset: Vec3, center: Vec3, scale: Vec3, p: Vec3)
    ensures PointTimes(p, SpinViewMatrix(lib, rotation, offset, center, scale))
         == Sub(MulComponents(PointTimes(Add(p, offset), RotMatrix(lib, rotation)), scale), center)
  {
    var t1 := Translation(offset[0], offset[1], offset[2]);
    var r := RotMatrix(lib, rotation);
    var s := Scaling(scale[0], scale[1], scale[2]);
    var t0 := Translation(-center[0], -center[1], -center[2]);
    TranslationAffine(offset[0], offset[1], offset[2]);
    ScalingAffine(scale[0], scale[1], scale[2]);
    assert Affine(r);
    PointThroughNested(p, t1, r, s, t0);
    MoveBy(p, offset);
    var q := PointTimes(Add(p, offset), r);
    ScaleBy(q, scale);
    MoveByNegation(MulComponents(q, scale), center);
  }

  /** The as-written initialiser leaves worldX on the z axis: a SCROLL
      drag of (dx, 0) right after it moves the camera along z instead of x. */
  lemma ScrollAfterInitializeAsWritten(worldY: Vec3, worldZ: Vec3, dx: real)
    ensures SpinTranslatedBy(Scroll, Origin, UnitZ, worldY, worldZ, DefaultReferenceSize, 1.0, dx, 0.0)
         == [0.0, 0.0, dx * DefaultReferenceSize]
  {
    var t := SpinTranslatedBy(Scroll, Origin, UnitZ, worldY, worldZ, DefaultReferenceSize, 1.0, dx, 0.0);
    SpinScrollDelta(Origin, UnitZ, worldY, worldZ, DefaultReferenceSize, 1.0, dx, 0.0);
    assert t[0] == 0.0 + (0.0 * dx + worldY[0] * 0.0) * (DefaultReferenceSize * 1.0);
    assert t[1] == 0.0 + (0.0 * dx + worldY[1] * 0.0) * (DefaultReferenceSize * 1.0);
    assert t[2] == 0.0 + (1.0 * dx + worldY[2] * 0.0) * (DefaultReferenceSize * 1.0);
  }

  /** After the corrected initialiser a SCROLL drag of (dx, dy) moves the
      camera by dx and dy times the reference size along x and y. */
  lemma ScrollAfterInitializeCorrected(dx: real, dy: real)
    ensures SpinTranslatedBy(Scroll, Origin, UnitX, UnitY, UnitZ, DefaultReferenceSize, 1.0, dx, dy)
         == [dx * DefaultReferenceSize, dy * DefaultReferenceSize, 0.0]
  {
    var t := SpinTranslatedBy(Scroll, Origin, UnitX, UnitY, UnitZ, DefaultReferenceSize, 1.0, dx, dy);
    SpinScrollDelta(Origin, UnitX, UnitY, UnitZ, DefaultReferenceSize, 1.0, dx, dy);
    assert t[0] == 0.0 + (1.0 * dx + 0.0 * dy) * (DefaultReferenceSize * 1.0);
    assert t[1] == 0.0 + (0.0 * dx + 1.0 * dy) * (DefaultReferenceSize * 1.0);
    assert t[2] == 0.0 + (0.0 * dx + 0.0 * dy) * (DefaultReferenceSize * 1.0);
  }
}
