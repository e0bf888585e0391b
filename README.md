# Scene viewer core: vector library, manipulator and loaders

This project models the core of an OpenGL scene viewer:

- the small linear-algebra library: `vec2f`/`vec3f`/`vec4f`, `mat4f` and `rot4f`;
- the axis-aligned `box`;
- the mouse-driven `manipulator` that turns drags into a view matrix, plus the older C-style `Transform` of `spin.cpp`;
- the index and string logic of the scene loaders: the trisrc parser and its triangle sets, the Assimp mesh conversion, and `LoadScene`'s extension dispatch.

Floats are modelled as `real`. `sqrt`, `sin`, `cos` and `acos` are the fields of a `Libm` value that callers pass in. `Lawful(lib)` collects the only facts the proofs use:

- `sqrt` is the non-negative square root, and it is positive on positive inputs;
- `cos 0 = 1`;
- `sin 0 = 0`.

Division goes through `FDiv`, which agrees with exact division whenever the divisor is nonzero. It returns 0 for a zero divisor; no contract relies on that value.

A matrix is a `seq<real>` of 16 entries in the library's order: entry (i, j) is at `4 * i + j`, and vectors multiply on the left. Members that overwrite a receiver (`operator+=`, `normalize`, `transpose`, `mult`, `invert`, `calc_rot4f`) work on an `array<real>` standing for `m_v`. Each is proved against a function of the old contents.

The manipulator and the `Transform` are classes whose methods assign their fields. The triangle sets and their indexed shapes are classes too.

Modules:

| module | file | models |
|---|---|---|
| `MathLib` | mathlib.dfy | libm parameters, `EPSILON`, `FLT_MAX`, total division |
| `Vectors` | vectors.dfy | vector operators, `vec_*` helpers, in-place members |
| `Matrices` | matrices.dfy | `mat4f` constructors, product, transpose, determinant, point times matrix |
| `Inversion` | inversion.dfy | `mat4f::invert` (Gauss-Jordan on columns) |
| `Rotations` | rotations.dfy | `rot4f`, `calc_rot4f`, `rot4f::mult`, `operator*` |
| `Geometry` | geometry.dfy | `struct box` |
| `Manipulators` | manipulator.dfy | `struct manipulator` |
| `SpinTransform` | spin_transform.dfy | `box_*` helpers and `xform*` functions of the top-level `spin.cpp` |
| `Vertices` | vertices.dfy | the trisrc vertex record and `VertexComparator` |
| `TriSrc` | trisrc.dfy | `indexed_shape`, `triangle_sets`, `ParseTriSrc` |
| `AssimpLoader` | assimp.dfy | `ConvertVertex`, `ConvertFacesSmooth`, `ConvertMesh`, `EmitMeshes`, `Load` |
| `Loader` | loader.dfy | `LoadScene` |
| `Wrappers` | wrappers.dfy | `Option` |

The library's manipulator and the older `spin.cpp` differ in two places; the model follows each as written:

- The library's box constructor of the manipulator divides by `cos(fov)`; the older `spin.cpp` divides by `cos(fov / 2)`. `Manipulators.Manipulator.FromBox` keeps `cos(fov)`, and `Manipulators.RightAngleFieldOfView` shows what that does to a 90 degree field of view.
- The two SCROLL conventions differ in the sign of `dy`. `SpinTransform.ScrollSignFlipped` states the relation.

## Model

| member | source | states |
|---|---|---|
| Vectors.Equal | library/vectormath.h:86-93 | `==` answers true exactly when every component is equal |
| Vectors.VecDot | library/vectormath.h:24-30 | the accumulation loop returns the dot product `Dot` |
| Vectors.VecLength | library/vectormath.h:32-38 | the loop over squares followed by one square root is `Length`, the root of `Dot(v, v)` |
| Vectors.AddAssign | library/vectormath.h:320-323 | `+=` leaves the receiver equal to the component-wise sum of its old value and the argument |
| Vectors.SubAssign | library/vectormath.h:325-328 | `-=` leaves the component-wise difference |
| Vectors.MulAssign | library/vectormath.h:330-333 | `*=(vec3f)` leaves the component-wise product |
| Vectors.DivAssignComponents | library/vectormath.h:335-338 | `/=(vec3f)` leaves the component-wise quotient |
| Vectors.ScaleAssign | library/vectormath.h:310-313 | `*=(float)` multiplies every component by w |
| Vectors.DivAssign | library/vectormath.h:315-318 | `/=(float)` divides every component by w |
| Vectors.NormalizeInPlace | library/vectormath.h:305-308 | `normalize()` replaces the receiver by `vec_normalize` of its old value |
| Vectors.CrossInPlace | library/vectormath.h:249-256 | `cross(v1)` overwrites the receiver with the cross product of its old value and v1 and returns that value |
| Vectors.AddSubExample | library/vectormath.h:95-107 | (1,0,0)+(0,1,0) = (1,1,0) and (1,0,0)-(0,1,0) = (1,-1,0) |
| Vectors.AddSubCancel | library/vectormath.h:95-107 | subtraction undoes addition, and addition is commutative |
| Vectors.NegIsScale | library/vectormath.h:109-121 | unary minus is scaling by -1 and equals the zero vector minus v |
| Vectors.DivUndoesScale | library/vectormath.h:123-150 | dividing by a nonzero scalar undoes scaling by it; dividing by nonzero components undoes the component-wise product |
| Vectors.DotBlend | library/vectormath.h:57-63 | the dot product is linear in a blend: `Dot(v0 w0 + v1 w1, c) = w0 Dot(v0, c) + w1 Dot(v1, c)` |
| Vectors.DotSymmetric | library/vectormath.h:24-30 | `vec_dot` is symmetric |
| Vectors.DotScale | library/vectormath.h:65-71 | scaling one argument scales the dot product |
| Vectors.DotSelfNonNegative | library/vectormath.h:24-30 | the dot product of a vector with itself is never negative |
| Vectors.Dot3 | library/vectormath.h:24-30 | on three components the loop sums the three products |
| Vectors.ReflectFlipsNormal | library/vectormath.h:73-82 | for a unit normal n, the reflection's component along n is the negation of the incident one's |
| Vectors.CrossPerpendicular | library/vectormath.h:342-349 | the cross product is orthogonal to both arguments and anti-commutative |
| Vectors.NormalizeUnit | library/vectormath.h:48-55 | a nonzero vector normalizes to unit length |
| Vectors.NormalizeIsScale | library/vectormath.h:48-55 | normalizing is scaling by the reciprocal of the length |
| Vectors.NormalizeFacts | library/vectormath.h:48-55 | a nonzero vector normalizes to a unit vector whose dot product with the input is the input's length; a unit vector is kept |
| Vectors.NormalizeUnitFixed | library/vectormath.h:48-55 | normalizing a unit vector changes nothing |
| Matrices.Translation | library/vectormath.h:551-557 | the identity with x, y, z in entries 12, 13, 14 |
| Matrices.Scaling | library/vectormath.h:559-566 | the identity with x, y, z on the first three diagonal entries |
| Matrices.Frustum | library/vectormath.h:568-589 | as written: 2n/(r-l) and 2n/(t-b) on the diagonal, A and B in entries 2 and 6, C in 10, -1 in 11, D in 14, 0 in 15, the rest identity |
| Matrices.FrustumCorrected | library/vectormath.h:568-589 | the same diagonal, C, D and -1, with A and B moved to entries 8 and 9, where the -1 in entry 11 needs them; every other entry is the identity's |
| Matrices.Rotation | library/vectormath.h:591-617 | entries 3, 7, 11, 12, 13, 14 are 0 and entry 15 is 1, whatever sin and cos return |
| Matrices.MulInto | library/vectormath.h:625-638 | `mult(m1, m2)` leaves `*this` equal to the product, even when it aliases an argument |
| Matrices.CopyInto | library/vectormath.h:648-651 | assignment copies all sixteen entries |
| Matrices.Transpose | library/vectormath.h:520-531 | `transpose(in)` leaves the transpose of the old `in`, also when `in` is `*this` |
| Matrices.MulAssociative | library/vectormath.h:673-687 | the matrix product is associative |
| Matrices.MulIdentity | library/vectormath.h:673-687 | the identity is neutral on both sides |
| Matrices.TransposeInvolutive | library/vectormath.h:520-531 | transposing twice restores the matrix, and the identity is its own transpose |
| Matrices.DeterminantExamples | library/vectormath.h:533-546 | the determinant is 1 for the identity and for every translation, and x y z for a scaling |
| Matrices.PointTranslation | library/vectormath.h:703-715 | a point times `translation(x,y,z)` is the point plus (x,y,z) |
| Matrices.PointScale | library/vectormath.h:703-715 | a point times `scale(x,y,z)` is the component-wise product |
| Matrices.Vec4TimesMul | library/vectormath.h:689-701 | `v * (a * b) = (v * a) * b` |
| Matrices.PointTimesMul | library/vectormath.h:703-715 | for an affine a, `p * (a * b) = (p * a) * b` |
| Matrices.PointTimesDropsW | library/vectormath.h:703-715 | a point times a matrix is the first three components of (p, 1) times it; w is not divided out |
| Matrices.RotationFixesAxis | library/vectormath.h:591-617 | for a unit axis, the rotation maps the axis to itself |
| Matrices.RotationZeroAngle | library/vectormath.h:591-617 | with cos 0 = 1 and sin 0 = 0 the rotation by angle 0 is the identity |
| Matrices.FrustumIgnoresOffset | library/vectormath.h:568-589 | as written, clip x and y of a point do not depend on the frustum's centre offset |
| Matrices.FrustumCornerAsWritten | library/vectormath.h:568-589 | on an off-centre frustum the near-plane corner does not reach the clip-space edge as written, and does when corrected |
| Matrices.FrustumCorrectedCorners | library/vectormath.h:568-589 | corrected, the near-plane corners (l, b) and (r, t) map to clip coordinates -n and n |
| Matrices.FrustumCorrectedShape | library/vectormath.h:568-589 | the entries of the corrected frustum, one by one |
| Matrices.FrustumFarPlane | library/vectormath.h:568-589 | corrected, a point on the far plane lands at depth w |
| Matrices.PerspectiveImage | library/vectormath.h:568-589 | a matrix of the frustum's shape maps (x, y, z, 1) to (cx, cy, cz, -z): w carries the depth |
| Matrices.NearEdge | library/vectormath.h:572-578 | the scale 2n/(hi-lo) and offset (hi+lo)/(hi-lo) send the near-plane edges lo and hi to -n and n |
| Matrices.Depth | library/vectormath.h:574-575 | C and D send depth -n to -n and -f to f |
| Matrices.PointFixed | library/vectormath.h:703-715 | a point whose three products reproduce it is fixed by the matrix |
| Inversion.FirstSwap | vectormath.cpp:32-39 | the first phase keeps column 0 (no exchange) when its entry is at least EPSILON, otherwise takes the first later column whose entry exceeds EPSILON, and stays on 0 when there is none |
| Inversion.SecondSwap | vectormath.cpp:79-83 | the second phase keeps column 1 (no exchange) when entry 5 is at least EPSILON, otherwise column 2 when entry 6 exceeds EPSILON, otherwise column 3 when entry 7 does, and otherwise falls back on the rswap it inherits |
| Inversion.TracksEliminate | vectormath.cpp:41-186 | every column operation is applied to both matrices, so at the end `hold == input * result` |
| Inversion.EliminateInverts | vectormath.cpp:41-186 | when every pivot is nonzero and the second phase does not bring back column 0, `input * result == identity` |
| Inversion.CorrectedKeepsFirstRow | vectormath.cpp:79-95 | with fallback column 1, the second phase never trades column 1 with the reduced column 0 |
| Inversion.InvertCorrectedSound | vectormath.cpp:23-27 | corrected, invert fails exactly when singular_fail holds and abs(det) < EPSILON; failure leaves the identity; success with nonzero pivots gives an inverse |
| Inversion.InPlaceSkipsSingularTest | vectormath.cpp:23-27 | `invert()` in place tests the determinant of the identity, so it never reports a singular matrix |
| Inversion.SingularInvertedInPlace | vectormath.cpp:23-27 | a matrix of determinant 0 is reported invertible in place but singular when it is inverted into another matrix |
| Inversion.SingularLeavesIdentity | vectormath.cpp:23-27 | a near-singular input inverted into another matrix gives false and the identity |
| Inversion.ZeroSingular | vectormath.cpp:25 | the zero matrix has determinant 0 |
| Inversion.CorrectedDiagonalInverts | vectormath.cpp:41-186 | corrected, a diagonal input with usable pivots is inverted |
| Inversion.CorrectedDiagonal | vectormath.cpp:32-167 | corrected, the pivots of a diagonal input are its diagonal entries |
| Inversion.StaleSwapDiagonal | vectormath.cpp:79-95 | as written, a diagonal input with a tiny entry (1,1) makes the second phase trade columns 1 and 0 and divide by zero |
| Inversion.StaleExampleFits | vectormath.cpp:79-95 | diag(1, 0.000001, 1000000, 1), of determinant 1, is such an input |
| Inversion.StaleSecondSwap | vectormath.cpp:79-95 | when entries 5, 6 and 7 are unusable the second phase falls back on rswap 0 and leaves a zero pivot |
| Inversion.SwapColumns | vectormath.cpp:41-50 | columns p and q of hold and of the result are exchanged |
| Inversion.SwapColumnsOf | vectormath.cpp:41-50 | columns p and q of one matrix are exchanged |
| Inversion.DivideColumn | vectormath.cpp:53-58 | column k of both matrices is divided by the pivot |
| Inversion.SubtractColumn | vectormath.cpp:60-77 | column c of both matrices loses hold[k][c] times column k |
| Inversion.ReduceColumn | vectormath.cpp:53-77 | one phase: the division, then the three subtractions, as `Reduce` |
| Inversion.OpenPhase | vectormath.cpp:79-95 | the conditional exchange that opens a phase, as `PivotSwap`, and the rswap it leaves |
| Inversion.OpenFirst | vectormath.cpp:29-51 | the first phase's exchange, and the rswap it picks |
| Inversion.OpenSecond | vectormath.cpp:79-95 | the second phase's exchange with the given fallback column |
| Inversion.OpenThird | vectormath.cpp:123-134 | the third phase's exchange of columns 2 and 3 |
| Inversion.EliminateInPlace | vectormath.cpp:29-186 | the four phases on hold and the result give `Eliminate` of the input |
| Inversion.SetIdentity | vectormath.cpp:23-24 | the result starts as the identity |
| Inversion.CheckAndEliminate | vectormath.cpp:26-188 | fails exactly when singular_fail holds and abs(det) < EPSILON, leaving the identity; otherwise the result is `Eliminate` of the copy |
| Inversion.Invert | vectormath.cpp:17-189 | `invert(mat, singular_fail)` as written, receiver and all, including the aliased call |
| Inversion.InvertFixed | vectormath.cpp:17-189 | `invert` with the determinant taken of the copy and fallback column 1 in the second phase |
| Inversion.AsWrittenOutcome | vectormath.cpp:23-27 | the as-written result is false with the identity after a failed test, and otherwise true with the eliminated result |
| Rotations.RotMatrix | library/vectormath.h:619-621 | `mat4f(rot4f)` is an affine matrix (last column 0, 0, 0, 1 and no translation) that maps a unit axis to itself |
| Rotations.AxisFixed | library/vectormath.h:619-621 | the matrix of a rot4f with a unit axis maps that axis to itself |
| Rotations.Clamp | vectormath.cpp:197-213 | the cosine is clamped into [-1, 1] and left alone inside it |
| Rotations.CalcRot | vectormath.cpp:191-235 | when the antisymmetric part `(m6-m9, m8-m2, m1-m4)` is nonzero, the axis has unit length and points along that part: its dot product with it is that part's length |
| Rotations.CalcRotInto | vectormath.cpp:191-235 | `calc_rot4f` writes `CalcRot` through its out-pointer |
| Rotations.NormalizeTail | vectormath.cpp:247-257 | the axis part is divided by its own length and the angle is kept |
| Rotations.Renormalized | vectormath.cpp:247-257 | the angle is kept; a nonzero axis becomes a unit axis pointing the same way; a unit axis is left as it is |
| Rotations.RenormalizedIdempotent | vectormath.cpp:247-257 | renormalizing twice is renormalizing once |
| Rotations.RotProduct | vectormath.cpp:237-260 | `mult` of two rotations: when the product matrix has a nonzero antisymmetric part, the result has a unit axis and is the plain extraction, so renormalizing changes nothing |
| Rotations.RotMult | vectormath.cpp:237-260 | `mult(r1, r2)` leaves `RotProduct` in the receiver |
| Rotations.RotOfMatrix | vectormath.cpp:244-257 | extracting then renormalizing writes `Renormalized(CalcRot(m))` |
| Rotations.Renormalize | vectormath.cpp:247-257 | the in-place renormalization step |
| Rotations.RotTimes | vectormath.cpp:262-268 | `operator*` returns `RotProduct` |
| Rotations.CalcRotOfRotation | vectormath.cpp:191-235 | for a unit axis and sin(a) > 0, extraction recovers the axis and the cosine of the angle |
| Rotations.AxisOfRotation | vectormath.cpp:224-226 | the raw axis of `rotation(a, x, y, z)` is 2 sin(a) times (x, y, z) |
| Rotations.TraceCosineOfRotation | vectormath.cpp:197 | the trace formula gives cos(a) for a unit axis |
| Rotations.NormalizeScaledUnit | vectormath.cpp:228-234 | normalizing a positive multiple of a unit axis gives that axis |
| Rotations.RotProductLeftIdentity | vectormath.cpp:237-260 | composing with a rotation whose matrix is the identity is extraction of the other |
| Rotations.RenormalizedRoundTrip | vectormath.cpp:237-260 | matrix then extraction then renormalization returns the axis and acos(clamp(cos a)) |
| Rotations.RotProductZeroLeft | vectormath.cpp:237-260 | composing a zero-angle rotation on the left keeps the other's axis |
| Geometry.MinCorner | library/geometry.h:40-48 | per axis, the smaller of the corner and the point |
| Geometry.MaxCorner | library/geometry.h:40-48 | per axis, the larger of the corner and the point |
| Geometry.Offset | library/geometry.h:55-63 | each coordinate moved by r |
| Geometry.LargestExtent | library/geometry.h:29-38 | at least every extent, and equal to one of them |
| Geometry.Box.constructor | library/geometry.h:24-27 | a new box is empty: min is +FLT_MAX and max is -FLT_MAX |
| Geometry.Box.Empty | library/geometry.h:13-23 | `empty()` resets both corners |
| Geometry.Box.LargestSide | library/geometry.h:29-38 | at least every side, and equal to one of them |
| Geometry.Box.Extend | library/geometry.h:40-48 | min and max take in the point, which the box then contains |
| Geometry.Box.ExtendPoint | library/geometry.h:50-53 | the vec3f overload is extend(v[0], v[1], v[2]) |
| Geometry.Box.ExtendRadius | library/geometry.h:55-63 | min takes in p - r and max takes in p + r |
| Geometry.ExtendContains | library/geometry.h:40-48 | after extend the point is inside |
| Geometry.ExtendNeverShrinks | library/geometry.h:40-48 | a point inside stays inside |
| Geometry.ExtendIdempotent | library/geometry.h:40-48 | extending twice by a point is extending once |
| Geometry.ExtendEmpty | library/geometry.h:13-48 | an empty box extended by a finite point has min = max = p and largest side 0 |
| Geometry.ExtendRadiusContains | library/geometry.h:55-63 | with r >= 0 the box contains the cube [p - r, p + r] |
| Geometry.EmptyContainsNothing | library/geometry.h:13-23 | the empty box contains no point |
| Manipulators.DragToRotation | library/manipulator.cpp:12-22 | angle pi times the drag length, axis (dy, dx, 0) over that length |
| Manipulators.LocalRotation | library/manipulator.cpp:62-68 | the angle is pi times the drag distance; with orthonormal world axes the axis has the drag rotation's components dy/d and dx/d along worldX and worldY, and unit length for a nonzero drag |
| Manipulators.LocalAxis | library/manipulator.cpp:62-68 | the axis worldX (dy/d) + worldY (dx/d) has those components along orthonormal world axes, and unit length for a nonzero drag |
| Manipulators.Combination | library/manipulator.cpp:62-68 | for orthonormal x and y, a x + b y has components a and b along them and squared length a^2 + b^2 |
| Manipulators.CalcViewMatrix | library/manipulator.cpp:24-32 | the four products give `T(-center) S(scale) R(rotation) T(offset)` |
| Manipulators.CameraDistance | spin.cpp:244 | the camera distance with half the field of view: `-z cos(fov/2) = size` |
| Manipulators.Row3 | library/manipulator.cpp:50-53 | the first three entries of row i |
| Manipulators.Manipulator.constructor | library/manipulator.cpp:92-115 | unit axes, centre 0, scale 1, reference 3.465, motion scale 1, no translation, rotation (0,1,0,0), ROTATE, matrix of that state |
| Manipulators.Manipulator.FromBox | library/manipulator.cpp:117-138 | as the default, with reference size `bounds.largest_side()` and translation z `-size / cos(fov)` |
| Manipulators.Manipulator.CalculateMatrix | library/manipulator.cpp:36-40 | only the matrix changes, to the view matrix of the state |
| Manipulators.Manipulator.SetFrame | library/manipulator.cpp:42-54 | the frame is stored, the axes become rows 0, 1, 2 of its inverse, nothing else changes |
| Manipulators.Manipulator.SetAxes | library/manipulator.cpp:50-53 | the three axes assignments |
| Manipulators.Manipulator.Move | library/manipulator.cpp:56-90 | rotation and translation change as the mode says; mode, frame, scale, centre, axes and sizes do not; the matrix is rebuilt |
| Manipulators.MoveStep | library/manipulator.cpp:58-86 | the switch gives `RotatedBy` and `TranslatedBy` |
| Manipulators.RotateStep | library/manipulator.cpp:60-71 | a nonzero ROTATE drag composes the local rotation on the right |
| Manipulators.InverseOf | library/manipulator.cpp:44-49 | `i.invert(frame)` into a fresh matrix, its result ignored |
| Manipulators.AxesOfInverse | library/manipulator.cpp:50-53 | unit axis times i minus origin times i is the axis's row of i |
| Manipulators.SingularFrameUnitAxes | library/manipulator.cpp:42-54 | a singular frame leaves the unit axes, since the ignored invert leaves the identity |
| Manipulators.SingularFrameIdentity | library/manipulator.cpp:44-49 | the inverse of a singular frame is the identity |
| Manipulators.DragUnitAxis | library/manipulator.cpp:12-22 | a nonzero drag has positive length d with d squared = dx squared + dy squared, and the axis is a unit vector |
| Manipulators.DragPositive | library/manipulator.cpp:18 | a nonzero drag has a positive length |
| Manipulators.DragSquare | library/manipulator.cpp:18 | the scaling by 10000 under the root and after it cancel |
| Manipulators.RotateWithUnitAxes | library/manipulator.cpp:60-71 | with unit world axes a ROTATE drag gives angle pi d, axis (dy/d, dx/d, 0) of unit length |
| Manipulators.RotationUntouched | library/manipulator.cpp:60-85 | a zero ROTATE drag, SCROLL and DOLLY leave the rotation unchanged |
| Manipulators.ScrollDelta | library/manipulator.cpp:77-81 | SCROLL adds `(worldX dx - worldY dy) ref motion` |
| Manipulators.DollyDelta | library/manipulator.cpp:83-85 | DOLLY adds `worldZ dy ref motion` and ignores dx |
| Manipulators.RollIgnoresDx | library/manipulator.cpp:73-75 | ROLL ignores dx and keeps the translation |
| Manipulators.ScrollExample | library/manipulator.cpp:77-81 | reference 10, unit axes, drag (0.1, 0) moves the translation by (1, 0, 0) |
| Manipulators.ViewMatrixMapsPoint | library/manipulator.cpp:24-32 | the view matrix maps p to `R((p - center) * scale) + offset` |
| Manipulators.PointThroughFour | library/manipulator.cpp:27-31 | a point through a product of affine matrices goes through each factor in turn |
| Manipulators.TranslationAffine | library/vectormath.h:551-557 | a translation keeps the last column (0, 0, 0, 1) |
| Manipulators.ScalingAffine | library/vectormath.h:559-566 | a scaling keeps the last column (0, 0, 0, 1) |
| Manipulators.MoveByNegation | library/manipulator.cpp:31 | the translation by -center subtracts center |
| Manipulators.ScaleBy | library/manipulator.cpp:30 | the scaling multiplies component by component |
| Manipulators.MoveBy | library/manipulator.cpp:27 | the translation by offset adds offset |
| Manipulators.DefaultMatrixIdentity | library/manipulator.cpp:92-115 | the default manipulator's matrix is the identity |
| Manipulators.IdentityView | library/manipulator.cpp:24-32 | when all four factors are the identity so is the view matrix |
| Manipulators.ZeroTranslation | library/manipulator.cpp:101-108 | translating by the zero centre or offset is the identity |
| Manipulators.UnitScaling | library/manipulator.cpp:101-108 | the unit scale is the identity |
| Manipulators.IdentityRows | library/manipulator.cpp:50-53 | the rows of the identity are the unit axes |
| Manipulators.RightAngleFieldOfView | library/manipulator.cpp:130 | with fov 90 degrees, cos(fov) is 0; halving fov gives a finite camera distance |
| SpinTransform.BoxSetEmpty | spin.cpp:31-41 | both corners are set to the empty values |
| SpinTransform.BoxExtend | spin.cpp:43-51 | same min/max rule as `box::extend` |
| SpinTransform.BoxExtendRadius | spin.cpp:53-61 | same rule as the radius form of `box::extend` |
| SpinTransform.EmptyThenExtend | spin.cpp:31-51 | empty then extend by a finite point gives min = max = p |
| SpinTransform.SpinCalcViewMatrix | spin.cpp:117-138 | the products give spin's order `T(offset) R S T(-center)` |
| SpinTransform.MotionStep | spin.cpp:164-192 | the switch gives `RotatedBy` and `SpinTranslatedBy` |
| SpinTransform.ReferenceSizeOf | spin.cpp:234-240 | the if-chain picks the largest extent |
| SpinTransform.Transform.CalcMatrix | spin.cpp:142-146 | only the matrix changes |
| SpinTransform.Transform.SetFrame | spin.cpp:148-160 | as the library's `set_frame` |
| SpinTransform.Transform.SetAxes | spin.cpp:157-159 | the three axes assignments |
| SpinTransform.Transform.Motion | spin.cpp:162-196 | rotation and translation change by the mode; everything else except the matrix is kept |
| SpinTransform.Transform.ResetView | spin.cpp:204-220 | the assignments both initialisers share |
| SpinTransform.Transform.Initialize | spin.cpp:198-221 | as written: worldX ends on the z axis, worldY and worldZ are not set |
| SpinTransform.Transform.InitializeCorrected | spin.cpp:198-221 | with the unit world axes |
| SpinTransform.Transform.InitializeViewFromBox | spin.cpp:224-252 | as written: largest extent, translation z `-size / cos(fov / 2)`, worldX on the z axis |
| SpinTransform.Transform.InitializeViewFromBoxCorrected | spin.cpp:224-252 | with the unit world axes |
| SpinTransform.SpinScrollDelta | spin.cpp:183-187 | SCROLL adds `(worldX dx + worldY dy) ref motion` |
| SpinTransform.ScrollSignFlipped | spin.cpp:183-187 | spin's SCROLL is the library's with dy negated; the other modes agree |
| SpinTransform.MulAffine | spin.cpp:117-138 | products of affine matrices are affine |
| SpinTransform.SpinViewMatrixMapsPoint | spin.cpp:117-138 | spin's matrix maps p to `R(p + offset) * scale - center` |
| SpinTransform.PointThroughNested | spin.cpp:117-138 | a point through spin's left-nested product of affine matrices goes through each factor in turn |
| SpinTransform.ScrollAfterInitializeAsWritten | spin.cpp:198-221 | after the as-written initialiser a horizontal SCROLL moves along z |
| SpinTransform.ScrollAfterInitializeCorrected | spin.cpp:198-221 | after the corrected one it moves along x and y |
| Vertices.CompareFromFlip | spin/trisrc_loader.cpp:131-161 | swapping the arguments flips the lexicographic comparison |
| Vertices.CompareFromSame | spin/trisrc_loader.cpp:131-161 | the comparison is Same exactly on equal suffixes |
| Vertices.CompareFromCoherent | spin/trisrc_loader.cpp:131-161 | the lexicographic comparison of three records is consistent: a < b and b < c give a < c, equal ones pass through |
| Vertices.ThenCoherent | spin/trisrc_loader.cpp:131-161 | chaining one field after another keeps that consistency |
| Vertices.ThenFlip | spin/trisrc_loader.cpp:131-161 | chaining commutes with swapping the arguments |
| Vertices.VertexLessIrreflexive | spin/trisrc_loader.cpp:131-161 | no vertex is less than itself |
| Vertices.VertexOrderFlip | spin/trisrc_loader.cpp:131-161 | the order is antisymmetric |
| Vertices.VertexLessTransitive | spin/trisrc_loader.cpp:131-161 | the order is transitive |
| Vertices.VertexEquivalentIffEqual | spin/trisrc_loader.cpp:131-161 | two vertices are incomparable exactly when they are equal |
| TriSrc.IndexedShape.constructor | spin/trisrc_loader.cpp:225-235 | the material fields are set and the lists and map are empty |
| TriSrc.IndexedShape.AddTriangle | spin/trisrc_loader.cpp:237-253 | all three vertices are appended, the indices old size, +1, +2 are appended, the map records them; `indices[k] == k` is kept |
| TriSrc.TexturePath | spin/trisrc_loader.cpp:371-375 | empty for an empty texture name, otherwise `dirname + "/" + name` |
| TriSrc.TriangleSets.constructor | spin/trisrc_loader.cpp:348-354 | no shapes |
| TriSrc.TriangleSets.GetTriangleSet | spin/trisrc_loader.cpp:356-387 | a known key returns its shape and changes nothing; an unknown key inserts exactly one fresh empty shape; shapes already stored keep their objects and contents |
| TriSrc.TriangleSets.Insert | spin/trisrc_loader.cpp:377-379 | the new shape is stored under its name with no vertices; every other entry is kept |
| TriSrc.TriangleSets.AppendToShape | spin/trisrc_loader.cpp:330 | `add_triangle` on the returned shape grows that shape's vertices by the triangle and no other shape's |
| TriSrc.ShapeNameIgnoresAlpha | spin/trisrc_loader.cpp:358-362 | `specular[3]` is not part of the key |
| TriSrc.ShapeNameJoinsAtDot | spin/trisrc_loader.cpp:358-362 | texture "a.b" with tag "c" gives the same key as texture "a" with tag "b.c" |
| TriSrc.TextureName | spin/trisrc_loader.cpp:289-291 | of the non-empty name the loop reads, "*" becomes empty and any other name is kept |
| TriSrc.AdjustShininess | spin/trisrc_loader.cpp:304-307 | a shininess strictly between 0 and 1 is multiplied by 10, others kept |
| TriSrc.ReadTriangle | spin/trisrc_loader.cpp:289-326 | a record the loop accepts yields a triangle exactly when it is complete, and then the triangle that record describes |
| TriSrc.Consumed | spin/trisrc_loader.cpp:289-332 | the read loop stops at the first record that is not complete |
| TriSrc.AddToSets | spin/trisrc_loader.cpp:328-330 | the table's contents are the old ones with the three vertices appended to the shape for the triangle's key, which starts empty when new; every other shape keeps its object and vertices |
| TriSrc.ParseTriSrc | spin/trisrc_loader.cpp:282-333 | succeeds exactly when the records stop at the end or at one that does not open with a non-empty quoted name, and fails when a triangle is cut short; every shape then holds what it held plus the vertices of its own records, in file order; the keys grow by those of the records read; stored shapes keep their objects |
| TriSrc.AddRecord | spin/trisrc_loader.cpp:289-331 | one turn of the loop moves the table from the first i records to the first i + 1 |
| TriSrc.FilledByKey | spin/trisrc_loader.cpp:289-331 | the table after n records, shape by shape: the names are the old ones and the records' keys, and each shape holds its old vertices followed by those of its own records in order |
| TriSrc.FilledKeys | spin/trisrc_loader.cpp:289-331 | the table after n records holds the old names and those of the records |
| TriSrc.VerticesForUnused | spin/trisrc_loader.cpp:289-331 | a shape name no record uses receives no vertices |
| AssimpLoader.ConvertVertex | spin/assimp_loader.cpp:145-156 | position copied; missing normals give (0,0,1), missing texcoords (0,0), missing colours (1,1,1,1) |
| AssimpLoader.FanTriangles | spin/assimp_loader.cpp:308-319 | a face of n indices gives n - 2 triangles `(f0, f[k+1], f[k+2])` in order |
| AssimpLoader.FanFromFace | spin/assimp_loader.cpp:308-319 | every emitted index is one of the face's |
| AssimpLoader.FacesIndicesLength | spin/assimp_loader.cpp:303-319 | the index list has 3 times the sum of n - 2 entries; short faces add none |
| AssimpLoader.FacesIndicesFromFaces | spin/assimp_loader.cpp:303-319 | every emitted index comes from some face |
| AssimpLoader.ConvertedVertices | spin/assimp_loader.cpp:298-300 | one converted vertex per mesh vertex, in order |
| AssimpLoader.ConvertFacesSmooth | spin/assimp_loader.cpp:293-328 | always succeeds with the converted vertices, the fan indices and the default material |
| AssimpLoader.ConvertMesh | spin/assimp_loader.cpp:330-338 | fails with a null node exactly when the mesh has no normals |
| AssimpLoader.GroupMatrix | spin/assimp_loader.cpp:343-349 | `mtxf[4j+i]` is entry (i, j) of the node transform: its transpose |
| AssimpLoader.EmitMeshes | spin/assimp_loader.cpp:340-382 | the recursion computes `Emit` |
| AssimpLoader.MeshNodesOk | spin/assimp_loader.cpp:352-363 | the mesh loop gets through exactly when every mesh has normals |
| AssimpLoader.ChildNodesOk | spin/assimp_loader.cpp:366-376 | the child loop gets through exactly when every mesh and child succeeds; nothing is collected exactly when nothing has meshes |
| AssimpLoader.EmitOk | spin/assimp_loader.cpp:340-382 | success iff every mesh below has normals; failure gives null; success gives null iff there are no meshes, otherwise a group with the transposed matrix |
| AssimpLoader.Settings | spin/assimp_loader.cpp:389-398 | the three common steps always; RemoveComponent of normals iff the extension is "stl" |
| AssimpLoader.Load | spin/assimp_loader.cpp:384-411 | a failed import exits; otherwise the result of `EmitMeshes` on the root |
| Loader.LastIndexOf | spin/loader.cpp:9 | the last position of the character, or -1 with none after it |
| Loader.ExtensionAfterLastDot | spin/loader.cpp:9-10 | the extension holds no dot and is what follows the last dot |
| Loader.LastDotBeforeExtension | spin/loader.cpp:9-10 | for `stem.ext` with a dot-free ext the extension is ext |
| Loader.ExtensionWithoutDot | spin/loader.cpp:9-10 | without a dot the whole name is the extension |
| Loader.LoadScene | spin/loader.cpp:7-36 | a non-null root only for "builtin" or "trisrc" |
| Loader.LoadSceneDispatch | spin/loader.cpp:14-33 | the named loader's root on success, null on its failure, null for any other extension |
| Loader.LoadSceneTriSrcFile | spin/loader.cpp:21-28 | a `*.trisrc` name goes to the trisrc loader |

## Left out

- Rendering: GL, GLFW, shaders, `MakeShape`, `LoadTexture` and `LoadCheckerBoard`. Their output is a `Node` value here.
- I/O: `fopen`/`fscanf`/`dirname`, and the Assimp import call. The importer is a parameter of `AssimpLoader.Load`. `ParseTriSrc` walks a list of records a tokeniser has already split; a record whose quotes enclose nothing keeps its empty name, and the loop's test (`Opens`) rejects it as `fscanf` does. `exit` on a null scene is the `Exit` outcome.
- `ReadTriSrc` and the trisrc `Load`: walking the shape map to call `MakeShape` and wrapping the nodes in an identity group is rendering glue.
- The `Controller` interface of `loader.h` declares only hooks.
- The Assimp `VertexComparator` has an empty body and is never used. The comparator of the trisrc loader is modelled.
- `mat4f::mult_nm`, `print_matrix` and the debug `printf`s are output only.
- Floats: NaN, infinities, rounding and overflow. Division by zero is `FDiv`'s 0, and no property depends on it.
- Trigonometry: rotation matrices being orthonormal, and `calc_rot4f` recovering an angle exactly, need identities that `Libm` does not assume. `Rotations.CalcRotOfRotation` and `Rotations.RenormalizedRoundTrip` assume `sin(a) > 0` and recover the axis and `acos(clamp(cos a))`, not the angle itself.
- Vectors.Add, Vectors.Sub, Vectors.Scale and the other vector functions: their contracts state only the length, and their properties are in the lemmas listed above.
- TriSrc.ParseTriSrc, TriSrc.ShapeName: texture names, tags and shape keys are unbounded strings here. The source reads the names into the 512-byte buffers `texture_name` and `tag_name` with no width limit (spin/trisrc_loader.cpp:283-288). It also `sprintf`s the key, which joins the texture name, the tag and five formatted numbers, into the 512-byte `shape_name_cstr` (spin/trisrc_loader.cpp:357-362). A longer name or key overflows the stack buffer, which is undefined behaviour the model does not represent.

## Findings

| source | as written | input that shows it | evidently intended | confidence | as-written member | corrected member |
|---|---|---|---|---|---|---|
| library/vectormath.h:568-589 | `frustum` stores A and B in entries 2 and 6 | left 0, right 2, bottom -1, top 1, near 1: the corner (0, -1, -1) maps to clip x 0 instead of -1 | A and B in entries 8 and 9, the row that meets -1 in entry 11 | not executed | Matrices.FrustumCornerAsWritten | Matrices.FrustumCorrectedCorners |
| vectormath.cpp:23-27 | `invert()` passes `*this`, which is set to the identity before its determinant is taken | the zero matrix inverted in place is reported invertible | the determinant of the input copy `hold` | not executed | Inversion.SingularInvertedInPlace | Inversion.InvertCorrectedSound |
| vectormath.cpp:79-95 | the second phase reuses rswap from the first phase when neither entry 6 nor 7 qualifies, often 0 | diag(1, 0.000001, 1000000, 1): column 1 is swapped with column 0 and the pivot is 0 | fall back on a later column, never the reduced column 0 | not executed | Inversion.StaleSwapDiagonal | Inversion.CorrectedDiagonalInverts |
| spin.cpp:200-202 | `worldX` is assigned the three unit axes in turn | after `xformInitialize` a horizontal SCROLL moves along z | worldX, worldY and worldZ set to the three unit axes | not executed | SpinTransform.ScrollAfterInitializeAsWritten | SpinTransform.ScrollAfterInitializeCorrected |
