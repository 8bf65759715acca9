/** `get_coordinates`: picks the head or the tail of a bone, projects it
    through the camera's view and projection matrices, maps it to pixels with
    the y axis flipped, replaces a point outside the image by (0, 0) and
    rounds. The Blender objects it reads become plain inputs: the inverse of
    the camera's world matrix, the projection matrix, and a bone record. */
module Projection {
  import opened Outcomes
  import opened Geometry
  import JointRemap

  /** A pose bone as `get_coordinates` reads it. */
  datatype PoseBone = PoseBone(name: string, head: Vec3, tail: Vec3)

  /** `scene.render.resolution_x`, `scene.render.resolution_y`. */
  datatype Resolution = Resolution(x: int, y: int)

  /** One camera placement: `camera.matrix_world.inverted()`, the matrix
      `calc_matrix_camera` returns, the render resolution used to map to
      pixels, and the `resolution_x`, `resolution_y` arguments used for the
      out-of-frame test. */
  datatype View = View(camInverse: Mat4, projection: Mat4, render: Resolution, resolutionX: int, resolutionY: int)

  /** A rounded pixel, `[coordinate_x, coordinate_y]`. */
  datatype Pixel = Pixel(x: int, y: int)

  /** The three values `get_coordinates` returns. */
  datatype Coordinates = Coordinates(pixel: Pixel, world: Vec3, name: string)

  /** The bones whose head, not tail, is the keypoint. */
  const HeadBones: seq<string> :=
    ["UpperLeg_R", "UpperLeg_L", "LowerLeg_R", "LowerLeg_L", "Foot_R", "Foot_L", "Hips", "Spine"]

  /** `bone.head` for the bones listed in `HeadBones`, `bone.tail` otherwise. */
  function SelectedPoint(bone: PoseBone): Vec3 {
    if bone.name in HeadBones then bone.head else bone.tail
  }

  /** The head is used exactly for the rig bones whose canonical slot is one
      of the first eight (hip, right leg, left leg, spine); every other bone,
      mapped or not, uses its tail. */
  lemma HeadBonesAreHipsLegsAndSpine(name: string)
    ensures name in HeadBones <==> name in JointRemap.BoneMapping && JointRemap.SlotOf(name).value < 8
  {
    if name in HeadBones {
      var k :| 0 <= k < |HeadBones| && HeadBones[k] == name;
      var i := [1, 4, 2, 5, 3, 6, 0, 7][k];
      assert JointRemap.RigBones[i] == name;
      JointRemap.RigSlotAt(i);
    }
    if name in JointRemap.BoneMapping && JointRemap.SlotOf(name).value < 8 {
      JointRemap.RigBonesAreMappingKeys();
      var i :| 0 <= i < JointRemap.NumSlots && JointRemap.RigBones[i] == name;
      JointRemap.RigSlotAt(i);
      JointRemap.RigSlotsBelowEight(i);
      RigHeadBone(i);
    }
  }

  /** The first eight rig names are the head bones. */
  lemma RigHeadBone(i: nat)
    requires i < 8
    ensures JointRemap.RigBones[i] in HeadBones
  {
    var k := [6, 0, 2, 4, 1, 3, 5, 7][i];
    assert JointRemap.RigBones[i] == HeadBones[k];
  }

  /** The bone's point in clip space: view transform, then projection. */
  function Clip(view: View, p: Vec3): Vec4 {
    MulVec4(view.projection, To4D(TransformPoint(view.camInverse, p)))
  }

  /** Normalised device coordinates to pixels, y flipped. */
  function NdcToPixel(ndcX: real, ndcY: real, w: real, h: real): (real, real) {
    ((ndcX + 1.0) * w / 2.0, (1.0 - ndcY) * h / 2.0)
  }

  /** The test of line 222: left of, above, right of or below the image. */
  predicate OutOfFrame(cx: real, cy: real, resolutionX: int, resolutionY: int) {
    cx < 0.0 || cy < 0.0 || cx > resolutionX as real || cy > resolutionY as real
  }

  /** With the render resolution as bound, a point is kept exactly when its
      normalised device coordinates lie in [-1, 1] x [-1, 1]. */
  lemma {:induction false} InFrameIffNdcInSquare(ndcX: real, ndcY: real, w: int, h: int)
    requires w > 0 && h > 0
    ensures var p := NdcToPixel(ndcX, ndcY, w as real, h as real);
      !OutOfFrame(p.0, p.1, w, h) <==> -1.0 <= ndcX <= 1.0 && -1.0 <= ndcY <= 1.0
  {
    var W, H := w as real, h as real;
    var p := NdcToPixel(ndcX, ndcY, W, H);
    PixelBounds(ndcX + 1.0, W, p.0);
    PixelBounds(1.0 - ndcY, H, p.1);
  }

  /** A pixel coordinate `q`, the value `a` scaled by half a positive size,
      lies in [0, size] exactly when `a` lies in [0, 2]. */
  lemma PixelBounds(a: real, size: real, q: real)
    requires size > 0.0 && q == a * size / 2.0
    ensures q >= 0.0 <==> a >= 0.0
    ensures q <= size <==> a <= 2.0
  {
    HalfScaleBounds(a, size);
  }

  /** A value scaled by half a positive size lies in [0, size] exactly when
      the value lies in [0, 2]. */
  lemma HalfScaleBounds(a: real, size: real)
    requires size > 0.0
    ensures a * size / 2.0 >= 0.0 <==> a >= 0.0
    ensures a * size / 2.0 <= size <==> a <= 2.0
  {
    ProductSign(a, size);
    ProductSign(2.0 - a, size);
    assert (2.0 - a) * size == 2.0 * size - a * size;
  }

  /** A product with a positive factor has the other factor's sign. */
  lemma ProductSign(a: real, b: real)
    requires b > 0.0
    ensures a >= 0.0 <==> a * b >= 0.0
  {
    if a >= 0.0 {
      assert a * b >= 0.0;
    } else {
      assert (-a) * b > 0.0;
    }
  }

  /** The unrounded pixel of a bone, defined when `clip.w != 0`. */
  function ExactPixel(view: View, bone: PoseBone): (real, real)
    requires Clip(view, SelectedPoint(bone)).w != 0.0
  {
    var clip := Clip(view, SelectedPoint(bone));
    NdcToPixel(clip.x / clip.w, clip.y / clip.w, view.render.x as real, view.render.y as real)
  }

  /** `get_coordinates(scene, camera, bone, resolution_x, resolution_y)`.
      Computing the aspect ratio divides by the render height, and the
      perspective division divides by `clip.w`; neither is guarded, so a zero
      raises `ZeroDivisionError`. */
  function GetCoordinates(view: View, bone: PoseBone): (r: Result<Coordinates>)
    ensures r.Failure? <==> view.render.y == 0 || Clip(view, SelectedPoint(bone)).w == 0.0
    ensures r.Failure? ==> r.error == ZeroDivisionError
    ensures r.Success? ==> r.value.world == SelectedPoint(bone) && r.value.name == bone.name
    ensures r.Success? && view.resolutionX >= 0 && view.resolutionY >= 0 ==>
      0 <= r.value.pixel.x <= view.resolutionX && 0 <= r.value.pixel.y <= view.resolutionY
    ensures r.Success? ==>
      var p := ExactPixel(view, bone);
      if OutOfFrame(p.0, p.1, view.resolutionX, view.resolutionY) then r.value.pixel == Pixel(0, 0)
      else p.0 - 0.5 <= r.value.pixel.x as real <= p.0 + 0.5 && p.1 - 0.5 <= r.value.pixel.y as real <= p.1 + 0.5
  {
    if view.render.y == 0 then Failure(ZeroDivisionError)
    else if Clip(view, SelectedPoint(bone)).w == 0.0 then Failure(ZeroDivisionError)
    else
      var p := ExactPixel(view, bone);
      var (cx, cy) := if OutOfFrame(p.0, p.1, view.resolutionX, view.resolutionY) then (0.0, 0.0) else p;
      Success(Coordinates(Pixel(RoundHalfEven(cx), RoundHalfEven(cy)), SelectedPoint(bone), bone.name))
  }

  /** Line 289's test `0 in coordinates2d`. */
  predicate HasZero(p: Pixel) {
    p.x == 0 || p.y == 0
  }

  /** A bone outside the image always reports a zero, so the frame loop
      stops at it. */
  lemma OutOfFrameReportsZero(view: View, bone: PoseBone)
    requires GetCoordinates(view, bone).Success?
    requires var p := ExactPixel(view, bone); OutOfFrame(p.0, p.1, view.resolutionX, view.resolutionY)
    ensures HasZero(GetCoordinates(view, bone).value.pixel)
  {
  }

  /** The (0, 0) sentinel collides with the image's first column: a bone
      exactly on the left edge (normalised x = -1) and within the image's
      height is inside the image, is kept by the test of line 222, and still
      reports x = 0, so the frame loop stops there as if it were outside. */
  lemma LeftEdgeCollidesWithSentinel(view: View, bone: PoseBone)
    requires view.render.x > 0 && view.render.y > 0
    requires view.resolutionX == view.render.x && view.resolutionY == view.render.y
    requires var c := Clip(view, SelectedPoint(bone)); c.w != 0.0 && c.x == -c.w && -1.0 <= c.y / c.w <= 1.0
    ensures !OutOfFrame(ExactPixel(view, bone).0, ExactPixel(view, bone).1, view.resolutionX, view.resolutionY)
    ensures GetCoordinates(view, bone).Success?
    ensures GetCoordinates(view, bone).value.pixel.x == 0
    ensures HasZero(GetCoordinates(view, bone).value.pixel)
  {
    var c := Clip(view, SelectedPoint(bone));
    NegatedSelfQuotient(c.w);
    var ndcY := c.y / c.w;
    InFrameIffNdcInSquare(-1.0, ndcY, view.render.x, view.render.y);
    var r := GetCoordinates(view, bone);
    assert ExactPixel(view, bone).0 == 0.0;
    NearestWhole(r.value.pixel.x, 0);
  }

  lemma NegatedSelfQuotient(w: real)
    requires w != 0.0
    ensures -w / w == -1.0
  {
  }

  /** A point on the optical axis (clip x = y = 0) lands on the image centre. */
  lemma OpticalAxisMapsToCentre(view: View, bone: PoseBone)
    requires view.render.x > 0 && view.render.y > 0
    requires view.resolutionX == view.render.x && view.resolutionY == view.render.y
    requires var c := Clip(view, SelectedPoint(bone)); c.w != 0.0 && c.x == 0.0 && c.y == 0.0
    ensures GetCoordinates(view, bone).Success?
    ensures GetCoordinates(view, bone).value.pixel ==
      Pixel(RoundHalfEven(view.render.x as real / 2.0), RoundHalfEven(view.render.y as real / 2.0))
  {
    var c := Clip(view, SelectedPoint(bone));
    assert c.x / c.w == 0.0 && c.y / c.w == 0.0;
    var p := ExactPixel(view, bone);
    assert p == (view.render.x as real / 2.0, view.render.y as real / 2.0);
    assert !OutOfFrame(p.0, p.1, view.resolutionX, view.resolutionY);
  }

  /** A camera at the origin looking down -z, and a perspective projection
      whose `w` is the depth in front of it. */
  const AxisView: View := View(
    Mat4(Vec4(1.0, 0.0, 0.0, 0.0), Vec4(0.0, 1.0, 0.0, 0.0), Vec4(0.0, 0.0, 1.0, 0.0), Vec4(0.0, 0.0, 0.0, 1.0)),
    Mat4(Vec4(1.0, 0.0, 0.0, 0.0), Vec4(0.0, 1.0, 0.0, 0.0), Vec4(0.0, 0.0, -1.0, -0.2), Vec4(0.0, 0.0, -1.0, 0.0)),
    Resolution(100, 100), 100, 100)

  /** The perspective division accepts any non-zero `w`, including a
      negative one: a bone behind the camera is not rejected, and is recorded
      at the pixel of its mirror image through the camera, with no zero in
      it, so the frame loop keeps it. */
  lemma BehindCameraIsRecorded()
    ensures var behind := PoseBone("Head", Vec3(0.0, 0.0, 0.0), Vec3(0.5, 0.5, 1.0));
      var mirrored := PoseBone("Head", Vec3(0.0, 0.0, 0.0), Vec3(-0.5, -0.5, -1.0));
      && TransformPoint(AxisView.camInverse, SelectedPoint(behind)).z > 0.0
      && Clip(AxisView, SelectedPoint(behind)).w < 0.0
      && Clip(AxisView, SelectedPoint(mirrored)).w > 0.0
      && GetCoordinates(AxisView, behind) == Success(Coordinates(Pixel(25, 75), Vec3(0.5, 0.5, 1.0), "Head"))
      && GetCoordinates(AxisView, mirrored).Success?
      && GetCoordinates(AxisView, mirrored).value.pixel == Pixel(25, 75)
      && !HasZero(GetCoordinates(AxisView, behind).value.pixel)
  {
    var behind := PoseBone("Head", Vec3(0.0, 0.0, 0.0), Vec3(0.5, 0.5, 1.0));
    var mirrored := PoseBone("Head", Vec3(0.0, 0.0, 0.0), Vec3(-0.5, -0.5, -1.0));
    assert SelectedPoint(behind) == Vec3(0.5, 0.5, 1.0);
    assert SelectedPoint(mirrored) == Vec3(-0.5, -0.5, -1.0);
    assert Clip(AxisView, SelectedPoint(behind)) == Vec4(0.5, 0.5, -1.2, -1.0);
    assert Clip(AxisView, SelectedPoint(mirrored)) == Vec4(-0.5, -0.5, 0.8, 1.0);
    assert ExactPixel(AxisView, behind) == (25.0, 75.0);
    assert ExactPixel(AxisView, mirrored) == (25.0, 75.0);
  }
}
