/** The body of `main` for one dataset sample: for every camera placement and
    every frame of the keyframe range, the bone loop that fills a 17-slot 2D
    and 3D keypoint frame, and the lists the frames are appended to.

    The scene the loop reads is a plain input: the pose of the armature's
    bones at a frame is `posesAt(frame)`, and each camera placement is a
    `View`. The loops over frames and bones only depend on what
    `get_coordinates` returns, so they take it as a function `project`, which
    `Sample` instantiates with `GetCoordinates` for each placement. */
module FrameAssembly {
  import opened Outcomes
  import opened Geometry
  import opened JointRemap
  import opened Projection
  import Keyframes

  type Frame2D = seq<Slot<Pixel>>
  type Frame3D = seq<Slot<Vec3>>

  /** `get_coordinates(scene, camera, bone, resolution_x, resolution_y)` for
      the current camera placement, as the bone loop calls it. */
  type Projector = PoseBone -> Result<Coordinates>

  /** `[0 for _ in range(17)]`. */
  function Zeros<T>(): (f: seq<Slot<T>>)
    ensures |f| == NumSlots && forall s :: 0 <= s < NumSlots ==> f[s] == Zero
  {
    seq(NumSlots, _ => Zero)
  }

  /** A bone the loop gets past: it projects, neither rounded coordinate is
      0, and its name has a slot. */
  predicate Proceeds(project: Projector, bone: PoseBone) {
    var c := project(bone);
    c.Success? && !HasZero(c.value.pixel) && c.value.name in BoneMapping
  }

  /** The index at which the bone loop leaves, by `break`, by an exception,
      or by running out of bones. */
  function FirstStop(project: Projector, bones: seq<PoseBone>, i: nat): (k: nat)
    requires i <= |bones|
    ensures i <= k <= |bones|
    ensures forall j :: i <= j < k ==> Proceeds(project, bones[j])
    ensures k < |bones| ==> !Proceeds(project, bones[k])
    decreases |bones| - i
  {
    if i == |bones| || !Proceeds(project, bones[i]) then i else FirstStop(project, bones, i + 1)
  }

  /** The slot `sort_keypoints` writes a bone's values to; the loop only
      sorts bones that proceed, for which this is the slot of their name. */
  function SlotOfBone(project: Projector, bone: PoseBone): (s: nat)
    ensures s < NumSlots
    ensures Proceeds(project, bone) ==> s == SlotOf(project(bone).value.name).value
  {
    var c := project(bone);
    if c.Success? && c.value.name in BoneMapping then SlotOf(c.value.name).value else 0
  }

  /** Slot, pixel and world point of each bone, as the bone loop sorts them. */
  function Slots(project: Projector): PoseBone -> nat {
    bone => SlotOfBone(project, bone)
  }

  function Pixels(project: Projector): PoseBone -> Pixel {
    bone => if project(bone).Success? then project(bone).value.pixel else Pixel(0, 0)
  }

  function Worlds(project: Projector): PoseBone -> Vec3 {
    bone => if project(bone).Success? then project(bone).value.world else Vec3(0.0, 0.0, 0.0)
  }

  /** A keypoint list after the bones `bones` are sorted in order into 17
      zeros, each bone writing `value(bone)` into slot `slot(bone)`. */
  function Fill<T>(bones: seq<PoseBone>, slot: PoseBone -> nat, value: PoseBone -> T): (f: seq<Slot<T>>)
    requires forall bone :: slot(bone) < NumSlots
    ensures |f| == NumSlots
  {
    if bones == [] then Zeros()
    else
      var last := bones[|bones| - 1];
      Fill(bones[..|bones| - 1], slot, value)[slot(last) := Value(value(last))]
  }

  /** What lines 284-292 leave in `keypoint_2d` and `keypoint_3d`, or the
      exception they raise. */
  function AssembleFrameSpec(project: Projector, bones: seq<PoseBone>): Result<(Frame2D, Frame3D)> {
    var k := FirstStop(project, bones, 0);
    if k < |bones| && project(bones[k]).Failure? then
      Failure(project(bones[k]).error)
    else if k < |bones| && !HasZero(project(bones[k]).value.pixel) then
      Failure(KeyError(project(bones[k]).value.name))
    else
      Success((Fill(bones[..k], Slots(project), Pixels(project)), Fill(bones[..k], Slots(project), Worlds(project))))
  }

  /** Lines 284-292: start from 17 zeros, and for each bone in order project
      it, stop at the first one with a zero coordinate, and sort its 2D and
      3D values into their slot. */
  method AssembleFrame(project: Projector, bones: seq<PoseBone>) returns (r: Result<(Frame2D, Frame3D)>)
    ensures r == AssembleFrameSpec(project, bones)
  {
    var keypoint2d := new Slot<Pixel>[NumSlots](_ => Zero);
    var keypoint3d := new Slot<Vec3>[NumSlots](_ => Zero);
    assert keypoint2d[..] == Zeros() && keypoint3d[..] == Zeros();
    var i := 0;
    while i < |bones|
      invariant 0 <= i <= |bones|
      invariant forall j :: 0 <= j < i ==> Proceeds(project, bones[j])
      invariant keypoint2d[..] == Fill(bones[..i], Slots(project), Pixels(project))
      invariant keypoint3d[..] == Fill(bones[..i], Slots(project), Worlds(project))
    {
      var c := project(bones[i]);
      if c.Failure? {
        SpecAtStop(project, bones, i);
        return Failure(c.error);
      }
      if HasZero(c.value.pixel) {
        break;
      }
      var o := SortKeypoints(c.value.pixel, c.value.name, keypoint2d);
      if o.Fail? {
        SpecAtStop(project, bones, i);
        return Failure(o.error);
      }
      o := SortKeypoints(c.value.world, c.value.name, keypoint3d);
      assert Slots(project)(bones[i]) == SlotOf(c.value.name).value;
      FillStep(bones, i, Slots(project), Pixels(project));
      FillStep(bones, i, Slots(project), Worlds(project));
      i := i + 1;
    }
    SpecAtStop(project, bones, i);
    r := Success((keypoint2d[..], keypoint3d[..]));
  }

  /** The frame specification once the loop has stopped at bone `i`. */
  lemma SpecAtStop(project: Projector, bones: seq<PoseBone>, i: nat)
    requires i <= |bones| && forall j :: 0 <= j < i ==> Proceeds(project, bones[j])
    requires i == |bones| || !Proceeds(project, bones[i])
    ensures AssembleFrameSpec(project, bones) ==
      if i < |bones| && project(bones[i]).Failure? then Failure(project(bones[i]).error)
      else if i < |bones| && !HasZero(project(bones[i]).value.pixel) then Failure(KeyError(project(bones[i]).value.name))
      else Success((Fill(bones[..i], Slots(project), Pixels(project)), Fill(bones[..i], Slots(project), Worlds(project))))
  {
    var k := FirstStop(project, bones, 0);
    assert k == i;
  }

  /** Sorting one more bone writes its value into its slot. */
  lemma FillStep<T>(bones: seq<PoseBone>, i: nat, slot: PoseBone -> nat, value: PoseBone -> T)
    requires forall bone :: slot(bone) < NumSlots
    requires i < |bones|
    ensures Fill(bones[..i + 1], slot, value) == Fill(bones[..i], slot, value)[slot(bones[i]) := Value(value(bones[i]))]
  {
    assert bones[..i + 1][..i] == bones[..i];
  }

  /** Bone names of an armature are unique. */
  predicate DistinctNames(bones: seq<PoseBone>) {
    forall i, j :: 0 <= i < j < |bones| ==> bones[i].name != bones[j].name
  }

  /** The name `get_coordinates` reports is the bone's own. */
  predicate ReportsOwnNames(project: Projector, bones: seq<PoseBone>) {
    forall j :: 0 <= j < |bones| && project(bones[j]).Success? ==> project(bones[j]).value.name == bones[j].name
  }

  /** A slot of a filled list is still 0 exactly when no bone writes it. */
  lemma {:induction false} FillZeroIffUnwritten<T>(bones: seq<PoseBone>, slot: PoseBone -> nat, value: PoseBone -> T, s: nat)
    requires forall bone :: slot(bone) < NumSlots
    requires s < NumSlots
    ensures Fill(bones, slot, value)[s].Zero? <==> forall j :: 0 <= j < |bones| ==> slot(bones[j]) != s
  {
    if bones != [] {
      var n := |bones| - 1;
      var init := bones[..n];
      FillZeroIffUnwritten(init, slot, value, s);
      assert forall j :: 0 <= j < n ==> init[j] == bones[j];
    }
  }

  /** The last write to a slot wins: a bone's slot holds its value unless a
      later bone writes the same slot. */
  lemma {:induction false} FillHoldsLastWrite<T>(bones: seq<PoseBone>, slot: PoseBone -> nat, value: PoseBone -> T, j: nat)
    requires forall bone :: slot(bone) < NumSlots
    requires j < |bones| && forall k :: j < k < |bones| ==> slot(bones[k]) != slot(bones[j])
    ensures Fill(bones, slot, value)[slot(bones[j])] == Value(value(bones[j]))
  {
    var n := |bones| - 1;
    if j < n {
      var init := bones[..n];
      assert init[j] == bones[j];
      assert forall k :: j < k < n ==> init[k] == bones[k];
      FillHoldsLastWrite(init, slot, value, j);
    }
  }

  /** Bones with distinct names that proceed, named as they are, write
      distinct slots. */
  lemma DistinctSlots(project: Projector, bones: seq<PoseBone>)
    requires forall j :: 0 <= j < |bones| ==> Proceeds(project, bones[j])
    requires DistinctNames(bones) && ReportsOwnNames(project, bones)
    ensures forall i, k :: 0 <= i < k < |bones| ==> SlotOfBone(project, bones[i]) != SlotOfBone(project, bones[k])
  {
    forall i, k | 0 <= i < k < |bones|
      ensures SlotOfBone(project, bones[i]) != SlotOfBone(project, bones[k])
    {
      SlotsDiffer(bones[i].name, bones[k].name);
    }
  }

  /** The frame the bone loop assembles: every bone before the first one with
      a zero coordinate has its pixel and world point in its slot; that bone
      and every later mapped bone leave their slot at 0. */
  lemma FrameStopsAtFirstZero(project: Projector, bones: seq<PoseBone>)
    requires DistinctNames(bones) && ReportsOwnNames(project, bones)
    requires AssembleFrameSpec(project, bones).Success?
    ensures var k := FirstStop(project, bones, 0);
      var f2 := AssembleFrameSpec(project, bones).value.0;
      var f3 := AssembleFrameSpec(project, bones).value.1;
      && |f2| == NumSlots && |f3| == NumSlots
      && (k < |bones| ==> HasZero(project(bones[k]).value.pixel))
      && (forall j :: 0 <= j < k ==>
            f2[SlotOfBone(project, bones[j])] == Value(project(bones[j]).value.pixel)
            && f3[SlotOfBone(project, bones[j])] == Value(project(bones[j]).value.world))
      && (forall j :: k <= j < |bones| && bones[j].name in BoneMapping ==>
            f2[SlotOf(bones[j].name).value] == Zero && f3[SlotOf(bones[j].name).value] == Zero)
  {
    var k := FirstStop(project, bones, 0);
    var done := bones[..k];
    PrefixKeepsNames(project, bones, k);
    DistinctSlots(project, done);
    forall j | 0 <= j < k
      ensures Fill(done, Slots(project), Pixels(project))[SlotOfBone(project, bones[j])] == Value(project(bones[j]).value.pixel)
      ensures Fill(done, Slots(project), Worlds(project))[SlotOfBone(project, bones[j])] == Value(project(bones[j]).value.world)
    {
      assert done[j] == bones[j];
      FillHoldsLastWrite(done, Slots(project), Pixels(project), j);
      FillHoldsLastWrite(done, Slots(project), Worlds(project), j);
    }
    forall j | k <= j < |bones| && bones[j].name in BoneMapping
      ensures Fill(done, Slots(project), Pixels(project))[SlotOf(bones[j].name).value] == Zero
      ensures Fill(done, Slots(project), Worlds(project))[SlotOf(bones[j].name).value] == Zero
    {
      LaterSlotStaysZero(project, done, bones[j].name);
    }
  }

  /** Unique names, and names reported as they are, hold for a prefix. */
  lemma PrefixKeepsNames(project: Projector, bones: seq<PoseBone>, k: nat)
    requires k <= |bones| && DistinctNames(bones) && ReportsOwnNames(project, bones)
    ensures DistinctNames(bones[..k]) && ReportsOwnNames(project, bones[..k])
  {
    var done := bones[..k];
    forall i, j | 0 <= i < j < k
      ensures done[i].name != done[j].name
    {
      assert done[i] == bones[i] && done[j] == bones[j];
    }
    forall j | 0 <= j < k && project(done[j]).Success?
      ensures project(done[j]).value.name == done[j].name
    {
      assert done[j] == bones[j];
    }
  }

  /** A mapped name that no sorted bone carries keeps its slot at 0. */
  lemma LaterSlotStaysZero(project: Projector, done: seq<PoseBone>, name: string)
    requires forall i :: 0 <= i < |done| ==> Proceeds(project, done[i])
    requires ReportsOwnNames(project, done)
    requires name in BoneMapping && forall i :: 0 <= i < |done| ==> done[i].name != name
    ensures Fill(done, Slots(project), Pixels(project))[SlotOf(name).value] == Zero
    ensures Fill(done, Slots(project), Worlds(project))[SlotOf(name).value] == Zero
  {
    var s := SlotOf(name).value;
    forall i | 0 <= i < |done|
      ensures Slots(project)(done[i]) != s
    {
      SlotsDiffer(done[i].name, name);
    }
    FillZeroIffUnwritten(done, Slots(project), Pixels(project), s);
    FillZeroIffUnwritten(done, Slots(project), Worlds(project), s);
  }

  /** What the bone loop gives at each frame for one camera placement: the
      two keypoint frames, or the exception. */
  type FrameSource = int -> Result<(Frame2D, Frame3D)>

  /** Lines 284-292 at every frame, with the armature posed at that frame. */
  function FramesOf(project: Projector, posesAt: int -> seq<PoseBone>): FrameSource {
    frame => AssembleFrameSpec(project, posesAt(frame))
  }

  /** The frames of `frames` consecutive frames from `start` for one
      camera placement: one 2D and one 3D frame per frame, or the first
      exception. */
  function FramesUpTo(frameAt: FrameSource, start: int, frames: nat)
    : (r: Result<(seq<Frame2D>, seq<Frame3D>)>)
    ensures r.Success? ==> |r.value.0| == frames && |r.value.1| == frames
  {
    if frames == 0 then Success(([], []))
    else
      var prev :- FramesUpTo(frameAt, start, frames - 1);
      var frame :- frameAt(start + frames - 1);
      Success((prev.0 + [frame.0], prev.1 + [frame.1]))
  }

  /** The run of frames succeeds exactly when every frame does; then its
      `i`-th 2D and 3D frames are those of frame `start + i`, and otherwise
      its exception is that of the first frame that fails. */
  lemma {:induction false} FramesUpToRecordsEachFrame(frameAt: FrameSource, start: int, frames: nat)
    ensures FramesUpTo(frameAt, start, frames).Success? <==>
      forall f :: start <= f < start + frames ==> frameAt(f).Success?
    ensures var r := FramesUpTo(frameAt, start, frames);
      r.Success? ==> forall f :: start <= f < start + frames ==>
        frameAt(f) == Success((r.value.0[f - start], r.value.1[f - start]))
    ensures var r := FramesUpTo(frameAt, start, frames);
      r.Failure? ==> exists f :: (start <= f < start + frames
        && frameAt(f) == Failure(r.error)
        && forall g :: start <= g < f ==> frameAt(g).Success?)
  {
    if frames > 0 {
      FramesUpToRecordsEachFrame(frameAt, start, frames - 1);
      var prev := FramesUpTo(frameAt, start, frames - 1);
      var last := start + frames - 1;
      if prev.Success? && frameAt(last).Success? {
        var r := FramesUpTo(frameAt, start, frames);
        forall f | start <= f < start + frames
          ensures frameAt(f) == Success((r.value.0[f - start], r.value.1[f - start]))
        {
          if f < last {
            assert r.value.0[f - start] == prev.value.0[f - start];
            assert r.value.1[f - start] == prev.value.1[f - start];
          }
        }
      }
    }
  }

  /** The same frames as the code at line 295 records them: the 2D frame is
      appended to both lists. */
  function FramesUpToAsWritten(frameAt: FrameSource, start: int, frames: nat)
    : (r: Result<(seq<Frame2D>, seq<Frame2D>)>)
  {
    if frames == 0 then Success(([], []))
    else
      var prev :- FramesUpToAsWritten(frameAt, start, frames - 1);
      var frame :- frameAt(start + frames - 1);
      Success((prev.0 + [frame.0], prev.1 + [frame.0]))
  }

  /** As written, `keypoints_3d` receives the 2D frames: it equals
      `keypoints_2d`, which is that of the intended loop, and the run
      fails exactly when and as the intended loop does. */
  lemma {:induction false} AsWrittenThreeDListRepeatsPixels(frameAt: FrameSource, start: int, frames: nat)
    ensures FramesUpToAsWritten(frameAt, start, frames).Success? <==>
      FramesUpTo(frameAt, start, frames).Success?
    ensures FramesUpToAsWritten(frameAt, start, frames).Success? ==>
      && FramesUpToAsWritten(frameAt, start, frames).value.1 ==
         FramesUpToAsWritten(frameAt, start, frames).value.0
      && FramesUpToAsWritten(frameAt, start, frames).value.0 ==
         FramesUpTo(frameAt, start, frames).value.0
    ensures FramesUpToAsWritten(frameAt, start, frames).Failure? ==>
      FramesUpToAsWritten(frameAt, start, frames).error == FramesUpTo(frameAt, start, frames).error
  {
    if frames > 0 {
      AsWrittenThreeDListRepeatsPixels(frameAt, start, frames - 1);
    }
  }


  /** Once a frame fails, every longer run of frames fails the same way. */
  lemma {:induction false} FailureSticks(frameAt: FrameSource, start: int, n: nat, m: nat)
    requires n <= m && FramesUpTo(frameAt, start, n).Failure?
    ensures FramesUpTo(frameAt, start, m) == FramesUpTo(frameAt, start, n)
    ensures FramesUpToAsWritten(frameAt, start, m) == FramesUpToAsWritten(frameAt, start, n)
    decreases m - n
  {
    AsWrittenThreeDListRepeatsPixels(frameAt, start, n);
    if n < m {
      FailureSticks(frameAt, start, n, m - 1);
    }
  }

  /** Lines 278-295 as written, appending to the lists `keypoints2d` and
      `keypoints3d` built so far. */
  method FrameLoopAsWritten(project: Projector, posesAt: int -> seq<PoseBone>, startFrame: int, endFrame: int,
                            keypoints2d: seq<Frame2D>, keypoints3d: seq<Frame2D>)
    returns (r: Result<(seq<Frame2D>, seq<Frame2D>)>)
    requires startFrame <= endFrame
    ensures var spec := FramesUpToAsWritten(FramesOf(project, posesAt), startFrame, endFrame - startFrame + 1);
      r == if spec.Success? then Success((keypoints2d + spec.value.0, keypoints3d + spec.value.1))
           else Failure(spec.error)
  {
    ghost var source := FramesOf(project, posesAt);
    var out2d, out3d := keypoints2d, keypoints3d;
    var frame, done := startFrame, 0;
    while frame < endFrame + 1
      invariant startFrame <= frame <= endFrame + 1 && frame == startFrame + done
      invariant Appended(FramesUpToAsWritten(source, startFrame, done), keypoints2d, keypoints3d, out2d, out3d)
    {
      var f := AssembleFrame(project, posesAt(frame));
      assert f == source(startFrame + done);
      if f.Failure? {
        RunFailure(source, startFrame, done, endFrame - startFrame + 1, f.error);
        return Failure(f.error);
      }
      AsWrittenRunStep(source, startFrame, done, f.value, keypoints2d, keypoints3d, out2d, out3d);
      out2d := out2d + [f.value.0];
      out3d := out3d + [f.value.0];
      frame, done := frame + 1, done + 1;
    }
    AppendedRun(FramesUpToAsWritten(source, startFrame, done), keypoints2d, keypoints3d, out2d, out3d);
    r := Success((out2d, out3d));
  }

  /** Lines 278-295 with `keypoint_3d` appended to `keypoints_3d`. */
  method FrameLoop(project: Projector, posesAt: int -> seq<PoseBone>, startFrame: int, endFrame: int,
                   keypoints2d: seq<Frame2D>, keypoints3d: seq<Frame3D>)
    returns (r: Result<(seq<Frame2D>, seq<Frame3D>)>)
    requires startFrame <= endFrame
    ensures var spec := FramesUpTo(FramesOf(project, posesAt), startFrame, endFrame - startFrame + 1);
      r == if spec.Success? then Success((keypoints2d + spec.value.0, keypoints3d + spec.value.1))
           else Failure(spec.error)
  {
    ghost var source := FramesOf(project, posesAt);
    var out2d, out3d := keypoints2d, keypoints3d;
    var frame, done := startFrame, 0;
    while frame < endFrame + 1
      invariant startFrame <= frame <= endFrame + 1 && frame == startFrame + done
      invariant Appended(FramesUpTo(source, startFrame, done), keypoints2d, keypoints3d, out2d, out3d)
    {
      var f := AssembleFrame(project, posesAt(frame));
      assert f == source(startFrame + done);
      if f.Failure? {
        RunFailure(source, startFrame, done, endFrame - startFrame + 1, f.error);
        return Failure(f.error);
      }
      RunStep(source, startFrame, done, f.value, keypoints2d, keypoints3d, out2d, out3d);
      out2d := out2d + [f.value.0];
      out3d := out3d + [f.value.1];
      frame, done := frame + 1, done + 1;
    }
    AppendedRun(FramesUpTo(source, startFrame, done), keypoints2d, keypoints3d, out2d, out3d);
    r := Success((out2d, out3d));
  }

  /** The lists hold `base2d` and `base3d` followed by the run `run`. */
  predicate Appended<T(==), U(==)>(run: Result<(seq<T>, seq<U>)>, base2d: seq<T>, base3d: seq<U>, out2d: seq<T>, out3d: seq<U>) {
    run.Success? && out2d == base2d + run.value.0 && out3d == base3d + run.value.1
  }

  /** Lists that hold a successful run appended are what the loop returns. */
  lemma AppendedRun<T, U>(run: Result<(seq<T>, seq<U>)>, base2d: seq<T>, base3d: seq<U>, out2d: seq<T>, out3d: seq<U>)
    requires Appended(run, base2d, base3d, out2d, out3d)
    ensures run.Success? && (out2d, out3d) == (base2d + run.value.0, base3d + run.value.1)
  {
  }

  /** Appending one more frame to the lists extends the run by that frame. */
  lemma RunStep(frameAt: FrameSource, start: int, n: nat, frame: (Frame2D, Frame3D),
                base2d: seq<Frame2D>, base3d: seq<Frame3D>, out2d: seq<Frame2D>, out3d: seq<Frame3D>)
    requires frameAt(start + n) == Success(frame)
    requires Appended(FramesUpTo(frameAt, start, n), base2d, base3d, out2d, out3d)
    ensures Appended(FramesUpTo(frameAt, start, n + 1), base2d, base3d, out2d + [frame.0], out3d + [frame.1])
  {
  }

  /** The same step for the loop as written, which appends the 2D frame
      twice. */
  lemma AsWrittenRunStep(frameAt: FrameSource, start: int, n: nat, frame: (Frame2D, Frame3D),
                         base2d: seq<Frame2D>, base3d: seq<Frame2D>, out2d: seq<Frame2D>, out3d: seq<Frame2D>)
    requires frameAt(start + n) == Success(frame)
    requires Appended(FramesUpToAsWritten(frameAt, start, n), base2d, base3d, out2d, out3d)
    ensures Appended(FramesUpToAsWritten(frameAt, start, n + 1), base2d, base3d, out2d + [frame.0], out3d + [frame.0])
  {
  }

  /** A frame that raises ends the run of `m` frames with its exception. */
  lemma RunFailure(frameAt: FrameSource, start: int, n: nat, m: nat, e: Error)
    requires n < m && frameAt(start + n) == Failure(e)
    ensures FramesUpTo(frameAt, start, n).Success? ==> FramesUpTo(frameAt, start, m) == Failure(e)
    ensures FramesUpToAsWritten(frameAt, start, n).Success? ==> FramesUpToAsWritten(frameAt, start, m) == Failure(e)
  {
    AsWrittenThreeDListRepeatsPixels(frameAt, start, n);
    FailureSticks(frameAt, start, n + 1, m);
  }

  /** `get_coordinates` for one camera placement. */
  function Project(view: View): Projector {
    bone => GetCoordinates(view, bone)
  }

  /** The lists `keypoints_2d` and `keypoints_3d` after the frames of every
      placement in `views`, one placement after the other; `posesAt` is the
      armature's bones at a frame, `None` when the scene has no armature and
      `armature.pose.bones` raises `AttributeError`. */
  function ViewsUpTo(armature: Option<int -> seq<PoseBone>>, views: seq<View>, startFrame: int, endFrame: int)
    : (r: Result<(seq<Frame2D>, seq<Frame3D>)>)
    requires startFrame <= endFrame
  {
    if armature.None? then (if views == [] then Success(([], [])) else Failure(AttributeError))
    else RunsOf(RunOf(armature.value, startFrame, endFrame), views)
  }

  /** What one camera placement contributes: its run of frames, or the
      exception that ends it. */
  type ViewRun = View -> Result<(seq<Frame2D>, seq<Frame3D>)>

  function RunOf(posesAt: int -> seq<PoseBone>, startFrame: int, endFrame: int): ViewRun
    requires startFrame <= endFrame
  {
    view => FramesUpTo(FramesOf(Project(view), posesAt), startFrame, endFrame - startFrame + 1)
  }

  /** The runs of the placements `views` appended one after the other, or
      the exception of the first placement that raises. */
  function RunsOf(run: ViewRun, views: seq<View>): Result<(seq<Frame2D>, seq<Frame3D>)>
  {
    if views == [] then Success(([], []))
    else
      var prev :- RunsOf(run, views[..|views| - 1]);
      var cur :- run(views[|views| - 1]);
      Success((prev.0 + cur.0, prev.1 + cur.1))
  }

  /** Every placement contributes one 2D and one 3D frame per frame of the
      range, in order: the block of placement `v` is that placement's run
      of frames. */
  lemma ViewsUpToLayout(
    armature: Option<int -> seq<PoseBone>>, views: seq<View>, startFrame: int, endFrame: int)
    requires startFrame <= endFrame
    ensures var n := endFrame - startFrame + 1;
      var r := ViewsUpTo(armature, views, startFrame, endFrame);
      r.Success? ==>
        && |r.value.0| == |views| * n && |r.value.1| == |views| * n
        && (views != [] ==> armature.Some?)
        && forall v :: 0 <= v < |views| ==> (
             BlockBounds(v, |views| - 1, n);
             && RunOf(armature.value, startFrame, endFrame)(views[v]).Success?
             && r.value.0[v * n..(v + 1) * n] == RunOf(armature.value, startFrame, endFrame)(views[v]).value.0
             && r.value.1[v * n..(v + 1) * n] == RunOf(armature.value, startFrame, endFrame)(views[v]).value.1)
  {
    if armature.Some? {
      RunsLayout(RunOf(armature.value, startFrame, endFrame), views, endFrame - startFrame + 1);
    }
  }

  /** The layout of concatenated runs that each hold `n` frames. */
  lemma {:induction false} RunsLayout(run: ViewRun, views: seq<View>, n: nat)
    requires forall view :: run(view).Success? ==> |run(view).value.0| == n && |run(view).value.1| == n
    ensures var r := RunsOf(run, views);
      r.Success? ==>
        && |r.value.0| == |views| * n && |r.value.1| == |views| * n
        && forall v :: 0 <= v < |views| ==> (
             BlockBounds(v, |views| - 1, n);
             && run(views[v]).Success?
             && r.value.0[v * n..(v + 1) * n] == run(views[v]).value.0
             && r.value.1[v * n..(v + 1) * n] == run(views[v]).value.1)
  {
    var r := RunsOf(run, views);
    if views != [] && r.Success? {
      var m := |views| - 1;
      var init := views[..m];
      RunsLayout(run, init, n);
      var prev := RunsOf(run, init).value;
      var cur := run(views[m]).value;
      assert r.value == (prev.0 + cur.0, prev.1 + cur.1);
      BlockBounds(m, m, n);
      forall v | 0 <= v < |views|
        ensures run(views[v]).Success?
        ensures (BlockBounds(v, m, n); r.value.0[v * n..(v + 1) * n] == run(views[v]).value.0)
        ensures (BlockBounds(v, m, n); r.value.1[v * n..(v + 1) * n] == run(views[v]).value.1)
      {
        BlockOfConcat(prev.0, cur.0, v, m, n);
        BlockOfConcat(prev.1, cur.1, v, m, n);
        if v < m {
          assert init[v] == views[v];
        }
      }
    }
  }

  /** Block `v` of `a + b`, for `m` blocks of length `n` in `a` and one in
      `b`. */
  lemma BlockOfConcat<T>(a: seq<T>, b: seq<T>, v: nat, m: nat, n: nat)
    requires |a| == m * n && |b| == n && v <= m
    ensures (BlockBounds(v, m, n); (v + 1) * n <= |a + b|)
    ensures (BlockBounds(v, m, n); v < m ==> (a + b)[v * n..(v + 1) * n] == a[v * n..(v + 1) * n])
    ensures (BlockBounds(v, m, n); v == m ==> (a + b)[v * n..(v + 1) * n] == b)
  {
    BlockBounds(v, m, n);
    if v == m {
      assert (a + b)[v * n..(v + 1) * n] == (a + b)[|a|..|a| + |b|];
    }
  }

  /** Block `v` of `m + 1` blocks of length `n` lies inside the first `m`
      blocks, or is the last one. */
  lemma BlockBounds(v: nat, m: nat, n: nat)
    requires v <= m
    ensures 0 <= v * n <= (v + 1) * n <= (m + 1) * n
    ensures v < m ==> (v + 1) * n <= m * n
    ensures v == m ==> v * n == m * n && (v + 1) * n == m * n + n
  {
  }

  /** A failing prefix of placements decides the whole sample. */
  lemma ViewFailureSticks(
    armature: Option<int -> seq<PoseBone>>, views: seq<View>, startFrame: int, endFrame: int, k: nat)
    requires startFrame <= endFrame && k <= |views|
    requires ViewsUpTo(armature, views[..k], startFrame, endFrame).Failure?
    ensures ViewsUpTo(armature, views, startFrame, endFrame) == ViewsUpTo(armature, views[..k], startFrame, endFrame)
  {
    if armature.Some? {
      RunsFailureSticks(RunOf(armature.value, startFrame, endFrame), views, k);
    }
  }

  /** One more placement appends its run of frames, or ends the sample
      with its exception. */
  lemma ViewStep(posesAt: int -> seq<PoseBone>, views: seq<View>, startFrame: int, endFrame: int, v: nat)
    requires startFrame <= endFrame && v < |views|
    requires ViewsUpTo(Some(posesAt), views[..v], startFrame, endFrame).Success?
    ensures var prev := ViewsUpTo(Some(posesAt), views[..v], startFrame, endFrame).value;
      var cur := FramesUpTo(FramesOf(Project(views[v]), posesAt), startFrame, endFrame - startFrame + 1);
      ViewsUpTo(Some(posesAt), views[..v + 1], startFrame, endFrame) ==
        if cur.Success? then Success((prev.0 + cur.value.0, prev.1 + cur.value.1)) else Failure(cur.error)
  {
    assert views[..v + 1][..v] == views[..v];
  }

  /** Once a prefix of the runs raises, further placements change nothing. */
  lemma {:induction false} RunsFailureSticks(run: ViewRun, views: seq<View>, k: nat)
    requires k <= |views| && RunsOf(run, views[..k]).Failure?
    ensures RunsOf(run, views) == RunsOf(run, views[..k])
    decreases |views|
  {
    if k == |views| {
      assert views[..k] == views;
    } else {
      var init := views[..|views| - 1];
      assert init[..k] == views[..k];
      RunsFailureSticks(run, init, k);
    }
  }

  /** `lo` and `hi` are the least and the greatest element of `s`. */
  predicate IsMinMax(s: set<int>, lo: int, hi: int) {
    lo in s && hi in s && forall k :: k in s ==> lo <= k <= hi
  }

  /** The least and greatest element of a set are unique. */
  lemma MinMaxUnique(s: set<int>, lo: int, hi: int, lo2: int, hi2: int)
    requires IsMinMax(s, lo, hi) && IsMinMax(s, lo2, hi2)
    ensures lo == lo2 && hi == hi2
  {
  }

  /** One sample of `main` (lines 268-295), with the camera placement
      returning the three values `setup_camera` has: the keyframe range of
      the scene, then for each placement its run of frames appended to
      `keypoints_2d` and `keypoints_3d`. */
  method Sample(objects: seq<Keyframes.AnimatedObject>, armature: Option<int -> seq<PoseBone>>, views: seq<View>)
    returns (r: Result<(seq<Frame2D>, seq<Frame3D>)>)
    ensures Keyframes.SceneFrames(objects) == {} ==> r == Failure(ValueError)
    ensures forall lo, hi :: IsMinMax(Keyframes.SceneFrames(objects), lo, hi) ==>
      r == ViewsUpTo(armature, views, lo, hi)
  {
    var range := Keyframes.GetKeyframeRange(objects);
    if range.Failure? {
      return Failure(range.error);
    }
    var (startFrame, endFrame) := range.value;
    assert IsMinMax(Keyframes.SceneFrames(objects), startFrame, endFrame);
    forall lo, hi | IsMinMax(Keyframes.SceneFrames(objects), lo, hi)
      ensures lo == startFrame && hi == endFrame
    {
      MinMaxUnique(Keyframes.SceneFrames(objects), startFrame, endFrame, lo, hi);
    }
    var keypoints2d: seq<Frame2D> := [];
    var keypoints3d: seq<Frame3D> := [];
    for v := 0 to |views|
      invariant var spec := ViewsUpTo(armature, views[..v], startFrame, endFrame);
        spec.Success? && keypoints2d == spec.value.0 && keypoints3d == spec.value.1
    {
      if armature.None? {
        ViewFailureSticks(armature, views, startFrame, endFrame, v + 1);
        return Failure(AttributeError);
      }
      var frames := FrameLoop(Project(views[v]), armature.value, startFrame, endFrame, keypoints2d, keypoints3d);
      ViewStep(armature.value, views, startFrame, endFrame, v);
      if frames.Failure? {
        ViewFailureSticks(armature, views, startFrame, endFrame, v + 1);
        return Failure(frames.error);
      }
      keypoints2d, keypoints3d := frames.value.0, frames.value.1;
    }
    assert views[..|views|] == views;
    r := Success((keypoints2d, keypoints3d));
  }

  /** One sample of `main` as written: line 276 unpacks the three values
      `setup_camera` returns into four names, which raises `ValueError` at
      the first placement, before any frame is assembled. */
  method SampleAsWritten(objects: seq<Keyframes.AnimatedObject>, vertexCount: nat)
    returns (r: Result<(seq<Frame2D>, seq<Frame2D>)>)
    ensures Keyframes.SceneFrames(objects) == {} ==> r == Failure(ValueError)
    ensures Keyframes.SceneFrames(objects) != {} ==>
      r == if vertexCount == 0 then Success(([], [])) else Failure(ValueError)
  {
    var range := Keyframes.GetKeyframeRange(objects);
    if range.Failure? {
      return Failure(range.error);
    }
    var keypoints2d: seq<Frame2D> := [];
    var keypoints3d: seq<Frame2D> := [];
    if vertexCount > 0 {
      return Failure(ValueError);
    }
    r := Success((keypoints2d, keypoints3d));
  }
}
