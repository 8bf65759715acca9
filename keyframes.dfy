/** `get_keyframe_range`: collects the integer frame of every keyframe of
    every animated object into a set and returns its minimum and maximum. */
module Keyframes {
  import opened Outcomes
  import opened Geometry

  /** An object of the scene as the function reads it: for each f-curve of its
      action, the `co[0]` (frame) of each keyframe point; `None` when the
      object has no animation data or no action. */
  datatype AnimatedObject = AnimatedObject(action: Option<seq<seq<real>>>)

  /** The frames of one f-curve's keyframe points, truncated by `int`. */
  function CurveFrames(points: seq<real>): set<int>
  {
    if points == [] then {}
    else CurveFrames(points[..|points| - 1]) + {TruncToInt(points[|points| - 1])}
  }

  /** The frames of all f-curves of one action. */
  function ActionFrames(curves: seq<seq<real>>): set<int>
  {
    if curves == [] then {}
    else ActionFrames(curves[..|curves| - 1]) + CurveFrames(curves[|curves| - 1])
  }

  /** The frames of an object; none when it is not animated. */
  function ObjectFrames(obj: AnimatedObject): set<int> {
    if obj.action.Some? then ActionFrames(obj.action.value) else {}
  }

  /** The set `keyframes` once the loops are done. */
  function SceneFrames(objects: seq<AnimatedObject>): set<int>
  {
    if objects == [] then {}
    else SceneFrames(objects[..|objects| - 1]) + ObjectFrames(objects[|objects| - 1])
  }

  /** A frame comes from an f-curve exactly when one of its points
      truncates to it. */
  lemma {:induction false} CurveFramesMembers(points: seq<real>, k: int)
    ensures k in CurveFrames(points) <==>
      exists p :: 0 <= p < |points| && TruncToInt(points[p]) == k
  {
    if points != [] {
      var last := |points| - 1;
      CurveFramesMembers(points[..last], k);
      if k in CurveFrames(points) && TruncToInt(points[last]) != k {
        var p :| 0 <= p < last && TruncToInt(points[..last][p]) == k;
        assert points[p] == points[..last][p];
      }
      if exists p :: 0 <= p < |points| && TruncToInt(points[p]) == k {
        var p :| 0 <= p < |points| && TruncToInt(points[p]) == k;
        if p < last {
          assert points[..last][p] == points[p];
        }
      }
    }
  }

  /** A frame comes from an action exactly when a point of one of its
      f-curves truncates to it. */
  lemma {:induction false} ActionFramesMembers(curves: seq<seq<real>>, k: int)
    ensures k in ActionFrames(curves) <==>
      exists c, p :: 0 <= c < |curves| && 0 <= p < |curves[c]| && TruncToInt(curves[c][p]) == k
  {
    if curves != [] {
      var last := |curves| - 1;
      ActionFramesMembers(curves[..last], k);
      CurveFramesMembers(curves[last], k);
      if k in ActionFrames(curves) && k !in CurveFrames(curves[last]) {
        var c, p :| 0 <= c < last && 0 <= p < |curves[..last][c]| && TruncToInt(curves[..last][c][p]) == k;
        assert curves[c] == curves[..last][c];
      }
      if exists c, p :: 0 <= c < |curves| && 0 <= p < |curves[c]| && TruncToInt(curves[c][p]) == k {
        var c, p :| 0 <= c < |curves| && 0 <= p < |curves[c]| && TruncToInt(curves[c][p]) == k;
        if c < last {
          assert curves[..last][c] == curves[c];
        }
      }
    }
  }

  /** A frame is collected exactly when some keyframe point of some animated
      object truncates to it. */
  lemma {:induction false} SceneFramesMembers(objects: seq<AnimatedObject>, k: int)
    ensures k in SceneFrames(objects) <==>
      exists o :: 0 <= o < |objects| && k in ObjectFrames(objects[o])
    ensures k in SceneFrames(objects) <==>
      exists o, c, p :: 0 <= o < |objects| && objects[o].action.Some? &&
        0 <= c < |objects[o].action.value| && 0 <= p < |objects[o].action.value[c]| &&
        TruncToInt(objects[o].action.value[c][p]) == k
  {
    SceneFramesObjects(objects, k);
    if k in SceneFrames(objects) {
      var o :| 0 <= o < |objects| && k in ObjectFrames(objects[o]);
      ActionFramesMembers(objects[o].action.value, k);
    }
    if exists o, c, p :: 0 <= o < |objects| && objects[o].action.Some? &&
        0 <= c < |objects[o].action.value| && 0 <= p < |objects[o].action.value[c]| &&
        TruncToInt(objects[o].action.value[c][p]) == k
    {
      var o, c, p :| 0 <= o < |objects| && objects[o].action.Some? &&
        0 <= c < |objects[o].action.value| && 0 <= p < |objects[o].action.value[c]| &&
        TruncToInt(objects[o].action.value[c][p]) == k;
      ActionFramesMembers(objects[o].action.value, k);
    }
  }

  /** A frame is collected exactly when some object contributes it. */
  lemma {:induction false} SceneFramesObjects(objects: seq<AnimatedObject>, k: int)
    ensures k in SceneFrames(objects) <==>
      exists o :: 0 <= o < |objects| && k in ObjectFrames(objects[o])
  {
    if objects != [] {
      var last := |objects| - 1;
      SceneFramesObjects(objects[..last], k);
      if k in SceneFrames(objects) && k !in ObjectFrames(objects[last]) {
        var o :| 0 <= o < last && k in ObjectFrames(objects[..last][o]);
        assert objects[o] == objects[..last][o];
      }
      if exists o :: 0 <= o < |objects| && k in ObjectFrames(objects[o]) {
        var o :| 0 <= o < |objects| && k in ObjectFrames(objects[o]);
        if o < last {
          assert objects[..last][o] == objects[o];
        }
      }
    }
  }

  /** The three nested loops that fill `keyframes`. */
  method CollectKeyframes(objects: seq<AnimatedObject>) returns (keyframes: set<int>)
    ensures keyframes == SceneFrames(objects)
  {
    keyframes := {};
    for i := 0 to |objects|
      invariant keyframes == SceneFrames(objects[..i])
    {
      var action := objects[i].action;
      assert objects[..i + 1][..i] == objects[..i];
      if action.Some? {
        var curves := action.value;
        for j := 0 to |curves|
          invariant keyframes == SceneFrames(objects[..i]) + ActionFrames(curves[..j])
        {
          var points := curves[j];
          assert curves[..j + 1][..j] == curves[..j];
          for p := 0 to |points|
            invariant keyframes == SceneFrames(objects[..i]) + ActionFrames(curves[..j]) + CurveFrames(points[..p])
          {
            assert points[..p + 1][..p] == points[..p];
            keyframes := keyframes + {TruncToInt(points[p])};
          }
          assert points[..|points|] == points;
        }
        assert curves[..|curves|] == curves;
      }
    }
    assert objects[..|objects|] == objects;
  }

  /** `min(keyframes), max(keyframes)`, with the `ValueError` that `min`
      raises on an empty set. */
  method MinMax(keyframes: set<int>) returns (r: Result<(int, int)>)
    ensures r.Failure? <==> keyframes == {}
    ensures r.Failure? ==> r.error == ValueError
    ensures r.Success? ==> r.value.0 in keyframes && r.value.1 in keyframes
    ensures r.Success? ==> forall k :: k in keyframes ==> r.value.0 <= k <= r.value.1
  {
    if keyframes == {} {
      return Failure(ValueError);
    }
    ghost var some := MemberOf(keyframes);
    var first :| first in keyframes;
    var lo, hi := first, first;
    var rest := keyframes - {first};
    while rest != {}
      invariant rest <= keyframes
      invariant lo in keyframes && hi in keyframes
      invariant forall k :: k in keyframes && k !in rest ==> lo <= k <= hi
      decreases |rest|
    {
      ghost var next := MemberOf(rest);
      var k :| k in rest;
      if k < lo {
        lo := k;
      }
      if k > hi {
        hi := k;
      }
      rest := rest - {k};
    }
    r := Success((lo, hi));
  }

  /** `get_keyframe_range()`. */
  method GetKeyframeRange(objects: seq<AnimatedObject>) returns (r: Result<(int, int)>)
    ensures r.Failure? <==> SceneFrames(objects) == {}
    ensures r.Failure? ==> r.error == ValueError
    ensures r.Success? ==> r.value.0 in SceneFrames(objects) && r.value.1 in SceneFrames(objects)
    ensures r.Success? ==> forall k :: k in SceneFrames(objects) ==> r.value.0 <= k <= r.value.1
  {
    var keyframes := CollectKeyframes(objects);
    r := MinMax(keyframes);
  }
}
