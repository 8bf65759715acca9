/** The per-camera steps of `blenderDataset.__init__`: a camera's extrinsic
    dictionary is updated with the intrinsic record at its position, every
    field but `id`, `res_w` and `res_h` is turned into a float array, the
    principal point, focal length and translation are normalised, and the
    intrinsic vector is appended.

    A dictionary value is one of the kinds the tables hold: a string, an
    integer, a list of numbers, or a float array with one or zero
    dimensions. Numbers are `real`; float32 rounding is not modelled. */
module CameraParams {
  import opened Outcomes

  datatype Value =
    | Text(s: string)          // a Python `str`
    | Int(n: int)              // a Python `int`
    | List(items: seq<real>)   // a Python list of numbers
    | Arr(xs: seq<real>)       // a one-dimensional float array
    | Scalar(x: real)          // a zero-dimensional float array

  /** A camera record: a dictionary from field name to value. */
  type CameraDict = map<string, Value>

  /** `normalize_screen_coordinates(X, w=..., h=...)`, which lives outside
      the modelled files: any function of the three values that returns a
      value or raises. */
  type ScreenNormalizer = (Value, Value, Value) -> Result<Value>

  /** The fields the cast loop leaves as they are. */
  const Uncast: set<string> := {"id", "res_w", "res_h"}

  predicate IsArray(v: Value) {
    v.Arr? || v.Scalar?
  }

  /** The numbers a value holds, if it is a list or an array. */
  function Numbers(v: Value): seq<real> {
    match v
    case Text(_) => []
    case Int(n) => [n as real]
    case List(items) => items
    case Arr(xs) => xs
    case Scalar(x) => [x]
  }

  /** `cam.update(intrinsic)`: every field of the intrinsic record is added
      to the camera, replacing a field of the same name. */
  function Merge(cam: CameraDict, intrinsic: CameraDict): (r: CameraDict)
    ensures r.Keys == cam.Keys + intrinsic.Keys
    ensures forall k :: k in intrinsic ==> r[k] == intrinsic[k]
    ensures forall k :: k in cam && k !in intrinsic ==> r[k] == cam[k]
  {
    cam + intrinsic
  }

  /** `np.array(v, dtype=np.float32)`: a string that is not a number cannot
      be converted. */
  function CastValue(v: Value): (r: Result<Value>)
    ensures r.Failure? <==> v.Text?
    ensures r.Failure? ==> r.error == ValueError
    ensures r.Success? ==> IsArray(r.value) && Numbers(r.value) == Numbers(v)
    ensures r.Success? ==> (r.value.Scalar? <==> v.Int? || v.Scalar?)
  {
    match v
    case Text(_) => Failure(ValueError)
    case Int(n) => Success(Scalar(n as real))
    case List(items) => Success(Arr(items))
    case Arr(_) => Success(v)
    case Scalar(_) => Success(v)
  }

  /** Casting an array again changes nothing. */
  lemma CastIsIdempotent(v: Value)
    requires CastValue(v).Success?
    ensures CastValue(CastValue(v).value) == CastValue(v)
  {
  }

  /** Lines 82-84 once the loop is done: every field but `id`, `res_w` and
      `res_h` is cast, or the first string raises. */
  function CastFields(cam: CameraDict): (r: Result<CameraDict>)
    ensures r.Failure? <==> exists k :: k in cam && k !in Uncast && cam[k].Text?
    ensures r.Failure? ==> r.error == ValueError
    ensures r.Success? ==> r.value.Keys == cam.Keys
    ensures r.Success? ==> forall k :: k in cam && k in Uncast ==> r.value[k] == cam[k]
    ensures r.Success? ==> forall k :: k in cam && k !in Uncast ==>
      IsArray(r.value[k]) && Numbers(r.value[k]) == Numbers(cam[k])
    ensures r.Success? ==> forall k :: k in cam && k !in Uncast ==>
      (r.value[k].Scalar? <==> cam[k].Int? || cam[k].Scalar?)
    ensures r.Success? ==> forall k :: k in r.value && k !in Uncast ==> Success(r.value[k]) == CastValue(cam[k])
  {
    if exists k :: k in cam && k !in Uncast && cam[k].Text? then Failure(ValueError)
    else Success(map k | k in cam :: if k in Uncast then cam[k] else CastValue(cam[k]).value)
  }

  /** The loop of lines 82-84, which reassigns the fields one at a time in
      the dictionary's order. */
  method CastFieldsInPlace(cam: CameraDict) returns (r: Result<CameraDict>)
    ensures r == CastFields(cam)
  {
    var out := cam;
    var todo := cam.Keys;
    while todo != {}
      invariant todo <= cam.Keys && out.Keys == cam.Keys
      invariant forall k :: k in todo ==> out[k] == cam[k]
      invariant forall k :: k in cam && k !in todo && k !in Uncast ==>
        !cam[k].Text? && out[k] == CastValue(cam[k]).value
      invariant forall k :: k in cam && k !in todo && k in Uncast ==> out[k] == cam[k]
      decreases |todo|
    {
      ghost var next := MemberOf(todo);
      var k :| k in todo;
      if k !in Uncast {
        var c := CastValue(out[k]);
        if c.Failure? {
          return Failure(c.error);
        }
        out := out[k := c.value];
      }
      todo := todo - {k};
    }
    assert out == map k | k in cam :: if k in Uncast then cam[k] else CastValue(cam[k]).value;
    r := Success(out);
  }

  /** Lines 87-89, for a camera with a `center`: the principal point is
      normalised by the resolution and converted with `astype`, which only
      arrays have. */
  function NormalizeCenter(cam: CameraDict, normalize: ScreenNormalizer): (r: Result<CameraDict>)
    requires "center" in cam
    ensures "res_w" !in cam ==> r == Failure(KeyError("res_w"))
    ensures "res_w" in cam && "res_h" !in cam ==> r == Failure(KeyError("res_h"))
    ensures "res_w" in cam && "res_h" in cam ==>
      var c := normalize(cam["center"], cam["res_w"], cam["res_h"]);
      && (c.Failure? ==> r == Failure(c.error))
      && (c.Success? && !IsArray(c.value) ==> r == Failure(AttributeError))
      && (c.Success? && IsArray(c.value) ==> r.Success? && "center" in r.value && r.value["center"] == c.value)
    ensures r.Success? ==> r.value.Keys == cam.Keys && forall k :: k in cam && k != "center" ==> r.value[k] == cam[k]
  {
    if "res_w" !in cam then Failure(KeyError("res_w"))
    else if "res_h" !in cam then Failure(KeyError("res_h"))
    else
      var c :- normalize(cam["center"], cam["res_w"], cam["res_h"]);
      if !IsArray(c) then Failure(AttributeError) else Success(cam["center" := c])
  }

  /** A value divided elementwise by `d`, then multiplied by `m`. */
  function DivideThenScale(v: Value, d: real, m: real): (r: Value)
    requires IsArray(v) && d != 0.0
    ensures IsArray(r) && (r.Scalar? <==> v.Scalar?) && |Numbers(r)| == |Numbers(v)|
    ensures forall i :: 0 <= i < |Numbers(v)| ==> Numbers(r)[i] == Numbers(v)[i] / d * m
  {
    match v
    case Arr(xs) => Arr(seq(|xs|, i requires 0 <= i < |xs| => xs[i] / d * m))
    case Scalar(x) => Scalar(x / d * m)
  }

  /** The resolution a field divides by, if it is a number. */
  function Divisor(v: Value): Option<real> {
    match v
    case Int(n) => Some(n as real)
    case Scalar(x) => Some(x)
    case _ => None
  }

  /** Lines 90-91, for a camera with a `focal_length`: the focal length is
      divided by `res_w` and doubled. A zero width makes numpy produce
      infinities. */
  function ScaleFocal(cam: CameraDict): (r: Result<CameraDict>)
    requires "focal_length" in cam
    ensures "res_w" !in cam ==> r == Failure(KeyError("res_w"))
    ensures r.Success? <==> ("res_w" in cam && IsArray(cam["focal_length"])
      && Divisor(cam["res_w"]).Some? && Divisor(cam["res_w"]).value != 0.0)
    ensures r.Success? ==> r.value.Keys == cam.Keys && forall k :: k in cam && k != "focal_length" ==> r.value[k] == cam[k]
    ensures r.Success? ==> |Numbers(r.value["focal_length"])| == |Numbers(cam["focal_length"])|
    ensures r.Success? ==> forall i :: 0 <= i < |Numbers(cam["focal_length"])| ==>
      Numbers(r.value["focal_length"])[i] == Numbers(cam["focal_length"])[i] / Divisor(cam["res_w"]).value * 2.0
  {
    if "res_w" !in cam then Failure(KeyError("res_w"))
    else
      var w := Divisor(cam["res_w"]);
      if w.None? || !IsArray(cam["focal_length"]) then Failure(TypeError)
      else if w.value == 0.0 then Failure(NonFinite)
      else Success(cam["focal_length" := DivideThenScale(cam["focal_length"], w.value, 2.0)])
  }

  /** Lines 92-93, for a camera with a `translation`: millimetres to metres. */
  function ToMeters(cam: CameraDict): (r: Result<CameraDict>)
    requires "translation" in cam
    ensures r.Success? <==> IsArray(cam["translation"])
    ensures r.Failure? ==> r.error == TypeError
    ensures r.Success? ==> r.value.Keys == cam.Keys && forall k :: k in cam && k != "translation" ==> r.value[k] == cam[k]
    ensures r.Success? ==> |Numbers(r.value["translation"])| == |Numbers(cam["translation"])|
    ensures r.Success? ==> forall i :: 0 <= i < |Numbers(cam["translation"])| ==>
      Numbers(r.value["translation"])[i] * 1000.0 == Numbers(cam["translation"])[i]
  {
    if !IsArray(cam["translation"]) then Failure(TypeError)
    else Success(cam["translation" := DivideThenScale(cam["translation"], 1000.0, 1.0)])
  }

  /** The fields `np.concatenate` takes, in order. */
  const IntrinsicParts: seq<string> := ["focal_length", "center", "radial_distortion", "tangential_distortion"]

  /** An operand `np.concatenate` accepts: a list or a one-dimensional
      array. */
  predicate Concatenable(v: Value) {
    v.List? || v.Arr?
  }

  /** Lines 96-100, for a camera with a `center`: the intrinsic vector is
      the focal length, principal point, radial and tangential distortion,
      one after the other. The tuple is built first, so the first missing
      field raises; a zero-dimensional operand cannot be concatenated. */
  function AddIntrinsic(cam: CameraDict): (r: Result<CameraDict>)
    requires "center" in cam
    ensures "focal_length" !in cam ==> r == Failure(KeyError("focal_length"))
    ensures "focal_length" in cam && "radial_distortion" !in cam ==> r == Failure(KeyError("radial_distortion"))
    ensures "focal_length" in cam && "radial_distortion" in cam && "tangential_distortion" !in cam ==>
      r == Failure(KeyError("tangential_distortion"))
    ensures r.Success? <==> forall k :: k in IntrinsicParts ==> k in cam && Concatenable(cam[k])
    ensures r.Failure? && (forall k :: k in IntrinsicParts ==> k in cam) ==> r.error == ValueError
    ensures r.Success? ==> r.value.Keys == cam.Keys + {"intrinsic"}
    ensures r.Success? ==> forall k :: k in cam && k != "intrinsic" ==> r.value[k] == cam[k]
    ensures r.Success? ==> r.value["intrinsic"] == Arr(Numbers(cam["focal_length"]) + Numbers(cam["center"])
      + Numbers(cam["radial_distortion"]) + Numbers(cam["tangential_distortion"]))
    ensures r.Success? ==> (|Numbers(r.value["intrinsic"])| == |Numbers(cam["focal_length"])| + |Numbers(cam["center"])|
      + |Numbers(cam["radial_distortion"])| + |Numbers(cam["tangential_distortion"])|)
  {
    if "focal_length" !in cam then Failure(KeyError("focal_length"))
    else if "radial_distortion" !in cam then Failure(KeyError("radial_distortion"))
    else if "tangential_distortion" !in cam then Failure(KeyError("tangential_distortion"))
    else
      var fl, c, rd, td := cam["focal_length"], cam["center"], cam["radial_distortion"], cam["tangential_distortion"];
      if !(Concatenable(fl) && Concatenable(c) && Concatenable(rd) && Concatenable(td)) then Failure(ValueError)
      else Success(cam["intrinsic" := Arr(Numbers(fl) + Numbers(c) + Numbers(rd) + Numbers(td))])
  }

  /** Line 88: runs only for a camera with a `center`. */
  function CenterStep(cam: CameraDict, normalize: ScreenNormalizer): (r: Result<CameraDict>)
    ensures "center" !in cam ==> r == Success(cam)
    ensures r.Success? ==> r.value.Keys == cam.Keys && forall k :: k in cam && k != "center" ==> r.value[k] == cam[k]
  {
    if "center" in cam then NormalizeCenter(cam, normalize) else Success(cam)
  }

  /** Line 91: runs only for a camera with a `focal_length`. */
  function FocalStep(cam: CameraDict): (r: Result<CameraDict>)
    ensures "focal_length" !in cam ==> r == Success(cam)
    ensures r.Success? ==> r.value.Keys == cam.Keys && forall k :: k in cam && k != "focal_length" ==> r.value[k] == cam[k]
  {
    if "focal_length" in cam then ScaleFocal(cam) else Success(cam)
  }

  /** Line 93: runs only for a camera with a `translation`. */
  function TranslationStep(cam: CameraDict): (r: Result<CameraDict>)
    ensures "translation" !in cam ==> r == Success(cam)
    ensures r.Success? ==> r.value.Keys == cam.Keys && forall k :: k in cam && k != "translation" ==> r.value[k] == cam[k]
  {
    if "translation" in cam then ToMeters(cam) else Success(cam)
  }

  /** Lines 96-100: run only for a camera with a `center`. */
  function IntrinsicStep(cam: CameraDict): (r: Result<CameraDict>)
    ensures "center" !in cam ==> r == Success(cam)
    ensures r.Success? ==> r.value.Keys == (if "center" in cam then cam.Keys + {"intrinsic"} else cam.Keys)
    ensures r.Success? ==> forall k :: k in cam && k != "intrinsic" ==> r.value[k] == cam[k]
  {
    if "center" in cam then AddIntrinsic(cam) else Success(cam)
  }

  /** Lines 80-100 for camera `i` of a subject: the whole treatment of one
      camera, or the exception it raises. */
  function NormalizedCamera(cam: CameraDict, intrinsics: seq<CameraDict>, i: nat, normalize: ScreenNormalizer)
    : Result<CameraDict>
  {
    if i >= |intrinsics| then Failure(IndexError)
    else
      var cast :- CastFields(Merge(cam, intrinsics[i]));
      var centred :- CenterStep(cast, normalize);
      var scaled :- FocalStep(centred);
      var metric :- TranslationStep(scaled);
      IntrinsicStep(metric)
  }

  /** Lines 80-100 as the statements run: the camera dictionary is updated
      step by step. */
  method NormalizeCamera(cam: CameraDict, intrinsics: seq<CameraDict>, i: nat, normalize: ScreenNormalizer)
    returns (r: Result<CameraDict>)
    ensures r == NormalizedCamera(cam, intrinsics, i, normalize)
  {
    if i >= |intrinsics| {
      return Failure(IndexError);
    }
    var c := Merge(cam, intrinsics[i]);
    c :- CastFieldsInPlace(c);
    if "center" in c {
      c :- NormalizeCenter(c, normalize);
    }
    if "focal_length" in c {
      c :- ScaleFocal(c);
    }
    if "translation" in c {
      c :- ToMeters(c);
    }
    if "center" in c {
      c :- AddIntrinsic(c);
    }
    r := Success(c);
  }

  /** Camera `i` takes the intrinsic record at position `i`: it needs one,
      and its `id`, `res_w` and `res_h` are that record's, untouched by the
      cast and the normalisation. Its fields are those of the camera and of
      the record, plus `intrinsic` when it has a `center`. */
  lemma {:induction false} CameraTakesIntrinsicAtItsPosition(
    cam: CameraDict, intrinsics: seq<CameraDict>, i: nat, normalize: ScreenNormalizer)
    requires NormalizedCamera(cam, intrinsics, i, normalize).Success?
    ensures i < |intrinsics|
    ensures forall k :: k in Uncast && k in intrinsics[i] ==>
      k in NormalizedCamera(cam, intrinsics, i, normalize).value
      && NormalizedCamera(cam, intrinsics, i, normalize).value[k] == intrinsics[i][k]
    ensures NormalizedCamera(cam, intrinsics, i, normalize).value.Keys ==
      if "center" in cam || "center" in intrinsics[i] then cam.Keys + intrinsics[i].Keys + {"intrinsic"}
      else cam.Keys + intrinsics[i].Keys
  {
    var merged := Merge(cam, intrinsics[i]);
    var cast := CastFields(merged).value;
    StepsKeepUncast(cast, normalize);
  }

  /** Lines 87-100 after the cast, for a camera that goes through: they
      keep every field of the cast camera, change none of `id`, `res_w`
      and `res_h`, and add `intrinsic` when there is a `center`. */
  lemma StepsKeepUncast(cast: CameraDict, normalize: ScreenNormalizer)
    ensures var centred := CenterStep(cast, normalize);
      centred.Success? ==> var scaled := FocalStep(centred.value);
      scaled.Success? ==> var metric := TranslationStep(scaled.value);
      metric.Success? ==> var r := IntrinsicStep(metric.value);
      r.Success? ==>
        && r.value.Keys == (if "center" in cast then cast.Keys + {"intrinsic"} else cast.Keys)
        && forall k :: k in cast && k in Uncast ==> r.value[k] == cast[k]
  {
    assert "intrinsic" !in Uncast && "center" !in Uncast && "focal_length" !in Uncast && "translation" !in Uncast;
  }

  /** What a camera of a subject becomes, given its position in the list. */
  type CameraStep = (CameraDict, nat) -> Result<CameraDict>

  /** A step applied to every camera of a list, in order, stopping at the
      first exception. */
  function EachCamera(cams: seq<CameraDict>, step: CameraStep): (r: Result<seq<CameraDict>>)
    ensures r.Success? ==> |r.value| == |cams|
  {
    if cams == [] then Success([])
    else
      var n := |cams| - 1;
      var prev :- EachCamera(cams[..n], step);
      var cam :- step(cams[n], n);
      Success(prev + [cam])
  }

  /** A failing camera decides the whole list. */
  lemma {:induction false} EachCameraFailureSticks(cams: seq<CameraDict>, step: CameraStep, k: nat)
    requires k <= |cams| && EachCamera(cams[..k], step).Failure?
    ensures EachCamera(cams, step) == EachCamera(cams[..k], step)
    decreases |cams|
  {
    if k == |cams| {
      assert cams[..k] == cams;
    } else {
      var init := cams[..|cams| - 1];
      assert init[..k] == cams[..k];
      EachCameraFailureSticks(init, step, k);
    }
  }

  /** The list succeeds exactly when every camera does at its position, and
      is then the list of their results. */
  lemma {:induction false} EachCameraByPosition(cams: seq<CameraDict>, step: CameraStep)
    ensures EachCamera(cams, step).Success? <==> forall i :: 0 <= i < |cams| ==> step(cams[i], i).Success?
    ensures EachCamera(cams, step).Success? ==>
      forall i :: 0 <= i < |cams| ==> EachCamera(cams, step).value[i] == step(cams[i], i).value
    decreases |cams|
  {
    if cams != [] {
      var n := |cams| - 1;
      var init := cams[..n];
      EachCameraByPosition(init, step);
      assert forall i :: 0 <= i < n ==> init[i] == cams[i];
    }
  }

  /** When the list fails, its exception is that of the first camera that
      fails. */
  lemma {:induction false} EachCameraFailsAtFirst(cams: seq<CameraDict>, step: CameraStep)
    requires EachCamera(cams, step).Failure?
    ensures exists i :: (0 <= i < |cams| && step(cams[i], i) == Failure(EachCamera(cams, step).error)
      && forall j :: 0 <= j < i ==> step(cams[j], j).Success?)
    decreases |cams|
  {
    var n := |cams| - 1;
    var init := cams[..n];
    assert forall i :: 0 <= i < n ==> init[i] == cams[i];
    var e := EachCamera(cams, step).error;
    if EachCamera(init, step).Failure? {
      EachCameraFailsAtFirst(init, step);
      var i :| 0 <= i < n && step(init[i], i) == Failure(e)
        && forall j :: 0 <= j < i ==> step(init[j], j).Success?;
      assert step(cams[i], i) == Failure(e);
    } else {
      EachCameraByPosition(init, step);
      assert step(cams[n], n) == Failure(e);
    }
  }

  /** The treatment of lines 80-100 with the intrinsic records of a
      subject. */
  function CameraAt(intrinsics: seq<CameraDict>, normalize: ScreenNormalizer): CameraStep {
    (cam: CameraDict, i: nat) => NormalizedCamera(cam, intrinsics, i, normalize)
  }

  /** Lines 80-100 over the cameras of one subject, in order. */
  function NormalizedSubject(cams: seq<CameraDict>, intrinsics: seq<CameraDict>, normalize: ScreenNormalizer)
    : Result<seq<CameraDict>>
  {
    EachCamera(cams, CameraAt(intrinsics, normalize))
  }

  /** The loop of lines 80-100 over one subject's list. */
  method NormalizeSubject(cams: seq<CameraDict>, intrinsics: seq<CameraDict>, normalize: ScreenNormalizer)
    returns (r: Result<seq<CameraDict>>)
    ensures r == NormalizedSubject(cams, intrinsics, normalize)
  {
    var out: seq<CameraDict> := [];
    for i := 0 to |cams|
      invariant EachCamera(cams[..i], CameraAt(intrinsics, normalize)) == Success(out)
    {
      assert cams[..i + 1][..i] == cams[..i];
      var cam := NormalizeCamera(cams[i], intrinsics, i, normalize);
      if cam.Failure? {
        EachCameraFailureSticks(cams, CameraAt(intrinsics, normalize), i + 1);
        return Failure(cam.error);
      }
      out := out + [cam.value];
    }
    assert cams[..|cams|] == cams;
    r := Success(out);
  }

  /** The cameras are bound to intrinsic records by position: the subject
      succeeds exactly when each camera `i` does with record `i`, which
      needs as many records as cameras; it is then the list of those
      cameras, and otherwise the exception of the first camera that fails. */
  lemma SubjectBindsByPosition(cams: seq<CameraDict>, intrinsics: seq<CameraDict>, normalize: ScreenNormalizer)
    ensures NormalizedSubject(cams, intrinsics, normalize).Success? <==>
      forall i :: 0 <= i < |cams| ==> NormalizedCamera(cams[i], intrinsics, i, normalize).Success?
    ensures NormalizedSubject(cams, intrinsics, normalize).Success? ==>
      forall i :: 0 <= i < |cams| ==>
        NormalizedSubject(cams, intrinsics, normalize).value[i] == NormalizedCamera(cams[i], intrinsics, i, normalize).value
    ensures NormalizedSubject(cams, intrinsics, normalize).Success? ==> |cams| <= |intrinsics|
    ensures NormalizedSubject(cams, intrinsics, normalize).Failure? ==>
      exists i :: (0 <= i < |cams|
        && NormalizedCamera(cams[i], intrinsics, i, normalize) == Failure(NormalizedSubject(cams, intrinsics, normalize).error)
        && forall j :: 0 <= j < i ==> NormalizedCamera(cams[j], intrinsics, j, normalize).Success?)
  {
    var step := CameraAt(intrinsics, normalize);
    EachCameraByPosition(cams, step);
    if NormalizedSubject(cams, intrinsics, normalize).Success? {
      if cams != [] {
        CameraTakesIntrinsicAtItsPosition(cams[|cams| - 1], intrinsics, |cams| - 1, normalize);
      }
    } else {
      EachCameraFailsAtFirst(cams, step);
    }
  }

  /** Applying the focal-length step a second time divides by the width
      again: the step is not idempotent. */
  lemma {:induction false} ScaleFocalTwiceScalesTwice(cam: CameraDict)
    requires "focal_length" in cam && ScaleFocal(cam).Success?
    ensures ScaleFocal(ScaleFocal(cam).value).Success?
    ensures var w := Divisor(cam["res_w"]).value;
      var once := Numbers(ScaleFocal(cam).value["focal_length"]);
      var twice := Numbers(ScaleFocal(ScaleFocal(cam).value).value["focal_length"]);
      |twice| == |once| && forall i :: 0 <= i < |once| ==> twice[i] == once[i] / w * 2.0
  {
    var once := ScaleFocal(cam).value;
    assert once["res_w"] == cam["res_w"];
  }

  /** The worked example: at 1920 pixels wide, a focal length of
      (1280, 1080) pixels becomes (4/3, 1.125), and a second application
      would change it again. */
  lemma FocalLengthExample()
    ensures var cam := map["res_w" := Int(1920), "focal_length" := Arr([1280.0, 1080.0])];
      && ScaleFocal(cam).Success?
      && ScaleFocal(cam).value["focal_length"] == Arr([4.0 / 3.0, 1.125])
      && ScaleFocal(ScaleFocal(cam).value).value["focal_length"] != ScaleFocal(cam).value["focal_length"]
  {
    var cam := map["res_w" := Int(1920), "focal_length" := Arr([1280.0, 1080.0])];
    assert "res_w" != "focal_length";
    var once := ScaleFocal(cam).value;
    assert Numbers(once["focal_length"]) == [4.0 / 3.0, 1.125];
    ScaleFocalTwiceScalesTwice(cam);
    assert Numbers(ScaleFocal(once).value["focal_length"])[0] == 4.0 / 3.0 / 1920.0 * 2.0;
  }

  /** `blender_cameras_intrinsic_params[0]` and `[1]`, which are equal. */
  const IntrinsicRecord: CameraDict := map[
    "id" := Text(""),
    "center" := List([]),
    "focal_length" := List([]),
    "radial_distortion" := List([]),
    "tangential_distortion" := List([]),
    "res_w" := Int(1),
    "res_h" := Int(1),
    "azimuth" := Int(1)
  ]

  /** `blender_cameras_intrinsic_params`: two records. */
  const IntrinsicTable: seq<CameraDict> := [IntrinsicRecord, IntrinsicRecord]

  /** Every camera of `blender_cameras_extrinsic_params`. */
  const ExtrinsicRecord: CameraDict := map["orientation" := List([]), "translation" := List([])]

  /** `blender_cameras_extrinsic_params`: four cameras for each of two
      subjects. */
  const ExtrinsicTable: map<string, seq<CameraDict>> := map[
    "S1" := [ExtrinsicRecord, ExtrinsicRecord, ExtrinsicRecord, ExtrinsicRecord],
    "S2" := [ExtrinsicRecord, ExtrinsicRecord, ExtrinsicRecord, ExtrinsicRecord]
  ]

  /** A camera past the end of the intrinsic records raises `IndexError`. */
  lemma CameraNeedsRecord(cam: CameraDict, intrinsics: seq<CameraDict>, i: nat, normalize: ScreenNormalizer)
    requires i >= |intrinsics|
    ensures NormalizedCamera(cam, intrinsics, i, normalize) == Failure(IndexError)
  {
  }

  /** A subject with more cameras than intrinsic records never loads: it
      raises for one of the cameras that have a record, or, when those all
      go through, `IndexError` for the first camera without one. */
  lemma MoreCamerasThanRecordsFails(cams: seq<CameraDict>, intrinsics: seq<CameraDict>, normalize: ScreenNormalizer)
    requires |cams| > |intrinsics|
    ensures NormalizedSubject(cams, intrinsics, normalize).Failure?
    ensures (forall i :: 0 <= i < |intrinsics| ==> NormalizedCamera(cams[i], intrinsics, i, normalize).Success?) ==>
      NormalizedSubject(cams, intrinsics, normalize) == Failure(IndexError)
  {
    SubjectBindsByPosition(cams, intrinsics, normalize);
    var r := NormalizedSubject(cams, intrinsics, normalize);
    if r.Failure? {
      var i :| 0 <= i < |cams| && NormalizedCamera(cams[i], intrinsics, i, normalize) == Failure(r.error)
        && forall j :: 0 <= j < i ==> NormalizedCamera(cams[j], intrinsics, j, normalize).Success?;
      if forall j :: 0 <= j < |intrinsics| ==> NormalizedCamera(cams[j], intrinsics, j, normalize).Success? {
        CameraNeedsRecord(cams[|intrinsics|], intrinsics, |intrinsics|, normalize);
        assert i == |intrinsics|;
      }
    }
  }

  /** `blender_cameras_extrinsic_params` gives each subject four cameras and
      `blender_cameras_intrinsic_params` holds two records, so whatever the
      screen normalisation does, no subject loads,
      and one whose first two cameras go through raises `IndexError` at the
      third. */
  lemma ModuleTablesFail(s: string, normalize: ScreenNormalizer)
    requires s in ExtrinsicTable
    ensures |ExtrinsicTable[s]| == 4 && |IntrinsicTable| == 2
    ensures NormalizedSubject(ExtrinsicTable[s], IntrinsicTable, normalize).Failure?
    ensures (forall i :: 0 <= i < |IntrinsicTable| ==>
        NormalizedCamera(ExtrinsicTable[s][i], IntrinsicTable, i, normalize).Success?) ==>
      NormalizedSubject(ExtrinsicTable[s], IntrinsicTable, normalize) == Failure(IndexError)
  {
    ModuleTableSizes(s);
    MoreCamerasThanRecordsFails(ExtrinsicTable[s], IntrinsicTable, normalize);
  }

  /** Each subject of `blender_cameras_extrinsic_params` has four cameras,
      and `blender_cameras_intrinsic_params` holds two records. */
  lemma ModuleTableSizes(s: string)
    requires s in ExtrinsicTable
    ensures |ExtrinsicTable[s]| == 4 && |IntrinsicTable| == 2
  {
  }
}
