/** `blenderDataset`: the dataset object of the training code. Its
    constructor normalises the camera records of every subject and files
    the loaded 3D positions by subject and action, each action carrying its
    subject's cameras. */
module BlenderDataset {
  import opened Outcomes
  import opened Geometry
  import opened CameraParams

  /** Camera lists by subject, as `blender_cameras_extrinsic_params`. */
  type CameraTable = map<string, seq<CameraDict>>

  /** The 3D positions of one action: a list of frames of joints. */
  type Positions = seq<seq<Vec3>>

  /** `positions_3d` of the loaded archive: positions by subject and action. */
  type LoadedArchive = map<string, map<string, Positions>>

  /** `{'positions': ..., 'cameras': ...}`: one action of `_data`. */
  datatype Entry = Entry(positions: Positions, cameras: seq<CameraDict>)

  /** Every subject's camera list goes through lines 80-100. */
  predicate AllNormalized(cams: CameraTable, intrinsics: seq<CameraDict>, normalize: ScreenNormalizer) {
    forall s :: s in cams ==> NormalizedSubject(cams[s], intrinsics, normalize).Success?
  }

  /** The camera table once lines 79-100 are done. */
  function NormalizedTable(cams: CameraTable, intrinsics: seq<CameraDict>, normalize: ScreenNormalizer): CameraTable
    requires AllNormalized(cams, intrinsics, normalize)
  {
    map s | s in cams :: NormalizedSubject(cams[s], intrinsics, normalize).value
  }

  /** The normalised table has the same subjects and the same number of
      cameras per subject, and camera `i` of a subject is that camera
      normalised with intrinsic record `i`, of which there must be one. */
  lemma NormalizedTableBindsByPosition(cams: CameraTable, intrinsics: seq<CameraDict>, normalize: ScreenNormalizer)
    requires AllNormalized(cams, intrinsics, normalize)
    ensures NormalizedTable(cams, intrinsics, normalize).Keys == cams.Keys
    ensures forall s :: s in cams ==>
      && |NormalizedTable(cams, intrinsics, normalize)[s]| == |cams[s]|
      && |cams[s]| <= |intrinsics|
    ensures forall s, i :: s in cams && 0 <= i < |cams[s]| ==>
      NormalizedCamera(cams[s][i], intrinsics, i, normalize) == Success(NormalizedTable(cams, intrinsics, normalize)[s][i])
  {
    var table := NormalizedTable(cams, intrinsics, normalize);
    forall s | s in cams
      ensures |table[s]| == |cams[s]| <= |intrinsics|
      ensures forall i :: 0 <= i < |cams[s]| ==> NormalizedCamera(cams[s][i], intrinsics, i, normalize) == Success(table[s][i])
    {
      SubjectBindsByPosition(cams[s], intrinsics, normalize);
      assert table[s] == NormalizedSubject(cams[s], intrinsics, normalize).value;
    }
  }

  /** A subject of the archive with at least one action needs a camera
      list. */
  predicate Loadable(loaded: LoadedArchive, cams: Option<CameraTable>) {
    forall s :: s in loaded && loaded[s].Keys != {} ==> cams.Some? && s in cams.value
  }

  /** `_data` once lines 105-112 are done. */
  function LoadedData(loaded: LoadedArchive, cams: Option<CameraTable>): map<string, map<string, Entry>>
    requires Loadable(loaded, cams)
  {
    map s | s in loaded :: SubjectEntries(loaded[s], CamerasOf(cams, s))
  }

  /** `_cameras[subject]`, when there is one. */
  function CamerasOf(cams: Option<CameraTable>, s: string): seq<CameraDict> {
    if cams.Some? && s in cams.value then cams.value[s] else []
  }

  /** `_data[subject]` for a subject with the given actions and cameras. */
  function SubjectEntries(actions: map<string, Positions>, cams: seq<CameraDict>): map<string, Entry> {
    map a | a in actions :: Entry(actions[a], cams)
  }

  /** `_data` has exactly the subjects and actions of the archive; each
      entry keeps its positions, and all actions of a subject share the
      subject's camera list. */
  lemma LoadedDataShape(loaded: LoadedArchive, cams: Option<CameraTable>)
    requires Loadable(loaded, cams)
    ensures LoadedData(loaded, cams).Keys == loaded.Keys
    ensures forall s :: s in loaded ==> LoadedData(loaded, cams)[s].Keys == loaded[s].Keys
    ensures forall s, a :: s in loaded && a in loaded[s] ==>
      && LoadedData(loaded, cams)[s][a].positions == loaded[s][a]
      && cams.Some? && s in cams.value
      && LoadedData(loaded, cams)[s][a].cameras == cams.value[s]
  {
  }

  /** What lines 79-112 leave with the camera table the object holds: the
      normalised table and `_data`, or `None` when they raise. */
  function Constructed(cams: Option<CameraTable>, intrinsics: seq<CameraDict>, normalize: ScreenNormalizer,
                       loaded: LoadedArchive): Option<(CameraTable, map<string, map<string, Entry>>)>
  {
    if cams.None? || !AllNormalized(cams.value, intrinsics, normalize) then None
    else
      var table := NormalizedTable(cams.value, intrinsics, normalize);
      if Loadable(loaded, Some(table)) then Some((table, LoadedData(loaded, Some(table)))) else None
  }

  /** The exceptions lines 79-112 can raise: `AttributeError` for no table,
      the exception of a subject whose cameras fail, or the `KeyError` of a
      subject of the archive with no cameras. Which one is raised when
      several subjects fail depends on the dictionaries' order. */
  predicate MayRaise(cams: Option<CameraTable>, intrinsics: seq<CameraDict>, normalize: ScreenNormalizer,
                     loaded: LoadedArchive, e: Error) {
    if cams.None? then e == AttributeError
    else if !AllNormalized(cams.value, intrinsics, normalize) then
      exists s :: s in cams.value && NormalizedSubject(cams.value[s], intrinsics, normalize) == Failure(e)
    else
      exists s :: s in loaded && loaded[s].Keys != {} && s !in cams.value && e == KeyError(s)
  }

  /** A dataset on `blender_cameras_extrinsic_params` and
      `blender_cameras_intrinsic_params` never constructs: whatever the screen
      normalisation and the archive, some subject has more cameras than intrinsic
      records. */
  lemma ModuleTablesNeverConstruct(normalize: ScreenNormalizer, loaded: LoadedArchive)
    ensures Constructed(Some(ExtrinsicTable), IntrinsicTable, normalize, loaded).None?
  {
    assert "S1" in ExtrinsicTable;
    ModuleTablesFail("S1", normalize);
  }

  /** A table that normalises and covers the archive constructs, with the
      archive's subjects and actions. */
  lemma ConstructedCoversArchive(cams: CameraTable, intrinsics: seq<CameraDict>, normalize: ScreenNormalizer,
                                 loaded: LoadedArchive)
    requires AllNormalized(cams, intrinsics, normalize)
    requires forall s :: s in loaded && loaded[s].Keys != {} ==> s in cams
    ensures Constructed(Some(cams), intrinsics, normalize, loaded).Some?
    ensures Constructed(Some(cams), intrinsics, normalize, loaded).value.0.Keys == cams.Keys
    ensures Constructed(Some(cams), intrinsics, normalize, loaded).value.1.Keys == loaded.Keys
  {
    NormalizedTableBindsByPosition(cams, intrinsics, normalize);
    assert Loadable(loaded, Some(NormalizedTable(cams, intrinsics, normalize)));
  }

  /** The loop of lines 79-100 over the subjects, in some order: each
      subject's list is normalised, and the first subject that fails
      decides the exception. */
  method NormalizeTable(table: CameraTable, intrinsics: seq<CameraDict>, normalize: ScreenNormalizer)
    returns (r: Result<CameraTable>)
    ensures r.Success? <==> AllNormalized(table, intrinsics, normalize)
    ensures r.Success? ==> AllNormalized(table, intrinsics, normalize) && r.value == NormalizedTable(table, intrinsics, normalize)
    ensures r.Failure? ==> exists s :: s in table && NormalizedSubject(table[s], intrinsics, normalize) == Failure(r.error)
  {
    var out: CameraTable := map[];
    var todo := table.Keys;
    while todo != {}
      invariant todo <= table.Keys && out.Keys == table.Keys - todo
      invariant forall s :: s in out ==> NormalizedSubject(table[s], intrinsics, normalize) == Success(out[s])
      decreases |todo|
    {
      ghost var next := MemberOf(todo);
      var s :| s in todo;
      var cams := NormalizeSubject(table[s], intrinsics, normalize);
      if cams.Failure? {
        return Failure(cams.error);
      }
      out := out[s := cams.value];
      todo := todo - {s};
    }
    assert AllNormalized(table, intrinsics, normalize);
    assert out == NormalizedTable(table, intrinsics, normalize);
    r := Success(out);
  }

  /** Why lines 105-112 raise: `_cameras` is `None` and cannot be indexed,
      or a subject of the archive with an action has no camera list. */
  predicate CannotLoad(loaded: LoadedArchive, cams: Option<CameraTable>, e: Error) {
    if cams.None? then e == TypeError
    else exists s :: s in loaded && loaded[s].Keys != {} && s !in cams.value && e == KeyError(s)
  }

  /** The inner loop of lines 107-112, over the actions of one subject in
      some order: the first action looks up the subject's cameras. */
  method FileSubject(actions: map<string, Positions>, s: string, cams: Option<CameraTable>)
    returns (r: Result<map<string, Entry>>)
    ensures r.Success? <==> actions.Keys == {} || (cams.Some? && s in cams.value)
    ensures r.Success? ==> r.value == SubjectEntries(actions, CamerasOf(cams, s))
    ensures r.Failure? ==> actions.Keys != {} && if cams.None? then r.error == TypeError else r.error == KeyError(s)
  {
    var out: map<string, Entry> := map[];
    var names := actions.Keys;
    while names != {}
      invariant names <= actions.Keys && out.Keys == actions.Keys - names
      invariant names != actions.Keys ==> cams.Some? && s in cams.value
      invariant forall a :: a in out ==> cams.Some? && s in cams.value && out[a] == Entry(actions[a], cams.value[s])
      decreases |names|
    {
      ghost var name := MemberOf(names);
      var a :| a in names;
      if cams.None? {
        return Failure(TypeError);
      }
      if s !in cams.value {
        return Failure(KeyError(s));
      }
      out := out[a := Entry(actions[a], cams.value[s])];
      names := names - {a};
    }
    assert out == SubjectEntries(actions, CamerasOf(cams, s));
    r := Success(out);
  }

  /** Subject `s` is filed under `_data` with the entries `entries`. */
  predicate Filed(loaded: LoadedArchive, cams: Option<CameraTable>, s: string, entries: map<string, Entry>)
    requires s in loaded
  {
    (loaded[s].Keys != {} ==> cams.Some? && s in cams.value) && entries == SubjectEntries(loaded[s], CamerasOf(cams, s))
  }

  /** One subject whose cameras cannot be found makes the archive
      unloadable, for the reason it reports. */
  lemma SubjectBlocksLoading(loaded: LoadedArchive, cams: Option<CameraTable>, s: string, e: Error)
    requires s in loaded && loaded[s].Keys != {}
    requires if cams.None? then e == TypeError else s !in cams.value && e == KeyError(s)
    ensures !Loadable(loaded, cams) && CannotLoad(loaded, cams, e)
  {
  }

  /** Once every subject is filed, the archive is loadable and `out` is
      its `_data`. */
  lemma LoadedDataIsPerSubject(loaded: LoadedArchive, cams: Option<CameraTable>, out: map<string, map<string, Entry>>)
    requires out.Keys == loaded.Keys
    requires forall s :: s in out ==> Filed(loaded, cams, s, out[s])
    ensures Loadable(loaded, cams) && out == LoadedData(loaded, cams)
  {
    assert Loadable(loaded, cams) by {
      forall s | s in loaded && loaded[s].Keys != {}
        ensures cams.Some? && s in cams.value
      {
        assert Filed(loaded, cams, s, out[s]);
      }
    }
  }

  /** The subjects filed under `out` while `subjects` remain. */
  predicate FiledSoFar(loaded: LoadedArchive, cams: Option<CameraTable>, out: map<string, map<string, Entry>>, subjects: set<string>) {
    && subjects <= loaded.Keys && out.Keys == loaded.Keys - subjects
    && forall s :: s in out ==> Filed(loaded, cams, s, out[s])
  }

  /** Filing one more subject keeps `FiledSoFar`. */
  lemma FiledStep(loaded: LoadedArchive, cams: Option<CameraTable>, out: map<string, map<string, Entry>>,
                  subjects: set<string>, s: string, entries: map<string, Entry>)
    requires FiledSoFar(loaded, cams, out, subjects) && s in subjects
    requires loaded[s].Keys == {} || (cams.Some? && s in cams.value)
    requires entries == SubjectEntries(loaded[s], CamerasOf(cams, s))
    ensures FiledSoFar(loaded, cams, out[s := entries], subjects - {s})
  {
  }

  /** The outer loop of lines 105-112, over the subjects of the archive in
      some order. */
  method FileActions(loaded: LoadedArchive, cams: Option<CameraTable>) returns (r: Result<map<string, map<string, Entry>>>)
    ensures r.Success? <==> Loadable(loaded, cams)
    ensures r.Success? ==> Loadable(loaded, cams) && r.value == LoadedData(loaded, cams)
    ensures r.Failure? ==> CannotLoad(loaded, cams, r.error)
  {
    var out: map<string, map<string, Entry>> := map[];
    var subjects := loaded.Keys;
    while subjects != {}
      invariant FiledSoFar(loaded, cams, out, subjects)
      decreases |subjects|
    {
      ghost var next := MemberOf(subjects);
      var s :| s in subjects;
      var filed := FileSubject(loaded[s], s, cams);
      if filed.Failure? {
        SubjectBlocksLoading(loaded, cams, s, filed.error);
        return Failure(filed.error);
      }
      FiledStep(loaded, cams, out, subjects, s, filed.value);
      out := out[s := filed.value];
      subjects := subjects - {s};
    }
    LoadedDataIsPerSubject(loaded, cams, out);
    r := Success(out);
  }

  class Dataset {
    /** `self.cameras`, which the constructor sets and nothing reads. */
    var cameras: CameraTable
    /** `self._cameras`, which the base class initialises and the
        constructor normalises. */
    var internalCameras: Option<CameraTable>
    /** `self._data`. */
    var data: map<string, map<string, Entry>>

    /** `MocapDataset.__init__`, which is not part of this model: it leaves
        `_cameras` as `base`. */
    constructor (base: Option<CameraTable>)
      ensures internalCameras == base && cameras == map[] && data == map[]
    {
      internalCameras := base;
      cameras := map[];
      data := map[];
    }

    /** Lines 79-100: `_cameras` is normalised. On an exception the fields
        are left as they were. */
    method NormalizeCameras(intrinsics: seq<CameraDict>, normalize: ScreenNormalizer) returns (o: Outcome)
      modifies this
      ensures cameras == old(cameras) && data == old(data)
      ensures old(internalCameras).None? ==> o == Fail(AttributeError)
      ensures old(internalCameras).Some? ==>
        (o.Pass? <==> AllNormalized(old(internalCameras).value, intrinsics, normalize))
      ensures o.Pass? ==> (old(internalCameras).Some?
        && AllNormalized(old(internalCameras).value, intrinsics, normalize)
        && internalCameras == Some(NormalizedTable(old(internalCameras).value, intrinsics, normalize)))
      ensures o.Fail? ==> internalCameras == old(internalCameras)
      ensures o.Fail? && old(internalCameras).Some? ==> exists s :: (s in old(internalCameras).value
        && NormalizedSubject(old(internalCameras).value[s], intrinsics, normalize) == Failure(o.error))
    {
      if internalCameras.None? {
        return Fail(AttributeError);
      }
      var table := NormalizeTable(internalCameras.value, intrinsics, normalize);
      if table.Failure? {
        return Fail(table.error);
      }
      internalCameras := Some(table.value);
      o := Pass;
    }

    /** Lines 105-112: `_data` is rebuilt from the loaded archive. On an
        exception the fields are left as they were. */
    method LoadData(loaded: LoadedArchive) returns (o: Outcome)
      modifies this
      ensures cameras == old(cameras) && internalCameras == old(internalCameras)
      ensures o.Pass? <==> Loadable(loaded, internalCameras)
      ensures o.Pass? ==> data == LoadedData(loaded, internalCameras)
      ensures o.Fail? ==> data == old(data)
      ensures o.Fail? ==> CannotLoad(loaded, internalCameras, o.error)
    {
      var filed := FileActions(loaded, internalCameras);
      if filed.Failure? {
        return Fail(filed.error);
      }
      data := filed.value;
      o := Pass;
    }

    /** Lines 78-112 as written: the copied extrinsic table goes to
        `cameras`, while the normalisation and the loading use `_cameras`,
        which still holds what the base class left there. */
    method ConstructAsWritten(intrinsics: seq<CameraDict>, extrinsics: CameraTable, normalize: ScreenNormalizer,
                              loaded: LoadedArchive) returns (o: Outcome)
      modifies this
      ensures cameras == extrinsics
      ensures var c := Constructed(old(internalCameras), intrinsics, normalize, loaded);
        && (o.Pass? <==> c.Some?)
        && (o.Pass? ==> internalCameras == Some(c.value.0) && data == c.value.1)
      ensures o.Fail? ==> MayRaise(old(internalCameras), intrinsics, normalize, loaded, o.error)
    {
      cameras := extrinsics;
      o := Construct(intrinsics, normalize, loaded);
    }

    /** Lines 78-112 as evidently intended: the copied extrinsic table is
        what `_cameras` holds. */
    method ConstructCorrected(intrinsics: seq<CameraDict>, extrinsics: CameraTable, normalize: ScreenNormalizer,
                              loaded: LoadedArchive) returns (o: Outcome)
      modifies this
      ensures cameras == old(cameras)
      ensures var c := Constructed(Some(extrinsics), intrinsics, normalize, loaded);
        && (o.Pass? <==> c.Some?)
        && (o.Pass? ==> internalCameras == Some(c.value.0) && data == c.value.1)
      ensures o.Fail? ==> MayRaise(Some(extrinsics), intrinsics, normalize, loaded, o.error)
    {
      internalCameras := Some(extrinsics);
      o := Construct(intrinsics, normalize, loaded);
    }

    /** Lines 79-112 with whatever `_cameras` holds. */
    method Construct(intrinsics: seq<CameraDict>, normalize: ScreenNormalizer, loaded: LoadedArchive)
      returns (o: Outcome)
      modifies this
      ensures cameras == old(cameras)
      ensures var c := Constructed(old(internalCameras), intrinsics, normalize, loaded);
        && (o.Pass? <==> c.Some?)
        && (o.Pass? ==> internalCameras == Some(c.value.0) && data == c.value.1)
      ensures o.Fail? ==> MayRaise(old(internalCameras), intrinsics, normalize, loaded, o.error)
    {
      o := NormalizeCameras(intrinsics, normalize);
      if o.Fail? {
        return;
      }
      o := LoadData(loaded);
    }
  }

  /** As written, a dataset whose base class leaves `_cameras` as `None`
      never constructs: line 79 has nothing to iterate. */
  lemma AsWrittenNeedsBaseCameras(intrinsics: seq<CameraDict>, normalize: ScreenNormalizer, loaded: LoadedArchive)
    ensures Constructed(None, intrinsics, normalize, loaded).None?
    ensures forall e :: MayRaise(None, intrinsics, normalize, loaded, e) <==> e == AttributeError
  {
  }
}
