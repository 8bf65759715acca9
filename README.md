# Blender 3D human-pose dataset generator: a verified model of its core

This project models, in Dafny, the part of the Blender3DHPDataset repository
that carries algorithmic content, and proves what that code promises.

- **Joint remapping** (`genDataset3D.py`): the two lookup tables
  `bone_mapping` (rig bone name to canonical joint name) and `bone_order`
  (canonical joint name to one of 17 keypoint slots), and `sort_keypoints`,
  which writes a coordinate into its slot of a keypoint list in place.
- **Projection** (`genDataset3D.py`): `get_coordinates`. It picks a bone's
  head or tail and maps it through the inverse camera matrix and the
  projection matrix. It then divides by `w`, maps to pixels with y flipped,
  replaces an out-of-image point by (0, 0) and rounds with Python's
  round-half-to-even.
- **Frame assembly** (`genDataset3D.py`): the body of `main` for one sample.
  - The keyframe range comes from `get_keyframe_range`.
  - For each camera placement and each frame, the bone loop starts from 17
    zeros, stops at the first bone with a zero coordinate, and sorts every
    earlier bone's 2D and 3D coordinates into its slot.
  - The frames are appended to `keypoints_2d` and `keypoints_3d`.
- **Skeleton** (`blender_dataset.py`): the parent array and the left/right
  joint sets of `blender_skeleton`.
- **Camera records** (`blender_dataset.py`): the per-camera steps of
  `blenderDataset.__init__`, on the camera dictionaries.
  - Each camera is merged with the intrinsic record at its position.
  - Every field but `id`, `res_w` and `res_h` is cast to an array.
  - The principal point is normalised, the focal length is divided by the
    width and doubled, and the translation goes from millimetres to metres.
  - The `intrinsic` vector is concatenated.
- **Dataset object** (`blender_dataset.py`): a class whose fields are
  `cameras`, `_cameras` and `_data`, with the camera normalisation and the
  reshaping of the loaded archive into `_data[subject][action]`.

Python exceptions are values: an operation that can raise returns a `Result`
(`Success` or `Failure` with the exception class) or an `Outcome` (`Pass` or
`Fail`). The scene that Blender provides is passed in as plain values:
- the armature's pose bones at each frame;
- each camera placement's inverse world matrix and projection matrix;
- the render resolution;
- the f-curve keyframe points of each object.

`normalize_screen_coordinates`, which lives outside the modelled files, is a
parameter of type `(Value, Value, Value) -> Result<Value>`. Numbers are
`real`; Python's `round` and `int` are written out exactly.

Facts about the code that the model keeps:
- A malformed camera record raises; nothing is skipped (`CastValue`,
  `NormalizeCenter`, `AddIntrinsic`).
- A `res_w` of 0 makes numpy produce `inf` or `nan` in the focal-length
  division; the model reports this as the error `NonFinite`. Any other width,
  negative ones included, divides normally.
- The length of `intrinsic` is the sum of the lengths of the four fields it
  concatenates (`AddIntrinsic`).
- Cameras are bound to intrinsic records by position in the list, not by
  `id` (`SubjectBindsByPosition`). With the tables `blender_cameras_extrinsic_params` and
  `blender_cameras_intrinsic_params` (four cameras per
  subject, two intrinsic records) no subject normalises; if a subject's
  first two cameras go through, its third raises `IndexError`
  (`ModuleTablesFail`, `ModuleTablesNeverConstruct`).

`genDataset3D.py` lines 188-190 hold a `def get_3d_coordinates():` with no
body, which Python rejects with an `IndentationError`. As written, the file
therefore does not load. The model describes the functions as if that stub
were absent.

## Model

| member | source | states |
|---|---|---|
| Geometry.RoundHalfEven | genDataset3D.py:225-226 | `round` gives an integer within 0.5 of its argument, and the even one on a tie |
| Geometry.TruncToInt | genDataset3D.py:109 | `int()` on a float truncates toward zero: the result is within one unit, on the side of zero |
| Geometry.RoundStaysInRange | genDataset3D.py:221-226 | a coordinate kept inside [lo, hi] rounds to an integer inside [lo, hi] |
| JointRemap.SlotOf | genDataset3D.py:231-232 | the slot lookup fails exactly for names outside `bone_mapping`, with `KeyError(name)`, and otherwise gives a slot below 17 |
| JointRemap.BoneOrderMatchesCanonical | genDataset3D.py:36-54 | `bone_order` sends the k-th canonical joint name to k, and has no other keys |
| JointRemap.BoneOrderIsBijection | genDataset3D.py:36-54 | `bone_order` is one-to-one onto the slots 0..16 |
| JointRemap.MappingTargetsAreCanonical | genDataset3D.py:17-54 | every value of `bone_mapping` is a key of `bone_order`, so the second lookup never raises |
| JointRemap.RigSlotsTable | genDataset3D.py:17-54 | the rig names are exactly the keys of `bone_mapping`, and each resolves to the slot given by an independently written table |
| JointRemap.RigBonesAreMappingKeys | genDataset3D.py:17-35 | a name is a key of `bone_mapping` exactly when it is one of the 17 rig bone names |
| JointRemap.RigSlotAt | genDataset3D.py:17-54 | rig name i resolves to the slot the reference table gives it |
| JointRemap.SlotOfInjective | genDataset3D.py:17-54 | two different rig names never share a slot |
| JointRemap.RigSlotsDistinct | genDataset3D.py:36-54 | the reference slots are pairwise distinct |
| JointRemap.SlotOfSurjective | genDataset3D.py:17-54 | every slot 0..16 is reached by some rig name |
| JointRemap.SortKeypoints | genDataset3D.py:230-233 | an unmapped name raises `KeyError` and a slot past the end raises `IndexError`, both before any write; otherwise exactly the name's slot is overwritten with the coordinate |
| Projection.HeadBonesAreHipsLegsAndSpine | genDataset3D.py:198-202 | the head is used exactly for the rig bones whose slot is below 8 (hip, both legs, spine) |
| Projection.InFrameIffNdcInSquare | genDataset3D.py:218-222 | with the render resolution as bound, a point passes the out-of-frame test exactly when its device coordinates lie in [-1, 1] x [-1, 1] |
| Projection.GetCoordinates | genDataset3D.py:192-228 | raises `ZeroDivisionError` exactly when the render height or `clip.w` is 0; reports the bone's name and its head or tail as world point; an out-of-frame point gives (0, 0), an in-frame one a pixel within 0.5 of the exact one and inside the bounds |
| Projection.OutOfFrameReportsZero | genDataset3D.py:221-222 | a bone outside the image always reports a zero coordinate, so the bone loop stops at it |
| Projection.LeftEdgeCollidesWithSentinel | genDataset3D.py:221-226 | for any view whose bounds equal the render size, a bone at normalised x = -1 within the image height passes the in-frame test yet reports x = 0, indistinguishable from the out-of-frame sentinel |
| Projection.OpticalAxisMapsToCentre | genDataset3D.py:214-226 | a point on the optical axis lands on the rounded image centre |
| Projection.BehindCameraIsRecorded | genDataset3D.py:214-226 | the perspective division accepts a negative `w`: a bone behind the camera passes the in-frame test and is recorded, with no zero, at the pixel of its mirror image through the camera |
| Keyframes.CurveFramesMembers | genDataset3D.py:108-109 | a frame comes from an f-curve exactly when one of its keyframe points truncates to it |
| Keyframes.ActionFramesMembers | genDataset3D.py:107-109 | a frame comes from an action exactly when a keyframe point of one of its f-curves truncates to it |
| Keyframes.SceneFramesMembers | genDataset3D.py:104-109 | a frame is collected exactly when some keyframe point of some animated object truncates to it |
| Keyframes.CollectKeyframes | genDataset3D.py:104-109 | the nested loops collect exactly the scene's truncated keyframe frames |
| Keyframes.MinMax | genDataset3D.py:110 | `min` and `max` raise `ValueError` exactly on an empty set, and otherwise are members bounding every element |
| Keyframes.GetKeyframeRange | genDataset3D.py:100-110 | the range fails exactly when no object has a keyframe, and otherwise is the least and greatest collected frame |
| FrameAssembly.Zeros | genDataset3D.py:284-285 | a fresh keypoint list has 17 slots, all 0 |
| FrameAssembly.FirstStop | genDataset3D.py:287-290 | the bone loop leaves at the first bone that does not get past the zero test and the lookups; all bones before it do |
| FrameAssembly.AssembleFrame | genDataset3D.py:284-292 | the in-place bone loop over two arrays leaves the frames, or the exception, of the per-frame specification |
| FrameAssembly.FillZeroIffUnwritten | genDataset3D.py:284-292 | a slot of the filled frame is 0 exactly when no sorted bone maps to it |
| FrameAssembly.FillHoldsLastWrite | genDataset3D.py:287-292 | the last write to a slot wins: a sorted bone's slot holds its value unless a later bone writes the same slot |
| FrameAssembly.DistinctSlots | genDataset3D.py:287-292 | bones with distinct names that get past the zero test write distinct slots |
| FrameAssembly.SpecAtStop | genDataset3D.py:284-292 | once the loop stops at bone i, the frame is the fill of the bones before i, or the exception bone i raises (projection failure or `KeyError` for an unmapped name) |
| FrameAssembly.FrameStopsAtFirstZero | genDataset3D.py:284-292 | in a frame that succeeds, the loop stops at a bone with a zero coordinate (or the end); every bone before it has its pixel and world point in its slot, and that bone and every later mapped bone leave their slot at 0 |
| FrameAssembly.LaterSlotStaysZero | genDataset3D.py:287-292 | a mapped name that no sorted bone carries keeps its slot at 0 |
| FrameAssembly.FramesUpTo | genDataset3D.py:278-295 | a successful run of n frames gives n 2D and n 3D frames |
| FrameAssembly.FramesUpToRecordsEachFrame | genDataset3D.py:278-295 | a run of frames succeeds exactly when every frame does; its i-th entries are frame start + i's frames, and a failed run carries the first failing frame's exception |
| FrameAssembly.AsWrittenThreeDListRepeatsPixels | genDataset3D.py:294-295 | as written, `keypoints_3d` receives the same 2D frames as `keypoints_2d`, which are those of the intended loop, and the run fails exactly when and as the intended loop does |
| FrameAssembly.FailureSticks | genDataset3D.py:278-295 | once a frame raises, every longer run raises the same exception |
| FrameAssembly.FrameLoopAsWritten | genDataset3D.py:278-295 | the frame loop as written appends the as-written frames to the lists it is given, or raises the first failing frame's exception |
| FrameAssembly.FrameLoop | genDataset3D.py:278-295 | the frame loop appends each frame's 2D and 3D keypoints to the lists it is given, or raises the first failing frame's exception |
| FrameAssembly.ViewsUpToLayout | genDataset3D.py:275-295 | every camera placement contributes one block of n 2D and n 3D frames, in placement order, and block v is placement v's run of frames |
| FrameAssembly.ViewFailureSticks | genDataset3D.py:275-295 | a placement that raises decides the whole sample |
| FrameAssembly.ViewStep | genDataset3D.py:275-295 | one more placement appends its run of frames to both lists, or ends the sample with its exception |
| FrameAssembly.MinMaxUnique | genDataset3D.py:110 | a set's least and greatest elements are unique, so the range the sample uses is determined by the keyframes |
| FrameAssembly.Sample | genDataset3D.py:268-295 | a sample without keyframes raises `ValueError`; otherwise it is the run over all placements of the frames from the least to the greatest keyframe |
| FrameAssembly.SampleAsWritten | genDataset3D.py:273-276 | as written, a sample with keyframes and at least one placement raises `ValueError` at the unpacking of line 276, once `setup_camera` has returned its three values |
| BlenderSkeleton.ParentsAreOrdered | blender_dataset.py:7-8 | the skeleton has 22 joints, joint 0 is the root (-1), and every other joint's parent precedes it |
| BlenderSkeleton.AncestorsPrecede | blender_dataset.py:7-8 | every ancestor of a joint has a smaller index, so the hierarchy has no cycle |
| BlenderSkeleton.SingleRoot | blender_dataset.py:7-8 | joint 0 is the only parentless joint and an ancestor of every other joint |
| BlenderSkeleton.SidesAreDisjointSlots | blender_dataset.py:9-10 | the left and right sets have six joints each, share none, and index the 17 keypoint slots |
| BlenderSkeleton.SidesAreMirrorPairs | blender_dataset.py:9-10 | position by position, the left and right sets name the L- and R- version of the same canonical joint |
| BlenderSkeleton.CentreJoints | blender_dataset.py:9-10 | the slots on neither side are exactly hip, spine, thorax, neck and head |
| CameraParams.Merge | blender_dataset.py:81 | `update` keeps the camera's fields and adds or overwrites those of the intrinsic record |
| CameraParams.CastValue | blender_dataset.py:84 | the float cast fails with `ValueError` exactly on a string, and otherwise gives an array with the same numbers, zero-dimensional for a number |
| CameraParams.CastIsIdempotent | blender_dataset.py:84 | casting an array again changes nothing |
| CameraParams.CastFields | blender_dataset.py:82-84 | after the cast loop the keys are unchanged, `id`, `res_w` and `res_h` are untouched, every other field is an array with the same numbers, and a string in any other field raises `ValueError` |
| CameraParams.CastFieldsInPlace | blender_dataset.py:82-84 | the field-by-field loop ends with the dictionary the cast specification gives |
| CameraParams.NormalizeCenter | blender_dataset.py:87-89 | a missing `res_w` or `res_h` raises `KeyError`; the normalisation's exception passes through; a non-array result raises `AttributeError`; otherwise only `center` changes |
| CameraParams.ScaleFocal | blender_dataset.py:90-91 | a missing `res_w` raises `KeyError`; the step succeeds exactly for a numeric non-zero width and an array focal length; each element becomes focal / width * 2 and nothing else changes |
| CameraParams.ToMeters | blender_dataset.py:92-93 | each translation element times 1000 gives back the original, and nothing else changes |
| CameraParams.AddIntrinsic | blender_dataset.py:96-100 | the first missing field raises `KeyError`; a zero-dimensional field raises `ValueError`; otherwise `intrinsic` is focal length, centre, radial, tangential distortion in that order, its length the sum of theirs, and no other field changes |
| CameraParams.CenterStep | blender_dataset.py:87-89 | without `center` the camera is unchanged; otherwise only `center` may change |
| CameraParams.FocalStep | blender_dataset.py:90-91 | without `focal_length` the camera is unchanged; otherwise only `focal_length` may change |
| CameraParams.TranslationStep | blender_dataset.py:92-93 | without `translation` the camera is unchanged; otherwise only `translation` may change |
| CameraParams.IntrinsicStep | blender_dataset.py:96-100 | without `center` the camera is unchanged; otherwise only `intrinsic` is added |
| CameraParams.NormalizeCamera | blender_dataset.py:80-100 | the statement-by-statement update of one camera gives the per-camera specification |
| CameraParams.CameraTakesIntrinsicAtItsPosition | blender_dataset.py:80-100 | a camera that goes through had an intrinsic record at its position, carries that record's `id`, `res_w`, `res_h`, and has the union of both key sets, plus `intrinsic` when there is a `center` |
| CameraParams.EachCamera | blender_dataset.py:80 | a successful pass over the cameras has one result per camera |
| CameraParams.EachCameraFailureSticks | blender_dataset.py:80-100 | a failing camera decides the whole list |
| CameraParams.EachCameraByPosition | blender_dataset.py:80-100 | the list succeeds exactly when every camera does at its position, and then holds their results in order |
| CameraParams.EachCameraFailsAtFirst | blender_dataset.py:80-100 | a failing list raises the exception of its first failing camera |
| CameraParams.NormalizeSubject | blender_dataset.py:80-100 | the loop over one subject's cameras gives the per-subject specification |
| CameraParams.SubjectBindsByPosition | blender_dataset.py:80-81 | a subject succeeds exactly when camera i does with intrinsic record i; it then needs no more cameras than records and holds each normalised camera, and otherwise raises the first failing camera's exception |
| CameraParams.ScaleFocalTwiceScalesTwice | blender_dataset.py:90-91 | applying the focal-length step again divides by the width again: it is not idempotent |
| CameraParams.FocalLengthExample | blender_dataset.py:90-91 | at width 1920 a focal length (1280, 1080) becomes (4/3, 1.125), and a second application changes it |
| CameraParams.CameraNeedsRecord | blender_dataset.py:81 | a camera past the end of the intrinsic records raises `IndexError` |
| CameraParams.MoreCamerasThanRecordsFails | blender_dataset.py:80-81 | a subject with more cameras than intrinsic records always raises, with `IndexError` when the cameras that have records go through |
| CameraParams.ModuleTablesFail | blender_dataset.py:12-72 | with `blender_cameras_extrinsic_params` and `blender_cameras_intrinsic_params` (four cameras per subject, two records) no subject normalises, whatever the screen normalisation does, and one whose cameras with records go through raises `IndexError` |
| BlenderDataset.NormalizedTableBindsByPosition | blender_dataset.py:79-100 | the normalised table keeps the subjects and camera counts, and camera i of a subject is that camera normalised with record i |
| BlenderDataset.LoadedDataShape | blender_dataset.py:105-112 | `_data` has exactly the archive's subjects and actions; each entry keeps its positions and carries its subject's camera list |
| BlenderDataset.ModuleTablesNeverConstruct | blender_dataset.py:12-100 | a dataset built on `blender_cameras_extrinsic_params` and `blender_cameras_intrinsic_params` never constructs |
| BlenderDataset.ConstructedCoversArchive | blender_dataset.py:79-112 | a table that normalises and has cameras for every subject with actions constructs, keeping the table's subjects and the archive's subjects |
| BlenderDataset.NormalizeTable | blender_dataset.py:79-100 | the loop over subjects succeeds exactly when every subject normalises and then gives the normalised table; otherwise it raises a failing subject's exception |
| BlenderDataset.FileSubject | blender_dataset.py:107-112 | a subject's actions are filed with its camera list; a subject with an action and no camera list raises `TypeError` (no table) or `KeyError(subject)` |
| BlenderDataset.FileActions | blender_dataset.py:105-112 | the nested loops succeed exactly when every subject with an action has a camera list, and then give `_data`; otherwise they raise for such a subject |
| BlenderDataset.Dataset.constructor | blender_dataset.py:76 | the base class leaves `_cameras` as given; `cameras` starts as an empty table and `_data` as an empty map, where `MocapDataset` sets `_data` to `None`; every construction path overwrites `_data` before it is read |
| BlenderDataset.Dataset.NormalizeCameras | blender_dataset.py:79-100 | no table raises `AttributeError`; the step passes exactly when every subject normalises and then replaces `_cameras` by the normalised table |
| BlenderDataset.Dataset.LoadData | blender_dataset.py:105-112 | the step passes exactly when the archive can be filed and then sets `_data` to the filed archive |
| BlenderDataset.Dataset.Construct | blender_dataset.py:79-112 | construction from the held table passes exactly when normalising and filing do, leaving their results, and otherwise raises one of their exceptions |
| BlenderDataset.Dataset.ConstructAsWritten | blender_dataset.py:78-112 | as written, the extrinsic copy goes to `cameras` and construction proceeds from whatever `_cameras` the base class left |
| BlenderDataset.Dataset.ConstructCorrected | blender_dataset.py:78-112 | with the copy stored in `_cameras`, construction proceeds from the extrinsic table |
| BlenderDataset.AsWrittenNeedsBaseCameras | blender_dataset.py:78-79 | with no table from the base class, construction raises `AttributeError` and nothing else |

## Left out

- Blender host calls are not modelled: `setup_bvh`, `setup_environment`, `setup_camera`, `camera_resolution`, `frame_set`, and `calc_matrix_camera` itself. Their results enter as inputs: pose bones per frame, each placement's inverse camera matrix and projection matrix, and the resolutions. This includes `setup_bvh`'s removal of the edit bones named in `bones_to_hide` (lines 60 and 93-96), which is what keeps the pose bones of the supplied rigs among the keys of `bone_mapping`; the model takes any pose bones and keeps the `KeyError` path of `sort_keypoints`.
- `setup_bvh` deletes every object of the scene at the start of each sample (lines 70-74, called at line 260), including the sphere and the camera that `setup_environment` built once before the loop (line 255). As written, `setup_camera` then finds no sphere, and `len(obj.data.vertices)` at line 167 raises `AttributeError` before the unpacking at line 276; `bpy.data.objects['Camera']` at line 282 would raise `KeyError` for the same reason. The model takes the camera placements as inputs and so describes a sample as if the environment survived.
- The outer `num_data` loop of `main`, `random.choice` of the BVH file, the search for the armature object, and `save_keypoints` (file I/O) are not modelled. A missing armature is an input of `None`.
- `np.load` of the archive is not modelled. The loaded `positions_3d` dictionary is an input.
- `normalize_screen_coordinates`, `Skeleton` and `MocapDataset` come from modules that are not part of this model. The first is an arbitrary function parameter; the base constructor's `_cameras` is an input.
- `convert.py` is not part of this model.
- Floating point is modelled by exact reals: float32 rounding, `inf` and `nan` are not represented. A numpy division by zero is the error `NonFinite`.
- CameraParams.ScaleFocal: a zero `res_w` is the error `NonFinite` even for an empty `focal_length`, where numpy returns an empty array and nothing is non-finite.
- CameraParams.ScaleFocal: a `res_w` that is a list or array would broadcast in numpy; the model reports `TypeError` for any non-number width. Numeric strings, which `np.array(..., dtype=float32)` would parse, are treated as non-numeric and raise `ValueError` in `CastValue`.
- BlenderDataset.NormalizeTable: when several subjects fail, Python raises the exception of the first in dictionary insertion order; the model states only that the exception is that of some failing subject.
- BlenderDataset.FileActions: when several subjects with actions have no camera list, the model states only that the exception is that of one of them, not the first in dictionary order.
- BlenderDataset.Dataset.NormalizeCameras: which of several failing subjects raises is not stated, as for `NormalizeTable`.
- BlenderDataset.Dataset.LoadData: which of several failing subjects raises is not stated, as for `FileActions`.
- BlenderDataset.Dataset.Construct: which of several failing subjects raises is not stated, as for `NormalizeTable` and `FileActions`.
- BlenderDataset.Dataset.ConstructAsWritten: which of several failing subjects raises is not stated, as for `Construct`.
- BlenderDataset.Dataset.ConstructCorrected: which of several failing subjects raises is not stated, as for `Construct`.
- BlenderDataset.Dataset.NormalizeCameras: Python has already updated earlier camera dictionaries in place when an exception is raised; the model leaves the fields as they were. The exception leaves `__init__`, so no object with the partial state is ever returned.
- BlenderDataset.Dataset.LoadData: Python has already reset `_data` and filed earlier subjects when an exception is raised; the model leaves `_data` as it was, for the same reason.
- FrameAssembly.FrameStopsAtFirstZero: stated for armatures whose bones have distinct names and for a projection that reports each bone's own name, which Blender guarantees and `GetCoordinates` satisfies.
- The skeleton has 22 joints while a keypoint frame has 17 slots. Only the side sets are related to the slots; the parent array is checked on its own.
- Aliasing of the deep-copied camera dictionaries is not modelled: camera records are values.

## Findings

| source | as written | input that shows it | evidently intended | confidence | as-written member | corrected member |
|---|---|---|---|---|---|---|
| genDataset3D.py:276 | unpacks four names from `setup_camera`, which returns three values (line 177) | any scene with a keyframe and at least one camera placement, once `setup_camera` returns (as written it raises first; see the `setup_bvh` line under Left out) | `camera_position, azimuth, quaternion = setup_camera(...)` | not executed | FrameAssembly.SampleAsWritten | FrameAssembly.Sample |
| genDataset3D.py:295 | appends `keypoint_2d` to `keypoints_3d` | any frame, once the loop is reached (as written, lines 167 and 276 raise first): the 3D list receives the pixels | `keypoints_3d.append(keypoint_3d)` | not executed | FrameAssembly.AsWrittenThreeDListRepeatsPixels | FrameAssembly.FrameLoop |
| blender_dataset.py:78-79 | stores the extrinsic copy in `self.cameras` but iterates `self._cameras` | a base class that leaves `_cameras` as `None`: `AttributeError` | `self._cameras = copy.deepcopy(...)` | not executed | BlenderDataset.AsWrittenNeedsBaseCameras | BlenderDataset.Dataset.ConstructCorrected |
