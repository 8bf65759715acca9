/** The two lookup tables that turn a rig bone name into one of the 17
    canonical keypoint slots, and `sort_keypoints`, which writes a value into
    that slot of a keypoint list in place. */
module JointRemap {
  import opened Outcomes

  /** Number of slots in a keypoint frame. */
  const NumSlots: nat := 17

  /** `bone_mapping`: rig (BVH) bone name to canonical joint name. */
  const BoneMapping: map<string, string> := map[
    "Hips" := "Hip",
    "UpperLeg_R" := "RHip",
    "LowerLeg_R" := "RKnee",
    "Foot_R" := "RFoot",
    "UpperLeg_L" := "LHip",
    "LowerLeg_L" := "LKnee",
    "Foot_L" := "LFoot",
    "Spine" := "Spine",
    "Chest" := "Thorax",
    "Neck" := "Neck",
    "Head" := "Head",
    "Shoulder_R" := "RShoulder",
    "UpperArm_R" := "RElbow",
    "LowerArm_R" := "RWrist",
    "Shoulder_L" := "LShoulder",
    "UpperArm_L" := "LElbow",
    "LowerArm_L" := "LWrist"
  ]

  /** `bone_order`: canonical joint name to its slot. */
  const BoneOrder: map<string, nat> := map[
    "Hip" := 0,
    "RHip" := 1,
    "RKnee" := 2,
    "RFoot" := 3,
    "LHip" := 4,
    "LKnee" := 5,
    "LFoot" := 6,
    "Spine" := 7,
    "Thorax" := 8,
    "Neck" := 9,
    "Head" := 10,
    "LShoulder" := 11,
    "LElbow" := 12,
    "LWrist" := 13,
    "RShoulder" := 14,
    "RElbow" := 15,
    "RWrist" := 16
  ]

  /** Reference enumeration of the canonical joints, listed in slot order. */
  const CanonicalJoints: seq<string> := [
    "Hip", "RHip", "RKnee", "RFoot", "LHip", "LKnee", "LFoot", "Spine",
    "Thorax", "Neck", "Head", "LShoulder", "LElbow", "LWrist",
    "RShoulder", "RElbow", "RWrist"
  ]

  /** Reference enumeration of the rig bone names, in the order
      `bone_mapping` lists them. */
  const RigBones: seq<string> := [
    "Hips", "UpperLeg_R", "LowerLeg_R", "Foot_R", "UpperLeg_L", "LowerLeg_L",
    "Foot_L", "Spine", "Chest", "Neck", "Head", "Shoulder_R", "UpperArm_R",
    "LowerArm_R", "Shoulder_L", "UpperArm_L", "LowerArm_L"
  ]

  /** The slot of `RigBones[i]`, written out independently of the tables. */
  const RigSlots: seq<nat> := [0, 1, 2, 3, 4, 5, 6, 7, 8, 9, 10, 14, 15, 16, 11, 12, 13]

  /** `bone_order[bone_mapping[name]]`, with the `KeyError` of whichever
      lookup misses first. */
  function SlotOf(name: string): (r: Result<nat>)
    ensures r.Failure? <==> name !in BoneMapping
    ensures r.Failure? ==> r.error == KeyError(name)
    ensures r.Success? ==> r.value < NumSlots
  {
    if name !in BoneMapping then Failure(KeyError(name))
    else
      var key := BoneMapping[name];
      MappingTargetsAreCanonical(name);
      if key !in BoneOrder then Failure(KeyError(key)) else Success(BoneOrder[key])
  }

  /** `bone_order` agrees with the reference enumeration: its keys are
      exactly the canonical joints and joint `i` sits in slot `i`. */
  lemma BoneOrderMatchesCanonical()
    ensures |CanonicalJoints| == NumSlots
    ensures forall i :: 0 <= i < NumSlots ==>
      CanonicalJoints[i] in BoneOrder && BoneOrder[CanonicalJoints[i]] == i
    ensures forall k :: k in BoneOrder ==> k in CanonicalJoints
  {
  }

  /** `bone_order` is a bijection from the 17 canonical names onto 0..16. */
  lemma BoneOrderIsBijection()
    ensures forall k :: k in BoneOrder ==> BoneOrder[k] < NumSlots
    ensures forall k1, k2 :: k1 in BoneOrder && k2 in BoneOrder && BoneOrder[k1] == BoneOrder[k2] ==> k1 == k2
    ensures forall s :: 0 <= s < NumSlots ==> s in BoneOrder.Values
  {
    BoneOrderMatchesCanonical();
    forall k1, k2 | k1 in BoneOrder && k2 in BoneOrder && BoneOrder[k1] == BoneOrder[k2]
      ensures k1 == k2
    {
      var i1 :| 0 <= i1 < NumSlots && CanonicalJoints[i1] == k1;
      var i2 :| 0 <= i2 < NumSlots && CanonicalJoints[i2] == k2;
    }
    forall s | 0 <= s < NumSlots
      ensures s in BoneOrder.Values
    {
      assert BoneOrder[CanonicalJoints[s]] == s;
    }
  }

  /** Every value of `bone_mapping` is a key of `bone_order`, so the second
      lookup of `sort_keypoints` never misses. */
  lemma MappingTargetsAreCanonical(name: string)
    requires name in BoneMapping
    ensures BoneMapping[name] in BoneOrder
  {
  }

  /** The rig names are exactly the keys of `bone_mapping`, and rig name
      `RigBones[i]` lands in slot `RigSlots[i]`. */
  lemma RigSlotsTable()
    ensures |RigBones| == |RigSlots| == NumSlots
    ensures forall n :: n in BoneMapping <==> n in RigBones
    ensures forall i :: 0 <= i < NumSlots ==> SlotOf(RigBones[i]) == Success(RigSlots[i])
  {
    RigBonesAreMappingKeys();
    forall i | 0 <= i < NumSlots
      ensures SlotOf(RigBones[i]) == Success(RigSlots[i])
    {
      RigSlotAt(i);
    }
  }

  lemma RigBonesAreMappingKeys()
    ensures forall n :: n in BoneMapping <==> n in RigBones
  {
  }

  lemma RigSlotAt(i: nat)
    requires i < NumSlots
    ensures SlotOf(RigBones[i]) == Success(RigSlots[i])
  {
    RigJointAt(i);
    BoneOrderMatchesCanonical();
  }

  /** Rig name `RigBones[i]` is mapped to canonical joint `RigSlots[i]`. */
  lemma RigJointAt(i: nat)
    requires i < NumSlots
    ensures RigBones[i] in BoneMapping && BoneMapping[RigBones[i]] == CanonicalJoints[RigSlots[i]]
  {
    if i < 6 {
    } else if i < 12 {
    } else {
    }
  }

  /** Exactly the first eight rig names land in the first eight slots. */
  lemma RigSlotsBelowEight(i: nat)
    requires i < NumSlots
    ensures RigSlots[i] < 8 <==> i < 8
  {
  }

  /** The slots that some name of `bone_mapping` resolves to. */
  function SlotsReached(): set<nat> {
    set n | n in BoneMapping :: SlotOf(n).value
  }

  /** The 17 rig names map to 17 distinct slots. */
  lemma SlotOfInjective()
    ensures forall n1, n2 :: n1 in BoneMapping && n2 in BoneMapping && n1 != n2 ==>
      SlotOf(n1).value != SlotOf(n2).value
  {
    RigSlotsTable();
    forall n1, n2 | n1 in BoneMapping && n2 in BoneMapping && n1 != n2
      ensures SlotOf(n1).value != SlotOf(n2).value
    {
      var i1 :| 0 <= i1 < NumSlots && RigBones[i1] == n1;
      var i2 :| 0 <= i2 < NumSlots && RigBones[i2] == n2;
      RigSlotsDistinct(i1, i2);
    }
  }

  /** Two different rig names have different slots. */
  lemma SlotsDiffer(n1: string, n2: string)
    requires n1 in BoneMapping && n2 in BoneMapping && n1 != n2
    ensures SlotOf(n1).value != SlotOf(n2).value
  {
    SlotOfInjective();
  }

  lemma RigSlotsDistinct(i: nat, j: nat)
    requires i < NumSlots && j < NumSlots && i != j
    ensures RigSlots[i] != RigSlots[j]
  {
  }

  /** Every one of the 17 slots is the slot of some rig name. */
  lemma SlotOfSurjective()
    ensures forall s :: 0 <= s < NumSlots ==> s in SlotsReached()
  {
    RigSlotsTable();
    forall s | 0 <= s < NumSlots
      ensures s in SlotsReached()
    {
      var i := if s < 11 then s else if s < 14 then s + 3 else s - 3;
      assert RigSlots[i] == s && RigBones[i] in RigBones;
      assert RigBones[i] in BoneMapping && SlotOf(RigBones[i]).value == s;
    }
  }

  /** An entry of a keypoint list: the integer 0 the list starts with, or a
      coordinate written by `sort_keypoints`. */
  datatype Slot<T> = Zero | Value(v: T)

  /** `sort_keypoints(coordinats, bone_name, keypoint_list)`: writes
      `coordinats` into the slot of `bone_name`, in place. An unmapped name
      raises `KeyError` before anything is written; a slot past the end of
      the list raises `IndexError`. */
  method SortKeypoints<T>(coordinats: T, boneName: string, keypointList: array<Slot<T>>)
    returns (o: Outcome)
    modifies keypointList
    ensures boneName !in BoneMapping ==> o == Fail(KeyError(boneName))
    ensures boneName in BoneMapping && SlotOf(boneName).value >= keypointList.Length ==> o == Fail(IndexError)
    ensures o.Fail? ==> keypointList[..] == old(keypointList[..])
    ensures o.Pass? <==> boneName in BoneMapping && SlotOf(boneName).value < keypointList.Length
    ensures o.Pass? ==> keypointList[..] == old(keypointList[..])[SlotOf(boneName).value := Value(coordinats)]
  {
    var slot := SlotOf(boneName);
    if slot.Failure? {
      return Fail(slot.error);
    }
    var value := slot.value;
    if value >= keypointList.Length {
      return Fail(IndexError);
    }
    keypointList[value] := Value(coordinats);
    o := Pass;
  }
}
