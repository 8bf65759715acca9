/** `blender_skeleton`: the parent of every joint of the dataset's skeleton
    and the joints on its left and right side. */
module BlenderSkeleton {
  import JointRemap

  /** `parents`: the parent index of each joint, -1 for the root. */
  const Parents: seq<int> :=
    [-1, 0, 1, 2, 3, 0, 4, 5, 6, 0, 7, 8, 9, 10, 8, 11, 12, 13, 8, 14, 15, 16]

  /** `joints_left`. */
  const JointsLeft: seq<nat> := [4, 5, 6, 11, 12, 13]

  /** `joints_right`. */
  const JointsRight: seq<nat> := [1, 2, 3, 14, 15, 16]

  /** A parent array in topological order: joint 0 is the root and every
      other joint's parent comes before it. */
  predicate TopologicallyOrdered(parents: seq<int>) {
    |parents| > 0 && parents[0] == -1 && forall j :: 0 < j < |parents| ==> 0 <= parents[j] < j
  }

  /** The skeleton has 22 joints, and its parent array is topologically
      ordered. */
  lemma ParentsAreOrdered()
    ensures |Parents| == 22
    ensures TopologicallyOrdered(Parents)
  {
  }

  /** `a` is a proper ancestor of `j`: its parent, or an ancestor of its
      parent. */
  predicate IsAncestor(parents: seq<int>, a: int, j: nat)
    requires TopologicallyOrdered(parents) && j < |parents|
    decreases j
  {
    j > 0 && (parents[j] == a || IsAncestor(parents, a, parents[j]))
  }

  /** Every ancestor of a joint has a smaller index, so no joint is its own
      ancestor: the hierarchy has no cycle. */
  lemma {:induction false} AncestorsPrecede(parents: seq<int>, a: int, j: nat)
    requires TopologicallyOrdered(parents) && j < |parents|
    requires IsAncestor(parents, a, j)
    ensures 0 <= a < j
    decreases j
  {
    if parents[j] != a {
      AncestorsPrecede(parents, a, parents[j]);
    }
  }

  /** Joint 0 is an ancestor of every other joint and the only joint with
      no parent: the hierarchy has a single root. */
  lemma {:induction false} SingleRoot(parents: seq<int>, j: nat)
    requires TopologicallyOrdered(parents) && j < |parents|
    ensures parents[j] == -1 <==> j == 0
    ensures j > 0 ==> IsAncestor(parents, 0, j)
    decreases j
  {
    if j > 0 && parents[j] != 0 {
      SingleRoot(parents, parents[j]);
    }
  }

  /** The joint names of `JointRemap.CanonicalJoints` at the given indices. */
  function NamesAt(indices: seq<nat>): (names: seq<string>)
    requires forall i :: 0 <= i < |indices| ==> indices[i] < JointRemap.NumSlots
    ensures |names| == |indices|
  {
    JointRemap.BoneOrderMatchesCanonical();
    seq(|indices|, i requires 0 <= i < |indices| => JointRemap.CanonicalJoints[indices[i]])
  }

  /** The two sides have six joints each, share none, and index keypoint
      slots. */
  lemma SidesAreDisjointSlots()
    ensures |JointsLeft| == 6 && |JointsRight| == 6
    ensures forall i :: 0 <= i < 6 ==> JointsLeft[i] < JointRemap.NumSlots && JointsRight[i] < JointRemap.NumSlots
    ensures forall i, k :: 0 <= i < 6 && 0 <= k < 6 ==> JointsLeft[i] != JointsRight[k]
  {
  }

  /** The sides are the left and right joints of the 17 canonical ones,
      paired by position (`LHip` with `RHip`, and so on). */
  lemma SidesAreMirrorPairs()
    ensures forall i :: 0 <= i < 6 ==>
      && NamesAt(JointsLeft)[i][0] == 'L' && NamesAt(JointsRight)[i][0] == 'R'
      && NamesAt(JointsLeft)[i][1..] == NamesAt(JointsRight)[i][1..]
  {
    forall i | 0 <= i < 6
      ensures NamesAt(JointsLeft)[i][0] == 'L' && NamesAt(JointsRight)[i][0] == 'R'
      ensures NamesAt(JointsLeft)[i][1..] == NamesAt(JointsRight)[i][1..]
    {
      MirrorPairAt(i);
    }
  }

  lemma MirrorPairAt(i: nat)
    requires i < 6
    ensures NamesAt(JointsLeft)[i][0] == 'L' && NamesAt(JointsRight)[i][0] == 'R'
    ensures NamesAt(JointsLeft)[i][1..] == NamesAt(JointsRight)[i][1..]
  {
    var l, r := JointRemap.CanonicalJoints[JointsLeft[i]], JointRemap.CanonicalJoints[JointsRight[i]];
    assert NamesAt(JointsLeft)[i] == l && NamesAt(JointsRight)[i] == r;
    if i == 0 { assert l == "LHip" && r == "RHip"; }
    else if i == 1 { assert l == "LKnee" && r == "RKnee"; }
    else if i == 2 { assert l == "LFoot" && r == "RFoot"; }
    else if i == 3 { assert l == "LShoulder" && r == "RShoulder"; }
    else if i == 4 { assert l == "LElbow" && r == "RElbow"; }
    else { assert l == "LWrist" && r == "RWrist"; }
  }

  /** The slots on neither side are the centre line: hip, spine, thorax,
      neck and head. */
  lemma CentreJoints(s: nat)
    requires s < JointRemap.NumSlots
    ensures s !in JointsLeft && s !in JointsRight <==> s in {0, 7, 8, 9, 10}
  {
  }
}
