/**
 * Skeleton reconstruction and timeline sampling (src/MAF_Helper.cpp).
 * The influence list of the skin cluster becomes a list of joints whose
 * parent and children are found again by matching host names, under a
 * synthetic Root: the parent of the first influence.
 */
module MafHelper {
  import opened Types
  import opened Utilities
  import opened Scene

  // ---------------------------------------------------------------------
  // Name matching
  // ---------------------------------------------------------------------

  /** The host name of every joint, in list order. */
  function Names(host: Host, joints: seq<Joint>): (names: seq<string>)
    ensures |names| == |joints|
    ensures forall k :: 0 <= k < |joints| ==> names[k] == host.nameOf(joints[k].ownDagPath)
  {
    seq(|joints|, k requires 0 <= k < |joints| => host.nameOf(joints[k].ownDagPath))
  }

  /** Position of the last name equal to `target`, or -1. */
  function LastIndexOf(names: seq<string>, target: string): (r: int)
    ensures -1 <= r < |names|
    ensures r >= 0 ==> names[r] == target && forall k :: r < k < |names| ==> names[k] != target
    ensures r == -1 <==> target !in names
  {
    if names == [] then -1
    else if names[|names| - 1] == target then |names| - 1
    else LastIndexOf(names[..|names| - 1], target)
  }

  /** Position of the first element equal to `target`, or -1. */
  function FirstIndexOf<T(==)>(xs: seq<T>, target: T): (r: int)
    ensures -1 <= r < |xs|
    ensures r >= 0 ==> xs[r] == target && forall k :: 0 <= k < r ==> xs[k] != target
    ensures r == -1 <==> target !in xs
  {
    if xs == [] then -1
    else if xs[0] == target then 0
    else
      var r := FirstIndexOf(xs[1..], target);
      if r < 0 then -1 else r + 1
  }

  /**
   * For each native child in order, the position of the first joint with
   * the child's name; children whose name no joint has are dropped.
   */
  function MatchChildren(host: Host, names: seq<string>, children: seq<Handle>): (ids: seq<int>)
    ensures |ids| <= |children|
    ensures forall k :: 0 <= k < |ids| ==> 0 <= ids[k] < |names|
  {
    if children == [] then []
    else
      var prev := MatchChildren(host, names, children[..|children| - 1]);
      var i := FirstIndexOf(names, host.nameOf(children[|children| - 1]));
      if i >= 0 then prev + [i] else prev
  }

  /** An index is matched iff some native child's name first occurs there. */
  lemma {:induction false} MatchChildrenMembers(host: Host, names: seq<string>, children: seq<Handle>, x: int)
    ensures x in MatchChildren(host, names, children) <==>
      exists c :: 0 <= c < |children| && x >= 0 && FirstIndexOf(names, host.nameOf(children[c])) == x
  {
    if children != [] {
      var init := children[..|children| - 1];
      MatchChildrenMembers(host, names, init, x);
      if x in MatchChildren(host, names, children) {
        if x !in MatchChildren(host, names, init) {
          assert FirstIndexOf(names, host.nameOf(children[|children| - 1])) == x;
        } else {
          var c :| 0 <= c < |init| && x >= 0 && FirstIndexOf(names, host.nameOf(init[c])) == x;
          assert children[c] == init[c];
        }
      } else {
        forall c | 0 <= c < |children| && x >= 0
          ensures FirstIndexOf(names, host.nameOf(children[c])) != x
        {
          if c < |init| {
            assert children[c] == init[c];
          }
        }
      }
    }
  }

  // ---------------------------------------------------------------------
  // GetJoints
  // ---------------------------------------------------------------------

  /** `Joint joint{}` after `SetDagPath`, `influenceID = i` and one `AddChild` per native child. */
  function NewJoint(host: Host, dag: Handle, i: int): Joint {
    Joint(0, i, [], host.nameOf(dag), [], dag, host.childrenOf(dag))
  }

  /** The joints `GetJoints` appends, one per influence, in order. */
  function AppendJoints(host: Host, finalJoints: seq<Joint>, jointsDags: seq<Handle>): (r: seq<Joint>)
    ensures |r| == |finalJoints| + |jointsDags| && r[..|finalJoints|] == finalJoints
    ensures forall i :: 0 <= i < |jointsDags| ==>
      var jnt := r[|finalJoints| + i];
      jnt.influenceID == i && jnt.ownDagPath == jointsDags[i] && jnt.name == host.nameOf(jointsDags[i])
      && jnt.childrenObjs == host.childrenOf(jointsDags[i]) && jnt.childrenIDs == [] && jnt.transformPerFrame == []
  {
    finalJoints + seq(|jointsDags|, i requires 0 <= i < |jointsDags| => NewJoint(host, jointsDags[i], i))
  }

  /** The Root object after `GetJoints`: the parent of the first influence, when there is one. */
  function RootAfterGetJoints(host: Host, root: Root, jointsDags: seq<Handle>): Root {
    if |jointsDags| > 0 then root.(rootObj := host.parentOf(jointsDags[0])) else root
  }

  method GetJoints(host: Host, root: Root, finalJoints: seq<Joint>, jointsDags: seq<Handle>)
    returns (status: MStatus, rootOut: Root, joints: seq<Joint>)
    ensures status == Success
    ensures rootOut == RootAfterGetJoints(host, root, jointsDags)
    ensures joints == AppendJoints(host, finalJoints, jointsDags)
  {
    status := Success;
    rootOut := root;
    joints := finalJoints;
    var once := false;
    for i := 0 to |jointsDags|
      invariant once <==> i > 0
      invariant rootOut == RootAfterGetJoints(host, root, jointsDags[..i])
      invariant joints == AppendJoints(host, finalJoints, jointsDags[..i])
    {
      var joint := Joint(0, 0, [], "", [], NullHandle, []);
      joint := joint.(name := host.nameOf(jointsDags[i]), ownDagPath := jointsDags[i]);
      if !once {
        rootOut := rootOut.(rootObj := host.parentOf(jointsDags[i]));
        once := true;
      }
      joint := joint.(influenceID := i);
      var children := host.childrenOf(jointsDags[i]);
      for c := 0 to |children|
        invariant joint == NewJoint(host, jointsDags[i], i).(childrenObjs := children[..c])
      {
        assert children[..c + 1] == children[..c] + [children[c]];
        joint := joint.(childrenObjs := joint.childrenObjs + [children[c]]);
      }
      assert children[..|children|] == children;
      joints := joints + [joint];
      assert jointsDags[..i + 1][..i] == jointsDags[..i];
      assert joints == AppendJoints(host, finalJoints, jointsDags[..i + 1]);
    }
    assert jointsDags[..|jointsDags|] == jointsDags;
  }

  // ---------------------------------------------------------------------
  // GetJointsParentID
  // ---------------------------------------------------------------------

  /** Position of the last joint named like the native parent of joint `j`, or -1 (the Root). */
  function ParentIndex(host: Host, joints: seq<Joint>, j: int): int
    requires 0 <= j < |joints|
  {
    LastIndexOf(Names(host, joints), host.nameOf(host.parentOf(joints[j].ownDagPath)))
  }

  function WithParentIDs(host: Host, joints: seq<Joint>): (r: seq<Joint>)
    ensures |r| == |joints|
  {
    seq(|joints|, j requires 0 <= j < |joints| => joints[j].(parentID := ParentIndex(host, joints, j)))
  }

  /**
   * What `GetJointsParentID` leaves in joint `j`: only the parent ID
   * changes; it is -1 exactly when no joint bears the native parent's name,
   * and otherwise the position of the last joint that does.
   */
  lemma ParentIDRule(host: Host, joints: seq<Joint>, j: int)
    requires 0 <= j < |joints|
    ensures var p := WithParentIDs(host, joints)[j].parentID;
      var parentName := host.nameOf(host.parentOf(joints[j].ownDagPath));
      WithParentIDs(host, joints)[j] == joints[j].(parentID := p) && -1 <= p < |joints|
      && (p == -1 <==> forall k :: 0 <= k < |joints| ==> host.nameOf(joints[k].ownDagPath) != parentName)
      && (p >= 0 ==> host.nameOf(joints[p].ownDagPath) == parentName
                     && forall k :: p < k < |joints| ==> host.nameOf(joints[k].ownDagPath) != parentName)
  {
    var names := Names(host, joints);
    var parentName := host.nameOf(host.parentOf(joints[j].ownDagPath));
    if LastIndexOf(names, parentName) == -1 {
      forall k | 0 <= k < |joints|
        ensures host.nameOf(joints[k].ownDagPath) != parentName
      {
        assert names[k] == host.nameOf(joints[k].ownDagPath);
      }
    }
  }

  /**
   * `GetJointsParentID`: every joint's `parentID` becomes the position of
   * the LAST joint whose name equals its native parent's name (the loop
   * does not stop at the first match), or -1 when there is none; the
   * found-flag is reset for every joint.
   */
  method GetJointsParentID(host: Host, finalJoints: seq<Joint>) returns (status: MStatus, joints: seq<Joint>)
    ensures status == Success
    ensures joints == WithParentIDs(host, finalJoints)
  {
    status := Success;
    var n := |finalJoints|;
    joints := finalJoints;
    var parentFound := false;
    for jIdx := 0 to n
      invariant |joints| == n && !parentFound
      invariant forall k :: 0 <= k < jIdx ==> joints[k] == finalJoints[k].(parentID := ParentIndex(host, finalJoints, k))
      invariant forall k :: jIdx <= k < n ==> joints[k] == finalJoints[k]
    {
      SameDagsSameNames(host, joints, finalJoints);
      var parentName := host.nameOf(host.parentOf(joints[jIdx].ownDagPath));
      var joint;
      parentFound, joint := ScanForParent(host, joints, joints[jIdx], parentName);
      if !parentFound {
        joint := joint.(parentID := -1);
      }
      joints := joints[jIdx := joint];
      parentFound := false;
    }
  }

  /**
   * The inner loop of `GetJointsParentID` for one joint: every joint named
   * `parentName` overwrites the parent ID, so the last one wins.
   */
  method ScanForParent(host: Host, joints: seq<Joint>, joint: Joint, parentName: string)
    returns (parentFound: bool, out: Joint)
    ensures parentFound <==> parentName in Names(host, joints)
    ensures parentFound ==> out == joint.(parentID := LastIndexOf(Names(host, joints), parentName))
    ensures !parentFound ==> out == joint
  {
    ghost var names := Names(host, joints);
    out := joint;
    parentFound := false;
    for pIdx := 0 to |joints|
      invariant parentFound <==> parentName in names[..pIdx]
      invariant parentFound ==> out == joint.(parentID := LastIndexOf(names[..pIdx], parentName))
      invariant !parentFound ==> out == joint
    {
      assert names[..pIdx + 1] == names[..pIdx] + [names[pIdx]];
      if host.nameOf(joints[pIdx].ownDagPath) == parentName {
        out := out.(parentID := pIdx);
        parentFound := true;
      }
    }
    assert names[..|joints|] == names;
  }

  /** Joint lists with the same host objects have the same names. */
  lemma SameDagsSameNames(host: Host, a: seq<Joint>, b: seq<Joint>)
    requires |a| == |b| && forall k :: 0 <= k < |a| ==> a[k].ownDagPath == b[k].ownDagPath
    ensures Names(host, a) == Names(host, b)
  {
  }

  // ---------------------------------------------------------------------
  // GetJointsChildrenIDs and GetRootChildren
  // ---------------------------------------------------------------------

  function ChildIndices(host: Host, joints: seq<Joint>, j: int): seq<int>
    requires 0 <= j < |joints|
  {
    MatchChildren(host, Names(host, joints), joints[j].childrenObjs)
  }

  function WithChildrenIDs(host: Host, joints: seq<Joint>): (r: seq<Joint>)
    ensures |r| == |joints|
  {
    seq(|joints|, j requires 0 <= j < |joints| =>
      joints[j].(childrenIDs := joints[j].childrenIDs + ChildIndices(host, joints, j)))
  }

  /**
   * What `GetJointsChildrenIDs` leaves in joint `j`: only the children IDs
   * change; the old ones stay in front, and every appended ID is the
   * first position of a joint bearing the name of one of `j`'s native
   * children, and each such child contributes.
   */
  lemma ChildrenIDsRule(host: Host, joints: seq<Joint>, j: int, x: int)
    requires 0 <= j < |joints|
    ensures var r := WithChildrenIDs(host, joints)[j];
      var n := |joints[j].childrenIDs|;
      r == joints[j].(childrenIDs := r.childrenIDs) && n <= |r.childrenIDs| && r.childrenIDs[..n] == joints[j].childrenIDs
      && (forall k :: n <= k < |r.childrenIDs| ==> 0 <= r.childrenIDs[k] < |joints|)
      && (x in r.childrenIDs[n..] <==>
            exists c :: (0 <= c < |joints[j].childrenObjs| && x >= 0
              && FirstIndexOf(Names(host, joints), host.nameOf(joints[j].childrenObjs[c])) == x))
  {
    var r := WithChildrenIDs(host, joints)[j];
    var n := |joints[j].childrenIDs|;
    assert r.childrenIDs[n..] == ChildIndices(host, joints, j);
    assert r.childrenIDs[..n] == joints[j].childrenIDs;
    MatchChildrenMembers(host, Names(host, joints), joints[j].childrenObjs, x);
  }

  /**
   * `GetJointsChildrenIDs`: for every joint, each native child in order
   * adds the position of the FIRST joint with the child's name; the IDs are
   * appended to whatever the list already holds.
   */
  method GetJointsChildrenIDs(host: Host, finalJoints: seq<Joint>) returns (joints: seq<Joint>)
    ensures joints == WithChildrenIDs(host, finalJoints)
  {
    var n := |finalJoints|;
    joints := finalJoints;
    for jI := 0 to n
      invariant |joints| == n
      invariant forall k :: 0 <= k < jI ==>
        joints[k] == finalJoints[k].(childrenIDs := finalJoints[k].childrenIDs + ChildIndices(host, finalJoints, k))
      invariant forall k :: jI <= k < n ==> joints[k] == finalJoints[k]
    {
      SameDagsSameNames(host, joints, finalJoints);
      var joint := AddChildrenIDs(host, joints, joints[jI]);
      joints := joints[jI := joint];
    }
  }

  /** The two inner loops of `GetJointsChildrenIDs` for one joint. */
  method AddChildrenIDs(host: Host, joints: seq<Joint>, joint: Joint) returns (out: Joint)
    ensures out == joint.(childrenIDs := joint.childrenIDs + MatchChildren(host, Names(host, joints), joint.childrenObjs))
  {
    ghost var names := Names(host, joints);
    out := joint;
    var children := joint.childrenObjs;
    for cI := 0 to |children|
      invariant out == joint.(childrenIDs := joint.childrenIDs + MatchChildren(host, names, children[..cI]))
    {
      assert children[..cI + 1][..cI] == children[..cI];
      var childName := host.nameOf(children[cI]);
      for aL := 0 to |joints|
        invariant forall k :: 0 <= k < aL ==> names[k] != childName
      {
        if host.nameOf(joints[aL].ownDagPath) == childName {
          assert FirstIndexOf(names, childName) == aL;
          out := out.(childrenIDs := out.childrenIDs + [aL]);
          break;
        }
      }
    }
    assert children[..|children|] == children;
  }

  /** The Root after `GetRootChildren`. */
  function RootWithChildren(host: Host, root: Root, joints: seq<Joint>): (r: Root)
    ensures r.rootObj == root.rootObj && |root.childrenIDs| <= |r.childrenIDs|
    ensures r.childrenIDs[..|root.childrenIDs|] == root.childrenIDs
    ensures forall k :: |root.childrenIDs| <= k < |r.childrenIDs| ==> 0 <= r.childrenIDs[k] < |joints|
  {
    var ids := root.childrenIDs + MatchChildren(host, Names(host, joints), host.childrenOf(root.rootObj));
    assert ids[..|root.childrenIDs|] == root.childrenIDs;
    root.(childrenIDs := ids)
  }

  /** `GetRootChildren`: the same first-match, order-preserving rule applied to the Root's native children. */
  method GetRootChildren(host: Host, root: Root, finalJoints: seq<Joint>) returns (rootOut: Root)
    ensures rootOut == RootWithChildren(host, root, finalJoints)
  {
    var n := |finalJoints|;
    ghost var names := Names(host, finalJoints);
    rootOut := root;
    var children := host.childrenOf(root.rootObj);
    for cI := 0 to |children|
      invariant rootOut == root.(childrenIDs := root.childrenIDs + MatchChildren(host, names, children[..cI]))
    {
      assert children[..cI + 1][..cI] == children[..cI];
      var childName := host.nameOf(children[cI]);
      for aL := 0 to n
        invariant forall k :: 0 <= k < aL ==> names[k] != childName
      {
        if host.nameOf(finalJoints[aL].ownDagPath) == childName {
          assert FirstIndexOf(names, childName) == aL;
          rootOut := rootOut.(childrenIDs := rootOut.childrenIDs + [aL]);
          break;
        }
      }
    }
    assert children[..|children|] == children;
  }

  // ---------------------------------------------------------------------
  // GetJointTransformationsOvertTheTimeline
  // ---------------------------------------------------------------------

  /**
   * Number of frames the sampling loop visits: `cFrame` runs from 0 while
   * `cFrame <= endFrame`, so none when the end time is negative.
   */
  function FrameCount(endTime: int): (n: nat)
    ensures n == 0 <==> endTime < 0
    ensures endTime >= 0 ==> n - 1 == endTime
  {
    if endTime >= 0 then endTime + 1 else 0
  }

  /** The transforms of one node at frames 0 .. n-1, in ascending order. */
  function Samples(host: Host, dag: Handle, n: nat): (r: seq<JointTransform>)
    ensures |r| == n
    ensures forall f :: 0 <= f < n ==> r[f] == host.transformAt(dag, f)
  {
    if n == 0 then [] else Samples(host, dag, n - 1) + [host.transformAt(dag, n - 1)]
  }

  /** One joint after the sampling of frames 0 .. frames-1. */
  function Sampled(host: Host, joint: Joint, frames: nat): Joint {
    joint.(transformPerFrame := joint.transformPerFrame + Samples(host, joint.ownDagPath, frames))
  }

  /** Every joint's per-frame list grown by the samples of frames 0 .. frames-1. */
  function WithSamples(host: Host, joints: seq<Joint>, frames: nat): (r: seq<Joint>)
    ensures |r| == |joints|
  {
    seq(|joints|, j requires 0 <= j < |joints| => Sampled(host, joints[j], frames))
  }

  /**
   * What the sampling leaves in joint `j`: only the per-frame list
   * changes; it grows by exactly `frames` entries, and the entry added for
   * frame f is the joint's transform at time f.
   */
  lemma SamplesRule(host: Host, joints: seq<Joint>, frames: nat, j: int)
    requires 0 <= j < |joints|
    ensures var r := WithSamples(host, joints, frames)[j];
      var n := |joints[j].transformPerFrame|;
      r == joints[j].(transformPerFrame := r.transformPerFrame)
      && |r.transformPerFrame| == n + frames && r.transformPerFrame[..n] == joints[j].transformPerFrame
      && forall f :: 0 <= f < frames ==> r.transformPerFrame[n + f] == host.transformAt(joints[j].ownDagPath, f)
  {
    var r := WithSamples(host, joints, frames)[j];
    var n := |joints[j].transformPerFrame|;
    assert r.transformPerFrame[..n] == joints[j].transformPerFrame;
  }

  /** The transform of `joint` at time `t`, appended. */
  function SampledAt(host: Host, joint: Joint, t: int): Joint {
    joint.(transformPerFrame := joint.transformPerFrame + [host.transformAt(joint.ownDagPath, t)])
  }

  lemma SampledStep(host: Host, joint: Joint, frames: nat)
    ensures Sampled(host, joint, frames + 1) == SampledAt(host, Sampled(host, joint, frames), frames)
  {
    assert Samples(host, joint.ownDagPath, frames + 1)
      == Samples(host, joint.ownDagPath, frames) + [host.transformAt(joint.ownDagPath, frames)];
  }

  /** The status the sampling returns: that of the last `GetTransform`, or success when nothing was sampled. */
  function TimelineStatus(host: Host, joints: seq<Joint>): MStatus {
    if FrameCount(host.endTime) > 0 && |joints| > 0
    then host.transformStatus(joints[|joints| - 1].ownDagPath, host.endTime)
    else Success
  }

  /**
   * `GetJointTransformationsOvertTheTimeline`: frames 0 .. endTime in
   * ascending order; at each frame the cursor moves there and every joint,
   * in list order, gets one more transform. The Root is not sampled. The
   * cursor is left at the last frame visited.
   */
  method GetJointTransformationsOvertTheTimeline(host: Host, cursor: int, finalJoints: seq<Joint>)
    returns (status: MStatus, cursorOut: int, joints: seq<Joint>)
    ensures joints == WithSamples(host, finalJoints, FrameCount(host.endTime))
    ensures cursorOut == if FrameCount(host.endTime) > 0 then host.endTime else cursor
    ensures status == TimelineStatus(host, finalJoints)
  {
    status := Success;
    cursorOut := cursor;
    joints := finalJoints;
    var frames := FrameCount(host.endTime);
    for cFrame := 0 to frames
      invariant |joints| == |finalJoints|
      invariant forall j :: 0 <= j < |joints| ==> joints[j] == Sampled(host, finalJoints[j], cFrame)
      invariant cursorOut == if cFrame > 0 then cFrame - 1 else cursor
      invariant status == if cFrame > 0 && |finalJoints| > 0
        then host.transformStatus(finalJoints[|finalJoints| - 1].ownDagPath, cFrame - 1) else Success
    {
      cursorOut := cFrame;
      status, joints := SampleFrame(host, cursorOut, joints, status);
      forall j | 0 <= j < |joints|
        ensures joints[j] == Sampled(host, finalJoints[j], cFrame + 1)
      {
        SampledStep(host, finalJoints[j], cFrame);
      }
    }
    assert joints == WithSamples(host, finalJoints, frames);
  }

  /** The inner loop of the sampling: one transform per joint at the cursor's time. */
  method SampleFrame(host: Host, cursor: int, joints: seq<Joint>, status: MStatus)
    returns (statusOut: MStatus, out: seq<Joint>)
    ensures |out| == |joints|
    ensures forall j :: 0 <= j < |joints| ==> out[j] == SampledAt(host, joints[j], cursor)
    ensures statusOut == if |joints| > 0 then host.transformStatus(joints[|joints| - 1].ownDagPath, cursor) else status
  {
    statusOut := status;
    out := joints;
    for jointIdx := 0 to |joints|
      invariant |out| == |joints|
      invariant forall j :: 0 <= j < jointIdx ==> out[j] == SampledAt(host, joints[j], cursor)
      invariant forall j :: jointIdx <= j < |joints| ==> out[j] == joints[j]
      invariant statusOut == if jointIdx > 0 then host.transformStatus(joints[jointIdx - 1].ownDagPath, cursor) else status
    {
      var dag := out[jointIdx].ownDagPath;
      var transform := host.transformAt(dag, cursor);
      statusOut := host.transformStatus(dag, cursor);
      out := out[jointIdx := out[jointIdx].(transformPerFrame := out[jointIdx].transformPerFrame + [transform])];
    }
  }

  // ---------------------------------------------------------------------
  // GetAnimationData
  // ---------------------------------------------------------------------

  /** The joints after `GetJoints`, `GetJointsParentID` and `GetJointsChildrenIDs`. */
  function HierarchyJoints(host: Host, finalJoints: seq<Joint>, jointsDags: seq<Handle>): seq<Joint> {
    WithChildrenIDs(host, WithParentIDs(host, AppendJoints(host, finalJoints, jointsDags)))
  }

  /** The Root after `GetJoints` and `GetRootChildren`. */
  function HierarchyRoot(host: Host, root: Root, finalJoints: seq<Joint>, jointsDags: seq<Handle>): Root {
    RootWithChildren(host, RootAfterGetJoints(host, root, jointsDags), HierarchyJoints(host, finalJoints, jointsDags))
  }

  /**
   * `GetAnimationData` for the skin cluster whose influence list is
   * `jointsDags`: the hierarchy case builds joints and Root only, the
   * timeline case only samples, and the combined case builds and then
   * samples. The status is that of the last step that returns one.
   */
  method GetAnimationData(host: Host, jointsDags: seq<Handle>, root: Root, finalJoints: seq<Joint>, cursor: int,
                          informationToGather: AnimationGatheringInformation)
    returns (status: MStatus, rootOut: Root, joints: seq<Joint>, cursorOut: int)
    ensures informationToGather == JointHierarchy ==>
      status == Success && cursorOut == cursor
      && rootOut == HierarchyRoot(host, root, finalJoints, jointsDags)
      && joints == HierarchyJoints(host, finalJoints, jointsDags)
    ensures informationToGather == JointTransformationOverTheTimeline ==>
      status == TimelineStatus(host, finalJoints) && rootOut == root
      && cursorOut == (if FrameCount(host.endTime) > 0 then host.endTime else cursor)
      && joints == WithSamples(host, finalJoints, FrameCount(host.endTime))
    ensures informationToGather == Both ==>
      status == TimelineStatus(host, HierarchyJoints(host, finalJoints, jointsDags))
      && cursorOut == (if FrameCount(host.endTime) > 0 then host.endTime else cursor)
      && rootOut == HierarchyRoot(host, root, finalJoints, jointsDags)
      && joints == WithSamples(host, HierarchyJoints(host, finalJoints, jointsDags), FrameCount(host.endTime))
  {
    status := Success;
    rootOut := root;
    joints := finalJoints;
    cursorOut := cursor;
    match informationToGather {
      case JointHierarchy =>
        status, rootOut, joints := GetJoints(host, rootOut, joints, jointsDags);
        status, joints := GetJointsParentID(host, joints);
        joints := GetJointsChildrenIDs(host, joints);
        rootOut := GetRootChildren(host, rootOut, joints);
      case JointTransformationOverTheTimeline =>
        status, cursorOut, joints := GetJointTransformationsOvertTheTimeline(host, cursorOut, joints);
      case Both =>
        status, rootOut, joints := GetJoints(host, rootOut, joints, jointsDags);
        status, joints := GetJointsParentID(host, joints);
        joints := GetJointsChildrenIDs(host, joints);
        rootOut := GetRootChildren(host, rootOut, joints);
        status, cursorOut, joints := GetJointTransformationsOvertTheTimeline(host, cursorOut, joints);
    }
  }

  // ---------------------------------------------------------------------
  // Properties of the reconstructed hierarchy
  // ---------------------------------------------------------------------

  /** Distinct influence objects. */
  predicate DistinctDags(dags: seq<Handle>) {
    forall a, b :: 0 <= a < b < |dags| ==> dags[a] != dags[b]
  }

  /** With unique names, the first and the last name match both find the node's own position. */
  lemma UniqueNameIndex(host: Host, dags: seq<Handle>, names: seq<string>, x: Handle, k: int)
    requires UniqueNames(host) && DistinctDags(dags)
    requires |names| == |dags| && forall i :: 0 <= i < |dags| ==> names[i] == host.nameOf(dags[i])
    requires 0 <= k < |dags|
    ensures FirstIndexOf(names, host.nameOf(x)) == k <==> dags[k] == x
    ensures LastIndexOf(names, host.nameOf(x)) == k <==> dags[k] == x
  {
    if dags[k] == x {
      assert names[k] == host.nameOf(x);
      var r := FirstIndexOf(names, host.nameOf(x));
      assert host.nameOf(dags[r]) == host.nameOf(x);
      var l := LastIndexOf(names, host.nameOf(x));
      assert host.nameOf(dags[l]) == host.nameOf(x);
    }
  }

  /** With unique names, a native child list matches exactly the positions of the influences it holds. */
  lemma {:induction false} MatchedChildIsChild(host: Host, dags: seq<Handle>, names: seq<string>, children: seq<Handle>, k: int)
    requires UniqueNames(host) && DistinctDags(dags)
    requires |names| == |dags| && forall i :: 0 <= i < |dags| ==> names[i] == host.nameOf(dags[i])
    requires 0 <= k < |dags|
    ensures k in MatchChildren(host, names, children) <==> dags[k] in children
  {
    MatchChildrenMembers(host, names, children, k);
    if k in MatchChildren(host, names, children) {
      var c :| 0 <= c < |children| && k >= 0 && FirstIndexOf(names, host.nameOf(children[c])) == k;
      UniqueNameIndex(host, dags, names, children[c], k);
    }
    if dags[k] in children {
      var c :| 0 <= c < |children| && children[c] == dags[k];
      UniqueNameIndex(host, dags, names, children[c], k);
    }
  }

  /** The names of the influences, in influence order. */
  function InfluenceNames(host: Host, dags: seq<Handle>): seq<string> {
    seq(|dags|, i requires 0 <= i < |dags| => host.nameOf(dags[i]))
  }

  /** Joint `k` as `GetJoints` builds it from scratch. */
  lemma AppendedJointAt(host: Host, dags: seq<Handle>, k: int)
    requires 0 <= k < |dags|
    ensures AppendJoints(host, [], dags)[k] == NewJoint(host, dags[k], k)
  {
    assert AppendJoints(host, [], dags)[0 + k] == NewJoint(host, dags[k], k);
  }

  /** The joints `GetJoints` builds from scratch carry the influences' names. */
  lemma AppendedNames(host: Host, dags: seq<Handle>)
    ensures Names(host, AppendJoints(host, [], dags)) == InfluenceNames(host, dags)
  {
    var j0 := AppendJoints(host, [], dags);
    forall i | 0 <= i < |dags|
      ensures Names(host, j0)[i] == InfluenceNames(host, dags)[i]
    {
      AppendedJointAt(host, dags, i);
    }
  }

  /** Setting the parent IDs keeps every other field. */
  lemma ParentIDsAt(host: Host, joints: seq<Joint>, k: int)
    requires 0 <= k < |joints|
    ensures WithParentIDs(host, joints)[k] == joints[k].(parentID := ParentIndex(host, joints, k))
    ensures Names(host, WithParentIDs(host, joints)) == Names(host, joints)
  {
    SameDagsSameNames(host, WithParentIDs(host, joints), joints);
  }

  /** Setting the children IDs keeps every other field. */
  lemma ChildrenIDsAt(host: Host, joints: seq<Joint>, k: int)
    requires 0 <= k < |joints|
    ensures WithChildrenIDs(host, joints)[k]
      == joints[k].(childrenIDs := joints[k].childrenIDs + ChildIndices(host, joints, k))
    ensures Names(host, WithChildrenIDs(host, joints)) == Names(host, joints)
  {
    SameDagsSameNames(host, WithChildrenIDs(host, joints), joints);
  }

  /** Joint `k` of the hierarchy built from scratch: its parent ID and children IDs by name matching. */
  lemma HierarchyJointAt(host: Host, dags: seq<Handle>, k: int)
    requires 0 <= k < |dags|
    ensures |HierarchyJoints(host, [], dags)| == |dags|
    ensures HierarchyJoints(host, [], dags)[k].parentID
      == LastIndexOf(InfluenceNames(host, dags), host.nameOf(host.parentOf(dags[k])))
    ensures HierarchyJoints(host, [], dags)[k].childrenIDs
      == MatchChildren(host, InfluenceNames(host, dags), host.childrenOf(dags[k]))
  {
    var j0 := AppendJoints(host, [], dags);
    var j1 := WithParentIDs(host, j0);
    AppendedNames(host, dags);
    AppendedJointAt(host, dags, k);
    ParentIDsAt(host, j0, k);
    ChildrenIDsAt(host, j1, k);
  }

  /** The Root of the hierarchy built from scratch: the first influence's parent, and its matched children. */
  lemma HierarchyRootIs(host: Host, dags: seq<Handle>)
    requires |dags| > 0
    ensures HierarchyRoot(host, DefaultRoot, [], dags).rootObj == host.parentOf(dags[0])
    ensures HierarchyRoot(host, DefaultRoot, [], dags).childrenIDs
      == MatchChildren(host, InfluenceNames(host, dags), host.childrenOf(host.parentOf(dags[0])))
  {
    var j0 := AppendJoints(host, [], dags);
    var j1 := WithParentIDs(host, j0);
    AppendedNames(host, dags);
    ParentIDsAt(host, j0, 0);
    ChildrenIDsAt(host, j1, 0);
  }

  /** The name-level core of the duality: a child match at `j` is a last parent match at `j`. */
  lemma NameMatchDuality(host: Host, dags: seq<Handle>, j: int, k: int)
    requires UniqueNames(host) && ConsistentTree(host) && DistinctDags(dags)
    requires 0 <= j < |dags| && 0 <= k < |dags|
    ensures k in MatchChildren(host, InfluenceNames(host, dags), host.childrenOf(dags[j]))
        <==> LastIndexOf(InfluenceNames(host, dags), host.nameOf(host.parentOf(dags[k]))) == j
  {
    var names := InfluenceNames(host, dags);
    MatchedChildIsChild(host, dags, names, host.childrenOf(dags[j]), k);
    UniqueNameIndex(host, dags, names, host.parentOf(dags[k]), j);
    ChildParentLink(host, dags[j], dags[k]);
  }

  /**
   * On a scene whose names are unique and whose parent and child links
   * agree, building the hierarchy from distinct influences gives joint `k`
   * the parent ID `j` exactly when `k` is among joint `j`'s children IDs.
   */
  lemma {:induction false} ParentChildDuality(host: Host, dags: seq<Handle>, j: int, k: int)
    requires UniqueNames(host) && ConsistentTree(host) && DistinctDags(dags)
    requires 0 <= j < |dags| && 0 <= k < |dags|
    ensures |HierarchyJoints(host, [], dags)| == |dags|
    ensures k in HierarchyJoints(host, [], dags)[j].childrenIDs <==> HierarchyJoints(host, [], dags)[k].parentID == j
  {
    HierarchyJointAt(host, dags, j);
    HierarchyJointAt(host, dags, k);
    NameMatchDuality(host, dags, j, k);
  }

  /** The name-level core of the Root property. */
  lemma RootNameMatch(host: Host, dags: seq<Handle>, rootObj: Handle, k: int)
    requires UniqueNames(host) && ConsistentTree(host) && DistinctDags(dags)
    requires 0 <= k < |dags|
    ensures k in MatchChildren(host, InfluenceNames(host, dags), host.childrenOf(rootObj))
        <==> host.parentOf(dags[k]) == rootObj
    ensures host.parentOf(dags[k]) == rootObj && rootObj !in dags
        ==> LastIndexOf(InfluenceNames(host, dags), host.nameOf(host.parentOf(dags[k]))) == -1
  {
    var names := InfluenceNames(host, dags);
    MatchedChildIsChild(host, dags, names, host.childrenOf(rootObj), k);
    ChildParentLink(host, rootObj, dags[k]);
    if rootObj !in dags && host.nameOf(rootObj) in names {
      var i :| 0 <= i < |names| && names[i] == host.nameOf(rootObj);
      assert dags[i] == rootObj;
    }
  }

  /**
   * On such a scene, the Root's children IDs are the joints whose native
   * parent is the Root object, and when the Root object is not itself an
   * influence all of them carry parent ID -1.
   */
  lemma {:induction false} RootChildrenHaveNoParentJoint(host: Host, dags: seq<Handle>, k: int)
    requires UniqueNames(host) && ConsistentTree(host) && DistinctDags(dags)
    requires 0 <= k < |dags|
    ensures |HierarchyJoints(host, [], dags)| == |dags|
    ensures k in HierarchyRoot(host, DefaultRoot, [], dags).childrenIDs
      <==> host.parentOf(dags[k]) == HierarchyRoot(host, DefaultRoot, [], dags).rootObj
    ensures k in HierarchyRoot(host, DefaultRoot, [], dags).childrenIDs
      && HierarchyRoot(host, DefaultRoot, [], dags).rootObj !in dags
      ==> HierarchyJoints(host, [], dags)[k].parentID == -1
  {
    HierarchyJointAt(host, dags, k);
    HierarchyRootIs(host, dags);
    RootNameMatch(host, dags, host.parentOf(dags[0]), k);
  }

  /**
   * When names repeat, the two directions disagree: two influences named
   * alike make the parent search pick the later one and the child search
   * the earlier one.
   */
  lemma {:induction false} DuplicateNamesSplitParentAndChild(host: Host, dags: seq<Handle>)
    requires |dags| == 3 && host.childrenOf(dags[0]) == [dags[1]] && host.parentOf(dags[1]) == dags[0]
    requires host.nameOf(dags[2]) == host.nameOf(dags[0]) && host.nameOf(dags[1]) != host.nameOf(dags[0])
    ensures |HierarchyJoints(host, [], dags)| == 3
    ensures HierarchyJoints(host, [], dags)[1].parentID == 2
    ensures HierarchyJoints(host, [], dags)[0].childrenIDs == [1]
  {
    HierarchyJointAt(host, dags, 0);
    HierarchyJointAt(host, dags, 1);
    DuplicateNamesMatch(host, dags);
  }

  /** The name matching behind `DuplicateNamesSplitParentAndChild`. */
  lemma DuplicateNamesMatch(host: Host, dags: seq<Handle>)
    requires |dags| == 3 && host.childrenOf(dags[0]) == [dags[1]] && host.parentOf(dags[1]) == dags[0]
    requires host.nameOf(dags[2]) == host.nameOf(dags[0]) && host.nameOf(dags[1]) != host.nameOf(dags[0])
    ensures LastIndexOf(InfluenceNames(host, dags), host.nameOf(host.parentOf(dags[1]))) == 2
    ensures MatchChildren(host, InfluenceNames(host, dags), host.childrenOf(dags[0])) == [1]
  {
    var names := InfluenceNames(host, dags);
    assert names[2] == host.nameOf(dags[0]);
    assert names[1..][0] == host.nameOf(dags[1]);
    assert FirstIndexOf(names, host.nameOf(dags[1])) == 1;
    assert MatchChildren(host, names, [dags[1]]) == MatchChildren(host, names, []) + [1];
  }
}
