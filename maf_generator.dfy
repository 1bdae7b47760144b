/**
 * `MAF_Generator` (src/MAF_Generator.cpp): the animation export. The
 * binary format writes nothing yet; the text format writes a header, the
 * Root's block and one block per joint, each block holding one frame
 * entry per frame before the animation end.
 */
module MafGenerator {
  import opened Wrappers
  import opened Types
  import opened Utilities
  import opened Scene
  import opened Streams
  import MafHelper

  /** `size_t` is 64 bits wide. */
  const SizeRange: int := 0x1_0000_0000_0000_0000

  /** `n - 1` on a `size_t`: one less, except that zero wraps round to the largest value. */
  function SizeMinusOne(n: nat): nat {
    if n == 0 then SizeRange - 1 else n - 1
  }

  /** Frames the writer's loops visit: the index runs from 0 while it is below the end time. */
  function WrittenFrames(endTime: int): (n: nat)
    ensures endTime > 0 ==> n == endTime
    ensures endTime <= 0 ==> n == 0
  {
    if endTime > 0 then endTime else 0
  }

  // ---------------------------------------------------------------------
  // The text layout
  // ---------------------------------------------------------------------

  /** The Root block pads its Scale and Shear labels with a tab, the joint blocks with spaces. */
  const RootScale := "\t\tScale\t [ "
  const RootShear := "\t\tShear\t [ "
  const JointScale := "\t\tScale    [ "
  const JointShear := "\t\tShear    [ "

  /** One labelled line of three values. */
  function VecLine(caption: string, v: Vec3): seq<Piece> {
    [Lit(caption), RealText(v.x), Lit(", "), RealText(v.y), Lit(", "), RealText(v.z), Lit(" ]\n")]
  }

  /** The quaternion line. */
  function QuatLine(q: Quat): seq<Piece> {
    [Lit("\t\tRotation [ "), RealText(q.x), Lit(", "), RealText(q.y), Lit(", "), RealText(q.z), Lit(", "),
     RealText(q.w), Lit(" ]\n")]
  }

  function FrameHead(cFrame: int): seq<Piece> {
    [Lit("\tFrame "), IntText(cFrame), Lit("\n\t{\n")]
  }

  /** The entry of frame `cFrame`: position, rotation, scale and shear; the Euler rotation is not written. */
  function FrameText(cFrame: int, t: JointTransform, scaleLabel: string, shearLabel: string): (ps: seq<Piece>)
    ensures |ps| == FrameSize
  {
    FrameHead(cFrame) + VecLine("\t\tPosition [ ", t.position) + QuatLine(t.rotation)
      + VecLine(scaleLabel, t.scale) + VecLine(shearLabel, t.shear) + [Lit("\t} \n")]
  }

  const FrameSize := 34

  /** The entries of frames 0, 1, ..., |ts|-1, entry f showing `ts[f]`. */
  function FramesText(ts: seq<JointTransform>, scaleLabel: string, shearLabel: string): seq<Piece> {
    if ts == [] then []
    else
      var f := |ts| - 1;
      FramesText(ts[..f], scaleLabel, shearLabel) + FrameText(f, ts[f], scaleLabel, shearLabel)
  }

  function Header(jointCount: nat, frameCount: nat, frameRate: real): seq<Piece> {
    [Lit("Joint Count [ "), IntText(jointCount), Lit(" ] \n"),
     Lit("Frame Count [ "), IntText(frameCount), Lit(" ] \n"),
     Lit("Frame Rate  [ "), RealText(frameRate), Lit(" ] \n")]
  }

  /** The joint count counts the Root; the frame count is one less than the first joint's stored frames. */
  function HeaderOf(host: Host, finalJoints: seq<Joint>): seq<Piece>
    requires |finalJoints| > 0
  {
    Header(|finalJoints| + 1, SizeMinusOne(|finalJoints[0].transformPerFrame|), GetFrameRate(host.uiUnit))
  }

  function RootHead(name: string): seq<Piece> {
    [Lit("Root: "), Lit(name), Lit(" [ -1 ] --- PARENT IDX [ -1 ]"), Lit("\n{\n")]
  }

  /** `n` copies of one transform. */
  function Repeated(t: JointTransform, n: nat): (ts: seq<JointTransform>)
    ensures |ts| == n && forall f :: 0 <= f < n ==> ts[f] == t
  {
    seq(n, f => t)
  }

  /**
   * The Root block: `n` frame entries that all show the Root's transform
   * where the cursor stands, since the loop never moves the cursor.
   */
  function RootBlock(name: string, t: JointTransform, n: nat): seq<Piece> {
    RootHead(name) + FramesText(Repeated(t, n), RootScale, RootShear) + [Lit("} \n")]
  }

  function JointHead(jointIdx: int, name: string, parentID: int): seq<Piece> {
    [Lit("Joint: "), Lit(name), Lit(" ["), IntText(jointIdx), Lit("] --- PARENT IDX [ "), IntText(parentID), Lit(" ]\n{\n")]
  }

  /** The block of joint number `jointIdx`: its name, its index, its raw parent ID, and its frames. */
  function JointBlock(jointIdx: int, name: string, parentID: int, ts: seq<JointTransform>): seq<Piece> {
    JointHead(jointIdx, name, parentID) + FramesText(ts, JointScale, JointShear) + [Lit("} \n")]
  }

  /** Every joint has stored at least the frames the writer reads. */
  predicate FramesStored(joints: seq<Joint>, n: nat) {
    forall j :: 0 <= j < |joints| ==> n <= |joints[j].transformPerFrame|
  }

  /** The joint blocks in list order, each showing its joint's first `n` stored frames. */
  function JointsText(joints: seq<Joint>, n: nat): seq<Piece>
    requires FramesStored(joints, n)
  {
    if joints == [] then []
    else
      var j := |joints| - 1;
      JointsText(joints[..j], n)
        + JointBlock(j, joints[j].name, joints[j].parentID, joints[j].transformPerFrame[..n])
  }

  /** The whole text file, the cursor standing at `cursor`. */
  function AnimationText(host: Host, cursor: int, root: Root, finalJoints: seq<Joint>): (text: seq<Piece>)
    requires |finalJoints| > 0 && FramesStored(finalJoints, WrittenFrames(host.endTime))
    ensures |text| >= 9
    ensures text[1] == IntText(|finalJoints| + 1)
    ensures text[4] == IntText(SizeMinusOne(|finalJoints[0].transformPerFrame|))
    ensures text[7] == RealText(GetFrameRate(host.uiUnit)) && GetFrameRate(host.uiUnit) > 0.0
  {
    var n := WrittenFrames(host.endTime);
    HeaderOf(host, finalJoints)
      + RootBlock(host.nameOf(root.rootObj), host.transformAt(root.rootObj, cursor), n)
      + JointsText(finalJoints, n)
  }

  // ---------------------------------------------------------------------
  // The writer
  // ---------------------------------------------------------------------

  /** One frame entry, one write per source line. */
  method WriteFrame(file: Stream<Piece>, cFrame: int, t: JointTransform, scaleLabel: string, shearLabel: string)
    modifies file
    ensures file.items == old(file.items) + FrameText(cFrame, t, scaleLabel, shearLabel)
  {
    file.WriteAll(FrameHead(cFrame));
    file.WriteAll(VecLine("\t\tPosition [ ", t.position));
    file.WriteAll(QuatLine(t.rotation));
    file.WriteAll(VecLine(scaleLabel, t.scale));
    file.WriteAll(VecLine(shearLabel, t.shear));
    file.WriteAll([Lit("\t} \n")]);
    Append6(old(file.items), FrameHead(cFrame), VecLine("\t\tPosition [ ", t.position), QuatLine(t.rotation),
            VecLine(scaleLabel, t.scale), VecLine(shearLabel, t.shear), [Lit("\t} \n")]);
  }

  lemma FramesTextStep(ts: seq<JointTransform>, f: int, scaleLabel: string, shearLabel: string)
    requires 0 <= f < |ts|
    ensures FramesText(ts[..f + 1], scaleLabel, shearLabel)
      == FramesText(ts[..f], scaleLabel, shearLabel) + FrameText(f, ts[f], scaleLabel, shearLabel)
  {
    assert ts[..f + 1][..f] == ts[..f];
  }

  /** The Root block; `GetTransform` of the Root is read at the cursor in every iteration. */
  method WriteRootBlock(file: Stream<Piece>, host: Host, cursor: int, root: Root, endFrame: int)
    modifies file
    ensures file.items == old(file.items)
      + RootBlock(host.nameOf(root.rootObj), host.transformAt(root.rootObj, cursor), WrittenFrames(endFrame))
  {
    var name := host.nameOf(root.rootObj);
    ghost var all := Repeated(host.transformAt(root.rootObj, cursor), WrittenFrames(endFrame));
    file.WriteAll(RootHead(name));
    ghost var start := file.items;
    var rootFrameIdx := 0;
    while rootFrameIdx < endFrame
      invariant 0 <= rootFrameIdx <= WrittenFrames(endFrame)
      invariant file.items == start + FramesText(all[..rootFrameIdx], RootScale, RootShear)
    {
      var transform := host.transformAt(root.rootObj, cursor);
      ghost var before := file.items;
      WriteFrame(file, rootFrameIdx, transform, RootScale, RootShear);
      FramesTextStep(all, rootFrameIdx, RootScale, RootShear);
      Grows(start, FramesText(all[..rootFrameIdx], RootScale, RootShear), before,
            FrameText(rootFrameIdx, transform, RootScale, RootShear),
            FramesText(all[..rootFrameIdx + 1], RootScale, RootShear), file.items);
      rootFrameIdx := rootFrameIdx + 1;
    }
    assert all[..rootFrameIdx] == all;
    file.WriteAll([Lit("} \n")]);
  }

  /** One joint's block: frame `cFrame` shows the joint's stored transform number `cFrame`. */
  method WriteJointBlock(file: Stream<Piece>, jointIdx: int, joint: Joint, endFrame: int)
    requires WrittenFrames(endFrame) <= |joint.transformPerFrame|
    modifies file
    ensures file.items == old(file.items)
      + JointBlock(jointIdx, joint.name, joint.parentID, joint.transformPerFrame[..WrittenFrames(endFrame)])
  {
    ghost var all := joint.transformPerFrame[..WrittenFrames(endFrame)];
    file.WriteAll(JointHead(jointIdx, joint.name, joint.parentID));
    ghost var start := file.items;
    var cFrame := 0;
    while cFrame < endFrame
      invariant 0 <= cFrame <= WrittenFrames(endFrame)
      invariant file.items == start + FramesText(all[..cFrame], JointScale, JointShear)
    {
      var transform := joint.transformPerFrame[cFrame];
      ghost var before := file.items;
      WriteFrame(file, cFrame, transform, JointScale, JointShear);
      FramesTextStep(all, cFrame, JointScale, JointShear);
      Grows(start, FramesText(all[..cFrame], JointScale, JointShear), before,
            FrameText(cFrame, transform, JointScale, JointShear),
            FramesText(all[..cFrame + 1], JointScale, JointShear), file.items);
      cFrame := cFrame + 1;
    }
    assert all[..cFrame] == all;
    file.WriteAll([Lit("} \n")]);
  }

  lemma JointsTextStep(joints: seq<Joint>, j: int, n: nat)
    requires 0 <= j < |joints| && FramesStored(joints, n)
    ensures FramesStored(joints[..j], n) && FramesStored(joints[..j + 1], n)
    ensures JointsText(joints[..j + 1], n) == JointsText(joints[..j], n)
      + JointBlock(j, joints[j].name, joints[j].parentID, joints[j].transformPerFrame[..n])
  {
    assert joints[..j + 1][..j] == joints[..j];
  }

  /**
   * `WriteFile`. The binary format opens the file and writes nothing; any
   * other format writes the text layout. Both report success.
   */
  method WriteFile(host: Host, cursor: int, format: string, root: Root, finalJoints: seq<Joint>)
    returns (status: MStatus, file: File<Piece>)
    requires format != "Binary" ==> |finalJoints| > 0 && FramesStored(finalJoints, WrittenFrames(host.endTime))
    ensures status == Success
    ensures format == "Binary" ==> file == Binary([])
    ensures format != "Binary" ==> file == Ascii(AnimationText(host, cursor, root, finalJoints))
  {
    var endFrame := host.endTime;
    status := Success;
    if format == "Binary" {
      file := Binary([]);
      return;
    }
    var stream := new Stream<Piece>();
    WriteHeader(stream, host, finalJoints);
    WriteRootBlock(stream, host, cursor, root, endFrame);
    WriteJoints(stream, finalJoints, endFrame);
    file := Ascii(stream.items);
  }

  /** The three header lines. */
  method WriteHeader(file: Stream<Piece>, host: Host, finalJoints: seq<Joint>)
    requires |finalJoints| > 0
    modifies file
    ensures file.items == old(file.items) + HeaderOf(host, finalJoints)
  {
    var frameCount := SizeMinusOne(|finalJoints[0].transformPerFrame|);
    file.WriteAll([Lit("Joint Count [ "), IntText(|finalJoints| + 1), Lit(" ] \n")]);
    file.WriteAll([Lit("Frame Count [ "), IntText(frameCount), Lit(" ] \n")]);
    file.WriteAll([Lit("Frame Rate  [ "), RealText(GetFrameRate(host.uiUnit)), Lit(" ] \n")]);
  }

  /** The joint loop: one block per joint, in list order. */
  method WriteJoints(file: Stream<Piece>, finalJoints: seq<Joint>, endFrame: int)
    requires FramesStored(finalJoints, WrittenFrames(endFrame))
    modifies file
    ensures file.items == old(file.items) + JointsText(finalJoints, WrittenFrames(endFrame))
  {
    ghost var n := WrittenFrames(endFrame);
    var jointIdx := 0;
    while jointIdx < |finalJoints|
      invariant 0 <= jointIdx <= |finalJoints|
      invariant FramesStored(finalJoints[..jointIdx], n)
      invariant file.items == old(file.items) + JointsText(finalJoints[..jointIdx], n)
    {
      ghost var before := file.items;
      var joint := finalJoints[jointIdx];
      WriteJointBlock(file, jointIdx, joint, endFrame);
      JointsTextStep(finalJoints, jointIdx, n);
      Grows(old(file.items), JointsText(finalJoints[..jointIdx], n), before,
            JointBlock(jointIdx, joint.name, joint.parentID, joint.transformPerFrame[..n]),
            JointsText(finalJoints[..jointIdx + 1], n), file.items);
      jointIdx := jointIdx + 1;
    }
    assert finalJoints[..jointIdx] == finalJoints;
  }

  // ---------------------------------------------------------------------
  // ExportAnimation
  // ---------------------------------------------------------------------

  /** The joints after `GetAnimationData` gathered both the hierarchy and the timeline from scratch. */
  function ExportedJoints(host: Host, influences: seq<Handle>): seq<Joint> {
    MafHelper.WithSamples(host, MafHelper.HierarchyJoints(host, [], influences), MafHelper.FrameCount(host.endTime))
  }

  /** Where the sampling leaves the cursor. */
  function SampledCursor(host: Host, cursor: int): int {
    if MafHelper.FrameCount(host.endTime) > 0 then host.endTime else cursor
  }

  /**
   * Joint `k` of the exported list: influence `k`'s name, the parent ID
   * the name matching gave it, and the transforms at frames 0 .. endTime.
   */
  lemma ExportedJointAt(host: Host, influences: seq<Handle>, k: int)
    requires 0 <= k < |influences|
    ensures |ExportedJoints(host, influences)| == |influences|
    ensures var jnt := ExportedJoints(host, influences)[k];
      jnt.name == host.nameOf(influences[k])
      && jnt.parentID == MafHelper.HierarchyJoints(host, [], influences)[k].parentID
      && jnt.transformPerFrame == MafHelper.Samples(host, influences[k], MafHelper.FrameCount(host.endTime))
  {
    var j0 := MafHelper.AppendJoints(host, [], influences);
    var j1 := MafHelper.WithParentIDs(host, j0);
    MafHelper.HierarchyJointAt(host, influences, k);
    MafHelper.AppendedJointAt(host, influences, k);
    MafHelper.ParentIDsAt(host, j0, k);
    MafHelper.ChildrenIDsAt(host, j1, k);
  }

  /** Sampling from scratch stores one more frame than the writer reads, for every joint. */
  lemma ExportedFramesStored(host: Host, influences: seq<Handle>)
    ensures FramesStored(ExportedJoints(host, influences), WrittenFrames(host.endTime))
  {
    var joints := ExportedJoints(host, influences);
    forall j | 0 <= j < |joints|
      ensures WrittenFrames(host.endTime) <= |joints[j].transformPerFrame|
    {
      ExportedJointAt(host, influences, j);
    }
  }

  /** What `ExportAnimation` leaves at `path` once the selection checks passed. */
  function ExportedAnimation(host: Host, cursor: int, influences: seq<Handle>, format: string): File<Piece>
    requires |influences| > 0
  {
    if format == "Binary" then Binary([]) else Ascii(ExportedText(host, cursor, influences))
  }

  /** The text file of an animation export: written after the sampling left the cursor at the end. */
  function ExportedText(host: Host, cursor: int, influences: seq<Handle>): seq<Piece>
    requires |influences| > 0
  {
    ExportedFramesStored(host, influences);
    AnimationText(host, SampledCursor(host, cursor),
                  MafHelper.HierarchyRoot(host, DefaultRoot, [], influences),
                  ExportedJoints(host, influences))
  }

  /**
   * `ExportAnimation` for the mesh whose skin cluster lists `influences`.
   * A selection of other than one object fails, a failing iterator returns
   * its status; otherwise the hierarchy and the timeline are gathered and
   * the file written, and the status is the writer's, which is success
   * whatever the gathering reported. The joint list must not be empty:
   * the frame count logged afterwards reads its first joint.
   */
  method ExportAnimation(host: Host, selection: Selection, influences: seq<Handle>, format: string, cursor: int)
    returns (status: MStatus, file: Option<File<Piece>>, cursorOut: int)
    requires selection.length == 1 && selection.iterStatus == Success ==> |influences| > 0
    ensures selection.length != 1 ==> status == Failure && file == None && cursorOut == cursor
    ensures selection.length == 1 && selection.iterStatus != Success ==>
      status == selection.iterStatus && file == None && cursorOut == cursor
    ensures selection.length == 1 && selection.iterStatus == Success ==>
      status == Success && cursorOut == SampledCursor(host, cursor)
      && file == Some(ExportedAnimation(host, cursor, influences, format))
  {
    file := None;
    cursorOut := cursor;
    if selection.length != 1 {
      status := Status("Select just on object", Failure);
      return;
    }
    status := selection.iterStatus;
    if status != Success {
      return;
    }
    var root, finalJoints;
    status, root, finalJoints, cursorOut :=
      MafHelper.GetAnimationData(host, influences, DefaultRoot, [], cursorOut, Both);
    ExportedFramesStored(host, influences);
    ExportedJointAt(host, influences, 0);
    var written;
    status, written := WriteFile(host, cursorOut, format, root, finalJoints);
    file := Some(written);
  }

  // ---------------------------------------------------------------------
  // What the text file says
  // ---------------------------------------------------------------------

  /**
   * The header's frame count is the number of frame entries each joint
   * block holds when the end time is not negative: sampling stores
   * frames 0 .. endTime and the writer shows all but the last. With a
   * negative end time nothing is sampled and the count wraps round.
   */
  lemma ExportedFrameCount(host: Host, influences: seq<Handle>)
    requires |influences| > 0
    ensures var count := SizeMinusOne(|ExportedJoints(host, influences)[0].transformPerFrame|);
      (host.endTime >= 0 ==> count == host.endTime == WrittenFrames(host.endTime))
      && (host.endTime < 0 ==> count == SizeRange - 1 && WrittenFrames(host.endTime) == 0)
  {
    ExportedJointAt(host, influences, 0);
  }

  /** The frames each joint block shows are the samples at times 0 .. n-1. */
  lemma ExportedFramesAreSamples(host: Host, influences: seq<Handle>, k: int)
    requires 0 <= k < |influences|
    ensures var n := WrittenFrames(host.endTime);
      |ExportedJoints(host, influences)| == |influences|
      && n <= |ExportedJoints(host, influences)[k].transformPerFrame|
      && ExportedJoints(host, influences)[k].transformPerFrame[..n] == MafHelper.Samples(host, influences[k], n)
  {
    var n := WrittenFrames(host.endTime);
    var all := MafHelper.Samples(host, influences[k], MafHelper.FrameCount(host.endTime));
    ExportedJointAt(host, influences, k);
    assert all[..n] == MafHelper.Samples(host, influences[k], n);
  }

  /** `part` stands in `s` from offset `at` on. */
  predicate Occurs<T(==)>(s: seq<T>, at: int, part: seq<T>) {
    0 <= at && at + |part| <= |s| && s[at .. at + |part|] == part
  }

  lemma {:induction false} FramesTextSize(ts: seq<JointTransform>, scaleLabel: string, shearLabel: string)
    ensures |FramesText(ts, scaleLabel, shearLabel)| == |ts| * FrameSize
    decreases |ts|
  {
    if ts != [] {
      var m := |ts| - 1;
      FramesTextSize(ts[..m], scaleLabel, shearLabel);
      MulStep(m, FrameSize);
    }
  }

  /** The entries of the first `i` frames are the start of a frame list. */
  lemma {:induction false} FramesTextPrefix(ts: seq<JointTransform>, i: int, scaleLabel: string, shearLabel: string)
    requires 0 <= i <= |ts|
    ensures FramesText(ts[..i], scaleLabel, shearLabel) <= FramesText(ts, scaleLabel, shearLabel)
    decreases |ts|
  {
    if i < |ts| {
      var m := |ts| - 1;
      FramesTextPrefix(ts[..m], i, scaleLabel, shearLabel);
      assert ts[..m][..i] == ts[..i];
    } else {
      assert ts[..i] == ts;
    }
  }

  /** Entry `f` of a frame list sits at offset `f * FrameSize` and shows `ts[f]` labelled as frame `f`. */
  lemma FrameEntryAt(ts: seq<JointTransform>, scaleLabel: string, shearLabel: string, f: int)
    requires 0 <= f < |ts|
    ensures |FramesText(ts, scaleLabel, shearLabel)| == |ts| * FrameSize
    ensures Occurs(FramesText(ts, scaleLabel, shearLabel), f * FrameSize, FrameText(f, ts[f], scaleLabel, shearLabel))
  {
    FramesTextPrefix(ts, f + 1, scaleLabel, shearLabel);
    FramesTextStep(ts, f, scaleLabel, shearLabel);
    FramesTextSize(ts[..f], scaleLabel, shearLabel);
    FramesTextSize(ts, scaleLabel, shearLabel);
    MulMono(f + 1, |ts|, FrameSize);
    MulStep(f, FrameSize);
    InPrefix(FramesText(ts[..f], scaleLabel, shearLabel), FrameText(f, ts[f], scaleLabel, shearLabel),
             FramesText(ts, scaleLabel, shearLabel));
  }

  function BlockSize(n: nat): nat {
    8 + n * FrameSize
  }

  lemma JointBlockSize(jointIdx: int, name: string, parentID: int, ts: seq<JointTransform>)
    ensures |JointBlock(jointIdx, name, parentID, ts)| == BlockSize(|ts|)
  {
    FramesTextSize(ts, JointScale, JointShear);
  }

  lemma FramesStoredPrefix(joints: seq<Joint>, j: int, n: nat)
    requires 0 <= j <= |joints| && FramesStored(joints, n)
    ensures FramesStored(joints[..j], n)
  {
  }

  lemma {:induction false} JointsTextSize(joints: seq<Joint>, n: nat)
    requires FramesStored(joints, n)
    ensures |JointsText(joints, n)| == |joints| * BlockSize(n)
    decreases |joints|
  {
    if joints != [] {
      var m := |joints| - 1;
      FramesStoredPrefix(joints, m, n);
      JointsTextSize(joints[..m], n);
      JointBlockSize(m, joints[m].name, joints[m].parentID, joints[m].transformPerFrame[..n]);
      MulStep(m, BlockSize(n));
    }
  }

  /** The blocks of the first `i` joints are the start of the joint section. */
  lemma {:induction false} JointsTextPrefix(joints: seq<Joint>, i: int, n: nat)
    requires FramesStored(joints, n) && 0 <= i <= |joints|
    ensures FramesStored(joints[..i], n)
    ensures JointsText(joints[..i], n) <= JointsText(joints, n)
    decreases |joints|
  {
    FramesStoredPrefix(joints, i, n);
    if i < |joints| {
      var m := |joints| - 1;
      FramesStoredPrefix(joints, m, n);
      JointsTextPrefix(joints[..m], i, n);
      assert joints[..m][..i] == joints[..i];
    } else {
      assert joints[..i] == joints;
    }
  }

  /** Block `j` of the joint section sits at offset `j * BlockSize(n)`: joints are written in list order. */
  lemma JointBlockAt(joints: seq<Joint>, n: nat, j: int)
    requires FramesStored(joints, n) && 0 <= j < |joints|
    ensures |JointsText(joints, n)| == |joints| * BlockSize(n)
    ensures Occurs(JointsText(joints, n), j * BlockSize(n),
                   JointBlock(j, joints[j].name, joints[j].parentID, joints[j].transformPerFrame[..n]))
  {
    var b := BlockSize(n);
    JointsTextPrefix(joints, j + 1, n);
    JointsTextStep(joints, j, n);
    JointsTextSize(joints[..j], n);
    JointsTextSize(joints, n);
    JointBlockSize(j, joints[j].name, joints[j].parentID, joints[j].transformPerFrame[..n]);
    InPrefix(JointsText(joints[..j], n),
             JointBlock(j, joints[j].name, joints[j].parentID, joints[j].transformPerFrame[..n]),
             JointsText(joints, n));
  }

  /** Where the joint section starts: after the three header lines and the Root block. */
  function JointsOffset(n: nat): nat {
    9 + (5 + n * FrameSize)
  }

  /** The exported text is the header and the Root block, then the joint section. */
  lemma ExportedTextSplit(host: Host, cursor: int, influences: seq<Handle>)
    requires |influences| > 0
    ensures FramesStored(ExportedJoints(host, influences), WrittenFrames(host.endTime))
    ensures var n := WrittenFrames(host.endTime);
      var text := ExportedText(host, cursor, influences);
      |text| >= JointsOffset(n)
      && text[JointsOffset(n)..] == JointsText(ExportedJoints(host, influences), n)
  {
    var n := WrittenFrames(host.endTime);
    var joints := ExportedJoints(host, influences);
    var root := MafHelper.HierarchyRoot(host, DefaultRoot, [], influences);
    var t := host.transformAt(root.rootObj, SampledCursor(host, cursor));
    ExportedFramesStored(host, influences);
    FramesTextSize(Repeated(t, n), RootScale, RootShear);
    var head := HeaderOf(host, joints) + RootBlock(host.nameOf(root.rootObj), t, n);
    assert |head| == JointsOffset(n);
    assert ExportedText(host, cursor, influences) == head + JointsText(joints, n);
  }

  /**
   * End to end: in the text file of an animation export, the block of
   * joint `k` starts `k * BlockSize(n)` into the joint section and shows
   * influence `k`'s name, the index `k`, the parent ID the name matching
   * gave (not shifted), and the transforms sampled at frames 0 .. n-1,
   * where n is the number of frames before the end time.
   */
  lemma ExportedJointBlock(host: Host, cursor: int, influences: seq<Handle>, k: int)
    requires 0 <= k < |influences|
    ensures var text := ExportedText(host, cursor, influences);
      var n := WrittenFrames(host.endTime);
      JointsOffset(n) <= |text|
      && |text| == JointsOffset(n) + |influences| * BlockSize(n)
      && Occurs(text[JointsOffset(n)..], k * BlockSize(n),
                JointBlock(k, host.nameOf(influences[k]),
                           MafHelper.LastIndexOf(MafHelper.InfluenceNames(host, influences),
                                                 host.nameOf(host.parentOf(influences[k]))),
                           MafHelper.Samples(host, influences[k], n)))
  {
    var n := WrittenFrames(host.endTime);
    var joints := ExportedJoints(host, influences);
    ExportedTextSplit(host, cursor, influences);
    ExportedJointAt(host, influences, k);
    ExportedFramesAreSamples(host, influences, k);
    MafHelper.HierarchyJointAt(host, influences, k);
    JointBlockAt(joints, n, k);
    var text := ExportedText(host, cursor, influences);
    var body := JointsText(joints, n);
    assert |text| == JointsOffset(n) + |body|;
    var block := JointBlock(k, joints[k].name, joints[k].parentID, joints[k].transformPerFrame[..n]);
    assert Occurs(text[JointsOffset(n)..], k * BlockSize(n), block);
    OccursSame(text[JointsOffset(n)..], k * BlockSize(n), block,
               JointBlock(k, host.nameOf(influences[k]),
                          MafHelper.LastIndexOf(MafHelper.InfluenceNames(host, influences),
                                                host.nameOf(host.parentOf(influences[k]))),
                          MafHelper.Samples(host, influences[k], n)));
  }

  // ---------------------------------------------------------------------
  // Offsets
  // ---------------------------------------------------------------------

  lemma MulStep(a: int, b: int)
    ensures (a + 1) * b == a * b + b
  {
  }

  lemma {:induction false} MulMono(a: nat, c: nat, b: nat)
    requires a <= c
    ensures a * b <= c * b
    decreases c - a
  {
    if a < c {
      MulMono(a + 1, c, b);
      MulStep(a, b);
    }
  }

  lemma OccursSame<T>(s: seq<T>, at: int, part: seq<T>, part': seq<T>)
    requires Occurs(s, at, part) && part == part'
    ensures Occurs(s, at, part')
  {
  }

  /** What a prefix ends with stands in any sequence it begins. */
  lemma InPrefix<T>(before: seq<T>, part: seq<T>, s: seq<T>)
    requires before + part <= s
    ensures Occurs(s, |before|, part)
  {
    assert s[|before| .. |before| + |part|] == (before + part)[|before| ..];
  }
}
