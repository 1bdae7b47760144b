/**
 * Skin-weight gathering (src/Skinner.cpp): one weighted vertex per point of
 * every geometry the skin cluster deforms, and the skin-cluster membership
 * test.
 */
module Skinner {
  import opened Types
  import opened Utilities

  /** Only weights strictly above this (1.0e-6) take a slot. */
  const WeightThreshold: real := 0.000001

  /** A point of a deformed geometry: its object-space position, the weight of every influence, and the status `getWeights` gave. */
  datatype GeometryPoint = GeometryPoint(position: Vec3, wts: seq<real>, weightsStatus: MStatus)

  /** An output connection of the skin cluster: whether its path could be fetched, and its points in iteration order. */
  datatype Geometry = Geometry(pathStatus: MStatus, points: seq<GeometryPoint>)

  /** What `FindSkinCluster` and `MFnSkinCluster` answer: the influence objects and the output geometries. */
  datatype SkinCluster = SkinCluster(influences: seq<Handle>, geometries: seq<Geometry>)

  // ---------------------------------------------------------------------
  // Slot filling
  // ---------------------------------------------------------------------

  /** One `vert.jointID[slot] = influence; vert.weight[slot] = w;` of the loop. */
  datatype SlotWrite = SlotWrite(slot: nat, influence: nat, weight: real)

  /**
   * The writes the slot loop performs AS WRITTEN: one per weight above the
   * threshold, in influence order, into slot 0, 1, 2, ... with no bound on
   * the slot.
   */
  function SlotWrites(wts: seq<real>): (ws: seq<SlotWrite>)
    ensures |ws| <= |wts|
    ensures forall k :: 0 <= k < |ws| ==>
      ws[k].slot == k && ws[k].influence < |wts| && wts[ws[k].influence] == ws[k].weight > WeightThreshold
    ensures forall k, l :: 0 <= k < l < |ws| ==> ws[k].influence < ws[l].influence
    decreases |wts|
  {
    if wts == [] then []
    else
      var prev := SlotWrites(wts[..|wts| - 1]);
      var last := |wts| - 1;
      if wts[last] > WeightThreshold then prev + [SlotWrite(|prev|, last, wts[last])] else prev
  }

  /** Number of weights above the threshold. */
  function CountAbove(wts: seq<real>): nat {
    if wts == [] then 0
    else CountAbove(wts[..|wts| - 1]) + (if wts[|wts| - 1] > WeightThreshold then 1 else 0)
  }

  /** The loop writes one slot per weight above the threshold, and every such weight is written. */
  lemma SlotWritesComplete(wts: seq<real>)
    ensures |SlotWrites(wts)| == CountAbove(wts)
    ensures forall i :: 0 <= i < |wts| && wts[i] > WeightThreshold ==>
      exists k :: 0 <= k < |SlotWrites(wts)| && SlotWrites(wts)[k].influence == i
  {
    SlotWritesCount(wts);
    forall i | 0 <= i < |wts| && wts[i] > WeightThreshold
      ensures exists k :: 0 <= k < |SlotWrites(wts)| && SlotWrites(wts)[k].influence == i
    {
      SlotWritesCover(wts, i);
    }
  }

  lemma {:induction false} SlotWritesCount(wts: seq<real>)
    ensures |SlotWrites(wts)| == CountAbove(wts)
    decreases |wts|
  {
    if wts != [] {
      SlotWritesCount(wts[..|wts| - 1]);
    }
  }

  lemma {:induction false} SlotWritesCover(wts: seq<real>, i: int)
    requires 0 <= i < |wts| && wts[i] > WeightThreshold
    ensures exists k :: 0 <= k < |SlotWrites(wts)| && SlotWrites(wts)[k].influence == i
    decreases |wts|
  {
    var init := wts[..|wts| - 1];
    var prev := SlotWrites(init);
    SlotWritesExtend(wts);
    if i < |init| {
      assert init[i] == wts[i];
      SlotWritesCover(init, i);
      var k :| 0 <= k < |prev| && prev[k].influence == i;
      assert SlotWrites(wts)[k] == prev[k];
    } else {
      assert SlotWrites(wts)[|prev|].influence == i;
    }
  }

  /** One more weight keeps the earlier writes and adds one write exactly when it is above the threshold. */
  lemma SlotWritesExtend(wts: seq<real>)
    requires wts != []
    ensures var prev := SlotWrites(wts[..|wts| - 1]);
      |prev| <= |SlotWrites(wts)| && SlotWrites(wts)[..|prev|] == prev
      && (wts[|wts| - 1] > WeightThreshold ==>
            |SlotWrites(wts)| == |prev| + 1 && SlotWrites(wts)[|prev|].influence == |wts| - 1)
  {
  }

  /**
   * As written, five influences above the threshold make the loop write
   * `jointID[4]` and `weight[4]`, past the end of the four-slot arrays.
   */
  lemma FiveInfluencesOverflowSlots()
    ensures exists w :: w in SlotWrites([0.2, 0.2, 0.2, 0.2, 0.2]) && w.slot >= 4
  {
    var w0: seq<real> := [];
    var w1, w2, w3, w4, w5 := w0 + [0.2], w0 + [0.2, 0.2], w0 + [0.2, 0.2, 0.2], w0 + [0.2, 0.2, 0.2, 0.2], w0 + [0.2, 0.2, 0.2, 0.2, 0.2];
    assert w1[..0] == w0 && w2[..1] == w1 && w3[..2] == w2 && w4[..3] == w3 && w5[..4] == w4;
    assert |SlotWrites(w1)| == 1;
    assert |SlotWrites(w2)| == 2;
    assert |SlotWrites(w3)| == 3;
    assert |SlotWrites(w4)| == 4;
    assert |SlotWrites(w5)| == 5;
    assert w5 == [0.2, 0.2, 0.2, 0.2, 0.2];
    assert SlotWrites(w5)[4] in SlotWrites(w5) && SlotWrites(w5)[4].slot >= 4;
  }

  /** Slot contents after the given writes: the first four, in order; unwritten slots keep 0. */
  function SlotJointIDs(ws: seq<SlotWrite>): JointSlots {
    seq(4, k requires 0 <= k < 4 => if k < |ws| then ws[k].influence as int else 0)
  }

  function SlotWeights(ws: seq<SlotWrite>): WeightSlots {
    seq(4, k requires 0 <= k < 4 => if k < |ws| then ws[k].weight else 0.0)
  }

  /**
   * The vertex `FindMeshWeightsAndInfluences` builds for one point: a
   * value-initialised vertex at the point's position, whose slots the loop
   * fills with the bound check the source lacks: a weight above the
   * threshold takes the next slot only while a slot is free, so the first
   * four such influences, in influence order, are kept.
   */
  method PointVertex(point: GeometryPoint) returns (vert: Vertex)
    ensures vert == DefaultVertex.(position := point.position,
                                   jointID := SlotJointIDs(SlotWrites(point.wts)),
                                   weight := SlotWeights(SlotWrites(point.wts)))
  {
    vert := DefaultVertex.(position := point.position);
    var wts := point.wts;
    var internalDWeightIdx := 0;
    assert wts[..0] == [];
    for influenceIdx := 0 to |wts|
      invariant internalDWeightIdx == if |SlotWrites(wts[..influenceIdx])| < 4 then |SlotWrites(wts[..influenceIdx])| else 4
      invariant vert == DefaultVertex.(position := point.position,
                                       jointID := SlotJointIDs(SlotWrites(wts[..influenceIdx])),
                                       weight := SlotWeights(SlotWrites(wts[..influenceIdx])))
    {
      ghost var ws := SlotWrites(wts[..influenceIdx]);
      assert wts[..influenceIdx + 1][..influenceIdx] == wts[..influenceIdx];
      ghost var ws' := SlotWrites(wts[..influenceIdx + 1]);
      if wts[influenceIdx] > WeightThreshold && internalDWeightIdx < 4 {
        assert ws' == ws + [SlotWrite(|ws|, influenceIdx, wts[influenceIdx])];
        vert := vert.(jointID := vert.jointID[internalDWeightIdx := influenceIdx],
                      weight := vert.weight[internalDWeightIdx := wts[influenceIdx]]);
        internalDWeightIdx := internalDWeightIdx + 1;
        assert vert.jointID == SlotJointIDs(ws');
        assert vert.weight == SlotWeights(ws');
      } else if wts[influenceIdx] > WeightThreshold {
        assert ws' == ws + [SlotWrite(|ws|, influenceIdx, wts[influenceIdx])];
        assert SlotJointIDs(ws') == SlotJointIDs(ws);
        assert SlotWeights(ws') == SlotWeights(ws);
      } else {
        assert ws' == ws;
      }
    }
    assert wts[..|wts|] == wts;
  }

  /** Filled slots hold exactly the weights above the threshold, up to four; the rest keep the value-initialised 0, not -1. */
  lemma {:induction false} FilledSlotsCount(wts: seq<real>)
    ensures var ws := SlotWrites(wts);
      forall k :: 0 <= k < 4 ==>
        (k < CountAbove(wts) ==> SlotWeights(ws)[k] > WeightThreshold && SlotJointIDs(ws)[k] < |wts|)
        && (k >= CountAbove(wts) ==> SlotJointIDs(ws)[k] == 0 && SlotWeights(ws)[k] == 0.0)
    ensures var ids := SlotJointIDs(SlotWrites(wts));
      forall k, l :: 0 <= k < l < 4 && l < CountAbove(wts) ==> ids[k] < ids[l]
  {
    SlotWritesComplete(wts);
  }

  // ---------------------------------------------------------------------
  // Gathering the weight list
  // ---------------------------------------------------------------------

  /** The weighted vertices of a run of points, in iteration order. */
  function PointsVertices(ps: seq<GeometryPoint>): (vs: seq<Vertex>)
    ensures |vs| == |ps|
    ensures forall i :: 0 <= i < |ps| ==> vs[i].position == ps[i].position
  {
    if ps == [] then []
    else
      var p := ps[|ps| - 1];
      PointsVertices(ps[..|ps| - 1])
        + [DefaultVertex.(position := p.position,
                          jointID := SlotJointIDs(SlotWrites(p.wts)), weight := SlotWeights(SlotWrites(p.wts)))]
  }

  /** Weighted vertices of every output geometry in order, up to the first whose path cannot be fetched. */
  function Collected(gs: seq<Geometry>): seq<Vertex> {
    if gs == [] then []
    else if gs[0].pathStatus == Failure then []
    else PointsVertices(gs[0].points) + Collected(gs[1..])
  }

  /** Status left by one point: `getWeights`' status, overridden by failure when the point has no influences. */
  function PointStatus(p: GeometryPoint): MStatus {
    if |p.wts| == 0 then Failure else p.weightsStatus
  }

  function StatusAfterPoints(ps: seq<GeometryPoint>, s: MStatus): MStatus {
    if ps == [] then s else PointStatus(ps[|ps| - 1])
  }

  /** The status variable after the geometry loop, starting from `s`. */
  function StatusAfter(gs: seq<Geometry>, s: MStatus): MStatus {
    if gs == [] then s
    else if gs[0].pathStatus == Failure then Failure
    else StatusAfter(gs[1..], StatusAfterPoints(gs[0].points, gs[0].pathStatus))
  }

  /**
   * `FindMeshWeightsAndInfluences`: with no influence objects, fails and
   * appends nothing; otherwise appends one weighted vertex per point of
   * every output geometry, in iteration order, stopping (with failure) at a
   * geometry whose path cannot be fetched.
   */
  method FindMeshWeightsAndInfluences(skin: SkinCluster, verticesWithWeightsAndIDs: seq<Vertex>)
    returns (status: MStatus, out: seq<Vertex>)
    ensures |skin.influences| == 0 ==> status == Failure && out == verticesWithWeightsAndIDs
    ensures |skin.influences| > 0 ==>
      out == verticesWithWeightsAndIDs + Collected(skin.geometries)
      && status == StatusAfter(skin.geometries, Success)
  {
    out := verticesWithWeightsAndIDs;
    status := Success;
    if |skin.influences| == 0 {
      status := Failure;
      return;
    }
    var gs := skin.geometries;
    for geometryIdx := 0 to |gs|
      invariant out + Collected(gs[geometryIdx..]) == verticesWithWeightsAndIDs + Collected(gs)
      invariant StatusAfter(gs[geometryIdx..], status) == StatusAfter(gs, Success)
    {
      assert gs[geometryIdx..][1..] == gs[geometryIdx + 1..];
      var geometry := gs[geometryIdx];
      status := geometry.pathStatus;
      if status == Failure {
        assert out == verticesWithWeightsAndIDs + Collected(gs);
        return;
      }
      status, out := AppendPoints(geometry.points, geometry.pathStatus, out);
    }
    assert gs[|gs|..] == [];
  }

  /** The point loop of one geometry: one weighted vertex per point, appended in iteration order. */
  method AppendPoints(points: seq<GeometryPoint>, pathStatus: MStatus, acc: seq<Vertex>)
    returns (status: MStatus, out: seq<Vertex>)
    ensures out == acc + PointsVertices(points)
    ensures status == StatusAfterPoints(points, pathStatus)
  {
    out, status := acc, pathStatus;
    assert points[..0] == [];
    for p := 0 to |points|
      invariant out == acc + PointsVertices(points[..p])
      invariant status == StatusAfterPoints(points[..p], pathStatus)
    {
      assert points[..p + 1][..p] == points[..p];
      var vert := PointVertex(points[p]);
      status := points[p].weightsStatus;
      if |points[p].wts| == 0 {
        status := Failure;
      }
      out := out + [vert];
    }
    assert points[..|points|] == points;
  }

  /** With every path available, the weight list has one entry per point of every geometry. */
  lemma {:induction false} CollectedLength(gs: seq<Geometry>)
    requires forall g :: 0 <= g < |gs| ==> gs[g].pathStatus != Failure
    ensures |Collected(gs)| == TotalPoints(gs)
  {
    if gs != [] {
      CollectedLength(gs[1..]);
    }
  }

  function TotalPoints(gs: seq<Geometry>): nat {
    if gs == [] then 0 else |gs[0].points| + TotalPoints(gs[1..])
  }

  // ---------------------------------------------------------------------
  // Skin-cluster membership
  // ---------------------------------------------------------------------

  /** Linear search with early return. */
  function FoundFrom(skinClusterArray: seq<Handle>, node: Handle, i: nat): bool
    requires i <= |skinClusterArray|
    decreases |skinClusterArray| - i
  {
    if i == |skinClusterArray| then false
    else if skinClusterArray[i] == node then true
    else FoundFrom(skinClusterArray, node, i + 1)
  }

  /** `IsSkinClusterIncluded`: an empty array includes everything; otherwise the node must be one of its elements. */
  function IsSkinClusterIncluded(skinClusterArray: seq<Handle>, node: Handle): (r: bool)
    ensures r <==> |skinClusterArray| == 0 || node in skinClusterArray
  {
    FoundInSuffix(skinClusterArray, node, 0);
    if |skinClusterArray| == 0 then true else FoundFrom(skinClusterArray, node, 0)
  }

  lemma {:induction false} FoundInSuffix(a: seq<Handle>, node: Handle, i: nat)
    requires i <= |a|
    ensures FoundFrom(a, node, i) <==> node in a[i..]
    decreases |a| - i
  {
    if i < |a| {
      FoundInSuffix(a, node, i + 1);
      assert a[i..] == [a[i]] + a[i + 1..];
    }
  }
}
