/**
 * The host scene as the exporter sees it: each query the exporter makes of
 * Maya becomes a function or value of a `Host`. The global playback cursor
 * (`MAnimControl` current time) is not part of it; the model passes it
 * explicitly wherever the source moves or reads it.
 */
module Scene {
  import opened Types
  import opened Utilities

  datatype Host = Host(
    /** `MFnIkJoint::name()` / `MFnDagNode::name()` */
    nameOf: Handle -> string,
    /** `MFnIkJoint::parent(0)` */
    parentOf: Handle -> Handle,
    /** `MFnIkJoint::child(0 .. childCount()-1)`, in native order */
    childrenOf: Handle -> seq<Handle>,
    /** `MAF_Helper::GetTransform` of a node while the cursor is at a time */
    transformAt: (Handle, int) -> JointTransform,
    /** the status `MAF_Helper::GetTransform` returns for that query */
    transformStatus: (Handle, int) -> MStatus,
    /** `MAnimControl::animationStartTime()` */
    startTime: int,
    /** `MAnimControl::animationEndTime()` */
    endTime: int,
    /** `MTime::uiUnit()` */
    uiUnit: TimeUnit)

  /**
   * The active selection as the exporters check it: how many objects are
   * selected, and the status of building the mesh-filtered iterator over
   * them (`MItSelectionList(selectionList, MFn::kMesh, &status)`).
   */
  datatype Selection = Selection(length: nat, iterStatus: MStatus)

  /** Every node has its own name. */
  ghost predicate UniqueNames(host: Host) {
    forall a: Handle, b: Handle :: host.nameOf(a) == host.nameOf(b) ==> a == b
  }

  /** A node is among its parent's children, and a child's parent is the node that lists it. */
  ghost predicate ConsistentTree(host: Host) {
    forall p: Handle, c: Handle :: c in host.childrenOf(p) <==> host.parentOf(c) == p
  }

  lemma ChildParentLink(host: Host, p: Handle, c: Handle)
    requires ConsistentTree(host)
    ensures c in host.childrenOf(p) <==> host.parentOf(c) == p
  {
  }
}
