/**
 * `MOF_Generator::ExportMesh` (src/MOF_Generator.cpp): the status checks
 * on the selection, the skin-weight query, the corner loop, the weight
 * copy, the skeleton query and the file write, in the source's order.
 */
module MofGenerator {
  import opened Wrappers
  import opened Types
  import opened Utilities
  import opened Scene
  import opened Streams
  import opened MofLayout
  import opened MofVertices
  import opened MofWriter
  import Skinner
  import MafHelper

  /** The weighted vertices `FindMeshWeightsAndInfluences` appends to an empty list. */
  function Weighted(skin: Skinner.SkinCluster): seq<Vertex> {
    if |skin.influences| == 0 then [] else Skinner.Collected(skin.geometries)
  }

  /** `meshType` becomes Animated as soon as any weighted vertex was found. */
  function MeshTypeOf(weighted: seq<Vertex>): MeshType {
    if |weighted| != 0 then Animated else Static
  }

  /** The corner loop's state after every polygon. */
  function CornerLoop(mesh: MeshData, hash: HashKey -> int, deduplicate: bool): Dedup {
    RecordAll(hash, NoVertices, Corners(mesh, mesh.faces), deduplicate)
  }

  /** The stored vertices once the weight copy has run over them. */
  function MergedVertices(mesh: MeshData, hash: HashKey -> int, deduplicate: bool, weighted: seq<Vertex>): (vs: seq<Vertex>)
    ensures |vs| == |CornerLoop(mesh, hash, deduplicate).finalVertices|
  {
    var stored := CornerLoop(mesh, hash, deduplicate).finalVertices;
    seq(|stored|, i requires 0 <= i < |stored| => Merged(stored[i], weighted))
  }

  /** The three checks before any work: one selected object, a mesh iterator, a mesh function set. */
  predicate MeshSelected(selection: Selection, meshStatus: MStatus) {
    selection.length == 1 && selection.iterStatus == Success && meshStatus == Success
  }

  /** What the export leaves at `path` once every check passed. */
  function ExportedMesh(host: Host, cursor: int, mesh: MeshData, skin: Skinner.SkinCluster,
                        hash: HashKey -> int, format: string, deduplicate: bool): File<Piece> {
    var weighted := Weighted(skin);
    FileContents(host, cursor, MergedVertices(mesh, hash, deduplicate, weighted),
                 CornerLoop(mesh, hash, deduplicate).indices,
                 MafHelper.HierarchyJoints(host, [], skin.influences),
                 MafHelper.HierarchyRoot(host, DefaultRoot, [], skin.influences),
                 format, MeshTypeOf(weighted))
  }

  /**
   * `ExportMesh`. A selection of other than one object fails; a failing
   * iterator, mesh function set or polygon iterator returns its own status
   * and writes nothing. The status of the weight query is not checked.
   * Otherwise the file holds the collected, weighted vertices, the index
   * buffer and the influence hierarchy, and the export succeeds. Writing
   * an animated mesh moves the cursor to the animation start.
   */
  method ExportMesh(host: Host, selection: Selection, meshStatus: MStatus, polyStatus: MStatus,
                    mesh: MeshData, skin: Skinner.SkinCluster, hash: HashKey -> int,
                    format: string, deduplicate: bool, cursor: int)
    returns (status: MStatus, file: Option<File<Piece>>, cursorOut: int)
    ensures selection.length != 1 ==> status == Failure && file == None && cursorOut == cursor
    ensures selection.length == 1 && selection.iterStatus != Success ==>
      status == selection.iterStatus && file == None && cursorOut == cursor
    ensures selection.length == 1 && selection.iterStatus == Success && meshStatus != Success ==>
      status == meshStatus && file == None && cursorOut == cursor
    ensures MeshSelected(selection, meshStatus) && polyStatus != Success ==>
      status == polyStatus && file == None && cursorOut == cursor
    ensures MeshSelected(selection, meshStatus) && polyStatus == Success ==>
      status == Success
      && file == Some(ExportedMesh(host, cursor, mesh, skin, hash, format, deduplicate))
      && cursorOut == if |Weighted(skin)| != 0 then host.startTime else cursor
  {
    file := None;
    cursorOut := cursor;
    if selection.length != 1 {
      status := Status("Select just on object", Failure);
      return;
    }
    status := selection.iterStatus;
    if status != Success {
      return;
    }
    status := meshStatus;
    if status != Success {
      status := Status("Failed to access selected mesh", status);
      return;
    }

    var meshType := Static;
    var weighted;
    status, weighted := Skinner.FindMeshWeightsAndInfluences(skin, []);
    assert weighted == Weighted(skin);
    if |weighted| != 0 {
      meshType := Animated;
    }

    status := polyStatus;
    if status != Success {
      status := Status("Failed to create polygon iterator", status);
      return;
    }

    var st := CollectVertices(mesh, hash, deduplicate);
    var finalVertices := MergeWeights(st.finalVertices, weighted);
    assert finalVertices == MergedVertices(mesh, hash, deduplicate, weighted);

    var hierarchyStatus, root, skeleton, cursorAfter :=
      MafHelper.GetAnimationData(host, skin.influences, DefaultRoot, [], cursorOut, JointHierarchy);
    var written;
    written, cursorOut := WriteFile(host, cursorAfter, finalVertices, st.indices, skeleton, root, format, meshType);
    file := Some(written);
    status := Success;
  }

  // ---------------------------------------------------------------------
  // What the exported file holds
  // ---------------------------------------------------------------------

  /**
   * Every corner of every triangle is reachable through the index buffer:
   * de-duplicating, its index names a kept vertex the map would answer
   * for it (same hash code, `==` within tolerance), and no two kept
   * vertices answer for each other; otherwise its index names its own
   * vertex with the skin weights copied in.
   */
  lemma ExportedCornersReachable(mesh: MeshData, hash: HashKey -> int, deduplicate: bool, weighted: seq<Vertex>)
    ensures var cs := Corners(mesh, mesh.faces);
      var indices := CornerLoop(mesh, hash, deduplicate).indices;
      var out := MergedVertices(mesh, hash, deduplicate, weighted);
      |indices| == |cs|
      && (forall i :: 0 <= i < |cs| ==> 0 <= indices[i] < |out|)
      && (deduplicate ==> forall i :: 0 <= i < |cs| ==> Matches(hash, out[indices[i]], cs[i]))
      && (deduplicate ==> forall k, l :: 0 <= k < l < |out| ==> !Matches(hash, out[k], out[l]))
      && (!deduplicate ==> forall i :: 0 <= i < |cs| ==> out[indices[i]] == Merged(cs[i], weighted))
  {
    var cs := Corners(mesh, mesh.faces);
    var out := MergedVertices(mesh, hash, deduplicate, weighted);
    IndexBufferReproducesCorners(hash, cs);
    if deduplicate {
      MergeKeepsDedup(hash, cs, weighted, out);
    }
  }

  /** A static record drops the slots, which no lookup reads. */
  lemma WrittenMatches(hash: HashKey -> int, x: Vertex, meshType: MeshType, c: Vertex)
    ensures Matches(hash, Written(x, meshType), c) <==> Matches(hash, x, c)
  {
    HashCoversEqualityFields(x, DefaultVertex);
    EqualReadsOnlyHashedFields(x, Written(x, meshType), c);
  }

  /**
   * Reading the binary file back gives the header's mesh type, the
   * written vertices, the index buffer, and (animated) the Root record
   * and one record per influence, as they stand after the cursor moved
   * to the animation start.
   */
  lemma ExportedBinaryDecodes(host: Host, cursor: int, mesh: MeshData, skin: Skinner.SkinCluster,
                              hash: HashKey -> int, deduplicate: bool)
    ensures var weighted := Weighted(skin);
      var meshType := MeshTypeOf(weighted);
      var records := MofWriter.SkeletonRecords(host, host.startTime,
                       MafHelper.HierarchyRoot(host, DefaultRoot, [], skin.influences),
                       MafHelper.HierarchyJoints(host, [], skin.influences));
      var f := ExportedMesh(host, cursor, mesh, skin, hash, "Binary", deduplicate);
      f.Binary?
      && DecodeMesh(f.tokens)
        == Some(MeshFile(meshType, WrittenAll(MergedVertices(mesh, hash, deduplicate, weighted), meshType),
                         CornerLoop(mesh, hash, deduplicate).indices,
                         if meshType == Animated then WrittenRecords(records) else []))
  {
    var weighted := Weighted(skin);
    var meshType := MeshTypeOf(weighted);
    var records := MofWriter.SkeletonRecords(host, host.startTime,
                     MafHelper.HierarchyRoot(host, DefaultRoot, [], skin.influences),
                     MafHelper.HierarchyJoints(host, [], skin.influences));
    MeshFileRoundTrip(MergedVertices(mesh, hash, deduplicate, weighted), CornerLoop(mesh, hash, deduplicate).indices,
                      meshType, MofWriter.SkeletonRecords(host, if meshType == Animated then host.startTime else cursor,
                        MafHelper.HierarchyRoot(host, DefaultRoot, [], skin.influences),
                        MafHelper.HierarchyJoints(host, [], skin.influences)));
  }

  /**
   * End to end: the mesh type read back is Animated exactly when the skin
   * gave weights; every corner's index read back lies inside the vertex
   * array read back; de-duplicating, the vertex it names answers a lookup
   * of the corner, and not de-duplicating, it is the corner with its
   * weights copied in (slots dropped for a static mesh).
   */
  lemma ExportedBinaryReproducesCorners(host: Host, cursor: int, mesh: MeshData, skin: Skinner.SkinCluster,
                                        hash: HashKey -> int, deduplicate: bool)
    ensures var cs := Corners(mesh, mesh.faces);
      var f := ExportedMesh(host, cursor, mesh, skin, hash, "Binary", deduplicate);
      f.Binary? && DecodeMesh(f.tokens).Some? &&
      var m := DecodeMesh(f.tokens).value;
      (m.meshType == Animated <==> |Weighted(skin)| != 0)
      && |m.indices| == |cs|
      && (forall i :: 0 <= i < |cs| ==> 0 <= m.indices[i] < |m.vertices|)
      && (deduplicate ==> forall i :: 0 <= i < |cs| ==> Matches(hash, m.vertices[m.indices[i]], cs[i]))
      && (!deduplicate ==> forall i :: 0 <= i < |cs| ==>
            m.vertices[m.indices[i]] == Written(Merged(cs[i], Weighted(skin)), m.meshType))
  {
    var cs := Corners(mesh, mesh.faces);
    var weighted := Weighted(skin);
    var meshType := MeshTypeOf(weighted);
    var out := MergedVertices(mesh, hash, deduplicate, weighted);
    var indices := CornerLoop(mesh, hash, deduplicate).indices;
    ExportedBinaryDecodes(host, cursor, mesh, skin, hash, deduplicate);
    ExportedCornersReachable(mesh, hash, deduplicate, weighted);
    var m := DecodeMesh(ExportedMesh(host, cursor, mesh, skin, hash, "Binary", deduplicate).tokens).value;
    assert m.vertices == WrittenAll(out, meshType) && m.indices == indices;
    if deduplicate {
      forall i | 0 <= i < |cs|
        ensures Matches(hash, m.vertices[m.indices[i]], cs[i])
      {
        WrittenMatches(hash, out[indices[i]], meshType, cs[i]);
      }
    }
  }
}
