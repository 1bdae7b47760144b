/**
 * The vertex stage of `MOF_Generator::ExportMesh` (src/MOF_Generator.cpp):
 * one vertex per triangle corner, optional de-duplication through the
 * `std::unordered_map<Vertex, int>` keyed by the tolerance `==`, and the
 * copy of skin weights onto every vertex at a matching position.
 */
module MofVertices {
  import opened Wrappers
  import opened Types
  import MafHelper

  // ---------------------------------------------------------------------
  // The selected mesh
  // ---------------------------------------------------------------------

  datatype Uv = Uv(u: real, v: real)

  /** One polygon as `MItMeshPolygon` reports it. */
  datatype Face = Face(
    /** `getTriangles`: mesh-vertex IDs, three per triangle */
    triVertIds: seq<int>,
    /** `getVertices`: the polygon's mesh-vertex IDs in winding order */
    polygonVertices: seq<int>,
    /** `normalIndex(localIndex)` */
    normalIndex: int -> int,
    /** `getUVIndex(localIndex)`: None when the call fails */
    uvIndex: int -> Option<int>,
    /** `getColorIndex(localIndex)`: None when the call fails */
    colorIndex: int -> Option<int>)

  /** What `MFnMesh` answers about the selected mesh. */
  datatype MeshData = MeshData(
    /** `getPoint(id)` in object space */
    pointAt: int -> Vec3,
    /** the world-space `getNormals` array, by index */
    normals: int -> Vec3,
    /** `getUVs` of the current UV set, as (u, v) pairs */
    uvs: seq<Uv>,
    /** `numColors()` */
    numColors: int,
    /** `getColor(index)` in the current colour set */
    colorAt: int -> Rgb,
    /** the polygons in iterator order */
    faces: seq<Face>)

  // ---------------------------------------------------------------------
  // One vertex per triangle corner
  // ---------------------------------------------------------------------

  /**
   * The vertex built for the triangle corner at mesh vertex `globalVertexId`:
   * the point, white, zero normal and UV; then, when the ID is one of the
   * polygon's own vertices, the normal at that local index, the UV when its
   * index lies inside the UV array, and the colour when the mesh has colours
   * and the colour index can be fetched.
   */
  function Corner(mesh: MeshData, face: Face, globalVertexId: int): (vert: Vertex)
    ensures vert.position == mesh.pointAt(globalVertexId)
    ensures vert.jointID == NoJoints && vert.weight == NoWeights
    ensures globalVertexId !in face.polygonVertices ==>
      vert.color == White && vert.normal == Zero3 && vert.u == 0.0 && vert.v == 0.0
  {
    var plain := DefaultVertex.(position := mesh.pointAt(globalVertexId), color := White,
                                normal := Zero3, u := 0.0, v := 0.0);
    var localIndex := MafHelper.FirstIndexOf(face.polygonVertices, globalVertexId);
    if localIndex < 0 then plain
    else
      var withNormal := plain.(normal := mesh.normals(face.normalIndex(localIndex)));
      var uvIndex := face.uvIndex(localIndex);
      var withUv :=
        if uvIndex.Some? && 0 <= uvIndex.value < |mesh.uvs|
        then withNormal.(u := mesh.uvs[uvIndex.value].u, v := mesh.uvs[uvIndex.value].v)
        else withNormal;
      var colorIndex := face.colorIndex(localIndex);
      if mesh.numColors > 0 && colorIndex.Some? then withUv.(color := mesh.colorAt(colorIndex.value))
      else withUv
  }

  /**
   * What a corner vertex holds: the mesh point; no joints and no weights
   * yet; white, zero normal and zero UV when the ID is not a vertex of the
   * polygon; a UV that is either zero or an entry of the UV array.
   */
  lemma CornerFields(mesh: MeshData, face: Face, globalVertexId: int)
    ensures var vert := Corner(mesh, face, globalVertexId);
      && vert.position == mesh.pointAt(globalVertexId)
      && vert.jointID == NoJoints && vert.weight == NoWeights
      && (globalVertexId !in face.polygonVertices ==>
            vert.color == White && vert.normal == Zero3 && vert.u == 0.0 && vert.v == 0.0)
      && ((vert.u, vert.v) == (0.0, 0.0) || exists k :: 0 <= k < |mesh.uvs| && mesh.uvs[k] == Uv(vert.u, vert.v))
      && (mesh.numColors <= 0 ==> vert.color == White)
  {
    var localIndex := MafHelper.FirstIndexOf(face.polygonVertices, globalVertexId);
    if localIndex >= 0 {
      var uvIndex := face.uvIndex(localIndex);
      if uvIndex.Some? && 0 <= uvIndex.value < |mesh.uvs| {
        var k := uvIndex.value;
        assert mesh.uvs[k] == Uv(mesh.uvs[k].u, mesh.uvs[k].v);
      }
    }
  }

  /** The local-index search: the first position of the polygon holding `globalVertexId`, or -1. */
  method LocalIndex(polygonVertices: seq<int>, globalVertexId: int) returns (localIndex: int)
    ensures localIndex == MafHelper.FirstIndexOf(polygonVertices, globalVertexId)
  {
    localIndex := -1;
    var k := 0;
    while k < |polygonVertices|
      invariant 0 <= k <= |polygonVertices|
      invariant globalVertexId !in polygonVertices[..k]
    {
      if polygonVertices[k] == globalVertexId {
        localIndex := k;
        break;
      }
      k := k + 1;
    }
    assert localIndex < 0 ==> polygonVertices[..k] == polygonVertices;
  }

  /** The body of the corner loop up to the de-duplication step. */
  method BuildCorner(mesh: MeshData, face: Face, globalVertexId: int) returns (vert: Vertex)
    ensures vert == Corner(mesh, face, globalVertexId)
  {
    vert := DefaultVertex;
    vert := vert.(position := mesh.pointAt(globalVertexId));
    vert := vert.(color := White, normal := Zero3, u := 0.0, v := 0.0);
    var localIndex := LocalIndex(face.polygonVertices, globalVertexId);
    if localIndex >= 0 {
      vert := vert.(normal := mesh.normals(face.normalIndex(localIndex)));
      var uvIndex := face.uvIndex(localIndex);
      if uvIndex.Some? {
        if 0 <= uvIndex.value < |mesh.uvs| {
          vert := vert.(u := mesh.uvs[uvIndex.value].u, v := mesh.uvs[uvIndex.value].v);
        }
      }
      if mesh.numColors > 0 {
        var colorIndex := face.colorIndex(localIndex);
        if colorIndex.Some? {
          vert := vert.(color := mesh.colorAt(colorIndex.value));
        }
      }
    }
  }

  /** The corners of one polygon, triangle by triangle. */
  function FaceCorners(mesh: MeshData, face: Face): (cs: seq<Vertex>)
    ensures |cs| == |face.triVertIds|
  {
    seq(|face.triVertIds|, i requires 0 <= i < |face.triVertIds| => Corner(mesh, face, face.triVertIds[i]))
  }

  /** The corners of a run of polygons, in iterator order. */
  function Corners(mesh: MeshData, faces: seq<Face>): seq<Vertex> {
    if faces == [] then [] else Corners(mesh, faces[..|faces| - 1]) + FaceCorners(mesh, faces[|faces| - 1])
  }

  // ---------------------------------------------------------------------
  // De-duplication
  // ---------------------------------------------------------------------

  /** One key of `hashedVertices` with its mapped value, in insertion order. */
  datatype Entry = Entry(key: Vertex, value: int)

  /** The five locals the corner loop updates. */
  datatype Dedup = Dedup(
    hashed: seq<Entry>,
    finalVertices: seq<Vertex>,
    indices: seq<int>,
    counter: int,
    duplicatedVertices: int)

  const NoVertices := Dedup([], [], [], 0, 0)

  /**
   * A stored key answers a lookup of `v` when their hash codes agree and
   * `Vertex::operator==` holds. `hash` stands for `std::hash<Vertex>`
   * applied to the eleven hashed fields.
   */
  predicate Matches(hash: HashKey -> int, key: Vertex, v: Vertex) {
    hash(HashFields(key)) == hash(HashFields(v)) && Equal(key, v)
  }

  /** Position of the first stored key that answers a lookup of `v`, or -1 (`contains` is `>= 0`). */
  function FindEntry(hash: HashKey -> int, hashed: seq<Entry>, v: Vertex): (k: int)
    ensures -1 <= k < |hashed|
    ensures k == -1 <==> forall j :: 0 <= j < |hashed| ==> !Matches(hash, hashed[j].key, v)
    ensures k >= 0 ==> Matches(hash, hashed[k].key, v)
    ensures k >= 0 ==> forall j :: 0 <= j < k ==> !Matches(hash, hashed[j].key, v)
  {
    if hashed == [] then -1
    else
      var k := FindEntry(hash, hashed[..|hashed| - 1], v);
      if k >= 0 then k
      else if Matches(hash, hashed[|hashed| - 1].key, v) then |hashed| - 1
      else -1
  }

  /** Every vertex matches itself: the tolerance comparison is reflexive. */
  lemma MatchesItself(hash: HashKey -> int, v: Vertex)
    ensures Matches(hash, v, v)
  {
    EqualIsReflexiveAndSymmetric(v, v);
  }

  /**
   * One corner through the loop body. De-duplicating: a vertex no stored
   * key answers is stored under `counter` and appended; otherwise only
   * `duplicatedVertices` grows; either way the index is what the map then
   * holds for the vertex. Not de-duplicating: a new key is stored under
   * `duplicatedVertices`, and every corner is appended with its own index.
   */
  function Record(hash: HashKey -> int, st: Dedup, vert: Vertex, deduplicate: bool): (r: Dedup)
    ensures |r.indices| == |st.indices| + 1
    ensures !deduplicate ==> r.counter == st.counter + 1 && r.indices[|st.indices|] == st.counter
    ensures deduplicate ==> r.counter + r.duplicatedVertices == st.counter + st.duplicatedVertices + 1
  {
    var found := FindEntry(hash, st.hashed, vert) >= 0;
    if deduplicate then
      if !found then
        var hashed := st.hashed + [Entry(vert, st.counter)];
        FindAfterInsert(hash, st.hashed, Entry(vert, st.counter), vert);
        var k := FindEntry(hash, hashed, vert);
        st.(hashed := hashed,
            finalVertices := st.finalVertices + [vert],
            indices := st.indices + [hashed[k].value],
            counter := st.counter + 1)
      else
        var k := FindEntry(hash, st.hashed, vert);
        st.(duplicatedVertices := st.duplicatedVertices + 1,
            indices := st.indices + [st.hashed[k].value])
    else
      var st1 :=
        if !found then
          st.(hashed := st.hashed + [Entry(vert, st.duplicatedVertices)],
              duplicatedVertices := st.duplicatedVertices + 1)
        else st;
      st1.(finalVertices := st1.finalVertices + [vert],
           indices := st1.indices + [st1.counter],
           counter := st1.counter + 1)
  }

  /** Appending a key leaves every earlier answer in place and only adds answers for the new key. */
  lemma FindAfterInsert(hash: HashKey -> int, hashed: seq<Entry>, e: Entry, v: Vertex)
    ensures FindEntry(hash, hashed + [e], v)
      == if FindEntry(hash, hashed, v) >= 0 then FindEntry(hash, hashed, v)
         else if Matches(hash, e.key, v) then |hashed| else -1
  {
    assert (hashed + [e])[..|hashed|] == hashed;
    MatchesItself(hash, v);
  }

  /** The corner loop over a run of corners, from state `st`. */
  function RecordAll(hash: HashKey -> int, st: Dedup, cs: seq<Vertex>, deduplicate: bool): Dedup {
    if cs == [] then st
    else Record(hash, RecordAll(hash, st, cs[..|cs| - 1], deduplicate), cs[|cs| - 1], deduplicate)
  }

  lemma {:induction false} RecordAllAppend(hash: HashKey -> int, st: Dedup, a: seq<Vertex>, b: seq<Vertex>, deduplicate: bool)
    ensures RecordAll(hash, st, a + b, deduplicate) == RecordAll(hash, RecordAll(hash, st, a, deduplicate), b, deduplicate)
    decreases |b|
  {
    if b == [] {
      assert a + b == a;
    } else {
      assert (a + b)[..|a + b| - 1] == a + b[..|b| - 1];
      RecordAllAppend(hash, st, a, b[..|b| - 1], deduplicate);
    }
  }

  /** The triangle-corner loop of one polygon. */
  method CollectFace(mesh: MeshData, face: Face, hash: HashKey -> int, st0: Dedup, deduplicate: bool)
    returns (st: Dedup)
    ensures st == RecordAll(hash, st0, FaceCorners(mesh, face), deduplicate)
  {
    st := st0;
    var triIdx := 0;
    for i := 0 to |face.triVertIds|
      invariant triIdx == i
      invariant st == RecordAll(hash, st0, FaceCorners(mesh, face)[..i], deduplicate)
    {
      var globalVertexId := face.triVertIds[triIdx];
      triIdx := triIdx + 1;
      var vert := BuildCorner(mesh, face, globalVertexId);
      assert FaceCorners(mesh, face)[..i + 1][..i] == FaceCorners(mesh, face)[..i];
      st := Record(hash, st, vert, deduplicate);
    }
    assert FaceCorners(mesh, face)[..|face.triVertIds|] == FaceCorners(mesh, face);
  }

  /** The polygon loop: every corner of every polygon through the loop body, in order. */
  method CollectVertices(mesh: MeshData, hash: HashKey -> int, deduplicate: bool) returns (st: Dedup)
    ensures st == RecordAll(hash, NoVertices, Corners(mesh, mesh.faces), deduplicate)
  {
    st := NoVertices;
    for f := 0 to |mesh.faces|
      invariant st == RecordAll(hash, NoVertices, Corners(mesh, mesh.faces[..f]), deduplicate)
    {
      ghost var before := st;
      st := CollectFace(mesh, mesh.faces[f], hash, st, deduplicate);
      CollectStep(mesh, hash, deduplicate, f, before, st);
    }
    assert mesh.faces[..|mesh.faces|] == mesh.faces;
  }

  lemma CollectStep(mesh: MeshData, hash: HashKey -> int, deduplicate: bool, f: int, st: Dedup, st': Dedup)
    requires 0 <= f < |mesh.faces|
    requires st == RecordAll(hash, NoVertices, Corners(mesh, mesh.faces[..f]), deduplicate)
    requires st' == RecordAll(hash, st, FaceCorners(mesh, mesh.faces[f]), deduplicate)
    ensures st' == RecordAll(hash, NoVertices, Corners(mesh, mesh.faces[..f + 1]), deduplicate)
  {
    assert mesh.faces[..f + 1][..f] == mesh.faces[..f];
    assert Corners(mesh, mesh.faces[..f + 1]) == Corners(mesh, mesh.faces[..f]) + FaceCorners(mesh, mesh.faces[f]);
    RecordAllAppend(hash, NoVertices, Corners(mesh, mesh.faces[..f]), FaceCorners(mesh, mesh.faces[f]), deduplicate);
  }

  // ---------------------------------------------------------------------
  // What the de-duplication keeps
  // ---------------------------------------------------------------------

  /**
   * The state the de-duplicating loop keeps after the corners `cs`: the
   * stored vertices are exactly the map's keys, each mapped to its own
   * position; every corner has one index, and that index is what a lookup
   * of the corner in the map answers; no stored vertex answers a lookup of
   * a later one; each stored vertex is one of the corners; and every corner
   * was counted either as stored or as duplicated.
   */
  ghost predicate DedupValid(hash: HashKey -> int, st: Dedup, cs: seq<Vertex>) {
    && StoredAreKeys(st)
    && st.counter + st.duplicatedVertices == |cs|
    && IndicesAnswer(hash, st, cs)
    && StoredApart(hash, st)
    && (forall k :: 0 <= k < |st.finalVertices| ==> st.finalVertices[k] in cs)
  }

  ghost predicate StoredAreKeys(st: Dedup) {
    && |st.finalVertices| == st.counter == |st.hashed|
    && (forall k :: 0 <= k < |st.hashed| ==> st.hashed[k] == Entry(st.finalVertices[k], k))
  }

  ghost predicate IndicesAnswer(hash: HashKey -> int, st: Dedup, cs: seq<Vertex>) {
    && |st.indices| == |cs|
    && (forall i :: 0 <= i < |cs| ==>
          0 <= st.indices[i] < st.counter && st.indices[i] == FindEntry(hash, st.hashed, cs[i]))
  }

  ghost predicate StoredApart(hash: HashKey -> int, st: Dedup) {
    forall k, l :: 0 <= k < l < |st.finalVertices| ==> !Matches(hash, st.finalVertices[k], st.finalVertices[l])
  }

  lemma {:induction false} DedupKeepsValid(hash: HashKey -> int, cs: seq<Vertex>)
    ensures DedupValid(hash, RecordAll(hash, NoVertices, cs, true), cs)
    decreases |cs|
  {
    if cs != [] {
      var prefix := cs[..|cs| - 1];
      var v := cs[|cs| - 1];
      var st := RecordAll(hash, NoVertices, prefix, true);
      assert prefix + [v] == cs;
      DedupKeepsValid(hash, prefix);
      DedupStep(hash, st, prefix, v);
    }
  }

  lemma DedupStep(hash: HashKey -> int, st: Dedup, cs: seq<Vertex>, v: Vertex)
    requires DedupValid(hash, st, cs)
    ensures DedupValid(hash, Record(hash, st, v, true), cs + [v])
  {
    if FindEntry(hash, st.hashed, v) < 0 {
      RecordNew(hash, st, v);
      DedupStepNew(hash, st, cs, v, Record(hash, st, v, true));
    } else {
      RecordFound(hash, st, v);
      DedupStepFound(hash, st, cs, v, Record(hash, st, v, true));
    }
  }

  /** De-duplicating, a corner no stored key answers is stored under `counter` and indexed by it. */
  lemma RecordNew(hash: HashKey -> int, st: Dedup, v: Vertex)
    requires FindEntry(hash, st.hashed, v) < 0
    ensures Record(hash, st, v, true)
      == st.(hashed := st.hashed + [Entry(v, st.counter)], finalVertices := st.finalVertices + [v],
             indices := st.indices + [st.counter], counter := st.counter + 1)
  {
    FindAfterInsert(hash, st.hashed, Entry(v, st.counter), v);
  }

  /** De-duplicating, a corner the key at position `k` answers is indexed by that key's value. */
  lemma RecordFound(hash: HashKey -> int, st: Dedup, v: Vertex)
    requires FindEntry(hash, st.hashed, v) >= 0
    ensures Record(hash, st, v, true)
      == st.(duplicatedVertices := st.duplicatedVertices + 1,
             indices := st.indices + [st.hashed[FindEntry(hash, st.hashed, v)].value])
  {
  }

  /** A corner no stored key answers: it is stored under the next position. */
  lemma DedupStepNew(hash: HashKey -> int, st: Dedup, cs: seq<Vertex>, v: Vertex, st': Dedup)
    requires DedupValid(hash, st, cs)
    requires FindEntry(hash, st.hashed, v) < 0
    requires st' == st.(hashed := st.hashed + [Entry(v, st.counter)], finalVertices := st.finalVertices + [v],
                        indices := st.indices + [st.counter], counter := st.counter + 1)
    ensures DedupValid(hash, st', cs + [v])
  {
    NewKeyStored(st, v, st');
    NewKeyAnswers(hash, st, cs, v, st');
    NewKeyApart(hash, st, v, st');
    StoredAmongCorners(st.finalVertices, cs, v);
  }

  lemma NewKeyStored(st: Dedup, v: Vertex, st': Dedup)
    requires StoredAreKeys(st)
    requires st' == st.(hashed := st.hashed + [Entry(v, st.counter)], finalVertices := st.finalVertices + [v],
                        indices := st.indices + [st.counter], counter := st.counter + 1)
    ensures StoredAreKeys(st')
  {
  }

  lemma NewKeyAnswers(hash: HashKey -> int, st: Dedup, cs: seq<Vertex>, v: Vertex, st': Dedup)
    requires |st.hashed| == st.counter && IndicesAnswer(hash, st, cs)
    requires FindEntry(hash, st.hashed, v) < 0
    requires st' == st.(hashed := st.hashed + [Entry(v, st.counter)], finalVertices := st.finalVertices + [v],
                        indices := st.indices + [st.counter], counter := st.counter + 1)
    ensures IndicesAnswer(hash, st', cs + [v])
  {
    var e := Entry(v, st.counter);
    FindAfterInsert(hash, st.hashed, e, v);
    forall i | 0 <= i < |cs|
      ensures FindEntry(hash, st'.hashed, cs[i]) == FindEntry(hash, st.hashed, cs[i])
    {
      FindAfterInsert(hash, st.hashed, e, cs[i]);
    }
  }

  lemma NewKeyApart(hash: HashKey -> int, st: Dedup, v: Vertex, st': Dedup)
    requires StoredAreKeys(st) && StoredApart(hash, st)
    requires FindEntry(hash, st.hashed, v) < 0
    requires st'.finalVertices == st.finalVertices + [v]
    ensures StoredApart(hash, st')
  {
    forall k | 0 <= k < |st.finalVertices|
      ensures !Matches(hash, st.finalVertices[k], v)
    {
      assert st.hashed[k].key == st.finalVertices[k];
    }
  }

  lemma StoredAmongCorners(stored: seq<Vertex>, cs: seq<Vertex>, v: Vertex)
    requires forall k :: 0 <= k < |stored| ==> stored[k] in cs
    ensures forall k :: 0 <= k < |stored| ==> stored[k] in cs + [v]
    ensures forall k :: 0 <= k < |stored + [v]| ==> (stored + [v])[k] in cs + [v]
  {
  }

  /** A corner a stored key answers: it takes that key's position and counts as duplicated. */
  lemma DedupStepFound(hash: HashKey -> int, st: Dedup, cs: seq<Vertex>, v: Vertex, st': Dedup)
    requires DedupValid(hash, st, cs)
    requires FindEntry(hash, st.hashed, v) >= 0
    requires st' == st.(duplicatedVertices := st.duplicatedVertices + 1,
                        indices := st.indices + [st.hashed[FindEntry(hash, st.hashed, v)].value])
    ensures DedupValid(hash, st', cs + [v])
  {
    FoundKeyAnswers(hash, st, cs, v, st');
    StoredAmongCorners(st.finalVertices, cs, v);
  }

  lemma FoundKeyAnswers(hash: HashKey -> int, st: Dedup, cs: seq<Vertex>, v: Vertex, st': Dedup)
    requires StoredAreKeys(st) && IndicesAnswer(hash, st, cs)
    requires FindEntry(hash, st.hashed, v) >= 0
    requires st' == st.(duplicatedVertices := st.duplicatedVertices + 1,
                        indices := st.indices + [st.hashed[FindEntry(hash, st.hashed, v)].value])
    ensures IndicesAnswer(hash, st', cs + [v])
  {
    var k := FindEntry(hash, st.hashed, v);
    assert st.hashed[k].value == k;
  }

  /**
   * Not de-duplicating: the vertices are the corners themselves, the index
   * buffer is 0, 1, 2, ...; the map still collects the distinct keys, each
   * under its insertion position, and `duplicatedVertices` counts them.
   */
  ghost predicate PlainValid(hash: HashKey -> int, st: Dedup, cs: seq<Vertex>) {
    && st.finalVertices == cs
    && st.counter == |cs| && |st.indices| == |cs|
    && (forall i :: 0 <= i < |cs| ==> st.indices[i] == i)
    && st.duplicatedVertices == |st.hashed|
    && (forall k :: 0 <= k < |st.hashed| ==> st.hashed[k].value == k)
  }

  lemma {:induction false} PlainKeepsValid(hash: HashKey -> int, cs: seq<Vertex>)
    ensures PlainValid(hash, RecordAll(hash, NoVertices, cs, false), cs)
    decreases |cs|
  {
    if cs != [] {
      var prefix := cs[..|cs| - 1];
      PlainKeepsValid(hash, prefix);
      assert prefix + [cs[|cs| - 1]] == cs;
    }
  }

  /**
   * Both modes fill the map alike: the same keys with the same values, so
   * the number of vertices a de-duplicating export keeps is the
   * `duplicatedVertices` a plain export reports, and the de-duplicated
   * vertices are the keys the plain export's map holds.
   */
  lemma ModesAgree(hash: HashKey -> int, cs: seq<Vertex>)
    ensures var d := RecordAll(hash, NoVertices, cs, true);
            var p := RecordAll(hash, NoVertices, cs, false);
            && d.hashed == p.hashed
            && d.counter == p.duplicatedVertices
            && |d.finalVertices| == |p.hashed|
            && (forall k :: 0 <= k < |p.hashed| ==> d.finalVertices[k] == p.hashed[k].key)
  {
    ModesFillMapAlike(hash, cs);
    assert StoredAreKeys(RecordAll(hash, NoVertices, cs, true)) by {
      DedupKeepsValid(hash, cs);
    }
  }

  lemma {:induction false} ModesFillMapAlike(hash: HashKey -> int, cs: seq<Vertex>)
    ensures RecordAll(hash, NoVertices, cs, true).hashed == RecordAll(hash, NoVertices, cs, false).hashed
    ensures RecordAll(hash, NoVertices, cs, true).counter == RecordAll(hash, NoVertices, cs, false).duplicatedVertices
    decreases |cs|
  {
    if cs != [] {
      var prefix := cs[..|cs| - 1];
      var d := RecordAll(hash, NoVertices, prefix, true);
      var p := RecordAll(hash, NoVertices, prefix, false);
      ModesFillMapAlike(hash, prefix);
      assert StoredAreKeys(d) by {
        DedupKeepsValid(hash, prefix);
      }
      assert p.duplicatedVertices == |p.hashed| by {
        PlainKeepsValid(hash, prefix);
      }
      ModesStep(hash, d, p, cs[|cs| - 1]);
    }
  }

  /** One corner inserts the same entry, or none, in both modes. */
  lemma ModesStep(hash: HashKey -> int, d: Dedup, p: Dedup, v: Vertex)
    requires d.hashed == p.hashed
    requires d.counter == |d.hashed| == p.duplicatedVertices
    ensures Record(hash, d, v, true).hashed == Record(hash, p, v, false).hashed
    ensures Record(hash, d, v, true).counter == Record(hash, p, v, false).duplicatedVertices
  {
  }

  /**
   * The index buffer reproduces the corners: de-duplicating, each corner's
   * index names a stored vertex with the same hash code that `==` calls
   * equal to it (the same vertex up to the 1e-6 tolerance); not
   * de-duplicating, the very same vertex.
   */
  lemma IndexBufferReproducesCorners(hash: HashKey -> int, cs: seq<Vertex>)
    ensures var d := RecordAll(hash, NoVertices, cs, true);
            |d.indices| == |cs| &&
            forall i :: 0 <= i < |cs| ==>
              0 <= d.indices[i] < |d.finalVertices| && Matches(hash, d.finalVertices[d.indices[i]], cs[i])
    ensures var p := RecordAll(hash, NoVertices, cs, false);
            |p.indices| == |cs| &&
            forall i :: 0 <= i < |cs| ==>
              0 <= p.indices[i] < |p.finalVertices| && p.finalVertices[p.indices[i]] == cs[i]
  {
    DedupKeepsValid(hash, cs);
    PlainKeepsValid(hash, cs);
    var d := RecordAll(hash, NoVertices, cs, true);
    forall i | 0 <= i < |cs|
      ensures Matches(hash, d.finalVertices[d.indices[i]], cs[i])
    {
      assert d.hashed[d.indices[i]].key == d.finalVertices[d.indices[i]];
    }
  }

  /** A lookup only sees the hashed fields of the vertex it looks up. */
  lemma {:induction false} FindEntrySameFields(hash: HashKey -> int, hashed: seq<Entry>, a: Vertex, b: Vertex)
    requires HashFields(a) == HashFields(b)
    ensures FindEntry(hash, hashed, a) == FindEntry(hash, hashed, b)
    decreases |hashed|
  {
    if hashed != [] {
      var key := hashed[|hashed| - 1].key;
      FindEntrySameFields(hash, hashed[..|hashed| - 1], a, b);
      EqualReadsOnlyHashedFields(a, b, key);
      EqualIsReflexiveAndSymmetric(key, a);
      EqualIsReflexiveAndSymmetric(key, b);
    }
  }

  /**
   * De-duplicating, corners that agree exactly on position, colour, normal
   * and UV share one index, whatever joint slots they carry.
   */
  lemma ExactDuplicatesShareIndex(hash: HashKey -> int, cs: seq<Vertex>, i: int, j: int)
    requires 0 <= i < |cs| && 0 <= j < |cs|
    requires HashFields(cs[i]) == HashFields(cs[j])
    ensures var d := RecordAll(hash, NoVertices, cs, true);
            |d.indices| == |cs| && d.indices[i] == d.indices[j]
  {
    DedupKeepsValid(hash, cs);
    FindEntrySameFields(hash, RecordAll(hash, NoVertices, cs, true).hashed, cs[i], cs[j]);
  }

  /**
   * The hash code `std::hash<Vertex>` gives the map: the seed fold over the
   * eleven hashed values, `hashOf` standing for the per-value hashes.
   */
  function SeedFoldHash(hashOf: real -> Size): HashKey -> int {
    k => Fold(hashOf, 0, HashValues(k)) as int
  }

  /**
   * With the map hashing through `std::hash<Vertex>`'s seed fold, the
   * de-duplication keeps its invariants, and corners with identical hashed
   * fields share one index.
   */
  lemma SeedFoldDedup(hashOf: real -> Size, cs: seq<Vertex>, i: int, j: int)
    requires 0 <= i < |cs| && 0 <= j < |cs| && HashFields(cs[i]) == HashFields(cs[j])
    ensures var hash := SeedFoldHash(hashOf);
      var d := RecordAll(hash, NoVertices, cs, true);
      DedupValid(hash, d, cs) && d.indices[i] == d.indices[j]
  {
    DedupKeepsValid(SeedFoldHash(hashOf), cs);
    ExactDuplicatesShareIndex(SeedFoldHash(hashOf), cs, i, j);
  }

  // ---------------------------------------------------------------------
  // Copying skin weights onto the vertices
  // ---------------------------------------------------------------------

  /** The last weighted vertex whose position `Vertex::Compare` accepts, or -1. */
  function LastCompareMatch(v: Vertex, weighted: seq<Vertex>): (k: int)
    ensures -1 <= k < |weighted|
    ensures k == -1 <==> forall j :: 0 <= j < |weighted| ==> !Compare(v, weighted[j])
    ensures k >= 0 ==> Compare(v, weighted[k])
    ensures k >= 0 ==> forall j :: k < j < |weighted| ==> !Compare(v, weighted[j])
  {
    if weighted == [] then -1
    else if Compare(v, weighted[|weighted| - 1]) then |weighted| - 1
    else LastCompareMatch(v, weighted[..|weighted| - 1])
  }

  /**
   * A vertex after the weight loop: every matching weighted vertex
   * overwrites all four joint and weight slots, so the last match wins;
   * with no match the slots stay as they were.
   */
  function Merged(v: Vertex, weighted: seq<Vertex>): (r: Vertex)
    ensures HashFields(r) == HashFields(v)
    ensures LastCompareMatch(v, weighted) < 0 ==> r == v
  {
    var k := LastCompareMatch(v, weighted);
    if k < 0 then v else v.(jointID := weighted[k].jointID, weight := weighted[k].weight)
  }

  /** The copy loop: the four joint IDs and the four weights, slot by slot. */
  method CopySlots(v: Vertex, from: Vertex) returns (r: Vertex)
    ensures r == v.(jointID := from.jointID, weight := from.weight)
  {
    r := v;
    for cpyIdx := 0 to 4
      invariant r == v.(jointID := from.jointID[..cpyIdx] + v.jointID[cpyIdx..],
                        weight := from.weight[..cpyIdx] + v.weight[cpyIdx..])
    {
      r := r.(jointID := r.jointID[cpyIdx := from.jointID[cpyIdx]],
              weight := r.weight[cpyIdx := from.weight[cpyIdx]]);
      assert r.jointID == from.jointID[..cpyIdx + 1] + v.jointID[cpyIdx + 1..];
      assert r.weight == from.weight[..cpyIdx + 1] + v.weight[cpyIdx + 1..];
    }
    assert from.jointID[..4] + v.jointID[4..] == from.jointID;
    assert from.weight[..4] + v.weight[4..] == from.weight;
  }

  /** The inner loop for one vertex: each weighted vertex at a matching position is copied in turn. */
  method MergeVertex(v: Vertex, weighted: seq<Vertex>) returns (r: Vertex)
    ensures r == Merged(v, weighted)
  {
    r := v;
    for wIdvIdx := 0 to |weighted|
      invariant r == Merged(v, weighted[..wIdvIdx])
    {
      assert weighted[..wIdvIdx + 1][..wIdvIdx] == weighted[..wIdvIdx];
      if Compare(r, weighted[wIdvIdx]) {
        r := CopySlots(r, weighted[wIdvIdx]);
      }
    }
    assert weighted[..|weighted|] == weighted;
  }

  /** The outer loop: every stored vertex gets the slots of its last match. */
  method MergeWeights(finalVertices: seq<Vertex>, weighted: seq<Vertex>) returns (out: seq<Vertex>)
    ensures |out| == |finalVertices|
    ensures forall i :: 0 <= i < |out| ==> out[i] == Merged(finalVertices[i], weighted)
  {
    out := finalVertices;
    for fvIdx := 0 to |finalVertices|
      invariant |out| == |finalVertices|
      invariant forall i :: 0 <= i < fvIdx ==> out[i] == Merged(finalVertices[i], weighted)
      invariant forall i :: fvIdx <= i < |out| ==> out[i] == finalVertices[i]
    {
      var merged := MergeVertex(out[fvIdx], weighted);
      out := out[fvIdx := merged];
    }
  }

  /**
   * The weight copy touches only the slots: position, colour, normal and UV
   * are kept, so the hash input, `==` and `Compare` see the same vertex as
   * before. The slots come from the last weighted vertex at a matching
   * position, and stay as they were when none matches.
   */
  lemma MergedKeepsGeometry(v: Vertex, weighted: seq<Vertex>)
    ensures HashFields(Merged(v, weighted)) == HashFields(v)
    ensures (exists j :: 0 <= j < |weighted| && Compare(v, weighted[j])) ==>
      var k := LastCompareMatch(v, weighted);
      0 <= k < |weighted| && Merged(v, weighted) == v.(jointID := weighted[k].jointID, weight := weighted[k].weight)
    ensures (forall j :: 0 <= j < |weighted| ==> !Compare(v, weighted[j])) ==> Merged(v, weighted) == v
  {
  }

  /**
   * After the weight copy, the de-duplicated vertices still answer the
   * lookup of their corners and stay apart: the weights cannot merge or
   * split what the map decided.
   */
  lemma MergeKeepsDedup(hash: HashKey -> int, cs: seq<Vertex>, weighted: seq<Vertex>, out: seq<Vertex>)
    requires var d := RecordAll(hash, NoVertices, cs, true);
      |out| == |d.finalVertices| && forall i :: 0 <= i < |out| ==> out[i] == Merged(d.finalVertices[i], weighted)
    ensures var d := RecordAll(hash, NoVertices, cs, true);
      |d.indices| == |cs| &&
      forall i :: 0 <= i < |cs| ==> 0 <= d.indices[i] < |out| && Matches(hash, out[d.indices[i]], cs[i])
    ensures forall k, l :: 0 <= k < l < |out| ==> !Matches(hash, out[k], out[l])
  {
    var d := RecordAll(hash, NoVertices, cs, true);
    IndexBufferReproducesCorners(hash, cs);
    DedupKeepsValid(hash, cs);
    MergedSameKeys(d.finalVertices, weighted, out);
    SameKeysAnswer(hash, d.finalVertices, out, d.indices, cs);
    SameKeysApart(hash, d.finalVertices, out);
  }

  /** Two vertex lists that agree on every hashed field, position by position. */
  ghost predicate SameKeys(a: seq<Vertex>, b: seq<Vertex>) {
    |a| == |b| && forall k :: 0 <= k < |a| ==> HashFields(a[k]) == HashFields(b[k])
  }

  lemma MergedSameKeys(vs: seq<Vertex>, weighted: seq<Vertex>, out: seq<Vertex>)
    requires |out| == |vs| && forall i :: 0 <= i < |out| ==> out[i] == Merged(vs[i], weighted)
    ensures SameKeys(vs, out)
  {
    forall k | 0 <= k < |out|
      ensures HashFields(out[k]) == HashFields(vs[k])
    {
      MergedKeepsGeometry(vs[k], weighted);
    }
  }

  lemma SameKeysAnswer(hash: HashKey -> int, vs: seq<Vertex>, out: seq<Vertex>, indices: seq<int>, cs: seq<Vertex>)
    requires SameKeys(vs, out)
    requires |indices| == |cs|
    requires forall i :: 0 <= i < |cs| ==> 0 <= indices[i] < |vs| && Matches(hash, vs[indices[i]], cs[i])
    ensures forall i :: 0 <= i < |cs| ==> 0 <= indices[i] < |out| && Matches(hash, out[indices[i]], cs[i])
  {
    forall i | 0 <= i < |cs|
      ensures Matches(hash, out[indices[i]], cs[i])
    {
      var k := indices[i];
      EqualReadsOnlyHashedFields(out[k], vs[k], cs[i]);
    }
  }

  lemma SameKeysApart(hash: HashKey -> int, vs: seq<Vertex>, out: seq<Vertex>)
    requires SameKeys(vs, out)
    requires forall k, l :: 0 <= k < l < |vs| ==> !Matches(hash, vs[k], vs[l])
    ensures forall k, l :: 0 <= k < l < |out| ==> !Matches(hash, out[k], out[l])
  {
    forall k, l | 0 <= k < l < |out|
      ensures !Matches(hash, out[k], out[l])
    {
      EqualReadsOnlyHashedFields(out[k], vs[k], out[l]);
      EqualIsReflexiveAndSymmetric(out[l], vs[k]);
      EqualIsReflexiveAndSymmetric(vs[l], vs[k]);
      EqualReadsOnlyHashedFields(out[l], vs[l], vs[k]);
    }
  }
}
