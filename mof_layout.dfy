/**
 * The layout of the binary mesh file (`.mof`) written by
 * `MOF_Generator::WriteFile`, `WriteRoot` and `WriteJoint`, and a reader
 * for it. The reader exists to state the layout: reading back what the
 * writer produces yields the vertices, indices and skeleton records again.
 */
module MofLayout {
  import opened Wrappers
  import opened Types
  import opened Streams

  /** The stride field: 4-byte values per vertex record. */
  function Stride(meshType: MeshType): int {
    if meshType == Animated then 19 else 11
  }

  function Floats(xs: seq<real>): (ts: seq<Token>)
    ensures |ts| == |xs| && forall i :: 0 <= i < |xs| ==> ts[i] == Float32(xs[i])
  {
    seq(|xs|, i requires 0 <= i < |xs| => Float32(xs[i]))
  }

  function Ints(xs: seq<int>): (ts: seq<Token>)
    ensures |ts| == |xs| && forall i :: 0 <= i < |xs| ==> ts[i] == Int32(xs[i])
  {
    seq(|xs|, i requires 0 <= i < |xs| => Int32(xs[i]))
  }

  /**
   * The name bytes, one per character. This stands for `asUTF8()` and its
   * `strlen` only for names without multi-byte characters and without NUL.
   */
  function Bytes(s: string): (ts: seq<Token>)
    ensures |ts| == |s| && forall i :: 0 <= i < |s| ==> ts[i] == Byte(s[i])
  {
    seq(|s|, i requires 0 <= i < |s| => Byte(s[i]))
  }

  // ---------------------------------------------------------------------
  // Writing
  // ---------------------------------------------------------------------

  /** Position, colour, normal, u, v: the eleven values every vertex record starts with. */
  function GeometryValues(v: Vertex): seq<real> {
    [v.position.x, v.position.y, v.position.z, v.color.r, v.color.g, v.color.b,
     v.normal.x, v.normal.y, v.normal.z, v.u, v.v]
  }

  /** The joint IDs shifted by one for the Root, as the float values the file holds. */
  function SlotIDValues(v: Vertex): seq<real> {
    [(v.jointID[0] + 1) as real, (v.jointID[1] + 1) as real, (v.jointID[2] + 1) as real, (v.jointID[3] + 1) as real]
  }

  function VertexTokens(v: Vertex, meshType: MeshType): seq<Token> {
    Floats(GeometryValues(v)) + if meshType == Animated then Floats(SlotIDValues(v)) + Floats(v.weight) else []
  }

  function VerticesTokens(vs: seq<Vertex>, meshType: MeshType): seq<Token> {
    if vs == [] then [] else VertexTokens(vs[0], meshType) + VerticesTokens(vs[1..], meshType)
  }

  /** Position, rotation quaternion, scale and shear: the thirteen values closing a skeleton record. */
  function TransformValues(t: JointTransform): seq<real> {
    [t.position.x, t.position.y, t.position.z, t.rotation.x, t.rotation.y, t.rotation.z, t.rotation.w,
     t.scale.x, t.scale.y, t.scale.z, t.shear.x, t.shear.y, t.shear.z]
  }

  /** One skeleton record as the file holds it (IDs already shifted for the Root). */
  datatype SkeletonRecord = SkeletonRecord(name: string, ownId: int, parentId: int, childIds: seq<int>, transform: JointTransform)

  function RecordTokens(r: SkeletonRecord): (ts: seq<Token>)
    ensures |ts| == |r.name| + 17 + |r.childIds|
    ensures ts[0] == Int32(|r.name|) && ts[1..|r.name| + 1] == Bytes(r.name)
    ensures var at := |r.name| + 1;
      ts[at] == Int32(r.ownId) && ts[at + 1] == Int32(r.parentId) && ts[at + 2] == Int32(|r.childIds|)
  {
    [Int32(|r.name|)] + Bytes(r.name) + [Int32(r.ownId), Int32(r.parentId), Int32(|r.childIds|)]
    + Ints(r.childIds) + Floats(TransformValues(r.transform))
  }

  function RecordsTokens(rs: seq<SkeletonRecord>): seq<Token> {
    if rs == [] then [] else RecordTokens(rs[0]) + RecordsTokens(rs[1..])
  }

  /** The whole binary file: header, vertex records, indices and, for an animated mesh, the skeleton. */
  function MeshFileTokens(vertices: seq<Vertex>, indices: seq<int>, meshType: MeshType, records: seq<SkeletonRecord>): (ts: seq<Token>)
    ensures |ts| >= 3 && ts[0] == Int32(|vertices|) && ts[1] == Int32(Stride(meshType))
    ensures meshType == Static ==>
      (|ts| >= |indices| + 1 && ts[|ts| - |indices| - 1] == Int32(|indices|) && ts[|ts| - |indices|..] == Ints(indices))
  {
    [Int32(|vertices|), Int32(Stride(meshType))] + VerticesTokens(vertices, meshType)
    + [Int32(|indices|)] + Ints(indices) + SkeletonTokens(meshType, records)
  }

  /** The skeleton section: present only in an animated mesh file. */
  function SkeletonTokens(meshType: MeshType, records: seq<SkeletonRecord>): seq<Token> {
    if meshType == Animated then [Int32(|records|)] + RecordsTokens(records) else []
  }

  lemma {:induction false} VerticesTokensAppend(a: seq<Vertex>, b: seq<Vertex>, meshType: MeshType)
    ensures VerticesTokens(a + b, meshType) == VerticesTokens(a, meshType) + VerticesTokens(b, meshType)
  {
    if a == [] {
      assert a + b == b;
    } else {
      assert (a + b)[1..] == a[1..] + b;
      VerticesTokensAppend(a[1..], b, meshType);
    }
  }

  lemma {:induction false} RecordsTokensAppend(a: seq<SkeletonRecord>, b: seq<SkeletonRecord>)
    ensures RecordsTokens(a + b) == RecordsTokens(a) + RecordsTokens(b)
  {
    if a == [] {
      assert a + b == b;
    } else {
      assert (a + b)[1..] == a[1..] + b;
      RecordsTokensAppend(a[1..], b);
    }
  }

  // ---------------------------------------------------------------------
  // Sizes
  // ---------------------------------------------------------------------

  lemma {:induction false} FloatsBytes(xs: seq<real>)
    ensures ByteLength(Floats(xs)) == 4 * |xs|
    decreases |xs|
  {
    if xs != [] {
      var init := xs[..|xs| - 1];
      assert Floats(xs)[..|xs| - 1] == Floats(init);
      FloatsBytes(init);
    }
  }

  lemma {:induction false} IntsBytes(xs: seq<int>)
    ensures ByteLength(Ints(xs)) == 4 * |xs|
    decreases |xs|
  {
    if xs != [] {
      var init := xs[..|xs| - 1];
      assert Ints(xs)[..|xs| - 1] == Ints(init);
      IntsBytes(init);
    }
  }

  lemma {:induction false} NameBytes(s: string)
    ensures ByteLength(Bytes(s)) == |s|
    decreases |s|
  {
    if s != [] {
      var init := s[..|s| - 1];
      assert Bytes(s)[..|s| - 1] == Bytes(init);
      NameBytes(init);
    }
  }

  /** Bytes one skeleton record occupies. */
  function RecordSize(r: SkeletonRecord): nat {
    4 * (4 + |r.childIds| + 13) + |r.name|
  }

  function RecordsSize(rs: seq<SkeletonRecord>): nat {
    if rs == [] then 0 else RecordSize(rs[0]) + RecordsSize(rs[1..])
  }

  /** A vertex record occupies `stride` four-byte values. */
  lemma VertexRecordSize(v: Vertex, meshType: MeshType)
    ensures ByteLength(VertexTokens(v, meshType)) == 4 * Stride(meshType)
  {
    FloatsBytes(GeometryValues(v));
    if meshType == Animated {
      FloatsBytes(SlotIDValues(v));
      FloatsBytes(v.weight);
      ByteLengthAppend(Floats(SlotIDValues(v)), Floats(v.weight));
      ByteLengthAppend(Floats(GeometryValues(v)), Floats(SlotIDValues(v)) + Floats(v.weight));
    } else {
      assert VertexTokens(v, meshType) == Floats(GeometryValues(v)) + [];
      assert Floats(GeometryValues(v)) + [] == Floats(GeometryValues(v));
    }
  }

  lemma {:induction false} VerticesSize(vs: seq<Vertex>, meshType: MeshType)
    ensures ByteLength(VerticesTokens(vs, meshType)) == 4 * (Stride(meshType) * |vs|)
  {
    if vs != [] {
      VertexRecordSize(vs[0], meshType);
      VerticesSize(vs[1..], meshType);
      ByteLengthAppend(VertexTokens(vs[0], meshType), VerticesTokens(vs[1..], meshType));
    }
  }

  lemma RecordSizeIs(r: SkeletonRecord)
    ensures ByteLength(RecordTokens(r)) == RecordSize(r)
  {
    var head := Ints([|r.name|]);
    var ids := Ints([r.ownId, r.parentId, |r.childIds|]);
    assert head == [Int32(|r.name|)];
    assert ids == [Int32(r.ownId), Int32(r.parentId), Int32(|r.childIds|)];
    IntsBytes([|r.name|]);
    IntsBytes([r.ownId, r.parentId, |r.childIds|]);
    NameBytes(r.name);
    IntsBytes(r.childIds);
    FloatsBytes(TransformValues(r.transform));
    ByteLengthAppend(head, Bytes(r.name));
    ByteLengthAppend(head + Bytes(r.name), ids);
    ByteLengthAppend(head + Bytes(r.name) + ids, Ints(r.childIds));
    ByteLengthAppend(head + Bytes(r.name) + ids + Ints(r.childIds), Floats(TransformValues(r.transform)));
  }

  lemma {:induction false} RecordsSizeIs(rs: seq<SkeletonRecord>)
    ensures ByteLength(RecordsTokens(rs)) == RecordsSize(rs)
  {
    if rs != [] {
      RecordSizeIs(rs[0]);
      RecordsSizeIs(rs[1..]);
      ByteLengthAppend(RecordTokens(rs[0]), RecordsTokens(rs[1..]));
    }
  }

  /**
   * Size of the binary file: three counts, `stride` values per vertex, one
   * value per index and, for an animated mesh, the skeleton count and its
   * records (each 17 values, one per child, and its name's bytes).
   */
  lemma MeshFileSize(vertices: seq<Vertex>, indices: seq<int>, meshType: MeshType, records: seq<SkeletonRecord>)
    ensures ByteLength(MeshFileTokens(vertices, indices, meshType, records))
      == 4 * (3 + Stride(meshType) * |vertices| + |indices|)
         + (if meshType == Animated then 4 + RecordsSize(records) else 0)
  {
    var header := [Int32(|vertices|), Int32(Stride(meshType))];
    var count := [Int32(|indices|)];
    var skeleton := SkeletonTokens(meshType, records);
    CountBytes(|vertices|, Stride(meshType), |indices|);
    assert ByteLength(VerticesTokens(vertices, meshType)) == 4 * (Stride(meshType) * |vertices|) by {
      VerticesSize(vertices, meshType);
    }
    assert ByteLength(Ints(indices)) == 4 * |indices| by { IntsBytes(indices); }
    assert ByteLength(skeleton) == if meshType == Animated then 4 + RecordsSize(records) else 0 by {
      SkeletonSize(meshType, records);
    }
    FiveParts(header, VerticesTokens(vertices, meshType), count, Ints(indices), skeleton);
  }

  /** The header's two counts and the index count are four bytes each. */
  lemma CountBytes(a: int, b: int, c: int)
    ensures ByteLength([Int32(a), Int32(b)]) == 8 && ByteLength([Int32(c)]) == 4
  {
    assert [Int32(a), Int32(b)][..1] == [Int32(a)];
    assert ByteLength([Int32(a)]) == 4 by {
      assert [Int32(a)][..0] == [];
    }
    assert ByteLength([Int32(c)]) == 4 by {
      assert [Int32(c)][..0] == [];
    }
  }

  /** The length of five sections written one after the other. */
  lemma FiveParts(a: seq<Token>, b: seq<Token>, c: seq<Token>, d: seq<Token>, e: seq<Token>)
    ensures ByteLength(a + b + c + d + e)
      == ByteLength(a) + ByteLength(b) + ByteLength(c) + ByteLength(d) + ByteLength(e)
  {
    ByteLengthAppend(a, b);
    ByteLengthAppend(a + b, c);
    ByteLengthAppend(a + b + c, d);
    ByteLengthAppend(a + b + c + d, e);
  }

  lemma SkeletonSize(meshType: MeshType, records: seq<SkeletonRecord>)
    ensures ByteLength(SkeletonTokens(meshType, records))
      == if meshType == Animated then 4 + RecordsSize(records) else 0
  {
    if meshType == Animated {
      RecordsSizeIs(records);
      assert Ints([|records|]) == [Int32(|records|)];
      IntsBytes([|records|]);
      ByteLengthAppend([Int32(|records|)], RecordsTokens(records));
    }
  }

  // ---------------------------------------------------------------------
  // Reading back
  // ---------------------------------------------------------------------

  /** A decoded binary mesh file. */
  datatype MeshFile = MeshFile(meshType: MeshType, vertices: seq<Vertex>, indices: seq<int>, records: seq<SkeletonRecord>)

  function ReadInt(ts: seq<Token>): (r: Option<(int, seq<Token>)>)
    ensures r.Some? ==> |r.value.1| < |ts|
  {
    if |ts| > 0 && ts[0].Int32? then Some((ts[0].i, ts[1..])) else None
  }

  function ReadInts(ts: seq<Token>, n: nat): (r: Option<(seq<int>, seq<Token>)>)
    ensures r.Some? ==> |r.value.0| == n && |r.value.1| + n == |ts|
  {
    if n == 0 then Some(([], ts))
    else if |ts| > 0 && ts[0].Int32? then
      match ReadInts(ts[1..], n - 1)
      case Some((xs, rest)) => Some(([ts[0].i] + xs, rest))
      case None => None
    else None
  }

  function ReadFloats(ts: seq<Token>, n: nat): (r: Option<(seq<real>, seq<Token>)>)
    ensures r.Some? ==> |r.value.0| == n && |r.value.1| + n == |ts|
  {
    if n == 0 then Some(([], ts))
    else if |ts| > 0 && ts[0].Float32? then
      match ReadFloats(ts[1..], n - 1)
      case Some((xs, rest)) => Some(([ts[0].f] + xs, rest))
      case None => None
    else None
  }

  function ReadBytes(ts: seq<Token>, n: nat): (r: Option<(string, seq<Token>)>)
    ensures r.Some? ==> |r.value.0| == n && |r.value.1| + n == |ts|
  {
    if n == 0 then Some(([], ts))
    else if |ts| > 0 && ts[0].Byte? then
      match ReadBytes(ts[1..], n - 1)
      case Some((cs, rest)) => Some(([ts[0].c] + cs, rest))
      case None => None
    else None
  }

  /** The vertex a record describes; a static record leaves the slots at their defaults. */
  function ReadVertex(ts: seq<Token>, meshType: MeshType): (r: Option<(Vertex, seq<Token>)>)
    ensures r.Some? ==> |r.value.1| < |ts|
  {
    match ReadFloats(ts, 11)
    case None => None
    case Some((g, r1)) =>
      var v := DefaultVertex.(position := Vec3(g[0], g[1], g[2]), color := Rgb(g[3], g[4], g[5]),
                              normal := Vec3(g[6], g[7], g[8]), u := g[9], v := g[10]);
      if meshType == Static then Some((v, r1))
      else
        match ReadFloats(r1, 4)
        case None => None
        case Some((ids, r2)) =>
          match ReadFloats(r2, 4)
          case None => None
          case Some((wts, r3)) =>
            Some((v.(jointID := [ids[0].Floor - 1, ids[1].Floor - 1, ids[2].Floor - 1, ids[3].Floor - 1],
                     weight := wts), r3))
  }

  function ReadVertices(ts: seq<Token>, n: nat, meshType: MeshType): (r: Option<(seq<Vertex>, seq<Token>)>)
    ensures r.Some? ==> |r.value.0| == n
    decreases n
  {
    if n == 0 then Some(([], ts))
    else
      match ReadVertex(ts, meshType)
      case None => None
      case Some((v, rest)) =>
        match ReadVertices(rest, n - 1, meshType)
        case None => None
        case Some((vs, rest')) => Some(([v] + vs, rest'))
  }

  function ReadRecord(ts: seq<Token>): (r: Option<(SkeletonRecord, seq<Token>)>)
    ensures r.Some? ==> |r.value.1| < |ts|
  {
    match ReadInt(ts)
    case None => None
    case Some((len, r1)) =>
      if len < 0 then None else
      match ReadBytes(r1, len)
      case None => None
      case Some((name, r2)) =>
        match ReadInts(r2, 3)
        case None => None
        case Some((ids, r3)) =>
          if ids[2] < 0 then None else
          match ReadInts(r3, ids[2])
          case None => None
          case Some((children, r4)) =>
            match ReadFloats(r4, 13)
            case None => None
            case Some((t, r5)) =>
              var transform := JointTransform(Vec3(t[0], t[1], t[2]), Zero3, Quat(t[3], t[4], t[5], t[6]),
                                              Vec3(t[7], t[8], t[9]), Vec3(t[10], t[11], t[12]));
              Some((SkeletonRecord(name, ids[0], ids[1], children, transform), r5))
  }

  function ReadRecords(ts: seq<Token>, n: nat): (r: Option<(seq<SkeletonRecord>, seq<Token>)>)
    ensures r.Some? ==> |r.value.0| == n
    decreases n
  {
    if n == 0 then Some(([], ts))
    else
      match ReadRecord(ts)
      case None => None
      case Some((r, rest)) =>
        match ReadRecords(rest, n - 1)
        case None => None
        case Some((rs, rest')) => Some(([r] + rs, rest'))
  }

  /** Reads a whole binary mesh file; fails on a malformed or over-long stream. */
  function DecodeMesh(ts: seq<Token>): Option<MeshFile> {
    match ReadInts(ts, 2)
    case None => None
    case Some((header, r1)) =>
      var vCount := header[0];
      var stride := header[1];
      if vCount < 0 || (stride != 11 && stride != 19) then None else
      var meshType := if stride == 19 then Animated else Static;
      match ReadVertices(r1, vCount, meshType)
      case None => None
      case Some((vertices, r2)) => DecodeIndices(r2, meshType, vertices)
  }

  /** The part of the file after the vertex records. */
  function DecodeIndices(ts: seq<Token>, meshType: MeshType, vertices: seq<Vertex>): Option<MeshFile> {
    match ReadInt(ts)
    case None => None
    case Some((iCount, r1)) =>
      if iCount < 0 then None else
      match ReadInts(r1, iCount)
      case None => None
      case Some((indices, r2)) =>
        if meshType == Static then
          if r2 == [] then Some(MeshFile(meshType, vertices, indices, [])) else None
        else DecodeSkeleton(r2, vertices, indices)
  }

  /** The skeleton section of an animated mesh file. */
  function DecodeSkeleton(ts: seq<Token>, vertices: seq<Vertex>, indices: seq<int>): Option<MeshFile> {
    match ReadInt(ts)
    case None => None
    case Some((size, r1)) =>
      if size < 0 then None else
      match ReadRecords(r1, size)
      case None => None
      case Some((records, r2)) =>
        if r2 == [] then Some(MeshFile(Animated, vertices, indices, records)) else None
  }

  // ---------------------------------------------------------------------
  // Round trip
  // ---------------------------------------------------------------------

  lemma {:induction false} ReadIntsOfInts(xs: seq<int>, rest: seq<Token>)
    ensures ReadInts(Ints(xs) + rest, |xs|) == Some((xs, rest))
    decreases |xs|
  {
    var ts := Ints(xs) + rest;
    if xs != [] {
      assert ts[0] == Int32(xs[0]);
      assert ts[1..] == Ints(xs[1..]) + rest;
      ReadIntsOfInts(xs[1..], rest);
      assert [xs[0]] + xs[1..] == xs;
    } else {
      assert ts == rest;
    }
  }

  lemma {:induction false} ReadFloatsOfFloats(xs: seq<real>, rest: seq<Token>)
    ensures ReadFloats(Floats(xs) + rest, |xs|) == Some((xs, rest))
    decreases |xs|
  {
    var ts := Floats(xs) + rest;
    if xs != [] {
      assert ts[0] == Float32(xs[0]);
      assert ts[1..] == Floats(xs[1..]) + rest;
      ReadFloatsOfFloats(xs[1..], rest);
      assert [xs[0]] + xs[1..] == xs;
    } else {
      assert ts == rest;
    }
  }

  lemma {:induction false} ReadBytesOfBytes(s: string, rest: seq<Token>)
    ensures ReadBytes(Bytes(s) + rest, |s|) == Some((s, rest))
    decreases |s|
  {
    var ts := Bytes(s) + rest;
    if s != [] {
      assert ts[0] == Byte(s[0]);
      assert ts[1..] == Bytes(s[1..]) + rest;
      ReadBytesOfBytes(s[1..], rest);
      assert [s[0]] + s[1..] == s;
    } else {
      assert ts == rest;
    }
  }

  /** What a vertex record keeps of a vertex: everything when animated, no slots when static. */
  function Written(v: Vertex, meshType: MeshType): Vertex {
    if meshType == Animated then v else v.(jointID := NoJoints, weight := NoWeights)
  }

  function WrittenAll(vs: seq<Vertex>, meshType: MeshType): (ws: seq<Vertex>)
    ensures |ws| == |vs| && forall i :: 0 <= i < |vs| ==> ws[i] == Written(vs[i], meshType)
  {
    seq(|vs|, i requires 0 <= i < |vs| => Written(vs[i], meshType))
  }

  /** Reading a vertex record gives back the written vertex. */
  lemma ReadVertexOfVertex(v: Vertex, meshType: MeshType, rest: seq<Token>)
    ensures ReadVertex(VertexTokens(v, meshType) + rest, meshType) == Some((Written(v, meshType), rest))
  {
    var g := GeometryValues(v);
    if meshType == Animated {
      var tail := Floats(SlotIDValues(v)) + Floats(v.weight) + rest;
      assert VertexTokens(v, meshType) + rest == Floats(g) + tail;
      ReadFloatsOfFloats(g, tail);
      ReadFloatsOfFloats(SlotIDValues(v), Floats(v.weight) + rest);
      assert tail == Floats(SlotIDValues(v)) + (Floats(v.weight) + rest);
      ReadFloatsOfFloats(v.weight, rest);
      var ids: JointSlots := [v.jointID[0], v.jointID[1], v.jointID[2], v.jointID[3]];
      assert ids == v.jointID;
    } else {
      assert VertexTokens(v, meshType) + rest == Floats(g) + rest;
      ReadFloatsOfFloats(g, rest);
    }
  }

  lemma {:induction false} ReadVerticesOfVertices(vs: seq<Vertex>, meshType: MeshType, rest: seq<Token>)
    ensures ReadVertices(VerticesTokens(vs, meshType) + rest, |vs|, meshType) == Some((WrittenAll(vs, meshType), rest))
    decreases |vs|
  {
    if vs != [] {
      var tail := VerticesTokens(vs[1..], meshType) + rest;
      assert VerticesTokens(vs, meshType) + rest == VertexTokens(vs[0], meshType) + tail;
      ReadVertexOfVertex(vs[0], meshType, tail);
      ReadVerticesOfVertices(vs[1..], meshType, rest);
      assert [Written(vs[0], meshType)] + WrittenAll(vs[1..], meshType) == WrittenAll(vs, meshType);
    } else {
      assert VerticesTokens(vs, meshType) + rest == rest;
    }
  }

  /** What a skeleton record keeps of a transform: everything but the Euler rotation. */
  function WrittenRecord(r: SkeletonRecord): SkeletonRecord {
    r.(transform := r.transform.(eulerRotation := Zero3))
  }

  function WrittenRecords(rs: seq<SkeletonRecord>): (ws: seq<SkeletonRecord>)
    ensures |ws| == |rs| && forall i :: 0 <= i < |rs| ==> ws[i] == WrittenRecord(rs[i])
  {
    seq(|rs|, i requires 0 <= i < |rs| => WrittenRecord(rs[i]))
  }

  lemma ReadRecordOfRecord(r: SkeletonRecord, rest: seq<Token>)
    ensures ReadRecord(RecordTokens(r) + rest) == Some((WrittenRecord(r), rest))
  {
    var ids := [r.ownId, r.parentId, |r.childIds|];
    var t := TransformValues(r.transform);
    var r4 := Floats(t) + rest;
    var r3 := Ints(r.childIds) + r4;
    var r2 := Ints(ids) + r3;
    var r1 := Bytes(r.name) + r2;
    assert Ints(ids) == [Int32(r.ownId), Int32(r.parentId), Int32(|r.childIds|)];
    RegroupFront6([Int32(|r.name|)], Bytes(r.name), Ints(ids), Ints(r.childIds), Floats(t), rest);
    ReadBytesOfBytes(r.name, r2);
    ReadIntsOfInts(ids, r3);
    ReadIntsOfInts(r.childIds, r4);
    ReadFloatsOfFloats(t, rest);
  }

  lemma {:induction false} ReadRecordsOfRecords(rs: seq<SkeletonRecord>, rest: seq<Token>)
    ensures ReadRecords(RecordsTokens(rs) + rest, |rs|)
      == Some((WrittenRecords(rs), rest))
    decreases |rs|
  {
    if rs != [] {
      var tail := RecordsTokens(rs[1..]) + rest;
      var ts := RecordsTokens(rs) + rest;
      RegroupFront(RecordTokens(rs[0]), RecordsTokens(rs[1..]), rest);
      ReadRecordOfRecord(rs[0], tail);
      ReadRecordsOfRecords(rs[1..], rest);
      WrittenRecordsFront(rs);
      ReadRecordsStep(ts, |rs|, WrittenRecord(rs[0]), tail, WrittenRecords(rs[1..]), rest);
    } else {
      assert RecordsTokens(rs) + rest == rest;
      assert WrittenRecords(rs) == [];
    }
  }

  /** One record read, then the rest. */
  lemma ReadRecordsStep(ts: seq<Token>, n: nat, r: SkeletonRecord, tail: seq<Token>,
                        rs: seq<SkeletonRecord>, rest: seq<Token>)
    requires n > 0
    requires ReadRecord(ts) == Some((r, tail))
    requires ReadRecords(tail, n - 1) == Some((rs, rest))
    ensures ReadRecords(ts, n) == Some(([r] + rs, rest))
  {
  }

  lemma WrittenRecordsFront(rs: seq<SkeletonRecord>)
    requires rs != []
    ensures WrittenRecords(rs) == [WrittenRecord(rs[0])] + WrittenRecords(rs[1..])
  {
    assert WrittenRecords(rs) == [WrittenRecord(rs[0])] + WrittenRecords(rs[1..]);
  }

  lemma ReadIntOf(x: int, rest: seq<Token>)
    ensures ReadInt([Int32(x)] + rest) == Some((x, rest))
  {
    assert ([Int32(x)] + rest)[1..] == rest;
  }

  /** The records of a skeleton section that ends the file read back with nothing left over. */
  lemma ReadRecordsOfAll(rs: seq<SkeletonRecord>)
    ensures ReadRecords(RecordsTokens(rs), |rs|) == Some((WrittenRecords(rs), []))
  {
    ReadRecordsOfRecords(rs, []);
    assert RecordsTokens(rs) + [] == RecordsTokens(rs);
  }

  lemma DecodeSkeletonOf(vertices: seq<Vertex>, indices: seq<int>, records: seq<SkeletonRecord>)
    ensures DecodeSkeleton([Int32(|records|)] + RecordsTokens(records), vertices, indices)
      == Some(MeshFile(Animated, vertices, indices, WrittenRecords(records)))
  {
    var ts := [Int32(|records|)] + RecordsTokens(records);
    var body := RecordsTokens(records);
    ReadIntOf(|records|, body);
    ReadRecordsOfAll(records);
    DecodeSkeletonSteps(ts, |records|, body, WrittenRecords(records), vertices, indices);
  }

  /** The skeleton section decodes as its two reads say. */
  lemma DecodeSkeletonSteps(ts: seq<Token>, n: nat, body: seq<Token>, rs: seq<SkeletonRecord>,
                            vertices: seq<Vertex>, indices: seq<int>)
    requires ReadInt(ts) == Some((n, body))
    requires ReadRecords(body, n) == Some((rs, []))
    ensures DecodeSkeleton(ts, vertices, indices) == Some(MeshFile(Animated, vertices, indices, rs))
  {
  }

  lemma DecodeIndicesOf(vertices: seq<Vertex>, indices: seq<int>, meshType: MeshType, records: seq<SkeletonRecord>)
    ensures DecodeIndices([Int32(|indices|)] + Ints(indices) + SkeletonTokens(meshType, records),
                          meshType, vertices)
      == Some(MeshFile(meshType, vertices, indices, if meshType == Animated then WrittenRecords(records) else []))
  {
    var skeleton := SkeletonTokens(meshType, records);
    var body := Ints(indices) + skeleton;
    var ts := [Int32(|indices|)] + body;
    assert ts == [Int32(|indices|)] + Ints(indices) + skeleton;
    ReadIntOf(|indices|, body);
    assert ReadInts(body, |indices|) == Some((indices, skeleton)) by {
      ReadIntsOfInts(indices, skeleton);
    }
    if meshType == Animated {
      DecodeSkeletonOf(vertices, indices, records);
    }
    DecodeIndicesSteps(ts, |indices|, body, indices, skeleton, meshType, vertices);
  }

  /** The index section decodes as its reads say, then hands over to the skeleton. */
  lemma DecodeIndicesSteps(ts: seq<Token>, n: nat, body: seq<Token>, indices: seq<int>, rest: seq<Token>,
                           meshType: MeshType, vertices: seq<Vertex>)
    requires ReadInt(ts) == Some((n, body))
    requires ReadInts(body, n) == Some((indices, rest))
    ensures DecodeIndices(ts, meshType, vertices)
      == if meshType == Static then (if rest == [] then Some(MeshFile(Static, vertices, indices, [])) else None)
         else DecodeSkeleton(rest, vertices, indices)
  {
  }

  /**
   * Reading the binary file back yields the mesh type its stride names,
   * the written vertices, the indices and, for an animated mesh, the
   * skeleton records in order.
   */
  lemma MeshFileRoundTrip(vertices: seq<Vertex>, indices: seq<int>, meshType: MeshType, records: seq<SkeletonRecord>)
    ensures DecodeMesh(MeshFileTokens(vertices, indices, meshType, records))
      == Some(MeshFile(meshType, WrittenAll(vertices, meshType), indices,
                       if meshType == Animated then WrittenRecords(records) else []))
  {
    var skeleton := SkeletonTokens(meshType, records);
    var r2 := [Int32(|indices|)] + Ints(indices) + skeleton;
    var r1 := VerticesTokens(vertices, meshType) + r2;
    var header := [|vertices|, Stride(meshType)];
    assert Ints(header) == [Int32(|vertices|), Int32(Stride(meshType))];
    RegroupFront5(Ints(header), VerticesTokens(vertices, meshType), [Int32(|indices|)], Ints(indices), skeleton);
    ReadIntsOfInts(header, r1);
    ReadVerticesOfVertices(vertices, meshType, r2);
    DecodeIndicesOf(WrittenAll(vertices, meshType), indices, meshType, records);
  }

  lemma RegroupFront<T>(a: seq<T>, b: seq<T>, rest: seq<T>)
    ensures (a + b) + rest == a + (b + rest)
  {
  }

  /** Five sections written one after the other, regrouped from the front. */
  lemma RegroupFront5<T>(a: seq<T>, b: seq<T>, c: seq<T>, d: seq<T>, e: seq<T>)
    ensures a + b + c + d + e == a + (b + (c + d + e))
  {
  }

  /** Six sections written one after the other, regrouped from the front. */
  lemma RegroupFront6<T>(a: seq<T>, b: seq<T>, c: seq<T>, d: seq<T>, e: seq<T>, f: seq<T>)
    ensures a + b + c + d + e + f == a + (b + (c + (d + (e + f))))
  {
  }
}
