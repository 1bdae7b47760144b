/**
 * The mesh-file writers of `MOF_Generator` (src/MOF_Generator.cpp):
 * `WriteFile` with its binary and text branches, `WriteJoint` and
 * `WriteRoot`. The binary layout itself, and the reader that undoes it,
 * are in `MofLayout`.
 */
module MofWriter {
  import opened Types
  import opened Scene
  import opened Streams
  import opened MofLayout

  // ---------------------------------------------------------------------
  // Skeleton records
  // ---------------------------------------------------------------------

  /** Every ID moved up by one: index 0 of the file's skeleton is the Root. */
  function Shifted(ids: seq<int>): (r: seq<int>)
    ensures |r| == |ids| && forall k :: 0 <= k < |ids| ==> r[k] == ids[k] + 1
  {
    seq(|ids|, k requires 0 <= k < |ids| => ids[k] + 1)
  }

  /** What `WriteJoint` writes for a joint while the playback cursor is at `cursor`. */
  function JointRecord(host: Host, cursor: int, joint: Joint): SkeletonRecord {
    SkeletonRecord(joint.name, joint.influenceID + 1, joint.parentID + 1, Shifted(joint.childrenIDs),
                   host.transformAt(joint.ownDagPath, cursor))
  }

  /** What `WriteRoot` writes: the Root's host name, IDs 0 and 0, its children shifted. */
  function RootRecord(host: Host, cursor: int, root: Root): SkeletonRecord {
    SkeletonRecord(host.nameOf(root.rootObj), 0, 0, Shifted(root.childrenIDs), host.transformAt(root.rootObj, cursor))
  }

  /** The joints' records, in list order. */
  function JointRecords(host: Host, cursor: int, skeleton: seq<Joint>): (rs: seq<SkeletonRecord>)
    ensures |rs| == |skeleton|
    ensures forall j :: 0 <= j < |skeleton| ==> rs[j] == JointRecord(host, cursor, skeleton[j])
  {
    seq(|skeleton|, j requires 0 <= j < |skeleton| => JointRecord(host, cursor, skeleton[j]))
  }

  /** The skeleton section's records: the Root first, then every joint in list order. */
  function SkeletonRecords(host: Host, cursor: int, root: Root, skeleton: seq<Joint>): seq<SkeletonRecord> {
    [RootRecord(host, cursor, root)] + JointRecords(host, cursor, skeleton)
  }

  /** One skeleton record, field by field, with the child loop. */
  method WriteRecord(file: Stream<Token>, r: SkeletonRecord)
    modifies file
    ensures file.items == old(file.items) + RecordTokens(r)
  {
    file.Write(Int32(|r.name|));
    file.WriteAll(Bytes(r.name));
    file.Write(Int32(r.ownId));
    file.Write(Int32(r.parentId));
    file.Write(Int32(|r.childIds|));
    ghost var head := file.items;
    for cI := 0 to |r.childIds|
      invariant file.items == head + Ints(r.childIds[..cI])
    {
      ghost var before := file.items;
      file.Write(Int32(r.childIds[cI]));
      IntsStep(r.childIds, cI);
      Grows(head, Ints(r.childIds[..cI]), before, [Int32(r.childIds[cI])], Ints(r.childIds[..cI + 1]), file.items);
    }
    assert r.childIds[..|r.childIds|] == r.childIds;
    file.WriteAll(Floats(TransformValues(r.transform)));
    RecordRegroup(old(file.items), Int32(|r.name|), Bytes(r.name), Int32(r.ownId), Int32(r.parentId),
                  Int32(|r.childIds|), Ints(r.childIds), Floats(TransformValues(r.transform)));
  }

  lemma IntsStep(xs: seq<int>, i: int)
    requires 0 <= i < |xs|
    ensures Ints(xs[..i + 1]) == Ints(xs[..i]) + [Int32(xs[i])]
  {
  }

  lemma RecordRegroup<T>(o: seq<T>, a: T, b: seq<T>, c: T, d: T, e: T, ids: seq<T>, f: seq<T>)
    ensures (((((o + [a]) + b) + [c]) + [d]) + [e]) + ids + f == o + ([a] + b + [c, d, e] + ids + f)
  {
  }

  /** `WriteJoint`: the joint's transform is read at the current time. */
  method WriteJoint(file: Stream<Token>, host: Host, cursor: int, joint: Joint)
    modifies file
    ensures file.items == old(file.items) + RecordTokens(JointRecord(host, cursor, joint))
  {
    var transform := host.transformAt(joint.ownDagPath, cursor);
    var ownId := joint.influenceID + 1;
    var parent := joint.parentID + 1;
    WriteRecord(file, SkeletonRecord(joint.name, ownId, parent, Shifted(joint.childrenIDs), transform));
  }

  /** `WriteRoot`: the Root node's name and transform, both IDs 0. */
  method WriteRoot(file: Stream<Token>, host: Host, cursor: int, root: Root)
    modifies file
    ensures file.items == old(file.items) + RecordTokens(RootRecord(host, cursor, root))
  {
    var transform := host.transformAt(root.rootObj, cursor);
    var ids := 0;
    WriteRecord(file, SkeletonRecord(host.nameOf(root.rootObj), ids, ids, Shifted(root.childrenIDs), transform));
  }

  // ---------------------------------------------------------------------
  // The binary branch
  // ---------------------------------------------------------------------

  /** One vertex record: eleven floats, then for an animated mesh the shifted joint IDs and the weights. */
  method WriteVertex(file: Stream<Token>, v: Vertex, meshType: MeshType)
    modifies file
    ensures file.items == old(file.items) + VertexTokens(v, meshType)
  {
    file.WriteAll(Floats(GeometryValues(v)));
    if meshType == Animated {
      file.WriteAll(Floats(SlotIDValues(v)));
      file.WriteAll(Floats(v.weight));
    }
  }

  /** The vertex loop of the binary branch. */
  method WriteVertices(file: Stream<Token>, finalVertices: seq<Vertex>, meshType: MeshType)
    modifies file
    ensures file.items == old(file.items) + VerticesTokens(finalVertices, meshType)
  {
    for v := 0 to |finalVertices|
      invariant file.items == old(file.items) + VerticesTokens(finalVertices[..v], meshType)
    {
      ghost var before := file.items;
      WriteVertex(file, finalVertices[v], meshType);
      VerticesTokensStep(finalVertices, v, meshType);
      Grows(old(file.items), VerticesTokens(finalVertices[..v], meshType), before,
            VertexTokens(finalVertices[v], meshType), VerticesTokens(finalVertices[..v + 1], meshType), file.items);
    }
    assert finalVertices[..|finalVertices|] == finalVertices;
  }

  lemma VerticesTokensStep(vs: seq<Vertex>, i: int, meshType: MeshType)
    requires 0 <= i < |vs|
    ensures VerticesTokens(vs[..i + 1], meshType) == VerticesTokens(vs[..i], meshType) + VertexTokens(vs[i], meshType)
  {
    assert vs[..i + 1] == vs[..i] + [vs[i]];
    VerticesTokensAppend(vs[..i], [vs[i]], meshType);
    assert VerticesTokens([vs[i]], meshType) == VertexTokens(vs[i], meshType) + VerticesTokens([], meshType);
  }

  /** The index count, then every index. */
  method WriteIndices(file: Stream<Token>, indices: seq<int>)
    modifies file
    ensures file.items == old(file.items) + [Int32(|indices|)] + Ints(indices)
  {
    var iCount := |indices|;
    file.Write(Int32(iCount));
    ghost var head := file.items;
    for i := 0 to |indices|
      invariant file.items == head + Ints(indices[..i])
    {
      ghost var before := file.items;
      file.Write(Int32(indices[i]));
      IntsStep(indices, i);
      Grows(head, Ints(indices[..i]), before, [Int32(indices[i])], Ints(indices[..i + 1]), file.items);
    }
    assert indices[..|indices|] == indices;
  }

  /** The skeleton count (joints plus the Root), the Root's record, then every joint's. */
  method WriteSkeleton(file: Stream<Token>, host: Host, cursor: int, root: Root, skeleton: seq<Joint>)
    modifies file
    ensures file.items == old(file.items) + SkeletonTokens(Animated, SkeletonRecords(host, cursor, root, skeleton))
  {
    var size := |skeleton| + 1;
    file.Write(Int32(size));
    WriteRoot(file, host, cursor, root);
    WriteJoints(file, host, cursor, skeleton);
    ghost var r := RootRecord(host, cursor, root);
    ghost var rs := JointRecords(host, cursor, skeleton);
    SkeletonTokensOf(r, rs);
    Regroup(old(file.items), [Int32(size)], RecordTokens(r), RecordsTokens(rs));
  }

  lemma SkeletonTokensOf(r: SkeletonRecord, rs: seq<SkeletonRecord>)
    ensures SkeletonTokens(Animated, [r] + rs) == [Int32(|rs| + 1)] + RecordTokens(r) + RecordsTokens(rs)
  {
    assert ([r] + rs)[1..] == rs;
    assert RecordsTokens([r] + rs) == RecordTokens(r) + RecordsTokens(rs);
    Assoc([Int32(|rs| + 1)], RecordTokens(r), RecordsTokens(rs));
  }

  lemma Assoc<T>(a: seq<T>, b: seq<T>, c: seq<T>)
    ensures a + (b + c) == a + b + c
  {
  }

  lemma Regroup<T>(o: seq<T>, a: seq<T>, b: seq<T>, c: seq<T>)
    ensures o + a + b + c == o + (a + b + c)
  {
  }

  /** The joint loop of the skeleton section. */
  method WriteJoints(file: Stream<Token>, host: Host, cursor: int, skeleton: seq<Joint>)
    modifies file
    ensures file.items == old(file.items) + RecordsTokens(JointRecords(host, cursor, skeleton))
  {
    ghost var records := JointRecords(host, cursor, skeleton);
    for jnt := 0 to |skeleton|
      invariant file.items == old(file.items) + RecordsTokens(records[..jnt])
    {
      ghost var before := file.items;
      WriteJoint(file, host, cursor, skeleton[jnt]);
      RecordsTokensStep(records, jnt);
      Grows(old(file.items), RecordsTokens(records[..jnt]), before, RecordTokens(records[jnt]),
            RecordsTokens(records[..jnt + 1]), file.items);
    }
    assert records[..|skeleton|] == records;
  }

  lemma RecordsTokensStep(records: seq<SkeletonRecord>, j: int)
    requires 0 <= j < |records|
    ensures RecordsTokens(records[..j + 1]) == RecordsTokens(records[..j]) + RecordTokens(records[j])
  {
    assert records[..j + 1] == records[..j] + [records[j]];
    RecordsTokensAppend(records[..j], [records[j]]);
    assert RecordsTokens([records[j]]) == RecordTokens(records[j]) + RecordsTokens([]);
  }

  /**
   * The binary branch: counts, vertex records and indices; for an animated
   * mesh the cursor moves to the animation start and the skeleton follows,
   * the Root first.
   */
  method WriteBinary(host: Host, cursor: int, finalVertices: seq<Vertex>, indices: seq<int>,
                     skeleton: seq<Joint>, root: Root, meshType: MeshType)
    returns (tokens: seq<Token>, cursorOut: int)
    ensures cursorOut == if meshType == Animated then host.startTime else cursor
    ensures tokens == MeshFileTokens(finalVertices, indices, meshType,
                                     SkeletonRecords(host, cursorOut, root, skeleton))
  {
    cursorOut := cursor;
    var file := new Stream<Token>();
    var vCount := |finalVertices|;
    var stride := 11;
    if meshType == Animated {
      stride := 19;
    }
    file.Write(Int32(vCount));
    file.Write(Int32(stride));
    WriteVertices(file, finalVertices, meshType);
    WriteIndices(file, indices);
    if meshType == Animated {
      cursorOut := host.startTime;
      WriteSkeleton(file, host, cursorOut, root, skeleton);
    }
    tokens := file.items;
    MeshRegroup(Int32(vCount), Int32(stride), VerticesTokens(finalVertices, meshType), Int32(|indices|),
                Ints(indices), SkeletonTokens(meshType, SkeletonRecords(host, cursorOut, root, skeleton)));
  }

  lemma MeshRegroup<T>(v: T, s: T, vt: seq<T>, n: T, it: seq<T>, sk: seq<T>)
    ensures [] + [v] + [s] + vt + [n] + it + sk == [v, s] + vt + [n] + it + sk
  {
  }

  // ---------------------------------------------------------------------
  // The text branch
  // ---------------------------------------------------------------------

  /** Each piece followed by `", "`. */
  function Separated(ps: seq<Piece>): (r: seq<Piece>)
    ensures |r| == 2 * |ps|
  {
    if ps == [] then [] else [ps[0], Lit(", ")] + Separated(ps[1..])
  }

  lemma {:induction false} SeparatedAt(ps: seq<Piece>, k: int)
    requires 0 <= k < |ps|
    ensures Separated(ps)[2 * k] == ps[k] && Separated(ps)[2 * k + 1] == Lit(", ")
    decreases k
  {
    if k > 0 {
      SeparatedAt(ps[1..], k - 1);
    }
  }

  function RealTexts(xs: seq<real>): (ps: seq<Piece>)
    ensures |ps| == |xs| && forall k :: 0 <= k < |xs| ==> ps[k] == RealText(xs[k])
  {
    seq(|xs|, k requires 0 <= k < |xs| => RealText(xs[k]))
  }

  /**
   * One vertex line: the eleven values, each followed by `", "`; a static
   * mesh ends the line there, an animated one writes the shifted joint IDs
   * and the weights, the last weight followed by `", \n"`.
   */
  function VertexText(v: Vertex, meshType: MeshType): seq<Piece> {
    Separated(RealTexts(GeometryValues(v)))
      + if meshType == Animated then
          Separated([IntText(v.jointID[0] + 1), IntText(v.jointID[1] + 1),
                     IntText(v.jointID[2] + 1), IntText(v.jointID[3] + 1)])
          + Separated(RealTexts(v.weight[..3])) + [RealText(v.weight[3]), Lit(", \n")]
        else [Lit("\n")]
  }

  /**
   * A vertex line holds 23 pieces for a static mesh and 38 for an animated
   * one, and opens with the eleven values of position, colour, normal, u
   * and v, each followed by `", "`.
   */
  lemma VertexTextShape(v: Vertex, meshType: MeshType, k: int)
    requires 0 <= k < 11
    ensures |VertexText(v, meshType)| == if meshType == Animated then 38 else 23
    ensures VertexText(v, meshType)[2 * k] == RealText(GeometryValues(v)[k])
    ensures VertexText(v, meshType)[2 * k + 1] == Lit(", ")
  {
    SeparatedAt(RealTexts(GeometryValues(v)), k);
  }

  function VerticesText(vs: seq<Vertex>, meshType: MeshType): seq<Piece> {
    if vs == [] then [] else VerticesText(vs[..|vs| - 1], meshType) + VertexText(vs[|vs| - 1], meshType)
  }

  /**
   * The index list: each index followed by `", "`, and a line break after
   * every third (`nLine` runs 0, 1, 2, 0, ...).
   */
  function IndexText(indices: seq<int>): seq<Piece> {
    if indices == [] then []
    else
      var n := |indices| - 1;
      IndexText(indices[..n]) + [IntText(indices[n]), Lit(", ")] + if n % 3 == 2 then [Lit("\n")] else []
  }

  /** The text file, up to the skeleton section. */
  function TextFile(finalVertices: seq<Vertex>, indices: seq<int>, meshType: MeshType): seq<Piece> {
    [IntText(|finalVertices|), Lit("\n"), IntText(Stride(meshType)), Lit("\n")]
      + VerticesText(finalVertices, meshType)
      + [IntText(|indices|), Lit(", \n")]
      + IndexText(indices)
  }

  method WriteVertexText(file: Stream<Piece>, v: Vertex, meshType: MeshType)
    modifies file
    ensures file.items == old(file.items) + VertexText(v, meshType)
  {
    file.WriteAll(Separated(RealTexts(GeometryValues(v))));
    if meshType == Animated {
      file.WriteAll(Separated([IntText(v.jointID[0] + 1), IntText(v.jointID[1] + 1),
                               IntText(v.jointID[2] + 1), IntText(v.jointID[3] + 1)]));
      file.WriteAll(Separated(RealTexts(v.weight[..3])));
      file.Write(RealText(v.weight[3]));
      file.Write(Lit(", \n"));
    } else {
      file.Write(Lit("\n"));
    }
  }

  method WriteVerticesText(file: Stream<Piece>, finalVertices: seq<Vertex>, meshType: MeshType)
    modifies file
    ensures file.items == old(file.items) + VerticesText(finalVertices, meshType)
  {
    for i := 0 to |finalVertices|
      invariant file.items == old(file.items) + VerticesText(finalVertices[..i], meshType)
    {
      ghost var before := file.items;
      WriteVertexText(file, finalVertices[i], meshType);
      VerticesTextStep(finalVertices, i, meshType);
      Grows(old(file.items), VerticesText(finalVertices[..i], meshType), before,
            VertexText(finalVertices[i], meshType), VerticesText(finalVertices[..i + 1], meshType), file.items);
    }
    assert finalVertices[..|finalVertices|] == finalVertices;
  }

  lemma VerticesTextStep(vs: seq<Vertex>, i: int, meshType: MeshType)
    requires 0 <= i < |vs|
    ensures VerticesText(vs[..i + 1], meshType) == VerticesText(vs[..i], meshType) + VertexText(vs[i], meshType)
  {
    assert vs[..i + 1][..i] == vs[..i];
  }

  /** The index loop with its line counter `nLine`. */
  method WriteIndexText(file: Stream<Piece>, indices: seq<int>)
    modifies file
    ensures file.items == old(file.items) + IndexText(indices)
  {
    var nLine := -1;
    for i := 0 to |indices|
      invariant nLine == if i == 0 then -1 else (i - 1) % 3
      invariant file.items == old(file.items) + IndexText(indices[..i])
    {
      ghost var before := file.items;
      file.Write(IntText(indices[i]));
      file.Write(Lit(", "));
      nLine := (nLine + 1) % 3;
      assert nLine == i % 3;
      ghost var tail: seq<Piece> := [];
      if nLine == 2 {
        file.Write(Lit("\n"));
        tail := [Lit("\n")];
      }
      Pair(before, IntText(indices[i]), Lit(", "), tail);
      IndexTextStep(indices, i);
      Grows(old(file.items), IndexText(indices[..i]), before, [IntText(indices[i]), Lit(", ")] + tail,
            IndexText(indices[..i + 1]), file.items);
    }
    assert indices[..|indices|] == indices;
  }

  lemma IndexTextStep(indices: seq<int>, i: int)
    requires 0 <= i < |indices|
    ensures IndexText(indices[..i + 1])
      == IndexText(indices[..i]) + ([IntText(indices[i]), Lit(", ")] + if i % 3 == 2 then [Lit("\n")] else [])
  {
    assert indices[..i + 1][..i] == indices[..i];
    Assoc(IndexText(indices[..i]), [IntText(indices[i]), Lit(", ")], if i % 3 == 2 then [Lit("\n")] else []);
  }

  /** Each index takes two pieces, and every third one a line break. */
  lemma {:induction false} IndexTextSize(indices: seq<int>)
    ensures |IndexText(indices)| == 2 * |indices| + |indices| / 3
    decreases |indices|
  {
    if indices != [] {
      IndexTextSize(indices[..|indices| - 1]);
    }
  }

  /** The text of a prefix of the indices begins the text of all of them. */
  lemma {:induction false} IndexTextPrefix(indices: seq<int>, j: int)
    requires 0 <= j <= |indices|
    ensures IndexText(indices[..j]) <= IndexText(indices)
    decreases |indices| - j
  {
    if j < |indices| {
      IndexTextPrefix(indices, j + 1);
      IndexTextStep(indices, j);
    } else {
      assert indices[..j] == indices;
    }
  }

  /**
   * Index `i` of the buffer stands at piece `2 * i + i / 3` of the index
   * list, followed by `", "`, and by a line break when it closes a
   * triangle (`i % 3 == 2`).
   */
  lemma IndexEntryAt(indices: seq<int>, i: int)
    requires 0 <= i < |indices|
    ensures var t := IndexText(indices);
      var at := 2 * i + i / 3;
      at + 1 < |t| && t[at] == IntText(indices[i]) && t[at + 1] == Lit(", ")
      && (i % 3 == 2 ==> at + 2 < |t| && t[at + 2] == Lit("\n"))
  {
    IndexTextPrefix(indices, i + 1);
    IndexTextStep(indices, i);
    IndexTextSize(indices[..i]);
    var before := IndexText(indices[..i]);
    var entry := [IntText(indices[i]), Lit(", ")] + if i % 3 == 2 then [Lit("\n")] else [];
    assert IndexText(indices[..i + 1]) == before + entry;
    assert |before| == 2 * i + i / 3;
    assert (before + entry)[|before|] == IntText(indices[i]);
    assert (before + entry)[|before| + 1] == Lit(", ");
  }

  lemma Pair<T>(before: seq<T>, a: T, b: T, tail: seq<T>)
    ensures before + [a] + [b] + tail == before + ([a, b] + tail)
  {
  }

  /** The text branch: the cursor moves to the animation start for an animated mesh. */
  method WriteText(host: Host, cursor: int, finalVertices: seq<Vertex>, indices: seq<int>, meshType: MeshType)
    returns (text: seq<Piece>, cursorOut: int)
    ensures cursorOut == if meshType == Animated then host.startTime else cursor
    ensures text == TextFile(finalVertices, indices, meshType)
  {
    cursorOut := cursor;
    var stride := 11;
    if meshType == Animated {
      stride := 19;
    }
    var file := new Stream<Piece>();
    file.Write(IntText(|finalVertices|));
    file.Write(Lit("\n"));
    file.Write(IntText(stride));
    file.Write(Lit("\n"));
    WriteVerticesText(file, finalVertices, meshType);
    file.Write(IntText(|indices|));
    file.Write(Lit(", \n"));
    WriteIndexText(file, indices);
    if meshType == Animated {
      cursorOut := host.startTime;
    }
    text := file.items;
    TextRegroup(IntText(|finalVertices|), Lit("\n"), IntText(stride), VerticesText(finalVertices, meshType),
                IntText(|indices|), Lit(", \n"), IndexText(indices));
  }

  lemma TextRegroup<T>(a: T, b: T, c: T, vt: seq<T>, e: T, f: T, it: seq<T>)
    ensures [] + [a] + [b] + [c] + [b] + vt + [e] + [f] + it == [a, b, c, b] + vt + [e, f] + it
  {
  }

  /**
   * `WriteFile`: the binary layout when the format is exactly "Binary",
   * the text layout otherwise.
   */
  method WriteFile(host: Host, cursor: int, finalVertices: seq<Vertex>, indices: seq<int>,
                   skeleton: seq<Joint>, root: Root, format: string, meshType: MeshType)
    returns (file: File<Piece>, cursorOut: int)
    ensures cursorOut == if meshType == Animated then host.startTime else cursor
    ensures file == FileContents(host, cursor, finalVertices, indices, skeleton, root, format, meshType)
  {
    if format == "Binary" {
      var tokens;
      tokens, cursorOut := WriteBinary(host, cursor, finalVertices, indices, skeleton, root, meshType);
      file := Binary(tokens);
    } else {
      var text;
      text, cursorOut := WriteText(host, cursor, finalVertices, indices, meshType);
      file := Ascii(text);
    }
  }

  /** What `WriteFile` leaves in the file. */
  function FileContents(host: Host, cursor: int, finalVertices: seq<Vertex>, indices: seq<int>,
                        skeleton: seq<Joint>, root: Root, format: string, meshType: MeshType): File<Piece> {
    if format == "Binary" then
      var at := if meshType == Animated then host.startTime else cursor;
      Binary(MeshFileTokens(finalVertices, indices, meshType, SkeletonRecords(host, at, root, skeleton)))
    else Ascii(TextFile(finalVertices, indices, meshType))
  }
}
