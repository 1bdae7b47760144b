# Maya mesh and animation exporter: a Dafny model

This project models the core of a Maya plug-in that exports a selected,
skinned mesh to a mesh file (`.mof`) and its skeleton animation to an
animation file (`.maf`). It covers the following stages:

- **The corner loop of `MOF_Generator::ExportMesh`.** One vertex is built
  per triangle corner. Vertices can be de-duplicated through an
  `std::unordered_map<Vertex, int>`, which yields the vertex array and the
  index buffer.
- **The skin-weight copy.** Joint IDs and weights are copied onto vertices
  at a matching position.
- **Per-point weight slots.** `Skinner::FindMeshWeightsAndInfluences`
  builds the weight and joint-ID slots of each point.
- **Skeleton reconstruction.** `MAF_Helper` rebuilds the skeleton from the
  flat influence list: parent IDs, children IDs and the Root's children.
- **Timeline sampling.** `MAF_Helper` samples every joint at frames
  0 .. end.
- **The binary mesh-file layout.** The text mesh writer is modelled up to
  its skeleton section.
- **The animation writer.** `MAF_Generator` writes the text animation
  file.
- **The vertex comparisons.** `Vertex::operator==`, `Vertex::Compare` and
  the field coverage of `std::hash<Vertex>`.
- **The frame-rate table** of `Utilities.h`.

The model has one Dafny module per source file:

| module | source |
|---|---|
| `Types` | `Types.h` |
| `Utilities` | `Utilities.h` |
| `Skinner` | `Skinner.cpp` |
| `MafHelper` | `MAF_Helper.cpp` |
| `MafGenerator` | `MAF_Generator.cpp` |

`MOF_Generator.cpp` is split over four modules:

- `MofVertices`: the corner loop, de-duplication and weight copy;
- `MofWriter`: the writers;
- `MofLayout`: the binary layout, with a reader that undoes it;
- `MofGenerator` ties them into `ExportMesh`.

Three support modules:

- `Scene`: the host queries, as the record `Host`;
- `Streams`: output streams and file contents;
- `Wrappers`: `Option`.

How the C++ maps onto Dafny:

- **State updated in place becomes methods with loops.** The loops update
  vectors, maps and counters. Each method is proved against a function
  that states the result: `RecordAll`, `WithParentIDs`, `WithChildrenIDs`,
  `WithSamples`, `MeshFileTokens`, `AnimationText`.
- **The properties the source relies on are lemmas about those
  functions.**
- **A stream is a `Stream<T>` object** whose writes append to its `items`.
- **A binary file is a sequence of 4-byte tokens and name bytes.** A text
  file is the sequence of pieces its `<<` operators write.
- **Maya queries are inputs.** Scene nodes are opaque handles, and their
  names, parents, children and transforms are functions of a `Host`.
- **The playback cursor (`MAnimControl` current time)** is threaded
  through as an explicit input and output.
- **The lookup of `hashedVertices` is modelled as the first stored key
  that answers it.** A stored key answers when its hash code, a function of
  the eleven hashed fields, is equal to the looked-up vertex's, and
  `operator==` holds.

## Model

| member | source | states |
|---|---|---|
| Types.Compare | src/Types.h:87-93 | `Compare` tests positions only: it is symmetric and accepts equal positions |
| Types.Equal | src/Types.h:95-104 | `operator==` implies `Compare` in both argument orders, holds of vertices with the same hash input, and is decided by the eleven hashed values alone, symmetrically |
| Types.EqualIsReflexiveAndSymmetric | src/Types.h:95-104 | `operator==` holds of every vertex with itself, and it is symmetric |
| Types.EqualImpliesCompare | src/Types.h:87-104 | `operator==` implies `Compare`: the position test is its first conjunct |
| Types.HashCoversEqualityFields | src/Types.h:113-137 | two vertices have the same hash input iff they agree on position, colour, normal, u and v; equal inputs imply `==`; joint IDs and weights never enter the hash |
| Types.HashVertex | src/Types.h:113-138 | the seed loop computes the fold of `customHash` over the eleven values in source order, from seed 0, with 64-bit wrap-around |
| Types.HashIgnoresSlots | src/Types.h:113-138 | vertices that agree on the hashed fields get the same hash code, whatever their slots hold |
| Types.EqualReadsOnlyHashedFields | src/Types.h:95-104 | `==` depends only on the fields the hash reads |
| Utilities.Status | src/Utilities.h:47-53 | `Status` returns its status argument unchanged |
| Utilities.GetFrameRate | src/Utilities.h:56-123 | the unit-to-fps table; every rate it returns is strictly positive |
| Utilities.NamedFrameRates | src/Utilities.h:72-86 | film 24, PAL 25, NTSC 30, NTSC field 60, games 15, and both 29.97 variants give 29.97 |
| Utilities.UnlistedFrameRate | src/Utilities.h:119 | every unit the table does not list gives 30 |
| Skinner.SlotWrites | src/Skinner.cpp:89-101 | as written, the slot loop writes slot k for the k-th weight above 1e-6, in increasing influence order; the jointID it stores is the influence index |
| Skinner.SlotWritesComplete | src/Skinner.cpp:89-101 | the loop makes exactly one write per weight above the threshold, and every such influence gets one |
| Skinner.FiveInfluencesOverflowSlots | src/Skinner.cpp:89-97 | as written, five weights above the threshold write slot 4, past the four-slot arrays |
| Skinner.PointVertex | src/Skinner.cpp:69-101 | a point's vertex is a value-initialised vertex at the point's position; its slots hold the first four writes, in order, with the bound check added |
| Skinner.FilledSlotsCount | src/Skinner.cpp:69-101 | filled slots number min(4, count above threshold), hold weights above the threshold and increasing influence indices; unfilled slots stay jointID 0 and weight 0, not -1 |
| Skinner.PointsVertices | src/Skinner.cpp:67-104 | one vertex per point, in iteration order, at the point's position |
| Skinner.AppendPoints | src/Skinner.cpp:67-104 | the point loop appends one vertex per point; the status is the last point's (failure when it has no influences) |
| Skinner.FindMeshWeightsAndInfluences | src/Skinner.cpp:29-108 | no influences: failure, nothing appended; otherwise every geometry's points are appended in order, stopping at a geometry whose path fails |
| Skinner.CollectedLength | src/Skinner.cpp:48-105 | with every path available, the output has one entry per point of every output geometry |
| Skinner.IsSkinClusterIncluded | src/Skinner.cpp:123-133 | true for an empty array, otherwise true iff the node is an element |
| Skinner.FoundInSuffix | src/Skinner.cpp:127-132 | the early-return search from position i finds the node iff it occurs at or after i |
| MafHelper.LastIndexOf | src/MAF_Helper.cpp:97-104 | the last position holding the name, or -1 iff the name is absent |
| MafHelper.FirstIndexOf | src/MAF_Helper.cpp:128-135 | the first position holding the value, or -1 iff it is absent |
| MafHelper.MatchChildren | src/MAF_Helper.cpp:123-136 | at most one ID per native child, each in [0, n) |
| MafHelper.MatchChildrenMembers | src/MAF_Helper.cpp:123-136 | an index is among the matched IDs iff some native child's name first occurs there |
| MafHelper.AppendJoints | src/MAF_Helper.cpp:58-84 | one joint per influence, in order, after the old ones: influenceID i, the influence's name and handle, its native children in native order, no children IDs, no frames |
| MafHelper.GetJoints | src/MAF_Helper.cpp:52-87 | returns success; appends the joints above; the Root object becomes the parent of influence 0, and is unchanged when there are no influences |
| MafHelper.ScanForParent | src/MAF_Helper.cpp:95-104 | the inner loop sets the found flag iff some joint bears the parent's name, and leaves the last such position as parent ID |
| MafHelper.GetJointsParentID | src/MAF_Helper.cpp:90-116 | returns success; each joint's parent ID is set by the rule below, the flag being reset per joint |
| MafHelper.ParentIDRule | src/MAF_Helper.cpp:93-113 | only the parent ID changes; it lies in [-1, n); it is -1 iff no joint has the native parent's name; otherwise it is the last joint with that name |
| MafHelper.AddChildrenIDs | src/MAF_Helper.cpp:123-136 | for one joint, each native child in order appends the first same-name position; unmatched children are dropped |
| MafHelper.GetJointsChildrenIDs | src/MAF_Helper.cpp:119-138 | every joint's children IDs are extended by its matched children, without clearing the old ones |
| MafHelper.ChildrenIDsRule | src/MAF_Helper.cpp:119-138 | only the children IDs change; the old IDs stay in front; appended IDs lie in [0, n); x is appended iff some native child's name first occurs at x |
| MafHelper.RootWithChildren | src/MAF_Helper.cpp:141-160 | the Root keeps its object and old IDs; every appended ID lies in [0, n) |
| MafHelper.GetRootChildren | src/MAF_Helper.cpp:141-160 | the Root's native children go through the same first-match, order-preserving rule |
| MafHelper.FrameCount | src/MAF_Helper.cpp:170-172 | the sampling loop visits endTime + 1 frames, none iff the end time is negative |
| MafHelper.Samples | src/MAF_Helper.cpp:172-186 | n transforms, entry f being the node's transform at time f |
| MafHelper.SampleFrame | src/MAF_Helper.cpp:177-185 | at one frame, every joint in list order gets one more transform, read at the cursor; the status is the last joint's |
| MafHelper.GetJointTransformationsOvertTheTimeline | src/MAF_Helper.cpp:164-189 | frames 0 .. endTime in ascending order; every joint grows by exactly that many entries; the cursor is left at the last frame; the status is the last query's |
| MafHelper.SamplesRule | src/MAF_Helper.cpp:172-186 | only the per-frame list changes; it grows by exactly `frames` entries, and entry n + f is frame f |
| MafHelper.GetAnimationData | src/MAF_Helper.cpp:14-49 | the hierarchy case builds only joints and Root; the timeline case only samples; both builds and then samples; the status is that of the last step returning one |
| MafHelper.UniqueNameIndex | src/MAF_Helper.cpp:90-138 | with unique names and distinct influences, both the first and the last name match find the node's own position |
| MafHelper.MatchedChildIsChild | src/MAF_Helper.cpp:123-136 | with unique names, a child list matches exactly the positions of the influences it holds |
| MafHelper.HierarchyJointAt | src/MAF_Helper.cpp:27-29 | joint k of the built hierarchy has the last-name-match parent ID and the first-name-match children IDs |
| MafHelper.HierarchyRootIs | src/MAF_Helper.cpp:27-30 | the Root is the first influence's parent, and its children IDs are its matched native children |
| MafHelper.ParentChildDuality | src/MAF_Helper.cpp:90-138 | on a scene with unique names and consistent links, k is among joint j's children IDs iff joint k's parent ID is j |
| MafHelper.RootChildrenHaveNoParentJoint | src/MAF_Helper.cpp:90-160 | on such a scene, the Root's children IDs are the influences whose native parent is the Root object; when that object is not an influence, they all get parent ID -1 |
| MafHelper.DuplicateNamesSplitParentAndChild | src/MAF_Helper.cpp:90-138 | with a repeated name, the parent search picks the later joint and the child search the earlier one, so the two directions disagree |
| MofVertices.Corner | src/MOF_Generator.cpp:79-121 | a corner vertex lies at the mesh point, with no joints and no weights; when the ID is not a vertex of the polygon it is white with zero normal and zero UV |
| MofVertices.CornerFields | src/MOF_Generator.cpp:79-121 | a corner has the mesh point and empty slots; it is white with zero normal and UV when the ID is not in the polygon; its UV is zero or an entry of the UV array; it is white when the mesh has no colours |
| MofVertices.LocalIndex | src/MOF_Generator.cpp:87-96 | the local index is the first polygon position holding the ID, or -1 |
| MofVertices.BuildCorner | src/MOF_Generator.cpp:76-121 | the loop body up to de-duplication builds the corner vertex |
| MofVertices.FindEntry | src/MOF_Generator.cpp:125-136 | the lookup finds the first stored key answering the vertex, or -1 iff none does |
| MofVertices.Record | src/MOF_Generator.cpp:123-149 | one corner adds exactly one index; de-duplicating, it either stores a vertex or counts a duplicate, never both; not de-duplicating, the corner is appended and indexed by the old `counter` |
| MofVertices.FindAfterInsert | src/MOF_Generator.cpp:125-136 | inserting a key keeps every earlier answer, and adds answers only for the new key |
| MofVertices.RecordNew | src/MOF_Generator.cpp:125-136 | de-duplicating, an unanswered corner is stored under `counter`, appended, and indexed by `counter` |
| MofVertices.RecordFound | src/MOF_Generator.cpp:131-136 | de-duplicating, an answered corner counts as duplicated and takes the stored key's value |
| MofVertices.CollectFace | src/MOF_Generator.cpp:73-150 | the triangle loop of one polygon puts each corner through the loop body, in order |
| MofVertices.CollectVertices | src/MOF_Generator.cpp:60-151 | the polygon loop puts every corner of every polygon through the loop body, in order |
| MofVertices.DedupKeepsValid | src/MOF_Generator.cpp:123-137 | de-duplicating, the loop keeps these invariants: `counter` is the number of stored vertices; key k is vertex k under value k; `counter + duplicatedVertices` is the corners processed; one index per corner, each below `counter`, equal to the lookup's answer; no stored vertex answers another |
| MofVertices.PlainKeepsValid | src/MOF_Generator.cpp:138-149 | not de-duplicating: the vertices are the corners; the indices are 0, 1, ...; `duplicatedVertices` counts the distinct keys stored |
| MofVertices.ModesAgree | src/MOF_Generator.cpp:123-149 | both modes fill the map alike; the de-duplicated vertex count equals a plain export's `duplicatedVertices`, and the de-duplicated vertices are its keys |
| MofVertices.IndexBufferReproducesCorners | src/MOF_Generator.cpp:123-149 | every corner's index is in range; de-duplicating, it names a vertex with equal hash code and `==` the corner; not de-duplicating, the corner itself |
| MofVertices.ExactDuplicatesShareIndex | src/MOF_Generator.cpp:123-137 | corners with identical hashed fields share one index |
| MofVertices.SeedFoldDedup | src/MOF_Generator.cpp:123-137 | with the map hashing through the seed fold of `std::hash<Vertex>`, the de-duplication keeps its invariants and identical corners share one index |
| MofVertices.LastCompareMatch | src/MOF_Generator.cpp:161-172 | the last weighted vertex `Compare` accepts, or -1 iff none does |
| MofVertices.Merged | src/MOF_Generator.cpp:159-173 | the weight copy keeps every hashed field; a vertex with no `Compare` match is unchanged |
| MofVertices.CopySlots | src/MOF_Generator.cpp:166-170 | the copy loop replaces all four joint IDs and weights, and nothing else |
| MofVertices.MergeVertex | src/MOF_Generator.cpp:161-172 | the inner loop leaves the slots of the last match |
| MofVertices.MergeWeights | src/MOF_Generator.cpp:159-173 | every vertex, in place, gets the slots of its last match |
| MofVertices.MergedKeepsGeometry | src/MOF_Generator.cpp:159-173 | position, colour, normal and UV are never changed; with a match the slots are the last match's; without one the vertex is unchanged |
| MofVertices.MergeKeepsDedup | src/MOF_Generator.cpp:123-173 | after the weight copy, every corner's vertex still answers its lookup, and the stored vertices still stay apart |
| MofLayout.RecordTokens | src/MOF_Generator.cpp:401-526 | a skeleton record is 17 values, the name bytes and one value per child; it opens with the name length and bytes, then own ID, parent ID and child count |
| MofLayout.MeshFileTokens | src/MOF_Generator.cpp:202-285 | the file opens with the vertex count and the stride; a static file ends with the index count and the indices |
| MofLayout.VertexRecordSize | src/MOF_Generator.cpp:204-259 | a vertex record is `stride` 4-byte values: 11 static, 19 animated |
| MofLayout.VerticesSize | src/MOF_Generator.cpp:213-260 | the vertex section is 4 * stride * vCount bytes |
| MofLayout.RecordSizeIs | src/MOF_Generator.cpp:401-463 | a skeleton record is its name's bytes plus 4 bytes for each of 17 values and each child |
| MofLayout.MeshFileSize | src/MOF_Generator.cpp:202-285 | the file size is three counts, stride values per vertex and one per index; an animated file adds the skeleton count and records |
| MofLayout.ReadBytesOfBytes | src/MOF_Generator.cpp:410-412 | the name bytes read back as the name |
| MofLayout.ReadVertexOfVertex | src/MOF_Generator.cpp:215-259 | a vertex record reads back as the vertex: all fields when animated, slots defaulted when static |
| MofLayout.ReadVerticesOfVertices | src/MOF_Generator.cpp:213-260 | the vertex section reads back as the vertices, in order |
| MofLayout.ReadRecordOfRecord | src/MOF_Generator.cpp:401-463 | a skeleton record reads back as name, own ID, parent ID, child IDs and the 13 transform values |
| MofLayout.ReadRecordsOfRecords | src/MOF_Generator.cpp:277-283 | consecutive records read back in order |
| MofLayout.DecodeIndicesOf | src/MOF_Generator.cpp:262-284 | the index count and indices read back, followed by the skeleton when animated |
| MofLayout.DecodeSkeletonOf | src/MOF_Generator.cpp:269-284 | the skeleton section reads back as its records |
| MofLayout.MeshFileRoundTrip | src/MOF_Generator.cpp:202-285 | reading the binary file back yields the stride's mesh type, the written vertices, the indices and, when animated, the records in order |
| MofWriter.Shifted | src/MOF_Generator.cpp:426-430 | every child ID is written plus one |
| MofWriter.JointRecords | src/MOF_Generator.cpp:279-283 | one record per joint, in skeleton order |
| MofWriter.WriteRecord | src/MOF_Generator.cpp:408-462 | name length, name bytes, two IDs, child count, children, 13 transform floats |
| MofWriter.WriteJoint | src/MOF_Generator.cpp:401-463 | a joint's record: influenceID + 1, parentID + 1, children + 1, and the transform at the cursor |
| MofWriter.WriteRoot | src/MOF_Generator.cpp:466-526 | the Root's record: its host name, IDs 0 and 0, children + 1, and its transform at the cursor |
| MofWriter.WriteVertex | src/MOF_Generator.cpp:215-259 | 11 floats; animated adds jointID + 1 as floats and the four weights |
| MofWriter.WriteVertices | src/MOF_Generator.cpp:213-260 | the vertex records, in order |
| MofWriter.WriteIndices | src/MOF_Generator.cpp:262-267 | the index count, then every index |
| MofWriter.WriteJoints | src/MOF_Generator.cpp:279-283 | the joint records in skeleton order |
| MofWriter.WriteSkeleton | src/MOF_Generator.cpp:269-284 | the skeleton count (joints + 1), the Root's record, then the joints' |
| MofWriter.WriteBinary | src/MOF_Generator.cpp:202-286 | the tokens are the layout of `MeshFileTokens`; an animated mesh moves the cursor to the animation start before the skeleton |
| MofWriter.VertexTextShape | src/MOF_Generator.cpp:297-332 | a vertex line is 23 pieces (static) or 38 (animated), opening with the 11 values each followed by ", " |
| MofWriter.WriteVertexText | src/MOF_Generator.cpp:299-331 | one vertex line |
| MofWriter.WriteVerticesText | src/MOF_Generator.cpp:297-332 | the vertex lines, in order |
| MofWriter.WriteIndexText | src/MOF_Generator.cpp:336-345 | the index list with its `nLine` counter |
| MofWriter.IndexTextSize | src/MOF_Generator.cpp:336-345 | the index list has 2 pieces per index, plus one line break per full triangle |
| MofWriter.IndexEntryAt | src/MOF_Generator.cpp:336-345 | index i stands at piece 2i + i/3, followed by ", ", and by a line break when i % 3 == 2 |
| MofWriter.WriteText | src/MOF_Generator.cpp:287-354 | the text branch up to the skeleton section; an animated mesh moves the cursor to the animation start |
| MofWriter.WriteFile | src/MOF_Generator.cpp:197-398 | the binary layout iff the format is exactly "Binary", the text layout otherwise |
| MofGenerator.ExportMesh | src/MOF_Generator.cpp:4-195 | status flow: a selection of other than one object fails; a failing iterator, mesh or polygon iterator returns its status with no file; the weight query's status is ignored; otherwise success with the file of the merged vertices, indices and hierarchy; Animated iff weights were found |
| MofGenerator.ExportedCornersReachable | src/MOF_Generator.cpp:123-173 | every corner's index lies in the written vertex array; de-duplicating, it names a vertex answering the corner, and no two vertices answer each other; otherwise, the corner with its weights copied in |
| MofGenerator.WrittenMatches | src/MOF_Generator.cpp:244-259 | dropping the slots of a static record changes no lookup |
| MofGenerator.ExportedBinaryDecodes | src/MOF_Generator.cpp:180-185 | the exported binary file reads back as mesh type, written vertices, index buffer, and (animated) the Root's and joints' records at the animation start |
| MofGenerator.ExportedBinaryReproducesCorners | src/MOF_Generator.cpp:49-285 | end to end: the type read back is Animated iff weights were found; each corner's index read back is in range and names a vertex answering the corner (or, not de-duplicating, the corner itself) |
| MafGenerator.AnimationText | src/MAF_Generator.cpp:54-99 | the header's joint count counts the Root; its frame count is the first joint's stored frames minus one as a `size_t`; its frame rate is positive |
| MafGenerator.WrittenFrames | src/MAF_Generator.cpp:84 | the writer's loops visit end-time frames, or none when the end time is not positive |
| MafGenerator.FrameText | src/MAF_Generator.cpp:86-95 | a frame entry has a fixed number of pieces: head, position, rotation, scale, shear, close |
| MafGenerator.WriteFrame | src/MAF_Generator.cpp:88-95 | one frame entry |
| MafGenerator.WriteHeader | src/MAF_Generator.cpp:56-58 | the joint count counts the Root; the frame count is the first joint's stored frames minus one, as a `size_t`; then the frame rate |
| MafGenerator.WriteRootBlock | src/MAF_Generator.cpp:61-77 | the Root block repeats the Root's transform at the cursor once per written frame |
| MafGenerator.WriteJointBlock | src/MAF_Generator.cpp:82-98 | a joint block shows the name, the index, the raw parent ID and stored frames 0 .. n-1 |
| MafGenerator.WriteJoints | src/MAF_Generator.cpp:80-99 | one block per joint, in list order |
| MafGenerator.WriteFile | src/MAF_Generator.cpp:40-104 | always success; the binary format writes nothing; otherwise header, Root block, joint blocks |
| MafGenerator.ExportedJointAt | src/MAF_Generator.cpp:25 | exported joint k has influence k's name, its matched parent ID, and frames 0 .. endTime |
| MafGenerator.ExportedFramesStored | src/MAF_Generator.cpp:84-86 | every joint holds at least the frames the writer reads, so every read is in bounds |
| MafGenerator.ExportAnimation | src/MAF_Generator.cpp:7-37 | status flow: a selection of other than one object fails; a failing iterator returns its status; otherwise the status is the writer's success, overriding the gathering's, and the file is the export of the sampled hierarchy |
| MafGenerator.ExportedFrameCount | src/MAF_Generator.cpp:57 | for a non-negative end time, the header's frame count equals the entries per joint block (the last sampled frame is not written); a negative end time wraps to 2^64 - 1 |
| MafGenerator.ExportedFramesAreSamples | src/MAF_Generator.cpp:84-86 | the frames a joint block shows are the samples at times 0 .. n-1 |
| MafGenerator.FramesTextSize | src/MAF_Generator.cpp:84-96 | n frame entries take n times the entry size |
| MafGenerator.FrameEntryAt | src/MAF_Generator.cpp:84-96 | entry f sits at f times the entry size and shows frame f's transform labelled f |
| MafGenerator.JointsTextSize | src/MAF_Generator.cpp:80-99 | the joint section is one fixed-size block per joint |
| MafGenerator.JointBlockAt | src/MAF_Generator.cpp:80-99 | block j sits at j block sizes: joints are written in list order |
| MafGenerator.ExportedTextSplit | src/MAF_Generator.cpp:54-99 | the exported text is header and Root block, then the joint section |
| MafGenerator.ExportedJointBlock | src/MAF_Generator.cpp:80-99 | end to end: the block of joint k stands k block sizes into the joint section. It shows influence k's name, the index k, the unshifted parent ID from the name matching, and the transforms sampled at frames 0 .. n-1 |

## Left out

- Maya queries are inputs of the model, not modelled behaviour:
  - the selection list and the mesh iterator;
  - the polygon iterator, normals, UVs and colours;
  - `FindSkinCluster`, `getWeights` and `influenceObjects`;
  - joint names, parents and children;
  - `GetTransform`, `GetTransformInFrameX`, `animationStartTime` and `animationEndTime`;
  - `MTime::uiUnit`.
- `GetTransform` and `GetTransformInFrameX` are not modelled. The model
  reads a node's transform at a time from the `Host`, and their status as
  a separate query.
- `std::hash<double>` and `std::hash<float>` are a parameter: bit-level
  hashing of floats is not modelled. The map's hash code is an arbitrary
  function of the eleven hashed fields.
- The bucket order of `std::unordered_map` is not modelled. The model's
  lookup takes the first matching key in insertion order.
- MofVertices.Matches: a stored key answers a lookup only when its full
  hash code equals the looked-up vertex's, as in a map that caches hash
  codes. A map that compares keys sharing a bucket with `==` alone, whatever
  their codes, can also match keys with different codes. That depends on
  the standard library and the bucket count, and is not modelled.
- A single per-value hash `hashOf` stands for both `std::hash<double>` (the
  position) and `std::hash<float>` (the other eight values).
  `MofVertices.SeedFoldDedup` connects the seed fold to the
  de-duplication. The other de-duplication lemmas hold for any hash code.
- Types.IsEquivalent: `MPoint::isEquivalent` and
  `MFloatVector::isEquivalent` are Maya library calls whose definition is
  not part of this model. They are taken to be a strict bound of 1e-6 on
  every coordinate. This test decides both `operator==` (the
  de-duplication) and `Compare` (the weight copy).
- MofLayout.Bytes: a name is written as one byte per character. The
  source writes the `strlen` of the name's UTF-8 encoding and that many
  bytes. The model therefore does not cover multi-byte UTF-8 characters, or
  a NUL that ends `strlen` early. For a name with such characters,
  `RecordSizeIs` and `MeshFileSize` undercount the bytes. Maya node names
  are ASCII, for which the two agree.
- Floating point is not modelled:
  - floats and doubles are reals;
  - `(float)` narrowing, the float encoding of bytes and text number
    formatting are not modelled;
  - a written value is kept as the number it encodes, so `GetFrameRate`'s
    `23.976f` is the exact decimal.
- 32-bit `int` widths of counts and IDs are not modelled, except for the
  `size_t` wrap of the animation header's frame count and the hash seed.
- The alpha channel of `MColor` is not modelled.
- The end time is an integer. A fractional `MTime` end value is not
  modelled.
- The text mesh writer's skeleton section (src/MOF_Generator.cpp:347-394)
  is left out. It re-queries live host transforms rather than stored data.
  `WriteText` models the text file up to the index list.
- The Euler rotation is stored in `JointTransform` but never written, so
  no writer emits it.
- Logging is left out: `Print`, `MGlobal::display*` and the message of
  `Status`. So is timing (`std::chrono`).
- Opening and closing the `ofstream` is not modelled: a file is its final
  contents.
- `main.cpp` (the dialog and command registration) and the headers are not
  part of this model.
- MafGenerator.ExportAnimation: requires at least one influence once the
  selection checks pass. The frame count logged at
  src/MAF_Generator.cpp:32 reads the first joint even when the file is
  binary, so an empty skeleton is undefined behaviour.
- MafGenerator.WriteFile: in text format, requires a joint. It reads the
  first joint's frames (src/MAF_Generator.cpp:57) and the stored frames
  of every joint.

Where the exporter's design description and its code differ, the model
follows the code:

- Unfilled joint slots are value-initialised to 0, not -1.
- A vertex with no weight match keeps those zero slots.
- The Root is not sampled over the timeline.
- The map hashes raw float values, so `==` within the tolerance does not
  imply equal hash codes. In the model, a lookup compares full hash codes,
  so two vertices that are `==` but hash apart are both stored. Whether the
  C++ map also stores both depends on its standard library and its bucket
  count.

## Findings

| source | as written | input that shows it | evidently intended | confidence | as-written member | corrected member |
|---|---|---|---|---|---|---|
| src/Skinner.cpp:89-97 | each weight above 1e-6 takes the next slot `internalDWeightIdx`, with no bound against the four-element `jointID` and `weight` arrays | a point with five influences of weight 0.2: the fifth write goes to `jointID[4]` and `weight[4]` | at most four influences per vertex (the comment at src/Skinner.cpp:28): keep the first four above the threshold, in influence order | not executed | Skinner.FiveInfluencesOverflowSlots | Skinner.PointVertex |
