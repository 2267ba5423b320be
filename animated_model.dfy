/**
 * Loading a skinned model (src/animations/animated_model.cpp) and binding a
 * bone palette to it (Include/animations/animated_model.hpp).
 *
 * The loader numbers the skinning bones it meets in first-encounter order,
 * packs up to four (bone, weight) influences into each vertex, flattens the
 * face index lists and collects meshes in preorder. The model owns a default
 * palette of 100 identity matrices and a pointer to the palette it draws with,
 * which is either a private copy of the default or an animation's shared one.
 */
module AnimatedModels {
  import opened Wrappers
  import opened Maths
  import opened Scene

  /** The four influence slots of a vertex (glm::ivec4 / glm::vec4). */
  type BoneIds = s: seq<int> | |s| == 4 witness [0, 0, 0, 0]
  type BoneWeights = s: seq<real> | |s| == 4 witness [0.0, 0.0, 0.0, 0.0]

  const NoIds: BoneIds := [0, 0, 0, 0]
  const NoWeights: BoneWeights := [0.0, 0.0, 0.0, 0.0]

  /** AnimatedVertex. A weight of 0.0 marks a free slot. */
  datatype AnimatedVertex = AnimatedVertex(
    position: Vec3,
    normal: Vec3,
    texCoords: Vec2,
    inBoneIDs: BoneIds,
    inBoneWeights: BoneWeights)

  /** The data an AnimatedMesh is built from (its GL buffers are outside the model). */
  datatype MeshData = MeshData(vertices: seq<AnimatedVertex>, indices: seq<nat>)

  /** BoneInfo: the inverse-bind (offset) matrix of one numbered bone. */
  datatype BoneInfo = BoneInfo(offsetMatrix: Mat4)

  /** The bone table: the fields boneMapping and boneInfo taken together. */
  datatype BoneTable = BoneTable(mapping: map<string, int>, info: seq<BoneInfo>)

  // ---------------------------------------------------------------------------
  // Weight packing
  // ---------------------------------------------------------------------------

  /** `k` is the first free slot of `weights` (the scan addBoneData performs). */
  predicate FirstFree(weights: BoneWeights, k: int)
  {
    0 <= k < 4 && weights[k] == 0.0 && forall j :: 0 <= j < k ==> weights[j] != 0.0
  }

  /** The index of the first free slot at or after `i`, or 4 when there is none. */
  function FreeFrom(weights: BoneWeights, i: nat): (k: nat)
    requires i <= 4
    ensures i <= k <= 4
    ensures k < 4 ==> weights[k] == 0.0
    ensures forall j :: i <= j < k ==> weights[j] != 0.0
    decreases 4 - i
  {
    if i == 4 then 4 else if weights[i] == 0.0 then i else FreeFrom(weights, i + 1)
  }

  /** The vertex after recording one influence the way addBoneData does. */
  function Pack(v: AnimatedVertex, boneID: int, weight: real): AnimatedVertex
  {
    var k := FreeFrom(v.inBoneWeights, 0);
    if k < 4 then
      v.(inBoneIDs := v.inBoneIDs[k := boneID], inBoneWeights := v.inBoneWeights[k := weight])
    else
      v
  }

  /**
   * Packing writes (boneID, weight) into the first free slot and nothing else;
   * with all four slots taken the influence is dropped.
   */
  lemma PackFirstFree(v: AnimatedVertex, boneID: int, weight: real)
    ensures forall k :: FirstFree(v.inBoneWeights, k) ==>
      Pack(v, boneID, weight) ==
        v.(inBoneIDs := v.inBoneIDs[k := boneID], inBoneWeights := v.inBoneWeights[k := weight])
    ensures (forall j :: 0 <= j < 4 ==> v.inBoneWeights[j] != 0.0) ==> Pack(v, boneID, weight) == v
  {
    var k := FreeFrom(v.inBoneWeights, 0);
    forall k' | FirstFree(v.inBoneWeights, k')
      ensures k' == k
    {
    }
  }

  /** A vertex has room for one more influence exactly when some weight is 0.0. */
  lemma PackFillsOneSlot(v: AnimatedVertex, boneID: int, weight: real)
    requires weight != 0.0
    ensures (exists k :: 0 <= k < 4 && v.inBoneWeights[k] == 0.0) <==>
      |set k | 0 <= k < 4 && Pack(v, boneID, weight).inBoneWeights[k] == 0.0| ==
      |set k | 0 <= k < 4 && v.inBoneWeights[k] == 0.0| - 1
  {
    var before := set k | 0 <= k < 4 && v.inBoneWeights[k] == 0.0;
    var after := set k | 0 <= k < 4 && Pack(v, boneID, weight).inBoneWeights[k] == 0.0;
    var f := FreeFrom(v.inBoneWeights, 0);
    if f < 4 {
      assert after == before - {f};
    } else {
      assert after == before;
      assert forall k :: 0 <= k < 4 ==> v.inBoneWeights[k] != 0.0;
    }
  }

  /** The influences of one bone, recorded in order on the vertices they name. */
  function Weigh(vertices: seq<AnimatedVertex>, boneIndex: int, weights: seq<VertexWeight>): (r: seq<AnimatedVertex>)
    ensures |r| == |vertices|
    decreases |weights|
  {
    if weights == [] then vertices
    else
      var vs := Weigh(vertices, boneIndex, weights[..|weights| - 1]);
      var w := weights[|weights| - 1];
      if w.vertexId < |vs| then vs[w.vertexId := Pack(vs[w.vertexId], boneIndex, w.weight)] else vs
  }

  /** One more influence: Weigh over a longer prefix packs the next entry into the vertex it names. */
  lemma WeighStep(vertices: seq<AnimatedVertex>, boneIndex: int, weights: seq<VertexWeight>, j: int)
    requires 0 <= j < |weights|
    ensures
      var vs := Weigh(vertices, boneIndex, weights[..j]);
      var w := weights[j];
      Weigh(vertices, boneIndex, weights[..j + 1]) ==
        if w.vertexId < |vs| then vs[w.vertexId := Pack(vs[w.vertexId], boneIndex, w.weight)] else vs
  {
    assert weights[..j + 1][..j] == weights[..j];
  }

  /** A vertex that no influence names is left as it was. */
  lemma {:induction false} WeighUntouched(vertices: seq<AnimatedVertex>, boneIndex: int, weights: seq<VertexWeight>, k: int)
    requires 0 <= k < |vertices|
    requires forall j :: 0 <= j < |weights| ==> weights[j].vertexId != k
    ensures Weigh(vertices, boneIndex, weights)[k] == vertices[k]
    decreases |weights|
  {
    if weights != [] {
      WeighUntouched(vertices, boneIndex, weights[..|weights| - 1], k);
    }
  }

  // ---------------------------------------------------------------------------
  // Bone table
  // ---------------------------------------------------------------------------

  /**
   * The bone-table invariant: the mapping numbers its names 0..|info|-1, one
   * name per number, so there are as many names as offset matrices.
   */
  ghost predicate TableValid(t: BoneTable)
  {
    && (forall name :: name in t.mapping ==> 0 <= t.mapping[name] < |t.info|)
    && (forall a, b :: a in t.mapping && b in t.mapping && t.mapping[a] == t.mapping[b] ==> a == b)
    && (forall k :: 0 <= k < |t.info| ==> k in t.mapping.Values)
    && |t.mapping| == |t.info|
  }

  /** `t2` keeps every name of `t1` at its index and every offset matrix of `t1`. */
  ghost predicate Extends(t1: BoneTable, t2: BoneTable)
  {
    && (forall name :: name in t1.mapping ==> name in t2.mapping && t2.mapping[name] == t1.mapping[name])
    && |t1.info| <= |t2.info| && t2.info[..|t1.info|] == t1.info
  }

  /** Registering a bone: a new name gets the next index and appends its offset; a known name changes nothing. */
  function Register(t: BoneTable, name: string, offset: Mat4): (r: BoneTable)
  {
    if name in t.mapping then t
    else BoneTable(t.mapping[name := |t.info|], t.info + [BoneInfo(offset)])
  }

  /**
   * Registering keeps the table valid, never renumbers a name, and gives a
   * first-seen name the index |info| with its offset matrix appended.
   */
  lemma RegisterKeepsValid(t: BoneTable, name: string, offset: Mat4)
    requires TableValid(t)
    ensures TableValid(Register(t, name, offset))
    ensures Extends(t, Register(t, name, offset))
    ensures name in Register(t, name, offset).mapping
    ensures name !in t.mapping ==>
      Register(t, name, offset).mapping[name] == |t.info| &&
      Register(t, name, offset).info == t.info + [BoneInfo(offset)]
    ensures name in t.mapping ==> Register(t, name, offset) == t
  {
    if name !in t.mapping {
      var r := Register(t, name, offset);
      forall k | 0 <= k < |r.info|
        ensures k in r.mapping.Values
      {
        if k == |t.info| {
          assert r.mapping[name] == k;
        } else {
          assert k in t.mapping.Values;
          var n :| n in t.mapping && t.mapping[n] == k;
          assert r.mapping[n] == k;
        }
      }
      assert r.info[..|t.info|] == t.info;
    } else {
      assert t.info[..|t.info|] == t.info;
    }
  }

  /** The registration and weight packing so far: the bone table and the vertices. */
  datatype Loading = Loading(table: BoneTable, vertices: seq<AnimatedVertex>)

  /** One bone of a mesh: register it, then record its influences under its index. */
  function LoadBone(l: Loading, bone: MeshBone): Loading
  {
    var t := Register(l.table, bone.name, Transpose(bone.offsetMatrix));
    var index := if bone.name in t.mapping then t.mapping[bone.name] else 0;
    Loading(t, Weigh(l.vertices, index, bone.weights))
  }

  /** All bones of a mesh, in order. */
  function LoadAll(l: Loading, bones: seq<MeshBone>): (r: Loading)
    ensures |r.vertices| == |l.vertices|
    decreases |bones|
  {
    if bones == [] then l else LoadBone(LoadAll(l, bones[..|bones| - 1]), bones[|bones| - 1])
  }

  /** One more bone. */
  lemma LoadAllStep(l: Loading, bones: seq<MeshBone>, i: int)
    requires 0 <= i < |bones|
    ensures LoadAll(l, bones[..i + 1]) == LoadBone(LoadAll(l, bones[..i]), bones[i])
  {
    assert bones[..i + 1][..i] == bones[..i];
  }

  /** Extension is transitive. */
  lemma ExtendsTransitive(t1: BoneTable, t2: BoneTable, t3: BoneTable)
    requires Extends(t1, t2) && Extends(t2, t3)
    ensures Extends(t1, t3)
  {
    assert t3.info[..|t1.info|] == t3.info[..|t2.info|][..|t1.info|];
  }

  /** Loading bones keeps the table valid and never renumbers or drops a bone. */
  lemma {:induction false} LoadAllKeepsValid(l: Loading, bones: seq<MeshBone>)
    requires TableValid(l.table)
    ensures TableValid(LoadAll(l, bones).table)
    ensures Extends(l.table, LoadAll(l, bones).table)
    decreases |bones|
  {
    if bones != [] {
      var init := bones[..|bones| - 1];
      var last := bones[|bones| - 1];
      LoadAllKeepsValid(l, init);
      var mid := LoadAll(l, init);
      RegisterKeepsValid(mid.table, last.name, Transpose(last.offsetMatrix));
      ExtendsTransitive(l.table, mid.table, LoadAll(l, bones).table);
    } else {
      assert l.table.info[..|l.table.info|] == l.table.info;
    }
  }

  /** After loading, every bone of the mesh has a number. */
  lemma {:induction false} LoadAllRegisters(l: Loading, bones: seq<MeshBone>)
    requires TableValid(l.table)
    ensures forall i :: 0 <= i < |bones| ==> bones[i].name in LoadAll(l, bones).table.mapping
    decreases |bones|
  {
    if bones != [] {
      var init := bones[..|bones| - 1];
      var last := bones[|bones| - 1];
      LoadAllRegisters(l, init);
      LoadAllKeepsValid(l, init);
      var mid := LoadAll(l, init);
      RegisterKeepsValid(mid.table, last.name, Transpose(last.offsetMatrix));
      forall i | 0 <= i < |bones|
        ensures bones[i].name in LoadAll(l, bones).table.mapping
      {
        if i < |bones| - 1 {
          assert bones[i] == init[i];
        }
      }
    }
  }

  /** Every influence of every bone names an existing vertex (`vertices[vertexID]` is unchecked). */
  predicate WeightsInRange(bones: seq<MeshBone>, vertexCount: int)
  {
    forall i, j :: 0 <= i < |bones| && 0 <= j < |bones[i].weights| ==> bones[i].weights[j].vertexId < vertexCount
  }

  // ---------------------------------------------------------------------------
  // Vertices, indices and the mesh walk
  // ---------------------------------------------------------------------------

  /** The normal and texture-coordinate arrays, when present, cover every vertex. */
  predicate WellFormedMesh(mesh: Mesh)
  {
    && (mesh.normals.Some? ==> |mesh.normals.value| >= |mesh.vertices|)
    && (mesh.textureCoords.Some? ==> |mesh.textureCoords.value| >= |mesh.vertices|)
  }

  /** The vertex loadVertices builds for vertex i: absent normals and texcoords become zero, no influences yet. */
  function VertexOf(mesh: Mesh, i: int): AnimatedVertex
    requires WellFormedMesh(mesh) && 0 <= i < |mesh.vertices|
  {
    AnimatedVertex(
      mesh.vertices[i],
      if mesh.normals.Some? then mesh.normals.value[i] else ZeroVec3,
      if mesh.textureCoords.Some? then mesh.textureCoords.value[i] else ZeroVec2,
      NoIds, NoWeights)
  }

  /** The face index lists concatenated in face order. */
  function Flatten(faces: seq<seq<nat>>): seq<nat>
    decreases |faces|
  {
    if faces == [] then [] else Flatten(faces[..|faces| - 1]) + faces[|faces| - 1]
  }

  /** The total number of face indices. */
  function IndexCount(faces: seq<seq<nat>>): nat
    decreases |faces|
  {
    if faces == [] then 0 else IndexCount(faces[..|faces| - 1]) + |faces[|faces| - 1]|
  }

  /** The flattened list is as long as all faces together, and face i's indices follow those of faces 0..i-1. */
  lemma {:induction false} FlattenLayout(faces: seq<seq<nat>>, i: int)
    requires 0 <= i < |faces|
    ensures |Flatten(faces)| == IndexCount(faces)
    ensures IndexCount(faces[..i]) + |faces[i]| <= IndexCount(faces)
    ensures Flatten(faces)[IndexCount(faces[..i])..IndexCount(faces[..i]) + |faces[i]|] == faces[i]
    decreases |faces|
  {
    var init := faces[..|faces| - 1];
    FlattenLength(faces);
    FlattenLength(init);
    var lo := IndexCount(faces[..i]);
    if i < |faces| - 1 {
      FlattenLayout(init, i);
      assert init[..i] == faces[..i];
      assert init[i] == faces[i];
      assert Flatten(faces)[lo..lo + |faces[i]|] == Flatten(init)[lo..lo + |faces[i]|];
    } else {
      assert faces[..i] == init;
      assert Flatten(faces)[lo..] == faces[i];
    }
  }

  lemma {:induction false} FlattenLength(faces: seq<seq<nat>>)
    ensures |Flatten(faces)| == IndexCount(faces)
    decreases |faces|
  {
    if faces != [] {
      FlattenLength(faces[..|faces| - 1]);
    }
  }

  /** All meshes a node refers to exist in the scene, throughout the subtree. */
  predicate MeshRefsIn(node: SceneNode, meshCount: int)
    decreases node
  {
    && (forall i :: 0 <= i < |node.meshes| ==> 0 <= node.meshes[i] < meshCount)
    && (forall i :: 0 <= i < |node.children| ==> MeshRefsIn(node.children[i], meshCount))
  }

  /** Every entry of `order` indexes the scene's mesh table. */
  predicate RefsIn(order: seq<int>, meshCount: int)
  {
    forall i :: 0 <= i < |order| ==> 0 <= order[i] < meshCount
  }

  /** The order in which processNode turns scene meshes into model meshes: own meshes, then each child's, i.e. preorder. */
  function MeshOrder(node: SceneNode): seq<int>
    decreases node
  {
    node.meshes + MeshOrderAll(node.children)
  }

  function MeshOrderAll(cs: seq<SceneNode>): seq<int>
    decreases cs
  {
    if cs == [] then [] else MeshOrderAll(cs[..|cs| - 1]) + MeshOrder(cs[|cs| - 1])
  }

  /** The bone table and mesh list after processing one scene mesh. */
  function ProcessMeshSpec(t: BoneTable, mesh: Mesh): (r: (BoneTable, MeshData))
    requires WellFormedMesh(mesh)
  {
    var vs := seq(|mesh.vertices|, i requires 0 <= i < |mesh.vertices| => VertexOf(mesh, i));
    var l := LoadAll(Loading(t, vs), mesh.bones);
    (l.table, MeshData(l.vertices, Flatten(mesh.faces)))
  }

  /** Every scene mesh is well formed. */
  predicate MeshesWellFormed(scene: ImportedScene)
  {
    forall m :: 0 <= m < |scene.meshes| ==> WellFormedMesh(scene.meshes[m])
  }

  /** The bone table and the new meshes after processing the scene meshes listed in `order`. */
  function ProcessAll(t: BoneTable, scene: ImportedScene, order: seq<int>): (r: (BoneTable, seq<MeshData>))
    requires MeshesWellFormed(scene)
    requires RefsIn(order, |scene.meshes|)
    ensures |r.1| == |order|
    decreases |order|
  {
    if order == [] then (t, [])
    else
      var prev := ProcessAll(t, scene, order[..|order| - 1]);
      var step := ProcessMeshSpec(prev.0, scene.meshes[order[|order| - 1]]);
      (step.0, prev.1 + [step.1])
  }

  /** Processing two runs of meshes one after the other. */
  lemma {:induction false} ProcessAllAppend(t: BoneTable, scene: ImportedScene, a: seq<int>, b: seq<int>)
    requires MeshesWellFormed(scene)
    requires RefsIn(a, |scene.meshes|) && RefsIn(b, |scene.meshes|)
    ensures ProcessAll(t, scene, a + b) ==
      var first := ProcessAll(t, scene, a);
      var second := ProcessAll(first.0, scene, b);
      (second.0, first.1 + second.1)
    decreases |b|
  {
    if b == [] {
      assert a + b == a;
      var first := ProcessAll(t, scene, a);
      assert first.1 + [] == first.1;
    } else {
      var init := b[..|b| - 1];
      ProcessAllAppend(t, scene, a, init);
      assert (a + b)[..|a + b| - 1] == a + init;
      assert (a + b)[|a + b| - 1] == b[|b| - 1];
      var first := ProcessAll(t, scene, a);
      var mid := ProcessAll(first.0, scene, init);
      var step := ProcessMeshSpec(mid.0, scene.meshes[b[|b| - 1]]);
      assert ProcessAll(first.0, scene, b) == (step.0, mid.1 + [step.1]);
      assert first.1 + (mid.1 + [step.1]) == (first.1 + mid.1) + [step.1];
    }
  }

  /** Processing meshes keeps the bone table valid and never renumbers or drops a bone. */
  lemma {:induction false} ProcessAllKeepsValid(t: BoneTable, scene: ImportedScene, order: seq<int>)
    requires MeshesWellFormed(scene) && RefsIn(order, |scene.meshes|)
    requires TableValid(t)
    ensures TableValid(ProcessAll(t, scene, order).0)
    ensures Extends(t, ProcessAll(t, scene, order).0)
    decreases |order|
  {
    if order == [] {
      assert t.info[..|t.info|] == t.info;
    } else {
      var prev := ProcessAll(t, scene, order[..|order| - 1]);
      ProcessAllKeepsValid(t, scene, order[..|order| - 1]);
      var mesh := scene.meshes[order[|order| - 1]];
      var vs := seq(|mesh.vertices|, i requires 0 <= i < |mesh.vertices| => VertexOf(mesh, i));
      LoadAllKeepsValid(Loading(prev.0, vs), mesh.bones);
    }
  }

  /**
   * `table` and `ms` are what processing the scene meshes listed in `order`
   * makes of the bone table `t0` and the mesh list `start`: the new meshes are
   * appended, in that order.
   */
  ghost predicate ProcessedFrom(t0: BoneTable, start: seq<MeshData>, scene: ImportedScene, order: seq<int>,
                                table: BoneTable, ms: seq<MeshData>)
  {
    && MeshesWellFormed(scene) && RefsIn(order, |scene.meshes|)
    && table == ProcessAll(t0, scene, order).0
    && ms == start + ProcessAll(t0, scene, order).1
  }

  /** Processing one mesh. */
  lemma ProcessedOne(t0: BoneTable, start: seq<MeshData>, scene: ImportedScene, m: int, table: BoneTable, made: MeshData)
    requires MeshesWellFormed(scene) && 0 <= m < |scene.meshes|
    requires (table, made) == ProcessMeshSpec(t0, scene.meshes[m])
    ensures ProcessedFrom(t0, start, scene, [m], table, start + [made])
  {
    assert [m][..0] == [];
  }

  /** Processing one run of meshes after another is processing both runs in turn. */
  lemma ProcessedCompose(t0: BoneTable, m0: seq<MeshData>, scene: ImportedScene,
                         o1: seq<int>, t1: BoneTable, m1: seq<MeshData>,
                         o2: seq<int>, t2: BoneTable, m2: seq<MeshData>)
    requires ProcessedFrom(t0, m0, scene, o1, t1, m1)
    requires ProcessedFrom(t1, m1, scene, o2, t2, m2)
    ensures ProcessedFrom(t0, m0, scene, o1 + o2, t2, m2)
  {
    ProcessAllAppend(t0, scene, o1, o2);
    var first := ProcessAll(t0, scene, o1);
    var second := ProcessAll(first.0, scene, o2);
    assert m2 == (m0 + first.1) + second.1;
    assert m2 == m0 + (first.1 + second.1);
  }

  /** The meshes of the first k + 1 children are those of the first k followed by child k's. */
  lemma MeshOrderAllStep(own: seq<int>, cs: seq<SceneNode>, k: int)
    requires 0 <= k < |cs|
    ensures own + MeshOrderAll(cs[..k + 1]) == (own + MeshOrderAll(cs[..k])) + MeshOrder(cs[k])
  {
    assert cs[..k + 1][..k] == cs[..k];
  }

  /** The nodes of a subtree in preorder: a node, then each child's subtree in order. */
  function Subtrees(node: SceneNode): seq<SceneNode>
    decreases node
  {
    [node] + SubtreesAll(node.children)
  }

  function SubtreesAll(cs: seq<SceneNode>): seq<SceneNode>
    decreases cs
  {
    if cs == [] then [] else SubtreesAll(cs[..|cs| - 1]) + Subtrees(cs[|cs| - 1])
  }

  /** The mesh references of a list of nodes, node after node. */
  function MeshesOf(ns: seq<SceneNode>): seq<int>
    decreases |ns|
  {
    if ns == [] then [] else MeshesOf(ns[..|ns| - 1]) + ns[|ns| - 1].meshes
  }

  lemma {:induction false} MeshesOfAppend(a: seq<SceneNode>, b: seq<SceneNode>)
    ensures MeshesOf(a + b) == MeshesOf(a) + MeshesOf(b)
    decreases |b|
  {
    if b == [] {
      assert a + b == a;
    } else {
      MeshesOfAppend(a, b[..|b| - 1]);
      assert (a + b)[..|a + b| - 1] == a + b[..|b| - 1];
    }
  }

  /**
   * processNode takes the meshes of a subtree in preorder: the order of the
   * model's meshes is that of the scene nodes in preorder, and within a node
   * the order of its own mesh list.
   */
  lemma {:induction false} MeshOrderIsPreorder(node: SceneNode)
    ensures MeshOrder(node) == MeshesOf(Subtrees(node))
    decreases node
  {
    MeshOrderAllIsPreorder(node.children);
    MeshesOfAppend([node], SubtreesAll(node.children));
    assert MeshesOf([node]) == node.meshes by {
      assert [node][..0] == [];
    }
  }

  lemma {:induction false} MeshOrderAllIsPreorder(cs: seq<SceneNode>)
    ensures MeshOrderAll(cs) == MeshesOf(SubtreesAll(cs))
    decreases cs
  {
    if cs != [] {
      MeshOrderAllIsPreorder(cs[..|cs| - 1]);
      MeshOrderIsPreorder(cs[|cs| - 1]);
      MeshesOfAppend(SubtreesAll(cs[..|cs| - 1]), Subtrees(cs[|cs| - 1]));
    }
  }

  /** The mesh references made by a subtree are the ones it names. */
  lemma {:induction false} MeshOrderInRange(node: SceneNode, meshCount: int)
    requires MeshRefsIn(node, meshCount)
    ensures RefsIn(MeshOrder(node), meshCount)
    decreases node
  {
    MeshOrderAllInRange(node.children, meshCount);
  }

  lemma {:induction false} MeshOrderAllInRange(cs: seq<SceneNode>, meshCount: int)
    requires forall i :: 0 <= i < |cs| ==> MeshRefsIn(cs[i], meshCount)
    ensures RefsIn(MeshOrderAll(cs), meshCount)
    decreases cs
  {
    if cs != [] {
      MeshOrderAllInRange(cs[..|cs| - 1], meshCount);
      MeshOrderInRange(cs[|cs| - 1], meshCount);
    }
  }

  /** The number of bone matrices every model starts with. */
  const DefaultPaletteSize := 100

  class AnimatedModel {
    var meshes: seq<MeshData>
    var boneMapping: map<string, int>
    var boneCount: int
    var boneInfo: seq<BoneInfo>
    var defaultBoneMatrices: seq<Mat4>
    var finalBoneMatrices: array<Mat4>

    /** The bone table formed by boneMapping and boneInfo. */
    function Table(): BoneTable
      reads this
    {
      BoneTable(boneMapping, boneInfo)
    }

    /** boneCount is the number of offset matrices. */
    predicate Counted()
      reads this
    {
      boneCount == |boneInfo|
    }

    /** boneCount counts the entries of a valid bone table. */
    ghost predicate Valid()
      reads this
    {
      Counted() && TableValid(Table())
    }

    /**
     * AnimatedModel::AnimatedModel: no meshes, no bones, 100 identity matrices
     * as the default palette and a separate copy of it as the bound palette.
     */
    constructor ()
      ensures Valid()
      ensures meshes == [] && boneMapping == map[] && boneInfo == []
      ensures |defaultBoneMatrices| == DefaultPaletteSize
      ensures forall i :: 0 <= i < |defaultBoneMatrices| ==> defaultBoneMatrices[i] == Identity
      ensures fresh(finalBoneMatrices) && finalBoneMatrices[..] == defaultBoneMatrices
    {
      meshes := [];
      boneMapping := map[];
      boneCount := 0;
      boneInfo := [];
      var defaults := seq(DefaultPaletteSize, _ => Identity);
      defaultBoneMatrices := defaults;
      finalBoneMatrices := new Mat4[DefaultPaletteSize](i requires 0 <= i < DefaultPaletteSize => defaults[i]);
    }

    /** BindAnimation: draw with `animationMatrices` itself, so later writes to it are seen here. */
    method BindAnimation(animationMatrices: array<Mat4>)
      modifies this`finalBoneMatrices
      ensures finalBoneMatrices == animationMatrices
      ensures defaultBoneMatrices == old(defaultBoneMatrices)
    {
      finalBoneMatrices := animationMatrices;
    }

    /** UnbindAnimation: draw with a new private copy of the default palette. */
    method UnbindAnimation()
      modifies this`finalBoneMatrices
      ensures fresh(finalBoneMatrices) && finalBoneMatrices[..] == defaultBoneMatrices
      ensures defaultBoneMatrices == old(defaultBoneMatrices)
    {
      var defaults := defaultBoneMatrices;
      finalBoneMatrices := new Mat4[|defaults|](i requires 0 <= i < |defaults| => defaults[i]);
    }

    /** GetFinalBoneMatrices: the palette currently bound (the object, not a copy). */
    method GetFinalBoneMatrices() returns (palette: array<Mat4>)
      ensures palette == finalBoneMatrices
    {
      palette := finalBoneMatrices;
    }

    /**
     * AnimatedModel::addBoneData: the influence goes into the first slot whose
     * weight is 0.0 and no other slot changes; with no free slot it is dropped.
     */
    static method AddBoneData(vertex: AnimatedVertex, boneID: int, weight: real) returns (result: AnimatedVertex)
      ensures result == Pack(vertex, boneID, weight)
    {
      PackFirstFree(vertex, boneID, weight);
      result := vertex;
      var i := 0;
      while i < 4
        invariant 0 <= i <= 4
        invariant forall j :: 0 <= j < i ==> vertex.inBoneWeights[j] != 0.0
      {
        if vertex.inBoneWeights[i] == 0.0 {
          result := vertex.(inBoneIDs := vertex.inBoneIDs[i := boneID], inBoneWeights := vertex.inBoneWeights[i := weight]);
          assert FirstFree(vertex.inBoneWeights, i);
          return;
        }
        i := i + 1;
      }
    }

    /**
     * AnimatedModel::loadBones: registers the mesh's bones in order and
     * records each bone's influences on the vertices, under the bone's index.
     */
    method LoadBones(mesh: Mesh, vertices: seq<AnimatedVertex>) returns (result: seq<AnimatedVertex>)
      requires Counted()
      requires WeightsInRange(mesh.bones, |vertices|)
      modifies this`boneMapping, this`boneCount, this`boneInfo
      ensures Counted()
      ensures Loading(Table(), result) == LoadAll(Loading(old(Table()), vertices), mesh.bones)
    {
      result := vertices;
      ghost var initial := Loading(Table(), vertices);
      var bones := mesh.bones;
      var i := 0;
      while i < |bones|
        invariant 0 <= i <= |bones|
        invariant boneCount == |boneInfo|
        invariant Loading(Table(), result) == LoadAll(initial, bones[..i])
      {
        var bone := bones[i];
        var boneName := bone.name;
        var boneIndex := 0;
        ghost var registered := Register(Table(), boneName, Transpose(bone.offsetMatrix));
        if boneName !in boneMapping {
          boneIndex := boneCount;
          boneMapping := boneMapping[boneName := boneCount];
          boneInfo := boneInfo + [BoneInfo(Transpose(bone.offsetMatrix))];
          boneCount := boneCount + 1;
        } else {
          boneIndex := boneMapping[boneName];
        }
        assert Table() == registered && boneIndex == registered.mapping[boneName];

        assert forall j :: 0 <= j < |bone.weights| ==> bone.weights[j].vertexId < |result| by {
          assert forall j :: 0 <= j < |bone.weights| ==> bone.weights[j] == bones[i].weights[j];
        }
        result := RecordInfluences(result, boneIndex, bone.weights);
        LoadAllStep(initial, bones, i);
        i := i + 1;
      }
      assert bones[..|bones|] == bones;
    }

    /** The inner loop of loadBones: each influence of one bone goes through addBoneData, in order. */
    static method RecordInfluences(vertices: seq<AnimatedVertex>, boneIndex: int, weights: seq<VertexWeight>)
      returns (result: seq<AnimatedVertex>)
      requires forall j :: 0 <= j < |weights| ==> weights[j].vertexId < |vertices|
      ensures result == Weigh(vertices, boneIndex, weights)
    {
      result := vertices;
      var j := 0;
      while j < |weights|
        invariant 0 <= j <= |weights|
        invariant result == Weigh(vertices, boneIndex, weights[..j])
      {
        var vertexID := weights[j].vertexId;
        var weight := weights[j].weight;
        WeighStep(vertices, boneIndex, weights, j);
        var packed := AddBoneData(result[vertexID], boneIndex, weight);
        result := result[vertexID := packed];
        j := j + 1;
      }
      assert weights[..|weights|] == weights;
    }

    /** loadVertices: one vertex per mesh vertex, zero normal and texcoord when absent, no influences. */
    static method LoadVertices(mesh: Mesh) returns (vertices: seq<AnimatedVertex>)
      requires WellFormedMesh(mesh)
      ensures |vertices| == |mesh.vertices|
      ensures forall i :: 0 <= i < |vertices| ==>
        && vertices[i].position == mesh.vertices[i]
        && vertices[i].normal == (if mesh.normals.Some? then mesh.normals.value[i] else ZeroVec3)
        && vertices[i].texCoords == (if mesh.textureCoords.Some? then mesh.textureCoords.value[i] else ZeroVec2)
        && vertices[i].inBoneWeights == NoWeights
      ensures vertices == seq(|mesh.vertices|, i requires 0 <= i < |mesh.vertices| => VertexOf(mesh, i))
    {
      vertices := [];
      var i := 0;
      while i < |mesh.vertices|
        invariant 0 <= i <= |mesh.vertices|
        invariant |vertices| == i
        invariant forall k :: 0 <= k < i ==> vertices[k] == VertexOf(mesh, k)
      {
        var position := mesh.vertices[i];
        var normal := if mesh.normals.Some? then mesh.normals.value[i] else Vec3(0.0, 0.0, 0.0);
        var texCoords := if mesh.textureCoords.Some? then mesh.textureCoords.value[i] else Vec2(0.0, 0.0);
        vertices := vertices + [AnimatedVertex(position, normal, texCoords, NoIds, NoWeights)];
        i := i + 1;
      }
    }

    /** loadIndices: every face's indices, in face order. */
    static method LoadIndices(mesh: Mesh) returns (indices: seq<nat>)
      ensures indices == Flatten(mesh.faces)
      ensures |indices| == IndexCount(mesh.faces)
    {
      indices := [];
      var faces := mesh.faces;
      var i := 0;
      while i < |faces|
        invariant 0 <= i <= |faces|
        invariant indices == Flatten(faces[..i])
      {
        var face := faces[i];
        ghost var before := indices;
        var j := 0;
        while j < |face|
          invariant 0 <= j <= |face|
          invariant indices == before + face[..j]
        {
          indices := indices + [face[j]];
          assert face[..j + 1] == face[..j] + [face[j]];
          j := j + 1;
        }
        assert face[..|face|] == face;
        assert faces[..i + 1][..i] == faces[..i];
        i := i + 1;
      }
      assert faces[..|faces|] == faces;
      FlattenLength(faces);
    }

    /** processMesh: vertices, indices, then the bones of the mesh. */
    method ProcessMesh(mesh: Mesh) returns (m: MeshData)
      requires Counted() && WellFormedMesh(mesh)
      requires WeightsInRange(mesh.bones, |mesh.vertices|)
      modifies this`boneMapping, this`boneCount, this`boneInfo
      ensures Counted()
      ensures (Table(), m) == ProcessMeshSpec(old(Table()), mesh)
    {
      var vertices := LoadVertices(mesh);
      var indices := LoadIndices(mesh);
      vertices := LoadBones(mesh, vertices);
      m := MeshData(vertices, indices);
    }

    /**
     * processNode: appends the node's own meshes, then processes the children
     * in order, so the model's meshes follow the preorder of the scene tree.
     */
    method ProcessNode(node: SceneNode, scene: ImportedScene)
      requires Counted() && MeshesWellFormed(scene) && MeshRefsIn(node, |scene.meshes|)
      requires forall m :: 0 <= m < |scene.meshes| ==>
        WeightsInRange(scene.meshes[m].bones, |scene.meshes[m].vertices|)
      modifies this`meshes, this`boneMapping, this`boneCount, this`boneInfo
      ensures Counted()
      ensures ProcessedFrom(old(Table()), old(meshes), scene, MeshOrder(node), Table(), meshes)
      decreases node
    {
      ghost var table0 := Table();
      ghost var start := meshes;
      assert node.meshes[..0] == [];
      var i := 0;
      while i < |node.meshes|
        invariant 0 <= i <= |node.meshes|
        invariant Counted()
        invariant ProcessedFrom(table0, start, scene, node.meshes[..i], Table(), meshes)
      {
        ghost var tableBefore := Table();
        ghost var before := meshes;
        var mesh := scene.meshes[node.meshes[i]];
        var processed := ProcessMesh(mesh);
        meshes := meshes + [processed];
        ProcessedOne(tableBefore, before, scene, node.meshes[i], Table(), processed);
        ProcessedCompose(table0, start, scene, node.meshes[..i], tableBefore, before, [node.meshes[i]], Table(), meshes);
        assert node.meshes[..i] + [node.meshes[i]] == node.meshes[..i + 1];
        i := i + 1;
      }
      assert node.children[..0] == [];
      assert node.meshes + MeshOrderAll(node.children[..0]) == node.meshes[..|node.meshes|];

      var k := 0;
      while k < |node.children|
        invariant 0 <= k <= |node.children|
        invariant Counted()
        invariant ProcessedFrom(table0, start, scene, node.meshes + MeshOrderAll(node.children[..k]), Table(), meshes)
      {
        ghost var tableBefore := Table();
        ghost var before := meshes;
        ProcessNode(node.children[k], scene);
        ProcessedCompose(table0, start, scene, node.meshes + MeshOrderAll(node.children[..k]), tableBefore, before,
          MeshOrder(node.children[k]), Table(), meshes);
        MeshOrderAllStep(node.meshes, node.children, k);
        k := k + 1;
      }
      assert node.children[..|node.children|] == node.children;
    }

    /**
     * loadModel, after the file is read: a failed, incomplete or rootless
     * import changes nothing; otherwise the scene tree is processed from its
     * root.
     */
    method LoadModel(scene: Option<ImportedScene>)
      requires Valid()
      requires scene.Some? ==>
        && MeshesWellFormed(scene.value)
        && (scene.value.rootNode.Some? ==> MeshRefsIn(scene.value.rootNode.value, |scene.value.meshes|))
        && forall m :: 0 <= m < |scene.value.meshes| ==>
             WeightsInRange(scene.value.meshes[m].bones, |scene.value.meshes[m].vertices|)
      modifies this`meshes, this`boneMapping, this`boneCount, this`boneInfo
      ensures Valid()
      ensures scene.None? || scene.value.incomplete || scene.value.rootNode.None? ==>
        meshes == old(meshes) && Table() == old(Table())
      ensures scene.Some? && !scene.value.incomplete && scene.value.rootNode.Some? ==>
        var root := scene.value.rootNode.value;
        && RefsIn(MeshOrder(root), |scene.value.meshes|)
        && Table() == ProcessAll(old(Table()), scene.value, MeshOrder(root)).0
        && meshes == old(meshes) + ProcessAll(old(Table()), scene.value, MeshOrder(root)).1
    {
      if scene.None? || scene.value.incomplete || scene.value.rootNode.None? {
        return;
      }
      ProcessNode(scene.value.rootNode.value, scene.value);
      ProcessAllKeepsValid(old(Table()), scene.value, MeshOrder(scene.value.rootNode.value));
    }
  }
}
