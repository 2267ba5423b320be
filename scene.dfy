/**
 * What the asset importer (Assimp) hands to the engine, as plain values. Reading
 * a file is outside the model; loaders take one of these instead of a path.
 */
module Scene {
  import opened Wrappers
  import opened Maths

  /** A keyframe: a sampled value and the tick at which it applies (aiVectorKey, aiQuatKey). */
  datatype Key<V> = Key(value: V, timeStamp: real)

  /** The keyframe tracks of one animated node (aiNodeAnim). */
  datatype NodeAnim = NodeAnim(
    nodeName: string,
    positionKeys: seq<Key<Vec3>>,
    rotationKeys: seq<Key<Quat>>,
    scalingKeys: seq<Key<Vec3>>)

  /** One clip (aiAnimation): length in ticks, playback rate and channels. */
  datatype Clip = Clip(duration: real, ticksPerSecond: real, channels: seq<NodeAnim>)

  /** A scene-graph node (aiNode): its row-major transform, its meshes (indices
      into the scene's mesh table) and its children in order. */
  datatype SceneNode = SceneNode(
    name: string,
    transformation: Mat4,
    meshes: seq<int>,
    children: seq<SceneNode>)

  /** One influence of a bone on a vertex (aiVertexWeight). */
  datatype VertexWeight = VertexWeight(vertexId: nat, weight: real)

  /** A skinning bone of one mesh (aiBone): name, inverse-bind matrix, weights. */
  datatype MeshBone = MeshBone(name: string, offsetMatrix: Mat4, weights: seq<VertexWeight>)

  /** One mesh (aiMesh). Normals and the first texture-coordinate channel may be absent. */
  datatype Mesh = Mesh(
    vertices: seq<Vec3>,
    normals: Option<seq<Vec3>>,
    textureCoords: Option<seq<Vec2>>,
    faces: seq<seq<nat>>,
    bones: seq<MeshBone>)

  /** A whole imported scene (aiScene). */
  datatype ImportedScene = ImportedScene(
    incomplete: bool,
    rootNode: Option<SceneNode>,
    meshes: seq<Mesh>,
    animations: seq<Clip>)
}
