# Skeletal animation core of the Vertex engine, in Dafny

This project models the parts of the engine that compute something:

- **Keyframe sampling and pose evaluation** (`animation.dfy`).
  - The forward bracket search over keyframe timestamps.
  - The clamped interpolation factor.
  - `Bone::Update`, and the rule that a track with fewer than two keys stays identity.
  - Channel filtering in the `Animation` constructor.
  - The looping clip clock.
  - The depth-first walk that writes global transforms into the palette, in place.
- **Skinned-model loading** (`animated_model.dfy`).
  - First-encounter bone numbering into `boneMapping`/`boneCount`/`boneInfo`.
  - The four-slot "first free weight" packing of `addBoneData`.
  - Index flattening, vertex defaults and preorder mesh collection.
  - The model's default palette of 100 identity matrices, and `BindAnimation`/`UnbindAnimation`, which re-point the palette the model draws with.
- **The per-frame animation system** (`animations_system.dfy`).
  - Entities with both components either unbind, or they advance their clock, let the clip pose its palette, multiply the first `boneInfo.size()` slots by their offsets in place, and bind the model to that array.
- **The water grid** (`water_mesh.dfy`).
  - Vertex and index buffers of `generateWaterMesh`.
  - The number and order of waves produced by the random-wave constructor.
- **The texture cache** (`texture_manager.dfy`): `load`, `unload`, `clear`.
- **The PBR module** (`pbr_render_module.dfy`).
  - The rule that selects a material by id.
  - The capped, filtered gathering of point lights.
  - The ignore-lighting rule.

Supporting files:

- `maths.dfy` keeps glm values symbolic. Matrices, quaternions and vectors form a free term algebra (`Mul`, `Translate`, `Slerp`, `Mix`, …). Equal transforms are therefore built by the same products of the same factors.
  - `Fmod` is ISO C's fmod (section 7.12.10.1), with truncation toward zero.
- `scene.dfy` gives the importer's output (nodes, meshes, bones, channels) as plain values.
- `wrappers.dfy` holds `Option`.

Objects the source updates in place are classes:

- `Bone`, `Animation`, `AnimatedModel`, the two entity components, `WaterMesh`, `Texture` and `TextureManager`.
- Shared palettes are `array<Mat4>`. Aliasing one array between a clip and a model is the point of bind/unbind.

Each method is proved against a function of its inputs and old state (`Walk`, `LoadAll`, `Weigh`, `ProcessAll`, `GridVertices`, `GridIndices`, `Gathered`, …). Lemmas then state what the source promises about those functions.

Where the code and its design description disagree, the model follows the code:

- a track with one key is not held (it stays identity);
- a failed search returns n-1, not n-2;
- a zero-length key segment is not guarded;
- a clip's palette has one entry per kept bone (only the model's default palette has 100).

In the other disagreements too, the model follows the code:

- The PBR header declares neither `id` nor `ignoreLighting` on `PBRMaterial`, and gives the component a single `material`. The model follows `pbr_render_module.cpp`, which reads `materials`, `id` and `ignoreLighting`.
- The water constructors in `water_mesh.hpp` take an `envPath`. The model follows the constructors defined in `water_mesh.cpp`.
- `animated_model.hpp` declares `loadModel`, `processNode` and `processMesh` with a `loadMaterials` flag that the `.cpp` definitions do not have. The model follows the `.cpp`.

## Model

| member | source | states |
|---|---|---|
| Animations.BracketFrom | src/animations/animation.cpp:43-46 | the scan from i on stops at an index that is a bracket: no earlier key after the first is above t, and either t < keys[i+1] with i <= n-2, or i == n-1 |
| Animations.FirstBracket | src/animations/animation.cpp:41-47 | the search result satisfies IsBracket (smallest i in [0, n-2] with t < keys[i+1].timeStamp, else n-1) |
| Animations.BracketUnique | src/animations/animation.cpp:41-47 | at most one index is a bracket, so the search result is determined |
| Animations.ScanBracket | src/animations/animation.cpp:41-63 | the loop shared by the three index searches returns the bracket; it is in [0, n-1] for a non-empty track and -1 for an empty one |
| Animations.BracketFoundIffBeforeLastKey | src/animations/animation.cpp:41-84 | on a sorted track of two or more keys, the search returns an index below n-1 (so keys[i+1] exists) exactly when t is below the last timestamp |
| Animations.BracketOfSegment | src/animations/animation.cpp:43-45 | on a strictly increasing track, a time inside segment i (or before the first key, for i = 0) selects exactly i |
| Animations.SampleableBeforeLastKey | src/animations/animation.cpp:79-84 | a strictly increasing track can be sampled at any time below its last key |
| Animations.Bone.constructor | src/animations/animation.cpp:7-39 | the bone keeps its name, its id and the channel's three key tracks unchanged |
| Animations.Bone.GetPositionIndex | src/animations/animation.cpp:41-47 | returns the bracket of the position track |
| Animations.Bone.GetRotationIndex | src/animations/animation.cpp:49-55 | returns the bracket of the rotation track |
| Animations.Bone.GetScaleIndex | src/animations/animation.cpp:57-63 | returns the bracket of the scale track |
| Animations.Bone.GetScaleFactor | src/animations/animation.cpp:65-72 | for next != last the factor lies in [0,1]; it equals (t-last)/(next-last) when last <= t <= next, is 0 before the segment and 1 after it |
| Animations.RatioBounds | src/animations/animation.cpp:68-70 | the unclamped ratio is in [0,1] inside the segment, <= 0 before it and >= 1 after it |
| Animations.Bone.Update | src/animations/animation.cpp:74-109 | the cached local transform becomes LocalPose(t): translation * rotation * scale, each sampled from its segment or identity for a short track |
| Animations.ShortTracksStayIdentity | src/animations/animation.cpp:76-108 | a track with 0 or 1 keys contributes the identity whatever the time; the pose is T * R * S in that order |
| Animations.TwoKeyMidpoint | src/animations/animation.cpp:79-85 | with two position keys t0 < t1, the translation at (t0+t1)/2 is translate(mix(p0, p1, 0.5)) |
| Animations.TranslationInSegment | src/animations/animation.cpp:79-85 | on a strictly increasing track, a time in [t_i, t_{i+1}) translates by mix(p_i, p_{i+1}, (t-t_i)/(t_{i+1}-t_i)) |
| Animations.RotationInSegment | src/animations/animation.cpp:89-95 | on a strictly increasing track, a time in [t_i, t_{i+1}) rotates by normalize(slerp(r_i, r_{i+1}, (t-t_i)/(t_{i+1}-t_i))) |
| Animations.ScalingInSegment | src/animations/animation.cpp:99-105 | on a strictly increasing track, a time in [t_i, t_{i+1}) scales by mix(s_i, s_{i+1}, (t-t_i)/(t_{i+1}-t_i)) |
| Animations.MirrorAll | src/animations/animation.cpp:166-171 | the copied children are as many as the imported ones, child i being the copy of imported child i |
| Animations.MirrorKeepsPreorder | src/animations/animation.cpp:160-172 | the copied hierarchy lists the same names in the same preorder as the imported one |
| Animations.MirrorAllKeepsPreorder | src/animations/animation.cpp:166-171 | the same for a list of children, in order |
| Animations.ChannelTable | src/animations/animation.cpp:136-154 | every kept name is known to the model, and its channel index is in range and animates that name |
| Animations.ChannelTableStep | src/animations/animation.cpp:136-154 | one more channel is kept exactly when the model knows its name and no earlier channel was kept for it |
| Animations.ChannelTableKept | src/animations/animation.cpp:142-153 | a name is kept iff the model knows it and some channel animates it |
| Animations.ChannelTableFirst | src/animations/animation.cpp:142-153 | the channel kept for a name is the first channel with that name |
| Animations.ChannelTableFirstWins | src/animations/animation.cpp:142-153 | a name is kept iff the model knows it and some channel animates it; the channel kept is the first with that name (emplace does not overwrite) |
| Animations.ClipClockRange | src/animations/animation.cpp:179-180 | with a positive duration and a non-negative advanced time the clip clock stays in [0, duration), and it does not wrap while below the duration |
| Animations.ClipClockLoops | src/animations/animation.cpp:179-180 | a two-tick clip at one tick per second, advanced by 1.5 s and then 1.0 s, reads 1.5 and then 0.5 |
| Animations.Animation.constructor | src/animations/animation.cpp:111-158 | on a load failure there are no bones and an empty palette; otherwise duration, rate (25 when 0), the copied hierarchy and the kept bones follow the clip; the palette is fresh with one identity per bone |
| Animations.Animation.KeepChannels | src/animations/animation.cpp:136-154 | the bones made are exactly the names ChannelTable keeps, each built from the first channel for it with the model's id, all fresh |
| Animations.Animation.ReadHierarchyData | src/animations/animation.cpp:160-172 | returns the copy Mirror of the imported node (transposed transform, children in order) |
| Animations.Animation.Write | src/animations/animation.cpp:199-204 | one visit changes the palette's slot for the node's bone, when it has one in range, and keeps the length |
| Animations.Animation.Apply | src/animations/animation.cpp:185-208 | performing a list of visits in order keeps the palette's length |
| Animations.Animation.Walk | src/animations/animation.cpp:185-208 | the recursive walk of a subtree keeps the palette's length |
| Animations.Animation.WalkAll | src/animations/animation.cpp:206-207 | walking the children in order keeps the palette's length |
| Animations.Animation.ApplyAppend | src/animations/animation.cpp:185-208 | performing two runs of visits is performing one after the other |
| Animations.Animation.ApplyUntouched | src/animations/animation.cpp:199-204 | a slot that no visited bone owns keeps its value |
| Animations.Animation.ApplyLastWrite | src/animations/animation.cpp:203 | a slot holds the global transform of the last visit that writes it |
| Animations.Animation.WalkIsApply | src/animations/animation.cpp:185-208 | the recursive walk writes the palette exactly as its preorder visits do, applied in order |
| Animations.Animation.WalkAllIsApply | src/animations/animation.cpp:206-207 | the same for the children of a node |
| Animations.Animation.VisitsArePreorder | src/animations/animation.cpp:185-208 | the walk visits the subtree's nodes in preorder: a node before its children, the children in order |
| Animations.Animation.VisitsAllArePreorder | src/animations/animation.cpp:206-207 | the same for a list of children |
| Animations.Animation.ChildGlobalIsParentTimesLocal | src/animations/animation.cpp:197-207 | for a root with one leaf child, the child's palette slot receives the root's global transform times the child's local transform |
| Animations.Animation.CalculateBoneTransform | src/animations/animation.cpp:185-208 | the palette becomes Walk of the old palette; every bone met caches the pose sampled at the clip clock, and the other bones keep their cache |
| Animations.Animation.CalculateChildren | src/animations/animation.cpp:206-207 | the children loop: the palette becomes WalkAll over the children in order, with the same caching guarantees |
| Animations.Animation.Update | src/animations/animation.cpp:174-183 | without bones nothing changes; otherwise the clock becomes fmod(time + dt * ticksPerSecond, duration) and the palette is the walk from the root at that clock |
| AnimatedModels.FreeFrom | src/animations/animated_model.cpp:106-114 | the first slot at or after i with weight 0.0, or 4 when there is none |
| AnimatedModels.PackFirstFree | src/animations/animated_model.cpp:104-115 | addBoneData's effect writes (boneID, weight) into the first free slot only; with four non-zero weights the vertex is unchanged |
| AnimatedModels.PackFillsOneSlot | src/animations/animated_model.cpp:104-115 | a non-zero weight uses up exactly one free slot iff the vertex had one |
| AnimatedModels.Weigh | src/animations/animated_model.cpp:95-100 | recording one bone's influences keeps the number of vertices |
| AnimatedModels.WeighUntouched | src/animations/animated_model.cpp:95-100 | a vertex that no influence names keeps its value |
| AnimatedModels.RegisterKeepsValid | src/animations/animated_model.cpp:78-92 | registering a name keeps the table valid (names numbered 0..count-1, one per number) and extends it; a new name gets number boneCount and its offset is appended; a known name changes nothing |
| AnimatedModels.LoadAll | src/animations/animated_model.cpp:74-101 | loading a mesh's bones keeps the number of vertices |
| AnimatedModels.LoadAllKeepsValid | src/animations/animated_model.cpp:78-92 | loading bones keeps the table valid and never renumbers or drops a bone |
| AnimatedModels.LoadAllRegisters | src/animations/animated_model.cpp:78-92 | after loading, every bone of the mesh has a number |
| AnimatedModels.FlattenLayout | src/animations/animated_model.cpp:164-176 | the index list is as long as all faces together, and face i's indices sit right after those of faces 0..i-1 |
| AnimatedModels.FlattenLength | src/animations/animated_model.cpp:164-176 | the index list's length is the sum of the face sizes |
| AnimatedModels.ProcessAll | src/animations/animated_model.cpp:26-48 | processing a list of scene meshes makes one model mesh per entry |
| AnimatedModels.ProcessAllKeepsValid | src/animations/animated_model.cpp:78-92 | processing meshes keeps the bone table valid and extends it |
| AnimatedModels.ProcessedCompose | src/animations/animated_model.cpp:26-38 | processing one run of meshes after another is processing both runs in turn |
| AnimatedModels.MeshOrderIsPreorder | src/animations/animated_model.cpp:26-38 | the meshes are collected in the preorder of the scene nodes, each node's own list in order |
| AnimatedModels.MeshOrderAllIsPreorder | src/animations/animated_model.cpp:34-37 | the same for the children of a node |
| AnimatedModels.MeshOrderInRange | src/animations/animated_model.cpp:28-31 | every mesh the walk collects exists in the scene when every node's references do |
| AnimatedModels.AnimatedModel.constructor | Include/animations/animated_model.hpp:21-25 | no meshes or bones; 100 identity matrices as the default palette; the bound palette is a fresh array equal to it |
| AnimatedModels.AnimatedModel.BindAnimation | Include/animations/animated_model.hpp:42-45 | the bound palette is the very array passed in; the default palette is unchanged |
| AnimatedModels.AnimatedModel.UnbindAnimation | Include/animations/animated_model.hpp:47-50 | the bound palette is a fresh array equal to the default palette, which is unchanged |
| AnimatedModels.AnimatedModel.GetFinalBoneMatrices | Include/animations/animated_model.hpp:52-55 | returns the bound palette object itself |
| AnimatedModels.AnimatedModel.AddBoneData | src/animations/animated_model.cpp:104-115 | the loop with early return computes Pack: the first slot with weight 0.0 takes (boneID, weight) |
| AnimatedModels.AnimatedModel.LoadBones | src/animations/animated_model.cpp:72-102 | the bone table and vertices become LoadAll of the old ones over the mesh's bones, in order; boneCount stays the number of offsets |
| AnimatedModels.AnimatedModel.RecordInfluences | src/animations/animated_model.cpp:95-100 | each influence of one bone goes through addBoneData in order: the result is Weigh |
| AnimatedModels.AnimatedModel.LoadVertices | src/animations/animated_model.cpp:117-162 | one vertex per mesh vertex, with its position, its normal and texcoord or zero when absent, and no influences |
| AnimatedModels.AnimatedModel.LoadIndices | src/animations/animated_model.cpp:164-176 | the faces' indices concatenated in face order; the length is the sum of the face sizes |
| AnimatedModels.AnimatedModel.ProcessMesh | src/animations/animated_model.cpp:40-48 | vertices, indices, then the bones: the table and the mesh made are ProcessMeshSpec of the old table |
| AnimatedModels.AnimatedModel.ProcessNode | src/animations/animated_model.cpp:26-38 | the table and the appended meshes are what processing the subtree's mesh references in preorder gives |
| AnimatedModels.AnimatedModel.LoadModel | src/animations/animated_model.cpp:11-24 | a missing, incomplete or rootless scene changes nothing; otherwise the meshes in preorder are appended and the bone table stays valid |
| AnimationsSystems.AnimatedModelComponent.constructor | Include/animations/components.hpp:17 | the component holds the given model |
| AnimationsSystems.WithOffsetsSlots | src/animations/animations_system.cpp:45-48 | the offset pass keeps the length, leaves slots at and beyond boneInfo.size() alone, and multiplies again when run twice |
| AnimationsSystems.AdvanceClockRange | src/animations/animations_system.cpp:35-41 | with a positive duration and a non-negative advanced time the component clock stays in [0, duration) |
| AnimationsSystems.ApplyOffsets | src/animations/animations_system.cpp:45-48 | the in-place loop leaves the palette equal to WithOffsets of the old one |
| AnimationsSystems.AnimationsSystem.Play | src/animations/animations_system.cpp:35-50 | the component clock advances by dt and wraps only for a positive duration; the clip updates with the raw dt; the palette holds the pose times the offsets; the model is bound to that array |
| AnimationsSystems.AnimationsSystem.Step | src/animations/animations_system.cpp:26-50 | an entity with nothing to play only gets a fresh copy of its default palette, clocks untouched; otherwise as Play |
| AnimationsSystems.AnimationsSystem.StepAt | src/animations/animations_system.cpp:19-51 | one turn of the loop: Step on entity i, every other entity unchanged |
| AnimationsSystems.AnimationsSystem.Update | src/animations/animations_system.cpp:17-52 | every entity with both components ends as Outcome says (rebound when not playing); an entity missing either is unchanged |
| WaterMeshes.Times | src/water/water_mesh.cpp:97 | a non-negative step gives a non-negative offset |
| WaterMeshes.TimesIsMul | src/water/water_mesh.cpp:97 | the offset built by repeated addition is z * (n+1) |
| WaterMeshes.RowsAt | src/water/water_mesh.cpp:79-90 | in the first rows, position z*(n+1)+x holds grid vertex (x, z) |
| WaterMeshes.GridVertexCount | src/water/water_mesh.cpp:79-91 | generateWaterMesh emits (n+1)*(n+1) vertices, none for a negative n |
| WaterMeshes.GridVertexAt | src/water/water_mesh.cpp:79-90 | vertex k is column k mod (n+1) of row k div (n+1) |
| WaterMeshes.GridIndexCount | src/water/water_mesh.cpp:93-109 | 6*n*n indices, none unless n is positive |
| WaterMeshes.QuadsAt | src/water/water_mesh.cpp:95-108 | within a row, cell x occupies indices 6x to 6x+5 |
| WaterMeshes.QuadRowsAt | src/water/water_mesh.cpp:93-108 | cell (x, z) occupies indices 6(z*n+x) to 6(z*n+x)+5 |
| WaterMeshes.GridCellAt | src/water/water_mesh.cpp:93-108 | cell (x, z) emits i0, i2, i1, i1, i2, i3 with i0 = z*(n+1)+x, i1 = i0+1, i2 = i0+n+1, i3 = i2+1, cells in z-major order |
| WaterMeshes.GridIndexBound | src/water/water_mesh.cpp:97-100 | every emitted index names an emitted vertex |
| WaterMeshes.QuadCorners | src/water/water_mesh.cpp:97-107 | a cell's indices name its corners: i0 is (x, z), i2 is (x, z+1), i1 is (x+1, z), i3 is (x+1, z+1) |
| WaterMeshes.Drawn | src/water/water_mesh.cpp:27-39 | one band gives count waves, the i-th being that band's i-th draw |
| WaterMeshes.RandomWaves | src/water/water_mesh.cpp:27-63 | exactly 2*(waveCount/2) waves, so an odd count loses one; the swells come first, then the ripples, each in draw order |
| WaterMeshes.WaterMesh.constructor | src/water/water_mesh.cpp:7-11 | the given material and waves, and the grid of generateWaterMesh(n) |
| WaterMeshes.WaterMesh.Random | src/water/water_mesh.cpp:13-65 | the grid of generateWaterMesh(n) and the waves RandomWaves gives |
| WaterMeshes.WaterMesh.GenerateWaterMesh | src/water/water_mesh.cpp:74-110 | both buffers depend on n alone (they are cleared first), so a second call changes nothing |
| WaterMeshes.WaterMesh.GenerateVertices | src/water/water_mesh.cpp:76-91 | the vertex buffer becomes the grid rows z = 0..n of columns x = 0..n |
| WaterMeshes.WaterMesh.GenerateIndices | src/water/water_mesh.cpp:77-109 | the index buffer becomes the cells row by row, six indices each |
| TextureManagers.Texture.constructor | Include/core/texture.hpp:17-21 | a new texture has id, width, height and channel count 0 |
| TextureManagers.Without | Include/core/texture_manager.hpp:22-26 | the path is gone, every other entry is as it was, and an absent path changes nothing |
| TextureManagers.WithoutUndoesInsert | Include/core/texture_manager.hpp:16-26 | caching a new path and then unloading it gives back the old cache |
| TextureManagers.TextureManager.constructor | Include/core/texture_manager.hpp:34 | the cache starts empty |
| TextureManagers.TextureManager.Load | Include/core/texture_manager.hpp:10-20 | a cached path returns the cached texture and leaves the map; a new path caches and returns a fresh texture, whether or not its file loads; the keys gain the path |
| TextureManagers.TextureManager.Unload | Include/core/texture_manager.hpp:22-26 | the cache becomes Without(old cache, path) |
| TextureManagers.TextureManager.Clear | Include/core/texture_manager.hpp:28-31 | the cache is empty |
| TextureManagers.LoadTwice | Include/core/texture_manager.hpp:10-20 | two loads of one path return the same texture, and the cache gains at most that entry |
| TextureManagers.ReloadAfterUnload | Include/core/texture_manager.hpp:10-26 | after an unload, loading the path again makes a new texture |
| PbrRenderModules.Capped | src/pbr/pbr_render_module.cpp:36-37 | the first cap elements, or all when shorter: a prefix of that length |
| PbrRenderModules.LitLightsConcat | src/pbr/pbr_render_module.cpp:28-49 | lit entities contribute in entity order: the lights of a concatenation are concatenated |
| PbrRenderModules.LitLightsMembers | src/pbr/pbr_render_module.cpp:30-31 | an entry is gathered (before the cap) iff some entity with both a point light and a transform produces it |
| PbrRenderModules.LitLightsStep | src/pbr/pbr_render_module.cpp:30-48 | an entity without both components adds nothing; one with both adds exactly its own entry |
| PbrRenderModules.GatheredCount | src/pbr/pbr_render_module.cpp:27-51 | at most 64 lights, exactly min(lit count, 64), a prefix of the lit entities' entries |
| PbrRenderModules.GatheredFull | src/pbr/pbr_render_module.cpp:36-37 | entities after the 64th light change nothing |
| PbrRenderModules.GatherLights | src/pbr/pbr_render_module.cpp:27-49 | the loop with continue and break gathers exactly Gathered(entities), and lightCount is their number |
| PbrRenderModules.UploadObjectUniforms | src/pbr/pbr_render_module.cpp:13-57 | nothing without a PBR component; a point-light entity is unlit and gathers nothing; any other is lit with the gathered lights and numPointLights = their number |
| PbrRenderModules.FindMaterial | src/pbr/pbr_render_module.cpp:78-85 | the position of the first material whose id matches, or none when no material matches |
| PbrRenderModules.SelectMaterial | src/pbr/pbr_render_module.cpp:71-86 | a selected position is inside the list |
| PbrRenderModules.SelectMaterialSpec | src/pbr/pbr_render_module.cpp:72-86 | -1 with a non-empty list picks position 0; otherwise position k is picked iff it is the first with the id; nothing is picked iff the list is empty or no id matches (for -1 as well) |
| PbrRenderModules.Surface | src/pbr/pbr_render_module.cpp:66-94 | white and no texture without a material; the material's albedo and albedo map with one |
| PbrRenderModules.UploadMeshUniforms | src/pbr/pbr_render_module.cpp:59-114 | nothing without a PBR component; otherwise the selected material's albedo, its ignore-lighting flag and its albedo map, with useAlbedoMap true iff it has one |
| Maths.Clamp | src/animations/animation.cpp:71 | the result lies in [lo, hi], is x inside, lo below and hi above |
| Maths.Trunc | src/animations/animation.cpp:180 | truncation toward zero: the integer at or below a non-negative x, at or above a negative one |
| Maths.FmodRange | src/animations/animation.cpp:180 | fmod of a non-negative x by a positive y lies in [0, y), and is x when x < y |
| Maths.FmodNegative | src/animations/animation.cpp:180 | fmod of a negative x by a positive y lies in (-y, 0] |

## Left out

- Floating point: every time, weight and factor is a `real`, with no rounding. The glm matrix, quaternion and vector operations are free constructors, not arithmetic.
- File and GPU I/O are outside the model.
  - Assimp's `ReadFile` is replaced by an `ImportedScene` value, and the texture file by nothing (`Texture::loadFromFile` is stb_image and GL code).
  - The error messages printed on load failure are not modelled.
  - VAO/VBO setup (`setupMesh`), uniform locations and the uniform name strings are left out.
  - `texture->bind(0)` becomes the uniform value's `albedoMap` field.
- `GetShaders`, `Draw`, the destructors and `createModelFromFile` only wrap GL or allocation; they are left out.
- Randomness: the random-wave constructor's draws are the parameter `draw(band, i)`, and the float positions of the water vertices become their grid coordinates. `size` is dropped.
- WaterMeshes.WaterMesh.Random: takes the default `WaterMaterial` as an argument, because its `sunDir` default is a normalised float vector. It requires `waveCount >= 0`, since `waves.reserve` throws on a negative count.
- WaterMeshes.GridCellAt and WaterMeshes.GridIndexBound: indices are unbounded integers. The source computes `i0 = z * (n + 1) + x` (src/water/water_mesh.cpp:97, with `n`, `z` and `x` of type `int` at lines 93 and 95) in signed 32-bit `int` before it is stored in an `unsigned int`. That product overflows, which is undefined behaviour, once n*n + n - 2 exceeds 2^31 - 1, that is for n >= 46341. The model's indices do not overflow. The count 6*n*n (WaterMeshes.GridIndexCount) is unaffected.
- AnimatedModels.AnimatedModel.LoadModel: the `directory` string is not kept.
- AnimatedModels.AnimatedModel.ProcessNode and LoadBones keep only `boneCount == |boneInfo|`. The full table invariant is proved separately about `ProcessAll` (`ProcessAllKeepsValid`), and `LoadModel` states it.
- `BoneInfo.finalTransformation` is never written by the core and is not modelled.
- AnimatedModels.AnimatedModel.LoadVertices: its "no influences" ensures assumes that a new vertex's slots start at zero. `AnimatedVertex` (Include/animations/animated_mesh.hpp:8-15, mirrored as `AnimatedModels.AnimatedVertex`) gives `inBoneIDs` and `inBoneWeights` (lines 13-14) no initialiser. `loadVertices` declares `AnimatedVertex vertex;` (src/animations/animated_model.cpp:123) and never sets them. So the `inBoneWeights[i] == 0.0f` test of `addBoneData` (line 108) reads whatever glm's default constructor leaves, which is zero only before GLM 0.9.9 or with `GLM_FORCE_CTOR_INIT`. AnimatedModels.Pack, AnimatedModels.Weigh and AnimatedModels.LoadAll rest on the same assumption, as what they state about the vertices of a freshly loaded mesh.
- The `AnimationComponent` and `PointLightComponent` declarations are not part of this model. Their fields are the ones the core reads: `animation`/`playing`/`currentTime`, and `color`/`intensity`/`constant`/`linear`/`quadratic`.
- Animations.Bone.GetScaleFactor requires `nextTime != lastTime`, because the source divides by their difference without a guard. Bone.Update requires every track it reads to be `Sampleable`: a bracket below n-1 whose two timestamps differ. Otherwise `keys[i+1]` is out of range.
- Animations.Animation.Update requires a non-zero duration when there are bones, because fmod by zero gives NaN. It also requires every bone met on the walk to have an id inside the palette, because `at()` throws.
- Animations.Animation.constructor: on a load failure the source leaves `duration` and `ticksPerSecond` uninitialised. Here they are 0. The root node's `transformation` (`AssimpNodeData`, Include/animations/animation.hpp:62) is default-constructed too, so it is uninitialised from GLM 0.9.9 on. Here it is the identity. No bones means `Update` does nothing, so neither value is ever read.
- AnimationsSystems.AnimationsSystem.Update requires that no two entities share a component, clip, palette, bone or model. It also requires every playing entity's clip to satisfy Animation.Update's requirements, with a palette of at least `boneInfo.size()` slots, because `at()` throws. Entities that share a model or clip are not covered.
- AnimationsSystems.AnimationsSystem.Step: its frame names the whole entity footprint. It does not state what happens to the bones' cached local transforms, which `CalculateBoneTransform` itself does state.
- PbrRenderModules.UploadMeshUniforms requires a successful selection when the entity has a PBR component, because line 97 dereferences the selection whether or not one was found.
- The iteration order of the ECS entity sets is taken as the order of the sequence passed in.
