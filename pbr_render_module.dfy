/**
 * What the PBR lighting module (src/pbr/pbr_render_module.cpp) sends to its
 * shader for one entity: the point lights of the scene, capped at 64, unless
 * the entity is itself a light, and the material picked by a mesh's material
 * id. The GL uniform calls become the fields of a value that the functions
 * and methods here return.
 */
module PbrRenderModules {
  import opened Wrappers
  import opened Maths
  import opened TextureManagers

  /** The size of the shader's pointLights array. */
  const MaxPointLights: int := 64

  /** The material id that asks for the entity's first material. */
  const AnyMaterial: int := -1

  /** The albedo used while no material is selected. */
  const White: Vec3 := Vec3(1.0, 1.0, 1.0)

  /** PBRMaterial as pbr_render_module.cpp uses it: an id, an albedo, an optional albedo map and a lighting switch. */
  datatype PBRMaterial = PBRMaterial(id: int, albedo: Vec3, albedoMap: Texture?, ignoreLighting: bool)

  /** PointLightComponent: the fields the light loop reads. */
  datatype PointLightComponent = PointLightComponent(
    color: Vec3,
    intensity: real,
    constant: real,
    linear: real,
    quadratic: real)

  /** TransformComponent. */
  datatype TransformComponent = TransformComponent(translation: Vec3, rotation: Vec3, scale: Vec3)

  /** The components of an entity this module looks at; the PBR component is its list of materials. */
  datatype RenderEntity = RenderEntity(
    materials: Option<seq<PBRMaterial>>,
    pointLight: Option<PointLightComponent>,
    transform: Option<TransformComponent>)

  /** The fields of one pointLights[i] entry. */
  datatype PointLightUniform = PointLightUniform(
    position: Vec3,
    color: Vec3,
    intensity: real,
    constant: real,
    linear: real,
    quadratic: real)

  /**
   * The uniforms UploadObjectUniforms sets: viewPos, ignoreLighting, the
   * pointLights entries in slot order, and numPointLights when it is set.
   */
  datatype ObjectUniforms = ObjectUniforms(
    viewPos: Vec3,
    ignoreLighting: bool,
    pointLights: seq<PointLightUniform>,
    numPointLights: Option<int>)

  /**
   * The uniforms UploadMeshUniforms sets: materialAlbedo, ignoreLighting
   * (set to true only when the material asks for it), the texture bound to
   * slot 0 and useAlbedoMap.
   */
  datatype MeshUniforms = MeshUniforms(
    materialAlbedo: Vec3,
    forcesIgnoreLighting: bool,
    albedoMap: Texture?,
    useAlbedoMap: bool)

  // ---------------------------------------------------------------------------
  // Light gathering
  // ---------------------------------------------------------------------------

  /** The light loop looks only at entities with both a point light and a transform. */
  predicate Lit(e: RenderEntity)
  {
    e.pointLight.Some? && e.transform.Some?
  }

  /** The pointLights entry for a lit entity: its translation and its light's parameters. */
  function LightOf(e: RenderEntity): PointLightUniform
    requires Lit(e)
  {
    var light := e.pointLight.value;
    PointLightUniform(e.transform.value.translation, light.color, light.intensity, light.constant, light.linear, light.quadratic)
  }

  /** The entries of all lit entities, in entity order and without a cap. */
  function LitLights(entities: seq<RenderEntity>): seq<PointLightUniform>
  {
    if |entities| == 0 then []
    else
      var last := entities[|entities| - 1];
      LitLights(entities[..|entities| - 1]) + if Lit(last) then [LightOf(last)] else []
  }

  /** The first `cap` elements of s, or all of s when it is shorter. */
  function Capped<T>(s: seq<T>, cap: nat): (r: seq<T>)
    ensures |r| == if |s| <= cap then |s| else cap
    ensures r <= s
  {
    if |s| <= cap then s else s[..cap]
  }

  /** The lights UploadObjectUniforms sends: the lit entities' entries, at most 64 of them. */
  function Gathered(entities: seq<RenderEntity>): seq<PointLightUniform>
  {
    Capped(LitLights(entities), MaxPointLights)
  }

  /** Lit entities contribute in order: the lights of a concatenation are concatenated. */
  lemma {:induction false} LitLightsConcat(a: seq<RenderEntity>, b: seq<RenderEntity>)
    ensures LitLights(a + b) == LitLights(a) + LitLights(b)
  {
    if |b| == 0 {
      assert a + b == a;
    } else {
      var init := b[..|b| - 1];
      assert (a + b)[..|a + b| - 1] == a + init;
      LitLightsConcat(a, init);
    }
  }

  /** An entry is gathered (before the cap) exactly when some lit entity produces it. */
  lemma {:induction false} LitLightsMembers(entities: seq<RenderEntity>, l: PointLightUniform)
    ensures l in LitLights(entities) <==> exists i :: 0 <= i < |entities| && Lit(entities[i]) && LightOf(entities[i]) == l
  {
    if |entities| > 0 {
      var init := entities[..|entities| - 1];
      LitLightsMembers(init, l);
      if exists i :: 0 <= i < |init| && Lit(init[i]) && LightOf(init[i]) == l {
        var i :| 0 <= i < |init| && Lit(init[i]) && LightOf(init[i]) == l;
        assert entities[i] == init[i];
      }
      if exists i :: 0 <= i < |entities| && Lit(entities[i]) && LightOf(entities[i]) == l {
        var i :| 0 <= i < |entities| && Lit(entities[i]) && LightOf(entities[i]) == l;
        if i < |init| {
          assert init[i] == entities[i];
        }
      }
    }
  }

  /** An entity that is not lit adds nothing; a lit one adds exactly its own entry. */
  lemma LitLightsStep(entities: seq<RenderEntity>, e: RenderEntity)
    ensures LitLights(entities + [e]) == LitLights(entities) + if Lit(e) then [LightOf(e)] else []
  {
    assert (entities + [e])[..|entities|] == entities;
  }

  /** numPointLights is the number of lit entities, capped at 64, and names a prefix of them. */
  lemma GatheredCount(entities: seq<RenderEntity>)
    ensures |Gathered(entities)| <= MaxPointLights
    ensures |Gathered(entities)| == if |LitLights(entities)| <= MaxPointLights then |LitLights(entities)| else MaxPointLights
    ensures Gathered(entities) <= LitLights(entities)
  {
  }

  /** Extra entities after a full set of 64 lights change nothing. */
  lemma GatheredFull(a: seq<RenderEntity>, b: seq<RenderEntity>)
    requires |LitLights(a)| >= MaxPointLights
    ensures Gathered(a + b) == Gathered(a)
  {
    LitLightsConcat(a, b);
    assert (LitLights(a) + LitLights(b))[..MaxPointLights] == LitLights(a)[..MaxPointLights];
  }

  /**
   * The light loop of UploadObjectUniforms: skip entities that are not lit,
   * stop at 64, otherwise fill the next pointLights slot.
   */
  method GatherLights(entities: seq<RenderEntity>) returns (lights: seq<PointLightUniform>, lightCount: int)
    ensures lights == Gathered(entities)
    ensures lightCount == |lights|
  {
    lights := [];
    lightCount := 0;
    var i := 0;
    while i < |entities|
      invariant 0 <= i <= |entities|
      invariant lights == LitLights(entities[..i])
      invariant lightCount == |lights| <= MaxPointLights
    {
      var entityLight := entities[i];
      LitLightsStep(entities[..i], entityLight);
      assert entities[..i + 1] == entities[..i] + [entityLight];
      if !Lit(entityLight) {
        i := i + 1;
        continue;
      }
      if lightCount >= MaxPointLights {
        GatheredFull(entities[..i], entities[i..]);
        assert entities[..i] + entities[i..] == entities;
        return;
      }
      lights := lights + [LightOf(entityLight)];
      lightCount := lightCount + 1;
      i := i + 1;
    }
    assert entities[..i] == entities;
  }

  /**
   * PBRLightingModule::UploadObjectUniforms for entity e, with the render
   * system's entities in iteration order. Nothing is set without a PBR
   * material component. An entity that is a point light itself is drawn
   * unlit and gathers no lights; any other gets the gathered lights and
   * their number.
   */
  method UploadObjectUniforms(cameraPosition: Vec3, e: RenderEntity, entities: seq<RenderEntity>) returns (u: Option<ObjectUniforms>)
    ensures e.materials.None? ==> u.None?
    ensures e.materials.Some? && e.pointLight.Some? ==> u == Some(ObjectUniforms(cameraPosition, true, [], None))
    ensures e.materials.Some? && e.pointLight.None? ==>
      u == Some(ObjectUniforms(cameraPosition, false, Gathered(entities), Some(|Gathered(entities)|)))
  {
    if e.materials.None? {
      return None;
    }
    if e.pointLight.None? {
      var lights, lightCount := GatherLights(entities);
      return Some(ObjectUniforms(cameraPosition, false, lights, Some(lightCount)));
    }
    return Some(ObjectUniforms(cameraPosition, true, [], None));
  }

  // ---------------------------------------------------------------------------
  // Material selection
  // ---------------------------------------------------------------------------

  /** The position of the first material whose id is materialID, if any (the loop with break). */
  function FindMaterial(materials: seq<PBRMaterial>, materialID: int): (r: Option<nat>)
    ensures r.Some? ==> r.value < |materials| && materials[r.value].id == materialID
    ensures r.Some? ==> forall j :: 0 <= j < r.value ==> materials[j].id != materialID
    ensures r.None? ==> forall j :: 0 <= j < |materials| ==> materials[j].id != materialID
  {
    if |materials| == 0 then None
    else if materials[0].id == materialID then Some(0)
    else match FindMaterial(materials[1..], materialID)
      case None => None
      case Some(k) => Some(k + 1)
  }

  /**
   * The material UploadMeshUniforms picks: the first one for id -1 when
   * there is one, otherwise the first with a matching id, otherwise none.
   */
  function SelectMaterial(materials: seq<PBRMaterial>, materialID: int): (r: Option<nat>)
    ensures r.Some? ==> r.value < |materials|
  {
    if materialID == AnyMaterial && |materials| > 0 then Some(0) else FindMaterial(materials, materialID)
  }

  /** The selection rule, both ways: which position is picked and when nothing is. */
  lemma SelectMaterialSpec(materials: seq<PBRMaterial>, materialID: int)
    ensures materialID == AnyMaterial && |materials| > 0 ==> SelectMaterial(materials, materialID) == Some(0)
    ensures !(materialID == AnyMaterial && |materials| > 0) ==>
      forall k :: 0 <= k < |materials| ==>
        (SelectMaterial(materials, materialID) == Some(k) <==>
          materials[k].id == materialID && forall j :: 0 <= j < k ==> materials[j].id != materialID)
    ensures SelectMaterial(materials, materialID).None? <==>
      (materialID != AnyMaterial || |materials| == 0) && forall j :: 0 <= j < |materials| ==> materials[j].id != materialID
  {
  }

  /** The albedo and texture lines 66-94 settle on: white and no texture unless a material is picked. */
  function Surface(material: Option<PBRMaterial>): (r: (Vec3, Texture?))
    ensures material.None? ==> r == (White, null)
    ensures material.Some? ==> r == (material.value.albedo, material.value.albedoMap)
  {
    match material
    case None => (White, null)
    case Some(m) => (m.albedo, if m.albedoMap != null then m.albedoMap else null)
  }

  /** The selected material, when there is one. */
  function Selected(materials: seq<PBRMaterial>, materialID: int): Option<PBRMaterial>
  {
    match SelectMaterial(materials, materialID)
    case None => None
    case Some(k) => Some(materials[k])
  }

  /**
   * PBRLightingModule::UploadMeshUniforms. The material is dereferenced
   * after the albedo is sent whether or not one was found, so an entity with
   * a PBR component must have a material that the id selects.
   */
  function UploadMeshUniforms(e: RenderEntity, materialID: int): (u: Option<MeshUniforms>)
    requires e.materials.Some? ==> SelectMaterial(e.materials.value, materialID).Some?
    ensures e.materials.None? <==> u.None?
    ensures u.Some? ==>
      var m := e.materials.value[SelectMaterial(e.materials.value, materialID).value];
      && u.value.materialAlbedo == m.albedo
      && u.value.forcesIgnoreLighting == m.ignoreLighting
      && u.value.albedoMap == m.albedoMap
      && (u.value.useAlbedoMap <==> m.albedoMap != null)
  {
    match e.materials
    case None => None
    case Some(materials) =>
      var material := Selected(materials, materialID);
      var (albedo, texture) := Surface(material);
      Some(MeshUniforms(albedo, material.value.ignoreLighting, texture, texture != null))
  }
}
