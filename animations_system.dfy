/**
 * The per-frame animation system (src/animations/animations_system.cpp).
 *
 * For each entity that has both an animation component and an animated-model
 * component, the system either unbinds the model's palette (nothing to play),
 * or it advances the component clock, lets the animation pose its palette,
 * right-multiplies the first |boneInfo| palette slots by the model's offset
 * matrices in place, and binds the model to that very palette.
 */
module AnimationsSystems {
  import opened Wrappers
  import opened Maths
  import opened Animations
  import opened AnimatedModels

  /**
   * AnimationComponent: the clip an entity plays, whether it is playing, and
   * its own clock. The system only ever writes the clock.
   */
  class AnimationComponent {
    const animation: Animation?
    const playing: bool
    var currentTime: real

    constructor (animation: Animation?, playing: bool)
      ensures this.animation == animation && this.playing == playing && currentTime == 0.0
    {
      this.animation := animation;
      this.playing := playing;
      currentTime := 0.0;
    }
  }

  /** AnimatedModelComponent: the (shared) skinned model an entity draws. */
  class AnimatedModelComponent {
    const model: AnimatedModel

    constructor (model: AnimatedModel)
      ensures this.model == model
    {
      this.model := model;
    }
  }

  /** The components an entity has; either may be missing. */
  datatype Entity = Entity(animation: Option<AnimationComponent>, animatedModel: Option<AnimatedModelComponent>)

  /** The palette after the offset pass: slot i < |info| is multiplied on the right by info[i]'s offset, the rest is kept. */
  function WithOffsets(p: seq<Mat4>, info: seq<BoneInfo>): (r: seq<Mat4>)
    requires |info| <= |p|
  {
    seq(|p|, i requires 0 <= i < |p| => if i < |info| then Mul(p[i], info[i].offsetMatrix) else p[i])
  }

  /**
   * The offset pass keeps the palette's length and rewrites only the first
   * |info| slots; applied to its own result it multiplies each of those slots
   * by the offset once more, so the pass is not meant to run twice on one
   * pose.
   */
  lemma WithOffsetsSlots(p: seq<Mat4>, info: seq<BoneInfo>)
    requires |info| <= |p|
    ensures |WithOffsets(p, info)| == |p|
    ensures forall i :: |info| <= i < |p| ==> WithOffsets(p, info)[i] == p[i]
    ensures forall i :: 0 <= i < |info| ==>
      WithOffsets(WithOffsets(p, info), info)[i] == Mul(Mul(p[i], info[i].offsetMatrix), info[i].offsetMatrix)
  {
  }

  /** The entity has both components, so the system looks at it at all. */
  predicate Both(e: Entity)
  {
    e.animation.Some? && e.animatedModel.Some?
  }

  /** The entity has both components and a clip that is playing. */
  predicate Plays(e: Entity)
  {
    Both(e) && e.animation.value.animation != null && e.animation.value.playing
  }

  /** Everything a frame may touch of one entity: its clock component, clip, palette, bones and model. */
  ghost function Footprint(e: Entity): set<object>
  {
    (if e.animation.Some? then
       {e.animation.value as object} +
       (if e.animation.value.animation != null then
          var a := e.animation.value.animation;
          {a as object, a.finalBoneMatrices} + a.bones.Values
        else {})
     else {}) +
    (if e.animatedModel.Some? then {e.animatedModel.value.model as object} else {})
  }

  /** The objects of an entity that has both components, one by one. */
  lemma FootprintHas(e: Entity)
    requires Both(e)
    ensures e.animation.value in Footprint(e) && e.animatedModel.value.model in Footprint(e)
    ensures e.animation.value.animation != null ==>
      var a := e.animation.value.animation;
      a in Footprint(e) && a.finalBoneMatrices in Footprint(e) && a.bones.Values <= Footprint(e)
  {
  }

  /** Everything a frame over `entities` may touch. */
  ghost function Footprints(entities: seq<Entity>): set<object>
  {
    set j, o | 0 <= j < |entities| && o in Footprint(entities[j]) :: o
  }

  lemma FootprintWithin(entities: seq<Entity>, i: nat)
    requires i < |entities|
    ensures Footprint(entities[i]) <= Footprints(entities)
  {
  }

  /** No two entities share a component, a clip, a palette, a bone or a model. */
  ghost predicate FootprintsApart(entities: seq<Entity>)
  {
    forall j, k :: 0 <= j < k < |entities| ==> Footprint(entities[j]) !! Footprint(entities[k])
  }

  /** The model of an entity, when it has one. */
  function ModelReads(e: Entity): set<object>
  {
    if e.animatedModel.Some? then {e.animatedModel.value.model} else {}
  }

  /** The palette array an entity's model draws with. */
  function ModelPalette(e: Entity): set<object>
    reads ModelReads(e)
  {
    if e.animatedModel.Some? then {e.animatedModel.value.model.finalBoneMatrices} else {}
  }

  /** The models of `entities`. */
  ghost function Models(entities: seq<Entity>): set<object>
  {
    set j, o | 0 <= j < |entities| && o in ModelReads(entities[j]) :: o
  }

  /** What Animation::Update needs, and the palette slots the offset pass reaches. */
  ghost predicate ReadyToPlay(deltaTime: real, a: Animation, model: AnimatedModel)
    reads a, model
  {
    && a.Consistent()
    && a.CanUpdate(deltaTime)
    && |model.boneInfo| <= a.finalBoneMatrices.Length
  }

  /** The component clock after a playing frame: advanced, and wrapped only for a positive duration. */
  function AdvanceClock(currentTime: real, deltaTime: real, duration: real): (t: real)
  {
    var advanced := currentTime + deltaTime;
    if duration > 0.0 then Fmod(advanced, duration) else advanced
  }

  /** With a positive duration and a non-negative advanced time the clock stays in [0, duration). */
  lemma AdvanceClockRange(currentTime: real, deltaTime: real, duration: real)
    requires duration > 0.0 && currentTime + deltaTime >= 0.0
    ensures 0.0 <= AdvanceClock(currentTime, deltaTime, duration) < duration
  {
    FmodRange(currentTime + deltaTime, duration);
  }

  /** The palette a playing frame leaves: Animation::Update's pose, then the offset pass. */
  ghost function PlayedPalette(a: Animation, before: seq<Mat4>, time: real, info: seq<BoneInfo>): seq<Mat4>
    requires |before| == a.finalBoneMatrices.Length && |info| <= |before|
  {
    var posed := if |a.bones| == 0 then before else a.Walk(before, a.rootNode, Identity, a.Poses(time));
    WithOffsets(posed, info)
  }

  /** The state of an entity with both components, as values. */
  datatype Snapshot = Snapshot(
    compTime: real,
    animTime: real,
    palette: seq<Mat4>,
    meshes: seq<MeshData>,
    mapping: map<string, int>,
    boneCount: int,
    info: seq<BoneInfo>,
    defaults: seq<Mat4>,
    bound: array<Mat4>)

  /**
   * The component clock, the clip clock and palette (when there is a clip),
   * the model's meshes, bone table and default palette, and the palette
   * array the model draws with.
   */
  ghost function Snap(e: Entity): (s: Snapshot)
    requires Both(e)
    reads Footprint(e)
    ensures s.bound == e.animatedModel.value.model.finalBoneMatrices
  {
    var comp := e.animation.value;
    var model := e.animatedModel.value.model;
    var a := comp.animation;
    Snapshot(
      comp.currentTime,
      if a != null then a.currentTime else 0.0,
      if a != null then a.finalBoneMatrices[..] else [],
      model.meshes,
      model.boneMapping,
      model.boneCount,
      model.boneInfo,
      model.defaultBoneMatrices,
      model.finalBoneMatrices)
  }

  /**
   * What one frame does to an entity with both components, from state `s`
   * to state `t`. The model's meshes, bone table and default palette never
   * change. With nothing to play the clocks and the clip's palette stay
   * (and the model draws with its default palette again, see Rebound). Otherwise the component clock advances
   * (wrapping for a positive duration), the clip clock advances by
   * Animation::Update's rule, the clip's palette holds the walk's pose times
   * the model's offsets, and the model draws with that very array.
   */
  ghost predicate Outcome(deltaTime: real, e: Entity, s: Snapshot, t: Snapshot)
    requires Both(e)
  {
    && t.meshes == s.meshes && t.mapping == s.mapping && t.boneCount == s.boneCount
    && t.info == s.info && t.defaults == s.defaults
    && if !Plays(e) then
      && t.compTime == s.compTime
      && t.animTime == s.animTime
      && t.palette == s.palette
    else
      var a := e.animation.value.animation;
      && t.compTime == AdvanceClock(s.compTime, deltaTime, a.duration)
      && (if |a.bones| == 0 then t.animTime == s.animTime
          else a.duration != 0.0 && t.animTime == ClipClock(s.animTime, deltaTime, a.ticksPerSecond, a.duration))
      && |s.info| <= |s.palette| == a.finalBoneMatrices.Length
      && t.palette == PlayedPalette(a, s.palette, t.animTime, s.info)
      && t.bound == a.finalBoneMatrices
  }

  /** The palette arrays the models of `entities` draw with. */
  ghost function ModelPalettes(entities: seq<Entity>): set<object>
    reads Models(entities)
  {
    set j, o | 0 <= j < |entities| && o in ModelPalette(entities[j]) :: o
  }

  /** UnbindAnimation's effect: the model draws with a new copy of its default palette. */
  twostate predicate Rebound(e: Entity)
    requires e.animatedModel.Some?
    reads ModelReads(e), ModelPalette(e)
  {
    var model := e.animatedModel.value.model;
    fresh(model.finalBoneMatrices) && model.finalBoneMatrices[..] == model.defaultBoneMatrices
  }

  /**
   * The entity loop after its first i turns: each of those entities is as
   * Outcome says (an entity without both components as it was).
   */
  twostate predicate Done(deltaTime: real, entities: seq<Entity>, i: nat)
    requires i <= |entities|
    reads Footprints(entities), Models(entities), ModelPalettes(entities)
  {
    forall j :: 0 <= j < i ==>
      if Both(entities[j]) then
        && Outcome(deltaTime, entities[j], old(Snap(entities[j])), Snap(entities[j]))
        && (!Plays(entities[j]) ==> Rebound(entities[j]) && ModelPalette(entities[j]) !! Footprints(entities))
      else unchanged(Footprint(entities[j]))
  }

  /** The entity loop before turn i: the entities from i on are as they were. */
  twostate predicate Pending(entities: seq<Entity>, i: nat)
    requires i <= |entities|
    reads Footprints(entities)
  {
    forall j :: i <= j < |entities| ==> unchanged(Footprint(entities[j]))
  }

  /**
   * The offset loop of AnimationsSystem::Update: slot i of the palette, for
   * each i below |info|, is multiplied on the right by info[i]'s offset.
   */
  method ApplyOffsets(palette: array<Mat4>, info: seq<BoneInfo>)
    requires |info| <= palette.Length
    modifies palette
    ensures palette[..] == WithOffsets(old(palette[..]), info)
  {
    var i := 0;
    while i < |info|
      invariant 0 <= i <= |info|
      invariant forall k :: 0 <= k < i ==> palette[k] == Mul(old(palette[k]), info[k].offsetMatrix)
      invariant forall k :: i <= k < palette.Length ==> palette[k] == old(palette[k])
    {
      palette[i] := Mul(palette[i], info[i].offsetMatrix);
      i := i + 1;
    }
  }

  class AnimationsSystem {
    constructor ()
    {
    }

    /**
     * AnimationsSystem::Update: one Step per entity with both components, in
     * the order of the entity set; the others are left alone. Entities are
     * taken not to share components, clips or models, and every entity that
     * plays is ready to play.
     */
    static method Update(deltaTime: real, entities: seq<Entity>)
      requires forall j, o :: 0 <= j < |entities| && o in Footprint(entities[j]) ==> allocated(o)
      requires FootprintsApart(entities)
      requires forall j :: 0 <= j < |entities| && Plays(entities[j]) ==>
        ReadyToPlay(deltaTime, entities[j].animation.value.animation, entities[j].animatedModel.value.model)
      modifies Footprints(entities)
      ensures forall j :: 0 <= j < |entities| && Both(entities[j]) ==> Outcome(deltaTime, entities[j], old(Snap(entities[j])), Snap(entities[j]))
      ensures forall j :: 0 <= j < |entities| && Both(entities[j]) && !Plays(entities[j]) ==> Rebound(entities[j])
      ensures forall j :: 0 <= j < |entities| && !Both(entities[j]) ==> unchanged(Footprint(entities[j]))
    {
      var i := 0;
      while i < |entities|
        invariant 0 <= i <= |entities|
        invariant Done(deltaTime, entities, i)
        invariant Pending(entities, i)
      {
        var e := entities[i];
        if Both(e) {
          FootprintWithin(entities, i);
          assert Snap(e) == old(Snap(e));
          label Before:
          StepAt(deltaTime, entities, i);
          forall j | 0 <= j < i
            ensures Both(entities[j]) ==> Snap(entities[j]) == old@Before(Snap(entities[j]))
            ensures Both(entities[j]) && !Plays(entities[j]) ==> Rebound(entities[j])
          {
            FootprintWithin(entities, j);
          }
        }
        i := i + 1;
      }
    }

    /**
     * One turn of the entity loop: Step on entity i, which leaves every
     * other entity as it was.
     */
    static method StepAt(deltaTime: real, entities: seq<Entity>, i: nat)
      requires i < |entities| && Both(entities[i])
      requires Plays(entities[i]) ==>
        ReadyToPlay(deltaTime, entities[i].animation.value.animation, entities[i].animatedModel.value.model)
      requires forall j, o :: 0 <= j < |entities| && o in Footprint(entities[j]) ==> allocated(o)
      requires FootprintsApart(entities)
      modifies Footprint(entities[i])
      ensures Outcome(deltaTime, entities[i], old(Snap(entities[i])), Snap(entities[i]))
      ensures !Plays(entities[i]) ==> Rebound(entities[i]) && ModelPalette(entities[i]) !! Footprints(entities)
      ensures forall j :: 0 <= j < |entities| && j != i ==> unchanged(Footprint(entities[j]))
    {
      var e := entities[i];
      FootprintHas(e);
      forall j | 0 <= j < |entities| && j != i
        ensures Footprint(entities[j]) !! Footprint(e)
      {
        if j < i {
          assert Footprint(entities[j]) !! Footprint(e);
        } else {
          assert Footprint(e) !! Footprint(entities[j]);
        }
      }
      Step(deltaTime, e);
    }

    /**
     * The body of the entity loop of AnimationsSystem::Update for an entity
     * that has both components.
     */
    static method Step(deltaTime: real, e: Entity)
      requires Both(e)
      requires Plays(e) ==> ReadyToPlay(deltaTime, e.animation.value.animation, e.animatedModel.value.model)
      modifies Footprint(e)
      ensures Outcome(deltaTime, e, old(Snap(e)), Snap(e))
      ensures !Plays(e) ==> Rebound(e)
    {
      FootprintHas(e);
      var animComp := e.animation.value;
      var model := e.animatedModel.value.model;
      if animComp.animation == null || !animComp.playing {
        model.UnbindAnimation();
        return;
      }
      Play(deltaTime, e);
    }

    /** Lines 35-50 of AnimationsSystem::Update: the frame of an entity whose clip plays. */
    static method Play(deltaTime: real, e: Entity)
      requires Plays(e)
      requires ReadyToPlay(deltaTime, e.animation.value.animation, e.animatedModel.value.model)
      modifies e.animation.value, e.animatedModel.value.model`finalBoneMatrices
      modifies e.animation.value.animation, e.animation.value.animation.finalBoneMatrices
      modifies e.animation.value.animation.bones.Values
      ensures Outcome(deltaTime, e, old(Snap(e)), Snap(e))
    {
      var animComp := e.animation.value;
      var model := e.animatedModel.value.model;
      var animation := animComp.animation;
      ghost var before := animation.finalBoneMatrices[..];
      ghost var info := model.boneInfo;
      ghost var clock := AdvanceClock(animComp.currentTime, deltaTime, animation.duration);

      animComp.currentTime := animComp.currentTime + deltaTime;
      var duration := animation.duration;
      if duration > 0.0 {
        animComp.currentTime := Fmod(animComp.currentTime, duration);
      }
      assert animComp.currentTime == clock;

      animation.Update(deltaTime);
      var palette := animation.finalBoneMatrices;
      assert model.boneInfo == info;
      ghost var posed := if |animation.bones| == 0 then before
        else animation.Walk(before, animation.rootNode, Identity, animation.Poses(animation.currentTime));
      assert palette[..] == posed;

      ApplyOffsets(palette, model.boneInfo);
      assert palette[..] == PlayedPalette(animation, before, animation.currentTime, info);
      model.BindAnimation(palette);
    }
  }
}
