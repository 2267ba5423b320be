/**
 * Keyframe sampling and pose evaluation (src/animations/animation.cpp).
 *
 * A `Bone` holds the keyframe tracks of one animated node and caches the local
 * transform it last sampled. An `Animation` holds the bones kept from a clip,
 * the node hierarchy, the clip clock and the palette of global transforms it
 * overwrites in place on every update.
 */
module Animations {
  import opened Wrappers
  import opened Maths
  import opened Scene

  type KeyPosition = Key<Vec3>
  type KeyRotation = Key<Quat>
  type KeyScale = Key<Vec3>

  // ---------------------------------------------------------------------------
  // Bracket search over keyframe timestamps
  // ---------------------------------------------------------------------------

  /**
   * `i` is where the forward scan of GetPositionIndex (and its two twins) stops
   * for time `t`: no earlier key i' has `t < keys[i'+1].timeStamp`, and either
   * `i` itself is such a key (and i <= n-2) or the scan ran off the end and
   * `i == n-1` (which is -1 for an empty track).
   */
  ghost predicate IsBracket<V>(keys: seq<Key<V>>, t: real, i: int)
  {
    && (forall j :: 1 <= j <= i && j < |keys| ==> keys[j].timeStamp <= t)
    && ((0 <= i < |keys| - 1 && t < keys[i + 1].timeStamp) || i == |keys| - 1)
  }

  /** The scan from position `i` onward, as a function. */
  function BracketFrom<V>(keys: seq<Key<V>>, t: real, i: nat): (r: int)
    requires forall j :: 1 <= j <= i && j < |keys| ==> keys[j].timeStamp <= t
    ensures IsBracket(keys, t, r)
    decreases |keys| - i
  {
    if i + 1 >= |keys| then |keys| - 1
    else if t < keys[i + 1].timeStamp then i
    else BracketFrom(keys, t, i + 1)
  }

  /** The index the bracket search returns for time `t`. */
  function FirstBracket<V>(keys: seq<Key<V>>, t: real): (i: int)
    ensures IsBracket(keys, t, i)
  {
    BracketFrom(keys, t, 0)
  }

  /** At most one index satisfies `IsBracket`, so the search result is determined. */
  lemma BracketUnique<V>(keys: seq<Key<V>>, t: real, i: int, k: int)
    requires IsBracket(keys, t, i) && IsBracket(keys, t, k)
    ensures i == k
  {
  }

  /**
   * The loop shared by GetPositionIndex, GetRotationIndex and GetScaleIndex:
   * the smallest i in [0, n-2] with t < keys[i+1].timeStamp, or n-1 if none.
   */
  method ScanBracket<V>(keys: seq<Key<V>>, t: real) returns (i: int)
    ensures IsBracket(keys, t, i)
    ensures |keys| >= 1 ==> 0 <= i <= |keys| - 1
    ensures |keys| == 0 ==> i == -1
  {
    var n := |keys|;
    i := 0;
    while i < n - 1
      invariant 0 <= i
      invariant n >= 1 ==> i <= n - 1
      invariant forall j :: 1 <= j <= i && j < n ==> keys[j].timeStamp <= t
    {
      if t < keys[i + 1].timeStamp {
        return;
      }
      i := i + 1;
    }
    i := n - 1;
  }

  /** Timestamps strictly increase along the track. */
  ghost predicate StrictlyIncreasing<V>(keys: seq<Key<V>>)
  {
    forall i, j :: 0 <= i < j < |keys| ==> keys[i].timeStamp < keys[j].timeStamp
  }

  /** Timestamps never decrease along the track (what the importer is assumed to deliver). */
  ghost predicate NonDecreasing<V>(keys: seq<Key<V>>)
  {
    forall i, j :: 0 <= i < j < |keys| ==> keys[i].timeStamp <= keys[j].timeStamp
  }

  /**
   * For a sorted track of two or more keys, the search finds a segment (result
   * below n-1, so `keys[i+1]` exists) exactly when `t` is below the last
   * timestamp. At or after the last key it returns n-1 and the caller's
   * `keys[i+1]` would read past the end.
   */
  lemma BracketFoundIffBeforeLastKey<V>(keys: seq<Key<V>>, t: real)
    requires |keys| >= 2 && NonDecreasing(keys)
    ensures FirstBracket(keys, t) < |keys| - 1 <==> t < keys[|keys| - 1].timeStamp
  {
    var i := FirstBracket(keys, t);
    var n := |keys|;
    if i < n - 1 {
      assert t < keys[i + 1].timeStamp;
      assert keys[i + 1].timeStamp <= keys[n - 1].timeStamp;
    } else {
      assert keys[n - 1].timeStamp <= t;
    }
  }

  /**
   * On a strictly increasing track, a time inside segment [keys[i], keys[i+1])
   * selects exactly that segment; a time before the first key selects segment 0.
   */
  lemma BracketOfSegment<V>(keys: seq<Key<V>>, t: real, i: int)
    requires StrictlyIncreasing(keys) && 0 <= i < |keys| - 1
    requires (i == 0 || keys[i].timeStamp <= t) && t < keys[i + 1].timeStamp
    ensures FirstBracket(keys, t) == i
  {
    forall j | 1 <= j <= i && j < |keys|
      ensures keys[j].timeStamp <= t
    {
      if j < i {
        assert keys[j].timeStamp < keys[i].timeStamp;
      }
    }
    assert IsBracket(keys, t, i);
    BracketUnique(keys, t, i, FirstBracket(keys, t));
  }

  // ---------------------------------------------------------------------------
  // Bone: one animated node's tracks and its sampled local transform
  // ---------------------------------------------------------------------------

  /**
   * A track can be sampled at `t` by Bone::Update: with two or more keys the
   * search must find a segment (so that `keys[i+1]` is in range) whose two
   * timestamps differ (GetScaleFactor divides by their difference). With zero
   * or one key the track is not read at all.
   */
  predicate Sampleable<V>(keys: seq<Key<V>>, t: real)
  {
    |keys| <= 1 ||
    (var i := FirstBracket(keys, t);
     i < |keys| - 1 && keys[i].timeStamp != keys[i + 1].timeStamp)
  }

  /** A strictly increasing track of two or more keys can be sampled at any time below its last key. */
  lemma SampleableBeforeLastKey<V>(keys: seq<Key<V>>, t: real)
    requires |keys| >= 2 && StrictlyIncreasing(keys)
    requires t < keys[|keys| - 1].timeStamp
    ensures Sampleable(keys, t)
  {
    BracketFoundIffBeforeLastKey(keys, t);
  }

  class Bone {
    const name: string
    const id: int
    const positions: seq<KeyPosition>
    const rotations: seq<KeyRotation>
    const scales: seq<KeyScale>
    var localTransform: Mat4

    /** Bone::Bone: copies the three key tracks of the channel. */
    constructor (name: string, id: int, channel: NodeAnim)
      ensures this.name == name && this.id == id
      ensures positions == channel.positionKeys
      ensures rotations == channel.rotationKeys
      ensures scales == channel.scalingKeys
    {
      this.name := name;
      this.id := id;
      positions := channel.positionKeys;
      rotations := channel.rotationKeys;
      scales := channel.scalingKeys;
      localTransform := Identity;
    }

    method GetPositionIndex(animationTime: real) returns (index: int)
      ensures IsBracket(positions, animationTime, index)
    {
      index := ScanBracket(positions, animationTime);
    }

    method GetRotationIndex(animationTime: real) returns (index: int)
      ensures IsBracket(rotations, animationTime, index)
    {
      index := ScanBracket(rotations, animationTime);
    }

    method GetScaleIndex(animationTime: real) returns (index: int)
      ensures IsBracket(scales, animationTime, index)
    {
      index := ScanBracket(scales, animationTime);
    }

    /**
     * The interpolation factor: how far `animationTime` lies from `lastTime`
     * towards `nextTime`, clamped to [0, 1]. The source has no guard for a
     * zero-length segment, so one is excluded here.
     */
    static function GetScaleFactor(lastTime: real, nextTime: real, animationTime: real): (factor: real)
      requires nextTime != lastTime
      ensures 0.0 <= factor <= 1.0
      ensures lastTime <= animationTime <= nextTime ==>
                factor == (animationTime - lastTime) / (nextTime - lastTime)
      ensures lastTime < nextTime && animationTime <= lastTime ==> factor == 0.0
      ensures lastTime < nextTime && nextTime <= animationTime ==> factor == 1.0
    {
      var ratio := (animationTime - lastTime) / (nextTime - lastTime);
      RatioBounds(lastTime, nextTime, animationTime);
      Clamp(ratio, 0.0, 1.0)
    }

    /** All three tracks can be sampled at `t`. */
    predicate CanSample(t: real)
    {
      Sampleable(positions, t) && Sampleable(rotations, t) && Sampleable(scales, t)
    }

    /** The translation part of the local transform at `t`. */
    function Translation(t: real): Mat4
      requires Sampleable(positions, t)
    {
      if |positions| > 1 then
        var i := FirstBracket(positions, t);
        var f := GetScaleFactor(positions[i].timeStamp, positions[i + 1].timeStamp, t);
        Translate(Mix(positions[i].value, positions[i + 1].value, f))
      else
        Identity
    }

    /** The rotation part of the local transform at `t`. */
    function Rotation(t: real): Mat4
      requires Sampleable(rotations, t)
    {
      if |rotations| > 1 then
        var i := FirstBracket(rotations, t);
        var f := GetScaleFactor(rotations[i].timeStamp, rotations[i + 1].timeStamp, t);
        RotateQ(Normalize(Slerp(rotations[i].value, rotations[i + 1].value, f)))
      else
        Identity
    }

    /** The scale part of the local transform at `t`. */
    function Scaling(t: real): Mat4
      requires Sampleable(scales, t)
    {
      if |scales| > 1 then
        var i := FirstBracket(scales, t);
        var f := GetScaleFactor(scales[i].timeStamp, scales[i + 1].timeStamp, t);
        ScaleV(Mix(scales[i].value, scales[i + 1].value, f))
      else
        Identity
    }

    /** The local transform sampled at `t`: translation * rotation * scale. */
    function LocalPose(t: real): Mat4
      requires CanSample(t)
    {
      Mul(Mul(Translation(t), Rotation(t)), Scaling(t))
    }

    /** The cached local transform holds the pose sampled at `t`. */
    predicate Posed(t: real)
      reads this
    {
      CanSample(t) && localTransform == LocalPose(t)
    }

    /** Bone::Update: samples the three tracks and caches their product. */
    method Update(animationTime: real)
      requires CanSample(animationTime)
      modifies this`localTransform
      ensures Posed(animationTime)
    {
      var translation, rotation, scale := Identity, Identity, Identity;

      if |positions| > 1 {
        var p0Index := GetPositionIndex(animationTime);
        BracketUnique(positions, animationTime, p0Index, FirstBracket(positions, animationTime));
        var p1Index := p0Index + 1;
        var factor := GetScaleFactor(positions[p0Index].timeStamp, positions[p1Index].timeStamp, animationTime);
        translation := Translate(Mix(positions[p0Index].value, positions[p1Index].value, factor));
      }

      if |rotations| > 1 {
        var r0Index := GetRotationIndex(animationTime);
        BracketUnique(rotations, animationTime, r0Index, FirstBracket(rotations, animationTime));
        var r1Index := r0Index + 1;
        var factor := GetScaleFactor(rotations[r0Index].timeStamp, rotations[r1Index].timeStamp, animationTime);
        rotation := RotateQ(Normalize(Slerp(rotations[r0Index].value, rotations[r1Index].value, factor)));
      }

      if |scales| > 1 {
        var s0Index := GetScaleIndex(animationTime);
        BracketUnique(scales, animationTime, s0Index, FirstBracket(scales, animationTime));
        var s1Index := s0Index + 1;
        var factor := GetScaleFactor(scales[s0Index].timeStamp, scales[s1Index].timeStamp, animationTime);
        scale := ScaleV(Mix(scales[s0Index].value, scales[s1Index].value, factor));
      }

      localTransform := Mul(Mul(translation, rotation), scale);
    }
  }

  /** The unclamped ratio lies in [0, 1] when the time lies inside the segment. */
  lemma RatioBounds(lastTime: real, nextTime: real, t: real)
    requires nextTime != lastTime
    ensures lastTime <= t <= nextTime ==> 0.0 <= (t - lastTime) / (nextTime - lastTime) <= 1.0
    ensures lastTime < nextTime && t <= lastTime ==> (t - lastTime) / (nextTime - lastTime) <= 0.0
    ensures lastTime < nextTime && nextTime <= t ==> 1.0 <= (t - lastTime) / (nextTime - lastTime)
  {
    var d := nextTime - lastTime;
    var r := (t - lastTime) / d;
    assert r * d == t - lastTime;
    if lastTime < nextTime {
      if r < 0.0 && lastTime <= t {
        ScaleLt(r, 0.0, d);
      }
      if 1.0 < r && t <= nextTime {
        ScaleLt(1.0, r, d);
      }
      if 0.0 < r && t <= lastTime {
        ScaleLt(0.0, r, d);
      }
      if r < 1.0 && nextTime <= t {
        ScaleLt(r, 1.0, d);
      }
    }
  }

  /**
   * A track with zero or one key contributes the identity: a single key is not
   * held, whatever its value and whatever the time.
   */
  lemma ShortTracksStayIdentity(bone: Bone, t: real)
    requires bone.CanSample(t)
    ensures |bone.positions| <= 1 ==> bone.Translation(t) == Identity
    ensures |bone.rotations| <= 1 ==> bone.Rotation(t) == Identity
    ensures |bone.scales| <= 1 ==> bone.Scaling(t) == Identity
    ensures bone.LocalPose(t) == Mul(Mul(bone.Translation(t), bone.Rotation(t)), bone.Scaling(t))
  {
  }

  /**
   * Two position keys (t0, p0) and (t1, p1) with t0 < t1: halfway between them
   * the translation is that of mix(p0, p1, 0.5).
   */
  lemma TwoKeyMidpoint(bone: Bone, t: real)
    requires |bone.positions| == 2
    requires bone.positions[0].timeStamp < bone.positions[1].timeStamp
    requires t == (bone.positions[0].timeStamp + bone.positions[1].timeStamp) / 2.0
    ensures Sampleable(bone.positions, t)
    ensures bone.Translation(t) == Translate(Mix(bone.positions[0].value, bone.positions[1].value, 0.5))
  {
    var ps := bone.positions;
    BracketOfSegment(ps, t, 0);
    var d := ps[1].timeStamp - ps[0].timeStamp;
    assert t - ps[0].timeStamp == d / 2.0;
    assert (t - ps[0].timeStamp) / d == 0.5;
  }

  /**
   * On a strictly increasing track, a time inside segment i samples between
   * keys i and i+1 with factor (t - t_i) / (t_{i+1} - t_i).
   */
  lemma TranslationInSegment(bone: Bone, t: real, i: int)
    requires StrictlyIncreasing(bone.positions) && 0 <= i < |bone.positions| - 1
    requires bone.positions[i].timeStamp <= t < bone.positions[i + 1].timeStamp
    ensures Sampleable(bone.positions, t)
    ensures bone.Translation(t) ==
      Translate(Mix(bone.positions[i].value, bone.positions[i + 1].value,
        (t - bone.positions[i].timeStamp) / (bone.positions[i + 1].timeStamp - bone.positions[i].timeStamp)))
  {
    BracketOfSegment(bone.positions, t, i);
  }

  /**
   * The same for the rotation track: inside segment i the rotation is the
   * normalised slerp of keys i and i+1 with factor (t - t_i) / (t_{i+1} - t_i).
   */
  lemma RotationInSegment(bone: Bone, t: real, i: int)
    requires StrictlyIncreasing(bone.rotations) && 0 <= i < |bone.rotations| - 1
    requires bone.rotations[i].timeStamp <= t < bone.rotations[i + 1].timeStamp
    ensures Sampleable(bone.rotations, t)
    ensures bone.Rotation(t) ==
      RotateQ(Normalize(Slerp(bone.rotations[i].value, bone.rotations[i + 1].value,
        (t - bone.rotations[i].timeStamp) / (bone.rotations[i + 1].timeStamp - bone.rotations[i].timeStamp))))
  {
    BracketOfSegment(bone.rotations, t, i);
  }

  /**
   * The same for the scale track: inside segment i the scale mixes keys i and
   * i+1 with factor (t - t_i) / (t_{i+1} - t_i).
   */
  lemma ScalingInSegment(bone: Bone, t: real, i: int)
    requires StrictlyIncreasing(bone.scales) && 0 <= i < |bone.scales| - 1
    requires bone.scales[i].timeStamp <= t < bone.scales[i + 1].timeStamp
    ensures Sampleable(bone.scales, t)
    ensures bone.Scaling(t) ==
      ScaleV(Mix(bone.scales[i].value, bone.scales[i + 1].value,
        (t - bone.scales[i].timeStamp) / (bone.scales[i + 1].timeStamp - bone.scales[i].timeStamp)))
  {
    BracketOfSegment(bone.scales, t, i);
  }

  // ---------------------------------------------------------------------------
  // Node hierarchy
  // ---------------------------------------------------------------------------

  /** AssimpNodeData: the engine's copy of a scene node (column-major transform). */
  datatype Node = Node(name: string, transformation: Mat4, children: seq<Node>)

  /** The copy ReadHierarchyData makes of an imported node. */
  function Mirror(src: SceneNode): Node
    decreases src
  {
    Node(src.name, Transpose(src.transformation), MirrorAll(src.children))
  }

  /** The copies of a sequence of imported nodes, in order. */
  function MirrorAll(cs: seq<SceneNode>): (ds: seq<Node>)
    ensures |ds| == |cs|
    ensures forall i :: 0 <= i < |cs| ==> ds[i] == Mirror(cs[i])
    decreases cs
  {
    if cs == [] then [] else MirrorAll(cs[..|cs| - 1]) + [Mirror(cs[|cs| - 1])]
  }

  /** The node names of a subtree in preorder. */
  function Preorder(node: Node): seq<string>
    decreases node
  {
    [node.name] + PreorderAll(node.children)
  }

  function PreorderAll(cs: seq<Node>): seq<string>
    decreases cs
  {
    if cs == [] then [] else PreorderAll(cs[..|cs| - 1]) + Preorder(cs[|cs| - 1])
  }

  /** The node names of an imported subtree in preorder. */
  function ScenePreorder(node: SceneNode): seq<string>
    decreases node
  {
    [node.name] + ScenePreorderAll(node.children)
  }

  function ScenePreorderAll(cs: seq<SceneNode>): seq<string>
    decreases cs
  {
    if cs == [] then [] else ScenePreorderAll(cs[..|cs| - 1]) + ScenePreorder(cs[|cs| - 1])
  }

  /** The copied hierarchy has the same nodes, with the same names, in the same order. */
  lemma {:induction false} MirrorKeepsPreorder(src: SceneNode)
    ensures Preorder(Mirror(src)) == ScenePreorder(src)
    decreases src
  {
    MirrorAllKeepsPreorder(src.children);
  }

  lemma {:induction false} MirrorAllKeepsPreorder(cs: seq<SceneNode>)
    ensures PreorderAll(MirrorAll(cs)) == ScenePreorderAll(cs)
    decreases cs
  {
    if cs != [] {
      var init := cs[..|cs| - 1];
      MirrorAllKeepsPreorder(init);
      MirrorKeepsPreorder(cs[|cs| - 1]);
      var ds := MirrorAll(cs);
      assert ds[..|ds| - 1] == MirrorAll(init);
    }
  }

  /** All names occurring in a subtree. */
  ghost function Names(node: Node): set<string>
    decreases node
  {
    {node.name} + NamesAll(node.children)
  }

  ghost function NamesAll(cs: seq<Node>): set<string>
    decreases cs
  {
    if cs == [] then {} else NamesAll(cs[..|cs| - 1]) + Names(cs[|cs| - 1])
  }

  /** One step of the walk: a node's name and the global transform computed for it. */
  datatype Visit = Visit(name: string, global: Mat4)

  // ---------------------------------------------------------------------------
  // Animation: bones kept from a clip, the clock and the palette
  // ---------------------------------------------------------------------------

  /** The animation file loads: a scene with a root node and at least one clip. */
  predicate Loads(scene: Option<ImportedScene>)
  {
    scene.Some? && scene.value.rootNode.Some? && |scene.value.animations| > 0
  }

  /**
   * Channel filtering: for each node name that the model's bone table knows,
   * the index of the FIRST channel animating it (emplace never overwrites).
   */
  function ChannelTable(channels: seq<NodeAnim>, mapping: map<string, int>): (table: map<string, nat>)
    ensures forall name :: name in table ==>
              name in mapping && table[name] < |channels| && channels[table[name]].nodeName == name
    decreases |channels|
  {
    if channels == [] then map[]
    else
      var table := ChannelTable(channels[..|channels| - 1], mapping);
      var c := channels[|channels| - 1];
      if c.nodeName in mapping && c.nodeName !in table then table[c.nodeName := |channels| - 1]
      else table
  }

  /** Extending the channel prefix by channel i. */
  lemma ChannelTableStep(channels: seq<NodeAnim>, mapping: map<string, int>, i: int)
    requires 0 <= i < |channels|
    ensures ChannelTable(channels[..i + 1], mapping) ==
      var table := ChannelTable(channels[..i], mapping);
      var name := channels[i].nodeName;
      if name in mapping && name !in table then table[name := i] else table
  {
    assert channels[..i + 1][..i] == channels[..i];
  }

  /** A name is kept exactly when the model knows it and some channel animates it. */
  lemma {:induction false} ChannelTableKept(channels: seq<NodeAnim>, mapping: map<string, int>, name: string)
    ensures name in ChannelTable(channels, mapping) <==>
              name in mapping && exists i :: 0 <= i < |channels| && channels[i].nodeName == name
    decreases |channels|
  {
    if channels != [] {
      var init := channels[..|channels| - 1];
      var last := |channels| - 1;
      ChannelTableKept(init, mapping, name);
      if name in mapping && channels[last].nodeName == name {
        assert exists i :: 0 <= i < |channels| && channels[i].nodeName == name;
      }
      if exists i :: 0 <= i < |channels| && channels[i].nodeName == name {
        var i :| 0 <= i < |channels| && channels[i].nodeName == name;
        if i < last {
          assert init[i].nodeName == name;
        }
      }
    }
  }

  /** The channel kept for a name is the first one with that name. */
  lemma {:induction false} ChannelTableFirst(channels: seq<NodeAnim>, mapping: map<string, int>, name: string)
    requires name in ChannelTable(channels, mapping)
    ensures forall j :: 0 <= j < ChannelTable(channels, mapping)[name] ==> channels[j].nodeName != name
    decreases |channels|
  {
    var init := channels[..|channels| - 1];
    var table := ChannelTable(channels, mapping);
    var before := ChannelTable(init, mapping);
    if name in before {
      ChannelTableFirst(init, mapping, name);
      assert table[name] == before[name];
      forall j | 0 <= j < table[name]
        ensures channels[j].nodeName != name
      {
        assert init[j] == channels[j];
      }
    } else {
      ChannelTableKept(init, mapping, name);
      assert table[name] == |channels| - 1;
      forall j | 0 <= j < table[name]
        ensures channels[j].nodeName != name
      {
        assert init[j] == channels[j];
      }
    }
  }

  /**
   * A name is kept exactly when the model knows it and some channel animates
   * it; the channel kept for it is the first one with that name.
   */
  lemma ChannelTableFirstWins(channels: seq<NodeAnim>, mapping: map<string, int>, name: string)
    ensures name in ChannelTable(channels, mapping) <==>
              name in mapping && exists i :: 0 <= i < |channels| && channels[i].nodeName == name
    ensures name in ChannelTable(channels, mapping) ==>
              forall j :: 0 <= j < ChannelTable(channels, mapping)[name] ==> channels[j].nodeName != name
  {
    ChannelTableKept(channels, mapping, name);
    if name in ChannelTable(channels, mapping) {
      ChannelTableFirst(channels, mapping, name);
    }
  }

  /** The bone made for `name` carries the model's id and the tracks of `channel`. */
  ghost predicate BoneFrom(b: Bone, name: string, id: int, channel: NodeAnim)
  {
    b.name == name && b.id == id &&
    b.positions == channel.positionKeys && b.rotations == channel.rotationKeys &&
    b.scales == channel.scalingKeys
  }

  /**
   * The clip clock of Animation::Update after deltaTime seconds from `time`:
   * advanced by deltaTime * ticksPerSecond, then wrapped with fmod by the
   * duration.
   */
  function ClipClock(time: real, deltaTime: real, ticksPerSecond: real, duration: real): real
    requires duration != 0.0
  {
    Fmod(time + deltaTime * ticksPerSecond, duration)
  }

  /**
   * A clip playing forward with a positive duration keeps its clock in
   * [0, duration), and a step that stays inside the clip does not wrap.
   */
  lemma ClipClockRange(time: real, deltaTime: real, ticksPerSecond: real, duration: real)
    requires 0.0 < duration && 0.0 <= time + deltaTime * ticksPerSecond
    ensures 0.0 <= ClipClock(time, deltaTime, ticksPerSecond, duration) < duration
    ensures time + deltaTime * ticksPerSecond < duration ==>
      ClipClock(time, deltaTime, ticksPerSecond, duration) == time + deltaTime * ticksPerSecond
  {
    FmodRange(time + deltaTime * ticksPerSecond, duration);
  }

  /**
   * A two-tick clip at one tick per second, advanced by 1.5 s and then by
   * 1.0 s from the start, wraps once and its clock reads 0.5.
   */
  lemma ClipClockLoops()
    ensures ClipClock(0.0, 1.5, 1.0, 2.0) == 1.5
    ensures ClipClock(ClipClock(0.0, 1.5, 1.0, 2.0), 1.0, 1.0, 2.0) == 0.5
  {
    FmodRange(1.5, 2.0);
    assert Trunc(2.5 / 2.0) == 1;
  }

  /**
   * The bones kept are exactly the names of `table`, each built from the
   * channel the table picks for it and carrying the model's id.
   */
  ghost predicate KeptFrom(kept: map<string, Bone>, table: map<string, nat>, channels: seq<NodeAnim>,
                           mapping: map<string, int>)
  {
    forall name ::
      && (name in kept <==> name in table)
      && (name in kept ==> name in table && name in mapping && table[name] < |channels| &&
                           BoneFrom(kept[name], name, mapping[name], channels[table[name]]))
  }

  class Animation {
    const duration: real
    const ticksPerSecond: real
    const bones: map<string, Bone>
    const rootNode: Node
    const finalBoneMatrices: array<Mat4>
    var currentTime: real

    /** Every bone is stored under its own name. */
    ghost predicate Consistent()
    {
      forall name :: name in bones ==> bones[name].name == name
    }

    /**
     * Animation::Animation. On a load failure the clip keeps no bones and an
     * empty palette (duration and rate are left uninitialised by the source;
     * here they are 0). Otherwise the bones are the channels ChannelTable
     * keeps, each under the model's id, and the palette has one identity
     * matrix per bone.
     */
    constructor (scene: Option<ImportedScene>, modelBoneMapping: map<string, int>)
      ensures Consistent()
      ensures currentTime == 0.0
      ensures fresh(finalBoneMatrices)
      ensures forall b :: b in bones.Values ==> fresh(b)
      ensures finalBoneMatrices.Length == |bones|
      ensures forall i :: 0 <= i < finalBoneMatrices.Length ==> finalBoneMatrices[i] == Identity
      ensures !Loads(scene) ==> bones == map[] && rootNode == Node("", Identity, [])
      ensures Loads(scene) ==>
        var clip := scene.value.animations[0];
        var table := ChannelTable(clip.channels, modelBoneMapping);
        && duration == clip.duration
        && ticksPerSecond == (if clip.ticksPerSecond != 0.0 then clip.ticksPerSecond else 25.0)
        && rootNode == Mirror(scene.value.rootNode.value)
        && KeptFrom(bones, table, clip.channels, modelBoneMapping)
    {
      if !Loads(scene) {
        duration := 0.0;
        ticksPerSecond := 0.0;
        bones := map[];
        rootNode := Node("", Identity, []);
        finalBoneMatrices := new Mat4[0];
      } else {
        var clip := scene.value.animations[0];
        duration := clip.duration;
        ticksPerSecond := if clip.ticksPerSecond != 0.0 then clip.ticksPerSecond else 25.0;

        var root := ReadHierarchyData(scene.value.rootNode.value);
        rootNode := root;

        var kept := KeepChannels(clip.channels, modelBoneMapping);
        bones := kept;
        finalBoneMatrices := new Mat4[|kept|](_ => Identity);
      }
      currentTime := 0.0;
    }

    /**
     * The channel loop of the constructor: one Bone per channel whose node the
     * model knows, with the model's id; a later channel for the same name is
     * dropped.
     */
    static method KeepChannels(channels: seq<NodeAnim>, modelBoneMapping: map<string, int>)
      returns (kept: map<string, Bone>)
      ensures KeptFrom(kept, ChannelTable(channels, modelBoneMapping), channels, modelBoneMapping)
      ensures forall b :: b in kept.Values ==> fresh(b)
    {
      kept := map[];
      ghost var table: map<string, nat> := map[];
      var i := 0;
      while i < |channels|
        invariant 0 <= i <= |channels|
        invariant table == ChannelTable(channels[..i], modelBoneMapping)
        invariant KeptFrom(kept, table, channels, modelBoneMapping)
        invariant forall name :: name in kept ==> fresh(kept[name])
      {
        var channel := channels[i];
        var boneName := channel.nodeName;
        ChannelTableStep(channels, modelBoneMapping, i);
        if boneName in modelBoneMapping && boneName !in kept {
          var boneID := modelBoneMapping[boneName];
          var bone := new Bone(boneName, boneID, channel);
          kept := kept[boneName := bone];
          table := table[boneName := i];
        }
        i := i + 1;
      }
      assert channels[..|channels|] == channels;
    }

    /** Animation::ReadHierarchyData: copies the imported tree, children in order. */
    static method ReadHierarchyData(src: SceneNode) returns (dest: Node)
      ensures dest == Mirror(src)
      decreases src
    {
      var children: seq<Node> := [];
      var i := 0;
      while i < |src.children|
        invariant 0 <= i <= |src.children|
        invariant children == MirrorAll(src.children[..i])
      {
        var child := ReadHierarchyData(src.children[i]);
        assert src.children[..i + 1][..i] == src.children[..i];
        children := children + [child];
        i := i + 1;
      }
      assert src.children[..|src.children|] == src.children;
      dest := Node(src.name, Transpose(src.transformation), children);
    }

    /**
     * The walk from `node` can run at time `t`: every node named in `bones`
     * can be sampled and has an id inside the palette (`at()` throws
     * otherwise).
     */
    predicate CanEvaluate(node: Node, t: real)
      decreases node
    {
      && (node.name in bones ==>
            bones[node.name].CanSample(t) && 0 <= bones[node.name].id < finalBoneMatrices.Length)
      && forall i :: 0 <= i < |node.children| ==> CanEvaluate(node.children[i], t)
    }

    /** The clip clock after deltaTime seconds. */
    function NextTime(deltaTime: real): real
      requires duration != 0.0
      reads this
    {
      ClipClock(currentTime, deltaTime, ticksPerSecond, duration)
    }

    /** Update can run: a clip with bones has a non-zero duration and the walk can run at the next clock. */
    predicate CanUpdate(deltaTime: real)
      reads this
    {
      |bones| > 0 ==> duration != 0.0 && CanEvaluate(rootNode, NextTime(deltaTime))
    }

    /** The pose of every bone that can be sampled at `t`, by name. */
    function Poses(t: real): map<string, Mat4>
    {
      map name | name in bones && bones[name].CanSample(t) :: bones[name].LocalPose(t)
    }

    /** The local transform the walk uses for `node`: its bone's sampled pose, else its static one. */
    function NodeLocal(node: Node, poses: map<string, Mat4>): Mat4
    {
      if node.name in poses then poses[node.name] else node.transformation
    }

    /** The walk in visiting order: a node, then each child's subtree in order. */
    function Visits(node: Node, parent: Mat4, poses: map<string, Mat4>): seq<Visit>
      decreases node
    {
      var global := Mul(parent, NodeLocal(node, poses));
      [Visit(node.name, global)] + VisitsAll(node.children, global, poses)
    }

    function VisitsAll(cs: seq<Node>, parent: Mat4, poses: map<string, Mat4>): seq<Visit>
      decreases cs
    {
      if cs == [] then []
      else VisitsAll(cs[..|cs| - 1], parent, poses) + Visits(cs[|cs| - 1], parent, poses)
    }

    /** The palette slot a visit writes, if its node is a bone whose id fits a palette of `size`. */
    predicate Writes(v: Visit, k: int, size: int)
    {
      v.name in bones && bones[v.name].id == k && 0 <= k < size
    }

    /** The palette after the write of one visited node: its bone's slot, if it has one in range, gets `global`. */
    function Write(p: seq<Mat4>, name: string, global: Mat4): (q: seq<Mat4>)
      ensures |q| == |p|
    {
      if name in bones && 0 <= bones[name].id < |p| then p[bones[name].id := global] else p
    }

    /** The palette after performing the writes of `vs` in order. */
    function Apply(p: seq<Mat4>, vs: seq<Visit>): (q: seq<Mat4>)
      ensures |q| == |p|
      decreases |vs|
    {
      if vs == [] then p
      else
        var v := vs[|vs| - 1];
        Write(Apply(p, vs[..|vs| - 1]), v.name, v.global)
    }

    /**
     * The palette after the walk from `node`, computed the way the recursion
     * runs: the node's own write, then each child's walk in order.
     */
    function Walk(p: seq<Mat4>, node: Node, parent: Mat4, poses: map<string, Mat4>): (q: seq<Mat4>)
      ensures |q| == |p|
      decreases node
    {
      var global := Mul(parent, NodeLocal(node, poses));
      WalkAll(Write(p, node.name, global), node.children, global, poses)
    }

    function WalkAll(p: seq<Mat4>, cs: seq<Node>, parent: Mat4, poses: map<string, Mat4>): (q: seq<Mat4>)
      ensures |q| == |p|
      decreases cs
    {
      if cs == [] then p
      else Walk(WalkAll(p, cs[..|cs| - 1], parent, poses), cs[|cs| - 1], parent, poses)
    }

    /** Writing two runs of visits one after the other. */
    lemma {:induction false} ApplyAppend(p: seq<Mat4>, a: seq<Visit>, b: seq<Visit>)
      ensures Apply(p, a + b) == Apply(Apply(p, a), b)
      decreases |b|
    {
      if b != [] {
        var init := b[..|b| - 1];
        ApplyAppend(p, a, init);
        assert (a + b)[..|a + b| - 1] == a + init;
      } else {
        assert a + b == a;
      }
    }

    /** A slot that no visit writes keeps its value. */
    lemma {:induction false} ApplyUntouched(p: seq<Mat4>, vs: seq<Visit>, k: int)
      requires 0 <= k < |p|
      requires forall j :: 0 <= j < |vs| ==> !Writes(vs[j], k, |p|)
      ensures Apply(p, vs)[k] == p[k]
      decreases |vs|
    {
      if vs != [] {
        var init := vs[..|vs| - 1];
        assert forall j :: 0 <= j < |init| ==> init[j] == vs[j];
        ApplyUntouched(p, init, k);
        assert !Writes(vs[|vs| - 1], k, |p|);
      }
    }

    /** A slot ends up holding the global transform of the last visit that writes it. */
    lemma {:induction false} ApplyLastWrite(p: seq<Mat4>, vs: seq<Visit>, k: int, j: int)
      requires 0 <= j < |vs| && Writes(vs[j], k, |p|)
      requires forall j' :: j < j' < |vs| ==> !Writes(vs[j'], k, |p|)
      ensures Apply(p, vs)[k] == vs[j].global
      decreases |vs|
    {
      var init := vs[..|vs| - 1];
      if j < |vs| - 1 {
        assert forall j' :: j < j' < |init| ==> init[j'] == vs[j'];
        ApplyLastWrite(p, init, k, j);
        assert !Writes(vs[|vs| - 1], k, |p|);
      }
    }

    /** The recursive walk writes the palette exactly as its visits, applied in order, do. */
    lemma {:induction false} WalkIsApply(p: seq<Mat4>, node: Node, parent: Mat4, poses: map<string, Mat4>)
      ensures Walk(p, node, parent, poses) == Apply(p, Visits(node, parent, poses))
      decreases node
    {
      var global := Mul(parent, NodeLocal(node, poses));
      var own := [Visit(node.name, global)];
      assert own[..0] == [];
      assert Apply(p, own) == Write(p, node.name, global);
      WalkAllIsApply(Write(p, node.name, global), node.children, global, poses);
      ApplyAppend(p, own, VisitsAll(node.children, global, poses));
    }

    lemma {:induction false} WalkAllIsApply(p: seq<Mat4>, cs: seq<Node>, parent: Mat4, poses: map<string, Mat4>)
      ensures WalkAll(p, cs, parent, poses) == Apply(p, VisitsAll(cs, parent, poses))
      decreases cs
    {
      if cs != [] {
        var init := cs[..|cs| - 1];
        var last := cs[|cs| - 1];
        WalkAllIsApply(p, init, parent, poses);
        WalkIsApply(WalkAll(p, init, parent, poses), last, parent, poses);
        ApplyAppend(p, VisitsAll(init, parent, poses), Visits(last, parent, poses));
      }
    }

    /** The names visited are those of the subtree, in preorder. */
    lemma {:induction false} VisitsArePreorder(node: Node, parent: Mat4, poses: map<string, Mat4>)
      ensures |Visits(node, parent, poses)| == |Preorder(node)|
      ensures forall i :: 0 <= i < |Preorder(node)| ==> Visits(node, parent, poses)[i].name == Preorder(node)[i]
      decreases node
    {
      var global := Mul(parent, NodeLocal(node, poses));
      VisitsAllArePreorder(node.children, global, poses);
    }

    lemma {:induction false} VisitsAllArePreorder(cs: seq<Node>, parent: Mat4, poses: map<string, Mat4>)
      ensures |VisitsAll(cs, parent, poses)| == |PreorderAll(cs)|
      ensures forall i :: 0 <= i < |PreorderAll(cs)| ==> VisitsAll(cs, parent, poses)[i].name == PreorderAll(cs)[i]
      decreases cs
    {
      if cs != [] {
        VisitsAllArePreorder(cs[..|cs| - 1], parent, poses);
        VisitsArePreorder(cs[|cs| - 1], parent, poses);
      }
    }

    /**
     * The two-bone chain: for a root with a single leaf child, the child's
     * global transform is the root's global transform times the child's local
     * transform, and that is what the child's palette slot receives.
     */
    lemma ChildGlobalIsParentTimesLocal(root: Node, p: seq<Mat4>, poses: map<string, Mat4>)
      requires |root.children| == 1 && root.children[0].children == []
      requires root.children[0].name in bones
      requires 0 <= bones[root.children[0].name].id < |p|
      ensures var child := root.children[0];
              var rootGlobal := Mul(Identity, NodeLocal(root, poses));
              Apply(p, Visits(root, Identity, poses))[bones[child.name].id] == Mul(rootGlobal, NodeLocal(child, poses))
    {
      var child := root.children[0];
      var rootGlobal := Mul(Identity, NodeLocal(root, poses));
      var childGlobal := Mul(rootGlobal, NodeLocal(child, poses));
      var vs := Visits(root, Identity, poses);
      assert root.children[..0] == [];
      assert VisitsAll(root.children, rootGlobal, poses) == VisitsAll([], rootGlobal, poses) + Visits(child, rootGlobal, poses);
      assert VisitsAll(child.children, childGlobal, poses) == [];
      assert vs == [Visit(root.name, rootGlobal), Visit(child.name, childGlobal)];
      ApplyLastWrite(p, vs, bones[child.name].id, 1);
    }

    /** Every bone named in `names` caches its pose sampled at `t`. */
    ghost predicate PosedOn(names: set<string>, t: real)
      reads bones.Values
    {
      forall name :: name in bones && name in names ==>
        bones[name].CanSample(t) && bones[name].localTransform == bones[name].LocalPose(t)
    }

    /** Every bone not named in `names` keeps the cached transform it had in the old state. */
    twostate predicate KeptOutside(names: set<string>)
      reads bones.Values
    {
      forall name :: name in bones && name !in names ==>
        bones[name].localTransform == old(bones[name].localTransform)
    }

    /**
     * Animation::CalculateBoneTransform: writes each visited bone's global
     * transform into its palette slot, in visiting order, and leaves every
     * other slot alone. Every bone met on the way caches its sampled pose;
     * bones not met keep their cache.
     */
    method CalculateBoneTransform(node: Node, parentTransform: Mat4)
      requires Consistent() && CanEvaluate(node, currentTime)
      modifies finalBoneMatrices, bones.Values
      ensures finalBoneMatrices[..] == Walk(old(finalBoneMatrices[..]), node, parentTransform, Poses(currentTime))
      ensures PosedOn(Names(node), currentTime)
      ensures KeptOutside(Names(node))
      decreases node, 1
    {
      ghost var t := currentTime;
      ghost var poses := Poses(t);
      var nodeName := node.name;
      var nodeTransform := node.transformation;

      if nodeName in bones {
        bones[nodeName].Update(currentTime);
        nodeTransform := bones[nodeName].localTransform;
      }

      var globalTransform := Mul(parentTransform, nodeTransform);
      assert nodeTransform == NodeLocal(node, poses);

      if nodeName in bones {
        var index := bones[nodeName].id;
        finalBoneMatrices[index] := globalTransform;
      }
      assert finalBoneMatrices[..] == Write(old(finalBoneMatrices[..]), nodeName, globalTransform);
      assert PosedOn({nodeName}, t);

      CalculateChildren(node, globalTransform);
      assert Names(node) == {nodeName} + NamesAll(node.children);
    }

    /** The children loop of CalculateBoneTransform: each child's subtree in turn, under `globalTransform`. */
    method CalculateChildren(node: Node, globalTransform: Mat4)
      requires Consistent() && CanEvaluate(node, currentTime)
      modifies finalBoneMatrices, bones.Values
      ensures finalBoneMatrices[..] == WalkAll(old(finalBoneMatrices[..]), node.children, globalTransform, Poses(currentTime))
      ensures PosedOn(NamesAll(node.children), currentTime)
      ensures KeptOutside(NamesAll(node.children))
      decreases node, 0
    {
      ghost var t := currentTime;
      ghost var poses := Poses(t);
      ghost var start := finalBoneMatrices[..];
      var children := node.children;
      ghost var seen: set<string> := {};
      assert children[..0] == [];
      var i := 0;
      while i < |children|
        invariant 0 <= i <= |children|
        invariant seen == NamesAll(children[..i])
        invariant finalBoneMatrices[..] == WalkAll(start, children[..i], globalTransform, poses)
        invariant PosedOn(seen, t)
        invariant KeptOutside(seen)
      {
        CalculateBoneTransform(children[i], globalTransform);
        assert currentTime == t;
        assert children[..i + 1][..i] == children[..i];
        seen := seen + Names(children[i]);
        i := i + 1;
      }
      assert children[..|children|] == children;
    }

    /**
     * Animation::Update: nothing happens for a clip without bones. Otherwise
     * the clip clock advances by deltaTime * ticksPerSecond, wraps with fmod
     * by the duration, and the walk from the root rewrites the palette. The
     * source's fmod by a zero duration would give NaN, so it is excluded.
     */
    method Update(deltaTime: real)
      requires Consistent() && CanUpdate(deltaTime)
      modifies this`currentTime, finalBoneMatrices, bones.Values
      ensures |bones| == 0 ==> currentTime == old(currentTime) && finalBoneMatrices[..] == old(finalBoneMatrices[..])
      ensures |bones| > 0 ==>
        && currentTime == old(NextTime(deltaTime))
        && finalBoneMatrices[..] == Walk(old(finalBoneMatrices[..]), rootNode, Identity, Poses(currentTime))
        && PosedOn(Names(rootNode), currentTime)
      ensures KeptOutside(Names(rootNode))
    {
      if |bones| == 0 {
        return;
      }
      currentTime := currentTime + deltaTime * ticksPerSecond;
      currentTime := Fmod(currentTime, duration);
      CalculateBoneTransform(rootNode, Identity);
    }
  }
}
