/**
 * The shader stages and shader groups a ray tracing pipeline is assembled
 * from. The host lists the shader paths ray generation first, then miss,
 * then any-hit, then closest-hit; it creates one stage per loaded module and
 * one group per ray generation shader, per miss shader and per closest-hit
 * shader (an any-hit shader, when present, joins the closest-hit shader of
 * the same index in one triangles hit group).
 */
module ShaderGroups {

  /** VK_SHADER_UNUSED_KHR */
  const ShaderUnused: nat := 0xFFFF_FFFF

  datatype GroupType = General | TrianglesHitGroup

  /** VkRayTracingShaderGroupCreateInfoKHR: stage indices, or ShaderUnused. */
  datatype ShaderGroup = ShaderGroup(
    groupType: GroupType,
    generalShader: nat,
    closestHitShader: nat,
    anyHitShader: nat,
    intersectionShader: nat)

  datatype StageKind = RayGen | Miss | AnyHit | ClosestHit

  /** VkPipelineShaderStageCreateInfo: the stage and the index of its module among the loaded modules. */
  datatype Stage = Stage(kind: StageKind, moduleIndex: nat)

  /** The number of shaders of each kind the pipeline was configured with. */
  datatype Counts = Counts(rayGen: nat, miss: nat, anyHit: nat, closestHit: nat)

  /**
   * The consistency check tryLoadPipeline performs first: any-hit shaders are
   * either absent or paired one to one with closest-hit shaders.
   */
  predicate CountsMatch(c: Counts)
  {
    c.anyHit == 0 || c.anyHit == c.closestHit
  }

  /** Module offsets into the concatenated shader path list. */
  function MissOffset(c: Counts): nat { c.rayGen }
  function AnyHitOffset(c: Counts): nat { c.rayGen + c.miss }
  function CHitOffset(c: Counts): nat { c.rayGen + c.miss + c.anyHit }

  /** Number of shader paths (and of modules when all of them load). */
  function NumModules(c: Counts): nat { c.rayGen + c.miss + c.anyHit + c.closestHit }

  /** Number of groups: one per ray generation, miss and closest-hit shader. */
  function GroupCount(c: Counts): nat { c.rayGen + c.miss + c.closestHit }

  /** Number of stages: any-hit stages are added only when any-hit shaders exist. */
  function StageCount(c: Counts): nat
  {
    c.rayGen + c.miss + (if c.anyHit > 0 then 2 * c.closestHit else c.closestHit)
  }

  /**
   * Stage k of the hit section: with any-hit shaders the stages alternate
   * any-hit, closest-hit for each index; without them only closest-hit stages.
   */
  function HitStageAt(withAnyHit: bool, anyHitOffset: nat, cHitOffset: nat, k: nat): Stage
  {
    if withAnyHit then
      if k % 2 == 0 then Stage(AnyHit, anyHitOffset + k / 2)
      else Stage(ClosestHit, cHitOffset + k / 2)
    else Stage(ClosestHit, cHitOffset + k)
  }

  /** Hit group i, whose stages start at stageBase in the stage list. */
  function HitGroupAt(withAnyHit: bool, stageBase: nat, i: nat): ShaderGroup
  {
    if withAnyHit then
      ShaderGroup(TrianglesHitGroup, ShaderUnused, stageBase + 2 * i + 1, stageBase + 2 * i, ShaderUnused)
    else
      ShaderGroup(TrianglesHitGroup, ShaderUnused, stageBase + i, ShaderUnused, ShaderUnused)
  }

  /** The stage at position s, in closed form. */
  function StageAt(c: Counts, s: nat): Stage
    requires s < StageCount(c)
  {
    if s < c.rayGen then Stage(RayGen, s)
    else if s < c.rayGen + c.miss then Stage(Miss, s)
    else HitStageAt(c.anyHit > 0, AnyHitOffset(c), CHitOffset(c), s - (c.rayGen + c.miss))
  }

  /** The group at position g, in closed form. */
  function GroupAt(c: Counts, g: nat): ShaderGroup
    requires g < GroupCount(c)
  {
    if g < c.rayGen + c.miss then
      ShaderGroup(General, g, ShaderUnused, ShaderUnused, ShaderUnused)
    else
      HitGroupAt(c.anyHit > 0, c.rayGen + c.miss, g - (c.rayGen + c.miss))
  }

  function StageLayout(c: Counts): (r: seq<Stage>)
    ensures |r| == StageCount(c)
    ensures forall s :: 0 <= s < |r| ==> r[s] == StageAt(c, s)
  {
    seq(StageCount(c), s requires 0 <= s < StageCount(c) => StageAt(c, s))
  }

  function GroupLayout(c: Counts): (r: seq<ShaderGroup>)
    ensures |r| == GroupCount(c)
    ensures forall g :: 0 <= g < |r| ==> r[g] == GroupAt(c, g)
  {
    seq(GroupCount(c), g requires 0 <= g < GroupCount(c) => GroupAt(c, g))
  }

  /**
   * The ray generation loop and the miss loop of tryLoadPipeline: one general
   * group per shader, each recording the index its stage is about to take
   * (stages.size()) before the stage is pushed.
   */
  method AddGeneralGroups(stages0: seq<Stage>, groups0: seq<ShaderGroup>, kind: StageKind, count: nat, moduleOffset: nat)
    returns (stages: seq<Stage>, groups: seq<ShaderGroup>)
    requires |stages0| == |groups0|
    ensures |stages| == |stages0| + count && stages[..|stages0|] == stages0
    ensures |groups| == |groups0| + count && groups[..|groups0|] == groups0
    ensures forall s :: |stages0| <= s < |stages| ==> stages[s] == Stage(kind, moduleOffset + (s - |stages0|))
    ensures forall g :: |groups0| <= g < |groups| ==>
              groups[g] == ShaderGroup(General, g, ShaderUnused, ShaderUnused, ShaderUnused)
  {
    stages, groups := stages0, groups0;
    var group := ShaderGroup(General, ShaderUnused, ShaderUnused, ShaderUnused, ShaderUnused);
    var i := 0;
    while i < count
      invariant 0 <= i <= count
      invariant |stages| == |stages0| + i && stages[..|stages0|] == stages0
      invariant |groups| == |groups0| + i && groups[..|groups0|] == groups0
      invariant forall s :: |stages0| <= s < |stages| ==> stages[s] == Stage(kind, moduleOffset + (s - |stages0|))
      invariant forall g :: |groups0| <= g < |groups| ==>
                  groups[g] == ShaderGroup(General, g, ShaderUnused, ShaderUnused, ShaderUnused)
      invariant group.(generalShader := 0) == ShaderGroup(General, 0, ShaderUnused, ShaderUnused, ShaderUnused)
    {
      group := group.(generalShader := |stages|);
      stages := stages + [Stage(kind, i + moduleOffset)];
      groups := groups + [group];
      i := i + 1;
    }
  }

  /**
   * The hit group loop of tryLoadPipeline: one triangles hit group per
   * closest-hit shader; when any-hit shaders exist the any-hit stage of the
   * same index is pushed first and the group records both stage indices.
   */
  method AddHitGroups(stages0: seq<Stage>, groups0: seq<ShaderGroup>, withAnyHit: bool, count: nat,
                      anyHitOffset: nat, cHitOffset: nat)
    returns (stages: seq<Stage>, groups: seq<ShaderGroup>)
    ensures |stages| == |stages0| + (if withAnyHit then 2 * count else count) && stages[..|stages0|] == stages0
    ensures |groups| == |groups0| + count && groups[..|groups0|] == groups0
    ensures forall s :: |stages0| <= s < |stages| ==>
              stages[s] == HitStageAt(withAnyHit, anyHitOffset, cHitOffset, s - |stages0|)
    ensures forall g :: |groups0| <= g < |groups| ==>
              groups[g] == HitGroupAt(withAnyHit, |stages0|, g - |groups0|)
  {
    stages, groups := stages0, groups0;
    var group := ShaderGroup(TrianglesHitGroup, ShaderUnused, ShaderUnused, ShaderUnused, ShaderUnused);
    var i := 0;
    while i < count
      invariant 0 <= i <= count
      invariant |stages| == |stages0| + (if withAnyHit then 2 * i else i) && stages[..|stages0|] == stages0
      invariant |groups| == |groups0| + i && groups[..|groups0|] == groups0
      invariant forall s :: |stages0| <= s < |stages| ==>
                  stages[s] == HitStageAt(withAnyHit, anyHitOffset, cHitOffset, s - |stages0|)
      invariant forall g :: |groups0| <= g < |groups| ==>
                  groups[g] == HitGroupAt(withAnyHit, |stages0|, g - |groups0|)
      invariant group.groupType == TrianglesHitGroup
      invariant group.generalShader == ShaderUnused && group.intersectionShader == ShaderUnused
      invariant !withAnyHit ==> group.anyHitShader == ShaderUnused
    {
      if withAnyHit {
        assert HitStageAt(withAnyHit, anyHitOffset, cHitOffset, 2 * i) == Stage(AnyHit, i + anyHitOffset);
        group := group.(anyHitShader := |stages|);
        stages := stages + [Stage(AnyHit, i + anyHitOffset)];
        assert HitStageAt(withAnyHit, anyHitOffset, cHitOffset, 2 * i + 1) == Stage(ClosestHit, i + cHitOffset);
      }
      group := group.(closestHitShader := |stages|);
      stages := stages + [Stage(ClosestHit, i + cHitOffset)];
      groups := groups + [group];
      i := i + 1;
    }
  }

  /**
   * The three group-building loops of tryLoadPipeline, in order: ray
   * generation, miss, hit. The result is the closed-form layout.
   */
  method BuildGroups(c: Counts) returns (stages: seq<Stage>, groups: seq<ShaderGroup>)
    ensures stages == StageLayout(c)
    ensures groups == GroupLayout(c)
  {
    var s1, g1 := AddGeneralGroups([], [], RayGen, c.rayGen, 0);
    var s2, g2 := AddGeneralGroups(s1, g1, Miss, c.miss, MissOffset(c));
    stages, groups := AddHitGroups(s2, g2, c.anyHit > 0, c.closestHit, AnyHitOffset(c), CHitOffset(c));
    forall s | 0 <= s < c.rayGen ensures stages[s] == StageAt(c, s) {
      assert stages[s] == s2[s] == s1[s];
    }
    forall g | 0 <= g < c.rayGen ensures groups[g] == GroupAt(c, g) {
      assert groups[g] == g2[g] == g1[g];
    }
    forall s | c.rayGen <= s < c.rayGen + c.miss ensures stages[s] == StageAt(c, s) {
      assert stages[s] == s2[s];
    }
    forall g | c.rayGen <= g < c.rayGen + c.miss ensures groups[g] == GroupAt(c, g) {
      assert groups[g] == g2[g];
    }
  }

  /** The stage indices a group refers to (ShaderUnused excluded). */
  function Refs(grp: ShaderGroup): (r: set<nat>)
    ensures forall s :: s in r ==> s != ShaderUnused
  {
    (if grp.generalShader != ShaderUnused then {grp.generalShader} else {})
    + (if grp.closestHitShader != ShaderUnused then {grp.closestHitShader} else {})
    + (if grp.anyHitShader != ShaderUnused then {grp.anyHitShader} else {})
    + (if grp.intersectionShader != ShaderUnused then {grp.intersectionShader} else {})
  }

  /** The group that owns stage s. */
  function Owner(c: Counts, s: nat): (g: nat)
    requires s < StageCount(c)
    ensures g < GroupCount(c)
  {
    if s < c.rayGen + c.miss then s
    else if c.anyHit > 0 then c.rayGen + c.miss + (s - (c.rayGen + c.miss)) / 2
    else s
  }

  /**
   * Each group refers to stages of the kind its position calls for: ray
   * generation groups to a ray generation stage, miss groups to a miss stage,
   * hit groups to a closest-hit stage and, exactly when any-hit shaders exist,
   * to the any-hit stage loaded from the any-hit shader of the same index.
   */
  lemma GroupsReferenceRightStages(c: Counts, g: nat)
    requires g < GroupCount(c)
    requires StageCount(c) < ShaderUnused
    ensures var grp := GroupAt(c, g);
      && grp.intersectionShader == ShaderUnused
      && (g < c.rayGen ==>
            grp.groupType == General && grp.generalShader < StageCount(c)
            && StageAt(c, grp.generalShader) == Stage(RayGen, g))
      && (c.rayGen <= g < c.rayGen + c.miss ==>
            grp.groupType == General && grp.generalShader < StageCount(c)
            && StageAt(c, grp.generalShader) == Stage(Miss, MissOffset(c) + (g - c.rayGen)))
      && (c.rayGen + c.miss <= g ==>
            var k := g - (c.rayGen + c.miss);
            && grp.groupType == TrianglesHitGroup
            && grp.generalShader == ShaderUnused
            && grp.closestHitShader < StageCount(c)
            && StageAt(c, grp.closestHitShader) == Stage(ClosestHit, CHitOffset(c) + k)
            && (grp.anyHitShader == ShaderUnused <==> c.anyHit == 0)
            && (c.anyHit > 0 ==>
                  grp.anyHitShader < StageCount(c)
                  && StageAt(c, grp.anyHitShader) == Stage(AnyHit, AnyHitOffset(c) + k)))
  {
    if c.rayGen + c.miss <= g && c.anyHit > 0 {
      var k := g - (c.rayGen + c.miss);
      assert (2 * k + 1) % 2 == 1 && (2 * k + 1) / 2 == k;
      assert (2 * k) % 2 == 0 && (2 * k) / 2 == k;
    }
  }

  /** Every stage is referred to by exactly one group: its owner. */
  lemma EveryStageInExactlyOneGroup(c: Counts, s: nat)
    requires s < StageCount(c)
    requires StageCount(c) < ShaderUnused
    ensures s in Refs(GroupAt(c, Owner(c, s)))
    ensures forall g :: 0 <= g < GroupCount(c) && s in Refs(GroupAt(c, g)) ==> g == Owner(c, s)
  {
    var base := c.rayGen + c.miss;
    if base <= s && c.anyHit > 0 {
      var k := s - base;
      var o := Owner(c, s);
      assert o - base == k / 2;
      if k % 2 == 0 {
        assert s == base + 2 * (k / 2);
      } else {
        assert s == base + 2 * (k / 2) + 1;
      }
      forall g | 0 <= g < GroupCount(c) && s in Refs(GroupAt(c, g)) ensures g == o {
        if base <= g {
          var j := g - base;
          assert s == base + 2 * j + 1 || s == base + 2 * j;
          assert j == k / 2;
        }
      }
    }
  }

  /**
   * When the counts pass the consistency check, the stages use each loaded
   * module exactly once: there are as many stages as modules, each stage's
   * module index is in range, and no two stages share a module.
   */
  lemma StagesUseEachModuleOnce(c: Counts)
    requires CountsMatch(c)
    ensures StageCount(c) == NumModules(c)
    ensures forall s :: 0 <= s < StageCount(c) ==> StageAt(c, s).moduleIndex < NumModules(c)
    ensures forall s, t :: 0 <= s < t < StageCount(c) ==> StageAt(c, s).moduleIndex != StageAt(c, t).moduleIndex
  {
    var base := c.rayGen + c.miss;
    forall s, t | 0 <= s < t < StageCount(c)
      ensures StageAt(c, s).moduleIndex != StageAt(c, t).moduleIndex
    {
      if c.anyHit > 0 && base <= s {
        var ks, kt := s - base, t - base;
        if ks % 2 == kt % 2 {
          assert ks == 2 * (ks / 2) + ks % 2 && kt == 2 * (kt / 2) + kt % 2;
          assert ks / 2 != kt / 2;
        }
      }
    }
  }
}
