# ray_tracing_gltf core, modelled in Dafny

This project models the CPU-side logic of the `ray_tracing_gltf` sample of the
Vulkan ray tracing tutorial, a small glTF path tracer. The GPU is not modelled.
The parts covered are these:

- **Hot-reloadable pipelines.**
  - The ray tracing pipeline (`RaytracingPipeline`) reloads all or nothing. It
    retires the previous pipeline one generation later, through its stale slot.
  - The raster pipeline (`RasterPipeline`) destroys its previous pipeline at
    once.
  - The device is an oracle. It answers whether a shader module compiles and
    whether pipeline creation succeeds, and it hands out fresh handles.
  - Every device call is appended to a ghost event log. Destroy-once,
    no-leak and all-or-nothing are then counting lemmas over the log that one
    load attempt produces.
- **Shader groups and the shader binding table.**
  - How `tryLoadPipeline` lays out stages and groups (ray generation, then
    miss, then hit).
  - The table size and the strided regions `trace` passes to
    `vkCmdTraceRaysKHR`.
  - The copy loop of `createSBT`, byte by byte.
- **Light tables and alias tables** (`buildLightTables`,
  `buildTriangleAliasTable`, `buildInstanceAliasTable`).
  - Which nodes become light instances, and the triangle records each of them
    yields.
  - Normalisation by the total weight.
  - The alias-table builder, with its two sorted work lists. Over the reals,
    a table built from normalised weights samples every item with exactly its
    weight.
- **The frame counter and the UI options** (`updateFrame`, `resetFrame`,
  `raytrace`, `renderUI`, the `renderFlag` bit test and the push-constant
  defaults).
- **Scene merging in `RenderScene::loadGltf`.**
  - Instances, lookup entries, materials and texture slots, vertex attributes,
    16-bit indices and primitives are appended, each rebased past what earlier
    loads left.
  - Texture handles, the descriptor list, and the 16+16-bit packing of
    texture coordinates.
- **The keyframe sampler of `Animation`** and the animation that drives three
  samplers.
- **`SceneGraph::recalcWorldMatrices`**, which overwrites world matrices in
  place.
- **`TagHandle`**, a typed handle with a reserved invalid value.

## Behaviour modelled as written

Several behaviours of the code are modelled as written, and lemmas state what
follows from them:

- **`loadGltf` appends every glTF material twice.** Primitives still add only
  the material count held before the load, so a loaded primitive with material
  index `m` reads glTF material `m / 2` (`RenderScenes.PrimitiveMaterialEntry`).
- **Indices are not rebased.** `loadGltf` pushes every index, cut to 16 bits,
  straight onto the member list. The local list meant for them stays empty.
  Primitives carry the rebased first index and vertex offset instead
  (`RenderScenes.RebasedIndicesMatch`, `RenderScenes.RebasedVerticesMatch`).
- **The triangle statistic counts indices.** `loadGltf` adds each
  primitive's index count, not its triangle count, to the triangle total
  (`RenderScenes.RenderScene.AppendPrimitives`).
- **`createSBT` and `trace` use different steps.** The copy loop advances by
  the base alignment, while `trace` strides by the aligned handle size. The two
  agree when the handle size is at most the base alignment
  (`Sbt.TraceReadsCopiedHandles`).
- **A glTF texture without an image is not kept apart.** tinygltf records a
  texture that samples no image with source `-1`, and `loadGltf` still adds
  the texture offset to it. In the first scene such a slot becomes `-1` and
  reads as unused. In a later scene it names the last texture of the earlier
  scenes (`RenderScenes.SourcelessSlot`).
- **The ray tracing destructor leaves the stale pipeline alone.** It destroys
  only the current pipeline.
- **`TagHandle::valid` is declared `void` although it returns a comparison.**
  It is modelled as the predicate it evidently means.
- **`isBinaryFile` throws on a path shorter than four characters.** Taking the
  last four characters fails there; this is modelled as `None`.

Floating-point quantities (times, weights, radiances) are `real`. Matrix
product, interpolation, octahedral normal encoding, emissive norms and
triangle areas are parameters (uninterpreted functions).

## Model

| member | source | states |
|---|---|---|
| Gpu.Device.WaitIdle | ray_tracing_gltf/RaytracingPipeline.cpp:167 | the call is logged; no handle is created or destroyed |
| Gpu.Device.LoadFile | ray_tracing_gltf/RasterPipeline.cpp:78-79 | reading a shader file is logged and touches no handle |
| Gpu.Device.CreateShaderModule | ray_tracing_gltf/RaytracingPipeline.cpp:168-169 | a module that compiles gets the next fresh handle; a failed one is the null handle and consumes none |
| Gpu.Device.DestroyShaderModule | ray_tracing_gltf/RaytracingPipeline.cpp:177-178 | destroying a module is logged and adds one to that module's destroy count only |
| Gpu.Device.CreatePipeline | ray_tracing_gltf/RaytracingPipeline.cpp:242-243 | a successful creation yields the next fresh handle, a failed one the null handle |
| Gpu.Device.DestroyPipeline | ray_tracing_gltf/RaytracingPipeline.cpp:157 | destroying a pipeline adds one to its destroy count and to no other handle's |
| ShaderGroups.StageLayout | ray_tracing_gltf/RaytracingPipeline.cpp:182-229 | there is one stage per ray generation, miss and closest-hit shader, plus any-hit stages only when any-hit shaders exist |
| ShaderGroups.GroupLayout | ray_tracing_gltf/RaytracingPipeline.cpp:182-229 | there is one group per ray generation, miss and closest-hit shader; any-hit shaders have no group of their own |
| ShaderGroups.AddGeneralGroups | ray_tracing_gltf/RaytracingPipeline.cpp:193-211 | each general group records the index its stage takes, and the stage loads the module at offset plus position |
| ShaderGroups.AddHitGroups | ray_tracing_gltf/RaytracingPipeline.cpp:219-229 | each hit group records its closest-hit stage, and its any-hit stage pushed just before it exactly when any-hit shaders exist |
| ShaderGroups.BuildGroups | ray_tracing_gltf/RaytracingPipeline.cpp:182-229 | the three loops in order produce exactly the closed-form stage and group layout |
| ShaderGroups.Owner | ray_tracing_gltf/RaytracingPipeline.cpp:182-229 | every stage has an owning group within the group count |
| ShaderGroups.GroupsReferenceRightStages | ray_tracing_gltf/RaytracingPipeline.cpp:187-229 | ray generation and miss groups refer to a stage of their kind; a hit group refers to a closest-hit stage, and to the any-hit stage of the same index iff any-hit shaders exist |
| ShaderGroups.EveryStageInExactlyOneGroup | ray_tracing_gltf/RaytracingPipeline.cpp:182-229 | every stage is referred to by its owner group and by no other |
| ShaderGroups.StagesUseEachModuleOnce | ray_tracing_gltf/RaytracingPipeline.cpp:148-229 | when the counts pass the consistency check, stages and modules correspond one to one |
| Sbt.AlignUp | ray_tracing_gltf/RaytracingPipeline.cpp:82-83 | the aligned group size is the least multiple of the base alignment that is at least the handle size |
| Sbt.Regions | ray_tracing_gltf/RaytracingPipeline.cpp:135-139 | the ray generation, miss and hit regions all stride by the aligned group size, and the callable region is empty |
| Sbt.RegionsTileTable | ray_tracing_gltf/RaytracingPipeline.cpp:135-139 | the three regions are contiguous and together span exactly the table size computed in the constructor |
| Sbt.GroupRecordInMatchingRegion | ray_tracing_gltf/RaytracingPipeline.cpp:135-139 | the record of every group lies in the region of its own kind and in no other |
| Sbt.RayGenSizeIsStride | ray_tracing_gltf/RaytracingPipeline.cpp:136 | the ray generation region's size equals its stride exactly when there is one ray generation shader, as the ray tracing API demands |
| Sbt.RegionsStartAligned | ray_tracing_gltf/RaytracingPipeline.cpp:135-138 | an aligned table address gives region starts aligned to the base alignment |
| Sbt.SlotIsProduct | ray_tracing_gltf/RaytracingPipeline.cpp:273-277 | advancing the write pointer by a fixed step g times reaches g times the step |
| Sbt.CopiedSlotHoldsHandle | ray_tracing_gltf/RaytracingPipeline.cpp:273-277 | when records do not overlap, the bytes at record g are exactly group g's handle |
| Sbt.UncopiedByteUnchanged | ray_tracing_gltf/RaytracingPipeline.cpp:273-277 | a byte no copy reaches keeps its old value |
| Sbt.AlignedSizeIsBase | ray_tracing_gltf/RaytracingPipeline.cpp:82-83 | for a handle no larger than the base alignment, the aligned size is the base alignment |
| Sbt.TraceReadsCopiedHandles | ray_tracing_gltf/RaytracingPipeline.cpp:273-277 | the record `trace` reads for group g holds group g's handle when the handle size is at most the base alignment |
| RaytracingPipelines.Loaded | ray_tracing_gltf/RaytracingPipeline.cpp:165-173 | this is the first failing path from i on, or the path count; every path before it compiles |
| RaytracingPipelines.Tried | ray_tracing_gltf/RaytracingPipeline.cpp:165-173 | the loop tries the paths up to and including the first failing one |
| RaytracingPipelines.CompileEventsCount | ray_tracing_gltf/RaytracingPipeline.cpp:163-173 | the module loop creates the handles h .. h+Loaded-1 once each, and destroys nothing |
| RaytracingPipelines.CompileStopsAtFirstFailure | ray_tracing_gltf/RaytracingPipeline.cpp:165-171 | the paths compiled are exactly those up to and including the first failure, in order |
| RaytracingPipelines.CompileKeepsPipelines | ray_tracing_gltf/RaytracingPipeline.cpp:163-173 | the module loop leaves every pipeline's destroy count unchanged |
| RaytracingPipelines.DestroyRangeCount | ray_tracing_gltf/RaytracingPipeline.cpp:177-178 | the clean-up loop destroys each built module exactly once and does nothing else |
| RaytracingPipelines.DestroyAllNoPipeline | ray_tracing_gltf/RaytracingPipeline.cpp:253-254 | destroying modules destroys no pipeline |
| RaytracingPipelines.LoadEventsCount | ray_tracing_gltf/RaytracingPipeline.cpp:146-257 | the complete per-handle effect of one attempt: nothing on a count mismatch; otherwise the stale pipeline is destroyed once, the modules are created and destroyed once each, and a pipeline is created only on success |
| RaytracingPipelines.BuildEventsCount | ray_tracing_gltf/RaytracingPipeline.cpp:160-256 | the per-handle effect of an attempt once the stale pipeline is retired |
| RaytracingPipelines.LoadDestroysOnlyStale | ray_tracing_gltf/RaytracingPipeline.cpp:148-159 | the only pipeline an attempt destroys is the stale one, once, as its first call, and only when the counts match |
| RaytracingPipelines.LoadReleasesModules | ray_tracing_gltf/RaytracingPipeline.cpp:174-180 | every module an attempt creates it also destroys, on every outcome |
| RaytracingPipelines.LoadCreatesPipelineIffSuccess | ray_tracing_gltf/RaytracingPipeline.cpp:242-256 | an attempt creates exactly one pipeline iff it succeeds, and none otherwise |
| RaytracingPipelines.AttemptKeepsDestroyOnce | ray_tracing_gltf/RaytracingPipeline.cpp:155-159 | if no pipeline had been destroyed twice and the stale one not at all, that still holds after an attempt, and other handles keep their counts |
| RaytracingPipelines.RaytracingPipeline.constructor | ray_tracing_gltf/RaytracingPipeline.cpp:31-98 | covers the kind offsets, the path order, the table size (ray generation, miss and closest-hit count times the aligned size) and one reload attempt; afterwards there is a pipeline iff the load succeeded, and no stale one |
| RaytracingPipelines.RaytracingPipeline.Invalidate | ray_tracing_gltf/RaytracingPipeline.h:66 | sets the flag and leaves the current pipeline, the stale pipeline and the groups unchanged |
| RaytracingPipelines.RaytracingPipeline.TryLoadPipeline | ray_tracing_gltf/RaytracingPipeline.cpp:146-257 | the device log grows by exactly LoadEvents; the result is true iff the attempt succeeds; on success current becomes stale and the new handle current; on failure current is unchanged |
| RaytracingPipelines.RaytracingPipeline.RetireStale | ray_tracing_gltf/RaytracingPipeline.cpp:155-159 | the stale pipeline, if any, is destroyed and cleared |
| RaytracingPipelines.RaytracingPipeline.InstallPipeline | ray_tracing_gltf/RaytracingPipeline.cpp:242-250 | on creation the old current becomes stale; on failure nothing is installed |
| RaytracingPipelines.RaytracingPipeline.BuildPipeline | ray_tracing_gltf/RaytracingPipeline.cpp:160-256 | covers the module loop, the clean-up on failure, group rebuilding, creation and module release, as BuildEvents |
| RaytracingPipelines.RaytracingPipeline.CreateSBT | ray_tracing_gltf/RaytracingPipeline.cpp:259-279 | every copy stays in bounds, and each table byte ends as CopiedByte says |
| RaytracingPipelines.RaytracingPipeline.TryReload | ray_tracing_gltf/RaytracingPipeline.cpp:281-287 | the table is rewritten and the flag cleared only on success; on failure the table and the flag are unchanged; the current and stale handles and the groups are given for both outcomes |
| RaytracingPipelines.RaytracingPipeline.Bind | ray_tracing_gltf/RaytracingPipeline.cpp:107-114 | without the flag nothing happens (log, handles, groups and table unchanged); with it, one load attempt runs, the flag stays set iff it failed, and the handle bound is the new pipeline on success and the previous one on failure, with the stale handle, groups and table as TryReload leaves them |
| RaytracingPipelines.RaytracingPipeline.Trace | ray_tracing_gltf/RaytracingPipeline.cpp:126-144 | the regions are those of Sbt.Regions for the pipeline's counts and aligned size |
| RaytracingPipelines.RaytracingPipeline.Destroy | ray_tracing_gltf/RaytracingPipeline.cpp:100-105 | destroys only the current pipeline; no pipeline is destroyed twice and the stale pipeline is left undestroyed |
| RaytracingPipelines.CompileModules | ray_tracing_gltf/RaytracingPipeline.cpp:163-173 | the modules built are the consecutive fresh handles up to the first failure |
| RaytracingPipelines.ReleaseModules | ray_tracing_gltf/RaytracingPipeline.cpp:177-178 | destroys the given modules in order and touches no pipeline |
| RaytracingPipelines.CopiesFitTable | ray_tracing_gltf/RaytracingPipeline.cpp:273-277 | with the constructor's sizes, every copy of createSBT stays inside the table and the handle storage |
| RasterPipelines.RasterLoadCount | ray_tracing_gltf/RasterPipeline.cpp:60-102 | an attempt destroys only the previous pipeline, once and only on success; it creates only the new one, and only on success |
| RasterPipelines.RasterLoadOrder | ray_tracing_gltf/RasterPipeline.cpp:78-99 | the vertex shader is read, then the fragment shader, then the pipeline is created (with the fresh handle on success, null on failure); on success the fourth call waits for the device and the fifth destroys the previous pipeline; on failure nothing follows the creation; no other call destroys a pipeline |
| RasterPipelines.RasterAttemptKeepsDestroyOnce | ray_tracing_gltf/RasterPipeline.cpp:92-101 | destroy-once holds across an attempt; other handles keep their counts |
| RasterPipelines.RasterPipeline.constructor | ray_tracing_gltf/RasterPipeline.cpp:34-43 | one load attempt from a null handle; afterwards there is a pipeline iff creation succeeded, and the flag is clear |
| RasterPipelines.RasterPipeline.Invalidate | ray_tracing_gltf/RasterPipeline.h:50 | sets the flag and keeps the single handle |
| RasterPipelines.RasterPipeline.TryLoadPipeline | ray_tracing_gltf/RasterPipeline.cpp:60-102 | on success the new handle replaces the old, which is destroyed immediately; on failure the result is false and the handle is unchanged |
| RasterPipelines.RasterPipeline.TryReload | ray_tracing_gltf/RasterPipeline.cpp:104-109 | clears the flag only when the attempt succeeded |
| RasterPipelines.RasterPipeline.Get | ray_tracing_gltf/RasterPipeline.cpp:53-58 | reloads only when invalidated, and returns the current handle afterwards |
| RasterPipelines.RasterPipeline.Destroy | ray_tracing_gltf/RasterPipeline.cpp:45-51 | destroys the handle only when it is non-null; no pipeline is destroyed twice |
| AliasTables.ScaledWeights | ray_tracing_gltf/hello_vulkan.cpp:407 | each entry is the weight times the number of buckets |
| AliasTables.InitialBuckets | ray_tracing_gltf/hello_vulkan.cpp:403-418 | bucket k carries item k's scaled weight and table index base + k |
| AliasTables.InitialAliases | ray_tracing_gltf/hello_vulkan.cpp:403-409 | entry k has the cutOff of the scaled weight and is aliased to itself |
| AliasTables.SpreadPartitions | ray_tracing_gltf/hello_vulkan.cpp:410-417 | every bucket is in exactly one list: at most one (one included) goes to the empty list, above one to the overflown list |
| AliasTables.SpreadBuckets | ray_tracing_gltf/hello_vulkan.cpp:403-418 | appends one entry per item in order to the uncleared table and files each bucket into its list |
| AliasTables.BalanceStarts | ray_tracing_gltf/hello_vulkan.cpp:419-423 | the freshly spread and sorted lists satisfy the balancing invariant before the first iteration |
| AliasTables.SortByValue | ray_tracing_gltf/hello_vulkan.cpp:420-421 | the result is sorted ascending by value and is a permutation of the input |
| AliasTables.TopUp | ray_tracing_gltf/hello_vulkan.cpp:425-438 | the last overflown bucket gives 1 - dst to dst and becomes its alias, no other entry changes, and it moves to the empty list once at most one; the balancing invariant (aliases in range, mass conserved) is kept |
| AliasTables.TransferKept | ray_tracing_gltf/hello_vulkan.cpp:428-438 | src gives exactly 1 - dst to dst, becomes its alias and moves to the empty list once at most one; the invariant is kept |
| AliasTables.SkipKeeps | ray_tracing_gltf/hello_vulkan.cpp:426-427 | skipping an entry of at least one keeps the invariant |
| AliasTables.Balance | ray_tracing_gltf/hello_vulkan.cpp:423-439 | the loop keeps the invariant and stops when nothing overflows or every entry of the empty list has been visited |
| AliasTables.OverflowEmpties | ray_tracing_gltf/hello_vulkan.cpp:423 | for weights summing to one, the overflown list is empty when the loop stops |
| AliasTables.OpenBucketsFull | ray_tracing_gltf/hello_vulkan.cpp:423-439 | afterwards every bucket never topped up holds exactly one |
| AliasTables.ScaledDistribution | ray_tracing_gltf/hello_vulkan.cpp:407 | scaling a distribution gives non-negative weights that sum to the bucket count |
| AliasTables.FinalCutoffs | ray_tracing_gltf/hello_vulkan.cpp:440-444 | exactly the buckets on the empty list get their final value as cutOff |
| AliasTables.FinishTable | ray_tracing_gltf/hello_vulkan.cpp:440-444 | the earlier entries are kept, the aliases are in range, and for a distribution the table samples each item with its weight |
| AliasTables.FinalEntries | ray_tracing_gltf/hello_vulkan.cpp:440-444 | after balancing, every new cutOff is its bucket's final value and lies in [0, 1] |
| AliasTables.FinishedTable | ray_tracing_gltf/hello_vulkan.cpp:423-444 | each item's scaled weight equals its own cutOff plus (1 - cutOff) over the buckets aliased to it |
| AliasTables.BuildAliasTable | ray_tracing_gltf/hello_vulkan.cpp:395-445 | appends one entry per weight and keeps the earlier ones; every alias points into the new entries; for a distribution, item p is sampled with probability weights[p] |
| LightTables.Resolve | ray_tracing_gltf/hello_vulkan.cpp:328-333 | one record per node, holding its primitive mesh, its material's emissive factor and one weight per whole triangle |
| LightTables.ResolveNonneg | ray_tracing_gltf/hello_vulkan.cpp:349 | non-negative norms and areas give non-negative triangle weights |
| LightTables.NodeTrianglesShape | ray_tracing_gltf/hello_vulkan.cpp:335-353 | a node yields indexCount/3 triangles with indexOffset firstIndex + 3j, the primitive's vertex offset and the node's matrix index |
| LightTables.NodeLightWeight | ray_tracing_gltf/hello_vulkan.cpp:352 | an instance's weight is the sum of its triangle weights |
| LightTables.LightNodes | ray_tracing_gltf/hello_vulkan.cpp:328-333 | the light nodes, in order, are those whose emissive factor is non-zero |
| LightTables.LightsAreLightNodes | ray_tracing_gltf/hello_vulkan.cpp:328-356 | the instances are exactly the light nodes, in node order, each built from its own node |
| LightTables.TablesGrowByAppending | ray_tracing_gltf/hello_vulkan.cpp:328-357 | the tables of a node prefix are prefixes of the full tables |
| LightTables.StartIsTrianglesBefore | ray_tracing_gltf/hello_vulkan.cpp:342-350 | the instances before a node own exactly the triangles of the nodes before it |
| LightTables.LightNodeLaidOut | ray_tracing_gltf/hello_vulkan.cpp:328-357 | light node i's triangles sit right after those of the earlier instances, and the instance's weight is their sum |
| LightTables.TotalsAgree | ray_tracing_gltf/hello_vulkan.cpp:352-354 | instance weights and triangle weights have the same total |
| LightTables.WeightsNonneg | ray_tracing_gltf/hello_vulkan.cpp:349-352 | every table weight is non-negative |
| LightTables.NormalisedLights | ray_tracing_gltf/hello_vulkan.cpp:360-363 | every instance weight is divided by the total and all else is kept |
| LightTables.NormalisedTriangles | ray_tracing_gltf/hello_vulkan.cpp:364-367 | every triangle weight is divided by the total and all else is kept |
| LightTables.NormalisedLightsDistribution | ray_tracing_gltf/hello_vulkan.cpp:359-363 | with a non-zero total, the normalised instance weights are a distribution |
| LightTables.NormalisedTrianglesDistribution | ray_tracing_gltf/hello_vulkan.cpp:364-367 | with a non-zero total, the normalised triangle weights are a distribution |
| LightTables.CollectLights | ray_tracing_gltf/hello_vulkan.cpp:328-357 | appends Lights and Triangles of the scene to the tables and returns their total |
| LightTables.CollectNodeTriangles | ray_tracing_gltf/hello_vulkan.cpp:335-355 | appends the node's triangle records and returns its instance, weighted by their sum |
| LightTables.NormaliseLights | ray_tracing_gltf/hello_vulkan.cpp:360-363 | the loop produces NormalisedLights |
| LightTables.NormaliseTriangles | ray_tracing_gltf/hello_vulkan.cpp:364-367 | the loop produces NormalisedTriangles |
| RenderFlags.ComposeFlags | ray_tracing_gltf/hello_vulkan.cpp:117-125 | each flag bit is set iff its option is on (inverted for NO_SPEC and NO_DIFF), and no other bit is set |
| RenderFlags.OptionsRoundTrip | ray_tracing_gltf/hello_vulkan.cpp:97-125 | reading back a composed word gives the options it was composed from |
| RenderFlags.FlagsRoundTrip | ray_tracing_gltf/hello_vulkan.cpp:97-125 | recomposing the options read from a word using only known bits gives the word back |
| RenderFlags.Clamp | ray_tracing_gltf/hello_vulkan.cpp:94-95 | the result lies in [lo, hi], is x when x is in range, and is the nearer bound otherwise |
| RenderFlags.InitialPushConstants | ray_tracing_gltf/hello_vulkan.h:168-178 | the defaults are frame 0, maxBounces 4, firstBounce 0, no light instances and flags 0, so every renderFlag test is false |
| RenderFlags.UiOptions | ray_tracing_gltf/hello_vulkan.cpp:107-115 | the checkbox values are taken, except that the emissive-triangle and alias options keep their old values when next-event is off |
| RenderFlags.SanitiseUi | ray_tracing_gltf/hello_vulkan.cpp:86-136 | with the panel closed nothing changes; otherwise paths per pixel is at least 1, the bounces are clamped to [0, 20] and the flag word is composed; the frame is untouched |
| RenderFlags.SanitiseStable | ray_tracing_gltf/hello_vulkan.cpp:88-125 | sanitising again with the panel untouched changes nothing |
| RenderFlags.IsBinaryFile | ray_tracing_gltf/hello_vulkan.cpp:320-323 | true iff the path ends in ".glb"; no value for paths shorter than four characters |
| Renderer.NextFrame | ray_tracing_gltf/hello_vulkan.cpp:1218-1233 | a moved camera gives frame 0 and becomes the reference; otherwise the frame advances by one |
| Renderer.RunKeepsLastCamera | ray_tracing_gltf/hello_vulkan.cpp:1226-1231 | after any frames, the reference is the last camera seen |
| Renderer.RunStill | ray_tracing_gltf/hello_vulkan.cpp:1232 | with no move the counter advances once per frame |
| Renderer.RunCountsSinceMove | ray_tracing_gltf/hello_vulkan.cpp:1218-1238 | after a move at step k and none later, the counter equals the number of frames since k |
| Renderer.RaytraceFrame | ray_tracing_gltf/hello_vulkan.cpp:1198-1203 | without accumulation the frame pushed is -1; with it, the frame is that of updateFrame |
| Renderer.StillCameraCountsFromZero | ray_tracing_gltf/hello_vulkan.cpp:1218-1238 | from a reset and a still camera the frames pushed are 0, 1, 2, ... |
| Renderer.NormalisedIfNonzero | ray_tracing_gltf/hello_vulkan.cpp:359-363 | the instance table grows by one entry per light node |
| Renderer.NormalisedTrianglesIfNonzero | ray_tracing_gltf/hello_vulkan.cpp:364-367 | the triangle table grows by one entry per light triangle |
| Renderer.NormalisedTablesAreDistributions | ray_tracing_gltf/hello_vulkan.cpp:359-367 | with a non-zero total, both normalised weight lists are distributions |
| Renderer.HelloVulkan.constructor | ray_tracing_gltf/hello_vulkan.h:158-178 | accumulation is on, the push constants are at their defaults, and the tables are empty |
| Renderer.HelloVulkan.ResetFrame | ray_tracing_gltf/hello_vulkan.cpp:1235-1238 | the frame becomes -1 and nothing else changes |
| Renderer.HelloVulkan.UpdateFrame | ray_tracing_gltf/hello_vulkan.cpp:1218-1233 | the frame state becomes NextFrame of the camera; other state is unchanged |
| Renderer.HelloVulkan.Raytrace | ray_tracing_gltf/hello_vulkan.cpp:1196-1212 | covers the frame per RaytraceFrame and tracing over the pipeline's regions with the pushed constants; without the flag the pipeline is untouched and the previous handle is bound; with it, the reload's log, flag, stale handle, groups and table are stated, and the handle bound is the new pipeline exactly when the load succeeds |
| Renderer.HelloVulkan.RenderUi | ray_tracing_gltf/hello_vulkan.cpp:76-141 | the options are sanitised; the frame is reset iff something changed or accumulation is off |
| Renderer.HelloVulkan.InvalidateShaders | ray_tracing_gltf/hello_vulkan.h:142 | invalidates the ray tracing pipeline and nothing else |
| Renderer.HelloVulkan.BuildLightTables | ray_tracing_gltf/hello_vulkan.cpp:325-393 | the tables are collected and normalised and the counts pushed; both alias tables are built; from empty tables the weights are distributions and the alias tables reproduce them |
| Renderer.HelloVulkan.CollectLightTables | ray_tracing_gltf/hello_vulkan.cpp:328-370 | the tables become the normalised collections, and the push constants hold both lengths |
| Renderer.HelloVulkan.BuildTriangleAliasTable | ray_tracing_gltf/hello_vulkan.cpp:395-445 | appends one entry per triangle and keeps the earlier ones; for a distribution it reproduces the weights |
| Renderer.HelloVulkan.BuildInstanceAliasTable | ray_tracing_gltf/hello_vulkan.cpp:447-497 | the same as the triangle table, for the instances |
| RenderScenes.GltfNamesAccepted | ray_tracing_gltf/RenderScene.cpp:42-43 | every name ending in ".gltf" passes the name check |
| RenderScenes.RebaseSlot | ray_tracing_gltf/RenderScene.cpp:79-94 | an unused slot stays -1; a used slot whose glTF texture samples an image lands at or past the textures held before the load, and one whose texture has no image (source -1) lands before them |
| RenderScenes.SourcelessSlot | ray_tracing_gltf/RenderScene.cpp:79-94 | a used slot whose texture has source -1 becomes -1 in the first scene and the previous scene's last texture in a later one |
| RenderScenes.RebaseMaterial | ray_tracing_gltf/RenderScene.cpp:77-94 | all four slots are rebased and the factors kept |
| RenderScenes.MaterialsPushedTwice | ray_tracing_gltf/RenderScene.cpp:73-97 | glTF material k lands at entries 2k and 2k+1, both rebased; the list grows by twice the material count |
| RenderScenes.RebasePrim | ray_tracing_gltf/RenderScene.cpp:142-149 | counts are kept; first index, vertex offset and material index are shifted by the pre-load sizes |
| RenderScenes.TruncateKeepsLowHalf | ray_tracing_gltf/RenderScene.cpp:112-113 | the 16-bit cast keeps exactly the low half, so indices below 2^16 survive |
| RenderScenes.PackThenUnpack | ray_tracing_gltf/RenderScene.cpp:402-404 | x comes back from the low half and y, cut to 16 bits, from the high half |
| RenderScenes.UnpackThenPack | ray_tracing_gltf/RenderScene.cpp:402-404 | every word is the packing of its two halves |
| RenderScenes.MaxVerticesIsMax | ray_tracing_gltf/RenderScene.cpp:140 | the running maximum bounds the start and every vertex count, and equals one of them |
| RenderScenes.StatisticsCompose | ray_tracing_gltf/RenderScene.cpp:136-141 | the statistics of two primitive lists counted in turn equal those of the lists together |
| RenderScenes.Load | ray_tracing_gltf/RenderScene.cpp:40-155 | the descriptor list is untouched by a load |
| RenderScenes.LoadKeepsEarlierScene | ray_tracing_gltf/RenderScene.cpp:61-150 | every old table is a prefix of the new one, no statistic decreases, and aligned tables stay aligned |
| RenderScenes.InstanceDrawsOwnPrimitive | ray_tracing_gltf/RenderScene.cpp:61-66 | instance i gets root times its node's world matrix, and its lookup entry leads to its node's own rebased primitive |
| RenderScenes.RebasedIndicesMatch | ray_tracing_gltf/RenderScene.cpp:99-114 | reading through a loaded primitive's first index gives the file's own index, cut to 16 bits |
| RenderScenes.RebasedVerticesMatch | ray_tracing_gltf/RenderScene.cpp:99-108 | reading through a loaded primitive's vertex offset gives the file's position, encoded normal and packed texture coordinate |
| RenderScenes.MaterialTexturesAreOwnImages | ray_tracing_gltf/RenderScene.cpp:69-94 | each used slot of both copies whose glTF texture samples one of the file's images names the texture made from that image; unused slots stay -1 |
| RenderScenes.PrimitiveMaterialEntry | ray_tracing_gltf/RenderScene.cpp:73-149 | a loaded primitive with material index m reads glTF material m/2, rebased |
| RenderScenes.HandleOf | ray_tracing_gltf/RenderScene.cpp:287 | an index below the reserved value yields a valid handle |
| RenderScenes.OctEncodeVec3ToU32 | ray_tracing_gltf/RenderScene.cpp:385-394 | one encoded word per normal, in order |
| RenderScenes.PackVec2ToU32 | ray_tracing_gltf/RenderScene.cpp:396-406 | one packed word per texture coordinate, in order, which unpacks back to it |
| RenderScenes.RenderScene.constructor | ray_tracing_gltf/RenderScene.cpp:24-33 | every list starts empty and every statistic at 0 |
| RenderScenes.RenderScene.AddTexture | ray_tracing_gltf/RenderScene.cpp:284-289 | appends the texture and returns a handle holding the new size minus one |
| RenderScenes.RenderScene.AddDefaultTexture | ray_tracing_gltf/RenderScene.cpp:291-298 | appends the white texture and nothing else |
| RenderScenes.RenderScene.CreateTextureImages | ray_tracing_gltf/RenderScene.cpp:160-194 | appends one texture per image, in image order |
| RenderScenes.RenderScene.AppendInstances | ray_tracing_gltf/RenderScene.cpp:61-66 | appends the instances and lookup entries, and nothing else |
| RenderScenes.RenderScene.AppendMaterials | ray_tracing_gltf/RenderScene.cpp:73-97 | appends MergedMaterials, two rebased copies per material |
| RenderScenes.RenderScene.AppendIndices | ray_tracing_gltf/RenderScene.cpp:110-114 | appends each index cut to 16 bits; the empty local list adds nothing |
| RenderScenes.RenderScene.AppendPrimitives | ray_tracing_gltf/RenderScene.cpp:135-150 | appends the rebased primitives and updates the totals and the maximum |
| RenderScenes.RenderScene.LoadGltf | ray_tracing_gltf/RenderScene.cpp:40-155 | the new state is LoadFile of the old one: unchanged unless the name contains ".gltf" |
| RenderScenes.RenderScene.UpdateTextureDescriptors | ray_tracing_gltf/RenderScene.cpp:273-282 | with textures present and no descriptors, descriptor i is texture i's, so there are as many descriptors as textures |
| RenderScenes.RenderScene.SubmitToGpu | ray_tracing_gltf/RenderScene.cpp:196-249 | a default texture is added only when there are none; descriptors match the textures; the staging lists are cleared |
| Animations.ResetState | ray_tracing_gltf/animation.h:27-35 | next key 0, all times 0, and both values the first value |
| Animations.WrapAround | ray_tracing_gltf/animation.h:42 | moving on modulo the key count wraps to 0 exactly after the last key |
| Animations.Step | ray_tracing_gltf/animation.h:41-51 | the next key advances modulo the key count; on the wrap t drops by t1 and t0 becomes 0; the segment shifts to the new key |
| Animations.StepDecreases | ray_tracing_gltf/animation.h:39-52 | each step lowers the measure (laps left, keys left), so the loop ends |
| Animations.Settle | ray_tracing_gltf/animation.h:39-52 | the loop's result keeps the next key in range and the segment end at its key |
| Animations.SettleWithinSegment | ray_tracing_gltf/animation.h:39 | on exit t <= t1, and t0 <= t is kept |
| Animations.FactorInUnit | ray_tracing_gltf/animation.h:54 | within the segment the factor lies in [0, 1]: 0 at t0 and 1 at t1 |
| Animations.Sampler.constructor | ray_tracing_gltf/animation.h:74-80 | the sampler walks the given track; next key and all times start at 0 |
| Animations.Sampler.Reset | ray_tracing_gltf/animation.h:27-35 | the state becomes ResetState |
| Animations.Sampler.NextSegment | ray_tracing_gltf/animation.h:42-51 | the new state is Step of the old |
| Animations.Sampler.Advance | ray_tracing_gltf/animation.h:36-56 | the new state is Settle of the old with t + dt, and the output interpolates by the segment factor |
| Animations.Animation.constructor | ray_tracing_gltf/animation.h:87-99 | one fresh sampler per track, writing to the target |
| Animations.Animation.Reset | ray_tracing_gltf/animation.h:102-107 | all three samplers are reset |
| Animations.Animation.Advance | ray_tracing_gltf/animation.h:109-121 | all three samplers advance by the same dt; the target is translation times scale times rotation of their outputs |
| SceneGraphs.SetChild | ray_tracing_gltf/sceneGraph.h:55 | one child update keeps the matrix count |
| SceneGraphs.Children | ray_tracing_gltf/sceneGraph.h:49-56 | the inner loop keeps the matrix count |
| SceneGraphs.Recalc | ray_tracing_gltf/sceneGraph.h:42-57 | the outer loop keeps the matrix count |
| SceneGraphs.ChildrenFrame | ray_tracing_gltf/sceneGraph.h:49-56 | a matrix no child indexes is untouched by a node's inner loop |
| SceneGraphs.RecalcFrame | ray_tracing_gltf/sceneGraph.h:42-57 | nodes none of whose children index m leave world matrix m alone |
| SceneGraphs.RecalcUntouched | ray_tracing_gltf/sceneGraph.h:40-58 | world entries indexed by no child are unchanged |
| SceneGraphs.ChildrenValue | ray_tracing_gltf/sceneGraph.h:48-56 | within a node's loop each child gets the parent's world matrix times its own local matrix |
| SceneGraphs.ChildWorldIsParentTimesLocal | ray_tracing_gltf/sceneGraph.h:40-58 | in a proper hierarchy every child's final world matrix is its parent's final world matrix times its local matrix |
| SceneGraphs.SceneGraph.RecalcWorldMatrices | ray_tracing_gltf/sceneGraph.h:40-58 | the array ends as Recalc over all nodes, with the outer counter advancing once per node |
| TagHandles.InvalidIsMax | ray_tracing_gltf/util.h:39 | the reserved id is -1 modulo 2^32, the largest id |
| TagHandles.TagHandle.Default | ray_tracing_gltf/util.h:28-34 | a default handle holds the reserved id and is invalid |
| TagHandles.TagHandle.constructor | ray_tracing_gltf/util.h:29-32 | stores the id unchanged; the handle is valid iff the id is not reserved |
| TagHandles.TagHandle.Invalidate | ray_tracing_gltf/util.h:37 | sets the reserved id, and a second call changes nothing |

## Left out

- Vulkan objects are not modelled: buffers, images, samplers, descriptor sets and layouts, acceleration structures, command buffers, the post and graphics pipelines, and draw and trace commands. Device calls are an oracle with a handle counter and an event log.
- `waitIdle` and command buffers in flight are concurrency, so they are not modelled. Only the handle bookkeeping they guard is.
- The window, event loop, ImGui widgets and folder watcher in main.cpp are not modelled; ImGui's answers are inputs to `renderUI`.
- Instance, device and surface setup in RenderContext.cpp are foreign I/O and are not modelled.
- The shader search paths and `nvh::loadFile` are foreign calls. Whether a shader compiles is a per-path oracle.
- Floating point is modelled as `real`: NaN, infinity, rounding and float-to-int casts are not captured.
- `EmissiveTrangleInfo::area` and the norm of the emissive factor are inputs. Geometry is not computed.
- `generateTangentSpace` and the tangent list are not modelled: they are floating-point geometry.
- `octEncodeUnitVector` is a parameter, because it is floating point.
- The float quantisation step of `packVec2ToU32` is not modelled. Only the bit layout of already quantised halves is.
- The log/pow exposure and focal-distance sliders are floating-point UI and are not modelled.
- Lerp, slerp, quaternion-to-matrix and the matrix product are parameters.
- A tinygltf load failure is not modelled: the source only asserts there. The imported glTF scene is an input.
- `RenderScene::clearResources`, the destructor and `reserveTextures` make only device and allocator calls, so they are not modelled.
- `RenderScene::textureDescriptors` is not a separate member. Its assertion, that there are as many descriptors as textures, is stated in the ensures of `UpdateTextureDescriptors` and `SubmitToGpu`.
- `bindDescriptorSets` and `pushConstant` only record commands and are not modelled; `Raytrace` records what it pushes.
- `Renderer.NormalisedIfNonzero`: when the new instances' total weight is zero, the source divides by zero and gets NaN weights. The model leaves the weights undivided, and its lemmas assume a non-zero total.
- `AliasTables.SortByValue`: `std::sort` leaves the order among equal values unspecified. The model fixes one such order, and no property depends on it.
- `Renderer.NextFrame`: the `int` frame counter is unbounded here, so its overflow after 2^31 frames is not modelled.
- The push-constant counts `numPathsPerPixel`, `numGeomSamplesM`, `numTrianglesM` and `numEmissiveTris` are not declared in `RtPushConstant` in hello_vulkan.h; only hello_vulkan.cpp uses them. Their starting values are therefore parameters of `RenderFlags.InitialPushConstants`.
- `Renderer.HelloVulkan.constructor`: the function-local static `refCamMatrix` starts zero-initialised, or at whatever the default constructor of nvmath's `mat4f` sets. That constructor is not part of this model, so the model takes the starting matrix as a parameter.
- `Animations.Sampler.Advance`: requires `dt >= 0`, a track with no negative key, and a positive last key. With a last key of 0 and a positive time, the source loops forever.
- `RenderScenes.HandleOf`: states only that an index below the reserved value gives a valid handle. It does not state that the handle's numeric value equals the index, because relating a 32-bit value to an unbounded integer costs the verifier too much.
- `RenderScenes.PackVec2ToU32`: states the result as the packed words. The unpacking round trip is stated separately, by `PackThenUnpack` and `UnpackThenPack`.
- `RenderScenes.RenderScene.AppendPrimitives`: `m_maxVerticesPerPrimitive` is compared through an `int32_t` cast in the source. The model compares unbounded counts.
- `RenderScenes.RebasePrim`: the primitive fields are 32-bit in the source. Their overflow past 2^32 is not modelled.
- `RaytracingPipelines.RaytracingPipeline.constructor`: the 32-bit casts of the shader counts and of the table size are not modelled.
- `Sbt.AlignUp`: is defined as the standard round-up. The library's bit-mask formula agrees with it for power-of-two alignments.
