/**
 * The path tracer's render options: the 32-bit render-flag word and the
 * readings of it the UI makes, the integer clamps the UI applies, and the
 * push-constant block with its defaults.
 */
module RenderFlags {

  const FlagJitterAA: bv32 := 1
  const FlagDof: bv32 := 2
  const FlagAlbedo85: bv32 := 4
  const FlagNoSpec: bv32 := 8
  const FlagNoDiff: bv32 := 16
  const FlagNextEE: bv32 := 32
  const FlagEmisTris: bv32 := 64
  const FlagUseAlias: bv32 := 128

  /** The bits any flag uses. */
  const KnownFlags: bv32 := 0xFF

  /** renderFlag: whether any bit of flag is set in the word (an unsigned "> 0"). */
  predicate RenderFlag(renderFlags: bv32, flag: bv32)
  {
    renderFlags & flag != 0
  }

  /**
   * The options as the UI shows them: specular and diffuse are shown as "on"
   * when their NO_ flag is clear.
   */
  datatype RenderOptions = RenderOptions(
    jitterAA: bool, dof: bool, albedo85: bool, specular: bool, diffuse: bool,
    nextEvent: bool, emissiveTris: bool, aliasTables: bool)

  /** The flag word renderUI composes from the options. */
  function ComposeFlags(o: RenderOptions): (f: bv32)
    ensures f & !KnownFlags == 0
    ensures RenderFlag(f, FlagJitterAA) == o.jitterAA
    ensures RenderFlag(f, FlagDof) == o.dof
    ensures RenderFlag(f, FlagAlbedo85) == o.albedo85
    ensures RenderFlag(f, FlagNoSpec) == !o.specular
    ensures RenderFlag(f, FlagNoDiff) == !o.diffuse
    ensures RenderFlag(f, FlagNextEE) == o.nextEvent
    ensures RenderFlag(f, FlagEmisTris) == o.emissiveTris
    ensures RenderFlag(f, FlagUseAlias) == o.aliasTables
  {
    (if o.jitterAA then FlagJitterAA else 0) |
    (if o.dof then FlagDof else 0) |
    (if o.albedo85 then FlagAlbedo85 else 0) |
    (if o.specular then 0 else FlagNoSpec) |
    (if o.diffuse then 0 else FlagNoDiff) |
    (if o.nextEvent then FlagNextEE else 0) |
    (if o.emissiveTris then FlagEmisTris else 0) |
    (if o.aliasTables then FlagUseAlias else 0)
  }

  /** The options renderUI reads back from a flag word before showing the checkboxes. */
  function OptionsOf(renderFlags: bv32): RenderOptions
  {
    RenderOptions(
      RenderFlag(renderFlags, FlagJitterAA), RenderFlag(renderFlags, FlagDof),
      RenderFlag(renderFlags, FlagAlbedo85), !RenderFlag(renderFlags, FlagNoSpec),
      !RenderFlag(renderFlags, FlagNoDiff), RenderFlag(renderFlags, FlagNextEE),
      RenderFlag(renderFlags, FlagEmisTris), RenderFlag(renderFlags, FlagUseAlias))
  }

  /** Reading back a composed word gives the options it was composed from. */
  lemma OptionsRoundTrip(o: RenderOptions)
    ensures OptionsOf(ComposeFlags(o)) == o
  {
  }

  /**
   * Composing the options read from a word gives the word back, provided it
   * uses only the known flag bits.
   */
  lemma FlagsRoundTrip(renderFlags: bv32)
    requires renderFlags & !KnownFlags == 0
    ensures ComposeFlags(OptionsOf(renderFlags)) == renderFlags
  {
  }

  /** std::min(hi, std::max(lo, x)). */
  function Clamp(x: int, lo: int, hi: int): (r: int)
    requires lo <= hi
    ensures lo <= r <= hi
    ensures lo <= x <= hi ==> r == x
    ensures x < lo ==> r == lo
    ensures x > hi ==> r == hi
  {
    if x < lo then lo else if x > hi then hi else x
  }

  /** The largest number of bounces the UI accepts. */
  const MaxBounceLimit: int := 20

  /**
   * The integer and flag part of the ray tracing push-constant block
   * (colours, lens radius and focal distance are floats and are left out),
   * together with the four counts hello_vulkan.cpp uses through the block
   * but RtPushConstant does not declare.
   */
  datatype PushConstants = PushConstants(
    frame: int, maxBounces: int, firstBounce: int, numPathsPerPixel: int,
    numGeomSamplesM: int, numTrianglesM: int, numLightInstances: int,
    numEmissiveTris: int, renderFlags: bv32)

  /**
   * The block's initial value. frame, maxBounces, firstBounce,
   * numLightInstances and renderFlags have declared defaults in
   * RtPushConstant (hello_vulkan.h). numPathsPerPixel, numGeomSamplesM,
   * numTrianglesM and numEmissiveTris are not declared in that struct at
   * all; only hello_vulkan.cpp reads and writes them, so their starting
   * values are not known here and are parameters.
   */
  function InitialPushConstants(numPathsPerPixel: int, numGeomSamplesM: int, numTrianglesM: int,
                                numEmissiveTris: int): (pc: PushConstants)
    ensures pc.frame == 0 && pc.maxBounces == 4 && pc.firstBounce == 0
    ensures pc.numLightInstances == 0 && pc.renderFlags == 0
    ensures forall flag: bv32 :: !RenderFlag(pc.renderFlags, flag)
    ensures pc.numPathsPerPixel == numPathsPerPixel && pc.numGeomSamplesM == numGeomSamplesM
    ensures pc.numTrianglesM == numTrianglesM && pc.numEmissiveTris == numEmissiveTris
  {
    PushConstants(0, 4, 0, numPathsPerPixel, numGeomSamplesM, numTrianglesM, 0, numEmissiveTris, 0)
  }

  /**
   * What the user did in the UI this frame: whether the camera widget
   * changed the camera, the accumulate checkbox's value, whether the
   * reference path tracer panel is expanded, and, when it is, the values its
   * integer inputs and checkboxes hold after the widgets ran and whether a
   * depth-of-field slider moved. The emissive-triangle and alias-table
   * checkboxes are only shown, and their values only taken, when next-event
   * estimation is on.
   */
  datatype UiInput = UiInput(
    cameraChanged: bool, accumulate: bool, panelOpen: bool,
    maxBounces: int, firstBounce: int, numPathsPerPixel: int,
    numGeomSamplesM: int, numTrianglesM: int,
    options: RenderOptions, dofSlidersChanged: bool)

  /**
   * The options renderUI composes: every checkbox's new value, except that
   * the emissive-triangle and alias-table options keep their previous
   * values when next-event estimation is off (their checkboxes are hidden).
   */
  function UiOptions(renderFlags: bv32, ui: UiInput): (o: RenderOptions)
    ensures ui.options.nextEvent ==> o == ui.options
    ensures !ui.options.nextEvent ==>
              o == ui.options.(emissiveTris := RenderFlag(renderFlags, FlagEmisTris),
                               aliasTables := RenderFlag(renderFlags, FlagUseAlias))
  {
    if ui.options.nextEvent then ui.options
    else
      var prev := OptionsOf(renderFlags);
      ui.options.(emissiveTris := prev.emissiveTris, aliasTables := prev.aliasTables)
  }

  /**
   * Whether any widget of the panel reported a change (ImGui widgets return
   * true when the user changed their value): the camera widget always, the
   * panel's widgets only when it is expanded, and the depth-of-field sliders
   * only when depth of field is on.
   */
  predicate UiChanged(pc: PushConstants, ui: UiInput)
  {
    var prev := OptionsOf(pc.renderFlags);
    var shown := UiOptions(pc.renderFlags, ui);
    || ui.cameraChanged
    || (&& ui.panelOpen
        && (|| ui.maxBounces != pc.maxBounces || ui.firstBounce != pc.firstBounce
            || ui.numPathsPerPixel != pc.numPathsPerPixel
            || ui.numGeomSamplesM != pc.numGeomSamplesM || ui.numTrianglesM != pc.numTrianglesM
            || shown != prev
            || (shown.dof && ui.dofSlidersChanged)))
  }

  /**
   * The push constants after renderUI: untouched when the panel is closed;
   * otherwise paths per pixel at least one, both bounce limits clamped to
   * [0, 20], the flag word composed from the options. The frame is not
   * touched here.
   */
  function SanitiseUi(pc: PushConstants, ui: UiInput): (r: PushConstants)
    ensures r.frame == pc.frame
    ensures !ui.panelOpen ==> r == pc
    ensures ui.panelOpen ==> SanitisedPanel(pc, ui, r)
  {
    if !ui.panelOpen then pc
    else
      OptionsRoundTrip(UiOptions(pc.renderFlags, ui));
      pc.(numPathsPerPixel := if ui.numPathsPerPixel < 1 then 1 else ui.numPathsPerPixel,
          numGeomSamplesM := ui.numGeomSamplesM,
          numTrianglesM := ui.numTrianglesM,
          maxBounces := Clamp(ui.maxBounces, 0, MaxBounceLimit),
          firstBounce := Clamp(ui.firstBounce, 0, MaxBounceLimit),
          renderFlags := ComposeFlags(UiOptions(pc.renderFlags, ui)))
  }

  /** What the expanded panel promises about the new push constants r. */
  predicate SanitisedPanel(pc: PushConstants, ui: UiInput, r: PushConstants)
  {
    && r.numPathsPerPixel >= 1 && (ui.numPathsPerPixel >= 1 ==> r.numPathsPerPixel == ui.numPathsPerPixel)
    && 0 <= r.maxBounces <= MaxBounceLimit && 0 <= r.firstBounce <= MaxBounceLimit
    && (0 <= ui.maxBounces <= MaxBounceLimit ==> r.maxBounces == ui.maxBounces)
    && (0 <= ui.firstBounce <= MaxBounceLimit ==> r.firstBounce == ui.firstBounce)
    && r.numGeomSamplesM == ui.numGeomSamplesM && r.numTrianglesM == ui.numTrianglesM
    && r.numLightInstances == pc.numLightInstances && r.numEmissiveTris == pc.numEmissiveTris
    && OptionsOf(r.renderFlags) == UiOptions(pc.renderFlags, ui)
  }

  /** Sanitising is idempotent: a panel left untouched changes nothing more. */
  lemma SanitiseStable(pc: PushConstants, ui: UiInput)
    ensures var r := SanitiseUi(pc, ui);
      var again := UiInput(false, ui.accumulate, ui.panelOpen, r.maxBounces, r.firstBounce, r.numPathsPerPixel,
                           r.numGeomSamplesM, r.numTrianglesM, OptionsOf(r.renderFlags), false);
      SanitiseUi(r, again) == r && !UiChanged(r, again)
  {
    if ui.panelOpen {
      FlagsRoundTrip(SanitiseUi(pc, ui).renderFlags);
    }
  }

  /**
   * isBinaryFile: whether the last four characters are ".glb". A path
   * shorter than four characters makes the substring call throw, modelled as
   * None.
   */
  function IsBinaryFile(path: string): (r: Option<bool>)
    ensures |path| < 4 <==> r.None?
    ensures r.Some? ==> (r.value <==> exists prefix :: path == prefix + ".glb")
  {
    if |path| < 4 then None
    else
      var suffix := path[|path| - 4..];
      assert path == path[..|path| - 4] + suffix;
      assert forall prefix :: path == prefix + ".glb" ==> path[|path| - 4..] == ".glb";
      Some(suffix == ".glb")
  }

  datatype Option<T> = None | Some(value: T)
}
