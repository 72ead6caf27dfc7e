/**
 * What one frame of the animation loop passes to the physics step.  The
 * control panel holds the scatter checkbox and the radius and strength
 * sliders; a frame derives the hover point, radius and strength of the step
 * from them.
 */
module Animation {
  import opened RealMath
  import opened Scatter
  import opened Globe

  /** The control-panel state the step depends on: the scatter checkbox and the two sliders. */
  datatype Controls = Controls(scatterEnabled: bool, scatterRadius: real, scatterStrength: real)

  /** The values the controls start with. */
  const InitialControls := Controls(true, 0.35, 0.015)

  /** The hover point, radius and strength handed to one physics step. */
  datatype StepArgs = StepArgs(hover: Option<Vec3>, radius: real, strength: real)

  /**
   * The step's arguments for the controls `c`, whether the pointer is over
   * the globe, and the last hover point.  A disabled scatter passes no hover
   * point and strength 0, so the particles still relax.
   */
  function ArgumentsFrom(c: Controls, hovering: bool, hoverPoint: Vec3): (a: StepArgs)
    ensures a.radius == c.scatterRadius
    ensures !c.scatterEnabled ==> a.hover == None && a.strength == 0.0
    ensures c.scatterEnabled ==> a.strength == c.scatterStrength
    ensures c.scatterEnabled ==> (a.hover.Some? <==> hovering)
    ensures a.hover.Some? ==> a.hover.value == hoverPoint
  {
    StepArgs(if c.scatterEnabled && hovering then Some(hoverPoint) else None,
             c.scatterRadius,
             if c.scatterEnabled then c.scatterStrength else 0.0)
  }

  /**
   * The arguments as the component computes them.  The animation loop is
   * created once, by an effect that runs only on mount, so every frame reads
   * the controls as they were at mount, whatever the current ones are.
   */
  function ArgumentsAsWritten(current: Controls, hovering: bool, hoverPoint: Vec3): StepArgs
  {
    ArgumentsFrom(InitialControls, hovering, hoverPoint)
  }

  /**
   * The discrepancy: with scatter switched off while the pointer hovers, the
   * frame as written still passes the hover point and strength `0.015`, and a
   * particle near the hover point is pushed; the current controls would pass
   * no hover point and strength 0.
   */
  lemma StaleControlsStillPush(current: Controls, p: Vec3, x: real, sqrt: real -> real)
    requires SqrtLaw(sqrt) && !current.scatterEnabled && 0.0 < x < 0.001
    ensures ArgumentsAsWritten(current, true, p) == StepArgs(Some(p), 0.35, 0.015)
    ensures ArgumentsFrom(current, true, p) == StepArgs(None, current.scatterRadius, 0.0)
    ensures SquaredNorm(Vec3(x, 0.0, 0.0)) < 0.35 * 0.35
    ensures Push(Vec3(x, 0.0, 0.0), 0.35, 0.015, sqrt).x > 0.0
  {
    assert ArgumentsAsWritten(current, true, p) == StepArgs(Some(p), 0.35, 0.015);
    assert ArgumentsFrom(current, true, p) == StepArgs(None, current.scatterRadius, 0.0);
    SubFloorPushGrows(x, sqrt);
  }

  /** One animation frame over the buffers, with the controls current at that frame. */
  function AnimationFrame(f: Field, c: Controls, hovering: bool, hoverPoint: Vec3, decay: real,
                          sqrt: real -> real): (r: Field)
    requires WellFormed(f) && SqrtLaw(sqrt)
    ensures WellFormed(r) && r.Buffers? == f.Buffers?
  {
    var a := ArgumentsFrom(c, hovering, hoverPoint);
    StepField(f, a.hover, a.radius, a.strength, decay, sqrt)
  }

  /**
   * With scatter switched off a frame only relaxes: the displacements are
   * damped by `decay`, the rest positions are kept and the rendered array
   * follows, wherever the pointer is.
   */
  lemma DisabledFrameRelaxes(f: Field, c: Controls, hovering: bool, hoverPoint: Vec3, decay: real,
                             sqrt: real -> real)
    requires WellFormed(f) && SqrtLaw(sqrt) && !c.scatterEnabled
    ensures f.Unallocated? ==> AnimationFrame(f, c, hovering, hoverPoint, decay, sqrt) == f
    ensures f.Buffers? ==> AnimationFrame(f, c, hovering, hoverPoint, decay, sqrt)
                           == Buffers(f.base, Damped(f.disp, decay), Applied(f.base, Damped(f.disp, decay)))
  {
    if f.Buffers? {
      NoHoverOnlyDamps(f.base, f.disp, c.scatterRadius, 0.0, decay, sqrt);
    }
  }
}
