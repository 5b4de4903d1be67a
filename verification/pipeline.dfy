/**
 The JPEGCompression component's life cycle: `Setup` allocates the history
 buffers and restarts the cadence, `Render` records one frame's commands
 (motion refresh, kernel bindings, dispatch, history copy), `Cleanup`
 releases what it releases.
 */
module Pipeline {
  import opened Int32
  import opened Config
  import opened Cadence
  import opened Grid
  import opened Buffers
  import opened Gpu

  /** The compute kernel's entry point. */
  const Kernel: string := "CSMain"

  /** Refreshes the motion buffer with the motion-vector material; the buffer
      is named both as the blit's source and as its target. */
  const MotionBlit: Command := Blit(MotionFrame, MotionFrame, MotionMaterial)

  /** Copies this frame's output into the history buffer. */
  const HistoryBlit: Command := Blit(Destination, LastFrame, BypassMaterial)

  /** The component's state: its parameters, the buffers `Setup` created
      (none before the first `Setup`), and the cadence counter. */
  datatype Component = Component(settings: Settings, buffers: Option<FrameBuffers>, frameIndex: int32)

  /** The exceptions the host would see. */
  datatype Error = NullReference | KernelNotFound | DivideByZero

  datatype Outcome<T> = Ok(value: T) | Err(error: Error)

  datatype RenderResult = RenderResult(component: Component, trace: seq<Command>, error: Option<Error>)

  /** A component as the host constructs it: no buffers, counter at zero. */
  function Fresh(settings: Settings): (c: Component)
    ensures c.buffers.None? && c.frameIndex == 0 && c.settings == settings
  {
    Component(settings, None, 0)
  }

  function Setup(c: Component, screen: Size, targetTexture: Option<Size>): (r: Component)
    ensures r.settings == c.settings
    ensures r.frameIndex == 0
    ensures r.buffers.Some?
    ensures r.buffers.value.motionFrame.size == r.buffers.value.lastFrame.size
    ensures var base := BaseSize(screen, targetTexture);
            var rate := DownsampleRate(c.settings.screenDownsampling);
            r.buffers.value.lastFrame.size == Size(base.width / rate, base.height / rate)
  {
    Component(c.settings, Some(Allocate(c.settings, screen, targetTexture)), 0)
  }

  /** The kernel parameters, in the order they are set (their names, with the
      kernel's spelling, are `TextureParamName` and `ScalarParamName`). */
  function Bindings(s: Settings, isIFrame: bool, destination: Size): (cs: seq<Command>)
    ensures |cs| == 13
    ensures forall i :: 0 <= i < |cs| ==> IsBinding(cs[i])
  {
    TextureBindings + ModeBindings(s) + RateBindings(s, destination) + [SetInt(IsIFrame, ToInt(isIFrame))]
  }

  /** The kernel's four textures: the frame being processed, the output, the
      history and the motion field. */
  const TextureBindings: seq<Command> :=
    [ SetTexture(Kernel, Input, Source),
      SetTexture(Kernel, Result, Destination),
      SetTexture(Kernel, Last, LastFrame),
      SetTexture(Kernel, Motion, MotionFrame) ]

  /** The performance mode, threshold and compression toggles. */
  function ModeBindings(s: Settings): seq<Command> {
    [ SetInt(FastPerformanceMode, s.fastPerformanceMode as int),
      SetFloat(CompressionThreshold, s.compressionThreshold),
      SetInt(UseSpatial, ToInt(s.useSpatialCompression)),
      SetInt(UseTemporal, ToInt(s.useTemporalCompression)) ]
  }

  /** The bitrate knobs and the size of the output. */
  function RateBindings(s: Settings, destination: Size): seq<Command> {
    [ SetFloat(Bitrate, s.bitrate),
      SetFloat(BitrateArtifacts, s.bitrateArtifacts),
      SetInt(ResultWidth, destination.width),
      SetInt(ResultHeight, destination.height) ]
  }

  /** The classification `Render` makes for the component's next frame. */
  function Classify(c: Component, isPlaying: bool): Classification {
    Step(c.frameIndex, c.settings.numBFrames, c.settings.useIFrames, isPlaying)
  }

  /** The component after recording one frame: once the kernel is found the
      counter takes the classifier's step; before that nothing changes. */
  function Advance(c: Component, isPlaying: bool): (r: Component)
    ensures r.settings == c.settings && r.buffers == c.buffers
    ensures !HasKernel(c.settings) ==> r == c
    ensures HasKernel(c.settings) ==> r.frameIndex == Classify(c, isPlaying).counter
  {
    if HasKernel(c.settings) then c.(frameIndex := Classify(c, isPlaying).counter) else c
  }

  /** Records one frame. Without a shader the motion blit is already recorded
      when reading the shader fails, and likewise when the shader has no
      `CSMain` kernel; a zero group size fails the grid division after the
      counter has moved on. */
  function Render(c: Component, isPlaying: bool, destination: Size): (r: RenderResult)
    ensures r.error == Some(NullReference) <==> !IsActive(c.settings)
    ensures r.error == Some(KernelNotFound) <==> IsActive(c.settings) && !c.settings.shader.value.declaresMain
    ensures r.error.None? <==> HasKernel(c.settings) && c.settings.shader.value.groupSizeX >= 1 && c.settings.shader.value.groupSizeY >= 1
    ensures |r.trace| >= 1 && r.trace[0] == MotionBlit
    ensures r.component == Advance(c, isPlaying)
    ensures r.component.settings == c.settings && r.component.buffers == c.buffers
    ensures !HasKernel(c.settings) ==> r.component == c && |r.trace| == 1
    ensures HasKernel(c.settings) ==> r.component.frameIndex == Classify(c, isPlaying).counter
    ensures r.error.None? ==> |r.trace| == 16 && r.trace[14].Dispatch? && r.trace[15] == HistoryBlit
    ensures r.error == Some(DivideByZero) ==> forall i :: 0 <= i < |r.trace| ==> !r.trace[i].Dispatch? && r.trace[i] != HistoryBlit
  {
    match c.settings.shader
    case None =>
      RenderResult(c, [MotionBlit], Some(NullReference))
    case Some(shader) =>
      if !shader.declaresMain then
        RenderResult(c, [MotionBlit], Some(KernelNotFound))
      else
        var step := Classify(c, isPlaying);
        var next := Advance(c, isPlaying);
        var recorded := [MotionBlit] + Bindings(c.settings, step.isIFrame, destination);
        if shader.groupSizeX == 0 || shader.groupSizeY == 0 then
          RenderResult(next, recorded, Some(DivideByZero))
        else
          var dispatch := Dispatch(Kernel, GroupCount(destination.width, shader.groupSizeX),
                                   GroupCount(destination.height, shader.groupSizeY), 1);
          RenderResult(next, recorded + [dispatch, HistoryBlit], None)
  }

  /** Releases the motion buffer and nothing else; before any `Setup` there
      is no buffer to release. */
  function Cleanup(c: Component): (r: Outcome<Component>)
    ensures r.Ok? <==> c.buffers.Some?
    ensures r.Err? ==> r.error == NullReference
    ensures r.Ok? ==> && r.value.settings == c.settings
                      && r.value.frameIndex == c.frameIndex
                      && r.value.buffers.Some?
                      && r.value.buffers.value.motionFrame.released
                      && r.value.buffers.value.motionFrame.size == c.buffers.value.motionFrame.size
                      && r.value.buffers.value.lastFrame == c.buffers.value.lastFrame
  {
    match c.buffers
    case None => Err(NullReference)
    case Some(b) => Ok(c.(buffers := Some(b.(motionFrame := b.motionFrame.(released := true)))))
  }
}
