/**
 The user-facing parameters of the JPEGCompression post-process volume
 component, with their default values, and the one query on them that the
 host makes before each frame: whether the component is active.
 */
module Config {
  import opened Int32

  /** A single-precision float the component only passes through to the
      kernel; its IEEE-754 bit pattern stands for it. */
  datatype Float32 = Float32(bits: bv32)

  const Zero: Float32 := Float32(0)
  const One: Float32 := Float32(0x3F80_0000)

  /** The compute shader asset, reduced to whether it declares a `CSMain`
      kernel and the thread-group footprint that kernel declares. */
  datatype ComputeShader = ComputeShader(declaresMain: bool, groupSizeX: uint32, groupSizeY: uint32, groupSizeZ: uint32)

  /** The serialized parameters of the component; `shader` is `None` while no
      compute shader has been assigned. */
  datatype Settings = Settings(
    shader: Option<ComputeShader>,
    useSpatialCompression: bool,
    screenDownsampling: int32,
    usePointFiltering: bool,
    compressionThreshold: Float32,
    fastPerformanceMode: int32,
    useTemporalCompression: bool,
    useIFrames: bool,
    numBFrames: int32,
    bitrate: Float32,
    bitrateArtifacts: Float32)

  datatype Option<+T> = None | Some(value: T)

  /** The parameter values of a freshly added component. */
  function Defaults(): (s: Settings)
    ensures !IsActive(s)
    ensures s.useSpatialCompression && !s.useTemporalCompression && s.useIFrames
    ensures s.numBFrames == 8 && s.screenDownsampling == 0 && !s.usePointFiltering
    ensures s.fastPerformanceMode == 0
    ensures s.bitrate == One && s.bitrateArtifacts == Zero && s.compressionThreshold == Zero
  {
    Settings(
      shader := None,
      useSpatialCompression := true,
      screenDownsampling := 0,
      usePointFiltering := false,
      compressionThreshold := Zero,
      fastPerformanceMode := 0,
      useTemporalCompression := false,
      useIFrames := true,
      numBFrames := 8,
      bitrate := One,
      bitrateArtifacts := Zero)
  }

  /** The performance mode is a clamped parameter: it only ever holds 0 or 1. */
  predicate Valid(s: Settings) {
    0 <= s.fastPerformanceMode <= 1
  }

  /** The component takes part in rendering exactly when a compute shader is
      assigned. */
  predicate IsActive(s: Settings) {
    s.shader.Some?
  }

  /** The kernel lookup succeeds: a shader is assigned and it declares
      `CSMain`. */
  predicate HasKernel(s: Settings) {
    s.shader.Some? && s.shader.value.declaresMain
  }

  /** The integer a boolean converts to when it is handed to the kernel. */
  function ToInt(b: bool): (r: int)
    ensures r == 0 || r == 1
    ensures r == 1 <==> b
  {
    if b then 1 else 0
  }

  lemma DefaultsValid()
    ensures Valid(Defaults())
  {
  }
}
