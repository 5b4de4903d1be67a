/**
 The frame history store: the motion buffer and the last-frame buffer that
 `Setup` allocates, both at the downsampled size of the camera's target.
 */
module Buffers {
  import opened Int32
  import opened Config

  datatype FilterMode = Point | Bilinear
  datatype ColorFormat = DefaultColor | R16G16B16A16SNorm
  datatype WrapMode = HostDefault | Repeat

  datatype Size = Size(width: Extent, height: Extent)

  /** What is known of a render texture once it is created: its size, depth
      buffer bits, format, whether compute kernels may write it, its sampler
      state, and whether it has been released. */
  datatype RenderTexture = RenderTexture(
    size: Size,
    depthBits: nat,
    format: ColorFormat,
    randomWrite: bool,
    filter: FilterMode,
    wrap: WrapMode,
    released: bool)

  datatype FrameBuffers = FrameBuffers(motionFrame: RenderTexture, lastFrame: RenderTexture)

  /** `max(1, screenDownsampling + 1)`, with the `+ 1` done in unchecked
      32-bit arithmetic: the largest setting wraps round to a rate of 1. */
  function DownsampleRate(screenDownsampling: int32): (r: int)
    ensures r >= 1
    ensures screenDownsampling as int < MaxValue ==> r == if screenDownsampling >= 0 then screenDownsampling as int + 1 else 1
    ensures screenDownsampling as int == MaxValue ==> r == 1
  {
    var sum := Increment(screenDownsampling);
    if sum as int > 1 then sum as int else 1
  }

  /** The size the buffers are derived from: the camera's target texture when
      it renders into one, the screen otherwise. */
  function BaseSize(screen: Size, targetTexture: Option<Size>): (base: Size)
    ensures targetTexture.Some? ==> base == targetTexture.value
    ensures targetTexture.None? ==> base == screen
  {
    match targetTexture
    case Some(t) => t
    case None => screen
  }

  /** Each axis divided by the rate, rounding down. */
  function Downsample(base: Size, rate: int): (r: Size)
    requires rate >= 1
    ensures r.width * rate <= base.width < (r.width + 1) * rate
    ensures r.height * rate <= base.height < (r.height + 1) * rate
  {
    var w, h := base.width / rate, base.height / rate;
    assert base.width == w * rate + base.width % rate;
    assert base.height == h * rate + base.height % rate;
    Size(w, h)
  }

  function FilterFor(usePointFiltering: bool): (f: FilterMode)
    ensures f == Point <==> usePointFiltering
    ensures f == Bilinear <==> !usePointFiltering
  {
    if usePointFiltering then Point else Bilinear
  }

  /** The two buffers `Setup` creates. The motion buffer is a signed 16-bit
      four-channel texture that kernels may write; the last-frame buffer has
      the default colour format and repeats at its edges. */
  function Allocate(settings: Settings, screen: Size, targetTexture: Option<Size>): (b: FrameBuffers)
    ensures b.motionFrame.size == b.lastFrame.size
    ensures b.motionFrame.filter == b.lastFrame.filter
    ensures b.motionFrame.filter == Point <==> settings.usePointFiltering
    ensures var base := if targetTexture.Some? then targetTexture.value else screen;
            var rate := DownsampleRate(settings.screenDownsampling);
            && b.motionFrame.size.width * rate <= base.width < (b.motionFrame.size.width + 1) * rate
            && b.motionFrame.size.height * rate <= base.height < (b.motionFrame.size.height + 1) * rate
    ensures b.motionFrame.format == R16G16B16A16SNorm && b.motionFrame.randomWrite
    ensures b.lastFrame.format == DefaultColor && b.lastFrame.wrap == Repeat
    ensures b.motionFrame.depthBits == 16 && b.lastFrame.depthBits == 16
    ensures !b.motionFrame.released && !b.lastFrame.released
  {
    var rate := DownsampleRate(settings.screenDownsampling);
    var size := Downsample(BaseSize(screen, targetTexture), rate);
    var filter := FilterFor(settings.usePointFiltering);
    FrameBuffers(
      motionFrame := RenderTexture(size, 16, R16G16B16A16SNorm, true, filter, HostDefault, false),
      lastFrame := RenderTexture(size, 16, DefaultColor, false, filter, Repeat, false))
  }

  /** The buffers' size is fully determined by the rate and the base size:
      two bases that agree give identical buffers, whatever else differs. */
  lemma AllocateDependsOnBaseOnly(s1: Settings, s2: Settings, screen1: Size, screen2: Size, t1: Option<Size>, t2: Option<Size>)
    requires s1.screenDownsampling == s2.screenDownsampling && s1.usePointFiltering == s2.usePointFiltering
    requires BaseSize(screen1, t1) == BaseSize(screen2, t2)
    ensures Allocate(s1, screen1, t1) == Allocate(s2, screen2, t2)
  {
  }

  /** With no downsampling the buffers are as large as the base. */
  lemma NoDownsamplingKeepsSize(settings: Settings, screen: Size, targetTexture: Option<Size>)
    requires settings.screenDownsampling <= 0
    ensures Allocate(settings, screen, targetTexture).lastFrame.size == BaseSize(screen, targetTexture)
  {
  }

  /** Half-resolution: a setting of 1 halves each axis, rounding down. */
  lemma HalfResolution(settings: Settings, screen: Size)
    requires settings.screenDownsampling == 1
    ensures Allocate(settings, screen, None).motionFrame.size == Size(screen.width / 2, screen.height / 2)
  {
  }
}
