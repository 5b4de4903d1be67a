/**
 What a recorded frame does when the device runs it: the order of the
 passes, the kernel bindings in force at the dispatch, and the history the
 kernel reads, frame after frame.
 */
module Frames {
  import opened Int32
  import opened Config
  import opened Cadence
  import opened Buffers
  import opened Gpu
  import opened Pipeline

  /** A successful frame has exactly one dispatch, preceded by the motion blit
      and followed by the history blit, and no other blit; its grid covers the
      destination with the fewest groups of the kernel's size, one deep. */
  lemma RenderOrder(c: Component, isPlaying: bool, destination: Size)
    requires Render(c, isPlaying, destination).error.None?
    ensures var t := Render(c, isPlaying, destination).trace;
      && (forall i :: 0 <= i < |t| ==> (t[i].Dispatch? <==> i == |t| - 2))
      && (forall i :: 0 <= i < |t| ==> (t[i].Blit? <==> i == 0 || i == |t| - 1))
      && t[0] == MotionBlit && t[|t| - 1] == HistoryBlit
  {
    var t := Render(c, isPlaying, destination).trace;
    var step := Classify(c, isPlaying);
    var b := Bindings(c.settings, step.isIFrame, destination);
    assert t[1..14] == b;
  }

  lemma RenderGrid(c: Component, isPlaying: bool, destination: Size)
    requires Render(c, isPlaying, destination).error.None?
    ensures var t := Render(c, isPlaying, destination).trace;
      var shader := c.settings.shader.value;
      && t[14].kernel == Kernel
      && t[14].groupsX * shader.groupSizeX >= destination.width
      && (t[14].groupsX - 1) * shader.groupSizeX < destination.width
      && t[14].groupsY * shader.groupSizeY >= destination.height
      && (t[14].groupsY - 1) * shader.groupSizeY < destination.height
      && t[14].groupsZ == 1
  {
  }

  /** The device state left by the parameter-setting commands. */
  lemma ExecBindings(d: Device, s: Settings, isIFrame: bool, destination: Size)
    ensures var e := ExecAll(d, Bindings(s, isIFrame, destination));
      e == d.(textures := d.textures[Input := Source][Result := Destination][Last := LastFrame][Motion := MotionFrame],
              ints := d.ints[FastPerformanceMode := s.fastPerformanceMode as int][UseSpatial := ToInt(s.useSpatialCompression)]
                            [UseTemporal := ToInt(s.useTemporalCompression)][ResultWidth := destination.width]
                            [ResultHeight := destination.height][IsIFrame := ToInt(isIFrame)],
              floats := d.floats[CompressionThreshold := s.compressionThreshold][Bitrate := s.bitrate]
                                [BitrateArtifacts := s.bitrateArtifacts])
  {
    var last := [SetInt(IsIFrame, ToInt(isIFrame))];
    var a := TextureBindings + ModeBindings(s);
    var b := a + RateBindings(s, destination);
    ExecAllAppend(d, TextureBindings, ModeBindings(s));
    ExecAllAppend(d, a, RateBindings(s, destination));
    ExecAllAppend(d, b, last);
    var e1 := ExecAll(d, TextureBindings);
    ExecTextureBindings(d);
    var e2 := ExecAll(e1, ModeBindings(s));
    ExecModeBindings(e1, s);
    var e3 := ExecAll(e2, RateBindings(s, destination));
    ExecRateBindings(e2, s, destination);
    assert last[1..] == [];
    assert ExecAll(e3, last) == Exec(e3, last[0]);
  }

  lemma ExecTextureBindings(d: Device)
    ensures ExecAll(d, TextureBindings)
         == d.(textures := d.textures[Input := Source][Result := Destination][Last := LastFrame][Motion := MotionFrame])
  {
    var b := TextureBindings;
    var e1 := d.(textures := d.textures[Input := Source]);
    var e2 := e1.(textures := e1.textures[Result := Destination]);
    var e3 := e2.(textures := e2.textures[Last := LastFrame]);
    var e4 := e3.(textures := e3.textures[Motion := MotionFrame]);
    assert Exec(d, b[0]) == e1;
    assert Exec(e1, b[1]) == e2;
    assert Exec(e2, b[2]) == e3;
    assert Exec(e3, b[3]) == e4;
    assert ExecAll(e4, b[4..]) == e4;
    assert ExecAll(e3, b[3..]) == e4;
    assert ExecAll(e2, b[2..]) == e4;
    assert ExecAll(e1, b[1..]) == e4;
  }

  lemma ExecModeBindings(d: Device, s: Settings)
    ensures ExecAll(d, ModeBindings(s))
         == d.(ints := d.ints[FastPerformanceMode := s.fastPerformanceMode as int][UseSpatial := ToInt(s.useSpatialCompression)]
                             [UseTemporal := ToInt(s.useTemporalCompression)],
               floats := d.floats[CompressionThreshold := s.compressionThreshold])
  {
    var b := ModeBindings(s);
    var e1 := d.(ints := d.ints[FastPerformanceMode := s.fastPerformanceMode as int]);
    var e2 := e1.(floats := e1.floats[CompressionThreshold := s.compressionThreshold]);
    var e3 := e2.(ints := e2.ints[UseSpatial := ToInt(s.useSpatialCompression)]);
    var e4 := e3.(ints := e3.ints[UseTemporal := ToInt(s.useTemporalCompression)]);
    assert Exec(d, b[0]) == e1;
    assert Exec(e1, b[1]) == e2;
    assert Exec(e2, b[2]) == e3;
    assert Exec(e3, b[3]) == e4;
    assert ExecAll(e4, b[4..]) == e4;
    assert ExecAll(e3, b[3..]) == e4;
    assert ExecAll(e2, b[2..]) == e4;
    assert ExecAll(e1, b[1..]) == e4;
  }

  lemma ExecRateBindings(d: Device, s: Settings, destination: Size)
    ensures ExecAll(d, RateBindings(s, destination))
         == d.(ints := d.ints[ResultWidth := destination.width][ResultHeight := destination.height],
               floats := d.floats[Bitrate := s.bitrate][BitrateArtifacts := s.bitrateArtifacts])
  {
    var b := RateBindings(s, destination);
    var e1 := d.(floats := d.floats[Bitrate := s.bitrate]);
    var e2 := e1.(floats := e1.floats[BitrateArtifacts := s.bitrateArtifacts]);
    var e3 := e2.(ints := e2.ints[ResultWidth := destination.width]);
    var e4 := e3.(ints := e3.ints[ResultHeight := destination.height]);
    assert Exec(d, b[0]) == e1;
    assert Exec(e1, b[1]) == e2;
    assert Exec(e2, b[2]) == e3;
    assert Exec(e3, b[3]) == e4;
    assert ExecAll(e4, b[4..]) == e4;
    assert ExecAll(e3, b[3..]) == e4;
    assert ExecAll(e2, b[2..]) == e4;
    assert ExecAll(e1, b[1..]) == e4;
  }

  /** The kernel is ready for a frame: Input, Result, Last and Motion are
      bound to the source, destination, history and motion buffers, so the
      output is none of the textures the kernel reads; the toggles and the
      I-frame flag are 1 exactly when their condition holds and 0 otherwise;
      ResultWidth and ResultHeight are the destination size; the performance
      mode and the float parameters are the settings' values. */
  ghost predicate Armed(e: Device, s: Settings, isIFrame: bool, destination: Size) {
    && {Input, Result, Last, Motion} <= e.textures.Keys
    && {FastPerformanceMode, UseSpatial, UseTemporal, ResultWidth, ResultHeight, IsIFrame} <= e.ints.Keys
    && {CompressionThreshold, Bitrate, BitrateArtifacts} <= e.floats.Keys
    && e.textures[Input] == Source && e.textures[Result] == Destination
    && e.textures[Last] == LastFrame && e.textures[Motion] == MotionFrame
    && e.textures[Result] != e.textures[Input]
    && e.textures[Result] != e.textures[Last]
    && e.textures[Result] != e.textures[Motion]
    && e.ints[FastPerformanceMode] == s.fastPerformanceMode as int
    && (e.ints[UseSpatial] == 1 <==> s.useSpatialCompression)
    && (e.ints[UseTemporal] == 1 <==> s.useTemporalCompression)
    && e.ints[UseSpatial] in {0, 1} && e.ints[UseTemporal] in {0, 1}
    && e.ints[ResultWidth] == destination.width && e.ints[ResultHeight] == destination.height
    && (e.ints[IsIFrame] == 1 <==> isIFrame)
    && e.ints[IsIFrame] in {0, 1}
    && e.floats[CompressionThreshold] == s.compressionThreshold
    && e.floats[Bitrate] == s.bitrate && e.floats[BitrateArtifacts] == s.bitrateArtifacts
  }

  /** The parameter commands arm the kernel from any device state, and touch
      no texture. */
  lemma BindingsArm(d: Device, s: Settings, isIFrame: bool, destination: Size)
    ensures var e := ExecAll(d, Bindings(s, isIFrame, destination));
      e.memory == d.memory && Armed(e, s, isIFrame, destination)
  {
    ExecBindings(d, s, isIFrame, destination);
  }

  /** The commands up to the dispatch. */
  lemma TraceBeforeDispatch(c: Component, isPlaying: bool, destination: Size)
    requires HasKernel(c.settings)
    ensures var t := Render(c, isPlaying, destination).trace;
      |t| >= 14 && t[..14] == [MotionBlit] + Bindings(c.settings, Classify(c, isPlaying).isIFrame, destination)
  {
  }

  /** The state at the dispatch: the motion buffer holds this frame's vectors
      and the kernel is armed with this frame's parameters. This holds also
      when the grid division then fails. */
  lemma RenderBindings(c: Component, isPlaying: bool, destination: Size, d: Device)
    requires HasKernel(c.settings)
    ensures var t := Render(c, isPlaying, destination).trace;
      |t| >= 14 &&
      var e := ExecAll(d, t[..14]);
      && e.memory == d.memory[MotionFrame := MotionVectors(d.frame)]
      && Armed(e, c.settings, Classify(c, isPlaying).isIFrame, destination)
  {
    var isIFrame := Classify(c, isPlaying).isIFrame;
    var b := Bindings(c.settings, isIFrame, destination);
    TraceBeforeDispatch(c, isPlaying, destination);
    ExecAllAppend(d, [MotionBlit], b);
    assert ExecAll(d, [MotionBlit]) == Exec(d, MotionBlit) by {
      assert [MotionBlit][1..] == [];
    }
    BindingsArm(Exec(d, MotionBlit), c.settings, isIFrame, destination);
  }

  /** One complete frame on the device: the destination receives the kernel's
      compression of the source against the history held before the frame and
      this frame's motion vectors; the history then equals the destination. */
  lemma RenderFrame(c: Component, isPlaying: bool, destination: Size, d: Device)
    requires Render(c, isPlaying, destination).error.None?
    ensures var e := ExecAll(d, Render(c, isPlaying, destination).trace);
      && Read(e, Destination) == Compressed(Read(d, Source), Read(d, LastFrame), MotionVectors(d.frame),
                                            ToInt(Classify(c, isPlaying).isIFrame))
      && Read(e, LastFrame) == Read(e, Destination)
      && Read(e, MotionFrame) == MotionVectors(d.frame)
      && Read(e, Source) == Read(d, Source)
  {
    var t := Render(c, isPlaying, destination).trace;
    RenderBindings(c, isPlaying, destination, d);
    TraceSplit(t);
    DispatchThenCopy(ExecAll(d, t[..14]), t[14]);
  }

  /** A successful frame is its first fourteen commands, then the dispatch
      and the history blit. */
  lemma TraceSplit(t: seq<Command>)
    requires |t| == 16
    ensures forall d :: ExecAll(d, t) == ExecAll(ExecAll(d, t[..14]), [t[14], t[15]])
  {
    assert t == t[..14] + [t[14], t[15]];
    forall d {
      ExecAllAppend(d, t[..14], [t[14], t[15]]);
    }
  }

  /** A dispatch followed by the history blit, from a device whose kernel
      writes the destination and reads source, history and motion buffers. */
  lemma DispatchThenCopy(e: Device, dispatch: Command)
    requires dispatch.Dispatch?
    requires Input in e.textures && Result in e.textures && Last in e.textures && Motion in e.textures
    requires e.textures[Input] == Source && e.textures[Result] == Destination
    requires e.textures[Last] == LastFrame && e.textures[Motion] == MotionFrame
    ensures var f := ExecAll(e, [dispatch, HistoryBlit]);
      && Read(f, Destination) == Compressed(Read(e, Source), Read(e, LastFrame), Read(e, MotionFrame), IntOr(e, IsIFrame, 0))
      && Read(f, LastFrame) == Read(f, Destination)
      && Read(f, MotionFrame) == Read(e, MotionFrame)
      && Read(f, Source) == Read(e, Source)
  {
    var cs := [dispatch, HistoryBlit];
    var e1 := Exec(e, dispatch);
    var e2 := Exec(e1, HistoryBlit);
    assert cs[1..] == [HistoryBlit];
    assert [HistoryBlit][1..] == [];
    assert ExecAll(e1, [HistoryBlit]) == e2;
    assert ExecAll(e, cs) == ExecAll(e1, cs[1..]);
  }

  /** The host's part between two frames: it presents the next source image,
      and it may leave anything in the destination. */
  function Present(d: Device, frame: nat, leftover: Content): (d': Device)
    ensures Read(d', Source) == SourceImage(frame) && Read(d', Destination) == leftover
    ensures d'.frame == frame
    ensures Read(d', LastFrame) == Read(d, LastFrame) && Read(d', MotionFrame) == Read(d, MotionFrame)
  {
    d.(memory := d.memory[Source := SourceImage(frame)][Destination := leftover], frame := frame)
  }

  /** The kernel of the second of two consecutive frames reads, as its history,
      exactly the output of the first, whatever the host did to the
      destination in between. */
  lemma HistoryCarried(c: Component, play1: bool, play2: bool, dest1: Size, dest2: Size,
                       d: Device, next: nat, leftover: Content)
    requires Render(c, play1, dest1).error.None?
    ensures var r1 := Render(c, play1, dest1);
      var d1 := ExecAll(d, r1.trace);
      var r2 := Render(r1.component, play2, dest2);
      var d2 := ExecAll(Present(d1, next, leftover), r2.trace);
      && r2.error.None?
      && Read(d2, Destination) == Compressed(SourceImage(next), Read(d1, Destination), MotionVectors(next),
                                             ToInt(Classify(r1.component, play2).isIFrame))
  {
    var r1 := Render(c, play1, dest1);
    var d1 := ExecAll(d, r1.trace);
    RenderFrame(c, play1, dest1, d);
    RenderFrame(r1.component, play2, dest2, Present(d1, next, leftover));
  }

  /** The component before frame `n` of a session in which the application
      keeps playing. */
  function Session(c: Component, n: nat): (s: Component)
    ensures s.settings == c.settings && s.buffers == c.buffers
  {
    if n == 0 then c else Advance(Session(c, n - 1), true)
  }

  /** The device after `n` frames of that session: before frame `k` the host
      presents source image `k`, then the frame's recorded commands run. */
  function Play(c: Component, d: Device, n: nat, destination: Size): (e: Device)
    ensures e.frame == if n == 0 then d.frame else n - 1
  {
    if n == 0 then d
    else
      var prev := Play(c, d, n - 1, destination);
      var shown := Present(prev, n - 1, Read(prev, Destination));
      ExecAll(shown, Render(Session(c, n - 1), true, destination).trace)
  }

  /** After `Setup`, the counter before frame `k` of a playing session is the
      classifier's `CounterAt(k)`. */
  lemma {:induction false} PlayCounter(c: Component, k: nat)
    requires c.frameIndex == 0 && HasKernel(c.settings)
    ensures Session(c, k).frameIndex == CounterAt(k, c.settings.numBFrames, c.settings.useIFrames)
  {
    if k > 0 {
      PlayCounter(c, k - 1);
      CounterAtNext(k - 1, c.settings.numBFrames, c.settings.useIFrames);
    }
  }

  /** After `Setup`, frame `k` of a playing session compresses source image
      `k` against the output of frame `k - 1` (the history buffer left by the
      previous frame), with the I-frame flag the cadence gives frame `k`. */
  lemma PlaySession(c: Component, d: Device, k: nat, destination: Size)
    requires c.frameIndex == 0 && HasKernel(c.settings)
    requires c.settings.shader.value.groupSizeX >= 1 && c.settings.shader.value.groupSizeY >= 1
    ensures var s := c.settings;
      Read(Play(c, d, k + 1, destination), LastFrame)
        == Compressed(SourceImage(k), Read(Play(c, d, k, destination), LastFrame), MotionVectors(k),
                      ToInt(IsIFrameAt(k, s.numBFrames, s.useIFrames)))
  {
    var p := Session(c, k);
    PlayCounter(c, k);
    var prev := Play(c, d, k, destination);
    var shown := Present(prev, k, Read(prev, Destination));
    assert Play(c, d, k + 1, destination) == ExecAll(shown, Render(p, true, destination).trace);
    assert Classify(p, true).isIFrame == IsIFrameAt(k, c.settings.numBFrames, c.settings.useIFrames);
    RenderFrame(p, true, destination, shown);
  }

  /** With I-frames on, the history written by frame `k` carries the I-frame
      flag exactly on the multiples of `max(numBFrames, 0) + 1`. */
  lemma PlayCadence(c: Component, d: Device, k: nat, destination: Size)
    requires c.frameIndex == 0 && HasKernel(c.settings) && c.settings.useIFrames
    requires c.settings.shader.value.groupSizeX >= 1 && c.settings.shader.value.groupSizeY >= 1
    ensures var out := Read(Play(c, d, k + 1, destination), LastFrame);
      out.Compressed? && (out.iFrame == 1 <==> k % (Reset(c.settings.numBFrames) as int + 1) == 0)
  {
    PlaySession(c, d, k, destination);
    CadenceFlag(Read(Play(c, d, k + 1, destination), LastFrame), k, c.settings.numBFrames);
  }

  /** An output flagged as the cadence flags frame `k` is flagged on the
      period's multiples. */
  lemma CadenceFlag(out: Content, k: nat, numBFrames: int32)
    requires out.Compressed? && out.iFrame == ToInt(IsIFrameAt(k, numBFrames, true))
    ensures out.iFrame == 1 <==> k % (Reset(numBFrames) as int + 1) == 0
  {
    Periodic(k, numBFrames);
  }

  /** Without a shader, or with one that lacks `CSMain`, nothing reaches the
      kernel: the frame records only the motion blit, so running it changes no
      texture but the motion buffer and binds no parameter. */
  lemma InactiveFrame(c: Component, isPlaying: bool, destination: Size, d: Device)
    requires !HasKernel(c.settings)
    ensures var e := ExecAll(d, Render(c, isPlaying, destination).trace);
      && e.memory == d.memory[MotionFrame := MotionVectors(d.frame)]
      && e.textures == d.textures && e.ints == d.ints && e.floats == d.floats
  {
    var t := Render(c, isPlaying, destination).trace;
    assert t[1..] == [];
  }

  /** Setting up twice at the same size gives the same component as once. */
  lemma SetupIdempotent(c: Component, screen: Size, targetTexture: Option<Size>)
    ensures Setup(Setup(c, screen, targetTexture), screen, targetTexture) == Setup(c, screen, targetTexture)
  {
  }

  /** The device side of `Setup`: the motion and last-frame buffers are new
      textures that nothing has written yet; every other texture, binding and
      the frame number stay as they were. */
  function SetupDevice(d: Device): (e: Device)
    ensures Read(e, MotionFrame) == Blank && Read(e, LastFrame) == Blank
    ensures Read(e, Source) == Read(d, Source) && Read(e, Destination) == Read(d, Destination)
    ensures e.textures == d.textures && e.ints == d.ints && e.floats == d.floats && e.frame == d.frame
  {
    d.(memory := d.memory - {MotionFrame, LastFrame})
  }

  /** The first frame after `Setup` is an I-frame and its kernel reads no
      history: whatever earlier frames wrote, its output is the compression of
      the source against an unwritten history buffer. */
  lemma FirstFrameAfterSetup(c: Component, screen: Size, targetTexture: Option<Size>,
                             isPlaying: bool, destination: Size, d: Device)
    requires HasKernel(c.settings)
    requires c.settings.shader.value.groupSizeX >= 1 && c.settings.shader.value.groupSizeY >= 1
    ensures var r := Render(Setup(c, screen, targetTexture), isPlaying, destination);
      var e := ExecAll(SetupDevice(d), r.trace);
      && r.error.None?
      && Read(e, Destination) == Compressed(Read(d, Source), Blank, MotionVectors(d.frame), 1)
      && Read(e, LastFrame) == Read(e, Destination)
  {
    var c' := Setup(c, screen, targetTexture);
    assert Classify(c', isPlaying).isIFrame;
    RenderFrame(c', isPlaying, destination, SetupDevice(d));
  }

  /** Setting up again at a new size keeps nothing of the old buffers: both are
      sized from the new base, the cadence restarts, and the next frame's
      output does not depend on anything the frames before the new `Setup`
      left in the motion or history buffers. */
  lemma SetupAfterResize(c: Component, screen1: Size, t1: Option<Size>, screen2: Size, t2: Option<Size>,
                         isPlaying: bool, destination: Size, d1: Device, d2: Device)
    requires HasKernel(c.settings)
    requires c.settings.shader.value.groupSizeX >= 1 && c.settings.shader.value.groupSizeY >= 1
    requires Read(d1, Source) == Read(d2, Source) && d1.frame == d2.frame
    ensures Setup(Setup(c, screen1, t1), screen2, t2) == Setup(c, screen2, t2)
    ensures var t := Render(Setup(Setup(c, screen1, t1), screen2, t2), isPlaying, destination).trace;
      Read(ExecAll(SetupDevice(d1), t), Destination) == Read(ExecAll(SetupDevice(d2), t), Destination)
  {
    var c1 := Setup(c, screen1, t1);
    FirstFrameAfterSetup(c1, screen2, t2, isPlaying, destination, d1);
    FirstFrameAfterSetup(c1, screen2, t2, isPlaying, destination, d2);
  }

  /** `Cleanup` after `Setup` leaves the last-frame buffer unreleased. */
  lemma CleanupKeepsLastFrame(c: Component, screen: Size, targetTexture: Option<Size>)
    ensures var r := Cleanup(Setup(c, screen, targetTexture));
      && r.Ok?
      && r.value.buffers.value.motionFrame.released
      && !r.value.buffers.value.lastFrame.released
  {
  }
}
