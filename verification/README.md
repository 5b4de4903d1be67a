# JPEGCompression post-process: per-frame control logic in Dafny

This project models the control logic of the `JPEGCompression` custom
post-process volume component for Unity's HDRP. The component makes a
rendered frame stream look like a bandwidth-starved video codec produced it.
The model covers:

- the component's parameters and their defaults (`Config`);
- the I/P-frame classifier driven by the `frameIndex` countdown (`Cadence`);
- the sizing of the two history buffers that `Setup` creates (`Buffers`);
- the dispatch-grid arithmetic (`Grid`);
- the command trace that `Render` records each frame, and what `Cleanup`
  releases (`Pipeline`).

Unity's command buffer is modelled as a list of abstract commands (`Gpu.Command`).
A small symbolic device (`Gpu.Device`) runs such a list in order. On it, the
lemmas in `Frames` prove three things: the order of the passes, the kernel
bindings in force at the dispatch, and that each frame's kernel reads the
previous frame's output as its history. Over a whole playing session, they
also prove that the I-frame flag follows the cadence.

The host's unchecked 32-bit `int` arithmetic is written out explicitly
(`Int32.Increment`, `Int32.Decrement`). Where it matters:

- a `screenDownsampling` of `int.MaxValue` wraps to a downsample rate of 1;
- a kernel group size of 0 makes the grid division throw, after the
  `IsIFrame` binding has been recorded and the counter has moved.

Behaviours of the code that the model keeps as written:

- `Render` does not check `IsActive`. With no compute shader assigned, it
  records the motion blit and then fails with a null reference when it looks
  up the kernel. The counter does not move. The same holds when the assigned
  shader declares no `CSMain` kernel: the lookup throws after the motion
  blit, before any binding.
- The motion blit names the motion buffer as both its source and its target.
- There is no resize detection. Buffer sizes are fixed by `Setup`, and every
  `Setup` restarts the cadence at 0.
- `Setup` has no zero-area check. A zero-sized base gives zero-sized buffers.
- `Cleanup` releases only the motion buffer. The last-frame buffer is never
  released, and a repeated `Setup` replaces both buffers without releasing
  the old ones.

## Model

| member | source | states |
|---|---|---|
| Config.Defaults | JPEGCompressionShader/JPEGCompression.cs:12-45 | a new component has no shader (so it is inactive), spatial on, temporal off, I-frames on, 8 predicted frames, no downsampling, bilinear filtering, performance mode 0, bitrate 1.0, artifacts and threshold 0.0 |
| Config.ToInt | JPEGCompressionShader/JPEGCompression.cs:119-121 | a boolean handed to the kernel becomes 1 exactly when it is true and 0 otherwise |
| Config.IsActive | JPEGCompressionShader/JPEGCompression.cs:61 | the component is active exactly when a compute shader is assigned; `Pipeline.Render` fails with a null reference exactly when it is not |
| Int32.Increment | JPEGCompressionShader/JPEGCompression.cs:79 | unchecked `+ 1`: adds one below `int.MaxValue` and wraps `int.MaxValue` to `int.MinValue` |
| Int32.Decrement | JPEGCompressionShader/JPEGCompression.cs:134 | unchecked `--`: subtracts one above `int.MinValue` and wraps `int.MinValue` to `int.MaxValue` |
| Cadence.Reset | JPEGCompressionShader/JPEGCompression.cs:130 | the I-frame reset value is non-negative, at least `numBFrames`, and is `numBFrames` itself or 0 |
| Cadence.Step | JPEGCompressionShader/JPEGCompression.cs:128-135 | a frame is an I-frame iff the counter is 0 or the application is not playing; an I-frame resets the counter to `max(numBFrames, 0)`; a predicted frame decrements a positive counter when I-frames are on and leaves it alone when they are off; a non-negative counter stays non-negative and never exceeds the previous value or the reset value |
| Cadence.RunFrames | JPEGCompressionShader/JPEGCompression.cs:128-135 | over any frame sequence, even one where `numBFrames`, `useIFrames` and playing change from frame to frame, a counter that starts non-negative ends non-negative, and every non-playing frame is an I-frame |
| Cadence.RunFramesCounter | JPEGCompressionShader/JPEGCompression.cs:128-135 | running the step from the counter of frame j over any sequence of playing frames with fixed knobs ends with the counter the per-index definition `CounterAt` gives for frame j + n |
| Cadence.RunFramesMatchesCounterAt | JPEGCompressionShader/JPEGCompression.cs:128-135 | over the same sequences, the step classifies its k-th frame exactly as the per-index definition `IsIFrameAt` does for frame j + k |
| Cadence.Countdown | JPEGCompressionShader/JPEGCompression.cs:128-135 | with I-frames on, a playing frame resets a zero counter to `max(numBFrames, 0)` and decrements a positive one |
| Cadence.CounterAtIsPhase | JPEGCompressionShader/JPEGCompression.cs:128-135 | with I-frames on, the counter before frame k after `Setup` is the distance to the end of the current period of length `max(c, 0) + 1` |
| Cadence.Periodic | JPEGCompressionShader/JPEGCompression.cs:128-135 | with I-frames on and playing, frame k after `Setup` is an I-frame iff `k mod (max(c, 0) + 1) == 0` |
| Cadence.OneIFramePerPeriod | JPEGCompressionShader/JPEGCompression.cs:128-135 | each aligned window of `max(c, 0) + 1` frames holds exactly one I-frame, at its start |
| Cadence.NextIFrame | JPEGCompressionShader/JPEGCompression.cs:128-135 | with I-frames on, from any frame k the frame `Phase(k)` later is an I-frame and `Phase(k) <= max(c, 0)`, so every window of `max(c, 0) + 1` consecutive frames, aligned or not, holds an I-frame |
| Cadence.AllIFramesWithoutPrediction | JPEGCompressionShader/JPEGCompression.cs:128-130 | with `numBFrames <= 0`, whether I-frames are on or off, the counter is 0 before every frame after `Setup` and every frame is an I-frame |
| Cadence.TwoPredictedFrames | JPEGCompressionShader/JPEGCompression.cs:128-135 | with I-frames on, `numBFrames = 2` gives the sequence I, P, P, I, P, P |
| Cadence.PredictedForever | JPEGCompressionShader/JPEGCompression.cs:132-134 | with I-frames off and `numBFrames > 0`, every playing frame after the first keeps the counter at `numBFrames` and is predicted |
| Cadence.FirstFrameIsIFrame | JPEGCompressionShader/JPEGCompression.cs:128-130 | the first frame after `Setup` is an I-frame, whatever the knobs |
| Buffers.DownsampleRate | JPEGCompressionShader/JPEGCompression.cs:79 | the rate is at least 1; it is `screenDownsampling + 1` for non-negative settings, 1 for negative ones, and 1 for `int.MaxValue`, where the addition wraps |
| Buffers.BaseSize | JPEGCompressionShader/JPEGCompression.cs:81-85 | the base is the camera's target texture size when there is a target texture, the screen size otherwise |
| Buffers.Downsample | JPEGCompressionShader/JPEGCompression.cs:82-85 | each axis is the largest n with `n * rate <= base`, i.e. integer division rounding down |
| Buffers.FilterFor | JPEGCompressionShader/JPEGCompression.cs:91 | the filter mode is point iff point filtering is requested, bilinear otherwise |
| Buffers.Allocate | JPEGCompressionShader/JPEGCompression.cs:79-99 | motion and last-frame buffers have identical sizes, `base / rate` per axis with base from the target texture or screen, the same filter (point iff requested), 16 depth bits; the motion buffer is signed 16-bit RGBA and kernel-writable, the last-frame buffer repeats at its edges; neither is released |
| Buffers.AllocateDependsOnBaseOnly | JPEGCompressionShader/JPEGCompression.cs:79-99 | the buffers depend only on the downsampling and filtering settings and the base size |
| Buffers.NoDownsamplingKeepsSize | JPEGCompressionShader/JPEGCompression.cs:79-85 | with `screenDownsampling <= 0` the buffers are exactly the base size |
| Buffers.HalfResolution | JPEGCompressionShader/JPEGCompression.cs:79-82 | `screenDownsampling = 1` without a target texture gives half the screen size, rounded down |
| Grid.GroupCount | JPEGCompressionShader/JPEGCompression.cs:137-140 | for group size g >= 1 the count n covers the extent (`n * g >= w`) and one group fewer does not (`(n - 1) * g < w`) |
| Grid.GroupCountIsLeast | JPEGCompressionShader/JPEGCompression.cs:138-139 | no smaller number of groups covers the extent: the count is the ceiling of `w / g` |
| Grid.GroupCountExact | JPEGCompressionShader/JPEGCompression.cs:138-139 | an extent of exactly q groups gets q groups |
| Grid.GroupCountSmall | JPEGCompressionShader/JPEGCompression.cs:138-139 | an empty extent gets no groups and a one-pixel extent gets one |
| Gpu.ParamNamesDistinct | JPEGCompressionShader/JPEGCompression.cs:111-135 | the kernel parameter names, including the spellings `FastPerfomanceMode` and `UseSpacial`, are pairwise distinct, so no binding overwrites another |
| Pipeline.Fresh | JPEGCompressionShader/JPEGCompression.cs:59 | a constructed component has no buffers and a counter of 0 |
| Pipeline.Setup | JPEGCompressionShader/JPEGCompression.cs:72-100 | `Setup` keeps the settings, restarts the counter at 0 and creates both buffers at the same size, `base / rate` per axis (the textures' contents are `Frames.SetupDevice`) |
| Pipeline.Bindings | JPEGCompressionShader/JPEGCompression.cs:111-135 | the thirteen kernel parameter commands in the source's order: Input, Result, Last and Motion textures; FastPerfomanceMode, CompressionThreshold, UseSpacial, UseTemporal, Bitrate, BitrateArtifacts, ResultWidth, ResultHeight and IsIFrame; all of them are parameter-setting commands that touch no texture |
| Pipeline.Render | JPEGCompressionShader/JPEGCompression.cs:102-143 | the frame fails with a null reference iff no shader is assigned, and with a kernel-not-found error iff the assigned shader lacks `CSMain`; it succeeds iff the kernel is found and both group sizes are positive; the motion blit is always recorded first; a frame whose kernel lookup fails records only that blit and leaves the component unchanged; otherwise the counter moves as the classifier says; a successful frame ends with the dispatch and the history blit; a zero group size records neither |
| Pipeline.Advance | JPEGCompressionShader/JPEGCompression.cs:108-135 | a recorded frame keeps settings and buffers; when the kernel lookup fails the component is unchanged, otherwise the counter takes the classifier's step |
| Pipeline.Cleanup | JPEGCompressionShader/JPEGCompression.cs:145-148 | `Cleanup` succeeds iff buffers exist and fails with a null reference otherwise; it releases the motion buffer and leaves the last-frame buffer, settings and counter as they were |
| Frames.RenderOrder | JPEGCompressionShader/JPEGCompression.cs:106-142 | a successful frame has exactly one dispatch, second to last; its only blits are the motion blit first and the destination-to-history blit last |
| Frames.RenderGrid | JPEGCompressionShader/JPEGCompression.cs:137-140 | the dispatch targets `CSMain` with the fewest groups of the kernel's size that cover the destination width and height, and one group deep |
| Frames.RenderBindings | JPEGCompressionShader/JPEGCompression.cs:106-135 | at the dispatch, the motion buffer holds this frame's vectors; Input, Result, Last and Motion are bound to source, destination, history and motion buffers; Result is none of the textures the kernel reads; UseSpacial, UseTemporal and IsIFrame are 1 iff their condition holds (and 0 otherwise); ResultWidth and ResultHeight are the destination size; the performance mode and float parameters are passed unchanged |
| Frames.ExecBindings | JPEGCompressionShader/JPEGCompression.cs:111-135 | running the thirteen parameter commands sets exactly those bindings and touches no texture |
| Frames.RenderFrame | JPEGCompressionShader/JPEGCompression.cs:106-142 | after a successful frame the destination holds the kernel's compression of the source against the history from before the frame and this frame's motion vectors, and the history buffer equals the destination |
| Frames.HistoryCarried | JPEGCompressionShader/JPEGCompression.cs:113-142 | the kernel of the next frame reads, as its history, exactly the previous frame's output, whatever the host leaves in the destination in between |
| Frames.PlayCounter | JPEGCompressionShader/JPEGCompression.cs:128-135 | over a playing session after `Setup`, the component's counter before frame k is the classifier's `CounterAt(k)` |
| Frames.PlaySession | JPEGCompressionShader/JPEGCompression.cs:102-143 | frame k of a playing session after `Setup` writes into the history the compression of source image k against the history written by frame k-1, with this frame's motion vectors and the cadence's I-frame flag for frame k |
| Frames.PlayCadence | JPEGCompressionShader/JPEGCompression.cs:128-140 | with I-frames on, the output of frame k carries the I-frame flag iff `k mod (max(c, 0) + 1) == 0` |
| Frames.InactiveFrame | JPEGCompressionShader/JPEGCompression.cs:106-109 | without a shader, or with one lacking `CSMain`, running the frame changes only the motion buffer and binds no kernel parameter |
| Frames.SetupIdempotent | JPEGCompressionShader/JPEGCompression.cs:72-100 | `Setup` twice at the same size gives the same component as `Setup` once |
| Frames.SetupDevice | JPEGCompressionShader/JPEGCompression.cs:89-99 | `Setup` replaces the motion and last-frame buffers by new textures that nothing has written, leaving every other texture and the kernel bindings alone |
| Frames.FirstFrameAfterSetup | JPEGCompressionShader/JPEGCompression.cs:87-99 | the first frame after `Setup` is an I-frame whose kernel reads the newly created, unwritten history buffer, so its output is the compression of the source against no history, and the history then holds that output |
| Frames.SetupAfterResize | JPEGCompressionShader/JPEGCompression.cs:79-99 | `Setup` at a new size gives the same component as `Setup` there directly (new sizes, counter 0), and the next frame's output is the same whatever the earlier frames left in the old motion and history buffers |
| Frames.CleanupKeepsLastFrame | JPEGCompressionShader/JPEGCompression.cs:145-148 | `Cleanup` after `Setup` releases the motion buffer and leaves the last-frame buffer unreleased |

## Left out

- Unity and HDRP calls are not modelled as code. This covers `CommandBuffer`, `RenderTexture`, `Material`, `Shader.Find`, `RTHandle` and `Camera.main`. Textures are abstract handles, and the command buffer is a list of commands run by a symbolic device.
- The motion shader is not part of this model. The motion blit is taken to draw the current frame's motion vectors whatever its source holds. Its source and target are the same texture, and the read/write hazard of that blit is not modelled.
- The bypass shader is not part of this model. The history blit is taken to copy its source unchanged. The blit resamples the full-size destination into the smaller history buffer when downsampling is on, and that resampling is not modelled.
- Binding a kernel parameter by name is modelled as binding it by parameter. The kernel is assumed to declare all thirteen names the component sets, including `FastPerfomanceMode` and `UseSpacial`; a set call for a name the kernel does not declare, which the host silently ignores, is not modelled.
- The compute kernel `CSMain` is not part of this model. Its output is a symbolic value recording the input, history and motion textures it read and the I-frame flag. The other eight scalar parameters are bound (see `Frames.RenderBindings`) but do not appear in the symbolic output.
- GPU execution and asynchrony are not modelled. Commands run in recording order, which the host's single command queue guarantees.
- The float parameters (`compressionThreshold`, `bitrate`, `bitrateArtifacts`) are opaque bit patterns. They are passed through unchanged. The `[Range]` attributes are editor hints, not runtime clamps, so no clamping is modelled.
- The clamping of `fastPerformanceMode` to 0..1 is done by the host's parameter type. It is stated as `Config.Valid` and is not enforced by `Render`.
- Several pieces of host glue have no behaviour to check and are left out: the `Camera.main.depthTextureMode` side effect, the material creation, `lastFromCamera`, `motionRenderOutTexture` and the injection point.
- A missing `Camera.main` in `Setup` is left out. So is `Render` running before `Setup`, when the buffer handles would be null. The model treats the buffer handles as always valid in `Render`.
- The contents of a newly created render texture are undefined on the GPU. `Frames.SetupDevice` gives them the single marker `Blank`, so the model does not distinguish one undefined content from another.
- The failure of `RenderTexture.Create` for a zero-sized buffer is host behaviour. `Setup` has no zero-area check, so the model allocates zero-sized buffers.
- Grid.GroupCount: treats `Mathf.CeilToInt` of the long quotient as the identity. The conversion goes through a 32-bit float, so it is exact only for quotients below 2^24. Texture extents stay far below that, but quotients above 2^24 are not modelled.
