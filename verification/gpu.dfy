/**
 The command buffer the component records into, and an abstract device that
 executes such a buffer in order. Images are symbolic: a texture holds the
 source image of some frame, the motion vectors of some frame, or the
 kernel's output together with everything the kernel read to produce it.
 */
module Gpu {
  import opened Config

  /** The render targets a frame's commands refer to. */
  datatype Texture = Source | Destination | MotionFrame | LastFrame

  /** The two full-screen materials: the motion-vector shader and the
      pass-through copy. */
  datatype Material = MotionMaterial | BypassMaterial

  /** The kernel's texture parameters. */
  datatype TextureParam = Input | Result | Last | Motion

  /** The kernel's scalar parameters. */
  datatype ScalarParam =
    | FastPerformanceMode | CompressionThreshold | UseSpatial | UseTemporal
    | Bitrate | BitrateArtifacts | ResultWidth | ResultHeight | IsIFrame

  /** The names the component binds the texture parameters under. */
  function TextureParamName(p: TextureParam): string {
    match p
    case Input => "Input"
    case Result => "Result"
    case Last => "Last"
    case Motion => "Motion"
  }

  /** The names the component binds the scalar parameters under, misspellings
      included. */
  function ScalarParamName(p: ScalarParam): string {
    match p
    case FastPerformanceMode => "FastPerfomanceMode"
    case CompressionThreshold => "CompressionThreshold"
    case UseSpatial => "UseSpacial"
    case UseTemporal => "UseTemporal"
    case Bitrate => "Bitrate"
    case BitrateArtifacts => "BitrateArtifacts"
    case ResultWidth => "ResultWidth"
    case ResultHeight => "ResultHeight"
    case IsIFrame => "IsIFrame"
  }

  /** Distinct parameters have distinct names, so binding by parameter is
      binding by name. */
  lemma ParamNamesDistinct()
    ensures forall p, q :: p != q ==> TextureParamName(p) != TextureParamName(q)
    ensures forall p, q :: p != q ==> ScalarParamName(p) != ScalarParamName(q)
  {
  }

  datatype Command =
    | Blit(src: Texture, dst: Texture, material: Material)
    | SetTexture(kernel: string, param: TextureParam, texture: Texture)
    | SetInt(scalar: ScalarParam, value: int)
    | SetFloat(scalar: ScalarParam, floatValue: Float32)
    | Dispatch(kernel: string, groupsX: nat, groupsY: nat, groupsZ: nat)

  datatype Content =
    | Blank
    | SourceImage(frame: nat)
    | MotionVectors(frame: nat)
    | Compressed(input: Content, history: Content, motion: Content, iFrame: int)

  /** Texture contents, the kernel's current bindings, and the number of the
      frame being rendered (the motion shader draws that frame's vectors). */
  datatype Device = Device(
    memory: map<Texture, Content>,
    textures: map<TextureParam, Texture>,
    ints: map<ScalarParam, int>,
    floats: map<ScalarParam, Float32>,
    frame: nat)

  function Read(d: Device, t: Texture): Content {
    if t in d.memory then d.memory[t] else Blank
  }

  /** The content of the texture bound to a kernel parameter. */
  function ReadBound(d: Device, p: TextureParam): Content {
    if p in d.textures then Read(d, d.textures[p]) else Blank
  }

  function IntOr(d: Device, p: ScalarParam, default: int): int {
    if p in d.ints then d.ints[p] else default
  }

  /** Executes one command. */
  function Exec(d: Device, c: Command): (d': Device)
    ensures d'.frame == d.frame
    ensures !c.Blit? && !c.Dispatch? ==> d'.memory == d.memory
    ensures c.Blit? || c.Dispatch? ==> d'.textures == d.textures && d'.ints == d.ints && d'.floats == d.floats
  {
    match c
    case Blit(src, dst, MotionMaterial) =>
      d.(memory := d.memory[dst := MotionVectors(d.frame)])
    case Blit(src, dst, BypassMaterial) =>
      d.(memory := d.memory[dst := Read(d, src)])
    case SetTexture(_, p, t) =>
      d.(textures := d.textures[p := t])
    case SetInt(p, v) =>
      d.(ints := d.ints[p := v])
    case SetFloat(p, v) =>
      d.(floats := d.floats[p := v])
    case Dispatch(_, _, _, _) =>
      if Result in d.textures then
        var output := Compressed(ReadBound(d, Input), ReadBound(d, Last), ReadBound(d, Motion), IntOr(d, IsIFrame, 0));
        d.(memory := d.memory[d.textures[Result] := output])
      else
        d
  }

  /** Executes a command buffer front to back. */
  function ExecAll(d: Device, cs: seq<Command>): (d': Device)
    ensures d'.frame == d.frame
    decreases |cs|
  {
    if |cs| == 0 then d else ExecAll(Exec(d, cs[0]), cs[1..])
  }

  /** Running two buffers one after the other is running their concatenation. */
  lemma {:induction false} ExecAllAppend(d: Device, a: seq<Command>, b: seq<Command>)
    ensures ExecAll(d, a + b) == ExecAll(ExecAll(d, a), b)
    decreases |a|
  {
    if |a| > 0 {
      assert (a + b)[0] == a[0];
      assert (a + b)[1..] == a[1..] + b;
      ExecAllAppend(Exec(d, a[0]), a[1..], b);
    } else {
      assert a + b == b;
    }
  }

  /** Parameter-setting commands never touch texture contents. */
  predicate IsBinding(c: Command) {
    c.SetTexture? || c.SetInt? || c.SetFloat?
  }

  lemma {:induction false} BindingsKeepMemory(d: Device, cs: seq<Command>)
    requires forall i :: 0 <= i < |cs| ==> IsBinding(cs[i])
    ensures ExecAll(d, cs).memory == d.memory
    decreases |cs|
  {
    if |cs| > 0 {
      BindingsKeepMemory(Exec(d, cs[0]), cs[1..]);
    }
  }
}
