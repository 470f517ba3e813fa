/** Whole runs of the Direct3D 11 device: any calls in any order. */
module Direct3DRun {
  import opened Options
  import opened Direct3DState
  import opened Direct3DDevice

  datatype Call =
    | EnableBlending(enable: bool)
    | EnableColor(red: bool, green: bool, blue: bool, alpha: bool)
    | BlendFunction(srcC: nat, destC: nat, srcA: nat, destA: nat)
    | BlendOp(op: nat)
    | SetCullMode(mode: nat)
    | SetScissorRect(present: bool)
    | EnableDepthTest(enable: bool)
    | EnableStencilTest(enable: bool)
    | EnableStencilWrite(enable: bool)
    | DepthFunction(test: nat)
    | StencilFunction(front: bool, back: bool, test: nat)
    | StencilOp(front: bool, back: bool, fail: nat, zfail: nat, zpass: nat)
    | SetRenderTarget(tex: Option<nat>, zs: Option<nat>, space: nat)
    | SetCubeRenderTarget(tex: Option<nat>, side: int, zs: Option<nat>)
    | EnableFramebufferSrgb(enable: bool)
    | LoadSwapChain(swap: Option<nat>)
    | Resize(plain: nat, linear: nat, depthView: nat, space: nat)
    | Present(rebuilt: Option<Resources>)
    | LoadShaders(vertex: Option<nat>, pixel: Option<nat>, buffer: Option<nat>)
    | Draw(vertices: nat, replies: Replies)

  /** What the interface asks of its callers: numbers of things that exist, and a swap chain where one is resized. */
  ghost predicate Acceptable(o: OutputState, c: Call) {
    match c
    case SetRenderTarget(tex, zs, _) => Known(o.gpu, tex, zs)
    case SetCubeRenderTarget(tex, _, zs) => Known(o.gpu, tex, zs) && (tex.Some? || o.swap.Some?)
    case LoadSwapChain(swap) => swap.Some? ==> swap.value in o.gpu.swapChains
    case Resize(_, _, _, _) => o.swap.Some?
    case Present(rebuilt) => rebuilt.Some? ==> SoundResources(rebuilt.value)
    case _ => true
  }

  function NaivePipeline(p: PipelineStates, c: Call): PipelineStates {
    match c
    case EnableBlending(e) => p.(blend := p.blend.(enabled := e))
    case EnableColor(r, g, b, a) => p.(blend := p.blend.(red := r, green := g, blue := b, alpha := a))
    case BlendFunction(sc, dc, sa, da) => p.(blend := p.blend.(srcC := sc, destC := dc, srcA := sa, destA := da))
    case BlendOp(op) => p.(blend := p.blend.(op := op))
    case SetCullMode(m) => p.(raster := p.raster.(cullMode := m))
    case SetScissorRect(s) => p.(raster := p.raster.(scissorEnabled := s))
    case EnableDepthTest(e) => p.(zstencil := p.zstencil.(depthEnabled := e))
    case EnableStencilTest(e) => p.(zstencil := p.zstencil.(stencilEnabled := e))
    case EnableStencilWrite(e) => p.(zstencil := p.zstencil.(stencilWriteEnabled := e))
    case DepthFunction(t) => p.(zstencil := p.zstencil.(depthFunc := t))
    case StencilFunction(f, b, t) =>
      p.(zstencil := p.zstencil.(front := if f then p.zstencil.front.(test := t) else p.zstencil.front,
                                 back := if b then p.zstencil.back.(test := t) else p.zstencil.back))
    case StencilOp(f, b, x, y, z) =>
      p.(zstencil := p.zstencil.(
        front := if f then p.zstencil.front.(fail := x, zfail := y, zpass := z) else p.zstencil.front,
        back := if b then p.zstencil.back.(fail := x, zfail := y, zpass := z) else p.zstencil.back))
    case _ => p
  }

  ghost function NaiveOutput(o: OutputState, c: Call): (r: OutputState)
    requires o.Valid() && Acceptable(o, c)
    ensures r.Valid()
  {
    match c
    case SetRenderTarget(tex, zs, space) => NaiveSetTarget(o, tex, zs, space)
    case SetCubeRenderTarget(tex, side, zs) => NaiveSetCubeTarget(o, tex, side, zs)
    case EnableFramebufferSrgb(e) => o.(linear := e)
    case LoadSwapChain(swap) => NaiveLoadSwapChain(o, swap)
    case Resize(plain, linear, depth, space) => NaiveResize(o, plain, linear, depth, space)
    case Present(rebuilt) => NaivePresent(o, rebuilt)
    case LoadShaders(v, p, b) => o.(vertexShader := v, pixelShader := p, vertexBuffer := b)
    case Draw(vertices, _) => NaiveDraw(o, vertices)
    case _ => o
  }

  /** Every call of a run finds what it asks for. */
  ghost predicate AcceptableRun(o: OutputState, calls: seq<Call>)
    requires o.Valid()
    decreases |calls|
  {
    calls == [] || (Acceptable(o, calls[0]) && AcceptableRun(NaiveOutput(o, calls[0]), calls[1..]))
  }

  /** What a call shows, if it is a draw that was not given up. */
  ghost function NaiveDrawn(p: PipelineStates, o: OutputState, c: Call, failed: bool): seq<Seen>
    requires o.Valid()
  {
    if c.Draw? && Drawable(o, c.vertices) && !failed then [NaiveSeen(p, o, c.vertices)] else []
  }

  ghost function NaiveDraws(p: PipelineStates, o: OutputState, calls: seq<Call>, failed: seq<bool>): seq<Seen>
    requires o.Valid() && AcceptableRun(o, calls) && |failed| == |calls|
    decreases |calls|
  {
    if calls == [] then []
    else
      NaiveDrawn(p, o, calls[0], failed[0])
      + NaiveDraws(NaivePipeline(p, calls[0]), NaiveOutput(o, calls[0]), calls[1..], failed[1..])
  }

  predicate SetsState(c: Call) {
    || c.EnableBlending? || c.EnableColor? || c.BlendFunction? || c.BlendOp? || c.SetCullMode? || c.SetScissorRect?
    || c.EnableDepthTest? || c.EnableStencilTest? || c.EnableStencilWrite? || c.DepthFunction? || c.StencilFunction?
    || c.StencilOp?
  }

  method SetState(d: GsDevice, c: Call)
    requires d.PipelineValid() && SetsState(c)
    modifies d.blend, d.raster, d.zstencil
    ensures d.PipelineValid() && d.Pipeline() == NaivePipeline(old(d.Pipeline()), c)
  {
    hide BlendDescOf, RasterDescOf, ZStencilDescOf;
    match c {
      case EnableBlending(e) => d.EnableBlending(e);
      case EnableColor(r, g, b, a) => d.EnableColor(r, g, b, a);
      case BlendFunction(sc, dc, sa, da) => d.BlendFunctionSeparate(sc, dc, sa, da);
      case BlendOp(op) => d.BlendOp(op);
      case SetCullMode(m) => d.SetCullMode(m);
      case SetScissorRect(s) => d.SetScissorRect(s);
      case EnableDepthTest(e) => d.EnableDepthTest(e);
      case EnableStencilTest(e) => d.EnableStencilTest(e);
      case EnableStencilWrite(e) => d.EnableStencilWrite(e);
      case DepthFunction(t) => d.DepthFunction(t);
      case StencilFunction(f, b, t) => d.StencilFunction(f, b, t);
      case StencilOp(f, b, x, y, z) => d.StencilOp(f, b, x, y, z);
    }
  }

  /** One call. It `failed` if it was a draw that the native device made impossible. */
  method Perform(d: GsDevice, c: Call) returns (failed: bool)
    requires d.Valid() && Acceptable(d.Output(), c)
    modifies d, d.blend, d.raster, d.zstencil
    ensures d.Valid()
    ensures d.Pipeline() == NaivePipeline(old(d.Pipeline()), c) && d.Output() == NaiveOutput(old(d.Output()), c)
    ensures failed ==> c.Draw? && c.replies != Replies(true, true, true, true, true)
    ensures d.drawn == old(d.drawn) + NaiveDrawn(old(d.Pipeline()), old(d.Output()), c, failed)
  {
    failed := false;
    if SetsState(c) {
      SetState(d, c);
      return;
    }
    hide NaiveSetTarget, NaiveSetCubeTarget, NaiveLoadSwapChain, NaiveResize, NaivePresent, NaiveDraw, NaiveSeen;
    hide SoundResources;
    match c {
      case SetRenderTarget(tex, zs, space) => d.SetRenderTarget(tex, zs, space);
      case SetCubeRenderTarget(tex, side, zs) => d.SetCubeRenderTarget(tex, side, zs);
      case EnableFramebufferSrgb(e) => d.EnableFramebufferSrgb(e);
      case LoadSwapChain(swap) => d.LoadSwapChain(swap);
      case Resize(plain, linear, depth, space) => d.Resize(plain, linear, depth, space);
      case Present(rebuilt) => d.Present(rebuilt);
      case LoadShaders(v, p, b) => d.LoadShaders(v, p, b);
      case Draw(vertices, replies) =>
        var outcome := d.Draw(vertices, replies);
        failed := outcome == Failed;
    }
  }

  /** Over every run, the draws see what they would see on the device that binds everything at every draw. */
  method Run(d: GsDevice, calls: seq<Call>) returns (failed: seq<bool>)
    requires d.Valid() && AcceptableRun(d.Output(), calls)
    modifies d, d.blend, d.raster, d.zstencil
    ensures d.Valid() && |failed| == |calls|
    ensures forall i :: 0 <= i < |calls| && failed[i] ==>
              calls[i].Draw? && calls[i].replies != Replies(true, true, true, true, true)
    ensures d.drawn == old(d.drawn) + NaiveDraws(old(d.Pipeline()), old(d.Output()), calls, failed)
    decreases |calls|
  {
    hide NaiveOutput, NaivePipeline, NaiveDrawn, SoundResources, Acceptable;
    if calls == [] {
      return [];
    }
    var first := Perform(d, calls[0]);
    var rest := Run(d, calls[1..]);
    failed := [first] + rest;
    assert failed[1..] == rest;
  }
}
