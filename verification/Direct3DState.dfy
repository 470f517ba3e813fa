/** The logical state of the Direct3D 11 back end, and a device that keeps nothing but that state and binds all of it
    at every draw. */
module Direct3DState {
  import opened Options

  // ---------------------------------------------------------------------------------------------------------
  // Pipeline states and the native descriptors made from them. Enumerations are numbers.

  datatype BlendState = BlendState(
    enabled: bool, srcC: nat, destC: nat, srcA: nat, destA: nat, op: nat,
    red: bool, green: bool, blue: bool, alpha: bool)

  /** One of the eight identical render target entries of the native descriptor. */
  datatype BlendDesc = BlendDesc(
    enable: bool, srcBlend: nat, destBlend: nat, blendOp: nat, srcBlendAlpha: nat, destBlendAlpha: nat,
    blendOpAlpha: nat, writeMask: nat)

  datatype RasterState = RasterState(cullMode: nat, scissorEnabled: bool)

  datatype RasterDesc = RasterDesc(
    frontCounterClockwise: bool, cullMode: nat, depthClip: bool, scissorEnable: bool)

  datatype StencilSide = StencilSide(test: nat, fail: nat, zfail: nat, zpass: nat)

  datatype ZStencilState = ZStencilState(
    depthEnabled: bool, depthWriteEnabled: bool, depthFunc: nat, stencilEnabled: bool, stencilWriteEnabled: bool,
    front: StencilSide, back: StencilSide)

  datatype ZStencilDesc = ZStencilDesc(
    depthEnable: bool, depthFunc: nat, depthWriteMask: nat, stencilEnable: bool, readMask: nat, writeMask: nat,
    frontFace: StencilSide, backFace: StencilSide)

  function BlendDescOf(s: BlendState): BlendDesc {
    BlendDesc(s.enabled, s.srcC, s.destC, s.op, s.srcA, s.destA, s.op,
              (if s.red then 1 else 0) + (if s.green then 2 else 0) + (if s.blue then 4 else 0)
              + if s.alpha then 8 else 0)
  }

  function RasterDescOf(s: RasterState): RasterDesc {
    RasterDesc(true, s.cullMode, true, s.scissorEnabled)
  }

  function ZStencilDescOf(s: ZStencilState): ZStencilDesc {
    ZStencilDesc(s.depthEnabled, s.depthFunc, if s.depthWriteEnabled then 1 else 0, s.stencilEnabled, 255,
                 if s.stencilWriteEnabled then 255 else 0, s.front, s.back)
  }

  /** Different states need different native objects. */
  lemma DescriptorsAreInjective(a: BlendState, b: BlendState, r: RasterState, s: RasterState,
                                y: ZStencilState, z: ZStencilState)
    ensures BlendDescOf(a) == BlendDescOf(b) <==> a == b
    ensures RasterDescOf(r) == RasterDescOf(s) <==> r == s
    ensures ZStencilDescOf(y) == ZStencilDescOf(z) <==> y == z
  {
  }

  // ---------------------------------------------------------------------------------------------------------
  // Textures and swap chains. Textures, depth buffers, swap chains and views are known by number.

  datatype TextureKind = Texture2D | TextureCube | Texture3D

  /** The render target views of a texture by side, for plain and for sRGB rendering. */
  datatype Texture = Texture(kind: TextureKind, renderTarget: map<int, nat>, renderTargetLinear: map<int, nat>)

  datatype SwapChain = SwapChain(target: nat, zs: nat, space: nat)

  /** What lives on the GPU. A depth buffer without a view has none to bind. */
  datatype Resources = Resources(
    textures: map<nat, Texture>, depthBuffers: map<nat, Option<nat>>, swapChains: map<nat, SwapChain>)

  datatype Views = Views(target: Option<nat>, depth: Option<nat>)

  const UNBOUND := Views(None, None)
  const SRGB := 0

  datatype PipelineStates = PipelineStates(blend: BlendState, raster: RasterState, zstencil: ZStencilState)

  /** What is selected for drawing, and what the native context renders to. */
  datatype OutputState = OutputState(
    target: Option<nat>, side: int, depth: Option<nat>, space: nat, linear: bool, swap: Option<nat>,
    vertexShader: Option<nat>, pixelShader: Option<nat>, vertexBuffer: Option<nat>,
    gpu: Resources, bound: Views)
  {
    /** Numbers refer to things that exist; swap chains have 2D targets. */
    ghost predicate Valid() {
      && (target.Some? ==> target.value in gpu.textures)
      && (depth.Some? ==> depth.value in gpu.depthBuffers)
      && (swap.Some? ==> swap.value in gpu.swapChains)
      && SoundResources(gpu)
    }

    /** The views that rendering should go to, or `None` if the target has no such view. */
    function Wanted(): Option<Views>
      requires Valid()
    {
      var dsv := if depth.Some? then gpu.depthBuffers[depth.value] else None;
      if target.None? then Some(Views(None, dsv))
      else
        var t := gpu.textures[target.value];
        var views := if linear then t.renderTargetLinear else t.renderTarget;
        if side in views then Some(Views(Some(views[side]), dsv)) else None
    }
  }

  ghost predicate SoundResources(gpu: Resources) {
    forall s :: s in gpu.swapChains ==>
      && gpu.swapChains[s].target in gpu.textures
      && gpu.textures[gpu.swapChains[s].target].kind.Texture2D?
      && gpu.swapChains[s].zs in gpu.depthBuffers
  }

  /** What a draw call sees. */
  datatype Seen = Seen(blend: BlendDesc, raster: RasterDesc, zstencil: ZStencilDesc, views: Views)

  datatype Outcome = Rejected | Failed | Drawn

  // ---------------------------------------------------------------------------------------------------------
  // The device that binds everything at every draw: its setters only assign.

  /** A missing target or depth buffer stands for the swap chain's. */
  function OrSwapTarget(o: OutputState, tex: Option<nat>): Option<nat>
    requires o.Valid()
  {
    if o.swap.Some? && tex.None? then Some(o.gpu.swapChains[o.swap.value].target) else tex
  }

  function OrSwapDepth(o: OutputState, zs: Option<nat>): Option<nat>
    requires o.Valid()
  {
    if o.swap.Some? && zs.None? then Some(o.gpu.swapChains[o.swap.value].zs) else zs
  }

  predicate Known(gpu: Resources, tex: Option<nat>, zs: Option<nat>) {
    (tex.Some? ==> tex.value in gpu.textures) && (zs.Some? ==> zs.value in gpu.depthBuffers)
  }

  /** Selecting a target that is no 2D texture changes at most the colour space, and that only if it is the target
      already. */
  function NaiveSetTarget(o: OutputState, tex: Option<nat>, zs: Option<nat>, space: nat): (r: OutputState)
    requires o.Valid() && Known(o.gpu, tex, zs)
    ensures r.Valid()
  {
    var t, d := OrSwapTarget(o, tex), OrSwapDepth(o, zs);
    if t.Some? && !o.gpu.textures[t.value].kind.Texture2D? then
      if o.target == t && o.depth == d then o.(space := space) else o
    else o.(target := t, depth := d, side := 0, space := space)
  }

  /** Selecting the current side of the current cube again keeps the colour space. */
  function NaiveSetCubeTarget(o: OutputState, tex: Option<nat>, side: int, zs: Option<nat>): (r: OutputState)
    requires o.Valid() && Known(o.gpu, tex, zs) && (tex.Some? || o.swap.Some?)
    ensures r.Valid()
  {
    var t, d := OrSwapTarget(o, tex), OrSwapDepth(o, zs);
    var s := if o.swap.Some? && tex.None? then 0 else side;
    if (o.target == t && o.side == s && o.depth == d) || !o.gpu.textures[t.value].kind.TextureCube? then o
    else o.(target := t, depth := d, side := s, space := SRGB)
  }

  /** Another swap chain takes over from the one whose target or depth buffer is current. */
  function NaiveLoadSwapChain(o: OutputState, swap: Option<nat>): (r: OutputState)
    requires o.Valid() && (swap.Some? ==> swap.value in o.gpu.swapChains)
    ensures r.Valid()
  {
    var t := if o.swap.Some? && o.target == OrSwapTarget(o, None) then None else o.target;
    var d := if o.swap.Some? && o.depth == OrSwapDepth(o, None) then None else o.depth;
    var n := o.(swap := swap);
    if o.target.Some? && o.gpu.textures[o.target.value].kind.TextureCube? then
      NaiveSetCubeTarget(n, t, o.side, d)
    else
      NaiveSetTarget(n, t, d, if swap.Some? then o.gpu.swapChains[swap.value].space else SRGB)
  }

  /** A resized swap chain has a new target view, plain and sRGB, and a new depth view; nothing is bound. */
  function NaiveResize(o: OutputState, plain: nat, linear: nat, depth: nat, space: nat): (r: OutputState)
    requires o.Valid() && o.swap.Some?
    ensures r.Valid()
  {
    var s := o.gpu.swapChains[o.swap.value];
    var tex := o.gpu.textures[s.target].(renderTarget := map[0 := plain], renderTargetLinear := map[0 := linear]);
    var gpu := o.gpu.(textures := o.gpu.textures[s.target := tex],
                      depthBuffers := o.gpu.depthBuffers[s.zs := Some(depth)],
                      swapChains := o.gpu.swapChains[o.swap.value := s.(space := space)]);
    o.(gpu := gpu, bound := UNBOUND)
  }

  /** A lost device is rebuilt with new views for everything. Nothing is selected then. */
  function Lost(o: OutputState, rebuilt: Resources): (r: OutputState)
    requires SoundResources(rebuilt)
    ensures r.Valid()
  {
    o.(target := None, depth := None, side := 0, swap := None, vertexShader := None, pixelShader := None,
       vertexBuffer := None, gpu := rebuilt, bound := UNBOUND)
  }

  /** Presenting unbinds the target. */
  function NaivePresent(o: OutputState, rebuilt: Option<Resources>): (r: OutputState)
    requires o.Valid() && (rebuilt.Some? ==> SoundResources(rebuilt.value))
    ensures r.Valid()
  {
    if o.swap.None? then o
    else if rebuilt.None? then o.(bound := UNBOUND)
    else Lost(o, rebuilt.value)
  }

  predicate Drawable(o: OutputState, vertices: nat) {
    && o.vertexShader.Some? && o.pixelShader.Some?
    && (o.vertexBuffer.Some? || vertices != 0)
    && (o.swap.Some? || o.target.Some?)
  }

  /** The wanted views are bound, unless the target does not have them. */
  function Flushed(o: OutputState): (r: OutputState)
    requires o.Valid()
    ensures r.Valid()
  {
    if o.Wanted().Some? then o.(bound := o.Wanted().value) else o
  }

  /** A draw binds the views unless it is rejected. */
  function NaiveDraw(o: OutputState, vertices: nat): (r: OutputState)
    requires o.Valid()
    ensures r.Valid()
  {
    if Drawable(o, vertices) then Flushed(o) else o
  }

  /** After a 2D texture was selected, drawing goes to its views if and only if it has one to render to. If it has
      none, drawing goes on to whatever was bound before. */
  lemma DrawsToSelectedTexture(o: OutputState, tex: nat, zs: Option<nat>, space: nat, vertices: nat)
    requires o.Valid() && Known(o.gpu, Some(tex), zs) && o.gpu.textures[tex].kind.Texture2D?
    requires o.vertexShader.Some? && o.pixelShader.Some? && vertices != 0
    ensures var t := o.gpu.textures[tex];
      var views := if o.linear then t.renderTargetLinear else t.renderTarget;
      var bound := NaiveDraw(NaiveSetTarget(o, Some(tex), zs, space), vertices).bound;
      && (0 in views ==> bound.target == Some(views[0]))
      && (0 !in views ==> bound == o.bound)
  {
  }

  const WITHOUT_VIEWS := Texture(Texture2D, map[], map[])
  const WITH_VIEW := Texture(Texture2D, map[0 := 7], map[0 := 8])

  /** Two textures, the second without a view to render to, and nothing selected yet. */
  const START := OutputState(None, 0, None, SRGB, false, None, Some(1), Some(1), Some(1),
                             Resources(map[0 := WITH_VIEW, 1 := WITHOUT_VIEWS], map[], map[]), UNBOUND)

  /** So it can go to a texture that is not selected any more: what is drawn for the second texture is drawn onto the
      first. */
  lemma DrawsToStaleTexture()
    ensures START.Valid()
    ensures var first := NaiveDraw(NaiveSetTarget(START, Some(0), None, SRGB), 3);
      && Known(first.gpu, Some(1), None)
      && var second := NaiveDraw(NaiveSetTarget(first, Some(1), None, SRGB), 3);
      second.target == Some(1) && second.bound == first.bound == Views(Some(7), None)
  {
  }

  /** What such a draw sees. */
  function NaiveSeen(p: PipelineStates, o: OutputState, vertices: nat): Seen
    requires o.Valid()
  {
    Seen(BlendDescOf(p.blend), RasterDescOf(p.raster), ZStencilDescOf(p.zstencil), NaiveDraw(o, vertices).bound)
  }
}
