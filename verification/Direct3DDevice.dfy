/** The Direct3D 11 device with its dirty flags and caches. It refines the device that binds everything at every draw:
    every call changes the logical state and what is bound in the same way, and every draw sees the same. */
module Direct3DDevice {
  import opened Options
  import opened Direct3DState
  import opened StateCache

  /** What the native device answers in the course of a draw. */
  datatype Replies = Replies(vertexData: bool, blend: bool, raster: bool, zstencil: bool, parameters: bool)

  ghost predicate Distinct(a: object, b: object) {
    a != b
  }

  class GsDevice {
    const blend: StateCache<BlendState, BlendDesc>
    const raster: StateCache<RasterState, RasterDesc>
    const zstencil: StateCache<ZStencilState, ZStencilDesc>
    var curRenderTarget: Option<nat>
    var curRenderSide: int
    var curZStencilBuffer: Option<nat>
    var curColorSpace: nat
    var curFramebufferSrgb: bool
    var curFramebufferInvalidate: bool
    var curSwapChain: Option<nat>
    var curVertexShader: Option<nat>
    var curPixelShader: Option<nat>
    var curVertexBuffer: Option<nat>
    var gpu: Resources
    var bound: Views             // what the native context renders to
    ghost var drawn: seq<Seen>   // what the draw calls so far have seen

    ghost function Pipeline(): PipelineStates
      reads blend, raster, zstencil
    {
      PipelineStates(blend.state, raster.state, zstencil.state)
    }

    ghost function Output(): OutputState
      reads this
    {
      OutputState(
        curRenderTarget, curRenderSide, curZStencilBuffer, curColorSpace, curFramebufferSrgb, curSwapChain,
        curVertexShader, curPixelShader, curVertexBuffer, gpu, bound)
    }

    ghost predicate Valid()
      reads this, blend, raster, zstencil
    {
      PipelineValid() && OutputValid()
    }

    ghost predicate PipelineValid()
      reads blend, raster, zstencil
    {
      && Distinct(blend, raster) && Distinct(blend, zstencil) && Distinct(raster, zstencil)
      && blend.Valid() && raster.Valid() && zstencil.Valid()
      && blend.convert == BlendDescOf && raster.convert == RasterDescOf && zstencil.convert == ZStencilDescOf
    }

    /** Unless the output is marked as invalid, the views that are wanted are bound. */
    ghost predicate OutputValid()
      reads this
    {
      Output().Valid() && (!curFramebufferInvalidate ==> Output().Wanted() == Some(bound))
    }

    /** What a draw call sees now. */
    ghost predicate Shows(s: Seen)
      reads this, blend, raster, zstencil
    {
      && blend.Shown() == Some(s.blend) && raster.Shown() == Some(s.raster) && zstencil.Shown() == Some(s.zstencil)
      && bound == s.views
    }

    constructor (b: BlendState, r: RasterState, z: ZStencilState, gpu: Resources)
      requires SoundResources(gpu)
      ensures Valid() && fresh(blend) && fresh(raster) && fresh(zstencil) && drawn == []
      ensures Pipeline() == PipelineStates(b, r, z)
      ensures Output() == OutputState(
                None, 0, None, SRGB, false, None, None, None, None, gpu, UNBOUND)
    {
      blend := new StateCache<BlendState, BlendDesc>(BlendDescOf, b);
      raster := new StateCache<RasterState, RasterDesc>(RasterDescOf, r);
      zstencil := new StateCache<ZStencilState, ZStencilDesc>(ZStencilDescOf, z);
      curRenderTarget, curRenderSide, curZStencilBuffer, curColorSpace := None, 0, None, SRGB;
      curFramebufferSrgb, curFramebufferInvalidate, curSwapChain := false, false, None;
      curVertexShader, curPixelShader, curVertexBuffer := None, None, None;
      this.gpu, bound, drawn := gpu, UNBOUND, [];
    }

    // -------------------------------------------------------------------------------------------------------
    // Pipeline states

    method EnableBlending(enable: bool)
      requires PipelineValid()
      modifies blend
      ensures PipelineValid() && Pipeline() == old(Pipeline()).(blend := old(blend.state).(enabled := enable))
    {
      blend.Set(blend.state.(enabled := enable), false);
    }

    method EnableColor(red: bool, green: bool, blue: bool, alpha: bool)
      requires PipelineValid()
      modifies blend
      ensures PipelineValid()
      ensures Pipeline() == old(Pipeline()).(blend :=
                old(blend.state).(red := red, green := green, blue := blue, alpha := alpha))
    {
      blend.Set(blend.state.(red := red, green := green, blue := blue, alpha := alpha), false);
    }

    method BlendFunctionSeparate(srcC: nat, destC: nat, srcA: nat, destA: nat)
      requires PipelineValid()
      modifies blend
      ensures PipelineValid()
      ensures Pipeline() == old(Pipeline()).(blend :=
                old(blend.state).(srcC := srcC, destC := destC, srcA := srcA, destA := destA))
    {
      blend.Set(blend.state.(srcC := srcC, destC := destC, srcA := srcA, destA := destA), false);
    }

    method BlendOp(op: nat)
      requires PipelineValid()
      modifies blend
      ensures PipelineValid() && Pipeline() == old(Pipeline()).(blend := old(blend.state).(op := op))
    {
      blend.Set(blend.state.(op := op), false);
    }

    method SetCullMode(mode: nat)
      requires PipelineValid()
      modifies raster
      ensures PipelineValid() && Pipeline() == old(Pipeline()).(raster := old(raster.state).(cullMode := mode))
    {
      raster.Set(raster.state.(cullMode := mode), false);
    }

    /** Marks the state as changed in any case. */
    method SetScissorRect(present: bool)
      requires PipelineValid()
      modifies raster
      ensures PipelineValid() && Pipeline() == old(Pipeline()).(raster := old(raster.state).(scissorEnabled := present))
    {
      raster.Set(raster.state.(scissorEnabled := present), true);
    }

    method EnableDepthTest(enable: bool)
      requires PipelineValid()
      modifies zstencil
      ensures PipelineValid()
      ensures Pipeline() == old(Pipeline()).(zstencil := old(zstencil.state).(depthEnabled := enable))
    {
      zstencil.Set(zstencil.state.(depthEnabled := enable), false);
    }

    method EnableStencilTest(enable: bool)
      requires PipelineValid()
      modifies zstencil
      ensures PipelineValid()
      ensures Pipeline() == old(Pipeline()).(zstencil := old(zstencil.state).(stencilEnabled := enable))
    {
      zstencil.Set(zstencil.state.(stencilEnabled := enable), false);
    }

    method EnableStencilWrite(enable: bool)
      requires PipelineValid()
      modifies zstencil
      ensures PipelineValid()
      ensures Pipeline() == old(Pipeline()).(zstencil := old(zstencil.state).(stencilWriteEnabled := enable))
    {
      zstencil.Set(zstencil.state.(stencilWriteEnabled := enable), false);
    }

    method DepthFunction(test: nat)
      requires PipelineValid()
      modifies zstencil
      ensures PipelineValid() && Pipeline() == old(Pipeline()).(zstencil := old(zstencil.state).(depthFunc := test))
    {
      zstencil.Set(zstencil.state.(depthFunc := test), false);
    }

    /** One side after the other, as far as they are asked for. */
    method StencilFunction(front: bool, back: bool, test: nat)
      requires PipelineValid()
      modifies zstencil
      ensures PipelineValid()
      ensures var z := old(zstencil.state);
        Pipeline() == old(Pipeline()).(zstencil := z.(front := if front then z.front.(test := test) else z.front,
                                                    back := if back then z.back.(test := test) else z.back))
    {
      if front {
        zstencil.Set(zstencil.state.(front := zstencil.state.front.(test := test)), false);
      }
      if back {
        zstencil.Set(zstencil.state.(back := zstencil.state.back.(test := test)), false);
      }
    }

    method StencilOp(front: bool, back: bool, fail: nat, zfail: nat, zpass: nat)
      requires PipelineValid()
      modifies zstencil
      ensures PipelineValid()
      ensures var z := old(zstencil.state);
        Pipeline() == old(Pipeline()).(zstencil := z.(
          front := if front then z.front.(fail := fail, zfail := zfail, zpass := zpass) else z.front,
          back := if back then z.back.(fail := fail, zfail := zfail, zpass := zpass) else z.back))
    {
      if front {
        zstencil.Set(zstencil.state.(front := zstencil.state.front.(fail := fail, zfail := zfail, zpass := zpass)),
                     false);
      }
      if back {
        zstencil.Set(zstencil.state.(back := zstencil.state.back.(fail := fail, zfail := zfail, zpass := zpass)),
                     false);
      }
    }

    // -------------------------------------------------------------------------------------------------------
    // Targets

    method SetRenderTarget(tex: Option<nat>, zs: Option<nat>, space: nat)
      requires OutputValid() && Known(gpu, tex, zs)
      modifies this
      ensures OutputValid() && drawn == old(drawn)
      ensures Output() == NaiveSetTarget(old(Output()), tex, zs, space)
    {
      var t, d := tex, zs;
      if curSwapChain.Some? {
        if t.None? {
          t := Some(gpu.swapChains[curSwapChain.value].target);
        }
        if d.None? {
          d := Some(gpu.swapChains[curSwapChain.value].zs);
        }
      }
      if curRenderTarget == t && curZStencilBuffer == d {
        curColorSpace := space;
      }
      if t.Some? && !gpu.textures[t.value].kind.Texture2D? {
        return;
      }
      if curRenderTarget != t || curRenderSide != 0 || curZStencilBuffer != d {
        curRenderTarget, curZStencilBuffer, curRenderSide := t, d, 0;
        curColorSpace, curFramebufferInvalidate := space, true;
      }
    }

    method SetCubeRenderTarget(tex: Option<nat>, side: int, zs: Option<nat>)
      requires OutputValid() && Known(gpu, tex, zs) && (tex.Some? || curSwapChain.Some?)
      modifies this
      ensures OutputValid() && drawn == old(drawn)
      ensures Output() == NaiveSetCubeTarget(old(Output()), tex, side, zs)
    {
      var t, s, d := tex, side, zs;
      if curSwapChain.Some? {
        if t.None? {
          t, s := Some(gpu.swapChains[curSwapChain.value].target), 0;
        }
        if d.None? {
          d := Some(gpu.swapChains[curSwapChain.value].zs);
        }
      }
      if curRenderTarget == t && curRenderSide == s && curZStencilBuffer == d {
        return;
      }
      if !gpu.textures[t.value].kind.TextureCube? {
        return;
      }
      if curRenderTarget != t || curRenderSide != s || curZStencilBuffer != d {
        curRenderTarget, curZStencilBuffer, curRenderSide := t, d, s;
        curColorSpace, curFramebufferInvalidate := SRGB, true;
      }
    }

    method EnableFramebufferSrgb(enable: bool)
      requires OutputValid()
      modifies this
      ensures OutputValid() && drawn == old(drawn) && Output() == old(Output()).(linear := enable)
    {
      if curFramebufferSrgb != enable {
        curFramebufferSrgb, curFramebufferInvalidate := enable, true;
      }
    }

    method LoadSwapChain(swap: Option<nat>)
      requires OutputValid() && (swap.Some? ==> swap.value in gpu.swapChains)
      modifies this
      ensures OutputValid() && drawn == old(drawn)
      ensures Output() == NaiveLoadSwapChain(old(Output()), swap)
    {
      var target, zs := curRenderTarget, curZStencilBuffer;
      var isCube := target.Some? && gpu.textures[target.value].kind.TextureCube?;
      if curSwapChain.Some? {
        if target == Some(gpu.swapChains[curSwapChain.value].target) {
          target := None;
        }
        if zs == Some(gpu.swapChains[curSwapChain.value].zs) {
          zs := None;
        }
      }
      curSwapChain := swap;
      if isCube {
        SetCubeRenderTarget(target, curRenderSide, zs);
      } else {
        SetRenderTarget(target, zs, if swap.Some? then gpu.swapChains[swap.value].space else SRGB);
      }
    }

    /** A resize that succeeds. */
    method Resize(plain: nat, linear: nat, depth: nat, space: nat)
      requires OutputValid() && curSwapChain.Some?
      modifies this
      ensures OutputValid() && drawn == old(drawn)
      ensures Output() == NaiveResize(old(Output()), plain, linear, depth, space)
    {
      bound := UNBOUND;
      var s := gpu.swapChains[curSwapChain.value];
      var tex := gpu.textures[s.target].(renderTarget := map[0 := plain], renderTargetLinear := map[0 := linear]);
      gpu := gpu.(textures := gpu.textures[s.target := tex], depthBuffers := gpu.depthBuffers[s.zs := Some(depth)]);
      gpu := gpu.(swapChains := gpu.swapChains[curSwapChain.value := s.(space := space)]);
      curFramebufferInvalidate := true;
    }

    /** `rebuilt` holds the resources of a new device if the present finds the old one lost. */
    method Present(rebuilt: Option<Resources>)
      requires Valid() && (rebuilt.Some? ==> SoundResources(rebuilt.value))
      modifies this, blend, raster, zstencil
      ensures Valid() && drawn == old(drawn)
      ensures Pipeline() == old(Pipeline()) && Output() == NaivePresent(old(Output()), rebuilt)
    {
      if curSwapChain.Some? {
        bound, curFramebufferInvalidate := UNBOUND, true;
        if rebuilt.Some? {
          RebuildDevice(rebuilt.value);
        }
      }
    }

    method RebuildDevice(rebuilt: Resources)
      requires Valid() && SoundResources(rebuilt) && curFramebufferInvalidate
      modifies this, blend, raster, zstencil
      ensures Valid() && drawn == old(drawn) && Pipeline() == old(Pipeline())
      ensures Output() == Lost(old(Output()), rebuilt)
    {
      Deselect(rebuilt);
      RebuildStates();
    }

    method Deselect(rebuilt: Resources)
      requires SoundResources(rebuilt) && curFramebufferInvalidate
      modifies this
      ensures OutputValid() && drawn == old(drawn) && Output() == Lost(old(Output()), rebuilt)
    {
      hide SoundResources;
      bound, gpu := UNBOUND, rebuilt;
      curRenderTarget, curZStencilBuffer, curRenderSide := None, None, 0;
      curVertexBuffer, curVertexShader, curPixelShader, curSwapChain := None, None, None, None;
    }

    method RebuildStates()
      requires PipelineValid()
      modifies blend, raster, zstencil
      ensures PipelineValid() && Pipeline() == old(Pipeline())
    {
      zstencil.Rebuild();
      raster.Rebuild();
      blend.Rebuild();
    }

    method LoadShaders(vertex: Option<nat>, pixel: Option<nat>, buffer: Option<nat>)
      requires OutputValid()
      modifies this
      ensures OutputValid() && drawn == old(drawn)
      ensures Output() == old(Output()).(vertexShader := vertex, pixelShader := pixel, vertexBuffer := buffer)
    {
      curVertexShader, curPixelShader, curVertexBuffer := vertex, pixel, buffer;
    }

    // -------------------------------------------------------------------------------------------------------
    // Drawing

    /** If the target has no view to render to, the views of an earlier target stay bound. */
    method FlushOutputViews()
      requires OutputValid()
      modifies this
      ensures OutputValid() && drawn == old(drawn)
      ensures Output() == Flushed(old(Output()))
    {
      if curFramebufferInvalidate {
        var rtv: Option<nat> := None;
        if curRenderTarget.Some? {
          var t := gpu.textures[curRenderTarget.value];
          var views := if curFramebufferSrgb then t.renderTargetLinear else t.renderTarget;
          if curRenderSide !in views {
            return;
          }
          rtv := Some(views[curRenderSide]);
        }
        var dsv: Option<nat> := None;
        if curZStencilBuffer.Some? {
          dsv := gpu.depthBuffers[curZStencilBuffer.value];
        }
        bound := Views(rtv, dsv);
        curFramebufferInvalidate := false;
      }
    }

    /** Nothing is drawn if anything is missing, or if the native device fails on the way. Otherwise the draw sees
        objects made from the current states and the views of the current target. Binding is all that changes. */
    method Draw(vertices: nat, replies: Replies) returns (outcome: Outcome)
      requires Valid()
      modifies this, blend, raster, zstencil
      ensures Valid() && Pipeline() == old(Pipeline()) && Output() == NaiveDraw(old(Output()), vertices)
      ensures outcome == Rejected <==> !Drawable(old(Output()), vertices)
      ensures replies == Replies(true, true, true, true, true) ==> outcome != Failed
      ensures outcome == Drawn ==> Shows(NaiveSeen(Pipeline(), old(Output()), vertices))
      ensures drawn == old(drawn)
                       + if outcome == Drawn then [NaiveSeen(Pipeline(), old(Output()), vertices)] else []
    {
      hide BlendDescOf, RasterDescOf, ZStencilDescOf, SoundResources, Flushed;
      if curVertexShader.None? || curPixelShader.None? || (curVertexBuffer.None? && vertices == 0)
         || (curSwapChain.None? && curRenderTarget.None?) {
        return Rejected;
      }
      FlushOutputViews();
      if !replies.vertexData {
        return Failed;
      }
      var ok := UpdateStates(replies);
      if !ok || !replies.parameters {
        return Failed;
      }
      drawn := drawn + [NaiveSeen(Pipeline(), old(Output()), vertices)];
      return Drawn;
    }

    method UpdateStates(replies: Replies) returns (ok: bool)
      requires PipelineValid()
      modifies blend, raster, zstencil
      ensures PipelineValid() && Pipeline() == old(Pipeline())
      ensures replies.blend && replies.raster && replies.zstencil ==> ok
      ensures ok ==> blend.Shown() == Some(BlendDescOf(blend.state))
      ensures ok ==> raster.Shown() == Some(RasterDescOf(raster.state))
      ensures ok ==> zstencil.Shown() == Some(ZStencilDescOf(zstencil.state))
    {
      ok := blend.Update(replies.blend);
      if !ok {
        return;
      }
      ok := raster.Update(replies.raster);
      if !ok {
        return;
      }
      ok := zstencil.Update(replies.zstencil);
    }
  }
}
