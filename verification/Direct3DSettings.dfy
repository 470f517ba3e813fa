/** What the draws of a run show, setting by setting: each is the one that was made last. Nothing here refers to how
    native descriptors are made from states. */
module Direct3DSettings {
  import opened Options
  import opened Direct3DState
  import opened Direct3DRun

  // ---------------------------------------------------------------------------------------------------------
  // Settings

  /** The last value that the calls give to a setting, or the one it had before. */
  function Setting<T>(calls: seq<Call>, value: Call -> Option<T>, start: T): T {
    if calls == [] then start
    else Setting(calls[1..], value, if value(calls[0]).Some? then value(calls[0]).value else start)
  }

  /** It is that of the last call that gives one. */
  lemma {:induction false} SettingIsLast<T>(calls: seq<Call>, value: Call -> Option<T>, start: T, last: nat)
    requires last < |calls| && forall i :: last < i < |calls| ==> value(calls[i]).None?
    ensures value(calls[last]).Some? ==> Setting(calls, value, start) == value(calls[last]).value
  {
    if last > 0 {
      assert forall i :: 0 <= i < |calls| - 1 ==> calls[1..][i] == calls[i + 1];
      SettingIsLast(calls[1..], value, if value(calls[0]).Some? then value(calls[0]).value else start, last - 1);
    } else {
      assert forall i :: 0 <= i < |calls| - 1 ==> calls[1..][i] == calls[i + 1];
      Unset(calls[1..], value, if value(calls[0]).Some? then value(calls[0]).value else start);
    }
  }

  lemma {:induction false} Unset<T>(calls: seq<Call>, value: Call -> Option<T>, start: T)
    requires forall i :: 0 <= i < |calls| ==> value(calls[i]).None?
    ensures Setting(calls, value, start) == start
  {
    if calls != [] {
      assert forall i :: 0 <= i < |calls| - 1 ==> calls[1..][i] == calls[i + 1];
      assert value(calls[0]).None?;
      Unset(calls[1..], value, start);
    }
  }

  datatype Factors = Factors(srcC: nat, destC: nat, srcA: nat, destA: nat)

  datatype Channels = Channels(red: bool, green: bool, blue: bool, alpha: bool)

  datatype Operations = Operations(fail: nat, zfail: nat, zpass: nat)

  function Blending(c: Call): Option<bool> {
    if c.EnableBlending? then Some(c.enable) else None
  }

  function BlendFactors(c: Call): Option<Factors> {
    if c.BlendFunction? then Some(Factors(c.srcC, c.destC, c.srcA, c.destA)) else None
  }

  function BlendOperation(c: Call): Option<nat> {
    if c.BlendOp? then Some(c.op) else None
  }

  function Colors(c: Call): Option<Channels> {
    if c.EnableColor? then Some(Channels(c.red, c.green, c.blue, c.alpha)) else None
  }

  function Culling(c: Call): Option<nat> {
    if c.SetCullMode? then Some(c.mode) else None
  }

  function Scissors(c: Call): Option<bool> {
    if c.SetScissorRect? then Some(c.present) else None
  }

  function DepthTest(c: Call): Option<bool> {
    if c.EnableDepthTest? then Some(c.enable) else None
  }

  function DepthComparison(c: Call): Option<nat> {
    if c.DepthFunction? then Some(c.test) else None
  }

  function StencilTest(c: Call): Option<bool> {
    if c.EnableStencilTest? then Some(c.enable) else None
  }

  function StencilWrite(c: Call): Option<bool> {
    if c.EnableStencilWrite? then Some(c.enable) else None
  }

  function FrontTest(c: Call): Option<nat> {
    if c.StencilFunction? && c.front then Some(c.test) else None
  }

  function BackTest(c: Call): Option<nat> {
    if c.StencilFunction? && c.back then Some(c.test) else None
  }

  function FrontOperations(c: Call): Option<Operations> {
    if c.StencilOp? && c.front then Some(Operations(c.fail, c.zfail, c.zpass)) else None
  }

  function BackOperations(c: Call): Option<Operations> {
    if c.StencilOp? && c.back then Some(Operations(c.fail, c.zfail, c.zpass)) else None
  }

  // ---------------------------------------------------------------------------------------------------------
  // What a draw should show after some calls

  /** The write mask has a bit for each channel, and no others. */
  predicate Masks(mask: nat, on: Channels) {
    && mask < 16
    && (mask % 2 == 1 <==> on.red) && (mask / 2 % 2 == 1 <==> on.green)
    && (mask / 4 % 2 == 1 <==> on.blue) && (mask / 8 % 2 == 1 <==> on.alpha)
  }

  ghost predicate ShowsBlend(d: BlendDesc, s: BlendState, calls: seq<Call>) {
    && d.enable == Setting(calls, Blending, s.enabled)
    && Factors(d.srcBlend, d.destBlend, d.srcBlendAlpha, d.destBlendAlpha)
       == Setting(calls, BlendFactors, Factors(s.srcC, s.destC, s.srcA, s.destA))
    && d.blendOp == d.blendOpAlpha == Setting(calls, BlendOperation, s.op)
    && Masks(d.writeMask, Setting(calls, Colors, Channels(s.red, s.green, s.blue, s.alpha)))
  }

  /** Front faces are counterclockwise, and depth is clipped. */
  ghost predicate ShowsRaster(d: RasterDesc, s: RasterState, calls: seq<Call>) {
    && d.frontCounterClockwise && d.depthClip
    && d.cullMode == Setting(calls, Culling, s.cullMode)
    && d.scissorEnable == Setting(calls, Scissors, s.scissorEnabled)
  }

  /** Stencil values are read as a whole, and written as a whole or not at all. No call changes whether depth is. */
  ghost predicate ShowsDepth(d: ZStencilDesc, s: ZStencilState, calls: seq<Call>) {
    && d.depthEnable == Setting(calls, DepthTest, s.depthEnabled)
    && d.depthFunc == Setting(calls, DepthComparison, s.depthFunc)
    && d.depthWriteMask == (if s.depthWriteEnabled then 1 else 0)
    && d.stencilEnable == Setting(calls, StencilTest, s.stencilEnabled)
    && d.readMask == 255
    && d.writeMask == (if Setting(calls, StencilWrite, s.stencilWriteEnabled) then 255 else 0)
  }

  ghost predicate ShowsSides(d: ZStencilDesc, s: ZStencilState, calls: seq<Call>) {
    && d.frontFace.test == Setting(calls, FrontTest, s.front.test)
    && d.backFace.test == Setting(calls, BackTest, s.back.test)
    && Operations(d.frontFace.fail, d.frontFace.zfail, d.frontFace.zpass)
       == Setting(calls, FrontOperations, Operations(s.front.fail, s.front.zfail, s.front.zpass))
    && Operations(d.backFace.fail, d.backFace.zfail, d.backFace.zpass)
       == Setting(calls, BackOperations, Operations(s.back.fail, s.back.zfail, s.back.zpass))
  }

  ghost predicate ShowsSettings(seen: Seen, p: PipelineStates, calls: seq<Call>) {
    && ShowsBlend(seen.blend, p.blend, calls) && ShowsRaster(seen.raster, p.raster, calls)
    && ShowsDepth(seen.zstencil, p.zstencil, calls) && ShowsSides(seen.zstencil, p.zstencil, calls)
  }

  // ---------------------------------------------------------------------------------------------------------
  // They do

  lemma ShowsNow(p: PipelineStates, o: OutputState, vertices: nat)
    requires o.Valid()
    ensures ShowsSettings(NaiveSeen(p, o, vertices), p, [])
  {
    hide NaiveDraw;
  }

  lemma SettingFirst<T>(c: Call, calls: seq<Call>, value: Call -> Option<T>, start: T)
    ensures Setting([c] + calls, value, start)
         == Setting(calls, value, if value(c).Some? then value(c).value else start)
  {
    assert ([c] + calls)[1..] == calls;
  }

  lemma BlendBefore(d: BlendDesc, p: PipelineStates, c: Call, calls: seq<Call>)
    requires ShowsBlend(d, NaivePipeline(p, c).blend, calls)
    ensures ShowsBlend(d, p.blend, [c] + calls)
  {
    assert ([c] + calls)[1..] == calls;
    hide Masks;
  }

  lemma RasterBefore(d: RasterDesc, p: PipelineStates, c: Call, calls: seq<Call>)
    requires ShowsRaster(d, NaivePipeline(p, c).raster, calls)
    ensures ShowsRaster(d, p.raster, [c] + calls)
  {
    assert ([c] + calls)[1..] == calls;
  }

  lemma DepthBefore(d: ZStencilDesc, p: PipelineStates, c: Call, calls: seq<Call>)
    requires ShowsDepth(d, NaivePipeline(p, c).zstencil, calls)
    ensures ShowsDepth(d, p.zstencil, [c] + calls)
  {
    hide Setting;
    var s := p.zstencil;
    SettingFirst(c, calls, DepthTest, s.depthEnabled);
    SettingFirst(c, calls, DepthComparison, s.depthFunc);
    SettingFirst(c, calls, StencilTest, s.stencilEnabled);
    SettingFirst(c, calls, StencilWrite, s.stencilWriteEnabled);
  }

  lemma SidesBefore(d: ZStencilDesc, p: PipelineStates, c: Call, calls: seq<Call>)
    requires ShowsSides(d, NaivePipeline(p, c).zstencil, calls)
    ensures ShowsSides(d, p.zstencil, [c] + calls)
  {
    assert ([c] + calls)[1..] == calls;
  }

  lemma ShowsBefore(seen: Seen, p: PipelineStates, c: Call, calls: seq<Call>)
    requires ShowsSettings(seen, NaivePipeline(p, c), calls)
    ensures ShowsSettings(seen, p, [c] + calls)
  {
    BlendBefore(seen.blend, p, c, calls);
    RasterBefore(seen.raster, p, c, calls);
    DepthBefore(seen.zstencil, p, c, calls);
    SidesBefore(seen.zstencil, p, c, calls);
    hide ShowsBlend, ShowsRaster, ShowsDepth, ShowsSides, NaivePipeline;
  }

  /** The calls that draw, by their places in the run. */
  ghost function DrawCalls(o: OutputState, calls: seq<Call>, failed: seq<bool>): seq<nat>
    requires o.Valid() && AcceptableRun(o, calls) && |failed| == |calls|
    decreases |calls|
  {
    if calls == [] then []
    else
      (if calls[0].Draw? && Drawable(o, calls[0].vertices) && !failed[0] then [0] else [])
      + Shifted(DrawCalls(NaiveOutput(o, calls[0]), calls[1..], failed[1..]))
  }

  function Shifted(places: seq<nat>): (r: seq<nat>)
    ensures |r| == |places| && forall k :: 0 <= k < |r| ==> r[k] == places[k] + 1
  {
    seq(|places|, k requires 0 <= k < |places| => places[k] + 1)
  }

  /** Every draw shows, of every setting, what the last call before it made of it. */
  lemma {:induction false} DrawsShowSettings(p: PipelineStates, o: OutputState, calls: seq<Call>, failed: seq<bool>)
    requires o.Valid() && AcceptableRun(o, calls) && |failed| == |calls|
    ensures var draws, places := NaiveDraws(p, o, calls, failed), DrawCalls(o, calls, failed);
      && |draws| == |places|
      && forall k :: 0 <= k < |draws| ==>
           places[k] < |calls| && calls[places[k]].Draw? && ShowsSettings(draws[k], p, calls[..places[k]])
    decreases |calls|
  {
    hide ShowsSettings, NaiveSeen, Acceptable, NaiveOutput, NaivePipeline, Drawable, SoundResources;
    if calls != [] {
      var q, n := NaivePipeline(p, calls[0]), NaiveOutput(o, calls[0]);
      var draws, places := NaiveDraws(q, n, calls[1..], failed[1..]), DrawCalls(n, calls[1..], failed[1..]);
      DrawsShowSettings(q, n, calls[1..], failed[1..]);
      forall k | 0 <= k < |draws|
        ensures ShowsSettings(draws[k], p, calls[..places[k] + 1])
      {
        ShowsBefore(draws[k], p, calls[0], calls[1..][..places[k]]);
        assert [calls[0]] + calls[1..][..places[k]] == calls[..places[k] + 1];
      }
      if calls[0].Draw? {
        ShowsNow(p, o, calls[0].vertices);
        assert calls[..0] == [];
      }
    }
  }
}
