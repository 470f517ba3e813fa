/** The order in which the Metal back end's commands reach the GPU. Draws and clears collect in an open command buffer;
    staging copies go to the queue at once, past the open buffer. */
module MetalQueue {
  import opened Options

  class MetalTexture {
    var hasPendingWrites: bool

    constructor ()
      ensures !hasPendingWrites
    {
      hasPendingWrites := false;
    }
  }

  class OBSSwapChain {
    var renderTarget: MetalTexture?

    constructor ()
      ensures renderTarget == null
    {
      renderTarget := null;
    }
  }

  /** A command on the GPU: a draw that samples textures and writes its target, or a clear, which samples none; a copy
      of a texture, into another one or into a buffer; or a copy of a buffer into a texture. */
  datatype Command =
    | Render(target: MetalTexture, sampled: set<MetalTexture>)
    | Copy(source: MetalTexture, destination: MetalTexture?, staged: bool)
    | Upload(into: MetalTexture)

  function Written(c: Command): set<MetalTexture> {
    match c
    case Render(t, _) => {t}
    case Copy(_, d, _) => if d == null then {} else {d}
    case Upload(d) => {d}
  }

  function Read(c: Command): set<MetalTexture> {
    match c
    case Render(_, sampled) => sampled
    case Copy(s, _, _) => {s}
    case Upload(_) => {}
  }

  /** One of the two writes what the other one reads or writes. */
  predicate Conflict(a: Command, b: Command) {
    Written(a) * (Read(b) + Written(b)) != {} || Read(a) * Written(b) != {}
  }

  /** Commands that are committed as soon as they are encoded. */
  predicate Staged(c: Command) {
    c.Upload? || (c.Copy? && c.staged)
  }

  predicate WritesSourceOf(writer: Command, c: Command) {
    writer.Render? && c.Copy? && writer.target == c.source
  }

  /** Commands are known by when they were issued. Each is in the timeline exactly once. */
  ghost predicate Complete(timeline: seq<nat>, issued: seq<Command>) {
    && |timeline| == |issued|
    && (forall i :: 0 <= i < |timeline| ==> timeline[i] < |issued|)
    && (forall i, j :: 0 <= i < j < |timeline| ==> timeline[i] != timeline[j])
  }

  /** One command overtakes another only if it is a staging one, and never one that writes what it reads. */
  ghost predicate Ordered(timeline: seq<nat>, issued: seq<Command>)
    requires Complete(timeline, issued)
  {
    forall i, j :: 0 <= i < j < |timeline| && timeline[j] < timeline[i] ==>
      Staged(issued[timeline[i]]) && !WritesSourceOf(issued[timeline[j]], issued[timeline[i]])
  }

  /** No command overtakes one that it conflicts with. */
  ghost predicate ConflictsKept(timeline: seq<nat>, issued: seq<Command>)
    requires Complete(timeline, issued)
  {
    forall i, j :: 0 <= i < j < |timeline| && timeline[j] < timeline[i] ==>
      !Conflict(issued[timeline[j]], issued[timeline[i]])
  }

  /** None of the commands of a buffer conflicts with this one. */
  ghost predicate NoConflict(buffer: seq<nat>, issued: seq<Command>, c: Command) {
    forall n :: n in buffer && n < |issued| ==> !Conflict(issued[n], c)
  }

  /** Every copy comes after each draw and clear into its source that was issued before it. */
  lemma CopiesSeeRendering(timeline: seq<nat>, issued: seq<Command>, copy: nat, render: nat)
    requires Complete(timeline, issued) && Ordered(timeline, issued)
    requires copy < |timeline| && render < |timeline| && timeline[render] < timeline[copy]
    requires WritesSourceOf(issued[timeline[render]], issued[timeline[copy]])
    ensures render < copy
  {
  }

  /** A command at the end of the open buffer. */
  lemma Appended(timeline: seq<nat>, issued: seq<Command>, c: Command)
    requires Complete(timeline, issued) && Ordered(timeline, issued)
    ensures Complete(timeline + [|issued|], issued + [c]) && Ordered(timeline + [|issued|], issued + [c])
    ensures ConflictsKept(timeline + [|issued|], issued + [c]) <==> ConflictsKept(timeline, issued)
  {
    var after, more := timeline + [|issued|], issued + [c];
    assert forall i :: 0 <= i < |timeline| ==> after[i] == timeline[i] && more[after[i]] == issued[timeline[i]];
    hide Conflict;
  }

  lemma InsertedOnce(queue: seq<nat>, buffer: seq<nat>, issued: seq<Command>, c: Command)
    requires Complete(queue + buffer, issued)
    ensures Complete(queue + [|issued|] + buffer, issued + [c])
  {
    var before, after := queue + buffer, queue + [|issued|] + buffer;
    var q := |queue|;
    assert forall i :: 0 <= i < q ==> after[i] == before[i];
    assert forall i :: q < i < |after| ==> after[i] == before[i - 1];
  }

  /** A staging command between the queue and the open buffer. */
  lemma Inserted(queue: seq<nat>, buffer: seq<nat>, issued: seq<Command>, c: Command)
    requires Complete(queue + buffer, issued) && Ordered(queue + buffer, issued) && Staged(c)
    requires forall n :: n in buffer && n < |issued| ==> !WritesSourceOf(issued[n], c)
    ensures var timeline := queue + [|issued|] + buffer;
      Complete(timeline, issued + [c]) && Ordered(timeline, issued + [c])
  {
    InsertedOnce(queue, buffer, issued, c);
    hide Staged, WritesSourceOf;
    var before, after, more := queue + buffer, queue + [|issued|] + buffer, issued + [c];
    var q := |queue|;
    assert forall i :: 0 <= i < q ==> after[i] == before[i];
    assert forall i :: q < i < |after| ==> after[i] == before[i - 1] == buffer[i - q - 1];
    assert after[q] == |issued| && more[|issued|] == c;
    forall i, j | 0 <= i < j < |after| && after[j] < after[i]
      ensures Staged(more[after[i]]) && !WritesSourceOf(more[after[j]], more[after[i]])
    {
      if i == q {
        assert after[j] in buffer;
      } else {
        assert j != q;
      }
    }
  }

  /** It leaves conflicting commands in their order exactly if it conflicts with nothing in the open buffer. */
  lemma InsertedExactly(queue: seq<nat>, buffer: seq<nat>, issued: seq<Command>, c: Command)
    requires Complete(queue + buffer, issued) && ConflictsKept(queue + buffer, issued)
    requires Complete(queue + [|issued|] + buffer, issued + [c])
    ensures ConflictsKept(queue + [|issued|] + buffer, issued + [c]) <==> NoConflict(buffer, issued, c)
  {
    hide Conflict;
    var before, after, more := queue + buffer, queue + [|issued|] + buffer, issued + [c];
    var q := |queue|;
    assert forall i :: 0 <= i < q ==> after[i] == before[i];
    assert forall i :: q < i < |after| ==> after[i] == before[i - 1] == buffer[i - q - 1];
    assert after[q] == |issued| && more[|issued|] == c;
    if NoConflict(buffer, issued, c) {
      forall i, j | 0 <= i < j < |after| && after[j] < after[i]
        ensures !Conflict(more[after[j]], more[after[i]])
      {
        if i == q {
          assert after[j] in buffer;
        } else {
          assert j != q;
        }
      }
    } else {
      var n :| n in buffer && n < |issued| && Conflict(issued[n], c);
      var k :| 0 <= k < |buffer| && buffer[k] == n;
      assert after[q + 1 + k] == n;
    }
  }

  /** An upload overtakes a draw into the same texture, and a staged copy overtakes an open copy into its source. */
  lemma StagingOvertakes(a: MetalTexture, b: MetalTexture, c: MetalTexture, sampled: set<MetalTexture>)
    ensures var issued := [Render(a, sampled), Upload(a)];
      Complete([1, 0], issued) && Ordered([1, 0], issued) && !ConflictsKept([1, 0], issued)
    ensures var issued := [Copy(a, b, false), Copy(b, c, true)];
      Complete([1, 0], issued) && Ordered([1, 0], issued) && !ConflictsKept([1, 0], issued)
  {
    var first := [Render(a, sampled), Upload(a)];
    var second := [Copy(a, b, false), Copy(b, c, true)];
    assert a in Written(first[0]) * (Read(first[1]) + Written(first[1])) && Conflict(first[0], first[1]);
    assert b in Written(second[0]) * (Read(second[1]) + Written(second[1])) && Conflict(second[0], second[1]);
    var t: seq<nat> := [1, 0];
    assert t[1] < t[0];
  }

  class MetalDevice {
    var commandBuffer: Option<seq<nat>>           // the commands encoded into the open command buffer
    var queue: seq<nat>                           // the commands committed so far
    var inFlightRenderTargets: set<MetalTexture>
    var renderTarget: MetalTexture?
    var isRendertargetChanged: bool
    var attachment: MetalTexture?                 // what the render pass descriptor of draws renders to
    var useSRGBGamma: bool
    var issued: seq<Command>                      // all commands, in the order they were asked for
    ghost var textures: set<MetalTexture>

    ghost function Buffer(): seq<nat>
      reads this
    {
      if commandBuffer.Some? then commandBuffer.value else []
    }

    ghost function Timeline(): seq<nat>
      reads this
    {
      queue + Buffer()
    }

    /** Textures with pending writes are those marked so, and they only pend while there is an open buffer. */
    ghost predicate Tracked()
      reads this, textures
    {
      && inFlightRenderTargets <= textures
      && (forall t :: t in textures ==> (t.hasPendingWrites <==> t in inFlightRenderTargets))
      && (inFlightRenderTargets != {} ==> commandBuffer.Some?)
      && (forall n :: n in Buffer() && n < |issued| && issued[n].Render? ==> issued[n].target in inFlightRenderTargets)
    }

    ghost predicate InOrder()
      reads this
    {
      Complete(Timeline(), issued) && Ordered(Timeline(), issued)
    }

    /** Commands that conflict run in the order in which they were issued. */
    ghost predicate Kept()
      reads this
    {
      InOrder() && ConflictsKept(Timeline(), issued)
    }

    ghost predicate Valid()
      reads this, textures
    {
      && Tracked() && InOrder()
      && (renderTarget != null ==> renderTarget in textures && isRendertargetChanged)
    }

    constructor ()
      ensures Valid() && issued == [] && textures == {} && renderTarget == null
    {
      commandBuffer, queue, inFlightRenderTargets := None, [], {};
      renderTarget, isRendertargetChanged, attachment, useSRGBGamma := null, false, null, false;
      issued, textures := [], {};
    }

    method CreateTexture() returns (t: MetalTexture)
      requires Valid()
      modifies this
      ensures Valid() && fresh(t) && textures == old(textures) + {t} && issued == old(issued)
    {
      t := new MetalTexture();
      textures := textures + {t};
    }

    // -------------------------------------------------------------------------------------------------------
    // Selecting a target

    method BeginFrame()
      requires Valid()
      modifies this
      ensures Valid() && renderTarget == null && issued == old(issued) && textures == old(textures)
    {
      useSRGBGamma, renderTarget := false, null;
    }

    /** Taking the target away does not count as a change. */
    method SetRenderTarget(tex: MetalTexture?, zstencil: bool)
      requires Valid() && (tex != null ==> tex in textures)
      modifies this
      ensures Valid() && renderTarget == tex && issued == old(issued) && textures == old(textures)
    {
      renderTarget := tex;
      if tex != null {
        isRendertargetChanged := true;
      }
      if zstencil {
        isRendertargetChanged := true;
      }
    }

    method EnableFramebufferSrgb(enable: bool)
      requires Valid()
      modifies this
      ensures Valid() && useSRGBGamma == enable && issued == old(issued) && textures == old(textures)
    {
      if useSRGBGamma != enable {
        useSRGBGamma, isRendertargetChanged := enable, true;
      }
    }

    /** A swap chain keeps its target texture until its format changes. If no new one can be made, the target stays. */
    method LoadSwapChain(swapChain: OBSSwapChain, formatChanged: bool, srgb: bool, created: bool)
      requires Valid() && (swapChain.renderTarget != null ==> swapChain.renderTarget in textures)
      modifies this, swapChain
      ensures Valid() && issued == old(issued) && textures >= old(textures) && fresh(textures - old(textures))
      ensures swapChain.renderTarget != null ==> swapChain.renderTarget in textures
      ensures swapChain.renderTarget != null ==> renderTarget == swapChain.renderTarget
      ensures swapChain.renderTarget == null ==> renderTarget == old(renderTarget)
    {
      hide Complete, Ordered;
      if formatChanged {
        swapChain.renderTarget := null;
      }
      useSRGBGamma := srgb;
      if swapChain.renderTarget == null {
        if !created {
          return;
        }
        var t := CreateTexture();
        swapChain.renderTarget := t;
      }
      renderTarget := swapChain.renderTarget;
      isRendertargetChanged := true;
    }

    // -------------------------------------------------------------------------------------------------------
    // Command buffers

    method EnsureCommandBuffer(available: bool) returns (ok: bool)
      requires Valid()
      modifies this
      ensures Valid() && issued == old(issued) && textures == old(textures) && renderTarget == old(renderTarget)
      ensures inFlightRenderTargets == old(inFlightRenderTargets) && Timeline() == old(Timeline())
      ensures Buffer() == old(Buffer()) && queue == old(queue)
      ensures ok <==> commandBuffer.Some?
      ensures ok <==> old(commandBuffer).Some? || available
    {
      if commandBuffer.None? {
        if !available {
          return false;
        }
        commandBuffer := Some([]);
        assert queue + [] == queue;
      }
      ok := true;
    }

    /** Presenting and flushing do just this. */
    method FinishPendingCommands()
      requires Valid()
      modifies this, inFlightRenderTargets
      ensures Valid() && issued == old(issued) && textures == old(textures) && renderTarget == old(renderTarget)
      ensures inFlightRenderTargets == {} && commandBuffer.None? && queue == old(Timeline()) == Timeline()
    {
      if commandBuffer.None? {
        return;
      }
      queue := queue + commandBuffer.value;
      var rest := inFlightRenderTargets;
      while rest != {}
        invariant rest <= inFlightRenderTargets == old(inFlightRenderTargets) <= textures == old(textures)
        invariant forall t :: t in textures ==> (t.hasPendingWrites <==> t in rest)
        invariant queue == old(Timeline()) && issued == old(issued)
        invariant renderTarget == old(renderTarget) && isRendertargetChanged == old(isRendertargetChanged)
        decreases rest
      {
        var t :| t in rest;
        t.hasPendingWrites := false;
        rest := rest - {t};
      }
      inFlightRenderTargets := {};
      commandBuffer := None;
      assert queue + [] == queue;
    }

    // -------------------------------------------------------------------------------------------------------
    // Rendering

    method MarkPending(t: MetalTexture)
      requires Valid() && t in textures && commandBuffer.Some?
      modifies this, t
      ensures Valid() && issued == old(issued) && textures == old(textures) && renderTarget == old(renderTarget)
      ensures commandBuffer == old(commandBuffer) && queue == old(queue) && attachment == old(attachment)
      ensures inFlightRenderTargets == old(inFlightRenderTargets) + {t}
    {
      t.hasPendingWrites := true;
      inFlightRenderTargets := inFlightRenderTargets + {t};
    }

    /** Encodes into the open buffer. */
    method Encode(c: Command)
      requires Valid() && commandBuffer.Some?
      requires c.Render? ==> c.target in inFlightRenderTargets
      modifies this
      ensures Valid() && issued == old(issued) + [c] && Timeline() == old(Timeline()) + [|old(issued)|]
      ensures Kept() <==> old(Kept())
      ensures textures == old(textures) && renderTarget == old(renderTarget)
      ensures commandBuffer.Some? && queue == old(queue)
    {
      Appended(Timeline(), issued, c);
      ghost var before := Timeline();
      commandBuffer := Some(commandBuffer.value + [|issued|]);
      issued := issued + [c];
      assert Timeline() == before + [|old(issued)|];
    }

    lemma NothingWritesSource(c: Command)
      requires Tracked() && (c.Copy? ==> c.source in textures && !c.source.hasPendingWrites)
      ensures forall n :: n in Buffer() && n < |issued| ==> !WritesSourceOf(issued[n], c)
    {
    }

    /** Encodes into a command buffer of its own and commits that at once. */
    method EncodeAndCommit(c: Command)
      requires Valid() && Staged(c)
      requires c.Copy? ==> c.source in textures && !c.source.hasPendingWrites
      modifies this
      ensures Valid() && issued == old(issued) + [c] && queue == old(queue) + [|old(issued)|]
      ensures textures == old(textures) && renderTarget == old(renderTarget) && Buffer() == old(Buffer())
      ensures old(Kept()) ==> (Kept() <==> NoConflict(old(Buffer()), old(issued), c))
    {
      NothingWritesSource(c);
      hide Complete, Ordered, ConflictsKept, NoConflict, WritesSourceOf;
      Inserted(queue, Buffer(), issued, c);
      if ConflictsKept(Timeline(), issued) {
        InsertedExactly(queue, Buffer(), issued, c);
      }
      queue := queue + [|issued|];
      issued := issued + [c];
    }

    /** A draw renders to what the pass descriptor holds. That is the render target because selecting one counts as a
        change, and nothing ever takes that back. Without vertices or without one of the shaders it does nothing, after
        it has opened a command buffer. */
    method Draw(vertices: bool, vertexShader: bool, fragmentShader: bool, sampled: set<MetalTexture>, available: bool,
                encodable: bool)
        returns (ok: bool)
      requires Valid()
      modifies this, if renderTarget == null then {} else {renderTarget}
      ensures Valid() && textures == old(textures) && renderTarget == old(renderTarget)
      ensures var drawn := ok && old(renderTarget) != null && vertices && vertexShader && fragmentShader;
        issued == if drawn then old(issued) + [Render(renderTarget, sampled)] else old(issued)
      ensures Kept() <==> old(Kept())
      ensures var wanted := old(renderTarget) != null && vertices && vertexShader && fragmentShader;
        ok <==> (old(commandBuffer).Some? || available) && (wanted ==> encodable)
    {
      ok := EnsureCommandBuffer(available);
      if !ok || renderTarget == null {
        return;
      }
      if !vertices || !vertexShader || !fragmentShader {
        return;
      }
      if isRendertargetChanged {
        attachment := renderTarget;
        MarkPending(renderTarget);
      }
      if !encodable {
        return false;
      }
      Encode(Render(attachment, sampled));
    }

    /** A clear marks its target whatever has changed. */
    method Clear(available: bool, pipeline: bool, encodable: bool) returns (ok: bool)
      requires Valid()
      modifies this, if renderTarget == null then {} else {renderTarget}
      ensures Valid() && textures == old(textures) && renderTarget == old(renderTarget)
      ensures ok && old(renderTarget) != null ==> issued == old(issued) + [Render(renderTarget, {})]
      ensures Kept() <==> old(Kept())
      ensures !ok || old(renderTarget) == null ==> issued == old(issued)
      ensures available && pipeline && encodable ==> ok
    {
      ok := EnsureCommandBuffer(available);
      if !ok || renderTarget == null {
        return;
      }
      if !pipeline {
        return false;
      }
      MarkPending(renderTarget);
      if !encodable {
        return false;
      }
      Encode(Render(renderTarget, {}));
    }

    // -------------------------------------------------------------------------------------------------------
    // Copies

    /** Into the open buffer, which it opens if need be. */
    method CopyTexture(source: MetalTexture, destination: MetalTexture, available: bool) returns (ok: bool)
      requires Valid() && source in textures
      modifies this, inFlightRenderTargets
      ensures Valid() && textures == old(textures) && renderTarget == old(renderTarget)
      ensures issued == if ok then old(issued) + [Copy(source, destination, false)] else old(issued)
      ensures Kept() <==> old(Kept())
      ensures available ==> ok
    {
      if source.hasPendingWrites {
        FinishPendingCommands();
      }
      ok := EnsureCommandBuffer(available);
      if ok {
        Encode(Copy(source, destination, false));
      }
    }

    /** `stageTexture`, `copyTextureRegion`, and `stageTextureToBuffer`, which has no destination texture: past the open
        buffer. Only pending draws and clears into the source are waited for. */
    method StageTexture(source: MetalTexture, destination: MetalTexture?, available: bool) returns (ok: bool)
      requires Valid() && source in textures
      modifies this, inFlightRenderTargets
      ensures Valid() && textures == old(textures) && renderTarget == old(renderTarget)
      ensures issued == if ok then old(issued) + [Copy(source, destination, true)] else old(issued)
      ensures ok <==> available
      ensures ok && old(Kept()) ==>
          (Kept() <==> old(source.hasPendingWrites)
                       || NoConflict(old(Buffer()), old(issued), Copy(source, destination, true)))
    {
      if source.hasPendingWrites {
        FinishPendingCommands();
      }
      if available {
        EncodeAndCommit(Copy(source, destination, true));
      }
      ok := available;
    }

    /** Nothing is waited for. */
    method StageBufferToTexture(destination: MetalTexture, available: bool) returns (ok: bool)
      requires Valid()
      modifies this
      ensures Valid() && textures == old(textures) && renderTarget == old(renderTarget)
      ensures issued == if ok then old(issued) + [Upload(destination)] else old(issued)
      ensures ok <==> available
      ensures ok && old(Kept()) ==> (Kept() <==> NoConflict(old(Buffer()), old(issued), Upload(destination)))
    {
      if available {
        EncodeAndCommit(Upload(destination));
      }
      ok := available;
    }
  }
}
