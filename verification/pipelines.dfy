/**
 Pipeline creation (graphics, compute, NV ray tracing): handles inside each
 create info are unwrapped before the driver call, and every non-null
 pipeline the driver wrote is wrapped afterwards, whatever the result code.
 Graphics pipelines additionally get the attachment-usage flags of their
 subpass.
 */
module Pipelines {
  import opened Handles
  import opened UniqueIds
  import opened RenderPassUsage
  import opened DispatchState
  import opened RenderPasses

  /** The handle fields of one create info the layer rewrites: layout, base
      pipeline and shader modules are unwrapped only when non-null, the
      library array element by element unconditionally. */
  datatype PipelineInfo = PipelineInfo(layout: Handle, basePipeline: Handle, modules: seq<Handle>, libraries: seq<Handle>)

  /** A graphics create info: the shared fields plus what the
      attachment-usage decision reads. */
  datatype GraphicsInfo = GraphicsInfo(info: PipelineInfo, renderPass: Handle, subpass: nat, dynamic: Option<DynamicRendering>)

  /** What a pipeline entry point forwards and returns: the pipeline cache,
      the rewritten create infos, the render pass of each (graphics only,
      empty otherwise), the attachment-usage flags (graphics only) and the
      pipelines handed back. */
  datatype PipelineCall = PipelineCall(s: State, cache: Handle, infos: seq<PipelineInfo>, renderPasses: seq<Handle>,
                                       uses: seq<AttachmentUse>, returned: seq<Handle>)

  function UnwrapInfo(ids: IdMap, p: PipelineInfo): (r: PipelineInfo)
    ensures r.layout == UnwrapNonNull(ids, p.layout) && r.basePipeline == UnwrapNonNull(ids, p.basePipeline)
    ensures |r.modules| == |p.modules| && |r.libraries| == |p.libraries|
    ensures forall i :: 0 <= i < |p.modules| ==> r.modules[i] == UnwrapNonNull(ids, p.modules[i])
    ensures forall i :: 0 <= i < |p.libraries| && p.libraries[i] in ids.table ==> r.libraries[i] == ids.table[p.libraries[i]]
  {
    PipelineInfo(UnwrapNonNull(ids, p.layout), UnwrapNonNull(ids, p.basePipeline),
                 seq(|p.modules|, i requires 0 <= i < |p.modules| => UnwrapNonNull(ids, p.modules[i])),
                 UnwrapEach(ids, p.libraries))
  }

  /** The attachment usage one graphics create info is copied with. */
  function GraphicsUse(s: State, g: GraphicsInfo): (r: AttachmentUse)
    ensures var rp := Unwrap(s.ids, g.renderPass);
            && (g.dynamic.None? ==> (r.color <==> rp in s.renderPasses && g.subpass in s.renderPasses[rp].color))
            && (g.dynamic.None? ==> (r.depthStencil <==> rp in s.renderPasses && g.subpass in s.renderPasses[rp].depthStencil))
            && (g.dynamic.Some? ==> (r.color <==> g.dynamic.value.colorAttachmentCount > 0))
            && (g.dynamic.Some? ==> (r.depthStencil <==> g.dynamic.value.depthFormat != FormatUndefined ||
                                                         g.dynamic.value.stencilFormat != FormatUndefined))
  {
    PipelineAttachmentUse(Lookup(s.renderPasses, Unwrap(s.ids, g.renderPass)), g.subpass, g.dynamic)
  }

  /** Wraps the pipelines the driver wrote; shared by every creation path. */
  function WrapPipelines(s: State, created: seq<Handle>): (r: MintedAll)
    requires Valid(s)
    ensures Valid(s.(ids := r.ids))
    ensures |r.surrogates| == |created|
    ensures forall i :: 0 <= i < |created| ==> (r.surrogates[i] == NullHandle <==> created[i] == NullHandle)
    ensures forall i :: 0 <= i < |created| && created[i] != NullHandle ==>
              r.surrogates[i] !in s.ids.table && Unwrap(r.ids, r.surrogates[i]) == created[i]
    ensures forall id :: id in s.ids.table ==> Unwrap(r.ids, id) == Unwrap(s.ids, id)
  {
    WrapNonNull(s.ids, created)
  }

  /** vkCreateGraphicsPipelines; `created` is the array the driver wrote. */
  function CreateGraphicsPipelines(s: State, cache: Handle, infos: seq<GraphicsInfo>, result: VkResult, created: seq<Handle>): (r: PipelineCall)
    requires Valid(s)
    ensures Valid(r.s) && OnlyIdsChanged(s, r.s)
    ensures !s.wrapHandles ==> r.s == s && r.cache == cache && r.returned == created
    ensures !s.wrapHandles ==> r.infos == seq(|infos|, i requires 0 <= i < |infos| => infos[i].info)
    ensures s.wrapHandles ==>
              && r.cache == UnwrapNonNull(s.ids, cache)
              && |r.infos| == |r.renderPasses| == |r.uses| == |infos| && |r.returned| == |created|
              && (forall i :: 0 <= i < |infos| ==> r.infos[i] == UnwrapInfo(s.ids, infos[i].info))
              && (forall i :: 0 <= i < |infos| ==> r.renderPasses[i] == UnwrapNonNull(s.ids, infos[i].renderPass))
              && (forall i :: 0 <= i < |infos| ==> r.uses[i] == GraphicsUse(s, infos[i]))
              && (forall i :: 0 <= i < |created| ==> (r.returned[i] == NullHandle <==> created[i] == NullHandle))
              && (forall i :: 0 <= i < |created| && created[i] != NullHandle ==>
                    r.returned[i] !in s.ids.table && Unwrap(r.s.ids, r.returned[i]) == created[i])
              && (forall id :: id in s.ids.table ==> Unwrap(r.s.ids, id) == Unwrap(s.ids, id))
  {
    if !s.wrapHandles then
      PipelineCall(s, cache, seq(|infos|, i requires 0 <= i < |infos| => infos[i].info), [], [], created)
    else
      var w := WrapPipelines(s, created);
      PipelineCall(s.(ids := w.ids), UnwrapNonNull(s.ids, cache),
                   seq(|infos|, i requires 0 <= i < |infos| => UnwrapInfo(s.ids, infos[i].info)),
                   seq(|infos|, i requires 0 <= i < |infos| => UnwrapNonNull(s.ids, infos[i].renderPass)),
                   seq(|infos|, i requires 0 <= i < |infos| => GraphicsUse(s, infos[i])),
                   w.surrogates)
  }

  /** vkCreateComputePipelines and vkCreateRayTracingPipelinesNV: the cache
      is unwrapped unconditionally, there is no attachment decision. Compute
      libraries arrive through the pNext chain; the NV variant has none, so
      its callers pass an empty `libraries`. */
  function CreateComputePipelines(s: State, cache: Handle, infos: seq<PipelineInfo>, result: VkResult, created: seq<Handle>): (r: PipelineCall)
    requires Valid(s)
    ensures Valid(r.s) && OnlyIdsChanged(s, r.s)
    ensures !s.wrapHandles ==> r.s == s && r.cache == cache && r.infos == infos && r.returned == created
    ensures s.wrapHandles ==>
              && (cache in s.ids.table ==> r.cache == s.ids.table[cache])
              && |r.infos| == |infos| && |r.returned| == |created|
              && (forall i :: 0 <= i < |infos| ==> r.infos[i] == UnwrapInfo(s.ids, infos[i]))
              && (forall i :: 0 <= i < |created| ==> (r.returned[i] == NullHandle <==> created[i] == NullHandle))
              && (forall i :: 0 <= i < |created| && created[i] != NullHandle ==>
                    r.returned[i] !in s.ids.table && Unwrap(r.s.ids, r.returned[i]) == created[i])
              && (forall id :: id in s.ids.table ==> Unwrap(r.s.ids, id) == Unwrap(s.ids, id))
  {
    if !s.wrapHandles then PipelineCall(s, cache, infos, [], [], created)
    else
      var w := WrapPipelines(s, created);
      PipelineCall(s.(ids := w.ids), Unwrap(s.ids, cache),
                   seq(|infos|, i requires 0 <= i < |infos| => UnwrapInfo(s.ids, infos[i])), [], [],
                   w.surrogates)
  }

  /** End to end: a graphics pipeline naming subpass `k` of a render pass the
      layer created (with no earlier usage recorded for its real handle) and
      no dynamic-rendering block uses a colour attachment iff that subpass
      has a colour reference in use, and likewise for depth/stencil. */
  lemma RenderPassUsageReachesPipeline(s: State, subpasses: seq<SubpassDesc>, created: Handle, k: nat,
                                       info: PipelineInfo, created2: seq<Handle>)
    requires Valid(s) && s.wrapHandles && created !in s.renderPasses
    ensures var c := CreateRenderPass(s, subpasses, Success, created);
            var g := CreateGraphicsPipelines(c.s, NullHandle, [GraphicsInfo(info, c.returned[0], k, None)], Success, created2);
            && (g.uses[0].color <==> k < |subpasses| && ColorInUse(subpasses[k].colorAttachments))
            && (g.uses[0].depthStencil <==> k < |subpasses| && DepthStencilInUse(subpasses[k]))
  {
  }
}
