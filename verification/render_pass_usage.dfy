/**
 Which subpasses of a render pass write colour and depth/stencil attachments,
 derived once when the render pass is created, and the per-pipeline decision
 graphics-pipeline creation makes from it (or from a dynamic-rendering block,
 which overrides it).
 */
module RenderPassUsage {
  import opened Handles

  /** VK_ATTACHMENT_UNUSED (~0U). */
  const AttachmentUnused: nat := 0xFFFF_FFFF

  /** VK_FORMAT_UNDEFINED. */
  const FormatUndefined: nat := 0

  /** The part of a subpass description (version 1 or 2) the derivation reads:
      the attachment index of each colour reference, and the depth/stencil
      reference if the pointer is non-null. */
  datatype SubpassDesc = SubpassDesc(colorAttachments: seq<nat>, depthStencil: Option<nat>)

  /** Subpass indices using a colour attachment, and those using a
      depth/stencil attachment. */
  datatype Usage = Usage(color: set<nat>, depthStencil: set<nat>)

  /** The scan over the colour references, stopping at the first one in use. */
  function ColorInUse(atts: seq<nat>): (r: bool)
    ensures r <==> exists i :: 0 <= i < |atts| && atts[i] != AttachmentUnused
    decreases |atts|
  {
    if |atts| == 0 then false
    else if atts[0] != AttachmentUnused then true
    else
      var rest := ColorInUse(atts[1..]);
      assert forall i :: 1 <= i < |atts| ==> atts[i] == atts[1..][i - 1];
      rest
  }

  predicate DepthStencilInUse(sp: SubpassDesc) {
    sp.depthStencil.Some? && sp.depthStencil.value != AttachmentUnused
  }

  /** Adds the usage of every subpass of `subpasses` to `prior`; `prior` is
      the entry already stored for the render-pass handle, which the source
      extends in place (an absent entry starts empty). */
  function Derive(prior: Usage, subpasses: seq<SubpassDesc>): (r: Usage)
    ensures forall i: nat :: i in r.color <==>
              i in prior.color || (i < |subpasses| && ColorInUse(subpasses[i].colorAttachments))
    ensures forall i: nat :: i in r.depthStencil <==>
              i in prior.depthStencil || (i < |subpasses| && DepthStencilInUse(subpasses[i]))
    decreases |subpasses|
  {
    if |subpasses| == 0 then prior
    else
      var n := |subpasses| - 1;
      var u := Derive(prior, subpasses[..n]);
      var sp := subpasses[n];
      Usage(if ColorInUse(sp.colorAttachments) then u.color + {n} else u.color,
            if DepthStencilInUse(sp) then u.depthStencil + {n} else u.depthStencil)
  }

  /** The VkPipelineRenderingCreateInfo fields the decision reads. */
  datatype DynamicRendering = DynamicRendering(colorAttachmentCount: nat, depthFormat: nat, stencilFormat: nat)

  datatype AttachmentUse = AttachmentUse(color: bool, depthStencil: bool)

  /** The attachment-usage flags handed to the safe-struct copy of one
      graphics-pipeline create info: the render pass's recorded usage of the
      pipeline's subpass, overridden by a dynamic-rendering block if present. */
  function PipelineAttachmentUse(recorded: Option<Usage>, subpass: nat, dynamic: Option<DynamicRendering>): (r: AttachmentUse)
    ensures dynamic.Some? ==> (r.color <==> dynamic.value.colorAttachmentCount > 0)
    ensures dynamic.Some? ==> (r.depthStencil <==> dynamic.value.depthFormat != FormatUndefined ||
                                                   dynamic.value.stencilFormat != FormatUndefined)
    ensures dynamic.None? ==> (r.color <==> recorded.Some? && subpass in recorded.value.color)
    ensures dynamic.None? ==> (r.depthStencil <==> recorded.Some? && subpass in recorded.value.depthStencil)
  {
    var fromPass :=
      if recorded.Some? then AttachmentUse(subpass in recorded.value.color, subpass in recorded.value.depthStencil)
      else AttachmentUse(false, false);
    match dynamic
    case Some(d) => AttachmentUse(d.colorAttachmentCount > 0,
                                  d.depthFormat != FormatUndefined || d.stencilFormat != FormatUndefined)
    case None => fromPass
  }

  /** With a dynamic-rendering block, the render pass and subpass do not
      matter at all. */
  lemma DynamicRenderingOverrides(a: Option<Usage>, sa: nat, b: Option<Usage>, sb: nat, d: DynamicRendering)
    ensures PipelineAttachmentUse(a, sa, Some(d)) == PipelineAttachmentUse(b, sb, Some(d))
  {
  }

  /** Scenario: subpass 0 with one colour attachment (index 0) and no
      depth/stencil reference, subpass 1 with only a depth/stencil reference. */
  lemma TwoSubpassScenario()
    ensures var u := Derive(Usage({}, {}), [SubpassDesc([0], None), SubpassDesc([], Some(1))]);
            u.color == {0} && u.depthStencil == {1}
  {
    var u := Derive(Usage({}, {}), [SubpassDesc([0], None), SubpassDesc([], Some(1))]);
    assert ColorInUse([0]);
    assert !ColorInUse([]);
    assert forall i: nat :: i in u.color <==> i == 0;
    assert forall i: nat :: i in u.depthStencil <==> i == 1;
  }
}
