/**
 Render-pass creation and destruction: the usage of each subpass is recorded
 under the real handle the driver returned, before the handle is wrapped,
 and dropped again under the real handle the destroy path pops.
 */
module RenderPasses {
  import opened Handles
  import opened UniqueIds
  import opened RenderPassUsage
  import opened DispatchState

  /** The entry already stored for a real render-pass handle, or an empty one
      (the source indexes the map, creating the entry if absent). */
  function Prior(s: State, rp: Handle): Usage {
    if rp in s.renderPasses then s.renderPasses[rp] else Usage({}, {})
  }

  /** vkCreateRenderPass (and the version-2 entry points, which differ only in
      the subpass description type): `created` is what the driver wrote. */
  function CreateRenderPass(s: State, subpasses: seq<SubpassDesc>, result: VkResult, created: Handle): (r: Call)
    requires Valid(s)
    ensures Valid(r.s)
    ensures |r.returned| == 1 && r.forwarded == []
    ensures !s.wrapHandles || result != Success ==> r.s == s && r.returned == [created]
    ensures s.wrapHandles && result == Success ==>
              && r.returned[0] != NullHandle && r.returned[0] !in s.ids.table
              && Unwrap(r.s.ids, r.returned[0]) == created
              && (forall id :: id in s.ids.table ==> Unwrap(r.s.ids, id) == Unwrap(s.ids, id))
              && r.s.renderPasses.Keys == s.renderPasses.Keys + {created}
              && (forall i: nat :: i in r.s.renderPasses[created].color <==>
                    i in Prior(s, created).color || (i < |subpasses| && ColorInUse(subpasses[i].colorAttachments)))
              && (forall i: nat :: i in r.s.renderPasses[created].depthStencil <==>
                    i in Prior(s, created).depthStencil || (i < |subpasses| && DepthStencilInUse(subpasses[i])))
              && (forall rp :: rp in s.renderPasses && rp != created ==> r.s.renderPasses[rp] == s.renderPasses[rp])
              && r.s == s.(ids := r.s.ids, renderPasses := r.s.renderPasses)
  {
    if !s.wrapHandles || result != Success then Call(s, [], [created])
    else
      var passes := s.renderPasses[created := Derive(Prior(s, created), subpasses)];
      var m := WrapNew(s.ids, created);
      Call(s.(ids := m.ids, renderPasses := passes), [], [m.id])
  }

  /** vkDestroyRenderPass: pops the surrogate, forwards the real handle (or
      null) and drops the usage stored under whatever was forwarded. */
  function DestroyRenderPass(s: State, renderPass: Handle): (r: Call)
    requires Valid(s)
    ensures Valid(r.s)
    ensures |r.forwarded| == 1 && r.returned == []
    ensures !s.wrapHandles ==> r.s == s && r.forwarded == [renderPass]
    ensures s.wrapHandles ==>
              && r.forwarded[0] == (if renderPass in s.ids.table then s.ids.table[renderPass] else NullHandle)
              && r.s.ids.table == s.ids.table - {renderPass} && r.s.ids.next == s.ids.next
              && r.s.renderPasses == s.renderPasses - {r.forwarded[0]}
              && r.s == s.(ids := r.s.ids, renderPasses := r.s.renderPasses)
  {
    if !s.wrapHandles then Call(s, [renderPass], [])
    else
      var p := Pop(s.ids, renderPass);
      var rp := Forwarded(p);
      Call(s.(ids := p.ids, renderPasses := s.renderPasses - {rp}), [rp], [])
  }

  /** Destroying the same surrogate twice: the second call forwards null and
      changes nothing beyond dropping a usage entry stored under null. */
  lemma DestroyRenderPassTwice(s: State, renderPass: Handle)
    requires Valid(s) && s.wrapHandles
    ensures var r1 := DestroyRenderPass(s, renderPass);
            var r2 := DestroyRenderPass(r1.s, renderPass);
            && r2.forwarded == [NullHandle]
            && r2.s == r1.s.(renderPasses := r1.s.renderPasses - {NullHandle})
  {
    var r1 := DestroyRenderPass(s, renderPass);
    var r2 := DestroyRenderPass(r1.s, renderPass);
    assert r2.s.ids.table == r1.s.ids.table;
  }

  /** Create followed by destroy of the returned surrogate hands the created
      handle back to the driver, leaves the id table as it was before the
      create and removes the usage entry recorded for the render pass. */
  lemma CreateThenDestroyRenderPass(s: State, subpasses: seq<SubpassDesc>, created: Handle)
    requires Valid(s) && s.wrapHandles
    ensures var c := CreateRenderPass(s, subpasses, Success, created);
            var d := DestroyRenderPass(c.s, c.returned[0]);
            && d.forwarded == [created]
            && d.s.ids.table == s.ids.table
            && d.s.renderPasses == s.renderPasses - {created}
  {
    var c := CreateRenderPass(s, subpasses, Success, created);
    var d := DestroyRenderPass(c.s, c.returned[0]);
    assert d.s.ids.table.Keys == s.ids.table.Keys;
    assert d.s.renderPasses.Keys == (s.renderPasses - {created}).Keys;
  }
}
