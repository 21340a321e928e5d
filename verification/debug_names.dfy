/**
 Debug-marker and debug-utils naming and tagging: the object handle in the
 info struct may be a surrogate or not a wrapped handle at all, so it is
 replaced only when the id table knows it.
 */
module DebugNames {
  import opened Handles
  import opened UniqueIds
  import opened DispatchState
  import opened RenderPassUsage
  import opened RenderPasses

  /** The object handle forwarded by vkDebugMarkerSetObjectTagEXT,
      vkDebugMarkerSetObjectNameEXT, vkSetDebugUtilsObjectTagEXT and
      vkSetDebugUtilsObjectNameEXT. */
  function SubstituteObject(s: State, obj: Handle): (r: Handle)
    ensures !s.wrapHandles ==> r == obj
    ensures s.wrapHandles && obj in s.ids.table ==> r == s.ids.table[obj]
    ensures s.wrapHandles && obj !in s.ids.table ==> r == obj
  {
    if s.wrapHandles then Lookup(s.ids.table, obj).GetOr(obj) else obj
  }

  /** Naming a render pass through its surrogate names the real render pass;
      once the render pass is destroyed the surrogate is passed through
      unchanged. */
  lemma NameFollowsLifetime(s: State, subpasses: seq<SubpassDesc>, created: Handle)
    requires Valid(s) && s.wrapHandles
    ensures var c := CreateRenderPass(s, subpasses, Success, created);
            var d := DestroyRenderPass(c.s, c.returned[0]);
            && SubstituteObject(c.s, c.returned[0]) == created
            && SubstituteObject(d.s, c.returned[0]) == c.returned[0]
  {
  }
}
