/**
 The abstract state of a device-level dispatch object as far as handle
 wrapping is concerned, and the shape every modelled entry point shares: a
 pure transition from a state (plus what the driver answered) to a new state,
 the handles handed down to the driver and the handles handed back to the
 application.
 */
module DispatchState {
  import opened Handles
  import opened UniqueIds
  import opened RenderPassUsage
  import opened TemplateBuffer

  /** Work deferred until a deferred operation completes. Freeing the
      layer's copy of acceleration-structure build infos has no effect on
      this state; recording pipelines fills the pipeline registry. */
  datatype CompletionAction =
    | FreeBuildInfos
    | RecordPipelines(freesCreateInfos: bool, pipelines: seq<Handle>)

  /** A post-check registered by a validation object for a deferred
      operation; what it does lies outside this model, only which checks
      run and with which pipeline list. */
  datatype PostCheck = PostCheck(id: nat)

  datatype State = State(
    wrapHandles: bool,
    ids: IdMap,
    /** Application-visible pool handle to the surrogates of its sets. */
    poolDescriptorSets: map<Handle, set<Handle>>,
    /** Application-visible swapchain handle to its image surrogates, in
        the order the driver enumerated them. */
    swapchainImages: map<Handle, seq<Handle>>,
    /** Real render-pass handle to the subpass usage derived at creation. */
    renderPasses: map<Handle, Usage>,
    /** Surrogate of an update template to its entries. */
    templates: map<Handle, seq<TemplateEntry>>,
    /** Secondary command buffer to the pool handle its allocation named. */
    secondaryCommandBuffers: map<Handle, Handle>,
    /** The three deferred-operation registries, keyed by the real handle. */
    postCompletion: map<Handle, seq<CompletionAction>>,
    postCheck: map<Handle, seq<PostCheck>>,
    operationPipelines: map<Handle, seq<Handle>>
  )

  /** The state invariant: the id counter is ahead of every live surrogate
      and of every descriptor set still tracked under a pool. */
  predicate Valid(s: State) {
    && Fresh(s.ids)
    && forall p, d :: p in s.poolDescriptorSets && d in s.poolDescriptorSets[p] ==> d < s.ids.next
  }

  /** Minting more ids keeps the state valid. */
  lemma ValidAfterMint(s: State, ids: IdMap)
    requires Valid(s) && Fresh(ids) && ids.next >= s.ids.next
    ensures Valid(s.(ids := ids))
  {
  }

  /** A freshly created dispatch object: everything empty, ids start at 1. */
  function Initial(wrapHandles: bool): (s: State)
    ensures Valid(s) && s.ids.table == map[] && s.wrapHandles == wrapHandles
  {
    State(wrapHandles, IdMap(map[], 1), map[], map[], map[], map[], map[], map[], map[], map[])
  }

  /** The outcome of one entry point: the new state, the handles passed to
      the driver (in the order the entry point documents) and the handles
      written back to the application. */
  datatype Call = Call(s: State, forwarded: seq<Handle>, returned: seq<Handle>)

  /** The `if (h) h = Unwrap(h)` pattern: a null handle is left alone. */
  function UnwrapNonNull(ids: IdMap, h: Handle): (r: Handle)
    ensures h == NullHandle ==> r == NullHandle
    ensures h != NullHandle && h in ids.table ==> r == ids.table[h]
  {
    if h == NullHandle then NullHandle else Unwrap(ids, h)
  }

  /** Unwraps every element of a handle array. */
  function UnwrapEach(ids: IdMap, hs: seq<Handle>): (r: seq<Handle>)
    ensures |r| == |hs|
    ensures forall i :: 0 <= i < |hs| && hs[i] in ids.table ==> r[i] == ids.table[hs[i]]
  {
    seq(|hs|, i requires 0 <= i < |hs| => Unwrap(ids, hs[i]))
  }

  /** The handles of an array, as a set. */
  function Elements(hs: seq<Handle>): (r: set<Handle>)
    ensures forall h :: h in r <==> h in hs
  {
    set h | h in hs
  }

  /** Only the id map changed; every registry is as it was. */
  predicate OnlyIdsChanged(s: State, t: State) {
    t == s.(ids := t.ids)
  }
}
