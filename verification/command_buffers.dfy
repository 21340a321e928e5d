/**
 Secondary command-buffer tracking. Command buffers are dispatchable and
 never wrapped; the layer only remembers which ones are secondary (and the
 pool handle their allocation named) so that beginning one unwraps the
 handles of its inheritance info.
 */
module CommandBuffers {
  import opened Handles
  import opened UniqueIds
  import opened DispatchState

  /** Records each command buffer under `pool`, keeping an existing entry. */
  function EmplaceAll(m: map<Handle, Handle>, cbs: seq<Handle>, pool: Handle): (r: map<Handle, Handle>)
    ensures r.Keys == m.Keys + Elements(cbs)
    ensures forall cb :: cb in m ==> r[cb] == m[cb]
    ensures forall cb :: cb in r && cb !in m ==> r[cb] == pool
    decreases |cbs|
  {
    if |cbs| == 0 then m else EmplaceAll(Emplace(m, cbs[0], pool), cbs[1..], pool)
  }

  /** vkAllocateCommandBuffers: forwards the pool; on success, for a
      secondary level, records every allocated buffer under the pool handle
      as the application passed it. */
  function AllocateCommandBuffers(s: State, pool: Handle, secondary: bool, result: VkResult, created: seq<Handle>): (r: Call)
    requires Valid(s)
    ensures Valid(r.s) && r.returned == created
    ensures !s.wrapHandles ==> r.s == s && r.forwarded == [pool]
    ensures s.wrapHandles ==> r.forwarded == [UnwrapNonNull(s.ids, pool)]
    ensures s.wrapHandles && (result != Success || !secondary) ==> r.s == s
    ensures s.wrapHandles && result == Success && secondary ==>
              && r.s.secondaryCommandBuffers.Keys == s.secondaryCommandBuffers.Keys + Elements(created)
              && (forall cb :: cb in s.secondaryCommandBuffers ==> r.s.secondaryCommandBuffers[cb] == s.secondaryCommandBuffers[cb])
              && (forall cb :: cb in created && cb !in s.secondaryCommandBuffers ==> r.s.secondaryCommandBuffers[cb] == pool)
              && r.s == s.(secondaryCommandBuffers := r.s.secondaryCommandBuffers)
  {
    if !s.wrapHandles then Call(s, [pool], created)
    else if result != Success || !secondary then Call(s, [UnwrapNonNull(s.ids, pool)], created)
    else
      Call(s.(secondaryCommandBuffers := EmplaceAll(s.secondaryCommandBuffers, created, pool)), [UnwrapNonNull(s.ids, pool)], created)
  }

  /** vkFreeCommandBuffers: forwards the unwrapped pool and forgets the
      buffers, whatever the driver did. */
  function FreeCommandBuffers(s: State, pool: Handle, cbs: seq<Handle>): (r: Call)
    requires Valid(s)
    ensures Valid(r.s) && r.returned == []
    ensures !s.wrapHandles ==> r.s == s && r.forwarded == [pool]
    ensures s.wrapHandles ==>
              && r.forwarded == [Unwrap(s.ids, pool)]
              && r.s.secondaryCommandBuffers.Keys == s.secondaryCommandBuffers.Keys - Elements(cbs)
              && (forall cb :: cb in r.s.secondaryCommandBuffers ==> r.s.secondaryCommandBuffers[cb] == s.secondaryCommandBuffers[cb])
              && r.s == s.(secondaryCommandBuffers := r.s.secondaryCommandBuffers)
  {
    if !s.wrapHandles then Call(s, [pool], [])
    else Call(s.(secondaryCommandBuffers := s.secondaryCommandBuffers - Elements(cbs)), [Unwrap(s.ids, pool)], [])
  }

  /** The entries whose recorded pool is not `pool`. */
  function WithoutPool(m: map<Handle, Handle>, pool: Handle): (r: map<Handle, Handle>)
    ensures forall cb :: cb in r <==> cb in m && m[cb] != pool
    ensures forall cb :: cb in r ==> r[cb] == m[cb]
  {
    map cb | cb in m && m[cb] != pool :: m[cb]
  }

  /** vkDestroyCommandPool: pops the pool, forwards the real handle (or null)
      and then drops every secondary buffer whose recorded pool equals the
      handle that was forwarded. */
  function DestroyCommandPool(s: State, pool: Handle): (r: Call)
    requires Valid(s)
    ensures Valid(r.s) && |r.forwarded| == 1 && r.returned == []
    ensures !s.wrapHandles ==> r.s == s && r.forwarded == [pool]
    ensures s.wrapHandles ==>
              && r.forwarded[0] == (if pool in s.ids.table then s.ids.table[pool] else NullHandle)
              && r.s.ids.table == s.ids.table - {pool} && r.s.ids.next == s.ids.next
              && (forall cb :: cb in r.s.secondaryCommandBuffers <==>
                    cb in s.secondaryCommandBuffers && s.secondaryCommandBuffers[cb] != r.forwarded[0])
              && (forall cb :: cb in r.s.secondaryCommandBuffers ==> r.s.secondaryCommandBuffers[cb] == s.secondaryCommandBuffers[cb])
              && r.s == s.(ids := r.s.ids, secondaryCommandBuffers := r.s.secondaryCommandBuffers)
  {
    if !s.wrapHandles then Call(s, [pool], [])
    else
      var p := Pop(s.ids, pool);
      var rp := Forwarded(p);
      Call(s.(ids := p.ids, secondaryCommandBuffers := WithoutPool(s.secondaryCommandBuffers, rp)), [rp], [])
  }

  predicate IsSecondary(s: State, cb: Handle) {
    cb in s.secondaryCommandBuffers
  }

  /** The inheritance info of a begin call: render pass and framebuffer. */
  datatype Inheritance = Inheritance(renderPass: Handle, framebuffer: Handle)

  /** vkBeginCommandBuffer: the inheritance info is rewritten only for a
      tracked secondary buffer, and only its non-null handles. */
  function BeginCommandBuffer(s: State, cb: Handle, inheritance: Option<Inheritance>): (r: Option<Inheritance>)
    ensures !s.wrapHandles || !IsSecondary(s, cb) || inheritance.None? ==> r == inheritance
    ensures s.wrapHandles && IsSecondary(s, cb) && inheritance.Some? ==>
              && r.Some?
              && r.value.renderPass == UnwrapNonNull(s.ids, inheritance.value.renderPass)
              && r.value.framebuffer == UnwrapNonNull(s.ids, inheritance.value.framebuffer)
  {
    if !s.wrapHandles || !IsSecondary(s, cb) then inheritance
    else
      match inheritance
      case None => None
      case Some(i) => Some(Inheritance(UnwrapNonNull(s.ids, i.renderPass), UnwrapNonNull(s.ids, i.framebuffer)))
  }

  /** The comparison in DestroyCommandPool is between the real pool handle
      and the application's pool handle recorded at allocation. With
      wrapping on those differ, so a secondary buffer allocated from a
      wrapped pool stays tracked after its pool is destroyed. */
  lemma DestroyedPoolKeepsSecondaries(s: State, pool: Handle, created: seq<Handle>)
    requires Valid(s) && s.wrapHandles && |created| > 0
    requires created[0] !in s.secondaryCommandBuffers
    requires pool in s.ids.table && s.ids.table[pool] != pool
    ensures var a := AllocateCommandBuffers(s, pool, true, Success, created);
            var d := DestroyCommandPool(a.s, pool);
            IsSecondary(d.s, created[0]) && d.s.secondaryCommandBuffers[created[0]] == pool
  {
    var a := AllocateCommandBuffers(s, pool, true, Success, created);
    assert created[0] in Elements(created);
  }

  /** When the application's pool handle equals the real one (a pool the
      surrogate table maps to itself), destroying it drops the secondaries
      allocated from it. */
  lemma DestroyedPoolDropsSecondaries(s: State, pool: Handle, created: seq<Handle>)
    requires Valid(s) && s.wrapHandles && |created| > 0
    requires created[0] !in s.secondaryCommandBuffers
    requires pool in s.ids.table && s.ids.table[pool] == pool
    ensures var a := AllocateCommandBuffers(s, pool, true, Success, created);
            var d := DestroyCommandPool(a.s, pool);
            !IsSecondary(d.s, created[0])
  {
    var a := AllocateCommandBuffers(s, pool, true, Success, created);
    assert created[0] in Elements(created);
  }

  /** Destroying a pool twice: the second call forwards null and drops only
      secondaries recorded under the null pool handle. */
  lemma DestroyCommandPoolTwice(s: State, pool: Handle)
    requires Valid(s) && s.wrapHandles
    ensures var r1 := DestroyCommandPool(s, pool);
            var r2 := DestroyCommandPool(r1.s, pool);
            && r2.forwarded == [NullHandle]
            && r2.s == r1.s.(secondaryCommandBuffers := WithoutPool(r1.s.secondaryCommandBuffers, NullHandle))
  {
    var r1 := DestroyCommandPool(s, pool);
    var r2 := DestroyCommandPool(r1.s, pool);
    assert r2.s.ids.table == r1.s.ids.table;
  }

  /** Freeing the secondary buffers just allocated forgets exactly them: the
      state is back where it was before the allocation. */
  lemma AllocateThenFreeCommandBuffers(s: State, pool: Handle, created: seq<Handle>)
    requires Valid(s) && s.wrapHandles
    requires forall i :: 0 <= i < |created| ==> created[i] !in s.secondaryCommandBuffers
    ensures var a := AllocateCommandBuffers(s, pool, true, Success, created);
            FreeCommandBuffers(a.s, pool, created).s == s
  {
    var a := AllocateCommandBuffers(s, pool, true, Success, created);
    var f := FreeCommandBuffers(a.s, pool, created);
    forall cb | cb in Elements(created)
      ensures cb !in s.secondaryCommandBuffers
    {
      var i :| 0 <= i < |created| && created[i] == cb;
    }
    assert f.s.secondaryCommandBuffers.Keys == s.secondaryCommandBuffers.Keys;
    assert f.s.secondaryCommandBuffers == s.secondaryCommandBuffers;
  }

  /** Beginning a buffer depends on how it was allocated: a secondary one
      has its non-null inheritance handles unwrapped, while a primary one
      that was never tracked has them forwarded unchanged. */
  lemma BeginFollowsAllocation(s: State, pool: Handle, created: seq<Handle>, i: nat, inh: Inheritance)
    requires Valid(s) && s.wrapHandles && i < |created|
    ensures var a := AllocateCommandBuffers(s, pool, true, Success, created);
            BeginCommandBuffer(a.s, created[i], Some(inh)) ==
              Some(Inheritance(UnwrapNonNull(s.ids, inh.renderPass), UnwrapNonNull(s.ids, inh.framebuffer)))
    ensures created[i] !in s.secondaryCommandBuffers ==>
              var a := AllocateCommandBuffers(s, pool, false, Success, created);
              BeginCommandBuffer(a.s, created[i], Some(inh)) == Some(inh)
  {
    assert created[i] in Elements(created);
  }
}
