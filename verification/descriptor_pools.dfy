/**
 Descriptor pools and the descriptor sets allocated from them. Sets are
 wrapped on allocation and tracked under the pool handle the application
 passed; freeing, resetting or destroying the pool drops their surrogates.
 */
module DescriptorPools {
  import opened Handles
  import opened UniqueIds
  import opened DispatchState

  /** The set surrogates tracked for a pool (none if it has no entry). */
  function Children(s: State, pool: Handle): set<Handle> {
    if pool in s.poolDescriptorSets then s.poolDescriptorSets[pool] else {}
  }

  /** vkAllocateDescriptorSets; forwards the pool, then the set layouts. */
  function AllocateDescriptorSets(s: State, pool: Handle, layouts: seq<Handle>, result: VkResult, created: seq<Handle>): (r: Call)
    requires Valid(s)
    ensures Valid(r.s)
    ensures !s.wrapHandles ==> r.s == s && r.forwarded == [pool] + layouts && r.returned == created
    ensures s.wrapHandles ==> r.forwarded == [UnwrapNonNull(s.ids, pool)] + UnwrapEach(s.ids, layouts)
    ensures s.wrapHandles && result != Success ==> r.s == s && r.returned == created
    ensures s.wrapHandles && result == Success ==>
              && |r.returned| == |created|
              && (forall i :: 0 <= i < |created| ==>
                    r.returned[i] != NullHandle && r.returned[i] !in s.ids.table && Unwrap(r.s.ids, r.returned[i]) == created[i])
              && (forall i, j :: 0 <= i < j < |created| ==> r.returned[i] != r.returned[j])
              && (forall id :: id in s.ids.table ==> Unwrap(r.s.ids, id) == Unwrap(s.ids, id))
              && Children(r.s, pool) == Children(s, pool) + Elements(r.returned)
              && (forall p :: p != pool ==> Children(r.s, p) == Children(s, p))
              && r.s == s.(ids := r.s.ids, poolDescriptorSets := r.s.poolDescriptorSets)
  {
    if !s.wrapHandles then Call(s, [pool] + layouts, created)
    else
      var fwd := [UnwrapNonNull(s.ids, pool)] + UnwrapEach(s.ids, layouts);
      if result != Success then Call(s, fwd, created)
      else
        var w := WrapAll(s.ids, created);
        var sets := s.poolDescriptorSets[pool := Children(s, pool) + Elements(w.surrogates)];
        Call(s.(ids := w.ids, poolDescriptorSets := sets), fwd, w.surrogates)
  }

  /** vkFreeDescriptorSets; forwards the pool, then the sets. `sets` is None
      when the application passed a null array. */
  function FreeDescriptorSets(s: State, pool: Handle, sets: Option<seq<Handle>>, result: VkResult): (r: Call)
    requires Valid(s)
    ensures Valid(r.s) && r.returned == []
    ensures !s.wrapHandles ==> r.s == s && r.forwarded == [pool] + sets.GetOr([])
    ensures s.wrapHandles ==> r.forwarded == [Unwrap(s.ids, pool)] + UnwrapEach(s.ids, sets.GetOr([]))
    ensures s.wrapHandles && (result != Success || sets.None?) ==> r.s == s
    ensures s.wrapHandles && result == Success && sets.Some? ==>
              && r.s.ids.table.Keys == s.ids.table.Keys - Elements(sets.value)
              && (forall id :: id in r.s.ids.table ==> r.s.ids.table[id] == s.ids.table[id])
              && pool in r.s.poolDescriptorSets
              && Children(r.s, pool) == Children(s, pool) - Elements(sets.value)
              && (forall p :: p != pool ==> Children(r.s, p) == Children(s, p))
              && r.s == s.(ids := r.s.ids, poolDescriptorSets := r.s.poolDescriptorSets)
  {
    if !s.wrapHandles then Call(s, [pool] + sets.GetOr([]), [])
    else
      var fwd := [Unwrap(s.ids, pool)] + UnwrapEach(s.ids, sets.GetOr([]));
      if result != Success || sets.None? then Call(s, fwd, [])
      else
        var gone := Elements(sets.value);
        var tracked := s.poolDescriptorSets[pool := Children(s, pool) - gone];
        Call(s.(ids := EraseAll(s.ids, gone), poolDescriptorSets := tracked), fwd, [])
  }

  /** vkResetDescriptorPool: on success every set of the pool is implicitly
      freed; the pool itself stays wrapped. */
  function ResetDescriptorPool(s: State, pool: Handle, result: VkResult): (r: Call)
    requires Valid(s)
    ensures Valid(r.s) && r.returned == []
    ensures !s.wrapHandles ==> r.s == s && r.forwarded == [pool]
    ensures s.wrapHandles ==> r.forwarded == [Unwrap(s.ids, pool)]
    ensures s.wrapHandles && result != Success ==> r.s == s
    ensures s.wrapHandles && result == Success ==>
              && r.s.ids.table.Keys == s.ids.table.Keys - Children(s, pool)
              && (forall id :: id in r.s.ids.table ==> r.s.ids.table[id] == s.ids.table[id])
              && pool in r.s.poolDescriptorSets && Children(r.s, pool) == {}
              && (forall p :: p != pool ==> Children(r.s, p) == Children(s, p))
              && r.s == s.(ids := r.s.ids, poolDescriptorSets := r.s.poolDescriptorSets)
  {
    if !s.wrapHandles then Call(s, [pool], [])
    else if result != Success then Call(s, [Unwrap(s.ids, pool)], [])
    else
      Call(s.(ids := EraseAll(s.ids, Children(s, pool)), poolDescriptorSets := s.poolDescriptorSets[pool := {}]),
           [Unwrap(s.ids, pool)], [])
  }

  /** vkDestroyDescriptorPool: erase the surrogates of every set of the
      pool, drop the pool's entry, then pop the pool and forward it. */
  function DestroyDescriptorPool(s: State, pool: Handle): (r: Call)
    requires Valid(s)
    ensures Valid(r.s) && |r.forwarded| == 1 && r.returned == []
    ensures !s.wrapHandles ==> r.s == s && r.forwarded == [pool]
    ensures s.wrapHandles ==>
              && r.forwarded[0] == (if pool in s.ids.table && pool !in Children(s, pool) then s.ids.table[pool] else NullHandle)
              && r.s.ids.table.Keys == s.ids.table.Keys - Children(s, pool) - {pool}
              && (forall id :: id in r.s.ids.table ==> r.s.ids.table[id] == s.ids.table[id])
              && r.s.ids.next == s.ids.next
              && r.s.poolDescriptorSets == s.poolDescriptorSets - {pool}
              && r.s == s.(ids := r.s.ids, poolDescriptorSets := r.s.poolDescriptorSets)
  {
    if !s.wrapHandles then Call(s, [pool], [])
    else
      var ids := EraseAll(s.ids, Children(s, pool));
      var p := Pop(ids, pool);
      Call(s.(ids := p.ids, poolDescriptorSets := s.poolDescriptorSets - {pool}), [Forwarded(p)], [])
  }

  /** Destroying a pool twice: the second call forwards null and changes
      nothing. */
  lemma DestroyDescriptorPoolTwice(s: State, pool: Handle)
    requires Valid(s) && s.wrapHandles
    ensures var r1 := DestroyDescriptorPool(s, pool);
            var r2 := DestroyDescriptorPool(r1.s, pool);
            r2.forwarded == [NullHandle] && r2.s == r1.s
  {
    var r1 := DestroyDescriptorPool(s, pool);
    var r2 := DestroyDescriptorPool(r1.s, pool);
    assert Children(r1.s, pool) == {};
    assert r2.s.ids.table == r1.s.ids.table;
  }

  /** Sets allocated from a pool and then freed again leave the id table and
      the pool's tracked sets exactly as before the allocation. */
  lemma {:induction false} AllocateThenFree(s: State, pool: Handle, layouts: seq<Handle>, created: seq<Handle>)
    requires Valid(s) && s.wrapHandles
    ensures var a := AllocateDescriptorSets(s, pool, layouts, Success, created);
            var f := FreeDescriptorSets(a.s, pool, Some(a.returned), Success);
            && f.s.ids.table == s.ids.table
            && Children(f.s, pool) == Children(s, pool)
  {
    var a := AllocateDescriptorSets(s, pool, layouts, Success, created);
    var f := FreeDescriptorSets(a.s, pool, Some(a.returned), Success);
    var minted := Elements(a.returned);
    forall d | d in minted
      ensures d !in s.ids.table && d !in Children(s, pool)
    {
      var i :| 0 <= i < |a.returned| && a.returned[i] == d;
      assert d >= s.ids.next by {
        assert a.returned == WrapAll(s.ids, created).surrogates;
      }
    }
    assert f.s.ids.table.Keys == s.ids.table.Keys;
    assert Children(f.s, pool) == Children(s, pool);
  }

  /** After a successful reset, none of the sets allocated from the pool
      resolves any more, while the pool itself still does. */
  lemma AllocateThenReset(s: State, pool: Handle, layouts: seq<Handle>, created: seq<Handle>)
    requires Valid(s) && s.wrapHandles && pool in s.ids.table
    ensures var a := AllocateDescriptorSets(s, pool, layouts, Success, created);
            var z := ResetDescriptorPool(a.s, pool, Success);
            && (forall i :: 0 <= i < |a.returned| ==> a.returned[i] !in z.s.ids.table)
            && (pool !in Children(s, pool) ==> pool in z.s.ids.table && z.s.ids.table[pool] == s.ids.table[pool])
  {
    var a := AllocateDescriptorSets(s, pool, layouts, Success, created);
    assert pool !in Elements(a.returned);
  }
}
