/**
 The layer's unique-id mapping: a table from surrogate ids handed to the
 application to the real driver handles they stand for, plus the counter
 fresh ids are drawn from. The operations are the four the dispatch code
 uses: WrapNew (mint), Unwrap (look up), Pop (look up and remove) and Erase
 (remove without reading). The concrete id generator and the concurrent table
 live in a header outside this model; here ids are drawn from a counter.
 */
module UniqueIds {
  import opened Handles

  datatype IdMap = IdMap(table: map<Handle, Handle>, next: Handle)

  /** Every mapped surrogate was minted before `next`, and 0 is never minted,
      so the next id is unused and never collides with VK_NULL_HANDLE. */
  predicate Fresh(ids: IdMap) {
    ids.next >= 1 && forall id :: id in ids.table ==> 1 <= id < ids.next
  }

  /** At most one live surrogate per real handle. */
  ghost predicate Injective(ids: IdMap) {
    forall a, b :: a in ids.table && b in ids.table && ids.table[a] == ids.table[b] ==> a == b
  }

  datatype Minted = Minted(ids: IdMap, id: Handle)

  /** Mints a surrogate for `rh` and records the pair. */
  function WrapNew(ids: IdMap, rh: Handle): (r: Minted)
    requires Fresh(ids)
    ensures Fresh(r.ids)
    ensures r.id != NullHandle && r.id !in ids.table
    ensures r.ids.table.Keys == ids.table.Keys + {r.id}
    ensures r.ids.table[r.id] == rh
    ensures forall id :: id in ids.table ==> r.ids.table[id] == ids.table[id]
    ensures r.ids.next > ids.next
  {
    Minted(IdMap(ids.table[ids.next := rh], ids.next + 1), ids.next)
  }

  /** Resolves a surrogate without removing it. What the layer yields for an
      id that is not in the table is decided outside this model; the model
      yields the null handle, and contracts below speak only of mapped ids
      (Fresh keeps 0 out of the table, so Unwrap(0) is 0). */
  function Unwrap(ids: IdMap, id: Handle): (r: Handle)
    ensures id in ids.table ==> r == ids.table[id]
  {
    if id in ids.table then ids.table[id] else NullHandle
  }

  datatype Popped = Popped(ids: IdMap, value: Option<Handle>)

  /** Atomically looks a surrogate up and removes it (the destroy path). */
  function Pop(ids: IdMap, id: Handle): (r: Popped)
    ensures r.value.Some? <==> id in ids.table
    ensures r.value.Some? ==> r.value.value == ids.table[id]
    ensures r.ids.table == ids.table - {id}
    ensures r.ids.next == ids.next
  {
    Popped(IdMap(ids.table - {id}, ids.next), Lookup(ids.table, id))
  }

  /** The handle a destroy path forwards: the popped real handle, or null. */
  function Forwarded(p: Popped): Handle {
    p.value.GetOr(NullHandle)
  }

  /** Removes a surrogate without reading it. */
  function Erase(ids: IdMap, id: Handle): (r: IdMap)
    ensures r.table.Keys == ids.table.Keys - {id}
    ensures forall k :: k in r.table ==> r.table[k] == ids.table[k]
    ensures r.next == ids.next
  {
    IdMap(ids.table - {id}, ids.next)
  }

  /** Erases every surrogate of a set (children of a pool or swapchain). */
  function EraseAll(ids: IdMap, gone: set<Handle>): (r: IdMap)
    ensures r.table.Keys == ids.table.Keys - gone
    ensures forall k :: k in r.table ==> r.table[k] == ids.table[k]
    ensures r.next == ids.next
  {
    IdMap(ids.table - gone, ids.next)
  }

  lemma FreshAfterErase(ids: IdMap, gone: set<Handle>)
    requires Fresh(ids)
    ensures Fresh(EraseAll(ids, gone)) && Fresh(Pop(ids, 0).ids)
  {
  }

  datatype MintedAll = MintedAll(ids: IdMap, surrogates: seq<Handle>)

  /** Mints one surrogate per real handle, in order. */
  function WrapAll(ids: IdMap, reals: seq<Handle>): (r: MintedAll)
    requires Fresh(ids)
    ensures Fresh(r.ids) && r.ids.next >= ids.next
    ensures |r.surrogates| == |reals|
    ensures forall i :: 0 <= i < |reals| ==> r.surrogates[i] != NullHandle
    ensures forall i :: 0 <= i < |reals| ==> ids.next <= r.surrogates[i] < r.ids.next
    ensures forall i, j :: 0 <= i < j < |reals| ==> r.surrogates[i] != r.surrogates[j]
    ensures forall i :: 0 <= i < |reals| ==> r.surrogates[i] in r.ids.table && r.ids.table[r.surrogates[i]] == reals[i]
    ensures forall id :: id in ids.table ==> id in r.ids.table && r.ids.table[id] == ids.table[id]
    ensures forall id :: id in r.ids.table ==> id in ids.table || id in r.surrogates
    decreases |reals|
  {
    if |reals| == 0 then MintedAll(ids, [])
    else
      var m := WrapNew(ids, reals[0]);
      var rest := WrapAll(m.ids, reals[1..]);
      MintedAll(rest.ids, [m.id] + rest.surrogates)
  }

  /** Wraps every non-null handle of an output array and leaves null entries
      null, as the pipeline-creation paths do. */
  function WrapNonNull(ids: IdMap, reals: seq<Handle>): (r: MintedAll)
    requires Fresh(ids)
    ensures Fresh(r.ids) && r.ids.next >= ids.next
    ensures |r.surrogates| == |reals|
    ensures forall i :: 0 <= i < |reals| ==> (r.surrogates[i] == NullHandle <==> reals[i] == NullHandle)
    ensures forall i :: 0 <= i < |reals| && reals[i] != NullHandle ==>
              r.surrogates[i] !in ids.table && r.surrogates[i] in r.ids.table && r.ids.table[r.surrogates[i]] == reals[i]
    ensures forall id :: id in ids.table ==> id in r.ids.table && r.ids.table[id] == ids.table[id]
    decreases |reals|
  {
    if |reals| == 0 then MintedAll(ids, [])
    else if reals[0] == NullHandle then
      var rest := WrapNonNull(ids, reals[1..]);
      MintedAll(rest.ids, [NullHandle] + rest.surrogates)
    else
      var m := WrapNew(ids, reals[0]);
      var rest := WrapNonNull(m.ids, reals[1..]);
      MintedAll(rest.ids, [m.id] + rest.surrogates)
  }

  /** Round trip: a freshly minted surrogate unwraps to the handle it wraps,
      and differs from every surrogate already in use. */
  lemma WrapThenUnwrap(ids: IdMap, rh: Handle)
    requires Fresh(ids)
    ensures Unwrap(WrapNew(ids, rh).ids, WrapNew(ids, rh).id) == rh
    ensures forall id :: id in ids.table ==> Unwrap(WrapNew(ids, rh).ids, id) == Unwrap(ids, id)
  {
  }

  /** Popping a freshly minted surrogate yields the wrapped handle and
      restores the table exactly; a second pop finds nothing. */
  lemma {:induction false} WrapThenPopTwice(ids: IdMap, rh: Handle)
    requires Fresh(ids)
    ensures var m := WrapNew(ids, rh);
            var p1 := Pop(m.ids, m.id);
            var p2 := Pop(p1.ids, m.id);
            && p1.value == Some(rh) && p1.ids.table == ids.table
            && p2.value == None && p2.ids == p1.ids
  {
    var m := WrapNew(ids, rh);
    var p1 := Pop(m.ids, m.id);
    assert p1.ids.table == ids.table by {
      assert p1.ids.table.Keys == ids.table.Keys;
    }
  }
}
