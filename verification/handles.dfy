/**
 Basic vocabulary shared by every part of the dispatch model: handles, the
 Option type used for "found / not found" lookups, driver result codes, and
 the emplace-if-absent insertion the layer's concurrent maps perform.
 */
module Handles {

  /** A 64-bit non-dispatchable Vulkan handle or a layer-minted surrogate id.
      The value 0 is VK_NULL_HANDLE. */
  type Handle = nat

  const NullHandle: Handle := 0

  datatype Option<+T> = None | Some(value: T) {

    /** The wrapped value, or `default` when there is none. */
    function GetOr(default: T): T {
      match this
      case Some(v) => v
      case None => default
    }
  }

  /** The result codes the wrapping logic branches on. Every other code the
      driver may return is `OtherResult`; the layer passes all of them through. */
  datatype VkResult = Success | Incomplete | OperationDeferred | OtherResult(code: int)

  /** Insertion into a map that keeps an existing entry, as `emplace` does. */
  function Emplace<K, V>(m: map<K, V>, k: K, v: V): (r: map<K, V>)
    ensures k in r
    ensures k in m ==> r == m
    ensures k !in m ==> r[k] == v && r.Keys == m.Keys + {k}
    ensures forall k' :: k' in m ==> k' in r && r[k'] == m[k']
  {
    if k in m then m else m[k := v]
  }

  /** The value stored under `k`, as a lookup that may miss. */
  function Lookup<K, V>(m: map<K, V>, k: K): (r: Option<V>)
    ensures r.Some? <==> k in m
    ensures r.Some? ==> r.value == m[k]
  {
    if k in m then Some(m[k]) else None
  }
}
