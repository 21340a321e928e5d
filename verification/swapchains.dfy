/**
 Swapchain images: they are created by the driver, not by the application,
 so the layer wraps them lazily when they are first enumerated and keeps the
 surrogates per swapchain so that later enumerations return the same ones.
 */
module Swapchains {
  import opened Handles
  import opened UniqueIds
  import opened DispatchState

  /** The image surrogates recorded for a swapchain (none without entry). */
  function Recorded(s: State, swapchain: Handle): seq<Handle> {
    if swapchain in s.swapchainImages then s.swapchainImages[swapchain] else []
  }

  /** Whether the driver's answer makes the layer rewrite the array. */
  predicate Enumerated(result: VkResult, count: nat, images: Option<seq<Handle>>) {
    (result == Success || result == Incomplete) && count > 0 && images.Some?
  }

  /** The recorded surrogates after an enumeration of `count` images: the
      ones already recorded are kept, and each image the driver reported at
      or beyond the recorded length gets a fresh surrogate. */
  function ExtendImages(ids: IdMap, before: seq<Handle>, count: nat, images: seq<Handle>): (r: MintedAll)
    requires Fresh(ids) && |images| >= count
    ensures Fresh(r.ids) && r.ids.next >= ids.next
    ensures |r.surrogates| == (if count > |before| then count else |before|)
    ensures r.surrogates[..|before|] == before
    ensures forall i :: |before| <= i < count ==>
              r.surrogates[i] != NullHandle && r.surrogates[i] !in ids.table && Unwrap(r.ids, r.surrogates[i]) == images[i]
    ensures forall id :: id in ids.table ==> Unwrap(r.ids, id) == Unwrap(ids, id)
    ensures count <= |before| ==> r.ids == ids
  {
    if count <= |before| then MintedAll(ids, before)
    else
      var w := WrapAll(ids, images[|before|..count]);
      assert forall i :: |before| <= i < count ==> (before + w.surrogates)[i] == w.surrogates[i - |before|];
      MintedAll(w.ids, before + w.surrogates)
  }

  /** vkGetSwapchainImagesKHR: `count` and `images` are what the driver wrote
      (`images` is None when the application passed a null array, to query
      the count only). */
  function GetSwapchainImages(s: State, swapchain: Handle, result: VkResult, count: nat, images: Option<seq<Handle>>): (r: Call)
    requires Valid(s)
    requires images.Some? ==> |images.value| >= count
    ensures Valid(r.s) && r.s == s.(ids := r.s.ids, swapchainImages := r.s.swapchainImages)
    ensures !s.wrapHandles ==> r.s == s && r.forwarded == [swapchain] && r.returned == images.GetOr([])
    ensures s.wrapHandles ==> r.forwarded == [UnwrapNonNull(s.ids, swapchain)]
    ensures s.wrapHandles && !Enumerated(result, count, images) ==> r.s == s && r.returned == images.GetOr([])
    ensures s.wrapHandles && Enumerated(result, count, images) ==>
              var e := ExtendImages(s.ids, Recorded(s, swapchain), count, images.value);
              && r.s.ids == e.ids
              && r.s.swapchainImages == s.swapchainImages[swapchain := e.surrogates]
              && r.returned == e.surrogates[..count]
  {
    if !s.wrapHandles then Call(s, [swapchain], images.GetOr([]))
    else
      var fwd := [UnwrapNonNull(s.ids, swapchain)];
      if !Enumerated(result, count, images) then Call(s, fwd, images.GetOr([]))
      else
        var e := ExtendImages(s.ids, Recorded(s, swapchain), count, images.value);
        ValidAfterMint(s, e.ids);
        Call(s.(ids := e.ids, swapchainImages := s.swapchainImages[swapchain := e.surrogates]), fwd, e.surrogates[..count])
  }

  /** vkDestroySwapchainKHR: erase every image surrogate of the swapchain,
      drop its entry, then pop the swapchain and forward it. */
  function DestroySwapchain(s: State, swapchain: Handle): (r: Call)
    requires Valid(s)
    ensures Valid(r.s) && |r.forwarded| == 1 && r.returned == []
    ensures !s.wrapHandles ==> r.s == s && r.forwarded == [swapchain]
    ensures s.wrapHandles ==>
              && r.forwarded[0] == (if swapchain in s.ids.table && swapchain !in Recorded(s, swapchain)
                                    then s.ids.table[swapchain] else NullHandle)
              && r.s.ids.table.Keys == s.ids.table.Keys - Elements(Recorded(s, swapchain)) - {swapchain}
              && (forall id :: id in r.s.ids.table ==> r.s.ids.table[id] == s.ids.table[id])
              && r.s.ids.next == s.ids.next
              && r.s.swapchainImages == s.swapchainImages - {swapchain}
              && r.s == s.(ids := r.s.ids, swapchainImages := r.s.swapchainImages)
  {
    if !s.wrapHandles then Call(s, [swapchain], [])
    else
      var ids := EraseAll(s.ids, Elements(Recorded(s, swapchain)));
      var p := Pop(ids, swapchain);
      Call(s.(ids := p.ids, swapchainImages := s.swapchainImages - {swapchain}), [Forwarded(p)], [])
  }

  /** Enumerating no more images than are already recorded mints nothing
      and returns a prefix of the recorded surrogates. */
  lemma EnumerateRecorded(s: State, swapchain: Handle, result: VkResult, count: nat, images: seq<Handle>)
    requires Valid(s) && s.wrapHandles && |images| >= count
    requires Enumerated(result, count, Some(images))
    requires swapchain in s.swapchainImages && count <= |s.swapchainImages[swapchain]|
    ensures var r := GetSwapchainImages(s, swapchain, result, count, Some(images));
            r.s == s && r.returned == s.swapchainImages[swapchain][..count]
  {
    var e := ExtendImages(s.ids, Recorded(s, swapchain), count, images);
    assert e == MintedAll(s.ids, s.swapchainImages[swapchain]);
    assert s.swapchainImages[swapchain := e.surrogates] == s.swapchainImages;
  }

  /** Enumerating again, for no more images than the first call returned,
      yields the same surrogates and changes nothing. */
  lemma EnumerationStable(s: State, swapchain: Handle, result1: VkResult, c1: nat, images1: seq<Handle>,
                          result2: VkResult, c2: nat, images2: seq<Handle>)
    requires Valid(s) && s.wrapHandles
    requires |images1| >= c1 && |images2| >= c2
    requires Enumerated(result1, c1, Some(images1)) && Enumerated(result2, c2, Some(images2))
    requires c2 <= c1
    ensures var r1 := GetSwapchainImages(s, swapchain, result1, c1, Some(images1));
            var r2 := GetSwapchainImages(r1.s, swapchain, result2, c2, Some(images2));
            r2.returned == r1.returned[..c2] && r2.s == r1.s
  {
    var r1 := GetSwapchainImages(s, swapchain, result1, c1, Some(images1));
    var recorded := r1.s.swapchainImages[swapchain];
    assert |recorded| >= c1 && r1.returned == recorded[..c1];
    EnumerateRecorded(r1.s, swapchain, result2, c2, images2);
    assert recorded[..c1][..c2] == recorded[..c2];
  }

  /** After destruction no image surrogate of the swapchain resolves, and
      a second destroy forwards null and changes nothing. */
  lemma DestroySwapchainTwice(s: State, swapchain: Handle)
    requires Valid(s) && s.wrapHandles
    ensures var r1 := DestroySwapchain(s, swapchain);
            var r2 := DestroySwapchain(r1.s, swapchain);
            && (forall i :: 0 <= i < |Recorded(s, swapchain)| ==> Recorded(s, swapchain)[i] !in r1.s.ids.table)
            && r2.forwarded == [NullHandle] && r2.s == r1.s
  {
    var r1 := DestroySwapchain(s, swapchain);
    var r2 := DestroySwapchain(r1.s, swapchain);
    assert Recorded(r1.s, swapchain) == [];
    assert r2.s.ids.table == r1.s.ids.table;
  }
}
