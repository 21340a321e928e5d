/**
 The unwrapped update-template buffer. A descriptor update template declares
 entries (descriptor type, count, offset, stride); at update time the
 application passes a flat blob laid out accordingly. The builder produces a
 new blob of the same layout in which every handle field is replaced by the
 real handle, and every other field is copied verbatim.

 The blob is modelled as typed slots at byte offsets rather than raw bytes:
 a slot is what the builder reads (or writes) at one offset. Overlapping
 slots at different offsets are a raw-memory effect this view does not
 capture; two writes at the same offset are resolved as the source does,
 the later one wins.
 */
module TemplateBuffer {
  import opened Handles
  import opened UniqueIds

  // VkDescriptorType codes.
  const Sampler: int := 0
  const CombinedImageSampler: int := 1
  const SampledImage: int := 2
  const StorageImage: int := 3
  const UniformTexelBuffer: int := 4
  const StorageTexelBuffer: int := 5
  const UniformBuffer: int := 6
  const StorageBuffer: int := 7
  const UniformBufferDynamic: int := 8
  const StorageBufferDynamic: int := 9
  const InputAttachment: int := 10
  const InlineUniformBlock: int := 1000138000
  const AccelerationStructureKhr: int := 1000150000
  const AccelerationStructureNv: int := 1000165000

  /** The record the builder reads for one descriptor. */
  datatype SlotKind = ImageKind | BufferKind | TexelBufferKind | AccelerationStructureKind | InlineKind

  /** Which record a descriptor type uses; None for a type the builder does not know. */
  function KindOf(descriptorType: int): (r: Option<SlotKind>)
    ensures r == Some(ImageKind) <==>
              descriptorType in {Sampler, CombinedImageSampler, SampledImage, StorageImage, InputAttachment}
    ensures r == Some(BufferKind) <==>
              descriptorType in {UniformBuffer, StorageBuffer, UniformBufferDynamic, StorageBufferDynamic}
    ensures r == Some(TexelBufferKind) <==> descriptorType in {UniformTexelBuffer, StorageTexelBuffer}
    ensures r == Some(AccelerationStructureKind) <==>
              descriptorType in {AccelerationStructureKhr, AccelerationStructureNv}
    ensures r == Some(InlineKind) <==> descriptorType == InlineUniformBlock
  {
    if descriptorType in {Sampler, CombinedImageSampler, SampledImage, StorageImage, InputAttachment} then Some(ImageKind)
    else if descriptorType in {UniformBuffer, StorageBuffer, UniformBufferDynamic, StorageBufferDynamic} then Some(BufferKind)
    else if descriptorType in {UniformTexelBuffer, StorageTexelBuffer} then Some(TexelBufferKind)
    else if descriptorType in {AccelerationStructureKhr, AccelerationStructureNv} then Some(AccelerationStructureKind)
    else if descriptorType == InlineUniformBlock then Some(InlineKind)
    else None
  }

  datatype TemplateEntry = TemplateEntry(descriptorType: int, descriptorCount: nat, offset: nat, stride: nat)

  /** The content of the blob at one offset. */
  datatype Slot =
    | ImageSlot(sampler: Handle, imageView: Handle, imageLayout: nat)
    | BufferSlot(buffer: Handle, bufferOffset: nat, range: nat)
    | TexelBufferSlot(bufferView: Handle)
    | AccelerationStructureSlot(accelerationStructure: Handle)
    | InlineSlot(bytes: seq<bv8>)

  /** Bytes one access occupies on a 64-bit target: sizeof(VkDescriptorImageInfo),
      sizeof(VkDescriptorBufferInfo), a handle, or the inline block's bytes. */
  function Footprint(kind: SlotKind, count: nat): nat {
    match kind
    case ImageKind => 24
    case BufferKind => 24
    case TexelBufferKind => 8
    case AccelerationStructureKind => 8
    case InlineKind => count
  }

  /** How many times the per-descriptor loop body runs: an inline block is a
      single access of descriptorCount bytes. */
  function Reps(e: TemplateEntry, kind: SlotKind): nat {
    if kind == InlineKind then (if e.descriptorCount == 0 then 0 else 1) else e.descriptorCount
  }

  function Position(e: TemplateEntry, j: nat): nat {
    e.offset + j * e.stride
  }

  /** The slot at an offset has the shape the entry's type reads there. */
  predicate Fits(kind: SlotKind, count: nat, s: Slot) {
    match kind
    case ImageKind => s.ImageSlot?
    case BufferKind => s.BufferSlot?
    case TexelBufferKind => s.TexelBufferSlot?
    case AccelerationStructureKind => s.AccelerationStructureSlot?
    case InlineKind => s.InlineSlot? && |s.bytes| >= count
  }

  /** The application's blob is laid out as the template declares. */
  predicate LaidOut(entries: seq<TemplateEntry>, input: map<nat, Slot>) {
    forall i, j: nat :: 0 <= i < |entries| && KindOf(entries[i].descriptorType).Some? &&
                        j < Reps(entries[i], KindOf(entries[i].descriptorType).value) ==>
      Position(entries[i], j) in input &&
      Fits(KindOf(entries[i].descriptorType).value, entries[i].descriptorCount, input[Position(entries[i], j)])
  }

  /** `out` is `src` with every handle field unwrapped and every other field
      (image layout, buffer offset and range, inline bytes) copied. */
  predicate UnwrappedFrom(ids: IdMap, src: Slot, out: Slot) {
    match src
    case ImageSlot(s, v, l) =>
      out == ImageSlot(Unwrap(ids, s), Unwrap(ids, v), l)
    case BufferSlot(b, o, n) =>
      out == BufferSlot(Unwrap(ids, b), o, n)
    case TexelBufferSlot(h) =>
      out == TexelBufferSlot(Unwrap(ids, h))
    case AccelerationStructureSlot(h) =>
      out == AccelerationStructureSlot(Unwrap(ids, h))
    case InlineSlot(bs) =>
      out.InlineSlot? && |out.bytes| <= |bs| && out.bytes == bs[..|out.bytes|]
  }

  /** The output record for one access. */
  function Convert(ids: IdMap, kind: SlotKind, count: nat, src: Slot): (r: Slot)
    requires Fits(kind, count, src)
    ensures UnwrappedFrom(ids, src, r)
    ensures kind == InlineKind ==> r == InlineSlot(src.bytes[..count])
  {
    match src
    case ImageSlot(s, v, l) => ImageSlot(Unwrap(ids, s), Unwrap(ids, v), l)
    case BufferSlot(b, o, n) => BufferSlot(Unwrap(ids, b), o, n)
    case TexelBufferSlot(h) => TexelBufferSlot(Unwrap(ids, h))
    case AccelerationStructureSlot(h) => AccelerationStructureSlot(Unwrap(ids, h))
    case InlineSlot(bs) => InlineSlot(bs[..count])
  }

  /** The outcome of building: the allocation size and the written slots, or
      the assertion the source raises on an unknown descriptor type. */
  datatype BuildResult =
    | Built(size: nat, data: map<nat, Slot>)
    | UnknownDescriptorType(descriptorType: int)

  predicate Unknown(e: TemplateEntry) {
    e.descriptorCount > 0 && KindOf(e.descriptorType).None?
  }

  /** Runs the per-descriptor loop of one entry for j < k. */
  function ApplyEntry(ids: IdMap, e: TemplateEntry, kind: SlotKind, input: map<nat, Slot>,
                      size: nat, data: map<nat, Slot>, k: nat): (r: (nat, map<nat, Slot>))
    requires k <= Reps(e, kind)
    requires forall j: nat :: j < Reps(e, kind) ==>
               Position(e, j) in input && Fits(kind, e.descriptorCount, input[Position(e, j)])
    ensures r.0 >= size
    ensures forall j: nat :: j < k ==> Position(e, j) in r.1 && Position(e, j) + Footprint(kind, e.descriptorCount) <= r.0
    ensures forall o :: o in data ==> o in r.1
    ensures forall o :: o in r.1 ==> o in data || exists j: nat :: j < k && Position(e, j) == o
    ensures r.0 == size || exists j: nat :: j < k && Position(e, j) + Footprint(kind, e.descriptorCount) == r.0
    ensures forall o :: o in r.1 ==> (o in data && r.1[o] == data[o]) || (o in input && UnwrappedFrom(ids, input[o], r.1[o]))
    ensures forall o :: o in r.1 ==>
              (o in data && r.1[o] == data[o]) ||
              (exists j: nat :: j < k && Position(e, j) == o && o in input && Fits(kind, e.descriptorCount, input[o]) &&
                                r.1[o] == Convert(ids, kind, e.descriptorCount, input[o]))
    decreases k
  {
    if k == 0 then (size, data)
    else
      var prev := ApplyEntry(ids, e, kind, input, size, data, k - 1);
      var o := Position(e, k - 1);
      var end := o + Footprint(kind, e.descriptorCount);
      (if end > prev.0 then end else prev.0,
       prev.1[o := Convert(ids, kind, e.descriptorCount, input[o])])
  }

  predicate Known(e: TemplateEntry) {
    KindOf(e.descriptorType).Some?
  }

  function KindOfEntry(e: TemplateEntry): SlotKind
    requires Known(e)
  {
    KindOf(e.descriptorType).value
  }

  /** Iteration j of entry i reads (and writes) a slot. */
  predicate Touches(entries: seq<TemplateEntry>, i: int, j: nat) {
    0 <= i < |entries| && Known(entries[i]) && j < Reps(entries[i], KindOfEntry(entries[i]))
  }

  /** One past the last byte iteration j of a known entry touches. */
  function End(e: TemplateEntry, j: nat): nat
    requires Known(e)
  {
    Position(e, j) + Footprint(KindOfEntry(e), e.descriptorCount)
  }

  /** BuildUnwrappedUpdateTemplateBuffer over the template's entries, in order:
      the first entry (with descriptors) of an unknown type is a fatal
      assertion; otherwise every entry's accesses are applied in turn. */
  function Build(ids: IdMap, entries: seq<TemplateEntry>, input: map<nat, Slot>): (r: BuildResult)
    requires LaidOut(entries, input)
    ensures r.UnknownDescriptorType? <==> exists i :: 0 <= i < |entries| && Unknown(entries[i])
    decreases |entries|
  {
    if |entries| == 0 then Built(0, map[])
    else
      var n := |entries| - 1;
      LaidOutPrefix(entries, n, input);
      var prefix := Build(ids, entries[..n], input);
      assert forall i :: 0 <= i < n ==> entries[..n][i] == entries[i];
      match prefix
      case UnknownDescriptorType(t) => prefix
      case Built(size, data) =>
        var e := entries[n];
        match KindOf(e.descriptorType)
        case None =>
          if e.descriptorCount == 0 then Built(size, data) else UnknownDescriptorType(e.descriptorType)
        case Some(kind) =>
          var r := ApplyEntry(ids, e, kind, input, size, data, Reps(e, kind));
          Built(r.0, r.1)
  }

  lemma LaidOutPrefix(entries: seq<TemplateEntry>, n: nat, input: map<nat, Slot>)
    requires n <= |entries| && LaidOut(entries, input)
    ensures LaidOut(entries[..n], input)
    ensures forall j: nat :: n < |entries| && Known(entries[n]) && j < Reps(entries[n], KindOfEntry(entries[n])) ==>
              Position(entries[n], j) in input &&
              Fits(KindOfEntry(entries[n]), entries[n].descriptorCount, input[Position(entries[n], j)])
  {
    forall i, j: nat | 0 <= i < n && KindOf(entries[..n][i].descriptorType).Some? &&
                       j < Reps(entries[..n][i], KindOf(entries[..n][i].descriptorType).value)
      ensures Position(entries[..n][i], j) in input
      ensures Fits(KindOf(entries[..n][i].descriptorType).value, entries[..n][i].descriptorCount,
                   input[Position(entries[..n][i], j)])
    {
      assert entries[..n][i] == entries[i];
    }
  }

  /** Every slot an entry touches is written, and the allocation covers it. */
  lemma {:induction false} BuildCovers(ids: IdMap, entries: seq<TemplateEntry>, input: map<nat, Slot>)
    requires LaidOut(entries, input)
    ensures var r := Build(ids, entries, input);
            r.Built? ==> forall i, j: nat :: Touches(entries, i, j) ==>
                           Position(entries[i], j) in r.data && End(entries[i], j) <= r.size
    decreases |entries|
  {
    var r := Build(ids, entries, input);
    if |entries| > 0 && r.Built? {
      var n := |entries| - 1;
      LaidOutPrefix(entries, n, input);
      BuildCovers(ids, entries[..n], input);
      var prefix := Build(ids, entries[..n], input);
      assert prefix.Built?;
      var e := entries[n];
      if Known(e) {
        var kind := KindOfEntry(e);
        var ap := ApplyEntry(ids, e, kind, input, prefix.size, prefix.data, Reps(e, kind));
        assert r == Built(ap.0, ap.1);
      } else {
        assert r == prefix;
      }
      forall i, j: nat | Touches(entries, i, j)
        ensures Position(entries[i], j) in r.data && End(entries[i], j) <= r.size
      {
        if i < n {
          assert entries[..n][i] == entries[i];
          assert Touches(entries[..n], i, j);
          assert Position(entries[i], j) in prefix.data && End(entries[i], j) <= prefix.size;
        }
      }
    }
  }

  /** Iteration j of entry i reads offset `o` and writes `out` there: the
      application's slot converted as that entry's kind says, so an inline
      block is exactly that entry's descriptorCount bytes. */
  ghost predicate WrittenBy(ids: IdMap, entries: seq<TemplateEntry>, input: map<nat, Slot>, i: int, j: nat, o: nat, out: Slot) {
    Touches(entries, i, j) && Position(entries[i], j) == o && o in input &&
    Fits(KindOfEntry(entries[i]), entries[i].descriptorCount, input[o]) &&
    out == Convert(ids, KindOfEntry(entries[i]), entries[i].descriptorCount, input[o])
  }

  lemma WrittenByPrefix(ids: IdMap, entries: seq<TemplateEntry>, input: map<nat, Slot>, n: nat, i: int, j: nat, o: nat, out: Slot)
    requires n <= |entries| && WrittenBy(ids, entries[..n], input, i, j, o, out)
    ensures WrittenBy(ids, entries, input, i, j, o, out)
  {
    assert entries[..n][i] == entries[i];
  }

  /** Every written slot is what some access that touches its offset
      converts: handles unwrapped, other fields copied, and an inline block
      cut to exactly its entry's descriptorCount bytes. */
  lemma {:induction false} BuildConverts(ids: IdMap, entries: seq<TemplateEntry>, input: map<nat, Slot>)
    requires LaidOut(entries, input)
    ensures var r := Build(ids, entries, input);
            r.Built? ==> forall o :: o in r.data ==> exists i, j: nat :: WrittenBy(ids, entries, input, i, j, o, r.data[o])
    decreases |entries|
  {
    var r := Build(ids, entries, input);
    if |entries| > 0 && r.Built? {
      var n := |entries| - 1;
      LaidOutPrefix(entries, n, input);
      BuildConverts(ids, entries[..n], input);
      var prefix := Build(ids, entries[..n], input);
      assert prefix.Built?;
      assert forall o :: o in prefix.data ==> exists i, j: nat :: WrittenBy(ids, entries[..n], input, i, j, o, prefix.data[o]);
      var e := entries[n];
      forall o | o in r.data
        ensures exists i, j: nat :: WrittenBy(ids, entries, input, i, j, o, r.data[o])
      {
        var fromPrefix := true;
        if Known(e) {
          var kind := KindOfEntry(e);
          var ap := ApplyEntry(ids, e, kind, input, prefix.size, prefix.data, Reps(e, kind));
          assert r.data == ap.1;
          if j: nat :| j < Reps(e, kind) && Position(e, j) == o && o in input && Fits(kind, e.descriptorCount, input[o]) &&
                       ap.1[o] == Convert(ids, kind, e.descriptorCount, input[o]) {
            assert WrittenBy(ids, entries, input, n, j, o, r.data[o]);
            fromPrefix := false;
          }
        } else {
          assert r == prefix;
        }
        if fromPrefix {
          assert o in prefix.data && r.data[o] == prefix.data[o];
          assert exists i, j: nat :: WrittenBy(ids, entries[..n], input, i, j, o, prefix.data[o]);
          var i: nat, j: nat :| WrittenBy(ids, entries[..n], input, i, j, o, prefix.data[o]);
          WrittenByPrefix(ids, entries, input, n, i, j, o, r.data[o]);
        }
      }
    }
  }

  /** Every written slot is the application's slot at that offset with its
      handles unwrapped and its other fields copied, as some access touching
      it converts it (so an inline block is exactly its descriptorCount
      bytes). */
  lemma {:induction false} BuildUnwraps(ids: IdMap, entries: seq<TemplateEntry>, input: map<nat, Slot>)
    requires LaidOut(entries, input)
    ensures var r := Build(ids, entries, input);
            r.Built? ==> forall o :: o in r.data ==> o in input && UnwrappedFrom(ids, input[o], r.data[o])
    ensures var r := Build(ids, entries, input);
            r.Built? ==> forall o :: o in r.data ==> exists i, j: nat :: WrittenBy(ids, entries, input, i, j, o, r.data[o])
    decreases |entries|
  {
    if |entries| > 0 {
      var n := |entries| - 1;
      LaidOutPrefix(entries, n, input);
      BuildUnwraps(ids, entries[..n], input);
    }
    BuildConverts(ids, entries, input);
  }

  /** Some iteration of some entry touches offset `o`. */
  ghost predicate TouchedOffset(entries: seq<TemplateEntry>, o: nat) {
    exists i, j: nat :: Touches(entries, i, j) && Position(entries[i], j) == o
  }

  /** Some iteration of some entry ends exactly at `size`. */
  ghost predicate EndsAt(entries: seq<TemplateEntry>, size: nat) {
    exists i, j: nat :: Touches(entries, i, j) && End(entries[i], j) == size
  }

  /** What the prefix touches, the whole template touches. */
  lemma PrefixTouches(entries: seq<TemplateEntry>, n: nat, o: nat, size: nat)
    requires n <= |entries|
    ensures TouchedOffset(entries[..n], o) ==> TouchedOffset(entries, o)
    ensures EndsAt(entries[..n], size) ==> EndsAt(entries, size)
  {
    if TouchedOffset(entries[..n], o) {
      var i: nat, j: nat :| Touches(entries[..n], i, j) && Position(entries[..n][i], j) == o;
      assert entries[..n][i] == entries[i];
      assert Touches(entries, i, j);
    }
    if EndsAt(entries[..n], size) {
      var i: nat, j: nat :| Touches(entries[..n], i, j) && End(entries[..n][i], j) == size;
      assert entries[..n][i] == entries[i];
      assert Touches(entries, i, j);
    }
  }

  /** Nothing is written at an offset no entry touches. */
  lemma {:induction false} BuildWritesOnlyTouched(ids: IdMap, entries: seq<TemplateEntry>, input: map<nat, Slot>)
    requires LaidOut(entries, input)
    ensures var r := Build(ids, entries, input);
            r.Built? ==> forall o :: o in r.data ==> TouchedOffset(entries, o)
    decreases |entries|
  {
    var r := Build(ids, entries, input);
    if |entries| > 0 && r.Built? {
      var n := |entries| - 1;
      LaidOutPrefix(entries, n, input);
      BuildWritesOnlyTouched(ids, entries[..n], input);
      var prefix := Build(ids, entries[..n], input);
      assert prefix.Built?;
      var e := entries[n];
      forall o | o in r.data
        ensures TouchedOffset(entries, o)
      {
        if o in prefix.data {
          PrefixTouches(entries, n, o, 0);
        } else {
          var kind := KindOfEntry(e);
          var ap := ApplyEntry(ids, e, kind, input, prefix.size, prefix.data, Reps(e, kind));
          assert r.data == ap.1;
          var j: nat :| j < Reps(e, kind) && Position(e, j) == o;
          assert Touches(entries, n, j);
        }
      }
    }
  }

  /** The allocation size is attained by some access: it is exactly the
      maximum of offset + size over everything the template touches. */
  lemma {:induction false} BuildSizeAttained(ids: IdMap, entries: seq<TemplateEntry>, input: map<nat, Slot>)
    requires LaidOut(entries, input)
    ensures var r := Build(ids, entries, input);
            r.Built? ==> r.size == 0 || EndsAt(entries, r.size)
    decreases |entries|
  {
    var r := Build(ids, entries, input);
    if |entries| > 0 && r.Built? && r.size != 0 {
      var n := |entries| - 1;
      LaidOutPrefix(entries, n, input);
      BuildSizeAttained(ids, entries[..n], input);
      var prefix := Build(ids, entries[..n], input);
      assert prefix.Built?;
      var e := entries[n];
      if r.size == prefix.size {
        PrefixTouches(entries, n, 0, prefix.size);
      } else {
        var kind := KindOfEntry(e);
        var ap := ApplyEntry(ids, e, kind, input, prefix.size, prefix.data, Reps(e, kind));
        assert r.size == ap.0;
        var j: nat :| j < Reps(e, kind) && Position(e, j) + Footprint(kind, e.descriptorCount) == r.size;
        assert Touches(entries, n, j);
      }
    }
  }

  /** An inline uniform block is copied once, as descriptorCount bytes,
      whatever its stride. */
  lemma InlineBlockCopiedOnce(ids: IdMap, e: TemplateEntry, input: map<nat, Slot>)
    requires e.descriptorType == InlineUniformBlock && e.descriptorCount > 0
    requires e.offset in input && input[e.offset].InlineSlot? && |input[e.offset].bytes| >= e.descriptorCount
    ensures LaidOut([e], input)
    ensures Build(ids, [e], input) ==
            Built(e.offset + e.descriptorCount, map[e.offset := InlineSlot(input[e.offset].bytes[..e.descriptorCount])])
  {
    assert Touches([e], 0, 0);
    assert [e][..0] == [];
  }

  /** Every handle field of a slot is null or a live surrogate. */
  predicate HandlesMapped(ids: IdMap, s: Slot) {
    match s
    case ImageSlot(a, v, _) => (a == NullHandle || a in ids.table) && (v == NullHandle || v in ids.table)
    case BufferSlot(b, _, _) => b == NullHandle || b in ids.table
    case TexelBufferSlot(h) => h == NullHandle || h in ids.table
    case AccelerationStructureSlot(h) => h == NullHandle || h in ids.table
    case InlineSlot(_) => true
  }

  /** The handle fields of two slots agree. */
  predicate SameHandles(a: Slot, b: Slot) {
    match a
    case ImageSlot(s, v, _) => b.ImageSlot? && b.sampler == s && b.imageView == v
    case BufferSlot(h, _, _) => b.BufferSlot? && b.buffer == h
    case TexelBufferSlot(h) => b.TexelBufferSlot? && b.bufferView == h
    case AccelerationStructureSlot(h) => b.AccelerationStructureSlot? && b.accelerationStructure == h
    case InlineSlot(_) => b.InlineSlot?
  }

  /** No live surrogate stands for the null handle, and no real handle has
      two live surrogates. */
  ghost predicate Rewrappable(ids: IdMap) {
    Fresh(ids) && Injective(ids) && forall id :: id in ids.table ==> ids.table[id] != NullHandle
  }

  /** Round trip: when surrogates and real handles correspond one to one, the
      unwrapped slot determines the application's handle values, so wrapping
      the unwrapped handles back reproduces them. */
  lemma UnwrapDeterminesHandles(ids: IdMap, a: Slot, b: Slot, out: Slot)
    requires Rewrappable(ids)
    requires HandlesMapped(ids, a) && HandlesMapped(ids, b)
    requires UnwrappedFrom(ids, a, out) && UnwrappedFrom(ids, b, out)
    ensures SameHandles(a, b)
  {
    forall x, y | (x == NullHandle || x in ids.table) && (y == NullHandle || y in ids.table) && Unwrap(ids, x) == Unwrap(ids, y)
      ensures x == y
    {
      assert x != NullHandle ==> Unwrap(ids, x) != NullHandle;
      assert y != NullHandle ==> Unwrap(ids, y) != NullHandle;
    }
  }

  /** Template-level round trip: two application blobs whose handles are
      live that build to the same buffer hold the same handles at every
      written offset. */
  lemma BuildDeterminesHandles(ids: IdMap, entries: seq<TemplateEntry>, a: map<nat, Slot>, b: map<nat, Slot>)
    requires Rewrappable(ids)
    requires LaidOut(entries, a) && LaidOut(entries, b)
    requires forall o :: o in a ==> HandlesMapped(ids, a[o])
    requires forall o :: o in b ==> HandlesMapped(ids, b[o])
    requires Build(ids, entries, a).Built? && Build(ids, entries, a) == Build(ids, entries, b)
    ensures forall o :: o in Build(ids, entries, a).data ==> o in a && o in b && SameHandles(a[o], b[o])
  {
    BuildUnwraps(ids, entries, a);
    BuildUnwraps(ids, entries, b);
    var r := Build(ids, entries, a);
    forall o | o in r.data
      ensures o in a && o in b && SameHandles(a[o], b[o])
    {
      UnwrapDeterminesHandles(ids, a[o], b[o], r.data[o]);
    }
  }
}
