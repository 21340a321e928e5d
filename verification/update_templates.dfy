/**
 Descriptor update templates: the layer keeps the entries of each template
 under its surrogate so that, at update time, it can find the handles inside
 the application's blob and build an unwrapped copy for the driver.
 */
module UpdateTemplates {
  import opened Handles
  import opened UniqueIds
  import opened TemplateBuffer
  import opened DispatchState

  /** VkDescriptorUpdateTemplateType codes. */
  const TemplateTypeDescriptorSet: int := 0
  const TemplateTypePushDescriptors: int := 1

  /** The create-info fields the layer reads. */
  datatype TemplateInfo = TemplateInfo(entries: seq<TemplateEntry>, templateType: int, setLayout: Handle, pipelineLayout: Handle)

  /** The create info as forwarded: the set layout is unwrapped only for a
      descriptor-set template, the pipeline layout only for a push-descriptor
      template; the other is passed as the application gave it. */
  function UnwrapTemplateInfo(ids: IdMap, info: TemplateInfo): (r: TemplateInfo)
    ensures r.entries == info.entries && r.templateType == info.templateType
    ensures r.setLayout == (if info.templateType == TemplateTypeDescriptorSet then Unwrap(ids, info.setLayout) else info.setLayout)
    ensures r.pipelineLayout == (if info.templateType == TemplateTypePushDescriptors then Unwrap(ids, info.pipelineLayout)
                                 else info.pipelineLayout)
  {
    info.(setLayout := if info.templateType == TemplateTypeDescriptorSet then Unwrap(ids, info.setLayout) else info.setLayout,
          pipelineLayout := if info.templateType == TemplateTypePushDescriptors then Unwrap(ids, info.pipelineLayout)
                            else info.pipelineLayout)
  }

  /** vkCreateDescriptorUpdateTemplate (the KHR alias behaves identically);
      `info` is None when the application passed no create info. Forwards
      the set layout and the pipeline layout. */
  function CreateDescriptorUpdateTemplate(s: State, info: Option<TemplateInfo>, result: VkResult, created: Handle): (r: Call)
    requires Valid(s)
    ensures Valid(r.s) && |r.returned| == 1
    ensures !s.wrapHandles ==> r.s == s && r.returned == [created]
    ensures s.wrapHandles && info.Some? ==>
              var u := UnwrapTemplateInfo(s.ids, info.value);
              r.forwarded == [u.setLayout, u.pipelineLayout]
    ensures s.wrapHandles && result != Success ==> r.s == s && r.returned == [created]
    ensures s.wrapHandles && result == Success ==>
              && r.returned[0] != NullHandle && r.returned[0] !in s.ids.table
              && Unwrap(r.s.ids, r.returned[0]) == created
              && (forall id :: id in s.ids.table ==> Unwrap(r.s.ids, id) == Unwrap(s.ids, id))
              && (info.Some? ==> r.s.templates == s.templates[r.returned[0] := info.value.entries])
              && (info.None? ==> r.s.templates == s.templates)
              && r.s == s.(ids := r.s.ids, templates := r.s.templates)
  {
    var fwd := if info.Some? then [info.value.setLayout, info.value.pipelineLayout] else [];
    if !s.wrapHandles then Call(s, fwd, [created])
    else
      var fwd := if info.Some? then var u := UnwrapTemplateInfo(s.ids, info.value); [u.setLayout, u.pipelineLayout] else [];
      if result != Success then Call(s, fwd, [created])
      else
        var m := WrapNew(s.ids, created);
        var templates := if info.Some? then s.templates[m.id := info.value.entries] else s.templates;
        Call(s.(ids := m.ids, templates := templates), fwd, [m.id])
  }

  /** vkDestroyDescriptorUpdateTemplate (and its KHR alias): drop the stored
      entries, then pop the surrogate and forward the real handle. */
  function DestroyDescriptorUpdateTemplate(s: State, template: Handle): (r: Call)
    requires Valid(s)
    ensures Valid(r.s) && |r.forwarded| == 1 && r.returned == []
    ensures !s.wrapHandles ==> r.s == s && r.forwarded == [template]
    ensures s.wrapHandles ==>
              && r.forwarded[0] == (if template in s.ids.table then s.ids.table[template] else NullHandle)
              && r.s.ids.table == s.ids.table - {template} && r.s.ids.next == s.ids.next
              && r.s.templates == s.templates - {template}
              && r.s == s.(ids := r.s.ids, templates := r.s.templates)
  {
    if !s.wrapHandles then Call(s, [template], [])
    else
      var p := Pop(s.ids, template);
      Call(s.(ids := p.ids, templates := s.templates - {template}), [Forwarded(p)], [])
  }

  /** The blob handed to the driver: the application's own, or the rebuilt
      unwrapped copy. */
  datatype Payload = Original(input: map<nat, Slot>) | Rebuilt(buffer: BuildResult)

  datatype TemplateUpdate = TemplateUpdate(descriptorSet: Handle, template: Handle, payload: Payload)

  /** vkUpdateDescriptorSetWithTemplate (and its KHR alias). The template must
      be one the layer shadowed, and the blob laid out as its entries say:
      the source looks the template up without checking that it is there. */
  function UpdateDescriptorSetWithTemplate(s: State, descriptorSet: Handle, template: Handle, input: map<nat, Slot>): (r: TemplateUpdate)
    requires s.wrapHandles ==> template in s.templates && LaidOut(s.templates[template], input)
    ensures !s.wrapHandles ==> r == TemplateUpdate(descriptorSet, template, Original(input))
    ensures s.wrapHandles ==>
              && (descriptorSet in s.ids.table ==> r.descriptorSet == s.ids.table[descriptorSet])
              && (template in s.ids.table ==> r.template == s.ids.table[template])
              && r.payload.Rebuilt?
              && (r.payload.buffer.UnknownDescriptorType? <==>
                    exists i :: 0 <= i < |s.templates[template]| && Unknown(s.templates[template][i]))
              && (r.payload.buffer.Built? ==> forall o :: o in r.payload.buffer.data ==>
                    o in input && UnwrappedFrom(s.ids, input[o], r.payload.buffer.data[o]))
              && (r.payload.buffer.Built? ==> forall o :: o in r.payload.buffer.data ==>
                    exists i, j: nat :: WrittenBy(s.ids, s.templates[template], input, i, j, o, r.payload.buffer.data[o]))
              && (r.payload.buffer.Built? ==> forall i, j: nat :: Touches(s.templates[template], i, j) ==>
                    Position(s.templates[template][i], j) in r.payload.buffer.data)
  {
    if !s.wrapHandles then TemplateUpdate(descriptorSet, template, Original(input))
    else
      var entries := s.templates[template];
      BuildUnwraps(s.ids, entries, input);
      BuildCovers(s.ids, entries, input);
      TemplateUpdate(Unwrap(s.ids, descriptorSet), Unwrap(s.ids, template), Rebuilt(Build(s.ids, entries, input)))
  }

  /** A template created with entries `entries`, then used for an update
      through its surrogate: the driver sees the real template handle and
      a buffer built from exactly those entries. */
  lemma CreateThenUpdate(s: State, entries: seq<TemplateEntry>, setLayout: Handle, created: Handle,
                         descriptorSet: Handle, input: map<nat, Slot>)
    requires Valid(s) && s.wrapHandles && LaidOut(entries, input)
    ensures var c := CreateDescriptorUpdateTemplate(s, Some(TemplateInfo(entries, TemplateTypeDescriptorSet, setLayout, NullHandle)), Success, created);
            var u := UpdateDescriptorSetWithTemplate(c.s, descriptorSet, c.returned[0], input);
            && u.template == created
            && u.payload == Rebuilt(Build(c.s.ids, entries, input))
  {
  }

  /** Destroying a template forgets its entries; a second destroy forwards
      null and changes nothing. */
  lemma DestroyTemplateTwice(s: State, template: Handle)
    requires Valid(s) && s.wrapHandles
    ensures var r1 := DestroyDescriptorUpdateTemplate(s, template);
            var r2 := DestroyDescriptorUpdateTemplate(r1.s, template);
            && template !in r1.s.templates
            && r2.forwarded == [NullHandle] && r2.s == r1.s
  {
    var r1 := DestroyDescriptorUpdateTemplate(s, template);
    var r2 := DestroyDescriptorUpdateTemplate(r1.s, template);
    assert r2.s.ids.table == r1.s.ids.table;
    assert r2.s.templates == r1.s.templates;
  }
}
