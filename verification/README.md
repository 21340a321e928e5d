# Handle wrapping and the test error monitor of the Vulkan validation layers, in Dafny

This project models two parts of the Vulkan validation layers.

**Handle-wrapping bookkeeping of the layer chassis**
(`layers/chassis/dispatch_object_manual.cpp`). With handle wrapping on, the
layer never gives the application a real driver handle. Every non-dispatchable
handle the driver creates is replaced by a fresh surrogate id (`WrapNew`),
and every handle the application passes down is mapped back (`Unwrap`). The
model covers:

- the id map and its four operations: mint, look up, pop, erase;
- the registries the manual entry points keep beside the id map:
  - descriptor sets per pool;
  - swapchain images per swapchain;
  - subpass attachment usage per render pass;
  - shadowed update-template entries;
  - secondary command buffers;
  - the deferred-operation registries;
- each entry point as a pure transition on a `DispatchState.State`. The transition takes the driver's result code and the handles the driver wrote as parameters, and returns:
  - the new state;
  - the handles forwarded to the driver;
  - the handles written back to the application.
- `wrapHandles = false` makes every entry point a pass-through, with two exceptions, as in the source:
  - ray-tracing pipeline creation still registers its deferred recording;
  - join and get-result still drain the registries.
- the unwrapped copy of a descriptor-update-template blob, with the blob viewed as typed slots at byte offsets;
- the release of validation objects from the chassis.

**The test error monitor** (`tests/framework/error_monitor.cpp`). It is the
state machine a test uses to state which validation messages it expects:

- messages that arrive are matched against the expected list, and a match is consumed by swap-with-last removal;
- ignored and allowed substrings are honoured;
- missing or unexpected messages become test failures, kept in a log that no reset clears;
- regular-expression search is a function parameter (`RegexSearch`), since the model does not interpret regular expressions;
- substring search is defined as a left-to-right scan and proved equal to the positional definition.

Modules follow the source:

- the dispatch side:
  - `Handles`;
  - `UniqueIds`;
  - `DispatchState`;
  - `RenderPassUsage` and `RenderPasses`;
  - `Pipelines`;
  - `DescriptorPools`;
  - `Swapchains`;
  - `TemplateBuffer` and `UpdateTemplates`;
  - `CommandBuffers`;
  - `DeferredOps`;
  - `DebugNames`;
  - `ValidationObjects`.
- the error monitor:
  - `Substrings`;
  - `MessageFlags`;
  - `ExpectedMessages`;
  - `ErrorMonitor`.

Where the code's behaviour is surprising, the model follows the code and proves the consequence:

- `DestroyCommandPool` compares the popped real pool handle with the pool handles recorded from the application's allocate info. With wrapping on, those are surrogates, so secondaries of a destroyed wrapped pool stay tracked (`CommandBuffers.DestroyedPoolKeepsSecondaries`).
- `vkBuildAccelerationStructuresKHR` registers its clean-up with an insert that keeps an existing entry. A build deferred on an operation that already has actions therefore registers nothing (`DeferredOps.BuildAfterCreateRegistersNothing`).
- `ExpectSuccess` clears the expected list, so it never makes the monitor `ExpectingSuccess`; only an expected message with an empty string does. Asking twice for an empty message verifies the first request away (`ErrorMonitor.EmptyExpectationCollapses`).
- In `CheckForDesiredMsg`, the loop over `undesired_messages_` has an empty body and no effect.

## Model

| member | source | states |
|---|---|---|
| UniqueIds.WrapNew | layers/chassis/dispatch_object_manual.cpp:421-425 | a minted surrogate is non-null, was not in use, maps to the wrapped handle, and leaves every other mapping alone |
| UniqueIds.Unwrap | layers/chassis/dispatch_object_manual.cpp:575-576 | a mapped surrogate resolves to the real handle recorded for it |
| UniqueIds.Pop | layers/chassis/dispatch_object_manual.cpp:457-462 | pop yields the recorded handle exactly when the surrogate is mapped, and removes only that surrogate |
| UniqueIds.Erase | layers/chassis/dispatch_object_manual.cpp:643-645 | erasing removes exactly one key and keeps every other mapping |
| UniqueIds.EraseAll | layers/chassis/dispatch_object_manual.cpp:554-557 | erasing the children of a pool or swapchain removes exactly those keys |
| UniqueIds.FreshAfterErase | layers/chassis/dispatch_object_manual.cpp:554-557 | erasing and popping keep the counter ahead of every live surrogate |
| UniqueIds.WrapAll | layers/chassis/dispatch_object_manual.cpp:612-616 | one distinct fresh surrogate per created handle, each unwrapping to its handle; old mappings kept |
| UniqueIds.WrapNonNull | layers/chassis/dispatch_object_manual.cpp:354-360 | null outputs stay null; every non-null output gets a fresh surrogate that unwraps to it |
| UniqueIds.WrapThenUnwrap | layers/chassis/dispatch_object_manual.cpp:421-425 | round trip: unwrapping a new surrogate gives back the wrapped handle; other ids resolve as before |
| UniqueIds.WrapThenPopTwice | layers/chassis/dispatch_object_manual.cpp:457-462 | popping a new surrogate yields its handle and restores the table; a second pop finds nothing |
| DispatchState.Initial | layers/chassis/dispatch_object_manual.cpp:49-51 | a new dispatch object is valid, has no surrogates, and wraps unless handle wrapping is disabled |
| DispatchState.ValidAfterMint | layers/chassis/dispatch_object_manual.cpp:612-616 | minting more ids preserves the state invariant |
| DispatchState.UnwrapNonNull | layers/chassis/dispatch_object_manual.cpp:596-598 | a null handle is forwarded as null; a mapped one as its real handle |
| DispatchState.UnwrapEach | layers/chassis/dispatch_object_manual.cpp:599-603 | an array is unwrapped element by element, keeping its length |
| RenderPassUsage.ColorInUse | layers/chassis/dispatch_object_manual.cpp:371-372 | the early-exit scan is true exactly when some colour reference is not VK_ATTACHMENT_UNUSED |
| RenderPassUsage.Derive | layers/chassis/dispatch_object_manual.cpp:367-384 | subpass i is recorded as using colour (depth/stencil) iff it was already recorded or has such a reference in use |
| RenderPassUsage.PipelineAttachmentUse | layers/chassis/dispatch_object_manual.cpp:268-286 | the flags come from the render pass's record for the subpass unless a dynamic-rendering block overrides them |
| RenderPassUsage.DynamicRenderingOverrides | layers/chassis/dispatch_object_manual.cpp:280-285 | with dynamic rendering, the render pass and subpass are irrelevant |
| RenderPassUsage.TwoSubpassScenario | layers/chassis/dispatch_object_manual.cpp:367-384 | a concrete two-subpass derivation yields colour {0} and depth/stencil {1} |
| RenderPasses.CreateRenderPass | layers/chassis/dispatch_object_manual.cpp:417-427 | on success the usage is recorded under the real handle and a fresh surrogate is returned; otherwise nothing changes |
| RenderPasses.DestroyRenderPass | layers/chassis/dispatch_object_manual.cpp:453-468 | pops the surrogate, forwards the real handle or null, and drops the usage stored under what was forwarded |
| RenderPasses.DestroyRenderPassTwice | layers/chassis/dispatch_object_manual.cpp:453-468 | a second destroy forwards null and only drops an entry keyed by null |
| RenderPasses.CreateThenDestroyRenderPass | layers/chassis/dispatch_object_manual.cpp:417-468 | create then destroy forwards the created handle and restores the id table |
| Pipelines.UnwrapInfo | layers/chassis/dispatch_object_manual.cpp:291-322 | layout, base pipeline and modules are unwrapped when non-null, and libraries element-wise |
| Pipelines.GraphicsUse | layers/chassis/dispatch_object_manual.cpp:270-286 | the usage looked up under the unwrapped render pass, or taken from dynamic rendering |
| Pipelines.WrapPipelines | layers/chassis/dispatch_object_manual.cpp:354-360 | every non-null pipeline gets a fresh surrogate; nulls stay null |
| Pipelines.CreateGraphicsPipelines | layers/chassis/dispatch_object_manual.cpp:256-364 | each create info is unwrapped and gets its attachment-usage flags; outputs are wrapped whatever the result code; every surrogate already in use still resolves as before |
| Pipelines.CreateComputePipelines | layers/chassis/dispatch_object_manual.cpp:1618-1664 | the cache and the create infos are unwrapped, non-null outputs are wrapped, and every surrogate already in use still resolves as before |
| Pipelines.RenderPassUsageReachesPipeline | layers/chassis/dispatch_object_manual.cpp:270-278 | a pipeline on a layer-created render pass gets the colour and depth/stencil use of its subpass |
| DescriptorPools.AllocateDescriptorSets | layers/chassis/dispatch_object_manual.cpp:590-621 | on success each set gets a distinct fresh surrogate, recorded under the application's pool handle |
| DescriptorPools.FreeDescriptorSets | layers/chassis/dispatch_object_manual.cpp:623-651 | on success with an array, the sets leave the id map and the pool's record |
| DescriptorPools.ResetDescriptorPool | layers/chassis/dispatch_object_manual.cpp:573-587 | on success every set of the pool leaves the id map and the pool's record becomes empty |
| DescriptorPools.DestroyDescriptorPool | layers/chassis/dispatch_object_manual.cpp:549-571 | the pool's sets are erased, its record dropped, and the pool popped and forwarded |
| DescriptorPools.DestroyDescriptorPoolTwice | layers/chassis/dispatch_object_manual.cpp:549-571 | a second destroy forwards null and changes nothing |
| DescriptorPools.AllocateThenFree | layers/chassis/dispatch_object_manual.cpp:590-651 | allocating then freeing the returned sets restores the id table and the pool's record |
| DescriptorPools.AllocateThenReset | layers/chassis/dispatch_object_manual.cpp:573-587 | after a reset no allocated set resolves, while the pool still does |
| Swapchains.ExtendImages | layers/chassis/dispatch_object_manual.cpp:479-483 | recorded surrogates are kept; only images past the recorded length get fresh surrogates |
| Swapchains.GetSwapchainImages | layers/chassis/dispatch_object_manual.cpp:470-491 | on success or incomplete with an array, the first `count` recorded surrogates are returned |
| Swapchains.DestroySwapchain | layers/chassis/dispatch_object_manual.cpp:494-515 | image surrogates are erased, the record dropped, and the swapchain popped and forwarded |
| Swapchains.EnumerateRecorded | layers/chassis/dispatch_object_manual.cpp:479-486 | enumerating no more than is recorded mints nothing |
| Swapchains.EnumerationStable | layers/chassis/dispatch_object_manual.cpp:470-491 | a second enumeration returns the same surrogates and changes nothing |
| Swapchains.DestroySwapchainTwice | layers/chassis/dispatch_object_manual.cpp:494-515 | after destroy no image surrogate resolves; a second destroy forwards null |
| TemplateBuffer.KindOf | layers/chassis/dispatch_object_manual.cpp:770-830 | which record each descriptor type reads, and no record for an unknown type |
| TemplateBuffer.Convert | layers/chassis/dispatch_object_manual.cpp:776-826 | one record's handles are unwrapped and its other fields copied |
| TemplateBuffer.ApplyEntry | layers/chassis/dispatch_object_manual.cpp:766-826 | the accesses of one entry are written and the allocation grows to cover them; every slot it writes is the conversion of the application's slot at one of its positions, and other slots keep their previous content |
| TemplateBuffer.Build | layers/chassis/dispatch_object_manual.cpp:759-875 | the build fails exactly when some entry with descriptors has an unknown type |
| TemplateBuffer.BuildCovers | layers/chassis/dispatch_object_manual.cpp:765-835 | every touched slot is written and lies inside the allocation |
| TemplateBuffer.BuildUnwraps | layers/chassis/dispatch_object_manual.cpp:836-872 | every written slot is the application's slot with handles unwrapped, and is exactly what an access touching that offset converts (an inline block is exactly its descriptorCount bytes) |
| TemplateBuffer.BuildConverts | layers/chassis/dispatch_object_manual.cpp:805-811 | every written slot equals the conversion of the application's slot by an access that touches its offset, with that entry's kind and count, so an inline block is copied once at exactly descriptorCount bytes |
| TemplateBuffer.BuildWritesOnlyTouched | layers/chassis/dispatch_object_manual.cpp:836-872 | nothing is written at an offset no entry touches |
| TemplateBuffer.BuildSizeAttained | layers/chassis/dispatch_object_manual.cpp:762-835 | the allocation size is zero or the end of some access |
| TemplateBuffer.InlineBlockCopiedOnce | layers/chassis/dispatch_object_manual.cpp:805-811 | an inline block is one copy of descriptorCount bytes, whatever the stride |
| TemplateBuffer.UnwrapDeterminesHandles | layers/chassis/dispatch_object_manual.cpp:776-803 | with one-to-one surrogates, the unwrapped record determines the application's handles |
| TemplateBuffer.BuildDeterminesHandles | layers/chassis/dispatch_object_manual.cpp:759-875 | two blobs that build to the same buffer hold the same handles |
| UpdateTemplates.UnwrapTemplateInfo | layers/chassis/dispatch_object_manual.cpp:663-668 | the set layout is unwrapped only for set templates, the pipeline layout only for push templates |
| UpdateTemplates.CreateDescriptorUpdateTemplate | layers/chassis/dispatch_object_manual.cpp:654-684 | on success a fresh surrogate is returned and the entries are shadowed under it |
| UpdateTemplates.DestroyDescriptorUpdateTemplate | layers/chassis/dispatch_object_manual.cpp:721-737 | the shadowed entries are dropped, and the surrogate popped and forwarded |
| UpdateTemplates.UpdateDescriptorSetWithTemplate | layers/chassis/dispatch_object_manual.cpp:877-891 | the set and template are unwrapped; the driver gets a rebuilt blob covering every touched slot, each slot the conversion of the application's slot by an access touching it (inline blocks exactly descriptorCount bytes) |
| UpdateTemplates.CreateThenUpdate | layers/chassis/dispatch_object_manual.cpp:877-891 | an update through a new template's surrogate forwards the real template and builds from its entries |
| UpdateTemplates.DestroyTemplateTwice | layers/chassis/dispatch_object_manual.cpp:721-737 | a second destroy forwards null and changes nothing |
| CommandBuffers.EmplaceAll | layers/chassis/dispatch_object_manual.cpp:1138-1141 | buffers are added under the pool, keeping existing entries |
| CommandBuffers.AllocateCommandBuffers | layers/chassis/dispatch_object_manual.cpp:1125-1144 | successful secondary allocations are recorded under the application's pool handle |
| CommandBuffers.FreeCommandBuffers | layers/chassis/dispatch_object_manual.cpp:1146-1156 | the pool is unwrapped and the buffers are forgotten whatever happened |
| CommandBuffers.WithoutPool | layers/chassis/dispatch_object_manual.cpp:1168-1176 | exactly the entries whose pool differs are kept |
| CommandBuffers.DestroyCommandPool | layers/chassis/dispatch_object_manual.cpp:1158-1177 | pops and forwards the pool, then drops the secondaries recorded under the forwarded handle |
| CommandBuffers.BeginCommandBuffer | layers/chassis/dispatch_object_manual.cpp:1184-1200 | only a tracked secondary's inheritance handles are unwrapped, and only non-null ones |
| CommandBuffers.AllocateThenFreeCommandBuffers | layers/chassis/dispatch_object_manual.cpp:1125-1156 | freeing newly allocated secondaries restores the state from before the allocation |
| CommandBuffers.BeginFollowsAllocation | layers/chassis/dispatch_object_manual.cpp:1137-1185 | a begin on an allocated secondary unwraps its inheritance handles; on an untracked primary it forwards them unchanged |
| CommandBuffers.DestroyedPoolKeepsSecondaries | layers/chassis/dispatch_object_manual.cpp:1158-1177 | a secondary from a wrapped pool survives the pool's destruction |
| CommandBuffers.DestroyedPoolDropsSecondaries | layers/chassis/dispatch_object_manual.cpp:1158-1177 | when the surrogate equals the real pool handle, the secondaries are dropped |
| CommandBuffers.DestroyCommandPoolTwice | layers/chassis/dispatch_object_manual.cpp:1158-1177 | a second destroy forwards null |
| DeferredOps.RealOperation | layers/chassis/dispatch_object_manual.cpp:1332-1335 | the operation is unwrapped only with wrapping on |
| DeferredOps.FirstRecorded | layers/chassis/dispatch_object_manual.cpp:1340-1345 | the pipeline list of the first recording action, if any |
| DeferredOps.RunActions | layers/chassis/dispatch_object_manual.cpp:1340-1345 | running the actions inserts the first recorded list unless a list is already stored |
| DeferredOps.CreateRayTracingPipelinesKHR | layers/chassis/dispatch_object_manual.cpp:1202-1330 | outputs are wrapped and earlier surrogates still resolve; a deferred creation appends the recording of the returned pipelines |
| DeferredOps.RunCompletion | layers/chassis/dispatch_object_manual.cpp:1340-1345 | the registered actions are popped and run once |
| DeferredOps.DeferredOperationJoin | layers/chassis/dispatch_object_manual.cpp:1332-1349 | on success the completion actions run; otherwise nothing changes |
| DeferredOps.GetDeferredOperationResult | layers/chassis/dispatch_object_manual.cpp:1351-1378 | on success, after completion, every post-check runs with the pipeline list if both exist, and both are popped |
| DeferredOps.BuildAccelerationStructures | layers/chassis/dispatch_object_manual.cpp:1417-1487 | a deferred build with infos registers freeing them unless actions already exist |
| DeferredOps.JoinTwice | layers/chassis/dispatch_object_manual.cpp:1332-1349 | a second successful join runs nothing and changes nothing |
| DeferredOps.ResultTwice | layers/chassis/dispatch_object_manual.cpp:1351-1378 | a second successful get-result runs nothing and changes nothing |
| DeferredOps.DeferredCreationReachesPostChecks | layers/chassis/dispatch_object_manual.cpp:1291-1374 | the post-checks of a deferred creation see exactly the pipelines the application got |
| DeferredOps.BuildAfterCreateRegistersNothing | layers/chassis/dispatch_object_manual.cpp:1476-1482 | a build deferred after a creation on the same operation registers nothing |
| DebugNames.SubstituteObject | layers/chassis/dispatch_object_manual.cpp:1042-1097 | the object handle is replaced only when the id map knows it |
| DebugNames.NameFollowsLifetime | layers/chassis/dispatch_object_manual.cpp:1085-1097 | naming through a live surrogate names the real object; after destroy it is passed through |
| ValidationObjects.FirstOfType | layers/chassis/dispatch_object_manual.cpp:113-117 | the index of the first object of the type, or none |
| ValidationObjects.IndexOf | layers/chassis/dispatch_object_manual.cpp:132-137 | the first position of an object in an intercept vector |
| ValidationObjects.RemoveFirst | layers/chassis/dispatch_object_manual.cpp:132-137 | only the first occurrence is removed |
| ValidationObjects.GetValidationObject | layers/chassis/dispatch_object_manual.cpp:112-119 | the first object of the type, or none iff there is none |
| ValidationObjects.ReleaseDeviceValidationObject | layers/chassis/dispatch_object_manual.cpp:123-147 | the first object of the type leaves the list and each intercept vector, and is aborted |
| ValidationObjects.ReleaseAllValidationObjects | layers/chassis/dispatch_object_manual.cpp:151-162 | every intercept vector is emptied and every object is aborted in order |
| ValidationObjects.ReleaseConservesObjects | layers/chassis/dispatch_object_manual.cpp:123-147 | release moves exactly one object: the multiset of live and aborted objects is unchanged |
| ValidationObjects.ReleaseExposesNext | layers/chassis/dispatch_object_manual.cpp:112-147 | after releasing a type once, the next object of that type is found |
| Substrings.Contains | tests/framework/error_monitor.cpp:383-388 | the scan finds a part exactly when it occurs at some position |
| Substrings.ContainsAny | tests/framework/error_monitor.cpp:373-381 | true exactly when some listed string occurs |
| MessageFlags.ToMessageTypeFlags | tests/framework/error_monitor.cpp:38-55 | at most one log bit, chosen by severity priority error > warning > info > verbose |
| MessageFlags.PerformanceWarningIff | tests/framework/error_monitor.cpp:43-48 | a warning is a performance warning iff its type has the performance bit |
| MessageFlags.ErrorPassesIff | tests/framework/error_monitor.cpp:110-113 | an error message reaches the monitor iff the mask holds the error bit |
| ExpectedMessages.Search | tests/framework/error_monitor.cpp:383-396 | an empty VUID matches any VUID; the message must contain the string or match the regex |
| ExpectedMessages.Print | tests/framework/error_monitor.cpp:403-411 | the VUID, a space if there is a VUID, then the message string |
| ExpectedMessages.PrintNamesExpectation | tests/framework/error_monitor.cpp:403-411 | the printed form contains both the VUID and the message string |
| ExpectedMessages.PlainMatchesSubstring | tests/framework/error_monitor.cpp:383-388 | a plain expectation matches exactly the messages containing its string |
| ErrorMonitor.MonitorReset | tests/framework/error_monitor.cpp:149-157 | errors only, no bailout, nothing found, all lists empty; logged failures stay |
| ErrorMonitor.ResetForgets | tests/framework/error_monitor.cpp:149-157 | a reset forgets everything but the failure log, and is idempotent |
| ErrorMonitor.ExpectSuccess | tests/framework/error_monitor.cpp:329-334 | empties the expected list and sets the mask |
| ErrorMonitor.ExpectSuccessIsNotExpectingSuccess | tests/framework/error_monitor.cpp:329-338 | after ExpectSuccess the monitor is not ExpectingSuccess |
| ErrorMonitor.NewMonitor | tests/framework/error_monitor.cpp:116-118 | a new monitor expects nothing, has logged nothing and matches errors |
| ErrorMonitor.SuccessFailures | tests/framework/error_monitor.cpp:365-369 | one failure per recorded message, if a message was found |
| ErrorMonitor.VerifyNotFound | tests/framework/error_monitor.cpp:362-371 | logs those failures, then resets |
| ErrorMonitor.ExpectSuccessCatchesMessage | tests/framework/error_monitor.cpp:362-371 | after asking for an empty error message, any error that arrives is reported by VerifyNotFound as the only failure |
| ErrorMonitor.PendingFailures | tests/framework/error_monitor.cpp:347-349 | one failure per pending expectation, naming it as Print does |
| ErrorMonitor.VerifyFound | tests/framework/error_monitor.cpp:342-355 | logs one failure per pending expectation, then resets to expect success for errors |
| ErrorMonitor.VerifyFoundTwice | tests/framework/error_monitor.cpp:342-355 | a second VerifyFound logs nothing more |
| ErrorMonitor.Finish | tests/framework/error_monitor.cpp:357-360 | Finish is VerifyNotFound, since a reset is idempotent |
| ErrorMonitor.Settled | tests/framework/error_monitor.cpp:169-171 | a monitor that is ExpectingSuccess is verified first; no other monitor changes |
| ErrorMonitor.AddDesired | tests/framework/error_monitor.cpp:168-178 | appends one expectation and ORs the kinds into the mask |
| ErrorMonitor.AddDesiredSettles | tests/framework/error_monitor.cpp:336-338 | after an addition that accumulates, the monitor is not ExpectingSuccess |
| ErrorMonitor.SetDesiredFailureMsg | tests/framework/error_monitor.cpp:168-178 | a plain expectation is appended to the settled monitor, the mask becomes the settled mask ORed with the given kinds, and nothing else changes |
| ErrorMonitor.SetDesiredFailureMsgRegex | tests/framework/error_monitor.cpp:180-206 | a regex expectation with its VUID and undesired regex is appended, the mask gains the given kinds, and nothing else changes |
| ErrorMonitor.SetDesiredError | tests/framework/error_monitor.cpp:208-212 | no change for count 0; when the entries accumulate (a non-empty message, something already expected or ignored, or count 1) exactly `count` plain entries are appended and the error bit added; otherwise (an empty message, more than once, on a monitor expecting and ignoring nothing) the first addition is verified with VerifyNotFound, which logs the messages found so far and resets every other field, and one entry is left with the error mask |
| ErrorMonitor.SetDesiredWarning | tests/framework/error_monitor.cpp:226-230 | the same three cases with the warning bit; a collapse verifies and resets the monitor and leaves errors plus warnings in the mask |
| ErrorMonitor.SetDesiredInfo | tests/framework/error_monitor.cpp:232-236 | the same three cases with the information bit, including the verify-and-reset collapse |
| ErrorMonitor.SetDesiredErrorRegex | tests/framework/error_monitor.cpp:214-218 | the same three cases for regex entries with the error bit, including the verify-and-reset collapse |
| ErrorMonitor.SetDesiredWarningRegex | tests/framework/error_monitor.cpp:220-224 | the same three cases for regex entries with the warning bit, including the verify-and-reset collapse |
| ErrorMonitor.AddRepeatedlyAppends | tests/framework/error_monitor.cpp:208-236 | when the additions accumulate, the counted loop appends exactly `count` copies to the settled list and adds the kinds |
| ErrorMonitor.CollapseStep | tests/framework/error_monitor.cpp:168-178 | after an addition that does not accumulate, the next one verifies and resets the monitor, and verifying again logs nothing more |
| ErrorMonitor.AddRepeatedlyCollapses | tests/framework/error_monitor.cpp:168-178 | when the additions do not accumulate, the result is the first addition verified by VerifyNotFound (failures logged once, every other field reset) with one entry and the kinds added |
| ErrorMonitor.AddRepeatedlyCloses | tests/framework/error_monitor.cpp:208-236 | the closed form of the counted loop in all three cases |
| ErrorMonitor.SetDesiredErrorAppends | tests/framework/error_monitor.cpp:208-212 | SetDesiredError(msg, n) appends n entries and makes errors reported |
| ErrorMonitor.EmptyExpectationCollapses | tests/framework/error_monitor.cpp:336-340 | asking twice for an empty message leaves one entry |
| ErrorMonitor.EmptyExpectationAppendsAfterOthers | tests/framework/error_monitor.cpp:168-178 | once one message is expected, asking twice for an empty message appends both |
| ErrorMonitor.SetAllowedFailureMsg | tests/framework/error_monitor.cpp:238-241 | every message containing the string becomes allowed; earlier allowed strings stay and nothing else changes |
| ErrorMonitor.AllowedSilencesUnmatched | tests/framework/error_monitor.cpp:297-304 | a message nothing takes that contains an allowed string returns false and logs no failure |
| ErrorMonitor.SetUnexpectedError | tests/framework/error_monitor.cpp:243-249 | settles, then appends an ignore string |
| ErrorMonitor.SetError | tests/framework/error_monitor.cpp:318-322 | marks a message found and records it last, so the success failures end with it |
| ErrorMonitor.SetErrorIsReported | tests/framework/error_monitor.cpp:318-322 | VerifyNotFound after SetError keeps the earlier failures and logs the message last |
| ErrorMonitor.IgnoreMessage | tests/framework/error_monitor.cpp:373-381 | true exactly when some ignore string occurs in the message |
| ErrorMonitor.FirstHit | tests/framework/error_monitor.cpp:277-295 | the first entry whose undesired regex or search matches, with no hit before it |
| ErrorMonitor.SwapRemove | tests/framework/error_monitor.cpp:290-292 | the last entry takes the removed entry's place and the list shrinks by one |
| ErrorMonitor.SwapRemoveMultiset | tests/framework/error_monitor.cpp:290-292 | the remaining multiset is the original minus the removed entry |
| ErrorMonitor.RaiseBailout | tests/framework/error_monitor.cpp:254-256 | a registered bailout flag is raised |
| ErrorMonitor.CheckForDesiredMsg | tests/framework/error_monitor.cpp:251-312 | false iff ignored, or unmatched and allowed; at most one entry consumed and at most one failure logged |
| ErrorMonitor.IgnoredMessageChangesNothing | tests/framework/error_monitor.cpp:268-270 | an ignored message returns false and changes nothing but the bailout flag |
| ErrorMonitor.MatchConsumesFirstMatch | tests/framework/error_monitor.cpp:277-295 | the first match is swap-removed, the message recorded, found set, true returned |
| ErrorMonitor.UndesiredIsFailure | tests/framework/error_monitor.cpp:279-284 | an undesired-regex hit logs a failure and consumes nothing |
| ErrorMonitor.UnmatchedMessage | tests/framework/error_monitor.cpp:297-311 | unmatched and allowed returns false silently; otherwise a failure is logged and true returned |
| ErrorMonitor.DebugCallback | tests/framework/error_monitor.cpp:110-113 | messages outside the mask are dropped with false |
| ErrorMonitor.ExpectedErrorArrives | tests/framework/error_monitor.cpp:208-295 | expect one error, receive it, verify: consumed, no failure |

## Left out

- Driver calls are not executed: their result codes and written handles are parameters of each transition.
- Locks, the concurrent maps' thread safety, and the atomic bailout flag's concurrency are not modelled. Each entry point is one atomic transition.
- The id generator and the concurrent id map are declared in a header that is not part of this model. Ids come from a counter, and 64-bit wrap-around of ids is not modelled.
- `Unwrap` of an unmapped id yields the null handle in this model. The header that defines it is not part of this model. Some contracts state their outputs through `Unwrap` and so rely on this choice for unmapped ids: Pipelines.GraphicsUse, UpdateTemplates.UnwrapTemplateInfo, and TemplateBuffer.UnwrappedFrom with everything built on it (TemplateBuffer.Convert, TemplateBuffer.BuildUnwraps, UpdateTemplates.UpdateDescriptorSetWithTemplate).
- `CopyExportMetalObjects` and `ExportMetalObjectsEXT` are left out: platform pointer rewriting with no bookkeeping.
- `QueuePresentKHR` is left out: a per-swapchain result copy-back, with no registry change.
- Display queries and the display wrapping helper are left out: they go through a display-specific wrapping function that is not part of this model.
- `CmdPushDescriptorSetWithTemplateKHR` and `CmdPushDescriptorSetWithTemplate2KHR` are left out: they reuse the template-buffer builder without state change.
- `GetDescriptorEXT` is left out: per-descriptor-type unwrapping with no registry change.
- Pipeline binaries, `CreatePipelineBinariesKHR`, `GetPipelineKeyKHR` and `CreateIndirectExecutionSetEXT` are left out. So are the binary-info and device-generated-command group arrays inside pipeline create infos.
- `ReleasePerformanceConfigurationINTEL`, `CmdBuildAccelerationStructuresKHR` and `GetAccelerationStructureBuildSizesKHR` are left out: unwrap-and-forward without bookkeeping.
- Generic pNext-chain unwrapping is not modelled.
- Pipeline-creation feedback copy-back is not modelled.
- The Android external-format resolve branch of the version-2 render-pass derivation is not modelled.
- Constructors and destructors of the dispatch object, tool-property queries, and `DestroyDevice` are left out.
- `AllocateCommandBuffers` and `CreateDescriptorUpdateTemplate` with a null create info are partly out of scope. Their info is a parameter, and the source dereferences a null create info on paths this model does not follow.
- DeferredOps.CreateRayTracingPipelinesKHR: records the pipeline list as it stands when the call returns. With wrapping off, the source records the shared vector at completion time, which the driver may fill later.
- TemplateBuffer.Build: treats the debug assertion on an unknown descriptor type as a failed build. A release build skips such an entry and keeps going.
- TemplateBuffer.Build: the blob is typed slots at offsets. Partially overlapping accesses at different offsets, and raw byte copies, are not modelled.
- TemplateBuffer.LaidOut: requires each touched offset to hold a slot of the kind its entry reads. So two entries that read the same offset as different kinds are outside the model, as the byte reinterpretation is.
- UpdateTemplates.UpdateDescriptorSetWithTemplate: requires the template to be one the layer shadowed. The source looks it up without checking (dispatch_object_manual.cpp:759-760), so an unknown template is undefined behaviour there.
- Swapchains.GetSwapchainImages: requires the driver-written count to fit in the array it wrote, which the driver guarantees.
- The error monitor's log flag bit values are not defined in this model. They are taken to equal the VkDebugReportFlagBitsEXT values, and `ExpectSuccess()`'s default mask is taken to be the error bit.
- Regular-expression matching is a function parameter.
- The message text the callback builds with `ostringstream` is an input, not constructed.
- Console and Android printing are not modelled.
- `ADD_FAILURE` is modelled as appending to a failure log.
- `CreateCallback`, `DestroyCallback`, `SetBailout`, `GetMessageFlags` and `AnyDesiredMsgFound` are left out: messenger setup and plain accessors.
- The `Undefined` message kind is not modelled: every SetDesired* call sets a kind.
- tests/unit/instanceless.cpp is not part of this model. It holds test cases that drive a real loader and driver.
