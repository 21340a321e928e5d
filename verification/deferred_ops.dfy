/**
 Deferred host operations. When the driver defers ray-tracing pipeline
 creation or an acceleration-structure build, the layer registers actions to
 run once the operation completes; whichever of join or get-result first sees
 VK_SUCCESS runs them. Get-result also hands the pipeline list recorded for
 the operation to the post-checks validation objects registered for it. All
 three registries are keyed by the real operation handle.
 */
module DeferredOps {
  import opened Handles
  import opened UniqueIds
  import opened DispatchState
  import opened Pipelines

  function Registered(s: State, op: Handle): seq<CompletionAction> {
    if op in s.postCompletion then s.postCompletion[op] else []
  }

  /** The real operation handle: unwrapped when wrapping is on. */
  function RealOperation(s: State, op: Handle): (r: Handle)
    ensures s.wrapHandles && op in s.ids.table ==> r == s.ids.table[op]
    ensures !s.wrapHandles ==> r == op
  {
    if s.wrapHandles then Unwrap(s.ids, op) else op
  }

  /** The pipeline list of the first RecordPipelines action, if any. */
  function FirstRecorded(actions: seq<CompletionAction>): (r: Option<seq<Handle>>)
    ensures r.None? <==> forall k :: 0 <= k < |actions| ==> actions[k].FreeBuildInfos?
    ensures r.Some? ==> exists k :: 0 <= k < |actions| && actions[k].RecordPipelines? && actions[k].pipelines == r.value &&
                                    forall m :: 0 <= m < k ==> actions[m].FreeBuildInfos?
    decreases |actions|
  {
    if |actions| == 0 then None
    else if actions[0].RecordPipelines? then Some(actions[0].pipelines)
    else
      var rest := FirstRecorded(actions[1..]);
      assert forall k :: 1 <= k < |actions| ==> actions[k] == actions[1..][k - 1];
      rest
  }

  /** Runs completion actions in order: each RecordPipelines inserts its
      list into the pipeline registry unless an entry is already there. */
  function RunActions(pipelines: map<Handle, seq<Handle>>, op: Handle, actions: seq<CompletionAction>): (r: map<Handle, seq<Handle>>)
    ensures op in pipelines ==> r == pipelines
    ensures op !in pipelines && FirstRecorded(actions).None? ==> r == pipelines
    ensures op !in pipelines && FirstRecorded(actions).Some? ==> r == pipelines[op := FirstRecorded(actions).value]
    decreases |actions|
  {
    if |actions| == 0 then pipelines
    else match actions[0]
      case FreeBuildInfos => RunActions(pipelines, op, actions[1..])
      case RecordPipelines(_, p) => RunActions(Emplace(pipelines, op, p), op, actions[1..])
  }

  /** The outcome of a ray-tracing pipeline creation. */
  datatype RayTracingCall = RayTracingCall(s: State, operation: Handle, cache: Handle, infos: seq<PipelineInfo>, returned: seq<Handle>)

  predicate Deferred(realOp: Handle, result: VkResult) {
    realOp != NullHandle && result == OperationDeferred
  }

  /** vkCreateRayTracingPipelinesKHR. Unlike the other entry points it does
      part of its work with wrapping off as well: a deferred creation always
      registers the recording of its pipelines (wrapped when wrapping is on),
      after every action registered earlier for the same operation. */
  function CreateRayTracingPipelinesKHR(s: State, op: Handle, cache: Handle, infos: seq<PipelineInfo>,
                                        result: VkResult, created: seq<Handle>): (r: RayTracingCall)
    requires Valid(s)
    ensures Valid(r.s) && r.s == s.(ids := r.s.ids, postCompletion := r.s.postCompletion)
    ensures r.operation == RealOperation(s, op) && |r.returned| == |created|
    ensures !s.wrapHandles ==> r.s.ids == s.ids && r.cache == cache && r.infos == infos && r.returned == created
    ensures s.wrapHandles ==>
              && (cache in s.ids.table ==> r.cache == s.ids.table[cache])
              && |r.infos| == |infos|
              && (forall i :: 0 <= i < |infos| ==> r.infos[i] == UnwrapInfo(s.ids, infos[i]))
              && (forall i :: 0 <= i < |created| ==> (r.returned[i] == NullHandle <==> created[i] == NullHandle))
              && (forall i :: 0 <= i < |created| && created[i] != NullHandle ==>
                    r.returned[i] !in s.ids.table && Unwrap(r.s.ids, r.returned[i]) == created[i])
              && (forall id :: id in s.ids.table ==> Unwrap(r.s.ids, id) == Unwrap(s.ids, id))
    ensures Deferred(r.operation, result) ==>
              r.s.postCompletion == s.postCompletion[r.operation :=
                Registered(s, r.operation) + [RecordPipelines(s.wrapHandles, r.returned)]]
    ensures !Deferred(r.operation, result) ==> r.s.postCompletion == s.postCompletion
  {
    var realOp := RealOperation(s, op);
    var w := if s.wrapHandles then WrapPipelines(s, created) else MintedAll(s.ids, created);
    var s1 := s.(ids := w.ids);
    var s2 := if Deferred(realOp, result)
              then s1.(postCompletion := s.postCompletion[realOp := Registered(s, realOp) + [RecordPipelines(s.wrapHandles, w.surrogates)]])
              else s1;
    if s.wrapHandles then
      RayTracingCall(s2, realOp, Unwrap(s.ids, cache), seq(|infos|, i requires 0 <= i < |infos| => UnwrapInfo(s.ids, infos[i])),
                     w.surrogates)
    else RayTracingCall(s2, realOp, cache, infos, created)
  }

  /** A post-check run with the pipeline list it was handed. */
  datatype CheckRun = CheckRun(check: PostCheck, pipelines: seq<Handle>)

  /** The outcome of join or get-result: the actions and checks that ran. */
  datatype Drain = Drain(s: State, operation: Handle, ran: seq<CompletionAction>, checks: seq<CheckRun>)

  /** Pops and runs the completion actions registered for `realOp`. */
  function RunCompletion(s: State, realOp: Handle): (r: Drain)
    requires Valid(s)
    ensures Valid(r.s) && r.operation == realOp && r.checks == []
    ensures r.ran == Registered(s, realOp)
    ensures r.s.postCompletion == s.postCompletion - {realOp}
    ensures realOp in s.operationPipelines ==> r.s.operationPipelines == s.operationPipelines
    ensures realOp !in s.operationPipelines && FirstRecorded(r.ran).Some? ==>
              r.s.operationPipelines == s.operationPipelines[realOp := FirstRecorded(r.ran).value]
    ensures realOp !in s.operationPipelines && FirstRecorded(r.ran).None? ==>
              r.s.operationPipelines == s.operationPipelines
    ensures r.s == s.(postCompletion := r.s.postCompletion, operationPipelines := r.s.operationPipelines)
  {
    var actions := Registered(s, realOp);
    Drain(s.(postCompletion := s.postCompletion - {realOp},
             operationPipelines := RunActions(s.operationPipelines, realOp, actions)),
          realOp, actions, [])
  }

  /** vkDeferredOperationJoinKHR: on VK_SUCCESS the registered completion
      actions run once; any other result leaves every registry alone. */
  function DeferredOperationJoin(s: State, op: Handle, result: VkResult): (r: Drain)
    requires Valid(s)
    ensures Valid(r.s) && r.operation == RealOperation(s, op) && r.checks == []
    ensures result != Success ==> r.s == s && r.ran == []
    ensures result == Success ==> r == RunCompletion(s, r.operation)
  {
    var realOp := RealOperation(s, op);
    if result != Success then Drain(s, realOp, [], [])
    else RunCompletion(s, realOp)
  }

  /** vkGetDeferredOperationResultKHR: on VK_SUCCESS, runs what join would
      run, then pops the post-checks and the pipeline list; every check runs
      with the list only if both were registered. */
  function GetDeferredOperationResult(s: State, op: Handle, result: VkResult): (r: Drain)
    requires Valid(s)
    ensures Valid(r.s) && r.operation == RealOperation(s, op)
    ensures result != Success ==> r.s == s && r.ran == [] && r.checks == []
    ensures result == Success ==>
              var c := RunCompletion(s, r.operation);
              && r.ran == c.ran
              && r.operation !in r.s.postCompletion && r.operation !in r.s.postCheck && r.operation !in r.s.operationPipelines
              && r.s == c.s.(postCheck := c.s.postCheck - {r.operation},
                             operationPipelines := c.s.operationPipelines - {r.operation})
              && (r.operation in c.s.postCheck && r.operation in c.s.operationPipelines ==>
                    && |r.checks| == |c.s.postCheck[r.operation]|
                    && forall i :: 0 <= i < |r.checks| ==>
                         r.checks[i] == CheckRun(c.s.postCheck[r.operation][i], c.s.operationPipelines[r.operation]))
              && (r.operation !in c.s.postCheck || r.operation !in c.s.operationPipelines ==> r.checks == [])
  {
    var realOp := RealOperation(s, op);
    if result != Success then Drain(s, realOp, [], [])
    else
      var c := RunCompletion(s, realOp);
      var checks := Lookup(c.s.postCheck, realOp);
      var pipelines := Lookup(c.s.operationPipelines, realOp);
      var s2 := c.s.(postCheck := c.s.postCheck - {realOp}, operationPipelines := c.s.operationPipelines - {realOp});
      var runs := if checks.Some? && pipelines.Some?
                  then seq(|checks.value|, i requires 0 <= i < |checks.value| => CheckRun(checks.value[i], pipelines.value))
                  else [];
      Drain(s2, realOp, c.ran, runs)
  }

  /** vkBuildAccelerationStructuresKHR: with wrapping on and build infos
      given, a deferred build registers the freeing of the layer's copy of
      the infos, unless actions are already registered for the operation. */
  function BuildAccelerationStructures(s: State, op: Handle, hasInfos: bool, result: VkResult): (r: Call)
    requires Valid(s)
    ensures Valid(r.s) && |r.forwarded| == 1 && r.returned == []
    ensures r.forwarded[0] == RealOperation(s, op)
    ensures !s.wrapHandles || !hasInfos || !Deferred(r.forwarded[0], result) ==> r.s == s
    ensures s.wrapHandles && hasInfos && Deferred(r.forwarded[0], result) ==>
              && r.s == s.(postCompletion := r.s.postCompletion)
              && (r.forwarded[0] in s.postCompletion ==> r.s.postCompletion == s.postCompletion)
              && (r.forwarded[0] !in s.postCompletion ==> r.s.postCompletion == s.postCompletion[r.forwarded[0] := [FreeBuildInfos]])
  {
    var realOp := RealOperation(s, op);
    if !s.wrapHandles || !hasInfos || !Deferred(realOp, result) then Call(s, [realOp], [])
    else Call(s.(postCompletion := Emplace(s.postCompletion, realOp, [FreeBuildInfos])), [realOp], [])
  }

  /** Draining is idempotent: once join has succeeded, a second successful
      join runs nothing and changes nothing. */
  lemma JoinTwice(s: State, op: Handle)
    requires Valid(s)
    ensures var j1 := DeferredOperationJoin(s, op, Success);
            var j2 := DeferredOperationJoin(j1.s, op, Success);
            j2.ran == [] && j2.s == j1.s
  {
    var j1 := DeferredOperationJoin(s, op, Success);
    var j2 := DeferredOperationJoin(j1.s, op, Success);
    assert RealOperation(j1.s, op) == RealOperation(s, op);
    assert FirstRecorded([]).None?;
  }

  /** After a successful get-result nothing is left for the operation: a
      second one runs no action and no check and changes nothing. */
  lemma ResultTwice(s: State, op: Handle)
    requires Valid(s)
    ensures var g1 := GetDeferredOperationResult(s, op, Success);
            var g2 := GetDeferredOperationResult(g1.s, op, Success);
            g2.ran == [] && g2.checks == [] && g2.s == g1.s
  {
    var g1 := GetDeferredOperationResult(s, op, Success);
    assert RealOperation(g1.s, op) == RealOperation(s, op);
    var c := RunCompletion(g1.s, g1.operation);
    assert c.s == g1.s;
  }

  /** End to end: a deferred ray-tracing creation on an operation with
      nothing registered yet, completed by get-result, runs every post-check
      registered for the operation with exactly the pipeline handles the
      application received. */
  lemma DeferredCreationReachesPostChecks(s: State, op: Handle, cache: Handle, infos: seq<PipelineInfo>,
                                          created: seq<Handle>, checks: seq<PostCheck>)
    requires Valid(s) && s.wrapHandles
    requires op in s.ids.table && s.ids.table[op] != NullHandle
    requires s.ids.table[op] !in s.postCompletion && s.ids.table[op] !in s.operationPipelines
    requires s.ids.table[op] in s.postCheck && s.postCheck[s.ids.table[op]] == checks
    ensures var c := CreateRayTracingPipelinesKHR(s, op, cache, infos, OperationDeferred, created);
            var g := GetDeferredOperationResult(c.s, op, Success);
            && g.ran == [RecordPipelines(true, c.returned)]
            && |g.checks| == |checks|
            && forall i :: 0 <= i < |checks| ==> g.checks[i] == CheckRun(checks[i], c.returned)
  {
    var c := CreateRayTracingPipelinesKHR(s, op, cache, infos, OperationDeferred, created);
    var realOp := s.ids.table[op];
    assert RealOperation(c.s, op) == realOp;
    assert Registered(c.s, realOp) == [RecordPipelines(true, c.returned)];
    assert FirstRecorded([RecordPipelines(true, c.returned)]) == Some(c.returned);
  }

  /** Registration order matters for a build deferred on an operation that
      already has actions: its freeing of the build infos is not registered. */
  lemma BuildAfterCreateRegistersNothing(s: State, op: Handle, cache: Handle, infos: seq<PipelineInfo>, created: seq<Handle>)
    requires Valid(s) && s.wrapHandles
    requires op in s.ids.table && s.ids.table[op] != NullHandle
    ensures var c := CreateRayTracingPipelinesKHR(s, op, cache, infos, OperationDeferred, created);
            var b := BuildAccelerationStructures(c.s, op, true, OperationDeferred);
            b.s == c.s
  {
    var c := CreateRayTracingPipelinesKHR(s, op, cache, infos, OperationDeferred, created);
    assert RealOperation(c.s, op) == RealOperation(s, op);
  }
}
