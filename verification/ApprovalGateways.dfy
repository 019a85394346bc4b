/** The stores and the three gateway services, step by step, against the state machine of ApprovalState. */
module ApprovalGateways {
  import opened Common
  import opened PolicyRules
  import opened ApprovalState
  import opened ApprovalInvariant
  import opened ApprovalTheorems
  import opened GatewayDecisions
  import Versions = PolicyVersions

  /** The gateways over one database, with the policy store beside them. */
  class Gateways {
    const policies: Versions.PolicyCenterStore
    var toolInvocations: map<Id, ToolInvocationRow>
    var toolTasks: map<Id, ToolTask>
    var shellInvocations: map<Id, RuntimeInvocation>
    var modelInvocations: map<Id, RuntimeInvocation>
    var runtimeTasks: map<Id, RuntimeTask>
    var nextId: Id
    var now: int
    ghost var log: seq<Effect>

    ghost function Abstract(): State
      reads this, policies
    {
      State(
        policies.rows, toolInvocations, toolTasks, shellInvocations, modelInvocations, runtimeTasks, nextId, now, log)
    }

    ghost predicate Valid()
      reads this, policies
    {
      Inv(Abstract())
    }

    constructor (store: Versions.PolicyCenterStore, start: int)
      ensures Valid() && policies == store && Abstract() == Start(start).(policies := store.rows)
    {
      policies := store;
      toolInvocations, toolTasks := map[], map[];
      shellInvocations, modelInvocations, runtimeTasks := map[], map[], map[];
      nextId, now, log := 0, start, [];
      new;
      StartInv(start);
      SameTasks(Start(start), Abstract());
      KeepsInv(Start(start), Abstract());
    }

    // --- One step of the protocol ------------------------------------------------------------

    /** Every step of the state machine is carried out by one call below, with the same result and the same new
        state. */
    method Perform(step: Step) returns (result: Result)
      requires Valid()
      modifies this, policies
      ensures Valid() && (Abstract(), result) == Take(old(Abstract()), step)
    {
      hide Inv, InvokeTool, ResumeTool, DecideTool, DecideRuntime, RunShell, ResumeShell, RunModel;
      match step {
        case ToolInvoke(wiring, project, request, context) => result := Invoke(wiring, project, request, context);
        case ToolResume(wiring, project, task, context) => result := ResumeApproval(wiring, project, task, context);
        case ToolDecide(project, task, decision) => result := DecideToolApproval(project, task, decision);
        case ShellStart(wiring, request, context) => result := RunShellTemplate(wiring, request, context);
        case ShellResume(wiring, project, task, context) =>
          result := ResumeShellApproval(wiring, project, task, context);
        case ModelStart(wiring, request, context) => result := RunNode(wiring, request, context);
        case RuntimeDecide(project, task, decision) => result := DecideRuntimeApproval(project, task, decision);
        case PolicyChange(change) =>
          ChangePolicy(change);
          result := Decided;
        case Tick(seconds) =>
          Wait(seconds);
          result := Decided;
      }
    }

    method ChangePolicy(change: Versions.Step)
      requires Valid()
      modifies policies
      ensures Valid() && Abstract() == old(Abstract()).(policies := Versions.Next(old(policies.rows), change))
    {
      hide Inv, Versions.Created, Versions.Validated, Versions.Publish, Versions.RolledBack;
      ghost var before := Abstract();
      match change {
        case Create(key, rules, source) => var _ := policies.CreateDraft(key, rules, source);
        case Check(project, draft) => var _ := policies.ValidateDraft(project, draft);
        case PublishStep(project, draft) => var _ := policies.PublishDraft(project, draft);
        case RollbackStep(key, version) => var _ := policies.Rollback(key, version);
      }
      SameTasks(before, Abstract());
      KeepsInv(before, Abstract());
    }

    method Wait(seconds: nat)
      requires Valid()
      modifies this`now
      ensures Valid() && Abstract() == old(Abstract()).(now := old(now) + seconds)
    {
      hide Inv;
      ghost var before := Abstract();
      now := now + seconds;
      SameTasks(before, Abstract());
      KeepsInv(before, Abstract());
    }

    // --- Tool invocation store -----------------------------------------------------------

    method RecordInvocation(project: Id, request: ToolRequest, status: InvocationStatus, decision: Decision)
      returns (stored: bool)
      modifies this
      ensures stored == CanRecord(old(Abstract()), project, request)
      ensures Abstract() == RecordTool(old(Abstract()), project, request, status, decision)
    {
      var callId := if request.callId.Some? then Given(request.callId.value) else Generated(nextId);
      if Taken(toolInvocations, project, callId) {
        return false;
      }
      toolInvocations :=
        toolInvocations[nextId := ToolInvocationRow(project, request.toolRef, callId, status, decision)];
      nextId := nextId + 1;
      return true;
    }

    method UpdateInvocationStatus(project: Id, id: Id, status: InvocationStatus, decision: Decision)
      returns (found: bool)
      modifies this`toolInvocations
      ensures forall result :: Updated(old(Abstract()), project, id, status, decision, result) ==
                               (Abstract(), if found then result else Refused(InvocationMissing))
    {
      if id !in toolInvocations || toolInvocations[id].project != project {
        return false;
      }
      toolInvocations := toolInvocations[id := toolInvocations[id].(status := status, decision := decision)];
      return true;
    }

    // --- Tool gateway service ---------------------------------------------------------------

    method Decline(project: Id, request: ToolRequest, status: InvocationStatus, decision: Decision, reason: Refusal)
      returns (result: Result)
      modifies this
      ensures (Abstract(), result) == Recorded(old(Abstract()), project, request, status, decision, Refused(reason))
    {
      var stored := RecordInvocation(project, request, status, decision);
      result := Refused(if stored then reason else StoreConflict);
    }

    method Invoke(wiring: Wiring, project: Id, request: ToolRequest, context: ToolContext) returns (result: Result)
      requires Valid()
      modifies this
      ensures Valid() && (Abstract(), result) == InvokeTool(wiring, old(Abstract()), project, request, context)
    {
      hide Inv;
      InvokeInv(wiring, Abstract(), project, request, context);
      hide CanRecord, ToolDecision, Taken, ToolCalled, ParkTool;
      if context.authorized.None? {
        result := Decline(project, request, DeniedCall, Denied, NotAuthorized);
        return;
      }
      if !context.argumentsValid {
        result := Decline(project, request, DeniedCall, Denied, InvalidArguments);
        return;
      }
      var tool := context.authorized.value;
      var decision := EvaluateTool(wiring, project, request, tool);
      if decision == Denied {
        result := Decline(project, request, DeniedCall, Denied, PolicyDenied);
        return;
      }
      if decision == ApprovalRequired {
        result := RequestApproval(project, request, tool.risk);
        return;
      }
      if context.server.None? {
        result := Decline(project, request, Failed, Allowed, NoServer);
        return;
      }
      var server := context.server.value;
      if server.hasCredential && !(server.credentialActive && context.leaseGranted) {
        result := Decline(project, request, Failed, Allowed, CredentialInactive);
        return;
      }
      result := CallTool(project, request, tool.risk, context.call);
    }

    /** The allowed call, recorded with its outcome. */
    method CallTool(project: Id, request: ToolRequest, risk: RiskLevel, call: CallOutcome) returns (result: Result)
      modifies this
      ensures (Abstract(), result) == ToolCalled(old(Abstract()), project, request, risk, call)
    {
      hide CanRecord, Taken;
      log := log + [ToolEffect(Abstract(), project, request, risk, call, None)];
      if call.CallFailed? {
        result := Decline(project, request, Failed, Allowed, CallError);
        return;
      }
      var status := if call.isError then Failed else Success;
      var stored := RecordInvocation(project, request, status, Allowed);
      result := if stored then Ran(status) else Refused(StoreConflict);
    }

    /** Allowed never at high risk; denied exactly when the evaluator finds a deny rule that decides. */
    method EvaluateTool(wiring: Wiring, project: Id, request: ToolRequest, tool: AuthorizedTool)
      returns (decision: Decision)
      ensures decision == ToolDecision(wiring, Abstract(), project, request, tool)
      ensures decision == Allowed <==> ToolAllowed(wiring, LiveRules(Abstract(), project), request, tool)
      ensures decision == Denied <==> ToolDenied(wiring, LiveRules(Abstract(), project), request, tool)
    {
      hide Evaluate, ToolAllowed, ToolDenied, LiveRules;
      ToolDecidedByFields(wiring, Abstract(), project, request, tool);
      if !wiring.evaluator {
        return if tool.approvalRequired || IsHigh(tool.risk) then ApprovalRequired else Allowed;
      }
      var policy := policies.LoadPublished(Versions.PolicyKey(project, "default"));
      decision := Evaluate(policy, ToolQuestion(request, tool)).decision;
    }

    method RequestApproval(project: Id, request: ToolRequest, risk: RiskLevel) returns (result: Result)
      modifies this
      ensures (Abstract(), result) == ParkTool(old(Abstract()), project, request, risk)
    {
      hide CanRecord, Taken;
      var invocation := nextId;
      var stored := RecordInvocation(project, request, AwaitingApproval, ApprovalRequired);
      if !stored {
        return Refused(StoreConflict);
      }
      var id := nextId;
      toolTasks :=
        toolTasks[id := ToolTask(project, invocation, request, risk, Pending, None, now, now + TOOL_TASK_SECONDS)];
      nextId := nextId + 1;
      result := Parked(id);
    }

    method Conclude(project: Id, invocation: Id, status: InvocationStatus, decision: Decision, reason: Refusal)
      returns (result: Result)
      modifies this`toolInvocations
      ensures (Abstract(), result) == Updated(old(Abstract()), project, invocation, status, decision, Refused(reason))
    {
      var found := UpdateInvocationStatus(project, invocation, status, decision);
      assert Updated(old(Abstract()), project, invocation, status, decision, Refused(reason)) ==
             (Abstract(), if found then Refused(reason) else Refused(InvocationMissing));
      result := Refused(if found then reason else InvocationMissing);
    }

    method ResumeApproval(wiring: Wiring, project: Id, id: Id, context: ToolContext) returns (result: Result)
      requires Valid()
      modifies this
      ensures Valid() && (Abstract(), result) == ResumeTool(wiring, old(Abstract()), project, id, context)
    {
      hide Inv;
      ResumeInv(wiring, Abstract(), project, id, context);
      hide ToolDecision, Updated, ToolResumed;
      if id !in toolTasks || toolTasks[id].project != project {
        return Refused(TaskNotFound);
      }
      var task := toolTasks[id];
      if task.status == Resumed {
        return Refused(AlreadyResumed);
      }
      if task.status != Approved {
        return Refused(NotApproved);
      }
      if task.expiresAt <= now {
        result := Conclude(project, task.invocation, Expired, Denied, TaskExpired);
        return;
      }
      if context.authorized.None? {
        result := Conclude(project, task.invocation, DeniedCall, Denied, NotAuthorized);
        return;
      }
      if !context.argumentsValid {
        result := Conclude(project, task.invocation, DeniedCall, Denied, InvalidArguments);
        return;
      }
      var tool := context.authorized.value;
      var decision := EvaluateTool(wiring, project, task.request, tool);
      if decision == Denied {
        result := Conclude(project, task.invocation, DeniedCall, Denied, PolicyDenied);
        return;
      }
      if context.server.None? {
        result := Conclude(project, task.invocation, Failed, Allowed, NoServer);
        return;
      }
      var server := context.server.value;
      if server.hasCredential && !(server.credentialActive && context.leaseGranted) {
        result := Conclude(project, task.invocation, Failed, Allowed, CredentialInactive);
        return;
      }
      result := CallApproved(project, id, context.authorized.value.risk, context.call);
    }

    /** The call itself, with the stored request, and the two writes that follow it. */
    method CallApproved(project: Id, id: Id, risk: RiskLevel, call: CallOutcome) returns (result: Result)
      requires id in toolTasks
      modifies this
      ensures (Abstract(), result) == ToolResumed(old(Abstract()), project, id, risk, call)
    {
      var task := toolTasks[id];
      log := log + [ToolEffect(Abstract(), project, task.request, risk, call, Some(id))];
      ghost var called := Abstract();
      var status := if call.CallFailed? || call.isError then Failed else Success;
      var found := UpdateInvocationStatus(project, task.invocation, status, Allowed);
      assert Updated(called, project, task.invocation, CallStatus(call), Allowed, CallResult(call)) ==
             (Abstract(), if found then CallResult(call) else Refused(InvocationMissing));
      if !found {
        return Refused(InvocationMissing);
      }
      toolTasks := toolTasks[id := toolTasks[id].(status := Resumed)];
      result := if call.CallFailed? then Refused(CallError) else Ran(status);
    }

    method DecideToolApproval(project: Id, id: Id, decision: TaskDecision) returns (result: Result)
      requires Valid()
      modifies this
      ensures Valid() && (Abstract(), result) == DecideTool(old(Abstract()), project, id, decision)
    {
      hide Inv;
      DecideInv(Abstract(), project, id, decision);
      if id !in toolTasks || toolTasks[id].project != project {
        return Refused(TaskNotFound);
      }
      var task := toolTasks[id];
      if task.status != Pending {
        return Refused(AlreadyDecided);
      }
      toolTasks := toolTasks[id := task.(status := StatusOf(decision), decision := Some(decision))];
      ghost var decided := Abstract();
      if decision == Reject || decision == Revoke {
        var status := if decision == Reject then DeniedCall else Cancelled;
        var found := UpdateInvocationStatus(project, task.invocation, status, Denied);
        assert Updated(decided, project, task.invocation, status, Denied, Decided) ==
               (Abstract(), if found then Decided else Refused(InvocationMissing));
        if !found {
          return Refused(InvocationMissing);
        }
      }
      result := Decided;
    }

    // --- Runtime approval store ---------------------------------------------------------------

    method DecideRuntimeApproval(project: Id, id: Id, decision: TaskDecision) returns (result: Result)
      requires Valid()
      modifies this`runtimeTasks
      ensures Valid() && (Abstract(), result) == DecideRuntime(old(Abstract()), project, id, decision)
    {
      hide Inv;
      DecideInv(Abstract(), project, id, decision);
      if id !in runtimeTasks || runtimeTasks[id].project != project {
        return Refused(TaskNotFound);
      }
      if runtimeTasks[id].status != Pending {
        return Refused(AlreadyDecided);
      }
      runtimeTasks := runtimeTasks[id := runtimeTasks[id].(status := StatusOf(decision), decision := Some(decision))];
      result := Decided;
    }

    /** Marks the approval of the project, or reports that there is none. */
    method MarkApprovalTaskResumed(project: Id, id: Id) returns (found: bool)
      modifies this`runtimeTasks
      ensures found <==> id in old(runtimeTasks) && old(runtimeTasks)[id].project == project
      ensures Abstract() == if found then MarkRuntimeResumed(old(Abstract()), id) else old(Abstract())
    {
      if id !in runtimeTasks || runtimeTasks[id].project != project {
        return false;
      }
      found := true;
      runtimeTasks := runtimeTasks[id := runtimeTasks[id].(status := Resumed)];
    }

    method ValidateRuntimeApproval(
      wiring: Wiring, project: Id, id: Id, shell: bool, targetRef: string, runId: string, nodeId: string)
      returns (refusal: Option<Refusal>)
      ensures refusal == CheckApproval(wiring, Abstract(), project, id, shell, targetRef, runId, nodeId)
      ensures refusal.None? <==> Approves(wiring, Abstract(), project, id, shell, targetRef, runId, nodeId)
    {
      if !wiring.runtimeStore {
        return Some(NoApprovalStore);
      }
      if id !in runtimeTasks || runtimeTasks[id].project != project {
        return Some(TaskNotFound);
      }
      var task := runtimeTasks[id];
      if task.status == Resumed {
        return Some(AlreadyResumed);
      }
      if task.status != Approved {
        return Some(NotApproved);
      }
      if task.expiresAt <= now {
        return Some(TaskExpired);
      }
      if task.payload.ShellPayload? != shell {
        return Some(KindMismatch);
      }
      if task.targetRef != targetRef {
        return Some(TargetMismatch);
      }
      if task.runId != "" && task.runId != runId {
        return Some(RunMismatch);
      }
      if task.nodeId != "" && task.nodeId != nodeId {
        return Some(NodeMismatch);
      }
      refusal := None;
    }

    // --- Shell gateway service ------------------------------------------------------------------

    method RecordOrUpdateShell(request: ShellRequest, status: InvocationStatus) returns (stored: Option<Refusal>)
      modifies this
      ensures forall result :: RecordShell(old(Abstract()), request, status, result) ==
                               (Abstract(), if stored.None? then result else Refused(stored.value))
    {
      if request.task.None? {
        shellInvocations := shellInvocations[nextId := RuntimeInvocation(request.project, request.templateRef, status)];
        nextId := nextId + 1;
        return None;
      }
      if request.task.value !in runtimeTasks {
        return Some(TaskNotFound);
      }
      var id := runtimeTasks[request.task.value].invocation;
      if id !in shellInvocations || shellInvocations[id].project != request.project {
        return Some(InvocationMissing);
      }
      shellInvocations := shellInvocations[id := shellInvocations[id].(status := status)];
      stored := None;
    }

    method CreatePendingShell(request: ShellRequest, template: Template) returns (result: Result)
      modifies this
      ensures (Abstract(), result) == ParkShell(old(Abstract()), request, template)
    {
      var invocation := nextId;
      shellInvocations :=
        shellInvocations[invocation := RuntimeInvocation(request.project, request.templateRef, AwaitingApproval)];
      nextId := nextId + 1;
      var id := nextId;
      runtimeTasks := runtimeTasks[id := RuntimeTask(request.project, request.templateRef, invocation, request.runId,
        request.nodeId, template.risk, ShellPayload(request), Pending, None, now, now + RUNTIME_TASK_SECONDS)];
      nextId := nextId + 1;
      result := Parked(id);
    }

    method RunShellTemplate(wiring: Wiring, request: ShellRequest, context: ShellContext) returns (result: Result)
      requires Valid()
      modifies this
      ensures Valid() && (Abstract(), result) == RunShell(wiring, old(Abstract()), request, context)
    {
      hide Inv;
      ShellInv(wiring, Abstract(), request, context);
      hide CheckApproval, ShellDecision, ShellAllowed, ShellDenied, LiveRules, RecordShell, ParkShell, ShellExecuted;
      if context.template.None? {
        return Refused(TemplateNotFound);
      }
      var template := context.template.value;
      if template.environment != request.environment || !context.executable {
        return Refused(NotExecutable);
      }
      if !context.parametersValid {
        return Refused(InvalidArguments);
      }
      if request.task.Some? {
        var refusal := ValidateRuntimeApproval(
          wiring, request.project, request.task.value, true, request.templateRef, request.runId, request.nodeId);
        if refusal.Some? {
          return Refused(refusal.value);
        }
      }
      var decision := EvaluateShell(wiring, request, template);
      if decision == ApprovalRequired && request.task.None? {
        if !wiring.runtimeStore {
          return Refused(NoApprovalStore);
        }
        result := CreatePendingShell(request, template);
        return;
      }
      if decision == Denied {
        result := DenyShell(request);
        return;
      }
      result := ExecuteShell(request, template.risk, context.run);
    }

    method DenyShell(request: ShellRequest) returns (result: Result)
      modifies this
      ensures (Abstract(), result) == RecordShell(old(Abstract()), request, DeniedCall, Ran(DeniedCall))
    {
      hide RecordShell;
      ghost var before := Abstract();
      var stored := RecordOrUpdateShell(request, DeniedCall);
      assert RecordShell(before, request, DeniedCall, Ran(DeniedCall)) ==
             (Abstract(), if stored.None? then Ran(DeniedCall) else Refused(stored.value));
      result := if stored.None? then Ran(DeniedCall) else Refused(stored.value);
    }

    /** The run, recorded with its outcome, and the use of the approval. */
    method ExecuteShell(request: ShellRequest, risk: RiskLevel, run: ShellOutcome) returns (result: Result)
      requires request.task.Some? ==>
               request.task.value in runtimeTasks && runtimeTasks[request.task.value].project == request.project
      modifies this
      ensures (Abstract(), result) == ShellExecuted(old(Abstract()), request, risk, run)
    {
      hide RecordShell;
      log := log + [ShellEffect(Abstract(), request, risk, run)];
      var status := ShellStatus(run);
      ghost var called := Abstract();
      var stored := RecordOrUpdateShell(request, status);
      assert RecordShell(called, request, status, Ran(status)) ==
             (Abstract(), if stored.None? then Ran(status) else Refused(stored.value));
      if stored.Some? {
        return Refused(stored.value);
      }
      if request.task.Some? {
        ResumableShell(called, request, status);
        var found := MarkApprovalTaskResumed(request.project, request.task.value);
      }
      result := Ran(status);
    }

    method EvaluateShell(wiring: Wiring, request: ShellRequest, template: Template) returns (decision: Decision)
      ensures decision == ShellDecision(wiring, Abstract(), request, template)
      ensures decision == Allowed <==> ShellAllowed(wiring, LiveRules(Abstract(), request.project), request, template)
      ensures decision == Denied <==> ShellDenied(wiring, LiveRules(Abstract(), request.project), request, template)
    {
      hide Evaluate, ShellAllowed, ShellDenied, LiveRules;
      ShellDecidedByFields(wiring, Abstract(), request, template);
      if !wiring.evaluator {
        return if IsHigh(template.risk) then ApprovalRequired else Allowed;
      }
      var policy := policies.LoadPublished(Versions.PolicyKey(request.project, "default"));
      decision := Evaluate(policy, ShellQuestion(request, template)).decision;
    }

    method ResumeShellApproval(wiring: Wiring, project: Id, id: Id, context: ShellContext) returns (result: Result)
      requires Valid()
      modifies this
      ensures Valid() && (Abstract(), result) == ResumeShell(wiring, old(Abstract()), project, id, context)
    {
      hide Inv;
      ShellResumeInv(wiring, Abstract(), project, id, context);
      hide RunShell;
      if !wiring.runtimeStore {
        return Refused(NoApprovalStore);
      }
      if id !in runtimeTasks || runtimeTasks[id].project != project {
        return Refused(TaskNotFound);
      }
      if !runtimeTasks[id].payload.ShellPayload? {
        return Refused(BadPayload);
      }
      result := RunShellTemplate(wiring, runtimeTasks[id].payload.shell.(task := Some(id)), context);
      if result == Ran(DeniedCall) {
        result := Refused(PolicyDenied);
      }
    }

    // --- Model gateway service --------------------------------------------------------------------

    method RecordModelInvocation(request: ModelRequest, status: InvocationStatus)
      modifies this
      ensures Abstract() == RecordModel(old(Abstract()), request, status)
    {
      var row := RuntimeInvocation(request.project, request.policyRef, status);
      if request.task.Some? && request.task.value in runtimeTasks {
        modelInvocations := modelInvocations[runtimeTasks[request.task.value].invocation := row];
      } else {
        modelInvocations := modelInvocations[nextId := row];
        nextId := nextId + 1;
      }
    }

    method EvaluateModel(wiring: Wiring, request: ModelRequest) returns (decision: Decision)
      ensures decision == ModelDecision(wiring, Abstract(), request)
      ensures decision == ApprovalRequired <==>
              ModelSays(wiring, LiveRules(Abstract(), request.project), request, RequireApproval)
      ensures decision == Denied <==> ModelSays(wiring, LiveRules(Abstract(), request.project), request, Deny)
    {
      hide Evaluate, ModelSays, LiveRules;
      ModelDecidedByFields(wiring, Abstract(), request);
      if !wiring.evaluator {
        return Allowed;
      }
      var policy := policies.LoadPublished(Versions.PolicyKey(request.project, "default"));
      decision := Evaluate(policy, ModelQuestion(request)).decision;
    }

    /** Parks a model call; without an approval store the waiting invocation is all that remains. */
    method CreatePendingModel(wiring: Wiring, request: ModelRequest) returns (result: Result)
      requires request.task.None?
      modifies this
      ensures (Abstract(), result) == ParkModel(wiring, old(Abstract()), request)
    {
      var invocation := nextId;
      RecordModelInvocation(request, AwaitingApproval);
      if !wiring.runtimeStore {
        return Refused(NoApprovalStore);
      }
      var id := nextId;
      runtimeTasks := runtimeTasks[id := RuntimeTask(request.project, request.policyRef, invocation, request.runId,
        request.nodeId, Medium, ModelPayload(request), Pending, None, now, now + RUNTIME_TASK_SECONDS)];
      nextId := nextId + 1;
      result := Parked(id);
    }

    method RunNode(wiring: Wiring, request: ModelRequest, context: ModelContext) returns (result: Result)
      requires Valid()
      modifies this
      ensures Valid() && (Abstract(), result) == RunModel(wiring, old(Abstract()), request, context)
    {
      hide Inv;
      ModelInv(wiring, Abstract(), request, context);
      hide CheckApproval, ModelDecision, ModelCalled, ParkModel, RecordModel;
      if !context.nodeValid {
        return Refused(NodeInvalid);
      }
      if !context.policyFound {
        return Refused(ModelPolicyMissing);
      }
      if !context.providerSupported {
        return Refused(ProviderUnsupported);
      }
      if request.task.Some? {
        var refusal := ValidateRuntimeApproval(
          wiring, request.project, request.task.value, false, request.policyRef, request.runId, request.nodeId);
        if refusal.Some? {
          return Refused(refusal.value);
        }
      }
      var decision := EvaluateModel(wiring, request);
      if decision == ApprovalRequired && request.task.None? {
        result := CreatePendingModel(wiring, request);
        return;
      }
      if decision == Denied {
        RecordModelInvocation(request, DeniedCall);
        return Refused(PolicyDenied);
      }
      if !context.promptFound {
        return Refused(PromptMissing);
      }
      if !context.withinBudget {
        RecordModelInvocation(request, BudgetExceeded);
        return Refused(OverBudget);
      }
      result := CallModel(request, context.call);
    }

    /** The call, recorded with its outcome, and the use of the approval by a success. */
    method CallModel(request: ModelRequest, call: ModelOutcome) returns (result: Result)
      requires request.task.Some? ==>
               request.task.value in runtimeTasks && runtimeTasks[request.task.value].project == request.project
      modifies this
      ensures (Abstract(), result) == ModelCalled(old(Abstract()), request, call)
    {
      log := log + [ModelEffect(Abstract(), request, call)];
      RecordModelInvocation(request, ModelStatus(call));
      if call.ModelFailed? {
        return Refused(CallError);
      }
      if !call.schemaValid {
        return Refused(OutputInvalid);
      }
      if request.task.Some? {
        var found := MarkApprovalTaskResumed(request.project, request.task.value);
      }
      result := Ran(Success);
    }
  }

  /** What holds of a gateway object between any two calls. */
  lemma PromisesKept(gateways: Gateways)
    requires gateways.Valid()
    ensures var s := gateways.Abstract();
            && (forall i | 0 <= i < |s.log| :: CarriedByApproval(s, s.log[i]))
            && (forall ref :: UsedAtMostOnce(s, ref))
            && RowsFollowTasks(s)
  {
    hide Inv, CarriedByApproval, UsedAtMostOnce, RowsFollowTasks;
    var s := gateways.Abstract();
    forall i | 0 <= i < |s.log|
      ensures CarriedByApproval(s, s.log[i])
    {
      CarriedByApprovalIn(s, i);
    }
    forall ref
      ensures UsedAtMostOnce(s, ref)
    {
      UsedAtMostOnceIn(s, ref);
    }
    RowsFollowTasksIn(s);
  }

  // --- The invariant after each call --------------------------------------------------------------

  lemma InvokeInv(wiring: Wiring, s: State, project: Id, request: ToolRequest, context: ToolContext)
    requires Inv(s)
    ensures Inv(InvokeTool(wiring, s, project, request, context).0)
  {
    hide Inv, InvokeTool;
    InvokeToolKeeps(wiring, s, project, request, context);
  }

  lemma ResumeInv(wiring: Wiring, s: State, project: Id, id: Id, context: ToolContext)
    requires Inv(s)
    ensures Inv(ResumeTool(wiring, s, project, id, context).0)
  {
    hide Inv, ResumeTool;
    ResumeToolKeeps(wiring, s, project, id, context);
  }

  lemma DecideInv(s: State, project: Id, id: Id, decision: TaskDecision)
    requires Inv(s)
    ensures Inv(DecideTool(s, project, id, decision).0) && Inv(DecideRuntime(s, project, id, decision).0)
  {
    hide Inv, DecideTool, DecideRuntime;
    DecideToolKeeps(s, project, id, decision);
    DecideRuntimeKeeps(s, project, id, decision);
  }

  lemma ShellInv(wiring: Wiring, s: State, request: ShellRequest, context: ShellContext)
    requires Inv(s)
    ensures Inv(RunShell(wiring, s, request, context).0)
  {
    hide Inv, RunShell;
    RunShellKeeps(wiring, s, request, context);
  }

  lemma ShellResumeInv(wiring: Wiring, s: State, project: Id, id: Id, context: ShellContext)
    requires Inv(s)
    ensures Inv(ResumeShell(wiring, s, project, id, context).0)
  {
    hide Inv, ResumeShell;
    ResumeShellKeeps(wiring, s, project, id, context);
  }

  lemma ModelInv(wiring: Wiring, s: State, request: ModelRequest, context: ModelContext)
    requires Inv(s)
    ensures Inv(RunModel(wiring, s, request, context).0)
  {
    hide Inv, RunModel;
    RunModelKeeps(wiring, s, request, context);
  }

  lemma ResumableShell(s: State, request: ShellRequest, status: InvocationStatus)
    requires request.task.Some? && RecordShell(s, request, status, Ran(status)).1 == Ran(status)
    ensures request.task.value in s.runtimeTasks
    ensures RecordShell(s, request, status, Ran(status)).0.runtimeTasks == s.runtimeTasks
  {}
}
