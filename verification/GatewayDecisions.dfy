/** What the three gateways do, told from the rows of the policy table, the fields of their rules and the fields of the
    request only. */
module GatewayDecisions {
  import opened Common
  import opened PolicyRules
  import opened ApprovalState
  import opened ApprovalInvariant
  import opened ApprovalTheorems
  import Versions = PolicyVersions

  // --- Which rules bind ---------------------------------------------------------------------------

  /** A published row of the project's default policy that no published one outranks. */
  ghost predicate Serves(rows: seq<Versions.VersionRow>, project: Id, i: nat) {
    && i < |rows| && rows[i].key == Versions.PolicyKey(project, "default") && rows[i].status == Versions.Published
    && forall j | 0 <= j < |rows| && rows[j].key == rows[i].key && rows[j].status == Versions.Published ::
         rows[j].version <= rows[i].version
  }

  /** The rules of the published default policy of the project, none when nothing is published. */
  ghost predicate Binding(rows: seq<Versions.VersionRow>, project: Id, rules: seq<Rule>) {
    || (exists i: nat :: Serves(rows, project, i) && rows[i].rules == rules)
    || (rules == [] && forall i | 0 <= i < |rows| ::
                         rows[i].key == Versions.PolicyKey(project, "default") ==> rows[i].status != Versions.Published)
  }

  function LiveRules(s: State, project: Id): seq<Rule> {
    if LivePolicy(s, project).Some? then LivePolicy(s, project).value.rules else []
  }

  /** In every run exactly one list of rules binds a project. */
  lemma {:induction false} OneBinding(start: int, steps: seq<Step>, project: Id, rules: seq<Rule>)
    ensures var s := After(Start(start), steps);
            Binding(s.policies, project, rules) <==> rules == LiveRules(s, project)
  {
    hide After, Binding;
    PoliciesInv(Start(start), steps);
    OneBindingIn(After(Start(start), steps), project, rules);
  }

  lemma {:induction false} ToolKeepsPolicies(
    wiring: Wiring, s: State, project: Id, request: ToolRequest, id: Id, context: ToolContext)
    ensures InvokeTool(wiring, s, project, request, context).0.policies == s.policies
    ensures ResumeTool(wiring, s, project, id, context).0.policies == s.policies
  {
    hide ToolDecision, CredentialUsable, CanRecord, CallIdOf, ToolEffect, CallStatus, CallResult;
  }

  lemma {:induction false} ShellKeepsPolicies(wiring: Wiring, s: State, request: ShellRequest, context: ShellContext)
    ensures RunShell(wiring, s, request, context).0.policies == s.policies
  {
    hide ShellDecision, CheckApproval, ShellEffect, ShellStatus;
  }

  lemma {:induction false} ModelKeepsPolicies(wiring: Wiring, s: State, request: ModelRequest, context: ModelContext)
    ensures RunModel(wiring, s, request, context).0.policies == s.policies
  {
    hide ModelDecision, CheckApproval, ModelEffect, ModelStatus;
    if request.task.Some? {
      CheckApprovalIff(
        wiring, s, request.project, request.task.value, false, request.policyRef, request.runId, request.nodeId);
    }
  }

  /** Only policy changes touch the policy table. */
  lemma {:induction false} PoliciesNext(s: State, step: Step)
    ensures Take(s, step).0.policies ==
            if step.PolicyChange? then Versions.Next(s.policies, step.change) else s.policies
  {
    hide InvokeTool, ResumeTool, RunShell, RunModel, Versions.Next;
    match step {
      case ToolInvoke(wiring, project, request, context) => ToolKeepsPolicies(wiring, s, project, request, 0, context);
      case ToolResume(wiring, project, task, context) =>
        ToolKeepsPolicies(wiring, s, project, ToolRequest("", [], "", None), task, context);
      case ShellStart(wiring, request, context) => ShellKeepsPolicies(wiring, s, request, context);
      case ShellResume(wiring, project, task, context) =>
        if task in s.runtimeTasks && s.runtimeTasks[task].payload.ShellPayload? {
          ShellKeepsPolicies(wiring, s, s.runtimeTasks[task].payload.shell.(task := Some(task)), context);
        }
      case ModelStart(wiring, request, context) => ModelKeepsPolicies(wiring, s, request, context);
      case ToolDecide(_, _, _) =>
      case RuntimeDecide(_, _, _) =>
      case PolicyChange(_) =>
      case Tick(_) =>
    }
  }

  lemma {:induction false} PoliciesInv(s: State, steps: seq<Step>)
    requires Versions.Inv(s.policies)
    ensures Versions.Inv(After(s, steps).policies)
    decreases |steps|
  {
    hide Take, Versions.Inv;
    if steps != [] {
      PoliciesNext(s, steps[0]);
      if steps[0].PolicyChange? {
        Versions.StepKeepsInv(s.policies, steps[0].change);
      }
      PoliciesInv(Take(s, steps[0]).0, steps[1..]);
    }
  }

  lemma {:induction false} OneBindingIn(s: State, project: Id, rules: seq<Rule>)
    requires Versions.OnePublished(s.policies)
    ensures Binding(s.policies, project, rules) <==> rules == LiveRules(s, project)
  {
    hide Versions.Latest;
    var rows, key := s.policies, Versions.PolicyKey(project, "default");
    var found := Versions.Latest(rows, key);
    if found.Some? {
      assert Versions.IsLive(rows, key, found.value) && Serves(rows, project, found.value);
      forall i: nat | Serves(rows, project, i)
        ensures i == found.value
      {
        assert Versions.IsLive(rows, key, i);
      }
    }
  }

  // --- Which rule decides ---------------------------------------------------------------------------

  predicate Fits(refs: seq<string>, ref: string) { refs == [] || exists i :: 0 <= i < |refs| && refs[i] == ref }

  /** A rule for this tool at this risk, or for one of the groups the request names. A tool call has no environment. */
  predicate ConcernsTool(rule: Rule, toolRef: string, toolGroups: seq<string>, risk: RiskLevel) {
    && rule.kind == ToolInvocation && risk in rule.risks
    && Fits(rule.scope.tools, toolRef)
    && (rule.scope.toolGroups == [] || exists g :: g in toolGroups && g in rule.scope.toolGroups)
    && Fits(rule.scope.shellTemplates, "") && Fits(rule.scope.modelPolicies, "") && Fits(rule.scope.environments, "")
  }

  predicate ConcernsShell(rule: Rule, templateRef: string, environment: string, risk: RiskLevel) {
    && rule.kind == ShellExecution && risk in rule.risks
    && Fits(rule.scope.shellTemplates, templateRef) && Fits(rule.scope.environments, environment)
    && rule.scope.toolGroups == [] && Fits(rule.scope.tools, "") && Fits(rule.scope.modelPolicies, "")
  }

  predicate ConcernsModel(rule: Rule, policyRef: string) {
    && rule.kind == ModelInvocation && Medium in rule.risks
    && Fits(rule.scope.modelPolicies, policyRef)
    && rule.scope.toolGroups == [] && Fits(rule.scope.tools, "") && Fits(rule.scope.shellTemplates, "")
    && Fits(rule.scope.environments, "")
  }

  /** The first rule that concerns the request says so. */
  ghost predicate Says(rules: seq<Rule>, concerns: Rule -> bool, action: Action) {
    exists i :: 0 <= i < |rules| && concerns(rules[i]) && rules[i].action == action
                && forall j | 0 <= j < i :: !concerns(rules[j])
  }

  ghost predicate Silent(rules: seq<Rule>, concerns: Rule -> bool) {
    forall i | 0 <= i < |rules| :: !concerns(rules[i])
  }

  lemma {:induction false} SaysOneThing(rules: seq<Rule>, concerns: Rule -> bool)
    ensures Silent(rules, concerns) || exists action :: Says(rules, concerns, action)
    ensures forall a, b | Says(rules, concerns, a) && Says(rules, concerns, b) :: a == b
    ensures forall a | Says(rules, concerns, a) :: !Silent(rules, concerns)
  {
    if !Silent(rules, concerns) {
      var i := 0;
      while !concerns(rules[i])
        invariant 0 <= i < |rules| && (forall j | 0 <= j < i :: !concerns(rules[j]))
        invariant exists k :: i <= k < |rules| && concerns(rules[k])
        decreases |rules| - i
      {
        i := i + 1;
      }
      assert Says(rules, concerns, rules[i].action);
    }
  }

  lemma {:induction false} DecidedByFields(
    policy: Option<Policy>, request: Request, rules: seq<Rule>, concerns: Rule -> bool)
    requires rules == if policy.Some? then policy.value.rules else []
    requires forall rule :: RuleMatches(rule, request) <==> concerns(rule)
    ensures var decision := Evaluate(policy, request).decision;
            && (decision == Denied <==> Says(rules, concerns, Deny))
            && (decision == Allowed <==>
                  !IsHigh(request.risk)
                  && (Says(rules, concerns, Allow) || (Silent(rules, concerns) && !request.defaultApproval)))
  {
    hide RuleMatches, Evaluate;
    EvaluateMeaning(policy, request);
    forall i, action | Decides(rules, i, request) && rules[i].action == action
      ensures Says(rules, concerns, action)
    {}
    forall action | Says(rules, concerns, action)
      ensures exists i :: Decides(rules, i, request) && rules[i].action == action
    {
      var i :| 0 <= i < |rules| && concerns(rules[i]) && rules[i].action == action
                && forall j | 0 <= j < i :: !concerns(rules[j]);
      assert Decides(rules, i, request);
    }
  }

  // --- Tools ------------------------------------------------------------------------------------------

  lemma {:induction false} ToolAsks(rule: Rule, request: ToolRequest, tool: AuthorizedTool)
    ensures RuleMatches(rule, ToolQuestion(request, tool)) <==>
            ConcernsTool(rule, request.toolRef, request.toolGroups, tool.risk)
  {
    assert rule.scope.toolGroups == [] || (Meets(rule.scope.toolGroups, request.toolGroups) <==>
           exists g :: g in request.toolGroups && g in rule.scope.toolGroups);
  }

  /** Allowed without anybody's approval. */
  ghost predicate ToolAllowed(wiring: Wiring, rules: seq<Rule>, request: ToolRequest, tool: AuthorizedTool) {
    var concerns := rule => ConcernsTool(rule, request.toolRef, request.toolGroups, tool.risk);
    && !IsHigh(tool.risk)
    && if wiring.evaluator
       then Says(rules, concerns, Allow) || (Silent(rules, concerns) && !tool.approvalRequired)
       else !tool.approvalRequired
  }

  ghost predicate ToolDenied(wiring: Wiring, rules: seq<Rule>, request: ToolRequest, tool: AuthorizedTool) {
    wiring.evaluator
    && Says(rules, rule => ConcernsTool(rule, request.toolRef, request.toolGroups, tool.risk), Deny)
  }

  lemma {:induction false} ToolDecidedByFields(
    wiring: Wiring, s: State, project: Id, request: ToolRequest, tool: AuthorizedTool)
    ensures ToolDecision(wiring, s, project, request, tool) == Allowed <==>
            ToolAllowed(wiring, LiveRules(s, project), request, tool)
    ensures ToolDecision(wiring, s, project, request, tool) == Denied <==>
            ToolDenied(wiring, LiveRules(s, project), request, tool)
  {
    hide RuleMatches, ConcernsTool, Evaluate, LivePolicy, Says, Silent;
    var concerns := rule => ConcernsTool(rule, request.toolRef, request.toolGroups, tool.risk);
    forall rule
      ensures RuleMatches(rule, ToolQuestion(request, tool)) <==> concerns(rule)
    {
      ToolAsks(rule, request, tool);
    }
    DecidedByFields(LivePolicy(s, project), ToolQuestion(request, tool), LiveRules(s, project), concerns);
  }

  predicate Reachable(context: ToolContext) {
    && context.server.Some?
    && (context.server.value.hasCredential ==> context.server.value.credentialActive && context.leaseGranted)
  }

  predicate Fitting(context: ToolContext) { context.authorized.Some? && context.argumentsValid }

  /** In every run a fresh invocation calls the tool exactly when nobody needs to approve it and the server can be
      reached, and then with the tool and the arguments of the request. */
  lemma {:induction false} ToolCalledWhen(start: int, steps: seq<Step>, wiring: Wiring, project: Id,
    request: ToolRequest, context: ToolContext, rules: seq<Rule>)
    requires Binding(After(Start(start), steps).policies, project, rules)
    ensures var s := After(Start(start), steps);
            InvokeTool(wiring, s, project, request, context).0.log == s.log +
            if Fitting(context) && ToolAllowed(wiring, rules, request, context.authorized.value) && Reachable(context)
            then [ToolCall(project, request.toolRef, request.arguments,
                    if context.call == Returned(false) then Success else Failed,
                    context.authorized.value.risk, None, s.now)]
            else []
  {
    hide After, Binding, InvokeTool, LiveRules, ToolAllowed, ToolDenied, ToolDecision;
    var s := After(Start(start), steps);
    OneBinding(start, steps, project, rules);
    if context.authorized.Some? {
      ToolDecidedByFields(wiring, s, project, request, context.authorized.value);
    }
    ToolInvokeCallsIff(wiring, s, project, request, context);
  }

  /** In every run a tool that is marked as requiring approval is called by a fresh invocation only when an evaluator is
      wired and the first rule of the published policy that concerns the call allows it, and never at high risk. */
  lemma {:induction false} MarkedToolNeedsAllowRule(
    start: int, steps: seq<Step>, wiring: Wiring, project: Id, request: ToolRequest, context: ToolContext)
    requires context.authorized.Some? && context.authorized.value.approvalRequired
    requires var s := After(Start(start), steps);
             InvokeTool(wiring, s, project, request, context).0.log != s.log
    ensures var (rows, risk) := (After(Start(start), steps).policies, context.authorized.value.risk);
            && wiring.evaluator && !IsHigh(risk)
            && exists i: nat :: Serves(rows, project, i)
                 && Says(rows[i].rules, rule => ConcernsTool(rule, request.toolRef, request.toolGroups, risk), Allow)
  {
    var s := After(Start(start), steps);
    OneBinding(start, steps, project, LiveRules(s, project));
    ToolCalledWhen(start, steps, wiring, project, request, context, LiveRules(s, project));
    hide After, InvokeTool, LiveRules, ConcernsTool, Serves;
  }

  /** The request names a call id that the project already has. */
  ghost predicate CallIdUsed(s: State, project: Id, request: ToolRequest) {
    request.callId.Some? && exists id :: id in s.toolInvocations && s.toolInvocations[id].project == project
                                         && s.toolInvocations[id].callId == Given(request.callId.value)
  }

  lemma {:induction false} CanRecordIff(start: int, steps: seq<Step>, project: Id, request: ToolRequest)
    ensures var s := After(Start(start), steps);
            CanRecord(s, project, request) <==> !CallIdUsed(s, project, request)
  {
    hide After;
    if request.callId.None? {
      GeneratedIdsAreFree(start, steps, project, request);
    }
  }

  /** In every run a fresh invocation is parked exactly when it fits, is neither allowed nor denied and its call id is
      free: with the whole request, for 24 hours. */
  lemma {:induction false} ToolParkedWhen(start: int, steps: seq<Step>, wiring: Wiring, project: Id,
    request: ToolRequest, context: ToolContext, rules: seq<Rule>)
    requires Binding(After(Start(start), steps).policies, project, rules)
    ensures var s := After(Start(start), steps);
            var (after, result) := InvokeTool(wiring, s, project, request, context);
            if && Fitting(context) && !CallIdUsed(s, project, request)
               && !ToolAllowed(wiring, rules, request, context.authorized.value)
               && !ToolDenied(wiring, rules, request, context.authorized.value)
            then
              && result == Parked(s.nextId + 1)
              && after.toolTasks == s.toolTasks[s.nextId + 1 := ToolTask(project, s.nextId, request,
                   context.authorized.value.risk, Pending, None, s.now, s.now + 24 * 60 * 60)]
            else !result.Parked? && after.toolTasks == s.toolTasks
  {
    hide After, Binding, LiveRules, ToolAllowed, ToolDenied, ToolDecision, CanRecord, CallIdUsed, CredentialUsable,
      ToolEffect, CallStatus, CallIdOf;
    OneBinding(start, steps, project, rules);
    CanRecordIff(start, steps, project, request);
    if context.authorized.Some? {
      ToolDecidedByFields(wiring, After(Start(start), steps), project, request, context.authorized.value);
    }
  }

  lemma {:induction false} InvokeLeaves(
    wiring: Wiring, s: State, project: Id, request: ToolRequest, context: ToolContext)
    ensures var (after, result) := InvokeTool(wiring, s, project, request, context);
            var decision := if Fitting(context) then ToolDecision(wiring, s, project, request, context.authorized.value)
                            else Denied;
            var status := if decision == Denied then DeniedCall
                          else if decision == ApprovalRequired then AwaitingApproval
                          else if Reachable(context) && context.call == Returned(false) then Success
                          else Failed;
            if !CanRecord(s, project, request)
            then result == Refused(StoreConflict) && after.toolInvocations == s.toolInvocations
            else after.toolInvocations == s.toolInvocations[s.nextId :=
                   ToolInvocationRow(project, request.toolRef, CallIdOf(request, s.nextId), status, decision)]
  {
    hide ToolDecision, CallIdOf, Taken, ToolEffect;
  }

  /** In every run a fresh invocation leaves one row under its call id that shows what came of it, or none when the call
      id is in use. */
  lemma {:induction false} ToolRecordedWhen(start: int, steps: seq<Step>, wiring: Wiring, project: Id,
    request: ToolRequest, context: ToolContext, rules: seq<Rule>)
    requires Binding(After(Start(start), steps).policies, project, rules)
    ensures var s := After(Start(start), steps);
            var (after, result) := InvokeTool(wiring, s, project, request, context);
            if CallIdUsed(s, project, request) then
              result == Refused(StoreConflict) && after.toolInvocations == s.toolInvocations
            else
              && s.nextId in after.toolInvocations
              && var row := after.toolInvocations[s.nextId];
              && after.toolInvocations == s.toolInvocations[s.nextId := row]
              && row.project == project && row.toolRef == request.toolRef
              && row.callId ==
                 (if request.callId.Some? then Given(request.callId.value) else Generated(s.nextId))
              && if !Fitting(context) || ToolDenied(wiring, rules, request, context.authorized.value) then
                   row.status == DeniedCall && row.decision == Denied
                 else if !ToolAllowed(wiring, rules, request, context.authorized.value) then
                   row.status == AwaitingApproval && row.decision == ApprovalRequired
                 else
                   && row.decision == Allowed
                   && row.status == if Reachable(context) && context.call == Returned(false) then Success else Failed
  {
    hide After, Binding, LiveRules, ToolAllowed, ToolDenied, ToolDecision, CanRecord, CallIdUsed, InvokeTool;
    var s := After(Start(start), steps);
    OneBinding(start, steps, project, rules);
    CanRecordIff(start, steps, project, request);
    if context.authorized.Some? {
      ToolDecidedByFields(wiring, s, project, request, context.authorized.value);
    }
    InvokeLeaves(wiring, s, project, request, context);
  }

  /** In every run a resume calls the tool exactly when the approval is usable, the stored request still fits, no rule
      published since denies it and the server can be reached, and then with the stored tool and arguments. */
  lemma {:induction false} ToolResumedWhen(start: int, steps: seq<Step>, wiring: Wiring, project: Id, id: Id,
    context: ToolContext, rules: seq<Rule>)
    requires Binding(After(Start(start), steps).policies, project, rules)
    ensures var s := After(Start(start), steps);
            ResumeTool(wiring, s, project, id, context).0.log == s.log +
            if && id in s.toolTasks && s.toolTasks[id].project == project && s.toolTasks[id].status == Approved
               && s.now < s.toolTasks[id].expiresAt && Fitting(context) && Reachable(context)
               && !ToolDenied(wiring, rules, s.toolTasks[id].request, context.authorized.value)
            then [ToolCall(project, s.toolTasks[id].request.toolRef, s.toolTasks[id].request.arguments,
                    if context.call == Returned(false) then Success else Failed,
                    context.authorized.value.risk, Some(id), s.now)]
            else []
  {
    hide After, Binding, ResumeTool, LiveRules, ToolAllowed, ToolDenied, ToolDecision;
    var s := After(Start(start), steps);
    OneBinding(start, steps, project, rules);
    if context.authorized.Some? && id in s.toolTasks {
      ToolDecidedByFields(wiring, s, project, s.toolTasks[id].request, context.authorized.value);
    }
    ToolResumeEffect(wiring, s, project, id, context);
  }

  /** A decision on a pending task of the project is written on the task; a rejection also denies the invocation and a
      revocation cancels it, an approval leaves it waiting. Nothing else changes, and any other decision is refused. */
  lemma {:induction false} ToolDecisionWrites(
    start: int, steps: seq<Step>, project: Id, id: Id, decision: TaskDecision)
    ensures var s := After(Start(start), steps);
            var (after, result) := DecideTool(s, project, id, decision);
            if id !in s.toolTasks || s.toolTasks[id].project != project then
              (after, result) == (s, Refused(TaskNotFound))
            else if s.toolTasks[id].status != Pending then (after, result) == (s, Refused(AlreadyDecided))
            else
              && result == Decided && s.toolTasks[id].invocation in s.toolInvocations
              && var (task, row) := (s.toolTasks[id], s.toolInvocations[s.toolTasks[id].invocation]);
              && after == s.(
                   toolTasks := s.toolTasks[id := task.(
                     status :=
                       if decision == Approve then Approved else if decision == Reject then Rejected else Revoked,
                     decision := Some(decision))],
                   toolInvocations := s.toolInvocations[task.invocation :=
                     if decision == Approve then row
                     else if decision == Reject then row.(status := DeniedCall, decision := Denied)
                     else row.(status := Cancelled, decision := Denied)])
  {
    hide After, LogInv, IdsBelow, ToolRowFits;
    ReachableInv(start, steps);
    var s := After(Start(start), steps);
    assert id in s.toolTasks ==> ToolTaskOk(s, id, s.toolTasks[id]);
    hide Inv, Tables;
    if id in s.toolTasks {
      var inv := s.toolTasks[id].invocation;
      assert s.toolInvocations[inv := s.toolInvocations[inv]] == s.toolInvocations;
    }
  }

  // --- Shell templates ----------------------------------------------------------------------------------

  ghost predicate ShellAllowed(wiring: Wiring, rules: seq<Rule>, request: ShellRequest, template: Template) {
    var concerns := rule => ConcernsShell(rule, request.templateRef, template.environment, template.risk);
    !IsHigh(template.risk) && (wiring.evaluator ==> Says(rules, concerns, Allow) || Silent(rules, concerns))
  }

  ghost predicate ShellDenied(wiring: Wiring, rules: seq<Rule>, request: ShellRequest, template: Template) {
    wiring.evaluator
    && Says(rules, rule => ConcernsShell(rule, request.templateRef, template.environment, template.risk), Deny)
  }

  lemma {:induction false} ShellDecidedByFields(wiring: Wiring, s: State, request: ShellRequest, template: Template)
    ensures ShellDecision(wiring, s, request, template) == Allowed <==>
            ShellAllowed(wiring, LiveRules(s, request.project), request, template)
    ensures ShellDecision(wiring, s, request, template) == Denied <==>
            ShellDenied(wiring, LiveRules(s, request.project), request, template)
  {
    hide Evaluate, LivePolicy, Says, Silent;
    var concerns := rule => ConcernsShell(rule, request.templateRef, template.environment, template.risk);
    DecidedByFields(
      LivePolicy(s, request.project), ShellQuestion(request, template), LiveRules(s, request.project), concerns);
  }

  predicate Runnable(request: ShellRequest, context: ShellContext) {
    && context.template.Some? && context.template.value.environment == request.environment
    && context.executable && context.parametersValid
  }

  /** In every run a shell start runs the template exactly when the request is runnable and nobody needs to approve it,
      or when it presents a fitting approval and no rule denies it. */
  lemma {:induction false} ShellRunWhen(start: int, steps: seq<Step>, wiring: Wiring, request: ShellRequest,
    context: ShellContext, rules: seq<Rule>)
    requires Binding(After(Start(start), steps).policies, request.project, rules)
    ensures var s := After(Start(start), steps);
            RunShell(wiring, s, request, context).0.log == s.log +
            if && Runnable(request, context)
               && if request.task.None? then ShellAllowed(wiring, rules, request, context.template.value)
                  else Approves(wiring, s, request.project, request.task.value, true, request.templateRef,
                         request.runId, request.nodeId)
                       && !ShellDenied(wiring, rules, request, context.template.value)
            then [ShellRun(request.project, request.templateRef, request.parameters, request.runId, request.nodeId,
                    if context.run == Exited(0) then Success
                    else if context.run == RanOutOfTime then TimedOut
                    else Failed,
                    context.template.value.risk, request.task, s.now)]
            else []
  {
    hide After, Binding, RunShell, LiveRules, ShellAllowed, ShellDenied, ShellDecision, Approves;
    var s := After(Start(start), steps);
    OneBinding(start, steps, request.project, rules);
    if context.template.Some? {
      ShellDecidedByFields(wiring, s, request, context.template.value);
    }
    ShellRunsIff(wiring, s, request, context);
  }

  lemma ShellWritesNoTask(s: State, request: ShellRequest, risk: RiskLevel, run: ShellOutcome)
    ensures forall status :: var (after, result) := RecordShell(s, request, status, Ran(status));
                             after.runtimeTasks == s.runtimeTasks && !result.Parked?
    ensures var (after, result) := ShellExecuted(s, request, risk, run);
            after.runtimeTasks.Keys == s.runtimeTasks.Keys && !result.Parked?
  {
    hide ShellEffect, ShellStatus;
  }

  /** In every run a shell start without an approval is parked exactly when it is runnable and neither allowed nor
      denied and an approval store is wired: with the whole request, for 30 minutes. */
  lemma {:induction false} ShellParkedWhen(start: int, steps: seq<Step>, wiring: Wiring, request: ShellRequest,
    context: ShellContext, rules: seq<Rule>)
    requires Binding(After(Start(start), steps).policies, request.project, rules)
    ensures var s := After(Start(start), steps);
            var (after, result) := RunShell(wiring, s, request, context);
            if && Runnable(request, context) && request.task.None? && wiring.runtimeStore
               && !ShellAllowed(wiring, rules, request, context.template.value)
               && !ShellDenied(wiring, rules, request, context.template.value)
            then
              && result == Parked(s.nextId + 1)
              && after.shellInvocations == s.shellInvocations[s.nextId :=
                   RuntimeInvocation(request.project, request.templateRef, AwaitingApproval)]
              && after.runtimeTasks == s.runtimeTasks[s.nextId + 1 :=
                   RuntimeTask(request.project, request.templateRef, s.nextId, request.runId, request.nodeId,
                     context.template.value.risk, ShellPayload(request), Pending, None, s.now, s.now + 30 * 60)]
            else !result.Parked? && after.runtimeTasks.Keys == s.runtimeTasks.Keys
  {
    hide After, Binding, LiveRules, ShellAllowed, ShellDenied, ShellDecision, CheckApproval, RecordShell, ShellExecuted;
    OneBinding(start, steps, request.project, rules);
    if context.template.Some? {
      ShellWritesNoTask(After(Start(start), steps), request, context.template.value.risk, context.run);
      ShellDecidedByFields(wiring, After(Start(start), steps), request, context.template.value);
    }
  }

  /** In every run a runnable shell start without an approval that is allowed or denied leaves one row with what came
      of it, and the answer says the same. */
  lemma {:induction false} ShellRecordedWhen(start: int, steps: seq<Step>, wiring: Wiring, request: ShellRequest,
    context: ShellContext, rules: seq<Rule>)
    requires Binding(After(Start(start), steps).policies, request.project, rules)
    requires Runnable(request, context) && request.task.None?
    requires var template := context.template.value;
             ShellAllowed(wiring, rules, request, template) || ShellDenied(wiring, rules, request, template)
    ensures var s := After(Start(start), steps);
            var (after, result) := RunShell(wiring, s, request, context);
            var status := if ShellDenied(wiring, rules, request, context.template.value) then DeniedCall
                          else if context.run == Exited(0) then Success
                          else if context.run == RanOutOfTime then TimedOut
                          else Failed;
            && result == Ran(status) && after.runtimeTasks == s.runtimeTasks
            && after.shellInvocations ==
               s.shellInvocations[s.nextId := RuntimeInvocation(request.project, request.templateRef, status)]
  {
    hide After, Binding, LiveRules, ShellAllowed, ShellDenied, ShellDecision, CheckApproval, ShellEffect;
    OneBinding(start, steps, request.project, rules);
    ShellDecidedByFields(wiring, After(Start(start), steps), request, context.template.value);
  }

  lemma {:induction false} SameShellDenied(
    wiring: Wiring, rules: seq<Rule>, request: ShellRequest, id: Id, template: Template)
    ensures ShellDenied(wiring, rules, request.(task := Some(id)), template) <==>
            ShellDenied(wiring, rules, request, template)
  {
    hide ConcernsShell;
  }

  /** A run on an approval whose invocation is there answers that it was denied exactly when everything fits and the
      policy denies it. */
  lemma {:induction false} ShellAnswers(wiring: Wiring, s: State, request: ShellRequest, context: ShellContext)
    requires request.task.Some? && request.task.value in s.runtimeTasks
    requires var inv := s.runtimeTasks[request.task.value].invocation;
             inv in s.shellInvocations && s.shellInvocations[inv].project == request.project
    ensures var result := RunShell(wiring, s, request, context).1;
            && result != Refused(PolicyDenied)
            && (result == Ran(DeniedCall) <==>
                  && Runnable(request, context)
                  && Approves(wiring, s, request.project, request.task.value, true, request.templateRef,
                       request.runId, request.nodeId)
                  && ShellDecision(wiring, s, request, context.template.value) == Denied)
  {
    hide ShellDecision, CheckApproval, Approves, ShellEffect;
    CheckApprovalIff(
      wiring, s, request.project, request.task.value, true, request.templateRef, request.runId, request.nodeId);
    CheckApprovalReasons(
      wiring, s, request.project, request.task.value, request.templateRef, request.runId, request.nodeId);
  }

  lemma CheckApprovalReasons(
    wiring: Wiring, s: State, project: Id, id: Id, targetRef: string, runId: string, nodeId: string)
    ensures CheckApproval(wiring, s, project, id, true, targetRef, runId, nodeId) != Some(PolicyDenied)
  {}

  /** In every run a resume runs the stored template with the stored parameters exactly when its approval is usable, the
      stored request is still runnable and no rule published since denies it; a denial is an error. */
  lemma {:induction false} ShellResumedWhen(start: int, steps: seq<Step>, wiring: Wiring, project: Id, id: Id,
    context: ShellContext, rules: seq<Rule>)
    requires Binding(After(Start(start), steps).policies, project, rules)
    ensures var s := After(Start(start), steps);
            var (after, result) := ResumeShell(wiring, s, project, id, context);
            var fits := && wiring.runtimeStore && id in s.runtimeTasks && s.runtimeTasks[id].payload.ShellPayload?
                        && s.runtimeTasks[id].project == project && s.runtimeTasks[id].status == Approved
                        && s.now < s.runtimeTasks[id].expiresAt
                        && Runnable(s.runtimeTasks[id].payload.shell, context);
            var denied := fits && ShellDenied(wiring, rules, s.runtimeTasks[id].payload.shell, context.template.value);
            && (result == Refused(PolicyDenied) <==> denied)
            && after.log == s.log +
               if fits && !denied
               then [ShellRun(project, s.runtimeTasks[id].targetRef, s.runtimeTasks[id].payload.shell.parameters,
                       s.runtimeTasks[id].runId, s.runtimeTasks[id].nodeId,
                       if context.run == Exited(0) then Success
                       else if context.run == RanOutOfTime then TimedOut
                       else Failed,
                       context.template.value.risk, Some(id), s.now)]
               else []
  {
    hide After, Binding, RunShell, LiveRules, ShellAllowed, ShellDenied, LogInv, IdsBelow;
    var s := After(Start(start), steps);
    ReachableInv(start, steps);
    OneBinding(start, steps, project, rules);
    if id in s.runtimeTasks && s.runtimeTasks[id].payload.ShellPayload? && s.runtimeTasks[id].project == project {
      assert RuntimeTaskOk(s, id, s.runtimeTasks[id]);
      var request := s.runtimeTasks[id].payload.shell.(task := Some(id));
      if context.template.Some? {
        SameShellDenied(wiring, rules, s.runtimeTasks[id].payload.shell, id, context.template.value);
      }
      ShellRunWhen(start, steps, wiring, request, context, rules);
      ShellAnswers(wiring, s, request, context);
      if context.template.Some? {
        ShellDecidedByFields(wiring, s, request, context.template.value);
      }
    }
  }

  // --- Models ---------------------------------------------------------------------------------------------

  ghost predicate ModelSays(wiring: Wiring, rules: seq<Rule>, request: ModelRequest, action: Action) {
    wiring.evaluator && Says(rules, rule => ConcernsModel(rule, request.policyRef), action)
  }

  lemma {:induction false} ModelDecidedByFields(wiring: Wiring, s: State, request: ModelRequest)
    ensures ModelDecision(wiring, s, request) == ApprovalRequired <==>
            ModelSays(wiring, LiveRules(s, request.project), request, RequireApproval)
    ensures ModelDecision(wiring, s, request) == Denied <==>
            ModelSays(wiring, LiveRules(s, request.project), request, Deny)
  {
    hide Evaluate, LivePolicy, Says, Silent;
    var rules, concerns := LiveRules(s, request.project), rule => ConcernsModel(rule, request.policyRef);
    DecidedByFields(LivePolicy(s, request.project), ModelQuestion(request), rules, concerns);
    SaysOneThing(rules, concerns);
  }

  predicate Callable(context: ModelContext) {
    context.nodeValid && context.policyFound && context.providerSupported
  }

  /** In every run a model start calls the model exactly when the node, its policy, its prompt and its budget fit and no
      rule stands in the way: without an approval none may ask for one or deny, with a fitting one none may deny. */
  lemma {:induction false} ModelCalledWhen(start: int, steps: seq<Step>, wiring: Wiring, request: ModelRequest,
    context: ModelContext, rules: seq<Rule>)
    requires Binding(After(Start(start), steps).policies, request.project, rules)
    ensures var s := After(Start(start), steps);
            RunModel(wiring, s, request, context).0.log == s.log +
            if && Callable(context) && context.promptFound && context.withinBudget
               && !ModelSays(wiring, rules, request, Deny)
               && if request.task.None? then !ModelSays(wiring, rules, request, RequireApproval)
                  else Approves(wiring, s, request.project, request.task.value, false, request.policyRef,
                         request.runId, request.nodeId)
            then [ModelCall(request.project, request.policyRef, request.inputs, request.runId, request.nodeId,
                    if context.call == Completed(true) then Success
                    else if context.call == Completed(false) then SchemaInvalid
                    else Failed,
                    Medium, request.task, s.now)]
            else []
  {
    hide After, Binding, RunModel, LiveRules, ModelSays, ModelDecision, Approves;
    OneBinding(start, steps, request.project, rules);
    ModelDecidedByFields(wiring, After(Start(start), steps), request);
    ModelCallsIff(wiring, After(Start(start), steps), request, context);
  }

  /** In every run a model start without an approval is parked exactly when the node and its policy fit, the first rule
      that concerns it asks for approval and an approval store is wired: with the whole request, for 30 minutes. */
  lemma {:induction false} ModelParkedWhen(start: int, steps: seq<Step>, wiring: Wiring, request: ModelRequest,
    context: ModelContext, rules: seq<Rule>)
    requires Binding(After(Start(start), steps).policies, request.project, rules)
    ensures var s := After(Start(start), steps);
            var (after, result) := RunModel(wiring, s, request, context);
            if && Callable(context) && request.task.None? && wiring.runtimeStore
               && ModelSays(wiring, rules, request, RequireApproval)
            then
              && result == Parked(s.nextId + 1)
              && after.modelInvocations == s.modelInvocations[s.nextId :=
                   RuntimeInvocation(request.project, request.policyRef, AwaitingApproval)]
              && after.runtimeTasks == s.runtimeTasks[s.nextId + 1 :=
                   RuntimeTask(request.project, request.policyRef, s.nextId, request.runId, request.nodeId,
                     Medium, ModelPayload(request), Pending, None, s.now, s.now + 30 * 60)]
            else !result.Parked? && after.runtimeTasks.Keys == s.runtimeTasks.Keys
  {
    hide After, Binding, LiveRules, ModelSays, ModelDecision, CheckApproval, ModelEffect;
    var s := After(Start(start), steps);
    OneBinding(start, steps, request.project, rules);
    ModelDecidedByFields(wiring, s, request);
    if request.task.Some? {
      CheckApprovalIff(
        wiring, s, request.project, request.task.value, false, request.policyRef, request.runId, request.nodeId);
    }
  }

  /** In every run a model start without an approval whose node and policy fit leaves one row that shows what came of
      it, unless only its prompt is missing. */
  lemma {:induction false} ModelRecordedWhen(start: int, steps: seq<Step>, wiring: Wiring, request: ModelRequest,
    context: ModelContext, rules: seq<Rule>)
    requires Binding(After(Start(start), steps).policies, request.project, rules)
    requires Callable(context) && request.task.None?
    ensures var s := After(Start(start), steps);
            var rows := RunModel(wiring, s, request, context).0.modelInvocations;
            var denied := ModelSays(wiring, rules, request, Deny);
            var stopped := denied || ModelSays(wiring, rules, request, RequireApproval);
            if !stopped && !context.promptFound then rows == s.modelInvocations
            else rows == s.modelInvocations[s.nextId := RuntimeInvocation(request.project, request.policyRef,
                   if denied then DeniedCall
                   else if stopped then AwaitingApproval
                   else if !context.withinBudget then BudgetExceeded
                   else if context.call == Completed(true) then Success
                   else if context.call == Completed(false) then SchemaInvalid
                   else Failed)]
  {
    hide After, Binding, LiveRules, ModelSays, ModelDecision, CheckApproval, ModelEffect;
    OneBinding(start, steps, request.project, rules);
    ModelDecidedByFields(wiring, After(Start(start), steps), request);
  }
}
