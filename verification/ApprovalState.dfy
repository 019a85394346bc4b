/** The approval protocol as a state machine: tool, shell and model gateways, their tasks, and a log of side effects. */
module ApprovalState {
  import opened Common
  import opened PolicyRules
  import Versions = PolicyVersions

  const TOOL_TASK_SECONDS: int := 24 * 60 * 60
  const RUNTIME_TASK_SECONDS: int := 30 * 60

  datatype TaskStatus = Pending | Approved | Rejected | Revoked | Resumed

  datatype TaskDecision = Approve | Reject | Revoke

  datatype InvocationStatus =
    | Success | Failed | DeniedCall | AwaitingApproval | Cancelled | Expired | TimedOut | BudgetExceeded | SchemaInvalid

  /** A caller's own call id, or the generated one. */
  datatype CallId = Given(ref: string) | Generated(serial: Id)

  datatype ToolRequest = ToolRequest(
    toolRef: string, toolGroups: seq<string>, arguments: string, callId: Option<string>)

  datatype ToolInvocationRow = ToolInvocationRow(
    project: Id, toolRef: string, callId: CallId, status: InvocationStatus, decision: Decision)

  datatype ToolTask = ToolTask(
    project: Id, invocation: Id, request: ToolRequest, risk: RiskLevel,
    status: TaskStatus, decision: Option<TaskDecision>, createdAt: int, expiresAt: int)

  datatype ShellRequest = ShellRequest(
    project: Id, templateRef: string, templateVersion: nat, environment: string, parameters: string,
    runId: string, nodeId: string, task: Option<Id>)

  datatype ModelRequest = ModelRequest(
    project: Id, policyRef: string, inputs: string, runId: string, nodeId: string, task: Option<Id>)

  datatype Payload = ShellPayload(shell: ShellRequest) | ModelPayload(model: ModelRequest)

  datatype RuntimeTask = RuntimeTask(
    project: Id, targetRef: string, invocation: Id, runId: string, nodeId: string, risk: RiskLevel, payload: Payload,
    status: TaskStatus, decision: Option<TaskDecision>, createdAt: int, expiresAt: int)

  datatype RuntimeInvocation = RuntimeInvocation(project: Id, targetRef: string, status: InvocationStatus)

  /** What left the system, how it came out, and the approval task that carried it. */
  datatype Effect =
    | ToolCall(
        project: Id, toolRef: string, arguments: string, status: InvocationStatus, risk: RiskLevel, task: Option<Id>,
        at: int)
    | ShellRun(
        project: Id, templateRef: string, parameters: string, runId: string, nodeId: string,
        status: InvocationStatus, risk: RiskLevel, task: Option<Id>, at: int)
    | ModelCall(
        project: Id, policyRef: string, inputs: string, runId: string, nodeId: string,
        status: InvocationStatus, risk: RiskLevel, task: Option<Id>, at: int)

  datatype State = State(
    policies: seq<Versions.VersionRow>,
    toolInvocations: map<Id, ToolInvocationRow>,
    toolTasks: map<Id, ToolTask>,
    shellInvocations: map<Id, RuntimeInvocation>,
    modelInvocations: map<Id, RuntimeInvocation>,
    runtimeTasks: map<Id, RuntimeTask>,
    nextId: Id,
    now: int,
    log: seq<Effect>)

  /** How a gateway was wired: with or without a policy evaluator, with or without a runtime approval store. */
  datatype Wiring = Wiring(evaluator: bool, runtimeStore: bool)

  // --- What the outside world answers ---------------------------------------------------

  datatype AuthorizedTool = AuthorizedTool(risk: RiskLevel, approvalRequired: bool)

  datatype Server = Server(hasCredential: bool, credentialActive: bool)

  datatype CallOutcome = CallFailed | Returned(isError: bool)

  datatype ToolContext = ToolContext(
    authorized: Option<AuthorizedTool>, argumentsValid: bool, server: Option<Server>, leaseGranted: bool,
    call: CallOutcome)

  datatype Template = Template(risk: RiskLevel, environment: string)

  datatype ShellOutcome = Exited(code: int) | RanOutOfTime | Crashed

  datatype ShellContext = ShellContext(
    template: Option<Template>, executable: bool, parametersValid: bool, run: ShellOutcome)

  datatype ModelOutcome = ModelFailed | Completed(schemaValid: bool)

  datatype ModelContext = ModelContext(
    nodeValid: bool, policyFound: bool, providerSupported: bool, promptFound: bool, withinBudget: bool,
    call: ModelOutcome)

  // --- Results ----------------------------------------------------------------------------

  datatype Refusal =
    | NotAuthorized | InvalidArguments | PolicyDenied | NoServer | CredentialInactive | CallError
    | TaskNotFound | AlreadyResumed | NotApproved | TaskExpired | AlreadyDecided
    | NoApprovalStore | KindMismatch | TargetMismatch | RunMismatch | NodeMismatch | BadPayload
    | TemplateNotFound | NotExecutable | NodeInvalid | ModelPolicyMissing | ProviderUnsupported
    | PromptMissing | OverBudget | OutputInvalid
    | StoreConflict | InvocationMissing

  datatype Result = Refused(reason: Refusal) | Parked(task: Id) | Ran(status: InvocationStatus) | Decided

  // --- Policy decisions ---------------------------------------------------------------------

  function LivePolicy(s: State, project: Id): Option<Policy> {
    Versions.Live(s.policies, Versions.PolicyKey(project, "default"))
  }

  function ToolQuestion(request: ToolRequest, tool: AuthorizedTool): Request {
    Request(ToolInvocation, tool.risk, request.toolGroups, request.toolRef, "", "", "", tool.approvalRequired)
  }

  function ShellQuestion(request: ShellRequest, template: Template): Request {
    Request(ShellExecution, template.risk, [], "", request.templateRef, "", template.environment, false)
  }

  function ModelQuestion(request: ModelRequest): Request {
    Request(ModelInvocation, Medium, [], "", "", request.policyRef, "", false)
  }

  function ToolDecision(wiring: Wiring, s: State, project: Id, request: ToolRequest, tool: AuthorizedTool): Decision {
    if !wiring.evaluator then
      if tool.approvalRequired || IsHigh(tool.risk) then ApprovalRequired else Allowed
    else
      Evaluate(LivePolicy(s, project), ToolQuestion(request, tool)).decision
  }

  function ShellDecision(wiring: Wiring, s: State, request: ShellRequest, template: Template): Decision {
    if !wiring.evaluator then
      if IsHigh(template.risk) then ApprovalRequired else Allowed
    else
      Evaluate(LivePolicy(s, request.project), ShellQuestion(request, template)).decision
  }

  function ModelDecision(wiring: Wiring, s: State, request: ModelRequest): Decision {
    if !wiring.evaluator then Allowed
    else Evaluate(LivePolicy(s, request.project), ModelQuestion(request)).decision
  }

  // --- Tool gateway ---------------------------------------------------------------------------

  function CallIdOf(request: ToolRequest, serial: Id): CallId {
    if request.callId.Some? then Given(request.callId.value) else Generated(serial)
  }

  /** The unique constraint on (project, tool_call_id). */
  predicate Taken(invocations: map<Id, ToolInvocationRow>, project: Id, callId: CallId) {
    exists id | id in invocations :: invocations[id].project == project && invocations[id].callId == callId
  }

  predicate CanRecord(s: State, project: Id, request: ToolRequest) {
    !Taken(s.toolInvocations, project, CallIdOf(request, s.nextId))
  }

  function RecordTool(
    s: State, project: Id, request: ToolRequest, status: InvocationStatus, decision: Decision): State {
    if CanRecord(s, project, request) then
      var row := ToolInvocationRow(project, request.toolRef, CallIdOf(request, s.nextId), status, decision);
      s.(toolInvocations := s.toolInvocations[s.nextId := row], nextId := s.nextId + 1)
    else s
  }

  function Recorded(
    s: State, project: Id, request: ToolRequest, status: InvocationStatus, decision: Decision, result: Result)
    : (State, Result)
  {
    (RecordTool(s, project, request, status, decision),
     if CanRecord(s, project, request) then result else Refused(StoreConflict))
  }

  /** Parks a call: a waiting invocation and a pending task that holds the whole request. */
  function ParkTool(s: State, project: Id, request: ToolRequest, risk: RiskLevel): (State, Result) {
    var (s', result) := Recorded(s, project, request, AwaitingApproval, ApprovalRequired, Parked(s.nextId + 1));
    if result.Refused? then (s', result)
    else
      var task := ToolTask(project, s.nextId, request, risk, Pending, None, s.now, s.now + TOOL_TASK_SECONDS);
      (s'.(toolTasks := s'.toolTasks[s.nextId + 1 := task], nextId := s.nextId + 2), result)
  }

  function CallStatus(call: CallOutcome): InvocationStatus {
    if call == Returned(false) then Success else Failed
  }

  function CallResult(call: CallOutcome): Result {
    if call.CallFailed? then Refused(CallError) else Ran(CallStatus(call))
  }

  function ToolEffect(
    s: State, project: Id, request: ToolRequest, risk: RiskLevel, call: CallOutcome, task: Option<Id>): Effect {
    ToolCall(project, request.toolRef, request.arguments, CallStatus(call), risk, task, s.now)
  }

  predicate CredentialUsable(server: Server, leaseGranted: bool) {
    !server.hasCredential || (server.credentialActive && leaseGranted)
  }

  function Logged(s: State, effect: Effect): State { s.(log := s.log + [effect]) }

  /** The allowed call and its record. */
  function ToolCalled(
    s: State, project: Id, request: ToolRequest, risk: RiskLevel, call: CallOutcome): (State, Result) {
    var called := Logged(s, ToolEffect(s, project, request, risk, call, None));
    Recorded(called, project, request, CallStatus(call), Allowed, CallResult(call))
  }

  function InvokeTool(
    wiring: Wiring, s: State, project: Id, request: ToolRequest, context: ToolContext): (State, Result) {
    if context.authorized.None? then Recorded(s, project, request, DeniedCall, Denied, Refused(NotAuthorized))
    else if !context.argumentsValid then Recorded(s, project, request, DeniedCall, Denied, Refused(InvalidArguments))
    else
      var tool := context.authorized.value;
      match ToolDecision(wiring, s, project, request, tool)
      case Denied => Recorded(s, project, request, DeniedCall, Denied, Refused(PolicyDenied))
      case ApprovalRequired => ParkTool(s, project, request, tool.risk)
      case Allowed =>
        if context.server.None? then Recorded(s, project, request, Failed, Allowed, Refused(NoServer))
        else if !CredentialUsable(context.server.value, context.leaseGranted) then
          Recorded(s, project, request, Failed, Allowed, Refused(CredentialInactive))
        else
          ToolCalled(s, project, request, tool.risk, context.call)
  }

  function UpdateTool(s: State, id: Id, status: InvocationStatus, decision: Decision): State
    requires id in s.toolInvocations
  {
    s.(toolInvocations := s.toolInvocations[id := s.toolInvocations[id].(status := status, decision := decision)])
  }

  /** The stored update raises when the invocation is not in the project. */
  function Updated(
    s: State, project: Id, id: Id, status: InvocationStatus, decision: Decision, result: Result): (State, Result) {
    if id in s.toolInvocations && s.toolInvocations[id].project == project
    then (UpdateTool(s, id, status, decision), result)
    else (s, Refused(InvocationMissing))
  }

  function MarkToolResumed(s: State, task: Id): State
    requires task in s.toolTasks
  {
    s.(toolTasks := s.toolTasks[task := s.toolTasks[task].(status := Resumed)])
  }

  /** The approved call with the stored request, its outcome on the invocation, and the use of the approval. */
  function ToolResumed(s: State, project: Id, id: Id, risk: RiskLevel, call: CallOutcome): (State, Result)
    requires id in s.toolTasks
  {
    var task := s.toolTasks[id];
    var called := Logged(s, ToolEffect(s, project, task.request, risk, call, Some(id)));
    var (updated, result) := Updated(called, project, task.invocation, CallStatus(call), Allowed, CallResult(call));
    (if result == Refused(InvocationMissing) then updated else MarkToolResumed(updated, id), result)
  }

  function ResumeTool(wiring: Wiring, s: State, project: Id, id: Id, context: ToolContext): (State, Result) {
    if id !in s.toolTasks || s.toolTasks[id].project != project then (s, Refused(TaskNotFound))
    else
      var task := s.toolTasks[id];
      if task.status == Resumed then (s, Refused(AlreadyResumed))
      else if task.status != Approved then (s, Refused(NotApproved))
      else if task.expiresAt <= s.now then Updated(s, project, task.invocation, Expired, Denied, Refused(TaskExpired))
      else if context.authorized.None? then
        Updated(s, project, task.invocation, DeniedCall, Denied, Refused(NotAuthorized))
      else if !context.argumentsValid then
        Updated(s, project, task.invocation, DeniedCall, Denied, Refused(InvalidArguments))
      else if ToolDecision(wiring, s, project, task.request, context.authorized.value) == Denied then
        Updated(s, project, task.invocation, DeniedCall, Denied, Refused(PolicyDenied))
      else if context.server.None? then Updated(s, project, task.invocation, Failed, Allowed, Refused(NoServer))
      else if !CredentialUsable(context.server.value, context.leaseGranted) then
        Updated(s, project, task.invocation, Failed, Allowed, Refused(CredentialInactive))
      else
        ToolResumed(s, project, id, context.authorized.value.risk, context.call)
  }

  function StatusOf(decision: TaskDecision): TaskStatus {
    match decision
    case Approve => Approved
    case Reject => Rejected
    case Revoke => Revoked
  }

  function DecideTool(s: State, project: Id, id: Id, decision: TaskDecision): (State, Result) {
    if id !in s.toolTasks || s.toolTasks[id].project != project then (s, Refused(TaskNotFound))
    else if s.toolTasks[id].status != Pending then (s, Refused(AlreadyDecided))
    else
      var task := s.toolTasks[id];
      var decided :=
        s.(toolTasks := s.toolTasks[id := task.(status := StatusOf(decision), decision := Some(decision))]);
      if decision == Approve then (decided, Decided)
      else Updated(
        decided, project, task.invocation, if decision == Reject then DeniedCall else Cancelled, Denied, Decided)
  }

  // --- Runtime approvals ------------------------------------------------------------------------

  function DecideRuntime(s: State, project: Id, id: Id, decision: TaskDecision): (State, Result) {
    if id !in s.runtimeTasks || s.runtimeTasks[id].project != project then (s, Refused(TaskNotFound))
    else if s.runtimeTasks[id].status != Pending then (s, Refused(AlreadyDecided))
    else
      var task := s.runtimeTasks[id].(status := StatusOf(decision), decision := Some(decision));
      (s.(runtimeTasks := s.runtimeTasks[id := task]), Decided)
  }

  function MarkRuntimeResumed(s: State, id: Id): State
    requires id in s.runtimeTasks
  {
    s.(runtimeTasks := s.runtimeTasks[id := s.runtimeTasks[id].(status := Resumed)])
  }

  /** The checks a runtime approval passes before it may carry a call. */
  function CheckApproval(
    wiring: Wiring, s: State, project: Id, id: Id, shell: bool, targetRef: string, runId: string,
    nodeId: string): Option<Refusal>
  {
    if !wiring.runtimeStore then Some(NoApprovalStore)
    else if id !in s.runtimeTasks || s.runtimeTasks[id].project != project then Some(TaskNotFound)
    else
      var task := s.runtimeTasks[id];
      if task.status == Resumed then Some(AlreadyResumed)
      else if task.status != Approved then Some(NotApproved)
      else if task.expiresAt <= s.now then Some(TaskExpired)
      else if task.payload.ShellPayload? != shell then Some(KindMismatch)
      else if task.targetRef != targetRef then Some(TargetMismatch)
      else if task.runId != "" && task.runId != runId then Some(RunMismatch)
      else if task.nodeId != "" && task.nodeId != nodeId then Some(NodeMismatch)
      else None
  }

  /** An approval of this kind, for this project and target, usable now; a blank run or node on it binds nothing. */
  predicate Approves(
    wiring: Wiring, s: State, project: Id, id: Id, shell: bool, targetRef: string, runId: string, nodeId: string)
  {
    && wiring.runtimeStore && id in s.runtimeTasks
    && var task := s.runtimeTasks[id];
       && task.project == project && task.status == Approved && s.now < task.expiresAt
       && task.payload.ShellPayload? == shell && task.targetRef == targetRef
       && (task.runId == "" || task.runId == runId) && (task.nodeId == "" || task.nodeId == nodeId)
  }

  /** The checks pass exactly for such an approval. */
  lemma CheckApprovalIff(
    wiring: Wiring, s: State, project: Id, id: Id, shell: bool, targetRef: string, runId: string, nodeId: string)
    ensures CheckApproval(wiring, s, project, id, shell, targetRef, runId, nodeId).None? <==>
            Approves(wiring, s, project, id, shell, targetRef, runId, nodeId)
    ensures CheckApproval(wiring, s, project, id, shell, targetRef, runId, nodeId) != Some(InvocationMissing)
  {}

  // --- Shell gateway ------------------------------------------------------------------------------

  function ParkShell(s: State, request: ShellRequest, template: Template): (State, Result) {
    var id := s.nextId;
    var task := RuntimeTask(request.project, request.templateRef, id, request.runId, request.nodeId, template.risk,
      ShellPayload(request), Pending, None, s.now, s.now + RUNTIME_TASK_SECONDS);
    (s.(shellInvocations :=
          s.shellInvocations[id := RuntimeInvocation(request.project, request.templateRef, AwaitingApproval)],
        runtimeTasks := s.runtimeTasks[id + 1 := task], nextId := id + 2),
     Parked(id + 1))
  }

  function ShellStatus(run: ShellOutcome): InvocationStatus {
    match run
    case Exited(code) => if code == 0 then Success else Failed
    case RanOutOfTime => TimedOut
    case Crashed => Failed
  }

  function ShellEffect(s: State, request: ShellRequest, risk: RiskLevel, run: ShellOutcome): Effect {
    ShellRun(request.project, request.templateRef, request.parameters, request.runId, request.nodeId,
      ShellStatus(run), risk, request.task, s.now)
  }

  /** Writes the invocation: updates the one of the presented approval, which must exist, or adds a new one. */
  function RecordShell(s: State, request: ShellRequest, status: InvocationStatus, result: Result): (State, Result) {
    if request.task.None? then
      var row := RuntimeInvocation(request.project, request.templateRef, status);
      (s.(shellInvocations := s.shellInvocations[s.nextId := row], nextId := s.nextId + 1), result)
    else if request.task.value !in s.runtimeTasks then (s, Refused(TaskNotFound))
    else
      var id := s.runtimeTasks[request.task.value].invocation;
      if id !in s.shellInvocations || s.shellInvocations[id].project != request.project then
         (s, Refused(InvocationMissing))
      else (s.(shellInvocations := s.shellInvocations[id := s.shellInvocations[id].(status := status)]), result)
  }

  /** The run, its record, and the use of the approval. */
  function ShellExecuted(s: State, request: ShellRequest, risk: RiskLevel, run: ShellOutcome): (State, Result) {
    var called := Logged(s, ShellEffect(s, request, risk, run));
    var (recorded, result) := RecordShell(called, request, ShellStatus(run), Ran(ShellStatus(run)));
    if request.task.None? || !result.Ran? then (recorded, result)
    else (MarkRuntimeResumed(recorded, request.task.value), result)
  }

  function RunShell(wiring: Wiring, s: State, request: ShellRequest, context: ShellContext): (State, Result) {
    if context.template.None? then (s, Refused(TemplateNotFound))
    else if context.template.value.environment != request.environment || !context.executable then
      (s, Refused(NotExecutable))
    else if !context.parametersValid then (s, Refused(InvalidArguments))
    else
      var template := context.template.value;
      var refusal := if request.task.None? then None
        else CheckApproval(
          wiring, s, request.project, request.task.value, true, request.templateRef, request.runId, request.nodeId);
      if refusal.Some? then (s, Refused(refusal.value))
      else
        var decision := ShellDecision(wiring, s, request, template);
        if decision == ApprovalRequired && request.task.None? then
          if wiring.runtimeStore then ParkShell(s, request, template) else (s, Refused(NoApprovalStore))
        else if decision == Denied then RecordShell(s, request, DeniedCall, Ran(DeniedCall))
        else
          ShellExecuted(s, request, template.risk, context.run)
  }

  function ResumeShell(wiring: Wiring, s: State, project: Id, id: Id, context: ShellContext): (State, Result) {
    if !wiring.runtimeStore then (s, Refused(NoApprovalStore))
    else if id !in s.runtimeTasks || s.runtimeTasks[id].project != project then (s, Refused(TaskNotFound))
    else if !s.runtimeTasks[id].payload.ShellPayload? then (s, Refused(BadPayload))
    else
      var (s', result) := RunShell(wiring, s, s.runtimeTasks[id].payload.shell.(task := Some(id)), context);
      (s', if result == Ran(DeniedCall) then Refused(PolicyDenied) else result)
  }

  // --- Model gateway --------------------------------------------------------------------------------

  /** Writes the invocation under the approval's reference or a fresh one; an update of a missing row adds it. */
  function RecordModel(s: State, request: ModelRequest, status: InvocationStatus): State {
    var row := RuntimeInvocation(request.project, request.policyRef, status);
    if request.task.Some? && request.task.value in s.runtimeTasks
    then s.(modelInvocations := s.modelInvocations[s.runtimeTasks[request.task.value].invocation := row])
    else s.(modelInvocations := s.modelInvocations[s.nextId := row], nextId := s.nextId + 1)
  }

  function ModelStatus(call: ModelOutcome): InvocationStatus {
    match call
    case ModelFailed => Failed
    case Completed(schemaValid) => if schemaValid then Success else SchemaInvalid
  }

  function ModelEffect(s: State, request: ModelRequest, call: ModelOutcome): Effect {
    ModelCall(request.project, request.policyRef, request.inputs, request.runId, request.nodeId,
      ModelStatus(call), Medium, request.task, s.now)
  }

  function ParkModel(wiring: Wiring, s: State, request: ModelRequest): (State, Result) {
    var recorded := RecordModel(s, request, AwaitingApproval);
    if !wiring.runtimeStore then (recorded, Refused(NoApprovalStore))
    else
      var task := RuntimeTask(request.project, request.policyRef, s.nextId, request.runId, request.nodeId, Medium,
        ModelPayload(request), Pending, None, s.now, s.now + RUNTIME_TASK_SECONDS);
      (recorded.(runtimeTasks := s.runtimeTasks[s.nextId + 1 := task], nextId := s.nextId + 2), Parked(s.nextId + 1))
  }

  /** The call, its record, and, when it succeeded, the use of the approval. */
  function ModelCalled(s: State, request: ModelRequest, call: ModelOutcome): (State, Result)
    requires request.task.Some? ==> request.task.value in s.runtimeTasks
  {
    var recorded := RecordModel(Logged(s, ModelEffect(s, request, call)), request, ModelStatus(call));
    match call
    case ModelFailed => (recorded, Refused(CallError))
    case Completed(schemaValid) =>
      if !schemaValid then (recorded, Refused(OutputInvalid))
      else if request.task.None? then (recorded, Ran(Success))
      else (MarkRuntimeResumed(recorded, request.task.value), Ran(Success))
  }

  function RunModel(wiring: Wiring, s: State, request: ModelRequest, context: ModelContext): (State, Result) {
    if !context.nodeValid then (s, Refused(NodeInvalid))
    else if !context.policyFound then (s, Refused(ModelPolicyMissing))
    else if !context.providerSupported then (s, Refused(ProviderUnsupported))
    else
      var refusal := if request.task.None? then None
        else CheckApproval(
          wiring, s, request.project, request.task.value, false, request.policyRef, request.runId, request.nodeId);
      if refusal.Some? then (s, Refused(refusal.value))
      else
        var decision := ModelDecision(wiring, s, request);
        if decision == ApprovalRequired && request.task.None? then ParkModel(wiring, s, request)
        else if decision == Denied then (RecordModel(s, request, DeniedCall), Refused(PolicyDenied))
        else if !context.promptFound then (s, Refused(PromptMissing))
        else if !context.withinBudget then (RecordModel(s, request, BudgetExceeded), Refused(OverBudget))
        else
          ModelCalled(s, request, context.call)
  }

  // --- Steps ------------------------------------------------------------------------------------------

  datatype Step =
    | ToolInvoke(wiring: Wiring, project: Id, toolRequest: ToolRequest, toolContext: ToolContext)
    | ToolResume(wiring: Wiring, project: Id, task: Id, toolContext: ToolContext)
    | ToolDecide(project: Id, task: Id, decision: TaskDecision)
    | ShellStart(wiring: Wiring, shellRequest: ShellRequest, shellContext: ShellContext)
    | ShellResume(wiring: Wiring, project: Id, task: Id, shellContext: ShellContext)
    | ModelStart(wiring: Wiring, modelRequest: ModelRequest, modelContext: ModelContext)
    | RuntimeDecide(project: Id, task: Id, decision: TaskDecision)
    | PolicyChange(change: Versions.Step)
    | Tick(seconds: nat)

  function Take(s: State, step: Step): (State, Result) {
    match step
    case ToolInvoke(wiring, project, request, context) => InvokeTool(wiring, s, project, request, context)
    case ToolResume(wiring, project, task, context) => ResumeTool(wiring, s, project, task, context)
    case ToolDecide(project, task, decision) => DecideTool(s, project, task, decision)
    case ShellStart(wiring, request, context) => RunShell(wiring, s, request, context)
    case ShellResume(wiring, project, task, context) => ResumeShell(wiring, s, project, task, context)
    case ModelStart(wiring, request, context) => RunModel(wiring, s, request, context)
    case RuntimeDecide(project, task, decision) => DecideRuntime(s, project, task, decision)
    case PolicyChange(change) => (s.(policies := Versions.Next(s.policies, change)), Decided)
    case Tick(seconds) => (s.(now := s.now + seconds), Decided)
  }

  function Start(now: int): State { State([], map[], map[], map[], map[], map[], 0, now, []) }

  function After(s: State, steps: seq<Step>): State
    decreases |steps|
  {
    if steps == [] then s else After(Take(s, steps[0]).0, steps[1..])
  }
}
