/** What every run of invoke, decide, resume, policy changes and clock ticks guarantees. */
module ApprovalTheorems {
  import opened Common
  import opened PolicyRules
  import opened ApprovalState
  import opened ApprovalInvariant

  /** A high or critical effect is carried by a task; a task carries an effect only if it was approved, less than 24
      hours (tools) or 30 minutes (shell, model) after it was parked, and for the target, run and node it was parked
      for, where a blank run or node binds nothing; and a tool effect on a task has exactly the tool and arguments
      stored when the call was parked. */
  predicate CarriedByApproval(s: State, e: Effect) {
    && (IsHigh(e.risk) ==> e.task.Some?)
    && (e.ToolCall? && e.task.Some? ==>
          && e.task.value in s.toolTasks
          && var task := s.toolTasks[e.task.value];
             && task.decision == Some(Approve) && e.at < task.createdAt + 24 * 60 * 60 && task.project == e.project
             && task.request.toolRef == e.toolRef && task.request.arguments == e.arguments)
    && (!e.ToolCall? && e.task.Some? ==>
          && e.task.value in s.runtimeTasks
          && var task := s.runtimeTasks[e.task.value];
             && task.decision == Some(Approve) && e.at < task.createdAt + 30 * 60 && task.project == e.project
             && task.payload.ShellPayload? == e.ShellRun?
             && task.targetRef == (if e.ShellRun? then e.templateRef else e.policyRef)
             && (task.runId == "" || task.runId == e.runId) && (task.nodeId == "" || task.nodeId == e.nodeId))
  }

  lemma {:induction false} CarriedByApprovalIn(s: State, i: nat)
    requires Inv(s) && i < |s.log|
    ensures CarriedByApproval(s, s.log[i])
  {
    var e := s.log[i];
    hide IdsBelow;
    assert Justified(s, e);
    assert e.task.Some? && e.ToolCall? ==> ToolTaskOk(s, e.task.value, s.toolTasks[e.task.value]);
    assert e.task.Some? && !e.ToolCall? ==> RuntimeTaskOk(s, e.task.value, s.runtimeTasks[e.task.value]);
    hide Inv, LogInv, Tables;
  }

  /** In every run every effect is carried as it should be. */
  lemma {:induction false} HighRiskWasApproved(start: int, steps: seq<Step>)
    ensures var s := After(Start(start), steps);
            forall i | 0 <= i < |s.log| :: CarriedByApproval(s, s.log[i])
  {
    hide After, Inv, CarriedByApproval;
    ReachableInv(start, steps);
    var s := After(Start(start), steps);
    forall i | 0 <= i < |s.log|
      ensures CarriedByApproval(s, s.log[i])
    {
      CarriedByApprovalIn(s, i);
    }
  }

  lemma {:induction false} SpentTwiceCounts(log: seq<Effect>, ref: TaskRef, i: nat, j: nat)
    requires i < j < |log| && Spends(log[i]) == Some(ref) && Spends(log[j]) == Some(ref)
    ensures SpendCount(log, ref) >= 2
  {
    var n := |log| - 1;
    assert log[..n][i] == log[i];
    if j < n {
      assert log[..n][j] == log[j];
      SpentTwiceCounts(log[..n], ref, i, j);
    } else {
      SpentCounts(log[..n], ref, i);
    }
  }

  lemma {:induction false} SpentCounts(log: seq<Effect>, ref: TaskRef, i: nat)
    requires i < |log| && Spends(log[i]) == Some(ref)
    ensures SpendCount(log, ref) >= 1
  {
    var n := |log| - 1;
    if i < n {
      assert log[..n][i] == log[i];
      SpentCounts(log[..n], ref, i);
    }
  }

  lemma {:induction false} CountedIsSpent(log: seq<Effect>, ref: TaskRef) returns (i: nat)
    requires SpendCount(log, ref) > 0
    ensures i < |log| && Spends(log[i]) == Some(ref)
  {
    var n := |log| - 1;
    if Spends(log[n]) == Some(ref) {
      i := n;
    } else {
      i := CountedIsSpent(log[..n], ref);
    }
  }

  /** No two effects used this task, and it is resumed exactly when one did. */
  ghost predicate UsedAtMostOnce(s: State, ref: TaskRef) {
    && (forall i, j | 0 <= i < j < |s.log| :: !(Spends(s.log[i]) == Some(ref) && Spends(s.log[j]) == Some(ref)))
    && (IsResumed(s, ref) <==> exists i :: 0 <= i < |s.log| && Spends(s.log[i]) == Some(ref))
  }

  lemma {:induction false} UsedAtMostOnceIn(s: State, ref: TaskRef)
    requires Inv(s)
    ensures UsedAtMostOnce(s, ref)
  {
    hide Justified;
    assert SpendCount(s.log, ref) == if IsResumed(s, ref) then 1 else 0;
    forall i, j | 0 <= i < j < |s.log|
      ensures !(Spends(s.log[i]) == Some(ref) && Spends(s.log[j]) == Some(ref))
    {
      if Spends(s.log[i]) == Some(ref) && Spends(s.log[j]) == Some(ref) {
        SpentTwiceCounts(s.log, ref, i, j);
      }
    }
    if IsResumed(s, ref) {
      var i := CountedIsSpent(s.log, ref);
    }
    forall i | 0 <= i < |s.log| && Spends(s.log[i]) == Some(ref)
      ensures IsResumed(s, ref)
    {
      SpentCounts(s.log, ref, i);
    }
  }

  /** In every run a task yields at most one tool call, shell run or successful model completion, and is resumed
      exactly when it yielded one. */
  lemma {:induction false} AtMostOncePerTask(start: int, steps: seq<Step>, ref: TaskRef)
    ensures UsedAtMostOnce(After(Start(start), steps), ref)
  {
    hide After, Inv, UsedAtMostOnce;
    ReachableInv(start, steps);
    UsedAtMostOnceIn(After(Start(start), steps), ref);
  }

  /** The task a step presents, if any. */
  function Presented(step: Step): Option<TaskRef> {
    match step
    case ToolResume(_, _, task, _) => Some(ToolRef(task))
    case ShellStart(_, request, _) => if request.task.Some? then Some(RuntimeRef(request.task.value)) else None
    case ShellResume(_, _, task, _) => Some(RuntimeRef(task))
    case ModelStart(_, request, _) => if request.task.Some? then Some(RuntimeRef(request.task.value)) else None
    case ToolInvoke(_, _, _, _) => None
    case ToolDecide(_, _, _) => None
    case RuntimeDecide(_, _, _) => None
    case PolicyChange(_) => None
    case Tick(_) => None
  }

  /** The task is approved and not expired in this very state. */
  predicate Usable(s: State, ref: TaskRef) {
    match ref
    case ToolRef(id) => id in s.toolTasks && s.toolTasks[id].status == Approved && s.now < s.toolTasks[id].expiresAt
    case RuntimeRef(id) =>
      id in s.runtimeTasks && s.runtimeTasks[id].status == Approved && s.now < s.runtimeTasks[id].expiresAt
  }

  /** One step performs at most one effect; one of high risk, or one carried by a task, only when the step presents
      a task that is approved and unexpired at that moment. Decisions, policy changes and ticks perform none. */
  lemma {:induction false} EffectNeedsUsableTask(s: State, step: Step)
    ensures var after := Take(s, step).0;
            && (after.log == s.log || (|after.log| == |s.log| + 1 && after.log[..|s.log|] == s.log))
            && (after.log != s.log ==>
                  && var e := after.log[|s.log|];
                     && (e.task.Some? || IsHigh(e.risk) ==> Presented(step).Some? && Usable(s, Presented(step).value)))
  {
    hide InvokeTool, ResumeTool, RunShell, RunModel;
    match step {
      case ToolInvoke(wiring, project, request, context) => ToolInvokeCallsIff(wiring, s, project, request, context);
      case ToolResume(wiring, project, task, context) => ToolResumeEffect(wiring, s, project, task, context);
      case ToolDecide(project, task, decision) =>
      case ShellStart(wiring, request, context) => ShellRunsIff(wiring, s, request, context);
      case ShellResume(wiring, project, task, context) =>
        if task in s.runtimeTasks && s.runtimeTasks[task].payload.ShellPayload? {
          ShellRunsIff(wiring, s, s.runtimeTasks[task].payload.shell.(task := Some(task)), context);
        }
      case ModelStart(wiring, request, context) => ModelCallsIff(wiring, s, request, context);
      case RuntimeDecide(project, task, decision) =>
      case PolicyChange(change) =>
      case Tick(seconds) =>
    }
  }

  // --- When an effect happens -------------------------------------------------------------------

  /** A fresh invocation that may go out: authorized, fitting, allowed by the policy live now, and reachable. */
  predicate ToolGoes(wiring: Wiring, s: State, project: Id, request: ToolRequest, context: ToolContext) {
    && context.authorized.Some? && context.argumentsValid
    && ToolDecision(wiring, s, project, request, context.authorized.value) == Allowed
    && context.server.Some? && CredentialUsable(context.server.value, context.leaseGranted)
  }

  /** Exactly when a fresh tool invocation calls the tool, and that it then carries no task and is not high risk. */
  lemma {:induction false} ToolInvokeCallsIff(
    wiring: Wiring, s: State, project: Id, request: ToolRequest, context: ToolContext)
    ensures InvokeTool(wiring, s, project, request, context).0.log ==
            if ToolGoes(wiring, s, project, request, context)
            then s.log + [ToolEffect(s, project, request, context.authorized.value.risk, context.call, None)] else s.log
    ensures ToolGoes(wiring, s, project, request, context) ==> !IsHigh(context.authorized.value.risk)
  {
    hide ToolDecision, CredentialUsable, CanRecord;
    if ToolGoes(wiring, s, project, request, context) {
      ToolFloor(wiring, s, project, request, context.authorized.value);
    }
  }

  /** A resume that may go out: the approval is usable here, the tool is still authorized for the stored request, the
      arguments still fit, the policy live now does not deny it, and the server can be reached. */
  predicate ToolResumes(wiring: Wiring, s: State, project: Id, id: Id, context: ToolContext) {
    && Usable(s, ToolRef(id)) && s.toolTasks[id].project == project
    && context.authorized.Some? && context.argumentsValid
    && ToolDecision(wiring, s, project, s.toolTasks[id].request, context.authorized.value) != Denied
    && context.server.Some? && CredentialUsable(context.server.value, context.leaseGranted)
  }

  lemma {:induction false} ToolResumeEffect(wiring: Wiring, s: State, project: Id, id: Id, context: ToolContext)
    ensures ResumeTool(wiring, s, project, id, context).0.log ==
            if ToolResumes(wiring, s, project, id, context)
            then s.log + [ToolEffect(
              s, project, s.toolTasks[id].request, context.authorized.value.risk, context.call, Some(id))]
            else s.log
  {
    hide ToolDecision, CredentialUsable;
  }

  /** In every reachable state resuming a tool task calls the tool exactly then, and exactly then the approval gets
      used up. */
  lemma {:induction false} ToolResumeCallsIff(
    start: int, steps: seq<Step>, wiring: Wiring, project: Id, id: Id, context: ToolContext)
    ensures var s := After(Start(start), steps);
            var after := ResumeTool(wiring, s, project, id, context).0;
            && (after.log != s.log <==> ToolResumes(wiring, s, project, id, context))
            && (after.log != s.log <==> IsResumed(after, ToolRef(id)) && !IsResumed(s, ToolRef(id)))
  {
    hide After, LogInv, IdsBelow, ToolDecision, CredentialUsable, ToolResumes;
    var s := After(Start(start), steps);
    ReachableInv(start, steps);
    assert id in s.toolTasks ==> ToolTaskOk(s, id, s.toolTasks[id]);
    hide Inv, Tables;
    ToolResumeEffect(wiring, s, project, id, context);
    ToolUsedIff(wiring, s, project, id, context);
  }

  lemma {:induction false} ToolUsedIff(wiring: Wiring, s: State, project: Id, id: Id, context: ToolContext)
    requires id in s.toolTasks ==>
               var inv := s.toolTasks[id].invocation;
               inv in s.toolInvocations && s.toolInvocations[inv].project == s.toolTasks[id].project
    ensures ToolResumes(wiring, s, project, id, context) <==>
            IsResumed(ResumeTool(wiring, s, project, id, context).0, ToolRef(id)) && !IsResumed(s, ToolRef(id))
  {
    hide ToolDecision, CredentialUsable;
  }

  /** A shell start that may go out: an executable template and valid parameters, and either the policy allows it or it
      presents an approval for this template, run and node and the policy does not deny it. */
  predicate ShellGoes(wiring: Wiring, s: State, request: ShellRequest, context: ShellContext) {
    && context.template.Some? && context.template.value.environment == request.environment
    && context.executable && context.parametersValid
    && if request.task.None? then ShellDecision(wiring, s, request, context.template.value) == Allowed
       else Approves(
         wiring, s, request.project, request.task.value, true, request.templateRef, request.runId, request.nodeId)
            && ShellDecision(wiring, s, request, context.template.value) != Denied
  }

  /** Exactly when a shell start runs the template, with what, and that it is not high risk without an approval. */
  lemma {:induction false} ShellRunsIff(wiring: Wiring, s: State, request: ShellRequest, context: ShellContext)
    ensures RunShell(wiring, s, request, context).0.log ==
            if ShellGoes(wiring, s, request, context)
            then s.log + [ShellEffect(s, request, context.template.value.risk, context.run)] else s.log
    ensures ShellGoes(wiring, s, request, context) && IsHigh(context.template.value.risk) ==> request.task.Some?
    ensures ShellGoes(wiring, s, request, context) && request.task.Some? ==> Usable(s, RuntimeRef(request.task.value))
  {
    hide ShellDecision, CheckApproval, Approves, RecordShell, ParkShell;
    RecordShellLog(s, request);
    ParkShellLog(s, request);
    if request.task.Some? {
      CheckApprovalIff(
        wiring, s, request.project, request.task.value, true, request.templateRef, request.runId, request.nodeId);
      ApprovesUsable(
        wiring, s, request.project, request.task.value, true, request.templateRef, request.runId, request.nodeId);
    } else if context.template.Some? && ShellDecision(wiring, s, request, context.template.value) == Allowed {
      ShellFloor(wiring, s, request, context.template.value);
    }
    if context.template.Some? {
      RecordShellLog(Logged(s, ShellEffect(s, request, context.template.value.risk, context.run)), request);
    }
  }

  lemma RecordShellLog(s: State, request: ShellRequest)
    ensures forall status, result :: RecordShell(s, request, status, result).0.log == s.log
  {}

  lemma ParkShellLog(s: State, request: ShellRequest)
    ensures forall template :: ParkShell(s, request, template).0.log == s.log
  {}

  lemma ApprovesUsable(
    wiring: Wiring, s: State, project: Id, id: Id, shell: bool, targetRef: string, runId: string, nodeId: string)
    ensures Approves(wiring, s, project, id, shell, targetRef, runId, nodeId) ==> Usable(s, RuntimeRef(id))
  {}

  /** A model start that may go out: a valid node with a supported policy, a prompt within the budget, and either the
      approval policy allows it or it presents an approval for this model policy, run and node and the policy does
      not deny it. */
  predicate ModelGoes(wiring: Wiring, s: State, request: ModelRequest, context: ModelContext) {
    && context.nodeValid && context.policyFound && context.providerSupported && context.promptFound
       && context.withinBudget
    && if request.task.None? then ModelDecision(wiring, s, request) == Allowed
       else Approves(
         wiring, s, request.project, request.task.value, false, request.policyRef, request.runId, request.nodeId)
            && ModelDecision(wiring, s, request) != Denied
  }

  /** Exactly when a model start calls the model, and with what. */
  lemma {:induction false} ModelCallsIff(wiring: Wiring, s: State, request: ModelRequest, context: ModelContext)
    ensures RunModel(wiring, s, request, context).0.log ==
            if ModelGoes(wiring, s, request, context) then s.log + [ModelEffect(s, request, context.call)] else s.log
    ensures ModelGoes(wiring, s, request, context) && request.task.Some? ==> Usable(s, RuntimeRef(request.task.value))
  {
    hide ModelDecision, CheckApproval, Approves;
    if request.task.Some? {
      CheckApprovalIff(
        wiring, s, request.project, request.task.value, false, request.policyRef, request.runId, request.nodeId);
      ApprovesUsable(
        wiring, s, request.project, request.task.value, false, request.policyRef, request.runId, request.nodeId);
    }
  }

  /** Resuming a parked shell run passes the stored parameters for the stored template, run and node. */
  lemma {:induction false} ShellResumePassesStored(
    start: int, steps: seq<Step>, wiring: Wiring, project: Id, id: Id, context: ShellContext)
    ensures var s := After(Start(start), steps);
            var log := ResumeShell(wiring, s, project, id, context).0.log;
            || log == s.log
            || (&& id in s.runtimeTasks && s.runtimeTasks[id].payload.ShellPayload? && context.template.Some?
                && var task := s.runtimeTasks[id];
                   log == s.log + [ShellRun(
                     task.project, task.targetRef, task.payload.shell.parameters, task.runId, task.nodeId,
                                     ShellStatus(context.run), context.template.value.risk, Some(id), s.now)])
  {
    ReachableInv(start, steps);
    var s := After(Start(start), steps);
    hide After, RunShell, LogInv, IdsBelow, ShellDecision, Approves;
    if id in s.runtimeTasks && s.runtimeTasks[id].payload.ShellPayload? {
      assert RuntimeTaskOk(s, id, s.runtimeTasks[id]);
      ShellRunsIff(wiring, s, s.runtimeTasks[id].payload.shell.(task := Some(id)), context);
    }
  }

  /** A model call that fails or returns an invalid output is logged as one failed call on its task and leaves its
      approval standing: trying again before the approval expires can still succeed. Only then is the approval used
      up. */
  lemma {:induction false} ModelRetry(
    wiring: Wiring, s: State, request: ModelRequest, bad: ModelContext, good: ModelContext)
    requires Inv(s) && request.task.Some?
    requires RunModel(wiring, s, request, good).1 == Ran(Success)
    requires bad == good.(call := bad.call) && bad.call != Completed(true)
    ensures var after := RunModel(wiring, s, request, bad).0;
            && after.log == s.log + [ModelEffect(s, request, bad.call)]
            && after.log[|s.log|].task == request.task && Spends(after.log[|s.log|]).None?
            && after.runtimeTasks == s.runtimeTasks
            && RunModel(wiring, after, request, good).1 == Ran(Success)
            && IsResumed(RunModel(wiring, after, request, good).0, RuntimeRef(request.task.value))
  {
    hide ModelDecision, CheckApproval, Approves;
    var after := RunModel(wiring, s, request, bad).0;
    var id := request.task.value;
    CheckApprovalIff(wiring, s, request.project, id, false, request.policyRef, request.runId, request.nodeId);
    ModelCallsIff(wiring, s, request, bad);
    ModelFails(wiring, s, request, bad);
    SameApproval(wiring, s, after, request);
    ModelSucceeds(wiring, s, request, good);
    ModelSucceeds(wiring, after, request, good);
  }

  lemma {:induction false} ModelFails(wiring: Wiring, s: State, request: ModelRequest, bad: ModelContext)
    requires request.task.Some? && bad.call != Completed(true)
    ensures var after := RunModel(wiring, s, request, bad).0;
            after.runtimeTasks == s.runtimeTasks && after.policies == s.policies && after.now == s.now
  {
    hide ModelDecision, CheckApproval;
    if CheckApproval(
       wiring, s, request.project, request.task.value, false, request.policyRef, request.runId, request.nodeId).None? {
      CheckApprovalIff(
        wiring, s, request.project, request.task.value, false, request.policyRef, request.runId, request.nodeId);
    }
  }

  /** A run on a task ends in success exactly when it goes out and completes with a valid output; then the approval
      is used up. */
  lemma {:induction false} ModelSucceeds(wiring: Wiring, s: State, request: ModelRequest, context: ModelContext)
    requires request.task.Some?
    ensures RunModel(wiring, s, request, context).1 == Ran(Success) <==>
            ModelGoes(wiring, s, request, context) && context.call == Completed(true)
    ensures RunModel(wiring, s, request, context).1 == Ran(Success) ==>
              IsResumed(RunModel(wiring, s, request, context).0, RuntimeRef(request.task.value))
  {
    hide ModelDecision, CheckApproval, Approves;
    CheckApprovalIff(
      wiring, s, request.project, request.task.value, false, request.policyRef, request.runId, request.nodeId);
  }

  lemma SameApproval(wiring: Wiring, a: State, b: State, request: ModelRequest)
    requires a.runtimeTasks == b.runtimeTasks && a.policies == b.policies && a.now == b.now
    ensures ModelDecision(wiring, a, request) == ModelDecision(wiring, b, request)
    ensures forall id, shell ::
              Approves(wiring, a, request.project, id, shell, request.policyRef, request.runId, request.nodeId)
              == Approves(wiring, b, request.project, id, shell, request.policyRef, request.runId, request.nodeId)
  {}

  // --- What invocations show ------------------------------------------------------------------------

  /** The invocation of an approval task shows where it stands: waiting while pending, denied or cancelled after a
      rejection or revocation of a tool call, and the outcome of the one call that used it up. A rejected or revoked
      runtime task leaves its invocation waiting. */
  ghost predicate RowsFollowTasks(s: State) {
    && (forall id | id in s.toolTasks ::
          && s.toolTasks[id].invocation in s.toolInvocations
          && var (task, row) := (s.toolTasks[id].status, s.toolInvocations[s.toolTasks[id].invocation].status);
             && (task == Pending ==> row == AwaitingApproval)
             && (task == Rejected ==> row == DeniedCall)
             && (task == Revoked ==> row == Cancelled)
             && (task == Approved ==> row != Success && row != Cancelled)
             && (task == Resumed ==>
                   exists i :: 0 <= i < |s.log| && Spends(s.log[i]) == Some(ToolRef(id)) && s.log[i].status == row))
    && (forall id | id in s.runtimeTasks ::
          && (s.runtimeTasks[id].status in {Pending, Rejected, Revoked} ==>
              RuntimeRowIs(s, s.runtimeTasks[id], AwaitingApproval))
          && (s.runtimeTasks[id].status == Resumed ==>
                exists i :: 0 <= i < |s.log| && Spends(s.log[i]) == Some(RuntimeRef(id))
                            && RuntimeRowIs(s, s.runtimeTasks[id], s.log[i].status)))
  }

  lemma {:induction false} RowsFollowTasksIn(s: State)
    requires Inv(s)
    ensures RowsFollowTasks(s)
  {
    hide RuntimeRowIs;
    forall id | id in s.toolTasks
      ensures ToolTaskOk(s, id, s.toolTasks[id])
      ensures s.toolTasks[id].status == Resumed ==>
                exists i :: 0 <= i < |s.log| && Spends(s.log[i]) == Some(ToolRef(id))
                            && s.log[i].status == s.toolInvocations[s.toolTasks[id].invocation].status
    {
      assert ToolTaskOk(s, id, s.toolTasks[id]);
      if s.toolTasks[id].status == Resumed {
        var i := UsingEffect(s, ToolRef(id));
      }
    }
    forall id | id in s.runtimeTasks
      ensures RuntimeTaskOk(s, id, s.runtimeTasks[id])
      ensures s.runtimeTasks[id].status == Resumed ==>
                exists i :: 0 <= i < |s.log| && Spends(s.log[i]) == Some(RuntimeRef(id))
                            && RuntimeRowIs(s, s.runtimeTasks[id], s.log[i].status)
    {
      assert RuntimeTaskOk(s, id, s.runtimeTasks[id]);
      if s.runtimeTasks[id].status == Resumed {
        var i := UsingEffect(s, RuntimeRef(id));
      }
    }
    hide Inv;
  }

  /** In every run the invocations follow their tasks. */
  lemma {:induction false} InvocationsFollowTasks(start: int, steps: seq<Step>)
    ensures RowsFollowTasks(After(Start(start), steps))
  {
    hide After, Inv, RowsFollowTasks;
    ReachableInv(start, steps);
    RowsFollowTasksIn(After(Start(start), steps));
  }

  /** The effect that used a task up. */
  lemma {:induction false} UsingEffect(s: State, ref: TaskRef) returns (i: nat)
    requires LogInv(s) && IsResumed(s, ref)
    ensures i < |s.log| && Spends(s.log[i]) == Some(ref) && Justified(s, s.log[i])
  {
    hide Justified;
    assert SpendCount(s.log, ref) == 1;
    i := CountedIsSpent(s.log, ref);
  }

  /** A tool resume that does not reach the tool closes the invocation by its reason: expired, denied, or failed. */
  lemma {:induction false} ResumeRefusalShows(
    start: int, steps: seq<Step>, wiring: Wiring, project: Id, id: Id, context: ToolContext)
    requires id in After(Start(start), steps).toolTasks
    ensures var s := After(Start(start), steps);
            var (after, result) := ResumeTool(wiring, s, project, id, context);
            var inv := s.toolTasks[id].invocation;
            && inv in after.toolInvocations
            && (result == Refused(TaskExpired) ==> after.toolInvocations[inv].status == Expired)
            && (result == Refused(NotAuthorized)
                || result == Refused(InvalidArguments)
                || result == Refused(PolicyDenied) ==>
                  after.toolInvocations[inv].status == DeniedCall)
            && (result == Refused(NoServer) || result == Refused(CredentialInactive) || result == Refused(CallError) ==>
                  after.toolInvocations[inv].status == Failed)
            && (result.Ran? ==> after.toolInvocations[inv].status == result.status)
            && (result == Refused(TaskNotFound)
                || result == Refused(AlreadyResumed)
                || result == Refused(NotApproved) ==>
                  after == s)
  {
    ReachableInv(start, steps);
    var s := After(Start(start), steps);
    hide After, LogInv, IdsBelow, ResumeTool;
    assert ToolTaskOk(s, id, s.toolTasks[id]);
    hide Inv, Tables, ToolRowFits;
    EarlyRefusals(wiring, s, project, id, context);
    CloseShows(wiring, s, project, id, context);
  }

  lemma {:induction false} EarlyRefusals(wiring: Wiring, s: State, project: Id, id: Id, context: ToolContext)
    ensures var (after, result) := ResumeTool(wiring, s, project, id, context);
            result == Refused(TaskNotFound) || result == Refused(AlreadyResumed) || result == Refused(NotApproved) ==>
              after == s
  {
    hide ToolDecision, CredentialUsable, Logged;
  }

  lemma {:induction false} CloseShows(wiring: Wiring, s: State, project: Id, id: Id, context: ToolContext)
    requires id in s.toolTasks && s.toolTasks[id].invocation in s.toolInvocations
    requires s.toolInvocations[s.toolTasks[id].invocation].project == s.toolTasks[id].project
    ensures var (after, result) := ResumeTool(wiring, s, project, id, context);
            var inv := s.toolTasks[id].invocation;
            && inv in after.toolInvocations
            && (result == Refused(TaskExpired) ==> after.toolInvocations[inv].status == Expired)
            && (result == Refused(NotAuthorized)
                || result == Refused(InvalidArguments)
                || result == Refused(PolicyDenied) ==>
                  after.toolInvocations[inv].status == DeniedCall)
            && (result == Refused(NoServer) || result == Refused(CredentialInactive) || result == Refused(CallError) ==>
                  after.toolInvocations[inv].status == Failed)
            && (result.Ran? ==> after.toolInvocations[inv].status == result.status)
  {
    hide ToolDecision, CredentialUsable, Updated, UpdateTool, Logged;
    var inv := s.toolTasks[id].invocation;
    forall status, decision, result {
      UpdatedShows(s, project, inv, status, decision, result);
    }
    if context.authorized.Some? {
      var e := ToolEffect(s, project, s.toolTasks[id].request, context.authorized.value.risk, context.call, Some(id));
      LoggedRows(s, e);
      UpdatedShows(Logged(s, e), project, inv, CallStatus(context.call), Allowed, CallResult(context.call));
    }
  }

  lemma UpdatedShows(s: State, project: Id, inv: Id, status: InvocationStatus, decision: Decision, result: Result)
    requires inv in s.toolInvocations
    ensures var (after, outcome) := Updated(s, project, inv, status, decision, result);
            && inv in after.toolInvocations && after.toolTasks == s.toolTasks
            && (s.toolInvocations[inv].project == project ==>
                  outcome == result && after.toolInvocations[inv].status == status)
            && (s.toolInvocations[inv].project != project ==> outcome == Refused(InvocationMissing))
  {}

  // --- Denial -----------------------------------------------------------------------------------------

  /** The question a step puts to the policy of a project, when it gets that far. */
  function Question(s: State, step: Step): Option<(Id, Request)> {
    match step
    case ToolInvoke(_, project, request, context) =>
      if context.authorized.None? then None else Some((project, ToolQuestion(request, context.authorized.value)))
    case ToolResume(_, project, task, context) =>
      if context.authorized.None? || task !in s.toolTasks then None
      else Some((project, ToolQuestion(s.toolTasks[task].request, context.authorized.value)))
    case ShellStart(_, request, context) =>
      if context.template.None? then None else Some((request.project, ShellQuestion(request, context.template.value)))
    case ShellResume(_, _, task, context) =>
      if context.template.None? || task !in s.runtimeTasks || !s.runtimeTasks[task].payload.ShellPayload? then None
      else Some(
        (s.runtimeTasks[task].payload.shell.project,
         ShellQuestion(s.runtimeTasks[task].payload.shell, context.template.value)))
    case ModelStart(_, request, _) => Some((request.project, ModelQuestion(request)))
    case ToolDecide(_, _, _) => None
    case RuntimeDecide(_, _, _) => None
    case PolicyChange(_) => None
    case Tick(_) => None
  }

  predicate HasEvaluator(step: Step) {
    match step
    case ToolInvoke(wiring, _, _, _) => wiring.evaluator
    case ToolResume(wiring, _, _, _) => wiring.evaluator
    case ShellStart(wiring, _, _) => wiring.evaluator
    case ShellResume(wiring, _, _, _) => wiring.evaluator
    case ModelStart(wiring, _, _) => wiring.evaluator
    case ToolDecide(_, _, _) => false
    case RuntimeDecide(_, _, _) => false
    case PolicyChange(_) => false
    case Tick(_) => false
  }

  /** A deny rule stops everything it decides, also calls that were approved before it was published. */
  lemma {:induction false} DenyStops(s: State, step: Step, i: nat)
    requires HasEvaluator(step) && Question(s, step).Some?
    requires var (project, question) := Question(s, step).value;
             && LivePolicy(s, project).Some?
             && Decides(LivePolicy(s, project).value.rules, i, question)
             && LivePolicy(s, project).value.rules[i].action == Deny
    ensures Take(s, step).0.log == s.log
  {
    var (project, question) := Question(s, step).value;
    EvaluateMeaning(LivePolicy(s, project), question);
    assert Evaluate(LivePolicy(s, project), question).decision == Denied;
    hide Evaluate, LivePolicy, CheckApproval, Approves, Decides, CredentialUsable, InvokeTool, ResumeTool, RunShell,
      RunModel;
    match step {
      case ToolInvoke(wiring, project, request, context) => ToolInvokeCallsIff(wiring, s, project, request, context);
      case ToolResume(wiring, project, task, context) => ToolResumeEffect(wiring, s, project, task, context);
      case ShellStart(wiring, request, context) => ShellRunsIff(wiring, s, request, context);
      case ShellResume(wiring, project, task, context) =>
        ShellRunsIff(wiring, s, s.runtimeTasks[task].payload.shell.(task := Some(task)), context);
      case ModelStart(wiring, request, context) => ModelCallsIff(wiring, s, request, context);
    }
  }

  /** A generated call id never trips the unique constraint on tool invocations. */
  lemma {:induction false} GeneratedIdsAreFree(start: int, steps: seq<Step>, project: Id, request: ToolRequest)
    requires request.callId.None?
    ensures CanRecord(After(Start(start), steps), project, request)
  {
    ReachableInv(start, steps);
    hide LogInv, Tables;
  }
}
