/** The invariant of the approval protocol, and that every step keeps it. */
module ApprovalInvariant {
  import opened Common
  import opened PolicyRules
  import opened ApprovalState

  datatype TaskRef = ToolRef(id: Id) | RuntimeRef(id: Id)

  /** The task an effect uses up: a tool call or a shell run whatever its outcome, a model call only when it
      succeeded. */
  function Spends(e: Effect): Option<TaskRef> {
    if e.task.None? then None
    else match e
      case ToolCall(_, _, _, _, _, task, _) => Some(ToolRef(task.value))
      case ShellRun(_, _, _, _, _, _, _, task, _) => Some(RuntimeRef(task.value))
      case ModelCall(_, _, _, _, _, status, _, task, _) =>
        if status == Success then Some(RuntimeRef(task.value)) else None
  }

  function SpendCount(log: seq<Effect>, ref: TaskRef): nat {
    if log == [] then 0
    else SpendCount(log[..|log| - 1], ref) + if Spends(log[|log| - 1]) == Some(ref) then 1 else 0
  }

  predicate IsResumed(s: State, ref: TaskRef) {
    match ref
    case ToolRef(id) => id in s.toolTasks && s.toolTasks[id].status == Resumed
    case RuntimeRef(id) => id in s.runtimeTasks && s.runtimeTasks[id].status == Resumed
  }

  // --- The invariant ----------------------------------------------------------------------

  predicate ToolBacks(task: ToolTask, e: Effect) {
    && e.ToolCall?
    && task.project == e.project
    && task.request.toolRef == e.toolRef
    && task.request.arguments == e.arguments
    && e.at < task.expiresAt
    && task.decision == Some(Approve)
  }

  /** A blank reference on an approval binds nothing. */
  predicate Binds(own: string, presented: string) { own == "" || own == presented }

  predicate RuntimeBacks(task: RuntimeTask, e: Effect) {
    && task.project == e.project
    && e.at < task.expiresAt
    && task.decision == Some(Approve)
    && match e
       case ToolCall(_, _, _, _, _, _, _) => false
       case ShellRun(_, templateRef, _, runId, nodeId, _, _, _, _) =>
         task.payload.ShellPayload? && task.targetRef == templateRef && Binds(task.runId, runId)
           && Binds(task.nodeId, nodeId)
       case ModelCall(_, policyRef, _, runId, nodeId, _, _, _, _) =>
         task.payload.ModelPayload? && task.targetRef == policyRef && Binds(task.runId, runId)
           && Binds(task.nodeId, nodeId)
  }

  /** The invocation of a runtime task has this status. */
  predicate RuntimeRowIs(s: State, task: RuntimeTask, status: InvocationStatus) {
    if task.payload.ShellPayload? then
       task.invocation in s.shellInvocations && s.shellInvocations[task.invocation].status == status
    else task.invocation in s.modelInvocations && s.modelInvocations[task.invocation].status == status
  }

  /** High risk leaves the system only on a task; a task carries an effect only if it was approved for it and not
      expired; and the invocation of a used task has the status of the effect that used it. */
  predicate Justified(s: State, e: Effect) {
    && (IsHigh(e.risk) ==> e.task.Some?)
    && (e.task.Some? ==>
          if e.ToolCall? then
            && e.task.value in s.toolTasks && ToolBacks(s.toolTasks[e.task.value], e)
            && s.toolTasks[e.task.value].status == Resumed
            && s.toolTasks[e.task.value].invocation in s.toolInvocations
            && s.toolInvocations[s.toolTasks[e.task.value].invocation].status == e.status
          else
            && e.task.value in s.runtimeTasks && RuntimeBacks(s.runtimeTasks[e.task.value], e)
            && (Spends(e).Some? ==>
                  && s.runtimeTasks[e.task.value].status == Resumed
                  && RuntimeRowIs(s, s.runtimeTasks[e.task.value], e.status)))
  }

  ghost predicate LogInv(s: State) {
    && (forall i | 0 <= i < |s.log| :: Justified(s, s.log[i]))
    && (forall ref :: SpendCount(s.log, ref) == if IsResumed(s, ref) then 1 else 0)
  }

  predicate Consistent(status: TaskStatus, decision: Option<TaskDecision>) {
    if decision.None? then status == Pending
    else status == StatusOf(decision.value) || (decision.value == Approve && status == Resumed)
  }

  /** What the invocation of a tool approval shows before it is used. */
  predicate ToolRowFits(task: TaskStatus, row: InvocationStatus) {
    match task
    case Pending => row == AwaitingApproval
    case Rejected => row == DeniedCall
    case Revoked => row == Cancelled
    case Approved => row == AwaitingApproval || row == Expired || row == DeniedCall || row == Failed
    case Resumed => row == Success || row == Failed
  }

  /** A task and its invocation are created together, one id after the other. */
  predicate ToolTaskOk(s: State, id: Id, task: ToolTask) {
    && Consistent(task.status, task.decision)
    && task.expiresAt == task.createdAt + 24 * 60 * 60
    && task.invocation + 1 == id
    && task.invocation in s.toolInvocations && s.toolInvocations[task.invocation].project == task.project
    && ToolRowFits(task.status, s.toolInvocations[task.invocation].status)
  }

  predicate RuntimeTaskOk(s: State, id: Id, task: RuntimeTask) {
    && Consistent(task.status, task.decision)
    && task.expiresAt == task.createdAt + 30 * 60
    && task.invocation + 1 == id
    && (task.status == Pending || task.status == Rejected || task.status == Revoked ==>
        RuntimeRowIs(s, task, AwaitingApproval))
    && match task.payload
       case ShellPayload(request) =>
         && task.invocation in s.shellInvocations && s.shellInvocations[task.invocation].project == task.project
         && request.task.None? && request.project == task.project && request.templateRef == task.targetRef
         && request.runId == task.runId && request.nodeId == task.nodeId
       case ModelPayload(request) =>
         && task.invocation in s.modelInvocations && s.modelInvocations[task.invocation].project == task.project
         && request.task.None? && request.project == task.project && request.policyRef == task.targetRef
         && request.runId == task.runId && request.nodeId == task.nodeId
  }

  ghost predicate Tables(s: State) {
    && (forall id | id in s.toolTasks :: ToolTaskOk(s, id, s.toolTasks[id]))
    && (forall id | id in s.runtimeTasks :: RuntimeTaskOk(s, id, s.runtimeTasks[id]))
  }

  ghost predicate IdsBelow(s: State) {
    && (forall id | id in s.toolInvocations ::
          id < s.nextId && (s.toolInvocations[id].callId.Generated? ==> s.toolInvocations[id].callId.serial < s.nextId))
    && (forall id | id in s.toolTasks :: id < s.nextId)
    && (forall id | id in s.shellInvocations :: id < s.nextId)
    && (forall id | id in s.modelInvocations :: id < s.nextId)
    && (forall id | id in s.runtimeTasks :: id < s.nextId)
  }

  ghost predicate Inv(s: State) { Tables(s) && IdsBelow(s) && LogInv(s) }

  // --- How tasks may change ------------------------------------------------------------------

  /** Only status and decision of a task ever change; a decision once made stays, and so does use. */
  predicate ToolTaskGrows(a: ToolTask, b: ToolTask) {
    && b == a.(status := b.status, decision := b.decision)
    && (a.decision.Some? ==> b.decision == a.decision)
    && (a.status == Resumed ==> b.status == Resumed)
  }

  predicate RuntimeTaskGrows(a: RuntimeTask, b: RuntimeTask) {
    && b == a.(status := b.status, decision := b.decision)
    && (a.decision.Some? ==> b.decision == a.decision)
    && (a.status == Resumed ==> b.status == Resumed)
  }

  /** The row that a tool task points to is untouched. */
  predicate ToolRowKept(a: State, b: State, invocation: Id) {
    invocation in a.toolInvocations ==>
      invocation in b.toolInvocations && b.toolInvocations[invocation] == a.toolInvocations[invocation]
  }

  predicate RuntimeRowKept(a: State, b: State, invocation: Id) {
    && (invocation in a.shellInvocations ==>
          invocation in b.shellInvocations && b.shellInvocations[invocation] == a.shellInvocations[invocation])
    && (invocation in a.modelInvocations ==>
          invocation in b.modelInvocations && b.modelInvocations[invocation] == a.modelInvocations[invocation])
  }

  predicate ToolStays(a: State, b: State, id: Id)
    requires id in a.toolTasks
  {
    && id in b.toolTasks && ToolTaskGrows(a.toolTasks[id], b.toolTasks[id])
    && (a.toolTasks[id].status == Resumed ==> ToolRowKept(a, b, a.toolTasks[id].invocation))
  }

  predicate RuntimeStays(a: State, b: State, id: Id)
    requires id in a.runtimeTasks
  {
    && id in b.runtimeTasks && RuntimeTaskGrows(a.runtimeTasks[id], b.runtimeTasks[id])
    && (a.runtimeTasks[id].status == Resumed ==> RuntimeRowKept(a, b, a.runtimeTasks[id].invocation))
  }

  /** Tasks only move forward, and the invocation of a used task never changes again. */
  ghost predicate TasksGrow(a: State, b: State) {
    && (forall id | id in a.toolTasks :: ToolStays(a, b, id))
    && (forall id | id in a.runtimeTasks :: RuntimeStays(a, b, id))
  }

  lemma ToolStaysBack(a: State, b: State, c: State, id: Id)
    requires id in a.toolTasks && ToolStays(a, b, id) && ToolStays(b, c, id)
    ensures ToolStays(a, c, id)
  {}

  lemma RuntimeStaysBack(a: State, b: State, c: State, id: Id)
    requires id in a.runtimeTasks && RuntimeStays(a, b, id) && RuntimeStays(b, c, id)
    ensures RuntimeStays(a, c, id)
  {}

  lemma GrowsBack(a: State, b: State, c: State)
    requires TasksGrow(a, b) && TasksGrow(b, c)
    ensures TasksGrow(a, c)
  {
    forall id | id in a.toolTasks
      ensures ToolStays(a, c, id)
    {
      assert ToolStays(a, b, id);
      ToolStaysBack(a, b, c, id);
    }
    forall id | id in a.runtimeTasks
      ensures RuntimeStays(a, c, id)
    {
      assert RuntimeStays(a, b, id);
      RuntimeStaysBack(a, b, c, id);
    }
  }

  lemma JustifiedGrows(a: State, b: State, e: Effect)
    requires TasksGrow(a, b) && Justified(a, e)
    ensures Justified(b, e)
  {
    if e.task.Some? {
      assert e.ToolCall? ==> ToolStays(a, b, e.task.value);
      assert !e.ToolCall? ==> RuntimeStays(a, b, e.task.value);
    }
  }

  /** A step without an effect that resumes nothing keeps the log's invariant. */
  lemma LogKept(a: State, b: State)
    requires LogInv(a) && TasksGrow(a, b) && b.log == a.log
    requires forall ref :: IsResumed(b, ref) <==> IsResumed(a, ref)
    ensures LogInv(b)
  {
    hide Justified, IsResumed, TasksGrow;
    forall i | 0 <= i < |b.log|
      ensures Justified(b, b.log[i])
    {
      JustifiedGrows(a, b, a.log[i]);
    }
  }

  /** A step with one effect must resume exactly the approval that the effect uses up, which was not resumed before. */
  lemma LogExtended(a: State, b: State, e: Effect)
    requires LogInv(a) && TasksGrow(a, b) && b.log == a.log + [e]
    requires Justified(b, e)
    requires forall ref :: IsResumed(b, ref) <==> IsResumed(a, ref) || Spends(e) == Some(ref)
    requires Spends(e).Some? ==> !IsResumed(a, Spends(e).value)
    ensures LogInv(b)
  {
    hide Justified, IsResumed, TasksGrow, Spends;
    forall i | 0 <= i < |b.log|
      ensures Justified(b, b.log[i])
    {
      if i < |a.log| {
        JustifiedGrows(a, b, a.log[i]);
      }
    }
    assert b.log[..|b.log| - 1] == a.log;
    forall ref
      ensures SpendCount(b.log, ref) == if IsResumed(b, ref) then 1 else 0
    {
      assert SpendCount(b.log, ref) == SpendCount(a.log, ref) + if Spends(e) == Some(ref) then 1 else 0;
    }
  }

  // --- What a write may touch -------------------------------------------------------------------

  /** No task but possibly `except` notices the step: the others and their rows are the same, and there are no new
      ones. */
  ghost predicate Unnoticed(a: State, b: State, except: Option<TaskRef>) {
    && (forall id | id in a.toolTasks && except != Some(ToolRef(id)) ::
          id in b.toolTasks && b.toolTasks[id] == a.toolTasks[id] && ToolRowKept(a, b, a.toolTasks[id].invocation))
    && (forall id | id in b.toolTasks && except != Some(ToolRef(id)) :: id in a.toolTasks)
    && (forall id | id in a.runtimeTasks && except != Some(RuntimeRef(id)) ::
          id in b.runtimeTasks && b.runtimeTasks[id] == a.runtimeTasks[id]
            && RuntimeRowKept(a, b, a.runtimeTasks[id].invocation))
    && (forall id | id in b.runtimeTasks && except != Some(RuntimeRef(id)) :: id in a.runtimeTasks)
  }

  /** The task named by `ref` is in order after the step and only moved forward. */
  predicate Sound(a: State, b: State, ref: Option<TaskRef>) {
    match ref
    case None => true
    case Some(ToolRef(id)) =>
      id in b.toolTasks && ToolTaskOk(b, id, b.toolTasks[id]) && (id in a.toolTasks ==> ToolStays(a, b, id))
    case Some(RuntimeRef(id)) =>
      id in b.runtimeTasks && RuntimeTaskOk(b, id, b.runtimeTasks[id])
        && (id in a.runtimeTasks ==> RuntimeStays(a, b, id))
  }

  lemma ToolOkKept(a: State, b: State, id: Id, task: ToolTask)
    requires ToolTaskOk(a, id, task) && ToolRowKept(a, b, task.invocation)
    ensures ToolTaskOk(b, id, task)
  {}

  lemma RuntimeOkKept(a: State, b: State, id: Id, task: RuntimeTask)
    requires RuntimeTaskOk(a, id, task) && RuntimeRowKept(a, b, task.invocation)
    ensures RuntimeTaskOk(b, id, task)
  {}

  /** A step that at most one task notices, soundly. */
  lemma Advance(a: State, b: State, ref: Option<TaskRef>)
    requires Tables(a) && Unnoticed(a, b, ref) && Sound(a, b, ref)
    ensures Tables(b) && TasksGrow(a, b)
    ensures forall other | ref != Some(other) :: IsResumed(b, other) <==> IsResumed(a, other)
  {
    hide ToolTaskOk, RuntimeTaskOk, ToolRowKept, RuntimeRowKept;
    forall id | id in b.toolTasks
      ensures ToolTaskOk(b, id, b.toolTasks[id])
    {
      if ref != Some(ToolRef(id)) {
        ToolOkKept(a, b, id, a.toolTasks[id]);
      }
    }
    forall id | id in b.runtimeTasks
      ensures RuntimeTaskOk(b, id, b.runtimeTasks[id])
    {
      if ref != Some(RuntimeRef(id)) {
        RuntimeOkKept(a, b, id, a.runtimeTasks[id]);
      }
    }
  }

  lemma NotResumed(s: State, ref: TaskRef)
    requires ref.ToolRef? ==> ref.id !in s.toolTasks || s.toolTasks[ref.id].status != Resumed
    requires ref.RuntimeRef? ==> ref.id !in s.runtimeTasks || s.runtimeTasks[ref.id].status != Resumed
    ensures !IsResumed(s, ref)
  {}

  /** The invariant holds after a step, and tasks only moved forward. */
  ghost predicate Keeps(a: State, b: State) { Inv(b) && TasksGrow(a, b) }

  lemma Unchanged(s: State)
    requires Inv(s)
    ensures Keeps(s, s)
  {}

  lemma KeepsInv(a: State, b: State)
    requires Keeps(a, b)
    ensures Inv(b)
  {}

  lemma KeepsThen(a: State, b: State, c: State)
    requires Keeps(a, b) && Keeps(b, c)
    ensures Keeps(a, c)
  {
    hide Inv;
    GrowsBack(a, b, c);
  }

  /** A step without an effect: no task is used before or after. */
  lemma Quiet(a: State, b: State, ref: Option<TaskRef>)
    requires Inv(a) && IdsBelow(b) && Unnoticed(a, b, ref) && Sound(a, b, ref) && b.log == a.log
    requires ref.Some? ==> !IsResumed(a, ref.value) && !IsResumed(b, ref.value)
    ensures Keeps(a, b)
  {
    hide Tables, IdsBelow, LogInv, Unnoticed, Sound, IsResumed, TasksGrow;
    Advance(a, b, ref);
    LogKept(a, b);
  }

  /** A step with one effect that uses up the approval it names, or none. */
  lemma Acting(a: State, b: State, ref: Option<TaskRef>, e: Effect)
    requires Inv(a) && IdsBelow(b) && Unnoticed(a, b, ref) && Sound(a, b, ref) && b.log == a.log + [e]
    requires Justified(b, e) && Spends(e) == ref
    requires ref.Some? ==> !IsResumed(a, ref.value) && IsResumed(b, ref.value)
    ensures Keeps(a, b)
  {
    hide Tables, IdsBelow, LogInv, Unnoticed, Sound, IsResumed, TasksGrow, Justified, Spends;
    Advance(a, b, ref);
    LogExtended(a, b, e);
  }

  /** Every task points to a row below the next id. */
  lemma RowsBelow(s: State)
    requires Tables(s) && IdsBelow(s)
    ensures forall id | id in s.toolTasks ::
            s.toolTasks[id].invocation < s.nextId && s.toolTasks[id].invocation + 1 == id
    ensures forall id | id in s.runtimeTasks ::
            s.runtimeTasks[id].invocation < s.nextId && s.runtimeTasks[id].invocation + 1 == id
  {
    forall id | id in s.toolTasks
      ensures s.toolTasks[id].invocation + 1 == id
    {
      assert ToolTaskOk(s, id, s.toolTasks[id]);
    }
    forall id | id in s.runtimeTasks
      ensures s.runtimeTasks[id].invocation + 1 == id
    {
      assert RuntimeTaskOk(s, id, s.runtimeTasks[id]);
    }
  }

  /** Writing tool task `id` and its row is noticed by no other task. */
  lemma ToolWrite(a: State, b: State, id: Id)
    requires Tables(a) && IdsBelow(a) && id > 0
    requires b.runtimeTasks == a.runtimeTasks && b.shellInvocations == a.shellInvocations
             && b.modelInvocations == a.modelInvocations
    requires b.toolTasks.Keys == a.toolTasks.Keys + {id} && forall i | i in a.toolTasks && i != id ::
             b.toolTasks[i] == a.toolTasks[i]
    requires forall i | i in a.toolInvocations && i + 1 != id ::
             i in b.toolInvocations && b.toolInvocations[i] == a.toolInvocations[i]
    ensures Unnoticed(a, b, Some(ToolRef(id)))
  {
    RowsBelow(a);
    hide Tables, IdsBelow;
  }

  /** Writing runtime task `id` and its rows is noticed by no other task. */
  lemma RuntimeWrite(a: State, b: State, id: Id)
    requires Tables(a) && IdsBelow(a) && id > 0
    requires b.toolTasks == a.toolTasks && b.toolInvocations == a.toolInvocations
    requires b.runtimeTasks.Keys == a.runtimeTasks.Keys + {id} && forall i | i in a.runtimeTasks && i != id ::
             b.runtimeTasks[i] == a.runtimeTasks[i]
    requires forall i | i in a.shellInvocations && i + 1 != id ::
             i in b.shellInvocations && b.shellInvocations[i] == a.shellInvocations[i]
    requires forall i | i in a.modelInvocations && i + 1 != id ::
             i in b.modelInvocations && b.modelInvocations[i] == a.modelInvocations[i]
    ensures Unnoticed(a, b, Some(RuntimeRef(id)))
  {
    RowsBelow(a);
    hide Tables, IdsBelow;
  }

  /** Adding rows that no task points to is noticed by none. */
  lemma FreshRow(a: State, b: State)
    requires b.toolTasks == a.toolTasks && b.runtimeTasks == a.runtimeTasks
    requires forall i | i in a.toolInvocations :: i in b.toolInvocations && b.toolInvocations[i] == a.toolInvocations[i]
    requires forall i | i in a.shellInvocations ::
             i in b.shellInvocations && b.shellInvocations[i] == a.shellInvocations[i]
    requires forall i | i in a.modelInvocations ::
             i in b.modelInvocations && b.modelInvocations[i] == a.modelInvocations[i]
    ensures Unnoticed(a, b, None)
  {}

  /** Writes under existing keys use no new id. */
  lemma SameIds(a: State, b: State)
    requires IdsBelow(a) && b.nextId == a.nextId
    requires b.toolInvocations.Keys == a.toolInvocations.Keys && b.toolTasks.Keys == a.toolTasks.Keys
    requires forall i | i in a.toolInvocations :: b.toolInvocations[i].callId == a.toolInvocations[i].callId
    requires b.shellInvocations.Keys == a.shellInvocations.Keys && b.modelInvocations.Keys == a.modelInvocations.Keys
    requires b.runtimeTasks.Keys == a.runtimeTasks.Keys
    ensures IdsBelow(b)
  {}

  /** A step that rewrites one unused tool task and its row. */
  predicate RewritesTool(a: State, b: State, id: Id) {
    && id in a.toolTasks && id in b.toolTasks && a.toolTasks[id].status != Resumed
    && ToolTaskGrows(a.toolTasks[id], b.toolTasks[id])
    && var inv := a.toolTasks[id].invocation;
       && inv + 1 == id && inv in a.toolInvocations && inv in b.toolInvocations
       && b.toolInvocations[inv].callId == a.toolInvocations[inv].callId
       && b == a.(toolTasks := a.toolTasks[id := b.toolTasks[id]],
                  toolInvocations := a.toolInvocations[inv := b.toolInvocations[inv]], log := b.log)
  }

  lemma ToolRewritten(a: State, b: State, id: Id)
    requires Tables(a) && IdsBelow(a) && RewritesTool(a, b, id) && ToolTaskOk(b, id, b.toolTasks[id])
    ensures IdsBelow(b) && Unnoticed(a, b, Some(ToolRef(id))) && Sound(a, b, Some(ToolRef(id)))
  {
    hide Tables, IdsBelow, Unnoticed, ToolTaskOk, RuntimeTaskOk;
    ToolWrite(a, b, id);
    SameIds(a, b);
  }

  /** A step that rewrites one unused runtime task and its row. */
  predicate RewritesRuntime(a: State, b: State, id: Id) {
    && id in a.runtimeTasks && id in b.runtimeTasks && a.runtimeTasks[id].status != Resumed
    && RuntimeTaskGrows(a.runtimeTasks[id], b.runtimeTasks[id])
    && var inv := a.runtimeTasks[id].invocation;
       && inv + 1 == id
       && b == a.(runtimeTasks := a.runtimeTasks[id := b.runtimeTasks[id]],
                  shellInvocations := b.shellInvocations, modelInvocations := b.modelInvocations, log := b.log)
       && (b.shellInvocations == a.shellInvocations
           || (inv in a.shellInvocations && inv in b.shellInvocations
               && b.shellInvocations == a.shellInvocations[inv := b.shellInvocations[inv]]))
       && (b.modelInvocations == a.modelInvocations
           || (inv in a.modelInvocations && inv in b.modelInvocations
               && b.modelInvocations == a.modelInvocations[inv := b.modelInvocations[inv]]))
  }

  lemma RuntimeRewritten(a: State, b: State, id: Id)
    requires Tables(a) && IdsBelow(a) && RewritesRuntime(a, b, id) && RuntimeTaskOk(b, id, b.runtimeTasks[id])
    ensures IdsBelow(b) && Unnoticed(a, b, Some(RuntimeRef(id))) && Sound(a, b, Some(RuntimeRef(id)))
  {
    hide Tables, IdsBelow, Unnoticed, ToolTaskOk, RuntimeTaskOk;
    RuntimeWrite(a, b, id);
    SameIds(a, b);
  }

  // --- Tool gateway ---------------------------------------------------------------------------

  lemma RecordedKeeps(s: State, project: Id, request: ToolRequest, status: InvocationStatus, decision: Decision)
    requires Inv(s)
    ensures Keeps(s, RecordTool(s, project, request, status, decision))
  {
    hide CanRecord, LogInv, Tables, Unnoticed, IsResumed, Keeps;
    if CanRecord(s, project, request) {
      var s' := RecordTool(s, project, request, status, decision);
      FreshRow(s, s');
      assert IdsBelow(s');
      Quiet(s, s', None);
    } else {
      Unchanged(s);
    }
  }

  lemma ParkToolKeeps(s: State, project: Id, request: ToolRequest, risk: RiskLevel)
    requires Inv(s)
    ensures Keeps(s, ParkTool(s, project, request, risk).0)
    ensures ParkTool(s, project, request, risk).1 != Refused(InvocationMissing)
  {
    hide CanRecord, LogInv, Tables, Unnoticed, IsResumed, Keeps;
    var s' := ParkTool(s, project, request, risk).0;
    if CanRecord(s, project, request) {
      var id := s.nextId + 1;
      assert id !in s.toolTasks;
      ToolWrite(s, s', id);
      NotResumed(s, ToolRef(id));
      NotResumed(s', ToolRef(id));
      assert IdsBelow(s');
      assert ToolTaskOk(s', id, s'.toolTasks[id]);
      Quiet(s, s', Some(ToolRef(id)));
    } else {
      Unchanged(s);
    }
  }

  /** The invocation of an approved task may be closed in any of these ways while it stays approved. */
  lemma UpdatedKeeps(s: State, id: Id, status: InvocationStatus, decision: Decision)
    requires Inv(s) && id in s.toolTasks && s.toolTasks[id].status == Approved && ToolRowFits(Approved, status)
    ensures s.toolTasks[id].invocation in s.toolInvocations
    ensures s.toolInvocations[s.toolTasks[id].invocation].project == s.toolTasks[id].project
    ensures Keeps(s, UpdateTool(s, s.toolTasks[id].invocation, status, decision))
  {
    hide LogInv, Unnoticed, IsResumed, Keeps, IdsBelow, Sound;
    assert ToolTaskOk(s, id, s.toolTasks[id]);
    hide Tables;
    var s' := UpdateTool(s, s.toolTasks[id].invocation, status, decision);
    ToolRewritten(s, s', id);
    NotResumed(s, ToolRef(id));
    NotResumed(s', ToolRef(id));
    Quiet(s, s', Some(ToolRef(id)));
  }

  /** With or without an evaluator, an allowed tool call is not high risk. */
  lemma ToolFloor(wiring: Wiring, s: State, project: Id, request: ToolRequest, tool: AuthorizedTool)
    requires ToolDecision(wiring, s, project, request, tool) == Allowed
    ensures !IsHigh(tool.risk)
  {
    hide Evaluate;
    if IsHigh(tool.risk) {
      FloorHolds(LivePolicy(s, project), ToolQuestion(request, tool));
    }
  }

  /** An effect on no task, or a model call that did not succeed on its approved task. */
  lemma LoggedKeeps(s: State, e: Effect)
    requires Inv(s) && Justified(s, e) && Spends(e).None?
    ensures Keeps(s, Logged(s, e))
  {
    hide LogInv, Tables, Unnoticed, IsResumed, Keeps, IdsBelow, Spends;
    var s' := Logged(s, e);
    FreshRow(s, s');
    SameIds(s, s');
    Acting(s, s', None, e);
  }

  lemma InvokeToolKeeps(wiring: Wiring, s: State, project: Id, request: ToolRequest, context: ToolContext)
    requires Inv(s)
    ensures Keeps(s, InvokeTool(wiring, s, project, request, context).0)
    ensures InvokeTool(wiring, s, project, request, context).1 != Refused(InvocationMissing)
  {
    hide Keeps, Inv, CanRecord, ToolDecision, ParkTool, Logged, RecordTool;
    forall status, decision {
      RecordedKeeps(s, project, request, status, decision);
    }
    if context.authorized.Some? {
      var tool := context.authorized.value;
      ParkToolKeeps(s, project, request, tool.risk);
      if ToolDecision(wiring, s, project, request, tool) == Allowed {
        ToolFloor(wiring, s, project, request, tool);
        var effect := ToolEffect(s, project, request, tool.risk, context.call, None);
        ToolCalledKeeps(s, project, request, effect, CallStatus(context.call));
      }
    }
  }

  lemma ToolCalledKeeps(s: State, project: Id, request: ToolRequest, e: Effect, status: InvocationStatus)
    requires Inv(s) && e.task.None? && !IsHigh(e.risk)
    ensures Keeps(s, RecordTool(Logged(s, e), project, request, status, Allowed))
  {
    hide RecordTool, Inv, TasksGrow, Logged;
    LoggedKeeps(s, e);
    RecordedKeeps(Logged(s, e), project, request, status, Allowed);
    KeepsThen(s, Logged(s, e), RecordTool(Logged(s, e), project, request, status, Allowed));
  }

  /** The approved call: one effect, the invocation updated with its outcome, the approval used up. */
  lemma CallApprovedKeeps(s: State, id: Id, e: Effect)
    requires Inv(s) && id in s.toolTasks && s.toolTasks[id].status == Approved
    requires e.task == Some(id) && ToolBacks(s.toolTasks[id], e) && (e.status == Success || e.status == Failed)
    ensures s.toolTasks[id].invocation in s.toolInvocations
    ensures s.toolInvocations[s.toolTasks[id].invocation].project == s.toolTasks[id].project
    ensures Keeps(s, MarkToolResumed(UpdateTool(Logged(s, e), s.toolTasks[id].invocation, e.status, Allowed), id))
  {
    hide LogInv, Unnoticed, IsResumed, Keeps, IdsBelow, ToolBacks, Sound, Justified, Spends;
    assert ToolTaskOk(s, id, s.toolTasks[id]);
    hide Tables;
    var s' := MarkToolResumed(UpdateTool(Logged(s, e), s.toolTasks[id].invocation, e.status, Allowed), id);
    ToolRewritten(s, s', id);
    ToolSpent(s, s', id, e);
    Acting(s, s', Some(ToolRef(id)), e);
  }

  /** Using up an approved tool task with the effect it backs. */
  lemma ToolSpent(a: State, b: State, id: Id, e: Effect)
    requires id in a.toolTasks && a.toolTasks[id].status == Approved && ToolBacks(a.toolTasks[id], e)
             && e.task == Some(id)
    requires id in b.toolTasks && b.toolTasks[id] == a.toolTasks[id].(status := Resumed)
    requires b.toolTasks[id].invocation in b.toolInvocations
             && b.toolInvocations[b.toolTasks[id].invocation].status == e.status
    ensures Spends(e) == Some(ToolRef(id)) && Justified(b, e)
    ensures IsResumed(b, ToolRef(id)) && !IsResumed(a, ToolRef(id))
  {}

  lemma ResumeToolKeeps(wiring: Wiring, s: State, project: Id, id: Id, context: ToolContext)
    requires Inv(s)
    ensures Keeps(s, ResumeTool(wiring, s, project, id, context).0)
    ensures ResumeTool(wiring, s, project, id, context).1 != Refused(InvocationMissing)
  {
    hide Keeps, ToolDecision, Inv, Logged, UpdateTool, MarkToolResumed, ToolBacks;
    Unchanged(s);
    if id in s.toolTasks && s.toolTasks[id].project == project && s.toolTasks[id].status == Approved {
      var task := s.toolTasks[id];
      ApprovedTool(s, id);
      UpdatedKeeps(s, id, Expired, Denied);
      UpdatedKeeps(s, id, DeniedCall, Denied);
      UpdatedKeeps(s, id, Failed, Allowed);
      if s.now < task.expiresAt && context.authorized.Some? {
        var e := ToolEffect(s, project, task.request, context.authorized.value.risk, context.call, Some(id));
        EffectBacked(s, id, e);
        CallApprovedKeeps(s, id, e);
        LoggedRows(s, e);
      }
    }
  }

  lemma LoggedRows(s: State, e: Effect)
    ensures Logged(s, e).toolInvocations == s.toolInvocations
  {}

  lemma ApprovedTool(s: State, id: Id)
    requires Inv(s) && id in s.toolTasks && s.toolTasks[id].status == Approved
    ensures s.toolTasks[id].decision == Some(Approve)
  {
    assert ToolTaskOk(s, id, s.toolTasks[id]);
  }

  lemma EffectBacked(s: State, id: Id, e: Effect)
    requires id in s.toolTasks && s.toolTasks[id].decision == Some(Approve) && e.ToolCall?
             && e.at < s.toolTasks[id].expiresAt
    requires e.project == s.toolTasks[id].project
    requires e.toolRef == s.toolTasks[id].request.toolRef && e.arguments == s.toolTasks[id].request.arguments
    ensures ToolBacks(s.toolTasks[id], e)
  {}

  lemma DecideToolKeeps(s: State, project: Id, id: Id, decision: TaskDecision)
    requires Inv(s)
    ensures Keeps(s, DecideTool(s, project, id, decision).0)
    ensures DecideTool(s, project, id, decision).1 != Refused(InvocationMissing)
  {
    hide Inv, Keeps;
    Unchanged(s);
    if id in s.toolTasks && s.toolTasks[id].project == project && s.toolTasks[id].status == Pending {
      PendingTool(s, id);
      DecidedTool(s, id, decision, DecideTool(s, project, id, decision).0);
    }
  }

  lemma PendingTool(s: State, id: Id)
    requires Inv(s) && id in s.toolTasks && s.toolTasks[id].status == Pending
    ensures id == s.toolTasks[id].invocation + 1 && s.toolTasks[id].decision.None?
    ensures s.toolTasks[id].expiresAt == s.toolTasks[id].createdAt + 24 * 60 * 60
    ensures s.toolTasks[id].invocation in s.toolInvocations
    ensures s.toolInvocations[s.toolTasks[id].invocation].project == s.toolTasks[id].project
    ensures s.toolInvocations[s.toolTasks[id].invocation].status == AwaitingApproval
  {
    assert ToolTaskOk(s, id, s.toolTasks[id]);
  }

  /** The status that a decision leaves on the invocation. */
  function ClosedBy(decision: TaskDecision): InvocationStatus {
    match decision
    case Approve => AwaitingApproval
    case Reject => DeniedCall
    case Revoke => Cancelled
  }

  lemma DecidedTool(a: State, id: Id, decision: TaskDecision, b: State)
    requires Inv(a) && id in a.toolTasks && a.toolTasks[id].status == Pending
    requires var inv := a.toolTasks[id].invocation;
             && inv in a.toolInvocations && inv in b.toolInvocations
             && b.toolInvocations[inv] == a.toolInvocations[inv].(
                  status := ClosedBy(decision), decision := b.toolInvocations[inv].decision)
             && b == a.(toolTasks := a.toolTasks[id :=
                          a.toolTasks[id].(status := StatusOf(decision), decision := Some(decision))],
                        toolInvocations := a.toolInvocations[inv := b.toolInvocations[inv]])
    ensures Keeps(a, b)
  {
    PendingTool(a, id);
    hide LogInv, Unnoticed, IsResumed, Keeps, IdsBelow, Tables, Sound;
    ToolRewritten(a, b, id);
    NotResumed(a, ToolRef(id));
    NotResumed(b, ToolRef(id));
    Quiet(a, b, Some(ToolRef(id)));
  }

  // --- Runtime gateways --------------------------------------------------------------------------

  lemma DecideRuntimeKeeps(s: State, project: Id, id: Id, decision: TaskDecision)
    requires Inv(s)
    ensures Keeps(s, DecideRuntime(s, project, id, decision).0)
    ensures DecideRuntime(s, project, id, decision).1 != Refused(InvocationMissing)
  {
    hide Inv, Keeps;
    Unchanged(s);
    if id in s.runtimeTasks && s.runtimeTasks[id].project == project && s.runtimeTasks[id].status == Pending {
      DecidedRuntime(s, id, decision);
    }
  }

  lemma DecidedRuntime(s: State, id: Id, decision: TaskDecision)
    requires Inv(s) && id in s.runtimeTasks && s.runtimeTasks[id].status == Pending
    ensures var task := s.runtimeTasks[id].(status := StatusOf(decision), decision := Some(decision));
            Keeps(s, s.(runtimeTasks := s.runtimeTasks[id := task]))
  {
    hide LogInv, Unnoticed, IsResumed, Keeps, IdsBelow, RuntimeRowIs, Sound;
    assert RuntimeTaskOk(s, id, s.runtimeTasks[id]);
    hide Tables;
    var task := s.runtimeTasks[id].(status := StatusOf(decision), decision := Some(decision));
    var s' := s.(runtimeTasks := s.runtimeTasks[id := task]);
    SameRuntimeRow(s, s', task, s.runtimeTasks[id]);
    RuntimeRewritten(s, s', id);
    NotResumed(s, RuntimeRef(id));
    NotResumed(s', RuntimeRef(id));
    Quiet(s, s', Some(RuntimeRef(id)));
  }

  lemma SameRuntimeRow(a: State, b: State, x: RuntimeTask, y: RuntimeTask)
    requires a.shellInvocations == b.shellInvocations && a.modelInvocations == b.modelInvocations
    requires x.invocation == y.invocation && x.payload == y.payload
    ensures forall status :: RuntimeRowIs(b, x, status) <==> RuntimeRowIs(a, y, status)
  {}

  lemma ParkShellKeeps(s: State, request: ShellRequest, template: Template)
    requires Inv(s) && request.task.None?
    ensures Keeps(s, ParkShell(s, request, template).0)
    ensures ParkShell(s, request, template).1 != Refused(InvocationMissing)
  {
    hide LogInv, Tables, Unnoticed, IsResumed, Keeps;
    var s' := ParkShell(s, request, template).0;
    var id := s.nextId + 1;
    assert id !in s.runtimeTasks;
    RuntimeWrite(s, s', id);
    NotResumed(s, RuntimeRef(id));
    NotResumed(s', RuntimeRef(id));
    assert IdsBelow(s');
    assert RuntimeTaskOk(s', id, s'.runtimeTasks[id]);
    Quiet(s, s', Some(RuntimeRef(id)));
  }

  lemma ShellFloor(wiring: Wiring, s: State, request: ShellRequest, template: Template)
    requires ShellDecision(wiring, s, request, template) == Allowed
    ensures !IsHigh(template.risk)
  {
    hide Evaluate;
    if IsHigh(template.risk) {
      FloorHolds(LivePolicy(s, request.project), ShellQuestion(request, template));
    }
  }

  lemma RecordShellKeeps(s: State, request: ShellRequest, status: InvocationStatus, result: Result)
    requires Inv(s)
    requires request.task.Some? ==>
               && request.task.value in s.runtimeTasks
               && s.runtimeTasks[request.task.value].payload.ShellPayload?
               && s.runtimeTasks[request.task.value].project == request.project
               && s.runtimeTasks[request.task.value].status == Approved
    ensures Keeps(s, RecordShell(s, request, status, result).0)
    ensures RecordShell(s, request, status, result).1 == result
  {
    hide LogInv, Unnoticed, IsResumed, Keeps;
    var s' := RecordShell(s, request, status, result).0;
    if request.task.None? {
      hide Tables;
      FreshRow(s, s');
      assert IdsBelow(s');
      Quiet(s, s', None);
    } else {
      hide IdsBelow, Sound;
      var id := request.task.value;
      assert RuntimeTaskOk(s, id, s.runtimeTasks[id]);
      hide Tables;
      RuntimeRewritten(s, s', id);
      NotResumed(s, RuntimeRef(id));
      NotResumed(s', RuntimeRef(id));
      Quiet(s, s', Some(RuntimeRef(id)));
    }
  }

  lemma ShellCalledKeeps(s: State, request: ShellRequest, e: Effect, status: InvocationStatus)
    requires Inv(s) && request.task.None? && e.task.None? && !IsHigh(e.risk)
    ensures Keeps(s, RecordShell(Logged(s, e), request, status, Ran(status)).0)
    ensures RecordShell(Logged(s, e), request, status, Ran(status)).1 == Ran(status)
  {
    hide RecordShell, Inv, TasksGrow, Logged;
    LoggedKeeps(s, e);
    KeepsInv(s, Logged(s, e));
    RecordShellKeeps(Logged(s, e), request, status, Ran(status));
    KeepsThen(s, Logged(s, e), RecordShell(Logged(s, e), request, status, Ran(status)).0);
  }

  /** Using up an approved runtime task with the effect it backs. */
  lemma RuntimeSpent(a: State, b: State, id: Id, e: Effect)
    requires id in a.runtimeTasks && a.runtimeTasks[id].status == Approved && RuntimeBacks(a.runtimeTasks[id], e)
    requires id in b.runtimeTasks && b.runtimeTasks[id] == a.runtimeTasks[id].(status := Resumed)
    requires e.task == Some(id) && (e.ShellRun? || (e.ModelCall? && e.status == Success))
    requires RuntimeRowIs(b, b.runtimeTasks[id], e.status)
    ensures Spends(e) == Some(RuntimeRef(id)) && Justified(b, e)
    ensures IsResumed(b, RuntimeRef(id)) && !IsResumed(a, RuntimeRef(id))
  {}

  lemma ShellApprovedKeeps(s: State, request: ShellRequest, id: Id, e: Effect)
    requires Inv(s) && request.task == Some(id) && id in s.runtimeTasks && s.runtimeTasks[id].status == Approved
    requires s.runtimeTasks[id].project == request.project
    requires s.runtimeTasks[id].payload.ShellPayload?
    requires e.ShellRun? && e.task == Some(id) && RuntimeBacks(s.runtimeTasks[id], e)
    ensures var (recorded, result) := RecordShell(Logged(s, e), request, e.status, Ran(e.status));
            && result == Ran(e.status)
            && id in recorded.runtimeTasks
            && Keeps(s, MarkRuntimeResumed(recorded, id))
  {
    hide LogInv, Unnoticed, IsResumed, Keeps, IdsBelow, RuntimeBacks, Sound, Justified, Spends;
    assert RuntimeTaskOk(s, id, s.runtimeTasks[id]);
    hide Tables;
    var (recorded, result) := RecordShell(Logged(s, e), request, e.status, Ran(e.status));
    var s' := MarkRuntimeResumed(recorded, id);
    RuntimeRewritten(s, s', id);
    RuntimeSpent(s, s', id, e);
    Acting(s, s', Some(RuntimeRef(id)), e);
  }

  /** What a passed approval check means, with the run and node binding. */
  lemma ApprovalMeans(
    wiring: Wiring, s: State, project: Id, id: Id, shell: bool, targetRef: string, runId: string, nodeId: string)
    requires Inv(s) && Approves(wiring, s, project, id, shell, targetRef, runId, nodeId)
    ensures forall e: Effect | e.project == project && e.at == s.now && e.task == Some(id)
              && (if shell then e.ShellRun? && e.templateRef == targetRef && e.runId == runId && e.nodeId == nodeId
                  else e.ModelCall? && e.policyRef == targetRef && e.runId == runId && e.nodeId == nodeId) ::
              RuntimeBacks(s.runtimeTasks[id], e)
  {
    assert RuntimeTaskOk(s, id, s.runtimeTasks[id]);
  }

  lemma RunShellKeeps(wiring: Wiring, s: State, request: ShellRequest, context: ShellContext)
    requires Inv(s)
    ensures Keeps(s, RunShell(wiring, s, request, context).0)
    ensures RunShell(wiring, s, request, context).1 != Refused(InvocationMissing)
  {
    if request.task.None? {
      ShellFreshKeeps(wiring, s, request, context);
    } else {
      var id := request.task.value;
      CheckApprovalIff(wiring, s, request.project, id, true, request.templateRef, request.runId, request.nodeId);
      if CheckApproval(wiring, s, request.project, id, true, request.templateRef, request.runId, request.nodeId).None? {
        ShellTaskKeeps(wiring, s, request, context);
      } else {
        hide Inv, Keeps, CheckApproval, Approves;
        Unchanged(s);
      }
    }
  }

  /** A shell start without a task. */
  lemma ShellFreshKeeps(wiring: Wiring, s: State, request: ShellRequest, context: ShellContext)
    requires Inv(s) && request.task.None?
    ensures Keeps(s, RunShell(wiring, s, request, context).0)
    ensures RunShell(wiring, s, request, context).1 != Refused(InvocationMissing)
  {
    hide Inv, Keeps, CheckApproval, ShellDecision, ParkShell, RecordShell, Logged;
    Unchanged(s);
    if context.template.Some? {
      var template := context.template.value;
      ParkShellKeeps(s, request, template);
      RecordShellKeeps(s, request, DeniedCall, Ran(DeniedCall));
      if ShellDecision(wiring, s, request, template) == Allowed {
        ShellFloor(wiring, s, request, template);
        ShellCalledKeeps(s, request, ShellEffect(s, request, template.risk, context.run), ShellStatus(context.run));
      }
    }
  }

  /** A shell start on a task that passed the approval check. */
  lemma ShellTaskKeeps(wiring: Wiring, s: State, request: ShellRequest, context: ShellContext)
    requires Inv(s) && request.task.Some?
    requires CheckApproval(
               wiring, s, request.project, request.task.value, true, request.templateRef, request.runId,
               request.nodeId).None?
    ensures Keeps(s, RunShell(wiring, s, request, context).0)
    ensures RunShell(wiring, s, request, context).1 != Refused(InvocationMissing)
  {
    hide Inv, Keeps, CheckApproval, ShellDecision, ParkShell, RecordShell, Logged, RuntimeBacks, MarkRuntimeResumed;
    Unchanged(s);
    if context.template.Some? {
      var id := request.task.value;
      CheckApprovalIff(wiring, s, request.project, id, true, request.templateRef, request.runId, request.nodeId);
      ApprovalMeans(wiring, s, request.project, id, true, request.templateRef, request.runId, request.nodeId);
      RecordShellKeeps(s, request, DeniedCall, Ran(DeniedCall));
      ShellApprovedKeeps(s, request, id, ShellEffect(s, request, context.template.value.risk, context.run));
    }
  }

  lemma ResumeShellKeeps(wiring: Wiring, s: State, project: Id, id: Id, context: ShellContext)
    requires Inv(s)
    ensures Keeps(s, ResumeShell(wiring, s, project, id, context).0)
    ensures ResumeShell(wiring, s, project, id, context).1 != Refused(InvocationMissing)
  {
    hide Inv, Keeps, RunShell;
    Unchanged(s);
    if id in s.runtimeTasks && s.runtimeTasks[id].payload.ShellPayload? {
      RunShellKeeps(wiring, s, s.runtimeTasks[id].payload.shell.(task := Some(id)), context);
    }
  }

  /** A model request on no task, or on an approved model task of its project. */
  predicate CarriesModelTask(s: State, request: ModelRequest) {
    request.task.Some? ==>
      && request.task.value in s.runtimeTasks
      && s.runtimeTasks[request.task.value].payload.ModelPayload?
      && s.runtimeTasks[request.task.value].project == request.project
      && s.runtimeTasks[request.task.value].status == Approved
  }

  lemma RecordModelKeeps(s: State, request: ModelRequest, status: InvocationStatus)
    requires Inv(s) && CarriesModelTask(s, request)
    ensures Keeps(s, RecordModel(s, request, status))
  {
    hide Inv, Keeps;
    if request.task.None? {
      RecordModelFresh(s, request, status);
    } else {
      RecordModelTask(s, request, status);
    }
  }

  lemma RecordModelFresh(s: State, request: ModelRequest, status: InvocationStatus)
    requires Inv(s) && request.task.None?
    ensures Keeps(s, RecordModel(s, request, status))
  {
    hide LogInv, Unnoticed, IsResumed, Keeps, Tables;
    var s' := RecordModel(s, request, status);
    FreshRow(s, s');
    assert IdsBelow(s');
    Quiet(s, s', None);
  }

  lemma RecordModelTask(s: State, request: ModelRequest, status: InvocationStatus)
    requires Inv(s) && request.task.Some? && CarriesModelTask(s, request)
    ensures Keeps(s, RecordModel(s, request, status))
  {
    hide LogInv, Unnoticed, IsResumed, Keeps, IdsBelow, Sound;
    var id := request.task.value;
    assert RuntimeTaskOk(s, id, s.runtimeTasks[id]);
    hide Tables;
    var s' := RecordModel(s, request, status);
    RuntimeRewritten(s, s', id);
    NotResumed(s, RuntimeRef(id));
    NotResumed(s', RuntimeRef(id));
    Quiet(s, s', Some(RuntimeRef(id)));
  }

  lemma ParkModelKeeps(wiring: Wiring, s: State, request: ModelRequest)
    requires Inv(s) && request.task.None?
    ensures Keeps(s, ParkModel(wiring, s, request).0)
    ensures ParkModel(wiring, s, request).1 != Refused(InvocationMissing)
  {
    hide LogInv, Tables, Unnoticed, IsResumed, Keeps;
    RecordModelKeeps(s, request, AwaitingApproval);
    if wiring.runtimeStore {
      var s' := ParkModel(wiring, s, request).0;
      var id := s.nextId + 1;
      assert id !in s.runtimeTasks;
      RuntimeWrite(s, s', id);
      NotResumed(s, RuntimeRef(id));
      NotResumed(s', RuntimeRef(id));
      assert IdsBelow(s');
      assert RuntimeTaskOk(s', id, s'.runtimeTasks[id]);
      Quiet(s, s', Some(RuntimeRef(id)));
    }
  }

  lemma ModelLoggedKeeps(s: State, request: ModelRequest, e: Effect, status: InvocationStatus)
    requires Inv(s) && CarriesModelTask(s, request)
    requires e.ModelCall? && e.task == request.task && Spends(e).None? && e.risk == Medium
    requires e.task.Some? ==> RuntimeBacks(s.runtimeTasks[e.task.value], e)
    ensures Keeps(s, RecordModel(Logged(s, e), request, status))
  {
    hide Inv, RecordModel, TasksGrow;
    LoggedKeeps(s, e);
    KeepsInv(s, Logged(s, e));
    RecordModelKeeps(Logged(s, e), request, status);
    KeepsThen(s, Logged(s, e), RecordModel(Logged(s, e), request, status));
  }

  lemma ModelSuccessKeeps(s: State, request: ModelRequest, e: Effect)
    requires Inv(s) && CarriesModelTask(s, request) && request.task.Some?
    requires e.ModelCall? && e.task == request.task && e.status == Success && e.risk == Medium
    requires RuntimeBacks(s.runtimeTasks[request.task.value], e)
    ensures Keeps(s, MarkRuntimeResumed(RecordModel(Logged(s, e), request, Success), request.task.value))
  {
    hide LogInv, Unnoticed, IsResumed, Keeps, IdsBelow, RuntimeBacks, Sound, Justified, Spends;
    var id := request.task.value;
    assert RuntimeTaskOk(s, id, s.runtimeTasks[id]);
    hide Tables;
    var s' := MarkRuntimeResumed(RecordModel(Logged(s, e), request, Success), id);
    RuntimeRewritten(s, s', id);
    RuntimeSpent(s, s', id, e);
    Acting(s, s', Some(RuntimeRef(id)), e);
  }

  /** A model start without a task. */
  lemma ModelFreshKeeps(wiring: Wiring, s: State, request: ModelRequest, context: ModelContext)
    requires Inv(s) && request.task.None?
    ensures Keeps(s, RunModel(wiring, s, request, context).0)
    ensures RunModel(wiring, s, request, context).1 != Refused(InvocationMissing)
  {
    hide Inv, Keeps, CheckApproval, ModelDecision, ParkModel, RecordModel, Logged;
    Unchanged(s);
    ParkModelKeeps(wiring, s, request);
    RecordModelKeeps(s, request, DeniedCall);
    RecordModelKeeps(s, request, BudgetExceeded);
    ModelLoggedKeeps(s, request, ModelEffect(s, request, context.call), ModelStatus(context.call));
  }

  /** A model start on a task that passed the approval check. */
  lemma ModelTaskKeeps(wiring: Wiring, s: State, request: ModelRequest, context: ModelContext)
    requires Inv(s) && request.task.Some?
    requires CheckApproval(
               wiring, s, request.project, request.task.value, false, request.policyRef, request.runId,
               request.nodeId).None?
    ensures Keeps(s, RunModel(wiring, s, request, context).0)
    ensures RunModel(wiring, s, request, context).1 != Refused(InvocationMissing)
  {
    hide Inv, Keeps, CheckApproval, ModelDecision, ParkModel, RecordModel, Logged, RuntimeBacks, MarkRuntimeResumed;
    Unchanged(s);
    var id := request.task.value;
    CheckApprovalIff(wiring, s, request.project, id, false, request.policyRef, request.runId, request.nodeId);
    ApprovalMeans(wiring, s, request.project, id, false, request.policyRef, request.runId, request.nodeId);
    RecordModelKeeps(s, request, DeniedCall);
    RecordModelKeeps(s, request, BudgetExceeded);
    var e := ModelEffect(s, request, context.call);
    if context.call == Completed(true) {
      ModelSuccessKeeps(s, request, e);
    } else {
      ModelLoggedKeeps(s, request, e, ModelStatus(context.call));
    }
  }

  lemma RunModelKeeps(wiring: Wiring, s: State, request: ModelRequest, context: ModelContext)
    requires Inv(s)
    ensures Keeps(s, RunModel(wiring, s, request, context).0)
    ensures RunModel(wiring, s, request, context).1 != Refused(InvocationMissing)
  {
    if request.task.None? {
      ModelFreshKeeps(wiring, s, request, context);
    } else {
      var id := request.task.value;
      CheckApprovalIff(wiring, s, request.project, id, false, request.policyRef, request.runId, request.nodeId);
      if CheckApproval(wiring, s, request.project, id, false, request.policyRef, request.runId, request.nodeId).None? {
        ModelTaskKeeps(wiring, s, request, context);
      } else {
        hide Inv, Keeps, CheckApproval, Approves;
        Unchanged(s);
      }
    }
  }

  // --- Every step, every run ------------------------------------------------------------------------

  /** One step keeps the invariant, only moves tasks forward, and never looks for an invocation that does not exist. */
  lemma {:induction false} StepKeepsInv(s: State, step: Step)
    requires Inv(s)
    ensures Inv(Take(s, step).0) && TasksGrow(s, Take(s, step).0)
    ensures Take(s, step).1 != Refused(InvocationMissing)
  {
    hide Inv, TasksGrow, InvokeTool, ResumeTool, DecideTool, RunShell, ResumeShell, RunModel, DecideRuntime;
    match step {
      case ToolInvoke(wiring, project, request, context) => InvokeToolKeeps(wiring, s, project, request, context);
      case ToolResume(wiring, project, task, context) => ResumeToolKeeps(wiring, s, project, task, context);
      case ToolDecide(project, task, decision) => DecideToolKeeps(s, project, task, decision);
      case ShellStart(wiring, request, context) => RunShellKeeps(wiring, s, request, context);
      case ShellResume(wiring, project, task, context) => ResumeShellKeeps(wiring, s, project, task, context);
      case ModelStart(wiring, request, context) => RunModelKeeps(wiring, s, request, context);
      case RuntimeDecide(project, task, decision) => DecideRuntimeKeeps(s, project, task, decision);
      case PolicyChange(change) => SameTasks(s, Take(s, step).0);
      case Tick(seconds) => SameTasks(s, Take(s, step).0);
    }
  }

  lemma SameTasks(a: State, b: State)
    requires Inv(a) && b == a.(policies := b.policies, now := b.now)
    ensures Keeps(a, b)
  {
    hide LogInv, Tables, Unnoticed, IsResumed, Keeps, IdsBelow;
    FreshRow(a, b);
    SameIds(a, b);
    Quiet(a, b, None);
  }

  lemma StartInv(now: int)
    ensures Inv(Start(now))
  {}

  /** Every run keeps the invariant; tasks keep their request, target and deadline, and a decision once made stays. */
  lemma {:induction false} RunKeepsInv(s: State, steps: seq<Step>)
    requires Inv(s)
    ensures Inv(After(s, steps)) && TasksGrow(s, After(s, steps))
    decreases |steps|
  {
    if steps == [] {
      Unchanged(s);
    } else {
      hide Inv, Take, TasksGrow;
      StepKeepsInv(s, steps[0]);
      RunKeepsInv(Take(s, steps[0]).0, steps[1..]);
      GrowsBack(s, Take(s, steps[0]).0, After(s, steps));
    }
  }

  lemma {:induction false} ReachableInv(start: int, steps: seq<Step>)
    ensures Inv(After(Start(start), steps))
  {
    StartInv(start);
    RunKeepsInv(Start(start), steps);
  }
}
