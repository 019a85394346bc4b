/** Trace spans kept beside tool, shell and model invocations: after every write each invocation has one span, its
    projection. */
module TraceSpans {
  import opened Common

  datatype Kind = Tool | Shell | Model

  datatype Value = Text(text: string) | Number(number: int) | Flag(flag: bool) | Refs(refs: seq<string>) | Missing

  /** The columns that only one of the three tables has. */
  datatype Details =
    | ToolDetails(toolRef: string, toolName: string, serverRef: string, groupRefs: seq<string>, workflow: string,
        agentRef: string, roleRefs: seq<string>, risk: string, approvalRequired: bool, policyDecision: string,
        inputSummary: string, outputSummary: string)
    | ShellDetails(templateRef: string, templateVersion: int, workflow: string, commandHash: string, image: string,
        imageDigest: string, egressProfile: string, egressMode: string, networkMode: string, exitCode: Option<int>,
        stdout: string, stderr: string)
    | ModelDetails(provider: string, modelName: string, policyRef: string, promptVersion: string, requestHash: string,
        output: string, schemaRef: string, schemaStatus: string, schemaError: string)

  /** A row of one of the invocation tables. `ref` is the tool call id or the invocation reference; times are in
      milliseconds. */
  datatype Row = Row(
    project: Id, ref: string, actor: Id, runId: string, nodeId: string, traceId: string, status: string,
    errorType: string, errorMessage: string, duration: nat, createdAt: int, createdBy: Id, updatedBy: Id,
    details: Details)

  datatype SpanKey = SpanKey(project: Id, spanId: string)

  datatype Span = Span(
    actor: Option<Id>, traceId: string, runId: string, workflow: string, nodeId: string, name: string, kind: string,
    component: string, status: string, startNano: int, endNano: int, duration: nat, attributes: map<string, Value>,
    sourceType: string, sourceId: Id, createdBy: Id, updatedBy: Id)

  // --- Projection ---------------------------------------------------------------------------

  function KindOf(row: Row): Kind {
    match row.details
    case ToolDetails(_, _, _, _, _, _, _, _, _, _, _, _) => Tool
    case ShellDetails(_, _, _, _, _, _, _, _, _, _, _, _) => Shell
    case ModelDetails(_, _, _, _, _, _, _, _, _) => Model
  }

  function Prefix(kind: Kind): string {
    match kind
    case Tool => "tool:"
    case Shell => "shell:"
    case Model => "model:"
  }

  function KeyOf(project: Id, kind: Kind, ref: string): SpanKey { SpanKey(project, Prefix(kind) + ref) }

  function RowKey(row: Row): SpanKey { KeyOf(row.project, KindOf(row), row.ref) }

  function MapStatus(status: string): string {
    if status == "success" || status == "passed" then "success"
    else if status == "denied" || status == "budget_exceeded" || status == "schema_validation_failed" then "denied"
    else if status == "pending" || status == "pending_approval" then "pending"
    else if status == "cancelled" || status == "revoked" then "cancelled"
    else "failed"
  }

  function MapShellStatus(status: string): string {
    if status == "success" || status == "denied" || status == "cancelled" then status else "failed"
  }

  predicate IsEmpty(value: Value) { value == Text("") || value == Refs([]) || value == Missing }

  function DropEmpty(attributes: map<string, Value>): map<string, Value> {
    map key | key in attributes && !IsEmpty(attributes[key]) :: attributes[key]
  }

  function Attributes(row: Row): map<string, Value> {
    var errors := map["error.type" := Text(row.errorType), "error.message" := Text(row.errorMessage)];
    match row.details
    case ToolDetails(
      toolRef, toolName, serverRef, groupRefs, workflow, agentRef, roleRefs, risk, approval, decision, input, output) =>
      errors + map[
        "tool.ref" := Text(toolRef), "tool.name" := Text(toolName), "tool.server_ref" := Text(serverRef),
        "tool.group_refs" := Refs(groupRefs), "tool.workflow_ref" := Text(workflow), "tool.agent_ref" := Text(agentRef),
        "tool.role_refs" := Refs(roleRefs), "tool.risk_level" := Text(risk), "tool.approval_required" := Flag(approval),
        "tool.policy_decision" := Text(decision), "input_summary" := Text(input), "output_summary" := Text(output)]
    case ShellDetails(templateRef, version, _, hash, image, digest, profile, mode, network, exitCode, stdout, stderr) =>
      errors + map[
        "shell.template_ref" := Text(templateRef), "shell.template_version" := Number(version),
        "shell.command_hash" := Text(hash), "shell.sandbox_image" := Text(image), "shell.sandbox_image_digest" :=
          Text(digest),
        "shell.exit_code" := if exitCode.Some? then Number(exitCode.value) else Missing,
        "shell.egress_profile_ref" := Text(profile), "shell.egress_proxy_mode" := Text(mode),
        "shell.network_mode" := Text(network), "stdout_summary" := Text(stdout), "stderr_summary" := Text(stderr)]
    case ModelDetails(
      provider, modelName, policyRef, promptVersion, hash, output, schemaRef, schemaStatus, schemaError) =>
      errors + map[
        "llm.provider" := Text(provider), "llm.model" := Text(modelName), "llm.policy_ref" := Text(policyRef),
        "llm.prompt_version" := Text(promptVersion), "llm.request_hash" := Text(hash), "output_summary" := Text(output),
        "schema.output_ref" := Text(schemaRef), "schema.validation_status" := Text(schemaStatus),
        "schema.validation_error" := Text(schemaError)]
  }

  function Project(row: Row, id: Id): Span {
    var (name, kind, component, status, workflow, source) :=
      match row.details
      case ToolDetails(_, _, _, _, workflow, _, _, _, _, _, _, _) =>
        ("tool.call", "tool", "tool_gateway", MapStatus(row.status), workflow, "tool_gateway_invocation")
      case ShellDetails(_, _, workflow, _, _, _, _, _, _, _, _, _) =>
        ("shell.execute", "tool", "shell_runner", MapShellStatus(row.status), workflow, "shell_runner_invocation")
      case ModelDetails(_, _, _, _, _, _, _, _, _) =>
        ("llm.model_call", "model", "model_gateway", MapStatus(row.status), "", "model_gateway_invocation");
    Span(
      Some(row.actor), if row.traceId != "" then row.traceId else "trace:" + row.ref, row.runId, workflow, row.nodeId,
      name, kind, component, status, (row.createdAt - row.duration) * 1_000_000, row.createdAt * 1_000_000,
      row.duration,
      DropEmpty(Attributes(row)), source, id, row.createdBy, row.updatedBy)
  }

  // --- Writes -----------------------------------------------------------------------------------

  /** The three invocation tables as one list tagged by kind, rows identified by position, and the span table with
      its unique key. */
  datatype State = State(rows: seq<Row>, spans: map<SpanKey, Span>)

  predicate IsRow(row: Row, project: Id, kind: Kind, ref: string) {
    row.project == project && KindOf(row) == kind && row.ref == ref
  }

  /** The first row with this unique key, or the number of rows. */
  function FindRow(rows: seq<Row>, project: Id, kind: Kind, ref: string): (k: nat)
    ensures k <= |rows|
    ensures forall i | 0 <= i < k :: !IsRow(rows[i], project, kind, ref)
    ensures k < |rows| ==> IsRow(rows[k], project, kind, ref)
  {
    if rows == [] || IsRow(rows[0], project, kind, ref) then 0 else 1 + FindRow(rows[1..], project, kind, ref)
  }

  /** A new row and its span in one commit; either unique constraint undoes both. */
  function Record(s: State, row: Row): (State, bool) {
    if FindRow(s.rows, row.project, KindOf(row), row.ref) < |s.rows| || RowKey(row) in s.spans then (s, false)
    else (State(s.rows + [row], s.spans[RowKey(row) := Project(row, |s.rows|)]), true)
  }

  /** The fields that the stores may assign after the row exists. */
  datatype Change =
    | ToolChange(status: string, policyDecision: string, outputSummary: string, errorType: string, errorMessage: string,
        duration: Option<nat>, actor: Id)
    | ShellChange(status: string, exitCode: Option<int>, duration: Option<nat>, stdout: string, stderr: string,
        errorType: string, errorMessage: string, commandHash: Option<string>, actor: Id)
    | ModelChange(replacement: Row)

  predicate Fits(row: Row, change: Change) {
    match change
    case ToolChange(_, _, _, _, _, _, _) => row.details.ToolDetails?
    case ShellChange(_, _, _, _, _, _, _, _, _) => row.details.ShellDetails?
    case ModelChange(replacement) => row.details.ModelDetails? && replacement.details.ModelDetails?
  }

  function Apply(row: Row, change: Change): Row
    requires Fits(row, change)
  {
    match change
    case ToolChange(status, decision, output, errorType, errorMessage, duration, actor) =>
      row.(status := status, errorType := errorType, errorMessage := errorMessage, updatedBy := actor,
           duration := if duration.Some? then duration.value else row.duration,
           details := row.details.(policyDecision := decision, outputSummary := output))
    case ShellChange(status, exitCode, duration, stdout, stderr, errorType, errorMessage, hash, actor) =>
      row.(status := status, errorType := errorType, errorMessage := errorMessage, updatedBy := actor,
           duration := if duration.Some? then duration.value else row.duration,
           details := row.details.(exitCode := exitCode, stdout := stdout, stderr := stderr,
                                   commandHash := if hash.Some? then hash.value else row.details.commandHash))
    case ModelChange(replacement) =>
      replacement.(project := row.project, ref := row.ref, createdBy := row.createdBy, createdAt := row.createdAt)
  }

  /** An assigned row and its span, inserted if it is missing and overwritten field by field if not. */
  function Assign(s: State, id: Id, change: Change): State
    requires id < |s.rows| && Fits(s.rows[id], change)
  {
    var row := Apply(s.rows[id], change);
    State(s.rows[id := row], s.spans[RowKey(row) := Project(row, id)])
  }

  function UpdateTool(s: State, project: Id, id: Id, change: Change): (State, bool)
    requires change.ToolChange?
  {
    if id < |s.rows| && s.rows[id].project == project && Fits(s.rows[id], change) then
       (Assign(s, id, change), true) else (s, false)
  }

  function UpdateShell(s: State, project: Id, ref: string, change: Change): (State, bool)
    requires change.ShellChange?
  {
    var id := FindRow(s.rows, project, Shell, ref);
    if id < |s.rows| then (Assign(s, id, change), true) else (s, false)
  }

  /** An update of a model invocation that is not there records it. */
  function UpdateModel(s: State, row: Row): (State, bool)
    requires row.details.ModelDetails?
  {
    var id := FindRow(s.rows, row.project, Model, row.ref);
    if id < |s.rows| then (Assign(s, id, ModelChange(row)), true) else Record(s, row)
  }

  /** Any other writer of the span table can only insert under a key that is free. */
  function InsertOther(s: State, key: SpanKey, span: Span): (State, bool) {
    if key in s.spans then (s, false) else (s.(spans := s.spans[key := span]), true)
  }

  class InvocationStore {
    var rows: seq<Row>
    var spans: map<SpanKey, Span>

    ghost function Abstract(): State
      reads this
    {
      State(rows, spans)
    }

    constructor ()
      ensures Abstract() == State([], map[])
    {
      rows, spans := [], map[];
    }

    method Find(project: Id, kind: Kind, ref: string) returns (k: nat)
      ensures k == FindRow(rows, project, kind, ref)
    {
      k := 0;
      while k < |rows| && !IsRow(rows[k], project, kind, ref)
        invariant k <= |rows|
        invariant FindRow(rows, project, kind, ref) == k + FindRow(rows[k..], project, kind, ref)
      {
        assert rows[k..][1..] == rows[k + 1..];
        k := k + 1;
      }
    }

    method RecordInvocation(row: Row) returns (stored: bool)
      modifies this
      ensures (Abstract(), stored) == Record(old(Abstract()), row)
    {
      hide Project;
      var existing := Find(row.project, KindOf(row), row.ref);
      if existing < |rows| {
        return false;
      }
      var id := |rows|;
      rows := rows + [row];
      if RowKey(row) in spans {
        rows := rows[..id];
        return false;
      }
      spans := spans[RowKey(row) := Project(row, id)];
      stored := true;
    }

    method UpsertSpan(id: Id)
      requires id < |rows|
      modifies this`spans
      ensures spans == old(spans)[RowKey(rows[id]) := Project(rows[id], id)]
    {
      hide Project;
      var key, projected := RowKey(rows[id]), Project(rows[id], id);
      if key !in spans {
        spans := spans[key := projected];
        return;
      }
      var span := spans[key];
      span := span.(actor := projected.actor, traceId := projected.traceId, runId := projected.runId);
      span := span.(
        workflow := projected.workflow, nodeId := projected.nodeId, name := projected.name, kind := projected.kind);
      span := span.(component := projected.component, status := projected.status, duration := projected.duration);
      span := span.(startNano := projected.startNano, endNano := projected.endNano, attributes := projected.attributes);
      span := span.(sourceType := projected.sourceType, sourceId := projected.sourceId);
      span := span.(createdBy := projected.createdBy, updatedBy := projected.updatedBy);
      spans := spans[key := span];
    }

    method UpdateInvocationStatus(project: Id, id: Id, change: Change) returns (found: bool)
      requires change.ToolChange?
      modifies this
      ensures (Abstract(), found) == UpdateTool(old(Abstract()), project, id, change)
    {
      hide Project;
      if id >= |rows| || rows[id].project != project || !Fits(rows[id], change) {
        return false;
      }
      rows := rows[id := Apply(rows[id], change)];
      UpsertSpan(id);
      found := true;
    }

    method UpdateShellByRef(project: Id, ref: string, change: Change) returns (found: bool)
      requires change.ShellChange?
      modifies this
      ensures (Abstract(), found) == UpdateShell(old(Abstract()), project, ref, change)
    {
      hide Project;
      var id := Find(project, Shell, ref);
      if id == |rows| {
        return false;
      }
      rows := rows[id := Apply(rows[id], change)];
      UpsertSpan(id);
      found := true;
    }

    method UpdateModelByRef(row: Row) returns (stored: bool)
      requires row.details.ModelDetails?
      modifies this
      ensures (Abstract(), stored) == UpdateModel(old(Abstract()), row)
    {
      hide Project;
      var id := Find(row.project, Model, row.ref);
      if id == |rows| {
        stored := RecordInvocation(row);
        return;
      }
      rows := rows[id := Apply(rows[id], ModelChange(row))];
      UpsertSpan(id);
      stored := true;
    }
  }

  // --- Runs -----------------------------------------------------------------------------------------

  datatype Step =
    | RecordStep(row: Row)
    | ToolStep(project: Id, id: Id, toolChange: Change)
    | ShellStep(project: Id, ref: string, shellChange: Change)
    | ModelStep(row: Row)
    | OtherStep(key: SpanKey, span: Span)

  predicate WellTyped(step: Step) {
    match step
    case RecordStep(_) => true
    case ToolStep(_, _, change) => change.ToolChange?
    case ShellStep(_, _, change) => change.ShellChange?
    case ModelStep(row) => row.details.ModelDetails?
    case OtherStep(_, _) => true
  }

  function Next(s: State, step: Step): (State, bool)
    requires WellTyped(step)
  {
    match step
    case RecordStep(row) => Record(s, row)
    case ToolStep(project, id, change) => UpdateTool(s, project, id, change)
    case ShellStep(project, ref, change) => UpdateShell(s, project, ref, change)
    case ModelStep(row) => UpdateModel(s, row)
    case OtherStep(key, span) => InsertOther(s, key, span)
  }

  predicate AllTyped(steps: seq<Step>) { forall i | 0 <= i < |steps| :: WellTyped(steps[i]) }

  /** The state after a run and how many spans the other writers inserted. */
  function Run(s: State, others: nat, steps: seq<Step>): (State, nat)
    requires AllTyped(steps)
    decreases |steps|
  {
    if steps == [] then (s, others)
    else
      var (s', done) := Next(s, steps[0]);
      assert forall i | 0 <= i < |steps| - 1 :: steps[1..][i] == steps[i + 1];
      Run(s', if steps[0].OtherStep? && done then others + 1 else others, steps[1..])
  }

  // --- The invariant ------------------------------------------------------------------------------------

  predicate Mirrors(s: State, i: nat)
    requires i < |s.rows|
  {
    RowKey(s.rows[i]) in s.spans && s.spans[RowKey(s.rows[i])] == Project(s.rows[i], i)
  }

  ghost predicate DistinctKeys(rows: seq<Row>) {
    forall i, j | 0 <= i < j < |rows| :: RowKey(rows[i]) != RowKey(rows[j])
  }

  /** Every invocation's span is its projection, keys are distinct, and there is no span besides these and the other
      writers'. */
  ghost predicate Exact(s: State, others: nat) {
    && DistinctKeys(s.rows)
    && (forall i | 0 <= i < |s.rows| :: Mirrors(s, i))
    && |s.spans| == |s.rows| + others
  }

  /** Span ids never collide across kinds, nor within one. */
  lemma KeysInjective(p: Id, k: Kind, r: string, p': Id, k': Kind, r': string)
    ensures KeyOf(p, k, r) == KeyOf(p', k', r') <==> p == p' && k == k' && r == r'
  {
    var a, b := Prefix(k) + r, Prefix(k') + r';
    assert a[0] == Prefix(k)[0] && b[0] == Prefix(k')[0];
    assert r == a[|Prefix(k)|..] && r' == b[|Prefix(k')|..];
  }

  lemma {:induction false} RecordKeeps(s: State, others: nat, row: Row)
    requires Exact(s, others)
    ensures Exact(Record(s, row).0, others)
  {
    hide Project;
    var (s', stored) := Record(s, row);
    if stored {
      forall i | 0 <= i < |s'.rows|
        ensures Mirrors(s', i)
      {
        assert i < |s.rows| ==> Mirrors(s, i) && RowKey(s.rows[i]) != RowKey(row);
      }
      forall i, j | 0 <= i < j < |s'.rows|
        ensures RowKey(s'.rows[i]) != RowKey(s'.rows[j])
      {
        assert Mirrors(s, i);
      }
    }
  }

  lemma ApplyKeepsKey(row: Row, change: Change)
    requires Fits(row, change)
    ensures RowKey(Apply(row, change)) == RowKey(row)
  {}

  /** The span is always there to be overwritten: an update never inserts one. */
  lemma {:induction false} AssignKeeps(s: State, others: nat, id: Id, change: Change)
    requires Exact(s, others) && id < |s.rows| && Fits(s.rows[id], change)
    ensures Exact(Assign(s, id, change), others)
    ensures Assign(s, id, change).spans.Keys == s.spans.Keys
  {
    hide Project, Apply;
    ApplyKeepsKey(s.rows[id], change);
    assert Mirrors(s, id);
    var s' := Assign(s, id, change);
    forall i | 0 <= i < |s'.rows|
      ensures Mirrors(s', i) && RowKey(s'.rows[i]) == RowKey(s.rows[i])
    {
      assert Mirrors(s, i);
    }
    assert s'.spans.Keys == s.spans.Keys;
    assert |s'.spans| == |s'.spans.Keys| && |s.spans| == |s.spans.Keys|;
  }

  lemma {:induction false} StepKeepsExact(s: State, others: nat, step: Step)
    requires Exact(s, others) && WellTyped(step)
    ensures Exact(Next(s, step).0, if step.OtherStep? && Next(s, step).1 then others + 1 else others)
  {
    hide Project, Apply;
    match step {
      case RecordStep(row) => RecordKeeps(s, others, row);
      case ToolStep(project, id, change) =>
        if UpdateTool(s, project, id, change).1 {
          AssignKeeps(s, others, id, change);
        }
      case ShellStep(project, ref, change) =>
        var id := FindRow(s.rows, project, Shell, ref);
        if id < |s.rows| {
          AssignKeeps(s, others, id, change);
        }
      case ModelStep(row) =>
        var id := FindRow(s.rows, row.project, Model, row.ref);
        if id < |s.rows| {
          AssignKeeps(s, others, id, ModelChange(row));
        } else {
          RecordKeeps(s, others, row);
        }
      case OtherStep(key, span) =>
        var s' := InsertOther(s, key, span).0;
        forall i | 0 <= i < |s'.rows|
          ensures Mirrors(s', i)
        {
          assert Mirrors(s, i);
        }
    }
  }

  lemma {:induction false} RunKeepsExact(s: State, others: nat, steps: seq<Step>)
    requires Exact(s, others) && AllTyped(steps)
    ensures var (s', others') := Run(s, others, steps); Exact(s', others')
    decreases |steps|
  {
    hide Next, Exact;
    if steps != [] {
      StepKeepsExact(s, others, steps[0]);
      var (s', done) := Next(s, steps[0]);
      assert forall i | 0 <= i < |steps| - 1 :: steps[1..][i] == steps[i + 1];
      RunKeepsExact(s', if steps[0].OtherStep? && done then others + 1 else others, steps[1..]);
    }
  }

  /** After any sequence of records, updates and foreign inserts: a key carries an invocation's span exactly when an
      invocation has that key, the span is that invocation's projection, and no span is left over. */
  lemma {:induction false} SpansAreExact(steps: seq<Step>)
    requires AllTyped(steps)
    ensures var (s, others) := Run(State([], map[]), 0, steps);
            && |s.spans| == |s.rows| + others
            && (forall i | 0 <= i < |s.rows| ::
                RowKey(s.rows[i]) in s.spans && s.spans[RowKey(s.rows[i])] == Project(s.rows[i], i))
            && (forall i, j | 0 <= i < j < |s.rows| :: RowKey(s.rows[i]) != RowKey(s.rows[j]))
  {
    hide Project, Run;
    RunKeepsExact(State([], map[]), 0, steps);
    var (s, others) := Run(State([], map[]), 0, steps);
    forall i | 0 <= i < |s.rows|
      ensures RowKey(s.rows[i]) in s.spans && s.spans[RowKey(s.rows[i])] == Project(s.rows[i], i)
    {
      assert Mirrors(s, i);
    }
  }

  /** A record is refused exactly when its key is in use: by an invocation of the same project and kind, or by a
      foreign span. */
  lemma {:induction false} RecordRefusedIff(s: State, others: nat, row: Row)
    requires Exact(s, others)
    ensures Record(s, row).1 <==> RowKey(row) !in s.spans
  {
    hide Project;
    var k := FindRow(s.rows, row.project, KindOf(row), row.ref);
    if k < |s.rows| {
      assert Mirrors(s, k);
    }
  }

  /** In the span table of every run: a waiting tool or model invocation is shown as pending and a waiting shell run
      as failed; and success is shown exactly for the invocations that succeeded. */
  lemma {:induction false} StatusesShown(steps: seq<Step>, i: nat)
    requires AllTyped(steps) && i < |Run(State([], map[]), 0, steps).0.rows|
    ensures var s := Run(State([], map[]), 0, steps).0;
            var row := s.rows[i];
            && RowKey(row) in s.spans
            && (row.status == "pending_approval" ==>
                  s.spans[RowKey(row)].status == if row.details.ShellDetails? then "failed" else "pending")
            && (s.spans[RowKey(row)].status == "success" <==>
                  row.status == "success" || (row.status == "passed" && !row.details.ShellDetails?))
  {
    SpansAreExact(steps);
    hide Run;
    var row := Run(State([], map[]), 0, steps).0.rows[i];
    if row.status == "pending_approval" {
      WaitingStatus(row, i);
    }
    SuccessStatus(row, i);
    hide Project;
  }

  /** A waiting call is shown as pending for tools and models; a waiting shell run is shown as failed, as is a timed
      out one. */
  lemma WaitingStatus(row: Row, id: Id)
    requires row.status == "pending_approval"
    ensures Project(row, id).status == if row.details.ShellDetails? then "failed" else "pending"
  {}

  /** The span says success exactly for invocations that succeeded. */
  lemma SuccessStatus(row: Row, id: Id)
    ensures Project(row, id).status == "success" <==>
            row.status == "success" || (row.status == "passed" && !row.details.ShellDetails?)
  {}
}
