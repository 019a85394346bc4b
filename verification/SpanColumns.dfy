/** What the span table shows of each invocation, column by column, after records and after updates. */
module SpanColumns {
  import opened Common
  import opened TraceSpans

  /** The attribute holds the value, and is left out when the value is empty. */
  predicate Carries(attributes: map<string, Value>, key: string, value: Value) {
    if value in {Text(""), Refs([]), Missing} then key !in attributes
    else key in attributes && attributes[key] == value
  }

  predicate CarriesErrors(row: Row, span: Span) {
    && Carries(span.attributes, "error.type", Text(row.errorType))
    && Carries(span.attributes, "error.message", Text(row.errorMessage))
  }

  /** What tool and model spans show of a status. */
  predicate ShowsStatus(status: string, shown: string) {
    && (shown == "success" <==> status in {"success", "passed"})
    && (shown == "denied" <==> status in {"denied", "budget_exceeded", "schema_validation_failed"})
    && (shown == "pending" <==> status in {"pending", "pending_approval"})
    && (shown == "cancelled" <==> status in {"cancelled", "revoked"})
    && shown in {"success", "denied", "pending", "cancelled", "failed"}
  }

  predicate ShowsTool(row: Row, span: Span)
    requires row.details.ToolDetails?
  {
    var d, attributes := row.details, span.attributes;
    && span.name == "tool.call" && span.kind == "tool" && span.component == "tool_gateway"
    && span.sourceType == "tool_gateway_invocation" && span.workflow == d.workflow
    && ShowsStatus(row.status, span.status)
    && Carries(attributes, "tool.ref", Text(d.toolRef)) && Carries(attributes, "tool.name", Text(d.toolName))
    && Carries(attributes, "tool.server_ref", Text(d.serverRef))
    && Carries(attributes, "tool.group_refs", Refs(d.groupRefs))
    && Carries(attributes, "tool.workflow_ref", Text(d.workflow))
    && Carries(attributes, "tool.agent_ref", Text(d.agentRef))
    && Carries(attributes, "tool.role_refs", Refs(d.roleRefs))
    && Carries(attributes, "tool.risk_level", Text(d.risk))
    && Carries(attributes, "tool.approval_required", Flag(d.approvalRequired))
    && Carries(attributes, "tool.policy_decision", Text(d.policyDecision))
    && Carries(attributes, "input_summary", Text(d.inputSummary))
    && Carries(attributes, "output_summary", Text(d.outputSummary))
  }

  predicate ShowsShell(row: Row, span: Span)
    requires row.details.ShellDetails?
  {
    var d, attributes := row.details, span.attributes;
    && span.name == "shell.execute" && span.kind == "tool" && span.component == "shell_runner"
    && span.sourceType == "shell_runner_invocation" && span.workflow == d.workflow
    && span.status == (if row.status in {"success", "denied", "cancelled"} then row.status else "failed")
    && Carries(attributes, "shell.template_ref", Text(d.templateRef))
    && Carries(attributes, "shell.template_version", Number(d.templateVersion))
    && Carries(attributes, "shell.command_hash", Text(d.commandHash))
    && Carries(attributes, "shell.sandbox_image", Text(d.image))
    && Carries(attributes, "shell.sandbox_image_digest", Text(d.imageDigest))
    && Carries(attributes, "shell.exit_code", if d.exitCode.Some? then Number(d.exitCode.value) else Missing)
    && Carries(attributes, "shell.egress_profile_ref", Text(d.egressProfile))
    && Carries(attributes, "shell.egress_proxy_mode", Text(d.egressMode))
    && Carries(attributes, "shell.network_mode", Text(d.networkMode))
    && Carries(attributes, "stdout_summary", Text(d.stdout)) && Carries(attributes, "stderr_summary", Text(d.stderr))
  }

  predicate ShowsModel(row: Row, span: Span)
    requires row.details.ModelDetails?
  {
    var d, attributes := row.details, span.attributes;
    && span.name == "llm.model_call" && span.kind == "model" && span.component == "model_gateway"
    && span.sourceType == "model_gateway_invocation" && span.workflow == ""
    && ShowsStatus(row.status, span.status)
    && Carries(attributes, "llm.provider", Text(d.provider)) && Carries(attributes, "llm.model", Text(d.modelName))
    && Carries(attributes, "llm.policy_ref", Text(d.policyRef))
    && Carries(attributes, "llm.prompt_version", Text(d.promptVersion))
    && Carries(attributes, "llm.request_hash", Text(d.requestHash))
    && Carries(attributes, "output_summary", Text(d.output))
    && Carries(attributes, "schema.output_ref", Text(d.schemaRef))
    && Carries(attributes, "schema.validation_status", Text(d.schemaStatus))
    && Carries(attributes, "schema.validation_error", Text(d.schemaError))
  }

  /** Everything the span of a row shows, whatever its kind: it ends when the row was created, lasted as long as the
      call, and no attribute is empty. */
  predicate ShowsRow(row: Row, id: Id, span: Span) {
    && span.actor == Some(row.actor) && span.runId == row.runId && span.nodeId == row.nodeId
    && span.traceId == (if row.traceId == "" then "trace:" + row.ref else row.traceId)
    && span.endNano == row.createdAt * 1_000_000
    && span.endNano - span.startNano == row.duration * 1_000_000 && span.duration == row.duration
    && span.sourceId == id && span.createdBy == row.createdBy && span.updatedBy == row.updatedBy
    && CarriesErrors(row, span)
    && (forall key | key in span.attributes :: span.attributes[key] !in {Text(""), Refs([]), Missing})
  }

  lemma {:induction false} DropEmptyCarries(attributes: map<string, Value>)
    ensures forall key, value | Has(attributes, key, value) :: Carries(DropEmpty(attributes), key, value)
    ensures forall key | key in DropEmpty(attributes) ::
              DropEmpty(attributes)[key] !in {Text(""), Refs([]), Missing}
  {}

  /** The attribute before empty ones are left out. */
  predicate Has(attributes: map<string, Value>, key: string, value: Value) {
    key in attributes && attributes[key] == value
  }

  lemma {:induction false} ToolSubject(row: Row)
    requires row.details.ToolDetails?
    ensures var (a, d) := (Attributes(row), row.details);
              && Has(a, "tool.ref", Text(d.toolRef)) && Has(a, "tool.name", Text(d.toolName))
              && Has(a, "tool.server_ref", Text(d.serverRef)) && Has(a, "tool.group_refs", Refs(d.groupRefs))
              && Has(a, "tool.workflow_ref", Text(d.workflow)) && Has(a, "tool.agent_ref", Text(d.agentRef))
              && Has(a, "tool.role_refs", Refs(d.roleRefs))
  {}

  lemma {:induction false} ToolOutcome(row: Row)
    requires row.details.ToolDetails?
    ensures var (a, d) := (Attributes(row), row.details);
              && Has(a, "tool.risk_level", Text(d.risk))
              && Has(a, "tool.approval_required", Flag(d.approvalRequired))
              && Has(a, "tool.policy_decision", Text(d.policyDecision))
              && Has(a, "input_summary", Text(d.inputSummary))
              && Has(a, "output_summary", Text(d.outputSummary)) && Has(a, "error.type", Text(row.errorType))
              && Has(a, "error.message", Text(row.errorMessage))
  {}

  lemma {:induction false} ShellSubject(row: Row)
    requires row.details.ShellDetails?
    ensures var (a, d) := (Attributes(row), row.details);
              && Has(a, "shell.template_ref", Text(d.templateRef))
              && Has(a, "shell.template_version", Number(d.templateVersion))
              && Has(a, "shell.command_hash", Text(d.commandHash))
              && Has(a, "shell.sandbox_image", Text(d.image))
              && Has(a, "shell.sandbox_image_digest", Text(d.imageDigest))
              && Has(a, "shell.exit_code", if d.exitCode.Some? then Number(d.exitCode.value) else Missing)
  {}

  lemma {:induction false} ShellOutcome(row: Row)
    requires row.details.ShellDetails?
    ensures var (a, d) := (Attributes(row), row.details);
              && Has(a, "shell.egress_profile_ref", Text(d.egressProfile))
              && Has(a, "shell.egress_proxy_mode", Text(d.egressMode))
              && Has(a, "shell.network_mode", Text(d.networkMode)) && Has(a, "stdout_summary", Text(d.stdout))
              && Has(a, "stderr_summary", Text(d.stderr)) && Has(a, "error.type", Text(row.errorType))
              && Has(a, "error.message", Text(row.errorMessage))
  {}

  lemma {:induction false} ModelSubject(row: Row)
    requires row.details.ModelDetails?
    ensures var (a, d) := (Attributes(row), row.details);
              && Has(a, "llm.provider", Text(d.provider)) && Has(a, "llm.model", Text(d.modelName))
              && Has(a, "llm.policy_ref", Text(d.policyRef))
              && Has(a, "llm.prompt_version", Text(d.promptVersion))
              && Has(a, "llm.request_hash", Text(d.requestHash))
  {}

  lemma {:induction false} ModelOutcome(row: Row)
    requires row.details.ModelDetails?
    ensures var (a, d) := (Attributes(row), row.details);
              && Has(a, "output_summary", Text(d.output)) && Has(a, "schema.output_ref", Text(d.schemaRef))
              && Has(a, "schema.validation_status", Text(d.schemaStatus))
              && Has(a, "schema.validation_error", Text(d.schemaError))
              && Has(a, "error.type", Text(row.errorType)) && Has(a, "error.message", Text(row.errorMessage))
  {}

  lemma {:induction false} ToolProjectShows(row: Row, id: Id)
    requires row.details.ToolDetails?
    ensures ShowsTool(row, Project(row, id)) && CarriesErrors(row, Project(row, id))
  {
    hide DropEmpty, Attributes, Carries;
    ToolSubject(row);
    ToolOutcome(row);
    DropEmptyCarries(Attributes(row));
  }

  lemma {:induction false} ShellProjectShows(row: Row, id: Id)
    requires row.details.ShellDetails?
    ensures ShowsShell(row, Project(row, id)) && CarriesErrors(row, Project(row, id))
  {
    hide DropEmpty, Attributes, Carries;
    ShellSubject(row);
    ShellOutcome(row);
    DropEmptyCarries(Attributes(row));
  }

  lemma {:induction false} ModelProjectShows(row: Row, id: Id)
    requires row.details.ModelDetails?
    ensures ShowsModel(row, Project(row, id)) && CarriesErrors(row, Project(row, id))
  {
    hide DropEmpty, Attributes, Carries;
    ModelSubject(row);
    ModelOutcome(row);
    DropEmptyCarries(Attributes(row));
  }

  lemma {:induction false} ProjectShows(row: Row, id: Id)
    ensures ShowsRow(row, id, Project(row, id))
    ensures row.details.ToolDetails? ==> ShowsTool(row, Project(row, id))
    ensures row.details.ShellDetails? ==> ShowsShell(row, Project(row, id))
    ensures row.details.ModelDetails? ==> ShowsModel(row, Project(row, id))
  {
    hide Project, ShowsRow, ShowsTool, ShowsShell, ShowsModel, CarriesErrors;
    if row.details.ToolDetails? {
      ToolProjectShows(row, id);
    } else if row.details.ShellDetails? {
      ShellProjectShows(row, id);
    } else {
      ModelProjectShows(row, id);
    }
    CommonShows(row, id);
  }

  lemma {:induction false} CommonShows(row: Row, id: Id)
    requires CarriesErrors(row, Project(row, id))
    ensures ShowsRow(row, id, Project(row, id))
  {
    hide CarriesErrors, DropEmpty, Attributes;
    DropEmptyCarries(Attributes(row));
  }

  /** In the span table of every run, whatever was recorded, updated and inserted by others, each invocation's span
      shows the columns of its row. */
  lemma {:induction false} ColumnsShown(steps: seq<Step>, i: nat)
    requires AllTyped(steps) && i < |Run(State([], map[]), 0, steps).0.rows|
    ensures var s := Run(State([], map[]), 0, steps).0;
            var row := s.rows[i];
            var prefix := if row.details.ToolDetails? then "tool:"
                          else if row.details.ShellDetails? then "shell:"
                          else "model:";
            var key := SpanKey(row.project, prefix + row.ref);
            && key in s.spans && ShowsRow(row, i, s.spans[key])
            && (row.details.ToolDetails? ==> ShowsTool(row, s.spans[key]))
            && (row.details.ShellDetails? ==> ShowsShell(row, s.spans[key]))
            && (row.details.ModelDetails? ==> ShowsModel(row, s.spans[key]))
  {
    hide Run, Project, ShowsRow, ShowsTool, ShowsShell, ShowsModel;
    SpansAreExact(steps);
    ProjectShows(Run(State([], map[]), 0, steps).0.rows[i], i);
  }

  // --- Updates -----------------------------------------------------------------------------------

  /** Row `id` is the only one that changed. */
  predicate OnlyRow(before: State, after: State, id: Id) {
    && |after.rows| == |before.rows| && id < |before.rows|
    && forall i | 0 <= i < |before.rows| && i != id :: after.rows[i] == before.rows[i]
  }

  function OrElse<T>(value: Option<T>, other: T): T { if value.Some? then value.value else other }

  /** A tool update writes the new status, decision, output, error, duration and author, and its span shows them. */
  lemma {:induction false} ToolUpdateWrites(s: State, project: Id, id: Id, change: Change)
    requires change.ToolChange? && UpdateTool(s, project, id, change).1
    ensures var after := UpdateTool(s, project, id, change).0;
            && OnlyRow(s, after, id) && s.rows[id].project == project && after.rows[id].details.ToolDetails?
            && var (row, row') := (s.rows[id], after.rows[id]);
            && row'.status == change.status && row'.errorType == change.errorType
            && row'.errorMessage == change.errorMessage && row'.updatedBy == change.actor
            && row'.duration == OrElse(change.duration, row.duration)
            && row'.details.policyDecision == change.policyDecision
            && row'.details.outputSummary == change.outputSummary
            && row == row'.(status := row.status, errorType := row.errorType, errorMessage := row.errorMessage,
                            updatedBy := row.updatedBy, duration := row.duration, details := row.details)
            && row.details == row'.details.(policyDecision := row.details.policyDecision,
                                            outputSummary := row.details.outputSummary)
            && RowKey(row') in after.spans && ShowsRow(row', id, after.spans[RowKey(row')])
            && ShowsTool(row', after.spans[RowKey(row')])
  {
    hide Project, ShowsRow, ShowsTool;
    ProjectShows(UpdateTool(s, project, id, change).0.rows[id], id);
  }

  /** A shell update writes the new status, exit code, output, error, duration, command hash and author of the run with
      this reference, and its span shows them. */
  lemma {:induction false} ShellUpdateWrites(s: State, project: Id, ref: string, change: Change) returns (id: Id)
    requires change.ShellChange? && UpdateShell(s, project, ref, change).1
    ensures var after := UpdateShell(s, project, ref, change).0;
            && OnlyRow(s, after, id) && s.rows[id].project == project && s.rows[id].ref == ref
            && s.rows[id].details.ShellDetails? && after.rows[id].details.ShellDetails?
            && var (row, row') := (s.rows[id], after.rows[id]);
            && row'.status == change.status && row'.errorType == change.errorType
            && row'.errorMessage == change.errorMessage && row'.updatedBy == change.actor
            && row'.duration == OrElse(change.duration, row.duration)
            && row'.details.exitCode == change.exitCode
            && row'.details.stdout == change.stdout && row'.details.stderr == change.stderr
            && row'.details.commandHash == OrElse(change.commandHash, row.details.commandHash)
            && row == row'.(status := row.status, errorType := row.errorType, errorMessage := row.errorMessage,
                            updatedBy := row.updatedBy, duration := row.duration, details := row.details)
            && row.details == row'.details.(exitCode := row.details.exitCode, stdout := row.details.stdout,
                                            stderr := row.details.stderr, commandHash := row.details.commandHash)
            && RowKey(row') in after.spans && ShowsRow(row', id, after.spans[RowKey(row')])
            && ShowsShell(row', after.spans[RowKey(row')])
  {
    hide Project, ShowsRow, ShowsShell;
    id := FindRow(s.rows, project, Shell, ref);
    ProjectShows(UpdateShell(s, project, ref, change).0.rows[id], id);
  }

  /** A model update keeps project, reference and creation of the row and takes everything else from the new one, or
      records the new one when there is none; either way the span shows the result. */
  lemma {:induction false} ModelUpdateWrites(s: State, row: Row) returns (id: Id)
    requires row.details.ModelDetails? && UpdateModel(s, row).1
    ensures var after := UpdateModel(s, row).0;
            && id < |after.rows| && after.rows[id].details.ModelDetails?
            && var row' := after.rows[id];
            && (if id < |s.rows|
                then && OnlyRow(s, after, id) && s.rows[id].details.ModelDetails?
                     && s.rows[id].project == row.project && s.rows[id].ref == row.ref
                     && row' == row.(createdBy := s.rows[id].createdBy, createdAt := s.rows[id].createdAt)
                else after.rows == s.rows + [row])
            && RowKey(row') in after.spans && ShowsRow(row', id, after.spans[RowKey(row')])
            && ShowsModel(row', after.spans[RowKey(row')])
  {
    hide Project, ShowsRow, ShowsModel;
    id := FindRow(s.rows, row.project, Model, row.ref);
    ProjectShows(UpdateModel(s, row).0.rows[id], id);
  }

  /** A tool or shell update answers that it found its row exactly when there is one, and otherwise changes nothing. */
  lemma {:induction false} UpdateFindsIff(s: State, project: Id, id: Id, ref: string, change: Change)
    ensures change.ToolChange? ==>
              var (after, found) := UpdateTool(s, project, id, change);
              && (found <==> id < |s.rows| && s.rows[id].project == project && s.rows[id].details.ToolDetails?)
              && (!found ==> after == s)
    ensures change.ShellChange? ==>
              var (after, found) := UpdateShell(s, project, ref, change);
              && (found <==> exists r :: r in s.rows && r.project == project && r.ref == ref && r.details.ShellDetails?)
              && (!found ==> after == s)
  {
    hide Assign;
    FoundIff(s.rows, project, Shell, ref);
  }

  /** A model update stores the row exactly when there is one to update or the span key of the new row is free. */
  lemma {:induction false} ModelStoresIff(s: State, row: Row)
    requires row.details.ModelDetails?
    ensures var (after, stored) := UpdateModel(s, row);
            && (stored <==>
                  || SpanKey(row.project, "model:" + row.ref) !in s.spans
                  || exists r :: r in s.rows && r.project == row.project && r.ref == row.ref && r.details.ModelDetails?)
            && (!stored ==> after == s)
  {
    hide Assign, Project;
    FoundIff(s.rows, row.project, Model, row.ref);
  }

  lemma {:induction false} FoundIff(rows: seq<Row>, project: Id, kind: Kind, ref: string)
    ensures FindRow(rows, project, kind, ref) < |rows| <==> exists r :: r in rows && IsRow(r, project, kind, ref)
  {
    hide IsRow;
    var k := FindRow(rows, project, kind, ref);
    if r :| r in rows && IsRow(r, project, kind, ref) {
      var i :| 0 <= i < |rows| && rows[i] == r;
    }
  }
}
