/** The one path every tool call takes: validate, gate (writes only), handler, envelope, ledger. */
module Dispatch {
  import opened Vocabulary
  import opened Policy

  datatype ToolSpec = ToolSpec(tier: RiskTier, isWrite: bool)

  const READ_TOOLS := {
    "crm_search_accounts", "crm_get_account", "crm_get_opportunity", "crm_list_account_activities",
    "product_get_usage_summary", "engagement_get_email_activity", "engagement_get_meeting_activity",
    "support_get_open_issues", "enrichment_get_company_profile",
    "analytics_calculate_pipeline_impact", "audit_write_event"
  }

  /** The registry: eleven tier 0 tools and the four writes. */
  function SpecOf(tool: string): Option<ToolSpec> {
    if tool in READ_TOOLS then Some(ToolSpec(READ_OR_COMPUTE, false))
    else if tool == "crm_create_task" then Some(ToolSpec(INTERNAL_REVERSIBLE, true))
    else if tool == "crm_update_opportunity" then Some(ToolSpec(CUSTOMER_FACING_OR_MATERIAL, true))
    else if tool == "messaging_create_email_draft" then Some(ToolSpec(CUSTOMER_FACING_OR_MATERIAL, true))
    else if tool == "messaging_send_slack_approval" then Some(ToolSpec(INTERNAL_REVERSIBLE, true))
    else None
  }

  /** What a handler does: returns data, raises a typed failure, or raises an injected one. */
  datatype HandlerResult = Data(data: Json) | Failure(code: ToolErrorCode) | Injected(kind: string)

  datatype Envelope = SuccessEnvelope(data: Json) | ErrorEnvelope(code: ToolErrorCode)

  datatype CallStatus = SUCCESS | ERROR | DENIED

  datatype HandlerCall = HandlerCall(tool: string, args: Arguments)

  datatype LedgerRow = LedgerRow(tool: string, args: Arguments, result: Envelope, status: CallStatus, ordinal: nat)

  function InjectedCode(kind: string): ToolErrorCode {
    if kind == "RATE_LIMITED" then RateLimited
    else if kind == "BUDGET_EXCEEDED" then BudgetExceeded
    else AdapterError
  }

  function FailureStatus(code: ToolErrorCode): CallStatus {
    if code in {PolicyDenied, ApprovalRequired, PolicyEngineUnavailable} then DENIED else ERROR
  }

  function HandlerEnvelope(r: HandlerResult): Envelope {
    match r
    case Data(d) => SuccessEnvelope(d)
    case Failure(code) => ErrorEnvelope(code)
    case Injected(kind) => ErrorEnvelope(InjectedCode(kind))
  }

  /** A status names what the envelope says, whichever branch produced it, but an injected fault is never a denial. */
  function HandlerStatus(r: HandlerResult): CallStatus {
    match r
    case Data(_) => SUCCESS
    case Failure(code) => FailureStatus(code)
    case Injected(_) => ERROR
  }

  /** Which tools there are: eleven that only read or compute, and four writes, of which creating a task and asking on Slack
      stay inside and are reversible, while changing an opportunity and drafting to a customer are tier 2. */
  lemma RegistryExactly(tool: string)
    ensures SpecOf(tool) == Some(ToolSpec(0, false)) <==>
            || tool == "crm_search_accounts" || tool == "crm_get_account" || tool == "crm_get_opportunity"
            || tool == "crm_list_account_activities" || tool == "product_get_usage_summary"
            || tool == "engagement_get_email_activity" || tool == "engagement_get_meeting_activity"
            || tool == "support_get_open_issues" || tool == "enrichment_get_company_profile"
            || tool == "analytics_calculate_pipeline_impact" || tool == "audit_write_event"
    ensures SpecOf(tool) == Some(ToolSpec(1, true)) <==> tool == "crm_create_task" || tool == "messaging_send_slack_approval"
    ensures SpecOf(tool) == Some(ToolSpec(2, true)) <==> tool == "crm_update_opportunity" || tool == "messaging_create_email_draft"
    ensures SpecOf(tool) in {None, Some(ToolSpec(0, false)), Some(ToolSpec(1, true)), Some(ToolSpec(2, true))}
  {
  }

  /** What a known tool's call comes to, read off the validation, the gate and the handler: the envelope and the status it
      is recorded with. A refusal by the gate is DENIED and an injected fault never is. */
  ghost predicate ComesTo(accepted: bool, gate: Result<Outcome, ToolErrorCode>, outcome: HandlerResult, result: Envelope, status: CallStatus) {
    if !accepted then result == ErrorEnvelope(InvalidArguments) && status == ERROR
    else if gate.Err? then result == ErrorEnvelope(gate.error) && status == DENIED
    else match outcome
      case Data(d) => result == SuccessEnvelope(d) && status == SUCCESS
      case Failure(code) =>
        && result == ErrorEnvelope(code)
        && status == (if code.PolicyDenied? || code.ApprovalRequired? || code.PolicyEngineUnavailable? then DENIED else ERROR)
      case Injected(kind) =>
        && (kind == "RATE_LIMITED" ==> result == ErrorEnvelope(RateLimited))
        && (kind == "BUDGET_EXCEEDED" ==> result == ErrorEnvelope(BudgetExceeded))
        && (kind != "RATE_LIMITED" && kind != "BUDGET_EXCEEDED" ==> result == ErrorEnvelope(AdapterError))
        && status == ERROR
  }

  /** The gate's answer; a tool that does not write has none to wait for. */
  function GateOn(spec: ToolSpec, tool: string, args: Arguments, engine: Engine): Result<Outcome, ToolErrorCode> {
    if spec.isWrite then AuthorizeWrite(tool, spec.tier, args, engine) else Ok(Outcome(Allow, READ_OR_COMPUTE, [], None))
  }

  predicate MayRun(tool: string, args: Arguments, engine: Engine) {
    && SpecOf(tool).Some?
    && (SpecOf(tool).value.isWrite ==> AuthorizeWrite(tool, SpecOf(tool).value.tier, args, engine).Ok?)
  }

  class ToolServer {
    const engine: Engine
    const accepts: (string, Arguments) -> bool   // strict schema validation, one schema per tool
    const handler: nat -> HandlerResult          // what the n-th handler call will do
    const hasRun: bool                           // a run is attached, so calls are recorded

    var counts: map<string, nat>
    var handled: seq<HandlerCall>
    var ledger: seq<LedgerRow>

    constructor (engine: Engine, accepts: (string, Arguments) -> bool, handler: nat -> HandlerResult, hasRun: bool)
      ensures Valid() && handled == [] && ledger == [] && counts == map[]
      ensures this.engine == engine && this.accepts == accepts && this.handler == handler && this.hasRun == hasRun
    {
      this.engine, this.accepts, this.handler, this.hasRun := engine, accepts, handler, hasRun;
      counts, handled, ledger := map[], [], [];
    }

    /** Over the whole life of a server: no write handler ran without an ALLOW, a denied row never hides a
        success, and a tool's rows carry strictly increasing ordinals. */
    ghost predicate Valid()
      reads this
    {
      && (forall c :: c in handled ==> MayRun(c.tool, c.args, engine) && accepts(c.tool, c.args))
      && (forall row :: row in ledger ==>
            && SpecOf(row.tool).Some?
            && (row.status == SUCCESS <==> row.result.SuccessEnvelope?)
            && row.tool in counts && 1 <= row.ordinal <= counts[row.tool])
      && (forall i, j :: 0 <= i < j < |ledger| && ledger[i].tool == ledger[j].tool ==> ledger[i].ordinal < ledger[j].ordinal)
    }

    method NextOrdinal(tool: string) returns (ordinal: nat)
      modifies this`counts
      ensures ordinal == (if tool in old(counts) then old(counts)[tool] else 0) + 1
      ensures counts == old(counts)[tool := ordinal]
    {
      ordinal := (if tool in counts then counts[tool] else 0) + 1;
      counts := counts[tool := ordinal];
    }

    /** One known tool: validate, ask the gate if it writes, and only then run the handler. */
    method Handle(spec: ToolSpec, tool: string, args: Arguments) returns (result: Envelope, status: CallStatus)
      requires Valid() && SpecOf(tool) == Some(spec)
      modifies this`handled
      ensures Valid()
      ensures handled == old(handled) + (if MayRun(tool, args, engine) && accepts(tool, args) then [HandlerCall(tool, args)] else [])
      ensures ComesTo(accepts(tool, args), GateOn(spec, tool, args, engine), handler(|old(handled)|), result, status)
    {
      if !accepts(tool, args) {
        return ErrorEnvelope(InvalidArguments), ERROR;
      }
      if spec.isWrite {
        var decision := AuthorizeWrite(tool, spec.tier, args, engine);
        if decision.Err? {
          return ErrorEnvelope(decision.error), FailureStatus(decision.error);
        }
      }
      var outcome := handler(|handled|);
      handled := handled + [HandlerCall(tool, args)];
      result, status := HandlerEnvelope(outcome), HandlerStatus(outcome);
    }

    method Dispatch(tool: string, args: Arguments) returns (result: Envelope)
      requires Valid()
      modifies this
      ensures Valid()
      ensures handled == old(handled) + (if MayRun(tool, args, engine) && accepts(tool, args) then [HandlerCall(tool, args)] else [])
      ensures counts == old(counts)[tool := (if tool in old(counts) then old(counts)[tool] else 0) + 1]
      ensures SpecOf(tool).None? ==> result == ErrorEnvelope(NotFound) && ledger == old(ledger)
      ensures SpecOf(tool).Some? ==>
                exists status ::
                  && ComesTo(accepts(tool, args), GateOn(SpecOf(tool).value, tool, args, engine), handler(|old(handled)|), result, status)
                  && ledger == old(ledger) + if hasRun then [LedgerRow(tool, args, result, status, counts[tool])] else []
    {
      var ordinal := NextOrdinal(tool);
      var spec := SpecOf(tool);
      if spec.None? {
        return ErrorEnvelope(NotFound);
      }
      var status: CallStatus;
      result, status := Handle(spec.value, tool, args);
      if hasRun {
        ledger := ledger + [LedgerRow(tool, args, result, status, ordinal)];
      }
    }
  }
}
