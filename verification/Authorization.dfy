/** The one door to execution: policy is evaluated afresh, and an approval is consulted only when it is required. */
module Authorization {
  import opened Vocabulary
  import opened Policy
  import opened Actions
  import Approvals
  import Dispatch

  /** The governance tables. Unique foreign keys give an intervention at most one stored decision and a decision
      at most one approval request, so all three are keyed by the intervention. */
  datatype Tables = Tables(
    interventions: map<nat, Intervention>,
    decisions: map<nat, PolicyDecision>,
    approvals: map<nat, Approvals.Approval>)

  datatype Refusal =
    | NoIntervention
    | NoEvaluation
    | PolicyDrift(stored: PolicyDecision, current: PolicyDecision)
    | DeniedByPolicy
    | ApprovalMissing(state: Option<ApprovalStatus>)
    | NotExecutable

  /** The execution-time evaluation names no changed fields. */
  function FreshDecision(action: ProposedAction): PolicyDecision {
    Evaluate(ActionValue(action), []).decision
  }

  function RequireApprovalOf(t: Tables, id: nat, now: Instant): Result<nat, Refusal> {
    if id !in t.approvals then Err(ApprovalMissing(None))
    else
      var status := Approvals.EffectiveStatus(t.approvals[id], now);
      if status != Approved then Err(ApprovalMissing(Some(status))) else Ok(id)
  }

  function Authorize(t: Tables, id: nat, now: Instant): Result<Grant, Refusal> {
    if id !in t.interventions then Err(NoIntervention)
    else if id !in t.decisions then Err(NoEvaluation)
    else
      var i := t.interventions[id];
      var current := FreshDecision(i.action);
      if current != t.decisions[id] then Err(PolicyDrift(t.decisions[id], current))
      else if current == Deny then Err(DeniedByPolicy)
      else
        var approval := if current == RequireApproval then RequireApprovalOf(t, id, now) else Ok(id);
        if approval.Err? then Err(approval.error)
        else if !i.action.Executable? then Err(NotExecutable)
        else Ok(Grant(id, i.action.action, i.targetRef, id, if current == RequireApproval then Some(id) else None))
  }

  /** What can ever be granted, over every content of the tables: a task or a notification recorded as allowed, or an
      email draft recorded as needing approval whose request reads as APPROVED now. A field update, a direct send and a
      delete are never granted, whatever was recorded and whoever approved it. */
  lemma GrantedExactly(t: Tables, id: nat, now: Instant)
    ensures Authorize(t, id, now).Ok? <==>
              && id in t.interventions && id in t.decisions
              && var action, stored := t.interventions[id].action, t.decisions[id];
                 || (action in {Executable(CrmTask), Executable(SlackApprovalRequest)} && stored == Allow)
                 || (action == Executable(EmailDraft) && stored == RequireApproval
                     && id in t.approvals && t.approvals[id].status == Approved)
    ensures Authorize(t, id, now).Ok? ==>
              var g := Authorize(t, id, now).value;
              && Executable(g.action) == t.interventions[id].action && g.targetRef == t.interventions[id].targetRef
              && g.interventionId == g.evaluationId == id
              && (g.approvalId == if t.decisions[id] == RequireApproval then Some(id) else None)
    ensures Authorize(t, id, now) != Err(NotExecutable)
  {
    if id in t.interventions {
      FreshDecisions(t.interventions[id].action);
    }
  }

  /** Why a grant is refused, in the order the checks are made: no intervention, no recorded decision, a decision that policy
      no longer gives, a denial, and a request that is missing or does not read APPROVED now. */
  lemma RefusedExactly(t: Tables, id: nat, now: Instant)
    ensures
      var r := Authorize(t, id, now);
      && (r == Err(NoIntervention) <==> id !in t.interventions)
      && (r == Err(NoEvaluation) <==> id in t.interventions && id !in t.decisions)
      && (id in t.interventions && id in t.decisions ==>
            var stored, action := t.decisions[id], t.interventions[id].action;
            var current := if action in {Executable(CrmTask), Executable(SlackApprovalRequest)} then Allow
                           else if action == Executable(EmailDraft) then RequireApproval else Deny;
            && (r.Err? && r.error.PolicyDrift? <==> stored != current)
            && (stored != current ==> r == Err(PolicyDrift(stored, current)))
            && (r == Err(DeniedByPolicy) <==> stored == current == Deny)
            && (r.Err? && r.error.ApprovalMissing? <==>
                  stored == current == RequireApproval && !(id in t.approvals && t.approvals[id].status == Approved))
            && (r.Err? && r.error.ApprovalMissing? ==>
                  r.error.state == if id !in t.approvals then None
                                   else if t.approvals[id].status == Pending && t.approvals[id].expiresAt <= now then Some(Expired)
                                   else Some(t.approvals[id].status)))
  {
    if id in t.interventions {
      FreshDecisions(t.interventions[id].action);
    }
  }

  lemma FreshDecisions(action: ProposedAction)
    ensures FreshDecision(action) ==
            match action
            case Executable(CrmTask) => Allow
            case Executable(SlackApprovalRequest) => Allow
            case Executable(EmailDraft) => RequireApproval
            case _ => Deny
  {
    FieldUpdateDecision([]);
  }

  /** An update of a field, however it was decided when it was proposed, ends in drift or denial at execution:
      the execution-time evaluation never sees which field changes. */
  lemma FieldUpdatesNeverRun(t: Tables, id: nat, now: Instant)
    requires id in t.interventions && id in t.decisions && t.interventions[id].action == Executable(CrmFieldUpdate)
    ensures Authorize(t, id, now) ==
            Err(if t.decisions[id] == Deny then DeniedByPolicy else PolicyDrift(t.decisions[id], Deny))
  {
    FreshDecisions(t.interventions[id].action);
  }

  /** The engine handed to the write gate for one grant. */
  function EngineFor(g: Grant): Engine {
    if g.approvalId.None? || ToolFor(g.action).None? then Deterministic
    else ApprovedFor(ToolFor(g.action).value, g.approvalId.value)
  }

  function Gate(engine: Engine, tool: string, args: Arguments): Result<Outcome, ToolErrorCode>
    requires Dispatch.SpecOf(tool).Some?
  {
    AuthorizeWrite(tool, Dispatch.SpecOf(tool).value.tier, args, engine)
  }

  /** Two gates agree on every grant. A grant always has its own action's registered write tool and arguments for it, the gate with the
      grant's own engine lets that call through, and for any other tool that engine answers as if nothing was approved. */
  lemma EveryGrantPassesTheGate(t: Tables, id: nat, now: Instant, subject: Subject, at: Instant)
    requires Authorize(t, id, now).Ok?
    ensures
      var g := Authorize(t, id, now).value;
      && ToolFor(g.action).Some? && BuildArguments(t.interventions[id], g.action, subject, at).Some?
      && var tool, args := ToolFor(g.action).value, BuildArguments(t.interventions[id], g.action, subject, at).value;
         && tool == (match g.action
                     case CrmTask => "crm_create_task"
                     case EmailDraft => "messaging_create_email_draft"
                     case SlackApprovalRequest => "messaging_send_slack_approval"
                     case CrmFieldUpdate => "")
         && ToolAction(tool) == ActionValue(Executable(g.action))
         && Dispatch.SpecOf(tool).Some? && Dispatch.SpecOf(tool).value.isWrite
         && Gate(EngineFor(g), tool, args).Ok?
         && (Gate(Deterministic, tool, args).Ok? <==> g.approvalId.None?)
         && forall other, a :: other != tool && Dispatch.SpecOf(other).Some? ==>
              Gate(EngineFor(g), other, a) == Gate(Deterministic, other, a)
  {
    GrantedExactly(t, id, now);
    FreshDecisions(t.interventions[id].action);
  }
}
