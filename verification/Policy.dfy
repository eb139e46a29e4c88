/** Tier classification, the decision table, the two engines and the write gate. */
module Policy {
  import opened Vocabulary

  datatype Rule =
    | InternalReversible
    | CustomerFacing
    | MaterialField
    | NonMaterialField
    | ProhibitedCapability
    | UnclassifiedField
    | DefaultDeny
    | EscalatedRegistryTier
    | ApprovedByPerson

  /** `approvedAs` is the approval request the reason names, if it names one; the rest of the reason is prose. */
  datatype Outcome = Outcome(decision: PolicyDecision, tier: RiskTier, rules: seq<Rule>, approvedAs: Option<nat>)

  const MATERIAL_FIELDS := {"amount", "stage", "probability", "expected_close_date", "owner_id"}
  const NON_MATERIAL_FIELDS := {"description", "next_step"}

  /** The stored spelling of an action. */
  function ActionValue(a: ProposedAction): string {
    match a
    case Executable(CrmTask) => "crm_task"
    case Executable(EmailDraft) => "email_draft"
    case Executable(CrmFieldUpdate) => "crm_field_update"
    case Executable(SlackApprovalRequest) => "slack_approval_request"
    case SendEmailDirect => "send_email_direct"
    case RecordDelete => "record_delete"
  }

  function ParseAction(name: string): Option<ProposedAction> {
    if name == "crm_task" then Some(Executable(CrmTask))
    else if name == "email_draft" then Some(Executable(EmailDraft))
    else if name == "crm_field_update" then Some(Executable(CrmFieldUpdate))
    else if name == "slack_approval_request" then Some(Executable(SlackApprovalRequest))
    else if name == "send_email_direct" then Some(SendEmailDirect)
    else if name == "record_delete" then Some(RecordDelete)
    else None
  }

  // ---- classification ----

  function FieldTier(f: string): RiskTier {
    if f in MATERIAL_FIELDS then CUSTOMER_FACING_OR_MATERIAL
    else if f in NON_MATERIAL_FIELDS then INTERNAL_REVERSIBLE
    else PROHIBITED
  }

  function FieldRule(f: string): Rule {
    if f in MATERIAL_FIELDS then MaterialField
    else if f in NON_MATERIAL_FIELDS then NonMaterialField
    else UnclassifiedField
  }

  function HighestTier(fields: seq<string>): RiskTier {
    if fields == [] then READ_OR_COMPUTE
    else Max(HighestTier(fields[..|fields| - 1]), FieldTier(fields[|fields| - 1]))
  }

  function FieldRules(fields: seq<string>): seq<Rule> {
    seq(|fields|, i requires 0 <= i < |fields| => FieldRule(fields[i]))
  }

  /** Keeps the first occurrence of each element, in order. */
  function Deduplicated(xs: seq<Rule>): (r: seq<Rule>)
    ensures forall x :: x in r <==> x in xs
    ensures forall i, j :: 0 <= i < j < |r| ==> r[i] != r[j]
  {
    if xs == [] then []
    else
      var front := Deduplicated(xs[..|xs| - 1]);
      var last := xs[|xs| - 1];
      assert xs == xs[..|xs| - 1] + [last];
      if last in front then front else front + [last]
  }

  function FieldUpdateClass(fields: seq<string>): (RiskTier, seq<Rule>) {
    if fields == [] then (PROHIBITED, [UnclassifiedField])
    else (HighestTier(fields), Deduplicated(FieldRules(fields)))
  }

  /** The loop over the changed fields, given in sorted order. */
  method ClassifyFieldUpdate(fields: seq<string>) returns (tier: RiskTier, rules: seq<Rule>)
    ensures (tier, rules) == FieldUpdateClass(fields)
  {
    if fields == [] {
      return PROHIBITED, [UnclassifiedField];
    }
    var matched: seq<Rule> := [];
    tier := READ_OR_COMPUTE;
    for i := 0 to |fields|
      invariant tier == HighestTier(fields[..i])
      invariant matched == FieldRules(fields[..i])
    {
      assert fields[..i + 1][..i] == fields[..i];
      if fields[i] in MATERIAL_FIELDS {
        tier := Max(tier, CUSTOMER_FACING_OR_MATERIAL);
        matched := matched + [MaterialField];
      } else if fields[i] in NON_MATERIAL_FIELDS {
        tier := Max(tier, INTERNAL_REVERSIBLE);
        matched := matched + [NonMaterialField];
      } else {
        tier := Max(tier, PROHIBITED);
        matched := matched + [UnclassifiedField];
      }
    }
    assert fields[..|fields|] == fields;
    rules := Deduplicated(matched);
  }

  lemma {:induction false} HighestTierBounds(fields: seq<string>)
    ensures forall f :: f in fields ==> FieldTier(f) <= HighestTier(fields)
    ensures fields != [] ==> exists f :: f in fields && FieldTier(f) == HighestTier(fields)
  {
    if fields != [] {
      var front, last := fields[..|fields| - 1], fields[|fields| - 1];
      HighestTierBounds(front);
      assert fields == front + [last];
      assert last in fields;
      if front != [] {
        var f :| f in front && FieldTier(f) == HighestTier(front);
        assert f in fields;
      }
    }
  }

  /** What a field update needs, read off the fields alone: their order and repetition never matter. */
  lemma FieldUpdateDecision(fields: seq<string>)
    ensures
      var d := DecisionFor(FieldUpdateClass(fields).0);
      && (d == Deny <==> fields == [] || exists f :: f in fields && f !in MATERIAL_FIELDS + NON_MATERIAL_FIELDS)
      && (d == Allow <==> fields != [] && forall f :: f in fields ==> f in NON_MATERIAL_FIELDS)
  {
    HighestTierBounds(fields);
    if fields != [] {
      var top :| top in fields && FieldTier(top) == HighestTier(fields);
      if HighestTier(fields) == PROHIBITED {
        assert top !in MATERIAL_FIELDS + NON_MATERIAL_FIELDS;
      } else {
        forall f | f in fields ensures f in MATERIAL_FIELDS + NON_MATERIAL_FIELDS {
          assert FieldTier(f) <= HighestTier(fields);
        }
      }
    }
  }

  function Classify(action: string, fields: seq<string>): (RiskTier, seq<Rule>) {
    match ParseAction(action)
    case None => (PROHIBITED, [DefaultDeny])
    case Some(Executable(CrmFieldUpdate)) => FieldUpdateClass(fields)
    case Some(Executable(EmailDraft)) => (CUSTOMER_FACING_OR_MATERIAL, [CustomerFacing])
    case Some(Executable(_)) => (INTERNAL_REVERSIBLE, [InternalReversible])
    case Some(_) => (PROHIBITED, [ProhibitedCapability])
  }

  /** The two sets of fields a person or nobody decides about. */
  lemma ClassifiedFields(f: string)
    ensures f in MATERIAL_FIELDS <==>
            f == "amount" || f == "stage" || f == "probability" || f == "expected_close_date" || f == "owner_id"
    ensures f in NON_MATERIAL_FIELDS <==> f == "description" || f == "next_step"
  {
  }

  /** What policy answers about every action that can be named, with the rules that put it there. A name it does not know is
      denied; an approved request is never part of the answer. */
  lemma EvaluateExactly(action: string, fields: seq<string>)
    ensures Evaluate(action, fields).approvedAs == None
    ensures action in {"crm_task", "slack_approval_request"} ==> Evaluate(action, fields) == Outcome(Allow, 1, [InternalReversible], None)
    ensures action == "email_draft" ==> Evaluate(action, fields) == Outcome(RequireApproval, 2, [CustomerFacing], None)
    ensures action in {"send_email_direct", "record_delete"} ==> Evaluate(action, fields) == Outcome(Deny, 3, [ProhibitedCapability], None)
    ensures action !in {"crm_task", "slack_approval_request", "email_draft", "crm_field_update", "send_email_direct", "record_delete"} ==>
              Evaluate(action, fields) == Outcome(Deny, 3, [DefaultDeny], None)
    ensures action == "crm_field_update" && fields == [] ==> Evaluate(action, fields) == Outcome(Deny, 3, [UnclassifiedField], None)
    ensures action == "crm_field_update" && fields != [] ==>
              var o := Evaluate(action, fields);
              && (o.decision == Deny <==> o.tier == 3) && (o.decision == RequireApproval <==> o.tier == 2) && (o.decision == Allow <==> o.tier == 1)
              && (forall i, j :: 0 <= i < j < |o.rules| ==> o.rules[i] != o.rules[j])
              && (MaterialField in o.rules <==> exists f :: f in fields && f in MATERIAL_FIELDS)
              && (NonMaterialField in o.rules <==> exists f :: f in fields && f in NON_MATERIAL_FIELDS)
              && (UnclassifiedField in o.rules <==> exists f :: f in fields && f !in MATERIAL_FIELDS + NON_MATERIAL_FIELDS)
              && (forall rule :: rule in o.rules ==> rule in {MaterialField, NonMaterialField, UnclassifiedField})
  {
    if action == "crm_field_update" && fields != [] {
      RulesOfFields(fields);
      HighestTierBounds(fields);
    }
  }

  lemma RulesOfFields(fields: seq<string>)
    ensures forall rule :: rule in FieldRules(fields) <==> exists f :: f in fields && FieldRule(f) == rule
  {
    forall rule | rule in FieldRules(fields) ensures exists f :: f in fields && FieldRule(f) == rule {
      var i :| 0 <= i < |fields| && FieldRules(fields)[i] == rule;
      assert fields[i] in fields;
    }
    forall f | f in fields ensures FieldRule(f) in FieldRules(fields) {
      var i :| 0 <= i < |fields| && fields[i] == f;
      assert FieldRules(fields)[i] == FieldRule(f);
    }
  }

  function DecisionFor(tier: RiskTier): PolicyDecision {
    if tier <= INTERNAL_REVERSIBLE then Allow
    else if tier == CUSTOMER_FACING_OR_MATERIAL then RequireApproval
    else Deny
  }

  function Evaluate(action: string, fields: seq<string>): Outcome {
    var (tier, rules) := Classify(action, fields);
    Outcome(DecisionFor(tier), tier, rules, None)
  }

  // ---- the engines the write gate consults ----

  /** NoEngine is an unbound gate; ApprovedFor is the engine rebound from one grant. */
  datatype Engine =
    | NoEngine
    | Deterministic
    | ApprovedFor(tool: string, request: nat)

  function ToolAction(tool: string): string {
    if tool == "crm_create_task" then "crm_task"
    else if tool == "crm_update_opportunity" then "crm_field_update"
    else if tool == "messaging_create_email_draft" then "email_draft"
    else if tool == "messaging_send_slack_approval" then "slack_approval_request"
    else tool
  }

  function FieldsOf(args: Arguments): seq<string> {
    if "field" in args && args["field"].Value? && args["field"].json.Text? then [args["field"].json.s] else []
  }

  function DeterministicAuthorize(tool: string, tier: RiskTier, args: Arguments): Outcome {
    var outcome := Evaluate(ToolAction(tool), FieldsOf(args));
    var effective := Max(outcome.tier, tier);
    if effective == outcome.tier then outcome
    else Outcome(DecisionFor(effective), effective, outcome.rules + [EscalatedRegistryTier], None)
  }

  function Authorize(engine: Engine, tool: string, tier: RiskTier, args: Arguments): Outcome
    requires !engine.NoEngine?
  {
    var outcome := DeterministicAuthorize(tool, tier, args);
    if engine.Deterministic? || outcome.decision != RequireApproval || tool != engine.tool then outcome
    else Outcome(Allow, outcome.tier, outcome.rules + [ApprovedByPerson], Some(engine.request))
  }

  function AuthorizeWrite(tool: string, tier: RiskTier, args: Arguments, engine: Engine)
    : Result<Outcome, ToolErrorCode>
  {
    if engine.NoEngine? then Err(PolicyEngineUnavailable)
    else
      var outcome := Authorize(engine, tool, tier, args);
      match outcome.decision
      case Allow => Ok(outcome)
      case RequireApproval => Err(ApprovalRequired)
      case Deny => Err(PolicyDenied)
  }

  /** Caution is monotone: the decision is never laxer than the registry's own tier asks for,
      nor than the action and its fields ask for. */
  lemma RegistryTierNeverLoosens(tool: string, tier: RiskTier, args: Arguments)
    ensures
      var d := DeterministicAuthorize(tool, tier, args).decision;
      && (d == Allow ==> DecisionFor(tier) == Allow && Evaluate(ToolAction(tool), FieldsOf(args)).decision == Allow)
      && (d == Deny <==> tier == PROHIBITED || Evaluate(ToolAction(tool), FieldsOf(args)).decision == Deny)
  {
  }

  /** Rebinding an approval changes exactly one answer: approval-required for the granted tool becomes allow.
      Every denial stays a denial and no other tool is lifted, for all tools, tiers and arguments. */
  lemma ApprovalLiftsExactlyOneAnswer(granted: string, request: nat, tool: string, tier: RiskTier, args: Arguments)
    ensures
      var was := AuthorizeWrite(tool, tier, args, Deterministic);
      var now := AuthorizeWrite(tool, tier, args, ApprovedFor(granted, request));
      && (now != was <==> was == Err(ApprovalRequired) && tool == granted)
      && (now != was ==>
            && now.Ok? && now.value.approvedAs == Some(request)
            && now.value.rules == DeterministicAuthorize(tool, tier, args).rules + [ApprovedByPerson])
      && (was.Ok? ==> was.value.approvedAs == None)
      && (was == Err(PolicyDenied) <==> now == Err(PolicyDenied))
  {
  }

  /** The field-update tool is declared tier 2, so without an approval nothing gets it through the gate;
      what a person can unlock is exactly the classified fields. */
  lemma FieldUpdatesAlwaysNeedAPerson(args: Arguments, request: nat)
    ensures
      var tier := CUSTOMER_FACING_OR_MATERIAL;
      var tool := "crm_update_opportunity";
      && AuthorizeWrite(tool, tier, args, Deterministic).Err?
      && (AuthorizeWrite(tool, tier, args, ApprovedFor(tool, request)).Ok?
          <==> "field" in args && args["field"].Value? && args["field"].json.Text? && args["field"].json.s in MATERIAL_FIELDS + NON_MATERIAL_FIELDS)
  {
    var fields := FieldsOf(args);
    HighestTierBounds(fields);
    FieldUpdateDecision(fields);
    if fields != [] {
      assert fields[0] in fields;
    }
  }
}
