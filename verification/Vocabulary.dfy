/** Closed vocabularies shared by every part of the model, and the two result types. */
module Vocabulary {

  datatype Option<+T> = None | Some(value: T) {
    function GetOr(default: T): T {
      if None? then default else value
    }
  }

  datatype Result<+T, +E> = Ok(value: T) | Err(error: E)

  /** Microseconds since an epoch. Time is always injected, never read. */
  type Instant = int

  const MICROS_PER_DAY := 86_400_000_000

  /** The UTC calendar day an instant falls on. */
  function DateOf(t: Instant): int {
    t / MICROS_PER_DAY
  }

  datatype ActionType = CrmTask | EmailDraft | CrmFieldUpdate | SlackApprovalRequest

  /** What may be proposed: the executable types, and two that are only ever refused. */
  datatype ProposedAction =
    | Executable(action: ActionType)
    | SendEmailDirect
    | RecordDelete

  /** Tiers 0..3; escalation is Max. */
  type RiskTier = t: nat | t <= 3

  const READ_OR_COMPUTE: RiskTier := 0
  const INTERNAL_REVERSIBLE: RiskTier := 1
  const CUSTOMER_FACING_OR_MATERIAL: RiskTier := 2
  const PROHIBITED: RiskTier := 3

  function Max(a: RiskTier, b: RiskTier): RiskTier {
    if a < b then b else a
  }

  datatype PolicyDecision = Allow | RequireApproval | Deny

  datatype ApprovalStatus = Pending | Approved | Rejected | Expired

  datatype ActionStatus = Executing | Succeeded | Failed | Indeterminate

  datatype ToolErrorCode =
    | InvalidArguments
    | NotFound
    | PolicyDenied
    | PolicyEngineUnavailable
    | ApprovalRequired
    | RateLimited
    | BudgetExceeded
    | AdapterError

  /** JSON values. An object lists its entries in insertion order, keys distinct. */
  datatype Json =
    | Null
    | Bool(b: bool)
    | Number(text: string)
    | Text(s: string)
    | List(items: seq<Json>)
    | Object(entries: seq<Member>)

  datatype Member = Member(key: string, value: Json)

  /** A tool's argument: a JSON value, or a calendar day in ISO form, which is known only by its day. */
  datatype Argument = Value(json: Json) | Date(day: int)

  /** The arguments of one tool call. */
  type Arguments = map<string, Argument>
}
