/** Arguments, idempotency keys, and the claim-first executor with its bounded retry. */
module Actions {
  import opened Vocabulary

  // ---- arguments and the key of one effect ----

  datatype Intervention = Intervention(
    id: nat, runId: nat, rank: nat, title: string, action: ProposedAction, rationale: string, targetRef: string)

  /** The persisted business values an argument may come from. */
  datatype Subject = Subject(
    incidentRef: string, accountRef: string, accountOwner: string, opportunityRef: string, opportunityOwner: string)

  const TASK_DUE_IN_DAYS := 2

  function ToolFor(action: ActionType): Option<string> {
    match action
    case CrmTask => Some("crm_create_task")
    case EmailDraft => Some("messaging_create_email_draft")
    case SlackApprovalRequest => Some("messaging_send_slack_approval")
    case CrmFieldUpdate => None
  }

  function BuildArguments(i: Intervention, action: ActionType, subject: Subject, at: Instant): Option<Arguments> {
    match action
    case CrmTask => Some(map[
      "opportunity_ref" := Value(Text(subject.opportunityRef)),
      "title" := Value(Text(i.title)),
      "description" := Value(Text(i.rationale)),
      "due_date" := Date(DateOf(at) + TASK_DUE_IN_DAYS),
      "assignee_ref" := Value(Text(subject.opportunityOwner))])
    case EmailDraft => Some(map[
      "account_ref" := Value(Text(subject.accountRef)),
      "recipient_ref" := Value(Text(subject.accountOwner)),
      "subject" := Value(Text(i.title)),
      "body" := Value(Text(i.rationale)),
      "intent" := Value(Text("re_engagement"))])
    case SlackApprovalRequest => Some(map[
      "channel_ref" := Value(Text("#revenue-ops")),
      "incident_ref" := Value(Text(subject.incidentRef)),
      "summary" := Value(Text(i.title))])
    case CrmFieldUpdate => None
  }

  /** The hashed business values. Hashing is injective, so the key is the values themselves. */
  datatype Key = Key(incidentRef: string, action: ActionType, targetRef: string, arguments: Arguments)

  /** A key survives from one instant to another exactly when the action is not a CRM task or the day is the same:
      a task's due date is derived from the instant of the pass, so a later day makes it a different effect. */
  lemma KeyIsStableIff(i: Intervention, action: ActionType, subject: Subject, t: Instant, u: Instant)
    requires ToolFor(action).Some?
    ensures
      var a, b := BuildArguments(i, action, subject, t), BuildArguments(i, action, subject, u);
      && a.Some? && b.Some?
      && (Key(subject.incidentRef, action, i.targetRef, a.value) == Key(subject.incidentRef, action, i.targetRef, b.value)
          <==> action != CrmTask || DateOf(t) == DateOf(u))
  {
    if action == CrmTask {
      var a, b := BuildArguments(i, action, subject, t).value, BuildArguments(i, action, subject, u).value;
      assert a["due_date"] == Date(DateOf(t) + TASK_DUE_IN_DAYS);
      assert b["due_date"] == Date(DateOf(u) + TASK_DUE_IN_DAYS);
    }
  }

  /** Every argument is a persisted value, word for word, but for the tool's own constants and a task's due date, which is
      two days after the day of the pass. A field update has none. */
  lemma ArgumentsAreThePersistedValues(i: Intervention, subject: Subject, at: Instant)
    ensures BuildArguments(i, CrmFieldUpdate, subject, at) == None
    ensures
      var task := BuildArguments(i, CrmTask, subject, at);
      && task.Some? && task.value.Keys == {"opportunity_ref", "title", "description", "due_date", "assignee_ref"}
      && task.value["opportunity_ref"] == Value(Text(subject.opportunityRef)) && task.value["title"] == Value(Text(i.title))
      && task.value["description"] == Value(Text(i.rationale)) && task.value["assignee_ref"] == Value(Text(subject.opportunityOwner))
      && task.value["due_date"] == Date(DateOf(at) + 2)
    ensures
      var email := BuildArguments(i, EmailDraft, subject, at);
      && email.Some? && email.value.Keys == {"account_ref", "recipient_ref", "subject", "body", "intent"}
      && email.value["account_ref"] == Value(Text(subject.accountRef)) && email.value["recipient_ref"] == Value(Text(subject.accountOwner))
      && email.value["subject"] == Value(Text(i.title)) && email.value["body"] == Value(Text(i.rationale))
      && email.value["intent"] == Value(Text("re_engagement"))
    ensures
      var slack := BuildArguments(i, SlackApprovalRequest, subject, at);
      && slack.Some? && slack.value.Keys == {"channel_ref", "incident_ref", "summary"}
      && slack.value["channel_ref"] == Value(Text("#revenue-ops")) && slack.value["incident_ref"] == Value(Text(subject.incidentRef))
      && slack.value["summary"] == Value(Text(i.title))
  {
  }

  /** Two proposals are one effect exactly when they agree in every value the tool is given: nothing else about an
      intervention, its run, its rank or the rest of its subject tells effects apart. */
  lemma SameEffectIff(i: Intervention, j: Intervention, action: ActionType, s: Subject, u: Subject, at: Instant, later: Instant)
    requires action != CrmFieldUpdate
    ensures
      var a, b := BuildArguments(i, action, s, at), BuildArguments(j, action, u, later);
      && a.Some? && b.Some?
      && (Key(s.incidentRef, action, i.targetRef, a.value) == Key(u.incidentRef, action, j.targetRef, b.value) <==>
            && (s.incidentRef, i.targetRef, i.title) == (u.incidentRef, j.targetRef, j.title)
            && (action == CrmTask ==> (i.rationale, s.opportunityRef, s.opportunityOwner, DateOf(at))
                                      == (j.rationale, u.opportunityRef, u.opportunityOwner, DateOf(later)))
            && (action == EmailDraft ==> (i.rationale, s.accountRef, s.accountOwner) == (j.rationale, u.accountRef, u.accountOwner)))
  {
    ArgumentsAreThePersistedValues(i, s, at);
    ArgumentsAreThePersistedValues(j, u, later);
    var a, b := BuildArguments(i, action, s, at).value, BuildArguments(j, action, u, later).value;
    if a == b {
      assert forall name :: name in a ==> a[name] == b[name];
    }
  }

  // ---- responses, and what the executor makes of them ----

  /** okIsTrue: the envelope's ok field is literally true. errorCode: error.code, when error is an object and code a string. */
  datatype Payload = Payload(okIsTrue: bool, errorCode: Option<string>, content: Json)

  const MAX_ATTEMPTS := 3

  function ParseErrorCode(code: string): Option<ToolErrorCode> {
    if code == "INVALID_ARGUMENTS" then Some(InvalidArguments)
    else if code == "NOT_FOUND" then Some(NotFound)
    else if code == "POLICY_DENIED" then Some(PolicyDenied)
    else if code == "POLICY_ENGINE_UNAVAILABLE" then Some(PolicyEngineUnavailable)
    else if code == "APPROVAL_REQUIRED" then Some(ApprovalRequired)
    else if code == "RATE_LIMITED" then Some(RateLimited)
    else if code == "BUDGET_EXCEEDED" then Some(BudgetExceeded)
    else if code == "ADAPTER_ERROR" then Some(AdapterError)
    else None
  }

  function ErrorCode(p: Payload): Option<ToolErrorCode> {
    if p.errorCode.None? then None else ParseErrorCode(p.errorCode.value)
  }

  predicate IsRetryable(code: ToolErrorCode) {
    code in {RateLimited, AdapterError}
  }

  predicate IsTransient(p: Payload) {
    !p.okIsTrue && ErrorCode(p).Some? && IsRetryable(ErrorCode(p).value)
  }

  /** In the answer's own words: the two faults that are worth another attempt. */
  predicate AsksForRetry(p: Payload) {
    !p.okIsTrue && p.errorCode in {Some("RATE_LIMITED"), Some("ADAPTER_ERROR")}
  }

  /** What one answer to one attempt means: a final status, or none when the loop goes round again. */
  function Verdict(attempt: nat, p: Payload): Option<ActionStatus> {
    if p.okIsTrue then Some(Succeeded)
    else if !IsTransient(p) || attempt == MAX_ATTEMPTS then Some(Failed)
    else None
  }

  // ---- records ----

  datatype Grant = Grant(
    interventionId: nat, action: ActionType, targetRef: string, evaluationId: nat, approvalId: Option<nat>)

  datatype ActionRecord = ActionRecord(
    runId: nat,
    interventionId: nat,
    action: ActionType,
    targetRef: string,
    authorizedBy: nat,
    approvalId: Option<nat>,
    status: ActionStatus,
    attempts: nat,
    result: Option<Payload>,
    executedAt: Option<Instant>,
    reconciledBy: Option<string>,
    reconciledAt: Option<Instant>,
    evidence: Option<string>)

  /** The fields no step may change: what is acted on, and on whose authority. */
  function Identity(r: ActionRecord): (nat, nat, ActionType, string, nat, Option<nat>) {
    (r.runId, r.interventionId, r.action, r.targetRef, r.authorizedBy, r.approvalId)
  }

  function ClaimedRow(g: Grant, runId: nat): ActionRecord {
    ActionRecord(runId, g.interventionId, g.action, g.targetRef, g.evaluationId, g.approvalId,
                 Executing, 0, None, None, None, None, None)
  }

  function SettledRow(r: ActionRecord, status: ActionStatus, p: Payload, at: Instant): ActionRecord {
    if status == Succeeded then r.(status := status, result := Some(p), executedAt := Some(at))
    else r.(status := status, result := Some(p))
  }

  function ResolvedRow(r: ActionRecord): ActionRecord {
    if r.status == Executing then r.(status := Indeterminate) else r
  }

  datatype ExecutionResult = ExecutionResult(
    status: ActionStatus, attempts: nat, payload: Option<Payload>, alreadyDone: bool)

  function StoredResult(r: ActionRecord): ExecutionResult {
    ExecutionResult(r.status, r.attempts, r.result, true)
  }

  // ---- the retry loop, as a function of the answers the adapter will give ----

  datatype Settlement = Settlement(status: ActionStatus, attempts: nat, payload: Payload)

  /** answers(i) is the adapter's answer to its i-th call ever; this pass starts at call number first. */
  function Settle(answers: nat -> Payload, first: nat, attempt: nat): Settlement
    requires 1 <= attempt <= MAX_ATTEMPTS
    decreases MAX_ATTEMPTS - attempt
  {
    var p := answers(first + attempt - 1);
    match Verdict(attempt, p)
    case Some(status) => Settlement(status, attempt, p)
    case None => Settle(answers, first, attempt + 1)
  }

  lemma TransientInWords(p: Payload)
    ensures IsTransient(p) <==> AsksForRetry(p)
  {
    if p.errorCode.Some? {
      var code := p.errorCode.value;
      assert ParseErrorCode(code) == Some(RateLimited) <==> code == "RATE_LIMITED";
      assert ParseErrorCode(code) == Some(AdapterError) <==> code == "ADAPTER_ERROR";
    }
  }

  /** The loop stops at the first answer that does not ask for another attempt, or at the third. Every earlier answer was a transient
      failure, so at most the last one is ok, and it is ok exactly when the effect is recorded as done. */
  lemma {:induction false} SettleStopsAtFirstDecisiveAnswer(answers: nat -> Payload, first: nat, attempt: nat)
    requires 1 <= attempt <= MAX_ATTEMPTS
    ensures
      var s := Settle(answers, first, attempt);
      && attempt <= s.attempts <= 3
      && s.payload == answers(first + s.attempts - 1)
      && (forall c :: first + attempt - 1 <= c < first + s.attempts - 1 ==> AsksForRetry(answers(c)))
      && (AsksForRetry(s.payload) ==> s.attempts == 3)
      && s.status == (if s.payload.okIsTrue then Succeeded else Failed)
    decreases MAX_ATTEMPTS - attempt
  {
    var p := answers(first + attempt - 1);
    TransientInWords(p);
    if Verdict(attempt, p).None? {
      SettleStopsAtFirstDecisiveAnswer(answers, first, attempt + 1);
    }
  }

  /** A claim says who may do what on whose authority, and that nothing has been tried yet. */
  lemma ClaimSaysOnlyWhoseItIs(g: Grant, runId: nat)
    ensures
      var r := ClaimedRow(g, runId);
      && Identity(r) == (runId, g.interventionId, g.action, g.targetRef, g.evaluationId, g.approvalId)
      && r.status == Executing && r.attempts == 0 && r.result == None && r.executedAt == None
      && r.reconciledBy == None && r.reconciledAt == None && r.evidence == None
  {
  }

  /** A whole pass over one key, field by field. A free key gets one record of the grant, settled by the last of at most
      three answers; a taken key gets no call, and its record is reported as it stands, an open claim as unknown. */
  lemma ExecuteExactly(records: Records, g: Grant, key: Key, runId: nat, answers: nat -> Payload, first: nat, at: Instant)
    ensures
      var e := Execute(records, g, key, runId, answers, first, at);
      && e.records.Keys == records.Keys + {key}
      && (forall k :: k in records && k != key ==> e.records[k] == records[k])
      && var r := e.records[key];
         && (e.result.status, e.result.attempts, e.result.payload) == (r.status, r.attempts, r.result)
         && (e.result.alreadyDone <==> key in records)
         && (if key in records
             then && e.callsMade == 0
                  && r == records[key].(status := r.status)
                  && r.status == (if records[key].status == Executing then Indeterminate else records[key].status)
             else && 1 <= e.callsMade <= 3
                  && var last := answers(first + e.callsMade - 1);
                     r == ActionRecord(runId, g.interventionId, g.action, g.targetRef, g.evaluationId, g.approvalId,
                                       if last.okIsTrue then Succeeded else Failed, e.callsMade, Some(last),
                                       if last.okIsTrue then Some(at) else None, None, None, None))
  {
    SettleStopsAtFirstDecisiveAnswer(answers, first, 1);
  }

  datatype ToolCall = ToolCall(tool: string, args: Arguments, answer: Payload)

  /** Whatever stands behind the tools: its answers are arbitrary, its calls are logged. */
  class ToolClient {
    const answers: nat -> Payload
    var log: seq<ToolCall>

    constructor (answers: nat -> Payload)
      ensures this.answers == answers && log == []
    {
      this.answers := answers;
      log := [];
    }

    method CallTool(tool: string, args: Arguments) returns (p: Payload)
      modifies this
      ensures p == answers(|old(log)|)
      ensures log == old(log) + [ToolCall(tool, args, p)]
    {
      p := answers(|log|);
      log := log + [ToolCall(tool, args, p)];
    }
  }

  function Calls(tool: string, args: Arguments, answers: nat -> Payload, first: nat, n: nat): seq<ToolCall> {
    seq(n, i requires 0 <= i < n => ToolCall(tool, args, answers(first + i)))
  }

  type Records = map<Key, ActionRecord>

  /** What a whole execute call does, from the records and the number of calls already made. */
  datatype Execution = Execution(records: Records, callsMade: nat, result: ExecutionResult)

  function Execute(records: Records, g: Grant, key: Key, runId: nat, answers: nat -> Payload, first: nat, at: Instant)
    : Execution
  {
    if key in records then
      var row := ResolvedRow(records[key]);
      Execution(records[key := row], 0, StoredResult(row))
    else
      var s := Settle(answers, first, 1);
      var row := SettledRow(ClaimedRow(g, runId).(attempts := s.attempts), s.status, s.payload, at);
      Execution(records[key := row], s.attempts, ExecutionResult(s.status, s.attempts, Some(s.payload), false))
  }

  // ---- reconciliation ----

  datatype Finding = Occurred | DidNotOccur

  datatype ReconcileError = NoSuchRecord | AlreadyReconciled | NotIndeterminate | BlankActor | BlankEvidence

  datatype ReconcileEvent = ReconcileEvent(
    key: Key, previous: ActionStatus, next: ActionStatus, actor: string, evidence: string, attempts: nat, at: Instant)

  /** What str.strip removes: Unicode white space and the four separators of the first control block. */
  predicate IsSpace(c: char) {
    || '\U{09}' <= c <= '\U{0D}' || '\U{1C}' <= c <= '\U{20}' || c == '\U{85}' || c == '\U{A0}'
    || c == '\U{1680}' || '\U{2000}' <= c <= '\U{200A}' || c == '\U{2028}' || c == '\U{2029}'
    || c == '\U{202F}' || c == '\U{205F}' || c == '\U{3000}'
  }

  function StripLeft(s: string): (t: string) {
    if s != [] && IsSpace(s[0]) then StripLeft(s[1..]) else s
  }

  function StripRight(s: string): (t: string) {
    if s != [] && IsSpace(s[|s| - 1]) then StripRight(s[..|s| - 1]) else s
  }

  function Strip(s: string): string {
    StripRight(StripLeft(s))
  }

  predicate IsBlank(s: string) {
    forall i :: 0 <= i < |s| ==> IsSpace(s[i])
  }

  lemma {:induction false} StripLeftKeeps(s: string)
    ensures IsBlank(s) <==> StripLeft(s) == []
    ensures StripLeft(s) == [] || !IsSpace(StripLeft(s)[0])
  {
    if s != [] && IsSpace(s[0]) {
      StripLeftKeeps(s[1..]);
      assert s == [s[0]] + s[1..];
    }
  }

  lemma {:induction false} StripRightKeeps(s: string)
    requires s == [] || !IsSpace(s[0])
    ensures StripRight(s) == [] <==> s == []
    ensures !IsBlank(StripRight(s)) || s == []
  {
    if s != [] && IsSpace(s[|s| - 1]) {
      StripRightKeeps(s[..|s| - 1]);
    }
  }

  /** Stripping empties exactly the blank strings, and what it leaves is not blank. */
  lemma StripEmptiesExactlyBlanks(s: string)
    ensures Strip(s) == [] <==> IsBlank(s)
    ensures !IsBlank(s) ==> !IsBlank(Strip(s))
  {
    StripLeftKeeps(s);
    StripRightKeeps(StripLeft(s));
  }

  function FindingStatus(f: Finding): ActionStatus {
    if f == Occurred then Succeeded else Failed
  }

  /** The white space there is: in ASCII, Latin-1, and the rest of the plane. */
  lemma SpacesListed(c: char)
    ensures IsSpace(c) <==>
            || c as int in {9, 10, 11, 12, 13, 28, 29, 30, 31, 32} || c as int in {133, 160}
            || c as int in {0x1680, 0x2000, 0x2001, 0x2002, 0x2003, 0x2004, 0x2005, 0x2006, 0x2007, 0x2008, 0x2009, 0x200A,
                            0x2028, 0x2029, 0x202F, 0x205F, 0x3000}
  {
  }

  /** A person's finding about one record, refused in the order the checks are made. */
  function Reconcile(r: ActionRecord, f: Finding, actor: string, evidence: string, at: Instant)
    : Result<ActionRecord, ReconcileError>
  {
    if r.reconciledBy.Some? then Err(AlreadyReconciled)
    else if r.status != Indeterminate then Err(NotIndeterminate)
    else if Strip(actor) == [] then Err(BlankActor)
    else if Strip(evidence) == [] then Err(BlankEvidence)
    else Ok(r.(status := FindingStatus(f), reconciledBy := Some(Strip(actor)), reconciledAt := Some(at),
               evidence := Some(Strip(evidence))))
  }

  /** Stripping takes white space off both ends and nothing else. */
  lemma StripIsTheMiddle(s: string) returns (before: string, after: string)
    ensures s == before + Strip(s) + after && IsBlank(before) && IsBlank(after)
    ensures Strip(s) != [] ==> !IsSpace(Strip(s)[0]) && !IsSpace(Strip(s)[|Strip(s)| - 1])
  {
    before := LeftTaken(s);
    after := RightTaken(StripLeft(s));
    StripLeftKeeps(s);
    StripRightFirst(StripLeft(s));
    assert s == before + (Strip(s) + after);
  }

  lemma {:induction false} LeftTaken(s: string) returns (before: string)
    ensures s == before + StripLeft(s) && IsBlank(before)
  {
    if s != [] && IsSpace(s[0]) {
      before := LeftTaken(s[1..]);
      before := [s[0]] + before;
    } else {
      before := [];
    }
  }

  lemma {:induction false} RightTaken(s: string) returns (after: string)
    ensures s == StripRight(s) + after && IsBlank(after)
  {
    if s != [] && IsSpace(s[|s| - 1]) {
      after := RightTaken(s[..|s| - 1]);
      after := after + [s[|s| - 1]];
    } else {
      after := [];
    }
  }

  lemma {:induction false} StripRightFirst(s: string)
    ensures StripRight(s) != [] ==> StripRight(s)[0] == s[0] && !IsSpace(StripRight(s)[|StripRight(s)| - 1])
  {
    if s != [] && IsSpace(s[|s| - 1]) {
      StripRightFirst(s[..|s| - 1]);
    }
  }

  /** Reconciliation succeeds on exactly the unattested unknowns with a named actor and a stated basis. It settles the
      status as the finding says, records the actor, the instant and the basis, changes nothing else, and can never be
      repeated. */
  lemma ReconcileExactly(r: ActionRecord, f: Finding, actor: string, evidence: string, at: Instant)
    ensures
      var z := Reconcile(r, f, actor, evidence, at);
      && (z.Ok? <==> r.status == Indeterminate && r.reconciledBy.None? && !IsBlank(actor) && !IsBlank(evidence))
      && (z.Ok? ==>
            && z.value.status == (match f case Occurred => Succeeded case DidNotOccur => Failed)
            && z.value.reconciledBy == Some(Strip(actor)) && z.value.reconciledAt == Some(at) && z.value.evidence == Some(Strip(evidence))
            && !IsBlank(Strip(actor)) && !IsBlank(Strip(evidence))
            && z.value == r.(status := z.value.status, reconciledBy := z.value.reconciledBy,
                             reconciledAt := z.value.reconciledAt, evidence := z.value.evidence)
            && forall g, a, e, t :: Reconcile(z.value, g, a, e, t) == Err(AlreadyReconciled))
  {
    StripEmptiesExactlyBlanks(actor);
    StripEmptiesExactlyBlanks(evidence);
  }
}
