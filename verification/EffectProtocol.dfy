/** Many workers, one effect each time: every interleaving of authorise, claim, call, record, crash, decide and reconcile.

    Two readings of the claim are kept apart. ClaimCommits is the documented protocol: what a step wrote is durable when
    the step ends. ClaimFlushes is what the code does: a pass is one transaction, its rows are invisible to others until
    it commits, and a crash takes them back. */
module EffectProtocol {
  import opened Vocabulary
  import opened Actions
  import opened Authorization
  import Approvals

  datatype Mode = ClaimCommits | ClaimFlushes

  type WorkerId = nat

  /** What authorisation saw, kept beside the record for the record's whole life. */
  datatype Facts = Facts(
    stored: PolicyDecision,
    current: PolicyDecision,
    approval: Option<Approvals.Approval>,
    firstDecision: Option<FirstDecision>)

  datatype FirstDecision = FirstDecision(actor: string, at: Instant)

  /** One row of action_records; uncommittedBy names the transaction that still owns it. */
  datatype Entry = Entry(record: ActionRecord, claimant: WorkerId, uncommittedBy: Option<WorkerId>, facts: Facts)

  /** Where one pass stands on one effect. A worker that is absent is idle. */
  datatype Worker =
    | Granted(grant: Grant, key: Key, runId: nat, at: Instant, facts: Facts)
    | Found(key: Key, seen: ActionStatus)
    | Claimed(key: Key, attempt: nat, at: Instant)
    | Sending(key: Key, attempt: nat, at: Instant)
    | Answered(key: Key, attempt: nat, at: Instant, answer: Payload)

  /** History of one key: rows inserted, tool calls sent, calls answered ok, rows taken back by a rollback. */
  datatype Tally = Tally(claims: nat, calls: nat, oks: nat, rollbacks: nat)

  /** Somebody else's transaction that has read its row, passed its checks, and not written yet. No row is locked and no
      version compared, so it writes over whatever stands by then. */
  datatype Edit =
    | DecisionEdit(session: nat, id: nat, seen: Approvals.Approval, approved: bool, actor: string, at: Instant, note: Option<string>)
    | LapseEdit(session: nat, id: nat)
    | AttestationEdit(session: nat, key: Key, finding: Finding, actor: string, evidence: string, at: Instant)

  datatype State = State(
    tables: Tables,
    firstDecisions: map<nat, FirstDecision>,
    rows: map<Key, Entry>,
    workers: map<WorkerId, Worker>,
    history: map<Key, Tally>,
    edits: set<Edit>)

  const INITIAL := State(Tables(map[], map[], map[]), map[], map[], map[], map[], {})

  function Of(s: State, k: Key): Tally {
    if k in s.history then s.history[k] else Tally(0, 0, 0, 0)
  }

  datatype Step =
    | Propose(i: Intervention, decision: Option<PolicyDecision>, requester: string, at: Instant, ttl: nat)
    | BeginDecision(session: nat, id: nat, approved: bool, actor: string, at: Instant, note: Option<string>)
    | BeginLapse(session: nat, id: nat, at: Instant)
    | BeginAttestation(session: nat, key: Key, finding: Finding, actor: string, evidence: string, at: Instant)
    | Write(edit: Edit)
    | Authorise(w: WorkerId, id: nat, subject: Subject, at: Instant)
    | Claim(w: WorkerId)
    | Resolve(w: WorkerId)
    | Attempt(w: WorkerId)
    | Call(w: WorkerId, answer: Payload)
    | Record(w: WorkerId)
    | Commit(w: WorkerId)
    | Crash(w: WorkerId)

  // ---- the steps ----

  function ProposeStep(s: State, step: Step): Option<State>
    requires step.Propose?
  {
    var i := step.i;
    if i.id in s.tables.interventions then None
    else
      var t := s.tables.(interventions := s.tables.interventions[i.id := i]);
      var t := if step.decision.None? then t else t.(decisions := t.decisions[i.id := step.decision.value]);
      var t := if step.decision != Some(RequireApproval) then t
               else t.(approvals := t.approvals[i.id := Approvals.Requested(i.id, step.requester, step.at, step.ttl)]);
      Some(s.(tables := t))
  }

  /** A refused decision raises, and the caller's scope rolls back whatever it wrote. */
  function BeginDecisionStep(s: State, step: Step): Option<State>
    requires step.BeginDecision?
  {
    if step.id !in s.tables.approvals then None
    else
      var seen := s.tables.approvals[step.id];
      if Approvals.Decide(seen, step.approved, step.actor, step.at, step.note).1.Some? then Some(s)
      else Some(s.(edits := s.edits + {DecisionEdit(step.session, step.id, seen, step.approved, step.actor, step.at, step.note)}))
  }

  /** The sweeper selects a lapsed pending request. */
  function BeginLapseStep(s: State, step: Step): Option<State>
    requires step.BeginLapse?
  {
    if step.id !in s.tables.approvals then None
    else if Approvals.Lapse(s.tables.approvals[step.id], step.at) == s.tables.approvals[step.id] then Some(s)
    else Some(s.(edits := s.edits + {LapseEdit(step.session, step.id)}))
  }

  /** A refused attestation raises and writes nothing. */
  function BeginAttestationStep(s: State, step: Step): Option<State>
    requires step.BeginAttestation?
  {
    if step.key !in s.rows || s.rows[step.key].uncommittedBy.Some? then None
    else if Reconcile(s.rows[step.key].record, step.finding, step.actor, step.evidence, step.at).Err? then Some(s)
    else Some(s.(edits := s.edits + {AttestationEdit(step.session, step.key, step.finding, step.actor, step.evidence, step.at)}))
  }

  /** An update names only the columns whose value differs from the one that was read. */
  function Put<T(==)>(current: T, seen: T, value: T): T {
    if value == seen then current else value
  }

  function DecidedOver(current: Approvals.Approval, e: Edit): Approvals.Approval
    requires e.DecisionEdit?
  {
    var decided := Approvals.Decide(e.seen, e.approved, e.actor, e.at, e.note).0;
    current.(status := Put(current.status, e.seen.status, decided.status),
             decidedAt := Put(current.decidedAt, e.seen.decidedAt, decided.decidedAt),
             decidedBy := Put(current.decidedBy, e.seen.decidedBy, decided.decidedBy),
             note := Put(current.note, e.seen.note, decided.note))
  }

  /** The record was read INDETERMINATE and unattested, so all four columns differ and all four are written. */
  function AttestedOver(r: ActionRecord, e: Edit): ActionRecord
    requires e.AttestationEdit?
  {
    r.(status := FindingStatus(e.finding), reconciledBy := Some(Strip(e.actor)), reconciledAt := Some(e.at),
       evidence := Some(Strip(e.evidence)))
  }

  function WriteStep(s: State, step: Step): Option<State>
    requires step.Write?
  {
    var e := step.edit;
    if e !in s.edits then None
    else
      var y := s.(edits := s.edits - {e});
      match e
      case DecisionEdit(_, id, _, _, actor, at, _) =>
        if id !in s.tables.approvals then None
        else
          var first := if id in s.firstDecisions then s.firstDecisions else s.firstDecisions[id := FirstDecision(actor, at)];
          Some(y.(tables := s.tables.(approvals := s.tables.approvals[id := DecidedOver(s.tables.approvals[id], e)]),
                  firstDecisions := first))
      case LapseEdit(_, id) =>
        if id !in s.tables.approvals then None
        else Some(y.(tables := s.tables.(approvals := s.tables.approvals[id := s.tables.approvals[id].(status := Expired)])))
      case AttestationEdit(_, key, _, _, _, _) =>
        if key !in s.rows then None
        else Some(y.(rows := s.rows[key := s.rows[key].(record := AttestedOver(s.rows[key].record, e))]))
  }

  function FactsNow(s: State, id: nat): Facts
    requires id in s.tables.interventions && id in s.tables.decisions
  {
    Facts(
      s.tables.decisions[id],
      FreshDecision(s.tables.interventions[id].action),
      if id in s.tables.approvals then Some(s.tables.approvals[id]) else None,
      if id in s.firstDecisions then Some(s.firstDecisions[id]) else None)
  }

  function AuthoriseStep(s: State, step: Step): Option<State>
    requires step.Authorise?
  {
    if step.w in s.workers then None
    else
      var decision := Authorize(s.tables, step.id, step.at);
      if decision.Err? then Some(s)
      else
        var g, i := decision.value, s.tables.interventions[step.id];
        var args := BuildArguments(i, g.action, step.subject, step.at);
        if args.None? then None
        else
          var key := Key(step.subject.incidentRef, g.action, g.targetRef, args.value);
          Some(s.(workers := s.workers[step.w := Granted(g, key, i.runId, step.at, FactsNow(s, step.id))]))
  }

  /** Insert or discover. A row another open transaction owns blocks the insert. */
  function ClaimStep(mode: Mode, s: State, step: Step): Option<State>
    requires step.Claim?
  {
    if step.w !in s.workers || !s.workers[step.w].Granted? then None
    else
      var me := s.workers[step.w];
      if me.key !in s.rows then
        var owner := if mode == ClaimFlushes then Some(step.w) else None;
        var tally := Of(s, me.key);
        Some(s.(rows := s.rows[me.key := Entry(ClaimedRow(me.grant, me.runId), step.w, owner, me.facts)],
                workers := s.workers[step.w := Claimed(me.key, 1, me.at)],
                history := s.history[me.key := tally.(claims := tally.claims + 1)]))
      else if s.rows[me.key].uncommittedBy.Some? && s.rows[me.key].uncommittedBy != Some(step.w) then None
      else Some(s.(workers := s.workers[step.w := Found(me.key, s.rows[me.key].record.status)]))
  }

  /** Acts on the status as it was read, not as it is now. */
  function ResolveStep(s: State, step: Step): Option<State>
    requires step.Resolve?
  {
    if step.w !in s.workers || !s.workers[step.w].Found? || s.workers[step.w].key !in s.rows then None
    else
      var me := s.workers[step.w];
      var entry := s.rows[me.key];
      var rows := if me.seen != Executing then s.rows
                  else s.rows[me.key := entry.(record := entry.record.(status := Indeterminate))];
      Some(s.(rows := rows, workers := s.workers - {step.w}))
  }

  function AttemptStep(s: State, step: Step): Option<State>
    requires step.Attempt?
  {
    if step.w !in s.workers || !s.workers[step.w].Claimed? || s.workers[step.w].key !in s.rows then None
    else
      var me := s.workers[step.w];
      var entry := s.rows[me.key];
      Some(s.(rows := s.rows[me.key := entry.(record := entry.record.(attempts := me.attempt))],
              workers := s.workers[step.w := Sending(me.key, me.attempt, me.at)]))
  }

  function CallStep(s: State, step: Step): Option<State>
    requires step.Call?
  {
    if step.w !in s.workers || !s.workers[step.w].Sending? then None
    else
      var me := s.workers[step.w];
      var tally := Of(s, me.key);
      Some(s.(workers := s.workers[step.w := Answered(me.key, me.attempt, me.at, step.answer)],
              history := s.history[me.key := tally.(calls := tally.calls + 1,
                                                    oks := tally.oks + if step.answer.okIsTrue then 1 else 0)]))
  }

  function RecordStep(s: State, step: Step): Option<State>
    requires step.Record?
  {
    if step.w !in s.workers || !s.workers[step.w].Answered? || s.workers[step.w].key !in s.rows then None
    else
      var me := s.workers[step.w];
      match Verdict(me.attempt, me.answer)
      case None => Some(s.(workers := s.workers[step.w := Claimed(me.key, me.attempt + 1, me.at)]))
      case Some(status) =>
        var entry := s.rows[me.key];
        Some(s.(rows := s.rows[me.key := entry.(record := SettledRow(entry.record, status, me.answer, me.at))],
                workers := s.workers - {step.w}))
  }

  function CommitStep(s: State, step: Step): Option<State>
    requires step.Commit?
  {
    if step.w in s.workers then None
    else Some(s.(rows := map k | k in s.rows ::
                           if s.rows[k].uncommittedBy == Some(step.w) then s.rows[k].(uncommittedBy := None) else s.rows[k]))
  }

  function RolledBack(s: State, w: WorkerId): set<Key> {
    set k | k in s.rows && s.rows[k].uncommittedBy == Some(w)
  }

  /** The process dies: the pass is forgotten and so is everything it had not committed. */
  function CrashStep(s: State, step: Step): Option<State>
    requires step.Crash?
  {
    var lost := RolledBack(s, step.w);
    Some(s.(rows := s.rows - lost,
            workers := s.workers - {step.w},
            history := map k | k in s.history.Keys + lost ::
                         if k in lost then Of(s, k).(rollbacks := Of(s, k).rollbacks + 1) else s.history[k]))
  }

  /** None when the step is not enabled: the worker is elsewhere, or it is blocked. */
  function Next(mode: Mode, s: State, step: Step): Option<State> {
    match step
    case Propose(_, _, _, _, _) => ProposeStep(s, step)
    case BeginDecision(_, _, _, _, _, _) => BeginDecisionStep(s, step)
    case BeginLapse(_, _, _) => BeginLapseStep(s, step)
    case BeginAttestation(_, _, _, _, _, _) => BeginAttestationStep(s, step)
    case Write(_) => WriteStep(s, step)
    case Authorise(_, _, _, _) => AuthoriseStep(s, step)
    case Claim(_) => ClaimStep(mode, s, step)
    case Resolve(_) => ResolveStep(s, step)
    case Attempt(_) => AttemptStep(s, step)
    case Call(_, _) => CallStep(s, step)
    case Record(_) => RecordStep(s, step)
    case Commit(_) => CommitStep(s, step)
    case Crash(_) => CrashStep(s, step)
  }

  ghost predicate RowsMove(s: State, step: Step, z: State) {
    && (forall k :: k in z.rows && k in s.rows ==>
          Identity(z.rows[k].record) == Identity(s.rows[k].record) && z.rows[k].facts == s.rows[k].facts)
    && (forall k :: k in z.rows && k !in s.rows ==> Inserts(s, step, k, z.rows[k]))
    && (forall k :: k in s.rows && k !in z.rows ==> step.Crash? && s.rows[k].uncommittedBy == Some(step.w))
  }

  predicate Inserts(s: State, step: Step, k: Key, e: Entry) {
    && step.Claim? && step.w in s.workers && s.workers[step.w].Granted? && s.workers[step.w].key == k
    && e.record == ClaimedRow(s.workers[step.w].grant, s.workers[step.w].runId) && e.facts == s.workers[step.w].facts
  }

  lemma ClaimMoves(mode: Mode, s: State, step: Step)
    requires step.Claim? && ClaimStep(mode, s, step).Some?
    ensures RowsMove(s, step, ClaimStep(mode, s, step).value)
  {
  }

  lemma WritesMove(s: State, step: Step)
    requires step.Resolve? || step.Attempt? || step.Call? || step.Record?
    requires Next(ClaimCommits, s, step).Some?
    ensures RowsMove(s, step, Next(ClaimCommits, s, step).value)
  {
    match step
    case Resolve(_) => assert RowsMove(s, step, ResolveStep(s, step).value);
    case Attempt(_) => assert RowsMove(s, step, AttemptStep(s, step).value);
    case Call(_, _) => assert CallStep(s, step).value.rows == s.rows;
    case Record(_) => assert RowsMove(s, step, RecordStep(s, step).value);
  }

  lemma EditMoves(s: State, step: Step)
    requires step.Write? && WriteStep(s, step).Some?
    ensures RowsMove(s, step, WriteStep(s, step).value)
  {
  }

  /** No step of any worker changes a standing record's identity or what authorised it; rows appear only by a claim
      of an absent key and disappear only when a crash takes back what was never committed. */
  lemma IdentitiesNeverChange(mode: Mode, s: State, step: Step)
    requires Next(mode, s, step).Some?
    ensures RowsMove(s, step, Next(mode, s, step).value)
  {
    if step.Claim? {
      ClaimMoves(mode, s, step);
    } else if step.Resolve? || step.Attempt? || step.Call? || step.Record? {
      WritesMove(s, step);
    } else if step.Write? {
      EditMoves(s, step);
    } else if step.Commit? {
      assert RowsMove(s, step, CommitStep(s, step).value);
    } else if step.Crash? {
      assert RowsMove(s, step, CrashStep(s, step).value);
    } else {
      assert Next(mode, s, step).value.rows == s.rows;
    }
  }

  function Run(mode: Mode, s: State, steps: seq<Step>): Option<State>
    decreases |steps|
  {
    if steps == [] then Some(s)
    else
      var front := Run(mode, s, steps[..|steps| - 1]);
      if front.None? then None else Next(mode, front.value, steps[|steps| - 1])
  }

  ghost predicate Reachable(mode: Mode, s: State) {
    exists steps :: Run(mode, INITIAL, steps) == Some(s)
  }
}
