/** The incident state machine, and the audit trail that replays it. */
module Incidents {
  import opened Vocabulary

  datatype Status =
    | Detected | Triaged | Investigating | Analyzed | Strategized | AwaitingApproval | Executing
    | Completed | ClosedRejected | Expired | Dismissed | Failed

  const TERMINAL: set<Status> := {Completed, ClosedRejected, Status.Expired, Dismissed, Status.Failed}

  function LegalFrom(s: Status): set<Status> {
    match s
    case Detected => {Triaged, Dismissed}
    case Triaged => {Investigating, Dismissed}
    case Investigating => {Analyzed, Status.Failed}
    case Analyzed => {Strategized, Status.Failed}
    case Strategized => {AwaitingApproval, Status.Executing}
    case AwaitingApproval => {Status.Executing, ClosedRejected, Status.Expired}
    case Executing => {Completed}
    case Completed => {}
    case ClosedRejected => {}
    case Expired => {}
    case Dismissed => {}
    case Failed => {}
  }

  predicate IsLegal(from: Status, to: Status) {
    to in LegalFrom(from)
  }

  predicate IsTerminal(s: Status) {
    s in TERMINAL
  }

  /** The fourteen edges, by where they lead; and a state is terminal exactly when none leaves it. */
  lemma EdgesByTarget(from: Status, to: Status)
    ensures IsLegal(from, to) <==>
            match to
            case Detected => false
            case Triaged => from == Detected
            case Dismissed => from == Detected || from == Triaged
            case Investigating => from == Triaged
            case Analyzed => from == Investigating
            case Failed => from == Investigating || from == Analyzed
            case Strategized => from == Analyzed
            case AwaitingApproval => from == Strategized
            case Executing => from == Strategized || from == AwaitingApproval
            case ClosedRejected => from == AwaitingApproval
            case Expired => from == AwaitingApproval
            case Completed => from == Status.Executing
    ensures IsTerminal(from) <==> LegalFrom(from) == {}
  {
  }

  /** A move changes the status, stamps the instant on a terminal one, and changes nothing else. It is refused for an edge
      that does not exist, or for closing an incident before it was opened. */
  lemma MovesExactly(row: IncidentRow, to: Status, at: Instant)
    ensures Moved(row, to, at) == row.(status := to, closedAt := Moved(row, to, at).closedAt)
    ensures Moved(row, to, at).closedAt == if LegalFrom(to) == {} then Some(at) else row.closedAt
    ensures Refusal(row, to, at) == if to !in LegalFrom(row.status) then Some(IllegalTransition(row.status, to))
                                    else if LegalFrom(to) == {} && at < row.openedAt then Some(ClosedBeforeOpened) else None
  {
    EdgesByTarget(to, to);
  }

  // ---- rows ----

  /** A signal is named by its deduplication key. */
  datatype IncidentRow = IncidentRow(
    ref: nat, signal: string, severity: string, account: nat, opportunity: nat,
    status: Status, openedAt: Instant, closedAt: Option<Instant>)

  datatype AuditEvent =
    | OpenedEvent(signal: string)
    | TransitionedEvent(from: Status, to: Status, reason: string)
    | OtherEvent(name: string)      // `action.reconciled`, written by a reconciliation

  /** `incident` is a row number of the incidents table. */
  datatype AuditRow = AuditRow(incident: Option<nat>, event: AuditEvent, actor: string, at: Instant)

  datatype TransitionError =
    | IllegalTransition(from: Status, to: Status)
    | ClosedBeforeOpened                             // the table's own constraint on the two instants

  function Moved(row: IncidentRow, to: Status, at: Instant): IncidentRow {
    row.(status := to, closedAt := if IsTerminal(to) then Some(at) else row.closedAt)
  }

  function Refusal(row: IncidentRow, to: Status, at: Instant): Option<TransitionError> {
    if !IsLegal(row.status, to) then Some(IllegalTransition(row.status, to))
    else if IsTerminal(to) && at < row.openedAt then Some(ClosedBeforeOpened)
    else None
  }

  // ---- replay ----

  datatype Replayed = NotOpened | At(status: Status) | Broken

  /** What the audit rows alone say an incident's status is. */
  function Replay(audit: seq<AuditRow>, incident: nat): Replayed {
    if audit == [] then NotOpened
    else
      var before := Replay(audit[..|audit| - 1], incident);
      var last := audit[|audit| - 1];
      if last.incident != Some(incident) then before
      else match last.event
        case OpenedEvent(_) => if before == NotOpened then At(Detected) else Broken
        case TransitionedEvent(from, to, _) => if before == At(from) && IsLegal(from, to) then At(to) else Broken
        case OtherEvent(_) => before
  }

  function TransitionsOf(audit: seq<AuditRow>, incident: nat): nat {
    if audit == [] then 0
    else
      var last := audit[|audit| - 1];
      TransitionsOf(audit[..|audit| - 1], incident)
      + if last.incident == Some(incident) && last.event.TransitionedEvent? then 1 else 0
  }

  /** Every legal edge goes down. */
  function Rank(s: Status): nat {
    match s
    case Detected => 7
    case Triaged => 6
    case Investigating => 5
    case Analyzed => 4
    case Strategized => 3
    case AwaitingApproval => 2
    case Executing => 1
    case _ => 0
  }

  lemma LegalEdgesGoDown(from: Status, to: Status)
    requires IsLegal(from, to)
    ensures Rank(to) < Rank(from)
    ensures !IsTerminal(from)
  {
  }

  /** An audit trail that replays at all records at most seven transitions, and fewer the further the incident is from
      an end it could still reach. */
  lemma {:induction false} TransitionsAreBounded(audit: seq<AuditRow>, incident: nat)
    requires Replay(audit, incident) != Broken
    ensures Replay(audit, incident) == NotOpened ==> TransitionsOf(audit, incident) == 0
    ensures Replay(audit, incident).At? ==> TransitionsOf(audit, incident) + Rank(Replay(audit, incident).status) <= 7
  {
    if audit != [] {
      var front, last := audit[..|audit| - 1], audit[|audit| - 1];
      TransitionsAreBounded(front, incident);
      if last.incident == Some(incident) && last.event.TransitionedEvent? {
        LegalEdgesGoDown(last.event.from, last.event.to);
      }
    }
  }

  // ---- the store ----

  class IncidentStore {
    var incidents: seq<IncidentRow>
    var audit: seq<AuditRow>
    var nextRef: nat               // the sequence: not given back when a transaction rolls back

    constructor ()
      ensures Valid() && incidents == [] && audit == [] && nextRef == 1
    {
      incidents, audit, nextRef := [], [], 1;
    }

    /** Each incident is where its audit rows say it is, has a closing instant exactly when it is in a terminal state,
        and shares neither its reference nor its signal with another. */
    ghost predicate Valid()
      reads this
    {
      RowsReplay(incidents, audit) && RowsDistinct(incidents, nextRef)
    }

    /** Moves an incident along a legal edge, with an audit row, or changes nothing. */
    method TransitionIncident(i: nat, to: Status, actor: string, reason: string, at: Instant)
      returns (refused: Option<TransitionError>)
      requires Valid() && i < |incidents|
      modifies `incidents, `audit
      ensures Valid()
      ensures refused == Refusal(old(incidents)[i], to, at)
      ensures refused.Some? ==> incidents == old(incidents) && audit == old(audit)
      ensures refused.None? ==>
        && incidents == old(incidents)[i := Moved(old(incidents)[i], to, at)]
        && audit == old(audit) + [AuditRow(Some(i), TransitionedEvent(old(incidents)[i].status, to, reason), actor, at)]
    {
      var row := incidents[i];
      if !IsLegal(row.status, to) {
        return Some(IllegalTransition(row.status, to));
      }
      if IsTerminal(to) && at < row.openedAt {
        return Some(ClosedBeforeOpened);
      }
      TransitionKeepsRows(incidents, audit, nextRef, i, to, actor, reason, at);
      incidents := incidents[i := Moved(row, to, at)];
      audit := audit + [AuditRow(Some(i), TransitionedEvent(row.status, to, reason), actor, at)];
      refused := None;
    }

    /** Appends a row about something other than the lifecycle. */
    method RecordAudit(incident: Option<nat>, name: string, actor: string, at: Instant)
      requires Valid()
      modifies `audit
      ensures Valid() && audit == old(audit) + [AuditRow(incident, OtherEvent(name), actor, at)]
    {
      audit := audit + [AuditRow(incident, OtherEvent(name), actor, at)];
      assert audit[..|audit| - 1] == old(audit);
    }

    /** Takes the next reference, creates the incident at DETECTED and triages it through the state machine. */
    method Open(signal: string, severity: string, account: nat, opportunity: nat, actor: string, at: Instant)
      requires Valid() && forall i :: 0 <= i < |incidents| ==> incidents[i].signal != signal
      modifies this
      ensures Valid() && nextRef == old(nextRef) + 1
      ensures incidents == old(incidents) + [TriagedRow(old(nextRef), signal, severity, account, opportunity, at)]
      ensures audit == old(audit) + OpeningRows(|old(incidents)|, signal, actor, at)
    {
      ghost var rows, trail := incidents, audit;
      var row := IncidentRow(nextRef, signal, severity, account, opportunity, Detected, at, None);
      OpeningKeepsRows(incidents, audit, nextRef, row, actor, at);
      nextRef := nextRef + 1;
      incidents := incidents + [row];
      audit := audit + [AuditRow(Some(|incidents| - 1), OpenedEvent(signal), actor, at)];
      var refused := TransitionIncident(|incidents| - 1, Triaged, actor, TRIAGE_REASON, at);
      assert refused.None?;
      assert incidents == rows + [Moved(row, Triaged, at)];
    }
  }

  const TRIAGE_REASON := "severity assigned from weighted pipeline value"

  function TriagedRow(ref: nat, signal: string, severity: string, account: nat, opportunity: nat, at: Instant): IncidentRow {
    IncidentRow(ref, signal, severity, account, opportunity, Triaged, at, None)
  }

  function OpeningRows(i: nat, signal: string, actor: string, at: Instant): seq<AuditRow> {
    [AuditRow(Some(i), OpenedEvent(signal), actor, at), AuditRow(Some(i), TransitionedEvent(Detected, Triaged, TRIAGE_REASON), actor, at)]
  }

  ghost predicate RowsReplay(incidents: seq<IncidentRow>, audit: seq<AuditRow>) {
    && (forall i :: 0 <= i < |incidents| ==> RowReplays(incidents[i], audit, i))
    && (forall i: nat :: i >= |incidents| ==> Replay(audit, i) == NotOpened)
  }

  ghost predicate RowReplays(row: IncidentRow, audit: seq<AuditRow>, i: nat) {
    && Replay(audit, i) == At(row.status)
    && (row.closedAt.Some? <==> IsTerminal(row.status))
    && (row.closedAt.Some? ==> row.openedAt <= row.closedAt.value)
  }

  ghost predicate RowsDistinct(incidents: seq<IncidentRow>, nextRef: nat) {
    && (forall i :: 0 <= i < |incidents| ==> incidents[i].ref < nextRef)
    && (forall i, j :: 0 <= i < j < |incidents| ==> incidents[i].ref != incidents[j].ref && incidents[i].signal != incidents[j].signal)
  }

  lemma TransitionKeepsRows(incidents: seq<IncidentRow>, audit: seq<AuditRow>, nextRef: nat, i: nat, to: Status,
                            actor: string, reason: string, at: Instant)
    requires i < |incidents| && RowsReplay(incidents, audit) && RowsDistinct(incidents, nextRef)
    requires Refusal(incidents[i], to, at).None?
    ensures
      var after := incidents[i := Moved(incidents[i], to, at)];
      && RowsReplay(after, audit + [AuditRow(Some(i), TransitionedEvent(incidents[i].status, to, reason), actor, at)])
      && RowsDistinct(after, nextRef)
  {
    var last := AuditRow(Some(i), TransitionedEvent(incidents[i].status, to, reason), actor, at);
    var z := audit + [last];
    assert z[..|z| - 1] == audit;
    assert RowReplays(incidents[i], audit, i);
    assert !IsTerminal(incidents[i].status);
    var after := incidents[i := Moved(incidents[i], to, at)];
    forall j | 0 <= j < |after| ensures RowReplays(after[j], z, j) {
      assert RowReplays(incidents[j], audit, j);
    }
  }

  lemma OpeningKeepsRows(incidents: seq<IncidentRow>, audit: seq<AuditRow>, nextRef: nat, row: IncidentRow, actor: string, at: Instant)
    requires RowsReplay(incidents, audit) && RowsDistinct(incidents, nextRef)
    requires row.ref == nextRef && row.status == Detected && row.closedAt.None?
    requires forall i :: 0 <= i < |incidents| ==> incidents[i].signal != row.signal
    ensures RowsReplay(incidents + [row], audit + [AuditRow(Some(|incidents|), OpenedEvent(row.signal), actor, at)])
    ensures RowsDistinct(incidents + [row], nextRef + 1)
  {
    var z := audit + [AuditRow(Some(|incidents|), OpenedEvent(row.signal), actor, at)];
    assert z[..|z| - 1] == audit;
    forall j | 0 <= j < |incidents| + 1 ensures RowReplays((incidents + [row])[j], z, j) {
      if j < |incidents| {
        assert RowReplays(incidents[j], audit, j);
      }
    }
  }

  // ---- consequences for any valid store ----

  /** No incident is ever moved more than seven times, and one in a terminal state never again. */
  lemma LifecycleIsBounded(incidents: seq<IncidentRow>, audit: seq<AuditRow>, i: nat, to: Status, at: Instant)
    requires i < |incidents| && RowsReplay(incidents, audit)
    ensures TransitionsOf(audit, i) + Rank(incidents[i].status) <= 7
    ensures incidents[i].closedAt.Some? ==> Refusal(incidents[i], to, at) == Some(IllegalTransition(incidents[i].status, to))
  {
    assert RowReplays(incidents[i], audit, i);
    TransitionsAreBounded(audit, i);
    if IsLegal(incidents[i].status, to) {
      LegalEdgesGoDown(incidents[i].status, to);
    }
  }

  lemma OneMore(audit: seq<AuditRow>, from: Status, to: Status) returns (z: seq<AuditRow>)
    requires Replay(audit, 0) == At(from) && IsLegal(from, to)
    ensures Replay(z, 0) == At(to) && TransitionsOf(z, 0) == TransitionsOf(audit, 0) + 1
  {
    z := audit + [AuditRow(Some(0), TransitionedEvent(from, to, ""), "", 0)];
    assert z[..|z| - 1] == audit;
  }

  /** The bound is met by the path through approval. */
  lemma SevenIsReached() returns (audit: seq<AuditRow>)
    ensures Replay(audit, 0) == At(Completed) && TransitionsOf(audit, 0) == 7
  {
    audit := [AuditRow(Some(0), OpenedEvent(""), "", 0)];
    assert audit[..0] == [];
    audit := OneMore(audit, Detected, Triaged);
    audit := OneMore(audit, Triaged, Investigating);
    audit := OneMore(audit, Investigating, Analyzed);
    audit := OneMore(audit, Analyzed, Strategized);
    audit := OneMore(audit, Strategized, AwaitingApproval);
    audit := OneMore(audit, AwaitingApproval, Status.Executing);
    audit := OneMore(audit, Status.Executing, Completed);
  }
}
