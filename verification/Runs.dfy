/** Investigating and resuming: two state machines, the run's and its incident's, kept in step. */
module Runs {
  import opened Vocabulary
  import opened Incidents
  import ExecutionPhase

  datatype RunStatus = Running | Interrupted | RunCompleted | RunFailed

  /** `incident` is a row number of the incidents table. */
  datatype RunRow = RunRow(incident: nat, status: RunStatus, node: string, startedAt: Instant, endedAt: Option<Instant>)

  datatype World = World(incidents: seq<IncidentRow>, runs: seq<RunRow>)

  datatype RunError =
    | NoSuchIncident
    | MalformedReference               // a reference is three digits wherever a stored incident is validated
    | NotInvestigable(status: Status)
    | NoRun
    | Abandoned                        // an exception: missing rows, a budget refusal, a fabricated citation
    | EndedBeforeStarted               // the table's own constraint
    | Refused(error: TransitionError)

  const EXIT_NODE := "__end__"
  const EXECUTION_NODE := "execute_actions"
  const INVESTIGATOR := "agent:investigation_graph"
  const EXECUTOR := "agent:execution"
  const HIGHEST_REFERENCE := 999

  function Find(incidents: seq<IncidentRow>, ref: nat): (r: Option<nat>)
    ensures r.Some? ==> r.value < |incidents| && incidents[r.value].ref == ref
    ensures r.None? ==> forall i :: 0 <= i < |incidents| ==> incidents[i].ref != ref
  {
    if incidents == [] then None
    else if incidents[|incidents| - 1].ref == ref then Some(|incidents| - 1)
    else Find(incidents[..|incidents| - 1], ref)
  }

  /** The incident's most recently started run. */
  function LatestRun(runs: seq<RunRow>, incident: nat): (r: Option<nat>)
    ensures r.Some? ==> r.value < |runs| && runs[r.value].incident == incident
    ensures r.None? <==> forall k :: 0 <= k < |runs| ==> runs[k].incident != incident
  {
    if runs == [] then None
    else
      var last := |runs| - 1;
      var before := LatestRun(runs[..last], incident);
      if runs[last].incident == incident && (before.None? || runs[before.value].startedAt < runs[last].startedAt)
      then Some(last) else before
  }

  /** No run of the incident started later than its latest one, and none as late stands before it. */
  lemma {:induction false} LatestRunIsLatest(runs: seq<RunRow>, incident: nat)
    requires LatestRun(runs, incident).Some?
    ensures
      var k := LatestRun(runs, incident).value;
      forall j :: 0 <= j < |runs| && runs[j].incident == incident ==>
        runs[j].startedAt <= runs[k].startedAt && (runs[j].startedAt == runs[k].startedAt ==> k <= j)
  {
    var front := runs[..|runs| - 1];
    if LatestRun(front, incident).Some? {
      LatestRunIsLatest(front, incident);
    }
  }

  // ---- what each operation leaves behind ----

  /** Legal edges taken one after another. */
  function Walk(row: IncidentRow, path: seq<Status>, at: Instant): Result<IncidentRow, TransitionError>
    decreases |path|
  {
    if path == [] then Ok(row)
    else if Refusal(row, path[0], at).Some? then Err(Refusal(row, path[0], at).value)
    else Walk(Moved(row, path[0], at), path[1..], at)
  }

  lemma WalkStep(row: IncidentRow, to: Status, rest: seq<Status>, at: Instant)
    ensures Walk(row, [to] + rest, at)
            == if Refusal(row, to, at).Some? then Err(Refusal(row, to, at).value) else Walk(Moved(row, to, at), rest, at)
  {
    assert ([to] + rest)[1..] == rest;
  }

  function InvestigationPath(complete: bool): seq<Status> {
    [Investigating, Analyzed, Strategized] + Ending(complete)
  }

  function Ending(complete: bool): seq<Status> {
    if complete then [Status.Executing, Completed] else [AwaitingApproval]
  }

  function NewRun(i: nat, complete: bool, at: Instant): RunRow {
    if complete then RunRow(i, RunCompleted, EXIT_NODE, at, Some(at)) else RunRow(i, Interrupted, EXECUTION_NODE, at, None)
  }

  /** `phase` is what the execution phase reported; None stands for an exception anywhere before it returned. */
  function Investigate(w: World, ref: nat, at: Instant, phase: Option<ExecutionPhase.Phase>): Result<World, RunError> {
    var found := Find(w.incidents, ref);
    if found.None? then Err(NoSuchIncident)
    else
      var i := found.value;
      if ref > HIGHEST_REFERENCE then Err(MalformedReference)
      else if w.incidents[i].status != Triaged then Err(NotInvestigable(w.incidents[i].status))
      else if phase.None? then Err(Abandoned)
      else
        var complete := ExecutionPhase.IsComplete(phase.value);
        var walked := Walk(w.incidents[i], InvestigationPath(complete), at);
        if walked.Err? then Err(Refused(walked.error))
        else Ok(World(w.incidents[i := walked.value], w.runs + [NewRun(i, complete, at)]))
  }

  function Finished(run: RunRow, at: Instant): RunRow {
    run.(status := RunCompleted, node := EXIT_NODE, endedAt := Some(at))
  }

  function Resume(w: World, ref: nat, at: Instant, phase: Option<ExecutionPhase.Phase>): Result<World, RunError> {
    var found := Find(w.incidents, ref);
    if found.None? then Err(NoSuchIncident)
    else
      var i := found.value;
      var run := LatestRun(w.runs, i);
      if run.None? then Err(NoRun)
      else if phase.None? then Err(Abandoned)
      else if !ExecutionPhase.IsComplete(phase.value) || w.runs[run.value].status == RunCompleted then Ok(w)
      else if at < w.runs[run.value].startedAt then Err(EndedBeforeStarted)
      else
        var walked := Walk(w.incidents[i], [Status.Executing, Completed], at);
        if walked.Err? then Err(Refused(walked.error))
        else Ok(World(w.incidents[i := walked.value], w.runs[run.value := Finished(w.runs[run.value], at)]))
  }

  lemma InvestigationUnfolds(row: IncidentRow, complete: bool, at: Instant)
    requires row.status == Triaged
    ensures Walk(row, InvestigationPath(complete), at)
            == Walk(Moved(row, Investigating, at), [Analyzed] + ([Strategized] + Ending(complete)), at)
  {
    WalkStep(row, Investigating, [Analyzed] + ([Strategized] + Ending(complete)), at);
    assert InvestigationPath(complete) == [Investigating] + ([Analyzed] + ([Strategized] + Ending(complete)));
  }

  // ---- the audit rows of a walk ----

  /** One hop: the investigation makes the first two, execution the rest. */
  function Hop(i: nat, from: Status, to: Status, reason: string, at: Instant): AuditRow {
    AuditRow(Some(i), TransitionedEvent(from, to, reason),
             if to in {Investigating, Analyzed} then "agent:investigation_graph" else "agent:execution", at)
  }

  function FinishRows(i: nat, from: Status, reason: string, at: Instant): seq<AuditRow> {
    [Hop(i, from, Status.Executing, reason, at), Hop(i, Status.Executing, Completed, "execution finished", at)]
  }

  function OutcomeRows(i: nat, complete: bool, at: Instant): seq<AuditRow> {
    [Hop(i, Analyzed, Strategized, "interventions ranked and policy decisions recorded", at)]
    + if complete then FinishRows(i, Strategized, "action(s) authorised", at)
      else [Hop(i, Strategized, AwaitingApproval, "action(s) require human approval", at)]
  }

  function InvestigationRows(i: nat, complete: bool, at: Instant): seq<AuditRow> {
    [Hop(i, Triaged, Investigating, "workflow run started", at)]
    + ([Hop(i, Investigating, Analyzed, "hypotheses and deterministic impact complete", at)] + OutcomeRows(i, complete, at))
  }

  lemma InvestigationLeaves(audit: seq<AuditRow>, runs: seq<RunRow>, i: nat, complete: bool, at: Instant)
    ensures audit + [Hop(i, Triaged, Investigating, "workflow run started", at)]
            + ([Hop(i, Investigating, Analyzed, "hypotheses and deterministic impact complete", at)] + OutcomeRows(i, complete, at))
            == audit + InvestigationRows(i, complete, at)
    ensures (runs + [RunRow(i, Running, "", at, None)])[|runs| := NewRun(i, complete, at)] == runs + [NewRun(i, complete, at)]
  {
  }

  // ---- the operations themselves ----

  class Runner {
    const store: IncidentStore
    var runs: seq<RunRow>

    constructor (store: IncidentStore)
      ensures this.store == store && runs == []
    {
      this.store, runs := store, [];
    }

    function Contents(): World
      reads this, store
    {
      World(store.incidents, runs)
    }

    /** EXECUTING and then COMPLETED, each with its own audit row; stops at the first refusal. */
    method FinishIncident(i: nat, reason: string, at: Instant) returns (refused: Option<TransitionError>)
      requires store.Valid() && i < |store.incidents|
      modifies store`incidents, store`audit
      ensures store.Valid()
      ensures
        match Walk(old(store.incidents)[i], [Status.Executing, Completed], at)
        case Ok(row) => refused.None? && store.incidents == old(store.incidents)[i := row]
                        && store.audit == old(store.audit) + FinishRows(i, old(store.incidents)[i].status, reason, at)
        case Err(e) => refused == Some(e)
    {
      ghost var row := store.incidents[i];
      assert [Status.Executing, Completed] == [Status.Executing] + ([Completed] + []);
      WalkStep(row, Status.Executing, [Completed] + [], at);
      refused := store.TransitionIncident(i, Status.Executing, EXECUTOR, reason, at);
      if refused.Some? {
        return;
      }
      WalkStep(Moved(row, Status.Executing, at), Completed, [], at);
      refused := store.TransitionIncident(i, Completed, EXECUTOR, "execution finished", at);
    }

    method RunInvestigation(ref: nat, at: Instant, phase: Option<ExecutionPhase.Phase>) returns (r: Result<nat, RunError>)
      requires store.Valid()
      modifies this, store`incidents, store`audit
      ensures store.Valid()
      ensures
        match Investigate(old(Contents()), ref, at, phase)
        case Ok(w) => r == Ok(|w.runs| - 1) && Contents() == w
                      && store.audit == old(store.audit) + InvestigationRows(Find(old(store.incidents), ref).value,
                                                                             ExecutionPhase.IsComplete(phase.value), at)
        case Err(e) => r == Err(e) && Contents() == old(Contents()) && store.audit == old(store.audit)
    {
      var found := Find(store.incidents, ref);
      if found.None? {
        return Err(NoSuchIncident);
      }
      var i := found.value;
      if ref > HIGHEST_REFERENCE {
        return Err(MalformedReference);
      }
      if store.incidents[i].status != Triaged {
        return Err(NotInvestigable(store.incidents[i].status));
      }
      r := InvestigateIncident(i, at, phase);
    }

    /** The investigation of a triaged incident: it runs to its end, or everything it wrote is taken back. */
    method InvestigateIncident(i: nat, at: Instant, phase: Option<ExecutionPhase.Phase>) returns (r: Result<nat, RunError>)
      requires store.Valid() && i < |store.incidents| && store.incidents[i].status == Triaged
      modifies this`runs, store`incidents, store`audit
      ensures store.Valid()
      ensures r.Err? ==> store.incidents == old(store.incidents) && runs == old(runs) && store.audit == old(store.audit)
      ensures phase.None? ==> r == Err(Abandoned)
      ensures phase.Some? ==>
                var complete := ExecutionPhase.IsComplete(phase.value);
                match Walk(old(store.incidents)[i], InvestigationPath(complete), at)
                case Ok(row) =>
                  && r == Ok(|old(runs)|)
                  && store.incidents == old(store.incidents)[i := row] && runs == old(runs) + [NewRun(i, complete, at)]
                  && store.audit == old(store.audit) + InvestigationRows(i, complete, at)
                case Err(e) => r == Err(Refused(e))
    {
      var savedIncidents, savedAudit, savedRuns := store.incidents, store.audit, runs;
      StartInvestigation(i, at);
      if phase.None? {
        Rollback(savedIncidents, savedAudit, savedRuns);
        return Err(Abandoned);
      }
      var complete := ExecutionPhase.IsComplete(phase.value);
      InvestigationUnfolds(savedIncidents[i], complete, at);
      ghost var row := Moved(savedIncidents[i], Investigating, at);
      assert store.incidents[i] == row && runs[|runs| - 1] == RunRow(i, Running, "", at, None);
      var refused := ConcludeInvestigation(i, |runs| - 1, complete, at);
      if refused.Some? {
        Rollback(savedIncidents, savedAudit, savedRuns);
        return Err(Refused(refused.value));
      }
      InvestigationLeaves(savedAudit, savedRuns, i, complete, at);
      r := Ok(|runs| - 1);
    }

    method StartInvestigation(i: nat, at: Instant)
      requires store.Valid() && i < |store.incidents| && store.incidents[i].status == Triaged
      modifies this`runs, store`incidents, store`audit
      ensures store.Valid() && runs == old(runs) + [RunRow(i, Running, "", at, None)]
      ensures store.incidents == old(store.incidents)[i := Moved(old(store.incidents)[i], Investigating, at)]
      ensures store.audit == old(store.audit) + [Hop(i, Triaged, Investigating, "workflow run started", at)]
    {
      runs := runs + [RunRow(i, Running, "", at, None)];
      var refused := store.TransitionIncident(i, Investigating, INVESTIGATOR, "workflow run started", at);
    }

    method ConcludeInvestigation(i: nat, run: nat, complete: bool, at: Instant) returns (refused: Option<TransitionError>)
      requires store.Valid() && i < |store.incidents| && run < |runs|
      requires store.incidents[i].status == Investigating && runs[run] == RunRow(i, Running, "", at, None)
      modifies this`runs, store`incidents, store`audit
      ensures store.Valid()
      ensures
        match Walk(old(store.incidents)[i], [Analyzed] + ([Strategized] + Ending(complete)), at)
        case Ok(row) => refused.None? && store.incidents == old(store.incidents)[i := row]
                        && runs == old(runs)[run := NewRun(i, complete, at)]
                        && store.audit == old(store.audit)
                             + ([Hop(i, Investigating, Analyzed, "hypotheses and deterministic impact complete", at)] + OutcomeRows(i, complete, at))
        case Err(e) => refused == Some(e)
    {
      WalkStep(store.incidents[i], Analyzed, [Strategized] + Ending(complete), at);
      ghost var trail, hop := store.audit, Hop(i, Investigating, Analyzed, "hypotheses and deterministic impact complete", at);
      refused := store.TransitionIncident(i, Analyzed, INVESTIGATOR, "hypotheses and deterministic impact complete", at);
      assert store.audit == trail + [hop] && store.incidents[i].status == Analyzed;
      refused := RecordExecutionOutcome(i, run, complete, at);
      assert trail + [hop] + OutcomeRows(i, complete, at) == trail + ([hop] + OutcomeRows(i, complete, at));
    }

    method RecordExecutionOutcome(i: nat, run: nat, complete: bool, at: Instant) returns (refused: Option<TransitionError>)
      requires store.Valid() && i < |store.incidents| && run < |runs|
      requires store.incidents[i].status == Analyzed && runs[run] == RunRow(i, Running, "", at, None)
      modifies this`runs, store`incidents, store`audit
      ensures store.Valid()
      ensures
        match Walk(old(store.incidents)[i], [Strategized] + Ending(complete), at)
        case Ok(row) => refused.None? && store.incidents == old(store.incidents)[i := row]
                        && runs == old(runs)[run := NewRun(i, complete, at)]
                        && store.audit == old(store.audit) + OutcomeRows(i, complete, at)
        case Err(e) => refused == Some(e)
    {
      WalkStep(store.incidents[i], Strategized, Ending(complete), at);
      refused := store.TransitionIncident(i, Strategized, EXECUTOR, "interventions ranked and policy decisions recorded", at);
      if complete {
        runs := runs[run := Finished(runs[run], at)];
        refused := FinishIncident(i, "action(s) authorised", at);
      } else {
        runs := runs[run := runs[run].(status := Interrupted, node := EXECUTION_NODE)];
        WalkStep(store.incidents[i], AwaitingApproval, [], at);
        assert Ending(complete) == [AwaitingApproval] + [];
        refused := store.TransitionIncident(i, AwaitingApproval, EXECUTOR, "action(s) require human approval", at);
      }
    }

    method ResumeInvestigation(ref: nat, at: Instant, phase: Option<ExecutionPhase.Phase>) returns (failed: Option<RunError>)
      requires store.Valid()
      modifies this, store`incidents, store`audit
      ensures store.Valid()
      ensures
        match Resume(old(Contents()), ref, at, phase)
        case Ok(w) => failed.None? && Contents() == w
                      && (w == old(Contents()) ==> store.audit == old(store.audit))
                      && (w != old(Contents()) ==>
                            store.audit == old(store.audit)
                              + FinishRows(Find(old(store.incidents), ref).value,
                                           old(store.incidents)[Find(old(store.incidents), ref).value].status,
                                           "approval granted; remaining actions authorised", at))
        case Err(e) => failed == Some(e) && Contents() == old(Contents()) && store.audit == old(store.audit)
    {
      var found := Find(store.incidents, ref);
      if found.None? {
        return Some(NoSuchIncident);
      }
      var latest := LatestRun(runs, found.value);
      if latest.None? {
        return Some(NoRun);
      }
      if phase.None? {
        return Some(Abandoned);
      }
      var run := latest.value;
      if !ExecutionPhase.IsComplete(phase.value) || runs[run].status == RunCompleted {
        return None;
      }
      if at < runs[run].startedAt {
        return Some(EndedBeforeStarted);
      }
      var savedIncidents, savedAudit, savedRuns := store.incidents, store.audit, runs;
      runs := runs[run := Finished(runs[run], at)];
      var refused := FinishIncident(found.value, "approval granted; remaining actions authorised", at);
      if refused.Some? {
        Rollback(savedIncidents, savedAudit, savedRuns);
        return Some(Refused(refused.value));
      }
      failed := None;
    }

    method Rollback(incidents: seq<IncidentRow>, audit: seq<AuditRow>, runs: seq<RunRow>)
      requires RowsReplay(incidents, audit) && RowsDistinct(incidents, store.nextRef)
      modifies this`runs, store`incidents, store`audit
      ensures store.Valid() && store.incidents == incidents && store.audit == audit && this.runs == runs
    {
      this.runs := runs;
      store.incidents, store.audit := incidents, audit;
    }
  }

  // ---- the two machines stay in step ----

  datatype Step =
    | OpenStep(row: IncidentRow)
    | InvestigateStep(ref: nat, at: Instant, phase: Option<ExecutionPhase.Phase>)
    | ResumeStep(ref: nat, at: Instant, phase: Option<ExecutionPhase.Phase>)

  /** A step that fails leaves everything as it was. Decisions on approvals change neither table. */
  function Next(w: World, step: Step): World {
    match step
    case OpenStep(row) => if row.status == Triaged then w.(incidents := w.incidents + [row]) else w
    case InvestigateStep(ref, at, phase) => var r := Investigate(w, ref, at, phase); if r.Ok? then r.value else w
    case ResumeStep(ref, at, phase) => var r := Resume(w, ref, at, phase); if r.Ok? then r.value else w
  }

  function Steps(w: World, steps: seq<Step>): World {
    if steps == [] then w else Next(Steps(w, steps[..|steps| - 1]), steps[|steps| - 1])
  }

  predicate PairInStep(incident: IncidentRow, run: RunRow) {
    && (run.status == Interrupted || run.status == RunCompleted)
    && (run.status == Interrupted <==> incident.status == AwaitingApproval)
    && (run.status == RunCompleted <==> incident.status == Completed)
    && (run.endedAt.Some? <==> run.status == RunCompleted)
    && run.node == (if run.status == RunCompleted then "__end__" else "execute_actions")
    && (run.endedAt.Some? ==> run.startedAt <= run.endedAt.value)
  }

  predicate Unstarted(incident: IncidentRow, runs: seq<RunRow>, i: nat) {
    incident.status == Triaged && forall k :: 0 <= k < |runs| ==> runs[k].incident != i
  }

  ghost predicate PairsInStep(incidents: seq<IncidentRow>, runs: seq<RunRow>) {
    forall k :: 0 <= k < |runs| ==> runs[k].incident < |incidents| && PairInStep(incidents[runs[k].incident], runs[k])
  }

  ghost predicate OneRunEach(runs: seq<RunRow>) {
    forall j, k :: 0 <= j < k < |runs| ==> runs[j].incident != runs[k].incident
  }

  ghost predicate RestUnstarted(incidents: seq<IncidentRow>, runs: seq<RunRow>) {
    forall i :: 0 <= i < |incidents| ==> Unstarted(incidents[i], runs, i) || LatestRun(runs, i).Some?
  }

  ghost predicate InStep(w: World) {
    PairsInStep(w.incidents, w.runs) && OneRunEach(w.runs) && RestUnstarted(w.incidents, w.runs)
  }

  /** An investigation that succeeds ends where its execution phase says, and takes one of two paths to get there. */
  lemma InvestigationEnds(row: IncidentRow, complete: bool, at: Instant)
    requires row.status == Triaged
    ensures
      var r := Walk(row, InvestigationPath(complete), at);
      && (r.Ok? <==> complete ==> row.openedAt <= at)
      && (r.Ok? ==> r.value.status == if complete then Completed else AwaitingApproval)
      && (r.Err? ==> r.error == ClosedBeforeOpened)
  {
    var a := Moved(row, Investigating, at);
    var b := Moved(a, Analyzed, at);
    var c := Moved(b, Strategized, at);
    assert InvestigationPath(complete) == [Investigating] + ([Analyzed] + ([Strategized] + Ending(complete)));
    WalkStep(row, Investigating, [Analyzed] + ([Strategized] + Ending(complete)), at);
    WalkStep(a, Analyzed, [Strategized] + Ending(complete), at);
    WalkStep(b, Strategized, Ending(complete), at);
    if complete {
      assert Ending(complete) == [Status.Executing] + ([Completed] + []);
      WalkStep(c, Status.Executing, [Completed] + [], at);
      WalkStep(Moved(c, Status.Executing, at), Completed, [], at);
    } else {
      assert Ending(complete) == [AwaitingApproval] + [];
      WalkStep(c, AwaitingApproval, [], at);
    }
  }

  lemma ResumeEnds(row: IncidentRow, at: Instant)
    requires row.status == AwaitingApproval
    ensures
      var r := Walk(row, [Status.Executing, Completed], at);
      && (r.Ok? <==> row.openedAt <= at)
      && (r.Ok? ==> r.value.status == Completed)
      && (r.Err? ==> r.error == ClosedBeforeOpened)
  {
    assert [Status.Executing, Completed] == [Status.Executing] + ([Completed] + []);
    WalkStep(row, Status.Executing, [Completed] + [], at);
    WalkStep(Moved(row, Status.Executing, at), Completed, [], at);
  }

  lemma StartedStatuses(w: World, i: nat)
    requires InStep(w) && i < |w.incidents| && LatestRun(w.runs, i).Some?
    ensures PairInStep(w.incidents[i], w.runs[LatestRun(w.runs, i).value])
    ensures w.incidents[i].status in {AwaitingApproval, Completed}
  {
    assert w.runs[LatestRun(w.runs, i).value].incident == i;
  }

  /** What can go wrong with a resume, exactly, and that it is never an illegal transition. */
  lemma ResumeIsNeverIllegal(w: World, ref: nat, at: Instant, phase: Option<ExecutionPhase.Phase>)
    requires InStep(w)
    ensures
      var r := Resume(w, ref, at, phase);
      && !(r.Err? && r.error.Refused? && r.error.error.IllegalTransition?)
      && (Find(w.incidents, ref).Some? && w.incidents[Find(w.incidents, ref).value].status == Triaged ==> r == Err(NoRun))
      && (Find(w.incidents, ref).Some? && w.incidents[Find(w.incidents, ref).value].status == Completed && phase.Some? ==> r == Ok(w))
  {
    var found := Find(w.incidents, ref);
    if found.Some? && LatestRun(w.runs, found.value).Some? {
      StartedStatuses(w, found.value);
      if w.incidents[found.value].status == AwaitingApproval {
        ResumeEnds(w.incidents[found.value], at);
      }
    }
  }

  /** An investigation succeeds exactly when the incident exists under a reference of at most three digits, is TRIAGED,
      nothing raised, and a complete phase does not close it before it was opened. */
  lemma InvestigationSucceedsIff(w: World, ref: nat, at: Instant, phase: Option<ExecutionPhase.Phase>)
    ensures
      var found := Find(w.incidents, ref);
      Investigate(w, ref, at, phase).Ok? <==>
        && found.Some? && ref <= 999 && w.incidents[found.value].status == Triaged
        && phase.Some? && (ExecutionPhase.IsComplete(phase.value) ==> w.incidents[found.value].openedAt <= at)
  {
    var found := Find(w.incidents, ref);
    if found.Some? && w.incidents[found.value].status == Triaged && phase.Some? {
      InvestigationEnds(w.incidents[found.value], ExecutionPhase.IsComplete(phase.value), at);
    }
  }

  lemma InvestigateKeepsStep(w: World, ref: nat, at: Instant, phase: Option<ExecutionPhase.Phase>)
    requires InStep(w) && Investigate(w, ref, at, phase).Ok?
    ensures InStep(Investigate(w, ref, at, phase).value)
  {
    var i, complete := Find(w.incidents, ref).value, ExecutionPhase.IsComplete(phase.value);
    InvestigationEnds(w.incidents[i], complete, at);
    assert Unstarted(w.incidents[i], w.runs, i) by {
      if LatestRun(w.runs, i).Some? {
        StartedStatuses(w, i);
      }
    }
    AddedKeepsStep(w, i, Walk(w.incidents[i], InvestigationPath(complete), at).value, NewRun(i, complete, at));
  }

  lemma AddedKeepsStep(w: World, i: nat, row: IncidentRow, run: RunRow)
    requires InStep(w) && i < |w.incidents| && Unstarted(w.incidents[i], w.runs, i)
    requires run.incident == i && PairInStep(row, run)
    ensures InStep(World(w.incidents[i := row], w.runs + [run]))
  {
    var incidents, runs := w.incidents[i := row], w.runs + [run];
    assert runs[|w.runs|] == run;
    forall j | 0 <= j < |incidents| ensures Unstarted(incidents[j], runs, j) || LatestRun(runs, j).Some? {
      if j != i && LatestRun(w.runs, j).Some? {
        assert runs[LatestRun(w.runs, j).value].incident == j;
      }
    }
    assert PairsInStep(incidents, runs) by {
      assert forall k :: 0 <= k < |w.runs| ==> runs[k] == w.runs[k];
    }
  }

  lemma ReplacedPairs(incidents: seq<IncidentRow>, runs: seq<RunRow>, i: nat, row: IncidentRow, k: nat, run: RunRow)
    requires PairsInStep(incidents, runs) && OneRunEach(runs)
    requires i < |incidents| && k < |runs| && runs[k].incident == i && run.incident == i && PairInStep(row, run)
    ensures PairsInStep(incidents[i := row], runs[k := run])
  {
    var z := runs[k := run];
    forall j | 0 <= j < |z| ensures z[j].incident < |incidents| && PairInStep(incidents[i := row][z[j].incident], z[j]) {
      if j != k {
        assert runs[j].incident != i;
      }
    }
  }

  lemma ReplacedRest(incidents: seq<IncidentRow>, runs: seq<RunRow>, i: nat, row: IncidentRow, k: nat, run: RunRow)
    requires RestUnstarted(incidents, runs)
    requires i < |incidents| && k < |runs| && runs[k].incident == i && run.incident == i
    ensures RestUnstarted(incidents[i := row], runs[k := run])
  {
    var z := runs[k := run];
    assert z[k].incident == i;
    forall j | 0 <= j < |incidents| ensures Unstarted(incidents[i := row][j], z, j) || LatestRun(z, j).Some? {
      if LatestRun(runs, j).Some? {
        assert z[LatestRun(runs, j).value].incident == j;
      }
    }
  }

  lemma ReplacedKeepsStep(w: World, i: nat, row: IncidentRow, k: nat, run: RunRow)
    requires InStep(w) && i < |w.incidents| && k < |w.runs| && w.runs[k].incident == i
    requires run.incident == i && PairInStep(row, run)
    ensures InStep(World(w.incidents[i := row], w.runs[k := run]))
  {
    ReplacedPairs(w.incidents, w.runs, i, row, k, run);
    ReplacedRest(w.incidents, w.runs, i, row, k, run);
  }

  lemma ResumeKeepsStep(w: World, ref: nat, at: Instant, phase: Option<ExecutionPhase.Phase>)
    requires InStep(w) && Resume(w, ref, at, phase).Ok?
    ensures InStep(Resume(w, ref, at, phase).value)
  {
    var z := Resume(w, ref, at, phase).value;
    if z != w {
      var i := Find(w.incidents, ref).value;
      var k := LatestRun(w.runs, i).value;
      StartedStatuses(w, i);
      ResumeEnds(w.incidents[i], at);
      ReplacedKeepsStep(w, i, Walk(w.incidents[i], [Status.Executing, Completed], at).value, k, Finished(w.runs[k], at));
    }
  }

  lemma OpenKeepsStep(w: World, row: IncidentRow)
    requires InStep(w) && row.status == Triaged
    ensures InStep(w.(incidents := w.incidents + [row]))
  {
  }

  /** Over any sequence of openings, investigations and resumes, successful or not: a run is INTERRUPTED exactly when
      its incident is AWAITING_APPROVAL and COMPLETED exactly when its incident is COMPLETED, no incident has two runs,
      and an incident without one is TRIAGED. */
  lemma {:induction false} RunsStayInStep(steps: seq<Step>)
    ensures InStep(Steps(World([], []), steps))
  {
    if steps != [] {
      var w, step := Steps(World([], []), steps[..|steps| - 1]), steps[|steps| - 1];
      RunsStayInStep(steps[..|steps| - 1]);
      match step
      case OpenStep(row) => if row.status == Triaged { OpenKeepsStep(w, row); }
      case InvestigateStep(ref, at, phase) => if Investigate(w, ref, at, phase).Ok? { InvestigateKeepsStep(w, ref, at, phase); }
      case ResumeStep(ref, at, phase) => if Resume(w, ref, at, phase).Ok? { ResumeKeepsStep(w, ref, at, phase); }
    }
  }

  /** Whatever was decided, an incident at rest is TRIAGED, AWAITING_APPROVAL or COMPLETED: nothing ever takes the
      lifecycle's edges to DISMISSED, CLOSED_REJECTED, EXPIRED or FAILED. */
  lemma NoIncidentIsEverRejected(steps: seq<Step>, i: nat)
    requires i < |Steps(World([], []), steps).incidents|
    ensures Steps(World([], []), steps).incidents[i].status in {Triaged, AwaitingApproval, Completed}
  {
    RunsStayInStep(steps);
    var w := Steps(World([], []), steps);
    if LatestRun(w.runs, i).Some? {
      StartedStatuses(w, i);
    }
  }
}
