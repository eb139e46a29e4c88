/** Investigations and resumes side by side: each is one transaction that reads its rows first and writes them by id later,
    nothing is locked while it works, and no version is compared when it writes. */
module Sessions {
  import opened Vocabulary
  import opened Incidents
  import opened Runs
  import ExecutionPhase

  /** What an open transaction has read so far. */
  datatype Session =
    | Investigation(i: nat, seen: IncidentRow)
    | Resumption(i: nat, seen: IncidentRow)
    | RunRead(i: nat, seen: IncidentRow, k: nat, run: RunRow)

  datatype State = State(world: World, audit: seq<AuditRow>, sessions: map<nat, Session>)

  const START := State(World([], []), [], map[])

  datatype SessionStep =
    | OpenIncident(row: IncidentRow)
    | LookToInvestigate(session: nat, ref: nat)
    | LookToResume(session: nat, ref: nat)
    | ReadRun(session: nat)
    | Finish(session: nat, at: Instant, phase: Option<ExecutionPhase.Phase>)

  // ---- the steps ----

  function PathOf(o: Session, complete: bool): seq<Status> {
    if o.Investigation? then InvestigationPath(complete) else Ending(true)
  }

  /** The incident as the session itself will have left it; None when it raises, or has nothing to do. */
  function Landing(o: Session, at: Instant, phase: Option<ExecutionPhase.Phase>): Option<IncidentRow> {
    if phase.None? || o.Resumption? then None
    else
      var complete := ExecutionPhase.IsComplete(phase.value);
      if o.RunRead? && (!complete || o.run.status == RunCompleted || at < o.run.startedAt) then None
      else
        var walked := Walk(o.seen, PathOf(o, complete), at);
        if walked.Ok? then Some(walked.value) else None
  }

  /** An update names the columns that differ from what was read, whatever the row holds by now. */
  function WrittenOver(current: IncidentRow, seen: IncidentRow, row: IncidentRow): IncidentRow {
    current.(status := row.status, closedAt := if row.closedAt == seen.closedAt then current.closedAt else row.closedAt)
  }

  /** Actors and reasons are left blank: no replay reads them. */
  function Trail(i: nat, from: Status, path: seq<Status>, at: Instant): seq<AuditRow>
    decreases |path|
  {
    if path == [] then [] else [MoveRow(i, from, path[0], at)] + Trail(i, path[0], path[1..], at)
  }

  function MoveRow(i: nat, from: Status, to: Status, at: Instant): AuditRow {
    AuditRow(Some(i), TransitionedEvent(from, to, ""), "", at)
  }

  predicate Lands(s: State, step: SessionStep) {
    && step.Finish? && step.session in s.sessions
    && var o := s.sessions[step.session];
       && o.i < |s.world.incidents| && (o.RunRead? ==> o.k < |s.world.runs|)
       && Landing(o, step.at, step.phase).Some?
  }

  /** From its first write to an incident or a run until its commit, a transaction holds that row, so what it writes lands
      together. */
  function Landed(s: State, step: SessionStep): State
    requires Lands(s, step)
  {
    var o, w := s.sessions[step.session], s.world;
    var complete := ExecutionPhase.IsComplete(step.phase.value);
    var row := WrittenOver(w.incidents[o.i], o.seen, Landing(o, step.at, step.phase).value);
    var runs := if o.RunRead? then w.runs[o.k := Finished(w.runs[o.k], step.at)] else w.runs + [NewRun(o.i, complete, step.at)];
    State(World(w.incidents[o.i := row], runs), s.audit + Trail(o.i, o.seen.status, PathOf(o, complete), step.at),
          s.sessions - {step.session})
  }

  function Looked(s: State, session: nat, o: Session): State {
    s.(sessions := s.sessions[session := o])
  }

  /** References are unique, so an incident under a taken one is not inserted. */
  predicate Opens(s: State, step: SessionStep) {
    step.OpenIncident? && step.row.status == Triaged && Find(s.world.incidents, step.row.ref).None?
  }

  /** A step that is refused, or that finds nothing to do, changes no row. */
  function After(s: State, step: SessionStep): State {
    match step
    case OpenIncident(row) =>
      if !Opens(s, step) then s
      else State(World(s.world.incidents + [row], s.world.runs),
                 s.audit + OpeningRows(|s.world.incidents|, row.signal, "", row.openedAt), s.sessions)
    case LookToInvestigate(session, ref) =>
      var found := Find(s.world.incidents, ref);
      if session in s.sessions || found.None? || ref > HIGHEST_REFERENCE || s.world.incidents[found.value].status != Triaged then s
      else Looked(s, session, Investigation(found.value, s.world.incidents[found.value]))
    case LookToResume(session, ref) =>
      var found := Find(s.world.incidents, ref);
      if session in s.sessions || found.None? then s
      else Looked(s, session, Resumption(found.value, s.world.incidents[found.value]))
    case ReadRun(session) =>
      if session !in s.sessions || !s.sessions[session].Resumption? then s
      else
        var o := s.sessions[session];
        var k := LatestRun(s.world.runs, o.i);
        if k.None? then s.(sessions := s.sessions - {session})
        else Looked(s, session, RunRead(o.i, o.seen, k.value, s.world.runs[k.value]))
    case Finish(session, _, _) =>
      if Lands(s, step) then Landed(s, step) else s.(sessions := s.sessions - {session})
  }

  function Run(steps: seq<SessionStep>): State {
    if steps == [] then START else After(Run(steps[..|steps| - 1]), steps[|steps| - 1])
  }

  /** The incident is where the session that lands now once read it. */
  predicate FindsWhatItRead(s: State, step: SessionStep) {
    Lands(s, step) ==> s.world.incidents[s.sessions[step.session].i].status == s.sessions[step.session].seen.status
  }

  predicate Investigates(s: State, step: SessionStep) {
    Lands(s, step) && s.sessions[step.session].Investigation?
  }

  ghost predicate EachFindsWhatItRead(steps: seq<SessionStep>) {
    steps != [] ==>
      && EachFindsWhatItRead(steps[..|steps| - 1])
      && FindsWhatItRead(Run(steps[..|steps| - 1]), steps[|steps| - 1])
  }

  ghost predicate InvestigationsFindWhatTheyRead(steps: seq<SessionStep>) {
    steps != [] ==>
      && InvestigationsFindWhatTheyRead(steps[..|steps| - 1])
      && (Investigates(Run(steps[..|steps| - 1]), steps[|steps| - 1]) ==>
            FindsWhatItRead(Run(steps[..|steps| - 1]), steps[|steps| - 1]))
  }

  // ---- what always holds, whoever overlaps with whom ----

  const AT_REST: set<Status> := {Triaged, AwaitingApproval, Completed}

  ghost predicate SessionOk(s: State, session: nat) {
    session in s.sessions ==>
      var o := s.sessions[session];
      && o.i < |s.world.incidents| && o.seen.ref == s.world.incidents[o.i].ref && o.seen.status in AT_REST
      && (o.Investigation? ==> o.seen.status == Triaged && o.seen.ref <= HIGHEST_REFERENCE)
      && (o.RunRead? ==> o.k < |s.world.runs| && s.world.runs[o.k].incident == o.i
                         && s.world.runs[o.k].startedAt == o.run.startedAt)
  }

  ghost predicate IncidentOk(s: State, i: nat) {
    if i < |s.world.incidents|
    then && s.world.incidents[i].status in AT_REST
         && (s.world.incidents[i].status == Triaged <==> LatestRun(s.world.runs, i).None?)
         && Replay(s.audit, i) in {At(s.world.incidents[i].status), Broken}
    else Replay(s.audit, i) == NotOpened
  }

  ghost predicate Sound(s: State) {
    && (forall session :: SessionOk(s, session))
    && (forall i :: IncidentOk(s, i))
    && (forall k :: 0 <= k < |s.world.runs| ==> s.world.runs[k].incident < |s.world.incidents|)
  }

  /** What a landing leaves: an investigation ends completed or awaiting approval, a resume completed. */
  lemma LandingEnds(o: Session, at: Instant, phase: Option<ExecutionPhase.Phase>)
    requires Landing(o, at, phase).Some? && o.seen.status in AT_REST && (o.Investigation? ==> o.seen.status == Triaged)
    ensures
      var path := PathOf(o, ExecutionPhase.IsComplete(phase.value));
      var row := Landing(o, at, phase).value;
      && path != [] && path[|path| - 1] == row.status && LegalPath(o.seen.status, path)
      && row.status in {AwaitingApproval, Completed} && row == o.seen.(status := row.status, closedAt := row.closedAt)
      && Rank(row.status) < Rank(o.seen.status)
      && (o.RunRead? ==> row.status == Completed)
  {
    var complete := ExecutionPhase.IsComplete(phase.value);
    WalkIsLegal(o.seen, PathOf(o, complete), at);
    if o.Investigation? {
      InvestigationEnds(o.seen, complete, at);
    } else {
      ResumeEnds(o.seen, at);
    }
  }

  predicate LegalPath(from: Status, path: seq<Status>)
    decreases |path|
  {
    path == [] || (IsLegal(from, path[0]) && LegalPath(path[0], path[1..]))
  }

  lemma {:induction false} WalkIsLegal(row: IncidentRow, path: seq<Status>, at: Instant)
    requires Walk(row, path, at).Ok?
    ensures LegalPath(row.status, path)
    ensures
      var z := Walk(row, path, at).value;
      && z == row.(status := z.status, closedAt := z.closedAt)
      && (path != [] ==> z.status == path[|path| - 1]) && Rank(z.status) <= Rank(row.status)
      && (path != [] ==> Rank(z.status) < Rank(row.status))
    decreases |path|
  {
    if path != [] {
      LegalEdgesGoDown(row.status, path[0]);
      WalkIsLegal(Moved(row, path[0], at), path[1..], at);
    }
  }

  lemma ReplayOverMove(audit: seq<AuditRow>, i: nat, from: Status, to: Status, at: Instant, j: nat)
    ensures Replay(audit + [MoveRow(i, from, to, at)], j)
            == if i != j then Replay(audit, j) else if Replay(audit, i) == At(from) && IsLegal(from, to) then At(to) else Broken
  {
    var row := MoveRow(i, from, to, at);
    assert (audit + [row])[..|audit|] == audit;
  }

  lemma TrailUnfolds(audit: seq<AuditRow>, i: nat, from: Status, path: seq<Status>, at: Instant)
    requires path != []
    ensures audit + Trail(i, from, path, at) == audit + [MoveRow(i, from, path[0], at)] + Trail(i, path[0], path[1..], at)
  {
  }

  lemma {:induction false} BrokenStaysBroken(audit: seq<AuditRow>, i: nat, from: Status, path: seq<Status>, at: Instant)
    requires Replay(audit, i) == Broken
    ensures Replay(audit + Trail(i, from, path, at), i) == Broken
    decreases |path|
  {
    if path == [] {
      assert audit + [] == audit;
    } else {
      ReplayOverMove(audit, i, from, path[0], at, i);
      BrokenStaysBroken(audit + [MoveRow(i, from, path[0], at)], i, path[0], path[1..], at);
      TrailUnfolds(audit, i, from, path, at);
    }
  }

  /** A trail continues the replay from where it stands, or breaks it for good. */
  lemma {:induction false} ReplayOverTrail(audit: seq<AuditRow>, i: nat, from: Status, path: seq<Status>, at: Instant)
    requires path != [] && LegalPath(from, path)
    ensures Replay(audit + Trail(i, from, path, at), i)
            == if Replay(audit, i) == At(from) then At(path[|path| - 1]) else Broken
    decreases |path|
  {
    var z := audit + [MoveRow(i, from, path[0], at)];
    ReplayOverMove(audit, i, from, path[0], at, i);
    TrailUnfolds(audit, i, from, path, at);
    if Replay(audit, i) != At(from) {
      BrokenStaysBroken(z, i, path[0], path[1..], at);
    } else if |path| == 1 {
      assert z + Trail(i, path[0], path[1..], at) == z;
    } else {
      ReplayOverTrail(z, i, path[0], path[1..], at);
    }
  }

  lemma {:induction false} ReplayOfAnother(audit: seq<AuditRow>, i: nat, from: Status, path: seq<Status>, at: Instant, j: nat)
    requires i != j
    ensures Replay(audit + Trail(i, from, path, at), j) == Replay(audit, j)
    decreases |path|
  {
    if path == [] {
      assert audit + [] == audit;
    } else {
      ReplayOverMove(audit, i, from, path[0], at, j);
      ReplayOfAnother(audit + [MoveRow(i, from, path[0], at)], i, path[0], path[1..], at, j);
      TrailUnfolds(audit, i, from, path, at);
    }
  }

  lemma LatestOfAppended(runs: seq<RunRow>, run: RunRow, i: nat)
    ensures run.incident != i ==> LatestRun(runs + [run], i) == LatestRun(runs, i)
    ensures run.incident == i ==> LatestRun(runs + [run], i).Some?
  {
    assert (runs + [run])[..|runs|] == runs;
  }

  lemma {:induction false} LatestOfFinished(runs: seq<RunRow>, k: nat, run: RunRow, i: nat)
    requires k < |runs| && run.incident == runs[k].incident && run.startedAt == runs[k].startedAt
    ensures LatestRun(runs[k := run], i) == LatestRun(runs, i)
    decreases |runs|
  {
    var z, last := runs[k := run], |runs| - 1;
    if k == last {
      assert z[..last] == runs[..last];
    } else {
      assert z[..last] == runs[..last][k := run];
      LatestOfFinished(runs[..last], k, run, i);
    }
  }

  lemma LatestAfterLanding(s: State, step: SessionStep, i: nat)
    requires Sound(s) && Lands(s, step)
    ensures
      var o, z := s.sessions[step.session], Landed(s, step);
      && (i != o.i ==> LatestRun(z.world.runs, i) == LatestRun(s.world.runs, i))
      && (i == o.i ==> LatestRun(z.world.runs, i).Some?)
      && |s.world.runs| <= |z.world.runs|
      && (forall k :: 0 <= k < |s.world.runs| ==> z.world.runs[k].incident == s.world.runs[k].incident
                                                  && z.world.runs[k].startedAt == s.world.runs[k].startedAt)
  {
    assert SessionOk(s, step.session);
    var o := s.sessions[step.session];
    if o.RunRead? {
      LatestOfFinished(s.world.runs, o.k, Finished(s.world.runs[o.k], step.at), i);
    } else {
      LatestOfAppended(s.world.runs, NewRun(o.i, ExecutionPhase.IsComplete(step.phase.value), step.at), i);
    }
  }

  lemma ReplayAfterLanding(s: State, step: SessionStep, i: nat)
    requires Sound(s) && Lands(s, step)
    ensures
      var o, z := s.sessions[step.session], Landed(s, step);
      Replay(z.audit, i) == if i != o.i then Replay(s.audit, i)
                            else if Replay(s.audit, i) == At(o.seen.status) then At(z.world.incidents[i].status)
                            else Broken
  {
    assert SessionOk(s, step.session);
    var o := s.sessions[step.session];
    var path := PathOf(o, ExecutionPhase.IsComplete(step.phase.value));
    LandingEnds(o, step.at, step.phase);
    if i == o.i {
      ReplayOverTrail(s.audit, i, o.seen.status, path, step.at);
    } else {
      ReplayOfAnother(s.audit, o.i, o.seen.status, path, step.at, i);
    }
  }

  lemma LandingKeepsSound(s: State, step: SessionStep)
    requires Sound(s) && Lands(s, step)
    ensures Sound(Landed(s, step))
  {
    var o, z := s.sessions[step.session], Landed(s, step);
    assert SessionOk(s, step.session);
    LandingEnds(o, step.at, step.phase);
    forall i ensures IncidentOk(z, i) {
      assert IncidentOk(s, i);
      LatestAfterLanding(s, step, i);
      ReplayAfterLanding(s, step, i);
    }
    forall session ensures SessionOk(z, session) {
      assert SessionOk(s, session);
      LatestAfterLanding(s, step, o.i);
    }
  }

  lemma OpeningReplays(audit: seq<AuditRow>, i: nat, signal: string, at: Instant, j: nat)
    requires Replay(audit, i) == NotOpened
    ensures Replay(audit + OpeningRows(i, signal, "", at), j) == if i == j then At(Triaged) else Replay(audit, j)
  {
    var first, second := OpeningRows(i, signal, "", at)[0], OpeningRows(i, signal, "", at)[1];
    assert audit + OpeningRows(i, signal, "", at) == audit + [first] + [second];
    assert (audit + [first])[..|audit|] == audit;
    assert (audit + [first] + [second])[..|audit| + 1] == audit + [first];
  }

  lemma OpeningKeepsSound(s: State, step: SessionStep)
    requires Sound(s) && Opens(s, step)
    ensures Sound(After(s, step))
  {
    var z, n := After(s, step), |s.world.incidents|;
    assert IncidentOk(s, n);
    forall i ensures IncidentOk(z, i) {
      assert IncidentOk(s, i);
      OpeningReplays(s.audit, n, step.row.signal, step.row.openedAt, i);
    }
    forall session ensures SessionOk(z, session) {
      assert SessionOk(s, session);
    }
  }

  lemma LookKeepsSound(s: State, step: SessionStep)
    requires Sound(s) && !Lands(s, step) && !Opens(s, step)
    ensures Sound(After(s, step)) && After(s, step).world == s.world && After(s, step).audit == s.audit
  {
    var z := After(s, step);
    forall i ensures IncidentOk(z, i) {
      assert IncidentOk(s, i);
    }
    forall session ensures SessionOk(z, session) {
      assert SessionOk(s, session);
      if session in z.sessions {
        assert IncidentOk(s, z.sessions[session].i);
      }
    }
  }

  lemma {:induction false} RunIsSound(steps: seq<SessionStep>)
    ensures Sound(Run(steps))
  {
    if steps != [] {
      var s, last := Run(steps[..|steps| - 1]), steps[|steps| - 1];
      RunIsSound(steps[..|steps| - 1]);
      if Lands(s, last) {
        LandingKeepsSound(s, last);
      } else if Opens(s, last) {
        OpeningKeepsSound(s, last);
      } else {
        LookKeepsSound(s, last);
      }
    }
  }
}
