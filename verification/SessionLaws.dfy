/** What overlapping investigations and resumes leave behind, exactly. */
module SessionLaws {
  import opened Vocabulary
  import opened Incidents
  import opened Runs
  import opened Sessions
  import opened Authorization
  import ExecutionPhase

  // ---- one run an incident ----

  lemma StepKeepsOneRun(s: State, step: SessionStep)
    requires Sound(s)
    ensures OneRunEach(After(s, step).world.runs) <==>
            OneRunEach(s.world.runs) && (Investigates(s, step) ==> FindsWhatItRead(s, step))
  {
    if Lands(s, step) {
      var o, runs, z := s.sessions[step.session], s.world.runs, Landed(s, step).world.runs;
      assert SessionOk(s, step.session) && IncidentOk(s, o.i);
      if o.RunRead? {
        LatestAfterLanding(s, step, o.i);
        assert |z| == |runs| && forall k :: 0 <= k < |runs| ==> z[k].incident == runs[k].incident;
      } else {
        assert z[..|runs|] == runs && z[|runs|].incident == o.i;
        if !FindsWhatItRead(s, step) {
          assert z[LatestRun(runs, o.i).value].incident == o.i;
        }
      }
    }
  }

  lemma LandingStaysInStep(s: State, step: SessionStep)
    requires Sound(s) && InStep(s.world) && Lands(s, step) && (Investigates(s, step) ==> FindsWhatItRead(s, step))
    ensures InStep(Landed(s, step).world)
  {
    var o, w := s.sessions[step.session], s.world;
    assert SessionOk(s, step.session) && IncidentOk(s, o.i);
    LandingEnds(o, step.at, step.phase);
    var complete := ExecutionPhase.IsComplete(step.phase.value);
    var row := WrittenOver(w.incidents[o.i], o.seen, Landing(o, step.at, step.phase).value);
    if o.RunRead? {
      ReplacedKeepsStep(w, o.i, row, o.k, Finished(w.runs[o.k], step.at));
    } else {
      InvestigationEnds(o.seen, complete, step.at);
      AddedKeepsStep(w, o.i, row, NewRun(o.i, complete, step.at));
    }
  }

  lemma StepStaysInStep(s: State, step: SessionStep)
    requires Sound(s) && InStep(s.world) && (Investigates(s, step) ==> FindsWhatItRead(s, step))
    ensures InStep(After(s, step).world)
  {
    if Lands(s, step) {
      LandingStaysInStep(s, step);
    } else if Opens(s, step) {
      OpenKeepsStep(s.world, step.row);
    } else {
      LookKeepsSound(s, step);
    }
  }

  /** Whatever runs side by side: no incident has two runs, and every run is in step with its incident, exactly as long as
      every investigation that succeeds finds its incident still TRIAGED when it writes. Overlapping resumes do no harm. */
  lemma {:induction false} SessionsStayInStepIff(steps: seq<SessionStep>)
    ensures OneRunEach(Run(steps).world.runs) <==> InvestigationsFindWhatTheyRead(steps)
    ensures InStep(Run(steps).world) <==> InvestigationsFindWhatTheyRead(steps)
  {
    if steps != [] {
      var front, last := steps[..|steps| - 1], steps[|steps| - 1];
      SessionsStayInStepIff(front);
      RunIsSound(front);
      StepKeepsOneRun(Run(front), last);
      if InvestigationsFindWhatTheyRead(steps) {
        StepStaysInStep(Run(front), last);
      }
    }
  }

  // ---- the audit trail ----

  ghost predicate TrailsReplay(s: State) {
    forall i :: 0 <= i < |s.world.incidents| ==> Replay(s.audit, i) == At(s.world.incidents[i].status)
  }

  lemma StepKeepsTrails(s: State, step: SessionStep)
    requires Sound(s)
    ensures TrailsReplay(After(s, step)) <==> TrailsReplay(s) && FindsWhatItRead(s, step)
  {
    var z := After(s, step);
    if Lands(s, step) {
      var o := s.sessions[step.session];
      assert SessionOk(s, step.session) && IncidentOk(s, o.i);
      forall i | 0 <= i < |s.world.incidents|
        ensures Replay(z.audit, i) == At(z.world.incidents[i].status) <==>
                Replay(s.audit, i) == At(s.world.incidents[i].status) && (i == o.i ==> FindsWhatItRead(s, step))
      {
        assert IncidentOk(s, i);
        ReplayAfterLanding(s, step, i);
      }
    } else if Opens(s, step) {
      var n := |s.world.incidents|;
      assert IncidentOk(s, n);
      forall i: nat ensures Replay(z.audit, i) == if i == n then At(Triaged) else Replay(s.audit, i) {
        OpeningReplays(s.audit, n, step.row.signal, step.row.openedAt, i);
      }
      assert forall i :: 0 <= i < n ==> z.world.incidents[i] == s.world.incidents[i];
    } else {
      LookKeepsSound(s, step);
    }
  }

  /** And every incident's audit rows replay to its status exactly as long as every session that succeeds, investigation
      or resume, finds the incident where it read it. Once broken a trail stays broken. */
  lemma {:induction false} TrailsReplayIff(steps: seq<SessionStep>)
    ensures TrailsReplay(Run(steps)) <==> EachFindsWhatItRead(steps)
  {
    if steps != [] {
      var front := steps[..|steps| - 1];
      TrailsReplayIff(front);
      RunIsSound(front);
      StepKeepsTrails(Run(front), steps[|steps| - 1]);
    }
  }

  // ---- one at a time after all ----

  /** What the sessions that changed something were asked to do, in the order they landed. */
  function InOrder(steps: seq<SessionStep>): seq<Runs.Step> {
    if steps == [] then []
    else
      var front, last := steps[..|steps| - 1], steps[|steps| - 1];
      InOrder(front) + Asked(Run(front), last)
  }

  function Asked(s: State, step: SessionStep): seq<Runs.Step> {
    if Opens(s, step) then [OpenStep(step.row)]
    else if !Lands(s, step) then []
    else
      var o := s.sessions[step.session];
      [if o.Investigation? then InvestigateStep(o.seen.ref, step.at, step.phase) else ResumeStep(o.seen.ref, step.at, step.phase)]
  }

  /** While an incident's status is still what a session read, so is everything else the session read of it. */
  ghost predicate ReadStands(s: State, session: nat) {
    session in s.sessions && s.sessions[session].i < |s.world.incidents| ==>
      var o := s.sessions[session];
      && Rank(s.world.incidents[o.i].status) <= Rank(o.seen.status)
      && (s.world.incidents[o.i].status == o.seen.status ==>
            && s.world.incidents[o.i] == o.seen
            && (o.RunRead? ==> LatestRun(s.world.runs, o.i) == Some(o.k) && o.k < |s.world.runs| && s.world.runs[o.k] == o.run))
  }

  ghost predicate ReferencesDiffer(w: World) {
    forall i, j :: 0 <= i < j < |w.incidents| ==> w.incidents[i].ref != w.incidents[j].ref
  }

  ghost predicate Ordered(s: State) {
    Sound(s) && ReferencesDiffer(s.world) && forall session :: ReadStands(s, session)
  }

  lemma FoundByReference(w: World, i: nat)
    requires ReferencesDiffer(w) && i < |w.incidents|
    ensures Find(w.incidents, w.incidents[i].ref) == Some(i)
  {
  }

  lemma LandingReadsOn(s: State, step: SessionStep, session: nat)
    requires Ordered(s) && Lands(s, step) && FindsWhatItRead(s, step)
    ensures ReadStands(Landed(s, step), session)
  {
    var o, z := s.sessions[step.session], Landed(s, step);
    assert SessionOk(s, step.session) && ReadStands(s, session) && SessionOk(s, session);
    LandingEnds(o, step.at, step.phase);
    if session in z.sessions && z.sessions[session].i != o.i {
      LatestAfterLanding(s, step, z.sessions[session].i);
    }
  }

  lemma LandingKeepsOrdered(s: State, step: SessionStep)
    requires Ordered(s) && Lands(s, step) && FindsWhatItRead(s, step)
    ensures Ordered(Landed(s, step))
  {
    LandingKeepsSound(s, step);
    forall session ensures ReadStands(Landed(s, step), session) {
      LandingReadsOn(s, step, session);
    }
  }

  /** A session that finds what it read does just what the same invocation would do on its own, now. */
  lemma LandsAsIfAlone(s: State, step: SessionStep)
    requires Ordered(s) && Lands(s, step) && FindsWhatItRead(s, step)
    ensures Runs.Next(s.world, Asked(s, step)[0]) == Landed(s, step).world
  {
    var o := s.sessions[step.session];
    assert SessionOk(s, step.session) && ReadStands(s, step.session);
    LandingEnds(o, step.at, step.phase);
    FoundByReference(s.world, o.i);
  }

  /** When such a session lands at all: exactly when the same invocation, made on its own at that moment, would succeed and
      have something to do. */
  lemma LandsIffAlone(s: State, step: SessionStep)
    requires Ordered(s) && step.Finish? && step.session in s.sessions && !s.sessions[step.session].Resumption?
    requires s.sessions[step.session].i < |s.world.incidents|
    requires s.world.incidents[s.sessions[step.session].i].status == s.sessions[step.session].seen.status
    ensures
      var o := s.sessions[step.session];
      Lands(s, step) <==>
        if o.Investigation? then Investigate(s.world, o.seen.ref, step.at, step.phase).Ok?
        else Resume(s.world, o.seen.ref, step.at, step.phase).Ok? && Resume(s.world, o.seen.ref, step.at, step.phase) != Ok(s.world)
  {
    var o := s.sessions[step.session];
    assert SessionOk(s, step.session) && ReadStands(s, step.session);
    FoundByReference(s.world, o.i);
    if o.RunRead? && Landing(o, step.at, step.phase).Some? {
      assert s.world.runs[o.k] != Finished(s.world.runs[o.k], step.at);
    }
  }

  /** A session begins by reading its incident, an investigation only one that is TRIAGED under a reference of three digits;
      and however it finishes, it is over. */
  lemma SessionsBeginAndEnd(s: State, session: nat, ref: nat, at: Instant, phase: Option<ExecutionPhase.Phase>)
    ensures session !in After(s, Finish(session, at, phase)).sessions
    ensures
      var found := Find(s.world.incidents, ref);
      && (After(s, LookToInvestigate(session, ref)) ==
            if session !in s.sessions && found.Some? && ref <= 999 && s.world.incidents[found.value].status == Triaged
            then s.(sessions := s.sessions[session := Investigation(found.value, s.world.incidents[found.value])])
            else s)
      && (After(s, LookToResume(session, ref)) ==
            if session !in s.sessions && found.Some?
            then s.(sessions := s.sessions[session := Resumption(found.value, s.world.incidents[found.value])])
            else s)
  {
  }

  lemma OpeningKeepsOrdered(s: State, step: SessionStep)
    requires Ordered(s) && Opens(s, step)
    ensures Ordered(After(s, step))
  {
    OpeningKeepsSound(s, step);
    forall session ensures ReadStands(After(s, step), session) {
      assert ReadStands(s, session) && SessionOk(s, session);
    }
  }

  lemma LookKeepsOrdered(s: State, step: SessionStep)
    requires Ordered(s) && !Lands(s, step) && !Opens(s, step)
    ensures Ordered(After(s, step))
  {
    LookKeepsSound(s, step);
    forall session ensures ReadStands(After(s, step), session) {
      assert ReadStands(s, session) && SessionOk(s, session);
    }
  }

  lemma StepIsSequential(s: State, step: SessionStep, before: seq<Runs.Step>)
    requires Ordered(s) && FindsWhatItRead(s, step) && s.world == Steps(World([], []), before)
    ensures Ordered(After(s, step)) && After(s, step).world == Steps(World([], []), before + Asked(s, step))
  {
    if Lands(s, step) {
      LandingKeepsOrdered(s, step);
      LandsAsIfAlone(s, step);
    } else if Opens(s, step) {
      OpeningKeepsOrdered(s, step);
    } else {
      LookKeepsOrdered(s, step);
    }
    if Asked(s, step) == [] {
      assert before + [] == before;
    } else {
      assert (before + Asked(s, step))[..|before|] == before;
    }
  }

  /** Sessions that each find what they read might as well have run one at a time, in the order they finished. */
  lemma {:induction false} FreshSessionsAreSequential(steps: seq<SessionStep>)
    requires EachFindsWhatItRead(steps)
    ensures Ordered(Run(steps)) && Run(steps).world == Steps(World([], []), InOrder(steps))
  {
    if steps != [] {
      var front, last := steps[..|steps| - 1], steps[|steps| - 1];
      FreshSessionsAreSequential(front);
      StepIsSequential(Run(front), last, InOrder(front));
    }
  }

  // ---- two investigations at once ----

  lemma Then(steps: seq<SessionStep>, step: SessionStep)
    ensures Run(steps + [step]) == After(Run(steps), step)
  {
    assert (steps + [step])[..|steps|] == steps;
  }

  const NEW := IncidentRow(1, "signal", "HIGH", 0, 0, Triaged, 0, None)
  const DONE := Some(ExecutionPhase.Phase([], []))
  const PAUSED := Some(ExecutionPhase.Phase([], [ExecutionPhase.RefusedAction("Re-engage", ApprovalMissing(None), true)]))

  lemma IncidentIsOpen() returns (steps: seq<SessionStep>)
    ensures Run(steps).world == World([NEW], []) && Run(steps).sessions == map[]
  {
    Then([], OpenIncident(NEW));
    steps := [] + [OpenIncident(NEW)];
  }

  lemma OneMoreLooks(before: seq<SessionStep>, session: nat) returns (steps: seq<SessionStep>)
    requires Run(before).world == World([NEW], []) && session !in Run(before).sessions
    ensures Run(steps) == Run(before).(sessions := Run(before).sessions[session := Investigation(0, NEW)])
  {
    Then(before, LookToInvestigate(session, 1));
    steps := before + [LookToInvestigate(session, 1)];
    assert Find([NEW], 1) == Some(0);
  }

  /** Two sessions have read the one incident as TRIAGED. */
  lemma BothRead() returns (steps: seq<SessionStep>)
    ensures Run(steps).world == World([NEW], [])
    ensures Run(steps).sessions == map[0 := Investigation(0, NEW), 1 := Investigation(0, NEW)]
  {
    steps := IncidentIsOpen();
    steps := OneMoreLooks(steps, 0);
    steps := OneMoreLooks(steps, 1);
  }

  /** The first of them ends the incident. */
  lemma FirstLands() returns (steps: seq<SessionStep>)
    ensures Run(steps).world == World([NEW.(status := Completed, closedAt := Some(0))], [NewRun(0, true, 0)])
    ensures Run(steps).sessions == map[1 := Investigation(0, NEW)]
  {
    var before := BothRead();
    var s, step := Run(before), Finish(0, 0, DONE);
    WalkCloses(NEW, 0);
    Then(before, step);
    assert ExecutionPhase.IsComplete(DONE.value) && Landing(s.sessions[0], 0, DONE).Some?;
    steps := before + [step];
  }

  lemma SecondLands(s: State)
    requires s.world == World([NEW.(status := Completed, closedAt := Some(0))], [NewRun(0, true, 0)])
    requires s.sessions == map[1 := Investigation(0, NEW)]
    ensures Lands(s, Finish(1, 0, PAUSED)) && !FindsWhatItRead(s, Finish(1, 0, PAUSED))
    ensures
      var w := Landed(s, Finish(1, 0, PAUSED)).world;
      && w.incidents == [NEW.(status := AwaitingApproval, closedAt := Some(0))]
      && w.runs == [NewRun(0, true, 0), NewRun(0, false, 0)]
  {
    WalkCloses(NEW, 0);
    assert PAUSED.value.refused[0].awaitingApproval;
  }

  /** Two investigations of one incident can both succeed: it ends AWAITING_APPROVAL with a closing instant, one of its two
      runs completed and the other paused, and its audit rows no longer replay. */
  lemma OverlapLeavesTwoRuns() returns (steps: seq<SessionStep>)
    ensures
      var s := Run(steps);
      && |s.world.incidents| == 1 && s.world.incidents[0].status == AwaitingApproval && s.world.incidents[0].closedAt == Some(0)
      && s.world.runs == [NewRun(0, true, 0), NewRun(0, false, 0)] && !TrailsReplay(s)
  {
    var before := FirstLands();
    SecondLands(Run(before));
    Then(before, Finish(1, 0, PAUSED));
    RunIsSound(before);
    StepKeepsTrails(Run(before), Finish(1, 0, PAUSED));
    steps := before + [Finish(1, 0, PAUSED)];
  }

  lemma WalkCloses(row: IncidentRow, at: Instant)
    requires row.status == Triaged && row.openedAt <= at && row.closedAt.None?
    ensures Walk(row, InvestigationPath(true), at) == Ok(row.(status := Completed, closedAt := Some(at)))
    ensures Walk(row, InvestigationPath(false), at) == Ok(row.(status := AwaitingApproval))
  {
  }
}
