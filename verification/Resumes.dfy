/** Resuming a run at a later instant: exactly when nothing is performed, and a task that is performed twice. */
module Resumes {
  import opened Vocabulary
  import opened Actions
  import opened Authorization
  import opened ExecutionPhase
  import Executor
  import EffectRuns

  /** Nothing but the instant has changed since. */
  function Later(s: Setting, at: Instant): Setting {
    s.(at := at)
  }

  predicate GrantedTask(s: Setting, i: Intervention) {
    Authorize(s.tables, i.id, s.at).Ok? && Authorize(s.tables, i.id, s.at).value.action == CrmTask
  }

  ghost predicate TasksStand(s: Setting, list: seq<Intervention>, records: Records) {
    forall i :: i in list && GrantedTask(s, i) ==> Stands(records, GrantOn(s, i))
  }

  /** The instant decides neither whether an intervention is granted nor what the grant says. */
  lemma GrantsKeep(t: Tables, id: nat, now: Instant, later: Instant)
    ensures Authorize(t, id, now).Ok? <==> Authorize(t, id, later).Ok?
    ensures Authorize(t, id, now).Ok? ==> Authorize(t, id, now) == Authorize(t, id, later)
  {
    GrantedExactly(t, id, now);
    GrantedExactly(t, id, later);
  }

  /** A grant has one key for all instants of a day, and for all instants at all unless it is for a CRM task. */
  lemma KeysKeep(s: Setting, i: Intervention, later: Instant)
    requires i.id in s.tables.interventions && s.tables.interventions[i.id] == i
    requires Authorize(s.tables, i.id, s.at).Ok?
    requires !GrantedTask(s, i) || DateOf(s.at) == DateOf(later)
    ensures GrantOn(Later(s, later), i) == GrantOn(s, i)
  {
    GrantsKeep(s.tables, i.id, s.at, later);
    var g := Authorize(s.tables, i.id, s.at).value;
    EveryGrantPassesTheGate(s.tables, i.id, s.at, s.subject, s.at);
    KeyIsStableIff(i, g.action, s.subject, s.at, later);
  }

  /** All that the first pass left standing stands for the later one too, if its tasks do. */
  lemma AllStandLater(s: Setting, list: seq<Intervention>, records: Records, later: Instant)
    requires Stored(s.tables, list) && AllStand(s, list, records)
    requires DateOf(s.at) == DateOf(later) || TasksStand(Later(s, later), list, records)
    ensures AllStand(Later(s, later), list, records)
  {
    var u := Later(s, later);
    forall i | i in list && Authorize(u.tables, i.id, u.at).Ok? ensures Stands(records, GrantOn(u, i)) {
      GrantsKeep(s.tables, i.id, s.at, later);
      if !GrantedTask(s, i) || DateOf(s.at) == DateOf(later) {
        KeysKeep(s, i, later);
      }
    }
  }

  /** Resuming at any later instant over the same tables makes no call and changes no record exactly when it is still the
      same day or every granted CRM task already has a settled or unknown record under its key for the new day. */
  lemma ResumePerformsNothingIff(s: Setting, answers: nat -> Payload, again: nat -> Payload, list: seq<Intervention>,
                                 p: Progress, later: Instant)
    requires Stored(s.tables, list) && p.phase == NOTHING
    ensures
      var y := RunPhase(s, answers, list, p);
      var z := RunPhase(Later(s, later), again, list, y.(phase := NOTHING));
      && (z.records == y.records && z.calls == y.calls
          <==> DateOf(s.at) == DateOf(later) || TasksStand(Later(s, later), list, y.records))
      && (IsComplete(z.phase) <==> IsComplete(y.phase))
  {
    var u := Later(s, later);
    var y := RunPhase(s, answers, list, p);
    var z := RunPhase(u, again, list, y.(phase := NOTHING));
    PassLeavesAllStanding(s, answers, list, p);
    PassLeavesAllStanding(u, again, list, y.(phase := NOTHING));
    if DateOf(s.at) == DateOf(later) || TasksStand(u, list, y.records) {
      AllStandLater(s, list, y.records, later);
      PassOverStandingIsANoOp(u, again, list, y.(phase := NOTHING));
    } else {
      var i :| i in list && GrantedTask(u, i) && !Stands(y.records, GrantOn(u, i));
      assert Stands(z.records, GrantOn(u, i));
    }
    CompleteLater(s, answers, again, list, p, later);
  }

  /** Time alone neither completes a pass nor reopens it. */
  lemma CompleteLater(s: Setting, answers: nat -> Payload, again: nat -> Payload, list: seq<Intervention>,
                      p: Progress, later: Instant)
    requires p.phase == NOTHING
    ensures
      var y := RunPhase(s, answers, list, p);
      IsComplete(RunPhase(Later(s, later), again, list, y.(phase := NOTHING)).phase) <==> IsComplete(y.phase)
  {
    var y := RunPhase(s, answers, list, p);
    CompleteExactlyWhenNobodyIsAwaited(s, answers, list, p);
    CompleteExactlyWhenNobodyIsAwaited(Later(s, later), again, list, y.(phase := NOTHING));
    forall i ensures AwaitsPerson(s, i) <==> AwaitsPerson(Later(s, later), i) {
    }
  }

  // ---- one task, two days ----

  const ON_FILE := Setting(EffectRuns.PROPOSED.tables, 7, EffectRuns.SUBJECT, 0)

  function Done(call: nat): Payload {
    EffectRuns.DONE
  }

  /** A pass over the one task, its key free: one call, answered ok, one record. */
  lemma TaskPerformed(s: Setting, p: Progress)
    requires s.tables == ON_FILE.tables && p.phase == NOTHING && GrantOn(s, EffectRuns.TASK) !in p.records
    ensures
      var z := RunPhase(s, Done, [EffectRuns.TASK], p);
      && z.calls == p.calls + 1 && GrantOn(s, EffectRuns.TASK) in z.records && z.records[GrantOn(s, EffectRuns.TASK)].status == Succeeded
      && z.records.Keys == p.records.Keys + {GrantOn(s, EffectRuns.TASK)}
      && |z.phase.executed| == 1 && !z.phase.executed[0].alreadyDone
  {
    GrantedExactly(s.tables, 1, s.at);
    assert [EffectRuns.TASK][..0] == [];
    assert RunPhase(s, Done, [EffectRuns.TASK], p) == Process(s, Done, EffectRuns.TASK, p);
    var one := Settle(Done, p.calls, 1);
    assert one == Settlement(Succeeded, 1, Done(p.calls));
  }

  /** A task performed on one day is performed again, under another key, by a resume on the next. */
  lemma TaskIsPerformedOnTwoDays()
    ensures
      var y := RunPhase(ON_FILE, Done, [EffectRuns.TASK], Progress(map[], 0, NOTHING));
      var z := RunPhase(Later(ON_FILE, MICROS_PER_DAY), Done, [EffectRuns.TASK], y.(phase := NOTHING));
      && y.calls == 1 && z.calls == 2 && IsComplete(y.phase)
      && |z.phase.executed| == 1 && !z.phase.executed[0].alreadyDone
      && exists a, b :: a != b && a in z.records && b in z.records
                        && z.records[a].status == z.records[b].status == Succeeded
  {
    var s, u := ON_FILE, Later(ON_FILE, MICROS_PER_DAY);
    TaskPerformed(s, Progress(map[], 0, NOTHING));
    var y := RunPhase(s, Done, [EffectRuns.TASK], Progress(map[], 0, NOTHING));
    TwoKeys();
    assert GrantOn(u, EffectRuns.TASK) !in y.records;
    TaskPerformed(u, y.(phase := NOTHING));
    var z := RunPhase(u, Done, [EffectRuns.TASK], y.(phase := NOTHING));
    CompleteExactlyWhenNobodyIsAwaited(s, Done, [EffectRuns.TASK], Progress(map[], 0, NOTHING));
    FirstStands(s, u, y);
    assert z.records[GrantOn(s, EffectRuns.TASK)].status == z.records[GrantOn(u, EffectRuns.TASK)].status == Succeeded;
  }

  lemma TwoKeys()
    ensures GrantOn(ON_FILE, EffectRuns.TASK) != GrantOn(Later(ON_FILE, MICROS_PER_DAY), EffectRuns.TASK)
  {
    GrantedExactly(ON_FILE.tables, 1, 0);
    GrantedExactly(ON_FILE.tables, 1, MICROS_PER_DAY);
    KeyIsStableIff(EffectRuns.TASK, CrmTask, ON_FILE.subject, 0, MICROS_PER_DAY);
    assert DateOf(0) == 0 && DateOf(MICROS_PER_DAY) == 1;
  }

  /** The second pass leaves the first pass's record as it was. */
  lemma FirstStands(s: Setting, u: Setting, y: Progress)
    requires Stands(y.records, GrantOn(s, EffectRuns.TASK))
    ensures
      var z := RunPhase(u, Done, [EffectRuns.TASK], y.(phase := NOTHING));
      GrantOn(s, EffectRuns.TASK) in z.records && z.records[GrantOn(s, EffectRuns.TASK)] == y.records[GrantOn(s, EffectRuns.TASK)]
  {
    assert [EffectRuns.TASK][..0] == [];
    ProcessLeavesStanding(u, Done, EffectRuns.TASK, y.(phase := NOTHING), GrantOn(s, EffectRuns.TASK));
  }
}
