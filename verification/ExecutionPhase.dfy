/** One pass over a run's ranked interventions, and what a second pass over the same rows does: nothing. */
module ExecutionPhase {
  import opened Vocabulary
  import opened Actions
  import opened Authorization
  import opened Executor
  import Approvals
  import Sorting

  datatype RefusedAction = RefusedAction(title: string, reason: Refusal, awaitingApproval: bool)

  datatype Phase = Phase(executed: seq<ExecutionResult>, refused: seq<RefusedAction>)

  /** Everything a pass touches: the records, the number of tool calls ever made, and the two lists it fills. */
  datatype Progress = Progress(records: Records, calls: nat, phase: Phase)

  /** What a pass only reads. */
  datatype Setting = Setting(tables: Tables, runId: nat, subject: Subject, at: Instant)

  predicate IsComplete(p: Phase) {
    forall i :: 0 <= i < |p.refused| ==> !p.refused[i].awaitingApproval
  }

  predicate PerformedNothing(p: Phase) {
    forall i :: 0 <= i < |p.executed| ==> p.executed[i].alreadyDone
  }

  // ---- the rows of one run, in rank order ----

  function OfRun(stored: seq<Intervention>, runId: nat): seq<Intervention> {
    if stored == [] then []
    else (if stored[0].runId == runId then [stored[0]] else []) + OfRun(stored[1..], runId)
  }

  predicate RankLeq(a: Intervention, b: Intervention) {
    a.rank <= b.rank
  }

  function Ranked(stored: seq<Intervention>, runId: nat): seq<Intervention> {
    Sorting.Sort(RankLeq, OfRun(stored, runId))
  }

  lemma {:induction false} OfRunIsFrom(stored: seq<Intervention>, runId: nat)
    ensures forall i :: i in OfRun(stored, runId) <==> i in stored && i.runId == runId
  {
    if stored != [] {
      OfRunIsFrom(stored[1..], runId);
    }
  }

  lemma {:induction false} OfRunCounts(stored: seq<Intervention>, runId: nat, i: Intervention)
    ensures multiset(OfRun(stored, runId))[i] == if i.runId == runId then multiset(stored)[i] else 0
  {
    if stored != [] {
      OfRunCounts(stored[1..], runId, i);
      assert stored == [stored[0]] + stored[1..];
    }
  }

  /** A pass goes over the interventions of its run, each as often as it is stored and no other run's, the best ranked
      first. */
  lemma RankedIsFrom(stored: seq<Intervention>, runId: nat)
    ensures forall i :: i in Ranked(stored, runId) <==> i in stored && i.runId == runId
    ensures forall i :: multiset(Ranked(stored, runId))[i] == if i.runId == runId then multiset(stored)[i] else 0
    ensures forall j, k :: 0 <= j < k < |Ranked(stored, runId)| ==> Ranked(stored, runId)[j].rank <= Ranked(stored, runId)[k].rank
  {
    OfRunIsFrom(stored, runId);
    forall i: Intervention ensures multiset(OfRun(stored, runId))[i] == if i.runId == runId then multiset(stored)[i] else 0 {
      OfRunCounts(stored, runId, i);
    }
    Sorting.SortPermutes(RankLeq, OfRun(stored, runId));
    Sorting.SortSorted(RankLeq, OfRun(stored, runId));
    forall i ensures i in Ranked(stored, runId) <==> i in OfRun(stored, runId) {
      assert i in Ranked(stored, runId) <==> i in multiset(Ranked(stored, runId));
    }
  }

  // ---- one intervention ----

  function ArgumentsFor(s: Setting, i: Intervention, g: Grant): Arguments {
    BuildArguments(i, g.action, s.subject, s.at).GetOr(map[])
  }

  function KeyFor(s: Setting, i: Intervention, g: Grant): Key {
    Key(s.subject.incidentRef, g.action, g.targetRef, ArgumentsFor(s, i, g))
  }

  function Process(s: Setting, answers: nat -> Payload, i: Intervention, p: Progress): Progress {
    match Authorize(s.tables, i.id, s.at)
    case Err(reason) =>
      p.(phase := p.phase.(refused := p.phase.refused + [RefusedAction(i.title, reason, reason.ApprovalMissing?)]))
    case Ok(g) =>
      var e := Execute(p.records, g, KeyFor(s, i, g), s.runId, answers, p.calls, s.at);
      Progress(e.records, p.calls + e.callsMade, p.phase.(executed := p.phase.executed + [e.result]))
  }

  function RunPhase(s: Setting, answers: nat -> Payload, list: seq<Intervention>, p: Progress): Progress
    decreases |list|
  {
    if list == [] then p
    else Process(s, answers, list[|list| - 1], RunPhase(s, answers, list[..|list| - 1], p))
  }

  const NOTHING := Phase([], [])

  ghost predicate Stored(t: Tables, stored: seq<Intervention>) {
    forall i :: i in stored ==> i.id in t.interventions && t.interventions[i.id] == i
  }

  /** One intervention: a refusal is noted and the phase carries on; a grant is executed. */
  method ProcessIntervention(s: Setting, i: Intervention, store: ActionStore, client: ToolClient, phase: Phase)
    returns (after: Phase)
    requires store.Valid() && i.id in s.tables.interventions && s.tables.interventions[i.id] == i
    modifies store`records, client
    ensures store.Valid()
    ensures Progress(store.records, |client.log|, after)
            == Process(s, client.answers, i, Progress(old(store.records), |old(client.log)|, phase))
  {
    var grant := Authorize(s.tables, i.id, s.at);
    if grant.Err? {
      return phase.(refused := phase.refused + [RefusedAction(i.title, grant.error, grant.error.ApprovalMissing?)]);
    }
    EveryGrantPassesTheGate(s.tables, i.id, s.at, s.subject, s.at);
    var args := BuildArguments(i, grant.value.action, s.subject, s.at);
    var key := Key(s.subject.incidentRef, grant.value.action, grant.value.targetRef, args.value);
    var result := store.ExecuteGrant(grant.value, key, s.runId, client, args.value, s.at);
    after := phase.(executed := phase.executed + [result.value]);
  }

  /** Executes everything currently authorised, one intervention at a time, in rank order. */
  method RunExecutionPhase(s: Setting, stored: seq<Intervention>, store: ActionStore, client: ToolClient)
    returns (phase: Phase)
    requires store.Valid() && Stored(s.tables, stored)
    modifies store`records, client
    ensures store.Valid()
    ensures
      var z := RunPhase(s, client.answers, Ranked(stored, s.runId), Progress(old(store.records), |old(client.log)|, NOTHING));
      && phase == z.phase && store.records == z.records && |client.log| == z.calls
  {
    var list := Ranked(stored, s.runId);
    RankedIsFrom(stored, s.runId);
    ghost var start := Progress(store.records, |client.log|, NOTHING);
    phase := NOTHING;
    for n := 0 to |list|
      invariant store.Valid()
      invariant Progress(store.records, |client.log|, phase) == RunPhase(s, client.answers, list[..n], start)
    {
      assert list[..n + 1][..n] == list[..n];
      assert list[n] in list;
      phase := ProcessIntervention(s, list[n], store, client, phase);
    }
    assert list[..|list|] == list;
  }

  // ---- exactly one bucket each, in rank order ----

  function GrantedOf(s: Setting, list: seq<Intervention>): seq<Intervention>
    decreases |list|
  {
    if list == [] then []
    else GrantedOf(s, list[..|list| - 1])
         + if Authorize(s.tables, list[|list| - 1].id, s.at).Ok? then [list[|list| - 1]] else []
  }

  /** The refusals of a pass, from the governance tables and the instant alone. */
  function RefusalsOf(s: Setting, list: seq<Intervention>): seq<RefusedAction>
    decreases |list|
  {
    if list == [] then []
    else
      var last := list[|list| - 1];
      RefusalsOf(s, list[..|list| - 1])
      + match Authorize(s.tables, last.id, s.at)
        case Ok(_) => []
        case Err(reason) => [RefusedAction(last.title, reason, reason.ApprovalMissing?)]
  }

  function GrantOn(s: Setting, i: Intervention): Key {
    match Authorize(s.tables, i.id, s.at)
    case Ok(g) => KeyFor(s, i, g)
    case Err(_) => Key("", CrmTask, "", map[])
  }

  /** The row is settled or unknown: nothing this pass does can move it. */
  predicate Stands(records: Records, k: Key) {
    k in records && records[k].status != Executing
  }

  lemma ProcessLeavesStanding(s: Setting, answers: nat -> Payload, i: Intervention, p: Progress, k: Key)
    ensures
      var z := Process(s, answers, i, p);
      && (Stands(p.records, k) ==> Stands(z.records, k) && z.records[k] == p.records[k])
      && (Authorize(s.tables, i.id, s.at).Ok? && GrantOn(s, i) == k ==> Stands(z.records, k))
  {
    SettleStopsAtFirstDecisiveAnswer(answers, p.calls, 1);
  }

  /** Every intervention lands in exactly one list, in rank order: the refused list is the refusals, in order, and the
      n-th executed result reports the record that now stands under the n-th granted intervention's key. */
  lemma {:induction false} EachLandsOnce(s: Setting, answers: nat -> Payload, list: seq<Intervention>, p: Progress)
    requires p.phase == NOTHING
    ensures
      var z := RunPhase(s, answers, list, p);
      var granted := GrantedOf(s, list);
      && z.phase.refused == RefusalsOf(s, list)
      && |z.phase.executed| == |granted| && |granted| + |z.phase.refused| == |list|
      && (forall n :: 0 <= n < |granted| ==>
            && granted[n] in list
            && Stands(z.records, GrantOn(s, granted[n]))
            && z.phase.executed[n].status == z.records[GrantOn(s, granted[n])].status
            && z.phase.executed[n].payload == z.records[GrantOn(s, granted[n])].result)
    decreases |list|
  {
    if list != [] {
      var front, last := list[..|list| - 1], list[|list| - 1];
      EachLandsOnce(s, answers, front, p);
      var y := RunPhase(s, answers, front, p);
      var granted := GrantedOf(s, front);
      forall n | 0 <= n < |granted| ensures Stands(RunPhase(s, answers, list, p).records, GrantOn(s, granted[n]))
                                        && RunPhase(s, answers, list, p).records[GrantOn(s, granted[n])] == y.records[GrantOn(s, granted[n])]
      {
        ProcessLeavesStanding(s, answers, last, y, GrantOn(s, granted[n]));
      }
      if Authorize(s.tables, last.id, s.at).Ok? {
        SettleStopsAtFirstDecisiveAnswer(answers, y.calls, 1);
      }
    }
  }

  // ---- a second pass ----

  ghost predicate AllStand(s: Setting, list: seq<Intervention>, records: Records) {
    forall i :: i in list && Authorize(s.tables, i.id, s.at).Ok? ==> Stands(records, GrantOn(s, i))
  }

  lemma {:induction false} PassLeavesAllStanding(s: Setting, answers: nat -> Payload, list: seq<Intervention>, p: Progress)
    ensures AllStand(s, list, RunPhase(s, answers, list, p).records)
    decreases |list|
  {
    if list != [] {
      var front, last := list[..|list| - 1], list[|list| - 1];
      PassLeavesAllStanding(s, answers, front, p);
      var y, z := RunPhase(s, answers, front, p), RunPhase(s, answers, list, p);
      assert list == front + [last];
      forall i | i in list && Authorize(s.tables, i.id, s.at).Ok? ensures Stands(z.records, GrantOn(s, i)) {
        ProcessLeavesStanding(s, answers, last, y, GrantOn(s, i));
      }
    }
  }

  lemma {:induction false} PassOverStandingIsANoOp(s: Setting, answers: nat -> Payload, list: seq<Intervention>, p: Progress)
    requires AllStand(s, list, p.records) && PerformedNothing(p.phase)
    ensures
      var z := RunPhase(s, answers, list, p);
      z.records == p.records && z.calls == p.calls && PerformedNothing(z.phase)
    decreases |list|
  {
    if list != [] {
      var front, last := list[..|list| - 1], list[|list| - 1];
      assert list == front + [last];
      PassOverStandingIsANoOp(s, answers, front, p);
      if Authorize(s.tables, last.id, s.at).Ok? {
        assert last in list && Stands(p.records, GrantOn(s, last));
        assert p.records[GrantOn(s, last) := p.records[GrantOn(s, last)]] == p.records;
      }
    }
  }

  /** Running the phase again at the same instant with no new decision performs nothing, calls nothing, changes no
      record and gives the same refusals, whatever the adapter would answer and whatever records the first pass began
      from, claims left open by a crash among them. */
  lemma SecondPassIsANoOp(s: Setting, answers: nat -> Payload, again: nat -> Payload, list: seq<Intervention>, p: Progress)
    requires p.phase == NOTHING
    ensures
      var y := RunPhase(s, answers, list, p);
      var z := RunPhase(s, again, list, y.(phase := NOTHING));
      && z.records == y.records && z.calls == y.calls
      && PerformedNothing(z.phase)
      && z.phase.refused == y.phase.refused && |z.phase.executed| == |y.phase.executed|
      && (IsComplete(z.phase) <==> IsComplete(y.phase))
  {
    var y := RunPhase(s, answers, list, p);
    PassLeavesAllStanding(s, answers, list, p);
    PassOverStandingIsANoOp(s, again, list, y.(phase := NOTHING));
    EachLandsOnce(s, answers, list, p);
    EachLandsOnce(s, again, list, y.(phase := NOTHING));
  }

  // ---- when a pass can finish ----

  /** A decision to require approval that no approved request answers. Rejected and expired requests count as well. */
  predicate AwaitsPerson(s: Setting, i: Intervention) {
    && i.id in s.tables.interventions && i.id in s.tables.decisions
    && s.tables.interventions[i.id].action == Executable(EmailDraft)
    && s.tables.decisions[i.id] == RequireApproval
    && (i.id in s.tables.approvals ==> Approvals.EffectiveStatus(s.tables.approvals[i.id], s.at) != Approved)
  }

  /** A pass completes exactly when no email draft recorded as needing approval lacks an APPROVED request: one that was
      rejected or has lapsed keeps the run waiting just as a pending one does. */
  lemma {:induction false} CompleteExactlyWhenNobodyIsAwaited(s: Setting, answers: nat -> Payload, list: seq<Intervention>, p: Progress)
    requires p.phase == NOTHING
    ensures IsComplete(RunPhase(s, answers, list, p).phase) <==> forall i :: i in list ==> !AwaitsPerson(s, i)
    decreases |list|
  {
    if list != [] {
      var front, last := list[..|list| - 1], list[|list| - 1];
      assert list == front + [last];
      CompleteExactlyWhenNobodyIsAwaited(s, answers, front, p);
      if last.id in s.tables.interventions {
        FreshDecisions(s.tables.interventions[last.id].action);
      }
      var y, z := RunPhase(s, answers, front, p).phase, RunPhase(s, answers, list, p).phase;
      if Authorize(s.tables, last.id, s.at).Err? {
        var added := z.refused[|y.refused|];
        assert z.refused == y.refused + [added];
        assert added.awaitingApproval <==> AwaitsPerson(s, last);
        assert forall n :: 0 <= n < |y.refused| ==> z.refused[n] == y.refused[n];
      } else {
        assert z.refused == y.refused && !AwaitsPerson(s, last);
      }
    }
  }
}
