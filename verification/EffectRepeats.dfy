/** The code's own transactions: exactly when an effect can still be performed again, and what a commit freezes. */
module EffectRepeats {
  import opened Vocabulary
  import opened Actions
  import opened Authorization
  import opened EffectProtocol
  import opened EffectSafety
  import EffectFinality
  import EffectProvenance
  import EffectRuns
  import Approvals

  /** The row is there and the pass that inserted it has committed. */
  predicate Committed(s: State, k: Key) {
    k in s.rows && s.rows[k].uncommittedBy.None?
  }

  // ---- what a commit freezes ----

  ghost predicate Unmoved(s: State, z: State, k: Key)
    requires k in s.rows
  {
    && Committed(z, k) && z.rows[k].record == s.rows[k].record
    && Of(z, k) == Of(s, k)
  }

  lemma WorkerStepLeavesCommitted(s: State, step: Step, k: Key)
    requires EffectFinality.FlushInv(s) && Committed(s, k) && Next(ClaimFlushes, s, step).Some?
    requires step.Claim? || step.Resolve? || step.Attempt? || step.Call? || step.Record?
    ensures Unmoved(s, Next(ClaimFlushes, s, step).value, k)
  {
    assert WorkerOk(ClaimFlushes, s, step.w);
  }

  lemma StepLeavesCommitted(s: State, step: Step, k: Key)
    requires EffectFinality.FlushInv(s) && Committed(s, k) && Next(ClaimFlushes, s, step).Some?
    ensures Unmoved(s, Next(ClaimFlushes, s, step).value, k)
  {
    if step.Claim? || step.Resolve? || step.Attempt? || step.Call? || step.Record? {
      WorkerStepLeavesCommitted(s, step, k);
    } else if step.Write? {
      assert !EffectFinality.OpenOn(s, step.edit);
    } else if step.Crash? {
      assert k !in RolledBack(s, step.w);
    }
  }

  /** From any state on, a committed record is never written again and its tool never called again. */
  lemma {:induction false} CommittedStaysPut(s: State, steps: seq<Step>, k: Key)
    requires EffectFinality.FlushInv(s) && Committed(s, k) && Run(ClaimFlushes, s, steps).Some?
    ensures EffectFinality.FlushInv(Run(ClaimFlushes, s, steps).value)
    ensures Unmoved(s, Run(ClaimFlushes, s, steps).value, k)
    decreases |steps|
  {
    if steps != [] {
      var front, last := steps[..|steps| - 1], steps[|steps| - 1];
      CommittedStaysPut(s, front, k);
      var y := Run(ClaimFlushes, s, front).value;
      EffectFinality.FlushStepKeeps(y, last);
      StepLeavesCommitted(y, last, k);
    }
  }

  // ---- where a key comes from ----

  /** An intervention that asks for exactly this effect. */
  predicate AsksFor(i: Intervention, k: Key, subject: Subject, at: Instant) {
    && i.action == Executable(k.action) && k.action != CrmFieldUpdate
    && i.targetRef == k.targetRef && subject.incidentRef == k.incidentRef
    && BuildArguments(i, k.action, subject, at) == Some(k.arguments)
  }

  ghost predicate Askable(k: Key) {
    exists i, subject, at :: AsksFor(i, k, subject, at)
  }

  /** Such an intervention on file, granted now or after one more decision: if it needs a person, its request is not lapsed. */
  predicate Source(t: Tables, k: Key, id: nat, subject: Subject, at: Instant) {
    && id in t.interventions && id in t.decisions && AsksFor(t.interventions[id], k, subject, at)
    && if k.action == EmailDraft
       then t.decisions[id] == RequireApproval && id in t.approvals && Approvals.EffectiveStatus(t.approvals[id], at) != Expired
       else t.decisions[id] == Allow
  }

  ghost predicate HasSource(t: Tables, k: Key) {
    exists id, subject, at :: Source(t, k, id, subject, at)
  }

  ghost predicate Sourced(s: State) {
    && (forall w :: w in s.workers && s.workers[w].Granted? ==> Askable(s.workers[w].key))
    && (forall k :: Of(s, k).claims >= 1 ==> Askable(k))
  }

  lemma AuthoriseKeepsSourced(s: State, step: Step)
    requires Sourced(s) && step.Authorise? && AuthoriseStep(s, step).Some?
    ensures Sourced(AuthoriseStep(s, step).value)
  {
    var z := AuthoriseStep(s, step).value;
    if z != s {
      GrantedExactly(s.tables, step.id, step.at);
      assert AsksFor(s.tables.interventions[step.id], z.workers[step.w].key, step.subject, step.at);
    }
    assert forall k :: Of(z, k) == Of(s, k);
  }

  lemma OtherStepKeepsSourced(s: State, step: Step)
    requires Sourced(s) && !step.Authorise? && Next(ClaimFlushes, s, step).Some?
    ensures Sourced(Next(ClaimFlushes, s, step).value)
  {
    var z := Next(ClaimFlushes, s, step).value;
    forall w | w in z.workers && z.workers[w].Granted? ensures Askable(z.workers[w].key) {
      EffectProvenance.GrantStands(ClaimFlushes, s, step, w);
    }
    forall k | Of(z, k).claims >= 1 ensures Askable(k) {
      if Of(s, k).claims == 0 {
        assert step.Claim? && s.workers[step.w].key == k;
      }
    }
  }

  lemma {:induction false} RunKeepsSourced(steps: seq<Step>)
    requires Run(ClaimFlushes, INITIAL, steps).Some?
    ensures Sourced(Run(ClaimFlushes, INITIAL, steps).value)
    decreases |steps|
  {
    if steps != [] {
      var front, last := steps[..|steps| - 1], steps[|steps| - 1];
      RunKeepsSourced(front);
      var s := Run(ClaimFlushes, INITIAL, front).value;
      if last.Authorise? {
        AuthoriseKeepsSourced(s, last);
      } else {
        OtherStepKeepsSourced(s, last);
      }
    }
  }

  // ---- an uncommitted effect can be had again ----

  predicate Unproposed(steps: seq<Step>) {
    forall i :: 0 <= i < |steps| ==> !steps[i].Propose?
  }

  /** The worker dies; whatever it had not committed is gone, and it is idle again. */
  lemma Died(s: State, k: Key) returns (w: WorkerId, y: State)
    requires !Committed(s, k)
    ensures Run(ClaimFlushes, s, [Crash(w)]) == Some(y) && w !in y.workers && k !in y.rows
    ensures y.tables == s.tables && Of(y, k).oks == Of(s, k).oks && Of(y, k).calls == Of(s, k).calls
  {
    w := if k in s.rows then s.rows[k].uncommittedBy.value else 0;
    y := CrashStep(s, Crash(w)).value;
    EffectRuns.Extend(ClaimFlushes, s, [], Crash(w));
    assert [] + [Crash(w)] == [Crash(w)];
  }

  /** If the effect needs a person and does not read APPROVED, somebody else decides. */
  lemma Reapproved(y: State, k: Key, id: nat, subject: Subject, at: Instant) returns (steps: seq<Step>, z: State)
    requires Source(y.tables, k, id, subject, at)
    ensures Run(ClaimFlushes, y, steps) == Some(z) && Source(z.tables, k, id, subject, at)
    ensures z.workers == y.workers && z.rows == y.rows && z.history == y.history
    ensures k.action == EmailDraft ==> z.tables.approvals[id].status == Approved
    ensures Unproposed(steps)
  {
    if k.action == EmailDraft {
      var someoneElse := y.tables.approvals[id].requestedBy + "2";
      assert |someoneElse| != |y.tables.approvals[id].requestedBy|;
      steps, z := EffectRuns.DecidedAtOnce(ClaimFlushes, y, id, true, someoneElse, at);
    } else {
      steps, z := [], y;
    }
  }

  lemma GrantedAgain(y: State, k: Key, w: WorkerId, id: nat, subject: Subject, at: Instant) returns (z: State)
    requires Source(y.tables, k, id, subject, at) && w !in y.workers
    requires k.action == EmailDraft ==> y.tables.approvals[id].status == Approved
    ensures AuthoriseStep(y, Authorise(w, id, subject, at)) == Some(z)
    ensures w in z.workers && z.workers[w].Granted? && z.workers[w].key == k && z.rows == y.rows && z.history == y.history
  {
    GrantedExactly(y.tables, id, at);
    z := AuthoriseStep(y, Authorise(w, id, subject, at)).value;
  }

  lemma ClaimedAgain(y: State, k: Key, w: WorkerId) returns (z: State)
    requires w in y.workers && y.workers[w].Granted? && y.workers[w].key == k && k !in y.rows
    ensures ClaimStep(ClaimFlushes, y, Claim(w)) == Some(z)
    ensures w in z.workers && z.workers[w].Claimed? && z.workers[w].key == k && k in z.rows
    ensures Of(z, k) == Of(y, k).(claims := Of(y, k).claims + 1)
  {
    z := ClaimStep(ClaimFlushes, y, Claim(w)).value;
  }

  /** A granted worker claims the free key and is answered ok. */
  lemma PerformedAgain(y: State, k: Key, w: WorkerId) returns (steps: seq<Step>, z: State)
    requires w in y.workers && y.workers[w].Granted? && y.workers[w].key == k && k !in y.rows
    ensures Run(ClaimFlushes, y, steps) == Some(z) && Of(z, k).oks == Of(y, k).oks + 1 && Of(z, k).calls == Of(y, k).calls + 1
    ensures Unproposed(steps)
  {
    var x := ClaimedAgain(y, k, w);
    EffectRuns.Extend(ClaimFlushes, y, [], Claim(w));
    steps := [] + [Claim(w)];
    EffectRuns.AskedByTwoSteps(x, w, EffectRuns.DONE);
    EffectRuns.Extend(ClaimFlushes, y, steps, Attempt(w));
    steps := steps + [Attempt(w)];
    EffectRuns.Extend(ClaimFlushes, y, steps, Call(w, EffectRuns.DONE));
    steps := steps + [Call(w, EffectRuns.DONE)];
    z := EffectRuns.Asked(x, w, EffectRuns.DONE);
  }

  lemma GrantedAndPerformed(y: State, k: Key, w: WorkerId, id: nat, subject: Subject, at: Instant)
    returns (steps: seq<Step>, z: State)
    requires Source(y.tables, k, id, subject, at) && w !in y.workers && k !in y.rows
    requires k.action == EmailDraft ==> y.tables.approvals[id].status == Approved
    ensures Run(ClaimFlushes, y, steps) == Some(z) && Of(z, k).oks == Of(y, k).oks + 1 && Of(z, k).calls == Of(y, k).calls + 1
    ensures Unproposed(steps)
  {
    var g := GrantedAgain(y, k, w, id, subject, at);
    var ask := [] + [Authorise(w, id, subject, at)];
    EffectRuns.Extend(ClaimFlushes, y, [], Authorise(w, id, subject, at));
    var more;
    more, z := PerformedAgain(g, k, w);
    EffectRuns.Join(ClaimFlushes, y, ask, more);
    steps := ask + more;
  }

  lemma CanRepeat(s: State, k: Key) returns (steps: seq<Step>, z: State)
    requires HasSource(s.tables, k) && !Committed(s, k)
    ensures Unproposed(steps)
    ensures Run(ClaimFlushes, s, steps) == Some(z) && Of(z, k).oks == Of(s, k).oks + 1 && Of(z, k).calls == Of(s, k).calls + 1
  {
    var id, subject, at :| Source(s.tables, k, id, subject, at);
    var w, y := Died(s, k);
    var before, x := Reapproved(y, k, id, subject, at);
    EffectRuns.Join(ClaimFlushes, s, [Crash(w)], before);
    var more;
    more, z := GrantedAndPerformed(x, k, w, id, subject, at);
    EffectRuns.Join(ClaimFlushes, s, [Crash(w)] + before, more);
    steps := [Crash(w)] + before + more;
  }

  lemma {:induction false} FreshId(taken: set<nat>) returns (id: nat)
    ensures forall x :: x in taken ==> x < id
    decreases |taken|
  {
    if taken == {} {
      id := 0;
    } else {
      var x :| x in taken;
      id := FreshId(taken - {x});
      id := if x < id then id else x + 1;
      assert taken == taken - {x} + {x};
    }
  }

  /** The same effect asked for once more, by a new intervention. */
  lemma AskedAgain(s: State, k: Key) returns (step: Step, z: State)
    requires Askable(k)
    ensures step.Propose? && ProposeStep(s, step) == Some(z) && HasSource(z.tables, k)
    ensures z.rows == s.rows && z.history == s.history
  {
    var i, subject, at :| AsksFor(i, k, subject, at);
    var id := FreshId(s.tables.interventions.Keys);
    step := Propose(i.(id := id), Some(if k.action == EmailDraft then RequireApproval else Allow), "agent", at, 1);
    z := ProposeStep(s, step).value;
    assert Source(z.tables, k, id, subject, at);
  }

  lemma CanRepeatAfresh(s: State, k: Key) returns (steps: seq<Step>, z: State)
    requires Askable(k) && !Committed(s, k)
    ensures Run(ClaimFlushes, s, steps) == Some(z) && Of(z, k).oks == Of(s, k).oks + 1 && Of(z, k).calls == Of(s, k).calls + 1
  {
    var step, y := AskedAgain(s, k);
    EffectRuns.Extend(ClaimFlushes, s, [], step);
    var more;
    more, z := CanRepeat(y, k);
    EffectRuns.Join(ClaimFlushes, s, [] + [step], more);
    steps := [] + [step] + more;
  }

  // ---- exactly when ----

  predicate AnotherOk(s: State, k: Key, steps: seq<Step>) {
    Run(ClaimFlushes, s, steps).Some? && Of(Run(ClaimFlushes, s, steps).value, k).oks > Of(s, k).oks
  }

  predicate AnotherCall(s: State, k: Key, steps: seq<Step>) {
    Run(ClaimFlushes, s, steps).Some? && Of(Run(ClaimFlushes, s, steps).value, k).calls > Of(s, k).calls
  }

  /** As the code runs it: an effect whose key has been claimed can be performed, and answered ok, once more exactly when
      its row is not there or the pass that inserted it has not committed. So an effect already answered ok is safe from a
      second ok from the moment of the commit, and not a moment sooner. Where an intervention asking for it is on file,
      with no lapsed request if it needs one, nothing new has to be proposed for that. */
  lemma RepeatsExactlyUntilCommitted(s: State, k: Key)
    requires Reachable(ClaimFlushes, s) && Of(s, k).claims >= 1
    ensures (exists steps :: AnotherOk(s, k, steps)) <==> k !in s.rows || s.rows[k].uncommittedBy.Some?
    ensures (exists steps :: AnotherCall(s, k, steps)) <==> k !in s.rows || s.rows[k].uncommittedBy.Some?
    ensures HasSource(s.tables, k) ==>
              ((exists steps :: AnotherOk(s, k, steps) && Unproposed(steps)) <==> k !in s.rows || s.rows[k].uncommittedBy.Some?)
  {
    var past :| Run(ClaimFlushes, INITIAL, past) == Some(s);
    if Committed(s, k) {
      EffectFinality.FlushRunKeeps(past);
      forall steps ensures !AnotherOk(s, k, steps) && !AnotherCall(s, k, steps) {
        if Run(ClaimFlushes, s, steps).Some? {
          CommittedStaysPut(s, steps, k);
        }
      }
    } else {
      RunKeepsSourced(past);
      var steps, z := CanRepeatAfresh(s, k);
      assert AnotherOk(s, k, steps) && AnotherCall(s, k, steps);
      if HasSource(s.tables, k) {
        steps, z := CanRepeat(s, k);
        assert AnotherOk(s, k, steps);
      }
    }
  }

  /** A tool was called, or answered ok, only for a key that was claimed: the condition speaks of every such effect. */
  lemma AnsweredWasClaimed(s: State, k: Key)
    requires Reachable(ClaimFlushes, s) && (Of(s, k).oks >= 1 || Of(s, k).calls >= 1)
    ensures Of(s, k).claims >= 1
  {
    ClaimsAreConserved(ClaimFlushes, s, k);
  }

  /** No pass, overlapping or not, resumed or not, and no reconciliation writes a committed record again. */
  lemma CommittedRecordsAreFrozen(s: State, steps: seq<Step>, k: Key)
    requires Reachable(ClaimFlushes, s) && Committed(s, k) && Run(ClaimFlushes, s, steps).Some?
    ensures s.rows[k].record.status in {Succeeded, Failed}
    ensures
      var z := Run(ClaimFlushes, s, steps).value;
      && k in z.rows && z.rows[k].record == s.rows[k].record && Of(z, k) == Of(s, k)
  {
    var past :| Run(ClaimFlushes, INITIAL, past) == Some(s);
    EffectFinality.FlushRunKeeps(past);
    assert EffectFinality.RowSettled(s, k);
    CommittedStaysPut(s, steps, k);
  }
}
