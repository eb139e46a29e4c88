/** When a recorded outcome is final: when passes and reconciliations do not overlap, when they do, and under the code's
    own transactions. */
module EffectFinality {
  import opened Vocabulary
  import opened Actions
  import opened EffectProtocol
  import opened EffectSafety
  import EffectRuns

  predicate Final(r: ActionRecord) {
    r.status in {Succeeded, Failed}
  }

  // ---- durable claims: nothing overlaps on a key ----

  /** No two passes are engaged on the same key, and no two reconciliations have the same record open. */
  ghost predicate Solo(s: State) {
    && (forall v, w :: (&& v in s.workers && w in s.workers && !s.workers[v].Granted? && !s.workers[w].Granted?
                        && s.workers[v].key == s.workers[w].key) ==> v == w)
    && (forall d, e :: OpenOn(s, d) && OpenOn(s, e) && d.key == e.key ==> d == e)
  }

  /** A reconciliation that has read its record and not written yet. */
  predicate OpenOn(s: State, e: Edit) {
    e in s.edits && e.AttestationEdit?
  }

  /** What an open reconciliation read is still so. */
  ghost predicate StillUnknown(s: State, e: Edit) {
    OpenOn(s, e) ==>
      && e.key in s.rows && s.rows[e.key].record.status == Indeterminate && s.rows[e.key].record.reconciledBy.None?
      && !IsBlank(e.actor) && !IsBlank(e.evidence)
  }

  /** What an engaged pass knows about its row is still so. */
  ghost predicate Knows(s: State, w: WorkerId) {
    w in s.workers && (PerformsAny(s.workers[w]) || (s.workers[w].Found? && s.workers[w].seen == Executing)) ==>
      s.workers[w].key in s.rows && s.rows[s.workers[w].key].record.status == Executing
  }

  ghost predicate Unattested(s: State, k: Key) {
    k in s.rows && s.rows[k].record.status in {Executing, Indeterminate} ==> s.rows[k].record.reconciledBy.None?
  }

  ghost predicate Settled(s: State) {
    && Inv(ClaimCommits, s) && Solo(s)
    && (forall w :: Knows(s, w))
    && (forall k :: Unattested(s, k))
    && (forall e :: StillUnknown(s, e))
  }

  lemma ClaimSettles(s: State, step: Step)
    requires Settled(s) && step.Claim? && Next(ClaimCommits, s, step).Some?
    requires Inv(ClaimCommits, Next(ClaimCommits, s, step).value) && Solo(Next(ClaimCommits, s, step).value)
    ensures Settled(Next(ClaimCommits, s, step).value)
  {
    var z := Next(ClaimCommits, s, step).value;
    forall w ensures Knows(z, w) {
      assert Knows(s, w) && WorkerOk(ClaimCommits, s, w);
    }
    forall k ensures Unattested(z, k) {
      assert Unattested(s, k);
    }
    forall e ensures StillUnknown(z, e) {
      assert StillUnknown(s, e);
    }
  }

  lemma CrashSettles(s: State, step: Step)
    requires Settled(s) && step.Crash?
    requires Inv(ClaimCommits, CrashStep(s, step).value)
    ensures Settled(CrashStep(s, step).value)
  {
    var z := CrashStep(s, step).value;
    forall k ensures k !in RolledBack(s, step.w) {
      assert KeyOk(ClaimCommits, s, k);
    }
    assert z.rows == s.rows;
    forall w ensures Knows(z, w) {
      assert Knows(s, w);
    }
    forall k ensures Unattested(z, k) {
      assert Unattested(s, k);
    }
    forall e ensures StillUnknown(z, e) {
      assert StillUnknown(s, e);
    }
  }

  lemma CallSettles(s: State, step: Step)
    requires Settled(s) && (step.Attempt? || step.Call?) && Next(ClaimCommits, s, step).Some?
    requires Inv(ClaimCommits, Next(ClaimCommits, s, step).value)
    ensures Settled(Next(ClaimCommits, s, step).value)
  {
    var z := Next(ClaimCommits, s, step).value;
    assert Knows(s, step.w);
    forall w ensures Knows(z, w) {
      assert Knows(s, w);
    }
    forall k ensures Unattested(z, k) {
      assert Unattested(s, k);
    }
    forall e ensures StillUnknown(z, e) {
      assert StillUnknown(s, e);
    }
  }

  lemma OutcomeSettles(s: State, step: Step)
    requires Settled(s) && (step.Resolve? || step.Record?) && Next(ClaimCommits, s, step).Some?
    requires Inv(ClaimCommits, Next(ClaimCommits, s, step).value)
    ensures Settled(Next(ClaimCommits, s, step).value)
  {
    var z := Next(ClaimCommits, s, step).value;
    assert Knows(s, step.w);
    forall w ensures Knows(z, w) {
      assert Knows(s, w);
    }
    forall k ensures Unattested(z, k) {
      assert Unattested(s, k);
    }
    forall e ensures StillUnknown(z, e) {
      assert StillUnknown(s, e);
    }
  }

  /** Rows stayed, engaged passes stayed or went, and no reconciliation was opened. */
  lemma UnmovedSettles(s: State, z: State)
    requires Settled(s) && Inv(ClaimCommits, z) && z.rows == s.rows
    requires forall w :: w in z.workers ==> z.workers[w].Granted? || (w in s.workers && z.workers[w] == s.workers[w])
    requires forall e :: OpenOn(z, e) ==> OpenOn(s, e)
    ensures Settled(z)
  {
    forall w ensures Knows(z, w) {
      assert Knows(s, w);
    }
    forall k ensures Unattested(z, k) {
      assert Unattested(s, k);
    }
    forall e ensures StillUnknown(z, e) {
      assert StillUnknown(s, e);
    }
  }

  lemma OtherSettles(s: State, step: Step)
    requires Settled(s) && Next(ClaimCommits, s, step).Some?
    requires step.Propose? || step.BeginDecision? || step.BeginLapse? || step.Authorise? || step.Commit?
             || (step.Write? && !step.edit.AttestationEdit?)
    requires Inv(ClaimCommits, Next(ClaimCommits, s, step).value)
    ensures Settled(Next(ClaimCommits, s, step).value)
  {
    var z := Next(ClaimCommits, s, step).value;
    if step.Commit? {
      forall k | k in s.rows ensures s.rows[k].uncommittedBy.None? {
        assert KeyOk(ClaimCommits, s, k);
      }
    }
    assert z.rows == s.rows;
    UnmovedSettles(s, z);
  }

  /** A reconciliation is opened only on a record that is unknown and unattested at that moment. */
  lemma BeginSettles(s: State, step: Step)
    requires Settled(s) && step.BeginAttestation? && BeginAttestationStep(s, step).Some?
    requires Inv(ClaimCommits, BeginAttestationStep(s, step).value) && Solo(BeginAttestationStep(s, step).value)
    ensures Settled(BeginAttestationStep(s, step).value)
  {
    var z := BeginAttestationStep(s, step).value;
    ReconcileExactly(s.rows[step.key].record, step.finding, step.actor, step.evidence, step.at);
    forall w ensures Knows(z, w) {
      assert Knows(s, w);
    }
    forall k ensures Unattested(z, k) {
      assert Unattested(s, k);
    }
    forall e ensures StillUnknown(z, e) {
      assert StillUnknown(s, e);
    }
  }

  lemma AttestationSettles(s: State, step: Step)
    requires Settled(s) && step.Write? && step.edit.AttestationEdit? && WriteStep(s, step).Some?
    requires Inv(ClaimCommits, WriteStep(s, step).value)
    ensures Settled(WriteStep(s, step).value)
  {
    var z := WriteStep(s, step).value;
    assert OpenOn(s, step.edit) && StillUnknown(s, step.edit);
    assert forall e :: OpenOn(z, e) ==> OpenOn(s, e) && e.key != step.edit.key;
    forall w ensures Knows(z, w) {
      assert Knows(s, w);
    }
    forall k ensures Unattested(z, k) {
      assert Unattested(s, k);
    }
    forall e ensures StillUnknown(z, e) {
      assert StillUnknown(s, e);
    }
  }

  lemma StepSettles(s: State, step: Step)
    requires Settled(s) && Next(ClaimCommits, s, step).Some? && Solo(Next(ClaimCommits, s, step).value)
    ensures Settled(Next(ClaimCommits, s, step).value)
  {
    StepKeeps(ClaimCommits, s, step);
    if step.Claim? {
      ClaimSettles(s, step);
    } else if step.Crash? {
      CrashSettles(s, step);
    } else if step.Attempt? || step.Call? {
      CallSettles(s, step);
    } else if step.Resolve? || step.Record? {
      OutcomeSettles(s, step);
    } else if step.BeginAttestation? {
      BeginSettles(s, step);
    } else if step.Write? && step.edit.AttestationEdit? {
      AttestationSettles(s, step);
    } else {
      OtherSettles(s, step);
    }
  }

  /** A run in which neither passes nor reconciliations of a key overlap. */
  ghost predicate SoloRun(steps: seq<Step>)
    decreases |steps|
  {
    && Run(ClaimCommits, INITIAL, steps).Some?
    && Solo(Run(ClaimCommits, INITIAL, steps).value)
    && (steps == [] || SoloRun(steps[..|steps| - 1]))
  }

  lemma {:induction false} SoloRunSettles(steps: seq<Step>)
    requires SoloRun(steps)
    ensures Settled(Run(ClaimCommits, INITIAL, steps).value)
    decreases |steps|
  {
    if steps != [] {
      var front := steps[..|steps| - 1];
      SoloRunSettles(front);
      StepSettles(Run(ClaimCommits, INITIAL, front).value, steps[|steps| - 1]);
    }
  }

  /** How one step may leave one record: a settled one exactly as it was, an unknown one either as it was or settled by a
      reconciliation with its actor, time and basis all recorded. */
  ghost predicate Faithful(s: State, step: Step, z: State, k: Key) {
    k in s.rows ==>
      && k in z.rows
      && (Final(s.rows[k].record) ==> z.rows[k].record == s.rows[k].record)
      && (s.rows[k].record.status == Indeterminate && z.rows[k].record != s.rows[k].record ==>
            var r := z.rows[k].record;
            && step.Write? && step.edit.AttestationEdit? && step.edit.key == k && Attested(r, step.edit)
            && !IsBlank(step.edit.actor) && !IsBlank(step.edit.evidence))
  }

  /** The record says what the reconciliation found, who found it, when, and on what basis. */
  predicate Attested(r: ActionRecord, e: Edit)
    requires e.AttestationEdit?
  {
    r.status == FindingStatus(e.finding) && Attestation(r) == WordsOf(e)
  }

  function Attestation(r: ActionRecord): (Option<string>, Option<Instant>, Option<string>) {
    (r.reconciledBy, r.reconciledAt, r.evidence)
  }

  function WordsOf(e: Edit): (Option<string>, Option<Instant>, Option<string>)
    requires e.AttestationEdit?
  {
    (Some(Strip(e.actor)), Some(e.at), Some(Strip(e.evidence)))
  }

  lemma WorkerStepIsFaithful(s: State, step: Step, k: Key)
    requires Settled(s) && (step.Resolve? || step.Attempt? || step.Call? || step.Record?) && Next(ClaimCommits, s, step).Some?
    ensures Faithful(s, step, Next(ClaimCommits, s, step).value, k)
  {
    assert Knows(s, step.w);
  }

  lemma SettledStepIsFaithful(s: State, step: Step, k: Key)
    requires Settled(s) && Next(ClaimCommits, s, step).Some?
    ensures Faithful(s, step, Next(ClaimCommits, s, step).value, k)
  {
    assert KeyOk(ClaimCommits, s, k) && Unattested(s, k);
    if step.Resolve? || step.Attempt? || step.Call? || step.Record? {
      WorkerStepIsFaithful(s, step, k);
    } else if step.Write? && step.edit.AttestationEdit? {
      assert OpenOn(s, step.edit) && StillUnknown(s, step.edit);
    } else if step.Crash? {
      assert k !in RolledBack(s, step.w);
    } else if step.Commit? {
    } else if !step.Claim? {
      assert Next(ClaimCommits, s, step).value.rows == s.rows;
    }
  }

  /** In every run in which neither passes nor reconciliations of a key overlap, a record that has SUCCEEDED or FAILED is
      never written again: whatever follows, resumes, reconciliations and crashes included, it stands unchanged. */
  lemma {:induction false} SettledRecordsAreFrozen(steps: seq<Step>, i: nat, k: Key)
    requires SoloRun(steps) && i <= |steps| && Run(ClaimCommits, INITIAL, steps[..i]).Some?
    requires var s := Run(ClaimCommits, INITIAL, steps[..i]).value; k in s.rows && Final(s.rows[k].record)
    ensures
      var s, z := Run(ClaimCommits, INITIAL, steps[..i]).value, Run(ClaimCommits, INITIAL, steps).value;
      k in z.rows && z.rows[k].record == s.rows[k].record
    decreases |steps|
  {
    if i == |steps| {
      assert steps[..i] == steps;
    } else {
      var front := steps[..|steps| - 1];
      assert front[..i] == steps[..i];
      SettledRecordsAreFrozen(front, i, k);
      SoloRunSettles(front);
      SettledStepIsFaithful(Run(ClaimCommits, INITIAL, front).value, steps[|steps| - 1], k);
      assert Faithful(Run(ClaimCommits, INITIAL, front).value, steps[|steps| - 1], Run(ClaimCommits, INITIAL, steps).value, k);
    }
  }

  // ---- durable claims: what overlap can do ----

  /** A pass about to write an outcome to a row that has moved on since it looked. */
  predicate StaleWriter(s: State, w: WorkerId, k: Key) {
    && w in s.workers && s.workers[w].key == k && k in s.rows
    && match s.workers[w]
       case Found(_, seen) => seen == Executing && s.rows[k].record.status != Indeterminate
       case Answered(_, attempt, _, answer) =>
         Verdict(attempt, answer).Some? && Verdict(attempt, answer).value != s.rows[k].record.status
       case _ => false
  }

  /** A reconciliation that read the record before it was settled, and found otherwise. */
  predicate StaleFinding(s: State, e: Edit, k: Key) {
    OpenOn(s, e) && e.key == k && k in s.rows && FindingStatus(e.finding) != s.rows[k].record.status
  }

  /** A settled status can move in the next step exactly when some live pass on the key is a stale writer, one that read
      the claim as open or is still performing an effect somebody else has since resolved, or some open reconciliation of
      it found otherwise. */
  lemma SettledStatusMovesIff(s: State, k: Key)
    requires Inv(ClaimCommits, s) && k in s.rows && Final(s.rows[k].record)
    ensures (exists step :: StatusMoves(s, step, k)) <==> (exists w :: StaleWriter(s, w, k)) || (exists e :: StaleFinding(s, e, k))
  {
    if w :| StaleWriter(s, w, k) {
      assert StatusMoves(s, if s.workers[w].Found? then Resolve(w) else Record(w), k);
    }
    if e :| StaleFinding(s, e, k) {
      assert StatusMoves(s, Write(e), k);
    }
    if step :| StatusMoves(s, step, k) {
      MovesByStaleWriter(s, step, k);
      assert if step.Write? then StaleFinding(s, step.edit, k) else StaleWriter(s, step.w, k);
    }
  }

  ghost predicate StatusMoves(s: State, step: Step, k: Key) {
    && k in s.rows && Next(ClaimCommits, s, step).Some? && k in Next(ClaimCommits, s, step).value.rows
    && Next(ClaimCommits, s, step).value.rows[k].record.status != s.rows[k].record.status
  }

  lemma MovesByStaleWriter(s: State, step: Step, k: Key)
    requires k in s.rows && Final(s.rows[k].record) && StatusMoves(s, step, k)
    ensures
      || ((step.Resolve? || step.Record?) && StaleWriter(s, step.w, k))
      || (step.Write? && StaleFinding(s, step.edit, k))
  {
  }

  // ---- over whole runs ----

  /** A live pass that can still leave the settled row with another status: it read the claim as open, it has yet to be
      answered, or its answer does not say what the row says. */
  predicate MayStillMove(s: State, w: WorkerId, k: Key) {
    && w in s.workers && s.workers[w].key == k && k in s.rows
    && match s.workers[w]
       case Granted(_, _, _, _, _) => false
       case Found(_, seen) => seen == Executing
       case Claimed(_, _, _) => true
       case Sending(_, _, _) => true
       case Answered(_, attempt, _, answer) => Verdict(attempt, answer) != Some(s.rows[k].record.status)
  }

  ghost predicate EndsElsewhere(s: State, steps: seq<Step>, k: Key)
    requires k in s.rows
  {
    && Run(ClaimCommits, s, steps).Some?
    && var z := Run(ClaimCommits, s, steps).value;
       k in z.rows && z.rows[k].record.status != s.rows[k].record.status
  }

  /** The row is settled and neither a live pass nor an open reconciliation can move it. */
  ghost predicate AtRest(s: State, k: Key, status: ActionStatus) {
    && k in s.rows && s.rows[k].record.status == status && status in {Succeeded, Failed}
    && (forall w :: !MayStillMove(s, w, k))
    && (forall e :: !StaleFinding(s, e, k))
  }

  lemma WorkerStepLeavesRest(s: State, step: Step, k: Key, status: ActionStatus)
    requires AtRest(s, k, status) && Next(ClaimCommits, s, step).Some?
    requires step.Claim? || step.Resolve? || step.Attempt? || step.Call? || step.Record?
    ensures AtRest(Next(ClaimCommits, s, step).value, k, status)
  {
    var z := Next(ClaimCommits, s, step).value;
    assert !MayStillMove(s, step.w, k);
    assert k in z.rows && z.rows[k].record.status == status;
    forall w ensures !MayStillMove(z, w, k) {
      assert !MayStillMove(s, w, k);
    }
    forall e ensures !StaleFinding(z, e, k) {
      assert !StaleFinding(s, e, k);
    }
  }

  lemma WriteLeavesRest(s: State, step: Step, k: Key, status: ActionStatus)
    requires AtRest(s, k, status) && step.Write? && WriteStep(s, step).Some?
    ensures AtRest(WriteStep(s, step).value, k, status)
  {
    var z := WriteStep(s, step).value;
    assert !StaleFinding(s, step.edit, k);
    assert k in z.rows && z.rows[k].record.status == status;
    forall w ensures !MayStillMove(z, w, k) {
      assert !MayStillMove(s, w, k);
    }
    forall e ensures !StaleFinding(z, e, k) {
      assert !StaleFinding(s, e, k);
    }
  }

  lemma RestStays(s: State, step: Step, k: Key, status: ActionStatus)
    requires Inv(ClaimCommits, s) && AtRest(s, k, status) && Next(ClaimCommits, s, step).Some?
    ensures AtRest(Next(ClaimCommits, s, step).value, k, status)
  {
    var z := Next(ClaimCommits, s, step).value;
    if step.Claim? || step.Resolve? || step.Attempt? || step.Call? || step.Record? {
      WorkerStepLeavesRest(s, step, k, status);
    } else if step.Write? {
      WriteLeavesRest(s, step, k, status);
    } else {
      assert KeyOk(ClaimCommits, s, k);
      assert k in z.rows && z.rows[k].record == s.rows[k].record;
      forall w ensures !MayStillMove(z, w, k) {
        assert !MayStillMove(s, w, k);
      }
      forall e ensures !StaleFinding(z, e, k) {
        assert !StaleFinding(s, e, k);
      }
    }
  }

  lemma {:induction false} RestForGood(s: State, steps: seq<Step>, k: Key, status: ActionStatus)
    requires Inv(ClaimCommits, s) && AtRest(s, k, status) && Run(ClaimCommits, s, steps).Some?
    ensures Inv(ClaimCommits, Run(ClaimCommits, s, steps).value) && AtRest(Run(ClaimCommits, s, steps).value, k, status)
    decreases |steps|
  {
    if steps != [] {
      var front := steps[..|steps| - 1];
      RestForGood(s, front, k, status);
      StepKeeps(ClaimCommits, Run(ClaimCommits, s, front).value, steps[|steps| - 1]);
      RestStays(Run(ClaimCommits, s, front).value, steps[|steps| - 1], k, status);
    }
  }

  /** An answer whose verdict is not the given status. */
  function Contrary(status: ActionStatus): Payload {
    Payload(status != Succeeded, None, Null)
  }

  lemma AnsweredContrary(s: State, before: seq<Step>, y: State, w: WorkerId, k: Key, attempt: nat, at: Instant)
    requires Run(ClaimCommits, s, before) == Some(y) && k in s.rows && k in y.rows && Final(s.rows[k].record)
    requires w in y.workers && y.workers[w] == Sending(k, attempt, at)
    ensures exists steps :: EndsElsewhere(s, steps, k)
  {
    var p := Contrary(s.rows[k].record.status);
    EffectRuns.Extend(ClaimCommits, s, before, Call(w, p));
    EffectRuns.Extend(ClaimCommits, s, before + [Call(w, p)], Record(w));
    assert EndsElsewhere(s, before + [Call(w, p)] + [Record(w)], k);
  }

  lemma SentContrary(s: State, before: seq<Step>, y: State, w: WorkerId, k: Key, attempt: nat, at: Instant)
    requires Run(ClaimCommits, s, before) == Some(y) && k in s.rows && k in y.rows && Final(s.rows[k].record)
    requires w in y.workers && y.workers[w] == Claimed(k, attempt, at)
    ensures exists steps :: EndsElsewhere(s, steps, k)
  {
    EffectRuns.Extend(ClaimCommits, s, before, Attempt(w));
    AnsweredContrary(s, before + [Attempt(w)], AttemptStep(y, Attempt(w)).value, w, k, attempt, at);
  }

  lemma CanMove(s: State, w: WorkerId, k: Key)
    requires k in s.rows && Final(s.rows[k].record) && MayStillMove(s, w, k)
    ensures exists steps :: EndsElsewhere(s, steps, k)
  {
    match s.workers[w]
    case Found(_, _) =>
      EffectRuns.Extend(ClaimCommits, s, [], Resolve(w));
      assert EndsElsewhere(s, [] + [Resolve(w)], k);
    case Claimed(_, attempt, at) => SentContrary(s, [], s, w, k, attempt, at);
    case Sending(_, attempt, at) => AnsweredContrary(s, [], s, w, k, attempt, at);
    case Answered(_, attempt, at, answer) =>
      EffectRuns.Extend(ClaimCommits, s, [], Record(w));
      if Verdict(attempt, answer).Some? {
        assert EndsElsewhere(s, [] + [Record(w)], k);
      } else {
        SentContrary(s, [] + [Record(w)], RecordStep(s, Record(w)).value, w, k, attempt + 1, at);
      }
  }

  /** With durable claims, a settled record can ever come to say something else, in any continuation, exactly when some
      live pass on its key read the claim as open or is still performing without an answer that says what the row says, or
      some reconciliation of it is still open with another finding. Once neither is left, none can appear, and the status
      stands for good. */
  lemma SettledStatusEverMovesIff(s: State, k: Key)
    requires Reachable(ClaimCommits, s) && k in s.rows && Final(s.rows[k].record)
    ensures (exists steps :: EndsElsewhere(s, steps, k)) <==>
            (exists w :: MayStillMove(s, w, k)) || (exists e :: StaleFinding(s, e, k))
  {
    var past :| Run(ClaimCommits, INITIAL, past) == Some(s);
    RunKeeps(ClaimCommits, past);
    if w :| MayStillMove(s, w, k) {
      CanMove(s, w, k);
    } else if e :| StaleFinding(s, e, k) {
      EffectRuns.Extend(ClaimCommits, s, [], Write(e));
      assert EndsElsewhere(s, [] + [Write(e)], k);
    } else {
      forall steps ensures !EndsElsewhere(s, steps, k) {
        if Run(ClaimCommits, s, steps).Some? {
          RestForGood(s, steps, k, s.rows[k].record.status);
        }
      }
    }
  }

  // ---- durable claims: whether an attestation is ever overwritten ----

  /** A reconciliation that read the record before it was attested, and says something else. */
  predicate Replaces(s: State, e: Edit, k: Key) {
    OpenOn(s, e) && e.key == k && k in s.rows && WordsOf(e) != Attestation(s.rows[k].record)
  }

  ghost predicate Kept(s: State, z: State, k: Key)
    requires k in s.rows
  {
    && k in z.rows && Attestation(z.rows[k].record) == Attestation(s.rows[k].record)
    && forall e :: !Replaces(z, e, k)
  }

  lemma WorkerLeavesAttestation(s: State, step: Step, k: Key)
    requires k in s.rows && Next(ClaimCommits, s, step).Some?
    requires step.Claim? || step.Resolve? || step.Attempt? || step.Call? || step.Record?
    ensures
      var z := Next(ClaimCommits, s, step).value;
      k in z.rows && Attestation(z.rows[k].record) == Attestation(s.rows[k].record) && z.edits == s.edits
  {
  }

  lemma AttestationStays(s: State, step: Step, k: Key)
    requires Inv(ClaimCommits, s) && k in s.rows && s.rows[k].record.reconciledBy.Some?
    requires (forall e :: !Replaces(s, e, k)) && Next(ClaimCommits, s, step).Some?
    ensures Kept(s, Next(ClaimCommits, s, step).value, k)
  {
    var z := Next(ClaimCommits, s, step).value;
    if step.Claim? || step.Resolve? || step.Attempt? || step.Call? || step.Record? {
      WorkerLeavesAttestation(s, step, k);
    } else if step.Write? {
      assert !Replaces(s, step.edit, k);
    } else {
      assert KeyOk(ClaimCommits, s, k);
    }
    assert k in z.rows && Attestation(z.rows[k].record) == Attestation(s.rows[k].record);
    forall e ensures !Replaces(z, e, k) {
      assert !Replaces(s, e, k);
    }
  }

  lemma {:induction false} AttestationStaysForGood(s: State, steps: seq<Step>, k: Key)
    requires Inv(ClaimCommits, s) && k in s.rows && s.rows[k].record.reconciledBy.Some?
    requires (forall e :: !Replaces(s, e, k)) && Run(ClaimCommits, s, steps).Some?
    ensures Inv(ClaimCommits, Run(ClaimCommits, s, steps).value) && Kept(s, Run(ClaimCommits, s, steps).value, k)
    decreases |steps|
  {
    if steps != [] {
      var front := steps[..|steps| - 1];
      AttestationStaysForGood(s, front, k);
      StepKeeps(ClaimCommits, Run(ClaimCommits, s, front).value, steps[|steps| - 1]);
      AttestationStays(Run(ClaimCommits, s, front).value, steps[|steps| - 1], k);
    }
  }

  ghost predicate Rewritten(s: State, steps: seq<Step>, k: Key)
    requires k in s.rows
  {
    && Run(ClaimCommits, s, steps).Some?
    && var z := Run(ClaimCommits, s, steps).value;
       k !in z.rows || Attestation(z.rows[k].record) != Attestation(s.rows[k].record)
  }

  /** An attestation is a record, not a draft, exactly this far: with durable claims, what an attested record says of its
      actor, instant and basis can ever be overwritten exactly when another reconciliation of the same key read it before
      it was attested, is still open, and says something else. */
  lemma AttestationIsOverwrittenIff(s: State, k: Key)
    requires Reachable(ClaimCommits, s) && k in s.rows && s.rows[k].record.reconciledBy.Some?
    ensures (exists steps :: Rewritten(s, steps, k)) <==> (exists e :: Replaces(s, e, k))
  {
    var past :| Run(ClaimCommits, INITIAL, past) == Some(s);
    RunKeeps(ClaimCommits, past);
    if e :| Replaces(s, e, k) {
      EffectRuns.Extend(ClaimCommits, s, [], Write(e));
      assert Rewritten(s, [] + [Write(e)], k);
    } else {
      forall steps ensures !Rewritten(s, steps, k) {
        if Run(ClaimCommits, s, steps).Some? {
          AttestationStaysForGood(s, steps, k);
        }
      }
    }
  }

  // ---- claims inside one transaction: nothing is ever left unknown ----

  /** What others can see is settled; only the pass that owns a row can see it open. */
  ghost predicate RowSettled(s: State, k: Key) {
    k in s.rows ==>
      var e := s.rows[k];
      && e.record.reconciledBy.None?
      && (if e.uncommittedBy.Some? && e.uncommittedBy.value in s.workers && Performs(s.workers[e.uncommittedBy.value], k)
          then e.record.status == Executing else Final(e.record))
  }

  ghost predicate FlushInv(s: State) {
    && Inv(ClaimFlushes, s)
    && (forall k :: RowSettled(s, k))
    && (forall w :: w in s.workers && s.workers[w].Found? ==> s.workers[w].seen in {Succeeded, Failed})
    && (forall e :: !OpenOn(s, e))
  }

  lemma FlushWorkerStep(s: State, step: Step)
    requires FlushInv(s) && (step.Claim? || step.Resolve? || step.Attempt? || step.Call? || step.Record?)
    requires Next(ClaimFlushes, s, step).Some? && Inv(ClaimFlushes, Next(ClaimFlushes, s, step).value)
    ensures FlushInv(Next(ClaimFlushes, s, step).value)
  {
    var z := Next(ClaimFlushes, s, step).value;
    var key := s.workers[step.w].key;
    assert WorkerOk(ClaimFlushes, s, step.w) && RowSettled(s, key);
    assert forall e :: OpenOn(z, e) <==> OpenOn(s, e);
    forall k ensures RowSettled(z, k) {
      assert RowSettled(s, k);
    }
  }

  lemma FlushCommitOrCrash(s: State, step: Step)
    requires FlushInv(s) && (step.Commit? || step.Crash?)
    requires Next(ClaimFlushes, s, step).Some? && Inv(ClaimFlushes, Next(ClaimFlushes, s, step).value)
    ensures FlushInv(Next(ClaimFlushes, s, step).value)
  {
    var z := Next(ClaimFlushes, s, step).value;
    assert forall e :: OpenOn(z, e) <==> OpenOn(s, e);
    forall k ensures RowSettled(z, k) {
      assert RowSettled(s, k);
    }
  }

  lemma NothingOpens(s: State, step: Step)
    requires FlushInv(s) && Next(ClaimFlushes, s, step).Some? && (step.BeginAttestation? || step.Write?)
    ensures Next(ClaimFlushes, s, step).value.rows == s.rows && Next(ClaimFlushes, s, step).value.workers == s.workers
    ensures forall e :: !OpenOn(Next(ClaimFlushes, s, step).value, e)
  {
    if step.BeginAttestation? {
      assert RowSettled(s, step.key);
    } else {
      assert !OpenOn(s, step.edit);
    }
    forall e ensures !OpenOn(Next(ClaimFlushes, s, step).value, e) {
      assert !OpenOn(s, e);
    }
  }

  lemma FlushOtherStep(s: State, step: Step)
    requires FlushInv(s) && Next(ClaimFlushes, s, step).Some? && Inv(ClaimFlushes, Next(ClaimFlushes, s, step).value)
    requires !(step.Claim? || step.Resolve? || step.Attempt? || step.Call? || step.Record? || step.Commit? || step.Crash?)
    ensures FlushInv(Next(ClaimFlushes, s, step).value) && Next(ClaimFlushes, s, step).value.rows == s.rows
  {
    var z := Next(ClaimFlushes, s, step).value;
    if step.BeginAttestation? || step.Write? {
      NothingOpens(s, step);
    } else {
      forall e ensures !OpenOn(z, e) {
        assert !OpenOn(s, e);
      }
    }
    forall k ensures RowSettled(z, k) {
      assert RowSettled(s, k);
    }
  }

  lemma FlushStepKeeps(s: State, step: Step)
    requires FlushInv(s) && Next(ClaimFlushes, s, step).Some?
    ensures FlushInv(Next(ClaimFlushes, s, step).value)
  {
    StepKeeps(ClaimFlushes, s, step);
    if step.Claim? || step.Resolve? || step.Attempt? || step.Call? || step.Record? {
      FlushWorkerStep(s, step);
    } else if step.Commit? || step.Crash? {
      FlushCommitOrCrash(s, step);
    } else {
      FlushOtherStep(s, step);
    }
  }

  lemma {:induction false} FlushRunKeeps(steps: seq<Step>)
    requires Run(ClaimFlushes, INITIAL, steps).Some?
    ensures FlushInv(Run(ClaimFlushes, INITIAL, steps).value)
    decreases |steps|
  {
    if steps != [] {
      var front := steps[..|steps| - 1];
      FlushRunKeeps(front);
      FlushStepKeeps(Run(ClaimFlushes, INITIAL, front).value, steps[|steps| - 1]);
    }
  }

  /** With the claim only flushed, no reachable state holds an INDETERMINATE record, every committed record has SUCCEEDED
      or FAILED, no pass ever finds an open claim, and every reconciliation is refused, so none is ever open: the explicit unknown the protocol
      is built around cannot arise, because the crash that would leave it also takes the claim away. */
  lemma FlushedClaimsAreNeverUnknown(s: State, k: Key)
    requires Reachable(ClaimFlushes, s) && k in s.rows
    ensures s.rows[k].record.status != Indeterminate
    ensures s.rows[k].uncommittedBy.None? ==> Final(s.rows[k].record)
    ensures forall w :: w in s.workers && s.workers[w].Found? ==> s.workers[w].seen in {Succeeded, Failed}
    ensures forall f, actor, evidence, at :: Reconcile(s.rows[k].record, f, actor, evidence, at) == Err(NotIndeterminate)
    ensures forall e :: !OpenOn(s, e)
  {
    var steps :| Run(ClaimFlushes, INITIAL, steps) == Some(s);
    FlushRunKeeps(steps);
    assert RowSettled(s, k);
  }
}
