/** Where a record's authority came from: stored and current policy, and a person other than the requester, in time. */
module EffectProvenance {
  import opened Vocabulary
  import opened Actions
  import opened Authorization
  import opened EffectProtocol
  import Approvals

  /** An approval row and the history of its first decision agree. A late sweep may have written EXPIRED over the decision,
      so only one direction speaks of the status. */
  ghost predicate ApprovalOk(s: State, id: nat) {
    id in s.tables.approvals ==>
      var a := s.tables.approvals[id];
      && (a.status in {Approved, Rejected} ==> id in s.firstDecisions)
      && (id in s.firstDecisions <==> a.decidedBy.Some?) && (id in s.firstDecisions <==> a.decidedAt.Some?)
      && (a.decidedBy.Some? ==> a.decidedBy.value != a.requestedBy)
      && (id in s.firstDecisions ==> s.firstDecisions[id].at < a.expiresAt && s.firstDecisions[id].actor != a.requestedBy)
  }

  /** An open decision passed its checks: somebody else's, and in time unless the request had been decided by then. */
  ghost predicate DecisionOk(s: State, e: Edit) {
    e in s.edits && e.DecisionEdit? ==>
      && e.id in s.tables.approvals
      && var a := s.tables.approvals[e.id];
         && e.seen.requestedBy == a.requestedBy && e.seen.expiresAt == a.expiresAt && e.actor != a.requestedBy
         && (e.seen.status in {Approved, Rejected} || e.seen.decidedBy.Some? || e.seen.decidedAt.Some? ==> e.id in s.firstDecisions)
         && (e.seen.status == Pending ==> e.at < a.expiresAt)
         && e.seen.status != Expired
  }

  ghost predicate TablesOk(s: State) {
    && (forall id :: ApprovalOk(s, id))
    && (forall e :: DecisionOk(s, e))
    && s.firstDecisions.Keys <= s.tables.approvals.Keys <= s.tables.interventions.Keys
    && s.tables.decisions.Keys <= s.tables.interventions.Keys
  }

  /** The permission behind one effect, as it stood when it was given. */
  ghost predicate Authorised(t: Tables, g: Grant, f: Facts) {
    && g.interventionId == g.evaluationId
    && g.evaluationId in t.decisions && t.decisions[g.evaluationId] == f.stored
    && g.interventionId in t.interventions
    && t.interventions[g.interventionId].action == Executable(g.action)
    && t.interventions[g.interventionId].targetRef == g.targetRef
    && f.stored == f.current == FreshDecision(Executable(g.action)) && f.current != Deny
    && (g.approvalId == if f.current == RequireApproval then Some(g.evaluationId) else None)
    && (f.current == RequireApproval ==>
          && f.approval.Some? && f.approval.value.status == Approved
          && f.approval.value.decidedBy.Some? && f.approval.value.decidedBy.value != f.approval.value.requestedBy
          && f.firstDecision.Some? && f.firstDecision.value.at < f.approval.value.expiresAt
          && f.firstDecision.value.actor != f.approval.value.requestedBy)
  }

  function GrantOf(r: ActionRecord): Grant {
    Grant(r.interventionId, r.action, r.targetRef, r.authorizedBy, r.approvalId)
  }

  ghost predicate Provenance(s: State) {
    && TablesOk(s)
    && (forall w :: w in s.workers && s.workers[w].Granted? ==>
          && Authorised(s.tables, s.workers[w].grant, s.workers[w].facts)
          && KeyMatches(s.workers[w].key, s.workers[w].grant))
    && (forall k :: k in s.rows ==>
          && Authorised(s.tables, GrantOf(s.rows[k].record), s.rows[k].facts)
          && KeyMatches(k, GrantOf(s.rows[k].record)))
  }

  predicate KeyMatches(k: Key, g: Grant) {
    k.action == g.action && k.targetRef == g.targetRef
  }

  /** Interventions and stored decisions are never rewritten. */
  ghost predicate Extends(t: Tables, u: Tables) {
    && (forall id :: id in t.interventions ==> id in u.interventions && u.interventions[id] == t.interventions[id])
    && (forall id :: id in t.decisions ==> id in u.decisions && u.decisions[id] == t.decisions[id])
  }

  ghost predicate TablesGrow(s: State, z: State) {
    TablesOk(z) && Extends(s.tables, z.tables) && z.workers == s.workers && z.rows == s.rows
  }

  predicate IsTableStep(step: Step) {
    step.Propose? || step.BeginDecision? || step.BeginLapse? || (step.Write? && !step.edit.AttestationEdit?)
  }

  lemma ProposeExtends(s: State, step: Step)
    requires TablesOk(s) && step.Propose? && ProposeStep(s, step).Some?
    ensures TablesGrow(s, ProposeStep(s, step).value)
  {
    var z := ProposeStep(s, step).value;
    forall id ensures ApprovalOk(z, id) {
      assert ApprovalOk(s, id);
    }
    forall e ensures DecisionOk(z, e) {
      assert DecisionOk(s, e);
    }
  }

  lemma BegunDecisionIsOk(s: State, step: Step)
    requires step.BeginDecision? && ApprovalOk(s, step.id) && step.id in s.tables.approvals
    requires Approvals.Decide(s.tables.approvals[step.id], step.approved, step.actor, step.at, step.note).1.None?
    ensures
      var e := DecisionEdit(step.session, step.id, s.tables.approvals[step.id], step.approved, step.actor, step.at, step.note);
      DecisionOk(s.(edits := s.edits + {e}), e)
  {
  }

  lemma BeginDecisionExtends(s: State, step: Step)
    requires TablesOk(s) && step.BeginDecision? && BeginDecisionStep(s, step).Some?
    ensures TablesGrow(s, BeginDecisionStep(s, step).value)
  {
    var z := BeginDecisionStep(s, step).value;
    assert z.tables == s.tables && z.firstDecisions == s.firstDecisions;
    forall id ensures ApprovalOk(z, id) {
      assert ApprovalOk(s, id);
    }
    forall e ensures DecisionOk(z, e) {
      assert DecisionOk(s, e);
      if e in z.edits && e !in s.edits {
        assert ApprovalOk(s, step.id);
        BegunDecisionIsOk(s, step);
      }
    }
  }

  lemma BeginLapseExtends(s: State, step: Step)
    requires TablesOk(s) && step.BeginLapse? && BeginLapseStep(s, step).Some?
    ensures TablesGrow(s, BeginLapseStep(s, step).value)
  {
    var z := BeginLapseStep(s, step).value;
    forall id ensures ApprovalOk(z, id) {
      assert ApprovalOk(s, id);
    }
    forall e ensures DecisionOk(z, e) {
      assert DecisionOk(s, e);
    }
  }

  lemma DecisionExtends(s: State, step: Step)
    requires TablesOk(s) && step.Write? && step.edit.DecisionEdit? && WriteStep(s, step).Some?
    ensures TablesGrow(s, WriteStep(s, step).value)
  {
    var z := WriteStep(s, step).value;
    assert DecisionOk(s, step.edit) && ApprovalOk(s, step.edit.id);
    forall id ensures ApprovalOk(z, id) {
      assert ApprovalOk(s, id);
    }
    forall e ensures DecisionOk(z, e) {
      assert DecisionOk(s, e);
    }
  }

  lemma LapseExtends(s: State, step: Step)
    requires TablesOk(s) && step.Write? && step.edit.LapseEdit? && WriteStep(s, step).Some?
    ensures TablesGrow(s, WriteStep(s, step).value)
  {
    var z := WriteStep(s, step).value;
    forall id ensures ApprovalOk(z, id) {
      assert ApprovalOk(s, id);
    }
    forall e ensures DecisionOk(z, e) {
      assert DecisionOk(s, e);
    }
  }

  lemma TableStepsExtend(s: State, step: Step)
    requires TablesOk(s) && IsTableStep(step) && Next(ClaimCommits, s, step).Some?
    ensures TablesGrow(s, Next(ClaimCommits, s, step).value)
  {
    if step.Propose? {
      ProposeExtends(s, step);
    } else if step.BeginDecision? {
      BeginDecisionExtends(s, step);
    } else if step.BeginLapse? {
      BeginLapseExtends(s, step);
    } else if step.edit.DecisionEdit? {
      DecisionExtends(s, step);
    } else {
      LapseExtends(s, step);
    }
  }

  lemma AuthoriseGivesAuthority(s: State, step: Step)
    requires TablesOk(s) && step.Authorise? && AuthoriseStep(s, step).Some? && AuthoriseStep(s, step).value != s
    ensures
      var z := AuthoriseStep(s, step).value;
      && z.tables == s.tables && z.rows == s.rows && z.firstDecisions == s.firstDecisions && z.edits == s.edits
      && step.w in z.workers && z.workers[step.w].Granted?
      && z.workers == s.workers[step.w := z.workers[step.w]]
      && Authorised(z.tables, z.workers[step.w].grant, z.workers[step.w].facts)
      && KeyMatches(z.workers[step.w].key, z.workers[step.w].grant)
  {
    GrantedExactly(s.tables, step.id, step.at);
    FreshDecisions(s.tables.interventions[step.id].action);
    assert ApprovalOk(s, step.id);
  }

  lemma RowStepKeeps(mode: Mode, s: State, step: Step)
    requires Provenance(s) && Next(mode, s, step).Some?
    requires Next(mode, s, step).value.tables == s.tables && Next(mode, s, step).value.firstDecisions == s.firstDecisions
    requires forall e: Edit :: e in Next(mode, s, step).value.edits && e.DecisionEdit? ==> e in s.edits
    requires forall w :: w in Next(mode, s, step).value.workers && Next(mode, s, step).value.workers[w].Granted? ==>
               w in s.workers && s.workers[w] == Next(mode, s, step).value.workers[w]
    ensures Provenance(Next(mode, s, step).value)
  {
    var z := Next(mode, s, step).value;
    IdentitiesNeverChange(mode, s, step);
    forall id ensures ApprovalOk(z, id) {
      assert ApprovalOk(s, id);
    }
    forall e ensures DecisionOk(z, e) {
      assert DecisionOk(s, e);
    }
    forall k | k in z.rows
      ensures Authorised(z.tables, GrantOf(z.rows[k].record), z.rows[k].facts) && KeyMatches(k, GrantOf(z.rows[k].record))
    {
      if k !in s.rows {
        assert Inserts(s, step, k, z.rows[k]);
        assert GrantOf(z.rows[k].record) == s.workers[step.w].grant;
      } else {
        assert Identity(z.rows[k].record) == Identity(s.rows[k].record);
        assert GrantOf(z.rows[k].record) == GrantOf(s.rows[k].record);
      }
    }
  }

  lemma AuthoriseKeeps(s: State, step: Step)
    requires Provenance(s) && step.Authorise? && AuthoriseStep(s, step).Some?
    ensures Provenance(AuthoriseStep(s, step).value)
  {
    if AuthoriseStep(s, step).value != s {
      AuthoriseGivesAuthority(s, step);
      var z := AuthoriseStep(s, step).value;
      forall id ensures ApprovalOk(z, id) {
        assert ApprovalOk(s, id);
      }
      forall e ensures DecisionOk(z, e) {
        assert DecisionOk(s, e);
      }
    }
  }

  lemma TableStepKeeps(s: State, step: Step)
    requires Provenance(s) && IsTableStep(step) && Next(ClaimCommits, s, step).Some?
    ensures Provenance(Next(ClaimCommits, s, step).value)
  {
    TableStepsExtend(s, step);
  }

  /** The steps of a worker that only move rows and workers. */
  lemma QuietSteps(mode: Mode, s: State, step: Step)
    requires !IsTableStep(step) && !step.Authorise? && Next(mode, s, step).Some?
    ensures
      var z := Next(mode, s, step).value;
      && z.tables == s.tables && z.firstDecisions == s.firstDecisions
      && (forall e: Edit :: e in z.edits && e.DecisionEdit? ==> e in s.edits)
      && forall w :: w in z.workers && z.workers[w].Granted? ==> w in s.workers && s.workers[w] == z.workers[w]
  {
  }

  lemma StepKeeps(mode: Mode, s: State, step: Step)
    requires Provenance(s) && Next(mode, s, step).Some?
    ensures Provenance(Next(mode, s, step).value)
  {
    if IsTableStep(step) {
      TableStepKeeps(s, step);
    } else if step.Authorise? {
      AuthoriseKeeps(s, step);
    } else {
      QuietSteps(mode, s, step);
      RowStepKeeps(mode, s, step);
    }
  }

  lemma {:induction false} RunKeeps(mode: Mode, steps: seq<Step>)
    requires Run(mode, INITIAL, steps).Some?
    ensures Provenance(Run(mode, INITIAL, steps).value)
    decreases |steps|
  {
    if steps != [] {
      var front := steps[..|steps| - 1];
      RunKeeps(mode, front);
      StepKeeps(mode, Run(mode, INITIAL, front).value, steps[|steps| - 1]);
    }
  }

  /** Every record in every reachable state, under either reading of the claim, was claimed under a grant: the stored
      decision is still on file and agreed with the policy of the moment, neither was a denial, and where approval was
      required the request read APPROVED, by a decision of someone other than the requester, and a second person had
      first decided it strictly before it expired. Its key and its target are the grant's. */
  lemma EveryRecordWasAuthorised(mode: Mode, s: State, k: Key)
    requires Reachable(mode, s) && k in s.rows
    ensures Authorised(s.tables, GrantOf(s.rows[k].record), s.rows[k].facts) && KeyMatches(k, GrantOf(s.rows[k].record))
    ensures s.rows[k].record.action != CrmFieldUpdate
  {
    var steps :| Run(mode, INITIAL, steps) == Some(s);
    RunKeeps(mode, steps);
    FreshDecisions(Executable(s.rows[k].record.action));
  }

  // ---- what can become of a request ----

  /** The status an open transaction will put on the request, if its update names that column at all. */
  function StatusWritten(e: Edit, id: nat): Option<ApprovalStatus> {
    match e
    case LapseEdit(_, other) => if other == id then Some(Expired) else None
    case DecisionEdit(_, other, seen, approved, _, _, _) =>
      var status := if approved then Approved else Rejected;
      if other == id && seen.status != status then Some(status) else None
    case AttestationEdit(_, _, _, _, _, _) => None
  }

  /** A request's status is what the last write to it says, and no other step of anybody touches it. */
  lemma RequestMoves(mode: Mode, s: State, step: Step, id: nat)
    requires TablesOk(s) && Next(mode, s, step).Some? && id in s.tables.approvals
    ensures
      var a, z := s.tables.approvals[id], Next(mode, s, step).value;
      && id in z.tables.approvals && z.tables.approvals[id].requestedBy == a.requestedBy
      && z.tables.approvals[id].status == if step.Write? then StatusWritten(step.edit, id).GetOr(a.status) else a.status
  {
    if step.Write? {
      assert DecisionOk(s, step.edit);
    }
  }

  /** An approval the grant relied on can stop reading APPROVED in exactly two ways: somebody else's decision against it
      lands, or a sweep that read it as pending before it was decided lands late. */
  lemma OnlyAReversalWithdraws(mode: Mode, s: State, step: Step, id: nat)
    requires TablesOk(s) && Next(mode, s, step).Some?
    requires id in s.tables.approvals && s.tables.approvals[id].status == Approved
    ensures
      var z := Next(mode, s, step).value;
      && id in z.tables.approvals
      && (z.tables.approvals[id].status != Approved <==>
            && step.Write?
            && match step.edit
               case LapseEdit(_, other) => other == id
               case DecisionEdit(_, other, seen, approved, _, _, _) => other == id && !approved && seen.status != Rejected
               case AttestationEdit(_, _, _, _, _, _) => false)
      && (step.Write? && step.edit.DecisionEdit? && step.edit.id == id ==> step.edit.actor != s.tables.approvals[id].requestedBy)
  {
    RequestMoves(mode, s, step, id);
    if step.Write? {
      assert DecisionOk(s, step.edit);
    }
  }

  // ---- the request at the moment of the claim ----

  /** The last status written to the request since worker w was last authorised. */
  function LastWrite(steps: seq<Step>, w: WorkerId, id: nat): Option<ApprovalStatus>
    decreases |steps|
  {
    if steps == [] then None
    else
      var last := steps[|steps| - 1];
      if last.Authorise? && last.w == w then None
      else if last.Write? && StatusWritten(last.edit, id).Some? then StatusWritten(last.edit, id)
      else LastWrite(steps[..|steps| - 1], w, id)
  }

  ghost predicate GrantReads(s: State, steps: seq<Step>, w: WorkerId) {
    w in s.workers && s.workers[w].Granted? && s.workers[w].grant.approvalId.Some? ==>
      var id := s.workers[w].grant.approvalId.value;
      && id in s.tables.approvals
      && s.tables.approvals[id].status == LastWrite(steps, w, id).GetOr(Approved)
  }

  /** A grant just given rests on a request that reads APPROVED. */
  lemma GrantReadsAtFirst(s: State, steps: seq<Step>, step: Step)
    requires step.Authorise? && AuthoriseStep(s, step).Some?
    ensures GrantReads(AuthoriseStep(s, step).value, steps + [step], step.w)
  {
    if AuthoriseStep(s, step).value != s {
      GrantedExactly(s.tables, step.id, step.at);
    }
  }

  lemma GrantStands(mode: Mode, s: State, step: Step, w: WorkerId)
    requires Next(mode, s, step).Some? && !(step.Authorise? && step.w == w)
    requires var z := Next(mode, s, step).value; w in z.workers && z.workers[w].Granted?
    ensures w in s.workers && s.workers[w] == Next(mode, s, step).value.workers[w]
  {
    if !IsTableStep(step) && !step.Authorise? {
      QuietSteps(mode, s, step);
    }
  }

  lemma GrantReadsNext(mode: Mode, s: State, steps: seq<Step>, step: Step, w: WorkerId)
    requires TablesOk(s) && Next(mode, s, step).Some? && !(step.Authorise? && step.w == w)
    requires GrantReads(s, steps, w)
    ensures GrantReads(Next(mode, s, step).value, steps + [step], w)
  {
    var z := Next(mode, s, step).value;
    assert (steps + [step])[..|steps + [step]| - 1] == steps;
    if w in z.workers && z.workers[w].Granted? && z.workers[w].grant.approvalId.Some? {
      GrantStands(mode, s, step, w);
      RequestMoves(mode, s, step, z.workers[w].grant.approvalId.value);
    }
  }

  lemma {:induction false} GrantReadsThroughout(mode: Mode, steps: seq<Step>, w: WorkerId)
    requires Run(mode, INITIAL, steps).Some?
    ensures GrantReads(Run(mode, INITIAL, steps).value, steps, w)
    decreases |steps|
  {
    if steps != [] {
      var front, last := steps[..|steps| - 1], steps[|steps| - 1];
      assert steps == front + [last];
      GrantReadsThroughout(mode, front, w);
      RunKeeps(mode, front);
      var s := Run(mode, INITIAL, front).value;
      if last.Authorise? && last.w == w {
        GrantReadsAtFirst(s, front, last);
      } else {
        GrantReadsNext(mode, s, front, last, w);
      }
    }
  }

  /** In every run, at the step that inserts a record resting on an approval, the request reads whatever was last written
      to it since the grant, so it reads APPROVED exactly when nothing was or the last write approved. */
  lemma ClaimedUnderApprovalIff(mode: Mode, steps: seq<Step>, claim: Step, k: Key, now: Instant)
    requires claim.Claim? && Run(mode, INITIAL, steps).Some? && Run(mode, INITIAL, steps + [claim]).Some?
    requires
      var s, z := Run(mode, INITIAL, steps).value, Run(mode, INITIAL, steps + [claim]).value;
      k in z.rows && k !in s.rows && z.rows[k].record.approvalId.Some?
    ensures
      var z := Run(mode, INITIAL, steps + [claim]).value;
      var id := z.rows[k].record.approvalId.value;
      && id in z.tables.approvals
      && (Approvals.EffectiveStatus(z.tables.approvals[id], now) == Approved
          <==> LastWrite(steps, claim.w, id) in {None, Some(Approved)})
  {
    assert (steps + [claim])[..|steps + [claim]| - 1] == steps;
    GrantReadsThroughout(mode, steps, claim.w);
    IdentitiesNeverChange(mode, Run(mode, INITIAL, steps).value, claim);
  }
}
