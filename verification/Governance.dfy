/** Writing ranked interventions, the decision about each, and the approval requests some of them need. */
module Governance {
  import opened Vocabulary
  import Approvals
  import Policy
  import opened Ranking

  const POLICY_ACTOR := "agent:policy_and_risk"
  const DEFAULT_APPROVAL_TTL := MICROS_PER_DAY

  datatype InterventionRow = InterventionRow(
    run: nat, rank: nat, title: string, action: ProposedAction, target: string,
    value: nat, effort: nat, risk: nat, composite: nat)

  /** `intervention` is a row number of the interventions table. */
  datatype EvaluationRow = EvaluationRow(intervention: nat, outcome: Policy.Outcome, at: Instant)

  datatype Tables = Tables(interventions: seq<InterventionRow>, evaluations: seq<EvaluationRow>, approvals: seq<Approvals.Approval>)

  datatype Evaluated = Evaluated(draft: Draft, outcome: Policy.Outcome)

  // ---- the policy agent ----

  function Decision(d: Draft): Policy.Outcome {
    Policy.Evaluate(Policy.ActionValue(d.action), d.fields)
  }

  function EvaluateInterventions(ranked: seq<Ranked>): seq<Evaluated> {
    seq(|ranked|, i requires 0 <= i < |ranked| => Evaluated(ranked[i].draft, Decision(ranked[i].draft)))
  }

  // ---- persistence ----

  function DecisionsByTitle(decided: seq<Evaluated>): map<string, Policy.Outcome> {
    if decided == [] then map[]
    else
      var last := decided[|decided| - 1];
      DecisionsByTitle(decided[..|decided| - 1])[last.draft.title := last.outcome]
  }

  function RowFor(run: nat, rank: nat, item: Ranked): InterventionRow {
    InterventionRow(run, rank, item.draft.title, item.draft.action, item.draft.target,
                    item.score.value, item.score.effort, item.score.risk, item.score.composite)
  }

  function PutRow(t: Tables, run: nat, rank: nat, item: Ranked, decisions: map<string, Policy.Outcome>, at: Instant): Tables {
    var interventions := t.interventions + [RowFor(run, rank, item)];
    if item.draft.title !in decisions then t.(interventions := interventions)
    else
      var outcome := decisions[item.draft.title];
      Tables(interventions,
             t.evaluations + [EvaluationRow(|t.interventions|, outcome, at)],
             t.approvals + if outcome.decision == RequireApproval
                           then [Approvals.Requested(|t.evaluations|, POLICY_ACTOR, at, DEFAULT_APPROVAL_TTL)]
                           else [])
  }

  function Persisted(t: Tables, run: nat, ranked: seq<Ranked>, decisions: map<string, Policy.Outcome>, at: Instant): Tables {
    if ranked == [] then t
    else PutRow(Persisted(t, run, ranked[..|ranked| - 1], decisions, at), run, |ranked|, ranked[|ranked| - 1], decisions, at)
  }

  class GovernanceStore {
    var tables: Tables

    constructor ()
      ensures tables == Tables([], [], [])
    {
      tables := Tables([], [], []);
    }

    method PersistGovernance(run: nat, ranked: seq<Ranked>, decided: seq<Evaluated>, at: Instant)
      returns (interventions: nat, evaluations: nat, approvals: nat)
      modifies this
      ensures tables == Persisted(old(tables), run, ranked, DecisionsByTitle(decided), at)
      ensures |tables.interventions| == |old(tables).interventions| + interventions
      ensures |tables.evaluations| == |old(tables).evaluations| + evaluations
      ensures |tables.approvals| == |old(tables).approvals| + approvals
    {
      var decisions := DecisionsByTitle(decided);
      interventions, evaluations, approvals := 0, 0, 0;
      for i := 0 to |ranked|
        invariant tables == Persisted(old(tables), run, ranked[..i], decisions, at)
        invariant |tables.interventions| == |old(tables).interventions| + interventions
        invariant |tables.evaluations| == |old(tables).evaluations| + evaluations
        invariant |tables.approvals| == |old(tables).approvals| + approvals
      {
        assert ranked[..i + 1][..i] == ranked[..i];
        var item := ranked[i];
        var row := |tables.interventions|;
        tables := tables.(interventions := tables.interventions + [RowFor(run, i + 1, item)]);
        interventions := interventions + 1;
        if item.draft.title !in decisions {
          continue;
        }
        var outcome := decisions[item.draft.title];
        var evaluation := |tables.evaluations|;
        tables := tables.(evaluations := tables.evaluations + [EvaluationRow(row, outcome, at)]);
        evaluations := evaluations + 1;
        if outcome.decision == RequireApproval {
          tables := tables.(approvals := tables.approvals + [Approvals.Requested(evaluation, POLICY_ACTOR, at, DEFAULT_APPROVAL_TTL)]);
          approvals := approvals + 1;
        }
      }
      assert ranked[..|ranked|] == ranked;
    }
  }

  // ---- what the rows say, given the outcome meant for each ----

  function Outcomes(ranked: seq<Ranked>): seq<Policy.Outcome> {
    seq(|ranked|, i requires 0 <= i < |ranked| => Decision(ranked[i].draft))
  }

  ghost predicate OneDecisionEach(ranked: seq<Ranked>, decisions: map<string, Policy.Outcome>, outcomes: seq<Policy.Outcome>) {
    && |ranked| == |outcomes|
    && forall i :: 0 <= i < |ranked| ==> ranked[i].draft.title in decisions && decisions[ranked[i].draft.title] == outcomes[i]
  }

  /** The row has its rank, the words of the draft and the numbers of the score. */
  predicate RowSays(row: InterventionRow, run: nat, rank: nat, item: Ranked) {
    && row.run == run && row.rank == rank
    && row.title == item.draft.title && row.action == item.draft.action && row.target == item.draft.target
    && row.value == item.score.value && row.effort == item.score.effort && row.risk == item.score.risk
    && row.composite == item.score.composite
  }

  /** New rows follow the old ones: row k has rank k + 1 and its own draft and score, and its own decision. */
  ghost predicate RowsFollow(t: Tables, z: Tables, run: nat, ranked: seq<Ranked>, outcomes: seq<Policy.Outcome>, at: Instant)
    requires |ranked| == |outcomes|
  {
    var n, e := |t.interventions|, |t.evaluations|;
    && |z.interventions| == n + |ranked| && |z.evaluations| == e + |ranked|
    && z.interventions[..n] == t.interventions && z.evaluations[..e] == t.evaluations
    && (forall k :: 0 <= k < |ranked| ==> RowSays(z.interventions[n + k], run, k + 1, ranked[k]))
    && (forall k :: 0 <= k < |ranked| ==> z.evaluations[e + k] == EvaluationRow(n + k, outcomes[k], at))
  }

  /** New requests follow the old ones: each asks about a new evaluation that requires approval. Evaluation numbers
      start at e. */
  ghost predicate RequestsFollow(before: seq<Approvals.Approval>, after: seq<Approvals.Approval>, e: nat,
                                 outcomes: seq<Policy.Outcome>, at: Instant)
  {
    && |before| <= |after| && after[..|before|] == before
    && forall j :: |before| <= j < |after| ==>
         && e <= after[j].evaluation < e + |outcomes|
         && outcomes[after[j].evaluation - e].decision == RequireApproval
         && after[j] == Approvals.Approval(after[j].evaluation, Pending, "agent:policy_and_risk", at, at + 86_400_000_000,
                                           None, None, None)
  }

  /** No two new requests ask about the same evaluation, and none that requires approval goes without one. */
  ghost predicate OneRequestEach(a: nat, after: seq<Approvals.Approval>, e: nat, outcomes: seq<Policy.Outcome>) {
    && (forall i, j :: a <= i < j < |after| ==> after[i].evaluation != after[j].evaluation)
    && (forall k :: 0 <= k < |outcomes| && outcomes[k].decision == RequireApproval ==> Asked(after, a, e + k))
  }

  ghost predicate Asked(approvals: seq<Approvals.Approval>, a: nat, evaluation: nat) {
    exists j :: a <= j < |approvals| && approvals[j].evaluation == evaluation
  }

  lemma {:induction false} PersistedRows(t: Tables, run: nat, ranked: seq<Ranked>, decisions: map<string, Policy.Outcome>,
                                         outcomes: seq<Policy.Outcome>, at: Instant)
    requires OneDecisionEach(ranked, decisions, outcomes)
    ensures RowsFollow(t, Persisted(t, run, ranked, decisions, at), run, ranked, outcomes, at)
  {
    if ranked != [] {
      PersistedRows(t, run, ranked[..|ranked| - 1], decisions, outcomes[..|ranked| - 1], at);
    }
  }

  function Asking(evaluation: nat, outcome: Policy.Outcome, at: Instant): seq<Approvals.Approval> {
    if outcome.decision == RequireApproval
    then [Approvals.Requested(evaluation, POLICY_ACTOR, at, DEFAULT_APPROVAL_TTL)]
    else []
  }

  lemma RequestsFollowStep(before: seq<Approvals.Approval>, after: seq<Approvals.Approval>, e: nat,
                           outcomes: seq<Policy.Outcome>, outcome: Policy.Outcome, at: Instant)
    requires RequestsFollow(before, after, e, outcomes, at)
    ensures RequestsFollow(before, after + Asking(e + |outcomes|, outcome, at), e, outcomes + [outcome], at)
  {
  }

  lemma OneRequestStep(before: seq<Approvals.Approval>, after: seq<Approvals.Approval>, e: nat,
                       outcomes: seq<Policy.Outcome>, outcome: Policy.Outcome, at: Instant)
    requires RequestsFollow(before, after, e, outcomes, at) && OneRequestEach(|before|, after, e, outcomes)
    ensures OneRequestEach(|before|, after + Asking(e + |outcomes|, outcome, at), e, outcomes + [outcome])
  {
    var z := after + Asking(e + |outcomes|, outcome, at);
    forall k | 0 <= k < |outcomes| + 1 && (outcomes + [outcome])[k].decision == RequireApproval
      ensures Asked(z, |before|, e + k)
    {
      if k < |outcomes| {
        assert Asked(after, |before|, e + k);
        var j :| |before| <= j < |after| && after[j].evaluation == e + k;
        assert z[j].evaluation == e + k;
      } else {
        assert z[|after|].evaluation == e + k;
      }
    }
  }

  lemma LastRequest(t: Tables, run: nat, ranked: seq<Ranked>, decisions: map<string, Policy.Outcome>,
                    outcomes: seq<Policy.Outcome>, at: Instant)
    requires ranked != [] && OneDecisionEach(ranked, decisions, outcomes)
    ensures Persisted(t, run, ranked, decisions, at).approvals
            == Persisted(t, run, ranked[..|ranked| - 1], decisions, at).approvals
               + Asking(|t.evaluations| + |ranked| - 1, outcomes[|ranked| - 1], at)
  {
    PersistedRows(t, run, ranked[..|ranked| - 1], decisions, outcomes[..|ranked| - 1], at);
  }

  ghost predicate RequestsRight(before: seq<Approvals.Approval>, after: seq<Approvals.Approval>, e: nat,
                                outcomes: seq<Policy.Outcome>, at: Instant)
  {
    RequestsFollow(before, after, e, outcomes, at) && OneRequestEach(|before|, after, e, outcomes)
  }

  lemma RequestsStep(before: seq<Approvals.Approval>, after: seq<Approvals.Approval>, e: nat,
                     outcomes: seq<Policy.Outcome>, at: Instant)
    requires outcomes != [] && RequestsRight(before, after, e, outcomes[..|outcomes| - 1], at)
    ensures RequestsRight(before, after + Asking(e + |outcomes| - 1, outcomes[|outcomes| - 1], at), e, outcomes, at)
  {
    var some, last := outcomes[..|outcomes| - 1], outcomes[|outcomes| - 1];
    RequestsFollowStep(before, after, e, some, last, at);
    OneRequestStep(before, after, e, some, last, at);
    assert some + [last] == outcomes;
  }

  lemma {:induction false} PersistedRequests(t: Tables, run: nat, ranked: seq<Ranked>, decisions: map<string, Policy.Outcome>,
                                             outcomes: seq<Policy.Outcome>, at: Instant)
    requires OneDecisionEach(ranked, decisions, outcomes)
    ensures RequestsRight(t.approvals, Persisted(t, run, ranked, decisions, at).approvals, |t.evaluations|, outcomes, at)
  {
    if ranked != [] {
      var front := ranked[..|ranked| - 1];
      assert OneDecisionEach(front, decisions, outcomes[..|ranked| - 1]);
      PersistedRequests(t, run, front, decisions, outcomes[..|ranked| - 1], at);
      LastRequest(t, run, ranked, decisions, outcomes, at);
      RequestsStep(t.approvals, Persisted(t, run, front, decisions, at).approvals, |t.evaluations|, outcomes, at);
    }
  }

  lemma {:induction false} EvaluatedHolds(ranked: seq<Ranked>, drafts: seq<Draft>, i: nat)
    requires DistinctTitles(drafts) && i < |ranked|
    requires forall k :: 0 <= k < |ranked| ==> ranked[k].draft in drafts
    ensures
      var decisions := DecisionsByTitle(EvaluateInterventions(ranked));
      ranked[i].draft.title in decisions && decisions[ranked[i].draft.title] == Outcomes(ranked)[i]
  {
    var front, last := ranked[..|ranked| - 1], ranked[|ranked| - 1];
    assert EvaluateInterventions(ranked)[..|ranked| - 1] == EvaluateInterventions(front);
    if last.draft.title == ranked[i].draft.title {
      SameTitleSameDraft(drafts, last.draft, ranked[i].draft);
    } else {
      EvaluatedHolds(front, drafts, i);
    }
  }

  /** From the drafts to the tables: each of the kept interventions is written at ranks 1, 2, 3 ... with the score and
      the policy outcome of its own draft, and the approval requests written are one for each REQUIRE_APPROVAL row. */
  lemma GovernanceRowsAreRight(t: Tables, run: nat, drafts: seq<Draft>, atRisk: int, weighted: int, keep: nat, at: Instant)
    requires DistinctTitles(drafts) && drafts != [] && RankDrafts(drafts, atRisk, weighted, keep).Ok?
    ensures weighted > 0 && atRisk >= 0
    ensures
      var ranked := RankDrafts(drafts, atRisk, weighted, keep).value;
      var z := Persisted(t, run, ranked, DecisionsByTitle(EvaluateInterventions(ranked)), at);
      && OwnScores(ranked, drafts, atRisk, weighted)
      && RowsFollow(t, z, run, ranked, Outcomes(ranked), at)
      && RequestsRight(t.approvals, z.approvals, |t.evaluations|, Outcomes(ranked), at)
  {
    KeptAreTheBest(drafts, atRisk, weighted, keep);
    RowsOf(t, run, drafts, RankDrafts(drafts, atRisk, weighted, keep).value, at);
  }

  lemma RowsOf(t: Tables, run: nat, drafts: seq<Draft>, ranked: seq<Ranked>, at: Instant)
    requires DistinctTitles(drafts) && forall k :: 0 <= k < |ranked| ==> ranked[k].draft in drafts
    ensures
      var z := Persisted(t, run, ranked, DecisionsByTitle(EvaluateInterventions(ranked)), at);
      && RowsFollow(t, z, run, ranked, Outcomes(ranked), at)
      && RequestsRight(t.approvals, z.approvals, |t.evaluations|, Outcomes(ranked), at)
  {
    var decisions, outcomes := DecisionsByTitle(EvaluateInterventions(ranked)), Outcomes(ranked);
    assert OneDecisionEach(ranked, decisions, outcomes) by {
      forall i | 0 <= i < |ranked|
        ensures ranked[i].draft.title in decisions && decisions[ranked[i].draft.title] == outcomes[i]
      {
        EvaluatedHolds(ranked, drafts, i);
      }
    }
    PersistedRows(t, run, ranked, decisions, outcomes, at);
    PersistedRequests(t, run, ranked, decisions, outcomes, at);
  }
}
