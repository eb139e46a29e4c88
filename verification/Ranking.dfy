/** Scoring and ranking drafted interventions. Money is in cents, scores in hundredths; the model supplies only bands. */
module Ranking {
  import opened Vocabulary
  import opened Rounding
  import opened Sorting
  import Policy

  datatype Band = Low | Medium | High

  datatype Draft = Draft(title: string, action: ProposedAction, recovery: Band, effort: Band, target: string, fields: seq<string>)

  datatype Scored = Scored(title: string, action: ProposedAction, value: nat, effort: nat, risk: nat, tier: RiskTier, composite: nat)

  datatype Ranked = Ranked(draft: Draft, score: Scored)

  datatype ScoringError = NegativeAtRisk | NoWeightedValue

  const TOP_INTERVENTIONS := 3

  // ---- scores ----

  /** The share of the at-risk value, in hundredths. */
  function RecoveryShare(b: Band): nat {
    match b case Low => 10 case Medium => 30 case High => 50
  }

  function EffortScore(b: Band): nat {
    match b case Low => 1 case Medium => 2 case High => 4
  }

  function RiskScore(tier: RiskTier): nat {
    if tier == READ_OR_COMPUTE then 0
    else if tier == INTERNAL_REVERSIBLE then 1
    else if tier == CUSTOMER_FACING_OR_MATERIAL then 3
    else 10
  }

  function ExpectedValue(atRisk: nat, recovery: Band): nat {
    HalfEven(atRisk * RecoveryShare(recovery), 100)
  }

  /** Value per unit of effort and risk, as a percentage of the weighted value, to the hundredth. */
  function Composite(value: nat, burden: nat, weighted: nat): nat
    requires weighted > 0 && burden > 0
  {
    HalfEven(value * 10_000, weighted * burden)
  }

  function Burden(effort: Band, tier: RiskTier): (r: nat)
    ensures r >= 2
  {
    EffortScore(effort) + RiskScore(tier) + 1
  }

  function TierOf(d: Draft): RiskTier {
    Policy.Classify(Policy.ActionValue(d.action), d.fields).0
  }

  function ScoreOf(d: Draft, atRisk: nat, weighted: nat): Scored
    requires weighted > 0
  {
    var tier := TierOf(d);
    var value := ExpectedValue(atRisk, d.recovery);
    Scored(d.title, d.action, value, EffortScore(d.effort), RiskScore(tier), tier,
           Composite(value, Burden(d.effort, tier), weighted))
  }

  function Scores(drafts: seq<Draft>, atRisk: nat, weighted: nat): (r: seq<Scored>)
    requires weighted > 0
  {
    seq(|drafts|, i requires 0 <= i < |drafts| => ScoreOf(drafts[i], atRisk, weighted))
  }

  // ---- order ----

  /** Highest composite, then highest value, then the action's spelling, then the title. */
  predicate RankLeq(a: Scored, b: Scored) {
    if a.composite != b.composite then a.composite > b.composite
    else if a.value != b.value then a.value > b.value
    else if a.action != b.action then StringLeq(Policy.ActionValue(a.action), Policy.ActionValue(b.action))
    else StringLeq(a.title, b.title)
  }

  lemma SpellingsDiffer(a: ProposedAction, b: ProposedAction)
    requires Policy.ActionValue(a) == Policy.ActionValue(b)
    ensures a == b
  {
    assert Policy.ParseAction(Policy.ActionValue(a)) == Some(a);
    assert Policy.ParseAction(Policy.ActionValue(b)) == Some(b);
  }

  lemma RankLeqTotal()
    ensures Total(RankLeq)
  {
    forall a: Scored, b: Scored ensures RankLeq(a, b) || RankLeq(b, a) {
      StringLeqTotal(Policy.ActionValue(a.action), Policy.ActionValue(b.action));
      StringLeqTotal(a.title, b.title);
    }
  }

  lemma RankLeqChains(a: Scored, b: Scored, c: Scored)
    requires RankLeq(a, b) && RankLeq(b, c)
    ensures RankLeq(a, c)
  {
    if a.composite == b.composite == c.composite && a.value == b.value == c.value {
      if a.action == b.action == c.action {
        StringLeqTransitive(a.title, b.title, c.title);
      } else if a.action != b.action && b.action != c.action {
        var x, y, z := Policy.ActionValue(a.action), Policy.ActionValue(b.action), Policy.ActionValue(c.action);
        StringLeqTransitive(x, y, z);
        if a.action == c.action {
          StringLeqAntisymmetric(x, y);
          SpellingsDiffer(a.action, b.action);
        }
      }
    }
  }

  lemma RankLeqTransitive()
    ensures Transitive(RankLeq)
  {
    forall a: Scored, b: Scored, c: Scored | RankLeq(a, b) && RankLeq(b, c) ensures RankLeq(a, c) {
      RankLeqChains(a, b, c);
    }
  }

  lemma RankLeqTies(a: Scored, b: Scored)
    requires RankLeq(a, b) && RankLeq(b, a)
    ensures a.title == b.title && a.action == b.action
  {
    if a.action != b.action {
      StringLeqAntisymmetric(Policy.ActionValue(a.action), Policy.ActionValue(b.action));
      SpellingsDiffer(a.action, b.action);
    } else {
      StringLeqAntisymmetric(a.title, b.title);
    }
  }

  // ---- ranking ----

  ghost predicate DistinctTitles(drafts: seq<Draft>) {
    forall i, j :: 0 <= i < j < |drafts| ==> drafts[i].title != drafts[j].title
  }

  /** A later draft of the same title replaces an earlier one. */
  function ByTitle(drafts: seq<Draft>): map<string, Draft> {
    if drafts == [] then map[]
    else ByTitle(drafts[..|drafts| - 1])[drafts[|drafts| - 1].title := drafts[|drafts| - 1]]
  }

  function Paired(scored: seq<Scored>, drafts: map<string, Draft>): (r: seq<Ranked>)
  {
    if scored == [] then []
    else (if scored[0].title in drafts then [Ranked(drafts[scored[0].title], scored[0])] else []) + Paired(scored[1..], drafts)
  }

  function Kept<T>(xs: seq<T>, keep: nat): seq<T> {
    if keep < |xs| then xs[..keep] else xs
  }

  function RankDrafts(drafts: seq<Draft>, atRisk: int, weighted: int, keep: nat := TOP_INTERVENTIONS): Result<seq<Ranked>, ScoringError> {
    if drafts != [] && atRisk < 0 then Err(NegativeAtRisk)
    else if drafts != [] && weighted <= 0 then Err(NoWeightedValue)
    else if drafts == [] then Ok([])
    else Ok(Paired(Kept(Sort(RankLeq, Scores(drafts, atRisk, weighted)), keep), ByTitle(drafts)))
  }

  // ---- pairing ----

  lemma {:induction false} ByTitleFinds(drafts: seq<Draft>, i: nat)
    requires DistinctTitles(drafts) && i < |drafts|
    ensures drafts[i].title in ByTitle(drafts) && ByTitle(drafts)[drafts[i].title] == drafts[i]
  {
    if i < |drafts| - 1 {
      ByTitleFinds(drafts[..|drafts| - 1], i);
    }
  }

  lemma {:induction false} ByTitleHolds(drafts: seq<Draft>, t: string)
    requires t in ByTitle(drafts)
    ensures exists i :: 0 <= i < |drafts| && drafts[i].title == t && ByTitle(drafts)[t] == drafts[i]
  {
    var last := drafts[|drafts| - 1];
    if last.title != t {
      ByTitleHolds(drafts[..|drafts| - 1], t);
    }
  }

  ghost predicate AllFrom(scored: seq<Scored>, drafts: seq<Draft>, atRisk: nat, weighted: nat)
    requires weighted > 0
  {
    forall i :: 0 <= i < |scored| ==> exists d :: d in drafts && scored[i] == ScoreOf(d, atRisk, weighted)
  }

  lemma SortedAreFrom(drafts: seq<Draft>, atRisk: nat, weighted: nat)
    requires weighted > 0
    ensures AllFrom(Sort(RankLeq, Scores(drafts, atRisk, weighted)), drafts, atRisk, weighted)
  {
    var xs := Scores(drafts, atRisk, weighted);
    var ys := Sort(RankLeq, xs);
    SortPermutes(RankLeq, xs);
    forall i | 0 <= i < |ys| ensures exists d :: d in drafts && ys[i] == ScoreOf(d, atRisk, weighted) {
      assert ys[i] in multiset(xs);
      var j :| 0 <= j < |xs| && xs[j] == ys[i];
      assert drafts[j] in drafts;
    }
  }

  lemma ScoreFindsItsDraft(x: Scored, drafts: seq<Draft>, atRisk: nat, weighted: nat)
    requires weighted > 0 && DistinctTitles(drafts) && exists d :: d in drafts && x == ScoreOf(d, atRisk, weighted)
    ensures x.title in ByTitle(drafts)
    ensures ByTitle(drafts)[x.title] in drafts && x == ScoreOf(ByTitle(drafts)[x.title], atRisk, weighted)
  {
    var d :| d in drafts && x == ScoreOf(d, atRisk, weighted);
    var i :| 0 <= i < |drafts| && drafts[i] == d;
    ByTitleFinds(drafts, i);
  }

  /** Every score meets its own draft again, and no other. */
  lemma {:induction false} PairedRight(scored: seq<Scored>, drafts: seq<Draft>, atRisk: nat, weighted: nat)
    requires weighted > 0 && DistinctTitles(drafts) && AllFrom(scored, drafts, atRisk, weighted)
    ensures
      var r := Paired(scored, ByTitle(drafts));
      && |r| == |scored|
      && forall i :: 0 <= i < |r| ==> r[i].score == scored[i] && r[i].draft in drafts
                                      && r[i].score == ScoreOf(r[i].draft, atRisk, weighted)
  {
    if scored != [] {
      ScoreFindsItsDraft(scored[0], drafts, atRisk, weighted);
      PairedRight(scored[1..], drafts, atRisk, weighted);
    }
  }

  predicate Holds(rows: seq<Ranked>, d: Draft) {
    exists i :: 0 <= i < |rows| && rows[i].draft == d
  }

  ghost predicate OwnScores(rows: seq<Ranked>, drafts: seq<Draft>, atRisk: nat, weighted: nat)
    requires weighted > 0
  {
    forall i :: 0 <= i < |rows| ==> rows[i].draft in drafts && rows[i].score == ScoreOf(rows[i].draft, atRisk, weighted)
  }

  /** Read key by key: the higher composite first, on equal composites the higher value, then the action's spelling,
      then the title. */
  predicate Precedes(a: Scored, b: Scored) {
    && a.composite >= b.composite
    && (a.composite == b.composite ==> a.value >= b.value)
    && (a.composite == b.composite && a.value == b.value ==>
          && StringLeq(Policy.ActionValue(a.action), Policy.ActionValue(b.action))
          && (a.action == b.action ==> StringLeq(a.title, b.title)))
  }

  lemma RankLeqPrecedes(a: Scored, b: Scored)
    ensures RankLeq(a, b) <==> Precedes(a, b)
  {
    StringLeqTotal(Policy.ActionValue(a.action), Policy.ActionValue(a.action));
    if a.action != b.action {
      assert Policy.ActionValue(a.action) != Policy.ActionValue(b.action) by {
        if Policy.ActionValue(a.action) == Policy.ActionValue(b.action) {
          SpellingsDiffer(a.action, b.action);
        }
      }
    }
  }

  ghost predicate InRankOrder(rows: seq<Ranked>) {
    forall i, j :: 0 <= i < j < |rows| ==> Precedes(rows[i].score, rows[j].score)
  }

  ghost predicate NoneBetterLeftOut(rows: seq<Ranked>, drafts: seq<Draft>, atRisk: nat, weighted: nat)
    requires weighted > 0
  {
    forall d, i :: d in drafts && 0 <= i < |rows| ==> Precedes(rows[i].score, ScoreOf(d, atRisk, weighted)) || Holds(rows, d)
  }

  lemma SameTitleSameDraft(drafts: seq<Draft>, a: Draft, b: Draft)
    requires DistinctTitles(drafts) && a in drafts && b in drafts && a.title == b.title
    ensures a == b
  {
    var i :| 0 <= i < |drafts| && drafts[i] == a;
    var j :| 0 <= j < |drafts| && drafts[j] == b;
    if i < j {
    } else if j < i {
    }
  }

  lemma ScoreIsSomewhere(drafts: seq<Draft>, d: Draft, atRisk: nat, weighted: nat) returns (k: nat)
    requires weighted > 0 && d in drafts
    ensures k < |Sort(RankLeq, Scores(drafts, atRisk, weighted))|
    ensures Sort(RankLeq, Scores(drafts, atRisk, weighted))[k] == ScoreOf(d, atRisk, weighted)
  {
    var xs := Scores(drafts, atRisk, weighted);
    SortPermutes(RankLeq, xs);
    var j :| 0 <= j < |drafts| && drafts[j] == d;
    assert xs[j] in multiset(Sort(RankLeq, xs));
    k :| 0 <= k < |Sort(RankLeq, xs)| && Sort(RankLeq, xs)[k] == xs[j];
  }

  lemma DroppedRankLower(drafts: seq<Draft>, atRisk: nat, weighted: nat, keep: nat, d: Draft, i: nat)
    requires DistinctTitles(drafts) && d in drafts && weighted > 0
    requires Sorted(RankLeq, Sort(RankLeq, Scores(drafts, atRisk, weighted)))
    ensures
      var rows := Paired(Kept(Sort(RankLeq, Scores(drafts, atRisk, weighted)), keep), ByTitle(drafts));
      i < |rows| ==> RankLeq(rows[i].score, ScoreOf(d, atRisk, weighted)) || Holds(rows, d)
  {
    var sorted := Sort(RankLeq, Scores(drafts, atRisk, weighted));
    SortedAreFrom(drafts, atRisk, weighted);
    PairedRight(Kept(sorted, keep), drafts, atRisk, weighted);
    var rows := Paired(Kept(sorted, keep), ByTitle(drafts));
    var k := ScoreIsSomewhere(drafts, d, atRisk, weighted);
    if k < |rows| {
      assert rows[k].draft.title == d.title;
      SameTitleSameDraft(drafts, rows[k].draft, d);
    }
  }

  lemma RowsAreTheBest(drafts: seq<Draft>, atRisk: nat, weighted: nat, keep: nat)
    requires DistinctTitles(drafts) && weighted > 0
    ensures
      var rows := Paired(Kept(Sort(RankLeq, Scores(drafts, atRisk, weighted)), keep), ByTitle(drafts));
      && |rows| == (if keep < |drafts| then keep else |drafts|)
      && OwnScores(rows, drafts, atRisk, weighted)
      && InRankOrder(rows)
      && NoneBetterLeftOut(rows, drafts, atRisk, weighted)
  {
    var sorted := Sort(RankLeq, Scores(drafts, atRisk, weighted));
    SortedAreFrom(drafts, atRisk, weighted);
    PairedRight(Kept(sorted, keep), drafts, atRisk, weighted);
    RankLeqTotal();
    RankLeqTransitive();
    SortSorted(RankLeq, Scores(drafts, atRisk, weighted));
    var rows := Paired(Kept(sorted, keep), ByTitle(drafts));
    forall i, j | 0 <= i < j < |rows| ensures Precedes(rows[i].score, rows[j].score) {
      RankLeqPrecedes(rows[i].score, rows[j].score);
    }
    forall d, i | d in drafts && 0 <= i < |rows|
      ensures Precedes(rows[i].score, ScoreOf(d, atRisk, weighted)) || Holds(rows, d)
    {
      DroppedRankLower(drafts, atRisk, weighted, keep, d, i);
      RankLeqPrecedes(rows[i].score, ScoreOf(d, atRisk, weighted));
    }
  }

  /** What a draft scores, in plain numbers: a tenth, three tenths or a half of the value at risk, to the nearest cent;
      and that value as a percentage of the weighted value, divided by effort and risk and one, to the nearest hundredth.
      Both go to the even neighbour when two are equally near. */
  lemma ScoreIsTheFormula(d: Draft, atRisk: nat, weighted: nat)
    requires weighted > 0
    ensures
      var s := ScoreOf(d, atRisk, weighted);
      var share := if d.recovery.Low? then 10 else if d.recovery.Medium? then 30 else 50;
      && (s.title, s.action, s.tier) == (d.title, d.action, TierOf(d))
      && s.effort == (if d.effort.Low? then 1 else if d.effort.Medium? then 2 else 4)
      && s.risk == (if s.tier == 0 then 0 else if s.tier == 1 then 1 else if s.tier == 2 then 3 else 10)
      && NearestEven(s.value, atRisk * share, 100)
      && NearestEven(s.composite, s.value * 10_000, weighted * (s.effort + s.risk + 1))
  {
    var s := ScoreOf(d, atRisk, weighted);
    HalfEvenIsNearest(atRisk * RecoveryShare(d.recovery), 100);
    HalfEvenIsNearest(s.value * 10_000, weighted * Burden(d.effort, s.tier));
  }

  /** No whole number is nearer to n / d than q, and if another is as near, q is the even one. */
  ghost predicate NearestEven(q: nat, n: nat, d: nat) {
    var gap := 2 * n - 2 * (q * d);
    0 <= gap + d && gap <= d && (gap == d || gap + d == 0 ==> q % 2 == 0)
  }

  /** The tier each action is scored at. */
  lemma TierOfEachAction(d: Draft)
    ensures
      match d.action
      case Executable(CrmTask) => TierOf(d) == 1
      case Executable(SlackApprovalRequest) => TierOf(d) == 1
      case Executable(EmailDraft) => TierOf(d) == 2
      case Executable(CrmFieldUpdate) =>
        && (TierOf(d) == 3 <==> d.fields == [] || exists f :: f in d.fields && f !in Policy.MATERIAL_FIELDS + Policy.NON_MATERIAL_FIELDS)
        && (TierOf(d) <= 1 <==> d.fields != [] && forall f :: f in d.fields ==> f in Policy.NON_MATERIAL_FIELDS)
      case SendEmailDirect => TierOf(d) == 3
      case RecordDelete => TierOf(d) == 3
  {
    Policy.FieldUpdateDecision(d.fields);
  }

  /** The kept rows are in rank order, each carries the score computed from its own draft, and every draft left out
      ranks no higher than any kept. There is an error exactly when there is something to score and no figure to
      score it with. */
  lemma KeptAreTheBest(drafts: seq<Draft>, atRisk: int, weighted: int, keep: nat)
    requires DistinctTitles(drafts)
    ensures
      var r := RankDrafts(drafts, atRisk, weighted, keep);
      && (r.Ok? <==> drafts == [] || (atRisk >= 0 && weighted > 0))
      && (r.Ok? && drafts != [] ==>
            && |r.value| == (if keep < |drafts| then keep else |drafts|)
            && OwnScores(r.value, drafts, atRisk, weighted)
            && InRankOrder(r.value)
            && NoneBetterLeftOut(r.value, drafts, atRisk, weighted))
  {
    if drafts != [] && atRisk >= 0 && weighted > 0 {
      RowsAreTheBest(drafts, atRisk, weighted, keep);
    }
  }

  /** Unless told otherwise it keeps three. */
  lemma ThreeAreKept(drafts: seq<Draft>, atRisk: int, weighted: int)
    requires DistinctTitles(drafts) && atRisk >= 0 && weighted > 0
    ensures
      var r := RankDrafts(drafts, atRisk, weighted);
      r.Ok? && |r.value| == if |drafts| < 3 then |drafts| else 3
  {
    KeptAreTheBest(drafts, atRisk, weighted, TOP_INTERVENTIONS);
  }

  // ---- the order drafts were written in ----

  lemma ScoresPermute(drafts: seq<Draft>, others: seq<Draft>, atRisk: nat, weighted: nat)
    requires weighted > 0 && multiset(drafts) == multiset(others)
    ensures multiset(Scores(drafts, atRisk, weighted)) == multiset(Scores(others, atRisk, weighted))
  {
    var f := (d: Draft) => ScoreOf(d, atRisk, weighted);
    MapPermutes(f, drafts, others);
    assert Scores(drafts, atRisk, weighted) == Map(f, drafts);
    assert Scores(others, atRisk, weighted) == Map(f, others);
  }

  lemma SameDraftsSameTitles(drafts: seq<Draft>, others: seq<Draft>)
    requires DistinctTitles(drafts) && DistinctTitles(others) && multiset(drafts) == multiset(others)
    ensures ByTitle(drafts) == ByTitle(others)
  {
    forall t | t in ByTitle(drafts) ensures t in ByTitle(others) && ByTitle(others)[t] == ByTitle(drafts)[t] {
      TitleCarriesOver(drafts, others, t);
    }
    forall t | t in ByTitle(others) ensures t in ByTitle(drafts) {
      TitleCarriesOver(others, drafts, t);
    }
  }

  lemma TitleCarriesOver(drafts: seq<Draft>, others: seq<Draft>, t: string)
    requires DistinctTitles(others) && multiset(drafts) == multiset(others) && t in ByTitle(drafts)
    ensures t in ByTitle(others) && ByTitle(others)[t] == ByTitle(drafts)[t]
  {
    ByTitleHolds(drafts, t);
    var i :| 0 <= i < |drafts| && drafts[i].title == t && ByTitle(drafts)[t] == drafts[i];
    assert drafts[i] in multiset(others);
    var j :| 0 <= j < |others| && others[j] == drafts[i];
    ByTitleFinds(others, j);
  }

  lemma DistinctScores(drafts: seq<Draft>, atRisk: nat, weighted: nat)
    requires weighted > 0 && DistinctTitles(drafts)
    ensures Separates(RankLeq, Scores(drafts, atRisk, weighted))
  {
    var xs := Scores(drafts, atRisk, weighted);
    forall x, y | x in xs && y in xs && RankLeq(x, y) && RankLeq(y, x) ensures x == y {
      RankLeqTies(x, y);
      var i :| 0 <= i < |xs| && xs[i] == x;
      var j :| 0 <= j < |xs| && xs[j] == y;
      SameTitleSameDraft(drafts, drafts[i], drafts[j]);
    }
  }

  /** The ranking does not depend on the order the model happened to write its drafts in. */
  lemma RankingIgnoresDraftOrder(drafts: seq<Draft>, others: seq<Draft>, atRisk: int, weighted: int, keep: nat)
    requires DistinctTitles(drafts) && DistinctTitles(others) && multiset(drafts) == multiset(others)
    ensures RankDrafts(drafts, atRisk, weighted, keep) == RankDrafts(others, atRisk, weighted, keep)
  {
    assert |drafts| == |multiset(drafts)| == |multiset(others)| == |others|;
    if drafts != [] && atRisk >= 0 && weighted > 0 {
      ScoresPermute(drafts, others, atRisk, weighted);
      SameDraftsSameTitles(drafts, others);
      DistinctScores(drafts, atRisk, weighted);
      RankLeqTotal();
      RankLeqTransitive();
      SortIgnoresInputOrder(RankLeq, Scores(drafts, atRisk, weighted), Scores(others, atRisk, weighted));
    }
  }
}
