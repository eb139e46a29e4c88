/** The at-risk figure: four half-up roundings to the cent. Money is in whole cents, inputs are exact reals. */
module Impact {
  import opened Vocabulary
  import opened RiskBands

  datatype PipelineImpact = PipelineImpact(pipeline: int, weighted: int, gross: int, atRisk: int, factor: nat, offset: nat)

  /** Half-up to a whole number of cents. Nothing negative reaches it. */
  function ToCents(cents: real): int {
    (cents + 0.5).Floor
  }

  /** A part of a whole number of cents, rounded again. */
  function PartOf(cents: int, part: real): int {
    ToCents(cents as real * part)
  }

  function Ratio(tenThousandths: int): real {
    tenThousandths as real / 10_000.0
  }

  function Figures(amount: real, probability: real, factor: nat, offset: nat): PipelineImpact {
    var pipeline := ToCents(amount * 100.0);
    var weighted := PartOf(pipeline, probability);
    var gross := PartOf(weighted, Ratio(factor));
    var atRisk := PartOf(gross, Ratio(WHOLE - offset));
    PipelineImpact(pipeline, weighted, gross, atRisk, factor, offset)
  }

  function Calculate(amount: real, probability: real, days: int, stage: Stage, growth: real)
    : Result<PipelineImpact, CalculationError>
  {
    if amount < 0.0 then Err(NegativeAmount)
    else if !(0.0 <= probability <= 1.0) then Err(ProbabilityOutOfRange)
    else
      var factor := StallFactor(days, stage);
      if factor.Err? then Err(factor.error)
      else Ok(Figures(amount, probability, factor.value, Offset(growth)))
  }

  predicate ValidInputs(amount: real, probability: real, days: int, stage: Stage) {
    amount >= 0.0 && 0.0 <= probability <= 1.0 && days >= 0 && Open(stage)
  }

  // ---- rounding ----

  lemma ToCentsIsNearest(x: real)
    ensures x - 0.5 < ToCents(x) as real <= x + 0.5
  {
  }

  lemma ToCentsMonotone(x: real, y: real)
    requires x <= y
    ensures ToCents(x) <= ToCents(y)
  {
  }

  lemma ProductsKeepOrder(a: real, x: real, b: real, y: real)
    requires 0.0 <= a <= b && 0.0 <= x <= y
    ensures a * x <= b * y
  {
    assert b * y - a * x == b * (y - x) + (b - a) * x;
    assert b * (y - x) >= 0.0 && (b - a) * x >= 0.0;
  }

  /** A part of so many cents rounds to no more of them, and to no fewer than none. */
  lemma PartStaysWithin(cents: int, part: real)
    requires cents >= 0 && 0.0 <= part <= 1.0
    ensures 0 <= PartOf(cents, part) <= cents
  {
    var product := cents as real * part;
    assert 0.0 <= product <= cents as real by {
      ProductsKeepOrder(0.0, 0.0, cents as real, part);
      ProductsKeepOrder(cents as real, part, cents as real, 1.0);
    }
    ToCentsMonotone(0.0, product);
    ToCentsMonotone(product, cents as real);
  }

  lemma PartMonotone(a: int, x: real, b: int, y: real)
    requires 0 <= a <= b && 0.0 <= x <= y
    ensures PartOf(a, x) <= PartOf(b, y)
  {
    ProductsKeepOrder(a as real, x, b as real, y);
    ToCentsMonotone(a as real * x, b as real * y);
  }

  // ---- order ----

  lemma FiguresOrdered(amount: real, probability: real, factor: nat, offset: nat)
    requires amount >= 0.0 && 0.0 <= probability <= 1.0 && factor <= WHOLE && offset <= WHOLE
    ensures var f := Figures(amount, probability, factor, offset); 0 <= f.atRisk <= f.gross <= f.weighted <= f.pipeline
  {
    var p := ToCents(amount * 100.0);
    ToCentsMonotone(0.0, amount * 100.0);
    var w := PartOf(p, probability);
    PartStaysWithin(p, probability);
    var g := PartOf(w, Ratio(factor));
    PartStaysWithin(w, Ratio(factor));
    PartStaysWithin(g, Ratio(WHOLE - offset));
  }

  /** A figure is given for exactly the valid inputs, and the four figures never change order. */
  lemma FiguresAreOrdered(amount: real, probability: real, days: int, stage: Stage, growth: real)
    ensures
      var r := Calculate(amount, probability, days, stage, growth);
      && (r.Ok? <==> ValidInputs(amount, probability, days, stage))
      && (r.Ok? ==> 0 <= r.value.atRisk <= r.value.gross <= r.value.weighted <= r.value.pipeline)
  {
    var factor := StallFactor(days, stage);
    if ValidInputs(amount, probability, days, stage) {
      CapNeverBinds(days, stage);
      FiguresOrdered(amount, probability, factor.value, Offset(growth));
    }
  }

  // ---- monotonicity ----

  lemma FiguresMonotone(amount: real, amount': real, probability: real, probability': real,
                        factor: nat, factor': nat, offset: nat, offset': nat)
    requires 0.0 <= amount <= amount' && 0.0 <= probability <= probability' <= 1.0
    requires factor <= factor' <= WHOLE && offset' <= offset <= WHOLE
    ensures Figures(amount, probability, factor, offset).atRisk <= Figures(amount', probability', factor', offset').atRisk
  {
    FiguresOrdered(amount, probability, factor, offset);
    ToCentsMonotone(amount * 100.0, amount' * 100.0);
    var p, p' := ToCents(amount * 100.0), ToCents(amount' * 100.0);
    PartMonotone(p, probability, p', probability');
    var w, w' := PartOf(p, probability), PartOf(p', probability');
    PartMonotone(w, Ratio(factor), w', Ratio(factor'));
    var g, g' := PartOf(w, Ratio(factor)), PartOf(w', Ratio(factor'));
    PartMonotone(g, Ratio(WHOLE - offset), g', Ratio(WHOLE - offset'));
  }

  /** A larger deal, a likelier one, a longer silence or slower usage growth never lowers the at-risk figure, through
      both tables and all four roundings at once. */
  lemma AtRiskMonotone(amount: real, amount': real, probability: real, probability': real, days: int, days': int,
                       growth: real, growth': real, stage: Stage)
    requires ValidInputs(amount, probability, days, stage) && ValidInputs(amount', probability', days', stage)
    requires amount <= amount' && probability <= probability' && days <= days' && growth >= growth'
    ensures
      var r, r' := Calculate(amount, probability, days, stage, growth), Calculate(amount', probability', days', stage, growth');
      r.Ok? && r'.Ok? && r.value.atRisk <= r'.value.atRisk
  {
    FactorMonotone(days, days', stage);
    CapNeverBinds(days', stage);
    FiguresMonotone(amount, amount', probability, probability', StallFactor(days, stage).value, StallFactor(days', stage).value,
                    Offset(growth), Offset(growth'));
  }

  // ---- error ----

  /** The at-risk value with no rounding at all, in cents. */
  function Unrounded(amount: real, probability: real, factor: nat, offset: nat): real {
    UnroundedGross(amount, probability, factor) * Ratio(WHOLE - offset)
  }

  /** Half up: the whole number that x lies less than a half above, or at most a half below. */
  predicate HalfUp(q: int, x: real) {
    x - 0.5 < q as real <= x + 0.5
  }

  lemma PartIsRounded(cents: int, part: real)
    ensures HalfUp(PartOf(cents, part), cents as real * part)
  {
    ToCentsIsNearest(cents as real * part);
  }

  /** Each figure is the last one's part, rounded half up to the cent. */
  ghost predicate IsChain(f: PipelineImpact, amount: real, probability: real) {
    && HalfUp(f.pipeline, amount * 100.0)
    && HalfUp(f.weighted, f.pipeline as real * probability)
    && HalfUp(f.gross, f.weighted as real * (f.factor as real / 10_000.0))
    && HalfUp(f.atRisk, f.gross as real * ((10_000 - f.offset) as real / 10_000.0))
  }

  lemma FiguresAreAChain(amount: real, probability: real, factor: nat, offset: nat)
    ensures IsChain(Figures(amount, probability, factor, offset), amount, probability)
  {
    var pipeline := ToCents(amount * 100.0);
    ToCentsIsNearest(amount * 100.0);
    PartIsRounded(pipeline, probability);
    var weighted := PartOf(pipeline, probability);
    PartIsRounded(weighted, Ratio(factor));
    PartIsRounded(PartOf(weighted, Ratio(factor)), Ratio(WHOLE - offset));
  }

  /** The four figures are one chain: the amount, its probable part, the part of that at risk from the silence, and what
      growing usage leaves of it. */
  lemma EachFigureIsRoundedHalfUp(amount: real, probability: real, days: int, stage: Stage, growth: real)
    requires ValidInputs(amount, probability, days, stage)
    ensures
      var r := Calculate(amount, probability, days, stage, growth);
      r.Ok? && StallFactor(days, stage) == Ok(r.value.factor) && r.value.offset == Offset(growth) && IsChain(r.value, amount, probability)
  {
    CapNeverBinds(days, stage);
    FiguresAreAChain(amount, probability, StallFactor(days, stage).value, Offset(growth));
  }

  /** Why there is no figure, in the order the inputs are looked at. */
  lemma RefusedBecause(amount: real, probability: real, days: int, stage: Stage, growth: real)
    ensures
      var r := Calculate(amount, probability, days, stage, growth);
      && (r == Err(NegativeAmount) <==> amount < 0.0)
      && (r == Err(ProbabilityOutOfRange) <==> amount >= 0.0 && (probability < 0.0 || probability > 1.0))
      && (r == Err(NegativeDays) <==> amount >= 0.0 && 0.0 <= probability <= 1.0 && days < 0)
      && (r == Err(ClosedStage) <==> amount >= 0.0 && 0.0 <= probability <= 1.0 && days >= 0 && (stage.ClosedWon? || stage.ClosedLost?))
  {
  }

  function UnroundedGross(amount: real, probability: real, factor: nat): real {
    amount * 100.0 * probability * Ratio(factor)
  }

  predicate Near(x: real, y: real, slack: real) {
    x - y <= slack && y - x <= slack
  }

  lemma ErrorScales(x: real, y: real, slack: real, part: real, most: real)
    requires Near(x, y, slack) && 0.0 <= part <= most && slack >= 0.0
    ensures Near(x * part, y * part, slack * most)
  {
    ProductsKeepOrder(slack, part, slack, most);
    if x >= y {
      ProductsKeepOrder(x - y, part, slack, part);
      assert x * part - y * part == (x - y) * part;
    } else {
      ProductsKeepOrder(y - x, part, slack, part);
      assert y * part - x * part == (y - x) * part;
    }
  }

  /** One more step: an approximation is scaled and rounded; `scaled` names the exact product. */
  lemma ErrorAfterStep(x: int, y: real, slack: real, part: real, most: real, scaled: real)
    requires Near(x as real, y, slack) && 0.0 <= part <= most && slack >= 0.0 && scaled == y * part
    ensures Near(PartOf(x, part) as real, scaled, slack * most + 0.5)
  {
    ErrorScales(x as real, y, slack, part, most);
    ToCentsIsNearest(x as real * part);
  }

  lemma GrossIsNear(amount: real, probability: real, factor: nat)
    requires amount >= 0.0 && 0.0 <= probability <= 1.0 && factor <= 7800
    ensures Near(Figures(amount, probability, factor, 0).gross as real, UnroundedGross(amount, probability, factor), 1.28)
  {
    var x := amount * 100.0;
    ToCentsIsNearest(x);
    var p := ToCents(x);
    var y := x * probability;
    ErrorAfterStep(p, x, 0.5, probability, 1.0, y);
    ErrorAfterStep(PartOf(p, probability), y, 1.0, Ratio(factor), 0.78, y * Ratio(factor));
  }

  lemma FiguresAreNear(amount: real, probability: real, factor: nat, offset: nat)
    requires amount >= 0.0 && 0.0 <= probability <= 1.0 && factor <= 7800 && offset <= WHOLE
    ensures Near(Figures(amount, probability, factor, offset).atRisk as real, Unrounded(amount, probability, factor, offset), 1.78)
  {
    GrossIsNear(amount, probability, factor);
    var g, z := Figures(amount, probability, factor, 0).gross, UnroundedGross(amount, probability, factor);
    ErrorAfterStep(g, z, 1.28, Ratio(WHOLE - offset), 1.0, z * Ratio(WHOLE - offset));
  }

  /** Rounding at every step costs less than two cents against the exact product: at most 1.78. */
  lemma RoundingCostsLittle(amount: real, probability: real, days: int, stage: Stage, growth: real)
    requires ValidInputs(amount, probability, days, stage)
    ensures
      var r := Calculate(amount, probability, days, stage, growth);
      r.Ok? && Near(r.value.atRisk as real, Unrounded(amount, probability, r.value.factor, r.value.offset), 1.78)
  {
    CapNeverBinds(days, stage);
    FiguresAreNear(amount, probability, StallFactor(days, stage).value, Offset(growth));
  }
}
