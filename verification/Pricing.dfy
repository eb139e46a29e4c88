/** What a model call costs. Token prices are whole hundredths of a microdollar; costs are microdollars. */
module Pricing {
  import opened Vocabulary
  import opened Rounding

  /** Hundredths of a microdollar per token. */
  datatype ModelPrice = ModelPrice(input: nat, output: nat, cacheRead: nat, cacheWrite: nat)

  /** Dollars per million tokens are microdollars per token; a cache read costs a tenth of an input token and a cache
      write one and a quarter. */
  function PriceFor(model: string): Option<ModelPrice> {
    if model == "claude-opus-5" then Some(ModelPrice(500, 2500, 50, 625))
    else if model == "claude-sonnet-5" then Some(ModelPrice(300, 1500, 30, 375))
    else if model == "claude-haiku-4-5" then Some(ModelPrice(100, 500, 10, 125))
    else None
  }

  datatype Tokens = Tokens(input: int, output: int, cacheRead: int, cacheWrite: int)

  datatype CostError = NegativeTokens | UnknownModel(model: string)

  const UNITS_PER_MICRODOLLAR: nat := 100

  predicate Counts(t: Tokens) {
    t.input >= 0 && t.output >= 0 && t.cacheRead >= 0 && t.cacheWrite >= 0
  }

  function Units(p: ModelPrice, t: Tokens): nat
    requires Counts(t)
  {
    t.input * p.input + t.output * p.output + t.cacheRead * p.cacheRead + t.cacheWrite * p.cacheWrite
  }

  function CostOf(model: string, t: Tokens): Result<nat, CostError> {
    if !Counts(t) then Err(NegativeTokens)
    else if PriceFor(model).None? then Err(UnknownModel(model))
    else Ok(HalfEven(Units(PriceFor(model).value, t), UNITS_PER_MICRODOLLAR))
  }

  /** The reservation: the estimate as fresh input, the configured maximum as output. */
  function WorstCase(model: string, estimate: int, cap: int): Result<nat, CostError> {
    CostOf(model, Tokens(estimate, cap, 0, 0))
  }

  /** The three published prices: five, three and one dollar a million for input, five times that for output, a tenth for
      a cache read and five quarters for a cache write. No other model has a price. */
  lemma PricesArePublished(model: string)
    ensures PriceFor(model).Some? <==> model in {"claude-opus-5", "claude-sonnet-5", "claude-haiku-4-5"}
    ensures
      PriceFor(model).Some? ==>
        var p := PriceFor(model).value;
        && p.input == 100 * (if model == "claude-opus-5" then 5 else if model == "claude-sonnet-5" then 3 else 1)
        && p.output == 5 * p.input && 10 * p.cacheRead == p.input && 4 * p.cacheWrite == 5 * p.input
  {
  }

  /** What cannot be priced, and why: negative counts first, then a model with no published price. */
  lemma CostRefusedBecause(model: string, t: Tokens)
    ensures
      var negative := t.input < 0 || t.output < 0 || t.cacheRead < 0 || t.cacheWrite < 0;
      && (CostOf(model, t) == Err(NegativeTokens) <==> negative)
      && (CostOf(model, t) == Err(UnknownModel(model)) <==> !negative && PriceFor(model).None?)
      && (CostOf(model, t).Ok? <==> !negative && PriceFor(model).Some?)
  {
  }

  lemma UnitsMonotone(p: ModelPrice, a: Tokens, b: Tokens)
    requires Counts(a) && Counts(b)
    requires a.input <= b.input && a.output <= b.output && a.cacheRead <= b.cacheRead && a.cacheWrite <= b.cacheWrite
    ensures Units(p, a) <= Units(p, b)
  {
    MulLe(a.input, b.input, p.input);
    MulLe(a.output, b.output, p.output);
    MulLe(a.cacheRead, b.cacheRead, p.cacheRead);
    MulLe(a.cacheWrite, b.cacheWrite, p.cacheWrite);
  }

  /** More tokens of any kind never cost less, through the rounding. */
  lemma CostMonotone(model: string, a: Tokens, b: Tokens)
    requires Counts(a) && a.input <= b.input && a.output <= b.output && a.cacheRead <= b.cacheRead && a.cacheWrite <= b.cacheWrite
    requires PriceFor(model).Some?
    ensures CostOf(model, a).Ok? && CostOf(model, b).Ok? && CostOf(model, a).value <= CostOf(model, b).value
  {
    var p := PriceFor(model).value;
    UnitsMonotone(p, a, b);
    HalfEvenMonotone(Units(p, a), Units(p, b), UNITS_PER_MICRODOLLAR);
  }

  function UncachedUnits(p: ModelPrice, input: nat, output: nat): nat {
    input * p.input + output * p.output
  }

  /** Without cache traffic a price is a whole number of microdollars, so nothing is rounded. */
  lemma UncachedCostIsExact(model: string, input: nat, output: nat)
    requires PriceFor(model).Some?
    ensures CostOf(model, Tokens(input, output, 0, 0)).Ok?
    ensures CostOf(model, Tokens(input, output, 0, 0)).value * 100 == UncachedUnits(PriceFor(model).value, input, output)
  {
    var p := PriceFor(model).value;
    var a, b := p.input / 100, p.output / 100;
    assert p.input == 100 * a && p.output == 100 * b;
    var q := input * a + output * b;
    assert input * (100 * a) == 100 * (input * a) && output * (100 * b) == 100 * (output * b);
    assert Units(p, Tokens(input, output, 0, 0)) == q * 100 == UncachedUnits(p, input, output);
    HalfEvenOfMultiple(q, 100);
  }

  /** A call that writes no cache, whose input and cache reads fit the estimate and whose output fits the cap, never
      costs more than was reserved for it. */
  lemma ReservationCovers(model: string, t: Tokens, estimate: nat, cap: nat)
    requires PriceFor(model).Some? && Counts(t)
    requires t.cacheWrite == 0 && t.input + t.cacheRead <= estimate && t.output <= cap
    ensures CostOf(model, t).Ok? && WorstCase(model, estimate, cap).Ok?
    ensures CostOf(model, t).value <= WorstCase(model, estimate, cap).value
  {
    var p := PriceFor(model).value;
    var moved := Tokens(t.input + t.cacheRead, t.output, 0, 0);
    MulLe(p.cacheRead, p.input, t.cacheRead);
    assert (t.input + t.cacheRead) * p.input == t.input * p.input + t.cacheRead * p.input;
    assert Units(p, t) <= Units(p, moved);
    HalfEvenMonotone(Units(p, t), Units(p, moved), UNITS_PER_MICRODOLLAR);
    CostMonotone(model, moved, Tokens(estimate, cap, 0, 0));
  }

  /** For every call, whatever its counts: the reservation covers its cost exactly when its unrounded price is below the
      reservation and a half microdollar, or just there and the reservation is an even number of microdollars. */
  lemma CoveredIff(model: string, t: Tokens, estimate: nat, cap: nat)
    requires PriceFor(model).Some? && Counts(t)
    ensures
      var p, cost, reserved := PriceFor(model).value, CostOf(model, t), WorstCase(model, estimate, cap);
      && cost.Ok? && reserved.Ok?
      && (cost.value <= reserved.value <==>
            var over := 2 * Units(p, t) - 2 * UncachedUnits(p, estimate, cap);
            over < UNITS_PER_MICRODOLLAR || (over == UNITS_PER_MICRODOLLAR && reserved.value % 2 == 0))
  {
    var p := PriceFor(model).value;
    UncachedCostIsExact(model, estimate, cap);
    HalfEvenIsNearest(Units(p, t), UNITS_PER_MICRODOLLAR);
  }

  /** Cache writes escape the reservation. For a call that fills its estimate and its cap, the reservation covers the
      cost exactly when it writes no cache tokens, or at most two on the cheapest model (two only if the reservation is
      an even number of microdollars): one more and it costs more than was reserved. */
  lemma CacheWritesEscapeTheReservationIff(model: string, writes: nat, estimate: nat, cap: nat)
    requires PriceFor(model).Some? && writes <= estimate
    ensures
      var t := Tokens(estimate - writes, cap, 0, writes);
      var reserved := WorstCase(model, estimate, cap);
      && CostOf(model, t).Ok? && reserved.Ok?
      && (CostOf(model, t).value <= reserved.value <==>
            writes == 0 || (model == "claude-haiku-4-5" && (writes == 1 || (writes == 2 && reserved.value % 2 == 0))))
  {
    var p := PriceFor(model).value;
    var t := Tokens(estimate - writes, cap, 0, writes);
    CoveredIff(model, t, estimate, cap);
    assert (estimate - writes) * p.input == estimate * p.input - writes * p.input;
    assert writes * (p.cacheWrite - p.input) == writes * p.cacheWrite - writes * p.input;
    assert Units(p, t) - UncachedUnits(p, estimate, cap) == writes * (p.cacheWrite - p.input);
  }

  // ---- splitting the same tokens over several calls ----

  function Plus(a: Tokens, b: Tokens): Tokens {
    Tokens(a.input + b.input, a.output + b.output, a.cacheRead + b.cacheRead, a.cacheWrite + b.cacheWrite)
  }

  function Total(calls: seq<Tokens>): Tokens {
    if calls == [] then Tokens(0, 0, 0, 0) else Plus(Total(calls[..|calls| - 1]), calls[|calls| - 1])
  }

  ghost predicate AllCounts(calls: seq<Tokens>) {
    forall i :: 0 <= i < |calls| ==> Counts(calls[i])
  }

  function SumOfCosts(model: string, calls: seq<Tokens>): nat
    requires PriceFor(model).Some? && forall i :: 0 <= i < |calls| ==> Counts(calls[i])
  {
    if calls == [] then 0
    else SumOfCosts(model, calls[..|calls| - 1]) + CostOf(model, calls[|calls| - 1]).value
  }

  lemma UnitsAdd(p: ModelPrice, a: Tokens, b: Tokens)
    requires Counts(a) && Counts(b)
    ensures Units(p, Plus(a, b)) == Units(p, a) + Units(p, b)
  {
    assert (a.input + b.input) * p.input == a.input * p.input + b.input * p.input;
    assert (a.output + b.output) * p.output == a.output * p.output + b.output * p.output;
    assert (a.cacheRead + b.cacheRead) * p.cacheRead == a.cacheRead * p.cacheRead + b.cacheRead * p.cacheRead;
    assert (a.cacheWrite + b.cacheWrite) * p.cacheWrite == a.cacheWrite * p.cacheWrite + b.cacheWrite * p.cacheWrite;
  }

  lemma {:induction false} TotalCounts(calls: seq<Tokens>)
    requires AllCounts(calls)
    ensures Counts(Total(calls))
  {
    if calls != [] {
      TotalCounts(calls[..|calls| - 1]);
    }
  }

  /** Twice the hundredths of a microdollar by which rounding has moved the sum of the costs. */
  lemma {:induction false} SumNearUnits(model: string, calls: seq<Tokens>)
    requires PriceFor(model).Some? && AllCounts(calls) && Counts(Total(calls))
    ensures -100 * |calls| <= 200 * SumOfCosts(model, calls) - 2 * Units(PriceFor(model).value, Total(calls)) <= 100 * |calls|
  {
    if calls != [] {
      var p, front, last := PriceFor(model).value, calls[..|calls| - 1], calls[|calls| - 1];
      TotalCounts(front);
      SumNearUnits(model, front);
      UnitsAdd(p, Total(front), last);
      var before, added, cost := Units(p, Total(front)), Units(p, last), CostOf(model, last).value;
      HalfEvenIsNearest(added, 100);
      assert Units(p, Total(calls)) == before + added;
      assert SumOfCosts(model, calls) == SumOfCosts(model, front) + cost;
    }
  }

  /** Pricing n calls one by one and pricing their tokens together differ by at most half of n + 1 microdollars. */
  lemma SplittingShiftsLittle(model: string, calls: seq<Tokens>)
    requires PriceFor(model).Some? && AllCounts(calls)
    ensures CostOf(model, Total(calls)).Ok?
    ensures -(|calls| + 1) <= 2 * (SumOfCosts(model, calls) - CostOf(model, Total(calls)).value) <= |calls| + 1
  {
    TotalCounts(calls);
    SumNearUnits(model, calls);
    var whole := Units(PriceFor(model).value, Total(calls));
    HalfEvenIsNearest(whole, 100);
  }

  ghost predicate Uncached(calls: seq<Tokens>) {
    forall i :: 0 <= i < |calls| ==> Counts(calls[i]) && calls[i].cacheRead == 0 && calls[i].cacheWrite == 0
  }

  lemma PairIsExact(model: string, a: Tokens, b: Tokens)
    requires PriceFor(model).Some? && Uncached([a, b])
    ensures CostOf(model, a).Ok? && CostOf(model, b).Ok?
    ensures CostOf(model, Plus(a, b)) == Ok(CostOf(model, a).value + CostOf(model, b).value)
  {
    var both := [a, b];
    assert both[0] == a && both[1] == b;
    assert a == Tokens(a.input, a.output, 0, 0) && b == Tokens(b.input, b.output, 0, 0);
    UncachedCostIsExact(model, a.input, a.output);
    UncachedCostIsExact(model, b.input, b.output);
    UncachedCostIsExact(model, a.input + b.input, a.output + b.output);
    UncachedAdds(PriceFor(model).value, a, b);
  }

  lemma UncachedAdds(p: ModelPrice, a: Tokens, b: Tokens)
    requires Counts(a) && Counts(b)
    ensures UncachedUnits(p, a.input + b.input, a.output + b.output)
         == UncachedUnits(p, a.input, a.output) + UncachedUnits(p, b.input, b.output)
  {
    assert (a.input + b.input) * p.input == a.input * p.input + b.input * p.input;
    assert (a.output + b.output) * p.output == a.output * p.output + b.output * p.output;
  }

  /** With no cache tokens it makes no difference at all. */
  lemma {:induction false} SplittingUncachedIsExact(model: string, calls: seq<Tokens>)
    requires PriceFor(model).Some? && Uncached(calls)
    ensures var t := Total(calls);
            Counts(t) && t.cacheRead == 0 && t.cacheWrite == 0 && CostOf(model, t) == Ok(SumOfCosts(model, calls))
  {
    if calls == [] {
      NoTokensCostNothing(model);
      assert Total(calls) == Tokens(0, 0, 0, 0) && SumOfCosts(model, calls) == 0;
    } else {
      var front, last := calls[..|calls| - 1], calls[|calls| - 1];
      SplittingUncachedIsExact(model, front);
      PairIsExact(model, Total(front), last);
      assert Total(calls) == Plus(Total(front), last);
      assert SumOfCosts(model, calls) == SumOfCosts(model, front) + CostOf(model, last).value;
    }
  }

  lemma NoTokensCostNothing(model: string)
    requires PriceFor(model).Some?
    ensures CostOf(model, Tokens(0, 0, 0, 0)) == Ok(0)
  {
    var p := PriceFor(model).value;
    assert Units(p, Tokens(0, 0, 0, 0)) == 0;
    assert HalfEven(0, 100) == 0;
  }
}
