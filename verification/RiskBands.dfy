/** The two banded tables behind the impact figure. Factors are in ten-thousandths. */
module RiskBands {
  import opened Vocabulary

  datatype Stage = Discovery | Proposal | Negotiation | ClosedWon | ClosedLost

  datatype CalculationError = NegativeAmount | ProbabilityOutOfRange | NegativeDays | ClosedStage

  predicate Open(stage: Stage) {
    stage.Discovery? || stage.Proposal? || stage.Negotiation?
  }

  /** At or beyond so many days of silence, this share (in hundredths) is at risk. */
  const STALL_RISK_BY_INACTIVITY: seq<(int, nat)> := [(0, 0), (14, 35), (21, 45), (30, 55), (45, 65)]

  const USAGE_OFFSET_BY_GROWTH: seq<(real, nat)> := [(-1.0, 0), (0.0, 500), (0.2, 1000), (0.4, 1500), (0.8, 2000)]

  const MAX_STALL_RISK := 8500
  const MAX_USAGE_OFFSET := 2000
  const WHOLE := 10_000

  function StageMultiplier(stage: Stage): nat
    requires Open(stage)
  {
    match stage
    case Discovery => 80
    case Proposal => 100
    case Negotiation => 120
  }

  function Least(a: nat, b: nat): nat {
    if a < b then a else b
  }

  /** The band a number of days falls in, read without the table. */
  function InactivityBand(days: int): nat {
    if days < 14 then 0
    else if days < 21 then 35
    else if days < 30 then 45
    else if days < 45 then 55
    else 65
  }

  function StallFactor(days: int, stage: Stage): Result<nat, CalculationError> {
    if days < 0 then Err(NegativeDays)
    else if !Open(stage) then Err(ClosedStage)
    else Ok(Least(InactivityBand(days) * StageMultiplier(stage), MAX_STALL_RISK))
  }

  /** Growth is a ratio: 0.4 is forty per cent more. Below the first threshold the first row still applies. */
  function Offset(growth: real): nat {
    if growth < 0.0 then 0
    else if growth < 0.2 then 500
    else if growth < 0.4 then 1000
    else if growth < 0.8 then 1500
    else 2000
  }

  method StallRiskFactor(days: int, stage: Stage) returns (r: Result<nat, CalculationError>)
    ensures r == StallFactor(days, stage)
  {
    if days < 0 {
      return Err(NegativeDays);
    }
    if !Open(stage) {
      return Err(ClosedStage);
    }
    var base := STALL_RISK_BY_INACTIVITY[0].1;
    for i := 0 to |STALL_RISK_BY_INACTIVITY|
      invariant i == 0 ==> base == 0
      invariant i > 0 ==> base == STALL_RISK_BY_INACTIVITY[i - 1].1 && STALL_RISK_BY_INACTIVITY[i - 1].0 <= days
    {
      if days >= STALL_RISK_BY_INACTIVITY[i].0 {
        base := STALL_RISK_BY_INACTIVITY[i].1;
      } else {
        break;
      }
    }
    r := Ok(Least(base * StageMultiplier(stage), MAX_STALL_RISK));
  }

  method UsageOffset(growth: real) returns (r: nat)
    ensures r == Offset(growth)
  {
    var offset := USAGE_OFFSET_BY_GROWTH[0].1;
    for i := 0 to |USAGE_OFFSET_BY_GROWTH|
      invariant i == 0 ==> offset == 0
      invariant i > 0 ==> offset == USAGE_OFFSET_BY_GROWTH[i - 1].1 && USAGE_OFFSET_BY_GROWTH[i - 1].0 <= growth
    {
      if growth >= USAGE_OFFSET_BY_GROWTH[i].0 {
        offset := USAGE_OFFSET_BY_GROWTH[i].1;
      } else {
        break;
      }
    }
    r := Least(offset, MAX_USAGE_OFFSET);
  }

  lemma FactorMonotone(d: int, e: int, stage: Stage)
    requires 0 <= d <= e && Open(stage)
    ensures StallFactor(d, stage).Ok? && StallFactor(e, stage).Ok?
    ensures StallFactor(d, stage).value <= StallFactor(e, stage).value
  {
    var a, b, m := InactivityBand(d), InactivityBand(e), StageMultiplier(stage);
    assert a * m <= b * m;
  }

  /** A proposal carries its band as it is, discovery four fifths of it, negotiation six fifths. */
  lemma FactorByStage(days: int)
    requires days >= 0
    ensures
      var band := if days < 14 then 0 else if days < 21 then 35 else if days < 30 then 45 else if days < 45 then 55 else 65;
      && StallFactor(days, Proposal) == Ok(100 * band)
      && StallFactor(days, Discovery).Ok? && 5 * StallFactor(days, Discovery).value == 400 * band
      && StallFactor(days, Negotiation).Ok? && 5 * StallFactor(days, Negotiation).value == 600 * band
  {
    var b := InactivityBand(days);
    assert 5 * (b * 80) == 400 * b && 5 * (b * 120) == 600 * b;
  }

  /** The cap of 0.85 never binds: the table's largest product is 0.78. */
  lemma CapNeverBinds(days: int, stage: Stage)
    requires days >= 0 && Open(stage)
    ensures StallFactor(days, stage) == Ok(InactivityBand(days) * StageMultiplier(stage))
    ensures StallFactor(days, stage).value <= 7800
    ensures StallFactor(days, stage).value == 0 <==> days < 14
  {
  }
}
