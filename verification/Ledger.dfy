/** Budgets, admission checks, and the ledger that charges what was actually spent. Amounts are microdollars. */
module Ledger {
  import opened Vocabulary
  import Pricing

  datatype Scope = RunScope(run: nat) | IncidentScope(incident: string) | GlobalScope

  datatype Budget = Budget(scope: Scope, limit: nat, consumed: nat, hardStop: bool)

  datatype CostType = ModelInference | ToolInvocation

  datatype CostEntry = CostEntry(run: nat, costType: CostType, call: nat, amount: nat, at: Instant)

  // ---- admission ----

  /** The budgets a call of this run is checked against. */
  predicate Applies(scope: Scope, run: nat, incident: string) {
    match scope
    case RunScope(r) => r == run
    case IncidentScope(i) => i == incident
    case GlobalScope => true
  }

  /** The budgets a cost of this run is added to: an incident's budget is checked but never charged. */
  predicate Charged(scope: Scope, run: nat) {
    match scope
    case RunScope(r) => r == run
    case IncidentScope(_) => false
    case GlobalScope => true
  }

  datatype BudgetRefusal = BudgetRefusal(scope: Scope, limit: nat, consumed: nat, requested: nat)

  predicate Absorbs(b: Budget, amount: nat) {
    b.consumed + amount <= b.limit
  }

  /** The first hard budget, in the order given, that cannot absorb the amount. A soft breach is passed over. */
  function CheckAffordable(budgets: seq<Budget>, run: nat, incident: string, amount: nat): Option<BudgetRefusal> {
    if budgets == [] then None
    else
      var b := budgets[0];
      if Applies(b.scope, run, incident) && !Absorbs(b, amount) && b.hardStop
      then Some(BudgetRefusal(b.scope, b.limit, b.consumed, amount))
      else CheckAffordable(budgets[1..], run, incident, amount)
  }

  /** The run's own budgets, its incident's, and the global ones. */
  predicate Concerns(b: Budget, run: nat, incident: string) {
    b.scope in {RunScope(run), IncidentScope(incident), GlobalScope}
  }

  /** Admission is a conjunction over every hard budget that concerns the call; a refusal names the first that is too small. */
  lemma {:induction false} AffordableExactly(budgets: seq<Budget>, run: nat, incident: string, amount: nat)
    ensures
      var r := CheckAffordable(budgets, run, incident, amount);
      && (r.None? <==> forall b :: b in budgets && b.hardStop && Concerns(b, run, incident) ==> b.consumed + amount <= b.limit)
      && (r.Some? ==> exists i :: 0 <= i < |budgets| && Refuses(budgets[i], run, incident, amount)
                        && (forall j :: 0 <= j < i ==> !Refuses(budgets[j], run, incident, amount))
                        && r.value == BudgetRefusal(budgets[i].scope, budgets[i].limit, budgets[i].consumed, amount))
  {
    if budgets != [] {
      AffordableExactly(budgets[1..], run, incident, amount);
      assert budgets == [budgets[0]] + budgets[1..];
    }
  }

  predicate Refuses(b: Budget, run: nat, incident: string, amount: nat) {
    b.hardStop && Concerns(b, run, incident) && b.consumed + amount > b.limit
  }

  /** Another run's budget, another incident's, or a soft one: none of them changes the answer, wherever it stands and
      whatever it holds. */
  lemma {:induction false} OthersBudgetsNeverMatter(before: seq<Budget>, b: Budget, after: seq<Budget>, run: nat, incident: string, amount: nat)
    requires !b.hardStop || !Concerns(b, run, incident)
    ensures CheckAffordable(before + [b] + after, run, incident, amount) == CheckAffordable(before + after, run, incident, amount)
  {
    if before == [] {
      assert [] + [b] + after == [b] + after && [] + after == after;
    } else {
      OthersBudgetsNeverMatter(before[1..], b, after, run, incident, amount);
      assert (before + [b] + after)[1..] == before[1..] + [b] + after && (before + after)[1..] == before[1..] + after;
    }
  }

  const MAX_MODEL_CALLS_PER_RUN := 12
  const MAX_TOOL_CALLS_PER_RUN := 30

  /** Looked at before every model call, whether or not the calls were free. */
  predicate WithinCeilings(modelCalls: nat, toolCalls: nat) {
    modelCalls < MAX_MODEL_CALLS_PER_RUN && toolCalls < MAX_TOOL_CALLS_PER_RUN
  }

  datatype OvershootError = NoRuns | NegativeReservation

  function OvershootBound(runs: int, reservation: int): Result<nat, OvershootError> {
    if runs < 1 then Err(NoRuns)
    else if reservation < 0 then Err(NegativeReservation)
    else
      assert 0 <= (runs - 1) * reservation;
      Ok((runs - 1) * reservation)
  }

  // ---- the ledger ----

  function ChargedTo(scope: Scope, entries: seq<CostEntry>): nat {
    if entries == [] then 0
    else ChargedTo(scope, entries[..|entries| - 1])
         + if Charged(scope, entries[|entries| - 1].run) then entries[|entries| - 1].amount else 0
  }

  /** What a run's entries add up to. */
  function RunTotal(entries: seq<CostEntry>, run: nat): nat {
    if entries == [] then 0
    else RunTotal(entries[..|entries| - 1], run) + if entries[|entries| - 1].run == run then entries[|entries| - 1].amount else 0
  }

  function GrandTotal(entries: seq<CostEntry>): nat {
    if entries == [] then 0 else GrandTotal(entries[..|entries| - 1]) + entries[|entries| - 1].amount
  }

  /** What a budget is charged is what the entries of its scope add up to: a run's for its own, everything for the global
      one, and nothing for an incident's. */
  lemma {:induction false} ChargesAreTotals(scope: Scope, entries: seq<CostEntry>)
    ensures ChargedTo(scope, entries) ==
            match scope
            case RunScope(run) => RunTotal(entries, run)
            case IncidentScope(_) => 0
            case GlobalScope => GrandTotal(entries)
  {
    if entries != [] {
      ChargesAreTotals(scope, entries[..|entries| - 1]);
    }
  }

  function AfterCharge(b: Budget, run: nat, amount: nat): Budget {
    if Charged(b.scope, run) then b.(consumed := b.consumed + amount) else b
  }

  /** A recorded call; its number is its place among them. */
  datatype CallRow = ModelRow(run: nat, model: string, tokens: Pricing.Tokens) | ToolRow(run: nat)

  /** The entry a recorded call leaves in the ledger. */
  predicate EntryOf(e: CostEntry, row: CallRow, number: nat) {
    && e.run == row.run && e.call == number
    && (row.ModelRow? ==> e.costType == ModelInference && Pricing.CostOf(row.model, row.tokens) == Ok(e.amount))
    && (row.ToolRow? ==> e.costType == ToolInvocation && e.amount == 0)
  }

  class CostLedger {
    var calls: seq<CallRow>
    var entries: seq<CostEntry>
    var budgets: seq<Budget>
    ghost const opening: seq<Budget>   // the budgets as the ledger found them

    constructor (budgets: seq<Budget>)
      ensures Valid() && Metered() && entries == [] && this.budgets == opening == budgets
    {
      this.budgets, opening, entries, calls := budgets, budgets, [], [];
    }

    /** Money is conserved: every budget is its opening figure plus the entries charged to it since, and nothing else
        about it has moved. An incident's budget has no entries charged to it, so it stands still. */
    ghost predicate Valid()
      reads this
    {
      && |budgets| == |opening|
      && forall i :: 0 <= i < |budgets| ==>
           budgets[i] == opening[i].(consumed := opening[i].consumed + ChargedTo(opening[i].scope, entries))
    }

    /** Every recorded call has its one entry. */
    ghost predicate Metered()
      reads this
    {
      |calls| == |entries| && forall k :: 0 <= k < |calls| ==> EntryOf(entries[k], calls[k], k)
    }

    method Write(entry: CostEntry)
      requires Valid()
      modifies this`entries, this`budgets
      ensures Valid() && entries == old(entries) + [entry]
    {
      entries := entries + [entry];
      assert entries[..|entries| - 1] == old(entries);
      Consume(entry.run, entry.amount);
    }

    /** Adds the actual spend to every run and global budget it concerns; a zero amount writes nothing. */
    method Consume(run: nat, amount: nat)
      modifies this`budgets
      ensures |budgets| == |old(budgets)|
      ensures forall i :: 0 <= i < |budgets| ==> budgets[i] == AfterCharge(old(budgets)[i], run, amount)
    {
      if amount == 0 {
        return;
      }
      budgets := seq(|budgets|, i requires 0 <= i < |budgets| reads this => AfterCharge(budgets[i], run, amount));
    }

    /** Prices a completed call from its real token counts; a call that cannot be priced is not charged. */
    method RecordModelCost(run: nat, call: nat, model: string, tokens: Pricing.Tokens, at: Instant)
      returns (r: Result<nat, Pricing.CostError>)
      requires Valid()
      modifies this`entries, this`budgets
      ensures Valid() && r == Pricing.CostOf(model, tokens)
      ensures entries == old(entries) + if r.Ok? then [CostEntry(run, ModelInference, call, r.value, at)] else []
      ensures r.Err? ==> budgets == old(budgets)
    {
      r := Pricing.CostOf(model, tokens);
      if r.Ok? {
        Write(CostEntry(run, ModelInference, call, r.value, at));
      }
    }

    method RecordToolCost(run: nat, call: nat, at: Instant)
      requires Valid()
      modifies this`entries, this`budgets
      ensures Valid() && entries == old(entries) + [CostEntry(run, ToolInvocation, call, 0, at)] && budgets == old(budgets)
    {
      ghost var before := budgets;
      Write(CostEntry(run, ToolInvocation, call, 0, at));
      assert entries[..|entries| - 1] == old(entries);
      assert budgets == before;
    }

    /** After a node's model call: the call is recorded and priced. If it cannot be priced the error goes up and the
        transaction takes the call's row back too. */
    method MeterModelCall(run: nat, model: string, tokens: Pricing.Tokens, at: Instant)
      returns (r: Result<nat, Pricing.CostError>)
      requires Valid() && Metered()
      modifies this
      ensures Valid() && Metered() && r == Pricing.CostOf(model, tokens)
      ensures calls == old(calls) + if r.Ok? then [ModelRow(run, model, tokens)] else []
      ensures r.Err? ==> entries == old(entries) && budgets == old(budgets)
    {
      var saved := calls;
      calls := calls + [ModelRow(run, model, tokens)];
      r := RecordModelCost(run, |saved|, model, tokens, at);
      if r.Err? {
        calls := saved;
      }
    }

    /** After a dispatched tool call of a run: the call is recorded, with its zero entry. */
    method MeterToolCall(run: nat, at: Instant)
      requires Valid() && Metered()
      modifies this
      ensures Valid() && Metered() && calls == old(calls) + [ToolRow(run)] && budgets == old(budgets)
    {
      calls := calls + [ToolRow(run)];
      RecordToolCost(run, |calls| - 1, at);
    }
  }
}
