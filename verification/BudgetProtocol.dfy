/** Many runs spending against shared budgets, each inside its own transaction.

    A run checks a worst-case reservation against the committed figures plus its own uncommitted charges, calls the
    model, and charges the actual cost. A charge updates the global budget's row, so a second run that wants to charge
    waits until the first has committed or rolled back. Admission takes no lock and may read a stale figure. */
module BudgetProtocol {
  import opened Vocabulary
  import opened Ledger

  /** `inflight` is the reservation of a call that has been admitted and not yet priced. */
  datatype Slot =
    | Idle
    | Live(run: nat, incident: string, inflight: Option<nat>, pending: seq<CostEntry>)

  /** `budgets` and `entries` are the committed tables; there is one slot for each run that may be live at once. */
  datatype State = State(budgets: seq<Budget>, entries: seq<CostEntry>, slots: seq<Slot>)

  datatype Step =
    | Start(i: nat, run: nat, incident: string)
    | Admit(i: nat, reservation: nat, toolCalls: nat)   // tool calls are recorded elsewhere; only their number is seen
    | Abandon(i: nat)                              // the model call failed; nothing is charged
    | Finish(i: nat, amount: nat, at: Instant)
    | Commit(i: nat)
    | Rollback(i: nat)                             // an exception or a crash
    | End(i: nat)

  // ---- what one slot sees and holds ----

  function Inflight(x: Slot): nat {
    if x.Live? then x.inflight.GetOr(0) else 0
  }

  function Uncommitted(x: Slot, scope: Scope): nat {
    if x.Live? then ChargedTo(scope, x.pending) else 0
  }

  /** What the slot may still add to a budget: its uncommitted charges, its admitted reservation, and what a call may cost
      beyond its reservation. */
  function Load(x: Slot, scope: Scope, excess: nat): nat {
    Uncommitted(x, scope) + if x.Live? && x.inflight.Some? && Charged(scope, x.run) then x.inflight.value + excess else 0
  }

  function View(budgets: seq<Budget>, pending: seq<CostEntry>): seq<Budget> {
    seq(|budgets|, i requires 0 <= i < |budgets| =>
      budgets[i].(consumed := budgets[i].consumed + ChargedTo(budgets[i].scope, pending)))
  }

  predicate HoldsGlobalRow(x: Slot) {
    Uncommitted(x, GlobalScope) > 0
  }

  predicate HasGlobal(budgets: seq<Budget>) {
    exists i :: 0 <= i < |budgets| && budgets[i].scope == GlobalScope
  }

  function CallsOf(entries: seq<CostEntry>, run: nat): nat {
    if entries == [] then 0
    else CallsOf(entries[..|entries| - 1], run) + if entries[|entries| - 1].run == run then 1 else 0
  }

  // ---- the steps ----

  predicate CanStart(s: State, i: nat, run: nat) {
    && i < |s.slots| && s.slots[i].Idle?
    && forall j :: 0 <= j < |s.slots| && s.slots[j].Live? ==> s.slots[j].run != run
  }

  /** The ceiling on calls first, then the reservation against every applicable hard budget. */
  predicate CanAdmit(s: State, i: nat, reservation: nat, toolCalls: nat) {
    && i < |s.slots| && s.slots[i].Live? && s.slots[i].inflight.None?
    && var x := s.slots[i];
       && WithinCeilings(CallsOf(s.entries, x.run) + CallsOf(x.pending, x.run), toolCalls)
       && CheckAffordable(View(s.budgets, x.pending), x.run, x.incident, reservation).None?
  }

  predicate CanFinish(s: State, i: nat, amount: nat) {
    && i < |s.slots| && s.slots[i].Live? && s.slots[i].inflight.Some?
    && (amount > 0 && HasGlobal(s.budgets) ==>
          forall j :: 0 <= j < |s.slots| && j != i ==> !HoldsGlobalRow(s.slots[j]))
  }

  predicate Quiet(s: State, i: nat) {
    i < |s.slots| && s.slots[i].Live? && s.slots[i].inflight.None?
  }

  /** None when the step is not enabled. */
  function Next(s: State, step: Step): Option<State> {
    match step
    case Start(i, run, incident) =>
      if CanStart(s, i, run) then Some(s.(slots := s.slots[i := Live(run, incident, None, [])])) else None
    case Admit(i, reservation, toolCalls) =>
      if CanAdmit(s, i, reservation, toolCalls) then Some(s.(slots := s.slots[i := s.slots[i].(inflight := Some(reservation))])) else None
    case Abandon(i) =>
      if i < |s.slots| && s.slots[i].Live? && s.slots[i].inflight.Some?
      then Some(s.(slots := s.slots[i := s.slots[i].(inflight := None)]))
      else None
    case Finish(i, amount, at) =>
      if CanFinish(s, i, amount) then Some(s.(slots := s.slots[i := Charge(s.slots[i], amount, at)])) else None
    case Commit(i) =>
      if Quiet(s, i)
      then Some(State(View(s.budgets, s.slots[i].pending), s.entries + s.slots[i].pending, s.slots[i := s.slots[i].(pending := [])]))
      else None
    case Rollback(i) =>
      if i < |s.slots| then Some(s.(slots := s.slots[i := Idle])) else None
    case End(i) =>
      if Quiet(s, i) && s.slots[i].pending == [] then Some(s.(slots := s.slots[i := Idle])) else None
  }

  function Charge(x: Slot, amount: nat, at: Instant): Slot
    requires x.Live?
  {
    x.(inflight := None, pending := x.pending + [CostEntry(x.run, ModelInference, |x.pending|, amount, at)])
  }

  /** No reservation is above `most`, and no charge is above its call's reservation by more than `excess`. */
  predicate Within(s: State, step: Step, most: nat, excess: nat) {
    && (step.Admit? ==> step.reservation <= most)
    && (step.Finish? && CanFinish(s, step.i, step.amount) ==> step.amount <= s.slots[step.i].inflight.value + excess)
  }

  predicate Opening(s: State) {
    s.entries == [] && forall i :: 0 <= i < |s.slots| ==> s.slots[i].Idle?
  }

  /** Runs within those two figures. */
  function Run(s: State, most: nat, excess: nat, steps: seq<Step>): Option<State>
    decreases |steps|
  {
    if steps == [] then Some(s)
    else
      var front := Run(s, most, excess, steps[..|steps| - 1]);
      if front.None? || !Within(front.value, steps[|steps| - 1], most, excess) then None else Next(front.value, steps[|steps| - 1])
  }

  // ---- charges and calls over appended entries ----

  lemma {:induction false} ChargedToAppend(scope: Scope, a: seq<CostEntry>, b: seq<CostEntry>)
    ensures ChargedTo(scope, a + b) == ChargedTo(scope, a) + ChargedTo(scope, b)
  {
    if b == [] {
      assert a + b == a;
    } else {
      ChargedToAppend(scope, a, b[..|b| - 1]);
      assert (a + b)[..|a + b| - 1] == a + b[..|b| - 1];
    }
  }

  lemma {:induction false} CallsOfAppend(run: nat, a: seq<CostEntry>, b: seq<CostEntry>)
    ensures CallsOf(a + b, run) == CallsOf(a, run) + CallsOf(b, run)
  {
    if b == [] {
      assert a + b == a;
    } else {
      CallsOfAppend(run, a, b[..|b| - 1]);
      assert (a + b)[..|a + b| - 1] == a + b[..|b| - 1];
    }
  }

  lemma ChargeAdds(x: Slot, amount: nat, at: Instant, scope: Scope)
    requires x.Live?
    ensures Uncommitted(Charge(x, amount, at), scope) == Uncommitted(x, scope) + if Charged(scope, x.run) then amount else 0
    ensures CallsOf(Charge(x, amount, at).pending, x.run) == CallsOf(x.pending, x.run) + 1
  {
    var z := Charge(x, amount, at);
    assert z.pending[..|z.pending| - 1] == x.pending;
  }

  // ---- conservation ----

  /** In every reachable state each committed budget is its opening figure plus exactly the committed entries charged to
      it: a rolled-back transaction takes its charges and its entries with it. */
  lemma {:induction false} BudgetsAreConserved(s: State, most: nat, excess: nat, steps: seq<Step>)
    requires Opening(s) && Run(s, most, excess, steps).Some?
    ensures
      var z := Run(s, most, excess, steps).value;
      && |z.budgets| == |s.budgets| && |z.slots| == |s.slots|
      && forall b :: 0 <= b < |z.budgets| ==>
           z.budgets[b] == s.budgets[b].(consumed := s.budgets[b].consumed + ChargedTo(s.budgets[b].scope, z.entries))
  {
    if steps != [] {
      var front, step := steps[..|steps| - 1], steps[|steps| - 1];
      BudgetsAreConserved(s, most, excess, front);
      var y := Run(s, most, excess, front).value;
      if step.Commit? {
        forall b | 0 <= b < |y.budgets|
          ensures ChargedTo(s.budgets[b].scope, y.entries + y.slots[step.i].pending)
                  == ChargedTo(s.budgets[b].scope, y.entries) + ChargedTo(s.budgets[b].scope, y.slots[step.i].pending)
        {
          ChargedToAppend(s.budgets[b].scope, y.entries, y.slots[step.i].pending);
        }
      }
    }
  }

  /** An incident's budget is checked before every call and charged after none: it never moves. */
  lemma IncidentBudgetsNeverMove(s: State, most: nat, excess: nat, steps: seq<Step>, b: nat)
    requires Opening(s) && Run(s, most, excess, steps).Some?
    requires b < |s.budgets| && s.budgets[b].scope.IncidentScope?
    ensures b < |Run(s, most, excess, steps).value.budgets| && Run(s, most, excess, steps).value.budgets[b] == s.budgets[b]
  {
    BudgetsAreConserved(s, most, excess, steps);
    ChargesAreTotals(s.budgets[b].scope, Run(s, most, excess, steps).value.entries);
  }
}
