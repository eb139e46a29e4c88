/** The ceiling on calls, and a run showing the overshoot bound is exact. */
module BudgetRuns {
  import opened Vocabulary
  import opened Ledger
  import opened BudgetProtocol
  import opened BudgetSafety

  // ---- the ceiling ----

  function CallsInSlot(x: Slot, run: nat): nat {
    if x.Live? && x.run == run then CallsOf(x.pending, run) + if x.inflight.Some? then 1 else 0 else 0
  }

  ghost predicate CeilingInv(s: State, run: nat) {
    && RunsApart(s.slots)
    && CallsOf(s.entries, run) <= MAX_MODEL_CALLS_PER_RUN
    && forall j :: 0 <= j < |s.slots| ==>
         && CallsOf(s.entries, run) + CallsInSlot(s.slots[j], run) <= MAX_MODEL_CALLS_PER_RUN
         && (s.slots[j].Live? && s.slots[j].run != run ==> CallsOf(s.slots[j].pending, run) == 0)
  }

  lemma SlotKeepsCeiling(s: State, z: State, i: nat, run: nat)
    requires CeilingInv(s, run) && i < |s.slots| && z.entries == s.entries && |z.slots| == |s.slots|
    requires z.slots == s.slots[i := z.slots[i]] && RunsApart(z.slots)
    requires CallsOf(s.entries, run) + CallsInSlot(z.slots[i], run) <= MAX_MODEL_CALLS_PER_RUN
    requires z.slots[i].Live? && z.slots[i].run != run ==> CallsOf(z.slots[i].pending, run) == 0
    ensures CeilingInv(z, run)
  {
  }

  lemma CommitKeepsCeiling(s: State, i: nat, run: nat)
    requires CeilingInv(s, run) && Quiet(s, i)
    ensures CeilingInv(Next(s, Commit(i)).value, run)
  {
    CallsOfAppend(run, s.entries, s.slots[i].pending);
  }

  lemma FinishKeepsCeiling(s: State, i: nat, amount: nat, at: Instant, run: nat)
    requires CeilingInv(s, run) && CanFinish(s, i, amount)
    ensures CeilingInv(Next(s, Finish(i, amount, at)).value, run)
  {
    var z := Charge(s.slots[i], amount, at);
    assert z.pending[..|z.pending| - 1] == s.slots[i].pending;
    SlotKeepsCeiling(s, Next(s, Finish(i, amount, at)).value, i, run);
  }

  lemma StepKeepsCeiling(s: State, step: Step, run: nat)
    requires CeilingInv(s, run) && Next(s, step).Some?
    ensures CeilingInv(Next(s, step).value, run)
  {
    match step
    case Commit(i) => CommitKeepsCeiling(s, i, run);
    case Finish(i, amount, at) => FinishKeepsCeiling(s, i, amount, at, run);
    case _ => SlotKeepsCeiling(s, Next(s, step).value, step.i, run);
  }

  lemma {:induction false} RunKeepsCeiling(s: State, most: nat, excess: nat, steps: seq<Step>, run: nat)
    requires CeilingInv(s, run) && Run(s, most, excess, steps).Some?
    ensures CeilingInv(Run(s, most, excess, steps).value, run)
  {
    if steps != [] {
      RunKeepsCeiling(s, most, excess, steps[..|steps| - 1], run);
      StepKeepsCeiling(Run(s, most, excess, steps[..|steps| - 1]).value, steps[|steps| - 1], run);
    }
  }

  /** No run is ever charged for more model calls than the ceiling, counting the one in flight, in any interleaving and
      whatever the calls cost. */
  lemma CallsNeverPassTheCeiling(s: State, most: nat, excess: nat, steps: seq<Step>, run: nat, j: nat)
    requires Opening(s) && Run(s, most, excess, steps).Some? && j < |s.slots|
    ensures
      var z := Run(s, most, excess, steps).value;
      |z.slots| == |s.slots| && CallsOf(z.entries, run) + CallsInSlot(z.slots[j], run) <= 12
  {
    RunKeepsCeiling(s, most, excess, steps, run);
    BudgetsAreConserved(s, most, excess, steps);
  }

  /** A budget as the run sees it: committed, and its own uncommitted charges on top. */
  predicate HasRoom(b: Budget, x: Slot, reservation: nat)
    requires x.Live?
  {
    b.consumed + ChargedTo(b.scope, x.pending) + reservation <= b.limit
  }

  /** Admission end to end. A live run with no call in flight is admitted exactly when it has made fewer than twelve model
      calls and thirty tool calls, and the reservation fits every hard budget of the run, of its incident, and of all. */
  lemma AdmittedExactly(s: State, i: nat, reservation: nat, toolCalls: nat)
    requires i < |s.slots| && s.slots[i].Live? && s.slots[i].inflight.None?
    ensures
      var x := s.slots[i];
      Next(s, Admit(i, reservation, toolCalls)).Some? <==>
        && CallsOf(s.entries, x.run) + CallsOf(x.pending, x.run) < 12 && toolCalls < 30
        && forall b :: b in s.budgets && b.hardStop && b.scope in {RunScope(x.run), IncidentScope(x.incident), GlobalScope}
             ==> HasRoom(b, x, reservation)
  {
    var x := s.slots[i];
    var seen := View(s.budgets, x.pending);
    AffordableExactly(seen, x.run, x.incident, reservation);
    forall k | 0 <= k < |seen|
      ensures seen[k].scope == s.budgets[k].scope && (seen[k].consumed + reservation <= seen[k].limit <==> HasRoom(s.budgets[k], x, reservation))
    {
    }
  }

  /** No other run has uncommitted charges to a global budget: whoever has holds its row. */
  ghost predicate RowIsFree(s: State, i: nat) {
    forall j :: 0 <= j < |s.slots| && j != i && s.slots[j].Live? ==> ChargedTo(GlobalScope, s.slots[j].pending) == 0
  }

  /** How a call and a run can end, and what each end leaves. A crash is always possible and takes back exactly what was not
      committed; a call that failed costs nothing; a call that succeeded is charged unless another run holds the global
      budget's row, and even then if it cost nothing; and a run that ends has committed everything. */
  lemma EndsExactly(s: State, i: nat, amount: nat, at: Instant)
    requires i < |s.slots|
    ensures
      var x, busy := s.slots[i], s.slots[i].Live? && s.slots[i].inflight.Some?;
      && Next(s, Rollback(i)) == Some(State(s.budgets, s.entries, s.slots[i := Idle]))
      && Next(s, Abandon(i)) == (if busy then Some(State(s.budgets, s.entries, s.slots[i := Live(x.run, x.incident, None, x.pending)])) else None)
      && (Next(s, Finish(i, amount, at)).Some? <==>
            busy && (amount == 0 || (forall b :: b in s.budgets ==> b.scope != GlobalScope) || RowIsFree(s, i)))
      && (Next(s, Commit(i)).Some? <==> x.Live? && !busy)
      && (Next(s, Commit(i)).Some? ==>
            Next(s, Commit(i)).value.entries == s.entries + x.pending && Next(s, Commit(i)).value.slots == s.slots[i := x.(pending := [])])
      && Next(s, End(i)) == if x.Live? && !busy && x.pending == [] then Some(State(s.budgets, s.entries, s.slots[i := Idle])) else None
  {
    assert HasGlobal(s.budgets) <==> exists b :: b in s.budgets && b.scope == GlobalScope by {
      if b :| b in s.budgets && b.scope == GlobalScope {
        var k :| 0 <= k < |s.budgets| && s.budgets[k] == b;
        assert s.budgets[k].scope == GlobalScope;
      }
    }
    assert RowIsFree(s, i) <==> forall j :: 0 <= j < |s.slots| && j != i ==> !HoldsGlobalRow(s.slots[j]);
  }

  // ---- the bound is reached ----

  lemma Extend(s: State, most: nat, excess: nat, steps: seq<Step>, y: State, step: Step, z: State)
    requires Run(s, most, excess, steps) == Some(y) && Within(y, step, most, excess) && Next(y, step) == Some(z)
    ensures Run(s, most, excess, steps + [step]) == Some(z)
  {
    assert (steps + [step])[..|steps + [step]| - 1] == steps;
  }

  function OneGlobal(limit: nat, consumed: nat): seq<Budget> {
    [Budget(GlobalScope, limit, consumed, true)]
  }

  function Waiting(i: nat, most: nat): Slot {
    Live(i, "", Some(most), [])
  }

  function Charges(m: nat, amount: nat): seq<CostEntry> {
    seq(m, i requires 0 <= i < m => CostEntry(i, ModelInference, 0, amount, 0))
  }

  /** `m` runs have been charged `cost` each, those up to `k` are waiting on their call, the rest have not started. */
  function Stage(n: nat, m: nat, k: nat, limit: nat, start: nat, most: nat, cost: nat): State
    requires m <= k <= n
  {
    State(OneGlobal(limit, start + m * cost), Charges(m, cost),
          seq(n, i requires 0 <= i < n => if i < m then Live(i, "", None, []) else if i < k then Waiting(i, most) else Idle))
  }

  lemma AdmitOne(n: nat, k: nat, limit: nat, start: nat, most: nat, cost: nat) returns (mid: State)
    requires k < n && start + most <= limit
    ensures Next(Stage(n, 0, k, limit, start, most, cost), Start(k, k, "")) == Some(mid)
    ensures Next(mid, Admit(k, most, 0)) == Some(Stage(n, 0, k + 1, limit, start, most, cost))
  {
    var y, z := Stage(n, 0, k, limit, start, most, cost), Stage(n, 0, k + 1, limit, start, most, cost);
    mid := y.(slots := y.slots[k := Live(k, "", None, [])]);
    AffordableExactly(View(mid.budgets, []), k, "", most);
    assert mid.slots[k := Waiting(k, most)] == z.slots;
  }

  lemma {:induction false} AdmitAll(n: nat, k: nat, limit: nat, start: nat, most: nat, excess: nat) returns (steps: seq<Step>)
    requires k <= n && start + most <= limit
    ensures Run(Stage(n, 0, 0, limit, start, most, most + excess), most, excess, steps)
            == Some(Stage(n, 0, k, limit, start, most, most + excess))
  {
    if k == 0 {
      steps := [];
    } else {
      var cost := most + excess;
      var front := AdmitAll(n, k - 1, limit, start, most, excess);
      var mid := AdmitOne(n, k - 1, limit, start, most, cost);
      var s := Stage(n, 0, 0, limit, start, most, cost);
      Extend(s, most, excess, front, Stage(n, 0, k - 1, limit, start, most, cost), Start(k - 1, k - 1, ""), mid);
      steps := front + [Start(k - 1, k - 1, "")];
      Extend(s, most, excess, steps, mid, Admit(k - 1, most, 0), Stage(n, 0, k, limit, start, most, cost));
      steps := steps + [Admit(k - 1, most, 0)];
    }
  }

  lemma ChargeOne(n: nat, m: nat, limit: nat, start: nat, most: nat, cost: nat) returns (mid: State)
    requires m < n
    ensures Next(Stage(n, m, n, limit, start, most, cost), Finish(m, cost, 0)) == Some(mid)
    ensures Next(mid, Commit(m)) == Some(Stage(n, m + 1, n, limit, start, most, cost))
  {
    var y, z := Stage(n, m, n, limit, start, most, cost), Stage(n, m + 1, n, limit, start, most, cost);
    mid := y.(slots := y.slots[m := Charge(y.slots[m], cost, 0)]);
    assert CanFinish(y, m, cost);
    ChargeAdds(y.slots[m], cost, 0, GlobalScope);
    var pending := mid.slots[m].pending;
    assert pending == [CostEntry(m, ModelInference, 0, cost, 0)];
    assert Charges(m, cost) + pending == Charges(m + 1, cost);
    assert start + m * cost + cost == start + (m + 1) * cost;
    assert View(mid.budgets, pending) == z.budgets;
    assert mid.slots[m := mid.slots[m].(pending := [])] == z.slots;
  }

  lemma {:induction false} ChargeAll(n: nat, m: nat, limit: nat, start: nat, most: nat, excess: nat) returns (steps: seq<Step>)
    requires m <= n && start + most <= limit
    ensures Run(Stage(n, 0, 0, limit, start, most, most + excess), most, excess, steps)
            == Some(Stage(n, m, n, limit, start, most, most + excess))
  {
    if m == 0 {
      steps := AdmitAll(n, n, limit, start, most, excess);
    } else {
      var cost := most + excess;
      var front := ChargeAll(n, m - 1, limit, start, most, excess);
      var mid := ChargeOne(n, m - 1, limit, start, most, cost);
      var s := Stage(n, 0, 0, limit, start, most, cost);
      Extend(s, most, excess, front, Stage(n, m - 1, n, limit, start, most, cost), Finish(m - 1, cost, 0), mid);
      steps := front + [Finish(m - 1, cost, 0)];
      Extend(s, most, excess, steps, mid, Commit(m - 1), Stage(n, m, n, limit, start, most, cost));
      steps := steps + [Commit(m - 1)];
    }
  }

  /** The bound cannot be lowered: for any number of runs, any reservation and any excess, there is a run within them in
      which the committed figure passes the limit by exactly the bound. */
  lemma OvershootIsReached(runs: nat, reservation: nat, excess: nat, limit: nat) returns (s: State, steps: seq<Step>)
    requires runs >= 1 && reservation <= limit
    ensures OpensWithin(s, runs, limit) && Run(s, reservation, excess, steps).Some? && OvershootBound(runs, reservation).Ok?
    ensures |Run(s, reservation, excess, steps).value.budgets| > 0
    ensures Run(s, reservation, excess, steps).value.budgets[0].consumed
            == limit + OvershootBound(runs, reservation).value + runs * excess
  {
    var start := limit - reservation;
    s := Stage(runs, 0, 0, limit, start, reservation, reservation + excess);
    steps := ChargeAll(runs, runs, limit, start, reservation, excess);
    assert 0 <= (runs - 1) * reservation;
    assert start + runs * (reservation + excess) == limit + (runs - 1) * reservation + runs * excess;
  }

  /** Nothing charged yet, and a hard global budget within its limit. */
  predicate OpensWithin(s: State, runs: nat, limit: nat) {
    && Opening(s) && |s.slots| == runs
    && HardGlobal(s, 0) && s.budgets[0].limit == limit && s.budgets[0].consumed <= limit
  }

  /** If the run opens within the limit, it never passes it by more than the governor's bound. */
  ghost predicate KeepsStatedBound(s: State, runs: nat, limit: nat, reservation: nat, excess: nat, steps: seq<Step>)
    requires runs >= 1 && OvershootBound(runs, reservation).Ok?
  {
    OpensWithin(s, runs, limit) && Run(s, reservation, excess, steps).Some? ==>
      var z := Run(s, reservation, excess, steps).value;
      |z.budgets| > 0 && z.budgets[0].consumed <= limit + OvershootBound(runs, reservation).value
  }

  /** The governor's bound holds over every run exactly when no call may cost more than was reserved for it. */
  lemma StatedBoundHoldsIff(runs: nat, reservation: nat, excess: nat, limit: nat)
    requires runs >= 1 && reservation <= limit
    ensures OvershootBound(runs, reservation).Ok?
    ensures (forall s, steps :: KeepsStatedBound(s, runs, limit, reservation, excess, steps)) <==> excess == 0
  {
    assert OvershootBound(runs, reservation).Ok? by {
      assert 0 <= (runs - 1) * reservation;
    }
    if excess == 0 {
      forall s, steps ensures KeepsStatedBound(s, runs, limit, reservation, excess, steps) {
        if OpensWithin(s, runs, limit) && Run(s, reservation, excess, steps).Some? {
          OvershootIsBounded(s, reservation, excess, steps, 0);
        }
      }
    } else {
      var s, steps := OvershootIsReached(runs, reservation, excess, limit);
      ProductIsPositive(runs, excess);
      assert !KeepsStatedBound(s, runs, limit, reservation, excess, steps);
    }
  }

  lemma ProductIsPositive(a: nat, b: nat)
    requires a > 0 && b > 0
    ensures a * b > 0
  {
  }
}
