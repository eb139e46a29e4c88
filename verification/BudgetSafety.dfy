/** How far racing admissions can push a hard budget: a bound over every interleaving, and a run that reaches it. */
module BudgetSafety {
  import opened Vocabulary
  import opened Ledger
  import opened BudgetProtocol

  // ---- sums over the slots ----

  function LoadSum(slots: seq<Slot>, scope: Scope, excess: nat): nat {
    if slots == [] then 0 else Load(slots[0], scope, excess) + LoadSum(slots[1..], scope, excess)
  }

  lemma {:induction false} LoadSumUpdate(slots: seq<Slot>, scope: Scope, excess: nat, i: nat, x: Slot)
    requires i < |slots|
    ensures LoadSum(slots[i := x], scope, excess) == LoadSum(slots, scope, excess) - Load(slots[i], scope, excess) + Load(x, scope, excess)
  {
    if i == 0 {
      assert slots[i := x][1..] == slots[1..];
    } else {
      LoadSumUpdate(slots[1..], scope, excess, i - 1, x);
      assert slots[i := x][1..] == slots[1..][i - 1 := x];
    }
  }

  lemma {:induction false} LoadAtLeast(slots: seq<Slot>, scope: Scope, excess: nat, i: nat)
    requires i < |slots|
    ensures Load(slots[i], scope, excess) <= LoadSum(slots, scope, excess)
  {
    if i > 0 {
      LoadAtLeast(slots[1..], scope, excess, i - 1);
    }
  }

  lemma {:induction false} AllAtMost(slots: seq<Slot>, scope: Scope, excess: nat, most: nat)
    requires forall j :: 0 <= j < |slots| ==> Load(slots[j], scope, excess) <= most
    ensures LoadSum(slots, scope, excess) <= |slots| * most
  {
    if slots != [] {
      AllAtMost(slots[1..], scope, excess, most);
      assert |slots| * most == most + (|slots| - 1) * most;
    }
  }

  lemma {:induction false} AllButOneAtMost(slots: seq<Slot>, scope: Scope, excess: nat, most: nat, k: nat)
    requires k < |slots|
    requires forall j :: 0 <= j < |slots| && j != k ==> Load(slots[j], scope, excess) <= most
    ensures LoadSum(slots, scope, excess) <= Load(slots[k], scope, excess) + (|slots| - 1) * most
  {
    if k == 0 {
      AllAtMost(slots[1..], scope, excess, most);
    } else {
      AllButOneAtMost(slots[1..], scope, excess, most, k - 1);
      assert (|slots| - 1) * most == most + (|slots| - 2) * most;
    }
  }

  lemma {:induction false} IdleSum(slots: seq<Slot>, scope: Scope, excess: nat)
    requires forall j :: 0 <= j < |slots| ==> slots[j].Idle?
    ensures LoadSum(slots, scope, excess) == 0
  {
    if slots != [] {
      IdleSum(slots[1..], scope, excess);
    }
  }

  // ---- a global budget ----

  predicate HardGlobal(s: State, g: nat) {
    g < |s.budgets| && s.budgets[g].scope == GlobalScope && s.budgets[g].hardStop
  }

  /** What a slot may still add is at most one reservation, or was admitted against the figure as it now stands. */
  predicate Bounded(b: Budget, x: Slot, most: nat, excess: nat) {
    && Inflight(x) <= most
    && (Load(x, GlobalScope, excess) <= most + excess || b.consumed + Load(x, GlobalScope, excess) <= b.limit + excess)
  }

  ghost predicate OneHolder(slots: seq<Slot>) {
    forall j, k :: 0 <= j < |slots| && 0 <= k < |slots| && HoldsGlobalRow(slots[j]) && HoldsGlobalRow(slots[k]) ==> j == k
  }

  ghost predicate GlobalInv(s: State, g: nat, most: nat, excess: nat) {
    && HardGlobal(s, g) && |s.slots| > 0
    && (forall j :: 0 <= j < |s.slots| ==> Bounded(s.budgets[g], s.slots[j], most, excess))
    && OneHolder(s.slots)
    && s.budgets[g].consumed + LoadSum(s.slots, GlobalScope, excess) <= s.budgets[g].limit + excess + (|s.slots| - 1) * (most + excess)
  }

  /** A slot whose load does not grow, and which takes the row only when no other holds it. */
  lemma LighterSlotKeeps(s: State, z: State, g: nat, most: nat, excess: nat, i: nat)
    requires GlobalInv(s, g, most, excess) && i < |s.slots| == |z.slots|
    requires z.budgets == s.budgets && z.slots == s.slots[i := z.slots[i]]
    requires Load(z.slots[i], GlobalScope, excess) <= Load(s.slots[i], GlobalScope, excess) && Inflight(z.slots[i]) <= Inflight(s.slots[i])
    requires HoldsGlobalRow(z.slots[i]) ==>
               HoldsGlobalRow(s.slots[i]) || forall j :: 0 <= j < |s.slots| && j != i ==> !HoldsGlobalRow(s.slots[j])
    ensures GlobalInv(z, g, most, excess)
  {
    LoadSumUpdate(s.slots, GlobalScope, excess, i, z.slots[i]);
    forall j | 0 <= j < |z.slots| ensures Bounded(z.budgets[g], z.slots[j], most, excess) {
      assert Bounded(s.budgets[g], s.slots[j], most, excess);
    }
  }

  lemma AdmissionFits(s: State, i: nat, reservation: nat, toolCalls: nat, b: nat)
    requires CanAdmit(s, i, reservation, toolCalls) && b < |s.budgets| && s.budgets[b].hardStop
    requires Applies(s.budgets[b].scope, s.slots[i].run, s.slots[i].incident)
    ensures s.budgets[b].consumed + Uncommitted(s.slots[i], s.budgets[b].scope) + reservation <= s.budgets[b].limit
  {
    var x := s.slots[i];
    AffordableExactly(View(s.budgets, x.pending), x.run, x.incident, reservation);
    assert View(s.budgets, x.pending)[b] in View(s.budgets, x.pending);
  }

  /** The stale admission: the slot admitted may not see another's uncommitted charges, but then every other slot
      still owes at most one reservation, or the one that owes more was itself admitted within the limit. */
  lemma AdmitKeepsTheSum(s: State, i: nat, reservation: nat, toolCalls: nat, g: nat, most: nat, excess: nat)
    requires GlobalInv(s, g, most, excess) && CanAdmit(s, i, reservation, toolCalls) && reservation <= most
    ensures
      var z := Next(s, Admit(i, reservation, toolCalls)).value;
      s.budgets[g].consumed + LoadSum(z.slots, GlobalScope, excess) <= s.budgets[g].limit + excess + (|s.slots| - 1) * (most + excess)
  {
    var z := Next(s, Admit(i, reservation, toolCalls)).value;
    AdmissionFits(s, i, reservation, toolCalls, g);
    if h :| 0 <= h < |s.slots| && h != i && Load(s.slots[h], GlobalScope, excess) > most + excess {
      assert Bounded(s.budgets[g], s.slots[h], most, excess) && HoldsGlobalRow(s.slots[h]);
      forall j | 0 <= j < |z.slots| && j != h ensures Load(z.slots[j], GlobalScope, excess) <= most + excess {
        assert Bounded(s.budgets[g], s.slots[j], most, excess) && !HoldsGlobalRow(s.slots[j]);
      }
      AllButOneAtMost(z.slots, GlobalScope, excess, most + excess, h);
    } else {
      AllButOneAtMost(z.slots, GlobalScope, excess, most + excess, i);
    }
  }

  lemma AdmitKeeps(s: State, i: nat, reservation: nat, toolCalls: nat, g: nat, most: nat, excess: nat)
    requires GlobalInv(s, g, most, excess) && CanAdmit(s, i, reservation, toolCalls) && reservation <= most
    ensures GlobalInv(Next(s, Admit(i, reservation, toolCalls)).value, g, most, excess)
  {
    var z := Next(s, Admit(i, reservation, toolCalls)).value;
    AdmitKeepsTheSum(s, i, reservation, toolCalls, g, most, excess);
    AdmissionFits(s, i, reservation, toolCalls, g);
    forall j | 0 <= j < |z.slots| ensures Bounded(z.budgets[g], z.slots[j], most, excess) {
      assert Bounded(s.budgets[g], s.slots[j], most, excess);
    }
  }

  lemma FinishKeeps(s: State, i: nat, amount: nat, at: Instant, g: nat, most: nat, excess: nat)
    requires GlobalInv(s, g, most, excess) && CanFinish(s, i, amount) && amount <= s.slots[i].inflight.value + excess
    ensures GlobalInv(Next(s, Finish(i, amount, at)).value, g, most, excess)
  {
    ChargeAdds(s.slots[i], amount, at, GlobalScope);
    LighterSlotKeeps(s, Next(s, Finish(i, amount, at)).value, g, most, excess, i);
  }

  lemma CommitKeeps(s: State, i: nat, g: nat, most: nat, excess: nat)
    requires GlobalInv(s, g, most, excess) && Quiet(s, i)
    ensures GlobalInv(Next(s, Commit(i)).value, g, most, excess)
  {
    var z := Next(s, Commit(i)).value;
    LoadSumUpdate(s.slots, GlobalScope, excess, i, z.slots[i]);
    forall j | 0 <= j < |z.slots| ensures Bounded(z.budgets[g], z.slots[j], most, excess) {
      assert Bounded(s.budgets[g], s.slots[j], most, excess);
      if j != i && HoldsGlobalRow(s.slots[i]) {
        assert !HoldsGlobalRow(s.slots[j]);
      }
    }
  }

  lemma StepKeepsGlobal(s: State, step: Step, g: nat, most: nat, excess: nat)
    requires GlobalInv(s, g, most, excess) && Within(s, step, most, excess) && Next(s, step).Some?
    ensures GlobalInv(Next(s, step).value, g, most, excess)
  {
    match step
    case Admit(i, reservation, toolCalls) => AdmitKeeps(s, i, reservation, toolCalls, g, most, excess);
    case Finish(i, amount, at) => FinishKeeps(s, i, amount, at, g, most, excess);
    case Commit(i) => CommitKeeps(s, i, g, most, excess);
    case Start(i, _, _) => LighterSlotKeeps(s, Next(s, step).value, g, most, excess, i);
    case Abandon(i) => LighterSlotKeeps(s, Next(s, step).value, g, most, excess, i);
    case Rollback(i) => LighterSlotKeeps(s, Next(s, step).value, g, most, excess, i);
    case End(i) => LighterSlotKeeps(s, Next(s, step).value, g, most, excess, i);
  }

  lemma {:induction false} RunKeepsGlobal(s: State, most: nat, excess: nat, steps: seq<Step>, g: nat)
    requires GlobalInv(s, g, most, excess) && Run(s, most, excess, steps).Some?
    ensures GlobalInv(Run(s, most, excess, steps).value, g, most, excess)
  {
    if steps != [] {
      RunKeepsGlobal(s, most, excess, steps[..|steps| - 1], g);
      StepKeepsGlobal(Run(s, most, excess, steps[..|steps| - 1]).value, steps[|steps| - 1], g, most, excess);
    }
  }

  lemma BoundsAgree(n: nat, most: nat, excess: nat)
    requires n > 0
    ensures 0 <= (n - 1) * most && 0 <= (n - 1) * (most + excess)
    ensures excess + (n - 1) * (most + excess) == (n - 1) * most + n * excess
  {
  }

  /** Over every interleaving of any number of runs, commits, failures and crashes, a hard global budget that opens
      within its limit is never exceeded, even by what is still uncommitted or in flight, by more than the bound the
      governor states plus, for each run that may be live, what one call may cost beyond its reservation. When no call
      costs more than was reserved that is the stated bound; with one run live at a time, nothing at all. */
  lemma OvershootIsBounded(s: State, most: nat, excess: nat, steps: seq<Step>, g: nat)
    requires Opening(s) && |s.slots| > 0 && HardGlobal(s, g) && s.budgets[g].consumed <= s.budgets[g].limit
    requires Run(s, most, excess, steps).Some?
    ensures
      var z := Run(s, most, excess, steps).value;
      && |z.budgets| == |s.budgets|
      && OvershootBound(|s.slots|, most).Ok?
      && z.budgets[g].consumed + LoadSum(z.slots, GlobalScope, excess)
         <= s.budgets[g].limit + OvershootBound(|s.slots|, most).value + |s.slots| * excess
      && (|s.slots| == 1 ==> z.budgets[g].consumed + LoadSum(z.slots, GlobalScope, excess) <= s.budgets[g].limit + excess)
  {
    IdleSum(s.slots, GlobalScope, excess);
    BoundsAgree(|s.slots|, most, excess);
    RunKeepsGlobal(s, most, excess, steps, g);
    BudgetsAreConserved(s, most, excess, steps);
  }

  // ---- a run's own budget ----

  ghost predicate RunsApart(slots: seq<Slot>) {
    forall j, k :: 0 <= j < |slots| && 0 <= k < |slots| && slots[j].Live? && slots[k].Live? && slots[j].run == slots[k].run ==> j == k
  }

  ghost predicate RunInv(s: State, b: nat, run: nat, excess: nat) {
    && b < |s.budgets| && s.budgets[b].scope == RunScope(run) && s.budgets[b].hardStop
    && s.budgets[b].consumed <= s.budgets[b].limit + excess
    && RunsApart(s.slots)
    && forall j :: 0 <= j < |s.slots| ==>
         && s.budgets[b].consumed + Load(s.slots[j], RunScope(run), excess) <= s.budgets[b].limit + excess
         && (Load(s.slots[j], RunScope(run), excess) > 0 ==> s.slots[j].run == run)
  }

  /** A slot replaced by one of the same run, or emptied, that owes no more than the budget can bear. */
  lemma SlotKeepsRun(s: State, z: State, i: nat, b: nat, run: nat, excess: nat)
    requires RunInv(s, b, run, excess) && i < |s.slots| && z.budgets == s.budgets && |z.slots| == |s.slots|
    requires z.slots == s.slots[i := z.slots[i]] && RunsApart(z.slots)
    requires s.budgets[b].consumed + Load(z.slots[i], RunScope(run), excess) <= s.budgets[b].limit + excess
    requires Load(z.slots[i], RunScope(run), excess) > 0 ==> z.slots[i].run == run
    ensures RunInv(z, b, run, excess)
  {
  }

  lemma CommitKeepsRun(s: State, i: nat, b: nat, run: nat, excess: nat)
    requires RunInv(s, b, run, excess) && Quiet(s, i)
    ensures RunInv(Next(s, Commit(i)).value, b, run, excess)
  {
  }

  lemma AdmitKeepsRun(s: State, i: nat, reservation: nat, toolCalls: nat, b: nat, run: nat, excess: nat)
    requires RunInv(s, b, run, excess) && CanAdmit(s, i, reservation, toolCalls)
    ensures RunInv(Next(s, Admit(i, reservation, toolCalls)).value, b, run, excess)
  {
    if s.slots[i].run == run {
      AdmissionFits(s, i, reservation, toolCalls, b);
    }
    SlotKeepsRun(s, Next(s, Admit(i, reservation, toolCalls)).value, i, b, run, excess);
  }

  lemma StepKeepsRun(s: State, step: Step, most: nat, b: nat, run: nat, excess: nat)
    requires RunInv(s, b, run, excess) && Within(s, step, most, excess) && Next(s, step).Some?
    ensures RunInv(Next(s, step).value, b, run, excess)
  {
    match step
    case Commit(i) => CommitKeepsRun(s, i, b, run, excess);
    case Admit(i, reservation, toolCalls) => AdmitKeepsRun(s, i, reservation, toolCalls, b, run, excess);
    case Finish(i, amount, at) =>
      ChargeAdds(s.slots[i], amount, at, RunScope(run));
      SlotKeepsRun(s, Next(s, step).value, i, b, run, excess);
    case _ => SlotKeepsRun(s, Next(s, step).value, step.i, b, run, excess);
  }

  lemma {:induction false} RunKeepsRun(s: State, most: nat, excess: nat, steps: seq<Step>, b: nat, run: nat)
    requires RunInv(s, b, run, excess) && Run(s, most, excess, steps).Some?
    ensures RunInv(Run(s, most, excess, steps).value, b, run, excess)
  {
    if steps != [] {
      RunKeepsRun(s, most, excess, steps[..|steps| - 1], b, run);
      StepKeepsRun(Run(s, most, excess, steps[..|steps| - 1]).value, steps[|steps| - 1], most, b, run, excess);
    }
  }

  /** A hard budget of one run is exceeded by no more than what one call may cost beyond its reservation, so not at all
      when none does, however many other runs are live: only its own run charges it, and that run sees its own
      uncommitted charges. */
  lemma RunBudgetHolds(s: State, most: nat, excess: nat, steps: seq<Step>, b: nat, j: nat)
    requires Opening(s) && b < |s.budgets| && s.budgets[b].scope.RunScope? && s.budgets[b].hardStop
    requires s.budgets[b].consumed <= s.budgets[b].limit && Run(s, most, excess, steps).Some? && j < |s.slots|
    ensures
      var z := Run(s, most, excess, steps).value;
      && |z.budgets| == |s.budgets| && |z.slots| == |s.slots|
      && z.budgets[b].consumed + Load(z.slots[j], s.budgets[b].scope, excess) <= s.budgets[b].limit + excess
  {
    RunKeepsRun(s, most, excess, steps, b, s.budgets[b].scope.run);
    BudgetsAreConserved(s, most, excess, steps);
  }
}
