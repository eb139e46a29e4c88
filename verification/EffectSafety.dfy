/** At most one perform per key: proved over every interleaving, crash and resume. */
module EffectSafety {
  import opened Vocabulary
  import opened Actions
  import opened EffectProtocol

  predicate Performs(worker: Worker, k: Key) {
    (worker.Claimed? || worker.Sending? || worker.Answered?) && worker.key == k
  }

  predicate PerformsAny(worker: Worker) {
    worker.Claimed? || worker.Sending? || worker.Answered?
  }

  function OkCount(worker: Worker): nat {
    if worker.Answered? && worker.answer.okIsTrue then 1 else 0
  }

  function CallsSent(worker: Worker): nat
    requires PerformsAny(worker) && worker.attempt >= 1
  {
    if worker.Answered? then worker.attempt else worker.attempt - 1
  }

  /** A performing worker owns its row's one claim and has sent no more than its attempts. */
  ghost predicate WorkerOk(mode: Mode, s: State, w: WorkerId) {
    w in s.workers ==>
      var me := s.workers[w];
      && (PerformsAny(me) ==>
            && me.key in s.rows && s.rows[me.key].claimant == w
            && (mode == ClaimFlushes ==> s.rows[me.key].uncommittedBy == Some(w))
            && 1 <= me.attempt <= MAX_ATTEMPTS
            && Of(s, me.key).calls <= MAX_ATTEMPTS * Of(s, me.key).rollbacks + CallsSent(me)
            && Of(s, me.key).oks <= Of(s, me.key).rollbacks + OkCount(me))
      && (me.Found? ==> me.key in s.rows && s.rows[me.key].uncommittedBy in {None, Some(w)})
  }

  /** Every claim of a key is either the row that stands or a claim a rollback took back; each bought one perform. */
  ghost predicate KeyOk(mode: Mode, s: State, k: Key) {
    var t := Of(s, k);
    var lives := t.rollbacks + if k in s.rows then 1 else 0;
    && t.claims == lives && t.calls <= MAX_ATTEMPTS * lives && t.oks <= lives
    && (mode == ClaimCommits ==> t.rollbacks == 0 && (k in s.rows ==> s.rows[k].uncommittedBy.None?))
  }

  ghost predicate Inv(mode: Mode, s: State) {
    && (forall w :: WorkerOk(mode, s, w))
    && (forall k :: KeyOk(mode, s, k))
  }

  /** Only one worker can be performing a key. */
  lemma OnePerformer(mode: Mode, s: State, v: WorkerId, w: WorkerId)
    requires Inv(mode, s) && v in s.workers && w in s.workers
    requires PerformsAny(s.workers[v]) && PerformsAny(s.workers[w]) && s.workers[v].key == s.workers[w].key
    ensures v == w
  {
    assert WorkerOk(mode, s, v) && WorkerOk(mode, s, w);
  }

  lemma ClaimKeeps(mode: Mode, s: State, step: Step)
    requires Inv(mode, s) && step.Claim? && Next(mode, s, step).Some?
    ensures Inv(mode, Next(mode, s, step).value)
  {
    var z := Next(mode, s, step).value;
    var key := s.workers[step.w].key;
    assert KeyOk(mode, s, key);
    forall w ensures WorkerOk(mode, z, w) {
      assert WorkerOk(mode, s, w);
    }
    forall k ensures KeyOk(mode, z, k) {
      assert KeyOk(mode, s, k);
    }
  }

  /** Nothing moved but the contents of records, and workers only became idle or granted. */
  ghost predicate SameLives(s: State, z: State) {
    && z.rows.Keys == s.rows.Keys && z.history == s.history
    && (forall k :: k in s.rows ==> z.rows[k].claimant == s.rows[k].claimant && z.rows[k].uncommittedBy == s.rows[k].uncommittedBy)
    && (forall w :: w in z.workers ==> z.workers[w].Granted? || (w in s.workers && z.workers[w] == s.workers[w]))
  }

  lemma SameLivesKeeps(mode: Mode, s: State, z: State)
    requires Inv(mode, s) && SameLives(s, z)
    ensures Inv(mode, z)
  {
    forall w ensures WorkerOk(mode, z, w) {
      assert WorkerOk(mode, s, w);
    }
    forall k ensures KeyOk(mode, z, k) {
      assert KeyOk(mode, s, k);
    }
  }

  /** One performing worker moved, its row kept its owner, and only its own key's tally changed. */
  lemma PerformerMoves(mode: Mode, s: State, w: WorkerId, z: State)
    requires Inv(mode, s) && w in s.workers && PerformsAny(s.workers[w])
    requires z.rows.Keys == s.rows.Keys
    requires forall k :: k in s.rows ==> z.rows[k].claimant == s.rows[k].claimant && z.rows[k].uncommittedBy == s.rows[k].uncommittedBy
    requires forall k :: k != s.workers[w].key ==> Of(z, k) == Of(s, k)
    requires forall v :: v != w ==> (v in z.workers <==> v in s.workers) && (v in z.workers ==> z.workers[v] == s.workers[v])
    requires w in z.workers ==> !z.workers[w].Found?
    requires WorkerOk(mode, z, w) && KeyOk(mode, z, s.workers[w].key)
    ensures Inv(mode, z)
  {
    forall v ensures WorkerOk(mode, z, v) {
      assert WorkerOk(mode, s, v);
      if v != w && v in s.workers && PerformsAny(s.workers[v]) && s.workers[v].key == s.workers[w].key {
        OnePerformer(mode, s, v, w);
      }
    }
    forall k ensures KeyOk(mode, z, k) {
      assert KeyOk(mode, s, k);
    }
  }

  lemma AttemptKeeps(mode: Mode, s: State, step: Step)
    requires Inv(mode, s) && step.Attempt? && AttemptStep(s, step).Some?
    ensures Inv(mode, AttemptStep(s, step).value)
  {
    assert WorkerOk(mode, s, step.w) && KeyOk(mode, s, s.workers[step.w].key);
    PerformerMoves(mode, s, step.w, AttemptStep(s, step).value);
  }

  lemma CallKeeps(mode: Mode, s: State, step: Step)
    requires Inv(mode, s) && step.Call? && CallStep(s, step).Some?
    ensures Inv(mode, CallStep(s, step).value)
  {
    assert WorkerOk(mode, s, step.w) && KeyOk(mode, s, s.workers[step.w].key);
    PerformerMoves(mode, s, step.w, CallStep(s, step).value);
  }

  lemma RecordKeeps(mode: Mode, s: State, step: Step)
    requires Inv(mode, s) && step.Record? && RecordStep(s, step).Some?
    ensures Inv(mode, RecordStep(s, step).value)
  {
    assert WorkerOk(mode, s, step.w) && KeyOk(mode, s, s.workers[step.w].key);
    PerformerMoves(mode, s, step.w, RecordStep(s, step).value);
  }

  lemma CrashKeeps(mode: Mode, s: State, step: Step)
    requires Inv(mode, s) && step.Crash?
    ensures Inv(mode, CrashStep(s, step).value)
  {
    var z := CrashStep(s, step).value;
    forall k ensures KeyOk(mode, z, k) {
      assert KeyOk(mode, s, k);
    }
    forall w ensures WorkerOk(mode, z, w) {
      assert WorkerOk(mode, s, w);
      if w in z.workers && (PerformsAny(s.workers[w]) || s.workers[w].Found?) {
        var k := s.workers[w].key;
        assert KeyOk(mode, s, k);
        assert k !in RolledBack(s, step.w);
        assert Of(z, k) == Of(s, k);
      }
    }
  }

  lemma CommitKeeps(mode: Mode, s: State, step: Step)
    requires Inv(mode, s) && step.Commit? && Next(mode, s, step).Some?
    ensures Inv(mode, Next(mode, s, step).value)
  {
    var z := Next(mode, s, step).value;
    forall w ensures WorkerOk(mode, z, w) {
      assert WorkerOk(mode, s, w);
    }
    forall k ensures KeyOk(mode, z, k) {
      assert KeyOk(mode, s, k);
    }
  }

  lemma WriteKeepsLives(s: State, step: Step)
    requires step.Write? && WriteStep(s, step).Some?
    ensures SameLives(s, WriteStep(s, step).value)
  {
  }

  lemma OthersKeepLives(mode: Mode, s: State, step: Step)
    requires Inv(mode, s) && Next(mode, s, step).Some?
    requires !(step.Claim? || step.Crash? || step.Commit? || step.Attempt? || step.Call? || step.Record?)
    ensures SameLives(s, Next(mode, s, step).value)
  {
    if step.Write? {
      WriteKeepsLives(s, step);
    }
  }

  lemma StepKeeps(mode: Mode, s: State, step: Step)
    requires Inv(mode, s) && Next(mode, s, step).Some?
    ensures Inv(mode, Next(mode, s, step).value)
  {
    var z := Next(mode, s, step).value;
    match step
    case Claim(_) => ClaimKeeps(mode, s, step);
    case Crash(_) => CrashKeeps(mode, s, step);
    case Commit(_) => CommitKeeps(mode, s, step);
    case Attempt(_) => AttemptKeeps(mode, s, step);
    case Call(_, _) => CallKeeps(mode, s, step);
    case Record(_) => RecordKeeps(mode, s, step);
    case _ =>
      OthersKeepLives(mode, s, step);
      SameLivesKeeps(mode, s, z);
  }

  lemma {:induction false} RunKeeps(mode: Mode, steps: seq<Step>)
    requires Run(mode, INITIAL, steps).Some?
    ensures Inv(mode, Run(mode, INITIAL, steps).value)
    decreases |steps|
  {
    if steps != [] {
      var front := steps[..|steps| - 1];
      RunKeeps(mode, front);
      StepKeeps(mode, Run(mode, INITIAL, front).value, steps[|steps| - 1]);
    }
  }

  /** With durable claims, in every reachable state a key has been claimed at most once, its tool called at most three
      times, and at most one of those calls answered ok; and two workers are never performing it together. */
  lemma AtMostOnePerformPerKey(s: State, k: Key)
    requires Reachable(ClaimCommits, s)
    ensures Of(s, k).claims <= 1 && Of(s, k).calls <= MAX_ATTEMPTS && Of(s, k).oks <= 1
    ensures k in s.rows <==> Of(s, k).claims == 1
    ensures forall v, w :: v in s.workers && w in s.workers && Performs(s.workers[v], k) && Performs(s.workers[w], k) ==> v == w
  {
    var steps :| Run(ClaimCommits, INITIAL, steps) == Some(s);
    RunKeeps(ClaimCommits, steps);
    assert KeyOk(ClaimCommits, s, k);
    forall v, w | v in s.workers && w in s.workers && Performs(s.workers[v], k) && Performs(s.workers[w], k) ensures v == w {
      OnePerformer(ClaimCommits, s, v, w);
    }
  }

  /** Claims are conserved under either reading: each is the standing row or one a rollback took back, and the tool is
      bounded by three calls and one ok for each life of the row. */
  lemma ClaimsAreConserved(mode: Mode, s: State, k: Key)
    requires Reachable(mode, s)
    ensures
      var t := Of(s, k);
      var lives := t.rollbacks + if k in s.rows then 1 else 0;
      && t.claims == lives && t.calls <= MAX_ATTEMPTS * lives && t.oks <= lives
      && (mode == ClaimCommits ==> t.rollbacks == 0)
  {
    var steps :| Run(mode, INITIAL, steps) == Some(s);
    RunKeeps(mode, steps);
    assert KeyOk(mode, s, k);
  }
}
