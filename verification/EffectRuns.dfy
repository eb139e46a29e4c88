/** Particular runs: an uninterrupted worker does what the executor does, and runs that bound what is claimed. */
module EffectRuns {
  import opened Vocabulary
  import opened Actions
  import opened Authorization
  import opened EffectProtocol
  import Approvals
  import Policy

  lemma Extend(mode: Mode, s: State, steps: seq<Step>, step: Step)
    requires Run(mode, s, steps).Some?
    ensures Run(mode, s, steps + [step]) == Next(mode, Run(mode, s, steps).value, step)
  {
    assert (steps + [step])[..|steps + [step]| - 1] == steps;
  }

  lemma {:induction false} Join(mode: Mode, s: State, a: seq<Step>, b: seq<Step>)
    requires Run(mode, s, a).Some?
    ensures Run(mode, s, a + b) == Run(mode, Run(mode, s, a).value, b)
    decreases |b|
  {
    if b == [] {
      assert a + b == a;
    } else {
      var front := b[..|b| - 1];
      Join(mode, s, a, front);
      assert (a + b)[..|a + b| - 1] == a + front;
    }
  }

  // ---- an uninterrupted worker refines the executor ----

  function Attempts(w: WorkerId, answers: nat -> Payload, first: nat, attempt: nat): seq<Step>
    requires 1 <= attempt <= MAX_ATTEMPTS
    decreases MAX_ATTEMPTS - attempt
  {
    var p := answers(first + attempt - 1);
    [Attempt(w), Call(w, p), Record(w)]
    + if Verdict(attempt, p).Some? then [] else Attempts(w, answers, first, attempt + 1)
  }

  /** The state after an attempt is written and its call answered. */
  function Asked(s: State, w: WorkerId, p: Payload): State
    requires w in s.workers && s.workers[w].Claimed? && s.workers[w].key in s.rows
  {
    var me, tally := s.workers[w], Of(s, s.workers[w].key);
    var entry := s.rows[me.key];
    s.(rows := s.rows[me.key := entry.(record := entry.record.(attempts := me.attempt))],
       workers := s.workers[w := Answered(me.key, me.attempt, me.at, p)],
       history := s.history[me.key := tally.(calls := tally.calls + 1, oks := tally.oks + if p.okIsTrue then 1 else 0)])
  }

  lemma AskedByTwoSteps(s: State, w: WorkerId, p: Payload)
    requires w in s.workers && s.workers[w].Claimed? && s.workers[w].key in s.rows
    ensures AttemptStep(s, Attempt(w)).Some?
    ensures CallStep(AttemptStep(s, Attempt(w)).value, Call(w, p)) == Some(Asked(s, w, p))
  {
    var t := AttemptStep(s, Attempt(w)).value;
    var z := CallStep(t, Call(w, p)).value;
    assert z.workers == Asked(s, w, p).workers;
  }

  lemma AskedInARun(s: State, w: WorkerId, p: Payload)
    requires w in s.workers && s.workers[w].Claimed? && s.workers[w].key in s.rows
    ensures Run(ClaimCommits, s, [Attempt(w), Call(w, p)]) == Some(Asked(s, w, p))
  {
    AskedByTwoSteps(s, w, p);
    Extend(ClaimCommits, s, [], Attempt(w));
    Extend(ClaimCommits, s, [Attempt(w)], Call(w, p));
    assert [] + [Attempt(w)] == [Attempt(w)] && [Attempt(w)] + [Call(w, p)] == [Attempt(w), Call(w, p)];
  }

  /** One trip round the retry loop. */
  lemma OneAttempt(s: State, w: WorkerId, p: Payload)
    requires w in s.workers && s.workers[w].Claimed? && s.workers[w].key in s.rows
    ensures Run(ClaimCommits, s, [Attempt(w), Call(w, p), Record(w)]) == RecordStep(Asked(s, w, p), Record(w))
  {
    AskedInARun(s, w, p);
    Extend(ClaimCommits, s, [Attempt(w), Call(w, p)], Record(w));
    assert [Attempt(w), Call(w, p)] + [Record(w)] == [Attempt(w), Call(w, p), Record(w)];
  }

  lemma RecordedAfter(s: State, w: WorkerId, p: Payload)
    requires w in s.workers && s.workers[w].Claimed? && s.workers[w].key in s.rows
    ensures
      var me := s.workers[w];
      var z := RecordStep(Asked(s, w, p), Record(w));
      && z.Some?
      && Of(z.value, me.key).calls == Of(s, me.key).calls + 1
      && var row := s.rows[me.key].record.(attempts := me.attempt);
         match Verdict(me.attempt, p)
         case None => z.value.rows == s.rows[me.key := s.rows[me.key].(record := row)]
                      && z.value.workers == s.workers[w := Claimed(me.key, me.attempt + 1, me.at)]
         case Some(status) => z.value.rows == s.rows[me.key := s.rows[me.key].(record := SettledRow(row, status, p, me.at))]
                              && z.value.workers == s.workers - {w}
  {
  }

  /** The pass is over and its row is settled as the loop ends; end.attempts counts from the row's first. */
  ghost predicate SettledBy(s: State, w: WorkerId, z: State, end: Settlement)
    requires w in s.workers && s.workers[w].Claimed? && s.workers[w].key in s.rows
  {
    var me := s.workers[w];
    && z.workers == s.workers - {w}
    && z.rows == s.rows[me.key := s.rows[me.key].(record :=
         SettledRow(s.rows[me.key].record.(attempts := end.attempts), end.status, end.payload, me.at))]
    && Of(z, me.key).calls == Of(s, me.key).calls + end.attempts - me.attempt + 1
  }

  /** What a transient answer leaves is settled the same way. */
  lemma SettledAfterOne(s: State, w: WorkerId, p: Payload, z: State, end: Settlement)
    requires w in s.workers && s.workers[w].Claimed? && s.workers[w].key in s.rows && Verdict(s.workers[w].attempt, p).None?
    ensures
      var t := RecordStep(Asked(s, w, p), Record(w)).value;
      && w in t.workers && t.workers[w] == Claimed(s.workers[w].key, s.workers[w].attempt + 1, s.workers[w].at)
      && s.workers[w].key in t.rows
      && (SettledBy(t, w, z, end) ==> SettledBy(s, w, z, end))
  {
    RecordedAfter(s, w, p);
    var t := RecordStep(Asked(s, w, p), Record(w)).value;
    assert t.workers - {w} == s.workers - {w};
  }

  lemma {:induction false} AttemptsSettle(s: State, w: WorkerId, answers: nat -> Payload, first: nat)
    requires w in s.workers && s.workers[w].Claimed? && s.workers[w].key in s.rows
    requires 1 <= s.workers[w].attempt <= MAX_ATTEMPTS
    ensures
      var z := Run(ClaimCommits, s, Attempts(w, answers, first, s.workers[w].attempt));
      z.Some? && SettledBy(s, w, z.value, Settle(answers, first, s.workers[w].attempt))
    decreases MAX_ATTEMPTS - s.workers[w].attempt
  {
    var me := s.workers[w];
    var p := answers(first + me.attempt - 1);
    var once := [Attempt(w), Call(w, p), Record(w)];
    OneAttempt(s, w, p);
    if Verdict(me.attempt, p).None? {
      var t := RecordStep(Asked(s, w, p), Record(w)).value;
      var rest := Attempts(w, answers, first, me.attempt + 1);
      SettledAfterOne(s, w, p, s, Settlement(Failed, 0, p));
      AttemptsSettle(t, w, answers, first);
      SettledAfterOne(s, w, p, Run(ClaimCommits, t, rest).value, Settle(answers, first, me.attempt + 1));
      Join(ClaimCommits, s, once, rest);
    } else {
      RecordedAfter(s, w, p);
      assert Attempts(w, answers, first, me.attempt) == once + [] == once;
    }
  }

  function Records(rows: map<Key, Entry>): Actions.Records {
    map k | k in rows :: rows[k].record
  }

  lemma RecordsUpdate(rows: map<Key, Entry>, k: Key, e: Entry)
    ensures Records(rows[k := e]) == Records(rows)[k := e.record]
  {
  }

  lemma RecordedOver(rows: map<Key, Entry>, k: Key, e: Entry, r: ActionRecord)
    ensures Records(rows[k := e][k := e.(record := r)]) == Records(rows)[k := r]
  {
    RecordsUpdate(rows, k, e);
    RecordsUpdate(rows[k := e], k, e.(record := r));
  }

  function Uninterrupted(s: State, w: WorkerId, answers: nat -> Payload, first: nat): seq<Step>
    requires w in s.workers && s.workers[w].Granted?
  {
    if s.workers[w].key in s.rows then [Claim(w), Resolve(w)] else [Claim(w)] + Attempts(w, answers, first, 1)
  }

  function Opened(s: State, w: WorkerId): State
    requires w in s.workers && s.workers[w].Granted?
  {
    var me, tally := s.workers[w], Of(s, s.workers[w].key);
    s.(rows := s.rows[me.key := Entry(ClaimedRow(me.grant, me.runId), w, None, me.facts)],
       workers := s.workers[w := Claimed(me.key, 1, me.at)],
       history := s.history[me.key := tally.(claims := tally.claims + 1)])
  }

  lemma ClaimOpens(s: State, w: WorkerId)
    requires w in s.workers && s.workers[w].Granted? && s.workers[w].key !in s.rows
    ensures Run(ClaimCommits, s, [Claim(w)]) == Some(Opened(s, w))
  {
    Extend(ClaimCommits, s, [], Claim(w));
    assert [] + [Claim(w)] == [Claim(w)];
  }

  lemma ClaimedThenSettled(s: State, w: WorkerId, answers: nat -> Payload, first: nat)
    requires w in s.workers && s.workers[w].Granted? && s.workers[w].key !in s.rows
    ensures
      var me, t := s.workers[w], Opened(s, w);
      var z := Run(ClaimCommits, s, [Claim(w)] + Attempts(w, answers, first, 1));
      var end := Settle(answers, first, 1);
      && z.Some? && z.value.workers == t.workers - {w}
      && z.value.rows == t.rows[me.key := t.rows[me.key].(record :=
           SettledRow(t.rows[me.key].record.(attempts := end.attempts), end.status, end.payload, me.at))]
      && Of(z.value, me.key).calls == Of(t, me.key).calls + end.attempts
  {
    ClaimOpens(s, w);
    AttemptsSettle(Opened(s, w), w, answers, first);
    Join(ClaimCommits, s, [Claim(w)], Attempts(w, answers, first, 1));
  }

  lemma FoundThenResolved(s: State, w: WorkerId)
    requires w in s.workers && s.workers[w].Granted? && s.workers[w].key in s.rows
    requires s.rows[s.workers[w].key].uncommittedBy.None?
    ensures
      var key := s.workers[w].key;
      var z := Run(ClaimCommits, s, [Claim(w), Resolve(w)]);
      && z.Some? && z.value.workers == s.workers - {w} && z.value.history == s.history
      && z.value.rows == s.rows[key := s.rows[key].(record := ResolvedRow(s.rows[key].record))]
  {
    Extend(ClaimCommits, s, [], Claim(w));
    Extend(ClaimCommits, s, [Claim(w)], Resolve(w));
    assert [] + [Claim(w)] == [Claim(w)] && [Claim(w)] + [Resolve(w)] == [Claim(w), Resolve(w)];
    var key := s.workers[w].key;
    assert s.rows[key := s.rows[key]] == s.rows;
  }

  /** The interleaved protocol and the sequential executor are the same machine: a granted worker that is not
      interrupted leaves exactly the records, and makes exactly the calls, that the executor's specification computes,
      and its own pass is over. */
  lemma UninterruptedWorkerIsTheExecutor(s: State, w: WorkerId, answers: nat -> Payload, first: nat)
    requires w in s.workers && s.workers[w].Granted?
    requires forall k :: k in s.rows ==> s.rows[k].uncommittedBy.None?
    ensures
      var me := s.workers[w];
      var z := Run(ClaimCommits, s, Uninterrupted(s, w, answers, first));
      var e := Execute(Records(s.rows), me.grant, me.key, me.runId, answers, first, me.at);
      && z.Some? && Records(z.value.rows) == e.records && z.value.workers == s.workers - {w}
      && Of(z.value, me.key).calls == Of(s, me.key).calls + e.callsMade
  {
    var me := s.workers[w];
    if me.key in s.rows {
      FoundThenResolved(s, w);
      RecordsUpdate(s.rows, me.key, s.rows[me.key].(record := ResolvedRow(s.rows[me.key].record)));
    } else {
      ClaimedThenSettled(s, w, answers, first);
      var end, entry := Settle(answers, first, 1), Opened(s, w).rows[me.key];
      RecordedOver(s.rows, me.key, entry, SettledRow(entry.record.(attempts := end.attempts), end.status, end.payload, me.at));
    }
  }

  // ---- runs that show a claim's limits ----

  const TASK := Intervention(1, 7, 1, "Call the champion", Executable(CrmTask), "Silent for two weeks", "OPP-2001")
  const DRAFT := Intervention(2, 7, 2, "Re-engage", Executable(EmailDraft), "Silent for two weeks", "ACC-1001")
  const SUBJECT := Subject("INC-001", "ACC-1001", "USR-1", "OPP-2001", "USR-2")
  const DONE := Payload(true, None, Null)

  function TaskKey(): Key {
    Key(SUBJECT.incidentRef, CrmTask, TASK.targetRef, BuildArguments(TASK, CrmTask, SUBJECT, 0).value)
  }

  function TaskGrant(): Worker {
    Granted(Grant(1, CrmTask, "OPP-2001", 1, None), TaskKey(), 7, 0, Facts(Allow, Allow, None, None))
  }

  /** A proposed task, recorded as allowed, is granted to any idle worker. */
  lemma TaskIsGranted(s: State, w: WorkerId)
    requires w !in s.workers
    requires s.tables == Tables(map[1 := TASK], map[1 := Allow], map[]) && s.firstDecisions == map[]
    ensures AuthoriseStep(s, Authorise(w, 1, SUBJECT, 0)) == Some(s.(workers := s.workers[w := TaskGrant()]))
  {
    FreshDecisions(TASK.action);
    GrantedExactly(s.tables, 1, 0);
  }

  const PROPOSED := INITIAL.(tables := Tables(map[1 := TASK], map[1 := Allow], map[]))

  lemma TaskProposed(mode: Mode)
    ensures Run(mode, INITIAL, [Propose(TASK, Some(Allow), "agent", 0, 1)]) == Some(PROPOSED)
  {
    Extend(mode, INITIAL, [], Propose(TASK, Some(Allow), "agent", 0, 1));
    assert [] + [Propose(TASK, Some(Allow), "agent", 0, 1)] == [Propose(TASK, Some(Allow), "agent", 0, 1)];
  }

  /** Worker 0 performs the task and dies before it commits. */
  lemma PerformedAndLost() returns (steps: seq<Step>, s: State)
    ensures Run(ClaimFlushes, INITIAL, steps) == Some(s)
    ensures s.tables == PROPOSED.tables && s.firstDecisions == map[] && s.workers == map[]
    ensures TaskKey() !in s.rows && Of(s, TaskKey()) == Tally(1, 1, 1, 1)
  {
    TaskProposed(ClaimFlushes);
    steps, s := [Propose(TASK, Some(Allow), "agent", 0, 1)], PROPOSED;
    TaskIsGranted(s, 0);
    Extend(ClaimFlushes, INITIAL, steps, Authorise(0, 1, SUBJECT, 0));
    steps, s := steps + [Authorise(0, 1, SUBJECT, 0)], s.(workers := map[0 := TaskGrant()]);
    steps, s := PerformOnce(steps, s, 0, TaskKey());
    Extend(ClaimFlushes, INITIAL, steps, Crash(0));
    steps, s := steps + [Crash(0)], CrashStep(s, Crash(0)).value;
  }

  /** As the code runs it, the claim is only flushed: a worker that dies after its call was answered ok takes the claim
      with it, and the next pass claims the same key and performs the same effect a second time. */
  lemma FlushedClaimCanPerformTwice()
    ensures exists s :: Reachable(ClaimFlushes, s) && Of(s, TaskKey()).oks == 2 && Of(s, TaskKey()).claims == 2
  {
    var m, k := ClaimFlushes, TaskKey();
    var steps, s := PerformedAndLost();
    TaskIsGranted(s, 1);
    Extend(m, INITIAL, steps, Authorise(1, 1, SUBJECT, 0));
    steps, s := steps + [Authorise(1, 1, SUBJECT, 0)], s.(workers := s.workers[1 := TaskGrant()]);
    steps, s := PerformOnce(steps, s, 1, k);
    assert Run(m, INITIAL, steps) == Some(s);
  }

  /** A claimed worker makes one call and is answered ok. */
  lemma AnsweredOk(mode: Mode, steps: seq<Step>, s: State, w: WorkerId) returns (longer: seq<Step>)
    requires Run(mode, INITIAL, steps) == Some(s)
    requires w in s.workers && s.workers[w].Claimed? && s.workers[w].key in s.rows
    ensures Run(mode, INITIAL, longer) == Some(Asked(s, w, DONE))
  {
    AskedByTwoSteps(s, w, DONE);
    Extend(mode, INITIAL, steps, Attempt(w));
    Extend(mode, INITIAL, steps + [Attempt(w)], Call(w, DONE));
    longer := steps + [Attempt(w)] + [Call(w, DONE)];
  }

  /** A granted worker of a flushed claim opens the row, makes one call and is answered ok. */
  lemma PerformOnce(steps: seq<Step>, s: State, w: WorkerId, k: Key) returns (longer: seq<Step>, z: State)
    requires Run(ClaimFlushes, INITIAL, steps) == Some(s)
    requires s.workers.Keys == {w} && s.workers[w].Granted? && s.workers[w].key == k && k !in s.rows
    ensures Run(ClaimFlushes, INITIAL, longer) == Some(z)
    ensures z.tables == s.tables && z.firstDecisions == s.firstDecisions && z.workers.Keys == {w}
    ensures k in z.rows && z.rows[k].uncommittedBy == Some(w)
    ensures Of(z, k) == Of(s, k).(claims := Of(s, k).claims + 1, calls := Of(s, k).calls + 1, oks := Of(s, k).oks + 1)
  {
    Extend(ClaimFlushes, INITIAL, steps, Claim(w));
    var y := ClaimStep(ClaimFlushes, s, Claim(w)).value;
    longer := AnsweredOk(ClaimFlushes, steps + [Claim(w)], y, w);
    z := Asked(y, w, DONE);
  }

  /** What a worker's transaction shows to others. A claim inserts exactly when the key is free, waits exactly while another
      worker's uncommitted row has it, and otherwise only reads; a commit, made once the pass is over, hands every row of
      the worker to everybody and changes nothing else. */
  lemma TransactionsExactly(mode: Mode, s: State, w: WorkerId)
    ensures w in s.workers && s.workers[w].Granted? ==>
              var k := s.workers[w].key;
              && (ClaimStep(mode, s, Claim(w)).None? <==>
                    k in s.rows && s.rows[k].uncommittedBy.Some? && s.rows[k].uncommittedBy.value != w)
              && (k in s.rows && ClaimStep(mode, s, Claim(w)).Some? ==>
                    ClaimStep(mode, s, Claim(w)).value == s.(workers := s.workers[w := Found(k, s.rows[k].record.status)]))
              && (k !in s.rows ==>
                    var z := ClaimStep(mode, s, Claim(w)).value;
                    && z.rows.Keys == s.rows.Keys + {k} && z.rows[k].claimant == w
                    && z.rows[k].uncommittedBy == match mode case ClaimFlushes => Some(w) case ClaimCommits => None)
    ensures CommitStep(s, Commit(w)).Some? <==> w !in s.workers
    ensures w !in s.workers ==>
              var z := CommitStep(s, Commit(w)).value;
              && z == s.(rows := z.rows) && z.rows.Keys == s.rows.Keys
              && forall k :: k in s.rows ==>
                   z.rows[k] == s.rows[k].(uncommittedBy := if s.rows[k].uncommittedBy == Some(w) then None else s.rows[k].uncommittedBy)
  {
  }

  /** As the code runs it, an effect that is performed, recorded and committed is there for everybody. */
  lemma EffectCanBeCommitted()
    ensures exists s :: Reachable(ClaimFlushes, s) && TaskKey() in s.rows && s.rows[TaskKey()].uncommittedBy.None?
                        && s.rows[TaskKey()].record.status == Succeeded && Of(s, TaskKey()) == Tally(1, 1, 1, 0)
  {
    var m, k := ClaimFlushes, TaskKey();
    TaskProposed(m);
    var steps, s := [Propose(TASK, Some(Allow), "agent", 0, 1)], PROPOSED;
    TaskIsGranted(s, 0);
    Extend(m, INITIAL, steps, Authorise(0, 1, SUBJECT, 0));
    steps, s := steps + [Authorise(0, 1, SUBJECT, 0)], s.(workers := map[0 := TaskGrant()]);
    Extend(m, INITIAL, steps, Claim(0));
    steps, s := steps + [Claim(0)], ClaimStep(m, s, Claim(0)).value;
    var more := AnsweredOk(m, steps, s, 0);
    var y := Asked(s, 0, DONE);
    var all, z := RecordedAndCommitted(more, y, k);
    assert Run(m, INITIAL, all) == Some(z) && Of(z, k) == Of(y, k);
  }

  lemma OkIsRecorded(y: State, k: Key) returns (x: State)
    requires y.workers == map[0 := Answered(k, 1, 0, DONE)] && k in y.rows && y.rows[k].uncommittedBy == Some(0)
    ensures Next(ClaimFlushes, y, Record(0)) == Some(x) && x.workers == map[] && x.history == y.history
    ensures k in x.rows && x.rows[k].uncommittedBy == Some(0) && x.rows[k].record.status == Succeeded
  {
    x := RecordStep(y, Record(0)).value;
  }

  lemma OkIsCommitted(x: State, k: Key) returns (z: State)
    requires x.workers == map[] && k in x.rows && x.rows[k].uncommittedBy == Some(0)
    ensures Next(ClaimFlushes, x, Commit(0)) == Some(z) && z.history == x.history
    ensures k in z.rows && z.rows[k].uncommittedBy.None? && z.rows[k].record == x.rows[k].record
  {
    z := CommitStep(x, Commit(0)).value;
  }

  lemma RecordedAndCommitted(before: seq<Step>, y: State, k: Key) returns (steps: seq<Step>, z: State)
    requires Run(ClaimFlushes, INITIAL, before) == Some(y) && y.workers == map[0 := Answered(k, 1, 0, DONE)]
    requires k in y.rows && y.rows[k].uncommittedBy == Some(0)
    ensures Run(ClaimFlushes, INITIAL, steps) == Some(z) && z.history == y.history
    ensures k in z.rows && z.rows[k].uncommittedBy.None? && z.rows[k].record.status == Succeeded
  {
    var x := OkIsRecorded(y, k);
    Extend(ClaimFlushes, INITIAL, before, Record(0));
    z := OkIsCommitted(x, k);
    steps := before + [Record(0)];
    Extend(ClaimFlushes, INITIAL, steps, Commit(0));
    steps := steps + [Commit(0)];
  }

  /** Worker 0 has opened the claim. */
  lemma TaskClaimed() returns (steps: seq<Step>, s: State)
    ensures Run(ClaimCommits, INITIAL, steps) == Some(s) && s.edits == {} && s.firstDecisions == map[]
    ensures s.tables == Tables(map[1 := TASK], map[1 := Allow], map[])
    ensures s.workers == map[0 := Claimed(TaskKey(), 1, 0)]
    ensures TaskKey() in s.rows && s.rows[TaskKey()].record == ClaimedRow(TaskGrant().grant, 7)
    ensures s.rows[TaskKey()].uncommittedBy.None? && Of(s, TaskKey()) == Tally(1, 0, 0, 0)
  {
    var m := ClaimCommits;
    TaskProposed(m);
    steps := [Propose(TASK, Some(Allow), "agent", 0, 1)];
    TaskIsGranted(PROPOSED, 0);
    Extend(m, INITIAL, steps, Authorise(0, 1, SUBJECT, 0));
    steps, s := steps + [Authorise(0, 1, SUBJECT, 0)], PROPOSED.(workers := map[0 := TaskGrant()]);
    Extend(m, INITIAL, steps, Claim(0));
    steps, s := steps + [Claim(0)], Opened(s, 0);
  }

  /** Worker 1 comes to an open claim. */
  lemma TaskFoundOpen(before: seq<Step>, y: State) returns (steps: seq<Step>, s: State)
    requires Run(ClaimCommits, INITIAL, before) == Some(y) && 1 !in y.workers && y.firstDecisions == map[]
    requires y.tables == Tables(map[1 := TASK], map[1 := Allow], map[])
    requires TaskKey() in y.rows && y.rows[TaskKey()].uncommittedBy.None? && y.rows[TaskKey()].record.status == Executing
    ensures Run(ClaimCommits, INITIAL, steps) == Some(s)
    ensures s == y.(workers := y.workers[1 := Found(TaskKey(), Executing)])
  {
    TaskIsGranted(y, 1);
    Extend(ClaimCommits, INITIAL, before, Authorise(1, 1, SUBJECT, 0));
    steps, s := before + [Authorise(1, 1, SUBJECT, 0)], y.(workers := y.workers[1 := TaskGrant()]);
    Extend(ClaimCommits, INITIAL, steps, Claim(1));
    steps, s := steps + [Claim(1)], s.(workers := s.workers[1 := Found(TaskKey(), Executing)]);
    assert s.workers == y.workers[1 := Found(TaskKey(), Executing)];
  }

  /** Worker 0 has opened the claim; worker 1 has read it as open. */
  lemma ReadWhileOpen() returns (steps: seq<Step>, s: State)
    ensures Run(ClaimCommits, INITIAL, steps) == Some(s)
    ensures s.workers == map[0 := Claimed(TaskKey(), 1, 0), 1 := Found(TaskKey(), Executing)]
    ensures TaskKey() in s.rows && s.rows[TaskKey()].record == ClaimedRow(TaskGrant().grant, 7)
    ensures s.rows[TaskKey()].uncommittedBy.None? && Of(s, TaskKey()) == Tally(1, 0, 0, 0)
  {
    steps, s := TaskClaimed();
    steps, s := TaskFoundOpen(steps, s);
  }

  /** Worker 0 is answered ok and records it. */
  lemma SuccessRecorded(before: seq<Step>, y: State, k: Key) returns (steps: seq<Step>, s: State)
    requires Run(ClaimCommits, INITIAL, before) == Some(y) && y.workers == map[0 := Claimed(k, 1, 0), 1 := Found(k, Executing)]
    requires k in y.rows && y.rows[k].uncommittedBy.None? && y.rows[k].record.reconciledBy.None? && Of(y, k).oks == 0
    ensures Run(ClaimCommits, INITIAL, steps) == Some(s) && s.workers == map[1 := Found(k, Executing)]
    ensures k in s.rows && s.rows[k].uncommittedBy.None? && Of(s, k).oks == 1
    ensures s.rows[k].record.status == Succeeded && s.rows[k].record.reconciledBy.None?
  {
    steps := AnsweredOk(ClaimCommits, before, y, 0);
    s := Asked(y, 0, DONE);
    Extend(ClaimCommits, INITIAL, steps, Record(0));
    steps, s := steps + [Record(0)], RecordStep(s, Record(0)).value;
  }

  /** Worker 1 then writes what it read. */
  lemma SuccessMarkedUnknown() returns (steps: seq<Step>, s: State)
    ensures Run(ClaimCommits, INITIAL, steps) == Some(s)
    ensures TaskKey() in s.rows && s.rows[TaskKey()].uncommittedBy.None? && Of(s, TaskKey()).oks == 1
    ensures s.rows[TaskKey()].record.status == Indeterminate && s.rows[TaskKey()].record.reconciledBy.None?
  {
    var k := TaskKey();
    steps, s := ReadWhileOpen();
    steps, s := SuccessRecorded(steps, s, k);
    Extend(ClaimCommits, INITIAL, steps, Resolve(1));
    steps, s := steps + [Resolve(1)], ResolveStep(s, Resolve(1)).value;
  }

  /** A person attests that an unknown effect did not occur. */
  lemma AttestedAsFailed(before: seq<Step>, y: State, k: Key) returns (z: State)
    requires Run(ClaimCommits, INITIAL, before) == Some(y) && k in y.rows && y.rows[k].uncommittedBy.None?
    requires y.rows[k].record.status == Indeterminate && y.rows[k].record.reconciledBy.None?
    ensures Reachable(ClaimCommits, z) && k in z.rows && z.rows[k].record.status == Failed && z.history == y.history
  {
    var x := AttestationOpened(before, y, k, DidNotOccur, "usr:ana");
    var steps := before + [Attests(k, DidNotOccur, "usr:ana")];
    var e := AttestationEdit(0, k, DidNotOccur, "usr:ana", "looked it up", 0);
    Extend(ClaimCommits, INITIAL, steps, Write(e));
    z := WriteStep(x, Write(e)).value;
    assert Run(ClaimCommits, INITIAL, steps + [Write(e)]) == Some(z);
  }

  function Attests(k: Key, finding: Finding, actor: string): Step {
    BeginAttestation(0, k, finding, actor, "looked it up", 0)
  }

  lemma AttestationOpened(before: seq<Step>, y: State, k: Key, finding: Finding, actor: string) returns (z: State)
    requires Run(ClaimCommits, INITIAL, before) == Some(y) && k in y.rows && y.rows[k].uncommittedBy.None?
    requires y.rows[k].record.status == Indeterminate && y.rows[k].record.reconciledBy.None?
    requires actor != "" && !IsSpace(actor[0])
    ensures Run(ClaimCommits, INITIAL, before + [Attests(k, finding, actor)]) == Some(z)
    ensures z == y.(edits := y.edits + {AttestationEdit(0, k, finding, actor, "looked it up", 0)})
  {
    var basis := "looked it up";
    assert !IsSpace(basis[0]);
    ReconcileExactly(y.rows[k].record, finding, actor, basis, 0);
    Extend(ClaimCommits, INITIAL, before, Attests(k, finding, actor));
    z := BeginAttestationStep(y, Attests(k, finding, actor)).value;
  }

  /** Worker 0 claims and dies; worker 1, coming later, finds the claim open and marks it unknown. */
  lemma LeftUnknown() returns (steps: seq<Step>, s: State)
    ensures Run(ClaimCommits, INITIAL, steps) == Some(s) && s.workers == map[] && s.edits == {}
    ensures TaskKey() in s.rows && s.rows[TaskKey()].uncommittedBy.None?
    ensures s.rows[TaskKey()].record.status == Indeterminate && s.rows[TaskKey()].record.reconciledBy.None?
  {
    steps, s := TaskClaimed();
    Extend(ClaimCommits, INITIAL, steps, Crash(0));
    steps, s := steps + [Crash(0)], CrashStep(s, Crash(0)).value;
    steps, s := TaskFoundOpen(steps, s);
    Extend(ClaimCommits, INITIAL, steps, Resolve(1));
    steps, s := steps + [Resolve(1)], ResolveStep(s, Resolve(1)).value;
  }

  /** Two people have read the unknown record; one says it occurred, the other that it did not. */
  lemma BothLooked() returns (steps: seq<Step>, s: State)
    ensures Run(ClaimCommits, INITIAL, steps) == Some(s) && s.workers == map[] && TaskKey() in s.rows
    ensures s.edits == {AttestationEdit(0, TaskKey(), Occurred, "usr:ana", "looked it up", 0),
                        AttestationEdit(0, TaskKey(), DidNotOccur, "usr:bo", "looked it up", 0)}
  {
    var k := TaskKey();
    var before, y := LeftUnknown();
    assert !IsSpace("usr:ana"[0]) && !IsSpace("usr:bo"[0]);
    var x := AttestationOpened(before, y, k, Occurred, "usr:ana");
    s := AttestationOpened(before + [Attests(k, Occurred, "usr:ana")], x, k, DidNotOccur, "usr:bo");
    steps := before + [Attests(k, Occurred, "usr:ana")] + [Attests(k, DidNotOccur, "usr:bo")];
  }

  /** The words of an attestation with nothing to strip. */
  lemma NothingToStrip(actor: string)
    requires actor != "" && !IsSpace(actor[0]) && !IsSpace(actor[|actor| - 1])
    ensures Strip(actor) == actor
  {
  }

  ghost predicate AttestedAs(s: State, k: Key, status: ActionStatus, actor: string) {
    s.workers == map[] && k in s.rows && s.rows[k].record.status == status && s.rows[k].record.reconciledBy == Some(actor)
  }

  /** Even with durable claims and no two passes on a key at once, an attestation can be overwritten: two people read the
      same unknown record, the first attests that its effect occurred, and the second writes over it that it did not. */
  lemma AttestationCanBeOverwritten()
    ensures exists s, e :: Reachable(ClaimCommits, s) && AttestedAs(s, TaskKey(), Succeeded, "usr:ana")
                           && Next(ClaimCommits, s, Write(e)).Some?
                           && AttestedAs(Next(ClaimCommits, s, Write(e)).value, TaskKey(), Failed, "usr:bo")
  {
    var k := TaskKey();
    var steps, y := BothLooked();
    var first := AttestationEdit(0, k, Occurred, "usr:ana", "looked it up", 0);
    var second := AttestationEdit(0, k, DidNotOccur, "usr:bo", "looked it up", 0);
    Extend(ClaimCommits, INITIAL, steps, Write(first));
    var s := WriteStep(y, Write(first)).value;
    assert Run(ClaimCommits, INITIAL, steps + [Write(first)]) == Some(s);
    NothingToStrip("usr:ana");
    NothingToStrip("usr:bo");
    assert AttestedAs(s, k, Succeeded, "usr:ana");
    assert "usr:ana"[4] != "usr:bo"[4];
    assert second in s.edits;
    assert AttestedAs(WriteStep(s, Write(second)).value, k, Failed, "usr:bo");
  }

  /** Even with durable claims, passes that overlap on a key can leave a record that says FAILED for an effect whose one
      call was answered ok: a second pass reads the open claim, the first records its success, the second then marks the
      row unknown, and a person who finds nothing attests that it did not occur. */
  lemma OverlapCanRecordASuccessAsFailed()
    ensures exists s :: Reachable(ClaimCommits, s) && TaskKey() in s.rows
                        && s.rows[TaskKey()].record.status == Failed && Of(s, TaskKey()).oks == 1
  {
    var steps, s := SuccessMarkedUnknown();
    var z := AttestedAsFailed(steps, s, TaskKey());
    assert Of(z, TaskKey()) == Of(s, TaskKey());
  }

  function DraftKey(): Key {
    Key(SUBJECT.incidentRef, EmailDraft, DRAFT.targetRef, BuildArguments(DRAFT, EmailDraft, SUBJECT, 0).value)
  }

  /** Nothing comes between reading a request and writing the decision. */
  lemma DecidedAtOnce(mode: Mode, y: State, id: nat, approved: bool, actor: string, at: Instant)
    returns (steps: seq<Step>, z: State)
    requires id in y.tables.approvals && Approvals.Decide(y.tables.approvals[id], approved, actor, at, None).1.None?
    ensures Run(mode, y, steps) == Some(z) && forall i :: 0 <= i < |steps| ==> !steps[i].Propose?
    ensures z.tables == y.tables.(approvals := y.tables.approvals[id :=
              Approvals.Decide(y.tables.approvals[id], approved, actor, at, None).0])
    ensures z.workers == y.workers && z.rows == y.rows && z.history == y.history
    ensures id in z.firstDecisions && y.edits - {DecisionEdit(0, id, y.tables.approvals[id], approved, actor, at, None)} == z.edits
  {
    var begin := BeginDecision(0, id, approved, actor, at, None);
    var e := DecisionEdit(0, id, y.tables.approvals[id], approved, actor, at, None);
    Extend(mode, y, [], begin);
    Extend(mode, y, [] + [begin], Write(e));
    var x := BeginDecisionStep(y, begin).value;
    steps, z := [] + [begin] + [Write(e)], WriteStep(x, Write(e)).value;
    assert DecidedOver(x.tables.approvals[id], e) == Approvals.Decide(y.tables.approvals[id], approved, actor, at, None).0;
  }

  lemma DraftProposed(mode: Mode) returns (steps: seq<Step>, s: State)
    ensures Run(mode, INITIAL, steps) == Some(s) && s.workers == map[] && s.rows == map[] && s.edits == {}
    ensures s.tables == Tables(map[2 := DRAFT], map[2 := RequireApproval], map[2 := Approvals.Requested(2, "agent", 0, 10)])
  {
    var propose := Propose(DRAFT, Some(RequireApproval), "agent", 0, 10);
    Extend(mode, INITIAL, [], propose);
    steps, s := [] + [propose], ProposeStep(INITIAL, propose).value;
  }

  lemma DraftApproved(mode: Mode) returns (steps: seq<Step>, s: State)
    ensures Run(mode, INITIAL, steps) == Some(s) && s.workers == map[] && s.rows == map[]
    ensures s.tables.interventions == map[2 := DRAFT] && s.tables.decisions == map[2 := RequireApproval]
    ensures 2 in s.tables.approvals && s.tables.approvals[2].status == Approved && s.tables.approvals[2].requestedBy == "agent"
  {
    var before, y := DraftProposed(mode);
    assert "usr:ana"[0] != "agent"[0];
    var more;
    more, s := DecidedAtOnce(mode, y, 2, true, "usr:ana", 5);
    Join(mode, INITIAL, before, more);
    steps := before + more;
  }

  lemma DraftGranted(mode: Mode) returns (steps: seq<Step>, s: State)
    ensures Run(mode, INITIAL, steps) == Some(s) && s.rows == map[]
    ensures 0 in s.workers && s.workers[0].Granted? && s.workers[0].key == DraftKey() && s.workers[0].grant.approvalId == Some(2)
    ensures 2 in s.tables.approvals && s.tables.approvals[2].status == Approved && s.tables.approvals[2].requestedBy == "agent"
  {
    steps, s := DraftApproved(mode);
    FreshDecisions(DRAFT.action);
    GrantedExactly(s.tables, 2, 0);
    var ask := Authorise(0, 2, SUBJECT, 0);
    Extend(mode, INITIAL, steps, ask);
    steps, s := steps + [ask], AuthoriseStep(s, ask).value;
  }

  /** An approval is read when the grant is given, not when the row is inserted: a person who withdraws it in between
      is too late, and the record is claimed while its request reads REJECTED. */
  lemma WithdrawnApprovalCanStillBeClaimed(mode: Mode)
    ensures exists s :: Reachable(mode, s) && DraftKey() in s.rows && s.rows[DraftKey()].record.approvalId == Some(2)
                        && 2 in s.tables.approvals && s.tables.approvals[2].status == Rejected
  {
    var steps, s := DraftGranted(mode);
    assert "usr:ana"[0] != "agent"[0];
    var more, y := DecidedAtOnce(mode, s, 2, false, "usr:ana", 6);
    Join(mode, INITIAL, steps, more);
    steps, s := steps + more, y;
    Extend(mode, INITIAL, steps, Claim(0));
    steps, s := steps + [Claim(0)], ClaimStep(mode, s, Claim(0)).value;
    assert Run(mode, INITIAL, steps) == Some(s);
  }

  /** A sweep that read a request as lapsed writes EXPIRED over a decision that was made in time and landed first; from
      then on the request is dead, though its decider and the instant of the decision are still on it. */
  lemma LateSweepExpiresADecision(mode: Mode)
    ensures exists s :: Reachable(mode, s) && 2 in s.tables.approvals && 2 in s.firstDecisions
                        && s.tables.approvals[2].status == Expired && s.tables.approvals[2].decidedBy == Some("usr:ana")
                        && s.tables.approvals[2].decidedAt == Some(5)
  {
    var before, y := DraftProposed(mode);
    var sweep, late := BeginLapse(0, 2, 10), LapseEdit(0, 2);
    Extend(mode, INITIAL, before, sweep);
    var x := BeginLapseStep(y, sweep).value;
    assert "usr:ana"[0] != "agent"[0];
    var more, z := DecidedAtOnce(mode, x, 2, true, "usr:ana", 5);
    Join(mode, INITIAL, before + [sweep], more);
    assert late in z.edits;
    Extend(mode, INITIAL, before + [sweep] + more, Write(late));
    assert Run(mode, INITIAL, before + [sweep] + more + [Write(late)]) == Some(WriteStep(z, Write(late)).value);
  }
}
