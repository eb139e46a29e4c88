/** The executor's session: it claims, performs, resolves and reconciles action records in place. */
module Executor {
  import opened Vocabulary
  import opened Actions

  datatype ExecuteError = UnroutableAction

  class ActionStore {
    var records: Records
    var audit: seq<ReconcileEvent>

    constructor ()
      ensures records == map[] && audit == [] && Valid()
    {
      records, audit := map[], [];
    }

    ghost predicate Valid()
      reads this
    {
      Consistent(records, audit)
    }

    /** Insert or discover: the row is the lock, the key is unique. */
    method Claim(g: Grant, key: Key, runId: nat) returns (claimed: bool)
      requires Valid()
      modifies this`records
      ensures Valid()
      ensures claimed <==> key !in old(records)
      ensures records == if claimed then old(records)[key := ClaimedRow(g, runId)] else old(records)
    {
      claimed := key !in records;
      if claimed {
        records := records[key := ClaimedRow(g, runId)];
        UpdateKeepsConsistent(old(records), audit, key, records[key]);
      }
    }

    /** Someone already owns this effect; an unresolved claim becomes an explicit unknown. */
    method ResolveExisting(key: Key) returns (r: ExecutionResult)
      requires Valid() && key in records
      modifies this`records
      ensures Valid()
      ensures records == old(records)[key := ResolvedRow(old(records)[key])]
      ensures r == StoredResult(records[key])
    {
      var row := records[key];
      if row.status == Succeeded {
        return ExecutionResult(row.status, row.attempts, row.result, true);
      }
      if row.status == Executing {
        row := row.(status := Indeterminate);
        records := records[key := row];
        UpdateKeepsConsistent(old(records), audit, key, row);
      }
      r := ExecutionResult(row.status, row.attempts, row.result, true);
    }

    /** Calls the tool, retrying only transient failures, and writes each attempt to the row as it goes. */
    method Perform(key: Key, client: ToolClient, tool: string, args: Arguments, at: Instant) returns (r: ExecutionResult)
      requires key in records
      modifies this`records, client
      ensures var s := Settle(client.answers, |old(client.log)|, 1);
              && records == old(records)[key := SettledRow(old(records)[key].(attempts := s.attempts), s.status, s.payload, at)]
              && client.log == old(client.log) + Calls(tool, args, client.answers, |old(client.log)|, s.attempts)
              && r == ExecutionResult(s.status, s.attempts, Some(s.payload), false)
    {
      ghost var first, before := |client.log|, records;
      ghost var s := Settle(client.answers, first, 1);
      var row := records[key];
      var attempt := 1;
      while true
        invariant 1 <= attempt <= MAX_ATTEMPTS
        invariant records == before[key := row] && row == before[key].(attempts := row.attempts)
        invariant Settle(client.answers, first, attempt) == s
        invariant client.log == old(client.log) + Calls(tool, args, client.answers, first, attempt - 1)
        decreases MAX_ATTEMPTS - attempt
      {
        row := row.(attempts := attempt);
        records := records[key := row];
        var payload := client.CallTool(tool, args);
        CallsExtend(tool, args, client.answers, first, attempt - 1);
        if payload.okIsTrue {
          assert s == Settlement(Succeeded, attempt, payload);
          row := row.(status := Succeeded, result := Some(payload), executedAt := Some(at));
          records := records[key := row];
          return ExecutionResult(Succeeded, attempt, Some(payload), false);
        }
        var code := ErrorCode(payload);
        if code.None? || !IsRetryable(code.value) || attempt == MAX_ATTEMPTS {
          assert s == Settlement(Failed, attempt, payload);
          row := row.(status := Failed, result := Some(payload));
          records := records[key := row];
          return ExecutionResult(Failed, attempt, Some(payload), false);
        }
        attempt := attempt + 1;
      }
    }

    /** One authorised effect: performed now, or the one already performed. */
    method ExecuteGrant(g: Grant, key: Key, runId: nat, client: ToolClient, args: Arguments, at: Instant)
      returns (r: Result<ExecutionResult, ExecuteError>)
      requires Valid()
      modifies this`records, client
      ensures Valid()
      ensures r.Err? <==> ToolFor(g.action).None?
      ensures r.Err? ==> records == old(records) && client.log == old(client.log)
      ensures r.Ok? ==>
                var e := Execute(old(records), g, key, runId, client.answers, |old(client.log)|, at);
                && records == e.records && r.value == e.result
                && client.log == old(client.log) + Calls(ToolFor(g.action).value, args, client.answers, |old(client.log)|, e.callsMade)
    {
      var tool := ToolFor(g.action);
      if tool.None? {
        return Err(UnroutableAction);
      }
      var claimed := Claim(g, key, runId);
      var result: ExecutionResult;
      if claimed {
        result := Perform(key, client, tool.value, args, at);
        UpdateKeepsConsistent(old(records), audit, key, records[key]);
      } else {
        result := ResolveExisting(key);
        assert Calls(tool.value, args, client.answers, |client.log|, 0) == [];
      }
      r := Ok(result);
    }

    method ReconcileRecord(key: Key, f: Finding, actor: string, evidence: string, at: Instant)
      returns (r: Result<ActionRecord, ReconcileError>)
      requires Valid()
      modifies this
      ensures Valid()
      ensures r == if key in old(records) then Reconcile(old(records)[key], f, actor, evidence, at) else Err(NoSuchRecord)
      ensures r.Ok? ==>
                && records == old(records)[key := r.value]
                && audit == old(audit) + [ReconcileEvent(key, Indeterminate, r.value.status, Strip(actor), Strip(evidence), r.value.attempts, at)]
      ensures r.Err? ==> records == old(records) && audit == old(audit)
    {
      if key !in records {
        return Err(NoSuchRecord);
      }
      var row := records[key];
      if row.reconciledBy.Some? {
        return Err(AlreadyReconciled);
      }
      if row.status != Indeterminate {
        return Err(NotIndeterminate);
      }
      if Strip(actor) == [] {
        return Err(BlankActor);
      }
      if Strip(evidence) == [] {
        return Err(BlankEvidence);
      }
      var previous := row.status;
      row := row.(status := FindingStatus(f), reconciledBy := Some(Strip(actor)), reconciledAt := Some(at),
                  evidence := Some(Strip(evidence)));
      var event := ReconcileEvent(key, previous, row.status, Strip(actor), Strip(evidence), row.attempts, at);
      records := records[key := row];
      audit := audit + [event];
      assert event in audit;
      forall k | k in old(records) && old(records)[k].reconciledBy.Some? ensures HasEvent(old(records)[k], k, audit) {
        assert HasEvent(old(records)[k], k, old(audit));
      }
      UpdateKeepsConsistent(old(records), audit, key, row);
      r := Ok(row);
    }
  }

  /** An attestation has an actor, a time and a basis or none of them, and only settles. */
  predicate Attested(r: ActionRecord) {
    && (r.reconciledBy.Some? <==> r.reconciledAt.Some?)
    && (r.reconciledBy.Some? <==> r.evidence.Some?)
    && (r.reconciledBy.Some? ==> r.status in {Succeeded, Failed})
  }

  /** Every record is attested completely or not at all, and every attestation has its audit event. */
  ghost predicate Consistent(records: Records, audit: seq<ReconcileEvent>) {
    && (forall k :: k in records ==> Attested(records[k]))
    && (forall k :: k in records && records[k].reconciledBy.Some? ==> HasEvent(records[k], k, audit))
  }

  ghost predicate HasEvent(r: ActionRecord, key: Key, audit: seq<ReconcileEvent>) {
    exists e :: e in audit && e.key == key && e.next == r.status && Some(e.actor) == r.reconciledBy
  }

  lemma UpdateKeepsConsistent(records: Records, audit: seq<ReconcileEvent>, key: Key, row: ActionRecord)
    requires Consistent(records, audit) && Attested(row)
    requires row.reconciledBy.None? || HasEvent(row, key, audit)
    ensures Consistent(records[key := row], audit)
  {
  }

  lemma CallsExtend(tool: string, args: Arguments, answers: nat -> Payload, first: nat, n: nat)
    ensures Calls(tool, args, answers, first, n + 1)
         == Calls(tool, args, answers, first, n) + [ToolCall(tool, args, answers(first + n))]
  {
  }

  // ---- what a second attempt finds ----

  /** Running the same effect again, from any records and with any answers, calls nothing and changes nothing:
      whatever the first pass found or did, the key is taken and its row is no longer an open claim. */
  lemma SecondExecutionIsANoOp(
    records: Records, g: Grant, h: Grant, key: Key, runId: nat, run2: nat,
    answers: nat -> Payload, again: nat -> Payload, first: nat, second: nat, at: Instant, later: Instant)
    ensures
      var e := Execute(records, g, key, runId, answers, first, at);
      var f := Execute(e.records, h, key, run2, again, second, later);
      && f.records == e.records && f.callsMade == 0
      && f.result.alreadyDone && f.result.status == e.result.status && f.result.payload == e.result.payload
  {
    SettleStopsAtFirstDecisiveAnswer(answers, first, 1);
    var e := Execute(records, g, key, runId, answers, first, at);
    assert e.records[key].status != Executing;
    assert e.records[key := e.records[key]] == e.records;
  }
}
