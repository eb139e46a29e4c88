/** Approval requests: expiry is evaluated on read, nobody decides their own request, and a decision can be changed. */
module Approvals {
  import opened Vocabulary

  datatype Approval = Approval(
    evaluation: nat,
    status: ApprovalStatus,
    requestedBy: string,
    requestedAt: Instant,
    expiresAt: Instant,
    decidedAt: Option<Instant>,
    decidedBy: Option<string>,
    note: Option<string>)

  datatype DecideError = SelfApproval | AlreadyExpired

  function Requested(evaluation: nat, actor: string, at: Instant, ttl: nat): Approval {
    Approval(evaluation, Pending, actor, at, at + ttl, None, None, None)
  }

  function EffectiveStatus(a: Approval, now: Instant): ApprovalStatus {
    if a.status == Pending && a.expiresAt <= now then Expired else a.status
  }

  /** One decision: the row it leaves behind, and why it was refused if it was. */
  function Decide(a: Approval, approved: bool, actor: string, at: Instant, note: Option<string>)
    : (Approval, Option<DecideError>)
  {
    if a.requestedBy == actor then (a, Some(SelfApproval))
    else if EffectiveStatus(a, at) == Expired then (a.(status := Expired), Some(AlreadyExpired))
    else
      (a.(status := if approved then Approved else Rejected,
          decidedAt := Some(at),
          decidedBy := Some(actor),
          note := if note.Some? then note else a.note),
       None)
  }

  function Lapse(a: Approval, now: Instant): Approval {
    if a.status == Pending && a.expiresAt <= now then a.(status := Expired) else a
  }

  class ApprovalRequest {
    const evaluation: nat
    const requestedBy: string
    const requestedAt: Instant
    const expiresAt: Instant
    var status: ApprovalStatus
    var decidedAt: Option<Instant>
    var decidedBy: Option<string>
    var note: Option<string>

    function Row(): Approval
      reads this
    {
      Approval(evaluation, status, requestedBy, requestedAt, expiresAt, decidedAt, decidedBy, note)
    }

    constructor (evaluation: nat, actor: string, at: Instant, ttl: nat)
      ensures Row() == Requested(evaluation, actor, at, ttl)
    {
      this.evaluation, requestedBy, requestedAt, expiresAt := evaluation, actor, at, at + ttl;
      status, decidedAt, decidedBy, note := Pending, None, None, None;
    }

    /** Approves or rejects. A refusal for expiry still writes the expired status before it raises. */
    method DecideRequest(approved: bool, actor: string, at: Instant, newNote: Option<string>)
      returns (refused: Option<DecideError>)
      modifies this
      ensures (Row(), refused) == Decide(old(Row()), approved, actor, at, newNote)
    {
      if requestedBy == actor {
        return Some(SelfApproval);
      }
      if EffectiveStatus(Row(), at) == Expired {
        status := Expired;
        return Some(AlreadyExpired);
      }
      status := if approved then Approved else Rejected;
      decidedAt, decidedBy := Some(at), Some(actor);
      if newNote.Some? {
        note := newNote;
      }
      refused := None;
    }
  }

  function CountLapsed(rows: seq<Approval>, now: Instant): nat {
    if rows == [] then 0
    else CountLapsed(rows[..|rows| - 1], now) + if Lapse(rows[|rows| - 1], now) != rows[|rows| - 1] then 1 else 0
  }

  ghost function Rows(requests: seq<ApprovalRequest>): seq<Approval>
    reads requests
  {
    seq(|requests|, i requires 0 <= i < |requests| reads requests => requests[i].Row())
  }

  /** The sweeper: marks every lapsed pending request and touches no other. */
  method ExpireLapsed(requests: seq<ApprovalRequest>, now: Instant) returns (count: nat)
    requires forall i, j :: 0 <= i < j < |requests| ==> requests[i] != requests[j]
    modifies requests
    ensures forall i :: 0 <= i < |requests| ==> requests[i].Row() == Lapse(old(requests[i].Row()), now)
    ensures count == CountLapsed(old(Rows(requests)), now)
  {
    count := 0;
    ghost var before := Rows(requests);
    for i := 0 to |requests|
      invariant forall k :: 0 <= k < i ==> requests[k].Row() == Lapse(before[k], now)
      invariant forall k :: i <= k < |requests| ==> requests[k].Row() == before[k]
      invariant count == CountLapsed(before[..i], now)
    {
      assert before[..i + 1][..i] == before[..i];
      var request := requests[i];
      if request.status == Pending && request.expiresAt <= now {
        request.status := Expired;
        count := count + 1;
      }
    }
    assert before[..|requests|] == before;
  }

  // ---- what a request's whole life can and cannot do ----

  datatype Step =
    | DecideStep(approved: bool, actor: string, at: Instant, note: Option<string>)
    | SweepStep(at: Instant)

  function Apply(a: Approval, step: Step): Approval {
    match step
    case DecideStep(approved, actor, at, note) => Decide(a, approved, actor, at, note).0
    case SweepStep(at) => Lapse(a, at)
  }

  function Run(a: Approval, steps: seq<Step>): Approval
    decreases |steps|
  {
    if steps == [] then a else Run(Apply(a, steps[0]), steps[1..])
  }

  ghost predicate AllFrom(steps: seq<Step>, t: Instant) {
    forall i :: 0 <= i < |steps| ==> t <= steps[i].at
  }

  /** A decided request names a decider who is not its requester, however often it is decided again. */
  ghost predicate WellDecided(a: Approval) {
    a.status in {Approved, Rejected} ==>
      a.decidedAt.Some? && a.decidedBy.Some? && a.decidedBy.value != a.requestedBy
  }

  /** Whatever happens to a request, it keeps its requester and expiry, and once it is decided a second person
      first decided it while it was still pending, strictly before it expired. */
  lemma {:induction false} DecidedInTimeBySomeoneElse(a: Approval, steps: seq<Step>)
    requires a.status == Pending
    ensures
      var z := Run(a, steps);
      && (z.requestedBy, z.expiresAt, z.evaluation) == (a.requestedBy, a.expiresAt, a.evaluation)
      && WellDecided(z)
      && (z.status in {Approved, Rejected} ==>
            exists i :: 0 <= i < |steps| && steps[i].DecideStep? && steps[i].actor != a.requestedBy
                        && steps[i].at < a.expiresAt && Run(a, steps[..i]).status == Pending)
    decreases |steps|
  {
    if steps != [] {
      var b := Apply(a, steps[0]);
      if b.status == Pending {
        DecidedInTimeBySomeoneElse(b, steps[1..]);
        if Run(a, steps).status in {Approved, Rejected} {
          var i :| 0 <= i < |steps[1..]| && steps[1..][i].DecideStep? && steps[1..][i].actor != a.requestedBy
                   && steps[1..][i].at < a.expiresAt && Run(b, steps[1..][..i]).status == Pending;
          assert steps[..i + 1][1..] == steps[1..][..i];
          assert steps[i + 1] == steps[1..][i] && Run(a, steps[..i + 1]).status == Pending;
        }
      } else {
        DecidedStays(b, steps[1..]);
        if b.status in {Approved, Rejected} {
          assert Run(a, steps[..0]).status == Pending && steps[0].DecideStep?;
        }
      }
    }
  }

  lemma {:induction false} DecidedStays(a: Approval, steps: seq<Step>)
    requires WellDecided(a) && a.status != Pending
    ensures
      var z := Run(a, steps);
      && (z.requestedBy, z.expiresAt, z.evaluation) == (a.requestedBy, a.expiresAt, a.evaluation)
      && WellDecided(z)
      && (z.status == Expired <==> a.status == Expired)
      && z.status != Pending
    decreases |steps|
  {
    if steps != [] {
      DecidedStays(Apply(a, steps[0]), steps[1..]);
    }
  }

  lemma {:induction false} UndecidedStaysLapsed(a: Approval, steps: seq<Step>)
    requires a.status in {Pending, Expired} && AllFrom(steps, a.expiresAt)
    ensures Run(a, steps).status in {Pending, Expired}
    decreases |steps|
  {
    if steps != [] {
      var b := Apply(a, steps[0]);
      assert a.expiresAt <= steps[0].at;
      forall i | 0 <= i < |steps[1..]| ensures b.expiresAt <= steps[1..][i].at {
        assert steps[1..][i] == steps[i + 1];
      }
      UndecidedStaysLapsed(b, steps[1..]);
    }
  }

  /** From its expiry on, a request can still end up APPROVED exactly when somebody had already decided it:
      an undecided request is dead, but a rejected one can be turned into an approval at any later time. */
  lemma LateApprovalIffAlreadyDecided(a: Approval)
    ensures (exists steps :: AllFrom(steps, a.expiresAt) && Run(a, steps).status == Approved)
            <==> a.status in {Approved, Rejected}
  {
    if a.status in {Pending, Expired} {
      forall steps | AllFrom(steps, a.expiresAt) ensures Run(a, steps).status != Approved {
        UndecidedStaysLapsed(a, steps);
      }
    } else {
      var someoneElse := a.requestedBy + "2";
      var step := DecideStep(true, someoneElse, a.expiresAt, None);
      assert |someoneElse| != |a.requestedBy|;
      assert Run(a, [step]) == Run(Apply(a, step), []);
      assert AllFrom([step], a.expiresAt) && Run(a, [step]).status == Approved;
    }
  }
}
