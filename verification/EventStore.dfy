/** The event tables and the stages that change them, each proved against its specification in Ingestion. */
module EventStore {
  import opened Vocabulary
  import opened Mirror
  import opened Ingestion
  import opened IngestionLaws
  import Incidents

  datatype Summary = Summary(offered: nat, inserted: nat, normalized: nat, contexts: nat, created: nat, duplicates: nat, refs: seq<nat>)

  datatype Detection = Detection(contexts: nat, candidates: nat, created: seq<Signal>)

  class Store {
    var raw: seq<RawEvent>
    var normalized: seq<NormalizedEvent>
    var signals: seq<Signal>
    const book: Incidents.IncidentStore

    constructor (book: Incidents.IncidentStore)
      ensures this.book == book && raw == [] && normalized == [] && signals == []
    {
      this.book, raw, normalized, signals := book, [], [], [];
    }

    function Contents(): Tables
      reads this, book
    {
      Tables(raw, normalized, signals, book.incidents, book.audit, book.nextRef)
    }

    /** Stores each event whose source key is new and skips the rest. */
    method IngestSourceEvents(events: seq<SourceEvent>, at: Instant) returns (offered: nat, inserted: nat)
      modifies `raw
      ensures raw == Ingested(old(raw), events, at)
      ensures offered == |events| && |raw| == |old(raw)| + inserted
    {
      offered, inserted := |events|, 0;
      for i := 0 to |events|
        invariant raw == Ingested(old(raw), events[..i], at)
        invariant |raw| == |old(raw)| + inserted
      {
        assert events[..i + 1][..i] == events[..i];
        if !HasRaw(raw, events[i]) {
          raw := raw + [RawOf(events[i], at)];
          inserted := inserted + 1;
        }
      }
      assert events[..|events|] == events;
    }

    /** Normalizes every raw event with no normalized row; stops at the first that cannot be typed. */
    method NormalizePending() returns (r: Result<nat, CycleError>)
      modifies `normalized
      ensures
        match Normalized(old(normalized), PendingRows(raw, old(normalized)))
        case Ok(z) => normalized == z && r == Ok(|PendingRows(raw, old(normalized))|)
        case Err(e) => r == Err(e)
    {
      var pending := PendingRows(raw, normalized);
      ghost var start := normalized;
      for i := 0 to |pending|
        invariant Normalized(start, pending[..i]) == Ok(normalized)
      {
        assert pending[..i + 1][..i] == pending[..i];
        var envelope := BuildEnvelope(pending[i].0, pending[i].1);
        if envelope.Err? {
          NormalizeStops(start, pending, i + 1);
          return Err(envelope.error);
        }
        normalized := normalized + [envelope.value];
      }
      assert pending[..|pending|] == pending;
      r := Ok(|pending|);
    }

    /** Inserts a candidate, unless a signal with its key is already there. */
    method PersistCandidate(m: Mirror, c: Candidate) returns (r: Result<bool, CycleError>)
      modifies `signals
      ensures HasSignal(old(signals), c.dedupeKey) ==> r == Ok(false) && signals == old(signals)
      ensures !HasSignal(old(signals), c.dedupeKey) && ForeignKeysHold(m, c) ==> r == Ok(true) && signals == old(signals) + [c]
      ensures !HasSignal(old(signals), c.dedupeKey) && !ForeignKeysHold(m, c) ==>
                r == Err(ForeignKey(c.dedupeKey)) && signals == old(signals)
    {
      if HasSignal(signals, c.dedupeKey) {
        return Ok(false);
      }
      if !ForeignKeysHold(m, c) {
        return Err(ForeignKey(c.dedupeKey));
      }
      signals := signals + [c];
      r := Ok(true);
    }

    /** Runs the detectors over one opportunity, persisting as it goes; `before` is what was offered earlier. */
    method EvaluateContext(m: Mirror, c: Context, detectors: seq<Detector>, ghost start: seq<Signal>, ghost before: seq<Candidate>,
                           already: seq<Signal>)
      returns (r: Result<(nat, seq<Signal>), CycleError>)
      requires IngestionPersisted(m, start, before, signals, already)
      modifies `signals
      ensures
        match r
        case Ok((candidates, created)) =>
          candidates == |OfContext(c, detectors)| && IngestionPersisted(m, start, before + OfContext(c, detectors), signals, created)
        case Err(e) => Persisted(m, start, before + OfContext(c, detectors)) == Err(e)
    {
      var candidates, created := 0, already;
      assert before + OfContext(c, []) == before && detectors[..0] == [];
      for j := 0 to |detectors|
        invariant candidates == |OfContext(c, detectors[..j])|
        invariant IngestionPersisted(m, start, before + OfContext(c, detectors[..j]), signals, created)
      {
        var found := detectors[j](c);
        ghost var soFar := before + OfContext(c, detectors[..j]);
        OfContextStep(c, detectors, j, before);
        if found.None? {
          continue;
        }
        candidates := candidates + 1;
        PersistStep(m, start, soFar, found.value, signals, created);
        var inserted := PersistCandidate(m, found.value);
        if inserted.Err? {
          ghost var rest := OfContextSplits(c, detectors, j + 1);
          PersistStops(m, start, soFar + [found.value], rest);
          assert soFar + [found.value] + rest == before + OfContext(c, detectors);
          return Err(inserted.error);
        }
        if inserted.value {
          created := created + [found.value];
        }
      }
      assert detectors[..|detectors|] == detectors;
      r := Ok((candidates, created));
    }

    /** Evaluates every detector against every opportunity that has its account. */
    method RunDetectors(m: Mirror, detectors: seq<Detector>, at: Instant) returns (r: Result<Detection, CycleError>)
      modifies `signals
      ensures
        match Persisted(m, old(signals), Offered(m, normalized, m.opportunities, detectors, at))
        case Ok(d) => r.Ok? && signals == d.signals && r.value.created == d.created
                      && r.value.contexts == ContextCount(m, m.opportunities)
                      && r.value.candidates == |Offered(m, normalized, m.opportunities, detectors, at)|
        case Err(e) => r == Err(e)
    {
      ghost var start := signals;
      var opportunities := m.opportunities;
      var contexts, candidates, created := 0, 0, [];
      for i := 0 to |opportunities|
        invariant contexts == ContextCount(m, opportunities[..i])
        invariant candidates == |Offered(m, normalized, opportunities[..i], detectors, at)|
        invariant IngestionPersisted(m, start, Offered(m, normalized, opportunities[..i], detectors, at), signals, created)
      {
        assert opportunities[..i + 1][..i] == opportunities[..i];
        var context := ContextFor(m, normalized, opportunities[i], at);
        ghost var before := Offered(m, normalized, opportunities[..i], detectors, at);
        if context.None? {
          assert Offered(m, normalized, opportunities[..i + 1], detectors, at) == before;
          continue;
        }
        contexts := contexts + 1;
        var evaluated := EvaluateContext(m, context.value, detectors, start, before, created);
        if evaluated.Err? {
          ghost var failed := before + OfContext(context.value, detectors);
          ghost var all := Offered(m, normalized, opportunities, detectors, at);
          OfferedStarts(m, normalized, opportunities, i + 1, detectors, at);
          assert failed + all[|failed|..] == all;
          PersistStops(m, start, failed, all[|failed|..]);
          return Err(evaluated.error);
        }
        candidates := candidates + evaluated.value.0;
        created := evaluated.value.1;
      }
      assert opportunities[..|opportunities|] == opportunities;
      r := Ok(Detection(contexts, candidates, created));
    }

    /** Creates the incident a new signal opens, and triages it. */
    method OpenIncidentForSignal(m: Mirror, s: Signal, at: Instant) returns (r: Result<nat, CycleError>)
      requires book.Valid()
      modifies book
      ensures book.Valid() && book.nextRef >= old(book.nextRef)
      ensures
        match OpenOne(m, old(Contents()), s, at)
        case Ok(z) => r == Ok(old(book.nextRef)) && Contents() == z
        case Err(e) => r == Err(e)
    {
      var error := OpenError(m, book.incidents, s);
      if error.Some? {
        return Err(error.value);
      }
      r := Ok(book.nextRef);
      book.Open(s.dedupeKey, s.severity, s.account, s.opportunity.value, SIGNAL_AGENT, at);
    }

    /** Ingest, normalize, detect, open incidents. */
    method RunIngestionCycle(m: Mirror, detectors: seq<Detector>, at: Instant) returns (r: Result<Summary, CycleError>)
      requires book.Valid()
      modifies this, book
      ensures book.Valid() && book.nextRef >= old(book.nextRef)
      ensures
        match Cycle(old(Contents()), m, detectors, at)
        case Ok(z) =>
          && Contents() == z && r.Ok?
          && r.value.offered == |m.events| && r.value.inserted == |z.raw| - |old(raw)|
          && r.value.normalized == |z.normalized| - |old(normalized)|
          && r.value.contexts == ContextCount(m, m.opportunities)
          && r.value.created == |z.signals| - |old(signals)|
          && r.value.created + r.value.duplicates == |Offered(m, z.normalized, m.opportunities, detectors, at)|
          && r.value.refs == References(old(book.nextRef), |z.incidents| - |old(book.incidents)|)
        case Err(e) => r == Err(e)
    {
      ghost var before := Contents();
      var offered, inserted := IngestSourceEvents(m.events, at);
      var normalizing := NormalizePending();
      if normalizing.Err? {
        return Err(normalizing.error);
      }
      assert |normalized| == |before.normalized| + normalizing.value by {
        NormalizedAppends(before.normalized, PendingRows(raw, before.normalized));
      }
      var detecting := RunDetectors(m, detectors, at);
      if detecting.Err? {
        return Err(detecting.error);
      }
      var created := detecting.value.created;
      assert |signals| == |before.signals| + |created| && |created| <= detecting.value.candidates by {
        PersistedHasAll(m, before.signals, Offered(m, normalized, m.opportunities, detectors, at));
        CreatedAreOffered(m, before.signals, Offered(m, normalized, m.opportunities, detectors, at));
      }
      ghost var middle := Contents();
      CycleOpens(before, m, detectors, at, normalized, Detected(signals, created));
      var opening := OpenIncidents(m, created, at);
      if opening.Err? {
        return Err(opening.error);
      }
      assert |book.incidents| == |middle.incidents| + |created| && signals == middle.signals by {
        OpenAllAppends(m, middle, created, at);
      }
      r := Ok(Summary(offered, inserted, normalizing.value, detecting.value.contexts, |created|,
                      detecting.value.candidates - |created|, opening.value));
    }

    /** The transaction around a cycle: on any error everything but the drawn references is as it was. */
    method InTransaction(m: Mirror, detectors: seq<Detector>, at: Instant) returns (r: Result<Summary, CycleError>)
      requires book.Valid()
      modifies this, book
      ensures book.Valid()
      ensures
        match Cycle(old(Contents()), m, detectors, at)
        case Ok(z) => r.Ok? && Contents() == z
        case Err(e) => r == Err(e) && book.nextRef >= old(book.nextRef) && Contents() == old(Contents()).(nextRef := book.nextRef)
    {
      var savedRaw, savedNormalized, savedSignals := raw, normalized, signals;
      var savedIncidents, savedAudit := book.incidents, book.audit;
      r := RunIngestionCycle(m, detectors, at);
      if r.Err? {
        raw, normalized, signals := savedRaw, savedNormalized, savedSignals;
        book.incidents, book.audit := savedIncidents, savedAudit;
      }
    }

    /** The loop that opens one incident per new signal. */
    method OpenIncidents(m: Mirror, created: seq<Signal>, at: Instant) returns (r: Result<seq<nat>, CycleError>)
      requires book.Valid()
      modifies book
      ensures book.Valid() && book.nextRef >= old(book.nextRef)
      ensures
        match OpenAll(m, old(Contents()), created, at)
        case Ok(z) => r == Ok(References(old(book.nextRef), |created|)) && Contents() == z
        case Err(e) => r == Err(e)
    {
      var refs: seq<nat> := [];
      for i := 0 to |created|
        invariant book.Valid() && book.nextRef == old(book.nextRef) + i && refs == References(old(book.nextRef), i)
        invariant OpenAll(m, old(Contents()), created[..i], at) == Ok(Contents())
      {
        assert created[..i + 1][..i] == created[..i];
        var ref := OpenIncidentForSignal(m, created[i], at);
        if ref.Err? {
          OpenStops(m, old(Contents()), created, i + 1, at);
          return Err(ref.error);
        }
        refs := refs + [ref.value];
      }
      assert created[..|created|] == created;
      r := Ok(refs);
    }
  }

  // ---- an error part-way is the error of the whole ----

  /** Consecutive references from the next one on. */
  function References(next: nat, count: int): seq<nat> {
    if count <= 0 then [] else References(next, count - 1) + [next + count - 1]
  }

  ghost predicate IngestionPersisted(m: Mirror, start: seq<Signal>, offered: seq<Candidate>, signals: seq<Signal>, created: seq<Signal>) {
    Persisted(m, start, offered) == Ok(Detected(signals, created))
  }

  lemma {:induction false} NormalizeStops(normalized: seq<NormalizedEvent>, pending: seq<(nat, RawEvent)>, i: nat)
    requires i <= |pending| && Normalized(normalized, pending[..i]).Err?
    ensures Normalized(normalized, pending) == Normalized(normalized, pending[..i])
    decreases |pending| - i
  {
    if i == |pending| {
      assert pending[..i] == pending;
    } else {
      assert pending[..i + 1][..i] == pending[..i];
      NormalizeStops(normalized, pending, i + 1);
    }
  }

  lemma {:induction false} PersistStops(m: Mirror, start: seq<Signal>, offered: seq<Candidate>, rest: seq<Candidate>)
    requires Persisted(m, start, offered).Err?
    ensures Persisted(m, start, offered + rest) == Persisted(m, start, offered)
  {
    if rest == [] {
      assert offered + rest == offered;
    } else {
      var all := offered + rest;
      assert all[..|all| - 1] == offered + rest[..|rest| - 1];
      PersistStops(m, start, offered, rest[..|rest| - 1]);
    }
  }

  lemma CycleOpens(t: Tables, m: Mirror, detectors: seq<Detector>, at: Instant, normalized: seq<NormalizedEvent>, detected: Detected)
    requires Normalized(t.normalized, PendingRows(Ingested(t.raw, m.events, at), t.normalized)) == Ok(normalized)
    requires Persisted(m, t.signals, Offered(m, normalized, m.opportunities, detectors, at)) == Ok(detected)
    ensures Cycle(t, m, detectors, at)
            == OpenAll(m, t.(raw := Ingested(t.raw, m.events, at), normalized := normalized, signals := detected.signals), detected.created, at)
  {
  }

  lemma PersistStep(m: Mirror, start: seq<Signal>, soFar: seq<Candidate>, c: Candidate, signals: seq<Signal>, created: seq<Signal>)
    requires IngestionPersisted(m, start, soFar, signals, created)
    ensures Persisted(m, start, soFar + [c])
            == if HasSignal(signals, c.dedupeKey) then Ok(Detected(signals, created))
               else if !ForeignKeysHold(m, c) then Err(ForeignKey(c.dedupeKey))
               else Ok(Detected(signals + [c], created + [c]))
  {
    assert (soFar + [c])[..|soFar + [c]| - 1] == soFar;
  }

  lemma OfContextStep(c: Context, detectors: seq<Detector>, j: nat, before: seq<Candidate>)
    requires j < |detectors|
    ensures
      var found, now := detectors[j](c), OfContext(c, detectors[..j]);
      && (found.None? ==> OfContext(c, detectors[..j + 1]) == now)
      && (found.Some? ==> |OfContext(c, detectors[..j + 1])| == |now| + 1
                          && before + OfContext(c, detectors[..j + 1]) == before + now + [found.value])
  {
    assert detectors[..j + 1][..j] == detectors[..j];
  }

  lemma {:induction false} OfContextSplits(c: Context, detectors: seq<Detector>, j: nat) returns (rest: seq<Candidate>)
    requires j <= |detectors|
    ensures OfContext(c, detectors) == OfContext(c, detectors[..j]) + rest
  {
    if j == |detectors| {
      assert detectors[..j] == detectors;
      rest := [];
    } else {
      var front := detectors[..|detectors| - 1];
      assert front[..j] == detectors[..j];
      rest := OfContextSplits(c, front, j);
      var found := detectors[|detectors| - 1](c);
      rest := rest + if found.Some? then [found.value] else [];
    }
  }

  lemma OfferedGrows(m: Mirror, normalized: seq<NormalizedEvent>, opportunities: seq<Opportunity>, detectors: seq<Detector>, at: Instant)
    requires opportunities != []
    ensures Offered(m, normalized, opportunities[..|opportunities| - 1], detectors, at) <= Offered(m, normalized, opportunities, detectors, at)
  {
  }

  /** What the first opportunities offer is where the whole list of offers starts. */
  lemma {:induction false} OfferedStarts(m: Mirror, normalized: seq<NormalizedEvent>, opportunities: seq<Opportunity>, i: nat,
                                         detectors: seq<Detector>, at: Instant)
    requires i <= |opportunities|
    ensures Offered(m, normalized, opportunities[..i], detectors, at) <= Offered(m, normalized, opportunities, detectors, at)
  {
    if i == |opportunities| {
      assert opportunities[..i] == opportunities;
    } else {
      var front := opportunities[..|opportunities| - 1];
      assert front[..i] == opportunities[..i];
      OfferedStarts(m, normalized, front, i, detectors, at);
      OfferedGrows(m, normalized, opportunities, detectors, at);
    }
  }

  lemma {:induction false} OpenStops(m: Mirror, t: Tables, created: seq<Signal>, i: nat, at: Instant)
    requires i <= |created| && OpenAll(m, t, created[..i], at).Err?
    ensures OpenAll(m, t, created, at) == OpenAll(m, t, created[..i], at)
    decreases |created| - i
  {
    if i == |created| {
      assert created[..i] == created;
    } else {
      assert created[..i + 1][..i] == created[..i];
      OpenStops(m, t, created, i + 1, at);
    }
  }
}
