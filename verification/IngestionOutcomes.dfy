/** When a cycle succeeds, and what is stored when it does. */
module IngestionOutcomes {
  import opened Vocabulary
  import opened Mirror
  import opened Sorting
  import opened Ingestion
  import opened IngestionLaws
  import Incidents

  // ---- when a cycle succeeds ----

  /** The candidate's account and, if it names one, its opportunity are rows of the mirror. */
  predicate Refers(m: Mirror, c: Candidate) {
    && c.account in m.accounts
    && (c.opportunity.Some? ==> exists o :: o in m.opportunities && o.id == c.opportunity.value)
  }

  lemma RefersExactly(m: Mirror, c: Candidate)
    ensures ForeignKeysHold(m, c) <==> Refers(m, c)
  {
    if c.opportunity.Some? {
      HasOpportunityExactly(m, c.opportunity.value);
    }
  }

  lemma HasOpportunityExactly(m: Mirror, id: nat)
    ensures HasOpportunity(m, id) <==> exists o :: o in m.opportunities && o.id == id
  {
    if HasOpportunity(m, id) {
      var i :| 0 <= i < |m.opportunities| && m.opportunities[i].id == id;
      assert m.opportunities[i] in m.opportunities;
    }
    if o :| o in m.opportunities && o.id == id {
      var i :| 0 <= i < |m.opportunities| && m.opportunities[i] == o;
      assert m.opportunities[i].id == id;
    }
  }

  /** The first offered under a key no signal has. */
  predicate IsNew(signals: seq<Signal>, offered: seq<Candidate>, k: int) {
    0 <= k < |offered| && !SignalledUnder(signals, offered[k].dedupeKey) && forall j :: 0 <= j < k ==> offered[j].dedupeKey != offered[k].dedupeKey
  }

  ghost predicate NewOnesRefer(m: Mirror, signals: seq<Signal>, offered: seq<Candidate>) {
    forall k :: IsNew(signals, offered, k) ==> Refers(m, offered[k])
  }

  lemma IsNewShrinks(signals: seq<Signal>, offered: seq<Candidate>, k: int)
    requires offered != []
    ensures IsNew(signals, offered[..|offered| - 1], k) <==> k < |offered| - 1 && IsNew(signals, offered, k)
  {
  }

  lemma SignalledStays(signals: seq<Signal>, more: seq<Signal>, key: string)
    requires SignalledUnder(signals, key)
    ensures HasSignal(signals + more, key)
  {
    var i :| 0 <= i < |signals| && signals[i].dedupeKey == key;
    assert (signals + more)[i].dedupeKey == key;
  }

  lemma SignalledSplits(signals: seq<Signal>, more: seq<Signal>, key: string)
    requires HasSignal(signals + more, key)
    ensures SignalledUnder(signals, key) || SignalledUnder(more, key)
  {
    var i :| 0 <= i < |signals + more| && (signals + more)[i].dedupeKey == key;
    if i < |signals| {
      assert signals[i].dedupeKey == key;
    } else {
      assert more[i - |signals|].dedupeKey == key;
    }
  }

  lemma NewAtLast(m: Mirror, signals: seq<Signal>, offered: seq<Candidate>)
    requires offered != [] && Persisted(m, signals, offered[..|offered| - 1]).Ok?
    ensures HasSignal(Persisted(m, signals, offered[..|offered| - 1]).value.signals, offered[|offered| - 1].dedupeKey)
            <==> !IsNew(signals, offered, |offered| - 1)
  {
    var front, key := offered[..|offered| - 1], offered[|offered| - 1].dedupeKey;
    var y := Persisted(m, signals, front).value;
    PersistedHasAll(m, signals, front);
    CreatedAreOffered(m, signals, front);
    if SignalledUnder(signals, key) {
      SignalledStays(signals, y.created, key);
    } else if HasSignal(y.signals, key) {
      SignalledSplits(signals, y.created, key);
      var i :| 0 <= i < |y.created| && y.created[i].dedupeKey == key;
      assert y.created[i] in front;
      var j :| 0 <= j < |front| && front[j] == y.created[i];
      assert offered[j].dedupeKey == key;
    } else {
      forall j | 0 <= j < |offered| - 1 ensures offered[j].dedupeKey != key {
        assert HasSignal(y.signals, front[j].dedupeKey);
      }
    }
  }

  lemma NewOnesOfFront(m: Mirror, signals: seq<Signal>, offered: seq<Candidate>)
    requires offered != []
    ensures NewOnesRefer(m, signals, offered) <==>
            && NewOnesRefer(m, signals, offered[..|offered| - 1])
            && (IsNew(signals, offered, |offered| - 1) ==> Refers(m, offered[|offered| - 1]))
  {
    var front := offered[..|offered| - 1];
    forall k ensures IsNew(signals, front, k) <==> k < |offered| - 1 && IsNew(signals, offered, k) {
      IsNewShrinks(signals, offered, k);
    }
    if NewOnesRefer(m, signals, offered) {
      forall k | IsNew(signals, front, k) ensures Refers(m, front[k]) {
        assert IsNew(signals, offered, k);
      }
    }
  }

  /** Detection fails exactly when a new candidate, the first under a key no signal has, names an account or an opportunity
      that is not there. */
  lemma {:induction false} PersistedExactly(m: Mirror, signals: seq<Signal>, offered: seq<Candidate>)
    ensures Persisted(m, signals, offered).Ok? <==> NewOnesRefer(m, signals, offered)
    decreases |offered|
  {
    if offered != [] {
      var front := offered[..|offered| - 1];
      PersistedExactly(m, signals, front);
      NewOnesOfFront(m, signals, offered);
      if Persisted(m, signals, front).Ok? {
        NewAtLast(m, signals, offered);
        RefersExactly(m, offered[|offered| - 1]);
      }
    }
  }

  ghost predicate CreatedAreNew(signals: seq<Signal>, offered: seq<Candidate>, created: seq<Signal>) {
    forall c :: c in created <==> IsNewOne(signals, offered, c)
  }

  predicate IsNewOne(signals: seq<Signal>, offered: seq<Candidate>, c: Candidate) {
    exists k :: 0 <= k < |offered| && IsNew(signals, offered, k) && offered[k] == c
  }

  lemma NewOneOfFront(signals: seq<Signal>, offered: seq<Candidate>, c: Candidate)
    requires offered != []
    ensures IsNewOne(signals, offered, c) <==>
            || IsNewOne(signals, offered[..|offered| - 1], c)
            || (IsNew(signals, offered, |offered| - 1) && c == offered[|offered| - 1])
  {
    var front := offered[..|offered| - 1];
    if IsNewOne(signals, front, c) {
      var k :| 0 <= k < |front| && IsNew(signals, front, k) && front[k] == c;
      IsNewShrinks(signals, offered, k);
    }
    if IsNewOne(signals, offered, c) {
      var k :| 0 <= k < |offered| && IsNew(signals, offered, k) && offered[k] == c;
      IsNewShrinks(signals, offered, k);
      assert k < |front| ==> front[k] == c;
    }
  }

  /** And what it stores is the new ones and no others. */
  lemma {:induction false} CreatedExactly(m: Mirror, signals: seq<Signal>, offered: seq<Candidate>)
    requires Persisted(m, signals, offered).Ok?
    ensures CreatedAreNew(signals, offered, Persisted(m, signals, offered).value.created)
    decreases |offered|
  {
    if offered != [] {
      CreatedExactly(m, signals, offered[..|offered| - 1]);
      NewAtLast(m, signals, offered);
      forall c ensures c in Persisted(m, signals, offered).value.created <==> IsNewOne(signals, offered, c) {
        NewOneOfFront(signals, offered, c);
      }
    }
  }

  // ---- opening incidents ----

  /** The account is there, and the signal is about an opportunity that is. */
  predicate CanOpen(m: Mirror, s: Signal) {
    s.account in m.accounts && s.opportunity.Some? && Refers(m, s)
  }

  ghost predicate NoneHasIncident(incidents: seq<Incidents.IncidentRow>, created: seq<Signal>) {
    forall i, k :: 0 <= i < |incidents| && 0 <= k < |created| ==> incidents[i].signal != created[k].dedupeKey
  }

  lemma OpenErrorExactly(m: Mirror, incidents: seq<Incidents.IncidentRow>, s: Signal)
    ensures OpenError(m, incidents, s).None? <==> CanOpen(m, s) && forall i :: 0 <= i < |incidents| ==> incidents[i].signal != s.dedupeKey
  {
    RefersExactly(m, s);
  }

  /** What opening leaves: one triaged incident with the signal's own severity, account and opportunity, under the next
      reference, and the two audit rows of its opening. */
  lemma OpeningSays(m: Mirror, t: Tables, s: Signal, at: Instant)
    requires OpenOne(m, t, s, at).Ok?
    ensures
      var z, n := OpenOne(m, t, s, at).value, |t.incidents|;
      && s.opportunity.Some? && z.nextRef == t.nextRef + 1
      && z == t.(incidents := z.incidents, audit := z.audit, nextRef := z.nextRef)
      && z.incidents == t.incidents + [Incidents.IncidentRow(t.nextRef, s.dedupeKey, s.severity, s.account, s.opportunity.value,
                                                             Incidents.Triaged, at, None)]
      && z.audit == t.audit + [
           Incidents.AuditRow(Some(n), Incidents.OpenedEvent(s.dedupeKey), "agent:signal_agent", at),
           Incidents.AuditRow(Some(n), Incidents.TransitionedEvent(Incidents.Detected, Incidents.Triaged, Incidents.TRIAGE_REASON),
                              "agent:signal_agent", at)]
  {
  }

  /** Distinct new signals, none with an incident yet: all are opened exactly when each can be. */
  lemma {:induction false} OpenedExactly(m: Mirror, t: Tables, created: seq<Signal>, at: Instant)
    requires UniqueSignals(created) && NoneHasIncident(t.incidents, created)
    ensures OpenAll(m, t, created, at).Ok? <==> forall k :: 0 <= k < |created| ==> CanOpen(m, created[k])
    decreases |created|
  {
    if created != [] {
      var front, last := created[..|created| - 1], created[|created| - 1];
      OpenedExactly(m, t, front, at);
      if OpenAll(m, t, front, at).Ok? {
        OpenAllAppends(m, t, front, at);
        OpenErrorExactly(m, OpenAll(m, t, front, at).value.incidents, last);
        NoIncidentYet(m, t, created, at);
      }
    }
  }

  lemma NoIncidentYet(m: Mirror, t: Tables, created: seq<Signal>, at: Instant)
    requires created != [] && UniqueSignals(created) && NoneHasIncident(t.incidents, created)
    requires OpenAll(m, t, created[..|created| - 1], at).Ok?
    ensures
      var incidents := OpenAll(m, t, created[..|created| - 1], at).value.incidents;
      forall i :: 0 <= i < |incidents| ==> incidents[i].signal != created[|created| - 1].dedupeKey
  {
    var front := created[..|created| - 1];
    var incidents := OpenAll(m, t, front, at).value.incidents;
    OpenAllAppends(m, t, front, at);
    forall i | 0 <= i < |incidents| ensures incidents[i].signal != created[|created| - 1].dedupeKey {
      if i < |t.incidents| {
        assert incidents[i] == t.incidents[i];
      } else {
        assert incidents[|t.incidents| + (i - |t.incidents|)].signal == front[i - |t.incidents|].dedupeKey;
      }
    }
  }

  // ---- the cycle ----

  ghost predicate AllTypable(raw: seq<RawEvent>, normalized: seq<NormalizedEvent>) {
    forall i :: 0 <= i < |raw| && !HasNormalized(normalized, i) ==> BuildEnvelope(i, raw[i]).Ok?
  }

  ghost predicate EachTypable(pending: seq<(nat, RawEvent)>) {
    forall k :: 0 <= k < |pending| ==> BuildEnvelope(pending[k].0, pending[k].1).Ok?
  }

  lemma {:induction false} NormalizedSucceeds(normalized: seq<NormalizedEvent>, pending: seq<(nat, RawEvent)>)
    ensures Normalized(normalized, pending).Ok? <==> EachTypable(pending)
    decreases |pending|
  {
    if pending != [] {
      var front, last := pending[..|pending| - 1], pending[|pending| - 1];
      NormalizedSucceeds(normalized, front);
      assert EachTypable(pending) <==> EachTypable(front) && BuildEnvelope(last.0, last.1).Ok? by {
        assert pending == front + [last];
      }
    }
  }

  lemma TypablePending(raw: seq<RawEvent>, normalized: seq<NormalizedEvent>)
    ensures Normalized(normalized, PendingRows(raw, normalized)).Ok? <==> AllTypable(raw, normalized)
  {
    var pending := PendingRows(raw, normalized);
    PendingExactly(raw, normalized);
    NormalizedSucceeds(normalized, pending);
    if EachTypable(pending) {
      forall i | 0 <= i < |raw| && !HasNormalized(normalized, i) ensures BuildEnvelope(i, raw[i]).Ok? {
        var k :| 0 <= k < |pending| && pending[k] == (i, raw[i]);
      }
    }
  }

  ghost predicate NewOnesOpen(m: Mirror, signals: seq<Signal>, offered: seq<Candidate>) {
    forall k :: IsNew(signals, offered, k) ==> CanOpen(m, offered[k])
  }

  lemma CreatedAreDistinct(m: Mirror, t: Tables, offered: seq<Candidate>)
    requires Sound(t) && Persisted(m, t.signals, offered).Ok?
    ensures
      var created := Persisted(m, t.signals, offered).value.created;
      UniqueSignals(created) && NoneHasIncident(t.incidents, created)
  {
    var d := Persisted(m, t.signals, offered).value;
    PersistedHasAll(m, t.signals, offered);
    PersistedUnique(m, t.signals, offered);
    forall k | 0 <= k < |d.created| ensures d.signals[|t.signals| + k] == d.created[k] {
    }
    forall i, k | 0 <= i < |t.incidents| && 0 <= k < |d.created| ensures t.incidents[i].signal != d.created[k].dedupeKey {
      assert Answers(t.incidents[i], t.signals[i]) && d.signals[i] == t.signals[i];
    }
  }

  lemma CreatedOpen(m: Mirror, t: Tables, offered: seq<Candidate>)
    requires Persisted(m, t.signals, offered).Ok?
    ensures
      var created := Persisted(m, t.signals, offered).value.created;
      (forall k :: 0 <= k < |created| ==> CanOpen(m, created[k])) <==> NewOnesOpen(m, t.signals, offered)
  {
    var created := Persisted(m, t.signals, offered).value.created;
    CreatedExactly(m, t.signals, offered);
    if forall k :: 0 <= k < |created| ==> CanOpen(m, created[k]) {
      forall k | IsNew(t.signals, offered, k) ensures CanOpen(m, offered[k]) {
        assert IsNewOne(t.signals, offered, offered[k]);
        var j :| 0 <= j < |created| && created[j] == offered[k];
      }
    }
    if NewOnesOpen(m, t.signals, offered) {
      forall k | 0 <= k < |created| ensures CanOpen(m, created[k]) {
        assert created[k] in created;
      }
    }
  }

  /** From tables any cycles have left, a cycle succeeds exactly when every raw event still to be normalized can be typed
      and every new candidate is about an account and an opportunity that are there: one bad event or one candidate without
      its opportunity stops the whole cycle. */
  lemma CycleSucceedsIff(t: Tables, m: Mirror, detectors: seq<Detector>, at: Instant)
    requires Sound(t)
    ensures
      var raw := Ingested(t.raw, m.events, at);
      Cycle(t, m, detectors, at).Ok? <==>
        && AllTypable(raw, t.normalized)
        && var normalized := Normalized(t.normalized, PendingRows(raw, t.normalized));
           normalized.Ok? && NewOnesOpen(m, t.signals, Offered(m, normalized.value, m.opportunities, detectors, at))
  {
    var raw := Ingested(t.raw, m.events, at);
    TypablePending(raw, t.normalized);
    var normalized := Normalized(t.normalized, PendingRows(raw, t.normalized));
    if normalized.Ok? {
      var offered := Offered(m, normalized.value, m.opportunities, detectors, at);
      PersistedExactly(m, t.signals, offered);
      if NewOnesOpen(m, t.signals, offered) {
        assert NewOnesRefer(m, t.signals, offered);
      }
      if Persisted(m, t.signals, offered).Ok? {
        var d := Persisted(m, t.signals, offered).value;
        CreatedAreDistinct(m, t, offered);
        CreatedOpen(m, t, offered);
        OpenedExactly(m, t.(raw := raw, normalized := normalized.value, signals := d.signals), d.created, at);
      }
    }
  }
}
