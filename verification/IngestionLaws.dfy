/** Why a cycle can be repeated, and what its tables look like after any number of cycles. */
module IngestionLaws {
  import opened Vocabulary
  import opened Mirror
  import opened Sorting
  import opened Ingestion
  import Incidents

  // ---- raw events ----

  predicate Extends<T(==)>(a: seq<T>, z: seq<T>) {
    |a| <= |z| && z[..|a|] == a
  }

  lemma {:induction false} IngestedHasAll(raw: seq<RawEvent>, events: seq<SourceEvent>, at: Instant)
    ensures Extends(raw, Ingested(raw, events, at))
    ensures forall k :: 0 <= k < |events| ==> HasRaw(Ingested(raw, events, at), events[k])
  {
    if events != [] {
      var front, e := events[..|events| - 1], events[|events| - 1];
      IngestedHasAll(raw, front, at);
      var before, after := Ingested(raw, front, at), Ingested(raw, events, at);
      forall k | 0 <= k < |events| ensures HasRaw(after, events[k]) {
        if k < |front| {
          assert HasRaw(before, front[k]);
          var i :| 0 <= i < |before| && SameEvent(before[i], front[k]);
          assert SameEvent(after[i], events[k]);
        } else if !HasRaw(before, e) {
          assert SameEvent(after[|before|], e);
        }
      }
    }
  }

  lemma {:induction false} IngestedAgain(raw: seq<RawEvent>, events: seq<SourceEvent>, at: Instant)
    requires forall k :: 0 <= k < |events| ==> HasRaw(raw, events[k])
    ensures Ingested(raw, events, at) == raw
  {
    if events != [] {
      IngestedAgain(raw, events[..|events| - 1], at);
    }
  }

  /** What was stored is what was offered, with the instant of the cycle that stored it. */
  predicate StoredFrom(r: RawEvent, e: SourceEvent, at: Instant) {
    && r.system == e.system && r.eventId == e.eventId && r.receivedAt == at
    && r.eventType == Text(EventTypeValue(e.eventType)) && r.occurredAt == e.occurredAt && r.data == e.data
  }

  predicate OffersIt(events: seq<SourceEvent>, r: RawEvent, at: Instant) {
    exists k :: 0 <= k < |events| && StoredFrom(r, events[k], at)
  }

  ghost predicate AddsOnlyOffered(raw: seq<RawEvent>, z: seq<RawEvent>, events: seq<SourceEvent>, at: Instant) {
    forall i :: |raw| <= i < |z| ==> OffersIt(events, z[i], at)
  }

  /** Every row a pass adds was offered to it. */
  lemma {:induction false} IngestedAreOffered(raw: seq<RawEvent>, events: seq<SourceEvent>, at: Instant)
    ensures AddsOnlyOffered(raw, Ingested(raw, events, at), events, at)
  {
    if events != [] {
      var front := events[..|events| - 1];
      var y, z := Ingested(raw, front, at), Ingested(raw, events, at);
      IngestedAreOffered(raw, front, at);
      IngestedHasAll(raw, front, at);
      forall i | |raw| <= i < |z| ensures OffersIt(events, z[i], at) {
        if i < |y| {
          var k :| 0 <= k < |front| && StoredFrom(y[i], front[k], at);
          assert StoredFrom(z[i], events[k], at);
        } else {
          assert StoredFrom(z[i], events[|events| - 1], at);
        }
      }
    }
  }

  ghost predicate UniqueRaw(raw: seq<RawEvent>) {
    forall i, j :: 0 <= i < j < |raw| ==> raw[i].system != raw[j].system || raw[i].eventId != raw[j].eventId
  }

  lemma {:induction false} IngestedUnique(raw: seq<RawEvent>, events: seq<SourceEvent>, at: Instant)
    requires UniqueRaw(raw)
    ensures UniqueRaw(Ingested(raw, events, at))
  {
    if events != [] {
      IngestedUnique(raw, events[..|events| - 1], at);
      var before, e := Ingested(raw, events[..|events| - 1], at), events[|events| - 1];
      assert forall i :: 0 <= i < |before| && !HasRaw(before, e) ==> !SameEvent(before[i], e);
    }
  }

  // ---- normalized events ----

  ghost predicate Complete(raw: seq<RawEvent>, normalized: seq<NormalizedEvent>) {
    forall i :: 0 <= i < |raw| ==> HasNormalized(normalized, i)
  }

  /** Each normalized row is the envelope of its raw row, and no two are of the same one. */
  ghost predicate Faithful(raw: seq<RawEvent>, normalized: seq<NormalizedEvent>) {
    && (forall n :: 0 <= n < |normalized| ==>
          normalized[n].raw < |raw| && BuildEnvelope(normalized[n].raw, raw[normalized[n].raw]) == Ok(normalized[n]))
    && (forall n, k :: 0 <= n < k < |normalized| ==> normalized[n].raw != normalized[k].raw)
  }

  lemma {:induction false} MissingExactly(raw: seq<RawEvent>, normalized: seq<NormalizedEvent>)
    ensures
      var r := Missing(raw, normalized);
      && (forall k :: 0 <= k < |r| ==> r[k].0 < |raw| && r[k].1 == raw[r[k].0] && !HasNormalized(normalized, r[k].0))
      && (forall i :: 0 <= i < |raw| && !HasNormalized(normalized, i) ==> (i, raw[i]) in r)
      && (forall j, k :: 0 <= j < k < |r| ==> r[j].0 < r[k].0)
  {
    if raw != [] {
      MissingExactly(raw[..|raw| - 1], normalized);
    }
  }

  ghost predicate ListsMissing(raw: seq<RawEvent>, normalized: seq<NormalizedEvent>, pending: seq<(nat, RawEvent)>) {
    && (forall k :: 0 <= k < |pending| ==>
          pending[k].0 < |raw| && pending[k].1 == raw[pending[k].0] && !HasNormalized(normalized, pending[k].0))
    && (forall j, k :: 0 <= j < k < |pending| ==> pending[j].0 != pending[k].0)
  }

  lemma PendingExactly(raw: seq<RawEvent>, normalized: seq<NormalizedEvent>)
    ensures ListsMissing(raw, normalized, PendingRows(raw, normalized))
    ensures forall i :: 0 <= i < |raw| && !HasNormalized(normalized, i) ==> (i, raw[i]) in PendingRows(raw, normalized)
  {
    var xs, ys := Missing(raw, normalized), PendingRows(raw, normalized);
    MissingExactly(raw, normalized);
    SortPermutes(EventLeq, xs);
    SortKeepsDistinct(EventLeq, xs);
    forall k | 0 <= k < |ys|
      ensures ys[k].0 < |raw| && ys[k].1 == raw[ys[k].0] && !HasNormalized(normalized, ys[k].0)
    {
      assert ys[k] in multiset(xs);
    }
    forall i | 0 <= i < |raw| && !HasNormalized(normalized, i) ensures (i, raw[i]) in ys {
      assert (i, raw[i]) in multiset(ys);
    }
  }

  lemma EnvelopeNamesItsRow(i: nat, r: RawEvent)
    ensures BuildEnvelope(i, r).Ok? ==> BuildEnvelope(i, r).value.raw == i
  {
  }

  lemma NormalizedLast(normalized: seq<NormalizedEvent>, pending: seq<(nat, RawEvent)>)
    requires pending != [] && Normalized(normalized, pending).Ok?
    ensures
      var last := pending[|pending| - 1];
      && Normalized(normalized, pending[..|pending| - 1]).Ok?
      && BuildEnvelope(last.0, last.1).Ok? && BuildEnvelope(last.0, last.1).value.raw == last.0
      && Normalized(normalized, pending).value
         == Normalized(normalized, pending[..|pending| - 1]).value + [BuildEnvelope(last.0, last.1).value]
  {
    EnvelopeNamesItsRow(pending[|pending| - 1].0, pending[|pending| - 1].1);
  }

  predicate EnvelopeOf(n: NormalizedEvent, p: (nat, RawEvent)) {
    BuildEnvelope(p.0, p.1) == Ok(n) && n.raw == p.0
  }

  lemma {:induction false} NormalizedAppends(normalized: seq<NormalizedEvent>, pending: seq<(nat, RawEvent)>)
    requires Normalized(normalized, pending).Ok?
    ensures
      var z := Normalized(normalized, pending).value;
      && |z| == |normalized| + |pending| && z[..|normalized|] == normalized
      && forall k :: 0 <= k < |pending| ==> EnvelopeOf(z[|normalized| + k], pending[k])
    decreases |pending|
  {
    if pending != [] {
      NormalizedLast(normalized, pending);
      NormalizedAppends(normalized, pending[..|pending| - 1]);
      var y, z := Normalized(normalized, pending[..|pending| - 1]).value, Normalized(normalized, pending).value;
      forall k | 0 <= k < |pending| ensures EnvelopeOf(z[|normalized| + k], pending[k]) {
        if k < |pending| - 1 {
          assert EnvelopeOf(y[|normalized| + k], pending[..|pending| - 1][k]);
        }
      }
    }
  }

  /** After normalizing what was pending nothing is, whatever was there before. */
  lemma NormalizedIsComplete(raw: seq<RawEvent>, normalized: seq<NormalizedEvent>)
    requires Normalized(normalized, PendingRows(raw, normalized)).Ok?
    ensures Complete(raw, Normalized(normalized, PendingRows(raw, normalized)).value)
  {
    var pending := PendingRows(raw, normalized);
    var z := Normalized(normalized, pending).value;
    PendingExactly(raw, normalized);
    NormalizedAppends(normalized, pending);
    forall i | 0 <= i < |raw| ensures HasNormalized(z, i) {
      if HasNormalized(normalized, i) {
        var n :| 0 <= n < |normalized| && normalized[n].raw == i;
        assert z[n].raw == i;
      } else {
        var k :| 0 <= k < |pending| && pending[k] == (i, raw[i]);
        assert EnvelopeOf(z[|normalized| + k], pending[k]);
        assert z[|normalized| + k].raw == i;
      }
    }
  }

  lemma NormalizedIsFaithful(raw: seq<RawEvent>, normalized: seq<NormalizedEvent>)
    requires Faithful(raw, normalized) && Normalized(normalized, PendingRows(raw, normalized)).Ok?
    ensures Faithful(raw, Normalized(normalized, PendingRows(raw, normalized)).value)
  {
    var pending := PendingRows(raw, normalized);
    var z := Normalized(normalized, pending).value;
    PendingExactly(raw, normalized);
    NormalizedAppends(normalized, pending);
    forall n | 0 <= n < |z| ensures z[n].raw < |raw| && BuildEnvelope(z[n].raw, raw[z[n].raw]) == Ok(z[n]) {
      if n >= |normalized| {
        assert EnvelopeOf(z[|normalized| + (n - |normalized|)], pending[n - |normalized|]);
      } else {
        assert z[n] == normalized[n];
      }
    }
    forall n, k | 0 <= n < k < |z| ensures z[n].raw != z[k].raw {
      if k >= |normalized| {
        assert EnvelopeOf(z[|normalized| + (k - |normalized|)], pending[k - |normalized|]);
        if n >= |normalized| {
          assert EnvelopeOf(z[|normalized| + (n - |normalized|)], pending[n - |normalized|]);
        } else {
          assert z[n] == normalized[n];
        }
      } else {
        assert z[n] == normalized[n] && z[k] == normalized[k];
      }
    }
  }

  lemma {:induction false} NothingMissing(raw: seq<RawEvent>, normalized: seq<NormalizedEvent>)
    requires Complete(raw, normalized)
    ensures PendingRows(raw, normalized) == []
  {
    MissingExactly(raw, normalized);
    assert Missing(raw, normalized) == [] by {
      if Missing(raw, normalized) != [] {
        assert !HasNormalized(normalized, Missing(raw, normalized)[0].0);
      }
    }
  }

  lemma FaithfulGrows(raw: seq<RawEvent>, normalized: seq<NormalizedEvent>, more: seq<RawEvent>)
    requires Faithful(raw, normalized) && Extends(raw, more)
    ensures Faithful(more, normalized)
  {
    forall n | 0 <= n < |normalized|
      ensures normalized[n].raw < |more| && BuildEnvelope(normalized[n].raw, more[normalized[n].raw]) == Ok(normalized[n])
    {
      assert more[normalized[n].raw] == raw[normalized[n].raw];
    }
  }

  // ---- what a detector is shown ----

  predicate Concerns(n: NormalizedEvent, account: string, opportunity: string) {
    n.opportunityRef == Some(opportunity) || n.accountRef == Some(account)
  }

  lemma {:induction false} AboutExactly(normalized: seq<NormalizedEvent>, account: string, opportunity: string, n: NormalizedEvent)
    ensures multiset(About(normalized, account, opportunity))[n]
            == if Concerns(n, account, opportunity) then multiset(normalized)[n] else 0
  {
    if normalized != [] {
      AboutExactly(normalized[1..], account, opportunity, n);
      assert normalized == [normalized[0]] + normalized[1..];
    }
  }

  lemma {:induction false} UsageOfExactly(usage: seq<UsageSnapshot>, account: nat, u: UsageSnapshot)
    ensures multiset(UsageOf(usage, account))[u] == if u.account == account then multiset(usage)[u] else 0
  {
    if usage != [] {
      UsageOfExactly(usage[1..], account, u);
      assert usage == [usage[0]] + usage[1..];
    }
  }

  /** An email, a call or a meeting about the opportunity; a note is none. */
  predicate IsTouch(a: Activity, opportunity: nat) {
    a.opportunity == Some(opportunity) && (a.kind.EmailActivity? || a.kind.CallActivity? || a.kind.MeetingActivity?)
  }

  ghost predicate IsLatestTouch(activities: seq<Activity>, opportunity: nat, latest: Option<Instant>) {
    && (latest.Some? <==> exists a :: a in activities && IsTouch(a, opportunity))
    && (latest.Some? ==>
          && (exists a :: a in activities && IsTouch(a, opportunity) && a.occurredAt == latest.value)
          && (forall a :: a in activities && IsTouch(a, opportunity) ==> a.occurredAt <= latest.value))
  }

  lemma {:induction false} LatestTouchIsLatest(activities: seq<Activity>, opportunity: nat)
    ensures IsLatestTouch(activities, opportunity, LatestTouch(activities, opportunity))
  {
    if activities != [] {
      LatestTouchIsLatest(activities[1..], opportunity);
      assert activities == [activities[0]] + activities[1..];
      assert IsTouch(activities[0], opportunity) <==> Touches(activities[0], opportunity);
      assert activities[0] in activities && forall a :: a in activities <==> a == activities[0] || a in activities[1..];
    }
  }

  /** A context exists exactly when the account does. It shows its detectors the latest email, call or meeting about the
      opportunity, the account's usage by period, and every normalized event about the account or the opportunity, each
      as often as it was stored and no other, in the order they occurred. */
  lemma ContextIsExact(m: Mirror, normalized: seq<NormalizedEvent>, o: Opportunity, at: Instant)
    ensures
      var c := ContextFor(m, normalized, o, at);
      && (c.Some? <==> o.account in m.accounts)
      && (c.Some? ==>
            && c.value.at == at && c.value.opportunity == o && c.value.account == m.accounts[o.account]
            && IsLatestTouch(m.activities, o.id, c.value.latestTouch)
            && (forall i, j :: 0 <= i < j < |c.value.usage| ==> c.value.usage[i].periodStart <= c.value.usage[j].periodStart)
            && (forall u :: multiset(c.value.usage)[u] == if u.account == c.value.account.id then multiset(m.usage)[u] else 0)
            && (forall i, j :: 0 <= i < j < |c.value.events| ==> c.value.events[i].occurredAt <= c.value.events[j].occurredAt)
            && (forall n :: multiset(c.value.events)[n]
                            == if Concerns(n, c.value.account.ref, o.ref) then multiset(normalized)[n] else 0))
  {
    if o.account in m.accounts {
      var account := m.accounts[o.account];
      var about, usage := About(normalized, account.ref, o.ref), UsageOf(m.usage, account.id);
      forall n ensures multiset(about)[n] == if Concerns(n, account.ref, o.ref) then multiset(normalized)[n] else 0 {
        AboutExactly(normalized, account.ref, o.ref, n);
      }
      forall u: UsageSnapshot ensures multiset(usage)[u] == if u.account == account.id then multiset(m.usage)[u] else 0 {
        UsageOfExactly(m.usage, account.id, u);
      }
      SortPermutes(EarlierLeq, about);
      SortSorted(EarlierLeq, about);
      SortPermutes(PeriodLeq, usage);
      SortSorted(PeriodLeq, usage);
      LatestTouchIsLatest(m.activities, o.id);
    }
  }

  /** A key's value is that of its first entry, and null if it has none. */
  lemma {:induction false} LookupFinds(entries: seq<Member>, key: string)
    ensures
      || (Lookup(entries, key).Null? && forall i :: 0 <= i < |entries| ==> entries[i].key != key)
      || (exists i :: 0 <= i < |entries| && entries[i] == Member(key, Lookup(entries, key))
                      && forall j :: 0 <= j < i ==> entries[j].key != key)
  {
    if entries != [] {
      LookupFinds(entries[1..], key);
      assert entries == [entries[0]] + entries[1..];
      if entries[0].key != key && exists i :: 0 <= i < |entries[1..]| && entries[1..][i] == Member(key, Lookup(entries[1..], key))
                                              && forall j :: 0 <= j < i ==> entries[1..][j].key != key {
        var i :| 0 <= i < |entries[1..]| && entries[1..][i] == Member(key, Lookup(entries[1..], key))
                 && forall j :: 0 <= j < i ==> entries[1..][j].key != key;
        assert entries[i + 1] == entries[1..][i];
      }
    }
  }

  /** The reference an event is given is the one in its data, and none only if the data gives none. */
  predicate Carries(ref: Option<string>, v: Json) {
    (v.Null? && ref == None) || (v.Text? && ref == Some(v.s))
  }

  /** A raw event is typed exactly when its type is the spelling of an emitted one, its data is an object, and each
      reference it gives is absent, null, or a string of the right shape. The envelope carries exactly the references
      given: none is invented and none is lost. */
  lemma EnvelopeExactly(i: nat, r: RawEvent)
    ensures
      var e := BuildEnvelope(i, r);
      && (e.Ok? <==> r.eventType.Text? && r.eventType.s in EMITTED_NAMES && r.data.Object?
                     && GoodRef(Lookup(r.data.entries, "account_ref"), "ACC-")
                     && GoodRef(Lookup(r.data.entries, "opportunity_ref"), "OPP-"))
      && (e.Ok? ==>
            && e.value.raw == i && Text(EventTypeValue(e.value.eventType)) == r.eventType && e.value.occurredAt == r.occurredAt
            && e.value.receivedAt == r.receivedAt && e.value.system == r.system && e.value.attributes == r.data
            && Carries(e.value.accountRef, Lookup(r.data.entries, "account_ref"))
            && Carries(e.value.opportunityRef, Lookup(r.data.entries, "opportunity_ref")))
  {
    TypeOfExactly(r.eventType);
    if r.data.Object? {
      RefExactly(r.data.entries, "account_ref", "ACC");
      RefExactly(r.data.entries, "opportunity_ref", "OPP");
    }
  }

  lemma TypeOfExactly(v: Json)
    ensures TypeOf(v).Ok? <==> v.Text? && v.s in EMITTED_NAMES
    ensures TypeOf(v).Ok? ==> v == Text(EventTypeValue(TypeOf(v).value))
    ensures TypeOf(v) == Err(NoEventType) <==> !v.Text?
    ensures v.Text? ==> (TypeOf(v) == Err(UnknownEventType(v.s)) <==> v.s !in EMITTED_NAMES + DECLARED_NAMES)
    ensures v.Text? && v.s in DECLARED_NAMES ==>
              TypeOf(v).Err? && TypeOf(v).error.NotEmitted? && EventTypeValue(TypeOf(v).error.eventType) == v.s
  {
    if v.Text? {
      EmittedInWords(v.s);
      forall t: EventType ensures EventTypeValue(t) == v.s <==> ParseEventType(v.s) == Some(t) {
        SpellingsParse(v.s, t);
      }
    }
  }

  lemma RefExactly(entries: seq<Member>, key: string, prefix: string)
    requires |prefix| == 3
    ensures
      var r := OptionalRef(entries, key, prefix);
      && (r.Ok? <==> GoodRef(Lookup(entries, key), prefix + "-"))
      && (r.Ok? ==> Carries(r.value, Lookup(entries, key)))
      && (r.Err? ==> r.error == MalformedReference(key))
  {
    ShapeInWords(Lookup(entries, key), prefix);
  }

  /** The six types that are ingested, and the four that are only declared. */
  const EMITTED_NAMES := {"crm.opportunity.updated", "crm.activity.logged", "product.usage.rollup",
                          "engagement.email.activity", "engagement.meeting.held", "support.issue.opened"}
  const DECLARED_NAMES := {"crm.opportunity.stage_changed", "crm.record.quality_flagged",
                           "enrichment.provider.usage_reported", "campaign.performance.rollup"}

  lemma EmittedInWords(name: string)
    ensures name in EMITTED_NAMES <==> exists t :: t in EMITTED && EventTypeValue(t) == name
    ensures name in EMITTED_NAMES + DECLARED_NAMES <==> exists t :: EventTypeValue(t) == name
    ensures name in DECLARED_NAMES <==> exists t :: t !in EMITTED && EventTypeValue(t) == name
  {
    assert EventTypeValue(CrmOpportunityUpdated) in EMITTED_NAMES && EventTypeValue(CrmActivityLogged) in EMITTED_NAMES
        && EventTypeValue(ProductUsageRollup) in EMITTED_NAMES && EventTypeValue(EngagementEmailActivity) in EMITTED_NAMES
        && EventTypeValue(EngagementMeetingHeld) in EMITTED_NAMES && EventTypeValue(SupportIssueOpened) in EMITTED_NAMES;
    assert EventTypeValue(CrmOpportunityStageChanged) in DECLARED_NAMES && EventTypeValue(CrmRecordQualityFlagged) in DECLARED_NAMES
        && EventTypeValue(EnrichmentProviderUsageReported) in DECLARED_NAMES && EventTypeValue(CampaignPerformanceRollup) in DECLARED_NAMES;
  }

  /** A refusal names something that is wrong with the event. */
  lemma RefusalsExactly(i: nat, r: RawEvent)
    requires BuildEnvelope(i, r).Err?
    ensures
      match BuildEnvelope(i, r).error
      case NoEventType => !r.eventType.Text?
      case UnknownEventType(name) => r.eventType == Text(name) && name !in EMITTED_NAMES + DECLARED_NAMES
      case NotEmitted(t) => r.eventType == Text(EventTypeValue(t)) && r.eventType.s in DECLARED_NAMES
      case NotAnObject => !r.data.Object?
      case MalformedReference(key) =>
        r.data.Object? && ((key == "account_ref" && !GoodRef(Lookup(r.data.entries, key), "ACC-"))
                           || (key == "opportunity_ref" && !GoodRef(Lookup(r.data.entries, key), "OPP-")))
      case _ => false
  {
    TypeOfExactly(r.eventType);
    if r.data.Object? {
      RefExactly(r.data.entries, "account_ref", "ACC");
      RefExactly(r.data.entries, "opportunity_ref", "OPP");
    }
  }

  /** Null, or eight characters: the prefix with its hyphen, and four digits. */
  predicate GoodRef(v: Json, start: string) {
    v.Null? || (v.Text? && |v.s| == 8 && start <= v.s && forall i :: 4 <= i < 8 ==> v.s[i] in "0123456789")
  }

  lemma ShapeInWords(v: Json, prefix: string)
    requires |prefix| == 3
    ensures GoodRef(v, prefix + "-") <==> v.Null? || (v.Text? && IsReference(prefix, v.s))
  {
    if v.Text? && |v.s| == 8 {
      DigitsInWords();
      var start := prefix + "-";
      if v.s[..3] == prefix && v.s[3] == '-' {
        assert v.s[..4] == v.s[..3] + [v.s[3]];
      }
      if start <= v.s {
        assert v.s[..4] == start && v.s[..3] == v.s[..4][..3] && v.s[3] == v.s[..4][3];
      }
    }
  }

  lemma DigitsInWords()
    ensures forall c: char :: IsDigit(c) <==> c in "0123456789"
  {
    forall c: char ensures IsDigit(c) <==> c in "0123456789" {
      var digits := "0123456789";
      if IsDigit(c) {
        assert digits[c as int - '0' as int] == c;
      }
    }
  }

  // ---- signals ----

  ghost predicate UniqueSignals(signals: seq<Signal>) {
    forall i, j :: 0 <= i < j < |signals| ==> signals[i].dedupeKey != signals[j].dedupeKey
  }

  lemma {:induction false} PersistedHasAll(m: Mirror, signals: seq<Signal>, offered: seq<Candidate>)
    requires Persisted(m, signals, offered).Ok?
    ensures
      var z := Persisted(m, signals, offered).value;
      && z.signals == signals + z.created
      && forall k :: 0 <= k < |offered| ==> HasSignal(z.signals, offered[k].dedupeKey)
    decreases |offered|
  {
    if offered != [] {
      var front, c := offered[..|offered| - 1], offered[|offered| - 1];
      PersistedHasAll(m, signals, front);
      var y, z := Persisted(m, signals, front).value, Persisted(m, signals, offered).value;
      forall k | 0 <= k < |offered| ensures HasSignal(z.signals, offered[k].dedupeKey) {
        if k < |front| {
          assert HasSignal(y.signals, front[k].dedupeKey);
          var i :| 0 <= i < |y.signals| && y.signals[i].dedupeKey == front[k].dedupeKey;
          assert z.signals[i].dedupeKey == offered[k].dedupeKey;
        } else if !HasSignal(y.signals, c.dedupeKey) {
          assert z.signals[|y.signals|].dedupeKey == c.dedupeKey;
        }
      }
    }
  }

  lemma {:induction false} PersistedAgain(m: Mirror, signals: seq<Signal>, offered: seq<Candidate>)
    requires forall k :: 0 <= k < |offered| ==> HasSignal(signals, offered[k].dedupeKey)
    ensures Persisted(m, signals, offered) == Ok(Detected(signals, []))
    decreases |offered|
  {
    if offered != [] {
      PersistedAgain(m, signals, offered[..|offered| - 1]);
    }
  }

  lemma {:induction false} PersistedUnique(m: Mirror, signals: seq<Signal>, offered: seq<Candidate>)
    requires UniqueSignals(signals) && Persisted(m, signals, offered).Ok?
    ensures UniqueSignals(Persisted(m, signals, offered).value.signals)
    decreases |offered|
  {
    if offered != [] {
      PersistedUnique(m, signals, offered[..|offered| - 1]);
      var y, c := Persisted(m, signals, offered[..|offered| - 1]).value, offered[|offered| - 1];
      assert forall i :: 0 <= i < |y.signals| && !HasSignal(y.signals, c.dedupeKey) ==> y.signals[i].dedupeKey != c.dedupeKey;
    }
  }

  // ---- incidents ----

  /** The incident is about the signal's account and opportunity, with its severity. */
  predicate Answers(incident: Incidents.IncidentRow, s: Signal) {
    && incident.signal == s.dedupeKey && incident.severity == s.severity
    && incident.account == s.account && Some(incident.opportunity) == s.opportunity
  }

  /** Row for row in the order they came: each signal has its incident and each incident its signal. */
  ghost predicate Paired(signals: seq<Signal>, incidents: seq<Incidents.IncidentRow>) {
    && |signals| == |incidents|
    && forall i :: 0 <= i < |signals| ==> Answers(incidents[i], signals[i])
  }

  lemma {:induction false} OpenAllAppends(m: Mirror, t: Tables, created: seq<Signal>, at: Instant)
    requires OpenAll(m, t, created, at).Ok?
    ensures
      var z := OpenAll(m, t, created, at).value;
      && z == t.(incidents := z.incidents, audit := z.audit, nextRef := t.nextRef + |created|)
      && |z.incidents| == |t.incidents| + |created| && z.incidents[..|t.incidents|] == t.incidents
      && forall k :: 0 <= k < |created| ==>
           created[k].opportunity.Some? &&
           z.incidents[|t.incidents| + k] == Incidents.TriagedRow(t.nextRef + k, created[k].dedupeKey, created[k].severity,
                                                                  created[k].account, created[k].opportunity.value, at)
    decreases |created|
  {
    if created != [] {
      OpenAllAppends(m, t, created[..|created| - 1], at);
    }
  }

  // ---- the cycle ----

  lemma CycleParts(t: Tables, m: Mirror, detectors: seq<Detector>, at: Instant)
    requires Cycle(t, m, detectors, at).Ok?
    ensures
      var z := Cycle(t, m, detectors, at).value;
      && z.raw == Ingested(t.raw, m.events, at)
      && Normalized(t.normalized, PendingRows(z.raw, t.normalized)) == Ok(z.normalized)
      && Persisted(m, t.signals, Offered(m, z.normalized, m.opportunities, detectors, at)).Ok?
      && Persisted(m, t.signals, Offered(m, z.normalized, m.opportunities, detectors, at)).value.signals == z.signals
      && OpenAll(m, t.(raw := z.raw, normalized := z.normalized, signals := z.signals),
                 Persisted(m, t.signals, Offered(m, z.normalized, m.opportunities, detectors, at)).value.created, at) == Ok(z)
  {
    var normalized := Normalized(t.normalized, PendingRows(Ingested(t.raw, m.events, at), t.normalized)).value;
    var detected := Persisted(m, t.signals, Offered(m, normalized, m.opportunities, detectors, at)).value;
    OpenAllAppends(m, t.(raw := Ingested(t.raw, m.events, at), normalized := normalized, signals := detected.signals), detected.created, at);
  }

  /** A second cycle over an unchanged mirror at the same instant changes no table at all and draws no reference,
      whatever the mirror holds, whatever the detectors compute, and whatever the tables held before the first. */
  lemma SecondCycleAddsNothing(t: Tables, m: Mirror, detectors: seq<Detector>, at: Instant)
    requires Cycle(t, m, detectors, at).Ok?
    ensures Cycle(Cycle(t, m, detectors, at).value, m, detectors, at) == Cycle(t, m, detectors, at)
  {
    var z := Cycle(t, m, detectors, at).value;
    CycleParts(t, m, detectors, at);
    IngestedHasAll(t.raw, m.events, at);
    IngestedAgain(z.raw, m.events, at);
    NormalizedIsComplete(z.raw, t.normalized);
    NothingMissing(z.raw, z.normalized);
    var offered := Offered(m, z.normalized, m.opportunities, detectors, at);
    PersistedHasAll(m, t.signals, offered);
    PersistedAgain(m, z.signals, offered);
  }

  ghost predicate Sound(t: Tables) {
    && UniqueRaw(t.raw) && Faithful(t.raw, t.normalized) && UniqueSignals(t.signals) && Paired(t.signals, t.incidents)
  }

  lemma CycleKeepsEvents(t: Tables, m: Mirror, detectors: seq<Detector>, at: Instant)
    requires UniqueRaw(t.raw) && Faithful(t.raw, t.normalized) && Cycle(t, m, detectors, at).Ok?
    ensures
      var z := Cycle(t, m, detectors, at).value;
      UniqueRaw(z.raw) && Faithful(z.raw, z.normalized) && Complete(z.raw, z.normalized)
  {
    var z := Cycle(t, m, detectors, at).value;
    CycleParts(t, m, detectors, at);
    IngestedHasAll(t.raw, m.events, at);
    IngestedUnique(t.raw, m.events, at);
    FaithfulGrows(t.raw, t.normalized, z.raw);
    NormalizedIsFaithful(z.raw, t.normalized);
    NormalizedIsComplete(z.raw, t.normalized);
  }

  lemma PairedGrows(t: Tables, z: Tables, created: seq<Signal>, m: Mirror, at: Instant)
    requires Paired(t.signals, t.incidents) && z.signals == t.signals + created
    requires OpenAll(m, t.(raw := z.raw, normalized := z.normalized, signals := z.signals), created, at) == Ok(z)
    ensures Paired(z.signals, z.incidents)
  {
    OpenAllAppends(m, t.(raw := z.raw, normalized := z.normalized, signals := z.signals), created, at);
    forall i | 0 <= i < |z.signals| ensures Answers(z.incidents[i], z.signals[i]) {
      if i >= |t.signals| {
        assert z.signals[i] == created[i - |t.signals|];
      } else {
        assert z.incidents[i] == t.incidents[i];
      }
    }
  }

  lemma CycleKeepsSignals(t: Tables, m: Mirror, detectors: seq<Detector>, at: Instant)
    requires UniqueSignals(t.signals) && Paired(t.signals, t.incidents) && Cycle(t, m, detectors, at).Ok?
    ensures
      var z := Cycle(t, m, detectors, at).value;
      UniqueSignals(z.signals) && Paired(z.signals, z.incidents)
  {
    var z := Cycle(t, m, detectors, at).value;
    CycleParts(t, m, detectors, at);
    var offered := Offered(m, z.normalized, m.opportunities, detectors, at);
    PersistedHasAll(m, t.signals, offered);
    PersistedUnique(m, t.signals, offered);
    PairedGrows(t, z, Persisted(m, t.signals, offered).value.created, m, at);
  }

  lemma CycleKeepsSound(t: Tables, m: Mirror, detectors: seq<Detector>, at: Instant)
    requires Sound(t) && Cycle(t, m, detectors, at).Ok?
    ensures
      var z := Cycle(t, m, detectors, at).value;
      Sound(z) && Complete(z.raw, z.normalized)
  {
    CycleKeepsEvents(t, m, detectors, at);
    CycleKeepsSignals(t, m, detectors, at);
  }

  predicate StoredUnder(raw: seq<RawEvent>, system: string, eventId: string) {
    exists i :: 0 <= i < |raw| && raw[i].system == system && raw[i].eventId == eventId
  }

  predicate SignalledUnder(signals: seq<Signal>, key: string) {
    exists i :: 0 <= i < |signals| && signals[i].dedupeKey == key
  }

  lemma EveryEventIsStored(raw: seq<RawEvent>, events: seq<SourceEvent>, at: Instant)
    ensures forall e :: e in events ==> StoredUnder(Ingested(raw, events, at), e.system, e.eventId)
  {
    IngestedHasAll(raw, events, at);
    forall e | e in events ensures StoredUnder(Ingested(raw, events, at), e.system, e.eventId) {
      var k :| 0 <= k < |events| && events[k] == e;
      assert HasRaw(Ingested(raw, events, at), events[k]);
    }
  }

  lemma EveryCandidateIsSignalled(m: Mirror, signals: seq<Signal>, offered: seq<Candidate>)
    requires Persisted(m, signals, offered).Ok?
    ensures
      var z := Persisted(m, signals, offered).value.signals;
      && (forall c :: c in offered ==> SignalledUnder(z, c.dedupeKey))
      && signals <= z && forall i :: |signals| <= i < |z| ==> z[i] in offered
  {
    PersistedHasAll(m, signals, offered);
    CreatedAreOffered(m, signals, offered);
    var d := Persisted(m, signals, offered).value;
    forall c | c in offered ensures SignalledUnder(d.signals, c.dedupeKey) {
      var k :| 0 <= k < |offered| && offered[k] == c;
      assert HasSignal(d.signals, offered[k].dedupeKey);
    }
    forall i | |signals| <= i < |d.signals| ensures d.signals[i] in offered {
      assert d.signals[i] == d.created[i - |signals|];
    }
  }

  /** Nothing offered is lost: after a cycle every event of the mirror is stored under its source key and every candidate
      any detector finds is signalled under its own. And nothing is made up: every row added was offered. */
  lemma NothingIsLost(t: Tables, m: Mirror, detectors: seq<Detector>, at: Instant)
    requires Cycle(t, m, detectors, at).Ok?
    ensures
      var z := Cycle(t, m, detectors, at).value;
      var offered := Offered(m, z.normalized, m.opportunities, detectors, at);
      && (forall e :: e in m.events ==> StoredUnder(z.raw, e.system, e.eventId))
      && (forall c :: c in offered ==> SignalledUnder(z.signals, c.dedupeKey))
      && t.raw <= z.raw && t.signals <= z.signals
      && AddsOnlyOffered(t.raw, z.raw, m.events, at)
      && (forall i :: |t.signals| <= i < |z.signals| ==> z.signals[i] in offered)
  {
    CycleParts(t, m, detectors, at);
    IngestedHasAll(t.raw, m.events, at);
    IngestedAreOffered(t.raw, m.events, at);
    EveryEventIsStored(t.raw, m.events, at);
    EveryCandidateIsSignalled(m, t.signals, Offered(m, Cycle(t, m, detectors, at).value.normalized, m.opportunities, detectors, at));
  }

  /** Every candidate a detector finds for an opportunity that has its account is offered, and nothing else is. */
  lemma {:induction false} OfferedExactly(m: Mirror, normalized: seq<NormalizedEvent>, opportunities: seq<Opportunity>,
                                          detectors: seq<Detector>, at: Instant, c: Candidate)
    ensures c in Offered(m, normalized, opportunities, detectors, at) <==> Found(m, normalized, opportunities, detectors, at, c)
  {
    if opportunities != [] {
      var front, last := opportunities[..|opportunities| - 1], opportunities[|opportunities| - 1];
      assert opportunities == front + [last];
      OfferedExactly(m, normalized, front, detectors, at, c);
      var context := ContextFor(m, normalized, last, at);
      if context.Some? {
        OfContextExactly(context.value, detectors, c);
      }
      assert (exists d :: d in detectors && Finds(m, normalized, last, d, at, c))
        <==> context.Some? && c in OfContext(context.value, detectors);
      if d :| d in detectors && Finds(m, normalized, last, d, at, c) {
        assert last in opportunities && Found(m, normalized, opportunities, detectors, at, c);
      }
      if Found(m, normalized, front, detectors, at, c) {
        var o, d :| o in front && d in detectors && Finds(m, normalized, o, d, at, c);
        assert o in opportunities && Found(m, normalized, opportunities, detectors, at, c);
      }
      if Found(m, normalized, opportunities, detectors, at, c) {
        var o, d :| o in opportunities && d in detectors && Finds(m, normalized, o, d, at, c);
        assert o in front || o == last;
      }
    }
  }

  ghost predicate Found(m: Mirror, normalized: seq<NormalizedEvent>, opportunities: seq<Opportunity>, detectors: seq<Detector>,
                        at: Instant, c: Candidate)
  {
    exists o, d :: o in opportunities && d in detectors && Finds(m, normalized, o, d, at, c)
  }

  predicate Finds(m: Mirror, normalized: seq<NormalizedEvent>, o: Opportunity, d: Detector, at: Instant, c: Candidate) {
    var context := ContextFor(m, normalized, o, at);
    context.Some? && d(context.value) == Some(c)
  }

  lemma {:induction false} OfContextExactly(context: Context, detectors: seq<Detector>, c: Candidate)
    ensures c in OfContext(context, detectors) <==> exists d :: d in detectors && d(context) == Some(c)
  {
    if detectors != [] {
      var front, last := detectors[..|detectors| - 1], detectors[|detectors| - 1];
      assert detectors == front + [last];
      OfContextExactly(context, front, c);
    }
  }

  lemma {:induction false} CreatedAreOffered(m: Mirror, start: seq<Signal>, offered: seq<Candidate>)
    requires Persisted(m, start, offered).Ok?
    ensures forall c :: c in Persisted(m, start, offered).value.created ==> c in offered
    ensures |Persisted(m, start, offered).value.created| <= |offered|
    decreases |offered|
  {
    if offered != [] {
      CreatedAreOffered(m, start, offered[..|offered| - 1]);
    }
  }

  /** Rows wait to be normalized in the order of their source keys: by system, then by event. */
  lemma PendingInKeyOrder(raw: seq<RawEvent>, normalized: seq<NormalizedEvent>)
    ensures
      var pending := PendingRows(raw, normalized);
      forall i, j :: 0 <= i < j < |pending| ==>
        && StringLeq(pending[i].1.system, pending[j].1.system)
        && (pending[i].1.system == pending[j].1.system ==> StringLeq(pending[i].1.eventId, pending[j].1.eventId))
  {
    forall a: (nat, RawEvent), b: (nat, RawEvent) ensures EventLeq(a, b) || EventLeq(b, a) {
      StringLeqTotal(a.1.system, b.1.system);
      StringLeqTotal(a.1.eventId, b.1.eventId);
    }
    forall a: (nat, RawEvent), b: (nat, RawEvent), c: (nat, RawEvent) | EventLeq(a, b) && EventLeq(b, c) ensures EventLeq(a, c) {
      EventLeqChains(a, b, c);
    }
    SortSorted(EventLeq, Missing(raw, normalized));
    var pending := PendingRows(raw, normalized);
    forall i, j | 0 <= i < j < |pending| ensures StringLeq(pending[i].1.system, pending[j].1.system) {
      assert EventLeq(pending[i], pending[j]);
      StringLeqTotal(pending[i].1.system, pending[i].1.system);
    }
  }

  lemma EventLeqChains(a: (nat, RawEvent), b: (nat, RawEvent), c: (nat, RawEvent))
    requires EventLeq(a, b) && EventLeq(b, c)
    ensures EventLeq(a, c)
  {
    if a.1.system == b.1.system == c.1.system {
      StringLeqTransitive(a.1.eventId, b.1.eventId, c.1.eventId);
    } else {
      StringLeqTotal(a.1.system, a.1.system);
      StringLeqTotal(b.1.system, b.1.system);
      StringLeqTransitive(a.1.system, b.1.system, c.1.system);
      if a.1.system == c.1.system {
        StringLeqAntisymmetric(a.1.system, b.1.system);
      }
    }
  }

  datatype Cycled = Cycled(mirror: Mirror, detectors: seq<Detector>, at: Instant)

  const EMPTY := Tables([], [], [], [], [], 1)

  /** One cycle after another, over any mirrors at any instants; one that fails leaves the tables as they were. */
  function AfterCycles(cycles: seq<Cycled>): Tables {
    if cycles == [] then EMPTY
    else
      var before, c := AfterCycles(cycles[..|cycles| - 1]), cycles[|cycles| - 1];
      var r := Cycle(before, c.mirror, c.detectors, c.at);
      if r.Ok? then r.value else before
  }

  /** After any sequence of cycles over any mirrors: source keys are unique, raw and normalized events match one to one
      with every normalized event the envelope of its own raw one, and signals and incidents match one to one. */
  lemma {:induction false} CyclesKeepEverythingMatched(cycles: seq<Cycled>)
    ensures Sound(AfterCycles(cycles)) && Complete(AfterCycles(cycles).raw, AfterCycles(cycles).normalized)
    ensures |AfterCycles(cycles).raw| == |AfterCycles(cycles).normalized|
  {
    if cycles != [] {
      var before, c := AfterCycles(cycles[..|cycles| - 1]), cycles[|cycles| - 1];
      CyclesKeepEverythingMatched(cycles[..|cycles| - 1]);
      if Cycle(before, c.mirror, c.detectors, c.at).Ok? {
        CycleKeepsSound(before, c.mirror, c.detectors, c.at);
      }
    }
    OneToOne(AfterCycles(cycles).raw, AfterCycles(cycles).normalized);
  }

  function RawIds(normalized: seq<NormalizedEvent>): (r: seq<nat>) {
    seq(|normalized|, n requires 0 <= n < |normalized| => normalized[n].raw)
  }

  lemma EveryNumberOnce(ids: seq<nat>, n: nat)
    requires Distinct(ids) && (forall i :: i in ids ==> i < n) && forall i: nat :: i < n ==> i in ids
    ensures |ids| == n
  {
    DistinctMembers(ids);
    assert Members(ids) == Below(n);
  }

  lemma OneToOne(raw: seq<RawEvent>, normalized: seq<NormalizedEvent>)
    requires Faithful(raw, normalized) && Complete(raw, normalized)
    ensures |raw| == |normalized|
  {
    var ids := RawIds(normalized);
    forall i: nat | i < |raw| ensures i in ids {
      assert HasNormalized(normalized, i);
      var n :| 0 <= n < |normalized| && normalized[n].raw == i;
      assert ids[n] == i;
    }
    forall i | i in ids ensures i < |raw| {
      var n :| 0 <= n < |ids| && ids[n] == i;
      assert normalized[n].raw < |raw|;
    }
    EveryNumberOnce(ids, |raw|);
  }

  function Below(n: nat): (s: set<nat>)
    ensures |s| == n && forall i: nat :: i in s <==> i < n
  {
    if n == 0 then {} else Below(n - 1) + {n - 1}
  }

  function Members(ids: seq<nat>): (s: set<nat>)
    ensures forall i :: i in s <==> i in ids
  {
    if ids == [] then {} else Members(ids[1..]) + {ids[0]}
  }

  lemma {:induction false} DistinctMembers(ids: seq<nat>)
    requires Distinct(ids)
    ensures |Members(ids)| == |ids|
  {
    if ids != [] {
      DistinctMembers(ids[1..]);
      assert ids[0] !in ids[1..];
    }
  }

  /** A source event whose key is already stored is never stored again, even if the mirror now says something else: the
      row stands as it was first received. */
  lemma FirstReceivedStands(t: Tables, m: Mirror, detectors: seq<Detector>, at: Instant, e: SourceEvent, i: nat)
    requires Sound(t) && Cycle(t, m, detectors, at).Ok? && e in m.events
    requires i < |t.raw| && t.raw[i].system == e.system && t.raw[i].eventId == e.eventId
    ensures
      var z := Cycle(t, m, detectors, at).value;
      forall j :: 0 <= j < |z.raw| && z.raw[j].system == e.system && z.raw[j].eventId == e.eventId ==> j == i && z.raw[j] == t.raw[i]
  {
    CycleParts(t, m, detectors, at);
    CycleKeepsSound(t, m, detectors, at);
    IngestedHasAll(t.raw, m.events, at);
    var z := Cycle(t, m, detectors, at).value;
    assert z.raw[i] == t.raw[i];
  }
}
