/** One ingestion cycle: raw events, normalized events, signals, incidents. Each level inserts or skips. */
module Ingestion {
  import opened Vocabulary
  import opened Mirror
  import opened Sorting
  import Incidents

  /** `eventType` is the payload's own value for that key, whatever it is. */
  datatype RawEvent = RawEvent(system: string, eventId: string, receivedAt: Instant, eventType: Json, occurredAt: Instant, data: Json)

  /** `raw` is a row number of the raw events table. */
  datatype NormalizedEvent = NormalizedEvent(
    raw: nat, eventType: EventType, system: string, occurredAt: Instant, receivedAt: Instant,
    accountRef: Option<string>, opportunityRef: Option<string>, attributes: Json)

  datatype Candidate = Candidate(
    signalType: string, version: string, severity: string, account: nat, opportunity: Option<nat>,
    detectedAt: Instant, dedupeKey: string, evidence: seq<string>)

  /** A stored signal is the candidate it was inserted from; its identity is the deduplication key. */
  type Signal = Candidate

  datatype Context = Context(
    at: Instant, account: Account, opportunity: Opportunity, latestTouch: Option<Instant>,
    usage: seq<UsageSnapshot>, events: seq<NormalizedEvent>)

  /** Any pure function of its context. */
  type Detector = Context -> Option<Candidate>

  datatype Tables = Tables(
    raw: seq<RawEvent>, normalized: seq<NormalizedEvent>, signals: seq<Signal>,
    incidents: seq<Incidents.IncidentRow>, audit: seq<Incidents.AuditRow>, nextRef: nat)

  datatype CycleError =
    | NoEventType
    | UnknownEventType(name: string)
    | NotEmitted(eventType: EventType)
    | NotAnObject
    | MalformedReference(key: string)
    | ForeignKey(dedupeKey: string)
    | MissingAccount(dedupeKey: string)
    | NoOpportunity(dedupeKey: string)
    | SecondIncident(dedupeKey: string)

  const SIGNAL_AGENT := "agent:signal_agent"

  // ---- raw events ----

  predicate SameEvent(r: RawEvent, e: SourceEvent) {
    r.system == e.system && r.eventId == e.eventId
  }

  predicate HasRaw(raw: seq<RawEvent>, e: SourceEvent) {
    exists i :: 0 <= i < |raw| && SameEvent(raw[i], e)
  }

  function RawOf(e: SourceEvent, at: Instant): RawEvent {
    RawEvent(e.system, e.eventId, at, Text(EventTypeValue(e.eventType)), e.occurredAt, e.data)
  }

  function Ingested(raw: seq<RawEvent>, events: seq<SourceEvent>, at: Instant): seq<RawEvent> {
    if events == [] then raw
    else
      var before := Ingested(raw, events[..|events| - 1], at);
      var e := events[|events| - 1];
      if HasRaw(before, e) then before else before + [RawOf(e, at)]
  }

  // ---- normalized events ----

  function Lookup(entries: seq<Member>, key: string): Json {
    if entries == [] then Null
    else if entries[0].key == key then entries[0].value
    else Lookup(entries[1..], key)
  }

  predicate IsDigit(c: char) {
    '0' <= c <= '9'
  }

  /** A three-letter prefix, a hyphen and four digits. */
  predicate IsReference(prefix: string, s: string) {
    |s| == |prefix| + 5 && s[..|prefix|] == prefix && s[|prefix|] == '-'
    && forall i :: |prefix| < i < |s| ==> IsDigit(s[i])
  }

  function OptionalRef(entries: seq<Member>, key: string, prefix: string): Result<Option<string>, CycleError> {
    match Lookup(entries, key)
    case Null => Ok(None)
    case Text(s) => if IsReference(prefix, s) then Ok(Some(s)) else Err(MalformedReference(key))
    case _ => Err(MalformedReference(key))
  }

  function TypeOf(eventType: Json): Result<EventType, CycleError> {
    if !eventType.Text? then Err(NoEventType)
    else
      match ParseEventType(eventType.s)
      case None => Err(UnknownEventType(eventType.s))
      case Some(t) => if t in EMITTED then Ok(t) else Err(NotEmitted(t))
  }

  /** Anything that cannot be typed stops the cycle rather than reaching a detector. */
  function BuildEnvelope(i: nat, r: RawEvent): Result<NormalizedEvent, CycleError> {
    match TypeOf(r.eventType)
    case Err(e) => Err(e)
    case Ok(eventType) =>
      if !r.data.Object? then Err(NotAnObject)
      else
        match OptionalRef(r.data.entries, "account_ref", "ACC")
        case Err(e) => Err(e)
        case Ok(account) =>
          match OptionalRef(r.data.entries, "opportunity_ref", "OPP")
          case Err(e) => Err(e)
          case Ok(opportunity) =>
            Ok(NormalizedEvent(i, eventType, r.system, r.occurredAt, r.receivedAt, account, opportunity, r.data))
  }

  predicate HasNormalized(normalized: seq<NormalizedEvent>, i: nat) {
    exists n :: 0 <= n < |normalized| && normalized[n].raw == i
  }

  /** The rows with no normalized row, with their numbers. */
  function Missing(raw: seq<RawEvent>, normalized: seq<NormalizedEvent>): seq<(nat, RawEvent)> {
    if raw == [] then []
    else
      var last := |raw| - 1;
      Missing(raw[..last], normalized) + if HasNormalized(normalized, last) then [] else [(last, raw[last])]
  }

  predicate EventLeq(a: (nat, RawEvent), b: (nat, RawEvent)) {
    if a.1.system != b.1.system then StringLeq(a.1.system, b.1.system) else StringLeq(a.1.eventId, b.1.eventId)
  }

  function PendingRows(raw: seq<RawEvent>, normalized: seq<NormalizedEvent>): seq<(nat, RawEvent)> {
    Sort(EventLeq, Missing(raw, normalized))
  }

  function Normalized(normalized: seq<NormalizedEvent>, pending: seq<(nat, RawEvent)>): Result<seq<NormalizedEvent>, CycleError>
    decreases |pending|
  {
    if pending == [] then Ok(normalized)
    else
      var before := Normalized(normalized, pending[..|pending| - 1]);
      if before.Err? then before
      else
        match BuildEnvelope(pending[|pending| - 1].0, pending[|pending| - 1].1)
        case Err(e) => Err(e)
        case Ok(n) => Ok(before.value + [n])
  }

  // ---- detection ----

  function About(normalized: seq<NormalizedEvent>, account: string, opportunity: string): seq<NormalizedEvent> {
    if normalized == [] then []
    else (if normalized[0].opportunityRef == Some(opportunity) || normalized[0].accountRef == Some(account) then [normalized[0]] else [])
         + About(normalized[1..], account, opportunity)
  }

  predicate EarlierLeq(a: NormalizedEvent, b: NormalizedEvent) {
    a.occurredAt <= b.occurredAt
  }

  predicate Touches(a: Activity, opportunity: nat) {
    a.opportunity == Some(opportunity) && a.kind in SALES_TOUCHES
  }

  function LatestTouch(activities: seq<Activity>, opportunity: nat): Option<Instant> {
    if activities == [] then None
    else
      var a, rest := activities[0], LatestTouch(activities[1..], opportunity);
      if !Touches(a, opportunity) then rest
      else if rest.Some? && rest.value > a.occurredAt then rest
      else Some(a.occurredAt)
  }

  function UsageOf(usage: seq<UsageSnapshot>, account: nat): seq<UsageSnapshot> {
    if usage == [] then []
    else (if usage[0].account == account then [usage[0]] else []) + UsageOf(usage[1..], account)
  }

  predicate PeriodLeq(a: UsageSnapshot, b: UsageSnapshot) {
    a.periodStart <= b.periodStart
  }

  function ContextFor(m: Mirror, normalized: seq<NormalizedEvent>, o: Opportunity, at: Instant): Option<Context> {
    if !HasAccount(m, o) then None
    else
      var account := m.accounts[o.account];
      Some(Context(at, account, o,
                   LatestTouch(m.activities, o.id),
                   Sort(PeriodLeq, UsageOf(m.usage, account.id)),
                   Sort(EarlierLeq, About(normalized, account.ref, o.ref))))
  }

  predicate HasAccount(m: Mirror, o: Opportunity) {
    o.account in m.accounts
  }

  /** Opportunities whose account row is there; the others are passed over. */
  function ContextCount(m: Mirror, opportunities: seq<Opportunity>): nat {
    if opportunities == [] then 0
    else ContextCount(m, opportunities[..|opportunities| - 1]) + if HasAccount(m, opportunities[|opportunities| - 1]) then 1 else 0
  }

  function OfContext(c: Context, detectors: seq<Detector>): seq<Candidate> {
    if detectors == [] then []
    else
      var found := detectors[|detectors| - 1](c);
      OfContext(c, detectors[..|detectors| - 1]) + if found.Some? then [found.value] else []
  }

  /** Every candidate of every opportunity, in the order they are found. */
  function Offered(m: Mirror, normalized: seq<NormalizedEvent>, opportunities: seq<Opportunity>, detectors: seq<Detector>, at: Instant)
    : seq<Candidate>
  {
    if opportunities == [] then []
    else
      var c := ContextFor(m, normalized, opportunities[|opportunities| - 1], at);
      Offered(m, normalized, opportunities[..|opportunities| - 1], detectors, at)
      + if c.Some? then OfContext(c.value, detectors) else []
  }

  predicate HasSignal(signals: seq<Signal>, key: string) {
    exists i :: 0 <= i < |signals| && signals[i].dedupeKey == key
  }

  predicate HasOpportunity(m: Mirror, id: nat) {
    exists i :: 0 <= i < |m.opportunities| && m.opportunities[i].id == id
  }

  predicate ForeignKeysHold(m: Mirror, c: Candidate) {
    c.account in m.accounts && (c.opportunity.Some? ==> HasOpportunity(m, c.opportunity.value))
  }

  datatype Detected = Detected(signals: seq<Signal>, created: seq<Signal>)

  function Persisted(m: Mirror, signals: seq<Signal>, offered: seq<Candidate>): Result<Detected, CycleError>
    decreases |offered|
  {
    if offered == [] then Ok(Detected(signals, []))
    else
      var before := Persisted(m, signals, offered[..|offered| - 1]);
      var c := offered[|offered| - 1];
      if before.Err? then before
      else if HasSignal(before.value.signals, c.dedupeKey) then before
      else if !ForeignKeysHold(m, c) then Err(ForeignKey(c.dedupeKey))
      else Ok(Detected(before.value.signals + [c], before.value.created + [c]))
  }

  // ---- incidents ----

  predicate HasIncident(incidents: seq<Incidents.IncidentRow>, key: string) {
    exists i :: 0 <= i < |incidents| && incidents[i].signal == key
  }

  function OpenError(m: Mirror, incidents: seq<Incidents.IncidentRow>, s: Signal): Option<CycleError> {
    if s.account !in m.accounts then Some(MissingAccount(s.dedupeKey))
    else if s.opportunity.None? || !HasOpportunity(m, s.opportunity.value) then Some(NoOpportunity(s.dedupeKey))
    else if HasIncident(incidents, s.dedupeKey) then Some(SecondIncident(s.dedupeKey))
    else None
  }

  function OpenOne(m: Mirror, t: Tables, s: Signal, at: Instant): Result<Tables, CycleError> {
    var error := OpenError(m, t.incidents, s);
    if error.Some? then Err(error.value)
    else
      assert s.opportunity.Some?;
      Ok(t.(incidents := t.incidents + [Incidents.TriagedRow(t.nextRef, s.dedupeKey, s.severity, s.account, s.opportunity.value, at)],
            audit := t.audit + Incidents.OpeningRows(|t.incidents|, s.dedupeKey, SIGNAL_AGENT, at),
            nextRef := t.nextRef + 1))
  }

  function OpenAll(m: Mirror, t: Tables, created: seq<Signal>, at: Instant): Result<Tables, CycleError>
    decreases |created|
  {
    if created == [] then Ok(t)
    else
      var before := OpenAll(m, t, created[..|created| - 1], at);
      if before.Err? then before else OpenOne(m, before.value, created[|created| - 1], at)
  }

  // ---- the cycle ----

  /** What a cycle leaves behind when it succeeds; when it does not, the transaction rolls back. */
  function Cycle(t: Tables, m: Mirror, detectors: seq<Detector>, at: Instant): Result<Tables, CycleError> {
    var raw := Ingested(t.raw, m.events, at);
    var normalized := Normalized(t.normalized, PendingRows(raw, t.normalized));
    if normalized.Err? then Err(normalized.error)
    else
      var detected := Persisted(m, t.signals, Offered(m, normalized.value, m.opportunities, detectors, at));
      if detected.Err? then Err(detected.error)
      else OpenAll(m, t.(raw := raw, normalized := normalized.value, signals := detected.value.signals), detected.value.created, at)
  }
}
