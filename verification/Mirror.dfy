/** The locally mirrored sales data that ingestion replays and detectors read. */
module Mirror {
  import opened Vocabulary

  datatype EventType =
    | CrmOpportunityUpdated | CrmActivityLogged | ProductUsageRollup
    | EngagementEmailActivity | EngagementMeetingHeld | SupportIssueOpened
    // declared, never emitted
    | CrmOpportunityStageChanged | CrmRecordQualityFlagged | EnrichmentProviderUsageReported | CampaignPerformanceRollup

  const EMITTED: set<EventType> := {
    CrmOpportunityUpdated, CrmActivityLogged, ProductUsageRollup,
    EngagementEmailActivity, EngagementMeetingHeld, SupportIssueOpened}

  /** The stored spelling of an event type. */
  function EventTypeValue(t: EventType): string {
    match t
    case CrmOpportunityUpdated => "crm.opportunity.updated"
    case CrmActivityLogged => "crm.activity.logged"
    case ProductUsageRollup => "product.usage.rollup"
    case EngagementEmailActivity => "engagement.email.activity"
    case EngagementMeetingHeld => "engagement.meeting.held"
    case SupportIssueOpened => "support.issue.opened"
    case CrmOpportunityStageChanged => "crm.opportunity.stage_changed"
    case CrmRecordQualityFlagged => "crm.record.quality_flagged"
    case EnrichmentProviderUsageReported => "enrichment.provider.usage_reported"
    case CampaignPerformanceRollup => "campaign.performance.rollup"
  }

  const EVENT_TYPES: seq<EventType> := [
    CrmOpportunityUpdated, CrmActivityLogged, ProductUsageRollup, EngagementEmailActivity, EngagementMeetingHeld,
    SupportIssueOpened, CrmOpportunityStageChanged, CrmRecordQualityFlagged, EnrichmentProviderUsageReported,
    CampaignPerformanceRollup]

  function FindType(types: seq<EventType>, name: string): Option<EventType> {
    if types == [] then None
    else if EventTypeValue(types[0]) == name then Some(types[0])
    else FindType(types[1..], name)
  }

  /** The type a string spells, if it spells one. */
  function ParseEventType(name: string): Option<EventType> {
    FindType(EVENT_TYPES, name)
  }

  lemma SpellingsDiffer(t: EventType, u: EventType)
    requires EventTypeValue(t) == EventTypeValue(u)
    ensures t == u
  {
    var x, y := EventTypeValue(t), EventTypeValue(u);
    assert |x| == |y| && x[0] == y[0] && x[|x| - 1] == y[|y| - 1] && x[4] == y[4];
  }

  lemma {:induction false} FindTypeFinds(types: seq<EventType>, name: string)
    ensures FindType(types, name).Some? ==> EventTypeValue(FindType(types, name).value) == name
    ensures FindType(types, name).None? ==> forall t :: t in types ==> EventTypeValue(t) != name
  {
    if types != [] {
      FindTypeFinds(types[1..], name);
      assert types == [types[0]] + types[1..];
    }
  }

  /** Every type is read back from its own spelling, and from no other string. */
  lemma SpellingsParse(name: string, t: EventType)
    ensures EventTypeValue(t) == name <==> ParseEventType(name) == Some(t)
  {
    FindTypeFinds(EVENT_TYPES, name);
    assert EVENT_TYPES[0] == CrmOpportunityUpdated && EVENT_TYPES[1] == CrmActivityLogged && EVENT_TYPES[2] == ProductUsageRollup
        && EVENT_TYPES[3] == EngagementEmailActivity && EVENT_TYPES[4] == EngagementMeetingHeld && EVENT_TYPES[5] == SupportIssueOpened
        && EVENT_TYPES[6] == CrmOpportunityStageChanged && EVENT_TYPES[7] == CrmRecordQualityFlagged
        && EVENT_TYPES[8] == EnrichmentProviderUsageReported && EVENT_TYPES[9] == CampaignPerformanceRollup;
    assert t in EVENT_TYPES;
    if EventTypeValue(t) == name {
      SpellingsDiffer(t, ParseEventType(name).value);
    }
  }

  /** Which string is which type. */
  lemma EachSpelling()
    ensures ParseEventType("crm.opportunity.updated") == Some(CrmOpportunityUpdated)
    ensures ParseEventType("crm.activity.logged") == Some(CrmActivityLogged)
    ensures ParseEventType("product.usage.rollup") == Some(ProductUsageRollup)
    ensures ParseEventType("engagement.email.activity") == Some(EngagementEmailActivity)
    ensures ParseEventType("engagement.meeting.held") == Some(EngagementMeetingHeld)
    ensures ParseEventType("support.issue.opened") == Some(SupportIssueOpened)
    ensures ParseEventType("crm.opportunity.stage_changed") == Some(CrmOpportunityStageChanged)
    ensures ParseEventType("crm.record.quality_flagged") == Some(CrmRecordQualityFlagged)
    ensures ParseEventType("enrichment.provider.usage_reported") == Some(EnrichmentProviderUsageReported)
    ensures ParseEventType("campaign.performance.rollup") == Some(CampaignPerformanceRollup)
  {
    forall t: EventType ensures ParseEventType(EventTypeValue(t)) == Some(t) {
      SpellingsParse(EventTypeValue(t), t);
    }
    assert EventTypeValue(CrmOpportunityUpdated) == "crm.opportunity.updated";
    assert EventTypeValue(CrmActivityLogged) == "crm.activity.logged";
    assert EventTypeValue(ProductUsageRollup) == "product.usage.rollup";
    assert EventTypeValue(EngagementEmailActivity) == "engagement.email.activity";
    assert EventTypeValue(EngagementMeetingHeld) == "engagement.meeting.held";
    assert EventTypeValue(SupportIssueOpened) == "support.issue.opened";
    assert EventTypeValue(CrmOpportunityStageChanged) == "crm.opportunity.stage_changed";
    assert EventTypeValue(CrmRecordQualityFlagged) == "crm.record.quality_flagged";
    assert EventTypeValue(EnrichmentProviderUsageReported) == "enrichment.provider.usage_reported";
    assert EventTypeValue(CampaignPerformanceRollup) == "campaign.performance.rollup";
  }

  datatype Account = Account(id: nat, ref: string)

  datatype Opportunity = Opportunity(id: nat, ref: string, account: nat)

  datatype ActivityKind = EmailActivity | CallActivity | MeetingActivity | NoteActivity

  /** A note is a rep talking to themselves, not to the buyer. */
  const SALES_TOUCHES: set<ActivityKind> := {EmailActivity, CallActivity, MeetingActivity}

  datatype Activity = Activity(opportunity: Option<nat>, kind: ActivityKind, occurredAt: Instant)

  datatype UsageSnapshot = UsageSnapshot(account: nat, periodStart: int, featureEvents: nat)

  datatype SourceEvent = SourceEvent(system: string, eventId: string, eventType: EventType, occurredAt: Instant, data: Json)

  /** Opportunities in reference order; `events` is what reading the rows as source events gives. */
  datatype Mirror = Mirror(
    accounts: map<nat, Account>,
    opportunities: seq<Opportunity>,
    activities: seq<Activity>,
    usage: seq<UsageSnapshot>,
    events: seq<SourceEvent>)
}
