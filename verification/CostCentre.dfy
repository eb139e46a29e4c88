/** The cost centre's aggregations, and why they agree with the ledger they summarise. */
module CostCentre {
  import opened Vocabulary
  import opened Ledger
  import Pricing
  import Sorting

  /** One row of the grouped query. */
  datatype GroupRow = GroupRow(incident: string, costType: CostType, amount: nat, count: nat)

  datatype IncidentCost = IncidentCost(incident: string, model: nat, tool: nat, modelCalls: nat, toolCalls: nat)

  function Cost(v: IncidentCost, t: CostType): nat {
    if t == ModelInference then v.model else v.tool
  }

  function CallCount(v: IncidentCost, t: CostType): nat {
    if t == ModelInference then v.modelCalls else v.toolCalls
  }

  function TotalCost(v: IncidentCost): nat {
    v.model + v.tool
  }

  // ---- the query ----

  function AddEntry(rows: seq<GroupRow>, incident: string, e: CostEntry): seq<GroupRow> {
    if rows == [] then [GroupRow(incident, e.costType, e.amount, 1)]
    else if rows[0].incident == incident && rows[0].costType == e.costType
    then [rows[0].(amount := rows[0].amount + e.amount, count := rows[0].count + 1)] + rows[1..]
    else [rows[0]] + AddEntry(rows[1..], incident, e)
  }

  /** Entries joined to their run's incident and grouped by incident and cost type. */
  function Grouped(entries: seq<CostEntry>, incidentOf: nat -> string): seq<GroupRow> {
    if entries == [] then []
    else
      var last := entries[|entries| - 1];
      AddEntry(Grouped(entries[..|entries| - 1], incidentOf), incidentOf(last.run), last)
  }

  // ---- the loop over its rows ----

  function Bump(v: IncidentCost, row: GroupRow): IncidentCost {
    if row.costType == ModelInference
    then v.(model := v.model + row.amount, modelCalls := v.modelCalls + row.count)
    else v.(tool := v.tool + row.amount, toolCalls := v.toolCalls + row.count)
  }

  /** One bucket per incident, in order of first appearance. */
  function AddRow(buckets: seq<IncidentCost>, row: GroupRow): seq<IncidentCost> {
    if buckets == [] then [Bump(IncidentCost(row.incident, 0, 0, 0, 0), row)]
    else if buckets[0].incident == row.incident then [Bump(buckets[0], row)] + buckets[1..]
    else [buckets[0]] + AddRow(buckets[1..], row)
  }

  function Buckets(rows: seq<GroupRow>): seq<IncidentCost> {
    if rows == [] then [] else AddRow(Buckets(rows[..|rows| - 1]), rows[|rows| - 1])
  }

  /** Highest spend first, then by reference. */
  predicate ViewLeq(a: IncidentCost, b: IncidentCost) {
    TotalCost(a) > TotalCost(b) || (TotalCost(a) == TotalCost(b) && Sorting.StringLeq(a.incident, b.incident))
  }

  function ByIncidentOf(entries: seq<CostEntry>, incidentOf: nat -> string): seq<IncidentCost> {
    Sorting.Sort(ViewLeq, Buckets(Grouped(entries, incidentOf)))
  }

  method ByIncident(entries: seq<CostEntry>, incidentOf: nat -> string) returns (views: seq<IncidentCost>)
    ensures views == ByIncidentOf(entries, incidentOf)
  {
    var rows := Grouped(entries, incidentOf);
    var totals: seq<IncidentCost> := [];
    for i := 0 to |rows|
      invariant totals == Buckets(rows[..i])
    {
      assert rows[..i + 1][..i] == rows[..i];
      totals := AddRow(totals, rows[i]);
    }
    assert rows[..|rows|] == rows;
    views := Sorting.Sort(ViewLeq, totals);
  }

  // ---- what a view must say, read off the entries ----

  datatype Measure = Money | Calls

  function OfEntry(e: CostEntry, what: Measure): nat {
    if what == Money then e.amount else 1
  }

  function OfRow(row: GroupRow, what: Measure): nat {
    if what == Money then row.amount else row.count
  }

  function OfView(v: IncidentCost, t: CostType, what: Measure): nat {
    if what == Money then Cost(v, t) else CallCount(v, t)
  }

  /** What an incident's own entries of one type come to. */
  function Spent(entries: seq<CostEntry>, incidentOf: nat -> string, incident: string, t: CostType, what: Measure): nat {
    if entries == [] then 0
    else
      var last := entries[|entries| - 1];
      Spent(entries[..|entries| - 1], incidentOf, incident, t, what)
      + if incidentOf(last.run) == incident && last.costType == t then OfEntry(last, what) else 0
  }

  /** What all entries of one type come to: the centre's own totals. */
  function Sum(entries: seq<CostEntry>, t: CostType, what: Measure): nat {
    if entries == [] then 0
    else Sum(entries[..|entries| - 1], t, what)
         + if entries[|entries| - 1].costType == t then OfEntry(entries[|entries| - 1], what) else 0
  }

  function RowSum(rows: seq<GroupRow>, incident: string, t: CostType, what: Measure): nat {
    if rows == [] then 0
    else (if rows[0].incident == incident && rows[0].costType == t then OfRow(rows[0], what) else 0)
         + RowSum(rows[1..], incident, t, what)
  }

  function RowTotal(rows: seq<GroupRow>, t: CostType, what: Measure): nat {
    if rows == [] then 0 else (if rows[0].costType == t then OfRow(rows[0], what) else 0) + RowTotal(rows[1..], t, what)
  }

  function ViewSum(views: seq<IncidentCost>, incident: string, t: CostType, what: Measure): nat {
    if views == [] then 0
    else (if views[0].incident == incident then OfView(views[0], t, what) else 0) + ViewSum(views[1..], incident, t, what)
  }

  function ViewTotal(views: seq<IncidentCost>, t: CostType, what: Measure): nat {
    if views == [] then 0 else OfView(views[0], t, what) + ViewTotal(views[1..], t, what)
  }

  /** The larger sum of both costs first, and on equal sums the smaller reference. */
  ghost predicate DearestFirst(views: seq<IncidentCost>) {
    forall i, j :: 0 <= i < j < |views| ==>
      && views[i].model + views[i].tool >= views[j].model + views[j].tool
      && (views[i].model + views[i].tool == views[j].model + views[j].tool ==> Sorting.StringLeq(views[i].incident, views[j].incident))
  }

  predicate OneEach(views: seq<IncidentCost>) {
    forall i, j :: 0 <= i < j < |views| ==> views[i].incident != views[j].incident
  }

  // ---- the query ----

  lemma {:induction false} AddEntrySum(rows: seq<GroupRow>, incident: string, e: CostEntry, x: string, t: CostType, what: Measure)
    ensures RowSum(AddEntry(rows, incident, e), x, t, what)
            == RowSum(rows, x, t, what) + if x == incident && t == e.costType then OfEntry(e, what) else 0
  {
    if rows != [] && !(rows[0].incident == incident && rows[0].costType == e.costType) {
      AddEntrySum(rows[1..], incident, e, x, t, what);
    }
  }

  lemma {:induction false} AddEntryTotal(rows: seq<GroupRow>, incident: string, e: CostEntry, t: CostType, what: Measure)
    ensures RowTotal(AddEntry(rows, incident, e), t, what) == RowTotal(rows, t, what) + if t == e.costType then OfEntry(e, what) else 0
  {
    if rows != [] && !(rows[0].incident == incident && rows[0].costType == e.costType) {
      AddEntryTotal(rows[1..], incident, e, t, what);
    }
  }

  lemma {:induction false} GroupedSums(entries: seq<CostEntry>, incidentOf: nat -> string, x: string, t: CostType, what: Measure)
    ensures RowSum(Grouped(entries, incidentOf), x, t, what) == Spent(entries, incidentOf, x, t, what)
    ensures RowTotal(Grouped(entries, incidentOf), t, what) == Sum(entries, t, what)
  {
    if entries != [] {
      var front, last := entries[..|entries| - 1], entries[|entries| - 1];
      GroupedSums(front, incidentOf, x, t, what);
      AddEntrySum(Grouped(front, incidentOf), incidentOf(last.run), last, x, t, what);
      AddEntryTotal(Grouped(front, incidentOf), incidentOf(last.run), last, t, what);
    }
  }

  // ---- the buckets ----

  lemma {:induction false} AddRowSum(buckets: seq<IncidentCost>, row: GroupRow, x: string, t: CostType, what: Measure)
    ensures ViewSum(AddRow(buckets, row), x, t, what)
            == ViewSum(buckets, x, t, what) + if x == row.incident && t == row.costType then OfRow(row, what) else 0
  {
    if buckets != [] && buckets[0].incident != row.incident {
      AddRowSum(buckets[1..], row, x, t, what);
    }
  }

  lemma {:induction false} AddRowTotal(buckets: seq<IncidentCost>, row: GroupRow, t: CostType, what: Measure)
    ensures ViewTotal(AddRow(buckets, row), t, what) == ViewTotal(buckets, t, what) + if t == row.costType then OfRow(row, what) else 0
  {
    if buckets != [] && buckets[0].incident != row.incident {
      AddRowTotal(buckets[1..], row, t, what);
    }
  }

  /** Adding a row keeps the buckets' incidents and their order, appending the row's own when it is new. */
  lemma {:induction false} AddRowIncidents(buckets: seq<IncidentCost>, row: GroupRow)
    ensures var r := AddRow(buckets, row);
            && |buckets| <= |r| <= |buckets| + 1
            && (forall i :: 0 <= i < |buckets| ==> r[i].incident == buckets[i].incident)
            && (|r| == |buckets| + 1 ==> r[|buckets|].incident == row.incident
                                         && forall i :: 0 <= i < |buckets| ==> buckets[i].incident != row.incident)
  {
    if buckets != [] && buckets[0].incident != row.incident {
      AddRowIncidents(buckets[1..], row);
      var rest := AddRow(buckets[1..], row);
      forall i | 0 <= i < |buckets|
        ensures AddRow(buckets, row)[i].incident == buckets[i].incident
        ensures |rest| == |buckets| ==> buckets[i].incident != row.incident
      {
        if i > 0 {
          assert buckets[i] == buckets[1..][i - 1];
        }
      }
    }
  }

  lemma {:induction false} RowSumSplit(rows: seq<GroupRow>, x: string, t: CostType, what: Measure)
    requires rows != []
    ensures var last := rows[|rows| - 1];
            && RowSum(rows, x, t, what)
               == RowSum(rows[..|rows| - 1], x, t, what) + (if last.incident == x && last.costType == t then OfRow(last, what) else 0)
            && RowTotal(rows, t, what)
               == RowTotal(rows[..|rows| - 1], t, what) + if last.costType == t then OfRow(last, what) else 0
  {
    if |rows| > 1 {
      RowSumSplit(rows[1..], x, t, what);
      assert rows[1..][..|rows[1..]| - 1] == rows[..|rows| - 1][1..];
    }
  }

  lemma {:induction false} BucketSums(rows: seq<GroupRow>, x: string, t: CostType, what: Measure)
    ensures ViewSum(Buckets(rows), x, t, what) == RowSum(rows, x, t, what)
    ensures ViewTotal(Buckets(rows), t, what) == RowTotal(rows, t, what)
  {
    if rows != [] {
      BucketSums(rows[..|rows| - 1], x, t, what);
      AddRowSum(Buckets(rows[..|rows| - 1]), rows[|rows| - 1], x, t, what);
      AddRowTotal(Buckets(rows[..|rows| - 1]), rows[|rows| - 1], t, what);
      RowSumSplit(rows, x, t, what);
    }
  }

  lemma {:induction false} BucketsAreDistinct(rows: seq<GroupRow>)
    ensures OneEach(Buckets(rows))
  {
    if rows != [] {
      BucketsAreDistinct(rows[..|rows| - 1]);
      AddRowIncidents(Buckets(rows[..|rows| - 1]), rows[|rows| - 1]);
    }
  }

  // ---- the order they are shown in ----

  lemma {:induction false} InsertSums(v: IncidentCost, views: seq<IncidentCost>, x: string, t: CostType, what: Measure)
    ensures ViewSum(Sorting.Insert(ViewLeq, v, views), x, t, what)
            == ViewSum(views, x, t, what) + if v.incident == x then OfView(v, t, what) else 0
    ensures ViewTotal(Sorting.Insert(ViewLeq, v, views), t, what) == ViewTotal(views, t, what) + OfView(v, t, what)
  {
    if views != [] && !ViewLeq(v, views[0]) {
      InsertSums(v, views[1..], x, t, what);
    }
  }

  lemma {:induction false} SortSums(views: seq<IncidentCost>, x: string, t: CostType, what: Measure)
    ensures ViewSum(Sorting.Sort(ViewLeq, views), x, t, what) == ViewSum(views, x, t, what)
    ensures ViewTotal(Sorting.Sort(ViewLeq, views), t, what) == ViewTotal(views, t, what)
  {
    if views != [] {
      SortSums(views[1..], x, t, what);
      InsertSums(views[0], Sorting.Sort(ViewLeq, views[1..]), x, t, what);
    }
  }

  lemma ViewLeqIsAnOrder()
    ensures Sorting.Total(ViewLeq) && Sorting.Transitive(ViewLeq)
  {
    forall a: IncidentCost, b: IncidentCost ensures ViewLeq(a, b) || ViewLeq(b, a) {
      Sorting.StringLeqTotal(a.incident, b.incident);
    }
    forall a: IncidentCost, b: IncidentCost, c: IncidentCost | ViewLeq(a, b) && ViewLeq(b, c) ensures ViewLeq(a, c) {
      if TotalCost(a) == TotalCost(b) == TotalCost(c) {
        Sorting.StringLeqTransitive(a.incident, b.incident, c.incident);
      }
    }
  }

  lemma {:induction false} InsertKeepsOneEach(v: IncidentCost, views: seq<IncidentCost>)
    requires OneEach(views) && forall i :: 0 <= i < |views| ==> views[i].incident != v.incident
    ensures
      var r := Sorting.Insert(ViewLeq, v, views);
      OneEach(r) && forall i :: 0 <= i < |r| ==> r[i] == v || r[i] in views
  {
    if views != [] && !ViewLeq(v, views[0]) {
      InsertKeepsOneEach(v, views[1..]);
      var rest := Sorting.Insert(ViewLeq, v, views[1..]);
      forall j | 0 <= j < |rest| ensures views[0].incident != rest[j].incident {
        if rest[j] != v {
          var k :| 0 <= k < |views[1..]| && views[1..][k] == rest[j];
          assert views[k + 1] == rest[j];
        }
      }
    }
  }

  lemma {:induction false} SortKeepsOneEach(views: seq<IncidentCost>)
    requires OneEach(views)
    ensures OneEach(Sorting.Sort(ViewLeq, views))
  {
    if views != [] {
      var sorted := Sorting.Sort(ViewLeq, views[1..]);
      SortKeepsOneEach(views[1..]);
      Sorting.SortPermutes(ViewLeq, views[1..]);
      forall i | 0 <= i < |sorted| ensures sorted[i].incident != views[0].incident {
        assert sorted[i] in multiset(views[1..]);
        var k :| 0 <= k < |views[1..]| && views[1..][k] == sorted[i];
        assert views[k + 1] == sorted[i];
      }
      InsertKeepsOneEach(views[0], sorted);
    }
  }

  /** For any entries and any attribution of runs to incidents: each incident appears once, the dearest first; its model
      and tool figures, and its counts of calls, are those of its own entries; and over all incidents they add up to the
      centre's totals. */
  lemma IncidentsAddUp(entries: seq<CostEntry>, incidentOf: nat -> string, incident: string, t: CostType, what: Measure)
    ensures
      var views := ByIncidentOf(entries, incidentOf);
      && OneEach(views) && DearestFirst(views)
      && ViewSum(views, incident, t, what) == Spent(entries, incidentOf, incident, t, what)
      && ViewTotal(views, t, what) == Sum(entries, t, what)
  {
    GroupedSums(entries, incidentOf, incident, t, what);
    BucketSums(Grouped(entries, incidentOf), incident, t, what);
    SortSums(Buckets(Grouped(entries, incidentOf)), incident, t, what);
    BucketsAreDistinct(Grouped(entries, incidentOf));
    SortKeepsOneEach(Buckets(Grouped(entries, incidentOf)));
    ViewLeqIsAnOrder();
    Sorting.SortSorted(ViewLeq, Buckets(Grouped(entries, incidentOf)));
    var views := ByIncidentOf(entries, incidentOf);
    forall i, j | 0 <= i < j < |views| ensures views[i].model + views[i].tool >= views[j].model + views[j].tool {
      assert ViewLeq(views[i], views[j]);
    }
  }

  /** The totals by type add up to the ledger's own total. */
  lemma {:induction false} TypesAddUp(entries: seq<CostEntry>)
    ensures Sum(entries, ModelInference, Money) + Sum(entries, ToolInvocation, Money) == GrandTotal(entries)
    ensures Sum(entries, ModelInference, Calls) + Sum(entries, ToolInvocation, Calls) == |entries|
  {
    if entries != [] {
      TypesAddUp(entries[..|entries| - 1]);
    }
  }

  // ---- the counts of calls ----

  function ModelRows(calls: seq<CallRow>): nat {
    if calls == [] then 0 else ModelRows(calls[..|calls| - 1]) + if calls[|calls| - 1].ModelRow? then 1 else 0
  }

  function ToolRows(calls: seq<CallRow>): nat {
    if calls == [] then 0 else ToolRows(calls[..|calls| - 1]) + if calls[|calls| - 1].ToolRow? then 1 else 0
  }

  /** The centre counts call rows, its incidents count ledger entries; with one entry for each call they agree. */
  lemma {:induction false} CallRowsAreEntries(calls: seq<CallRow>, entries: seq<CostEntry>)
    requires |calls| == |entries| && forall k :: 0 <= k < |calls| ==> EntryOf(entries[k], calls[k], k)
    ensures ModelRows(calls) == Sum(entries, ModelInference, Calls)
    ensures ToolRows(calls) == Sum(entries, ToolInvocation, Calls)
  {
    if calls != [] {
      CallRowsAreEntries(calls[..|calls| - 1], entries[..|entries| - 1]);
      assert EntryOf(entries[|calls| - 1], calls[|calls| - 1], |calls| - 1);
    }
  }

  /** So the centre's totals of calls are what its incidents' counts add up to. */
  lemma CallCountsAgree(calls: seq<CallRow>, entries: seq<CostEntry>, incidentOf: nat -> string)
    requires |calls| == |entries| && forall k :: 0 <= k < |calls| ==> EntryOf(entries[k], calls[k], k)
    ensures ViewTotal(ByIncidentOf(entries, incidentOf), ModelInference, Calls) == ModelRows(calls)
    ensures ViewTotal(ByIncidentOf(entries, incidentOf), ToolInvocation, Calls) == ToolRows(calls)
  {
    CallRowsAreEntries(calls, entries);
    IncidentsAddUp(entries, incidentOf, "", ModelInference, Calls);
    IncidentsAddUp(entries, incidentOf, "", ToolInvocation, Calls);
  }

  // ---- the model mix ----

  datatype ModelCall = ModelCall(run: nat, model: string, tokens: Pricing.Tokens)

  function TokensOf(calls: seq<ModelCall>, model: string): seq<Pricing.Tokens> {
    if calls == [] then []
    else TokensOf(calls[..|calls| - 1], model)
         + if calls[|calls| - 1].model == model then [calls[|calls| - 1].tokens] else []
  }

  /** The mix prices a model's summed input and output tokens; cache tokens are not part of its query. */
  function MixCost(calls: seq<ModelCall>, model: string): Result<nat, Pricing.CostError> {
    var t := Pricing.Total(TokensOf(calls, model));
    Pricing.CostOf(model, Pricing.Tokens(t.input, t.output, 0, 0))
  }

  ghost predicate Ledgered(calls: seq<ModelCall>, entries: seq<CostEntry>) {
    && |calls| == |entries|
    && forall i :: 0 <= i < |calls| ==>
         && entries[i].run == calls[i].run && entries[i].costType == ModelInference
         && Pricing.CostOf(calls[i].model, calls[i].tokens) == Ok(entries[i].amount)
  }

  function EntrySum(calls: seq<ModelCall>, entries: seq<CostEntry>, model: string): nat
    requires |calls| == |entries|
  {
    if calls == [] then 0
    else EntrySum(calls[..|calls| - 1], entries[..|entries| - 1], model)
         + if calls[|calls| - 1].model == model then entries[|entries| - 1].amount else 0
  }

  lemma {:induction false} LedgeredCounts(calls: seq<ModelCall>, entries: seq<CostEntry>, model: string)
    requires Ledgered(calls, entries)
    ensures Pricing.AllCounts(TokensOf(calls, model))
  {
    if calls != [] {
      LedgeredCounts(calls[..|calls| - 1], entries[..|entries| - 1], model);
    }
  }

  lemma CostsSnoc(model: string, ts: seq<Pricing.Tokens>, t: Pricing.Tokens)
    requires Pricing.PriceFor(model).Some? && Pricing.AllCounts(ts) && Pricing.Counts(t)
    ensures Pricing.AllCounts(ts + [t])
    ensures Pricing.SumOfCosts(model, ts + [t]) == Pricing.SumOfCosts(model, ts) + Pricing.CostOf(model, t).value
  {
    assert (ts + [t])[..|ts + [t]| - 1] == ts;
  }

  lemma {:induction false} EntriesAreCosts(calls: seq<ModelCall>, entries: seq<CostEntry>, model: string)
    requires Pricing.PriceFor(model).Some? && Ledgered(calls, entries) && Pricing.AllCounts(TokensOf(calls, model))
    ensures EntrySum(calls, entries, model) == Pricing.SumOfCosts(model, TokensOf(calls, model))
  {
    if calls == [] {
      assert TokensOf(calls, model) == [] && EntrySum(calls, entries, model) == 0;
    } else {
      var front, last := calls[..|calls| - 1], calls[|calls| - 1];
      var rest := entries[..|entries| - 1];
      LedgeredCounts(front, rest, model);
      EntriesAreCosts(front, rest, model);
      if last.model == model {
        assert TokensOf(calls, model) == TokensOf(front, model) + [last.tokens];
        CostsSnoc(model, TokensOf(front, model), last.tokens);
      } else {
        assert TokensOf(calls, model) == TokensOf(front, model);
      }
    }
  }

  /** With no cache tokens, the figure the mix shows for a model is to the microdollar the sum of the ledger entries its
      calls were charged, however the tokens were spread over the calls. */
  lemma MixAgreesWithLedger(calls: seq<ModelCall>, entries: seq<CostEntry>, model: string)
    requires Pricing.PriceFor(model).Some? && Ledgered(calls, entries)
    requires Pricing.Uncached(TokensOf(calls, model))
    ensures MixCost(calls, model) == Ok(EntrySum(calls, entries, model))
  {
    LedgeredCounts(calls, entries, model);
    EntriesAreCosts(calls, entries, model);
    Pricing.SplittingUncachedIsExact(model, TokensOf(calls, model));
  }
}
