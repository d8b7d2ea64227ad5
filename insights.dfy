/**
 * `query_insights`: the free-text query is lower-cased, matched against an ordered
 * catalog of trigger phrases (the first phrase contained in it wins), and the matching
 * aggregation is run over the order table.
 */
module Insights {
  import opened Wrappers
  import opened Text
  import opened Dataset
  import opened Aggregates
  import opened Months

  /** The canned questions the resolver recognises. */
  datatype QueryKind =
    | TotalOrders
    | CompletedOrders
    | CanceledOrders
    | BestCarrierQuery
    | AverageDeliveryTime
    | CommonCancellationReason
    | TopCity
    | TopState
    | OrdersPerMonthQuery
    | Unrecognised

  datatype Trigger = Trigger(phrase: string, kind: QueryKind)

  /** The trigger phrases in the order the `if`/`elif` chain tests them. */
  const Catalog: seq<Trigger> := [
    Trigger("total orders", TotalOrders),
    Trigger("completed orders", CompletedOrders),
    Trigger("canceled orders", CanceledOrders),
    Trigger("best carrier", BestCarrierQuery),
    Trigger("highest sla compliance", BestCarrierQuery),
    Trigger("average delivery time", AverageDeliveryTime),
    Trigger("most common cancellation reason", CommonCancellationReason),
    Trigger("top city for orders", TopCity),
    Trigger("top state for orders", TopState),
    Trigger("orders per month", OrdersPerMonthQuery)
  ]

  /** The position in `catalog[lo..]` of the first trigger whose phrase `text` contains. */
  function FirstMatch(catalog: seq<Trigger>, text: string, lo: nat): (k: Option<nat>)
    requires lo <= |catalog|
    ensures k.None? <==> forall j :: lo <= j < |catalog| ==> !Contains(text, catalog[j].phrase)
    ensures k.Some? ==> lo <= k.value < |catalog| && Contains(text, catalog[k.value].phrase)
    ensures k.Some? ==> forall j :: lo <= j < k.value ==> !Contains(text, catalog[j].phrase)
    decreases |catalog| - lo
  {
    if lo == |catalog| then None
    else if Contains(text, catalog[lo].phrase) then Some(lo)
    else FirstMatch(catalog, text, lo + 1)
  }

  /** The `if`/`elif` chain of `query_insights`, on the already lower-cased text `q`. */
  function Dispatch(q: string): QueryKind {
    if Contains(q, "total orders") then TotalOrders
    else if Contains(q, "completed orders") then CompletedOrders
    else if Contains(q, "canceled orders") then CanceledOrders
    else if Contains(q, "best carrier") || Contains(q, "highest sla compliance") then BestCarrierQuery
    else if Contains(q, "average delivery time") then AverageDeliveryTime
    else if Contains(q, "most common cancellation reason") then CommonCancellationReason
    else if Contains(q, "top city for orders") then TopCity
    else if Contains(q, "top state for orders") then TopState
    else if Contains(q, "orders per month") then OrdersPerMonthQuery
    else Unrecognised
  }

  /** The branch `query_insights` takes for `query`: the query is lower-cased first. */
  function Classify(query: string): QueryKind {
    Dispatch(Lower(query))
  }

  /**
   * The `if`/`elif` chain is the first-match rule over the catalog: the branch taken is
   * the kind of the earliest catalog phrase the lower-cased query contains, and the
   * fallback exactly when it contains none.
   */
  lemma ClassifyIsFirstMatch(query: string)
    ensures Classify(query) == match FirstMatch(Catalog, Lower(query), 0)
                               case None => Unrecognised
                               case Some(i) => Catalog[i].kind
    ensures Classify(query) == Unrecognised <==> FirstMatch(Catalog, Lower(query), 0).None?
  {
    var q := Lower(query);
    assert Catalog[0].phrase == "total orders";
    assert Catalog[1].phrase == "completed orders";
    assert Catalog[2].phrase == "canceled orders";
    assert Catalog[3].phrase == "best carrier";
    assert Catalog[4].phrase == "highest sla compliance";
    assert Catalog[5].phrase == "average delivery time";
    assert Catalog[6].phrase == "most common cancellation reason";
    assert Catalog[7].phrase == "top city for orders";
    assert Catalog[8].phrase == "top state for orders";
    assert Catalog[9].phrase == "orders per month";
    match FirstMatch(Catalog, q, 0)
    case None =>
    case Some(i) =>
      assert i in {0, 1, 2, 3, 4, 5, 6, 7, 8, 9};
  }

  /** The answer of a query, before it is formatted into a sentence. */
  datatype Answer =
    | Count(n: nat)                      // an order count
    | Name(value: string)                // the carrier, reason, city or state with the most records
    | NoData                             // `idxmax` over no values, where pandas raises ValueError
    | Deliveries(records: Table)         // the records the average delivery time is taken over
    | MonthTable(months: seq<MonthCount>) // the bars of the "Orders Per Month" chart
    | Fallback                           // "Sorry, I couldn't understand your query. ..."

  function NameOrNoData(m: Option<string>): Answer {
    match m
    case Some(v) => Name(v)
    case None => NoData
  }

  const Completed: string := "COMPLETED"
  const Cancelled: string := "CANCELLED"

  /** The answer the branch `k` of `query_insights` computes over the table `t`. */
  function Respond(t: Table, k: QueryKind): (a: Answer)
    ensures a == Fallback <==> k == Unrecognised
    ensures a.Count? ==> a.n <= |t|
    ensures a.Deliveries? ==> forall r :: r in a.records <==> r in t && Delivered(r)
  {
    match k
    case TotalOrders => Count(|t|)
    case CompletedOrders => Count(|Where(t, Status, Completed)|)
    case CanceledOrders => Count(|Where(t, Status, Cancelled)|)
    case BestCarrierQuery => NameOrNoData(BestCarrier(t))
    case AverageDeliveryTime => Deliveries(DeliverySubset(t))
    case CommonCancellationReason => NameOrNoData(ModeOfColumn(t, Reason))
    case TopCity => NameOrNoData(ModeOfColumn(t, City))
    case TopState => NameOrNoData(ModeOfColumn(t, State))
    case OrdersPerMonthQuery => MonthTable(OrdersPerMonth(t))
    case Unrecognised => Fallback
  }

  /** The answer `query_insights` gives to `query` over the table `t`. */
  function QueryInsights(t: Table, query: string): (a: Answer)
    ensures a == Fallback <==> Classify(query) == Unrecognised
    ensures a.Count? ==> a.n <= |t|
    ensures a.Deliveries? ==> forall r :: r in a.records <==> r in t && Delivered(r)
  {
    Respond(t, Classify(query))
  }

  /** The first catalog phrase the lower-cased query contains decides the branch. */
  lemma FirstMatchWins(query: string, i: nat)
    requires i < |Catalog|
    requires Contains(Lower(query), Catalog[i].phrase)
    requires forall j :: 0 <= j < i ==> !Contains(Lower(query), Catalog[j].phrase)
    ensures Classify(query) == Catalog[i].kind
  {
    ClassifyIsFirstMatch(query);
    var k := FirstMatch(Catalog, Lower(query), 0);
    assert k.Some?;
    assert !(k.value < i) && !(i < k.value);
  }

  /** The fallback answer is given exactly when no phrase occurs, whatever the data. */
  lemma FallbackExactlyWhenNoPhrase(t: Table, query: string)
    ensures QueryInsights(t, query) == Fallback <==>
              forall j :: 0 <= j < |Catalog| ==> !Contains(Lower(query), Catalog[j].phrase)
    ensures QueryInsights(t, query) == Fallback ==> forall u :: QueryInsights(u, query) == Fallback
  {
    ClassifyIsFirstMatch(query);
  }

  /** Matching ignores case: queries that agree once lower-cased get the same answer. */
  lemma QueryIgnoresCase(t: Table, a: string, b: string)
    requires |a| == |b|
    requires forall i :: 0 <= i < |a| ==> LowerChar(a[i]) == LowerChar(b[i])
    ensures QueryInsights(t, a) == QueryInsights(t, b)
  {
    LowerAgrees(a, b);
    assert Classify(a) == Classify(b);
  }

  /** Lower-casing the query first changes nothing. */
  lemma LoweredQuerySameAnswer(t: Table, query: string)
    ensures QueryInsights(t, Lower(query)) == QueryInsights(t, query)
  {
    QueryIgnoresCase(t, Lower(query), query);
  }

  /** The three count answers: all records, and the records with status exactly COMPLETED or CANCELLED. */
  lemma CountAnswers(t: Table, query: string)
    ensures Classify(query) == TotalOrders ==> QueryInsights(t, query) == Count(|t|)
    ensures Classify(query) == CompletedOrders ==>
              QueryInsights(t, query) == Count(Occurrences(Column(t, Status), Some(Completed)))
    ensures Classify(query) == CanceledOrders ==>
              QueryInsights(t, query) == Count(Occurrences(Column(t, Status), Some(Cancelled)))
  {
    if Classify(query) == CompletedOrders {
      WhereCount(t, Status, Completed);
    } else if Classify(query) == CanceledOrders {
      WhereCount(t, Status, Cancelled);
    }
  }

  /** Completed and cancelled orders are disjoint, so together they are at most the total. */
  lemma CompletedAndCanceledWithinTotal(t: Table, completed: string, canceled: string, total: string)
    requires Classify(completed) == CompletedOrders
    requires Classify(canceled) == CanceledOrders
    requires Classify(total) == TotalOrders
    ensures QueryInsights(t, completed).n + QueryInsights(t, canceled).n <= QueryInsights(t, total).n
  {
    WhereDisjoint(t, Status, Completed, Cancelled);
  }

  /** The carrier query answers with the best carrier. */
  lemma CarrierQuery(t: Table, query: string)
    requires Classify(query) == BestCarrierQuery
    ensures QueryInsights(t, query) == NameOrNoData(BestCarrier(t))
  {
  }

  /**
   * The carrier answer names a carrier of some ON_TIME record that no carrier beats on
   * ON_TIME records; it is `NoData` exactly when no ON_TIME record names a carrier.
   */
  lemma CarrierAnswer(t: Table, query: string)
    requires Classify(query) == BestCarrierQuery
    ensures var a := QueryInsights(t, query);
            && (a.Name? || a == NoData)
            && (a == NoData <==> forall i :: 0 <= i < |t| && t[i].sla == Some(OnTime) ==> t[i].carrier.None?)
            && (a.Name? ==> exists i :: 0 <= i < |t| && t[i].sla == Some(OnTime) && t[i].carrier == Some(a.value))
            && (a.Name? ==> forall c :: OnTimeRecords(t, c) <= OnTimeRecords(t, a.value))
  {
    CarrierQuery(t, query);
    BestCarrierIsMostOnTime(t);
  }

  /** The column whose most frequent value a query asks for. */
  function ModeField(k: QueryKind): Option<Field> {
    match k
    case CommonCancellationReason => Some(Reason)
    case TopCity => Some(City)
    case TopState => Some(State)
    case _ => None
  }

  /** The reason, city and state queries answer with the mode of their column. */
  lemma ModeQuery(t: Table, query: string, f: Field)
    requires ModeField(Classify(query)) == Some(f)
    ensures QueryInsights(t, query) == NameOrNoData(ModeOfColumn(t, f))
  {
  }

  /**
   * The reason, city and state answers name a present value of their column that no
   * value beats, and are `NoData` exactly when the column is all missing.
   */
  lemma ModeAnswer(t: Table, query: string, f: Field)
    requires ModeField(Classify(query)) == Some(f)
    ensures var a := QueryInsights(t, query);
            && (a.Name? || a == NoData)
            && (a == NoData <==> forall i :: 0 <= i < |t| ==> Cell(t[i], f).None?)
            && (a.Name? ==> exists i :: 0 <= i < |t| && Cell(t[i], f) == Some(a.value))
            && (a.Name? ==> forall w :: Occurrences(Column(t, f), Some(w)) <= Occurrences(Column(t, f), Some(a.value)))
  {
    ModeQuery(t, query, f);
    ModeOfColumnIsMostFrequent(t, f);
  }

  /** A record missing the queried column never changes the reason, city or state answer. */
  lemma ModeAnswerIgnoresMissing(t: Table, query: string, f: Field, r: Record)
    requires ModeField(Classify(query)) == Some(f)
    requires Cell(r, f).None?
    ensures QueryInsights(t + [r], query) == QueryInsights(t, query)
  {
    ModeQuery(t, query, f);
    ModeQuery(t + [r], query, f);
    ModeOfColumnIgnoresMissing(t, f, r);
  }

  /** The delivery-time answer ignores any record missing its order date or completion time. */
  lemma DeliveryAnswer(query: string, before: Table, r: Record, after: Table)
    requires Classify(query) == AverageDeliveryTime
    requires !Delivered(r)
    ensures QueryInsights(before + [r] + after, query) == QueryInsights(before + after, query)
  {
    DeliverySubsetIgnoresIncomplete(before, r, after);
  }

  /**
   * The month answer: strictly ascending months, one per month with orders, each with
   * its number of records, the counts adding up to the records that have an order date.
   */
  lemma MonthAnswer(t: Table, query: string)
    requires Classify(query) == OrdersPerMonthQuery
    ensures QueryInsights(t, query).MonthTable?
    ensures var table := QueryInsights(t, query).months;
            && Ascending(table)
            && (forall i :: 0 <= i < |table| ==> table[i].orders == OrdersIn(t, table[i].key) > 0)
            && (forall m :: OrdersIn(t, m) > 0 <==> exists i :: 0 <= i < |table| && table[i].key == m)
            && Total(table) == Dated(t)
  {
    assert QueryInsights(t, query) == MonthTable(OrdersPerMonth(t));
    OrdersPerMonthCorrect(t);
  }
}
