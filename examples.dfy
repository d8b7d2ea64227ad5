/** Worked queries: which branch a query takes, and one small table answered end to end. */
module InsightsExamples {
  import opened Wrappers
  import opened Text
  import opened Dataset
  import opened Aggregates
  import opened Months
  import opened Insights

  /**
   * Text containing "total orders" always gets the total count, whatever else it holds:
   * "total orders and completed orders" and "total orders per month" both count all
   * orders, the later triggers never fire.
   */
  lemma TotalOrdersPhraseWins(before: string, after: string)
    ensures Classify(before + "total orders" + after) == TotalOrders
  {
    var q := before + "total orders" + after;
    assert Lower(q)[|before|..|before| + 12] == "total orders";
    OccursAtContains(Lower(q), "total orders", |before|);
    FirstMatchWins(q, 0);
  }

  /**
   * A lower-case query without the letters o, b, g and v holds no trigger phrase (each
   * phrase has one of them), so it gets the fallback answer.
   */
  lemma FallbackWithoutTriggerLetters(t: Table, query: string)
    requires forall i :: 0 <= i < |query| ==> !IsUpper(query[i])
    requires 'o' !in query && 'b' !in query && 'g' !in query && 'v' !in query
    ensures QueryInsights(t, query) == Fallback
  {
    LowerKeepsLowercase(query);
    var q := Lower(query);
    MissingCharRulesOut(q, "total orders", 'o');
    MissingCharRulesOut(q, "completed orders", 'o');
    MissingCharRulesOut(q, "canceled orders", 'o');
    MissingCharRulesOut(q, "best carrier", 'b');
    MissingCharRulesOut(q, "highest sla compliance", 'g');
    MissingCharRulesOut(q, "average delivery time", 'v');
    MissingCharRulesOut(q, "most common cancellation reason", 'o');
    MissingCharRulesOut(q, "top city for orders", 'o');
    MissingCharRulesOut(q, "top state for orders", 'o');
    MissingCharRulesOut(q, "orders per month", 'o');
  }

  lemma WeatherIsFallback(t: Table)
    ensures QueryInsights(t, "what is the weather") == Fallback
  {
    FallbackWithoutTriggerLetters(t, "what is the weather");
  }

  function Stamp(day: int, second: nat): Timestamp {
    Timestamp(2024, 1, day, second)
  }

  /** Three orders: two completed (one without a completion time), one cancelled. */
  function SampleTable(): Table {
    [ Record(Some(Stamp(3, 0)), Some(Stamp(3, 18000)), None, Some("COMPLETED"), Some("ON_TIME"),
             Some("FastShip"), None, Some("Austin"), Some("TX")),
      Record(Some(Stamp(4, 0)), None, None, Some("COMPLETED"), None,
             Some("FastShip"), None, Some("Austin"), Some("TX")),
      Record(Some(Stamp(5, 0)), None, Some(Stamp(6, 0)), Some("CANCELLED"), None,
             None, Some("Address not found"), Some("Dallas"), Some("TX")) ]
  }

  lemma SampleStatusCounts()
    ensures |Where(SampleTable(), Status, Completed)| == 2
    ensures |Where(SampleTable(), Status, Cancelled)| == 1
  {
    var t := SampleTable();
    assert Where(t, Status, Completed) == t[..2];
    assert Where(t, Status, Cancelled) == t[2..];
  }

  lemma SampleReason()
    ensures ModeOfColumn(SampleTable(), Reason) == Some("Address not found")
  {
    assert Present(Column(SampleTable(), Reason)) == ["Address not found"];
  }

  lemma SampleCarrier()
    ensures BestCarrier(SampleTable()) == Some("FastShip")
  {
    var t := SampleTable();
    assert Where(t, Sla, OnTime) == t[..1];
    assert Present(Column(t[..1], Carrier)) == ["FastShip"];
  }

  /** All three orders fall in January 2024: one bar of height 3. */
  lemma SampleMonths()
    ensures OrdersPerMonth(SampleTable()) == [MonthCount(Month(2024, 1), 3)]
  {
    assert Present(MonthColumn(SampleTable())) == [Month(2024, 1), Month(2024, 1), Month(2024, 1)];
  }

  lemma SampleDeliveries()
    ensures DeliverySubset(SampleTable()) == [SampleTable()[0]]
  {
  }

  /** The three-order table: 3 orders, 2 completed, 1 cancelled. */
  lemma SampleCountAnswers(t: Table, total: string, completed: string, canceled: string)
    requires t == SampleTable()
    requires Classify(total) == TotalOrders
    requires Classify(completed) == CompletedOrders
    requires Classify(canceled) == CanceledOrders
    ensures QueryInsights(t, total) == Count(3)
    ensures QueryInsights(t, completed) == Count(2)
    ensures QueryInsights(t, canceled) == Count(1)
  {
    assert QueryInsights(t, total) == Count(|t|);
    assert QueryInsights(t, completed) == Count(|Where(t, Status, Completed)|);
    assert QueryInsights(t, canceled) == Count(|Where(t, Status, Cancelled)|);
    SampleStatusCounts();
  }

  /** The three-order table: the delivery time is taken over the one completed order that has a completion time. */
  lemma SampleDeliveryAnswer(t: Table, query: string)
    requires t == SampleTable()
    requires Classify(query) == AverageDeliveryTime
    ensures QueryInsights(t, query) == Deliveries([t[0]])
  {
    assert QueryInsights(t, query) == Deliveries(DeliverySubset(t));
    SampleDeliveries();
  }

  /** The three-order table: "Address not found" is the most common cancellation reason. */
  lemma SampleReasonAnswer(t: Table, query: string)
    requires t == SampleTable()
    requires Classify(query) == CommonCancellationReason
    ensures QueryInsights(t, query) == Name("Address not found")
  {
    ModeQuery(t, query, Reason);
    SampleReason();
  }
}
