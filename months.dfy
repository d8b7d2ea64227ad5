/**
 * "orders per month": the order dates are reduced to year-month labels, counted per
 * label, and the counts sorted by label.
 * A key is a (year, month) pair; with four-digit years the '%Y-%m' strings sort in the
 * same order as the pairs compared year first.
 */
module Months {
  import opened Wrappers
  import opened Dataset

  datatype Month = Month(year: int, month: int)

  /** One bar of the chart: a month and the number of orders placed in it. */
  datatype MonthCount = MonthCount(key: Month, orders: nat)

  /** Chronological order on months. */
  predicate Before(a: Month, b: Month) {
    a.year < b.year || (a.year == b.year && a.month < b.month)
  }

  /** The month of a record's order date; missing when the date is. */
  function MonthOf(r: Record): Option<Month> {
    match r.orderDate
    case Some(d) => Some(Month(d.year, d.month))
    case None => None
  }

  function MonthColumn(t: Table): (col: seq<Option<Month>>)
    ensures |col| == |t|
    ensures forall i :: 0 <= i < |t| ==> col[i] == MonthOf(t[i])
  {
    if t == [] then [] else [MonthOf(t[0])] + MonthColumn(t[1..])
  }

  /** Number of records whose order date lies in month `m`. */
  function OrdersIn(t: Table, m: Month): nat {
    Occurrences(MonthColumn(t), Some(m))
  }

  /** Number of records that have an order date. */
  function Dated(t: Table): (n: nat)
    ensures n <= |t|
  {
    if t == [] then 0 else (if t[0].orderDate.Some? then 1 else 0) + Dated(t[1..])
  }

  predicate Ascending(table: seq<MonthCount>) {
    forall i, j :: 0 <= i < j < |table| ==> Before(table[i].key, table[j].key)
  }

  /** `x` comes before every month of the table. */
  predicate Precedes(x: Month, table: seq<MonthCount>) {
    forall i :: 0 <= i < |table| ==> Before(x, table[i].key)
  }

  /** The count recorded for `m`, 0 when `m` has no entry. */
  function Lookup(table: seq<MonthCount>, m: Month): nat {
    if table == [] then 0
    else if table[0].key == m then table[0].orders
    else Lookup(table[1..], m)
  }

  function Total(table: seq<MonthCount>): nat {
    if table == [] then 0 else table[0].orders + Total(table[1..])
  }

  /** Counts one more order in month `k`, keeping the table in chronological order. */
  function Bump(table: seq<MonthCount>, k: Month): (r: seq<MonthCount>)
    requires Ascending(table)
    ensures Ascending(r)
    ensures forall x :: Precedes(x, table) && Before(x, k) ==> Precedes(x, r)
  {
    if table == [] then [MonthCount(k, 1)]
    else if table[0].key == k then [MonthCount(k, table[0].orders + 1)] + table[1..]
    else if Before(k, table[0].key) then [MonthCount(k, 1)] + table
    else
      var rest := Bump(table[1..], k);
      assert Precedes(table[0].key, table[1..]);
      [table[0]] + rest
  }

  /** `Bump` adds one to the count of `k` and to the total, and leaves every other count as it was. */
  lemma {:induction false} BumpCounts(table: seq<MonthCount>, k: Month)
    requires Ascending(table)
    ensures forall m :: Lookup(Bump(table, k), m) == Lookup(table, m) + (if m == k then 1 else 0)
    ensures Total(Bump(table, k)) == Total(table) + 1
    ensures (forall i :: 0 <= i < |table| ==> table[i].orders > 0) ==>
              forall i :: 0 <= i < |Bump(table, k)| ==> Bump(table, k)[i].orders > 0
  {
    if table != [] && table[0].key != k {
      if Before(k, table[0].key) {
        AbsentBeforeFirst(table, k);
      } else {
        BumpCounts(table[1..], k);
        assert Bump(table, k)[1..] == Bump(table[1..], k);
      }
    }
  }

  /** A month earlier than the first key has no entry in an ascending table. */
  lemma {:induction false} AbsentBeforeFirst(table: seq<MonthCount>, k: Month)
    requires Ascending(table)
    requires table != [] && Before(k, table[0].key)
    ensures Lookup(table, k) == 0
  {
    if |table| > 1 {
      assert Before(table[0].key, table[1].key);
      AbsentBeforeFirst(table[1..], k);
    }
  }

  /** Counts every month of `keys` into a chronologically ordered table. */
  function Tally(keys: seq<Month>): (r: seq<MonthCount>)
    ensures Ascending(r)
    ensures forall m :: Lookup(r, m) == Occurrences(keys, m)
    ensures Total(r) == |keys|
    ensures forall i :: 0 <= i < |r| ==> r[i].orders > 0
  {
    if keys == [] then []
    else
      BumpCounts(Tally(keys[1..]), keys[0]);
      Bump(Tally(keys[1..]), keys[0])
  }

  /** The month counts that feed the "Orders Per Month" chart. */
  function OrdersPerMonth(t: Table): seq<MonthCount> {
    Tally(Present(MonthColumn(t)))
  }

  /** In an ascending table, an entry's count is what `Lookup` finds for its key. */
  lemma {:induction false} LookupFindsEntry(table: seq<MonthCount>, i: nat)
    requires Ascending(table)
    requires i < |table|
    ensures Lookup(table, table[i].key) == table[i].orders
  {
    if i > 0 {
      assert Before(table[0].key, table[i].key);
      LookupFindsEntry(table[1..], i - 1);
    }
  }

  /** A month `Lookup` finds a positive count for has an entry. */
  lemma {:induction false} LookupHasEntry(table: seq<MonthCount>, m: Month)
    requires Lookup(table, m) > 0
    ensures exists i :: 0 <= i < |table| && table[i].key == m
  {
    if table[0].key != m {
      LookupHasEntry(table[1..], m);
      var i :| 0 <= i < |table[1..]| && table[1..][i].key == m;
      assert table[i + 1].key == m;
    }
  }

  lemma {:induction false} DatedIsPresent(t: Table)
    ensures |Present(MonthColumn(t))| == Dated(t)
  {
    if t != [] {
      DatedIsPresent(t[1..]);
      assert MonthColumn(t) == [MonthOf(t[0])] + MonthColumn(t[1..]);
    }
  }

  /**
   * The month table: keys in strictly ascending chronological order, one per month that
   * has an order, each with the number of records ordered in it, and the counts adding
   * up to the number of records with an order date.
   */
  lemma OrdersPerMonthCorrect(t: Table)
    ensures Ascending(OrdersPerMonth(t))
    ensures forall i :: 0 <= i < |OrdersPerMonth(t)| ==>
              OrdersPerMonth(t)[i].orders == OrdersIn(t, OrdersPerMonth(t)[i].key) > 0
    ensures forall m :: OrdersIn(t, m) > 0 <==>
              exists i :: 0 <= i < |OrdersPerMonth(t)| && OrdersPerMonth(t)[i].key == m
    ensures Total(OrdersPerMonth(t)) == Dated(t)
  {
    var col := MonthColumn(t);
    var table := OrdersPerMonth(t);
    forall m ensures Lookup(table, m) == OrdersIn(t, m) {
      PresentKeepsCounts(col, m);
    }
    forall i | 0 <= i < |table| ensures table[i].orders == OrdersIn(t, table[i].key) > 0 {
      LookupFindsEntry(table, i);
    }
    forall m | OrdersIn(t, m) > 0 ensures exists i :: 0 <= i < |table| && table[i].key == m {
      LookupHasEntry(table, m);
    }
    DatedIsPresent(t);
  }
}
