/**
 * The single-expression aggregations of the query resolver: `value_counts().idxmax()`
 * (the most frequent value), the ON_TIME carrier ranking and the subset the delivery
 * time is averaged over.
 */
module Aggregates {
  import opened Wrappers
  import opened Dataset

  /**
   * The position in `cands[lo..]` of the candidate with the most occurrences in `xs`;
   * among equally frequent candidates, the earliest position.
   */
  function ArgMax<T(==)>(cands: seq<T>, xs: seq<T>, lo: nat): (k: nat)
    requires lo < |cands|
    ensures lo <= k < |cands|
    ensures forall j :: lo <= j < |cands| ==> Occurrences(xs, cands[j]) <= Occurrences(xs, cands[k])
    ensures forall j :: lo <= j < k ==> Occurrences(xs, cands[j]) < Occurrences(xs, cands[k])
    decreases |cands| - lo
  {
    if lo == |cands| - 1 then lo
    else
      var k := ArgMax(cands, xs, lo + 1);
      if Occurrences(xs, cands[lo]) >= Occurrences(xs, cands[k]) then lo else k
  }

  /**
   * `value_counts().idxmax()` over already present values: a value of maximal
   * frequency, `None` when there is no value at all (where pandas raises). Ties go to
   * the value that occurs first.
   */
  function Mode<T(==,!new)>(xs: seq<T>): (m: Option<T>)
    ensures m.None? <==> xs == []
    ensures m.Some? ==> m.value in xs
    ensures m.Some? ==> forall v :: Occurrences(xs, v) <= Occurrences(xs, m.value)
    ensures m.Some? ==> forall i :: 0 <= i < |xs| && Occurrences(xs, xs[i]) == Occurrences(xs, m.value) ==>
                          m.value in xs[..i + 1]
  {
    if xs == [] then None else Some(xs[ArgMax(xs, xs, 0)])
  }

  /** The most frequent present value of one column; missing cells are never counted. */
  function ModeOfColumn(t: Table, f: Field): Option<string> {
    Mode(Present(Column(t, f)))
  }

  /**
   * The most frequent present value of a column: it is the value of some record, no
   * value is held by more records, and there is none exactly when every cell is missing.
   */
  lemma ModeOfColumnIsMostFrequent(t: Table, f: Field)
    ensures ModeOfColumn(t, f).None? <==> forall i :: 0 <= i < |t| ==> Cell(t[i], f).None?
    ensures ModeOfColumn(t, f).Some? ==>
              exists i :: 0 <= i < |t| && Cell(t[i], f) == ModeOfColumn(t, f)
    ensures ModeOfColumn(t, f).Some? ==> forall w ::
              Occurrences(Column(t, f), Some(w)) <= Occurrences(Column(t, f), ModeOfColumn(t, f))
  {
    var col := Column(t, f);
    var m := ModeOfColumn(t, f);
    if m.Some? {
      forall w ensures Occurrences(col, Some(w)) <= Occurrences(col, m) {
        PresentKeepsCounts(col, w);
        PresentKeepsCounts(col, m.value);
      }
    }
  }

  /** A record whose cell is missing is never a candidate: appending it leaves the answer unchanged. */
  lemma ModeOfColumnIgnoresMissing(t: Table, f: Field, r: Record)
    requires Cell(r, f).None?
    ensures ModeOfColumn(t + [r], f) == ModeOfColumn(t, f)
  {
    assert Column(t + [r], f) == Column(t, f) + [None];
    PresentIgnoresMissing(Column(t, f));
  }

  const OnTime: string := "ON_TIME"

  /** The carrier named most often among the records whose SLA compliance is ON_TIME. */
  function BestCarrier(t: Table): Option<string> {
    ModeOfColumn(Where(t, Sla, OnTime), Carrier)
  }

  /** Number of ON_TIME records carried by `c`. */
  function OnTimeRecords(t: Table, c: string): (n: nat)
    ensures n <= |t|
  {
    if t == [] then 0
    else (if t[0].sla == Some(OnTime) && t[0].carrier == Some(c) then 1 else 0) + OnTimeRecords(t[1..], c)
  }

  lemma {:induction false} OnTimeRecordsCounted(t: Table, c: string)
    ensures OnTimeRecords(t, c) == Occurrences(Column(Where(t, Sla, OnTime), Carrier), Some(c))
  {
    if t != [] {
      OnTimeRecordsCounted(t[1..], c);
      if t[0].sla == Some(OnTime) {
        assert Where(t, Sla, OnTime) == [t[0]] + Where(t[1..], Sla, OnTime);
        assert Column(Where(t, Sla, OnTime), Carrier)
            == [t[0].carrier] + Column(Where(t[1..], Sla, OnTime), Carrier);
      }
    }
  }

  /**
   * The best carrier carries at least one ON_TIME record and no carrier carries more;
   * there is none exactly when no ON_TIME record names a carrier.
   */
  lemma BestCarrierIsMostOnTime(t: Table)
    ensures BestCarrier(t).None? <==>
              forall i :: 0 <= i < |t| && t[i].sla == Some(OnTime) ==> t[i].carrier.None?
    ensures BestCarrier(t).Some? ==>
              exists i :: 0 <= i < |t| && t[i].sla == Some(OnTime) && t[i].carrier == BestCarrier(t)
    ensures BestCarrier(t).Some? ==>
              forall c :: OnTimeRecords(t, c) <= OnTimeRecords(t, BestCarrier(t).value)
  {
    var w := Where(t, Sla, OnTime);
    WhereMembers(t, Sla, OnTime);
    ModeOfColumnIsMostFrequent(w, Carrier);
    var b := BestCarrier(t);
    if b.Some? {
      var j :| 0 <= j < |w| && w[j].carrier == b;
      assert w[j] in t;
      forall c ensures OnTimeRecords(t, c) <= OnTimeRecords(t, b.value) {
        OnTimeRecordsCounted(t, c);
        OnTimeRecordsCounted(t, b.value);
      }
    }
    if b.None? {
      forall i | 0 <= i < |t| && t[i].sla == Some(OnTime) ensures t[i].carrier.None? {
        assert t[i] in w;
      }
    }
  }

  /** Both timestamps the delivery time is computed from are present. */
  predicate Delivered(r: Record) {
    r.orderDate.Some? && r.completedAt.Some?
  }

  /** The records that have both an order date and a completion time, in order: the mean runs over these. */
  function DeliverySubset(t: Table): (d: Table)
    ensures |d| <= |t|
    ensures forall r :: r in d <==> r in t && Delivered(r)
  {
    if t == [] then []
    else if Delivered(t[0]) then [t[0]] + DeliverySubset(t[1..])
    else DeliverySubset(t[1..])
  }

  lemma {:induction false} DeliverySubsetAppend(a: Table, b: Table)
    ensures DeliverySubset(a + b) == DeliverySubset(a) + DeliverySubset(b)
  {
    if a == [] {
      assert a + b == b;
    } else {
      assert (a + b)[1..] == a[1..] + b;
      DeliverySubsetAppend(a[1..], b);
    }
  }

  /** A record missing either timestamp, inserted anywhere, does not change the subset. */
  lemma DeliverySubsetIgnoresIncomplete(a: Table, r: Record, b: Table)
    requires !Delivered(r)
    ensures DeliverySubset(a + [r] + b) == DeliverySubset(a + b)
  {
    DeliverySubsetAppend(a + [r], b);
    DeliverySubsetAppend(a, [r]);
    DeliverySubsetAppend(a, b);
  }
}
