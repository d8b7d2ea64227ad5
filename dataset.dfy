/**
 * The in-memory order table. One `Record` is one row of the CSV file; a cell that is
 * empty in the file, or a date that could not be parsed (the loader coerces
 * such dates to NaT), is `None`.
 */
module Dataset {
  import opened Wrappers

  /** A parsed point in time; only its calendar month is used by the aggregations. */
  datatype Timestamp = Timestamp(year: int, month: int, day: int, secondOfDay: nat)

  datatype Record = Record(
    orderDate: Option<Timestamp>,      // "Order Date"
    completedAt: Option<Timestamp>,    // "COMPLETED AT"
    cancelledAt: Option<Timestamp>,    // "CANCELLED AT"
    status: Option<string>,            // "Terminal STATUS"
    sla: Option<string>,               // "SLA Compliance"
    carrier: Option<string>,           // "CARRIER NAME"
    reason: Option<string>,            // "Cancellation REASON DESCRIPTION"
    city: Option<string>,              // "CITY"
    state: Option<string>)             // "STATE"

  type Table = seq<Record>

  /** The text columns the aggregations read. */
  datatype Field = Status | Sla | Carrier | Reason | City | State

  function Cell(r: Record, f: Field): Option<string> {
    match f
    case Status => r.status
    case Sla => r.sla
    case Carrier => r.carrier
    case Reason => r.reason
    case City => r.city
    case State => r.state
  }

  /** The cells of one column, in record order. */
  function Column(t: Table, f: Field): (col: seq<Option<string>>)
    ensures |col| == |t|
    ensures forall i :: 0 <= i < |t| ==> col[i] == Cell(t[i], f)
  {
    if t == [] then [] else [Cell(t[0], f)] + Column(t[1..], f)
  }

  /** Number of times `v` occurs in `xs`. */
  function Occurrences<T(==)>(xs: seq<T>, v: T): (n: nat)
    ensures n <= |xs|
    ensures n > 0 <==> v in xs
  {
    if xs == [] then 0
    else (if xs[0] == v then 1 else 0) + Occurrences(xs[1..], v)
  }

  /** `Occurrences` agrees with the multiplicity of the multiset of `xs`. */
  lemma {:induction false} OccurrencesIsMultiplicity<T>(xs: seq<T>, v: T)
    ensures Occurrences(xs, v) == multiset(xs)[v]
  {
    if xs != [] {
      OccurrencesIsMultiplicity(xs[1..], v);
      assert xs == [xs[0]] + xs[1..];
    }
  }

  lemma {:induction false} OccurrencesAppend<T>(xs: seq<T>, ys: seq<T>, v: T)
    ensures Occurrences(xs + ys, v) == Occurrences(xs, v) + Occurrences(ys, v)
  {
    if xs != [] {
      OccurrencesAppend(xs[1..], ys, v);
      assert (xs + ys)[1..] == xs[1..] + ys;
    } else {
      assert xs + ys == ys;
    }
  }

  /** The present values of a column, in order, with missing cells dropped. */
  function Present<T(!new)>(xs: seq<Option<T>>): (vs: seq<T>)
    ensures |vs| <= |xs|
    ensures forall v :: v in vs <==> Some(v) in xs
  {
    if xs == [] then []
    else match xs[0]
      case Some(v) => [v] + Present(xs[1..])
      case None => Present(xs[1..])
  }

  /** Dropping missing cells keeps every present value's count. */
  lemma {:induction false} PresentKeepsCounts<T(!new)>(xs: seq<Option<T>>, v: T)
    ensures Occurrences(Present(xs), v) == Occurrences(xs, Some(v))
  {
    if xs != [] {
      PresentKeepsCounts(xs[1..], v);
      match xs[0]
      case Some(w) =>
        assert Present(xs) == [w] + Present(xs[1..]);
        assert ([w] + Present(xs[1..]))[1..] == Present(xs[1..]);
      case None =>
    }
  }

  /** The number of present values is the number of cells that are not missing. */
  lemma {:induction false} PresentLength<T(!new)>(xs: seq<Option<T>>)
    ensures |Present(xs)| == |xs| - Occurrences(xs, None)
  {
    if xs != [] {
      PresentLength(xs[1..]);
    }
  }

  /** A missing cell appended to a column changes nothing once missing values are dropped. */
  lemma {:induction false} PresentIgnoresMissing<T(!new)>(xs: seq<Option<T>>)
    ensures Present(xs + [None]) == Present(xs)
  {
    if xs != [] {
      assert (xs + [None])[1..] == xs[1..] + [None];
      PresentIgnoresMissing(xs[1..]);
    }
  }

  /** Row selection by equality: the records whose cell in column `f` is exactly `v`, in order. */
  function Where(t: Table, f: Field, v: string): (w: Table)
    ensures |w| <= |t|
  {
    if t == [] then []
    else if Cell(t[0], f) == Some(v) then [t[0]] + Where(t[1..], f, v)
    else Where(t[1..], f, v)
  }

  /** The number of selected records is the number of cells of the column equal to `v`. */
  lemma {:induction false} WhereCount(t: Table, f: Field, v: string)
    ensures |Where(t, f, v)| == Occurrences(Column(t, f), Some(v))
  {
    if t != [] {
      WhereCount(t[1..], f, v);
      assert Column(t, f) == [Cell(t[0], f)] + Column(t[1..], f);
    }
  }

  /** Selection keeps exactly the records whose cell is `v`. */
  lemma {:induction false} WhereMembers(t: Table, f: Field, v: string)
    ensures forall r :: r in Where(t, f, v) <==> r in t && Cell(r, f) == Some(v)
  {
    if t != [] {
      WhereMembers(t[1..], f, v);
      assert t == [t[0]] + t[1..];
    }
  }

  /** Records selected by two different values of one column are disjoint, so together
      they are at most the whole table. */
  lemma {:induction false} WhereDisjoint(t: Table, f: Field, v: string, w: string)
    requires v != w
    ensures |Where(t, f, v)| + |Where(t, f, w)| <= |t|
  {
    if t != [] {
      WhereDisjoint(t[1..], f, v, w);
    }
  }
}
