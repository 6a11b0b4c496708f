/**
 * The time series a ticker's CSV file loads into: one quote per minute, indexed by a
 * pandas timestamp (nanoseconds since the epoch). The loaders move every timestamp one
 * hour back and sort the series by time; this module models those two steps.
 */
module Series {

  /** `pd.Timedelta(hours=1)`, in nanoseconds. */
  const HOUR: int := 3600 * 1000000000

  /** One row of the series: its index and the four price columns. */
  datatype Quote = Quote(time: int, open: real, high: real, low: real, close: real)

  type Frame = seq<Quote>

  /** The same quote, one hour earlier. */
  function Earlier(q: Quote): Quote
  {
    q.(time := q.time - HOUR)
  }

  /** `df.set_index(df.index.values - pd.Timedelta(hours=1))`: every row keeps its prices and its place. */
  function ShiftHour(f: Frame): (g: Frame)
    ensures |g| == |f|
  {
    if f == [] then [] else [Earlier(f[0])] + ShiftHour(f[1..])
  }

  /** The inverse shift, one hour forward. */
  function UnshiftHour(f: Frame): (g: Frame)
    ensures |g| == |f|
  {
    if f == [] then [] else [f[0].(time := f[0].time + HOUR)] + UnshiftHour(f[1..])
  }

  /** Row `i` of the shifted series is row `i` of the original, one hour earlier, with the same prices. */
  lemma {:induction false} ShiftHourAt(f: Frame, i: nat)
    requires i < |f|
    ensures ShiftHour(f)[i].time == f[i].time - HOUR
    ensures ShiftHour(f)[i].(time := f[i].time) == f[i]
  {
    if i > 0 {
      ShiftHourAt(f[1..], i - 1);
    }
  }

  /** The shift loses nothing: moving every timestamp forward again gives back the series. */
  lemma {:induction false} ShiftRoundTrip(f: Frame)
    ensures UnshiftHour(ShiftHour(f)) == f
  {
    if f != [] {
      ShiftRoundTrip(f[1..]);
      assert ShiftHour(f)[1..] == ShiftHour(f[1..]);
    }
  }

  /** Non-decreasing timestamps, which is what `sort_index` leaves. */
  predicate SortedByTime(f: Frame)
  {
    forall i, j :: 0 <= i < j < |f| ==> f[i].time <= f[j].time
  }

  /** Shifting every row by the same hour keeps the order of the rows' timestamps. */
  lemma ShiftKeepsOrder(f: Frame)
    ensures SortedByTime(ShiftHour(f)) <==> SortedByTime(f)
  {
    forall i | 0 <= i < |f| ensures ShiftHour(f)[i].time == f[i].time - HOUR {
      ShiftHourAt(f, i);
    }
  }

  /** Puts `q` before the first row that is not earlier than it. */
  function InsertByTime(q: Quote, f: Frame): Frame
  {
    if f == [] || q.time <= f[0].time then [q] + f
    else [f[0]] + InsertByTime(q, f[1..])
  }

  /**
   * `df.sort_index(inplace=True)`, as an insertion sort: the series in time order, with
   * exactly the original rows. A row goes before every later row with the same timestamp,
   * so rows with equal timestamps keep their file order.
   */
  function SortByTime(f: Frame): (g: Frame)
    ensures SortedByTime(g)
    ensures multiset(g) == multiset(f) && |g| == |f|
  {
    if f == [] then []
    else
      var rest := SortByTime(f[1..]);
      InsertKeepsSorted(f[0], rest);
      InsertKeepsRows(f[0], rest);
      assert f == [f[0]] + f[1..];
      InsertByTime(f[0], rest)
  }

  lemma {:induction false} InsertKeepsRows(q: Quote, f: Frame)
    ensures multiset(InsertByTime(q, f)) == multiset(f) + multiset{q}
    ensures |InsertByTime(q, f)| == |f| + 1
  {
    if f != [] && q.time > f[0].time {
      InsertKeepsRows(q, f[1..]);
      assert f == [f[0]] + f[1..];
    }
  }

  lemma {:induction false} InsertKeepsSorted(q: Quote, f: Frame)
    requires SortedByTime(f)
    ensures SortedByTime(InsertByTime(q, f))
    ensures InsertByTime(q, f)[0] == q || InsertByTime(q, f)[0] == f[0]
  {
    if f != [] && q.time > f[0].time {
      InsertKeepsSorted(q, f[1..]);
      var rest := InsertByTime(q, f[1..]);
      assert f[0].time <= rest[0].time;
      assert forall k :: 0 <= k < |rest| ==> rest[0].time <= rest[k].time;
      assert InsertByTime(q, f) == [f[0]] + rest;
    }
  }

  /** A series already in order is left as it is, so sorting twice is sorting once. */
  lemma {:induction false} SortIdempotent(f: Frame)
    requires SortedByTime(f)
    ensures SortByTime(f) == f
  {
    if f != [] {
      SortIdempotent(f[1..]);
      assert SortByTime(f[1..]) == f[1..];
      if |f| > 1 {
        assert f[0].time <= f[1].time;
      }
      assert [f[0]] + f[1..] == f;
    }
  }

  lemma {:induction false} ShiftInsert(q: Quote, f: Frame)
    ensures ShiftHour(InsertByTime(q, f)) == InsertByTime(Earlier(q), ShiftHour(f))
  {
    if f != [] && q.time > f[0].time {
      ShiftInsert(q, f[1..]);
      assert ShiftHour(f)[1..] == ShiftHour(f[1..]);
    } else if f != [] {
      assert ShiftHour([q] + f)[1..] == ShiftHour(f);
    }
  }

  /** Shifting then sorting, as the loaders do, gives the same series as sorting then shifting. */
  lemma {:induction false} ShiftSortCommute(f: Frame)
    ensures SortByTime(ShiftHour(f)) == ShiftHour(SortByTime(f))
  {
    if f != [] {
      ShiftSortCommute(f[1..]);
      assert ShiftHour(f)[1..] == ShiftHour(f[1..]);
      ShiftInsert(f[0], SortByTime(f[1..]));
    }
  }
}
