/** `DataProcessor.get_statistics`: record count, latest timestamp and the
    mean of every measurement, each mean rounded to 2 decimals. */
module Statistics {
  import opened Options
  import opened Timestamps
  import opened Readings
  import opened Rounding

  datatype Stats = Stats(
    records: nat,
    latestReading: Option<Timestamp>,
    avgPh: real,
    avgTds: real,
    avgFlow: real,
    avgDepth: real)

  /** The record reported for an empty dataset. */
  const EmptyStats: Stats := Stats(0, None, 0.0, 0.0, 0.0, 0.0)

  function SumOf(ds: seq<Reading>, m: Measure): real {
    if ds == [] then 0.0 else SumOf(ds[..|ds| - 1], m) + Get(ds[|ds| - 1], m)
  }

  function MeanOf(ds: seq<Reading>, m: Measure): (r: real)
    requires ds != []
    ensures r * |ds| as real == SumOf(ds, m)
  {
    SumOf(ds, m) / |ds| as real
  }

  /** The largest timestamp of a non-empty dataset. */
  function Latest(ds: seq<Reading>): (t: Timestamp)
    requires ds != []
    ensures exists i :: 0 <= i < |ds| && ds[i].timestamp == t
    ensures forall i :: 0 <= i < |ds| ==> ds[i].timestamp <= t
  {
    if |ds| == 1 then ds[0].timestamp
    else
      var rest := Latest(ds[1..]);
      assert forall i :: 1 <= i < |ds| ==> ds[i] == ds[1..][i - 1];
      if ds[0].timestamp > rest then ds[0].timestamp else rest
  }

  /** `get_statistics`. */
  function GetStatistics(ds: seq<Reading>): (st: Stats)
    ensures ds == [] ==> st == EmptyStats
    ensures ds != [] ==> st.records == |ds| && st.latestReading.Some?
    ensures ds != [] ==> (exists i :: 0 <= i < |ds| && ds[i].timestamp == st.latestReading.value) &&
                         forall i :: 0 <= i < |ds| ==> ds[i].timestamp <= st.latestReading.value
  {
    if ds == [] then EmptyStats
    else
      Stats(
        |ds|,
        Some(Latest(ds)),
        RoundTo(MeanOf(ds, Ph), 2),
        RoundTo(MeanOf(ds, Tds), 2),
        RoundTo(MeanOf(ds, Flow), 2),
        RoundTo(MeanOf(ds, Depth), 2))
  }

  /** The reported average of measure `m`. */
  function Average(st: Stats, m: Measure): real {
    match m
    case Ph => st.avgPh
    case Tds => st.avgTds
    case Flow => st.avgFlow
    case Depth => st.avgDepth
  }

  // ---- sums ----

  lemma {:induction false} SumOfConcat(u: seq<Reading>, v: seq<Reading>, m: Measure)
    ensures SumOf(u + v, m) == SumOf(u, m) + SumOf(v, m)
    decreases |v|
  {
    if v != [] {
      assert (u + v)[..|u + v| - 1] == u + v[..|v| - 1];
      SumOfConcat(u, v[..|v| - 1], m);
    } else {
      assert u + v == u;
    }
  }

  lemma SumOfRemove(b: seq<Reading>, j: int, m: Measure)
    requires 0 <= j < |b|
    ensures SumOf(b, m) == SumOf(b[..j] + b[j + 1..], m) + Get(b[j], m)
  {
    assert b == (b[..j] + [b[j]]) + b[j + 1..];
    SumOfConcat(b[..j] + [b[j]], b[j + 1..], m);
    SumOfConcat(b[..j], [b[j]], m);
    SumOfConcat(b[..j], b[j + 1..], m);
    assert SumOf([b[j]], m) == Get(b[j], m) by {
      assert [b[j]][..0] == [];
    }
  }

  /** A sum does not depend on the order of the rows. */
  lemma {:induction false} SumOfPermutation(a: seq<Reading>, b: seq<Reading>, m: Measure)
    requires multiset(a) == multiset(b)
    ensures SumOf(a, m) == SumOf(b, m)
    decreases |a|
  {
    if a == [] {
      assert |b| == |multiset(b)| == 0;
    } else {
      var n := |a| - 1;
      var x := a[n];
      assert a == a[..n] + [x];
      assert x in multiset(b);
      var j :| 0 <= j < |b| && b[j] == x;
      var rest := b[..j] + b[j + 1..];
      MultisetRemove(b, j);
      assert multiset(a[..n]) == multiset(a) - multiset{x};
      SumOfPermutation(a[..n], rest, m);
      SumOfRemove(b, j, m);
    }
  }

  /** The sum of in-range values is in range for their count. */
  lemma {:induction false} SumOfInRange(ds: seq<Reading>, m: Measure)
    requires forall i :: 0 <= i < |ds| ==> InRange(m, Get(ds[i], m))
    ensures 0.0 <= SumOf(ds, m)
    ensures m == Ph ==> SumOf(ds, m) <= 14.0 * |ds| as real
  {
    if ds != [] {
      var n := |ds| - 1;
      assert forall i :: 0 <= i < n ==> ds[..n][i] == ds[i];
      SumOfInRange(ds[..n], m);
    }
  }

  lemma DivideBounds(sum: real, n: real, hi: real)
    requires n > 0.0 && 0.0 <= sum <= hi * n
    ensures 0.0 <= sum / n <= hi
  {
  }

  /** The mean of in-range values is in range. */
  lemma MeanOfInRange(ds: seq<Reading>, m: Measure)
    requires ds != []
    requires forall i :: 0 <= i < |ds| ==> InRange(m, Get(ds[i], m))
    ensures InRange(m, MeanOf(ds, m))
  {
    SumOfInRange(ds, m);
    if m == Ph {
      DivideBounds(SumOf(ds, m), |ds| as real, 14.0);
    } else {
      assert 0.0 <= SumOf(ds, m) / |ds| as real;
    }
  }

  // ---- properties of the statistics ----

  /** Every average is the field's mean rounded to 2 decimals, and lies on
      the 2-decimal grid. */
  lemma AveragesAreRoundedMeans(ds: seq<Reading>, m: Measure)
    requires ds != []
    ensures Average(GetStatistics(ds), m) == RoundTo(MeanOf(ds, m), 2)
    ensures OnGrid(Average(GetStatistics(ds), m), 2)
  {
    RoundToOnGrid(MeanOf(ds, m), 2);
  }

  /** On a dataset whose values are in range, the averages are in range. */
  lemma AveragesInRange(ds: seq<Reading>)
    requires forall i, m :: 0 <= i < |ds| ==> InRange(m, Get(ds[i], m))
    ensures forall m :: InRange(m, Average(GetStatistics(ds), m))
  {
    if ds != [] {
      forall m
        ensures InRange(m, Average(GetStatistics(ds), m))
      {
        MeanOfInRange(ds, m);
        if m == Ph {
          RoundToKeepsBounds(MeanOf(ds, m), 0, 14, 2);
        } else {
          RoundToKeepsNonNegative(MeanOf(ds, m), 2);
        }
      }
    }
  }

  /** The statistics depend only on which rows there are, not on their
      order: those of the sorted dataset equal those of the unsorted one. */
  lemma StatisticsIgnoreOrder(a: seq<Reading>, b: seq<Reading>)
    requires multiset(a) == multiset(b)
    ensures GetStatistics(a) == GetStatistics(b)
  {
    assert |a| == |multiset(a)| == |multiset(b)| == |b|;
    if a != [] {
      SumOfPermutation(a, b, Ph);
      SumOfPermutation(a, b, Tds);
      SumOfPermutation(a, b, Flow);
      SumOfPermutation(a, b, Depth);
      var i :| 0 <= i < |a| && a[i].timestamp == Latest(a);
      var j :| 0 <= j < |b| && b[j].timestamp == Latest(b);
      assert a[i] in multiset(b) && b[j] in multiset(a);
    }
  }

  /** Three readings with pH 6, 7 and 8 average to pH 7. */
  lemma AveragePhExample(t: Timestamp)
    ensures GetStatistics([Reading(t, 0.0, 0.0, 6.0, 0.0),
                           Reading(t + 1, 0.0, 0.0, 7.0, 0.0),
                           Reading(t + 2, 0.0, 0.0, 8.0, 0.0)]).avgPh == 7.0
  {
    var r0, r1, r2 := Reading(t, 0.0, 0.0, 6.0, 0.0), Reading(t + 1, 0.0, 0.0, 7.0, 0.0), Reading(t + 2, 0.0, 0.0, 8.0, 0.0);
    var ds := [r0, r1, r2];
    assert [r0][..0] == [];
    assert SumOf([r0], Ph) == 6.0;
    assert [r0, r1][..1] == [r0];
    assert SumOf([r0, r1], Ph) == 13.0;
    assert ds[..2] == [r0, r1];
    assert SumOf(ds, Ph) == 21.0;
    IntegerOnGrid(7, 2);
    RoundToFixesGrid(7.0, 2);
  }
}
