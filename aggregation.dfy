/** `DataProcessor.aggregate_data`: resample a cleaned dataset into fixed
    time buckets of `period` seconds (the default frequency is hourly) and
    report the rounded mean of every measurement per bucket, in ascending
    bucket order, each row labelled with the start of its bucket.

    The grouping is first stated and proved for any monotone labelling of
    timestamps (`GroupRuns`, `InBucket`), and then instantiated with the
    start of the fixed-width bucket (`BucketStart`). */
module Aggregation {
  import opened Options
  import opened Timestamps
  import opened Readings
  import opened Rounding
  import opened Preprocess
  import opened Statistics

  /** The default resampling frequency, one hour, in seconds. */
  const Hourly: int := 3600

  // ---- fixed-width buckets ----

  lemma MulCancelLess(p: int, x: int, y: int)
    requires p > 0 && p * x < p * y
    ensures x < y
  {
  }

  lemma MulMonotone(p: int, x: int, y: int)
    requires p > 0 && x <= y
    ensures p * x <= p * y
  {
    assert p * y - p * x == p * (y - x);
  }

  /** The start of the bucket holding `t`: the largest multiple of
      `period` not after `t`. */
  function BucketStart(t: Timestamp, period: int): (r: Timestamp)
    requires period > 0
    ensures r <= t < r + period
    ensures r % period == 0
  {
    assert period * (t / period) + t % period == t;
    MulMod(period, t / period);
    period * (t / period)
  }

  lemma MulMod(p: int, q: int)
    requires p > 0
    ensures (p * q) % p == 0
  {
    var r := (p * q) % p;
    assert p * ((p * q) / p) + r == p * q;
    assert p * (q - (p * q) / p) == r;
    if q - (p * q) / p > 0 {
      MulMonotone(p, 1, q - (p * q) / p);
    } else if q - (p * q) / p < 0 {
      MulMonotone(p, q - (p * q) / p, -1);
    }
  }

  /** Later timestamps never start earlier buckets. */
  lemma BucketStartMonotone(a: Timestamp, b: Timestamp, period: int)
    requires period > 0 && a <= b
    ensures BucketStart(a, period) <= BucketStart(b, period)
  {
    var q1, q2 := a / period, b / period;
    assert period * q1 + a % period == a;
    assert period * q2 + b % period == b;
    assert period * q1 < period * (q2 + 1);
    MulCancelLess(period, q1, q2 + 1);
    MulMonotone(period, q1, q2);
  }

  /** A labelling of timestamps that never decreases with time. */
  ghost predicate Monotone(key: Timestamp -> int) {
    forall a, b :: a <= b ==> key(a) <= key(b)
  }

  function BucketKey(period: int): Timestamp -> int
    requires period > 0
  {
    t => BucketStart(t, period)
  }

  lemma BucketKeyMonotone(period: int)
    requires period > 0
    ensures Monotone(BucketKey(period))
  {
    forall a: Timestamp, b: Timestamp | a <= b
      ensures BucketKey(period)(a) <= BucketKey(period)(b)
    {
      BucketStartMonotone(a, b, period);
    }
  }

  // ---- grouping by a label ----

  /** Rows whose labels never decrease. */
  ghost predicate KeySorted(s: seq<Reading>, key: Timestamp -> int) {
    forall i, j :: 0 <= i < j < |s| ==> key(s[i].timestamp) <= key(s[j].timestamp)
  }

  /** A monotone labelling of rows sorted by time. */
  lemma SortedKeySorted(s: seq<Reading>, key: Timestamp -> int)
    requires Monotone(key) && SortedByTime(s)
    ensures KeySorted(s, key)
  {
    forall i, j | 0 <= i < j < |s|
      ensures key(s[i].timestamp) <= key(s[j].timestamp)
    {
      assert s[i].timestamp <= s[j].timestamp;
    }
  }

  /** The rows of `s` labelled `v`, in order. */
  function InBucket(s: seq<Reading>, key: Timestamp -> int, v: int): (r: seq<Reading>)
    ensures |r| <= |s|
  {
    if s == [] then []
    else (if key(s[0].timestamp) == v then [s[0]] else []) + InBucket(s[1..], key, v)
  }

  /** The label and the rounded means of one non-empty bucket. */
  function MeanRow(start: Timestamp, rows: seq<Reading>): (r: Reading)
    requires rows != []
    ensures r.timestamp == start
    ensures forall m :: OnGrid(Get(r, m), 2)
  {
    Reading(start,
            RoundTo(MeanOf(rows, Flow), 2),
            RoundTo(MeanOf(rows, Tds), 2),
            RoundTo(MeanOf(rows, Ph), 2),
            RoundTo(MeanOf(rows, Depth), 2))
  }

  /** The length of the leading run of `s` labelled `v`. */
  function RunLength(s: seq<Reading>, key: Timestamp -> int, v: int): (n: nat)
    ensures n <= |s|
  {
    if s == [] || key(s[0].timestamp) != v then 0
    else 1 + RunLength(s[1..], key, v)
  }

  /** The leading run is labelled `v`, and the row after it is not. */
  lemma {:induction false} RunLengthSpec(s: seq<Reading>, key: Timestamp -> int, v: int)
    ensures var n := RunLength(s, key, v);
            (forall i :: 0 <= i < n ==> key(s[i].timestamp) == v) &&
            (n < |s| ==> key(s[n].timestamp) != v)
  {
    if s != [] && key(s[0].timestamp) == v {
      RunLengthSpec(s[1..], key, v);
      var n := RunLength(s, key, v);
      assert forall i :: 1 <= i < n ==> s[i] == s[1..][i - 1];
    }
  }

  /** One bucket of the resampling: its label and its rows. */
  datatype Group = Group(start: Timestamp, rows: seq<Reading>)

  /** One group per run of rows sharing a label. */
  function GroupRuns(s: seq<Reading>, key: Timestamp -> int): (gs: seq<Group>)
    ensures forall k :: 0 <= k < |gs| ==> gs[k].rows != []
    decreases |s|
  {
    if s == [] then []
    else
      var v := key(s[0].timestamp);
      var n := RunLength(s, key, v);
      [Group(v, s[..n])] + GroupRuns(s[n..], key)
  }

  /** The mean row of every group. */
  function MeanRows(gs: seq<Group>): (out: seq<Reading>)
    requires forall k :: 0 <= k < |gs| ==> gs[k].rows != []
    ensures |out| == |gs|
    ensures forall k :: 0 <= k < |gs| ==> out[k] == MeanRow(gs[k].start, gs[k].rows)
  {
    if gs == [] then [] else [MeanRow(gs[0].start, gs[0].rows)] + MeanRows(gs[1..])
  }

  /** `aggregate_data`: `None` for a missing or empty dataset, else one row
      per occupied bucket in ascending order. */
  function Aggregate(df: Option<seq<Reading>>, period: int): (r: Option<seq<Reading>>)
    requires period > 0
    ensures r.None? <==> df.None? || df.value == []
  {
    match df
    case None => None
    case Some(ds) =>
      if ds == [] then None else Some(MeanRows(GroupRuns(SortByTime(ds), BucketKey(period))))
  }

  // ---- the rows of one label ----

  lemma {:induction false} InBucketConcat(u: seq<Reading>, w: seq<Reading>, key: Timestamp -> int, v: int)
    ensures InBucket(u + w, key, v) == InBucket(u, key, v) + InBucket(w, key, v)
  {
    if u != [] {
      assert (u + w)[1..] == u[1..] + w;
      InBucketConcat(u[1..], w, key, v);
    } else {
      assert u + w == w;
    }
  }

  lemma {:induction false} InBucketAll(s: seq<Reading>, key: Timestamp -> int, v: int)
    requires forall i :: 0 <= i < |s| ==> key(s[i].timestamp) == v
    ensures InBucket(s, key, v) == s
  {
    if s != [] {
      InBucketAll(s[1..], key, v);
    }
  }

  lemma {:induction false} InBucketNone(s: seq<Reading>, key: Timestamp -> int, v: int)
    requires forall i :: 0 <= i < |s| ==> key(s[i].timestamp) != v
    ensures InBucket(s, key, v) == []
  {
    if s != [] {
      InBucketNone(s[1..], key, v);
    }
  }

  /** A dataset whose first `n` rows, and only those, carry label `v`. */
  lemma SplitBucket(s: seq<Reading>, n: nat, key: Timestamp -> int, v: int)
    requires n <= |s|
    requires forall i :: 0 <= i < n ==> key(s[i].timestamp) == v
    requires forall i :: n <= i < |s| ==> key(s[i].timestamp) != v
    ensures InBucket(s, key, v) == s[..n]
  {
    assert s == s[..n] + s[n..];
    InBucketConcat(s[..n], s[n..], key, v);
    InBucketAll(s[..n], key, v);
    InBucketNone(s[n..], key, v);
  }

  /** In a sorted dataset the leading run is the whole of its bucket. */
  lemma LeadingRun(s: seq<Reading>, key: Timestamp -> int)
    requires s != [] && KeySorted(s, key)
    ensures var v := key(s[0].timestamp);
            InBucket(s, key, v) == s[..RunLength(s, key, v)]
  {
    var v := key(s[0].timestamp);
    var n := RunLength(s, key, v);
    RunLengthSpec(s, key, v);
    forall i | n <= i < |s|
      ensures v < key(s[i].timestamp)
    {
      assert key(s[n].timestamp) <= key(s[i].timestamp);
    }
    SplitBucket(s, n, key, v);
  }

  /** The rows after the leading run of a sorted dataset hold the whole of
      each of their buckets. */
  lemma AfterLeadingRun(s: seq<Reading>, key: Timestamp -> int, i: nat)
    requires s != [] && KeySorted(s, key)
    requires RunLength(s, key, key(s[0].timestamp)) <= i < |s|
    ensures var n := RunLength(s, key, key(s[0].timestamp));
            InBucket(s, key, key(s[i].timestamp)) == InBucket(s[n..], key, key(s[i].timestamp))
  {
    var n := RunLength(s, key, key(s[0].timestamp));
    RunEndsLater(s, key);
    RunLengthSpec(s, key, key(s[0].timestamp));
    assert key(s[n].timestamp) <= key(s[i].timestamp);
    DropOtherLabels(s, n, key, key(s[i].timestamp));
  }

  /** Leading rows with other labels do not contribute to label `w`. */
  lemma DropOtherLabels(s: seq<Reading>, n: nat, key: Timestamp -> int, w: int)
    requires n <= |s|
    requires forall j :: 0 <= j < n ==> key(s[j].timestamp) != w
    ensures InBucket(s, key, w) == InBucket(s[n..], key, w)
  {
    assert s == s[..n] + s[n..];
    InBucketConcat(s[..n], s[n..], key, w);
    InBucketNone(s[..n], key, w);
  }

  lemma KeySortedSuffix(s: seq<Reading>, n: nat, key: Timestamp -> int)
    requires KeySorted(s, key) && n <= |s|
    ensures KeySorted(s[n..], key)
  {
    forall i, j | 0 <= i < j < |s| - n
      ensures key(s[n..][i].timestamp) <= key(s[n..][j].timestamp)
    {
      assert s[n..][i] == s[n + i] && s[n..][j] == s[n + j];
    }
  }

  /** One step of the grouping. */
  lemma GroupRunsCons(s: seq<Reading>, key: Timestamp -> int)
    requires s != []
    ensures var n := RunLength(s, key, key(s[0].timestamp));
            1 <= n &&
            GroupRuns(s, key) == [Group(key(s[0].timestamp), s[..n])] + GroupRuns(s[n..], key)
  {
  }

  /** The row after the leading run of a sorted dataset carries a greater
      label. */
  lemma RunEndsLater(s: seq<Reading>, key: Timestamp -> int)
    requires s != [] && KeySorted(s, key)
    ensures var n := RunLength(s, key, key(s[0].timestamp));
            n < |s| ==> key(s[0].timestamp) < key(s[n].timestamp)
  {
    var n := RunLength(s, key, key(s[0].timestamp));
    RunLengthSpec(s, key, key(s[0].timestamp));
    if n < |s| {
      assert key(s[0].timestamp) <= key(s[n].timestamp);
    }
  }

  /** No group of a sorted dataset is labelled before its first row. */
  lemma {:induction false} GroupRunsFloor(s: seq<Reading>, key: Timestamp -> int, k: nat)
    requires KeySorted(s, key)
    requires k < |GroupRuns(s, key)|
    ensures key(s[0].timestamp) <= GroupRuns(s, key)[k].start
    decreases |s|
  {
    var n := RunLength(s, key, key(s[0].timestamp));
    var gs, tail := GroupRuns(s, key), GroupRuns(s[n..], key);
    GroupRunsCons(s, key);
    if k > 0 {
      RunEndsLater(s, key);
      assert gs[k] == tail[k - 1];
      KeySortedSuffix(s, n, key);
      GroupRunsFloor(s[n..], key, k - 1);
      assert s[n..][0] == s[n];
    }
  }

  /** The labels of a grouped sorted dataset strictly ascend. */
  lemma {:induction false} GroupRunsAscending(s: seq<Reading>, key: Timestamp -> int, k: nat, l: nat)
    requires KeySorted(s, key)
    requires k < l < |GroupRuns(s, key)|
    ensures GroupRuns(s, key)[k].start < GroupRuns(s, key)[l].start
    decreases |s|
  {
    var n := RunLength(s, key, key(s[0].timestamp));
    var gs, tail := GroupRuns(s, key), GroupRuns(s[n..], key);
    GroupRunsCons(s, key);
    KeySortedSuffix(s, n, key);
    assert gs[l] == tail[l - 1];
    if k == 0 {
      RunEndsLater(s, key);
      GroupRunsFloor(s[n..], key, l - 1);
      assert s[n..][0] == s[n];
    } else {
      assert gs[k] == tail[k - 1];
      GroupRunsAscending(s[n..], key, k - 1, l - 1);
    }
  }

  /** Every row of a grouped dataset has its label among the groups. */
  lemma {:induction false} GroupRunsCovers(s: seq<Reading>, key: Timestamp -> int, i: nat)
    requires i < |s|
    ensures var gs := GroupRuns(s, key);
            exists k :: 0 <= k < |gs| && gs[k].start == key(s[i].timestamp)
    decreases |s|
  {
    var n := RunLength(s, key, key(s[0].timestamp));
    var gs, tail := GroupRuns(s, key), GroupRuns(s[n..], key);
    GroupRunsCons(s, key);
    if i < n {
      RunLengthSpec(s, key, key(s[0].timestamp));
      assert gs[0].start == key(s[i].timestamp);
    } else {
      GroupRunsCovers(s[n..], key, i - n);
      assert s[n..][i - n] == s[i];
      var k :| 0 <= k < |tail| && tail[k].start == key(s[i].timestamp);
      assert gs[k + 1] == tail[k];
    }
  }

  /** Every group of a sorted dataset is the label of one of its rows and
      all the rows with that label. */
  lemma {:induction false} GroupRunsBuckets(s: seq<Reading>, key: Timestamp -> int, k: nat) returns (i: nat)
    requires KeySorted(s, key)
    requires k < |GroupRuns(s, key)|
    ensures i < |s| && GroupRuns(s, key)[k] == Group(key(s[i].timestamp), InBucket(s, key, key(s[i].timestamp)))
    decreases |s|
  {
    var n := RunLength(s, key, key(s[0].timestamp));
    var gs, tail := GroupRuns(s, key), GroupRuns(s[n..], key);
    GroupRunsCons(s, key);
    if k == 0 {
      LeadingRun(s, key);
      i := 0;
    } else {
      assert gs[k] == tail[k - 1];
      KeySortedSuffix(s, n, key);
      var j := GroupRunsBuckets(s[n..], key, k - 1);
      assert s[n..][j] == s[n + j];
      AfterLeadingRun(s, key, n + j);
      i := n + j;
    }
  }


  // ---- buckets do not depend on the order of the rows ----

  /** A row is among the rows of its own label. */
  lemma {:induction false} InBucketMember(s: seq<Reading>, key: Timestamp -> int, i: nat)
    requires i < |s|
    ensures s[i] in InBucket(s, key, key(s[i].timestamp))
  {
    if i > 0 {
      InBucketMember(s[1..], key, i - 1);
      assert s[1..][i - 1] == s[i];
    }
  }

  lemma InBucketRemove(c: seq<Reading>, j: nat, key: Timestamp -> int, v: int)
    requires j < |c|
    ensures multiset(InBucket(c, key, v))
         == multiset(InBucket([c[j]], key, v)) + multiset(InBucket(c[..j] + c[j + 1..], key, v))
  {
    assert c == c[..j] + ([c[j]] + c[j + 1..]);
    InBucketConcat(c[..j], [c[j]] + c[j + 1..], key, v);
    InBucketConcat([c[j]], c[j + 1..], key, v);
    InBucketConcat(c[..j], c[j + 1..], key, v);
  }

  lemma {:induction false} InBucketPermutation(a: seq<Reading>, c: seq<Reading>, key: Timestamp -> int, v: int)
    requires multiset(a) == multiset(c)
    ensures multiset(InBucket(a, key, v)) == multiset(InBucket(c, key, v))
    decreases |a|
  {
    if a == [] {
      assert |c| == |multiset(c)| == 0;
    } else {
      var x := a[0];
      assert x in multiset(c);
      var j :| 0 <= j < |c| && c[j] == x;
      var rest := c[..j] + c[j + 1..];
      MultisetRemove(c, j);
      assert a == [x] + a[1..];
      assert multiset(a[1..]) == multiset(a) - multiset{x};
      InBucketPermutation(a[1..], rest, key, v);
      InBucketConcat([x], a[1..], key, v);
      InBucketRemove(c, j, key, v);
    }
  }

  lemma MeanOfPermutation(a: seq<Reading>, c: seq<Reading>, m: Measure)
    requires a != [] && multiset(a) == multiset(c)
    ensures c != [] && MeanOf(a, m) == MeanOf(c, m)
  {
    assert |a| == |multiset(a)| == |multiset(c)| == |c|;
    SumOfPermutation(a, c, m);
  }

  // ---- aggregate_data ----

  /** The rows of `aggregate_data` are the mean rows of the groups of the
      sorted dataset. */
  lemma AggregateRows(ds: seq<Reading>, period: int)
    requires period > 0 && ds != []
    ensures var gs := GroupRuns(SortByTime(ds), BucketKey(period));
            var out := Aggregate(Some(ds), period).value;
            |out| == |gs| &&
            forall k :: 0 <= k < |gs| ==> out[k] == MeanRow(gs[k].start, gs[k].rows)
  {
  }

  /** The bucket starts of `aggregate_data` strictly ascend. */
  lemma AggregateAscending(ds: seq<Reading>, period: int)
    requires period > 0 && ds != []
    ensures var out := Aggregate(Some(ds), period).value;
            forall k, l :: 0 <= k < l < |out| ==> out[k].timestamp < out[l].timestamp
  {
    var key, s := BucketKey(period), SortByTime(ds);
    var gs, out := GroupRuns(s, key), Aggregate(Some(ds), period).value;
    AggregateRows(ds, period);
    BucketKeyMonotone(period);
    SortedKeySorted(s, key);
    forall k, l | 0 <= k < l < |out|
      ensures out[k].timestamp < out[l].timestamp
    {
      GroupRunsAscending(s, key, k, l);
    }
  }

  /** The bucket of every row of the dataset appears in `aggregate_data`. */
  lemma AggregateCovers(ds: seq<Reading>, period: int)
    requires period > 0 && ds != []
    ensures var out := Aggregate(Some(ds), period).value;
            forall i :: 0 <= i < |ds| ==>
              exists k :: 0 <= k < |out| && out[k].timestamp == BucketStart(ds[i].timestamp, period)
  {
    var key, s := BucketKey(period), SortByTime(ds);
    var gs, out := GroupRuns(s, key), Aggregate(Some(ds), period).value;
    AggregateRows(ds, period);
    forall i | 0 <= i < |ds|
      ensures exists k :: 0 <= k < |out| && out[k].timestamp == BucketStart(ds[i].timestamp, period)
    {
      assert ds[i] in multiset(s);
      var j :| 0 <= j < |s| && s[j] == ds[i];
      GroupRunsCovers(s, key, j);
      var k :| 0 <= k < |gs| && gs[k].start == key(s[j].timestamp);
      assert out[k].timestamp == gs[k].start;
    }
  }

  /** Every row of `aggregate_data` is the start of the bucket of some row
      of the dataset and the rounded means of all the dataset's rows in
      that bucket, whatever their order. */
  lemma AggregateMeans(ds: seq<Reading>, period: int)
    requires period > 0 && ds != []
    ensures var out := Aggregate(Some(ds), period).value;
            forall k :: 0 <= k < |out| ==>
              exists i :: 0 <= i < |ds| && ds[i] in InBucket(ds, BucketKey(period), BucketStart(ds[i].timestamp, period)) &&
                out[k] == MeanRow(BucketStart(ds[i].timestamp, period),
                                  InBucket(ds, BucketKey(period), BucketStart(ds[i].timestamp, period)))
  {
    var key, s := BucketKey(period), SortByTime(ds);
    var gs, out := GroupRuns(s, key), Aggregate(Some(ds), period).value;
    AggregateRows(ds, period);
    BucketKeyMonotone(period);
    SortedKeySorted(s, key);
    forall k | 0 <= k < |out|
      ensures exists i :: 0 <= i < |ds| && ds[i] in InBucket(ds, key, BucketStart(ds[i].timestamp, period)) &&
                out[k] == MeanRow(BucketStart(ds[i].timestamp, period),
                                  InBucket(ds, key, BucketStart(ds[i].timestamp, period)))
    {
      GroupMeanAt(s, ds, key, k);
      var i :| 0 <= i < |ds| && ds[i] in InBucket(ds, key, key(ds[i].timestamp)) && MeanRow(gs[k].start, gs[k].rows)
                                == MeanRow(key(ds[i].timestamp), InBucket(ds, key, key(ds[i].timestamp)));
      assert key(ds[i].timestamp) == BucketStart(ds[i].timestamp, period);
    }
  }

  /** The mean row of a group of a sorted dataset is the mean row of one
      of the buckets of any reordering of that dataset. */
  lemma GroupMeanAt(s: seq<Reading>, ds: seq<Reading>, key: Timestamp -> int, k: nat)
    requires KeySorted(s, key) && multiset(s) == multiset(ds)
    requires k < |GroupRuns(s, key)|
    ensures var g := GroupRuns(s, key)[k];
            exists i :: 0 <= i < |ds| && ds[i] in InBucket(ds, key, key(ds[i].timestamp)) &&
              MeanRow(g.start, g.rows) == MeanRow(key(ds[i].timestamp), InBucket(ds, key, key(ds[i].timestamp)))
  {
    var gs := GroupRuns(s, key);
    var j := GroupRunsBuckets(s, key, k);
    var v := key(s[j].timestamp);
    assert s[j] in multiset(ds);
    var i :| 0 <= i < |ds| && ds[i] == s[j];
    InBucketPermutation(s, ds, key, v);
    InBucketMember(ds, key, i);
    SameMeanRow(v, InBucket(s, key, v), InBucket(ds, key, v));
  }

  /** Rows in another order give the same mean row. */
  lemma SameMeanRow(v: Timestamp, a: seq<Reading>, c: seq<Reading>)
    requires a != [] && multiset(a) == multiset(c)
    ensures c != [] && MeanRow(v, a) == MeanRow(v, c)
  {
    MeanOfPermutation(a, c, Flow);
    MeanOfPermutation(a, c, Tds);
    MeanOfPermutation(a, c, Ph);
    MeanOfPermutation(a, c, Depth);
  }

  /** A rounded mean of in-range values is in range and on the 2-decimal
      grid. */
  lemma RoundedMeanInRange(rows: seq<Reading>, m: Measure)
    requires rows != []
    requires forall i :: 0 <= i < |rows| ==> InRange(m, Get(rows[i], m))
    ensures InRange(m, RoundTo(MeanOf(rows, m), 2)) && OnGrid(RoundTo(MeanOf(rows, m), 2), 2)
  {
    MeanOfInRange(rows, m);
    RoundToOnGrid(MeanOf(rows, m), 2);
    if m == Ph {
      RoundToKeepsBounds(MeanOf(rows, m), 0, 14, 2);
    } else {
      RoundToKeepsNonNegative(MeanOf(rows, m), 2);
    }
  }

  lemma {:induction false} InBucketSubset(s: seq<Reading>, key: Timestamp -> int, v: int, x: Reading)
    requires x in InBucket(s, key, v)
    ensures x in s
  {
    if x != s[0] {
      InBucketSubset(s[1..], key, v, x);
    }
  }

  /** Aggregating in-range readings gives in-range means, each on the
      2-decimal grid. */
  lemma AggregateKeepsRange(ds: seq<Reading>, period: int)
    requires period > 0 && ds != []
    requires forall i, m :: 0 <= i < |ds| ==> InRange(m, Get(ds[i], m))
    ensures var out := Aggregate(Some(ds), period).value;
            forall k, m :: 0 <= k < |out| ==> InRange(m, Get(out[k], m)) && OnGrid(Get(out[k], m), 2)
  {
    var key, s := BucketKey(period), SortByTime(ds);
    var gs, out := GroupRuns(s, key), Aggregate(Some(ds), period).value;
    AggregateRows(ds, period);
    BucketKeyMonotone(period);
    SortedKeySorted(s, key);
    forall k, m | 0 <= k < |out|
      ensures InRange(m, Get(out[k], m)) && OnGrid(Get(out[k], m), 2)
    {
      var j := GroupRunsBuckets(s, key, k);
      var rows := gs[k].rows;
      forall r | 0 <= r < |rows|
        ensures InRange(m, Get(rows[r], m))
      {
        InBucketSubset(s, key, key(s[j].timestamp), rows[r]);
        assert rows[r] in multiset(ds);
      }
      RoundedMeanInRange(rows, m);
    }
  }

  /** Buckets are floors: 5400 s falls in the hour starting at 3600, and one
      second before the epoch in the hour starting at -3600. */
  lemma BucketStartExamples()
    ensures BucketStart(5400, Hourly) == 3600
    ensures BucketStart(3600, Hourly) == 3600
    ensures BucketStart(-1, Hourly) == -3600
  {
  }

  /** Three readings, out of order, in two hours: two rows in hour order,
      the first averaging the two readings of hour zero. */
  lemma AggregateExample(late: Reading, early: Reading, mid: Reading)
    requires late == Reading(4000, 2.0, 10.0, 7.0, 1.0)
    requires early == Reading(100, 1.0, 20.0, 6.0, 3.0)
    requires mid == Reading(1900, 3.0, 30.0, 8.0, 5.0)
    ensures Aggregate(Some([late, early, mid]), Hourly)
         == Some([Reading(0, 2.0, 25.0, 7.0, 4.0), Reading(3600, 2.0, 10.0, 7.0, 1.0)])
  {
    ExampleAggregate(late, early, mid);
    ExampleMeans(early, mid, late);
    MeanRowsOfTwo(Group(0, [early, mid]), Group(3600, [late]));
  }

  lemma MeanRowsOfTwo(g: Group, h: Group)
    requires g.rows != [] && h.rows != []
    ensures MeanRows([g, h]) == [MeanRow(g.start, g.rows), MeanRow(h.start, h.rows)]
  {
    var out := MeanRows([g, h]);
    assert |out| == 2 && out[0] == MeanRow(g.start, g.rows) && out[1] == MeanRow(h.start, h.rows);
  }

  lemma ExampleAggregate(late: Reading, early: Reading, mid: Reading)
    requires early.timestamp == 100 && mid.timestamp == 1900 && late.timestamp == 4000
    ensures Aggregate(Some([late, early, mid]), Hourly) == Some(MeanRows([Group(0, [early, mid]), Group(3600, [late])]))
  {
    ExampleSorted(late, early, mid);
    ExampleGroups(late, early, mid);
  }

  lemma ExampleSorted(late: Reading, early: Reading, mid: Reading)
    requires early.timestamp <= mid.timestamp < late.timestamp
    ensures SortByTime([late, early, mid]) == [early, mid, late]
  {
    var ds := [late, early, mid];
    assert ds[1..][1..] == [mid];
    assert ds[1..][1..][1..] == [];
    assert SortByTime([mid]) == [mid];
    assert InsertByTime(early, [mid]) == [early, mid];
    assert SortByTime(ds[1..]) == [early, mid];
    assert [early, mid][1..] == [mid] && [mid][1..] == [];
    assert InsertByTime(late, [mid]) == [mid, late];
    assert InsertByTime(late, [early, mid]) == [early, mid, late];
  }

  lemma ExampleGroups(late: Reading, early: Reading, mid: Reading)
    requires early.timestamp == 100 && mid.timestamp == 1900 && late.timestamp == 4000
    ensures GroupRuns([early, mid, late], BucketKey(Hourly)) == [Group(0, [early, mid]), Group(3600, [late])]
  {
    var key := BucketKey(Hourly);
    var s := [early, mid, late];
    assert key(100) == 0 && key(1900) == 0 && key(4000) == 3600;
    assert s[1..] == [mid, late] && s[1..][1..] == [late] && [late][1..] == [];
    assert RunLength([late], key, 0) == 0;
    assert RunLength(s, key, 0) == 2;
    assert RunLength([late], key, 3600) == 1;
    assert s[..2] == [early, mid] && s[2..] == [late];
    assert [late][..1] == [late];
    assert GroupRuns([late], key) == [Group(3600, [late])];
  }

  lemma ExampleMeans(early: Reading, mid: Reading, late: Reading)
    requires early == Reading(100, 1.0, 20.0, 6.0, 3.0) && mid == Reading(1900, 3.0, 30.0, 8.0, 5.0)
    requires late == Reading(4000, 2.0, 10.0, 7.0, 1.0)
    ensures MeanRow(0, [early, mid]) == Reading(0, 2.0, 25.0, 7.0, 4.0)
    ensures MeanRow(3600, [late]) == Reading(3600, 2.0, 10.0, 7.0, 1.0)
  {
    MeanOfTwo(early, mid, Flow);
    MeanOfTwo(early, mid, Tds);
    MeanOfTwo(early, mid, Ph);
    MeanOfTwo(early, mid, Depth);
    MeanOfOne(late, Flow);
    MeanOfOne(late, Tds);
    MeanOfOne(late, Ph);
    MeanOfOne(late, Depth);
    RoundIntegerTo2(2);
    RoundIntegerTo2(25);
    RoundIntegerTo2(7);
    RoundIntegerTo2(4);
    RoundIntegerTo2(10);
    RoundIntegerTo2(1);
  }

  lemma MeanOfTwo(a: Reading, b: Reading, m: Measure)
    ensures MeanOf([a, b], m) == (Get(a, m) + Get(b, m)) / 2.0
  {
    MeanOfOne(a, m);
    assert [a, b][..1] == [a];
    assert SumOf([a, b], m) == SumOf([a], m) + Get(b, m);
  }

  lemma MeanOfOne(a: Reading, m: Measure)
    ensures SumOf([a], m) == Get(a, m)
    ensures MeanOf([a], m) == Get(a, m)
  {
    assert [a][..0] == [];
    assert SumOf([a], m) == SumOf([], m) + Get(a, m);
  }

  lemma RoundIntegerTo2(k: int)
    ensures RoundTo(k as real, 2) == k as real
  {
    IntegerOnGrid(k, 2);
    RoundToFixesGrid(k as real, 2);
  }
}
