/** What the dashboard's figures inherit from preprocessing: facts about any
    dataset `PreprocessData` may return, that is, any reordering of the
    cleaned rows. */
module Pipeline {
  import opened Options
  import opened Timestamps
  import opened Readings
  import opened Preprocess
  import opened Statistics
  import opened Aggregation

  /** The statistics of a preprocessed batch do not depend on how the sort
      ordered equal timestamps, and every average lies in its measurement's
      admissible range. */
  lemma PreprocessedStatistics(rows: seq<Reading>, df: RawBatch, p: Parsers, coerce: Coercion)
    requires df.WellFormed() && TimestampColumn in df.columns
    requires multiset(rows) == multiset(Cleaned(df, p, coerce))
    ensures GetStatistics(rows) == GetStatistics(Cleaned(df, p, coerce))
    ensures forall m :: InRange(m, Average(GetStatistics(rows), m))
  {
    StatisticsIgnoreOrder(rows, Cleaned(df, p, coerce));
    CleanedRowsAreClean(df, p, coerce);
    forall i, m | 0 <= i < |rows|
      ensures InRange(m, Get(rows[i], m))
    {
      assert rows[i] in multiset(Cleaned(df, p, coerce));
      assert CleanReading(rows[i]);
    }
    AveragesInRange(rows);
  }

  /** Aggregating a preprocessed batch gives nothing exactly when no
      timestamp parsed, and otherwise, per bucket, means in each
      measurement's admissible range. */
  lemma PreprocessedAggregate(rows: seq<Reading>, df: RawBatch, p: Parsers, coerce: Coercion, period: int)
    requires period > 0
    requires df.WellFormed() && TimestampColumn in df.columns
    requires multiset(rows) == multiset(Cleaned(df, p, coerce))
    ensures Aggregate(Some(rows), period).None? <==>
            ParsedIndices(ParseColumn(p, df.columns[TimestampColumn])) == []
    ensures Aggregate(Some(rows), period).Some? ==>
            var out := Aggregate(Some(rows), period).value;
            forall k, m :: 0 <= k < |out| ==> InRange(m, Get(out[k], m))
  {
    assert |rows| == |multiset(rows)| == |Cleaned(df, p, coerce)|;
    if rows != [] {
      CleanedRowsAreClean(df, p, coerce);
      forall i, m | 0 <= i < |rows|
        ensures InRange(m, Get(rows[i], m))
      {
        assert rows[i] in multiset(Cleaned(df, p, coerce));
        assert CleanReading(rows[i]);
      }
      AggregateKeepsRange(rows, period);
    }
  }
}
