/** `DataProcessor.preprocess_data`: from a raw batch to a cleaned dataset.

    The steps, in the order the processor performs them: convert timestamps,
    drop the rows whose timestamp did not parse, coerce each measurement to a
    number, fill gaps column by column (in the surviving input order), reset
    out-of-range values, round, and finally sort by timestamp. */
module Preprocess {
  import opened Options
  import opened Timestamps
  import opened Readings
  import opened GapFill
  import opened Validation
  import opened Rounding

  const TimestampColumn: string := "timestamp"

  /** The measures in the order their source columns are converted. */
  const ConversionOrder: seq<Measure> := [Flow, Tds, Ph, Depth]

  /** The order in which the columns are gap-filled. */
  const FillOrder: seq<Measure> := [Tds, Ph, Depth, Flow]

  /** The name of the source column each measure is read from. */
  function SourceName(m: Measure): string {
    match m
    case Flow => "FlowInd"
    case Tds => "TDS"
    case Ph => "pH"
    case Depth => "Depth"
  }

  /** A raw batch as it arrives: a table of text cells by column name, every
      column holding one cell per row. */
  datatype RawBatch = RawBatch(rowCount: nat, columns: map<string, seq<string>>) {
    predicate WellFormed() {
      forall c :: c in columns ==> |columns[c]| == rowCount
    }

    /** pandas' `DataFrame.empty`: no rows or no columns. */
    predicate IsEmpty() {
      rowCount == 0 || columns == map[]
    }
  }

  /** `pd.to_numeric(..., errors='coerce')` for one cell: a number, or `None`
      (NaN) for a cell that is not one. */
  type Coercion = string -> Option<real>

  // ---- dropping rows whose timestamp did not parse ----

  /** The positions whose timestamp parsed, ascending. */
  function ParsedIndices(ts: seq<Option<Timestamp>>): (idx: seq<nat>)
    ensures forall k :: 0 <= k < |idx| ==> idx[k] < |ts| && ts[idx[k]].Some?
    ensures forall k, l :: 0 <= k < l < |idx| ==> idx[k] < idx[l]
  {
    if ts == [] then []
    else
      var rest := ParsedIndices(ts[..|ts| - 1]);
      if ts[|ts| - 1].Some? then rest + [|ts| - 1] else rest
  }

  /** Every position whose timestamp parsed is among the parsed positions. */
  lemma {:induction false} ParsedIndicesComplete(ts: seq<Option<Timestamp>>, i: int)
    requires 0 <= i < |ts| && ts[i].Some?
    ensures i in ParsedIndices(ts)
  {
    if i < |ts| - 1 {
      ParsedIndicesComplete(ts[..|ts| - 1], i);
    }
  }

  /** No position is kept when no timestamp parsed. */
  lemma {:induction false} ParsedIndicesNone(ts: seq<Option<Timestamp>>)
    requires forall i :: 0 <= i < |ts| ==> ts[i].None?
    ensures ParsedIndices(ts) == []
  {
    if ts != [] {
      ParsedIndicesNone(ts[..|ts| - 1]);
    }
  }

  /** `dropna(subset=['timestamp'])` applied to one column. */
  function KeepParsed<T>(xs: seq<T>, ts: seq<Option<Timestamp>>): (r: seq<T>)
    requires |xs| == |ts|
    ensures |r| == |ParsedIndices(ts)|
  {
    if xs == [] then []
    else
      var rest := KeepParsed(xs[..|xs| - 1], ts[..|ts| - 1]);
      if ts[|ts| - 1].Some? then rest + [xs[|xs| - 1]] else rest
  }

  /** The kept cells are exactly the cells at the parsed positions, in their
      original relative order. */
  lemma {:induction false} KeepParsedAt<T>(xs: seq<T>, ts: seq<Option<Timestamp>>)
    requires |xs| == |ts|
    ensures |KeepParsed(xs, ts)| == |ParsedIndices(ts)|
    ensures forall k :: 0 <= k < |ParsedIndices(ts)| ==> KeepParsed(xs, ts)[k] == xs[ParsedIndices(ts)[k]]
  {
    if xs != [] {
      var n := |xs| - 1;
      KeepParsedAt(xs[..n], ts[..n]);
      var rest, ridx := KeepParsed(xs[..n], ts[..n]), ParsedIndices(ts[..n]);
      forall k | 0 <= k < |ridx|
        ensures rest[k] == xs[ridx[k]]
      {
        assert xs[..n][ridx[k]] == xs[ridx[k]];
      }
    }
  }

  /** The parsed timestamps of the kept rows. */
  function ParsedTimes(ts: seq<Option<Timestamp>>): (times: seq<Timestamp>)
    ensures |times| == |ParsedIndices(ts)|
  {
    var idx := ParsedIndices(ts);
    seq(|idx|, k requires 0 <= k < |idx| => ts[idx[k]].value)
  }

  /** The timestamp cells after conversion. */
  function ParseColumn(p: Parsers, col: seq<string>): (ts: seq<Option<Timestamp>>)
    ensures |ts| == |col|
  {
    seq(|col|, i requires 0 <= i < |col| => ParsedTime(p, col[i]))
  }

  // ---- the measurement columns ----

  function Coerce(cells: seq<string>, coerce: Coercion): (c: Column)
    ensures |c| == |cells|
  {
    seq(|cells|, i requires 0 <= i < |cells| => coerce(cells[i]))
  }

  /** Measure `m` after the drop and the numeric conversion: its source column
      coerced, or all missing when the batch has no such column. */
  function CoercedColumn(df: RawBatch, ts: seq<Option<Timestamp>>, m: Measure, coerce: Coercion): (c: Column)
    requires df.WellFormed() && |ts| == df.rowCount
    ensures |c| == |ParsedIndices(ts)|
  {
    if SourceName(m) in df.columns then
      KeepParsedAt(df.columns[SourceName(m)], ts);
      Coerce(KeepParsed(df.columns[SourceName(m)], ts), coerce)
    else AllMissing(|ParsedIndices(ts)|)
  }

  /** Fill, range validation and rounding of one measurement column. */
  function CleanColumn(m: Measure, c: Column): (r: seq<real>)
    ensures |r| == |c|
    ensures forall i :: 0 <= i < |r| ==> InRange(m, r[i]) && OnGrid(r[i], Places(m))
  {
    RoundColumn(m, ClipColumn(m, FillGaps(c, Default(m))))
  }

  function Assemble(times: seq<Timestamp>, flow: seq<real>, tds: seq<real>, ph: seq<real>, depth: seq<real>): (rows: seq<Reading>)
    requires |flow| == |tds| == |ph| == |depth| == |times|
    ensures |rows| == |times|
  {
    seq(|times|, i requires 0 <= i < |times| => Reading(times[i], flow[i], tds[i], ph[i], depth[i]))
  }

  /** The cleaned rows in the surviving input order, before the sort. */
  function Cleaned(df: RawBatch, p: Parsers, coerce: Coercion): (rows: seq<Reading>)
    requires df.WellFormed() && TimestampColumn in df.columns
    ensures |rows| == |ParsedIndices(ParseColumn(p, df.columns[TimestampColumn]))|
  {
    var ts := ParseColumn(p, df.columns[TimestampColumn]);
    Assemble(ParsedTimes(ts),
             CleanColumn(Flow, CoercedColumn(df, ts, Flow, coerce)),
             CleanColumn(Tds, CoercedColumn(df, ts, Tds, coerce)),
             CleanColumn(Ph, CoercedColumn(df, ts, Ph, coerce)),
             CleanColumn(Depth, CoercedColumn(df, ts, Depth, coerce)))
  }

  // ---- what the cleaned rows are ----

  /** A row as the cleaning leaves it: every measure in range and on its
      display grid. */
  predicate CleanReading(row: Reading) {
    forall m :: InRange(m, Get(row, m)) && OnGrid(Get(row, m), Places(m))
  }

  /** Present values of a cleaned column, as they would be read back. */
  function Present(c: seq<real>): (r: Column)
    ensures |r| == |c|
  {
    seq(|c|, i requires 0 <= i < |c| => Some(c[i]))
  }

  /** Every value of a cleaned column is in range and on its grid. */
  lemma CleanColumnValid(m: Measure, c: Column, k: int)
    requires 0 <= k < |c|
    ensures InRange(m, CleanColumn(m, c)[k]) && OnGrid(CleanColumn(m, c)[k], Places(m))
  {
    var clipped := ClipValue(m, FillGaps(c, Default(m))[k]);
    RoundKeepsRange(m, clipped);
    RoundToOnGrid(clipped, Places(m));
  }

  /** A present value that is already in range and on the grid goes through
      the cleaning of its column unchanged. */
  lemma CleanColumnKeepsCleanValue(m: Measure, c: Column, k: int)
    requires 0 <= k < |c| && c[k].Some?
    requires InRange(m, c[k].value) && OnGrid(c[k].value, Places(m))
    ensures CleanColumn(m, c)[k] == c[k].value
  {
    FillKeepsPresent(c, Default(m), k);
    RoundToFixesGrid(c[k].value, Places(m));
  }

  /** Cleaning an already cleaned column changes nothing. */
  lemma CleanColumnIdempotent(m: Measure, c: Column)
    ensures CleanColumn(m, Present(CleanColumn(m, c))) == CleanColumn(m, c)
  {
    var once := CleanColumn(m, c);
    forall k | 0 <= k < |c|
      ensures CleanColumn(m, Present(once))[k] == once[k]
    {
      CleanColumnValid(m, c, k);
      CleanColumnKeepsCleanValue(m, Present(once), k);
    }
  }

  /** The drop step: the cleaned rows are the rows whose timestamp parsed, in
      their original relative order, each carrying its parsed timestamp and
      its own cleaned measurements. */
  lemma CleanedRows(df: RawBatch, p: Parsers, coerce: Coercion)
    requires df.WellFormed() && TimestampColumn in df.columns
    ensures var col := df.columns[TimestampColumn];
            var idx := ParsedIndices(ParseColumn(p, col));
            |Cleaned(df, p, coerce)| == |idx| &&
            (forall i :: 0 <= i < |col| && ParsedTime(p, col[i]).Some? ==> i in idx) &&
            forall k :: 0 <= k < |idx| ==>
              ParsedTime(p, col[idx[k]]) == Some(Cleaned(df, p, coerce)[k].timestamp)
    ensures var ts := ParseColumn(p, df.columns[TimestampColumn]);
            forall k, m :: 0 <= k < |Cleaned(df, p, coerce)| ==>
              Get(Cleaned(df, p, coerce)[k], m) == CleanColumn(m, CoercedColumn(df, ts, m, coerce))[k]
  {
    var col := df.columns[TimestampColumn];
    var ts := ParseColumn(p, col);
    forall i | 0 <= i < |col| && ParsedTime(p, col[i]).Some?
      ensures i in ParsedIndices(ts)
    {
      ParsedIndicesComplete(ts, i);
    }
  }

  /** The measurements a kept row starts from are its own source cells. */
  lemma CoercedColumnAt(df: RawBatch, ts: seq<Option<Timestamp>>, m: Measure, coerce: Coercion, k: int)
    requires df.WellFormed() && |ts| == df.rowCount
    requires 0 <= k < |ParsedIndices(ts)|
    ensures SourceName(m) in df.columns ==>
              CoercedColumn(df, ts, m, coerce)[k] == coerce(df.columns[SourceName(m)][ParsedIndices(ts)[k]])
    ensures SourceName(m) !in df.columns ==> CoercedColumn(df, ts, m, coerce)[k].None?
  {
    if SourceName(m) in df.columns {
      KeepParsedAt(df.columns[SourceName(m)], ts);
    }
  }

  /** Every cleaned row is in range and on its display grid. */
  lemma CleanedRowsAreClean(df: RawBatch, p: Parsers, coerce: Coercion)
    requires df.WellFormed() && TimestampColumn in df.columns
    ensures forall row :: row in Cleaned(df, p, coerce) ==> CleanReading(row)
  {
    var rows := Cleaned(df, p, coerce);
    var ts := ParseColumn(p, df.columns[TimestampColumn]);
    CleanedRows(df, p, coerce);
    forall row | row in rows
      ensures CleanReading(row)
    {
      var k :| 0 <= k < |rows| && rows[k] == row;
      forall m
        ensures InRange(m, Get(row, m)) && OnGrid(Get(row, m), Places(m))
      {
        CleanColumnValid(m, CoercedColumn(df, ts, m, coerce), k);
      }
    }
  }

  /** When no timestamp parses, the cleaned dataset is empty (not `None`). */
  lemma NoParsedTimestampGivesEmptyDataset(df: RawBatch, p: Parsers, coerce: Coercion)
    requires df.WellFormed() && TimestampColumn in df.columns
    requires forall i :: 0 <= i < df.rowCount ==> ParsedTime(p, df.columns[TimestampColumn][i]).None?
    ensures Cleaned(df, p, coerce) == []
  {
    ParsedIndicesNone(ParseColumn(p, df.columns[TimestampColumn]));
  }

  // ---- sorting ----

  function InsertByTime(x: Reading, s: seq<Reading>): (r: seq<Reading>)
    ensures multiset(r) == multiset(s) + multiset{x}
  {
    if s == [] then [x]
    else if x.timestamp <= s[0].timestamp then [x] + s
    else
      assert s == [s[0]] + s[1..];
      [s[0]] + InsertByTime(x, s[1..])
  }

  /** Inserting into a sorted sequence keeps it sorted. */
  lemma {:induction false} InsertKeepsSorted(x: Reading, s: seq<Reading>)
    requires SortedByTime(s)
    ensures SortedByTime(InsertByTime(x, s))
  {
    if s != [] && x.timestamp > s[0].timestamp {
      var tail := InsertByTime(x, s[1..]);
      InsertKeepsSorted(x, s[1..]);
      assert tail[0] == x || tail[0] == s[1];
      assert forall j :: 0 <= j < |tail| ==> tail[0].timestamp <= tail[j].timestamp;
    }
  }

  /** `sort_values('timestamp')`. */
  function SortByTime(s: seq<Reading>): (r: seq<Reading>)
    ensures SortedByTime(r)
    ensures multiset(r) == multiset(s)
  {
    if s == [] then []
    else
      assert s == [s[0]] + s[1..];
      InsertKeepsSorted(s[0], SortByTime(s[1..]));
      InsertByTime(s[0], SortByTime(s[1..]))
  }

  // ---- the whole operation ----

  /** The conversion of the numeric columns, in `ConversionOrder`: each
      measure from its source column, or all missing when that is absent. */
  method ConvertNumericColumns(df: RawBatch, ts: seq<Option<Timestamp>>, kept: map<string, seq<string>>, coerce: Coercion)
    returns (cols: map<Measure, Column>)
    requires df.WellFormed() && |ts| == df.rowCount
    requires kept == map c | c in df.columns :: KeepParsed(df.columns[c], ts)
    ensures forall m :: m in cols && cols[m] == CoercedColumn(df, ts, m, coerce)
  {
    cols := map[];
    for k := 0 to |ConversionOrder|
      invariant forall j :: 0 <= j < k ==>
                  ConversionOrder[j] in cols &&
                  cols[ConversionOrder[j]] == CoercedColumn(df, ts, ConversionOrder[j], coerce)
    {
      var m := ConversionOrder[k];
      var source := SourceName(m);
      if source in kept {
        cols := cols[m := Coerce(kept[source], coerce)];
      } else {
        cols := cols[m := AllMissing(|ParsedIndices(ts)|)];
      }
    }
    forall m
      ensures m in cols && cols[m] == CoercedColumn(df, ts, m, coerce)
    {
      var j := match m case Flow => 0 case Tds => 1 case Ph => 2 case Depth => 3;
      assert ConversionOrder[j] == m;
    }
  }

  /** Forward fill, then back fill, of every column, in `FillOrder`. */
  method FillColumns(cols: map<Measure, Column>) returns (filled: map<Measure, Column>)
    requires forall m :: m in cols
    ensures forall m :: m in filled && filled[m] == BackFill(ForwardFill(cols[m]))
  {
    filled := cols;
    for k := 0 to |FillOrder|
      invariant forall m :: m in filled
      invariant forall j :: k <= j < |FillOrder| ==> filled[FillOrder[j]] == cols[FillOrder[j]]
      invariant forall j :: 0 <= j < k ==> filled[FillOrder[j]] == BackFill(ForwardFill(cols[FillOrder[j]]))
    {
      var m := FillOrder[k];
      filled := filled[m := BackFill(ForwardFill(filled[m]))];
    }
    forall m
      ensures filled[m] == BackFill(ForwardFill(cols[m]))
    {
      var j := match m case Tds => 0 case Ph => 1 case Depth => 2 case Flow => 3;
      assert FillOrder[j] == m;
    }
  }

  /** `preprocess_data`. `None` when there is no batch, when it is empty, and
      when it lacks the timestamp column (the lookup raises and the handler
      returns None). Otherwise the cleaned rows sorted by timestamp. */
  method PreprocessData(input: Option<RawBatch>, p: Parsers, coerce: Coercion) returns (r: Option<seq<Reading>>)
    requires input.Some? ==> input.value.WellFormed()
    ensures r.None? <==> input.None? || input.value.IsEmpty() || TimestampColumn !in input.value.columns
    ensures r.Some? ==> SortedByTime(r.value)
    ensures r.Some? ==> multiset(r.value) == multiset(Cleaned(input.value, p, coerce))
    ensures r.Some? ==> |r.value| == |ParsedIndices(ParseColumn(p, input.value.columns[TimestampColumn]))|
    ensures r.Some? ==> forall row :: row in r.value ==> CleanReading(row)
  {
    if input.None? || input.value.IsEmpty() {
      return None;
    }
    var df := input.value;
    if TimestampColumn !in df.columns {
      return None;
    }
    var ts := ConvertTimestamps(p, df.columns[TimestampColumn]);
    assert ts == ParseColumn(p, df.columns[TimestampColumn]);

    // Remove the rows with invalid timestamps.
    var times := ParsedTimes(ts);
    var kept := map c | c in df.columns :: KeepParsed(df.columns[c], ts);

    var coerced := ConvertNumericColumns(df, ts, kept, coerce);
    var cols := FillColumns(coerced);

    // Defaults for whatever is still missing.
    var values: map<Measure, seq<real>> := map[];
    values := values[Tds := WithDefault(cols[Tds], Default(Tds))];
    values := values[Ph := WithDefault(cols[Ph], Default(Ph))];
    values := values[Depth := WithDefault(cols[Depth], Default(Depth))];
    values := values[Flow := WithDefault(cols[Flow], Default(Flow))];

    // Validate ranges.
    values := values[Ph := ClipColumn(Ph, values[Ph])];
    values := values[Tds := ClipColumn(Tds, values[Tds])];
    values := values[Depth := ClipColumn(Depth, values[Depth])];
    values := values[Flow := ClipColumn(Flow, values[Flow])];

    // Round.
    values := values[Tds := RoundColumn(Tds, values[Tds])];
    values := values[Ph := RoundColumn(Ph, values[Ph])];
    values := values[Depth := RoundColumn(Depth, values[Depth])];
    values := values[Flow := RoundColumn(Flow, values[Flow])];

    var rows := Assemble(times, values[Flow], values[Tds], values[Ph], values[Depth]);
    assert rows == Cleaned(df, p, coerce);

    // Sort by timestamp.
    var sorted := SortByTime(rows);
    CleanedRowsAreClean(df, p, coerce);
    assert |sorted| == |multiset(sorted)| == |multiset(rows)| == |rows|;
    forall row | row in sorted
      ensures CleanReading(row)
    {
      assert row in multiset(sorted);
    }
    r := Some(sorted);
  }
}
