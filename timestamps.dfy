/** Timestamp parsing of `DataProcessor`: an ordered list of strict formats tried
    one after another, then a flexible fallback parser.

    The date library itself is not modelled: a `Parsers` value supplies
    "parse `s` under format `fmt`" and "parse `s` flexibly" as uninterpreted
    functions, each yielding a point in time (seconds since an epoch) or `None`
    where the library raises. */
module Timestamps {
  import opened Options

  type Timestamp = int

  datatype Parsers = Parsers(
    withFormat: (string, string) -> Option<Timestamp>,
    flexible: string -> Option<Timestamp>)

  /** The strict formats, in the order the processor tries them. */
  const DateFormats: seq<string> := [
    "%d-%b-%Y %H:%M:%S",
    "%Y-%m-%d %H:%M:%S",
    "%d/%m/%Y %H:%M",
    "%d-%m-%Y %H:%M:%S",
    "%Y/%m/%d %H:%M:%S",
    "%d-%m-%Y %I:%M:%S %p"
  ]

  /** The result of the first format of `fmts` under which `s` parses. */
  function FirstMatch(p: Parsers, fmts: seq<string>, s: string): (r: Option<Timestamp>)
    ensures r.Some? ==> exists i :: 0 <= i < |fmts| && p.withFormat(fmts[i], s) == r
    ensures r.None? ==> forall i :: 0 <= i < |fmts| ==> p.withFormat(fmts[i], s).None?
  {
    if fmts == [] then None
    else if p.withFormat(fmts[0], s).Some? then p.withFormat(fmts[0], s)
    else
      assert forall i :: 1 <= i < |fmts| ==> fmts[1..][i - 1] == fmts[i];
      FirstMatch(p, fmts[1..], s)
  }

  /** What parsing one timestamp cell yields: the first strict format that
      succeeds, otherwise the flexible parser's answer. */
  function ParsedTime(p: Parsers, s: string): (r: Option<Timestamp>)
    ensures r.Some? ==> r == p.flexible(s) ||
                        exists i :: 0 <= i < |DateFormats| && p.withFormat(DateFormats[i], s) == r
    ensures r.None? ==> p.flexible(s).None? &&
                        forall i :: 0 <= i < |DateFormats| ==> p.withFormat(DateFormats[i], s).None?
  {
    var strict := FirstMatch(p, DateFormats, s);
    if strict.Some? then strict else p.flexible(s)
  }

  /** `FirstMatch` picks the earliest succeeding format, and fails only when
      every format fails. */
  lemma {:induction false} FirstMatchIsEarliest(p: Parsers, fmts: seq<string>, s: string)
    ensures FirstMatch(p, fmts, s).None? <==>
              forall i :: 0 <= i < |fmts| ==> p.withFormat(fmts[i], s).None?
    ensures FirstMatch(p, fmts, s).Some? ==>
              exists i :: 0 <= i < |fmts| && FirstMatch(p, fmts, s) == p.withFormat(fmts[i], s) &&
                forall j :: 0 <= j < i ==> p.withFormat(fmts[j], s).None?
  {
    if fmts != [] && p.withFormat(fmts[0], s).None? {
      FirstMatchIsEarliest(p, fmts[1..], s);
      if FirstMatch(p, fmts, s).Some? {
        var i :| 0 <= i < |fmts[1..]| && FirstMatch(p, fmts[1..], s) == p.withFormat(fmts[1..][i], s) &&
                 forall j :: 0 <= j < i ==> p.withFormat(fmts[1..][j], s).None?;
        assert forall j :: 0 <= j < i + 1 ==> p.withFormat(fmts[j], s).None? by {
          forall j | 0 <= j < i + 1 ensures p.withFormat(fmts[j], s).None? {
            if j > 0 { assert fmts[j] == fmts[1..][j - 1]; }
          }
        }
        assert fmts[i + 1] == fmts[1..][i];
      } else {
        forall i | 0 <= i < |fmts| ensures p.withFormat(fmts[i], s).None? {
          if i > 0 { assert fmts[i] == fmts[1..][i - 1]; }
        }
      }
    }
  }

  /** `ParsedTime` is the result of the first format in `DateFormats` order
      that succeeds, the flexible parser's answer when none does, and `None`
      exactly when every format and the fallback fail. */
  lemma ParsedTimeIsFirstSuccess(p: Parsers, s: string)
    ensures forall i ::
              (0 <= i < |DateFormats| && p.withFormat(DateFormats[i], s).Some? &&
               forall j :: 0 <= j < i ==> p.withFormat(DateFormats[j], s).None?) ==>
              ParsedTime(p, s) == p.withFormat(DateFormats[i], s)
    ensures (forall i :: 0 <= i < |DateFormats| ==> p.withFormat(DateFormats[i], s).None?) ==>
              ParsedTime(p, s) == p.flexible(s)
    ensures ParsedTime(p, s).None? <==>
              (forall i :: 0 <= i < |DateFormats| ==> p.withFormat(DateFormats[i], s).None?) &&
              p.flexible(s).None?
  {
    FirstMatchIsEarliest(p, DateFormats, s);
  }

  /** `_parse_timestamp`: try each format in order and return the first
      success; otherwise fall back to the flexible parser. */
  method ParseTimestamp(p: Parsers, s: string) returns (r: Option<Timestamp>)
    ensures r == ParsedTime(p, s)
    ensures forall i :: 0 <= i < |DateFormats| && p.withFormat(DateFormats[i], s).Some? ==>
              exists k :: 0 <= k <= i && r == p.withFormat(DateFormats[k], s)
    ensures r.None? ==> p.flexible(s).None?
  {
    for i := 0 to |DateFormats|
      invariant forall j :: 0 <= j < i ==> p.withFormat(DateFormats[j], s).None?
      invariant FirstMatch(p, DateFormats[i..], s) == FirstMatch(p, DateFormats, s)
    {
      assert DateFormats[i..][1..] == DateFormats[i + 1..];
      var attempt := p.withFormat(DateFormats[i], s);
      if attempt.Some? {
        return attempt;
      }
    }
    return p.flexible(s);
  }

  /** The whole-column conversion under one format: pandas raises (`None`
      here) as soon as one cell does not parse under `fmt`. */
  function ParseColumnWith(p: Parsers, fmt: string, col: seq<string>): (r: Option<seq<Timestamp>>)
    ensures r.Some? ==> |r.value| == |col| &&
                        forall i :: 0 <= i < |col| ==> p.withFormat(fmt, col[i]) == Some(r.value[i])
    ensures r.None? ==> exists i :: 0 <= i < |col| && p.withFormat(fmt, col[i]).None?
  {
    if col == [] then Some([])
    else
      var head := p.withFormat(fmt, col[0]);
      var tail := ParseColumnWith(p, fmt, col[1..]);
      assert forall i :: 1 <= i < |col| ==> col[1..][i - 1] == col[i];
      if head.Some? && tail.Some? then Some([head.value] + tail.value) else None
  }

  /** If the whole column parses under the first format, every cell's
      individual parse picks the first format too, so the two paths of the
      conversion agree. */
  lemma {:induction false} FirstFormatColumnAgrees(p: Parsers, col: seq<string>)
    requires ParseColumnWith(p, DateFormats[0], col).Some?
    ensures |ParseColumnWith(p, DateFormats[0], col).value| == |col|
    ensures forall i :: 0 <= i < |col| ==>
              ParsedTime(p, col[i]) == Some(ParseColumnWith(p, DateFormats[0], col).value[i])
  {
    if col != [] {
      FirstFormatColumnAgrees(p, col[1..]);
      var whole := ParseColumnWith(p, DateFormats[0], col).value;
      forall i | 0 <= i < |col|
        ensures ParsedTime(p, col[i]) == Some(whole[i])
      {
        if i > 0 {
          assert col[i] == col[1..][i - 1];
        }
      }
    }
  }

  /** Timestamp conversion of the whole batch: the vectorised attempt with the
      first format and, when that raises, the per-cell loop, appending `None`
      (NaT) for every cell no parser accepts. Either way each cell gets its
      own `ParsedTime`. */
  method ConvertTimestamps(p: Parsers, col: seq<string>) returns (ts: seq<Option<Timestamp>>)
    ensures |ts| == |col|
    ensures forall i :: 0 <= i < |col| ==> ts[i] == ParsedTime(p, col[i])
  {
    var whole := ParseColumnWith(p, DateFormats[0], col);
    if whole.Some? {
      FirstFormatColumnAgrees(p, col);
      ts := seq(|col|, i requires 0 <= i < |col| => Some(whole.value[i]));
    } else {
      var temp: seq<Option<Timestamp>> := [];
      for i := 0 to |col|
        invariant |temp| == i
        invariant forall j :: 0 <= j < i ==> temp[j] == ParsedTime(p, col[j])
      {
        var parsed := ParseTimestamp(p, col[i]);
        if parsed.None? {
          temp := temp + [None];
        } else {
          temp := temp + [parsed];
        }
      }
      ts := temp;
    }
  }
}
