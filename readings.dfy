/** The cleaned record type: one sensor reading with its four measurements. */
module Readings {
  import opened Timestamps

  /** The four measurements, by their standardised column names
      (`flow`, `tds`, `ph`, `depth`). */
  datatype Measure = Flow | Tds | Ph | Depth

  /** The value a measurement takes when it is missing everywhere, and the
      value an out-of-range measurement is reset to: neutral pH 7, else 0. */
  function Default(m: Measure): real {
    if m == Ph then 7.0 else 0.0
  }

  /** The admissible range: pH in [0, 14]; tds, depth and flow non-negative. */
  predicate InRange(m: Measure, v: real) {
    if m == Ph then 0.0 <= v <= 14.0 else 0.0 <= v
  }

  datatype Reading = Reading(timestamp: Timestamp, flow: real, tds: real, ph: real, depth: real)

  /** The value of measurement `m` in `r`. */
  function Get(r: Reading, m: Measure): real {
    match m
    case Flow => r.flow
    case Tds => r.tds
    case Ph => r.ph
    case Depth => r.depth
  }

  /** Readings ordered non-decreasingly by timestamp. */
  predicate SortedByTime(s: seq<Reading>) {
    forall i, j :: 0 <= i < j < |s| ==> s[i].timestamp <= s[j].timestamp
  }

  /** Taking out the element at `j` takes one copy of it out of the
      multiset. */
  lemma MultisetRemove<T>(b: seq<T>, j: nat)
    requires j < |b|
    ensures multiset(b[..j] + b[j + 1..]) == multiset(b) - multiset{b[j]}
  {
    assert b == b[..j] + [b[j]] + b[j + 1..];
    assert multiset(b) == multiset(b[..j]) + multiset{b[j]} + multiset(b[j + 1..]);
  }
}
