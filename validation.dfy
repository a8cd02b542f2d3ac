/** Range validation: an out-of-range value is replaced by the measurement's
    default, not clamped to the nearest bound. */
module Validation {
  import opened Readings

  /** One value after the range checks: for pH, first the "below 0" check and
      then the "above 14" check, each resetting to 7; for the others, a
      negative value is reset to 0. */
  function ClipValue(m: Measure, v: real): (r: real)
    ensures InRange(m, r)
    ensures InRange(m, v) ==> r == v
    ensures !InRange(m, v) ==> r == Default(m)
  {
    if m == Ph then
      var low := if v < 0.0 then 7.0 else v;
      if low > 14.0 then 7.0 else low
    else if v < 0.0 then 0.0 else v
  }

  /** The range checks applied to a whole column: every value ends in range,
      in-range values are kept and the others reset to the default. */
  function ClipColumn(m: Measure, c: seq<real>): (r: seq<real>)
    ensures |r| == |c|
    ensures forall i :: 0 <= i < |c| ==> InRange(m, r[i])
    ensures forall i :: 0 <= i < |c| && InRange(m, c[i]) ==> r[i] == c[i]
    ensures forall i :: 0 <= i < |c| && !InRange(m, c[i]) ==> r[i] == Default(m)
  {
    seq(|c|, i requires 0 <= i < |c| => ClipValue(m, c[i]))
  }
}
