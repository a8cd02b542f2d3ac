/** Gap filling of one measurement column: pandas' forward fill, then back
    fill, then a constant for whatever is still missing.

    A column is a sequence of optional numbers in row order; `None` is NaN.
    The fills are written as the scans pandas performs; `LastPresent` and
    `FirstPresent` are the reference definitions they are proved against. */
module GapFill {
  import opened Options

  type Column = seq<Option<real>>

  /** The last present value of `s`, if any. */
  function LastPresent(s: Column): Option<real> {
    if s == [] then None
    else if s[|s| - 1].Some? then s[|s| - 1]
    else LastPresent(s[..|s| - 1])
  }

  /** The first present value of `s`, if any. */
  function FirstPresent(s: Column): Option<real> {
    if s == [] then None
    else if s[0].Some? then s[0]
    else FirstPresent(s[1..])
  }

  /** Forward fill as a left-to-right scan carrying the last valid value. */
  function ForwardFillFrom(carry: Option<real>, c: Column): (r: Column)
    ensures |r| == |c|
    decreases c
  {
    if c == [] then []
    else
      var v := if c[0].Some? then c[0] else carry;
      [v] + ForwardFillFrom(v, c[1..])
  }

  /** `fillna(method='ffill')`. */
  function ForwardFill(c: Column): (r: Column)
    ensures |r| == |c|
  {
    ForwardFillFrom(None, c)
  }

  /** `fillna(method='bfill')`: a right-to-left scan. */
  function BackFill(c: Column): (r: Column)
    ensures |r| == |c|
  {
    if c == [] then []
    else
      var rest := BackFill(c[1..]);
      var next := if rest == [] then None else rest[0];
      [if c[0].Some? then c[0] else next] + rest
  }

  /** `fillna(d)`: the constant for every value still missing. */
  function WithDefault(c: Column, d: real): (r: seq<real>)
    ensures |r| == |c|
  {
    seq(|c|, i requires 0 <= i < |c| => c[i].GetOr(d))
  }

  /** The whole fill policy of one column: ffill, then bfill, then `d`. */
  function FillGaps(c: Column, d: real): (r: seq<real>)
    ensures |r| == |c|
  {
    WithDefault(BackFill(ForwardFill(c)), d)
  }

  // ---- LastPresent and FirstPresent by position ----

  /** `LastPresent` is the value at the last present position, and `None`
      exactly when no position is present. */
  lemma {:induction false} LastPresentAt(s: Column, j: int)
    requires 0 <= j < |s| && s[j].Some?
    requires forall k :: j < k < |s| ==> s[k].None?
    ensures LastPresent(s) == s[j]
  {
    if j < |s| - 1 {
      var t := s[..|s| - 1];
      assert forall k :: j < k < |t| ==> t[k] == s[k];
      LastPresentAt(t, j);
    }
  }

  lemma {:induction false} LastPresentNone(s: Column)
    ensures LastPresent(s).None? <==> forall k :: 0 <= k < |s| ==> s[k].None?
  {
    if s != [] {
      var t := s[..|s| - 1];
      LastPresentNone(t);
      assert forall k :: 0 <= k < |t| ==> t[k] == s[k];
    }
  }

  lemma {:induction false} FirstPresentAt(s: Column, j: int)
    requires 0 <= j < |s| && s[j].Some?
    requires forall k :: 0 <= k < j ==> s[k].None?
    ensures FirstPresent(s) == s[j]
  {
    if j > 0 {
      assert forall k :: 0 <= k < j - 1 ==> s[1..][k] == s[k + 1];
      FirstPresentAt(s[1..], j - 1);
    }
  }

  lemma {:induction false} FirstPresentNone(s: Column)
    ensures FirstPresent(s).None? <==> forall k :: 0 <= k < |s| ==> s[k].None?
  {
    if s != [] {
      FirstPresentNone(s[1..]);
      assert forall k :: 0 <= k < |s| - 1 ==> s[1..][k] == s[k + 1];
    }
  }

  // ---- the scans meet their reference definitions ----

  /** Prepending a value matters to `LastPresent` only when nothing after it
      is present. */
  lemma {:induction false} LastPresentCons(x: Option<real>, t: Column)
    ensures LastPresent([x] + t) == if LastPresent(t).Some? then LastPresent(t) else x
  {
    if t == [] {
      assert ([x] + t)[..0] == [];
    } else if t[|t| - 1].None? {
      assert ([x] + t)[..|t|] == [x] + t[..|t| - 1];
      LastPresentCons(x, t[..|t| - 1]);
    }
  }

  lemma {:induction false} ForwardFillFromAt(carry: Option<real>, c: Column, i: int)
    requires 0 <= i < |c|
    ensures ForwardFillFrom(carry, c)[i] ==
              if LastPresent(c[..i + 1]).Some? then LastPresent(c[..i + 1]) else carry
    decreases c
  {
    var v := if c[0].Some? then c[0] else carry;
    if i == 0 {
      assert c[..1] == [c[0]] + [];
      LastPresentCons(c[0], []);
    } else {
      ForwardFillFromAt(v, c[1..], i - 1);
      assert c[..i + 1] == [c[0]] + c[1..][..i];
      LastPresentCons(c[0], c[1..][..i]);
    }
  }

  /** Forward fill gives every position the last present value at or before it. */
  lemma ForwardFillAt(c: Column, i: int)
    requires 0 <= i < |c|
    ensures ForwardFill(c)[i] == LastPresent(c[..i + 1])
  {
    ForwardFillFromAt(None, c, i);
  }

  /** Back fill gives every position the first present value at or after it. */
  lemma {:induction false} BackFillAt(c: Column, i: int)
    requires 0 <= i < |c|
    ensures BackFill(c)[i] == FirstPresent(c[i..])
  {
    if i == 0 {
      if c[0].None? && |c| > 1 {
        BackFillAt(c[1..], 0);
      }
      if |c| == 1 {
        assert c[1..] == [];
      }
    } else {
      BackFillAt(c[1..], i - 1);
      assert c[1..][i - 1..] == c[i..];
    }
  }

  /** After a forward fill, the positions from `i` on hold nothing new as
      long as nothing before `i` was present. */
  lemma {:induction false} FirstPresentAfterLeadingGap(c: Column, i: int)
    requires 0 <= i <= |c|
    requires LastPresent(c[..i]).None?
    ensures FirstPresent(ForwardFill(c)[i..]) == FirstPresent(c[i..])
    decreases |c| - i
  {
    if i < |c| {
      var ff := ForwardFill(c);
      ForwardFillAt(c, i);
      assert c[..i + 1][..i] == c[..i];
      if c[i].None? {
        assert ff[i..][1..] == ff[i + 1..];
        assert c[i..][1..] == c[i + 1..];
        FirstPresentAfterLeadingGap(c, i + 1);
      }
    }
  }

  /** The fill policy at one position: the nearest earlier-or-same present
      value, else the nearest later one, else the default. */
  lemma FillGapsAt(c: Column, d: real, i: int)
    requires 0 <= i < |c|
    ensures FillGaps(c, d)[i] == LastPresent(c[..i + 1]).GetOr(FirstPresent(c[i..]).GetOr(d))
  {
    var ff := ForwardFill(c);
    ForwardFillAt(c, i);
    BackFillAt(ff, i);
    if LastPresent(c[..i + 1]).None? {
      assert c[..i + 1][..i] == c[..i];
      FirstPresentAfterLeadingGap(c, i);
    }
  }

  // ---- the fill policy, position by position ----

  /** A value that was present is left unchanged. */
  lemma FillKeepsPresent(c: Column, d: real, i: int)
    requires 0 <= i < |c| && c[i].Some?
    ensures FillGaps(c, d)[i] == c[i].value
  {
    FillGapsAt(c, d, i);
    LastPresentAt(c[..i + 1], i);
  }

  /** A missing value takes the nearest earlier present value. */
  lemma FillTakesNearestEarlier(c: Column, d: real, i: int, j: int)
    requires 0 <= j < i < |c| && c[j].Some?
    requires forall k :: j < k <= i ==> c[k].None?
    ensures FillGaps(c, d)[i] == c[j].value
  {
    FillGapsAt(c, d, i);
    LastPresentAt(c[..i + 1], j);
  }

  /** A missing value with nothing present before it takes the nearest later
      present value. */
  lemma FillTakesNearestLater(c: Column, d: real, i: int, j: int)
    requires 0 <= i < j < |c| && c[j].Some?
    requires forall k :: 0 <= k < j ==> c[k].None?
    ensures FillGaps(c, d)[i] == c[j].value
  {
    FillGapsAt(c, d, i);
    LastPresentNone(c[..i + 1]);
    FirstPresentAt(c[i..], j - i);
  }

  /** A column with no present value becomes the default everywhere. */
  lemma FillDefaultsEmptyColumn(c: Column, d: real)
    requires forall k :: 0 <= k < |c| ==> c[k].None?
    ensures forall i :: 0 <= i < |c| ==> FillGaps(c, d)[i] == d
  {
    forall i | 0 <= i < |c|
      ensures FillGaps(c, d)[i] == d
    {
      FillGapsAt(c, d, i);
      LastPresentNone(c[..i + 1]);
      FirstPresentNone(c[i..]);
    }
  }

  /** A column made only of missing values, as for an absent source column. */
  function AllMissing(n: nat): (c: Column)
    ensures |c| == n && forall k :: 0 <= k < n ==> c[k].None?
  {
    seq(n, k => None)
  }

  /** The gaps `[None, None, 5, None]` are all filled with 5. */
  lemma FillExample()
    ensures FillGaps([None, None, Some(5.0), None], 0.0) == [5.0, 5.0, 5.0, 5.0]
  {
    var c: Column := [None, None, Some(5.0), None];
    FillTakesNearestLater(c, 0.0, 0, 2);
    FillTakesNearestLater(c, 0.0, 1, 2);
    FillKeepsPresent(c, 0.0, 2);
    FillTakesNearestEarlier(c, 0.0, 3, 2);
  }
}
