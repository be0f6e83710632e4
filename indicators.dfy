/**
 * `_calculate_indicators`' simple moving averages: for each window length `w` a column
 * `ma<w>` holding `close.rolling(window=w).mean()`, computed over the whole resampled
 * series. A position with fewer than `w` rows behind it holds NaN, which the model
 * represents by leaving the window out of the bar's `ma` map.
 */
module Indicators {
  import opened Wrappers
  import opened Bars

  /** The window lengths of the moving-average columns, in the order they are added. */
  const MaWindows: seq<nat> := [5, 20, 50, 60, 100, 120, 200]

  function SumClose(s: seq<Bar>): real
    decreases |s|
  {
    if s == [] then 0.0 else s[0].close + SumClose(s[1..])
  }

  /** `close.rolling(window=w).mean()` at position `i`: the mean close of positions
    * i-w+1 .. i, or None (NaN) when fewer than `w` rows end at `i`. */
  function RollingMean(s: seq<Bar>, i: nat, w: nat): (m: Option<real>)
    requires i < |s| && w >= 1
    ensures m.Some? <==> i + 1 >= w
  {
    if i + 1 < w then None else Some(SumClose(s[i + 1 - w .. i + 1]) / (w as real))
  }

  /** The defined moving averages at position `i`, keyed by window length. */
  function MovingAverages(s: seq<Bar>, i: nat): map<nat, real>
    requires i < |s|
  {
    map w | w in MaWindows && 1 <= w <= i + 1 :: RollingMean(s, i, w).value
  }

  /** The series with the seven moving-average columns (re)assigned. */
  function WithMovingAverages(s: seq<Bar>): (r: seq<Bar>)
    ensures |r| == |s|
  {
    seq(|s|, i requires 0 <= i < |s| => s[i].(ma := (s[i].ma - (set w | w in MaWindows)) + MovingAverages(s, i)))
  }

  /** The columns are added in place: the timestamps stay as they were. */
  lemma MovingAveragesKeepTimes(s: seq<Bar>)
    ensures Times(WithMovingAverages(s)) == Times(s)
  {
    forall i | 0 <= i < |s|
      ensures WithMovingAverages(s)[i].time == s[i].time
    {
      MovingAveragesOnlyAddColumns(s, i, 0);
    }
  }

  /** Adding the columns changes no price, volume, timestamp or period start, and keeps
    * any column that is not a moving average. */
  lemma MovingAveragesOnlyAddColumns(s: seq<Bar>, i: nat, k: nat)
    requires i < |s|
    ensures var b := WithMovingAverages(s)[i];
      b.time == s[i].time && b.open == s[i].open && b.high == s[i].high && b.low == s[i].low
      && b.close == s[i].close && b.volume == s[i].volume && b.periodStart == s[i].periodStart
    ensures k !in MaWindows ==>
      (k in WithMovingAverages(s)[i].ma <==> k in s[i].ma) &&
      (k in s[i].ma ==> WithMovingAverages(s)[i].ma[k] == s[i].ma[k])
  {
  }

  /** `ma<w>` is defined at position `i` exactly when i >= w - 1, and then it is the mean
    * close of the last `w` rows. */
  lemma MovingAverageDefinedFrom(s: seq<Bar>, i: nat, w: nat)
    requires i < |s| && w in MaWindows
    ensures w in WithMovingAverages(s)[i].ma <==> i >= w - 1
    ensures i >= w - 1 ==>
      WithMovingAverages(s)[i].ma[w] == SumClose(s[i + 1 - w .. i + 1]) / (w as real)
  {
  }

  /** The sum over a range is bounded by the range's count times any close bounds. */
  lemma {:induction false} SumCloseBetween(s: seq<Bar>, lo: real, hi: real)
    requires forall j :: 0 <= j < |s| ==> lo <= s[j].close <= hi
    ensures (|s| as real) * lo <= SumClose(s) <= (|s| as real) * hi
    decreases |s|
  {
    if s != [] {
      assert forall j :: 0 <= j < |s| - 1 ==> s[1..][j] == s[j + 1];
      SumCloseBetween(s[1..], lo, hi);
    }
  }

  /** A moving average lies between the lowest and the highest close of its window. */
  lemma MovingAverageWithinCloses(s: seq<Bar>, i: nat, w: nat, lo: real, hi: real)
    requires i < |s| && w in MaWindows && i >= w - 1
    requires forall j :: i + 1 - w <= j <= i ==> lo <= s[j].close <= hi
    ensures lo <= WithMovingAverages(s)[i].ma[w] <= hi
  {
    var win := s[i + 1 - w .. i + 1];
    assert forall j :: 0 <= j < |win| ==> win[j] == s[i + 1 - w + j];
    SumCloseBetween(win, lo, hi);
    MeanBetween(SumClose(win), w as real, lo, hi);
    MovingAverageDefinedFrom(s, i, w);
  }

  lemma MeanBetween(sum: real, n: real, lo: real, hi: real)
    requires n > 0.0 && n * lo <= sum <= n * hi
    ensures lo <= sum / n <= hi
  {
  }

  /** Appending later bars leaves every earlier moving average as it was: each one only
    * looks backwards. */
  lemma MovingAveragesAreCausal(s: seq<Bar>, t: seq<Bar>, i: nat)
    requires i < |s|
    ensures WithMovingAverages(s + t)[i] == WithMovingAverages(s)[i]
  {
    var u := s + t;
    forall w | w in MaWindows && 1 <= w <= i + 1
      ensures u[i + 1 - w .. i + 1] == s[i + 1 - w .. i + 1]
    {
    }
    assert MovingAverages(u, i) == MovingAverages(s, i);
  }

  /** Two series with the same closes have the same moving averages. */
  lemma SameClosesSameAverages(a: seq<Bar>, b: seq<Bar>, i: nat)
    requires |a| == |b| && i < |a|
    requires forall j :: 0 <= j < |a| ==> a[j].close == b[j].close
    ensures MovingAverages(a, i) == MovingAverages(b, i)
  {
    forall w | w in MaWindows && 1 <= w <= i + 1
      ensures SumClose(a[i + 1 - w .. i + 1]) == SumClose(b[i + 1 - w .. i + 1])
    {
      SumCloseSameCloses(a[i + 1 - w .. i + 1], b[i + 1 - w .. i + 1]);
    }
  }

  /** Reassigning the same columns twice is reassigning them once. */
  lemma ReassignTwice(x: map<nat, real>, m: map<nat, real>, cols: set<nat>)
    requires m.Keys <= cols
    ensures (((x - cols) + m) - cols) + m == (x - cols) + m
  {
    assert ((x - cols) + m) - cols == x - cols;
  }

  /** Recomputing the columns on a series that already has them changes nothing. */
  lemma MovingAveragesIdempotent(s: seq<Bar>)
    ensures WithMovingAverages(WithMovingAverages(s)) == WithMovingAverages(s)
  {
    var r := WithMovingAverages(s);
    var cols := set w | w in MaWindows;
    forall i | 0 <= i < |s|
      ensures WithMovingAverages(r)[i] == r[i]
    {
      SameClosesSameAverages(r, s, i);
      ReassignTwice(s[i].ma, MovingAverages(s, i), cols);
    }
  }

  lemma {:induction false} SumCloseSameCloses(a: seq<Bar>, b: seq<Bar>)
    requires |a| == |b| && forall j :: 0 <= j < |a| ==> a[j].close == b[j].close
    ensures SumClose(a) == SumClose(b)
    decreases |a|
  {
    if a != [] {
      assert forall j :: 0 <= j < |a| - 1 ==> a[1..][j] == a[j + 1] && b[1..][j] == b[j + 1];
      SumCloseSameCloses(a[1..], b[1..]);
    }
  }
}
