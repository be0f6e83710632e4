/**
 * The price bar: one row of the chart's DataFrame. Columns that pandas may leave missing
 * are optional; the moving-average columns are a map from window length to value, with
 * a window absent from the map where the column holds NaN.
 */
module Bars {
  import opened Wrappers
  import opened Calendar

  datatype Bar = Bar(
    time: Instant,
    open: real,
    high: real,
    low: real,
    close: real,
    volume: real,
    periodStart: Option<Instant>,
    ma: map<nat, real>)

  /** `max(0, min(k, n - 1))`: the cursor's position inside the chart, and a price's bin
    * inside the profile. */
  function Clamp(k: int, n: nat): (r: nat)
    requires n >= 1
    ensures r < n
    ensures 0 <= k < n ==> r == k
    ensures k < 0 ==> r == 0
    ensures k >= n ==> r == n - 1
  {
    if k < 0 then 0 else if k > n - 1 then n - 1 else k
  }

  /** A bar as the data provider delivers it: no `period_start` and no indicator columns. */
  function ProviderBar(time: Instant, open: real, high: real, low: real, close: real, volume: real): Bar {
    Bar(time, open, high, low, close, volume, None, map[])
  }

  /** The series' index is strictly increasing: no two rows share a timestamp. */
  predicate StrictlyIncreasing(s: seq<Bar>) {
    forall i, j :: 0 <= i < j < |s| ==> s[i].time < s[j].time
  }

  predicate HasDuplicateTimes(s: seq<Bar>) {
    exists i, j :: 0 <= i < j < |s| && s[i].time == s[j].time
  }

  function Times(s: seq<Bar>): (r: seq<Instant>)
    ensures |r| == |s| && forall i :: 0 <= i < |s| ==> r[i] == s[i].time
  {
    seq(|s|, i requires 0 <= i < |s| => s[i].time)
  }

  /** `df['volume'].sum()`. */
  function SumVolume(s: seq<Bar>): real
    decreases |s|
  {
    if s == [] then 0.0 else s[0].volume + SumVolume(s[1..])
  }

  lemma {:induction false} SumVolumeConcat(a: seq<Bar>, b: seq<Bar>)
    ensures SumVolume(a + b) == SumVolume(a) + SumVolume(b)
    decreases |a|
  {
    if a != [] {
      assert (a + b)[0] == a[0] && (a + b)[1..] == a[1..] + b;
      SumVolumeConcat(a[1..], b);
    } else {
      assert a + b == b;
    }
  }

  /** `df['high'].max()` of a non-empty series (see MaxHighIsMaximum). */
  function MaxHigh(s: seq<Bar>): real
    requires |s| > 0
    decreases |s|
  {
    if |s| == 1 then s[0].high
    else if s[0].high >= MaxHigh(s[1..]) then s[0].high else MaxHigh(s[1..])
  }

  /** `df['low'].min()` of a non-empty series (see MinLowIsMinimum). */
  function MinLow(s: seq<Bar>): real
    requires |s| > 0
    decreases |s|
  {
    if |s| == 1 then s[0].low
    else if s[0].low <= MinLow(s[1..]) then s[0].low else MinLow(s[1..])
  }

  /** `df.index.max()` of a non-empty series (see MaxTimeIsMaximum). */
  function MaxTime(s: seq<Bar>): Instant
    requires |s| > 0
    decreases |s|
  {
    if |s| == 1 then s[0].time
    else if s[0].time >= MaxTime(s[1..]) then s[0].time else MaxTime(s[1..])
  }

  /** `df.index.min()` of a non-empty series (see MinTimeIsMinimum). */
  function MinTime(s: seq<Bar>): Instant
    requires |s| > 0
    decreases |s|
  {
    if |s| == 1 then s[0].time
    else if s[0].time <= MinTime(s[1..]) then s[0].time else MinTime(s[1..])
  }

  /** MaxHigh bounds every high from above and is some bar's high. */
  lemma {:induction false} MaxHighIsMaximum(s: seq<Bar>)
    requires |s| > 0
    ensures forall i :: 0 <= i < |s| ==> s[i].high <= MaxHigh(s)
    ensures exists i :: 0 <= i < |s| && s[i].high == MaxHigh(s)
    decreases |s|
  {
    if |s| == 1 {
      assert s[0].high == MaxHigh(s);
    } else {
      MaxHighIsMaximum(s[1..]);
      assert forall i :: 1 <= i < |s| ==> s[i] == s[1..][i - 1];
      var k :| 0 <= k < |s[1..]| && s[1..][k].high == MaxHigh(s[1..]);
      if s[0].high < MaxHigh(s[1..]) {
        assert s[k + 1].high == MaxHigh(s);
      } else {
        assert s[0].high == MaxHigh(s);
      }
    }
  }

  /** MinLow bounds every low from below and is some bar's low. */
  lemma {:induction false} MinLowIsMinimum(s: seq<Bar>)
    requires |s| > 0
    ensures forall i :: 0 <= i < |s| ==> MinLow(s) <= s[i].low
    ensures exists i :: 0 <= i < |s| && s[i].low == MinLow(s)
    decreases |s|
  {
    if |s| == 1 {
      assert s[0].low == MinLow(s);
    } else {
      MinLowIsMinimum(s[1..]);
      assert forall i :: 1 <= i < |s| ==> s[i] == s[1..][i - 1];
      var k :| 0 <= k < |s[1..]| && s[1..][k].low == MinLow(s[1..]);
      if s[0].low > MinLow(s[1..]) {
        assert s[k + 1].low == MinLow(s);
      } else {
        assert s[0].low == MinLow(s);
      }
    }
  }

  /** MinTime bounds every timestamp from below and is some bar's timestamp. */
  lemma {:induction false} MinTimeIsMinimum(s: seq<Bar>)
    requires |s| > 0
    ensures forall i :: 0 <= i < |s| ==> MinTime(s) <= s[i].time
    ensures exists i :: 0 <= i < |s| && s[i].time == MinTime(s)
    decreases |s|
  {
    if |s| == 1 {
      assert s[0].time == MinTime(s);
    } else {
      MinTimeIsMinimum(s[1..]);
      assert forall i :: 1 <= i < |s| ==> s[i] == s[1..][i - 1];
      var k :| 0 <= k < |s[1..]| && s[1..][k].time == MinTime(s[1..]);
      if s[0].time > MinTime(s[1..]) {
        assert s[k + 1].time == MinTime(s);
      } else {
        assert s[0].time == MinTime(s);
      }
    }
  }

  /** MaxTime bounds every timestamp from above and is some bar's timestamp. */
  lemma {:induction false} MaxTimeIsMaximum(s: seq<Bar>)
    requires |s| > 0
    ensures forall i :: 0 <= i < |s| ==> s[i].time <= MaxTime(s)
    ensures exists i :: 0 <= i < |s| && s[i].time == MaxTime(s)
    decreases |s|
  {
    if |s| == 1 {
      assert s[0].time == MaxTime(s);
    } else {
      MaxTimeIsMaximum(s[1..]);
      assert forall i :: 1 <= i < |s| ==> s[i] == s[1..][i - 1];
      var k :| 0 <= k < |s[1..]| && s[1..][k].time == MaxTime(s[1..]);
      if s[0].time < MaxTime(s[1..]) {
        assert s[k + 1].time == MaxTime(s);
      } else {
        assert s[0].time == MaxTime(s);
      }
    }
  }
}
