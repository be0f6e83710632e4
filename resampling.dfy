/**
 * `_apply_resampling`'s aggregation: the count-based ("trading-day") grouping used for the
 * 2Y and 3Y windows, the routing of a resample rule to that grouping, to pandas' calendar
 * resampling, or to no resampling at all.
 */
module Resampling {
  import opened Wrappers
  import opened Calendar
  import opened Text
  import opened Bars

  function Min(a: int, b: int): int {
    if a <= b then a else b
  }

  /** One group's row: open of the first member, close of the last, the highest high, the
    * lowest low, the summed volume; its timestamp is the last member's and its
    * `period_start` the first member's. Indicator columns are not carried over. */
  function Aggregate(g: seq<Bar>): (r: Bar)
    requires |g| > 0
    ensures r.time == g[|g| - 1].time && r.periodStart == Some(g[0].time)
    ensures r.open == g[0].open && r.close == g[|g| - 1].close && r.volume == SumVolume(g)
    ensures forall i :: 0 <= i < |g| ==> r.low <= g[i].low && g[i].high <= r.high
  {
    MaxHighIsMaximum(g);
    MinLowIsMinimum(g);
    Bar(g[|g| - 1].time, g[0].open, MaxHigh(g), MinLow(g), g[|g| - 1].close, SumVolume(g), Some(g[0].time), map[])
  }

  /** The aggregated bar's range covers every member's range, and its high and low are
    * attained by members. */
  lemma AggregateRange(g: seq<Bar>)
    requires |g| > 0
    ensures forall i :: 0 <= i < |g| ==> Aggregate(g).low <= g[i].low && g[i].high <= Aggregate(g).high
    ensures exists i :: 0 <= i < |g| && g[i].high == Aggregate(g).high
    ensures exists i :: 0 <= i < |g| && g[i].low == Aggregate(g).low
  {
    MaxHighIsMaximum(g);
    MinLowIsMinimum(g);
  }

  /** `groupby(position // n)` with the aggregation above: every `n` consecutive bars become
    * one, and a shorter trailing group is kept. The output has ceil(|s| / n) bars. */
  function CountResample(s: seq<Bar>, n: nat): (r: seq<Bar>)
    requires n >= 1
    ensures |s| == 0 <==> |r| == 0
    ensures |r| <= |s|
    decreases |s|
  {
    if |s| == 0 then []
    else if |s| <= n then [Aggregate(s)]
    else [Aggregate(s[..n])] + CountResample(s[n..], n)
  }

  /** The number of groups `groupby(position // n)` forms over `len` rows. */
  function GroupCount(len: nat, n: nat): nat
    requires n >= 1
    decreases len
  {
    if len == 0 then 0 else if len <= n then 1 else 1 + GroupCount(len - n, n)
  }

  lemma {:induction false} CountResampleCount(s: seq<Bar>, n: nat)
    requires n >= 1
    ensures |CountResample(s, n)| == GroupCount(|s|, n)
    decreases |s|
  {
    if |s| > n {
      CountResampleCount(s[n..], n);
    }
  }

  /** GroupCount is ceil(len / n). */
  lemma {:induction false} GroupCountIsCeiling(len: nat, n: nat)
    requires n >= 1
    ensures GroupCount(len, n) == (len + n - 1) / n
    decreases len
  {
    if len == 0 {
      DivisionUnique(n - 1, n, 0);
    } else if len <= n {
      DivisionUnique(len + n - 1, n, 1);
    } else {
      GroupCountIsCeiling(len - n, n);
      DivShift(len - 1, n);
    }
  }

  /** Adding n to x adds one to x / n. */
  lemma DivShift(x: nat, n: nat)
    requires n >= 1
    ensures (x + n) / n == x / n + 1
  {
    var q := x / n;
    assert q * n <= x < q * n + n;
    MultiplySucc(q, n);
    DivisionUnique(x + n, n, q + 1);
  }

  /** The output length is exactly ceil(|s| / n). */
  lemma CountResampleLength(s: seq<Bar>, n: nat)
    requires n >= 1
    ensures |CountResample(s, n)| == (|s| + n - 1) / n
  {
    CountResampleCount(s, n);
    GroupCountIsCeiling(|s|, n);
  }

  lemma DivisionUnique(x: int, n: int, k: int)
    requires n >= 1 && k * n <= x < k * n + n
    ensures x / n == k
  {
    var q := x / n;
    assert q * n <= x < q * n + n;
    if q < k {
      MultiplyAscends(q, k, n);
      assert false;
    }
    if q > k {
      MultiplyAscends(k, q, n);
      assert false;
    }
  }

  lemma MultiplySucc(k: int, n: int)
    ensures (k + 1) * n == k * n + n
  {
  }

  lemma MultiplyAscends(a: int, b: int, n: int)
    requires a < b && n >= 1
    ensures a * n + n <= b * n
  {
    assert (b - a - 1) * n >= 0;
  }

  /** What is left after dropping `g` groups of `n` rows. */
  function DropGroups(s: seq<Bar>, n: nat, g: nat): seq<Bar>
    requires n >= 1
    decreases g
  {
    if g == 0 || |s| <= n then (if g == 0 then s else []) else DropGroups(s[n..], n, g - 1)
  }

  /** The first group of a series: its first min(n, |s|) rows. */
  function FirstGroup(s: seq<Bar>, n: nat): seq<Bar> {
    if |s| <= n then s else s[..n]
  }

  /** Group `g` aggregates the first group of what remains after `g` groups. */
  lemma {:induction false} CountResampleNth(s: seq<Bar>, n: nat, g: nat)
    requires n >= 1 && g < |CountResample(s, n)|
    ensures |DropGroups(s, n, g)| > 0
    ensures CountResample(s, n)[g] == Aggregate(FirstGroup(DropGroups(s, n, g), n))
    decreases g
  {
    if g > 0 {
      assert |s| > n;
      assert CountResample(s, n)[g] == CountResample(s[n..], n)[g - 1];
      CountResampleNth(s[n..], n, g - 1);
    }
  }

  /** Dropping g groups, while rows remain, drops the first g*n rows. */
  lemma {:induction false} DropGroupsIsSuffix(s: seq<Bar>, n: nat, g: nat)
    requires n >= 1 && |DropGroups(s, n, g)| > 0
    ensures 0 <= g * n < |s| && DropGroups(s, n, g) == s[g * n..]
    decreases g
  {
    if g > 0 {
      DropGroupsIsSuffix(s[n..], n, g - 1);
      MultiplySucc(g - 1, n);
      MultiplyNonNegative(g - 1, n);
    }
  }

  lemma MultiplyNonNegative(a: nat, b: nat)
    ensures a * b >= 0
  {
  }

  /** Group `g` aggregates exactly positions g*n .. min(g*n+n, |s|)-1 of the input. */
  lemma CountResampleGroup(s: seq<Bar>, n: nat, g: nat)
    requires n >= 1 && g < |CountResample(s, n)|
    ensures 0 <= g * n < |s|
    ensures CountResample(s, n)[g] == Aggregate(s[g * n .. Min(g * n + n, |s|)])
  {
    CountResampleNth(s, n, g);
    DropGroupsIsSuffix(s, n, g);
    FirstGroupOfSuffix(s, g * n, n);
  }

  /** The first group of the rows from `start` on is rows start .. min(start+n, |s|)-1. */
  lemma FirstGroupOfSuffix(s: seq<Bar>, start: nat, n: nat)
    requires start <= |s|
    ensures FirstGroup(s[start..], n) == s[start .. Min(start + n, |s|)]
  {
  }

  lemma MemberOfGroup(s: seq<Bar>, lo: nat, hi: nat, i: nat)
    requires lo <= i < hi <= |s|
    ensures Aggregate(s[lo..hi]).low <= s[i].low && s[i].high <= Aggregate(s[lo..hi]).high
  {
    AggregateRange(s[lo..hi]);
    assert s[lo..hi][i - lo] == s[i];
  }

  /** Every input bar lies inside its group's high-low range. */
  lemma CountResampleBounds(s: seq<Bar>, n: nat, g: nat, i: nat)
    requires n >= 1 && g < |CountResample(s, n)|
    requires g * n <= i < g * n + n && i < |s|
    ensures CountResample(s, n)[g].low <= s[i].low
    ensures s[i].high <= CountResample(s, n)[g].high
  {
    CountResampleGroup(s, n, g);
    var start := g * n;
    var end := Min(start + n, |s|);
    MemberOfGroup(s, start, end, i);
  }

  /** Aggregation keeps the total volume. */
  lemma {:induction false} CountResampleVolume(s: seq<Bar>, n: nat)
    requires n >= 1
    ensures SumVolume(CountResample(s, n)) == SumVolume(s)
    decreases |s|
  {
    if |s| == 0 {
    } else if |s| <= n {
      assert [Aggregate(s)][1..] == [];
    } else {
      var rest := CountResample(s[n..], n);
      CountResampleVolume(s[n..], n);
      assert ([Aggregate(s[..n])] + rest)[1..] == rest;
      assert s == s[..n] + s[n..];
      SumVolumeConcat(s[..n], s[n..]);
    }
  }

  /** Putting an earlier bar in front of a strictly increasing series keeps it so. */
  lemma PrependIncreasing(head: Bar, rest: seq<Bar>)
    requires StrictlyIncreasing(rest)
    requires rest != [] ==> head.time < rest[0].time
    ensures StrictlyIncreasing([head] + rest)
  {
    var u := [head] + rest;
    forall i, j | 0 <= i < j < |u|
      ensures u[i].time < u[j].time
    {
      if i == 0 && j > 1 {
        assert rest[0].time < rest[j - 1].time;
      }
    }
  }

  /** Each output bar is stamped with its group's last timestamp and carries its group's
    * first timestamp as `period_start`. */
  lemma CountResampleStamps(s: seq<Bar>, n: nat, j: nat)
    requires n >= 1 && j < |CountResample(s, n)|
    ensures j * n < |s|
    ensures CountResample(s, n)[j].periodStart == Some(s[j * n].time)
    ensures CountResample(s, n)[j].time == s[Min(j * n + n, |s|) - 1].time
  {
    CountResampleGroup(s, n, j);
  }

  /** Every output bar's `period_start` is its group's first timestamp and its own
    * timestamp its group's last, so on an increasing series `period_start` lies between
    * the series' first timestamp and the bar's own. */
  lemma CountResamplePeriodStarts(s: seq<Bar>, n: nat)
    requires n >= 1 && StrictlyIncreasing(s)
    ensures forall j :: 0 <= j < |CountResample(s, n)| ==>
      j * n < |s| && CountResample(s, n)[j].periodStart == Some(s[j * n].time)
      && CountResample(s, n)[j].time == s[Min(j * n + n, |s|) - 1].time
    ensures forall j :: 0 <= j < |CountResample(s, n)| ==>
      CountResample(s, n)[j].periodStart.Some? &&
      s[0].time <= CountResample(s, n)[j].periodStart.value <= CountResample(s, n)[j].time
  {
    var r := CountResample(s, n);
    forall j | 0 <= j < |r|
      ensures j * n < |s| && r[j].periodStart == Some(s[j * n].time) && r[j].time == s[Min(j * n + n, |s|) - 1].time
      ensures s[0].time <= r[j].periodStart.value <= r[j].time
    {
      CountResampleStamps(s, n, j);
      var first, last := j * n, Min(j * n + n, |s|) - 1;
      assert first <= last;
      assert s[0].time <= s[first].time <= s[last].time;
    }
  }

  /** On a strictly increasing series the output is strictly increasing too. */
  lemma {:induction false} CountResampleOrdered(s: seq<Bar>, n: nat)
    requires n >= 1 && StrictlyIncreasing(s)
    ensures StrictlyIncreasing(CountResample(s, n))
    decreases |s|
  {
    if |s| > n {
      var t := s[n..];
      CountResampleOrdered(t, n);
      CountResamplePeriodStarts(t, n);
      var head := Aggregate(s[..n]);
      var rest := CountResample(t, n);
      assert head.time == s[n - 1].time < t[0].time;
      PrependIncreasing(head, rest);
    }
  }

  /** Seven daily bars grouped by three give groups of 3, 3 and 1 bars; the last group's
    * `period_start` is its single bar's own timestamp. */
  lemma SevenBarsByThree(s: seq<Bar>)
    requires |s| == 7
    ensures |CountResample(s, 3)| == 3
    ensures CountResample(s, 3)[0] == Aggregate(s[0..3])
    ensures CountResample(s, 3)[1] == Aggregate(s[3..6])
    ensures CountResample(s, 3)[2] == Aggregate(s[6..7])
    ensures CountResample(s, 3)[2].periodStart == Some(s[6].time)
  {
    CountResampleLength(s, 3);
    CountResampleGroup(s, 3, 0);
    CountResampleGroup(s, 3, 1);
    CountResampleGroup(s, 3, 2);
  }

  /** Which path `_apply_resampling` takes for a rule. */
  datatype Route =
    | NoResampling              // no rule, or the empty rule
    | CountGroups(n: nat)       // "<n>D" with an integer prefix
    | CountFallback             // ends in "D" but the prefix is not an integer
    | CalendarPeriods(rule: string)  // any other rule, handed to pandas' resample

  predicate EndsWithD(rule: string) {
    |rule| > 0 && rule[|rule| - 1] == 'D'
  }

  function RouteOf(rule: Option<string>): (r: Route)
    ensures r.CountGroups? <==> rule.Some? && EndsWithD(rule.value) && ParseNat(rule.value[..|rule.value| - 1]).Some?
    ensures r.CountGroups? ==> r.n == ParseNat(rule.value[..|rule.value| - 1]).value
    ensures r.CountFallback? <==> rule.Some? && EndsWithD(rule.value) && ParseNat(rule.value[..|rule.value| - 1]).None?
    ensures r.CalendarPeriods? <==> rule.Some? && rule.value != [] && !EndsWithD(rule.value)
    ensures r.NoResampling? <==> rule.None? || rule == Some([])
  {
    match rule
    case None => NoResampling
    case Some(text) =>
      if text == [] then NoResampling
      else if EndsWithD(text) then
        match ParseNat(text[..|text| - 1])
        case Some(n) => CountGroups(n)
        case None => CountFallback
      else CalendarPeriods(text)
  }

  /** What `_apply_resampling` produces: the resampled bars, or, for the rule "0D", the
    * group ids pandas derives from a floor division by zero, which this model does not
    * follow (no window produces that rule). */
  datatype Outcome = Resampled(bars: seq<Bar>) | ZeroGroupSize

  /** The resampled series for a rule; `calendar` stands for pandas'
    * `resample(rule).agg(...).dropna()`. */
  function Resample(raw: seq<Bar>, rule: Option<string>, calendar: (seq<Bar>, string) -> seq<Bar>): (r: Outcome)
    ensures RouteOf(rule).NoResampling? || RouteOf(rule).CountFallback? ==> r == Resampled(raw)
    ensures RouteOf(rule).CalendarPeriods? ==> r == Resampled(calendar(raw, rule.value))
    ensures r.ZeroGroupSize? <==> RouteOf(rule) == CountGroups(0)
  {
    match RouteOf(rule)
    case NoResampling => Resampled(raw)
    case CountFallback => Resampled(raw)
    case CalendarPeriods(p) => Resampled(calendar(raw, p))
    case CountGroups(n) => if n == 0 then ZeroGroupSize else Resampled(CountResample(raw, n))
  }

  /** A rule "<n>D" with n >= 1 groups every n bars; output length ceil(|raw|/n). */
  lemma CountRuleShape(raw: seq<Bar>, n: nat, calendar: (seq<Bar>, string) -> seq<Bar>)
    requires n >= 1
    ensures Resample(raw, Some(NatText(n) + "D"), calendar) == Resampled(CountResample(raw, n))
    ensures |CountResample(raw, n)| == (|raw| + n - 1) / n
  {
    var rule := NatText(n) + "D";
    assert rule[..|rule| - 1] == NatText(n);
    CountResampleLength(raw, n);
  }
}
