/**
 * The binning of `_plot_volume_profile`: the price range of the bars is cut into equal
 * bins and every bar spreads its volume evenly over the bins its low-to-high range
 * touches. The bin count comes from the text of the "VP Mode" setting.
 */
module VolumeProfile {
  import opened Wrappers
  import opened Text
  import opened Bars

  /** The bin count used when the mode text does not give a positive integer. */
  const DefaultBins: nat := 100

  /** The modes the settings menu offers; "100 Bins" is selected at start-up. */
  const BinModes: seq<string> := ["100 Bins", "200 Bins", "400 Bins"]

  /** `int(mode.split()[0])`, with 100 where that raises or gives a count below 1. */
  function BinCount(mode: string): (n: nat)
    ensures n >= 1
    ensures n == DefaultBins || (FirstWord(mode).Some? && ParseNat(FirstWord(mode).value) == Some(n))
  {
    match FirstWord(mode)
    case None => DefaultBins
    case Some(word) =>
      match ParseNat(word)
      case None => DefaultBins
      case Some(k) => if k == 0 then DefaultBins else k
  }

  /** The word of a text that starts with a word and then a space is that word. */
  lemma {:induction false} TakeWordBeforeSpace(w: string, rest: string)
    requires forall i :: 0 <= i < |w| ==> !IsSpace(w[i])
    requires |rest| > 0 && IsSpace(rest[0])
    ensures TakeWord(w + rest) == w
    decreases |w|
  {
    if w == [] {
      assert w + rest == rest;
    } else {
      assert (w + rest)[1..] == w[1..] + rest;
      TakeWordBeforeSpace(w[1..], rest);
    }
  }

  /** A mode whose first word is a positive integer `k` followed by a space gives `k` bins. */
  lemma BinCountOfMode(word: string, k: nat, rest: string)
    requires ParseNat(word) == Some(k) && k >= 1
    requires |rest| > 0 && IsSpace(rest[0])
    ensures BinCount(word + rest) == k
  {
    assert forall i :: 0 <= i < |word| ==> !IsSpace(word[i]) by {
      forall i | 0 <= i < |word| ensures !IsSpace(word[i]) { assert IsDigit(word[i]); }
    }
    TakeWordBeforeSpace(word, rest);
    assert (word + rest)[0] == word[0];
  }

  /** The three menu modes give 100, 200 and 400 bins. */
  lemma MenuModes(mode: string)
    requires mode in BinModes
    ensures BinCount(mode) == if mode == BinModes[0] then 100 else if mode == BinModes[1] then 200 else 400
  {
    if mode == BinModes[0] {
      assert mode == ['1', '0', '0'] + " Bins";
      HundredsMode('1', 100);
    } else if mode == BinModes[1] {
      assert mode == ['2', '0', '0'] + " Bins";
      HundredsMode('2', 200);
    } else {
      assert mode == ['4', '0', '0'] + " Bins";
      HundredsMode('4', 400);
    }
  }

  lemma HundredsMode(lead: char, k: nat)
    requires IsDigit(lead) && k == 100 * (lead as int - '0' as int) && k >= 1
    ensures BinCount([lead, '0', '0'] + " Bins") == k
  {
    ThreeDigits(lead, '0', '0');
    BinCountOfMode([lead, '0', '0'], k, " Bins");
  }

  lemma ThreeDigits(a: char, b: char, c: char)
    requires IsDigit(a) && IsDigit(b) && IsDigit(c)
    ensures ParseNat([a, b, c]) ==
      Some(100 * (a as int - '0' as int) + 10 * (b as int - '0' as int) + (c as int - '0' as int))
  {
    assert [a, b, c][..2] == [a, b] && [a, b][..1] == [a] && [a][..0] == [];
    assert DigitsValue([a]) == a as int - '0' as int;
    assert DigitsValue([a, b]) == 10 * (a as int - '0' as int) + (b as int - '0' as int);
  }

  /** Text without a leading integer, or with 0, falls back to 100 bins. */
  lemma BinCountFallback(mode: string)
    requires FirstWord(mode).None? || ParseNat(FirstWord(mode).value).None? || ParseNat(FirstWord(mode).value) == Some(0)
    ensures BinCount(mode) == DefaultBins
  {
  }

  /** `int(x)` on a float: truncation toward zero. */
  function Trunc(x: real): (k: int)
    ensures x >= 0.0 ==> 0 <= k && k as real <= x < k as real + 1.0
    ensures x < 0.0 ==> k <= 0 && k as real - 1.0 < x <= k as real
  {
    if x >= 0.0 then x.Floor else -((-x).Floor)
  }

  lemma TruncMonotone(x: real, y: real)
    requires 0.0 <= x <= y
    ensures Trunc(x) <= Trunc(y)
  {
  }

  /** The bin a price falls in, for bins of height `h` from `lo`, clamped to the range. */
  function BinOf(price: real, lo: real, h: real, n: nat): (k: nat)
    requires h != 0.0 && n >= 1
    ensures k < n
  {
    Clamp(Trunc((price - lo) / h), n)
  }

  /** `n` empty bins: `[0] * num_bins`. */
  function Zeros(n: nat): (r: seq<real>)
    ensures |r| == n && forall k :: 0 <= k < n ==> r[k] == 0.0
  {
    seq(n, _ => 0.0)
  }

  /** Bins `s` .. `i - 1` raised by `share`. */
  function Spread(acc: seq<real>, s: int, i: int, share: real): (r: seq<real>)
    ensures |r| == |acc|
  {
    seq(|acc|, k requires 0 <= k < |acc| => if s <= k < i then acc[k] + share else acc[k])
  }

  /** One bar's volume added to the bins from `s` to `e`: the whole volume to a single bin,
    * an equal share to each bin of a wider range, nothing where the range is empty. */
  function Deposit(acc: seq<real>, s: nat, e: nat, volume: real): (r: seq<real>)
    requires s < |acc| && e < |acc|
    ensures |r| == |acc|
  {
    if s == e then acc[s := acc[s] + volume]
    else if e < s then acc
    else Spread(acc, s, e + 1, volume / ((e - s + 1) as real))
  }

  /** The bins after the bars, in order, have been deposited. */
  function Accumulate(bars: seq<Bar>, lo: real, h: real, n: nat): (r: seq<real>)
    requires h != 0.0 && n >= 1
    ensures |r| == n
    decreases |bars|
  {
    if bars == [] then Zeros(n)
    else
      var b := bars[|bars| - 1];
      Deposit(Accumulate(bars[..|bars| - 1], lo, h, n), BinOf(b.low, lo, h, n), BinOf(b.high, lo, h, n), b.volume)
  }

  /** The lowest price and the height of a bin. */
  datatype Scale = Scale(priceMin: real, binHeight: real)

  /** What is drawn: nothing where the bin height is zero, otherwise the bins, whose scale
    * pandas leaves as NaN when there are no bars. */
  datatype Profile = NoProfile | Histogram(scale: Option<Scale>, volumes: seq<real>)

  /** The volume profile of `bars` under the bin mode `mode`. */
  function ProfileOf(bars: seq<Bar>, mode: string): (p: Profile)
    ensures p.Histogram? ==> |p.volumes| == BinCount(mode)
    ensures p.NoProfile? <==> bars != [] && MaxHigh(bars) == MinLow(bars)
    ensures bars == [] ==> p == Histogram(None, Zeros(BinCount(mode)))
    ensures p.Histogram? && bars != [] ==>
      p.scale == Some(Scale(MinLow(bars), (MaxHigh(bars) - MinLow(bars)) / (BinCount(mode) as real)))
  {
    var n := BinCount(mode);
    if bars == [] then Histogram(None, Zeros(n))
    else
      var lo := MinLow(bars);
      var h := (MaxHigh(bars) - lo) / (n as real);
      QuotientIsZero(MaxHigh(bars) - lo, n);
      if h == 0.0 then NoProfile
      else Histogram(Some(Scale(lo, h)), Accumulate(bars, lo, h, n))
  }

  lemma QuotientIsZero(x: real, n: nat)
    requires n >= 1
    ensures x / (n as real) == 0.0 <==> x == 0.0
  {
    assert x == x / (n as real) * (n as real);
  }

  function Sum(xs: seq<real>): real
    decreases |xs|
  {
    if xs == [] then 0.0 else xs[0] + Sum(xs[1..])
  }

  lemma {:induction false} SumUpdate(xs: seq<real>, k: nat, x: real)
    requires k < |xs|
    ensures Sum(xs[k := xs[k] + x]) == Sum(xs) + x
    decreases |xs|
  {
    if k > 0 {
      assert xs[k := xs[k] + x][1..] == xs[1..][k - 1 := xs[1..][k - 1] + x];
      SumUpdate(xs[1..], k - 1, x);
    }
  }

  lemma {:induction false} SumSpread(acc: seq<real>, s: nat, i: nat, share: real)
    requires s <= i <= |acc|
    ensures Sum(Spread(acc, s, i, share)) == Sum(acc) + ((i - s) as real) * share
    decreases i - s
  {
    if i == s {
      assert Spread(acc, s, i, share) == acc;
    } else {
      SumSpread(acc, s, i - 1, share);
      SpreadStep(acc, s, i, share);
      var before := Spread(acc, s, i - 1, share);
      SumUpdate(before, i - 1, share);
      OneMoreShare(i - 1 - s, share);
    }
  }

  /** Raising one more bin is one more update. */
  lemma SpreadStep(acc: seq<real>, s: nat, i: nat, share: real)
    requires s < i <= |acc|
    ensures Spread(acc, s, i, share) == Spread(acc, s, i - 1, share)[i - 1 := Spread(acc, s, i - 1, share)[i - 1] + share]
  {
  }

  lemma OneMoreShare(k: nat, share: real)
    ensures ((k + 1) as real) * share == (k as real) * share + share
  {
  }

  /** A deposit whose range is not empty adds exactly the bar's volume to the total. */
  lemma DepositConserves(acc: seq<real>, s: nat, e: nat, volume: real)
    requires s <= e < |acc|
    ensures Sum(Deposit(acc, s, e, volume)) == Sum(acc) + volume
  {
    if s == e {
      SumUpdate(acc, s, volume);
    } else {
      SpreadConserves(acc, s, e, volume);
    }
  }

  lemma SpreadConserves(acc: seq<real>, s: nat, e: nat, volume: real)
    requires s < e < |acc|
    ensures Sum(Spread(acc, s, e + 1, volume / ((e - s + 1) as real))) == Sum(acc) + volume
  {
    var count := e - s + 1;
    var share := volume / (count as real);
    SumSpread(acc, s, e + 1, share);
    assert e + 1 - s == count;
    SharesAddUp(count, volume);
  }

  lemma SharesAddUp(count: nat, volume: real)
    requires count >= 1
    ensures (count as real) * (volume / (count as real)) == volume
  {
  }

  lemma {:induction false} SumZeros(n: nat)
    ensures Sum(Zeros(n)) == 0.0
  {
    if n > 0 {
      assert Zeros(n)[1..] == Zeros(n - 1);
      SumZeros(n - 1);
    }
  }

  /** Bars whose high is not below their low. */
  predicate WellFormed(bars: seq<Bar>) {
    forall i :: 0 <= i < |bars| ==> bars[i].low <= bars[i].high
  }

  /** On such a bar the start bin never lies after the end bin. */
  lemma BinsInOrder(b: Bar, lo: real, h: real, n: nat)
    requires h > 0.0 && n >= 1 && lo <= b.low <= b.high
    ensures BinOf(b.low, lo, h, n) <= BinOf(b.high, lo, h, n)
  {
    assert (b.low - lo) / h <= (b.high - lo) / h;
    TruncMonotone((b.low - lo) / h, (b.high - lo) / h);
  }

  lemma {:induction false} AccumulateConserves(bars: seq<Bar>, lo: real, h: real, n: nat)
    requires h > 0.0 && n >= 1 && WellFormed(bars)
    requires forall i :: 0 <= i < |bars| ==> lo <= bars[i].low
    ensures Sum(Accumulate(bars, lo, h, n)) == SumVolume(bars)
    decreases |bars|
  {
    if bars == [] {
      SumZeros(n);
    } else {
      var init := bars[..|bars| - 1];
      var b := bars[|bars| - 1];
      AccumulateConserves(init, lo, h, n);
      BinsInOrder(b, lo, h, n);
      DepositConserves(Accumulate(init, lo, h, n), BinOf(b.low, lo, h, n), BinOf(b.high, lo, h, n), b.volume);
      SumVolumeConcat(init, [b]);
      assert init + [b] == bars;
    }
  }

  /** Whatever is drawn holds all of the bars' volume: the bins sum to the total volume of
    * the bars, provided no bar's high lies below its low. */
  lemma ProfileConservesVolume(bars: seq<Bar>, mode: string)
    requires WellFormed(bars)
    ensures ProfileOf(bars, mode).Histogram? ==> Sum(ProfileOf(bars, mode).volumes) == SumVolume(bars)
  {
    if bars == [] {
      SumZeros(BinCount(mode));
    } else if ProfileOf(bars, mode).Histogram? {
      MinLowIsMinimum(bars);
      MaxHighIsMaximum(bars);
      var lo := MinLow(bars);
      var n := BinCount(mode);
      assert lo <= bars[0].low <= bars[0].high <= MaxHigh(bars);
      var h := (MaxHigh(bars) - lo) / (n as real);
      assert h > 0.0;
      AccumulateConserves(bars, lo, h, n);
    }
  }

  /** What one bar contributes to bin `k`. */
  function Share(b: Bar, lo: real, h: real, n: nat, k: nat): real
    requires h != 0.0 && n >= 1
  {
    var s := BinOf(b.low, lo, h, n);
    var e := BinOf(b.high, lo, h, n);
    if s == e then (if k == s then b.volume else 0.0)
    else if e < s then 0.0
    else if s <= k <= e then b.volume / ((e - s + 1) as real)
    else 0.0
  }

  /** The contributions of all bars to bin `k`. */
  function SumShares(bars: seq<Bar>, lo: real, h: real, n: nat, k: nat): real
    requires h != 0.0 && n >= 1
    decreases |bars|
  {
    if bars == [] then 0.0
    else SumShares(bars[..|bars| - 1], lo, h, n, k) + Share(bars[|bars| - 1], lo, h, n, k)
  }

  /** Each bin holds the sum of what every bar contributes to it. */
  lemma {:induction false} AccumulateIsSumOfShares(bars: seq<Bar>, lo: real, h: real, n: nat, k: nat)
    requires h != 0.0 && k < n
    ensures Accumulate(bars, lo, h, n)[k] == SumShares(bars, lo, h, n, k)
    decreases |bars|
  {
    if bars != [] {
      AccumulateIsSumOfShares(bars[..|bars| - 1], lo, h, n, k);
    }
  }

  lemma {:induction false} SumSharesConcat(u: seq<Bar>, v: seq<Bar>, lo: real, h: real, n: nat, k: nat)
    requires h != 0.0 && n >= 1
    ensures SumShares(u + v, lo, h, n, k) == SumShares(u, lo, h, n, k) + SumShares(v, lo, h, n, k)
    decreases |v|
  {
    if v == [] {
      assert u + v == u;
    } else {
      var w := v[..|v| - 1];
      assert (u + v)[..|u + v| - 1] == u + w;
      SumSharesConcat(u, w, lo, h, n, k);
    }
  }

  /** Reordering the bars does not change any bin's total. */
  lemma {:induction false} SumSharesPermutation(a: seq<Bar>, b: seq<Bar>, lo: real, h: real, n: nat, k: nat)
    requires h != 0.0 && n >= 1 && multiset(a) == multiset(b)
    ensures SumShares(a, lo, h, n, k) == SumShares(b, lo, h, n, k)
    decreases |a|
  {
    if a != [] {
      var x := a[|a| - 1];
      var init := a[..|a| - 1];
      assert a == init + [x];
      assert multiset(init) == multiset(a) - multiset{x};
      assert x in multiset(b);
      var j :| 0 <= j < |b| && b[j] == x;
      MultisetRemove(b, j);
      SumSharesPermutation(init, b[..j] + b[j + 1..], lo, h, n, k);
      SumSharesAround(b, j, lo, h, n, k);
    }
  }

  /** Taking element j out of a sequence takes one copy of it out of its multiset. */
  lemma MultisetRemove(b: seq<Bar>, j: nat)
    requires j < |b|
    ensures multiset(b[..j] + b[j + 1..]) == multiset(b) - multiset{b[j]}
  {
    assert b == b[..j] + [b[j]] + b[j + 1..];
  }

  /** Bin k's total is bar j's share plus the total of the other bars. */
  lemma SumSharesAround(b: seq<Bar>, j: nat, lo: real, h: real, n: nat, k: nat)
    requires h != 0.0 && n >= 1 && j < |b|
    ensures SumShares(b, lo, h, n, k)
         == SumShares(b[..j] + b[j + 1..], lo, h, n, k) + Share(b[j], lo, h, n, k)
  {
    assert b == b[..j] + [b[j]] + b[j + 1..];
    SumSharesConcat(b[..j] + [b[j]], b[j + 1..], lo, h, n, k);
    SumSharesConcat(b[..j], b[j + 1..], lo, h, n, k);
    assert (b[..j] + [b[j]])[..|b[..j] + [b[j]]| - 1] == b[..j];
  }

  /** Two orderings of the same bars have the same lowest low and highest high. */
  lemma ExtremesOfPermutation(a: seq<Bar>, b: seq<Bar>)
    requires |a| > 0 && multiset(a) == multiset(b)
    ensures |b| == |a| && MinLow(a) == MinLow(b) && MaxHigh(a) == MaxHigh(b)
  {
    assert |b| == |multiset(b)| == |a|;
    MinLowIsMinimum(a);
    MinLowIsMinimum(b);
    MaxHighIsMaximum(a);
    MaxHighIsMaximum(b);
    forall i | 0 <= i < |a| ensures a[i] in multiset(b) { assert a[i] in multiset(a); }
    forall i | 0 <= i < |b| ensures b[i] in multiset(a) { assert b[i] in multiset(b); }
    var i :| 0 <= i < |a| && a[i].low == MinLow(a);
    var j :| 0 <= j < |b| && b[j].low == MinLow(b);
    var p :| 0 <= p < |a| && a[p].high == MaxHigh(a);
    var q :| 0 <= q < |b| && b[q].high == MaxHigh(b);
    assert a[i] in b && b[j] in a && a[p] in b && b[q] in a;
  }

  /** The profile does not depend on the order of the bars. */
  lemma ProfileOrderIndependent(a: seq<Bar>, b: seq<Bar>, mode: string)
    requires multiset(a) == multiset(b)
    ensures ProfileOf(a, mode) == ProfileOf(b, mode)
  {
    assert |a| == |multiset(a)| == |b|;
    if a != [] {
      ExtremesOfPermutation(a, b);
      var n := BinCount(mode);
      var lo := MinLow(a);
      var h := (MaxHigh(a) - lo) / (n as real);
      if h != 0.0 {
        forall k | 0 <= k < n
          ensures Accumulate(a, lo, h, n)[k] == Accumulate(b, lo, h, n)[k]
        {
          AccumulateIsSumOfShares(a, lo, h, n, k);
          AccumulateIsSumOfShares(b, lo, h, n, k);
          SumSharesPermutation(a, b, lo, h, n, k);
        }
      }
    }
  }

  /** The body of the loop for one row: its volume added to the bins in place. */
  method DepositRow(bins: array<real>, s: nat, e: nat, volume: real)
    requires s < bins.Length && e < bins.Length
    modifies bins
    ensures bins[..] == Deposit(old(bins[..]), s, e, volume)
  {
    if s == e {
      bins[s] := bins[s] + volume;
    } else if s < e {
      var share := volume / ((e - s + 1) as real);
      var i := s;
      while i <= e
        invariant s <= i <= e + 1
        invariant bins[..] == Spread(old(bins[..]), s, i, share)
      {
        bins[i] := bins[i] + share;
        i := i + 1;
      }
    }
  }

  /** `_plot_volume_profile`'s loop over the rows, filling a list of `n` bins in place. */
  method BuildProfile(bars: seq<Bar>, mode: string) returns (p: Profile)
    ensures p == ProfileOf(bars, mode)
  {
    var n := BinCount(mode);
    if bars == [] {
      return Histogram(None, Zeros(n));
    }
    var lo := MinLow(bars);
    var h := (MaxHigh(bars) - lo) / (n as real);
    if h == 0.0 {
      return NoProfile;
    }
    var bins := new real[n](_ => 0.0);
    for j := 0 to |bars|
      invariant bins[..] == Accumulate(bars[..j], lo, h, n)
    {
      assert bars[..j + 1][..j] == bars[..j];
      var b := bars[j];
      DepositRow(bins, BinOf(b.low, lo, h, n), BinOf(b.high, lo, h, n), b.volume);
    }
    assert bars[..|bars|] == bars;
    p := Histogram(Some(Scale(lo, h)), bins[..]);
  }
}
