/**
 * The few pieces of text handling the chart depends on: reading a count with `int(...)`,
 * splitting off the first word as `str.split()[0]` does, and writing dates and times as
 * `strftime('%Y-%m-%d')` and `strftime('%H:%M')` do.
 */
module Text {
  import opened Wrappers
  import opened Calendar

  predicate IsDigit(c: char) {
    '0' <= c <= '9'
  }

  predicate AllDigits(s: string) {
    forall i :: 0 <= i < |s| ==> IsDigit(s[i])
  }

  /** The value of a string of decimal digits, most significant first. */
  function DigitsValue(s: string): nat
    requires AllDigits(s)
    decreases |s|
  {
    if s == [] then 0 else DigitsValue(s[..|s| - 1]) * 10 + (s[|s| - 1] as int - '0' as int)
  }

  /** `int(s)` on unsigned ASCII decimal text; None where the model treats `int()` as raising. */
  function ParseNat(s: string): (r: Option<nat>)
    ensures r.Some? <==> |s| > 0 && AllDigits(s)
    ensures r.Some? ==> r.value == DigitsValue(s)
  {
    if |s| > 0 && AllDigits(s) then Some(DigitsValue(s)) else None
  }

  function DigitChar(d: nat): (c: char)
    requires d < 10
    ensures IsDigit(c) && c as int - '0' as int == d
  {
    ('0' as int + d) as char
  }

  /** The decimal text of `n` without leading zeros; reading it back gives `n`. */
  function NatText(n: nat): (s: string)
    ensures |s| > 0 && AllDigits(s)
    ensures DigitsValue(s) == n
    ensures ParseNat(s) == Some(n)
    ensures n < 10 ==> |s| == 1
    ensures n < 100 ==> |s| <= 2
    ensures n < 1000 ==> |s| <= 3
    ensures n < 10000 ==> |s| <= 4
    decreases n
  {
    if n < 10 then [DigitChar(n)]
    else
      var prefix := NatText(n / 10);
      var s := prefix + [DigitChar(n % 10)];
      assert s[..|s| - 1] == prefix;
      s
  }

  /** `s` left-padded with '0' to at least `width` characters. */
  function PadLeft(s: string, width: nat): (r: string)
    ensures |r| == if |s| >= width then |s| else width
    ensures r[|r| - |s|..] == s
    ensures forall i :: 0 <= i < |r| - |s| ==> r[i] == '0'
  {
    if |s| >= width then s else seq(width - |s|, _ => '0') + s
  }

  /** Leading zeros do not change a number's value. */
  lemma {:induction false} LeadingZeros(z: string, s: string)
    requires forall i :: 0 <= i < |z| ==> z[i] == '0'
    requires AllDigits(s)
    ensures AllDigits(z + s) && DigitsValue(z + s) == DigitsValue(s)
    decreases |s| + |z|
  {
    if s == [] {
      assert z + s == z;
      if z != [] {
        LeadingZeros(z[..|z| - 1], []);
        assert z[..|z| - 1] + [] == z[..|z| - 1];
      }
    } else {
      assert (z + s)[..|z + s| - 1] == z + s[..|s| - 1];
      LeadingZeros(z, s[..|s| - 1]);
    }
  }

  /** A number written out and zero-padded to `width` reads back as that number. */
  lemma PaddedReadsBack(n: nat, width: nat)
    ensures ParseNat(PadLeft(NatText(n), width)) == Some(n)
  {
    var s := NatText(n);
    if |s| < width {
      LeadingZeros(seq(width - |s|, _ => '0'), s);
    }
  }

  /** `strftime('%Y-%m-%d')`. For a four-digit year the text is ten characters long,
    * and year, month and day read back from their fields. */
  function DateText(d: Date): (r: string)
    requires ValidDate(d) && d.year >= 0
    ensures d.year < 10000 ==>
      (|r| == 10 && r[4] == '-' && r[7] == '-'
       && ParseNat(r[..4]) == Some(d.year) && ParseNat(r[5..7]) == Some(d.month)
       && ParseNat(r[8..]) == Some(d.day))
  {
    var y, m, dd := PadLeft(NatText(d.year), 4), PadLeft(NatText(d.month), 2), PadLeft(NatText(d.day), 2);
    PaddedReadsBack(d.year, 4);
    PaddedReadsBack(d.month, 2);
    PaddedReadsBack(d.day, 2);
    if d.year < 10000 then DateFields(y, m, dd); y + "-" + m + "-" + dd
    else y + "-" + m + "-" + dd
  }

  /** Where the three fields have widths 4, 2 and 2, each is found at its place. */
  lemma DateFields(y: string, m: string, d: string)
    requires |y| == 4 && |m| == 2 && |d| == 2
    ensures var r := y + "-" + m + "-" + d;
      |r| == 10 && r[4] == '-' && r[7] == '-' && r[..4] == y && r[5..7] == m && r[8..] == d
  {
  }

  lemma HourAndMinute(secondOfDay: nat)
    requires secondOfDay < SecondsPerDay
    ensures secondOfDay / 3600 < 24 && secondOfDay % 3600 / 60 < 60
  {
  }

  /** Where both fields have width 2, each is found at its place. */
  lemma ClockFields(h: string, m: string)
    requires |h| == 2 && |m| == 2
    ensures var r := h + ":" + m; |r| == 5 && r[2] == ':' && r[..2] == h && r[3..] == m
  {
  }

  /** `strftime('%H:%M')` of a time of day given in seconds: five characters, and the
    * hour and the minute read back from their fields. */
  function ClockText(secondOfDay: nat): (r: string)
    requires secondOfDay < SecondsPerDay
    ensures |r| == 5 && r[2] == ':'
    ensures ParseNat(r[..2]) == Some(secondOfDay / 3600) && ParseNat(r[3..]) == Some(secondOfDay % 3600 / 60)
  {
    var hour, minute := secondOfDay / 3600, secondOfDay % 3600 / 60;
    HourAndMinute(secondOfDay);
    var h, m := PadLeft(NatText(hour), 2), PadLeft(NatText(minute), 2);
    PaddedReadsBack(hour, 2);
    PaddedReadsBack(minute, 2);
    ClockFields(h, m);
    h + ":" + m
  }

  /** The ASCII characters `str.split()` separates words on. */
  predicate IsSpace(c: char) {
    c == ' ' || c == '\t' || c == '\n' || c == '\r' || c == '\U{B}' || c == '\U{C}'
    || ('\U{1C}' <= c <= '\U{1F}')
  }

  /** The longest prefix of `s` without whitespace. */
  function TakeWord(s: string): (w: string)
    ensures |w| <= |s| && w == s[..|w|]
    ensures forall i :: 0 <= i < |w| ==> !IsSpace(w[i])
    ensures |w| == |s| || IsSpace(s[|w|])
  {
    if s == [] || IsSpace(s[0]) then [] else [s[0]] + TakeWord(s[1..])
  }

  /** `s.split()[0]`: the first whitespace-separated word, None where indexing would raise. */
  function FirstWord(s: string): (r: Option<string>)
    ensures r.None? <==> forall i :: 0 <= i < |s| ==> IsSpace(s[i])
    ensures r.Some? ==> |r.value| > 0 && forall i :: 0 <= i < |r.value| ==> !IsSpace(r.value[i])
  {
    if s == [] then None
    else if IsSpace(s[0]) then
      var r := FirstWord(s[1..]);
      assert forall i :: 1 <= i < |s| ==> s[i] == s[1..][i - 1];
      r
    else Some(TakeWord(s))
  }

  /** The number of whitespace characters `s` starts with. */
  function LeadingSpaces(s: string): (n: nat)
    ensures n <= |s|
    ensures forall k :: 0 <= k < n ==> IsSpace(s[k])
    ensures n < |s| ==> !IsSpace(s[n])
  {
    if s != [] && IsSpace(s[0]) then 1 + LeadingSpaces(s[1..]) else 0
  }

  /** The word `split()[0]` returns is the run of non-whitespace characters after the
    * leading whitespace. */
  lemma {:induction false} FirstWordIsFirstRun(s: string)
    ensures FirstWord(s).Some? ==>
      LeadingSpaces(s) < |s| && FirstWord(s).value == TakeWord(s[LeadingSpaces(s)..])
    decreases |s|
  {
    if s != [] && IsSpace(s[0]) {
      FirstWordIsFirstRun(s[1..]);
      assert s[1..][LeadingSpaces(s[1..])..] == s[LeadingSpaces(s)..];
    } else if s != [] {
      assert s[0..] == s;
    }
  }

  /** `str.upper()` on one character: ASCII letters only. */
  function UpperChar(c: char): (u: char)
    ensures !('a' <= u <= 'z')
    ensures !('a' <= c <= 'z') ==> u == c
    ensures 'a' <= c <= 'z' ==> 'A' <= u <= 'Z' && u as int - 'A' as int == c as int - 'a' as int
  {
    if 'a' <= c <= 'z' then (c as int - 'a' as int + 'A' as int) as char else c
  }

  function Upper(s: string): (r: string)
    ensures |r| == |s|
    decreases |s|
  {
    if s == [] then [] else [UpperChar(s[0])] + Upper(s[1..])
  }

  /** Upper-casing works character by character and keeps whitespace where it is. */
  lemma {:induction false} UpperAt(s: string, i: nat)
    requires i < |s|
    ensures Upper(s)[i] == UpperChar(s[i])
    ensures IsSpace(Upper(s)[i]) <==> IsSpace(s[i])
    decreases |s|
  {
    if i > 0 {
      UpperAt(s[1..], i - 1);
    }
  }

  /** `s` without its leading whitespace. */
  function DropLeadingSpace(s: string): (r: string)
    ensures |r| <= |s|
    decreases |s|
  {
    if s != [] && IsSpace(s[0]) then DropLeadingSpace(s[1..]) else s
  }

  lemma {:induction false} DropLeadingSpaceIsSuffix(s: string)
    ensures var r := DropLeadingSpace(s);
      r == s[|s| - |r|..] && (r == [] || !IsSpace(r[0]))
      && forall i :: 0 <= i < |s| - |r| ==> IsSpace(s[i])
    decreases |s|
  {
    if s != [] && IsSpace(s[0]) {
      DropLeadingSpaceIsSuffix(s[1..]);
      assert forall i :: 1 <= i < |s| ==> s[i] == s[1..][i - 1];
    }
  }

  /** `s` without its trailing whitespace. */
  function DropTrailingSpace(s: string): (r: string)
    ensures |r| <= |s|
    decreases |s|
  {
    if s != [] && IsSpace(s[|s| - 1]) then DropTrailingSpace(s[..|s| - 1]) else s
  }

  lemma {:induction false} DropTrailingSpaceIsPrefix(s: string)
    ensures var r := DropTrailingSpace(s);
      r == s[..|r|] && (r == [] || !IsSpace(r[|r| - 1]))
      && forall i :: |r| <= i < |s| ==> IsSpace(s[i])
    decreases |s|
  {
    if s != [] && IsSpace(s[|s| - 1]) {
      DropTrailingSpaceIsPrefix(s[..|s| - 1]);
      assert forall i :: 0 <= i < |s| - 1 ==> s[i] == s[..|s| - 1][i];
    }
  }

  /** `str.strip()`. */
  function Strip(s: string): (r: string)
    ensures |r| <= |s|
  {
    DropTrailingSpace(DropLeadingSpace(s))
  }

  /** The stripped text is the slice between the leading and the trailing whitespace:
    * it starts and ends with a non-space, and is empty exactly when `s` is all
    * whitespace. */
  lemma StripIsSlice(s: string) returns (i: nat, j: nat)
    ensures i <= j <= |s| && Strip(s) == s[i..j]
    ensures forall k :: 0 <= k < i || j <= k < |s| ==> IsSpace(s[k])
    ensures Strip(s) == [] || (!IsSpace(s[i]) && !IsSpace(s[j - 1]))
    ensures Strip(s) == [] <==> forall k :: 0 <= k < |s| ==> IsSpace(s[k])
  {
    var lead := DropLeadingSpace(s);
    DropLeadingSpaceIsSuffix(s);
    DropTrailingSpaceIsPrefix(lead);
    i := |s| - |lead|;
    j := i + |Strip(s)|;
    assert forall k :: 0 <= k < |lead| ==> lead[k] == s[i + k];
  }
}
