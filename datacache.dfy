/**
 * `_download_worker` and `_cleanup_old_cache` as functions of their inputs: the `csv`
 * cache directory is a map from file name to file, the clock is the instant passed in,
 * and the data provider and the metadata service are replies passed in.
 */
module DataCache {
  import opened Wrappers
  import opened Calendar
  import opened Text
  import opened Bars

  /** Files last modified more than this long before now are swept at start-up. */
  const RetentionSeconds: nat := 7 * SecondsPerDay

  /** The intervals limited to about 60 days of history. */
  const ShortIntradayIntervals: seq<string> := ["2m", "5m", "15m", "30m", "90m"]

  /** How many days before today the download starts for an interval the providers limit:
    * hourly bars reach back about 730 days, the shorter intraday intervals about 60; 0
    * for the intervals downloaded from 2000-01-01. */
  function LookbackDays(interval: string): nat {
    match interval
    case "1h" => 729
    case "2m" => 59
    case "5m" => 59
    case "15m" => 59
    case "30m" => 59
    case "90m" => 59
    case _ => 0
  }

  /** The day the cache file is named after: Saturday and Sunday snap back to Friday. */
  function EffectiveDay(today: DayNumber): (d: DayNumber)
    ensures Weekday(d) < 5
    ensures today - 2 <= d <= today
    ensures Weekday(today) < 5 ==> d == today
    ensures forall e: DayNumber :: d < e <= today ==> Weekday(e) >= 5
  {
    if Weekday(today) == 5 then
      WeekdayNext(today - 1);
      today - 1
    else if Weekday(today) == 6 then
      WeekdayNext(today - 2);
      WeekdayNext(today - 1);
      today - 2
    else today
  }

  /** Snapping twice is snapping once. */
  lemma EffectiveDayIdempotent(today: DayNumber)
    ensures EffectiveDay(EffectiveDay(today)) == EffectiveDay(today)
  {
  }

  /** All days of one Saturday-to-Friday stretch share the Friday's cache file. */
  lemma WeekendSharesFriday(friday: DayNumber)
    requires Weekday(friday) == 4
    ensures EffectiveDay(friday + 1) == friday && EffectiveDay(friday + 2) == friday
  {
    WeekdayNext(friday);
    WeekdayNext(friday + 1);
  }

  /** The start of every cache file name for a ticker and interval. */
  function CachePrefix(ticker: string, interval: string): string {
    ticker + "_" + interval + "_"
  }

  /** `f"{ticker}_{interval}_{today_str}.csv"`. */
  function CacheFileName(ticker: string, interval: string, day: DayNumber): string {
    CachePrefix(ticker, interval) + DateText(FromOrdinal(day)) + ".csv"
  }

  /** For a four-digit year the name is the pair's prefix, the day's ten-character date
    * text and ".csv". */
  lemma CacheFileNameDate(ticker: string, interval: string, day: DayNumber)
    requires FromOrdinal(day).year < 10000
    ensures var r := CacheFileName(ticker, interval, day);
      |r| == |CachePrefix(ticker, interval)| + 14 && r[|r| - 14..|r| - 4] == DateText(FromOrdinal(day))
  {
    var prefix, date := CachePrefix(ticker, interval), DateText(FromOrdinal(day));
    var r := prefix + date + ".csv";
    assert r[|prefix|..|prefix| + |date|] == date;
  }

  /** Different days name different files: the date in the name reads back as the day. */
  lemma CacheNamesDistinct(ticker: string, interval: string, d1: DayNumber, d2: DayNumber)
    requires FromOrdinal(d1).year < 10000 && FromOrdinal(d2).year < 10000
    requires CacheFileName(ticker, interval, d1) == CacheFileName(ticker, interval, d2)
    ensures d1 == d2
  {
    CacheFileNameDate(ticker, interval, d1);
    CacheFileNameDate(ticker, interval, d2);
    var a, b := DateText(FromOrdinal(d1)), DateText(FromOrdinal(d2));
    assert a == b;
    SameDateText(FromOrdinal(d1), FromOrdinal(d2));
  }

  /** Equal date texts of four-digit years are equal dates. */
  lemma SameDateText(a: Date, b: Date)
    requires ValidDate(a) && ValidDate(b) && 0 <= a.year < 10000 && 0 <= b.year < 10000
    requires DateText(a) == DateText(b)
    ensures a == b
  {
    var ta, tb := DateText(a), DateText(b);
    assert ta[..4] == tb[..4] && ta[5..7] == tb[5..7] && ta[8..] == tb[8..];
  }

  /** A name matched by the glob `<prefix>*.csv`. */
  predicate MatchesGlob(name: string, prefix: string) {
    |name| >= |prefix| + 4 && name[..|prefix|] == prefix && name[|name| - 4..] == ".csv"
  }

  /** A name matched by the glob `*.csv`. */
  predicate IsCsvName(name: string) {
    MatchesGlob(name, "")
  }

  /** A name made of a prefix, any middle part and ".csv" matches the prefix's glob. */
  lemma GlobOfName(prefix: string, middle: string)
    ensures MatchesGlob(prefix + middle + ".csv", prefix)
    ensures IsCsvName(prefix + middle + ".csv")
  {
    var name := prefix + middle + ".csv";
    assert name[..|prefix + middle|][..|prefix|] == prefix;
    assert name[|prefix + middle|..] == ".csv";
  }

  /** Every cache file name matches its ticker and interval's glob. */
  lemma CacheFileNameMatches(ticker: string, interval: string, day: DayNumber)
    ensures MatchesGlob(CacheFileName(ticker, interval, day), CachePrefix(ticker, interval))
    ensures IsCsvName(CacheFileName(ticker, interval, day))
  {
    GlobOfName(CachePrefix(ticker, interval), DateText(FromOrdinal(day)));
  }

  /** What reading a file back yields: its rows, with None for a row that `dropna` removes
    * (a field that is missing or does not coerce to a number), or a file `read_csv`
    * cannot parse. */
  datatype StoredContent = Rows(rows: seq<Option<Bar>>) | Unreadable

  datatype CacheFile = CacheFile(content: StoredContent, mtime: Instant)

  type Directory = map<string, CacheFile>

  /** The rows that survive `dropna`, in file order. */
  function Present(rows: seq<Option<Bar>>): (r: seq<Bar>)
    ensures |r| <= |rows|
    ensures forall b :: b in r <==> Some(b) in rows
    ensures (forall i :: 0 <= i < |rows| ==> rows[i].Some?) ==> |r| == |rows|
    decreases |rows|
  {
    if rows == [] then []
    else
      var rest := Present(rows[1..]);
      assert forall x :: x in rows <==> x == rows[0] || x in rows[1..];
      match rows[0]
      case Some(b) => [b] + rest
      case None => rest
  }

  /** The surviving rows keep the file's order: the rows of a part of the file come before
    * those of the parts after it. */
  lemma {:induction false} PresentConcat(a: seq<Option<Bar>>, b: seq<Option<Bar>>)
    ensures Present(a + b) == Present(a) + Present(b)
    decreases |a|
  {
    if a == [] {
      assert a + b == b;
    } else {
      assert (a + b)[0] == a[0] && (a + b)[1..] == a[1..] + b;
      PresentConcat(a[1..], b);
      if a[0].Some? {
        var x := a[0].value;
        assert [x] + (Present(a[1..]) + Present(b)) == ([x] + Present(a[1..])) + Present(b);
      }
    }
  }

  /** The cache lookup: None is a miss (no file, or a read that raised), Some the bars
    * that were read, possibly none. */
  function ReadCache(dir: Directory, name: string): (r: Option<seq<Bar>>)
    ensures r.None? <==> name !in dir || dir[name].content.Unreadable?
  {
    if name in dir then
      match dir[name].content
      case Rows(rows) => Some(Present(rows))
      case Unreadable => None
    else None
  }

  /** The file `df.to_csv` leaves behind. */
  function Written(bars: seq<Bar>, now: Instant): CacheFile {
    CacheFile(Rows(seq(|bars|, i requires 0 <= i < |bars| => Some(bars[i]))), now)
  }

  /** What was written reads back unchanged. */
  lemma {:induction false} PresentOfAllRows(bars: seq<Bar>)
    ensures Present(seq(|bars|, i requires 0 <= i < |bars| => Some(bars[i]))) == bars
    decreases |bars|
  {
    if bars != [] {
      var rows := seq(|bars|, i requires 0 <= i < |bars| => Some(bars[i]));
      assert rows[1..] == seq(|bars[1..]|, i requires 0 <= i < |bars[1..]| => Some(bars[1..][i]));
      PresentOfAllRows(bars[1..]);
      assert bars == [bars[0]] + bars[1..];
    }
  }

  lemma WrittenReadsBack(dir: Directory, name: string, bars: seq<Bar>, now: Instant)
    ensures ReadCache(dir[name := Written(bars, now)], name) == Some(bars)
  {
    PresentOfAllRows(bars);
  }

  /** The directory after deleting every file matching `<prefix>*.csv` except `keep`. */
  function Pruned(dir: Directory, prefix: string, keep: string): (r: Directory)
    ensures r.Keys <= dir.Keys
    ensures forall f :: f in r ==> r[f] == dir[f]
    ensures forall f :: f in dir ==> (f in r <==> f == keep || !MatchesGlob(f, prefix))
  {
    map f | f in dir && (f == keep || !MatchesGlob(f, prefix)) :: dir[f]
  }

  /** Writing today's file for a ticker and interval, then deleting that pair's other files. */
  function StoreAndPrune(dir: Directory, ticker: string, interval: string, day: DayNumber,
                         bars: seq<Bar>, now: Instant): (r: Directory)
    ensures CacheFileName(ticker, interval, day) in r
    ensures r[CacheFileName(ticker, interval, day)] == Written(bars, now)
    ensures r.Keys <= dir.Keys + {CacheFileName(ticker, interval, day)}
  {
    var name := CacheFileName(ticker, interval, day);
    Pruned(dir[name := Written(bars, now)], CachePrefix(ticker, interval), name)
  }

  /** After a store the pair has exactly one file, today's, holding the bars; every file of
    * another pair is untouched. */
  lemma StoreAndPruneLeavesOneFile(dir: Directory, ticker: string, interval: string, day: DayNumber,
                                   bars: seq<Bar>, now: Instant, f: string)
    ensures var r := StoreAndPrune(dir, ticker, interval, day, bars, now);
      var name := CacheFileName(ticker, interval, day);
      ReadCache(r, name) == Some(bars)
      && (MatchesGlob(f, CachePrefix(ticker, interval)) ==> (f in r <==> f == name))
      && (!MatchesGlob(f, CachePrefix(ticker, interval)) ==>
            (f in r <==> f in dir) && (f in dir ==> r[f] == dir[f]))
  {
    var name := CacheFileName(ticker, interval, day);
    CacheFileNameMatches(ticker, interval, day);
    WrittenReadsBack(dir, name, bars, now);
  }

  /** Whether the start-up sweep deletes a file. */
  predicate Stale(name: string, file: CacheFile, now: Instant) {
    IsCsvName(name) && file.mtime < now - RetentionSeconds
  }

  /** The directory after `_cleanup_old_cache`. */
  function Swept(dir: Directory, now: Instant): (r: Directory)
    ensures r.Keys <= dir.Keys
    ensures forall f :: f in dir ==> (f in r <==> !Stale(f, dir[f], now))
    ensures forall f :: f in r ==> r[f] == dir[f]
  {
    map f | f in dir && !Stale(f, dir[f], now) :: dir[f]
  }

  /** The names the sweep deletes; their number is the count it logs. */
  function StaleNames(dir: Directory, now: Instant): (r: set<string>)
    ensures r <= dir.Keys
    ensures forall f :: f in r <==> f in dir && Stale(f, dir[f], now)
  {
    set f | f in dir && Stale(f, dir[f], now)
  }

  /** The sweep keeps every file written within the last seven days, and sweeping again at
    * the same instant deletes nothing more. */
  lemma SweepKeepsRecent(dir: Directory, now: Instant, f: string)
    requires f in dir && dir[f].mtime >= now - RetentionSeconds
    ensures f in Swept(dir, now)
    ensures Swept(Swept(dir, now), now) == Swept(dir, now)
    ensures StaleNames(Swept(dir, now), now) == {}
  {
  }

  /** The request the worker makes when the cache does not answer. */
  datatype Request =
    | OneDayOfMinutes                          // `history(period="1d", interval="1m")`
    | Span(start: Date, end: Date, interval: string)  // `get_stock_history(start, end, interval)`

  /** The request for `interval` on local day `today`, whose cache day is `day`; None
    * where computing the start date overflows the calendar (a date before year 1). */
  function HistoryRequest(interval: string, today: DayNumber, day: DayNumber): (r: Option<Request>)
    ensures interval == "1m" ==> r == Some(OneDayOfMinutes)
    ensures interval != "1m" && LookbackDays(interval) == 0 ==>
      r == Some(Span(Date(2000, 1, 1), FromOrdinal(day), interval))
    ensures interval != "1m" && LookbackDays(interval) > 0 ==>
      (r.None? <==> today <= LookbackDays(interval))
      && (r.Some? ==> r.value.Span? && r.value.end == FromOrdinal(day) && r.value.interval == interval
                      && ValidDate(r.value.start) && ToOrdinal(r.value.start) == today - LookbackDays(interval))
  {
    if interval == "1m" then Some(OneDayOfMinutes)
    else if LookbackDays(interval) == 0 then Some(Span(Date(2000, 1, 1), FromOrdinal(day), interval))
    else if today <= LookbackDays(interval) then None
    else Some(Span(FromOrdinal(today - LookbackDays(interval)), FromOrdinal(day), interval))
  }

  /** Hourly downloads start 729 days back, the 2m to 90m intervals 59 days back, and
    * daily, weekly and monthly ones on 2000-01-01. */
  lemma LookbackTable()
    ensures LookbackDays("1h") == 729
    ensures forall i :: 0 <= i < |ShortIntradayIntervals| ==> LookbackDays(ShortIntradayIntervals[i]) == 59
    ensures LookbackDays("1d") == 0 && LookbackDays("1wk") == 0 && LookbackDays("1mo") == 0
  {
    forall i | 0 <= i < |ShortIntradayIntervals|
      ensures LookbackDays(ShortIntradayIntervals[i]) == 59
    {
      if i == 0 {} else if i == 1 {} else if i == 2 {} else if i == 3 {} else {}
    }
  }

  /** What the provider call returns, or the message of what it raised. */
  datatype ProviderReply = Delivered(bars: seq<Bar>) | Raised(message: string)

  /** The downloaded bars, or the message of an exception that escapes to the worker's
    * outer handler: `get_stock_history` turns every failure into an empty frame, the
    * one-minute call does not. */
  function Downloaded(request: Request, reply: ProviderReply): (r: Result<seq<Bar>, string>)
    ensures request.Span? ==> r.Ok?
    ensures reply.Delivered? ==> r == Ok(reply.bars)
    ensures request.OneDayOfMinutes? && reply.Raised? ==> r == Err(reply.message)
  {
    match reply
    case Delivered(bars) => Ok(bars)
    case Raised(message) => if request.Span? then Ok([]) else Err(message)
  }

  /** A field of the provider's metadata dictionary. */
  datatype InfoValue = Text(text: string) | Number(number: real) | Null

  /** What reading `t.info` gives: the dictionary, or an exception. */
  datatype MetadataReply = Info(fields: map<string, InfoValue>) | InfoRaised

  /** Python truthiness of a metadata value. */
  predicate Truthy(v: InfoValue) {
    match v
    case Text(s) => s != ""
    case Number(x) => x != 0.0
    case Null => false
  }

  /** `d.get(key, default)`. */
  function Get(fields: map<string, InfoValue>, key: string, default: InfoValue): (v: InfoValue)
    ensures key in fields ==> v == fields[key]
    ensures key !in fields ==> v == default
  {
    if key in fields then fields[key] else default
  }

  /** `d.get(key)` is truthy. */
  predicate TruthyField(fields: map<string, InfoValue>, key: string) {
    key in fields && Truthy(fields[key])
  }

  datatype Metadata = Metadata(company: InfoValue, previousClose: InfoValue,
                               currentPrice: InfoValue, info: map<string, InfoValue>)

  /** The company name, previous close, current price and info dictionary the worker
    * sends; the defaults stand where the metadata call raised. */
  function MetadataOf(ticker: string, reply: MetadataReply): (m: Metadata)
    ensures reply.InfoRaised? ==> m == Metadata(Text(ticker), Number(0.0), Number(0.0), map[])
    ensures reply.Info? ==> m.info == reply.fields
    ensures reply.Info? && "shortName" in reply.fields ==> m.company == reply.fields["shortName"]
    ensures reply.Info? && "shortName" !in reply.fields && "longName" in reply.fields ==>
      m.company == reply.fields["longName"]
    ensures reply.Info? && "shortName" !in reply.fields && "longName" !in reply.fields ==>
      m.company == Text(ticker)
    ensures reply.Info? && "previousClose" in reply.fields ==> m.previousClose == reply.fields["previousClose"]
    ensures reply.Info? && "previousClose" !in reply.fields ==> m.previousClose == Number(0.0)
    ensures m.currentPrice == Number(0.0) || Truthy(m.currentPrice)
    ensures reply.Info? && TruthyField(reply.fields, "currentPrice") ==>
      m.currentPrice == reply.fields["currentPrice"]
    ensures reply.Info? && !TruthyField(reply.fields, "currentPrice") && TruthyField(reply.fields, "regularMarketPrice") ==>
      m.currentPrice == reply.fields["regularMarketPrice"]
    ensures reply.Info? && !TruthyField(reply.fields, "currentPrice") && !TruthyField(reply.fields, "regularMarketPrice") ==>
      m.currentPrice == Number(0.0)
  {
    match reply
    case InfoRaised => Metadata(Text(ticker), Number(0.0), Number(0.0), map[])
    case Info(fields) =>
      var current := Get(fields, "currentPrice", Null);
      var market := Get(fields, "regularMarketPrice", Null);
      Metadata(Get(fields, "shortName", Get(fields, "longName", Text(ticker))),
               Get(fields, "previousClose", Number(0.0)),
               if Truthy(current) then current else if Truthy(market) then market else Number(0.0),
               fields)
  }

  /** What the worker puts on the queue. */
  datatype Message =
    | DataMsg(bars: seq<Bar>, company: InfoValue, interval: string,
              previousClose: InfoValue, currentPrice: InfoValue, info: map<string, InfoValue>)
    | ErrorMsg(text: string)

  /** The message for a finished fetch: an error when no bars were obtained. */
  function Report(ticker: string, interval: string, bars: seq<Bar>, meta: Metadata): (m: Message)
    ensures m.ErrorMsg? <==> bars == []
    ensures m.DataMsg? ==> m.bars == bars && m.interval == interval
  {
    if bars == [] then ErrorMsg("No data found for " + ticker)
    else DataMsg(bars, meta.company, interval, meta.previousClose, meta.currentPrice, meta.info)
  }

  /** Where the worker's bars came from, or the message of the exception that ended it. */
  datatype Source = FromCache(bars: seq<Bar>) | FromProvider(bars: seq<Bar>) | Failed(text: string)

  /** The bars `_download_worker` obtains: today's cache file unless the interval is one
    * minute or the file is missing or unreadable, otherwise the provider's answer. */
  function Obtain(dir: Directory, ticker: string, interval: string, now: Instant,
                  download: Request -> ProviderReply): (src: Source)
    ensures interval == "1m" ==> !src.FromCache?
  {
    var day := EffectiveDay(DayOf(now));
    var cached := if interval != "1m" then ReadCache(dir, CacheFileName(ticker, interval, day)) else None;
    match cached
    case Some(bars) => FromCache(bars)
    case None =>
      match HistoryRequest(interval, DayOf(now), day)
      case None => Failed("date value out of range")
      case Some(request) =>
        match Downloaded(request, download(request))
        case Err(text) => Failed(text)
        case Ok(bars) => FromProvider(bars)
  }

  /** The cache directory after the worker and the message it sends. */
  datatype WorkerResult = WorkerResult(files: Directory, message: Message)

  /** One run of `_download_worker(ticker, interval)` started at local instant `now`. */
  function Worker(dir: Directory, ticker: string, interval: string, now: Instant,
                  download: Request -> ProviderReply, meta: MetadataReply): (r: WorkerResult)
    ensures r.message.DataMsg? ==> r.message.interval == interval && r.message.bars != []
  {
    var src := Obtain(dir, ticker, interval, now, download);
    WorkerResult(Stored(dir, ticker, interval, now, src), Posted(ticker, interval, src, meta))
  }

  /** The directory after the worker obtained `src`: a non-empty download of anything but
    * one-minute bars is stored and the pair's older files pruned. */
  function Stored(dir: Directory, ticker: string, interval: string, now: Instant, src: Source): Directory {
    if src.FromProvider? && src.bars != [] && interval != "1m"
    then StoreAndPrune(dir, ticker, interval, EffectiveDay(DayOf(now)), src.bars, now)
    else dir
  }

  /** The message the worker posts for `src`. */
  function Posted(ticker: string, interval: string, src: Source, meta: MetadataReply): (m: Message)
    ensures m.DataMsg? ==> m.interval == interval && m.bars != []
  {
    match src
    case Failed(text) => ErrorMsg(text)
    case _ => Report(ticker, interval, src.bars, MetadataOf(ticker, meta))
  }

  /** One-minute data never touches the cache: nothing is written, and what is on disk
    * makes no difference to the message. */
  lemma MinuteDataBypassesCache(dir: Directory, other: Directory, ticker: string, now: Instant,
                                download: Request -> ProviderReply, meta: MetadataReply)
    ensures Worker(dir, ticker, "1m", now, download, meta).files == dir
    ensures Worker(dir, ticker, "1m", now, download, meta).message ==
            Worker(other, ticker, "1m", now, download, meta).message
  {
  }

  /** A readable cache file for today answers the request: nothing is downloaded, the
    * directory is unchanged, and the message carries the bars read back. */
  lemma CacheHitAnswers(dir: Directory, ticker: string, interval: string, now: Instant,
                        download: Request -> ProviderReply, other: Request -> ProviderReply,
                        meta: MetadataReply)
    requires interval != "1m"
    requires ReadCache(dir, CacheFileName(ticker, interval, EffectiveDay(DayOf(now)))).Some?
    ensures var r := Worker(dir, ticker, interval, now, download, meta);
      r == Worker(dir, ticker, interval, now, other, meta) && r.files == dir
      && r.message == Report(ticker, interval,
                             ReadCache(dir, CacheFileName(ticker, interval, EffectiveDay(DayOf(now)))).value,
                             MetadataOf(ticker, meta))
  {
  }

  /** A cache file that fails to read is a miss, exactly as if it were not there. */
  lemma UnreadableIsMiss(dir: Directory, ticker: string, interval: string, now: Instant,
                         download: Request -> ProviderReply, meta: MetadataReply)
    requires var name := CacheFileName(ticker, interval, EffectiveDay(DayOf(now)));
      name in dir && dir[name].content.Unreadable?
    ensures Obtain(dir, ticker, interval, now, download) ==
            Obtain(dir - {CacheFileName(ticker, interval, EffectiveDay(DayOf(now)))}, ticker, interval, now, download)
    ensures Worker(dir, ticker, interval, now, download, meta).message ==
            Worker(dir - {CacheFileName(ticker, interval, EffectiveDay(DayOf(now)))}, ticker, interval, now, download, meta).message
  {
    var name := CacheFileName(ticker, interval, EffectiveDay(DayOf(now)));
    assert ReadCache(dir, name).None? && ReadCache(dir - {name}, name).None?;
  }

  /** On a miss the bars come from the provider, and a daily, weekly or monthly download
    * never fails: `get_stock_history` answers an error with an empty frame. */
  lemma MissDownloads(dir: Directory, ticker: string, interval: string, now: Instant,
                      download: Request -> ProviderReply)
    requires interval != "1m"
    requires ReadCache(dir, CacheFileName(ticker, interval, EffectiveDay(DayOf(now)))).None?
    requires HistoryRequest(interval, DayOf(now), EffectiveDay(DayOf(now))).Some?
    ensures var request := HistoryRequest(interval, DayOf(now), EffectiveDay(DayOf(now))).value;
      Obtain(dir, ticker, interval, now, download) == FromProvider(Downloaded(request, download(request)).value)
  {
    var request := HistoryRequest(interval, DayOf(now), EffectiveDay(DayOf(now))).value;
    assert request.Span?;
  }

  /** A miss followed by a non-empty download stores today's file and prunes the pair's
    * older ones; an empty download leaves the directory alone and reports an error. */
  lemma MissStoresDownload(dir: Directory, ticker: string, interval: string, now: Instant,
                           download: Request -> ProviderReply, meta: MetadataReply)
    requires interval != "1m"
    requires ReadCache(dir, CacheFileName(ticker, interval, EffectiveDay(DayOf(now)))).None?
    requires HistoryRequest(interval, DayOf(now), EffectiveDay(DayOf(now))).Some?
    ensures var request := HistoryRequest(interval, DayOf(now), EffectiveDay(DayOf(now))).value;
      var bars := Downloaded(request, download(request)).value;
      var r := Worker(dir, ticker, interval, now, download, meta);
      (bars != [] ==> r.files == StoreAndPrune(dir, ticker, interval, EffectiveDay(DayOf(now)), bars, now)
                      && r.message.DataMsg? && r.message.bars == bars)
      && (bars == [] ==> r.files == dir && r.message == ErrorMsg("No data found for " + ticker))
  {
    MissDownloads(dir, ticker, interval, now, download);
    var request := HistoryRequest(interval, DayOf(now), EffectiveDay(DayOf(now))).value;
    var src := FromProvider(Downloaded(request, download(request)).value);
    assert Worker(dir, ticker, interval, now, download, meta) ==
      WorkerResult(Stored(dir, ticker, interval, now, src), Posted(ticker, interval, src, meta));
  }
}
