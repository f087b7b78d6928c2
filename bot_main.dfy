/** The bot's scheduler module: settings read once at start-up and normalised,
    the two clock predicates, the one-time initialisation of the helper
    modules and the Twitter client, and the publisher that retries a post
    while the API reports a rate limit. The clock hour, the outcome of each
    post call and the outcome of the initialisers are parameters. */
module BotMain {
  import opened Text
  import Config

  // Settings read at start-up

  /** A positive setting, or `default` when the value read is zero or negative. */
  function PositiveOr(value: int, default: int): int {
    if value <= 0 then default else value
  }

  /** An hour of the day, or `default` when the value read is outside 0..23. */
  function HourOr(value: int, default: int): int {
    if 0 <= value <= 23 then value else default
  }

  /** `TRENDS_LIMIT` from the raw environment value. */
  function TrendsLimit(raw: Option<string>): int {
    PositiveOr(Config.GetInt(raw, 3), 3)
  }

  /** `CYCLE_DURATION_MINUTES` from the raw environment value. */
  function CycleMinutes(raw: Option<string>): int {
    PositiveOr(Config.GetInt(raw, 60), 60)
  }

  /** `NIGHT_MODE_START` from the raw environment value. */
  function NightStart(raw: Option<string>): int {
    HourOr(Config.GetInt(raw, 1), 1)
  }

  /** `NIGHT_MODE_END` from the raw environment value. */
  function NightEnd(raw: Option<string>): int {
    HourOr(Config.GetInt(raw, 6), 6)
  }

  /** Whatever the environment holds, the limit and the cycle are positive and
      the night hours are hours of the day; an unset key gives its default. */
  lemma LoadedSettingsInRange(trends: Option<string>, cycle: Option<string>, start: Option<string>, end: Option<string>)
    ensures TrendsLimit(trends) > 0 && CycleMinutes(cycle) > 0
    ensures 0 <= NightStart(start) <= 23 && 0 <= NightEnd(end) <= 23
    ensures trends.None? ==> TrendsLimit(trends) == 3
    ensures cycle.None? ==> CycleMinutes(cycle) == 60
    ensures start.None? ==> NightStart(start) == 1
    ensures end.None? ==> NightEnd(end) == 6
  {
  }

  /** A value already in range is taken as written. */
  lemma LoadedSettingsAsWritten(n: int)
    ensures n > 0 ==> TrendsLimit(Some(IntToString(n))) == n && CycleMinutes(Some(IntToString(n))) == n
    ensures 0 <= n <= 23 ==> NightStart(Some(IntToString(n))) == n && NightEnd(Some(IntToString(n))) == n
  {
    ParseIntToString(n);
  }

  const DefaultSleepHours: seq<int> := [1, 3, 9, 10]

  /** `int(h.strip())` for every item, `None` where it raises. */
  function Parsed(items: seq<string>): (r: seq<Option<int>>)
    ensures |r| == |items|
    ensures forall k :: 0 <= k < |items| ==> r[k] == ParseInt(items[k])
  {
    seq(|items|, k requires 0 <= k < |items| => ParseInt(items[k]))
  }

  /** A list comprehension over parsed items: the values when every item
      parsed, `None` when one raised. */
  function AllParsed(xs: seq<Option<int>>): (r: Option<seq<int>>)
    ensures r.Some? ==> |r.value| == |xs|
  {
    if xs == [] then Some([])
    else
      match xs[0]
      case None => None
      case Some(n) =>
        match AllParsed(xs[1..])
        case None => None
        case Some(rest) => Some([n] + rest)
  }

  /** A list that is read holds the values of its items, in order. */
  lemma {:induction false} AllParsedValues(xs: seq<Option<int>>)
    requires AllParsed(xs).Some?
    ensures forall k :: 0 <= k < |xs| ==> xs[k] == Some(AllParsed(xs).value[k])
  {
    if xs != [] {
      var rest := xs[1..];
      AllParsedValues(rest);
      var v := AllParsed(xs).value;
      assert v == [xs[0].value] + AllParsed(rest).value;
      forall k | 0 <= k < |xs| ensures xs[k] == Some(v[k]) {
        if k > 0 {
          assert xs[k] == rest[k - 1];
        }
      }
    }
  }

  /** A list is rejected only when one of its items did not parse. */
  lemma {:induction false} AllParsedRejects(xs: seq<Option<int>>) returns (k: nat)
    requires AllParsed(xs).None?
    ensures k < |xs| && xs[k].None?
  {
    if xs[0].None? {
      k := 0;
    } else {
      var j := AllParsedRejects(xs[1..]);
      k := j + 1;
      assert xs[k] == xs[1..][j];
    }
  }

  /** When every item parsed the list is their values. */
  lemma {:induction false} AllParsedSome(hs: seq<int>, xs: seq<Option<int>>)
    requires |xs| == |hs| && forall k :: 0 <= k < |hs| ==> xs[k] == Some(hs[k])
    ensures AllParsed(xs) == Some(hs)
  {
    if hs != [] {
      AllParsedSome(hs[1..], xs[1..]);
      assert hs == [hs[0]] + hs[1..];
    }
  }

  /** The hours of the day among `hs`, in order. */
  function InDay(hs: seq<int>): (r: seq<int>)
    ensures |r| <= |hs|
    ensures forall k :: 0 <= k < |r| ==> 0 <= r[k] <= 23
  {
    if hs == [] then []
    else if 0 <= hs[0] <= 23 then [hs[0]] + InDay(hs[1..])
    else InDay(hs[1..])
  }

  /** The filter keeps exactly the hours of the day, and a list of hours of
      the day passes it unchanged. */
  lemma {:induction false} InDayMembers(hs: seq<int>)
    ensures forall h :: h in InDay(hs) <==> h in hs && 0 <= h <= 23
    ensures (forall k :: 0 <= k < |hs| ==> 0 <= hs[k] <= 23) ==> InDay(hs) == hs
  {
    if hs != [] {
      InDayMembers(hs[1..]);
      assert hs == [hs[0]] + hs[1..];
    }
  }

  /** The hours kept from the parsed list, or the default hours when the list
      did not parse or no hour is kept. */
  function KeptHours(parsed: Option<seq<int>>): (r: seq<int>)
    ensures r != []
    ensures forall k :: 0 <= k < |r| ==> 0 <= r[k] <= 23
  {
    match parsed
    case None => DefaultSleepHours
    case Some(hs) =>
      var kept := InDay(hs);
      if kept == [] then DefaultSleepHours else kept
  }

  const DefaultSleepTexts: seq<string> := ["1", "3", "9", "10"]

  /** `SLEEP_HOURS`: the comma-separated list, each item read as an integer
      and kept when it is an hour of the day; the default hours when an item
      is not an integer or no item is kept. */
  function LoadSleepHours(raw: Option<string>): (r: seq<int>)
    ensures r != []
    ensures forall k :: 0 <= k < |r| ==> 0 <= r[k] <= 23
  {
    KeptHours(AllParsed(Parsed(Config.GetList(raw, DefaultSleepTexts, ','))))
  }

  /** With the key unset the bot sleeps at 1, 3, 9 and 10 o'clock. */
  lemma SleepHoursUnset()
    ensures LoadSleepHours(None) == DefaultSleepHours
  {
    var texts := Config.GetList(None, DefaultSleepTexts, ',');
    assert texts == DefaultSleepTexts;
    DefaultTexts();
    ParseAllTexts(DefaultSleepHours);
    assert AllParsed(Parsed(texts)) == Some(DefaultSleepHours);
    DefaultHoursInDay();
  }

  /** The default hours are all hours of the day. */
  lemma DefaultHoursInDay()
    ensures InDay(DefaultSleepHours) == DefaultSleepHours
  {
    assert forall k :: 0 <= k < |DefaultSleepHours| ==> 0 <= DefaultSleepHours[k] <= 23;
    InDayMembers(DefaultSleepHours);
  }

  /** The decimal texts of a list of integers. */
  function IntTexts(hs: seq<int>): (r: seq<string>)
    ensures |r| == |hs|
    ensures forall k :: 0 <= k < |hs| ==> r[k] == IntToString(hs[k])
  {
    seq(|hs|, k requires 0 <= k < |hs| => IntToString(hs[k]))
  }

  /** The default item texts are the decimal texts of the default hours. */
  lemma DefaultTexts()
    ensures IntTexts(DefaultSleepHours) == DefaultSleepTexts
  {
    assert IntToString(1) == "1" && IntToString(3) == "3" && IntToString(9) == "9";
    assert IntToString(10) == "10";
  }

  /** The decimal texts of a list of integers read back as that list. */
  lemma ParseAllTexts(hs: seq<int>)
    ensures AllParsed(Parsed(IntTexts(hs))) == Some(hs)
  {
    var xs := Parsed(IntTexts(hs));
    forall k | 0 <= k < |hs| ensures xs[k] == Some(hs[k]) {
      ParseIntToString(hs[k]);
    }
    AllParsedSome(hs, xs);
  }

  /** A list of hours written as comma-separated integers reads back as the
      same list. */
  lemma SleepHoursRoundTrip(hs: seq<int>)
    requires hs != []
    requires forall k :: 0 <= k < |hs| ==> 0 <= hs[k] <= 23
    ensures LoadSleepHours(Some(Join(IntTexts(hs), ","))) == hs
  {
    var texts := IntTexts(hs);
    forall k | 0 <= k < |texts| ensures Config.ListItem(texts[k], ',') {
      StripUnchanged(texts[k]);
      assert forall i :: 0 <= i < |texts[k]| ==> texts[k][i] != ',';
    }
    Config.GetListJoin(texts, ',', DefaultSleepTexts);
    ParseAllTexts(hs);
    InDayMembers(hs);
  }

  /** A value whose first character is `[` is not a list of integers: the
      first item keeps the bracket, `int` raises, and the default hours are
      used. */
  lemma BracketedSleepHoursIgnored(text: string)
    requires text != [] && text[0] == '['
    ensures LoadSleepHours(Some(text)) == DefaultSleepHours
  {
    var items := Split(text, ',');
    assert items[0] != [] && items[0][0] == '[';
    StripKeepsFirst(items[0]);
    var first := Strip(items[0]);
    var kept := Config.StrippedNonEmpty(items);
    assert kept[0] == first;
    StripUnchanged(first);
    assert ParseInt(kept[0]).None?;
  }

  // Clock predicates

  /** `isTrendingTime`: the bot posts trends outside its sleep hours. */
  predicate IsTrendingTime(hour: int, sleepHours: seq<int>) {
    hour !in sleepHours
  }

  /** `getStatus`: the bot is active outside the night window
      `start..end`, both ends included. */
  predicate GetStatus(hour: int, start: int, end: int) {
    !(start <= hour <= end)
  }

  /** With the default schedule the bot posts trends at every hour except
      1, 3, 9 and 10. */
  lemma DefaultTrendingHours(hour: int)
    ensures IsTrendingTime(hour, LoadSleepHours(None)) <==> hour != 1 && hour != 3 && hour != 9 && hour != 10
  {
    SleepHoursUnset();
  }

  /** The night window does not wrap past midnight: with a start hour after
      the end hour the bot is never in night mode, and with the defaults it
      is inactive from 1 to 6 o'clock. */
  lemma NightWindow(hour: int, start: int, end: int)
    ensures start > end ==> GetStatus(hour, start, end)
    ensures !GetStatus(hour, NightStart(None), NightEnd(None)) <==> 1 <= hour <= 6
  {
  }

  // Initialisation

  /** The two once-only initialisation flags of the scheduler module. */
  class Initializer {
    var modulesInitialized: bool
    var clientInitialized: bool

    /** A client is only ever marked ready after the modules are. */
    predicate Valid()
      reads this
    {
      clientInitialized ==> modulesInitialized
    }

    constructor ()
      ensures !modulesInitialized && !clientInitialized && Valid()
    {
      modulesInitialized := false;
      clientInitialized := false;
    }

    /** `initialize_bot_modules`: true at once when done before; otherwise
        the imports are tried and success is remembered. */
    method InitializeBotModules(importOk: bool) returns (ok: bool)
      requires Valid()
      modifies this
      ensures Valid()
      ensures ok == (old(modulesInitialized) || importOk)
      ensures modulesInitialized == ok && clientInitialized == old(clientInitialized)
    {
      if modulesInitialized {
        return true;
      }
      if importOk {
        modulesInitialized := true;
        return true;
      }
      return false;
    }

    /** `initialize_twitter_client`: true at once when done before; otherwise
        the modules must initialise and `get_client` must return a client. */
    method InitializeTwitterClient(importOk: bool, clientBuilt: bool) returns (ok: bool)
      requires Valid()
      modifies this
      ensures Valid()
      ensures ok == (old(clientInitialized) || ((old(modulesInitialized) || importOk) && clientBuilt))
      ensures clientInitialized == ok
      ensures modulesInitialized == (old(modulesInitialized) || (!old(clientInitialized) && importOk))
    {
      if clientInitialized {
        return true;
      }
      var modules := InitializeBotModules(importOk);
      if !modules {
        return false;
      }
      if !clientBuilt {
        return false;
      }
      clientInitialized := true;
      return true;
    }

    /** `reset_initialization` */
    method ResetInitialization()
      modifies this
      ensures !modulesInitialized && !clientInitialized && Valid()
    {
      modulesInitialized := false;
      clientInitialized := false;
    }
  }

  // Publishing

  /** What one `create_tweet` call did. */
  datatype PostOutcome = Posted | Failed(message: string)

  const RateLimitMarkers: seq<string> := ["rate limit", "too many requests", "429"]

  /** An error counts as a rate limit when its lower-cased text contains one
      of the markers. */
  predicate IsRateLimit(message: string) {
    var m := Lower(message);
    Contains(m, "rate limit") || Contains(m, "too many requests") || Contains(m, "429")
  }

  predicate Retryable(o: PostOutcome) {
    o.Failed? && IsRateLimit(o.message)
  }

  /** A marker in any letter case anywhere in the text makes it a rate limit. */
  lemma MarkerAnyCase(pre: string, marker: string, post: string)
    requires Lower(marker) in RateLimitMarkers
    ensures IsRateLimit(pre + marker + post)
  {
    LowerAppend(pre + marker, post);
    LowerAppend(pre, marker);
    var m := Lower(pre + marker + post);
    assert m == Lower(pre) + Lower(marker) + Lower(post);
    assert m[|pre|..|pre| + |marker|] == Lower(marker);
    ContainsAt(m, Lower(marker), |pre|);
  }

  /** The API's own wording is recognised whatever its case. */
  lemma TooManyRequestsRecognised(pre: string, post: string)
    ensures IsRateLimit(pre + "Too Many Requests" + post)
  {
    assert Lower("Too Many Requests") == "too many requests";
    MarkerAnyCase(pre, "Too Many Requests", post);
  }

  const MaxRetries: nat := 3

  /** The wait after the `n`-th rate limit. */
  function RetryWait(n: nat): int {
    Pow2(n) * 60
  }

  /** `scheduled_tweet`: post, retrying after a rate limit. `post(i)` is what
      the `i`-th call to `create_tweet` does; `calls` counts the calls made and
      `sleeps` holds the waits slept, in order. */
  method ScheduledTweet(clientReady: bool, post: nat -> PostOutcome)
    returns (status: bool, calls: nat, sleeps: seq<int>)
    ensures !clientReady ==> !status && calls == 0 && sleeps == []
    ensures clientReady ==> 1 <= calls <= MaxRetries && |sleeps| == calls - 1
    ensures forall i :: 0 <= i < calls - 1 ==> Retryable(post(i))
    ensures clientReady && calls < MaxRetries ==> !Retryable(post(calls - 1))
    ensures status <==> clientReady && post(calls - 1).Posted?
    ensures sleeps <= [120, 240]
  {
    status, calls, sleeps := false, 0, [];
    if !clientReady {
      return;
    }
    var retryCount := 0;
    while retryCount < MaxRetries
      invariant retryCount < MaxRetries
      invariant retryCount == calls && |sleeps| == retryCount
      invariant forall i :: 0 <= i < calls ==> Retryable(post(i))
      invariant forall i :: 0 <= i < |sleeps| ==> sleeps[i] == RetryWait(i + 1)
      decreases MaxRetries - retryCount
    {
      var outcome := post(calls);
      calls := calls + 1;
      if outcome.Posted? {
        status := true;
        return;
      }
      if IsRateLimit(outcome.message) {
        retryCount := retryCount + 1;
        var wait := RetryWait(retryCount);
        if retryCount < MaxRetries {
          sleeps := sleeps + [wait];
          continue;
        } else {
          break;
        }
      } else {
        break;
      }
    }
    assert RetryWait(1) == 120 && RetryWait(2) == 240;
  }
}
