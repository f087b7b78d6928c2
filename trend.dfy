/** Trending topics: fetching the trends page, picking rows out of it, keeping
    the topics written in English or Turkish, and formatting them as numbered
    lines. The HTTP request and the HTML parser are parameters; the Unicode
    character database is the parameter `info`. */
module Trend {
  import opened Text

  /** What the Unicode database says about one character. */
  datatype CharInfo = CharInfo(category: string, name: string)

  const TurkishChars: set<char> := {
    'ğ', 'ü', 'ş', 'ı', 'ö', 'ç', 'Ğ', 'Ü', 'Ş', 'İ', 'Ö', 'Ç',
    'â', 'ê', 'î', 'ô', 'û', 'Â', 'Ê', 'Î', 'Ô', 'Û'}

  /** Punctuation, maths-symbol and space categories that are let through. */
  const AllowedCategories: set<string> := {"Pd", "Po", "Ps", "Pe", "Pc", "Sm", "Zs"}

  /** One character passes when it is ASCII, one of the Turkish letters, a
      letter whose Unicode name mentions LATIN, or in an allowed category. */
  predicate CharAllowed(c: char, info: char -> CharInfo) {
    (c as int) < 128
    || c in TurkishChars
    || (StartsWith(info(c).category, "L") && Contains(info(c).name, "LATIN"))
    || info(c).category in AllowedCategories
  }

  predicate EnglishOrTurkish(text: string, info: char -> CharInfo) {
    forall i :: 0 <= i < |text| ==> CharAllowed(text[i], info)
  }

  /** `is_english_or_turkish`: scan the text and stop at the first character
      that does not pass. */
  method IsEnglishOrTurkish(text: string, info: char -> CharInfo) returns (r: bool)
    ensures r <==> EnglishOrTurkish(text, info)
  {
    var i := 0;
    while i < |text|
      invariant 0 <= i <= |text|
      invariant forall j :: 0 <= j < i ==> CharAllowed(text[j], info)
    {
      if !CharAllowed(text[i], info) {
        return false;
      }
      i := i + 1;
    }
    return true;
  }

  /** Text made only of ASCII characters passes whatever the database says,
      and so does the empty text. */
  lemma AsciiPasses(text: string, info: char -> CharInfo)
    requires forall i :: 0 <= i < |text| ==> (text[i] as int) < 128
    ensures EnglishOrTurkish(text, info)
    ensures EnglishOrTurkish("", info)
  {
  }

  /** The accepted half of the module's own test table holds for every
      character database: each of these uses only ASCII and Turkish letters. */
  lemma AcceptedSamples(info: char -> CharInfo)
    ensures EnglishOrTurkish("Teknoloji", info)
    ensures EnglishOrTurkish("Müzik", info)
    ensures EnglishOrTurkish("İstanbul", info)
    ensures EnglishOrTurkish("Çiğdem", info)
    ensures EnglishOrTurkish("Hello World", info)
    ensures EnglishOrTurkish("Şarkı söyle", info)
    ensures EnglishOrTurkish("AI & Tech", info)
    ensures EnglishOrTurkish("Türkiye'de", info)
  {
    AcceptedTurkishSamples(info);
    AcceptedSpacedSamples(info);
  }

  lemma AcceptedTurkishSamples(info: char -> CharInfo)
    ensures EnglishOrTurkish("Müzik", info)
    ensures EnglishOrTurkish("İstanbul", info)
    ensures EnglishOrTurkish("Çiğdem", info)
  {
    assert CharAllowed('ü', info) && CharAllowed('İ', info) && CharAllowed('Ç', info);
    assert CharAllowed('ğ', info);
  }

  lemma AcceptedSpacedSamples(info: char -> CharInfo)
    ensures EnglishOrTurkish("Şarkı söyle", info)
    ensures EnglishOrTurkish("Türkiye'de", info)
  {
    assert CharAllowed('Ş', info) && CharAllowed('ı', info) && CharAllowed('ö', info);
    assert CharAllowed('ü', info);
  }

  /** A character outside ASCII and the Turkish letters whose Unicode name
      does not mention LATIN and whose category is not let through is
      rejected. */
  lemma ForeignCharRejected(c: char, info: char -> CharInfo, ci: CharInfo)
    requires info(c) == ci
    requires c as int >= 128 && c !in TurkishChars
    requires ci.category !in AllowedCategories
    requires !Contains(ci.name, "LATIN")
    ensures !CharAllowed(c, info)
  {
  }

  /** The rejected half of the module's own test table, given what the
      Unicode database says about the first letter of each sample. Each
      sample is an instance of `ForeignLead`. */
  lemma RejectedCyrillic(info: char -> CharInfo)
    requires info('П') == CharInfo("Lu", "CYRILLIC CAPITAL LETTER PE")
    ensures !EnglishOrTurkish("Привет", info)
  {
    ForeignLead("Привет", info, info('П'), 'N');
  }

  lemma RejectedArabic(info: char -> CharInfo)
    requires info('م') == CharInfo("Lo", "ARABIC LETTER MEEM")
    ensures !EnglishOrTurkish("مرحبا", info)
  {
    ForeignLead("مرحبا", info, info('م'), 'N');
  }

  lemma RejectedChinese(info: char -> CharInfo)
    requires info('你') == CharInfo("Lo", "CJK UNIFIED IDEOGRAPH-4F60")
    ensures !EnglishOrTurkish("你好", info)
  {
    ForeignLead("你好", info, info('你'), 'L');
  }

  /** A text is rejected when its first character lies beyond the Latin
      blocks, is a letter, and has a Unicode name missing a letter of
      `LATIN`. */
  lemma ForeignLead(text: string, info: char -> CharInfo, ci: CharInfo, ch: char)
    requires text != [] && info(text[0]) == ci && text[0] as int >= 0x400
    requires ci.category != [] && ci.category[0] == 'L'
    requires ch in "LATIN" && ch !in ci.name
    ensures !EnglishOrTurkish(text, info)
  {
    BeyondLatinNotTurkish(text[0]);
    LetterNotAllowed(ci.category);
    NoLatin(ci.name, ch);
    ForeignCharRejected(text[0], info, ci);
  }

  /** Every Turkish letter lies below U+0400. */
  lemma BeyondLatinNotTurkish(c: char)
    requires c as int >= 0x400
    ensures c !in TurkishChars
  {
  }

  /** No letter category is let through. */
  lemma LetterNotAllowed(category: string)
    requires category != [] && category[0] == 'L'
    ensures category !in AllowedCategories
  {
    forall a | a in AllowedCategories ensures a[0] != 'L' {
    }
  }

  /** A name missing one of the letters of `LATIN` cannot contain it. */
  lemma {:induction false} NoLatin(name: string, ch: char)
    requires ch in "LATIN" && ch !in name
    ensures !Contains(name, "LATIN")
    decreases |name|
  {
    if name != [] {
      assert !StartsWith(name, "LATIN") by {
        if |name| >= 5 {
          var j :| 0 <= j < 5 && "LATIN"[j] == ch;
          assert name[..5][j] == name[j];
          assert name[j] in name;
        }
      }
      assert forall c :: c in name[1..] ==> c in name;
      NoLatin(name[1..], ch);
    }
  }

  /** Python's `s[:n]`: a negative `n` counts from the end. */
  function PySliceTo<T>(s: seq<T>, n: int): (r: seq<T>)
    ensures |r| <= |s| && r == s[..|r|]
    ensures n >= 0 ==> |r| == Min(n, |s|)
    ensures n < 0 ==> |r| == if |s| + n < 0 then 0 else |s| + n
  {
    if n >= 0 then s[..Min(n, |s|)]
    else if |s| + n < 0 then []
    else s[..|s| + n]
  }

  /** The `a.tweet` link of a table row, with its attributes. */
  datatype TrendLink = TrendLink(text: string, href: Option<string>, tweetCount: Option<string>)
  datatype Row = Row(link: Option<TrendLink>)

  datatype TrendItem = TrendItem(name: string, url: string, tweetCount: string)

  /** The record made from a link that has an `href`. */
  function ItemOf(l: TrendLink): TrendItem
    requires l.href.Some?
  {
    TrendItem(Strip(l.text), l.href.value, l.tweetCount.GetOr("N/A"))
  }

  /** Rows without a link are skipped; a link without `href` raises a
      `KeyError` (`None`). */
  function Hashtags(rows: seq<Row>): (r: Option<seq<TrendItem>>)
    ensures r.Some? ==> |r.value| <= |rows|
    decreases |rows|
  {
    if rows == [] then Some([])
    else
      var last := rows[|rows| - 1];
      match Hashtags(rows[..|rows| - 1])
      case None => None
      case Some(prefix) =>
        if last.link.None? then Some(prefix)
        else if last.link.value.href.None? then None
        else Some(prefix + [ItemOf(last.link.value)])
  }

  predicate MissingHrefAt(rows: seq<Row>, i: int)
    requires 0 <= i < |rows|
  {
    rows[i].link.Some? && rows[i].link.value.href.None?
  }

  /** The parse fails exactly when some linked row lacks its `href`. */
  lemma {:induction false} HashtagsNoneIff(rows: seq<Row>)
    ensures Hashtags(rows).None? <==> exists i :: 0 <= i < |rows| && MissingHrefAt(rows, i)
    decreases |rows|
  {
    if rows != [] {
      var n := |rows| - 1;
      var init := rows[..n];
      HashtagsNoneIff(init);
      forall i | 0 <= i < n ensures MissingHrefAt(init, i) == MissingHrefAt(rows, i) {
        assert init[i] == rows[i];
      }
      if Hashtags(rows).None? {
        if Hashtags(init).Some? {
          assert MissingHrefAt(rows, n);
        }
      } else {
        assert !MissingHrefAt(rows, n);
      }
    }
  }

  /** Every row with a link contributes one record. */
  lemma {:induction false} HashtagsKeepLinked(rows: seq<Row>, i: nat)
    requires i < |rows| && rows[i].link.Some? && rows[i].link.value.href.Some?
    requires Hashtags(rows).Some?
    ensures ItemOf(rows[i].link.value) in Hashtags(rows).value
    decreases |rows|
  {
    var init := rows[..|rows| - 1];
    if i < |rows| - 1 {
      assert init[i] == rows[i];
      HashtagsKeepLinked(init, i);
    }
  }

  /** Every record comes from a row with a link. */
  lemma {:induction false} HashtagsFromLinked(rows: seq<Row>, x: TrendItem) returns (i: nat)
    requires Hashtags(rows).Some? && x in Hashtags(rows).value
    ensures i < |rows| && rows[i].link.Some? && rows[i].link.value.href.Some?
    ensures x == ItemOf(rows[i].link.value)
    decreases |rows|
  {
    var init := rows[..|rows| - 1];
    if x in Hashtags(init).value {
      i := HashtagsFromLinked(init, x);
      assert init[i] == rows[i];
    } else {
      i := |rows| - 1;
    }
  }

  /** The parse of the rows before a missing `href` never recovers. */
  lemma HashtagsNoneExtends(rows: seq<Row>, j: nat)
    requires j <= |rows| && Hashtags(rows[..j]).None?
    ensures Hashtags(rows).None?
  {
    HashtagsNoneIff(rows[..j]);
    HashtagsNoneIff(rows);
    var i :| 0 <= i < j && MissingHrefAt(rows[..j], i);
    assert rows[..j][i] == rows[i];
    assert MissingHrefAt(rows, i);
  }

  /** `get_trending_hashtags`: walk the first `limit` rows and collect a
      record for each one with a tweet link. */
  method GetTrendingHashtags(rows: seq<Row>, limit: int) returns (r: Option<seq<TrendItem>>)
    ensures r == Hashtags(PySliceTo(rows, limit))
    ensures r.Some? && limit >= 0 ==> |r.value| <= limit
  {
    var picked := PySliceTo(rows, limit);
    var trends: seq<TrendItem> := [];
    var i := 0;
    while i < |picked|
      invariant 0 <= i <= |picked|
      invariant Hashtags(picked[..i]) == Some(trends)
    {
      assert picked[..i + 1][..i] == picked[..i];
      assert picked[..i + 1][i] == picked[i];
      var link := picked[i].link;
      if link.Some? {
        if link.value.href.None? {
          HashtagsNoneExtends(picked, i + 1);
          return None;
        }
        trends := trends + [ItemOf(link.value)];
      }
      i := i + 1;
    }
    assert picked[..i] == picked;
    r := Some(trends);
  }

  /** The records whose names pass the script filter, in order. */
  function Passing(items: seq<TrendItem>, info: char -> CharInfo): (r: seq<TrendItem>)
    ensures |r| <= |items|
    ensures forall k :: 0 <= k < |r| ==> EnglishOrTurkish(r[k].name, info)
  {
    if items == [] then []
    else
      var rest := Passing(items[1..], info);
      if EnglishOrTurkish(items[0].name, info) then [items[0]] + rest else rest
  }

  /** A record is kept exactly when it was there and its name passes. */
  lemma {:induction false} PassingMembers(items: seq<TrendItem>, info: char -> CharInfo, x: TrendItem)
    ensures x in Passing(items, info) <==> x in items && EnglishOrTurkish(x.name, info)
  {
    if items != [] {
      PassingMembers(items[1..], info, x);
      assert x in items <==> x == items[0] || x in items[1..];
    }
  }

  /** Filtering distributes over concatenation, so it keeps the original order. */
  lemma {:induction false} PassingAppend(a: seq<TrendItem>, b: seq<TrendItem>, info: char -> CharInfo)
    ensures Passing(a + b, info) == Passing(a, info) + Passing(b, info)
  {
    if a != [] {
      assert (a + b)[0] == a[0];
      assert (a + b)[1..] == a[1..] + b;
      PassingAppend(a[1..], b, info);
    } else {
      assert a + b == b;
    }
  }

  /** `get_EnglishTrend`: the passing trends among the first 15 rows, cut to `limit`. */
  function EnglishTrend(rows: seq<Row>, limit: int, info: char -> CharInfo): (r: Option<seq<TrendItem>>)
    ensures r.None? <==> Hashtags(PySliceTo(rows, 15)).None?
    ensures r.Some? ==> r.value == PySliceTo(Passing(Hashtags(PySliceTo(rows, 15)).value, info), limit)
    ensures r.Some? ==> |r.value| <= 15
    ensures r.Some? ==> forall k :: 0 <= k < |r.value| ==> EnglishOrTurkish(r.value[k].name, info)
    ensures r.Some? && limit >= 0 ==> |r.value| <= limit
  {
    match Hashtags(PySliceTo(rows, 15))
    case None => None
    case Some(all) =>
      var passing := Passing(all, info);
      var r := PySliceTo(passing, limit);
      assert forall k :: 0 <= k < |r| ==> r[k] in passing;
      Some(r)
  }

  /** An HTTP exchange: a response with a status code and body, or a failure
      (timeout, connection error, any other exception). */
  datatype HttpOutcome = Response(status: int, body: string) | Failed

  /** `fetch_trend`: the page text on status 200 and `None` otherwise. */
  function FetchTrend(outcome: HttpOutcome): (r: Option<string>)
    ensures r.Some? <==> outcome.Response? && outcome.status == 200
    ensures r.Some? ==> r.value == outcome.body
  {
    if outcome.Response? && outcome.status == 200 then Some(outcome.body) else None
  }

  /** The line shown for the trend at 1-based position `idx`. */
  function FormatLine(idx: nat, t: TrendItem): string {
    NatToString(idx) + ". " + t.name + " (" + t.tweetCount + " Tweets) URL: " + t.url
  }

  datatype Prepared = Lines(lines: seq<string>) | NoPage | MissingHref

  /** `prepareTrend`: fetch the page; with no page (or an empty one) there is
      nothing; otherwise number each selected trend from 1. `parse` stands for
      the HTML parser's row selection. */
  method PrepareTrend(limit: int, outcome: HttpOutcome, parse: string -> seq<Row>, info: char -> CharInfo)
    returns (r: Prepared)
    ensures r.NoPage? <==> FetchTrend(outcome).GetOr("") == ""
    ensures r.MissingHref? <==> FetchTrend(outcome).GetOr("") != "" && EnglishTrend(parse(outcome.body), limit, info).None?
    ensures r.Lines? ==>
      var trends := EnglishTrend(parse(outcome.body), limit, info).value;
      |r.lines| == |trends| && forall k :: 0 <= k < |trends| ==> r.lines[k] == FormatLine(k + 1, trends[k])
  {
    var html := FetchTrend(outcome);
    if html.GetOr("") == "" {
      return NoPage;
    }
    var selected := EnglishTrend(parse(html.value), limit, info);
    if selected.None? {
      return MissingHref;
    }
    var trends := selected.value;
    var lines: seq<string> := [];
    var idx := 0;
    while idx < |trends|
      invariant 0 <= idx <= |trends|
      invariant |lines| == idx
      invariant forall k :: 0 <= k < idx ==> lines[k] == FormatLine(k + 1, trends[k])
    {
      lines := lines + [FormatLine(idx + 1, trends[idx])];
      idx := idx + 1;
    }
    r := Lines(lines);
  }

  /** Each line starts with its 1-based position and a dot. */
  lemma FormatLineNumbered(idx: nat, t: TrendItem)
    ensures StartsWith(FormatLine(idx, t), NatToString(idx) + ". ")
  {
    var prefix := NatToString(idx) + ". ";
    assert FormatLine(idx, t)[..|prefix|] == prefix;
  }
}
