/** The dashboard's input validators: the tweet length Twitter counts (every
    URL as a 23-character t.co link), the tweet-text check, the input
    sanitiser, and the strength score of the Flask secret key. */
module Validators {
  import opened Text

  // The weighted tweet length

  const TcoUrlLength: nat := 23

  /** The length of the run of non-whitespace characters that starts `s`. */
  function RunLength(s: string): (n: nat)
    ensures n <= |s|
    ensures forall i :: 0 <= i < n ==> !IsSpace(s[i])
    ensures n < |s| ==> IsSpace(s[n])
  {
    if s == [] || IsSpace(s[0]) then 0 else 1 + RunLength(s[1..])
  }

  /** The length of the match of `https?://[^\s]+` at the start of `s`, if
      it matches there. */
  function UrlAt(s: string): (r: Option<nat>)
    ensures r.Some? ==> 8 <= r.value <= |s|
    ensures r.Some? ==> forall i :: 0 <= i < r.value ==> !IsSpace(s[i])
    ensures r.Some? ==> r.value == |s| || IsSpace(s[r.value])
  {
    if StartsWith(s, "https://") && RunLength(s[8..]) > 0 then Some(8 + RunLength(s[8..]))
    else if StartsWith(s, "http://") && RunLength(s[7..]) > 0 then Some(7 + RunLength(s[7..]))
    else None
  }

  /** `re.findall(r'https?://[^\s]+', text)`: scanning left to right, a match
      is taken whole and the scan resumes after it. */
  function Urls(s: string): (r: seq<string>)
    decreases |s|
  {
    if s == [] then []
    else match UrlAt(s)
      case Some(n) => [s[..n]] + Urls(s[n..])
      case None => Urls(s[1..])
  }

  /** The summed length of some strings. */
  function TotalLength(us: seq<string>): nat {
    if us == [] then 0 else TotalLength(us[..|us| - 1]) + |us[|us| - 1]|
  }

  /** The length Twitter counts: the text's own length with every URL
      replaced by a t.co link. */
  function TwitterLength(text: string): int {
    |text| - TotalLength(Urls(text)) + TcoUrlLength * |Urls(text)|
  }

  /** Every URL found starts with a scheme, holds no whitespace and is at
      least one character longer than its scheme. */
  lemma {:induction false} UrlsShape(s: string)
    ensures forall k :: 0 <= k < |Urls(s)| ==>
      (StartsWith(Urls(s)[k], "https://") || StartsWith(Urls(s)[k], "http://"))
      && |Urls(s)[k]| >= 8 && forall i :: 0 <= i < |Urls(s)[k]| ==> !IsSpace(Urls(s)[k][i])
    decreases |s|
  {
    if s != [] {
      match UrlAt(s)
      case Some(n) =>
        UrlsShape(s[n..]);
        assert s[..n][..8] == s[..8] && s[..n][..7] == s[..7];
      case None =>
        UrlsShape(s[1..]);
    }
  }

  /** The URLs found are disjoint pieces of the text, so together they are no
      longer than it. */
  lemma {:induction false} UrlsFit(s: string)
    ensures TotalLength(Urls(s)) <= |s|
    decreases |s|
  {
    if s != [] {
      match UrlAt(s)
      case Some(n) =>
        UrlsFit(s[n..]);
        TotalLengthPrepend(s[..n], Urls(s[n..]));
      case None =>
        UrlsFit(s[1..]);
    }
  }

  lemma {:induction false} TotalLengthPrepend(u: string, us: seq<string>)
    ensures TotalLength([u] + us) == |u| + TotalLength(us)
    decreases |us|
  {
    if us != [] {
      assert ([u] + us)[..|us|] == [u] + us[..|us| - 1];
      TotalLengthPrepend(u, us[..|us| - 1]);
    }
  }

  lemma {:induction false} TotalLengthAppend(us: seq<string>, vs: seq<string>)
    ensures TotalLength(us + vs) == TotalLength(us) + TotalLength(vs)
    decreases |vs|
  {
    if vs == [] {
      assert us + vs == us;
    } else {
      assert (us + vs)[..|us + vs| - 1] == us + vs[..|vs| - 1];
      TotalLengthAppend(us, vs[..|vs| - 1]);
    }
  }

  /** The weighted length is never negative and adds at most 15 characters
      per URL, since a URL is at least 8 characters long. */
  lemma TwitterLengthBounds(text: string)
    ensures 0 <= TwitterLength(text) <= |text| + 15 * |Urls(text)|
  {
    UrlsFit(text);
    UrlsShape(text);
    UrlsAtLeastEight(Urls(text));
  }

  lemma {:induction false} UrlsAtLeastEight(us: seq<string>)
    requires forall k :: 0 <= k < |us| ==> |us[k]| >= 8
    ensures TotalLength(us) >= 8 * |us|
  {
    if us != [] {
      UrlsAtLeastEight(us[..|us| - 1]);
    }
  }

  /** A run with no whitespace runs to the end. */
  lemma {:induction false} RunLengthNoSpace(s: string)
    requires forall i :: 0 <= i < |s| ==> !IsSpace(s[i])
    ensures RunLength(s) == |s|
  {
    if s != [] {
      RunLengthNoSpace(s[1..]);
    }
  }

  /** A run stops at whitespace, whatever follows it. */
  lemma {:induction false} RunLengthAppend(x: string, y: string)
    requires x != [] && IsSpace(x[|x| - 1])
    ensures RunLength(x + y) == RunLength(x)
  {
    if !IsSpace(x[0]) {
      assert (x + y)[1..] == x[1..] + y;
      RunLengthAppend(x[1..], y);
    }
  }

  /** A prefix without whitespace lies wholly inside a text that ends in
      whitespace, and the run after it stops inside that text too. */
  lemma PrefixAppend(a: string, b: string, p: string)
    requires a != [] && IsSpace(a[|a| - 1])
    requires forall i :: 0 <= i < |p| ==> !IsSpace(p[i])
    ensures StartsWith(a + b, p) <==> StartsWith(a, p)
    ensures StartsWith(a, p) ==> RunLength((a + b)[|p|..]) == RunLength(a[|p|..])
  {
    var s := a + b;
    if StartsWith(s, p) {
      assert forall i :: 0 <= i < |p| ==> s[i] == p[i];
      assert IsSpace(s[|a| - 1]);
      assert |a| > |p|;
      assert a[..|p|] == s[..|p|];
    }
    if StartsWith(a, p) {
      assert s[..|p|] == a[..|p|];
      assert s[|p|..] == a[|p|..] + b;
      RunLengthAppend(a[|p|..], b);
    }
  }

  /** A match cannot reach past whitespace. */
  lemma UrlAtAppend(a: string, b: string)
    requires a != [] && IsSpace(a[|a| - 1])
    ensures UrlAt(a + b) == UrlAt(a)
  {
    SchemesHaveNoSpace();
    PrefixAppend(a, b, "https://");
    PrefixAppend(a, b, "http://");
  }

  lemma SchemesHaveNoSpace()
    ensures forall i :: 0 <= i < |"https://"| ==> !IsSpace("https://"[i])
    ensures forall i :: 0 <= i < |"http://"| ==> !IsSpace("http://"[i])
  {
  }

  /** Scanning a text that ends in whitespace and then another text finds the
      URLs of each, in order. */
  lemma {:induction false} UrlsAppend(a: string, b: string)
    requires a == [] || IsSpace(a[|a| - 1])
    ensures Urls(a + b) == Urls(a) + Urls(b)
    decreases |a|, 1
  {
    if a == [] {
      assert a + b == b;
    } else {
      UrlAtAppend(a, b);
      match UrlAt(a)
      case Some(n) => UrlsAppendMatch(a, b, n);
      case None => UrlsAppendSkip(a, b);
    }
  }

  /** The step of `UrlsAppend` where a URL starts the first text. */
  lemma {:induction false} UrlsAppendMatch(a: string, b: string, n: nat)
    requires a != [] && IsSpace(a[|a| - 1])
    requires UrlAt(a) == Some(n) && UrlAt(a + b) == Some(n)
    ensures Urls(a + b) == Urls(a) + Urls(b)
    decreases |a|, 0
  {
    var s := a + b;
    assert n < |a| by {
      assert IsSpace(a[|a| - 1]);
    }
    assert s[..n] == a[..n];
    assert s[n..] == a[n..] + b;
    UrlsAppend(a[n..], b);
  }

  /** The step of `UrlsAppend` where no URL starts the first text. */
  lemma {:induction false} UrlsAppendSkip(a: string, b: string)
    requires a != [] && IsSpace(a[|a| - 1])
    requires UrlAt(a).None? && UrlAt(a + b).None?
    ensures Urls(a + b) == Urls(a) + Urls(b)
    decreases |a|, 0
  {
    assert (a + b)[1..] == a[1..] + b;
    UrlsAppend(a[1..], b);
  }

  /** A text without a colon holds no URL, so its weighted length is its
      length. */
  lemma {:induction false} NoColonNoUrls(s: string)
    requires forall i :: 0 <= i < |s| ==> s[i] != ':'
    ensures Urls(s) == [] && TwitterLength(s) == |s|
    decreases |s|
  {
    if s != [] {
      if |s| >= 8 {
        assert s[5] != ':' && "https://"[5] == ':';
        assert s[..8][5] == s[5];
      }
      if |s| >= 7 {
        assert s[4] != ':' && "http://"[4] == ':';
        assert s[..7][4] == s[4];
      }
      NoColonNoUrls(s[1..]);
    }
  }

  /** A single URL is one t.co link. */
  lemma SingleUrl(host: string)
    requires host != [] && forall i :: 0 <= i < |host| ==> !IsSpace(host[i])
    ensures Urls("https://" + host) == ["https://" + host]
  {
    var u := "https://" + host;
    assert u[..8] == "https://" && u[8..] == host;
    RunLengthNoSpace(host);
    assert UrlAt(u) == Some(|u|);
    assert u[..|u|] == u && u[|u|..] == [];
  }

  /** The plain sample: `"Hello world!"` counts 12. */
  lemma PlainSample()
    ensures TwitterLength("Hello world!") == 12
  {
    NoColonNoUrls("Hello world!");
  }

  /** Text without a colon followed by one URL: the text counts in full
      and the URL counts 23, whatever its own length. */
  lemma {:induction false} TextThenUrl(pre: string, host: string)
    requires forall i :: 0 <= i < |pre| ==> pre[i] != ':'
    requires pre != [] && IsSpace(pre[|pre| - 1])
    requires host != [] && forall i :: 0 <= i < |host| ==> !IsSpace(host[i])
    ensures TwitterLength(pre + ("https://" + host)) == |pre| + TcoUrlLength
  {
    var url := "https://" + host;
    NoColonNoUrls(pre);
    SingleUrl(host);
    UrlsAppend(pre, url);
    assert Urls(pre + url) == [url];
    TotalLengthPrepend(url, []);
    assert [url] + [] == [url];
  }

  lemma ExampleHost()
    ensures forall i :: 0 <= i < |"example.com"| ==> !IsSpace("example.com"[i])
  {
  }

  /** The mixed sample: mentions and hashtags count in full and the URL
      counts 23. */
  lemma MixedSample()
    ensures TwitterLength("Hello @user1 @user2 #tech " + ("https://" + "example.com"))
      == |"Hello @user1 @user2 #tech "| + 23
  {
    ExampleHost();
    TextThenUrl("Hello @user1 @user2 #tech ", "example.com");
  }

  /** Every match starts with `h`, so a text without one holds no URL. */
  lemma {:induction false} NoHNoUrls(s: string)
    requires 'h' !in s
    ensures Urls(s) == []
    decreases |s|
  {
    if s != [] {
      assert UrlAt(s).None? by {
        if |s| >= 7 {
          assert s[..7][0] == s[0];
        }
        if |s| >= 8 {
          assert s[..8][0] == s[0];
        }
      }
      assert forall c :: c in s[1..] ==> c in s;
      NoHNoUrls(s[1..]);
    }
  }

  /** A run of non-whitespace ends where whitespace begins. */
  lemma {:induction false} RunLengthStop(x: string, y: string)
    requires forall i :: 0 <= i < |x| ==> !IsSpace(x[i])
    requires y != [] && IsSpace(y[0])
    ensures RunLength(x + y) == |x|
  {
    if x == [] {
      assert x + y == y;
    } else {
      assert (x + y)[1..] == x[1..] + y;
      RunLengthStop(x[1..], y);
    }
  }

  /** A URL followed by whitespace is found whole, and the scan goes on from
      the whitespace. */
  lemma UrlThenRest(host: string, rest: string)
    requires host != [] && forall i :: 0 <= i < |host| ==> !IsSpace(host[i])
    requires rest != [] && IsSpace(rest[0])
    ensures Urls("https://" + host + rest) == ["https://" + host] + Urls(rest)
  {
    var v := "https://" + host;
    var s := v + rest;
    assert s[..8] == "https://" by {
      assert s[..8] == v[..8];
    }
    assert s[8..] == host + rest;
    RunLengthStop(host, rest);
    assert UrlAt(s) == Some(|v|);
    assert s[..|v|] == v && s[|v|..] == rest;
  }

  /** Text holding no URL and ending in whitespace, then one URL: the text
      counts in full and the URL counts 23. */
  lemma NoUrlsThenUrl(pre: string, host: string)
    requires Urls(pre) == [] && pre != [] && IsSpace(pre[|pre| - 1])
    requires host != [] && forall i :: 0 <= i < |host| ==> !IsSpace(host[i])
    ensures TwitterLength(pre + ("https://" + host)) == |pre| + TcoUrlLength
  {
    var url := "https://" + host;
    SingleUrl(host);
    UrlsAppend(pre, url);
    assert Urls(pre + url) == [url];
    TotalLengthPrepend(url, []);
    assert [url] + [] == [url];
  }

  /** Visible ASCII characters are not whitespace. */
  lemma VisibleNoSpace(s: string)
    requires forall i :: 0 <= i < |s| ==> '!' <= s[i] <= '~'
    ensures forall i :: 0 <= i < |s| ==> !IsSpace(s[i])
  {
  }

  /** Two runs without whitespace make one. */
  lemma NoSpaceAppend(a: string, b: string)
    requires forall i :: 0 <= i < |a| ==> !IsSpace(a[i])
    requires forall i :: 0 <= i < |b| ==> !IsSpace(b[i])
    ensures forall i :: 0 <= i < |a + b| ==> !IsSpace((a + b)[i])
  {
    forall i | 0 <= i < |a + b| ensures !IsSpace((a + b)[i]) {
      if i >= |a| {
        assert (a + b)[i] == b[i - |a|];
      }
    }
  }

  /** Words without a colon, each ending in a space, then a last word
      without a colon: no URL, and the length counts in full. */
  lemma PlainWords(a: string, b: string, c: string)
    requires forall i :: 0 <= i < |a| ==> a[i] != ':'
    requires forall i :: 0 <= i < |b| ==> b[i] != ':'
    requires forall i :: 0 <= i < |c| ==> c[i] != ':'
    requires a != [] && IsSpace(a[|a| - 1]) && b != [] && IsSpace(b[|b| - 1])
    ensures TwitterLength(a + (b + c)) == |a| + |b| + |c|
  {
    NoColonNoUrls(a);
    NoColonNoUrls(b);
    NoColonNoUrls(c);
    UrlsAppend(b, c);
    UrlsAppend(a, b + c);
  }

  /** The mention row of the self-test: the mention counts in full. */
  lemma MentionRow()
    ensures TwitterLength("@username " + ("how are " + "you?")) == 22
  {
    PlainWords("@username ", "how are ", "you?");
  }

  /** The hashtag row of the self-test: the hashtags count in full. */
  lemma HashtagRow()
    ensures TwitterLength("#hashtag " + ("#trending " + "now")) == 22
  {
    PlainWords("#hashtag ", "#trending ", "now");
  }

  lemma LongHostNoSpace()
    ensures forall i :: 0 <= i < |"example.com" + ("/very-long-url-" + "that-will-be-shortened")| ==>
      !IsSpace(("example.com" + ("/very-long-url-" + "that-will-be-shortened"))[i])
  {
    VisibleNoSpace("example.com");
    VisibleNoSpace("/very-long-url-");
    VisibleNoSpace("that-will-be-shortened");
    NoSpaceAppend("/very-long-url-", "that-will-be-shortened");
    NoSpaceAppend("example.com", "/very-long-url-" + "that-will-be-shortened");
  }

  /** Two colon-free words ending in whitespace, then a word without `h`:
      no URL. */
  lemma LabelNoUrls(a: string, b: string, c: string)
    requires forall i :: 0 <= i < |a| ==> a[i] != ':'
    requires forall i :: 0 <= i < |b| ==> b[i] != ':'
    requires a != [] && IsSpace(a[|a| - 1]) && b != [] && IsSpace(b[|b| - 1])
    requires 'h' !in c
    ensures Urls(a + (b + c)) == []
  {
    NoColonNoUrls(a);
    NoColonNoUrls(b);
    NoHNoUrls(c);
    UrlsAppend(b, c);
    UrlsAppend(a, b + c);
  }

  /** The labelled-URL row: 16 characters of text and one URL. */
  lemma LabelledUrlRow()
    ensures TwitterLength(("Check " + ("this " + "out: ")) + ("https://" + ("example.com" + ("/very-long-url-" + "that-will-be-shortened")))) == 39
  {
    LabelNoUrls("Check ", "this ", "out: ");
    LongHostNoSpace();
    NoUrlsThenUrl("Check " + ("this " + "out: "), "example.com" + ("/very-long-url-" + "that-will-be-shortened"));
  }

  /** Colon-free text, a URL, colon-free text that starts with whitespace,
      and a second URL: the scan finds the two URLs. */
  lemma TwoUrlsFound(pre: string, host1: string, mid: string, host2: string)
    requires forall i :: 0 <= i < |pre| ==> pre[i] != ':'
    requires pre != [] && IsSpace(pre[|pre| - 1])
    requires forall i :: 0 <= i < |mid| ==> mid[i] != ':'
    requires mid != [] && IsSpace(mid[0]) && IsSpace(mid[|mid| - 1])
    requires host1 != [] && forall i :: 0 <= i < |host1| ==> !IsSpace(host1[i])
    requires host2 != [] && forall i :: 0 <= i < |host2| ==> !IsSpace(host2[i])
    ensures Urls(pre + (("https://" + host1) + (mid + ("https://" + host2))))
      == ["https://" + host1] + ["https://" + host2]
  {
    var u1, u2 := "https://" + host1, "https://" + host2;
    var rest := mid + u2;
    NoColonNoUrls(mid);
    SingleUrl(host2);
    UrlsAppend(mid, u2);
    assert Urls(rest) == [u2];
    UrlThenRest(host1, rest);
    assert Urls(u1 + rest) == [u1] + [u2];
    NoColonNoUrls(pre);
    UrlsAppend(pre, u1 + rest);
  }

  /** The same text counts in full, and each URL counts 23. */
  lemma TwoUrls(pre: string, host1: string, mid: string, host2: string)
    requires forall i :: 0 <= i < |pre| ==> pre[i] != ':'
    requires pre != [] && IsSpace(pre[|pre| - 1])
    requires forall i :: 0 <= i < |mid| ==> mid[i] != ':'
    requires mid != [] && IsSpace(mid[0]) && IsSpace(mid[|mid| - 1])
    requires host1 != [] && forall i :: 0 <= i < |host1| ==> !IsSpace(host1[i])
    requires host2 != [] && forall i :: 0 <= i < |host2| ==> !IsSpace(host2[i])
    ensures TwitterLength(pre + (("https://" + host1) + (mid + ("https://" + host2))))
      == |pre| + |mid| + 2 * TcoUrlLength
  {
    var u1, u2 := "https://" + host1, "https://" + host2;
    var text := pre + (u1 + (mid + u2));
    TwoUrlsFound(pre, host1, mid, host2);
    TotalLengthPrepend(u1, [u2]);
    TotalLengthPrepend(u2, []);
    assert [u2] + [] == [u2];
    assert TotalLength([]) == 0;
    assert TotalLength(Urls(text)) == |u1| + |u2|;
    assert |text| == |pre| + |u1| + |mid| + |u2|;
  }

  /** The two-URL row: two URLs counting 23 each, with 11 characters of
      text around them. */
  lemma TwoUrlRow()
    ensures TwitterLength("Visit " + (("https://" + "example.com") + (" and " + ("https://" + "test.com")))) == 57
  {
    VisibleNoSpace("example.com");
    VisibleNoSpace("test.com");
    TwoUrls("Visit ", "example.com", " and ", "test.com");
  }

  /** The self-test table as written expects 20, 19, 23 + 17 and
      23 + 5 + 23 for these four rows; the code counts otherwise on every
      one. */
  lemma SelfTestExpectationsUnmet()
    ensures TwitterLength("@username " + ("how are " + "you?")) != 20
    ensures TwitterLength("#hashtag " + ("#trending " + "now")) != 19
    ensures TwitterLength(("Check " + ("this " + "out: ")) + ("https://" + ("example.com" + ("/very-long-url-" + "that-will-be-shortened")))) != 23 + 17
    ensures TwitterLength("Visit " + (("https://" + "example.com") + (" and " + ("https://" + "test.com")))) != 23 + 5 + 23
  {
    MentionRow();
    HashtagRow();
    LabelledUrlRow();
    TwoUrlRow();
  }

  // Mentions and hashtags

  /** Python's `\w` on ASCII: letters, digits and the underscore. */
  predicate IsWordChar(c: char) {
    ('a' <= c <= 'z') || ('A' <= c <= 'Z') || ('0' <= c <= '9') || c == '_'
  }

  /** The length of the run of word characters that starts `s`. */
  function WordRun(s: string): (n: nat)
    ensures n <= |s|
    ensures forall i :: 0 <= i < n ==> IsWordChar(s[i])
    ensures n < |s| ==> !IsWordChar(s[n])
  {
    if s == [] || !IsWordChar(s[0]) then 0 else 1 + WordRun(s[1..])
  }

  /** `re.findall(marker + r'\w+', text)`: a marker followed by a maximal
      run of word characters; the scan resumes after each match. */
  function Tags(s: string, marker: char): seq<string>
    decreases |s|
  {
    if s == [] then []
    else if s[0] == marker && WordRun(s[1..]) > 0 then
      var n := 1 + WordRun(s[1..]);
      [s[..n]] + Tags(s[n..], marker)
    else Tags(s[1..], marker)
  }

  /** Every tag found is the marker followed by at least one word character
      and nothing else. */
  lemma {:induction false} TagsShape(s: string, marker: char)
    ensures forall k :: 0 <= k < |Tags(s, marker)| ==>
      |Tags(s, marker)[k]| >= 2 && Tags(s, marker)[k][0] == marker
      && forall i :: 1 <= i < |Tags(s, marker)[k]| ==> IsWordChar(Tags(s, marker)[k][i])
    decreases |s|
  {
    if s != [] {
      if s[0] == marker && WordRun(s[1..]) > 0 {
        var n := 1 + WordRun(s[1..]);
        TagsShape(s[n..], marker);
        assert forall i :: 1 <= i < n ==> s[..n][i] == s[1..][i - 1];
      } else {
        TagsShape(s[1..], marker);
      }
    }
  }

  /** A text without the marker has no tags. */
  lemma {:induction false} NoMarkerNoTags(s: string, marker: char)
    requires marker !in s
    ensures Tags(s, marker) == []
    decreases |s|
  {
    if s != [] {
      assert forall c :: c in s[1..] ==> c in s;
      NoMarkerNoTags(s[1..], marker);
    }
  }

  /** `calculate_twitter_length`: walk the URLs, replacing each one's length
      by the t.co length; also reports the URLs, mentions and hashtags. */
  method CalculateTwitterLength(text: string)
    returns (length: int, urls: seq<string>, mentions: seq<string>, hashtags: seq<string>)
    ensures length == TwitterLength(text) && urls == Urls(text)
    ensures mentions == Tags(text, '@') && hashtags == Tags(text, '#')
  {
    mentions := Tags(text, '@');
    hashtags := Tags(text, '#');
    urls := Urls(text);
    length := |text|;
    for i := 0 to |urls|
      invariant length == |text| - TotalLength(urls[..i]) + TcoUrlLength * i
    {
      assert urls[..i + 1][..i] == urls[..i];
      length := length - |urls[i]| + TcoUrlLength;
    }
    assert urls[..|urls|] == urls;
  }

  // The tweet-text check

  /** The outcome of `validate_tweet_text`; an accepted text carries its
      weighted length. */
  datatype TweetCheck = Accepted(length: int) | Empty | OverLimit(length: int) | TooLong | Unsafe

  /** `re.search(r'<script|javascript:|data:', text, re.IGNORECASE)` */
  predicate HasUnsafeMarker(text: string) {
    var l := Lower(text);
    Contains(l, "<script") || Contains(l, "javascript:") || Contains(l, "data:")
  }

  /** `validate_tweet_text` */
  function ValidateTweetText(text: string): (r: TweetCheck)
    ensures r.Accepted? <==>
      Strip(text) != [] && TwitterLength(text) <= 280 && |text| <= 2000 && !HasUnsafeMarker(text)
    ensures r.Accepted? ==> r.length == TwitterLength(text)
    ensures r.Empty? <==> Strip(text) == []
    ensures r.OverLimit? <==> Strip(text) != [] && TwitterLength(text) > 280
    ensures r.OverLimit? ==> r.length == TwitterLength(text)
    ensures r.TooLong? <==> Strip(text) != [] && TwitterLength(text) <= 280 && |text| > 2000
    ensures r.Unsafe? <==>
      Strip(text) != [] && TwitterLength(text) <= 280 && |text| <= 2000 && HasUnsafeMarker(text)
  {
    if text == [] || Strip(text) == [] then Empty
    else
      var n := TwitterLength(text);
      if n > 280 then OverLimit(n)
      else if |text| > 2000 then TooLong
      else if HasUnsafeMarker(text) then Unsafe
      else Accepted(n)
  }

  /** A text rejected as too long has a URL in it: without one, its weighted
      length is its length, which would already be over 280. */
  lemma TooLongHasUrl(text: string)
    requires ValidateTweetText(text) == TooLong
    ensures |Urls(text)| > 0
  {
    assert TotalLength([]) == 0;
  }

  /** A marker is caught in any letter case, anywhere in the text. */
  lemma UnsafeAnyCase(pre: string, marker: string, post: string)
    requires Lower(marker) in {"<script", "javascript:", "data:"}
    ensures HasUnsafeMarker(pre + marker + post)
  {
    LowerAppend(pre + marker, post);
    LowerAppend(pre, marker);
    var m := Lower(pre + marker + post);
    assert m == Lower(pre) + Lower(marker) + Lower(post);
    assert m[|pre|..|pre| + |marker|] == Lower(marker);
    ContainsAt(m, Lower(marker), |pre|);
  }

  // The sanitiser

  /** The index of the first `c` in `s`. */
  function FirstIndex(s: string, c: char): (i: nat)
    requires c in s
    ensures i < |s| && s[i] == c && c !in s[..i]
  {
    if s[0] == c then 0 else 1 + FirstIndex(s[1..], c)
  }

  /** `re.sub(r'<[^>]*>', '', s)`: from a `<` through the next `>` is
      removed; a `<` with no `>` after it stays. */
  function RemoveTags(s: string): (r: string)
    ensures |r| <= |s|
    ensures forall c :: c in r ==> c in s
    decreases |s|
  {
    if s == [] then []
    else if s[0] == '<' && '>' in s[1..] then RemoveTags(s[1..][FirstIndex(s[1..], '>') + 1..])
    else [s[0]] + RemoveTags(s[1..])
  }

  /** `re.sub(pat, '', s, flags=re.IGNORECASE)` for a lower-case `pat`:
      matches are removed left to right, without looking again at what the
      removal joins. */
  function RemoveAll(s: string, pat: string): (r: string)
    requires pat != []
    ensures |r| <= |s|
    ensures forall c :: c in r ==> c in s
    decreases |s|
  {
    if s == [] then []
    else if StartsWith(Lower(s), pat) then RemoveAll(s[|pat|..], pat)
    else [s[0]] + RemoveAll(s[1..], pat)
  }

  /** `sanitize_input` */
  function SanitizeInput(text: string): (r: string)
    ensures |r| <= |text|
    ensures r == [] || (!IsSpace(r[0]) && !IsSpace(r[|r| - 1]))
    ensures text == [] ==> r == []
  {
    if text == [] then []
    else Strip(RemoveAll(RemoveAll(RemoveTags(text), "javascript:"), "data:"))
  }

  /** No `<` is followed, anywhere later, by a `>`: nothing tag-shaped is left. */
  predicate TagFree(s: string) {
    forall i, j :: 0 <= i < j < |s| && s[i] == '<' ==> s[j] != '>'
  }

  lemma {:induction false} RemoveTagsTagFree(s: string)
    ensures TagFree(RemoveTags(s))
    decreases |s|
  {
    if s != [] {
      if s[0] == '<' && '>' in s[1..] {
        RemoveTagsTagFree(s[1..][FirstIndex(s[1..], '>') + 1..]);
      } else {
        RemoveTagsTagFree(s[1..]);
        var r := RemoveTags(s[1..]);
        assert RemoveTags(s) == [s[0]] + r;
        if s[0] == '<' {
          assert '>' !in r;
        }
      }
    }
  }

  lemma {:induction false} RemoveAllTagFree(s: string, pat: string)
    requires pat != [] && TagFree(s)
    ensures TagFree(RemoveAll(s, pat))
    decreases |s|
  {
    if s != [] {
      if StartsWith(Lower(s), pat) {
        RemoveAllTagFree(s[|pat|..], pat);
      } else {
        RemoveAllTagFree(s[1..], pat);
        var r := RemoveAll(s[1..], pat);
        assert RemoveAll(s, pat) == [s[0]] + r;
        if s[0] == '<' {
          assert forall j :: 0 <= j < |s[1..]| ==> s[1..][j] == s[j + 1];
          assert '>' !in s[1..];
          assert '>' !in r;
        }
      }
    }
  }

  lemma StripTagFree(s: string)
    requires TagFree(s)
    ensures TagFree(Strip(s))
  {
    var lo, hi := StripSlice(s);
    assert forall i :: 0 <= i < hi - lo ==> Strip(s)[i] == s[lo + i];
  }

  /** The sanitised text holds nothing tag-shaped. */
  lemma SanitizeTagFree(text: string)
    ensures TagFree(SanitizeInput(text))
  {
    if text != [] {
      var t := RemoveTags(text);
      RemoveTagsTagFree(text);
      RemoveAllTagFree(t, "javascript:");
      RemoveAllTagFree(RemoveAll(t, "javascript:"), "data:");
      StripTagFree(RemoveAll(RemoveAll(t, "javascript:"), "data:"));
    }
  }

  /** A text with no pattern match is left as it is. */
  lemma {:induction false} RemoveAllAbsent(s: string, pat: string)
    requires pat != [] && !Contains(Lower(s), pat)
    ensures RemoveAll(s, pat) == s
    decreases |s|
  {
    if s != [] {
      assert Lower(s)[1..] == Lower(s[1..]);
      RemoveAllAbsent(s[1..], pat);
    }
  }

  /** A text already clean, without tags, markers or surrounding whitespace,
      passes unchanged. */
  lemma SanitizeClean(text: string)
    requires '<' !in text
    requires !Contains(Lower(text), "javascript:") && !Contains(Lower(text), "data:")
    requires text == [] || (!IsSpace(text[0]) && !IsSpace(text[|text| - 1]))
    ensures SanitizeInput(text) == text
  {
    if text != [] {
      RemoveTagsNoOpen(text);
      RemoveAllAbsent(text, "javascript:");
      RemoveAllAbsent(text, "data:");
      StripUnchanged(text);
    }
  }

  lemma {:induction false} RemoveTagsNoOpen(s: string)
    requires '<' !in s
    ensures RemoveTags(s) == s
    decreases |s|
  {
    if s != [] {
      assert '<' !in s[1..];
      RemoveTagsNoOpen(s[1..]);
    }
  }

  // The secret-key score

  const WeakPatterns: seq<string> :=
    ["secret", "password", "key", "twitter", "bot", "flask",
     "123456", "abcdef", "qwerty", "admin", "test", "default"]

  const SpecialChars: string := "!@#$%^&*()_+-=[]{}|;:,.<>?"

  predicate IsUpper(c: char) { 'A' <= c <= 'Z' }
  predicate IsLower(c: char) { 'a' <= c <= 'z' }

  /** How many of the four character kinds (upper, lower, digit, special)
      the key uses. */
  function Variety(key: string): (n: nat)
    ensures n <= 4
  {
    (if exists i :: 0 <= i < |key| && IsUpper(key[i]) then 1 else 0)
    + (if exists i :: 0 <= i < |key| && IsLower(key[i]) then 1 else 0)
    + (if exists i :: 0 <= i < |key| && IsDigit(key[i]) then 1 else 0)
    + (if exists i :: 0 <= i < |key| && key[i] in SpecialChars then 1 else 0)
  }

  /** The number of distinct characters in the key. */
  function UniqueCount(key: string): nat {
    |set i | 0 <= i < |key| :: key[i]|
  }

  /** Fewer than half the characters are distinct. */
  predicate LowEntropy(key: string) {
    2 * UniqueCount(key) < |key|
  }

  /** What `validate_secret_key_strength` objects to. */
  datatype Issue = TooShort | FewKinds | WeakPattern(pattern: string) | Repetitive

  /** The weak patterns among `patterns` that the lower-cased key contains,
      in order. */
  function WeakFound(keyLower: string, patterns: seq<string>): (r: seq<string>)
    ensures |r| <= |patterns|
  {
    if patterns == [] then []
    else
      var prior := WeakFound(keyLower, patterns[..|patterns| - 1]);
      var p := patterns[|patterns| - 1];
      if Contains(keyLower, p) then prior + [p] else prior
  }

  /** The weak patterns found are exactly those the key contains. */
  lemma {:induction false} WeakFoundMembers(keyLower: string, patterns: seq<string>)
    ensures forall p :: p in WeakFound(keyLower, patterns) <==> p in patterns && Contains(keyLower, p)
    decreases |patterns|
  {
    if patterns != [] {
      WeakFoundMembers(keyLower, patterns[..|patterns| - 1]);
      assert patterns == patterns[..|patterns| - 1] + [patterns[|patterns| - 1]];
    }
  }

  lemma AsIssuesAppend(ps: seq<string>, p: string)
    ensures AsIssues(ps + [p]) == AsIssues(ps) + [WeakPattern(p)]
  {
  }

  function AsIssues(ps: seq<string>): (r: seq<Issue>)
    ensures |r| == |ps| && forall k :: 0 <= k < |ps| ==> r[k] == WeakPattern(ps[k])
  {
    seq(|ps|, k requires 0 <= k < |ps| => WeakPattern(ps[k]))
  }

  /** The issues found, in the order they are reported. */
  function Issues(key: string): seq<Issue> {
    (if |key| < 32 then [TooShort] else [])
    + (if Variety(key) < 2 then [FewKinds] else [])
    + AsIssues(WeakFound(Lower(key), WeakPatterns))
    + (if LowEntropy(key) then [Repetitive] else [])
  }

  /** The score before it is clamped at zero. */
  function RawScore(key: string): int {
    (if |key| >= 32 then 2 else 0)
    + (if |key| >= 64 then 1 else 0)
    + (if Variety(key) >= 2 then Variety(key) else 0)
    - |WeakFound(Lower(key), WeakPatterns)|
    + (if LowEntropy(key) then 0 else 1)
  }

  /** The loop over the weak patterns: an issue and a point off for each
      pattern the lower-cased key contains. */
  method WeakPatternIssues(keyLower: string) returns (issues: seq<Issue>, penalty: nat)
    ensures issues == AsIssues(WeakFound(keyLower, WeakPatterns))
    ensures penalty == |WeakFound(keyLower, WeakPatterns)|
  {
    issues, penalty := [], 0;
    for i := 0 to |WeakPatterns|
      invariant issues == AsIssues(WeakFound(keyLower, WeakPatterns[..i]))
      invariant penalty == |WeakFound(keyLower, WeakPatterns[..i])|
    {
      assert WeakPatterns[..i + 1][..i] == WeakPatterns[..i];
      AsIssuesAppend(WeakFound(keyLower, WeakPatterns[..i]), WeakPatterns[i]);
      if Contains(keyLower, WeakPatterns[i]) {
        issues := issues + [WeakPattern(WeakPatterns[i])];
        penalty := penalty + 1;
      }
    }
    assert WeakPatterns[..|WeakPatterns|] == WeakPatterns;
  }

  /** `validate_secret_key_strength`: whether the key is strong, the issues
      found and the score clamped at zero. */
  method ValidateSecretKeyStrength(key: string) returns (isStrong: bool, issues: seq<Issue>, score: int)
    ensures issues == Issues(key)
    ensures score == if RawScore(key) < 0 then 0 else RawScore(key)
    ensures isStrong <==> issues == [] && RawScore(key) >= 5
  {
    issues := [];
    score := 0;
    if |key| < 32 {
      issues := issues + [TooShort];
    } else {
      score := score + 2;
    }
    if |key| >= 64 {
      score := score + 1;
    }
    assert issues == if |key| < 32 then [TooShort] else [];
    ghost var lengthIssues := issues;
    ghost var lengthScore := score;
    var variety := Variety(key);
    if variety < 2 {
      issues := issues + [FewKinds];
    } else {
      score := score + variety;
    }
    assert issues == lengthIssues + (if Variety(key) < 2 then [FewKinds] else []);
    assert score == lengthScore + (if Variety(key) >= 2 then Variety(key) else 0);
    var weak, penalty := WeakPatternIssues(Lower(key));
    issues := issues + weak;
    score := score - penalty;
    ghost var weakIssues := issues;
    ghost var weakScore := score;
    if LowEntropy(key) {
      issues := issues + [Repetitive];
    } else {
      score := score + 1;
    }
    assert issues == weakIssues + (if LowEntropy(key) then [Repetitive] else []);
    assert score == weakScore + (if LowEntropy(key) then 0 else 1);
    isStrong := issues == [] && score >= 5;
    if score < 0 {
      score := 0;
    }
  }

  /** A key with no issue already scores at least 5, so the key is strong
      exactly when there is no issue; and the score never exceeds 8. */
  lemma StrongIffNoIssues(key: string)
    ensures Issues(key) == [] ==> RawScore(key) >= 5
    ensures RawScore(key) <= 8
  {
  }

  /** A strong key is at least 32 characters long, uses two kinds of
      character, contains no weak pattern in any case, and is at least half
      distinct characters. */
  lemma StrongKey(key: string)
    requires Issues(key) == []
    ensures |key| >= 32 && Variety(key) >= 2 && !LowEntropy(key)
    ensures forall p :: p in WeakPatterns ==> !Contains(Lower(key), p)
  {
    var w := WeakFound(Lower(key), WeakPatterns);
    assert |AsIssues(w)| == |w|;
    WeakFoundMembers(Lower(key), WeakPatterns);
  }
}
