/** Topic classification with a persistent cache, and reply generation.
    The generative model is reached through outcomes passed in as parameters
    (`Backend`); the clock is a parameter (`Now`); the cache file is the field
    `saved`, the map last written to it; sleeping is recorded in `sleeps`. */
module Reply {
  import opened Text
  import Config

  /** Seven days, in seconds: the lifetime of a cache entry. */
  const Week: int := 7 * 24 * 3600

  const Categories: set<string> := {"tech", "casual", "sad"}

  /** The moment of a call: seconds for comparisons, ISO text for storage. */
  datatype Now = Now(secs: int, iso: string)

  /** A stored `timestamp`: its text and, when `datetime.fromisoformat`
      accepts it, the moment it denotes. */
  datatype Stamp = Stamp(iso: string, secs: Option<int>)

  /** A cache value as read from the JSON file: a bare category string, a
      dictionary with optional `category` and `timestamp` keys, or any other
      JSON value, kept as its `str()` text. */
  datatype Entry =
    | Legacy(name: string)
    | Record(category: Option<string>, stamp: Option<Stamp>)
    | Other(shown: string)

  /** The errors other than a quota error that a request to the generative
      model can raise, as the `except` clauses tell them apart; `OtherError`
      is any exception none of them names, such as the `ValueError` that
      `resp.text` raises on a blocked reply. */
  datatype ApiError =
    | InvalidArgument | PermissionDenied | NotFound | DeadlineExceeded
    | ServiceUnavailable | InternalServerError | OtherError

  /** What the generative model did with a request: replied, raised
      `ResourceExhausted`, or raised another error. */
  datatype Backend = Text(text: string) | Quota | Failure(error: ApiError)

  // ---------------------------------------------------------------------
  // Pure rules

  /** The cache key: the topic stripped and lower-cased. */
  function Normalize(s: string): string {
    Lower(Strip(s))
  }

  /** Topics that differ only in surrounding whitespace share one entry. */
  lemma NormalizePadding(pre: string, s: string, post: string)
    requires AllSpace(pre) && AllSpace(post)
    ensures Normalize(pre + s + post) == Normalize(s)
  {
    StripPadding(pre, s, post);
  }

  /** Topics that differ only in letter case share one entry. */
  lemma NormalizeCase(a: string, b: string)
    requires Lower(a) == Lower(b)
    ensures Normalize(a) == Normalize(b)
  {
    StripLower(a);
    StripLower(b);
  }

  /** A key is its own key. */
  lemma NormalizeIdempotent(s: string)
    ensures Normalize(Normalize(s)) == Normalize(s)
  {
    StripLower(Strip(s));
    StripUnchanged(Strip(s));
    LowerIdempotent(Strip(s));
  }

  /** `str()` of a cache value, with Python's dictionary layout; quotes inside
      the strings are not escaped. */
  function Show(e: Entry): string {
    match e
    case Legacy(c) => c
    case Other(shown) => shown
    case Record(c, s) =>
      var cat := if c.Some? then ["'category': '" + c.value + "'"] else [];
      var ts := if s.Some? then ["'timestamp': '" + s.value.iso + "'"] else [];
      "{" + Join(cat + ts, ", ") + "}"
  }

  datatype CacheAnswer = Answer(category: string) | Expired

  /** What `detect_topic_type` does with a cached value: a category to return
      at once, or `Expired` for a dated entry seven days old or older. */
  function CachedAnswer(e: Entry, now: int): CacheAnswer {
    match e
    case Legacy(c) => Answer(c)
    case Other(shown) => Answer(shown)
    case Record(c, s) =>
      if c.None? then Answer(Show(e))
      else if s.Some? && s.value.secs.Some? && now - s.value.secs.value >= Week then Expired
      else Answer(c.value)
  }

  /** Whether the cache answers for `key` at time `now`. */
  predicate Hit(m: map<string, Entry>, key: string, now: Now) {
    key in m && CachedAnswer(m[key], now.secs).Answer?
  }

  /** A category recorded now, or up to seven days ago, is answered from the
      cache; a recorded category older than that is not. */
  lemma FreshRecordAnswers(c: string, s: Stamp, now: int)
    requires s.secs.Some?
    ensures now - s.secs.value < Week ==> CachedAnswer(Record(Some(c), Some(s)), now) == Answer(c)
    ensures now - s.secs.value >= Week ==> CachedAnswer(Record(Some(c), Some(s)), now) == Expired
  {
  }

  /** The category made from a model reply: stripped, lower-cased, and
      `casual` unless it is one of the three known categories. Any error
      gives `casual`, as the handlers of `detect_topic_type` intend; see
      `ClassifyAsWritten` for what the code does. */
  function Classify(outcome: Backend): (r: string)
    ensures r in Categories
    ensures outcome.Text? && Normalize(outcome.text) in Categories ==> r == Normalize(outcome.text)
    ensures !outcome.Text? ==> r == "casual"
  {
    if outcome.Text? && Normalize(outcome.text) in Categories then Normalize(outcome.text) else "casual"
  }

  /** A known category is recognised whatever its letter case. */
  lemma ClassifyAnyCase()
    ensures Classify(Text("Tech")) == "tech"
  {
    StripUnchanged("Tech");
    assert Lower("Tech") == "tech";
  }

  /** Any other reply counts as `casual`. */
  lemma ClassifyUnknown()
    ensures Classify(Text("sports")) == "casual"
  {
    StripUnchanged("sports");
    assert Lower("sports") == "sports";
  }

  /** Seconds to wait after the `n`-th consecutive quota error while classifying. */
  function ClassifyBackoff(n: nat): (r: int)
    ensures 0 < r <= 1800
    ensures n >= 5 ==> r == 1800
    ensures n <= 4 ==> r == Pow2(n) * 60
  {
    if n >= 5 then
      Pow2Monotone(5, n);
      Min(Pow2(n) * 60, 1800)
    else
      Pow2Monotone(n, 4);
      Min(Pow2(n) * 60, 1800)
  }

  /** Seconds to wait after the `n`-th consecutive quota error while generating. */
  function GenerateBackoff(n: nat): (r: int)
    ensures 0 < r <= 3600
    ensures n >= 4 ==> r == 3600
    ensures n <= 3 ==> r == Pow2(n) * 300
  {
    if n >= 4 then
      Pow2Monotone(4, n);
      Min(Pow2(n) * 300, 3600)
    else
      Pow2Monotone(n, 3);
      Min(Pow2(n) * 300, 3600)
  }

  /** Both waits grow with the number of failures. */
  lemma BackoffMonotone(a: nat, b: nat)
    requires a <= b
    ensures ClassifyBackoff(a) <= ClassifyBackoff(b)
    ensures GenerateBackoff(a) <= GenerateBackoff(b)
  {
    Pow2Monotone(a, b);
  }

  /** `safe_int_config`: the configured integer pulled up to `minVal` and
      down to `maxVal`, each bound optional. */
  function SafeIntConfig(value: int, minVal: Option<int>, maxVal: Option<int>): (r: int)
    ensures minVal.Some? && value < minVal.value ==> r == minVal.value
    ensures minVal.Some? && maxVal.Some? && minVal.value <= maxVal.value ==> minVal.value <= r <= maxVal.value
    ensures (minVal.None? || minVal.value <= value) && (maxVal.None? || value <= maxVal.value) ==> r == value
  {
    if minVal.Some? && value < minVal.value then minVal.value
    else if maxVal.Some? && value > maxVal.value then maxVal.value
    else value
  }

  /** `AI_TOP_K`: whatever the environment holds, it is in 1..100, and 40
      when the key is unset. */
  lemma TopKInRange(raw: Option<string>)
    ensures 1 <= SafeIntConfig(Config.GetInt(raw, 40), Some(1), Some(100)) <= 100
    ensures raw.None? ==> SafeIntConfig(Config.GetInt(raw, 40), Some(1), Some(100)) == 40
  {
  }

  /** The errors `detect_topic_type` catches before its `except` clause
      naming `requests`, a module reply.py never imports. */
  predicate ClassifyCaught(e: ApiError) {
    e in {InvalidArgument, PermissionDenied, NotFound, DeadlineExceeded, ServiceUnavailable}
  }

  /** The errors `generate_reply` catches before its `except` clause naming
      `requests`. */
  predicate ReplyCaught(e: ApiError) {
    ClassifyCaught(e) || e == InternalServerError
  }

  /** The classification of `detect_topic_type` as the code is written:
      `None` when it raises `NameError`. The quota handler starts with
      `rate_limiter`, which reply.py never defines, and an error no earlier
      clause catches makes Python evaluate `requests.exceptions`. */
  function ClassifyAsWritten(outcome: Backend): (r: Option<string>)
    ensures r.None? <==> outcome.Quota? || (outcome.Failure? && !ClassifyCaught(outcome.error))
    ensures r.Some? ==> r.value == Classify(outcome)
  {
    match outcome
    case Text(_) => Some(Classify(outcome))
    case Quota => None
    case Failure(e) => if ClassifyCaught(e) then Some("casual") else None
  }

  /** The reply text of `generate_reply` as the code is written: `None` when
      it raises `NameError`, for the same two reasons. */
  function ReplyAsWritten(outcome: Backend): (r: Option<string>)
    ensures r.None? <==> outcome.Quota? || (outcome.Failure? && !ReplyCaught(outcome.error))
    ensures outcome.Text? ==> r == Some(Strip(outcome.text))
    ensures outcome.Failure? && r.Some? ==> r.value == ""
  {
    match outcome
    case Text(t) => Some(Strip(t))
    case Quota => None
    case Failure(e) => if ReplyCaught(e) then Some("") else None
  }

  /** Where the code as written raises, the handlers meant a quota error to
      give `casual` or an empty reply after a backoff, and an uncaught error
      likewise; an internal server error is caught only while generating. */
  lemma HandlersRaiseAsWritten()
    ensures ClassifyAsWritten(Quota).None? && Classify(Quota) == "casual"
    ensures ClassifyAsWritten(Failure(OtherError)).None? && Classify(Failure(OtherError)) == "casual"
    ensures ClassifyAsWritten(Failure(InternalServerError)).None?
    ensures ReplyAsWritten(Failure(InternalServerError)) == Some("")
    ensures ReplyAsWritten(Quota).None? && ReplyAsWritten(Failure(OtherError)).None?
  {
  }

  /** A freshly classified entry. */
  function Fresh(category: string, now: Now): Entry {
    Record(Some(category), Some(Stamp(now.iso, Some(now.secs))))
  }

  /** A dated entry whose date cannot be parsed makes `save_cache` raise. */
  predicate Unparsable(e: Entry) {
    e.Record? && e.stamp.Some? && e.stamp.value.secs.None?
  }

  /** Whether `save_cache` keeps an entry: everything except dated entries
      seven days old or older. */
  predicate Keep(e: Entry, now: int) {
    !(e.Record? && e.stamp.Some? && e.stamp.value.secs.Some? && now - e.stamp.value.secs.value >= Week)
  }

  /** How `save_cache` rewrites a kept entry, as the code is written: an
      undated dictionary gets its whole `str()` as the category. */
  function UpgradeAsWritten(e: Entry, now: Now): Entry {
    match e
    case Legacy(c) => Fresh(c, now)
    case Other(shown) => Fresh(shown, now)
    case Record(c, s) => if s.Some? then e else Fresh(Show(e), now)
  }

  /** How `save_cache` rewrites a kept entry, keeping the category of an
      undated dictionary. */
  function Upgrade(e: Entry, now: Now): (r: Entry)
    ensures r.Record? && r.stamp.Some?
    ensures e.Legacy? ==> r.category == Some(e.name)
    ensures e.Record? && e.stamp.Some? ==> r == e
  {
    match e
    case Legacy(c) => Fresh(c, now)
    case Other(shown) => Fresh(shown, now)
    case Record(c, s) => if s.Some? then e else Fresh(c.GetOr(Show(e)), now)
  }

  /** The code as written loses the category of an undated dictionary entry:
      after a save the cache answers with the dictionary's text. */
  lemma UpgradeAsWrittenLosesCategory(now: Now)
    ensures CachedAnswer(Record(Some("tech"), None), now.secs) == Answer("tech")
    ensures CachedAnswer(UpgradeAsWritten(Record(Some("tech"), None), now), now.secs)
      == Answer("{'category': 'tech'}")
  {
    assert Show(Record(Some("tech"), None)) == "{" + Join(["'category': 'tech'"], ", ") + "}";
  }

  /** With the category kept, rewriting an entry never changes what the
      cache answers for it. */
  lemma UpgradeKeepsAnswer(e: Entry, now: Now)
    requires Keep(e, now.secs) && !Unparsable(e)
    ensures CachedAnswer(Upgrade(e, now), now.secs) == CachedAnswer(e, now.secs)
  {
  }

  /** The cache after `save_cache`, or `None` when it raises on an
      unparsable date. */
  function Cleaned(m: map<string, Entry>, now: Now): (r: Option<map<string, Entry>>)
    ensures r.None? <==> exists k :: k in m && Unparsable(m[k])
    ensures r.Some? ==> forall k :: k in r.value <==> k in m && Keep(m[k], now.secs)
    ensures r.Some? ==> forall k :: k in r.value ==> r.value[k] == Upgrade(m[k], now)
  {
    if exists k :: k in m && Unparsable(m[k]) then None
    else Some(map k | k in m && Keep(m[k], now.secs) :: Upgrade(m[k], now))
  }

  /** After a save every entry is a dictionary dated within the last seven
      days; legacy strings keep their category; fresh dated entries are kept
      as they were and stale ones are gone. */
  lemma CleanedShape(m: map<string, Entry>, now: Now, k: string)
    requires Cleaned(m, now).Some?
    ensures k in Cleaned(m, now).value ==>
      var e := Cleaned(m, now).value[k];
      e.Record? && e.stamp.Some? && e.stamp.value.secs.Some? && now.secs - e.stamp.value.secs.value < Week
    ensures k in m && m[k].Legacy? ==> Cleaned(m, now).value[k].category == Some(m[k].name)
    ensures k in m && m[k].Record? && m[k].stamp.Some? && Keep(m[k], now.secs) ==> Cleaned(m, now).value[k] == m[k]
    ensures k in m && !Keep(m[k], now.secs) ==> k !in Cleaned(m, now).value
  {
  }

  /** Every entry that survives a save answers as it did before, and every
      entry the cache would still answer for survives unless it is an
      undated-category dictionary with an old date. */
  lemma CleanedKeepsAnswers(m: map<string, Entry>, now: Now, k: string)
    requires Cleaned(m, now).Some? && k in Cleaned(m, now).value
    ensures CachedAnswer(Cleaned(m, now).value[k], now.secs) == CachedAnswer(m[k], now.secs)
  {
    UpgradeKeepsAnswer(m[k], now);
  }

  /** Saving twice at the same moment changes nothing the second time. */
  lemma CleanedIdempotent(m: map<string, Entry>, now: Now)
    requires Cleaned(m, now).Some?
    ensures Cleaned(Cleaned(m, now).value, now) == Cleaned(m, now)
  {
    var c := Cleaned(m, now).value;
    forall k | k in c ensures !Unparsable(c[k]) && Keep(c[k], now.secs) && Upgrade(c[k], now) == c[k] {
      CleanedShape(m, now, k);
    }
    assert Cleaned(c, now).value == c;
  }

  /** The cache after a save: the cleaned map, or the map unchanged when the
      walk raised. */
  function AfterSave(m: map<string, Entry>, now: Now): map<string, Entry> {
    match Cleaned(m, now)
    case Some(c) => c
    case None => m
  }

  /** What the cache file holds after a save: what it held before when the
      walk raised (the file is never opened); the cleaned map when the write
      went through; nothing readable when the write failed, since opening
      the file for writing has already emptied it. */
  function SavedAfter(m: map<string, Entry>, now: Now, writeOk: bool, before: Option<map<string, Entry>>): (r: Option<map<string, Entry>>)
    ensures Cleaned(m, now).None? ==> r == before
    ensures Cleaned(m, now).Some? ==> (r.Some? <==> writeOk)
    ensures r.Some? && Cleaned(m, now).Some? ==> r.value == AfterSave(m, now)
  {
    if Cleaned(m, now).None? then before else if writeOk then Cleaned(m, now) else None
  }

  /** `initialize_gemini`'s key check: set, non-empty and not the placeholder. */
  predicate KeyConfigured(apiKey: Option<string>) {
    apiKey.Some? && apiKey.value != "" && apiKey.value != "YOUR_GEMINI_API_KEY"
  }

  class Classifier {
    /** `topic_cache` */
    var cache: map<string, Entry>
    /** The map last written to the cache file, if any. */
    var saved: Option<map<string, Entry>>
    /** Whether the model object exists. */
    var modelReady: bool
    /** Consecutive quota failures. */
    var failures: nat
    /** Every backoff slept, in order. */
    var sleeps: seq<int>

    /** Start-up: the cache is what the file held, or empty when it could not
        be read. */
    constructor (loaded: Option<map<string, Entry>>)
      ensures cache == loaded.GetOr(map[]) && saved == loaded
      ensures !modelReady && failures == 0 && sleeps == []
    {
      cache := loaded.GetOr(map[]);
      saved := loaded;
      modelReady := false;
      failures := 0;
      sleeps := [];
    }

    /** `initialize_gemini`: already initialised, or a configured key and a
        successful set-up. */
    method InitializeGemini(apiKey: Option<string>, configureOk: bool) returns (ok: bool)
      modifies this
      ensures ok == (old(modelReady) || (KeyConfigured(apiKey) && configureOk))
      ensures modelReady == ok
      ensures cache == old(cache) && saved == old(saved)
      ensures failures == old(failures) && sleeps == old(sleeps)
    {
      if modelReady {
        return true;
      }
      if !KeyConfigured(apiKey) {
        return false;
      }
      modelReady := configureOk;
      return configureOk;
    }

    /** `save_cache`: rebuild the cache entry by entry; replace it only when
        the whole walk succeeded, then write it out. */
    method SaveCache(now: Now, writeOk: bool)
      modifies this
      ensures cache == AfterSave(old(cache), now)
      ensures saved == SavedAfter(old(cache), now, writeOk, old(saved))
      ensures modelReady == old(modelReady) && failures == old(failures) && sleeps == old(sleeps)
    {
      var todo := cache.Keys;
      var cleaned: map<string, Entry> := map[];
      while todo != {}
        invariant todo <= cache.Keys
        invariant forall k :: k in cleaned <==> k in cache && k !in todo && Keep(cache[k], now.secs)
        invariant forall k :: k in cleaned ==> cleaned[k] == Upgrade(cache[k], now)
        invariant forall k :: k in cache && k !in todo ==> !Unparsable(cache[k])
        decreases todo
      {
        var k :| k in todo;
        var e := cache[k];
        if Unparsable(e) {
          return;
        }
        if Keep(e, now.secs) {
          cleaned := cleaned[k := Upgrade(e, now)];
        }
        todo := todo - {k};
      }
      assert cleaned == Cleaned(cache, now).value;
      cache := cleaned;
      saved := if writeOk then Some(cleaned) else None;
    }

    /** The part of `detect_topic_type` after a successful initialisation,
        as its handlers intend: ask the model, count a quota error and sleep
        its backoff, remember the answer under `key` with the clock reading
        `stored` taken after the answer (and any sleep), and save the cache
        at that moment. */
    method AskModel(key: string, stored: Now, outcome: Backend, writeOk: bool) returns (category: string)
      modifies this
      ensures category == Classify(outcome) && category in Categories
      ensures cache == AfterSave(old(cache)[key := Fresh(category, stored)], stored)
      ensures saved == SavedAfter(old(cache)[key := Fresh(category, stored)], stored, writeOk, old(saved))
      ensures failures == old(failures) + (if outcome.Quota? then 1 else 0)
      ensures sleeps == old(sleeps) + (if outcome.Quota? then [ClassifyBackoff(failures)] else [])
      ensures modelReady == old(modelReady)
    {
      if outcome.Quota? {
        failures := failures + 1;
        sleeps := sleeps + [ClassifyBackoff(failures)];
      }
      category := Classify(outcome);
      cache := cache[key := Fresh(category, stored)];
      SaveCache(stored, writeOk);
    }

    /** The same part as the code is written: `None` when it raises
        `NameError`, and then nothing is stored or saved; there is no failure
        counter to update and no sleep, since the quota handler raises at its
        first line. */
    method AskModelAsWritten(key: string, stored: Now, outcome: Backend, writeOk: bool) returns (category: Option<string>)
      modifies this
      ensures category == ClassifyAsWritten(outcome)
      ensures category.None? ==> cache == old(cache) && saved == old(saved)
      ensures category.Some? ==>
        cache == AfterSave(old(cache)[key := Fresh(category.value, stored)], stored)
        && saved == SavedAfter(old(cache)[key := Fresh(category.value, stored)], stored, writeOk, old(saved))
      ensures failures == old(failures) && sleeps == old(sleeps) && modelReady == old(modelReady)
    {
      category := ClassifyAsWritten(outcome);
      if category.None? {
        return;
      }
      cache := cache[key := Fresh(category.value, stored)];
      SaveCache(stored, writeOk);
    }

    /** `detect_topic_type`, with its handlers as intended. `now` is the
        clock reading of the cache lookup and `stored` the one after the
        model answered; `called` tells whether the model was asked; `key` is
        the cache key the topic normalises to. */
    method DetectTopicType(input: string, now: Now, stored: Now, apiKey: Option<string>, configureOk: bool, outcome: Backend, writeOk: bool)
      returns (category: string, called: bool, ghost key: string)
      modifies this
      ensures key == Normalize(input)
      ensures Hit(old(cache), key, now) ==>
        category == CachedAnswer(old(cache)[key], now.secs).category && !called
        && cache == old(cache) && saved == old(saved) && modelReady == old(modelReady)
        && failures == old(failures) && sleeps == old(sleeps)
      ensures !Hit(old(cache), key, now) ==>
        modelReady == (old(modelReady) || (KeyConfigured(apiKey) && configureOk)) && called == modelReady
      ensures !Hit(old(cache), key, now) && !called ==>
        category == "casual" && cache == old(cache) - {key} && saved == old(saved)
        && failures == old(failures) && sleeps == old(sleeps)
      ensures called ==>
        var m := (old(cache) - {key})[key := Fresh(category, stored)];
        category == Classify(outcome)
        && cache == AfterSave(m, stored) && saved == SavedAfter(m, stored, writeOk, old(saved))
        && failures == old(failures) + (if outcome.Quota? then 1 else 0)
        && sleeps == old(sleeps) + (if outcome.Quota? then [ClassifyBackoff(failures)] else [])
      ensures called ==> category in Categories
    {
      var k := Normalize(input);
      key := k;
      if k in cache {
        var answer := CachedAnswer(cache[k], now.secs);
        if answer.Answer? {
          return answer.category, false, key;
        }
        cache := cache - {k};
      }
      assert cache == old(cache) - {k};
      var ready := InitializeGemini(apiKey, configureOk);
      if !ready {
        return "casual", false, key;
      }
      called := true;
      ghost var before := cache;
      assert before == old(cache) - {k};
      category := AskModel(k, stored, outcome, writeOk);
    }

    /** The part of `generate_reply` after the classification: look up the
        category's active prompt and send it with the topic; a quota error
        adds a failure and sleeps the generation backoff. */
    method SendPrompt(category: string, input: string, activePrompts: map<string, string>, replyOutcome: Backend)
      returns (reply: string, sent: Option<string>)
      modifies this
      ensures sent.Some? <==> category in activePrompts
      ensures sent.Some? ==> sent.value == activePrompts[category] + "\nTopic: " + input
      ensures reply != "" ==> sent.Some? && replyOutcome.Text? && reply == Strip(replyOutcome.text)
      ensures sent.Some? && replyOutcome.Text? ==> reply == Strip(replyOutcome.text)
      ensures var retried := sent.Some? && replyOutcome.Quota?;
        failures == old(failures) + (if retried then 1 else 0)
        && sleeps == old(sleeps) + (if retried then [GenerateBackoff(failures)] else [])
      ensures cache == old(cache) && saved == old(saved) && modelReady == old(modelReady)
    {
      if activePrompts == map[] || category !in activePrompts {
        return "", None;
      }
      sent := Some(activePrompts[category] + "\nTopic: " + input);
      match replyOutcome
      case Text(t) =>
        reply := Strip(t);
      case Quota =>
        failures := failures + 1;
        sleeps := sleeps + [GenerateBackoff(failures)];
        reply := "";
      case Failure(_) =>
        reply := "";
    }

    /** The same part as the code is written: `reply` is `None` when the
        request raises `NameError`, which leaves `generate_reply` for the
        error branch of the run loop; no failure is counted and nothing is
        slept, so no state changes. */
    method SendPromptAsWritten(category: string, input: string, activePrompts: map<string, string>, replyOutcome: Backend)
      returns (reply: Option<string>, sent: Option<string>)
      ensures sent.Some? <==> category in activePrompts
      ensures sent.Some? ==> sent.value == activePrompts[category] + "\nTopic: " + input
      ensures sent.None? ==> reply == Some("")
      ensures sent.Some? ==> reply == ReplyAsWritten(replyOutcome)
    {
      if activePrompts == map[] || category !in activePrompts {
        return Some(""), None;
      }
      sent := Some(activePrompts[category] + "\nTopic: " + input);
      reply := ReplyAsWritten(replyOutcome);
    }

    /** `generate_reply`: classify the topic, look up the active prompt for
        that category, and send prompt and topic to the model. `topic` is the
        category used, `sent` the message sent. The cache, the saved file and
        the classification quota step are those of `DetectTopicType`; the
        generation quota step follows them. */
    method GenerateReply(input: string, now: Now, stored: Now, apiKey: Option<string>, configureOk: bool,
                         classifyOutcome: Backend, writeOk: bool,
                         activePrompts: map<string, string>, replyOutcome: Backend)
      returns (reply: string, topic: Option<string>, sent: Option<string>)
      modifies this
      ensures modelReady == (old(modelReady) || (KeyConfigured(apiKey) && configureOk))
      ensures !modelReady ==>
        reply == "" && topic.None? && sent.None? && cache == old(cache) && saved == old(saved)
        && failures == old(failures) && sleeps == old(sleeps)
      ensures modelReady ==> topic.Some?
      ensures modelReady && Hit(old(cache), Normalize(input), now) ==>
        topic.value == CachedAnswer(old(cache)[Normalize(input)], now.secs).category
        && cache == old(cache) && saved == old(saved)
      ensures modelReady && !Hit(old(cache), Normalize(input), now) ==>
        var m := (old(cache) - {Normalize(input)})[Normalize(input) := Fresh(topic.value, stored)];
        topic.value == Classify(classifyOutcome)
        && cache == AfterSave(m, stored) && saved == SavedAfter(m, stored, writeOk, old(saved))
      ensures modelReady ==>
        var asked := !Hit(old(cache), Normalize(input), now) && classifyOutcome.Quota?;
        var first := old(failures) + (if asked then 1 else 0);
        var retried := sent.Some? && replyOutcome.Quota?;
        failures == first + (if retried then 1 else 0)
        && sleeps == old(sleeps) + (if asked then [ClassifyBackoff(first)] else [])
                                 + (if retried then [GenerateBackoff(failures)] else [])
      ensures sent.Some? <==> topic.Some? && topic.value in activePrompts
      ensures sent.Some? ==> sent.value == activePrompts[topic.value] + "\nTopic: " + input
      ensures reply != "" ==> sent.Some? && replyOutcome.Text? && reply == Strip(replyOutcome.text)
      ensures sent.Some? && replyOutcome.Text? ==> reply == Strip(replyOutcome.text)
    {
      var ready := InitializeGemini(apiKey, configureOk);
      if !ready {
        return "", None, None;
      }
      ghost var cache0, saved0, failures0, sleeps0 := cache, saved, failures, sleeps;
      assert cache0 == old(cache) && saved0 == old(saved) && failures0 == old(failures) && sleeps0 == old(sleeps);
      var category, called, key := DetectTopicType(input, now, stored, apiKey, configureOk, classifyOutcome, writeOk);
      topic := Some(category);
      assert key == Normalize(input) && modelReady;
      if Hit(cache0, key, now) {
        assert category == CachedAnswer(cache0[key], now.secs).category;
        assert cache == cache0 && saved == saved0 && failures == failures0 && sleeps == sleeps0;
      } else {
        assert called;
        ghost var m := (cache0 - {key})[key := Fresh(category, stored)];
        assert category == Classify(classifyOutcome);
        assert cache == AfterSave(m, stored) && saved == SavedAfter(m, stored, writeOk, saved0);
        assert failures == failures0 + (if classifyOutcome.Quota? then 1 else 0);
        assert sleeps == sleeps0 + (if classifyOutcome.Quota? then [ClassifyBackoff(failures)] else []);
      }
      reply, sent := SendPrompt(category, input, activePrompts, replyOutcome);
    }
  }
}
