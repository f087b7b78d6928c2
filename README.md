# Trend-reply Twitter bot: decision and validation layer in Dafny

The bot fetches trending topics for a country. It asks a Gemini model to
classify each topic and write a tweet in one of three personas (tech, casual,
sad), and posts the tweet with a bounded retry on rate limits. A web dashboard
starts and stops the bot and edits its `token.env` settings. This project
models the logic that decides what the bot does. All input and output is
replaced by parameters and outcome datatypes: HTTP, HTML parsing, Gemini,
tweepy, SQLite, the clock and sleeping.

Modules, one per source file (the dashboard file `app.py` is split in three):

- `Text` (`text.dfy`): the Python string and integer primitives the other
  modules use. These are `str.isspace`, `strip`, `lower`, `startswith`,
  substring `in`, `split`, `join`, `int(text)` and `str(n)`.
- `Config` (`config.py`): the configuration manager. The class
  `ConfigManager` holds the last-reload time; `get_int`, `get_bool` and
  `get_list` are pure functions of the raw value.
- `TwitterClient` (`twitter_client.py`): the missing-credential list, the
  credential check, and the class `ClientCache` for the cached client.
- `Trend` (`trend.py`): the English/Turkish script filter over an abstract
  Unicode lookup, row selection, filter-then-truncate, and the numbered lines.
- `Database` (`database.py`): the table-name allow-list, prompt formatting,
  seeding, and the class `Store` whose prompt and setting tables are maps.
- `Reply` (`reply.py`): the topic cache. The class `Classifier` holds the
  cache map, the saved copy, the failure counter and a trace of the sleeps.
  The module also has the cache clean-up in `save_cache`, the backoff
  formulas, `safe_int_config` and `generate_reply`.
- `BotMain` (`main.py`): the settings read at start-up, `isTrendingTime`,
  `getStatus`, and the two initialisation flags (class `Initializer`). It
  also has the retry loop of `scheduled_tweet`, which records its post
  attempts and sleeps.
- `Control` (`app.py`): start, stop and emergency stop (class `BotControl`),
  one iteration of the run loop as a step function, and the loop itself as a
  method over a sequence of cycle outcomes.
- `Validators` (`app.py`): the weighted tweet length, the tweet-text check,
  the input sanitiser, and the secret-key score.
- `ConfigEdit` (`app.py`): the rule table of `validate_config_value`, and the
  all-or-nothing rewrite of the lines of `token.env` (class `TokenEnv`).

Times are integer seconds. The Unicode category and name of a character are a
function parameter (`info`). `float(v)` and its two range comparisons are
also a parameter (`floatText`).

## Model

| member | source | states |
|---|---|---|
| Text.StripPadding | reply.py:142 | Whitespace around a string does not change its stripped form |
| Text.SplitJoin | config.py:77-84 | Splitting a separator-joined list at that separator gives the list back when no item holds the separator |
| Text.ParseIntToString | config.py:58-63 | `int(str(n)) == n` for every integer |
| Text.IsSpace | reply.py:142 | Computes the characters `str.isspace` accepts: space, `\t` to `\r`, `\x1c` to `\x1f`, U+0085, U+00A0, U+1680, U+2000 to U+200A, U+2028, U+2029, U+202F, U+205F and U+3000 |
| Text.LeadingSpaces | reply.py:142 | The count of leading whitespace: every counted character is whitespace and the next one, if any, is not |
| Text.TrailingSpaces | reply.py:142 | The count of trailing whitespace: every counted character is whitespace and the one before them, if any, is not |
| Text.StripLeft | reply.py:142 | `lstrip()`: no longer than the text, and empty or not starting with whitespace |
| Text.StripRight | reply.py:142 | `rstrip()`: no longer than the text, and empty or not ending with whitespace |
| Text.Strip | reply.py:142 | `strip()`: no longer than the text, and empty or with no whitespace at either end |
| Text.StripSlice | reply.py:142 | The stripped text is one contiguous slice of the text |
| Text.StripKeepsFirst | reply.py:142 | A text that does not start with whitespace keeps its first character when stripped |
| Text.StripKeepsChars | app.py:2658 | Stripping introduces no character |
| Text.StripUnchanged | reply.py:142 | A text with no whitespace at either end strips to itself |
| Text.LowerChar | reply.py:142 | `lower()` of one character: ASCII capitals become small letters and nothing else changes, so whitespace stays whitespace |
| Text.Lower | reply.py:142 | `lower()`: the same length, each character lowered |
| Text.LowerIdempotent | reply.py:142 | Lowering twice is lowering once |
| Text.LowerAppend | main.py:171 | Lowering a concatenation lowers each part |
| Text.StripLower | reply.py:142 | Stripping and lowering commute |
| Text.StartsWith | twitter_client.py:25 | Computes `s.startswith(p)`: `p` is no longer than `s` and equals its prefix |
| Text.Contains | main.py:174 | Computes `p in s`: `s` starts with `p`, or its tail contains `p` |
| Text.ContainsAt | main.py:174 | An occurrence of `p` at any index makes `p in s` true |
| Text.ContainsWitness | main.py:174 | When `p in s`, there is an index where `p` occurs |
| Text.Split | config.py:84 | `split(sep)`: at least one piece, and no piece holds the separator |
| Text.SplitPiece | config.py:84 | A separator-free piece followed by the separator splits off as the first piece |
| Text.SplitNoSep | config.py:84 | A text without the separator splits into itself alone |
| Text.Join | app.py:1698 | Computes `sep.join(parts)`: the empty string for no parts, otherwise the parts with `sep` between neighbours; Text.SplitJoin is its inverse |
| Text.IsDigit | config.py:61 | Computes the ASCII digits `0` to `9` |
| Text.NatToString | trend.py:195 | `str(n)` for `n >= 0`: non-empty and all digits |
| Text.NatToStringValue | trend.py:195 | The digits of `str(n)` have the value `n` |
| Text.IntToString | app.py:1614 | `str(n)`: non-empty, no whitespace at either end, only digits and `-` |
| Text.DigitsValue | config.py:61 | Computes the decimal value of a run of digits |
| Text.AllDigits | config.py:61 | Computes: non-empty and all ASCII digits |
| Text.ParseInt | config.py:61 | Computes `int(text)`: the stripped text read by Text.ParseSigned; `None` where Python raises. Text.ParseIntToString is its round trip |
| Text.ParseSigned | config.py:61 | Computes: an optional `-` or `+`, then one or more digits, gives the signed value; anything else gives `None` |
| Text.ParseIntOfStripped | config.py:61 | A text with no whitespace at either end is read without the strip |
| Text.ParseNonNegativeString | config.py:58-63 | `int(str(n)) == n` for `n >= 0` |
| Text.ParseNegativeString | config.py:58-63 | `int(str(n)) == n` for `n < 0` |
| Text.Pow2 | main.py:176 | `2 ** n`, at least 1 |
| Text.Pow2Monotone | reply.py:205 | `2 ** a <= 2 ** b` when `a <= b` |
| Text.Min | reply.py:205 | Computes `min(a, b)` |
| Config.ConfigManager.LoadConfig | config.py:37-44 | The last-reload time moves to `now` only when loading succeeds; otherwise it is unchanged |
| Config.ConfigManager.Get | config.py:46-56 | Returns `os.getenv(key, default)`. Reloads when forced or when more than 300 s have passed, and the clock moves only when that reload succeeds |
| Config.ConfigManager.Reload | config.py:86-88 | A forced reload: the clock moves to `now` exactly when loading succeeds |
| Config.ConfigManager.IsLoaded | config.py:90-92 | Loaded iff the last-reload time is positive |
| Config.GetInt | config.py:58-63 | The parsed integer when the value converts; the default when it is unset or does not convert |
| Config.GetIntDefaultText | config.py:58-63 | Reading the default's own decimal text gives the same as reading an unset key |
| Config.GetBoolIgnoresDefault | config.py:72-75 | The default never changes the result. An unset key is false; "TRUE" and "On" are true; "enabled" is false |
| Config.StrippedNonEmpty | config.py:84 | Every kept item is non-empty and already stripped, and there are no more items than pieces |
| Config.GetList | config.py:77-84 | The default for an empty or unset value; otherwise every element is non-empty, stripped and free of the separator |
| Config.GetListJoin | config.py:77-84 | A list of stripped, non-empty, separator-free items joined by the separator reads back as the same list |
| Config.StrippedNonEmptyIdentity | config.py:84 | Items that are already stripped and non-empty pass the clean-up unchanged |
| Config.Lookup | config.py:56 | Computes `os.getenv(key, default)`: the environment's value when the key is set, the default otherwise |
| Config.ConfigManager.constructor | config.py:26-35 | The clock starts at 0 and moves to `now` when the first load succeeds |
| Config.ConfigManager.ReloadDue | config.py:51-53 | Computes: forced, or more than 300 seconds since the last load |
| Config.GetBool | config.py:72-75 | Computes: the value read with default `''`, lower-cased, is one of `true`, `1`, `yes`, `on`; the `default` argument is never used (Config.GetBoolIgnoresDefault) |
| Config.ListItem | config.py:77-84 | Computes what survives the list clean-up unchanged: non-empty, no surrounding whitespace, no separator |
| TwitterClient.MissingNames | twitter_client.py:15-25 | Exactly the names whose value is unset, empty or a `YOUR_` placeholder are listed; the list is empty iff none is missing |
| TwitterClient.ValidateCredentials | twitter_client.py:30-49 | Valid iff nothing is missing, the API key has at least 10 characters and the bearer token starts with `AAAA` |
| TwitterClient.PlaceholderRejected | twitter_client.py:24-25 | A `YOUR_...` value in any position is reported by name and fails validation |
| TwitterClient.ClientCache.constructor | twitter_client.py:27-28 | The cache starts empty |
| TwitterClient.ClientCache.GetClient | twitter_client.py:51-114 | A cached client is returned without re-validation. Invalid credentials give no client and leave the cache empty. A client is only ever built from valid credentials |
| TwitterClient.Values | twitter_client.py:15-21 | Computes the five credential values, in the dictionary's order: api_key, api_secret, access_token, access_token_secret, bearer_token |
| TwitterClient.IsMissing | twitter_client.py:25 | Computes: unset, empty, or starting with `YOUR_` |
| TwitterClient.MissingCredentials | twitter_client.py:24-25 | Computes the names of the missing credentials in the dictionary's order; TwitterClient.MissingNames states which names these are |
| Trend.IsEnglishOrTurkish | trend.py:83-129 | The loop with its early return decides exactly the all-characters-allowed predicate |
| Trend.AsciiPasses | trend.py:98-129 | Every all-ASCII string passes, and so does the empty string |
| Trend.AcceptedSamples | trend.py:133-145 | The accepted samples of the test table pass the filter |
| Trend.ForeignCharRejected | trend.py:98-129 | A non-ASCII, non-Turkish character whose category is not allowed and whose name does not contain `LATIN` is refused |
| Trend.ForeignLead | trend.py:98-129 | A text whose first character is a letter above U+0400 with a name missing a letter of `LATIN` is refused |
| Trend.RejectedCyrillic | trend.py:141 | The Russian sample is refused, given the Unicode category and name of its first letter |
| Trend.RejectedArabic | trend.py:140 | The Arabic sample is refused, given the Unicode category and name of its first letter |
| Trend.RejectedChinese | trend.py:142 | The Chinese sample is refused, given the Unicode category and name of its first letter |
| Trend.PySliceTo | trend.py:66 | `s[:n]` is a prefix of length `min(n, len)` for `n >= 0`, and drops `-n` items from the end for `n < 0` |
| Trend.Hashtags | trend.py:66-79 | One item per row that has a tweet link, never more items than rows |
| Trend.HashtagsNoneIff | trend.py:66-79 | The selection fails iff some linked row has no `href` |
| Trend.HashtagsKeepLinked | trend.py:66-79 | Every row with a usable link contributes its item |
| Trend.HashtagsFromLinked | trend.py:66-79 | Every selected item comes from a linked row |
| Trend.GetTrendingHashtags | trend.py:47-81 | The append loop yields the selection over the first `limit` rows, so at most `limit` items |
| Trend.Passing | trend.py:170 | Every kept trend passes the script filter |
| Trend.PassingMembers | trend.py:170 | A trend is kept iff it is in the input and its name passes |
| Trend.PassingAppend | trend.py:170 | Filtering distributes over concatenation, so the original order is kept |
| Trend.EnglishTrend | trend.py:155-173 | Fails iff the selection over the first 15 rows fails. Otherwise the passing trends of those rows, truncated to `limit`: at most 15 items, all passing |
| Trend.FetchTrend | trend.py:8-45 | A page iff the response status is 200; any other status or request error gives none |
| Trend.PrepareTrend | trend.py:175-199 | No page iff the fetch gave no HTML. Otherwise line `i` is the `i`-th selected trend, numbered from 1 |
| Trend.FormatLineNumbered | trend.py:187-199 | Each line starts with its number and `. ` |
| Trend.CharAllowed | trend.py:98-127 | Computes: ASCII, one of the 22 Turkish letters, a letter (category starting with `L`) whose Unicode name contains `LATIN`, or in one of the categories Pd, Po, Ps, Pe, Pc, Sm, Zs |
| Trend.EnglishOrTurkish | trend.py:100-129 | Computes: every character is allowed; Trend.IsEnglishOrTurkish is the loop that decides it |
| Trend.AcceptedTurkishSamples | trend.py:133-145 | "Müzik", "İstanbul" and "Çiğdem" pass whatever the Unicode lookup says |
| Trend.AcceptedSpacedSamples | trend.py:133-145 | "Şarkı söyle" and "Türkiye'de" pass whatever the Unicode lookup says |
| Trend.BeyondLatinNotTurkish | trend.py:98 | No character at U+0400 or above is one of the Turkish letters |
| Trend.LetterNotAllowed | trend.py:119 | No letter category is among the allowed punctuation, symbol and space categories |
| Trend.NoLatin | trend.py:115 | A name that lacks one of the letters of `LATIN` does not contain `LATIN` |
| Trend.ItemOf | trend.py:71-79 | Computes the record of a linked row: the link text stripped, the `href`, and `tweetcount` or `N/A` |
| Trend.MissingHrefAt | trend.py:68-72 | Computes: row `i` has a tweet link without `href`, where `trend_link['href']` raises |
| Trend.FormatLine | trend.py:195 | Computes `{idx}. {name} ({tweet_count} Tweets) URL: {url}` |
| Database.ValidateTableName | database.py:14-37 | Accepted iff the name is given and is one of the four allowed tables |
| Database.AllowedNamesAlnum | database.py:33-35 | Every allowed name without underscores is non-empty and alphanumeric |
| Database.ConfiguredTableName | database.py:39-42 | The configured name when it is allowed, otherwise `tweets`; always an allowed name |
| Database.FormatBraceFree | database.py:443 | A template without braces formats to itself |
| Database.FormatPrefix | database.py:443 | Brace-free text before a template is copied to the output unchanged |
| Database.FormatField | database.py:443-447 | `{k}` is replaced by the setting's value, and a missing setting raises `KeyError` |
| Database.FormatModifiedField | database.py:443 | `{k!r}`, `{k:spec}`, `{k[i]}` or `{k.attr}` for a present setting is replaced by what Python renders for it, or is an error when that rendering raises |
| Database.RenderPrompt | database.py:432-447 | A missing setting key gives the raw template; a malformed template raises; otherwise the formatted text |
| Database.ActivePrompts | database.py:415-458 | Only active prompts are present, each rendered. Any malformed template loses every prompt (empty dict) |
| Database.ActivePromptRawFallback | database.py:441-447 | An active prompt with a missing setting key, or no placeholders, is served as its raw text |
| Database.InactiveNotServed | database.py:436-437 | An inactive prompt is never served |
| Database.PromptUpdated | database.py:358-367 | Only the matching prompt changes: new text and time. The description is kept when the new one is empty or `None`. An absent type changes nothing |
| Database.PromptToggled | database.py:398-400 | Only the matching prompt's active flag flips |
| Database.ToggleTwice | database.py:398-400 | Toggling twice restores the flag |
| Database.SettingUpdated | database.py:504-511 | Only the matching setting changes; an absent key changes nothing |
| Database.SeedSettings | database.py:153-169 | Seven persona settings, each with a description and the seeding time |
| Database.SeedPrompts | database.py:171-208 | Exactly tech, casual and sad, active, with their templates |
| Database.Store.constructor | database.py:89-150 | Both tables start empty |
| Database.Store.CreateDatabase | database.py:89-218 | Each table is seeded only when it is empty; without a connection nothing changes |
| Database.Store.GetPromptByType | database.py:309-337 | The text iff connected and the prompt exists and is active |
| Database.Store.GetActivePromptsDict | database.py:415-458 | The active rendered prompts when connected, the empty dict otherwise |
| Database.Store.UpdatePrompt | database.py:339-380 | Succeeds iff connected; the prompts become the updated map and the settings are untouched |
| Database.Store.TogglePromptStatus | database.py:382-413 | Succeeds iff connected; the prompts become the toggled map and the settings are untouched |
| Database.Store.UpdatePersonaSetting | database.py:487-520 | Reports success even for an absent key; only the matching setting changes and the prompts are untouched |
| Database.IsAsciiAlnum | database.py:33 | Computes the ASCII letters and digits |
| Database.WithoutUnderscores | database.py:33 | `replace('_', '')`: never longer than the name |
| Database.WithoutUnderscoresAlnum | database.py:33 | A name of letters, digits and underscores is alphanumeric once the underscores are gone, and non-empty when it starts with a letter or digit |
| Database.Format | database.py:443 | Computes `prompt_text.format(**persona_settings)` left to right: `{{` and `}}` are braces, `{name}` is the setting, a name that is not a setting is `KeyError`, a field with modifiers is what `render` gives, and an unclosed field, a lone `}`, an empty or positional field or a refused rendering is another error. Database.FormatBraceFree, FormatPrefix, FormatField and FormatModifiedField state its cases |
| Database.FieldLength | database.py:443 | The index of the `}` that closes a field: it holds `}` and no brace comes before it |
| Database.ArgName | database.py:443 | The field's argument name: a prefix of the field holding none of `.`, `[`, `!`, `:` |
| Database.IsModifier | database.py:443 | Computes the characters that end an argument name: `.`, `[`, `!`, `:` |
| Database.BraceFree | database.py:443 | Computes: no `{` and no `}` |
| Database.FieldName | database.py:443 | Computes a setting name usable as `{name}`: non-empty, not all digits, no braces and no modifier |
| Database.SettingValues | database.py:432-433 | The settings dictionary: the same keys, each with its stored value |
| Database.AnyInvalid | database.py:441-453 | Computes: some active prompt fails to format other than by `KeyError`, which makes the whole call return `{}` |
| Database.Truthy | database.py:358 | Computes `if description:`: given and non-empty |
| Reply.NormalizePadding | reply.py:142 | Inputs that differ only in surrounding whitespace share one cache key |
| Reply.NormalizeCase | reply.py:142 | Inputs that differ only in letter case share one cache key |
| Reply.NormalizeIdempotent | reply.py:142 | A cache key normalises to itself |
| Reply.FreshRecordAnswers | reply.py:152-162 | A dated entry younger than 7 days answers its category; one 7 days or older has expired |
| Reply.Classify | reply.py:183-241 | The result is always tech, casual or sad. Backend text naming one of them (any case or padding) is used; any other text gives casual, and so does any error, as the handlers intend |
| Reply.ClassifyAsWritten | reply.py:186-241 | As written: raises `NameError` iff the backend raised a quota error or an error none of InvalidArgument, PermissionDenied, NotFound, DeadlineExceeded and ServiceUnavailable; otherwise the same category as Reply.Classify |
| Reply.ReplyAsWritten | reply.py:288-351 | As written: raises `NameError` iff the backend raised a quota error or an error none of the six caught ones (InternalServerError included); otherwise the stripped text, or `""` for a caught error |
| Reply.HandlersRaiseAsWritten | reply.py:198-341 | A quota error and an uncaught error raise where casual or an empty reply was intended; an internal server error raises while classifying but not while generating |
| Reply.ClassifyAnyCase | reply.py:189 | The reply "Tech" classifies as tech |
| Reply.ClassifyUnknown | reply.py:192-193 | An unknown category falls back to casual |
| Reply.ClassifyBackoff | reply.py:205 | `min(2^n * 60, 1800)`: positive and capped at 30 minutes |
| Reply.GenerateBackoff | reply.py:306 | `min(2^n * 300, 3600)`: positive and capped at one hour |
| Reply.BackoffMonotone | reply.py:205 | Both backoffs never shrink as failures grow |
| Reply.SafeIntConfig | reply.py:27-40 | Below the minimum gives the minimum, above the maximum gives the maximum, and the result lies in range when both bounds are given |
| Reply.TopKInRange | reply.py:46 | AI_TOP_K is in 1..100 for any configured text, and 40 when unset |
| Reply.UpgradeAsWrittenLosesCategory | reply.py:382-387 | The clean-up as written turns `{"category": "tech"}` into an entry whose category is not tech |
| Reply.Upgrade | reply.py:368-387 | Every entry comes out as a dated dictionary; a legacy string keeps its category; a dated entry is unchanged |
| Reply.UpgradeKeepsAnswer | reply.py:368-387 | A kept entry answers the same category after the clean-up |
| Reply.Cleaned | reply.py:368-387 | Fails iff some entry has an unparsable timestamp. Otherwise it keeps exactly the entries not older than 7 days, each upgraded |
| Reply.CleanedShape | reply.py:368-387 | Legacy entries keep their category, fresh dated entries are unchanged, expired ones are removed |
| Reply.CleanedKeepsAnswers | reply.py:368-387 | The clean-up never changes a surviving entry's answer |
| Reply.CleanedIdempotent | reply.py:368-391 | Cleaning a cleaned cache changes nothing |
| Reply.Classifier.constructor | reply.py:113-124 | The cache is the loaded file, or empty; no model, no failures, no sleeps |
| Reply.Classifier.InitializeGemini | reply.py:85-108 | Ready iff already ready, or the key is set and not the placeholder and configuring succeeds; nothing else changes |
| Reply.SavedAfter | reply.py:389-398 | The file is untouched when the clean-up raises; it holds the cleaned cache iff the write succeeds, and nothing readable after a failed write |
| Reply.Classifier.SaveCache | reply.py:353-398 | The cache is replaced by the cleaned map only when the loop succeeds; the file then holds the cleaned map, or nothing readable when the write fails |
| Reply.Classifier.AskModel | reply.py:181-249 | With the handlers as intended: classifies, stores an entry dated by the clock reading after the answer, and saves at that reading. A quota error adds one failure and sleeps the classification backoff |
| Reply.Classifier.AskModelAsWritten | reply.py:181-249 | As written: when the classification raises, nothing is stored or saved; otherwise as Reply.Classifier.AskModel. Failures and sleeps never change |
| Reply.Classifier.DetectTopicType | reply.py:130-250 | A cache hit answers without a backend call or cache change. An expired entry is deleted. With no backend the answer is casual. Otherwise the answer is in the three categories and stored with the later clock reading |
| Reply.Classifier.SendPrompt | reply.py:270-310 | A message is sent iff the category has an active prompt, and it is the prompt, a newline, `Topic: ` and the input. A non-empty reply is the stripped backend text; a quota error adds one failure and sleeps the generation backoff; the cache and the file are untouched |
| Reply.Classifier.SendPromptAsWritten | reply.py:270-351 | As written: the same message; the reply is Reply.ReplyAsWritten of the outcome, so a quota or uncaught error raises, and nothing is counted or slept |
| Reply.Classifier.GenerateReply | reply.py:252-351 | With no backend: `""`, no topic and no state change. Otherwise the topic is the cached answer on a hit and the classification of the backend outcome on a miss, with the cache, file, failures and sleeps of `detect_topic_type`. It sends `persona + "\nTopic: " + input` iff the topic has an active prompt. A non-empty reply is the stripped backend text; a quota error adds a failure and sleeps the generation backoff after any classification backoff |
| Reply.Normalize | reply.py:142 | Computes the cache key `strip().lower()`; Reply.NormalizePadding, NormalizeCase and NormalizeIdempotent state its properties |
| Reply.Show | reply.py:172 | Computes `str()` of a cache value: a string as itself, a dictionary as `{'category': '…', 'timestamp': '…'}` with the keys it has |
| Reply.CachedAnswer | reply.py:145-174 | Computes what a cached value answers: a string answers itself; a dictionary with a category answers it unless its timestamp parses and is 7 days old or older (expired); a dictionary without a category and any other value answer their `str()`. Reply.FreshRecordAnswers states the expiry |
| Reply.Hit | reply.py:145-174 | Computes: the key is cached and its value answers |
| Reply.ClassifyCaught | reply.py:195-225 | Computes the errors whose `detect_topic_type` handler completes: InvalidArgument, PermissionDenied, NotFound, DeadlineExceeded, ServiceUnavailable. The quota handler and the clauses naming `requests` raise `NameError` |
| Reply.ReplyCaught | reply.py:300-335 | Computes the errors whose `generate_reply` handler completes: those of Reply.ClassifyCaught and InternalServerError. The quota handler and the clauses naming `requests` raise `NameError` |
| Reply.Fresh | reply.py:245-248 | Computes the entry `{'category': category, 'timestamp': now}` |
| Reply.Unparsable | reply.py:375-377 | Computes: a dated entry whose timestamp `fromisoformat` rejects |
| Reply.Keep | reply.py:375-381 | Computes the entries `save_cache` keeps: all but a dated one 7 days old or older |
| Reply.UpgradeAsWritten | reply.py:368-387 | Computes the clean-up of a kept entry as written: a string becomes a fresh entry, a dated dictionary stays, any other value becomes a fresh entry whose category is its whole `str()` (see "## Findings") |
| Reply.AfterSave | reply.py:389-391 | Computes the cache after `save_cache`: the cleaned map, or the map unchanged when the walk raised |
| Reply.KeyConfigured | reply.py:93-94 | Computes: the key is set, non-empty and not `YOUR_GEMINI_API_KEY` |
| BotMain.LoadedSettingsInRange | main.py:55-86 | After start-up TRENDS_LIMIT and CYCLE_DURATION_MINUTES are positive and the night hours are in 0..23, with defaults 3, 60, 1 and 6 |
| BotMain.LoadedSettingsAsWritten | main.py:55-86 | An in-range value is kept as written |
| BotMain.AllParsedValues | main.py:62 | When every piece converts, the list holds the converted values |
| BotMain.AllParsedRejects | main.py:62 | When the conversion fails, some piece does not convert |
| BotMain.InDayMembers | main.py:64 | The filter keeps exactly the hours in 0..23, and keeps a list already in range unchanged |
| BotMain.LoadSleepHours | main.py:60-70 | SLEEP_HOURS is never empty and holds only hours in 0..23 |
| BotMain.SleepHoursUnset | main.py:60-70 | Unset, it is `[1, 3, 9, 10]` |
| BotMain.SleepHoursRoundTrip | main.py:60-70 | A non-empty list of hours in 0..23 written comma-separated reads back as itself |
| BotMain.BracketedSleepHoursIgnored | main.py:68-70 | A value starting with `[` falls back to the default hours |
| BotMain.DefaultTrendingHours | main.py:207-218 | With the default schedule, trends are posted at every hour except 1, 3, 9 and 10 |
| BotMain.NightWindow | main.py:192-205 | Night mode does not wrap past midnight; with the defaults the bot is inactive exactly from 1 to 6 o'clock |
| BotMain.Initializer.InitializeBotModules | main.py:20-50 | The modules flag is set iff it was set or the import succeeds; the client flag is untouched |
| BotMain.Initializer.InitializeTwitterClient | main.py:94-121 | The client is ready iff it was, or the modules load and the client is built |
| BotMain.Initializer.ResetInitialization | main.py:131-139 | Both flags are cleared |
| BotMain.MarkerAnyCase | main.py:171-174 | A rate-limit marker in any letter case anywhere in the error is recognised |
| BotMain.TooManyRequestsRecognised | main.py:171-174 | "Too Many Requests" is a rate limit |
| BotMain.ScheduledTweet | main.py:142-190 | No client gives false with no attempt. Otherwise there are 1 to 3 attempts, each retried one rate-limited, and a non-rate-limit error ends the loop. The result is true iff the last attempt posted. The sleeps are a prefix of `[120, 240]` |
| BotMain.PositiveOr | main.py:56-57 | Computes the value, or the default when the value is 0 or less |
| BotMain.HourOr | main.py:73-74 | Computes the value when it is in 0..23, the default otherwise |
| BotMain.TrendsLimit | main.py:55-58 | Computes `get_int_config("TRENDS_LIMIT", 3)`, replaced by 3 when not positive; BotMain.LoadedSettingsInRange states its bound |
| BotMain.CycleMinutes | main.py:83-86 | Computes `get_int_config("CYCLE_DURATION_MINUTES", 60)`, replaced by 60 when not positive; BotMain.LoadedSettingsInRange states its bound |
| BotMain.NightStart | main.py:72-76 | Computes `get_int_config("NIGHT_MODE_START", 1)`, replaced by 1 outside 0..23; BotMain.LoadedSettingsInRange states its range |
| BotMain.NightEnd | main.py:78-81 | Computes `get_int_config("NIGHT_MODE_END", 6)`, replaced by 6 outside 0..23; BotMain.LoadedSettingsInRange states its range |
| BotMain.Parsed | main.py:62 | One result per item, each `int(h.strip())`, with `None` where it raises |
| BotMain.AllParsed | main.py:62 | When the comprehension completes, it has one value per item |
| BotMain.AllParsedSome | main.py:62 | When every item converts, the comprehension gives exactly the converted values |
| BotMain.InDay | main.py:64 | The filter is no longer than its input, and every kept value is in 0..23 |
| BotMain.KeptHours | main.py:62-70 | Never empty, all in 0..23: the kept hours, or the defaults when a conversion raised or nothing was kept |
| BotMain.IntTexts | app.py:1698 | One decimal text per integer, each `str()` of it |
| BotMain.DefaultTexts | main.py:60-66 | The default item texts `"1"`, `"3"`, `"9"`, `"10"` are the texts of the default hours |
| BotMain.ParseAllTexts | main.py:62 | The decimal texts of any list of integers convert back to that list |
| BotMain.DefaultHoursInDay | main.py:64-66 | The default hours all pass the 0..23 filter |
| BotMain.IsTrendingTime | main.py:207-218 | Computes: the hour is not a sleep hour; BotMain.DefaultTrendingHours states it for the defaults |
| BotMain.GetStatus | main.py:192-205 | Computes: false exactly when `start <= hour <= end`; BotMain.NightWindow states it for the defaults |
| BotMain.IsRateLimit | main.py:171-174 | Computes: the lower-cased message contains `rate limit`, `too many requests` or `429`; BotMain.MarkerAnyCase states its case-insensitivity |
| BotMain.Retryable | main.py:170-181 | Computes: a failed post whose message is a rate limit |
| BotMain.RetryWait | main.py:176 | Computes the wait `2 ** n * 60` seconds after the `n`-th rate limit |
| BotMain.Initializer.constructor | main.py:18 | Both flags start cleared (`_modules_initialized` here and `_client_initialized` at main.py:92) |
| Control.Step | app.py:1245-1336 | Something is saved only after a prompt was built, and then the wait is the full cycle |
| Control.StepOutcomes | app.py:1256-1336 | No trend waits 60 s, `None` waits 10 s, a caught error waits 60 s and a result waits the cycle. A record of type tweet with the post status is saved iff the tweet is non-empty |
| Control.TrendingPromptHasTopic | app.py:1266-1268 | The trending prompt contains the topic text |
| Control.PromptCarriesTopic | app.py:1250-1283 | The prompt is the trending prompt for the topic in trending hours, and the general prompt otherwise |
| Control.SavedRows | app.py:1293-1301 | At most one record per cycle |
| Control.SavedRowsAreTweets | app.py:1301 | Every saved record has type tweet and a non-empty text |
| Control.BotControl.constructor | app.py:373-384 | Not running, no stop signal, no start time |
| Control.BotControl.ControlAction | app.py:553-599 | start succeeds iff not running; it clears the signal, sets running and the time. stop succeeds iff running; it clears running and the time. Anything else changes nothing |
| Control.BotControl.EmergencyStop | app.py:918-929 | Always succeeds: running is cleared and the stop signal and start time are untouched |
| Control.BotControl.RunBotThread | app.py:1220-1345 | Cycle minutes are read with default 30. Nothing runs if initialisation fails. Each wait is its step's wait, and the loop ends only on a stop during a wait. The saved rows are exactly those of the cycles run, and running is false on exit |
| Control.PromptText | app.py:1266-1272 | Computes the prompt text: for a trend, the fixed Turkish instruction with the topic, the context sentence, a space and the topic again; otherwise the general prompt. Control.TrendingPromptHasTopic states that the topic is in it |
| Control.SavedRowsExtend | app.py:1293-1301 | One more cycle appends its saved record, if it has one, to the saved records |
| Validators.UrlAt | app.py:2563-2564 | A match at the start is a run of non-whitespace characters of at least 8 characters that stops only at whitespace or the end of the text |
| Validators.UrlsShape | app.py:2560-2577 | Every URL found is a run of non-whitespace characters, at least 8 long, starting with `http://` or `https://` |
| Validators.WordRun | app.py:2570-2571 | The leading run of word characters, stopping only at a non-word character or the end |
| Validators.TagsShape | app.py:2570-2571 | Every mention or hashtag found is its marker followed by one or more word characters |
| Validators.NoMarkerNoTags | app.py:2570-2571 | A text without the marker has no mentions or hashtags |
| Validators.UrlsFit | app.py:2560-2577 | The URLs together are no longer than the text |
| Validators.TwitterLengthBounds | app.py:2545-2587 | The weighted length is at least 0 and at most the raw length plus 15 per URL |
| Validators.UrlsAtLeastEight | app.py:2560-2577 | Each URL counts at least its 8-character scheme |
| Validators.UrlsAppend | app.py:2560-2577 | The URLs of text joined at whitespace are the URLs of the parts |
| Validators.NoColonNoUrls | app.py:2560-2577 | Text without `:` has no URLs and its weighted length is its length |
| Validators.PlainSample | app.py:2624 | "Hello world!" weighs 12 |
| Validators.TextThenUrl | app.py:2629 | Plain text followed by one URL weighs the text's length plus 23 |
| Validators.MixedSample | app.py:2629 | The mixed sample weighs its plain prefix plus 23 |
| Validators.CalculateTwitterLength | app.py:2545-2587 | The loop's result is the raw length minus the URLs' length plus 23 per URL, returned with the URLs, mentions and hashtags found |
| Validators.ValidateTweetText | app.py:2589-2619 | The checks in order, each an iff. Empty iff the text strips to nothing. Over the limit iff non-blank with weighted length above 280, reporting that length. Too long iff non-blank, within 280 and over 2000 characters. Unsafe iff it passes those and holds an unsafe marker. Accepted iff it passes all four, reporting its weighted length |
| Validators.TooLongHasUrl | app.py:2598-2603 | Text refused only for its raw length holds a URL |
| Validators.UnsafeAnyCase | app.py:2606-2608 | `<script`, `javascript:` or `data:` in any letter case is caught |
| Validators.SanitizeInput | app.py:2647-2658 | Empty stays empty. The result is no longer than the input and has no surrounding whitespace |
| Validators.SanitizeTagFree | app.py:2654 | No complete `<...>` tag survives the sanitiser |
| Validators.SanitizeClean | app.py:2647-2658 | Stripped text without `<`, `javascript:` or `data:` is returned unchanged |
| Validators.WeakFoundMembers | app.py:148-157 | A weak pattern is reported iff the lowered key contains it |
| Validators.WeakPatternIssues | app.py:148-157 | The loop reports one issue per weak pattern found, and a penalty of that count |
| Validators.ValidateSecretKeyStrength | app.py:117-169 | Issues are exactly: short, low variety, each weak pattern, low uniqueness. The score is never negative. Strong iff no issues and raw score at least 5 |
| Validators.StrongIffNoIssues | app.py:117-169 | A key without issues scores at least 5, and no key scores above 8 |
| Validators.StrongKey | app.py:117-169 | A key without issues has 32 or more characters, at least two kinds, half its characters unique, and no weak pattern |
| Validators.RunLength | app.py:2563 | The leading run of non-whitespace: every character in it is non-whitespace and it stops only at whitespace or the end |
| Validators.RunLengthNoSpace | app.py:2563 | A text without whitespace is one run |
| Validators.RunLengthStop | app.py:2563 | A run stops at the first whitespace |
| Validators.Urls | app.py:2563-2564 | Computes `re.findall(r'https?://[^\s]+', text)`, left to right, resuming after each match; Validators.UrlsShape, UrlsFit and UrlsAppend state its properties |
| Validators.TotalLength | app.py:2574-2577 | Computes the summed length of the URLs |
| Validators.TotalLengthAppend | app.py:2574-2577 | The summed length of two lists is the sum of theirs |
| Validators.TwitterLength | app.py:2563-2577 | Computes the length minus each URL's length plus 23 per URL; Validators.TwitterLengthBounds states its bounds and Validators.CalculateTwitterLength is the loop |
| Validators.SingleUrl | app.py:2564 | A scheme and a host without whitespace are found as one URL |
| Validators.UrlThenRest | app.py:2564 | A URL followed by whitespace is found, and the scan goes on in the rest |
| Validators.NoHNoUrls | app.py:2564 | A text without `h` has no URL |
| Validators.LabelNoUrls | app.py:2564 | Colon-free words ending in whitespace, then a text without `h`, have no URL |
| Validators.PlainWords | app.py:2567-2577 | Three colon-free pieces weigh their summed length |
| Validators.NoUrlsThenUrl | app.py:2567-2577 | URL-free text ending in whitespace, then one URL, weighs its own length plus 23 |
| Validators.TwoUrlsFound | app.py:2564 | Two URLs separated by colon-free text are both found, in order |
| Validators.TwoUrls | app.py:2567-2577 | Such a text weighs its text outside the URLs plus 2 × 23 |
| Validators.LabelledUrlRow | app.py:2625 | "Check this out: " followed by the long example URL weighs 39 |
| Validators.MentionRow | app.py:2626 | "@username how are you?" weighs 22: a mention counts in full |
| Validators.HashtagRow | app.py:2627 | "#hashtag #trending now" weighs 22: hashtags count in full |
| Validators.TwoUrlRow | app.py:2628 | "Visit https://example.com and https://test.com" weighs 57 |
| Validators.SelfTestExpectationsUnmet | app.py:2623-2630 | The self-test's expectations 23 + 17, 20, 19 and 23 + 5 + 23 are not what the code computes for their texts (see "## Findings") |
| Validators.IsWordChar | app.py:2570-2571 | Computes `\w` on ASCII: letters, digits and `_` |
| Validators.Tags | app.py:2570-2571 | Computes `re.findall(marker + r'\w+', text)`; Validators.TagsShape and NoMarkerNoTags state its properties |
| Validators.HasUnsafeMarker | app.py:2607 | Computes: the lower-cased text contains `<script`, `javascript:` or `data:`; Validators.UnsafeAnyCase states its case-insensitivity |
| Validators.FirstIndex | app.py:2654 | The first `>`: it is there and none comes before it |
| Validators.RemoveTags | app.py:2654 | `re.sub(r'<[^>]*>', '', s)`: no longer than the text and no new character |
| Validators.RemoveAll | app.py:2655-2656 | Removing a pattern in any case: no longer than the text and no new character |
| Validators.TagFree | app.py:2654 | Computes: no `<` is followed, anywhere later, by `>` |
| Validators.RemoveTagsTagFree | app.py:2654 | After the tag removal no complete tag is left |
| Validators.RemoveAllTagFree | app.py:2655-2656 | Removing `javascript:` or `data:` leaves tag-free text tag-free |
| Validators.StripTagFree | app.py:2658 | Stripping leaves tag-free text tag-free |
| Validators.RemoveAllAbsent | app.py:2655-2656 | A text that does not contain the pattern in any case is unchanged |
| Validators.RemoveTagsNoOpen | app.py:2654 | A text without `<` is unchanged |
| Validators.IsUpper | app.py:135 | Computes the ASCII capitals |
| Validators.IsLower | app.py:136 | Computes the ASCII small letters |
| Validators.Variety | app.py:135-140 | At most 4: the number of kinds present among upper case, lower case, digits and the special characters |
| Validators.UniqueCount | app.py:160 | Computes `len(set(key))` |
| Validators.LowEntropy | app.py:160-161 | Computes: fewer distinct characters than half the length |
| Validators.WeakFound | app.py:148-157 | The weak patterns the lower-cased key contains, in order, never more than the patterns; Validators.WeakFoundMembers states which |
| Validators.AsIssues | app.py:155-156 | One weak-pattern issue per pattern, in order |
| Validators.Issues | app.py:122-162 | Computes the issues in the order they are reported: too short, few kinds, each weak pattern, low entropy |
| Validators.RawScore | app.py:123-164 | Computes the score before the clamp at 0: 2 for 32 characters, 1 more for 64, the variety when at least 2, minus one per weak pattern, plus 1 unless low entropy |
| ConfigEdit.Check | app.py:1526-1603 | A blank integer or float is refused as empty. An accepted integer is in range and stored as its decimal text, and one below or above the range gets that message. A float is accepted iff `float(v)` passes both comparisons and is stored as its `str`; no number, below 0.0 and above 2.0 each get their own message. Accepted text is the stripped `str`; an accepted list has at most the allowed elements |
| ConfigEdit.ValidateConfigValue | app.py:1521-1522 | A key outside the rule table is refused |
| ConfigEdit.ValidateText | app.py:1550-1551 | A text key is checked on the stripped `str` of its value |
| ConfigEdit.ReprStr | app.py:1550 | Inside `str` of a list or object, a string is shown between matching quotes, double ones only when it holds `'` and no `"`, and never shorter than itself plus the quotes |
| ConfigEdit.EscapedChar | app.py:1550 | A character is shown as itself iff it is not a backslash, not the quote in use and not an ASCII control character |
| ConfigEdit.ReprPlain | app.py:1550 | A string with nothing to escape is shown as itself between `'` quotes, or between `"` quotes when it holds `'` |
| ConfigEdit.TextChecked | app.py:1553-1567 | Accepted text is kept as it is and meets its length bounds and pattern |
| ConfigEdit.IntRules | app.py:1407-1430 | trends_limit 1..50, cycle_duration 1..1440, night hours 0..23 |
| ConfigEdit.IntSettingRanges | app.py:1528-1537 | An integer setting is accepted iff not blank and it converts to an integer in range; it is stored as that integer's decimal text |
| ConfigEdit.IntSettingReadBack | app.py:1528-1537 | A validated integer setting is read back at bot start-up as the number submitted |
| ConfigEdit.ListChecked | app.py:1581-1603 | An accepted list has at most its maximum number of elements, all converted, stored as their text |
| ConfigEdit.SleepHoursRule | app.py:1437-1445 | sleep_hours is checked by its list rule (at most 24 elements in 0..23) |
| ConfigEdit.SleepHoursAccepted | app.py:1569-1603 | sleep_hours is accepted iff it gives at most 24 elements, each an integer in 0..23 |
| ConfigEdit.SleepHoursAsWrittenIgnored | app.py:1603-1614 | Stored as `str(list)`, any list of hours is read back by the bot as the default hours |
| ConfigEdit.SleepHoursReadBack | app.py:1603-1614 | Stored comma-joined, a validated non-empty list of hours is read back exactly |
| ConfigEdit.CountryChoices | app.py:1446-1453 | The trend country is accepted iff it is one of the 15 listed countries, each of which has a trends page |
| ConfigEdit.ModelChoices | app.py:1455-1462 | The model is accepted iff it is one of the 5 listed models |
| ConfigEdit.CredentialShape | app.py:1463-1511 | A stored API credential is 10 to 200 letters, digits, `_` or `-` |
| ConfigEdit.BearerTokenShape | app.py:1491-1497 | A stored bearer token is 10 to 500 letters, digits, `_`, `-` or `%` |
| ConfigEdit.UserIdShape | app.py:1498-1504 | A stored user id is 1 to 50 decimal digits |
| ConfigEdit.SecretKeyAccepted | app.py:1512-1517 | The Flask key is accepted iff it has 32 to 500 characters and is strong or scores at least 3 |
| ConfigEdit.CountriesHaveUrls | app.py:1667-1683 | Every allowed country has a trends page, so the Turkish fallback is never taken |
| ConfigEdit.EnvNamesDistinct | app.py:1646-1664 | The env names are distinct and hold no `=`, so a line matches at most one |
| ConfigEdit.CleanKeeps | app.py:1708 | A value without line breaks or NUL is written unchanged |
| ConfigEdit.RewriteLineSpec | app.py:1686-1714 | A line changes only when it starts with a mapped `NAME=` whose key was validated, and then it becomes that key's line |
| ConfigEdit.EnvLineMatches | app.py:1709 | A rewritten line starts with its own `NAME=` |
| ConfigEdit.RewriteLineIdempotent | app.py:1686-1714 | Rewriting a rewritten line changes nothing |
| ConfigEdit.SleepLineStable | app.py:1716-1729 | After the first pass, a `SLEEP_HOURS=` line is already the sleep-hours line |
| ConfigEdit.ValidatedMapKeys | app.py:1626-1633 | Only submitted keys are validated, each with a text its rule accepted |
| ConfigEdit.TokenEnv.RewriteOne | app.py:1687-1714 | The inner loop writes the line of the first mapping that applies, or keeps the line |
| ConfigEdit.TokenEnv.ValidateAll | app.py:1626-1638 | Fails iff some submitted value is refused; otherwise collects every accepted text by key |
| ConfigEdit.TokenEnv.RewriteAll | app.py:1686-1714 | Every line is rewritten in order and the line count is kept |
| ConfigEdit.TokenEnv.RewriteSleepLine | app.py:1716-1729 | The second sleep-hours pass leaves the lines as the first pass made them |
| ConfigEdit.TokenEnv.UpdateTokenEnv | app.py:1619-1754 | Writes nothing if any value is refused. Otherwise the line count is kept and each line becomes its rewrite; no line is added |
| ConfigEdit.PyInt | app.py:1531 | Computes `int(v)`: a string is read by Text.ParseInt, an integer is itself, a boolean is 0 or 1, and `None`, a list or an object raise |
| ConfigEdit.PyStr | app.py:1551 | Computes `str(v)`: a string as itself, an integer in decimal, `True`, `False`, `None`, and a list or object with its items by `repr` |
| ConfigEdit.Repr | app.py:1551 | Computes `repr(v)`: a string quoted by ConfigEdit.ReprStr, anything else as `str` |
| ConfigEdit.ReprQuote | app.py:1551 | Computes the quote `repr` uses: `"` when the string holds `'` and no `"`, `'` otherwise |
| ConfigEdit.Escaped | app.py:1551 | The escaped text of a string is never shorter than it |
| ConfigEdit.EscapedPlain | app.py:1551 | A string with no backslash, no quote in use and no control character is shown as itself |
| ConfigEdit.RuleOf | app.py:1521-1524 | Computes the rule for a key, or none for a key outside the table |
| ConfigEdit.TokenChar | app.py:1467 | Computes the class `[A-Za-z0-9_-]` |
| ConfigEdit.Matches | app.py:1560-1563 | Computes `re.match` of the four patterns on stripped text: any text, token characters, token characters or `%`, digits; each but the first needs one character or more |
| ConfigEdit.SecretTooWeak | app.py:1606-1609 | Computes: not strong and the score is below 3 |
| ConfigEdit.BlankText | app.py:1529 | Computes: a string of whitespace only |
| ConfigEdit.ListElements | app.py:1570-1579 | Computes the elements: a blank string gives none, a string is split at commas with pieces stripped and empty ones dropped, a list is itself, anything else is not a list |
| ConfigEdit.CheckElements | app.py:1588-1603 | An accepted list has one integer per element, each the element's `int()` and within the element bounds |
| ConfigEdit.CheckElementsAccepts | app.py:1588-1603 | The element loop accepts iff every element converts to an integer within the bounds |
| ConfigEdit.ListTextAsWritten | app.py:1614 | Computes `str(list)` of the hours, `[1, 3]` (see "## Findings") |
| ConfigEdit.ListText | app.py:1698 | Computes the hours joined by commas, the form main.py:60-70 reads; ConfigEdit.SleepHoursReadBack states the read-back |
| ConfigEdit.CheckInt | app.py:1528-1537 | Computes the integer rule: blank, not a number, below, above, or the decimal text; ConfigEdit.IntSettingRanges states it |
| ConfigEdit.CheckText | app.py:1550-1567 | Computes the text rule on stripped text: too short, too long, bad characters, not allowed, a weak Flask key, or the text; ConfigEdit.TextChecked states it |
| ConfigEdit.CheckList | app.py:1569-1603 | Computes the list rule: not a list, too many elements, the first bad element's reason, or the stored text; ConfigEdit.ListChecked states it |
| ConfigEdit.CredentialRule | app.py:1463-1511 | The five API credentials share the rule of 10 to 200 token characters |
| ConfigEdit.Clean | app.py:1708 | No longer than the value, and without `\n`, `\r` or NUL |
| ConfigEdit.EnvValue | app.py:1691-1704 | Computes the value written: a country becomes its trends page, or Turkey's when it has none; every other key its validated text |
| ConfigEdit.MatchAt | app.py:1690 | Computes: the line starts with the mapping's `NAME=` and its key was validated |
| ConfigEdit.FirstMatch | app.py:1689-1711 | The first mapping from `from` on that applies: it applies and none before it does; none when no mapping applies |
| ConfigEdit.EnvLine | app.py:1708-1709 | Computes `NAME=value\n` with the cleaned value |
| ConfigEdit.RewriteLine | app.py:1687-1714 | Computes one line after the rewrite: the line of the first mapping that applies, or the line itself; ConfigEdit.RewriteLineSpec and RewriteLineIdempotent state its properties |
| ConfigEdit.AllValid | app.py:1626-1638 | Computes: every submitted value is accepted |
| ConfigEdit.ValidatedMap | app.py:1626-1633 | Computes the accepted texts by key, a later entry for a key winning; ConfigEdit.ValidatedMapKeys states it |
| ConfigEdit.ValidatedStep | app.py:1626-1633 | One more entry adds its accepted text under its key, and a refused entry adds nothing |
| ConfigEdit.AllValidStep | app.py:1626-1638 | One more entry keeps everything accepted iff it is accepted itself |
| ConfigEdit.TokenEnv.constructor | app.py:1642-1643 | The lines are the file's lines |

## Left out

- Flask routes, templates, login, CSRF, security headers and SocketIO broadcasts: web plumbing with no decision logic.
- Threads, `bot_lock`, `Event.wait` and `join`: the control state and the run loop are sequential. A stop during a wait is a flag on the cycle outcome.
- SQLite connections, analytics SQL, export and import: the tables are maps. `save_tweets` appears only as the saved record of a run-loop step. `get_all_prompts` and `get_persona_settings` are read as the maps themselves.
- HTTP fetching, BeautifulSoup parsing, and the Gemini and tweepy calls: their outcomes are parameters (`HttpOutcome`, `parse`, `Backend`, `PostOutcome`).
- `time.sleep` and `datetime.now`: integer seconds, with sleeps recorded in a trace. Parsing ISO timestamps is an entry's `Stamp`, where an unparsable stamp is `None`.
- `unicodedata.category` and `unicodedata.name` are the parameter `info`.
- `random.choices` in `trending_tweets`, and `main.run_bot` (an endless countdown loop replaced by the dashboard's run loop).
- Floating point: `safe_float_config`, `get_float`, AI_TEMPERATURE and top-p. `ConfigEdit.ValidateConfigValue` leaves `float(value)` and its comparisons with 0.0 and 2.0 to the parameter `floatText`, which says which of them failed, and submitted JSON numbers with a fraction are not a `Value`.
- `validate_startup_config`, `get_initialization_status`, `generate_secure_secret_key`, `sanitize_for_logging` and the word-frequency analytics: reporting, randomness or logging only.
- The undefined names `rate_limiter`, `time` and `requests` in the error handlers of `reply.py` raise `NameError` (see "## Findings"). The members named below follow the intended handlers, with an explicit failure counter and the stated backoff formulas; the as-written members beside them do not.
- Text.Lower: only ASCII letters are lower-cased, where Python lower-cases all of Unicode. The same holds for the case-insensitive matches built on it (cache keys, `get_bool`, rate-limit markers, unsafe markers, weak patterns).
- Validators.Variety: upper case, lower case and digits mean ASCII letters and digits, where Python's `isupper`, `islower` and `isdigit` accept all of Unicode (a digit such as `٣` counts in Python).
- Text.ParseInt: accepts surrounding whitespace, one sign and ASCII digits. Python's `int` also takes `_` between digits and non-ASCII digits.
- Control.BotControl.RunBotThread: the cycle minutes are read with default 30 and, as in the source, not normalised. The general-prompt branch is modelled; the body of `trending_tweets` is not, only its result.
- The `save_cache` JSON write is a success flag, and the JSON file format is not part of this model.
- Reply.SavedAfter: a failed write is taken to leave no readable file. A failure in `open` itself leaves the old file in place, and a failure part-way through `json.dump` leaves a partial file. Neither is told apart.
- Reply.Upgrade: this is the corrected clean-up from "## Findings". An undated dictionary keeps its own category, where the code as written stores `str(data)`. Reply.UpgradeAsWritten is the code as written.
- Reply.Cleaned: follows the corrected Reply.Upgrade, so an undated dictionary keeps its category.
- Reply.CleanedKeepsAnswers: holds for the corrected Reply.Upgrade. Reply.UpgradeAsWrittenLosesCategory shows that it fails for the code as written.
- Reply.Classifier.SaveCache: stores entries rewritten by the corrected Reply.Upgrade.
- Reply.Classify: follows the intended handlers: a quota error or an uncaught error gives casual, where the code as written raises `NameError` (Reply.ClassifyAsWritten).
- Reply.Classifier.AskModel: saves through the corrected Reply.Classifier.SaveCache, and follows the intended handlers: a quota error counts, sleeps and stores casual, where the code as written raises and stores nothing (Reply.Classifier.AskModelAsWritten). The clock readings at reply.py:247 and reply.py:365 are taken as one.
- Reply.Classifier.SendPrompt: follows the intended handlers: a quota error counts and sleeps and an uncaught error gives `""`, where the code as written raises `NameError` (Reply.Classifier.SendPromptAsWritten).
- Reply.Classifier.DetectTopicType: saves through the corrected Reply.Classifier.SaveCache, and its error paths are those of Reply.Classifier.AskModel, the intended ones.
- Reply.Classifier.GenerateReply: saves through the corrected Reply.Classifier.SaveCache, and its error paths are the intended ones of Reply.Classifier.AskModel and Reply.Classifier.SendPrompt. As written, a quota or uncaught error leaves `generate_reply` with `NameError` for the run loop's error branch (the `Raised` outcome of `Control.Step`: no row, a 60-second wait). Also, the generator never returns `None`, so the run loop's 10-second branch is reached only through the abstract generator outcome of `Control.Step`.
- Config.GetList: the separator is one character. Python's `split` takes a separator string, but every caller passes `,`.
- ConfigEdit.ReprStr: characters outside ASCII that Python counts as non-printable would be written as `\x`, `\u` or `\U` escapes; here they are shown as they are.
- ConfigEdit.Check: a list value is stored by the corrected comma-joined form from "## Findings", not `str(list)`. ConfigEdit.ListTextAsWritten is the code as written.
- ConfigEdit.ValidateConfigValue: stores a list by the corrected comma-joined form, as ConfigEdit.Check does.
- ConfigEdit.ListChecked: states the corrected comma-joined form of a stored list.
- ConfigEdit.TokenEnv.ValidateAll: collects lists in the corrected comma-joined form.
- ConfigEdit.TokenEnv.UpdateTokenEnv: writes `SLEEP_HOURS` in the corrected comma-joined form, so the bot reads the submitted hours back.
- Database.Format: a format spec holding a nested replacement field (`{tone:{width}}`) is treated as malformed, where Python substitutes the inner field first. A field with a missing setting and a malformed conversion (`{x!}`) counts as a missing setting, where Python reports the conversion first. Rendering of a field with modifiers is the parameter `render`.
- Database.RenderPrompt: inherits the two Database.Format differences above.
- Database.ActivePrompts: inherits the two Database.Format differences above.
- Database.Store.GetActivePromptsDict: inherits the two Database.Format differences above.
- Validators.CalculateTwitterLength: mentions and hashtags use ASCII word characters for `\w`, where Python's `\w` matches all Unicode letters and digits.

## Findings

| source | as written | input that shows it | evidently intended | confidence | as-written member | corrected member |
|---|---|---|---|---|---|---|
| reply.py:382-387 | A dict entry without `timestamp` gets category `str(data)`, the dict's printed form | the cache entry `{"category": "tech"}` | keep `data['category']` and add the current time | not executed | Reply.UpgradeAsWrittenLosesCategory | Reply.UpgradeKeepsAnswer |
| app.py:1603-1614 | A validated `sleep_hours` list is returned as `str(list)` and written as `SLEEP_HOURS=[2, 4]`; main.py:60-70 cannot convert `[2` and falls back to the default hours | submitting `"2,4"` for `sleep_hours` | write the hours comma-joined, the form main.py:60-70 reads | not executed | ConfigEdit.SleepHoursAsWrittenIgnored | ConfigEdit.SleepHoursReadBack |
| reply.py:198-341 | The quota handlers call `rate_limiter` and `time`, and the clauses after the google ones name `requests`; reply.py defines none of them, so these paths raise `NameError`, nothing is stored or saved, and the error reaches the run loop | a `ResourceExhausted` error, or a `ValueError` from `resp.text` on a blocked reply | count the failure, sleep the backoff and fall back to casual or `""` | not executed | Reply.HandlersRaiseAsWritten | Reply.Classifier.AskModel |
| app.py:2626 | The self-test expects 20 for the mention row, but a mention counts in full | `"@username how are you?"`, which weighs 22 | expect 22, as the row's comment says | not executed | Validators.SelfTestExpectationsUnmet | Validators.MentionRow |
| app.py:2627 | The self-test expects 19 for the hashtag row, but hashtags count in full | `"#hashtag #trending now"`, which weighs 22 | expect 22, as the row's comment says | not executed | Validators.SelfTestExpectationsUnmet | Validators.HashtagRow |
| app.py:2625 | The self-test expects 23 + 17, but the text before the URL has 16 characters | `"Check this out: "` and the long example URL, which weigh 39 | expect 16 + 23 | not executed | Validators.SelfTestExpectationsUnmet | Validators.LabelledUrlRow |
| app.py:2628 | The self-test expects 23 + 5 + 23 and leaves out `"Visit "` | `"Visit https://example.com and https://test.com"`, which weighs 57 | expect 6 + 23 + 5 + 23 | not executed | Validators.SelfTestExpectationsUnmet | Validators.TwoUrlRow |
