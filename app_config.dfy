/** The dashboard's configuration editor: the per-key validation of a
    submitted value against the rule table, and the rewrite of the lines of
    the `token.env` file with the validated values. */
module ConfigEdit {
  import opened Text
  import Config
  import BotMain
  import Validators

  // Submitted values

  /** A value of the submitted JSON object: a nested object keeps its keys
      in order. Numbers with a fraction are not part of this model. */
  datatype Value =
    | Str(s: string)
    | Int(i: int)
    | Bool(b: bool)
    | Null
    | List(items: seq<Value>)
    | Object(fields: seq<(string, Value)>)

  /** `int(v)`, or `None` where it raises. */
  function PyInt(v: Value): Option<int> {
    match v
    case Str(s) => ParseInt(s)
    case Int(i) => Some(i)
    case Bool(b) => Some(if b then 1 else 0)
    case Null => None
    case List(_) => None
    case Object(_) => None
  }

  /** `str(v)`: a list or an object shows its items by `repr`. */
  function PyStr(v: Value): string
    decreases v, 1
  {
    match v
    case Str(s) => s
    case Int(i) => IntToString(i)
    case Bool(b) => if b then "True" else "False"
    case Null => "None"
    case List(xs) => "[" + Join(seq(|xs|, k requires 0 <= k < |xs| => Repr(xs[k])), ", ") + "]"
    case Object(fs) =>
      "{" + Join(seq(|fs|, k requires 0 <= k < |fs| => ReprStr(fs[k].0) + ": " + Repr(fs[k].1)), ", ") + "}"
  }

  /** `repr(v)`: a string quoted and escaped, anything else as `str`. */
  function Repr(v: Value): string
    decreases v, 2
  {
    if v.Str? then ReprStr(v.s) else PyStr(v)
  }

  /** The quote `repr` puts around a string: double quotes when the string
      holds a single quote and no double quote, single quotes otherwise. */
  function ReprQuote(s: string): char {
    if '\'' in s && '"' !in s then '"' else '\''
  }

  /** `repr(s)` for a string. */
  function ReprStr(s: string): (r: string)
    ensures |r| >= |s| + 2 && r[0] == r[|r| - 1] == ReprQuote(s)
  {
    [ReprQuote(s)] + Escaped(s, ReprQuote(s)) + [ReprQuote(s)]
  }

  const HexDigits: string := "0123456789abcdef"

  /** How `repr` writes one character inside quotes `q`: a backslash, the
      quote itself, and tab, newline and carriage return get a backslash
      escape, the other ASCII control characters a `\x` escape. */
  function EscapedChar(c: char, q: char): (r: string)
    ensures |r| >= 1
    ensures r == [c] <==> c != '\\' && c != q && c as int >= 0x20 && c as int != 0x7f
  {
    if c == '\\' then "\\\\"
    else if c == q then ['\\', q]
    else if c == '\t' then "\\t"
    else if c == '\n' then "\\n"
    else if c == '\r' then "\\r"
    else if c as int < 0x20 || c as int == 0x7f then
      "\\x" + [HexDigits[c as int / 16], HexDigits[c as int % 16]]
    else [c]
  }

  function Escaped(s: string, q: char): (r: string)
    ensures |r| >= |s|
  {
    if s == [] then [] else EscapedChar(s[0], q) + Escaped(s[1..], q)
  }

  /** Escaping leaves alone a string with no backslash, no quote `q` and no
      control character. */
  lemma {:induction false} EscapedPlain(s: string, q: char)
    requires forall i :: 0 <= i < |s| ==> s[i] != '\\' && s[i] != q && s[i] as int >= 0x20 && s[i] as int != 0x7f
    ensures Escaped(s, q) == s
  {
    if s != [] {
      EscapedPlain(s[1..], q);
    }
  }

  /** A string with nothing to escape is shown between single quotes as it
      is, unless it holds a single quote, which switches to double quotes. */
  lemma ReprPlain(s: string)
    requires forall i :: 0 <= i < |s| ==> s[i] != '\\' && s[i] != '"' && s[i] as int >= 0x20 && s[i] as int != 0x7f
    ensures '\'' !in s ==> Repr(Str(s)) == "'" + s + "'"
    ensures '\'' in s ==> Repr(Str(s)) == "\"" + s + "\""
  {
    if '\'' in s {
      EscapedPlain(s, '"');
    } else {
      EscapedPlain(s, '\'');
    }
  }

  // The rule table

  /** The `pattern` of a text rule. */
  datatype Pattern =
    | AnyText         // no pattern
    | Token           // ^[A-Za-z0-9_-]+$
    | TokenOrPercent  // ^[A-Za-z0-9_%-]+$
    | Digits          // ^[0-9]+$

  /** One entry of the rule table; `strength` marks the key whose value is
      also scored as a secret key. */
  datatype Rule =
    | IntRule(min: int, max: int)
    | FloatRule
    | ListRule(maxElements: nat, elementMin: int, elementMax: int)
    | TextRule(minLength: nat, maxLength: Option<nat>, pattern: Pattern, allowed: Option<seq<string>>, strength: bool)

  const Countries: seq<string> :=
    ["turkey", "usa", "uk", "germany", "france", "italy", "spain", "netherlands",
     "canada", "australia", "japan", "korea", "india", "brazil", "mexico"]

  const Models: seq<string> :=
    ["gemini-1.5-pro", "gemini-1.5-flash", "gemini-1.0-pro", "gemini-2.0-flash-exp", "gemini-2.5-flash"]

  /** The rule table, keyed by configuration key. */
  const Rules: map<string, Rule> := map[
    "trends_limit" := IntRule(1, 50),
    "cycle_duration" := IntRule(1, 1440),
    "night_mode_start" := IntRule(0, 23),
    "night_mode_end" := IntRule(0, 23),
    "ai_temperature" := FloatRule,
    "sleep_hours" := ListRule(24, 0, 23),
    "trend_country" := TextRule(0, None, AnyText, Some(Countries), false),
    "ai_model" := TextRule(0, None, AnyText, Some(Models), false),
    "api_key" := TextRule(10, Some(200), Token, None, false),
    "api_secret" := TextRule(10, Some(200), Token, None, false),
    "access_token" := TextRule(10, Some(200), Token, None, false),
    "access_token_secret" := TextRule(10, Some(200), Token, None, false),
    "bearer_token" := TextRule(10, Some(500), TokenOrPercent, None, false),
    "user_id" := TextRule(1, Some(50), Digits, None, false),
    "gemini_api_key" := TextRule(10, Some(200), Token, None, false),
    "flask_secret_key" := TextRule(32, Some(500), AnyText, None, true)]

  /** The rule for a key, `None` for a key the table does not have. */
  function RuleOf(key: string): Option<Rule> {
    if key in Rules then Some(Rules[key]) else None
  }

  predicate TokenChar(c: char) {
    'A' <= c <= 'Z' || 'a' <= c <= 'z' || '0' <= c <= '9' || c == '_' || c == '-'
  }

  /** `re.match(pattern, s)`; `s` is already stripped, so `$` can only match
      at its end. */
  predicate Matches(p: Pattern, s: string) {
    match p
    case AnyText => true
    case Token => s != [] && forall i :: 0 <= i < |s| ==> TokenChar(s[i])
    case TokenOrPercent => s != [] && forall i :: 0 <= i < |s| ==> TokenChar(s[i]) || s[i] == '%'
    case Digits => s != [] && forall i :: 0 <= i < |s| ==> IsDigit(s[i])
  }

  // Validation

  /** Why a value is refused, one per message of the validator. */
  datatype Reason =
    | UnknownKey | Blank | NotANumber | BelowMin | AboveMax
    | TooShort | TooLong | BadCharacters | NotAllowed | WeakSecret
    | NotAList | TooManyElements | BadElement | ElementBelowMin | ElementAboveMax

  /** What `float(v)` gives, measured against the float rule's bounds:
      no number, a number below 0.0, a number above 2.0, or a number that
      passes both comparisons (NaN among them), with `text` its `str()`.
      Floating point itself is not modelled. */
  datatype FloatReading = NotAFloat | BelowZero | AboveTwo | InRange(text: string)

  /** The outcome of `validate_config_value`: the text to store, or why not. */
  datatype Checked = Ok(text: string) | Rejected(reason: Reason)

  /** The secret-key score refuses the key: it is not strong and scores
      below 3. */
  predicate SecretTooWeak(s: string) {
    !(Validators.Issues(s) == [] && Validators.RawScore(s) >= 5) && Validators.RawScore(s) < 3
  }

  function StrValues(ts: seq<string>): (r: seq<Value>)
    ensures |r| == |ts| && forall k :: 0 <= k < |ts| ==> r[k] == Str(ts[k])
  {
    seq(|ts|, k requires 0 <= k < |ts| => Str(ts[k]))
  }

  /** The elements of a list value: a string is split at commas, the pieces
      stripped and the empty ones dropped; a list is taken as it is. */
  function ListElements(v: Value): Option<seq<Value>> {
    match v
    case Str(s) => Some(if Strip(s) == [] then [] else StrValues(Config.StrippedNonEmpty(Split(s, ','))))
    case List(xs) => Some(xs)
    case _ => None
  }

  /** The integer elements, or why the first bad element is refused. */
  datatype Elements = Ints(hs: seq<int>) | BadAt(reason: Reason)

  /** The element loop of a list rule. */
  function CheckElements(xs: seq<Value>, lo: int, hi: int): (r: Elements)
    ensures r.Ints? ==> |r.hs| == |xs|
    ensures r.Ints? ==> forall k :: 0 <= k < |xs| ==> PyInt(xs[k]) == Some(r.hs[k]) && lo <= r.hs[k] <= hi
    decreases |xs|
  {
    if xs == [] then Ints([])
    else match PyInt(xs[0])
      case None => BadAt(BadElement)
      case Some(h) =>
        if h < lo then BadAt(ElementBelowMin)
        else if h > hi then BadAt(ElementAboveMax)
        else match CheckElements(xs[1..], lo, hi)
          case BadAt(why) => BadAt(why)
          case Ints(hs) => Ints([h] + hs)
  }

  /** Every element converts to an integer in range exactly when the element
      loop accepts the list. */
  lemma {:induction false} CheckElementsAccepts(xs: seq<Value>, lo: int, hi: int)
    ensures CheckElements(xs, lo, hi).Ints? <==>
      forall k :: 0 <= k < |xs| ==> PyInt(xs[k]).Some? && lo <= PyInt(xs[k]).value <= hi
    decreases |xs|
  {
    if xs != [] {
      CheckElementsAccepts(xs[1..], lo, hi);
      assert forall k :: 1 <= k < |xs| ==> xs[k] == xs[1..][k - 1];
    }
  }

  /** How a validated list of hours is stored: `str(sanitized)`, the list's
      printed form. */
  function ListTextAsWritten(hs: seq<int>): string {
    "[" + Join(BotMain.IntTexts(hs), ", ") + "]"
  }

  /** How a validated list of hours is stored here: the decimal hours joined
      by commas, the form `SLEEP_HOURS` is read in. */
  function ListText(hs: seq<int>): string {
    Join(BotMain.IntTexts(hs), ",")
  }

  /** Check a value against an integer rule. */
  function CheckInt(rule: Rule, v: Value): Checked
    requires rule.IntRule?
  {
    if v.Str? && Strip(v.s) == [] then Rejected(Blank)
    else match PyInt(v)
      case None => Rejected(NotANumber)
      case Some(n) =>
        if n < rule.min then Rejected(BelowMin)
        else if n > rule.max then Rejected(AboveMax)
        else Ok(IntToString(n))
  }

  /** Check the stripped text of a value against a text rule. */
  function CheckText(rule: Rule, s: string): Checked
    requires rule.TextRule?
  {
    if |s| < rule.minLength then Rejected(TooShort)
    else if rule.maxLength.Some? && |s| > rule.maxLength.value then Rejected(TooLong)
    else if !Matches(rule.pattern, s) then Rejected(BadCharacters)
    else if rule.allowed.Some? && s !in rule.allowed.value then Rejected(NotAllowed)
    else if rule.strength && SecretTooWeak(s) then Rejected(WeakSecret)
    else Ok(s)
  }

  /** Check the elements of a value against a list rule. */
  function CheckList(rule: Rule, elements: Option<seq<Value>>): Checked
    requires rule.ListRule?
  {
    match elements
    case None => Rejected(NotAList)
    case Some(xs) =>
      if |xs| > rule.maxElements then Rejected(TooManyElements)
      else (match CheckElements(xs, rule.elementMin, rule.elementMax)
        case BadAt(why) => Rejected(why)
        case Ints(hs) => Ok(ListText(hs)))
  }

  /** A string of whitespace only: refused as empty by the integer and
      float rules before any conversion. */
  predicate BlankText(v: Value) {
    v.Str? && Strip(v.s) == []
  }

  /** Check a value against one rule. */
  function Check(rule: Rule, v: Value, floatText: Value -> FloatReading): (r: Checked)
    ensures (rule.IntRule? || rule.FloatRule?) && BlankText(v) ==> r == Rejected(Blank)
    ensures rule.IntRule? && r.Ok? ==>
      PyInt(v).Some? && rule.min <= PyInt(v).value <= rule.max && r.text == IntToString(PyInt(v).value)
    ensures rule.IntRule? && !BlankText(v) && PyInt(v).Some? ==>
      (PyInt(v).value < rule.min ==> r == Rejected(BelowMin))
      && (rule.min <= PyInt(v).value && PyInt(v).value > rule.max ==> r == Rejected(AboveMax))
    ensures rule.FloatRule? && !BlankText(v) ==>
      (r.Ok? <==> floatText(v).InRange?)
      && (r.Ok? ==> r.text == floatText(v).text)
      && (floatText(v).NotAFloat? ==> r == Rejected(NotANumber))
      && (floatText(v).BelowZero? ==> r == Rejected(BelowMin))
      && (floatText(v).AboveTwo? ==> r == Rejected(AboveMax))
    ensures rule.TextRule? && r.Ok? ==> r.text == Strip(PyStr(v))
    ensures rule.ListRule? && r.Ok? ==>
      ListElements(v).Some? && |ListElements(v).value| <= rule.maxElements
  {
    match rule
    case IntRule(_, _) => CheckInt(rule, v)
    case FloatRule =>
      if BlankText(v) then Rejected(Blank)
      else (match floatText(v)
        case NotAFloat => Rejected(NotANumber)
        case BelowZero => Rejected(BelowMin)
        case AboveTwo => Rejected(AboveMax)
        case InRange(t) => Ok(t))
    case TextRule(_, _, _, _, _) => CheckText(rule, Strip(PyStr(v)))
    case ListRule(_, _, _) => CheckList(rule, ListElements(v))
  }

  /** `validate_config_value`. `floatText(v)` stands for `float(v)` and
      its two range comparisons. */
  function ValidateConfigValue(key: string, v: Value, floatText: Value -> FloatReading): (r: Checked)
    ensures RuleOf(key).None? ==> r == Rejected(UnknownKey)
  {
    match RuleOf(key)
    case None => Rejected(UnknownKey)
    case Some(rule) => Check(rule, v, floatText)
  }

  /** A key with a text rule is checked on the stripped text of its value. */
  lemma ValidateText(key: string, rule: Rule, v: Value, floatText: Value -> FloatReading)
    requires RuleOf(key) == Some(rule) && rule.TextRule?
    ensures ValidateConfigValue(key, v, floatText) == CheckText(rule, Strip(PyStr(v)))
  {
  }

  /** Text accepted by a text rule is kept as it is and meets the rule's
      length and pattern. */
  lemma TextChecked(rule: Rule, t: string)
    requires rule.TextRule? && CheckText(rule, t).Ok?
    ensures CheckText(rule, t).text == t
    ensures rule.minLength <= |t| && (rule.maxLength.Some? ==> |t| <= rule.maxLength.value)
    ensures Matches(rule.pattern, t)
  {
  }

  /** The rules of the integer settings. */
  lemma IntRules(key: string)
    requires key in {"trends_limit", "cycle_duration", "night_mode_start", "night_mode_end"}
    ensures RuleOf(key) == Some(IntRule(
      if key == "trends_limit" || key == "cycle_duration" then 1 else 0,
      if key == "trends_limit" then 50 else if key == "cycle_duration" then 1440 else 23))
  {
  }

  /** The integer settings are accepted exactly when the value is not a blank
      string and converts to an integer in the key's range, and are stored
      as that integer's decimal text. */
  lemma IntSettingRanges(key: string, v: Value, floatText: Value -> FloatReading)
    requires key in {"trends_limit", "cycle_duration", "night_mode_start", "night_mode_end"}
    ensures var hi := if key == "trends_limit" then 50 else if key == "cycle_duration" then 1440 else 23;
      var lo := if key == "trends_limit" || key == "cycle_duration" then 1 else 0;
      var r := ValidateConfigValue(key, v, floatText);
      (r.Ok? <==> !(v.Str? && Strip(v.s) == []) && PyInt(v).Some? && lo <= PyInt(v).value <= hi)
      && (r.Ok? ==> r.text == IntToString(PyInt(v).value))
  {
    IntRules(key);
    var rule := RuleOf(key).value;
    assert ValidateConfigValue(key, v, floatText) == CheckInt(rule, v);
  }

  /** A validated integer setting reads back, through the start-up
      normalisation of the bot, as the number submitted. */
  lemma IntSettingReadBack(key: string, v: Value, floatText: Value -> FloatReading)
    requires key in {"trends_limit", "cycle_duration", "night_mode_start", "night_mode_end"}
    requires ValidateConfigValue(key, v, floatText).Ok?
    ensures PyInt(v).Some?
    ensures var t := Some(ValidateConfigValue(key, v, floatText).text);
      var n := PyInt(v).value;
      (key == "trends_limit" ==> BotMain.TrendsLimit(t) == n)
      && (key == "cycle_duration" ==> BotMain.CycleMinutes(t) == n)
      && (key == "night_mode_start" ==> BotMain.NightStart(t) == n)
      && (key == "night_mode_end" ==> BotMain.NightEnd(t) == n)
  {
    IntSettingRanges(key, v, floatText);
    BotMain.LoadedSettingsAsWritten(PyInt(v).value);
  }

  /** Elements accepted by a list rule are stored as the text of their
      integers. */
  lemma ListChecked(rule: Rule, elements: Option<seq<Value>>)
    requires rule.ListRule? && CheckList(rule, elements).Ok?
    ensures elements.Some? && |elements.value| <= rule.maxElements
    ensures CheckElements(elements.value, rule.elementMin, rule.elementMax).Ints?
    ensures CheckList(rule, elements).text ==
      ListText(CheckElements(elements.value, rule.elementMin, rule.elementMax).hs)
  {
  }

  /** `sleep_hours` is checked by its list rule on the elements of its value. */
  lemma SleepHoursRule(v: Value, floatText: Value -> FloatReading)
    ensures ValidateConfigValue("sleep_hours", v, floatText) == CheckList(ListRule(24, 0, 23), ListElements(v))
  {
    assert RuleOf("sleep_hours") == Some(ListRule(24, 0, 23));
  }

  /** `sleep_hours` is accepted exactly when the value gives at most 24
      elements, every one an integer in 0..23. */
  lemma SleepHoursAccepted(v: Value, floatText: Value -> FloatReading)
    ensures ValidateConfigValue("sleep_hours", v, floatText).Ok? <==>
      ListElements(v).Some? && |ListElements(v).value| <= 24
      && forall k :: 0 <= k < |ListElements(v).value| ==>
        PyInt(ListElements(v).value[k]).Some? && 0 <= PyInt(ListElements(v).value[k]).value <= 23
  {
    SleepHoursRule(v, floatText);
    if ListElements(v).Some? {
      CheckElementsAccepts(ListElements(v).value, 0, 23);
    }
  }

  /** A validated non-empty `sleep_hours` is stored in the form the bot reads:
      the hours read back at start-up are exactly the ones submitted. */
  lemma SleepHoursReadBack(v: Value, floatText: Value -> FloatReading)
    requires ValidateConfigValue("sleep_hours", v, floatText).Ok?
    ensures ListElements(v).Some? && CheckElements(ListElements(v).value, 0, 23).Ints?
    ensures var hs := CheckElements(ListElements(v).value, 0, 23).hs;
      hs != [] ==> BotMain.LoadSleepHours(Some(ValidateConfigValue("sleep_hours", v, floatText).text)) == hs
  {
    var rule := ListRule(24, 0, 23);
    SleepHoursRule(v, floatText);
    ListChecked(rule, ListElements(v));
    var hs := CheckElements(ListElements(v).value, 0, 23).hs;
    if hs != [] {
      BotMain.SleepHoursRoundTrip(hs);
    }
  }

  /** Stored in its printed form, any list of hours is read back at start-up
      as the default hours: the first piece `[h` does not convert. */
  lemma SleepHoursAsWrittenIgnored(hs: seq<int>)
    ensures BotMain.LoadSleepHours(Some(ListTextAsWritten(hs))) == BotMain.DefaultSleepHours
  {
    BotMain.BracketedSleepHoursIgnored(ListTextAsWritten(hs));
  }

  /** The trend country takes only the listed countries, each of which has
      a trends page. */
  lemma CountryChoices(v: Value, floatText: Value -> FloatReading)
    ensures var r := ValidateConfigValue("trend_country", v, floatText);
      (r.Ok? <==> Strip(PyStr(v)) in Countries)
      && (r.Ok? ==> r.text == Strip(PyStr(v)) && r.text in CountryUrls)
  {
    var rule := TextRule(0, None, AnyText, Some(Countries), false);
    assert RuleOf("trend_country") == Some(rule);
    ValidateText("trend_country", rule, v, floatText);
    var s := Strip(PyStr(v));
    assert CheckText(rule, s) == if s in Countries then Ok(s) else Rejected(NotAllowed);
    CountriesHaveUrls();
  }

  /** The model name takes only the listed models. */
  lemma ModelChoices(v: Value, floatText: Value -> FloatReading)
    ensures var r := ValidateConfigValue("ai_model", v, floatText);
      (r.Ok? <==> Strip(PyStr(v)) in Models) && (r.Ok? ==> r.text == Strip(PyStr(v)))
  {
    var rule := TextRule(0, None, AnyText, Some(Models), false);
    assert RuleOf("ai_model") == Some(rule);
    ValidateText("ai_model", rule, v, floatText);
    var s := Strip(PyStr(v));
    assert CheckText(rule, s) == if s in Models then Ok(s) else Rejected(NotAllowed);
  }

  /** The API credentials are stored as their stripped text: 10 to 200
      letters, digits, `_` or `-`. */
  lemma CredentialShape(key: string, v: Value, floatText: Value -> FloatReading)
    requires key in {"api_key", "api_secret", "access_token", "access_token_secret", "gemini_api_key"}
    requires ValidateConfigValue(key, v, floatText).Ok?
    ensures var t := ValidateConfigValue(key, v, floatText).text;
      t == Strip(PyStr(v)) && 10 <= |t| <= 200 && forall i :: 0 <= i < |t| ==> TokenChar(t[i])
  {
    CredentialRule(key);
    ValidateText(key, TextRule(10, Some(200), Token, None, false), v, floatText);
    TextChecked(TextRule(10, Some(200), Token, None, false), Strip(PyStr(v)));
  }

  lemma CredentialRule(key: string)
    requires key in {"api_key", "api_secret", "access_token", "access_token_secret", "gemini_api_key"}
    ensures RuleOf(key) == Some(TextRule(10, Some(200), Token, None, false))
  {
  }

  /** The bearer token is stored as its stripped text: 10 to 500 letters,
      digits, `_`, `-` or `%`. */
  lemma BearerTokenShape(v: Value, floatText: Value -> FloatReading)
    requires ValidateConfigValue("bearer_token", v, floatText).Ok?
    ensures var t := ValidateConfigValue("bearer_token", v, floatText).text;
      t == Strip(PyStr(v)) && 10 <= |t| <= 500 && forall i :: 0 <= i < |t| ==> TokenChar(t[i]) || t[i] == '%'
  {
    var rule := TextRule(10, Some(500), TokenOrPercent, None, false);
    assert RuleOf("bearer_token") == Some(rule);
    ValidateText("bearer_token", rule, v, floatText);
    TextChecked(rule, Strip(PyStr(v)));
  }

  /** The user id is stored as its stripped text: 1 to 50 decimal digits. */
  lemma UserIdShape(v: Value, floatText: Value -> FloatReading)
    requires ValidateConfigValue("user_id", v, floatText).Ok?
    ensures var t := ValidateConfigValue("user_id", v, floatText).text;
      t == Strip(PyStr(v)) && 1 <= |t| <= 50 && forall i :: 0 <= i < |t| ==> IsDigit(t[i])
  {
    var rule := TextRule(1, Some(50), Digits, None, false);
    assert RuleOf("user_id") == Some(rule);
    ValidateText("user_id", rule, v, floatText);
    TextChecked(rule, Strip(PyStr(v)));
  }

  /** The Flask secret key is stored only when it has 32 to 500 characters
      and is strong or scores at least 3. */
  lemma SecretKeyAccepted(v: Value, floatText: Value -> FloatReading)
    ensures var r := ValidateConfigValue("flask_secret_key", v, floatText);
      var s := Strip(PyStr(v));
      r.Ok? <==> 32 <= |s| <= 500 && !SecretTooWeak(s)
  {
    var rule := TextRule(32, Some(500), AnyText, None, true);
    assert RuleOf("flask_secret_key") == Some(rule);
    ValidateText("flask_secret_key", rule, v, floatText);
  }

  // Rewriting token.env

  /** Each validated key and the environment line it is written to, in the
      order the rewrite tries them. */
  const Mappings: seq<(string, string)> := [
    ("sleep_hours", "SLEEP_HOURS"), ("trends_limit", "TRENDS_LIMIT"),
    ("cycle_duration", "CYCLE_DURATION_MINUTES"), ("night_mode_start", "NIGHT_MODE_START"),
    ("night_mode_end", "NIGHT_MODE_END"), ("trend_country", "TRENDS_URL"),
    ("ai_temperature", "AI_TEMPERATURE"), ("ai_model", "GEMINI_MODEL"),
    ("api_key", "api_key"), ("api_secret", "api_secret"), ("access_token", "access_token"),
    ("access_token_secret", "access_token_secret"), ("bearer_token", "bearer_token"),
    ("user_id", "USER_ID"), ("gemini_api_key", "gemini_api_key"), ("flask_secret_key", "FLASK_SECRET_KEY")]

  const CountryUrls: map<string, string> := map[
    "turkey" := "https://xtrends.iamrohit.in/turkey",
    "usa" := "https://xtrends.iamrohit.in/united-states",
    "uk" := "https://xtrends.iamrohit.in/united-kingdom",
    "germany" := "https://xtrends.iamrohit.in/germany",
    "france" := "https://xtrends.iamrohit.in/france",
    "italy" := "https://xtrends.iamrohit.in/italy",
    "spain" := "https://xtrends.iamrohit.in/spain",
    "netherlands" := "https://xtrends.iamrohit.in/netherlands",
    "canada" := "https://xtrends.iamrohit.in/canada",
    "australia" := "https://xtrends.iamrohit.in/australia",
    "japan" := "https://xtrends.iamrohit.in/japan",
    "korea" := "https://xtrends.iamrohit.in/south-korea",
    "india" := "https://xtrends.iamrohit.in/india",
    "brazil" := "https://xtrends.iamrohit.in/brazil",
    "mexico" := "https://xtrends.iamrohit.in/mexico"]

  /** Every country the validator allows has a trends page, so the fallback
      to the Turkish page is never taken for a validated country. */
  lemma CountriesHaveUrls()
    ensures forall c :: c in Countries ==> c in CountryUrls
  {
  }

  /** The environment names are distinct and none holds `=`, so a line
      starts with at most one `NAME=`. */
  lemma EnvNamesDistinct()
    ensures forall i :: 0 <= i < |Mappings| ==> '=' !in Mappings[i].1
    ensures forall i, j :: 0 <= i < j < |Mappings| ==> Mappings[i].1 != Mappings[j].1
  {
  }

  lemma EqPrefixUnique(x: string, a: string, b: string)
    requires '=' !in a && '=' !in b
    requires StartsWith(x, a + "=") && StartsWith(x, b + "=")
    ensures a == b
  {
    assert x[..|a| + 1] == a + "=" && x[..|b| + 1] == b + "=";
    assert x[|a|] == '=' && x[|b|] == '=';
    assert forall i :: 0 <= i < |a| ==> x[i] == a[i];
    assert forall i :: 0 <= i < |b| ==> x[i] == b[i];
    assert |a| == |b|;
    assert a == x[..|a|] == b;
  }

  /** `value.replace('\n', '').replace('\r', '').replace('\0', '')` */
  function Clean(s: string): (r: string)
    ensures |r| <= |s|
    ensures forall i :: 0 <= i < |r| ==> r[i] != '\n' && r[i] != '\r' && r[i] != '\0'
  {
    if s == [] then []
    else if s[0] in {'\n', '\r', '\0'} then Clean(s[1..])
    else [s[0]] + Clean(s[1..])
  }

  /** A value without line breaks or NULs is written as it is. */
  lemma {:induction false} CleanKeeps(s: string)
    requires forall i :: 0 <= i < |s| ==> s[i] != '\n' && s[i] != '\r' && s[i] != '\0'
    ensures Clean(s) == s
  {
    if s != [] {
      CleanKeeps(s[1..]);
    }
  }

  /** The text written for a validated key: a country becomes its trends
      page, every other value is written as validated. */
  function EnvValue(configKey: string, text: string): string {
    if configKey == "trend_country" then
      (if text in CountryUrls then CountryUrls[text] else CountryUrls["turkey"])
    else text
  }

  /** The mapping at index `k` applies to `line`. */
  predicate MatchAt(line: string, validated: map<string, string>, k: nat)
    requires k < |Mappings|
  {
    StartsWith(line, Mappings[k].1 + "=") && Mappings[k].0 in validated
  }

  /** The first mapping from index `from` on that applies to `line`. */
  function FirstMatch(line: string, validated: map<string, string>, from: nat): (r: Option<nat>)
    requires from <= |Mappings|
    ensures r.Some? ==> from <= r.value < |Mappings| && MatchAt(line, validated, r.value)
    ensures r.Some? ==> forall j :: from <= j < r.value ==> !MatchAt(line, validated, j)
    ensures r.None? ==> forall j :: from <= j < |Mappings| ==> !MatchAt(line, validated, j)
    decreases |Mappings| - from
  {
    if from == |Mappings| then None
    else if MatchAt(line, validated, from) then Some(from)
    else FirstMatch(line, validated, from + 1)
  }

  /** The line written for mapping `k`. */
  function EnvLine(validated: map<string, string>, k: nat): string
    requires k < |Mappings| && Mappings[k].0 in validated
  {
    Mappings[k].1 + "=" + Clean(EnvValue(Mappings[k].0, validated[Mappings[k].0])) + "\n"
  }

  /** One line of `token.env` after the rewrite. */
  function RewriteLine(line: string, validated: map<string, string>): string {
    match FirstMatch(line, validated, 0)
    case None => line
    case Some(k) => EnvLine(validated, k)
  }

  /** A line changes only when it starts with `NAME=` for a validated key,
      and then it becomes that key's line; a line that starts with such a
      `NAME=` is always rewritten. */
  lemma RewriteLineSpec(line: string, validated: map<string, string>, k: nat)
    requires k < |Mappings|
    ensures MatchAt(line, validated, k) ==> RewriteLine(line, validated) == EnvLine(validated, k)
    ensures (forall j :: 0 <= j < |Mappings| ==> !MatchAt(line, validated, j)) ==> RewriteLine(line, validated) == line
  {
    if MatchAt(line, validated, k) {
      var j := FirstMatch(line, validated, 0).value;
      EnvNamesDistinct();
      EqPrefixUnique(line, Mappings[j].1, Mappings[k].1);
    }
  }

  /** A rewritten line starts with the name it was rewritten for. */
  lemma EnvLineMatches(validated: map<string, string>, k: nat)
    requires k < |Mappings| && Mappings[k].0 in validated
    ensures MatchAt(EnvLine(validated, k), validated, k)
  {
    var name := Mappings[k].1 + "=";
    assert EnvLine(validated, k)[..|name|] == name;
  }

  /** Rewriting a rewritten line changes nothing. */
  lemma RewriteLineIdempotent(line: string, validated: map<string, string>)
    ensures RewriteLine(RewriteLine(line, validated), validated) == RewriteLine(line, validated)
  {
    match FirstMatch(line, validated, 0)
    case None =>
    case Some(k) =>
      EnvLineMatches(validated, k);
      RewriteLineSpec(EnvLine(validated, k), validated, k);
  }

  /** A line that starts with `SLEEP_HOURS=` after the rewrite is already the
      sleep-hours line. */
  lemma SleepLineStable(line: string, validated: map<string, string>)
    requires "sleep_hours" in validated
    requires StartsWith(RewriteLine(line, validated), "SLEEP_HOURS=")
    ensures RewriteLine(line, validated) == EnvLine(validated, 0)
  {
    var r := RewriteLine(line, validated);
    assert Mappings[0] == ("sleep_hours", "SLEEP_HOURS");
    assert MatchAt(r, validated, 0);
    RewriteLineIdempotent(line, validated);
    RewriteLineSpec(r, validated, 0);
  }

  /** The submitted keys all validate. */
  predicate AllValid(config: seq<(string, Value)>, floatText: Value -> FloatReading) {
    forall k :: 0 <= k < |config| ==> ValidateConfigValue(config[k].0, config[k].1, floatText).Ok?
  }

  /** The validated texts by key; a later entry for a key wins. */
  function ValidatedMap(config: seq<(string, Value)>, floatText: Value -> FloatReading): map<string, string> {
    if config == [] then map[]
    else
      var prior := ValidatedMap(config[..|config| - 1], floatText);
      var (key, value) := config[|config| - 1];
      match ValidateConfigValue(key, value, floatText)
      case Ok(t) => prior[key := t]
      case Rejected(_) => prior
  }

  /** Only submitted keys are validated, each with a text its rule accepted. */
  lemma {:induction false} ValidatedMapKeys(config: seq<(string, Value)>, floatText: Value -> FloatReading)
    ensures forall key :: key in ValidatedMap(config, floatText) ==>
      exists k :: (0 <= k < |config| && config[k].0 == key
        && ValidateConfigValue(key, config[k].1, floatText) == Ok(ValidatedMap(config, floatText)[key]))
  {
    if config != [] {
      var prefix := config[..|config| - 1];
      ValidatedMapKeys(prefix, floatText);
      forall key | key in ValidatedMap(config, floatText)
        ensures exists k :: (0 <= k < |config| && config[k].0 == key
          && ValidateConfigValue(key, config[k].1, floatText) == Ok(ValidatedMap(config, floatText)[key]))
      {
        var last := config[|config| - 1];
        if key == last.0 && ValidateConfigValue(key, last.1, floatText).Ok? {
          assert config[|config| - 1].0 == key;
        } else {
          assert key in ValidatedMap(prefix, floatText);
          assert ValidatedMap(config, floatText)[key] == ValidatedMap(prefix, floatText)[key];
          var k :| 0 <= k < |prefix| && prefix[k].0 == key
            && ValidateConfigValue(key, prefix[k].1, floatText) == Ok(ValidatedMap(prefix, floatText)[key]);
          assert config[k] == prefix[k];
        }
      }
    }
  }

  /** One more submitted entry extends the validated map by that entry's
      accepted text. */
  lemma ValidatedStep(config: seq<(string, Value)>, i: nat, floatText: Value -> FloatReading)
    requires i < |config|
    ensures var checked := ValidateConfigValue(config[i].0, config[i].1, floatText);
      ValidatedMap(config[..i + 1], floatText) ==
        (if checked.Ok? then ValidatedMap(config[..i], floatText)[config[i].0 := checked.text]
         else ValidatedMap(config[..i], floatText))
  {
    var prefix := config[..i + 1];
    assert prefix[..|prefix| - 1] == config[..i];
    assert prefix[|prefix| - 1] == config[i];
  }

  /** One more submitted entry keeps everything valid exactly when it is
      accepted itself. */
  lemma AllValidStep(config: seq<(string, Value)>, i: nat, floatText: Value -> FloatReading)
    requires i < |config|
    ensures AllValid(config[..i + 1], floatText) <==>
      AllValid(config[..i], floatText) && ValidateConfigValue(config[i].0, config[i].1, floatText).Ok?
  {
    var prefix := config[..i + 1];
    assert forall k :: 0 <= k < i ==> prefix[k] == config[..i][k];
    assert prefix[i] == config[i];
  }

  /** The contents of `token.env`, one string per line, each with its line
      break. */
  class TokenEnv {
    var lines: seq<string>

    constructor (contents: seq<string>)
      ensures lines == contents
    {
      lines := contents;
    }

    /** The inner loop of the rewrite: the first mapping that applies writes
      its line, and the loop stops. */
    static method RewriteOne(line: string, validated: map<string, string>) returns (out: string)
      ensures out == RewriteLine(line, validated)
    {
      out := line;
      var j := 0;
      var updated := false;
      while j < |Mappings| && !updated
        invariant 0 <= j <= |Mappings|
        invariant !updated ==> out == line && FirstMatch(line, validated, 0) == FirstMatch(line, validated, j)
        invariant updated ==> 0 < j && FirstMatch(line, validated, 0) == Some(j - 1) && out == EnvLine(validated, j - 1)
        decreases |Mappings| - j
      {
        var (configKey, envKey) := Mappings[j];
        if StartsWith(line, envKey + "=") && configKey in validated {
          assert MatchAt(line, validated, j);
          var value;
          if configKey == "sleep_hours" {
            value := validated[configKey];
          } else if configKey == "trend_country" {
            var country := validated[configKey];
            value := if country in CountryUrls then CountryUrls[country] else CountryUrls["turkey"];
          } else {
            value := validated[configKey];
          }
          assert value == EnvValue(configKey, validated[configKey]);
          out := envKey + "=" + Clean(value) + "\n";
          updated := true;
        }
        j := j + 1;
      }
    }

    /** The validation loop: every submitted value is checked, the accepted
        ones collected by key. */
    static method ValidateAll(config: seq<(string, Value)>, floatText: Value -> FloatReading)
      returns (validated: map<string, string>, failed: bool)
      ensures failed <==> !AllValid(config, floatText)
      ensures validated == ValidatedMap(config, floatText)
    {
      validated := map[];
      failed := false;
      for i := 0 to |config|
        invariant validated == ValidatedMap(config[..i], floatText)
        invariant failed <==> !AllValid(config[..i], floatText)
      {
        ValidatedStep(config, i, floatText);
        AllValidStep(config, i, floatText);
        var (key, value) := config[i];
        var checked := ValidateConfigValue(key, value, floatText);
        if checked.Ok? {
          validated := validated[key := checked.text];
        } else {
          failed := true;
        }
      }
      assert config[..|config|] == config;
    }

    /** The first pass: every line rewritten, in order. */
    static method RewriteAll(lines: seq<string>, validated: map<string, string>) returns (updated: seq<string>)
      ensures |updated| == |lines|
      ensures forall k :: 0 <= k < |lines| ==> updated[k] == RewriteLine(lines[k], validated)
    {
      updated := [];
      for i := 0 to |lines|
        invariant |updated| == i
        invariant forall k :: 0 <= k < i ==> updated[k] == RewriteLine(lines[k], validated)
      {
        var out := RewriteOne(lines[i], validated);
        ghost var before := updated;
        updated := updated + [out];
        assert forall k :: 0 <= k < i ==> updated[k] == before[k];
      }
    }

    /** The second pass over the rewritten lines: the first line that starts
        with `SLEEP_HOURS=` is written once more with the validated hours,
        which leaves it as it was. */
    static method RewriteSleepLine(lines: seq<string>, updated: seq<string>, validated: map<string, string>)
      returns (result: seq<string>)
      requires "sleep_hours" in validated
      requires |updated| == |lines|
      requires forall k :: 0 <= k < |updated| ==> updated[k] == RewriteLine(lines[k], validated)
      ensures result == updated
    {
      result := updated;
      var i := 0;
      var done := false;
      while i < |result| && !done
        invariant 0 <= i <= |result|
        invariant result == updated
        decreases |result| - i
      {
        if StartsWith(result[i], "SLEEP_HOURS=") {
          SleepLineStable(lines[i], validated);
          result := result[i := "SLEEP_HOURS=" + Clean(validated["sleep_hours"]) + "\n"];
          done := true;
        }
        i := i + 1;
      }
    }

    /** `update_token_env`: every submitted value is validated first; if any
        is refused nothing is written. Otherwise each line is rewritten, the
        first line starting with `SLEEP_HOURS=` is written once more, and no
        line is added or removed. */
    method UpdateTokenEnv(config: seq<(string, Value)>, floatText: Value -> FloatReading) returns (ok: bool)
      modifies this
      ensures ok <==> AllValid(config, floatText)
      ensures !ok ==> lines == old(lines)
      ensures ok ==> |lines| == |old(lines)|
      ensures ok ==> forall i :: 0 <= i < |lines| ==>
        lines[i] == RewriteLine(old(lines)[i], ValidatedMap(config, floatText))
    {
      var validated, failed := ValidateAll(config, floatText);
      if failed {
        return false;
      }
      var updated := RewriteAll(lines, validated);
      if "sleep_hours" in validated {
        updated := RewriteSleepLine(lines, updated, validated);
      }
      lines := updated;
      return true;
    }
  }
}
