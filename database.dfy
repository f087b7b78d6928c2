/** The prompt and persona-setting store: table-name allow-list, template
    rendering with the persona settings, the update/toggle operations and the
    seeding done when the tables are created. The SQLite tables become maps
    keyed by their UNIQUE column; whether a connection could be opened and
    `CURRENT_TIMESTAMP` are parameters. */
module Database {
  import opened Text

  const AllowedTableNames: set<string> := {"tweets", "prompts", "persona_settings", "test_tweets"}

  predicate IsAsciiAlnum(c: char) {
    'a' <= c <= 'z' || 'A' <= c <= 'Z' || '0' <= c <= '9'
  }

  /** `table_name.replace('_', '')` */
  function WithoutUnderscores(s: string): (r: string)
    ensures |r| <= |s|
  {
    if s == [] then []
    else if s[0] == '_' then WithoutUnderscores(s[1..])
    else [s[0]] + WithoutUnderscores(s[1..])
  }

  /** `validate_table_name`: a non-empty string from the allow-list made of
      letters, digits and underscores. `None` stands for `None` and for any
      value that is not a string. */
  function ValidateTableName(name: Option<string>): (ok: bool)
    ensures ok <==> name.Some? && name.value in AllowedTableNames
  {
    if name.None? || name.value == "" then false
    else if name.value !in AllowedTableNames then false
    else
      var rest := WithoutUnderscores(name.value);
      AllowedNamesAlnum(name.value);
      if rest == "" || !(forall i :: 0 <= i < |rest| ==> IsAsciiAlnum(rest[i])) then
        assert false;
        false
      else true
  }

  /** Removing the underscores from a name made of letters, digits and
      underscores leaves only letters and digits, and something is left when
      the name starts with a letter or digit. */
  lemma {:induction false} WithoutUnderscoresAlnum(s: string)
    requires forall i :: 0 <= i < |s| ==> IsAsciiAlnum(s[i]) || s[i] == '_'
    ensures forall i :: 0 <= i < |WithoutUnderscores(s)| ==> IsAsciiAlnum(WithoutUnderscores(s)[i])
    ensures s != [] && IsAsciiAlnum(s[0]) ==> WithoutUnderscores(s) != ""
    decreases |s|
  {
    if s != [] {
      WithoutUnderscoresAlnum(s[1..]);
    }
  }

  /** Every allowed name passes the letters-digits-underscores check, so that
      check never rejects anything the allow-list lets through. */
  lemma AllowedNamesAlnum(name: string)
    requires name in AllowedTableNames
    ensures WithoutUnderscores(name) != ""
    ensures forall i :: 0 <= i < |WithoutUnderscores(name)| ==> IsAsciiAlnum(WithoutUnderscores(name)[i])
  {
    assert name == "tweets" || name == "prompts" || name == "persona_settings" || name == "test_tweets";
    NameChars(name);
    WithoutUnderscoresAlnum(name);
  }

  lemma NameChars(name: string)
    requires name == "tweets" || name == "prompts" || name == "persona_settings" || name == "test_tweets"
    ensures name != [] && IsAsciiAlnum(name[0])
    ensures forall i :: 0 <= i < |name| ==> IsAsciiAlnum(name[i]) || name[i] == '_'
  {
  }

  /** The table name fixed at module load: the configured one when it is
      allowed, `tweets` otherwise. */
  function ConfiguredTableName(configured: Option<string>): (r: string)
    ensures r in AllowedTableNames
    ensures ValidateTableName(configured) ==> r == configured.value
    ensures !ValidateTableName(configured) ==> r == "tweets"
  {
    if ValidateTableName(configured) then configured.value else "tweets"
  }

  // ---------------------------------------------------------------------
  // `str.format(**settings)` with named fields

  datatype Rendered = Done(text: string) | MissingKey(key: string) | Invalid

  function Prepend(s: string, r: Rendered): Rendered {
    if r.Done? then Done(s + r.text) else r
  }

  /** Position of the `}` that closes a field, `None` when a `{` or the end
      of the text comes first. */
  function FieldLength(s: string): (r: Option<nat>)
    ensures r.Some? ==> r.value < |s| && s[r.value] == '}'
    ensures r.Some? ==> forall i :: 0 <= i < r.value ==> s[i] != '{' && s[i] != '}'
  {
    if s == [] then None
    else if s[0] == '}' then Some(0)
    else if s[0] == '{' then None
    else
      match FieldLength(s[1..])
      case None => None
      case Some(n) => Some(n + 1)
  }

  predicate IsModifier(c: char) {
    c == '.' || c == '[' || c == '!' || c == ':'
  }

  /** The argument name of a field: the text before any attribute, index,
      conversion or format spec. */
  function ArgName(field: string): (r: string)
    ensures |r| <= |field| && r == field[..|r|]
    ensures forall i :: 0 <= i < |r| ==> !IsModifier(r[i])
  {
    if field == [] || IsModifier(field[0]) then []
    else [field[0]] + ArgName(field[1..])
  }

  /** How Python renders a field that has an attribute, index, conversion or
      format spec after its name (`{tone!r}`, `{tone:>10}`, `{tone[0]}`),
      given the whole field text and the value of the setting it names: the
      rendered text, or `None` where rendering raises (an unknown conversion,
      a bad spec, an index out of range). */
  type FieldRenderer = (string, string) -> Option<string>

  /** Formatting left to right: `{{` and `}}` are literal braces, `{name}`
      is replaced by the setting's value, a name that is not a setting raises
      `KeyError`, a field with modifiers is rendered by `render`, and an
      unclosed field, a lone `}`, a positional field or a field `render`
      refuses is an error of another kind. */
  function Format(t: string, values: map<string, string>, render: FieldRenderer): (r: Rendered)
    decreases |t|
  {
    if t == [] then Done("")
    else if t[0] == '{' && |t| >= 2 && t[1] == '{' then Prepend("{", Format(t[2..], values, render))
    else if t[0] == '}' && |t| >= 2 && t[1] == '}' then Prepend("}", Format(t[2..], values, render))
    else if t[0] == '}' then Invalid
    else if t[0] == '{' then
      match FieldLength(t[1..])
      case None => Invalid
      case Some(n) =>
        var field := t[1..n + 1];
        var arg := ArgName(field);
        if arg == "" || AllDigits(arg) then Invalid
        else if arg !in values then MissingKey(arg)
        else if arg != field then
          (match render(field, values[arg])
           case None => Invalid
           case Some(s) => Prepend(s, Format(t[n + 2..], values, render)))
        else Prepend(values[arg], Format(t[n + 2..], values, render))
    else Prepend([t[0]], Format(t[1..], values, render))
  }

  predicate BraceFree(s: string) {
    forall i :: 0 <= i < |s| ==> s[i] != '{' && s[i] != '}'
  }

  /** Text without braces formats to itself. */
  lemma {:induction false} FormatBraceFree(t: string, values: map<string, string>, render: FieldRenderer)
    requires BraceFree(t)
    ensures Format(t, values, render) == Done(t)
    decreases |t|
  {
    if t != [] {
      FormatBraceFree(t[1..], values, render);
      assert [t[0]] + t[1..] == t;
    }
  }

  /** Brace-free text in front of a template is copied through. */
  lemma {:induction false} FormatPrefix(a: string, t: string, values: map<string, string>, render: FieldRenderer)
    requires BraceFree(a)
    ensures Format(a + t, values, render) == Prepend(a, Format(t, values, render))
    decreases |a|
  {
    if a == [] {
      assert a + t == t;
    } else {
      assert (a + t)[0] == a[0];
      assert (a + t)[1..] == a[1..] + t;
      FormatPrefix(a[1..], t, values, render);
      assert [a[0]] + a[1..] == a;
    }
  }

  /** A setting name usable as a plain `{name}` field. */
  predicate FieldName(k: string) {
    k != "" && !AllDigits(k) && BraceFree(k) && forall i :: 0 <= i < |k| ==> !IsModifier(k[i])
  }

  /** A plain field is replaced by its setting, or raises `KeyError` when the
      setting is absent. */
  lemma FormatField(k: string, t: string, values: map<string, string>, render: FieldRenderer)
    requires FieldName(k)
    ensures k in values ==> Format("{" + k + "}" + t, values, render) == Prepend(values[k], Format(t, values, render))
    ensures k !in values ==> Format("{" + k + "}" + t, values, render) == MissingKey(k)
  {
    var s := "{" + k + "}" + t;
    assert s[1..] == k + "}" + t;
    FieldLengthOf(k, t);
    assert s[1..|k| + 1] == k;
    ArgNameOf(k);
    assert s[|k| + 2..] == t;
  }

  /** A field with modifiers after a setting's name is rendered by `render`
      from the whole field and that setting's value: `{tone!r}` with
      `tone = "x"` becomes what `render("tone!r", "x")` gives. */
  lemma FormatModifiedField(k: string, mods: string, t: string, values: map<string, string>, render: FieldRenderer)
    requires FieldName(k) && k in values
    requires mods != [] && IsModifier(mods[0]) && BraceFree(mods)
    ensures render(k + mods, values[k]).Some? ==>
      Format("{" + k + mods + "}" + t, values, render) == Prepend(render(k + mods, values[k]).value, Format(t, values, render))
    ensures render(k + mods, values[k]).None? ==> Format("{" + k + mods + "}" + t, values, render) == Invalid
  {
    var field := k + mods;
    var s := "{" + field + "}" + t;
    assert "{" + k + mods + "}" + t == s;
    assert BraceFree(field) by {
      assert forall i :: 0 <= i < |field| ==> field[i] == if i < |k| then k[i] else mods[i - |k|];
    }
    assert s[1..] == field + "}" + t;
    FieldLengthOf(field, t);
    assert s[1..|field| + 1] == field;
    ArgNamePrefix(k, mods);
    assert s[|field| + 2..] == t;
  }

  /** The argument name stops at the first modifier. */
  lemma {:induction false} ArgNamePrefix(k: string, mods: string)
    requires forall i :: 0 <= i < |k| ==> !IsModifier(k[i])
    requires mods != [] && IsModifier(mods[0])
    ensures ArgName(k + mods) == k
    decreases |k|
  {
    if k == [] {
      assert k + mods == mods;
    } else {
      assert (k + mods)[1..] == k[1..] + mods;
      ArgNamePrefix(k[1..], mods);
      assert [k[0]] + k[1..] == k;
    }
  }

  lemma {:induction false} FieldLengthOf(k: string, t: string)
    requires BraceFree(k)
    ensures FieldLength(k + "}" + t) == Some(|k|)
    decreases |k|
  {
    if k != [] {
      assert (k + "}" + t)[1..] == k[1..] + "}" + t;
      FieldLengthOf(k[1..], t);
    }
  }

  lemma {:induction false} ArgNameOf(k: string)
    requires forall i :: 0 <= i < |k| ==> !IsModifier(k[i])
    ensures ArgName(k) == k
    decreases |k|
  {
    if k != [] {
      ArgNameOf(k[1..]);
      assert [k[0]] + k[1..] == k;
    }
  }

  // ---------------------------------------------------------------------
  // Rows

  datatype Prompt = Prompt(text: string, description: Option<string>, active: bool, updatedAt: int)
  datatype Setting = Setting(value: string, description: Option<string>, updatedAt: int)

  function SettingValues(settings: map<string, Setting>): (r: map<string, string>)
    ensures r.Keys == settings.Keys
    ensures forall k :: k in r ==> r[k] == settings[k].value
  {
    map k | k in settings :: settings[k].value
  }

  /** How one active prompt renders: the formatted text, the raw text when a
      setting is missing, and `None` when formatting fails otherwise. */
  function RenderPrompt(text: string, values: map<string, string>, render: FieldRenderer): (r: Option<string>)
    ensures r.None? <==> Format(text, values, render).Invalid?
    ensures Format(text, values, render).MissingKey? ==> r == Some(text)
    ensures Format(text, values, render).Done? ==> r == Some(Format(text, values, render).text)
  {
    match Format(text, values, render)
    case Done(s) => Some(s)
    case MissingKey(_) => Some(text)
    case Invalid => None
  }

  predicate AnyInvalid(prompts: map<string, Prompt>, values: map<string, string>, render: FieldRenderer) {
    exists k :: k in prompts && prompts[k].active && RenderPrompt(prompts[k].text, values, render).None?
  }

  /** `get_active_prompts_dict` on a reachable database: every active prompt
      rendered, or nothing at all when one of them fails to format. */
  function ActivePrompts(prompts: map<string, Prompt>, settings: map<string, Setting>, render: FieldRenderer): (r: map<string, string>)
    ensures forall k :: k in r ==> k in prompts && prompts[k].active
    ensures !AnyInvalid(prompts, SettingValues(settings), render) ==>
      forall k :: k in prompts && prompts[k].active ==>
        k in r && Some(r[k]) == RenderPrompt(prompts[k].text, SettingValues(settings), render)
    ensures AnyInvalid(prompts, SettingValues(settings), render) ==> r == map[]
  {
    var values := SettingValues(settings);
    if AnyInvalid(prompts, values, render) then map[]
    else map k | k in prompts && prompts[k].active :: RenderPrompt(prompts[k].text, values, render).value
  }

  /** A template that names a missing setting is served as written, and one
      without braces is served as written too. */
  lemma ActivePromptRawFallback(prompts: map<string, Prompt>, settings: map<string, Setting>, render: FieldRenderer, k: string)
    requires k in prompts && prompts[k].active
    requires !AnyInvalid(prompts, SettingValues(settings), render)
    requires Format(prompts[k].text, SettingValues(settings), render).MissingKey? || BraceFree(prompts[k].text)
    ensures k in ActivePrompts(prompts, settings, render)
    ensures ActivePrompts(prompts, settings, render)[k] == prompts[k].text
  {
    if BraceFree(prompts[k].text) {
      FormatBraceFree(prompts[k].text, SettingValues(settings), render);
    }
  }

  /** An inactive prompt is never served. */
  lemma InactiveNotServed(prompts: map<string, Prompt>, settings: map<string, Setting>, render: FieldRenderer, k: string)
    requires k in prompts && !prompts[k].active
    ensures k !in ActivePrompts(prompts, settings, render)
  {
  }

  /** Python truthiness of an optional string. */
  predicate Truthy(s: Option<string>) {
    s.Some? && s.value != ""
  }

  /** The prompt table after `update_prompt`. */
  function PromptUpdated(prompts: map<string, Prompt>, promptType: string, text: string, description: Option<string>, now: int): (r: map<string, Prompt>)
    ensures r.Keys == prompts.Keys
    ensures forall k :: k in prompts && k != promptType ==> r[k] == prompts[k]
    ensures promptType in prompts ==>
      r[promptType].text == text && r[promptType].active == prompts[promptType].active
      && r[promptType].updatedAt == now
      && r[promptType].description == (if Truthy(description) then description else prompts[promptType].description)
  {
    if promptType !in prompts then prompts
    else
      var old_ := prompts[promptType];
      var desc := if Truthy(description) then description else old_.description;
      prompts[promptType := Prompt(text, desc, old_.active, now)]
  }

  /** The prompt table after `toggle_prompt_status`. */
  function PromptToggled(prompts: map<string, Prompt>, promptType: string, now: int): (r: map<string, Prompt>)
    ensures r.Keys == prompts.Keys
    ensures forall k :: k in prompts && k != promptType ==> r[k] == prompts[k]
    ensures promptType in prompts ==>
      r[promptType].active == !prompts[promptType].active && r[promptType].updatedAt == now
      && r[promptType].text == prompts[promptType].text
      && r[promptType].description == prompts[promptType].description
  {
    if promptType !in prompts then prompts
    else prompts[promptType := prompts[promptType].(active := !prompts[promptType].active, updatedAt := now)]
  }

  /** Toggling twice gives back every prompt as it was, apart from the
      timestamp of the toggled one. */
  lemma ToggleTwice(prompts: map<string, Prompt>, promptType: string, t1: int, t2: int)
    ensures var r := PromptToggled(PromptToggled(prompts, promptType, t1), promptType, t2);
      r.Keys == prompts.Keys
      && forall k :: k in prompts ==>
        r[k].active == prompts[k].active && r[k].text == prompts[k].text && r[k].description == prompts[k].description
  {
  }

  /** The settings table after `update_persona_setting`. */
  function SettingUpdated(settings: map<string, Setting>, key: string, value: string, now: int): (r: map<string, Setting>)
    ensures r.Keys == settings.Keys
    ensures forall k :: k in settings && k != key ==> r[k] == settings[k]
    ensures key in settings ==>
      r[key] == Setting(value, settings[key].description, now)
    ensures key !in settings ==> r == settings
  {
    if key !in settings then settings
    else settings[key := settings[key].(value := value, updatedAt := now)]
  }

  // ---------------------------------------------------------------------
  // Seed data

  /** The seven persona settings inserted into an empty settings table. */
  function SeedSettings(now: int): (r: map<string, Setting>)
    ensures |r.Keys| == 7
    ensures forall k :: k in r ==> r[k].updatedAt == now && r[k].description.Some?
  {
    map[
      "persona_name" := Setting("KilimcininKorOglu", Some("Ana persona karakterinin ismi"), now),
      "persona_age" := Setting("25", Some("Persona karakterinin yaşı"), now),
      "persona_location" := Setting("İstanbul", Some("Persona karakterinin yaşadığı şehir"), now),
      "persona_personality" := Setting("cesur, zeki, ifadeci", Some("Persona karakterinin temel kişilik özellikleri"), now),
      "persona_language" := Setting("Türkçe", Some("Temel tweet dili"), now),
      "max_tweet_length" := Setting("285", Some("Maksimum tweet karakter sayısı"), now),
      "interaction_style" := Setting("etkileşimli", Some("Tweet sonunda soru sorma tarzı (etkileşimli/pasif)"), now)]
  }

  const TechTemplate: string :=
    "Sen {persona_name}'sın — {persona_location}'dan {persona_age} yaşında {persona_personality} bir teknoloji meraklısısın.\nTeknoloji konularında → İlk cümlede dikkat çekici giriş yap. Cesur, akıllı, özlü ol. İnce ironi veya bilim kurgu metaforları kullan. \nTon: Kendinden emin + insani. KENDİ görüşünü geçerli bir nedenle belirt.\nDil: SADECE {persona_language} yaz\nTeknik olmayanlara da hitap et. Kısa çarpıcı cümlelerle uzun olanları karıştır.\nUygun yerlerde \"Katılıyor musun?\" veya \"Sizce de öyle değil mi?\" gibi etkileşim soruları ekle.\nMaksimum {max_tweet_length} karakter. Tek tweet."
  const CasualTemplate: string :=
    "Sen {persona_name}'sın — {persona_location}'dan {persona_age} yaşında ifadeci birisisin.\nGündelik/Trending konular (filmler, kariyer, yaşam tavsiyeleri) → Duygusal bir giriş veya özdeşleşilebilir senaryo ile başla. Doğal {persona_language} ifadeler, sinema havası ve özdeşleşilebilir irony kullan.\nTon: Eğlenceli ama düşünceli. Kişisel görüşler paylaş, genel alıntılar değil.\nDil: SADECE {persona_language} yaz\nRitim için cümle uzunluklarını değiştir. Bazen \"Aynı fikirdeyim\", \"Ne düşünüyorsun?\" gibi etkileşim sorularıyla bitir.\nMaksimum {max_tweet_length} karakter. Tek tweet."
  const SadTemplate: string :=
    "Sen {persona_name}'sın — {persona_location}'dan {persona_age} yaşındasın.\nÜzücü haberler → Empati ve insani bağlantı ile aç. Mizah, ironi veya sinema tarzı kullanma.\nDil: SADECE {persona_language} yaz\nSamimi, şefkatli konuş. Birlik ve ortak insanlık değerlerine odaklan.\nKlişe ifadelerden kaçın. Uygunsa nazik bir dayanışma notuyla bitir.\nMaksimum {max_tweet_length} karakter. Tek tweet."

  /** The three prompts inserted, active, into an empty prompt table. */
  function SeedPrompts(now: int): (r: map<string, Prompt>)
    ensures r.Keys == {"tech", "casual", "sad"}
    ensures forall k :: k in r ==> r[k].active && r[k].updatedAt == now
    ensures r["tech"].text == TechTemplate && r["casual"].text == CasualTemplate && r["sad"].text == SadTemplate
  {
    map[
      "tech" := Prompt(TechTemplate, Some("Teknoloji konularında cesur ve zeki yaklaşım"), true, now),
      "casual" := Prompt(CasualTemplate, Some("Gündelik konularda ifadeci ve eğlenceli yaklaşım"), true, now),
      "sad" := Prompt(SadTemplate, Some("Üzücü konularda empatik ve şefkatli yaklaşım"), true, now)]
  }

  class Store {
    var prompts: map<string, Prompt>
    var settings: map<string, Setting>

    constructor ()
      ensures prompts == map[] && settings == map[]
    {
      prompts := map[];
      settings := map[];
    }

    /** `createDatabase`: with a connection, fill each table with its seed
        rows when, and only when, that table is empty. */
    method CreateDatabase(connected: bool, now: int)
      modifies this
      ensures !connected ==> prompts == old(prompts) && settings == old(settings)
      ensures connected ==> settings == if old(settings) == map[] then SeedSettings(now) else old(settings)
      ensures connected ==> prompts == if old(prompts) == map[] then SeedPrompts(now) else old(prompts)
    {
      if !connected {
        return;
      }
      if settings == map[] {
        settings := SeedSettings(now);
      }
      if prompts == map[] {
        prompts := SeedPrompts(now);
      }
    }

    /** `get_prompt_by_type`: the text of an active prompt of that type. */
    function GetPromptByType(promptType: string, connected: bool): (r: Option<string>)
      reads this
      ensures r.Some? <==> connected && promptType in prompts && prompts[promptType].active
      ensures r.Some? ==> r.value == prompts[promptType].text
    {
      if connected && promptType in prompts && prompts[promptType].active then Some(prompts[promptType].text)
      else None
    }

    /** `get_active_prompts_dict`: render each active prompt with the
        current setting values. */
    method GetActivePromptsDict(connected: bool, render: FieldRenderer) returns (r: map<string, string>)
      ensures r == if connected then ActivePrompts(prompts, settings, render) else map[]
    {
      if !connected {
        return map[];
      }
      var values := SettingValues(settings);
      var todo := prompts.Keys;
      var done: map<string, string> := map[];
      while todo != {}
        invariant todo <= prompts.Keys
        invariant forall k :: k in done <==> k in prompts && k !in todo && prompts[k].active
        invariant forall k :: k in done ==> Some(done[k]) == RenderPrompt(prompts[k].text, values, render)
        decreases todo
      {
        var k :| k in todo;
        if prompts[k].active {
          var text := prompts[k].text;
          match Format(text, values, render)
          case Done(s) =>
            done := done[k := s];
          case MissingKey(_) =>
            done := done[k := text];
          case Invalid =>
            assert RenderPrompt(prompts[k].text, values, render).None?;
            return map[];
        }
        todo := todo - {k};
      }
      assert !AnyInvalid(prompts, values, render);
      r := done;
      assert r == ActivePrompts(prompts, settings, render);
    }

    /** `update_prompt` */
    method UpdatePrompt(promptType: string, text: string, description: Option<string>, connected: bool, now: int)
      returns (ok: bool)
      modifies this
      ensures ok == connected
      ensures prompts == if connected then PromptUpdated(old(prompts), promptType, text, description, now) else old(prompts)
      ensures settings == old(settings)
    {
      if !connected {
        return false;
      }
      prompts := PromptUpdated(prompts, promptType, text, description, now);
      return true;
    }

    /** `toggle_prompt_status` */
    method TogglePromptStatus(promptType: string, connected: bool, now: int) returns (ok: bool)
      modifies this
      ensures ok == connected
      ensures prompts == if connected then PromptToggled(old(prompts), promptType, now) else old(prompts)
      ensures settings == old(settings)
    {
      if !connected {
        return false;
      }
      prompts := PromptToggled(prompts, promptType, now);
      return true;
    }

    /** `update_persona_setting`: succeeds even when no row has that key. */
    method UpdatePersonaSetting(key: string, value: string, connected: bool, now: int) returns (ok: bool)
      modifies this
      ensures ok == connected
      ensures settings == if connected then SettingUpdated(old(settings), key, value, now) else old(settings)
      ensures prompts == old(prompts)
    {
      if !connected {
        return false;
      }
      settings := SettingUpdated(settings, key, value, now);
      return true;
    }
  }
}
