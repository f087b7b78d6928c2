/** The configuration manager: a process-wide reader of environment variables that
    re-reads the settings file when it is asked for a value more than five minutes
    after the last successful load, plus the typed accessors built on it.
    The environment is a parameter (`env`); what loading the settings file puts
    into it is not part of this model, only when loading happens and whether it
    succeeded. */
module Config {
  import opened Text

  /** Seconds between automatic reloads. */
  const ReloadInterval: int := 300

  /** `os.getenv(key, default)` */
  function Lookup(env: map<string, string>, key: string, default: Option<string>): Option<string> {
    if key in env then Some(env[key]) else default
  }

  class ConfigManager {
    /** Time of the last successful load; 0 before any. */
    var lastReload: int

    /** Construction sets the clock to 0 and then loads once. */
    constructor (now: int, loadOk: bool)
      ensures lastReload == if loadOk then now else 0
    {
      lastReload := if loadOk then now else 0;
    }

    /** Loading the settings file moves the clock only when it succeeds. */
    method LoadConfig(now: int, loadOk: bool)
      modifies this
      ensures lastReload == if loadOk then now else old(lastReload)
    {
      if loadOk {
        lastReload := now;
      }
    }

    predicate ReloadDue(now: int, forceReload: bool)
      reads this
    {
      forceReload || now - lastReload > ReloadInterval
    }

    /** `get`: reload when forced or when the last load is more than
        `ReloadInterval` seconds old, then read the environment. */
    method Get(env: map<string, string>, key: string, default: Option<string>, forceReload: bool, now: int, loadOk: bool)
      returns (r: Option<string>)
      modifies this
      ensures r == Lookup(env, key, default)
      ensures old(ReloadDue(now, forceReload)) && loadOk ==> lastReload == now
      ensures !(old(ReloadDue(now, forceReload)) && loadOk) ==> lastReload == old(lastReload)
    {
      if forceReload || now - lastReload > ReloadInterval {
        LoadConfig(now, loadOk);
      }
      r := Lookup(env, key, default);
    }

    /** `reload`: a forced read of a dummy key. */
    method Reload(env: map<string, string>, now: int, loadOk: bool) returns (r: Option<string>)
      modifies this
      ensures r == Lookup(env, "dummy", None)
      ensures lastReload == if loadOk then now else old(lastReload)
    {
      r := Get(env, "dummy", None, true, now, loadOk);
    }

    /** `is_loaded` */
    predicate IsLoaded()
      reads this
      ensures IsLoaded() <==> lastReload > 0
    {
      lastReload > 0
    }
  }

  /** `get_int`: `int(get(key, str(default)))`, and `default` when that raises.
      `raw` is what `get` read for the key (`None` when it is unset); an unset
      key gives `default` directly, since `int(str(default)) == default`
      (`ParseIntToString`). */
  function GetInt(raw: Option<string>, default: int): (r: int)
    ensures raw.None? ==> r == default
    ensures raw.Some? && ParseInt(raw.value).Some? ==> r == ParseInt(raw.value).value
    ensures raw.Some? && ParseInt(raw.value).None? ==> r == default
  {
    match raw
    case None => default
    case Some(text) => ParseInt(text).GetOr(default)
  }

  /** Reading the default's own text gives the default back. */
  lemma GetIntDefaultText(default: int)
    ensures GetInt(Some(IntToString(default)), default) == GetInt(None, default)
  {
    ParseIntToString(default);
  }

  const TrueWords: set<string> := {"true", "1", "yes", "on"}

  /** `get_bool`: the value read with default `''`, lower-cased, is one of the
      true words. The `default` argument is accepted and never used. */
  function GetBool(raw: Option<string>, default: bool): bool {
    Lower(raw.GetOr("")) in TrueWords
  }

  /** An unset key reads as false whatever default is passed, and the default
      never changes the answer. */
  lemma GetBoolIgnoresDefault(raw: Option<string>)
    ensures GetBool(raw, true) == GetBool(raw, false)
    ensures !GetBool(None, true)
    ensures GetBool(Some("TRUE"), false) && GetBool(Some("On"), false) && !GetBool(Some("enabled"), true)
  {
    assert Lower("TRUE") == "true";
    assert Lower("On") == "on";
  }

  /** The items of a split, stripped, with the empty ones dropped. */
  function StrippedNonEmpty(items: seq<string>): (r: seq<string>)
    ensures |r| <= |items|
    ensures forall k :: 0 <= k < |r| ==> r[k] != "" && Strip(r[k]) == r[k]
  {
    if items == [] then []
    else
      var head := Strip(items[0]);
      var rest := StrippedNonEmpty(items[1..]);
      if head == "" then rest
      else
        StripUnchanged(head);
        PrependItem(head, rest);
        [head] + rest
  }

  lemma PrependItem(head: string, rest: seq<string>)
    requires head != "" && Strip(head) == head
    requires forall k :: 0 <= k < |rest| ==> rest[k] != "" && Strip(rest[k]) == rest[k]
    ensures forall k :: 0 <= k < |[head] + rest| ==> ([head] + rest)[k] != "" && Strip(([head] + rest)[k]) == ([head] + rest)[k]
  {
    var r := [head] + rest;
    forall k | 0 <= k < |r| ensures r[k] != "" && Strip(r[k]) == r[k] {
      if k > 0 {
        assert r[k] == rest[k - 1];
      }
    }
  }

  /** `get_list`: the default for an empty or unset value; otherwise the pieces
      between separators, stripped, empty pieces dropped. */
  function GetList(raw: Option<string>, default: seq<string>, sep: char): (r: seq<string>)
    ensures raw.GetOr("") == "" ==> r == default
    ensures raw.GetOr("") != "" ==> forall k :: 0 <= k < |r| ==> r[k] != "" && Strip(r[k]) == r[k] && sep !in r[k]
  {
    var value := raw.GetOr("");
    if value == "" then default
    else
      StrippedKeepsOut(Split(value, sep), sep);
      StrippedNonEmpty(Split(value, sep))
  }

  lemma {:induction false} StrippedKeepsOut(items: seq<string>, sep: char)
    requires forall j :: 0 <= j < |items| ==> sep !in items[j]
    ensures forall k :: 0 <= k < |StrippedNonEmpty(items)| ==> sep !in StrippedNonEmpty(items)[k]
    decreases |items|
  {
    if items != [] {
      StrippedKeepsOut(items[1..], sep);
    }
  }

  predicate ListItem(s: string, sep: char) {
    s != "" && Strip(s) == s && sep !in s
  }

  /** A list written as `sep.join(items)` reads back as the same list when every
      item is non-empty, unpadded and free of the separator. */
  lemma {:induction false} GetListJoin(items: seq<string>, sep: char, default: seq<string>)
    requires items != []
    requires forall k :: 0 <= k < |items| ==> ListItem(items[k], sep)
    ensures GetList(Some(Join(items, [sep])), default, sep) == items
  {
    SplitJoin(items, sep);
    JoinNonEmpty(items, [sep]);
    StrippedNonEmptyIdentity(items);
  }

  lemma {:induction false} JoinNonEmpty(items: seq<string>, sep: string)
    requires items != [] && items[0] != ""
    ensures Join(items, sep) != ""
  {
    if |items| > 1 {
      assert Join(items, sep)[0] == items[0][0];
    }
  }

  lemma {:induction false} StrippedNonEmptyIdentity(items: seq<string>)
    requires forall k :: 0 <= k < |items| ==> items[k] != "" && Strip(items[k]) == items[k]
    ensures StrippedNonEmpty(items) == items
    decreases |items|
  {
    if items != [] {
      var tail := items[1..];
      forall k | 0 <= k < |tail| ensures tail[k] != "" && Strip(tail[k]) == tail[k] {
        assert tail[k] == items[k + 1];
      }
      StrippedNonEmptyIdentity(tail);
      assert Strip(items[0]) == items[0];
      assert items == [items[0]] + tail;
    }
  }
}
