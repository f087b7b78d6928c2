/** Python string and integer primitives that the rest of the model is built on:
    `str.isspace`, `str.strip`, `str.lower` (ASCII letters only), `startswith`,
    `in` on strings, `str.split` on one separator, `str.join`, `int(text)` and
    `str(n)`. */
module Text {

  datatype Option<+T> = None | Some(value: T) {
    function GetOr(default: T): T {
      match this
      case Some(v) => v
      case None => default
    }
  }

  /** The characters Python's `str.isspace` (and `\s` in a `re` pattern) accepts. */
  predicate IsSpace(c: char) {
    c == ' ' || ('\t' <= c <= '\r') || ('\U{1c}' <= c <= '\U{1f}') || c == '\U{85}'
    || c == '\U{a0}' || c == '\U{1680}' || ('\U{2000}' <= c <= '\U{200a}')
    || c == '\U{2028}' || c == '\U{2029}' || c == '\U{202f}' || c == '\U{205f}' || c == '\U{3000}'
  }

  predicate AllSpace(s: string) {
    forall i :: 0 <= i < |s| ==> IsSpace(s[i])
  }

  /** How many whitespace characters `s` starts with. */
  function LeadingSpaces(s: string): (n: nat)
    ensures n <= |s|
    ensures forall i :: 0 <= i < n ==> IsSpace(s[i])
    ensures n < |s| ==> !IsSpace(s[n])
    decreases |s|
  {
    if s == [] || !IsSpace(s[0]) then 0 else 1 + LeadingSpaces(s[1..])
  }

  /** How many whitespace characters `s` ends with. */
  function TrailingSpaces(s: string): (n: nat)
    ensures n <= |s|
    ensures forall i :: |s| - n <= i < |s| ==> IsSpace(s[i])
    ensures n < |s| ==> !IsSpace(s[|s| - n - 1])
    decreases |s|
  {
    if s == [] || !IsSpace(s[|s| - 1]) then 0 else 1 + TrailingSpaces(s[..|s| - 1])
  }

  /** `s.lstrip()` */
  function StripLeft(s: string): (r: string)
    ensures |r| <= |s|
    ensures r == [] || !IsSpace(r[0])
  {
    s[LeadingSpaces(s)..]
  }

  /** `s.rstrip()` */
  function StripRight(s: string): (r: string)
    ensures |r| <= |s|
    ensures r == [] || !IsSpace(r[|r| - 1])
  {
    s[..|s| - TrailingSpaces(s)]
  }

  /** `s.strip()` */
  function Strip(s: string): (r: string)
    ensures |r| <= |s|
    ensures r == [] || (!IsSpace(r[0]) && !IsSpace(r[|r| - 1]))
  {
    StripRight(StripLeft(s))
  }

  /** The stripped text is a slice of the text. */
  lemma StripSlice(s: string) returns (lo: nat, hi: nat)
    ensures lo <= hi <= |s| && Strip(s) == s[lo..hi]
  {
    lo := LeadingSpaces(s);
    hi := |s| - TrailingSpaces(s[lo..]);
    assert s[lo..][..|s[lo..]| - TrailingSpaces(s[lo..])] == s[lo..hi];
  }

  /** A string that does not start with whitespace keeps its first character. */
  lemma StripKeepsFirst(s: string)
    requires s != [] && !IsSpace(s[0])
    ensures Strip(s) != [] && Strip(s)[0] == s[0]
  {
    assert StripLeft(s) == s;
  }

  /** Stripping only removes characters. */
  lemma StripKeepsChars(s: string)
    ensures forall c :: c in Strip(s) ==> c in s
  {
    var lo, hi := StripSlice(s);
    assert forall i :: 0 <= i < hi - lo ==> s[lo..hi][i] == s[lo + i];
  }

  /** A string with no surrounding whitespace is its own strip. */
  lemma StripUnchanged(s: string)
    requires s == [] || (!IsSpace(s[0]) && !IsSpace(s[|s| - 1]))
    ensures Strip(s) == s
  {
    assert LeadingSpaces(s) == 0;
    assert StripLeft(s) == s;
    assert TrailingSpaces(s) == 0;
  }

  /** Whitespace before the text adds to its leading whitespace. */
  lemma {:induction false} LeadingPadding(pre: string, s: string)
    requires AllSpace(pre)
    ensures LeadingSpaces(pre + s) == |pre| + LeadingSpaces(s)
    decreases |pre|
  {
    if pre == [] {
      assert pre + s == s;
    } else {
      assert (pre + s)[0] == pre[0];
      assert (pre + s)[1..] == pre[1..] + s;
      LeadingPadding(pre[1..], s);
    }
  }

  /** Whitespace after the text adds to its trailing whitespace. */
  lemma {:induction false} TrailingPadding(s: string, post: string)
    requires AllSpace(post)
    ensures TrailingSpaces(s + post) == TrailingSpaces(s) + |post|
    decreases |post|
  {
    if post == [] {
      assert s + post == s;
    } else {
      var w := s + post;
      assert w[|w| - 1] == post[|post| - 1];
      assert w[..|w| - 1] == s + post[..|post| - 1];
      TrailingPadding(s, post[..|post| - 1]);
    }
  }

  /** Text after a non-space character does not change the leading
      whitespace. */
  lemma {:induction false} LeadingAppend(s: string, t: string)
    requires LeadingSpaces(s) < |s|
    ensures LeadingSpaces(s + t) == LeadingSpaces(s)
    decreases |s|
  {
    assert (s + t)[0] == s[0];
    if IsSpace(s[0]) {
      assert (s + t)[1..] == s[1..] + t;
      LeadingAppend(s[1..], t);
    }
  }

  /** Whitespace before the text disappears under `lstrip`. */
  lemma StripLeftPadded(pre: string, x: string)
    requires AllSpace(pre)
    ensures StripLeft(pre + x) == StripLeft(x)
  {
    LeadingPadding(pre, x);
    assert (pre + x)[|pre| + LeadingSpaces(x)..] == x[LeadingSpaces(x)..];
  }

  /** A string of whitespace strips to nothing. */
  lemma AllSpaceStrip(x: string)
    requires AllSpace(x)
    ensures StripLeft(x) == []
  {
    assert x + [] == x;
    LeadingPadding(x, []);
  }

  /** Text after a non-space character survives `lstrip` unchanged. */
  lemma StripLeftAppend(x: string, t: string)
    requires LeadingSpaces(x) < |x|
    ensures StripLeft(x + t) == StripLeft(x) + t
  {
    LeadingAppend(x, t);
    DropAppend(x, t, LeadingSpaces(x));
  }

  lemma DropAppend(x: string, t: string, n: nat)
    requires n <= |x|
    ensures (x + t)[n..] == x[n..] + t
  {
  }

  /** Whitespace after a text that is not all whitespace disappears under
      `rstrip`. */
  lemma StripRightPadded(l: string, post: string)
    requires AllSpace(post)
    ensures StripRight(l + post) == StripRight(l)
  {
    TrailingPadding(l, post);
    assert (l + post)[..|l| - TrailingSpaces(l)] == l[..|l| - TrailingSpaces(l)];
  }

  /** Whitespace after the text disappears under `strip`. */
  lemma StripAppendPadded(x: string, post: string)
    requires AllSpace(post)
    ensures Strip(x + post) == Strip(x)
  {
    if LeadingSpaces(x) == |x| {
      assert AllSpace(x);
      assert AllSpace(x + post);
      AllSpaceStrip(x + post);
      AllSpaceStrip(x);
    } else {
      StripLeftAppend(x, post);
      StripRightPadded(StripLeft(x), post);
    }
  }

  /** Whitespace added around a string disappears under `strip`. */
  lemma StripPadding(pre: string, s: string, post: string)
    requires AllSpace(pre) && AllSpace(post)
    ensures Strip(pre + s + post) == Strip(s)
  {
    assert pre + s + post == pre + (s + post);
    StripLeftPadded(pre, s + post);
    StripAppendPadded(s, post);
  }

  /** `c.lower()` for the ASCII capitals; every other character is left as it is. */
  function LowerChar(c: char): (r: char)
    ensures IsSpace(r) <==> IsSpace(c)
  {
    if 'A' <= c <= 'Z' then (c as int + 32) as char else c
  }

  /** `s.lower()`, ASCII letters only. */
  function Lower(s: string): (r: string)
    ensures |r| == |s|
    ensures forall i :: 0 <= i < |s| ==> r[i] == LowerChar(s[i])
  {
    seq(|s|, i requires 0 <= i < |s| => LowerChar(s[i]))
  }

  /** Lower-casing twice is lower-casing once. */
  lemma LowerIdempotent(s: string)
    ensures Lower(Lower(s)) == Lower(s)
  {
  }

  /** Stripping and lower-casing commute, because lower-casing never turns a
      space into a non-space or back. */
  lemma StripLower(s: string)
    ensures Strip(Lower(s)) == Lower(Strip(s))
  {
    StripLeftLower(s);
    StripRightLower(StripLeft(s));
  }

  lemma StripLeftLower(s: string)
    ensures StripLeft(Lower(s)) == Lower(StripLeft(s))
  {
    LeadingLower(s);
    assert Lower(s)[LeadingSpaces(s)..] == Lower(s[LeadingSpaces(s)..]);
  }

  lemma StripRightLower(s: string)
    ensures StripRight(Lower(s)) == Lower(StripRight(s))
  {
    TrailingLower(s);
    assert Lower(s)[..|s| - TrailingSpaces(s)] == Lower(s[..|s| - TrailingSpaces(s)]);
  }

  lemma {:induction false} LeadingLower(s: string)
    ensures LeadingSpaces(Lower(s)) == LeadingSpaces(s)
    decreases |s|
  {
    if s != [] {
      assert Lower(s)[1..] == Lower(s[1..]);
      LeadingLower(s[1..]);
    }
  }

  lemma {:induction false} TrailingLower(s: string)
    ensures TrailingSpaces(Lower(s)) == TrailingSpaces(s)
    decreases |s|
  {
    if s != [] {
      assert Lower(s)[..|s| - 1] == Lower(s[..|s| - 1]);
      TrailingLower(s[..|s| - 1]);
    }
  }

  lemma LowerAppend(a: string, b: string)
    ensures Lower(a + b) == Lower(a) + Lower(b)
  {
  }

  /** `s.startswith(p)` */
  predicate StartsWith(s: string, p: string) {
    |p| <= |s| && s[..|p|] == p
  }

  /** `p in s` on strings. */
  predicate Contains(s: string, p: string)
    decreases |s|
  {
    StartsWith(s, p) || (s != [] && Contains(s[1..], p))
  }

  lemma {:induction false} ContainsAt(s: string, p: string, i: nat)
    requires i + |p| <= |s| && s[i..i + |p|] == p
    ensures Contains(s, p)
  {
    if i > 0 {
      assert s[1..][i - 1..i - 1 + |p|] == s[i..i + |p|];
      ContainsAt(s[1..], p, i - 1);
    }
  }

  lemma {:induction false} ContainsWitness(s: string, p: string) returns (i: nat)
    requires Contains(s, p)
    ensures i + |p| <= |s| && s[i..i + |p|] == p
    decreases |s|
  {
    if StartsWith(s, p) {
      i := 0;
    } else {
      var j := ContainsWitness(s[1..], p);
      i := j + 1;
      assert s[i..i + |p|] == s[1..][j..j + |p|];
    }
  }

  /** `s.split(sep)`: the pieces between the separators, empty pieces included. */
  function Split(s: string, sep: char): (r: seq<string>)
    ensures |r| >= 1
    ensures forall k :: 0 <= k < |r| ==> sep !in r[k]
    decreases |s|
  {
    if s == [] then [""]
    else if s[0] == sep then [""] + Split(s[1..], sep)
    else
      var rest := Split(s[1..], sep);
      [[s[0]] + rest[0]] + rest[1..]
  }

  /** `sep.join(parts)` */
  function Join(parts: seq<string>, sep: string): string {
    if parts == [] then ""
    else if |parts| == 1 then parts[0]
    else parts[0] + sep + Join(parts[1..], sep)
  }

  /** Splitting a joined list gives the list back when no piece holds the separator. */
  lemma {:induction false} SplitJoin(parts: seq<string>, sep: char)
    requires parts != []
    requires forall k :: 0 <= k < |parts| ==> sep !in parts[k]
    ensures Split(Join(parts, [sep]), sep) == parts
    decreases |parts|
  {
    if |parts| == 1 {
      SplitNoSep(parts[0], sep);
    } else {
      var rest := parts[1..];
      assert forall k :: 0 <= k < |rest| ==> rest[k] == parts[k + 1];
      SplitJoin(rest, sep);
      SplitPiece(parts[0], Join(rest, [sep]), sep);
      assert parts == [parts[0]] + rest;
    }
  }

  /** A piece without the separator, then the separator, splits off as the
      first piece. */
  lemma {:induction false} SplitPiece(p: string, rest: string, sep: char)
    requires sep !in p
    ensures Split(p + [sep] + rest, sep) == [p] + Split(rest, sep)
    decreases |p|
  {
    var s := p + [sep] + rest;
    if p == [] {
      assert s == [sep] + rest;
      assert s[1..] == rest;
    } else {
      assert s[0] == p[0];
      assert p[0] in p;
      assert s[1..] == p[1..] + [sep] + rest;
      assert forall x :: x in p[1..] ==> x in p;
      SplitPiece(p[1..], rest, sep);
      assert [p[0]] + p[1..] == p;
    }
  }

  lemma {:induction false} SplitNoSep(s: string, sep: char)
    requires sep !in s
    ensures Split(s, sep) == [s]
    decreases |s|
  {
    if s != [] {
      assert s[0] in s;
      assert forall x :: x in s[1..] ==> x in s;
      SplitNoSep(s[1..], sep);
      assert [s[0]] + s[1..] == s;
    }
  }

  predicate IsDigit(c: char) {
    '0' <= c <= '9'
  }

  function DigitChar(d: int): (c: char)
    requires 0 <= d < 10
    ensures IsDigit(c)
  {
    ('0' as int + d) as char
  }

  /** `str(n)` for a natural number: its decimal digits, no leading zero. */
  function NatToString(n: nat): (r: string)
    ensures r != [] && forall i :: 0 <= i < |r| ==> IsDigit(r[i])
    decreases n
  {
    if n < 10 then [DigitChar(n)] else NatToString(n / 10) + [DigitChar(n % 10)]
  }

  /** `str(n)` for any integer. */
  function IntToString(n: int): (r: string)
    ensures r != [] && !IsSpace(r[0]) && !IsSpace(r[|r| - 1])
    ensures forall i :: 0 <= i < |r| ==> IsDigit(r[i]) || r[i] == '-'
  {
    if n < 0 then "-" + NatToString(-n) else NatToString(n)
  }

  function DigitValue(c: char): (d: nat)
    requires IsDigit(c)
    ensures d < 10
  {
    c as int - '0' as int
  }

  /** The value of a run of decimal digits. */
  function DigitsValue(s: string): nat
    requires forall i :: 0 <= i < |s| ==> IsDigit(s[i])
    decreases |s|
  {
    if s == [] then 0 else DigitsValue(s[..|s| - 1]) * 10 + DigitValue(s[|s| - 1])
  }

  predicate AllDigits(s: string) {
    s != [] && forall i :: 0 <= i < |s| ==> IsDigit(s[i])
  }

  /** Python's `int(text)`: surrounding whitespace, an optional sign, then one or
      more ASCII digits; anything else raises, which is `None` here. */
  function ParseInt(text: string): (r: Option<int>)
  {
    ParseSigned(Strip(text))
  }

  function ParseSigned(t: string): Option<int> {
    if t == [] then None
    else if t[0] == '-' then (if AllDigits(t[1..]) then Some(0 - DigitsValue(t[1..]) as int) else None)
    else if t[0] == '+' then (if AllDigits(t[1..]) then Some(DigitsValue(t[1..])) else None)
    else if AllDigits(t) then Some(DigitsValue(t))
    else None
  }

  lemma {:induction false} NatToStringValue(n: nat)
    ensures DigitsValue(NatToString(n)) == n
    decreases n
  {
    if n >= 10 {
      var s := NatToString(n);
      assert s[..|s| - 1] == NatToString(n / 10);
      NatToStringValue(n / 10);
    }
  }

  /** `int(str(n)) == n`. */
  lemma {:induction false} ParseIntToString(n: int)
    ensures ParseInt(IntToString(n)) == Some(n)
  {
    var s := IntToString(n);
    ParseIntOfStripped(s);
    if n < 0 {
      ParseNegativeString(n);
    } else {
      ParseNonNegativeString(n);
    }
  }
  /** `int` of a string that has no surrounding whitespace skips the strip. */
  lemma ParseIntOfStripped(s: string)
    requires s != [] && !IsSpace(s[0]) && !IsSpace(s[|s|-1])
    ensures ParseInt(s) == ParseSigned(s)
  {
    StripUnchanged(s);
  }

  lemma ParseNegativeString(n: int)
    requires n < 0
    ensures ParseSigned(IntToString(n)) == Some(n)
  {
      var s := IntToString(n);
      var digits := NatToString(-n);
      assert s == "-" + digits;
      assert s[0] == '-' && s[1..] == digits;
      NatToStringValue(-n);
      assert AllDigits(digits);
  }
  lemma ParseNonNegativeString(n: int)
    requires n >= 0
    ensures ParseSigned(IntToString(n)) == Some(n)
  {
      var s := IntToString(n);
      var digits := NatToString(n);
      assert s == digits;
      NatToStringValue(n);
      assert s[0] != '-' && s[0] != '+';
      assert AllDigits(digits);
  }

  function Pow2(n: nat): (r: nat)
    ensures r >= 1
  {
    if n == 0 then 1 else 2 * Pow2(n - 1)
  }

  lemma {:induction false} Pow2Monotone(a: nat, b: nat)
    requires a <= b
    ensures Pow2(a) <= Pow2(b)
    decreases b
  {
    if a < b {
      Pow2Monotone(a, b - 1);
    }
  }

  function Min(a: int, b: int): int {
    if a <= b then a else b
  }
}
