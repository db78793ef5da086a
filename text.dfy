/** String helpers the pages rely on: JavaScript's `trim`, decimal rendering of
    integers (`toString`), `padStart` and global single-character replacement. */
module Text {
  import opened Storefront

  /** ECMAScript WhiteSpace and LineTerminator code points, the set `String.prototype.trim`
      removes (section 12.2 and 12.3 of ECMA-262; USP is the Unicode Zs category). */
  predicate IsSpace(c: char) {
    || c == '\t' || c == '\n' || c == '\U{000B}' || c == '\U{000C}' || c == '\r'
    || c == ' ' || c == '\U{00A0}' || c == '\U{1680}'
    || ('\U{2000}' <= c <= '\U{200A}')
    || c == '\U{2028}' || c == '\U{2029}' || c == '\U{202F}' || c == '\U{205F}'
    || c == '\U{3000}' || c == '\U{FEFF}'
  }

  predicate AllSpace(s: string) {
    forall i :: 0 <= i < |s| ==> IsSpace(s[i])
  }

  /** Drops leading white space. */
  function TrimStart(s: string): string {
    if s != [] && IsSpace(s[0]) then TrimStart(s[1..]) else s
  }

  /** Drops trailing white space. */
  function TrimEnd(s: string): string {
    if s != [] && IsSpace(s[|s| - 1]) then TrimEnd(s[..|s| - 1]) else s
  }

  /** `s.trim()`. */
  function Trim(s: string): string {
    TrimEnd(TrimStart(s))
  }

  /** `TrimStart` returns a suffix of its argument that does not start with white space,
      and what it dropped is all white space. */
  lemma {:induction false} TrimStartSpec(s: string)
    ensures var r := TrimStart(s);
      && |r| <= |s| && r == s[|s| - |r|..]
      && AllSpace(s[..|s| - |r|])
      && (r == [] || !IsSpace(r[0]))
  {
    if s != [] && IsSpace(s[0]) {
      TrimStartSpec(s[1..]);
      var r := TrimStart(s);
      assert s[..|s| - |r|] == [s[0]] + s[1..][..|s| - 1 - |r|];
    }
  }

  /** `TrimEnd` returns a prefix of its argument that does not end with white space,
      and what it dropped is all white space. */
  lemma {:induction false} TrimEndSpec(s: string)
    ensures var r := TrimEnd(s);
      && |r| <= |s| && r == s[..|r|]
      && AllSpace(s[|r|..])
      && (r == [] || !IsSpace(r[|r| - 1]))
  {
    if s != [] && IsSpace(s[|s| - 1]) {
      TrimEndSpec(s[..|s| - 1]);
      var r := TrimEnd(s);
      assert s[|r|..] == s[..|s| - 1][|r|..] + [s[|s| - 1]];
    }
  }

  /** A string trims to the empty string exactly when it consists of white space only. */
  lemma TrimEmptyIff(s: string)
    ensures Trim(s) == "" <==> AllSpace(s)
  {
    var t := TrimStart(s);
    TrimStartSpec(s);
    TrimEndSpec(t);
    if Trim(s) == "" {
      assert AllSpace(t[0..]);
      assert t == [];
      assert s[..|s|] == s;
    } else {
      assert s[|s| - |t|] == t[0];
    }
  }

  /** What survives trimming is a non-empty string whenever it is non-empty, so a
      string that trims to something non-empty is itself non-empty. */
  lemma TrimNonEmpty(s: string)
    requires Trim(s) != ""
    ensures s != ""
  {
    TrimEmptyIff(s);
  }

  /** Trimming twice is trimming once. */
  lemma TrimIdempotent(s: string)
    ensures Trim(Trim(s)) == Trim(s)
  {
    var x := TrimStart(s);
    var t := Trim(s);
    TrimStartSpec(s);
    TrimEndSpec(x);
    TrimStartSpec(t);
    TrimEndSpec(t);
    if t != [] {
      assert t[0] == x[0];
    }
  }

  /** `Trim` keeps a contiguous piece of its argument. */
  lemma TrimIsSlice(s: string) returns (start: nat)
    ensures start + |Trim(s)| <= |s| && Trim(s) == s[start..start + |Trim(s)|]
  {
    var x := TrimStart(s);
    TrimStartSpec(s);
    TrimEndSpec(x);
    start := |s| - |x|;
  }

  // ---------------------------------------------------------------------------
  // Letter case

  predicate IsUpper(c: char) { 'A' <= c <= 'Z' }

  /** `toLowerCase` on one character, for the ASCII letters. */
  function LowerChar(c: char): (r: char)
    ensures !IsUpper(r)
    ensures IsUpper(c) ==> r as int == c as int + 32
    ensures !IsUpper(c) ==> r == c
  {
    if IsUpper(c) then (c as int + 32) as char else c
  }

  /** `s.toLowerCase()`, character by character. */
  function Lower(s: string): (r: string)
    ensures |r| == |s| && forall i :: 0 <= i < |s| ==> r[i] == LowerChar(s[i])
  {
    seq(|s|, i requires 0 <= i < |s| => LowerChar(s[i]))
  }

  /** Text without capitals is its own lower case. */
  lemma LowerOfLower(s: string)
    requires forall i :: 0 <= i < |s| ==> !IsUpper(s[i])
    ensures Lower(s) == s
  {
  }

  // ---------------------------------------------------------------------------
  // Decimal digits

  predicate IsDigit(c: char) { '0' <= c <= '9' }

  predicate AllDigits(s: string) {
    forall i :: 0 <= i < |s| ==> IsDigit(s[i])
  }

  function DigitChar(d: nat): (c: char)
    requires d < 10
    ensures IsDigit(c)
  {
    (d + '0' as int) as char
  }

  function DigitValue(c: char): (d: nat)
    requires IsDigit(c)
    ensures d < 10
  {
    c as int - '0' as int
  }

  /** The decimal numeral of `n`, the text `n.toString()` produces for a whole number:
      at least one digit and no leading zero. */
  function NatToString(n: nat): (r: string)
    ensures |r| >= 1 && AllDigits(r)
    ensures |r| > 1 ==> r[0] != '0'
  {
    if n < 10 then [DigitChar(n)] else NatToString(n / 10) + [DigitChar(n % 10)]
  }

  /** The value of a string of decimal digits (leading zeros allowed). */
  function ParseDigits(s: string): nat
    requires AllDigits(s)
  {
    if s == [] then 0 else ParseDigits(s[..|s| - 1]) * 10 + DigitValue(s[|s| - 1])
  }

  /** Reading back a rendered numeral gives the number: `NatToString` and `ParseDigits`
      are inverse. */
  lemma {:induction false} ParseNatToString(n: nat)
    ensures ParseDigits(NatToString(n)) == n
  {
    var r := NatToString(n);
    if n >= 10 {
      ParseNatToString(n / 10);
      assert r[..|r| - 1] == NatToString(n / 10);
    }
  }

  /** Rendering is injective: two numbers print the same only if they are equal. */
  lemma NatToStringInjective(m: nat, n: nat)
    requires NatToString(m) == NatToString(n)
    ensures m == n
  {
    ParseNatToString(m);
    ParseNatToString(n);
  }

  /** Leading zeros do not change the value of a digit string. */
  lemma {:induction false} ParseDigitsLeadingZero(s: string)
    requires AllDigits(s)
    ensures ParseDigits("0" + s) == ParseDigits(s)
  {
    if s != [] {
      assert ("0" + s)[..|"0" + s| - 1] == "0" + s[..|s| - 1];
      ParseDigitsLeadingZero(s[..|s| - 1]);
    }
  }

  /** `String(i)` for a whole number `i`: a minus sign before the numeral of `|i|`. */
  function IntToString(i: int): (r: string)
    ensures |r| >= 1
    ensures i >= 0 ==> r == NatToString(i)
    ensures i < 0 ==> r == "-" + NatToString(-i)
  {
    if i < 0 then "-" + NatToString(-i) else NatToString(i)
  }

  /** The text of a whole number is digits, with a minus sign only in front. */
  lemma IntToStringChars(i: int)
    ensures forall k :: 0 <= k < |IntToString(i)| ==> IsDigit(IntToString(i)[k]) || IntToString(i)[k] == '-'
    ensures forall k :: 0 < k < |IntToString(i)| ==> IsDigit(IntToString(i)[k])
  {
    var r := IntToString(i);
    if i < 0 {
      assert forall k :: 1 <= k < |r| ==> r[k] == NatToString(-i)[k - 1];
    }
  }

  /** So it contains no character other than a digit or `-`. */
  lemma IntToStringAvoids(i: int, c: char)
    requires !IsDigit(c) && c != '-'
    ensures Avoids(IntToString(i), c)
  {
    IntToStringChars(i);
  }

  // ---------------------------------------------------------------------------
  // padStart and replace

  function Repeat(c: char, n: nat): (r: string)
    ensures |r| == n && forall i :: 0 <= i < n ==> r[i] == c
  {
    if n == 0 then [] else [c] + Repeat(c, n - 1)
  }

  /** `s.padStart(width, fill)` with a one-character fill: the result ends with `s`,
      is at least `width` long, and everything before `s` is the fill character. */
  function PadStart(s: string, width: nat, fill: char): (r: string)
    ensures |r| == if |s| < width then width else |s|
    ensures r[|r| - |s|..] == s
    ensures forall i :: 0 <= i < |r| - |s| ==> r[i] == fill
  {
    if |s| < width then Repeat(fill, width - |s|) + s else s
  }

  /** `s.replace(/x/g, y)` for single characters: every `x` becomes `y`, all other
      characters stay in place. */
  function ReplaceAll(s: string, x: char, y: char): (r: string)
    ensures |r| == |s|
    ensures forall i :: 0 <= i < |s| ==> r[i] == (if s[i] == x then y else s[i])
  {
    if s == [] then [] else [if s[0] == x then y else s[0]] + ReplaceAll(s[1..], x, y)
  }

  /** Replacing `x` by `y` and then `y` by `x` restores any string that had no `y`. */
  lemma ReplaceAllRoundTrip(s: string, x: char, y: char)
    requires forall i :: 0 <= i < |s| ==> s[i] != y
    ensures ReplaceAll(ReplaceAll(s, x, y), y, x) == s
  {
  }

  // ---------------------------------------------------------------------------
  // Search parameters

  /** The position of the first `c` in `s`, if any. */
  function IndexOf(s: string, c: char): (r: Option<nat>)
    ensures r.None? ==> forall i :: 0 <= i < |s| ==> s[i] != c
    ensures r.Some? ==> r.value < |s| && s[r.value] == c && forall i :: 0 <= i < r.value ==> s[i] != c
  {
    if s == [] then None
    else if s[0] == c then Some(0)
    else match IndexOf(s[1..], c)
      case None => None
      case Some(i) => Some(i + 1)
  }

  /** `s.split(c)`: the pieces between the occurrences of `c`, in order. */
  function Split(s: string, c: char): seq<string>
    decreases |s|
  {
    match IndexOf(s, c)
    case None => [s]
    case Some(i) => [s[..i]] + Split(s[i + 1..], c)
  }

  /** No character of `s` is `c`. */
  predicate Avoids(s: string, c: char) {
    forall i :: 0 <= i < |s| ==> s[i] != c
  }

  /** A query value that `URLSearchParams` reads back as it was written: no `&` to end
      it, no `%` escape or `+` to decode, and no `#` to start a fragment. */
  predicate PlainQueryValue(s: string) {
    Avoids(s, '&') && Avoids(s, '%') && Avoids(s, '+') && Avoids(s, '#')
  }

  /** The text of an integer is a plain query value. */
  lemma IntToStringIsPlain(i: int)
    ensures PlainQueryValue(IntToString(i))
  {
    IntToStringAvoids(i, '&');
    IntToStringAvoids(i, '%');
    IntToStringAvoids(i, '+');
    IntToStringAvoids(i, '#');
  }

  /** The first `c` in `a + [c] + b` is the one after `a` when `a` has none. */
  lemma IndexOfAfter(a: string, b: string, c: char)
    requires Avoids(a, c)
    ensures IndexOf(a + [c] + b, c) == Some(|a|)
  {
    var s := a + [c] + b;
    assert s[|a|] == c;
    assert forall i :: 0 <= i < |a| ==> s[i] == a[i];
  }

  /** Splitting at a separator that `a` does not contain peels off `a`. */
  lemma SplitAfter(a: string, b: string, c: char)
    requires Avoids(a, c)
    ensures Split(a + [c] + b, c) == [a] + Split(b, c)
  {
    IndexOfAfter(a, b, c);
    var s := a + [c] + b;
    assert s[..|a|] == a && s[|a| + 1..] == b;
  }

  /** A string without the separator splits into itself. */
  lemma SplitNone(s: string, c: char)
    requires Avoids(s, c)
    ensures Split(s, c) == [s]
  {
  }

  /** The name and value of one `name=value` piece of a query: the value is everything
      after the first `=`, and "" when there is none. */
  function NameOf(piece: string): string {
    match IndexOf(piece, '=')
    case None => piece
    case Some(i) => piece[..i]
  }

  function ValueOf(piece: string): string {
    match IndexOf(piece, '=')
    case None => ""
    case Some(i) => piece[i + 1..]
  }

  /** Reading `name=value` gives back the name and the value when the name has no `=`. */
  lemma NameValueOf(name: string, value: string)
    requires Avoids(name, '=')
    ensures NameOf(name + "=" + value) == name && ValueOf(name + "=" + value) == value
  {
    IndexOfAfter(name, value, '=');
    var s := name + "=" + value;
    assert s == name + ['='] + value;
    assert s[..|name|] == name && s[|name| + 1..] == value;
  }

  /** The value of the first piece named `key`, if any. */
  function Lookup(pieces: seq<string>, key: string): Option<string> {
    if pieces == [] then None
    else if NameOf(pieces[0]) == key then Some(ValueOf(pieces[0]))
    else Lookup(pieces[1..], key)
  }

  /** The query of a URL: what follows the first `?`, or "" when there is none. */
  function QueryOf(url: string): string {
    match IndexOf(url, '?')
    case None => ""
    case Some(i) => url[i + 1..]
  }

  /** `new URLSearchParams(query of url).get(key)` for queries without percent escapes,
      `+` or a fragment. */
  function GetParam(url: string, key: string): Option<string> {
    Lookup(Split(QueryOf(url), '&'), key)
  }

  /** A `key=value` piece avoids any character other than `=` that its key and value avoid. */
  lemma PieceAvoids(key: string, value: string, c: char)
    requires Avoids(key, c) && Avoids(value, c) && c != '='
    ensures Avoids(key + "=" + value, c)
  {
    var piece := key + "=" + value;
    forall i | 0 <= i < |piece| ensures piece[i] != c {
      if i < |key| {
        assert piece[i] == key[i];
      } else if i > |key| {
        assert piece[i] == value[i - |key| - 1];
      }
    }
  }

  /** A URL whose query is a single `key=value` piece yields `value` for `key`. */
  lemma GetSingleParam(path: string, key: string, value: string)
    requires Avoids(path, '?') && Avoids(key, '=') && Avoids(key, '&') && Avoids(value, '&')
    ensures GetParam(path + "?" + key + "=" + value, key) == Some(value)
  {
    var piece := key + "=" + value;
    var url := path + "?" + key + "=" + value;
    assert url == path + ['?'] + piece;
    IndexOfAfter(path, piece, '?');
    assert QueryOf(url) == piece;
    PieceAvoids(key, value, '&');
    SplitNone(piece, '&');
    NameValueOf(key, value);
  }

  /** A URL whose query is `k1=v1&k2=v2`, with two different keys, yields each value
      for its key. */
  lemma GetPairParams(path: string, k1: string, v1: string, k2: string, v2: string)
    requires Avoids(path, '?') && k1 != k2
    requires Avoids(k1, '=') && Avoids(k1, '&') && Avoids(v1, '&')
    requires Avoids(k2, '=') && Avoids(k2, '&') && Avoids(v2, '&')
    ensures GetParam(path + "?" + k1 + "=" + v1 + "&" + k2 + "=" + v2, k1) == Some(v1)
    ensures GetParam(path + "?" + k1 + "=" + v1 + "&" + k2 + "=" + v2, k2) == Some(v2)
  {
    var first, second := k1 + "=" + v1, k2 + "=" + v2;
    var query := first + ['&'] + second;
    var url := path + "?" + k1 + "=" + v1 + "&" + k2 + "=" + v2;
    assert url == path + ['?'] + query;
    IndexOfAfter(path, query, '?');
    assert QueryOf(url) == query;
    PieceAvoids(k1, v1, '&');
    PieceAvoids(k2, v2, '&');
    SplitAfter(first, second, '&');
    SplitNone(second, '&');
    assert Split(query, '&') == [first, second];
    assert GetParam(url, k1) == Lookup([first, second], k1);
    assert GetParam(url, k2) == Lookup([first, second], k2);
    LookupPair(k1, v1, k2, v2);
  }

  /** Looking up either key of the two pieces `k1=v1`, `k2=v2` finds its value. */
  lemma LookupPair(k1: string, v1: string, k2: string, v2: string)
    requires k1 != k2 && Avoids(k1, '=') && Avoids(k2, '=')
    ensures Lookup([k1 + "=" + v1, k2 + "=" + v2], k1) == Some(v1)
    ensures Lookup([k1 + "=" + v1, k2 + "=" + v2], k2) == Some(v2)
  {
    var first, second := k1 + "=" + v1, k2 + "=" + v2;
    NameValueOf(k1, v1);
    NameValueOf(k2, v2);
    assert [first, second][0] == first && [first, second][1..] == [second];
    assert Lookup([second], k2) == Some(v2);
  }
}
