/**
 * The few JavaScript value semantics the form logic depends on: truthiness,
 * `String.prototype.trim`, `Number.prototype.toString` on integers and
 * `parseInt(s, 10)`.
 */
module JsValues {
  import opened Wrappers

  /** A form value: text typed into an input, or a number from a template literal. */
  datatype Value = Str(s: string) | Num(n: int)

  /** Form values by field name; a name that is not a key is `undefined`. */
  type Form = map<string, Value>

  /** JavaScript truthiness: the empty string and the number 0 are falsy. */
  predicate Truthy(v: Value) {
    match v
    case Str(s) => s != ""
    case Num(n) => n != 0
  }

  /** `form[key] || fallback`. */
  function OrDefault(form: Form, key: string, fallback: Value): (r: Value)
    ensures key in form && Truthy(form[key]) ==> r == form[key]
    ensures !(key in form && Truthy(form[key])) ==> r == fallback
  {
    if key in form && Truthy(form[key]) then form[key] else fallback
  }

  /**
   * The result is the stored value or the fallback, it is truthy whenever the
   * fallback is, and writing it back under `key` makes the fallback a no-op.
   */
  lemma OrDefaultSettles(form: Form, key: string, fallback: Value)
    ensures var r := OrDefault(form, key, fallback);
      && (r == fallback || (key in form && r == form[key]))
      && (Truthy(fallback) ==> Truthy(r))
      && OrDefault(form[key := r], key, fallback) == r
  {
  }

  /** `String(v)`. */
  function ToStr(v: Value): string {
    match v
    case Str(s) => s
    case Num(n) => IntToString(n)
  }

  /** The characters `trim` and `parseInt` skip: WhiteSpace and LineTerminator of ECMAScript. */
  predicate IsWhiteSpace(c: char) {
    || c == '\t' || c == '\n' || c == '\U{000B}' || c == '\U{000C}' || c == '\r'
    || c == ' ' || c == '\U{00A0}' || c == '\U{1680}' || ('\U{2000}' <= c <= '\U{200A}')
    || c == '\U{2028}' || c == '\U{2029}' || c == '\U{202F}' || c == '\U{205F}'
    || c == '\U{3000}' || c == '\U{FEFF}'
  }

  /** Removes the longest whitespace prefix. */
  function TrimStart(s: string): (r: string)
    ensures |r| <= |s|
    decreases |s|
  {
    if s != [] && IsWhiteSpace(s[0]) then TrimStart(s[1..]) else s
  }

  /** `TrimStart` keeps a suffix, drops only whitespace, and stops at the first other character. */
  lemma {:induction false} TrimStartSpec(s: string)
    ensures var r := TrimStart(s);
      && r == s[|s| - |r|..]
      && (r != [] ==> !IsWhiteSpace(r[0]))
      && (forall i :: 0 <= i < |s| - |r| ==> IsWhiteSpace(s[i]))
    decreases |s|
  {
    if s != [] && IsWhiteSpace(s[0]) {
      TrimStartSpec(s[1..]);
      var r := TrimStart(s);
      assert r == TrimStart(s[1..]);
      forall i | 1 <= i < |s| - |r| ensures IsWhiteSpace(s[i]) {
        assert s[i] == s[1..][i - 1];
      }
    }
  }

  /** Removes the longest whitespace suffix. */
  function TrimEnd(s: string): (r: string)
    ensures |r| <= |s|
    decreases |s|
  {
    if s != [] && IsWhiteSpace(s[|s| - 1]) then TrimEnd(s[..|s| - 1]) else s
  }

  /** `TrimEnd` keeps a prefix, drops only whitespace, and stops at the last other character. */
  lemma {:induction false} TrimEndSpec(s: string)
    ensures var r := TrimEnd(s);
      && r == s[..|r|]
      && (r != [] ==> !IsWhiteSpace(r[|r| - 1]))
      && (forall i :: |r| <= i < |s| ==> IsWhiteSpace(s[i]))
    decreases |s|
  {
    if s != [] && IsWhiteSpace(s[|s| - 1]) {
      var init := s[..|s| - 1];
      TrimEndSpec(init);
      var r := TrimEnd(s);
      assert r == TrimEnd(init);
      forall i | |r| <= i < |s| - 1 ensures IsWhiteSpace(s[i]) {
        assert s[i] == init[i];
      }
    }
  }

  /** `s.trim()`. */
  function Trim(s: string): string {
    TrimEnd(TrimStart(s))
  }

  /** A string trims to the empty string exactly when every character is whitespace. */
  lemma TrimBlank(s: string)
    ensures Trim(s) == "" <==> forall i :: 0 <= i < |s| ==> IsWhiteSpace(s[i])
  {
    var u := TrimStart(s);
    TrimStartSpec(s);
    TrimEndSpec(u);
  }

  lemma TrimStartUnchanged(s: string)
    requires s != [] && !IsWhiteSpace(s[0])
    ensures TrimStart(s) == s
  {
  }

  predicate IsDigit(c: char) {
    '0' <= c <= '9'
  }

  function DigitChar(d: nat): (c: char)
    requires d < 10
    ensures IsDigit(c) && DigitValue(c) == d
  {
    (48 + d) as char
  }

  function DigitValue(c: char): nat
    requires IsDigit(c)
  {
    (c as int) - 48
  }

  /** The decimal digits of `n`, most significant first, with no leading zero. */
  function NatToString(n: nat): (r: string)
    ensures |r| >= 1
    ensures forall i :: 0 <= i < |r| ==> IsDigit(r[i])
    decreases n
  {
    if n < 10 then [DigitChar(n)] else NatToString(n / 10) + [DigitChar(n % 10)]
  }

  /** `String(n)` for an integer `n`, every digit written out. */
  function IntToString(n: int): string {
    if n < 0 then "-" + NatToString(-n) else NatToString(n)
  }

  /** The longest run of decimal digits at the start of `s`. */
  function DigitPrefix(s: string): (r: string)
    ensures |r| <= |s| && r == s[..|r|]
    ensures forall i :: 0 <= i < |r| ==> IsDigit(r[i])
    ensures |r| < |s| ==> !IsDigit(s[|r|])
    decreases |s|
  {
    if s != [] && IsDigit(s[0]) then [s[0]] + DigitPrefix(s[1..]) else []
  }

  /** The number a run of decimal digits denotes. */
  function DigitsValue(ds: string): nat
    requires forall i :: 0 <= i < |ds| ==> IsDigit(ds[i])
    decreases |ds|
  {
    if ds == [] then 0 else DigitsValue(ds[..|ds| - 1]) * 10 + DigitValue(ds[|ds| - 1])
  }

  /**
   * `parseInt(s, 10)`: skip leading whitespace, read an optional sign and the
   * longest run of decimal digits; `None` stands for NaN (no digit at all).
   */
  function ParseInt(s: string): Option<int> {
    ParseSigned(TrimStart(s))
  }

  function ParseSigned(t: string): Option<int> {
    if |t| > 0 && t[0] == '-' then
      match ParseDigits(t[1..])
      case None => None
      case Some(v) => Some(-v)
    else if |t| > 0 && t[0] == '+' then ParseDigits(t[1..])
    else ParseDigits(t)
  }

  function ParseDigits(body: string): Option<int> {
    var ds := DigitPrefix(body);
    if ds == [] then None else Some(DigitsValue(ds))
  }

  lemma {:induction false} NatToStringValue(n: nat)
    ensures DigitsValue(NatToString(n)) == n
    decreases n
  {
    var r := NatToString(n);
    if n >= 10 {
      NatToStringValue(n / 10);
      assert r[..|r| - 1] == NatToString(n / 10);
    }
  }

  lemma DigitPrefixOfDigits(ds: string, rest: string)
    requires forall i :: 0 <= i < |ds| ==> IsDigit(ds[i])
    requires rest == [] || !IsDigit(rest[0])
    ensures DigitPrefix(ds + rest) == ds
  {
    var r := DigitPrefix(ds + rest);
    assert r == (ds + rest)[..|ds|];
  }

  /** Leading whitespace does not change what `parseInt` reads. */
  lemma ParseIntSkipsWhiteSpace(ws: string, t: string)
    requires forall i :: 0 <= i < |ws| ==> IsWhiteSpace(ws[i])
    requires t != [] && !IsWhiteSpace(t[0])
    ensures ParseInt(ws + t) == ParseInt(t)
  {
    TrimStartPast(ws, t);
  }

  lemma ParseIntMinus(u: string, v: int)
    requires ParseDigits(u) == Some(v)
    ensures ParseInt(['-'] + u) == Some(-v)
  {
    ParseSignedNegative(u, v);
    ParseIntNoLeadingSpace(['-'] + u, -v);
  }

  lemma ParseIntDigits(u: string, v: int)
    requires u != [] && IsDigit(u[0])
    requires ParseDigits(u) == Some(v)
    ensures ParseInt(u) == Some(v)
  {
    ParseIntNoLeadingSpace(u, v);
  }

  lemma ParseIntNoLeadingSpace(t: string, v: int)
    requires t != [] && !IsWhiteSpace(t[0])
    requires ParseSigned(t) == Some(v)
    ensures ParseInt(t) == Some(v)
  {
    TrimStartUnchanged(t);
  }

  lemma ParseSignedNegative(u: string, v: int)
    requires ParseDigits(u) == Some(v)
    ensures ParseSigned(['-'] + u) == Some(-v)
  {
    assert (['-'] + u)[1..] == u;
  }

  lemma NatToStringParses(m: nat, rest: string)
    requires rest == [] || !IsDigit(rest[0])
    ensures ParseDigits(NatToString(m) + rest) == Some(m)
  {
    NatToStringValue(m);
    DigitPrefixOfDigits(NatToString(m), rest);
  }

  /** `String(n)` followed by anything that does not continue the digits parses back to `n`. */
  lemma ParseIntPrefix(n: int, rest: string)
    requires rest == [] || !IsDigit(rest[0])
    ensures ParseInt(IntToString(n) + rest) == Some(n)
  {
    if n < 0 {
      ParseIntPrefixNegative(n, rest);
    } else {
      var u := NatToString(n) + rest;
      NatToStringParses(n, rest);
      ParseIntDigits(u, n);
    }
  }

  lemma ParseIntPrefixNegative(n: int, rest: string)
    requires n < 0
    requires rest == [] || !IsDigit(rest[0])
    ensures ParseInt(IntToString(n) + rest) == Some(n)
  {
    var m: nat := -n;
    var u := NatToString(m) + rest;
    NatToStringParses(m, rest);
    ParseIntMinus(u, m);
    assert IntToString(n) == "-" + NatToString(m);
    SignedConcat(NatToString(m), rest);
    assert IntToString(n) + rest == ['-'] + u;
  }

  lemma SignedConcat(digits: string, rest: string)
    ensures "-" + digits + rest == ['-'] + (digits + rest)
  {
  }

  /**
   * The leading-integer reading: leading whitespace, then `String(n)`, then
   * anything that does not continue the digits, parses back to `n`.
   */
  lemma ParseIntLeading(ws: string, n: int, rest: string)
    requires forall i :: 0 <= i < |ws| ==> IsWhiteSpace(ws[i])
    requires rest == [] || !IsDigit(rest[0])
    ensures ParseInt(ws + IntToString(n) + rest) == Some(n)
  {
    var t := IntToString(n) + rest;
    assert ws + IntToString(n) + rest == ws + t;
    ParseIntSkipsWhiteSpace(ws, t);
    ParseIntPrefix(n, rest);
  }

  lemma {:induction false} TrimStartPast(ws: string, t: string)
    requires forall i :: 0 <= i < |ws| ==> IsWhiteSpace(ws[i])
    requires t != [] && !IsWhiteSpace(t[0])
    ensures TrimStart(ws + t) == t
    decreases |ws|
  {
    if ws != [] {
      var s := ws + t;
      assert s[0] == ws[0];
      assert s[1..] == ws[1..] + t;
      TrimStartPast(ws[1..], t);
    } else {
      assert ws + t == t;
      TrimStartUnchanged(t);
    }
  }

  /** `parseInt(String(n), 10) == n` for every integer `n`. */
  lemma ParseIntToString(n: int)
    ensures ParseInt(IntToString(n)) == Some(n)
  {
    ParseIntPrefix(n, "");
    assert IntToString(n) + "" == IntToString(n);
  }

  /** Distinct integers print differently. */
  lemma IntToStringInjective(m: int, n: int)
    ensures IntToString(m) == IntToString(n) ==> m == n
  {
    ParseIntToString(m);
    ParseIntToString(n);
  }

  /** The text of a number starts with a digit or a minus sign, never with whitespace. */
  lemma IntToStringStart(n: int)
    ensures IntToString(n) != [] && !IsWhiteSpace(IntToString(n)[0])
  {
  }

  /** The text of a number never trims to the empty string. */
  lemma IntToStringNotBlank(n: int)
    ensures Trim(IntToString(n)) != ""
  {
    var s := IntToString(n);
    IntToStringStart(n);
    TrimBlank(s);
  }
}
