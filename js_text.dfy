/**
 * The JavaScript string and number built-ins the two scripts lean on
 * (`trim`, `split`, `parseInt`, `startsWith`, template-literal printing of
 * integers, and the `Number` conversion behind `t >= s`), written out with
 * the behaviour the scripts rely on; `IndexOf` is the substring search
 * behind the `<img … src="…">` match.
 */
module JsText {
  import opened Wrappers

  /** ECMAScript WhiteSpace and LineTerminator code points: what `trim` and `parseInt` skip. */
  predicate IsSpace(c: char) {
    || c == '\t' || c == '\U{000B}' || c == '\U{000C}' || c == ' ' || c == '\U{00A0}' || c == '\U{FEFF}'
    || c == '\U{1680}' || ('\U{2000}' <= c <= '\U{200A}') || c == '\U{202F}' || c == '\U{205F}' || c == '\U{3000}'
    || c == '\n' || c == '\r' || c == '\U{2028}' || c == '\U{2029}'
  }

  /** A string-valued attribute is truthy when present and non-empty (`null` and `""` are falsy). */
  predicate Truthy(a: Option<string>) {
    a.Some? && a.value != ""
  }

  /** How `${attr}` prints an attribute read with `getAttribute`: a missing one prints "null". */
  function AttrText(a: Option<string>): string {
    if a.Some? then a.value else "null"
  }

  predicate StartsWith(s: string, prefix: string) {
    |prefix| <= |s| && s[..|prefix|] == prefix
  }

  predicate OccursAt(s: string, pat: string, k: nat) {
    k + |pat| <= |s| && s[k..k + |pat|] == pat
  }

  /** `s.indexOf(pat, from)`: the first occurrence of `pat` at or after `from`. */
  function IndexOf(s: string, pat: string, from: nat): (r: Option<nat>)
    ensures r.Some? ==> from <= r.value && OccursAt(s, pat, r.value)
    ensures r.Some? ==> forall k :: from <= k < r.value ==> !OccursAt(s, pat, k)
    ensures r.None? ==> forall k :: from <= k ==> !OccursAt(s, pat, k)
    decreases |s| - from
  {
    if from + |pat| > |s| then None
    else if s[from..from + |pat|] == pat then Some(from)
    else IndexOf(s, pat, from + 1)
  }

  // ---------------------------------------------------------------- trim

  function TrimStart(s: string): (r: string)
    ensures |r| <= |s| && r == s[|s| - |r|..]
    ensures r == [] || !IsSpace(r[0])
    ensures forall i :: 0 <= i < |s| - |r| ==> IsSpace(s[i])
  {
    if s != [] && IsSpace(s[0]) then TrimStart(s[1..]) else s
  }

  function TrimEnd(s: string): (r: string)
    ensures |r| <= |s| && r == s[..|r|]
    ensures r == [] || !IsSpace(r[|r| - 1])
    ensures forall i :: |r| <= i < |s| ==> IsSpace(s[i])
  {
    if s != [] && IsSpace(s[|s| - 1]) then TrimEnd(s[..|s| - 1]) else s
  }

  /** `s.trim()`. */
  function Trim(s: string): string {
    TrimEnd(TrimStart(s))
  }

  // ---------------------------------------------------------------- split

  /** `s.split(sep)` for a one-character separator: never an empty array. */
  function Split(s: string, sep: char): (parts: seq<string>)
    ensures |parts| >= 1
    ensures forall i :: 0 <= i < |parts| ==> sep !in parts[i]
  {
    if s == [] then [[]]
    else
      var rest := Split(s[1..], sep);
      if s[0] == sep then [[]] + rest else [[s[0]] + rest[0]] + rest[1..]
  }

  /** `parts.join(sep)`. */
  function Join(parts: seq<string>, sep: char): string
    requires |parts| >= 1
  {
    if |parts| == 1 then parts[0] else parts[0] + [sep] + Join(parts[1..], sep)
  }

  /** Splitting loses nothing: joining the pieces back gives the original string. */
  lemma {:induction false} JoinSplit(s: string, sep: char)
    ensures Join(Split(s, sep), sep) == s
  {
    if s != [] {
      var rest := Split(s[1..], sep);
      JoinSplit(s[1..], sep);
      if s[0] == sep {
        assert ([[]] + rest)[1..] == rest;
      } else if |rest| > 1 {
        var parts := [[s[0]] + rest[0]] + rest[1..];
        assert parts[1..] == rest[1..];
      }
    }
  }

  /** The first piece of a split is the text before the first separator. */
  lemma {:induction false} SplitHead(s: string, sep: char)
    ensures var h := Split(s, sep)[0];
      && |h| <= |s| && s[..|h|] == h
      && (|h| < |s| ==> s[|h|] == sep)
      && (|h| == |s| <==> sep !in s)
  {
    if s != [] {
      SplitHead(s[1..], sep);
    }
  }

  // ---------------------------------------------------------------- numbers

  /** Value of a character as a hexadecimal digit (the digits of every radix the scripts use). */
  function DigitValue(c: char): (r: Option<nat>)
    ensures r.Some? ==> r.value < 16
  {
    if '0' <= c <= '9' then Some(c as int - '0' as int)
    else if 'a' <= c <= 'f' then Some(c as int - 'a' as int + 10)
    else if 'A' <= c <= 'F' then Some(c as int - 'A' as int + 10)
    else None
  }

  predicate IsRadixDigit(c: char, radix: nat) {
    DigitValue(c).Some? && DigitValue(c).value < radix
  }

  predicate AllRadixDigits(s: string, radix: nat) {
    forall i :: 0 <= i < |s| ==> IsRadixDigit(s[i], radix)
  }

  /** Length of the longest prefix of `s` made of `radix` digits. */
  function DigitRun(s: string, radix: nat): (k: nat)
    ensures k <= |s| && AllRadixDigits(s[..k], radix)
    ensures k < |s| ==> !IsRadixDigit(s[k], radix)
  {
    if s != [] && IsRadixDigit(s[0], radix) then 1 + DigitRun(s[1..], radix) else 0
  }

  /** The number a string of `radix` digits denotes, most significant digit first. */
  function DigitsValue(ds: string, radix: nat): nat
    requires AllRadixDigits(ds, radix)
  {
    if ds == [] then 0
    else DigitsValue(ds[..|ds| - 1], radix) * radix + DigitValue(ds[|ds| - 1]).value
  }

  function DigitChar(d: nat): (c: char)
    requires d < 10
  {
    ('0' as int + d) as char
  }

  /** Decimal digits of a natural number, as `${n}` prints it. */
  function NatToString(n: nat): (r: string)
    ensures |r| >= 1 && AllRadixDigits(r, 10)
  {
    if n < 10 then [DigitChar(n)] else NatToString(n / 10) + [DigitChar(n % 10)]
  }

  /** `${n}` for an integer: a minus sign, then the digits of its magnitude. */
  function IntToString(n: int): string {
    if n < 0 then "-" + NatToString(-n) else NatToString(n)
  }

  /**
   * The unsigned part of `parseInt`: an optional `0x`/`0X` prefix (radix
   * 16, else 10), then the longest run of digits; `None` when there is no
   * digit at all.
   */
  function ParseMagnitude(u: string): Option<nat> {
    var hex := |u| >= 2 && u[0] == '0' && (u[1] == 'x' || u[1] == 'X');
    var radix := if hex then 16 else 10;
    var v := if hex then u[2..] else u;
    var k := DigitRun(v, radix);
    if k == 0 then None else Some(DigitsValue(v[..k], radix))
  }

  /**
   * `parseInt(s)` with no radix: skip leading white space, read an optional
   * sign, then the magnitude; `None` is NaN.
   */
  function ParseInt(s: string): (r: Option<int>) {
    var t := TrimStart(s);
    var negative := t != [] && t[0] == '-';
    var u := if t != [] && (t[0] == '-' || t[0] == '+') then t[1..] else t;
    match ParseMagnitude(u)
    case None => None
    case Some(m) => var v: int := m; Some(if negative then -v else v)
  }

  lemma {:induction false} NatToStringValue(n: nat)
    ensures DigitsValue(NatToString(n), 10) == n
  {
    var r := NatToString(n);
    if n >= 10 {
      NatToStringValue(n / 10);
      assert r[..|r| - 1] == NatToString(n / 10);
    }
  }

  /** `parseInt` reads back exactly the integer that `${n}` printed. */
  lemma ParseIntToString(n: int)
    ensures ParseInt(IntToString(n)) == Some(n)
  {
    var m: nat := if n < 0 then -n else n;
    NatToStringValue(m);
    if n < 0 {
      assert IntToString(n)[1..] == NatToString(m);
      ParseIntNegDigits(IntToString(n));
    } else {
      ParseIntDigits(NatToString(m));
    }
  }

  lemma MagnitudeOfDigits(d: string)
    requires |d| >= 1 && AllRadixDigits(d, 10)
    ensures ParseMagnitude(d) == Some(DigitsValue(d, 10))
  {
    DigitsNotHexPrefix(d);
    AllDigitsRun(d);
  }

  lemma ParseIntDigits(d: string)
    requires |d| >= 1 && AllRadixDigits(d, 10)
    ensures ParseInt(d) == Some(DigitsValue(d, 10))
  {
    DigitsNotHexPrefix(d);
    MagnitudeOfDigits(d);
    TrimStartKeeps(d);
  }

  lemma ParseIntNegDigits(s: string)
    requires |s| >= 2 && s[0] == '-' && AllRadixDigits(s[1..], 10)
    ensures ParseInt(s) == Some(-(DigitsValue(s[1..], 10) as int))
  {
    MagnitudeOfDigits(s[1..]);
    NotSpace(s[0]);
    TrimStartKeeps(s);
  }

  lemma TrimStartKeeps(s: string)
    requires s != [] && !IsSpace(s[0])
    ensures TrimStart(s) == s
  {
  }

  lemma NotSpace(c: char)
    requires c == '-'
    ensures !IsSpace(c)
  {
  }

  lemma DigitsNotHexPrefix(d: string)
    requires |d| >= 1 && AllRadixDigits(d, 10)
    ensures !(|d| >= 2 && d[0] == '0' && (d[1] == 'x' || d[1] == 'X'))
    ensures !IsSpace(d[0]) && d[0] != '-' && d[0] != '+'
  {
    assert IsRadixDigit(d[0], 10);
    if |d| >= 2 { assert IsRadixDigit(d[1], 10); }
  }

  lemma AllDigitsRun(d: string)
    requires AllRadixDigits(d, 10)
    ensures DigitRun(d, 10) == |d| && d[..|d|] == d
  {
    if d != [] {
      assert AllRadixDigits(d[1..], 10);
      AllDigitsRun(d[1..]);
    }
  }

  /** Distinct integers print differently. */
  lemma IntToStringInjective(a: int, b: int)
    requires IntToString(a) == IntToString(b)
    ensures a == b
  {
    ParseIntToString(a);
    ParseIntToString(b);
  }

  /** The value of `Number(x)` as far as the scripts compare it: NaN or an integer. */
  datatype Num = NaN | Finite(v: int)

  /**
   * `Number(s)` for a string: white space around is ignored, the empty
   * string is 0, a signed decimal integer or an unsigned `0x`/`0o`/`0b`
   * literal is its value, anything else is NaN.
   */
  function StringToNumber(s: string): Num {
    var t := Trim(s);
    if t == [] then Finite(0)
    else if |t| >= 2 && t[0] == '0' && t[1] in "xXoObB" then
      var radix := if t[1] in "xX" then 16 else if t[1] in "oO" then 8 else 2;
      var ds := t[2..];
      if ds != [] && AllRadixDigits(ds, radix) then Finite(DigitsValue(ds, radix)) else NaN
    else
      var ds := if t[0] == '-' || t[0] == '+' then t[1..] else t;
      if ds != [] && AllRadixDigits(ds, 10) then
        var magnitude: int := DigitsValue(ds, 10);
        Finite(if t[0] == '-' then -magnitude else magnitude)
      else NaN
  }

  /** `Number(el.getAttribute(name))`: a missing attribute is `Number(null)`, which is 0. */
  function AttrNumber(a: Option<string>): Num {
    if a.None? then Finite(0) else StringToNumber(a.value)
  }
}
