/**
 * The JavaScript string primitives the application relies on: `trim`,
 * `split`, `startsWith`/`endsWith`/`includes`, `parseInt`, `Number` and
 * number-to-string conversion, over `string` = `seq<char>`.
 */
module JsText {
  import opened Wrappers

  /** WhiteSpace and LineTerminator code points (ECMA-262, sections 12.2 and 12.3). */
  predicate IsWhitespace(c: char) {
    c == '\t' || c == '\n' || c == '\U{000B}' || c == '\U{000C}' || c == '\r' || c == ' ' ||
    c == '\U{00A0}' || c == '\U{1680}' || ('\U{2000}' <= c <= '\U{200A}') ||
    c == '\U{2028}' || c == '\U{2029}' || c == '\U{202F}' || c == '\U{205F}' ||
    c == '\U{3000}' || c == '\U{FEFF}'
  }

  /** `String.prototype.trimStart`. */
  function TrimStart(s: string): (r: string)
    ensures r == [] || !IsWhitespace(r[0])
    decreases |s|
  {
    if |s| > 0 && IsWhitespace(s[0]) then TrimStart(s[1..]) else s
  }

  /** `String.prototype.trimEnd`. */
  function TrimEnd(s: string): (r: string)
    ensures r == [] || !IsWhitespace(r[|r| - 1])
    decreases |s|
  {
    if |s| > 0 && IsWhitespace(s[|s| - 1]) then TrimEnd(s[..|s| - 1]) else s
  }

  /** `String.prototype.trim`: strips whitespace at both ends. */
  function Trim(s: string): string
  {
    TrimEnd(TrimStart(s))
  }

  /** The trimmed text neither starts nor ends with whitespace. */
  lemma TrimEnds(s: string)
    ensures var t := Trim(s); t == [] || (!IsWhitespace(t[0]) && !IsWhitespace(t[|t| - 1]))
  {
    TrimEndIsPrefix(TrimStart(s));
  }

  lemma {:induction false} TrimStartIsSuffix(s: string)
    ensures |TrimStart(s)| <= |s| && TrimStart(s) == s[|s| - |TrimStart(s)|..]
    ensures forall i :: 0 <= i < |s| - |TrimStart(s)| ==> IsWhitespace(s[i])
    decreases |s|
  {
    if |s| > 0 && IsWhitespace(s[0]) {
      TrimStartIsSuffix(s[1..]);
    }
  }

  lemma {:induction false} TrimEndIsPrefix(s: string)
    ensures |TrimEnd(s)| <= |s| && TrimEnd(s) == s[..|TrimEnd(s)|]
    ensures forall i :: |TrimEnd(s)| <= i < |s| ==> IsWhitespace(s[i])
    decreases |s|
  {
    if |s| > 0 && IsWhitespace(s[|s| - 1]) {
      TrimEndIsPrefix(s[..|s| - 1]);
    }
  }

  /** Trimming twice is trimming once. */
  lemma TrimIdempotent(s: string)
    ensures Trim(Trim(s)) == Trim(s)
  {
    var t := TrimStart(s);
    var u := TrimEnd(t);
    TrimEndIsPrefix(t);
    assert u == [] || u[0] == t[0];
    TrimStartKeeps(u);
    TrimEndKeeps(u);
  }

  /** `s.startsWith(p)`. */
  predicate StartsWith(s: string, p: string) {
    |p| <= |s| && s[..|p|] == p
  }

  /** `s.endsWith(p)`. */
  predicate EndsWith(s: string, p: string) {
    |p| <= |s| && s[|s| - |p|..] == p
  }

  /** `s.includes(t)`: `t` occurs in `s` as a contiguous substring. */
  predicate Includes(s: string, t: string) {
    exists i | 0 <= i <= |s| - |t| :: OccursAt(s, t, i)
  }

  predicate OccursAt(s: string, t: string, i: int)
    requires 0 <= i <= |s| - |t|
  {
    s[i..i + |t|] == t
  }

  /** `s.split(sep)` for a one-character separator: never empty; "" gives [""]. */
  function Split(s: string, sep: char): (parts: seq<string>)
    ensures |parts| >= 1
    decreases |s|
  {
    if |s| == 0 then [""]
    else
      var rest := Split(s[1..], sep);
      if s[0] == sep then [""] + rest else [[s[0]] + rest[0]] + rest[1..]
  }

  /** `parts.join(sep)`. */
  function Join(parts: seq<string>, sep: char): string
    requires |parts| >= 1
    decreases |parts|
  {
    if |parts| == 1 then parts[0] else parts[0] + [sep] + Join(parts[1..], sep)
  }

  /** Splitting and joining again gives back the original text. */
  lemma {:induction false} SplitJoin(s: string, sep: char)
    ensures Join(Split(s, sep), sep) == s
    decreases |s|
  {
    if |s| > 0 {
      var rest := Split(s[1..], sep);
      SplitJoin(s[1..], sep);
      if s[0] == sep {
        assert Join(Split(s, sep), sep) == "" + [sep] + Join(rest, sep);
        assert s == [s[0]] + s[1..];
      } else if |rest| == 1 {
        assert s == [s[0]] + s[1..];
      } else {
        assert rest == [rest[0]] + rest[1..];
        assert Join(rest, sep) == rest[0] + [sep] + Join(rest[1..], sep);
        assert s == [s[0]] + s[1..];
      }
    }
  }

  /** No part of a split contains the separator. */
  lemma {:induction false} SplitPartsExcludeSeparator(s: string, sep: char)
    ensures forall p :: p in Split(s, sep) ==> sep !in p
    decreases |s|
  {
    if |s| > 0 {
      SplitPartsExcludeSeparator(s[1..], sep);
    }
  }

  /** A text without the separator splits into itself alone. */
  lemma {:induction false} SplitWithoutSeparator(s: string, sep: char)
    requires sep !in s
    ensures Split(s, sep) == [s]
    decreases |s|
  {
    if |s| > 0 {
      SplitWithoutSeparator(s[1..], sep);
      assert s == [s[0]] + s[1..];
    }
  }

  /** The first separator ends the first part. */
  lemma {:induction false} SplitAtFirst(x: string, sep: char, y: string)
    requires sep !in x
    ensures Split(x + [sep] + y, sep) == [x] + Split(y, sep)
    decreases |x|
  {
    if |x| == 0 {
      assert x + [sep] + y == [sep] + y;
      assert ([sep] + y)[1..] == y;
    } else {
      SplitAtFirst(x[1..], sep, y);
      assert (x + [sep] + y)[1..] == x[1..] + [sep] + y;
      assert x == [x[0]] + x[1..];
    }
  }

  /** A text containing the separator splits into at least two parts. */
  lemma {:induction false} SplitWithSeparator(s: string, sep: char)
    requires sep in s
    ensures |Split(s, sep)| >= 2
    decreases |s|
  {
    if s[0] != sep {
      SplitWithSeparator(s[1..], sep);
    }
  }

  // ----- digits and numbers -----

  /** The value of a digit character in radix 36; 36 when it is no digit at all. */
  function DigitValue(c: char): (d: nat)
    ensures d <= 36
    ensures d < 10 <==> '0' <= c <= '9'
  {
    if '0' <= c <= '9' then c as int - '0' as int
    else if 'a' <= c <= 'z' then c as int - 'a' as int + 10
    else if 'A' <= c <= 'Z' then c as int - 'A' as int + 10
    else 36
  }

  /** The length of the longest prefix of `s` made of digits of `radix`. */
  function DigitPrefixLength(s: string, radix: nat): (n: nat)
    ensures n <= |s|
    ensures forall i :: 0 <= i < n ==> DigitValue(s[i]) < radix
    ensures n == |s| || DigitValue(s[n]) >= radix
    decreases |s|
  {
    if |s| > 0 && DigitValue(s[0]) < radix then 1 + DigitPrefixLength(s[1..], radix) else 0
  }

  /** `parseInt` and `Number` read integers in radix 10 or, after `0x`, radix 16. */
  type Radix = r: nat | r == 10 || r == 16 witness 10

  /** The value of a digit string, most significant digit first. */
  function DigitsValue(ds: string, radix: Radix): nat
    decreases |ds|
  {
    if |ds| == 0 then 0
    else
      var high := DigitsValue(ds[..|ds| - 1], radix);
      var low := DigitValue(ds[|ds| - 1]) % 36;
      if radix == 16 then high * 16 + low else high * 10 + low
  }

  /** The longest run of `radix` digits at the start of `v`, read as a number; `None` when
      there is none. */
  function DigitRun(v: string, radix: Radix): Option<nat> {
    var n := DigitPrefixLength(v, radix);
    if n == 0 then None else Some(DigitsValue(v[..n], radix))
  }

  /** `0x` or `0X` at the start selects radix 16. */
  predicate HexPrefixed(u: string) {
    |u| >= 2 && u[0] == '0' && (u[1] == 'x' || u[1] == 'X')
  }

  function Negate(r: Option<nat>): Option<int> {
    match r
    case None => None
    case Some(m) => Some(-(m as int))
  }

  function Widen(r: Option<nat>): Option<int> {
    match r
    case None => None
    case Some(m) => Some(m)
  }

  /** `parseInt` after the leading whitespace: an optional sign, an optional hexadecimal
      prefix, then the digit run. */
  function ParseSigned(t: string): Option<int> {
    var u := if |t| > 0 && (t[0] == '-' || t[0] == '+') then t[1..] else t;
    var magnitude := if HexPrefixed(u) then DigitRun(u[2..], 16) else DigitRun(u, 10);
    if |t| > 0 && t[0] == '-' then Negate(magnitude) else Widen(magnitude)
  }

  /** `parseInt(s)` without a radix: leading whitespace, an optional sign, an optional
      `0x`/`0X` prefix selecting radix 16, then the longest run of digits; `None` is `NaN`. */
  function ParseInt(s: string): Option<int> {
    ParseSigned(TrimStart(s))
  }

  /** The decimal digits of a natural number, without leading zeros. */
  function NatToString(n: nat): (s: string)
    ensures |s| >= 1
    ensures forall i :: 0 <= i < |s| ==> '0' <= s[i] <= '9'
    ensures s[0] == '0' ==> n == 0
  {
    if n < 10 then [('0' as int + n) as char]
    else NatToString(n / 10) + [('0' as int + n % 10) as char]
  }

  /** Number-to-string for integers, as a template literal `${n}` prints them for |n| < 1e21. */
  function IntToString(n: int): (t: string)
    ensures |t| >= 1
    ensures t[0] == '-' <==> n < 0
  {
    if n < 0 then "-" + NatToString(-n) else NatToString(n)
  }

  lemma {:induction false} DigitsValueOfNatToString(n: nat)
    ensures DigitsValue(NatToString(n), 10) == n
  {
    var s := NatToString(n);
    if n >= 10 {
      DigitsValueOfNatToString(n / 10);
      assert s[..|s| - 1] == NatToString(n / 10);
    }
  }

  lemma {:induction false} DigitPrefixOfDecimal(s: string, rest: string)
    requires forall i :: 0 <= i < |s| ==> '0' <= s[i] <= '9'
    requires rest == [] || DigitValue(rest[0]) >= 10
    ensures DigitPrefixLength(s + rest, 10) == |s|
    decreases |s|
  {
    if |s| > 0 {
      assert (s + rest)[1..] == s[1..] + rest;
      DigitPrefixOfDecimal(s[1..], rest);
    } else {
      assert s + rest == rest;
    }
  }

  lemma DigitRunOfDecimal(d: string, rest: string)
    requires forall i :: 0 <= i < |d| ==> '0' <= d[i] <= '9'
    requires |d| >= 1
    requires rest == [] || DigitValue(rest[0]) >= 10
    ensures DigitRun(d + rest, 10) == Some(DigitsValue(d, 10))
  {
    DigitPrefixOfDecimal(d, rest);
    assert (d + rest)[..|d|] == d;
  }

  lemma TrimStartKeeps(s: string)
    requires s == [] || !IsWhitespace(s[0])
    ensures TrimStart(s) == s
  {
  }

  lemma TrimEndKeeps(s: string)
    requires s == [] || !IsWhitespace(s[|s| - 1])
    ensures TrimEnd(s) == s
  {
  }

  lemma ParseSignedUnsigned(u: string, m: nat)
    requires |u| > 0 && '0' <= u[0] <= '9' && !HexPrefixed(u)
    requires DigitRun(u, 10) == Some(m)
    ensures ParseSigned(u) == Some(m)
  {
  }

  lemma ParseSignedNegative(u: string, m: nat)
    requires !HexPrefixed(u)
    requires DigitRun(u, 10) == Some(m)
    ensures ParseSigned("-" + u) == Some(-(m as int))
  {
    assert ("-" + u)[1..] == u;
  }

  lemma ParseIntUnsigned(u: string, m: nat)
    requires |u| > 0 && '0' <= u[0] <= '9' && !HexPrefixed(u)
    requires DigitRun(u, 10) == Some(m)
    ensures ParseInt(u) == Some(m)
  {
    TrimStartKeeps(u);
    ParseSignedUnsigned(u, m);
  }

  lemma ParseIntNegative(u: string, m: nat)
    requires !HexPrefixed(u)
    requires DigitRun(u, 10) == Some(m)
    ensures ParseInt("-" + u) == Some(-(m as int))
  {
    TrimStartKeeps("-" + u);
    ParseSignedNegative(u, m);
  }

  /** The digits of `n` followed by `rest` form no hexadecimal prefix and read as `n`. */
  lemma DecimalRun(m: nat, rest: string)
    requires rest == [] || DigitValue(rest[0]) >= 10
    requires rest != [] && m == 0 ==> rest[0] != 'x' && rest[0] != 'X'
    ensures !HexPrefixed(NatToString(m) + rest)
    ensures DigitRun(NatToString(m) + rest, 10) == Some(m)
  {
    var d := NatToString(m);
    var u := d + rest;
    DigitRunOfDecimal(d, rest);
    DigitsValueOfNatToString(m);
  }

  lemma ParseIntOfNatDigits(m: nat, rest: string)
    requires rest == [] || DigitValue(rest[0]) >= 10
    requires rest != [] && m == 0 ==> rest[0] != 'x' && rest[0] != 'X'
    ensures ParseInt(NatToString(m) + rest) == Some(m)
  {
    var u := NatToString(m) + rest;
    DecimalRun(m, rest);
    assert u[0] == NatToString(m)[0];
    ParseIntUnsigned(u, m);
  }

  lemma ParseIntOfNegativeDigits(m: nat, rest: string)
    requires rest == [] || DigitValue(rest[0]) >= 10
    requires rest != [] && m == 0 ==> rest[0] != 'x' && rest[0] != 'X'
    ensures ParseInt("-" + (NatToString(m) + rest)) == Some(-(m as int))
  {
    DecimalRun(m, rest);
    ParseIntNegative(NatToString(m) + rest, m);
  }

  /** A negative number's text is a minus sign before the digits of its magnitude. */
  lemma NegativeText(n: int, rest: string)
    requires n < 0
    ensures IntToString(n) + rest == "-" + (NatToString(-n) + rest)
  {
  }

  /** `parseInt` reads back the decimal text of an integer, whatever non-digit text follows
      it (other than an `x` right after a lone `0`, which would start a hexadecimal literal). */
  lemma ParseIntOfIntToString(n: int, rest: string)
    requires rest == [] || DigitValue(rest[0]) >= 10
    requires rest != [] && n == 0 ==> rest[0] != 'x' && rest[0] != 'X'
    ensures ParseInt(IntToString(n) + rest) == Some(n)
  {
    if n < 0 {
      ParseIntOfNegative(n, rest);
    } else {
      ParseIntOfNatDigits(n, rest);
    }
  }

  lemma ParseIntOfNegative(n: int, rest: string)
    requires n < 0
    requires rest == [] || DigitValue(rest[0]) >= 10
    ensures ParseInt(IntToString(n) + rest) == Some(n)
  {
    var m: nat := -n;
    NegativeText(n, rest);
    ParseIntOfMinusDigits(IntToString(n) + rest, m, rest);
  }

  lemma ParseIntOfMinusDigits(u: string, m: nat, rest: string)
    requires u == "-" + (NatToString(m) + rest)
    requires rest == [] || DigitValue(rest[0]) >= 10
    requires rest != [] && m == 0 ==> rest[0] != 'x' && rest[0] != 'X'
    ensures ParseInt(u) == Some(-(m as int))
  {
    ParseIntOfNegativeDigits(m, rest);
  }

  /** `parseInt` reads back the decimal text of an integer. */
  lemma ParseIntRoundTrip(n: int)
    ensures ParseInt(IntToString(n)) == Some(n)
  {
    ParseIntOfIntToString(n, []);
    assert IntToString(n) + [] == IntToString(n);
  }

  /** `Number(s)` restricted to integer literals: after trimming, the empty text is 0, and a
      decimal literal with optional sign or a `0x`/`0X` hexadecimal literal gives its value;
      anything else is `NaN` (`None`). */
  function ToNumber(s: string): (r: Option<int>)
    ensures Trim(s) == "" ==> r == Some(0)
    ensures r.Some? && r.value < 0 ==> Trim(s)[0] == '-'
  {
    var t := Trim(s);
    if t == "" then Some(0) else NumberLiteral(t)
  }

  /** A non-blank trimmed text read as a whole by `Number`. */
  function NumberLiteral(t: string): (r: Option<int>)
    requires t != []
    ensures r.Some? && r.value < 0 ==> t[0] == '-'
  {
    if HexPrefixed(t) then WholeRun(t[2..], 16)
    else if t[0] == '-' then Negate(WholeRun(t[1..], 10))
    else if t[0] == '+' then Widen(WholeRun(t[1..], 10))
    else Widen(WholeRun(t, 10))
  }

  /** `v` read as a whole as a number in `radix`: `None` unless it is a non-empty digit run. */
  function WholeRun(v: string, radix: Radix): Option<nat> {
    if |v| > 0 && DigitPrefixLength(v, radix) == |v| then Some(DigitsValue(v, radix)) else None
  }

  /** A digit run stops at the first character that is no digit of the radix. */
  lemma {:induction false} DigitPrefixOfRun(v: string, rest: string, radix: Radix)
    requires forall i :: 0 <= i < |v| ==> DigitValue(v[i]) < radix
    requires rest == [] || DigitValue(rest[0]) >= radix
    ensures DigitPrefixLength(v + rest, radix) == |v|
    decreases |v|
  {
    if |v| > 0 {
      assert (v + rest)[1..] == v[1..] + rest;
      DigitPrefixOfRun(v[1..], rest, radix);
    } else {
      assert v + rest == rest;
    }
  }

  /** Trailing whitespace does not change a whole digit run. */
  lemma WholeRunThenSpace(v: string, w: string, radix: Radix)
    requires WholeRun(v, radix).Some?
    requires w == [] || IsWhitespace(w[0])
    ensures DigitRun(v + w, radix) == WholeRun(v, radix)
  {
    DigitPrefixOfRun(v, w, radix);
    assert (v + w)[..|v|] == v;
  }

  /** Where `Number` reads a non-blank text, `parseInt` reads the same value: `Number`
      accepts a subset of what `parseInt` does. */
  lemma NumberAgreesWithParseInt(s: string)
    requires Trim(s) != "" && ToNumber(s).Some?
    ensures ParseInt(s) == ToNumber(s)
  {
    var u := TrimStart(s);
    var t := TrimEnd(u);
    TrimEndIsPrefix(u);
    var w := u[|t|..];
    assert u == t + w;
    LiteralThenSpace(t, w);
  }

  /** `parseInt` reads a literal `Number` accepts the same way when whitespace follows it. */
  lemma LiteralThenSpace(t: string, w: string)
    requires t != [] && NumberLiteral(t).Some?
    requires w == [] || IsWhitespace(w[0])
    ensures ParseSigned(t + w) == NumberLiteral(t)
  {
    if HexPrefixed(t) {
      var u := t + w;
      assert u[2..] == t[2..] + w;
      WholeRunThenSpace(t[2..], w, 16);
    } else if t[0] == '-' || t[0] == '+' {
      SignedThenSpace(t, w);
    } else {
      DecimalThenSpace(t, w);
    }
  }

  /** A whole decimal run followed by whitespace has no hexadecimal prefix. */
  lemma DecimalNotHex(v: string, w: string)
    requires WholeRun(v, 10).Some?
    requires w == [] || IsWhitespace(w[0])
    ensures !HexPrefixed(v + w)
  {
    if |v| >= 2 {
      assert (v + w)[1] == v[1];
      assert DigitValue(v[1]) < 10;
    } else if |w| > 0 {
      assert (v + w)[1] == w[0];
    }
  }

  lemma SignedThenSpace(t: string, w: string)
    requires t != [] && (t[0] == '-' || t[0] == '+') && WholeRun(t[1..], 10).Some?
    requires w == [] || IsWhitespace(w[0])
    ensures ParseSigned(t + w) == NumberLiteral(t)
  {
    var u := t + w;
    assert u[1..] == t[1..] + w;
    DecimalNotHex(t[1..], w);
    WholeRunThenSpace(t[1..], w, 10);
  }

  lemma DecimalThenSpace(t: string, w: string)
    requires t != [] && t[0] != '-' && t[0] != '+' && !HexPrefixed(t) && WholeRun(t, 10).Some?
    requires w == [] || IsWhitespace(w[0])
    ensures ParseSigned(t + w) == NumberLiteral(t)
  {
    DecimalNotHex(t, w);
    WholeRunThenSpace(t, w, 10);
  }

  /** `Number` reads back the decimal text of a natural number. */
  lemma ToNumberUnsigned(t: string, m: nat)
    requires Trim(t) == t && |t| > 0 && '0' <= t[0] <= '9' && !HexPrefixed(t)
    requires WholeRun(t, 10) == Some(m)
    ensures ToNumber(t) == Some(m)
  {
  }

  lemma ToNumberOfNatToString(n: nat)
    ensures ToNumber(NatToString(n)) == Some(n)
  {
    var d := NatToString(n);
    TrimStartKeeps(d);
    TrimEndKeeps(d);
    DecimalRun(n, []);
    assert d + [] == d;
    ToNumberUnsigned(d, n);
  }
}
