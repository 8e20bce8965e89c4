/**
  The handful of JavaScript value conversions the mail-processing script
  depends on: reading `argv` past its end (`undefined`), `Number(...)` on an
  argument string, the number-to-string and `undefined`-to-string conversions
  that `+` performs, and `Array.prototype.join` on a one-character
  separator. The script never splits a string: `Split` is here as the inverse
  of `Join`, to show that the joined recipient header can be read back.
 */
module JsValues {

  datatype Option<+T> = None | Some(value: T)

  /** A value that is either a string or `undefined`. */
  datatype JsString = Undefined | Text(s: string)

  /** The integer results of `Number(...)`, plus NaN. */
  datatype JsNumber = Finite(value: int) | NaN

  /** String conversion done by `+`: `undefined` concatenates as "undefined". */
  function ToText(v: JsString): string
  {
    match v
    case Undefined => "undefined"
    case Text(s) => s
  }

  // ---------------------------------------------------------------------------
  // Decimal digits

  predicate IsDigit(c: char) { '0' <= c <= '9' }

  predicate AllDigits(s: string)
  {
    forall k :: 0 <= k < |s| ==> IsDigit(s[k])
  }

  function DigitValue(c: char): nat
    requires IsDigit(c)
  {
    (c as int) - ('0' as int)
  }

  function DigitChar(d: nat): (c: char)
    requires d < 10
    ensures IsDigit(c) && DigitValue(c) == d
  {
    ('0' as int + d) as char
  }

  /** Value of a string of decimal digits, most significant digit first. */
  function DecimalValue(s: string): nat
    requires AllDigits(s)
  {
    if s == [] then 0 else DecimalValue(s[..|s| - 1]) * 10 + DigitValue(s[|s| - 1])
  }

  /** The decimal digits of `n` without leading zeros, as JavaScript prints an integer. */
  function NatText(n: nat): (s: string)
    ensures |s| > 0 && AllDigits(s)
    ensures |s| > 1 ==> s[0] != '0'
  {
    if n < 10 then [DigitChar(n)] else NatText(n / 10) + [DigitChar(n % 10)]
  }

  function IntText(i: int): string
  {
    if i < 0 then "-" + NatText(-i) else NatText(i)
  }

  /** `String(n)` for the numbers this model can hold. */
  function NumberText(n: JsNumber): string
  {
    match n
    case Finite(v) => IntText(v)
    case NaN => "NaN"
  }

  // ---------------------------------------------------------------------------
  // Number(string)

  /** The white space and line terminators that `Number(...)` trims: TAB, LF, VT,
      FF, CR, the Unicode space separators (category Zs), LS, PS and ZWNBSP. */
  predicate IsJsSpace(c: char)
  {
    var n := c as int;
    (9 <= n <= 13) || n == 0x20 || n == 0xA0 || n == 0x1680 || (0x2000 <= n <= 0x200A)
    || n == 0x2028 || n == 0x2029 || n == 0x202F || n == 0x205F || n == 0x3000 || n == 0xFEFF
  }

  function TrimStart(s: string): string
  {
    if |s| > 0 && IsJsSpace(s[0]) then TrimStart(s[1..]) else s
  }

  function TrimEnd(s: string): string
  {
    if |s| > 0 && IsJsSpace(s[|s| - 1]) then TrimEnd(s[..|s| - 1]) else s
  }

  function Trim(s: string): string { TrimEnd(TrimStart(s)) }

  /** `Number(v)`: `undefined` is NaN, a blank string is 0, an optionally signed
      run of decimal digits is that integer; every other text is NaN here. */
  function ToNumber(v: JsString): (r: JsNumber)
    ensures v.Undefined? ==> r == NaN
    ensures v.Text? && AllDigits(Trim(v.s)) ==> r.Finite? && r.value >= 0
  {
    match v
    case Undefined => NaN
    case Text(s) =>
      var t := Trim(s);
      if t == "" then Finite(0)
      else if AllDigits(t) then Finite(DecimalValue(t))
      else if |t| > 1 && t[0] == '-' && AllDigits(t[1..]) then Finite(-(DecimalValue(t[1..]) as int))
      else if |t| > 1 && t[0] == '+' && AllDigits(t[1..]) then Finite(DecimalValue(t[1..]))
      else NaN
  }

  lemma {:induction false} DecimalValueOfNatText(n: nat)
    ensures DecimalValue(NatText(n)) == n
  {
    if n >= 10 {
      DecimalValueOfNatText(n / 10);
      var s := NatText(n);
      assert s[..|s| - 1] == NatText(n / 10);
    }
  }

  /** Printing a number and reading it back with `Number(...)` gives the same number. */
  lemma NumberTextRoundTrip(n: JsNumber)
    ensures ToNumber(Text(NumberText(n))) == n
  {
    match n
    case NaN =>
      assert Trim("NaN") == "NaN";
      assert !IsDigit("NaN"[0]);
    case Finite(v) =>
      if v < 0 {
        NegativeTextRoundTrip(v);
      } else {
        var t := NatText(v);
        NothingToTrim(t);
        DecimalValueOfNatText(v);
      }
  }

  /** A text that starts with a digit or a sign and ends with a digit has no
      white space to trim. */
  lemma NothingToTrim(t: string)
    requires |t| > 0 && (IsDigit(t[0]) || t[0] == '-') && IsDigit(t[|t| - 1])
    ensures Trim(t) == t
  {
    assert TrimStart(t) == t;
  }

  lemma NegativeTextRoundTrip(v: int)
    requires v < 0
    ensures ToNumber(Text(IntText(v))) == Finite(v)
  {
    var digits := NatText(-v);
    var t := "-" + digits;
    assert t[|t| - 1] == digits[|digits| - 1];
    NothingToTrim(t);
    DecimalValueOfNatText(-v);
    assert t[1..] == digits;
    assert !IsDigit(t[0]);
  }

  // ---------------------------------------------------------------------------
  // Array.prototype.join and String.prototype.split

  /** `parts.join(sep)`. */
  function Join(parts: seq<string>, sep: string): (r: string)
    ensures |parts| > 0 ==> parts[0] <= r
    ensures |parts| > 1 ==> parts[0] + sep <= r
  {
    if |parts| == 0 then ""
    else if |parts| == 1 then parts[0]
    else parts[0] + sep + Join(parts[1..], sep)
  }

  /** `s.split(sep)` for a one-character separator: an empty string gives [""]. */
  function Split(s: string, sep: char): (parts: seq<string>)
    ensures |parts| > 0
  {
    if s == [] then [""]
    else
      var rest := Split(s[1..], sep);
      if s[0] == sep then [""] + rest
      else [[s[0]] + rest[0]] + rest[1..]
  }

  predicate FreeOf(parts: seq<string>, sep: char)
  {
    forall k :: 0 <= k < |parts| ==> sep !in parts[k]
  }

  lemma {:induction false} SplitWithoutSeparator(p: string, sep: char)
    requires sep !in p
    ensures Split(p, sep) == [p]
  {
    if p != [] {
      SplitWithoutSeparator(p[1..], sep);
      assert [p[0]] + p[1..] == p;
    }
  }

  lemma {:induction false} SplitAtFirstSeparator(p: string, sep: char, rest: string)
    requires sep !in p
    ensures Split(p + [sep] + rest, sep) == [p] + Split(rest, sep)
  {
    if p == [] {
      assert p + [sep] + rest == [sep] + rest;
      assert ([sep] + rest)[1..] == rest;
    } else {
      var s := p + [sep] + rest;
      assert s[1..] == p[1..] + [sep] + rest;
      SplitAtFirstSeparator(p[1..], sep, rest);
      assert [p[0]] + p[1..] == p;
    }
  }

  /** Splitting a joined list on its separator recovers the list, provided the
      list is not empty and no element contains the separator. */
  lemma {:induction false} SplitJoin(parts: seq<string>, sep: char)
    requires |parts| > 0 && FreeOf(parts, sep)
    ensures Split(Join(parts, [sep]), sep) == parts
  {
    if |parts| == 1 {
      SplitWithoutSeparator(parts[0], sep);
    } else {
      SplitJoin(parts[1..], sep);
      SplitAtFirstSeparator(parts[0], sep, Join(parts[1..], [sep]));
      assert [parts[0]] + parts[1..] == parts;
    }
  }

  /** `[].join(sep)` and `[""].join(sep)` are both "": a joined list with no
      elements cannot be told apart from one holding a single empty string. */
  lemma JoinEmptyIsAmbiguous(sep: char)
    ensures Join([], [sep]) == Join([""], [sep]) == ""
    ensures Split(Join([], [sep]), sep) == [""]
  {
  }
}
