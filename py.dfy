/** Python value semantics that the modelled code relies on: optional and
    failing results, the scalar values a SQLite row or a keyword argument
    carries, truthiness, `str()` of an integer and its inverse `int()`, and
    `str.strip()`. */
module Py {

  datatype Option<+T> = None | Some(value: T)

  datatype Result<+T, +E> = Ok(value: T) | Err(error: E)

  /** The exceptions the modelled code raises or catches. */
  datatype Exception =
    | AttributeError          // `.get` on something that is not a dict
    | TypeError               // wrong argument type or a missing argument
    | KeyError(key: string)   // `d[key]` on a dict without `key`
    | ValueError              // `int()` of a malformed string, a failed user insert
    | IntegrityError          // a uniqueness violation raised by SQLite
    | FileNotFoundError       // a configuration file that is absent
    | OSError                 // a configuration file that cannot be written

  /** A scalar as SQLite stores it and Python hands it around (None, int, str). */
  datatype Value = Null | Int(i: int) | Text(s: string)

  /** Python's `bool(v)`. */
  predicate Truthy(v: Value) {
    match v
    case Null => false
    case Int(i) => i != 0
    case Text(s) => s != ""
  }

  // ---------------------------------------------------------------- digits

  predicate IsDigit(c: char) { '0' <= c <= '9' }

  function DigitChar(d: nat): (c: char)
    requires d < 10
    ensures IsDigit(c) && c as int - '0' as int == d
  {
    ('0' as int + d) as char
  }

  /** `str(n)` for a non-negative integer. */
  function NatToDecimal(n: nat): (s: string)
    ensures |s| > 0
    ensures forall i :: 0 <= i < |s| ==> IsDigit(s[i])
    ensures n > 0 ==> s[0] != '0'
  {
    if n < 10 then [DigitChar(n)] else NatToDecimal(n / 10) + [DigitChar(n % 10)]
  }

  /** `str(n)` for any integer: a minus sign before the digits of `|n|`. */
  function Decimal(n: int): string {
    if n < 0 then "-" + NatToDecimal(-n) else NatToDecimal(n)
  }

  /** Python's `str(v)` of a stored scalar (`None` prints as "None"). */
  function Str(v: Value): string {
    match v
    case Null => "None"
    case Int(i) => Decimal(i)
    case Text(s) => s
  }

  /** The value of a run of decimal digits, read left to right. */
  function DigitsValue(s: string): nat
    requires forall i :: 0 <= i < |s| ==> IsDigit(s[i])
  {
    if s == [] then 0
    else
      assert IsDigit(s[|s| - 1]);
      DigitsValue(s[..|s| - 1]) * 10 + (s[|s| - 1] as int - '0' as int)
  }

  /** `sub in s` on strings: `sub` occurs in `s` as a contiguous run. */
  predicate IsSubstring(sub: string, s: string) {
    |sub| <= |s| && (s[..|sub|] == sub || IsSubstring(sub, s[1..]))
  }

  // ------------------------------------------------------------ whitespace

  /** The characters Python's `str.isspace()` accepts and `str.strip()` removes. */
  predicate IsSpace(c: char) {
    c == ' ' || '\t' <= c <= '\r' || '\U{1c}' <= c <= '\U{1f}' || c == '\U{85}' || c == '\U{a0}'
    || c == '\U{1680}' || '\U{2000}' <= c <= '\U{200a}' || c == '\U{2028}' || c == '\U{2029}'
    || c == '\U{202f}' || c == '\U{205f}' || c == '\U{3000}'
  }

  /** How many whitespace characters `s` starts with. */
  function LeadingSpace(s: string): (n: nat)
    ensures n <= |s|
    ensures forall i :: 0 <= i < n ==> IsSpace(s[i])
    ensures n == |s| || !IsSpace(s[n])
  {
    if s != [] && IsSpace(s[0]) then 1 + LeadingSpace(s[1..]) else 0
  }

  /** How many whitespace characters `s` ends with. */
  function TrailingSpace(s: string): (n: nat)
    ensures n <= |s|
    ensures forall i :: |s| - n <= i < |s| ==> IsSpace(s[i])
    ensures n == |s| || !IsSpace(s[|s| - n - 1])
  {
    if s != [] && IsSpace(s[|s| - 1]) then 1 + TrailingSpace(s[..|s| - 1]) else 0
  }

  /** `s.strip()`: the longest infix of `s` that neither starts nor ends with
      whitespace, everything cut off being whitespace. */
  function Strip(s: string): (r: string)
    ensures |r| <= |s|
    ensures exists i :: 0 <= i <= |s| - |r| && s[i..][..|r|] == r
              && (forall j :: 0 <= j < i ==> IsSpace(s[j]))
              && (forall j :: i + |r| <= j < |s| ==> IsSpace(s[j]))
    ensures r == [] || (!IsSpace(r[0]) && !IsSpace(r[|r| - 1]))
  {
    var a := LeadingSpace(s);
    if a == |s| then
      assert s[a..][..0] == [];
      []
    else
      var b := TrailingSpace(s);
      assert a < |s| - b;
      assert s[a..][..|s| - b - a] == s[a..|s| - b];
      s[a..|s| - b]
  }

  // ------------------------------------------------------------------ int()

  /** Python's `int(s)` on a string: surrounding whitespace, an optional sign
      and at least one ASCII digit; anything else raises ValueError. */
  function ParseInt(s: string): Option<int> {
    var t := Strip(s);
    if t == [] then None
    else
      var neg := t[0] == '-';
      var digits := if t[0] == '-' || t[0] == '+' then t[1..] else t;
      if digits != [] && forall i :: 0 <= i < |digits| ==> IsDigit(digits[i]) then
        var v: int := DigitsValue(digits);
        Some(if neg then -v else v)
      else None
  }

  lemma {:induction false} DigitsValueOfDecimal(n: nat)
    ensures DigitsValue(NatToDecimal(n)) == n
  {
    if n >= 10 {
      var s := NatToDecimal(n);
      assert s[..|s| - 1] == NatToDecimal(n / 10);
      DigitsValueOfDecimal(n / 10);
    }
  }

  /** A string that neither starts nor ends with whitespace strips to itself. */
  lemma StripUnpadded(s: string)
    requires s != [] && !IsSpace(s[0]) && !IsSpace(s[|s| - 1])
    ensures Strip(s) == s
  {
    assert LeadingSpace(s) == 0 && TrailingSpace(s) == 0;
    assert s[0..|s|] == s;
  }

  /** `int(str(n)) == n`: the decimal rendering reads back to the integer. */
  lemma IntOfStr(n: int)
    ensures ParseInt(Decimal(n)) == Some(n)
  {
    var s := Decimal(n);
    var m: nat := if n < 0 then -n else n;
    var d := NatToDecimal(m);
    DigitsValueOfDecimal(m);
    assert IsDigit(d[0]) && IsDigit(d[|d| - 1]);
    if n < 0 {
      assert s == ['-'] + d;
      assert s[1..] == d;
    } else {
      assert s == d;
    }
    StripUnpadded(s);
  }
}
