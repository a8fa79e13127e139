/** Percent-encoding as Python's `urllib.parse` performs it: a string is
    encoded to UTF-8 (RFC 3629), every byte outside the unreserved set of
    section 2.3 of RFC 3986 and outside the caller's `safe` characters is
    written as `%XX` with upper-case hex digits (section 2.1 of RFC 3986), and
    `quote_plus`/`urlencode` write a space as `+`. A decoder and a query
    parser are the partners the encoders are proved against. */
module UrlEncoding {
  import opened Py

  type Byte = b: int | 0 <= b < 256

  // ------------------------------------------------------------------ UTF-8

  /** The UTF-8 encoding of one Unicode scalar value. */
  function Utf8Char(c: char): (r: seq<Byte>)
    ensures 1 <= |r| <= 4
    ensures c as int < 0x80 ==> r == [c as int]
    ensures c as int >= 0x80 ==> |r| >= 2 && forall i :: 0 <= i < |r| ==> r[i] >= 0x80
  {
    var n := c as int;
    if n < 0x80 then [n]
    else if n < 0x800 then [0xC0 + n / 64, 0x80 + n % 64]
    else if n < 0x10000 then [0xE0 + n / 4096, 0x80 + (n / 64) % 64, 0x80 + n % 64]
    else [0xF0 + n / 262144, 0x80 + (n / 4096) % 64, 0x80 + (n / 64) % 64, 0x80 + n % 64]
  }

  predicate IsAscii(s: string) {
    forall i :: 0 <= i < |s| ==> s[i] as int < 0x80
  }

  /** `s.encode('utf-8')`. An ASCII string encodes to its own code points,
      and every byte of a non-ASCII character is at least 0x80, so no
      character outside ASCII can encode to a delimiter. */
  function Utf8(s: string): (r: seq<Byte>)
    ensures IsAscii(s) ==> |r| == |s| && forall i :: 0 <= i < |s| ==> r[i] == s[i] as int
    ensures forall i :: 0 <= i < |r| && r[i] < 0x80 ==> r[i] as char in s
  {
    if s == [] then [] else Utf8Char(s[0]) + Utf8(s[1..])
  }

  // -------------------------------------------------------------- encoding

  /** The bytes `quote` never escapes: ASCII letters, digits and `_.-~`. */
  predicate AlwaysSafe(b: int) {
    ('A' as int <= b <= 'Z' as int) || ('a' as int <= b <= 'z' as int)
    || ('0' as int <= b <= '9' as int)
    || b == '_' as int || b == '.' as int || b == '-' as int || b == '~' as int
  }

  /** A byte written as itself: always safe, or an ASCII character of `safe`. */
  predicate Kept(b: Byte, safe: set<char>) {
    AlwaysSafe(b) || (b < 0x80 && b as char in safe)
  }

  function HexDigit(n: nat): (c: char)
    requires n < 16
    ensures AlwaysSafe(c as int)
  {
    if n < 10 then ('0' as int + n) as char else ('A' as int + n - 10) as char
  }

  /** The value of a hex digit in either case. */
  function HexValue(c: char): Option<nat> {
    if '0' <= c <= '9' then Some(c as int - '0' as int)
    else if 'A' <= c <= 'F' then Some(c as int - 'A' as int + 10)
    else if 'a' <= c <= 'f' then Some(c as int - 'a' as int + 10)
    else None
  }

  /** One byte as `quote` (plus = false) or `quote_plus` (plus = true) writes it. */
  function QuoteByte(b: Byte, safe: set<char>, plus: bool): (r: string)
    ensures |r| == 1 || |r| == 3
  {
    if plus && b == ' ' as int then "+"
    else if Kept(b, safe) then [b as char]
    else ['%', HexDigit(b / 16), HexDigit(b % 16)]
  }

  function QuoteBytes(bs: seq<Byte>, safe: set<char>, plus: bool): string {
    if bs == [] then [] else QuoteByte(bs[0], safe, plus) + QuoteBytes(bs[1..], safe, plus)
  }

  /** `urllib.parse.quote(s, safe)`. */
  function Quote(s: string, safe: set<char>): string {
    QuoteBytes(Utf8(s), safe, false)
  }

  /** `urllib.parse.quote_plus(s, safe)`. */
  function QuotePlus(s: string, safe: set<char>): string {
    QuoteBytes(Utf8(s), safe, true)
  }

  /** The characters an encoder can emit: unreserved ones, the caller's safe
      ones, the escape character and (for `quote_plus`) the plus sign. */
  predicate Emitted(c: char, safe: set<char>) {
    AlwaysSafe(c as int) || c in safe || c == '%' || c == '+'
  }

  lemma {:induction false} QuoteBytesAlphabet(bs: seq<Byte>, safe: set<char>, plus: bool)
    ensures forall i :: 0 <= i < |QuoteBytes(bs, safe, plus)| ==> Emitted(QuoteBytes(bs, safe, plus)[i], safe)
  {
    if bs != [] {
      QuoteBytesAlphabet(bs[1..], safe, plus);
      var e, t := QuoteByte(bs[0], safe, plus), QuoteBytes(bs[1..], safe, plus);
      assert QuoteBytes(bs, safe, plus) == e + t;
      forall i | 0 <= i < |e + t| ensures Emitted((e + t)[i], safe) {
        if i >= |e| { assert (e + t)[i] == t[i - |e|]; }
      }
    }
  }

  /** A string made only of unreserved characters is its own encoding. */
  lemma {:induction false} QuoteUnreserved(s: string, safe: set<char>, plus: bool)
    requires forall i :: 0 <= i < |s| ==> AlwaysSafe(s[i] as int)
    ensures QuoteBytes(Utf8(s), safe, plus) == s
  {
    if s != [] {
      assert Utf8(s) == [s[0] as int] + Utf8(s[1..]);
      assert Utf8(s)[1..] == Utf8(s[1..]);
      QuoteUnreserved(s[1..], safe, plus);
    }
  }

  // -------------------------------------------------------------- decoding

  /** Percent-decoding to bytes: `%XX` is a byte, `+` a space when `plus`,
      any other ASCII character itself; anything else is malformed. */
  function Unquote(s: string, plus: bool): Option<seq<Byte>>
    decreases |s|
  {
    if s == [] then Some([])
    else if s[0] == '%' then
      if |s| >= 3 && HexValue(s[1]).Some? && HexValue(s[2]).Some?
         && HexValue(s[1]).value < 16 && HexValue(s[2]).value < 16 then
        match Unquote(s[3..], plus)
        case None => None
        case Some(rest) => Some([HexValue(s[1]).value * 16 + HexValue(s[2]).value] + rest)
      else None
    else if plus && s[0] == '+' then
      match Unquote(s[1..], plus)
      case None => None
      case Some(rest) => Some([' ' as int] + rest)
    else if s[0] as int < 0x80 then
      match Unquote(s[1..], plus)
      case None => None
      case Some(rest) => Some([s[0] as int] + rest)
    else None
  }

  lemma HexRoundTrip(n: nat)
    requires n < 16
    ensures HexValue(HexDigit(n)) == Some(n)
  {
  }

  /** An escape `%XY` in front of `t` decodes to the byte it stands for. */
  lemma UnquoteEscape(b: Byte, t: string, plus: bool, rest: seq<Byte>)
    requires Unquote(t, plus) == Some(rest)
    ensures Unquote(['%', HexDigit(b / 16), HexDigit(b % 16)] + t, plus) == Some([b] + rest)
  {
    var s := ['%', HexDigit(b / 16), HexDigit(b % 16)] + t;
    HexRoundTrip(b / 16);
    HexRoundTrip(b % 16);
    assert s[3..] == t;
    assert (b / 16) * 16 + b % 16 == b;
  }

  /** One encoded byte in front of `t` decodes to that byte. */
  lemma UnquoteQuoteByte(b: Byte, t: string, safe: set<char>, plus: bool, rest: seq<Byte>)
    requires '%' !in safe && (plus ==> '+' !in safe)
    requires Unquote(t, plus) == Some(rest)
    ensures Unquote(QuoteByte(b, safe, plus) + t, plus) == Some([b] + rest)
  {
    var e := QuoteByte(b, safe, plus);
    if plus && b == ' ' as int {
      assert (e + t)[1..] == t;
    } else if Kept(b, safe) {
      assert (e + t)[1..] == t;
      assert b as char != '%' && !(plus && b as char == '+');
    } else {
      UnquoteEscape(b, t, plus, rest);
    }
  }

  /** Decoding undoes encoding, as long as neither the escape character nor
      (for `quote_plus`) the plus sign is declared safe. */
  lemma {:induction false} UnquoteQuoteBytes(bs: seq<Byte>, safe: set<char>, plus: bool)
    requires '%' !in safe && (plus ==> '+' !in safe)
    ensures Unquote(QuoteBytes(bs, safe, plus), plus) == Some(bs)
  {
    if bs != [] {
      UnquoteQuoteBytes(bs[1..], safe, plus);
      UnquoteQuoteByte(bs[0], QuoteBytes(bs[1..], safe, plus), safe, plus, bs[1..]);
      assert bs == [bs[0]] + bs[1..];
    }
  }

  /** `unquote(quote(s))` gives back the UTF-8 bytes of `s`. */
  lemma QuoteRoundTrip(s: string, safe: set<char>)
    requires '%' !in safe
    ensures Unquote(Quote(s, safe), false) == Some(Utf8(s))
  {
    UnquoteQuoteBytes(Utf8(s), safe, false);
  }

  // ------------------------------------------------------------- splitting

  /** The position of the first `c` in `s`. */
  function IndexOf(s: string, c: char): (r: Option<nat>)
    ensures r.None? <==> c !in s
    ensures r.Some? ==> r.value < |s| && s[r.value] == c && c !in s[..r.value]
  {
    if s == [] then None
    else if s[0] == c then Some(0)
    else match IndexOf(s[1..], c)
      case None => None
      case Some(i) =>
        assert s[..i + 1] == [s[0]] + s[1..][..i];
        Some(i + 1)
  }

  /** The first `c` of `a + [c] + b` is the one after `a` when `a` has none. */
  lemma {:induction false} IndexOfAfter(a: string, c: char, b: string)
    requires c !in a
    ensures IndexOf(a + [c] + b, c) == Some(|a|)
  {
    if a != [] {
      assert (a + [c] + b)[1..] == a[1..] + [c] + b;
      IndexOfAfter(a[1..], c, b);
    }
  }

  /** `s.split(sep)`. */
  function SplitOn(s: string, sep: char): (parts: seq<string>)
    ensures |parts| >= 1
    decreases |s|
  {
    match IndexOf(s, sep)
    case None => [s]
    case Some(i) => [s[..i]] + SplitOn(s[i + 1..], sep)
  }

  /** `sep.join(parts)`. */
  function JoinWith(parts: seq<string>, sep: char): string
    requires |parts| >= 1
  {
    if |parts| == 1 then parts[0] else parts[0] + [sep] + JoinWith(parts[1..], sep)
  }

  /** Splitting a join gives the parts back when no part holds the separator. */
  lemma {:induction false} SplitJoin(parts: seq<string>, sep: char)
    requires |parts| >= 1
    requires forall i :: 0 <= i < |parts| ==> sep !in parts[i]
    ensures SplitOn(JoinWith(parts, sep), sep) == parts
  {
    if |parts| > 1 {
      var rest := JoinWith(parts[1..], sep);
      var joined := parts[0] + [sep] + rest;
      assert JoinWith(parts, sep) == joined;
      IndexOfAfter(parts[0], sep, rest);
      assert joined[..|parts[0]|] == parts[0];
      assert joined[|parts[0]| + 1..] == rest;
      assert SplitOn(joined, sep) == [parts[0]] + SplitOn(rest, sep);
      assert forall i :: 0 <= i < |parts[1..]| ==> parts[1..][i] == parts[i + 1];
      SplitJoin(parts[1..], sep);
      assert [parts[0]] + parts[1..] == parts;
    } else {
      assert IndexOf(parts[0], sep).None?;
    }
  }

  // ------------------------------------------------------------ urlencode

  /** One `key=value` field as `urlencode` writes it (`quote_plus`, safe = ""). */
  function Field(p: (string, string)): string {
    QuotePlus(p.0, {}) + "=" + QuotePlus(p.1, {})
  }

  function Fields(params: seq<(string, string)>): (fs: seq<string>)
    ensures |fs| == |params|
    ensures forall i :: 0 <= i < |params| ==> fs[i] == Field(params[i])
  {
    if params == [] then [] else [Field(params[0])] + Fields(params[1..])
  }

  /** `urllib.parse.urlencode(params)`: the fields in order, joined by `&`. */
  function UrlEncode(params: seq<(string, string)>): string {
    if params == [] then "" else JoinWith(Fields(params), '&')
  }

  /** A query string decoded to byte pairs: fields split at `&`, each at its
      first `=`, both halves decoded with `+` as space. */
  function ParseQuery(q: string): Option<seq<(seq<Byte>, seq<Byte>)>> {
    if q == [] then Some([]) else ParsePairs(SplitOn(q, '&'))
  }

  function ParsePairs(fields: seq<string>): Option<seq<(seq<Byte>, seq<Byte>)>> {
    if fields == [] then Some([])
    else match (ParsePair(fields[0]), ParsePairs(fields[1..]))
      case (Some(p), Some(ps)) => Some([p] + ps)
      case _ => None
  }

  function ParsePair(field: string): Option<(seq<Byte>, seq<Byte>)> {
    match IndexOf(field, '=')
    case None => None
    case Some(i) =>
      match (Unquote(field[..i], true), Unquote(field[i + 1..], true))
      case (Some(k), Some(v)) => Some((k, v))
      case _ => None
  }

  /** The byte pairs a list of string pairs stands for. */
  function Utf8Pairs(params: seq<(string, string)>): seq<(seq<Byte>, seq<Byte>)> {
    if params == [] then [] else [(Utf8(params[0].0), Utf8(params[0].1))] + Utf8Pairs(params[1..])
  }

  lemma QuotePlusHasNo(s: string, c: char)
    requires !AlwaysSafe(c as int) && c != '%' && c != '+'
    ensures c !in QuotePlus(s, {})
  {
    QuoteBytesAlphabet(Utf8(s), {}, true);
  }

  lemma ParseField(p: (string, string))
    ensures ParsePair(Field(p)) == Some((Utf8(p.0), Utf8(p.1)))
  {
    var k, v := QuotePlus(p.0, {}), QuotePlus(p.1, {});
    QuotePlusHasNo(p.0, '=');
    IndexOfAfter(k, '=', v);
    assert (k + "=" + v)[..|k|] == k;
    assert (k + "=" + v)[|k| + 1..] == v;
    UnquoteQuoteBytes(Utf8(p.0), {}, true);
    UnquoteQuoteBytes(Utf8(p.1), {}, true);
  }

  lemma {:induction false} ParseFields(params: seq<(string, string)>)
    ensures ParsePairs(Fields(params)) == Some(Utf8Pairs(params))
  {
    if params != [] {
      ParseField(params[0]);
      ParseFields(params[1..]);
      assert Fields(params)[1..] == Fields(params[1..]);
    }
  }

  /** Parsing an encoded query gives back every key and value, in order. */
  lemma ParseUrlEncode(params: seq<(string, string)>)
    ensures ParseQuery(UrlEncode(params)) == Some(Utf8Pairs(params))
  {
    if params != [] {
      var fs := Fields(params);
      forall i | 0 <= i < |fs| ensures '&' !in fs[i] {
        QuotePlusHasNo(params[i].0, '&');
        QuotePlusHasNo(params[i].1, '&');
      }
      SplitJoin(fs, '&');
      assert fs[0] != [] by { assert fs[0][|QuotePlus(params[0].0, {})|] == '='; }
      ParseFields(params);
    }
  }

  /** Neither `&`, `=`, `#` nor `?` appears in an encoded query. */
  lemma UrlEncodeDelimiters(params: seq<(string, string)>)
    ensures '#' !in UrlEncode(params) && '?' !in UrlEncode(params)
  {
    if params != [] {
      var fs := Fields(params);
      forall i | 0 <= i < |fs| ensures '#' !in fs[i] && '?' !in fs[i] {
        QuotePlusHasNo(params[i].0, '#');
        QuotePlusHasNo(params[i].1, '#');
        QuotePlusHasNo(params[i].0, '?');
        QuotePlusHasNo(params[i].1, '?');
      }
      JoinAvoids(fs, '&', '#');
      JoinAvoids(fs, '&', '?');
    }
  }

  lemma {:induction false} JoinAvoids(parts: seq<string>, sep: char, c: char)
    requires |parts| >= 1 && c != sep
    requires forall i :: 0 <= i < |parts| ==> c !in parts[i]
    ensures c !in JoinWith(parts, sep)
  {
    if |parts| > 1 {
      JoinAvoids(parts[1..], sep, c);
    }
  }
}
