/**
 * The few JavaScript string operations the tutor's logic depends on:
 * `trim`, `substring(0, n)`, `Number.prototype.toString` on the millisecond
 * clock, and `split(',')[1]` on a data URL.
 */
module JsText {
  import opened Wrappers

  /**
   * The WhiteSpace and LineTerminator code points of ECMAScript: exactly what
   * `String.prototype.trim` strips from both ends.
   */
  const JsSpaces: set<char> := {
    '\t', '\U{000B}', '\U{000C}', ' ', '\U{00A0}', '\U{FEFF}', '\U{1680}',
    '\U{2000}', '\U{2001}', '\U{2002}', '\U{2003}', '\U{2004}', '\U{2005}',
    '\U{2006}', '\U{2007}', '\U{2008}', '\U{2009}', '\U{200A}',
    '\U{202F}', '\U{205F}', '\U{3000}',
    '\n', '\r', '\U{2028}', '\U{2029}'
  }

  predicate IsJsSpace(c: char)
  {
    c in JsSpaces
  }

  predicate AllSpace(s: string)
  {
    forall k :: 0 <= k < |s| ==> IsJsSpace(s[k])
  }

  /** The number of leading characters `trim` removes. */
  function LeadingSpaces(s: string): (n: nat)
    ensures n <= |s|
    ensures AllSpace(s[..n])
    ensures n < |s| ==> !IsJsSpace(s[n])
  {
    if s == [] || !IsJsSpace(s[0]) then 0
    else
      var n := 1 + LeadingSpaces(s[1..]);
      assert s[..n] == [s[0]] + s[1..][..n - 1];
      n
  }

  /** The number of trailing characters `trim` removes. */
  function TrailingSpaces(s: string): (n: nat)
    ensures n <= |s|
    ensures AllSpace(s[|s| - n..])
    ensures n < |s| ==> !IsJsSpace(s[|s| - 1 - n])
  {
    if s == [] || !IsJsSpace(s[|s| - 1]) then 0
    else
      var t := s[..|s| - 1];
      var m := TrailingSpaces(t);
      TrailingStep(s, t, m);
      m + 1
  }

  lemma TrailingStep(s: string, t: string, m: nat)
    requires s != [] && t == s[..|s| - 1] && IsJsSpace(s[|s| - 1])
    requires m <= |t| && AllSpace(t[|t| - m..])
    ensures AllSpace(s[|s| - (m + 1)..])
  {
    assert s[|s| - (m + 1)..] == t[|t| - m..] + [s[|s| - 1]];
  }

  /** True when `s` neither starts nor ends with white space. */
  predicate Trimmed(s: string)
  {
    s == [] || (!IsJsSpace(s[0]) && !IsJsSpace(s[|s| - 1]))
  }

  /** `s.trim()`: `s` without the white space at either end. */
  function Trim(s: string): string
  {
    var t := s[LeadingSpaces(s)..];
    t[..|t| - TrailingSpaces(t)]
  }

  /**
   * What `trim` leaves: `s` minus an all-space head and an all-space tail,
   * starting and ending with something other than white space; it is empty
   * exactly when `s` is all white space.
   */
  lemma TrimShape(s: string)
    ensures var r := Trim(s);
      && Trimmed(r)
      && (exists i :: 0 <= i <= |s| - |r| && s == s[..i] + r + s[i + |r|..]
                      && AllSpace(s[..i]) && AllSpace(s[i + |r|..]))
      && (r == [] <==> AllSpace(s))
  {
    var i := LeadingSpaces(s);
    var t := s[i..];
    TrimPieces(s, i, t, TrailingSpaces(t), Trim(s));
  }

  /** The pieces `Trim` cuts `s` into: an all-space head, the result, an all-space tail. */
  lemma TrimPieces(s: string, i: nat, t: string, n: nat, r: string)
    requires i <= |s| && AllSpace(s[..i]) && (i < |s| ==> !IsJsSpace(s[i]))
    requires t == s[i..] && n <= |t| && AllSpace(t[|t| - n..]) && (n < |t| ==> !IsJsSpace(t[|t| - 1 - n]))
    requires r == t[..|t| - n]
    ensures Trimmed(r)
    ensures 0 <= i <= |s| - |r| && s == s[..i] + r + s[i + |r|..]
    ensures AllSpace(s[..i]) && AllSpace(s[i + |r|..])
    ensures r == [] <==> AllSpace(s)
  {
    assert t == r + t[|t| - n..];
    assert s == s[..i] + t;
    assert s[i + |r|..] == t[|t| - n..];
    if r == [] {
      assert s[..i] == s;
    } else {
      assert r[0] == s[i];
      assert r[|r| - 1] == t[|t| - 1 - n];
    }
  }

  /** Trimming text that is already trimmed leaves it alone. */
  lemma TrimOfTrimmed(s: string)
    requires Trimmed(s)
    ensures Trim(s) == s
  {
    assert LeadingSpaces(s) == 0;
    assert s[0..] == s;
    assert TrailingSpaces(s) == 0;
  }

  /** `trim` is idempotent. */
  lemma TrimIdempotent(s: string)
    ensures Trim(Trim(s)) == Trim(s)
  {
    TrimShape(s);
    TrimOfTrimmed(Trim(s));
  }

  /** `s.substring(0, n)` for `n >= 0`: the first `n` characters, or all of `s` when it is shorter. */
  function Substring0(s: string, n: nat): (r: string)
    ensures |r| == if |s| < n then |s| else n
    ensures r <= s
  {
    if |s| <= n then s else s[..n]
  }

  predicate IsDigit(c: char)
  {
    '0' <= c <= '9'
  }

  function DigitChar(d: nat): (c: char)
    requires d < 10
    ensures IsDigit(c) && c as int - '0' as int == d
  {
    ('0' as int + d) as char
  }

  /** `n.toString()` for a non-negative integer: its decimal digits, most significant first. */
  function NatToString(n: nat): (s: string)
    ensures |s| > 0
    ensures forall k :: 0 <= k < |s| ==> IsDigit(s[k])
  {
    if n < 10 then [DigitChar(n)] else NatToString(n / 10) + [DigitChar(n % 10)]
  }

  /** The value of a string of decimal digits. */
  function DigitsValue(s: string): nat
    requires forall k :: 0 <= k < |s| ==> IsDigit(s[k])
  {
    if s == [] then 0
    else
      assert IsDigit(s[|s| - 1]);
      DigitsValue(s[..|s| - 1]) * 10 + (s[|s| - 1] as int - '0' as int)
  }

  /** Reads a non-empty decimal numeral; anything else is not a number. */
  function ParseNat(s: string): (r: Option<nat>)
    ensures r.Some? <==> |s| > 0 && forall k :: 0 <= k < |s| ==> IsDigit(s[k])
  {
    if |s| > 0 && forall k :: 0 <= k < |s| ==> IsDigit(s[k]) then Some(DigitsValue(s)) else None
  }

  /** Writing a number and reading it back gives the number. */
  lemma {:induction false} ParseNatToString(n: nat)
    ensures ParseNat(NatToString(n)) == Some(n)
  {
    var s := NatToString(n);
    if n < 10 {
      assert s[..|s| - 1] == [];
      assert DigitsValue(s) == n;
    } else {
      ParseNatToString(n / 10);
      assert s[..|s| - 1] == NatToString(n / 10);
    }
  }

  /** Distinct clock readings give distinct identifiers. */
  lemma NatToStringInjective(a: nat, b: nat)
    requires a != b
    ensures NatToString(a) != NatToString(b)
  {
    ParseNatToString(a);
    ParseNatToString(b);
  }

  /** The position of the first `c` in `s`, if there is one. */
  function IndexOf(s: string, c: char): (r: Option<nat>)
    ensures r.None? <==> c !in s
    ensures r.Some? ==> r.value < |s| && s[r.value] == c && c !in s[..r.value]
  {
    if s == [] then None
    else if s[0] == c then Some(0)
    else
      match IndexOf(s[1..], c)
      case None => None
      case Some(i) =>
        assert s[..i + 1] == [s[0]] + s[1..][..i];
        Some(i + 1)
  }

  /**
   * `url.split(',')[1]`: the text between the first comma and the next one (or
   * the end); `undefined`, here None, when there is no comma at all.
   */
  function DataUrlPayload(url: string): (r: Option<string>)
    ensures r.None? <==> ',' !in url
    ensures r.Some? ==> ',' !in r.value
  {
    match IndexOf(url, ',')
    case None => None
    case Some(i) =>
      var rest := url[i + 1..];
      match IndexOf(rest, ',')
      case None => Some(rest)
      case Some(j) => Some(rest[..j])
  }

  /** A data URL `header,payload` yields its payload, since base64 text has no comma. */
  lemma DataUrlPayloadOf(header: string, payload: string)
    requires ',' !in header && ',' !in payload
    ensures DataUrlPayload(header + "," + payload) == Some(payload)
  {
    var url := header + "," + payload;
    assert url[|header|] == ',';
    assert url[..|header|] == header;
    assert IndexOf(url, ',') == Some(|header|);
    assert url[|header| + 1..] == payload;
  }
}
