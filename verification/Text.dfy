/** The parts of Go's `strings` and `strconv` packages that the modelled code calls:
    splitting, trimming and decimal numerals. Strings are sequences of Unicode characters. */
module Text {

  datatype Option<+T> = None | Some(value: T)

  datatype Result<+T, +E> = Ok(value: T) | Err(error: E)

  function Concat<T>(pieces: seq<seq<T>>): seq<T> {
    if pieces == [] then [] else pieces[0] + Concat(pieces[1..])
  }

  lemma Pick<X>(s: set<X>) returns (x: X)
    requires s != {}
    ensures x in s
  {
    x :| x in s;
  }

  lemma SubsetIsSmaller<T>(a: set<T>, b: set<T>)
    requires a <= b
    ensures |a| <= |b|
  {
    assert b == a + (b - a);
  }

  // ----- Split and Join (strings.Split with a one-character separator)

  function Split(s: string, sep: char): (parts: seq<string>)
    ensures |parts| >= 1
  {
    if s == "" then [""]
    else
      var rest := Split(s[1..], sep);
      if s[0] == sep then [""] + rest else [[s[0]] + rest[0]] + rest[1..]
  }

  function Join(parts: seq<string>, sep: char): string
    requires |parts| >= 1
  {
    if |parts| == 1 then parts[0] else parts[0] + [sep] + Join(parts[1..], sep)
  }

  lemma {:induction false} SplitFirst(p: string, s: string, sep: char)
    requires sep !in p
    ensures Split(p, sep) == [p]
    ensures Split(p + [sep] + s, sep) == [p] + Split(s, sep)
  {
    if p == "" {
      assert (p + [sep] + s)[1..] == s;
    } else {
      SplitFirst(p[1..], s, sep);
      assert (p + [sep] + s)[1..] == p[1..] + [sep] + s;
      assert p == [p[0]] + p[1..];
    }
  }

  /** strings.Cut with a one-character separator. */
  function Cut(s: string, sep: char): (r: Option<(string, string)>)
    ensures r.None? <==> sep !in s
    ensures r.Some? ==> sep !in r.value.0 && s == r.value.0 + [sep] + r.value.1
  {
    if s == "" then None
    else if s[0] == sep then Some(("", s[1..]))
    else
      match Cut(s[1..], sep)
      case None => None
      case Some((a, b)) => Some(([s[0]] + a, b))
  }

  // ----- Trimming

  /** unicode.IsSpace */
  predicate IsSpace(c: char) {
    || '\t' <= c <= '\r'
    || c in [' ', '\U{85}', '\U{A0}', '\U{1680}', '\U{2028}', '\U{2029}', '\U{202F}', '\U{205F}', '\U{3000}']
    || '\U{2000}' <= c <= '\U{200A}'
  }

  function TrimLeft(s: string, p: char -> bool): string {
    if s != "" && p(s[0]) then TrimLeft(s[1..], p) else s
  }

  function TrimRight(s: string, p: char -> bool): string {
    if s != "" && p(s[|s| - 1]) then TrimRight(s[..|s| - 1], p) else s
  }

  function Trim(s: string, p: char -> bool): string {
    TrimRight(TrimLeft(s, p), p)
  }

  /** strings.TrimSpace */
  function TrimSpace(s: string): string {
    Trim(s, IsSpace)
  }

  /** The characters cut off on the left all satisfy `p`, the first one kept does not. */
  lemma {:induction false} TrimLeftMeaning(s: string, p: char -> bool) returns (k: nat)
    ensures k <= |s| && TrimLeft(s, p) == s[k..]
    ensures forall i :: 0 <= i < k ==> p(s[i])
    ensures k < |s| ==> !p(s[k])
  {
    if s != "" && p(s[0]) {
      var k' := TrimLeftMeaning(s[1..], p);
      k := k' + 1;
      assert s[1..][k'..] == s[k..];
      forall i | 0 <= i < k ensures p(s[i]) {
        if i > 0 { assert s[i] == s[1..][i - 1]; }
      }
    } else {
      k := 0;
    }
  }

  lemma {:induction false} TrimRightMeaning(s: string, p: char -> bool) returns (k: nat)
    ensures k <= |s| && TrimRight(s, p) == s[..k]
    ensures forall i :: k <= i < |s| ==> p(s[i])
    ensures k > 0 ==> !p(s[k - 1])
  {
    if s != "" && p(s[|s| - 1]) {
      k := TrimRightMeaning(s[..|s| - 1], p);
      assert s[..|s| - 1][..k] == s[..k];
    } else {
      k := |s|;
    }
  }

  /** Trimming returns the slice of `s` without a leading or trailing character of `p`. */
  lemma TrimMeaning(s: string, p: char -> bool) returns (lo: nat, hi: nat)
    ensures lo <= hi <= |s| && Trim(s, p) == s[lo..hi]
    ensures lo < hi ==> !p(s[lo]) && !p(s[hi - 1])
    ensures forall i :: 0 <= i < lo || hi <= i < |s| ==> p(s[i])
  {
    lo := TrimLeftMeaning(s, p);
    var k := TrimRightMeaning(s[lo..], p);
    hi := lo + k;
    assert s[lo..][..k] == s[lo..hi];
    forall i | 0 <= i < lo || hi <= i < |s| ensures p(s[i]) {
      if hi <= i { assert s[i] == s[lo..][i - lo]; }
    }
  }

  /** A string that neither starts nor ends with a character of `p` is not changed. */
  lemma TrimFixed(s: string, p: char -> bool)
    requires s == "" || (!p(s[0]) && !p(s[|s| - 1]))
    ensures Trim(s, p) == s
  {
  }

  // ----- Decimal numerals

  predicate IsDigit(c: char) { '0' <= c <= '9' }

  predicate IsNumeral(s: string) {
    s != "" && forall i :: 0 <= i < |s| ==> IsDigit(s[i])
  }

  function Digit(d: nat): char
    requires d < 10
  {
    '0' + d as char
  }

  /** The `%d` form of a non-negative number. */
  function FormatNat(n: nat): string {
    if n < 10 then [Digit(n)] else FormatNat(n / 10) + [Digit(n % 10)]
  }

  function NumeralValue(s: string): nat
    requires forall i :: 0 <= i < |s| ==> IsDigit(s[i])
  {
    if s == "" then 0
    else
      assert IsDigit(s[|s| - 1]);
      10 * NumeralValue(s[..|s| - 1]) + (s[|s| - 1] as int - '0' as int)
  }

  lemma {:induction false} NumeralOfFormat(n: nat)
    ensures IsNumeral(FormatNat(n))
    ensures NumeralValue(FormatNat(n)) == n
  {
    if n >= 10 {
      NumeralOfFormat(n / 10);
      assert FormatNat(n)[..|FormatNat(n)| - 1] == FormatNat(n / 10);
    } else {
      assert FormatNat(n)[..0] == "";
    }
  }

  lemma FormatNatInjective(m: nat, n: nat)
    requires FormatNat(m) == FormatNat(n)
    ensures m == n
  {
    NumeralOfFormat(m);
    NumeralOfFormat(n);
  }

  /** The `%d` form of an integer. */
  function FormatInt(n: int): string {
    if n < 0 then "-" + FormatNat(-n) else FormatNat(n)
  }

  /** strconv.ParseUint with base 10: digits only, at least one, at most `max`. */
  function ParseUint(s: string, max: nat): Option<nat> {
    if IsNumeral(s) && NumeralValue(s) <= max then Some(NumeralValue(s)) else None
  }

  const MAX_INT64: int := 0x7FFF_FFFF_FFFF_FFFF
  const MIN_INT64: int := -0x8000_0000_0000_0000

  /** strconv.ParseInt with base 10 and 64 bits: an optional sign, then digits. */
  function ParseInt64(s: string): Option<int> {
    var negative := s != "" && s[0] == '-';
    var digits := if s != "" && (s[0] == '-' || s[0] == '+') then s[1..] else s;
    match ParseUint(digits, if negative then -MIN_INT64 else MAX_INT64)
    case None => None
    case Some(n) => var v: int := n; Some(if negative then -v else v)
  }

  lemma ParseUintOfFormat(n: nat, max: nat)
    ensures ParseUint(FormatNat(n), max) == if n <= max then Some(n) else None
    ensures FormatNat(n) != "" && IsDigit(FormatNat(n)[0]) && IsDigit(FormatNat(n)[|FormatNat(n)| - 1])
              && '\n' !in FormatNat(n)
    ensures TrimSpace(FormatNat(n)) == FormatNat(n)
  {
    NumeralOfFormat(n);
    var digits := FormatNat(n);
    assert IsDigit(digits[0]) && IsDigit(digits[|digits| - 1]);
    TrimFixed(digits, IsSpace);
  }

  /** The sign in front of a numeral is read back. */
  lemma ParseSigned(digits: string, n: nat)
    requires digits != "" && IsDigit(digits[0]) && IsDigit(digits[|digits| - 1]) && '\n' !in digits
    ensures ParseUint(digits, MAX_INT64) == Some(n) ==> ParseInt64(digits) == Some(n)
    ensures ParseUint(digits, -MIN_INT64) == Some(n) ==> ParseInt64("-" + digits) == Some(-(n as int))
    ensures TrimSpace("-" + digits) == "-" + digits && '\n' !in "-" + digits
  {
    assert ("-" + digits)[1..] == digits;
    assert ("-" + digits)[|digits|] == digits[|digits| - 1];
    TrimFixed("-" + digits, IsSpace);
  }

  /** Parsing undoes formatting on all 64-bit integers, and numerals need no trimming. */
  lemma ParseOfFormat(n: int)
    requires MIN_INT64 <= n <= MAX_INT64
    ensures ParseInt64(FormatInt(n)) == Some(n)
    ensures TrimSpace(FormatInt(n)) == FormatInt(n)
    ensures FormatInt(n) != "" && '\n' !in FormatInt(n)
  {
    var size := if n < 0 then -n else n;
    ParseUintOfFormat(size, MAX_INT64);
    ParseUintOfFormat(size, -MIN_INT64);
    ParseSigned(FormatNat(size), size);
  }
}
