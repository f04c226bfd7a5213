/** The unpadded standard base64 encoding (RFC 4648, sections 4 and 3.2), as Go's base64.RawStdEncoding
    encodes and decodes it. */
module Base64 {
  import opened Text

  newtype byte = b: int | 0 <= b < 256
  newtype sextet = b: int | 0 <= b < 64

  // ----- Bytes and groups of six bits

  // Three bytes a, b, c are cut into four groups ...
  function High6(a: byte): sextet { (a / 4) as sextet }

  function Low2High4(a: byte, b: byte): sextet { (a as int % 4 * 16 + b as int / 16) as sextet }

  function Low4High2(b: byte, c: byte): sextet { (b as int % 16 * 4 + c as int / 64) as sextet }

  function Low6(c: byte): sextet { (c % 64) as sextet }

  // ... and four groups put together again.
  function Byte0(v: sextet, w: sextet): byte { (v as int * 4 + w as int / 16) as byte }

  function Byte1(w: sextet, x: sextet): byte { (w as int % 16 * 16 + x as int / 4) as byte }

  function Byte2(x: sextet, y: sextet): byte { (x as int % 4 * 64 + y as int) as byte }

  function ToSextets(bytes: seq<byte>): seq<sextet> {
    if bytes == [] then []
    else if |bytes| == 1 then [High6(bytes[0]), Low2High4(bytes[0], 0)]
    else if |bytes| == 2 then [High6(bytes[0]), Low2High4(bytes[0], bytes[1]), Low4High2(bytes[1], 0)]
    else
      [High6(bytes[0]), Low2High4(bytes[0], bytes[1]), Low4High2(bytes[1], bytes[2]), Low6(bytes[2])]
      + ToSextets(bytes[3..])
  }

  /** A single left-over group cannot be decoded; the unused bits of the last group are dropped. */
  function ToBytes(groups: seq<sextet>): Option<seq<byte>> {
    if groups == [] then Some([])
    else if |groups| == 1 then None
    else if |groups| == 2 then Some([Byte0(groups[0], groups[1])])
    else if |groups| == 3 then Some([Byte0(groups[0], groups[1]), Byte1(groups[1], groups[2])])
    else
      match ToBytes(groups[4..])
      case None => None
      case Some(rest) =>
        Some([Byte0(groups[0], groups[1]), Byte1(groups[1], groups[2]), Byte2(groups[2], groups[3])] + rest)
  }

  lemma ThreeBytes(a: byte, b: byte, c: byte)
    ensures Byte0(High6(a), Low2High4(a, b)) == a
    ensures Byte1(Low2High4(a, b), Low4High2(b, c)) == b
    ensures Byte2(Low4High2(b, c), Low6(c)) == c
  {
  }

  lemma Three(a: byte, b: byte, c: byte, rest: seq<byte>)
    requires ToBytes(ToSextets(rest)) == Some(rest)
    ensures ToBytes(ToSextets([a, b, c] + rest)) == Some([a, b, c] + rest)
  {
    ThreeBytes(a, b, c);
    var groups := [High6(a), Low2High4(a, b), Low4High2(b, c), Low6(c)] + ToSextets(rest);
    assert ([a, b, c] + rest)[3..] == rest;
    assert ToSextets([a, b, c] + rest) == groups;
    assert groups[4..] == ToSextets(rest);
  }

  lemma Two(a: byte, b: byte)
    ensures ToBytes(ToSextets([a, b])) == Some([a, b])
  {
    ThreeBytes(a, b, 0);
  }

  lemma OneFrom(a: byte, v: sextet, w: sextet)
    requires Byte0(v, w) == a
    ensures ToBytes([v, w]) == Some([a])
  {
  }

  lemma One(a: byte)
    ensures ToBytes(ToSextets([a])) == Some([a])
  {
    ThreeBytes(a, 0, 0);
    OneFrom(a, High6(a), Low2High4(a, 0));
  }

  lemma {:induction false} ToBytesOfToSextets(bytes: seq<byte>)
    ensures ToBytes(ToSextets(bytes)) == Some(bytes)
  {
    if |bytes| >= 3 {
      ToBytesOfToSextets(bytes[3..]);
      Three(bytes[0], bytes[1], bytes[2], bytes[3..]);
      assert bytes == [bytes[0], bytes[1], bytes[2]] + bytes[3..];
    } else if |bytes| == 2 {
      Two(bytes[0], bytes[1]);
      assert bytes == [bytes[0], bytes[1]];
    } else if |bytes| == 1 {
      One(bytes[0]);
      assert bytes == [bytes[0]];
    }
  }

  /** The groups are the digits, in base 64, of the number whose digits in base 256 are the bytes; at the end
      zero bits fill the last group (section 4 of RFC 4648). */
  lemma GroupsAreDigits(bytes: seq<byte>)
    ensures |ToSextets(bytes)| == (4 * |bytes| + 2) / 3
    ensures |bytes| >= 3 ==>
              var g := ToSextets(bytes);
              && ((bytes[0] as int * 256 + bytes[1] as int) * 256 + bytes[2] as int
                  == ((g[0] as int * 64 + g[1] as int) * 64 + g[2] as int) * 64 + g[3] as int)
              && g[4..] == ToSextets(bytes[3..])
    ensures |bytes| == 2 ==>
              var g := ToSextets(bytes);
              (bytes[0] as int * 256 + bytes[1] as int) * 4 == (g[0] as int * 64 + g[1] as int) * 64 + g[2] as int
    ensures |bytes| == 1 ==>
              var g := ToSextets(bytes);
              bytes[0] as int * 16 == g[0] as int * 64 + g[1] as int
  {
    GroupCount(bytes);
  }

  lemma {:induction false} GroupCount(bytes: seq<byte>)
    ensures |ToSextets(bytes)| == (4 * |bytes| + 2) / 3
  {
    if |bytes| >= 3 {
      GroupCount(bytes[3..]);
    }
  }

  /** The bits that no byte uses are zero. */
  predicate ZeroTail(groups: seq<sextet>) {
    && (|groups| % 4 == 2 ==> groups[|groups| - 1] % 16 == 0)
    && (|groups| % 4 == 3 ==> groups[|groups| - 1] % 4 == 0)
  }

  lemma FourSextets(v: sextet, w: sextet, x: sextet, y: sextet)
    ensures High6(Byte0(v, w)) == v
    ensures Low2High4(Byte0(v, w), Byte1(w, x)) == w
    ensures Low4High2(Byte1(w, x), Byte2(x, y)) == x
    ensures Low6(Byte2(x, y)) == y
    ensures Low2High4(Byte0(v, w), 0) == w <==> w % 16 == 0
    ensures Low4High2(Byte1(w, x), 0) == x <==> x % 4 == 0
  {
    assert Low2High4(Byte0(v, w), 0) as int == w as int / 16 * 16;
    assert Low4High2(Byte1(w, x), 0) as int == x as int / 4 * 4;
  }

  lemma FirstFour(groups: seq<sextet>, rest: seq<byte>)
    requires |groups| >= 4 && ToBytes(groups[4..]) == Some(rest)
    ensures ToBytes(groups).Some?
    ensures ToSextets(ToBytes(groups).value) == groups[..4] + ToSextets(rest)
  {
    FourSextets(groups[0], groups[1], groups[2], groups[3]);
    assert groups[..4] == [groups[0], groups[1], groups[2], groups[3]];
    assert ToBytes(groups).value[3..] == rest;
  }

  lemma LastThree(v: sextet, w: sextet, x: sextet)
    ensures ToSextets(ToBytes([v, w, x]).value) == [v, w, x] <==> x % 4 == 0
  {
    FourSextets(v, w, x, 0);
  }

  lemma LastTwo(v: sextet, w: sextet)
    ensures ToSextets(ToBytes([v, w]).value) == [v, w] <==> w % 16 == 0
  {
    FourSextets(v, w, 0, 0);
  }

  lemma SamePrefix<T>(a: seq<T>, b: seq<T>, c: seq<T>)
    ensures a + b == a + c <==> b == c
  {
    if a + b == a + c {
      assert b == (a + b)[|a|..] == (a + c)[|a|..] == c;
    }
  }

  /** Encoding undoes decoding exactly if the bits that were dropped are zero. */
  predicate IsInverse(groups: seq<sextet>) {
    && (ToBytes(groups).None? <==> |groups| % 4 == 1)
    && (ToBytes(groups).Some? ==> (ToSextets(ToBytes(groups).value) == groups <==> ZeroTail(groups)))
  }

  lemma FourMore(groups: seq<sextet>)
    requires |groups| >= 4 && IsInverse(groups[4..])
    ensures IsInverse(groups)
  {
    var last := groups[4..];
    assert |groups| % 4 == |last| % 4;
    assert ZeroTail(groups) <==> ZeroTail(last);
    if ToBytes(last).Some? {
      FirstFour(groups, ToBytes(last).value);
      SamePrefix(groups[..4], ToSextets(ToBytes(last).value), last);
      assert groups == groups[..4] + last;
    }
  }

  lemma {:induction false} ToSextetsOfToBytes(groups: seq<sextet>)
    ensures IsInverse(groups)
  {
    if |groups| >= 4 {
      ToSextetsOfToBytes(groups[4..]);
      FourMore(groups);
    } else if |groups| == 3 {
      LastThree(groups[0], groups[1], groups[2]);
      assert groups == [groups[0], groups[1], groups[2]];
    } else if |groups| == 2 {
      LastTwo(groups[0], groups[1]);
      assert groups == [groups[0], groups[1]];
    }
  }

  // ----- The alphabet

  function CharOf(v: sextet): char {
    var n := v as int;
    if n < 26 then 'A' + n as char
    else if n < 52 then 'a' + (n - 26) as char
    else if n < 62 then '0' + (n - 52) as char
    else if n == 62 then '+' else '/'
  }

  function ValueOf(c: char): Option<sextet> {
    if 'A' <= c <= 'Z' then Some((c - 'A') as sextet)
    else if 'a' <= c <= 'z' then Some((c - 'a') as sextet + 26)
    else if '0' <= c <= '9' then Some((c - '0') as sextet + 52)
    else if c == '+' then Some(62)
    else if c == '/' then Some(63) else None
  }

  lemma Alphabet(v: sextet, c: char)
    ensures ValueOf(CharOf(v)) == Some(v)
    ensures ValueOf(c).Some? ==> CharOf(ValueOf(c).value) == c
    ensures CharOf(v) !in "$\r\n="
  {
  }

  function Chars(groups: seq<sextet>): (s: string)
    ensures |s| == |groups| && forall i :: 0 <= i < |s| ==> s[i] == CharOf(groups[i])
  {
    seq(|groups|, i requires 0 <= i < |groups| => CharOf(groups[i]))
  }

  predicate IsAlphabetic(s: string) {
    forall i :: 0 <= i < |s| ==> ValueOf(s[i]).Some?
  }

  function Values(s: string): (groups: seq<sextet>)
    requires IsAlphabetic(s)
    ensures |groups| == |s| && forall i :: 0 <= i < |s| ==> Some(groups[i]) == ValueOf(s[i])
  {
    seq(|s|, i requires 0 <= i < |s| => ValueOf(s[i]).value)
  }

  // ----- Strings

  /** The decoder skips line ends. */
  function WithoutLineEnds(s: string): string {
    if s == "" then ""
    else if s[0] == '\r' || s[0] == '\n' then WithoutLineEnds(s[1..])
    else [s[0]] + WithoutLineEnds(s[1..])
  }

  function Encode(bytes: seq<byte>): string {
    Chars(ToSextets(bytes))
  }

  function Decode(s: string): Option<seq<byte>> {
    var t := WithoutLineEnds(s);
    if IsAlphabetic(t) then ToBytes(Values(t)) else None
  }

  lemma {:induction false} NoLineEnds(s: string)
    ensures WithoutLineEnds(s) == s <==> '\r' !in s && '\n' !in s
    ensures |WithoutLineEnds(s)| <= |s|
  {
    if s != "" {
      NoLineEnds(s[1..]);
      assert s == [s[0]] + s[1..];
    }
  }

  /** The alphabet has no separator of the password hash string. */
  lemma EncodeAlphabet(bytes: seq<byte>)
    ensures IsAlphabetic(Encode(bytes)) && Values(Encode(bytes)) == ToSextets(bytes)
    ensures forall c :: c in Encode(bytes) ==> c !in "$\r\n="
  {
    forall i | 0 <= i < |ToSextets(bytes)|
      ensures ValueOf(Encode(bytes)[i]) == Some(ToSextets(bytes)[i]) && Encode(bytes)[i] !in "$\r\n="
    {
      Alphabet(ToSextets(bytes)[i], 'A');
    }
  }

  /** Decoding undoes encoding, for byte strings of any length. */
  lemma DecodeOfEncode(bytes: seq<byte>)
    ensures Decode(Encode(bytes)) == Some(bytes)
  {
    EncodeAlphabet(bytes);
    NoLineEnds(Encode(bytes));
    ToBytesOfToSextets(bytes);
  }

  /** What the decoder accepts, and which of the accepted strings are the encoding of what they decode to. */
  lemma EncodeOfDecode(s: string)
    ensures Decode(s).Some? <==> IsAlphabetic(WithoutLineEnds(s)) && |WithoutLineEnds(s)| % 4 != 1
    ensures Decode(s).Some? ==>
              (Encode(Decode(s).value) == s <==> '\r' !in s && '\n' !in s && IsAlphabetic(s) && ZeroTail(Values(s)))
  {
    var t := WithoutLineEnds(s);
    NoLineEnds(s);
    if IsAlphabetic(t) {
      ToSextetsOfToBytes(Values(t));
      if ToBytes(Values(t)).Some? {
        var bytes := ToBytes(Values(t)).value;
        EncodeAlphabet(bytes);
        if t == s && ZeroTail(Values(s)) {
          forall i | 0 <= i < |s| ensures Encode(bytes)[i] == s[i] {
            Alphabet(0, s[i]);
          }
        }
      }
    }
  }

  /** The test vectors of section 10 of RFC 4648, without padding, and the last two letters. */
  lemma TestVectors()
    ensures Encode([102]) == "Zg" && Encode([102, 111]) == "Zm8" && Encode([102, 111, 111]) == "Zm9v"
    ensures Encode([102, 111, 111, 98]) == "Zm9vYg" && Encode([102, 111, 111, 98, 97, 114]) == "Zm9vYmFy"
    ensures Encode([251, 239, 190]) == "++++" && Encode([255, 255, 255]) == "////"
  {
    assert ToSextets([102]) == [25, 32] && ToSextets([102, 111]) == [25, 38, 60];
    assert [102, 111, 111, 98][3..] == [98] && [102, 111, 111, 98, 97, 114][3..] == [98, 97, 114];
    assert ToSextets([98]) == [24, 32] && ToSextets([98, 97, 114]) == [24, 38, 5, 50];
  }
}
