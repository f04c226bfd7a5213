/** The stored form of local passwords (core/local_auth.go). The key derivation argon2.IDKey is an
    arbitrary function of password, salt, parameters and key length. */
module PasswordHash {
  import opened Text
  import opened Base64

  const MEMORY_KB := 65536
  const TIME := 3
  const THREADS := 4
  const KEY_LEN := 32
  const SALT_LEN := 16
  const MAX_UINT32 := 0xFFFF_FFFF

  datatype Params = Params(memory: nat, time: nat, threads: nat)

  const ZERO_PARAMS := Params(0, 0, 0)
  const HASH_PARAMS := Params(MEMORY_KB, TIME, THREADS)

  datatype ParamError =
    | InvalidParameter(part: string)
    | DuplicateParameter(key: string)
    | BadNumber(part: string)
    | TooManyThreads(n: nat)
    | UnknownParameter(key: string)
    | MissingParameters
    | UnsupportedParameters(params: Params)

  datatype HashError =
    | InvalidFormat
    | BadParameters(error: ParamError)
    | BadSalt
    | BadDigest
    | SaltLength(n: nat)
    | DigestLength(n: nat)

  datatype Hash = Hash(params: Params, salt: seq<byte>, digest: seq<byte>)

  // ----- The parameters

  function Checked(p: Params): Result<Params, ParamError> {
    if p.memory == 0 || p.time == 0 || p.threads == 0 then Err(MissingParameters)
    else if p != HASH_PARAMS then Err(UnsupportedParameters(p))
    else Ok(p)
  }

  function Assign(p: Params, part: string, seen: set<string>): Result<(Params, set<string>), ParamError> {
    match Cut(part, '=')
    case None => Err(InvalidParameter(part))
    case Some((k, v)) =>
      if k in seen then Err(DuplicateParameter(k))
      else
        match ParseUint(v, MAX_UINT32)
        case None => Err(BadNumber(part))
        case Some(n) =>
          if k == "m" then Ok((p.(memory := n), seen + {k}))
          else if k == "t" then Ok((p.(time := n), seen + {k}))
          else if k == "p" then if n > 255 then Err(TooManyThreads(n)) else Ok((p.(threads := n), seen + {k}))
          else Err(UnknownParameter(k))
  }

  function ParseParts(parts: seq<string>, p: Params, seen: set<string>): Result<Params, ParamError> {
    if parts == [] then Checked(p)
    else
      match Assign(p, parts[0], seen)
      case Err(e) => Err(e)
      case Ok((p', seen')) => ParseParts(parts[1..], p', seen')
  }

  function ParseParams(encoded: string): Result<Params, ParamError> {
    ParseParts(Split(encoded, ','), ZERO_PARAMS, {})
  }

  method ParseArgonParams(encoded: string) returns (r: Result<Params, ParamError>)
    ensures r == ParseParams(encoded)
  {
    var p := ZERO_PARAMS;
    var seen: set<string> := {};
    var parts := Split(encoded, ',');
    for i := 0 to |parts|
      invariant ParseParts(parts, ZERO_PARAMS, {}) == ParseParts(parts[i..], p, seen)
    {
      var part := parts[i];
      assert parts[i..][0] == part && parts[i..][1..] == parts[i + 1..];
      var cut := Cut(part, '=');
      if cut.None? {
        return Err(InvalidParameter(part));
      }
      var (k, v) := cut.value;
      if k in seen {
        return Err(DuplicateParameter(k));
      }
      var n := ParseUint(v, MAX_UINT32);
      if n.None? {
        return Err(BadNumber(part));
      }
      match k {
        case "m" => p := p.(memory := n.value);
        case "t" => p := p.(time := n.value);
        case "p" =>
          if n.value > 255 {
            return Err(TooManyThreads(n.value));
          }
          p := p.(threads := n.value);
        case _ => return Err(UnknownParameter(k));
      }
      seen := seen + {k};
    }
    if p.memory == 0 || p.time == 0 || p.threads == 0 {
      return Err(MissingParameters);
    }
    if p.memory != MEMORY_KB || p.time != TIME || p.threads != THREADS {
      return Err(UnsupportedParameters(p));
    }
    r := Ok(p);
  }

  // ----- Which parameter strings are accepted

  const KEYS := {"m", "t", "p"}

  function Supported(k: string): nat {
    if k == "m" then MEMORY_KB else if k == "t" then TIME else THREADS
  }

  function Get(p: Params, k: string): nat {
    if k == "m" then p.memory else if k == "t" then p.time else p.threads
  }

  /** The key of a part that assigns a supported value. */
  function GoodKey(part: string): Option<string> {
    match Cut(part, '=')
    case None => None
    case Some((k, v)) => if k in KEYS && ParseUint(v, MAX_UINT32) == Some(Supported(k)) then Some(k) else None
  }

  /** Every part assigns a supported value to a key that was not seen before, and no key stays unseen. */
  ghost predicate AreGood(parts: seq<string>, seen: set<string>) {
    if parts == [] then seen == KEYS
    else
      && GoodKey(parts[0]).Some? && GoodKey(parts[0]).value !in seen
      && AreGood(parts[1..], seen + {GoodKey(parts[0]).value})
  }

  predicate Tracks(p: Params, seen: set<string>) {
    && seen <= KEYS
    && forall k :: k in KEYS && k !in seen ==> Get(p, k) == 0
  }

  /** An unsupported value, once assigned, stays and makes the string unsupported. */
  lemma {:induction false} WrongValueStays(parts: seq<string>, p: Params, seen: set<string>, k: string)
    requires k in seen && k in KEYS && Get(p, k) != Supported(k)
    ensures ParseParts(parts, p, seen).Err?
  {
    if parts != [] {
      match Assign(p, parts[0], seen)
      case Err(_) =>
      case Ok((p', seen')) => WrongValueStays(parts[1..], p', seen', k);
    }
  }

  lemma {:induction false} PartsAccepted(parts: seq<string>, p: Params, seen: set<string>)
    requires Tracks(p, seen) && forall k :: k in seen ==> Get(p, k) == Supported(k)
    ensures ParseParts(parts, p, seen) == Ok(HASH_PARAMS) <==> AreGood(parts, seen)
    ensures ParseParts(parts, p, seen).Ok? ==> ParseParts(parts, p, seen) == Ok(HASH_PARAMS)
  {
    if parts == [] {
      assert p == HASH_PARAMS ==> forall k :: k in KEYS ==> Get(p, k) != 0;
      if seen == KEYS {
        assert "m" in KEYS && "t" in KEYS && "p" in KEYS;
      }
    } else {
      match Assign(p, parts[0], seen)
      case Err(_) =>
      case Ok((p', seen')) =>
        var (k, v) := Cut(parts[0], '=').value;
        if Get(p', k) == Supported(k) {
          PartsAccepted(parts[1..], p', seen');
        } else {
          WrongValueStays(parts[1..], p', seen', k);
        }
    }
  }

  /** The parameter string is accepted exactly if it assigns each of m, t and p once, with the one
      supported value each; the order is free. */
  lemma ParamsAccepted(encoded: string)
    ensures ParseParams(encoded).Ok? <==> AreGood(Split(encoded, ','), {})
    ensures ParseParams(encoded).Ok? ==> ParseParams(encoded).value == HASH_PARAMS
  {
    PartsAccepted(Split(encoded, ','), ZERO_PARAMS, {});
  }

  lemma {:induction false} GoodPartsAreThree(parts: seq<string>, seen: set<string>)
    requires AreGood(parts, seen) && seen <= KEYS
    ensures |parts| + |seen| == 3
  {
    if parts != [] {
      GoodPartsAreThree(parts[1..], seen + {GoodKey(parts[0]).value});
    }
  }

  // ----- The hash string

  function HashString(salt: seq<byte>, digest: seq<byte>): string {
    "argon2id$v=1$m=65536,t=3,p=4$" + Encode(salt) + "$" + Encode(digest)
  }

  function ParsePasswordHash(encoded: string): Result<Hash, HashError> {
    var parts := Split(encoded, '$');
    if |parts| != 5 || parts[0] != "argon2id" || parts[1] != "v=1" then Err(InvalidFormat)
    else
      match ParseParams(parts[2])
      case Err(e) => Err(BadParameters(e))
      case Ok(params) =>
        match Decode(parts[3])
        case None => Err(BadSalt)
        case Some(salt) =>
          match Decode(parts[4])
          case None => Err(BadDigest)
          case Some(digest) =>
            if |salt| != SALT_LEN then Err(SaltLength(|salt|))
            else if |digest| != KEY_LEN then Err(DigestLength(|digest|))
            else Ok(Hash(params, salt, digest))
  }

  lemma Assignment(part: string, k: string, v: string, n: nat)
    requires |k| == 1 && k[0] != '=' && part == k + "=" + v && v == FormatNat(n) && k in KEYS && n == Supported(k)
    ensures GoodKey(part) == Some(k)
  {
    assert part[0] == k[0] && part[1..] == "=" + v && part[1..][0] == '=' && part[1..][1..] == v;
    assert Cut(part[1..], '=') == Some(("", v));
    assert [k[0]] + "" == k;
    ParseUintOfFormat(n, MAX_UINT32);
  }

  lemma WrittenNumbers()
    ensures "65536" == FormatNat(65536) && "3" == FormatNat(3) && "4" == FormatNat(4)
  {
    assert FormatNat(6) == "6";
    assert FormatNat(65) == "65";
    assert FormatNat(655) == "655";
    assert FormatNat(6553) == "6553";
  }

  lemma SplitThree(a: string, b: string, c: string, sep: char)
    requires sep !in a && sep !in b && sep !in c
    ensures Split(a + [sep] + (b + [sep] + c), sep) == [a, b, c]
  {
    SplitFirst(a, b + [sep] + c, sep);
    SplitFirst(b, c, sep);
    SplitFirst(c, "", sep);
  }

  lemma WrittenParts(written: string, a: string, b: string, c: string)
    requires written == "m=65536,t=3,p=4" && a == "m=65536" && b == "t=3" && c == "p=4"
    ensures Split(written, ',') == [a, b, c] && '$' !in written
  {
    SplitThree(a, b, c, ',');
    assert written == a + [','] + (b + [','] + c);
  }

  lemma WrittenKeys(a: string, b: string, c: string)
    requires a == "m=65536" && b == "t=3" && c == "p=4"
    ensures GoodKey(a) == Some("m") && GoodKey(b) == Some("t") && GoodKey(c) == Some("p")
  {
    WrittenNumbers();
    Assignment(a, "m", "65536", 65536);
    Assignment(b, "t", "3", 3);
    Assignment(c, "p", "4", 4);
  }

  lemma WrittenParamsAreGood(written: string)
    requires written == "m=65536,t=3,p=4"
    ensures ParseParams(written) == Ok(HASH_PARAMS) && '$' !in written
  {
    var a, b, c :| a == "m=65536" && b == "t=3" && c == "p=4";
    WrittenParts(written, a, b, c);
    WrittenKeys(a, b, c);
    GoodOrder(a, b, c);
    ParamsAccepted(written);
  }

  lemma GoodOrder(a: string, b: string, c: string)
    requires GoodKey(a) == Some("m") && GoodKey(b) == Some("t") && GoodKey(c) == Some("p")
    ensures AreGood([a, b, c], {})
  {
    assert [a, b, c][1..] == [b, c] && [b, c][1..] == [c];
    assert {} + {"m"} + {"t"} + {"p"} == KEYS;
    assert AreGood([c], {} + {"m"} + {"t"});
    assert AreGood([b, c], {} + {"m"});
  }

  function Five(a: string, b: string, c: string, d: string, e: string): string {
    a + ['$'] + (b + ['$'] + (c + ['$'] + (d + ['$'] + e)))
  }

  lemma SplitFive(a: string, b: string, c: string, d: string, e: string)
    requires '$' !in a && '$' !in b && '$' !in c && '$' !in d && '$' !in e
    ensures Split(Five(a, b, c, d, e), '$') == [a, b, c, d, e]
  {
    SplitFirst(a, b + ['$'] + (c + ['$'] + (d + ['$'] + e)), '$');
    SplitFirst(b, c + ['$'] + (d + ['$'] + e), '$');
    SplitThree(c, d, e, '$');
  }

  lemma HashStringParts(salt: seq<byte>, digest: seq<byte>)
    ensures HashString(salt, digest) == Five("argon2id", "v=1", "m=65536,t=3,p=4", Encode(salt), Encode(digest))
  {
    var rest := Encode(salt) + ['$'] + Encode(digest);
    assert "argon2id$v=1$m=65536,t=3,p=4$" == "argon2id" + ['$'] + ("v=1" + ['$'] + ("m=65536,t=3,p=4" + ['$']));
    Regroup("argon2id" + ['$'], "v=1" + ['$'], "m=65536,t=3,p=4" + ['$'], rest);
    assert HashString(salt, digest) == "argon2id$v=1$m=65536,t=3,p=4$" + rest;
  }

  lemma Regroup(a: string, b: string, c: string, d: string)
    ensures a + (b + c) + d == a + (b + (c + d))
  {
  }

  lemma ParsedParts(encoded: string, written: string, salt: seq<byte>, digest: seq<byte>)
    requires Split(encoded, '$') == ["argon2id", "v=1", written, Encode(salt), Encode(digest)]
    requires ParseParams(written) == Ok(HASH_PARAMS) && |salt| == SALT_LEN && |digest| == KEY_LEN
    ensures ParsePasswordHash(encoded) == Ok(Hash(HASH_PARAMS, salt, digest))
  {
    DecodeOfEncode(salt);
    DecodeOfEncode(digest);
  }

  lemma HashStringSplits(written: string, salt: seq<byte>, digest: seq<byte>)
    requires written == "m=65536,t=3,p=4" && '$' !in written
    ensures Split(HashString(salt, digest), '$') == ["argon2id", "v=1", written, Encode(salt), Encode(digest)]
  {
    EncodeAlphabet(salt);
    EncodeAlphabet(digest);
    SplitFive("argon2id", "v=1", written, Encode(salt), Encode(digest));
    HashStringParts(salt, digest);
  }

  /** Parsing the written form gives back parameters, salt and digest; so the form is unambiguous. */
  lemma ParseOfHashString(salt: seq<byte>, digest: seq<byte>)
    requires |salt| == SALT_LEN && |digest| == KEY_LEN
    ensures ParsePasswordHash(HashString(salt, digest)) == Ok(Hash(HASH_PARAMS, salt, digest))
  {
    var written :| written == "m=65536,t=3,p=4";
    WrittenParamsAreGood(written);
    HashStringSplits(written, salt, digest);
    ParsedParts(HashString(salt, digest), written, salt, digest);
  }

  /** Five parts: the algorithm and its version, one supported value for each parameter, salt and digest. */
  ghost predicate IsStoredHash(parts: seq<string>) {
    && |parts| == 5 && parts[0] == "argon2id" && parts[1] == "v=1" && AreGood(Split(parts[2], ','), {})
    && Decode(parts[3]).Some? && |Decode(parts[3]).value| == 16
    && Decode(parts[4]).Some? && |Decode(parts[4]).value| == 32
  }

  /** Whatever is accepted has the one supported parameter set and the two fixed lengths. */
  lemma AcceptedHash(encoded: string)
    ensures ParsePasswordHash(encoded).Ok? <==> IsStoredHash(Split(encoded, '$'))
    ensures ParsePasswordHash(encoded).Ok? ==>
              var parts, hash := Split(encoded, '$'), ParsePasswordHash(encoded).value;
              && hash.params == Params(65536, 3, 4)
              && hash.salt == Decode(parts[3]).value && hash.digest == Decode(parts[4]).value
  {
    var parts := Split(encoded, '$');
    if |parts| == 5 {
      ParamsAccepted(parts[2]);
    }
  }

  // ----- Hashing and verifying

  type KeyFunction = (seq<byte>, seq<byte>, Params, nat) -> seq<byte>

  /** argon2.IDKey returns as many bytes as it is asked for. */
  ghost predicate IsKeyFunction(kdf: KeyFunction) {
    forall password, salt, params, n :: |kdf(password, salt, params, n)| == n
  }

  /** `salt` is what the random source delivered. */
  function HashPassword(password: seq<byte>, salt: seq<byte>, kdf: KeyFunction): string {
    HashString(salt, kdf(password, salt, HASH_PARAMS, KEY_LEN))
  }

  function VerifyPassword(encoded: string, password: seq<byte>, kdf: KeyFunction): Result<bool, HashError> {
    match ParsePasswordHash(encoded)
    case Err(e) => Err(e)
    case Ok(hash) => Ok(kdf(password, hash.salt, hash.params, |hash.digest|) == hash.digest)
  }

  /** A password is accepted exactly by a well-formed stored hash whose digest is its key under the stored salt,
      and a malformed one is an error for every password. */
  lemma VerifiesIff(encoded: string, password: seq<byte>, kdf: KeyFunction)
    ensures VerifyPassword(encoded, password, kdf) == Ok(true) <==>
              var parts := Split(encoded, '$');
              && IsStoredHash(parts)
              && kdf(password, Decode(parts[3]).value, Params(65536, 3, 4), 32) == Decode(parts[4]).value
    ensures VerifyPassword(encoded, password, kdf).Err? <==> !IsStoredHash(Split(encoded, '$'))
  {
    AcceptedHash(encoded);
  }

  /** A stored password is accepted, and another one exactly if it has the same key under the stored salt. */
  lemma StoredPasswordIsAccepted(password: seq<byte>, other: seq<byte>, salt: seq<byte>, kdf: KeyFunction)
    requires IsKeyFunction(kdf) && |salt| == SALT_LEN
    ensures VerifyPassword(HashPassword(password, salt, kdf), password, kdf) == Ok(true)
    ensures VerifyPassword(HashPassword(password, salt, kdf), other, kdf)
            == Ok(kdf(other, salt, HASH_PARAMS, KEY_LEN) == kdf(password, salt, HASH_PARAMS, KEY_LEN))
  {
    ParseOfHashString(salt, kdf(password, salt, HASH_PARAMS, KEY_LEN));
  }
}
