/** Ids for added models: slugs, their validation and the search for a free one (cli/cmd_model.go). */
module ModelIds {
  import opened Text
  import opened WizardModels

  // ----- Slugs

  predicate IsAlnum(c: char) { 'a' <= c <= 'z' || '0' <= c <= '9' }

  predicate IsKept(c: char) { IsAlnum(c) || c == '.' }

  predicate IsDashOrDot(c: char) { c == '-' || c == '.' }

  /** unicode.ToLower leaves the characters of a slug alone. */
  ghost predicate IsLower(lower: char -> char) {
    forall c :: IsKept(c) || c == '-' ==> lower(c) == c
  }

  function Map(s: string, f: char -> char): string {
    seq(|s|, i requires 0 <= i < |s| => f(s[i]))
  }

  predicate EndsInDash(s: string) { s != "" && s[|s| - 1] == '-' }

  /** Runs of other characters become one dash, except at the start. */
  function Dashed(s: string): string {
    if s == "" then ""
    else
      var out, c := Dashed(s[..|s| - 1]), s[|s| - 1];
      if IsKept(c) then out + [c]
      else if out != "" && !EndsInDash(out) then out + "-" else out
  }

  function Slug(s: string, lower: char -> char): string {
    Trim(Dashed(Map(TrimSpace(s), lower)), IsDashOrDot)
  }

  /** Slugs consist of kept characters and single dashes and neither start nor end with a dash or dot. */
  predicate IsSlug(s: string) {
    && (forall i :: 0 <= i < |s| ==> IsKept(s[i]) || s[i] == '-')
    && (forall i :: 0 < i < |s| ==> s[i - 1] != '-' || s[i] != '-')
    && (s != "" ==> !IsDashOrDot(s[0]) && !IsDashOrDot(s[|s| - 1]))
  }

  predicate IsDashed(s: string) {
    && (forall i :: 0 <= i < |s| ==> IsKept(s[i]) || s[i] == '-')
    && (forall i :: 0 < i < |s| ==> s[i - 1] != '-' || s[i] != '-')
    && (s != "" ==> s[0] != '-')
  }

  lemma {:induction false} DashedIsDashed(s: string)
    ensures IsDashed(Dashed(s))
  {
    if s != "" {
      DashedIsDashed(s[..|s| - 1]);
    }
  }

  lemma {:induction false} DashedFixed(s: string)
    requires IsDashed(s)
    ensures Dashed(s) == s
  {
    if s != "" {
      var front := s[..|s| - 1];
      DashedFixed(front);
      assert s == front + [s[|s| - 1]];
      if |s| > 1 {
        assert front[|front| - 1] == s[|s| - 2];
      }
    }
  }

  /** The slug of anything is a slug, and a slug is its own slug; so slugs are exactly the fixed points. */
  lemma SlugIsASlug(s: string, lower: char -> char)
    ensures IsSlug(Slug(s, lower))
  {
    var t := Dashed(Map(TrimSpace(s), lower));
    DashedIsDashed(Map(TrimSpace(s), lower));
    var lo, hi := TrimMeaning(t, IsDashOrDot);
  }

  lemma SlugFixed(s: string, lower: char -> char)
    requires IsLower(lower)
    ensures Slug(s, lower) == s <==> IsSlug(s)
  {
    SlugIsASlug(s, lower);
    if IsSlug(s) {
      assert s != "" ==> IsAlnum(s[0]) && IsAlnum(s[|s| - 1]);
      TrimFixed(s, IsSpace);
      assert Map(s, lower) == s;
      DashedFixed(s);
      TrimFixed(s, IsDashOrDot);
    }
  }

  lemma SlugIsIdempotent(s: string, lower: char -> char)
    requires IsLower(lower)
    ensures Slug(Slug(s, lower), lower) == Slug(s, lower)
  {
    SlugIsASlug(s, lower);
    SlugFixed(Slug(s, lower), lower);
  }

  function Letters(s: string): string {
    if s == "" then ""
    else
      var c := s[|s| - 1];
      Letters(s[..|s| - 1]) + if IsAlnum(c) then [c] else ""
  }

  lemma {:induction false} LettersAppend(s: string, t: string)
    ensures Letters(s + t) == Letters(s) + Letters(t)
  {
    if t == "" {
      assert s + t == s;
    } else {
      LettersAppend(s, t[..|t| - 1]);
      assert (s + t)[..|s + t| - 1] == s + t[..|t| - 1];
    }
  }

  lemma {:induction false} NoLetters(s: string)
    requires forall i :: 0 <= i < |s| ==> !IsAlnum(s[i])
    ensures Letters(s) == ""
  {
    if s != "" {
      NoLetters(s[..|s| - 1]);
    }
  }

  lemma {:induction false} LettersOfDashed(s: string)
    ensures Letters(Dashed(s)) == Letters(s)
  {
    if s != "" {
      LettersOfDashed(s[..|s| - 1]);
      var out, c := Dashed(s[..|s| - 1]), s[|s| - 1];
      assert (out + [c])[..|out|] == out && (out + "-")[..|out|] == out;
    }
  }

  lemma LettersBetween(left: string, s: string, right: string)
    requires (forall i :: 0 <= i < |left| ==> !IsAlnum(left[i]))
             && (forall i :: 0 <= i < |right| ==> !IsAlnum(right[i]))
    ensures Letters(left + s + right) == Letters(s)
  {
    NoLetters(left);
    NoLetters(right);
    LettersAppend(left, s);
    LettersAppend(left + s, right);
  }

  lemma InThree(t: string, lo: nat, hi: nat)
    requires lo <= hi <= |t|
    ensures t[..lo] + t[lo..hi] + t[hi..] == t
  {
  }

  lemma TrimKeepsLetters(t: string)
    ensures Letters(Trim(t, IsDashOrDot)) == Letters(t)
  {
    var lo, hi := TrimMeaning(t, IsDashOrDot);
    LettersBetween(t[..lo], t[lo..hi], t[hi..]);
    InThree(t, lo, hi);
  }

  /** A slug keeps every letter and digit of the lowered text, in order. */
  lemma SlugKeepsLetters(s: string, lower: char -> char)
    ensures Letters(Slug(s, lower)) == Letters(Map(TrimSpace(s), lower))
  {
    LettersOfDashed(Map(TrimSpace(s), lower));
    TrimKeepsLetters(Dashed(Map(TrimSpace(s), lower)));
  }

  /** Text that starts with a kept character is appended as it is. */
  lemma {:induction false} DashedAppend(s: string, t: string)
    requires t != "" && IsKept(t[0])
    ensures Dashed(s + t) == Dashed(s) + Dashed(t) && Dashed(t) != "" && Dashed(t)[0] == t[0]
  {
    var n := |t| - 1;
    assert (s + t)[..|s + t| - 1] == s + t[..n];
    if n > 0 {
      DashedAppend(s, t[..n]);
      var out := Dashed(t[..n]);
      assert (Dashed(s) + out)[|Dashed(s) + out| - 1] == out[|out| - 1];
    } else {
      assert t[..n] == "" && s + t[..n] == s;
    }
  }

  /** A run of other characters behind a kept one becomes a single dash. */
  lemma {:induction false} DashedGap(s: string, gap: string)
    requires s != "" && IsKept(s[|s| - 1]) && gap != "" && forall i :: 0 <= i < |gap| ==> !IsKept(gap[i])
    ensures Dashed(s + gap) == Dashed(s) + "-"
  {
    var n := |gap| - 1;
    assert (s + gap)[..|s + gap| - 1] == s + gap[..n];
    if n > 0 {
      DashedGap(s, gap[..n]);
    } else {
      assert s + gap[..n] == s;
    }
  }

  predicate IsWord(s: string, lower: char -> char) {
    && s != "" && !IsSpace(s[0]) && !IsSpace(s[|s| - 1])
    && IsAlnum(lower(s[0])) && IsAlnum(lower(s[|s| - 1]))
  }

  lemma SlugOfWord(s: string, lower: char -> char)
    requires IsWord(s, lower)
    ensures Slug(s, lower) == Dashed(Map(s, lower))
    ensures var d := Dashed(Map(s, lower)); d != "" && !IsDashOrDot(d[0]) && !IsDashOrDot(d[|d| - 1])
  {
    TrimFixed(s, IsSpace);
    DashedAppend("", Map(s, lower));
    TrimFixed(Dashed(Map(s, lower)), IsDashOrDot);
  }

  /** Words that are set apart by any run of other characters are set apart by one dash in the slug. */
  lemma SlugOfTwoWords(s: string, gap: string, t: string, lower: char -> char)
    requires IsWord(s, lower) && IsWord(t, lower) && gap != ""
    requires forall i :: 0 <= i < |gap| ==> !IsKept(lower(gap[i]))
    ensures Slug(s + gap + t, lower) == Slug(s, lower) + "-" + Slug(t, lower)
  {
    var a, b, c := Map(s, lower), Map(gap, lower), Map(t, lower);
    assert Map(s + gap + t, lower) == a + b + c;
    SlugOfWord(s, lower);
    SlugOfWord(t, lower);
    assert IsWord(s + gap + t, lower);
    SlugOfWord(s + gap + t, lower);
    DashedGap(a, b);
    DashedAppend(a + b, c);
  }

  method SlugModelAddID(s: string, lower: char -> char) returns (slug: string)
    ensures slug == Slug(s, lower)
  {
    var t := Map(TrimSpace(s), lower);
    var b, prevDash := "", false;
    for k := 0 to |t|
      invariant b == Dashed(t[..k]) && prevDash == EndsInDash(b)
    {
      var r := t[k];
      assert t[..k + 1][..k] == t[..k];
      if IsKept(r) {
        b := b + [r];
        prevDash := false;
      } else if !prevDash && |b| > 0 {
        b := b + "-";
        prevDash := true;
      }
    }
    assert t[..|t|] == t;
    slug := Trim(b, IsDashOrDot);
  }

  // ----- Validation

  datatype IdError = IdRequired | IdReserved | IdInvalidCharacter(c: char)

  predicate IsIdCharacter(c: char) { IsAlnum(c) || c == '-' || c == '_' || c == '.' }

  method ValidateModelAddID(id: string) returns (err: Option<IdError>)
    ensures err.None? <==> IsValidId(id)
    ensures err == Some(IdRequired) <==> id == ""
    ensures err == Some(IdReserved) <==> id == "main"
    ensures err.Some? && err.value.IdInvalidCharacter? ==> err.value.c in id && !IsIdCharacter(err.value.c)
  {
    if id == "" {
      return Some(IdRequired);
    }
    if id == "main" {
      return Some(IdReserved);
    }
    for k := 0 to |id|
      invariant forall i :: 0 <= i < k ==> IsIdCharacter(id[i])
    {
      if IsIdCharacter(id[k]) {
        continue;
      }
      return Some(IdInvalidCharacter(id[k]));
    }
    err := None;
  }

  predicate IsValidId(id: string) {
    id != "" && id != "main" && forall i :: 0 <= i < |id| ==> IsIdCharacter(id[i])
  }

  lemma SlugIsValid(s: string, lower: char -> char)
    ensures IsValidId(Slug(s, lower)) <==> Slug(s, lower) != "" && Slug(s, lower) != "main"
  {
    SlugIsASlug(s, lower);
  }

  // ----- The search for a free id

  datatype Config = Config(llmModels: seq<ModelConfig>, models: seq<ModelConfig>)

  function UsedIds(cfg: Option<Config>): seq<string> {
    match cfg
    case None => []
    case Some(c) => Ids(c.llmModels) + Ids(c.models)
  }

  /** FindModel: the first match among the account's models, else among the top-level ones. */
  method FindModel(cfg: Config, name: string) returns (found: Option<ModelConfig>)
    ensures found == if First(cfg.llmModels, name).Some? then First(cfg.llmModels, name) else First(cfg.models, name)
    ensures found.Some? <==> name in UsedIds(Some(cfg))
  {
    FirstIsThere(cfg.llmModels, name);
    FirstIsThere(cfg.models, name);
    found := FindIn(cfg.llmModels, name);
    if found.None? {
      found := FindIn(cfg.models, name);
    }
  }

  method FindIn(models: seq<ModelConfig>, name: string) returns (found: Option<ModelConfig>)
    ensures found == First(models, name)
  {
    for i := 0 to |models|
      invariant First(models, name) == First(models[i..], name)
    {
      assert models[i..][1..] == models[i + 1..];
      if models[i].ModelID() == name {
        return Some(models[i]);
      }
    }
    found := None;
  }

  method ModelAddIDExists(cfg: Option<Config>, id: string) returns (taken: bool)
    ensures taken <==> id in UsedIds(cfg)
  {
    if cfg.None? {
      return false;
    }
    var found := FindModel(cfg.value, id);
    taken := found.Some?;
  }

  function BaseOrModel(base: string): string { if base == "" then "model" else base }

  /** base, base-2, base-3, ... */
  function Candidate(base: string, k: nat): string {
    if k == 0 then base else base + "-" + FormatNat(k + 1)
  }

  lemma CandidatesDiffer(base: string, i: nat, j: nat)
    requires Candidate(base, i) == Candidate(base, j)
    ensures i == j
  {
    if i > 0 && j > 0 {
      assert Candidate(base, i)[|base| + 1..] == FormatNat(i + 1);
      assert Candidate(base, j)[|base| + 1..] == FormatNat(j + 1);
      FormatNatInjective(i + 1, j + 1);
    }
  }

  lemma {:induction false} CandidateCount(base: string, n: nat) returns (candidates: set<string>)
    ensures |candidates| == n && forall x :: x in candidates <==> exists k: nat :: k < n && x == Candidate(base, k)
  {
    if n == 0 {
      candidates := {};
    } else {
      var fewer := CandidateCount(base, n - 1);
      candidates := fewer + {Candidate(base, n - 1)};
      forall k: nat | k < n - 1 ensures Candidate(base, k) != Candidate(base, n - 1) {
        if Candidate(base, k) == Candidate(base, n - 1) { CandidatesDiffer(base, k, n - 1); }
      }
    }
  }

  lemma {:induction false} SetOfSeq(s: seq<string>)
    ensures |set x | x in s| <= |s|
  {
    if s != [] {
      SetOfSeq(s[1..]);
      assert (set x | x in s) == {s[0]} + (set x | x in s[1..]);
    }
  }

  /** If the first `n` candidates are all taken, there are at least `n` ids. */
  lemma Pigeonhole(base: string, n: nat, used: seq<string>)
    requires forall k: nat :: k < n ==> Candidate(base, k) in used
    ensures n <= |used|
  {
    var candidates := CandidateCount(base, n);
    SetOfSeq(used);
    SubsetIsSmaller(candidates, set x | x in used);
  }

  method NextModelAddID(cfg: Option<Config>, base: string) returns (candidate: string, ghost k: nat)
    ensures candidate == Candidate(BaseOrModel(base), k) && candidate !in UsedIds(cfg)
    ensures candidate == (if base == "" then "model" else base) + if k == 0 then "" else "-" + FormatNat(k + 1)
    ensures k <= |UsedIds(cfg)|
    ensures forall j: nat :: j < k ==> Candidate(BaseOrModel(base), j) in UsedIds(cfg)
  {
    var b := BaseOrModel(base);
    candidate := b;
    assert b + "" == b;
    var i := 2;
    k := 0;
    Pigeonhole(b, 0, UsedIds(cfg));
    var taken := ModelAddIDExists(cfg, candidate);
    while taken
      invariant i == k + 2 && candidate == Candidate(b, k) && k <= |UsedIds(cfg)|
      invariant forall j: nat :: j < k ==> Candidate(b, j) in UsedIds(cfg)
      invariant taken <==> candidate in UsedIds(cfg)
      decreases |UsedIds(cfg)| - k
    {
      Pigeonhole(b, k + 1, UsedIds(cfg));
      candidate := b + "-" + FormatNat(i);
      i := i + 1;
      k := k + 1;
      taken := ModelAddIDExists(cfg, candidate);
    }
  }

  lemma CandidateCharacters(base: string, k: nat)
    requires forall i :: 0 <= i < |base| ==> IsIdCharacter(base[i])
    ensures forall i :: 0 <= i < |Candidate(base, k)| ==> IsIdCharacter(Candidate(base, k)[i])
    ensures k > 0 ==> '-' in Candidate(base, k)
  {
    if k > 0 {
      NumeralOfFormat(k + 1);
      var id := Candidate(base, k);
      assert id[|base|] == '-';
      forall i | 0 <= i < |id| ensures IsIdCharacter(id[i]) {
        if i < |base| { assert id[i] == base[i]; }
        else if i > |base| { assert id[i] == FormatNat(k + 1)[i - |base| - 1]; }
      }
    }
  }

  /** Every id found for a slug passes validation, except "main" itself when no model has it yet. */
  lemma FoundIdIsValid(s: string, lower: char -> char, k: nat)
    ensures IsValidId(Candidate(BaseOrModel(Slug(s, lower)), k)) <==> !(Slug(s, lower) == "main" && k == 0)
  {
    var base := BaseOrModel(Slug(s, lower));
    SlugIsASlug(s, lower);
    CandidateCharacters(base, k);
    assert '-' !in "main";
  }
}
