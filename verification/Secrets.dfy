/** The secrets store of an account (core/secrets.go): loading a file in any of its historic formats
    by a loop over a Go map, whose order is arbitrary, and the operations that change the store. */
module Secrets {
  import opened Text

  /** A parsed JSON value; numbers, booleans and arrays need no distinction. */
  datatype Json = Null | Str(s: string) | Obj(fields: map<string, Json>) | Other

  /** package id -> key -> value */
  type Store = map<string, map<string, string>>

  /** json.Unmarshal into a map[string]string: a null member becomes the empty string. */
  function AsNested(v: Json): Option<map<string, string>> {
    if v.Obj? && forall k :: k in v.fields ==> v.fields[k].Str? || v.fields[k].Null?
    then Some(map k | k in v.fields :: if v.fields[k].Str? then v.fields[k].s else "")
    else None
  }

  predicate IsFlat(k: string, v: Json) {
    v.Str? && v.s != "" && '/' in k
  }

  function Package(k: string): string
    requires '/' in k
  {
    Cut(k, '/').value.0
  }

  function Key(k: string): string
    requires '/' in k
  {
    Cut(k, '/').value.1
  }

  function Entries(data: Store, p: string): map<string, string> {
    if p in data then data[p] else map[]
  }

  /** One iteration of the loading loop. */
  function LoadEntry(data: Store, k: string, v: Json): Store {
    if AsNested(v).Some? then data[k := AsNested(v).value]
    else if IsFlat(k, v) then data[Package(k) := Entries(data, Package(k))[Key(k) := v.s]]
    else data
  }

  /** The whole loop, for the iteration order `order`. */
  function LoadInOrder(raw: map<string, Json>, order: seq<string>): Store
    requires forall k :: k in order ==> k in raw
  {
    if order == [] then map[]
    else
      var k := order[|order| - 1];
      LoadEntry(LoadInOrder(raw, order[..|order| - 1]), k, raw[k])
  }

  /** Go may iterate over a map in any order that visits each key once. */
  ghost predicate IsOrder(keys: set<string>, order: seq<string>) {
    && (forall i, j :: 0 <= i < j < |order| ==> order[i] != order[j])
    && (forall k :: k in order <==> k in keys)
  }

  lemma FlatName(j: string, p: string, k: string)
    requires '/' !in p
    ensures '/' in p + "/" + k && Package(p + "/" + k) == p && Key(p + "/" + k) == k
    ensures '/' in j && Package(j) == p && Key(j) == k ==> j == p + "/" + k
  {
    CutAt(p, k);
  }

  lemma {:induction false} CutAt(p: string, k: string)
    requires '/' !in p
    ensures Cut(p + "/" + k, '/') == Some((p, k))
  {
    if p == "" {
      assert p + "/" + k == "/" + k;
      assert ("/" + k)[1..] == k;
    } else {
      CutAt(p[1..], k);
      assert (p + "/" + k)[1..] == p[1..] + "/" + k;
      assert p == [p[0]] + p[1..];
    }
  }

  /** A flat entry "p/k" is the key `k` of package `p`, unless there is a nested package `p` too. */
  lemma {:induction false} FlatEntryLoads(raw: map<string, Json>, order: seq<string>, p: string, k: string, v: string)
    requires '/' !in p && v != "" && p + "/" + k in order && forall j :: j in order ==> j in raw
    requires raw[p + "/" + k] == Str(v) && (p in raw ==> AsNested(raw[p]).None?)
    ensures var data := LoadInOrder(raw, order);
            p in data && k in data[p] && data[p][k] == v
  {
    var front, last := order[..|order| - 1], order[|order| - 1];
    assert order == front + [last];
    FlatName(last, p, k);
    if p + "/" + k in front { FlatEntryLoads(raw, front, p, k, v); }
  }

  /** A nested package loads with its keys, where a null member counts as empty, if no flat entry adds to it. */
  lemma {:induction false} NestedEntryLoads(raw: map<string, Json>, order: seq<string>, p: string,
                                            fields: map<string, Json>)
    requires p in order && (forall j :: j in order ==> j in raw) && raw[p] == Obj(fields)
    requires forall k :: k in fields ==> fields[k].Str? || fields[k].Null?
    requires forall j :: j in raw && p + "/" <= j ==> !raw[j].Str? || raw[j].s == ""
    ensures var data := LoadInOrder(raw, order);
            && p in data && data[p].Keys == fields.Keys
            && forall k :: k in fields ==> data[p][k] == if fields[k].Str? then fields[k].s else ""
  {
    var front, last := order[..|order| - 1], order[|order| - 1];
    assert order == front + [last];
    if '/' in last { assert last == Package(last) + "/" + Key(last) && Package(last) + "/" <= last; }
    if p in front { NestedEntryLoads(raw, front, p, fields); }
  }

  /** Nothing else loads. */
  lemma {:induction false} LoadedPackageHasEntry(raw: map<string, Json>, order: seq<string>, p: string)
    requires (forall j :: j in order ==> j in raw) && p in LoadInOrder(raw, order)
    ensures (p in raw && raw[p].Obj?) || exists j :: j in raw && p + "/" <= j && raw[j].Str? && raw[j].s != ""
  {
    var front, last := order[..|order| - 1], order[|order| - 1];
    assert order == front + [last];
    if '/' in last { assert last == Package(last) + "/" + Key(last) && Package(last) + "/" <= last; }
    if p in LoadInOrder(raw, front) { LoadedPackageHasEntry(raw, front, p); }
  }

  // ----- When the order does not matter

  predicate NestedAt(raw: map<string, Json>, p: string) { p in raw && AsNested(raw[p]).Some? }

  /** A flat entry "p/key" stands beside a nested package "p" that does not already hold it. */
  predicate Clash(raw: map<string, Json>, k: string) {
    && k in raw && IsFlat(k, raw[k]) && NestedAt(raw, Package(k))
    && var nested := AsNested(raw[Package(k)]).value;
       !(Key(k) in nested && nested[Key(k)] == raw[k].s)
  }

  function FlatEntries(raw: map<string, Json>, seen: set<string>, p: string): map<string, string> {
    map k | k in seen && k in raw && IsFlat(k, raw[k]) && Package(k) == p :: Key(k) := raw[k].s
  }

  predicate HasPackage(raw: map<string, Json>, seen: set<string>, p: string) {
    || (p in seen && NestedAt(raw, p))
    || (exists k :: k in seen && k in raw && IsFlat(k, raw[k]) && Package(k) == p)
  }

  function PackageAt(k: string, v: Json): string {
    if IsFlat(k, v) then Package(k) else k
  }

  function Candidates(raw: map<string, Json>, seen: set<string>): set<string> {
    set k | k in seen && k in raw :: PackageAt(k, raw[k])
  }

  /** What the entries `seen` mean, whatever order they came in. */
  function Meaning(raw: map<string, Json>, seen: set<string>): Store {
    map p | p in Candidates(raw, seen) && HasPackage(raw, seen, p) ::
      if p in seen && NestedAt(raw, p) then AsNested(raw[p]).value else FlatEntries(raw, seen, p)
  }

  lemma MeaningAt(raw: map<string, Json>, seen: set<string>, p: string)
    ensures p in Meaning(raw, seen) <==> HasPackage(raw, seen, p)
    ensures p in Meaning(raw, seen) ==>
              Meaning(raw, seen)[p] ==
              if p in seen && NestedAt(raw, p) then AsNested(raw[p]).value else FlatEntries(raw, seen, p)
  {
    if p in seen && NestedAt(raw, p) {
      assert PackageAt(p, raw[p]) == p;
    } else if k :| k in seen && k in raw && IsFlat(k, raw[k]) && Package(k) == p {
      assert PackageAt(k, raw[k]) == p;
    }
  }

  lemma FlatStep(raw: map<string, Json>, before: set<string>, k: string, p: string)
    requires k in raw && k !in before
    ensures FlatEntries(raw, before + {k}, p) ==
            if IsFlat(k, raw[k]) && Package(k) == p then FlatEntries(raw, before, p)[Key(k) := raw[k].s]
            else FlatEntries(raw, before, p)
  {
  }

  lemma PackageStep(raw: map<string, Json>, before: set<string>, k: string, p: string)
    requires k in raw
    ensures HasPackage(raw, before + {k}, p) <==>
              HasPackage(raw, before, p) || (p == k && NestedAt(raw, k)) || (IsFlat(k, raw[k]) && p == Package(k))
  {
    assert k in before + {k};
    if j :| j in before + {k} && j in raw && IsFlat(j, raw[j]) && Package(j) == p {
      assert j == k || HasPackage(raw, before, p);
    }
  }

  /** `data` and `after` agree at the package `p`. */
  predicate SameAt(data: Store, after: Store, p: string) {
    (p in data <==> p in after) && (p in data ==> data[p] == after[p])
  }

  lemma SameStores(data: Store, after: Store)
    requires forall p :: SameAt(data, after, p)
    ensures data == after
  {
    assert forall p :: p in data ==> SameAt(data, after, p);
    assert forall p :: p in after ==> SameAt(data, after, p);
  }

  lemma FlatMeaningStep(raw: map<string, Json>, before: set<string>, k: string, p: string)
    requires k in raw && k !in before && !Clash(raw, k) && IsFlat(k, raw[k]) && p == Package(k)
    ensures SameAt(LoadEntry(Meaning(raw, before), k, raw[k]), Meaning(raw, before + {k}), p)
  {
    MeaningAt(raw, before, p);
    MeaningAt(raw, before + {k}, p);
    PackageStep(raw, before, k, p);
    FlatStep(raw, before, k, p);
    if !HasPackage(raw, before, p) {
      assert FlatEntries(raw, before, p) == map[];
    }
  }

  lemma OtherMeaningStep(raw: map<string, Json>, before: set<string>, k: string, p: string)
    requires k in raw && k !in before && !(IsFlat(k, raw[k]) && p == Package(k))
    ensures SameAt(LoadEntry(Meaning(raw, before), k, raw[k]), Meaning(raw, before + {k}), p)
  {
    MeaningAt(raw, before, p);
    MeaningAt(raw, before + {k}, p);
    PackageStep(raw, before, k, p);
    FlatStep(raw, before, k, p);
  }

  lemma {:induction false} LoadMeaning(raw: map<string, Json>, order: seq<string>, seen: set<string>)
    requires IsOrder(seen, order) && seen <= raw.Keys
    requires forall k :: !Clash(raw, k)
    ensures LoadInOrder(raw, order) == Meaning(raw, seen)
  {
    if order != [] {
      var n := |order| - 1;
      var k, before := order[n], seen - {order[n]};
      assert order == order[..n] + [k];
      LoadMeaning(raw, order[..n], before);
      assert before + {k} == seen;
      forall p ensures SameAt(LoadInOrder(raw, order), Meaning(raw, seen), p) {
        if IsFlat(k, raw[k]) && p == Package(k) {
          FlatMeaningStep(raw, before, k, p);
        } else {
          OtherMeaningStep(raw, before, k, p);
        }
      }
      SameStores(LoadInOrder(raw, order), Meaning(raw, seen));
    }
  }

  /** With no clash, every iteration order loads the same store. */
  lemma OrderDoesNotMatter(raw: map<string, Json>, order: seq<string>, order': seq<string>)
    requires IsOrder(raw.Keys, order) && IsOrder(raw.Keys, order')
    requires forall k :: !Clash(raw, k)
    ensures LoadInOrder(raw, order) == LoadInOrder(raw, order')
  {
    LoadMeaning(raw, order, raw.Keys);
    LoadMeaning(raw, order', raw.Keys);
  }

  lemma {:induction false} OrderExists(keys: set<string>) returns (order: seq<string>)
    ensures IsOrder(keys, order)
  {
    if keys == {} {
      order := [];
    } else {
      var k :| k in keys;
      var rest := OrderExists(keys - {k});
      order := rest + [k];
    }
  }

  lemma LoadSnoc(raw: map<string, Json>, order: seq<string>, k: string)
    requires k in raw && forall j :: j in order ==> j in raw
    ensures LoadInOrder(raw, order + [k]) == LoadEntry(LoadInOrder(raw, order), k, raw[k])
  {
    assert (order + [k])[..|order|] == order;
  }

  lemma OrderOfTwoMore(keys: set<string>, rest: seq<string>, a: string, b: string)
    requires a in keys && b in keys && a != b && IsOrder(keys - {a, b}, rest)
    ensures IsOrder(keys, rest + [a] + [b])
  {
  }

  lemma ClashingEntriesDoNotCommute(raw: map<string, Json>, k: string, data: Store)
    requires Clash(raw, k)
    ensures var p := Package(k);
            LoadEntry(LoadEntry(data, p, raw[p]), k, raw[k]) != LoadEntry(LoadEntry(data, k, raw[k]), p, raw[p])
  {
    var p := Package(k);
    var nested := AsNested(raw[p]).value;
    assert LoadEntry(LoadEntry(data, k, raw[k]), p, raw[p])[p] == nested;
    assert LoadEntry(LoadEntry(data, p, raw[p]), k, raw[k])[p] == nested[Key(k) := raw[k].s];
  }

  /** With a clash, two iteration orders load different stores. */
  lemma ClashMatters(raw: map<string, Json>, k: string) returns (order: seq<string>, order': seq<string>)
    requires Clash(raw, k)
    ensures IsOrder(raw.Keys, order) && IsOrder(raw.Keys, order')
    ensures LoadInOrder(raw, order) != LoadInOrder(raw, order')
  {
    var p := Package(k);
    var rest := OrderExists(raw.Keys - {k, p});
    order, order' := rest + [p] + [k], rest + [k] + [p];
    assert p != k;
    OrderOfTwoMore(raw.Keys, rest, p, k);
    assert raw.Keys - {k, p} == raw.Keys - {p, k};
    OrderOfTwoMore(raw.Keys, rest, k, p);
    LoadSnoc(raw, rest, p);
    LoadSnoc(raw, rest + [p], k);
    LoadSnoc(raw, rest + [k], p);
    LoadSnoc(raw, rest, k);
    ClashingEntriesDoNotCommute(raw, k, LoadInOrder(raw, rest));
  }

  /** Loading a file is independent of the map iteration order exactly when no flat entry clashes
      with a nested package of its name. */
  lemma OrderIndependentIff(raw: map<string, Json>)
    ensures (forall order, order' :: IsOrder(raw.Keys, order) && IsOrder(raw.Keys, order') ==>
               LoadInOrder(raw, order) == LoadInOrder(raw, order'))
            <==> forall k :: !Clash(raw, k)
  {
    if k :| Clash(raw, k) {
      var order, order' := ClashMatters(raw, k);
    } else {
      forall order, order' | IsOrder(raw.Keys, order) && IsOrder(raw.Keys, order')
        ensures LoadInOrder(raw, order) == LoadInOrder(raw, order')
      {
        OrderDoesNotMatter(raw, order, order');
      }
    }
  }

  // ----- The canonical file

  function Strings(m: map<string, string>): map<string, Json> {
    map k | k in m :: Str(m[k])
  }

  /** What json.MarshalIndent writes for the store. */
  function Canonical(data: Store): map<string, Json> {
    map p | p in data :: Obj(Strings(data[p]))
  }

  lemma NestedOfStrings(m: map<string, string>)
    ensures AsNested(Obj(Strings(m))) == Some(m)
  {
    assert AsNested(Obj(Strings(m))).value == m;
  }

  /** Loading a canonical file gives back the store it was written from, in every iteration order. */
  lemma LoadOfCanonical(data: Store, order: seq<string>)
    requires IsOrder(Canonical(data).Keys, order)
    ensures LoadInOrder(Canonical(data), order) == data
  {
    var raw := Canonical(data);
    forall p | p in data ensures AsNested(raw[p]) == Some(data[p]) {
      NestedOfStrings(data[p]);
    }
    assert forall k :: k in raw ==> !IsFlat(k, raw[k]);
    LoadMeaning(raw, order, raw.Keys);
    var loaded := Meaning(raw, raw.Keys);
    forall p ensures (p in data <==> p in loaded) && (p in data ==> loaded[p] == data[p]) {
      MeaningAt(raw, raw.Keys, p);
    }
    assert loaded == data;
  }

  // ----- The store object

  /** The bytes at the store's path: no file, unreadable or unparsable, or a parsed top level. */
  datatype Contents = Missing | Unreadable | Garbled | Top(fields: map<string, Json>)

  class File {
    var contents: Contents

    constructor (contents: Contents)
      ensures this.contents == contents
    {
      this.contents := contents;
    }
  }

  /** The file holds what is in memory: opening it again, in any order, gives `data`. */
  predicate Agrees(contents: Contents, data: Store) {
    match contents
    case Missing => data == map[]
    case Top(fields) => fields == Canonical(data)
    case _ => false
  }

  function SetIn(data: Store, p: string, k: string, v: string): Store {
    data[p := Entries(data, p)[k := v]]
  }

  function DeleteIn(data: Store, p: string, k: string): Store {
    if p !in data then data
    else if data[p] - {k} == map[] then data - {p}
    else data[p := data[p] - {k}]
  }

  class SecretsStore {
    const file: File
    var data: Store

    constructor Empty(file: File)
      ensures this.file == file && data == map[]
    {
      this.file := file;
      data := map[];
    }

    /** The package's key, as `Get` sees it: an absent key and an absent package look alike. */
    function Get(p: string, k: string): Option<string>
      reads this
    {
      if k in Entries(data, p) then Some(Entries(data, p)[k]) else None
    }

    /** Write a temporary file and rename it over the old one; `diskOk` is whether both succeed. */
    method Persist(diskOk: bool) returns (ok: bool)
      modifies file
      ensures ok == diskOk
      ensures file.contents == if diskOk then Top(Canonical(data)) else old(file.contents)
    {
      if diskOk {
        file.contents := Top(Canonical(data));
      }
      return diskOk;
    }

    /** When persisting fails the error is returned, but the store keeps the new value in memory. */
    method Set(p: string, k: string, v: string, diskOk: bool) returns (ok: bool)
      modifies this`data, file
      ensures ok == diskOk && data == SetIn(old(data), p, k, v)
      ensures Get(p, k) == Some(v)
      ensures forall q, j :: (q, j) != (p, k) ==> Get(q, j) == old(Get(q, j))
      ensures if ok then Agrees(file.contents, data) else file.contents == old(file.contents)
    {
      if p !in data {
        data := data[p := map[]];
      }
      data := data[p := data[p][k := v]];
      ok := Persist(diskOk);
    }

    /** Deleting from an absent package succeeds without touching the file. */
    method Delete(p: string, k: string, diskOk: bool) returns (ok: bool)
      modifies this`data, file
      ensures ok == (p !in old(data) || diskOk) && data == DeleteIn(old(data), p, k)
      ensures Entries(data, p) == old(Entries(data, p)) - {k}
      ensures forall q :: q != p ==> Entries(data, q) == old(Entries(data, q))
      ensures Get(p, k) == None
      ensures forall q, j :: (q, j) != (p, k) ==> Get(q, j) == old(Get(q, j))
      ensures if p in old(data) && ok then Agrees(file.contents, data) else file.contents == old(file.contents)
      ensures ok && old(Agrees(file.contents, data)) ==> Agrees(file.contents, data)
    {
      if p !in data {
        return true;
      }
      data := data[p := data[p] - {k}];
      if data[p] == map[] {
        data := data - {p};
      }
      ok := Persist(diskOk);
    }

    method DeletePackage(p: string, diskOk: bool) returns (ok: bool)
      modifies this`data, file
      ensures ok == diskOk && data == old(data) - {p}
      ensures if ok then Agrees(file.contents, data) else file.contents == old(file.contents)
    {
      data := data - {p};
      ok := Persist(diskOk);
    }
  }

  /** LoadSecretsFrom. `order` is the iteration order Go picks; a failed rewrite is ignored. */
  method LoadSecretsFrom(file: File, order: seq<string>, diskOk: bool) returns (s: SecretsStore?)
    requires file.contents.Top? ==> IsOrder(file.contents.fields.Keys, order)
    modifies file
    ensures s == null <==> old(file.contents).Unreadable? || old(file.contents).Garbled?
    ensures s == null ==> file.contents == old(file.contents)
    ensures s != null ==> fresh(s) && s.file == file
    ensures old(file.contents).Missing? ==> s.data == map[] && file.contents == Missing
    ensures old(file.contents).Top? ==> s.data == LoadInOrder(old(file.contents).fields, order)
    ensures s != null && diskOk ==> Agrees(file.contents, s.data)
    ensures old(file.contents).Top? && !diskOk ==> file.contents == old(file.contents)
  {
    if file.contents.Unreadable? || file.contents.Garbled? {
      return null;
    }
    s := new SecretsStore.Empty(file);
    if file.contents.Missing? {
      return s;
    }
    var raw := file.contents.fields;
    var i := 0;
    while i < |order|
      invariant 0 <= i <= |order|
      invariant s.data == LoadInOrder(raw, order[..i])
      invariant fresh(s) && s.file == file && file.contents == old(file.contents)
    {
      var k, v := order[i], raw[order[i]];
      assert order[..i + 1][..i] == order[..i];
      if AsNested(v).Some? {
        s.data := s.data[k := AsNested(v).value];
      } else if v.Str? && v.s != "" {
        var cut := Cut(k, '/');
        if cut.Some? {
          if cut.value.0 !in s.data {
            s.data := s.data[cut.value.0 := map[]];
          }
          s.data := s.data[cut.value.0 := s.data[cut.value.0][cut.value.1 := v.s]];
        }
      }
      i := i + 1;
    }
    assert order[..i] == order;
    if raw != Canonical(s.data) {
      var _ := s.Persist(diskOk);
    }
  }

  /** After a load, loading once more gives the same store whichever orders Go picks, and changes nothing. */
  method LoadTwice(file: File, order: seq<string>, order': seq<string>)
    returns (first: SecretsStore, second: SecretsStore)
    requires file.contents.Top? && IsOrder(file.contents.fields.Keys, order)
    requires IsOrder(LoadInOrder(file.contents.fields, order).Keys, order')
    modifies file
    ensures first.data == LoadInOrder(old(file.contents).fields, order) && second.data == first.data
    ensures Agrees(file.contents, second.data)
  {
    first := LoadSecretsFrom(file, order, true);
    LoadOfCanonical(first.data, order');
    second := LoadSecretsFrom(file, order', true);
  }
}
