/** Merging the models of the setup wizard into a configuration (core/wizard.go). */
module WizardModels {
  import opened Text

  /** The fields of a model that the merge does not look at are one value. */
  datatype ModelConfig = ModelConfig(id: string, name: string, settings: string) {
    function ModelID(): string { if id != "" then id else name }
  }

  function Ids(ms: seq<ModelConfig>): seq<string> {
    seq(|ms|, i requires 0 <= i < |ms| => ms[i].ModelID())
  }

  lemma IdsSnoc(ms: seq<ModelConfig>, m: ModelConfig)
    ensures Ids(ms + [m]) == Ids(ms) + [m.ModelID()]
  {
  }

  // ----- What the merge is for: an ordered map in which later entries override

  /** The ids that name a model other than the main one. */
  function Others(ids: seq<string>, main: string): seq<string> {
    if ids == [] then []
    else
      var last := ids[|ids| - 1];
      Others(ids[..|ids| - 1], main) + if last == "" || last == main then [] else [last]
  }

  /** `ids` without the repetitions. */
  function Firsts(ids: seq<string>): seq<string> {
    if ids == [] then []
    else
      var front, last := ids[..|ids| - 1], ids[|ids| - 1];
      Firsts(front) + if last in front then [] else [last]
  }

  function First(ms: seq<ModelConfig>, id: string): Option<ModelConfig> {
    if ms == [] then None
    else if ms[0].ModelID() == id then Some(ms[0]) else First(ms[1..], id)
  }

  function Last(ms: seq<ModelConfig>, id: string): Option<ModelConfig> {
    if ms == [] then None
    else if ms[|ms| - 1].ModelID() == id then Some(ms[|ms| - 1]) else Last(ms[..|ms| - 1], id)
  }

  /** The model an id stands for: the main one, else the last extra, else the first existing one. */
  function Winner(main: ModelConfig, existing: seq<ModelConfig>, extras: seq<ModelConfig>,
                  id: string): Option<ModelConfig> {
    if id == main.ModelID() then Some(main)
    else if Last(extras, id).Some? then Last(extras, id) else First(existing, id)
  }

  /** `models` is the merge: main first, then existing ids in the order of their first occurrence, then
      the new extra ids in that order, each id once and with its winner. */
  ghost predicate IsMerge(models: seq<ModelConfig>, main: ModelConfig, existing: seq<ModelConfig>,
                          extras: seq<ModelConfig>) {
    && Ids(models) == Ordered(main.ModelID(), Ids(existing) + Ids(extras))
    && AreWinners(models, main, existing, extras)
  }

  function Ordered(main: string, ids: seq<string>): seq<string> {
    Firsts([main] + Others(ids, main))
  }

  ghost predicate AreWinners(models: seq<ModelConfig>, main: ModelConfig, existing: seq<ModelConfig>,
                             extras: seq<ModelConfig>) {
    forall m :: m in models ==> Winner(main, existing, extras, m.ModelID()) == Some(m)
  }

  predicate Distinct(ids: seq<string>) {
    forall i, j :: 0 <= i < j < |ids| ==> ids[i] != ids[j]
  }

  // ----- Facts about ids

  lemma FirstsSnoc(front: seq<string>, last: string)
    ensures Firsts(front + [last]) == Firsts(front) + if last in front then [] else [last]
  {
    assert (front + [last])[..|front|] == front;
  }

  lemma IdsOfAll(ms: seq<ModelConfig>)
    ensures forall m :: m in ms ==> m.ModelID() in Ids(ms)
  {
    assert forall i :: 0 <= i < |ms| ==> Ids(ms)[i] == ms[i].ModelID();
  }

  lemma {:induction false} FirstsMeaning(ids: seq<string>)
    ensures Distinct(Firsts(ids)) && forall id :: id in Firsts(ids) <==> id in ids
  {
    if ids != [] {
      var front, last := ids[..|ids| - 1], ids[|ids| - 1];
      FirstsMeaning(front);
      assert ids == front + [last];
    }
  }

  lemma {:induction false} FirstsOfDistinct(ids: seq<string>, more: seq<string>)
    requires Distinct(ids) && forall id :: id in more ==> id in ids
    ensures Firsts(ids + more) == ids
  {
    if more != [] {
      var front, last := more[..|more| - 1], more[|more| - 1];
      assert (ids + more)[..|ids + more| - 1] == ids + front;
      assert last in ids && last in ids + front;
      FirstsOfDistinct(ids, front);
    } else {
      assert ids + more == ids;
      if ids != [] {
        FirstsOfDistinct(ids[..|ids| - 1], []);
        assert ids[..|ids| - 1] + [] == ids[..|ids| - 1];
        assert ids == ids[..|ids| - 1] + [ids[|ids| - 1]];
      }
    }
  }

  lemma {:induction false} FirstsStart(first: string, more: seq<string>)
    ensures |Firsts([first] + more)| > 0 && Firsts([first] + more)[0] == first
  {
    if more == [] {
      assert [first] + more == [first] && Firsts([]) + [first] == [first];
      assert [first][..0] == [];
    } else {
      FirstsStart(first, more[..|more| - 1]);
      assert ([first] + more)[..|more|] == [first] + more[..|more| - 1];
    }
  }

  lemma {:induction false} OthersMeaning(ids: seq<string>, main: string)
    ensures forall id :: id in Others(ids, main) <==> id in ids && id != "" && id != main
  {
    if ids != [] {
      OthersMeaning(ids[..|ids| - 1], main);
      assert ids == ids[..|ids| - 1] + [ids[|ids| - 1]];
    }
  }

  lemma {:induction false} OthersAppend(a: seq<string>, b: seq<string>, main: string)
    ensures Others(a + b, main) == Others(a, main) + Others(b, main)
  {
    if b == [] {
      assert a + b == a;
    } else {
      assert (a + b)[..|a + b| - 1] == a + b[..|b| - 1];
      OthersAppend(a, b[..|b| - 1], main);
    }
  }

  lemma {:induction false} OthersOfOthers(ids: seq<string>, main: string)
    requires forall i :: 0 <= i < |ids| ==> ids[i] != "" && ids[i] != main
    ensures Others(ids, main) == ids
  {
    if ids != [] {
      OthersOfOthers(ids[..|ids| - 1], main);
      assert ids == ids[..|ids| - 1] + [ids[|ids| - 1]];
    }
  }

  lemma {:induction false} FirstIsThere(ms: seq<ModelConfig>, id: string)
    ensures First(ms, id).Some? <==> id in Ids(ms)
    ensures First(ms, id).Some? ==> First(ms, id).value in ms && First(ms, id).value.ModelID() == id
  {
    if ms != [] {
      FirstIsThere(ms[1..], id);
      assert Ids(ms) == [ms[0].ModelID()] + Ids(ms[1..]);
    }
  }

  lemma {:induction false} LastIsThere(ms: seq<ModelConfig>, id: string)
    ensures Last(ms, id).Some? <==> id in Ids(ms)
    ensures Last(ms, id).Some? ==> Last(ms, id).value in ms && Last(ms, id).value.ModelID() == id
  {
    if ms != [] {
      LastIsThere(ms[..|ms| - 1], id);
      assert Ids(ms) == Ids(ms[..|ms| - 1]) + [ms[|ms| - 1].ModelID()];
    }
  }

  lemma {:induction false} FirstSnoc(ms: seq<ModelConfig>, m: ModelConfig, id: string)
    ensures First(ms + [m], id) ==
            if First(ms, id).Some? then First(ms, id) else if m.ModelID() == id then Some(m) else None
  {
    if ms == [] {
      assert ms + [m] == [m];
    } else {
      FirstSnoc(ms[1..], m, id);
      assert (ms + [m])[1..] == ms[1..] + [m];
    }
  }

  lemma OrderedMeaning(main: string, ids: seq<string>)
    ensures Distinct(Ordered(main, ids)) && Ordered(main, ids) != [] && Ordered(main, ids)[0] == main
    ensures forall id :: id in Ordered(main, ids) <==> id == main || (id in ids && id != "")
  {
    FirstsMeaning([main] + Others(ids, main));
    FirstsStart(main, Others(ids, main));
    OthersMeaning(ids, main);
  }

  lemma OrderedSnoc(main: string, ids: seq<string>, id: string)
    ensures Ordered(main, ids + [id]) == Ordered(main, ids) + if id == "" || id in Ordered(main, ids) then [] else [id]
  {
    var others := Others(ids, main);
    OrderedMeaning(main, ids);
    FirstsMeaning([main] + others);
    assert (ids + [id])[..|ids|] == ids;
    if id != "" && id != main {
      assert [main] + (others + [id]) == [main] + others + [id];
      FirstsSnoc([main] + others, id);
      assert id in [main] + others <==> id in Ordered(main, ids);
    } else {
      assert Others(ids + [id], main) == others + [] == others;
      assert id == "" || id in Ordered(main, ids);
    }
  }

  // ----- The two loops

  function AddExisting(models: seq<ModelConfig>, m: ModelConfig): seq<ModelConfig> {
    if m.ModelID() == "" || m.ModelID() in Ids(models) then models else models + [m]
  }

  lemma WinnerExisting(main: ModelConfig, existing: seq<ModelConfig>, m: ModelConfig, id: string)
    requires id == main.ModelID() || id in Ids(existing) || id != m.ModelID()
    ensures Winner(main, existing + [m], [], id) == Winner(main, existing, [], id)
  {
    FirstSnoc(existing, m, id);
    FirstIsThere(existing, id);
  }

  lemma ExistingStep(models: seq<ModelConfig>, main: ModelConfig, existing: seq<ModelConfig>, m: ModelConfig)
    requires IsMerge(models, main, existing, [])
    ensures IsMerge(AddExisting(models, m), main, existing + [m], [])
  {
    var a, id := main.ModelID(), m.ModelID();
    IdsSnoc(existing, m);
    IdsSnoc(models, m);
    IdsOfAll(models);
    assert Ids(existing) + Ids([]) == Ids(existing) && Ids(existing + [m]) + Ids([]) == Ids(existing) + [id];
    OrderedSnoc(a, Ids(existing), id);
    OrderedMeaning(a, Ids(existing));
    forall m' | m' in models ensures Winner(main, existing + [m], [], m'.ModelID()) == Some(m') {
      WinnerExisting(main, existing, m, m'.ModelID());
    }
    if id != "" && id !in Ids(models) {
      FirstSnoc(existing, m, id);
      FirstIsThere(existing, id);
      assert Winner(main, existing + [m], [], id) == Some(m);
    }
  }

  /** The position of the first model with this id, or the length. */
  function IndexOf(models: seq<ModelConfig>, id: string): (i: nat)
    ensures i <= |models|
    ensures forall j :: 0 <= j < i ==> models[j].ModelID() != id
    ensures i < |models| ==> models[i].ModelID() == id
  {
    if models == [] || models[0].ModelID() == id then 0 else 1 + IndexOf(models[1..], id)
  }

  /** Replaces the model with the id of `m`, or adds `m` at the end. */
  function Put(models: seq<ModelConfig>, m: ModelConfig): seq<ModelConfig> {
    var i := IndexOf(models, m.ModelID());
    if i < |models| then models[i := m] else models + [m]
  }

  lemma PutIds(models: seq<ModelConfig>, m: ModelConfig)
    ensures Ids(Put(models, m)) == Ids(models) + if m.ModelID() in Ids(models) then [] else [m.ModelID()]
  {
    var i, ids := IndexOf(models, m.ModelID()), Ids(models);
    assert forall j :: 0 <= j < |models| ==> ids[j] == models[j].ModelID();
    if i < |models| {
      assert ids[i] == m.ModelID();
      assert Ids(models[i := m]) == ids;
    } else {
      IdsSnoc(models, m);
    }
  }

  lemma PutModels(models: seq<ModelConfig>, m: ModelConfig)
    requires Distinct(Ids(models))
    ensures forall m' :: m' in Put(models, m) ==> m' == m || (m' in models && m'.ModelID() != m.ModelID())
  {
    var i := IndexOf(models, m.ModelID());
    assert forall j :: 0 <= j < |models| ==> Ids(models)[j] == models[j].ModelID();
    assert forall j :: 0 <= j < |models| && j != i ==> models[j].ModelID() != m.ModelID();
  }

  function AddExtra(models: seq<ModelConfig>, main: ModelConfig, m: ModelConfig): seq<ModelConfig> {
    if m.ModelID() == "" || m.ModelID() == main.ModelID() then models else Put(models, m)
  }

  lemma ExtraStep(models: seq<ModelConfig>, main: ModelConfig, existing: seq<ModelConfig>, extras: seq<ModelConfig>,
                  m: ModelConfig)
    requires IsMerge(models, main, existing, extras)
    ensures IsMerge(AddExtra(models, main, m), main, existing, extras + [m])
  {
    var a, id := main.ModelID(), m.ModelID();
    var ids := Ids(existing) + Ids(extras);
    IdsSnoc(extras, m);
    assert Ids(existing) + Ids(extras + [m]) == ids + [id];
    OrderedSnoc(a, ids, id);
    OrderedMeaning(a, ids);
    IdsOfAll(models);
    assert (extras + [m])[..|extras|] == extras;
    forall m' | m' in models && (m'.ModelID() == a || m'.ModelID() != id)
      ensures Winner(main, existing, extras + [m], m'.ModelID()) == Some(m')
    {
      assert Winner(main, existing, extras + [m], m'.ModelID()) == Winner(main, existing, extras, m'.ModelID());
    }
    if id != "" && id != a {
      PutIds(models, m);
      PutModels(models, m);
      assert Winner(main, existing, extras + [m], id) == Some(m);
    }
  }

  function MergeExisting(main: ModelConfig, existing: seq<ModelConfig>): seq<ModelConfig> {
    if existing == [] then [main]
    else AddExisting(MergeExisting(main, existing[..|existing| - 1]), existing[|existing| - 1])
  }

  function Merge(main: ModelConfig, existing: seq<ModelConfig>, extras: seq<ModelConfig>): seq<ModelConfig> {
    if extras == [] then MergeExisting(main, existing)
    else AddExtra(Merge(main, existing, extras[..|extras| - 1]), main, extras[|extras| - 1])
  }

  lemma {:induction false} MergeExistingMeaning(main: ModelConfig, existing: seq<ModelConfig>)
    ensures IsMerge(MergeExisting(main, existing), main, existing, [])
  {
    if existing == [] {
      assert Ids(existing) + Ids([]) == [] && Others([], main.ModelID()) == [];
      FirstsSnoc([], main.ModelID());
      assert [] + [main.ModelID()] == [main.ModelID()] + [] == Ids([main]);
    } else {
      var front, last := existing[..|existing| - 1], existing[|existing| - 1];
      MergeExistingMeaning(main, front);
      ExistingStep(MergeExisting(main, front), main, front, last);
      assert existing == front + [last];
    }
  }

  lemma {:induction false} MergeMeaning(main: ModelConfig, existing: seq<ModelConfig>, extras: seq<ModelConfig>)
    ensures IsMerge(Merge(main, existing, extras), main, existing, extras)
  {
    if extras == [] {
      MergeExistingMeaning(main, existing);
    } else {
      var front, last := extras[..|extras| - 1], extras[|extras| - 1];
      MergeMeaning(main, existing, front);
      ExtraStep(Merge(main, existing, front), main, existing, front, last);
      assert extras == front + [last];
    }
  }

  /** Main stays in front, no id occurs twice, and no id that was configured is lost. */
  lemma MergeIsAnOrderedMap(main: ModelConfig, existing: seq<ModelConfig>, extras: seq<ModelConfig>)
    ensures var models := Merge(main, existing, extras);
            && models != [] && models[0] == main && Distinct(Ids(models))
            && forall id :: id in Ids(models) <==>
              id == main.ModelID() || (id != "" && (id in Ids(existing) || id in Ids(extras)))
  {
    var models := Merge(main, existing, extras);
    MergeMeaning(main, existing, extras);
    OrderedMeaning(main.ModelID(), Ids(existing) + Ids(extras));
    assert |models| == |Ids(models)| > 0;
    assert models[0].ModelID() == Ids(models)[0] == main.ModelID();
    assert models[0] in models;
  }

  /** A merge is determined by what it is for. */
  lemma MergeIsUnique(m1: seq<ModelConfig>, m2: seq<ModelConfig>, main: ModelConfig, existing: seq<ModelConfig>,
                      extras: seq<ModelConfig>)
    requires IsMerge(m1, main, existing, extras) && IsMerge(m2, main, existing, extras)
    ensures m1 == m2
  {
    assert |m1| == |Ids(m1)| == |Ids(m2)| == |m2|;
    forall i | 0 <= i < |m1| ensures m1[i] == m2[i] {
      assert m1[i].ModelID() == Ids(m1)[i] == Ids(m2)[i] == m2[i].ModelID();
      assert m1[i] in m1 && m2[i] in m2;
    }
  }

  /** Running the wizard again with the same answers changes nothing. */
  lemma MergeIsIdempotent(main: ModelConfig, existing: seq<ModelConfig>, extras: seq<ModelConfig>)
    ensures Merge(main, Merge(main, existing, extras), extras) == Merge(main, existing, extras)
  {
    var models, a := Merge(main, existing, extras), main.ModelID();
    MergeMeaning(main, existing, extras);
    MergeMeaning(main, models, extras);
    MergeIsAnOrderedMap(main, existing, extras);
    OrderedAgain(a, Ids(models), Ids(extras));
    forall m | m in models ensures Winner(main, models, extras, m.ModelID()) == Some(m) {
      var i :| 0 <= i < |models| && models[i] == m;
      FirstOfDistinct(models, i);
    }
    MergeIsUnique(models, Merge(main, models, extras), main, models, extras);
  }

  lemma {:induction false} FirstOfDistinct(ms: seq<ModelConfig>, i: nat)
    requires i < |ms| && Distinct(Ids(ms))
    ensures First(ms, ms[i].ModelID()) == Some(ms[i])
  {
    if i > 0 {
      assert Ids(ms)[0] != Ids(ms)[i];
      assert Ids(ms[1..]) == Ids(ms)[1..];
      FirstOfDistinct(ms[1..], i - 1);
    }
  }

  lemma Assoc<T>(a: seq<T>, b: seq<T>, c: seq<T>)
    ensures a + b + c == a + (b + c)
  {
  }

  lemma OthersOfTail(main: string, tail: seq<string>)
    requires Distinct([main] + tail) && forall id :: id in tail ==> id != ""
    ensures Others([main] + tail, main) == tail
  {
    var ids := [main] + tail;
    forall i | 0 <= i < |tail| ensures tail[i] != "" && tail[i] != main {
      assert tail[i] == ids[i + 1] && ids[0] == main && tail[i] in tail;
    }
    OthersOfOthers(tail, main);
    OthersAppend([main], tail, main);
    assert Others([main], main) == [] by { assert [main][..0] == []; }
  }

  lemma NoBlankTail(ids: seq<string>)
    requires ids != [] && Distinct(ids) && forall id :: id in ids ==> id == ids[0] || id != ""
    ensures forall id :: id in ids[1..] ==> id != ""
  {
    assert forall i :: 1 <= i < |ids| ==> ids[i] in ids && ids[0] != ids[i];
  }

  lemma OrderedAgain(main: string, ids: seq<string>, more: seq<string>)
    requires ids != [] && ids[0] == main && Distinct(ids)
    requires forall id :: id in ids ==> id == main || id != ""
    requires forall id :: id in more && id != "" ==> id in ids
    ensures Ordered(main, ids + more) == ids
  {
    var tail := ids[1..];
    assert ids == [main] + tail;
    NoBlankTail(ids);
    OthersOfTail(main, tail);
    OthersAppend(ids, more, main);
    OthersMeaning(more, main);
    FirstsOfDistinct(ids, Others(more, main));
    Assoc([main], tail, Others(more, main));
  }

  // ----- mergeWizardModels

  lemma NextExisting(main: ModelConfig, existing: seq<ModelConfig>, k: nat)
    requires k < |existing|
    ensures MergeExisting(main, existing[..k + 1]) == AddExisting(MergeExisting(main, existing[..k]), existing[k])
  {
    assert existing[..k + 1][..k] == existing[..k];
  }

  lemma NextExtra(main: ModelConfig, existing: seq<ModelConfig>, extras: seq<ModelConfig>, k: nat)
    requires k < |extras|
    ensures Merge(main, existing, extras[..k + 1]) == AddExtra(Merge(main, existing, extras[..k]), main, extras[k])
  {
    assert extras[..k + 1][..k] == extras[..k];
  }

  ghost predicate AreSeen(seen: set<string>, models: seq<ModelConfig>) {
    forall id :: id in seen <==> id in Ids(models)
  }

  lemma SeenStart(main: ModelConfig)
    ensures AreSeen({main.ModelID()}, [main])
  {
    assert Ids([main]) == [main.ModelID()];
  }

  lemma SeenSnoc(seen: set<string>, models: seq<ModelConfig>, m: ModelConfig)
    requires AreSeen(seen, models)
    ensures AreSeen(seen + {m.ModelID()}, models + [m])
    ensures m.ModelID() in seen <==> m.ModelID() in Ids(models)
  {
    IdsSnoc(models, m);
  }

  lemma MainIsSeen(main: ModelConfig, existing: seq<ModelConfig>)
    ensures main.ModelID() in Ids(MergeExisting(main, existing))
  {
    MergeExistingMeaning(main, existing);
    OrderedMeaning(main.ModelID(), Ids(existing) + Ids([]));
  }

  /** The inner loop over the models. */
  method ReplaceOrAppend(models: seq<ModelConfig>, m: ModelConfig) returns (updated: seq<ModelConfig>)
    ensures updated == Put(models, m)
  {
    updated := models;
    var replaced := false;
    for i := 0 to |models|
      invariant updated == models && !replaced && i <= IndexOf(models, m.ModelID())
    {
      if updated[i].ModelID() == m.ModelID() {
        updated := updated[i := m];
        replaced := true;
        break;
      }
    }
    if !replaced {
      updated := updated + [m];
    }
  }

  /** `existing` is the model list of the existing configuration, if there is one. */
  method MergeWizardModels(existing: Option<seq<ModelConfig>>, main: ModelConfig, extras: seq<ModelConfig>)
    returns (models: seq<ModelConfig>)
    ensures models == Merge(main, if existing.Some? then existing.value else [], extras)
  {
    models := [main];
    var seen := {main.ModelID()};
    SeenStart(main);
    ghost var configured := if existing.Some? then existing.value else [];
    if existing.Some? {
      for k := 0 to |existing.value|
        invariant models == MergeExisting(main, configured[..k])
        invariant AreSeen(seen, models)
      {
        var m := existing.value[k];
        var id := m.ModelID();
        NextExisting(main, configured, k);
        MainIsSeen(main, configured[..k]);
        SeenSnoc(seen, models, m);
        if id == "" || id == main.ModelID() || id in seen {
          continue;
        }
        models := models + [m];
        seen := seen + {id};
      }
      assert configured[..|configured|] == configured;
    }
    for k := 0 to |extras|
      invariant models == Merge(main, configured, extras[..k])
    {
      var m := extras[k];
      var id := m.ModelID();
      NextExtra(main, configured, extras, k);
      if id == "" || id == main.ModelID() {
        continue;
      }
      models := ReplaceOrAppend(models, m);
      seen := seen + {id};
    }
    assert extras[..|extras|] == extras;
  }
}
