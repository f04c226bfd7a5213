/** Archiving and rolling back an installed skill (core/skill.go) and replacing its bundle
    (core/installer.go). The skill's directory is a value with its manifest file, its code file, its
    other entries and its archive; the TOML codec and filepath.Clean are parameters. */
module SkillArchive {
  import opened Text

  type Tree = map<string, string>

  datatype Node = File(content: string) | Dir(tree: Tree) | Symlink

  datatype Manifest = Manifest(
    version: nat, createdAt: string, updatedAt: string, enabled: bool,
    resourceRoot: string, resourceDirs: seq<string>, rest: string)

  /** `entries` holds what is in the directory besides manifest, code and archive. */
  datatype Skill = Skill(
    toml: Option<string>, js: Option<string>, entries: map<string, Node>, archive: Option<map<string, Node>>)

  datatype Platform = Platform(encode: Manifest -> string, decode: string -> Option<Manifest>, clean: string -> string)

  datatype Failure =
    | NoArchive | NoArchivedManifest | BadManifest | ReadFailed | BadRoot
    | BundleMissing | BundleIsSymlink | BundleIsNoDirectory | RenameFailed

  const BUNDLE := "bundle"
  const TOML_SUFFIX := ".skill.toml"
  const JS_SUFFIX := ".js"
  const BUNDLE_SUFFIX := ".bundle"
  const TWO32 := 0x1_0000_0000

  // ----- Saving

  /** uint32 arithmetic: version 0 wraps around. */
  function ArchiveBase(stamp: string, version: nat): string {
    stamp + ".v" + FormatNat((version - 1) % TWO32)
  }

  function ArchiveFiles(s: Skill, base: string): map<string, Node>
    requires s.toml.Some?
  {
    var earlier := if s.archive.Some? then s.archive.value else map[];
    var withToml := earlier[base + TOML_SUFFIX := File(s.toml.value)];
    if s.js.Some? then withToml[base + JS_SUFFIX := File(s.js.value)] else withToml
  }

  function ArchiveBundle(s: Skill, files: map<string, Node>, base: string): (map<string, Node>, Option<Failure>) {
    if BUNDLE !in s.entries then (files, None)
    else
      match s.entries[BUNDLE]
      case Symlink => (files, Some(BundleIsSymlink))
      case File(_) => (files, Some(BundleIsNoDirectory))
      case Dir(tree) => (files[base + BUNDLE_SUFFIX := Dir(tree)], None)
  }

  function Archive(s: Skill, base: string): (Skill, Option<Failure>) {
    if s.toml.None? then (s, None)
    else
      var (archive, failure) := ArchiveBundle(s, ArchiveFiles(s, base), base);
      (s.(archive := Some(archive)), failure)
  }

  function Stamped(m: Manifest, now: string): Manifest {
    m.(updatedAt := now, createdAt := if m.createdAt == "" then now else m.createdAt)
  }

  /** `stamp` is the local time to the second, `now` the same in UTC. */
  function Save(s: Skill, m: Manifest, code: string, stamp: string, now: string, p: Platform): (Skill,
                Option<Failure>) {
    var (archived, failure) := Archive(s, ArchiveBase(stamp, m.version));
    if failure.Some? then (archived, failure)
    else (archived.(toml := Some(p.encode(Stamped(m, now))), js := Some(code)), None)
  }

  /** A save fails only for a bundle that cannot be archived, and then leaves what is installed alone. */
  lemma SaveFailsIff(s: Skill, m: Manifest, code: string, stamp: string, now: string, p: Platform)
    ensures Save(s, m, code, stamp, now, p).1.Some? <==>
              s.toml.Some? && BUNDLE in s.entries && !s.entries[BUNDLE].Dir?
    ensures Save(s, m, code, stamp, now, p).1.Some? ==>
              Save(s, m, code, stamp, now, p).0 == s.(archive := Save(s, m, code, stamp, now, p).0.archive)
  {
  }

  /** What a successful save installs: the code, and a manifest that reads as the one given, with the time of
      the save and with the time of its creation, which the first save sets. */
  lemma SavedContents(s: Skill, m: Manifest, code: string, stamp: string, now: string, p: Platform)
    requires Save(s, m, code, stamp, now, p).1.None? && IsPlatform(p)
    ensures var saved := Save(s, m, code, stamp, now, p).0;
            && saved.js == Some(code) && saved.entries == s.entries && saved.toml.Some?
            && var written := p.decode(saved.toml.value);
               && written.Some? && written.value == m.(updatedAt := now, createdAt := written.value.createdAt)
               && if m.createdAt == "" then written.value.createdAt == now
                  else written.value.createdAt == m.createdAt
  {
    var written := Stamped(m, now);
    assert p.decode(p.encode(written)) == Some(written);
  }

  // ----- Rolling back

  predicate HasSuffix(s: string, suffix: string) {
    |s| >= |suffix| && s[|s| - |suffix|..] == suffix
  }

  predicate IsManifestName(n: string) { HasSuffix(n, TOML_SUFFIX) }

  function LastManifest(listing: seq<string>): Option<string> {
    if listing == [] then None
    else if IsManifestName(listing[|listing| - 1]) then Some(listing[|listing| - 1])
    else LastManifest(listing[..|listing| - 1])
  }

  predicate NeedsBundle(m: Manifest) {
    TrimSpace(m.resourceRoot) != "" && m.resourceDirs != []
  }

  /** Roots that are absolute or leave the skill's directory. */
  predicate IsBadRoot(root: string) {
    root == "." || (root != "" && root[0] == '/') || root == ".." || "../" <= root
  }

  function RestoreBundle(s: Skill, archive: map<string, Node>, base: string, m: Manifest, p: Platform): (Skill,
                         Option<Failure>) {
    if !NeedsBundle(m) then (s.(entries := s.entries - {BUNDLE}), None)
    else
      var root := p.clean(TrimSpace(m.resourceRoot));
      if IsBadRoot(root) then (s, Some(BadRoot))
      else if base + BUNDLE_SUFFIX !in archive then (s, Some(BundleMissing))
      else
        match archive[base + BUNDLE_SUFFIX]
        case Symlink => (s, Some(BundleIsSymlink))
        case File(_) => (s, Some(BundleIsNoDirectory))
        case Dir(tree) => (s.(entries := s.entries[root := Dir(tree)]), None)
  }

  /** Restoring a bundle fails only for a root outside the skill's directory or for want of an archived
      directory, and then changes nothing. */
  lemma RestoreBundleFailsIff(s: Skill, archive: map<string, Node>, base: string, m: Manifest, p: Platform)
    ensures RestoreBundle(s, archive, base, m, p).1.None? <==>
              (NeedsBundle(m) ==>
                 && !IsBadRoot(p.clean(TrimSpace(m.resourceRoot)))
                 && base + BUNDLE_SUFFIX in archive && archive[base + BUNDLE_SUFFIX].Dir?)
    ensures RestoreBundle(s, archive, base, m, p).1.Some? ==> RestoreBundle(s, archive, base, m, p).0 == s
    ensures RestoreBundle(s, archive, base, m, p).1.None? && NeedsBundle(m) ==>
              RestoreBundle(s, archive, base, m, p).0.entries ==
              s.entries[p.clean(TrimSpace(m.resourceRoot)) := archive[base + BUNDLE_SUFFIX]]
  {
  }

  /** A missing code file in the archive leaves the current one in place. */
  function RestoreCode(s: Skill, archive: map<string, Node>, base: string): (Skill, Option<Failure>) {
    if base + JS_SUFFIX !in archive then (s, None)
    else if archive[base + JS_SUFFIX].File? then (s.(js := Some(archive[base + JS_SUFFIX].content)), None)
    else (s, Some(ReadFailed))
  }

  function Restore(s: Skill, archive: map<string, Node>, name: string, p: Platform): (Skill, Option<Failure>)
    requires IsManifestName(name) && name in archive
  {
    var base := name[..|name| - |TOML_SUFFIX|];
    if !archive[name].File? then (s, Some(ReadFailed))
    else
      match p.decode(archive[name].content)
      case None => (s, Some(BadManifest))
      case Some(m) =>
        var (s1, failure) := RestoreCode(s.(toml := Some(archive[name].content)), archive, base);
        if failure.Some? then (s1, failure) else RestoreBundle(s1, archive, base, m, p)
  }

  // ----- The directory listing

  /** Go's order of strings. */
  predicate Less(a: string, b: string) {
    if b == "" then false
    else if a == "" then true
    else a[0] < b[0] || (a[0] == b[0] && Less(a[1..], b[1..]))
  }

  /** os.ReadDir: the names of the directory, sorted. */
  ghost predicate IsListing(listing: seq<string>, names: set<string>) {
    && (forall n :: n in names <==> n in listing)
    && (forall i, j :: 0 <= i < j < |listing| ==> Less(listing[i], listing[j]))
  }

  /** The manifest that no other one in the archive follows. */
  ghost predicate IsLatest(n: string, names: set<string>) {
    n in names && IsManifestName(n) && forall m :: m in names && IsManifestName(m) && m != n ==> Less(m, n)
  }

  lemma {:induction false} LessIsAnOrder(a: string, b: string, c: string)
    ensures !Less(a, a)
    ensures !(Less(a, b) && Less(b, a))
    ensures a == b || Less(a, b) || Less(b, a)
    ensures Less(a, b) && Less(b, c) ==> Less(a, c)
  {
    if a != "" && b != "" {
      assert a == [a[0]] + a[1..] && b == [b[0]] + b[1..];
      LessIsAnOrder(a[1..], b[1..], if c == "" then "" else c[1..]);
    } else if a != "" {
      LessIsAnOrder(a[1..], "", "");
    }
  }

  /** The backwards scan finds the latest manifest, and finds nothing only if there is none. */
  lemma {:induction false} ScanFindsLatest(listing: seq<string>, names: set<string>)
    requires IsListing(listing, names)
    ensures LastManifest(listing) == None <==> forall n :: n in names ==> !IsManifestName(n)
    ensures LastManifest(listing).Some? ==> IsLatest(LastManifest(listing).value, names)
  {
    if listing != [] {
      var front, last := listing[..|listing| - 1], listing[|listing| - 1];
      assert listing == front + [last];
      if IsManifestName(last) {
        forall m | m in names && m != last ensures Less(m, last) {
          var i :| 0 <= i < |listing| && listing[i] == m;
        }
      } else {
        forall n | n in names - {last} ensures n in front {
        }
        forall n | n in front ensures n in names - {last} {
          var i :| 0 <= i < |front| && front[i] == n;
          LessIsAnOrder(n, last, last);
        }
        ScanFindsLatest(front, names - {last});
      }
    }
  }

  function Rollback(s: Skill, listing: seq<string>, p: Platform): (Skill, Option<Failure>)
    requires s.archive.Some? ==> forall n :: n in listing ==> n in s.archive.value
  {
    if s.archive.None? then (s, Some(NoArchive))
    else
      match LastManifest(listing)
      case None => (s, Some(NoArchivedManifest))
      case Some(n) => FoundIsListed(listing, n); Restore(s, s.archive.value, n, p)
  }

  /** Which errors stand for an archive that is missing or holds no manifest. */
  lemma RollbackErrors(s: Skill, listing: seq<string>, p: Platform)
    requires s.archive.Some? ==> IsListing(listing, s.archive.value.Keys)
    ensures Rollback(s, listing, p).1 == Some(NoArchive) <==> s.archive.None?
    ensures Rollback(s, listing, p).1 == Some(NoArchivedManifest) <==>
              s.archive.Some? && forall n :: n in s.archive.value ==> !IsManifestName(n)
  {
    if s.archive.Some? { ScanFindsLatest(listing, s.archive.value.Keys); }
  }

  lemma {:induction false} FoundIsListed(listing: seq<string>, n: string)
    requires LastManifest(listing) == Some(n)
    ensures n in listing && IsManifestName(n)
  {
    if listing != [] && !IsManifestName(listing[|listing| - 1]) {
      FoundIsListed(listing[..|listing| - 1], n);
    }
  }

  // ----- Rolling back a save

  /** What is installed: manifest, code and bundle, byte by byte. */
  datatype Contents = Contents(toml: Option<string>, js: Option<string>, bundle: Option<Node>)

  function Installed(s: Skill): Contents {
    Contents(s.toml, s.js, if BUNDLE in s.entries then Some(s.entries[BUNDLE]) else None)
  }

  /** Manifest and bundle agree: there is a bundle exactly if the manifest needs one. */
  predicate Agrees(s: Skill, m: Manifest) {
    NeedsBundle(m) <==> BUNDLE in s.entries
  }

  lemma LastOfSuffix(s: string, suffix: string)
    requires suffix != "" && s != "" && s[|s| - 1] != suffix[|suffix| - 1]
    ensures !HasSuffix(s, suffix)
  {
    if |s| >= |suffix| {
      assert s[|s| - |suffix|..][|suffix| - 1] == s[|s| - 1];
    }
  }

  lemma BundleIsAGoodRoot()
    ensures !IsBadRoot(BUNDLE)
  {
    assert BUNDLE[0] == 'b' && "../"[0] == '.';
  }

  lemma ArchiveNames(base: string)
    ensures IsManifestName(base + TOML_SUFFIX) && (base + TOML_SUFFIX)[..|base|] == base
    ensures !IsManifestName(base + JS_SUFFIX) && !IsManifestName(base + BUNDLE_SUFFIX)
    ensures base + JS_SUFFIX != base + BUNDLE_SUFFIX
  {
    var js, bundle := base + JS_SUFFIX, base + BUNDLE_SUFFIX;
    assert js[|js| - 1] == 's' && bundle[|bundle| - 1] == 'e' && TOML_SUFFIX[|TOML_SUFFIX| - 1] == 'l';
    LastOfSuffix(js, TOML_SUFFIX);
    LastOfSuffix(bundle, TOML_SUFFIX);
  }

  function Archived(s: Skill): map<string, Node> {
    if s.archive.Some? then s.archive.value else map[]
  }

  /** What a successful save has archived, under three new names. */
  lemma SavedArchive(s: Skill, m: Manifest, code: string, stamp: string, now: string, p: Platform)
    requires s.toml.Some? && Save(s, m, code, stamp, now, p).1.None?
    ensures var base, was := ArchiveBase(stamp, m.version), Archived(s);
            var archive := Save(s, m, code, stamp, now, p).0.archive;
            && archive.Some?
            && base + TOML_SUFFIX in archive.value && archive.value[base + TOML_SUFFIX] == File(s.toml.value)
            && (s.js.Some? ==> base + JS_SUFFIX in archive.value && archive.value[base + JS_SUFFIX] == File(s.js.value))
            && (BUNDLE in s.entries ==> s.entries[BUNDLE].Dir? && base + BUNDLE_SUFFIX in archive.value
                                        && archive.value[base + BUNDLE_SUFFIX] == s.entries[BUNDLE])
            && (s.js.None? ==> (base + JS_SUFFIX in archive.value <==> base + JS_SUFFIX in was))
            && (BUNDLE !in s.entries ==> (base + BUNDLE_SUFFIX in archive.value <==> base + BUNDLE_SUFFIX in was))
            && (forall n :: n in was && n !in [base + TOML_SUFFIX, base + JS_SUFFIX, base + BUNDLE_SUFFIX]
                            ==> n in archive.value && archive.value[n] == was[n])
            && (forall n :: n in archive.value ==>
                n in was || n in [base + TOML_SUFFIX, base + JS_SUFFIX, base + BUNDLE_SUFFIX])
  {
    ArchiveNames(ArchiveBase(stamp, m.version));
  }

  /** The scan picks the newly archived manifest exactly if no earlier one has a greater name. */
  lemma ScanPicksTheSaveIff(listing: seq<string>, names: set<string>, n: string)
    requires IsListing(listing, names) && n in names && IsManifestName(n)
    ensures LastManifest(listing) == Some(n) <==> forall m :: m in names && IsManifestName(m) ==> !Less(n, m)
  {
    ScanFindsLatest(listing, names);
    var last := LastManifest(listing).value;
    LessIsAnOrder(n, last, n);
    forall m | m in names && IsManifestName(m) ensures m == last || !Less(last, m) {
      LessIsAnOrder(m, last, m);
    }
    LessIsAnOrder(last, last, last);
  }

  /** A rollback undoes a save, whatever was done to the skill's directory in between except in its
      archive, exactly if manifest and bundle agreed before the save and there was code to archive, or
      neither is there any now nor was any archived under the same name. */
  lemma RollbackUndoesSaveIff(
    before: Skill, m: Manifest, code: string, stamp: string, now: string, after: Skill, listing: seq<string>,
    was: Manifest,
    p: Platform)
    requires before.toml.Some? && p.decode(before.toml.value) == Some(was)
    requires Save(before, m, code, stamp, now, p).1.None?
    requires after.archive == Save(before, m, code, stamp, now, p).0.archive
    requires after.archive.Some? && IsListing(listing, after.archive.value.Keys)
    requires NeedsBundle(was) ==> p.clean(TrimSpace(was.resourceRoot)) == BUNDLE
    requires var base := ArchiveBase(stamp, m.version);
             forall n :: n in Archived(before) && IsManifestName(n) ==> !Less(base + TOML_SUFFIX, n)
    ensures var (s, failure) := Rollback(after, listing, p);
            failure.None? && Installed(s) == Installed(before) <==>
              && Agrees(before, was)
              && (before.js.Some? || (after.js.None? && ArchiveBase(stamp, m.version) + JS_SUFFIX !in Archived(before)))
  {
    var base, archive := ArchiveBase(stamp, m.version), after.archive.value;
    SavedArchive(before, m, code, stamp, now, p);
    ArchiveNames(base);
    LessIsAnOrder(base + TOML_SUFFIX, base + TOML_SUFFIX, base + TOML_SUFFIX);
    ScanPicksTheSaveIff(listing, archive.Keys, base + TOML_SUFFIX);
    BundleIsAGoodRoot();
  }

  // ----- The order of archive names

  lemma {:induction false} StampsDecide(a: string, b: string, x: string, y: string)
    requires |a| == |b| && Less(a, b)
    ensures Less(a + x, b + y)
  {
    if a[0] == b[0] {
      assert (a + x)[1..] == a[1..] + x && (b + y)[1..] == b[1..] + y;
      StampsDecide(a[1..], b[1..], x, y);
    }
  }

  lemma {:induction false} LessInside(front: string, a: string, b: string)
    ensures Less(front + a, front + b) <==> Less(a, b)
  {
    if front == "" {
      assert front + a == a && front + b == b;
    } else {
      assert (front + a)[1..] == front[1..] + a && (front + b)[1..] == front[1..] + b;
      LessInside(front[1..], a, b);
    }
  }

  // ----- The installer

  /** Which of the four file operations of a replacement succeed. */
  datatype Outcome = Outcome(movedAway: bool, movedIn: bool, movedBack: bool, backupRemoved: bool)

  const ALL_SUCCEED := Outcome(true, true, true, true)

  function ReplaceBundle(entries: map<string, Node>, root: string, staged: Tree, backup: string, o: Outcome)
    : (map<string, Node>, Option<Failure>)
  {
    if root !in entries then
      if o.movedIn then (entries[root := Dir(staged)], None) else (entries, Some(RenameFailed))
    else if entries[root].Symlink? then (entries, Some(BundleIsSymlink))
    else if !o.movedAway then (entries, Some(RenameFailed))
    else
      var moved := (entries - {root})[backup := entries[root]];
      if o.movedIn then
        (if o.backupRemoved then moved[root := Dir(staged)] - {backup} else moved[root := Dir(staged)], None)
      else (if o.movedBack then (moved - {backup})[root := entries[root]] else moved, Some(RenameFailed))
  }

  /** A replacement is all or nothing: it fails without a change if the backup can be moved back, it never
      loses the old bundle unless the new one is in place, and it touches nothing else. */
  lemma ReplacementIsAllOrNothing(entries: map<string, Node>, root: string, staged: Tree, backup: string, o: Outcome)
    requires backup !in entries && backup != root
    ensures var (after, failure) := ReplaceBundle(entries, root, staged, backup, o);
            && (failure.None? <==> o.movedIn && (root in entries ==> !entries[root].Symlink? && o.movedAway))
            && (failure.None? ==> root in after && after[root] == Dir(staged))
            && (failure.None? && o.backupRemoved ==> after == entries[root := Dir(staged)])
            && (failure.Some? && o.movedBack ==> after == entries)
            && (failure.Some? && root in entries ==>
                  (root in after && after[root] == entries[root])
                    || (backup in after && after[backup] == entries[root]))
            && (forall n :: n != root && n != backup ==>
                (n in after <==> n in entries) && (n in entries ==> after[n] == entries[n]))
  {
  }

  const ABSENT := Skill(None, None, map[], None)

  function InstalledManifest(m: Manifest, bundle: Option<(seq<string>, Tree)>): Manifest {
    m.(version := 1, enabled := true, resourceRoot := if bundle.Some? then BUNDLE else "",
       resourceDirs := if bundle.Some? then bundle.value.0 else [])
  }

  /** What a successful installation leaves: the code, an enabled manifest of version 1 that names the bundle if
      there is one, and exactly the staged files as bundle; other entries stay. */
  lemma InstalledContents(s: Skill, m: Manifest, code: string, bundle: Option<(seq<string>, Tree)>, stamp: string,
                          now: string, backup: string, o: Outcome, p: Platform)
    requires IsPlatform(p) && backup !in s.entries && backup != BUNDLE
    requires Install(s, m, code, bundle, stamp, now, backup, o, p).1.None?
    ensures var after := Install(s, m, code, bundle, stamp, now, backup, o, p).0;
            && after.js == Some(code) && after.toml.Some?
            && (if bundle.None? then BUNDLE !in after.entries
                else BUNDLE in after.entries && after.entries[BUNDLE] == Dir(bundle.value.1))
            && (forall n :: n != BUNDLE && n != backup ==>
                  (n in after.entries <==> n in s.entries)
                  && (n in s.entries ==> after.entries[n] == s.entries[n]))
            && var written := p.decode(after.toml.value);
               && written.Some? && written.value.version == 1 && written.value.enabled
               && written.value.updatedAt == now && written.value.rest == m.rest
               && if bundle.None? then written.value.resourceRoot == "" && written.value.resourceDirs == []
                  else written.value.resourceRoot == BUNDLE && written.value.resourceDirs == bundle.value.0
  {
    SavedContents(s, InstalledManifest(m, bundle), code, stamp, now, p);
    if bundle.Some? {
      ReplacementIsAllOrNothing(s.entries, BUNDLE, bundle.value.1, backup, o);
    }
  }

  /** installSkillMd in prompt mode, once the source is read and its resources are staged. A failed save
      deletes the skill. */
  function Install(s: Skill, m: Manifest, code: string, bundle: Option<(seq<string>, Tree)>, stamp: string, now: string,
                   backup: string, o: Outcome, p: Platform): (Skill, Option<Failure>)
  {
    var (saved, failure) := Save(s, InstalledManifest(m, bundle), code, stamp, now, p);
    if failure.Some? then (ABSENT, failure)
    else if bundle.None? then (saved.(entries := saved.entries - {BUNDLE}), None)
    else
      var root := p.clean(BUNDLE);
      if IsBadRoot(root) then (ABSENT, Some(BadRoot))
      else
        var (entries, failure) := ReplaceBundle(saved.entries, root, bundle.value.1, backup, o);
        (saved.(entries := entries), failure)
  }

  /** EnableSkillFrom and DisableSkillFrom; the result is false if there is no such skill. */
  function SetEnabled(s: Skill, enabled: bool, stamp: string, now: string, p: Platform): (Skill, bool) {
    if s.toml.None? || p.decode(s.toml.value).None? then (s, false)
    else
      var (saved, failure) :=
        Save(s, p.decode(s.toml.value).value.(enabled := enabled),
             if s.js.Some? then s.js.value else "", stamp, now, p);
      (saved, failure.None?)
  }

  /** Enabling and disabling change the flag and the time of the last change, and nothing else. */
  lemma SetEnabledMeaning(s: Skill, enabled: bool, stamp: string, now: string, p: Platform)
    requires IsPlatform(p) && SetEnabled(s, enabled, stamp, now, p).1
    ensures var after := SetEnabled(s, enabled, stamp, now, p).0;
            && s.toml.Some? && p.decode(s.toml.value).Some? && after.toml.Some?
            && after.entries == s.entries && (s.js.Some? ==> after.js == s.js)
            && var was, written := p.decode(s.toml.value).value, p.decode(after.toml.value);
               && written.Some? && written.value.enabled == enabled && written.value.updatedAt == now
               && (was.createdAt != "" ==> written.value == was.(enabled := enabled, updatedAt := now))
  {
    var m := p.decode(s.toml.value).value.(enabled := enabled);
    SavedContents(s, m, if s.js.Some? then s.js.value else "", stamp, now, p);
  }

  // ----- Whole runs of the installer

  /** The TOML codec reads back what it wrote, and "bundle" is a clean path. */
  ghost predicate IsPlatform(p: Platform) {
    (forall m :: p.decode(p.encode(m)) == Some(m)) && p.clean(BUNDLE) == BUNDLE
  }

  ghost predicate IsSound(m: Manifest, p: Platform) {
    NeedsBundle(m) ==> p.clean(TrimSpace(m.resourceRoot)) == BUNDLE
  }

  /** A skill with manifest, code and, exactly if the manifest needs it, a bundle. */
  ghost predicate IsConsistent(s: Skill, p: Platform) {
    && s.toml.Some? && p.decode(s.toml.value).Some? && s.js.Some?
    && IsSound(p.decode(s.toml.value).value, p)
    && Agrees(s, p.decode(s.toml.value).value)
    && (BUNDLE in s.entries ==> s.entries[BUNDLE].Dir?)
  }

  ghost predicate IsComplete(archive: map<string, Node>, base: string, p: Platform) {
    && base + TOML_SUFFIX in archive && archive[base + TOML_SUFFIX].File?
    && p.decode(archive[base + TOML_SUFFIX].content).Some?
    && base + JS_SUFFIX in archive && archive[base + JS_SUFFIX].File?
    && IsSound(p.decode(archive[base + TOML_SUFFIX].content).value, p)
    && (NeedsBundle(p.decode(archive[base + TOML_SUFFIX].content).value) ==>
          base + BUNDLE_SUFFIX in archive && archive[base + BUNDLE_SUFFIX].Dir?)
  }

  ghost predicate ArchiveIsComplete(archive: map<string, Node>, p: Platform) {
    forall base :: base + TOML_SUFFIX in archive ==> IsComplete(archive, base, p)
  }

  lemma VersionTenSortsFirst(stamp: string)
    ensures Less(ArchiveBase(stamp, 11) + TOML_SUFFIX, ArchiveBase(stamp, 10) + TOML_SUFFIX)
    ensures |ArchiveBase(stamp, 11)| == |ArchiveBase(stamp, 10)| + 1
  {
    assert FormatNat(9) == "9" && FormatNat(10) == "10";
    var front := stamp + ".v";
    assert ArchiveBase(stamp, 11) + TOML_SUFFIX == front + ("10" + TOML_SUFFIX);
    assert ArchiveBase(stamp, 10) + TOML_SUFFIX == front + ("9" + TOML_SUFFIX);
    LessInside(front, "10" + TOML_SUFFIX, "9" + TOML_SUFFIX);
  }

  /** Two saves within one second, of versions 10 and 11, of a skill without an archive: the second one is
      archived under the smaller name, so a rollback does not undo it but goes back to what was there before
      the first. */
  lemma SameSecondGoesBackTwoVersions(
    before: Skill, m10: Manifest, m11: Manifest, code10: string, code11: string, stamp: string, now: string,
    listing: seq<string>, p: Platform)
    requires IsConsistent(before, p) && before.archive == None && m10.version == 10 && m11.version == 11
    requires var first := Save(before, m10, code10, stamp, now, p).0;
             var second := Save(first, m11, code11, stamp, now, p).0;
             && Installed(first) != Installed(before)
             && second.archive.Some? && IsListing(listing, second.archive.value.Keys)
    ensures var (first, failure10) := Save(before, m10, code10, stamp, now, p);
            var (second, failure11) := Save(first, m11, code11, stamp, now, p);
            var (s, failure) := Rollback(second, listing, p);
            && failure10.None? && failure11.None? && failure.None?
            && Installed(s) == Installed(before) && Installed(s) != Installed(first)
  {
    var first := Save(before, m10, code10, stamp, now, p).0;
    var second := Save(first, m11, code11, stamp, now, p).0;
    var base10, base11 := ArchiveBase(stamp, 10), ArchiveBase(stamp, 11);
    VersionTenSortsFirst(stamp);
    FirstArchive(before, m10, code10, stamp, now, p);
    SecondArchive(before, first, base10, m11, code11, stamp, now, p);
    LessIsAnOrder(base11 + TOML_SUFFIX, base10 + TOML_SUFFIX, base10 + TOML_SUFFIX);
    LessIsAnOrder(base10 + TOML_SUFFIX, base10 + TOML_SUFFIX, base10 + TOML_SUFFIX);
    RestoreBringsBack(second, second.archive.value, base10, before, p);
    ScanPicksTheSaveIff(listing, second.archive.value.Keys, base10 + TOML_SUFFIX);
  }

  /** The archive holds, under `base`, what is installed. */
  ghost predicate HoldsCopy(archive: map<string, Node>, base: string, s: Skill) {
    && s.toml.Some? && s.js.Some?
    && base + TOML_SUFFIX in archive && archive[base + TOML_SUFFIX] == File(s.toml.value)
    && base + JS_SUFFIX in archive && archive[base + JS_SUFFIX] == File(s.js.value)
    && (BUNDLE in s.entries ==> base + BUNDLE_SUFFIX in archive && archive[base + BUNDLE_SUFFIX] == s.entries[BUNDLE])
  }

  lemma FirstArchive(s: Skill, m: Manifest, code: string, stamp: string, now: string, p: Platform)
    requires IsConsistent(s, p) && s.archive == None
    ensures var (saved, failure), base := Save(s, m, code, stamp, now, p), ArchiveBase(stamp, m.version);
            && failure.None? && saved.archive.Some? && saved.entries == s.entries && saved.toml.Some?
            && HoldsCopy(saved.archive.value, base, s)
            && forall n :: n in saved.archive.value && IsManifestName(n) ==> n == base + TOML_SUFFIX
  {
    SavedArchive(s, m, code, stamp, now, p);
    ArchiveNames(ArchiveBase(stamp, m.version));
  }

  lemma SecondArchive(before: Skill, s: Skill, base: string, m: Manifest, code: string, stamp: string, now: string,
                      p: Platform)
    requires s.toml.Some? && s.archive.Some? && (BUNDLE in s.entries ==> s.entries[BUNDLE].Dir?)
    requires HoldsCopy(s.archive.value, base, before) && |ArchiveBase(stamp, m.version)| == |base| + 1
    requires forall n :: n in s.archive.value && IsManifestName(n) ==> n == base + TOML_SUFFIX
    ensures var (saved, failure), later := Save(s, m, code, stamp, now, p), ArchiveBase(stamp, m.version);
            && failure.None? && saved.archive.Some? && HoldsCopy(saved.archive.value, base, before)
            && forall n :: n in saved.archive.value && IsManifestName(n) ==>
              n == base + TOML_SUFFIX || n == later + TOML_SUFFIX
  {
    SavedArchive(s, m, code, stamp, now, p);
    ArchiveNames(ArchiveBase(stamp, m.version));
    LongerBaseDiffers(base, ArchiveBase(stamp, m.version));
  }

  lemma LongerBaseDiffers(a: string, b: string)
    requires |b| == |a| + 1
    ensures forall n :: n in [a + TOML_SUFFIX, a + JS_SUFFIX, a + BUNDLE_SUFFIX] ==>
              n !in [b + TOML_SUFFIX, b + JS_SUFFIX, b + BUNDLE_SUFFIX]
  {
    assert |a + TOML_SUFFIX| == |a| + 11 && |a + JS_SUFFIX| == |a| + 3 && |a + BUNDLE_SUFFIX| == |a| + 7;
    assert |b + TOML_SUFFIX| == |a| + 12 && |b + JS_SUFFIX| == |a| + 4 && |b + BUNDLE_SUFFIX| == |a| + 8;
  }

  /** Restoring a complete archive of a consistent skill brings back its contents. */
  lemma RestoreBringsBack(s: Skill, archive: map<string, Node>, base: string, before: Skill, p: Platform)
    requires IsConsistent(before, p) && HoldsCopy(archive, base, before)
    ensures IsManifestName(base + TOML_SUFFIX)
    ensures var (after, failure) := Restore(s, archive, base + TOML_SUFFIX, p);
            failure.None? && Installed(after) == Installed(before)
  {
    ArchiveNames(base);
    BundleIsAGoodRoot();
  }

  const STAMP_LEN := 15

  /** All archived names start with one of these stamps. */
  ghost predicate NamesHaveStamps(archive: map<string, Node>, stamps: set<string>) {
    && (forall t :: t in stamps ==> |t| == STAMP_LEN)
    && (forall n :: n in archive ==> |n| >= STAMP_LEN && n[..STAMP_LEN] in stamps)
  }

  ghost predicate Inv(s: Skill, stamps: set<string>, p: Platform) {
    && (s == ABSENT || IsConsistent(s, p))
    && ArchiveIsComplete(Archived(s), p)
    && NamesHaveStamps(Archived(s), stamps)
  }

  /** A stamp later than all earlier ones makes names that are new and the greatest. */
  lemma LaterNames(archive: map<string, Node>, stamps: set<string>, stamp: string, version: nat)
    requires NamesHaveStamps(archive, stamps) && |stamp| == STAMP_LEN && forall t :: t in stamps ==> Less(t, stamp)
    ensures forall n {:trigger n in archive} :: n in archive ==>
              Less(n, ArchiveBase(stamp, version) + TOML_SUFFIX) && n[..STAMP_LEN] != stamp
  {
    forall n | n in archive ensures Less(n, ArchiveBase(stamp, version) + TOML_SUFFIX) && n[..STAMP_LEN] != stamp {
      var rest := ".v" + FormatNat((version - 1) % TWO32) + TOML_SUFFIX;
      StampsDecide(n[..STAMP_LEN], stamp, n[STAMP_LEN..], rest);
      assert n == n[..STAMP_LEN] + n[STAMP_LEN..];
      assert ArchiveBase(stamp, version) + TOML_SUFFIX == stamp + rest;
      LessIsAnOrder(stamp, stamp, stamp);
    }
  }

  ghost predicate IsLater(stamp: string, stamps: set<string>) {
    |stamp| == STAMP_LEN && forall t :: t in stamps ==> Less(t, stamp)
  }

  lemma NewNamesHaveStamp(stamp: string, version: nat)
    requires |stamp| == STAMP_LEN
    ensures var base := ArchiveBase(stamp, version);
            forall n :: n in [base + TOML_SUFFIX, base + JS_SUFFIX, base + BUNDLE_SUFFIX] ==>
              |n| >= STAMP_LEN && n[..STAMP_LEN] == stamp
  {
    var base := ArchiveBase(stamp, version);
    assert (base + TOML_SUFFIX)[..STAMP_LEN] == base[..STAMP_LEN] == stamp;
    assert (base + JS_SUFFIX)[..STAMP_LEN] == base[..STAMP_LEN];
    assert (base + BUNDLE_SUFFIX)[..STAMP_LEN] == base[..STAMP_LEN];
  }

  lemma SaveKeepsArchive(s: Skill, stamps: set<string>, m: Manifest, code: string, stamp: string, now: string,
                         p: Platform)
    requires Inv(s, stamps, p) && IsLater(stamp, stamps)
    ensures var (saved, failure) := Save(s, m, code, stamp, now, p);
            && failure.None? && ArchiveIsComplete(Archived(saved), p)
            && NamesHaveStamps(Archived(saved), stamps + {stamp})
  {
    var (saved, failure) := Save(s, m, code, stamp, now, p);
    if s.toml.Some? {
      var base, was, archive := ArchiveBase(stamp, m.version), Archived(s), Archived(saved);
      SavedArchive(s, m, code, stamp, now, p);
      LaterNames(was, stamps, stamp, m.version);
      NewNamesHaveStamp(stamp, m.version);
      forall other | other + TOML_SUFFIX in archive ensures IsComplete(archive, other, p) {
        if other + TOML_SUFFIX in was {
          assert IsComplete(was, other, p);
        } else {
          ArchiveNames(base);
          ArchiveNames(other);
          assert other + TOML_SUFFIX == base + TOML_SUFFIX;
          assert other == base by { assert |other| == |base|; }
        }
      }
    }
  }

  lemma InstalledNeeds(written: Manifest, bundle: Option<(seq<string>, Tree)>, now: string, p: Platform)
    requires IsPlatform(p) && (bundle.Some? ==> bundle.value.0 != []) && written == InstalledManifest(written, bundle)
    ensures p.decode(p.encode(Stamped(written, now))) == Some(Stamped(written, now))
    ensures IsSound(Stamped(written, now), p) && (NeedsBundle(Stamped(written, now)) <==> bundle.Some?)
  {
    var root := written.resourceRoot;
    assert root != "" ==> !IsSpace(root[0]) && !IsSpace(root[|root| - 1]);
    TrimFixed(root, IsSpace);
  }

  lemma InstalledIsConsistent(s: Skill, m: Manifest, code: string, bundle: Option<(seq<string>, Tree)>, stamp: string,
                              now: string, backup: string, p: Platform)
    requires IsPlatform(p) && (bundle.Some? ==> bundle.value.0 != []) && backup !in s.entries && backup != BUNDLE
    requires Save(s, InstalledManifest(m, bundle), code, stamp, now, p).1.None?
    requires BUNDLE in s.entries ==> s.entries[BUNDLE].Dir?
    ensures var (s', failure) := Install(s, m, code, bundle, stamp, now, backup, ALL_SUCCEED, p);
            && failure.None? && IsConsistent(s', p)
            && s'.archive == Save(s, InstalledManifest(m, bundle), code, stamp, now, p).0.archive
  {
    BundleIsAGoodRoot();
    InstalledNeeds(InstalledManifest(m, bundle), bundle, now, p);
    if bundle.Some? {
      ReplacementIsAllOrNothing(s.entries, BUNDLE, bundle.value.1, backup, ALL_SUCCEED);
    }
  }

  lemma InstallKeepsInv(s: Skill, stamps: set<string>, m: Manifest, code: string, bundle: Option<(seq<string>, Tree)>,
                        stamp: string,
                        now: string, backup: string, p: Platform)
    requires Inv(s, stamps, p) && IsLater(stamp, stamps) && IsPlatform(p)
    requires (bundle.Some? ==> bundle.value.0 != []) && backup !in s.entries && backup != BUNDLE
    ensures var (s', failure) := Install(s, m, code, bundle, stamp, now, backup, ALL_SUCCEED, p);
            failure.None? && Inv(s', stamps + {stamp}, p)
  {
    SaveKeepsArchive(s, stamps, InstalledManifest(m, bundle), code, stamp, now, p);
    InstalledIsConsistent(s, m, code, bundle, stamp, now, backup, p);
  }

  lemma SetEnabledKeepsInv(s: Skill, stamps: set<string>, enabled: bool, stamp: string, now: string, p: Platform)
    requires Inv(s, stamps, p) && IsLater(stamp, stamps) && IsPlatform(p)
    ensures SetEnabled(s, enabled, stamp, now, p).1 <==> s != ABSENT
    ensures Inv(SetEnabled(s, enabled, stamp, now, p).0, stamps + {stamp}, p)
  {
    if s != ABSENT {
      var m := p.decode(s.toml.value).value.(enabled := enabled);
      SaveKeepsArchive(s, stamps, m, s.js.value, stamp, now, p);
      assert p.decode(p.encode(Stamped(m, now))) == Some(Stamped(m, now));
    }
  }

  lemma RollbackKeepsArchive(s: Skill, listing: seq<string>, p: Platform)
    requires s.archive.Some? ==> forall n :: n in listing ==> n in s.archive.value
    ensures Rollback(s, listing, p).0.archive == s.archive
  {
  }

  lemma RollbackKeepsInv(s: Skill, stamps: set<string>, listing: seq<string>, p: Platform)
    requires Inv(s, stamps, p) && (s.archive.Some? ==> IsListing(listing, s.archive.value.Keys))
    ensures Inv(Rollback(s, listing, p).0, stamps, p)
    ensures Rollback(s, listing, p).1 in {None, Some(NoArchive), Some(NoArchivedManifest)}
  {
    if s.archive.Some? && LastManifest(listing).Some? {
      var n := LastManifest(listing).value;
      FoundIsListed(listing, n);
      var base := n[..|n| - |TOML_SUFFIX|];
      assert n == base + TOML_SUFFIX;
      assert IsComplete(s.archive.value, base, p);
      BundleIsAGoodRoot();
    }
  }

  datatype Event =
    | InstallEvent(m: Manifest, code: string, bundle: Option<(seq<string>, Tree)>, stamp: string, now: string,
                   backup: string)
    | EnableEvent(enabled: bool, stamp: string, now: string)
    | RollbackEvent(listing: seq<string>)

  /** One event, with stamps that grow and file operations that succeed. */
  ghost predicate Next(s: Skill, stamps: set<string>, e: Event, s': Skill, p: Platform) {
    match e
    case InstallEvent(m, code, bundle, stamp, now, backup) =>
      && IsLater(stamp, stamps) && (bundle.Some? ==> bundle.value.0 != []) && backup !in s.entries && backup != BUNDLE
      && s' == Install(s, m, code, bundle, stamp, now, backup, ALL_SUCCEED, p).0
    case EnableEvent(enabled, stamp, now) => IsLater(stamp, stamps) && s' == SetEnabled(s, enabled, stamp, now, p).0
    case RollbackEvent(listing) =>
      (s.archive.Some? ==> IsListing(listing, s.archive.value.Keys)) && s' == Rollback(s, listing, p).0
  }

  function StampsOf(es: seq<Event>): set<string> {
    if es == [] then {}
    else
      var last := es[|es| - 1];
      StampsOf(es[..|es| - 1]) + if last.RollbackEvent? then {} else {last.stamp}
  }

  ghost predicate IsRun(ss: seq<Skill>, es: seq<Event>, p: Platform) {
    && IsPlatform(p) && |ss| == |es| + 1 && ss[0] == ABSENT
    && forall i {:trigger es[i]} :: 0 <= i < |es| ==> Next(ss[i], StampsOf(es[..i]), es[i], ss[i + 1], p)
  }

  lemma {:induction false} InvOnRun(ss: seq<Skill>, es: seq<Event>, p: Platform, n: nat)
    requires IsRun(ss, es, p) && n <= |es|
    ensures Inv(ss[n], StampsOf(es[..n]), p)
  {
    if n > 0 {
      InvOnRun(ss, es, p, n - 1);
      var s, stamps, e := ss[n - 1], StampsOf(es[..n - 1]), es[n - 1];
      assert es[..n][..n - 1] == es[..n - 1];
      assert Next(s, stamps, e, ss[n], p);
      match e
      case InstallEvent(m, code, bundle, stamp, now, backup) =>
        InstallKeepsInv(s, stamps, m, code, bundle, stamp, now, backup, p);
      case EnableEvent(enabled, stamp, now) => SetEnabledKeepsInv(s, stamps, enabled, stamp, now, p);
      case RollbackEvent(listing) => RollbackKeepsInv(s, stamps, listing, p);
    }
  }

  /** The events after number `i` are rollbacks. */
  predicate OnlyRollbacksAfter(es: seq<Event>, i: nat) {
    forall j :: i < j < |es| ==> es[j].RollbackEvent?
  }

  lemma {:induction false} ArchiveStays(ss: seq<Skill>, es: seq<Event>, p: Platform, i: nat, n: nat)
    requires IsRun(ss, es, p) && OnlyRollbacksAfter(es, i) && i < n <= |es|
    ensures ss[n].archive == ss[i + 1].archive
    decreases n
  {
    if n > i + 1 {
      ArchiveStays(ss, es, p, i, n - 1);
      assert es[n - 1].RollbackEvent? && Next(ss[n - 1], StampsOf(es[..n - 1]), es[n - 1], ss[n], p);
      RollbackKeepsArchive(ss[n - 1], es[n - 1].listing, p);
    }
  }

  /** The manifest a saving event writes, and the code with it. */
  function WrittenBy(s: Skill, e: Event, p: Platform): (Manifest, string)
    requires !e.RollbackEvent? && s.toml.Some? && s.js.Some? && p.decode(s.toml.value).Some?
  {
    match e
    case InstallEvent(m, code, bundle, _, _, _) => (InstalledManifest(m, bundle), code)
    case EnableEvent(enabled, _, _) => (p.decode(s.toml.value).value.(enabled := enabled), s.js.value)
  }

  lemma SavingArchives(s: Skill, stamps: set<string>, e: Event, s': Skill, p: Platform)
    requires Inv(s, stamps, p) && s != ABSENT && IsPlatform(p) && Next(s, stamps, e, s', p) && !e.RollbackEvent?
    ensures var (m, code) := WrittenBy(s, e, p);
            && Save(s, m, code, e.stamp, e.now, p).1.None?
            && s'.archive == Save(s, m, code, e.stamp, e.now, p).0.archive
  {
    var (m, code) := WrittenBy(s, e, p);
    SaveKeepsArchive(s, stamps, m, code, e.stamp, e.now, p);
    if e.InstallEvent? {
      InstalledIsConsistent(s, e.m, e.code, e.bundle, e.stamp, e.now, e.backup, p);
    }
  }

  /** In every run, a rollback brings back manifest, code and bundle byte by byte as they were before the
      last installation or change of `enabled`, however many rollbacks there were since. */
  lemma RollbackRestoresTheStateBeforeTheLastSave(ss: seq<Skill>, es: seq<Event>, p: Platform, i: nat,
      listing: seq<string>)
    requires IsRun(ss, es, p) && i < |es| && !es[i].RollbackEvent? && OnlyRollbacksAfter(es, i) && ss[i] != ABSENT
    requires var now := ss[|es|]; now.archive.Some? ==> IsListing(listing, now.archive.value.Keys)
    ensures var (s, failure) := Rollback(ss[|es|], listing, p);
            failure.None? && Installed(s) == Installed(ss[i])
  {
    var before, stamps, e := ss[i], StampsOf(es[..i]), es[i];
    InvOnRun(ss, es, p, i);
    assert Next(before, stamps, e, ss[i + 1], p);
    SavingArchives(before, stamps, e, ss[i + 1], p);
    ArchiveStays(ss, es, p, i, |es|);
    var (m, code) := WrittenBy(before, e, p);
    RollbackUndoesConsistent(before, stamps, m, code, e.stamp, e.now, ss[|es|], listing, p);
  }

  lemma RollbackUndoesConsistent(before: Skill, stamps: set<string>, m: Manifest, code: string, stamp: string,
                                 now: string,
                                 after: Skill, listing: seq<string>, p: Platform)
    requires Inv(before, stamps, p) && before != ABSENT && IsLater(stamp, stamps)
    requires Save(before, m, code, stamp, now, p).1.None?
             && after.archive == Save(before, m, code, stamp, now, p).0.archive
    requires after.archive.Some? ==> IsListing(listing, after.archive.value.Keys)
    ensures var (s, failure) := Rollback(after, listing, p);
            failure.None? && Installed(s) == Installed(before)
  {
    var was, base := Archived(before), ArchiveBase(stamp, m.version);
    SavedArchive(before, m, code, stamp, now, p);
    LaterNames(was, stamps, stamp, m.version);
    NewNamesHaveStamp(stamp, m.version);
    forall n | n in was && IsManifestName(n) ensures !Less(base + TOML_SUFFIX, n) {
      LessIsAnOrder(n, base + TOML_SUFFIX, n);
    }
    RollbackUndoesSaveIff(before, m, code, stamp, now, after, listing, p.decode(before.toml.value).value, p);
  }

  // ----- The directory of one skill

  /** The backwards scan over the archive. */
  method LatestManifest(listing: seq<string>) returns (latest: Option<string>)
    ensures latest == LastManifest(listing)
  {
    var i := |listing| - 1;
    assert listing[..i + 1] == listing;
    while i >= 0
      invariant -1 <= i < |listing| && LastManifest(listing[..i + 1]) == LastManifest(listing)
    {
      if IsManifestName(listing[i]) {
        return Some(listing[i]);
      }
      assert listing[..i + 1][..i] == listing[..i];
      i := i - 1;
    }
    latest := None;
  }

  class SkillDirectory {
    var toml: Option<string>
    var js: Option<string>
    var entries: map<string, Node>
    var archive: Option<map<string, Node>>

    constructor ()
      ensures View() == ABSENT
    {
      toml, js, entries, archive := None, None, map[], None;
    }

    function View(): Skill
      reads this
    {
      Skill(toml, js, entries, archive)
    }

    /** archiveSkillBundle */
    method ArchiveSkillBundle(base: string) returns (failure: Option<Failure>)
      requires archive.Some?
      modifies `archive
      ensures (archive, failure) ==
              (Some(ArchiveBundle(old(View()), old(archive).value, base).0),
               ArchiveBundle(old(View()), old(archive).value, base).1)
      ensures failure == Some(BundleIsSymlink) <==> BUNDLE in entries && entries[BUNDLE].Symlink?
      ensures failure == Some(BundleIsNoDirectory) <==> BUNDLE in entries && entries[BUNDLE].File?
    {
      if BUNDLE !in entries {
        return None;
      }
      var root := entries[BUNDLE];
      if root.Symlink? {
        return Some(BundleIsSymlink);
      }
      if !root.Dir? {
        return Some(BundleIsNoDirectory);
      }
      archive := Some(archive.value[base + BUNDLE_SUFFIX := root]);
      failure := None;
    }

    method SaveSkillTo(m: Manifest, code: string, stamp: string, now: string, p: Platform)
      returns (failure: Option<Failure>)
      modifies this
      ensures (View(), failure) == Save(old(View()), m, code, stamp, now, p)
    {
      if toml.Some? {
        var base := ArchiveBase(stamp, m.version);
        if archive.None? {
          archive := Some(map[]);
        }
        archive := Some(archive.value[base + TOML_SUFFIX := File(toml.value)]);
        if js.Some? {
          archive := Some(archive.value[base + JS_SUFFIX := File(js.value)]);
        }
        assert archive.value == ArchiveFiles(old(View()), base);
        failure := ArchiveSkillBundle(base);
        if failure.Some? {
          return;
        }
      }
      var updated := m.(updatedAt := now);
      if updated.createdAt == "" {
        updated := updated.(createdAt := now);
      }
      toml := Some(p.encode(updated));
      js := Some(code);
      failure := None;
    }

    method RestoreArchivedSkillBundle(base: string, m: Manifest, p: Platform) returns (failure: Option<Failure>)
      requires archive.Some?
      modifies `entries
      ensures (View(), failure) == RestoreBundle(old(View()), archive.value, base, m, p)
    {
      if TrimSpace(m.resourceRoot) == "" || |m.resourceDirs| == 0 {
        entries := entries - {BUNDLE};
        return None;
      }
      var root := p.clean(TrimSpace(m.resourceRoot));
      if IsBadRoot(root) {
        return Some(BadRoot);
      }
      if base + BUNDLE_SUFFIX !in archive.value {
        return Some(BundleMissing);
      }
      var source := archive.value[base + BUNDLE_SUFFIX];
      if source.Symlink? {
        return Some(BundleIsSymlink);
      }
      if !source.Dir? {
        return Some(BundleIsNoDirectory);
      }
      entries := entries[root := source];
      failure := None;
    }

    /** `listing` is what os.ReadDir returns for the archive. */
    method RollbackSkillFrom(listing: seq<string>, p: Platform) returns (failure: Option<Failure>)
      requires archive.Some? ==> IsListing(listing, archive.value.Keys)
      modifies `toml, `js, `entries
      ensures (View(), failure) == Rollback(old(View()), listing, p)
    {
      if archive.None? {
        return Some(NoArchive);
      }
      var found := LatestManifest(listing);
      if found.None? {
        return Some(NoArchivedManifest);
      }
      var latest := found.value;
      FoundIsListed(listing, latest);
      var base := latest[..|latest| - |TOML_SUFFIX|];
      var data := archive.value[latest];
      if !data.File? {
        return Some(ReadFailed);
      }
      var archived := p.decode(data.content);
      if archived.None? {
        return Some(BadManifest);
      }
      toml := Some(data.content);
      if base + JS_SUFFIX in archive.value {
        var code := archive.value[base + JS_SUFFIX];
        if !code.File? {
          return Some(ReadFailed);
        }
        js := Some(code.content);
      }
      failure := RestoreArchivedSkillBundle(base, archived.value, p);
    }

    method ReplaceSkillBundle(root: string, staged: Tree, backup: string, o: Outcome) returns (failure: Option<Failure>)
      requires backup !in entries && backup != root
      modifies `entries
      ensures (entries, failure) == ReplaceBundle(old(entries), root, staged, backup, o)
    {
      var hasBackup := false;
      if root in entries {
        if entries[root].Symlink? {
          return Some(BundleIsSymlink);
        }
        if !o.movedAway {
          return Some(RenameFailed);
        }
        entries := (entries - {root})[backup := entries[root]];
        hasBackup := true;
      }
      if !o.movedIn {
        if hasBackup && o.movedBack {
          entries := (entries - {backup})[root := entries[backup]];
        }
        return Some(RenameFailed);
      }
      entries := entries[root := Dir(staged)];
      if hasBackup && o.backupRemoved {
        entries := entries - {backup};
      }
      failure := None;
    }

    method DeleteSkill()
      modifies this
      ensures View() == ABSENT
    {
      toml, js, entries, archive := None, None, map[], None;
    }

    /** installSkillMd in prompt mode, from the point where the resources are staged. */
    method InstallSkillMd(m: Manifest, code: string, bundle: Option<(seq<string>, Tree)>, stamp: string, now: string,
                          backup: string, o: Outcome, p: Platform) returns (failure: Option<Failure>)
      requires backup !in entries && backup != p.clean(BUNDLE)
      modifies this
      ensures (View(), failure) == Install(old(View()), m, code, bundle, stamp, now, backup, o, p)
    {
      var skill := m.(version := 1, enabled := true, resourceRoot := "", resourceDirs := []);
      if bundle.Some? {
        skill := skill.(resourceRoot := BUNDLE, resourceDirs := bundle.value.0);
      }
      failure := SaveSkillTo(skill, code, stamp, now, p);
      if failure.Some? {
        DeleteSkill();
        return;
      }
      if bundle.Some? {
        var root := p.clean(BUNDLE);
        if IsBadRoot(root) {
          DeleteSkill();
          return Some(BadRoot);
        }
        failure := ReplaceSkillBundle(root, bundle.value.1, backup, o);
      } else {
        entries := entries - {BUNDLE};
      }
    }
  }
}
