/** The updater's change planner (updater/utils/update_thread.py): which files
    are user data that an update must not touch, which files are not tracked
    at all, the scans that map relative paths to content hashes, and the
    comparison of the release tree with the installed tree that yields the
    files to update, add and remove. Downloading, unpacking, hashing, copying
    and deleting are not part of this model: a scan is given the items the
    directory walk yields, each with the hash the hasher computed. */
module Updater {
  import opened Common

  /** An MD5 hex digest. The hasher answers `None` for a file it cannot read. */
  type Hash = string

  /** User data an update must leave alone, as path prefixes. */
  const PreservePatterns: seq<string> := ["app/storage/", ".env", "config.ini", "settings.json"]

  /** Names the installed-tree scan skips; a leading `*` is a suffix wildcard. */
  const IgnorePatterns: seq<string> := ["__pycache__", ".git", "*.pyc", "venv", "backup_*"]

  // ---------------------------------------------------------------------------
  // Preserve and ignore tests

  /** The patterns are tried in order; the first prefix of `path` answers. */
  function StartsWithAny(patterns: seq<string>, path: string): (r: bool)
    ensures r <==> exists k :: 0 <= k < |patterns| && IsPrefix(patterns[k], path)
  {
    if |patterns| == 0 then false
    else if IsPrefix(patterns[0], path) then true
    else
      var rest := StartsWithAny(patterns[1..], path);
      assert forall k :: 1 <= k < |patterns| ==> patterns[1..][k - 1] == patterns[k];
      rest
  }

  /** `should_preserve_file`: the relative path starts with a preserve pattern. */
  function ShouldPreserveFile(relativePath: string): (r: bool)
    ensures r <==> exists k :: 0 <= k < |PreservePatterns| && IsPrefix(PreservePatterns[k], relativePath)
  {
    StartsWithAny(PreservePatterns, relativePath)
  }

  /** Differing at one position rules out a prefix. */
  lemma NotPrefixAt(p: string, s: string, i: nat)
    requires i < |p| && i < |s| && p[i] != s[i]
    ensures !IsPrefix(p, s)
  {
    if |p| <= |s| {
      assert s[..|p|][i] == s[i];
    }
  }

  /** A path whose first character begins no preserve pattern is not preserved. */
  lemma NotPreservedByFirstChar(path: string)
    requires |path| > 0 && path[0] != 'a' && path[0] != '.' && path[0] != 'c' && path[0] != 's'
    ensures !ShouldPreserveFile(path)
  {
    NotPrefixAt("app/storage/", path, 0);
    NotPrefixAt(".env", path, 0);
    NotPrefixAt("config.ini", path, 0);
    NotPrefixAt("settings.json", path, 0);
  }

  /** The test is a plain prefix test on the whole relative path: `.envrc` and
      `settings.json.bak` are preserved too, while a `.env` inside a
      sub-directory is not. */
  lemma PreserveIsPlainPrefix()
    ensures ShouldPreserveFile(".envrc") && ShouldPreserveFile("settings.json.bak")
    ensures ShouldPreserveFile("app/storage/momentum.db")
    ensures !ShouldPreserveFile("api/.env") && !ShouldPreserveFile("app/main.py")
  {
    assert IsPrefix(PreservePatterns[1], ".envrc");
    assert IsPrefix(PreservePatterns[3], "settings.json.bak");
    assert IsPrefix(PreservePatterns[0], "app/storage/momentum.db");
    NotPrefixAt(".env", "api/.env", 0);
    NotPrefixAt("app/storage/", "app/main.py", 4);
    NotPrefixAt(".env", "app/main.py", 0);
    NotPrefixAt("config.ini", "app/main.py", 0);
  }

  /** One ignore pattern against a name: `*x` means "ends with x", anything
      else "occurs in". */
  predicate NameMatches(pattern: string, name: string) {
    if |pattern| > 0 && pattern[0] == '*' then IsSuffix(pattern[1..], name)
    else IsSubstring(pattern, name)
  }

  function MatchesAny(patterns: seq<string>, name: string): (r: bool)
    ensures r <==> exists k :: 0 <= k < |patterns| && NameMatches(patterns[k], name)
  {
    if |patterns| == 0 then false
    else if NameMatches(patterns[0], name) then true
    else
      var rest := MatchesAny(patterns[1..], name);
      assert forall k :: 1 <= k < |patterns| ==> patterns[1..][k - 1] == patterns[k];
      rest
  }

  /** The nested `should_ignore`, applied to `path.name`. */
  function ShouldIgnore(name: string): (r: bool)
    ensures r <==> exists k :: 0 <= k < |IgnorePatterns| && NameMatches(IgnorePatterns[k], name)
  {
    MatchesAny(IgnorePatterns, name)
  }

  /** A pattern never occurs in a name that lacks one of its characters. */
  lemma NotSubstringWithoutChar(p: string, s: string, c: char)
    requires c in p && c !in s
    ensures !IsSubstring(p, s)
  {
    var m :| 0 <= m < |p| && p[m] == c;
    forall i | 0 <= i <= |s| ensures !IsPrefix(p, s[i..]) {
      if |p| <= |s| - i {
        assert s[i..][..|p|][m] == s[i + m];
      }
    }
  }

  /** Only `backup_*` has its `*` last, where it is not a wildcard: the pattern
      matches only names that contain a literal `*`, so no backup folder or
      file is ever ignored by it. */
  lemma BackupPatternIsLiteral(name: string)
    requires '*' !in name
    ensures !NameMatches(IgnorePatterns[4], name)
  {
    NotSubstringWithoutChar("backup_*", name, '*');
  }

  /** Examples of the suffix and substring rules. */
  lemma IgnoreExamples()
    ensures ShouldIgnore("module.pyc") && ShouldIgnore(".gitignore") && ShouldIgnore("venv")
    ensures !ShouldIgnore("site.py")
  {
    assert NameMatches(IgnorePatterns[2], "module.pyc");
    assert IsPrefix(".git", ".gitignore"[0..]);
    assert NameMatches(IgnorePatterns[1], ".gitignore");
    assert IsPrefix("venv", "venv"[0..]);
    assert NameMatches(IgnorePatterns[3], "venv");
    SiteIsNotIgnored();
  }

  lemma SiteIsNotIgnored()
    ensures !ShouldIgnore("site.py")
  {
    NotSubstringWithoutChar("__pycache__", "site.py", '_');
    NotSubstringWithoutChar(".git", "site.py", 'g');
    NotSubstringWithoutChar("venv", "site.py", 'v');
    NotSubstringWithoutChar("backup_*", "site.py", '*');
    assert "site.py"[3..] != ".pyc";
  }

  /** A suffix stays a suffix when both strings grow by the same character. */
  lemma SuffixSnoc(s: string, x: string, c: char)
    requires IsSuffix(x, s)
    ensures IsSuffix(x + [c], s + [c])
    ensures |x| < |s| ==> (s + [c])[|s| - |x| - 1] == s[|s| - |x| - 1]
  {
    assert (s + [c])[|s| - |x|..] == s[|s| - |x|..] + [c];
  }

  /** `Path(p).name`: the text after the last '/'. */
  function BaseName(path: string): (name: string)
    ensures '/' !in name && IsSuffix(name, path)
    ensures |name| < |path| ==> path[|path| - |name| - 1] == '/'
  {
    if |path| == 0 then ""
    else if path[|path| - 1] == '/' then ""
    else
      var prefix := path[..|path| - 1];
      var c := path[|path| - 1];
      var init := BaseName(prefix);
      assert path == prefix + [c];
      SuffixSnoc(prefix, init, c);
      init + [c]
  }

  // ---------------------------------------------------------------------------
  // Scans

  /** One entry of `rglob('*')`: its path relative to the scanned root,
      whether it is a file, and the hash the hasher gives for it. */
  datatype FsItem = FsItem(relPath: string, isFile: bool, hash: Option<Hash>)

  /** A `files_info` dict: keys in insertion order and the hash stored for
      each (the stored `path` and `size` are not used by the planner). */
  datatype FilesInfo = FilesInfo(order: seq<string>, hashes: map<string, Option<Hash>>)

  /** The keys in `order` are those of the dict, each once. */
  ghost predicate WellFormed(m: FilesInfo) {
    && (forall a, b :: 0 <= a < b < |m.order| ==> m.order[a] != m.order[b])
    && (forall p :: p in m.hashes <==> p in m.order)
  }

  const NoFiles: FilesInfo := FilesInfo([], map[])

  /** `files_info[path] = {...}`: a new key goes last, an existing one keeps its place. */
  function Put(m: FilesInfo, path: string, hash: Option<Hash>): (r: FilesInfo)
    ensures WellFormed(m) ==> WellFormed(r)
    ensures r.hashes == m.hashes[path := hash]
  {
    if path in m.hashes then FilesInfo(m.order, m.hashes[path := hash])
    else FilesInfo(m.order + [path], m.hashes[path := hash])
  }

  predicate IsFile(item: FsItem) {
    item.isFile
  }

  /** What the installed-tree scan records: a file whose name is not ignored
      and whose relative path is not preserved. */
  predicate Tracked(item: FsItem) {
    item.isFile && !ShouldIgnore(BaseName(item.relPath)) && !ShouldPreserveFile(item.relPath)
  }

  /** The dict a scan builds from the items `keep` accepts. Its keys are
      exactly their relative paths, and each stored hash is that of an item
      with that path. */
  function Collect(items: seq<FsItem>, keep: FsItem -> bool): (r: FilesInfo)
    ensures WellFormed(r)
    ensures forall p :: p in r.hashes <==> exists j :: 0 <= j < |items| && keep(items[j]) && items[j].relPath == p
    ensures forall p :: p in r.hashes ==>
      exists j :: 0 <= j < |items| && keep(items[j]) && items[j].relPath == p && items[j].hash == r.hashes[p]
    decreases |items|
  {
    if |items| == 0 then NoFiles
    else
      var init := items[..|items| - 1];
      var m := Collect(init, keep);
      var item := items[|items| - 1];
      assert forall j :: 0 <= j < |init| ==> init[j] == items[j];
      if keep(item) then Put(m, item.relPath, item.hash) else m
  }

  /** `get_release_files_info`: every file of the unpacked release. */
  method GetReleaseFilesInfo(allFiles: seq<FsItem>) returns (filesInfo: FilesInfo)
    ensures filesInfo == Collect(allFiles, IsFile)
  {
    filesInfo := NoFiles;
    var i := 0;
    while i < |allFiles|
      invariant 0 <= i <= |allFiles|
      invariant filesInfo == Collect(allFiles[..i], IsFile)
    {
      var item := allFiles[i];
      assert allFiles[..i + 1][..i] == allFiles[..i];
      if item.isFile {
        filesInfo := Put(filesInfo, item.relPath, item.hash);
      }
      i := i + 1;
    }
    assert allFiles[..i] == allFiles;
  }

  /** `get_current_files_info`: the installed files that are neither ignored
      by name nor preserved; no ignored or preserved path is recorded. */
  method GetCurrentFilesInfo(allItems: seq<FsItem>) returns (filesInfo: FilesInfo)
    ensures filesInfo == Collect(allItems, Tracked)
    ensures forall p :: p in filesInfo.hashes ==> !ShouldPreserveFile(p) && !ShouldIgnore(BaseName(p))
  {
    filesInfo := NoFiles;
    var i := 0;
    while i < |allItems|
      invariant 0 <= i <= |allItems|
      invariant filesInfo == Collect(allItems[..i], Tracked)
    {
      var item := allItems[i];
      assert allItems[..i + 1][..i] == allItems[..i];
      if item.isFile && !ShouldIgnore(BaseName(item.relPath)) {
        var relStr := item.relPath;
        if !ShouldPreserveFile(relStr) {
          filesInfo := Put(filesInfo, relStr, item.hash);
        }
      }
      i := i + 1;
    }
    assert allItems[..i] == allItems;
  }

  // ---------------------------------------------------------------------------
  // The diff

  /** The three lists `run` builds, as relative paths (the release-side
      source of each copy is the same path under the release folder). */
  datatype Plan = Plan(toUpdate: seq<string>, toAdd: seq<string>, toRemove: seq<string>)

  predicate UpdateNeeded(release: FilesInfo, current: FilesInfo, p: string) {
    !ShouldPreserveFile(p) && p in release.hashes && p in current.hashes && current.hashes[p] != release.hashes[p]
  }

  predicate AddNeeded(current: FilesInfo, p: string) {
    !ShouldPreserveFile(p) && p !in current.hashes
  }

  predicate RemoveNeeded(release: FilesInfo, p: string) {
    !ShouldPreserveFile(p) && p !in release.hashes
  }

  /** The paths of `paths` to update, in their order. */
  function Updates(paths: seq<string>, release: FilesInfo, current: FilesInfo): seq<string> {
    if |paths| == 0 then []
    else
      var p := paths[|paths| - 1];
      Updates(paths[..|paths| - 1], release, current) + (if UpdateNeeded(release, current, p) then [p] else [])
  }

  /** The paths of `paths` to add, in their order. */
  function Additions(paths: seq<string>, current: FilesInfo): seq<string> {
    if |paths| == 0 then []
    else
      var p := paths[|paths| - 1];
      Additions(paths[..|paths| - 1], current) + (if AddNeeded(current, p) then [p] else [])
  }

  /** The paths of `paths` to remove, in their order. */
  function Removals(paths: seq<string>, release: FilesInfo): seq<string> {
    if |paths| == 0 then []
    else
      var p := paths[|paths| - 1];
      Removals(paths[..|paths| - 1], release) + (if RemoveNeeded(release, p) then [p] else [])
  }

  lemma {:induction false} UpdatesMembers(paths: seq<string>, release: FilesInfo, current: FilesInfo, q: string)
    ensures q in Updates(paths, release, current) <==> q in paths && UpdateNeeded(release, current, q)
  {
    if |paths| > 0 {
      UpdatesMembers(paths[..|paths| - 1], release, current, q);
      assert paths == paths[..|paths| - 1] + [paths[|paths| - 1]];
    }
  }

  lemma {:induction false} AdditionsMembers(paths: seq<string>, current: FilesInfo, q: string)
    ensures q in Additions(paths, current) <==> q in paths && AddNeeded(current, q)
  {
    if |paths| > 0 {
      AdditionsMembers(paths[..|paths| - 1], current, q);
      assert paths == paths[..|paths| - 1] + [paths[|paths| - 1]];
    }
  }

  lemma {:induction false} RemovalsMembers(paths: seq<string>, release: FilesInfo, q: string)
    ensures q in Removals(paths, release) <==> q in paths && RemoveNeeded(release, q)
  {
    if |paths| > 0 {
      RemovalsMembers(paths[..|paths| - 1], release, q);
      assert paths == paths[..|paths| - 1] + [paths[|paths| - 1]];
    }
  }

  /** The lists the two comparison loops produce: updates and additions in
      release order, removals in installed order. */
  function Diff(release: FilesInfo, current: FilesInfo): Plan {
    Plan(Updates(release.order, release, current),
         Additions(release.order, current),
         Removals(current.order, release))
  }

  /** The comparison loops of `run`. Hashes are compared as optional values,
      so two unreadable files count as equal. */
  method PlanUpdate(releaseFiles: FilesInfo, currentFiles: FilesInfo) returns (plan: Plan)
    requires WellFormed(releaseFiles) && WellFormed(currentFiles)
    ensures plan == Diff(releaseFiles, currentFiles)
  {
    var filesToUpdate, filesToAdd := CompareReleaseFiles(releaseFiles, currentFiles);
    var filesToRemove := FindRemovedFiles(releaseFiles, currentFiles);
    plan := Plan(filesToUpdate, filesToAdd, filesToRemove);
  }

  /** The first loop: over the release's paths, skipping preserved ones, a path
      the installed tree has with another hash is to be updated, a path it
      lacks is to be added. */
  method CompareReleaseFiles(releaseFiles: FilesInfo, currentFiles: FilesInfo)
    returns (filesToUpdate: seq<string>, filesToAdd: seq<string>)
    requires WellFormed(releaseFiles)
    ensures filesToUpdate == Diff(releaseFiles, currentFiles).toUpdate
    ensures filesToAdd == Diff(releaseFiles, currentFiles).toAdd
  {
    filesToUpdate, filesToAdd := [], [];
    var release := releaseFiles.order;
    var i := 0;
    while i < |release|
      invariant 0 <= i <= |release|
      invariant filesToUpdate == Updates(release[..i], releaseFiles, currentFiles)
      invariant filesToAdd == Additions(release[..i], currentFiles)
    {
      var relPath := release[i];
      assert release[..i + 1][..i] == release[..i];
      assert relPath in releaseFiles.hashes;
      if !ShouldPreserveFile(relPath) {
        if relPath in currentFiles.hashes {
          var currentHash := currentFiles.hashes[relPath];
          var releaseHash := releaseFiles.hashes[relPath];
          if currentHash != releaseHash {
            filesToUpdate := filesToUpdate + [relPath];
          }
        } else {
          filesToAdd := filesToAdd + [relPath];
        }
      }
      i := i + 1;
    }
    assert release[..i] == release;
  }

  /** The second loop: an installed path, not preserved, that the release
      lacks is to be removed. */
  method FindRemovedFiles(releaseFiles: FilesInfo, currentFiles: FilesInfo) returns (filesToRemove: seq<string>)
    ensures filesToRemove == Diff(releaseFiles, currentFiles).toRemove
  {
    filesToRemove := [];
    var current := currentFiles.order;
    var j := 0;
    while j < |current|
      invariant 0 <= j <= |current|
      invariant filesToRemove == Removals(current[..j], releaseFiles)
    {
      var relPath := current[j];
      assert current[..j + 1][..j] == current[..j];
      if !ShouldPreserveFile(relPath) {
        if relPath !in releaseFiles.hashes {
          filesToRemove := filesToRemove + [relPath];
        }
      }
      j := j + 1;
    }
    assert current[..j] == current;
  }

  /** What each list holds: updates are shared paths whose hashes differ,
      additions release-only paths, removals installed-only paths; preserved
      paths are in none of them. */
  lemma DiffMembership(release: FilesInfo, current: FilesInfo, p: string)
    requires WellFormed(release) && WellFormed(current)
    ensures p in Diff(release, current).toUpdate <==>
      !ShouldPreserveFile(p) && p in release.hashes && p in current.hashes && current.hashes[p] != release.hashes[p]
    ensures p in Diff(release, current).toAdd <==>
      !ShouldPreserveFile(p) && p in release.hashes && p !in current.hashes
    ensures p in Diff(release, current).toRemove <==>
      !ShouldPreserveFile(p) && p in current.hashes && p !in release.hashes
  {
    UpdatesMembers(release.order, release, current, p);
    AdditionsMembers(release.order, current, p);
    RemovalsMembers(current.order, release, p);
  }

  /** No path is planned twice: the three lists are pairwise disjoint. */
  lemma DiffDisjoint(release: FilesInfo, current: FilesInfo, p: string)
    requires WellFormed(release) && WellFormed(current)
    ensures !(p in Diff(release, current).toUpdate && p in Diff(release, current).toAdd)
    ensures !(p in Diff(release, current).toUpdate && p in Diff(release, current).toRemove)
    ensures !(p in Diff(release, current).toAdd && p in Diff(release, current).toRemove)
    ensures ShouldPreserveFile(p) ==>
      p !in Diff(release, current).toUpdate && p !in Diff(release, current).toAdd && p !in Diff(release, current).toRemove
  {
    DiffMembership(release, current, p);
  }

  /** The two trees agree on every path that is not user data. */
  ghost predicate InSync(release: map<string, Option<Hash>>, installed: map<string, Option<Hash>>) {
    forall p :: !ShouldPreserveFile(p) ==>
      (p in release <==> p in installed) && (p in release && p in installed ==> release[p] == installed[p])
  }

  /** How `run` ends once the lists are built (before any file is touched). */
  datatype Finish = AlreadyUpToDate | Applied(updated: nat, added: nat, removed: nat)

  function Conclude(plan: Plan): (f: Finish)
    ensures f == AlreadyUpToDate <==> plan.toUpdate == [] && plan.toAdd == [] && plan.toRemove == []
    ensures f.Applied? ==> f == Applied(|plan.toUpdate|, |plan.toAdd|, |plan.toRemove|)
  {
    var totalOperations := |plan.toUpdate| + |plan.toAdd| + |plan.toRemove|;
    if totalOperations == 0 then AlreadyUpToDate
    else Applied(|plan.toUpdate|, |plan.toAdd|, |plan.toRemove|)
  }

  function Digit(d: nat): char
    requires d < 10
  {
    "0123456789"[d]
  }

  function NatToString(n: nat): string
    decreases n
  {
    if n < 10 then [Digit(n)] else NatToString(n / 10) + [Digit(n % 10)]
  }

  /** The text of the `finished` signal. */
  function FinishMessage(f: Finish): (msg: string)
    ensures f == AlreadyUpToDate <==> msg == "Already up to date!"
  {
    match f
    case AlreadyUpToDate => "Already up to date!"
    case Applied(u, a, r) =>
      "Update completed!\n\nUpdated: " + NatToString(u) + " files\nAdded: " + NatToString(a) +
      " files\nRemoved: " + NatToString(r) + " files\n\nUser data preserved."
  }

  /** "Already up to date!" is reported exactly when the installed tree
      already matches the release outside the preserved paths. */
  lemma UpToDateIffInSync(release: FilesInfo, current: FilesInfo)
    requires WellFormed(release) && WellFormed(current)
    ensures Conclude(Diff(release, current)) == AlreadyUpToDate <==> InSync(release.hashes, current.hashes)
  {
    if InSync(release.hashes, current.hashes) {
      InSyncPlansNothing(release, current);
    } else {
      OutOfSyncPlansSomething(release, current);
    }
  }

  lemma InSyncPlansNothing(release: FilesInfo, current: FilesInfo)
    requires WellFormed(release) && WellFormed(current)
    requires InSync(release.hashes, current.hashes)
    ensures Diff(release, current) == Plan([], [], [])
  {
    var plan := Diff(release, current);
    // the first member of a non-empty list would be a path the trees disagree on
    if |plan.toUpdate| > 0 {
      DiffMembership(release, current, plan.toUpdate[0]);
      assert false;
    }
    if |plan.toAdd| > 0 {
      DiffMembership(release, current, plan.toAdd[0]);
      assert false;
    }
    if |plan.toRemove| > 0 {
      DiffMembership(release, current, plan.toRemove[0]);
      assert false;
    }
  }

  lemma OutOfSyncPlansSomething(release: FilesInfo, current: FilesInfo)
    requires WellFormed(release) && WellFormed(current)
    requires !InSync(release.hashes, current.hashes)
    ensures Diff(release, current) != Plan([], [], [])
  {
    var p :| !ShouldPreserveFile(p) &&
      !((p in release.hashes <==> p in current.hashes) &&
        (p in release.hashes && p in current.hashes ==> release.hashes[p] == current.hashes[p]));
    DiffMembership(release, current, p);
  }

  /** The tree after the copy and unlink steps, as path -> hash: updated and
      added paths take the release's hash, removed paths disappear, all
      other entries stay. */
  function ApplyPlan(installed: map<string, Option<Hash>>, release: map<string, Option<Hash>>, plan: Plan)
    : map<string, Option<Hash>>
  {
    var written := set p | p in plan.toUpdate + plan.toAdd;
    var kept := installed.Keys - set p | p in plan.toRemove;
    map p | p in kept + written ::
      if p in release && (p in plan.toUpdate || p in plan.toAdd) then release[p]
      else if p in installed then installed[p]
      else None
  }

  /** Carrying out the plan brings the installed files in line with the
      release everywhere except user data, which is left exactly as it was. */
  lemma ApplyPlanSyncs(release: FilesInfo, current: FilesInfo)
    requires WellFormed(release) && WellFormed(current)
    ensures InSync(release.hashes, ApplyPlan(current.hashes, release.hashes, Diff(release, current)))
    ensures var after := ApplyPlan(current.hashes, release.hashes, Diff(release, current));
            forall p :: ShouldPreserveFile(p) ==>
              (p in after <==> p in current.hashes) && (p in after ==> after[p] == current.hashes[p])
  {
    var plan := Diff(release, current);
    var after := ApplyPlan(current.hashes, release.hashes, plan);
    forall p
      ensures !ShouldPreserveFile(p) ==>
        (p in release.hashes <==> p in after) && (p in release.hashes && p in after ==> release.hashes[p] == after[p])
      ensures ShouldPreserveFile(p) ==>
        (p in after <==> p in current.hashes) && (p in after ==> after[p] == current.hashes[p])
    {
      DiffMembership(release, current, p);
    }
  }

  // ---------------------------------------------------------------------------
  // Ignoring whole directories

  /** As written, the ignore test sees only a file's own name, so the files
      inside `venv/` (or `.git/`, a `backup_*` folder) are
      recorded, and when the release lacks them they are planned for removal. */
  lemma AsWrittenRemovesVenvFile(release: FilesInfo)
    requires WellFormed(release) && "venv/lib/site.py" !in release.hashes
    ensures "venv/lib/site.py" in Diff(release, Collect([FsItem("venv/lib/site.py", true, Some("h"))], Tracked)).toRemove
  {
    var item := FsItem("venv/lib/site.py", true, Some("h"));
    assert BaseName(item.relPath) == "site.py";
    SiteIsNotIgnored();
    NotPreservedByFirstChar(item.relPath);
    assert Tracked([item][0]);
    var current := Collect([item], Tracked);
    DiffMembership(release, current, item.relPath);
  }

  /** A pattern matched with `*` as a wildcard at either end. */
  predicate GlobMatches(pattern: string, name: string) {
    if |pattern| > 0 && pattern[0] == '*' then IsSuffix(pattern[1..], name)
    else if |pattern| > 0 && pattern[|pattern| - 1] == '*' then IsPrefix(pattern[..|pattern| - 1], name)
    else IsSubstring(pattern, name)
  }

  /** `path[i..j]` is one directory or file name of `path`. */
  predicate IsComponent(path: string, i: int, j: int) {
    && 0 <= i <= j <= |path|
    && (i == 0 || path[i - 1] == '/')
    && (j == |path| || path[j] == '/')
    && (forall m :: i <= m < j ==> path[m] != '/')
  }

  /** The corrected ignore test: some name along the path matches a pattern. */
  predicate ShouldIgnorePath(path: string) {
    exists i, j :: 0 <= i <= j <= |path| && IsComponent(path, i, j) &&
      exists k :: 0 <= k < |IgnorePatterns| && GlobMatches(IgnorePatterns[k], path[i..j])
  }

  predicate TrackedCorrected(item: FsItem) {
    item.isFile && !ShouldIgnorePath(item.relPath) && !ShouldPreserveFile(item.relPath)
  }

  /** Under the corrected test every file below a `venv`, `.git`,
      `__pycache__` or `backup_...` folder is ignored. */
  lemma CorrectedIgnoresFolders(dir: string, rest: string)
    requires '/' !in dir
    requires dir == "venv" || dir == ".git" || dir == "__pycache__" || IsPrefix("backup_", dir)
    ensures ShouldIgnorePath(dir + "/" + rest)
  {
    var path := dir + "/" + rest;
    assert path[..|dir|] == dir;
    assert IsComponent(path, 0, |dir|) by {
      forall m | 0 <= m < |dir| ensures path[m] != '/' {
        assert path[m] == dir[m];
      }
    }
    if dir == "venv" {
      assert IsPrefix("venv", dir[0..]);
      assert GlobMatches(IgnorePatterns[3], path[0..|dir|]);
    } else if dir == ".git" {
      assert IsPrefix(".git", dir[0..]);
      assert GlobMatches(IgnorePatterns[1], path[0..|dir|]);
    } else if dir == "__pycache__" {
      assert IsPrefix("__pycache__", dir[0..]);
      assert GlobMatches(IgnorePatterns[0], path[0..|dir|]);
    } else {
      assert IgnorePatterns[4][..|IgnorePatterns[4]| - 1] == "backup_";
      assert GlobMatches(IgnorePatterns[4], path[0..|dir|]);
    }
  }

  /** With the corrected scan, a path the corrected test ignores is never
      updated or removed, whatever the release holds. */
  lemma CorrectedPlanSparesIgnored(release: FilesInfo, items: seq<FsItem>, p: string)
    requires WellFormed(release) && ShouldIgnorePath(p)
    ensures p !in Diff(release, Collect(items, TrackedCorrected)).toRemove
    ensures p !in Diff(release, Collect(items, TrackedCorrected)).toUpdate
  {
    var current := Collect(items, TrackedCorrected);
    DiffMembership(release, current, p);
  }

  /** As written, the release is scanned without the ignore filter that the
      installed scan applies. A shipped file whose name is ignored is never in
      the installed dict, so it is planned for adding on every run and an
      identical installation is never reported as up to date. */
  lemma AsWrittenIgnoredReleaseFileIsReAdded(items: seq<FsItem>, k: nat)
    requires k < |items| && items[k].isFile
    requires ShouldIgnore(BaseName(items[k].relPath)) && !ShouldPreserveFile(items[k].relPath)
    ensures items[k].relPath in Diff(Collect(items, IsFile), Collect(items, Tracked)).toAdd
    ensures Conclude(Diff(Collect(items, IsFile), Collect(items, Tracked))) != AlreadyUpToDate
  {
    var p := items[k].relPath;
    var release := Collect(items, IsFile);
    var current := Collect(items, Tracked);
    assert IsFile(items[k]);
    assert p in release.hashes;
    DiffMembership(release, current, p);
  }

  /** `.gitignore` at the top of the tree is its own `path.name`. */
  lemma GitignoreBaseName()
    ensures BaseName(".gitignore") == ".gitignore"
  {
    var path := ".gitignore";
    assert '/' !in path;
    var name := BaseName(path);
    assert |name| == |path|;
    assert path[|path| - |name|..] == path;
  }

  /** `.gitignore` is an ignored name (it contains `.git`). */
  lemma GitignoreIsIgnored()
    ensures ShouldIgnore(".gitignore")
  {
    assert IsPrefix(".git", ".gitignore"[0..]);
    assert NameMatches(IgnorePatterns[1], ".gitignore");
  }

  /** `.gitignore` is not user data. */
  lemma GitignoreNotPreserved()
    ensures !ShouldPreserveFile(".gitignore")
  {
    NotPrefixAt("app/storage/", ".gitignore", 0);
    NotPrefixAt(".env", ".gitignore", 1);
    NotPrefixAt("config.ini", ".gitignore", 0);
    NotPrefixAt("settings.json", ".gitignore", 0);
  }

  /** The same for a `.gitignore` shipped at the top of the release. */
  lemma AsWrittenShippedGitignoreIsNeverUpToDate(h: Option<Hash>)
    ensures var items := [FsItem(".gitignore", true, h)];
            Conclude(Diff(Collect(items, IsFile), Collect(items, Tracked))) != AlreadyUpToDate
  {
    GitignoreBaseName();
    GitignoreIsIgnored();
    GitignoreNotPreserved();
    AsWrittenIgnoredReleaseFileIsReAdded([FsItem(".gitignore", true, h)], 0);
  }

  /** Items a scan does not keep leave its dict as it was. */
  lemma {:induction false} CollectSkipsRejected(items: seq<FsItem>, extra: seq<FsItem>, keep: FsItem -> bool)
    requires forall k :: 0 <= k < |extra| ==> !keep(extra[k])
    ensures Collect(items + extra, keep) == Collect(items, keep)
    decreases |extra|
  {
    if |extra| == 0 {
      assert items + extra == items;
    } else {
      var init := extra[..|extra| - 1];
      assert (items + extra)[..|items + extra| - 1] == items + init;
      CollectSkipsRejected(items, init, keep);
    }
  }

  /** Scanning the release with the same corrected filter as the installed
      tree: an installation holding exactly the release's files, plus any
      number of ignored files (a `venv/`, a `.git/` folder) and user data, is
      up to date. */
  lemma CorrectedIdenticalTreeIsUpToDate(release: seq<FsItem>, extra: seq<FsItem>)
    requires forall k :: 0 <= k < |extra| ==> !TrackedCorrected(extra[k])
    ensures Conclude(Diff(Collect(release, TrackedCorrected), Collect(release + extra, TrackedCorrected))) == AlreadyUpToDate
  {
    var m := Collect(release, TrackedCorrected);
    CollectSkipsRejected(release, extra, TrackedCorrected);
    UpToDateIffInSync(m, m);
  }
}
