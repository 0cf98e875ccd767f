/** Incremental hot reload: what a scan does to tracked files and registered bots
    (app/chatbot/service.py, app/chatbot/file_state.py). */
module HotReload {
  import opened Common
  import opened Sorting
  import opened Registry

  type Path = string

  /** What tells two versions of a bot file apart. */
  datatype Snap = Snap(size: nat, mtime: int, sha: Option<string>)

  /** The last load of a file. `retry` marks a failure whose message speaks of a duplicate bot key. */
  datatype FileState = FileState(snap: Snap, key: Option<BotKey>, loaded: bool, retry: bool)

  datatype LoadResult =
    | LoadFailed(snap: Snap, mentionsDuplicate: bool)
    | LoadOk(snap: Snap, bot: Bot)

  datatype State = State(files: map<Path, FileState>, bots: map<BotKey, Bot>)

  predicate LoadedAs(files: map<Path, FileState>, p: Path, key: BotKey) {
    p in files && files[p].loaded && files[p].key == Some(key)
  }

  /** Some other tracked file is loaded under this key. */
  predicate LoadedElsewhere(files: map<Path, FileState>, key: BotKey, path: Path) {
    exists p :: p in files && p != path && LoadedAs(files, p, key)
  }

  function PreviousKey(s: State, path: Path): Option<BotKey> { if path in s.files then s.files[path].key else None }

  /** The key a successful load of `path` unregisters: the one it was recorded under before. */
  function Orphaned(s: State, path: Path, result: LoadResult): Option<BotKey> {
    if result.LoadOk? && !LoadedElsewhere(s.files, result.bot.key, path) &&
       PreviousKey(s, path).Some? && PreviousKey(s, path).value != result.bot.key
    then PreviousKey(s, path) else None
  }

  /** `_load_changed_path`. */
  function Load(s: State, path: Path, result: LoadResult): State {
    if result.LoadFailed? then
      s.(files := s.files[path := FileState(result.snap, PreviousKey(s, path), false, result.mentionsDuplicate)])
    else if LoadedElsewhere(s.files, result.bot.key, path) then
      var kept := if PreviousKey(s, path).Some? then PreviousKey(s, path) else Some(result.bot.key);
      s.(files := s.files[path := FileState(result.snap, kept, false, true)])
    else
      var orphan := Orphaned(s, path, result);
      var bots := if orphan.Some? then s.bots - {orphan.value} else s.bots;
      State(s.files[path := FileState(result.snap, Some(result.bot.key), true, false)], bots[result.bot.key := result.bot])
  }

  /** `_remove_path`: a failed file gives up its key only if no loaded file uses it. */
  function Remove(s: State, path: Path): State
    requires path in s.files
  {
    var gone := s.files[path];
    var files := s.files - {path};
    if gone.key.Some? && (gone.loaded || !LoadedElsewhere(files, gone.key.value, path))
    then State(files, s.bots - {gone.key.value})
    else s.(files := files)
  }

  function RemoveAll(s: State, gone: seq<Path>): State
    decreases |gone|
  {
    if gone == [] then s
    else RemoveAll(if gone[0] in s.files then Remove(s, gone[0]) else s, gone[1..])
  }

  /** Does the scan look at this file again? */
  predicate Outdated(s: State, disk: map<Path, Snap>, p: Path) {
    p in disk && (p !in s.files || s.files[p].snap != disk[p])
  }

  predicate Eligible(s: State, disk: map<Path, Snap>, p: Path) {
    p in disk && (Outdated(s, disk, p) || (p in s.files && !s.files[p].loaded && s.files[p].retry))
  }

  /** The scan over the sorted paths, with `left` loads still allowed. */
  function Scan(s: State, disk: map<Path, Snap>, results: map<Path, LoadResult>, paths: seq<Path>, left: nat): State
    requires forall p :: p in paths ==> p in results
    decreases |paths|
  {
    if paths == [] then s
    else if !Eligible(s, disk, paths[0]) then Scan(s, disk, results, paths[1..], left)
    else if left == 0 then s
    else Scan(Load(s, paths[0], results[paths[0]]), disk, results, paths[1..], left - 1)
  }

  /** A directory listing: its paths in order, each with its snapshot, and what loading it would give. */
  datatype Directory = Directory(paths: seq<Path>, disk: map<Path, Snap>, results: map<Path, LoadResult>)

  ghost predicate ValidDirectory(d: Directory) {
    NoDup(d.paths) && (forall p :: p in d.paths <==> p in d.disk) && (forall p :: p in d.paths ==> p in d.results)
  }

  /** One tick: forget files that are gone, then reload within the budget. A scan that starts with no
      tracked file has no budget. */
  function Tick(s: State, d: Directory, gone: seq<Path>, budget: nat): State
    requires forall p :: p in d.paths ==> p in d.results
  {
    var kept := RemoveAll(s, gone);
    Scan(kept, d.disk, d.results, d.paths, if kept.files == map[] then |d.paths| else budget)
  }

  // ---- Run invariants ----

  /** At most one file is loaded under a key. */
  ghost predicate UniqueLoaded(files: map<Path, FileState>) {
    forall p, q, k :: LoadedAs(files, p, k) && LoadedAs(files, q, k) ==> p == q
  }

  ghost predicate TrackedKey(files: map<Path, FileState>, k: BotKey) {
    exists p :: p in files && files[p].key == Some(k)
  }

  /** Every registered bot has its own key and belongs to some tracked file. */
  ghost predicate Tracked(s: State) {
    Keyed(s.bots) && forall k :: k in s.bots ==> TrackedKey(s.files, k)
  }

  ghost predicate Inv(s: State) { UniqueLoaded(s.files) && Tracked(s) }

  /** What a load leaves behind. Its file is loaded exactly when the load succeeded and no other loaded file
      has the key, and is to be retried exactly after a duplicate-key failure. Then, and only then, the bot
      it loaded stands under its key; all other bots stay, except the one under the key that the file had
      before. */
  lemma LoadExact(s: State, path: Path, result: LoadResult)
    ensures var v := Load(s, path, result);
            var wins := result.LoadOk? && forall q :: q in s.files && q != path && s.files[q].loaded ==> s.files[q].key != Some(result.bot.key);
            && path in v.files && v.files[path].snap == result.snap
            && (v.files[path].loaded <==> wins)
            && (v.files[path].retry <==> !wins && (result.LoadFailed? ==> result.mentionsDuplicate))
            && (forall q :: q != path ==> (q in v.files <==> q in s.files) && (q in s.files ==> v.files[q] == s.files[q]))
            && (if wins then
                  && v.files[path].key == Some(result.bot.key)
                  && result.bot.key in v.bots && v.bots[result.bot.key] == result.bot
                  && (forall k :: k != result.bot.key ==>
                        && (k in v.bots <==> k in s.bots && !(path in s.files && s.files[path].key == Some(k)))
                        && (k in v.bots ==> v.bots[k] == s.bots[k]))
                else v.bots == s.bots)
  {
    if result.LoadOk? { assert LoadedElsewhere(s.files, result.bot.key, path) <==>
      exists q :: q in s.files && q != path && s.files[q].loaded && s.files[q].key == Some(result.bot.key); }
  }

  /** What a removal takes: the file's record, and its bot unless the file had failed and another loaded file
      has the key. */
  lemma RemoveExact(s: State, path: Path, k: BotKey)
    requires path in s.files
    ensures var v := Remove(s, path);
            var free := s.files[path].loaded || forall q :: q in s.files && q != path && s.files[q].loaded ==> s.files[q].key != Some(k);
            && v.files == s.files - {path}
            && (k in v.bots <==> k in s.bots && !(s.files[path].key == Some(k) && free))
            && (k in v.bots ==> v.bots[k] == s.bots[k])
  {
    var files := s.files - {path};
    forall q ensures LoadedAs(files, q, k) <==> q in s.files && q != path && s.files[q].loaded && s.files[q].key == Some(k) {}
    if LoadedElsewhere(files, k, path) {
      var q :| q in files && q != path && LoadedAs(files, q, k);
      assert q in s.files && s.files[q].key == Some(k);
    }
    if q :| q in s.files && q != path && s.files[q].loaded && s.files[q].key == Some(k) {
      assert q in files && LoadedAs(files, q, k);
    }
  }

  lemma LoadUnique(s: State, path: Path, result: LoadResult)
    requires UniqueLoaded(s.files)
    ensures UniqueLoaded(Load(s, path, result).files)
  {
    var v := Load(s, path, result);
    forall p, q, k | LoadedAs(v.files, p, k) && LoadedAs(v.files, q, k) ensures p == q {
      if p != path { assert LoadedAs(s.files, p, k); }
      if q != path { assert LoadedAs(s.files, q, k); }
    }
  }

  lemma LoadTracked(s: State, path: Path, result: LoadResult)
    requires Tracked(s)
    ensures Tracked(Load(s, path, result))
  {
    var v := Load(s, path, result);
    forall k | k in v.bots ensures TrackedKey(v.files, k) {
      if v.files[path].key == Some(k) {
      } else {
        assert k in s.bots;
        var p :| p in s.files && s.files[p].key == Some(k);
        assert p != path;
        assert p in v.files && v.files[p].key == Some(k);
      }
    }
  }

  lemma RemoveInv(s: State, path: Path)
    requires Inv(s) && path in s.files
    ensures Inv(Remove(s, path))
  {
    var v := Remove(s, path);
    forall p, q, k | LoadedAs(v.files, p, k) && LoadedAs(v.files, q, k) ensures p == q {
      assert LoadedAs(s.files, p, k) && LoadedAs(s.files, q, k);
    }
    forall k | k in v.bots ensures TrackedKey(v.files, k) {
      if s.files[path].key == Some(k) {
        var p :| p in v.files && p != path && LoadedAs(v.files, p, k);
      } else {
        var p :| p in s.files && s.files[p].key == Some(k);
        assert p in v.files;
      }
    }
  }

  lemma {:induction false} RemoveAllInv(s: State, gone: seq<Path>)
    requires Inv(s)
    ensures Inv(RemoveAll(s, gone))
    decreases |gone|
  {
    if gone != [] {
      if gone[0] in s.files { RemoveInv(s, gone[0]); }
      RemoveAllInv(if gone[0] in s.files then Remove(s, gone[0]) else s, gone[1..]);
    }
  }

  lemma {:induction false} ScanInv(s: State, disk: map<Path, Snap>, results: map<Path, LoadResult>, paths: seq<Path>, left: nat)
    requires Inv(s) && forall p :: p in paths ==> p in results
    ensures Inv(Scan(s, disk, results, paths, left))
    decreases |paths|
  {
    if paths != [] {
      if !Eligible(s, disk, paths[0]) {
        ScanInv(s, disk, results, paths[1..], left);
      } else if left > 0 {
        LoadUnique(s, paths[0], results[paths[0]]);
        LoadTracked(s, paths[0], results[paths[0]]);
        ScanInv(Load(s, paths[0], results[paths[0]]), disk, results, paths[1..], left - 1);
      }
    }
  }

  /** Every tick, whatever the directory holds, keeps one loaded file per key and no stray bot. */
  lemma TickInv(s: State, d: Directory, gone: seq<Path>, budget: nat)
    requires Inv(s) && forall p :: p in d.paths ==> p in d.results
    ensures Inv(Tick(s, d, gone, budget))
  {
    RemoveAllInv(s, gone);
    var kept := RemoveAll(s, gone);
    ScanInv(kept, d.disk, d.results, d.paths, if kept.files == map[] then |d.paths| else budget);
  }

  /** What one tick finds. */
  datatype TickInput = TickInput(directory: Directory, gone: seq<Path>, budget: nat) {
    predicate Loadable() { forall p :: p in directory.paths ==> p in directory.results }
  }

  function RunTicks(s: State, ticks: seq<TickInput>): State
    requires forall i :: 0 <= i < |ticks| ==> ticks[i].Loadable()
    decreases |ticks|
  {
    if ticks == [] then s
    else
      var t := ticks[0];
      assert t.Loadable();
      RunTicks(Tick(s, t.directory, t.gone, t.budget), ticks[1..])
  }

  /** From an empty service, through any sequence of directories: one loaded file per key, and every
      registered key is the key of some tracked file. */
  lemma EveryRunInv(ticks: seq<TickInput>)
    requires forall i :: 0 <= i < |ticks| ==> ticks[i].Loadable()
    ensures Inv(RunTicks(State(map[], map[]), ticks))
  {
    RunInv(State(map[], map[]), ticks);
  }

  lemma {:induction false} RunInv(s: State, ticks: seq<TickInput>)
    requires Inv(s) && forall i :: 0 <= i < |ticks| ==> ticks[i].Loadable()
    ensures Inv(RunTicks(s, ticks))
    decreases |ticks|
  {
    if ticks != [] {
      var t := ticks[0];
      assert t.Loadable();
      TickInv(s, t.directory, t.gone, t.budget);
      RunInv(Tick(s, t.directory, t.gone, t.budget), ticks[1..]);
    }
  }

  // ---- A loaded file whose bot is gone ----

  ghost predicate LoadedRegistered(s: State) {
    forall p, k :: LoadedAs(s.files, p, k) ==> k in s.bots
  }

  /** A load keeps "the key of every loaded file is registered" exactly when the key it gives up is not
      in use by another loaded file. */
  lemma LoadRegisteredExact(s: State, path: Path, result: LoadResult)
    requires Inv(s) && LoadedRegistered(s)
    ensures LoadedRegistered(Load(s, path, result))
            <==> !(Orphaned(s, path, result).Some? && LoadedElsewhere(s.files, Orphaned(s, path, result).value, path))
  {
    var v := Load(s, path, result);
    var orphan := Orphaned(s, path, result);
    if orphan.Some? && LoadedElsewhere(s.files, orphan.value, path) {
      var p :| p in s.files && p != path && LoadedAs(s.files, p, orphan.value);
      assert LoadedAs(v.files, p, orphan.value) && orphan.value !in v.bots;
    } else {
      forall p, k | LoadedAs(v.files, p, k) ensures k in v.bots {
        if p != path { assert LoadedAs(s.files, p, k); }
      }
    }
  }

  const S1: Snap := Snap(1, 1, None)
  const S2: Snap := Snap(2, 2, None)
  const FIRST: Bot := Bot("k", 0, 0)
  const RENAMED: Bot := Bot("j", 0, 2)
  const ONLY_B: Directory := Directory(["b"], map["b" := S1], map["b" := LoadOk(S1, FIRST)])
  const BOTH: Directory := Directory(
    ["a", "b"], map["a" := S1, "b" := S1], map["a" := LoadOk(S1, Bot("k", 0, 1)), "b" := LoadOk(S1, FIRST)])
  const CHANGED: Directory := Directory(
    ["a", "b"], map["a" := S2, "b" := S1], map["a" := LoadOk(S2, RENAMED), "b" := LoadOk(S1, FIRST)])
  const WITH_B: State := State(map["b" := FileState(S1, Some("k"), true, false)], map["k" := FIRST])
  const DUPLICATE: State := State(WITH_B.files["a" := FileState(S1, Some("k"), false, true)], WITH_B.bots)

  lemma BLoaded()
    ensures Tick(State(map[], map[]), ONLY_B, [], 1) == WITH_B
  {
    var s := State(map[], map[]);
    assert ONLY_B.paths[1..] == [];
    assert Eligible(s, ONLY_B.disk, "b") && !LoadedElsewhere(s.files, "k", "b");
  }

  lemma ADuplicates()
    ensures Tick(WITH_B, BOTH, [], 1) == DUPLICATE
  {
    assert BOTH.paths[1..] == ["b"] && ["b"][1..] == [];
    assert LoadedAs(WITH_B.files, "b", "k") && LoadedElsewhere(WITH_B.files, "k", "a");
    assert Load(WITH_B, "a", BOTH.results["a"]) == DUPLICATE;
    assert WITH_B.files != map[] by { assert "b" in WITH_B.files; }
    assert !Eligible(DUPLICATE, BOTH.disk, "b");
    assert Scan(DUPLICATE, BOTH.disk, BOTH.results, ["b"], 0) == DUPLICATE;
  }

  lemma AChangesKey()
    ensures var v := Tick(DUPLICATE, CHANGED, [], 1); LoadedAs(v.files, "b", "k") && "k" !in v.bots
  {
    assert CHANGED.paths[1..] == ["b"] && ["b"][1..] == [];
    assert !LoadedElsewhere(DUPLICATE.files, "j", "a");
    var v := Load(DUPLICATE, "a", CHANGED.results["a"]);
    assert v.files["b"] == WITH_B.files["b"];
    assert DUPLICATE.files != map[] by { assert "b" in DUPLICATE.files; }
    assert !Eligible(v, CHANGED.disk, "b");
    assert Scan(v, CHANGED.disk, CHANGED.results, ["b"], 0) == v;
  }

  /** Three ticks from an empty service: `b` is loaded, `a` fails as its duplicate, `a` changes its key.
      The bot of `b` is gone although `b` is still loaded. */
  lemma DuplicateThenRenamed()
    ensures var ticks := [TickInput(ONLY_B, [], 1), TickInput(BOTH, [], 1), TickInput(CHANGED, [], 1)];
            && (forall i :: 0 <= i < |ticks| ==> ticks[i].Loadable())
            && var v := RunTicks(State(map[], map[]), ticks);
               LoadedAs(v.files, "b", "k") && "k" !in v.bots
  {
    BLoaded();
    ADuplicates();
    AChangesKey();
    var s, b, c := TickInput(ONLY_B, [], 1), TickInput(BOTH, [], 1), TickInput(CHANGED, [], 1);
    TwoTicks(WITH_B, b, c);
    FirstOfThree(State(map[], map[]), s, b, c);
  }

  function After(s: State, t: TickInput): State
    requires t.Loadable()
  {
    Tick(s, t.directory, t.gone, t.budget)
  }

  lemma TwoTicks(s: State, t1: TickInput, t2: TickInput)
    requires t1.Loadable() && t2.Loadable()
    ensures RunTicks(s, [t1, t2]) == After(After(s, t1), t2)
  {
    assert [t1, t2][1..] == [t2] && [t2][1..] == [];
    assert RunTicks(After(s, t1), [t2]) == RunTicks(After(After(s, t1), t2), []);
  }

  lemma FirstOfThree(s: State, t1: TickInput, t2: TickInput, t3: TickInput)
    requires t1.Loadable() && t2.Loadable() && t3.Loadable()
    ensures RunTicks(s, [t1, t2, t3]) == RunTicks(After(s, t1), [t2, t3])
  {
    assert [t1, t2, t3][1..] == [t2, t3];
  }
}
