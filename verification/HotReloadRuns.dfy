/** Over whole runs: when the key of every loaded file stays registered. */
module HotReloadRuns {
  import opened Common
  import opened Registry
  import opened HotReload

  /** The load gives up a key that another loaded file uses. */
  predicate Steals(s: State, path: Path, result: LoadResult) {
    Orphaned(s, path, result).Some? && LoadedElsewhere(s.files, Orphaned(s, path, result).value, path)
  }

  /** A removal never takes the key of a loaded file. */
  lemma RemoveRegistered(s: State, path: Path)
    requires Inv(s) && LoadedRegistered(s) && path in s.files
    ensures LoadedRegistered(Remove(s, path))
  {
    var v := Remove(s, path);
    forall p, k | LoadedAs(v.files, p, k) ensures k in v.bots {
      assert LoadedAs(s.files, p, k) && p != path;
      if s.files[path].key == Some(k) {
        assert s.files[path].loaded ==> LoadedAs(s.files, path, k);
        assert LoadedElsewhere(v.files, k, path);
      }
    }
  }

  lemma {:induction false} RemoveAllRegistered(s: State, gone: seq<Path>)
    requires Inv(s) && LoadedRegistered(s)
    ensures Inv(RemoveAll(s, gone)) && LoadedRegistered(RemoveAll(s, gone))
    decreases |gone|
  {
    if gone != [] {
      if gone[0] in s.files {
        RemoveInv(s, gone[0]);
        RemoveRegistered(s, gone[0]);
      }
      RemoveAllRegistered(if gone[0] in s.files then Remove(s, gone[0]) else s, gone[1..]);
    }
  }

  // ---- One scan ----

  /** After every load of the scan, the key of every loaded file is registered. */
  ghost predicate ScanRegistered(s: State, disk: map<Path, Snap>, results: map<Path, LoadResult>, paths: seq<Path>, left: nat)
    requires forall p :: p in paths ==> p in results
    decreases |paths|
  {
    if paths == [] || (Eligible(s, disk, paths[0]) && left == 0) then LoadedRegistered(s)
    else if !Eligible(s, disk, paths[0]) then ScanRegistered(s, disk, results, paths[1..], left)
    else
      LoadedRegistered(s) && ScanRegistered(Load(s, paths[0], results[paths[0]]), disk, results, paths[1..], left - 1)
  }

  /** No load of the scan gives up a key that another loaded file uses. */
  predicate ScanHonest(s: State, disk: map<Path, Snap>, results: map<Path, LoadResult>, paths: seq<Path>, left: nat)
    requires forall p :: p in paths ==> p in results
    decreases |paths|
  {
    if paths == [] || (Eligible(s, disk, paths[0]) && left == 0) then true
    else if !Eligible(s, disk, paths[0]) then ScanHonest(s, disk, results, paths[1..], left)
    else
      && !Steals(s, paths[0], results[paths[0]])
      && ScanHonest(Load(s, paths[0], results[paths[0]]), disk, results, paths[1..], left - 1)
  }

  lemma {:induction false} ScanNeedsStart(
      s: State, disk: map<Path, Snap>, results: map<Path, LoadResult>, paths: seq<Path>, left: nat)
    requires (forall p :: p in paths ==> p in results) && ScanRegistered(s, disk, results, paths, left)
    ensures LoadedRegistered(s) && LoadedRegistered(Scan(s, disk, results, paths, left))
    decreases |paths|
  {
    if paths != [] {
      if !Eligible(s, disk, paths[0]) {
        ScanNeedsStart(s, disk, results, paths[1..], left);
      } else if left > 0 {
        ScanNeedsStart(Load(s, paths[0], results[paths[0]]), disk, results, paths[1..], left - 1);
      }
    }
  }

  lemma {:induction false} ScanRegisteredExact(
      s: State, disk: map<Path, Snap>, results: map<Path, LoadResult>, paths: seq<Path>, left: nat)
    requires Inv(s) && LoadedRegistered(s) && forall p :: p in paths ==> p in results
    ensures ScanRegistered(s, disk, results, paths, left) <==> ScanHonest(s, disk, results, paths, left)
    decreases |paths|
  {
    if paths != [] {
      var p := paths[0];
      if !Eligible(s, disk, p) {
        ScanRegisteredExact(s, disk, results, paths[1..], left);
      } else if left > 0 {
        LoadRegisteredExact(s, p, results[p]);
        LoadUnique(s, p, results[p]);
        LoadTracked(s, p, results[p]);
        var next := Load(s, p, results[p]);
        if LoadedRegistered(next) {
          ScanRegisteredExact(next, disk, results, paths[1..], left - 1);
        } else if ScanRegistered(next, disk, results, paths[1..], left - 1) {
          ScanNeedsStart(next, disk, results, paths[1..], left - 1);
        }
      }
    }
  }

  // ---- Runs of ticks ----

  function Allowance(s: State, t: TickInput): nat { if s.files == map[] then |t.directory.paths| else t.budget }

  /** Throughout the run the key of every loaded file is registered. */
  ghost predicate AlwaysRegistered(s: State, ticks: seq<TickInput>)
    requires forall i :: 0 <= i < |ticks| ==> ticks[i].Loadable()
    decreases |ticks|
  {
    if ticks == [] then LoadedRegistered(s)
    else
      var t := ticks[0];
      var kept := RemoveAll(s, t.gone);
      assert t.Loadable();
      && ScanRegistered(kept, t.directory.disk, t.directory.results, t.directory.paths, Allowance(kept, t))
      && AlwaysRegistered(After(s, t), ticks[1..])
  }

  predicate NeverSteals(s: State, ticks: seq<TickInput>)
    requires forall i :: 0 <= i < |ticks| ==> ticks[i].Loadable()
    decreases |ticks|
  {
    if ticks == [] then true
    else
      var t := ticks[0];
      var kept := RemoveAll(s, t.gone);
      assert t.Loadable();
      && ScanHonest(kept, t.directory.disk, t.directory.results, t.directory.paths, Allowance(kept, t))
      && NeverSteals(After(s, t), ticks[1..])
  }

  lemma {:induction false} RegisteredExact(s: State, ticks: seq<TickInput>)
    requires Inv(s) && LoadedRegistered(s) && forall i :: 0 <= i < |ticks| ==> ticks[i].Loadable()
    ensures AlwaysRegistered(s, ticks) <==> NeverSteals(s, ticks)
    decreases |ticks|
  {
    if ticks != [] {
      var t := ticks[0];
      assert t.Loadable();
      var kept, d := RemoveAll(s, t.gone), t.directory;
      RemoveAllRegistered(s, t.gone);
      ScanRegisteredExact(kept, d.disk, d.results, d.paths, Allowance(kept, t));
      if ScanRegistered(kept, d.disk, d.results, d.paths, Allowance(kept, t)) {
        ScanNeedsStart(kept, d.disk, d.results, d.paths, Allowance(kept, t));
        TickInv(s, d, t.gone, t.budget);
        RegisteredExact(After(s, t), ticks[1..]);
      }
    }
  }

  /** From an empty service, through any sequence of directories: the key of every loaded file is
      registered after every load exactly when no load gives up a key that another loaded file uses. */
  lemma RegisteredFromStart(ticks: seq<TickInput>)
    requires forall i :: 0 <= i < |ticks| ==> ticks[i].Loadable()
    ensures AlwaysRegistered(State(map[], map[]), ticks) <==> NeverSteals(State(map[], map[]), ticks)
  {
    RegisteredExact(State(map[], map[]), ticks);
  }
}
