/** With the directory held still, each tick brings outdated files up to date, unless retries of
    duplicate-key failures use up the budget. */
module HotReloadProgress {
  import opened Common
  import opened Registry
  import opened HotReload

  /** The files a scan loads: the first `left` eligible ones. */
  function Loads(s: State, disk: map<Path, Snap>, paths: seq<Path>, left: nat): seq<Path> {
    if paths == [] then []
    else if !Eligible(s, disk, paths[0]) then Loads(s, disk, paths[1..], left)
    else if left == 0 then []
    else [paths[0]] + Loads(s, disk, paths[1..], left - 1)
  }

  lemma {:induction false} LoadsAgree(s: State, t: State, disk: map<Path, Snap>, paths: seq<Path>, left: nat)
    requires forall p :: p in paths ==> (Eligible(s, disk, p) <==> Eligible(t, disk, p))
    ensures Loads(s, disk, paths, left) == Loads(t, disk, paths, left)
  {
    if paths != [] {
      assert paths[0] in paths && forall p :: p in paths[1..] ==> p in paths;
      LoadsAgree(s, t, disk, paths[1..], left);
      if left > 0 { LoadsAgree(s, t, disk, paths[1..], left - 1); }
    }
  }

  lemma {:induction false} LoadsElems(s: State, disk: map<Path, Snap>, paths: seq<Path>, left: nat)
    requires NoDup(paths)
    ensures var loads := Loads(s, disk, paths, left);
            && NoDup(loads) && |loads| <= left && |loads| <= |paths|
            && (forall p :: p in loads ==> p in paths && Eligible(s, disk, p))
            && (|loads| < left || left >= |paths| ==> forall p :: p in paths && Eligible(s, disk, p) ==> p in loads)
  {
    if paths != [] {
      assert forall i :: 0 <= i < |paths[1..]| ==> paths[1..][i] == paths[i + 1];
      assert paths[0] !in paths[1..];
      assert paths == [paths[0]] + paths[1..];
      if !Eligible(s, disk, paths[0]) {
        LoadsElems(s, disk, paths[1..], left);
      } else if left > 0 {
        LoadsElems(s, disk, paths[1..], left - 1);
      }
    }
  }

  lemma LoadElsewhere(s: State, path: Path, result: LoadResult, p: Path)
    ensures var v := Load(s, path, result);
            && path in v.files && v.files[path].snap == result.snap
            && (p != path ==> (p in v.files <==> p in s.files) && (p in s.files ==> v.files[p] == s.files[p]))
  {
  }

  /** A scan rewrites the record of exactly the files it loads. */
  lemma {:induction false} ScanFiles(
      s: State, disk: map<Path, Snap>, results: map<Path, LoadResult>, paths: seq<Path>, left: nat, p: Path)
    requires NoDup(paths) && forall q :: q in paths ==> q in results
    ensures var v := Scan(s, disk, results, paths, left);
            if p in Loads(s, disk, paths, left) && p in results then p in v.files && v.files[p].snap == results[p].snap
            else (p in v.files <==> p in s.files) && (p in s.files ==> v.files[p] == s.files[p])
    decreases |paths|
  {
    if paths != [] {
      assert forall i :: 0 <= i < |paths[1..]| ==> paths[1..][i] == paths[i + 1];
      if !Eligible(s, disk, paths[0]) {
        ScanFiles(s, disk, results, paths[1..], left, p);
      } else if left > 0 {
        var t := Load(s, paths[0], results[paths[0]]);
        forall q | q in paths[1..] ensures Eligible(s, disk, q) <==> Eligible(t, disk, q) {
          LoadElsewhere(s, paths[0], results[paths[0]], q);
        }
        LoadsAgree(s, t, disk, paths[1..], left - 1);
        LoadsElems(s, disk, paths[1..], left - 1);
        ScanFiles(t, disk, results, paths[1..], left - 1, p);
        LoadElsewhere(s, paths[0], results[paths[0]], p);
      }
    }
  }

  // ---- Progress ----

  function OutdatedFiles(s: State, d: Directory): set<Path> { set p | p in d.disk && Outdated(s, d.disk, p) }

  /** Up-to-date files that are looked at again because they failed as duplicates. */
  function Retries(s: State, d: Directory): set<Path> {
    set p | p in d.disk && Eligible(s, d.disk, p) && !Outdated(s, d.disk, p)
  }

  /** The files do not change between the listing and their load. */
  ghost predicate Still(d: Directory) { ValidDirectory(d) && forall p :: p in d.paths ==> d.results[p].snap == d.disk[p] }

  function Budget(s: State, d: Directory, budget: nat): nat { if s.files == map[] then |d.paths| else budget }

  /** A tick updates exactly the files it loads. */
  lemma TickOutdated(s: State, d: Directory, budget: nat)
    requires Still(d)
    ensures OutdatedFiles(Tick(s, d, [], budget), d)
            == OutdatedFiles(s, d) - Elems(Loads(s, d.disk, d.paths, Budget(s, d, budget)))
  {
    var left := Budget(s, d, budget);
    LoadsElems(s, d.disk, d.paths, left);
    forall p ensures p in OutdatedFiles(Tick(s, d, [], budget), d)
                     <==> p in OutdatedFiles(s, d) - Elems(Loads(s, d.disk, d.paths, left)) {
      ScanFiles(s, d.disk, d.results, d.paths, left, p);
    }
  }

  lemma CountHits(before: set<Path>, loads: set<Path>, retries: set<Path>)
    requires loads <= before + retries
    ensures |before - loads| <= |before| - Max(|loads| - |retries|, 0)
  {
    var hit := before * loads;
    SubsetSize(loads, hit + retries);
    assert |hit + retries| <= |hit| + |retries|;
    assert before == (before - loads) + hit && (before - loads) !! hit;
  }

  /** At least the budget that the retries leave over goes to outdated files. */
  lemma TickProgress(s: State, d: Directory, budget: nat)
    requires Still(d)
    ensures var left := Budget(s, d, budget);
            var before, after := OutdatedFiles(s, d), OutdatedFiles(Tick(s, d, [], budget), d);
            |after| <= |before| - Min(|before|, Max(left - |Retries(s, d)|, 0))
  {
    var left := Budget(s, d, budget);
    var loads := Loads(s, d.disk, d.paths, left);
    var before := OutdatedFiles(s, d);
    TickOutdated(s, d, budget);
    LoadsElems(s, d.disk, d.paths, left);
    if |loads| < left {
      assert before - Elems(loads) == {};
    } else {
      NoDupSize(loads);
      assert Elems(loads) <= before + Retries(s, d);
      CountHits(before, Elems(loads), Retries(s, d));
    }
  }

  function EligibleCount(s: State, disk: map<Path, Snap>, paths: seq<Path>): nat {
    if paths == [] then 0
    else EligibleCount(s, disk, paths[1..]) + (if Eligible(s, disk, paths[0]) then 1 else 0)
  }

  /** A file is loaded exactly when it is eligible and fewer eligible files than the budget come before it. */
  lemma {:induction false} LoadsIndex(s: State, disk: map<Path, Snap>, paths: seq<Path>, left: nat, i: nat)
    requires NoDup(paths) && i < |paths|
    ensures paths[i] in Loads(s, disk, paths, left)
            <==> Eligible(s, disk, paths[i]) && EligibleCount(s, disk, paths[..i]) < left
    decreases |paths|
  {
    var rest := paths[1..];
    assert forall j :: 0 <= j < |rest| ==> rest[j] == paths[j + 1];
    if i == 0 {
      LoadsElems(s, disk, rest, left);
    } else {
      assert paths[..i][1..] == rest[..i - 1] && paths[..i][0] == paths[0];
      if !Eligible(s, disk, paths[0]) {
        LoadsIndex(s, disk, rest, left, i - 1);
      } else if left > 0 {
        LoadsIndex(s, disk, rest, left - 1, i - 1);
      }
    }
  }

  /** An outdated file with fewer eligible files than the budget before it in the listing. */
  ghost predicate Reached(s: State, d: Directory, left: nat, i: nat)
    requires i < |d.paths|
  {
    Outdated(s, d.disk, d.paths[i]) && EligibleCount(s, d.disk, d.paths[..i]) < left
  }

  /** A tick makes the number of outdated files fall exactly when, before the tick, some outdated file has
      fewer eligible files than the budget before it in the listing. */
  lemma TickFallsExact(s: State, d: Directory, budget: nat)
    requires Still(d)
    ensures |OutdatedFiles(Tick(s, d, [], budget), d)| < |OutdatedFiles(s, d)|
            <==> exists i :: 0 <= i < |d.paths| && Reached(s, d, Budget(s, d, budget), i)
  {
    var left := Budget(s, d, budget);
    TickOutdated(s, d, budget);
    HitShrinks(OutdatedFiles(s, d), Elems(Loads(s, d.disk, d.paths, left)));
    HitIsReached(s, d, left);
  }

  lemma HitShrinks(before: set<Path>, loads: set<Path>)
    ensures |before - loads| < |before| <==> before * loads != {}
  {
    assert before == (before - loads) + before * loads;
  }

  lemma HitIsReached(s: State, d: Directory, left: nat)
    requires ValidDirectory(d)
    ensures OutdatedFiles(s, d) * Elems(Loads(s, d.disk, d.paths, left)) != {}
            <==> exists i :: 0 <= i < |d.paths| && Reached(s, d, left, i)
  {
    var loads := Loads(s, d.disk, d.paths, left);
    forall i: nat | i < |d.paths|
      ensures d.paths[i] in OutdatedFiles(s, d) * Elems(loads) <==> Reached(s, d, left, i)
    {
      LoadsIndex(s, d.disk, d.paths, left, i);
    }
    forall p | p in OutdatedFiles(s, d) ensures exists i :: 0 <= i < |d.paths| && d.paths[i] == p {
      assert p in d.paths;
    }
  }

  /** A scan looks at a listed file exactly when it is new, differs from its record in size, time or hash, or
      is a failure marked for retry. */
  lemma EligibleExact(s: State, disk: map<Path, Snap>, p: Path)
    ensures Eligible(s, disk, p) <==>
            p in disk && (|| p !in s.files
                          || s.files[p].snap.size != disk[p].size || s.files[p].snap.mtime != disk[p].mtime
                          || s.files[p].snap.sha != disk[p].sha
                          || (!s.files[p].loaded && s.files[p].retry))
  {
  }

  /** The first scan has no budget: whatever the setting, it loads every file. */
  lemma InitialLoad(d: Directory, budget: nat, p: Path)
    requires Still(d) && p in d.disk
    ensures var v := Tick(State(map[], map[]), d, [], budget); p in v.files && v.files[p].snap == d.disk[p]
  {
    var s := State(map[], map[]);
    LoadsElems(s, d.disk, d.paths, |d.paths|);
    ScanFiles(s, d.disk, d.results, d.paths, |d.paths|, p);
    assert Eligible(s, d.disk, p);
  }

  function Ticks(s: State, d: Directory, budget: nat, n: nat): State
    requires forall p :: p in d.paths ==> p in d.results
    decreases n
  {
    if n == 0 then s else Ticks(Tick(s, d, [], budget), d, budget, n - 1)
  }

  /** In each of the next `n` ticks fewer files than the budget are duplicate-key retries, or nothing is
      outdated. */
  ghost predicate FewRetries(s: State, d: Directory, budget: nat, n: nat)
    requires forall p :: p in d.paths ==> p in d.results
    decreases n
  {
    n == 0 ||
    ((OutdatedFiles(s, d) == {} || |Retries(s, d)| < Budget(s, d, budget)) &&
     FewRetries(Tick(s, d, [], budget), d, budget, n - 1))
  }

  lemma {:induction false} FewRetriesConverge(s: State, d: Directory, budget: nat, n: nat)
    requires Still(d) && n >= |OutdatedFiles(s, d)| && FewRetries(s, d, budget, n)
    ensures OutdatedFiles(Ticks(s, d, budget, n), d) == {}
    decreases n
  {
    if n > 0 {
      TickProgress(s, d, budget);
      FewRetriesConverge(Tick(s, d, [], budget), d, budget, n - 1);
    }
  }

  // ---- Otherwise a changed file can wait for ever ----

  const ONE: Snap := Snap(1, 1, None)
  const OLD: Bot := Bot("k", 0, 0)
  const NEW: Bot := Bot("k", 0, 1)
  const OTHER: Bot := Bot("b", 0, 2)
  const ALONE: Directory := Directory(["c"], map["c" := ONE], map["c" := LoadOk(ONE, OLD)])
  const THREE: Directory := Directory(
    ["a", "b", "c"], map["a" := ONE, "b" := ONE, "c" := ONE],
    map["a" := LoadOk(ONE, NEW), "b" := LoadOk(ONE, OTHER), "c" := LoadOk(ONE, OLD)])
  const STARVED: State := State(
    map["a" := FileState(ONE, Some("k"), false, true), "c" := FileState(ONE, Some("k"), true, false)], map["k" := OLD])

  lemma FirstTick()
    ensures Tick(State(map[], map[]), ALONE, [], 1) == State(map["c" := FileState(ONE, Some("k"), true, false)], map["k" := OLD])
  {
    var s := State(map[], map[]);
    assert ALONE.paths[1..] == [];
    assert Eligible(s, ALONE.disk, "c") && !LoadedElsewhere(s.files, "k", "c");
  }

  lemma LoadsOnlyA(s: State)
    requires s == State(map["c" := FileState(ONE, Some("k"), true, false)], map["k" := OLD]) || s == STARVED
    ensures Tick(s, THREE, [], 1) == STARVED && Outdated(STARVED, THREE.disk, "b")
  {
    assert LoadedAs(s.files, "c", "k") && LoadedElsewhere(s.files, "k", "a");
    var t := Load(s, "a", THREE.results["a"]);
    assert t.files == STARVED.files && t == STARVED;
    assert THREE.paths[1..] == ["b", "c"] && Eligible(s, THREE.disk, "a");
    assert Scan(t, THREE.disk, THREE.results, ["b", "c"], 0) == t;
    assert s.files != map[] by { assert "c" in s.files; }
  }

  /** With a budget of one: file `c` is loaded alone, then `a`, a duplicate of `c`, and `b` appear. From
      then on the retry of `a` is the only load of every tick, and `b` is never loaded. */
  lemma RetriesStarve(n: nat)
    ensures var ticks := [TickInput(ALONE, [], 1), TickInput(THREE, [], 1)];
            && Still(THREE) && (forall i :: 0 <= i < |ticks| ==> ticks[i].Loadable())
            && RunTicks(State(map[], map[]), ticks) == STARVED
            && Ticks(STARVED, THREE, 1, n) == STARVED && Outdated(STARVED, THREE.disk, "b")
  {
    FirstTick();
    LoadsOnlyA(State(map["c" := FileState(ONE, Some("k"), true, false)], map["k" := OLD]));
    TwoTicks(State(map[], map[]), TickInput(ALONE, [], 1), TickInput(THREE, [], 1));
    Starves(n);
  }

  lemma {:induction false} Starves(n: nat)
    ensures Ticks(STARVED, THREE, 1, n) == STARVED && Outdated(STARVED, THREE.disk, "b")
  {
    LoadsOnlyA(STARVED);
    if n > 0 { Starves(n - 1); }
  }
}
