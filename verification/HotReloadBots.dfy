/** Over whole runs: which bot stands under a key. */
module HotReloadBots {
  import opened Common
  import opened Registry
  import opened HotReload
  import opened HotReloadRuns

  // ---- The last successful load under a key ----

  /** The load succeeds and no other loaded file has the key. */
  predicate Wins(s: State, path: Path, result: LoadResult) {
    result.LoadOk? && forall q :: q in s.files && q != path && s.files[q].loaded ==> s.files[q].key != Some(result.bot.key)
  }

  /** The bots that a scan registers, in order. */
  function ScanLog(s: State, disk: map<Path, Snap>, results: map<Path, LoadResult>, paths: seq<Path>, left: nat): seq<Bot>
    requires forall p :: p in paths ==> p in results
    decreases |paths|
  {
    if paths == [] || (Eligible(s, disk, paths[0]) && left == 0) then []
    else if !Eligible(s, disk, paths[0]) then ScanLog(s, disk, results, paths[1..], left)
    else
      var result := results[paths[0]];
      (if Wins(s, paths[0], result) then [result.bot] else []) +
      ScanLog(Load(s, paths[0], result), disk, results, paths[1..], left - 1)
  }

  function RunLog(s: State, ticks: seq<TickInput>): seq<Bot>
    requires forall i :: 0 <= i < |ticks| ==> ticks[i].Loadable()
    decreases |ticks|
  {
    if ticks == [] then []
    else
      var t := ticks[0];
      var kept := RemoveAll(s, t.gone);
      assert t.Loadable();
      ScanLog(kept, t.directory.disk, t.directory.results, t.directory.paths, Allowance(kept, t)) +
      RunLog(After(s, t), ticks[1..])
  }

  function LastUnder(log: seq<Bot>, key: BotKey): Option<Bot> {
    if log == [] then None
    else if log[|log| - 1].key == key then Some(log[|log| - 1])
    else LastUnder(log[..|log| - 1], key)
  }

  /** Every registered bot is the last one that was loaded under its key. */
  ghost predicate LastLoaded(log: seq<Bot>, s: State) {
    forall k :: k in s.bots ==> LastUnder(log, k) == Some(s.bots[k])
  }

  lemma LastLoadedLoad(log: seq<Bot>, s: State, path: Path, result: LoadResult)
    requires LastLoaded(log, s)
    ensures LastLoaded(if Wins(s, path, result) then log + [result.bot] else log, Load(s, path, result))
  {
    LoadExact(s, path, result);
    if Wins(s, path, result) { assert (log + [result.bot])[..|log|] == log; }
  }

  lemma {:induction false} LastLoadedRemove(log: seq<Bot>, s: State, gone: seq<Path>)
    requires LastLoaded(log, s)
    ensures LastLoaded(log, RemoveAll(s, gone))
    decreases |gone|
  {
    if gone != [] {
      if gone[0] in s.files {
        forall k { RemoveExact(s, gone[0], k); }
      }
      LastLoadedRemove(log, if gone[0] in s.files then Remove(s, gone[0]) else s, gone[1..]);
    }
  }

  lemma {:induction false} LastLoadedScan(
      log: seq<Bot>, s: State, disk: map<Path, Snap>, results: map<Path, LoadResult>, paths: seq<Path>, left: nat)
    requires LastLoaded(log, s) && forall p :: p in paths ==> p in results
    ensures LastLoaded(log + ScanLog(s, disk, results, paths, left), Scan(s, disk, results, paths, left))
    decreases |paths|
  {
    if paths == [] || (Eligible(s, disk, paths[0]) && left == 0) {
      assert log + [] == log;
    } else if !Eligible(s, disk, paths[0]) {
      LastLoadedScan(log, s, disk, results, paths[1..], left);
    } else {
      var result := results[paths[0]];
      var own := if Wins(s, paths[0], result) then [result.bot] else [];
      var next := Load(s, paths[0], result);
      LastLoadedLoad(log, s, paths[0], result);
      assert log + own == if Wins(s, paths[0], result) then log + [result.bot] else log;
      LastLoadedScan(log + own, next, disk, results, paths[1..], left - 1);
      var rest := ScanLog(next, disk, results, paths[1..], left - 1);
      assert log + own + rest == log + (own + rest);
    }
  }

  lemma {:induction false} LastLoadedRun(log: seq<Bot>, s: State, ticks: seq<TickInput>)
    requires LastLoaded(log, s) && forall i :: 0 <= i < |ticks| ==> ticks[i].Loadable()
    ensures LastLoaded(log + RunLog(s, ticks), RunTicks(s, ticks))
    decreases |ticks|
  {
    if ticks == [] {
      assert log + [] == log;
    } else {
      var t := ticks[0];
      assert t.Loadable();
      var kept, d := RemoveAll(s, t.gone), t.directory;
      LastLoadedRemove(log, s, t.gone);
      LastLoadedScan(log, kept, d.disk, d.results, d.paths, Allowance(kept, t));
      var own := ScanLog(kept, d.disk, d.results, d.paths, Allowance(kept, t));
      LastLoadedRun(log + own, After(s, t), ticks[1..]);
      assert log + own + RunLog(After(s, t), ticks[1..]) == log + (own + RunLog(After(s, t), ticks[1..]));
    }
  }

  /** From an empty service, through any sequence of directories: a registered bot is the bot of the last
      successful load under its key. */
  lemma LastLoadStands(ticks: seq<TickInput>, k: BotKey)
    requires forall i :: 0 <= i < |ticks| ==> ticks[i].Loadable()
    ensures var s := RunTicks(State(map[], map[]), ticks);
            k in s.bots ==> LastUnder(RunLog(State(map[], map[]), ticks), k) == Some(s.bots[k])
  {
    LastLoadedRun([], State(map[], map[]), ticks);
    assert [] + RunLog(State(map[], map[]), ticks) == RunLog(State(map[], map[]), ticks);
  }

  // ---- Loaded files and what they contain ----

  /** What loading each version of each file gives. */
  type Content = (Path, Snap) -> LoadResult

  predicate ReadsContent(c: Content, d: Directory) {
    forall p :: p in d.paths ==>
      p in d.disk && p in d.results && d.results[p] == c(p, d.disk[p]) && d.results[p].snap == d.disk[p]
  }

  /** The bot of every loaded file, as its recorded version has it, stands under its key. */
  ghost predicate BotsCurrent(c: Content, s: State) {
    forall p, k :: LoadedAs(s.files, p, k) ==>
      var now := c(p, s.files[p].snap);
      now.LoadOk? && now.bot.key == k && k in s.bots && s.bots[k] == now.bot
  }

  lemma CurrentLoad(c: Content, s: State, path: Path, result: LoadResult)
    requires BotsCurrent(c, s) && UniqueLoaded(s.files) && !Steals(s, path, result) && result == c(path, result.snap)
    ensures BotsCurrent(c, Load(s, path, result))
  {
    LoadExact(s, path, result);
    var v := Load(s, path, result);
    forall p, k | LoadedAs(v.files, p, k)
      ensures var now := c(p, v.files[p].snap); now.LoadOk? && now.bot.key == k && k in v.bots && v.bots[k] == now.bot
    {
      if p != path {
        assert LoadedAs(s.files, p, k);
        assert Orphaned(s, path, result) == Some(k) ==> LoadedElsewhere(s.files, k, path);
      }
    }
  }

  lemma CurrentRemove(c: Content, s: State, path: Path)
    requires BotsCurrent(c, s) && UniqueLoaded(s.files) && path in s.files
    ensures BotsCurrent(c, Remove(s, path))
  {
    var v := Remove(s, path);
    forall p, k | LoadedAs(v.files, p, k)
      ensures var now := c(p, v.files[p].snap); now.LoadOk? && now.bot.key == k && k in v.bots && v.bots[k] == now.bot
    {
      RemoveExact(s, path, k);
      assert LoadedAs(s.files, p, k) && p != path;
      assert LoadedAs(s.files, path, k) ==> path == p;
    }
  }

  lemma {:induction false} CurrentRemoveAll(c: Content, s: State, gone: seq<Path>)
    requires BotsCurrent(c, s) && Inv(s)
    ensures BotsCurrent(c, RemoveAll(s, gone))
    decreases |gone|
  {
    if gone != [] {
      if gone[0] in s.files {
        CurrentRemove(c, s, gone[0]);
        RemoveInv(s, gone[0]);
      }
      CurrentRemoveAll(c, if gone[0] in s.files then Remove(s, gone[0]) else s, gone[1..]);
    }
  }

  lemma {:induction false} CurrentScan(c: Content, s: State, d: Directory, paths: seq<Path>, left: nat)
    requires BotsCurrent(c, s) && UniqueLoaded(s.files) && ReadsContent(c, d) && forall p :: p in paths ==> p in d.paths
    requires ScanHonest(s, d.disk, d.results, paths, left)
    ensures BotsCurrent(c, Scan(s, d.disk, d.results, paths, left))
    decreases |paths|
  {
    if paths != [] {
      assert paths[0] in paths;
      if !Eligible(s, d.disk, paths[0]) {
        CurrentScan(c, s, d, paths[1..], left);
      } else if left > 0 {
        CurrentLoad(c, s, paths[0], d.results[paths[0]]);
        LoadUnique(s, paths[0], d.results[paths[0]]);
        CurrentScan(c, Load(s, paths[0], d.results[paths[0]]), d, paths[1..], left - 1);
      }
    }
  }

  lemma {:induction false} CurrentRun(c: Content, s: State, ticks: seq<TickInput>)
    requires BotsCurrent(c, s) && Inv(s)
    requires forall i :: 0 <= i < |ticks| ==> ticks[i].Loadable() && ReadsContent(c, ticks[i].directory)
    requires NeverSteals(s, ticks)
    ensures BotsCurrent(c, RunTicks(s, ticks))
    decreases |ticks|
  {
    if ticks != [] {
      var t := ticks[0];
      assert t.Loadable() && ReadsContent(c, t.directory);
      var kept, d := RemoveAll(s, t.gone), t.directory;
      CurrentRemoveAll(c, s, t.gone);
      RemoveAllInv(s, t.gone);
      CurrentScan(c, kept, d, d.paths, Allowance(kept, t));
      TickInv(s, d, t.gone, t.budget);
      CurrentRun(c, After(s, t), ticks[1..]);
    }
  }

  /** If no load of the run gave up a key in use, then each loaded file whose record is up to date has the
      bot that its file contains registered under its key. */
  lemma LoadedFileStands(c: Content, ticks: seq<TickInput>, d: Directory, p: Path)
    requires forall i :: 0 <= i < |ticks| ==> ticks[i].Loadable() && ReadsContent(c, ticks[i].directory)
    requires NeverSteals(State(map[], map[]), ticks) && ReadsContent(c, d) && p in d.paths
    ensures var s := RunTicks(State(map[], map[]), ticks);
            p in s.files && s.files[p].loaded && s.files[p].snap == d.disk[p] ==>
              && d.results[p].LoadOk? && s.files[p].key == Some(d.results[p].bot.key)
              && d.results[p].bot.key in s.bots && s.bots[d.results[p].bot.key] == d.results[p].bot
  {
    CurrentRun(c, State(map[], map[]), ticks);
    LoadedHasKey(ticks, p);
    var s := RunTicks(State(map[], map[]), ticks);
    if p in s.files && s.files[p].loaded { assert LoadedAs(s.files, p, s.files[p].key.value); }
  }

  ghost predicate KeysRecorded(s: State) { forall p :: p in s.files && s.files[p].loaded ==> s.files[p].key.Some? }

  lemma {:induction false} RecordedScan(s: State, d: Directory, paths: seq<Path>, left: nat)
    requires KeysRecorded(s) && forall p :: p in paths ==> p in d.results
    ensures KeysRecorded(Scan(s, d.disk, d.results, paths, left))
    decreases |paths|
  {
    if paths != [] {
      if !Eligible(s, d.disk, paths[0]) {
        RecordedScan(s, d, paths[1..], left);
      } else if left > 0 {
        LoadExact(s, paths[0], d.results[paths[0]]);
        RecordedScan(Load(s, paths[0], d.results[paths[0]]), d, paths[1..], left - 1);
      }
    }
  }

  lemma {:induction false} RecordedRemoveAll(s: State, gone: seq<Path>)
    requires KeysRecorded(s)
    ensures KeysRecorded(RemoveAll(s, gone))
    decreases |gone|
  {
    if gone != [] { RecordedRemoveAll(if gone[0] in s.files then Remove(s, gone[0]) else s, gone[1..]); }
  }

  lemma {:induction false} RecordedRun(s: State, ticks: seq<TickInput>)
    requires KeysRecorded(s) && forall i :: 0 <= i < |ticks| ==> ticks[i].Loadable()
    ensures KeysRecorded(RunTicks(s, ticks))
    decreases |ticks|
  {
    if ticks != [] {
      var t := ticks[0];
      assert t.Loadable();
      RecordedRemoveAll(s, t.gone);
      RecordedScan(RemoveAll(s, t.gone), t.directory, t.directory.paths, Allowance(RemoveAll(s, t.gone), t));
      RecordedRun(After(s, t), ticks[1..]);
    }
  }

  lemma LoadedHasKey(ticks: seq<TickInput>, p: Path)
    requires forall i :: 0 <= i < |ticks| ==> ticks[i].Loadable()
    ensures var s := RunTicks(State(map[], map[]), ticks); p in s.files && s.files[p].loaded ==> s.files[p].key.Some?
  {
    RecordedRun(State(map[], map[]), ticks);
  }
}
