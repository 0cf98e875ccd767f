/** The reload service in place: file records and registry updated by the scan and load methods
    (app/chatbot/service.py). */
module ReloadService {
  import opened Common
  import opened Registry
  import opened HotReload

  class ChatbotService {
    var files: map<Path, FileState>
    const registry: ChatbotRegistry

    ghost predicate Valid()
      reads this, registry
    {
      registry.Valid() && UniqueLoaded(files) && Tracked(View())
    }

    ghost function View(): State
      reads this, registry
    {
      State(files, registry.bots)
    }

    constructor ()
      ensures Valid() && fresh(registry) && View() == State(map[], map[])
    {
      files := map[];
      registry := new ChatbotRegistry();
    }

    /** `_path_for_bot_key`: some file other than `exclude` that is loaded under the key. */
    method PathForBotKey(key: BotKey, exclude: Path) returns (found: Option<Path>)
      ensures found.Some? <==> LoadedElsewhere(files, key, exclude)
      ensures found.Some? ==> found.value != exclude && LoadedAs(files, found.value, key)
    {
      var left := files.Keys;
      while left != {}
        invariant left <= files.Keys
        invariant forall p :: p in files && p !in left && p != exclude ==> !LoadedAs(files, p, key)
        decreases |left|
      {
        var p :| p in left;
        if p != exclude && files[p].loaded && files[p].key == Some(key) { return Some(p); }
        left := left - {p};
      }
      found := None;
    }

    method LoadChangedPath(path: Path, result: LoadResult)
      requires Valid()
      modifies this, registry
      ensures Valid() && View() == Load(old(View()), path, result)
    {
      LoadUnique(View(), path, result);
      LoadTracked(View(), path, result);
      var previous := if path in files then files[path].key else None;
      if result.LoadFailed? {
        files := files[path := FileState(result.snap, previous, false, result.mentionsDuplicate)];
        return;
      }
      var existing := PathForBotKey(result.bot.key, path);
      if existing.Some? {
        var retained := if previous.Some? then previous else Some(result.bot.key);
        files := files[path := FileState(result.snap, retained, false, true)];
        return;
      }
      if previous.Some? && previous.value != result.bot.key {
        var _ := registry.Unregister(previous.value);
      }
      var _ := registry.Replace(result.bot);
      files := files[path := FileState(result.snap, Some(result.bot.key), true, false)];
    }

    method RemovePath(path: Path)
      requires Valid() && path in files
      modifies this, registry
      ensures Valid() && View() == Remove(old(View()), path)
    {
      RemoveInv(View(), path);
      var state := files[path];
      files := files - {path};
      if state.key.Some? {
        var other := PathForBotKey(state.key.value, path);
        if state.loaded || other.None? {
          var _ := registry.Unregister(state.key.value);
        }
      }
    }

    /** `_scan_incremental` on a directory listing, with the paths that are gone in `gone`. */
    method ScanIncremental(d: Directory, gone: seq<Path>, budget: nat)
      requires Valid() && forall p :: p in d.paths ==> p in d.results && p in d.disk
      modifies this, registry
      ensures Valid() && View() == Tick(old(View()), d, gone, budget)
    {
      var rest := gone;
      ghost var kept := RemoveAll(View(), gone);
      while rest != []
        invariant Valid() && RemoveAll(View(), rest) == kept
        decreases |rest|
      {
        if rest[0] in files { RemovePath(rest[0]); }
        rest := rest[1..];
      }
      ReloadChanged(d, if files == map[] then |d.paths| else budget);
    }

    /** The load loop of the scan. */
    method ReloadChanged(d: Directory, allowed: nat)
      requires Valid() && forall p :: p in d.paths ==> p in d.results && p in d.disk
      modifies this, registry
      ensures Valid() && View() == Scan(old(View()), d.disk, d.results, d.paths, allowed)
    {
      var processed := 0;
      var i := 0;
      ghost var target := Scan(View(), d.disk, d.results, d.paths, allowed);
      assert d.paths[0..] == d.paths;
      while i < |d.paths|
        invariant Valid() && 0 <= i <= |d.paths| && 0 <= processed <= allowed
        invariant Scan(View(), d.disk, d.results, d.paths[i..], allowed - processed) == target
      {
        var path := d.paths[i];
        assert d.paths[i..][1..] == d.paths[i + 1..] && d.paths[i..][0] == path;
        var outdated := path !in files || files[path].snap != d.disk[path];
        var retry := path in files && !files[path].loaded && files[path].retry;
        if outdated || retry {
          if processed >= allowed { break; }
          processed := processed + 1;
          LoadChangedPath(path, d.results[path]);
        }
        i := i + 1;
      }
    }
  }
}
