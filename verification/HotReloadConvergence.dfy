/** Convergence of hot reload, from what is known before the first tick. */
module HotReloadConvergence {
  import opened Common
  import opened Registry
  import opened HotReload
  import opened HotReloadProgress

  // ---- How many retries there can be, from the listing alone ----

  /** Another listed file that is loaded under the key already, or that loads under it. */
  predicate Rival(s: State, d: Directory, p: Path, key: BotKey, q: Path) {
    && q != p && q in d.disk
    && (LoadedAs(s.files, q, key) || (q in d.results && d.results[q].LoadOk? && d.results[q].bot.key == key))
  }

  /** Loading the file can end as a duplicate-key failure. */
  predicate MayDuplicate(s: State, d: Directory, p: Path) {
    && p in d.results
    && match d.results[p]
       case LoadFailed(_, mentionsDuplicate) => mentionsDuplicate
       case LoadOk(_, bot) => exists q :: q in d.disk && Rival(s, d, p, bot.key, q)
  }

  function Suspects(s: State, d: Directory): set<Path> {
    set p | p in d.disk && (p in Retries(s, d) || MayDuplicate(s, d, p))
  }

  /** The record of `p` is the one from before, or that of a load of the listing. */
  ghost predicate RecordFrom(base: State, s: State, d: Directory, p: Path)
    requires p in s.files
  {
    || (p in base.files && s.files[p] == base.files[p])
    || (&& p in d.results
        && (s.files[p].loaded ==> d.results[p].LoadOk? && s.files[p].key == Some(d.results[p].bot.key))
        && (!s.files[p].loaded && s.files[p].retry ==> MayDuplicate(base, d, p)))
  }

  ghost predicate From(base: State, s: State, d: Directory) {
    forall p :: p in s.files ==> p in d.disk && RecordFrom(base, s, d, p)
  }

  lemma ElsewhereIsRival(base: State, s: State, d: Directory, p: Path, key: BotKey)
    requires From(base, s, d) && LoadedElsewhere(s.files, key, p)
    ensures exists q :: q in d.disk && Rival(base, d, p, key, q)
  {
    var q :| q in s.files && q != p && LoadedAs(s.files, q, key);
    assert RecordFrom(base, s, d, q);
    assert q in d.disk && Rival(base, d, p, key, q);
  }

  lemma LoadFrom(base: State, s: State, d: Directory, p: Path)
    requires From(base, s, d) && p in d.disk && p in d.results
    ensures From(base, Load(s, p, d.results[p]), d)
  {
    var v := Load(s, p, d.results[p]);
    if d.results[p].LoadOk? && LoadedElsewhere(s.files, d.results[p].bot.key, p) {
      ElsewhereIsRival(base, s, d, p, d.results[p].bot.key);
    }
    assert RecordFrom(base, v, d, p);
    forall q | q in v.files ensures q in d.disk && RecordFrom(base, v, d, q) {
      if q != p { assert RecordFrom(base, s, d, q); }
    }
  }

  lemma {:induction false} ScanFrom(base: State, s: State, d: Directory, paths: seq<Path>, left: nat)
    requires From(base, s, d) && forall p :: p in paths ==> p in d.disk && p in d.results
    ensures From(base, Scan(s, d.disk, d.results, paths, left), d)
    decreases |paths|
  {
    if paths != [] {
      assert paths[0] in paths;
      if !Eligible(s, d.disk, paths[0]) {
        ScanFrom(base, s, d, paths[1..], left);
      } else if left > 0 {
        LoadFrom(base, s, d, paths[0]);
        ScanFrom(base, Load(s, paths[0], d.results[paths[0]]), d, paths[1..], left - 1);
      }
    }
  }

  lemma RetriesWithin(base: State, s: State, d: Directory)
    requires From(base, s, d)
    ensures Retries(s, d) <= Suspects(base, d)
  {
    forall p | p in Retries(s, d) ensures p in Suspects(base, d) {
      assert RecordFrom(base, s, d, p);
    }
  }

  lemma TickIsScan(s: State, d: Directory, budget: nat)
    requires Still(d)
    ensures Tick(s, d, [], budget) == Scan(s, d.disk, d.results, d.paths, Budget(s, d, budget))
    ensures forall p :: p in d.paths ==> p in d.disk && p in d.results
  {
    assert RemoveAll(s, []) == s;
  }

  /** A first tick that forgets files is a tick after they are forgotten. */
  lemma ForgetFirst(s: State, d: Directory, gone: seq<Path>, budget: nat, n: nat)
    requires Still(d)
    ensures Ticks(Tick(s, d, gone, budget), d, budget, n) == Ticks(RemoveAll(s, gone), d, budget, n + 1)
  {
    var kept := RemoveAll(s, gone);
    assert RemoveAll(kept, []) == kept;
    assert Tick(kept, d, [], budget) == Tick(s, d, gone, budget);
  }

  lemma {:induction false} FewSuspects(base: State, s: State, d: Directory, budget: nat, n: nat)
    requires Still(d) && From(base, s, d) && |Suspects(base, d)| < budget
    ensures FewRetries(s, d, budget, n)
    decreases n
  {
    if n > 0 {
      RetriesWithin(base, s, d);
      SubsetSize(Retries(s, d), Suspects(base, d));
      if s.files == map[] && OutdatedFiles(s, d) != {} { NothingTracked(s, d); }
      TickIsScan(s, d, budget);
      ScanFrom(base, s, d, d.paths, Budget(s, d, budget));
      FewSuspects(base, Tick(s, d, [], budget), d, budget, n - 1);
    }
  }

  // ---- Of the files that share a key, one gets it ----

  predicate LoadsUnder(d: Directory, p: Path, key: BotKey) {
    p in d.disk && p in d.results && d.results[p].LoadOk? && d.results[p].bot.key == key
  }

  /** Several listed files load under the key, no other listed file holds it, and not all of them are
      retries already. */
  predicate Shared(s: State, d: Directory, key: BotKey) {
    && (exists p, q :: p in d.disk && q in d.disk && p != q && LoadsUnder(d, p, key) && LoadsUnder(d, q, key))
    && (forall q :: q in d.disk && LoadedAs(s.files, q, key) ==> LoadsUnder(d, q, key))
    && (exists p :: p in d.disk && LoadsUnder(d, p, key) && p !in Retries(s, d))
  }

  function KeyOf(d: Directory, p: Path): BotKey { if p in d.results && d.results[p].LoadOk? then d.results[p].bot.key else "" }

  function SharedKeys(s: State, d: Directory): set<BotKey> {
    set p | p in d.disk && LoadsUnder(d, p, KeyOf(d, p)) && Shared(s, d, KeyOf(d, p)) :: KeyOf(d, p)
  }

  /** Once a file of the key has become a retry, another one of them is loaded. */
  ghost predicate KeyKept(base: State, s: State, d: Directory, key: BotKey) {
    (exists p :: p in Retries(s, d) && LoadsUnder(d, p, key) && p !in Retries(base, d)) ==> HasHolder(s, d, key)
  }

  ghost predicate KeysKept(base: State, s: State, d: Directory) {
    forall k :: k in SharedKeys(base, d) ==> KeyKept(base, s, d, k)
  }

  /** Whoever holds a shared key is one of its files. */
  lemma HolderShares(base: State, s: State, d: Directory, key: BotKey, q: Path)
    requires From(base, s, d) && Shared(base, d, key) && LoadedAs(s.files, q, key)
    ensures LoadsUnder(d, q, key)
  {
    assert RecordFrom(base, s, d, q);
  }

  lemma SharedKeyIsShared(s: State, d: Directory, key: BotKey)
    requires key in SharedKeys(s, d)
    ensures Shared(s, d, key)
  {
  }

  /** Reloading the holder of a shared key leaves it the holder. */
  lemma HolderStays(s: State, d: Directory, key: BotKey, q: Path)
    requires UniqueLoaded(s.files) && LoadsUnder(d, q, key) && LoadedAs(s.files, q, key)
    ensures LoadedAs(Load(s, q, d.results[q]).files, q, key)
  {
    assert !LoadedElsewhere(s.files, key, q);
  }

  ghost predicate HasHolder(s: State, d: Directory, key: BotKey) {
    exists q :: LoadsUnder(d, q, key) && LoadedAs(s.files, q, key)
  }

  lemma LoadKeepsHolder(s: State, d: Directory, x: Path, key: BotKey)
    requires UniqueLoaded(s.files) && x in d.results && HasHolder(s, d, key)
    ensures HasHolder(Load(s, x, d.results[x]), d, key)
  {
    var q :| LoadsUnder(d, q, key) && LoadedAs(s.files, q, key);
    if q == x {
      HolderStays(s, d, key, q);
    } else {
      LoadElsewhere(s, x, d.results[x], q);
    }
    assert LoadedAs(Load(s, x, d.results[x]).files, q, key);
  }

  /** A file whose load ends as a retry found another holder of its key. */
  lemma NewRetryHasHolder(base: State, s: State, d: Directory, x: Path, key: BotKey)
    requires From(base, s, d) && Shared(base, d, key) && LoadsUnder(d, x, key)
    requires x in Retries(Load(s, x, d.results[x]), d)
    ensures HasHolder(s, d, key)
  {
    assert LoadedElsewhere(s.files, key, x);
    var q :| q in s.files && q != x && LoadedAs(s.files, q, key);
    HolderShares(base, s, d, key, q);
  }

  lemma OldRetry(s: State, d: Directory, x: Path, p: Path)
    requires x in d.results && p != x && p in Retries(Load(s, x, d.results[x]), d)
    ensures p in Retries(s, d)
  {
    LoadElsewhere(s, x, d.results[x], p);
  }

  lemma LoadKeepsKey(base: State, s: State, d: Directory, x: Path, key: BotKey)
    requires From(base, s, d) && UniqueLoaded(s.files) && Shared(base, d, key) && KeyKept(base, s, d, key)
    requires x in d.disk && x in d.results
    ensures KeyKept(base, Load(s, x, d.results[x]), d, key)
  {
    var v := Load(s, x, d.results[x]);
    if p :| p in Retries(v, d) && LoadsUnder(d, p, key) && p !in Retries(base, d) {
      if p == x { NewRetryHasHolder(base, s, d, x, key); } else { OldRetry(s, d, x, p); }
      assert HasHolder(s, d, key);
      LoadKeepsHolder(s, d, x, key);
    }
  }

  lemma {:induction false} ScanKeepsKeys(base: State, s: State, d: Directory, paths: seq<Path>, left: nat)
    requires From(base, s, d) && UniqueLoaded(s.files) && KeysKept(base, s, d)
    requires forall p :: p in paths ==> p in d.disk && p in d.results
    ensures var v := Scan(s, d.disk, d.results, paths, left); UniqueLoaded(v.files) && KeysKept(base, v, d)
    decreases |paths|
  {
    if paths != [] {
      var x := paths[0];
      assert x in paths;
      if !Eligible(s, d.disk, x) {
        ScanKeepsKeys(base, s, d, paths[1..], left);
      } else if left > 0 {
        LoadFrom(base, s, d, x);
        LoadUnique(s, x, d.results[x]);
        forall k | k in SharedKeys(base, d) ensures KeyKept(base, Load(s, x, d.results[x]), d, k) {
          SharedKeyIsShared(base, d, k);
          LoadKeepsKey(base, s, d, x, k);
        }
        ScanKeepsKeys(base, Load(s, x, d.results[x]), d, paths[1..], left - 1);
      }
    }
  }

  lemma SharersAreSuspects(base: State, d: Directory, key: BotKey, p: Path)
    requires Shared(base, d, key) && LoadsUnder(d, p, key)
    ensures p in Suspects(base, d)
  {
    var a, b :| a in d.disk && b in d.disk && a != b && LoadsUnder(d, a, key) && LoadsUnder(d, b, key);
    var rival := if p == a then b else a;
    assert Rival(base, d, p, key, rival);
  }

  /** A suspect of the key that is not a retry. */
  lemma SharedHasFree(base: State, s: State, d: Directory, key: BotKey) returns (p: Path)
    requires KeyKept(base, s, d, key) && Shared(base, d, key)
    ensures LoadsUnder(d, p, key) && p in Suspects(base, d) - Retries(s, d)
  {
    p :| p in d.disk && LoadsUnder(d, p, key) && p !in Retries(base, d);
    if p in Retries(s, d) { p := Holder(base, s, d, key, p); }
    SharersAreSuspects(base, d, key, p);
  }

  lemma Holder(base: State, s: State, d: Directory, key: BotKey, p: Path) returns (q: Path)
    requires KeyKept(base, s, d, key) && p in Retries(s, d) && LoadsUnder(d, p, key) && p !in Retries(base, d)
    ensures LoadsUnder(d, q, key) && q !in Retries(s, d)
  {
    q :| LoadsUnder(d, q, key) && LoadedAs(s.files, q, key);
  }

  lemma {:induction false} KeysOfFiles(d: Directory, files: set<Path>)
    ensures |set p | p in files :: KeyOf(d, p)| <= |files|
  {
    if files != {} {
      var x :| x in files;
      KeysOfFiles(d, files - {x});
      var fewer := set p | p in files - {x} :: KeyOf(d, p);
      SubsetSize(set p | p in files :: KeyOf(d, p), fewer + {KeyOf(d, x)});
    }
  }

  lemma KeysCovered(keys: set<BotKey>, d: Directory, files: set<Path>)
    requires forall k :: k in keys ==> exists p :: p in files && KeyOf(d, p) == k
    ensures |keys| <= |files|
  {
    KeysOfFiles(d, files);
    SubsetSize(keys, set p | p in files :: KeyOf(d, p));
  }

  lemma Parts(all: set<Path>, part: set<Path>)
    requires part <= all
    ensures |all| == |all - part| + |part|
  {
    assert all == (all - part) + part;
  }

  lemma RetriesLeaveOnePerKey(base: State, s: State, d: Directory)
    requires From(base, s, d) && KeysKept(base, s, d)
    ensures |Retries(s, d)| + |SharedKeys(base, d)| <= |Suspects(base, d)|
  {
    var retries, suspects := Retries(s, d), Suspects(base, d);
    RetriesWithin(base, s, d);
    var free := suspects - retries;
    forall k | k in SharedKeys(base, d) ensures exists p :: p in free && KeyOf(d, p) == k {
      SharedKeyIsShared(base, d, k);
      var p := SharedHasFree(base, s, d, k);
      assert p in free && KeyOf(d, p) == k;
    }
    KeysCovered(SharedKeys(base, d), d, free);
    Parts(suspects, retries);
  }

  ghost predicate SharedInv(base: State, s: State, d: Directory) {
    From(base, s, d) && UniqueLoaded(s.files) && KeysKept(base, s, d)
  }

  lemma SharedTick(base: State, s: State, d: Directory, budget: nat)
    requires Still(d) && SharedInv(base, s, d)
    ensures SharedInv(base, Tick(s, d, [], budget), d)
  {
    TickIsScan(s, d, budget);
    ScanFrom(base, s, d, d.paths, Budget(s, d, budget));
    ScanKeepsKeys(base, s, d, d.paths, Budget(s, d, budget));
  }

  lemma {:induction false} FewShared(base: State, s: State, d: Directory, budget: nat, n: nat)
    requires Still(d) && SharedInv(base, s, d)
    requires |Suspects(base, d)| - |SharedKeys(base, d)| < budget
    ensures FewRetries(s, d, budget, n)
    decreases n
  {
    if n > 0 {
      RetriesLeaveOnePerKey(base, s, d);
      if s.files == map[] && OutdatedFiles(s, d) != {} { NothingTracked(s, d); }
      SharedTick(base, s, d, budget);
      FewShared(base, Tick(s, d, [], budget), d, budget, n - 1);
    }
  }

  lemma NothingTracked(s: State, d: Directory)
    requires ValidDirectory(d) && s.files == map[] && OutdatedFiles(s, d) != {}
    ensures |Retries(s, d)| < |d.paths|
  {
    var p :| p in OutdatedFiles(s, d);
    assert p in d.paths && Retries(s, d) == {};
  }

  lemma {:induction false} RemoveAllFiles(s: State, gone: seq<Path>, p: Path)
    ensures var v := RemoveAll(s, gone);
            && (p in v.files <==> p in s.files && p !in gone)
            && (p in v.files ==> v.files[p] == s.files[p])
    decreases |gone|
  {
    if gone != [] {
      RemoveAllFiles(if gone[0] in s.files then Remove(s, gone[0]) else s, gone[1..], p);
      assert gone == [gone[0]] + gone[1..];
    }
  }

  /** Forgetting files that are gone changes nothing about the listed ones. */
  lemma StaleGone(s: State, d: Directory, gone: seq<Path>)
    requires forall p :: p in gone <==> p in s.files && p !in d.disk
    ensures var kept := RemoveAll(s, gone);
            From(s, kept, d) && OutdatedFiles(kept, d) == OutdatedFiles(s, d) && Retries(kept, d) <= Retries(s, d)
  {
    var kept := RemoveAll(s, gone);
    forall p ensures (p in kept.files <==> p in s.files && p in d.disk) && (p in kept.files ==> kept.files[p] == s.files[p]) {
      RemoveAllFiles(s, gone, p);
    }
  }

  /** Convergence. The directory is held still and the first tick forgets the files that are gone. Count,
      before the first tick, the duplicate-key retries and the listed files whose load can end as a
      duplicate, without one file for every shared key. If these are fewer than the budget, then no file
      is outdated after as many ticks as there were outdated files, plus the first. */
  lemma Converges(s: State, d: Directory, gone: seq<Path>, budget: nat, n: nat)
    requires Still(d) && n + 1 >= |OutdatedFiles(s, d)|
    requires |Suspects(s, d)| < budget || (Inv(s) && |Suspects(s, d)| - |SharedKeys(s, d)| < budget)
    requires forall p :: p in gone <==> p in s.files && p !in d.disk
    ensures var end := Ticks(Tick(s, d, gone, budget), d, budget, n);
            && OutdatedFiles(end, d) == {}
            && forall p :: p in d.disk ==> p in end.files && end.files[p].snap == d.disk[p]
  {
    var kept := RemoveAll(s, gone);
    StaleGone(s, d, gone);
    if |Suspects(s, d)| < budget {
      FewSuspects(s, kept, d, budget, n + 1);
    } else {
      RemoveAllInv(s, gone);
      FewShared(s, kept, d, budget, n + 1);
    }
    FewRetriesConverge(kept, d, budget, n + 1);
    ForgetFirst(s, d, gone, budget, n);
    var end := Ticks(Tick(s, d, gone, budget), d, budget, n);
    forall p | p in d.disk ensures p in end.files && end.files[p].snap == d.disk[p] {
      assert p !in OutdatedFiles(end, d);
    }
  }
}
