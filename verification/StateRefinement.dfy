/** Every run of the state store returns what one plain expiring map would. */
module StateRefinement {
  import opened Common
  import opened StateMap

  // ---- Single operations ----

  lemma TimeAgrees(c: Config, s: Store, m: map<Key, Entry>, now: int, later: int)
    requires Agrees(c, s, m, now) && now <= later
    ensures Agrees(c, s, m, later)
  {
    var t := Drained(s.table, s.queue);
    forall k | k in s.entries ensures Live(s.entries, k, later) == Live(m, k, later) {
      assert Live(s.entries, k, now) == Live(m, k, now);
    }
    forall k | k !in s.dirty ensures Live(t, k, later) == Live(m, k, later) {
      assert Live(t, k, now) == Live(m, k, now);
    }
    forall k | k in s.deleted ensures k !in s.entries && Live(m, k, later) == None {
      assert Live(m, k, now) == None;
    }
  }

  /** Removing `k` from cache and table, against a map that differs from `m` only in `k` being dead. */
  lemma RemoveAgrees(c: Config, s: Store, m: map<Key, Entry>, m': map<Key, Entry>, k: Key, now: int)
    requires Agrees(c, s, m, now)
    requires Live(m', k, now) == None && forall j :: j != k ==> Live(m', j, now) == Live(m, j, now)
    ensures Agrees(c, DropExpired(c, s, k), m', now)
  {
    var cut := s.(entries := s.entries - {k}, dirty := s.dirty - {k}, deleted := s.deleted + {k});
    PersistDrains(c, cut, Remove(k));
    var v := DropExpired(c, s, k);
    forall j | j !in v.dirty ensures Live(Drained(v.table, v.queue), j, now) == Live(m', j, now) {
      if j != k { assert Live(Drained(s.table, s.queue), j, now) == Live(m, j, now); }
    }
    forall j | j in v.entries ensures Live(v.entries, j, now) == Live(m', j, now) {
      assert Live(s.entries, j, now) == Live(m, j, now);
    }
  }

  /** The row of `k` already shows what it will show once the waiting tasks are applied. */
  predicate Current(s: Store, k: Key, now: int) {
    Live(s.table, k, now) == Live(Drained(s.table, s.queue), k, now)
  }

  /** It does if no task that names the key is waiting; without a writer it always does. */
  lemma NoWaitingIsCurrent(c: Config, s: Store, m: map<Key, Entry>, k: Key, now: int)
    requires Agrees(c, s, m, now) && NoWaiting(s.queue, k)
    ensures Current(s, k, now)
  {
    DrainedElsewhere(s.table, s.table, s.queue, k, now);
  }

  /** Reading a row never disturbs agreement, and a key that is not cached is in the map what its row
      will be. */
  lemma ReadAgrees(c: Config, s: Store, m: map<Key, Entry>, k: Key, now: int)
    requires Agrees(c, s, m, now)
    ensures k !in s.entries ==> Live(Drained(s.table, s.queue), k, now) == Live(m, k, now)
    ensures Agrees(c, AfterRead(s, k, now), m, now)
  {
    var v := AfterRead(s, k, now);
    forall j | j !in v.dirty ensures Live(Drained(v.table, v.queue), j, now) == Live(m, j, now) {
      DrainedElsewhere(s.table, v.table, s.queue, j, now);
      assert Live(Drained(s.table, s.queue), j, now) == Live(m, j, now);
    }
  }

  /** `remember_clean`, the second half of a read: the row found earlier is cached. */
  function Remembered(s: Store, k: Key, e: Entry): Store {
    s.(entries := s.entries[k := e], deleted := s.deleted - {k})
  }

  /** Caching a live entry, at once or later, keeps agreement exactly when the map shows that entry. */
  lemma RememberExact(c: Config, s: Store, m: map<Key, Entry>, k: Key, e: Entry, now: int)
    requires Agrees(c, s, m, now) && !Expired(e, now)
    ensures Agrees(c, Remembered(s, k, e), m, now) <==> Live(m, k, now) == Some(e)
    ensures Agrees(c, s.(entries := s.entries[k := e]), m, now) <==> Live(m, k, now) == Some(e)
    ensures Live(m, k, now).Some? ==> s.deleted - {k} == s.deleted
  {
    var entries := s.entries[k := e];
    assert Live(entries, k, now) == Some(e);
    if Live(m, k, now) == Some(e) {
      assert k !in s.deleted;
      forall j | j in entries ensures Live(entries, j, now) == Live(m, j, now) {
        if j != k { assert Live(s.entries, j, now) == Live(m, j, now); }
      }
    } else {
      assert k in entries;
    }
  }

  /** What the store alone says about a key. */
  function Shown(s: Store, k: Key, now: int): Option<Entry> {
    if k in s.entries then Live(s.entries, k, now)
    else if k in s.deleted then None
    else Live(Drained(s.table, s.queue), k, now)
  }

  lemma ShownIsMap(c: Config, s: Store, m: map<Key, Entry>, k: Key, now: int)
    requires Agrees(c, s, m, now)
    ensures Shown(s, k, now) == Live(m, k, now)
  {
    if k in s.entries {
      assert Live(s.entries, k, now) == Live(m, k, now);
    } else {
      assert k !in s.dirty;
    }
  }

  /** The persisted half of a delete, at once or later, keeps agreement exactly when the key is dirty or
      dead. */
  lemma RemoveRowExact(c: Config, s: Store, m: map<Key, Entry>, k: Key, now: int)
    requires Agrees(c, s, m, now)
    ensures Agrees(c, Persist(c, s, Remove(k)), m, now) <==> k in s.dirty || Live(m, k, now) == None
  {
    PersistDrains(c, s, Remove(k));
    var v := Persist(c, s, Remove(k));
    assert Live(Drained(v.table, v.queue), k, now) == None;
    if k in s.dirty || Live(m, k, now) == None {
      forall j | j !in v.dirty ensures Live(Drained(v.table, v.queue), j, now) == Live(m, j, now) {
        if j != k { assert Live(Drained(s.table, s.queue), j, now) == Live(m, j, now); }
      }
    } else {
      assert k !in v.dirty;
    }
  }

  /** A read that needs the table answers as the plain map does exactly when the row shows the value that
      draining will leave, and keeps agreement exactly when it caches nothing or that very row. */
  lemma GetExact(c: Config, s: Store, m: map<Key, Entry>, k: Key, now: int)
    requires Agrees(c, s, m, now)
    ensures GetReply(s, k, now) == ValueOf(Live(m, k, now)) <==>
            (ReadsTable(s, k) ==> ValueOf(Live(s.table, k, now)) == ValueOf(Live(Drained(s.table, s.queue), k, now)))
    ensures Agrees(c, AfterGet(c, s, k, now), m, now) <==>
            (ReadsTable(s, k) ==> Live(s.table, k, now) == None || Current(s, k, now))
  {
    if k in s.entries {
      assert Live(s.entries, k, now) == Live(m, k, now);
      if Expired(s.entries[k], now) { RemoveAgrees(c, s, m, m, k, now); }
    } else if k !in s.deleted {
      ReadAgrees(c, s, m, k, now);
      var row := Live(s.table, k, now);
      if row.Some? {
        RememberExact(c, AfterRead(s, k, now), m, k, row.value, now);
        assert s.deleted - {k} == s.deleted;
      }
    }
  }

  lemma GetAgrees(c: Config, s: Store, m: map<Key, Entry>, k: Key, now: int)
    requires Agrees(c, s, m, now) && (ReadsTable(s, k) ==> Current(s, k, now))
    ensures Agrees(c, AfterGet(c, s, k, now), m, now)
    ensures GetReply(s, k, now) == ValueOf(Live(m, k, now))
  {
    GetExact(c, s, m, k, now);
  }

  function ValueOrEmpty(e: Option<Entry>): Value { if e.Some? then e.value.value else map[] }

  /** A mutate starts from the plain map's value exactly when the key is cached, or its row and the row
      that draining will leave have the same value; its load keeps agreement exactly when it caches
      nothing or that very row. */
  lemma LoadExact(c: Config, s: Store, m: map<Key, Entry>, k: Key, now: int)
    requires Agrees(c, s, m, now)
    ensures LoadBase(s, k, now) == PlainBase(m, k, now) <==>
            (k !in s.entries ==>
               ValueOrEmpty(Live(s.table, k, now)) == ValueOrEmpty(Live(Drained(s.table, s.queue), k, now)))
    ensures Agrees(c, AfterLoad(c, s, k, now), m, now) <==>
            (k !in s.entries ==> Live(s.table, k, now) == None || Current(s, k, now))
  {
    if k in s.entries {
      assert Live(s.entries, k, now) == Live(m, k, now);
      if Expired(s.entries[k], now) { RemoveAgrees(c, s, m, m, k, now); }
    } else {
      ReadAgrees(c, s, m, k, now);
      var row := Live(s.table, k, now);
      assert s.dirty - {k} == s.dirty;
      if row.Some? { RememberExact(c, AfterRead(s, k, now), m, k, row.value, now); }
    }
  }

  /** For a deleted key: the mutate starts right exactly when no live row is left, or an empty one. */
  lemma MutateDeletedExact(c: Config, s: Store, m: map<Key, Entry>, k: Key, now: int)
    requires Agrees(c, s, m, now) && k in s.deleted
    ensures LoadBase(s, k, now) == PlainBase(m, k, now) <==> ValueOrEmpty(Live(s.table, k, now)) == map[]
    ensures GetReply(s, k, now) == None == ValueOf(Live(m, k, now))
  {
    LoadExact(c, s, m, k, now);
    ReadAgrees(c, s, m, k, now);
  }

  lemma WriteAgrees(c: Config, s: Store, m: map<Key, Entry>, k: Key, e: Entry, now: int)
    requires Agrees(c, s, m, now)
    ensures Agrees(c, WriteEntry(s, k, e), m[k := e], now)
  {
    var v := WriteEntry(s, k, e);
    forall j | j in v.entries ensures Live(v.entries, j, now) == Live(m[k := e], j, now) {
      if j != k { assert Live(s.entries, j, now) == Live(m, j, now); }
    }
    forall j | j !in v.dirty ensures Live(Drained(v.table, v.queue), j, now) == Live(m[k := e], j, now) {
      assert Live(Drained(s.table, s.queue), j, now) == Live(m, j, now);
    }
  }

  /** Whatever the load found, a write to the key restores agreement. */
  lemma WriteAfterLoad(c: Config, s: Store, m: map<Key, Entry>, k: Key, e: Entry, now: int)
    requires Agrees(c, s, m, now)
    ensures Agrees(c, WriteEntry(AfterLoad(c, s, k, now), k, e), m[k := e], now)
  {
    if k in s.entries {
      LoadExact(c, s, m, k, now);
      WriteAgrees(c, AfterLoad(c, s, k, now), m, k, e, now);
    } else {
      ReadAgrees(c, s, m, k, now);
      WriteAgrees(c, AfterRead(s, k, now), m, k, e, now);
      assert WriteEntry(AfterLoad(c, s, k, now), k, e) == WriteEntry(AfterRead(s, k, now), k, e);
    }
  }

  /** Flushing a captured entry keeps agreement exactly when the captured entry still shows what the
      map holds, that is, when the key was not rewritten or deleted since it was captured. */
  lemma FlushExact(c: Config, s: Store, m: map<Key, Entry>, k: Key, captured: Entry, now: int)
    requires Agrees(c, s, m, now)
    ensures Agrees(c, AfterFlush(c, s, k, captured), m, now)
            <==> Live(map[k := captured], k, now) == Live(m, k, now)
  {
    PersistDrains(c, s, Snapshot(k, captured));
    var v := AfterFlush(c, s, k, captured);
    var t := Drained(s.table, s.queue);
    assert Drained(v.table, v.queue) == t[k := captured];
    if Live(map[k := captured], k, now) == Live(m, k, now) {
      forall j | j !in v.dirty ensures Live(t[k := captured], j, now) == Live(m, j, now) {
        if j != k { assert Live(t, j, now) == Live(m, j, now); }
      }
    } else {
      assert k !in v.dirty && Live(t[k := captured], k, now) != Live(m, k, now);
    }
  }

  lemma EvictAgrees(c: Config, s: Store, m: map<Key, Entry>, k: Key, now: int)
    requires Agrees(c, s, m, now) && k !in s.dirty
    ensures Agrees(c, s.(entries := s.entries - {k}), m, now)
  {
    var v := s.(entries := s.entries - {k});
    forall j | j in v.entries ensures Live(v.entries, j, now) == Live(m, j, now) {
      assert Live(s.entries, j, now) == Live(m, j, now);
    }
  }

  lemma WriterAgrees(c: Config, s: Store, m: map<Key, Entry>, now: int)
    requires Agrees(c, s, m, now) && s.queue != []
    ensures Agrees(c, s.(table := ApplyTask(s.table, s.queue[0]), queue := s.queue[1..]), m, now)
  {
    assert forall i :: 0 <= i < |s.queue[1..]| ==> s.queue[1..][i] == s.queue[i + 1];
  }

  lemma PruneAgrees(c: Config, s: Store, m: map<Key, Entry>, now: int)
    requires Agrees(c, s, m, now)
    ensures Agrees(c, Persist(c, s, Prune(now)), m, now)
  {
    PersistDrains(c, s, Prune(now));
    var v := Persist(c, s, Prune(now));
    forall j | j !in v.dirty ensures Live(Drained(v.table, v.queue), j, now) == Live(m, j, now) {
      assert Live(Drained(s.table, s.queue), j, now) == Live(m, j, now);
    }
  }

  /** Clear and warmup after a flush and a drain: the cache restarts from any live rows of the table. */
  lemma RestartAgrees(c: Config, s: Store, m: map<Key, Entry>, warm: set<Key>, now: int)
    requires Agrees(c, s, m, now) && s.dirty == {} && s.queue == []
    ensures Agrees(c, Warmed(s, warm, now), m, now)
  {
    var v := Warmed(s, warm, now);
    forall j ensures Live(s.table, j, now) == Live(m, j, now) {
      assert Live(Drained(s.table, s.queue), j, now) == Live(m, j, now);
    }
    assert Drained(v.table, v.queue) == s.table;
    forall j | j in v.entries ensures Live(v.entries, j, now) == Live(m, j, now) {
      assert Live(s.table, j, now) == Live(m, j, now);
    }
  }

  /** The cache after `clear` and a warmup that loads the live rows among `warm`. */
  function Warmed(s: Store, warm: set<Key>, now: int): Store {
    s.(entries := map k | k in s.table && k in warm && !Expired(s.table[k], now) :: s.table[k], dirty := {}, deleted := {})
  }

  // ---- Runs ----

  datatype Op =
    | Tick(to: int)
    | Get(key: Key)
    | FindRow(key: Key)
    | Remember(key: Key, row: Entry)
    | RemoveRow(key: Key)
    | Set(key: Key, entry: Entry)
    | Mutate(key: Key, updater: Value -> Value, entry: Entry)
    | Delete(key: Key)
    | PruneExpired
    | FlushKey(key: Key, captured: Entry)
    | EvictKey(key: Key)
    | WriterStep
    | Restart(warm: set<Key>)

  datatype Reply = Nothing | Found(found: Option<Value>) | Wrote(saved: bool, value: Value)

  datatype World = World(s: Store, clock: int)

  /** What the guarantee needs: no table read of a row that a waiting task is going to change, no late
      caching of a row that the store no longer shows, no late removal of a row that it does show, no flush
      of an entry that was rewritten or deleted since it was captured, eviction of clean keys, a restart after a flush
      and a drain. */
  predicate Allowed(w: World, op: Op) {
    match op
    case Tick(to) => w.clock <= to
    case Get(k) => ReadsTable(w.s, k) ==> Current(w.s, k, w.clock)
    case FindRow(k) => ReadsTable(w.s, k) && Current(w.s, k, w.clock)
    case Remember(k, row) => Shown(w.s, k, w.clock) == Some(row)
    case RemoveRow(k) => k in w.s.dirty || Shown(w.s, k, w.clock) == None
    case Mutate(k, _, _) => k !in w.s.entries ==> Current(w.s, k, w.clock)
    case FlushKey(k, captured) => k in w.s.entries && w.s.entries[k] == captured
    case EvictKey(k) => k !in w.s.dirty
    case WriterStep => w.s.queue != []
    case Restart(_) => w.s.dirty == {} && w.s.queue == []
    case _ => true
  }

  function AfterMutate(c: Config, s: Store, k: Key, updater: Value -> Value, e: Entry, now: int): Store {
    var loaded := AfterLoad(c, s, k, now);
    var updated := updater(LoadBase(s, k, now));
    if c.Fits(updated) then WriteEntry(loaded, k, e.(value := updated)) else loaded
  }

  function Apply(c: Config, w: World, op: Op): World
    requires Allowed(w, op)
  {
    match op
    case Tick(to) => w.(clock := to)
    case Get(k) => w.(s := AfterGet(c, w.s, k, w.clock))
    case FindRow(k) => w.(s := AfterRead(w.s, k, w.clock))
    case Remember(k, row) => w.(s := Remembered(w.s, k, row))
    case RemoveRow(k) => w.(s := Persist(c, w.s, Remove(k)))
    case Set(k, e) => if c.Fits(e.value) then w.(s := WriteEntry(w.s, k, e)) else w
    case Mutate(k, updater, e) => w.(s := AfterMutate(c, w.s, k, updater, e, w.clock))
    case Delete(k) => w.(s := AfterDelete(c, w.s, k))
    case PruneExpired => w.(s := Persist(c, w.s, Prune(w.clock)))
    case FlushKey(k, captured) => w.(s := AfterFlush(c, w.s, k, captured))
    case EvictKey(k) => w.(s := w.s.(entries := w.s.entries - {k}))
    case WriterStep => w.(s := w.s.(table := ApplyTask(w.s.table, w.s.queue[0]), queue := w.s.queue[1..]))
    case Restart(warm) => w.(s := Warmed(w.s, warm, w.clock))
  }

  function Answer(c: Config, w: World, op: Op): Reply {
    match op
    case Get(k) => Found(GetReply(w.s, k, w.clock))
    case FindRow(k) => Found(ValueOf(Live(w.s.table, k, w.clock)))
    case Set(k, e) => Wrote(c.Fits(e.value), e.value)
    case Mutate(k, updater, _) =>
      var base := LoadBase(w.s, k, w.clock);
      var updated := updater(base);
      if c.Fits(updated) then Wrote(true, updated) else Wrote(false, base)
    case _ => Nothing
  }

  // The plain expiring map.

  function PlainBase(m: map<Key, Entry>, k: Key, now: int): Value {
    if Live(m, k, now).Some? then m[k].value else map[]
  }

  function PlainApply(c: Config, m: map<Key, Entry>, now: int, op: Op): map<Key, Entry> {
    match op
    case Set(k, e) => if c.Fits(e.value) then m[k := e] else m
    case Mutate(k, updater, e) =>
      var updated := updater(PlainBase(m, k, now));
      if c.Fits(updated) then m[k := e.(value := updated)] else m
    case Delete(k) => m - {k}
    case _ => m
  }

  function PlainAnswer(c: Config, m: map<Key, Entry>, now: int, op: Op): Reply {
    match op
    case Get(k) => Found(if Live(m, k, now).Some? then Some(m[k].value) else None)
    case FindRow(k) => Found(if Live(m, k, now).Some? then Some(m[k].value) else None)
    case Set(k, e) => Wrote(c.Fits(e.value), e.value)
    case Mutate(k, updater, _) =>
      var base := PlainBase(m, k, now);
      if c.Fits(updater(base)) then Wrote(true, updater(base)) else Wrote(false, base)
    case _ => Nothing
  }

  lemma MutateAgrees(c: Config, s: Store, m: map<Key, Entry>, k: Key, updater: Value -> Value, e: Entry, now: int)
    requires Agrees(c, s, m, now) && (k !in s.entries ==> Current(s, k, now))
    ensures LoadBase(s, k, now) == PlainBase(m, k, now)
    ensures Agrees(c, AfterMutate(c, s, k, updater, e, now), PlainApply(c, m, now, Mutate(k, updater, e)), now)
  {
    LoadExact(c, s, m, k, now);
    var updated := updater(PlainBase(m, k, now));
    if c.Fits(updated) { WriteAfterLoad(c, s, m, k, e.(value := updated), now); }
  }

  lemma OpRefines(c: Config, w: World, m: map<Key, Entry>, op: Op)
    requires Agrees(c, w.s, m, w.clock) && Allowed(w, op)
    ensures Agrees(c, Apply(c, w, op).s, PlainApply(c, m, w.clock, op), Apply(c, w, op).clock)
    ensures Answer(c, w, op) == PlainAnswer(c, m, w.clock, op)
  {
    match op
    case Tick(to) => TimeAgrees(c, w.s, m, w.clock, to);
    case Get(k) => GetAgrees(c, w.s, m, k, w.clock);
    case FindRow(k) => ReadAgrees(c, w.s, m, k, w.clock);
    case Remember(k, row) =>
      ShownIsMap(c, w.s, m, k, w.clock);
      RememberExact(c, w.s, m, k, row, w.clock);
    case RemoveRow(k) =>
      ShownIsMap(c, w.s, m, k, w.clock);
      RemoveRowExact(c, w.s, m, k, w.clock);
    case Set(k, e) => WriteAgrees(c, w.s, m, k, e, w.clock);
    case Mutate(k, updater, e) => MutateAgrees(c, w.s, m, k, updater, e, w.clock);
    case Delete(k) => RemoveAgrees(c, w.s, m, m - {k}, k, w.clock);
    case PruneExpired => PruneAgrees(c, w.s, m, w.clock);
    case FlushKey(k, captured) =>
      assert Live(w.s.entries, k, w.clock) == Live(m, k, w.clock);
      FlushExact(c, w.s, m, k, captured, w.clock);
    case EvictKey(k) => EvictAgrees(c, w.s, m, k, w.clock);
    case WriterStep => WriterAgrees(c, w.s, m, w.clock);
    case Restart(warm) => RestartAgrees(c, w.s, m, warm, w.clock);
  }

  predicate Legal(c: Config, w: World, ops: seq<Op>)
    decreases |ops|
  {
    ops == [] || (Allowed(w, ops[0]) && Legal(c, Apply(c, w, ops[0]), ops[1..]))
  }

  function Replies(c: Config, w: World, ops: seq<Op>): seq<Reply>
    requires Legal(c, w, ops)
    decreases |ops|
  {
    if ops == [] then [] else [Answer(c, w, ops[0])] + Replies(c, Apply(c, w, ops[0]), ops[1..])
  }

  function Run(c: Config, w: World, ops: seq<Op>): World
    requires Legal(c, w, ops)
    decreases |ops|
  {
    if ops == [] then w else Run(c, Apply(c, w, ops[0]), ops[1..])
  }

  function PlainRun(c: Config, m: map<Key, Entry>, now: int, ops: seq<Op>): map<Key, Entry>
    decreases |ops|
  {
    if ops == [] then m
    else PlainRun(c, PlainApply(c, m, now, ops[0]), if ops[0].Tick? then ops[0].to else now, ops[1..])
  }

  function PlainReplies(c: Config, m: map<Key, Entry>, now: int, ops: seq<Op>): seq<Reply>
    decreases |ops|
  {
    if ops == [] then []
    else [PlainAnswer(c, m, now, ops[0])] +
         PlainReplies(c, PlainApply(c, m, now, ops[0]), if ops[0].Tick? then ops[0].to else now, ops[1..])
  }

  /** Refinement: with or without the writer, every allowed run of gets, sets, mutates, deletes, prunes,
      flushes, evictions, writer steps and restarts answers exactly as the plain map does, and ends in
      agreement with it. A size-rejected write changes nothing. */
  lemma {:induction false} StoreRefinesMap(c: Config, w: World, m: map<Key, Entry>, ops: seq<Op>)
    requires Agrees(c, w.s, m, w.clock) && Legal(c, w, ops)
    ensures Replies(c, w, ops) == PlainReplies(c, m, w.clock, ops)
    ensures Agrees(c, Run(c, w, ops).s, PlainRun(c, m, w.clock, ops), Run(c, w, ops).clock)
    decreases |ops|
  {
    if ops != [] {
      OpRefines(c, w, m, ops[0]);
      var next := Apply(c, w, ops[0]);
      assert next.clock == if ops[0].Tick? then ops[0].to else w.clock;
      StoreRefinesMap(c, next, PlainApply(c, m, w.clock, ops[0]), ops[1..]);
    }
  }

  /** Write-behind agreement from an empty start: every answer is the plain map's, and applying the
      waiting tasks in order makes the table agree with the plain map on every key that is not dirty. */
  lemma WriteBehind(c: Config, ops: seq<Op>, k: Key)
    requires Legal(c, Fresh, ops)
    ensures Replies(c, Fresh, ops) == PlainReplies(c, map[], 0, ops)
    ensures var w := Run(c, Fresh, ops);
            k !in w.s.dirty ==>
              Live(Drained(w.s.table, w.s.queue), k, w.clock) == Live(PlainRun(c, map[], 0, ops), k, w.clock)
  {
    StoreRefinesMap(c, Fresh, map[], ops);
  }

  const Fresh: World := World(Store(map[], {}, {}, map[], []), 0)

  // ---- How long a write lasts ----

  /** The operation neither writes nor deletes the key. */
  predicate LeavesAlone(op: Op, k: Key) {
    match op
    case Set(j, _) => j != k
    case Mutate(j, _, _) => j != k
    case Delete(j) => j != k
    case _ => true
  }

  lemma {:induction false} PlainLeaves(c: Config, m: map<Key, Entry>, now: int, ops: seq<Op>, k: Key)
    requires forall i :: 0 <= i < |ops| ==> LeavesAlone(ops[i], k)
    ensures k in PlainRun(c, m, now, ops) <==> k in m
    ensures k in m ==> PlainRun(c, m, now, ops)[k] == m[k]
    decreases |ops|
  {
    if ops != [] {
      PlainLeaves(c, PlainApply(c, m, now, ops[0]), if ops[0].Tick? then ops[0].to else now, ops[1..], k);
    }
  }

  /** After a write that fits, and any operations that neither write nor delete the key, a reader gets the
      value exactly until the entry's expiry time. */
  lemma WriteLasts(c: Config, w: World, m: map<Key, Entry>, k: Key, e: Entry, ops: seq<Op>)
    requires Agrees(c, w.s, m, w.clock) && (c.maxBytes <= 0 || c.size(e.value) <= c.maxBytes)
    requires var written := Apply(c, w, Set(k, e));
             && Legal(c, written, ops) && (forall i :: 0 <= i < |ops| ==> LeavesAlone(ops[i], k))
             && Allowed(Run(c, written, ops), Get(k))
    ensures var end := Run(c, Apply(c, w, Set(k, e)), ops);
            Answer(c, end, Get(k)) ==
            Found(if e.expiresAt == None || end.clock < e.expiresAt.value then Some(e.value) else None)
  {
    var written := Apply(c, w, Set(k, e));
    OpRefines(c, w, m, Set(k, e));
    StoreRefinesMap(c, written, m[k := e], ops);
    PlainLeaves(c, m[k := e], w.clock, ops, k);
    OpRefines(c, Run(c, written, ops), PlainRun(c, m[k := e], w.clock, ops), Get(k));
  }

  /** After a delete the key is gone for every reader until it is written again. */
  lemma DeleteLasts(c: Config, w: World, m: map<Key, Entry>, k: Key, ops: seq<Op>)
    requires Agrees(c, w.s, m, w.clock)
    requires var gone := Apply(c, w, Delete(k));
             && Legal(c, gone, ops) && (forall i :: 0 <= i < |ops| ==> LeavesAlone(ops[i], k))
             && Allowed(Run(c, gone, ops), Get(k))
    ensures Answer(c, Run(c, Apply(c, w, Delete(k)), ops), Get(k)) == Found(None)
  {
    var gone := Apply(c, w, Delete(k));
    OpRefines(c, w, m, Delete(k));
    StoreRefinesMap(c, gone, m - {k}, ops);
    PlainLeaves(c, m - {k}, w.clock, ops, k);
    OpRefines(c, Run(c, gone, ops), PlainRun(c, m - {k}, w.clock, ops), Get(k));
  }

  /** A size-rejected write changes nothing and is reported as not saved; a mutate that is saved is what its
      updater made of the value a reader would have got. */
  lemma WriteReports(c: Config, w: World, m: map<Key, Entry>, k: Key, e: Entry, updater: Value -> Value)
    requires Agrees(c, w.s, m, w.clock) && Allowed(w, Mutate(k, updater, e))
    ensures var fits := c.maxBytes <= 0 || c.size(e.value) <= c.maxBytes;
            Answer(c, w, Set(k, e)) == Wrote(fits, e.value) && (!fits ==> Apply(c, w, Set(k, e)) == w)
    ensures var seen := if k in m && (m[k].expiresAt == None || w.clock < m[k].expiresAt.value) then m[k].value else map[];
            var fits := c.maxBytes <= 0 || c.size(updater(seen)) <= c.maxBytes;
            Answer(c, w, Mutate(k, updater, e)) == Wrote(fits, if fits then updater(seen) else seen)
  {
    OpRefines(c, w, m, Mutate(k, updater, e));
  }

  /** A prune takes exactly the rows whose expiry time has come, and changes none of the others. */
  lemma PruneExact(table: map<Key, Entry>, until: int, k: Key)
    ensures var after := ApplyTask(table, Prune(until));
            && (k in after <==> k in table && (table[k].expiresAt == None || table[k].expiresAt.value > until))
            && (k in after ==> after[k] == table[k])
  {
  }

  // ---- What the operations behind the answers achieve ----

  /** A read that reaches the table caches a live row and deletes an expired one. */
  lemma ReadExact(c: Config, w: World, k: Key)
    requires Allowed(w, Get(k)) && ReadsTable(w.s, k)
    ensures var row := Live(w.s.table, k, w.clock);
            var after := Apply(c, w, Get(k)).s;
            && after.table == (if row == None then w.s.table - {k} else w.s.table)
            && after.entries == (if row.Some? then w.s.entries[k := row.value] else w.s.entries)
            && after.dirty == w.s.dirty && after.queue == w.s.queue
    ensures Allowed(w, FindRow(k)) ==>
              Apply(c, w, FindRow(k)).s == w.s.(table := if Live(w.s.table, k, w.clock) == None then w.s.table - {k} else w.s.table)
  {
    if k !in w.s.table { assert w.s.table - {k} == w.s.table; }
  }

  /** What each operation behind the answers achieves: caching, removing, flushing, pruning, evicting, writing
      and restarting. */
  lemma MaintenanceExact(c: Config, w: World, op: Op)
    requires Allowed(w, op) && (c.direct ==> w.s.queue == [])
    ensures var after := Apply(c, w, op).s;
            var drained := Drained(after.table, after.queue);
            match op
            case Remember(k, row) => k in after.entries && after.entries[k] == row && k !in after.deleted
            case RemoveRow(k) => k !in drained && after.entries == w.s.entries
            case FlushKey(k, captured) => k !in after.dirty && k in drained && drained[k] == captured
            case EvictKey(k) => after == w.s.(entries := w.s.entries - {k})
            case WriterStep => |after.queue| + 1 == |w.s.queue| && drained == Drained(w.s.table, w.s.queue)
                               && after.table == ApplyTask(w.s.table, w.s.queue[0])
            case PruneExpired =>
              drained == map k | k in Drained(w.s.table, w.s.queue) &&
                                 (Drained(w.s.table, w.s.queue)[k].expiresAt == None ||
                                  w.clock < Drained(w.s.table, w.s.queue)[k].expiresAt.value) :: Drained(w.s.table, w.s.queue)[k]
            case Restart(warm) =>
              && after.dirty == {} && after.deleted == {} && after.table == w.s.table
              && after.entries == map k | k in w.s.table && k in warm &&
                                          (w.s.table[k].expiresAt == None || w.clock < w.s.table[k].expiresAt.value) :: w.s.table[k]
            case _ => true
  {
    match op
    case RemoveRow(k) => PersistDrains(c, w.s, Remove(k));
    case FlushKey(k, captured) => PersistDrains(c, w.s, Snapshot(k, captured));
    case PruneExpired => PersistDrains(c, w.s, Prune(w.clock));
    case _ =>
  }

  // ---- Where the guarantee ends ----

  const A: Entry := Entry(map["a" := "1"], None, "bot", "room", None)
  const B: Entry := Entry(map["b" := "2"], None, "bot", "room", None)

  /** A write between a flush's capture and its clearing of the dirty mark is lost once the key is
      evicted: the store then answers with the older value. */
  lemma OverlappingFlushLosesWrite(c: Config)
    requires c.direct
    ensures var written := WriteEntry(WriteEntry(Fresh.s, "k", A), "k", B);
            var flushed := AfterFlush(c, written, "k", A);
            && "k" !in flushed.dirty
            && GetReply(flushed.(entries := flushed.entries - {"k"}), "k", 0) == Some(A.value)
            && Live(map["k" := B], "k", 0) == Some(B)
  {
  }

  /** A write between the two halves of a read is replaced by the row found before it. */
  lemma LateRememberLosesWrite(c: Config)
    requires c.direct
    ensures var written := WriteEntry(Fresh.s.(table := map["k" := A]), "k", B);
            var after := Remembered(written, "k", A);
            && GetReply(written, "k", 0) == Some(B.value)
            && GetReply(after, "k", 0) == Some(A.value) && "k" in after.dirty
            && AfterFlush(c, after, "k", A).table["k"] == A
  {
  }

  /** A write and its flush between the two halves of a delete are lost once the key is evicted. */
  lemma LateRemoveLosesWrite(c: Config)
    requires c.direct
    ensures var start := Fresh.s.(table := map["k" := A], deleted := {"k"});
            var flushed := AfterFlush(c, WriteEntry(start, "k", B), "k", B);
            var after := Persist(c, flushed, Remove("k"));
            && GetReply(after, "k", 0) == Some(B.value)
            && GetReply(after.(entries := after.entries - {"k"}), "k", 0) == None
  {
  }

  /** After a delete whose task still waits in the writer's queue, `mutate` starts from the deleted
      value, while `get` knows that the key is gone. */
  lemma MutateReadsDeletedRow(c: Config)
    requires !c.direct
    ensures var s := AfterDelete(c, Fresh.s.(table := map["k" := A]), "k");
            && LoadBase(s, "k", 0) == A.value
            && GetReply(s, "k", 0) == None
  {
  }

  /** `BotStateStore.mutate` after the cache rejected the updated value by size: the update is applied
      to the table row instead. */
  function FallThrough(c: Config, s: Store, k: Key, updater: Value -> Value, e: Entry, now: int): (Store, Value) {
    var loaded := AfterLoad(c, s, k, now);
    var base := if Live(loaded.table, k, now).Some? then loaded.table[k].value else map[];
    var updated := updater(base);
    if c.Fits(updated) then (loaded.(table := loaded.table[k := e.(value := updated)]), updated) else (loaded, base)
  }

  /** The value the fall-through starts from. */
  function RowBase(c: Config, s: Store, k: Key, now: int): Value {
    ValueOrEmpty(Live(AfterLoad(c, s, k, now).table, k, now))
  }

  /** A task that names `k` decides its row: what the row was before does not matter. */
  lemma {:induction false} DrainedNamed(a: map<Key, Entry>, b: map<Key, Entry>, queue: seq<Task>, k: Key, now: int)
    requires !NoWaiting(queue, k)
    requires forall i :: 0 <= i < |queue| && queue[i].Prune? ==> queue[i].until <= now
    ensures Live(Drained(a, queue), k, now) == Live(Drained(b, queue), k, now)
    decreases |queue|
  {
    var t, rest := queue[0], queue[1..];
    assert forall i :: 0 <= i < |rest| ==> rest[i] == queue[i + 1];
    if NoWaiting(rest, k) {
      assert t == Remove(k) || (t.Snapshot? && t.key == k);
      DrainedElsewhere(ApplyTask(a, t), ApplyTask(b, t), rest, k, now);
    } else {
      DrainedNamed(ApplyTask(a, t), ApplyTask(b, t), rest, k, now);
    }
  }

  /** Writing the row of a key that is dirty, or that a waiting task is going to write, keeps agreement. */
  lemma HiddenRowAgrees(c: Config, s: Store, m: map<Key, Entry>, k: Key, e: Entry, now: int)
    requires Agrees(c, s, m, now) && (k in s.dirty || !NoWaiting(s.queue, k))
    ensures Agrees(c, s.(table := s.table[k := e]), m, now)
  {
    var v := s.(table := s.table[k := e]);
    forall j | j !in v.dirty ensures Live(Drained(v.table, v.queue), j, now) == Live(m, j, now) {
      assert Live(Drained(s.table, s.queue), j, now) == Live(m, j, now);
      if j == k {
        DrainedNamed(s.table, v.table, s.queue, k, now);
      } else {
        DrainedElsewhere(s.table, v.table, s.queue, j, now);
      }
    }
  }

  /** A row that is neither dirty nor about to be written shows the value the cache loaded. */
  lemma PlainRowIsBase(c: Config, s: Store, m: map<Key, Entry>, k: Key, now: int)
    requires Agrees(c, s, m, now) && Agrees(c, AfterLoad(c, s, k, now), m, now)
    requires k !in AfterLoad(c, s, k, now).dirty && NoWaiting(AfterLoad(c, s, k, now).queue, k)
    ensures RowBase(c, s, k, now) == LoadBase(s, k, now)
  {
    var v := AfterLoad(c, s, k, now);
    if k in s.entries {
      assert Live(s.entries, k, now) == Live(m, k, now);
      assert Live(Drained(v.table, v.queue), k, now) == Live(m, k, now);
      NoWaitingIsCurrent(c, v, m, k, now);
    }
  }

  /** The fall-through after a size rejection keeps agreement with the unchanged map exactly when the
      cache's own load does: what it writes is hidden by a dirty entry or a waiting task. */
  lemma FallThroughAgreesExact(
      c: Config, s: Store, m: map<Key, Entry>, k: Key, updater: Value -> Value, e: Entry, now: int)
    requires Agrees(c, s, m, now) && !c.Fits(updater(LoadBase(s, k, now)))
    ensures Agrees(c, FallThrough(c, s, k, updater, e, now).0, m, now)
            <==> (k !in s.entries ==> Live(s.table, k, now) == None || Current(s, k, now))
  {
    LoadExact(c, s, m, k, now);
    var v, after := AfterLoad(c, s, k, now), FallThrough(c, s, k, updater, e, now).0;
    if Agrees(c, v, m, now) {
      if k !in v.dirty && NoWaiting(v.queue, k) { PlainRowIsBase(c, s, m, k, now); }
      if after != v {
        HiddenRowAgrees(c, v, m, k, e.(value := updater(RowBase(c, s, k, now))), now);
      }
    } else {
      ReadAgrees(c, s, m, k, now);
      assert Live(after.entries, k, now) == Live(s.table, k, now) != Live(m, k, now);
    }
  }

  /** Without a writer it always keeps agreement, so a reader never sees the value it wrote. */
  lemma DirectFallThroughAgrees(
      c: Config, s: Store, m: map<Key, Entry>, k: Key, updater: Value -> Value, e: Entry, now: int)
    requires c.direct && Agrees(c, s, m, now) && !c.Fits(updater(LoadBase(s, k, now)))
    ensures var after := FallThrough(c, s, k, updater, e, now).0;
            Agrees(c, after, m, now) && GetReply(after, k, now) == ValueOf(Live(m, k, now))
  {
    FallThroughAgreesExact(c, s, m, k, updater, e, now);
    GetExact(c, FallThrough(c, s, k, updater, e, now).0, m, k, now);
  }

  /** The fall-through reports the value that was rejected for, exactly when the row shows it or the
      update of the row is that value again. */
  lemma FallThroughReplyExact(c: Config, s: Store, k: Key, updater: Value -> Value, e: Entry, now: int)
    requires !c.Fits(updater(LoadBase(s, k, now)))
    ensures var row, base := RowBase(c, s, k, now), LoadBase(s, k, now);
            FallThrough(c, s, k, updater, e, now).1 == base
            <==> row == base || (c.Fits(updater(row)) && updater(row) == base)
  {
  }

  /** What it writes: the update of the row, exactly when that fits. */
  lemma FallThroughWrites(c: Config, s: Store, k: Key, updater: Value -> Value, e: Entry, now: int)
    ensures var loaded := AfterLoad(c, s, k, now);
            var updated := updater(RowBase(c, s, k, now));
            var after := FallThrough(c, s, k, updater, e, now).0;
            && after == loaded.(table := after.table)
            && after.table == (if c.maxBytes <= 0 || c.size(updated) <= c.maxBytes
                               then loaded.table[k := Entry(updated, e.expiresAt, e.botKey, e.roomKey, e.sender)] else loaded.table)
  {
  }

  /** In particular it does for every key that is neither dirty nor named by a waiting task. */
  lemma FallThroughReplyPlain(
      c: Config, s: Store, m: map<Key, Entry>, k: Key, updater: Value -> Value, e: Entry, now: int)
    requires Agrees(c, s, m, now) && !c.Fits(updater(LoadBase(s, k, now)))
    requires k !in s.dirty && NoWaiting(s.queue, k)
    ensures FallThrough(c, s, k, updater, e, now).1 == PlainBase(m, k, now)
  {
    NoWaitingIsCurrent(c, s, m, k, now);
    LoadExact(c, s, m, k, now);
    RowOfCleanKey(c, s, m, k, now);
    FallThroughReplyExact(c, s, k, updater, e, now);
  }

  lemma RowOfCleanKey(c: Config, s: Store, m: map<Key, Entry>, k: Key, now: int)
    requires Agrees(c, s, m, now) && k !in s.dirty && NoWaiting(s.queue, k)
    ensures RowBase(c, s, k, now) == LoadBase(s, k, now)
  {
    NoWaitingIsCurrent(c, s, m, k, now);
    assert Live(s.table, k, now) == Live(m, k, now);
    if k in s.entries { assert Live(s.entries, k, now) == Live(m, k, now); }
  }

  /** The fall-through reports a value that a reader does not see: the dirty entry still hides the row. */
  lemma FallThroughIsInvisible()
    ensures var c := Config(true, 1, (v: Value) => |v|, 10);
            var s := WriteEntry(Fresh.s, "k", A);
            var updater := (v: Value) => v["b" := "2"];
            var (after, reply) := FallThrough(c, s, "k", updater, A, 0);
            && !c.Fits(updater(LoadBase(s, "k", 0)))
            && reply == map["b" := "2"]
            && GetReply(after, "k", 0) == Some(A.value)
  {
    var updater := (v: Value) => v["b" := "2"];
    assert |updater(A.value)| == 2 by { assert updater(A.value).Keys == {"a", "b"}; }
    var none: Value := map[];
    assert updater(none) == map["b" := "2"] && |updater(none)| == 1 by {
      assert updater(none).Keys == {"b"};
    }
  }
}
