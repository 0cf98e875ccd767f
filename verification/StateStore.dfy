/** The state store in place: cache fields, table and writer queue updated by methods, against the
    plain expiring map it stands for (app/chatbot/state_store.py). */
module StateStore {
  import opened Common
  import opened StateMap
  import opened StateRefinement

  class BotStateStore {
    const config: Config
    const flushInterval: int
    var entries: map<Key, Entry>
    var dirty: set<Key>
    var deleted: set<Key>
    var table: map<Key, Entry>
    var queue: seq<Task>
    var lastFlushAt: int

    /** The plain expiring map the store stands for. */
    ghost var Contents: map<Key, Entry>

    ghost function View(): Store
      reads this
    {
      Store(entries, dirty, deleted, table, queue)
    }

    ghost predicate Valid(now: int)
      reads this
    {
      Agrees(config, View(), Contents, now) && DirtyFits()
    }

    ghost predicate DirtyFits()
      reads this
    {
      forall k :: k in dirty && k in entries ==> config.Fits(entries[k].value)
    }

    constructor (config: Config, flushInterval: int, now: int)
      ensures this.config == config && this.flushInterval == flushInterval
      ensures Valid(now) && Contents == map[] && table == map[]
    {
      this.config, this.flushInterval := config, flushInterval;
      entries, dirty, deleted, table, queue := map[], {}, {}, map[], [];
      lastFlushAt, Contents := now, map[];
    }

    method PersistTask(t: Task)
      modifies this`table, this`queue
      ensures View() == Persist(config, old(View()), t)
    {
      if config.direct { table := ApplyTask(table, t); } else { queue := queue + [t]; }
    }

    method ForgetKey(key: Key)
      modifies this`entries, this`dirty, this`deleted, this`table, this`queue
      ensures View() == DropExpired(config, old(View()), key)
    {
      entries := entries - {key};
      dirty := dirty - {key};
      deleted := deleted + {key};
      PersistTask(Remove(key));
    }

    method ReadRow(key: Key, now: int) returns (row: Option<Entry>)
      modifies this`table
      ensures row == Live(old(table), key, now) && View() == AfterRead(old(View()), key, now)
      ensures row.Some? <==> key in old(table) &&
                             (old(table)[key].expiresAt == None || now < old(table)[key].expiresAt.value)
      ensures row.Some? ==> row.value == old(table)[key]
    {
      row := None;
      if key in table {
        if Expired(table[key], now) {
          table := table - {key};
        } else {
          row := Some(table[key]);
        }
      }
    }

    /** Eviction removes clean entries only, until the limit is met or no clean entry is left. */
    method EvictIfNeeded(ghost now: int)
      modifies this`entries
      ensures old(Valid(now)) ==> Valid(now)
      ensures |entries| <= Max(config.maxEntries, 1) || forall k :: k in entries ==> k in dirty
      ensures forall k :: k in entries ==> k in old(entries) && entries[k] == old(entries)[k]
      ensures forall k :: k in old(entries) && k in dirty ==> k in entries
    {
      var limit := Max(config.maxEntries, 1);
      while |entries| > limit
        invariant old(Valid(now)) ==> Valid(now)
        invariant forall k :: k in entries ==> k in old(entries) && entries[k] == old(entries)[k]
        invariant forall k :: k in old(entries) && k in dirty ==> k in entries
        decreases |entries|
      {
        var clean := set k | k in entries && k !in dirty;
        if clean == {} {
          assert forall k :: k in entries && k !in dirty ==> k in clean;
          break;
        }
        var key :| key in clean;
        EvictOne(key, now);
      }
    }

    method EvictOne(key: Key, ghost now: int)
      requires key !in dirty
      modifies this`entries
      ensures (old(Valid(now)) ==> Valid(now)) && entries == old(entries) - {key}
    {
      if Valid(now) { EvictAgrees(config, View(), Contents, key, now); }
      entries := entries - {key};
    }

    /** Every dirty entry is persisted as it is now, and nothing is dirty afterwards. */
    method FlushDirty(now: int) returns (flushed: nat)
      requires Valid(now)
      modifies this`dirty, this`table, this`queue, this`lastFlushAt, this`entries
      ensures Valid(now) && dirty == {} && flushed == |old(dirty)| && lastFlushAt == now
    {
      var keys := dirty;
      flushed := 0;
      while keys != {}
        invariant Valid(now) && keys == dirty && entries == old(entries)
        invariant flushed + |keys| == |old(dirty)|
        decreases |keys|
      {
        var key :| key in keys;
        PersistOne(key, now);
        keys := keys - {key};
        flushed := flushed + 1;
      }
      lastFlushAt := now;
      EvictIfNeeded(now);
    }

    method PersistOne(key: Key, ghost now: int)
      requires Valid(now) && key in dirty
      modifies this`dirty, this`table, this`queue
      ensures Valid(now) && dirty == old(dirty) - {key}
    {
      assert Live(entries, key, now) == Live(Contents, key, now);
      FlushExact(config, View(), Contents, key, entries[key], now);
      PersistTask(Snapshot(key, entries[key]));
      dirty := dirty - {key};
    }

    method FlushIfDue(now: int)
      requires Valid(now)
      modifies this`dirty, this`table, this`queue, this`lastFlushAt, this`entries
      ensures Valid(now)
      ensures if now - old(lastFlushAt) >= Max(flushInterval, 0) then dirty == {} else View() == old(View())
    {
      if now - lastFlushAt >= Max(flushInterval, 0) {
        var _ := FlushDirty(now);
      }
    }

    /** A reader gets exactly what the plain map holds, and the map does not change, unless it is given a
        row that a waiting task is going to change. */
    method Get(key: Key, now: int) returns (value: Option<Value>)
      requires Valid(now)
      modifies this
      ensures Contents == old(Contents) && value == GetReply(old(View()), key, now)
      ensures old(key in entries) ==>
                value == old(if entries[key].expiresAt == None || now < entries[key].expiresAt.value
                             then Some(entries[key].value) else None)
      ensures old(ReadsTable(View(), key) ==> Live(table, key, now) == None || Current(View(), key, now)) ==> Valid(now)
      ensures value == ValueOf(Live(Contents, key, now)) <==>
              old(ReadsTable(View(), key) ==>
                    ValueOf(Live(table, key, now)) == ValueOf(Live(Drained(table, queue), key, now)))
    {
      GetExact(config, View(), Contents, key, now);
      value := None;
      if key in entries {
        if Expired(entries[key], now) {
          ForgetKey(key);
        } else {
          value := Some(entries[key].value);
        }
      } else if key !in deleted {
        var row := ReadRow(key, now);
        if row.Some? {
          value := Some(row.value.value);
          entries := entries[key := row.value];
          deleted := deleted - {key};
          EvictIfNeeded(now);
        }
      }
    }

    method PutEntry(key: Key, e: Entry, ghost now: int)
      requires config.Fits(e.value) && Agrees(config, WriteEntry(View(), key, e), Contents[key := e], now)
      requires DirtyFits()
      modifies this`entries, this`dirty, this`deleted, this`Contents
      ensures Valid(now) && Contents == old(Contents)[key := e]
    {
      entries := entries[key := e];
      dirty := dirty + {key};
      deleted := deleted - {key};
      Contents := Contents[key := e];
    }

    method StoreEntry(key: Key, e: Entry, now: int)
      requires config.Fits(e.value) && Agrees(config, WriteEntry(View(), key, e), Contents[key := e], now)
      requires DirtyFits()
      modifies this
      ensures Valid(now) && Contents == old(Contents)[key := e]
    {
      PutEntry(key, e, now);
      EvictIfNeeded(now);
      FlushIfDue(now);
    }

    /** A write that fits is visible from then on; one that does not fit changes nothing. */
    method Set(key: Key, e: Entry, now: int) returns (saved: bool)
      requires Valid(now)
      modifies this
      ensures Valid(now) && saved == config.Fits(e.value)
      ensures saved <==> config.maxBytes <= 0 || config.size(e.value) <= config.maxBytes
      ensures Contents == if saved then old(Contents)[key := e] else old(Contents)
      ensures !saved ==> View() == old(View())
    {
      saved := config.Fits(e.value);
      if saved {
        WriteAgrees(config, View(), Contents, key, e, now);
        StoreEntry(key, e, now);
      }
    }

    method LoadForUpdate(key: Key, now: int) returns (base: Value)
      requires Valid(now)
      modifies this`entries, this`dirty, this`deleted, this`table, this`queue
      ensures base == LoadBase(old(View()), key, now) && View() == AfterLoad(config, old(View()), key, now)
      ensures DirtyFits()
    {
      base := map[];
      if key in entries {
        if Expired(entries[key], now) {
          ForgetKey(key);
        } else {
          base := entries[key].value;
        }
      } else {
        var row := ReadRow(key, now);
        if row.Some? {
          base := row.value.value;
          entries := entries[key := row.value];
        } else {
          dirty := dirty - {key};
        }
      }
    }

    /** Reads and updates in one operation. The updater gets the plain map's value exactly when the key is
        cached or its row shows the value that draining will leave. What is saved is in the map from then
        on, and a rejected update leaves the map as it was. */
    method MutateResult(key: Key, updater: Value -> Value, e: Entry, now: int) returns (saved: bool, value: Value)
      requires Valid(now)
      modifies this
      ensures var base := LoadBase(old(View()), key, now);
              && saved == config.Fits(updater(base))
              && value == (if saved then updater(base) else base)
              && Contents == (if saved then old(Contents)[key := e.(value := value)] else old(Contents))
              && (base == PlainBase(old(Contents), key, now) <==> old(key !in entries ==>
                    ValueOrEmpty(Live(table, key, now)) == ValueOrEmpty(Live(Drained(table, queue), key, now))))
      ensures saved || old(key !in entries ==> Live(table, key, now) == None || Current(View(), key, now)) ==> Valid(now)
    {
      LoadExact(config, View(), Contents, key, now);
      ghost var before := View();
      var base := LoadForUpdate(key, now);
      value := updater(base);
      saved := config.Fits(value);
      if saved {
        WriteAfterLoad(config, before, Contents, key, e.(value := value), now);
        StoreEntry(key, e.(value := value), now);
      } else {
        value := base;
      }
    }

    method Delete(key: Key, now: int)
      requires Valid(now)
      modifies this
      ensures Valid(now) && Contents == old(Contents) - {key}
    {
      RemoveAgrees(config, View(), Contents, Contents - {key}, key, now);
      ForgetKey(key);
      Contents := Contents - {key};
    }

    method PruneExpired(now: int)
      requires Valid(now)
      modifies this`table, this`queue
      ensures Valid(now) && View() == Persist(config, old(View()), Prune(now))
    {
      PruneAgrees(config, View(), Contents, now);
      PersistTask(Prune(now));
    }

    /** The writer thread applies the task at the head of its queue. */
    method WriterStep(ghost now: int)
      requires Valid(now) && queue != []
      modifies this`table, this`queue
      ensures Valid(now)
      ensures table == ApplyTask(old(table), old(queue)[0]) && queue == old(queue)[1..]
    {
      WriterAgrees(config, View(), Contents, now);
      table := ApplyTask(table, queue[0]);
      queue := queue[1..];
    }

    /** Flush, drain, clear and warm up again: the visible map survives. */
    method Restart(warm: set<Key>, now: int)
      requires Valid(now)
      modifies this
      ensures Valid(now) && Contents == old(Contents) && queue == []
      ensures forall k :: k in entries ==> k in table && entries[k] == table[k]
    {
      var _ := FlushDirty(now);
      while queue != []
        invariant Valid(now) && dirty == {} && Contents == old(Contents)
        decreases |queue|
      {
        WriterStep(now);
      }
      RestartAgrees(config, View(), Contents, warm, now);
      entries := map k | k in table && k in warm && !Expired(table[k], now) :: table[k];
      dirty, deleted := {}, {};
    }
  }
}
