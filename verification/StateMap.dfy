/** The write-back state cache over the chatbot_states table, as a value: cache entries, dirty and
    deleted marks, the table, and the tasks waiting in the writer's queue
    (app/chatbot/state_store.py, app/repositories/chatbot_states.py). */
module StateMap {
  import opened Common

  type Key = string
  type Value = map<string, string>

  datatype Entry = Entry(value: Value, expiresAt: Option<int>, botKey: string, roomKey: string, sender: Option<string>)

  datatype Task = Snapshot(key: Key, entry: Entry) | Remove(key: Key) | Prune(until: int)

  datatype Store = Store(
    entries: map<Key, Entry>, dirty: set<Key>, deleted: set<Key>, table: map<Key, Entry>, queue: seq<Task>)

  /** `direct` is the mode without a writer: tasks reach the table at once. `size` is the length of a
      state's JSON text; a limit of zero or less means no limit. */
  datatype Config = Config(direct: bool, maxBytes: int, size: Value -> nat, maxEntries: int) {
    predicate Fits(v: Value) { maxBytes <= 0 || size(v) <= maxBytes }
  }

  predicate Expired(e: Entry, now: int) { e.expiresAt.Some? && e.expiresAt.value <= now }

  /** What a reader at time `now` may see of the entry under `k`. */
  function Live(m: map<Key, Entry>, k: Key, now: int): Option<Entry> {
    if k in m && !Expired(m[k], now) then Some(m[k]) else None
  }

  function ValueOf(e: Option<Entry>): Option<Value> { if e.Some? then Some(e.value.value) else None }

  // ---- The table and the writer ----

  function ApplyTask(table: map<Key, Entry>, t: Task): map<Key, Entry> {
    match t
    case Snapshot(k, e) => table[k := e]
    case Remove(k) => table - {k}
    case Prune(until) => map k | k in table && !Expired(table[k], until) :: table[k]
  }

  /** The table once every waiting task is applied, in order. */
  function Drained(table: map<Key, Entry>, queue: seq<Task>): map<Key, Entry>
    decreases |queue|
  {
    if queue == [] then table else Drained(ApplyTask(table, queue[0]), queue[1..])
  }

  function Persist(c: Config, s: Store, t: Task): Store {
    if c.direct then s.(table := ApplyTask(s.table, t)) else s.(queue := s.queue + [t])
  }

  /** No task that names `k` is waiting. */
  predicate NoWaiting(queue: seq<Task>, k: Key) {
    forall i :: 0 <= i < |queue| ==> queue[i] != Remove(k) && !(queue[i].Snapshot? && queue[i].key == k)
  }

  /** Reading a row deletes it if it has expired. */
  function AfterRead(s: Store, k: Key, now: int): Store {
    if k in s.table && Expired(s.table[k], now) then s.(table := s.table - {k}) else s
  }

  // ---- Cache operations ----

  /** An expired cached entry is dropped, remembered as deleted, and removed from the table. */
  function DropExpired(c: Config, s: Store, k: Key): Store {
    Persist(c, s.(entries := s.entries - {k}, dirty := s.dirty - {k}, deleted := s.deleted + {k}), Remove(k))
  }

  function WriteEntry(s: Store, k: Key, e: Entry): Store {
    s.(entries := s.entries[k := e], dirty := s.dirty + {k}, deleted := s.deleted - {k})
  }

  /** Does looking at `k` need the table? */
  predicate ReadsTable(s: Store, k: Key) { k !in s.entries && k !in s.deleted }

  /** `BotStateStore.get`: the cache, else the table unless the key was deleted; a row is kept clean. */
  function AfterGet(c: Config, s: Store, k: Key, now: int): Store {
    if k in s.entries then (if Expired(s.entries[k], now) then DropExpired(c, s, k) else s)
    else if k in s.deleted then s
    else
      var row := Live(s.table, k, now);
      var t := AfterRead(s, k, now);
      if row.Some? then t.(entries := s.entries[k := row.value], deleted := s.deleted - {k}) else t
  }

  function GetReply(s: Store, k: Key, now: int): Option<Value> {
    if k in s.entries then ValueOf(Live(s.entries, k, now))
    else if k in s.deleted then None
    else ValueOf(Live(s.table, k, now))
  }

  /** `MemoryStateCache.mutate` up to the updater: unlike `get` it does not consult the deleted marks. */
  function AfterLoad(c: Config, s: Store, k: Key, now: int): Store {
    if k in s.entries then (if Expired(s.entries[k], now) then DropExpired(c, s, k) else s)
    else
      var row := Live(s.table, k, now);
      var t := AfterRead(s, k, now);
      if row.Some? then t.(entries := s.entries[k := row.value]) else t.(dirty := s.dirty - {k})
  }

  function LoadBase(s: Store, k: Key, now: int): Value {
    var e := if k in s.entries then Live(s.entries, k, now) else Live(s.table, k, now);
    if e.Some? then e.value.value else map[]
  }

  function AfterDelete(c: Config, s: Store, k: Key): Store { DropExpired(c, s, k) }

  /** One key of a flush: the captured entry is persisted and the key is no longer dirty. */
  function AfterFlush(c: Config, s: Store, k: Key, captured: Entry): Store {
    Persist(c, s, Snapshot(k, captured)).(dirty := s.dirty - {k})
  }

  // ---- Agreement with a plain expiring map ----

  /** The store and the plain map `m` cannot be told apart from `now` on: cached entries show `m`,
      applying the waiting tasks makes the table agree with `m` on every key that is not dirty, and a
      key marked deleted is dead. */
  ghost predicate Agrees(c: Config, s: Store, m: map<Key, Entry>, now: int) {
    && (forall k :: k in s.entries ==> Live(s.entries, k, now) == Live(m, k, now))
    && (forall k :: k !in s.dirty ==> Live(Drained(s.table, s.queue), k, now) == Live(m, k, now))
    && (forall k :: k in s.dirty ==> k in s.entries)
    && (forall k :: k in s.deleted ==> k !in s.entries && Live(m, k, now) == None)
    && (forall i :: 0 <= i < |s.queue| && s.queue[i].Prune? ==> s.queue[i].until <= now)
    && (c.direct ==> s.queue == [])
  }

  // ---- The drained table ----

  lemma {:induction false} DrainedPush(table: map<Key, Entry>, queue: seq<Task>, t: Task)
    ensures Drained(table, queue + [t]) == ApplyTask(Drained(table, queue), t)
    decreases |queue|
  {
    if queue == [] {
      assert queue + [t] == [t] && [t][1..] == [];
    } else {
      DrainedPush(ApplyTask(table, queue[0]), queue[1..], t);
      assert (queue + [t])[1..] == queue[1..] + [t];
    }
  }

  lemma PersistDrains(c: Config, s: Store, t: Task)
    requires c.direct ==> s.queue == []
    ensures var v := Persist(c, s, t);
            Drained(v.table, v.queue) == ApplyTask(Drained(s.table, s.queue), t)
  {
    if !c.direct { DrainedPush(s.table, s.queue, t); }
  }

  /** Draining depends on a key's row only through what is still live, unless a task names the key. */
  lemma {:induction false} DrainedElsewhere(a: map<Key, Entry>, b: map<Key, Entry>, queue: seq<Task>, k: Key, now: int)
    requires Live(a, k, now) == Live(b, k, now)
    requires forall i :: 0 <= i < |queue| && queue[i].Prune? ==> queue[i].until <= now
    ensures Live(Drained(a, queue), k, now) == Live(Drained(b, queue), k, now)
    ensures NoWaiting(queue, k) ==> Live(Drained(a, queue), k, now) == Live(a, k, now)
    decreases |queue|
  {
    if queue != [] {
      var t := queue[0];
      assert Live(ApplyTask(a, t), k, now) == Live(ApplyTask(b, t), k, now);
      assert NoWaiting(queue, k) ==> Live(ApplyTask(a, t), k, now) == Live(a, k, now);
      assert forall i :: 0 <= i < |queue[1..]| ==> queue[1..][i] == queue[i + 1];
      DrainedElsewhere(ApplyTask(a, t), ApplyTask(b, t), queue[1..], k, now);
    }
  }
}
