/** The room-partitioned event scheduler: its state, one function per lock region, and the
    class whose methods work in place on the same fields (app/infra/memory_pipeline.py). */
module Scheduler {
  import opened Common

  type Room = string
  type EventId = string

  datatype Event = Event(id: EventId, room: Room)

  /** A queued event. `trace` stands for the random trace id: no two envelopes share one. */
  datatype Envelope = Envelope(event: Event, acceptedAt: int, trace: nat, checkpoint: bool)

  datatype OverflowPolicy = RejectNew | DropOldest

  datatype Config = Config(
    globalLimit: positive, roomLimit: positive, maxPartitions: positive, ttl: positive, policy: OverflowPolicy)

  datatype Stats = Stats(accepted: nat, processed: nat, duplicate: nat, rejected: nat, dropped: nat, errors: nat)

  datatype Verdict = Proceed | Duplicate | PartitionLimit | QueueFull | RoomFull

  datatype State = State(
    queues: map<Room, seq<Envelope>>,
    ready: seq<Room>,
    readySet: set<Room>,
    active: set<Room>,
    dedupe: map<EventId, int>,
    order: seq<(EventId, int)>,
    queuedTotal: int,
    activeTotal: int,
    stats: Stats)

  const Empty: State := State(map[], [], {}, {}, map[], [], 0, 0, Stats(0, 0, 0, 0, 0, 0))

  /** Rooms that occupy a partition: a queue exists for them or a worker holds them. */
  function Partitions(s: State): set<Room> { s.queues.Keys + s.active }

  // ---- The dedupe window ----

  /** `_dedupe` and `_dedupe_order` after expired records left the head of the order. */
  function Evict(dedupe: map<EventId, int>, order: seq<(EventId, int)>, now: int, ttl: nat)
    : (map<EventId, int>, seq<(EventId, int)>)
    decreases |order|
  {
    if order == [] || now - order[0].1 <= ttl then (dedupe, order)
    else
      var (key, at) := order[0];
      Evict(if key in dedupe && dedupe[key] == at then dedupe - {key} else dedupe, order[1..], now, ttl)
  }

  function Evicted(s: State, now: int, ttl: nat): State {
    var (dedupe, order) := Evict(s.dedupe, s.order, now, ttl);
    s.(dedupe := dedupe, order := order)
  }

  // ---- Admission ----

  function CountDuplicate(s: State): State { s.(stats := s.stats.(duplicate := s.stats.duplicate + 1)) }

  function CountRejected(s: State): State { s.(stats := s.stats.(rejected := s.stats.rejected + 1)) }

  function OpenQueue(s: State, room: Room): State {
    s.(queues := s.queues[room := At(s.queues, room)])
  }

  function DropHead(s: State, room: Room): State
    requires At(s.queues, room) != []
  {
    s.(queues := s.queues[room := s.queues[room][1..]], queuedTotal := s.queuedTotal - 1,
       stats := s.stats.(dropped := s.stats.dropped + 1))
  }

  /** The capacity checks, made once the room has a queue. */
  function Capacity(c: Config, s: State, room: Room): Verdict {
    if s.queuedTotal >= c.globalLimit then QueueFull
    else if |At(s.queues, room)| >= c.roomLimit && c.policy != DropOldest then RoomFull
    else Proceed
  }

  /** What the capacity checks do: reject, make space by dropping the oldest event, or nothing. */
  function TakeSlot(c: Config, s: State, room: Room): State {
    if Capacity(c, s, room) != Proceed then CountRejected(s)
    else if |At(s.queues, room)| >= c.roomLimit then DropHead(s, room)
    else s
  }

  /** The first lock region's answer, on a state whose dedupe window is already evicted. */
  function Judge(c: Config, s: State, e: Event): Verdict {
    if e.id in s.dedupe then Duplicate
    else if e.room !in Partitions(s) && |Partitions(s)| >= c.maxPartitions then PartitionLimit
    else Capacity(c, OpenQueue(s, e.room), e.room)
  }

  /** What the first lock region does once the dedupe window is evicted. */
  function Admit(c: Config, s: State, e: Event): State {
    match Judge(c, s, e)
    case Duplicate => CountDuplicate(s)
    case PartitionLimit => CountRejected(s)
    case _ => TakeSlot(c, OpenQueue(s, e.room), e.room)
  }

  /** The first lock region of an admission. */
  function Begin(c: Config, s: State, e: Event, now: int): State {
    Admit(c, Evicted(s, now, c.ttl), e)
  }

  function MarkReady(s: State, room: Room): State {
    if room in s.active || room in s.readySet then s
    else s.(ready := s.ready + [room], readySet := s.readySet + {room})
  }

  /** The second lock region of an admission. */
  function Commit(s: State, v: Envelope): State {
    MarkReady(
      s.(queues := s.queues[v.event.room := At(s.queues, v.event.room) + [v]],
         dedupe := s.dedupe[v.event.id := v.acceptedAt],
         order := s.order + [(v.event.id, v.acceptedAt)],
         queuedTotal := s.queuedTotal + 1,
         stats := s.stats.(accepted := s.stats.accepted + 1)),
      v.event.room)
  }

  // ---- Workers ----

  /** What the room at the head of the ready line holds for a worker. */
  function Picked(s: State): Option<Envelope>
    requires s.ready != []
  {
    var q := At(s.queues, s.ready[0]);
    if q == [] then None else Some(q[0])
  }

  function Pick(s: State): State
    requires s.ready != []
  {
    var room := s.ready[0];
    var line := s.(ready := s.ready[1..], readySet := s.readySet - {room});
    var q := At(s.queues, room);
    if q == [] then line
    else line.(
      queues := if |q| == 1 then s.queues - {room} else s.queues[room := q[1..]],
      queuedTotal := s.queuedTotal - 1, activeTotal := s.activeTotal + 1, active := s.active + {room})
  }

  function CountDone(s: State, ok: bool): State {
    s.(stats := if ok then s.stats.(processed := s.stats.processed + 1)
                else s.stats.(errors := s.stats.errors + 1))
  }

  function Finish(s: State, room: Room): State {
    var idle := s.(activeTotal := s.activeTotal - 1, active := s.active - {room});
    if At(s.queues, room) != [] then MarkReady(idle, room) else idle
  }

  // ---- The same regions, in place ----

  class MemoryPipeline {
    const config: Config
    var queues: map<Room, seq<Envelope>>
    var ready: seq<Room>
    var readySet: set<Room>
    var active: set<Room>
    var dedupe: map<EventId, int>
    var order: seq<(EventId, int)>
    var queuedTotal: int
    var activeTotal: int
    var stats: Stats

    ghost function View(): State
      reads this
    {
      State(queues, ready, readySet, active, dedupe, order, queuedTotal, activeTotal, stats)
    }

    constructor (config: Config)
      ensures this.config == config && View() == Empty
    {
      this.config := config;
      queues, ready, readySet, active, dedupe, order := map[], [], {}, {}, map[], [];
      queuedTotal, activeTotal, stats := 0, 0, Stats(0, 0, 0, 0, 0, 0);
    }

    method EvictDedupe(now: int)
      modifies this`dedupe, this`order
      ensures View() == Evicted(old(View()), now, config.ttl)
    {
      ghost var target := Evict(dedupe, order, now, config.ttl);
      while order != []
        invariant Evict(dedupe, order, now, config.ttl) == target
        decreases |order|
      {
        var (key, at) := order[0];
        if now - at <= config.ttl { break; }
        order := order[1..];
        if key in dedupe && dedupe[key] == at {
          dedupe := dedupe - {key};
        }
      }
    }

    /** `setdefault` of the room's queue. */
    method OpenRoomQueue(room: Room)
      modifies this`queues
      ensures View() == OpenQueue(old(View()), room)
    {
      if room !in queues {
        queues := queues[room := []];
      } else {
        assert queues == queues[room := queues[room]];
      }
    }

    method BeginAdmission(e: Event, now: int) returns (verdict: Verdict)
      modifies this
      ensures View() == Begin(config, old(View()), e, now)
      ensures verdict == Judge(config, Evicted(old(View()), now, config.ttl), e)
    {
      EvictDedupe(now);
      verdict := AdmitToRoom(e);
    }

    method AdmitToRoom(e: Event) returns (verdict: Verdict)
      modifies this
      ensures View() == Admit(config, old(View()), e)
      ensures verdict == Judge(config, old(View()), e)
    {
      if e.id in dedupe {
        stats := stats.(duplicate := stats.duplicate + 1);
        return Duplicate;
      }
      var known := e.room in queues || e.room in active;
      assert queues.Keys + active == Partitions(View());
      if !known && |queues.Keys + active| >= config.maxPartitions {
        stats := stats.(rejected := stats.rejected + 1);
        return PartitionLimit;
      }
      OpenRoomQueue(e.room);
      verdict := ReserveSlot(e.room);
    }

    method ReserveSlot(room: Room) returns (verdict: Verdict)
      requires room in queues
      modifies this
      ensures View() == TakeSlot(config, old(View()), room)
      ensures verdict == Capacity(config, old(View()), room)
    {
      if queuedTotal >= config.globalLimit {
        stats := stats.(rejected := stats.rejected + 1);
        return QueueFull;
      }
      if |queues[room]| >= config.roomLimit {
        if config.policy == DropOldest && queues[room] != [] {
          queues := queues[room := queues[room][1..]];
          queuedTotal := queuedTotal - 1;
          stats := stats.(dropped := stats.dropped + 1);
        } else {
          stats := stats.(rejected := stats.rejected + 1);
          return RoomFull;
        }
      }
      return Proceed;
    }

    method RefuseBackup()
      modifies this`stats
      ensures View() == CountRejected(old(View()))
    {
      stats := stats.(rejected := stats.rejected + 1);
    }

    method MarkRoomReady(room: Room)
      modifies this`ready, this`readySet
      ensures View() == MarkReady(old(View()), room)
    {
      if room in active || room in readySet { return; }
      ready := ready + [room];
      readySet := readySet + {room};
    }

    method CommitAdmission(v: Envelope)
      modifies this
      ensures View() == Commit(old(View()), v)
    {
      var queue := if v.event.room in queues then queues[v.event.room] else [];
      queues := queues[v.event.room := queue + [v]];
      dedupe := dedupe[v.event.id := v.acceptedAt];
      order := order + [(v.event.id, v.acceptedAt)];
      queuedTotal := queuedTotal + 1;
      stats := stats.(accepted := stats.accepted + 1);
      MarkRoomReady(v.event.room);
    }

    method NextItem() returns (room: Room, item: Option<Envelope>)
      requires ready != []
      modifies this
      ensures room == old(ready[0]) && item == Picked(old(View()))
      ensures View() == Pick(old(View()))
    {
      room := ready[0];
      ready := ready[1..];
      readySet := readySet - {room};
      if room !in queues || queues[room] == [] { return room, None; }
      item := Some(queues[room][0]);
      queues := queues[room := queues[room][1..]];
      queuedTotal := queuedTotal - 1;
      activeTotal := activeTotal + 1;
      active := active + {room};
      if queues[room] == [] {
        queues := queues - {room};
        assert queues == old(queues) - {room};
      }
    }

    method CountOutcome(ok: bool)
      modifies this`stats
      ensures View() == CountDone(old(View()), ok)
    {
      if ok {
        stats := stats.(processed := stats.processed + 1);
      } else {
        stats := stats.(errors := stats.errors + 1);
      }
    }

    method FinishRoom(room: Room)
      modifies this
      ensures View() == Finish(old(View()), room)
    {
      activeTotal := activeTotal - 1;
      active := active - {room};
      if room in queues && queues[room] != [] {
        MarkRoomReady(room);
      }
    }
  }
}
