/** Every interleaving of request threads, workers and the SQLite writer around the scheduler.
    One step is one lock region, one writer call or one handler outcome; an admission is in flight
    between its two lock regions, with the writer call in between. */
module Pipeline {
  import opened Common
  import opened Scheduler

  datatype AdmissionPhase = Admitted | BackedUp | Refused

  datatype Admission = Admission(event: Event, acceptedAt: int, backup: bool, checkpoint: bool, phase: AdmissionPhase)

  datatype WorkerPhase = Running | Returned | Raised | Checkpointed | Counted

  datatype Worker = Worker(item: Envelope, phase: WorkerPhase)

  datatype WriteTask = Backup(trace: nat, id: EventId) | MarkProcessed(trace: nat, id: EventId) | Unrelated

  /** The FIFO writer: everything ever submitted, how much the writer thread took off its queue, and
      how much of that it has worked through. */
  datatype Writer = Writer(submitted: seq<WriteTask>, taken: nat, done: nat)

  /** What happened so far, room by room. */
  datatype History = History(
    accepted: map<Room, seq<Envelope>>, removed: map<Room, seq<Envelope>>,
    started: map<Room, seq<Envelope>>, finished: map<Room, seq<Envelope>>)

  /** What an admission that went through was called with. */
  datatype Request = Request(event: Event, at: int, checkpoint: bool)

  /** Which admissions asked for a backup, which events' handlers returned normally and which marked their
      stored row themselves, what each admission was called with, and how many handlers returned and
      raised. */
  datatype Log = Log(
    wanted: set<nat>, returned: set<nat>, selfMarked: set<(nat, EventId)>, requests: map<nat, Request>,
    ended: nat, raised: nat)

  /** The scheduler and everything around it. The last three fields only record: what happened per room,
      every accepted id with its time, and the log. */
  datatype World = World(
    s: State,
    clock: int,
    inflight: map<nat, Admission>,
    nextTrace: nat,
    workers: map<Room, Worker>,
    writer: Writer,
    rows: map<EventId, bool>,
    calls: nat,
    hist: History,
    accepts: seq<(EventId, int)>,
    log: Log)

  /** Scheduler settings and the capacity of the writer's queue. */
  datatype Setup = Setup(config: Config, writerCapacity: positive)

  const Start: World := World(Empty, 0, map[], 0, map[], Writer([], 0, 0), map[], 0,
                              History(map[], map[], map[], map[]), [], Log({}, {}, {}, map[], 0, 0))

  datatype Step =
    | Tick(to: int)
    | BeginAdmission(e: Event, now: int, backup: bool, checkpoint: bool)
    | QueueBackup(trace: nat)
    | RejectBackup(trace: nat)
    | CommitAdmission(trace: nat)
    | NextItem
    | InsertRow(id: EventId)
    | HandlerMarks(room: Room)
    | HandlerReturns(room: Room)
    | HandlerRaises(room: Room)
    | QueueProcessed(room: Room)
    | CountOutcome(room: Room)
    | FinishRoom(room: Room)
    | SubmitUnrelated
    | WriterTakes
    | WriterWrites(ok: bool)

  function Push(m: map<Room, seq<Envelope>>, v: Envelope): map<Room, seq<Envelope>> {
    m[v.event.room := At(m, v.event.room) + [v]]
  }

  /** `put_nowait` on the writer's bounded queue. */
  predicate WriterAccepts(u: Setup, w: World) { |w.writer.submitted| - w.writer.taken < u.writerCapacity }

  function Submit(w: World, t: WriteTask): World {
    w.(writer := w.writer.(submitted := w.writer.submitted + [t]))
  }

  predicate InPhase(w: World, room: Room, p: WorkerPhase) { room in w.workers && w.workers[room].phase == p }

  function SetPhase(w: World, room: Room, p: WorkerPhase): World
    requires room in w.workers
  {
    w.(workers := w.workers[room := w.workers[room].(phase := p)])
  }

  predicate Enabled(w: World, step: Step) {
    match step
    case Tick(to) => w.clock <= to
    case BeginAdmission(_, now, _, _) => now <= w.clock
    case QueueBackup(n) => n in w.inflight && w.inflight[n].phase == Admitted
    case RejectBackup(n) => n in w.inflight && w.inflight[n].phase == Refused
    case CommitAdmission(n) => n in w.inflight && w.inflight[n].phase == BackedUp
    case NextItem => w.s.ready != []
    case InsertRow(_) => true
    case HandlerMarks(room) => InPhase(w, room, Running) && !w.workers[room].item.checkpoint
    case HandlerReturns(room) => InPhase(w, room, Running)
    case HandlerRaises(room) => InPhase(w, room, Running)
    case QueueProcessed(room) => InPhase(w, room, Returned)
    case CountOutcome(room) => InPhase(w, room, Checkpointed) || InPhase(w, room, Raised)
    case FinishRoom(room) => InPhase(w, room, Counted)
    case SubmitUnrelated => true
    case WriterTakes => w.writer.taken < |w.writer.submitted|
    case WriterWrites(_) => w.writer.done < w.writer.taken <= |w.writer.submitted|
  }

  /** The verdict an admission that starts now would get. */
  function VerdictNow(u: Setup, w: World, e: Event, now: int): Verdict {
    Judge(u.config, Evicted(w.s, now, u.config.ttl), e)
  }

  /** The queued event that this admission's first lock region discards, if any. */
  function Discarded(u: Setup, w: World, e: Event, now: int): Option<Envelope> {
    if VerdictNow(u, w, e, now) == Proceed && |At(w.s.queues, e.room)| >= u.config.roomLimit
    then Some(At(w.s.queues, e.room)[0]) else None
  }

  function DoBegin(u: Setup, w: World, e: Event, now: int, backup: bool, checkpoint: bool): World {
    var began := w.(s := Begin(u.config, w.s, e, now), calls := w.calls + 1);
    if VerdictNow(u, w, e, now) != Proceed then began
    else
      var gone := Discarded(u, w, e, now);
      var phase := if backup then Admitted else BackedUp;
      began.(
        inflight := w.inflight[w.nextTrace := Admission(e, now, backup, checkpoint, phase)],
        nextTrace := w.nextTrace + 1,
        log := w.log.(wanted := if backup then w.log.wanted + {w.nextTrace} else w.log.wanted,
                      requests := w.log.requests[w.nextTrace := Request(e, now, checkpoint)]),
        hist := if gone.Some? then w.hist.(removed := Push(w.hist.removed, gone.value)) else w.hist)
  }

  function DoQueueBackup(u: Setup, w: World, n: nat): World
    requires n in w.inflight
  {
    var a := w.inflight[n];
    if WriterAccepts(u, w) then
      Submit(w, Backup(n, a.event.id)).(
        inflight := w.inflight[n := a.(phase := BackedUp)])
    else w.(inflight := w.inflight[n := a.(phase := Refused)])
  }

  function EnvelopeOf(n: nat, a: Admission): Envelope { Envelope(a.event, a.acceptedAt, n, a.checkpoint) }

  function DoCommit(w: World, n: nat): World
    requires n in w.inflight
  {
    var v := EnvelopeOf(n, w.inflight[n]);
    w.(s := Commit(w.s, v), inflight := w.inflight - {n},
       accepts := w.accepts + [(v.event.id, v.acceptedAt)],
       hist := w.hist.(accepted := Push(w.hist.accepted, v)))
  }

  function DoPick(w: World): World
    requires w.s.ready != []
  {
    match Picked(w.s)
    case None => w.(s := Pick(w.s))
    case Some(v) =>
      w.(s := Pick(w.s), workers := w.workers[w.s.ready[0] := Worker(v, Running)],
         hist := w.hist.(removed := Push(w.hist.removed, v), started := Push(w.hist.started, v)))
  }

  function DoReturn(w: World, room: Room): World
    requires room in w.workers
  {
    SetPhase(w, room, Returned).(
      log := w.log.(returned := w.log.returned + {w.workers[room].item.trace}, ended := w.log.ended + 1))
  }

  function DoQueueProcessed(u: Setup, w: World, room: Room): World
    requires room in w.workers
  {
    var v := w.workers[room].item;
    SetPhase(if v.checkpoint && WriterAccepts(u, w) then Submit(w, MarkProcessed(v.trace, v.event.id)) else w,
             room, Checkpointed)
  }

  function DoCount(w: World, room: Room): World
    requires room in w.workers
  {
    SetPhase(w, room, Counted).(s := CountDone(w.s, w.workers[room].phase != Raised))
  }

  function DoFinish(w: World, room: Room): World
    requires room in w.workers
  {
    w.(s := Finish(w.s, room), workers := w.workers - {room},
       hist := w.hist.(finished := Push(w.hist.finished, w.workers[room].item)))
  }

  /** `insert_message` ignores an id that is already stored. */
  function Inserted(rows: map<EventId, bool>, id: EventId): map<EventId, bool> {
    if id in rows then rows else rows[id := false]
  }

  /** The processed mark needs a stored row. */
  function Marked(rows: map<EventId, bool>, id: EventId): map<EventId, bool> {
    if id in rows then rows[id := true] else rows
  }

  function Written(rows: map<EventId, bool>, t: WriteTask): map<EventId, bool> {
    match t
    case Backup(_, id) => Inserted(rows, id)
    case MarkProcessed(_, id) => Marked(rows, id)
    case Unrelated => rows
  }

  /** The handler of a recovered event, which has no checkpoint, marks the stored row before it returns. */
  function DoSelfMark(w: World, room: Room): World
    requires room in w.workers
  {
    var v := w.workers[room].item;
    w.(rows := Marked(w.rows, v.event.id), log := w.log.(selfMarked := w.log.selfMarked + {(v.trace, v.event.id)}))
  }

  function DoWrite(w: World, ok: bool): World
    requires w.writer.done < |w.writer.submitted|
  {
    w.(writer := w.writer.(done := w.writer.done + 1),
       rows := if ok then Written(w.rows, w.writer.submitted[w.writer.done]) else w.rows)
  }

  function Apply(u: Setup, w: World, step: Step): World
    requires Enabled(w, step)
  {
    match step
    case Tick(to) => w.(clock := to)
    case BeginAdmission(e, now, backup, checkpoint) => DoBegin(u, w, e, now, backup, checkpoint)
    case QueueBackup(n) => DoQueueBackup(u, w, n)
    case RejectBackup(n) => w.(s := CountRejected(w.s), inflight := w.inflight - {n})
    case CommitAdmission(n) => DoCommit(w, n)
    case NextItem => DoPick(w)
    case InsertRow(id) => w.(rows := Inserted(w.rows, id))
    case HandlerMarks(room) => DoSelfMark(w, room)
    case HandlerReturns(room) => DoReturn(w, room)
    case HandlerRaises(room) => SetPhase(w, room, Raised).(log := w.log.(raised := w.log.raised + 1))
    case QueueProcessed(room) => DoQueueProcessed(u, w, room)
    case CountOutcome(room) => DoCount(w, room)
    case FinishRoom(room) => DoFinish(w, room)
    case SubmitUnrelated => if WriterAccepts(u, w) then Submit(w, Unrelated) else w
    case WriterTakes => w.(writer := w.writer.(taken := w.writer.taken + 1))
    case WriterWrites(ok) => DoWrite(w, ok)
  }

  /** The steps can be taken one after the other from `w`. */
  predicate Legal(u: Setup, w: World, steps: seq<Step>)
    decreases |steps|
  {
    steps == [] || (Enabled(w, steps[0]) && Legal(u, Apply(u, w, steps[0]), steps[1..]))
  }

  function Run(u: Setup, w: World, steps: seq<Step>): World
    requires Legal(u, w, steps)
    decreases |steps|
  {
    if steps == [] then w else Run(u, Apply(u, w, steps[0]), steps[1..])
  }
}
