/** Scheduler safety and the event ledger over every run of the pipeline. */
module PipelineRuns {
  import opened Common
  import opened Scheduler
  import opened SchedulerSafety
  import opened Pipeline

  // ---- Scheduler safety ----

  /** The scheduler is safe and each active room is held by exactly one worker. */
  ghost predicate SafeWorld(w: World) { Safe(w.s) && w.workers.Keys == w.s.active }

  lemma BeginKeepsActive(c: Config, s: State, e: Event, now: int)
    ensures Begin(c, s, e, now).active == s.active && Begin(c, s, e, now).ready == s.ready
  {
    var v := OpenQueue(Evicted(s, now, c.ttl), e.room);
    assert TakeSlot(c, v, e.room).active == s.active && TakeSlot(c, v, e.room).ready == s.ready;
  }

  lemma SafeBegin(u: Setup, w: World, e: Event, now: int, backup: bool, checkpoint: bool)
    requires SafeWorld(w)
    ensures SafeWorld(DoBegin(u, w, e, now, backup, checkpoint))
  {
    BeginKeepsSafe(u.config, w.s, e, now);
    BeginKeepsActive(u.config, w.s, e, now);
  }

  lemma SafePick(w: World)
    requires SafeWorld(w) && w.s.ready != []
    ensures SafeWorld(DoPick(w))
  {
    PickKeepsSafe(w.s);
  }

  lemma SafeFinish(w: World, room: Room)
    requires SafeWorld(w) && room in w.workers
    ensures SafeWorld(DoFinish(w, room))
  {
    FinishKeepsSafe(w.s, room);
  }

  lemma SafeStep(u: Setup, w: World, step: Step)
    requires SafeWorld(w) && Enabled(w, step)
    ensures SafeWorld(Apply(u, w, step))
  {
    match step
    case BeginAdmission(e, now, backup, checkpoint) => SafeBegin(u, w, e, now, backup, checkpoint);
    case CommitAdmission(n) => CommitKeepsSafe(w.s, EnvelopeOf(n, w.inflight[n]));
    case NextItem => SafePick(w);
    case FinishRoom(room) => SafeFinish(w, room);
    case CountOutcome(room) => assert Safe(CountDone(w.s, w.workers[room].phase != Raised));
    case RejectBackup(n) => assert Safe(CountRejected(w.s));
    case _ => assert Apply(u, w, step).s == w.s;
  }

  lemma {:induction false} SafeRun(u: Setup, w: World, steps: seq<Step>)
    requires SafeWorld(w) && Legal(u, w, steps)
    ensures SafeWorld(Run(u, w, steps))
    decreases |steps|
  {
    if steps != [] {
      SafeStep(u, w, steps[0]);
      SafeRun(u, Apply(u, w, steps[0]), steps[1..]);
    }
  }

  // ---- The event ledger ----

  /** Rooms whose worker has counted its outcome and not yet released the room. */
  function CountedRooms(w: World): set<Room> { set r | r in w.workers && w.workers[r].phase == Counted }

  /** Every accepted event is queued, active, processed, failed or dropped exactly once, and every
      admission call is accepted, a duplicate, rejected or still in flight. */
  ghost predicate Ledger(w: World) {
    var t := w.s.stats;
    && t.accepted + |CountedRooms(w)| == w.s.queuedTotal + w.s.activeTotal + t.processed + t.errors + t.dropped
    && w.calls == t.accepted + t.duplicate + t.rejected + |w.inflight|
    && forall n :: n in w.inflight ==> n < w.nextTrace
  }

  lemma SlotAccounts(c: Config, s: State, room: Room)
    ensures var v := TakeSlot(c, s, room);
            && v.stats.accepted == s.stats.accepted && v.stats.duplicate == s.stats.duplicate
            && v.stats.rejected == s.stats.rejected + (if Capacity(c, s, room) == Proceed then 0 else 1)
            && v.queuedTotal + v.stats.dropped == s.queuedTotal + s.stats.dropped
            && v.activeTotal == s.activeTotal && v.stats.processed == s.stats.processed
            && v.stats.errors == s.stats.errors
  {
  }

  lemma BeginAccounts(c: Config, s: State, e: Event, now: int)
    ensures var v := Begin(c, s, e, now);
            var ok := Judge(c, Evicted(s, now, c.ttl), e) == Proceed;
            && v.stats.accepted == s.stats.accepted
            && v.stats.duplicate + v.stats.rejected == s.stats.duplicate + s.stats.rejected + (if ok then 0 else 1)
            && v.queuedTotal + v.stats.dropped == s.queuedTotal + s.stats.dropped
            && v.activeTotal == s.activeTotal && v.stats.processed == s.stats.processed
            && v.stats.errors == s.stats.errors
  {
    SlotAccounts(c, OpenQueue(Evicted(s, now, c.ttl), e.room), e.room);
  }

  lemma LedgerBegin(u: Setup, w: World, e: Event, now: int, backup: bool, checkpoint: bool)
    requires Ledger(w)
    ensures Ledger(DoBegin(u, w, e, now, backup, checkpoint))
  {
    BeginAccounts(u.config, w.s, e, now);
    assert CountedRooms(DoBegin(u, w, e, now, backup, checkpoint)) == CountedRooms(w);
  }

  lemma LedgerCount(w: World, room: Room)
    requires Ledger(w) && (InPhase(w, room, Checkpointed) || InPhase(w, room, Raised))
    ensures Ledger(DoCount(w, room))
  {
    assert CountedRooms(DoCount(w, room)) == CountedRooms(w) + {room};
  }

  lemma LedgerFinish(w: World, room: Room)
    requires Ledger(w) && InPhase(w, room, Counted)
    ensures Ledger(DoFinish(w, room))
  {
    assert CountedRooms(DoFinish(w, room)) == CountedRooms(w) - {room};
  }

  lemma PickAccounts(s: State)
    requires s.ready != []
    ensures Pick(s).queuedTotal + Pick(s).activeTotal == s.queuedTotal + s.activeTotal && Pick(s).stats == s.stats
  {
  }

  lemma LedgerPick(w: World)
    requires Ledger(w) && SafeWorld(w) && w.s.ready != []
    ensures Ledger(DoPick(w))
  {
    PickAccounts(w.s);
    assert w.s.ready[0] !in w.workers by { PickKeepsSafe(w.s); }
    assert CountedRooms(DoPick(w)) == CountedRooms(w);
  }

  lemma LedgerCommit(w: World, n: nat)
    requires Ledger(w) && n in w.inflight
    ensures Ledger(DoCommit(w, n))
  {
    assert CountedRooms(DoCommit(w, n)) == CountedRooms(w);
  }

  lemma LedgerPhase(w: World, room: Room, p: WorkerPhase)
    requires Ledger(w) && room in w.workers && w.workers[room].phase != Counted && p != Counted
    ensures Ledger(SetPhase(w, room, p))
  {
    assert CountedRooms(SetPhase(w, room, p)) == CountedRooms(w);
  }

  lemma LedgerStep(u: Setup, w: World, step: Step)
    requires Ledger(w) && SafeWorld(w) && Enabled(w, step)
    ensures Ledger(Apply(u, w, step))
  {
    match step
    case BeginAdmission(e, now, backup, checkpoint) => LedgerBegin(u, w, e, now, backup, checkpoint);
    case NextItem => LedgerPick(w);
    case HandlerReturns(room) => LedgerPhase(w, room, Returned);
    case HandlerRaises(room) => LedgerPhase(w, room, Raised);
    case QueueProcessed(room) => LedgerPhase(w, room, Checkpointed);
    case CountOutcome(room) => LedgerCount(w, room);
    case FinishRoom(room) => LedgerFinish(w, room);
    case CommitAdmission(n) => LedgerCommit(w, n);
    case RejectBackup(n) => LedgerReject(w, n);
    case QueueBackup(n) => assert CountedRooms(DoQueueBackup(u, w, n)) == CountedRooms(w);
    case _ =>
      LedgerFrame(u, w, step);
      LedgerQuiet(w, Apply(u, w, step));
  }

  lemma LedgerFrame(u: Setup, w: World, step: Step)
    requires Enabled(w, step)
    requires step.Tick? || step.InsertRow? || step.HandlerMarks? || step.SubmitUnrelated? || step.WriterTakes? ||
             step.WriterWrites?
    ensures var w' := Apply(u, w, step);
            && w'.s == w.s && w'.workers == w.workers && w'.inflight == w.inflight
            && w'.calls == w.calls && w'.nextTrace == w.nextTrace
  {
  }

  lemma LedgerReject(w: World, n: nat)
    requires Ledger(w) && n in w.inflight
    ensures Ledger(w.(s := CountRejected(w.s), inflight := w.inflight - {n}))
  {
    assert CountedRooms(w.(s := CountRejected(w.s), inflight := w.inflight - {n})) == CountedRooms(w);
  }

  lemma LedgerQuiet(w: World, w': World)
    requires Ledger(w) && w'.s == w.s && w'.workers == w.workers && w'.inflight == w.inflight
    requires w'.calls == w.calls && w'.nextTrace == w.nextTrace
    ensures Ledger(w')
  {
    assert CountedRooms(w') == CountedRooms(w);
  }

  lemma {:induction false} LedgerRun(u: Setup, w: World, steps: seq<Step>)
    requires Ledger(w) && SafeWorld(w) && Legal(u, w, steps)
    ensures Ledger(Run(u, w, steps))
    decreases |steps|
  {
    if steps != [] {
      LedgerStep(u, w, steps[0]);
      SafeStep(u, w, steps[0]);
      LedgerRun(u, Apply(u, w, steps[0]), steps[1..]);
    }
  }
}
