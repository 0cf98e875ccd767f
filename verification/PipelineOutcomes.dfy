/** What becomes of an event: it is handled as it was sent, counted as its handler ended, and marked as it
    asked for. */
module PipelineOutcomes {
  import opened Common
  import opened Scheduler
  import opened SchedulerSafety
  import opened Pipeline
  import opened PipelineRuns
  import opened PipelineOrder
  import opened PipelineCheckpoint

  // ---- Outcomes ----

  function InPhases(w: World, phases: set<WorkerPhase>): set<Room> { set r | r in w.workers && w.workers[r].phase in phases }

  /** Every handler that returned is counted as processed and every one that raised as an error, as soon as
      its worker has counted it. */
  ghost predicate OutcomesCounted(w: World) {
    && w.log.ended == w.s.stats.processed + |InPhases(w, {Returned, Checkpointed})|
    && w.log.raised == w.s.stats.errors + |InPhases(w, {Raised})|
  }

  lemma PhaseMoves(w: World, room: Room, p: WorkerPhase, phases: set<WorkerPhase>)
    requires room in w.workers
    ensures |InPhases(SetPhase(w, room, p), phases)| == |InPhases(w, phases)|
            - (if w.workers[room].phase in phases then 1 else 0) + (if p in phases then 1 else 0)
  {
    var rest := InPhases(w, phases) - {room};
    assert InPhases(SetPhase(w, room, p), phases) == rest + (if p in phases then {room} else {});
    assert InPhases(w, phases) == rest + (if w.workers[room].phase in phases then {room} else {});
  }

  lemma OutcomesPhase(w: World, w': World, room: Room, p: WorkerPhase)
    requires OutcomesCounted(w) && room in w.workers && w'.workers == SetPhase(w, room, p).workers
    requires var was := w.workers[room].phase;
             && w'.log.ended == w.log.ended + (if was == Running && p == Returned then 1 else 0)
             && w'.log.raised == w.log.raised + (if was == Running && p == Raised then 1 else 0)
             && w'.s.stats.processed == w.s.stats.processed + (if p == Counted && was == Checkpointed then 1 else 0)
             && w'.s.stats.errors == w.s.stats.errors + (if p == Counted && was == Raised then 1 else 0)
             && (|| (was == Running && (p == Returned || p == Raised))
                 || (was == Returned && p == Checkpointed)
                 || ((was == Checkpointed || was == Raised) && p == Counted))
    ensures OutcomesCounted(w')
  {
    PhaseMoves(w, room, p, {Returned, Checkpointed});
    PhaseMoves(w, room, p, {Raised});
    assert InPhases(w', {Returned, Checkpointed}) == InPhases(SetPhase(w, room, p), {Returned, Checkpointed});
    assert InPhases(w', {Raised}) == InPhases(SetPhase(w, room, p), {Raised});
  }

  /** Steps that change neither the workers' phases, apart from Running and Counted, nor the counters. */
  lemma OutcomesFrame(w: World, w': World)
    requires OutcomesCounted(w) && w'.log.ended == w.log.ended && w'.log.raised == w.log.raised
    requires w'.s.stats.processed == w.s.stats.processed && w'.s.stats.errors == w.s.stats.errors
    requires InPhases(w', {Returned, Checkpointed}) == InPhases(w, {Returned, Checkpointed})
    requires InPhases(w', {Raised}) == InPhases(w, {Raised})
    ensures OutcomesCounted(w')
  {
  }

  lemma OutcomesPick(w: World)
    requires OutcomesCounted(w) && SafeWorld(w) && w.s.ready != []
    ensures OutcomesCounted(DoPick(w))
  {
    PickAccounts(w.s);
    PickKeepsSafe(w.s);
    assert DoPick(w).s == Pick(w.s) && DoPick(w).log == w.log;
    if Picked(w.s).Some? {
      NewWorker(w, DoPick(w), w.s.ready[0], Picked(w.s).value, {Returned, Checkpointed});
      NewWorker(w, DoPick(w), w.s.ready[0], Picked(w.s).value, {Raised});
    }
    OutcomesFrame(w, DoPick(w));
  }

  lemma NewWorker(w: World, w': World, room: Room, v: Envelope, phases: set<WorkerPhase>)
    requires room !in w.workers && w'.workers == w.workers[room := Worker(v, Running)] && Running !in phases
    ensures InPhases(w', phases) == InPhases(w, phases)
  {
  }

  lemma OutcomesFinish(w: World, room: Room)
    requires OutcomesCounted(w) && InPhase(w, room, Counted)
    ensures OutcomesCounted(DoFinish(w, room))
  {
    assert Finish(w.s, room).stats == w.s.stats;
    OutcomesFrame(w, DoFinish(w, room));
  }

  lemma OutcomesBegin(u: Setup, w: World, e: Event, now: int, backup: bool, checkpoint: bool)
    requires OutcomesCounted(w)
    ensures OutcomesCounted(DoBegin(u, w, e, now, backup, checkpoint))
  {
    BeginAccounts(u.config, w.s, e, now);
    OutcomesFrame(w, DoBegin(u, w, e, now, backup, checkpoint));
  }

  lemma OutcomesStep(u: Setup, w: World, step: Step)
    requires OutcomesCounted(w) && SafeWorld(w) && Enabled(w, step)
    ensures OutcomesCounted(Apply(u, w, step))
  {
    match step
    case BeginAdmission(e, now, backup, checkpoint) => OutcomesBegin(u, w, e, now, backup, checkpoint);
    case NextItem => OutcomesPick(w);
    case HandlerReturns(room) => OutcomesPhase(w, DoReturn(w, room), room, Returned);
    case HandlerRaises(room) => OutcomesPhase(w, Apply(u, w, step), room, Raised);
    case QueueProcessed(room) => OutcomesPhase(w, DoQueueProcessed(u, w, room), room, Checkpointed);
    case CountOutcome(room) => OutcomesPhase(w, DoCount(w, room), room, Counted);
    case FinishRoom(room) => OutcomesFinish(w, room);
    case _ => OutcomesQuiet(u, w, step);
  }

  lemma OutcomesQuiet(u: Setup, w: World, step: Step)
    requires OutcomesCounted(w) && Enabled(w, step)
    requires step.Tick? || step.QueueBackup? || step.RejectBackup? || step.CommitAdmission? || step.InsertRow? ||
             step.HandlerMarks? || step.SubmitUnrelated? || step.WriterTakes? || step.WriterWrites?
    ensures OutcomesCounted(Apply(u, w, step))
  {
    var w' := Apply(u, w, step);
    assert w'.workers == w.workers && w'.log.ended == w.log.ended && w'.log.raised == w.log.raised;
    assert w'.s.stats.processed == w.s.stats.processed && w'.s.stats.errors == w.s.stats.errors;
    OutcomesFrame(w, w');
  }

  lemma {:induction false} OutcomesRun(u: Setup, w: World, steps: seq<Step>)
    requires OutcomesCounted(w) && SafeWorld(w) && Legal(u, w, steps)
    ensures OutcomesCounted(Run(u, w, steps))
    decreases |steps|
  {
    if steps != [] {
      OutcomesStep(u, w, steps[0]);
      SafeStep(u, w, steps[0]);
      OutcomesRun(u, Apply(u, w, steps[0]), steps[1..]);
    }
  }

  /** In every reachable state: `processed` is the number of handlers that returned, `errors` of those that
      raised, up to workers that have not counted theirs yet. */
  lemma OutcomesFromStart(u: Setup, steps: seq<Step>)
    requires Legal(u, Start, steps)
    ensures var w := Run(u, Start, steps);
            && w.log.ended == w.s.stats.processed + |InPhases(w, {Returned, Checkpointed})|
            && w.log.raised == w.s.stats.errors + |InPhases(w, {Raised})|
  {
    StartIsSafe();
    assert InPhases(Start, {Returned, Checkpointed}) == {} && InPhases(Start, {Raised}) == {};
    OutcomesRun(u, Start, steps);
  }

  // ---- Events stay what they were sent as ----

  ghost predicate Genuine(w: World, v: Envelope) {
    v.trace in w.log.requests && w.log.requests[v.trace] == Request(v.event, v.acceptedAt, v.checkpoint)
  }

  ghost predicate Requested(w: World, n: nat, a: Admission) {
    n in w.log.requests && w.log.requests[n] == Request(a.event, a.acceptedAt, a.checkpoint)
  }

  ghost predicate TaskGenuine(w: World, t: WriteTask) {
    match t
    case Backup(n, id) => n in w.log.requests && w.log.requests[n].event.id == id && n in w.log.wanted
    case MarkProcessed(n, id) => n in w.log.requests && w.log.requests[n].event.id == id && w.log.requests[n].checkpoint
    case Unrelated => true
  }

  /** Every event in flight, queued or held by a worker is what its admission was called with, and the writer
      gets backups only of events that asked for one and marks only of events with a checkpoint. */
  ghost predicate AllGenuine(w: World) {
    && (forall t :: t in w.log.requests ==> t < w.nextTrace)
    && (forall t :: t in w.log.wanted ==> t < w.nextTrace)
    && (forall n :: n in w.inflight ==> Requested(w, n, w.inflight[n]))
    && (forall n :: n in w.inflight && w.inflight[n].phase == Admitted ==> n in w.log.wanted)
    && (forall r, v :: v in At(w.s.queues, r) ==> Genuine(w, v))
    && (forall r :: r in w.workers ==> Genuine(w, w.workers[r].item))
    && (forall j :: 0 <= j < |w.writer.submitted| ==> TaskGenuine(w, w.writer.submitted[j]))
  }

  /** Requests are only ever added, under new traces. */
  ghost predicate Remembers(w: World, w': World) {
    && (forall t :: t in w.log.requests ==> t in w'.log.requests && w'.log.requests[t] == w.log.requests[t]) && w.log.wanted <= w'.log.wanted
  }

  lemma StepRemembers(u: Setup, w: World, step: Step)
    requires AllGenuine(w) && Enabled(w, step)
    ensures var w' := Apply(u, w, step);
            && Remembers(w, w')
            && (forall t :: t in w'.log.requests ==> t < w'.nextTrace) && (forall t :: t in w'.log.wanted ==> t < w'.nextTrace)
  {
    if step.BeginAdmission? {
      BeginRemembers(u, w, step.e, step.now, step.backup, step.checkpoint);
    } else {
      OthersRemember(u, w, step);
    }
  }

  lemma BeginRemembers(u: Setup, w: World, e: Event, now: int, backup: bool, checkpoint: bool)
    requires (forall t :: t in w.log.requests ==> t < w.nextTrace) && (forall t :: t in w.log.wanted ==> t < w.nextTrace)
    ensures var w' := DoBegin(u, w, e, now, backup, checkpoint);
            && Remembers(w, w')
            && (forall t :: t in w'.log.requests ==> t < w'.nextTrace) && (forall t :: t in w'.log.wanted ==> t < w'.nextTrace)
  {
  }

  lemma OthersRemember(u: Setup, w: World, step: Step)
    requires Enabled(w, step) && !step.BeginAdmission?
    ensures var w' := Apply(u, w, step);
            w'.log.requests == w.log.requests && w'.log.wanted == w.log.wanted && w'.nextTrace == w.nextTrace
  {
  }

  lemma GenuineInFlight(u: Setup, w: World, step: Step, n: nat)
    requires AllGenuine(w) && Enabled(w, step) && n in Apply(u, w, step).inflight
    ensures var w' := Apply(u, w, step);
            Requested(w', n, w'.inflight[n]) && (w'.inflight[n].phase == Admitted ==> n in w'.log.wanted)
  {
    StepRemembers(u, w, step);
    if n in w.inflight { assert Requested(w, n, w.inflight[n]); }
    InFlightSource(u, w, step, n);
  }

  /** A call in flight is the one that was, further on, or the one that starts. */
  lemma InFlightSource(u: Setup, w: World, step: Step, n: nat)
    requires Enabled(w, step) && n in Apply(u, w, step).inflight
    ensures var w' := Apply(u, w, step);
            var a := w'.inflight[n];
            || (n in w.inflight && a.event == w.inflight[n].event && a.acceptedAt == w.inflight[n].acceptedAt
                && a.checkpoint == w.inflight[n].checkpoint && (a.phase == Admitted ==> w.inflight[n].phase == Admitted))
            || (Requested(w', n, a) && (a.phase == Admitted ==> n in w'.log.wanted))
  {
  }

  lemma GenuineQueued(u: Setup, w: World, step: Step, r: Room, v: Envelope)
    requires AllGenuine(w) && Enabled(w, step) && v in At(Apply(u, w, step).s.queues, r)
    ensures Genuine(Apply(u, w, step), v)
  {
    StepRemembers(u, w, step);
    QueueSource(u, w, step, r, v);
    if v in At(w.s.queues, r) {
      assert Genuine(w, v);
    } else {
      assert Requested(w, step.trace, w.inflight[step.trace]);
    }
  }

  lemma GenuineHeld(u: Setup, w: World, step: Step, r: Room)
    requires AllGenuine(w) && Enabled(w, step) && r in Apply(u, w, step).workers
    ensures Genuine(Apply(u, w, step), Apply(u, w, step).workers[r].item)
  {
    StepRemembers(u, w, step);
    WorkerSource(u, w, step, r);
    var v := Apply(u, w, step).workers[r].item;
    if r in w.workers && v == w.workers[r].item {
      assert Genuine(w, v);
    } else {
      assert v in At(w.s.queues, r);
      assert Genuine(w, v);
    }
  }

  /** A worker's event is the one it had, or comes from its room's queue. */
  lemma WorkerSource(u: Setup, w: World, step: Step, r: Room)
    requires Enabled(w, step) && r in Apply(u, w, step).workers
    ensures var v := Apply(u, w, step).workers[r].item;
            (r in w.workers && v == w.workers[r].item) || v in At(w.s.queues, r)
  {
  }

  lemma TaskSource(u: Setup, w: World, step: Step)
    requires AllGenuine(w) && Enabled(w, step)
    ensures var before, after := w.writer.submitted, Apply(u, w, step).writer.submitted;
            before == after || (|after| == |before| + 1 && before == after[..|before|] && TaskGenuine(w, after[|before|]))
  {
    if step.QueueBackup? { assert Requested(w, step.trace, w.inflight[step.trace]); }
    if step.QueueProcessed? { assert Genuine(w, w.workers[step.room].item); }
  }

  lemma GenuineTasks(u: Setup, w: World, step: Step)
    requires AllGenuine(w) && Enabled(w, step)
    ensures var w' := Apply(u, w, step);
            forall j :: 0 <= j < |w'.writer.submitted| ==> TaskGenuine(w', w'.writer.submitted[j])
  {
    StepRemembers(u, w, step);
    TaskSource(u, w, step);
    var w' := Apply(u, w, step);
    forall j | 0 <= j < |w'.writer.submitted| ensures TaskGenuine(w', w'.writer.submitted[j]) {
      if j < |w.writer.submitted| { assert TaskGenuine(w, w.writer.submitted[j]); }
    }
  }

  lemma GenuineStep(u: Setup, w: World, step: Step)
    requires AllGenuine(w) && Enabled(w, step)
    ensures AllGenuine(Apply(u, w, step))
  {
    var w' := Apply(u, w, step);
    StepRemembers(u, w, step);
    forall n | n in w'.inflight ensures Requested(w', n, w'.inflight[n]) && (w'.inflight[n].phase == Admitted ==> n in w'.log.wanted) {
      GenuineInFlight(u, w, step, n);
    }
    forall r, v | v in At(w'.s.queues, r) ensures Genuine(w', v) { GenuineQueued(u, w, step, r, v); }
    forall r | r in w'.workers ensures Genuine(w', w'.workers[r].item) { GenuineHeld(u, w, step, r); }
    GenuineTasks(u, w, step);
  }

  lemma {:induction false} GenuineRun(u: Setup, w: World, steps: seq<Step>)
    requires AllGenuine(w) && Legal(u, w, steps)
    ensures AllGenuine(Run(u, w, steps))
    decreases |steps|
  {
    if steps != [] {
      GenuineStep(u, w, steps[0]);
      GenuineRun(u, Apply(u, w, steps[0]), steps[1..]);
    }
  }

  lemma GenuineFromStart(u: Setup, steps: seq<Step>)
    requires Legal(u, Start, steps)
    ensures AllGenuine(Run(u, Start, steps))
  {
    GenuineRun(u, Start, steps);
  }

  /** A worker whose handler returned hands in the processed mark of its event exactly when the event has a
      checkpoint and the writer's queue has space, and hands in nothing else. */
  lemma MarkExact(u: Setup, w: World, room: Room)
    requires Enabled(w, QueueProcessed(room))
    ensures var v, w' := w.workers[room].item, Apply(u, w, QueueProcessed(room));
            if v.checkpoint && |w.writer.submitted| - w.writer.taken < u.writerCapacity
            then w'.writer.submitted == w.writer.submitted + [MarkProcessed(v.trace, v.event.id)]
            else w'.writer.submitted == w.writer.submitted
  {
  }

  /** An admission hands in the backup of its event exactly when it asked for one and the writer's queue has
      space; without space it is refused and counted as rejected. */
  lemma BackupExact(u: Setup, w: World, n: nat)
    requires Enabled(w, QueueBackup(n))
    ensures var w' := Apply(u, w, QueueBackup(n));
            && n in w'.inflight
            && if |w.writer.submitted| - w.writer.taken < u.writerCapacity
               then w'.writer.submitted == w.writer.submitted + [Backup(n, w.inflight[n].event.id)]
                    && Enabled(w', CommitAdmission(n)) && !Enabled(w', RejectBackup(n))
               else w'.writer.submitted == w.writer.submitted
                    && Enabled(w', RejectBackup(n)) && !Enabled(w', CommitAdmission(n))
                    && Apply(u, w', RejectBackup(n)).s.stats.rejected == w.s.stats.rejected + 1
  {
  }

  // ---- What reaches the table ----

  /** The table changes in three ways: an insert stores an unmarked row under a new id, a mark marks a stored
      row, and a task that the writer works through successfully does what it says. */
  lemma RowsExact(u: Setup, w: World, step: Step, id: EventId)
    requires Enabled(w, step)
    ensures var w' := Apply(u, w, step);
            var task := if step.WriterWrites? && step.ok then w.writer.submitted[w.writer.done] else Unrelated;
            var stores := step == InsertRow(id) || (task.Backup? && task.id == id);
            var marks := (task.MarkProcessed? && task.id == id) ||
                         (step.HandlerMarks? && w.workers[step.room].item.event.id == id);
            && (id in w'.rows <==> id in w.rows || stores)
            && (id in w'.rows ==> (w'.rows[id] <==> id in w.rows && (w.rows[id] || marks)))
  {
    if step.WriterWrites? { WriteRows(w, step.ok, id); }
    if step.InsertRow? || step.HandlerMarks? { OtherRows(u, w, step, id); }
    if !step.WriterWrites? && !step.InsertRow? && !step.HandlerMarks? { SameRows(u, w, step); }
  }

  lemma WriteRows(w: World, ok: bool, id: EventId)
    requires w.writer.done < |w.writer.submitted|
    ensures var rows, task := DoWrite(w, ok).rows, w.writer.submitted[w.writer.done];
            && (id in rows <==> id in w.rows || (ok && task.Backup? && task.id == id))
            && (id in rows ==> (rows[id] <==> id in w.rows && (w.rows[id] || (ok && task.MarkProcessed? && task.id == id))))
  {
  }

  lemma OtherRows(u: Setup, w: World, step: Step, id: EventId)
    requires Enabled(w, step) && (step.InsertRow? || step.HandlerMarks?)
    ensures var rows := Apply(u, w, step).rows;
            && (id in rows <==> id in w.rows || step == InsertRow(id))
            && (id in rows ==> (rows[id] <==>
                  id in w.rows && (w.rows[id] || (step.HandlerMarks? && w.workers[step.room].item.event.id == id))))
  {
  }

  lemma SameRows(u: Setup, w: World, step: Step)
    requires Enabled(w, step) && !step.WriterWrites? && !step.InsertRow? && !step.HandlerMarks?
    ensures Apply(u, w, step).rows == w.rows
  {
  }

  /** The writer takes tasks and works through them one by one, and anyone's task goes in exactly while its
      queue has space. */
  lemma WriterExact(u: Setup, w: World, ok: bool)
    ensures Enabled(w, WriterTakes) ==>
              Apply(u, w, WriterTakes).writer == Writer(w.writer.submitted, w.writer.taken + 1, w.writer.done)
    ensures Enabled(w, WriterWrites(ok)) ==>
              Apply(u, w, WriterWrites(ok)).writer == Writer(w.writer.submitted, w.writer.taken, w.writer.done + 1)
    ensures Apply(u, w, SubmitUnrelated).writer.submitted ==
            if |w.writer.submitted| - w.writer.taken < u.writerCapacity then w.writer.submitted + [Unrelated]
            else w.writer.submitted
  {
  }

  /** Every task the writer has worked through has taken effect: backups are stored, and the marks of events
      that asked for a backup are set. */
  ghost predicate Durable(w: World) {
    && w.writer.done <= |w.writer.submitted|
    && forall j: nat :: j < w.writer.done ==> Effective(w, w.writer.submitted[j])
  }

  ghost predicate Effective(w: World, t: WriteTask) {
    match t
    case Backup(_, id) => id in w.rows
    case MarkProcessed(n, id) => n in w.log.wanted ==> id in w.rows && w.rows[id]
    case Unrelated => true
  }

  lemma StaysEffective(u: Setup, w: World, step: Step, j: nat)
    requires Checkpoints(w) && Durable(w) && Enabled(w, step) && j < w.writer.done
    ensures j < |Apply(u, w, step).writer.submitted| && Apply(u, w, step).writer.submitted[j] == w.writer.submitted[j]
    ensures Effective(Apply(u, w, step), w.writer.submitted[j])
  {
    EveryStepGrows(u, w, step);
    var t := w.writer.submitted[j];
    assert Effective(w, t) && TaskOk(w, j);
    if t.Backup? || t.MarkProcessed? { RowsExact(u, w, step, t.id); }
  }

  /** A mark finds its backup stored. */
  lemma WrittenIsEffective(u: Setup, w: World)
    requires Checkpoints(w) && Durable(w) && Enabled(w, WriterWrites(true))
    ensures Effective(Apply(u, w, WriterWrites(true)), w.writer.submitted[w.writer.done])
  {
    var j, w' := w.writer.done, Apply(u, w, WriterWrites(true));
    var t := w.writer.submitted[j];
    assert w'.log == w.log && TaskOk(w, j);
    if t.Backup? || t.MarkProcessed? { RowsExact(u, w, WriterWrites(true), t.id); }
    if t.MarkProcessed? && t.trace in w.log.wanted {
      var i :| 0 <= i < j && w.writer.submitted[..j][i] == Backup(t.trace, t.id);
      assert Effective(w, w.writer.submitted[i]);
    }
  }

  predicate WritesSucceed(steps: seq<Step>) { forall i :: 0 <= i < |steps| && steps[i].WriterWrites? ==> steps[i].ok }

  lemma DurableStep(u: Setup, w: World, step: Step)
    requires Checkpoints(w) && Durable(w) && Enabled(w, step) && (step.WriterWrites? ==> step.ok)
    ensures Durable(Apply(u, w, step))
  {
    var w' := Apply(u, w, step);
    EveryStepGrows(u, w, step);
    DoneMoves(u, w, step);
    forall j: nat | j < w'.writer.done ensures Effective(w', w'.writer.submitted[j]) {
      if j < w.writer.done { StaysEffective(u, w, step, j); } else { WrittenIsEffective(u, w); }
    }
  }

  lemma DoneMoves(u: Setup, w: World, step: Step)
    requires Enabled(w, step) && w.writer.done <= |w.writer.submitted|
    ensures var w' := Apply(u, w, step);
            w'.writer.done == w.writer.done + (if step.WriterWrites? then 1 else 0) && w'.writer.done <= |w'.writer.submitted|
  {
  }

  lemma {:induction false} DurableRun(u: Setup, w: World, steps: seq<Step>)
    requires Checkpoints(w) && Durable(w) && Legal(u, w, steps) && WritesSucceed(steps)
    ensures Durable(Run(u, w, steps))
    decreases |steps|
  {
    if steps != [] {
      DurableStep(u, w, steps[0]);
      CheckpointStep(u, w, steps[0]);
      assert forall i :: 0 <= i < |steps[1..]| ==> steps[1..][i] == steps[i + 1];
      DurableRun(u, Apply(u, w, steps[0]), steps[1..]);
    }
  }

  /** If no write fails: once the writer has worked through a backup its row is stored, and once it has worked
      through the processed mark of an event that asked for a backup, the row is marked. */
  lemma DurableFromStart(u: Setup, steps: seq<Step>, j: nat)
    requires Legal(u, Start, steps) && WritesSucceed(steps) && j < Run(u, Start, steps).writer.done
    ensures var w := Run(u, Start, steps);
            && j < |w.writer.submitted|
            && match w.writer.submitted[j]
               case Backup(_, id) => id in w.rows
               case MarkProcessed(n, id) => n in w.log.wanted ==> id in w.rows && w.rows[id]
               case Unrelated => true
  {
    DurableRun(u, Start, steps);
    assert Effective(Run(u, Start, steps), Run(u, Start, steps).writer.submitted[j]);
  }
}
