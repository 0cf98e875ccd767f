/** Backup before processed mark, and no processed mark before the handler returned. */
module PipelineCheckpoint {
  import opened Common
  import opened Scheduler
  import opened Pipeline
  import opened PipelineOrder

  /** An event that asked for a backup has its backup task in the writer's queue. */
  ghost predicate EnvelopeBacked(w: World, v: Envelope) {
    v.trace < w.nextTrace && (v.trace in w.log.wanted ==> Backup(v.trace, v.event.id) in w.writer.submitted)
  }

  ghost predicate AdmissionBacked(w: World, n: nat)
    requires n in w.inflight
  {
    && n < w.nextTrace
    && (n in w.log.wanted && w.inflight[n].phase == BackedUp ==> Backup(n, w.inflight[n].event.id) in w.writer.submitted)
  }

  /** A processed mark follows its event's backup and comes from a handler that returned. */
  ghost predicate TaskOk(w: World, j: nat)
    requires j < |w.writer.submitted|
  {
    match w.writer.submitted[j]
    case MarkProcessed(t, id) =>
      t < w.nextTrace && t in w.log.returned && (t in w.log.wanted ==> Backup(t, id) in w.writer.submitted[..j])
    case _ => true
  }

  /** A row is marked only by a processed mark that the writer has worked through, or by the handler of a
      recovered event with that id. */
  ghost predicate RowOk(w: World, id: EventId)
    requires w.writer.done <= |w.writer.submitted|
  {
    id in w.rows && w.rows[id] ==>
      || (exists t :: MarkProcessed(t, id) in w.writer.submitted[..w.writer.done])
      || (exists t :: (t, id) in w.log.selfMarked)
  }

  ghost predicate Queued(w: World) { forall r, v :: v in At(w.s.queues, r) ==> EnvelopeBacked(w, v) }

  ghost predicate Held(w: World) {
    forall r :: r in w.workers ==>
      EnvelopeBacked(w, w.workers[r].item) &&
      (w.workers[r].phase == Returned ==> w.workers[r].item.trace in w.log.returned)
  }

  ghost predicate Pending(w: World) {
    && (forall t :: t in w.log.wanted ==> t < w.nextTrace)
    && (forall n :: n in w.inflight ==> AdmissionBacked(w, n))
  }

  ghost predicate Tasks(w: World) {
    && w.writer.done <= w.writer.taken <= |w.writer.submitted|
    && (forall j: nat :: j < |w.writer.submitted| ==> TaskOk(w, j))
    && (forall id :: RowOk(w, id))
  }

  ghost predicate Checkpoints(w: World) { Queued(w) && Held(w) && Pending(w) && Tasks(w) }

  /** The recorded facts only grow, and an old trace never starts wanting a backup. */
  ghost predicate Grows(w: World, w': World) {
    && w.writer.submitted <= w'.writer.submitted && w.writer.done <= w'.writer.done
    && w.log.returned <= w'.log.returned && w.log.selfMarked <= w'.log.selfMarked && w.nextTrace <= w'.nextTrace
    && (forall t :: t in w'.log.wanted && t < w.nextTrace ==> t in w.log.wanted)
  }

  lemma EveryStepGrows(u: Setup, w: World, step: Step)
    requires Enabled(w, step)
    ensures Grows(w, Apply(u, w, step))
  {
  }

  lemma BackedGrows(w: World, w': World, v: Envelope)
    requires Grows(w, w') && EnvelopeBacked(w, v)
    ensures EnvelopeBacked(w', v)
  {
  }

  /** Only a commit puts an event into a queue. */
  lemma QueueSource(u: Setup, w: World, step: Step, r: Room, v: Envelope)
    requires Enabled(w, step) && v in At(Apply(u, w, step).s.queues, r)
    ensures v in At(w.s.queues, r) || (step.CommitAdmission? && v == EnvelopeOf(step.trace, w.inflight[step.trace]))
  {
    match step
    case BeginAdmission(e, now, _, _) => BeginQueues(u.config, w.s, e, now, r);
    case NextItem => PickQueues(w.s, r);
    case FinishRoom(room) => FinishQueues(w.s, room);
    case CommitAdmission(n) => CommitQueues(w, n, r);
    case _ => OtherQueues(u, w, step);
  }

  lemma OtherQueues(u: Setup, w: World, step: Step)
    requires Enabled(w, step)
    requires !step.BeginAdmission? && !step.CommitAdmission? && !step.NextItem? && !step.FinishRoom?
    ensures Apply(u, w, step).s.queues == w.s.queues
  {
  }

  lemma QueuedStep(u: Setup, w: World, step: Step, r: Room, v: Envelope)
    requires Checkpoints(w) && Enabled(w, step)
    requires v in At(Apply(u, w, step).s.queues, r)
    ensures EnvelopeBacked(Apply(u, w, step), v)
  {
    EveryStepGrows(u, w, step);
    QueueSource(u, w, step, r, v);
    if v in At(w.s.queues, r) {
      BackedGrows(w, Apply(u, w, step), v);
    } else {
      assert AdmissionBacked(w, step.trace);
    }
  }

  lemma CommitQueues(w: World, n: nat, r: Room)
    requires n in w.inflight
    ensures var v := EnvelopeOf(n, w.inflight[n]);
            At(DoCommit(w, n).s.queues, r) ==
            if r == v.event.room then At(w.s.queues, r) + [v] else At(w.s.queues, r)
  {
  }

  lemma HeldStep(u: Setup, w: World, step: Step)
    requires Checkpoints(w) && Enabled(w, step)
    ensures Held(Apply(u, w, step))
  {
    var w' := Apply(u, w, step);
    EveryStepGrows(u, w, step);
    forall r | r in w'.workers
      ensures EnvelopeBacked(w', w'.workers[r].item)
      ensures w'.workers[r].phase == Returned ==> w'.workers[r].item.trace in w'.log.returned
    {
      if r in w.workers && w.workers[r].item == w'.workers[r].item {
        BackedGrows(w, w', w.workers[r].item);
      } else {
        assert step.NextItem?;
        assert w'.workers[r].item in At(w.s.queues, r);
        BackedGrows(w, w', w'.workers[r].item);
      }
    }
  }

  lemma PendingStep(u: Setup, w: World, step: Step)
    requires Checkpoints(w) && Enabled(w, step)
    ensures Pending(Apply(u, w, step))
  {
    var w' := Apply(u, w, step);
    EveryStepGrows(u, w, step);
    forall n | n in w'.inflight ensures AdmissionBacked(w', n) {
      if n in w.inflight { assert AdmissionBacked(w, n); }
    }
  }

  lemma TaskStep(u: Setup, w: World, step: Step, j: nat)
    requires Checkpoints(w) && Enabled(w, step)
    requires j < |Apply(u, w, step).writer.submitted|
    ensures TaskOk(Apply(u, w, step), j)
  {
    var w' := Apply(u, w, step);
    EveryStepGrows(u, w, step);
    if j < |w.writer.submitted| {
      assert TaskOk(w, j);
      assert w'.writer.submitted[..j] == w.writer.submitted[..j];
    } else if w'.writer.submitted[j].MarkProcessed? {
      assert step.QueueProcessed?;
      assert EnvelopeBacked(w, w.workers[step.room].item);
      assert w'.writer.submitted[..j] == w.writer.submitted;
    }
  }

  lemma RowStep(u: Setup, w: World, step: Step, id: EventId)
    requires Checkpoints(w) && Enabled(w, step)
    ensures var w' := Apply(u, w, step); w'.writer.done <= |w'.writer.submitted| && RowOk(w', id)
  {
    var w' := Apply(u, w, step);
    EveryStepGrows(u, w, step);
    assert RowOk(w, id);
    var before, after := w.writer.submitted[..w.writer.done], w'.writer.submitted[..w'.writer.done];
    assert before <= after;
    if id in w.rows && w.rows[id] {
      if t :| (t, id) in w.log.selfMarked {
        assert (t, id) in w'.log.selfMarked;
      } else {
        var t :| MarkProcessed(t, id) in before;
        assert MarkProcessed(t, id) in after;
      }
    } else if step.HandlerMarks? && id in w'.rows && w'.rows[id] {
      assert (w.workers[step.room].item.trace, id) in w'.log.selfMarked;
    } else if id in w'.rows && w'.rows[id] {
      var task := w.writer.submitted[w.writer.done];
      assert after[w.writer.done] == task;
      assert task == MarkProcessed(task.trace, id);
    }
  }

  lemma CheckpointStep(u: Setup, w: World, step: Step)
    requires Checkpoints(w) && Enabled(w, step)
    ensures Checkpoints(Apply(u, w, step))
  {
    var w' := Apply(u, w, step);
    forall r, v | v in At(w'.s.queues, r) ensures EnvelopeBacked(w', v) { QueuedStep(u, w, step, r, v); }
    HeldStep(u, w, step);
    PendingStep(u, w, step);
    RowStep(u, w, step, "");
    forall j: nat | j < |w'.writer.submitted| ensures TaskOk(w', j) { TaskStep(u, w, step, j); }
    forall id ensures RowOk(w', id) { RowStep(u, w, step, id); }
  }

  lemma {:induction false} CheckpointRun(u: Setup, w: World, steps: seq<Step>)
    requires Checkpoints(w) && Legal(u, w, steps)
    ensures Checkpoints(Run(u, w, steps))
    decreases |steps|
  {
    if steps != [] {
      CheckpointStep(u, w, steps[0]);
      CheckpointRun(u, Apply(u, w, steps[0]), steps[1..]);
    }
  }

  /** In every run from the start: the backup of an event that asked for one is submitted before its
      processed mark, and a row is marked only if a handler of an event with that id returned, or if the
      handler of a recovered event with that id marked it. */
  lemma CheckpointOrder(u: Setup, steps: seq<Step>)
    requires Legal(u, Start, steps)
    ensures var w := Run(u, Start, steps);
            && (forall j, t, id :: 0 <= j < |w.writer.submitted| && w.writer.submitted[j] == MarkProcessed(t, id) ==>
                  t in w.log.returned && (t in w.log.wanted ==> Backup(t, id) in w.writer.submitted[..j]))
            && (forall id :: id in w.rows && w.rows[id] ==>
                  || (exists t :: t in w.log.returned && MarkProcessed(t, id) in w.writer.submitted)
                  || (exists t :: (t, id) in w.log.selfMarked))
  {
    CheckpointRun(u, Start, steps);
    var w := Run(u, Start, steps);
    forall id | id in w.rows && w.rows[id]
      ensures (exists t :: t in w.log.returned && MarkProcessed(t, id) in w.writer.submitted)
              || exists t :: (t, id) in w.log.selfMarked
    {
      assert RowOk(w, id);
      if t :| MarkProcessed(t, id) in w.writer.submitted[..w.writer.done] {
        var j :| 0 <= j < w.writer.done && w.writer.submitted[j] == MarkProcessed(t, id);
        assert TaskOk(w, j);
      }
    }
    forall j, t, id | 0 <= j < |w.writer.submitted| && w.writer.submitted[j] == MarkProcessed(t, id)
      ensures t in w.log.returned && (t in w.log.wanted ==> Backup(t, id) in w.writer.submitted[..j])
    {
      assert TaskOk(w, j);
    }
  }
}
