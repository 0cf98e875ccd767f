/** Per-room order over every run of the pipeline. */
module PipelineOrder {
  import opened Common
  import opened Scheduler
  import opened SchedulerSafety
  import opened Pipeline
  import opened PipelineRuns

  /** What left the queue and what is still in it are, in this order, what was accepted; the started
      events are among the removed ones, in the same order; and all started events but the one a worker
      holds are finished. */
  ghost predicate RoomOrder(w: World, r: Room) {
    && At(w.hist.accepted, r) == At(w.hist.removed, r) + At(w.s.queues, r)
    && Subsequence(At(w.hist.started, r), At(w.hist.removed, r))
    && At(w.hist.started, r) == At(w.hist.finished, r) + (if r in w.workers then [w.workers[r].item] else [])
    && (forall v :: v in At(w.s.queues, r) ==> v.event.room == r)
    && (r in w.workers ==> w.workers[r].item.event.room == r)
  }

  ghost predicate Ordered(w: World) { forall r :: RoomOrder(w, r) }

  lemma BeginQueues(c: Config, s: State, e: Event, now: int, r: Room)
    ensures var q := At(s.queues, r);
            At(Begin(c, s, e, now).queues, r) ==
            if r == e.room && Judge(c, Evicted(s, now, c.ttl), e) == Proceed && |q| >= c.roomLimit then q[1..] else q
  {
    var open := OpenQueue(Evicted(s, now, c.ttl), e.room);
    assert At(open.queues, r) == At(s.queues, r);
    assert At(TakeSlot(c, open, e.room).queues, r) ==
      if r == e.room && Capacity(c, open, r) == Proceed && |At(s.queues, r)| >= c.roomLimit
      then At(s.queues, r)[1..] else At(s.queues, r);
  }

  /** The only history an admission's first lock region writes is the removal of the discarded event. */
  lemma BeginHistory(u: Setup, w: World, e: Event, now: int, backup: bool, checkpoint: bool, r: Room)
    requires forall v :: v in At(w.s.queues, e.room) ==> v.event.room == e.room
    ensures var w', gone := DoBegin(u, w, e, now, backup, checkpoint), Discarded(u, w, e, now);
            && w'.s == Begin(u.config, w.s, e, now) && w'.workers == w.workers
            && w'.hist.accepted == w.hist.accepted && w'.hist.started == w.hist.started
            && w'.hist.finished == w.hist.finished
            && At(w'.hist.removed, r) == At(w.hist.removed, r) +
               (if r == e.room && gone.Some? then [gone.value] else [])
  {
    if Discarded(u, w, e, now).Some? { assert At(w.s.queues, e.room)[0] in At(w.s.queues, e.room); }
  }

  lemma OrderBegin(u: Setup, w: World, e: Event, now: int, backup: bool, checkpoint: bool, r: Room)
    requires RoomOrder(w, r) && RoomOrder(w, e.room)
    ensures RoomOrder(DoBegin(u, w, e, now, backup, checkpoint), r)
  {
    BeginQueues(u.config, w.s, e, now, r);
    BeginHistory(u, w, e, now, backup, checkpoint, r);
    OrderDiscard(w, DoBegin(u, w, e, now, backup, checkpoint), r,
                 if r == e.room then Discarded(u, w, e, now) else None);
  }

  lemma OrderDiscard(w: World, w': World, r: Room, gone: Option<Envelope>)
    requires RoomOrder(w, r) && w'.workers == w.workers && w'.hist.accepted == w.hist.accepted
    requires w'.hist.started == w.hist.started && w'.hist.finished == w.hist.finished
    requires match gone
             case None => At(w'.s.queues, r) == At(w.s.queues, r) && At(w'.hist.removed, r) == At(w.hist.removed, r)
             case Some(v) => At(w.s.queues, r) != [] && v == At(w.s.queues, r)[0]
                             && At(w'.s.queues, r) == At(w.s.queues, r)[1..]
                             && At(w'.hist.removed, r) == At(w.hist.removed, r) + [v]
    ensures RoomOrder(w', r)
  {
    if gone.Some? { SubsequenceSkip(At(w.hist.started, r), At(w.hist.removed, r), gone.value); }
    MoveHead(At(w.hist.accepted, r), At(w.hist.removed, r), At(w.s.queues, r), gone);
    assert forall v :: v in At(w'.s.queues, r) ==> v in At(w.s.queues, r);
  }

  /** Moving the head of the queue to the removed events keeps their concatenation. */
  lemma MoveHead(accepted: seq<Envelope>, removed: seq<Envelope>, queue: seq<Envelope>, gone: Option<Envelope>)
    requires accepted == removed + queue && (gone.Some? ==> queue != [] && queue[0] == gone.value)
    ensures gone.Some? ==> accepted == removed + [gone.value] + queue[1..]
  {
    if gone.Some? { assert queue == [gone.value] + queue[1..]; }
  }

  lemma OrderCommit(w: World, n: nat, r: Room)
    requires n in w.inflight && RoomOrder(w, r)
    ensures RoomOrder(DoCommit(w, n), r)
  {
  }

  lemma PickQueues(s: State, r: Room)
    requires s.ready != []
    ensures var q := At(s.queues, r);
            At(Pick(s).queues, r) == if r == s.ready[0] && q != [] then q[1..] else q
  {
  }

  /** The picked event moves from the queue to the removed and the started ones. */
  lemma OrderStart(w: World, w': World, r: Room)
    requires RoomOrder(w, r) && r !in w.workers && At(w.s.queues, r) != []
    requires var v := At(w.s.queues, r)[0];
             && At(w'.s.queues, r) == At(w.s.queues, r)[1..] && At(w'.hist.accepted, r) == At(w.hist.accepted, r)
             && At(w'.hist.removed, r) == At(w.hist.removed, r) + [v]
             && At(w'.hist.started, r) == At(w.hist.started, r) + [v]
             && At(w'.hist.finished, r) == At(w.hist.finished, r)
             && r in w'.workers && w'.workers[r].item == v
    ensures RoomOrder(w', r)
  {
    var v := At(w.s.queues, r)[0];
    MoveHead(At(w.hist.accepted, r), At(w.hist.removed, r), At(w.s.queues, r), Some(v));
    SubsequenceKeep(At(w.hist.started, r), At(w.hist.removed, r), v);
    assert v in At(w.s.queues, r);
    assert forall x :: x in At(w'.s.queues, r) ==> x in At(w.s.queues, r);
  }

  lemma PickHistory(w: World)
    requires w.s.ready != [] && At(w.s.queues, w.s.ready[0]) != []
    requires At(w.s.queues, w.s.ready[0])[0].event.room == w.s.ready[0]
    ensures var r, w' := w.s.ready[0], DoPick(w);
            var v := At(w.s.queues, r)[0];
            && w'.s == Pick(w.s) && w'.hist.accepted == w.hist.accepted && w'.hist.finished == w.hist.finished
            && At(w'.hist.removed, r) == At(w.hist.removed, r) + [v]
            && At(w'.hist.started, r) == At(w.hist.started, r) + [v]
            && r in w'.workers && w'.workers[r].item == v
  {
  }

  lemma OrderPickHead(w: World)
    requires w.s.ready != [] && w.s.ready[0] !in w.workers && RoomOrder(w, w.s.ready[0])
    ensures RoomOrder(DoPick(w), w.s.ready[0])
  {
    var room := w.s.ready[0];
    var q := At(w.s.queues, room);
    PickQueues(w.s, room);
    if q != [] {
      assert q[0] in q;
      PickHistory(w);
      OrderStart(w, DoPick(w), room);
    }
  }

  lemma OrderPickOther(w: World, r: Room)
    requires w.s.ready != [] && r != w.s.ready[0] && RoomOrder(w, r) && RoomOrder(w, w.s.ready[0])
    ensures RoomOrder(DoPick(w), r)
  {
    PickQueues(w.s, r);
    var q := At(w.s.queues, w.s.ready[0]);
    if q != [] { assert q[0] in q; }
  }

  lemma OrderPick(w: World, r: Room)
    requires SafeWorld(w) && w.s.ready != [] && RoomOrder(w, r) && RoomOrder(w, w.s.ready[0])
    ensures RoomOrder(DoPick(w), r)
  {
    PickKeepsSafe(w.s);
    if r == w.s.ready[0] { OrderPickHead(w); } else { OrderPickOther(w, r); }
  }

  lemma FinishQueues(s: State, room: Room)
    ensures Finish(s, room).queues == s.queues
  {
  }

  lemma OrderFinish(w: World, room: Room, r: Room)
    requires room in w.workers && RoomOrder(w, r) && RoomOrder(w, room)
    ensures RoomOrder(DoFinish(w, room), r)
  {
    FinishQueues(w.s, room);
  }

  /** The remaining steps move no event: they change counters, the writer or a worker's phase. */
  lemma QuietStep(u: Setup, w: World, step: Step, r: Room)
    requires RoomOrder(w, r) && Enabled(w, step)
    requires !step.BeginAdmission? && !step.CommitAdmission? && !step.NextItem? && !step.FinishRoom?
    ensures RoomOrder(Apply(u, w, step), r)
  {
    assert Apply(u, w, step).hist == w.hist && Apply(u, w, step).s.queues == w.s.queues;
  }

  lemma OrderStep(u: Setup, w: World, step: Step, r: Room)
    requires Ordered(w) && SafeWorld(w) && Enabled(w, step)
    ensures RoomOrder(Apply(u, w, step), r)
  {
    assert RoomOrder(w, r);
    match step
    case BeginAdmission(e, now, backup, checkpoint) => OrderBegin(u, w, e, now, backup, checkpoint, r);
    case CommitAdmission(n) => OrderCommit(w, n, r);
    case NextItem => OrderPick(w, r);
    case FinishRoom(room) => OrderFinish(w, room, r);
    case _ => QuietStep(u, w, step, r);
  }

  /** Per-room order in every state of every run, for every room. */
  lemma {:induction false} OrderRun(u: Setup, w: World, steps: seq<Step>)
    requires Ordered(w) && SafeWorld(w) && Legal(u, w, steps)
    ensures Ordered(Run(u, w, steps))
    decreases |steps|
  {
    if steps != [] {
      forall r ensures RoomOrder(Apply(u, w, steps[0]), r) { OrderStep(u, w, steps[0], r); }
      SafeStep(u, w, steps[0]);
      OrderRun(u, Apply(u, w, steps[0]), steps[1..]);
    }
  }

  /** Safety, the event ledger and per-room order hold in every reachable state. */
  lemma EveryReachableState(u: Setup, steps: seq<Step>)
    requires Legal(u, Start, steps)
    ensures SafeWorld(Run(u, Start, steps)) && Ledger(Run(u, Start, steps)) && Ordered(Run(u, Start, steps))
  {
    StartIsSafe();
    StartBalances();
    StartIsOrdered();
    SafeRun(u, Start, steps);
    LedgerRun(u, Start, steps);
    OrderRun(u, Start, steps);
  }

  /** A worker that gets an event finds every earlier started event of that room finished. */
  lemma StartsAfterPreviousFinished(u: Setup, steps: seq<Step>)
    requires Legal(u, Start, steps)
    ensures var w := Run(u, Start, steps);
            w.s.ready != [] ==> At(w.hist.started, w.s.ready[0]) == At(w.hist.finished, w.s.ready[0])
  {
    EveryReachableState(u, steps);
    var w := Run(u, Start, steps);
    if w.s.ready != [] {
      PickKeepsSafe(w.s);
      assert RoomOrder(w, w.s.ready[0]);
    }
  }

  lemma StartIsSafe()
    ensures SafeWorld(Start)
  {
    assert Start.s.queues == map[] && TotalLength(Start.s.queues) == 0;
    assert Elems(Start.s.ready) == {};
  }

  lemma StartBalances()
    ensures Ledger(Start)
  {
    assert CountedRooms(Start) == {};
  }

  lemma StartIsOrdered()
    ensures Ordered(Start)
  {
    forall r ensures RoomOrder(Start, r) {
      assert At(Start.hist.accepted, r) == [] && At(Start.hist.started, r) == [];
    }
  }
}
