/** Overload bounds and fairness over every run of the pipeline. */
module PipelineLimits {
  import opened Common
  import opened Scheduler
  import opened SchedulerSafety
  import opened Pipeline
  import opened PipelineRuns
  import opened PipelineOrder

  // ---- Overload bounds ----

  function InFlightTo(w: World, r: Room): set<nat> { set n | n in w.inflight && w.inflight[n].event.room == r }

  function InFlightRooms(m: map<nat, Admission>): set<Room> { set n | n in m :: m[n].event.room }

  /** The configured limits, stretched by the admissions that overlap: `n` of them at a time. */
  ghost predicate Bounded(u: Setup, n: nat, w: World) {
    && w.s.queuedTotal + |w.inflight| <= u.config.globalLimit - 1 + n
    && (forall r :: |At(w.s.queues, r)| + |InFlightTo(w, r)| <= u.config.roomLimit - 1 + n)
    && |Partitions(w.s) + InFlightRooms(w.inflight)| <= u.config.maxPartitions + n - 1
    && (forall k :: k in w.inflight ==> k < w.nextTrace)
  }

  /** Throughout the run a call enters only while fewer than `n` others are in flight. */
  predicate AtMost(u: Setup, n: nat, w: World, steps: seq<Step>)
    requires Legal(u, w, steps)
    decreases |steps|
  {
    steps == [] ||
    ((steps[0].BeginAdmission? ==> |w.inflight| < n) && AtMost(u, n, Apply(u, w, steps[0]), steps[1..]))
  }

  lemma ImageSize(m: map<nat, Admission>)
    ensures |InFlightRooms(m)| <= |m|
  {
    if m != map[] {
      var k :| k in m;
      ImageSize(m - {k});
      forall r | r in InFlightRooms(m) && r != m[k].event.room ensures r in InFlightRooms(m - {k}) {
        var n :| n in m && m[n].event.room == r;
        assert n in m - {k};
      }
      SubsetSize(InFlightRooms(m), InFlightRooms(m - {k}) + {m[k].event.room});
      assert |m| == |m - {k}| + 1;
    }
  }

  lemma InFlightToSize(w: World, r: Room)
    ensures |InFlightTo(w, r)| <= |w.inflight|
  {
    SubsetSize(InFlightTo(w, r), w.inflight.Keys);
    assert |w.inflight| == |w.inflight.Keys|;
  }

  lemma SlotPartitions(c: Config, s: State, room: Room)
    requires room in s.queues
    ensures Partitions(TakeSlot(c, s, room)) == Partitions(s)
  {
    assert TakeSlot(c, s, room).queues.Keys == s.queues.Keys;
  }

  lemma BeginPartitions(c: Config, s: State, e: Event, now: int)
    ensures var v := Judge(c, Evicted(s, now, c.ttl), e);
            && Partitions(Begin(c, s, e, now)) ==
               (if v == Duplicate || v == PartitionLimit then Partitions(s) else Partitions(s) + {e.room})
            && (v != Duplicate && v != PartitionLimit ==>
                  e.room in Partitions(s) || |Partitions(s)| < c.maxPartitions)
            && (v == Proceed ==> s.queuedTotal < c.globalLimit)
            && (v == Proceed && |At(s.queues, e.room)| >= c.roomLimit ==> c.policy == DropOldest)
  {
    var t := Evicted(s, now, c.ttl);
    assert Partitions(t) == Partitions(s);
    var open := OpenQueue(t, e.room);
    assert Partitions(open) == Partitions(s) + {e.room};
    SlotPartitions(c, open, e.room);
    assert At(open.queues, e.room) == At(s.queues, e.room);
  }

  lemma BeginRooms(u: Setup, w: World, e: Event, now: int, backup: bool, checkpoint: bool)
    ensures var w' := DoBegin(u, w, e, now, backup, checkpoint);
            && w'.s == Begin(u.config, w.s, e, now)
            && InFlightRooms(w'.inflight) <= InFlightRooms(w.inflight) + {e.room}
            && (VerdictNow(u, w, e, now) != Proceed ==> w'.inflight == w.inflight)
  {
  }

  lemma BoundedBeginPartitions(u: Setup, n: nat, w: World, e: Event, now: int, backup: bool, checkpoint: bool)
    requires Bounded(u, n, w) && |w.inflight| < n
    ensures var w' := DoBegin(u, w, e, now, backup, checkpoint);
            |Partitions(w'.s) + InFlightRooms(w'.inflight)| <= u.config.maxPartitions + n - 1
  {
    var w' := DoBegin(u, w, e, now, backup, checkpoint);
    BeginPartitions(u.config, w.s, e, now);
    ImageSize(w.inflight);
    BeginRooms(u, w, e, now, backup, checkpoint);
    var all := Partitions(w.s) + InFlightRooms(w.inflight);
    if Partitions(w'.s) == Partitions(w.s) {
      SubsetSize(Partitions(w'.s) + InFlightRooms(w'.inflight), all);
    } else {
      SubsetSize(Partitions(w'.s) + InFlightRooms(w'.inflight), all + {e.room});
    }
  }

  lemma InFlightToAfterBegin(u: Setup, w: World, e: Event, now: int, backup: bool, checkpoint: bool, r: Room)
    requires w.nextTrace !in w.inflight
    ensures InFlightTo(DoBegin(u, w, e, now, backup, checkpoint), r) ==
            InFlightTo(w, r) + (if VerdictNow(u, w, e, now) == Proceed && r == e.room then {w.nextTrace} else {})
  {
  }

  lemma BoundedBeginRoom(u: Setup, n: nat, w: World, e: Event, now: int, backup: bool, checkpoint: bool, r: Room)
    requires Bounded(u, n, w) && |w.inflight| < n
    ensures var w' := DoBegin(u, w, e, now, backup, checkpoint);
            |At(w'.s.queues, r)| + |InFlightTo(w', r)| <= u.config.roomLimit - 1 + n
  {
    var w' := DoBegin(u, w, e, now, backup, checkpoint);
    assert w'.s == Begin(u.config, w.s, e, now);
    BeginQueues(u.config, w.s, e, now, r);
    InFlightToSize(w, r);
    InFlightToAfterBegin(u, w, e, now, backup, checkpoint, r);
    var q := At(w.s.queues, r);
    assert |q| + |InFlightTo(w, r)| <= u.config.roomLimit - 1 + n;
    assert |InFlightTo(w', r)| <= |InFlightTo(w, r)| + 1;
  }

  lemma BoundedBegin(u: Setup, n: nat, w: World, e: Event, now: int, backup: bool, checkpoint: bool)
    requires Bounded(u, n, w) && |w.inflight| < n
    ensures Bounded(u, n, DoBegin(u, w, e, now, backup, checkpoint))
  {
    BoundedBeginPartitions(u, n, w, e, now, backup, checkpoint);
    forall r { BoundedBeginRoom(u, n, w, e, now, backup, checkpoint, r); }
    BoundedBeginTotal(u, n, w, e, now, backup, checkpoint);
  }

  lemma BoundedBeginTotal(u: Setup, n: nat, w: World, e: Event, now: int, backup: bool, checkpoint: bool)
    requires w.s.queuedTotal + |w.inflight| <= u.config.globalLimit - 1 + n && |w.inflight| < n
    requires forall k :: k in w.inflight ==> k < w.nextTrace
    ensures var w' := DoBegin(u, w, e, now, backup, checkpoint);
            && w'.s.queuedTotal + |w'.inflight| <= u.config.globalLimit - 1 + n
            && forall k :: k in w'.inflight ==> k < w'.nextTrace
  {
    BeginPartitions(u.config, w.s, e, now);
    BeginTotal(u.config, w.s, e, now);
  }

  lemma BeginTotal(c: Config, s: State, e: Event, now: int)
    ensures Begin(c, s, e, now).queuedTotal <= s.queuedTotal
  {
    var open := OpenQueue(Evicted(s, now, c.ttl), e.room);
    assert TakeSlot(c, open, e.room).queuedTotal <= s.queuedTotal;
  }

  /** Leaving the in-flight set, or only changing phase, can only shrink it. */
  lemma BoundedShrink(u: Setup, n: nat, w: World, w': World)
    requires Bounded(u, n, w)
    requires w'.inflight.Keys <= w.inflight.Keys && w'.nextTrace == w.nextTrace
    requires forall k :: k in w'.inflight ==> w'.inflight[k].event == w.inflight[k].event
    requires w'.s.queuedTotal <= w.s.queuedTotal && Partitions(w'.s) <= Partitions(w.s)
    requires forall r :: |At(w'.s.queues, r)| <= |At(w.s.queues, r)|
    ensures Bounded(u, n, w')
  {
    SubsetSize(w'.inflight.Keys, w.inflight.Keys);
    assert |w.inflight| == |w.inflight.Keys| && |w'.inflight| == |w'.inflight.Keys|;
    forall r ensures |At(w'.s.queues, r)| + |InFlightTo(w', r)| <= u.config.roomLimit - 1 + n {
      SubsetSize(InFlightTo(w', r), InFlightTo(w, r));
    }
    SubsetSize(Partitions(w'.s) + InFlightRooms(w'.inflight), Partitions(w.s) + InFlightRooms(w.inflight));
  }

  lemma CommitEffect(s: State, v: Envelope, r: Room)
    ensures At(Commit(s, v).queues, r) == if r == v.event.room then At(s.queues, r) + [v] else At(s.queues, r)
    ensures Partitions(Commit(s, v)) == Partitions(s) + {v.event.room}
    ensures Commit(s, v).queuedTotal == s.queuedTotal + 1
  {
  }

  lemma BoundedCommit(u: Setup, n: nat, w: World, k: nat)
    requires Bounded(u, n, w) && k in w.inflight
    ensures Bounded(u, n, DoCommit(w, k))
  {
    var w' := DoCommit(w, k);
    var v := EnvelopeOf(k, w.inflight[k]);
    CommitEffect(w.s, v, v.event.room);
    assert |w.inflight| == |w'.inflight| + 1;
    forall r ensures |At(w'.s.queues, r)| + |InFlightTo(w', r)| <= u.config.roomLimit - 1 + n {
      CommitEffect(w.s, v, r);
      assert InFlightTo(w', r) == InFlightTo(w, r) - {k};
    }
    assert v.event.room in InFlightRooms(w.inflight);
    SubsetSize(Partitions(w'.s) + InFlightRooms(w'.inflight), Partitions(w.s) + InFlightRooms(w.inflight));
  }

  lemma PickShrinks(s: State)
    requires s.ready != []
    ensures Pick(s).queuedTotal <= s.queuedTotal && Partitions(Pick(s)) <= Partitions(s)
    ensures forall r :: |At(Pick(s).queues, r)| <= |At(s.queues, r)|
  {
    forall r { PickQueues(s, r); }
  }

  lemma FinishShrinks(s: State, room: Room)
    ensures Finish(s, room).queuedTotal == s.queuedTotal && Partitions(Finish(s, room)) <= Partitions(s)
    ensures Finish(s, room).queues == s.queues
  {
  }

  lemma BoundedBackup(u: Setup, n: nat, w: World, k: nat)
    requires Bounded(u, n, w) && k in w.inflight
    ensures Bounded(u, n, DoQueueBackup(u, w, k))
  {
    BoundedShrink(u, n, w, DoQueueBackup(u, w, k));
  }

  lemma BoundedReject(u: Setup, n: nat, w: World, k: nat)
    requires Bounded(u, n, w) && k in w.inflight
    ensures Bounded(u, n, w.(s := CountRejected(w.s), inflight := w.inflight - {k}))
  {
    BoundedShrink(u, n, w, w.(s := CountRejected(w.s), inflight := w.inflight - {k}));
  }

  predicate Quiet(step: Step) {
    && !step.BeginAdmission? && !step.CommitAdmission? && !step.NextItem? && !step.FinishRoom?
    && !step.QueueBackup? && !step.RejectBackup?
  }

  lemma QuietFrame(u: Setup, w: World, step: Step)
    requires Quiet(step) && Enabled(w, step)
    ensures var w' := Apply(u, w, step);
            && w'.s.queues == w.s.queues && w'.s.active == w.s.active && w'.s.queuedTotal == w.s.queuedTotal
            && w'.inflight == w.inflight && w'.nextTrace == w.nextTrace
  {
  }

  lemma BoundedQuiet(u: Setup, n: nat, w: World, w': World)
    requires Bounded(u, n, w)
    requires w'.s.queues == w.s.queues && w'.s.active == w.s.active && w'.s.queuedTotal == w.s.queuedTotal
    requires w'.inflight == w.inflight && w'.nextTrace == w.nextTrace
    ensures Bounded(u, n, w')
  {
    forall r ensures |At(w'.s.queues, r)| + |InFlightTo(w', r)| <= u.config.roomLimit - 1 + n {
      assert InFlightTo(w', r) == InFlightTo(w, r);
    }
  }

  lemma BoundedPick(u: Setup, n: nat, w: World)
    requires Bounded(u, n, w) && w.s.ready != []
    ensures Bounded(u, n, DoPick(w))
  {
    PickShrinks(w.s);
    BoundedShrink(u, n, w, DoPick(w));
  }

  lemma BoundedFinish(u: Setup, n: nat, w: World, room: Room)
    requires Bounded(u, n, w) && room in w.workers
    ensures Bounded(u, n, DoFinish(w, room))
  {
    FinishShrinks(w.s, room);
    BoundedShrink(u, n, w, DoFinish(w, room));
  }

  lemma BoundedStep(u: Setup, n: nat, w: World, step: Step)
    requires Bounded(u, n, w) && Enabled(w, step)
    requires step.BeginAdmission? ==> |w.inflight| < n
    ensures Bounded(u, n, Apply(u, w, step))
  {
    match step
    case BeginAdmission(e, now, backup, checkpoint) => BoundedBegin(u, n, w, e, now, backup, checkpoint);
    case QueueBackup(k) => BoundedBackup(u, n, w, k);
    case RejectBackup(k) => BoundedReject(u, n, w, k);
    case CommitAdmission(k) => BoundedCommit(u, n, w, k);
    case NextItem => BoundedPick(u, n, w);
    case FinishRoom(room) => BoundedFinish(u, n, w, room);
    case _ => QuietFrame(u, w, step); BoundedQuiet(u, n, w, Apply(u, w, step));
  }

  /** With at most `n` overlapping admissions the limits hold up to `n - 1`, under either policy;
      `n == 1` gives the configured limits. */
  lemma {:induction false} BoundedRun(u: Setup, n: nat, w: World, steps: seq<Step>)
    requires Bounded(u, n, w) && Legal(u, w, steps) && AtMost(u, n, w, steps)
    ensures Bounded(u, n, Run(u, w, steps))
    decreases |steps|
  {
    if steps != [] {
      BoundedStep(u, n, w, steps[0]);
      BoundedRun(u, n, Apply(u, w, steps[0]), steps[1..]);
    }
  }

  lemma StartBounded(u: Setup, n: nat)
    ensures Bounded(u, n, Start)
  {
    assert forall q :: InFlightTo(Start, q) == {} && At(Start.s.queues, q) == [];
    assert Partitions(Start.s) + InFlightRooms(Start.inflight) == {};
  }

  /** From the start, with at most `n` overlapping admissions, each limit is exceeded by at most
      `n - 1`; one admission at a time never exceeds a configured limit. */
  lemma OverloadLimits(u: Setup, n: nat, steps: seq<Step>, r: Room)
    requires Legal(u, Start, steps) && AtMost(u, n, Start, steps)
    ensures var w := Run(u, Start, steps);
            && w.s.queuedTotal + |w.inflight| <= u.config.globalLimit - 1 + n
            && |At(w.s.queues, r)| + |InFlightTo(w, r)| <= u.config.roomLimit - 1 + n
            && |Partitions(w.s)| <= u.config.maxPartitions - 1 + n
  {
    StartBounded(u, n);
    BoundedRun(u, n, Start, steps);
    var w := Run(u, Start, steps);
    SubsetSize(Partitions(w.s), Partitions(w.s) + InFlightRooms(w.inflight));
  }

  // ---- Fairness ----

  /** Rooms taken off the ready line during the run, in order. */
  function Taken(u: Setup, w: World, steps: seq<Step>): (taken: seq<Room>)
    requires Legal(u, w, steps)
    ensures |taken| == Picks(steps)
    decreases |steps|
  {
    if steps == [] then []
    else (if steps[0].NextItem? then [w.s.ready[0]] else []) + Taken(u, Apply(u, w, steps[0]), steps[1..])
  }

  function Picks(steps: seq<Step>): nat {
    if steps == [] then 0 else (if steps[0].NextItem? then 1 else 0) + Picks(steps[1..])
  }

  lemma LineStep(u: Setup, w: World, step: Step)
    requires Enabled(w, step)
    ensures var before := if step.NextItem? then w.s.ready[1..] else w.s.ready;
            before <= Apply(u, w, step).s.ready
  {
    if step.BeginAdmission? { BeginKeepsActive(u.config, w.s, step.e, step.now); }
  }

  lemma Prefixes(line: seq<Room>, next: seq<Room>, head: seq<Room>, taken: seq<Room>, left: seq<Room>)
    requires head <= line && line[|head|..] <= next && next <= taken + left
    ensures line <= head + taken + left
  {
    assert line == head + line[|head|..];
    assert head + taken + left == head + (taken + left);
  }

  /** The ready line is first in, first out: what a run takes from it, followed by what is left,
      extends what was waiting when the run began. */
  lemma {:induction false} LineRun(u: Setup, w: World, steps: seq<Step>)
    requires Legal(u, w, steps)
    ensures w.s.ready <= Taken(u, w, steps) + Run(u, w, steps).s.ready
    decreases |steps|
  {
    if steps != [] {
      var next := Apply(u, w, steps[0]);
      LineStep(u, w, steps[0]);
      LineRun(u, next, steps[1..]);
      Prefixes(w.s.ready, next.s.ready, if steps[0].NextItem? then [w.s.ready[0]] else [],
               Taken(u, next, steps[1..]), Run(u, next, steps[1..]).s.ready);
    }
  }

  /** Of a line of rooms `taken` were picked and `left` wait. The room at position `p` still waits, moved up
      by the picks made, after at most `p` picks, is the one taken by pick `p + 1`, and until then no room is
      taken twice. */
  predicate InTurn(line: seq<Room>, taken: seq<Room>, left: seq<Room>, p: nat)
    requires p < |line|
  {
    && (|taken| <= p ==> |left| > p - |taken| && left[p - |taken|] == line[p])
    && (|taken| > p ==> taken[p] == line[p])
    && (forall i, j :: 0 <= i < j < |taken| && j <= p ==> taken[i] != taken[j])
  }

  lemma TakenInOrder(line: seq<Room>, taken: seq<Room>, left: seq<Room>, p: nat)
    requires NoDup(line) && line <= taken + left && p < |line|
    ensures InTurn(line, taken, left, p)
  {
    assert forall i :: 0 <= i < |line| && i < |taken| ==> taken[i] == line[i];
    assert line[p] == (taken + left)[p];
  }

  /** Whatever else happens, the ready line is served in turn: there are as many rooms taken as picks, and
      each position gets its own. */
  lemma Fairness(u: Setup, w: World, steps: seq<Step>, p: nat)
    requires NoDup(w.s.ready) && Legal(u, w, steps) && p < |w.s.ready|
    ensures |Taken(u, w, steps)| == Picks(steps)
    ensures InTurn(w.s.ready, Taken(u, w, steps), Run(u, w, steps).s.ready, p)
  {
    LineRun(u, w, steps);
    TakenInOrder(w.s.ready, Taken(u, w, steps), Run(u, w, steps).s.ready, p);
  }

  /** Fairness holds from every reachable state. */
  lemma FairnessFromStart(u: Setup, before: seq<Step>, steps: seq<Step>, p: nat)
    requires Legal(u, Start, before) && Legal(u, Run(u, Start, before), steps) && p < |Run(u, Start, before).s.ready|
    ensures var w := Run(u, Start, before);
            |Taken(u, w, steps)| == Picks(steps) && InTurn(w.s.ready, Taken(u, w, steps), Run(u, w, steps).s.ready, p)
  {
    StartIsSafe();
    SafeRun(u, Start, before);
    Fairness(u, Run(u, Start, before), steps, p);
  }
}
