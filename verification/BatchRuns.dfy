/** What a batch keeps over any sequence of refreshes, cancellations and item writes. */
module BatchRuns {
  import opened Common
  import opened Batches
  import ReplyJobs

  // ---- One refresh ----

  /** After a refresh the five counters add up to the listed items: the whole batch exactly when it has
      at most 1000 items. */
  lemma RefreshLedger(b: Batch, jobs: JobReads, now: int)
    ensures Refreshed(b, jobs, now).counts.Sum() == Min(|b.items|, ListCap)
    ensures Refreshed(b, jobs, now).counts.Sum() == |b.items| <==> |b.items| <= ListCap
  {
    TallySum(Views(Listed(b.items), jobs));
  }

  ghost predicate Sees(b: Batch, jobs: JobReads, s: ItemStatus) {
    s in Views(Listed(b.items), jobs)
  }

  lemma TallyMember(v: seq<ItemStatus>)
    ensures Tally(v).queued > 0 <==> Queued in v
    ensures Tally(v).sent > 0 <==> Sent in v
    ensures Tally(v).failed > 0 <==> Failed in v
  {
    assert forall s :: multiset(v)[s] > 0 <==> s in v;
  }

  /** What a refresh decides about an open batch: running while an item is queued; failed when nothing
      was sent and something failed; completed otherwise. */
  lemma RefreshOutcome(b: Batch, jobs: JobReads, now: int)
    requires !Final(b.status)
    ensures var s := Refreshed(b, jobs, now).status;
            && (s == Running <==> Sees(b, jobs, Queued))
            && (s == Broken <==> Sees(b, jobs, Failed) && !Sees(b, jobs, Sent) && !Sees(b, jobs, Queued))
            && (s == Completed <==> !Sees(b, jobs, Queued) && (Sees(b, jobs, Failed) ==> Sees(b, jobs, Sent)))
    ensures Refreshed(b, jobs, now).completedAt == if Sees(b, jobs, Queued) then None else Some(now)
  {
    var v := Views(Listed(b.items), jobs);
    TallyMember(v);
    TallySum(v);
  }

  // ---- When "completed" means settled ----

  /** Every item names a job that the table has. */
  ghost predicate AllHaveJobs(b: Batch, jobs: JobReads) {
    forall i :: 0 <= i < |b.items| ==> HasJob(b.items[i], jobs(i))
  }

  ghost function JobOf(b: Batch, jobs: JobReads, i: nat): JobStatus
    requires i < |b.items| && HasJob(b.items[i], jobs(i))
  {
    jobs(i)[b.items[i].job.value]
  }

  /** Every job that an item names is settled. */
  ghost predicate AllSettled(b: Batch, jobs: JobReads) {
    forall i :: 0 <= i < |b.items| && HasJob(b.items[i], jobs(i)) ==> ReplyJobs.Terminal(JobOf(b, jobs, i))
  }

  /** The refresh takes no notice of this unsettled job: it is under way without being queued, or its item
      is not listed. */
  ghost predicate Overlooked(b: Batch, jobs: JobReads, i: nat)
    requires i < |b.items|
  {
    && HasJob(b.items[i], jobs(i))
    && (JobOf(b, jobs, i) in {ReplyJobs.Pending, ReplyJobs.Dispatching, ReplyJobs.Retrying}
        || (i >= ListCap && JobOf(b, jobs, i) == ReplyJobs.Queued))
  }

  /** The items whose job has one of these statuses. */
  ghost function WithJob(b: Batch, jobs: JobReads, which: set<JobStatus>): set<nat>
    requires AllHaveJobs(b, jobs)
  {
    set i: nat | i < |b.items| && JobOf(b, jobs, i) in which
  }

  ghost function Positions(v: seq<ItemStatus>, which: set<ItemStatus>): set<nat> {
    set i: nat | i < |v| && v[i] in which
  }

  lemma PositionsPush(v: seq<ItemStatus>, s: ItemStatus, which: set<ItemStatus>)
    ensures |Positions(v + [s], which)| == |Positions(v, which)| + (if s in which then 1 else 0)
  {
    assert Positions(v + [s], which) == Positions(v, which) + (if s in which then {|v|} else {});
  }

  /** Each counter is the number of positions with its statuses. */
  lemma {:induction false} TallyPositions(v: seq<ItemStatus>)
    ensures Tally(v) == Counts(|Positions(v, {Queued})|, |Positions(v, {Sent})|, |Positions(v, {Failed})|,
                               |Positions(v, {TokenExpired, HandleExpired})|, |Positions(v, {Skipped})|)
  {
    if v != [] {
      var init, last := v[..|v| - 1], v[|v| - 1];
      TallyPositions(init);
      TallyPush(init, last);
      PositionsPush(init, last, {Queued});
      PositionsPush(init, last, {Sent});
      PositionsPush(init, last, {Failed});
      PositionsPush(init, last, {TokenExpired, HandleExpired});
      PositionsPush(init, last, {Skipped});
      assert v == init + [last];
    }
  }

  lemma SameItems(b: Batch, jobs: JobReads, which: set<ItemStatus>, from: set<JobStatus>)
    requires AllHaveJobs(b, jobs) && forall s :: FromReply(s) in which <==> s in from
    ensures Positions(Views(b.items, jobs), which) == WithJob(b, jobs, from)
  {
    forall i: nat | i < |b.items| ensures Views(b.items, jobs)[i] in which <==> JobOf(b, jobs, i) in from {
      assert Views(b.items, jobs)[i] == FromReply(JobOf(b, jobs, i));
    }
  }

  /** What the counters of a refreshed batch say about its jobs: the last one counts duplicates, and
      every job that is pending, being dispatched or retrying. */
  lemma CountersCountJobs(b: Batch, jobs: JobReads, now: int)
    requires |b.items| <= ListCap && AllHaveJobs(b, jobs)
    ensures Refreshed(b, jobs, now).counts == Counts(
      |WithJob(b, jobs, {ReplyJobs.Queued})|, |WithJob(b, jobs, {ReplyJobs.Sent})|, |WithJob(b, jobs, {ReplyJobs.Failed})|,
      |WithJob(b, jobs, {ReplyJobs.TokenExpired, ReplyJobs.HandleExpired})|,
      |WithJob(b, jobs, {ReplyJobs.Duplicate, ReplyJobs.Pending, ReplyJobs.Dispatching, ReplyJobs.Retrying})|)
  {
    TallyPositions(Views(b.items, jobs));
    SettledItems(b, jobs);
    OtherItems(b, jobs);
  }

  lemma SettledItems(b: Batch, jobs: JobReads)
    requires AllHaveJobs(b, jobs)
    ensures var v := Views(b.items, jobs);
            && Positions(v, {Sent}) == WithJob(b, jobs, {ReplyJobs.Sent})
            && Positions(v, {Failed}) == WithJob(b, jobs, {ReplyJobs.Failed})
            && Positions(v, {TokenExpired, HandleExpired})
               == WithJob(b, jobs, {ReplyJobs.TokenExpired, ReplyJobs.HandleExpired})
  {
    SameItems(b, jobs, {Sent}, {ReplyJobs.Sent});
    SameItems(b, jobs, {Failed}, {ReplyJobs.Failed});
    SameItems(b, jobs, {TokenExpired, HandleExpired}, {ReplyJobs.TokenExpired, ReplyJobs.HandleExpired});
  }

  lemma OtherItems(b: Batch, jobs: JobReads)
    requires AllHaveJobs(b, jobs)
    ensures var v := Views(b.items, jobs);
            && Positions(v, {Queued}) == WithJob(b, jobs, {ReplyJobs.Queued})
            && Positions(v, {Skipped})
               == WithJob(b, jobs, {ReplyJobs.Duplicate, ReplyJobs.Pending, ReplyJobs.Dispatching, ReplyJobs.Retrying})
  {
    SameItems(b, jobs, {Queued}, {ReplyJobs.Queued});
    SameItems(b, jobs, {Skipped},
              {ReplyJobs.Duplicate, ReplyJobs.Pending, ReplyJobs.Dispatching, ReplyJobs.Retrying});
  }

  /** A refresh that closes an open batch finds all jobs settled exactly when it overlooks none; with a
      queued item it does not close the batch. */
  lemma ClosedMeansSettledExact(b: Batch, jobs: JobReads, now: int)
    requires !Final(b.status)
    ensures (Final(Refreshed(b, jobs, now).status) ==> AllSettled(b, jobs))
            <==> Sees(b, jobs, Queued) || forall i :: 0 <= i < |b.items| ==> !Overlooked(b, jobs, i)
  {
    RefreshOutcome(b, jobs, now);
    forall i | 0 <= i < |b.items| && !Sees(b, jobs, Queued) && HasJob(b.items[i], jobs(i))
      ensures ReplyJobs.Terminal(JobOf(b, jobs, i)) <==> !Overlooked(b, jobs, i)
    {
      if i < ListCap && JobOf(b, jobs, i) == ReplyJobs.Queued { ListedQueued(b, jobs, i); }
    }
    assert forall i :: 0 <= i < |b.items| && Overlooked(b, jobs, i) ==> HasJob(b.items[i], jobs(i));
  }

  lemma ListedQueued(b: Batch, jobs: JobReads, i: nat)
    requires i < |b.items| && i < ListCap && HasJob(b.items[i], jobs(i)) && JobOf(b, jobs, i) == ReplyJobs.Queued
    ensures Sees(b, jobs, Queued)
  {
    assert Views(Listed(b.items), jobs)[i] == Queued;
  }

  /** A job being dispatched counts as skipped, the batch completes, and after the job is sent the
      counters move although the batch stays completed. */
  lemma CompletedWhileDispatching()
    ensures var b := Batch(Accepted, 1, Counts(0, 0, 0, 0, 0), None, [Item("r", Some("j"), Queued)]);
            var once := Refreshed(b, (i: nat) => map["j" := ReplyJobs.Dispatching], 5);
            var twice := Refreshed(once, (i: nat) => map["j" := ReplyJobs.Sent], 9);
            && once.status == Completed && once.counts == Counts(0, 0, 0, 0, 1)
            && twice.status == Completed && twice.counts == Counts(0, 1, 0, 0, 0)
  {
    var b := Batch(Accepted, 1, Counts(0, 0, 0, 0, 0), None, [Item("r", Some("j"), Queued)]);
    var early: JobReads := (i: nat) => map["j" := ReplyJobs.Dispatching];
    var late: JobReads := (i: nat) => map["j" := ReplyJobs.Sent];
    var once := Refreshed(b, early, 5);
    assert early(0) == map["j" := ReplyJobs.Dispatching] && HasJob(b.items[0], early(0));
    assert Views(b.items, early) == [Skipped];
    assert once.items == [Item("r", Some("j"), Skipped)];
    assert late(0) == map["j" := ReplyJobs.Sent] && HasJob(once.items[0], late(0));
    assert Views(once.items, late) == [Sent];
  }

  // ---- Runs ----

  /** Steps on one batch; each refresh and cancellation is taken whole. */
  datatype Step =
    | Insert(it: Item)
    | Refresh(jobs: JobReads, now: int)
    | Cancel(jobs: JobReads, at: int, now: int)

  function Apply(b: Batch, s: Step): Batch {
    match s
    case Insert(it) => b.(items := Upsert(b.items, it))
    case Refresh(jobs, now) => Refreshed(b, jobs, now)
    case Cancel(jobs, at, now) => CanceledNow(b, jobs, at, now)
  }

  function Run(b: Batch, steps: seq<Step>): Batch
    decreases |steps|
  {
    if steps == [] then b else Apply(Run(b, steps[..|steps| - 1]), steps[|steps| - 1])
  }

  /** The target count is fixed, a final status is never left, rooms stay distinct and keep their
      places, and a canceled batch keeps its time of cancellation. */
  ghost predicate Kept(b: Batch, c: Batch) {
    && c.targetCount == b.targetCount
    && (Final(b.status) ==> c.status == b.status)
    && (b.status == Canceled ==> c.completedAt == b.completedAt)
    && ItemRooms(b.items) <= ItemRooms(c.items)
    && (NoDup(ItemRooms(b.items)) ==> NoDup(ItemRooms(c.items)))
  }

  lemma KeptStep(b: Batch, s: Step)
    ensures Kept(b, Apply(b, s))
  {
    match s
    case Insert(it) =>
      UpsertRooms(b.items, it);
      if NoDup(ItemRooms(b.items)) { UpsertUnique(b.items, it); }
    case Refresh(jobs, now) => SyncedKeepsRooms(b.items, jobs, ListCap);
    case Cancel(jobs, at, now) => SyncedKeepsRooms(b.items, jobs, ListCap);
  }

  lemma {:induction false} KeptRun(b: Batch, steps: seq<Step>)
    ensures Kept(b, Run(b, steps))
    decreases |steps|
  {
    if steps != [] {
      KeptRun(b, steps[..|steps| - 1]);
      KeptStep(Run(b, steps[..|steps| - 1]), steps[|steps| - 1]);
    }
  }

  /** Refreshes and cancellations never change an item's room or job, and a refresh makes a listed item show
      how its job stands. */
  lemma {:induction false} ItemsFollowJobs(b: Batch, steps: seq<Step>, jobs: JobReads, now: int, i: nat)
    requires (forall k :: 0 <= k < |steps| ==> !steps[k].Insert?) && i < |b.items|
    ensures |Run(b, steps).items| == |b.items|
    ensures var it := Run(b, steps).items[i]; it.room == b.items[i].room && it.job == b.items[i].job
    ensures var job := b.items[i].job;
            i < ListCap && job.Some? && job.value != "" && job.value in jobs(i) ==>
              Refreshed(Run(b, steps), jobs, now).items[i].status == FromReply(jobs(i)[job.value])
    decreases |steps|
  {
    if steps != [] {
      ItemsFollowJobs(b, steps[..|steps| - 1], jobs, now, i);
      StepKeepsJobs(Run(b, steps[..|steps| - 1]), steps[|steps| - 1], i);
    }
  }

  lemma StepKeepsJobs(b: Batch, s: Step, i: nat)
    requires !s.Insert? && i < |b.items|
    ensures var v := Apply(b, s); |v.items| == |b.items| && v.items[i].room == b.items[i].room && v.items[i].job == b.items[i].job
  {
  }

  /** A cancellation taken whole: an open batch becomes canceled at the given time, a finished one keeps its
      status. */
  lemma CancelExact(b: Batch, jobs: JobReads, at: int, now: int)
    ensures var v := CanceledNow(b, jobs, at, now);
            if b.status in {DryRun, Accepted, Running} then v.status == Canceled && v.completedAt == Some(at)
            else v.status == b.status
  {
  }

  /** Once final, the status is the same in every later state. */
  lemma FinalRun(b: Batch, steps: seq<Step>, more: seq<Step>)
    requires Final(Run(b, steps).status)
    ensures Run(Run(b, steps), more).status == Run(b, steps).status
  {
    KeptRun(Run(b, steps), more);
  }

  /** The ledger of a batch: after creation and after every later refresh or cancellation the counters
      add up to target count minus exclusions, exactly when the batch has at most 1000 targets. */
  lemma {:induction false} LedgerRun(b: Batch, excluded: nat, steps: seq<Step>)
    requires b.counts.Sum() == Min(|b.items|, ListCap) && b.targetCount == |b.items| + excluded
    requires forall i :: 0 <= i < |steps| ==> !steps[i].Insert?
    ensures var c := Run(b, steps);
            && ItemRooms(c.items) == ItemRooms(b.items) && c.targetCount == b.targetCount
            && c.counts.Sum() == Min(|b.items|, ListCap)
            && (c.counts.Sum() == c.targetCount - excluded <==> |b.items| <= ListCap)
    decreases |steps|
  {
    if steps != [] {
      var init, last := steps[..|steps| - 1], steps[|steps| - 1];
      LedgerRun(b, excluded, init);
      var c := Run(b, init);
      LedgerStep(c, last);
      assert |ItemRooms(c.items)| == |ItemRooms(b.items)|;
    }
  }

  lemma LedgerStep(b: Batch, s: Step)
    requires !s.Insert?
    ensures ItemRooms(Apply(b, s).items) == ItemRooms(b.items) && Apply(b, s).targetCount == b.targetCount
    ensures Apply(b, s).counts.Sum() == Min(|b.items|, ListCap)
  {
    match s
    case Refresh(jobs, now) =>
      SyncedKeepsRooms(b.items, jobs, ListCap);
      RefreshLedger(b, jobs, now);
    case Cancel(jobs, at, now) =>
      SyncedKeepsRooms(b.items, jobs, ListCap);
      RefreshLedger(WriteCancel(b, b, at), jobs, now);
  }

  // ---- Refreshes and cancellations that are not taken whole ----

  /** A refresh reads the row, then writes it. Its write respects a final status, whatever it counted,
      exactly when the status it read is the one it overwrites. */
  lemma SplitRefreshExact(b: Batch, read: Batch)
    requires Final(b.status)
    ensures (forall c, listed, now :: WriteCounts(b, read, c, listed, now).status == b.status)
            <==> read.status == b.status
  {
    assert WriteCounts(b, read, Counts(1, 0, 0, 0, 0), 1, 0).status
           == if Final(read.status) then read.status else Running;
  }

  /** A cancellation between the read and the write of a refresh is lost. */
  lemma CancelLostToRefresh()
    ensures exists b: Batch, jobs: JobReads, c: Counts ::
              b.status == Running && CanceledNow(b, jobs, 1, 2).status == Canceled
              && WriteCounts(CanceledNow(b, jobs, 1, 2), b, c, 1, 3).status == Running
  {
    var b := Batch(Running, 1, Counts(1, 0, 0, 0, 0), None, [Item("r", None, Queued)]);
    var jobs: JobReads := (i: nat) => map[];
    assert WriteCounts(CanceledNow(b, jobs, 1, 2), b, Counts(1, 0, 0, 0, 0), 1, 3).status == Running;
  }

  /** A cancellation reads the row, then writes it. Its write respects a final status exactly when it read
      a final status too, or the batch is canceled already. */
  lemma SplitCancelExact(b: Batch, read: Batch, now: int)
    requires Final(b.status)
    ensures WriteCancel(b, read, now).status == b.status <==> Final(read.status) || b.status == Canceled
  {
  }

  /** What the two writes put into the row: a cancellation the counts it read, with its time, unless it read a
      final status; a refresh the counts it made; both the target count they read; neither touches items. */
  lemma SplitWrites(b: Batch, read: Batch, c: Counts, listed: nat, now: int)
    ensures !Final(read.status) ==>
              WriteCancel(b, read, now) == Batch(Canceled, read.targetCount, read.counts, Some(now), b.items)
    ensures Final(read.status) ==> WriteCancel(b, read, now) == b
    ensures var w := WriteCounts(b, read, c, listed, now);
            w.counts == c && w.targetCount == read.targetCount && w.items == b.items
  {
  }

  /** A batch that a refresh completes between the read and the write of a cancellation ends canceled. */
  lemma CompletedLostToCancel()
    ensures exists b: Batch, jobs: JobReads ::
              b.status == Running && Refreshed(b, jobs, 1).status == Completed
              && WriteCancel(Refreshed(b, jobs, 1), b, 2).status == Canceled
  {
    var b := Batch(Running, 1, Counts(1, 0, 0, 0, 0), None, [Item("r", None, Sent)]);
    var jobs: JobReads := (i: nat) => map[];
    assert !HasJob(b.items[0], jobs(0)) && Listed(b.items) == b.items;
    assert Views(b.items, jobs) == [ItemStatus.Sent];
    assert Refreshed(b, jobs, 1).status == Completed;
    assert WriteCancel(Refreshed(b, jobs, 1), b, 2).status == Canceled;
  }
}
