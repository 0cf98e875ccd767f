/** The dispatch worker's attempt loop and the recovery loop, run without interference
    (app/infra/dispatch_queue.py, app/services/recovery_service.py). */
module Dispatch {
  import opened Common
  import opened ReplyJobs
  import opened Sorting
  import Lease

  /** How many attempts a dispatch makes: it stops at the first outcome that is final, and the outcome
      of the last allowed attempt always is. */
  function AttemptsFrom(u: Lease.Setup, outcomes: seq<Lease.Outcome>, attempt: nat): (made: nat)
    requires 1 <= attempt <= u.maxAttempts == |outcomes|
    ensures 1 <= made <= u.maxAttempts - attempt + 1
    ensures Lease.Stops(u, attempt + made - 1, outcomes[attempt + made - 2])
    ensures forall k :: attempt - 1 <= k < attempt + made - 2 ==> !Lease.Stops(u, k + 1, outcomes[k])
    decreases u.maxAttempts - attempt
  {
    Lease.FinalExact(u, attempt, outcomes[attempt - 1]);
    if Lease.Final(u, attempt, outcomes[attempt - 1]).Some? then 1
    else 1 + AttemptsFrom(u, outcomes, attempt + 1)
  }

  /** What the last attempt's outcome leaves in the row: its own status, or FAILED for a status that is
      still in progress; a send time exactly for SENT; no owner and no lease. */
  predicate RowEnds(r: Row, o: Lease.Outcome, at: int) {
    && r.status == (match o.status
                    case Sent => Sent
                    case TokenExpired => TokenExpired
                    case HandleExpired => HandleExpired
                    case Duplicate => ReplyJobs.Duplicate
                    case Failed | Pending | Queued | Dispatching | Retrying => Failed)
    && r.sentAt == (if o.status == Sent then Some(at) else None)
    && r.owner == None && r.lease == None
  }

  predicate Delivered(o: Lease.Outcome) { o.ok && o.status == Sent }

  datatype Stats = Stats(sent: nat, failed: nat, retrying: nat, submitted: nat, rejected: nat)

  /** One retry per attempt but the last, and one delivery or failure. */
  function EndStats(s: Stats, made: nat, delivered: bool): Stats
    requires made >= 1
  {
    s.(retrying := s.retrying + made - 1, sent := s.sent + (if delivered then 1 else 0),
       failed := s.failed + (if delivered then 0 else 1))
  }

  /** After `made` attempts that all ended in a retry. */
  ghost predicate Midway(
      u: Lease.Setup, outcomes: seq<Lease.Outcome>, job: JobId, before: map<JobId, Row>, rows: map<JobId, Row>,
      counted: Stats, stats: Stats, made: nat)
    requires made < u.maxAttempts == |outcomes|
  {
    && stats == counted.(retrying := counted.retrying + made)
    && AttemptsFrom(u, outcomes, 1) == made + AttemptsFrom(u, outcomes, made + 1)
    && if made == 0 then rows == before
       else
         && job in before && job in rows && rows == before[job := rows[job]]
         && rows[job].status == Retrying && rows[job].attempts == before[job].attempts + made
  }

  /** After `made` attempts, the last of which was final. */
  ghost predicate Ended(
      u: Lease.Setup, outcomes: seq<Lease.Outcome>, job: JobId, before: map<JobId, Row>, rows: map<JobId, Row>,
      counted: Stats, stats: Stats, made: nat, at: int)
    requires 1 <= made <= u.maxAttempts == |outcomes|
  {
    && made == AttemptsFrom(u, outcomes, 1)
    && job in before && job in rows && rows == before[job := rows[job]]
    && RowEnds(rows[job], outcomes[made - 1], at)
    && rows[job].attempts == before[job].attempts + made
    && stats == EndStats(counted, made, Delivered(outcomes[made - 1]))
  }

  /** An attempt is the last one made exactly when its outcome is final; the last allowed one always is. */
  lemma AttemptCases(u: Lease.Setup, outcomes: seq<Lease.Outcome>, attempt: nat)
    requires 1 <= attempt <= u.maxAttempts == |outcomes|
    ensures if Lease.Stops(u, attempt, outcomes[attempt - 1]) then AttemptsFrom(u, outcomes, attempt) == 1
            else attempt < u.maxAttempts && AttemptsFrom(u, outcomes, attempt) == 1 + AttemptsFrom(u, outcomes, attempt + 1)
  {
    Lease.FinalExact(u, attempt, outcomes[attempt - 1]);
  }

  /** What an attempt that was claimed does to a dispatch under way. */
  lemma AttemptMoves(
      u: Lease.Setup, outcomes: seq<Lease.Outcome>, job: JobId, before: map<JobId, Row>, rows: map<JobId, Row>,
      after: map<JobId, Row>, counted: Stats, stats: Stats, stats': Stats, made: nat, at: int)
    requires made < u.maxAttempts == |outcomes| && Midway(u, outcomes, job, before, rows, counted, stats, made)
    requires var stops := Lease.Stops(u, made + 1, outcomes[made]);
             && job in rows && job in after && after == rows[job := after[job]]
             && after[job].attempts == rows[job].attempts + 1
             && (if stops then RowEnds(after[job], outcomes[made], at) else after[job].status == Retrying)
             && stats' == (if !stops then stats.(retrying := stats.retrying + 1)
                           else if Delivered(outcomes[made]) then stats.(sent := stats.sent + 1)
                           else stats.(failed := stats.failed + 1))
    ensures if !Lease.Stops(u, made + 1, outcomes[made])
            then made + 1 < u.maxAttempts && Midway(u, outcomes, job, before, after, counted, stats', made + 1)
            else Ended(u, outcomes, job, before, after, counted, stats', made + 1, at)
  {
    AttemptCases(u, outcomes, made + 1);
  }

  /** A row of the recovery listing: the job and the status it had. */
  datatype Listed = Listed(job: JobId, status: Status)

  /** The listed jobs whose row still has the listed status. */
  function StillListed(rows: map<JobId, Row>, listed: seq<Listed>): seq<Listed> {
    Filter((l: Listed) => l.job in rows && rows[l.job].status == l.status, listed)
  }

  class DispatchQueue {
    const setup: Lease.Setup
    const capacity: positive
    var queue: seq<JobId>
    var stats: Stats

    constructor (setup: Lease.Setup, capacity: positive)
      ensures this.setup == setup && this.capacity == capacity
      ensures queue == [] && stats == Stats(0, 0, 0, 0, 0)
    {
      this.setup, this.capacity := setup, capacity;
      queue, stats := [], Stats(0, 0, 0, 0, 0);
    }

    method Enqueue(job: JobId) returns (accepted: bool)
      modifies this
      ensures accepted == (|old(queue)| < capacity)
      ensures queue == if accepted then old(queue) + [job] else old(queue)
      ensures stats == if accepted then old(stats).(submitted := old(stats.submitted) + 1)
                       else old(stats).(rejected := old(stats.rejected) + 1)
    {
      accepted := |queue| < capacity;
      if accepted {
        queue := queue + [job];
        stats := stats.(submitted := stats.submitted + 1);
      } else {
        stats := stats.(rejected := stats.rejected + 1);
      }
    }

    /** Records how an attempt ended, for an attempt whose row update succeeded. */
    method Count(final: Option<Status>, outcome: Lease.Outcome)
      modifies this`stats
      ensures stats == if final.None? then old(stats).(retrying := old(stats.retrying) + 1)
                       else if Delivered(outcome) then old(stats).(sent := old(stats.sent) + 1)
                       else old(stats).(failed := old(stats.failed) + 1)
    {
      if final.None? {
        stats := stats.(retrying := stats.retrying + 1);
      } else if outcome.ok && outcome.status == Sent {
        stats := stats.(sent := stats.sent + 1);
      } else {
        stats := stats.(failed := stats.failed + 1);
      }
    }

    /** One pass of the attempt loop: claim, call, and retry or complete. */
    method Attempt(table: ReplyJobTable, job: JobId, attempt: nat, owner: Owner, outcome: Lease.Outcome, now: int)
      returns (claimed: bool, again: bool)
      modifies table`rows, this`stats
      ensures claimed == (job in old(table.rows) && Claimable(old(table.rows)[job], now))
      ensures !claimed ==> !again && table.rows == old(table.rows) && stats == old(stats)
      ensures claimed ==>
                && again == !Lease.Stops(setup, attempt, outcome)
                && job in table.rows && table.rows == old(table.rows)[job := table.rows[job]]
                && table.rows[job].attempts == old(table.rows)[job].attempts + 1
                && (if again then table.rows[job].status == Retrying else RowEnds(table.rows[job], outcome, now))
                && stats == (if again then old(stats).(retrying := old(stats.retrying) + 1)
                             else if Delivered(outcome) then old(stats).(sent := old(stats.sent) + 1)
                             else old(stats).(failed := old(stats.failed) + 1))
    {
      Lease.FinalExact(setup, attempt, outcome);
      claimed := table.Claim(job, owner, setup.leaseMillis, now);
      again := false;
      if claimed {
        var final := Lease.Final(setup, attempt, outcome);
        again := final.None?;
        if again {
          var _ := table.MarkRetrying(job, owner, None, now);
        } else {
          var _ := table.Complete(job, owner, final.value, None, now);
        }
        Count(final, outcome);
      }
    }

    /** `_dispatch`, with the adapter's outcome, the owner token and the clock of each attempt given.
        An undisturbed dispatch of a claimable job makes attempts up to the first one that stops it, counts
        exactly these, and ends with what that attempt's outcome says. */
    method Dispatch(table: ReplyJobTable, job: JobId, outcomes: seq<Lease.Outcome>, owners: seq<Owner>, clock: seq<int>)
      returns (made: nat)
      requires |outcomes| == |owners| == |clock| == setup.maxAttempts
      modifies table`rows, this`stats
      ensures !(job in old(table.rows) && Claimable(old(table.rows)[job], clock[0])) ==>
                made == 0 && table.rows == old(table.rows) && stats == old(stats)
      ensures job in old(table.rows) && Claimable(old(table.rows)[job], clock[0]) ==>
                && made == AttemptsFrom(setup, outcomes, 1)
                && job in table.rows && table.rows == old(table.rows)[job := table.rows[job]]
                && Lease.Stops(setup, made, outcomes[made - 1])
                && (forall k :: 0 <= k < made - 1 ==> !Lease.Stops(setup, k + 1, outcomes[k]))
                && RowEnds(table.rows[job], outcomes[made - 1], clock[made - 1]) && Terminal(table.rows[job].status)
                && table.rows[job].attempts == old(table.rows)[job].attempts + made
                && stats == EndStats(old(stats), made, Delivered(outcomes[made - 1]))
                && (stats.sent == old(stats.sent) + 1 <==> outcomes[made - 1].ok && outcomes[made - 1].status == Sent)
                && stats.sent + stats.failed == old(stats.sent + stats.failed) + 1
                && stats.retrying == old(stats.retrying) + made - 1
    {
      made := 0;
      var going := true;
      ghost var before, counted := table.rows, stats;
      while going
        invariant made <= setup.maxAttempts && (going ==> made < setup.maxAttempts)
        invariant going ==> Midway(setup, outcomes, job, before, table.rows, counted, stats, made)
        invariant made > 0 ==> job in before && Claimable(before[job], clock[0])
        invariant !going && made == 0 ==> table.rows == before && stats == counted
        invariant !going && made == 0 ==> !(job in before && Claimable(before[job], clock[0]))
        invariant !going && made > 0 ==> Ended(setup, outcomes, job, before, table.rows, counted, stats, made, clock[made - 1])
        decreases going, setup.maxAttempts - made
      {
        var claimed;
        claimed, going := DispatchAttempt(table, job, made, outcomes, owners[made], clock[made], before, counted);
        if claimed { made := made + 1; }
      }
    }

    /** Attempt number `made + 1` of a dispatch. */
    method DispatchAttempt(
        table: ReplyJobTable, job: JobId, made: nat, outcomes: seq<Lease.Outcome>, owner: Owner, now: int,
        ghost before: map<JobId, Row>, ghost counted: Stats)
        returns (claimed: bool, going: bool)
      requires made < setup.maxAttempts == |outcomes|
      requires Midway(setup, outcomes, job, before, table.rows, counted, stats, made)
      modifies table`rows, this`stats
      ensures claimed == (made > 0 || (job in before && Claimable(before[job], now)))
      ensures !claimed ==> !going && table.rows == before && stats == counted
      ensures going ==> made + 1 < setup.maxAttempts
                        && Midway(setup, outcomes, job, before, table.rows, counted, stats, made + 1)
      ensures claimed && !going ==> Ended(setup, outcomes, job, before, table.rows, counted, stats, made + 1, now)
    {
      ghost var rows, was := table.rows, stats;
      claimed, going := Attempt(table, job, made + 1, owner, outcomes[made], now);
      if claimed { AttemptMoves(setup, outcomes, job, before, rows, table.rows, counted, was, stats, made, now); }
    }

    /** One listed job: nothing if its row has another status by now, otherwise it is requeued, or fails if
        the queue is full. */
    method RecoverJob(table: ReplyJobTable, l: Listed, now: int) returns (claimed: bool, accepted: bool)
      modifies table`rows, this
      ensures claimed == (l.job in old(table.rows) && old(table.rows)[l.job].status == l.status)
      ensures accepted == (claimed && |old(queue)| < capacity)
      ensures queue == if accepted then old(queue) + [l.job] else old(queue)
      ensures if claimed
              then l.job in table.rows && table.rows == old(table.rows)[l.job := table.rows[l.job]]
                   && table.rows[l.job].status == if accepted then Queued else Failed
              else table.rows == old(table.rows)
    {
      claimed := table.UpdateIfStatus(l.job, {l.status}, Queued, None, now);
      accepted := false;
      if claimed {
        accepted := Enqueue(l.job);
        if !accepted {
          var _ := table.UpdateIfStatus(l.job, {Queued}, Failed, Some("dispatch queue full"), now);
        }
      }
    }

    /** `_recover_reply_jobs` over a listing made earlier: the jobs whose rows still have their listed
        status become QUEUED and are enqueued in order while the queue has room, the others of them fail,
        and no other row changes. */
    method RecoverReplyJobs(table: ReplyJobTable, listed: seq<Listed>, now: int) returns (requeued: nat, failed: nat)
      requires NoDupJobs(listed) && |queue| <= capacity
      modifies table`rows, this
      ensures var still := StillListed(old(table.rows), listed);
              && requeued + failed == |still| && requeued == Min(|still|, capacity - |old(queue)|)
              && queue == old(queue) + Jobs(still[..requeued])
              && Recovered(old(table.rows), table.rows, still, requeued)
    {
      ghost var before, start := table.rows, queue;
      requeued, failed := 0, 0;
      var k := 0;
      ProgressStart(before, start, capacity, listed);
      while k < |listed|
        invariant 0 <= k <= |listed|
        invariant Progress(before, table.rows, start, queue, capacity, StillListed(before, listed[..k]), requeued, failed)
      {
        requeued, failed := RecoverNext(table, listed, k, now, requeued, failed, before, start);
        k := k + 1;
      }
      assert listed[..k] == listed;
    }

    method RecoverNext(
        table: ReplyJobTable, listed: seq<Listed>, k: nat, now: int, requeued: nat, failed: nat,
        ghost before: map<JobId, Row>, ghost start: seq<JobId>)
        returns (requeued': nat, failed': nat)
      requires NoDupJobs(listed) && k < |listed|
      requires Progress(before, table.rows, start, queue, capacity, StillListed(before, listed[..k]), requeued, failed)
      modifies table`rows, this
      ensures Progress(before, table.rows, start, queue, capacity, StillListed(before, listed[..k + 1]), requeued', failed')
    {
      ghost var done, rows, waiting := StillListed(before, listed[..k]), table.rows, queue;
      Untouched(before, rows, listed, k, requeued);
      StillPush(before, listed, k);
      var claimed, accepted := RecoverJob(table, listed[k], now);
      requeued', failed' := requeued, failed;
      if claimed {
        ProgressPush(before, rows, table.rows, start, waiting, queue, capacity, done, requeued, failed, listed[k], accepted);
        if accepted { requeued' := requeued + 1; } else { failed' := failed + 1; }
      }
    }
  }

  lemma ProgressStart(rows: map<JobId, Row>, queue: seq<JobId>, capacity: nat, listed: seq<Listed>)
    requires |queue| <= capacity
    ensures Progress(rows, rows, queue, queue, capacity, StillListed(rows, listed[..0]), 0, 0)
  {
    assert Jobs([]) == [] && listed[..0] == [];
  }

  /** How far recovery has come with the jobs of `still`. */
  ghost predicate Progress(
      before: map<JobId, Row>, rows: map<JobId, Row>, start: seq<JobId>, queue: seq<JobId>, capacity: nat,
      still: seq<Listed>, requeued: nat, failed: nat)
  {
    && requeued + failed == |still| && |start| <= capacity && requeued == Min(|still|, capacity - |start|)
    && queue == start + Jobs(still[..requeued])
    && Recovered(before, rows, still, requeued)
  }

  lemma ProgressPush(
      before: map<JobId, Row>, rows: map<JobId, Row>, after: map<JobId, Row>, start: seq<JobId>, queue: seq<JobId>,
      queue': seq<JobId>, capacity: nat, done: seq<Listed>, requeued: nat, failed: nat, l: Listed, accepted: bool)
    requires Progress(before, rows, start, queue, capacity, done, requeued, failed)
    requires accepted == (|queue| < capacity) && queue' == if accepted then queue + [l.job] else queue
    requires l.job in rows && l.job in after && after == rows[l.job := after[l.job]]
    requires after[l.job].status == if accepted then Queued else Failed
    requires forall i :: 0 <= i < |done| ==> done[i].job != l.job
    ensures Progress(before, after, start, queue', capacity, done + [l],
                     if accepted then requeued + 1 else requeued, if accepted then failed else failed + 1)
  {
    RecoveredPush(before, rows, after, done, requeued, l, accepted);
    if accepted {
      assert done[..requeued] == done && (done + [l])[..requeued + 1] == done + [l];
      assert Jobs(done + [l]) == Jobs(done) + [l.job];
    } else {
      assert (done + [l])[..requeued] == done[..requeued];
    }
  }

  function Jobs(listed: seq<Listed>): seq<JobId> { seq(|listed|, i requires 0 <= i < |listed| => listed[i].job) }

  predicate NoDupJobs(listed: seq<Listed>) { forall i, j :: 0 <= i < j < |listed| ==> listed[i].job != listed[j].job }

  /** The first `requeued` jobs are QUEUED, the other ones of the list FAILED, all other rows as before. */
  ghost predicate Recovered(before: map<JobId, Row>, after: map<JobId, Row>, still: seq<Listed>, requeued: nat) {
    && after.Keys == before.Keys
    && (forall i :: 0 <= i < |still| ==>
          still[i].job in after && after[still[i].job].status == if i < requeued then Queued else Failed)
    && (forall j :: j in before && (forall i :: 0 <= i < |still| ==> still[i].job != j) ==> after[j] == before[j])
  }

  lemma StillPush(before: map<JobId, Row>, listed: seq<Listed>, k: nat)
    requires k < |listed|
    ensures var same := listed[k].job in before && before[listed[k].job].status == listed[k].status;
            StillListed(before, listed[..k + 1])
            == if same then StillListed(before, listed[..k]) + [listed[k]] else StillListed(before, listed[..k])
  {
    assert listed[..k + 1] == listed[..k] + [listed[k]];
    FilterPush((l: Listed) => l.job in before && before[l.job].status == l.status, listed[..k], listed[k]);
  }

  /** The row of a job further down the list has not been written yet. */
  lemma Untouched(before: map<JobId, Row>, rows: map<JobId, Row>, listed: seq<Listed>, k: nat, requeued: nat)
    requires NoDupJobs(listed) && k < |listed| && Recovered(before, rows, StillListed(before, listed[..k]), requeued)
    ensures listed[k].job in rows <==> listed[k].job in before
    ensures listed[k].job in before ==> rows[listed[k].job] == before[listed[k].job]
    ensures forall i :: 0 <= i < |StillListed(before, listed[..k])| ==> StillListed(before, listed[..k])[i].job != listed[k].job
  {
    var ok := (l: Listed) => l.job in before && before[l.job].status == l.status;
    var still := StillListed(before, listed[..k]);
    FilterFrom(ok, listed[..k]);
    forall i | 0 <= i < |still| ensures still[i].job != listed[k].job {
      assert still[i] in listed[..k];
    }
  }

  lemma {:induction false} FilterFrom<T>(p: T -> bool, s: seq<T>)
    ensures forall x :: x in Filter(p, s) ==> x in s
  {
    if s != [] {
      FilterFrom(p, s[1..]);
      assert s == [s[0]] + s[1..];
    }
  }

  lemma RecoveredPush(
      before: map<JobId, Row>, rows: map<JobId, Row>, after: map<JobId, Row>, done: seq<Listed>, requeued: nat,
      l: Listed, accepted: bool)
    requires Recovered(before, rows, done, requeued) && requeued <= |done| && (accepted ==> requeued == |done|)
    requires l.job in rows && l.job in after && after == rows[l.job := after[l.job]]
    requires after[l.job].status == if accepted then Queued else Failed
    requires forall i :: 0 <= i < |done| ==> done[i].job != l.job
    ensures Recovered(before, after, done + [l], if accepted then requeued + 1 else requeued)
  {
    var still := done + [l];
    forall j | j in before && (forall i :: 0 <= i < |still| ==> still[i].job != j) ensures after[j] == before[j] {
      assert still[|done|] == l;
      assert forall i :: 0 <= i < |done| ==> still[i] == done[i];
    }
  }
}
