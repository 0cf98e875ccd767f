/** Well-formed rows and frozen terminal rows over every run of the lease protocol. */
module LeaseRuns {
  import opened Common
  import opened ReplyJobs
  import opened Lease

  // ---- What every guarded step does to a row ----

  ghost predicate RowsSound(w: World) { forall j :: j in w.rows ==> WellFormed(w.rows[j]) }

  /** A job whose request thread has not written yet is PENDING and known to nobody else. */
  ghost predicate OpenSound(w: World) {
    && (forall j :: j in w.open ==> j in w.rows && w.rows[j].status == Pending)
    && (forall j :: j in w.submitting ==> j in w.rows && j !in w.open)
    && (forall i :: 0 <= i < |w.tasks| ==> w.tasks[i].job in w.rows && w.tasks[i].job !in w.open)
    && (forall p :: p in w.seen ==> p.0 in w.rows && p.0 !in w.open && !Terminal(p.1))
  }

  ghost predicate Sound(w: World) { RowsSound(w) && OpenSound(w) }

  /** From `w` to `w'` row `j` stays well formed, and is not written at all if it was terminal. */
  ghost predicate RowKept(w: World, w': World, j: JobId) {
    j in w.rows ==>
      && j in w'.rows && WellFormed(w'.rows[j])
      && (Terminal(w.rows[j].status) ==> w'.rows[j] == w.rows[j])
  }

  lemma RowClaim(u: Setup, w: World, i: nat, owner: Owner, now: int, j: JobId)
    requires RowsSound(w) && i < |w.tasks|
    ensures RowKept(w, DoClaim(u, w, i, owner, now), j)
  {
  }

  lemma RowResolve(u: Setup, w: World, i: nat, j: JobId)
    requires RowsSound(w) && i < |w.tasks| && w.tasks[i].phase.Settled?
    ensures RowKept(w, DoResolve(u, w, i), j)
  {
  }

  lemma RowRequest(w: World, job: JobId, status: Status, j: JobId)
    requires Sound(w) && job in w.open && (status == Queued || Terminal(status))
    ensures RowKept(w, DoRequest(w, job, status), j)
  {
  }

  lemma RowRecovery(w: World, job: JobId, status: Status, j: JobId)
    requires RowsSound(w) && !Terminal(status)
    ensures RowKept(w, DoRequeue(w, job, status), j) && RowKept(w, DoOverflow(w, job), j)
  {
  }

  /** Every step keeps rows well formed and never leaves a terminal status. */
  lemma RowStep(u: Setup, w: World, step: Step, j: JobId)
    requires Sound(w) && Enabled(w, step)
    ensures RowKept(w, Apply(u, w, step), j)
  {
    match step
    case RequestWrites(job, status) => RowRequest(w, job, status, j);
    case Overflow(job) => RowRecovery(w, job, Queued, j);
    case Claim(i, owner, now) => RowClaim(u, w, i, owner, now, j);
    case Resolve(i) => RowResolve(u, w, i, j);
    case RecoveryRequeues(job, status) => RowRecovery(w, job, status, j);
    case _ =>
  }

  /** The step involves only jobs that were already public. */
  ghost predicate Discreet(w: World, w': World) {
    && w'.open <= w.open && w.rows.Keys <= w'.rows.Keys
    && (forall j :: j in w'.open && j in w.rows ==> w'.rows[j] == w.rows[j])
    && (forall j :: j in w'.submitting ==> j in w'.rows && j !in w'.open)
    && |w'.tasks| == |w.tasks| && (forall i :: 0 <= i < |w.tasks| ==> w'.tasks[i].job == w.tasks[i].job)
    && (forall p :: p in w'.seen ==> p in w.seen)
  }

  lemma DiscreetKeepsOpen(w: World, w': World)
    requires OpenSound(w) && Discreet(w, w')
    ensures OpenSound(w')
  {
  }

  lemma DiscreetClaim(u: Setup, w: World, i: nat, owner: Owner, now: int)
    requires OpenSound(w) && i < |w.tasks|
    ensures Discreet(w, DoClaim(u, w, i, owner, now))
  {
  }

  lemma DiscreetResolve(u: Setup, w: World, i: nat)
    requires OpenSound(w) && i < |w.tasks| && w.tasks[i].phase.Settled?
    ensures Discreet(w, DoResolve(u, w, i))
  {
  }

  lemma DiscreetPhase(w: World, i: nat, p: Phase, owners: set<Owner>)
    requires OpenSound(w) && i < |w.tasks|
    ensures Discreet(w, SetPhase(w, i, p).(owners := owners))
  {
  }

  lemma DiscreetRequest(w: World, job: JobId, status: Status)
    requires OpenSound(w) && job in w.open
    ensures Discreet(w, DoRequest(w, job, status))
  {
    assert forall j :: j in DoRequest(w, job, status).submitting ==> j in w.submitting || j == job;
  }

  lemma DiscreetOverflow(w: World, job: JobId)
    requires OpenSound(w) && job in w.submitting
    ensures Discreet(w, DoOverflow(w, job))
  {
    assert forall j :: j in DoOverflow(w, job).submitting ==> j in w.submitting;
  }

  lemma DiscreetRequeue(w: World, job: JobId, status: Status)
    requires OpenSound(w) && (job, status) in w.seen
    ensures Discreet(w, DoRequeue(w, job, status))
  {
    var w' := DoRequeue(w, job, status);
    assert (job, status).0 !in w.open;
    assert forall j :: j in w'.submitting ==> j in w.submitting || j == job;
    assert forall p :: p in w'.seen ==> p in w.seen;
  }

  lemma OpenEnqueue(w: World, job: JobId)
    requires OpenSound(w) && job in w.submitting
    ensures OpenSound(w.(submitting := w.submitting - multiset{job}, tasks := w.tasks + [Task(job, 1, InQueue, 0)]))
  {
    assert forall j :: j in w.submitting - multiset{job} ==> j in w.submitting;
  }

  lemma OpenWriteFails(w: World, job: JobId)
    requires OpenSound(w) && job in w.open
    ensures OpenSound(w.(open := w.open - {job}, submitting := w.submitting + multiset{job}))
  {
    assert forall j :: j in w.submitting + multiset{job} ==> j in w.submitting || j == job;
  }

  lemma OpenInsert(w: World, job: JobId)
    requires OpenSound(w) && job !in w.rows
    ensures OpenSound(SetRow(w, job, NewRow(w.clock)).(open := w.open + {job}))
  {
    var w' := SetRow(w, job, NewRow(w.clock)).(open := w.open + {job});
    forall p | p in w'.seen ensures p.0 in w'.rows && p.0 !in w'.open && !Terminal(p.1) {
      assert p in w.seen;
    }
  }

  lemma OpenSees(w: World, job: JobId)
    requires OpenSound(w) && job in w.rows && job !in w.open && !Terminal(w.rows[job].status)
    ensures OpenSound(w.(seen := w.seen + multiset{(job, w.rows[job].status)}))
  {
    var p0 := (job, w.rows[job].status);
    assert forall p :: p in w.seen + multiset{p0} ==> p in w.seen || p == p0;
  }

  lemma OpenStep(u: Setup, w: World, step: Step)
    requires OpenSound(w) && Enabled(w, step)
    ensures OpenSound(Apply(u, w, step))
  {
    match step
    case Enqueue(job) => OpenEnqueue(w, job);
    case RequestWriteFails(job) => OpenWriteFails(w, job);
    case Insert(job) => OpenInsert(w, job);
    case RecoverySees(job, _) => OpenSees(w, job);
    case _ =>
      DiscreetStep(u, w, step);
      DiscreetKeepsOpen(w, Apply(u, w, step));
  }

  lemma DiscreetStep(u: Setup, w: World, step: Step)
    requires OpenSound(w) && Enabled(w, step)
    requires !step.Enqueue? && !step.RequestWriteFails? && !step.Insert? && !step.RecoverySees?
    ensures Discreet(w, Apply(u, w, step))
  {
    match step
    case Tick(_) =>
    case RequestWrites(job, status) => DiscreetRequest(w, job, status);
    case Overflow(job) => DiscreetOverflow(w, job);
    case RecoveryRequeues(job, status) => DiscreetRequeue(w, job, status);
    case Claim(i, owner, now) => DiscreetClaim(u, w, i, owner, now);
    case Resolve(i) => DiscreetResolve(u, w, i);
    case Begin(i) => DiscreetPhase(w, i, Ready, w.owners);
    case ClaimRaises(i, owner) => DiscreetPhase(w, i, Settled(owner, Outcome(false, Failed)), w.owners + {owner});
    case Settle(i, outcome) => DiscreetPhase(w, i, Settled(w.tasks[i].phase.owner, outcome), w.owners);
    case Abandon(i) => DiscreetPhase(w, i, Done, w.owners);
  }

  lemma SoundStep(u: Setup, w: World, step: Step)
    requires Sound(w) && Enabled(w, step)
    ensures Sound(Apply(u, w, step))
  {
    forall j | j in Apply(u, w, step).rows ensures WellFormed(Apply(u, w, step).rows[j]) { WellFormedStep(u, w, step, j); }
    OpenStep(u, w, step);
  }

  lemma WellFormedStep(u: Setup, w: World, step: Step, j: JobId)
    requires Sound(w) && Enabled(w, step) && j in Apply(u, w, step).rows
    ensures WellFormed(Apply(u, w, step).rows[j])
  {
    if j in w.rows {
      RowStep(u, w, step, j);
    } else {
      NewRowStep(u, w, step, j);
    }
  }

  lemma NewRowStep(u: Setup, w: World, step: Step, j: JobId)
    requires Enabled(w, step) && j !in w.rows && j in Apply(u, w, step).rows
    ensures Apply(u, w, step).rows[j] == NewRow(w.clock)
  {
  }

  lemma {:induction false} SoundRun(u: Setup, w: World, steps: seq<Step>)
    requires Sound(w) && Legal(u, w, steps)
    ensures Sound(Run(u, w, steps))
    decreases |steps|
  {
    if steps != [] {
      SoundStep(u, w, steps[0]);
      SoundRun(u, Apply(u, w, steps[0]), steps[1..]);
    }
  }

  /** A terminal row is never written again, in any continuation of any run. */
  lemma {:induction false} TerminalRun(u: Setup, w: World, steps: seq<Step>, j: JobId)
    requires Sound(w) && Legal(u, w, steps) && j in w.rows && Terminal(w.rows[j].status)
    ensures j in Run(u, w, steps).rows && Run(u, w, steps).rows[j] == w.rows[j]
    decreases |steps|
  {
    if steps != [] {
      SoundStep(u, w, steps[0]);
      RowStep(u, w, steps[0], j);
      TerminalRun(u, Apply(u, w, steps[0]), steps[1..], j);
    }
  }

  /** Who is waiting to be put on the dispatch queue: a request whose job is queued or whose write failed and a
      requeue by recovery add the job once; a place on the queue and an overflow each take it once. */
  lemma SubmissionExact(u: Setup, w: World, step: Step)
    requires Enabled(w, step)
    ensures var more := match step
              case RequestWrites(job, status) => if status == Queued then multiset{job} else multiset{}
              case RequestWriteFails(job) => multiset{job}
              case RecoveryRequeues(job, status) =>
                if job in w.rows && w.rows[job].status == status then multiset{job} else multiset{}
              case _ => multiset{};
            var fewer := if step.Enqueue? || step.Overflow? then multiset{step.job} else multiset{};
            Apply(u, w, step).submitting == w.submitting + more - fewer
  {
  }

  /** Resolving an attempt ends it: the task is ready for its next attempt after a retry, and done otherwise. */
  lemma ResolveExact(u: Setup, w: World, i: nat)
    requires Enabled(w, Resolve(i))
    ensures var t, w' := w.tasks[i], Apply(u, w, Resolve(i));
            var owned := t.job in w.rows && Owns(w.rows[t.job], t.phase.owner);
            var stops := Stops(u, t.attempt, t.phase.outcome);
            w'.tasks == w.tasks[i := if !owned then Task(t.job, t.attempt, Done, t.counted)
                                     else if stops then Task(t.job, t.attempt, Done, t.counted + 1)
                                     else Task(t.job, t.attempt + 1, Ready, t.counted + 1)]
  {
    FinalExact(u, w.tasks[i].attempt, w.tasks[i].phase.outcome);
  }
}
