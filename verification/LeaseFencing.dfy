/** Only the last claimer settles a job, at most one completion succeeds, and every counted attempt is
    accounted for. */
module LeaseFencing {
  import opened Common
  import opened ReplyJobs
  import opened Lease
  import opened LeaseRuns

  // ---- Reading the log ----

  function LastClaim(log: seq<Act>, j: JobId): Option<Owner> {
    if log == [] then None
    else match log[|log| - 1]
      case DidClaim(job, owner) => if job == j then Some(owner) else LastClaim(log[..|log| - 1], j)
      case _ => LastClaim(log[..|log| - 1], j)
  }

  function Completions(log: seq<Act>, j: JobId): nat {
    if log == [] then 0
    else Completions(log[..|log| - 1], j) + (if log[|log| - 1].DidComplete? && log[|log| - 1].job == j then 1 else 0)
  }

  /** Does this act add one to the job's attempt count? */
  predicate Counts(a: Act, j: JobId) {
    a.job == j &&
    (a.DidRetry? || a.DidComplete? || a.DidOverflow? ||
     (a.DidRequest? && a.status in {Sent, Failed, TokenExpired, HandleExpired}))
  }

  function Attempts(log: seq<Act>, j: JobId): nat {
    if log == [] then 0
    else Attempts(log[..|log| - 1], j) + (if Counts(log[|log| - 1], j) then 1 else 0)
  }

  lemma LogPush(log: seq<Act>, a: Act, j: JobId)
    ensures LastClaim(log + [a], j) == if a.DidClaim? && a.job == j then Some(a.owner) else LastClaim(log, j)
    ensures Completions(log + [a], j) == Completions(log, j) + (if a.DidComplete? && a.job == j then 1 else 0)
    ensures Attempts(log + [a], j) == Attempts(log, j) + (if Counts(a, j) then 1 else 0)
  {
    assert (log + [a])[..|log|] == log;
  }

  // ---- Fencing ----

  /** A retry or completion is by the owner of the job's most recent claim. */
  ghost predicate FencedLog(log: seq<Act>) {
    forall i :: 0 <= i < |log| && (log[i].DidRetry? || log[i].DidComplete?) ==>
      LastClaim(log[..i], log[i].job) == Some(log[i].owner)
  }

  /** Row `j` and the log agree. */
  ghost predicate JobLedger(w: World, j: JobId) {
    if j in w.rows then
      var r := w.rows[j];
      && (r.owner.Some? ==> LastClaim(w.log, j) == r.owner)
      && r.attempts == Attempts(w.log, j)
      && Completions(w.log, j) <= (if Terminal(r.status) then 1 else 0)
    else Attempts(w.log, j) == 0 && Completions(w.log, j) == 0
  }

  ghost predicate Fenced(w: World) { FencedLog(w.log) && forall j :: JobLedger(w, j) }

  lemma FencedPush(log: seq<Act>, a: Act)
    requires FencedLog(log)
    requires a.DidRetry? || a.DidComplete? ==> LastClaim(log, a.job) == Some(a.owner)
    ensures FencedLog(log + [a])
  {
    forall i | 0 <= i < |log + [a]| && ((log + [a])[i].DidRetry? || (log + [a])[i].DidComplete?)
      ensures LastClaim((log + [a])[..i], (log + [a])[i].job) == Some((log + [a])[i].owner)
    {
      assert i < |log| ==> (log + [a])[..i] == log[..i];
      assert i == |log| ==> (log + [a])[..i] == log;
    }
  }

  lemma LedgerClaim(u: Setup, w: World, i: nat, owner: Owner, now: int, j: JobId)
    requires JobLedger(w, j) && i < |w.tasks|
    ensures JobLedger(DoClaim(u, w, i, owner, now), j)
  {
    LogPush(w.log, DidClaim(w.tasks[i].job, owner), j);
  }

  lemma LedgerResolve(u: Setup, w: World, i: nat, j: JobId)
    requires JobLedger(w, j) && i < |w.tasks| && w.tasks[i].phase.Settled?
    ensures JobLedger(DoResolve(u, w, i), j)
  {
    var t := w.tasks[i];
    LogPush(w.log, DidRetry(t.job, t.phase.owner), j);
    LogPush(w.log, DidComplete(t.job, t.phase.owner), j);
  }

  lemma LedgerRequest(w: World, job: JobId, status: Status, j: JobId)
    requires JobLedger(w, j) && job in w.rows && w.rows[job].status == Pending && (status == Queued || Terminal(status))
    ensures JobLedger(DoRequest(w, job, status), j)
  {
    LogPush(w.log, DidRequest(job, status), j);
  }

  lemma LedgerOverflow(w: World, job: JobId, j: JobId)
    requires JobLedger(w, j)
    ensures JobLedger(DoOverflow(w, job), j)
  {
    if job in w.rows && w.rows[job].status == Queued {
      LedgerFails(w, DoOverflow(w, job), job, j);
    } else {
      assert DoOverflow(w, job).rows == w.rows && DoOverflow(w, job).log == w.log;
    }
  }

  lemma LedgerFails(w: World, w': World, job: JobId, j: JobId)
    requires JobLedger(w, j) && job in w.rows && w'.log == w.log + [DidOverflow(job)] && !Terminal(w.rows[job].status)
    requires w'.rows == w.rows[job := Updated(w.rows[job], Failed, Some("dispatch queue full"), w.clock)]
    ensures JobLedger(w', j)
  {
    LogPush(w.log, DidOverflow(job), j);
  }

  lemma LedgerRequeue(w: World, job: JobId, status: Status, j: JobId)
    requires JobLedger(w, j) && !Terminal(status)
    ensures JobLedger(DoRequeue(w, job, status), j)
  {
  }

  lemma LedgerStep(u: Setup, w: World, step: Step, j: JobId)
    requires Sound(w) && JobLedger(w, j) && Enabled(w, step)
    ensures JobLedger(Apply(u, w, step), j)
  {
    match step
    case RequestWrites(job, status) => LedgerRequest(w, job, status, j);
    case Overflow(job) => LedgerOverflow(w, job, j);
    case Claim(i, owner, now) => LedgerClaim(u, w, i, owner, now, j);
    case Resolve(i) => LedgerResolve(u, w, i, j);
    case RecoveryRequeues(job, status) => LedgerRequeue(w, job, status, j);
    case _ =>
  }

  lemma FencedLogStep(u: Setup, w: World, step: Step)
    requires Fenced(w) && Enabled(w, step)
    ensures FencedLog(Apply(u, w, step).log)
  {
    var w' := Apply(u, w, step);
    if w'.log != w.log {
      var a := w'.log[|w.log|];
      assert w'.log == w.log + [a];
      assert JobLedger(w, a.job);
      FencedPush(w.log, a);
    }
  }

  /** Fencing and attempt accounting in every state of every run. */
  lemma {:induction false} FencedRun(u: Setup, w: World, steps: seq<Step>)
    requires Sound(w) && Fenced(w) && Legal(u, w, steps)
    ensures Fenced(Run(u, w, steps))
    decreases |steps|
  {
    if steps != [] {
      forall j ensures JobLedger(Apply(u, w, steps[0]), j) { LedgerStep(u, w, steps[0], j); }
      FencedLogStep(u, w, steps[0]);
      SoundStep(u, w, steps[0]);
      FencedRun(u, Apply(u, w, steps[0]), steps[1..]);
    }
  }

  lemma StartIsSound()
    ensures Sound(Start) && Fenced(Start)
  {
  }

  /** Fencing, from the start: the last claimer is the only one that retries or completes, a job is
      completed at most once, and its row counts exactly the logged attempts. */
  lemma Fencing(u: Setup, steps: seq<Step>, j: JobId)
    requires Legal(u, Start, steps)
    ensures var w := Run(u, Start, steps);
            && FencedLog(w.log) && Completions(w.log, j) <= 1
            && (j in w.rows ==> WellFormed(w.rows[j]) && w.rows[j].attempts == Attempts(w.log, j))
  {
    StartIsSound();
    FencedRun(u, Start, steps);
    SoundRun(u, Start, steps);
    assert JobLedger(Run(u, Start, steps), j);
  }

  // ---- How many attempts a job can collect ----

  /** Attempts added to the row of `j` by the tasks accepted for it. */
  function ByTasks(tasks: seq<Task>, j: JobId): nat {
    if tasks == [] then 0
    else ByTasks(tasks[..|tasks| - 1], j) + (if tasks[|tasks| - 1].job == j then tasks[|tasks| - 1].counted else 0)
  }

  function Accepted(tasks: seq<Task>, j: JobId): nat {
    if tasks == [] then 0
    else Accepted(tasks[..|tasks| - 1], j) + (if tasks[|tasks| - 1].job == j then 1 else 0)
  }

  lemma {:induction false} TasksUpdate(tasks: seq<Task>, i: nat, t: Task, j: JobId)
    requires i < |tasks| && t.job == tasks[i].job
    ensures ByTasks(tasks[i := t], j) == ByTasks(tasks, j) + (if t.job == j then t.counted - tasks[i].counted else 0)
    ensures Accepted(tasks[i := t], j) == Accepted(tasks, j)
  {
    var n := |tasks| - 1;
    if i == n {
      assert tasks[i := t][..n] == tasks[..n];
    } else {
      assert tasks[i := t][..n] == tasks[..n][i := t];
      TasksUpdate(tasks[..n], i, t, j);
    }
  }

  lemma TasksPush(tasks: seq<Task>, t: Task, j: JobId)
    ensures ByTasks(tasks + [t], j) == ByTasks(tasks, j) + (if t.job == j then t.counted else 0)
    ensures Accepted(tasks + [t], j) == Accepted(tasks, j) + (if t.job == j then 1 else 0)
  {
    assert (tasks + [t])[..|tasks|] == tasks;
  }

  /** A task that is not done can still count the attempt it is in. */
  predicate TaskFits(u: Setup, t: Task) {
    t.counted <= u.maxAttempts && (t.phase != Done ==> t.counted < t.attempt <= u.maxAttempts)
  }

  /** Beyond what tasks count there is at most one attempt, the one that ended the job without a task. */
  ghost predicate Budget(w: World, j: JobId) {
    j in w.rows ==>
      var r := w.rows[j];
      ByTasks(w.tasks, j) <= r.attempts <= ByTasks(w.tasks, j) + (if Terminal(r.status) then 1 else 0)
  }

  ghost predicate Budgeted(u: Setup, w: World) {
    (forall i :: 0 <= i < |w.tasks| ==> TaskFits(u, w.tasks[i])) && forall j :: Budget(w, j)
  }

  lemma TasksFitStep(u: Setup, w: World, step: Step)
    requires Budgeted(u, w) && Enabled(w, step)
    ensures var w' := Apply(u, w, step); forall i :: 0 <= i < |w'.tasks| ==> TaskFits(u, w'.tasks[i])
  {
  }

  lemma BudgetClaim(u: Setup, w: World, i: nat, owner: Owner, now: int, j: JobId)
    requires Budget(w, j) && i < |w.tasks|
    ensures Budget(DoClaim(u, w, i, owner, now), j)
  {
    var w' := DoClaim(u, w, i, owner, now);
    TasksUpdate(w.tasks, i, w'.tasks[i], j);
  }

  lemma BudgetResolve(u: Setup, w: World, i: nat, j: JobId)
    requires Budget(w, j) && i < |w.tasks| && w.tasks[i].phase.Settled?
    ensures Budget(DoResolve(u, w, i), j)
  {
    var w' := DoResolve(u, w, i);
    TasksUpdate(w.tasks, i, w'.tasks[i], j);
  }

  lemma BudgetPhase(w: World, i: nat, p: Phase, j: JobId)
    requires Budget(w, j) && i < |w.tasks|
    ensures Budget(SetPhase(w, i, p), j)
  {
    TasksUpdate(w.tasks, i, w.tasks[i].(phase := p), j);
  }

  lemma {:induction false} NoTasks(tasks: seq<Task>, j: JobId)
    requires forall i :: 0 <= i < |tasks| ==> tasks[i].job != j
    ensures ByTasks(tasks, j) == 0
  {
    if tasks != [] { NoTasks(tasks[..|tasks| - 1], j); }
  }

  lemma BudgetStep(u: Setup, w: World, step: Step, j: JobId)
    requires Sound(w) && Budget(w, j) && Enabled(w, step)
    ensures Budget(Apply(u, w, step), j)
  {
    match step
    case Insert(job) => if j == job { NoTasks(w.tasks, j); }
    case Enqueue(job) => TasksPush(w.tasks, Task(job, 1, InQueue, 0), j);
    case Begin(i) => BudgetPhase(w, i, Ready, j);
    case Claim(i, owner, now) => BudgetClaim(u, w, i, owner, now, j);
    case ClaimRaises(i, owner) => BudgetPhase(w, i, Settled(owner, Outcome(false, Failed)), j);
    case Settle(i, outcome) => BudgetPhase(w, i, Settled(w.tasks[i].phase.owner, outcome), j);
    case Resolve(i) => BudgetResolve(u, w, i, j);
    case Abandon(i) => BudgetPhase(w, i, Done, j);
    case RequestWrites(job, status) => BudgetRequest(w, job, status, j);
    case Overflow(job) => BudgetOverflow(w, job, j);
    case RecoveryRequeues(job, status) => BudgetRequeue(w, job, status, j);
    case _ => assert Apply(u, w, step).tasks == w.tasks && Apply(u, w, step).rows == w.rows;
  }

  lemma BudgetRequest(w: World, job: JobId, status: Status, j: JobId)
    requires Budget(w, j) && job in w.rows && !Terminal(w.rows[job].status) && (status == Queued || Terminal(status))
    ensures Budget(DoRequest(w, job, status), j)
  {
    assert DoRequest(w, job, status).tasks == w.tasks;
  }

  lemma BudgetOverflow(w: World, job: JobId, j: JobId)
    requires Budget(w, j)
    ensures Budget(DoOverflow(w, job), j)
  {
    assert DoOverflow(w, job).tasks == w.tasks;
  }

  lemma BudgetRequeue(w: World, job: JobId, status: Status, j: JobId)
    requires Budget(w, j) && !Terminal(status)
    ensures Budget(DoRequeue(w, job, status), j)
  {
    assert DoRequeue(w, job, status).tasks == w.tasks;
  }

  lemma {:induction false} BudgetRun(u: Setup, w: World, steps: seq<Step>)
    requires Sound(w) && Budgeted(u, w) && Legal(u, w, steps)
    ensures Budgeted(u, Run(u, w, steps))
    decreases |steps|
  {
    if steps != [] {
      forall j ensures Budget(Apply(u, w, steps[0]), j) { BudgetStep(u, w, steps[0], j); }
      TasksFitStep(u, w, steps[0]);
      SoundStep(u, w, steps[0]);
      BudgetRun(u, Apply(u, w, steps[0]), steps[1..]);
    }
  }

  lemma {:induction false} TaskSum(u: Setup, tasks: seq<Task>, j: JobId)
    requires forall i :: 0 <= i < |tasks| ==> TaskFits(u, tasks[i])
    ensures ByTasks(tasks, j) <= u.maxAttempts * Accepted(tasks, j)
  {
    if tasks != [] {
      var init := tasks[..|tasks| - 1];
      TaskSum(u, init, j);
      assert TaskFits(u, tasks[|tasks| - 1]);
      assert u.maxAttempts * (Accepted(init, j) + 1) == u.maxAttempts * Accepted(init, j) + u.maxAttempts;
    }
  }

  /** However often a job is enqueued, recovered and retried, it collects at most the configured
      attempts per accepted task, plus one. */
  lemma AttemptBound(u: Setup, steps: seq<Step>, j: JobId)
    requires Legal(u, Start, steps)
    ensures var w := Run(u, Start, steps);
            j in w.rows ==> w.rows[j].attempts <= u.maxAttempts * Accepted(w.tasks, j) + 1
  {
    StartIsSound();
    BudgetRun(u, Start, steps);
    var w := Run(u, Start, steps);
    TaskSum(u, w.tasks, j);
    assert Budget(w, j);
  }
}
