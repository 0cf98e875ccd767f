/** The lease protocol around the reply_jobs table: request threads, any number of dispatch workers
    and the recovery scheduler. One step is one guarded SQL statement, one queue operation or one
    adapter outcome; recovery lists rows in one step and updates each in another. */
module Lease {
  import opened Common
  import opened ReplyJobs

  datatype Outcome = Outcome(ok: bool, status: Status)

  /** Where a worker is in `_dispatch`. */
  datatype Phase = InQueue | Ready | Calling(owner: Owner, lease: int) | Settled(owner: Owner, outcome: Outcome) | Done

  /** A dispatch task, from its acceptance on. `counted` is how many attempts it added to its row. */
  datatype Task = Task(job: JobId, attempt: nat, phase: Phase, counted: nat)

  datatype Act =
    | DidClaim(job: JobId, owner: Owner)
    | DidRetry(job: JobId, owner: Owner)
    | DidComplete(job: JobId, owner: Owner)
    | DidOverflow(job: JobId)
    | DidRequest(job: JobId, status: Status)

  datatype World = World(
    rows: map<JobId, Row>,
    clock: int,
    tasks: seq<Task>,
    owners: set<Owner>,
    open: set<JobId>,
    submitting: multiset<JobId>,
    seen: multiset<(JobId, Status)>,
    log: seq<Act>)

  datatype Setup = Setup(maxAttempts: positive, leaseMillis: int)

  const Start: World := World(map[], 0, [], {}, {}, multiset{}, multiset{}, [])

  datatype Step =
    | Tick(to: int)
    | Insert(job: JobId)
    | RequestWrites(job: JobId, status: Status)
    | RequestWriteFails(job: JobId)
    | Enqueue(job: JobId)
    | Overflow(job: JobId)
    | Begin(task: nat)
    | Claim(task: nat, owner: Owner, now: int)
    | ClaimRaises(task: nat, owner: Owner)
    | Settle(task: nat, outcome: Outcome)
    | Resolve(task: nat)
    | Abandon(task: nat)
    | RecoverySees(job: JobId, cutoff: int)
    | RecoveryRequeues(job: JobId, status: Status)

  predicate Enabled(w: World, step: Step) {
    match step
    case Tick(to) => w.clock <= to
    case Insert(job) => job !in w.rows
    case RequestWrites(job, status) => job in w.open && job in w.rows && (status == Queued || Terminal(status))
    case RequestWriteFails(job) => job in w.open
    case Enqueue(job) => job in w.submitting
    case Overflow(job) => job in w.submitting
    case Begin(i) => i < |w.tasks| && w.tasks[i].phase == InQueue
    case Claim(i, owner, now) => i < |w.tasks| && w.tasks[i].phase == Ready && owner !in w.owners && now <= w.clock
    case ClaimRaises(i, owner) => i < |w.tasks| && w.tasks[i].phase == Ready && owner !in w.owners
    case Settle(i, _) => i < |w.tasks| && w.tasks[i].phase.Calling?
    case Resolve(i) => i < |w.tasks| && w.tasks[i].phase.Settled?
    case Abandon(i) => i < |w.tasks| && w.tasks[i].phase.Settled?
    case RecoverySees(job, cutoff) =>
      cutoff <= w.clock && job in w.rows && job !in w.open && Recoverable(w.rows[job], cutoff)
    case RecoveryRequeues(job, status) => (job, status) in w.seen
  }

  function SetPhase(w: World, i: nat, p: Phase): World
    requires i < |w.tasks|
  {
    w.(tasks := w.tasks[i := w.tasks[i].(phase := p)])
  }

  function Log(w: World, a: Act): World { w.(log := w.log + [a]) }

  function SetRow(w: World, job: JobId, r: Row): World { w.(rows := w.rows[job := r]) }

  function DoRequest(w: World, job: JobId, status: Status): World
    requires job in w.rows
  {
    var wrote := Log(SetRow(w, job, Updated(w.rows[job], status, None, w.clock)), DidRequest(job, status));
    wrote.(open := w.open - {job},
           submitting := if status == Queued then w.submitting + multiset{job} else w.submitting)
  }

  /** A full dispatch queue: the job fails, if it is still QUEUED. */
  function DoOverflow(w: World, job: JobId): World {
    var v := w.(submitting := w.submitting - multiset{job});
    if job in w.rows && w.rows[job].status == Queued
    then Log(SetRow(v, job, Updated(w.rows[job], Failed, Some("dispatch queue full"), w.clock)), DidOverflow(job))
    else v
  }

  function DoClaim(u: Setup, w: World, i: nat, owner: Owner, now: int): World
    requires i < |w.tasks|
  {
    var job := w.tasks[i].job;
    var v := w.(owners := w.owners + {owner});
    if job in w.rows && Claimable(w.rows[job], now) then
      var row := Claimed(w.rows[job], owner, u.leaseMillis, now);
      Log(SetRow(SetPhase(v, i, Calling(owner, row.lease.value)), job, row), DidClaim(job, owner))
    else SetPhase(v, i, Done)
  }

  /** How `_dispatch` resolves an attempt: retry, or complete with a status. */
  function Final(u: Setup, attempt: nat, o: Outcome): Option<Status> {
    if o.ok && o.status == Sent then Some(Sent)
    else if o.status in {TokenExpired, HandleExpired, ReplyJobs.Duplicate} then Some(o.status)
    else if attempt < u.maxAttempts then None
    else Some(if o.status in {Retrying, Queued, Dispatching, Pending} then Failed else o.status)
  }

  /** The attempt is the last one of its task: the reply was delivered, the job cannot be helped by another
      attempt, or no attempt is left. */
  predicate Stops(u: Setup, attempt: nat, o: Outcome) {
    || (o.ok && o.status == Sent)
    || o.status in {TokenExpired, HandleExpired, ReplyJobs.Duplicate}
    || attempt >= u.maxAttempts
  }

  /** An attempt is retried exactly when it does not stop the task; otherwise the job gets the outcome's own
      status, or FAILED for a status that is still in progress. */
  lemma FinalExact(u: Setup, attempt: nat, o: Outcome)
    ensures Final(u, attempt, o).Some? <==> Stops(u, attempt, o)
    ensures Stops(u, attempt, o) ==>
              TerminalOf(Final(u, attempt, o).value) == Final(u, attempt, o).value ==
              match o.status
              case Sent => Sent
              case TokenExpired => TokenExpired
              case HandleExpired => HandleExpired
              case Duplicate => ReplyJobs.Duplicate
              case Failed | Pending | Queued | Dispatching | Retrying => Failed
  {
  }

  function DoResolve(u: Setup, w: World, i: nat): World
    requires i < |w.tasks| && w.tasks[i].phase.Settled?
  {
    var t := w.tasks[i];
    var owner := t.phase.owner;
    if t.job !in w.rows || !Owns(w.rows[t.job], owner) then SetPhase(w, i, Done)
    else
      var r := w.rows[t.job];
      match Final(u, t.attempt, t.phase.outcome)
      case None =>
        Log(SetRow(w, t.job, Retried(r, None, w.clock)), DidRetry(t.job, owner))
        .(tasks := w.tasks[i := Task(t.job, t.attempt + 1, Ready, t.counted + 1)])
      case Some(status) =>
        Log(SetRow(w, t.job, Completed(r, status, None, w.clock)), DidComplete(t.job, owner))
        .(tasks := w.tasks[i := Task(t.job, t.attempt, Done, t.counted + 1)])
  }

  function DoRequeue(w: World, job: JobId, status: Status): World {
    var v := w.(seen := w.seen - multiset{(job, status)});
    if job in w.rows && w.rows[job].status == status
    then SetRow(v, job, Updated(w.rows[job], Queued, None, w.clock)).(submitting := w.submitting + multiset{job})
    else v
  }

  function Apply(u: Setup, w: World, step: Step): World
    requires Enabled(w, step)
  {
    match step
    case Tick(to) => w.(clock := to)
    case Insert(job) => SetRow(w, job, NewRow(w.clock)).(open := w.open + {job})
    case RequestWrites(job, status) => DoRequest(w, job, status)
    case RequestWriteFails(job) => w.(open := w.open - {job}, submitting := w.submitting + multiset{job})
    case Enqueue(job) => w.(submitting := w.submitting - multiset{job}, tasks := w.tasks + [Task(job, 1, InQueue, 0)])
    case Overflow(job) => DoOverflow(w, job)
    case Begin(i) => SetPhase(w, i, Ready)
    case Claim(i, owner, now) => DoClaim(u, w, i, owner, now)
    case ClaimRaises(i, owner) =>
      SetPhase(w, i, Settled(owner, Outcome(false, Failed))).(owners := w.owners + {owner})
    case Settle(i, outcome) => SetPhase(w, i, Settled(w.tasks[i].phase.owner, outcome))
    case Resolve(i) => DoResolve(u, w, i)
    case Abandon(i) => SetPhase(w, i, Done)
    case RecoverySees(job, _) => w.(seen := w.seen + multiset{(job, w.rows[job].status)})
    case RecoveryRequeues(job, status) => DoRequeue(w, job, status)
  }

  predicate Legal(u: Setup, w: World, steps: seq<Step>)
    decreases |steps|
  {
    steps == [] || (Enabled(w, steps[0]) && Legal(u, Apply(u, w, steps[0]), steps[1..]))
  }

  function Run(u: Setup, w: World, steps: seq<Step>): World
    requires Legal(u, w, steps)
    decreases |steps|
  {
    if steps == [] then w else Run(u, Apply(u, w, steps[0]), steps[1..])
  }
}
