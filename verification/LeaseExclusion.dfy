/** Lease exclusion: no two adapter calls for one job at the same time, and the race that breaks it. */
module LeaseExclusion {
  import opened Common
  import opened ReplyJobs
  import opened Lease
  import opened LeaseRuns

  predicate IsCalling(w: World, i: nat) { i < |w.tasks| && w.tasks[i].phase.Calling? }

  /** Every adapter call in progress is still within its lease. */
  ghost predicate WithinLease(w: World) {
    forall i: nat :: IsCalling(w, i) ==> w.clock < w.tasks[i].phase.lease
  }

  /** The listing and the update of a stale DISPATCHING row act as one: the lease is still over when
      the update runs. */
  predicate AtomicRecovery(w: World, step: Step) {
    step.RecoveryRequeues? && step.status == Dispatching && step.job in w.rows && w.rows[step.job].status == Dispatching
    && w.rows[step.job].lease.Some? ==>
      w.rows[step.job].lease.value <= w.clock
  }

  ghost predicate Timely(u: Setup, w: World, steps: seq<Step>)
    requires Legal(u, w, steps)
    decreases |steps|
  {
    steps == [] ||
    (WithinLease(w) && AtomicRecovery(w, steps[0]) && Timely(u, Apply(u, w, steps[0]), steps[1..]))
  }

  ghost predicate CallFor(w: World, job: JobId) { exists i: nat :: IsCalling(w, i) && w.tasks[i].job == job }

  /** A recovery update hits a job whose adapter call is in progress: the row still has the listed status. */
  ghost predicate HitsCall(w: World, step: Step) {
    step.RecoveryRequeues? && step.job in w.rows && w.rows[step.job].status == step.status && CallFor(w, step.job)
  }

  /** A call in progress holds its job's row. */
  ghost predicate Holds(w: World, t: Task) {
    t.phase.Calling? ==>
      && t.job in w.rows && w.rows[t.job].status == Dispatching
      && w.rows[t.job].owner == Some(t.phase.owner) && w.rows[t.job].lease == Some(t.phase.lease)
  }

  predicate HasOwner(t: Task) { t.phase.Calling? || t.phase.Settled? }

  ghost predicate OwnersDistinct(w: World) {
    && (forall i :: 0 <= i < |w.tasks| && HasOwner(w.tasks[i]) ==> w.tasks[i].phase.owner in w.owners)
    && (forall i, k :: 0 <= i < k < |w.tasks| && HasOwner(w.tasks[i]) && HasOwner(w.tasks[k]) ==>
          w.tasks[i].phase.owner != w.tasks[k].phase.owner)
  }

  ghost predicate CallsHold(w: World) { forall i :: 0 <= i < |w.tasks| ==> Holds(w, w.tasks[i]) }

  ghost predicate Exclusive(w: World) { OwnersDistinct(w) && CallsHold(w) }

  /** One task moves, to a phase with its old owner, with a new owner, or with none. */
  lemma OwnersMove(w: World, w': World, i: nat, t: Task)
    requires OwnersDistinct(w) && i < |w.tasks| && w'.tasks == w.tasks[i := t] && w.owners <= w'.owners
    requires HasOwner(t) ==>
               t.phase.owner in w'.owners &&
               (t.phase.owner !in w.owners || (HasOwner(w.tasks[i]) && t.phase.owner == w.tasks[i].phase.owner))
    ensures OwnersDistinct(w')
  {
  }

  lemma OwnersStep(u: Setup, w: World, step: Step)
    requires OwnersDistinct(w) && Enabled(w, step)
    ensures OwnersDistinct(Apply(u, w, step))
  {
    var w' := Apply(u, w, step);
    match step
    case Begin(i) => OwnersMove(w, w', i, w'.tasks[i]);
    case Claim(i, _, _) => OwnersMove(w, w', i, w'.tasks[i]);
    case ClaimRaises(i, _) => OwnersMove(w, w', i, w'.tasks[i]);
    case Settle(i, _) => OwnersMove(w, w', i, w'.tasks[i]);
    case Resolve(i) => OwnersMove(w, w', i, w'.tasks[i]);
    case Abandon(i) => OwnersMove(w, w', i, w'.tasks[i]);
    case _ => OwnersQuiet(u, w, step);
  }

  lemma OwnersQuiet(u: Setup, w: World, step: Step)
    requires OwnersDistinct(w) && Enabled(w, step)
    requires step.Tick? || step.Insert? || step.RequestWrites? || step.RequestWriteFails? || step.Enqueue? ||
             step.Overflow? || step.RecoverySees? || step.RecoveryRequeues?
    ensures OwnersDistinct(Apply(u, w, step))
  {
    var w' := Apply(u, w, step);
    assert w'.owners == w.owners;
    if step.Enqueue? {
      OwnersEnqueue(w, w', Task(step.job, 1, InQueue, 0));
    } else {
      assert w'.tasks == w.tasks;
    }
  }

  lemma OwnersEnqueue(w: World, w': World, t: Task)
    requires OwnersDistinct(w) && w'.owners == w.owners && w'.tasks == w.tasks + [t] && !HasOwner(t)
    ensures OwnersDistinct(w')
  {
  }

  /** A claim cannot take a job away from a call that is within its lease. */
  lemma HoldsClaim(u: Setup, w: World, i: nat, owner: Owner, now: int, k: nat)
    requires Exclusive(w) && WithinLease(w) && i < |w.tasks| && k < |w.tasks| && now <= w.clock
    ensures Holds(DoClaim(u, w, i, owner, now), DoClaim(u, w, i, owner, now).tasks[k])
  {
    assert Holds(w, w.tasks[k]);
    assert IsCalling(w, k) ==> w.clock < w.tasks[k].phase.lease;
  }

  /** Settling touches only the row the settling task itself owns. */
  lemma HoldsResolve(u: Setup, w: World, i: nat, k: nat)
    requires Exclusive(w) && i < |w.tasks| && w.tasks[i].phase.Settled? && k < |w.tasks|
    ensures Holds(DoResolve(u, w, i), DoResolve(u, w, i).tasks[k])
  {
    assert Holds(w, w.tasks[k]);
  }

  lemma HoldsRows(u: Setup, w: World, step: Step, k: nat)
    requires Exclusive(w) && Sound(w) && Enabled(w, step) && !HitsCall(w, step) && k < |w.tasks|
    requires step.RequestWrites? || step.Overflow? || step.RecoveryRequeues? || step.Insert?
    ensures Holds(Apply(u, w, step), Apply(u, w, step).tasks[k])
  {
    assert Holds(w, w.tasks[k]);
    assert IsCalling(w, k) ==> CallFor(w, w.tasks[k].job);
    assert Apply(u, w, step).tasks == w.tasks;
  }

  lemma HoldsQuiet(u: Setup, w: World, step: Step, k: nat)
    requires CallsHold(w) && Enabled(w, step)
    requires step.Tick? || step.RequestWriteFails? || step.Enqueue? || step.RecoverySees? ||
             step.Begin? || step.ClaimRaises? || step.Settle? || step.Abandon?
    requires k < |Apply(u, w, step).tasks|
    ensures Holds(Apply(u, w, step), Apply(u, w, step).tasks[k])
  {
    var w' := Apply(u, w, step);
    assert w'.rows == w.rows;
    if k < |w.tasks| {
      assert Holds(w, w.tasks[k]);
      assert w'.tasks[k] == w.tasks[k] || !w'.tasks[k].phase.Calling?;
    }
  }

  lemma HoldsStep(u: Setup, w: World, step: Step, k: nat)
    requires Exclusive(w) && Sound(w) && WithinLease(w) && Enabled(w, step) && !HitsCall(w, step)
    requires k < |Apply(u, w, step).tasks|
    ensures Holds(Apply(u, w, step), Apply(u, w, step).tasks[k])
  {
    match step
    case Claim(i, owner, now) => HoldsClaim(u, w, i, owner, now, k);
    case Resolve(i) => HoldsResolve(u, w, i, k);
    case RequestWrites(_, _) => HoldsRows(u, w, step, k);
    case Overflow(_) => HoldsRows(u, w, step, k);
    case RecoveryRequeues(_, _) => HoldsRows(u, w, step, k);
    case Insert(_) => HoldsRows(u, w, step, k);
    case _ => HoldsQuiet(u, w, step, k);
  }

  /** A recovery update keeps every call in possession of its row exactly when it hits no call. */
  lemma RequeueExact(w: World, job: JobId, status: Status)
    requires Exclusive(w)
    ensures Exclusive(DoRequeue(w, job, status)) <==> !HitsCall(w, RecoveryRequeues(job, status))
  {
    var w' := DoRequeue(w, job, status);
    assert w'.tasks == w.tasks && w'.owners == w.owners;
    if HitsCall(w, RecoveryRequeues(job, status)) {
      var i: nat :| IsCalling(w, i) && w.tasks[i].job == job;
      assert !Holds(w', w'.tasks[i]);
    } else {
      forall k | 0 <= k < |w.tasks| ensures Holds(w', w.tasks[k]) {
        assert Holds(w, w.tasks[k]);
        assert IsCalling(w, k) ==> CallFor(w, w.tasks[k].job);
      }
    }
  }

  lemma ExclusiveStep(u: Setup, w: World, step: Step)
    requires Exclusive(w) && Sound(w) && WithinLease(w) && Enabled(w, step)
    ensures Exclusive(Apply(u, w, step)) <==> !HitsCall(w, step)
  {
    if step.RecoveryRequeues? {
      RequeueExact(w, step.job, step.status);
    } else {
      forall k: nat | k < |Apply(u, w, step).tasks| ensures Holds(Apply(u, w, step), Apply(u, w, step).tasks[k]) {
        HoldsStep(u, w, step, k);
      }
      OwnersStep(u, w, step);
    }
  }

  /** All calls stay within their lease, in every state of the run. */
  ghost predicate Punctual(u: Setup, w: World, steps: seq<Step>)
    requires Legal(u, w, steps)
    decreases |steps|
  {
    WithinLease(w) && (steps != [] ==> Punctual(u, Apply(u, w, steps[0]), steps[1..]))
  }

  ghost predicate AlwaysExclusive(u: Setup, w: World, steps: seq<Step>)
    requires Legal(u, w, steps)
    decreases |steps|
  {
    Exclusive(w) && (steps != [] ==> AlwaysExclusive(u, Apply(u, w, steps[0]), steps[1..]))
  }

  ghost predicate NeverHits(u: Setup, w: World, steps: seq<Step>)
    requires Legal(u, w, steps)
    decreases |steps|
  {
    steps == [] || (!HitsCall(w, steps[0]) && NeverHits(u, Apply(u, w, steps[0]), steps[1..]))
  }

  /** With every adapter call settled within its lease: calls hold their rows throughout the run exactly
      when no recovery update hits a call in progress. */
  lemma {:induction false} ExclusiveExact(u: Setup, w: World, steps: seq<Step>)
    requires Exclusive(w) && Sound(w) && Legal(u, w, steps) && Punctual(u, w, steps)
    ensures AlwaysExclusive(u, w, steps) <==> NeverHits(u, w, steps)
    decreases |steps|
  {
    if steps != [] {
      var next := Apply(u, w, steps[0]);
      ExclusiveStep(u, w, steps[0]);
      SoundStep(u, w, steps[0]);
      if Exclusive(next) { ExclusiveExact(u, next, steps[1..]); }
    }
  }

  /** The case recovery can check: if the lease is over when the update runs, it hits no call. */
  lemma AtomicHitsNothing(w: World, step: Step)
    requires Exclusive(w) && Sound(w) && WithinLease(w) && AtomicRecovery(w, step)
    ensures !HitsCall(w, step)
  {
    forall i: nat | IsCalling(w, i) ensures Holds(w, w.tasks[i]) && w.clock < w.tasks[i].phase.lease {}
  }

  lemma {:induction false} ExclusiveRun(u: Setup, w: World, steps: seq<Step>)
    requires Exclusive(w) && Sound(w) && Legal(u, w, steps) && Timely(u, w, steps)
    ensures Exclusive(Run(u, w, steps))
    decreases |steps|
  {
    if steps != [] {
      AtomicHitsNothing(w, steps[0]);
      ExclusiveStep(u, w, steps[0]);
      SoundStep(u, w, steps[0]);
      ExclusiveRun(u, Apply(u, w, steps[0]), steps[1..]);
    }
  }

  /** With unique owner tokens, a clock that does not run back, atomic recovery and every adapter call
      settled within its lease: at no time are two adapter calls for the same job in progress. */
  lemma LeaseExclusionHolds(u: Setup, steps: seq<Step>, i: nat, k: nat)
    requires Legal(u, Start, steps) && Timely(u, Start, steps)
    requires IsCalling(Run(u, Start, steps), i) && IsCalling(Run(u, Start, steps), k) && i != k
    ensures Run(u, Start, steps).tasks[i].job != Run(u, Start, steps).tasks[k].job
  {
    ExclusiveRun(u, Start, steps);
    OneCallPerJob(Run(u, Start, steps), i, k);
  }

  lemma OneCallPerJob(w: World, i: nat, k: nat)
    requires Exclusive(w) && IsCalling(w, i) && IsCalling(w, k) && i != k
    ensures w.tasks[i].job != w.tasks[k].job
  {
    assert Holds(w, w.tasks[i]) && Holds(w, w.tasks[k]);
  }

  // ---- An update that hits a call leads to two calls ----

  /** After the update: enqueue the job, let a worker take it, and claim it. */
  function SecondCall(w: World, job: JobId, status: Status, owner: Owner): seq<Step> {
    [RecoveryRequeues(job, status), Enqueue(job), Begin(|w.tasks|), Claim(|w.tasks|, owner, w.clock)]
  }

  lemma RequeuedState(u: Setup, w: World, job: JobId, status: Status) returns (w': World)
    requires WithinLease(w) && (job, status) in w.seen && job in w.rows && w.rows[job].status == status
    ensures w' == Apply(u, Apply(u, Apply(u, w, RecoveryRequeues(job, status)), Enqueue(job)), Begin(|w.tasks|))
    ensures WithinLease(w') && WithinLease(Apply(u, Apply(u, w, RecoveryRequeues(job, status)), Enqueue(job)))
    ensures WithinLease(Apply(u, w, RecoveryRequeues(job, status)))
    ensures job in Apply(u, w, RecoveryRequeues(job, status)).submitting
    ensures w'.tasks == w.tasks + [Task(job, 1, Ready, 0)] && w'.owners == w.owners && w'.clock == w.clock
    ensures job in w'.rows && w'.rows[job].status == Queued
  {
    var a := Apply(u, w, RecoveryRequeues(job, status));
    assert a.tasks == w.tasks && a.clock == w.clock && job in a.submitting;
    assert forall i: nat :: IsCalling(a, i) ==> IsCalling(w, i);
    var b := Apply(u, a, Enqueue(job));
    assert b.tasks == w.tasks + [Task(job, 1, InQueue, 0)];
    assert forall i: nat :: IsCalling(b, i) ==> IsCalling(w, i) && b.tasks[i] == w.tasks[i];
    w' := Apply(u, b, Begin(|w.tasks|));
    assert forall i: nat :: IsCalling(w', i) ==> IsCalling(w, i) && w'.tasks[i] == w.tasks[i];
  }

  lemma ClaimsQueued(u: Setup, w: World, n: nat, owner: Owner)
    requires WithinLease(w) && n < |w.tasks| && w.tasks[n].phase == Ready && owner !in w.owners
    requires w.tasks[n].job in w.rows && w.rows[w.tasks[n].job].status == Queued
    ensures var w' := Apply(u, w, Claim(n, owner, w.clock));
            && WithinLease(w') && IsCalling(w', n) && w'.tasks[n].job == w.tasks[n].job
            && forall i: nat :: i < |w.tasks| && i != n ==> w'.tasks[i] == w.tasks[i]
  {
    var w' := Apply(u, w, Claim(n, owner, w.clock));
    var row := Claimed(w.rows[w.tasks[n].job], owner, u.leaseMillis, w.clock);
    assert w'.tasks == w.tasks[n := w.tasks[n].(phase := Calling(owner, row.lease.value))];
    assert w'.clock == w.clock;
    forall i: nat | IsCalling(w', i) ensures w'.clock < w'.tasks[i].phase.lease {
      if i != n { assert IsCalling(w, i); }
    }
  }

  /** From every state in which a recovery update hits a call that is within its lease, the run goes on
      to two adapter calls for the job at once, all within their leases. */
  lemma HitBreaksExclusion(u: Setup, w: World, job: JobId, status: Status, i: nat, owner: Owner)
    requires WithinLease(w) && (job, status) in w.seen && job in w.rows && w.rows[job].status == status
    requires IsCalling(w, i) && w.tasks[i].job == job && owner !in w.owners
    ensures var steps := SecondCall(w, job, status, owner);
            && Legal(u, w, steps) && Punctual(u, w, steps)
            && var end := Run(u, w, steps);
               IsCalling(end, i) && IsCalling(end, |w.tasks|) && end.tasks[i].job == end.tasks[|w.tasks|].job == job
  {
    var c := RequeuedState(u, w, job, status);
    ClaimsQueued(u, c, |w.tasks|, owner);
    FourSteps(u, w, SecondCall(w, job, status, owner));
    assert c.tasks[i] == w.tasks[i];
  }

  /** Four enabled steps with every call within its lease are a punctual run. */
  lemma FourSteps(u: Setup, w: World, steps: seq<Step>)
    requires |steps| == 4 && Enabled(w, steps[0]) && WithinLease(w)
    requires var a := Apply(u, w, steps[0]);
             && Enabled(a, steps[1]) && WithinLease(a)
             && var b := Apply(u, a, steps[1]);
                && Enabled(b, steps[2]) && WithinLease(b)
                && var c := Apply(u, b, steps[2]);
                   Enabled(c, steps[3]) && WithinLease(c) && WithinLease(Apply(u, c, steps[3]))
    ensures Legal(u, w, steps) && Punctual(u, w, steps)
    ensures Run(u, w, steps)
            == Apply(u, Apply(u, Apply(u, Apply(u, w, steps[0]), steps[1]), steps[2]), steps[3])
  {
    var a := Apply(u, w, steps[0]);
    var b := Apply(u, a, steps[1]);
    LastStep(u, Apply(u, b, steps[2]), steps[3]);
    FirstStep(u, b, steps[2], [steps[3]]);
    FirstStep(u, a, steps[1], [steps[2]] + [steps[3]]);
    FirstStep(u, w, steps[0], [steps[1]] + ([steps[2]] + [steps[3]]));
    assert steps == [steps[0]] + ([steps[1]] + ([steps[2]] + [steps[3]]));
  }

  lemma LastStep(u: Setup, w: World, step: Step)
    requires Enabled(w, step) && WithinLease(w) && WithinLease(Apply(u, w, step))
    ensures Legal(u, w, [step]) && Punctual(u, w, [step]) && Run(u, w, [step]) == Apply(u, w, step)
  {
    assert [step][1..] == [];
  }

  lemma FirstStep(u: Setup, w: World, step: Step, rest: seq<Step>)
    requires Enabled(w, step) && WithinLease(w)
    requires Legal(u, Apply(u, w, step), rest) && Punctual(u, Apply(u, w, step), rest)
    ensures Legal(u, w, [step] + rest) && Punctual(u, w, [step] + rest)
    ensures Run(u, w, [step] + rest) == Run(u, Apply(u, w, step), rest)
  {
    assert ([step] + rest)[1..] == rest;
  }

  // ---- When two calls can come about ----

  /** Two adapter calls for one job are in progress. */
  ghost predicate TwoCalls(w: World) {
    exists i: nat, k: nat :: i != k && IsCalling(w, i) && IsCalling(w, k) && w.tasks[i].job == w.tasks[k].job
  }

  ghost predicate CanCollide(u: Setup, w: World) {
    exists steps :: Legal(u, w, steps) && Punctual(u, w, steps) && TwoCalls(Run(u, w, steps))
  }

  ghost predicate CanHit(u: Setup, w: World) {
    exists steps :: Legal(u, w, steps) && Punctual(u, w, steps) && !NeverHits(u, w, steps)
  }

  lemma FreshOwner(owners: set<Owner>) returns (owner: Owner)
    ensures owner !in owners && forall o :: o in owners ==> |o| < |owner|
  {
    if owners == {} {
      owner := "a";
    } else {
      var o :| o in owners;
      var longer := FreshOwner(owners - {o});
      owner := longer + o + "a";
      forall x | x in owners ensures |x| < |owner| {
        if x != o { assert x in owners - {o}; }
      }
    }
  }

  lemma {:induction false} EndsExclusive(u: Setup, w: World, steps: seq<Step>)
    requires Legal(u, w, steps) && AlwaysExclusive(u, w, steps)
    ensures Exclusive(Run(u, w, steps))
    decreases |steps|
  {
    if steps != [] { EndsExclusive(u, Apply(u, w, steps[0]), steps[1..]); }
  }

  lemma CollisionNeedsHit(u: Setup, w: World, steps: seq<Step>)
    requires Exclusive(w) && Sound(w) && Legal(u, w, steps) && Punctual(u, w, steps) && TwoCalls(Run(u, w, steps))
    ensures !NeverHits(u, w, steps)
  {
    ExclusiveExact(u, w, steps);
    var end := Run(u, w, steps);
    var i: nat, k: nat :| i != k && IsCalling(end, i) && IsCalling(end, k) && end.tasks[i].job == end.tasks[k].job;
    if Exclusive(end) { OneCallPerJob(end, i, k); }
    if AlwaysExclusive(u, w, steps) { EndsExclusive(u, w, steps); }
  }

  lemma HitNow(u: Setup, w: World, step: Step) returns (steps: seq<Step>)
    requires WithinLease(w) && Enabled(w, step) && HitsCall(w, step)
    ensures Legal(u, w, steps) && Punctual(u, w, steps) && TwoCalls(Run(u, w, steps))
  {
    var i: nat :| IsCalling(w, i) && w.tasks[i].job == step.job;
    var owner := FreshOwner(w.owners);
    HitBreaksExclusion(u, w, step.job, step.status, i, owner);
    steps := SecondCall(w, step.job, step.status, owner);
  }

  lemma {:induction false} HitLeadsToCollision(u: Setup, w: World, steps: seq<Step>) returns (other: seq<Step>)
    requires Legal(u, w, steps) && Punctual(u, w, steps) && !NeverHits(u, w, steps)
    ensures Legal(u, w, other) && Punctual(u, w, other) && TwoCalls(Run(u, w, other))
    decreases |steps|
  {
    if HitsCall(w, steps[0]) {
      other := HitNow(u, w, steps[0]);
    } else {
      var rest := HitLeadsToCollision(u, Apply(u, w, steps[0]), steps[1..]);
      FirstStep(u, w, steps[0], rest);
      other := [steps[0]] + rest;
    }
  }

  /** From a state in which calls hold their rows, some run within the leases leads to two adapter calls
      for one job exactly when in some run within the leases a recovery update hits a call. */
  lemma CollisionExact(u: Setup, w: World)
    requires Exclusive(w) && Sound(w)
    ensures CanCollide(u, w) <==> CanHit(u, w)
  {
    if CanCollide(u, w) {
      var steps :| Legal(u, w, steps) && Punctual(u, w, steps) && TwoCalls(Run(u, w, steps));
      CollisionNeedsHit(u, w, steps);
    }
    if CanHit(u, w) {
      var steps :| Legal(u, w, steps) && Punctual(u, w, steps) && !NeverHits(u, w, steps);
      var other := HitLeadsToCollision(u, w, steps);
    }
  }

  // ---- Recovery that lists and updates in two steps breaks it ----

  lemma {:induction false} Extend(u: Setup, w: World, a: seq<Step>, step: Step)
    requires Legal(u, w, a) && Punctual(u, w, a) && Enabled(Run(u, w, a), step)
    requires WithinLease(Apply(u, Run(u, w, a), step))
    ensures Legal(u, w, a + [step]) && Run(u, w, a + [step]) == Apply(u, Run(u, w, a), step)
    ensures Punctual(u, w, a + [step])
    decreases |a|
  {
    if a == [] {
      assert a + [step] == [step] && [step][1..] == [];
    } else {
      Extend(u, Apply(u, w, a[0]), a[1..], step);
      assert (a + [step])[1..] == a[1..] + [step];
    }
  }

  const SETUP: Setup := Setup(3, 10)

  ghost predicate Reaches(steps: seq<Step>, w: World) {
    Legal(SETUP, Start, steps) && Punctual(SETUP, Start, steps) && Run(SETUP, Start, steps) == w
  }

  lemma Go(steps: seq<Step>, w: World, step: Step, w': World) returns (longer: seq<Step>)
    requires Reaches(steps, w) && Enabled(w, step) && Apply(SETUP, w, step) == w' && WithinLease(w')
    ensures Reaches(longer, w')
  {
    Extend(SETUP, Start, steps, step);
    longer := steps + [step];
  }

  const QUEUED: Row := Row(Queued, None, None, None, 0, None, None, 0)
  const WAITING: Task := Task("j", 1, InQueue, 0)
  const W1: World := World(map["j" := QUEUED], 0, [], {}, {}, multiset{"j"}, multiset{}, [DidRequest("j", Queued)])
  const W2: World := W1.(tasks := [WAITING, WAITING], submitting := multiset{})

  lemma Submitted() returns (steps: seq<Step>)
    ensures Reaches(steps, W1)
  {
    var w0 := World(map["j" := NewRow(0)], 0, [], {}, {"j"}, multiset{}, multiset{}, []);
    assert Reaches([], Start);
    steps := Go([], Start, Insert("j"), w0);
    assert DoRequest(w0, "j", Queued).rows == W1.rows;
    steps := Go(steps, w0, RequestWrites("j", Queued), W1);
  }

  /** One job, submitted by its request and requeued by recovery. */
  lemma Requeued() returns (steps: seq<Step>)
    ensures Reaches(steps, W1.(submitting := multiset{"j", "j"}))
  {
    steps := Submitted();
    var w2 := W1.(seen := multiset{("j", Queued)});
    steps := Go(steps, W1, RecoverySees("j", 0), w2);
    assert DoRequeue(w2, "j", Queued).rows == W1.rows;
    steps := Go(steps, w2, RecoveryRequeues("j", Queued), W1.(submitting := multiset{"j", "j"}));
  }

  lemma TwoTasks() returns (steps: seq<Step>)
    ensures Reaches(steps, W2)
  {
    steps := Requeued();
    var w4 := W1.(tasks := [WAITING]);
    steps := Go(steps, W1.(submitting := multiset{"j", "j"}), Enqueue("j"), w4);
    steps := Go(steps, w4, Enqueue("j"), W2);
  }

  const HELD_A: Row := Row(Dispatching, Some("a"), Some(10), Some(0), 0, None, None, 0)
  const DONE: Task := Task("j", 1, Done, 0)
  const W3: World := W2.(rows := map["j" := HELD_A], clock := 20, tasks := [DONE, WAITING], owners := {"a"},
                         seen := multiset{("j", Dispatching)}, log := W1.log + [DidClaim("j", "a")])

  /** The first worker is lost after its call; its lease runs out and recovery lists the job. */
  lemma LostWorker() returns (steps: seq<Step>)
    ensures Reaches(steps, W3)
  {
    steps := TwoTasks();
    var w1 := W2.(tasks := [WAITING.(phase := Ready), WAITING]);
    steps := Go(steps, W2, Begin(0), w1);
    var w2 := W2.(rows := map["j" := HELD_A], tasks := [WAITING.(phase := Calling("a", 10)), WAITING], owners := {"a"},
                  log := W1.log + [DidClaim("j", "a")]);
    steps := Go(steps, w1, Claim(0, "a", 0), w2);
    steps := CallLost(steps, w2);
    var w4 := w2.(tasks := [DONE, WAITING]);
    var w5 := w4.(clock := 20);
    steps := Go(steps, w4, Tick(20), w5);
    steps := Go(steps, w5, RecoverySees("j", 20), W3);
  }

  lemma CallLost(steps: seq<Step>, w: World) returns (longer: seq<Step>)
    requires Reaches(steps, w) && w.tasks == [WAITING.(phase := Calling("a", 10)), WAITING]
    ensures Reaches(longer, w.(tasks := [DONE, WAITING]))
  {
    var o := Outcome(false, Failed);
    var w3 := w.(tasks := [WAITING.(phase := Settled("a", o)), WAITING]);
    longer := Go(steps, w, Settle(0, o), w3);
    longer := Go(longer, w3, Abandon(0), w.(tasks := [DONE, WAITING]));
  }

  const HELD_B: Row := Row(Dispatching, Some("b"), Some(30), Some(20), 0, None, None, 20)
  const BUSY: Task := WAITING.(phase := Calling("b", 30))
  const W4: World := W3.(rows := map["j" := HELD_B], tasks := [DONE, BUSY], owners := {"a", "b"},
                         log := W3.log + [DidClaim("j", "b")])

  /** The second worker claims the job and calls the adapter. */
  lemma SecondClaims() returns (steps: seq<Step>)
    ensures Reaches(steps, W4)
  {
    steps := LostWorker();
    var w1 := W3.(tasks := [DONE, WAITING.(phase := Ready)]);
    steps := Go(steps, W3, Begin(1), w1);
    steps := Go(steps, w1, Claim(1, "b", 20), W4);
  }

  lemma {:induction false} Concat(u: Setup, w: World, a: seq<Step>, b: seq<Step>)
    requires Legal(u, w, a) && Punctual(u, w, a) && Legal(u, Run(u, w, a), b) && Punctual(u, Run(u, w, a), b)
    ensures Legal(u, w, a + b) && Punctual(u, w, a + b) && Run(u, w, a + b) == Run(u, Run(u, w, a), b)
    decreases |a|
  {
    if a == [] {
      assert a + b == b;
    } else {
      Concat(u, Apply(u, w, a[0]), a[1..], b);
      assert (a + b)[1..] == a[1..] + b;
    }
  }

  /** Such a state is reachable: with every call within its lease, a recovery that lists a row and updates
      it later lets two adapter calls for one job run at once. */
  lemma RecoveryRaceBreaksExclusion() returns (steps: seq<Step>)
    ensures Legal(SETUP, Start, steps) && Punctual(SETUP, Start, steps)
    ensures var w := Run(SETUP, Start, steps);
            IsCalling(w, 1) && IsCalling(w, 2) && w.tasks[1].job == w.tasks[2].job
  {
    steps := SecondClaims();
    HitBreaksExclusion(SETUP, W4, "j", Dispatching, 1, "c");
    Concat(SETUP, Start, steps, SecondCall(W4, "j", Dispatching, "c"));
    steps := steps + SecondCall(W4, "j", Dispatching, "c");
  }
}
