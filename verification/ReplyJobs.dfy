/** Reply-job rows and the guarded updates of the reply_jobs table (app/repositories/reply_jobs.py). */
module ReplyJobs {
  import opened Common

  type JobId = string
  type Owner = string

  datatype Status =
    | Pending | Queued | Dispatching | Retrying
    | Sent | Failed | TokenExpired | HandleExpired | Duplicate

  predicate Terminal(s: Status) { s in {Sent, Failed, TokenExpired, HandleExpired, Duplicate} }

  predicate Waiting(s: Status) { s in {Pending, Queued, Retrying} }

  /** Statuses whose plain update counts as an attempt. */
  predicate CountsAttempt(s: Status) { s in {Retrying, Sent, Failed, TokenExpired, HandleExpired} }

  datatype Row = Row(
    status: Status, owner: Option<Owner>, lease: Option<int>, startedAt: Option<int>,
    attempts: nat, error: Option<string>, sentAt: Option<int>, updatedAt: int)

  function NewRow(now: int): Row { Row(Pending, None, None, None, 0, None, None, now) }

  // ---- Guards ----

  predicate Claimable(r: Row, now: int) {
    Waiting(r.status) || (r.status == Dispatching && r.lease.Some? && r.lease.value <= now)
  }

  predicate Owns(r: Row, owner: Owner) { r.status == Dispatching && r.owner == Some(owner) }

  /** What the recovery listing selects. */
  predicate Recoverable(r: Row, cutoff: int) {
    || Waiting(r.status)
    || (r.status == Dispatching && (if r.lease.Some? then r.lease.value <= cutoff else r.updatedAt <= cutoff))
  }

  // ---- Updates ----

  function Claimed(r: Row, owner: Owner, leaseMillis: int, now: int): Row {
    r.(status := Dispatching, owner := Some(owner), lease := Some(now + Max(leaseMillis, 1)),
       startedAt := Some(now), updatedAt := now)
  }

  function Released(r: Row, status: Status, error: Option<string>, now: int): Row {
    r.(status := status, owner := None, lease := None, error := error, updatedAt := now)
  }

  function Retried(r: Row, error: Option<string>, now: int): Row {
    Released(r, Retrying, error, now).(attempts := r.attempts + 1)
  }

  /** A completion with a status that is not terminal is stored as a failure. */
  function TerminalOf(s: Status): Status { if Terminal(s) then s else Failed }

  function Completed(r: Row, status: Status, error: Option<string>, now: int): Row {
    var final := TerminalOf(status);
    Released(r, final, error, now).(
      attempts := r.attempts + 1, sentAt := if final == Sent then Some(now) else None)
  }

  /** The plain update. Moving to DISPATCHING keeps owner and lease, every other status clears them. */
  function Updated(r: Row, status: Status, error: Option<string>, now: int): Row {
    var base := if status == Dispatching then r.(status := status, error := error, updatedAt := now)
                else Released(r, status, error, now);
    base.(attempts := if CountsAttempt(status) then r.attempts + 1 else r.attempts,
          sentAt := if status == Sent then Some(now) else None)
  }

  /** Owner and lease are set exactly while DISPATCHING, the send time exactly when SENT. */
  predicate WellFormed(r: Row) {
    && (r.owner.Some? <==> r.status == Dispatching)
    && (r.lease.Some? <==> r.status == Dispatching)
    && (r.sentAt.Some? <==> r.status == Sent)
  }

  /** A claimed job can be claimed again, or be found by recovery, exactly from its lease's end on; the
      lease lasts at least one millisecond. */
  lemma ClaimedUntil(r: Row, owner: Owner, leaseMillis: int, now: int, t: int)
    ensures var c := Claimed(r, owner, leaseMillis, now);
            && Owns(c, owner)
            && (Claimable(c, t) <==> t >= now + Max(leaseMillis, 1))
            && (Recoverable(c, t) <==> Claimable(c, t))
            && !Claimable(c, now)
  {
  }

  /** Every status is exactly one of: waiting for a worker, held by one, final. A waiting row can be claimed
      and listed by recovery at any time, a final one never, and one that is held from its lease's end on;
      recovery also lists a held row without a lease once it has not been updated since the cutoff. */
  lemma ClaimableExact(r: Row, now: int)
    ensures var waits := r.status in {Pending, Queued, Retrying};
            var ends := r.status in {Sent, Failed, TokenExpired, HandleExpired, Duplicate};
            && (Terminal(r.status) <==> ends) && (Waiting(r.status) <==> waits)
            && (waits || ends <==> r.status != Dispatching) && !(waits && ends)
            && (Claimable(r, now) <==> waits || (r.status == Dispatching && r.lease.Some? && r.lease.value <= now))
            && (Recoverable(r, now) <==>
                  || Claimable(r, now)
                  || (r.status == Dispatching && r.lease == None && r.updatedAt <= now))
  {
  }

  /** What the four updates have in common and where they differ: each writes its time; only a claim writes
      the start time and keeps the error; only a claim keeps the send time as it was, or a retry; every
      update but a claim writes the error it is given. */
  lemma UpdateColumns(r: Row, owner: Owner, leaseMillis: int, status: Status, error: Option<string>, now: int)
    ensures var rows := [Claimed(r, owner, leaseMillis, now), Retried(r, error, now), Completed(r, status, error, now),
                         Updated(r, status, error, now)];
            && (forall i :: 0 <= i < 4 ==> rows[i].updatedAt == now)
            && (forall i :: 0 <= i < 4 ==> rows[i].startedAt == if i == 0 then Some(now) else r.startedAt)
            && (forall i :: 0 <= i < 4 ==> rows[i].error == if i == 0 then r.error else error)
            && (forall i :: 0 <= i < 4 ==>
                  rows[i].attempts - r.attempts == match i
                  case 0 => 0
                  case 1 => 1
                  case 2 => 1
                  case _ => if status in {Retrying, Sent, Failed, TokenExpired, HandleExpired} then 1 else 0)
            && rows[0].status == Dispatching && rows[1].status == Retrying && rows[3].status == status
            && rows[2].status == (if status in {Sent, TokenExpired, HandleExpired, Duplicate} then status else Failed)
            && rows[0].sentAt == rows[1].sentAt == r.sentAt
            && rows[2].sentAt == rows[3].sentAt == (if status == Sent then Some(now) else None)
            && (forall i :: 1 <= i < 3 ==> rows[i].owner == None && rows[i].lease == None)
            && (if status == Dispatching then rows[3].owner == r.owner && rows[3].lease == r.lease
                else rows[3].owner == None && rows[3].lease == None)
  {
  }

  // ---- The table ----

  class ReplyJobTable {
    var rows: map<JobId, Row>
    var dedupeKeys: map<string, JobId>

    /** A dedupe key belongs to one stored job. */
    ghost predicate Valid()
      reads this
    {
      forall k :: k in dedupeKeys ==> dedupeKeys[k] in rows
    }

    constructor ()
      ensures Valid() && rows == map[] && dedupeKeys == map[]
    {
      rows, dedupeKeys := map[], map[];
    }

    /** Refused for a known job id and for a known dedupe key; a job without one is never a repeat. */
    method Insert(job: JobId, dedupeKey: Option<string>, now: int) returns (inserted: bool)
      requires Valid()
      modifies this
      ensures Valid()
      ensures inserted == (job !in old(rows) && (dedupeKey.Some? ==> dedupeKey.value !in old(dedupeKeys)))
      ensures rows == if inserted then old(rows)[job := NewRow(now)] else old(rows)
      ensures dedupeKeys == if inserted && dedupeKey.Some? then old(dedupeKeys)[dedupeKey.value := job] else old(dedupeKeys)
    {
      inserted := job !in rows && (dedupeKey.None? || dedupeKey.value !in dedupeKeys);
      if inserted {
        rows := rows[job := Row(Pending, None, None, None, 0, None, None, now)];
        if dedupeKey.Some? { dedupeKeys := dedupeKeys[dedupeKey.value := job]; }
      }
    }

    method Claim(job: JobId, owner: Owner, leaseMillis: int, now: int) returns (claimed: bool)
      modifies this`rows
      ensures claimed == (job in old(rows) && Claimable(old(rows)[job], now))
      ensures rows == if claimed then old(rows)[job := Claimed(old(rows)[job], owner, leaseMillis, now)] else old(rows)
    {
      var expires := now + Max(leaseMillis, 1);
      claimed := false;
      if job in rows {
        var r := rows[job];
        if r.status == Pending || r.status == Queued || r.status == Retrying ||
           (r.status == Dispatching && r.lease.Some? && r.lease.value <= now)
        {
          rows := rows[job := Row(Dispatching, Some(owner), Some(expires), Some(now), r.attempts, r.error, r.sentAt, now)];
          claimed := true;
        }
      }
    }

    method MarkRetrying(job: JobId, owner: Owner, error: Option<string>, now: int) returns (done: bool)
      modifies this`rows
      ensures done == (job in old(rows) && Owns(old(rows)[job], owner))
      ensures rows == if done then old(rows)[job := Retried(old(rows)[job], error, now)] else old(rows)
    {
      done := job in rows && rows[job].status == Dispatching && rows[job].owner == Some(owner);
      if done {
        var r := rows[job];
        rows := rows[job := Row(Retrying, None, None, r.startedAt, r.attempts + 1, error, r.sentAt, now)];
      }
    }

    method Complete(job: JobId, owner: Owner, status: Status, error: Option<string>, now: int) returns (done: bool)
      modifies this`rows
      ensures done == (job in old(rows) && Owns(old(rows)[job], owner))
      ensures rows == if done then old(rows)[job := Completed(old(rows)[job], status, error, now)] else old(rows)
    {
      var final := status;
      if !Terminal(status) { final := Failed; }
      var sentAt := if final == Sent then Some(now) else None;
      done := job in rows && rows[job].status == Dispatching && rows[job].owner == Some(owner);
      if done {
        var r := rows[job];
        rows := rows[job := Row(final, None, None, r.startedAt, r.attempts + 1, error, sentAt, now)];
      }
    }

    method UpdateIfStatus(job: JobId, expected: set<Status>, status: Status, error: Option<string>, now: int)
      returns (done: bool)
      modifies this`rows
      ensures done == (job in old(rows) && old(rows)[job].status in expected)
      ensures rows == if done then old(rows)[job := Updated(old(rows)[job], status, error, now)] else old(rows)
    {
      done := job in rows && rows[job].status in expected;
      if done {
        var r := rows[job];
        var attempts := if CountsAttempt(status) then r.attempts + 1 else r.attempts;
        var sentAt := if status == Sent then Some(now) else None;
        rows := if status == Dispatching
                then rows[job := Row(status, r.owner, r.lease, r.startedAt, attempts, error, sentAt, now)]
                else rows[job := Row(status, None, None, r.startedAt, attempts, error, sentAt, now)];
      }
    }
  }
}
