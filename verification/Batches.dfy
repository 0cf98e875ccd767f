/** Bulk-send batches and their counters (app/services/send_batch_service.py, app/repositories/send_batches.py). */
module Batches {
  import opened Common
  import ReplyJobs
  import Targets

  type Room = string
  type JobId = string
  type JobStatus = ReplyJobs.Status

  datatype ItemStatus = Queued | Sent | Failed | TokenExpired | HandleExpired | Skipped

  datatype BatchStatus = DryRun | Accepted | Running | Completed | Broken | Canceled

  predicate Final(s: BatchStatus) { s in {Completed, Broken, Canceled} }

  datatype Item = Item(room: Room, job: Option<JobId>, status: ItemStatus)

  datatype Counts = Counts(queued: nat, sent: nat, failed: nat, expired: nat, skipped: nat) {
    function Sum(): nat { queued + sent + failed + expired + skipped }
  }

  datatype Batch = Batch(
    status: BatchStatus, targetCount: nat, counts: Counts, completedAt: Option<int>, items: seq<Item>)

  /** The job table as it stands when the i-th listed item is looked at. */
  type JobReads = nat -> map<JobId, JobStatus>

  function ItemRooms(items: seq<Item>): seq<Room> { seq(|items|, i requires 0 <= i < |items| => items[i].room) }

  /** `_item_status_from_reply`: a job that is neither queued nor settled counts as skipped. */
  function FromReply(s: JobStatus): ItemStatus {
    match s
    case Sent => ItemStatus.Sent
    case Queued => ItemStatus.Queued
    case TokenExpired => ItemStatus.TokenExpired
    case HandleExpired => ItemStatus.HandleExpired
    case Failed => ItemStatus.Failed
    case Pending | Dispatching | Retrying | Duplicate => Skipped
  }

  /** The job the item names, if the table has it. */
  predicate HasJob(it: Item, jobs: map<JobId, JobStatus>) { it.job.Some? && it.job.value != "" && it.job.value in jobs }

  function Seen(it: Item, jobs: map<JobId, JobStatus>): ItemStatus {
    if HasJob(it, jobs) then FromReply(jobs[it.job.value]) else it.status
  }

  function Views(items: seq<Item>, jobs: JobReads): seq<ItemStatus> {
    seq(|items|, i requires 0 <= i < |items| => Seen(items[i], jobs(i)))
  }

  function Tally(v: seq<ItemStatus>): Counts {
    var m := multiset(v);
    Counts(m[ItemStatus.Queued], m[ItemStatus.Sent], m[ItemStatus.Failed],
           m[ItemStatus.TokenExpired] + m[HandleExpired], m[Skipped])
  }

  lemma TallyPush(v: seq<ItemStatus>, s: ItemStatus)
    ensures Tally(v + [s]) == AddOne(Tally(v), s)
  {
  }

  lemma TallyNext(v: seq<ItemStatus>, i: nat)
    requires i < |v|
    ensures Tally(v[..i + 1]) == AddOne(Tally(v[..i]), v[i])
  {
    assert v[..i + 1] == v[..i] + [v[i]];
    TallyPush(v[..i], v[i]);
  }

  function AddOne(c: Counts, s: ItemStatus): Counts {
    match s
    case Queued => c.(queued := c.queued + 1)
    case Sent => c.(sent := c.sent + 1)
    case Failed => c.(failed := c.failed + 1)
    case TokenExpired | HandleExpired => c.(expired := c.expired + 1)
    case Skipped => c.(skipped := c.skipped + 1)
  }

  /** Every status is counted exactly once. */
  lemma {:induction false} TallySum(v: seq<ItemStatus>)
    ensures Tally(v).Sum() == |v|
  {
    if v != [] {
      var init, last := v[..|v| - 1], v[|v| - 1];
      TallySum(init);
      assert v == init + [last];
      TallyPush(init, last);
      AddOneSum(Tally(init), last);
    }
  }

  lemma AddOneSum(c: Counts, s: ItemStatus)
    ensures AddOne(c, s).Sum() == c.Sum() + 1
  {
  }

  /** Listing with a limit of 10000 is clamped to 1000. */
  const ListCap := 1000

  function Listed(items: seq<Item>): seq<Item> { if |items| <= ListCap then items else items[..ListCap] }

  function NextStatus(current: BatchStatus, c: Counts, listed: nat): BatchStatus {
    if Final(current) then current
    else if c.skipped == listed && listed > 0 then Completed
    else if c.failed > 0 && c.sent == 0 && c.queued == 0 then Broken
    else if c.queued > 0 then Running
    else Completed
  }

  /** The row update that ends a refresh; `read` is the row as it was read at the beginning. */
  function WriteCounts(b: Batch, read: Batch, c: Counts, listed: nat, now: int): Batch {
    b.(status := NextStatus(read.status, c, listed), targetCount := read.targetCount, counts := c,
       completedAt := if read.status == Canceled then read.completedAt else if c.queued == 0 then Some(now) else None)
  }

  /** The first `n` items brought up to date with their jobs. */
  function Synced(items: seq<Item>, jobs: JobReads, n: nat): seq<Item> {
    seq(|items|, i requires 0 <= i < |items| =>
      if i < n then items[i].(status := Seen(items[i], jobs(i))) else items[i])
  }

  lemma SyncedNext(items: seq<Item>, jobs: JobReads, n: nat)
    requires n < |items|
    ensures Synced(items, jobs, n)[n] == items[n]
    ensures Synced(items, jobs, n + 1)
            == Synced(items, jobs, n)[n := items[n].(status := Seen(items[n], jobs(n)))]
  {
  }

  lemma SyncedKeepsRooms(items: seq<Item>, jobs: JobReads, n: nat)
    ensures ItemRooms(Synced(items, jobs, n)) == ItemRooms(items)
  {
  }

  function Refreshed(b: Batch, jobs: JobReads, now: int): Batch {
    WriteCounts(b.(items := Synced(b.items, jobs, ListCap)), b, Tally(Views(Listed(b.items), jobs)), |Listed(b.items)|, now)
  }

  /** The row update of a cancellation; `read` is the row as it was read at the beginning. */
  function WriteCancel(b: Batch, read: Batch, now: int): Batch {
    if Final(read.status) then b
    else b.(status := Canceled, targetCount := read.targetCount, counts := read.counts, completedAt := Some(now))
  }

  /** A cancellation taken whole, with the refresh that follows it. */
  function CanceledNow(b: Batch, jobs: JobReads, now: int, later: int): Batch {
    Refreshed(WriteCancel(b, b, now), jobs, later)
  }

  /** Insert, or on a known room replace in place. */
  function Upsert(items: seq<Item>, it: Item): seq<Item> {
    if items == [] then [it]
    else if items[0].room == it.room then [it] + items[1..]
    else [items[0]] + Upsert(items[1..], it)
  }

  lemma {:induction false} UpsertRooms(items: seq<Item>, it: Item)
    ensures it.room in ItemRooms(items) ==> ItemRooms(Upsert(items, it)) == ItemRooms(items)
    ensures it.room !in ItemRooms(items) ==> Upsert(items, it) == items + [it]
    ensures it.room !in ItemRooms(items) ==> ItemRooms(Upsert(items, it)) == ItemRooms(items) + [it.room]
  {
    if items != [] {
      var first, rest := items[0], items[1..];
      assert items == [first] + rest;
      assert ItemRooms(items) == [first.room] + ItemRooms(rest);
      if first.room == it.room {
        assert ItemRooms(items)[0] == it.room;
      } else {
        UpsertRooms(rest, it);
        assert ItemRooms([first] + Upsert(rest, it)) == [first.room] + ItemRooms(Upsert(rest, it));
      }
    }
  }

  /** The item of a known room is the new one, in the old place; every other item stays. */
  lemma {:induction false} UpsertItems(items: seq<Item>, it: Item)
    requires NoDup(ItemRooms(items))
    ensures |Upsert(items, it)| == |items| + (if it.room in ItemRooms(items) then 0 else 1)
    ensures forall i :: 0 <= i < |items| ==> Upsert(items, it)[i] == if items[i].room == it.room then it else items[i]
  {
    if items != [] {
      var first, rest := items[0], items[1..];
      RoomsSplit(items);
      UpsertItems(rest, it);
      var after := Upsert(items, it);
      forall i | 0 <= i < |items| ensures after[i] == if items[i].room == it.room then it else items[i] {
        if i > 0 { assert items[i] == rest[i - 1] && items[i].room == ItemRooms(rest)[i - 1]; }
      }
    }
  }

  lemma RoomsSplit(items: seq<Item>)
    requires items != []
    ensures ItemRooms(items) == [items[0].room] + ItemRooms(items[1..])
    ensures NoDup(ItemRooms(items)) ==> NoDup(ItemRooms(items[1..])) && items[0].room !in ItemRooms(items[1..])
  {
    assert ItemRooms(items[1..]) == ItemRooms(items)[1..];
    if NoDup(ItemRooms(items)) { NoDupTail(ItemRooms(items)); }
  }

  lemma UpsertUnique(items: seq<Item>, it: Item)
    requires NoDup(ItemRooms(items))
    ensures NoDup(ItemRooms(Upsert(items, it)))
  {
    UpsertRooms(items, it);
  }

  datatype Error = NotConfirmed | LimitExceeded

  /** What sending to one target answered. */
  datatype Reply = Reply(job: JobId, status: JobStatus)

  /** One row of send_batches together with its rows of send_batch_items in id order. */
  class SendBatch {
    var status: BatchStatus
    var targetCount: nat
    var counts: Counts
    var completedAt: Option<int>
    var items: seq<Item>

    ghost function View(): Batch reads this { Batch(status, targetCount, counts, completedAt, items) }

    ghost predicate Valid() reads this { NoDup(ItemRooms(items)) }

    constructor (status: BatchStatus, targets: nat, excluded: nat)
      requires !Final(status)
      ensures View() == Batch(status, targets + excluded, Counts(0, 0, 0, 0, excluded), None, [])
    {
      this.status, this.targetCount, this.completedAt, this.items := status, targets + excluded, None, [];
      this.counts := Counts(0, 0, 0, 0, excluded);
    }

    method InsertItem(it: Item)
      requires Valid()
      modifies this`items
      ensures Valid() && items == Upsert(old(items), it)
    {
      UpsertUnique(items, it);
      items := Upsert(items, it);
    }

    /** `UPDATE … WHERE room_key = ?`: rooms are unique, so one row changes. */
    method UpdateItemStatus(k: nat, status: ItemStatus)
      requires Valid() && k < |items|
      modifies this`items
      ensures items == old(items)[k := old(items)[k].(status := status)] && Valid()
    {
      var room := items[k].room;
      var before := items;
      items := seq(|before|, i requires 0 <= i < |before| =>
        if before[i].room == room then before[i].(status := status) else before[i]);
      assert forall i :: 0 <= i < |before| ==> ItemRooms(before)[i] == before[i].room;
      assert ItemRooms(items) == ItemRooms(before);
    }

    /** The loop of `_refresh_batch_counts`: bring each listed item up to date with its job and count it. */
    method SyncItems(jobs: JobReads) returns (c: Counts)
      requires Valid()
      modifies this`items
      ensures Valid() && items == Synced(old(items), jobs, ListCap)
      ensures c == Tally(Views(Listed(old(items)), jobs))
    {
      var rows := Listed(items);
      ghost var views := Views(rows, jobs);
      c := Counts(0, 0, 0, 0, 0);
      var i := 0;
      while i < |rows|
        invariant 0 <= i <= |rows| && Valid() && c == Tally(views[..i])
        invariant items == Synced(old(items), jobs, i)
      {
        SyncedNext(old(items), jobs, i);
        var seen := SyncItem(i, jobs(i));
        TallyNext(views, i);
        c := AddOne(c, seen);
        i := i + 1;
      }
      assert views[..i] == views;
      assert Synced(old(items), jobs, i) == Synced(old(items), jobs, ListCap);
    }

    method SyncItem(i: nat, jobs: map<JobId, JobStatus>) returns (seen: ItemStatus)
      requires Valid() && i < |items|
      modifies this`items
      ensures Valid() && seen == Seen(old(items)[i], jobs)
      ensures items == old(items)[i := old(items)[i].(status := seen)]
    {
      seen := items[i].status;
      if HasJob(items[i], jobs) {
        seen := FromReply(jobs[items[i].job.value]);
        if seen != items[i].status { UpdateItemStatus(i, seen); }
      }
    }

    method Refresh(jobs: JobReads, now: int)
      requires Valid()
      modifies this
      ensures Valid() && View() == Refreshed(old(View()), jobs, now)
    {
      var listed := |Listed(items)|;
      var c := SyncItems(jobs);
      completedAt := if status == Canceled then completedAt else if c.queued == 0 then Some(now) else None;
      if status !in {Canceled, Completed, Broken} {
        status := if c.queued > 0 then Running else Completed;
        if c.failed > 0 && c.sent == 0 && c.queued == 0 { status := Broken; }
        if c.skipped == listed && listed > 0 { status := Completed; }
      }
      counts := c;
    }

    method Cancel(jobs: JobReads, now: int, later: int)
      requires Valid()
      modifies this
      ensures Valid() && View() == CanceledNow(old(View()), jobs, now, later)
    {
      if status !in {Completed, Broken, Canceled} {
        status, completedAt := Canceled, Some(now);
      }
      Refresh(jobs, later);
    }

    /** `_dispatch_targets`: one item per target, in order, with the status its send answered. */
    method DispatchTargets(rooms: seq<Room>, replies: seq<Reply>) returns (c: Counts)
      requires items == [] && NoDup(rooms) && |replies| == |rooms|
      modifies this`items
      ensures Valid() && items == DispatchedItems(rooms, replies)
      ensures |items| == |rooms| && forall i :: 0 <= i < |rooms| ==>
                items[i].room == rooms[i] && items[i].job == Some(replies[i].job) && items[i].status == FromReply(replies[i].status)
      ensures c == Tally(Statuses(items)) && c.Sum() == |rooms|
    {
      ghost var all := DispatchedItems(rooms, replies);
      c := Counts(0, 0, 0, 0, 0);
      var i := 0;
      while i < |rooms|
        invariant 0 <= i <= |rooms| && Valid() && items == all[..i] && c == Tally(Statuses(items))
      {
        var it := Item(rooms[i], Some(replies[i].job), FromReply(replies[i].status));
        TallyPush(Statuses(items), it.status);
        FreshTarget(rooms, all, i);
        UpsertRooms(items, it);
        assert all[..i + 1] == items + [it] && Statuses(items + [it]) == Statuses(items) + [it.status];
        c := AddOne(c, it.status);
        InsertItem(it);
        i := i + 1;
      }
      assert all[..i] == all;
      TallySum(Statuses(items));
      DispatchedEach(rooms, replies);
    }

    /** `_persist_preview_items`: a dry run stores its targets as skipped, without jobs. */
    method PersistPreviewItems(rooms: seq<Room>)
      requires items == [] && NoDup(rooms)
      modifies this`items
      ensures Valid() && items == PreviewItems(rooms)
      ensures |items| == |rooms| && forall i :: 0 <= i < |rooms| ==> items[i] == Item(rooms[i], None, Skipped)
    {
      ghost var all := PreviewItems(rooms);
      var i := 0;
      while i < |rooms|
        invariant 0 <= i <= |rooms| && Valid() && items == all[..i]
      {
        FreshTarget(rooms, all, i);
        UpsertRooms(items, all[i]);
        InsertItem(Item(rooms[i], None, Skipped));
        assert all[..i + 1] == all[..i] + [all[i]];
        i := i + 1;
      }
      assert all[..i] == all;
    }
  }

  function Statuses(items: seq<Item>): seq<ItemStatus> {
    seq(|items|, i requires 0 <= i < |items| => items[i].status)
  }

  lemma FreshTarget(rooms: seq<Room>, all: seq<Item>, i: nat)
    requires NoDup(rooms) && ItemRooms(all) == rooms && i < |all|
    ensures all[i].room !in ItemRooms(all[..i])
  {
    assert ItemRooms(all[..i]) == rooms[..i] && all[i].room == rooms[i];
  }

  function DispatchedItems(rooms: seq<Room>, replies: seq<Reply>): (r: seq<Item>)
    requires |replies| == |rooms|
    ensures ItemRooms(r) == rooms
  {
    seq(|rooms|, i requires 0 <= i < |rooms| => Item(rooms[i], Some(replies[i].job), FromReply(replies[i].status)))
  }

  lemma DispatchedEach(rooms: seq<Room>, replies: seq<Reply>)
    requires |replies| == |rooms|
    ensures var items := DispatchedItems(rooms, replies);
            |items| == |rooms| && forall i :: 0 <= i < |rooms| ==>
              items[i].room == rooms[i] && items[i].job == Some(replies[i].job) && items[i].status == FromReply(replies[i].status)
  {
  }

  function PreviewItems(rooms: seq<Room>): (r: seq<Item>)
    ensures ItemRooms(r) == rooms
  {
    seq(|rooms|, i requires 0 <= i < |rooms| => Item(rooms[i], None, Skipped))
  }

  datatype Answer = Created(batch: SendBatch) | Refused(error: Error)

  method SumOf(m: map<string, nat>) returns (n: nat)
    ensures n == SumValues(m)
  {
    n := 0;
    var left := m;
    while left != map[]
      invariant n + SumValues(left) == SumValues(m)
      decreases |left|
    {
      var k :| k in left;
      SumValuesSplit(left, k);
      n, left := n + left[k], left - {k};
    }
  }

  /** A batch whose targets have all been sent to, before its first refresh. */
  ghost function Dispatched(res: Targets.Resolution, replies: seq<Reply>): Batch
    requires |replies| == |res.targets|
  {
    var excluded := SumValues(res.excluded);
    Batch(Accepted, |res.targets| + excluded, Counts(0, 0, 0, 0, excluded), None,
          DispatchedItems(Targets.Rooms(res.targets), replies))
  }

  /** The i-th item is for its own target and the job of its own send; a listed one shows how that job
      stands, if the table has it, and otherwise what the send answered. */
  ghost predicate ItemOf(it: Item, room: Room, reply: Reply, i: nat, jobs: JobReads) {
    && it.room == room && it.job == Some(reply.job)
    && it.status == FromReply(if i < ListCap && reply.job != "" && reply.job in jobs(i) then jobs(i)[reply.job] else reply.status)
  }

  /** `create_batch` on resolved targets. The new batch holds one item per target, its target count is
      targets plus exclusions, and its counters add up to the items that a listing shows. */
  method CreateBatch(
      res: Targets.Resolution, dryRun: bool, confirm: bool, replies: seq<Reply>, jobs: JobReads, now: int)
      returns (a: Answer)
    requires NoDup(Targets.Rooms(res.targets)) && |replies| == |res.targets|
    ensures a == Refused(NotConfirmed) <==> !dryRun && !confirm
    ensures a == Refused(LimitExceeded)
            <==> !dryRun && confirm && Targets.Exceeds(res)
    ensures a.Created? ==>
      && fresh(a.batch) && a.batch.Valid()
      && ItemRooms(a.batch.items) == Targets.Rooms(res.targets)
      && a.batch.targetCount == |res.targets| + SumValues(res.excluded)
      && a.batch.counts.Sum() == Min(|res.targets|, ListCap)
      && (dryRun ==> forall i :: 0 <= i < |res.targets| ==> a.batch.items[i] == Item(res.targets[i].room, None, Skipped))
      && (!dryRun ==> forall i :: 0 <= i < |res.targets| ==> ItemOf(a.batch.items[i], res.targets[i].room, replies[i], i, jobs))
      && (dryRun ==> a.batch.status == Completed && a.batch.counts.skipped == Min(|res.targets|, ListCap))
      && (!dryRun ==> a.batch.View() == Refreshed(Dispatched(res, replies), jobs, now))
  {
    if !dryRun && !confirm { return Refused(NotConfirmed); }
    if !dryRun && Targets.Exceeds(res) { return Refused(LimitExceeded); }
    var excluded := SumOf(res.excluded);
    var rooms := Targets.Rooms(res.targets);
    var b := new SendBatch(if dryRun then DryRun else Accepted, |res.targets|, excluded);
    if dryRun {
      b.PersistPreviewItems(rooms);
      PreviewTally(rooms, jobs);
    } else {
      var _ := b.DispatchTargets(rooms, replies);
    }
    SyncedKeepsRooms(b.items, jobs, ListCap);
    TallySum(Views(Listed(b.items), jobs));
    if !dryRun { CreatedItems(res, replies, jobs); } else { CreatedPreview(res, jobs); }
    b.Refresh(jobs, now);
    a := Created(b);
  }

  lemma CreatedItems(res: Targets.Resolution, replies: seq<Reply>, jobs: JobReads)
    requires |replies| == |res.targets|
    ensures var items := Synced(DispatchedItems(Targets.Rooms(res.targets), replies), jobs, ListCap);
            |items| == |res.targets| && forall i :: 0 <= i < |res.targets| ==> ItemOf(items[i], res.targets[i].room, replies[i], i, jobs)
  {
  }

  lemma CreatedPreview(res: Targets.Resolution, jobs: JobReads)
    ensures var items := Synced(PreviewItems(Targets.Rooms(res.targets)), jobs, ListCap);
            |items| == |res.targets| && forall i :: 0 <= i < |res.targets| ==> items[i] == Item(res.targets[i].room, None, Skipped)
  {
    var rooms := Targets.Rooms(res.targets);
    var items := Synced(PreviewItems(rooms), jobs, ListCap);
    forall i | 0 <= i < |rooms| ensures items[i] == Item(res.targets[i].room, None, Skipped) {
      var it := PreviewItems(rooms)[i];
      assert it == Item(rooms[i], None, Skipped) && rooms[i] == res.targets[i].room;
      assert !HasJob(it, jobs(i)) && it.(status := Seen(it, jobs(i))) == it;
    }
  }

  /** A batch for a filter. With a positive maximum it is never refused for its size: rooms that match
      beyond the listing's limit are left out without a trace, also of the target count. */
  method CreateFilterBatch(
      matching: seq<Targets.Row>, rule: Targets.Rule, maxTargets: int, dryRun: bool, confirm: bool, replies: seq<Reply>,
      jobs: JobReads, now: int)
      returns (a: Answer)
    requires NoDup(Targets.Rooms(matching))
    requires |replies| == |Targets.FilterResolution(matching, rule, maxTargets).targets|
    ensures maxTargets >= 1 ==> (a.Refused? <==> !dryRun && !confirm)
    ensures maxTargets >= 0 && a.Created? ==>
      && a.batch.targetCount == Min(|matching|, Targets.ListLimit(maxTargets))
      && (a.batch.targetCount == |matching| <==> |matching| <= Targets.ListLimit(maxTargets))
  {
    Targets.FilterExceedsExact(matching, rule, maxTargets);
    Targets.FilterTotal(matching, rule, maxTargets);
    var res := Targets.ResolveFilter(matching, rule, maxTargets);
    a := CreateBatch(res, dryRun, confirm, replies, jobs, now);
    assert a.Refused? ==> a.error.NotConfirmed? || a.error.LimitExceeded?;
  }

  lemma PreviewTally(rooms: seq<Room>, jobs: JobReads)
    ensures Tally(Views(Listed(PreviewItems(rooms)), jobs)) == Counts(0, 0, 0, 0, Min(|rooms|, ListCap))
  {
    var items := Listed(PreviewItems(rooms));
    assert forall i :: 0 <= i < |items| ==> items[i] == Item(rooms[i], None, Skipped);
    assert forall i :: 0 <= i < |items| ==> Views(items, jobs)[i] == Seen(items[i], jobs(i));
    AllSkipped(Views(Listed(PreviewItems(rooms)), jobs));
  }

  lemma {:induction false} AllSkipped(v: seq<ItemStatus>)
    requires forall i :: 0 <= i < |v| ==> v[i] == Skipped
    ensures Tally(v) == Counts(0, 0, 0, 0, |v|)
  {
    if v != [] {
      assert v == v[..|v| - 1] + [Skipped];
      AllSkipped(v[..|v| - 1]);
      TallyPush(v[..|v| - 1], Skipped);
    }
  }
}
