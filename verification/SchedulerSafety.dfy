/** What every lock region of the scheduler keeps. */
module SchedulerSafety {
  import opened Common
  import opened Scheduler

  /** The ready line is a repetition-free list of its set, no room is both waiting for a worker and
      held by one, and the two totals are exact. */
  ghost predicate Line(s: State) {
    && NoDup(s.ready)
    && s.readySet == Elems(s.ready)
    && s.readySet !! s.active
    && s.activeTotal == |s.active|
    && s.queuedTotal == TotalLength(s.queues)
  }

  /** No room with waiting events is forgotten. */
  ghost predicate NoLostRoom(s: State) {
    forall r :: r in s.queues && s.queues[r] != [] ==> r in s.readySet || r in s.active
  }

  ghost predicate Safe(s: State) { Line(s) && NoLostRoom(s) }

  // ---- The answer to an admission ----

  /** Which events go through and which refusal the others get, on the fields of the scheduler. A room that
      has a queue or a worker is never refused for the number of partitions, and a full room is refused only
      under the policy that rejects. */
  lemma VerdictExact(c: Config, s: State, e: Event)
    ensures var v := Judge(c, s, e);
            var repeated := e.id in s.dedupe;
            var crowded := e.room !in s.queues && e.room !in s.active && |s.queues.Keys + s.active| >= c.maxPartitions;
            var full := s.queuedTotal >= c.globalLimit;
            var roomFull := (if e.room in s.queues then |s.queues[e.room]| else 0) >= c.roomLimit && c.policy == RejectNew;
            && (v == Duplicate <==> repeated)
            && (v == PartitionLimit <==> !repeated && crowded)
            && (v == QueueFull <==> !repeated && !crowded && full)
            && (v == RoomFull <==> !repeated && !crowded && !full && roomFull)
            && (v == Proceed <==> !repeated && !crowded && !full && !roomFull)
  {
  }

  /** What the answer does: one counter goes up for a refusal, a room that got past the partition check has a
      queue, and only an event that goes through into a full room drops that room's oldest event. */
  lemma AdmitExact(c: Config, s: State, e: Event)
    ensures var v, t := Judge(c, s, e), Admit(c, s, e);
            var drops := v == Proceed && |At(s.queues, e.room)| >= c.roomLimit;
            && t.stats.duplicate == s.stats.duplicate + (if v == Duplicate then 1 else 0)
            && t.stats.rejected == s.stats.rejected + (if v in {PartitionLimit, QueueFull, RoomFull} then 1 else 0)
            && t.stats.dropped == s.stats.dropped + (if drops then 1 else 0)
            && t.stats.accepted == s.stats.accepted && t.stats.processed == s.stats.processed
            && t.stats.errors == s.stats.errors
            && t.queues == (if v == Duplicate || v == PartitionLimit then s.queues
                            else if drops then s.queues[e.room := s.queues[e.room][1..]]
                            else s.queues[e.room := At(s.queues, e.room)])
            && t.queuedTotal == s.queuedTotal - (if drops then 1 else 0)
            && t.ready == s.ready && t.readySet == s.readySet && t.active == s.active && t.activeTotal == s.activeTotal
            && t.dedupe == s.dedupe && t.order == s.order
  {
    SlotExact(c, OpenQueue(s, e.room), e.room);
  }

  lemma SlotExact(c: Config, s: State, room: Room)
    requires room in s.queues
    ensures var v, t := Capacity(c, s, room), TakeSlot(c, s, room);
            var drops := v == Proceed && |s.queues[room]| >= c.roomLimit;
            && (v == Proceed || v == QueueFull || v == RoomFull)
            && t == s.(stats := s.stats.(rejected := s.stats.rejected + (if v == Proceed then 0 else 1),
                                         dropped := s.stats.dropped + (if drops then 1 else 0)),
                       queues := if drops then s.queues[room := s.queues[room][1..]] else s.queues,
                       queuedTotal := s.queuedTotal - (if drops then 1 else 0))
  {
  }

  // ---- Safety ----

  lemma OpenKeepsSafe(s: State, room: Room)
    requires Safe(s)
    ensures Safe(OpenQueue(s, room))
  {
    TotalLengthUpdate(s.queues, room, At(s.queues, room));
  }

  lemma DropKeepsSafe(s: State, room: Room)
    requires Safe(s) && At(s.queues, room) != []
    ensures Safe(DropHead(s, room))
  {
    TotalLengthUpdate(s.queues, room, s.queues[room][1..]);
  }

  lemma TakeSlotKeepsSafe(c: Config, s: State, room: Room)
    requires Safe(s)
    ensures Safe(TakeSlot(c, s, room))
  {
    if Capacity(c, s, room) == Proceed && |At(s.queues, room)| >= c.roomLimit {
      DropKeepsSafe(s, room);
    }
  }

  lemma AdmitKeepsSafe(c: Config, s: State, e: Event)
    requires Safe(s)
    ensures Safe(Admit(c, s, e))
  {
    if Judge(c, s, e) != Duplicate && Judge(c, s, e) != PartitionLimit {
      OpenKeepsSafe(s, e.room);
      TakeSlotKeepsSafe(c, OpenQueue(s, e.room), e.room);
    }
  }

  lemma BeginKeepsSafe(c: Config, s: State, e: Event, now: int)
    requires Safe(s)
    ensures Safe(Begin(c, s, e, now))
  {
    AdmitKeepsSafe(c, Evicted(s, now, c.ttl), e);
  }

  lemma MarkKeepsLine(s: State, room: Room)
    requires Line(s)
    ensures Line(MarkReady(s, room))
    ensures room in MarkReady(s, room).readySet || room in s.active
  {
    if room !in s.active && room !in s.readySet {
      assert Elems(s.ready + [room]) == Elems(s.ready) + {room};
    }
  }

  lemma CommitKeepsSafe(s: State, v: Envelope)
    requires Safe(s)
    ensures Safe(Commit(s, v))
  {
    var room := v.event.room;
    TotalLengthUpdate(s.queues, room, At(s.queues, room) + [v]);
    var t := s.(queues := s.queues[room := At(s.queues, room) + [v]], queuedTotal := s.queuedTotal + 1);
    MarkKeepsLine(t, room);
  }

  lemma PickKeepsSafe(s: State)
    requires Safe(s) && s.ready != []
    ensures Safe(Pick(s))
    ensures s.ready[0] !in s.active
  {
    var room := s.ready[0];
    var q := At(s.queues, room);
    assert Elems(s.ready[1..]) == Elems(s.ready) - {room} by {
      forall x | x in s.ready && x != room ensures x in s.ready[1..] {
        var i :| 0 <= i < |s.ready| && s.ready[i] == x;
        assert s.ready[1..][i - 1] == x;
      }
    }
    assert room in s.readySet;
    if q != [] {
      TotalLengthUpdate(s.queues, room, q[1..]);
      if |q| == 1 {
        TotalLengthRemove(s.queues[room := q[1..]], room);
        assert s.queues[room := q[1..]] - {room} == s.queues - {room};
      }
    }
  }

  lemma FinishKeepsSafe(s: State, room: Room)
    requires Safe(s) && room in s.active
    ensures Safe(Finish(s, room))
  {
    var idle := s.(activeTotal := s.activeTotal - 1, active := s.active - {room});
    MarkKeepsLine(idle, room);
  }
}
