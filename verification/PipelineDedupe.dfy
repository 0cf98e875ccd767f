/** What the dedupe window promises, under any interleaving and one admission at a time. */
module PipelineDedupe {
  import opened Common
  import opened Scheduler
  import opened Pipeline

  // ---- Eviction ----

  /** Eviction removes a record only when the record itself is older than the TTL. */
  lemma {:induction false} EvictKeeps(dedupe: map<EventId, int>, order: seq<(EventId, int)>, now: int, ttl: nat, k: EventId)
    ensures var d := Evict(dedupe, order, now, ttl).0;
            && (k in d ==> k in dedupe && d[k] == dedupe[k])
            && (k in dedupe && k !in d ==> now - dedupe[k] > ttl)
    decreases |order|
  {
    if order != [] && now - order[0].1 > ttl {
      var (key, at) := order[0];
      EvictKeeps(if key in dedupe && dedupe[key] == at then dedupe - {key} else dedupe, order[1..], now, ttl, k);
    }
  }

  ghost predicate Recorded(dedupe: map<EventId, int>, order: seq<(EventId, int)>) {
    forall k :: k in dedupe ==> (k, dedupe[k]) in order
  }

  predicate Sorted(order: seq<(EventId, int)>) {
    forall i, j :: 0 <= i <= j < |order| ==> order[i].1 <= order[j].1
  }

  /** On a sorted order eviction leaves exactly the records that are young enough. */
  lemma {:induction false} EvictSorted(dedupe: map<EventId, int>, order: seq<(EventId, int)>, now: int, ttl: nat)
    requires Recorded(dedupe, order) && Sorted(order)
    ensures var (d, o) := Evict(dedupe, order, now, ttl);
            && Recorded(d, o) && Sorted(o)
            && (forall x :: x in o ==> x in order && now - x.1 <= ttl)
    decreases |order|
  {
    if order != [] && now - order[0].1 > ttl {
      var (key, at) := order[0];
      var rest := if key in dedupe && dedupe[key] == at then dedupe - {key} else dedupe;
      forall k | k in rest ensures (k, rest[k]) in order[1..] {
        assert (k, dedupe[k]) in order && (k, dedupe[k]) != order[0];
      }
      EvictSorted(rest, order[1..], now, ttl);
    }
  }

  // ---- Any interleaving ----

  /** The time of the last accepted event with this id. */
  function LastAccept(accepts: seq<(EventId, int)>, k: EventId): Option<int> {
    if accepts == [] then None
    else if accepts[|accepts| - 1].0 == k then Some(accepts[|accepts| - 1].1)
    else LastAccept(accepts[..|accepts| - 1], k)
  }

  /** The window holds the last accept time of every id whose last accept is not over the TTL. */
  ghost predicate WindowAt(u: Setup, w: World, k: EventId) {
    var last := LastAccept(w.accepts, k);
    && (k in w.s.dedupe ==> last == Some(w.s.dedupe[k]))
    && (last.Some? && k !in w.s.dedupe ==> w.clock - last.value > u.config.ttl)
  }

  ghost predicate Window(u: Setup, w: World) { forall k :: WindowAt(u, w, k) }

  /** The capacity checks do not touch the window. */
  lemma AdmitKeepsWindow(c: Config, s: State, e: Event)
    ensures Admit(c, s, e).dedupe == s.dedupe && Admit(c, s, e).order == s.order
  {
    SlotKeepsWindow(c, OpenQueue(s, e.room), e.room);
  }

  lemma SlotKeepsWindow(c: Config, s: State, room: Room)
    ensures TakeSlot(c, s, room).dedupe == s.dedupe && TakeSlot(c, s, room).order == s.order
  {
  }

  lemma BeginWindow(u: Setup, w: World, e: Event, now: int, k: EventId)
    ensures var before, after := w.s.dedupe, Begin(u.config, w.s, e, now).dedupe;
            && (k in after ==> k in before && after[k] == before[k])
            && (k in before && k !in after ==> now - before[k] > u.config.ttl)
  {
    var t := Evicted(w.s, now, u.config.ttl);
    EvictKeeps(w.s.dedupe, w.s.order, now, u.config.ttl, k);
    AdmitKeepsWindow(u.config, t, e);
  }

  /** Steps other than the two lock regions of an admission leave the window alone. */
  lemma WindowFrame(u: Setup, w: World, step: Step)
    requires Enabled(w, step) && !step.BeginAdmission? && !step.CommitAdmission?
    ensures var w' := Apply(u, w, step);
            && w'.s.dedupe == w.s.dedupe && w'.s.order == w.s.order && w'.accepts == w.accepts
            && w.clock <= w'.clock
            && w'.inflight.Keys <= w.inflight.Keys
            && (forall n :: n in w'.inflight ==>
                  w'.inflight[n].event == w.inflight[n].event && w'.inflight[n].acceptedAt == w.inflight[n].acceptedAt)
  {
    if step.NextItem? { assert Pick(w.s).dedupe == w.s.dedupe && Pick(w.s).order == w.s.order; }
    if step.FinishRoom? { assert Finish(w.s, step.room).dedupe == w.s.dedupe; }
  }

  lemma CommitWindow(w: World, n: nat)
    requires n in w.inflight
    ensures var a, w' := w.inflight[n], DoCommit(w, n);
            && w'.s.dedupe == w.s.dedupe[a.event.id := a.acceptedAt]
            && w'.s.order == w.s.order + [(a.event.id, a.acceptedAt)]
            && w'.accepts == w.accepts + [(a.event.id, a.acceptedAt)]
            && w'.inflight == w.inflight - {n} && w'.clock == w.clock
  {
  }

  lemma WindowStep(u: Setup, w: World, step: Step, k: EventId)
    requires WindowAt(u, w, k) && Enabled(w, step)
    ensures WindowAt(u, Apply(u, w, step), k)
  {
    match step
    case BeginAdmission(e, now, _, _) => BeginWindow(u, w, e, now, k);
    case CommitAdmission(n) =>
      CommitWindow(w, n);
      var w' := DoCommit(w, n);
      assert w'.accepts[..|w'.accepts| - 1] == w.accepts;
    case _ => WindowFrame(u, w, step);
  }

  /** Under any interleaving no id leaves the window before the TTL of its last accept has passed. */
  lemma {:induction false} WindowRun(u: Setup, w: World, steps: seq<Step>)
    requires Window(u, w) && Legal(u, w, steps)
    ensures Window(u, Run(u, w, steps))
    decreases |steps|
  {
    if steps != [] {
      forall k ensures WindowAt(u, Apply(u, w, steps[0]), k) { WindowStep(u, w, steps[0], k); }
      WindowRun(u, Apply(u, w, steps[0]), steps[1..]);
    }
  }

  // ---- Exactly when an id leaves too early ----

  /** How many records eviction takes off the head of the line. */
  function Stale(order: seq<(EventId, int)>, now: int, ttl: nat): (n: nat)
    ensures n <= |order| && (n < |order| ==> now - order[n].1 <= ttl)
    ensures forall i :: 0 <= i < n ==> now - order[i].1 > ttl
  {
    if order == [] || now - order[0].1 <= ttl then 0 else 1 + Stale(order[1..], now, ttl)
  }

  /** Eviction removes exactly the ids whose current record is among those taken off. */
  lemma {:induction false} EvictExact(
      dedupe: map<EventId, int>, order: seq<(EventId, int)>, now: int, ttl: nat, k: EventId)
    ensures var (d, o) := Evict(dedupe, order, now, ttl);
            var n := Stale(order, now, ttl);
            && o == order[n..]
            && (k in d <==> k in dedupe && (k, dedupe[k]) !in order[..n])
    decreases |order|
  {
    if order != [] && now - order[0].1 > ttl {
      var (key, at) := order[0];
      var rest := if key in dedupe && dedupe[key] == at then dedupe - {key} else dedupe;
      EvictExact(rest, order[1..], now, ttl, k);
      var n := Stale(order, now, ttl);
      assert order[..n] == [order[0]] + order[1..][..n - 1];
      EvictKeeps(rest, order[1..], now, ttl, k);
    }
  }

  /** The line is the tail of what was accepted, and whatever was taken off it is over the TTL. */
  ghost predicate Tail(u: Setup, w: World) {
    && |w.s.order| <= |w.accepts|
    && w.accepts[|w.accepts| - |w.s.order|..] == w.s.order
    && (forall i :: 0 <= i < |w.accepts| - |w.s.order| ==> w.clock - w.accepts[i].1 > u.config.ttl)
  }

  lemma TailBegin(u: Setup, w: World, e: Event, now: int, backup: bool, checkpoint: bool)
    requires Tail(u, w) && now <= w.clock
    ensures Tail(u, DoBegin(u, w, e, now, backup, checkpoint))
  {
    EvictExact(w.s.dedupe, w.s.order, now, u.config.ttl, e.id);
    AdmitKeepsWindow(u.config, Evicted(w.s, now, u.config.ttl), e);
    var w' := DoBegin(u, w, e, now, backup, checkpoint);
    assert w'.s == Begin(u.config, w.s, e, now) && w'.accepts == w.accepts && w'.clock == w.clock;
    TailCut(u, w, w', now);
  }

  lemma TailCut(u: Setup, w: World, w': World, now: int)
    requires Tail(u, w) && now <= w.clock && w'.accepts == w.accepts && w'.clock == w.clock
    requires w'.s.order == w.s.order[Stale(w.s.order, now, u.config.ttl)..]
    ensures Tail(u, w')
  {
    var n, gone := Stale(w.s.order, now, u.config.ttl), |w.accepts| - |w.s.order|;
    SuffixCut(w.accepts, w.s.order, n);
    forall i | 0 <= i < gone + n ensures w.clock - w.accepts[i].1 > u.config.ttl {
      if gone <= i { assert w.accepts[i] == w.s.order[i - gone]; }
    }
  }

  lemma SuffixCut<T>(s: seq<T>, tail: seq<T>, n: nat)
    requires n <= |tail| <= |s| && s[|s| - |tail|..] == tail
    ensures s[|s| - |tail| + n..] == tail[n..]
    ensures forall i :: |s| - |tail| <= i < |s| ==> s[i] == tail[i - (|s| - |tail|)]
  {
    forall i | |s| - |tail| <= i < |s| ensures s[i] == tail[i - (|s| - |tail|)] {
      assert s[|s| - |tail|..][i - (|s| - |tail|)] == s[i];
    }
  }

  lemma TailCommit(u: Setup, w: World, n: nat)
    requires Tail(u, w) && n in w.inflight
    ensures Tail(u, DoCommit(w, n))
  {
    CommitWindow(w, n);
    var w', gone := DoCommit(w, n), |w.accepts| - |w.s.order|;
    assert w'.accepts[gone..] == w.accepts[gone..] + [w'.accepts[|w.accepts|]];
  }

  lemma TailStep(u: Setup, w: World, step: Step)
    requires Tail(u, w) && Enabled(w, step)
    ensures Tail(u, Apply(u, w, step))
  {
    match step
    case BeginAdmission(e, now, backup, checkpoint) => TailBegin(u, w, e, now, backup, checkpoint);
    case CommitAdmission(n) => TailCommit(u, w, n);
    case _ => WindowFrame(u, w, step);
  }

  /** Some accept of the id is at most the TTL ago. */
  ghost predicate Recent(u: Setup, w: World, k: EventId) {
    exists t :: (k, t) in w.accepts && w.clock - t <= u.config.ttl
  }

  /** The id's current record is in the expired head of the line, with a young record of the id behind it. */
  ghost predicate Forgets(u: Setup, w: World, now: int, k: EventId) {
    && k in w.s.dedupe
    && exists i, j :: 0 <= i < j < |w.s.order| && Hides(u, w, now, k, i, j)
  }

  predicate Hides(u: Setup, w: World, now: int, k: EventId, i: nat, j: nat)
    requires k in w.s.dedupe && i < j < |w.s.order|
  {
    && w.s.order[i] == (k, w.s.dedupe[k])
    && (forall h :: 0 <= h <= i ==> now - w.s.order[h].1 > u.config.ttl)
    && w.s.order[j].0 == k && w.clock - w.s.order[j].1 <= u.config.ttl
  }

  /** A young accept is still in the line, behind everything that eviction takes off. */
  lemma YoungInLine(u: Setup, w: World, now: int, k: EventId, t: int) returns (j: nat)
    requires Tail(u, w) && now <= w.clock && (k, t) in w.accepts && w.clock - t <= u.config.ttl
    ensures Stale(w.s.order, now, u.config.ttl) <= j < |w.s.order| && w.s.order[j] == (k, t)
  {
    var m :| 0 <= m < |w.accepts| && w.accepts[m] == (k, t);
    var gone := |w.accepts| - |w.s.order|;
    assert m >= gone;
    j := m - gone;
    assert w.accepts[gone..][j] == w.accepts[m];
  }

  lemma LineWasAccepted(u: Setup, w: World, j: nat)
    requires Tail(u, w) && j < |w.s.order|
    ensures w.s.order[j] in w.accepts
  {
    assert w.s.order[j] == w.accepts[|w.accepts| - |w.s.order| + j];
  }

  lemma HiddenIsDropped(u: Setup, w: World, now: int, k: EventId, i: nat, j: nat)
    requires Tail(u, w) && k in w.s.dedupe && i < j < |w.s.order| && Hides(u, w, now, k, i, j)
    ensures (k, w.s.dedupe[k]) in w.s.order[..Stale(w.s.order, now, u.config.ttl)] && Recent(u, w, k)
  {
    LineWasAccepted(u, w, j);
    assert (k, w.s.order[j].1) in w.accepts;
    var n := Stale(w.s.order, now, u.config.ttl);
    assert i < n && w.s.order[..n][i] == (k, w.s.dedupe[k]);
  }

  lemma DroppedIsHidden(u: Setup, w: World, now: int, k: EventId)
    requires Tail(u, w) && now <= w.clock && k in w.s.dedupe && Recent(u, w, k)
    requires (k, w.s.dedupe[k]) in w.s.order[..Stale(w.s.order, now, u.config.ttl)]
    ensures Forgets(u, w, now, k)
  {
    var n := Stale(w.s.order, now, u.config.ttl);
    var t :| (k, t) in w.accepts && w.clock - t <= u.config.ttl;
    var j := YoungInLine(u, w, now, k, t);
    var i :| 0 <= i < n && w.s.order[..n][i] == (k, w.s.dedupe[k]);
    assert Hides(u, w, now, k, i, j);
  }

  /** An admission evicts an id that was accepted within the TTL exactly when the line hides it. */
  lemma ForgetsExact(u: Setup, w: World, e: Event, now: int, k: EventId)
    requires Tail(u, w) && now <= w.clock && k in w.s.dedupe
    ensures Forgets(u, w, now, k) <==> k !in Begin(u.config, w.s, e, now).dedupe && Recent(u, w, k)
  {
    BeginDrops(u, w, e, now, k);
    if Forgets(u, w, now, k) {
      var i, j :| 0 <= i < j < |w.s.order| && Hides(u, w, now, k, i, j);
      HiddenIsDropped(u, w, now, k, i, j);
    }
    if k !in Begin(u.config, w.s, e, now).dedupe && Recent(u, w, k) { DroppedIsHidden(u, w, now, k); }
  }

  lemma BeginDrops(u: Setup, w: World, e: Event, now: int, k: EventId)
    requires k in w.s.dedupe
    ensures k !in Begin(u.config, w.s, e, now).dedupe
            <==> (k, w.s.dedupe[k]) in w.s.order[..Stale(w.s.order, now, u.config.ttl)]
  {
    EvictExact(w.s.dedupe, w.s.order, now, u.config.ttl, k);
    AdmitKeepsWindow(u.config, Evicted(w.s, now, u.config.ttl), e);
  }

  /** Such a line needs three accepts of the id out of clock order: an old one, a young one, and the old
      time again. */
  lemma ForgetsNeedsThree(u: Setup, w: World, now: int, k: EventId) returns (i: nat, j: nat, l: nat)
    requires Tail(u, w) && WindowAt(u, w, k) && now <= w.clock && Forgets(u, w, now, k)
    ensures i < j < l < |w.s.order|
    ensures w.s.order[i] == w.s.order[l] && w.s.order[i].0 == w.s.order[j].0 == k && w.s.order[i].1 < w.s.order[j].1
  {
    i, j :| 0 <= i < j < |w.s.order| && Hides(u, w, now, k, i, j);
    HidesOlder(u, w, now, k, i, j);
    l := LastInLine(u, w, k, j);
  }

  lemma HidesOlder(u: Setup, w: World, now: int, k: EventId, i: nat, j: nat)
    requires now <= w.clock && k in w.s.dedupe && i < j < |w.s.order| && Hides(u, w, now, k, i, j)
    ensures w.s.order[i] == (k, w.s.dedupe[k]) && w.s.order[j].0 == k && w.s.order[i].1 < w.s.order[j].1
  {
    assert now - w.s.order[i].1 > u.config.ttl;
  }

  /** The last record of an id in the line is its current one. */
  lemma LastInLine(u: Setup, w: World, k: EventId, j: nat) returns (l: nat)
    requires Tail(u, w) && WindowAt(u, w, k) && k in w.s.dedupe && j < |w.s.order| && w.s.order[j].0 == k
    ensures j <= l < |w.s.order| && w.s.order[l] == (k, w.s.dedupe[k])
  {
    var gone := |w.accepts| - |w.s.order|;
    assert w.accepts[gone..][j] == w.accepts[gone + j];
    var m := LastIs(w.accepts, k, gone + j);
    l := m - gone;
    assert w.accepts[gone..][l] == w.accepts[m];
  }

  lemma {:induction false} LastIs(accepts: seq<(EventId, int)>, k: EventId, j: nat) returns (m: nat)
    requires j < |accepts| && accepts[j].0 == k
    ensures j <= m < |accepts| && LastAccept(accepts, k) == Some(accepts[m].1) && accepts[m].0 == k
  {
    m := |accepts| - 1;
    if accepts[m].0 != k { m := LastIs(accepts[..m], k, j); }
  }

  // ---- The same over runs ----

  /** Every id accepted within the TTL is in the window. */
  ghost predicate Kept(u: Setup, w: World) {
    forall k, t :: (k, t) in w.accepts && w.clock - t <= u.config.ttl ==> k in w.s.dedupe
  }

  ghost predicate AlwaysKept(u: Setup, w: World, steps: seq<Step>)
    requires Legal(u, w, steps)
    decreases |steps|
  {
    Kept(u, w) && (steps != [] ==> AlwaysKept(u, Apply(u, w, steps[0]), steps[1..]))
  }

  /** No admission of the run starts on a line that hides a young id. */
  ghost predicate NeverForgets(u: Setup, w: World, steps: seq<Step>)
    requires Legal(u, w, steps)
    decreases |steps|
  {
    steps == [] ||
    ((steps[0].BeginAdmission? ==> forall k :: !Forgets(u, w, steps[0].now, k)) &&
     NeverForgets(u, Apply(u, w, steps[0]), steps[1..]))
  }

  lemma KeptBegin(u: Setup, w: World, e: Event, now: int, backup: bool, checkpoint: bool)
    requires Tail(u, w) && Kept(u, w) && now <= w.clock
    ensures Kept(u, DoBegin(u, w, e, now, backup, checkpoint)) <==> forall k :: !Forgets(u, w, now, k)
  {
    var w' := DoBegin(u, w, e, now, backup, checkpoint);
    assert w'.s == Begin(u.config, w.s, e, now) && w'.accepts == w.accepts && w'.clock == w.clock;
    if k :| Forgets(u, w, now, k) {
      ForgetsExact(u, w, e, now, k);
      var t :| (k, t) in w.accepts && w.clock - t <= u.config.ttl;
      assert (k, t) in w'.accepts && k !in w'.s.dedupe;
    } else {
      forall k, t | (k, t) in w.accepts && w.clock - t <= u.config.ttl ensures k in w'.s.dedupe {
        assert Recent(u, w, k);
        ForgetsExact(u, w, e, now, k);
      }
    }
  }

  /** Only an admission's first lock region can lose a young id. */
  lemma KeptStep(u: Setup, w: World, step: Step)
    requires Tail(u, w) && Kept(u, w) && Enabled(w, step)
    ensures Kept(u, Apply(u, w, step))
            <==> (step.BeginAdmission? ==> forall k :: !Forgets(u, w, step.now, k))
  {
    match step
    case BeginAdmission(e, now, backup, checkpoint) => KeptBegin(u, w, e, now, backup, checkpoint);
    case CommitAdmission(n) => CommitWindow(w, n);
    case _ => WindowFrame(u, w, step);
  }

  /** Under any interleaving: every id stays in the window for its whole TTL, in every state of the run,
      exactly when no admission starts on a line that hides a young id. */
  lemma {:induction false} KeptExact(u: Setup, w: World, steps: seq<Step>)
    requires Tail(u, w) && Kept(u, w) && Legal(u, w, steps)
    ensures AlwaysKept(u, w, steps) <==> NeverForgets(u, w, steps)
    decreases |steps|
  {
    if steps != [] {
      var next := Apply(u, w, steps[0]);
      TailStep(u, w, steps[0]);
      KeptStep(u, w, steps[0]);
      if Kept(u, next) { KeptExact(u, next, steps[1..]); }
    }
  }

  lemma KeptFromStart(u: Setup, steps: seq<Step>)
    requires Legal(u, Start, steps)
    ensures AlwaysKept(u, Start, steps) <==> NeverForgets(u, Start, steps)
  {
    KeptExact(u, Start, steps);
  }

  // ---- No two overlapping admissions of one id ----

  predicate NotInFlight(w: World, k: EventId) { forall n :: n in w.inflight ==> w.inflight[n].event.id != k }

  /** No call starts while another one with the same id is between its two lock regions. */
  predicate Separate(u: Setup, w: World, steps: seq<Step>)
    requires Legal(u, w, steps)
    decreases |steps|
  {
    steps == [] ||
    ((steps[0].BeginAdmission? ==> NotInFlight(w, steps[0].e.id)) && Separate(u, Apply(u, w, steps[0]), steps[1..]))
  }

  ghost predicate Expired(u: Setup, w: World, k: EventId) {
    forall t :: (k, t) in w.accepts ==> w.clock - t > u.config.ttl
  }

  /** Every accept is either the recorded one or over the TTL, and an id being admitted has only
      expired accepts behind it. */
  ghost predicate Protected(u: Setup, w: World) {
    && (forall k, t :: (k, t) in w.accepts ==>
          (k in w.s.dedupe && w.s.dedupe[k] == t) || w.clock - t > u.config.ttl)
    && (forall n :: n in w.inflight ==> Expired(u, w, w.inflight[n].event.id))
    && (forall m, n :: m in w.inflight && n in w.inflight && m != n ==>
          w.inflight[m].event.id != w.inflight[n].event.id)
  }

  lemma ProceedIsNew(u: Setup, w: World, e: Event, now: int)
    requires VerdictNow(u, w, e, now) != Duplicate
    ensures e.id !in Begin(u.config, w.s, e, now).dedupe
  {
    var t := Evicted(w.s, now, u.config.ttl);
    AdmitKeepsWindow(u.config, t, e);
  }

  lemma ProtectedBegin(u: Setup, w: World, e: Event, now: int, backup: bool, checkpoint: bool)
    requires Protected(u, w) && now <= w.clock && NotInFlight(w, e.id)
    ensures Protected(u, DoBegin(u, w, e, now, backup, checkpoint))
  {
    var w' := DoBegin(u, w, e, now, backup, checkpoint);
    assert w'.s == Begin(u.config, w.s, e, now) && w'.accepts == w.accepts && w'.clock == w.clock;
    forall k, t | (k, t) in w.accepts
      ensures (k in w'.s.dedupe && w'.s.dedupe[k] == t) || w.clock - t > u.config.ttl
    {
      BeginWindow(u, w, e, now, k);
    }
    if VerdictNow(u, w, e, now) == Proceed { ProceedIsNew(u, w, e, now); }
    forall n | n in w'.inflight ensures Expired(u, w', w'.inflight[n].event.id) {
      BeginInFlight(u, w, e, now, backup, checkpoint, n);
      if n in w.inflight { assert Expired(u, w, w.inflight[n].event.id); }
    }
  }

  lemma BeginInFlight(u: Setup, w: World, e: Event, now: int, backup: bool, checkpoint: bool, n: nat)
    requires n in DoBegin(u, w, e, now, backup, checkpoint).inflight
    ensures var a := DoBegin(u, w, e, now, backup, checkpoint).inflight[n];
            if n in w.inflight && n != w.nextTrace then a == w.inflight[n]
            else n in w.inflight || (a.event == e && VerdictNow(u, w, e, now) == Proceed)
  {
  }

  lemma ProtectedCommit(u: Setup, w: World, n: nat)
    requires Protected(u, w) && n in w.inflight
    ensures Protected(u, DoCommit(w, n))
  {
    CommitWindow(w, n);
    var a, w' := w.inflight[n], DoCommit(w, n);
    assert Expired(u, w, a.event.id);
    forall m | m in w'.inflight ensures Expired(u, w', w'.inflight[m].event.id) {
      assert Expired(u, w, w.inflight[m].event.id);
    }
  }

  lemma ProtectedStep(u: Setup, w: World, step: Step)
    requires Protected(u, w) && Enabled(w, step) && (step.BeginAdmission? ==> NotInFlight(w, step.e.id))
    ensures Protected(u, Apply(u, w, step))
  {
    match step
    case BeginAdmission(e, now, backup, checkpoint) => ProtectedBegin(u, w, e, now, backup, checkpoint);
    case CommitAdmission(n) => ProtectedCommit(u, w, n);
    case _ =>
      WindowFrame(u, w, step);
      var w' := Apply(u, w, step);
      forall n | n in w'.inflight ensures Expired(u, w', w'.inflight[n].event.id) {
        assert Expired(u, w, w.inflight[n].event.id);
      }
  }

  /** If admissions of one id never overlap, every accepted id stays in the window for its whole TTL. */
  lemma {:induction false} ProtectedRun(u: Setup, w: World, steps: seq<Step>)
    requires Protected(u, w) && Legal(u, w, steps) && Separate(u, w, steps)
    ensures Protected(u, Run(u, w, steps))
    decreases |steps|
  {
    if steps != [] {
      ProtectedStep(u, w, steps[0]);
      ProtectedRun(u, Apply(u, w, steps[0]), steps[1..]);
    }
  }

  lemma ProtectedHidesNothing(u: Setup, w: World, now: int, k: EventId)
    requires Protected(u, w) && Tail(u, w) && now <= w.clock
    ensures !Forgets(u, w, now, k)
  {
    forall j: nat | j < |w.s.order| ensures w.s.order[j] in w.accepts { LineWasAccepted(u, w, j); }
  }

  /** The checkable case: admissions of one id that never overlap hide nothing, so no id leaves early. */
  lemma {:induction false} SeparateNeverForgets(u: Setup, w: World, steps: seq<Step>)
    requires Protected(u, w) && Tail(u, w) && Legal(u, w, steps) && Separate(u, w, steps)
    ensures NeverForgets(u, w, steps) && AlwaysKept(u, w, steps)
    decreases |steps|
  {
    if steps != [] {
      if steps[0].BeginAdmission? {
        forall k ensures !Forgets(u, w, steps[0].now, k) { ProtectedHidesNothing(u, w, steps[0].now, k); }
      }
      ProtectedStep(u, w, steps[0]);
      TailStep(u, w, steps[0]);
      SeparateNeverForgets(u, Apply(u, w, steps[0]), steps[1..]);
    }
  }

  // ---- One admission at a time ----

  /** Each call reads the clock and starts while no other admission is in flight. */
  predicate Serial(u: Setup, w: World, steps: seq<Step>)
    requires Legal(u, w, steps)
    decreases |steps|
  {
    steps == [] ||
    ((steps[0].BeginAdmission? ==> w.inflight == map[] && steps[0].now == w.clock) &&
     Serial(u, Apply(u, w, steps[0]), steps[1..]))
  }

  ghost predicate InOrder(w: World) {
    && Recorded(w.s.dedupe, w.s.order) && Sorted(w.s.order)
    && (forall x :: x in w.s.order ==> x in w.accepts && x.1 <= w.clock)
    && (forall n, x :: n in w.inflight && x in w.s.order ==> x.1 <= w.inflight[n].acceptedAt)
    && (forall n :: n in w.inflight ==> w.inflight[n].acceptedAt <= w.clock)
    && (forall m, n :: m in w.inflight && n in w.inflight ==> m == n)
  }

  lemma InOrderBegin(u: Setup, w: World, e: Event, backup: bool, checkpoint: bool)
    requires InOrder(w) && w.inflight == map[]
    ensures InOrder(DoBegin(u, w, e, w.clock, backup, checkpoint))
  {
    EvictSorted(w.s.dedupe, w.s.order, w.clock, u.config.ttl);
    AdmitKeepsWindow(u.config, Evicted(w.s, w.clock, u.config.ttl), e);
    var w' := DoBegin(u, w, e, w.clock, backup, checkpoint);
    assert w'.s == Begin(u.config, w.s, e, w.clock);
    assert w'.accepts == w.accepts && w'.clock == w.clock;
    assert w'.inflight.Keys <= {w.nextTrace};
    assert w.nextTrace in w'.inflight ==> w'.inflight[w.nextTrace].acceptedAt == w.clock;
  }

  lemma InOrderStep(u: Setup, w: World, step: Step)
    requires InOrder(w) && Enabled(w, step)
    requires step.BeginAdmission? ==> w.inflight == map[] && step.now == w.clock
    ensures InOrder(Apply(u, w, step))
  {
    match step
    case BeginAdmission(e, now, backup, checkpoint) => InOrderBegin(u, w, e, backup, checkpoint);
    case CommitAdmission(n) => CommitWindow(w, n);
    case _ => WindowFrame(u, w, step);
  }

  lemma {:induction false} SerialRun(u: Setup, w: World, steps: seq<Step>)
    requires InOrder(w) && Protected(u, w) && Legal(u, w, steps) && Serial(u, w, steps)
    ensures InOrder(Run(u, w, steps)) && Protected(u, Run(u, w, steps))
    decreases |steps|
  {
    if steps != [] {
      InOrderStep(u, w, steps[0]);
      ProtectedStep(u, w, steps[0]);
      SerialRun(u, Apply(u, w, steps[0]), steps[1..]);
    }
  }

  /** One admission at a time: an id is refused as a duplicate exactly when an event with that id was
      accepted at most the TTL ago. */
  lemma DedupeExact(u: Setup, steps: seq<Step>, e: Event)
    requires Legal(u, Start, steps) && Serial(u, Start, steps)
    ensures var w := Run(u, Start, steps);
            VerdictNow(u, w, e, w.clock) == Duplicate
            <==> exists t :: (e.id, t) in w.accepts && w.clock - t <= u.config.ttl
  {
    SerialRun(u, Start, steps);
    var w := Run(u, Start, steps);
    EvictSorted(w.s.dedupe, w.s.order, w.clock, u.config.ttl);
    EvictKeeps(w.s.dedupe, w.s.order, w.clock, u.config.ttl, e.id);
    var t := Evicted(w.s, w.clock, u.config.ttl);
    if e.id in t.dedupe {
      assert (e.id, t.dedupe[e.id]) in w.accepts;
    }
  }

  // ---- Overlapping admissions of one id can lose the window ----

  lemma {:induction false} Concat(u: Setup, w: World, a: seq<Step>, b: seq<Step>)
    requires Legal(u, w, a) && Legal(u, Run(u, w, a), b)
    ensures Legal(u, w, a + b) && Run(u, w, a + b) == Run(u, Run(u, w, a), b)
    decreases |a|
  {
    if a == [] {
      assert a + b == b;
    } else {
      Concat(u, Apply(u, w, a[0]), a[1..], b);
      assert (a + b)[1..] == a[1..] + b;
    }
  }

  lemma Extend(u: Setup, w: World, a: seq<Step>, step: Step)
    requires Legal(u, w, a) && Enabled(Run(u, w, a), step)
    ensures Legal(u, w, a + [step]) && Run(u, w, a + [step]) == Apply(u, Run(u, w, a), step)
  {
    assert Legal(u, Apply(u, Run(u, w, a), step), [step][1..]);
    Concat(u, w, a, [step]);
  }

  const RACE: Setup := Setup(Config(10, 10, 10, 10, RejectNew), 10)
  const X: Event := Event("x", "room")

  ghost predicate Untouched(w: World) {
    && w.s.dedupe == map[] && w.s.order == [] && w.accepts == [] && w.s.queuedTotal == 0
    && w.s.active == {} && w.s.queues.Keys <= {"room"} && At(w.s.queues, "room") == []
  }

  lemma RaceBegin(w: World)
    requires Untouched(w)
    ensures var w' := Apply(RACE, w, BeginAdmission(X, w.clock, false, false));
            && Untouched(w') && w'.clock == w.clock && w'.nextTrace == w.nextTrace + 1
            && w'.inflight == w.inflight[w.nextTrace := Admission(X, w.clock, false, false, BackedUp)]
  {
    assert Evicted(w.s, w.clock, 10) == w.s;
    SubsetSize(Partitions(w.s), {"room"});
    assert Judge(RACE.config, w.s, X) == Proceed;
    assert Begin(RACE.config, w.s, X, w.clock) == OpenQueue(w.s, "room");
  }

  /** One more admission of the id is in flight. */
  lemma OneMoreInFlight(steps: seq<Step>) returns (longer: seq<Step>)
    requires Legal(RACE, Start, steps) && Untouched(Run(RACE, Start, steps))
    ensures Legal(RACE, Start, longer)
    ensures var w, w' := Run(RACE, Start, steps), Run(RACE, Start, longer);
            && Untouched(w') && w'.clock == w.clock && w'.nextTrace == w.nextTrace + 1
            && w'.inflight == w.inflight[w.nextTrace := Admission(X, w.clock, false, false, BackedUp)]
  {
    var begin := BeginAdmission(X, Run(RACE, Start, steps).clock, false, false);
    RaceBegin(Run(RACE, Start, steps));
    Extend(RACE, Start, steps, begin);
    longer := steps + [begin];
  }

  lemma Later(steps: seq<Step>, to: int) returns (longer: seq<Step>)
    requires Legal(RACE, Start, steps) && Run(RACE, Start, steps).clock <= to
    ensures Legal(RACE, Start, longer) && Run(RACE, Start, longer) == Run(RACE, Start, steps).(clock := to)
  {
    Extend(RACE, Start, steps, Tick(to));
    longer := steps + [Tick(to)];
  }

  /** Three admissions of one id are in flight: two read the clock at 5, one at 9. */
  lemma ThreeInFlight() returns (steps: seq<Step>)
    ensures Legal(RACE, Start, steps)
    ensures var w := Run(RACE, Start, steps);
            && Untouched(w) && w.clock == 9 && w.inflight.Keys == {0, 1, 2}
            && w.inflight[0] == w.inflight[1] == Admission(X, 5, false, false, BackedUp)
            && w.inflight[2] == Admission(X, 9, false, false, BackedUp)
  {
    assert Legal(RACE, Start, []);
    steps := Later([], 5);
    steps := OneMoreInFlight(steps);
    steps := OneMoreInFlight(steps);
    steps := Later(steps, 9);
    steps := OneMoreInFlight(steps);
  }

  lemma CommitExtends(steps: seq<Step>, n: nat) returns (longer: seq<Step>)
    requires Legal(RACE, Start, steps)
    requires var w := Run(RACE, Start, steps); n in w.inflight && w.inflight[n].phase == BackedUp
    ensures Legal(RACE, Start, longer)
    ensures var w, w' := Run(RACE, Start, steps), Run(RACE, Start, longer);
            var a := w.inflight[n];
            && w'.s.dedupe == w.s.dedupe[a.event.id := a.acceptedAt]
            && w'.s.order == w.s.order + [(a.event.id, a.acceptedAt)]
            && w'.accepts == w.accepts + [(a.event.id, a.acceptedAt)]
            && w'.inflight == w.inflight - {n} && w'.clock == w.clock
  {
    Extend(RACE, Start, steps, CommitAdmission(n));
    longer := steps + [CommitAdmission(n)];
    CommitWindow(Run(RACE, Start, steps), n);
  }

  lemma RaceEvict(w: World, e: Event)
    requires w.s.order == [("x", 5), ("x", 9), ("x", 5)] && w.s.dedupe == map["x" := 5] && w.clock == 16
    ensures "x" !in Begin(RACE.config, w.s, e, 16).dedupe
  {
    assert Evict(w.s.dedupe, w.s.order, 16, 10) == Evict(map["x" := 5] - {"x"}, w.s.order[1..], 16, 10);
    AdmitKeepsWindow(RACE.config, Evicted(w.s, 16, 10), e);
  }

  /** Three overlapping admissions of one id, committed out of clock order: the id leaves the window
      although it was accepted only 7 ms ago and the TTL is 10 ms. */
  lemma OverlapLosesWindow() returns (steps: seq<Step>)
    ensures Legal(RACE, Start, steps)
    ensures var w := Run(RACE, Start, steps);
            ("x", 9) in w.accepts && w.clock - 9 <= RACE.config.ttl && "x" !in w.s.dedupe
  {
    steps := ThreeInFlight();
    steps := CommitExtends(steps, 0);
    steps := CommitExtends(steps, 2);
    steps := CommitExtends(steps, 1);
    steps := Later(steps, 16);
    var w := Run(RACE, Start, steps);
    var late := BeginAdmission(Event("y", "room"), 16, false, false);
    RaceEvict(w, Event("y", "room"));
    Extend(RACE, Start, steps, late);
    steps := steps + [late];
    assert Run(RACE, Start, steps).accepts == w.accepts;
    assert w.accepts[1] == ("x", 9);
  }
}
