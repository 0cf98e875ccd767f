/** Reply slots reserved per bot, room and sender (app/chatbot/reply_rate_limiter.py). Times are exact reals. */
module RateLimiter {
  import opened Common

  type Key = string

  datatype Call = Call(bot: string, room: string, sender: Option<string>, intervalMillis: int, scope: string)

  /** What the key says after the bot: room and sender, with a star for "any". */
  function RoomPart(c: Call): string { if c.scope == "global" then "*" else c.room }

  function SenderPart(c: Call): string {
    if c.scope != "sender" then "*"
    else if c.sender == None || c.sender == Some("") then "_"
    else c.sender.value
  }

  function Join(bot: string, room: string, sender: string): Key { bot + "|" + room + "|" + sender }

  function KeyFor(c: Call): Key { Join(c.bot, RoomPart(c), SenderPart(c)) }

  // ---- Which calls share a slot line ----

  function Bars(s: string): nat {
    if s == [] then 0 else Bars(s[1..]) + (if s[0] == '|' then 1 else 0)
  }

  lemma {:induction false} BarsAdd(s: string, t: string)
    ensures Bars(s + t) == Bars(s) + Bars(t)
  {
    if s == [] {
      assert s + t == t;
    } else {
      BarsAdd(s[1..], t);
      assert (s + t)[1..] == s[1..] + t;
    }
  }

  lemma {:induction false} NoBars(s: string)
    ensures Bars(s) == 0 <==> '|' !in s
  {
    if s != [] {
      NoBars(s[1..]);
      assert s == [s[0]] + s[1..];
    }
  }

  lemma JoinBars(bot: string, room: string, sender: string)
    ensures Bars(Join(bot, room, sender)) == Bars(bot) + Bars(room) + Bars(sender) + 2
  {
    assert Bars("|") == 1 by { assert "|"[1..] == []; }
    BarsAdd(bot, "|");
    BarsAdd(bot + "|", room);
    BarsAdd(bot + "|" + room, "|");
    BarsAdd(bot + "|" + room + "|", sender);
  }

  /** Texts before the first bar are determined by the whole. */
  lemma BarSplits(a: string, b: string, x: string, y: string)
    requires '|' !in a && '|' !in b && a + "|" + x == b + "|" + y
    ensures a == b && x == y
  {
    var s, t := a + "|" + x, b + "|" + y;
    assert s[|a|] == '|' && t[|b|] == '|';
    assert |a| == |b| by {
      assert forall i :: 0 <= i < |a| ==> s[i] == a[i] && s[i] != '|';
      assert forall i :: 0 <= i < |b| ==> t[i] == b[i] && t[i] != '|';
    }
    assert s[..|a|] == a && t[..|b|] == b;
    assert s[|a| + 1..] == x && t[|b| + 1..] == y;
  }

  /** No bar in bot and room, and none in the sender but possibly as its last letter. */
  predicate BarFree(bot: string, room: string, sender: string)
    requires sender != ""
  {
    '|' !in bot && '|' !in room && '|' !in sender[..|sender| - 1]
  }

  lemma JoinInit(bot: string, room: string, sender: string)
    requires sender != ""
    ensures Join(bot, room, sender) == Join(bot, room, sender[..|sender| - 1]) + [sender[|sender| - 1]]
  {
  }

  lemma JoinSplits(bot: string, room: string, sender: string, bot': string, room': string, sender': string)
    requires '|' !in bot && '|' !in room && '|' !in bot' && '|' !in room'
    requires Join(bot, room, sender) == Join(bot', room', sender')
    ensures bot == bot' && room == room' && sender == sender'
  {
    assert Join(bot, room, sender) == bot + "|" + (room + "|" + sender);
    assert Join(bot', room', sender') == bot' + "|" + (room' + "|" + sender');
    BarSplits(bot, bot', room + "|" + sender, room' + "|" + sender');
    BarSplits(room, room', sender, sender');
  }

  /** A bar-free key has only one reading. */
  lemma JoinUnique(bot: string, room: string, sender: string, bot': string, room': string, sender': string)
    requires sender != "" && sender' != "" && BarFree(bot, room, sender)
    requires Join(bot, room, sender) == Join(bot', room', sender')
    ensures bot == bot' && room == room' && sender == sender'
  {
    var s, s' := sender[..|sender| - 1], sender'[..|sender'| - 1];
    JoinInit(bot, room, sender);
    JoinInit(bot', room', sender');
    var k, k' := Join(bot, room, sender), Join(bot', room', sender');
    assert Join(bot, room, s) == k[..|k| - 1] == k'[..|k'| - 1] == Join(bot', room', s');
    JoinBars(bot, room, s);
    JoinBars(bot', room', s');
    NoBars(bot);
    NoBars(room);
    NoBars(s);
    NoBars(bot');
    NoBars(room');
    JoinSplits(bot, room, sender, bot', room', sender');
  }

  /** Any other key has a second reading with another bot or another room; unless the sender itself holds
      the bar, the sender of that reading is the same. */
  lemma JoinAmbiguous(bot: string, room: string, sender: string) returns (bot': string, room': string, sender': string)
    requires sender != "" && !BarFree(bot, room, sender)
    ensures Join(bot', room', sender') == Join(bot, room, sender) && sender' != ""
    ensures bot' != bot || room' != room
    ensures '|' in bot || '|' in room ==> sender' == sender
  {
    if i :| 0 <= i < |bot| && bot[i] == '|' {
      bot', room', sender' := bot[..i], bot[i + 1..] + "|" + room, sender;
      assert bot == bot' + "|" + bot[i + 1..];
    } else if i :| 0 <= i < |room| && room[i] == '|' {
      bot', room', sender' := bot + "|" + room[..i], room[i + 1..], sender;
      assert room == room[..i] + "|" + room';
    } else {
      var i :| 0 <= i < |sender| - 1 && sender[i] == '|';
      bot', room', sender' := bot, room + "|" + sender[..i], sender[i + 1..];
      assert sender == sender[..i] + "|" + sender';
    }
  }

  predicate SameLine(c: Call, d: Call) { c.bot == d.bot && RoomPart(c) == RoomPart(d) && SenderPart(c) == SenderPart(d) }

  predicate RoomScope(c: Call) { c.scope != "global" && c.scope != "sender" }

  ghost predicate OwnLine(c: Call) { forall d: Call :: KeyFor(d) == KeyFor(c) ==> SameLine(c, d) }

  /** A call shares its slot line only with calls for the same bot, room and sender, whatever their scope,
      exactly when its own names hold no bar, not counting one at the end of the sender. */
  lemma OwnLineExact(c: Call)
    ensures OwnLine(c) <==> BarFree(c.bot, RoomPart(c), SenderPart(c))
  {
    if BarFree(c.bot, RoomPart(c), SenderPart(c)) {
      forall d: Call | KeyFor(d) == KeyFor(c) ensures SameLine(c, d) {
        JoinUnique(c.bot, RoomPart(c), SenderPart(c), d.bot, RoomPart(d), SenderPart(d));
      }
    } else {
      var bot, room, sender := JoinAmbiguous(c.bot, RoomPart(c), SenderPart(c));
      var d := Call(bot, room, Some(sender), c.intervalMillis, "sender");
      assert KeyFor(d) == KeyFor(c) && !SameLine(c, d);
    }
  }

  ghost predicate OwnRoomLine(c: Call) {
    forall d: Call :: RoomScope(d) && KeyFor(d) == KeyFor(c) ==> d.bot == c.bot && d.room == c.room
  }

  /** Among room-scope calls: exactly when neither bot nor room holds a bar. */
  lemma RoomLineExact(c: Call)
    requires RoomScope(c)
    ensures OwnRoomLine(c) <==> '|' !in c.bot && '|' !in c.room
  {
    if BarFree(c.bot, c.room, "*") {
      forall d: Call | RoomScope(d) && KeyFor(d) == KeyFor(c) ensures d.bot == c.bot && d.room == c.room {
        JoinUnique(c.bot, c.room, "*", d.bot, d.room, "*");
      }
    } else {
      var bot, room, sender := JoinAmbiguous(c.bot, c.room, "*");
      var d := Call(bot, room, c.sender, c.intervalMillis, c.scope);
      assert KeyFor(d) == KeyFor(c) && RoomScope(d);
    }
  }

  ghost predicate OwnSenderLine(c: Call) {
    forall d: Call :: d.scope == "sender" && KeyFor(d) == KeyFor(c) ==> SameLine(c, d)
  }

  /** Among sender-scope calls: a bar inside the sender matters too. */
  lemma SenderLineExact(c: Call)
    requires c.scope == "sender"
    ensures OwnSenderLine(c) <==> BarFree(c.bot, c.room, SenderPart(c))
  {
    if BarFree(c.bot, c.room, SenderPart(c)) {
      OwnLineExact(c);
    } else {
      var bot, room, sender := JoinAmbiguous(c.bot, c.room, SenderPart(c));
      var d := Call(bot, room, Some(sender), c.intervalMillis, "sender");
      assert KeyFor(d) == KeyFor(c) && !SameLine(c, d);
    }
  }

  /** The sender as the caller gave it; no sender and an empty one are the same. */
  function Sender(c: Call): string { if c.sender.None? then "" else c.sender.value }

  ghost predicate OwnSender(c: Call) {
    forall d: Call :: d.scope == "sender" && KeyFor(d) == KeyFor(c) ==>
      d.bot == c.bot && d.room == c.room && Sender(d) == Sender(c)
  }

  /** On the callers' own fields: a sender-scope call has its slot line for its bot, room and sender alone,
      among sender-scope calls, exactly when its names are free of bars and its sender is neither missing
      nor an underscore, which stand for each other. */
  lemma OwnSenderExact(c: Call)
    requires c.scope == "sender"
    ensures OwnSender(c) <==> BarFree(c.bot, c.room, SenderPart(c)) && Sender(c) != "" && Sender(c) != "_"
  {
    if !BarFree(c.bot, c.room, SenderPart(c)) {
      var bot, room, sender := JoinAmbiguous(c.bot, c.room, SenderPart(c));
      var d := Call(bot, room, Some(sender), c.intervalMillis, "sender");
      assert KeyFor(d) == KeyFor(c);
    } else if Sender(c) == "" || Sender(c) == "_" {
      var d := c.(sender := if Sender(c) == "" then Some("_") else None);
      assert KeyFor(d) == KeyFor(c) && Sender(d) != Sender(c);
    } else {
      SenderLineExact(c);
      forall d: Call | d.scope == "sender" && KeyFor(d) == KeyFor(c)
        ensures d.bot == c.bot && d.room == c.room && Sender(d) == Sender(c)
      {
        assert SameLine(c, d);
      }
    }
  }

  /** The calls that are meant to wait for each other: same scope, same bot, and the same room and sender as
      far as the scope looks at them. */
  predicate SameTarget(c: Call, d: Call) {
    && (c.scope == "global" <==> d.scope == "global") && (c.scope == "sender" <==> d.scope == "sender")
    && c.bot == d.bot
    && (c.scope != "global" ==> c.room == d.room)
    && (c.scope == "sender" ==> Sender(c) == Sender(d))
  }

  ghost predicate OwnTarget(c: Call) { forall d: Call :: KeyFor(d) == KeyFor(c) ==> SameTarget(c, d) }

  /** Across scopes only a sender-scope call can have a line of its own: a global call shares its line with
      the room named by a star, and a room-scope call with the sender named by a star. */
  lemma OwnTargetExact(c: Call)
    ensures OwnTarget(c) <==>
            c.scope == "sender" && BarFree(c.bot, c.room, SenderPart(c)) && Sender(c) !in {"", "_", "*"}
  {
    if c.scope == "global" {
      var d := c.(room := "*", scope := "room");
      assert KeyFor(d) == KeyFor(c) && !SameTarget(c, d);
    } else if c.scope != "sender" {
      var d := c.(sender := Some("*"), scope := "sender");
      assert KeyFor(d) == KeyFor(c) && !SameTarget(c, d);
    } else if Sender(c) == "*" {
      var d := c.(scope := "room");
      assert KeyFor(d) == KeyFor(c) && !SameTarget(c, d);
    } else {
      OwnSenderExact(c);
      OwnLineExact(c);
      SenderTargetExact(c);
    }
  }

  lemma SenderTargetExact(c: Call)
    requires c.scope == "sender" && Sender(c) != "*"
    requires OwnLine(c) <==> BarFree(c.bot, c.room, SenderPart(c))
    requires OwnSender(c) <==> BarFree(c.bot, c.room, SenderPart(c)) && Sender(c) != "" && Sender(c) != "_"
    ensures OwnTarget(c) <==> OwnSender(c)
  {
    if OwnSender(c) {
      forall d: Call | KeyFor(d) == KeyFor(c) ensures SameTarget(c, d) {
        assert SameLine(c, d);
      }
    } else {
      var d: Call :| d.scope == "sender" && KeyFor(d) == KeyFor(c) &&
                     !(d.bot == c.bot && d.room == c.room && Sender(d) == Sender(c));
      assert !SameTarget(c, d);
    }
  }

  /** A global call's line is its bot's alone, among global calls, whatever the names. */
  lemma GlobalLine(c: Call, d: Call)
    requires c.scope == d.scope == "global"
    ensures KeyFor(c) == KeyFor(d) <==> c.bot == d.bot
  {
    var k, l := KeyFor(c), KeyFor(d);
    assert k[..|k| - 4] == c.bot && l[..|l| - 4] == d.bot;
  }

  /** Two rooms with one line. */
  lemma BarsCollide()
    ensures KeyFor(Call("a|b", "c", None, 1, "room")) == KeyFor(Call("a", "b|c", None, 1, "room"))
  {
    assert "a|b" + "|" + "c" + "|" + "*" == "a|b|c|*";
    assert "a" + "|" + "b|c" + "|" + "*" == "a|b|c|*";
  }

  function MaxReal(a: real, b: real): real { if a < b then b else a }

  function Seconds(millis: int): real { millis as real / 1000.0 }

  function NextAt(next: map<Key, real>, k: Key): real { if k in next then next[k] else 0.0 }

  /** A request for a slot, reduced to its key. */
  datatype Ask = Ask(key: Key, interval: int, now: real)

  function Slot(next: map<Key, real>, a: Ask): real { MaxReal(a.now, NextAt(next, a.key)) }

  function Reserve(next: map<Key, real>, a: Ask): map<Key, real> {
    if a.interval <= 0 then next else next[a.key := Slot(next, a) + Seconds(a.interval)]
  }

  class ReplyRateLimiter {
    var nextAt: map<Key, real>

    constructor ()
      ensures nextAt == map[]
    {
      nextAt := map[];
    }

    /** The answer is the wait until the reserved slot in whole milliseconds, rounded down. */
    method Wait(c: Call, now: real) returns (millis: nat)
      modifies this
      ensures nextAt == Reserve(old(nextAt), Ask(KeyFor(c), c.intervalMillis, now))
      ensures c.intervalMillis <= 0 ==> millis == 0
      ensures c.intervalMillis > 0 ==>
        var slot := Slot(old(nextAt), Ask(KeyFor(c), c.intervalMillis, now));
        millis as real <= 1000.0 * (slot - now) < millis as real + 1.0
    {
      if c.intervalMillis <= 0 { return 0; }
      var key := KeyFor(c);
      var next := NextAt(nextAt, key);
      var wait := MaxReal(next - now, 0.0);
      nextAt := nextAt[key := MaxReal(now, next) + Seconds(c.intervalMillis)];
      millis := (wait * 1000.0).Floor;
    }

    method Clear()
      modifies this
      ensures nextAt == map[]
    {
      nextAt := map[];
    }
  }

  // ---- Runs of requests, from any reservations ----

  function Run(next: map<Key, real>, asks: seq<Ask>): map<Key, real>
    decreases |asks|
  {
    if asks == [] then next else Reserve(Run(next, asks[..|asks| - 1]), asks[|asks| - 1])
  }

  datatype Grant = Grant(now: real, interval: int, slot: real)

  /** The slots reserved for a key, in request order. */
  function Grants(next: map<Key, real>, asks: seq<Ask>, k: Key): seq<Grant>
    decreases |asks|
  {
    if asks == [] then []
    else
      var init, a := asks[..|asks| - 1], asks[|asks| - 1];
      Grants(next, init, k) +
      (if a.key == k && a.interval > 0 then [Grant(a.now, a.interval, Slot(Run(next, init), a))] else [])
  }

  /** An interval is in milliseconds, a time in seconds. */
  lemma SecondsExact(millis: int)
    ensures 1000.0 * Seconds(millis) == millis as real
  {
  }

  /** The least time that is not before either bound. */
  predicate Earliest(t: real, a: real, b: real) { t >= a && t >= b && (t == a || t == b) }

  /** What must have passed before the i-th slot. */
  ghost function NotBefore(next: map<Key, real>, g: seq<Grant>, k: Key, i: nat): real
    requires i <= |g|
  {
    if i == 0 then NextAt(next, k) else g[i - 1].slot + Seconds(g[i - 1].interval)
  }

  ghost predicate SpacedAt(next: map<Key, real>, g: seq<Grant>, k: Key, i: nat)
    requires i < |g|
  {
    g[i].interval > 0 && Earliest(g[i].slot, g[i].now, NotBefore(next, g, k, i))
  }

  ghost predicate Spaced(next: map<Key, real>, g: seq<Grant>, k: Key) {
    forall i :: 0 <= i < |g| ==> SpacedAt(next, g, k, i)
  }

  lemma SpacedPush(next: map<Key, real>, g: seq<Grant>, k: Key, x: Grant)
    requires Spaced(next, g, k) && x.interval > 0 && Earliest(x.slot, x.now, NotBefore(next, g, k, |g|))
    ensures Spaced(next, g + [x], k)
  {
    forall i | 0 <= i < |g + [x]| ensures SpacedAt(next, g + [x], k, i) {
      if i < |g| { assert SpacedAt(next, g, k, i); }
    }
  }

  /** Every reserved slot is the earliest time not before its call and not before the previous slot
      plus that slot's interval; other keys and calls without an interval do not matter. */
  lemma {:induction false} SlotsEarliest(next: map<Key, real>, asks: seq<Ask>, k: Key)
    ensures var g := Grants(next, asks, k);
            Spaced(next, g, k) && NextAt(Run(next, asks), k) == NotBefore(next, g, k, |g|)
    decreases |asks|
  {
    if asks != [] {
      var init, a := asks[..|asks| - 1], asks[|asks| - 1];
      SlotsEarliest(next, init, k);
      var h := Grants(next, init, k);
      if a.key == k && a.interval > 0 {
        SpacedPush(next, h, k, Grant(a.now, a.interval, Slot(Run(next, init), a)));
      } else {
        assert Grants(next, asks, k) == h;
      }
    }
  }

  function OnlyKey(asks: seq<Ask>, k: Key): seq<Ask>
    decreases |asks|
  {
    if asks == [] then []
    else OnlyKey(asks[..|asks| - 1], k) + (if asks[|asks| - 1].key == k then [asks[|asks| - 1]] else [])
  }

  lemma PushGrant(next: map<Key, real>, asks: seq<Ask>, a: Ask, k: Key)
    requires a.key == k
    ensures Run(next, asks + [a]) == Reserve(Run(next, asks), a)
    ensures Grants(next, asks + [a], k) == Grants(next, asks, k) +
            (if a.interval > 0 then [Grant(a.now, a.interval, MaxReal(a.now, NextAt(Run(next, asks), k)))] else [])
  {
    assert (asks + [a])[..|asks|] == asks;
  }

  /** Slot lines are independent: the slots of a key depend on its own requests only. */
  lemma {:induction false} KeysIndependent(next: map<Key, real>, asks: seq<Ask>, k: Key)
    ensures Grants(next, asks, k) == Grants(next, OnlyKey(asks, k), k)
    ensures NextAt(Run(next, asks), k) == NextAt(Run(next, OnlyKey(asks, k)), k)
    decreases |asks|
  {
    if asks != [] {
      var init, a := asks[..|asks| - 1], asks[|asks| - 1];
      KeysIndependent(next, init, k);
      var own := OnlyKey(init, k);
      if a.key == k {
        assert OnlyKey(asks, k) == own + [a];
        PushGrant(next, own, a, k);
      } else {
        assert OnlyKey(asks, k) == own && Grants(next, asks, k) == Grants(next, init, k);
      }
    }
  }

  // ---- The window bound ----

  function Ceil(x: real): int { -(-x).Floor }

  ghost predicate OneInterval(g: seq<Grant>, interval: int) {
    forall n :: 0 <= n < |g| ==> g[n].interval == interval
  }

  /** Slots `i` and `j` are at least `j - i` intervals apart. */
  lemma {:induction false} FarApart(next: map<Key, real>, g: seq<Grant>, k: Key, interval: int, i: nat, j: nat)
    requires Spaced(next, g, k) && OneInterval(g, interval)
    requires i <= j < |g|
    ensures g[j].slot - g[i].slot >= (j - i) as real * Seconds(interval)
    decreases j
  {
    if i < j {
      FarApart(next, g, k, interval, i, j - 1);
      assert SpacedAt(next, g, k, j);
      OneMore(j - 1 - i, Seconds(interval));
    }
  }

  lemma OneMore(n: int, step: real)
    ensures (n + 1) as real * step == n as real * step + step
  {
  }

  ghost function InWindow(g: seq<Grant>, from: real, width: real): set<nat> {
    set i: nat | i < |g| && from <= g[i].slot < from + width
  }

  /** Fewer than `width / interval + 1` indices lie in a window. */
  lemma WindowReach(next: map<Key, real>, g: seq<Grant>, k: Key, interval: int, from: real, width: real, i: nat, j: nat)
    requires Spaced(next, g, k) && OneInterval(g, interval) && interval > 0
    requires i in InWindow(g, from, width) && j in InWindow(g, from, width) && i <= j
    ensures j < i + Ceil(width / Seconds(interval))
  {
    FarApart(next, g, k, interval, i, j);
    Ratio((j - i) as real, Seconds(interval), width);
  }

  lemma Ratio(n: real, step: real, width: real)
    requires step > 0.0 && n * step < width
    ensures n < width / step
  {
    var q := width / step;
    assert q * step == width;
    assert (q - n) * step > 0.0;
  }

  lemma {:induction false} RangeSize(s: set<nat>, lo: nat, hi: nat)
    requires forall x :: x in s ==> lo <= x < hi
    ensures |s| <= Max(hi - lo, 0)
    decreases hi
  {
    if lo < hi {
      RangeSize(s - {hi - 1}, lo, hi - 1);
      assert |s| <= |s - {hi - 1}| + 1;
    } else {
      assert s == {};
    }
  }

  /** With one interval per key, any half-open window of length `width` holds at most
      ceil(width / interval) slots of the key, whatever was asked and whenever. */
  lemma WindowBound(next: map<Key, real>, asks: seq<Ask>, k: Key, interval: int, from: real, width: real)
    requires interval > 0 && width > 0.0
    requires forall i :: 0 <= i < |asks| && asks[i].key == k && asks[i].interval > 0 ==> asks[i].interval == interval
    ensures |InWindow(Grants(next, asks, k), from, width)| <= Ceil(width / Seconds(interval))
  {
    var g := Grants(next, asks, k);
    var w, most := InWindow(g, from, width), Ceil(width / Seconds(interval));
    SlotsEarliest(next, asks, k);
    SameInterval(next, asks, k, interval);
    if w == {} {
      Ratio(0.0, Seconds(interval), width);
    } else {
      var lo := Least(w);
      forall j | j in w ensures lo <= j < lo + most { WindowReach(next, g, k, interval, from, width, lo, j); }
      assert lo < lo + most;
      RangeSize(w, lo, lo + most);
    }
  }

  lemma {:induction false} SameInterval(next: map<Key, real>, asks: seq<Ask>, k: Key, interval: int)
    requires forall i :: 0 <= i < |asks| && asks[i].key == k && asks[i].interval > 0 ==> asks[i].interval == interval
    ensures OneInterval(Grants(next, asks, k), interval)
    decreases |asks|
  {
    if asks != [] {
      SameInterval(next, asks[..|asks| - 1], k, interval);
    }
  }

  ghost function Least(s: set<nat>): (m: nat)
    requires s != {}
    ensures m in s && forall x :: x in s ==> m <= x
  {
    var x :| x in s;
    if s == {x} then x else
      assert s - {x} != {} && s == (s - {x}) + {x};
      var m := Least(s - {x});
      if x < m then x else m
  }

  // ---- The bound is reached ----

  function Multiple(n: nat, interval: int): real { n as real * Seconds(interval) }

  /** `n` requests at once. */
  function Burst(k: Key, interval: int, n: nat): (asks: seq<Ask>)
    ensures |asks| == n
  {
    if n == 0 then [] else Burst(k, interval, n - 1) + [Ask(k, interval, 0.0)]
  }

  function Staircase(interval: int, n: nat): (g: seq<Grant>)
    ensures |g| == n
  {
    if n == 0 then [] else Staircase(interval, n - 1) + [Grant(0.0, interval, Multiple(n - 1, interval))]
  }

  lemma {:induction false} BurstSlots(k: Key, interval: int, n: nat)
    requires interval > 0
    ensures Grants(map[], Burst(k, interval, n), k) == Staircase(interval, n)
    ensures NextAt(Run(map[], Burst(k, interval, n)), k) == Multiple(n, interval)
  {
    if n > 0 {
      BurstSlots(k, interval, n - 1);
      PushGrant(map[], Burst(k, interval, n - 1), Ask(k, interval, 0.0), k);
      MultipleNext(n - 1, interval);
    }
  }

  lemma MultipleNext(n: nat, interval: int)
    requires interval > 0
    ensures Multiple(n + 1, interval) == Multiple(n, interval) + Seconds(interval)
    ensures Multiple(n, interval) >= 0.0
  {
    OneMore(n, Seconds(interval));
  }

  lemma {:induction false} StairsInside(interval: int, n: nat, width: real)
    requires interval > 0 && Multiple(n, interval) <= width
    ensures forall i :: 0 <= i < n ==> 0.0 <= Staircase(interval, n)[i].slot < width
  {
    if n > 0 {
      MultipleNext(n - 1, interval);
      StairsInside(interval, n - 1, width);
    }
  }

  /** A burst of `n` requests puts all its slots in a window of `n` intervals. */
  lemma BoundReached(k: Key, interval: int, n: nat)
    requires interval > 0
    ensures |InWindow(Grants(map[], Burst(k, interval, n), k), 0.0, Multiple(n, interval))| == n
  {
    BurstSlots(k, interval, n);
    StairsInside(interval, n, Multiple(n, interval));
    FullRange(InWindow(Staircase(interval, n), 0.0, Multiple(n, interval)), n);
  }

  lemma {:induction false} FullRange(s: set<nat>, n: nat)
    requires forall x: nat :: x in s <==> x < n
    ensures |s| == n
    decreases n
  {
    if n > 0 {
      FullRange(s - {n - 1}, n - 1);
      assert n - 1 in s;
    } else {
      assert s == {};
    }
  }
}
