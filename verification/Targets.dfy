/** Resolving a send request to target rooms (app/services/send_target_service.py). */
module Targets {
  import opened Common
  import opened Sorting

  type Room = string

  /** A room's latest message, as far as sending is concerned. */
  datatype Row = Row(room: Room, token: Option<string>, expiresAt: Option<int>)

  datatype TargetStatus = Available | Expiring | Expired | Unknown

  function StatusOf(r: Row, now: int, safetyWindow: int): TargetStatus {
    if r.token.None? then Expired
    else if r.expiresAt.None? then Unknown
    else if r.expiresAt.value <= now then Expired
    else if r.expiresAt.value <= now + Max(safetyWindow, 0) then Expiring
    else Available
  }

  function StatusName(s: TargetStatus): string {
    match s
    case Available => "available"
    case Expiring => "expiring"
    case Expired => "expired"
    case Unknown => "unknown"
  }

  /** When the request is for sending, only rooms with a usable token stay. */
  datatype Rule = Rule(forSend: bool, now: int, safetyWindow: int) {
    predicate Keeps(r: Row) { !forSend || StatusOf(r, now, safetyWindow) in {Available, Expiring} }
  }

  /** A send keeps exactly the rooms whose token has a known expiry in the future; the safety window
      moves rooms between "available" and "expiring" but excludes none. */
  lemma SendableExact(r: Row, rule: Rule)
    requires rule.forSend
    ensures rule.Keeps(r) <==> r.token.Some? && r.expiresAt.Some? && r.expiresAt.value > rule.now
  {
  }

  datatype Resolution = Resolution(targets: seq<Row>, excluded: map<string, nat>)

  function Count(m: map<string, nat>, reason: string): nat { if reason in m then m[reason] else 0 }

  function Rooms(rows: seq<Row>): seq<Room> { seq(|rows|, i requires 0 <= i < |rows| => rows[i].room) }

  /** Python's `s[:n]`, which counts from the end when `n` is negative. */
  function Slice<T>(s: seq<T>, n: int): seq<T> {
    if n >= 0 then (if n < |s| then s[..n] else s)
    else if |s| + n > 0 then s[..|s| + n] else []
  }

  /** The slice is the prefix of that many elements, counted from the end for a negative number. */
  lemma SliceExact<T>(s: seq<T>, n: int)
    ensures var k := if n >= 0 then Min(n, |s|) else Max(|s| + n, 0);
            Slice(s, n) == s[..k]
  {
  }

  /** Order-preserving removal of repeats: `dict.fromkeys`. */
  function Distinct<T(==)>(s: seq<T>): seq<T> {
    if s == [] then []
    else
      var init := Distinct(s[..|s| - 1]);
      if s[|s| - 1] in s[..|s| - 1] then init else init + [s[|s| - 1]]
  }

  lemma {:induction false} DistinctElems<T>(s: seq<T>)
    ensures NoDup(Distinct(s)) && Elems(Distinct(s)) == Elems(s)
  {
    if s != [] {
      var init := s[..|s| - 1];
      DistinctElems(init);
      assert s == init + [s[|s| - 1]];
      assert forall x :: x in Distinct(init) <==> x in Elems(Distinct(init));
      assert forall x :: x in init <==> x in Elems(init);
      assert Elems(Distinct(init) + [s[|s| - 1]]) == Elems(Distinct(init)) + {s[|s| - 1]};
    }
  }

  lemma RoomsPush(rows: seq<Row>, r: Row)
    ensures Rooms(rows + [r]) == Rooms(rows) + [r.room]
  {
  }

  // ---- Reasons ----

  /** Why a send leaves a room out: no token or an expired one, or one whose expiry is not known. */
  function RowReason(r: Row, rule: Rule): Option<string> {
    if !rule.forSend then None
    else if r.token.None? || (r.expiresAt.Some? && r.expiresAt.value <= rule.now) then Some("expired")
    else if r.expiresAt.None? then Some("unknown")
    else None
  }

  lemma ReasonIsStatus(r: Row, rule: Rule)
    ensures rule.Keeps(r) <==> RowReason(r, rule) == None
    ensures !rule.Keeps(r) ==> RowReason(r, rule) == Some(StatusName(StatusOf(r, rule.now, rule.safetyWindow)))
  {
  }

  /** The four statuses: expired without a token or from the expiry on, unknown without an expiry, expiring
      within the safety window before it, available before that. */
  lemma StatusExact(r: Row, now: int, safetyWindow: int)
    ensures var name := StatusName(StatusOf(r, now, safetyWindow));
            && (name == "expired" <==> r.token == None || (r.expiresAt.Some? && r.expiresAt.value <= now))
            && (name == "unknown" <==> r.token.Some? && r.expiresAt == None)
            && (name == "expiring" <==> r.token.Some? && r.expiresAt.Some? && now < r.expiresAt.value <= now + Max(safetyWindow, 0))
            && (name == "available" <==> r.token.Some? && r.expiresAt.Some? && r.expiresAt.value > now + Max(safetyWindow, 0))
  {
    assert "expired" != "unknown" && "expiring"[5] == 'i' && "expired"[5] == 'e' && |"available"| == 9;
  }

  function KeyReason(rows: map<Room, Row>, rule: Rule, key: Room): Option<string> {
    if key == "" || key !in rows then Some("missingRoom") else RowReason(rows[key], rule)
  }

  /** The distinct requested rooms with this reason; `None` are the usable ones. */
  function KeysFor(rows: map<Room, Row>, rule: Rule, roomKeys: seq<Room>, reason: Option<string>): set<Room> {
    set k | k in roomKeys && KeyReason(rows, rule, k) == reason
  }

  lemma KeysForPush(rows: map<Room, Row>, rule: Rule, roomKeys: seq<Room>, key: Room, reason: Option<string>)
    ensures |KeysFor(rows, rule, roomKeys + [key], reason)| == |KeysFor(rows, rule, roomKeys, reason)| +
            (if key !in roomKeys && KeyReason(rows, rule, key) == reason then 1 else 0)
  {
    var before, after := KeysFor(rows, rule, roomKeys, reason), KeysFor(rows, rule, roomKeys + [key], reason);
    assert after == before + (if KeyReason(rows, rule, key) == reason then {key} else {});
  }

  /** The listed rows with this reason. */
  function RowsFor(rows: seq<Row>, rule: Rule, reason: Option<string>): set<nat> {
    set i: nat | i < |rows| && RowReason(rows[i], rule) == reason
  }

  lemma RowsForPush(rows: seq<Row>, rule: Rule, row: Row, reason: Option<string>)
    ensures |RowsFor(rows + [row], rule, reason)| == |RowsFor(rows, rule, reason)| +
            (if RowReason(row, rule) == reason then 1 else 0)
  {
    assert RowsFor(rows + [row], rule, reason)
           == RowsFor(rows, rule, reason) + (if RowReason(row, rule) == reason then {|rows|} else {});
  }

  /** A request exceeds the maximum, as far as sending is concerned. */
  predicate Exceeds(res: Resolution) { "maxTargets" in res.excluded && res.excluded["maxTargets"] > 0 }

  /** The cut to the maximum moves the surplus to the exclusions: kept and excluded together stay the
      same exactly when the maximum is not negative. */
  function Cut(res: Resolution, maxTargets: int): Resolution {
    if |res.targets| > maxTargets
    then Resolution(Slice(res.targets, maxTargets), Bump(res.excluded, "maxTargets", |res.targets| - maxTargets))
    else res
  }

  lemma CutConserves(res: Resolution, maxTargets: int)
    ensures |Cut(res, maxTargets).targets| + SumValues(Cut(res, maxTargets).excluded)
            == |res.targets| + SumValues(res.excluded)
            <==> maxTargets >= 0
    ensures |Cut(res, maxTargets).targets| + SumValues(Cut(res, maxTargets).excluded)
            >= |res.targets| + SumValues(res.excluded)
    ensures forall r :: Count(Cut(res, maxTargets).excluded, r)
                        == Count(res.excluded, r) + (if r == "maxTargets" then Max(|res.targets| - maxTargets, 0) else 0)
    ensures maxTargets >= 0 ==> |Cut(res, maxTargets).targets| <= maxTargets
    ensures Cut(res, maxTargets).targets <= res.targets
  {
    if |res.targets| > maxTargets { BumpAdds(res.excluded, "maxTargets", |res.targets| - maxTargets); }
  }

  lemma SliceRooms(rows: seq<Row>, n: int)
    ensures Rooms(Slice(rows, n)) == Slice(Rooms(rows), n)
  {
  }

  /** The rooms a list of room keys asks for and may have, in request order, cut to the maximum. */
  function RequestedTargets(rows: map<Room, Row>, rule: Rule, roomKeys: seq<Room>, maxTargets: int): seq<Room> {
    Slice(Filter((k: Room) => k != "" && k in rows && rule.Keeps(rows[k]), Distinct(roomKeys)), maxTargets)
  }

  function ListedTargets(listed: seq<Row>, rule: Rule, maxTargets: int): seq<Row> {
    Slice(Filter((r: Row) => rule.Keeps(r), listed), maxTargets)
  }

  /** Each distinct key is a target, or an exclusion: missing, or under the name of its row's status. */
  function SiftKeys(rows: map<Room, Row>, rule: Rule, roomKeys: seq<Room>): Resolution {
    if roomKeys == [] then Resolution([], map[])
    else
      var before, key := roomKeys[..|roomKeys| - 1], roomKeys[|roomKeys| - 1];
      var init := SiftKeys(rows, rule, before);
      if key in before then init
      else if key == "" || key !in rows then init.(excluded := Bump(init.excluded, "missingRoom", 1))
      else if rule.Keeps(rows[key]) then init.(targets := init.targets + [rows[key]])
      else init.(excluded := Bump(init.excluded, StatusName(StatusOf(rows[key], rule.now, rule.safetyWindow)), 1))
  }

  lemma {:induction false} SiftKeysConserves(rows: map<Room, Row>, rule: Rule, roomKeys: seq<Room>)
    requires forall k :: k in rows ==> rows[k].room == k
    ensures var res := SiftKeys(rows, rule, roomKeys);
            && Rooms(res.targets) == Filter((k: Room) => k != "" && k in rows && rule.Keeps(rows[k]), Distinct(roomKeys))
            && |res.targets| + SumValues(res.excluded) == |Distinct(roomKeys)|
  {
    if roomKeys != [] {
      var before, key := roomKeys[..|roomKeys| - 1], roomKeys[|roomKeys| - 1];
      var init := SiftKeys(rows, rule, before);
      SiftKeysConserves(rows, rule, before);
      if key !in before {
        FilterPush((k: Room) => k != "" && k in rows && rule.Keeps(rows[k]), Distinct(before), key);
        BumpAdds(init.excluded, "missingRoom", 1);
        if key in rows {
          BumpAdds(init.excluded, StatusName(StatusOf(rows[key], rule.now, rule.safetyWindow)), 1);
          RoomsPush(init.targets, rows[key]);
        }
      }
    }
  }

  /** Each exclusion is counted under its reason, and the usable rooms are the targets. */
  lemma {:induction false} SiftKeysReasons(rows: map<Room, Row>, rule: Rule, roomKeys: seq<Room>)
    ensures var res := SiftKeys(rows, rule, roomKeys);
            && |res.targets| == |KeysFor(rows, rule, roomKeys, None)|
            && forall r :: Count(res.excluded, r) == |KeysFor(rows, rule, roomKeys, Some(r))|
  {
    if roomKeys != [] {
      var before, key := roomKeys[..|roomKeys| - 1], roomKeys[|roomKeys| - 1];
      SiftKeysReasons(rows, rule, before);
      assert roomKeys == before + [key];
      forall r { KeysForPush(rows, rule, before, key, r); }
      if key in rows { ReasonIsStatus(rows[key], rule); }
    }
  }

  lemma SiftKeysDistinct(rows: map<Room, Row>, rule: Rule, roomKeys: seq<Room>, maxTargets: int)
    requires forall k :: k in rows ==> rows[k].room == k
    ensures var res := Cut(SiftKeys(rows, rule, roomKeys), maxTargets);
            NoDup(Rooms(res.targets)) && Rooms(res.targets) == RequestedTargets(rows, rule, roomKeys, maxTargets)
  {
    var targets := SiftKeys(rows, rule, roomKeys).targets;
    SiftKeysConserves(rows, rule, roomKeys);
    DistinctElems(roomKeys);
    FilterElems((k: Room) => k != "" && k in rows && rule.Keeps(rows[k]), Distinct(roomKeys));
    SliceRooms(targets, maxTargets);
    SliceNoDup(Rooms(targets), maxTargets);
    assert |targets| <= maxTargets ==> Slice(Rooms(targets), maxTargets) == Rooms(targets);
  }

  /** `_resolve_rooms_target`. Among the distinct requested rooms, those with a row that the rule keeps
      are the targets, in request order, cut to the maximum. Targets and exclusions together are the
      distinct requested rooms exactly when the maximum is not negative, each exclusion is counted under its
      reason, and the maximum is exceeded exactly when the usable rooms outnumber it. */
  method ResolveRooms(rows: map<Room, Row>, rule: Rule, roomKeys: seq<Room>, maxTargets: int) returns (res: Resolution)
    requires forall k :: k in rows ==> rows[k].room == k
    ensures NoDup(Rooms(res.targets))
    ensures Rooms(res.targets) == RequestedTargets(rows, rule, roomKeys, maxTargets)
    ensures maxTargets >= 0 ==> |res.targets| <= maxTargets
    ensures |res.targets| + SumValues(res.excluded) == |Elems(roomKeys)| <==> maxTargets >= 0
    ensures |res.targets| + SumValues(res.excluded) >= |Elems(roomKeys)|
    ensures var surplus := Max(|KeysFor(rows, rule, roomKeys, None)| - maxTargets, 0);
            forall r :: Count(res.excluded, r)
                        == |KeysFor(rows, rule, roomKeys, Some(r))| + (if r == "maxTargets" then surplus else 0)
    ensures Exceeds(res) <==> |KeysFor(rows, rule, roomKeys, None)| > maxTargets
  {
    var targets: seq<Row>, excluded: map<string, nat> := [], map[];
    var i := 0;
    while i < |roomKeys|
      invariant 0 <= i <= |roomKeys| && Resolution(targets, excluded) == SiftKeys(rows, rule, roomKeys[..i])
    {
      var key := roomKeys[i];
      assert roomKeys[..i + 1][..i] == roomKeys[..i];
      if key !in roomKeys[..i] {
        if key == "" || key !in rows {
          excluded := Bump(excluded, "missingRoom", 1);
        } else if !rule.Keeps(rows[key]) {
          excluded := Bump(excluded, StatusName(StatusOf(rows[key], rule.now, rule.safetyWindow)), 1);
        } else {
          targets := targets + [rows[key]];
        }
      }
      i := i + 1;
    }
    assert roomKeys[..i] == roomKeys;
    res := Cut(Resolution(targets, excluded), maxTargets);
    KeysAccounted(rows, rule, roomKeys, maxTargets);
    SiftKeysDistinct(rows, rule, roomKeys, maxTargets);
  }

  lemma KeysAccounted(rows: map<Room, Row>, rule: Rule, roomKeys: seq<Room>, maxTargets: int)
    requires forall k :: k in rows ==> rows[k].room == k
    ensures var res := Cut(SiftKeys(rows, rule, roomKeys), maxTargets);
            var surplus := Max(|KeysFor(rows, rule, roomKeys, None)| - maxTargets, 0);
            && (maxTargets >= 0 ==> |res.targets| <= maxTargets)
            && (Total(res) == |Elems(roomKeys)| <==> maxTargets >= 0)
            && Total(res) >= |Elems(roomKeys)|
            && (forall r :: Count(res.excluded, r)
                            == |KeysFor(rows, rule, roomKeys, Some(r))| + (if r == "maxTargets" then surplus else 0))
            && (Exceeds(res) <==> |KeysFor(rows, rule, roomKeys, None)| > maxTargets)
  {
    SiftKeysConserves(rows, rule, roomKeys);
    SiftKeysReasons(rows, rule, roomKeys);
    CutConserves(SiftKeys(rows, rule, roomKeys), maxTargets);
    DistinctElems(roomKeys);
    NoDupSize(Distinct(roomKeys));
    NoKeyForMaximum(rows, rule, roomKeys);
    var res := Cut(SiftKeys(rows, rule, roomKeys), maxTargets);
    assert Exceeds(res) <==> Count(res.excluded, "maxTargets") > 0;
  }

  lemma NoKeyForMaximum(rows: map<Room, Row>, rule: Rule, roomKeys: seq<Room>)
    ensures KeysFor(rows, rule, roomKeys, Some("maxTargets")) == {}
  {
    assert |"maxTargets"| == 10 && |"missingRoom"| == 11 && |"expired"| == 7 && |"unknown"| == 7;
  }

  lemma SliceNoDup<T>(s: seq<T>, n: int)
    requires NoDup(s)
    ensures NoDup(Slice(s, n))
  {
  }

  /** Each row is a target, or an exclusion under the name of its status. */
  function Sift(rows: seq<Row>, rule: Rule): Resolution {
    if rows == [] then Resolution([], map[])
    else
      var init, last := Sift(rows[..|rows| - 1], rule), rows[|rows| - 1];
      if rule.Keeps(last) then init.(targets := init.targets + [last])
      else init.(excluded := Bump(init.excluded, StatusName(StatusOf(last, rule.now, rule.safetyWindow)), 1))
  }

  lemma {:induction false} SiftConserves(rows: seq<Row>, rule: Rule)
    ensures var res := Sift(rows, rule);
            && res.targets == Filter((r: Row) => rule.Keeps(r), rows)
            && |res.targets| + SumValues(res.excluded) == |rows|
            && Count(res.excluded, "maxTargets") == 0
  {
    if rows != [] {
      var init, last := rows[..|rows| - 1], rows[|rows| - 1];
      SiftConserves(init, rule);
      assert rows == init + [last];
      FilterPush((r: Row) => rule.Keeps(r), init, last);
      BumpAdds(Sift(init, rule).excluded, StatusName(StatusOf(last, rule.now, rule.safetyWindow)), 1);
    }
  }

  /** Each exclusion of a sift is counted under its reason, and the usable rows are the targets. */
  lemma {:induction false} SiftReasons(rows: seq<Row>, rule: Rule)
    ensures var res := Sift(rows, rule);
            && |res.targets| == |RowsFor(rows, rule, None)|
            && forall r :: Count(res.excluded, r) == |RowsFor(rows, rule, Some(r))|
  {
    if rows != [] {
      var init, last := rows[..|rows| - 1], rows[|rows| - 1];
      SiftReasons(init, rule);
      assert rows == init + [last];
      forall r { RowsForPush(init, rule, last, r); }
      ReasonIsStatus(last, rule);
    }
  }

  /** The filter's rows are listed with the maximum as LIMIT, which the query clamps to 1..10000. */
  function ListLimit(maxTargets: int): (n: nat)
    ensures 1 <= n <= 10000 && (maxTargets >= 1 ==> n <= maxTargets)
  {
    Clamp(maxTargets, 1, 10000)
  }

  function ListRows(matching: seq<Row>, maxTargets: int): seq<Row> {
    if |matching| <= ListLimit(maxTargets) then matching else matching[..ListLimit(maxTargets)]
  }

  function FilterResolution(matching: seq<Row>, rule: Rule, maxTargets: int): Resolution {
    Cut(Sift(ListRows(matching, maxTargets), rule), maxTargets)
  }

  /** How many rooms a resolution accounts for. */
  ghost function Total(res: Resolution): nat { |res.targets| + SumValues(res.excluded) }

  lemma ListedDistinct(matching: seq<Row>, maxTargets: int)
    requires NoDup(Rooms(matching))
    ensures NoDup(Rooms(ListRows(matching, maxTargets)))
    ensures Elems(Rooms(ListRows(matching, maxTargets))) <= Elems(Rooms(matching))
  {
    var listed := ListRows(matching, maxTargets);
    assert Rooms(listed) == Rooms(matching)[..|listed|];
  }

  lemma FilterDistinct(matching: seq<Row>, rule: Rule, maxTargets: int)
    requires NoDup(Rooms(matching))
    ensures var listed := ListRows(matching, maxTargets);
            var res := FilterResolution(matching, rule, maxTargets);
            && res.targets == ListedTargets(listed, rule, maxTargets) && NoDup(Rooms(res.targets))
  {
    var listed := ListRows(matching, maxTargets);
    var ok := (r: Row) => rule.Keeps(r);
    ListedDistinct(matching, maxTargets);
    SiftConserves(listed, rule);
    FilterRooms(ok, listed);
    SliceRooms(Filter(ok, listed), maxTargets);
    SliceNoDup(Rooms(Filter(ok, listed)), maxTargets);
    assert |Filter(ok, listed)| <= maxTargets ==> Slice(Filter(ok, listed), maxTargets) == Filter(ok, listed);
  }

  /** What a filter request accounts for: the listed rows, or more with a negative maximum. */
  lemma FilterTotal(matching: seq<Row>, rule: Rule, maxTargets: int)
    ensures var listed, res := ListRows(matching, maxTargets), FilterResolution(matching, rule, maxTargets);
            && (maxTargets >= 0 ==> Total(res) == |listed| && |res.targets| <= maxTargets)
            && (maxTargets < 0 ==> Total(res) == |listed| - maxTargets)
  {
    var sifted := Sift(ListRows(matching, maxTargets), rule);
    SiftConserves(ListRows(matching, maxTargets), rule);
    CutConserves(sifted, maxTargets);
    if maxTargets < 0 { BumpAdds(sifted.excluded, "maxTargets", |sifted.targets| - maxTargets); }
  }

  /** A filter request accounts for every matching room exactly when the listing's limit holds them all.
      (A negative maximum adds its amount to the exclusions of the one row listed.) */
  lemma FilterExact(matching: seq<Row>, rule: Rule, maxTargets: int)
    requires maxTargets >= 0
    ensures Total(FilterResolution(matching, rule, maxTargets)) == |matching| <==> |matching| <= ListLimit(maxTargets)
  {
    FilterTotal(matching, rule, maxTargets);
  }

  /** The listing's limit hides the surplus: a filter request with a positive maximum never exceeds it,
      however many rooms match. */
  lemma FilterExceedsExact(matching: seq<Row>, rule: Rule, maxTargets: int)
    ensures Exceeds(FilterResolution(matching, rule, maxTargets))
            <==> maxTargets < 0 || (maxTargets == 0 && matching != [] && rule.Keeps(matching[0]))
  {
    var listed := ListRows(matching, maxTargets);
    var sifted := Sift(listed, rule);
    SiftConserves(listed, rule);
    CutConserves(sifted, maxTargets);
    assert Exceeds(Cut(sifted, maxTargets)) <==> Count(Cut(sifted, maxTargets).excluded, "maxTargets") > 0;
    if maxTargets == 0 && matching != [] {
      assert listed == [] + [matching[0]];
      FilterPush((r: Row) => rule.Keeps(r), [], matching[0]);
    }
  }

  /** Three rooms match and the maximum is two: two targets, no exclusion, and the third room is gone. */
  lemma LimitLosesRoom()
    ensures var row := (k: Room) => Row(k, Some("t"), Some(10));
            var res := FilterResolution([row("a"), row("b"), row("c")], Rule(true, 0, 0), 2);
            Rooms(res.targets) == ["a", "b"] && Total(res) == 2 && !Exceeds(res)
  {
    var row := (k: Room) => Row(k, Some("t"), Some(10));
    var matching, rule := [row("a"), row("b"), row("c")], Rule(true, 0, 0);
    FilterTotal(matching, rule, 2);
    FilterExceedsExact(matching, rule, 2);
    var listed := ListRows(matching, 2);
    assert listed == [row("a"), row("b")] && listed[..1] == [row("a")] && listed[..1][..0] == [];
    assert Sift(listed[..1], rule).targets == [row("a")];
    assert Sift(listed, rule).targets == [row("a"), row("b")];
  }

  /** `_resolve_filter_target` on the matching rows in listing order. */
  method ResolveFilter(matching: seq<Row>, rule: Rule, maxTargets: int) returns (res: Resolution)
    requires NoDup(Rooms(matching))
    ensures res == FilterResolution(matching, rule, maxTargets)
    ensures NoDup(Rooms(res.targets))
    ensures res.targets == ListedTargets(ListRows(matching, maxTargets), rule, maxTargets)
    ensures maxTargets >= 0 ==> |res.targets| <= maxTargets
    ensures maxTargets >= 0 ==> (Total(res) == |matching| <==> |matching| <= ListLimit(maxTargets))
    ensures Total(res) == |ListRows(matching, maxTargets)| <==> maxTargets >= 0
    ensures Total(res) >= |ListRows(matching, maxTargets)|
    ensures var listed := ListRows(matching, maxTargets);
            var surplus := Max(|RowsFor(listed, rule, None)| - maxTargets, 0);
            forall r :: Count(res.excluded, r)
                        == |RowsFor(listed, rule, Some(r))| + (if r == "maxTargets" then surplus else 0)
  {
    var listed := ListRows(matching, maxTargets);
    var targets: seq<Row>, excluded: map<string, nat> := [], map[];
    var i := 0;
    while i < |listed|
      invariant 0 <= i <= |listed| && Resolution(targets, excluded) == Sift(listed[..i], rule)
    {
      var row := listed[i];
      assert listed[..i + 1][..i] == listed[..i];
      if !rule.Keeps(row) {
        excluded := Bump(excluded, StatusName(StatusOf(row, rule.now, rule.safetyWindow)), 1);
      } else {
        targets := targets + [row];
      }
      i := i + 1;
    }
    assert listed[..i] == listed;
    res := Cut(Resolution(targets, excluded), maxTargets);
    FilterTotal(matching, rule, maxTargets);
    FilterDistinct(matching, rule, maxTargets);
    SiftReasons(listed, rule);
    CutConserves(Resolution(targets, excluded), maxTargets);
  }

  lemma {:induction false} FilterRooms(p: Row -> bool, rows: seq<Row>)
    requires NoDup(Rooms(rows))
    ensures NoDup(Rooms(Filter(p, rows))) && forall r :: r in Rooms(Filter(p, rows)) ==> r in Rooms(rows)
  {
    if rows != [] {
      var init, last := rows[..|rows| - 1], rows[|rows| - 1];
      assert rows == init + [last];
      RoomsPush(init, last);
      assert Rooms(init) == Rooms(rows)[..|init|];
      assert Rooms(rows)[|init|] == last.room;
      assert last.room !in Rooms(init);
      FilterRooms(p, init);
      FilterPush(p, init, last);
      if p(last) {
        RoomsPush(Filter(p, init), last);
        assert Rooms(Filter(p, rows)) == Rooms(Filter(p, init)) + [last.room];
        assert last.room !in Rooms(Filter(p, init));
      } else {
        assert Filter(p, rows) == Filter(p, init);
      }
    }
  }

  /** First occurrence of each room. */
  method FirstPerRoom(all: seq<Row>) returns (combined: seq<Row>)
    ensures Rooms(combined) == Distinct(Rooms(all))
  {
    var seen: set<Room> := {};
    combined := [];
    var i := 0;
    while i < |all|
      invariant 0 <= i <= |all| && seen == Elems(Rooms(all[..i]))
      invariant Rooms(combined) == Distinct(Rooms(all[..i]))
    {
      assert all[..i + 1] == all[..i] + [all[i]];
      RoomsPush(all[..i], all[i]);
      DistinctPush(Rooms(all[..i]), all[i].room);
      if all[i].room !in seen {
        seen := seen + {all[i].room};
        RoomsPush(combined, all[i]);
        combined := combined + [all[i]];
      }
      i := i + 1;
    }
    assert all[..i] == all;
  }

  lemma DistinctPush<T>(s: seq<T>, x: T)
    ensures Distinct(s + [x]) == Distinct(s) + (if x in s then [] else [x])
    ensures Elems(s + [x]) == Elems(s) + {x}
    ensures x in Elems(s) <==> x in s
  {
    assert (s + [x])[..|s|] == s;
  }

  /** `_merge_resolutions`: first occurrence of each room, exclusions added up, then the cut. */
  method Merge(first: Resolution, second: Resolution, maxTargets: int) returns (res: Resolution)
    ensures NoDup(Rooms(res.targets))
    ensures Rooms(res.targets) == Slice(Distinct(Rooms(first.targets + second.targets)), maxTargets)
    ensures maxTargets >= 0 ==> |res.targets| <= maxTargets
    ensures |res.targets| + SumValues(res.excluded)
            == |Elems(Rooms(first.targets + second.targets))| + SumValues(first.excluded) + SumValues(second.excluded)
            <==> maxTargets >= 0
    ensures |res.targets| + SumValues(res.excluded)
            >= |Elems(Rooms(first.targets + second.targets))| + SumValues(first.excluded) + SumValues(second.excluded)
    ensures var surplus := Max(|Elems(Rooms(first.targets + second.targets))| - maxTargets, 0);
            forall r :: Count(res.excluded, r)
                        == Count(first.excluded, r) + Count(second.excluded, r) + (if r == "maxTargets" then surplus else 0)
  {
    ghost var rooms := Rooms(first.targets + second.targets);
    var combined := FirstPerRoom(first.targets + second.targets);
    DistinctElems(rooms);
    NoDupSize(Distinct(rooms));
    var excluded := AddCounts(first.excluded, second.excluded);
    res := Cut(Resolution(combined, excluded), maxTargets);
    CutConserves(Resolution(combined, excluded), maxTargets);
    SliceRooms(combined, maxTargets);
    SliceNoDup(Rooms(combined), maxTargets);
    assert |combined| <= maxTargets ==> Slice(Rooms(combined), maxTargets) == Rooms(combined);
  }

  method AddCounts(a: map<string, nat>, b: map<string, nat>) returns (sum: map<string, nat>)
    ensures SumValues(sum) == SumValues(a) + SumValues(b)
    ensures forall k :: Count(sum, k) == Count(a, k) + Count(b, k)
  {
    sum := a;
    var left := b;
    while left != map[]
      invariant SumValues(sum) + SumValues(left) == SumValues(a) + SumValues(b)
      invariant forall k :: Count(sum, k) + Count(left, k) == Count(a, k) + Count(b, k)
      decreases |left|
    {
      var key :| key in left;
      BumpAdds(sum, key, left[key]);
      SumValuesSplit(left, key);
      sum := Bump(sum, key, left[key]);
      left := left - {key};
    }
  }

  // ---- Room keys together with a filter ----

  /** `a` and `b` are the targets among the keys `k` and the listed rooms `l`; `m` are all matching rooms. */
  lemma OverlapTotal<T>(a: set<T>, b: set<T>, k: set<T>, l: set<T>, m: set<T>)
    requires a <= k && b <= l <= m
    ensures |a + b| + (|k| - |a|) + (|l| - |b|) + |m - l - k| == |k + m| + |k * l - a * b|
  {
    assert |a + b| == |a| + |b| - |a * b|;
    assert |k + l| == |k| + |l| - |k * l|;
    assert k + m == (k + l) + (m - l - k);
    assert k * l == a * b + (k * l - a * b);
  }

  lemma TargetsAreAsked(rows: map<Room, Row>, rule: Rule, roomKeys: seq<Room>, maxTargets: int)
    ensures Elems(RequestedTargets(rows, rule, roomKeys, maxTargets)) <= Elems(roomKeys)
  {
    DistinctElems(roomKeys);
    var ok := (k: Room) => k != "" && k in rows && rule.Keeps(rows[k]);
    FilterElems(ok, Distinct(roomKeys));
    forall r | r in Elems(RequestedTargets(rows, rule, roomKeys, maxTargets)) ensures r in Elems(roomKeys) {
      assert r in Filter(ok, Distinct(roomKeys));
      assert r in Elems(Distinct(roomKeys));
    }
  }

  lemma TargetsAreListed(listed: seq<Row>, rule: Rule, maxTargets: int)
    requires NoDup(Rooms(listed))
    ensures Elems(Rooms(ListedTargets(listed, rule, maxTargets))) <= Elems(Rooms(listed))
  {
    var ok := (r: Row) => rule.Keeps(r);
    FilterRooms(ok, listed);
    SliceRooms(Filter(ok, listed), maxTargets);
    forall r | r in Rooms(ListedTargets(listed, rule, maxTargets)) ensures r in Rooms(listed) {
      assert r in Rooms(Filter(ok, listed));
    }
  }

  lemma JoinRooms(a: seq<Row>, b: seq<Row>)
    ensures Elems(Rooms(a + b)) == Elems(Rooms(a)) + Elems(Rooms(b))
  {
    assert Rooms(a + b) == Rooms(a) + Rooms(b);
  }

  /** Matching rooms that the listing leaves out and that no room key asks for. */
  function Lost(roomKeys: seq<Room>, matching: seq<Row>, maxTargets: int): set<Room> {
    Elems(Rooms(matching)) - Elems(Rooms(ListRows(matching, maxTargets))) - Elems(roomKeys)
  }

  /** Rooms asked for by key and listed by the filter that are not targets both ways. */
  function Twice(rows: map<Room, Row>, rule: Rule, roomKeys: seq<Room>, matching: seq<Row>, maxTargets: int): set<Room> {
    var listed := ListRows(matching, maxTargets);
    Elems(roomKeys) * Elems(Rooms(listed))
    - Elems(RequestedTargets(rows, rule, roomKeys, maxTargets)) * Elems(Rooms(ListedTargets(listed, rule, maxTargets)))
  }

  /** `resolve_target_spec` for room keys with a filter: both resolutions are merged. Targets are distinct
      and within the maximum. With a maximum that is not negative, and only then, targets and exclusions
      are the rooms asked for, by key or by the filter, with each room of `Twice` counted twice and each
      room of `Lost` not at all; so they are as many exactly when these two balance. */
  method ResolveRoomsAndFilter(
      rows: map<Room, Row>, rule: Rule, roomKeys: seq<Room>, matching: seq<Row>, maxTargets: int)
      returns (res: Resolution)
    requires forall k :: k in rows ==> rows[k].room == k
    requires NoDup(Rooms(matching))
    ensures NoDup(Rooms(res.targets)) && (maxTargets >= 0 ==> |res.targets| <= maxTargets)
    ensures var asked := Elems(roomKeys) + Elems(Rooms(matching));
            var lost, twice := Lost(roomKeys, matching, maxTargets), Twice(rows, rule, roomKeys, matching, maxTargets);
            && (Total(res) + |lost| == |asked| + |twice| <==> maxTargets >= 0)
            && (maxTargets >= 0 ==> (Total(res) == |asked| <==> |lost| == |twice|))
  {
    var first := ResolveRooms(rows, rule, roomKeys, maxTargets);
    var second := ResolveFilter(matching, rule, maxTargets);
    res := Merge(first, second, maxTargets);
    ghost var listed := ListRows(matching, maxTargets);
    ListedDistinct(matching, maxTargets);
    NoDupSize(Rooms(first.targets));
    NoDupSize(Rooms(second.targets));
    NoDupSize(Rooms(listed));
    JoinRooms(first.targets, second.targets);
    TargetsAreAsked(rows, rule, roomKeys, maxTargets);
    TargetsAreListed(listed, rule, maxTargets);
    OverlapTotal(Elems(Rooms(first.targets)), Elems(Rooms(second.targets)), Elems(roomKeys), Elems(Rooms(listed)),
                 Elems(Rooms(matching)));
  }
}
