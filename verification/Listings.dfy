/** The three paged listings: messages, send targets and batch items
    (app/services/message_service.py, app/services/send_target_service.py,
    app/services/send_batch_service.py and their repositories). */
module Listings {
  import opened Common
  import opened Sorting
  import opened Paging
  import opened Text

  // ---- Messages ----

  datatype Message = Message(
    id: int, room: string, sender: Option<string>, sourceType: string, messageType: string,
    receivedAt: int, deleted: bool)

  datatype MessageFilter = MessageFilter(
    room: Option<string>, sender: Option<string>, sourceType: Option<string>, messageType: Option<string>,
    receivedAfter: Option<int>, receivedBefore: Option<int>, includeDeleted: bool)

  predicate Matches(f: MessageFilter, m: Message) {
    && (f.includeDeleted || !m.deleted)
    && (f.room.Some? ==> m.room == f.room.value)
    && (f.sender.Some? ==> m.sender == f.sender)
    && (f.sourceType.Some? ==> m.sourceType == f.sourceType.value)
    && (f.messageType.Some? ==> m.messageType == f.messageType.value)
    && (f.receivedAfter.Some? ==> m.receivedAt >= f.receivedAfter.value)
    && (f.receivedBefore.Some? ==> m.receivedAt <= f.receivedBefore.value)
  }

  /** ORDER BY received_at DESC, id DESC. */
  predicate Newer(a: Message, b: Message) {
    a.receivedAt > b.receivedAt || (a.receivedAt == b.receivedAt && a.id > b.id)
  }

  /** Row ids are a primary key. */
  ghost predicate UniqueIds(table: seq<Message>) {
    forall i, j :: 0 <= i < j < |table| ==> table[i].id != table[j].id
  }

  function MessageQuery(table: seq<Message>, f: MessageFilter): Query<Message> {
    Query(table, (m: Message) => Matches(f, m), Newer)
  }

  /** The service clamps the page size to 1..200 and asks for one row more, which the repository
      clamps to 200 again. */
  function MessageScheme(limit: int): Scheme {
    var page := Clamp(limit, 1, 200);
    Scheme(Clamp(page + 1, 1, 200), page, true)
  }

  lemma MessagesSound(table: seq<Message>, f: MessageFilter)
    requires UniqueIds(table)
    ensures Sound(MessageQuery(table, f))
  {
    forall x, y | x in table && y in table && x != y ensures Newer(x, y) || Newer(y, x) {
      var i :| 0 <= i < |table| && table[i] == x;
      var j :| 0 <= j < |table| && table[j] == y;
      assert i < j || j < i;
    }
  }

  /** The cursor clause of the repository: an empty or malformed cursor adds no condition. */
  predicate MessageBeyond(cursor: string, m: Message) {
    var c := ParseMessageCursor(cursor);
    cursor == "" || c.None? || m.receivedAt < c.value.0 || (m.receivedAt == c.value.0 && m.id < c.value.1)
  }

  /** The cursor built from a row selects exactly the rows that sort after it. */
  lemma MessageCursorExact(last: Message, m: Message)
    ensures MessageBeyond(MessageCursor(last.receivedAt, last.id), m) <==> Newer(last, m)
  {
    MessageCursorParses(last.receivedAt, last.id);
  }

  const MessageCursors: Cursors<Message> :=
    Cursors((m: Message) => MessageCursor(m.receivedAt, m.id), (cursor: string, m: Message) => MessageBeyond(cursor, m))

  lemma MessageCursorsFaithful(table: seq<Message>, f: MessageFilter)
    ensures Faithful(MessageQuery(table, f), MessageCursors)
  {
    forall r: Message, m: Message ensures MessageCursors.beyond(MessageCursors.show(r), m) <==> Newer(r, m) {
      MessageCursorExact(r, m);
    }
  }

  /** Following the message cursor shows the full ordered result, each row once, exactly when the page
      size is below 200 or one page of 200 holds everything: a page of 200 has no look-ahead row. */
  lemma MessagePages(table: seq<Message>, f: MessageFilter, limit: int)
    requires UniqueIds(table)
    ensures var q := MessageQuery(table, f);
            && Sound(q) && Faithful(q, MessageCursors) && Written(MessageCursors, "")
            && var all := Remaining(q, None);
               TextWalk(q, MessageCursors, MessageScheme(limit), "") == all <==> limit <= 199 || |all| <= 200
  {
    MessagesSound(table, f);
    MessageCursorsFaithful(table, f);
    TextWalkExact(MessageQuery(table, f), MessageCursors, MessageScheme(limit));
  }

  /** The full result: exactly the stored messages that meet every given condition, latest first and then by
      falling id. */
  lemma MessageRows(table: seq<Message>, f: MessageFilter)
    requires UniqueIds(table)
    ensures var all := Remaining(MessageQuery(table, f), None);
            && (forall m :: m in all <==>
                  && m in table && (f.includeDeleted || !m.deleted)
                  && (f.room.Some? ==> m.room == f.room.value) && (f.sender.Some? ==> m.sender == f.sender)
                  && (f.sourceType.Some? ==> m.sourceType == f.sourceType.value)
                  && (f.messageType.Some? ==> m.messageType == f.messageType.value)
                  && (f.receivedAfter.Some? ==> m.receivedAt >= f.receivedAfter.value)
                  && (f.receivedBefore.Some? ==> m.receivedAt <= f.receivedBefore.value))
            && (forall i, j :: 0 <= i < j < |all| ==>
                  all[i].receivedAt > all[j].receivedAt || (all[i].receivedAt == all[j].receivedAt && all[i].id > all[j].id))
  {
    MessagesSound(table, f);
    RemainingSorted(MessageQuery(table, f), None);
  }

  /** A page holds as many of the remaining rows as the service shows at most: 1 to 200. */
  lemma MessagePageSize(remaining: seq<Message>, limit: int)
    ensures |PageOf(remaining, MessageScheme(limit))| == Min(|remaining|, Max(1, Min(limit, 200)))
  {
  }

  // ---- Send targets ----

  /** The row of a room: its latest message. */
  predicate IsLatest(table: seq<Message>, m: Message) {
    forall o :: o in table && o.room == m.room ==> o == m || Newer(m, o)
  }

  function LatestPerRoom(table: seq<Message>): seq<Message> { Filter((m: Message) => IsLatest(table, m), table) }

  /** Each room with a message has exactly one target row. */
  lemma OneTargetPerRoom(table: seq<Message>, m: Message)
    requires UniqueIds(table) && m in table
    ensures exists t :: t in LatestPerRoom(table) && t.room == m.room
    ensures forall s, t :: s in LatestPerRoom(table) && t in LatestPerRoom(table) && s.room == t.room ==> s == t
  {
    FilterElems((x: Message) => IsLatest(table, x), table);
    var f := MessageFilter(Some(m.room), None, None, None, None, None, true);
    MessagesSound(table, f);
    RemainingSorted(MessageQuery(table, f), None);
    var rows := Remaining(MessageQuery(table, f), None);
    assert m in rows;
    var t := rows[0];
    forall o | o in table && o.room == t.room ensures o == t || Newer(t, o) {
      assert t in rows && o in rows;
      var i :| 0 <= i < |rows| && rows[i] == o;
    }
    assert t in rows && IsLatest(table, t);
  }

  /** ORDER BY received_at DESC, room_key ASC, message_id DESC. */
  predicate TargetLess(a: Message, b: Message) {
    || a.receivedAt > b.receivedAt
    || (a.receivedAt == b.receivedAt && StrLess(a.room, b.room))
    || (a.receivedAt == b.receivedAt && a.room == b.room && a.id > b.id)
  }

  function TargetQuery(table: seq<Message>, where: Message -> bool): Query<Message> {
    Query(LatestPerRoom(table), where, TargetLess)
  }

  /** The service clamps to the configured maximum, the repository to 10000; there is no look-ahead. */
  function TargetScheme(limit: int, maxPageSize: int): Scheme {
    var page := Max(Min(limit, maxPageSize), 1);
    Scheme(Clamp(page, 1, 10000), page, false)
  }

  lemma TargetOrder()
    ensures StrictOrder(TargetLess)
  {
    forall x: Message ensures !TargetLess(x, x) { StrIrreflexive(x.room); }
    forall x, y, z: Message | TargetLess(x, y) && TargetLess(y, z) ensures TargetLess(x, z) {
      if StrLess(x.room, y.room) && StrLess(y.room, z.room) { StrTransitive(x.room, y.room, z.room); }
    }
  }

  lemma TargetsSound(table: seq<Message>, where: Message -> bool)
    requires UniqueIds(table)
    ensures Sound(TargetQuery(table, where))
  {
    TargetOrder();
    assert NoDup(table);
    FilterElems((m: Message) => IsLatest(table, m), table);
    var rows := LatestPerRoom(table);
    forall x, y | x in rows && y in rows && x != y ensures TargetLess(x, y) || TargetLess(y, x) {
      StrTotal(x.room, y.room);
      OneTargetPerRoom(table, x);
    }
  }

  predicate TargetBeyond(cursor: string, m: Message) {
    var c := ParseTargetCursor(cursor);
    || cursor == "" || c.None?
    || m.receivedAt < c.value.0
    || (m.receivedAt == c.value.0 && StrLess(c.value.2, m.room))
    || (m.receivedAt == c.value.0 && m.room == c.value.2 && m.id < c.value.1)
  }

  lemma TargetCursorExact(last: Message, m: Message)
    ensures TargetBeyond(TargetCursor(last.receivedAt, last.id, last.room), m) <==> TargetLess(last, m)
  {
    TargetCursorParses(last.receivedAt, last.id, last.room);
  }

  const TargetCursors: Cursors<Message> :=
    Cursors((m: Message) => TargetCursor(m.receivedAt, m.id, m.room), (cursor: string, m: Message) => TargetBeyond(cursor, m))

  lemma TargetCursorsFaithful(table: seq<Message>, where: Message -> bool)
    ensures Faithful(TargetQuery(table, where), TargetCursors)
  {
    forall r: Message, m: Message ensures TargetCursors.beyond(TargetCursors.show(r), m) <==> TargetLess(r, m) {
      TargetCursorExact(r, m);
    }
  }

  /** Following the target cursor shows every matching room's row once, in order, exactly when the
      effective page size is at most 10000 or one fetch of 10000 holds everything. */
  lemma TargetPages(table: seq<Message>, where: Message -> bool, limit: int, maxPageSize: int)
    requires UniqueIds(table)
    ensures var q := TargetQuery(table, where);
            && Sound(q) && Faithful(q, TargetCursors) && Written(TargetCursors, "")
            && var all := Remaining(q, None);
               TextWalk(q, TargetCursors, TargetScheme(limit, maxPageSize), "") == all
               <==> Min(limit, maxPageSize) <= 10000 || |all| <= 10000
  {
    TargetsSound(table, where);
    TargetCursorsFaithful(table, where);
    TextWalkExact(TargetQuery(table, where), TargetCursors, TargetScheme(limit, maxPageSize));
  }

  /** The full result: exactly the rows of the filter that are the latest of their room, by time, room and id;
      no other message of the room is later. */
  lemma TargetRows(table: seq<Message>, where: Message -> bool)
    requires UniqueIds(table)
    ensures var all := Remaining(TargetQuery(table, where), None);
            && (forall m :: m in all <==>
                  && m in table && where(m)
                  && forall o :: o in table && o.room == m.room ==>
                       o.receivedAt < m.receivedAt || (o.receivedAt == m.receivedAt && o.id <= m.id))
            && (forall i, j :: 0 <= i < j < |all| ==>
                  || all[i].receivedAt > all[j].receivedAt
                  || (all[i].receivedAt == all[j].receivedAt && StrLess(all[i].room, all[j].room)))
  {
    TargetsSound(table, where);
    RemainingSorted(TargetQuery(table, where), None);
    FilterElems((m: Message) => IsLatest(table, m), table);
    var all := Remaining(TargetQuery(table, where), None);
    forall m | m in table ensures IsLatest(table, m) <==>
      forall o :: o in table && o.room == m.room ==> o.receivedAt < m.receivedAt || (o.receivedAt == m.receivedAt && o.id <= m.id) {
      LatestExact(table, m);
    }
    forall i, j | 0 <= i < j < |all| ensures all[i].receivedAt > all[j].receivedAt
                                             || (all[i].receivedAt == all[j].receivedAt && StrLess(all[i].room, all[j].room)) {
      assert TargetLess(all[i], all[j]) && all[i] in all && all[j] in all;
      OneTargetPerRoom(table, all[i]);
      if all[i].room == all[j].room { assert all[i] == all[j]; }
    }
  }

  lemma LatestExact(table: seq<Message>, m: Message)
    requires UniqueIds(table) && m in table
    ensures IsLatest(table, m) <==>
            forall o :: o in table && o.room == m.room ==>
              o.receivedAt < m.receivedAt || (o.receivedAt == m.receivedAt && o.id <= m.id)
  {
    forall o | o in table && o.id == m.id ensures o == m {
      var i :| 0 <= i < |table| && table[i] == o;
      var j :| 0 <= j < |table| && table[j] == m;
      assert !(i < j) && !(j < i);
    }
  }

  /** A page holds as many of the remaining rows as the configured maximum allows, up to 10000. */
  lemma TargetPageSize(remaining: seq<Message>, limit: int, maxPageSize: int)
    ensures |PageOf(remaining, TargetScheme(limit, maxPageSize))|
            == Min(|remaining|, Min(10000, Max(1, Min(limit, maxPageSize))))
  {
  }

  // ---- Batch items ----

  datatype Item = Item(id: int, batch: string, room: string, status: string)

  predicate ItemLess(a: Item, b: Item) { a.id < b.id }

  ghost predicate UniqueItems(table: seq<Item>) {
    forall i, j :: 0 <= i < j < |table| ==> table[i].id != table[j].id
  }

  function ItemQuery(table: seq<Item>, batch: string): Query<Item> {
    Query(table, (r: Item) => r.batch == batch, ItemLess)
  }

  /** Only the repository clamps, to 1..1000; the next-page test compares with the requested limit. */
  function ItemScheme(limit: int): Scheme { Scheme(Clamp(limit, 1, 1000), limit, false) }

  /** The item cursor is the row id; anything unreadable counts as -1. */
  predicate ItemBeyond(cursor: string, r: Item) {
    cursor == "" || r.id > (var c := ParseInt(cursor); if c.None? then -1 else c.value)
  }

  lemma ItemCursorExact(last: Item, r: Item)
    ensures ItemBeyond(Show(last.id), r) <==> ItemLess(last, r)
  {
    ShowParses(last.id);
  }

  const ItemCursors: Cursors<Item> :=
    Cursors((r: Item) => Show(r.id), (cursor: string, r: Item) => ItemBeyond(cursor, r))

  lemma ItemsSound(table: seq<Item>, batch: string)
    requires UniqueItems(table)
    ensures Sound(ItemQuery(table, batch)) && Faithful(ItemQuery(table, batch), ItemCursors)
  {
    forall x, y | x in table && y in table && x != y ensures ItemLess(x, y) || ItemLess(y, x) {
      var i :| 0 <= i < |table| && table[i] == x;
      var j :| 0 <= j < |table| && table[j] == y;
      assert i < j || j < i;
    }
    forall r: Item, m: Item ensures ItemCursors.beyond(ItemCursors.show(r), m) <==> ItemLess(r, m) {
      ItemCursorExact(r, m);
    }
  }

  /** Following the item cursor shows the whole batch, in order, exactly when the requested limit is
      within 1..1000 or the clamped limit holds everything. */
  lemma ItemPages(table: seq<Item>, batch: string, limit: int)
    requires UniqueItems(table)
    ensures var q := ItemQuery(table, batch);
            && Sound(q) && Faithful(q, ItemCursors) && Written(ItemCursors, "")
            && var all := Remaining(q, None);
               TextWalk(q, ItemCursors, ItemScheme(limit), "") == all
               <==> 1 <= limit <= 1000 || |all| <= Clamp(limit, 1, 1000)
  {
    ItemsSound(table, batch);
    TextWalkExact(ItemQuery(table, batch), ItemCursors, ItemScheme(limit));
  }

  /** The full result: exactly the items of the batch, by rising id; a page holds 1 to 1000 of them. */
  lemma ItemRows(table: seq<Item>, batch: string)
    requires UniqueItems(table)
    ensures var all := Remaining(ItemQuery(table, batch), None);
            && (forall r :: r in all <==> r in table && r.batch == batch)
            && (forall i, j :: 0 <= i < j < |all| ==> all[i].id < all[j].id)
  {
    ItemsSound(table, batch);
    RemainingSorted(ItemQuery(table, batch), None);
  }

  lemma ItemPageSize(remaining: seq<Item>, limit: int)
    ensures |PageOf(remaining, ItemScheme(limit))| == Min(|remaining|, Max(1, Min(limit, 1000)))
  {
  }
}
