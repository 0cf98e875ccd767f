/** Keyset pagination: what following `nextCursor` to the end returns. */
module Paging {
  import opened Common
  import opened Sorting

  /** A SELECT without its cursor and limit: a table, a WHERE clause and an ORDER BY. */
  datatype Query<!T> = Query(table: seq<T>, where: T -> bool, less: (T, T) -> bool)

  ghost predicate Sound<T(!new)>(q: Query<T>) {
    StrictOrder(q.less) && TotalOn(q.less, q.table) && NoDup(q.table)
  }

  /** How a service asks for pages. It fetches `fetch` rows and shows at most `page` of them. With
      `lookAhead` there is a next page when more than `page` rows came back, otherwise when exactly
      `page` rows did. */
  datatype Scheme = Scheme(fetch: nat, page: int, lookAhead: bool)

  function Take<T>(s: seq<T>, n: int): seq<T> { if n <= 0 then [] else if n < |s| then s[..n] else s }

  /** The WHERE clause with the cursor's comparison added. */
  function Beyond<T>(q: Query<T>, cursor: Option<T>): T -> bool {
    (r: T) => q.where(r) && (cursor.None? || q.less(cursor.value, r))
  }

  function Remaining<T>(q: Query<T>, cursor: Option<T>): seq<T> { Sort(q.less, Filter(Beyond(q, cursor), q.table)) }

  /** The page shown of the rows that remain. The full-page services show everything they fetched. */
  function PageOf<T>(remaining: seq<T>, sch: Scheme): seq<T> {
    var rows := Take(remaining, sch.fetch);
    if sch.lookAhead then Take(rows, sch.page) else rows
  }

  /** The row the next page starts after, if the service reports a next page. */
  function NextOf<T>(remaining: seq<T>, sch: Scheme): Option<T> {
    var rows, shown := Take(remaining, sch.fetch), PageOf(remaining, sch);
    var more := if sch.lookAhead then |rows| > sch.page else |rows| == sch.page;
    if more && shown != [] then Some(shown[|shown| - 1]) else None
  }

  function PageRows<T>(q: Query<T>, sch: Scheme, cursor: Option<T>): seq<T> { PageOf(Remaining(q, cursor), sch) }

  function NextCursor<T>(q: Query<T>, sch: Scheme, cursor: Option<T>): Option<T> { NextOf(Remaining(q, cursor), sch) }

  // ---- Rows beyond a row are the rows after it ----

  lemma RemainingSorted<T(!new)>(q: Query<T>, cursor: Option<T>)
    requires Sound(q)
    ensures StrictlySorted(q.less, Remaining(q, cursor))
    ensures forall x :: x in Remaining(q, cursor) <==> x in q.table && Beyond(q, cursor)(x)
  {
    FilterElems(Beyond(q, cursor), q.table);
    SortSorted(q.less, Filter(Beyond(q, cursor), q.table));
    SortElems(q.less, Filter(Beyond(q, cursor), q.table));
  }

  lemma SuffixElems<T(!new)>(less: (T, T) -> bool, s: seq<T>, i: nat, x: T)
    requires StrictOrder(less) && StrictlySorted(less, s) && i < |s|
    ensures x in s[i + 1..] <==> x in s && less(s[i], x)
  {
    if x in s && less(s[i], x) {
      var j :| 0 <= j < |s| && s[j] == x;
      assert i < j;
      assert s[i + 1..][j - i - 1] == x;
    }
    if x in s[i + 1..] {
      var j :| 0 <= j < |s[i + 1..]| && s[i + 1..][j] == x;
      assert s[i + 1 + j] == x;
    }
  }

  /** Asking again with row `i` of the remaining rows as the cursor gives the rows after it. */
  lemma RemainingSuffix<T(!new)>(q: Query<T>, cursor: Option<T>, i: nat)
    requires Sound(q) && i < |Remaining(q, cursor)|
    ensures Remaining(q, Some(Remaining(q, cursor)[i])) == Remaining(q, cursor)[i + 1..]
  {
    var all := Remaining(q, cursor);
    var next := Some(all[i]);
    RemainingSorted(q, cursor);
    RemainingSorted(q, next);
    forall x ensures x in Remaining(q, next) <==> x in all[i + 1..] {
      SuffixElems(q.less, all, i, x);
      assert all[i] in all;
      if cursor.Some? && q.less(all[i], x) { assert q.less(cursor.value, all[i]); }
    }
    SortedUnique(q.less, Remaining(q, next), all[i + 1..]);
  }

  lemma NextIsRemaining<T(!new)>(q: Query<T>, sch: Scheme, cursor: Option<T>)
    requires Sound(q) && NextCursor(q, sch, cursor).Some?
    ensures var n := |PageRows(q, sch, cursor)|;
            && 1 <= n <= |Remaining(q, cursor)|
            && PageRows(q, sch, cursor) == Remaining(q, cursor)[..n]
            && Remaining(q, NextCursor(q, sch, cursor)) == Remaining(q, cursor)[n..]
  {
    RemainingSuffix(q, cursor, |PageRows(q, sch, cursor)| - 1);
  }

  // ---- Following the cursor ----

  /** All rows shown when a client follows `nextCursor` until it is null. */
  ghost function Walk<T(!new)>(q: Query<T>, sch: Scheme, cursor: Option<T>): seq<T>
    requires Sound(q)
    decreases |Remaining(q, cursor)|
  {
    var next := NextCursor(q, sch, cursor);
    if next.None? then PageRows(q, sch, cursor)
    else
      NextIsRemaining(q, sch, cursor);
      PageRows(q, sch, cursor) + Walk(q, sch, next)
  }

  /** The scheme fetches what its next-page test expects. */
  predicate Exact(sch: Scheme) {
    sch.page >= 1 && sch.fetch == if sch.lookAhead then sch.page + 1 else sch.page
  }

  lemma LastPage<T(!new)>(q: Query<T>, sch: Scheme, cursor: Option<T>)
    requires Exact(sch) && NextCursor(q, sch, cursor).None?
    ensures PageRows(q, sch, cursor) == Remaining(q, cursor)
  {
  }

  /** An exact scheme shows every remaining row once, in order. */
  lemma {:induction false} WalkComplete<T(!new)>(q: Query<T>, sch: Scheme, cursor: Option<T>)
    requires Sound(q) && Exact(sch)
    ensures Walk(q, sch, cursor) == Remaining(q, cursor)
    decreases |Remaining(q, cursor)|
  {
    var next := NextCursor(q, sch, cursor);
    if next.Some? {
      NextIsRemaining(q, sch, cursor);
      WalkComplete(q, sch, next);
      var all, n := Remaining(q, cursor), |PageRows(q, sch, cursor)|;
      assert all == all[..n] + all[n..];
    } else {
      LastPage(q, sch, cursor);
    }
  }

  /** A service whose fetch was capped never reports a next page, and shows only what it fetched. */
  predicate Capped(sch: Scheme) {
    sch.fetch >= 1 && if sch.lookAhead then sch.fetch <= sch.page else sch.fetch != sch.page && (sch.page <= 0 || sch.fetch < sch.page)
  }

  lemma CappedIsOnePage<T(!new)>(q: Query<T>, sch: Scheme, cursor: Option<T>)
    requires Sound(q) && Capped(sch)
    ensures NextCursor(q, sch, cursor).None?
    ensures Walk(q, sch, cursor) == Take(Remaining(q, cursor), sch.fetch)
  {
  }

  // ---- The cursor as text ----

  /** How a service writes a row as a cursor, and the condition its repository reads from a cursor. */
  datatype Cursors<!T> = Cursors(show: T -> string, beyond: (string, T) -> bool)

  /** The empty cursor selects every row, and a written one exactly the rows that sort after its row. */
  ghost predicate Faithful<T(!new)>(q: Query<T>, cur: Cursors<T>) {
    && (forall m :: cur.beyond("", m))
    && (forall r, m :: cur.beyond(cur.show(r), m) <==> q.less(r, m))
  }

  function TextOf<T>(cur: Cursors<T>, cursor: Option<T>): string {
    if cursor.None? then "" else cur.show(cursor.value)
  }

  function TextBeyond<T>(q: Query<T>, cur: Cursors<T>, cursor: string): T -> bool {
    (r: T) => q.where(r) && cur.beyond(cursor, r)
  }

  function TextRemaining<T>(q: Query<T>, cur: Cursors<T>, cursor: string): seq<T> {
    Sort(q.less, Filter(TextBeyond(q, cur, cursor), q.table))
  }

  /** `nextCursor`, as the client gets it. */
  function TextNext<T>(q: Query<T>, cur: Cursors<T>, sch: Scheme, cursor: string): Option<string> {
    var next := NextOf(TextRemaining(q, cur, cursor), sch);
    if next.None? then None else Some(cur.show(next.value))
  }

  /** A cursor a client can have: none, or one that a service wrote. */
  ghost predicate Written<T(!new)>(cur: Cursors<T>, cursor: string) { exists c: Option<T> :: cursor == TextOf(cur, c) }

  lemma TextReadsSame<T(!new)>(q: Query<T>, cur: Cursors<T>, cursor: Option<T>)
    requires Faithful(q, cur)
    ensures TextRemaining(q, cur, TextOf(cur, cursor)) == Remaining(q, cursor)
  {
    var p, r := TextBeyond(q, cur, TextOf(cur, cursor)), Beyond(q, cursor);
    forall x: T ensures p(x) == r(x) {}
    FilterSame(p, r, q.table);
  }

  lemma TextShrinks<T(!new)>(q: Query<T>, cur: Cursors<T>, sch: Scheme, cursor: string)
    requires Sound(q) && Faithful(q, cur) && Written(cur, cursor) && TextNext(q, cur, sch, cursor).Some?
    ensures Written(cur, TextNext(q, cur, sch, cursor).value)
    ensures |TextRemaining(q, cur, TextNext(q, cur, sch, cursor).value)| < |TextRemaining(q, cur, cursor)|
  {
    var c: Option<T> :| cursor == TextOf(cur, c);
    TextReadsSame(q, cur, c);
    var next := NextCursor(q, sch, c);
    TextReadsSame(q, cur, next);
    NextIsRemaining(q, sch, c);
    assert TextNext(q, cur, sch, cursor).value == TextOf(cur, next);
  }

  /** All rows shown when a client sends each `nextCursor` back until it is null. */
  ghost function TextWalk<T(!new)>(q: Query<T>, cur: Cursors<T>, sch: Scheme, cursor: string): seq<T>
    requires Sound(q) && Faithful(q, cur) && Written(cur, cursor)
    decreases |TextRemaining(q, cur, cursor)|
  {
    var next := TextNext(q, cur, sch, cursor);
    var page := PageOf(TextRemaining(q, cur, cursor), sch);
    if next.None? then page
    else
      TextShrinks(q, cur, sch, cursor);
      page + TextWalk(q, cur, sch, next.value)
  }

  /** Following texts shows what following rows does. */
  lemma {:induction false} TextWalkSame<T(!new)>(q: Query<T>, cur: Cursors<T>, sch: Scheme, cursor: Option<T>)
    requires Sound(q) && Faithful(q, cur)
    ensures Written(cur, TextOf(cur, cursor))
    ensures TextWalk(q, cur, sch, TextOf(cur, cursor)) == Walk(q, sch, cursor)
    decreases |Remaining(q, cursor)|
  {
    TextReadsSame(q, cur, cursor);
    var next := NextCursor(q, sch, cursor);
    if next.Some? {
      NextIsRemaining(q, sch, cursor);
      TextWalkSame(q, cur, sch, next);
    }
  }

  lemma NoCursor<T(!new)>(cur: Cursors<T>)
    ensures Written(cur, "")
  {
    assert TextOf(cur, None) == "";
  }

  /** The rows a client can see are all rows exactly when the fetch is not capped or one fetch is
      enough. */
  lemma WalkExact<T(!new)>(q: Query<T>, sch: Scheme)
    requires Sound(q) && (Exact(sch) || Capped(sch))
    ensures Walk(q, sch, None) == Remaining(q, None) <==> Exact(sch) || |Remaining(q, None)| <= sch.fetch
  {
    if Exact(sch) {
      WalkComplete(q, sch, None);
    } else {
      CappedIsOnePage(q, sch, None);
    }
  }

  /** The same for a client that passes cursor texts, starting without one. */
  lemma TextWalkExact<T(!new)>(q: Query<T>, cur: Cursors<T>, sch: Scheme)
    requires Sound(q) && Faithful(q, cur) && (Exact(sch) || Capped(sch))
    ensures Written(cur, "")
    ensures TextWalk(q, cur, sch, "") == Remaining(q, None) <==> Exact(sch) || |Remaining(q, None)| <= sch.fetch
  {
    NoCursor(cur);
    TextWalkSame(q, cur, sch, None);
    WalkExact(q, sch);
  }
}
