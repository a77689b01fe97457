/** Descending keyset pagination, shared by the three bounded lists of the Control Room
    (backend/src/eventharbor/control_room.py). */
module Paging {
  import opened Schema

  /** The sort keys a cursor carries. */
  datatype PageCursor = PageCursor(timestamp: Time, rowId: Id)

  /** A result row: its sort keys and the record it stands for. */
  datatype Row = Row(key: PageCursor, record: Id)

  datatype Page = Page(items: seq<Row>, next: Option<PageCursor>)

  /** a comes after b in the list. */
  predicate Below(a: PageCursor, b: PageCursor) {
    a.timestamp < b.timestamp || (a.timestamp == b.timestamp && a.rowId < b.rowId)
  }

  predicate KeysUnique(rows: set<Row>) {
    forall r1, r2 | r1 in rows && r2 in rows && r1.key == r2.key :: r1 == r2
  }

  predicate IsTop(rows: set<Row>, top: Row) {
    top in rows && forall r | r in rows && r != top :: Below(r.key, top.key)
  }

  lemma BelowIsAnOrder(a: PageCursor, b: PageCursor, c: PageCursor)
    ensures Below(a, b) && Below(b, c) ==> Below(a, c)
    ensures a != b ==> Below(a, b) || Below(b, a)
  {
  }

  lemma {:induction false} TopExists(rows: set<Row>) returns (top: Row)
    requires rows != {} && KeysUnique(rows)
    ensures IsTop(rows, top)
    decreases |rows|
  {
    hide Below;
    var some: Row :| some in rows;
    var rest := rows - {some};
    assert rows == rest + {some};
    if rest == {} {
      top := some;
    } else {
      var best := TopExists(rest);
      BelowIsAnOrder(some.key, best.key, some.key);
      top := if Below(some.key, best.key) then best else some;
      forall r | r in rows && r != top ensures Below(r.key, top.key) {
        if r != some && r != best { BelowIsAnOrder(r.key, best.key, some.key); }
      }
    }
  }

  /** The rows from the newest to the oldest, ties broken by id; their keys are distinct. */
  ghost function Descending(rows: set<Row>): (list: seq<Row>)
    requires KeysUnique(rows)
    ensures |list| == |rows|
    decreases |rows|
  {
    if rows == {} then []
    else
      assert exists top :: IsTop(rows, top) by { var top := TopExists(rows); }
      var top :| IsTop(rows, top);
      [top] + Descending(rows - {top})
  }

  /** A listing is its top row, followed by the listing of the others. */
  lemma DescendingUnfolds(rows: set<Row>) returns (top: Row)
    requires KeysUnique(rows) && rows != {}
    ensures IsTop(rows, top) && KeysUnique(rows - {top})
    ensures Descending(rows) == [top] + Descending(rows - {top})
  {
    hide Below;
    top := Descending(rows)[0];
  }

  /** The listing is exactly the rows, each once, in strictly descending key order. */
  lemma {:induction false} DescendingIsTheList(rows: set<Row>)
    requires KeysUnique(rows)
    ensures forall r :: r in Descending(rows) <==> r in rows
    ensures forall i, j | 0 <= i < j < |Descending(rows)| ::
              Below(Descending(rows)[j].key, Descending(rows)[i].key)
    decreases |rows|
  {
    hide Below, Descending, KeysUnique;
    if rows == {} {
      assert |Descending(rows)| == 0;
    } else {
      var top := DescendingUnfolds(rows);
      var list, rest := Descending(rows), Descending(rows - {top});
      DescendingIsTheList(rows - {top});
      forall i, j | 0 <= i < j < |list| ensures Below(list[j].key, list[i].key) {
        assert list[j] == rest[j - 1] && rest[j - 1] in rest;
        if i > 0 { assert list[i] == rest[i - 1]; }
      }
    }
  }

  /** The rows a query with this cursor may return. */
  function Visible(rows: set<Row>, cursor: Option<PageCursor>): set<Row> {
    if cursor.None? then rows else set r | r in rows && Below(r.key, cursor.value)
  }

  /** One query: fetch limit + 1 rows below the cursor, show `limit` of them, and continue from
      the last one shown when more were fetched. */
  ghost function ListPage(rows: set<Row>, limit: nat, cursor: Option<PageCursor>): Page
    requires KeysUnique(rows)
  {
    var list := Descending(Visible(rows, cursor));
    var fetched := if |list| > limit + 1 then list[..limit + 1] else list;
    var shown := if |fetched| > limit then fetched[..limit] else fetched;
    Page(shown,
         if |fetched| > limit && shown != [] then Some(shown[|shown| - 1].key) else None)
  }

  /** What is left below the i-th row of a listing is the rest of that listing. */
  lemma {:induction false} RestOfTheList(rows: set<Row>, i: nat)
    requires KeysUnique(rows) && i < |rows|
    ensures Descending(Visible(rows, Some(Descending(rows)[i].key))) == Descending(rows)[i + 1..]
    decreases |rows|
  {
    hide Below, Visible;
    var list := Descending(rows);
    var top := list[0];
    assert IsTop(rows, top) && list[1..] == Descending(rows - {top});
    if i == 0 {
      OnlyTheTopIsHidden(rows, top);
    } else {
      RestOfTheList(rows - {top}, i - 1);
      assert list[i] == list[1..][i - 1];
      DescendingIsTheList(rows);
      TopIsNotBelow(rows, top, list[i].key);
    }
  }

  lemma TopIsNotBelow(rows: set<Row>, top: Row, key: PageCursor)
    requires top in rows && Below(key, top.key)
    ensures Visible(rows, Some(key)) == Visible(rows - {top}, Some(key))
  {
  }

  lemma OnlyTheTopIsHidden(rows: set<Row>, top: Row)
    requires IsTop(rows, top)
    ensures Visible(rows, Some(top.key)) == rows - {top}
  {
  }

  lemma VisibleBelowVisible(rows: set<Row>, cursor: Option<PageCursor>, r: Row)
    requires r in Visible(rows, cursor)
    ensures Visible(Visible(rows, cursor), Some(r.key)) == Visible(rows, Some(r.key))
  {
  }

  /** Follow `next_cursor` until it is absent. */
  ghost function Walk(rows: set<Row>, limit: nat, cursor: Option<PageCursor>): seq<Row>
    requires KeysUnique(rows) && limit >= 1
    decreases |Visible(rows, cursor)|
  {
    var page := ListPage(rows, limit, cursor);
    if page.next.None? then page.items
    else
      NextPageShrinks(rows, limit, cursor);
      page.items + Walk(rows, limit, page.next)
  }

  lemma {:induction false} NextPageShrinks(rows: set<Row>, limit: nat, cursor: Option<PageCursor>)
    requires KeysUnique(rows) && limit >= 1 && ListPage(rows, limit, cursor).next.Some?
    ensures var list := Descending(Visible(rows, cursor));
            && |list| > limit
            && ListPage(rows, limit, cursor).items == list[..limit]
            && Descending(Visible(rows, ListPage(rows, limit, cursor).next)) == list[limit..]
            && |Visible(rows, ListPage(rows, limit, cursor).next)| < |Visible(rows, cursor)|
  {
    hide Below, Descending;
    var seen := Visible(rows, cursor);
    var list := Descending(seen);
    RestOfTheList(seen, limit - 1);
    DescendingIsTheList(seen);
    VisibleBelowVisible(rows, cursor, list[limit - 1]);
  }

  /** For any page size, walking the cursors visits exactly the rows a single unbounded query
      would list, in the same order: nothing is skipped and nothing is repeated. */
  lemma {:induction false} WalkIsTheList(rows: set<Row>, limit: nat, cursor: Option<PageCursor>)
    requires KeysUnique(rows) && limit >= 1
    ensures Walk(rows, limit, cursor) == Descending(Visible(rows, cursor))
    decreases |Visible(rows, cursor)|
  {
    hide Below, Descending;
    var page := ListPage(rows, limit, cursor);
    if page.next.Some? {
      NextPageShrinks(rows, limit, cursor);
      WalkIsTheList(rows, limit, page.next);
      var list := Descending(Visible(rows, cursor));
      assert list == list[..limit] + list[limit..];
    }
  }
}
