/** Keyset pagination of the public event list, under all four sorts and under change. */
module Keyset {
  import opened Rows
  import opened Wrappers

  type Micros = int

  /** An event as the list sees it; titles by their place in the collation, everything filterable in `attributes`. */
  datatype Listed = Listed(id: int, startsAt: Micros, title: int, attributes: int)

  datatype Sort = StartAsc | StartDesc | NameAsc | NameDesc

  predicate ByStart(sort: Sort) {
    sort.StartAsc? || sort.StartDesc?
  }

  function Direction(sort: Sort): int {
    if sort.StartAsc? || sort.NameAsc? then 1 else -1
  }

  function KeyOf(sort: Sort, e: Listed): int {
    if ByStart(sort) then e.startsAt else e.title
  }

  /** A place in the listing, turned so that further on is greater under every sort. */
  datatype Position = Position(key: int, id: int)

  predicate Less(p: Position, q: Position) {
    p.key < q.key || (p.key == q.key && p.id < q.id)
  }

  function At(sort: Sort, e: Listed): Position {
    Position(Direction(sort) * KeyOf(sort, e), Direction(sort) * e.id)
  }

  /** What a cursor remembers of a key: a start time goes through a JavaScript date and keeps whole milliseconds. */
  function CursorKey(sort: Sort, e: Listed): int {
    if ByStart(sort) then e.startsAt - e.startsAt % 1000 else e.title
  }

  function CursorAt(sort: Sort, e: Listed): Position {
    Position(Direction(sort) * CursorKey(sort, e), Direction(sort) * e.id)
  }

  ghost predicate DistinctIds(rows: set<Listed>) {
    forall a, b :: a in rows && b in rows && a.id == b.id ==> a == b
  }

  // ------------------------------------------------------------------- one page

  /** WHERE the filters hold and the row lies strictly past the cursor. */
  function Past(rows: set<Listed>, keep: Listed -> bool, sort: Sort, cursor: Option<Position>): set<Listed> {
    set e | e in rows && keep(e) && (cursor.Some? ==> Less(cursor.value, At(sort, e)))
  }

  ghost predicate IsFirst(rows: set<Listed>, sort: Sort, e: Listed) {
    e in rows && forall f :: f in rows && f != e ==> Less(At(sort, e), At(sort, f))
  }

  lemma PositionsDiffer(sort: Sort, a: Listed, b: Listed)
    requires a.id != b.id
    ensures Less(At(sort, a), At(sort, b)) || Less(At(sort, b), At(sort, a))
  {
  }

  lemma {:induction false} FirstExists(rows: set<Listed>, sort: Sort) returns (e: Listed)
    requires rows != {} && DistinctIds(rows)
    ensures IsFirst(rows, sort, e)
    decreases |rows|
  {
    hide At;
    var d := Pick(rows);
    var rest := rows - {d};
    assert forall f :: f in rows ==> f == d || f in rest;
    if rest == {} {
      e := d;
    } else {
      var f := FirstExists(rest, sort);
      PositionsDiffer(sort, d, f);
      e := if Less(At(sort, d), At(sort, f)) then d else f;
    }
  }

  /** ORDER BY the sort's key and id. */
  ghost function InOrder(rows: set<Listed>, sort: Sort): (listing: seq<Listed>)
    requires DistinctIds(rows)
    ensures forall e :: e in listing <==> e in rows
    ensures Rising(sort, listing)
    decreases |rows|
  {
    if rows == {} then []
    else
      assert exists e :: IsFirst(rows, sort, e) by { var e := FirstExists(rows, sort); }
      var e :| IsFirst(rows, sort, e);
      [e] + InOrder(rows - {e}, sort)
  }

  ghost predicate Rising(sort: Sort, listing: seq<Listed>) {
    forall i, j :: 0 <= i < j < |listing| ==> Less(At(sort, listing[i]), At(sort, listing[j]))
  }

  /** There is only one way to put the same rows in order. */
  lemma {:induction false} OneOrder(sort: Sort, a: seq<Listed>, b: seq<Listed>)
    requires Rising(sort, a) && Rising(sort, b)
    requires forall e :: e in a <==> e in b
    ensures a == b
    decreases |a|
  {
    if a == [] {
      assert forall i :: 0 <= i < |b| ==> b[i] in b;
    } else {
      assert a[0] in a && a[0] in b;
      assert b[0] in a;
      assert a[0] == b[0];
      forall e ensures e in a[1..] <==> e in b[1..] {
        TailOf(sort, a, e);
        TailOf(sort, b, e);
      }
      OneOrder(sort, a[1..], b[1..]);
    }
  }

  lemma TailOf(sort: Sort, a: seq<Listed>, e: Listed)
    requires Rising(sort, a) && a != []
    ensures e in a[1..] <==> e in a && e != a[0]
  {
    assert a == [a[0]] + a[1..];
  }

  datatype Page = Page(items: seq<Listed>, next: Option<Position>)

  /** Fetch one row more than the page holds, and let it only say that there is more. */
  function Cut(listing: seq<Listed>, sort: Sort, limit: nat): Page
    requires limit >= 1
  {
    var fetched := if |listing| <= limit + 1 then listing else listing[..limit + 1];
    var hasMore := |fetched| > limit;
    var items := if hasMore then fetched[..limit] else fetched;
    Page(items, if hasMore then Some(CursorAt(sort, items[|items| - 1])) else None)
  }

  /** A page is the front of what was found, and there is a next one exactly when something is left. */
  lemma CutIsFront(listing: seq<Listed>, sort: Sort, limit: nat)
    requires limit >= 1
    ensures Cut(listing, sort, limit)
            == if |listing| > limit then Page(listing[..limit], Some(CursorAt(sort, listing[limit - 1]))) else Page(listing, None)
  {
    if |listing| > limit { assert listing[..limit + 1][..limit] == listing[..limit]; }
  }

  /** listPublicEvents. */
  ghost function PageOf(rows: set<Listed>, keep: Listed -> bool, sort: Sort, limit: nat, cursor: Option<Position>): Page
    requires DistinctIds(rows) && limit >= 1
  {
    Cut(InOrder(Past(rows, keep, sort, cursor), sort), sort, limit)
  }

  // ------------------------------------------------------------------- a walk

  /** A cursor says exactly where the row stands: always by name, and by start for whole milliseconds. */
  predicate Precise(sort: Sort, e: Listed) {
    ByStart(sort) ==> e.startsAt % 1000 == 0
  }

  ghost predicate AllPrecise(sort: Sort, rows: set<Listed>) {
    forall e :: e in rows ==> Precise(sort, e)
  }

  /** What following nextCursor collects, and whether it reached a page without one. */
  datatype Trip = Trip(items: seq<Listed>, complete: bool)

  /** One request per element of `snapshots`, each seeing the events as they are then. */
  ghost function Walk(snapshots: seq<set<Listed>>, keep: Listed -> bool, sort: Sort, limit: nat, cursor: Option<Position>): Trip
    requires limit >= 1 && forall i :: 0 <= i < |snapshots| ==> DistinctIds(snapshots[i])
    decreases |snapshots|
  {
    if snapshots == [] then Trip([], false)
    else
      var page := PageOf(snapshots[0], keep, sort, limit, cursor);
      if page.next.None? then Trip(page.items, true)
      else
        var rest := Walk(snapshots[1..], keep, sort, limit, page.next);
        Trip(page.items + rest.items, rest.complete)
  }

  lemma RisingTail(sort: Sort, listing: seq<Listed>, n: nat)
    requires Rising(sort, listing) && n <= |listing|
    ensures Rising(sort, listing[n..])
  {
    forall i, j | 0 <= i < j < |listing[n..]| ensures Less(At(sort, listing[n..][i]), At(sort, listing[n..][j])) {
      assert Less(At(sort, listing[n + i]), At(sort, listing[n + j]));
    }
  }

  lemma SameCursor(sort: Sort, e: Listed)
    requires Precise(sort, e)
    ensures CursorAt(sort, e) == At(sort, e)
  {
  }

  lemma FurtherOn(sort: Sort, cursor: Option<Position>, last: Listed)
    requires cursor.Some? ==> Less(cursor.value, At(sort, last))
    ensures forall p :: Less(At(sort, last), p) && cursor.Some? ==> Less(cursor.value, p)
  {
  }

  lemma AfterLast(sort: Sort, listing: seq<Listed>, n: nat, e: Listed)
    requires Rising(sort, listing) && 1 <= n <= |listing|
    ensures e in listing[n..] <==> e in listing && Less(At(sort, listing[n - 1]), At(sort, e))
  {
    if e in listing && Less(At(sort, listing[n - 1]), At(sort, e)) {
      var k :| 0 <= k < |listing| && listing[k] == e;
      assert forall i :: 0 <= i < n - 1 ==> Less(At(sort, listing[i]), At(sort, listing[n - 1]));
      assert listing[n..][k - n] == e;
    }
    if e in listing[n..] {
      var k :| 0 <= k < |listing[n..]| && listing[n..][k] == e;
      assert listing[n + k] == e && Less(At(sort, listing[n - 1]), At(sort, listing[n + k]));
    }
  }

  /** Past the cursor of a precise row lies exactly what comes after that row. */
  lemma PastLast(rows: set<Listed>, keep: Listed -> bool, sort: Sort, cursor: Option<Position>, listing: seq<Listed>, n: nat)
    requires DistinctIds(rows) && listing == InOrder(Past(rows, keep, sort, cursor), sort)
    requires 1 <= n <= |listing| && Precise(sort, listing[n - 1])
    ensures InOrder(Past(rows, keep, sort, Some(CursorAt(sort, listing[n - 1]))), sort) == listing[n..]
  {
    hide At, CursorAt, Rising;
    SameCursor(sort, listing[n - 1]);
    var last := listing[n - 1];
    var past := Past(rows, keep, sort, Some(CursorAt(sort, last)));
    assert last in listing;
    FurtherOn(sort, cursor, last);
    forall e ensures e in past <==> e in listing[n..] { AfterLast(sort, listing, n, e); }
    RisingTail(sort, listing, n);
    OneOrder(sort, InOrder(past, sort), listing[n..]);
  }

  lemma PastIsDistinct(rows: set<Listed>, keep: Listed -> bool, sort: Sort, cursor: Option<Position>)
    requires DistinctIds(rows)
    ensures DistinctIds(Past(rows, keep, sort, cursor))
  {
  }

  lemma PastRows(rows: set<Listed>, keep: Listed -> bool, sort: Sort, cursor: Option<Position>, e: Listed)
    requires e in Past(rows, keep, sort, cursor)
    ensures e in rows
  {
  }

  /** On data that stands still, a walk of enough requests is complete and collects the sorted list, whole and in order. */
  lemma {:induction false} WalkIsListing(rows: set<Listed>, keep: Listed -> bool, sort: Sort, limit: nat, cursor: Option<Position>, snapshots: seq<set<Listed>>)
    requires limit >= 1 && DistinctIds(rows) && AllPrecise(sort, rows)
    requires forall i :: 0 <= i < |snapshots| ==> snapshots[i] == rows
    requires |snapshots| > |InOrder(Past(rows, keep, sort, cursor), sort)|
    ensures Walk(snapshots, keep, sort, limit, cursor) == Trip(InOrder(Past(rows, keep, sort, cursor), sort), true)
    decreases |snapshots|
  {
    hide InOrder, Cut, At, CursorAt, Past;
    PastIsDistinct(rows, keep, sort, cursor);
    var listing := InOrder(Past(rows, keep, sort, cursor), sort);
    CutIsFront(listing, sort, limit);
    if |listing| > limit {
      assert listing[limit - 1] in listing && listing[limit - 1] in Past(rows, keep, sort, cursor);
      PastRows(rows, keep, sort, cursor, listing[limit - 1]);
      PastLast(rows, keep, sort, cursor, listing, limit);
      WalkIsListing(rows, keep, sort, limit, Some(CursorAt(sort, listing[limit - 1])), snapshots[1..]);
      assert listing == listing[..limit] + listing[limit..];
    }
  }

  /** Everything collected lies past the cursor and rises without a repeat, whatever came and went meanwhile. */
  lemma {:induction false} WalkRises(snapshots: seq<set<Listed>>, keep: Listed -> bool, sort: Sort, limit: nat, cursor: Option<Position>)
    requires limit >= 1 && forall i :: 0 <= i < |snapshots| ==> DistinctIds(snapshots[i]) && AllPrecise(sort, snapshots[i])
    ensures Rising(sort, Walk(snapshots, keep, sort, limit, cursor).items)
    ensures forall e :: e in Walk(snapshots, keep, sort, limit, cursor).items && cursor.Some? ==> Less(cursor.value, At(sort, e))
    ensures forall e :: e in Walk(snapshots, keep, sort, limit, cursor).items ==> exists i :: 0 <= i < |snapshots| && e in snapshots[i]
    decreases |snapshots|
  {
    hide InOrder, Cut, At, CursorAt, Less;
    if snapshots != [] {
      var listing := InOrder(Past(snapshots[0], keep, sort, cursor), sort);
      var page := PageOf(snapshots[0], keep, sort, limit, cursor);
      CutIsFront(listing, sort, limit);
      assert forall e :: e in page.items ==> e in listing;
      assert forall e :: e in listing ==> e in snapshots[0];
      if page.next.Some? {
        var rest := Walk(snapshots[1..], keep, sort, limit, page.next).items;
        WalkRises(snapshots[1..], keep, sort, limit, page.next);
        var last := listing[limit - 1];
        assert last in listing;
        SameCursor(sort, last);
        FurtherOn(sort, cursor, last);
        forall e | e in rest ensures exists i :: 0 <= i < |snapshots| && e in snapshots[i] {
          var i :| 0 <= i < |snapshots[1..]| && e in snapshots[1..][i];
          assert e in snapshots[i + 1];
        }
        RisingJoin(sort, page.items, rest);
      }
    }
  }

  lemma RisingJoin(sort: Sort, a: seq<Listed>, b: seq<Listed>)
    requires Rising(sort, a) && Rising(sort, b) && a != []
    requires forall e :: e in b ==> Less(At(sort, a[|a| - 1]), At(sort, e))
    ensures Rising(sort, a + b)
  {
    forall i, j | 0 <= i < j < |a + b|
      ensures Less(At(sort, (a + b)[i]), At(sort, (a + b)[j]))
    {
      if i < |a| <= j {
        assert b[j - |a|] in b;
      }
    }
  }

  /** Events may be inserted and deleted between requests, but one that stays keeps its sort key. */
  ghost predicate KeysStand(snapshots: seq<set<Listed>>, sort: Sort) {
    forall i, j, a, b :: 0 <= i < |snapshots| && 0 <= j < |snapshots| && a in snapshots[i] && b in snapshots[j] && a.id == b.id
      ==> KeyOf(sort, a) == KeyOf(sort, b)
  }

  /** Inserts and deletes between pages never make an event appear twice. */
  lemma NobodyTwice(snapshots: seq<set<Listed>>, keep: Listed -> bool, sort: Sort, limit: nat)
    requires limit >= 1 && KeysStand(snapshots, sort)
    requires forall i :: 0 <= i < |snapshots| ==> DistinctIds(snapshots[i]) && AllPrecise(sort, snapshots[i])
    ensures var items := Walk(snapshots, keep, sort, limit, None).items;
            forall i, j :: 0 <= i < j < |items| ==> items[i].id != items[j].id
  {
    var items := Walk(snapshots, keep, sort, limit, None).items;
    WalkRises(snapshots, keep, sort, limit, None);
    forall i, j | 0 <= i < j < |items| ensures items[i].id != items[j].id {
      assert items[i] in items && items[j] in items;
      assert Less(At(sort, items[i]), At(sort, items[j]));
    }
  }

  /** An event there all along, unchanged, is collected by any complete walk. */
  lemma {:induction false} NobodySkipped(snapshots: seq<set<Listed>>, keep: Listed -> bool, sort: Sort, limit: nat, cursor: Option<Position>, e: Listed)
    requires limit >= 1 && forall i :: 0 <= i < |snapshots| ==> DistinctIds(snapshots[i]) && AllPrecise(sort, snapshots[i])
    requires forall i :: 0 <= i < |snapshots| ==> e in snapshots[i]
    requires keep(e) && (cursor.Some? ==> Less(cursor.value, At(sort, e)))
    requires Walk(snapshots, keep, sort, limit, cursor).complete
    ensures e in Walk(snapshots, keep, sort, limit, cursor).items
    decreases |snapshots|
  {
    hide InOrder, Cut, At, CursorAt;
    var listing := InOrder(Past(snapshots[0], keep, sort, cursor), sort);
    var page := PageOf(snapshots[0], keep, sort, limit, cursor);
    CutIsFront(listing, sort, limit);
    assert e in listing;
    if page.next.Some? && e !in page.items {
      var last := listing[limit - 1];
      assert last in listing;
      SameCursor(sort, last);
      var k :| 0 <= k < |listing| && listing[k] == e;
      assert forall i :: 0 <= i < limit ==> listing[i] in listing[..limit];
      NobodySkipped(snapshots[1..], keep, sort, limit, page.next, e);
    }
  }

  // -------------------------------------------------- start times between milliseconds

  /**
   Ascending by start, the page after `last` begins where it should exactly when
   `last` starts on a whole millisecond; otherwise `last` itself comes again.
   */
  lemma AscendingRepeatsIff(rows: set<Listed>, keep: Listed -> bool, last: Listed)
    requires DistinctIds(rows) && last in rows && keep(last)
    ensures last !in Past(rows, keep, StartAsc, Some(CursorAt(StartAsc, last))) <==> last.startsAt % 1000 == 0
    ensures last.startsAt % 1000 == 0 ==>
              Past(rows, keep, StartAsc, Some(CursorAt(StartAsc, last))) == Past(rows, keep, StartAsc, Some(At(StartAsc, last)))
  {
  }

  /** A row the truncated cursor has already passed. */
  predicate Overshot(last: Listed, e: Listed) {
    || e.startsAt > last.startsAt - last.startsAt % 1000
    || (e.startsAt == last.startsAt - last.startsAt % 1000 && e.id >= last.id)
  }

  /**
   Descending by start, a matching event after `last` is skipped exactly when its
   start lies above the cursor's truncated time, or on it with an id not below.
   */
  lemma DescendingSkipsIff(rows: set<Listed>, keep: Listed -> bool, last: Listed, e: Listed)
    requires last in rows && e in rows && keep(e) && Less(At(StartDesc, last), At(StartDesc, e))
    ensures e !in Past(rows, keep, StartDesc, Some(CursorAt(StartDesc, last)))
            <==> Overshot(last, e)
  {
  }

  /** The next page begins with the first row past its cursor. */
  lemma PageBegins(rows: set<Listed>, keep: Listed -> bool, sort: Sort, limit: nat, cursor: Option<Position>, e: Listed)
    requires limit >= 1 && DistinctIds(rows) && e in Past(rows, keep, sort, cursor)
    ensures var items := PageOf(rows, keep, sort, limit, cursor).items;
            items != [] && items[0] in Past(rows, keep, sort, cursor) && (items[0] == e || Less(At(sort, items[0]), At(sort, e)))
  {
    hide InOrder, Cut, At, Past;
    PastIsDistinct(rows, keep, sort, cursor);
    var listing := InOrder(Past(rows, keep, sort, cursor), sort);
    CutIsFront(listing, sort, limit);
    assert e in listing;
    var k :| 0 <= k < |listing| && listing[k] == e;
    assert listing[0] in listing;
  }

  /** Walking up by start, the next page is the right one exactly when the last row shown starts on a whole millisecond. */
  lemma AscendingNextPageIff(rows: set<Listed>, keep: Listed -> bool, limit: nat, cursor: Option<Position>, listing: seq<Listed>)
    requires DistinctIds(rows) && listing == InOrder(Past(rows, keep, StartAsc, cursor), StartAsc) && 1 <= limit < |listing|
    ensures PageOf(rows, keep, StartAsc, limit, PageOf(rows, keep, StartAsc, limit, cursor).next) == Cut(listing[limit..], StartAsc, limit)
            <==> listing[limit - 1].startsAt % 1000 == 0
  {
    hide InOrder, Cut, Rising;
    var last := listing[limit - 1];
    var next := PageOf(rows, keep, StartAsc, limit, cursor).next;
    CutIsFront(listing, StartAsc, limit);
    CutIsFront(listing[limit..], StartAsc, limit);
    assert last in listing;
    if last.startsAt % 1000 == 0 {
      PastLast(rows, keep, StartAsc, cursor, listing, limit);
    } else {
      AscendingRepeatsIff(rows, keep, last);
      PageBegins(rows, keep, StartAsc, limit, next, last);
      AfterLast(StartAsc, listing, limit, listing[limit]);
      assert listing[limit..][0] == listing[limit];
    }
  }

  /** Walking down by start, the next page is the right one exactly when the row due next is not overshot. */
  lemma DescendingNextPageIff(rows: set<Listed>, keep: Listed -> bool, limit: nat, cursor: Option<Position>, listing: seq<Listed>)
    requires DistinctIds(rows) && listing == InOrder(Past(rows, keep, StartDesc, cursor), StartDesc) && 1 <= limit < |listing|
    ensures PageOf(rows, keep, StartDesc, limit, PageOf(rows, keep, StartDesc, limit, cursor).next) == Cut(listing[limit..], StartDesc, limit)
            <==> !Overshot(listing[limit - 1], listing[limit])
  {
    hide InOrder, Cut;
    var last, due := listing[limit - 1], listing[limit];
    var next := PageOf(rows, keep, StartDesc, limit, cursor).next;
    CutIsFront(listing, StartDesc, limit);
    CutIsFront(listing[limit..], StartDesc, limit);
    assert last in listing && due in listing && listing[limit..][0] == due;
    AfterLast(StartDesc, listing, limit, due);
    DescendingSkipsIff(rows, keep, last, due);
    if Overshot(last, due) {
      var page := PageOf(rows, keep, StartDesc, limit, next);
      CutIsFront(InOrder(Past(rows, keep, StartDesc, next), StartDesc), StartDesc, limit);
      assert forall e :: e in page.items ==> e in Past(rows, keep, StartDesc, next);
    } else {
      RestIsPast(rows, keep, cursor, listing, limit);
    }
  }

  lemma RestIsPast(rows: set<Listed>, keep: Listed -> bool, cursor: Option<Position>, listing: seq<Listed>, n: nat)
    requires DistinctIds(rows) && listing == InOrder(Past(rows, keep, StartDesc, cursor), StartDesc) && 1 <= n < |listing|
    requires !Overshot(listing[n - 1], listing[n])
    ensures InOrder(Past(rows, keep, StartDesc, Some(CursorAt(StartDesc, listing[n - 1]))), StartDesc) == listing[n..]
  {
    hide InOrder, Rising;
    var last, due := listing[n - 1], listing[n];
    var past := Past(rows, keep, StartDesc, Some(CursorAt(StartDesc, last)));
    assert last in listing && due in listing;
    FurtherOn(StartDesc, cursor, last);
    forall e ensures e in past <==> e in listing[n..] {
      AfterLast(StartDesc, listing, n, e);
      DueFirst(listing, n, e);
    }
    RisingTail(StartDesc, listing, n);
    OneOrder(StartDesc, InOrder(past, StartDesc), listing[n..]);
  }

  lemma DueFirst(listing: seq<Listed>, n: nat, e: Listed)
    requires Rising(StartDesc, listing) && n < |listing|
    ensures e in listing[n..] ==> e == listing[n] || Less(At(StartDesc, listing[n]), At(StartDesc, e))
  {
    if e in listing[n..] {
      var k :| 0 <= k < |listing[n..]| && listing[n..][k] == e;
      assert listing[n + k] == e;
    }
  }

  /** Two events in the same millisecond: walking down one at a time, the earlier is due next and never seen. */
  lemma DescendingCanSkip()
    ensures var rows := {Listed(1, 5_600, 0, 0), Listed(2, 5_400, 0, 0)};
            var first, second := Listed(1, 5_600, 0, 0), Listed(2, 5_400, 0, 0);
            && DistinctIds(rows)
            && InOrder(Past(rows, e => true, StartDesc, None), StartDesc) == [first, second]
            && PageOf(rows, e => true, StartDesc, 1, None) == Page([first], Some(CursorAt(StartDesc, first)))
            && PageOf(rows, e => true, StartDesc, 1, Some(CursorAt(StartDesc, first))) == Page([], None)
  {
    var first, second := Listed(1, 5_600, 0, 0), Listed(2, 5_400, 0, 0);
    var rows := {first, second};
    var listing := InOrder(Past(rows, e => true, StartDesc, None), StartDesc);
    CutIsFront(listing, StartDesc, 1);
    assert Past(rows, e => true, StartDesc, Some(CursorAt(StartDesc, first))) == {};
    hide Cut;
    CutIsFront([], StartDesc, 1);
    assert Less(At(StartDesc, first), At(StartDesc, second));
    assert forall e :: e in listing <==> e in [first, second];
    OneOrder(StartDesc, listing, [first, second]);
  }

  // ------------------------------------------------------------------ what is asked for

  /** The order a customer asks for, in the events' own fields: ties by id, the same way round. */
  predicate Comes(sort: Sort, a: Listed, b: Listed) {
    match sort
    case StartAsc => a.startsAt < b.startsAt || (a.startsAt == b.startsAt && a.id < b.id)
    case StartDesc => a.startsAt > b.startsAt || (a.startsAt == b.startsAt && a.id > b.id)
    case NameAsc => a.title < b.title || (a.title == b.title && a.id < b.id)
    case NameDesc => a.title > b.title || (a.title == b.title && a.id > b.id)
  }

  /** A walk over events that stand still collects exactly those that match, each once, in the order asked for. */
  lemma WalkIsAsAsked(rows: set<Listed>, keep: Listed -> bool, sort: Sort, limit: nat, snapshots: seq<set<Listed>>)
    requires limit >= 1 && DistinctIds(rows) && AllPrecise(sort, rows)
    requires (forall i :: 0 <= i < |snapshots| ==> snapshots[i] == rows) && |snapshots| > |rows|
    ensures var trip := Walk(snapshots, keep, sort, limit, None);
            && trip.complete
            && (forall e :: e in trip.items <==> e in rows && keep(e))
            && (forall i, j :: 0 <= i < j < |trip.items| ==> Comes(sort, trip.items[i], trip.items[j]))
  {
    hide Walk, InOrder, Rising, At, Comes;
    var past := Past(rows, keep, sort, None);
    PastIsDistinct(rows, keep, sort, None);
    ListedOnce(past, sort);
    Fewer(past, rows);
    WalkIsListing(rows, keep, sort, limit, None, snapshots);
    RisingIsAsAsked(sort, InOrder(past, sort));
  }

  lemma RisingIsAsAsked(sort: Sort, listing: seq<Listed>)
    requires Rising(sort, listing)
    ensures forall i, j :: 0 <= i < j < |listing| ==> Comes(sort, listing[i], listing[j])
  {
  }

  lemma {:induction false} ListedOnce(rows: set<Listed>, sort: Sort)
    requires DistinctIds(rows)
    ensures |InOrder(rows, sort)| == |rows|
    decreases |rows|
  {
    hide At;
    if rows != {} {
      assert exists e :: IsFirst(rows, sort, e) by { var e := FirstExists(rows, sort); }
      var e := InOrder(rows, sort)[0];
      assert e in rows;
      ListedOnce(rows - {e}, sort);
    }
  }

  lemma Fewer(a: set<Listed>, b: set<Listed>)
    requires a <= b
    ensures |a| <= |b|
  {
    assert b == a + (b - a);
  }
}
