/** The browser's seat map: a REST snapshot kept live by versioned seat messages. */
module SeatFeed {
  import opened Schema
  import opened Sums
  import opened Transactions
  import opened Invariant
  import opened Runs
  import opened Evolution
  import opened Verdicts
  import opened Stranding

  /** One seat as the screen shows it. */
  datatype Tile = Tile(id: SeatId, status: SeatStatus)

  /** What the hook keeps: the tiles shown and the version last applied to each seat. */
  datatype View = View(tiles: seq<Tile>, versions: map<SeatId, int>)

  /** A snapshot carries no versions, so every seat in it starts at 0. */
  function Loaded(snapshot: seq<Tile>): View {
    View(snapshot, map i | 0 <= i < |snapshot| :: snapshot[i].id := 0)
  }

  /** The version a message must beat; a seat never heard of loses to any. */
  function Known(view: View, s: SeatId): int {
    if s in view.versions then view.versions[s] else -1
  }

  function Receive(view: View, event: EventId, m: SeatEvent): View {
    if m.event != event || m.version <= Known(view, m.seat) then view
    else View(seq(|view.tiles|, i requires 0 <= i < |view.tiles| =>
                if view.tiles[i].id == m.seat then view.tiles[i].(status := m.status) else view.tiles[i]),
              view.versions[m.seat := m.version])
  }

  /** Messages in the order they arrive. */
  function Deliver(view: View, event: EventId, messages: seq<SeatEvent>): (after: View)
    ensures |after.tiles| == |view.tiles|
  {
    if messages == [] then view
    else Receive(Deliver(view, event, messages[..|messages| - 1]), event, messages[|messages| - 1])
  }

  class SeatMap {
    const event: EventId
    var tiles: seq<Tile>
    var versions: map<SeatId, int>

    function Value(): View
      reads this
    {
      View(tiles, versions)
    }

    constructor (event: EventId)
      ensures this.event == event && Value() == View([], map[])
    {
      this.event := event;
      tiles, versions := [], map[];
    }

    method Load(snapshot: seq<Tile>)
      modifies this
      ensures Value() == Loaded(snapshot)
    {
      var ids: map<SeatId, int> := map[];
      for i := 0 to |snapshot|
        invariant forall s :: s in ids <==> exists k :: 0 <= k < i && snapshot[k].id == s
        invariant forall s :: s in ids ==> ids[s] == 0
      {
        ids := ids[snapshot[i].id := 0];
      }
      tiles, versions := snapshot, ids;
      assert forall s :: s in ids <==> s in Loaded(snapshot).versions;
      assert versions == Loaded(snapshot).versions;
    }

    method OnMessage(m: SeatEvent)
      modifies this
      ensures Value() == Receive(old(Value()), event, m)
    {
      if m.event != event { return; }
      var known := if m.seat in versions then versions[m.seat] else -1;
      if m.version <= known { return; }
      versions := versions[m.seat := m.version];
      var shown: seq<Tile> := [];
      for i := 0 to |tiles|
        invariant Value() == View(old(tiles), old(versions)[m.seat := m.version])
        invariant |shown| == i
        invariant forall k :: 0 <= k < i ==> shown[k] == if tiles[k].id == m.seat then tiles[k].(status := m.status) else tiles[k]
      {
        shown := shown + [if tiles[i].id == m.seat then tiles[i].(status := m.status) else tiles[i]];
      }
      assert shown == Receive(old(Value()), event, m).tiles;
      tiles := shown;
    }

    method OnMessages(messages: seq<SeatEvent>)
      modifies this
      ensures Value() == Deliver(old(Value()), event, messages)
    {
      for i := 0 to |messages|
        invariant Value() == Deliver(old(Value()), event, messages[..i])
      {
        OnMessage(messages[i]);
        assert messages[..i + 1][..i] == messages[..i];
      }
      assert messages[..|messages|] == messages;
    }
  }

  /**
   A message of another event, or no newer than what its seat's tiles show, changes
   nothing; any other is shown on exactly that seat's tiles and remembered.
   */
  lemma NewerIsShown(view: View, event: EventId, m: SeatEvent)
    ensures var after := Receive(view, event, m);
            if m.event == event && (m.seat in view.versions ==> m.version > view.versions[m.seat])
            then && |after.tiles| == |view.tiles| && after.versions == view.versions[m.seat := m.version]
                 && (forall i :: 0 <= i < |view.tiles| ==>
                       after.tiles[i] == if view.tiles[i].id == m.seat then Tile(m.seat, m.status) else view.tiles[i])
            else after == view
  {
  }

  // -------------------------------------------------------------- convergence

  /** The highest version delivered for a seat of this event, 0 if none was. */
  function Highest(event: EventId, messages: seq<SeatEvent>, s: SeatId): nat {
    if messages == [] then 0
    else
      var m, before := messages[|messages| - 1], Highest(event, messages[..|messages| - 1], s);
      if m.event == event && m.seat == s && m.version > before then m.version else before
  }

  /** It is the greatest of the versions delivered, and one of them unless it is 0. */
  lemma {:induction false} HighestIsGreatest(event: EventId, messages: seq<SeatEvent>, s: SeatId)
    ensures forall m :: m in messages && m.event == event && m.seat == s ==> m.version <= Highest(event, messages, s)
    ensures Highest(event, messages, s) == 0
            || exists m :: m in messages && m.event == event && m.seat == s && m.version == Highest(event, messages, s)
  {
    if messages != [] {
      var n := |messages| - 1;
      HighestIsGreatest(event, messages[..n], s);
      assert messages == messages[..n] + [messages[n]];
      if Highest(event, messages, s) != Highest(event, messages[..n], s) {
        assert messages[n] in messages && messages[n].version == Highest(event, messages, s);
      }
    }
  }

  /** Every message was published from the seat's outbox rows. */
  ghost predicate Published(db: Db, messages: seq<SeatEvent>) {
    forall m :: m in messages ==> m.seat in db.outbox && m in db.outbox[m.seat]
  }

  /** What a tile should show: the row of the highest version delivered, or else the snapshot. */
  ghost predicate Shows(db: Db, event: EventId, snapshot: seq<Tile>, messages: seq<SeatEvent>, view: View) {
    && |view.tiles| == |snapshot|
    && forall i :: 0 <= i < |snapshot| ==>
         var s := snapshot[i].id; var v := Highest(event, messages, s);
         && view.tiles[i].id == s && Known(view, s) == v
         && (v == 0 ==> view.tiles[i].status == snapshot[i].status)
         && (v > 0 ==> s in db.outbox && v <= |db.outbox[s]| && view.tiles[i].status == StatusAt(db.outbox[s], v))
  }

  /** A published row sits in its seat's outbox at the place its version names. */
  lemma RowAtVersion(db: Db, m: SeatEvent)
    requires SeatsOk(db) && m.seat in db.outbox && m in db.outbox[m.seat]
    ensures 1 <= m.version <= |db.outbox[m.seat]| && m.status == StatusAt(db.outbox[m.seat], m.version)
  {
    var rows := db.outbox[m.seat];
    var i :| 0 <= i < |rows| && rows[i] == m;
    assert Story(m.seat, db.seats[m.seat], rows);
  }

  /**
   After a snapshot, whatever is then delivered - in any order, repeated,
   dropped - each tile shows the status of the highest version delivered.
   */
  lemma {:induction false} HighestIsShown(db: Db, event: EventId, snapshot: seq<Tile>, messages: seq<SeatEvent>)
    requires SeatsOk(db) && Published(db, messages)
    ensures Shows(db, event, snapshot, messages, Deliver(Loaded(snapshot), event, messages))
  {
    if messages != [] {
      var n := |messages| - 1;
      assert messages == messages[..n] + [messages[n]];
      assert messages[n] in messages;
      HighestIsShown(db, event, snapshot, messages[..n]);
      RowAtVersion(db, messages[n]);
      ShowsOneMore(db, event, snapshot, messages, Deliver(Loaded(snapshot), event, messages[..n]));
    }
  }

  lemma ShowsOneMore(db: Db, event: EventId, snapshot: seq<Tile>, messages: seq<SeatEvent>, view: View)
    requires messages != [] && Shows(db, event, snapshot, messages[..|messages| - 1], view)
    requires var m := messages[|messages| - 1];
             m.seat in db.outbox && 1 <= m.version <= |db.outbox[m.seat]| && m.status == StatusAt(db.outbox[m.seat], m.version)
    ensures Shows(db, event, snapshot, messages, Receive(view, event, messages[|messages| - 1]))
  {
  }

  /** Two clients with the same snapshot and the same set of messages show the same seats. */
  lemma ClientsAgree(db: Db, event: EventId, snapshot: seq<Tile>, a: seq<SeatEvent>, b: seq<SeatEvent>)
    requires SeatsOk(db) && Published(db, a)
    requires forall m :: m in a <==> m in b
    ensures Deliver(Loaded(snapshot), event, a).tiles == Deliver(Loaded(snapshot), event, b).tiles
  {
    hide SeatsOk;
    HighestIsShown(db, event, snapshot, a);
    HighestIsShown(db, event, snapshot, b);
    var x, y := Deliver(Loaded(snapshot), event, a).tiles, Deliver(Loaded(snapshot), event, b).tiles;
    forall i | 0 <= i < |snapshot| ensures x[i] == y[i] {
      HighestIsGreatest(event, a, snapshot[i].id);
      HighestIsGreatest(event, b, snapshot[i].id);
    }
  }

  /** The seat's latest outbox row is among the messages. */
  ghost predicate LatestDelivered(db: Db, s: SeatId, messages: seq<SeatEvent>) {
    s in db.outbox && db.outbox[s] != [] && db.outbox[s][|db.outbox[s]| - 1] in messages
  }

  lemma LatestIsShown(db: Db, event: EventId, snapshot: seq<Tile>, messages: seq<SeatEvent>, i: nat)
    requires SeatsOk(db) && Published(db, messages) && i < |snapshot|
    requires snapshot[i].id in db.seats && db.seats[snapshot[i].id].event == event && LatestDelivered(db, snapshot[i].id, messages)
    ensures Deliver(Loaded(snapshot), event, messages).tiles[i] == Tile(snapshot[i].id, db.seats[snapshot[i].id].status)
  {
    hide Deliver, Highest, Loaded, HoldsOk;
    var s := snapshot[i].id;
    HighestIsShown(db, event, snapshot, messages);
    HighestIsGreatest(event, messages, s);
    var last := db.outbox[s][|db.outbox[s]| - 1];
    assert Story(s, db.seats[s], db.outbox[s]);
    assert last.version == |db.outbox[s]| <= Highest(event, messages, s);
  }

  /** Whenever a seat's latest row has been delivered, its tile shows what the server has, whatever else arrived. */
  lemma LatestDeliveredIsServer(initial: Db, steps: seq<Step>, event: EventId, snapshot: seq<Tile>, messages: seq<SeatEvent>, i: nat)
    requires Initial(initial) && Published(Run(initial, steps), messages) && i < |snapshot|
    requires var db := Run(initial, steps); var s := snapshot[i].id;
             s in db.seats && db.seats[s].event == event && LatestDelivered(db, s, messages)
    ensures Deliver(Loaded(snapshot), event, messages).tiles[i] == Tile(snapshot[i].id, Run(initial, steps).seats[snapshot[i].id].status)
  {
    hide Run, Initial, SeatsOk, HoldsOk, SalesOk, WaitlistOk, Deliver, Published, LatestDelivered;
    InitialInv(initial);
    RunInv(initial, steps);
    LatestIsShown(Run(initial, steps), event, snapshot, messages, i);
  }

  // ------------------------------------------------------------------ reloading

  /** What the REST endpoint answers in this state: the tiles as they are, without their versions. */
  ghost predicate SnapshotOf(db: Db, event: EventId, snapshot: seq<Tile>) {
    forall i :: 0 <= i < |snapshot| ==>
      && snapshot[i].id in db.seats && db.seats[snapshot[i].id].event == event
      && snapshot[i].status == db.seats[snapshot[i].id].status
  }

  /** Something reaches the screen for the seat after the load, and all of it is older than what was loaded. */
  ghost predicate OnlyOlder(event: EventId, messages: seq<SeatEvent>, s: SeatId, loaded: nat) {
    && (exists m :: m in messages && m.event == event && m.seat == s)
    && (forall m :: m in messages && m.event == event && m.seat == s ==> m.version < loaded)
  }

  function Max(a: nat, b: nat): nat {
    if a <= b then b else a
  }

  lemma OnlyOlderIff(db: Db, event: EventId, messages: seq<SeatEvent>, s: SeatId, loaded: nat)
    requires SeatsOk(db) && Published(db, messages)
    ensures OnlyOlder(event, messages, s, loaded) <==> 0 < Highest(event, messages, s) < loaded
  {
    HighestIsGreatest(event, messages, s);
    forall m | m in messages ensures m.version > 0 { RowAtVersion(db, m); }
  }

  lemma ReloadedTile(before: Db, db: Db, event: EventId, snapshot: seq<Tile>, messages: seq<SeatEvent>, i: nat)
    requires SeatsOk(before) && SeatsOk(db) && HistoryGrows(before, db)
    requires SnapshotOf(before, event, snapshot) && Published(db, messages) && i < |snapshot|
    ensures var s := snapshot[i].id; var loaded, v := before.seats[s].version, Highest(event, messages, s);
            && s in db.outbox && Max(loaded, v) <= |db.outbox[s]|
            && Deliver(Loaded(snapshot), event, messages).tiles[i].status
               == StatusAt(db.outbox[s], if OnlyOlder(event, messages, s, loaded) then v else Max(loaded, v))
  {
    var s := snapshot[i].id;
    HighestIsShown(db, event, snapshot, messages);
    OnlyOlderIff(db, event, messages, s, before.seats[s].version);
    assert Story(s, before.seats[s], before.outbox[s]);
    assert before.outbox[s] <= db.outbox[s];
  }

  /**
   The snapshot is read after one run, the inventory moves on, and then anything
   published - before the load or since - is delivered. A tile falls back behind
   what was loaded if and only if something older is delivered for it and nothing
   as new; otherwise it shows the newer of the load and the deliveries.
   */
  lemma ReloadFallsBackIff(initial: Db, steps: seq<Step>, more: seq<Step>, event: EventId, snapshot: seq<Tile>,
                           messages: seq<SeatEvent>, i: nat)
    requires Initial(initial) && SnapshotOf(Run(initial, steps), event, snapshot) && i < |snapshot|
    requires Published(Run(Run(initial, steps), more), messages)
    ensures var before := Run(initial, steps); var db := Run(before, more);
            var s := snapshot[i].id; var loaded, v := before.seats[s].version, Highest(event, messages, s);
            && s in db.outbox && Max(loaded, v) <= |db.outbox[s]|
            && (OnlyOlder(event, messages, s, loaded) <==> 0 < v < loaded)
            && Deliver(Loaded(snapshot), event, messages).tiles[i].status
               == StatusAt(db.outbox[s], if OnlyOlder(event, messages, s, loaded) then v else Max(loaded, v))
  {
    hide Run, Initial, SeatsOk, HoldsOk, SalesOk, WaitlistOk, Published, Deliver, Highest, OnlyOlder, HistoryGrows;
    var before := Run(initial, steps);
    InitialInv(initial);
    RunInv(initial, steps);
    RunInv(before, more);
    RunEvolves(before, more);
    ReloadedTile(before, Run(before, more), event, snapshot, messages, i);
    OnlyOlderIff(Run(before, more), event, messages, snapshot[i].id, before.seats[snapshot[i].id].version);
  }

  /** So if nothing older than the load is delivered after it, a tile never falls back and is the server's once it has caught up. */
  lemma NothingOlderNeverFallsBack(initial: Db, steps: seq<Step>, more: seq<Step>, event: EventId, snapshot: seq<Tile>,
                                   messages: seq<SeatEvent>, i: nat)
    requires Initial(initial) && SnapshotOf(Run(initial, steps), event, snapshot) && i < |snapshot|
    requires Published(Run(Run(initial, steps), more), messages)
    requires forall m :: m in messages && m.seat == snapshot[i].id ==> m.version >= Run(initial, steps).seats[snapshot[i].id].version
    ensures var before := Run(initial, steps); var db := Run(before, more);
            var s := snapshot[i].id; var shown := Max(before.seats[s].version, Highest(event, messages, s));
            && s in db.seats && s in db.outbox && shown <= |db.outbox[s]|
            && Deliver(Loaded(snapshot), event, messages).tiles[i].status == StatusAt(db.outbox[s], shown)
            && (shown == db.seats[s].version ==> Deliver(Loaded(snapshot), event, messages).tiles[i].status == db.seats[s].status)
  {
    hide Run, Initial, HoldsOk, SalesOk, WaitlistOk, SnapshotOf, Published, Deliver, Highest;
    var before, s := Run(initial, steps), snapshot[i].id;
    var db := Run(before, more);
    ReloadFallsBackIff(initial, steps, more, event, snapshot, messages, i);
    InitialInv(initial);
    RunInv(initial, steps);
    RunInv(before, more);
    assert Story(s, db.seats[s], db.outbox[s]);
  }

  /** Every seat sold in any reachable state can be un-booked on a freshly loaded screen by its own first message. */
  lemma FirstMessageUnbooks(db: Db, s: SeatId)
    requires SeatsOk(db) && s in db.seats && db.seats[s].status.Booked?
    ensures s in db.outbox && db.outbox[s] != [] && Published(db, [db.outbox[s][0]])
    ensures Deliver(Loaded([Tile(s, Booked)]), db.seats[s].event, [db.outbox[s][0]]).tiles == [Tile(s, Held)]
  {
    assert Story(s, db.seats[s], db.outbox[s]);
    var first := db.outbox[s][0];
    assert Edge(StatusAt(db.outbox[s], 0), first.status);
    var view := Loaded([Tile(s, Booked)]);
    assert [Tile(s, Booked)][0].id in view.versions;
    assert Deliver(view, first.event, [first][..0]) == view;
    assert Deliver(view, first.event, [first]).tiles == [Tile(s, Held)];
  }

  /** User 1 reserves the only seat and confirms. */
  function SellTheSeat(): seq<Step> {
    [Reserve(1, 1, {1}, 10, 1, 0), ConfirmHold(1, 1, 1, 1, 5)]
  }

  lemma SeatIsReserved(held: Db)
    requires held == Apply(OneSeatShow(), SellTheSeat()[0])
    ensures Initial(OneSeatShow()) && Inv(held) && held.bookings == map[] && PricesOf(held, {1}) == map[1 := 100]
    ensures 1 in held.seats && held.seats[1].event == 1 && 1 in held.holds && held.holds[1] == Hold(1, 1, Active, 10, {1})
  {
    hide Inv, HoldVerdict, TakeSeats;
    var start := OneSeatShow();
    InitialInv(start);
    HoldVerdictGrants(start, 1, 1, {1}, 1, 0);
    GrantedHold(start, 1, 1, {1}, 10, 1, 0);
    ApplyInv(start, SellTheSeat()[0]);
    assert PricesOf(held, {1}) == map[1 := 100];
  }

  lemma SeatIsSold()
    ensures Initial(OneSeatShow()) && Inv(Run(OneSeatShow(), SellTheSeat()))
    ensures 1 in Run(OneSeatShow(), SellTheSeat()).seats && Run(OneSeatShow(), SellTheSeat()).seats[1].status.Booked?
    ensures Run(OneSeatShow(), SellTheSeat()).seats[1].event == 1
  {
    hide Inv, Initial, Confirm, CreateHold, Sum, PricesOf, SeatsOk;
    var held := Apply(OneSeatShow(), SellTheSeat()[0]);
    SeatIsReserved(held);
    OneSum(1, 100);
    ConfirmSells(held, 1, 1, 1, 1, 5);
    ApplyInv(held, SellTheSeat()[1]);
    var sold := Apply(held, SellTheSeat()[1]);
    assert SellTheSeat()[1..] == [SellTheSeat()[1]];
    assert Run(sold, []) == sold && Run(held, [SellTheSeat()[1]]) == sold;
  }

  lemma OneSum(s: SeatId, price: nat)
    ensures Sum(map[s := price]) == price
  {
    var none: map<SeatId, nat> := map[];
    SumInsert(none, s, price);
    assert none[s := price] == map[s := price];
  }

  /** A run that does it: the seat is sold, loaded as booked, and its first outbox row arrives late. */
  lemma LateMessageUndoesSnapshot()
    ensures var db := Run(OneSeatShow(), SellTheSeat());
            && Initial(OneSeatShow()) && 1 in db.seats && 1 in db.outbox && db.outbox[1] != []
            && SnapshotOf(db, 1, [Tile(1, Booked)]) && Published(db, [db.outbox[1][0]])
            && Deliver(Loaded([Tile(1, Booked)]), 1, [db.outbox[1][0]]).tiles == [Tile(1, Held)]
  {
    hide Run, Deliver, Loaded, HoldsOk, SalesOk, WaitlistOk;
    SeatIsSold();
    FirstMessageUnbooks(Run(OneSeatShow(), SellTheSeat()), 1);
  }
}
