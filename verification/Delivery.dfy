/**
 From a committed seat change to a browser tile: the inventory, the workers
 publishing its outbox and crashing at any point, and a client loading and
 listening, all interleaved.
 */
module Delivery {
  import opened Schema
  import opened Invariant
  import opened Runs
  import opened Evolution
  import opened SeatFeed
  import W = OutboxWorker

  /**
   The inventory, the workers' system over its outbox, which outbox row each
   row id stands for, and the ids published to Redis in the order they were.
   */
  datatype Pipe = Pipe(db: Db, sys: W.System, content: map<W.RowId, SeatEvent>, log: seq<W.RowId>)

  datatype Event =
    | Commit(step: Step, named: map<W.RowId, SeatEvent>, now: W.Millis)
    | Work(duty: W.Step)

  /** A row this transaction's triggers wrote. */
  ghost predicate IsNew(db: Db, d: Db, e: SeatEvent) {
    && e.seat in db.outbox && e.seat in d.outbox
    && exists k :: |db.outbox[e.seat]| <= k < |d.outbox[e.seat]| && d.outbox[e.seat][k] == e
  }

  ghost predicate Injective(content: map<W.RowId, SeatEvent>) {
    forall r, q :: r in content && q in content && content[r] == content[q] ==> r == q
  }

  /** The new rows come in under ids not used before, one each. */
  ghost predicate Names(db: Db, d: Db, rows: map<W.RowId, W.Row>, named: map<W.RowId, SeatEvent>) {
    && (forall r :: r in named ==> r !in rows && IsNew(db, d, named[r]))
    && (forall e :: IsNew(db, d, e) ==> Named(named, e))
    && Injective(named)
  }

  ghost predicate Enabled(p: Pipe, e: Event) {
    match e
    case Commit(step, named, _) => Names(p.db, Apply(p.db, step), p.sys.rows, named)
    case Work(step) => !step.Insert? && W.Enabled(p.sys, step)
  }

  function Published(sys: W.System, step: W.Step): seq<W.RowId>
    requires step.PublishOk? ==> W.InLoop(sys, step.worker)
  {
    if step.PublishOk? then [sys.open[step.worker].ids[sys.open[step.worker].done]] else []
  }

  function WithRows(sys: W.System, named: map<W.RowId, SeatEvent>, now: W.Millis): W.System {
    sys.(rows := map r | r in sys.rows.Keys + named.Keys :: if r in named then W.Row(now, now, 0, false) else sys.rows[r])
  }

  function Joined(a: map<W.RowId, SeatEvent>, b: map<W.RowId, SeatEvent>): map<W.RowId, SeatEvent> {
    map r | r in a.Keys + b.Keys :: if r in b then b[r] else a[r]
  }

  ghost function Do(p: Pipe, e: Event, b: W.Backoff): Pipe
    requires Enabled(p, e)
  {
    match e
    case Commit(step, named, now) => Pipe(Apply(p.db, step), WithRows(p.sys, named, now), Joined(p.content, named), p.log)
    case Work(step) => p.(sys := W.Do(p.sys, step, b), log := p.log + Published(p.sys, step))
  }

  /** Events that are not enabled do nothing. */
  ghost function Flow(p: Pipe, events: seq<Event>, b: W.Backoff): Pipe
    decreases |events|
  {
    if events == [] then p else Flow(if Enabled(p, events[0]) then Do(p, events[0], b) else p, events[1..], b)
  }

  // -------------------------------------------------------------------- invariant

  ghost predicate Written(db: Db, e: SeatEvent) {
    e.seat in db.outbox && e in db.outbox[e.seat]
  }

  ghost predicate Named(content: map<W.RowId, SeatEvent>, e: SeatEvent) {
    exists r :: r in content && content[r] == e
  }

  /** The ids stand for the outbox rows, one each. */
  ghost predicate Mirrored(p: Pipe) {
    && (forall r :: r in p.content <==> r in p.sys.rows)
    && (forall r :: r in p.content ==> Written(p.db, p.content[r]))
    && (forall s, k :: s in p.db.outbox && 0 <= k < |p.db.outbox[s]| ==> Named(p.content, p.db.outbox[s][k]))
    && Injective(p.content)
  }

  ghost predicate Logged(p: Pipe) {
    multiset(p.log) == p.sys.published && forall r :: r in p.log ==> r in p.sys.rows
  }

  ghost predicate PipeOk(p: Pipe) {
    Inv(p.db) && W.Ok(p.sys) && Mirrored(p) && Logged(p)
  }

  ghost predicate Empty(p: Pipe) {
    Initial(p.db) && W.Fresh(p.sys) && p.sys.rows == map[] && p.content == map[] && p.log == []
  }

  lemma EmptyOk(p: Pipe)
    requires Empty(p)
    ensures PipeOk(p)
  {
    InitialInv(p.db);
    W.FreshOk(p.sys);
  }

  lemma WithRowsOk(sys: W.System, named: map<W.RowId, SeatEvent>, now: W.Millis)
    requires W.Ok(sys) && forall r :: r in named ==> r !in sys.rows
    ensures W.Ok(WithRows(sys, named, now))
  {
    var d := WithRows(sys, named, now);
    forall w | w in d.open ensures W.BatchOk(d, d.open[w]) { assert W.BatchOk(sys, sys.open[w]); }
    forall r ensures W.Accounted(d, r) {
      assert W.Accounted(sys, r);
      assert W.MarkedSomewhere(d, r) == W.MarkedSomewhere(sys, r);
    }
  }

  /** A version is where its row sits, so rows of different places differ. */
  lemma RowsDiffer(db: Db, s: SeatId, k: nat, e: SeatEvent)
    requires SeatsOk(db) && s in db.outbox && k < |db.outbox[s]| && db.outbox[s][k] == e
    ensures e.seat == s && e.version == k + 1
  {
    assert Story(s, db.seats[s], db.outbox[s]);
  }

  lemma NamedEither(a: map<W.RowId, SeatEvent>, b: map<W.RowId, SeatEvent>, e: SeatEvent)
    requires forall r :: r in a ==> r !in b
    requires Named(a, e) || Named(b, e)
    ensures Named(Joined(a, b), e)
  {
    if Named(a, e) {
      var r :| r in a && a[r] == e;
      assert r in Joined(a, b) && Joined(a, b)[r] == e;
    } else {
      var r :| r in b && b[r] == e;
      assert r in Joined(a, b) && Joined(a, b)[r] == e;
    }
  }

  lemma RowIsNamed(p: Pipe, d: Db, named: map<W.RowId, SeatEvent>, s: SeatId, k: nat)
    requires SeatsOk(d) && HistoryGrows(p.db, d) && Mirrored(p) && Names(p.db, d, p.sys.rows, named)
    requires s in d.outbox && s in p.db.outbox && k < |d.outbox[s]|
    ensures Named(Joined(p.content, named), d.outbox[s][k])
  {
    hide Named, Injective, SeatsOk;
    var e := d.outbox[s][k];
    RowsDiffer(d, s, k, e);
    if k < |p.db.outbox[s]| {
      assert p.db.outbox[s][k] == e;
    } else {
      assert IsNew(p.db, d, e);
    }
    NamedEither(p.content, named, e);
  }

  lemma StillWritten(db: Db, d: Db, e: SeatEvent)
    requires HistoryGrows(db, d) && (Written(db, e) || IsNew(db, d, e))
    ensures Written(d, e)
  {
    if Written(db, e) {
      var i :| 0 <= i < |db.outbox[e.seat]| && db.outbox[e.seat][i] == e;
      assert d.outbox[e.seat][i] == e;
    }
  }

  lemma CommitMirrored(p: Pipe, d: Db, named: map<W.RowId, SeatEvent>, now: W.Millis)
    requires SeatsOk(d) && HistoryGrows(p.db, d) && Mirrored(p) && Names(p.db, d, p.sys.rows, named)
    requires forall s :: s in d.outbox ==> s in p.db.outbox
    ensures Mirrored(Pipe(d, WithRows(p.sys, named, now), Joined(p.content, named), p.log))
  {
    hide SeatsOk, HistoryGrows, IsNew, Named, Written;
    var content := Joined(p.content, named);
    forall r | r in content ensures Written(d, content[r]) { StillWritten(p.db, d, content[r]); }
    forall s, k | s in d.outbox && 0 <= k < |d.outbox[s]| ensures Named(content, d.outbox[s][k]) { RowIsNamed(p, d, named, s, k); }
    forall r, q | r in p.content && q in named ensures p.content[r] != named[q] { NewIsNotOld(p.db, d, p.content[r], named[q]); }
  }

  lemma NewIsNotOld(db: Db, d: Db, early: SeatEvent, late: SeatEvent)
    requires SeatsOk(d) && HistoryGrows(db, d) && IsNew(db, d, late)
    requires Written(db, early)
    ensures early != late
  {
    var i :| 0 <= i < |db.outbox[early.seat]| && db.outbox[early.seat][i] == early;
    var k :| |db.outbox[late.seat]| <= k < |d.outbox[late.seat]| && d.outbox[late.seat][k] == late;
    assert d.outbox[early.seat][i] == early;
    RowsDiffer(d, early.seat, i, early);
    RowsDiffer(d, late.seat, k, late);
  }

  lemma WorkLogged(p: Pipe, step: W.Step, b: W.Backoff)
    requires PipeOk(p) && !step.Insert? && W.Enabled(p.sys, step)
    ensures Logged(Do(p, Work(step), b))
    ensures forall r :: r in W.Do(p.sys, step, b).rows <==> r in p.sys.rows
  {
    var d := Do(p, Work(step), b);
    assert multiset(d.log) == multiset(p.log) + multiset(Published(p.sys, step));
  }

  lemma DoOk(p: Pipe, e: Event, b: W.Backoff)
    requires PipeOk(p) && Enabled(p, e)
    ensures PipeOk(Do(p, e, b)) && Evolves(p.db, Do(p, e, b).db)
  {
    hide Inv, Apply, W.Ok, Mirrored, Logged, W.Do, W.Enabled, Names;
    EvolvesRefl(p.db);
    match e
    case Commit(step, named, now) =>
      var d := Apply(p.db, step);
      ApplyInv(p.db, step);
      ApplyEvolves(p.db, step);
      InvSeats(p.db);
      InvSeats(d);
      NamesFresh(p, d, named);
      WithRowsOk(p.sys, named, now);
      CommitMirrored(p, d, named, now);
      CommitLogged(p, Do(p, e, b));
    case Work(step) =>
      WorkLogged(p, step, b);
      W.DoOk(p.sys, step, b);
      WorkMirrored(p, Do(p, e, b));
  }

  lemma InvSeats(db: Db)
    requires Inv(db)
    ensures SeatsOk(db) && forall s :: s in db.outbox <==> s in db.seats
  {
  }

  lemma NamesFresh(p: Pipe, d: Db, named: map<W.RowId, SeatEvent>)
    requires Names(p.db, d, p.sys.rows, named)
    ensures forall r :: r in named ==> r !in p.sys.rows
  {
  }

  lemma CommitLogged(p: Pipe, d: Pipe)
    requires Logged(p) && d.log == p.log && d.sys.published == p.sys.published && forall r :: r in p.sys.rows ==> r in d.sys.rows
    ensures Logged(d)
  {
  }

  lemma WorkMirrored(p: Pipe, d: Pipe)
    requires Mirrored(p) && d.db == p.db && d.content == p.content && forall r :: r in d.sys.rows <==> r in p.sys.rows
    ensures Mirrored(d)
  {
  }

  /** What a stretch of the flow adds to: history, named rows and the log only grow. */
  ghost predicate Grows(p: Pipe, d: Pipe) {
    && Evolves(p.db, d.db)
    && (forall r :: r in p.content ==> r in d.content && d.content[r] == p.content[r])
    && p.log <= d.log
  }

  lemma DoGrows(p: Pipe, e: Event, b: W.Backoff)
    requires PipeOk(p) && Enabled(p, e)
    ensures Grows(p, Do(p, e, b))
  {
    hide Apply, W.Do, Inv, W.Ok, W.Enabled;
    DoOk(p, e, b);
  }

  lemma GrowsTrans(p: Pipe, q: Pipe, r: Pipe)
    requires Grows(p, q) && Grows(q, r)
    ensures Grows(p, r)
  {
    hide Evolves;
    EvolvesTrans(p.db, q.db, r.db);
  }

  lemma {:induction false} FlowOk(p: Pipe, events: seq<Event>, b: W.Backoff)
    requires PipeOk(p)
    ensures PipeOk(Flow(p, events, b)) && Grows(p, Flow(p, events, b))
    decreases |events|
  {
    hide PipeOk, Do, Enabled;
    if events != [] {
      if Enabled(p, events[0]) {
        DoOk(p, events[0], b);
        DoGrows(p, events[0], b);
        FlowOk(Do(p, events[0], b), events[1..], b);
        GrowsTrans(p, Do(p, events[0], b), Flow(p, events, b));
      } else {
        FlowOk(p, events[1..], b);
      }
    }
  }

  // ------------------------------------------------------------------ end to end

  ghost predicate SentSince(loaded: Pipe, now: Pipe, m: SeatEvent) {
    exists k :: |loaded.log| <= k < |now.log| && now.log[k] in now.content && now.content[now.log[k]] == m
  }

  /** The client is sent exactly what was published between the load and now, in any order and any number of times. */
  ghost predicate Received(loaded: Pipe, now: Pipe, messages: seq<SeatEvent>) {
    forall m :: m in messages <==> SentSince(loaded, now, m)
  }

  /** No row of the seat is still to be published. */
  ghost predicate Drained(p: Pipe, s: SeatId) {
    forall r :: r in p.content && p.content[r].seat == s ==> r in p.sys.rows && p.sys.rows[r].processed
  }

  lemma ReceivedArePublished(loaded: Pipe, now: Pipe, messages: seq<SeatEvent>)
    requires Mirrored(now) && Received(loaded, now, messages)
    ensures SeatFeed.Published(now.db, messages)
  {
    forall m | m in messages ensures Written(now.db, m) {
      assert SentSince(loaded, now, m);
      var k :| |loaded.log| <= k < |now.log| && now.log[k] in now.content && now.content[now.log[k]] == m;
      NamedIsWritten(now, now.log[k]);
    }
  }

  lemma NamedIsWritten(p: Pipe, r: W.RowId)
    requires Mirrored(p) && r in p.content
    ensures Written(p.db, p.content[r])
  {
    hide Written, Named, Injective;
  }

  lemma ProcessedIsLogged(p: Pipe, r: W.RowId)
    requires W.Ok(p.sys) && Logged(p) && r in p.sys.rows && p.sys.rows[r].processed
    ensures r in p.log
  {
    assert W.Accounted(p.sys, r);
    assert multiset(p.log)[r] > 0;
  }

  /** A row logged by now but not named at the load was published since. */
  lemma LoggedSince(loaded: Pipe, now: Pipe, r: W.RowId)
    requires loaded.log <= now.log && r in now.log && r !in loaded.log && r in now.content
    ensures SentSince(loaded, now, now.content[r])
  {
    var n :| 0 <= n < |now.log| && now.log[n] == r;
    assert forall m :: 0 <= m < |loaded.log| ==> now.log[m] == loaded.log[m] && loaded.log[m] in loaded.log;
  }

  /** A row written since the load had no name then. */
  lemma NamedSince(loaded: Pipe, now: Pipe, s: SeatId, k: nat, r: W.RowId)
    requires SeatsOk(loaded.db) && SeatsOk(now.db) && Mirrored(loaded) && Grows(loaded, now)
    requires s in now.db.outbox && s in loaded.db.outbox && |loaded.db.outbox[s]| <= k < |now.db.outbox[s]|
    requires r in now.content && now.content[r] == now.db.outbox[s][k]
    ensures r !in loaded.content
  {
    hide Evolves, SeatsOk, Named, Injective;
    var e := now.db.outbox[s][k];
    RowsDiffer(now.db, s, k, e);
    if r in loaded.content {
      var i :| 0 <= i < |loaded.db.outbox[s]| && loaded.db.outbox[s][i] == e;
      RowsDiffer(loaded.db, s, i, e);
      assert false;
    }
  }

  /** A row written after the load and published by now was received. */
  lemma LaterRowsAreReceived(loaded: Pipe, now: Pipe, messages: seq<SeatEvent>, s: SeatId, k: nat)
    requires PipeOk(loaded) && PipeOk(now) && Grows(loaded, now) && Received(loaded, now, messages) && Drained(now, s)
    requires s in now.db.outbox && s in loaded.db.outbox && |loaded.db.outbox[s]| <= k < |now.db.outbox[s]|
    ensures now.db.outbox[s][k] in messages
  {
    hide W.Ok, HoldsOk, SalesOk, WaitlistOk, SeatsOk, Evolves, SentSince, Injective, Written;
    var e := now.db.outbox[s][k];
    RowsDiffer(now.db, s, k, e);
    assert Named(now.content, e);
    var r :| r in now.content && now.content[r] == e;
    ProcessedIsLogged(now, r);
    NamedSince(loaded, now, s, k, r);
    LoggedSince(loaded, now, r);
  }

  lemma ChangedSeatCatchesUp(loaded: Pipe, now: Pipe, event: EventId, messages: seq<SeatEvent>, s: SeatId)
    requires PipeOk(loaded) && PipeOk(now) && Grows(loaded, now) && Received(loaded, now, messages) && Drained(now, s)
    requires s in now.db.seats && now.db.seats[s].event == event && s in loaded.db.seats
    requires now.db.seats[s].version > loaded.db.seats[s].version
    ensures Highest(event, messages, s) == now.db.seats[s].version
  {
    hide W.Ok, Logged, Drained, HoldsOk, SalesOk, WaitlistOk, Mirrored, Received, Grows, Highest;
    var n := now.db.seats[s].version;
    SeatRows(now.db, s);
    SeatRows(loaded.db, s);
    LaterRowsAreReceived(loaded, now, messages, s, n - 1);
    HighestIsGreatest(event, messages, s);
    ReceivedArePublished(loaded, now, messages);
    hide SeatsOk;
    forall m | m in messages && m.seat == s ensures m.version <= n { RowAtVersion(now.db, m); }
  }

  lemma SeatRows(db: Db, s: SeatId)
    requires SeatsOk(db) && s in db.seats
    ensures s in db.outbox && |db.outbox[s]| == db.seats[s].version
    ensures StatusAt(db.outbox[s], |db.outbox[s]|) == db.seats[s].status
    ensures forall i :: 0 <= i < |db.outbox[s]| ==>
              db.outbox[s][i].seat == s && db.outbox[s][i].version == i + 1 && db.outbox[s][i].event == db.seats[s].event
  {
    assert Story(s, db.seats[s], db.outbox[s]);
  }

  /**
   A client loads while inventory and workers run on, stays connected and
   receives whatever is published from then on. Once a seat's rows have all been
   published its tile shows the server's status - except that a seat which has
   not changed since the load shows an older row if only older rows were still
   pending when it loaded.
   */
  lemma EndToEnd(start: Pipe, earlier: seq<Event>, later: seq<Event>, b: W.Backoff, event: EventId,
                 snapshot: seq<Tile>, messages: seq<SeatEvent>, i: nat)
    requires Empty(start) && i < |snapshot|
    requires SnapshotOf(Flow(start, earlier, b).db, event, snapshot)
    requires Received(Flow(start, earlier, b), Flow(Flow(start, earlier, b), later, b), messages)
    requires Drained(Flow(Flow(start, earlier, b), later, b), snapshot[i].id)
    ensures var loaded := Flow(start, earlier, b); var now := Flow(loaded, later, b); var s := snapshot[i].id;
            && s in now.db.seats && s in loaded.db.seats
            && (now.db.seats[s].version > loaded.db.seats[s].version ==> !OnlyOlder(event, messages, s, loaded.db.seats[s].version))
            && (!OnlyOlder(event, messages, s, loaded.db.seats[s].version) ==>
                  Deliver(Loaded(snapshot), event, messages).tiles[i].status == now.db.seats[s].status)
  {
    hide Flow, PipeOk, Received, Drained, Deliver, Highest, OnlyOlder, Grows;
    EmptyOk(start);
    FlowOk(start, earlier, b);
    var loaded := Flow(start, earlier, b);
    FlowOk(loaded, later, b);
    TileOfDrained(loaded, Flow(loaded, later, b), event, snapshot, messages, i);
  }

  lemma TileOfDrained(loaded: Pipe, now: Pipe, event: EventId, snapshot: seq<Tile>, messages: seq<SeatEvent>, i: nat)
    requires PipeOk(loaded) && PipeOk(now) && Grows(loaded, now) && Received(loaded, now, messages)
    requires i < |snapshot| && SnapshotOf(loaded.db, event, snapshot) && Drained(now, snapshot[i].id)
    ensures var s := snapshot[i].id;
            && s in now.db.seats && s in loaded.db.seats
            && (now.db.seats[s].version > loaded.db.seats[s].version ==> !OnlyOlder(event, messages, s, loaded.db.seats[s].version))
            && (!OnlyOlder(event, messages, s, loaded.db.seats[s].version) ==>
                  Deliver(Loaded(snapshot), event, messages).tiles[i].status == now.db.seats[s].status)
  {
    hide W.Ok, Logged, Drained, Deliver, Highest, OnlyOlder, HoldsOk, SalesOk, WaitlistOk, Received, Mirrored;
    var s := snapshot[i].id;
    var loadedVersion, version := loaded.db.seats[s].version, now.db.seats[s].version;
    ReceivedArePublished(loaded, now, messages);
    ReloadedTile(loaded.db, now.db, event, snapshot, messages, i);
    OnlyOlderIff(now.db, event, messages, s, loadedVersion);
    SeatRows(now.db, s);
    SeatRows(loaded.db, s);
    assert loaded.db.outbox[s] <= now.db.outbox[s];
    assert now.db.seats[s].event == event;
    hide SeatsOk;
    if version > loadedVersion {
      ChangedSeatCatchesUp(loaded, now, event, messages, s);
    }
  }

  // ------------------------------------------------- a load with nothing pending

  /** A processed row stays processed and does not go out again between these two. */
  ghost predicate Settled(p: Pipe, d: Pipe, r: W.RowId) {
    && r in d.sys.rows && d.sys.rows[r].processed
    && |p.log| <= |d.log| && forall k :: |p.log| <= k < |d.log| ==> d.log[k] != r
  }

  lemma DoSettles(p: Pipe, e: Event, b: W.Backoff, r: W.RowId)
    requires PipeOk(p) && Enabled(p, e) && r in p.sys.rows && p.sys.rows[r].processed
    ensures Settled(p, Do(p, e, b), r)
  {
    hide Inv, Apply, Mirrored, W.Accounted, W.BackedOff;
    if e.Work? {
      forall w | w in p.sys.open ensures r !in p.sys.open[w].ids && r !in p.sys.open[w].rewritten {
        assert W.BatchOk(p.sys, p.sys.open[w]);
      }
    }
  }

  lemma {:induction false} FlowSettles(p: Pipe, events: seq<Event>, b: W.Backoff, r: W.RowId)
    requires PipeOk(p) && r in p.sys.rows && p.sys.rows[r].processed
    ensures Settled(p, Flow(p, events, b), r)
    decreases |events|
  {
    hide PipeOk, Do, Enabled;
    if events != [] {
      if Enabled(p, events[0]) {
        var d := Do(p, events[0], b);
        DoOk(p, events[0], b);
        DoSettles(p, events[0], b, r);
        FlowSettles(d, events[1..], b, r);
        FlowGrows(p, events[0], events, b);
      } else {
        FlowSettles(p, events[1..], b, r);
      }
    }
  }

  /** The log keeps what the first event put into it. */
  lemma FlowGrows(p: Pipe, e: Event, events: seq<Event>, b: W.Backoff)
    requires PipeOk(p) && events != [] && e == events[0] && Enabled(p, e)
    ensures Do(p, e, b).log <= Flow(p, events, b).log
  {
    hide PipeOk, Do, Enabled, Evolves;
    DoOk(p, e, b);
    FlowOk(Do(p, e, b), events[1..], b);
  }

  /** If nothing of the seat was pending at the load, only rows newer than the load go out afterwards. */
  lemma OnlyNewerIsSent(loaded: Pipe, events: seq<Event>, b: W.Backoff, m: SeatEvent)
    requires PipeOk(loaded) && PipeOk(Flow(loaded, events, b)) && Grows(loaded, Flow(loaded, events, b))
    requires Drained(loaded, m.seat) && m.seat in loaded.db.seats && SentSince(loaded, Flow(loaded, events, b), m)
    ensures m.version > loaded.db.seats[m.seat].version
  {
    hide Flow, W.Ok, Logged, HoldsOk, SalesOk, WaitlistOk, Written;
    var now, s := Flow(loaded, events, b), m.seat;
    var k :| |loaded.log| <= k < |now.log| && now.log[k] in now.content && now.content[now.log[k]] == m;
    NamedIsWritten(now, now.log[k]);
    SeatRows(loaded.db, s);
    RowAtItsPlace(now.db, m);
    hide SeatsOk;
    if m.version <= loaded.db.seats[s].version {
      assert loaded.db.outbox[s][m.version - 1] == m;
      assert Named(loaded.content, loaded.db.outbox[s][m.version - 1]);
      var q :| q in loaded.content && loaded.content[q] == m;
      FlowSettles(loaded, events, b, q);
    }
  }

  lemma RowAtItsPlace(db: Db, m: SeatEvent)
    requires SeatsOk(db) && Written(db, m)
    ensures 1 <= m.version <= |db.outbox[m.seat]| && db.outbox[m.seat][m.version - 1] == m
  {
    var i :| 0 <= i < |db.outbox[m.seat]| && db.outbox[m.seat][i] == m;
    RowsDiffer(db, m.seat, i, m);
  }

  /** A seat with nothing pending when the client loads shows the server's status whenever it has nothing pending again. */
  lemma CalmLoadIsServed(start: Pipe, earlier: seq<Event>, later: seq<Event>, b: W.Backoff, event: EventId,
                         snapshot: seq<Tile>, messages: seq<SeatEvent>, i: nat)
    requires Empty(start) && i < |snapshot|
    requires SnapshotOf(Flow(start, earlier, b).db, event, snapshot) && Drained(Flow(start, earlier, b), snapshot[i].id)
    requires Received(Flow(start, earlier, b), Flow(Flow(start, earlier, b), later, b), messages)
    requires Drained(Flow(Flow(start, earlier, b), later, b), snapshot[i].id)
    ensures var now := Flow(Flow(start, earlier, b), later, b); var s := snapshot[i].id;
            s in now.db.seats && Deliver(Loaded(snapshot), event, messages).tiles[i].status == now.db.seats[s].status
  {
    hide Flow, PipeOk, Drained, Deliver, Grows, SentSince;
    EmptyOk(start);
    FlowOk(start, earlier, b);
    var loaded, s := Flow(start, earlier, b), snapshot[i].id;
    FlowOk(loaded, later, b);
    EndToEnd(start, earlier, later, b, event, snapshot, messages, i);
    forall m | m in messages && m.seat == s ensures m.version > loaded.db.seats[s].version {
      OnlyNewerIsSent(loaded, later, b, m);
    }
  }
}
