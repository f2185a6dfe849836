/** The allocation worker's own passes as turns of a batch: which of them can deadlock with a customer. */
module WorkerLocks {
  import opened Rows
  import opened Schema
  import opened Wrappers
  import opened Transactions
  import opened Invariant
  import opened Allocation
  import L = LockOrder
  import B = BatchLocks

  /** ORDER BY id. */
  ghost function InIdOrder(ids: set<int>): (sorted: seq<int>)
    ensures L.Sorted(sorted) && forall x :: x in sorted <==> x in ids
    decreases |ids|
  {
    if ids == {} then []
    else
      LeastExists(ids);
      var x :| IsLeast(ids, x);
      [x] + InIdOrder(ids - {x})
  }

  /** What one iteration locks: the seat comes back from the lock query only if it is one of the event's. */
  ghost function TurnOf(db: Db, event: EventId, entry: EntryId, seat: SeatId, kept: bool, now: Instant): B.Attempt {
    if seat in db.seats && db.seats[seat].event == event
    then B.Pairing(entry, seat, InIdOrder(LapsedOver(db, {seat}, now)), kept)
    else B.NoSeat(entry)
  }

  /** The turns of a pass, iteration by iteration. */
  ghost function Turns(db: Db, event: EventId, category: Category, draws: seq<Draw>, ttl: int, now: Instant): seq<B.Attempt>
    decreases |draws|
  {
    if draws == [] then []
    else
      var next := NextWaiting(db, event, category, draws[0].locked);
      if next.None? then []
      else if draws[0].seat.None? then [B.NoSeat(next.value)]
      else
        var entry, seat := next.value, draws[0].seat.value;
        match OfferSeat(db, entry, seat, ttl, draws[0].newHold, draws[0].newOffer, now)
        case Aborted(_) => [TurnOf(db, event, entry, seat, false, now)]
        case Raced => [TurnOf(db, event, entry, seat, false, now)] + Turns(db, event, category, draws[1..], ttl, now)
        case Paired(d) => [TurnOf(db, event, entry, seat, true, now)] + Turns(d, event, category, draws[1..], ttl, now)
  }

  /** The pairs whose locks are kept. */
  function KeptPairs(turns: seq<B.Attempt>): seq<Pair> {
    if turns == [] then []
    else (if turns[0].Pairing? && turns[0].kept then [Pair(turns[0].entry, turns[0].seat)] else []) + KeptPairs(turns[1..])
  }

  /** They are the pass's own pairs, in its order. */
  lemma {:induction false} TurnsAreThePass(db: Db, event: EventId, category: Category, draws: seq<Draw>, ttl: int, now: Instant)
    ensures KeptPairs(Turns(db, event, category, draws, ttl, now)) == Pass(db, event, category, draws, ttl, now).pairs
    decreases |draws|
  {
    hide OfferSeat, InIdOrder, LapsedOver;
    if draws != [] {
      var next := NextWaiting(db, event, category, draws[0].locked);
      if next.Some? && draws[0].seat.Some? {
        var entry, seat := next.value, draws[0].seat.value;
        match OfferSeat(db, entry, seat, ttl, draws[0].newHold, draws[0].newOffer, now)
        case Aborted(_) => OneTurn(TurnOf(db, event, entry, seat, false, now), []);
        case Raced =>
          TurnsAreThePass(db, event, category, draws[1..], ttl, now);
          OneTurn(TurnOf(db, event, entry, seat, false, now), Turns(db, event, category, draws[1..], ttl, now));
        case Paired(d) =>
          TurnsAreThePass(d, event, category, draws[1..], ttl, now);
          NextIsInLine(db, event, category, draws[0].locked);
          OfferSeatPaired(db, entry, seat, ttl, draws[0].newHold, draws[0].newOffer, now);
          OneTurn(TurnOf(db, event, entry, seat, true, now), Turns(d, event, category, draws[1..], ttl, now));
      } else if next.Some? {
        OneTurn(B.NoSeat(next.value), []);
      }
    }
  }

  lemma OneTurn(turn: B.Attempt, rest: seq<B.Attempt>)
    ensures KeptPairs([turn] + rest) == (if turn.Pairing? && turn.kept then [Pair(turn.entry, turn.seat)] else []) + KeptPairs(rest)
  {
    assert ([turn] + rest)[1..] == rest;
  }

  lemma {:induction false} TurnsWellFormed(db: Db, event: EventId, category: Category, draws: seq<Draw>, ttl: int, now: Instant)
    ensures B.WellFormed(Turns(db, event, category, draws, ttl, now))
    decreases |draws|
  {
    hide OfferSeat, LapsedOver;
    if draws != [] {
      var next := NextWaiting(db, event, category, draws[0].locked);
      if next.Some? && draws[0].seat.Some? {
        match OfferSeat(db, next.value, draws[0].seat.value, ttl, draws[0].newHold, draws[0].newOffer, now)
        case Aborted(_) =>
        case Raced => TurnsWellFormed(db, event, category, draws[1..], ttl, now);
        case Paired(d) => TurnsWellFormed(d, event, category, draws[1..], ttl, now);
      }
    }
  }

  /** A claimed signal, and what the outside decides about its pass. */
  datatype Claim = Claim(queue: Queue, draws: seq<Draw>)

  function Tried(draws: seq<Draw>): seq<Draw> {
    if |draws| <= MAX_PAIRINGS_PER_PASS then draws else draws[..MAX_PAIRINGS_PER_PASS]
  }

  /** The whole worker transaction: the passes of its claims one after another. */
  ghost function WorkerTurns(db: Db, claims: seq<Claim>, ttl: int, now: Instant): seq<B.Attempt>
    decreases |claims|
  {
    if claims == [] then []
    else
      var q, draws := claims[0].queue, claims[0].draws;
      Turns(db, q.event, q.category, Tried(draws), ttl, now)
      + WorkerTurns(RunPass(db, q.event, q.category, draws, ttl, now).db, claims[1..], ttl, now)
  }

  lemma {:induction false} WorkerTurnsWellFormed(db: Db, claims: seq<Claim>, ttl: int, now: Instant)
    ensures B.WellFormed(WorkerTurns(db, claims, ttl, now))
    decreases |claims|
  {
    hide Turns, Pass;
    if claims != [] {
      var q, draws := claims[0].queue, claims[0].draws;
      TurnsWellFormed(db, q.event, q.category, Tried(draws), ttl, now);
      WorkerTurnsWellFormed(RunPass(db, q.event, q.category, draws, ttl, now).db, claims[1..], ttl, now);
    }
  }

  /**
   Whatever it claims, reads and loses, the worker's transaction can be caught in
   a circle of waiting with the code's other transactions if and only if one of
   its turns comes to a seat or lapsed hold that stands, in the global order,
   before one an earlier turn kept.
   */
  lemma WorkerDeadlocksIff(db: Db, claims: seq<Claim>, ttl: int, now: Instant, t: L.TxId)
    ensures B.CanDeadlock(WorkerTurns(db, claims, ttl, now), t) <==> B.OutOfOrder(WorkerTurns(db, claims, ttl, now), {})
  {
    hide WorkerTurns, B.CanDeadlock, B.OutOfOrder;
    WorkerTurnsWellFormed(db, claims, ttl, now);
    B.BatchDeadlocksIff(WorkerTurns(db, claims, ttl, now), t);
  }

  // --------------------------------------------------------- one undisturbed queue

  /** Seats rising along the shelf, no lapsed hold met. */
  predicate Climbs(turns: seq<B.Attempt>, shelf: seq<SeatId>) {
    && |turns| <= |shelf| + 1
    && (forall i :: 0 <= i < |turns| && turns[i].Pairing? ==> i < |shelf| && turns[i].seat == shelf[i] && turns[i].lapsed == [])
  }

  lemma OnSaleHasNoLapsed(db: Db, event: EventId, category: Category, seat: SeatId, now: Instant)
    requires HoldsOk(db) && seat in OnSale(db, event, category)
    ensures LapsedOver(db, {seat}, now) == {}
  {
    forall h | h in db.holds && db.holds[h].status.Active? ensures h !in LapsedOver(db, {seat}, now) {
      assert HoldOk(db, db.holds[h]);
      assert seat !in db.holds[h].seats;
    }
    assert forall h :: h !in LapsedOver(db, {seat}, now);
  }

  lemma {:induction false} CalmTurnsClimb(db: Db, event: EventId, category: Category, line: seq<EntryId>, shelf: seq<SeatId>,
                                          draws: seq<Draw>, ttl: int, now: Instant)
    requires Inv(db) && IsLine(db, event, category, line) && IsShelf(db, event, category, shelf)
    requires Calm(db, event, category, draws, ttl, now)
    ensures Climbs(Turns(db, event, category, draws, ttl, now), shelf)
    decreases |draws|
  {
    hide OfferSeat, LapsedOver, SeatsOk, SalesOk, WaitlistOk, InLine, OnSale, NextWaiting, NextSeat;
    if draws != [] {
      NextIsHead(db, event, category, line);
      NextIsTop(db, event, category, shelf);
      if line != [] && shelf != [] {
        assert line[0] in line && shelf[0] in shelf;
        OnSaleHasNoLapsed(db, event, category, shelf[0], now);
        assert InIdOrder({}) == [];
        OnSaleIsOfferable(db, event, category, line[0], shelf[0], ttl, draws[0].newHold, draws[0].newOffer, now);
        var p := OfferSeat(db, line[0], shelf[0], ttl, draws[0].newHold, draws[0].newOffer, now);
        if p.Paired? {
          OfferSeatInv(db, line[0], shelf[0], ttl, draws[0].newHold, draws[0].newOffer, now);
          PairingAdvances(db, event, category, line[0], draws[0], ttl, now);
          LineAdvances(db, p.db, event, category, line);
          ShelfAdvances(db, event, category, line[0], shelf, ttl, draws[0].newHold, draws[0].newOffer, now);
          CalmTurnsClimb(p.db, event, category, line[1..], shelf[1..], draws[1..], ttl, now);
        }
      }
    }
  }

  /** A worker that claimed one queue and is not disturbed in it cannot deadlock with anyone. */
  lemma OneCalmQueueCannotDeadlock(db: Db, claim: Claim, line: seq<EntryId>, shelf: seq<SeatId>, ttl: int, now: Instant, t: L.TxId)
    requires Inv(db) && IsLine(db, claim.queue.event, claim.queue.category, line) && IsShelf(db, claim.queue.event, claim.queue.category, shelf)
    requires Calm(db, claim.queue.event, claim.queue.category, Tried(claim.draws), ttl, now)
    ensures !B.CanDeadlock(WorkerTurns(db, [claim], ttl, now), t)
  {
    hide Inv, Turns, Pass, Calm, B.CanDeadlock, B.OutOfOrder;
    var q := claim.queue;
    var turns := Turns(db, q.event, q.category, Tried(claim.draws), ttl, now);
    assert [claim][1..] == [];
    assert WorkerTurns(RunPass(db, q.event, q.category, claim.draws, ttl, now).db, [], ttl, now) == [];
    assert WorkerTurns(db, [claim], ttl, now) == turns;
    CalmTurnsClimb(db, q.event, q.category, line, shelf, Tried(claim.draws), ttl, now);
    ClimbingIsPlain(db, q.event, q.category, turns, shelf);
    B.PlainOutOfOrder(turns);
    WorkerDeadlocksIff(db, [claim], ttl, now, t);
  }

  lemma ClimbingIsPlain(db: Db, event: EventId, category: Category, turns: seq<B.Attempt>, shelf: seq<SeatId>)
    requires IsShelf(db, event, category, shelf) && Climbs(turns, shelf)
    ensures B.Plain(turns) && forall i, j :: !B.Reverses(turns, i, j)
  {
  }
}
