/**
 The inventory as the code works on it: tables changed in place, one statement at
 a time, each transaction undone whole when it refuses. Every method is proved to
 do what its function in module Transactions says.
 */
module Store {
  import opened Schema
  import opened Sums
  import opened Rows
  import opened Transactions
  import opened Invariant
  import opened Allocation
  import opened Runs
  import opened Verdicts
  import opened Wrappers

  /** The seats' own tables agree on which seats there are. */
  ghost predicate Keyed(db: Db) {
    forall s :: s in db.seats <==> s in db.outbox
  }

  lemma InvIndexes(db: Db)
    requires Inv(db)
    ensures Keyed(db) && SoleOfferPerHold(db)
  {
  }

  /** The holds a sweep has expired on the way from one state to another. */
  ghost function ExpiredSince(db: Db, d: Db): set<HoldId> {
    set h | h in db.holds && db.holds[h].status.Active? && h in d.holds && d.holds[h].status.Expired?
  }

  /** Holds are as they were, or have gone from active to expired. */
  ghost predicate OnlyExpiries(db: Db, d: Db) {
    && (forall h :: h in d.holds <==> h in db.holds)
    && (forall h :: h in d.holds ==>
          || d.holds[h] == db.holds[h]
          || (db.holds[h].status.Active? && d.holds[h] == db.holds[h].(status := HoldStatus.Expired)))
  }

  lemma NoneExpiredSince(db: Db)
    ensures ExpiredSince(db, db) == {} && OnlyExpiries(db, db)
  {
    assert forall h :: h !in ExpiredSince(db, db);
  }

  lemma OneExpiryMore(db: Db, d: Db, hold: HoldId, now: Instant)
    requires Inv(d) && OnlyExpiries(db, d)
    ensures var r := Transactions.ExpireHold(d, hold, now);
            && OnlyExpiries(db, r.db)
            && |ExpiredSince(db, r.db)| == |ExpiredSince(db, d)| + if r.out == Ok(true) then 1 else 0
  {
    hide Inv, Transactions.ExpireHold;
    ExpireHoldVerdict(d, hold, now);
    var r := Transactions.ExpireHold(d, hold, now);
    if r.out == Ok(true) {
      assert hold !in ExpiredSince(db, d);
      assert forall h :: h in ExpiredSince(db, r.db) <==> h in ExpiredSince(db, d) + {hold};
      assert ExpiredSince(db, r.db) == ExpiredSince(db, d) + {hold};
    }
  }

  class Inventory {
    const world: World
    var seats: map<SeatId, Seat>
    var outbox: map<SeatId, seq<SeatEvent>>
    var holds: map<HoldId, Hold>
    var bookings: map<BookingId, Booking>
    var entries: map<EntryId, Entry>
    var offers: map<OfferId, Offer>
    var signals: set<Queue>

    function Tables(): Db
      reads this
    {
      Db(world, seats, outbox, holds, bookings, entries, offers, signals)
    }

    ghost predicate Valid()
      reads this
    {
      Inv(Tables())
    }

    /** An event's seats put on sale, before anything is reserved. */
    constructor (world: World, onSale: map<SeatId, Seat>)
      requires forall s :: s in onSale ==> onSale[s].event in world.events && onSale[s].status.Available? && onSale[s].version == 0
      ensures Initial(Tables()) && Valid()
      ensures this.world == world && seats == onSale && signals == {}
    {
      this.world := world;
      seats := onSale;
      outbox := map s | s in onSale :: [];
      holds, bookings, entries, offers, signals := map[], map[], map[], map[], {};
      new;
      InitialInv(Tables());
    }

    /** ROLLBACK, or ROLLBACK TO SAVEPOINT. */
    method Restore(saved: Db)
      requires saved.world == world
      modifies this
      ensures Tables() == saved
    {
      seats, outbox, holds := saved.seats, saved.outbox, saved.holds;
      bookings, entries, offers, signals := saved.bookings, saved.entries, saved.offers, saved.signals;
    }

    // -------------------------------------------------------- seat statements

    /** One updated row of show_seats, with the trigger it fires. */
    method UpdateSeat(s: SeatId, status: SeatStatus)
      requires s in seats && s in outbox
      modifies `seats, `outbox
      ensures Tables() == SetStatus(old(Tables()), {s}, status)
    {
      var row := seats[s];
      seats := seats[s := Fire(row, status)];
      outbox := outbox[s := outbox[s] + Emit(s, row, status)];
      ghost var d := SetStatus(old(Tables()), {s}, status);
      assert seats == d.seats;
      assert outbox == d.outbox;
    }

    /** UPDATE show_seats SET status = `to` WHERE id = ANY(ids) AND status = `from`. */
    method UpdateSeats(ids: set<SeatId>, from: SeatStatus, to: SeatStatus) returns (changed: set<SeatId>)
      requires Keyed(Tables()) && from != to
      modifies `seats, `outbox
      ensures changed == WithStatus(old(Tables()), ids, from)
      ensures Tables() == SetStatus(old(Tables()), changed, to)
    {
      ghost var before := Tables();
      var left := ids;
      changed := {};
      SetStatusOfNone(before, to);
      while left != {}
        invariant Tables() == SetStatus(before, changed, to)
        invariant forall s :: s in left ==> s in ids
        invariant forall s :: s in changed <==> s in ids && s !in left && s in before.seats && before.seats[s].status == from
      {
        var s := AnyOf(left);
        left := left - {s};
        if s in seats && seats[s].status == from {
          UpdateSeat(s, to);
          SetStatusOfOneMore(before, changed, s, to);
          changed := changed + {s};
        }
      }
      assert forall s :: s in changed <==> s in WithStatus(before, ids, from);
    }

    /** Seats flagged held that no unexpired active hold covers go back on sale. */
    method ReleaseSeatsWithoutLiveHold(ids: set<SeatId>, now: Instant) returns (released: set<SeatId>)
      requires Keyed(Tables())
      modifies `seats, `outbox
      ensures released == Orphaned(old(Tables()), ids, now)
      ensures Tables() == SetStatus(old(Tables()), released, Available)
    {
      ghost var before := Tables();
      var left := ids;
      released := {};
      SetStatusOfNone(before, Available);
      while left != {}
        invariant Tables() == SetStatus(before, released, Available)
        invariant forall s :: s in left ==> s in ids
        invariant forall s :: s in released <==> s in ids && s !in left && s in before.seats && before.seats[s].status.Held? && !LiveHold(before, s, now)
      {
        var s := AnyOf(left);
        left := left - {s};
        if s in seats && seats[s].status.Held? && !LiveHold(Tables(), s, now) {
          UpdateSeat(s, Available);
          SetStatusOfOneMore(before, released, s, Available);
          released := released + {s};
        }
      }
      assert forall s :: s in released <==> s in Orphaned(before, ids, now);
    }

    // -------------------------------------------------------- hold statements

    /** UPDATE reservation_holds SET status = 'expired' for the lapsed active holds over these seats. */
    method ExpireLapsedHoldsForSeats(ids: set<SeatId>, now: Instant)
      modifies `holds
      ensures Tables() == SetHolds(old(Tables()), LapsedOver(old(Tables()), ids, now), HoldStatus.Expired)
    {
      ghost var before := Tables();
      var left := holds.Keys;
      while left != {}
        invariant forall h :: h in holds <==> h in before.holds
        invariant forall h :: h in left ==> h in before.holds
        invariant forall h :: h in holds ==>
                    holds[h] == if h !in left && h in LapsedOver(before, ids, now) then before.holds[h].(status := HoldStatus.Expired) else before.holds[h]
      {
        var h := AnyOf(left);
        left := left - {h};
        var hold := holds[h];
        if hold.status.Active? && hold.expiresAt <= now && exists s :: s in hold.seats && s in ids {
          holds := holds[h := hold.(status := HoldStatus.Expired)];
        }
      }
      ghost var d := SetHolds(before, LapsedOver(before, ids, now), HoldStatus.Expired);
      assert forall h :: h in holds <==> h in d.holds;
      assert forall h :: h in holds ==> h !in left && holds[h] == d.holds[h];
      assert holds == d.holds;
    }

    /** The availability verdict: every seat still taken, and whether it is sold or held. */
    method ReadUnavailable(ids: set<SeatId>, now: Instant) returns (reasons: map<SeatId, SeatStatus>)
      ensures forall s :: s in reasons <==> s in ids && s in seats && (!seats[s].status.Available? || LiveHold(Tables(), s, now))
      ensures forall s :: s in reasons ==> reasons[s] == if seats[s].status.Booked? then Booked else Held
    {
      var left := ids;
      reasons := map[];
      while left != {}
        invariant forall s :: s in left ==> s in ids
        invariant forall s :: s in reasons <==> s in ids && s !in left && s in seats && (!seats[s].status.Available? || LiveHold(Tables(), s, now))
        invariant forall s :: s in reasons ==> reasons[s] == if seats[s].status.Booked? then Booked else Held
      {
        var s := AnyOf(left);
        left := left - {s};
        if s in seats && (!seats[s].status.Available? || LiveHold(Tables(), s, now)) {
          reasons := reasons[s := if seats[s].status.Booked? then Booked else Held];
        }
      }
    }

    // ------------------------------------------------------------- createHold

    /** The steps of createHoldInTransaction; a refusal leaves whatever was done for the caller to roll back. */
    method CreateHoldInTransaction(event: EventId, user: UserId, ids: set<SeatId>, ttl: int, newHold: HoldId, now: Instant)
      returns (out: Outcome<HoldId>)
      requires Keyed(Tables())
      modifies `seats, `outbox, `holds
      ensures out == Transactions.CreateHold(old(Tables()), event, user, ids, ttl, newHold, now).out
      ensures out.Ok? ==> Tables() == Transactions.CreateHold(old(Tables()), event, user, ids, ttl, newHold, now).db
    {
      hide SetStatus, SetHolds, LiveHold, LapsedOver, Orphaned, WithStatus, TakenAmong;
      ghost var before := Tables();
      if ids == {} || |ids| > MAX_SEATS_PER_HOLD { return Fail(InvalidSelection); }
      if event !in world.events { return Fail(EventNotFound); }
      if user !in world.users { return Fail(UserNotFound); }
      var outside := SeatsOutside(Tables(), event, ids);
      if outside != {} {
        var wrongEvent := set s | s in outside && s in seats;
        return Fail(if wrongEvent != {} then SeatsOfOtherEvent(wrongEvent) else SeatsMissing(outside));
      }

      ExpireLapsedHoldsForSeats(ids, now);
      KeyedAfterHolds(before, LapsedOver(before, ids, now), HoldStatus.Expired);
      var released := ReleaseSeatsWithoutLiveHold(ids, now);
      OrphansAfterExpiring(before, ids, now);
      ghost var freed := Tables();
      var reasons := ReadUnavailable(ids, now);
      FreedIsTaken(before, ids, now, reasons);
      if reasons != map[] { return Fail(SeatsUnavailable(reasons)); }

      FreedKeeps(before, ids, now);
      if newHold in holds { return Fail(IdCollision); }
      holds := holds[newHold := Hold(event, user, Active, ExpiryAt(now, ttl), ids)];
      AllAvailable(before, Tables(), event, ids, reasons, now);
      var held := UpdateSeats(ids, Available, Held);
      if |held| != |ids| { return Fail(Internal("not every seat was held")); }
      return Ok(newHold);
    }

    /** createHold: all of the seats, or nothing at all. */
    method CreateHold(event: EventId, user: UserId, ids: set<SeatId>, ttl: int, newHold: HoldId, now: Instant)
      returns (out: Outcome<HoldId>)
      requires Valid()
      modifies this
      ensures Valid() && Reply(Tables(), out) == Transactions.CreateHold(old(Tables()), event, user, ids, ttl, newHold, now)
    {
      hide Inv, TakeSeats, HoldVerdict;
      var saved := Tables();
      InvIndexes(saved);
      CreateHoldInv(saved, event, user, ids, ttl, newHold, now);
      out := CreateHoldInTransaction(event, user, ids, ttl, newHold, now);
      if out.Fail? { Restore(saved); }
    }

    // ---------------------------------------------------------------- tickets

    /** One ticket a live row, unless the booking has tickets already. */
    method EnsureTicketsForBooking(b: BookingId) returns (out: Outcome<bool>)
      requires b in bookings
      modifies `bookings
      ensures match EnsureTickets(old(bookings[b]))
              case Fail(error) => out == Fail(error) && bookings == old(bookings)
              case Ok((ticketed, created)) => out == Ok(created) && bookings == old(bookings)[b := ticketed]
    {
      ghost var before := bookings;
      if bookings[b].tickets != map[] {
        assert bookings == before[b := before[b]];
        return Ok(false);
      }
      var ids := LiveRows(bookings[b]);
      if ids == {} { return Fail(BookingHasNoSeats); }
      var left := ids;
      while left != {}
        invariant b in bookings && bookings == before[b := before[b].(tickets := bookings[b].tickets)]
        invariant forall s :: s in left ==> s in ids
        invariant forall s :: s in bookings[b].tickets <==> s in ids && s !in left
        invariant forall s :: s in bookings[b].tickets ==> bookings[b].tickets[s] == Issued
      {
        var s := AnyOf(left);
        left := left - {s};
        bookings := bookings[b := bookings[b].(tickets := bookings[b].tickets[s := Issued])];
      }
      ghost var issued: map<SeatId, TicketStatus> := map s | s in ids :: Issued;
      assert forall s :: s in bookings[b].tickets <==> s in issued;
      assert forall s :: s in issued ==> bookings[b].tickets[s] == issued[s];
      assert bookings[b].tickets == issued;
      return Ok(true);
    }

    // ---------------------------------------------------------------- confirm

    /** INSERT INTO booking_seats, at the locked rows' prices; the live-row index refuses a seat sold elsewhere. */
    method InsertBookingSeats(b: BookingId, ids: set<SeatId>) returns (inserted: bool)
      requires b in bookings && bookings[b].rows == map[] && forall s :: s in ids ==> s in seats
      modifies `bookings
      ensures inserted <==> !exists s :: s in ids && SoldLive(old(Tables()), s)
      ensures inserted ==> bookings == old(bookings)[b := old(bookings[b]).(rows := SoldRows(old(Tables()), ids))]
      ensures bookings.Keys == old(bookings.Keys)
    {
      ghost var before := Tables();
      var left := ids;
      while left != {}
        invariant b in bookings && bookings == before.bookings[b := before.bookings[b].(rows := bookings[b].rows)]
        invariant forall s :: s in left ==> s in ids
        invariant forall s :: s in bookings[b].rows <==> s in ids && s !in left
        invariant forall s :: s in bookings[b].rows ==> bookings[b].rows[s] == SoldSeat(seats[s].price, false)
        invariant forall s :: s in ids && s !in left ==> !SoldLive(before, s)
      {
        var s := AnyOf(left);
        SoldElsewhere(before, Tables(), b, s);
        if SoldLive(Tables(), s) { return false; }
        left := left - {s};
        bookings := bookings[b := bookings[b].(rows := bookings[b].rows[s := SoldSeat(seats[s].price, false)])];
      }
      assert forall s :: s in bookings[b].rows <==> s in SoldRows(before, ids);
      assert forall s :: s in bookings[b].rows ==> bookings[b].rows[s] == SoldRows(before, ids)[s];
      assert bookings[b].rows == SoldRows(before, ids);
      return true;
    }

    /** UPDATE bookings SET total_amount = the sum of its rows' prices, unless the column cannot hold it. */
    method ApplyBookingTotal(b: BookingId) returns (fits: bool)
      requires b in bookings
      modifies `bookings
      ensures fits <==> Sum(RowPrices(old(bookings[b]))) <= MAX_AMOUNT
      ensures fits ==> bookings == old(bookings)[b := old(bookings[b]).(total := Sum(RowPrices(old(bookings[b]))))]
    {
      var rows := bookings[b].rows;
      var left := rows.Keys;
      var total: nat := 0;
      ghost var added: map<SeatId, nat> := map[];
      while left != {}
        invariant bookings == old(bookings)
        invariant forall s :: s in left ==> s in rows
        invariant forall s :: s in added <==> s in rows && s !in left
        invariant forall s :: s in added ==> added[s] == rows[s].price
        invariant total == Sum(added)
      {
        var s := AnyOf(left);
        left := left - {s};
        SumInsert(added, s, rows[s].price);
        added := added[s := rows[s].price];
        total := total + rows[s].price;
      }
      assert forall s :: s in added <==> s in RowPrices(bookings[b]);
      assert forall s :: s in added ==> added[s] == RowPrices(bookings[b])[s];
      assert added == RowPrices(bookings[b]);
      fits := total <= MAX_AMOUNT;
      if fits { bookings := bookings[b := bookings[b].(total := total)]; }
    }

    /** UPDATE reservation_holds SET status = ... WHERE id = h AND status = 'active'. */
    method MarkHold(h: HoldId, status: HoldStatus) returns (changed: bool)
      modifies `holds
      ensures changed <==> h in old(holds) && old(holds)[h].status.Active?
      ensures Tables() == if changed then SetHolds(old(Tables()), {h}, status) else old(Tables())
    {
      ghost var before := Tables();
      changed := h in holds && holds[h].status.Active?;
      if changed {
        holds := holds[h := holds[h].(status := status)];
        assert holds == SetHolds(before, {h}, status).holds;
      }
    }

    /** The booking, its seat rows at today's prices, and its total. */
    method WriteBooking(user: UserId, event: EventId, hold: HoldId, ids: set<SeatId>, newBooking: BookingId)
      returns (refused: Option<Error>)
      requires newBooking !in bookings && forall s :: s in ids ==> s in seats
      modifies `bookings
      ensures var before := old(Tables());
              if exists s :: s in ids && SoldLive(before, s) then refused == Some(Internal("live booking seat exists"))
              else if Sum(PricesOf(before, ids)) > MAX_AMOUNT then refused == Some(AmountOverflow)
              else && refused == None
                   && bookings == before.bookings[newBooking :=
                        Booking(user, event, hold, Confirmed, Sum(PricesOf(before, ids)), SoldRows(before, ids), map[])]
    {
      hide Sum, SoldRows, PricesOf, RowPrices, SoldLive;
      ghost var before := Tables();
      bookings := bookings[newBooking := Booking(user, event, hold, Confirmed, 0, map[], map[])];
      ghost var inserted := Tables();
      NewBookingSellsNothing(before, inserted, newBooking);
      var rows := InsertBookingSeats(newBooking, ids);
      if !rows { return Some(Internal("live booking seat exists")); }
      SameRows(before, inserted, ids);
      RowsArePriced(before, bookings[newBooking], ids);
      var fits := ApplyBookingTotal(newBooking);
      if !fits { return Some(AmountOverflow); }
      return None;
    }

    /** The seats booked, the hold converted, the tickets cut for a booking just written. */
    method CompleteSale(hold: HoldId, ids: set<SeatId>, b: BookingId) returns (out: Outcome<BookingId>)
      requires Keyed(Tables()) && hold in holds && holds[hold].status.Active? && b in bookings
      requires WithStatus(Tables(), ids, Held) == ids
      modifies `seats, `outbox, `holds, `bookings
      ensures match EnsureTickets(old(bookings[b]))
              case Fail(error) => out == Fail(error)
              case Ok((ticketed, _)) =>
                && out == Ok(b)
                && Tables() == SetHolds(SetStatus(old(Tables()), ids, Booked), {hold}, Converted).(bookings := old(bookings)[b := ticketed])
    {
      hide SetStatus, SetHolds, WithStatus, EnsureTickets;
      ghost var before := Tables();
      var booked := UpdateSeats(ids, Held, Booked);
      if |booked| != |ids| { return Fail(Internal("not every seat was booked")); }
      StatusFrame(before, ids, Booked);
      ghost var marked := Tables();
      var converted := MarkHold(hold, Converted);
      if !converted { return Fail(Internal("hold was no longer active")); }
      HoldsFrame(marked, {hold}, Converted);
      var ticketed := EnsureTicketsForBooking(b);
      if ticketed.Fail? { return Fail(ticketed.error); }
      return Ok(b);
    }

    /** The writes of a confirmation whose hold and seats have been checked. */
    method SellHold(hold: HoldId, ids: set<SeatId>, newBooking: BookingId) returns (out: Outcome<BookingId>)
      requires Keyed(Tables()) && hold in holds && holds[hold].status.Active? && newBooking !in bookings
      requires (forall s :: s in ids ==> s in seats) && WithStatus(Tables(), ids, Held) == ids
      modifies `seats, `outbox, `holds, `bookings
      ensures var h, before := old(holds[hold]), old(Tables());
              var total := Sum(PricesOf(before, ids));
              if exists s :: s in ids && SoldLive(before, s) then out == Fail(Internal("live booking seat exists"))
              else if total > MAX_AMOUNT then out == Fail(AmountOverflow)
              else match EnsureTickets(Booking(h.user, h.event, hold, Confirmed, total, SoldRows(before, ids), map[]))
                   case Fail(error) => out == Fail(error)
                   case Ok((booking, _)) =>
                     && out == Ok(newBooking)
                     && Tables() == SetHolds(SetStatus(before, ids, Booked), {hold}, Converted)
                                    .(bookings := before.bookings[newBooking := booking])
    {
      hide SetStatus, SetHolds, Sum, WithStatus, SoldRows, PricesOf, SoldLive, EnsureTickets;
      ghost var before := Tables();
      var h := holds[hold];
      var refused := WriteBooking(h.user, h.event, hold, ids, newBooking);
      if refused.Some? { return Fail(refused.value); }
      StatusAside(before, Tables(), ids, Held, Booked);
      StatusFrame(before, ids, Booked);
      HoldsAside(SetStatus(before, ids, Booked), SetStatus(Tables(), ids, Booked), {hold}, Converted);
      HoldsFrame(SetStatus(before, ids, Booked), {hold}, Converted);
      out := CompleteSale(hold, ids, newBooking);
    }

    /** The steps of confirmHoldInTransaction. */
    method ConfirmHoldInTransaction(user: UserId, event: EventId, hold: HoldId, newBooking: BookingId, now: Instant)
      returns (out: Outcome<BookingId>)
      requires Keyed(Tables())
      modifies `seats, `outbox, `holds, `bookings
      ensures out == Transactions.Confirm(old(Tables()), user, event, hold, newBooking, now).out
      ensures out.Ok? ==> Tables() == Transactions.Confirm(old(Tables()), user, event, hold, newBooking, now).db
    {
      hide SetStatus, SetHolds, Sum, WithStatus, SoldRows, PricesOf, SoldLive, EnsureTickets;
      if !(hold in holds && holds[hold].user == user && holds[hold].event == event) { return Fail(HoldNotFound); }
      var h := holds[hold];
      if h.status.Converted? { return Fail(HoldAlreadyConfirmed); }
      if h.status.Expired? || h.expiresAt <= now { return Fail(HoldExpired); }
      if !h.status.Active? { return Fail(HoldInvalid); }
      var ids := set s | s in h.seats && s in seats;
      if ids == {} || WithStatus(Tables(), ids, Held) != ids { return Fail(ConfirmationConflict); }
      if event !in world.events { return Fail(Internal("booking insert returned no row")); }
      if BookedFrom(Tables(), hold) { return Fail(HoldAlreadyConfirmed); }
      if newBooking in bookings { return Fail(IdCollision); }
      out := SellHold(hold, ids, newBooking);
    }

    method Confirm(user: UserId, event: EventId, hold: HoldId, newBooking: BookingId, now: Instant)
      returns (out: Outcome<BookingId>)
      requires Valid()
      modifies this
      ensures Valid() && Reply(Tables(), out) == Transactions.Confirm(old(Tables()), user, event, hold, newBooking, now)
    {
      hide Inv, Transactions.Confirm;
      var saved := Tables();
      InvIndexes(saved);
      ConfirmStepInv(saved, user, event, hold, newBooking, now);
      ConfirmRefusalRollsBack(saved, user, event, hold, newBooking, now);
      out := ConfirmHoldInTransaction(user, event, hold, newBooking, now);
      if out.Fail? { Restore(saved); }
    }

    // ---------------------------------------------------------- cancelBooking

    /** UPDATE booking_seats SET cancelled_at = now() for the booking's live rows. */
    method MarkBookingSeatsCancelled(b: BookingId) returns (stamped: set<SeatId>)
      requires b in bookings
      modifies `bookings
      ensures stamped == LiveRows(old(bookings[b]))
      ensures bookings == old(bookings)[b := old(bookings[b]).(rows := Retire(old(bookings[b])).rows)]
    {
      ghost var before := bookings;
      var left := bookings[b].rows.Keys;
      stamped := {};
      assert bookings == before[b := before[b]];
      while left != {}
        invariant b in bookings && bookings == before[b := before[b].(rows := bookings[b].rows)]
        invariant forall s :: s in left ==> s in before[b].rows
        invariant forall s :: s in bookings[b].rows <==> s in before[b].rows
        invariant forall s :: s in bookings[b].rows ==>
                    bookings[b].rows[s] == if s in left then before[b].rows[s] else before[b].rows[s].(cancelled := true)
        invariant forall s :: s in stamped <==> s in LiveRows(before[b]) && s !in left
      {
        var s := AnyOf(left);
        left := left - {s};
        var row := bookings[b].rows[s];
        if !row.cancelled {
          bookings := bookings[b := bookings[b].(rows := bookings[b].rows[s := row.(cancelled := true)])];
          stamped := stamped + {s};
        }
      }
      ghost var retired := Retire(before[b]).rows;
      assert forall s :: s in bookings[b].rows <==> s in retired;
      assert forall s :: s in retired ==> s !in left && bookings[b].rows[s] == retired[s];
      assert bookings[b].rows == retired;
      assert forall s :: s in stamped <==> s in LiveRows(before[b]);
    }

    /** INSERT ... ON CONFLICT DO NOTHING: one pending signal for each event and category among the seats. */
    method EnqueueSignals(ids: set<SeatId>)
      modifies `signals
      ensures Tables() == AddSignals(old(Tables()), ids)
    {
      ghost var before := Tables();
      var left := ids;
      while left != {}
        invariant forall s :: s in left ==> s in ids
        invariant forall q :: q in signals ==> q in AddSignals(before, ids).signals
        invariant forall q :: q in before.signals ==> q in signals
        invariant forall s :: s in ids && s !in left && s in seats ==> Queue(seats[s].event, seats[s].category) in signals
      {
        var s := AnyOf(left);
        left := left - {s};
        if s in seats { signals := signals + {Queue(seats[s].event, seats[s].category)}; }
      }
      assert forall q :: q in signals <==> q in AddSignals(before, ids).signals;
    }

    /** The steps of cancelBookingInTransaction. */
    method CancelBookingInTransaction(user: UserId, b: BookingId) returns (out: Outcome<nat>)
      requires Keyed(Tables())
      modifies `seats, `outbox, `bookings, `signals
      ensures out == Transactions.CancelBooking(old(Tables()), user, b).out
      ensures out.Ok? ==> Tables() == Transactions.CancelBooking(old(Tables()), user, b).db
    {
      hide SetStatus, WithStatus, AddSignals, LiveRows;
      ghost var before := Tables();
      if !(b in bookings && bookings[b].user == user) { return Fail(BookingNotFound); }
      var booking := bookings[b];
      if booking.status.Cancelled? { return Fail(BookingAlreadyCancelled); }
      if exists s :: s in booking.tickets && booking.tickets[s].Used? { return Fail(BookingHasUsedTickets); }
      var live := LiveRows(booking);
      var ids := set s | s in live && s in seats;
      if ids == {} || WithStatus(Tables(), ids, Booked) != ids { return Fail(CancellationConflict); }
      bookings := bookings[b := booking.(status := BookingStatus.Cancelled)];
      RetiringCancelled(booking);
      var stamped := MarkBookingSeatsCancelled(b);
      if |stamped| != |ids| { return Fail(Internal("booking seat rows missing")); }
      StatusAside(before, Tables(), ids, Booked, Available);
      var released := UpdateSeats(ids, Booked, Available);
      if |released| != |ids| { return Fail(Internal("not every seat was released")); }
      SignalsAside(SetStatus(before, ids, Available), bookings, ids);
      StatusFrame(before, ids, Available);
      EnqueueSignals(ids);
      return Ok(|released|);
    }

    method CancelBooking(user: UserId, booking: BookingId) returns (out: Outcome<nat>)
      requires Valid()
      modifies this
      ensures Valid() && Reply(Tables(), out) == Transactions.CancelBooking(old(Tables()), user, booking)
    {
      hide Inv, Transactions.CancelBooking;
      var saved := Tables();
      InvIndexes(saved);
      CancelStepInv(saved, user, booking);
      CancelRefusalRollsBack(saved, user, booking);
      out := CancelBookingInTransaction(user, booking);
      if out.Fail? { Restore(saved); }
    }

    // ------------------------------------------------- expireHold, cancelHold

    /** UPDATE waitlist_offers SET status = ... WHERE hold_id = h AND status = 'offered' RETURNING. */
    method MarkOfferExpiredByHold(h: HoldId) returns (expired: Option<OfferId>)
      requires SoleOfferPerHold(Tables())
      modifies `offers
      ensures Tables() == SetOffers(old(Tables()), OffersBehind(old(Tables()), h), OfferStatus.Expired)
      ensures OffersBehind(old(Tables()), h) == if expired.Some? then {expired.value} else {}
    {
      ghost var before := Tables();
      var left := offers.Keys;
      expired := None;
      while left != {}
        invariant forall o :: o in offers <==> o in before.offers
        invariant forall o :: o in left ==> o in offers && offers[o] == before.offers[o]
        invariant forall o :: o in offers && o !in left ==>
                    offers[o] == if o in OffersBehind(before, h) then before.offers[o].(status := OfferStatus.Expired) else before.offers[o]
        invariant forall o :: o in OffersBehind(before, h) && o !in left <==> expired == Some(o)
      {
        var o := AnyOf(left);
        left := left - {o};
        if offers[o].hold == h && offers[o].status.Offered? {
          offers := offers[o := offers[o].(status := OfferStatus.Expired)];
          expired := Some(o);
        }
      }
      ghost var d := SetOffers(before, OffersBehind(before, h), OfferStatus.Expired);
      assert forall o :: o in offers ==> o !in left;
      assert forall o :: o in offers <==> o in d.offers;
      assert forall o :: o in offers ==> offers[o] == d.offers[o];
      assert offers == d.offers;
      assert forall o :: o in OffersBehind(before, h) <==> expired == Some(o);
    }

    /** UPDATE waitlist_entries SET status = `to` WHERE id = e AND status = `from`. */
    method MarkEntry(e: EntryId, from: EntryStatus, to: EntryStatus) returns (changed: bool)
      modifies `entries
      ensures changed <==> e in old(entries) && old(entries)[e].status == from
      ensures Tables() == if changed then SetEntries(old(Tables()), {e}, to) else old(Tables())
    {
      ghost var before := Tables();
      changed := e in entries && entries[e].status == from;
      if changed {
        entries := entries[e := entries[e].(status := to)];
        assert entries == SetEntries(before, {e}, to).entries;
      }
    }

    /** What expireHoldInTransaction and cancelHoldInTransaction share, the hold's state already judged. */
    method EndHoldInTransaction(h: HoldId, status: HoldStatus, now: Instant) returns (out: Outcome<nat>)
      requires Keyed(Tables()) && SoleOfferPerHold(Tables()) && h in holds && holds[h].status.Active?
      modifies `seats, `outbox, `holds, `signals, `offers, `entries
      ensures out == EndHold(old(Tables()), h, status, now).out
      ensures out.Ok? ==> Tables() == EndHold(old(Tables()), h, status, now).db
    {
      hide SetStatus, SetHolds, AddSignals, Orphaned, OffersBehind, SetOffers, SetEntries, SoleOfferPerHold;
      ghost var before := Tables();
      var ids := holds[h].seats;
      var marked := MarkHold(h, status);
      HoldsFrame(before, {h}, status);
      ghost var ended := Tables();
      var released := ReleaseSeatsWithoutLiveHold(ids, now);
      StatusFrame(ended, released, Available);
      EnqueueSignals(released);
      ghost var freed := Tables();
      SignalsFrame(SetStatus(ended, released, Available), released);
      SameOffersBehind(before, freed, h);
      var expired := MarkOfferExpiredByHold(h);
      OffersFrame(freed, OffersBehind(before, h), OfferStatus.Expired);
      if expired.Some? {
        BehindIsOffer(before, h, expired.value);
        var entry := offers[expired.value].entry;
        EntriesOfOne(before, expired.value);
        var changed := MarkEntry(entry, EntryStatus.Offered, EntryStatus.Expired);
        if !changed { return Fail(Internal("waitlist entry was no longer offered")); }
      } else {
        EntriesOfNone(before, Tables());
      }
      return Ok(|released|);
    }

    /** expireHold: a hold that is missing, over or not yet due is left alone. */
    method ExpireHold(hold: HoldId, now: Instant) returns (out: Outcome<bool>)
      requires Valid()
      modifies this
      ensures Valid() && Reply(Tables(), out) == Transactions.ExpireHold(old(Tables()), hold, now)
    {
      hide Inv, EndHold;
      var saved := Tables();
      InvIndexes(saved);
      ExpireHoldInv(saved, hold, now);
      if !(hold in holds && holds[hold].status.Active? && holds[hold].expiresAt <= now) { return Ok(false); }
      var ended := EndHoldInTransaction(hold, HoldStatus.Expired, now);
      if ended.Fail? {
        Restore(saved);
        return Fail(ended.error);
      }
      return Ok(true);
    }

    method CancelHold(user: UserId, event: EventId, hold: HoldId, now: Instant) returns (out: Outcome<nat>)
      requires Valid()
      modifies this
      ensures Valid() && Reply(Tables(), out) == Transactions.CancelHold(old(Tables()), user, event, hold, now)
    {
      hide Inv, EndHold;
      var saved := Tables();
      InvIndexes(saved);
      CancelHoldInv(saved, user, event, hold, now);
      if !(hold in holds && holds[hold].user == user && holds[hold].event == event) { return Fail(HoldNotFound); }
      if !holds[hold].status.Active? { return Fail(HoldNotActive); }
      out := EndHoldInTransaction(hold, HoldStatus.Cancelled, now);
      EndHoldRollsBack(saved, hold, HoldStatus.Cancelled, now);
      if out.Fail? { Restore(saved); }
    }

    /** sweepExpiredHolds over the ids it found due; the k-th is expired at `clocks[k]`. */
    method SweepExpiredHolds(due: seq<HoldId>, clocks: seq<Instant>) returns (expired: nat, noop: nat)
      requires Valid() && |due| == |clocks|
      modifies this
      ensures Valid() && Tables() == Sweep(old(Tables()), due, clocks)
      ensures expired + noop == |due|
      ensures expired == |ExpiredSince(old(Tables()), Tables())|
    {
      hide Inv, Transactions.ExpireHold, ExpiredSince;
      expired, noop := 0, 0;
      ghost var before := Tables();
      NoneExpiredSince(before);
      for i := 0 to |due|
        invariant Valid()
        invariant Sweep(before, due, clocks) == Sweep(Tables(), due[i..], clocks[i..])
        invariant expired + noop == i && expired == |ExpiredSince(before, Tables())| && OnlyExpiries(before, Tables())
      {
        ExpireHoldVerdict(Tables(), due[i], clocks[i]);
        OneExpiryMore(before, Tables(), due[i], clocks[i]);
        assert due[i..][1..] == due[i + 1..] && clocks[i..][1..] == clocks[i + 1..];
        var outcome := ExpireHold(due[i], clocks[i]);
        if outcome == Ok(true) { expired := expired + 1; } else { noop := noop + 1; }
      }
    }

    // --------------------------------------------------------------- waitlist

    method Join(event: EventId, user: UserId, category: Category, newEntry: EntryId, now: Instant) returns (out: Outcome<EntryId>)
      requires Valid()
      modifies this
      ensures Valid() && Reply(Tables(), out) == Transactions.Join(old(Tables()), event, user, category, newEntry, now)
    {
      hide Inv;
      JoinInv(Tables(), event, user, category, newEntry, now);
      if event !in world.events { return Fail(EventNotFound); }
      if !world.events[event].published { return Fail(EventNotJoinable); }
      if !exists s :: s in seats && seats[s].event == event && seats[s].category == category { return Fail(CategoryNotFound); }
      var entry := Entry(event, user, category, Waiting, now);
      if exists e :: e in entries && Rivals(entries[e], entry) { return Fail(AlreadyOnWaitlist); }
      if user !in world.users { return Fail(UnknownUser); }
      if newEntry in entries { return Fail(IdCollision); }
      entries := entries[newEntry := entry];
      return Ok(newEntry);
    }

    method Leave(user: UserId, entry: EntryId) returns (out: Outcome<EntryId>)
      requires Valid()
      modifies this
      ensures Valid() && Reply(Tables(), out) == Transactions.Leave(old(Tables()), user, entry)
    {
      hide Inv;
      LeaveInv(Tables(), user, entry);
      if !(entry in entries && entries[entry].user == user) { return Fail(EntryNotFound); }
      if !entries[entry].status.Waiting? { return Fail(EntryNotWaiting); }
      var changed := MarkEntry(entry, EntryStatus.Waiting, EntryStatus.Cancelled);
      return Ok(entry);
    }

    /** SELECT the longest waiting entry FOR UPDATE SKIP LOCKED LIMIT 1. */
    method LockNextWaitingEntry(event: EventId, category: Category, locked: set<EntryId>) returns (first: Option<EntryId>)
      ensures first == NextWaiting(Tables(), event, category, locked)
    {
      ghost var before := Tables();
      ghost var line := InLine(before, event, category) - locked;
      var left := entries.Keys;
      first := None;
      while left != {}
        invariant Tables() == before
        invariant forall e :: e in left ==> e in entries
        invariant first.Some? ==> first.value in line
        invariant first.None? ==> forall e :: e in line ==> e in left
        invariant first.Some? ==> forall e :: e in line && e !in left && e != first.value ==> Ahead(before, first.value, e)
      {
        var e := AnyOf(left);
        left := left - {e};
        var row := entries[e];
        if row.event == event && row.category == category && row.status.Waiting? && e !in locked {
          if first.None? || Ahead(Tables(), e, first.value) { first := Some(e); }
        }
      }
      if first.Some? {
        FirstIsNext(before, event, category, locked, first.value);
      } else {
        assert forall e :: e !in line;
        assert line == {};
      }
    }

    /** One pairing: the entry marked, its seat held, its offer written; a refusal is for the savepoint to undo. */
    method PairInTransaction(entry: EntryId, seat: SeatId, ttl: int, newHold: HoldId, newOffer: OfferId, now: Instant)
      returns (failure: Option<Error>)
      requires Keyed(Tables())
      modifies `seats, `outbox, `holds, `entries, `offers
      ensures match OfferSeat(old(Tables()), entry, seat, ttl, newHold, newOffer, now)
              case Paired(d) => failure == None && Tables() == d
              case Raced => failure.Some? && failure.value.SeatsUnavailable?
              case Aborted(error) => failure == Some(error) && !error.SeatsUnavailable?
    {
      hide HoldVerdict, TakeSeats, SetEntries;
      ghost var before := Tables();
      var marked := MarkEntry(entry, EntryStatus.Waiting, EntryStatus.Offered);
      if !marked { return Some(Internal("entry was no longer waiting")); }
      MarkedEntry(before, entry, EntryStatus.Offered);
      EntriesAside(before, entries, entries[entry].event, entries[entry].user, {seat}, ExpiryAt(now, ttl), newHold, now);
      KeyedEntries(before, entries);
      var held := CreateHoldInTransaction(entries[entry].event, entries[entry].user, {seat}, ttl, newHold, now);
      if held.Fail? { return Some(held.error); }
      TakingKeepsOffers(before, before.entries[entry].event, before.entries[entry].user, {seat}, ExpiryAt(now, ttl), newHold, now);
      if newOffer in offers { return Some(IdCollision); }
      SameLiveOffer(before, Tables(), seat);
      if LiveOffer(Tables(), seat) { return Some(LiveOfferForSeat); }
      if exists o :: o in offers && offers[o].entry == entry && offers[o].status.Offered? {
        return Some(Internal("live offer for entry exists"));
      }
      if exists o :: o in offers && offers[o].hold == newHold { return Some(Internal("offer for hold exists")); }
      offers := offers[newOffer := Offer(entry, seat, newHold, ExpiryAt(now, ttl), OfferStatus.Offered)];
      return None;
    }

    /** runAllocationPass: each pairing under its own savepoint, a lost race retried, anything else ends the pass. */
    method RunAllocationPass(event: EventId, category: Category, draws: seq<Draw>, ttl: int, now: Instant)
      returns (pairs: seq<Pair>, raced: nat, abort: Option<Error>)
      requires Valid()
      modifies `seats, `outbox, `holds, `entries, `offers
      ensures Valid() && PassResult(Tables(), pairs, raced, abort) == RunPass(old(Tables()), event, category, draws, ttl, now)
    {
      hide Inv, OfferSeat, NextWaiting, Pass, Resumed, Keyed;
      ghost var before := Tables();
      var tried := if |draws| <= MAX_PAIRINGS_PER_PASS then draws else draws[..MAX_PAIRINGS_PER_PASS];
      pairs, raced, abort := [], 0, None;
      var attempt := 0;
      ResumedFromStart(Pass(before, event, category, tried, ttl, now));
      assert tried[0..] == tried;
      while attempt < |tried|
        invariant attempt <= |tried| && Valid() && abort == None
        invariant Pass(before, event, category, tried, ttl, now)
                  == Resumed(pairs, raced, Pass(Tables(), event, category, tried[attempt..], ttl, now))
      {
        var draw := tried[attempt];
        assert tried[attempt..][0] == draw && tried[attempt..][1..] == tried[attempt + 1..];
        var entry := LockNextWaitingEntry(event, category, draw.locked);
        ghost var savepoint := Tables();
        if entry.None? || draw.seat.None? {
          PassStops(savepoint, event, category, tried[attempt..], ttl, now, pairs, raced);
          return;
        }
        PassAttempt(savepoint, event, category, tried[attempt..], ttl, now, pairs, raced, entry.value, draw.seat.value,
                    OfferSeat(savepoint, entry.value, draw.seat.value, ttl, draw.newHold, draw.newOffer, now));
        var savedSeats, savedOutbox, savedHolds, savedEntries, savedOffers := seats, outbox, holds, entries, offers;
        InvIndexes(savepoint);
        var failure := PairInTransaction(entry.value, draw.seat.value, ttl, draw.newHold, draw.newOffer, now);
        if failure.None? {
          OfferSeatInv(savepoint, entry.value, draw.seat.value, ttl, draw.newHold, draw.newOffer, now);
          pairs := pairs + [Pair(entry.value, draw.seat.value)];
        } else {
          seats, outbox, holds, entries, offers := savedSeats, savedOutbox, savedHolds, savedEntries, savedOffers;
          assert Tables() == savepoint;
          if !failure.value.SeatsUnavailable? {
            abort := failure;
            return;
          }
          raced := raced + 1;
        }
        attempt := attempt + 1;
      }
      assert tried[attempt..] == [];
      PassOfNone(Tables(), event, category, ttl, now, pairs, raced);
    }

    /** One claimed signal of the allocation worker: spent when its pass ends, kept for a retry when it aborts. */
    method AllocateSignal(queue: Queue, draws: seq<Draw>, ttl: int, now: Instant)
      requires Valid()
      modifies this
      ensures Valid() && Tables() == Runs.AllocateSignal(old(Tables()), queue, draws, ttl, now)
    {
      hide Inv, Pass;
      if queue !in signals { return; }
      AllocateInv(Tables(), queue, draws, ttl, now);
      var pairs, raced, abort := RunAllocationPass(queue.event, queue.category, draws, ttl, now);
      if abort.None? { signals := signals - {queue}; }
    }

    /** findCategoriesNeedingAllocation for one queue, and the signal it was missing. */
    method ReconcileQueue(queue: Queue)
      requires Valid()
      modifies `signals
      ensures Valid() && Tables() == Runs.ReconcileQueue(old(Tables()), queue)
    {
      hide Inv;
      if Gap(Tables(), queue) {
        SignalsInv(Tables(), signals + {queue});
        signals := signals + {queue};
      }
    }

    /** acceptWaitlistOffer: confirmation's own answer, in the offer's words, then the offer and entry stamped. */
    method AcceptOffer(user: UserId, offer: OfferId, newBooking: BookingId, now: Instant) returns (out: Outcome<BookingId>)
      requires Valid()
      modifies this
      ensures Valid() && Reply(Tables(), out) == Accept(old(Tables()), user, offer, newBooking, now)
    {
      hide Inv, Transactions.Confirm, SetOffers, SetEntries;
      var saved := Tables();
      InvIndexes(saved);
      AcceptStepInv(saved, user, offer, newBooking, now);
      if !(offer in offers && offers[offer].entry in entries && offers[offer].hold in holds
           && entries[offers[offer].entry].user == user) { return Fail(OfferNotFound); }
      var o := offers[offer];
      var confirmed := ConfirmHoldInTransaction(user, holds[o.hold].event, o.hold, newBooking, now);
      if confirmed.Fail? {
        Restore(saved);
        match confirmed.error {
          case HoldExpired => return Fail(OfferExpired);
          case HoldInvalid => return Fail(OfferExpired);
          case HoldAlreadyConfirmed => return Fail(OfferAlreadyAccepted);
          case error => return Fail(error);
        }
      }
      if !offers[offer].status.Offered? {
        Restore(saved);
        return Fail(Internal("offer was no longer offered"));
      }
      MarkedOffer(Tables(), offer, OfferStatus.Accepted);
      offers := offers[offer := offers[offer].(status := OfferStatus.Accepted)];
      var marked := MarkEntry(o.entry, EntryStatus.Offered, EntryStatus.Accepted);
      if !marked {
        Restore(saved);
        return Fail(Internal("entry was no longer offered"));
      }
      return Ok(newBooking);
    }

    // ---------------------------------------------------------------- tickets

    method IssueTickets(user: UserId, role: Role, booking: BookingId) returns (out: Outcome<bool>)
      requires Valid()
      modifies this
      ensures Valid() && Reply(Tables(), out) == Issue(old(Tables()), user, role, booking)
    {
      hide Inv, EnsureTickets;
      var saved := Tables();
      IssueNeverCommits(saved, user, role, booking);
      if !(booking in bookings && bookings[booking].event in world.events) { return Fail(BookingNotFound); }
      var b := bookings[booking];
      if !(b.user == user || role.Admin? || (role.Organiser? && world.events[b.event].organiser == user)) { return Fail(BookingNotFound); }
      if !b.status.Confirmed? { return Fail(BookingIsCancelled); }
      var ensured := EnsureTicketsForBooking(booking);
      if ensured.Fail? { return ensured; }
      if !ensured.value {
        Restore(saved);
        return Fail(TicketsAlreadyIssued);
      }
      return Ok(true);
    }

    /** verifyTicket: issued to used, under the booking's lock. */
    method VerifyTicket(user: UserId, role: Role, booking: BookingId, seat: SeatId) returns (out: Outcome<SeatId>)
      requires Valid()
      modifies this
      ensures Valid() && Reply(Tables(), out) == Verify(old(Tables()), user, role, booking, seat)
    {
      hide Inv;
      VerifyInv(Tables(), user, role, booking, seat);
      if !(booking in bookings && seat in bookings[booking].tickets) { return Fail(TicketNotFound); }
      var b := bookings[booking];
      if b.event !in world.events { return Fail(TicketNotFound); }
      if !role.Admin? && world.events[b.event].organiser != user { return Fail(TicketNotFound); }
      if !b.status.Confirmed? { return Fail(BookingIsCancelled); }
      match b.tickets[seat] {
        case Used => return Fail(TicketAlreadyUsed);
        case Void => return Fail(TicketVoid);
        case Issued =>
          bookings := bookings[booking := b.(tickets := b.tickets[seat := Used])];
          return Ok(seat);
      }
    }

    // -------------------------------------------------------------------- runs

    /** The system serving any one request or worker iteration. */
    method Execute(step: Step)
      requires Valid()
      modifies this
      ensures Valid() && Tables() == Apply(old(Tables()), step)
    {
      hide Inv, Transactions.CreateHold, Transactions.Confirm, Transactions.CancelBooking, Transactions.ExpireHold, Transactions.CancelHold,
        Transactions.Join, Transactions.Leave, Runs.AllocateSignal, Runs.ReconcileQueue, Accept, Issue, Verify;
      match step {
        case Reserve(event, user, ids, ttl, newHold, now) => var out := CreateHold(event, user, ids, ttl, newHold, now);
        case ConfirmHold(user, event, hold, newBooking, now) => var out := Confirm(user, event, hold, newBooking, now);
        case CancelSale(user, booking) => var out := CancelBooking(user, booking);
        case SweepHold(hold, now) => var out := ExpireHold(hold, now);
        case ReleaseHold(user, event, hold, now) => var out := CancelHold(user, event, hold, now);
        case JoinLine(event, user, category, newEntry, now) => var out := Join(event, user, category, newEntry, now);
        case LeaveLine(user, entry) => var out := Leave(user, entry);
        case Allocate(queue, draws, ttl, now) => AllocateSignal(queue, draws, ttl, now);
        case Reconcile(queue) => ReconcileQueue(queue);
        case AcceptOffer(user, offer, newBooking, now) => var out := AcceptOffer(user, offer, newBooking, now);
        case IssueTickets(user, role, booking) => var out := IssueTickets(user, role, booking);
        case VerifyTicket(user, role, booking, seat) => var out := VerifyTicket(user, role, booking, seat);
      }
    }

    /** The system serving any sequence of them. */
    method Serve(steps: seq<Step>)
      requires Valid()
      modifies this
      ensures Valid() && Tables() == Run(old(Tables()), steps)
    {
      hide Inv, Apply;
      ghost var before := Tables();
      for i := 0 to |steps|
        invariant Valid() && Run(before, steps) == Run(Tables(), steps[i..])
      {
        assert steps[i..][1..] == steps[i + 1..];
        Execute(steps[i]);
      }
    }
  }

  // ---------------------------------------------------------- statement algebra

  lemma SetStatusOfNone(db: Db, status: SeatStatus)
    ensures SetStatus(db, {}, status) == db
  {
    var d := SetStatus(db, {}, status);
    assert d.seats == db.seats;
    assert d.outbox == db.outbox;
  }

  lemma SetStatusOfOneMore(db: Db, done: set<SeatId>, s: SeatId, status: SeatStatus)
    requires s !in done
    ensures SetStatus(SetStatus(db, done, status), {s}, status) == SetStatus(db, done + {s}, status)
  {
    var d, e := SetStatus(SetStatus(db, done, status), {s}, status), SetStatus(db, done + {s}, status);
    assert d.seats == e.seats;
    assert forall t :: t in d.outbox <==> t in e.outbox;
    assert forall t :: t in d.outbox ==> d.outbox[t] == e.outbox[t];
    assert d.outbox == e.outbox;
  }

  /** A hold expired because it had lapsed was covering nothing any more. */
  lemma ExpiringKeepsLiveHolds(db: Db, ids: set<SeatId>, now: Instant)
    ensures forall s :: LiveHold(SetHolds(db, LapsedOver(db, ids, now), HoldStatus.Expired), s, now) <==> LiveHold(db, s, now)
  {
    var d := SetHolds(db, LapsedOver(db, ids, now), HoldStatus.Expired);
    forall s | LiveHold(db, s, now) ensures LiveHold(d, s, now) {
      var h :| h in db.holds && db.holds[h].status.Active? && db.holds[h].expiresAt > now && s in db.holds[h].seats;
      assert h in d.holds && d.holds[h] == db.holds[h];
    }
  }

  lemma KeyedAfterHolds(db: Db, hs: set<HoldId>, status: HoldStatus)
    requires Keyed(db)
    ensures Keyed(SetHolds(db, hs, status))
  {
  }

  lemma OrphansAfterExpiring(db: Db, ids: set<SeatId>, now: Instant)
    ensures Orphaned(SetHolds(db, LapsedOver(db, ids, now), HoldStatus.Expired), ids, now) == Orphaned(db, ids, now)
  {
    hide LiveHold;
    ExpiringKeepsLiveHolds(db, ids, now);
    var d := SetHolds(db, LapsedOver(db, ids, now), HoldStatus.Expired);
    assert forall s :: s in Orphaned(d, ids, now) <==> s in Orphaned(db, ids, now);
  }

  /** Reclaiming adds and drops no hold and no seat. */
  lemma FreedKeeps(db: Db, ids: set<SeatId>, now: Instant)
    ensures var freed := SetStatus(SetHolds(db, LapsedOver(db, ids, now), HoldStatus.Expired), Orphaned(db, ids, now), Available);
            && (forall h :: h in freed.holds <==> h in db.holds)
            && SameSeats(db, freed) && (Keyed(db) ==> Keyed(freed))
  {
  }

  lemma AllAvailable(before: Db, d: Db, event: EventId, ids: set<SeatId>, reasons: map<SeatId, SeatStatus>, now: Instant)
    requires SeatsOutside(before, event, ids) == {} && reasons == map[] && SameSeats(before, d)
    requires forall s :: s in ids && s in d.seats && !d.seats[s].status.Available? ==> s in reasons
    ensures WithStatus(d, ids, Available) == ids
  {
    assert forall s :: s in ids ==> s !in SeatsOutside(before, event, ids);
    assert forall s :: s in ids <==> s in WithStatus(d, ids, Available);
  }

  /** What still reads as unavailable after reclaiming is exactly what was taken before. */
  lemma FreedIsTaken(db: Db, ids: set<SeatId>, now: Instant, reasons: map<SeatId, SeatStatus>)
    requires var freed := SetStatus(SetHolds(db, LapsedOver(db, ids, now), HoldStatus.Expired), Orphaned(db, ids, now), Available);
             && (forall s :: s in reasons <==> s in ids && s in freed.seats && (!freed.seats[s].status.Available? || LiveHold(freed, s, now)))
             && (forall s :: s in reasons ==> reasons[s] == if freed.seats[s].status.Booked? then Booked else Held)
    ensures reasons == TakenAmong(db, ids, now)
  {
    ExpiringKeepsLiveHolds(db, ids, now);
    var expired := SetHolds(db, LapsedOver(db, ids, now), HoldStatus.Expired);
    var freed := SetStatus(expired, Orphaned(db, ids, now), Available);
    forall s ensures LiveHold(freed, s, now) <==> LiveHold(db, s, now) {
      SameLiveHold(expired, freed, s, now);
    }
    var taken := TakenAmong(db, ids, now);
    assert forall s :: s in reasons <==> s in taken;
    assert forall s :: s in reasons ==> reasons[s] == taken[s];
  }

  lemma SameLiveHold(db: Db, d: Db, s: SeatId, now: Instant)
    requires d.holds == db.holds
    ensures LiveHold(d, s, now) <==> LiveHold(db, s, now)
  {
  }

  lemma StatusFrame(db: Db, ids: set<SeatId>, status: SeatStatus)
    ensures var d := SetStatus(db, ids, status); d == db.(seats := d.seats, outbox := d.outbox)
    ensures Keyed(db) ==> Keyed(SetStatus(db, ids, status))
    ensures SameSeats(db, SetStatus(db, ids, status))
  {
  }

  lemma HoldsFrame(db: Db, hs: set<HoldId>, status: HoldStatus)
    ensures SetHolds(db, hs, status) == db.(holds := SetHolds(db, hs, status).holds)
  {
  }

  /** Seat statements read and write nothing but the seats and their outbox. */
  lemma StatusAside(db: Db, d: Db, ids: set<SeatId>, from: SeatStatus, to: SeatStatus)
    requires d.seats == db.seats && d.outbox == db.outbox
    ensures SetStatus(d, ids, to) == d.(seats := SetStatus(db, ids, to).seats, outbox := SetStatus(db, ids, to).outbox)
    ensures WithStatus(d, ids, from) == WithStatus(db, ids, from)
  {
    var t, u := SetStatus(d, ids, to), SetStatus(db, ids, to);
    assert t.seats == u.seats;
    assert forall s :: s in t.outbox <==> s in u.outbox;
    assert forall s :: s in t.outbox ==> t.outbox[s] == u.outbox[s];
    assert t.outbox == u.outbox;
  }

  lemma HoldsAside(db: Db, d: Db, hs: set<HoldId>, status: HoldStatus)
    requires d.holds == db.holds
    ensures SetHolds(d, hs, status) == d.(holds := SetHolds(db, hs, status).holds)
  {
    assert SetHolds(d, hs, status).holds == SetHolds(db, hs, status).holds;
  }

  /** Another booking's live row, not one of the booking being written. */
  lemma SoldElsewhere(before: Db, d: Db, b: BookingId, s: SeatId)
    requires b in before.bookings && b in d.bookings && d.bookings == before.bookings[b := before.bookings[b].(rows := d.bookings[b].rows)]
    requires before.bookings[b].rows == map[] && s !in d.bookings[b].rows
    ensures SoldLive(d, s) <==> SoldLive(before, s)
  {
    if SoldLive(before, s) {
      var c :| c in before.bookings && s in LiveRows(before.bookings[c]);
      assert c in d.bookings && s in LiveRows(d.bookings[c]);
    }
  }

  lemma NewBookingSellsNothing(db: Db, d: Db, b: BookingId)
    requires b !in db.bookings && b in d.bookings && d.bookings == db.bookings[b := d.bookings[b]] && d.bookings[b].rows == map[]
    requires d.seats == db.seats
    ensures forall s :: SoldLive(d, s) <==> SoldLive(db, s)
  {
    forall s | SoldLive(db, s) ensures SoldLive(d, s) {
      var c :| c in db.bookings && s in LiveRows(db.bookings[c]);
      assert c in d.bookings && s in LiveRows(d.bookings[c]);
    }
  }

  lemma SameRows(db: Db, d: Db, ids: set<SeatId>)
    requires d.seats == db.seats
    ensures SoldRows(d, ids) == SoldRows(db, ids)
  {
    assert forall s :: s in SoldRows(d, ids) <==> s in SoldRows(db, ids);
    assert forall s :: s in SoldRows(d, ids) ==> SoldRows(d, ids)[s] == SoldRows(db, ids)[s];
  }

  lemma RowsArePriced(db: Db, booking: Booking, ids: set<SeatId>)
    requires booking.rows == SoldRows(db, ids)
    ensures RowPrices(booking) == PricesOf(db, ids)
  {
    assert forall s :: s in RowPrices(booking) <==> s in PricesOf(db, ids);
    assert forall s :: s in RowPrices(booking) ==> RowPrices(booking)[s] == PricesOf(db, ids)[s];
  }

  lemma RetiringCancelled(booking: Booking)
    ensures Retire(booking) == booking.(status := BookingStatus.Cancelled, rows := Retire(booking.(status := BookingStatus.Cancelled)).rows)
    ensures LiveRows(booking.(status := BookingStatus.Cancelled)) == LiveRows(booking)
  {
    assert Retire(booking).rows == Retire(booking.(status := BookingStatus.Cancelled)).rows;
    assert forall s :: s in LiveRows(booking.(status := BookingStatus.Cancelled)) <==> s in LiveRows(booking);
  }

  lemma SignalsAside(db: Db, bookings: map<BookingId, Booking>, ids: set<SeatId>)
    ensures AddSignals(db.(bookings := bookings), ids) == AddSignals(db, ids).(bookings := bookings)
  {
    var d, e := AddSignals(db.(bookings := bookings), ids), AddSignals(db, ids);
    assert forall q :: q in d.signals <==> q in e.signals;
  }

  /** `waitlist_offers_hold_id_key`. */
  ghost predicate SoleOfferPerHold(db: Db) {
    forall o, p :: o in db.offers && p in db.offers && db.offers[o].hold == db.offers[p].hold ==> o == p
  }

  lemma SignalsFrame(db: Db, ids: set<SeatId>)
    ensures AddSignals(db, ids) == db.(signals := AddSignals(db, ids).signals)
  {
  }

  lemma OffersFrame(db: Db, os: set<OfferId>, status: OfferStatus)
    ensures SetOffers(db, os, status) == db.(offers := SetOffers(db, os, status).offers)
    ensures forall o :: o in SetOffers(db, os, status).offers <==> o in db.offers
    ensures forall o :: o in db.offers ==> SetOffers(db, os, status).offers[o].entry == db.offers[o].entry
  {
  }

  lemma SameOffersBehind(db: Db, d: Db, h: HoldId)
    requires d.offers == db.offers
    ensures OffersBehind(d, h) == OffersBehind(db, h)
    ensures SoleOfferPerHold(db) ==> SoleOfferPerHold(d)
  {
    assert forall o :: o in OffersBehind(d, h) <==> o in OffersBehind(db, h);
  }

  lemma BehindIsOffer(db: Db, h: HoldId, o: OfferId)
    requires OffersBehind(db, h) == {o}
    ensures o in db.offers && db.offers[o].hold == h && db.offers[o].status.Offered?
  {
    assert o in OffersBehind(db, h);
  }

  lemma EntriesOfOne(db: Db, o: OfferId)
    requires o in db.offers
    ensures EntriesOf(db, {o}) == {db.offers[o].entry}
  {
    assert forall e :: e in EntriesOf(db, {o}) <==> e == db.offers[o].entry;
  }

  lemma EntriesOfNone(db: Db, d: Db)
    ensures SetEntries(d, EntriesOf(db, {}), EntryStatus.Expired) == d
  {
    assert forall e :: e !in EntriesOf(db, {});
    assert SetEntries(d, EntriesOf(db, {}), EntryStatus.Expired).entries == d.entries;
  }

  lemma FirstIsNext(db: Db, event: EventId, category: Category, locked: set<EntryId>, e: EntryId)
    requires e in InLine(db, event, category) && e !in locked
    requires forall f :: f in InLine(db, event, category) - locked && f != e ==> Ahead(db, e, f)
    ensures NextWaiting(db, event, category, locked) == Some(e)
  {
    var candidates := InLine(db, event, category) - locked;
    assert e in candidates;
    FirstExists(db, candidates);
    var f :| NextWaiting(db, event, category, locked) == Some(f) && IsFirst(db, candidates, f);
    assert f != e ==> Ahead(db, e, f);
  }

  lemma MarkedEntry(db: Db, e: EntryId, status: EntryStatus)
    requires e in db.entries
    ensures SetEntries(db, {e}, status) == db.(entries := db.entries[e := db.entries[e].(status := status)])
  {
    assert SetEntries(db, {e}, status).entries == db.entries[e := db.entries[e].(status := status)];
  }

  lemma KeyedEntries(db: Db, entries: map<EntryId, Entry>)
    ensures Keyed(db) ==> Keyed(db.(entries := entries))
  {
  }

  /** Holding seats reads and writes nothing of the waitlist. */
  lemma EntriesAside(db: Db, entries: map<EntryId, Entry>, event: EventId, user: UserId, ids: set<SeatId>,
                     expiresAt: Instant, newHold: HoldId, now: Instant)
    ensures HoldVerdict(db.(entries := entries), event, user, ids, newHold, now) == HoldVerdict(db, event, user, ids, newHold, now)
    ensures TakeSeats(db.(entries := entries), event, user, ids, expiresAt, newHold, now)
            == TakeSeats(db, event, user, ids, expiresAt, newHold, now).(entries := entries)
  {
    var d := db.(entries := entries);
    forall s ensures LiveHold(d, s, now) <==> LiveHold(db, s, now) { SameLiveHold(db, d, s, now); }
    VerdictRestsOn(db, d, event, user, ids, newHold, now);
    TakingAside(db, entries, event, user, ids, expiresAt, newHold, now);
  }

  lemma TakingAside(db: Db, entries: map<EntryId, Entry>, event: EventId, user: UserId, ids: set<SeatId>,
                    expiresAt: Instant, newHold: HoldId, now: Instant)
    ensures TakeSeats(db.(entries := entries), event, user, ids, expiresAt, newHold, now)
            == TakeSeats(db, event, user, ids, expiresAt, newHold, now).(entries := entries)
  {
    hide SetStatus, SetHolds, Orphaned, LapsedOver;
    var d := db.(entries := entries);
    var lapsed, orphans := LapsedOver(db, ids, now), Orphaned(db, ids, now);
    SameReclaim(db, d, ids, now);
    HoldsAside(db, d, lapsed, HoldStatus.Expired);
    var e1, d1 := SetHolds(db, lapsed, HoldStatus.Expired), SetHolds(d, lapsed, HoldStatus.Expired);
    HoldsFrame(db, lapsed, HoldStatus.Expired);
    StatusAside(e1, d1, orphans, Held, Available);
    StatusFrame(e1, orphans, Available);
    var e2, d2 := SetStatus(e1, orphans, Available), SetStatus(d1, orphans, Available);
    var hold := Hold(event, user, Active, expiresAt, ids);
    var e3, d3 := e2.(holds := e2.holds[newHold := hold]), d2.(holds := d2.holds[newHold := hold]);
    StatusAside(e3, d3, ids, Held, Held);
    StatusFrame(e3, ids, Held);
  }

  lemma SameReclaim(db: Db, d: Db, ids: set<SeatId>, now: Instant)
    requires d.seats == db.seats && d.holds == db.holds
    ensures LapsedOver(d, ids, now) == LapsedOver(db, ids, now) && Orphaned(d, ids, now) == Orphaned(db, ids, now)
  {
    assert forall h :: h in LapsedOver(d, ids, now) <==> h in LapsedOver(db, ids, now);
    assert forall s :: s in Orphaned(d, ids, now) <==> s in Orphaned(db, ids, now);
  }

  lemma TakingKeepsOffers(db: Db, event: EventId, user: UserId, ids: set<SeatId>, expiresAt: Instant, newHold: HoldId, now: Instant)
    ensures TakeSeats(db, event, user, ids, expiresAt, newHold, now).offers == db.offers
    ensures TakeSeats(db, event, user, ids, expiresAt, newHold, now).entries == db.entries
  {
  }

  lemma SameLiveOffer(db: Db, d: Db, seat: SeatId)
    requires d.offers == db.offers
    ensures LiveOffer(d, seat) <==> LiveOffer(db, seat)
  {
  }

  lemma ResumedFromStart(r: PassResult)
    ensures Resumed([], 0, r) == r
  {
  }

  lemma PassOfNone(db: Db, event: EventId, category: Category, ttl: int, now: Instant, pairs: seq<Pair>, raced: nat)
    ensures Resumed(pairs, raced, Pass(db, event, category, [], ttl, now)) == PassResult(db, pairs, raced, None)
  {
  }

  /** A pass ends when nobody is waiting, or no seat is on sale. */
  lemma PassStops(db: Db, event: EventId, category: Category, draws: seq<Draw>, ttl: int, now: Instant, pairs: seq<Pair>, raced: nat)
    requires draws != [] && (NextWaiting(db, event, category, draws[0].locked).None? || draws[0].seat.None?)
    ensures Resumed(pairs, raced, Pass(db, event, category, draws, ttl, now)) == PassResult(db, pairs, raced, None)
  {
    hide OfferSeat, NextWaiting;
  }

  /** One attempt of a pass, its outcome added to what was done before. */
  lemma PassAttempt(db: Db, event: EventId, category: Category, draws: seq<Draw>, ttl: int, now: Instant, pairs: seq<Pair>, raced: nat,
                    entry: EntryId, seat: SeatId, p: Pairing)
    requires draws != [] && NextWaiting(db, event, category, draws[0].locked) == Some(entry) && draws[0].seat == Some(seat)
    requires p == OfferSeat(db, entry, seat, ttl, draws[0].newHold, draws[0].newOffer, now)
    ensures p.Aborted? ==> Resumed(pairs, raced, Pass(db, event, category, draws, ttl, now)) == PassResult(db, pairs, raced, Some(p.error))
    ensures p.Raced? ==> Resumed(pairs, raced, Pass(db, event, category, draws, ttl, now))
                         == Resumed(pairs, raced + 1, Pass(db, event, category, draws[1..], ttl, now))
    ensures p.Paired? ==> Resumed(pairs, raced, Pass(db, event, category, draws, ttl, now))
                          == Resumed(pairs + [Pair(entry, seat)], raced, Pass(p.db, event, category, draws[1..], ttl, now))
  {
    hide OfferSeat, NextWaiting;
    assert forall rest: seq<Pair> :: pairs + ([Pair(entry, seat)] + rest) == (pairs + [Pair(entry, seat)]) + rest;
  }

  /** What a pass amounts to when it has already made these pairs. */
  ghost function Resumed(pairs: seq<Pair>, raced: nat, rest: PassResult): PassResult {
    PassResult(rest.db, pairs + rest.pairs, raced + rest.raced, rest.abort)
  }

  lemma MarkedOffer(db: Db, o: OfferId, status: OfferStatus)
    requires o in db.offers
    ensures SetOffers(db, {o}, status) == db.(offers := db.offers[o := db.offers[o].(status := status)])
  {
    assert SetOffers(db, {o}, status).offers == db.offers[o := db.offers[o].(status := status)];
  }
}
