/** What a request is told depends on the clock and the sales, never on whether the sweep has run. */
module Verdicts {
  import opened Schema
  import opened Sums
  import opened Transactions
  import opened Invariant
  import opened Runs

  /** The expiration sweep: the due holds one by one, each in its own transaction with its own clock. */
  ghost function Sweep(db: Db, due: seq<HoldId>, clocks: seq<Instant>): Db
    requires |due| == |clocks|
    decreases |due|
  {
    if due == [] then db else Sweep(ExpireHold(db, due[0], clocks[0]).db, due[1..], clocks[1..])
  }

  /** `d` is `db` with some lapsed holds tidied away, as far as a request at `now` can tell. */
  ghost predicate Tidied(db: Db, d: Db, now: Instant) {
    && d.world == db.world && d.bookings == db.bookings && SameSeats(db, d)
    && (forall s :: s in d.seats ==> (d.seats[s].status.Booked? <==> db.seats[s].status.Booked?))
    && (forall h :: h in d.holds <==> h in db.holds)
    && (forall h :: h in d.holds ==>
          || d.holds[h] == db.holds[h]
          || (db.holds[h].status.Active? && db.holds[h].expiresAt <= now && d.holds[h] == db.holds[h].(status := HoldStatus.Expired)))
    && (forall o :: o in d.offers <==> o in db.offers)
    && (forall o :: o in d.offers ==> d.offers[o] == db.offers[o].(status := d.offers[o].status))
    && (forall e :: e in d.entries <==> e in db.entries)
    && (forall e :: e in d.entries ==> d.entries[e] == db.entries[e].(status := d.entries[e].status))
  }

  lemma EndsTidies(db: Db, d: Db, hold: HoldId, now: Instant)
    requires HoldsOk(db) && hold in db.holds && db.holds[hold].status.Active? && db.holds[hold].expiresAt <= now
    requires Ends(db, d, hold, HoldStatus.Expired)
    ensures Tidied(db, d, now)
  {
    assert HoldOk(db, db.holds[hold]);
  }

  lemma ExpireHoldTidies(db: Db, hold: HoldId, at: Instant, now: Instant)
    requires Inv(db) && at <= now
    ensures Tidied(db, ExpireHold(db, hold, at).db, now)
  {
    hide EndHold, Ends, Tidied, SeatsOk, HoldsOk, SalesOk, WaitlistOk;
    TidiedRefl(db, now);
    if hold in db.holds && db.holds[hold].status.Active? {
      EndHoldRollsBack(db, hold, HoldStatus.Expired, at);
      EndHoldEnds(db, hold, HoldStatus.Expired, at);
      if db.holds[hold].expiresAt <= at { EndsTidies(db, EndHold(db, hold, HoldStatus.Expired, at).db, hold, now); }
    }
  }

  lemma TidiedTrans(a: Db, b: Db, c: Db, now: Instant)
    requires Tidied(a, b, now) && Tidied(b, c, now)
    ensures Tidied(a, c, now)
  {
  }

  lemma {:induction false} SweepTidies(db: Db, due: seq<HoldId>, clocks: seq<Instant>, now: Instant)
    requires Inv(db) && |due| == |clocks|
    requires forall i :: 0 <= i < |clocks| ==> clocks[i] <= now
    ensures Tidied(db, Sweep(db, due, clocks), now) && Inv(Sweep(db, due, clocks))
    decreases |due|
  {
    hide Inv, Tidied, ExpireHold;
    if due == [] {
      TidiedRefl(db, now);
    } else {
      var d := ExpireHold(db, due[0], clocks[0]).db;
      ExpireHoldTidies(db, due[0], clocks[0], now);
      ExpireHoldInv(db, due[0], clocks[0]);
      SweepTidies(d, due[1..], clocks[1..], now);
      TidiedTrans(db, d, Sweep(d, due[1..], clocks[1..]), now);
    }
  }

  lemma TidiedRefl(db: Db, now: Instant)
    ensures Tidied(db, db, now)
  {
  }

  lemma TidiedLiveHold(db: Db, d: Db, s: SeatId, now: Instant)
    requires Tidied(db, d, now)
    ensures LiveHold(d, s, now) <==> LiveHold(db, s, now)
  {
    if LiveHold(db, s, now) {
      var h :| h in db.holds && db.holds[h].status.Active? && db.holds[h].expiresAt > now && s in db.holds[h].seats;
      assert h in d.holds && d.holds[h] == db.holds[h];
    }
  }

  /** The verdict rests on the seats' events, what is sold, what is under a live hold and whether the id is free. */
  lemma VerdictRestsOn(db: Db, d: Db, event: EventId, user: UserId, ids: set<SeatId>, newHold: HoldId, now: Instant)
    requires d.world == db.world && SameSeats(db, d)
    requires forall s :: s in d.seats ==> (d.seats[s].status.Booked? <==> db.seats[s].status.Booked?)
    requires forall s :: LiveHold(d, s, now) <==> LiveHold(db, s, now)
    requires newHold in d.holds <==> newHold in db.holds
    ensures HoldVerdict(d, event, user, ids, newHold, now) == HoldVerdict(db, event, user, ids, newHold, now)
  {
    hide LiveHold;
    var outside := SeatsOutside(db, event, ids);
    assert forall s :: s in SeatsOutside(d, event, ids) <==> s in outside;
    assert SeatsOutside(d, event, ids) == outside;
    var wrong := set s | s in outside && s in db.seats;
    assert forall s :: s in wrong <==> s in (set t | t in outside && t in d.seats);
    assert (set t | t in outside && t in d.seats) == wrong;
    var t, u := TakenAmong(d, ids, now), TakenAmong(db, ids, now);
    assert forall s :: s in t <==> s in u;
    assert forall s :: s in t ==> t[s] == u[s];
    assert t == u;
  }

  lemma TidiedHoldVerdict(db: Db, d: Db, event: EventId, user: UserId, ids: set<SeatId>, newHold: HoldId, now: Instant)
    requires Tidied(db, d, now)
    ensures HoldVerdict(d, event, user, ids, newHold, now) == HoldVerdict(db, event, user, ids, newHold, now)
  {
    hide HoldVerdict;
    forall s ensures LiveHold(d, s, now) <==> LiveHold(db, s, now) { TidiedLiveHold(db, d, s, now); }
    VerdictRestsOn(db, d, event, user, ids, newHold, now);
  }

  /**
   Sweeping first - any holds, at any clocks up to `now` - changes neither what
   createHold answers at `now`, down to the seats it names, nor what confirming
   a hold or accepting an offer answers.
   */
  lemma SweepChangesNoVerdict(db: Db, due: seq<HoldId>, clocks: seq<Instant>, now: Instant,
                              user: UserId, event: EventId, ids: set<SeatId>, ttl: int, newHold: HoldId,
                              hold: HoldId, offer: OfferId, newBooking: BookingId)
    requires Inv(db) && |due| == |clocks|
    requires forall i :: 0 <= i < |clocks| ==> clocks[i] <= now
    ensures CreateHold(Sweep(db, due, clocks), event, user, ids, ttl, newHold, now).out == CreateHold(db, event, user, ids, ttl, newHold, now).out
    ensures Confirm(Sweep(db, due, clocks), user, event, hold, newBooking, now).out == Confirm(db, user, event, hold, newBooking, now).out
    ensures Accept(Sweep(db, due, clocks), user, offer, newBooking, now).out == Accept(db, user, offer, newBooking, now).out
  {
    hide Inv, Confirm, Accept, ExpireHold, HoldVerdict, TakeSeats;
    var d := Sweep(db, due, clocks);
    SweepTidies(db, due, clocks, now);
    TidiedHoldVerdict(db, d, event, user, ids, newHold, now);
    ConfirmAnswers(db, user, event, hold, newBooking, now);
    ConfirmAnswers(d, user, event, hold, newBooking, now);
    AcceptAnswers(db, user, offer, newBooking, now);
    AcceptAnswers(d, user, offer, newBooking, now);
    if hold in db.holds {
      SamePrices(db, d, db.holds[hold].seats);
    }
    if offer in db.offers && db.offers[offer].hold in db.holds {
      SamePrices(db, d, db.holds[db.offers[offer].hold].seats);
    }
  }

  /**
   In a consistent database a request for one to ten seats of the event is
   granted exactly when no seat is sold and no unexpired active hold covers one:
   lapsed holds and seats merely flagged held never stand in the way.
   */
  lemma CreateHoldVerdict(db: Db, event: EventId, user: UserId, ids: set<SeatId>, ttl: int, newHold: HoldId, now: Instant)
    requires Inv(db)
    requires ids != {} && |ids| <= 10 && event in db.world.events && user in db.world.users && newHold !in db.holds
    requires forall s :: s in ids ==> s in db.seats && db.seats[s].event == event
    ensures CreateHold(db, event, user, ids, ttl, newHold, now).out.Ok?
            <==> forall s :: s in ids ==> !SoldLive(db, s) && !LiveHold(db, s, now)
    ensures CreateHold(db, event, user, ids, ttl, newHold, now).out.Fail? ==>
              && CreateHold(db, event, user, ids, ttl, newHold, now).db == db
              && CreateHold(db, event, user, ids, ttl, newHold, now).out.error.SeatsUnavailable?
              && var reasons := CreateHold(db, event, user, ids, ttl, newHold, now).out.error.reasons;
                 && (forall s :: s in reasons <==> s in ids && (SoldLive(db, s) || LiveHold(db, s, now)))
                 && (forall s :: s in reasons ==>
                       && (reasons[s] == Booked <==> SoldLive(db, s))
                       && (reasons[s] != Booked ==> reasons[s] == Held && LiveHold(db, s, now)))
  {
    hide TakeSeats;
    HoldVerdictGrants(db, event, user, ids, newHold, now);
    forall s | s in ids ensures SoldLive(db, s) <==> db.seats[s].status.Booked? {
      if SoldLive(db, s) {
        var b :| b in db.bookings && s in LiveRows(db.bookings[b]);
        assert BookingOk(db, db.bookings[b]);
        assert RowOk(db.bookings[b], db.bookings[b].rows[s], db.seats[s]);
      }
    }
    assert forall s :: s !in SeatsOutside(db, event, ids);
    assert SeatsOutside(db, event, ids) == {};
  }

  /**
   A granted hold is the caller's, active, over exactly the seats asked for and
   until `now + ttl`; those seats end up held and no other seat changes; the
   lapsed holds it reclaimed from have expired and no other hold changes.
   */
  lemma GrantedHold(db: Db, event: EventId, user: UserId, ids: set<SeatId>, ttl: int, newHold: HoldId, now: Instant)
    requires CreateHold(db, event, user, ids, ttl, newHold, now).out.Ok?
    ensures CreateHold(db, event, user, ids, ttl, newHold, now).out == Ok(newHold) && newHold !in db.holds
    ensures Takes(db, CreateHold(db, event, user, ids, ttl, newHold, now).db, Hold(event, user, Active, now + ttl, ids), newHold, now)
  {
    hide TakeSeats, HoldVerdict;
    HoldVerdictGrants(db, event, user, ids, newHold, now);
    TakeSeatsTakes(db, event, user, ids, ExpiryAt(now, ttl), newHold, now);
  }

  /**
   A hold is confirmed exactly when it is the caller's, of that event, active and
   unexpired, and the prices its seats have now fit NUMERIC(12,2); where only the
   last fails nothing is sold.
   */
  lemma ConfirmHoldVerdict(db: Db, user: UserId, event: EventId, hold: HoldId, newBooking: BookingId, now: Instant)
    requires Inv(db) && newBooking !in db.bookings
    ensures var due := hold in db.holds && db.holds[hold].user == user && db.holds[hold].event == event
                       && db.holds[hold].status.Active? && db.holds[hold].expiresAt > now;
            && (Confirm(db, user, event, hold, newBooking, now).out.Ok? <==> due && Sum(PricesOf(db, db.holds[hold].seats)) <= 999_999_999_999)
            && (due && !Confirm(db, user, event, hold, newBooking, now).out.Ok? ==>
                  Confirm(db, user, event, hold, newBooking, now) == Reply(db, Fail(AmountOverflow)))
  {
    hide Inv, Confirm;
    ConfirmRefusalRollsBack(db, user, event, hold, newBooking, now);
    ConfirmAnswers(db, user, event, hold, newBooking, now);
  }

  /** The caller may give up a hold exactly while it is theirs and active, lapsed or not; it ends as cancelled, freeing all its seats. */
  lemma CancelHoldVerdict(db: Db, user: UserId, event: EventId, hold: HoldId, now: Instant)
    requires Inv(db)
    ensures var r := CancelHold(db, user, event, hold, now);
            if hold in db.holds && db.holds[hold].user == user && db.holds[hold].event == event && db.holds[hold].status.Active?
            then r.out == Ok(|db.holds[hold].seats|) && Ends(db, r.db, hold, HoldStatus.Cancelled)
            else r.out.Fail? && r.db == db
  {
    hide EndHold, Ends, Inv;
    if hold in db.holds && db.holds[hold].status.Active? {
      EndHoldAnswers(db, hold, HoldStatus.Cancelled, now);
    }
  }

  /** The sweep expires a hold exactly when it is active and due, freeing all its seats, and otherwise touches nothing. */
  lemma ExpireHoldVerdict(db: Db, hold: HoldId, now: Instant)
    requires Inv(db)
    ensures var r := ExpireHold(db, hold, now);
            if hold in db.holds && db.holds[hold].status.Active? && db.holds[hold].expiresAt <= now
            then r.out == Ok(true) && Ends(db, r.db, hold, HoldStatus.Expired)
            else r == Reply(db, Ok(false))
  {
    hide EndHold, Ends, Inv;
    if hold in db.holds && db.holds[hold].status.Active? {
      EndHoldAnswers(db, hold, HoldStatus.Expired, now);
    }
  }

  lemma EndHoldAnswers(db: Db, hold: HoldId, status: HoldStatus, now: Instant)
    requires Inv(db) && hold in db.holds && db.holds[hold].status.Active? && (status.Expired? || status.Cancelled?)
    ensures EndHold(db, hold, status, now).out == Ok(|db.holds[hold].seats|)
    ensures Ends(db, EndHold(db, hold, status, now).db, hold, status)
  {
    hide EndHold, Ends;
    EndHoldSucceeds(db, hold, status, now);
    EndHoldEnds(db, hold, status, now);
  }

  /** In a consistent state a ticket admits exactly when its booking stands, it is unused, and the scanner runs the event or the site. */
  lemma VerifyVerdict(db: Db, user: UserId, role: Role, booking: BookingId, seat: SeatId)
    requires Inv(db)
    ensures Verify(db, user, role, booking, seat).out.Ok?
            <==> && booking in db.bookings && seat in db.bookings[booking].rows
                 && db.bookings[booking].status.Confirmed? && !db.bookings[booking].tickets[seat].Used?
                 && (role.Admin? || db.world.events[db.bookings[booking].event].organiser == user)
    ensures Verify(db, user, role, booking, seat).out.Fail? ==>
              && Verify(db, user, role, booking, seat).db == db
              && !Verify(db, user, role, booking, seat).out.error.TicketVoid?
  {
    if booking in db.bookings {
      assert BookingOk(db, db.bookings[booking]);
      assert HoldOk(db, db.holds[db.bookings[booking].hold]);
      if seat in db.bookings[booking].tickets {
        assert TicketOk(db.bookings[booking], db.bookings[booking].tickets[seat]);
      }
    }
  }

  /** A sweep expires exactly the active holds that one of its transactions found due, and changes no other hold. */
  lemma {:induction false} SweepExpiresTheDue(db: Db, due: seq<HoldId>, clocks: seq<Instant>, h: HoldId)
    requires Inv(db) && |due| == |clocks| && h in db.holds
    ensures var d := Sweep(db, due, clocks);
            h in d.holds && d.holds[h] == if db.holds[h].status.Active? && FoundDue(db.holds[h].expiresAt, due, clocks, h)
                                          then db.holds[h].(status := HoldStatus.Expired) else db.holds[h]
    decreases |due|
  {
    hide Inv, ExpireHold;
    if due != [] {
      var d := ExpireHold(db, due[0], clocks[0]).db;
      ExpireHoldVerdict(db, due[0], clocks[0]);
      ExpireHoldInv(db, due[0], clocks[0]);
      SweepExpiresTheDue(d, due[1..], clocks[1..], h);
      FoundDueSplits(db.holds[h].expiresAt, due, clocks, h);
    }
  }

  /** Some transaction of the sweep is for this hold, at a time when it is due. */
  predicate FoundDue(expiresAt: Instant, due: seq<HoldId>, clocks: seq<Instant>, h: HoldId)
    requires |due| == |clocks|
  {
    exists i :: 0 <= i < |due| && due[i] == h && expiresAt <= clocks[i]
  }

  lemma FoundDueSplits(expiresAt: Instant, due: seq<HoldId>, clocks: seq<Instant>, h: HoldId)
    requires |due| == |clocks| && due != []
    ensures FoundDue(expiresAt, due, clocks, h)
            <==> (due[0] == h && expiresAt <= clocks[0]) || FoundDue(expiresAt, due[1..], clocks[1..], h)
  {
    if i :| 0 <= i < |due| && due[i] == h && expiresAt <= clocks[i] {
      if i > 0 { assert due[1..][i - 1] == h && clocks[1..][i - 1] == clocks[i]; }
    }
    if j :| 0 <= j < |due[1..]| && due[1..][j] == h && expiresAt <= clocks[1..][j] {
      assert due[j + 1] == h && clocks[j + 1] == clocks[1..][j];
    }
  }
}
