/** The promises of the booking engine, for every state any run reaches from an empty ledger. */
module Guarantees {
  import opened Schema
  import opened Sums
  import opened Transactions
  import opened Invariant
  import opened Allocation
  import opened Runs
  import opened Evolution

  // -------------------------------------------------------- no seat sold twice

  /** Exactly one live booking row names the seat, and its booking is confirmed. */
  ghost predicate SoldExactlyOnce(db: Db, s: SeatId) {
    exists b :: b in db.bookings && SoleOwner(db, s, b)
  }

  ghost predicate SoleOwner(db: Db, s: SeatId, b: BookingId)
    requires b in db.bookings
  {
    && s in LiveRows(db.bookings[b]) && db.bookings[b].status.Confirmed?
    && forall c :: c in db.bookings && s in LiveRows(db.bookings[c]) ==> c == b
  }

  lemma BookedIffSoldOnce(db: Db, s: SeatId)
    requires Inv(db) && s in db.seats
    ensures db.seats[s].status.Booked? <==> SoldExactlyOnce(db, s)
  {
    if db.seats[s].status.Booked? {
      assert SoldLive(db, s);
      var b :| b in db.bookings && s in LiveRows(db.bookings[b]);
      assert BookingOk(db, db.bookings[b]);
      assert RowOk(db.bookings[b], db.bookings[b].rows[s], db.seats[s]);
      forall c | c in db.bookings && s in LiveRows(db.bookings[c]) ensures c == b {
        assert c != b ==> Disjoint(LiveRows(db.bookings[b]), LiveRows(db.bookings[c]));
      }
      assert SoleOwner(db, s, b);
    }
    if SoldExactlyOnce(db, s) {
      var b :| b in db.bookings && SoleOwner(db, s, b);
      assert BookingOk(db, db.bookings[b]);
      assert RowOk(db.bookings[b], db.bookings[b].rows[s], db.seats[s]);
    }
  }

  /** The hold's seats are exactly the seats its one booking sold. */
  ghost predicate SoldAs(db: Db, h: HoldId, b: BookingId)
    requires h in db.holds && b in db.bookings
  {
    && db.bookings[b].hold == h && db.bookings[b].rows.Keys == db.holds[h].seats
    && forall c :: c in db.bookings && db.bookings[c].hold == h ==> c == b
  }

  lemma ConvertedIffBooked(db: Db, h: HoldId)
    requires Inv(db) && h in db.holds
    ensures db.holds[h].status.Converted? <==> exists b :: b in db.bookings && SoldAs(db, h, b)
  {
    if db.holds[h].status.Converted? {
      assert BookedFrom(db, h);
      var b :| b in db.bookings && db.bookings[b].hold == h;
      assert BookingOk(db, db.bookings[b]);
      assert forall s :: s in db.bookings[b].rows.Keys <==> s in db.holds[h].seats;
      assert SoldAs(db, h, b);
    }
    if exists b :: b in db.bookings && SoldAs(db, h, b) {
      var b :| b in db.bookings && SoldAs(db, h, b);
      assert BookingOk(db, db.bookings[b]);
    }
  }

  /**
   After any run: active holds, lapsed or not, are pairwise disjoint and every
   seat of theirs is held and of their event; a seat is booked exactly when one
   live row, of a confirmed booking, names it; a hold is converted exactly when
   one booking sold all its seats and no others.
   */
  lemma NoDoubleSelling(initial: Db, steps: seq<Step>)
    requires Initial(initial)
    ensures var db := Run(initial, steps);
            && (forall h, g :: h in db.holds && g in db.holds && h != g && db.holds[h].status.Active? && db.holds[g].status.Active?
                  ==> Disjoint(db.holds[h].seats, db.holds[g].seats))
            && (forall h, s :: h in db.holds && db.holds[h].status.Active? && s in db.holds[h].seats
                  ==> s in db.seats && db.seats[s].status.Held? && db.seats[s].event == db.holds[h].event)
            && (forall s :: s in db.seats ==> (db.seats[s].status.Booked? <==> SoldExactlyOnce(db, s)))
            && (forall h :: h in db.holds ==>
                  (db.holds[h].status.Converted? <==> exists b :: b in db.bookings && SoldAs(db, h, b)))
  {
    hide Run, Initial, SalesOk, SeatsOk, WaitlistOk, SoldExactlyOnce, SoldAs;
    InitialInv(initial);
    RunInv(initial, steps);
    var db := Run(initial, steps);
    forall s | s in db.seats ensures db.seats[s].status.Booked? <==> SoldExactlyOnce(db, s) { BookedIffSoldOnce(db, s); }
    forall h | h in db.holds
      ensures db.holds[h].status.Converted? <==> exists b :: b in db.bookings && SoldAs(db, h, b)
    {
      ConvertedIffBooked(db, h);
    }
    forall h, s | h in db.holds && db.holds[h].status.Active? && s in db.holds[h].seats
      ensures s in db.seats && db.seats[s].status.Held? && db.seats[s].event == db.holds[h].event
    {
      assert HoldOk(db, db.holds[h]);
    }
  }

  // ------------------------------------------------------------- seat history

  /**
   After any run a seat's outbox rows are numbered 1, 2, ..., its version, once
   each and in order, typed by the status they report; they walk from `available` along legal changes only - free
   to held, held to free, held to booked, booked to free - and end where it is.
   */
  lemma SeatHistoryIsComplete(initial: Db, steps: seq<Step>, s: SeatId)
    requires Initial(initial) && s in Run(initial, steps).seats
    ensures var db := Run(initial, steps);
            && s in db.outbox
            && |db.outbox[s]| == db.seats[s].version
            && (forall i :: 0 <= i < |db.outbox[s]| ==>
                  db.outbox[s][i].version == i + 1 && db.outbox[s][i].seat == s && db.outbox[s][i].event == db.seats[s].event)
            && (forall i :: 0 <= i < |db.outbox[s]| ==>
                  var row := db.outbox[s][i];
                  && (row.kind == SeatHeld <==> row.status == Held)
                  && (row.kind == SeatBooked <==> row.status == Booked)
                  && (row.kind == SeatReleased <==> row.status == Available))
            && (forall i :: 0 <= i < |db.outbox[s]| ==> Edge(StatusAt(db.outbox[s], i), StatusAt(db.outbox[s], i + 1)))
            && StatusAt(db.outbox[s], |db.outbox[s]|) == db.seats[s].status
  {
    hide Run, Initial, HoldsOk, SalesOk, WaitlistOk;
    InitialInv(initial);
    RunInv(initial, steps);
    var db := Run(initial, steps);
    assert Story(s, db.seats[s], db.outbox[s]);
  }

  // ------------------------------------------------------------- the waitlist

  /** The entry's one offer, carrying the same status as the entry. */
  ghost predicate SoleOffer(db: Db, e: EntryId, o: OfferId)
    requires e in db.entries && o in db.offers
  {
    && db.offers[o].entry == e && db.entries[e].status == Mirrors(db.offers[o].status)
    && forall p :: p in db.offers && db.offers[p].entry == e ==> p == o
  }

  /**
   After any run: a waiting or cancelled entry has no offer and any other has
   exactly one, in the same state; an accepted offer's hold became a booking of
   the entry's user; an expired offer's hold is over; and an active hold behind
   an offer means the offer still stands.
   */
  lemma WaitlistCorrespondence(initial: Db, steps: seq<Step>)
    requires Initial(initial)
    ensures var db := Run(initial, steps);
            && (forall e :: e in db.entries && (db.entries[e].status.Waiting? || db.entries[e].status.Cancelled?) ==> !HasOffer(db, e))
            && (forall e :: e in db.entries && !(db.entries[e].status.Waiting? || db.entries[e].status.Cancelled?)
                  ==> exists o :: o in db.offers && SoleOffer(db, e, o))
            && (forall o :: o in db.offers ==> db.offers[o].entry in db.entries && db.offers[o].hold in db.holds)
            && (forall o :: o in db.offers && db.offers[o].status.Accepted? ==>
                  exists b :: b in db.bookings && db.bookings[b].hold == db.offers[o].hold
                              && db.bookings[b].user == db.entries[db.offers[o].entry].user)
            && (forall o :: o in db.offers && db.offers[o].status.Expired? ==>
                  var h := db.holds[db.offers[o].hold]; h.status.Expired? || h.status.Cancelled?)
            && (forall o :: o in db.offers && db.holds[db.offers[o].hold].status.Active? ==> db.offers[o].status.Offered?)
  {
    hide Run, Initial, SeatsOk, HoldsOk;
    InitialInv(initial);
    RunInv(initial, steps);
    var db := Run(initial, steps);
    forall o | o in db.offers ensures OfferOk(db, db.offers[o]) {}
    forall e | e in db.entries && !(db.entries[e].status.Waiting? || db.entries[e].status.Cancelled?)
      ensures exists o :: o in db.offers && SoleOffer(db, e, o)
    {
      assert HasOffer(db, e);
      var o :| o in db.offers && db.offers[o].entry == e;
      assert SoleOffer(db, e, o);
    }
    forall o | o in db.offers && db.offers[o].status.Accepted?
      ensures exists b :: b in db.bookings && db.bookings[b].hold == db.offers[o].hold
                          && db.bookings[b].user == db.entries[db.offers[o].entry].user
    {
      assert BookedFrom(db, db.offers[o].hold);
      var b :| b in db.bookings && db.bookings[b].hold == db.offers[o].hold;
      assert BookingOk(db, db.bookings[b]);
    }
  }

  // ----------------------------------------------------------------- tickets

  ghost predicate IsUsed(db: Db, b: BookingId, s: SeatId) {
    b in db.bookings && s in db.bookings[b].tickets && db.bookings[b].tickets[s].Used?
  }

  /** Only presenting the ticket at the door marks it used. */
  ghost predicate Admits(db: Db, step: Step, b: BookingId, s: SeatId) {
    step.VerifyTicket? && step.booking == b && step.seat == s && Verify(db, step.user, step.role, b, s).out.Ok?
  }

  /** How often a run lets somebody in on this ticket. */
  ghost function Admissions(db: Db, steps: seq<Step>, b: BookingId, s: SeatId): nat
    decreases |steps|
  {
    if steps == [] then 0
    else (if Admits(db, steps[0], b, s) then 1 else 0) + Admissions(Apply(db, steps[0]), steps[1..], b, s)
  }

  /** No ticket comes out used that was not used before. */
  ghost predicate NoNewUse(db: Db, d: Db) {
    forall b, s :: IsUsed(d, b, s) ==> IsUsed(db, b, s)
  }

  lemma ConfirmUsesNoTicket(db: Db, user: UserId, event: EventId, hold: HoldId, newBooking: BookingId, now: Instant)
    requires Inv(db)
    ensures NoNewUse(db, Confirm(db, user, event, hold, newBooking, now).db)
  {
    hide Inv, Confirm;
    ConfirmRefusalRollsBack(db, user, event, hold, newBooking, now);
    ConfirmAnswers(db, user, event, hold, newBooking, now);
    if Confirmable(db, user, event, hold, newBooking, now) {
      ConfirmSells(db, user, event, hold, newBooking, now);
    }
  }

  lemma AcceptUsesNoTicket(db: Db, user: UserId, offer: OfferId, newBooking: BookingId, now: Instant)
    requires Inv(db)
    ensures NoNewUse(db, Accept(db, user, offer, newBooking, now).db)
  {
    hide Inv, Confirm, Confirmable, NoNewUse;
    SameUse(db, db);
    AcceptAnswers(db, user, offer, newBooking, now);
    if Acceptable(db, user, offer, newBooking, now) {
      var o := db.offers[offer];
      ConfirmUsesNoTicket(db, user, db.holds[o.hold].event, o.hold, newBooking, now);
      var c := Confirm(db, user, db.holds[o.hold].event, o.hold, newBooking, now).db;
      SameUse(c, Accept(db, user, offer, newBooking, now).db);
      UseTrans(db, c, Accept(db, user, offer, newBooking, now).db);
    }
  }

  lemma SameUse(db: Db, d: Db)
    requires d.bookings == db.bookings
    ensures NoNewUse(db, d)
  {
  }

  lemma UseTrans(a: Db, b: Db, c: Db)
    requires NoNewUse(a, b) && NoNewUse(b, c)
    ensures NoNewUse(a, c)
  {
  }

  lemma CancelUsesNoTicket(db: Db, user: UserId, booking: BookingId)
    ensures NoNewUse(db, CancelBooking(db, user, booking).db)
  {
  }

  /** The pass leaves every booking alone. */
  lemma {:induction false} PassSameBookings(db: Db, event: EventId, category: Category, draws: seq<Draw>, ttl: int, now: Instant)
    ensures Pass(db, event, category, draws, ttl, now).db.bookings == db.bookings
    decreases |draws|
  {
    hide OfferSeat;
    if draws != [] {
      var next := NextWaiting(db, event, category, draws[0].locked);
      if next.Some? && draws[0].seat.Some? {
        match OfferSeat(db, next.value, draws[0].seat.value, ttl, draws[0].newHold, draws[0].newOffer, now)
        case Aborted(_) =>
        case Raced => PassSameBookings(db, event, category, draws[1..], ttl, now);
        case Paired(d) =>
          OfferSeatPaired(db, next.value, draws[0].seat.value, ttl, draws[0].newHold, draws[0].newOffer, now);
          PassSameBookings(d, event, category, draws[1..], ttl, now);
      }
    }
  }

  lemma AllocateSameBookings(db: Db, queue: Queue, draws: seq<Draw>, ttl: int, now: Instant)
    ensures AllocateSignal(db, queue, draws, ttl, now).bookings == db.bookings
  {
    hide Pass;
    var tried := if |draws| <= MAX_PAIRINGS_PER_PASS then draws else draws[..MAX_PAIRINGS_PER_PASS];
    PassSameBookings(db, queue.event, queue.category, tried, ttl, now);
  }

  lemma ApplyUse(db: Db, step: Step)
    requires Inv(db)
    ensures !step.VerifyTicket? ==> NoNewUse(db, Apply(db, step))
  {
    hide Inv, HoldVerdict, TakeSeats, Confirm, CancelBooking, EndHold, AllocateSignal, Accept, Issue, Verify, NoNewUse;
    SameUse(db, db);
    match step
    case Reserve(event, user, ids, ttl, newHold, now) =>
      TakeSeatsSameBookings(db, event, user, ids, ExpiryAt(now, ttl), newHold, now);
      SameUse(db, Apply(db, step));
    case ConfirmHold(user, event, hold, newBooking, now) => ConfirmUsesNoTicket(db, user, event, hold, newBooking, now);
    case CancelSale(user, booking) => CancelUsesNoTicket(db, user, booking);
    case SweepHold(hold, now) =>
      if hold in db.holds { EndHoldSameBookings(db, hold, HoldStatus.Expired, now); }
      SameUse(db, Apply(db, step));
    case ReleaseHold(user, event, hold, now) =>
      if hold in db.holds { EndHoldSameBookings(db, hold, HoldStatus.Cancelled, now); }
      SameUse(db, Apply(db, step));
    case JoinLine(_, _, _, _, _) => SameUse(db, Apply(db, step));
    case LeaveLine(_, _) => SameUse(db, Apply(db, step));
    case Allocate(queue, draws, ttl, now) =>
      AllocateSameBookings(db, queue, draws, ttl, now);
      SameUse(db, Apply(db, step));
    case Reconcile(_) => SameUse(db, Apply(db, step));
    case AcceptOffer(user, offer, newBooking, now) => AcceptUsesNoTicket(db, user, offer, newBooking, now);
    case IssueTickets(user, role, booking) => IssueNeverCommits(db, user, role, booking);
    case VerifyTicket(_, _, _, _) =>
  }

  lemma TakeSeatsSameBookings(db: Db, event: EventId, user: UserId, ids: set<SeatId>, expiresAt: Instant, newHold: HoldId, now: Instant)
    ensures TakeSeats(db, event, user, ids, expiresAt, newHold, now).bookings == db.bookings
  {
  }

  lemma EndHoldSameBookings(db: Db, h: HoldId, status: HoldStatus, now: Instant)
    requires h in db.holds
    ensures EndHold(db, h, status, now).db.bookings == db.bookings
  {
  }

  lemma VerifyUses(db: Db, user: UserId, role: Role, booking: BookingId, seat: SeatId, b: BookingId, s: SeatId)
    ensures IsUsed(Verify(db, user, role, booking, seat).db, b, s)
            <==> IsUsed(db, b, s) || (b == booking && s == seat && Verify(db, user, role, booking, seat).out.Ok?)
    ensures Verify(db, user, role, booking, seat).out.Ok? ==> !IsUsed(db, booking, seat)
  {
  }

  /**
   A ticket lets somebody in at most once over any run, is used from then on and
   was used only by that: admissions are exactly the change from unused to used.
   */
  lemma {:induction false} AdmittedAtMostOnce(db: Db, steps: seq<Step>, b: BookingId, s: SeatId)
    requires Inv(db)
    ensures Admissions(db, steps, b, s) + (if IsUsed(db, b, s) then 1 else 0) == if IsUsed(Run(db, steps), b, s) then 1 else 0
    decreases |steps|
  {
    hide Inv, Apply, IsUsed, Verify, Evolves;
    if steps != [] {
      var d := Apply(db, steps[0]);
      ApplyInv(db, steps[0]);
      AdmissionStep(db, steps[0], b, s);
      AdmittedAtMostOnce(d, steps[1..], b, s);
    }
  }

  lemma AdmissionStep(db: Db, step: Step, b: BookingId, s: SeatId)
    requires Inv(db)
    ensures IsUsed(Apply(db, step), b, s) <==> IsUsed(db, b, s) || Admits(db, step, b, s)
    ensures !(IsUsed(db, b, s) && Admits(db, step, b, s))
  {
    hide Inv, CreateHold, Confirm, CancelBooking, ExpireHold, CancelHold, Join, Leave, AllocateSignal, ReconcileQueue, Accept, Issue, Verify, Evolves, NoNewUse;
    ApplyUse(db, step);
    ApplyEvolves(db, step);
    if step.VerifyTicket? {
      VerifyUses(db, step.user, step.role, step.booking, step.seat, b, s);
    } else {
      UsedStays(db, Apply(db, step), b, s);
    }
  }

  lemma UsedStays(db: Db, d: Db, b: BookingId, s: SeatId)
    requires Evolves(db, d) && NoNewUse(db, d)
    ensures IsUsed(d, b, s) <==> IsUsed(db, b, s)
  {
    if IsUsed(db, b, s) {
      assert BookingEvolves(db.bookings[b], d.bookings[b]);
    }
  }

  /** After any run: one ticket a seat row, and no cancelled booking has a used one. */
  lemma TicketsAgainstCancellation(initial: Db, steps: seq<Step>)
    requires Initial(initial)
    ensures var db := Run(initial, steps);
            forall b :: b in db.bookings ==>
              && db.bookings[b].tickets.Keys == db.bookings[b].rows.Keys
              && (db.bookings[b].status.Cancelled? ==> forall s :: s in db.bookings[b].tickets ==> !IsUsed(db, b, s))
  {
    hide Run, Initial, SeatsOk, HoldsOk, WaitlistOk;
    InitialInv(initial);
    RunInv(initial, steps);
    var db := Run(initial, steps);
    forall b | b in db.bookings
      ensures db.bookings[b].tickets.Keys == db.bookings[b].rows.Keys
      ensures db.bookings[b].status.Cancelled? ==> forall s :: s in db.bookings[b].tickets ==> !IsUsed(db, b, s)
    {
      assert BookingOk(db, db.bookings[b]);
      assert forall s :: s in db.bookings[b].tickets.Keys <==> s in db.bookings[b].rows.Keys;
      forall s | s in db.bookings[b].tickets ensures db.bookings[b].status.Cancelled? ==> !IsUsed(db, b, s) {
        assert TicketOk(db.bookings[b], db.bookings[b].tickets[s]);
      }
    }
  }
}
