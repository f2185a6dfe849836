/** What no transaction ever takes back: prices, totals, final statuses, used tickets, written history. */
module Evolution {
  import opened Schema
  import opened Transactions
  import opened Invariant
  import opened Allocation
  import opened Runs

  /** The rows already written stay, first and in order. */
  ghost predicate HistoryGrows(db: Db, d: Db) {
    forall s :: s in db.outbox ==> s in d.outbox && db.outbox[s] <= d.outbox[s]
  }

  /** A hold never changes hands, seats or expiry, and ends once. */
  ghost predicate HoldsEvolve(db: Db, d: Db) {
    forall h :: h in db.holds ==>
      && h in d.holds
      && d.holds[h] == db.holds[h].(status := d.holds[h].status)
      && (db.holds[h].status.Active? || d.holds[h].status == db.holds[h].status)
  }

  /** A row's price never changes and its seat, once given up, is never taken back. */
  predicate RowEvolves(a: SoldSeat, b: SoldSeat) {
    b.price == a.price && (a.cancelled ==> b.cancelled)
  }

  ghost predicate BookingEvolves(a: Booking, b: Booking) {
    && b == a.(status := b.status, rows := b.rows, tickets := b.tickets)
    && (a.status.Cancelled? ==> b.status.Cancelled?)
    && (forall s :: s in b.rows <==> s in a.rows)
    && (forall s :: s in b.tickets <==> s in a.tickets)
    && (forall s :: s in a.rows && s in b.rows ==> RowEvolves(a.rows[s], b.rows[s]))
    && (forall s :: s in a.tickets && s in b.tickets && a.tickets[s].Used? ==> b.tickets[s].Used?)
  }

  ghost predicate BookingsEvolve(db: Db, d: Db) {
    forall b :: b in db.bookings ==> b in d.bookings && BookingEvolves(db.bookings[b], d.bookings[b])
  }

  /** waiting, then cancelled or offered; offered, then accepted or expired. */
  predicate EntryStep(a: EntryStatus, b: EntryStatus) {
    || a == b
    || a.Waiting?
    || (a.Offered? && (b.Accepted? || b.Expired?))
  }

  ghost predicate EntriesEvolve(db: Db, d: Db) {
    forall e :: e in db.entries ==>
      && e in d.entries
      && d.entries[e] == db.entries[e].(status := d.entries[e].status)
      && EntryStep(db.entries[e].status, d.entries[e].status)
  }

  ghost predicate OffersEvolve(db: Db, d: Db) {
    forall o :: o in db.offers ==>
      && o in d.offers
      && d.offers[o] == db.offers[o].(status := d.offers[o].status)
      && (db.offers[o].status.Offered? || d.offers[o].status == db.offers[o].status)
  }

  ghost predicate Evolves(db: Db, d: Db) {
    && d.world == db.world && SameSeats(db, d) && HistoryGrows(db, d)
    && HoldsEvolve(db, d) && BookingsEvolve(db, d) && EntriesEvolve(db, d) && OffersEvolve(db, d)
  }

  lemma EvolvesRefl(db: Db)
    ensures Evolves(db, db)
  {
  }

  lemma SameBookingsEvolve(db: Db)
    ensures forall b :: b in db.bookings ==> BookingEvolves(db.bookings[b], db.bookings[b])
  {
  }

  lemma BookingEvolvesTrans(a: Booking, b: Booking, c: Booking)
    requires BookingEvolves(a, b) && BookingEvolves(b, c)
    ensures BookingEvolves(a, c)
  {
    forall s | s in a.rows && s in c.rows ensures RowEvolves(a.rows[s], c.rows[s]) {
      assert RowEvolves(a.rows[s], b.rows[s]) && RowEvolves(b.rows[s], c.rows[s]);
    }
  }

  lemma HistoryTrans(a: Db, b: Db, c: Db)
    requires HistoryGrows(a, b) && HistoryGrows(b, c)
    ensures HistoryGrows(a, c)
  {
  }

  lemma EvolvesTrans(a: Db, b: Db, c: Db)
    requires Evolves(a, b) && Evolves(b, c)
    ensures Evolves(a, c)
  {
    hide BookingEvolves, HistoryGrows;
    HistoryTrans(a, b, c);
    forall k | k in a.bookings ensures k in c.bookings && BookingEvolves(a.bookings[k], c.bookings[k]) {
      BookingEvolvesTrans(a.bookings[k], b.bookings[k], c.bookings[k]);
    }
  }

  lemma SetStatusHistory(db: Db, targets: set<SeatId>, status: SeatStatus)
    ensures HistoryGrows(db, SetStatus(db, targets, status))
  {
  }

  lemma TakeSeatsEvolves(db: Db, event: EventId, user: UserId, ids: set<SeatId>, expiresAt: Instant, newHold: HoldId, now: Instant)
    requires newHold !in db.holds
    ensures Evolves(db, TakeSeats(db, event, user, ids, expiresAt, newHold, now))
  {
    var d1 := SetHolds(db, LapsedOver(db, ids, now), HoldStatus.Expired);
    var d2 := SetStatus(d1, Orphaned(db, ids, now), Available);
    var d3 := d2.(holds := d2.holds[newHold := Hold(event, user, Active, expiresAt, ids)]);
    SetStatusHistory(d1, Orphaned(db, ids, now), Available);
    SetStatusHistory(d3, ids, Held);
    assert HistoryGrows(d1, SetStatus(d3, ids, Held)) by { HistoryTrans(d1, d2, SetStatus(d3, ids, Held)); }
    TakeSeatsTakes(db, event, user, ids, expiresAt, newHold, now);
    hide TakeSeats, SetStatus, SetHolds;
    TakesEvolves(db, TakeSeats(db, event, user, ids, expiresAt, newHold, now), Hold(event, user, Active, expiresAt, ids), newHold, now);
  }

  lemma TakesEvolves(db: Db, d: Db, hold: Hold, newHold: HoldId, now: Instant)
    requires newHold !in db.holds && Takes(db, d, hold, newHold, now) && HistoryGrows(db, d)
    ensures Evolves(db, d)
  {
    hide BookingEvolves, HistoryGrows;
    SameBookingsEvolve(db);
  }

  lemma EndHoldEvolves(db: Db, h: HoldId, status: HoldStatus, now: Instant)
    requires Inv(db) && h in db.holds && db.holds[h].status.Active? && !status.Active?
    ensures Evolves(db, EndHold(db, h, status, now).db)
  {
    hide EndHold, Ends, SeatsOk, SalesOk;
    EndHoldEnds(db, h, status, now);
    EndHoldHistory(db, h, status, now);
    EndsEvolves(db, EndHold(db, h, status, now).db, h, status);
  }

  lemma EndHoldHistory(db: Db, h: HoldId, status: HoldStatus, now: Instant)
    requires HoldsOk(db) && WaitlistOk(db) && h in db.holds && db.holds[h].status.Active? && !status.Active?
    ensures HistoryGrows(db, EndHold(db, h, status, now).db)
  {
    hide EndHold, HoldsOk, WaitlistOk;
    EndHoldSucceeds(db, h, status, now);
    SetStatusHistory(SetHolds(db, {h}, status), db.holds[h].seats, Available);
  }

  lemma EndsEvolves(db: Db, d: Db, h: HoldId, status: HoldStatus)
    requires WaitlistOk(db) && h in db.holds && db.holds[h].status.Active? && Ends(db, d, h, status) && HistoryGrows(db, d)
    ensures Evolves(db, d)
  {
    hide BookingEvolves, HistoryGrows;
    SameBookingsEvolve(db);
    forall e | e in EntriesOf(db, OffersBehind(db, h)) && e in db.entries ensures db.entries[e].status.Offered? {
      var o :| o in OffersBehind(db, h) && db.offers[o].entry == e;
      assert OfferOk(db, db.offers[o]);
    }
  }

  lemma ConfirmEvolves(db: Db, user: UserId, event: EventId, hold: HoldId, newBooking: BookingId, now: Instant)
    requires Inv(db)
    ensures Evolves(db, Confirm(db, user, event, hold, newBooking, now).db)
  {
    hide Inv, Confirm, Sells, Evolves, HistoryGrows;
    EvolvesRefl(db);
    ConfirmRefusalRollsBack(db, user, event, hold, newBooking, now);
    ConfirmAnswers(db, user, event, hold, newBooking, now);
    if Confirmable(db, user, event, hold, newBooking, now) {
      ConfirmSells(db, user, event, hold, newBooking, now);
      SetStatusHistory(db, db.holds[hold].seats, Booked);
      SameHistory(db, SetStatus(db, db.holds[hold].seats, Booked), Confirm(db, user, event, hold, newBooking, now).db);
      SellsEvolves(db, Confirm(db, user, event, hold, newBooking, now).db, hold, newBooking);
    }
  }

  lemma SellsEvolves(db: Db, d: Db, h: HoldId, b: BookingId)
    requires h in db.holds && db.holds[h].status.Active? && b !in db.bookings && Sells(db, d, h, b) && HistoryGrows(db, d)
    ensures Evolves(db, d)
  {
    hide BookingEvolves, HistoryGrows;
    SameBookingsEvolve(db);
  }

  lemma CancelEvolves(db: Db, user: UserId, booking: BookingId)
    requires Inv(db)
    ensures Evolves(db, CancelBooking(db, user, booking).db)
  {
    hide Inv, CancelBooking, CancelVerdict, Evolves, Unsells;
    EvolvesRefl(db);
    CancelAnswers(db, user, booking);
    CancelRefusalRollsBack(db, user, booking);
    if Cancellable(db, user, booking) {
      CancelUnsells(db, user, booking);
      SetStatusHistory(db, db.bookings[booking].rows.Keys, Available);
      UnsellsEvolves(db, CancelBooking(db, user, booking).db, booking);
    }
  }

  lemma UnsellsEvolves(db: Db, d: Db, b: BookingId)
    requires b in db.bookings && Unsells(db, d, b) && HistoryGrows(db, d)
    ensures Evolves(db, d)
  {
    forall c | c in db.bookings ensures BookingEvolves(db.bookings[c], d.bookings[c]) {}
  }

  lemma {:induction false} PassEvolves(db: Db, event: EventId, category: Category, draws: seq<Draw>, ttl: int, now: Instant)
    ensures Evolves(db, Pass(db, event, category, draws, ttl, now).db)
    decreases |draws|
  {
    hide OfferSeat, Evolves, AfterOffer;
    EvolvesRefl(db);
    if draws != [] {
      var next := NextWaiting(db, event, category, draws[0].locked);
      if next.Some? && draws[0].seat.Some? {
        match OfferSeat(db, next.value, draws[0].seat.value, ttl, draws[0].newHold, draws[0].newOffer, now)
        case Aborted(_) =>
        case Raced => PassEvolves(db, event, category, draws[1..], ttl, now);
        case Paired(d) =>
          OfferSeatPaired(db, next.value, draws[0].seat.value, ttl, draws[0].newHold, draws[0].newOffer, now);
          AfterOfferEvolves(db, next.value, draws[0].seat.value, draws[0].newHold, draws[0].newOffer, ExpiryAt(now, ttl), now);
          PassEvolves(d, event, category, draws[1..], ttl, now);
          EvolvesTrans(db, d, Pass(d, event, category, draws[1..], ttl, now).db);
      }
    }
  }

  lemma AfterOfferEvolves(db: Db, entry: EntryId, seat: SeatId, newHold: HoldId, newOffer: OfferId, expiresAt: Instant, now: Instant)
    requires entry in db.entries && db.entries[entry].status.Waiting? && newHold !in db.holds && newOffer !in db.offers
    ensures Evolves(db, AfterOffer(db, entry, seat, newHold, newOffer, expiresAt, now))
  {
    hide TakeSeats, BookingEvolves;
    var e := db.entries[entry];
    TakeSeatsEvolves(db, e.event, e.user, {seat}, expiresAt, newHold, now);
    var t := TakeSeats(db, e.event, e.user, {seat}, expiresAt, newHold, now);
    var d := AfterOffer(db, entry, seat, newHold, newOffer, expiresAt, now);
    assert SameSeats(db, d) && HistoryGrows(db, d) && HoldsEvolve(db, d) && BookingsEvolve(db, d);
    assert EntriesEvolve(db, d) && OffersEvolve(db, d);
  }

  lemma AcceptEvolves(db: Db, user: UserId, offer: OfferId, newBooking: BookingId, now: Instant)
    requires Inv(db)
    ensures Evolves(db, Accept(db, user, offer, newBooking, now).db)
  {
    hide Inv, Confirm, Confirmable, Evolves, Sells;
    EvolvesRefl(db);
    AcceptAnswers(db, user, offer, newBooking, now);
    if Acceptable(db, user, offer, newBooking, now) {
      var o := db.offers[offer];
      AcceptableIsLive(db, user, offer, newBooking, now);
      ConfirmEvolves(db, user, db.holds[o.hold].event, o.hold, newBooking, now);
      ConfirmSells(db, user, db.holds[o.hold].event, o.hold, newBooking, now);
      AcceptedEvolves(db, Confirm(db, user, db.holds[o.hold].event, o.hold, newBooking, now).db, offer, newBooking);
    }
  }

  lemma AcceptableIsLive(db: Db, user: UserId, offer: OfferId, newBooking: BookingId, now: Instant)
    requires Inv(db) && Acceptable(db, user, offer, newBooking, now)
    ensures db.offers[offer].status.Offered? && db.entries[db.offers[offer].entry].status.Offered?
  {
    assert OfferOk(db, db.offers[offer]);
  }

  lemma AcceptedEvolves(db: Db, c: Db, offer: OfferId, newBooking: BookingId)
    requires offer in db.offers && db.offers[offer].status.Offered? && db.offers[offer].hold in db.holds
    requires db.offers[offer].entry in db.entries && db.entries[db.offers[offer].entry].status.Offered?
    requires Evolves(db, c) && Sells(db, c, db.offers[offer].hold, newBooking)
    ensures Evolves(db, SetEntries(SetOffers(c, {offer}, OfferStatus.Accepted), {db.offers[offer].entry}, EntryStatus.Accepted))
  {
    hide BookingEvolves, HistoryGrows;
    var d := SetEntries(SetOffers(c, {offer}, OfferStatus.Accepted), {db.offers[offer].entry}, EntryStatus.Accepted);
    SameHistory(db, c, d);
    assert EntriesEvolve(db, d) && OffersEvolve(db, d);
  }

  lemma SameHistory(db: Db, c: Db, d: Db)
    requires HistoryGrows(db, c) && d.outbox == c.outbox
    ensures HistoryGrows(db, d)
  {
  }

  lemma VerifyEvolves(db: Db, user: UserId, role: Role, booking: BookingId, seat: SeatId)
    ensures Evolves(db, Verify(db, user, role, booking, seat).db)
  {
    hide Evolves;
    EvolvesRefl(db);
    var r := Verify(db, user, role, booking, seat);
    if r.out.Ok? {
      UsedEvolves(db, booking, seat);
    }
  }

  lemma UsedEvolves(db: Db, booking: BookingId, seat: SeatId)
    requires booking in db.bookings && seat in db.bookings[booking].tickets
    ensures var b := db.bookings[booking];
            Evolves(db, db.(bookings := db.bookings[booking := b.(tickets := b.tickets[seat := Used])]))
  {
    var b := db.bookings[booking];
    var d := db.(bookings := db.bookings[booking := b.(tickets := b.tickets[seat := Used])]);
    SameHistory(db, db, d);
    assert BookingEvolves(b, d.bookings[booking]);
    assert BookingsEvolve(db, d);
  }

  lemma ApplyEvolves(db: Db, step: Step)
    requires Inv(db)
    ensures Evolves(db, Apply(db, step))
  {
    hide Inv, TakeSeats, Confirm, CancelBooking, EndHold, Pass, Accept, Issue, Verify, Evolves, HoldVerdict;
    EvolvesRefl(db);
    match step
    case Reserve(event, user, ids, ttl, newHold, now) =>
      HoldVerdictGrants(db, event, user, ids, newHold, now);
      if newHold !in db.holds {
        TakeSeatsEvolves(db, event, user, ids, ExpiryAt(now, ttl), newHold, now);
      }
    case ConfirmHold(user, event, hold, newBooking, now) => ConfirmEvolves(db, user, event, hold, newBooking, now);
    case CancelSale(user, booking) => CancelEvolves(db, user, booking);
    case SweepHold(hold, now) =>
      if hold in db.holds && db.holds[hold].status.Active? { EndHoldEvolves(db, hold, HoldStatus.Expired, now); }
    case ReleaseHold(user, event, hold, now) =>
      if hold in db.holds && db.holds[hold].status.Active? { EndHoldEvolves(db, hold, HoldStatus.Cancelled, now); }
    case JoinLine(event, user, category, newEntry, now) => JoinEvolves(db, event, user, category, newEntry, now);
    case LeaveLine(user, entry) => LeaveEvolves(db, user, entry);
    case Allocate(queue, draws, ttl, now) => AllocateEvolves(db, queue, draws, ttl, now);
    case Reconcile(queue) => SignalsEvolve(db, db.signals + {queue});
    case AcceptOffer(user, offer, newBooking, now) => AcceptEvolves(db, user, offer, newBooking, now);
    case IssueTickets(user, role, booking) => IssueNeverCommits(db, user, role, booking);
    case VerifyTicket(user, role, booking, seat) => VerifyEvolves(db, user, role, booking, seat);
  }

  lemma JoinEvolves(db: Db, event: EventId, user: UserId, category: Category, newEntry: EntryId, now: Instant)
    ensures Evolves(db, Join(db, event, user, category, newEntry, now).db)
  {
    hide BookingEvolves;
    SameBookingsEvolve(db);
    var d := Join(db, event, user, category, newEntry, now).db;
    assert SameSeats(db, d) && HistoryGrows(db, d) && HoldsEvolve(db, d) && BookingsEvolve(db, d);
  }

  lemma LeaveEvolves(db: Db, user: UserId, entry: EntryId)
    ensures Evolves(db, Leave(db, user, entry).db)
  {
    hide BookingEvolves;
    SameBookingsEvolve(db);
    var d := Leave(db, user, entry).db;
    assert SameSeats(db, d) && HistoryGrows(db, d) && HoldsEvolve(db, d) && BookingsEvolve(db, d);
  }

  lemma SignalsEvolve(db: Db, signals: set<Queue>)
    ensures Evolves(db, db.(signals := signals))
  {
    hide BookingEvolves;
    SameBookingsEvolve(db);
    var d := db.(signals := signals);
    assert SameSeats(db, d) && HistoryGrows(db, d) && HoldsEvolve(db, d) && BookingsEvolve(db, d);
  }

  lemma AllocateEvolves(db: Db, queue: Queue, draws: seq<Draw>, ttl: int, now: Instant)
    ensures Evolves(db, AllocateSignal(db, queue, draws, ttl, now))
  {
    hide Pass, Evolves;
    EvolvesRefl(db);
    var tried := if |draws| <= MAX_PAIRINGS_PER_PASS then draws else draws[..MAX_PAIRINGS_PER_PASS];
    PassEvolves(db, queue.event, queue.category, tried, ttl, now);
    var r := RunPass(db, queue.event, queue.category, draws, ttl, now);
    SignalsEvolve(r.db, r.db.signals - {queue});
    EvolvesTrans(db, r.db, r.db.(signals := r.db.signals - {queue}));
  }

  /** Over any run, from any consistent state. */
  lemma {:induction false} RunEvolves(db: Db, steps: seq<Step>)
    requires Inv(db)
    ensures Evolves(db, Run(db, steps))
    decreases |steps|
  {
    hide Inv, Apply, Evolves;
    EvolvesRefl(db);
    if steps != [] {
      var d := Apply(db, steps[0]);
      ApplyInv(db, steps[0]);
      ApplyEvolves(db, steps[0]);
      RunEvolves(d, steps[1..]);
      EvolvesTrans(db, d, Run(d, steps[1..]));
    }
  }
}
