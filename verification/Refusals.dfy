/** Branches kept for safety that no run can reach, and the signals no release forgets. */
module Refusals {
  import opened Rows
  import opened Schema
  import opened Transactions
  import opened Invariant
  import opened Allocation
  import opened Runs

  /** An answer the code gives only when its tables contradict each other. */
  predicate Surprise(error: Error) {
    error.ConfirmationConflict? || error.CancellationConflict? || error.BookingHasNoSeats? || error.Internal?
  }

  predicate Surprised<T>(out: Outcome<T>) {
    out.Fail? && Surprise(out.error)
  }

  lemma EndHoldNeverSurprised(db: Db, h: HoldId, status: HoldStatus, now: Instant)
    requires Inv(db) && h in db.holds && db.holds[h].status.Active? && (status.Expired? || status.Cancelled?)
    ensures EndHold(db, h, status, now).out == Ok(|db.holds[h].seats|)
  {
    EndHoldSucceeds(db, h, status, now);
  }

  lemma SalesNeverSurprised(db: Db, user: UserId, role: Role, event: EventId, hold: HoldId, booking: BookingId, offer: OfferId, now: Instant)
    requires Inv(db)
    ensures !Surprised(Confirm(db, user, event, hold, booking, now).out)
    ensures !Surprised(CancelBooking(db, user, booking).out)
    ensures !Surprised(Accept(db, user, offer, booking, now).out)
    ensures !Surprised(Issue(db, user, role, booking).out)
    ensures Confirm(db, user, event, hold, booking, now).out == Fail(HoldAlreadyConfirmed) ==>
              hold in db.holds && db.holds[hold].status.Converted?
    ensures Accept(db, user, offer, booking, now).out == Fail(OfferAlreadyAccepted) ==>
              offer in db.offers && db.offers[offer].hold in db.holds && db.holds[db.offers[offer].hold].status.Converted?
  {
    hide Inv, Confirm, CancelBooking, Accept, Issue, Confirmable, Cancellable, Acceptable;
    ConfirmAnswers(db, user, event, hold, booking, now);
    CancelAnswers(db, user, booking);
    AcceptAnswers(db, user, offer, booking, now);
    IssueNeverCommits(db, user, role, booking);
  }

  lemma TakingNeverSurprised(db: Db, event: EventId, user: UserId, ids: set<SeatId>, ttl: int, newHold: HoldId, now: Instant)
    ensures !Surprised(CreateHold(db, event, user, ids, ttl, newHold, now).out)
  {
    hide TakeSeats;
  }

  lemma EndingNeverSurprised(db: Db, user: UserId, event: EventId, hold: HoldId, now: Instant)
    requires Inv(db)
    ensures ExpireHold(db, hold, now).out.Ok?
    ensures !Surprised(CancelHold(db, user, event, hold, now).out)
  {
    hide Inv, EndHold;
    if hold in db.holds && db.holds[hold].status.Active? {
      EndHoldNeverSurprised(db, hold, HoldStatus.Expired, now);
      EndHoldNeverSurprised(db, hold, HoldStatus.Cancelled, now);
    }
  }

  lemma PairingNeverSurprised(db: Db, entry: EntryId, seat: SeatId, ttl: int, newHold: HoldId, newOffer: OfferId, now: Instant)
    requires Inv(db) && entry in db.entries && db.entries[entry].status.Waiting?
    ensures var p := OfferSeat(db, entry, seat, ttl, newHold, newOffer, now);
            p.Aborted? ==> !Surprise(p.error)
  {
    hide AfterOffer;
    forall o | o in db.offers
      ensures !(db.offers[o].entry == entry && db.offers[o].status.Offered?)
      ensures db.offers[o].hold in db.holds
    {
      assert OfferOk(db, db.offers[o]);
    }
  }

  /**
   In every reachable state no transaction meets a conflict, an index violation
   or a row count its own checks did not already rule out; in particular an
   answer of "already confirmed" never comes from the unique hold of a booking.
   */
  lemma DefensiveBranchesAreDead(initial: Db, steps: seq<Step>, user: UserId, role: Role, event: EventId, hold: HoldId,
                                 booking: BookingId, offer: OfferId, entry: EntryId, seat: SeatId, ids: set<SeatId>, ttl: int,
                                 newHold: HoldId, newOffer: OfferId, now: Instant)
    requires Initial(initial)
    ensures var db := Run(initial, steps);
            && !Surprised(CreateHold(db, event, user, ids, ttl, newHold, now).out)
            && !Surprised(Confirm(db, user, event, hold, booking, now).out)
            && (Confirm(db, user, event, hold, booking, now).out == Fail(HoldAlreadyConfirmed) ==>
                  hold in db.holds && db.holds[hold].status.Converted?)
            && (Accept(db, user, offer, booking, now).out == Fail(OfferAlreadyAccepted) ==>
                  offer in db.offers && db.offers[offer].hold in db.holds && db.holds[db.offers[offer].hold].status.Converted?)
            && !Surprised(CancelBooking(db, user, booking).out)
            && ExpireHold(db, hold, now).out.Ok?
            && !Surprised(CancelHold(db, user, event, hold, now).out)
            && !Surprised(Accept(db, user, offer, booking, now).out)
            && !Surprised(Issue(db, user, role, booking).out)
            && (entry in db.entries && db.entries[entry].status.Waiting? ==>
                  var p := OfferSeat(db, entry, seat, ttl, newHold, newOffer, now);
                  p.Aborted? ==> !Surprise(p.error))
  {
    hide Inv, Initial, Run, CreateHold, Confirm, CancelBooking, EndHold, Accept, Issue, OfferSeat, Surprised;
    InitialInv(initial);
    RunInv(initial, steps);
    var db := Run(initial, steps);
    TakingNeverSurprised(db, event, user, ids, ttl, newHold, now);
    SalesNeverSurprised(db, user, role, event, hold, booking, offer, now);
    EndingNeverSurprised(db, user, event, hold, now);
    if entry in db.entries && db.entries[entry].status.Waiting? {
      PairingNeverSurprised(db, entry, seat, ttl, newHold, newOffer, now);
    }
  }

  // ----------------------------------------------------------------- signals

  /** The seat went back on sale in this step. */
  ghost predicate Freed(db: Db, d: Db, s: SeatId) {
    s in db.seats && s in d.seats && !db.seats[s].status.Available? && d.seats[s].status.Available?
  }

  ghost predicate Signalled(db: Db, s: SeatId) {
    s in db.seats && Queue(db.seats[s].event, db.seats[s].category) in db.signals
  }

  ghost predicate FreesNothing(db: Db, d: Db) {
    (forall s :: !Freed(db, d, s)) && SameSeats(db, d) && d.signals == db.signals
  }

  lemma FreesNothingTrans(a: Db, b: Db, c: Db)
    requires FreesNothing(a, b) && FreesNothing(b, c)
    ensures FreesNothing(a, c)
  {
    forall s ensures !Freed(a, c, s) {
      assert !Freed(a, b, s) && !Freed(b, c, s);
    }
  }

  lemma {:induction false} PassFreesNothing(db: Db, event: EventId, category: Category, draws: seq<Draw>, ttl: int, now: Instant)
    ensures FreesNothing(db, Pass(db, event, category, draws, ttl, now).db)
    decreases |draws|
  {
    hide OfferSeat, AfterOffer;
    if draws != [] {
      var next := NextWaiting(db, event, category, draws[0].locked);
      if next.Some? && draws[0].seat.Some? {
        match OfferSeat(db, next.value, draws[0].seat.value, ttl, draws[0].newHold, draws[0].newOffer, now)
        case Aborted(_) =>
        case Raced => PassFreesNothing(db, event, category, draws[1..], ttl, now);
        case Paired(d) =>
          OfferSeatPaired(db, next.value, draws[0].seat.value, ttl, draws[0].newHold, draws[0].newOffer, now);
          PairingFreesNothing(db, next.value, draws[0].seat.value, draws[0].newHold, draws[0].newOffer, ExpiryAt(now, ttl), now);
          PassFreesNothing(d, event, category, draws[1..], ttl, now);
          FreesNothingTrans(db, d, Pass(d, event, category, draws[1..], ttl, now).db);
      }
    }
  }

  lemma PairingFreesNothing(db: Db, entry: EntryId, seat: SeatId, newHold: HoldId, newOffer: OfferId, expiresAt: Instant, now: Instant)
    requires entry in db.entries && newHold !in db.holds
    ensures FreesNothing(db, AfterOffer(db, entry, seat, newHold, newOffer, expiresAt, now))
  {
    hide TakeSeats;
    TakeSeatsTakes(db, db.entries[entry].event, db.entries[entry].user, {seat}, expiresAt, newHold, now);
  }

  lemma CreateHoldFreesNothing(db: Db, event: EventId, user: UserId, ids: set<SeatId>, ttl: int, newHold: HoldId, now: Instant)
    ensures FreesNothing(db, CreateHold(db, event, user, ids, ttl, newHold, now).db)
  {
    hide TakeSeats, HoldVerdict;
    HoldVerdictGrants(db, event, user, ids, newHold, now);
    if newHold !in db.holds {
      TakeSeatsTakes(db, event, user, ids, ExpiryAt(now, ttl), newHold, now);
    }
  }

  lemma ConfirmFreesNothing(db: Db, user: UserId, event: EventId, hold: HoldId, newBooking: BookingId, now: Instant)
    requires Inv(db)
    ensures FreesNothing(db, Confirm(db, user, event, hold, newBooking, now).db)
  {
    hide Inv, Confirm;
    ConfirmRefusalRollsBack(db, user, event, hold, newBooking, now);
    ConfirmAnswers(db, user, event, hold, newBooking, now);
    if Confirmable(db, user, event, hold, newBooking, now) {
      ConfirmSells(db, user, event, hold, newBooking, now);
    }
  }

  lemma AcceptFreesNothing(db: Db, user: UserId, offer: OfferId, newBooking: BookingId, now: Instant)
    requires Inv(db)
    ensures FreesNothing(db, Accept(db, user, offer, newBooking, now).db)
  {
    hide Inv, Confirm, Confirmable;
    AcceptAnswers(db, user, offer, newBooking, now);
    if Acceptable(db, user, offer, newBooking, now) {
      var o := db.offers[offer];
      ConfirmFreesNothing(db, user, db.holds[o.hold].event, o.hold, newBooking, now);
      FreesNothingTrans(db, Confirm(db, user, db.holds[o.hold].event, o.hold, newBooking, now).db, Accept(db, user, offer, newBooking, now).db);
    }
  }

  lemma CancelSignals(db: Db, user: UserId, booking: BookingId, s: SeatId)
    requires Inv(db) && Freed(db, CancelBooking(db, user, booking).db, s)
    ensures Signalled(CancelBooking(db, user, booking).db, s)
  {
    hide Inv, CancelBooking;
    CancelAnswers(db, user, booking);
    CancelRefusalRollsBack(db, user, booking);
  }

  lemma EndHoldSignals(db: Db, h: HoldId, status: HoldStatus, now: Instant, s: SeatId)
    requires Inv(db) && h in db.holds && db.holds[h].status.Active? && !status.Active?
    requires Freed(db, EndHold(db, h, status, now).db, s)
    ensures Signalled(EndHold(db, h, status, now).db, s)
  {
    hide EndHold;
    EndHoldSucceeds(db, h, status, now);
  }

  lemma AllocateFreesNothing(db: Db, queue: Queue, draws: seq<Draw>, ttl: int, now: Instant, s: SeatId)
    ensures !Freed(db, AllocateSignal(db, queue, draws, ttl, now), s)
  {
    hide Pass;
    var tried := if |draws| <= MAX_PAIRINGS_PER_PASS then draws else draws[..MAX_PAIRINGS_PER_PASS];
    PassFreesNothing(db, queue.event, queue.category, tried, ttl, now);
    assert !Freed(db, RunPass(db, queue.event, queue.category, draws, ttl, now).db, s);
  }

  lemma EndHoldKeepsSignals(db: Db, h: HoldId, status: HoldStatus, now: Instant)
    requires h in db.holds
    ensures forall q :: q in db.signals ==> q in EndHold(db, h, status, now).db.signals
  {
  }

  /** Every seat a transaction puts back on sale leaves its event and category signalled. */
  lemma FreedSeatsAreSignalled(db: Db, step: Step, s: SeatId)
    requires Inv(db) && Freed(db, Apply(db, step), s)
    ensures Signalled(Apply(db, step), s)
  {
    hide Inv, CreateHold, Confirm, CancelBooking, EndHold, Pass, Accept, Issue;
    match step
    case Reserve(event, user, ids, ttl, newHold, now) => CreateHoldFreesNothing(db, event, user, ids, ttl, newHold, now);
    case ConfirmHold(user, event, hold, newBooking, now) => ConfirmFreesNothing(db, user, event, hold, newBooking, now);
    case CancelSale(user, booking) => CancelSignals(db, user, booking, s);
    case SweepHold(hold, now) => EndHoldSignals(db, hold, HoldStatus.Expired, now, s);
    case ReleaseHold(user, event, hold, now) => EndHoldSignals(db, hold, HoldStatus.Cancelled, now, s);
    case Allocate(queue, draws, ttl, now) => AllocateFreesNothing(db, queue, draws, ttl, now, s);
    case AcceptOffer(user, offer, newBooking, now) => AcceptFreesNothing(db, user, offer, newBooking, now);
    case IssueTickets(user, role, booking) => IssueNeverCommits(db, user, role, booking);
    case _ =>
  }

  /** A signal is spent only by a pass over that queue that ran to its end. */
  lemma SignalsAreSpentByPasses(db: Db, step: Step, queue: Queue)
    requires Inv(db) && queue in db.signals && queue !in Apply(db, step).signals
    ensures step.Allocate? && step.queue == queue
    ensures RunPass(db, queue.event, queue.category, step.draws, step.ttl, step.now).abort.None?
  {
    hide Inv, CreateHold, Confirm, CancelBooking, EndHold, Pass, Accept, Issue;
    match step
    case Reserve(event, user, ids, ttl, newHold, now) => CreateHoldFreesNothing(db, event, user, ids, ttl, newHold, now);
    case ConfirmHold(user, event, hold, newBooking, now) => ConfirmFreesNothing(db, user, event, hold, newBooking, now);
    case CancelSale(user, booking) => CancelAnswers(db, user, booking); CancelRefusalRollsBack(db, user, booking);
    case SweepHold(hold, now) => EndHoldKeepsSignals(db, hold, HoldStatus.Expired, now);
    case ReleaseHold(user, event, hold, now) => EndHoldKeepsSignals(db, hold, HoldStatus.Cancelled, now);
    case Allocate(q, draws, ttl, now) =>
      var tried := if |draws| <= MAX_PAIRINGS_PER_PASS then draws else draws[..MAX_PAIRINGS_PER_PASS];
      PassFreesNothing(db, q.event, q.category, tried, ttl, now);
    case AcceptOffer(user, offer, newBooking, now) => AcceptFreesNothing(db, user, offer, newBooking, now);
    case IssueTickets(user, role, booking) => IssueNeverCommits(db, user, role, booking);
    case _ =>
  }

  /** A pass over a claimed signal spends that signal exactly when it ran to its end, and no pass raises or spends another. */
  lemma PassSpendsItsSignal(db: Db, queue: Queue, draws: seq<Draw>, ttl: int, now: Instant)
    requires queue in db.signals
    ensures var d := AllocateSignal(db, queue, draws, ttl, now);
            && (queue !in d.signals <==> RunPass(db, queue.event, queue.category, draws, ttl, now).abort.None?)
            && (forall q :: q != queue ==> (q in d.signals <==> q in db.signals))
  {
    hide Pass;
    var tried := if |draws| <= MAX_PAIRINGS_PER_PASS then draws else draws[..MAX_PAIRINGS_PER_PASS];
    PassFreesNothing(db, queue.event, queue.category, tried, ttl, now);
  }

  /** Somebody waits in this line while a seat of its event and category is on sale. */
  predicate Unserved(db: Db, queue: Queue) {
    && (exists e :: e in db.entries && db.entries[e].event == queue.event && db.entries[e].category == queue.category
                    && db.entries[e].status.Waiting?)
    && (exists s :: s in db.seats && db.seats[s].event == queue.event && db.seats[s].category == queue.category
                    && db.seats[s].status.Available?)
  }

  /** After reconciling a queue it has a signal if it had one or is unserved; nothing else changes. */
  lemma ReconcileSignalsUnserved(db: Db, queue: Queue)
    ensures var d := ReconcileQueue(db, queue);
            && (queue in d.signals <==> queue in db.signals || Unserved(db, queue))
            && (forall q :: q != queue ==> (q in d.signals <==> q in db.signals))
            && d == db.(signals := d.signals)
  {
    var line, shelf := InLine(db, queue.event, queue.category), OnSale(db, queue.event, queue.category);
    if line != {} && shelf != {} {
      var e, s := Pick(line), Pick(shelf);
      assert e in line && s in shelf;
    }
    if Unserved(db, queue) {
      var e :| e in db.entries && db.entries[e].event == queue.event && db.entries[e].category == queue.category
               && db.entries[e].status.Waiting?;
      var s :| s in db.seats && db.seats[s].event == queue.event && db.seats[s].category == queue.category
               && db.seats[s].status.Available?;
      assert e in line && s in shelf;
    }
  }

  /** A signal is raised only for a seat the transaction put back on sale, or by reconciling an unserved queue. */
  lemma SignalsAreForFreedSeats(db: Db, step: Step, queue: Queue)
    requires Inv(db) && queue !in db.signals && queue in Apply(db, step).signals
    ensures (step == Reconcile(queue) && Unserved(db, queue))
            || exists s :: Freed(db, Apply(db, step), s) && Queue(db.seats[s].event, db.seats[s].category) == queue
  {
    hide Inv, CreateHold, Confirm, CancelBooking, EndHold, Pass, Accept, Issue, Verify, Freed;
    match step
    case Reserve(event, user, ids, ttl, newHold, now) => CreateHoldFreesNothing(db, event, user, ids, ttl, newHold, now);
    case ConfirmHold(user, event, hold, newBooking, now) => ConfirmFreesNothing(db, user, event, hold, newBooking, now);
    case CancelSale(user, booking) => CancelSignalsFor(db, user, booking, queue);
    case SweepHold(hold, now) => EndHoldSignalsFor(db, hold, HoldStatus.Expired, now, queue);
    case ReleaseHold(user, event, hold, now) => EndHoldSignalsFor(db, hold, HoldStatus.Cancelled, now, queue);
    case Allocate(q, draws, ttl, now) => if q in db.signals { PassSpendsItsSignal(db, q, draws, ttl, now); }
    case Reconcile(q) => ReconcileSignalsUnserved(db, q);
    case AcceptOffer(user, offer, newBooking, now) => AcceptFreesNothing(db, user, offer, newBooking, now);
    case IssueTickets(user, role, booking) => IssueNeverCommits(db, user, role, booking);
    case VerifyTicket(user, role, booking, seat) => VerifySameSignals(db, user, role, booking, seat);
    case _ =>
  }

  lemma VerifySameSignals(db: Db, user: UserId, role: Role, booking: BookingId, seat: SeatId)
    ensures Verify(db, user, role, booking, seat).db.signals == db.signals
  {
  }

  lemma CancelSignalsFor(db: Db, user: UserId, booking: BookingId, queue: Queue)
    requires Inv(db) && queue !in db.signals && queue in CancelBooking(db, user, booking).db.signals
    ensures exists s :: Freed(db, CancelBooking(db, user, booking).db, s) && Queue(db.seats[s].event, db.seats[s].category) == queue
  {
    hide CancelBooking, SeatsOk, WaitlistOk;
    CancelAnswers(db, user, booking);
    CancelRefusalRollsBack(db, user, booking);
    CancelUnsells(db, user, booking);
    ConfirmedOwnsItsSeats(db, booking);
    var d := CancelBooking(db, user, booking).db;
    var s :| s in db.bookings[booking].rows && s in db.seats && queue == Queue(db.seats[s].event, db.seats[s].category);
    assert Freed(db, d, s);
  }

  lemma EndHoldSignalsFor(db: Db, h: HoldId, status: HoldStatus, now: Instant, queue: Queue)
    requires Inv(db) && h in db.holds && db.holds[h].status.Active? && !status.Active?
    requires queue !in db.signals && queue in EndHold(db, h, status, now).db.signals
    ensures exists s :: Freed(db, EndHold(db, h, status, now).db, s) && Queue(db.seats[s].event, db.seats[s].category) == queue
  {
    hide EndHold;
    EndHoldSucceeds(db, h, status, now);
    EndHoldEnds(db, h, status, now);
  }
}
