/** Runs: any transactions, in any order, each on its own clock; what every run keeps. */
module Runs {
  import opened Schema
  import opened Transactions
  import opened Invariant
  import opened Allocation

  /**
   One committed or refused transaction. Every step that reads the clock carries
   its own `now`: transaction start times need not follow commit order. The last
   ids of a step are the uuids drawn for the rows it may insert.
   */
  datatype Step =
    | Reserve(event: EventId, user: UserId, ids: set<SeatId>, ttl: int, newHold: HoldId, now: Instant)
    | ConfirmHold(user: UserId, event: EventId, hold: HoldId, newBooking: BookingId, now: Instant)
    | CancelSale(user: UserId, booking: BookingId)
    | SweepHold(hold: HoldId, now: Instant)
    | ReleaseHold(user: UserId, event: EventId, hold: HoldId, now: Instant)
    | JoinLine(event: EventId, user: UserId, category: Category, newEntry: EntryId, now: Instant)
    | LeaveLine(user: UserId, entry: EntryId)
    | Allocate(queue: Queue, draws: seq<Draw>, ttl: int, now: Instant)
    | Reconcile(queue: Queue)
    | AcceptOffer(user: UserId, offer: OfferId, newBooking: BookingId, now: Instant)
    | IssueTickets(user: UserId, role: Role, booking: BookingId)
    | VerifyTicket(user: UserId, role: Role, booking: BookingId, seat: SeatId)

  /** A claimed signal runs one pass; the signal is spent unless the pass aborted. Offers made before an abort stand. */
  ghost function AllocateSignal(db: Db, queue: Queue, draws: seq<Draw>, ttl: int, now: Instant): Db {
    if queue !in db.signals then db
    else
      var r := RunPass(db, queue.event, queue.category, draws, ttl, now);
      if r.abort.None? then r.db.(signals := r.db.signals - {queue}) else r.db
  }

  /** Somebody waits, a seat is on sale, and no signal says so. */
  predicate Gap(db: Db, queue: Queue) {
    InLine(db, queue.event, queue.category) != {} && OnSale(db, queue.event, queue.category) != {} && queue !in db.signals
  }

  function ReconcileQueue(db: Db, queue: Queue): Db {
    if Gap(db, queue) then db.(signals := db.signals + {queue}) else db
  }

  ghost function Apply(db: Db, step: Step): Db {
    match step
    case Reserve(event, user, ids, ttl, newHold, now) => CreateHold(db, event, user, ids, ttl, newHold, now).db
    case ConfirmHold(user, event, hold, newBooking, now) => Confirm(db, user, event, hold, newBooking, now).db
    case CancelSale(user, booking) => CancelBooking(db, user, booking).db
    case SweepHold(hold, now) => ExpireHold(db, hold, now).db
    case ReleaseHold(user, event, hold, now) => CancelHold(db, user, event, hold, now).db
    case JoinLine(event, user, category, newEntry, now) => Join(db, event, user, category, newEntry, now).db
    case LeaveLine(user, entry) => Leave(db, user, entry).db
    case Allocate(queue, draws, ttl, now) => AllocateSignal(db, queue, draws, ttl, now)
    case Reconcile(queue) => ReconcileQueue(db, queue)
    case AcceptOffer(user, offer, newBooking, now) => Accept(db, user, offer, newBooking, now).db
    case IssueTickets(user, role, booking) => Issue(db, user, role, booking).db
    case VerifyTicket(user, role, booking, seat) => Verify(db, user, role, booking, seat).db
  }

  ghost function Run(db: Db, steps: seq<Step>): Db
    decreases |steps|
  {
    if steps == [] then db else Run(Apply(db, steps[0]), steps[1..])
  }

  // ------------------------------------------------------------- the invariant

  lemma CreateHoldInv(db: Db, event: EventId, user: UserId, ids: set<SeatId>, ttl: int, newHold: HoldId, now: Instant)
    requires Inv(db)
    ensures Inv(CreateHold(db, event, user, ids, ttl, newHold, now).db)
  {
    hide TakeSeats, Inv, Grantable, HoldVerdict;
    HoldVerdictGrants(db, event, user, ids, newHold, now);
    if HoldVerdict(db, event, user, ids, newHold, now).Ok? {
      TakeSeatsInv(db, event, user, ids, ExpiryAt(now, ttl), newHold, now);
    }
  }

  lemma ConfirmRefusalRollsBack(db: Db, user: UserId, event: EventId, hold: HoldId, newBooking: BookingId, now: Instant)
    ensures Confirm(db, user, event, hold, newBooking, now).out.Fail? ==> Confirm(db, user, event, hold, newBooking, now).db == db
  {
  }

  lemma CancelRefusalRollsBack(db: Db, user: UserId, booking: BookingId)
    ensures CancelBooking(db, user, booking).out.Fail? ==> CancelBooking(db, user, booking).db == db
  {
  }

  lemma EndHoldRollsBack(db: Db, h: HoldId, status: HoldStatus, now: Instant)
    requires h in db.holds
    ensures EndHold(db, h, status, now).out.Fail? ==> EndHold(db, h, status, now).db == db
  {
  }

  lemma ConfirmStepInv(db: Db, user: UserId, event: EventId, hold: HoldId, newBooking: BookingId, now: Instant)
    requires Inv(db)
    ensures Inv(Confirm(db, user, event, hold, newBooking, now).db)
  {
    hide Confirm, Inv;
    ConfirmRefusalRollsBack(db, user, event, hold, newBooking, now);
    ConfirmAnswers(db, user, event, hold, newBooking, now);
    if Confirmable(db, user, event, hold, newBooking, now) {
      ConfirmInv(db, user, event, hold, newBooking, now);
    }
  }

  lemma CancelStepInv(db: Db, user: UserId, booking: BookingId)
    requires Inv(db)
    ensures Inv(CancelBooking(db, user, booking).db)
  {
    CancelAnswers(db, user, booking);
    if Cancellable(db, user, booking) {
      CancelInv(db, user, booking);
    }
  }

  lemma ExpireHoldInv(db: Db, hold: HoldId, now: Instant)
    requires Inv(db)
    ensures Inv(ExpireHold(db, hold, now).db)
  {
    hide EndHold, Inv;
    if hold in db.holds && db.holds[hold].status.Active? {
      EndHoldInv(db, hold, HoldStatus.Expired, now);
    }
  }

  lemma CancelHoldInv(db: Db, user: UserId, event: EventId, hold: HoldId, now: Instant)
    requires Inv(db)
    ensures Inv(CancelHold(db, user, event, hold, now).db)
  {
    hide EndHold, Inv;
    if hold in db.holds && db.holds[hold].status.Active? {
      EndHoldInv(db, hold, HoldStatus.Cancelled, now);
    }
  }

  lemma SignalsInv(db: Db, signals: set<Queue>)
    requires Inv(db)
    ensures Inv(db.(signals := signals))
  {
    SameSales(db, db.(signals := signals));
    SameWaitlist(db, db.(signals := signals));
  }

  lemma AllocateInv(db: Db, queue: Queue, draws: seq<Draw>, ttl: int, now: Instant)
    requires Inv(db)
    ensures Inv(AllocateSignal(db, queue, draws, ttl, now))
  {
    hide Pass, Inv;
    var tried := if |draws| <= MAX_PAIRINGS_PER_PASS then draws else draws[..MAX_PAIRINGS_PER_PASS];
    PassInv(db, queue.event, queue.category, tried, ttl, now);
    var r := RunPass(db, queue.event, queue.category, draws, ttl, now);
    SignalsInv(r.db, r.db.signals - {queue});
  }

  lemma AcceptStepInv(db: Db, user: UserId, offer: OfferId, newBooking: BookingId, now: Instant)
    requires Inv(db)
    ensures Inv(Accept(db, user, offer, newBooking, now).db)
  {
    hide Confirm, Inv;
    AcceptAnswers(db, user, offer, newBooking, now);
    if Acceptable(db, user, offer, newBooking, now) {
      AcceptInv(db, user, offer, newBooking, now);
    }
  }

  lemma ApplyInv(db: Db, step: Step)
    requires Inv(db)
    ensures Inv(Apply(db, step))
  {
    hide Inv, CreateHold, Confirm, CancelBooking, ExpireHold, CancelHold, Join, Leave, AllocateSignal, Accept, Issue, Verify;
    match step
    case Reserve(event, user, ids, ttl, newHold, now) => CreateHoldInv(db, event, user, ids, ttl, newHold, now);
    case ConfirmHold(user, event, hold, newBooking, now) => ConfirmStepInv(db, user, event, hold, newBooking, now);
    case CancelSale(user, booking) => CancelStepInv(db, user, booking);
    case SweepHold(hold, now) => ExpireHoldInv(db, hold, now);
    case ReleaseHold(user, event, hold, now) => CancelHoldInv(db, user, event, hold, now);
    case JoinLine(event, user, category, newEntry, now) => JoinInv(db, event, user, category, newEntry, now);
    case LeaveLine(user, entry) => LeaveInv(db, user, entry);
    case Allocate(queue, draws, ttl, now) => AllocateInv(db, queue, draws, ttl, now);
    case Reconcile(queue) => SignalsInv(db, db.signals + {queue});
    case AcceptOffer(user, offer, newBooking, now) => AcceptStepInv(db, user, offer, newBooking, now);
    case IssueTickets(user, role, booking) => IssueNeverCommits(db, user, role, booking);
    case VerifyTicket(user, role, booking, seat) => VerifyInv(db, user, role, booking, seat);
  }

  /** Every state any run reaches is consistent. */
  lemma {:induction false} RunInv(db: Db, steps: seq<Step>)
    requires Inv(db)
    ensures Inv(Run(db, steps))
    decreases |steps|
  {
    hide Inv, Apply;
    if steps != [] {
      ApplyInv(db, steps[0]);
      RunInv(Apply(db, steps[0]), steps[1..]);
    }
  }
}
