/** What the customer-facing requests answer, each refusal explained by the facts it stands for. */
module Answers {
  import opened Rows
  import opened Schema
  import opened Transactions
  import opened Invariant
  import opened Allocation
  import opened Runs
  import opened Evolution
  import opened Verdicts

  // ------------------------------------------------------------- createHold

  /** Nobody can have the seat now: sold, or under an unexpired active hold. */
  predicate Gone(db: Db, s: SeatId, now: Instant) {
    SoldLive(db, s) || LiveHold(db, s, now)
  }

  lemma GoneIsTaken(db: Db, s: SeatId, now: Instant)
    requires Inv(db) && s in db.seats
    ensures SoldLive(db, s) <==> db.seats[s].status.Booked?
    ensures Gone(db, s, now) <==> Taken(db, s, now)
  {
    if SoldLive(db, s) {
      var b :| b in db.bookings && s in LiveRows(db.bookings[b]);
      assert BookingOk(db, db.bookings[b]);
      assert RowOk(db.bookings[b], db.bookings[b].rows[s], db.seats[s]);
    }
  }

  predicate OfEvent(db: Db, event: EventId, s: SeatId) {
    s in db.seats && db.seats[s].event == event
  }

  /** The facts a refusal of createHold tells, every check before it having passed. */
  ghost predicate RefusedFor(db: Db, event: EventId, user: UserId, ids: set<SeatId>, newHold: HoldId, now: Instant, error: Error) {
    var selected := ids != {} && |ids| <= 10;
    var known := selected && event in db.world.events && user in db.world.users;
    var placed := known && forall s :: s in ids ==> OfEvent(db, event, s);
    match error
    case InvalidSelection => !selected
    case EventNotFound => selected && event !in db.world.events
    case UserNotFound => selected && event in db.world.events && user !in db.world.users
    case SeatsOfOtherEvent(seats) =>
      known && seats != {} && forall s :: s in seats <==> s in ids && s in db.seats && db.seats[s].event != event
    case SeatsMissing(seats) =>
      && known && seats != {} && (forall s :: s in seats <==> s in ids && s !in db.seats)
      && forall s :: s in ids && s in db.seats ==> db.seats[s].event == event
    case SeatsUnavailable(reasons) =>
      && placed && reasons != map[]
      && (forall s :: s in reasons <==> s in ids && Gone(db, s, now))
      && (forall s :: s in reasons ==> reasons[s] == if SoldLive(db, s) then Booked else Held)
    case IdCollision => placed && newHold in db.holds && forall s :: s in ids ==> !Gone(db, s, now)
    case _ => false
  }

  /** Every refusal of createHold changes nothing and says why, seat by seat; everything else is granted. */
  lemma CreateHoldAnswers(db: Db, event: EventId, user: UserId, ids: set<SeatId>, ttl: int, newHold: HoldId, now: Instant)
    requires Inv(db)
    ensures var r := CreateHold(db, event, user, ids, ttl, newHold, now);
            match r.out
            case Fail(error) => r.db == db && RefusedFor(db, event, user, ids, newHold, now, error)
            case Ok(_) => forall error :: !RefusedFor(db, event, user, ids, newHold, now, error)
  {
    hide TakeSeats, Inv, LiveHold, SoldLive, Gone, Taken;
    HoldVerdictGrants(db, event, user, ids, newHold, now);
    forall s | s in ids && s in db.seats
      ensures (SoldLive(db, s) <==> db.seats[s].status.Booked?) && (Gone(db, s, now) <==> Taken(db, s, now))
    {
      GoneIsTaken(db, s, now);
    }
    var outside := SeatsOutside(db, event, ids);
    var taken := TakenAmong(db, ids, now);
    assert forall s :: s in outside <==> s in ids && !OfEvent(db, event, s);
    assert forall s :: s in taken <==> s in ids && s in db.seats && Gone(db, s, now);
    if HoldVerdict(db, event, user, ids, newHold, now).Ok? {
      forall error ensures !RefusedFor(db, event, user, ids, newHold, now, error) { GrantedIsNotRefused(db, event, user, ids, newHold, now, error); }
    } else if outside == {} {
      assert forall s :: s in ids ==> s !in outside;
    } else {
      var wrong := set s | s in outside && s in db.seats;
      assert forall s :: s in wrong <==> s in ids && s in db.seats && db.seats[s].event != event;
      if wrong == {} {
        assert forall s :: s in ids && s in db.seats ==> s !in wrong;
      }
    }
  }

  lemma GrantedIsNotRefused(db: Db, event: EventId, user: UserId, ids: set<SeatId>, newHold: HoldId, now: Instant, error: Error)
    requires ids != {} && |ids| <= 10 && event in db.world.events && user in db.world.users && newHold !in db.holds
    requires forall s :: s in ids ==> OfEvent(db, event, s) && !Gone(db, s, now)
    ensures !RefusedFor(db, event, user, ids, newHold, now, error)
  {
    hide Gone;
    match error
    case SeatsOfOtherEvent(seats) => EmptyIfNone(seats);
    case SeatsMissing(seats) => EmptyIfNone(seats);
    case SeatsUnavailable(reasons) => EmptyIfNone(reasons.Keys);
    case _ =>
  }

  lemma EmptyIfNone(seats: set<SeatId>)
    ensures (forall s :: s !in seats) ==> seats == {}
  {
    if seats != {} { var s := Pick(seats); }
  }

  // -------------------------------------------------------- joining and leaving

  predicate SellsCategory(db: Db, event: EventId, category: Category) {
    exists s :: s in db.seats && db.seats[s].event == event && db.seats[s].category == category
  }

  /** The user already waits in this line, or has an offer from it standing. */
  predicate AlreadyIn(db: Db, event: EventId, user: UserId, category: Category) {
    exists e :: e in db.entries && db.entries[e].event == event && db.entries[e].user == user && db.entries[e].category == category
                && (db.entries[e].status.Waiting? || db.entries[e].status.Offered?)
  }

  /**
   A join under a fresh id is accepted exactly for a published event that has seats
   of the category and a user not already in that line, and adds one waiting entry;
   each refusal names what was wrong and changes nothing.
   */
  lemma JoinVerdict(db: Db, event: EventId, user: UserId, category: Category, newEntry: EntryId, now: Instant)
    requires newEntry !in db.entries
    ensures var r := Join(db, event, user, category, newEntry, now);
            var joinable := event in db.world.events && db.world.events[event].published;
            && (r.out.Ok? <==> joinable && SellsCategory(db, event, category) && !AlreadyIn(db, event, user, category) && user in db.world.users)
            && (r.out.Ok? ==> r == Reply(db.(entries := db.entries[newEntry := Entry(event, user, category, Waiting, now)]), Ok(newEntry)))
            && (r.out.Fail? ==>
                  && r.db == db
                  && (r.out.error == EventNotFound <==> event !in db.world.events)
                  && (r.out.error == EventNotJoinable <==> event in db.world.events && !joinable)
                  && (r.out.error == CategoryNotFound <==> joinable && !SellsCategory(db, event, category))
                  && (r.out.error == AlreadyOnWaitlist <==> joinable && SellsCategory(db, event, category) && AlreadyIn(db, event, user, category)))
  {
    var wanted := Entry(event, user, category, Waiting, now);
    assert AlreadyIn(db, event, user, category) <==> exists e :: e in db.entries && Rivals(db.entries[e], wanted) by {
      if e :| e in db.entries && Rivals(db.entries[e], wanted) { assert AlreadyIn(db, event, user, category); }
      if AlreadyIn(db, event, user, category) {
        var e :| e in db.entries && db.entries[e].event == event && db.entries[e].user == user && db.entries[e].category == category
                 && (db.entries[e].status.Waiting? || db.entries[e].status.Offered?);
        assert Rivals(db.entries[e], wanted);
      }
    }
  }

  /**
   Leaving succeeds exactly for the caller's own entry while it waits, and cancels
   that entry and nothing else; a stranger is told there is no such entry.
   */
  lemma LeaveVerdict(db: Db, user: UserId, entry: EntryId)
    ensures var r := Leave(db, user, entry);
            var own := entry in db.entries && db.entries[entry].user == user;
            && (r.out.Ok? <==> own && db.entries[entry].status.Waiting?)
            && (r.out.Ok? ==>
                  && r.out == Ok(entry)
                  && r.db == db.(entries := db.entries[entry := db.entries[entry].(status := EntryStatus.Cancelled)]))
            && (r.out.Fail? ==> r == Reply(db, Fail(if own then EntryNotWaiting else EntryNotFound)))
  {
    var r := Leave(db, user, entry);
    if r.out.Ok? {
      assert r.db.entries == db.entries[entry := db.entries[entry].(status := EntryStatus.Cancelled)];
    }
  }

  /** Cancelled in `d` and not in `db`. */
  predicate TurnsCancelled(db: Db, d: Db, e: EntryId) {
    e in d.entries && d.entries[e].status.Cancelled? && !(e in db.entries && db.entries[e].status.Cancelled?)
  }

  /** Entries are left as they are, or are waiting or offered before and not cancelled after. */
  ghost predicate CancelsNone(db: Db, d: Db) {
    forall e :: !TurnsCancelled(db, d, e)
  }

  lemma CancelsNoneTrans(a: Db, b: Db, c: Db)
    requires CancelsNone(a, b) && CancelsNone(b, c)
    ensures CancelsNone(a, c)
  {
    forall e ensures !TurnsCancelled(a, c, e) { assert !TurnsCancelled(a, b, e) && !TurnsCancelled(b, c, e); }
  }

  lemma {:induction false} PassCancelsNone(db: Db, event: EventId, category: Category, draws: seq<Draw>, ttl: int, now: Instant)
    ensures CancelsNone(db, Pass(db, event, category, draws, ttl, now).db)
    decreases |draws|
  {
    hide OfferSeat, AfterOffer, CancelsNone;
    assert CancelsNone(db, db) by { CancelsNoneRefl(db); }
    if draws != [] {
      var next := NextWaiting(db, event, category, draws[0].locked);
      if next.Some? && draws[0].seat.Some? {
        match OfferSeat(db, next.value, draws[0].seat.value, ttl, draws[0].newHold, draws[0].newOffer, now)
        case Aborted(_) =>
        case Raced => PassCancelsNone(db, event, category, draws[1..], ttl, now);
        case Paired(d) =>
          OfferSeatPaired(db, next.value, draws[0].seat.value, ttl, draws[0].newHold, draws[0].newOffer, now);
          OfferCancelsNone(db, next.value, draws[0].seat.value, draws[0].newHold, draws[0].newOffer, ExpiryAt(now, ttl), now);
          PassCancelsNone(d, event, category, draws[1..], ttl, now);
          CancelsNoneTrans(db, d, Pass(d, event, category, draws[1..], ttl, now).db);
      }
    }
  }

  lemma CancelsNoneRefl(db: Db)
    ensures CancelsNone(db, db)
  {
  }

  lemma OfferCancelsNone(db: Db, entry: EntryId, seat: SeatId, newHold: HoldId, newOffer: OfferId, expiresAt: Instant, now: Instant)
    requires entry in db.entries
    ensures CancelsNone(db, AfterOffer(db, entry, seat, newHold, newOffer, expiresAt, now))
  {
    hide TakeSeats;
  }

  lemma SameEntriesCancelNone(db: Db, d: Db)
    requires d.entries == db.entries
    ensures CancelsNone(db, d)
  {
  }

  lemma CreateHoldSameEntries(db: Db, event: EventId, user: UserId, ids: set<SeatId>, ttl: int, newHold: HoldId, now: Instant)
    ensures CreateHold(db, event, user, ids, ttl, newHold, now).db.entries == db.entries
  {
    hide HoldVerdict;
  }

  lemma ConfirmSameEntries(db: Db, user: UserId, event: EventId, hold: HoldId, newBooking: BookingId, now: Instant)
    ensures Confirm(db, user, event, hold, newBooking, now).db.entries == db.entries
  {
  }

  lemma CancelSameEntries(db: Db, user: UserId, booking: BookingId)
    ensures CancelBooking(db, user, booking).db.entries == db.entries
  {
  }

  lemma VerifySameEntries(db: Db, user: UserId, role: Role, booking: BookingId, seat: SeatId)
    ensures Verify(db, user, role, booking, seat).db.entries == db.entries
  {
  }

  lemma EndCancelsNone(db: Db, h: HoldId, status: HoldStatus, now: Instant)
    requires Inv(db) && h in db.holds && db.holds[h].status.Active? && !status.Active?
    ensures CancelsNone(db, EndHold(db, h, status, now).db)
  {
    hide EndHold;
    EndHoldEnds(db, h, status, now);
  }

  lemma AcceptCancelsNone(db: Db, user: UserId, offer: OfferId, newBooking: BookingId, now: Instant)
    requires Inv(db)
    ensures CancelsNone(db, Accept(db, user, offer, newBooking, now).db)
  {
    hide Inv, Confirm, Confirmable;
    AcceptAnswers(db, user, offer, newBooking, now);
    if Acceptable(db, user, offer, newBooking, now) {
      ConfirmSameEntries(db, user, db.holds[db.offers[offer].hold].event, db.offers[offer].hold, newBooking, now);
    }
  }

  lemma AllocateCancelsNone(db: Db, queue: Queue, draws: seq<Draw>, ttl: int, now: Instant)
    ensures CancelsNone(db, AllocateSignal(db, queue, draws, ttl, now))
  {
    hide Pass;
    var tried := if |draws| <= MAX_PAIRINGS_PER_PASS then draws else draws[..MAX_PAIRINGS_PER_PASS];
    PassCancelsNone(db, queue.event, queue.category, tried, ttl, now);
    forall e ensures !TurnsCancelled(db, AllocateSignal(db, queue, draws, ttl, now), e) {
      assert !TurnsCancelled(db, RunPass(db, queue.event, queue.category, draws, ttl, now).db, e);
    }
  }

  /** One transaction cancels an entry only as its own user's leaving. */
  lemma ApplyCancels(db: Db, step: Step, e: EntryId)
    requires Inv(db) && TurnsCancelled(db, Apply(db, step), e)
    ensures e in db.entries && db.entries[e].status.Waiting? && step == LeaveLine(db.entries[e].user, e)
  {
    hide Inv, CreateHold, Confirm, CancelBooking, EndHold, Pass, Accept, Issue, Verify;
    match step
    case Reserve(event, user, ids, ttl, newHold, now) => CreateHoldSameEntries(db, event, user, ids, ttl, newHold, now);
    case ConfirmHold(user, event, hold, newBooking, now) => ConfirmSameEntries(db, user, event, hold, newBooking, now);
    case CancelSale(user, booking) => CancelSameEntries(db, user, booking);
    case SweepHold(hold, now) =>
      if hold in db.holds && db.holds[hold].status.Active? { EndCancelsNone(db, hold, HoldStatus.Expired, now); }
    case ReleaseHold(user, event, hold, now) =>
      if hold in db.holds && db.holds[hold].status.Active? { EndCancelsNone(db, hold, HoldStatus.Cancelled, now); }
    case LeaveLine(user, entry) => LeaveVerdict(db, user, entry);
    case Allocate(queue, draws, ttl, now) =>
      AllocateCancelsNone(db, queue, draws, ttl, now);
    case AcceptOffer(user, offer, newBooking, now) => AcceptCancelsNone(db, user, offer, newBooking, now);
    case IssueTickets(user, role, booking) => IssueNeverCommits(db, user, role, booking);
    case VerifyTicket(user, role, booking, seat) => VerifySameEntries(db, user, role, booking, seat);
    case _ =>
  }

  /** Over any run an entry becomes cancelled only because its own user left while it was waiting. */
  lemma {:induction false} CancelledByItsUser(db: Db, steps: seq<Step>, e: EntryId) returns (i: nat)
    requires Inv(db) && TurnsCancelled(db, Run(db, steps), e)
    ensures i < |steps|
    ensures var here := Run(db, steps[..i]);
            e in here.entries && here.entries[e].status.Waiting? && steps[i] == LeaveLine(here.entries[e].user, e)
    decreases |steps|
  {
    hide Inv, Apply;
    var d := Apply(db, steps[0]);
    if TurnsCancelled(db, d, e) {
      ApplyCancels(db, steps[0], e);
      i := 0;
    } else {
      ApplyInv(db, steps[0]);
      var j := CancelledByItsUser(d, steps[1..], e);
      i := j + 1;
      assert steps[..i][0] == steps[0] && steps[..i][1..] == steps[1..][..j];
    }
  }

  // --------------------------------------------------- releasing and verifying

  /** A refused release says whether the hold is none of the caller's or no longer active. */
  lemma CancelHoldAnswers(db: Db, user: UserId, event: EventId, hold: HoldId, now: Instant)
    requires Inv(db)
    ensures var r := CancelHold(db, user, event, hold, now);
            var own := hold in db.holds && db.holds[hold].user == user && db.holds[hold].event == event;
            && (r.out == Fail(HoldNotFound) <==> !own)
            && (r.out == Fail(HoldNotActive) <==> own && !db.holds[hold].status.Active?)
  {
    hide Inv, EndHold;
    if hold in db.holds && db.holds[hold].status.Active? { CancelHoldVerdict(db, user, event, hold, now); }
  }

  /**
   A refused scan says why: no such ticket for this scanner - a ticket of somebody
   else's event reads the same as none - a cancelled booking, or a ticket used.
   */
  lemma VerifyAnswers(db: Db, user: UserId, role: Role, booking: BookingId, seat: SeatId)
    requires Inv(db)
    ensures var out := Verify(db, user, role, booking, seat).out;
            var theirs := booking in db.bookings && seat in db.bookings[booking].rows
                          && (role.Admin? || db.world.events[db.bookings[booking].event].organiser == user);
            && (out == Fail(TicketNotFound) <==> !theirs)
            && (out == Fail(BookingIsCancelled) <==> theirs && db.bookings[booking].status.Cancelled?)
            && (out == Fail(TicketAlreadyUsed) <==> theirs && db.bookings[booking].status.Confirmed? && db.bookings[booking].tickets[seat].Used?)
            && (out.Ok? ==> out == Ok(seat))
  {
    if booking in db.bookings {
      assert BookingOk(db, db.bookings[booking]);
      assert HoldOk(db, db.holds[db.bookings[booking].hold]);
      if seat in db.bookings[booking].tickets {
        assert TicketOk(db.bookings[booking], db.bookings[booking].tickets[seat]);
      }
    }
  }

  /** Asking for tickets by hand: the owner, the organiser and an admin are told they are cut or the booking is cancelled, others nothing. */
  lemma IssueAnswers(db: Db, user: UserId, role: Role, booking: BookingId)
    requires Inv(db)
    ensures var out := Issue(db, user, role, booking).out;
            var allowed := booking in db.bookings
                           && (db.bookings[booking].user == user || role.Admin?
                               || (role.Organiser? && db.world.events[db.bookings[booking].event].organiser == user));
            && (out == Fail(BookingNotFound) <==> !allowed)
            && (out == Fail(BookingIsCancelled) <==> allowed && db.bookings[booking].status.Cancelled?)
            && (out == Fail(TicketsAlreadyIssued) <==> allowed && db.bookings[booking].status.Confirmed?)
  {
    IssueNeverCommits(db, user, role, booking);
    if booking in db.bookings {
      assert BookingOk(db, db.bookings[booking]);
      assert HoldOk(db, db.holds[db.bookings[booking].hold]);
    }
  }
}
