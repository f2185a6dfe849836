/**
 The tables the seat-inventory transactions share, as values.

 A row set is a map from its key to the row. Identifiers are integers: the
 database compares uuids by a total order and nothing else is used of them.
 Instants are integers on the database's clock and money is in minor units.
 */
module Schema {

  type EventId = int
  type UserId = int
  type SeatId = int
  type Category = int
  type HoldId = int
  type BookingId = int
  type EntryId = int
  type OfferId = int
  type Instant = int

  /** The line of one event and seat category. */
  datatype Queue = Queue(event: EventId, category: Category)

  datatype Event = Event(published: bool, organiser: UserId)

  /** Events and users, which no transaction here changes. */
  datatype World = World(events: map<EventId, Event>, users: set<UserId>)

  datatype SeatStatus = Available | Held | Booked
  datatype Seat = Seat(event: EventId, category: Category, price: nat, status: SeatStatus, version: nat)

  /** One row of seat_status_outbox. */
  datatype SeatEventType = SeatHeld | SeatReleased | SeatBooked
  datatype SeatEvent = SeatEvent(event: EventId, seat: SeatId, status: SeatStatus, kind: SeatEventType, version: nat)

  datatype HoldStatus = Active | Expired | Converted | Cancelled
  datatype Hold = Hold(event: EventId, user: UserId, status: HoldStatus, expiresAt: Instant, seats: set<SeatId>)

  datatype BookingStatus = Confirmed | Cancelled
  datatype SoldSeat = SoldSeat(price: nat, cancelled: bool)
  datatype TicketStatus = Issued | Used | Void

  /** A booking with its booking_seats rows and their tickets, each keyed by the seat sold. */
  datatype Booking = Booking(
    user: UserId, event: EventId, hold: HoldId, status: BookingStatus, total: nat,
    rows: map<SeatId, SoldSeat>, tickets: map<SeatId, TicketStatus>)

  datatype EntryStatus = Waiting | Offered | Accepted | Expired | Cancelled
  datatype Entry = Entry(event: EventId, user: UserId, category: Category, status: EntryStatus, joinedAt: Instant)

  datatype OfferStatus = Offered | Accepted | Expired
  datatype Offer = Offer(entry: EntryId, seat: SeatId, hold: HoldId, expiresAt: Instant, status: OfferStatus)

  /**
   The whole inventory. A row that belongs to a parent row is stored with it: a
   hold carries its reservation_hold_seats, a booking its booking_seats and
   tickets. `outbox` is seat_status_outbox with its rows grouped by
   seat, in the order the trigger wrote them; `signals` is the set of pending
   rows of waitlist_allocation_outbox.
   */
  datatype Db = Db(
    world: World,
    seats: map<SeatId, Seat>,
    outbox: map<SeatId, seq<SeatEvent>>,
    holds: map<HoldId, Hold>,
    bookings: map<BookingId, Booking>,
    entries: map<EntryId, Entry>,
    offers: map<OfferId, Offer>,
    signals: set<Queue>)

  /** Why a transaction refused, and so rolled back. */
  datatype Error =
    | InvalidSelection
    | EventNotFound
    | UserNotFound
    | SeatsOfOtherEvent(seats: set<SeatId>)
    | SeatsMissing(seats: set<SeatId>)
    | SeatsUnavailable(reasons: map<SeatId, SeatStatus>)
    | HoldNotFound
    | HoldNotActive
    | HoldAlreadyConfirmed
    | HoldExpired
    | HoldInvalid
    | ConfirmationConflict
    | AmountOverflow
    | BookingNotFound
    | BookingAlreadyCancelled
    | BookingHasUsedTickets
    | BookingIsCancelled
    | BookingHasNoSeats
    | CancellationConflict
    | EventNotJoinable
    | CategoryNotFound
    | AlreadyOnWaitlist
    | EntryNotFound
    | EntryNotWaiting
    | OfferNotFound
    | OfferExpired
    | OfferAlreadyAccepted
    | TicketsAlreadyIssued
    | TicketNotFound
    | TicketAlreadyUsed
    | TicketVoid
    | IdCollision
    | LiveOfferForSeat
    | UnknownUser
    | Internal(what: string)

  datatype Outcome<+T> = Ok(value: T) | Fail(error: Error)

  /** What a transaction leaves behind and what it answers. */
  datatype Reply<+T> = Reply(db: Db, out: Outcome<T>)

  // ------------------------------------------------------------------ seats

  function KindOf(status: SeatStatus): SeatEventType {
    match status
    case Held => SeatHeld
    case Booked => SeatBooked
    case Available => SeatReleased
  }

  /** The BEFORE UPDATE trigger's effect on the row it is fired for. */
  function Fire(seat: Seat, status: SeatStatus): Seat {
    if seat.status == status then seat
    else seat.(status := status, version := seat.version + 1)
  }

  /** The outbox rows the same firing of the trigger inserts. */
  function Emit(id: SeatId, seat: Seat, status: SeatStatus): seq<SeatEvent> {
    if seat.status == status then []
    else [SeatEvent(seat.event, id, status, KindOf(status), seat.version + 1)]
  }

  /** `UPDATE show_seats SET status = ... WHERE id = ANY(targets)`, with its trigger. */
  function SetStatus(db: Db, targets: set<SeatId>, status: SeatStatus): Db {
    db.(seats := map s | s in db.seats :: if s in targets then Fire(db.seats[s], status) else db.seats[s],
        outbox := map s | s in db.outbox ::
                    if s in targets && s in db.seats
                    then db.outbox[s] + Emit(s, db.seats[s], status)
                    else db.outbox[s])
  }

  /** The ids among `ids` whose seat currently has this status. */
  function WithStatus(db: Db, ids: set<SeatId>, status: SeatStatus): set<SeatId> {
    set s | s in ids && s in db.seats && db.seats[s].status == status
  }

  // ------------------------------------------------------------------ holds

  /** An unexpired active hold covers the seat. */
  predicate LiveHold(db: Db, s: SeatId, now: Instant) {
    exists h :: h in db.holds && db.holds[h].status.Active? && db.holds[h].expiresAt > now && s in db.holds[h].seats
  }

  /** `UPDATE reservation_holds SET status = ... WHERE id IN (hs)`. */
  function SetHolds(db: Db, hs: set<HoldId>, status: HoldStatus): Db {
    db.(holds := map h | h in db.holds :: if h in hs then db.holds[h].(status := status) else db.holds[h])
  }

  predicate Disjoint(a: set<SeatId>, b: set<SeatId>) {
    forall s :: s in a ==> s !in b
  }

  /** Active holds whose time is up and that cover one of these seats. */
  function LapsedOver(db: Db, ids: set<SeatId>, now: Instant): set<HoldId> {
    set h | h in db.holds && db.holds[h].status.Active? && db.holds[h].expiresAt <= now && !Disjoint(db.holds[h].seats, ids)
  }

  /** The seats among `ids` flagged held that no unexpired active hold covers. */
  function Orphaned(db: Db, ids: set<SeatId>, now: Instant): set<SeatId> {
    set s | s in ids && s in db.seats && db.seats[s].status.Held? && !LiveHold(db, s, now)
  }
}
