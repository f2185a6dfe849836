/**
 What each transaction does to the inventory, stated once as a function.

 Every function answers with the new tables and the outcome; a refusal carries
 the tables it was given, which is what ROLLBACK leaves. `now` is the
 transaction's own `now()`, and the trailing ids are the uuids the database
 draws for the rows it inserts.
 */
module Transactions {
  import opened Schema
  import opened Sums
  import opened Wrappers

  const MAX_SEATS_PER_HOLD := 10

  /** The largest value of NUMERIC(12,2), in minor units. */
  const MAX_AMOUNT := 999_999_999_999

  // ------------------------------------------------------------- createHold

  /** Seats no request may take at `now`: sold, or under a hold that is still live. */
  predicate Taken(db: Db, s: SeatId, now: Instant)
    requires s in db.seats
  {
    db.seats[s].status.Booked? || LiveHold(db, s, now)
  }

  /** `now() + make_interval(secs => ttl)`: expiry is always on the database's clock. */
  function ExpiryAt(now: Instant, ttl: int): Instant {
    now + ttl
  }

  function TakenAmong(db: Db, ids: set<SeatId>, now: Instant): map<SeatId, SeatStatus> {
    map s | s in ids && s in db.seats && Taken(db, s, now) :: if db.seats[s].status.Booked? then Booked else Held
  }

  function SeatsOutside(db: Db, event: EventId, ids: set<SeatId>): set<SeatId> {
    set s | s in ids && !(s in db.seats && db.seats[s].event == event)
  }

  /** Lapsed holds over the seats expire whole; only the requested seats change hands. */
  function TakeSeats(db: Db, event: EventId, user: UserId, ids: set<SeatId>, expiresAt: Instant,
                     newHold: HoldId, now: Instant): Db
  {
    var freed := SetStatus(SetHolds(db, LapsedOver(db, ids, now), HoldStatus.Expired),
                           Orphaned(db, ids, now), Available);
    SetStatus(freed.(holds := freed.holds[newHold := Hold(event, user, Active, expiresAt, ids)]), ids, Held)
  }

  function HoldVerdict(db: Db, event: EventId, user: UserId, ids: set<SeatId>, newHold: HoldId, now: Instant): Outcome<HoldId> {
    var outside := SeatsOutside(db, event, ids);
    var taken := TakenAmong(db, ids, now);
    if ids == {} || |ids| > MAX_SEATS_PER_HOLD then Fail(InvalidSelection)
    else if event !in db.world.events then Fail(EventNotFound)
    else if user !in db.world.users then Fail(UserNotFound)
    else if outside != {} then
      var wrongEvent := set s | s in outside && s in db.seats;
      Fail(if wrongEvent != {} then SeatsOfOtherEvent(wrongEvent) else SeatsMissing(outside))
    else if taken != map[] then Fail(SeatsUnavailable(taken))
    else if newHold in db.holds then Fail(IdCollision)
    else Ok(newHold)
  }

  function CreateHold(db: Db, event: EventId, user: UserId, ids: set<SeatId>, ttl: int,
                      newHold: HoldId, now: Instant): Reply<HoldId>
  {
    match HoldVerdict(db, event, user, ids, newHold, now)
    case Ok(h) => Reply(TakeSeats(db, event, user, ids, ExpiryAt(now, ttl), newHold, now), Ok(h))
    case Fail(error) => Reply(db, Fail(error))
  }

  // ---------------------------------------------------------------- tickets

  /** The seats a booking still owns: its rows no cancellation has retired. */
  function LiveRows(booking: Booking): set<SeatId> {
    set s | s in booking.rows && !booking.rows[s].cancelled
  }

  /** One ticket per live row, unless the booking has tickets already; answers whether any were created. */
  function EnsureTickets(booking: Booking): Outcome<(Booking, bool)> {
    if booking.tickets != map[] then Ok((booking, false))
    else if LiveRows(booking) == {} then Fail(BookingHasNoSeats)
    else Ok((booking.(tickets := map s | s in LiveRows(booking) :: Issued), true))
  }

  // ---------------------------------------------------------------- confirm

  function PricesOf(db: Db, ids: set<SeatId>): map<SeatId, nat> {
    map s | s in ids && s in db.seats :: db.seats[s].price
  }

  predicate BookedFrom(db: Db, hold: HoldId) {
    exists b :: b in db.bookings && db.bookings[b].hold == hold
  }

  /** Some booking's live row names the seat. */
  predicate SoldLive(db: Db, s: SeatId) {
    exists b :: b in db.bookings && s in LiveRows(db.bookings[b])
  }

  /** One live row a seat, at the price the seat has now. */
  function SoldRows(db: Db, ids: set<SeatId>): map<SeatId, SoldSeat> {
    map s | s in ids && s in db.seats :: SoldSeat(db.seats[s].price, false)
  }

  function RowPrices(booking: Booking): map<SeatId, nat> {
    map s | s in booking.rows :: booking.rows[s].price
  }

  ghost function Confirm(db: Db, user: UserId, event: EventId, hold: HoldId,
                         newBooking: BookingId, now: Instant): Reply<BookingId>
  {
    if !(hold in db.holds && db.holds[hold].user == user && db.holds[hold].event == event) then
      Reply(db, Fail(HoldNotFound))
    else
      var h := db.holds[hold];
      if h.status.Converted? then Reply(db, Fail(HoldAlreadyConfirmed))
      else if h.status.Expired? || h.expiresAt <= now then Reply(db, Fail(HoldExpired))
      else if !h.status.Active? then Reply(db, Fail(HoldInvalid))
      else
        var ids := set s | s in h.seats && s in db.seats;
        var total := Sum(PricesOf(db, ids));
        if ids == {} || WithStatus(db, ids, Held) != ids then Reply(db, Fail(ConfirmationConflict))
        else if event !in db.world.events then Reply(db, Fail(Internal("booking insert returned no row")))
        else if BookedFrom(db, hold) then Reply(db, Fail(HoldAlreadyConfirmed))
        else if newBooking in db.bookings then Reply(db, Fail(IdCollision))
        else if exists s :: s in ids && SoldLive(db, s) then Reply(db, Fail(Internal("live booking seat exists")))
        else if total > MAX_AMOUNT then Reply(db, Fail(AmountOverflow))
        else
          match EnsureTickets(Booking(user, event, hold, Confirmed, total, SoldRows(db, ids), map[]))
          case Fail(error) => Reply(db, Fail(error))
          case Ok((booking, _)) =>
            Reply(SetHolds(SetStatus(db, ids, Booked), {hold}, Converted).(bookings := db.bookings[newBooking := booking]),
                  Ok(newBooking))
  }

  // ---------------------------------------------------------- cancelBooking

  /** The signals `enqueueWaitlistAllocationForSeats` leaves pending for these seats. */
  function AddSignals(db: Db, ids: set<SeatId>): Db {
    db.(signals := db.signals + set s | s in ids && s in db.seats :: Queue(db.seats[s].event, db.seats[s].category))
  }

  /** The booking cancelled: its live rows retired, their prices and its total left as they were. */
  function Retire(booking: Booking): Booking {
    booking.(status := BookingStatus.Cancelled, rows := map s | s in booking.rows :: booking.rows[s].(cancelled := true))
  }

  function CancelBooking(db: Db, user: UserId, booking: BookingId): Reply<nat> {
    if !(booking in db.bookings && db.bookings[booking].user == user) then Reply(db, Fail(BookingNotFound))
    else
      var b := db.bookings[booking];
      if b.status.Cancelled? then Reply(db, Fail(BookingAlreadyCancelled))
      else if exists s :: s in b.tickets && b.tickets[s].Used? then Reply(db, Fail(BookingHasUsedTickets))
      else
        var ids := set s | s in LiveRows(b) && s in db.seats;
        if ids == {} || WithStatus(db, ids, Booked) != ids then Reply(db, Fail(CancellationConflict))
        else if |LiveRows(b)| != |ids| then Reply(db, Fail(Internal("booking seat rows missing")))
        else
          Reply(AddSignals(SetStatus(db, ids, Available), ids).(bookings := db.bookings[booking := Retire(b)]), Ok(|ids|))
  }

  // ------------------------------------------------- expireHold, cancelHold

  /** Live offers backed by this hold; `waitlist_offers_hold_id_key` allows at most one. */
  function OffersBehind(db: Db, hold: HoldId): set<OfferId> {
    set o | o in db.offers && db.offers[o].hold == hold && db.offers[o].status.Offered?
  }

  function EntriesOf(db: Db, os: set<OfferId>): set<EntryId> {
    set o | o in os && o in db.offers :: db.offers[o].entry
  }

  function SetOffers(db: Db, os: set<OfferId>, status: OfferStatus): Db {
    db.(offers := map o | o in db.offers :: if o in os then db.offers[o].(status := status) else db.offers[o])
  }

  function SetEntries(db: Db, es: set<EntryId>, status: EntryStatus): Db {
    db.(entries := map e | e in db.entries :: if e in es then db.entries[e].(status := status) else db.entries[e])
  }

  /** The hold ends, its seats go back unless another live hold covers them, a live offer ends with it. */
  function EndHold(db: Db, hold: HoldId, status: HoldStatus, now: Instant): Reply<nat>
    requires hold in db.holds
  {
    var ended := SetHolds(db, {hold}, status);
    var released := Orphaned(ended, db.holds[hold].seats, now);
    var freed := AddSignals(SetStatus(ended, released, Available), released);
    var lost := OffersBehind(db, hold);
    if exists o :: o in lost && !(db.offers[o].entry in db.entries && db.entries[db.offers[o].entry].status.Offered?)
    then Reply(db, Fail(Internal("waitlist entry was no longer offered")))
    else Reply(SetEntries(SetOffers(freed, lost, OfferStatus.Expired), EntriesOf(db, lost), EntryStatus.Expired), Ok(|released|))
  }

  /** Answers whether this call expired the hold; anything not due is left alone. */
  function ExpireHold(db: Db, hold: HoldId, now: Instant): Reply<bool> {
    if !(hold in db.holds && db.holds[hold].status.Active? && db.holds[hold].expiresAt <= now) then Reply(db, Ok(false))
    else
      var r := EndHold(db, hold, HoldStatus.Expired, now);
      match r.out
      case Ok(_) => Reply(r.db, Ok(true))
      case Fail(error) => Reply(db, Fail(error))
  }

  function CancelHold(db: Db, user: UserId, event: EventId, hold: HoldId, now: Instant): Reply<nat> {
    if !(hold in db.holds && db.holds[hold].user == user && db.holds[hold].event == event) then Reply(db, Fail(HoldNotFound))
    else if !db.holds[hold].status.Active? then Reply(db, Fail(HoldNotActive))
    else EndHold(db, hold, HoldStatus.Cancelled, now)
  }

  // --------------------------------------------------------------- waitlist

  predicate InQueue(e: Entry) { e.status.Waiting? || e.status.Offered? }

  /** Two memberships `waitlist_entries_active_membership_key` will not store together. */
  predicate Rivals(e: Entry, f: Entry) {
    InQueue(e) && InQueue(f) && e.event == f.event && e.user == f.user && e.category == f.category
  }

  function Join(db: Db, event: EventId, user: UserId, category: Category, newEntry: EntryId, now: Instant): Reply<EntryId> {
    if event !in db.world.events then Reply(db, Fail(EventNotFound))
    else if !db.world.events[event].published then Reply(db, Fail(EventNotJoinable))
    else if !exists s :: s in db.seats && db.seats[s].event == event && db.seats[s].category == category then
      Reply(db, Fail(CategoryNotFound))
    else if exists e :: e in db.entries && Rivals(db.entries[e], Entry(event, user, category, Waiting, now)) then
      Reply(db, Fail(AlreadyOnWaitlist))
    else if user !in db.world.users then Reply(db, Fail(UnknownUser))
    else if newEntry in db.entries then Reply(db, Fail(IdCollision))
    else Reply(db.(entries := db.entries[newEntry := Entry(event, user, category, Waiting, now)]), Ok(newEntry))
  }

  function Leave(db: Db, user: UserId, entry: EntryId): Reply<EntryId> {
    if !(entry in db.entries && db.entries[entry].user == user) then Reply(db, Fail(EntryNotFound))
    else if !db.entries[entry].status.Waiting? then Reply(db, Fail(EntryNotWaiting))
    else Reply(SetEntries(db, {entry}, EntryStatus.Cancelled), Ok(entry))
  }

  /** The tables after a pairing: the seat held for the entry's user, the entry and its new offer marked. */
  function AfterOffer(db: Db, entry: EntryId, seat: SeatId, newHold: HoldId, newOffer: OfferId, expiresAt: Instant, now: Instant): Db
    requires entry in db.entries
  {
    var e := db.entries[entry];
    TakeSeats(db, e.event, e.user, {seat}, expiresAt, newHold, now)
      .(entries := db.entries[entry := e.(status := EntryStatus.Offered)],
        offers := db.offers[newOffer := Offer(entry, seat, newHold, expiresAt, OfferStatus.Offered)])
  }

  datatype Pairing = Paired(db: Db) | Raced | Aborted(error: Error)

  /**
   One pairing of the allocation pass, under its savepoint. Only a conflict -
   the seat was taken after all - is retried; anything else aborts the pass.
   */
  function OfferSeat(db: Db, entry: EntryId, seat: SeatId, ttl: int, newHold: HoldId, newOffer: OfferId, now: Instant): Pairing {
    if !(entry in db.entries && db.entries[entry].status.Waiting?) then Aborted(Internal("entry was no longer waiting"))
    else
      match HoldVerdict(db, db.entries[entry].event, db.entries[entry].user, {seat}, newHold, now)
      case Fail(SeatsUnavailable(_)) => Raced
      case Fail(error) => Aborted(error)
      case Ok(_) =>
        if newOffer in db.offers then Aborted(IdCollision)
        else if LiveOffer(db, seat) then Aborted(LiveOfferForSeat)
        else if exists o :: o in db.offers && db.offers[o].entry == entry && db.offers[o].status.Offered? then
          Aborted(Internal("live offer for entry exists"))
        else if exists o :: o in db.offers && db.offers[o].hold == newHold then Aborted(Internal("offer for hold exists"))
        else Paired(AfterOffer(db, entry, seat, newHold, newOffer, ExpiryAt(now, ttl), now))
  }

  /** An `offered` row names the seat, whatever became of the hold behind it. */
  predicate LiveOffer(db: Db, seat: SeatId) {
    exists o :: o in db.offers && db.offers[o].seat == seat && db.offers[o].status.Offered?
  }

  ghost function Accept(db: Db, user: UserId, offer: OfferId, newBooking: BookingId, now: Instant): Reply<BookingId> {
    if !(offer in db.offers && db.offers[offer].entry in db.entries && db.offers[offer].hold in db.holds
         && db.entries[db.offers[offer].entry].user == user) then Reply(db, Fail(OfferNotFound))
    else
      var o := db.offers[offer];
      var r := Confirm(db, user, db.holds[o.hold].event, o.hold, newBooking, now);
      match r.out
      case Fail(HoldExpired) => Reply(db, Fail(OfferExpired))
      case Fail(HoldInvalid) => Reply(db, Fail(OfferExpired))
      case Fail(HoldAlreadyConfirmed) => Reply(db, Fail(OfferAlreadyAccepted))
      case Fail(error) => Reply(db, Fail(error))
      case Ok(_) =>
        if !o.status.Offered? then Reply(db, Fail(Internal("offer was no longer offered")))
        else if !db.entries[o.entry].status.Offered? then Reply(db, Fail(Internal("entry was no longer offered")))
        else Reply(SetEntries(SetOffers(r.db, {offer}, OfferStatus.Accepted), {o.entry}, EntryStatus.Accepted), Ok(newBooking))
  }

  // ------------------------------------------------------- issue and verify

  datatype Role = Customer | Organiser | Admin

  function Issue(db: Db, user: UserId, role: Role, booking: BookingId): Reply<bool> {
    if !(booking in db.bookings && db.bookings[booking].event in db.world.events) then Reply(db, Fail(BookingNotFound))
    else if !(db.bookings[booking].user == user || role.Admin?
              || (role.Organiser? && db.world.events[db.bookings[booking].event].organiser == user)) then
      Reply(db, Fail(BookingNotFound))
    else if !db.bookings[booking].status.Confirmed? then Reply(db, Fail(BookingIsCancelled))
    else
      match EnsureTickets(db.bookings[booking])
      case Fail(error) => Reply(db, Fail(error))
      case Ok((issued, created)) =>
        if created then Reply(db.(bookings := db.bookings[booking := issued]), Ok(true))
        else Reply(db, Fail(TicketsAlreadyIssued))
  }

  /** A ticket is addressed by the booking and seat it was cut for. */
  function Verify(db: Db, user: UserId, role: Role, booking: BookingId, seat: SeatId): Reply<SeatId> {
    if !(booking in db.bookings && seat in db.bookings[booking].tickets) then Reply(db, Fail(TicketNotFound))
    else
      var b := db.bookings[booking];
      if b.event !in db.world.events then Reply(db, Fail(TicketNotFound))
      else if !(role.Admin? || db.world.events[b.event].organiser == user) then Reply(db, Fail(TicketNotFound))
      else if !b.status.Confirmed? then Reply(db, Fail(BookingIsCancelled))
      else
        match b.tickets[seat]
        case Used => Reply(db, Fail(TicketAlreadyUsed))
        case Void => Reply(db, Fail(TicketVoid))
        case Issued => Reply(db.(bookings := db.bookings[booking := b.(tickets := b.tickets[seat := Used])]), Ok(seat))
  }
}
