/** What every transaction keeps of the inventory, and the proof for each of them. */
module Invariant {
  import opened Schema
  import opened Sums
  import opened Transactions

  // ------------------------------------------------------------- the parts

  /** The status changes a seat may undergo. */
  predicate Edge(from: SeatStatus, to: SeatStatus) {
    || (from.Available? && to.Held?)
    || (from.Held? && to.Available?)
    || (from.Held? && to.Booked?)
    || (from.Booked? && to.Available?)
  }

  function StatusAt(rows: seq<SeatEvent>, n: nat): SeatStatus
    requires n <= |rows|
  {
    if n == 0 then Available else rows[n - 1].status
  }

  /** The rows tell the seat's whole story: versions 1, 2, ..., each a legal edge, ending where the seat is. */
  ghost predicate Story(s: SeatId, seat: Seat, rows: seq<SeatEvent>) {
    && |rows| == seat.version
    && StatusAt(rows, |rows|) == seat.status
    && forall i :: 0 <= i < |rows| ==>
         && rows[i] == SeatEvent(seat.event, s, rows[i].status, KindOf(rows[i].status), i + 1)
         && Edge(StatusAt(rows, i), rows[i].status)
  }

  ghost predicate SeatsOk(db: Db) {
    && (forall s :: s in db.seats <==> s in db.outbox)
    && (forall s :: s in db.seats ==> db.seats[s].event in db.world.events)
    && (forall s :: s in db.seats ==> Story(s, db.seats[s], db.outbox[s]))
  }

  ghost predicate HoldOk(db: Db, h: Hold) {
    && h.event in db.world.events && h.user in db.world.users
    && h.seats != {}
    && (forall s :: s in h.seats ==> s in db.seats && db.seats[s].event == h.event)
    && (h.status.Active? ==> forall s :: s in h.seats ==> db.seats[s].status.Held?)
  }

  ghost predicate HoldsOk(db: Db) {
    && (forall h :: h in db.holds ==> HoldOk(db, db.holds[h]))
    && (forall h, g :: h in db.holds && g in db.holds && h != g && db.holds[h].status.Active? && db.holds[g].status.Active?
                       ==> Disjoint(db.holds[h].seats, db.holds[g].seats))
  }

  /** A booking and its hold agree; its rows and tickets are the hold's seats, at their prices; its total is theirs. */
  ghost predicate BookingOk(db: Db, booking: Booking) {
    && booking.hold in db.holds
    && var hold := db.holds[booking.hold];
    && hold.status.Converted? && hold.user == booking.user && hold.event == booking.event
    && booking.total == Sum(PricesOf(db, hold.seats))
    && (forall s :: s in booking.rows <==> s in hold.seats)
    && (forall s :: s in booking.tickets <==> s in hold.seats)
    && (forall s :: s in booking.rows ==> s in db.seats && RowOk(booking, booking.rows[s], db.seats[s]))
    && (forall s :: s in booking.tickets ==> TicketOk(booking, booking.tickets[s]))
  }

  predicate RowOk(booking: Booking, row: SoldSeat, seat: Seat) {
    && row.price == seat.price
    && (row.cancelled <==> booking.status.Cancelled?)
    && (!row.cancelled ==> seat.status.Booked?)
  }

  predicate TicketOk(booking: Booking, ticket: TicketStatus) {
    !ticket.Void? && (ticket.Used? ==> booking.status.Confirmed?)
  }

  /** No hold and no seat is behind two bookings at once. */
  ghost predicate SoldOnce(bookings: map<BookingId, Booking>) {
    && (forall b, c :: b in bookings && c in bookings && bookings[b].hold == bookings[c].hold ==> b == c)
    && (forall b, c :: b in bookings && c in bookings && b != c ==> Disjoint(LiveRows(bookings[b]), LiveRows(bookings[c])))
  }

  ghost predicate BookingsOk(db: Db) {
    forall b :: b in db.bookings ==> BookingOk(db, db.bookings[b])
  }

  /** Nothing reads as sold without a booking to show for it. */
  ghost predicate Accounted(db: Db) {
    && (forall h :: h in db.holds && db.holds[h].status.Converted? ==> BookedFrom(db, h))
    && (forall s :: s in db.seats && db.seats[s].status.Booked? ==> SoldLive(db, s))
  }

  ghost predicate SalesOk(db: Db) {
    BookingsOk(db) && SoldOnce(db.bookings) && Accounted(db)
  }

  /** The entry status an offer's status stands for. */
  function Mirrors(status: OfferStatus): EntryStatus {
    match status
    case Offered => EntryStatus.Offered
    case Accepted => EntryStatus.Accepted
    case Expired => EntryStatus.Expired
  }

  ghost predicate OfferOk(db: Db, o: Offer) {
    && o.entry in db.entries && o.hold in db.holds
    && db.entries[o.entry].status == Mirrors(o.status)
    && db.holds[o.hold].user == db.entries[o.entry].user
    && db.holds[o.hold].event == db.entries[o.entry].event
    && db.holds[o.hold].seats == {o.seat}
    && db.holds[o.hold].expiresAt == o.expiresAt
    && (o.status.Accepted? ==> db.holds[o.hold].status.Converted?)
    && (o.status.Expired? ==> db.holds[o.hold].status.Expired? || db.holds[o.hold].status.Cancelled?)
  }

  ghost predicate HasOffer(db: Db, e: EntryId) {
    exists o :: o in db.offers && db.offers[o].entry == e
  }

  ghost predicate WaitlistOk(db: Db) {
    && (forall o :: o in db.offers ==> OfferOk(db, db.offers[o]))
    && (forall o, p :: o in db.offers && p in db.offers && db.offers[o].entry == db.offers[p].entry ==> o == p)
    && (forall o, p :: o in db.offers && p in db.offers && db.offers[o].hold == db.offers[p].hold ==> o == p)
    && (forall e :: e in db.entries && !db.entries[e].status.Waiting? && !db.entries[e].status.Cancelled? ==> HasOffer(db, e))
    && (forall e :: e in db.entries ==> db.entries[e].event in db.world.events && db.entries[e].user in db.world.users)
    && (forall e, f :: e in db.entries && f in db.entries && Rivals(db.entries[e], db.entries[f]) ==> e == f)
  }

  ghost predicate Inv(db: Db) {
    SeatsOk(db) && HoldsOk(db) && SalesOk(db) && WaitlistOk(db)
  }

  /** The state before any reservation: seats on sale, nothing written. */
  ghost predicate Initial(db: Db) {
    && (forall s :: s in db.seats <==> s in db.outbox)
    && (forall s :: s in db.seats ==> db.seats[s].event in db.world.events && db.seats[s].status.Available?
                                      && db.seats[s].version == 0 && db.outbox[s] == [])
    && db.holds == map[] && db.bookings == map[]
    && db.entries == map[] && db.offers == map[]
  }

  lemma InitialInv(db: Db)
    requires Initial(db)
    ensures Inv(db)
  {
  }

  // --------------------------------------------------------- seat statuses

  lemma StoryGrows(s: SeatId, seat: Seat, rows: seq<SeatEvent>, status: SeatStatus)
    requires Story(s, seat, rows)
    requires seat.status == status || Edge(seat.status, status)
    ensures Story(s, Fire(seat, status), rows + Emit(s, seat, status))
  {
    var more := rows + Emit(s, seat, status);
    if seat.status == status {
      assert more == rows;
    } else {
      forall i | 0 <= i < |more|
        ensures more[i] == SeatEvent(seat.event, s, more[i].status, KindOf(more[i].status), i + 1)
        ensures Edge(StatusAt(more, i), more[i].status)
      {
        assert StatusAt(more, i) == StatusAt(rows, i);
      }
    }
  }

  /** Changing statuses along legal edges keeps every seat's story. */
  lemma SetStatusSeats(db: Db, targets: set<SeatId>, status: SeatStatus)
    requires SeatsOk(db)
    requires forall s :: s in targets && s in db.seats ==> db.seats[s].status == status || Edge(db.seats[s].status, status)
    ensures SeatsOk(SetStatus(db, targets, status))
  {
    var d := SetStatus(db, targets, status);
    forall s | s in d.seats
      ensures Story(s, d.seats[s], d.outbox[s])
    {
      if s in targets {
        StoryGrows(s, db.seats[s], db.outbox[s], status);
      }
    }
  }

  /** The same seats, at the same prices, whatever their statuses. */
  ghost predicate SameSeats(db: Db, d: Db) {
    && (forall s :: s in d.seats <==> s in db.seats)
    && forall s :: s in d.seats ==>
         && d.seats[s].event == db.seats[s].event && d.seats[s].price == db.seats[s].price
         && d.seats[s].category == db.seats[s].category
  }

  lemma SamePrices(db: Db, d: Db, ids: set<SeatId>)
    requires SameSeats(db, d)
    ensures PricesOf(d, ids) == PricesOf(db, ids)
  {
    assert forall s :: s in PricesOf(d, ids) <==> s in PricesOf(db, ids);
    assert forall s :: s in PricesOf(d, ids) ==> PricesOf(d, ids)[s] == PricesOf(db, ids)[s];
  }

  /** A booking stays in order while its hold, its seats' prices and its live rows' sales stand. */
  lemma SameBooking(db: Db, d: Db, booking: Booking)
    requires BookingOk(db, booking) && SameSeats(db, d)
    requires booking.hold in d.holds && d.holds[booking.hold] == db.holds[booking.hold]
    requires forall s :: s in LiveRows(booking) && s in db.seats ==> d.seats[s].status == db.seats[s].status
    ensures BookingOk(d, booking)
  {
    SamePrices(db, d, db.holds[booking.hold].seats);
    forall s | s in booking.rows
      ensures RowOk(booking, booking.rows[s], d.seats[s])
    {
      assert RowOk(booking, booking.rows[s], db.seats[s]);
      if !booking.rows[s].cancelled { assert s in LiveRows(booking); }
    }
  }

  /** What was accounted for still is, when holds convert and seats sell only with a booking. */
  lemma StillAccounted(db: Db, d: Db)
    requires Accounted(db)
    requires forall h :: h in d.holds && d.holds[h].status.Converted? && !(h in db.holds && db.holds[h].status.Converted?) ==> BookedFrom(d, h)
    requires forall s :: s in d.seats && d.seats[s].status.Booked? && !(s in db.seats && db.seats[s].status.Booked?) ==> SoldLive(d, s)
    requires forall c :: c in db.bookings ==> c in d.bookings && d.bookings[c].hold == db.bookings[c].hold
    requires forall c, s :: c in db.bookings && s in LiveRows(db.bookings[c]) && s in d.seats && d.seats[s].status.Booked? ==> s in LiveRows(d.bookings[c])
    ensures Accounted(d)
  {
    forall h | h in d.holds && d.holds[h].status.Converted?
      ensures BookedFrom(d, h)
    {
      if h in db.holds && db.holds[h].status.Converted? {
        var c :| c in db.bookings && db.bookings[c].hold == h;
        assert c in d.bookings && d.bookings[c].hold == h;
      }
    }
    forall s | s in d.seats && d.seats[s].status.Booked?
      ensures SoldLive(d, s)
    {
      if s in db.seats && db.seats[s].status.Booked? {
        assert SoldLive(db, s);
        var c :| c in db.bookings && s in LiveRows(db.bookings[c]);
        assert c in d.bookings && s in LiveRows(d.bookings[c]);
      }
    }
  }

  /** Two live rows never name the same seat of an active hold; in fact none does. */
  lemma HeldSeatsHaveNoLiveRow(db: Db, booking: Booking, s: SeatId)
    requires BookingOk(db, booking) && s in db.seats && !db.seats[s].status.Booked?
    ensures s !in LiveRows(booking)
  {
    if s in booking.rows {
      assert RowOk(booking, booking.rows[s], db.seats[s]);
    }
  }

  // ------------------------------------------------------------ createHold

  /** The conditions under which CreateHold commits. */
  predicate Grantable(db: Db, event: EventId, user: UserId, ids: set<SeatId>, newHold: HoldId, now: Instant) {
    && ids != {} && event in db.world.events && user in db.world.users && newHold !in db.holds
    && (forall s :: s in ids ==> s in db.seats && db.seats[s].event == event && !Taken(db, s, now))
  }

  /** A hold is granted exactly when every seat can be had. */
  lemma HoldVerdictGrants(db: Db, event: EventId, user: UserId, ids: set<SeatId>, newHold: HoldId, now: Instant)
    ensures HoldVerdict(db, event, user, ids, newHold, now).Ok?
            <==> Grantable(db, event, user, ids, newHold, now) && |ids| <= MAX_SEATS_PER_HOLD
    ensures HoldVerdict(db, event, user, ids, newHold, now).Ok? ==> HoldVerdict(db, event, user, ids, newHold, now) == Ok(newHold)
  {
    var outside := SeatsOutside(db, event, ids);
    var taken := TakenAmong(db, ids, now);
    if outside == {} {
      assert forall s :: s in ids ==> s !in outside;
    }
    if taken == map[] {
      assert forall s :: s in ids && s in db.seats && Taken(db, s, now) ==> s in taken;
    }
    if Grantable(db, event, user, ids, newHold, now) {
      assert forall s :: s !in outside;
      assert outside == {};
      assert forall s :: s !in taken;
      assert taken == map[];
    }
  }

  /** Only the requested seats change, and all of them end up held, under the new hold. */
  ghost predicate Takes(db: Db, d: Db, hold: Hold, newHold: HoldId, now: Instant) {
    && d.world == db.world && d.bookings == db.bookings
    && d.entries == db.entries && d.offers == db.offers && d.signals == db.signals
    && SameSeats(db, d)
    && (forall s :: s in d.seats && s !in hold.seats ==> d.seats[s] == db.seats[s])
    && (forall s :: s in d.seats && s in hold.seats ==> d.seats[s].status.Held?)
    && newHold in d.holds && d.holds[newHold] == hold
    && (forall h :: h in db.holds ==> h in d.holds)
    && (forall h :: h in d.holds && h != newHold ==> h in db.holds)
    && (forall h :: h in d.holds && h != newHold ==>
          d.holds[h] == if h in LapsedOver(db, hold.seats, now) then db.holds[h].(status := HoldStatus.Expired) else db.holds[h])
  }

  lemma TakeSeatsTakes(db: Db, event: EventId, user: UserId, ids: set<SeatId>, expiresAt: Instant, newHold: HoldId, now: Instant)
    requires newHold !in db.holds
    ensures Takes(db, TakeSeats(db, event, user, ids, expiresAt, newHold, now), Hold(event, user, Active, expiresAt, ids), newHold, now)
  {
  }

  lemma TakeSeatsSeats(db: Db, event: EventId, user: UserId, ids: set<SeatId>, expiresAt: Instant, newHold: HoldId, now: Instant)
    requires Inv(db) && Grantable(db, event, user, ids, newHold, now)
    ensures SeatsOk(TakeSeats(db, event, user, ids, expiresAt, newHold, now))
  {
    var d1 := SetHolds(db, LapsedOver(db, ids, now), HoldStatus.Expired);
    var orphans := Orphaned(db, ids, now);
    SetStatusSeats(d1, orphans, Available);
    var d2 := SetStatus(d1, orphans, Available);
    SetStatusSeats(d2.(holds := d2.holds[newHold := Hold(event, user, Active, expiresAt, ids)]), ids, Held);
  }

  /** A hold still active after the take keeps clear of the seats taken. */
  lemma SurvivorsKeepClear(db: Db, d: Db, hold: Hold, newHold: HoldId, now: Instant, h: HoldId)
    requires HoldsOk(db) && Takes(db, d, hold, newHold, now)
    requires Grantable(db, hold.event, hold.user, hold.seats, newHold, now)
    requires h in db.holds && d.holds[h].status.Active?
    ensures db.holds[h].status.Active? && Disjoint(db.holds[h].seats, hold.seats)
  {
    assert forall s :: s in hold.seats ==> !LiveHold(db, s, now);
  }

  lemma TakesHolds(db: Db, d: Db, hold: Hold, newHold: HoldId, now: Instant)
    requires HoldsOk(db) && Takes(db, d, hold, newHold, now) && hold.status.Active?
    requires Grantable(db, hold.event, hold.user, hold.seats, newHold, now)
    ensures HoldsOk(d)
  {
    forall h | h in db.holds && d.holds[h].status.Active?
      ensures db.holds[h].status.Active? && Disjoint(db.holds[h].seats, hold.seats)
    {
      SurvivorsKeepClear(db, d, hold, newHold, now, h);
    }
  }

  lemma TakesSales(db: Db, d: Db, hold: Hold, newHold: HoldId, now: Instant)
    requires SalesOk(db) && Takes(db, d, hold, newHold, now) && hold.status.Active?
    requires Grantable(db, hold.event, hold.user, hold.seats, newHold, now)
    ensures SalesOk(d)
  {
    forall b | b in d.bookings
      ensures BookingOk(d, d.bookings[b])
    {
      forall s | s in hold.seats ensures s !in LiveRows(db.bookings[b]) {
        assert !Taken(db, s, now);
        HeldSeatsHaveNoLiveRow(db, db.bookings[b], s);
      }
      SameBooking(db, d, db.bookings[b]);
    }
    StillAccounted(db, d);
  }

  lemma TakesWaitlist(db: Db, d: Db, hold: Hold, newHold: HoldId, now: Instant)
    requires WaitlistOk(db) && Takes(db, d, hold, newHold, now) && newHold !in db.holds
    ensures WaitlistOk(d)
  {
    forall o | o in d.offers
      ensures OfferOk(d, d.offers[o])
    {
      assert OfferOk(db, db.offers[o]);
    }
    forall e | e in d.entries && !d.entries[e].status.Waiting? && !d.entries[e].status.Cancelled?
      ensures HasOffer(d, e)
    {
      assert HasOffer(db, e);
    }
  }

  lemma TakeSeatsInv(db: Db, event: EventId, user: UserId, ids: set<SeatId>, expiresAt: Instant, newHold: HoldId, now: Instant)
    requires Inv(db) && Grantable(db, event, user, ids, newHold, now)
    ensures Inv(TakeSeats(db, event, user, ids, expiresAt, newHold, now))
  {
    var d := TakeSeats(db, event, user, ids, expiresAt, newHold, now);
    var hold := Hold(event, user, Active, expiresAt, ids);
    TakeSeatsTakes(db, event, user, ids, expiresAt, newHold, now);
    TakeSeatsSeats(db, event, user, ids, expiresAt, newHold, now);
    TakesHolds(db, d, hold, newHold, now);
    TakesSales(db, d, hold, newHold, now);
    TakesWaitlist(db, d, hold, newHold, now);
  }

  // ------------------------------------------------- expireHold, cancelHold

  /** An active hold that ends frees every one of its seats, and its live offer and entry with it. */
  ghost predicate Ends(db: Db, d: Db, h: HoldId, status: HoldStatus)
    requires h in db.holds
  {
    && d.world == db.world && d.bookings == db.bookings
    && SameSeats(db, d)
    && (forall s :: s in d.seats && s !in db.holds[h].seats ==> d.seats[s] == db.seats[s])
    && (forall s :: s in d.seats && s in db.holds[h].seats ==> d.seats[s].status.Available?)
    && d.holds == db.holds[h := db.holds[h].(status := status)]
    && (forall o :: o in d.offers <==> o in db.offers)
    && (forall o :: o in d.offers ==>
          d.offers[o] == if o in OffersBehind(db, h) then db.offers[o].(status := OfferStatus.Expired) else db.offers[o])
    && (forall e :: e in d.entries <==> e in db.entries)
    && (forall e :: e in d.entries ==>
          d.entries[e] == if e in EntriesOf(db, OffersBehind(db, h)) then db.entries[e].(status := EntryStatus.Expired) else db.entries[e])
  }

  lemma EndHoldReleasesAll(db: Db, h: HoldId, status: HoldStatus, now: Instant)
    requires HoldsOk(db) && h in db.holds && db.holds[h].status.Active? && !status.Active?
    ensures Orphaned(SetHolds(db, {h}, status), db.holds[h].seats, now) == db.holds[h].seats
  {
    var ended := SetHolds(db, {h}, status);
    assert HoldOk(db, db.holds[h]);
    forall s | s in db.holds[h].seats
      ensures s in ended.seats && ended.seats[s].status.Held? && !LiveHold(ended, s, now)
    {
      forall g | g in ended.holds && ended.holds[g].status.Active?
        ensures s !in ended.holds[g].seats
      {
        assert g != h && db.holds[g].status.Active?;
        assert Disjoint(db.holds[h].seats, db.holds[g].seats);
      }
    }
    assert forall s :: s in db.holds[h].seats <==> s in Orphaned(ended, db.holds[h].seats, now);
  }

  /** No row-count or status surprise: the live offer's entry is always still offered. */
  lemma EndHoldSucceeds(db: Db, h: HoldId, status: HoldStatus, now: Instant)
    requires HoldsOk(db) && WaitlistOk(db) && h in db.holds && db.holds[h].status.Active? && !status.Active?
    ensures var r := EndHold(db, h, status, now);
            && r.out == Ok(|db.holds[h].seats|)
            && var freed := AddSignals(SetStatus(SetHolds(db, {h}, status), db.holds[h].seats, Available), db.holds[h].seats);
               var lost := OffersBehind(db, h);
               r.db == SetEntries(SetOffers(freed, lost, OfferStatus.Expired), EntriesOf(db, lost), EntryStatus.Expired)
  {
    EndHoldReleasesAll(db, h, status, now);
    forall o | o in OffersBehind(db, h)
      ensures db.offers[o].entry in db.entries && db.entries[db.offers[o].entry].status.Offered?
    {
      assert OfferOk(db, db.offers[o]);
    }
  }

  lemma EndHoldEnds(db: Db, h: HoldId, status: HoldStatus, now: Instant)
    requires HoldsOk(db) && WaitlistOk(db) && h in db.holds && db.holds[h].status.Active? && !status.Active?
    ensures Ends(db, EndHold(db, h, status, now).db, h, status)
  {
    EndHoldSucceeds(db, h, status, now);
    assert SetHolds(db, {h}, status).holds == db.holds[h := db.holds[h].(status := status)];
    assert HoldOk(db, db.holds[h]);
  }

  lemma EndHoldSeats(db: Db, h: HoldId, status: HoldStatus, now: Instant)
    requires Inv(db) && h in db.holds && db.holds[h].status.Active? && !status.Active?
    ensures SeatsOk(EndHold(db, h, status, now).db)
  {
    EndHoldSucceeds(db, h, status, now);
    assert HoldOk(db, db.holds[h]);
    SetStatusSeats(SetHolds(db, {h}, status), db.holds[h].seats, Available);
  }

  lemma EndsHolds(db: Db, d: Db, h: HoldId, status: HoldStatus)
    requires HoldsOk(db) && h in db.holds && db.holds[h].status.Active? && Ends(db, d, h, status) && !status.Active?
    ensures HoldsOk(d)
  {
    forall g | g in d.holds
      ensures HoldOk(d, d.holds[g])
    {
      assert HoldOk(db, db.holds[g]);
    }
  }

  lemma EndsSales(db: Db, d: Db, h: HoldId, status: HoldStatus)
    requires HoldsOk(db) && SalesOk(db) && h in db.holds && db.holds[h].status.Active? && Ends(db, d, h, status)
    requires status.Expired? || status.Cancelled?
    ensures SalesOk(d)
  {
    assert HoldOk(db, db.holds[h]);
    forall b | b in d.bookings
      ensures BookingOk(d, d.bookings[b])
    {
      forall s | s in db.holds[h].seats ensures s !in LiveRows(db.bookings[b]) {
        HeldSeatsHaveNoLiveRow(db, db.bookings[b], s);
      }
      SameBooking(db, d, db.bookings[b]);
    }
    StillAccounted(db, d);
  }

  lemma EndsOffer(db: Db, d: Db, h: HoldId, status: HoldStatus, o: OfferId)
    requires WaitlistOk(db) && h in db.holds && db.holds[h].status.Active? && Ends(db, d, h, status)
    requires status.Expired? || status.Cancelled?
    requires o in db.offers
    ensures OfferOk(d, d.offers[o])
  {
    assert OfferOk(db, db.offers[o]);
    if db.offers[o].entry in EntriesOf(db, OffersBehind(db, h)) {
      var p :| p in OffersBehind(db, h) && db.offers[p].entry == db.offers[o].entry;
      assert p == o;
    }
  }

  lemma EndsEntry(db: Db, d: Db, h: HoldId, status: HoldStatus, e: EntryId)
    requires WaitlistOk(db) && h in db.holds && Ends(db, d, h, status)
    requires e in d.entries && !d.entries[e].status.Waiting? && !d.entries[e].status.Cancelled?
    ensures HasOffer(d, e)
  {
    if e in EntriesOf(db, OffersBehind(db, h)) {
      var p :| p in OffersBehind(db, h) && db.offers[p].entry == e;
      assert p in d.offers && d.offers[p].entry == e;
    } else {
      assert HasOffer(db, e);
    }
  }

  lemma EndsWaitlist(db: Db, d: Db, h: HoldId, status: HoldStatus)
    requires WaitlistOk(db) && h in db.holds && db.holds[h].status.Active? && Ends(db, d, h, status)
    requires status.Expired? || status.Cancelled?
    ensures WaitlistOk(d)
  {
    hide SameSeats, OfferOk, HasOffer;
    forall o | o in d.offers ensures OfferOk(d, d.offers[o]) { EndsOffer(db, d, h, status, o); }
    forall e | e in d.entries && !d.entries[e].status.Waiting? && !d.entries[e].status.Cancelled? ensures HasOffer(d, e) {
      EndsEntry(db, d, h, status, e);
    }
    forall e, f | e in d.entries && f in d.entries && Rivals(d.entries[e], d.entries[f]) ensures e == f {
      assert Rivals(db.entries[e], db.entries[f]);
    }
  }

  lemma EndHoldInv(db: Db, h: HoldId, status: HoldStatus, now: Instant)
    requires Inv(db) && h in db.holds && db.holds[h].status.Active? && (status.Expired? || status.Cancelled?)
    ensures EndHold(db, h, status, now).out.Ok? && Inv(EndHold(db, h, status, now).db)
  {
    var d := EndHold(db, h, status, now).db;
    EndHoldSucceeds(db, h, status, now);
    EndHoldEnds(db, h, status, now);
    EndHoldSeats(db, h, status, now);
    EndsHolds(db, d, h, status);
    EndsSales(db, d, h, status);
    EndsWaitlist(db, d, h, status);
  }

  // ---------------------------------------------------------------- confirm

  /** What confirming can answer in a consistent database, and exactly when. */
  ghost function ConfirmVerdict(db: Db, user: UserId, event: EventId, hold: HoldId, newBooking: BookingId, now: Instant): Outcome<BookingId> {
    if !(hold in db.holds && db.holds[hold].user == user && db.holds[hold].event == event) then Fail(HoldNotFound)
    else
      var due := db.holds[hold].expiresAt <= now;
      match db.holds[hold].status
      case Converted => Fail(HoldAlreadyConfirmed)
      case Expired => Fail(HoldExpired)
      case Cancelled => Fail(if due then HoldExpired else HoldInvalid)
      case Active =>
        if due then Fail(HoldExpired)
        else if newBooking in db.bookings then Fail(IdCollision)
        else if Sum(PricesOf(db, db.holds[hold].seats)) > MAX_AMOUNT then Fail(AmountOverflow)
        else Ok(newBooking)
  }

  /** The hold can be confirmed: it is the caller's, of that event, active and unexpired. */
  ghost predicate Confirmable(db: Db, user: UserId, event: EventId, hold: HoldId, newBooking: BookingId, now: Instant) {
    && hold in db.holds && db.holds[hold].user == user && db.holds[hold].event == event
    && db.holds[hold].status.Active? && db.holds[hold].expiresAt > now
    && newBooking !in db.bookings && Sum(PricesOf(db, db.holds[hold].seats)) <= MAX_AMOUNT
  }

  /** The seats of an active hold are all held, unsold, and no booking names the hold. */
  lemma ActiveHoldIsUnsold(db: Db, hold: HoldId)
    requires HoldsOk(db) && SalesOk(db) && hold in db.holds && db.holds[hold].status.Active?
    ensures var ids := set s | s in db.holds[hold].seats && s in db.seats;
            && ids == db.holds[hold].seats && ids != {}
            && WithStatus(db, ids, Held) == ids
            && !exists s :: s in ids && SoldLive(db, s)
    ensures !BookedFrom(db, hold) && db.holds[hold].event in db.world.events
  {
    assert HoldOk(db, db.holds[hold]);
    var ids := set s | s in db.holds[hold].seats && s in db.seats;
    assert forall s :: s in db.holds[hold].seats ==> s in db.seats && db.seats[s].status.Held?;
    assert forall s :: s in ids <==> s in db.holds[hold].seats;
    assert forall s :: s in ids <==> s in WithStatus(db, ids, Held);
    forall b | b in db.bookings
      ensures db.bookings[b].hold != hold && Disjoint(LiveRows(db.bookings[b]), ids)
    {
      assert BookingOk(db, db.bookings[b]);
      forall s | s in LiveRows(db.bookings[b]) ensures s !in ids {
        assert RowOk(db.bookings[b], db.bookings[b].rows[s], db.seats[s]);
      }
    }
  }

  /** The booking a confirmation writes. */
  ghost function NewBooking(db: Db, hold: HoldId): Booking
    requires hold in db.holds
  {
    var h := db.holds[hold];
    Booking(h.user, h.event, hold, Confirmed, Sum(PricesOf(db, h.seats)), SoldRows(db, h.seats), map s | s in h.seats :: Issued)
  }

  lemma NewBookingIsTicketed(db: Db, hold: HoldId)
    requires hold in db.holds && HoldOk(db, db.holds[hold])
    ensures EnsureTickets(NewBooking(db, hold).(tickets := map[])) == Ok((NewBooking(db, hold), true))
  {
    var bare := NewBooking(db, hold).(tickets := map[]);
    assert forall s :: s in LiveRows(bare) <==> s in db.holds[hold].seats;
    assert LiveRows(bare) == db.holds[hold].seats;
  }

  lemma ConfirmAnswers(db: Db, user: UserId, event: EventId, hold: HoldId, newBooking: BookingId, now: Instant)
    requires Inv(db)
    ensures Confirm(db, user, event, hold, newBooking, now).out == ConfirmVerdict(db, user, event, hold, newBooking, now)
    ensures Confirm(db, user, event, hold, newBooking, now).out.Ok? <==> Confirmable(db, user, event, hold, newBooking, now)
    ensures Confirmable(db, user, event, hold, newBooking, now) ==>
              Confirm(db, user, event, hold, newBooking, now).db
              == SetHolds(SetStatus(db, db.holds[hold].seats, Booked), {hold}, Converted)
                 .(bookings := db.bookings[newBooking := NewBooking(db, hold)])
  {
    if hold in db.holds && db.holds[hold].user == user && db.holds[hold].event == event
       && db.holds[hold].status.Active? && db.holds[hold].expiresAt > now {
      ActiveHoldIsUnsold(db, hold);
      NewBookingIsTicketed(db, hold);
    }
  }

  /** A confirmation sells exactly the hold's seats, under one new booking. */
  ghost predicate Sells(db: Db, d: Db, h: HoldId, b: BookingId)
    requires h in db.holds
  {
    var hold := db.holds[h];
    && d.world == db.world && d.entries == db.entries && d.offers == db.offers && d.signals == db.signals
    && SameSeats(db, d)
    && (forall s :: s in d.seats && s !in hold.seats ==> d.seats[s] == db.seats[s])
    && (forall s :: s in d.seats && s in hold.seats ==> d.seats[s].status.Booked?)
    && d.holds == db.holds[h := hold.(status := Converted)]
    && d.bookings == db.bookings[b := NewBooking(db, h)]
  }

  lemma SameSeatsOk(c: Db, d: Db)
    requires SeatsOk(c) && d.world == c.world && d.seats == c.seats && d.outbox == c.outbox
    ensures SeatsOk(d)
  {
  }

  lemma WritesSell(db: Db, d: Db, hold: HoldId, newBooking: BookingId)
    requires hold in db.holds && HoldOk(db, db.holds[hold])
    requires d == SetHolds(SetStatus(db, db.holds[hold].seats, Booked), {hold}, Converted)
                  .(bookings := db.bookings[newBooking := NewBooking(db, hold)])
    ensures Sells(db, d, hold, newBooking)
  {
    hide NewBooking;
    assert d.holds == db.holds[hold := db.holds[hold].(status := Converted)];
  }

  lemma ConfirmSells(db: Db, user: UserId, event: EventId, hold: HoldId, newBooking: BookingId, now: Instant)
    requires Inv(db) && Confirmable(db, user, event, hold, newBooking, now)
    ensures Sells(db, Confirm(db, user, event, hold, newBooking, now).db, hold, newBooking)
    ensures SeatsOk(Confirm(db, user, event, hold, newBooking, now).db)
  {
    hide Confirm, NewBooking, SalesOk, WaitlistOk, Sells, SeatsOk, SetStatus;
    ConfirmAnswers(db, user, event, hold, newBooking, now);
    assert HoldOk(db, db.holds[hold]);
    var sold := SetStatus(db, db.holds[hold].seats, Booked);
    var d := Confirm(db, user, event, hold, newBooking, now).db;
    WritesSell(db, d, hold, newBooking);
    SetStatusSeats(db, db.holds[hold].seats, Booked);
    SameSeatsOk(sold, d);
  }

  lemma SellsHolds(db: Db, d: Db, h: HoldId, b: BookingId)
    requires HoldsOk(db) && h in db.holds && db.holds[h].status.Active? && Sells(db, d, h, b)
    ensures HoldsOk(d)
  {
    forall g | g in d.holds
      ensures HoldOk(d, d.holds[g])
    {
      assert HoldOk(db, db.holds[g]);
      if g != h && db.holds[g].status.Active? {
        assert Disjoint(db.holds[g].seats, db.holds[h].seats);
      }
    }
  }

  lemma SellsBookings(db: Db, d: Db, h: HoldId, b: BookingId, c: BookingId)
    requires HoldsOk(db) && BookingsOk(db) && h in db.holds && db.holds[h].status.Active? && b !in db.bookings && Sells(db, d, h, b)
    requires c in d.bookings
    ensures BookingOk(d, d.bookings[c])
    ensures c != b ==> d.bookings[c].hold != h && Disjoint(LiveRows(d.bookings[c]), LiveRows(NewBooking(db, h)))
  {
    assert HoldOk(db, db.holds[h]);
    if c == b {
      SamePrices(db, d, db.holds[h].seats);
    } else {
      assert BookingOk(db, db.bookings[c]);
      forall s | s in db.holds[h].seats ensures s !in LiveRows(db.bookings[c]) {
        HeldSeatsHaveNoLiveRow(db, db.bookings[c], s);
      }
      SameBooking(db, d, db.bookings[c]);
    }
  }

  lemma SellsAccounted(db: Db, d: Db, h: HoldId, b: BookingId)
    requires Accounted(db) && h in db.holds && b !in db.bookings && Sells(db, d, h, b)
    ensures Accounted(d)
  {
    assert b in d.bookings && d.bookings[b].hold == h;
    forall s | s in db.holds[h].seats && s in d.seats ensures SoldLive(d, s) {
      assert s in LiveRows(d.bookings[b]);
    }
    StillAccounted(db, d);
  }

  lemma SoldOnceMore(bookings: map<BookingId, Booking>, b: BookingId, booking: Booking)
    requires SoldOnce(bookings)
    requires forall c :: c in bookings && c != b ==> bookings[c].hold != booking.hold && Disjoint(LiveRows(bookings[c]), LiveRows(booking))
    ensures SoldOnce(bookings[b := booking])
  {
  }

  lemma SellsSales(db: Db, d: Db, h: HoldId, b: BookingId)
    requires HoldsOk(db) && SalesOk(db) && h in db.holds && db.holds[h].status.Active? && b !in db.bookings && Sells(db, d, h, b)
    ensures SalesOk(d)
  {
    forall c | c in d.bookings
      ensures BookingOk(d, d.bookings[c])
      ensures c != b ==> d.bookings[c].hold != h && Disjoint(LiveRows(d.bookings[c]), LiveRows(NewBooking(db, h)))
    {
      SellsBookings(db, d, h, b, c);
    }
    SellsAccounted(db, d, h, b);
    SoldOnceMore(db.bookings, b, NewBooking(db, h));
  }

  lemma SellsWaitlist(db: Db, d: Db, h: HoldId, b: BookingId)
    requires WaitlistOk(db) && h in db.holds && db.holds[h].status.Active? && Sells(db, d, h, b)
    ensures WaitlistOk(d)
  {
    forall o | o in d.offers
      ensures OfferOk(d, d.offers[o])
    {
      assert OfferOk(db, db.offers[o]);
    }
    forall e | e in d.entries && !d.entries[e].status.Waiting? && !d.entries[e].status.Cancelled?
      ensures HasOffer(d, e)
    {
      assert HasOffer(db, e);
    }
  }

  lemma ConfirmInv(db: Db, user: UserId, event: EventId, hold: HoldId, newBooking: BookingId, now: Instant)
    requires Inv(db) && Confirmable(db, user, event, hold, newBooking, now)
    ensures Inv(Confirm(db, user, event, hold, newBooking, now).db)
  {
    var d := Confirm(db, user, event, hold, newBooking, now).db;
    ConfirmSells(db, user, event, hold, newBooking, now);
    SellsHolds(db, d, hold, newBooking);
    SellsSales(db, d, hold, newBooking);
    SellsWaitlist(db, d, hold, newBooking);
  }

  // ---------------------------------------------------------- cancelBooking

  /** The booking can be cancelled: it is the caller's, confirmed, and nobody has entered on it. */
  predicate Cancellable(db: Db, user: UserId, b: BookingId) {
    && b in db.bookings && db.bookings[b].user == user && db.bookings[b].status.Confirmed?
    && forall s :: s in db.bookings[b].tickets ==> !db.bookings[b].tickets[s].Used?
  }

  ghost function CancelVerdict(db: Db, user: UserId, b: BookingId): Outcome<nat> {
    if !(b in db.bookings && db.bookings[b].user == user) then Fail(BookingNotFound)
    else if db.bookings[b].status.Cancelled? then Fail(BookingAlreadyCancelled)
    else if !Cancellable(db, user, b) then Fail(BookingHasUsedTickets)
    else Ok(|db.bookings[b].rows.Keys|)
  }

  /** A confirmed booking's live rows are all of its rows, and every seat they name is booked. */
  lemma ConfirmedOwnsItsSeats(db: Db, b: BookingId)
    requires SalesOk(db) && HoldsOk(db) && b in db.bookings && db.bookings[b].status.Confirmed?
    ensures var rows := db.bookings[b].rows;
            var ids := set s | s in LiveRows(db.bookings[b]) && s in db.seats;
            && rows.Keys != {} && ids == rows.Keys && LiveRows(db.bookings[b]) == rows.Keys && WithStatus(db, ids, Booked) == ids
    ensures db.bookings[b].rows.Keys == db.holds[db.bookings[b].hold].seats
  {
    var rows := db.bookings[b].rows;
    var ids := set s | s in LiveRows(db.bookings[b]) && s in db.seats;
    assert BookingOk(db, db.bookings[b]);
    assert HoldOk(db, db.holds[db.bookings[b].hold]);
    forall s | s in rows
      ensures s in db.seats && !rows[s].cancelled && db.seats[s].status.Booked?
    {
      assert RowOk(db.bookings[b], rows[s], db.seats[s]);
    }
    assert forall s :: s in rows.Keys <==> s in ids;
    assert forall s :: s in rows.Keys <==> s in LiveRows(db.bookings[b]);
    assert forall s :: s in WithStatus(db, ids, Booked) <==> s in ids;
    assert forall s :: s in rows.Keys <==> s in db.holds[db.bookings[b].hold].seats;
  }

  lemma CancelAnswers(db: Db, user: UserId, b: BookingId)
    requires Inv(db)
    ensures CancelBooking(db, user, b).out == CancelVerdict(db, user, b)
    ensures CancelBooking(db, user, b).out.Ok? <==> Cancellable(db, user, b)
    ensures Cancellable(db, user, b) ==>
              var ids := db.bookings[b].rows.Keys;
              CancelBooking(db, user, b).db
              == AddSignals(SetStatus(db, ids, Available), ids).(bookings := db.bookings[b := Retire(db.bookings[b])])
  {
    if b in db.bookings && db.bookings[b].status.Confirmed? {
      ConfirmedOwnsItsSeats(db, b);
    }
  }

  ghost predicate Unsells(db: Db, d: Db, b: BookingId)
    requires b in db.bookings
  {
    && d.world == db.world && d.entries == db.entries && d.offers == db.offers && d.holds == db.holds
    && SameSeats(db, d)
    && (forall s :: s in d.seats && s !in db.bookings[b].rows ==> d.seats[s] == db.seats[s])
    && (forall s :: s in d.seats && s in db.bookings[b].rows ==> d.seats[s].status.Available?)
    && d.bookings == db.bookings[b := Retire(db.bookings[b])]
  }

  lemma CancelUnsells(db: Db, user: UserId, b: BookingId)
    requires Inv(db) && Cancellable(db, user, b)
    ensures Unsells(db, CancelBooking(db, user, b).db, b)
  {
    hide Inv, CancelBooking, Cancellable;
    CancelAnswers(db, user, b);
  }

  lemma CancelSeats(db: Db, user: UserId, b: BookingId)
    requires Inv(db) && Cancellable(db, user, b)
    ensures SeatsOk(CancelBooking(db, user, b).db)
  {
    CancelAnswers(db, user, b);
    ConfirmedOwnsItsSeats(db, b);
    var ids := db.bookings[b].rows.Keys;
    assert forall s :: s in ids ==> s in WithStatus(db, ids, Booked);
    SetStatusSeats(db, ids, Available);
  }

  lemma UnsellsHolds(db: Db, d: Db, b: BookingId)
    requires HoldsOk(db) && SalesOk(db) && b in db.bookings && db.bookings[b].status.Confirmed? && Unsells(db, d, b)
    ensures HoldsOk(d)
  {
    ConfirmedOwnsItsSeats(db, b);
    forall h | h in d.holds
      ensures HoldOk(d, d.holds[h])
    {
      assert HoldOk(db, db.holds[h]);
      assert forall s :: s in db.bookings[b].rows ==> s in WithStatus(db, db.bookings[b].rows.Keys, Booked);
    }
  }

  lemma UnsellsBookings(db: Db, d: Db, b: BookingId, c: BookingId)
    requires BookingsOk(db) && SoldOnce(db.bookings) && b in db.bookings && Unsells(db, d, b) && c in d.bookings
    requires LiveRows(db.bookings[b]) == db.bookings[b].rows.Keys
    requires forall s :: s in db.bookings[b].tickets ==> !db.bookings[b].tickets[s].Used?
    ensures BookingOk(d, d.bookings[c])
  {
    assert BookingOk(db, db.bookings[c]);
    if c == b {
      SamePrices(db, d, db.holds[db.bookings[c].hold].seats);
      assert forall s :: s in db.bookings[b].tickets ==> TicketOk(db.bookings[b], db.bookings[b].tickets[s]);
      assert forall s :: s in db.bookings[b].rows ==> RowOk(db.bookings[b], db.bookings[b].rows[s], db.seats[s]);
    } else {
      assert Disjoint(LiveRows(db.bookings[b]), LiveRows(db.bookings[c]));
      SameBooking(db, d, db.bookings[c]);
    }
  }

  lemma UnsellsAccounted(db: Db, d: Db, b: BookingId)
    requires Accounted(db) && b in db.bookings && Unsells(db, d, b)
    requires LiveRows(db.bookings[b]) == db.bookings[b].rows.Keys
    ensures Accounted(d)
  {
    StillAccounted(db, d);
  }

  lemma UnsellsSales(db: Db, d: Db, b: BookingId)
    requires HoldsOk(db) && SalesOk(db) && b in db.bookings && db.bookings[b].status.Confirmed? && Unsells(db, d, b)
    requires forall s :: s in db.bookings[b].tickets ==> !db.bookings[b].tickets[s].Used?
    ensures SalesOk(d)
  {
    ConfirmedOwnsItsSeats(db, b);
    forall c | c in d.bookings ensures BookingOk(d, d.bookings[c]) { UnsellsBookings(db, d, b, c); }
    hide BookingOk;
    assert LiveRows(Retire(db.bookings[b])) == {};
    SoldOnceMore(db.bookings, b, Retire(db.bookings[b]));
    UnsellsAccounted(db, d, b);
  }

  lemma SameSales(db: Db, d: Db)
    requires HoldsOk(db) && SalesOk(db) && d.world == db.world && d.seats == db.seats && d.holds == db.holds && d.bookings == db.bookings
    ensures HoldsOk(d) && SalesOk(d)
  {
    forall h | h in d.holds ensures HoldOk(d, d.holds[h]) { assert HoldOk(db, db.holds[h]); }
    forall b | b in d.bookings ensures BookingOk(d, d.bookings[b]) { SameBooking(db, d, db.bookings[b]); }
    StillAccounted(db, d);
  }

  lemma SameWaitlist(db: Db, d: Db)
    requires WaitlistOk(db) && d.world == db.world && d.entries == db.entries && d.offers == db.offers && d.holds == db.holds
    ensures WaitlistOk(d)
  {
    forall o | o in d.offers ensures OfferOk(d, d.offers[o]) { assert OfferOk(db, db.offers[o]); }
    forall e | e in d.entries && !d.entries[e].status.Waiting? && !d.entries[e].status.Cancelled?
      ensures HasOffer(d, e)
    {
      assert HasOffer(db, e);
    }
  }

  lemma CancelInv(db: Db, user: UserId, b: BookingId)
    requires Inv(db) && Cancellable(db, user, b)
    ensures Inv(CancelBooking(db, user, b).db)
  {
    var d := CancelBooking(db, user, b).db;
    CancelUnsells(db, user, b);
    CancelSeats(db, user, b);
    UnsellsHolds(db, d, b);
    UnsellsSales(db, d, b);
    SameWaitlist(db, d);
  }

  // ----------------------------------------------------------------- tickets

  lemma BookingHold(db: Db, booking: Booking)
    requires BookingOk(db, booking)
    ensures booking.hold in db.holds
  {
  }

  lemma Reticketed(db: Db, d: Db, booking: Booking, tickets: map<SeatId, TicketStatus>)
    requires BookingOk(db, booking) && d.seats == db.seats && d.holds == db.holds
    requires forall s :: s in tickets <==> s in booking.rows
    requires forall s :: s in tickets ==> TicketOk(booking, tickets[s])
    ensures BookingOk(d, booking.(tickets := tickets))
  {
    SameBooking(db, d, booking);
  }

  /** Replacing one booking's tickets, keeping them one a row, keeps the sales. */
  lemma TicketsSales(db: Db, d: Db, b: BookingId)
    requires SalesOk(db) && b in db.bookings && d.seats == db.seats && d.holds == db.holds
    requires b in d.bookings && d.bookings == db.bookings[b := db.bookings[b].(tickets := d.bookings[b].tickets)]
    requires forall s :: s in d.bookings[b].tickets <==> s in db.bookings[b].rows
    requires forall s :: s in d.bookings[b].tickets ==> TicketOk(db.bookings[b], d.bookings[b].tickets[s])
    ensures SalesOk(d)
  {
    hide BookingOk;
    forall c | c in db.bookings ensures BookingOk(d, d.bookings[c]) {
      if c == b {
        Reticketed(db, d, db.bookings[b], d.bookings[b].tickets);
      } else {
        BookingHold(db, db.bookings[c]);
        SameBooking(db, d, db.bookings[c]);
      }
    }
    assert LiveRows(d.bookings[b]) == LiveRows(db.bookings[b]);
    SoldOnceMore(db.bookings, b, d.bookings[b]);
    StillAccounted(db, d);
  }

  lemma VerifyInv(db: Db, user: UserId, role: Role, booking: BookingId, seat: SeatId)
    requires Inv(db)
    ensures Inv(Verify(db, user, role, booking, seat).db)
  {
    var r := Verify(db, user, role, booking, seat);
    if r.out.Ok? {
      assert BookingOk(db, db.bookings[booking]);
      forall s | s in r.db.bookings[booking].tickets
        ensures TicketOk(db.bookings[booking], r.db.bookings[booking].tickets[s])
      {
        assert TicketOk(db.bookings[booking], db.bookings[booking].tickets[s]);
      }
      TicketsSales(db, r.db, booking);
      SameWaitlist(db, r.db);
      forall h | h in db.holds ensures HoldOk(r.db, db.holds[h]) { assert HoldOk(db, db.holds[h]); }
    }
  }

  /** Confirmation already cut every ticket, so asking again is always refused. */
  lemma IssueNeverCommits(db: Db, user: UserId, role: Role, booking: BookingId)
    requires Inv(db)
    ensures Issue(db, user, role, booking).db == db
    ensures var out := Issue(db, user, role, booking).out;
            out.Fail? && (out.error.BookingNotFound? || out.error.BookingIsCancelled? || out.error.TicketsAlreadyIssued?)
  {
    if booking in db.bookings {
      assert BookingOk(db, db.bookings[booking]);
      assert HoldOk(db, db.holds[db.bookings[booking].hold]);
      var seats := db.holds[db.bookings[booking].hold].seats;
      assert forall s :: s in seats <==> s in db.bookings[booking].tickets.Keys;
      assert db.bookings[booking].tickets.Keys == seats;
    }
  }

  // ---------------------------------------------------------------- waitlist

  /** Entries are the only thing that changed, and only waiting ones came or left. */
  lemma QueueWaitlist(db: Db, d: Db, e: EntryId, entry: Entry)
    requires WaitlistOk(db) && d.world == db.world && d.holds == db.holds && d.offers == db.offers && d.entries == db.entries[e := entry]
    requires entry.event in db.world.events && entry.user in db.world.users
    requires e in db.entries ==> db.entries[e].status.Waiting?
    requires entry.status.Cancelled? || (entry.status.Waiting? && forall f :: f in db.entries ==> !Rivals(db.entries[f], entry))
    ensures WaitlistOk(d)
  {
    forall o | o in d.offers
      ensures OfferOk(d, d.offers[o])
    {
      assert OfferOk(db, db.offers[o]);
    }
    forall f | f in d.entries && !d.entries[f].status.Waiting? && !d.entries[f].status.Cancelled?
      ensures HasOffer(d, f)
    {
      assert HasOffer(db, f);
    }
    forall f, g | f in d.entries && g in d.entries && Rivals(d.entries[f], d.entries[g])
      ensures f == g
    {
      if f != e && g != e {
        assert Rivals(db.entries[f], db.entries[g]);
      }
    }
  }

  /** Entries are the only thing that changed, and only waiting ones came or left. */
  lemma QueueInv(db: Db, d: Db, e: EntryId, entry: Entry)
    requires Inv(db) && d == db.(entries := db.entries[e := entry])
    requires entry.event in db.world.events && entry.user in db.world.users
    requires e in db.entries ==> db.entries[e].status.Waiting?
    requires entry.status.Cancelled? || (entry.status.Waiting? && forall f :: f in db.entries ==> !Rivals(db.entries[f], entry))
    ensures Inv(d)
  {
    QueueWaitlist(db, d, e, entry);
    SameSales(db, d);
  }

  lemma JoinInv(db: Db, event: EventId, user: UserId, category: Category, newEntry: EntryId, now: Instant)
    requires Inv(db)
    ensures Inv(Join(db, event, user, category, newEntry, now).db)
  {
    var r := Join(db, event, user, category, newEntry, now);
    if r.out.Ok? {
      QueueInv(db, r.db, newEntry, Entry(event, user, category, Waiting, now));
    }
  }

  lemma LeaveInv(db: Db, user: UserId, entry: EntryId)
    requires Inv(db)
    ensures Inv(Leave(db, user, entry).db)
  {
    var r := Leave(db, user, entry);
    if r.out.Ok? {
      assert r.db.entries == db.entries[entry := db.entries[entry].(status := EntryStatus.Cancelled)];
      QueueInv(db, r.db, entry, db.entries[entry].(status := EntryStatus.Cancelled));
    }
  }

  /** The offer can be accepted: it is the caller's and its hold can be confirmed. */
  ghost predicate Acceptable(db: Db, user: UserId, offer: OfferId, newBooking: BookingId, now: Instant) {
    && offer in db.offers && db.offers[offer].entry in db.entries && db.offers[offer].hold in db.holds
    && Confirmable(db, user, db.holds[db.offers[offer].hold].event, db.offers[offer].hold, newBooking, now)
  }

  ghost function AcceptVerdict(db: Db, user: UserId, offer: OfferId, newBooking: BookingId, now: Instant): Outcome<BookingId> {
    if !(offer in db.offers && db.offers[offer].entry in db.entries && db.offers[offer].hold in db.holds
         && db.entries[db.offers[offer].entry].user == user) then Fail(OfferNotFound)
    else
      var hold := db.holds[db.offers[offer].hold];
      if hold.status.Converted? then Fail(OfferAlreadyAccepted)
      else if !hold.status.Active? || hold.expiresAt <= now then Fail(OfferExpired)
      else if newBooking in db.bookings then Fail(IdCollision)
      else if Sum(PricesOf(db, hold.seats)) > MAX_AMOUNT then Fail(AmountOverflow)
      else Ok(newBooking)
  }

  lemma AcceptAnswers(db: Db, user: UserId, offer: OfferId, newBooking: BookingId, now: Instant)
    requires Inv(db)
    ensures Accept(db, user, offer, newBooking, now).out == AcceptVerdict(db, user, offer, newBooking, now)
    ensures Accept(db, user, offer, newBooking, now).out.Ok? <==> Acceptable(db, user, offer, newBooking, now)
    ensures Acceptable(db, user, offer, newBooking, now) ==>
              var o := db.offers[offer];
              && o.status.Offered?
              && Accept(db, user, offer, newBooking, now).db
                 == SetEntries(SetOffers(Confirm(db, user, db.holds[o.hold].event, o.hold, newBooking, now).db, {offer}, OfferStatus.Accepted),
                               {o.entry}, EntryStatus.Accepted)
  {
    hide Confirm, SetEntries, SetOffers, SeatsOk, SalesOk;
    if offer in db.offers {
      var o := db.offers[offer];
      assert OfferOk(db, o);
      ConfirmAnswers(db, user, db.holds[o.hold].event, o.hold, newBooking, now);
    }
  }

  lemma AcceptedWaitlist(c: Db, d: Db, offer: OfferId)
    requires WaitlistOk(c) && offer in c.offers && c.offers[offer].status.Offered? && c.holds[c.offers[offer].hold].status.Converted?
    requires d.world == c.world && d.holds == c.holds
    requires d.offers == c.offers[offer := c.offers[offer].(status := OfferStatus.Accepted)]
    requires var e := c.offers[offer].entry; d.entries == c.entries[e := c.entries[e].(status := EntryStatus.Accepted)]
    ensures WaitlistOk(d)
  {
    forall o | o in d.offers
      ensures OfferOk(d, d.offers[o])
    {
      assert OfferOk(c, c.offers[o]);
    }
    forall e | e in d.entries && !d.entries[e].status.Waiting? && !d.entries[e].status.Cancelled?
      ensures HasOffer(d, e)
    {
      assert HasOffer(c, e);
      var o :| o in c.offers && c.offers[o].entry == e;
      assert o in d.offers && d.offers[o].entry == e;
    }
    forall e, f | e in d.entries && f in d.entries && Rivals(d.entries[e], d.entries[f])
      ensures e == f
    {
      assert Rivals(c.entries[e], c.entries[f]);
    }
  }

  lemma AcceptInv(db: Db, user: UserId, offer: OfferId, newBooking: BookingId, now: Instant)
    requires Inv(db) && Acceptable(db, user, offer, newBooking, now)
    ensures Inv(Accept(db, user, offer, newBooking, now).db)
  {
    hide Confirm, Confirmable, SeatsOk, HoldsOk, SalesOk;
    var o := db.offers[offer];
    var c := Confirm(db, user, db.holds[o.hold].event, o.hold, newBooking, now).db;
    var d := Accept(db, user, offer, newBooking, now).db;
    AcceptAnswers(db, user, offer, newBooking, now);
    ConfirmInv(db, user, db.holds[o.hold].event, o.hold, newBooking, now);
    ConfirmSells(db, user, db.holds[o.hold].event, o.hold, newBooking, now);
    assert OfferOk(c, o);
    assert d.offers == c.offers[offer := o.(status := OfferStatus.Accepted)];
    assert d.entries == c.entries[o.entry := c.entries[o.entry].(status := EntryStatus.Accepted)];
    AcceptedWaitlist(c, d, offer);
    SameSales(c, d);
    SameSeatsOk(c, d);
  }

  // -------------------------------------------------------------- allocation

  /** What an offer takes: a waiting entry, a seat nobody may claim, fresh ids. */
  lemma OfferSeatPaired(db: Db, entry: EntryId, seat: SeatId, ttl: int, newHold: HoldId, newOffer: OfferId, now: Instant)
    requires OfferSeat(db, entry, seat, ttl, newHold, newOffer, now).Paired?
    ensures entry in db.entries && db.entries[entry].status.Waiting? && newOffer !in db.offers && !LiveOffer(db, seat)
    ensures Grantable(db, db.entries[entry].event, db.entries[entry].user, {seat}, newHold, now)
    ensures OfferSeat(db, entry, seat, ttl, newHold, newOffer, now) == Paired(AfterOffer(db, entry, seat, newHold, newOffer, ExpiryAt(now, ttl), now))
  {
    HoldVerdictGrants(db, db.entries[entry].event, db.entries[entry].user, {seat}, newHold, now);
  }

  lemma OfferedWaitlist(t: Db, d: Db, entry: EntryId, newOffer: OfferId, offer: Offer)
    requires WaitlistOk(t) && entry in t.entries && t.entries[entry].status.Waiting? && newOffer !in t.offers
    requires d.world == t.world && d.holds == t.holds
    requires d.entries == t.entries[entry := t.entries[entry].(status := EntryStatus.Offered)]
    requires d.offers == t.offers[newOffer := offer]
    requires offer.entry == entry && offer.status.Offered? && OfferOk(d, offer)
    requires forall o :: o in t.offers ==> t.offers[o].hold != offer.hold
    ensures WaitlistOk(d)
  {
    forall o | o in t.offers
      ensures t.offers[o].entry != entry && OfferOk(d, t.offers[o])
    {
      assert OfferOk(t, t.offers[o]);
    }
    assert newOffer in d.offers && d.offers[newOffer].entry == entry;
    forall e | e in d.entries && !d.entries[e].status.Waiting? && !d.entries[e].status.Cancelled?
      ensures HasOffer(d, e)
    {
      if e != entry {
        assert HasOffer(t, e);
        var o :| o in t.offers && t.offers[o].entry == e;
        assert o in d.offers && d.offers[o].entry == e;
      }
    }
    forall e, f | e in d.entries && f in d.entries && Rivals(d.entries[e], d.entries[f])
      ensures e == f
    {
      assert Rivals(t.entries[e], t.entries[f]);
    }
  }

  lemma NewOfferOk(db: Db, t: Db, d: Db, entry: EntryId, seat: SeatId, newHold: HoldId, expiresAt: Instant, now: Instant)
    requires entry in db.entries && newHold !in db.holds && WaitlistOk(db)
    requires Takes(db, t, Hold(db.entries[entry].event, db.entries[entry].user, Active, expiresAt, {seat}), newHold, now)
    requires d.holds == t.holds && d.entries == db.entries[entry := db.entries[entry].(status := EntryStatus.Offered)]
    ensures OfferOk(d, Offer(entry, seat, newHold, expiresAt, OfferStatus.Offered))
    ensures forall o :: o in t.offers ==> t.offers[o].hold != newHold
  {
    forall o | o in db.offers ensures db.offers[o].hold != newHold { assert OfferOk(db, db.offers[o]); }
  }

  lemma PairedInv(db: Db, t: Db, d: Db, entry: EntryId, seat: SeatId, newHold: HoldId, newOffer: OfferId, expiresAt: Instant, now: Instant)
    requires WaitlistOk(db) && Inv(t) && entry in db.entries && db.entries[entry].status.Waiting?
    requires newHold !in db.holds && newOffer !in db.offers
    requires Takes(db, t, Hold(db.entries[entry].event, db.entries[entry].user, Active, expiresAt, {seat}), newHold, now)
    requires d == t.(entries := db.entries[entry := db.entries[entry].(status := EntryStatus.Offered)],
                     offers := db.offers[newOffer := Offer(entry, seat, newHold, expiresAt, OfferStatus.Offered)])
    ensures Inv(d)
  {
    NewOfferOk(db, t, d, entry, seat, newHold, expiresAt, now);
    OfferedInv(t, d, entry, newOffer, Offer(entry, seat, newHold, expiresAt, OfferStatus.Offered));
  }

  lemma AfterOfferInv(db: Db, entry: EntryId, seat: SeatId, newHold: HoldId, newOffer: OfferId, expiresAt: Instant, now: Instant)
    requires Inv(db) && entry in db.entries && db.entries[entry].status.Waiting? && newOffer !in db.offers
    requires Grantable(db, db.entries[entry].event, db.entries[entry].user, {seat}, newHold, now)
    ensures Inv(AfterOffer(db, entry, seat, newHold, newOffer, expiresAt, now))
  {
    var e := db.entries[entry];
    TakeSeatsInv(db, e.event, e.user, {seat}, expiresAt, newHold, now);
    TakeSeatsTakes(db, e.event, e.user, {seat}, expiresAt, newHold, now);
    PairedInv(db, TakeSeats(db, e.event, e.user, {seat}, expiresAt, newHold, now),
              AfterOffer(db, entry, seat, newHold, newOffer, expiresAt, now), entry, seat, newHold, newOffer, expiresAt, now);
  }

  lemma OfferSeatInv(db: Db, entry: EntryId, seat: SeatId, ttl: int, newHold: HoldId, newOffer: OfferId, now: Instant)
    requires Inv(db) && OfferSeat(db, entry, seat, ttl, newHold, newOffer, now).Paired?
    ensures Inv(OfferSeat(db, entry, seat, ttl, newHold, newOffer, now).db)
  {
    OfferSeatPaired(db, entry, seat, ttl, newHold, newOffer, now);
    AfterOfferInv(db, entry, seat, newHold, newOffer, ExpiryAt(now, ttl), now);
  }

  lemma OfferedInv(t: Db, d: Db, entry: EntryId, newOffer: OfferId, offer: Offer)
    requires Inv(t) && entry in t.entries && t.entries[entry].status.Waiting? && newOffer !in t.offers
    requires d == t.(entries := t.entries[entry := t.entries[entry].(status := EntryStatus.Offered)], offers := t.offers[newOffer := offer])
    requires offer.entry == entry && offer.status.Offered? && OfferOk(d, offer)
    requires forall o :: o in t.offers ==> t.offers[o].hold != offer.hold
    ensures Inv(d)
  {
    OfferedWaitlist(t, d, entry, newOffer, offer);
    SameSales(t, d);
  }
}
