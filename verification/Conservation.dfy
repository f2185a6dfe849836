/** Money and seats balance: what the dashboard sums from bookings equals what it counts from seats. */
module Conservation {
  import opened Schema
  import opened Sums
  import opened Transactions
  import opened Invariant
  import opened Runs
  import opened Evolution
  import opened Guarantees

  // -------------------------------------------------------- sums over an owner

  /** The amounts a holder owns. */
  ghost function Fibre<K, L>(amounts: map<K, nat>, owner: map<K, L>, holder: L): map<K, nat> {
    map k | k in amounts && k in owner && owner[k] == holder :: amounts[k]
  }

  /** Each holder's total is the sum of what it owns. */
  ghost predicate Totals<K(!new), L(!new)>(totals: map<L, nat>, amounts: map<K, nat>, owner: map<K, L>) {
    && (forall k :: k in amounts <==> k in owner)
    && (forall k :: k in owner ==> owner[k] in totals)
    && (forall l :: l in totals ==> totals[l] == Sum(Fibre(amounts, owner, l)))
  }

  /** The amounts, or the owners, of everything `holder` does not own. */
  ghost function Others<K, L, V>(m: map<K, V>, owner: map<K, L>, holder: L): map<K, V> {
    map k | k in m && k in owner && owner[k] != holder :: m[k]
  }

  lemma TotalsOfOthers<K(!new), L(!new)>(totals: map<L, nat>, amounts: map<K, nat>, owner: map<K, L>, l: L)
    requires Totals(totals, amounts, owner) && l in totals
    ensures Totals(totals - {l}, Others(amounts, owner, l), Others(owner, owner, l))
    ensures Splits(amounts, Fibre(amounts, owner, l), Others(amounts, owner, l))
  {
    hide Sum;
    var rest, others := Others(amounts, owner, l), Others(owner, owner, l);
    forall m | m in totals - {l} ensures Fibre(rest, others, m) == Fibre(amounts, owner, m) {
      assert forall k :: k in Fibre(rest, others, m) <==> k in Fibre(amounts, owner, m);
    }
  }

  /** Summing the holders' totals sums every amount once. */
  lemma {:induction false} SumOfTotals<K(!new), L(!new)>(totals: map<L, nat>, amounts: map<K, nat>, owner: map<K, L>)
    requires Totals(totals, amounts, owner)
    ensures Sum(totals) == Sum(amounts)
    decreases |totals|
  {
    hide Splits;
    if totals.Keys == {} {
      assert forall k :: k !in amounts;
      assert totals == map[] && amounts == map[];
    } else {
      hide Sum;
      var l :| l in totals.Keys;
      assert totals[l] == Sum(Fibre(amounts, owner, l));
      TotalsOfOthers(totals, amounts, owner, l);
      hide Totals, Fibre, Others;
      SumParts(amounts, Fibre(amounts, owner, l), Others(amounts, owner, l));
      SumSplit(totals, l);
      SumOfTotals(totals - {l}, Others(amounts, owner, l), Others(owner, owner, l));
    }
  }

  lemma {:induction false} SumOfOnes<K>(m: map<K, nat>)
    requires forall k :: k in m ==> m[k] == 1
    ensures Sum(m) == |m|
    decreases |m|
  {
    if m.Keys != {} {
      var k :| k in m.Keys;
      SumSplit(m, k);
      SumOfOnes(m - {k});
      assert (m - {k}).Keys == m.Keys - {k};
    } else {
      assert m == map[];
    }
  }

  // --------------------------------------------------------------- the summaries

  /** The confirmed bookings of an event, each with its total: the rows behind the revenue. */
  function Revenues(db: Db, event: EventId): map<BookingId, nat> {
    map b | b in db.bookings && db.bookings[b].event == event && db.bookings[b].status.Confirmed? :: db.bookings[b].total
  }

  /** The confirmed bookings of an event, each with the number of its live rows. */
  function SeatsSold(db: Db, event: EventId): map<BookingId, nat> {
    map b | b in db.bookings && db.bookings[b].event == event && db.bookings[b].status.Confirmed? :: |LiveRows(db.bookings[b])|
  }

  /** The event's seats in one status. */
  function SeatsIn(db: Db, event: EventId, status: SeatStatus): set<SeatId> {
    set s | s in db.seats && db.seats[s].event == event && db.seats[s].status == status
  }

  /** Every seat of the event. */
  function SeatsOf(db: Db, event: EventId): set<SeatId> {
    set s | s in db.seats && db.seats[s].event == event
  }

  /** Who owns a booked seat. */
  ghost function Owner(db: Db, s: SeatId): BookingId
    requires exists b :: b in db.bookings && s in LiveRows(db.bookings[b])
  {
    var b :| b in db.bookings && s in LiveRows(db.bookings[b]);
    b
  }

  lemma OwnerIs(db: Db, s: SeatId, b: BookingId)
    requires Inv(db) && b in db.bookings && s in LiveRows(db.bookings[b])
    ensures Owner(db, s) == b
  {
    var c := Owner(db, s);
    assert c != b ==> Disjoint(LiveRows(db.bookings[b]), LiveRows(db.bookings[c]));
  }

  ghost function Owners(db: Db, event: EventId): (owner: map<SeatId, BookingId>)
    requires Inv(db)
    ensures forall s :: s in owner <==> s in SeatsIn(db, event, Booked)
    ensures forall s :: s in owner ==> owner[s] == Owner(db, s)
  {
    assert forall s :: s in SeatsIn(db, event, Booked) ==> SoldLive(db, s);
    map s | s in SeatsIn(db, event, Booked) :: Owner(db, s)
  }

  lemma OwnerSoldIt(db: Db, event: EventId, s: SeatId)
    requires Inv(db) && s in SeatsIn(db, event, Booked)
    ensures SoldLive(db, s)
    ensures var b := Owner(db, s);
            b in db.bookings && s in LiveRows(db.bookings[b]) && db.bookings[b].status.Confirmed? && db.bookings[b].event == event
  {
    assert SoldLive(db, s);
    var b := Owner(db, s);
    assert BookingOk(db, db.bookings[b]);
    assert RowOk(db.bookings[b], db.bookings[b].rows[s], db.seats[s]);
    assert HoldOk(db, db.holds[db.bookings[b].hold]);
  }

  /** A confirmed booking owns exactly its hold's seats. */
  lemma OwnedByBooking(db: Db, event: EventId, b: BookingId, s: SeatId)
    requires Inv(db) && b in db.bookings && db.bookings[b].event == event && db.bookings[b].status.Confirmed?
    ensures s in Owners(db, event) && Owners(db, event)[s] == b <==> s in db.holds[db.bookings[b].hold].seats
    ensures s in LiveRows(db.bookings[b]) <==> s in db.holds[db.bookings[b].hold].seats
  {
    ConfirmedOwnsItsSeats(db, b);
    var hold := db.holds[db.bookings[b].hold];
    assert BookingOk(db, db.bookings[b]) && HoldOk(db, hold);
    assert s in LiveRows(db.bookings[b]) <==> s in db.bookings[b].rows.Keys;
    if s in hold.seats {
      assert RowOk(db.bookings[b], db.bookings[b].rows[s], db.seats[s]);
      OwnerIs(db, s, b);
    } else if s in Owners(db, event) {
      OwnerSoldIt(db, event, s);
    }
  }

  lemma TotalOf(db: Db, b: BookingId)
    requires Inv(db) && b in db.bookings
    ensures db.bookings[b].hold in db.holds
    ensures db.bookings[b].total == Sum(PricesOf(db, db.holds[db.bookings[b].hold].seats))
  {
    assert BookingOk(db, db.bookings[b]);
  }

  lemma RevenueOf(db: Db, event: EventId, b: BookingId)
    requires Inv(db) && b in Revenues(db, event)
    ensures db.bookings[b].total == Sum(Fibre(PricesOf(db, SeatsIn(db, event, Booked)), Owners(db, event), b))
  {
    hide Sum, Inv, Owners;
    TotalOf(db, b);
    var mine := Fibre(PricesOf(db, SeatsIn(db, event, Booked)), Owners(db, event), b);
    var prices := PricesOf(db, db.holds[db.bookings[b].hold].seats);
    forall s ensures s in mine <==> s in prices { OwnedByBooking(db, event, b, s); }
    assert mine == prices;
  }

  lemma RevenueTotals(db: Db, event: EventId)
    requires Inv(db)
    ensures Totals(Revenues(db, event), PricesOf(db, SeatsIn(db, event, Booked)), Owners(db, event))
  {
    hide Sum, Inv, Fibre;
    var amounts, owner := PricesOf(db, SeatsIn(db, event, Booked)), Owners(db, event);
    forall s | s in owner ensures owner[s] in Revenues(db, event) { OwnerSoldIt(db, event, s); }
    forall b | b in Revenues(db, event)
      ensures Revenues(db, event)[b] == Sum(Fibre(amounts, owner, b))
    {
      RevenueOf(db, event, b);
    }
  }

  function Ones(ids: set<SeatId>): map<SeatId, nat> {
    map s | s in ids :: 1
  }

  lemma SoldTotals(db: Db, event: EventId)
    requires Inv(db)
    ensures Totals(SeatsSold(db, event), Ones(SeatsIn(db, event, Booked)), Owners(db, event))
  {
    var amounts, owner := Ones(SeatsIn(db, event, Booked)), Owners(db, event);
    forall s | s in owner ensures owner[s] in SeatsSold(db, event) { OwnerSoldIt(db, event, s); }
    forall b | b in SeatsSold(db, event)
      ensures SeatsSold(db, event)[b] == Sum(Fibre(amounts, owner, b))
    {
      forall s ensures s in Fibre(amounts, owner, b) <==> s in LiveRows(db.bookings[b]) { OwnedByBooking(db, event, b, s); }
      assert Fibre(amounts, owner, b).Keys == LiveRows(db.bookings[b]);
      SumOfOnes(Fibre(amounts, owner, b));
    }
  }

  /**
   After any run, for every event: the revenue summed over confirmed bookings is
   the sum of the prices of its booked seats, and the seats on those bookings
   are as many as the booked seats.
   */
  lemma RevenueIsBookedSeats(initial: Db, steps: seq<Step>, event: EventId)
    requires Initial(initial)
    ensures var db := Run(initial, steps);
            && Sum(Revenues(db, event)) == Sum(PricesOf(db, SeatsIn(db, event, Booked)))
            && Sum(SeatsSold(db, event)) == |SeatsIn(db, event, Booked)|
  {
    hide Inv, Initial, Run, Totals;
    InitialInv(initial);
    RunInv(initial, steps);
    var db := Run(initial, steps);
    RevenueTotals(db, event);
    SumOfTotals(Revenues(db, event), PricesOf(db, SeatsIn(db, event, Booked)), Owners(db, event));
    SoldTotals(db, event);
    SumOfTotals(SeatsSold(db, event), Ones(SeatsIn(db, event, Booked)), Owners(db, event));
    SumOfOnes(Ones(SeatsIn(db, event, Booked)));
    assert Ones(SeatsIn(db, event, Booked)).Keys == SeatsIn(db, event, Booked);
  }

  /** A booking's total is the sum of its row prices when it is written and for ever after, cancelled or not. */
  lemma TotalIsItsRows(initial: Db, steps: seq<Step>, later: seq<Step>, b: BookingId)
    requires Initial(initial) && b in Run(initial, steps).bookings
    ensures var booking := Run(initial, steps).bookings[b];
            && booking.total == Sum(RowPrices(booking))
            && b in Run(Run(initial, steps), later).bookings
            && var after := Run(Run(initial, steps), later).bookings[b];
               after.total == booking.total && RowPrices(after) == RowPrices(booking)
  {
    hide Inv, Initial, Run;
    InitialInv(initial);
    RunInv(initial, steps);
    var db := Run(initial, steps);
    RunEvolves(db, later);
    PricesAgree(db, b);
    var booking, after := db.bookings[b], Run(db, later).bookings[b];
    assert BookingEvolves(booking, after);
    forall s | s in booking.rows ensures RowPrices(after)[s] == RowPrices(booking)[s] {
      assert RowEvolves(booking.rows[s], after.rows[s]);
    }
    assert forall s :: s in RowPrices(after) <==> s in RowPrices(booking);
    assert RowPrices(after) == RowPrices(booking);
  }

  lemma PricesAgree(db: Db, b: BookingId)
    requires Inv(db) && b in db.bookings
    ensures db.bookings[b].total == Sum(RowPrices(db.bookings[b]))
  {
    hide Sum, SeatsOk, HoldsOk, WaitlistOk, SoldOnce, Accounted, TicketOk;
    var booking := db.bookings[b];
    assert BookingOk(db, booking);
    var prices := PricesOf(db, db.holds[booking.hold].seats);
    forall s | s in booking.rows ensures s in prices && prices[s] == RowPrices(booking)[s] {
      assert RowOk(booking, booking.rows[s], db.seats[s]);
    }
    assert forall s :: s in RowPrices(booking) <==> s in prices;
    assert RowPrices(booking) == prices;
  }

  lemma SizeOfTwo<T>(whole: set<T>, a: set<T>, b: set<T>)
    requires a !! b && whole == a + b
    ensures |whole| == |a| + |b|
  {
  }

  lemma SizeOfParts<T(!new)>(whole: set<T>, a: set<T>, b: set<T>, c: set<T>)
    requires forall s :: s in whole <==> s in a || s in b || s in c
    requires forall s :: !(s in a && s in b) && !(s in a && s in c) && !(s in b && s in c)
    ensures |a| + |b| + |c| == |whole|
  {
    assert a * b == {} && (a + b) * c == {};
    assert whole == (a + b) + c;
    SizeOfTwo(a + b, a, b);
    SizeOfTwo(whole, a + b, c);
  }

  /** available + held + booked is the event's seat count, and no run changes it. */
  lemma SeatsAreConserved(db: Db, steps: seq<Step>, event: EventId)
    requires Inv(db)
    ensures var d := Run(db, steps);
            && |SeatsIn(d, event, Available)| + |SeatsIn(d, event, Held)| + |SeatsIn(d, event, Booked)| == |SeatsOf(db, event)|
            && SeatsOf(d, event) == SeatsOf(db, event)
  {
    hide Inv, Run;
    RunEvolves(db, steps);
    var d := Run(db, steps);
    var free, held, booked := SeatsIn(d, event, Available), SeatsIn(d, event, Held), SeatsIn(d, event, Booked);
    assert forall s :: s in SeatsOf(d, event) <==> s in SeatsOf(db, event);
    assert SeatsOf(d, event) == SeatsOf(db, event);
    assert forall s :: s in SeatsOf(d, event) <==> s in free || s in held || s in booked;
    SizeOfParts(SeatsOf(d, event), free, held, booked);
  }
}
