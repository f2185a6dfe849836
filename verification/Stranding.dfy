/**
 Two things one would expect and the code does not keep - an offer never outlives
 the hold behind it, a held seat always has an active hold - with the exact steps
 that break them, and what is true afterwards.
 */
module Stranding {
  import opened Schema
  import opened Transactions
  import opened Invariant
  import opened Allocation
  import opened Runs
  import opened Evolution
  import opened Wrappers

  // ------------------------------------------------- offers that outlive a hold

  /** The offer still reads as live, but its hold is over. */
  ghost predicate Stranded(db: Db, o: OfferId) {
    && o in db.offers && db.offers[o].status.Offered?
    && !(db.offers[o].hold in db.holds && db.holds[db.offers[o].hold].status.Active?)
  }

  ghost predicate NoneStranded(db: Db) {
    forall o :: !Stranded(db, o)
  }

  /** Some live offer is backed by one of these holds. */
  ghost predicate BacksOffer(db: Db, hs: set<HoldId>) {
    exists o :: o in db.offers && db.offers[o].status.Offered? && db.offers[o].hold in hs
  }

  /**
   The two ways to end an offer's hold behind the offer's back: reserving its
   seat after the hold lapsed and before the sweep came, and confirming the hold
   directly instead of accepting the offer.
   */
  ghost predicate Strands(db: Db, step: Step) {
    match step
    case Reserve(event, user, ids, ttl, newHold, now) =>
      && Grantable(db, event, user, ids, newHold, now) && |ids| <= MAX_SEATS_PER_HOLD
      && BacksOffer(db, LapsedOver(db, ids, now))
    case ConfirmHold(user, event, hold, newBooking, now) =>
      Confirmable(db, user, event, hold, newBooking, now) && BacksOffer(db, {hold})
    case _ => false
  }

  lemma TakesStrand(db: Db, d: Db, hold: Hold, newHold: HoldId, now: Instant)
    requires WaitlistOk(db) && NoneStranded(db) && newHold !in db.holds && Takes(db, d, hold, newHold, now)
    ensures NoneStranded(d) <==> !BacksOffer(db, LapsedOver(db, hold.seats, now))
  {
    forall o | o in db.offers ensures Stranded(d, o) <==> db.offers[o].status.Offered? && db.offers[o].hold in LapsedOver(db, hold.seats, now) {
      assert OfferOk(db, db.offers[o]);
      assert !Stranded(db, o);
    }
  }

  lemma SellsStrand(db: Db, d: Db, h: HoldId, b: BookingId)
    requires NoneStranded(db) && h in db.holds && Sells(db, d, h, b)
    ensures NoneStranded(d) <==> !BacksOffer(db, {h})
  {
    forall o | o in db.offers ensures Stranded(d, o) <==> db.offers[o].status.Offered? && db.offers[o].hold in {h} {
      assert !Stranded(db, o);
    }
  }

  lemma EndsStrandNothing(db: Db, d: Db, h: HoldId, status: HoldStatus)
    requires NoneStranded(db) && h in db.holds && Ends(db, d, h, status)
    ensures NoneStranded(d)
  {
    forall o | o in d.offers ensures !Stranded(d, o) {
      assert !Stranded(db, o);
    }
  }

  lemma SameOffers(db: Db, d: Db)
    requires NoneStranded(db) && d.offers == db.offers && d.holds == db.holds
    ensures NoneStranded(d)
  {
    forall o ensures !Stranded(d, o) { assert !Stranded(db, o); }
  }

  lemma ReserveStrands(db: Db, event: EventId, user: UserId, ids: set<SeatId>, ttl: int, newHold: HoldId, now: Instant)
    requires Inv(db) && NoneStranded(db)
    ensures NoneStranded(CreateHold(db, event, user, ids, ttl, newHold, now).db)
            <==> !Strands(db, Reserve(event, user, ids, ttl, newHold, now))
  {
    hide HoldVerdict, TakeSeats, NoneStranded, BacksOffer;
    HoldVerdictGrants(db, event, user, ids, newHold, now);
    if newHold !in db.holds {
      TakeSeatsTakes(db, event, user, ids, ExpiryAt(now, ttl), newHold, now);
      TakesStrand(db, TakeSeats(db, event, user, ids, ExpiryAt(now, ttl), newHold, now),
                  Hold(event, user, Active, ExpiryAt(now, ttl), ids), newHold, now);
    }
  }

  lemma ConfirmStrands(db: Db, user: UserId, event: EventId, hold: HoldId, newBooking: BookingId, now: Instant)
    requires Inv(db) && NoneStranded(db)
    ensures NoneStranded(Confirm(db, user, event, hold, newBooking, now).db)
            <==> !Strands(db, ConfirmHold(user, event, hold, newBooking, now))
  {
    hide Inv, Confirm, NoneStranded, BacksOffer, Sells;
    ConfirmRefusalRollsBack(db, user, event, hold, newBooking, now);
    ConfirmAnswers(db, user, event, hold, newBooking, now);
    if Confirmable(db, user, event, hold, newBooking, now) {
      ConfirmSells(db, user, event, hold, newBooking, now);
      SellsStrand(db, Confirm(db, user, event, hold, newBooking, now).db, hold, newBooking);
    }
  }

  lemma CancelStrandsNothing(db: Db, user: UserId, booking: BookingId)
    requires NoneStranded(db)
    ensures NoneStranded(CancelBooking(db, user, booking).db)
  {
    hide NoneStranded;
    SameOffers(db, CancelBooking(db, user, booking).db);
  }

  lemma EndHoldStrandsNothing(db: Db, h: HoldId, status: HoldStatus, now: Instant)
    requires Inv(db) && NoneStranded(db) && h in db.holds && db.holds[h].status.Active? && !status.Active?
    ensures NoneStranded(EndHold(db, h, status, now).db)
  {
    hide EndHold, NoneStranded;
    EndHoldEnds(db, h, status, now);
    EndsStrandNothing(db, EndHold(db, h, status, now).db, h, status);
  }

  /** A pairing cannot reclaim an offer's hold: an offer of the same seat would have stopped it first. */
  lemma PairingStrandsNothing(db: Db, entry: EntryId, seat: SeatId, ttl: int, newHold: HoldId, newOffer: OfferId, now: Instant)
    requires Inv(db) && NoneStranded(db) && OfferSeat(db, entry, seat, ttl, newHold, newOffer, now).Paired?
    ensures NoneStranded(OfferSeat(db, entry, seat, ttl, newHold, newOffer, now).db)
  {
    hide OfferSeat, TakeSeats;
    OfferSeatPaired(db, entry, seat, ttl, newHold, newOffer, now);
    var e := db.entries[entry];
    var t := TakeSeats(db, e.event, e.user, {seat}, ExpiryAt(now, ttl), newHold, now);
    TakeSeatsTakes(db, e.event, e.user, {seat}, ExpiryAt(now, ttl), newHold, now);
    forall o | o in db.offers && db.offers[o].status.Offered? ensures db.offers[o].hold !in LapsedOver(db, {seat}, now) {
      assert OfferOk(db, db.offers[o]);
      assert db.offers[o].seat != seat;
    }
    TakesStrand(db, t, Hold(e.event, e.user, Active, ExpiryAt(now, ttl), {seat}), newHold, now);
    var d := OfferSeat(db, entry, seat, ttl, newHold, newOffer, now).db;
    forall o | o in d.offers ensures !Stranded(d, o) {
      assert !Stranded(t, o);
    }
  }

  lemma {:induction false} PassStrandsNothing(db: Db, event: EventId, category: Category, draws: seq<Draw>, ttl: int, now: Instant)
    requires Inv(db) && NoneStranded(db)
    ensures NoneStranded(Pass(db, event, category, draws, ttl, now).db)
    decreases |draws|
  {
    hide Inv, OfferSeat, NoneStranded;
    if draws != [] {
      var next := NextWaiting(db, event, category, draws[0].locked);
      if next.Some? && draws[0].seat.Some? {
        match OfferSeat(db, next.value, draws[0].seat.value, ttl, draws[0].newHold, draws[0].newOffer, now)
        case Aborted(_) =>
        case Raced => PassStrandsNothing(db, event, category, draws[1..], ttl, now);
        case Paired(d) =>
          OfferSeatInv(db, next.value, draws[0].seat.value, ttl, draws[0].newHold, draws[0].newOffer, now);
          PairingStrandsNothing(db, next.value, draws[0].seat.value, ttl, draws[0].newHold, draws[0].newOffer, now);
          PassStrandsNothing(d, event, category, draws[1..], ttl, now);
      }
    }
  }

  lemma AllocateStrandsNothing(db: Db, queue: Queue, draws: seq<Draw>, ttl: int, now: Instant)
    requires Inv(db) && NoneStranded(db)
    ensures NoneStranded(AllocateSignal(db, queue, draws, ttl, now))
  {
    hide Inv, Pass, NoneStranded;
    var tried := if |draws| <= MAX_PAIRINGS_PER_PASS then draws else draws[..MAX_PAIRINGS_PER_PASS];
    PassStrandsNothing(db, queue.event, queue.category, tried, ttl, now);
    var r := RunPass(db, queue.event, queue.category, draws, ttl, now);
    SameOffers(r.db, r.db.(signals := r.db.signals - {queue}));
  }

  lemma AcceptStrandsNothing(db: Db, user: UserId, offer: OfferId, newBooking: BookingId, now: Instant)
    requires Inv(db) && NoneStranded(db)
    ensures NoneStranded(Accept(db, user, offer, newBooking, now).db)
  {
    hide Confirm, Confirmable, HoldsOk, SalesOk, SeatsOk;
    AcceptAnswers(db, user, offer, newBooking, now);
    if Acceptable(db, user, offer, newBooking, now) {
      var o := db.offers[offer];
      ConfirmSells(db, user, db.holds[o.hold].event, o.hold, newBooking, now);
      var d := Accept(db, user, offer, newBooking, now).db;
      forall p | p in d.offers ensures !Stranded(d, p) {
        assert !Stranded(db, p);
        assert db.offers[p].hold == o.hold ==> p == offer;
      }
    }
  }

  /** From a state without stranded offers, a step strands one exactly when it is one of the two named. */
  lemma OffersStrandedExactlyBy(db: Db, step: Step)
    requires Inv(db) && NoneStranded(db)
    ensures NoneStranded(Apply(db, step)) <==> !Strands(db, step)
  {
    hide Inv, CreateHold, Confirm, CancelBooking, EndHold, AllocateSignal, Accept, Issue, Verify, NoneStranded;
    match step
    case Reserve(event, user, ids, ttl, newHold, now) => ReserveStrands(db, event, user, ids, ttl, newHold, now);
    case ConfirmHold(user, event, hold, newBooking, now) => ConfirmStrands(db, user, event, hold, newBooking, now);
    case CancelSale(user, booking) => CancelStrandsNothing(db, user, booking);
    case SweepHold(hold, now) =>
      if hold in db.holds && db.holds[hold].status.Active? { EndHoldStrandsNothing(db, hold, HoldStatus.Expired, now); }
    case ReleaseHold(user, event, hold, now) =>
      if hold in db.holds && db.holds[hold].status.Active? { EndHoldStrandsNothing(db, hold, HoldStatus.Cancelled, now); }
    case JoinLine(_, _, _, _, _) => SameOffers(db, Apply(db, step));
    case LeaveLine(_, _) => SameOffers(db, Apply(db, step));
    case Allocate(queue, draws, ttl, now) => AllocateStrandsNothing(db, queue, draws, ttl, now);
    case Reconcile(_) => SameOffers(db, Apply(db, step));
    case AcceptOffer(user, offer, newBooking, now) => AcceptStrandsNothing(db, user, offer, newBooking, now);
    case IssueTickets(user, role, booking) => IssueNeverCommits(db, user, role, booking);
    case VerifyTicket(user, role, booking, seat) =>
      VerifySameOffers(db, user, role, booking, seat);
      SameOffers(db, Apply(db, step));
  }

  lemma VerifySameOffers(db: Db, user: UserId, role: Role, booking: BookingId, seat: SeatId)
    ensures Verify(db, user, role, booking, seat).db.offers == db.offers
    ensures Verify(db, user, role, booking, seat).db.holds == db.holds
  {
  }

  /** Any live offer whose hold has lapsed unswept can be stranded, by any customer asking for its seat. */
  lemma LapsedOfferCanBeStranded(db: Db, o: OfferId, user: UserId, ttl: int, newHold: HoldId, now: Instant)
    requires Inv(db) && o in db.offers && db.offers[o].status.Offered? && user in db.world.users && newHold !in db.holds
    requires db.holds[db.offers[o].hold].status.Active? && db.holds[db.offers[o].hold].expiresAt <= now
    ensures Stranded(Apply(db, Reserve(db.holds[db.offers[o].hold].event, user, {db.offers[o].seat}, ttl, newHold, now)), o)
  {
    hide HoldVerdict, TakeSeats, SeatsOk, SalesOk;
    var h, seat := db.offers[o].hold, db.offers[o].seat;
    var event := db.holds[h].event;
    assert OfferOk(db, db.offers[o]) && HoldOk(db, db.holds[h]);
    assert seat in db.holds[h].seats;
    forall g | g in db.holds && g != h && db.holds[g].status.Active? ensures seat !in db.holds[g].seats {
      assert Disjoint(db.holds[g].seats, db.holds[h].seats);
    }
    assert Grantable(db, event, user, {seat}, newHold, now);
    HoldVerdictGrants(db, event, user, {seat}, newHold, now);
    TakeSeatsTakes(db, event, user, {seat}, ExpiryAt(now, ttl), newHold, now);
    assert h in LapsedOver(db, {seat}, now);
  }

  // ---------------------------------------------------------------- witness runs

  /** One published event of one seat, three users, nothing reserved. */
  function OneSeatShow(): Db {
    Db(World(map[1 := Event(true, 3)], {1, 2, 3}), map[1 := Seat(1, 0, 100, Available, 0)], map[1 := []],
       map[], map[], map[], map[], {})
  }

  /** User 1 queues and is offered the seat until 10; user 2 asks for it at 20, before any sweep. */
  function OfferThenRequest(): seq<Step> {
    [JoinLine(1, 1, 0, 1, 0), Reconcile(Queue(1, 0)), Allocate(Queue(1, 0), [Draw({}, Some(1), 1, 1)], 10, 0),
     Reserve(1, 2, {1}, 10, 2, 20)]
  }

  /** After the join and the signal: entry 1 heads the line, seat 1 tops the shelf. */
  lemma QueuedUp(db: Db)
    requires db == Run(OneSeatShow(), OfferThenRequest()[..2])
    ensures Inv(db) && Queue(1, 0) in db.signals && db.holds == map[] && db.offers == map[] && db.world == OneSeatShow().world
    ensures InLine(db, 1, 0) == {1} && OnSale(db, 1, 0) == {1} && 1 in db.entries && db.entries[1] == Entry(1, 1, 0, Waiting, 0)
  {
    hide Inv;
    var start := OneSeatShow();
    var joined := Apply(start, JoinLine(1, 1, 0, 1, 0));
    InitialInv(start);
    RunInv(start, OfferThenRequest()[..2]);
    assert 1 in start.seats && start.seats[1].event == 1;
    assert joined == start.(entries := map[1 := Entry(1, 1, 0, Waiting, 0)]);
    assert 1 in InLine(joined, 1, 0) && 1 in OnSale(joined, 1, 0);
    assert OfferThenRequest()[..2] == [JoinLine(1, 1, 0, 1, 0), Reconcile(Queue(1, 0))];
    assert Run(joined, [Reconcile(Queue(1, 0))]) == Apply(joined, Reconcile(Queue(1, 0)));
    assert db == joined.(signals := {Queue(1, 0)});
  }

  /** The pass pairs them. */
  lemma SeatOffered(db: Db, d: Db)
    requires db == Run(OneSeatShow(), OfferThenRequest()[..2])
    requires d == Apply(db, OfferThenRequest()[2])
    ensures Inv(d) && d.world == OneSeatShow().world && 1 in d.offers && d.offers[1] == Offer(1, 1, 1, 10, OfferStatus.Offered)
    ensures d.holds == map[1 := Hold(1, 1, Active, 10, {1})]
  {
    hide Inv, OfferSeat, TakeSeats, IsLine, InLine, OnSale, Run;
    QueuedUp(db);
    ApplyInv(db, OfferThenRequest()[2]);
    assert IsLine(db, 1, 0, [1]) by { OnlyInLine(db); }
    NextIsHead(db, 1, 0, [1]);
    OnSaleIsOfferable(db, 1, 0, 1, 1, 10, 1, 1, 0);
    var draws := [Draw({}, Some(1), 1, 1)];
    var after := AfterOffer(db, 1, 1, 1, 1, ExpiryAt(0, 10), 0);
    assert Pass(after, 1, 0, draws[1..], 10, 0) == PassResult(after, [], 0, None);
    assert d.(signals := after.signals) == after;
    TakeSeatsTakes(db, 1, 1, {1}, ExpiryAt(0, 10), 1, 0);
    assert forall h :: h in d.holds <==> h == 1;
  }

  lemma OnlyInLine(db: Db)
    requires InLine(db, 1, 0) == {1}
    ensures IsLine(db, 1, 0, [1])
  {
  }

  /** A reachable state in which an offer still reads as live after its hold is over. */
  lemma OfferOutlivesItsHold()
    ensures Initial(OneSeatShow()) && Stranded(Run(OneSeatShow(), OfferThenRequest()), 1)
  {
    hide Inv, Apply, Stranded;
    var steps := OfferThenRequest();
    var queued := Run(OneSeatShow(), steps[..2]);
    var offered := Apply(queued, steps[2]);
    SeatOffered(queued, offered);
    LapsedOfferCanBeStranded(offered, 1, 2, 10, 2, 20);
    RunAppends(OneSeatShow(), steps[..2], steps[2]);
    RunAppends(OneSeatShow(), steps[..3], steps[3]);
    assert steps[..2] + [steps[2]] == steps[..3] && steps[..3] + [steps[3]] == steps;
  }

  lemma {:induction false} RunAppends(db: Db, steps: seq<Step>, step: Step)
    ensures Run(db, steps + [step]) == Apply(Run(db, steps), step)
    decreases |steps|
  {
    hide Apply;
    if steps == [] {
      assert ([] + [step])[1..] == [];
    } else {
      assert (steps + [step])[1..] == steps[1..] + [step];
      RunAppends(Apply(db, steps[0]), steps[1..], step);
    }
  }

  // ------------------------------------------------------------ and never recover

  /** Offers already stranded are left standing. */
  ghost predicate LeavesStranded(db: Db, d: Db) {
    forall o :: Stranded(db, o) ==> o in d.offers && d.offers[o].status.Offered?
  }

  lemma PassLeavesStranded(db: Db, event: EventId, category: Category, draws: seq<Draw>, ttl: int, now: Instant)
    ensures LeavesStranded(db, Pass(db, event, category, draws, ttl, now).db)
  {
    hide Pass;
    PassRecordsOffers(db, event, category, draws, ttl, now);
  }

  lemma ApplyLeavesStranded(db: Db, step: Step)
    requires Inv(db)
    ensures LeavesStranded(db, Apply(db, step))
  {
    hide Inv, HoldVerdict, TakeSeats, Confirm, CancelBooking, EndHold, Pass, Accept, Issue, Verify, Sells, Confirmable;
    match step
    case Reserve(event, user, ids, ttl, newHold, now) =>
      HoldVerdictGrants(db, event, user, ids, newHold, now);
      if newHold !in db.holds { TakeSeatsTakes(db, event, user, ids, ExpiryAt(now, ttl), newHold, now); }
    case ConfirmHold(user, event, hold, newBooking, now) => ConfirmSameOffers(db, user, event, hold, newBooking, now);
    case CancelSale(user, booking) => CancelSameOffers(db, user, booking);
    case SweepHold(hold, now) =>
      if hold in db.holds && db.holds[hold].status.Active? { EndHoldLeavesStranded(db, hold, HoldStatus.Expired, now); }
    case ReleaseHold(user, event, hold, now) =>
      if hold in db.holds && db.holds[hold].status.Active? { EndHoldLeavesStranded(db, hold, HoldStatus.Cancelled, now); }
    case Allocate(queue, draws, ttl, now) =>
      var tried := if |draws| <= MAX_PAIRINGS_PER_PASS then draws else draws[..MAX_PAIRINGS_PER_PASS];
      PassLeavesStranded(db, queue.event, queue.category, tried, ttl, now);
    case AcceptOffer(user, offer, newBooking, now) => AcceptLeavesStranded(db, user, offer, newBooking, now);
    case IssueTickets(user, role, booking) => IssueNeverCommits(db, user, role, booking);
    case VerifyTicket(user, role, booking, seat) => VerifySameOffers(db, user, role, booking, seat);
    case _ =>
  }

  lemma ConfirmSameOffers(db: Db, user: UserId, event: EventId, hold: HoldId, newBooking: BookingId, now: Instant)
    requires Inv(db)
    ensures Confirm(db, user, event, hold, newBooking, now).db.offers == db.offers
  {
    hide Inv, Confirm;
    ConfirmRefusalRollsBack(db, user, event, hold, newBooking, now);
    ConfirmAnswers(db, user, event, hold, newBooking, now);
  }

  lemma CancelSameOffers(db: Db, user: UserId, booking: BookingId)
    ensures CancelBooking(db, user, booking).db.offers == db.offers
  {
  }

  lemma EndHoldLeavesStranded(db: Db, h: HoldId, status: HoldStatus, now: Instant)
    requires Inv(db) && h in db.holds && db.holds[h].status.Active? && !status.Active?
    ensures LeavesStranded(db, EndHold(db, h, status, now).db)
  {
    hide EndHold;
    EndHoldEnds(db, h, status, now);
  }

  lemma AcceptLeavesStranded(db: Db, user: UserId, offer: OfferId, newBooking: BookingId, now: Instant)
    requires Inv(db)
    ensures LeavesStranded(db, Accept(db, user, offer, newBooking, now).db)
  {
    hide Inv, Confirm;
    AcceptAnswers(db, user, offer, newBooking, now);
    if Acceptable(db, user, offer, newBooking, now) {
      ConfirmSameOffers(db, user, db.holds[db.offers[offer].hold].event, db.offers[offer].hold, newBooking, now);
    }
  }

  lemma StaysStranded(db: Db, d: Db, o: OfferId)
    requires WaitlistOk(db) && Evolves(db, d) && LeavesStranded(db, d) && Stranded(db, o)
    ensures Stranded(d, o)
  {
    assert OfferOk(db, db.offers[o]);
  }

  /** No run ever clears a stranded offer. */
  lemma {:induction false} StrandedForever(db: Db, steps: seq<Step>, o: OfferId)
    requires Inv(db) && Stranded(db, o)
    ensures Stranded(Run(db, steps), o)
    decreases |steps|
  {
    hide Apply, Evolves, Stranded, LeavesStranded, WaitlistOk, SeatsOk, HoldsOk, SalesOk;
    if steps != [] {
      ApplyInv(db, steps[0]);
      ApplyEvolves(db, steps[0]);
      ApplyLeavesStranded(db, steps[0]);
      StaysStranded(db, Apply(db, steps[0]), o);
      StrandedForever(Apply(db, steps[0]), steps[1..], o);
    }
  }

  /** So its seat is never offered to anyone again, and its entry's user never gets back in that line. */
  lemma StrandedShutsOut(db: Db, steps: seq<Step>, o: OfferId, entry: EntryId, ttl: int, newHold: HoldId, newOffer: OfferId,
                         newEntry: EntryId, now: Instant)
    requires Inv(db) && Stranded(db, o)
    ensures var d := Run(db, steps); var offer, e := db.offers[o], db.entries[db.offers[o].entry];
            && !OfferSeat(d, entry, offer.seat, ttl, newHold, newOffer, now).Paired?
            && Join(d, e.event, e.user, e.category, newEntry, now).out.Fail?
  {
    hide Run, Apply;
    StrandedForever(db, steps, o);
    RunInv(db, steps);
    RunEvolves(db, steps);
    var d := Run(db, steps);
    assert OfferOk(d, d.offers[o]) && OfferOk(db, db.offers[o]);
    var e := db.entries[db.offers[o].entry];
    assert Rivals(d.entries[db.offers[o].entry], Entry(e.event, e.user, e.category, Waiting, now));
  }

  // ------------------------------------------------------------- orphaned seats

  /** Flagged held, with no active hold to show for it. */
  ghost predicate Orphan(db: Db, s: SeatId) {
    s in db.seats && db.seats[s].status.Held? && !exists h :: h in db.holds && db.holds[h].status.Active? && s in db.holds[h].seats
  }

  ghost predicate NoneOrphaned(db: Db) {
    forall s :: !Orphan(db, s)
  }

  /** Some lapsed hold over the seats taken also covers a seat that is not taken. */
  ghost predicate LeavesBehind(db: Db, taken: set<SeatId>, now: Instant) {
    exists h, s :: h in LapsedOver(db, taken, now) && s in db.holds[h].seats && s !in taken
  }

  /** These seats, and no others, went to new holds that cover nothing else; the lapsed holds over them expired. */
  ghost predicate TakesAll(db: Db, d: Db, taken: set<SeatId>, now: Instant) {
    && (forall s :: s in d.seats <==> s in db.seats)
    && (forall s :: s in d.seats && s !in taken ==> d.seats[s] == db.seats[s])
    && (forall s :: s in d.seats && s in taken ==> d.seats[s].status.Held? && NewlyHeld(db, d, s))
    && (forall h :: h in db.holds ==>
          h in d.holds && d.holds[h] == if h in LapsedOver(db, taken, now) then db.holds[h].(status := HoldStatus.Expired) else db.holds[h])
    && (forall h :: h in d.holds && h !in db.holds ==> d.holds[h].status.Active? && d.holds[h].seats <= taken)
  }

  ghost predicate NewlyHeld(db: Db, d: Db, s: SeatId) {
    exists h :: h in d.holds && h !in db.holds && s in d.holds[h].seats
  }

  /** Taking seats orphans others exactly when a hold it reclaims covers a seat it leaves. */
  lemma TakingAllOrphans(db: Db, d: Db, taken: set<SeatId>, now: Instant)
    requires HoldsOk(db) && NoneOrphaned(db) && TakesAll(db, d, taken, now)
    ensures NoneOrphaned(d) <==> !LeavesBehind(db, taken, now)
  {
    if LeavesBehind(db, taken, now) {
      var h, s :| h in LapsedOver(db, taken, now) && s in db.holds[h].seats && s !in taken;
      ReclaimedIsOrphaned(db, d, taken, now, h, s);
    } else {
      forall s | s in d.seats && d.seats[s].status.Held? ensures !Orphan(d, s) {
        if s in taken {
          assert NewlyHeld(db, d, s);
        } else {
          assert !Orphan(db, s);
          var h :| h in db.holds && db.holds[h].status.Active? && s in db.holds[h].seats;
          assert h in d.holds && d.holds[h] == db.holds[h];
        }
      }
    }
  }

  lemma ReclaimedIsOrphaned(db: Db, d: Db, taken: set<SeatId>, now: Instant, h: HoldId, s: SeatId)
    requires HoldsOk(db) && TakesAll(db, d, taken, now)
    requires h in LapsedOver(db, taken, now) && s in db.holds[h].seats && s !in taken
    ensures Orphan(d, s)
  {
    assert HoldOk(db, db.holds[h]);
    forall g | g in d.holds && d.holds[g].status.Active? ensures s !in d.holds[g].seats {
      if g in db.holds {
        assert g != h && db.holds[g].status.Active?;
        assert Disjoint(db.holds[h].seats, db.holds[g].seats);
      }
    }
  }

  lemma TakesIsTakingAll(db: Db, d: Db, hold: Hold, newHold: HoldId, now: Instant)
    requires newHold !in db.holds && hold.status.Active? && Takes(db, d, hold, newHold, now)
    ensures TakesAll(db, d, hold.seats, now)
  {
    forall s | s in hold.seats ensures NewlyHeld(db, d, s) { assert newHold in d.holds && s in d.holds[newHold].seats; }
  }

  /** One pairing, then others for other seats. */
  lemma TakesAllCompose(db: Db, d: Db, e: Db, seat: SeatId, rest: set<SeatId>, now: Instant)
    requires TakesAll(db, d, {seat}, now) && TakesAll(d, e, rest, now) && seat !in rest
    ensures TakesAll(db, e, {seat} + rest, now)
  {
    forall h | h in d.holds && h !in db.holds ensures e.holds[h] == d.holds[h] && d.holds[h].seats <= {seat} + rest {
      assert h !in LapsedOver(d, rest, now);
    }
    forall h | h in db.holds
      ensures e.holds[h] == if h in LapsedOver(db, {seat} + rest, now) then db.holds[h].(status := HoldStatus.Expired) else db.holds[h]
    {
      assert Disjoint(db.holds[h].seats, {seat} + rest) <==> Disjoint(db.holds[h].seats, {seat}) && Disjoint(db.holds[h].seats, rest);
    }
    forall s | s in e.seats && s in {seat} + rest ensures e.seats[s].status.Held? && NewlyHeld(db, e, s) {
      if s in rest {
        assert NewlyHeld(d, e, s);
      } else {
        assert NewlyHeld(db, d, s);
      }
    }
  }

  lemma TakingOrphans(db: Db, event: EventId, user: UserId, ids: set<SeatId>, expiresAt: Instant, newHold: HoldId, now: Instant)
    requires Inv(db) && NoneOrphaned(db) && Grantable(db, event, user, ids, newHold, now)
    ensures NoneOrphaned(TakeSeats(db, event, user, ids, expiresAt, newHold, now)) <==> !LeavesBehind(db, ids, now)
  {
    hide TakeSeats, SeatsOk, SalesOk, WaitlistOk, HoldsOk, Takes, TakesAll, NoneOrphaned, LeavesBehind;
    var d := TakeSeats(db, event, user, ids, expiresAt, newHold, now);
    TakeSeatsTakes(db, event, user, ids, expiresAt, newHold, now);
    TakesIsTakingAll(db, d, Hold(event, user, Active, expiresAt, ids), newHold, now);
    TakingAllOrphans(db, d, ids, now);
  }

  // ------------------------------------------------------ orphans of a whole pass

  function SeatsOf(pairs: seq<Pair>): set<SeatId> {
    set i | 0 <= i < |pairs| :: pairs[i].seat
  }

  lemma OnePairMoreSeats(pair: Pair, rest: seq<Pair>)
    ensures SeatsOf([pair] + rest) == {pair.seat} + SeatsOf(rest)
  {
    var pairs := [pair] + rest;
    forall s | s in {pair.seat} + SeatsOf(rest) ensures s in SeatsOf(pairs) {
      if s == pair.seat {
        assert pairs[0].seat == s;
      } else {
        var i :| 0 <= i < |rest| && rest[i].seat == s;
        assert pairs[i + 1].seat == s;
      }
    }
  }

  lemma PairingTakes(db: Db, entry: EntryId, seat: SeatId, ttl: int, newHold: HoldId, newOffer: OfferId, now: Instant)
    requires OfferSeat(db, entry, seat, ttl, newHold, newOffer, now).Paired?
    ensures TakesAll(db, OfferSeat(db, entry, seat, ttl, newHold, newOffer, now).db, {seat}, now)
  {
    hide OfferSeat, TakeSeats, Takes;
    OfferSeatPaired(db, entry, seat, ttl, newHold, newOffer, now);
    var e := db.entries[entry];
    var t := TakeSeats(db, e.event, e.user, {seat}, ExpiryAt(now, ttl), newHold, now);
    TakeSeatsTakes(db, e.event, e.user, {seat}, ExpiryAt(now, ttl), newHold, now);
    TakesIsTakingAll(db, t, Hold(e.event, e.user, Active, ExpiryAt(now, ttl), {seat}), newHold, now);
  }

  lemma NothingTaken(db: Db, now: Instant)
    ensures TakesAll(db, db, SeatsOf([]), now)
  {
    assert forall h :: h in db.holds ==> Disjoint(db.holds[h].seats, SeatsOf([]));
  }

  /** A pass takes the seats it pairs, all from the state it began in. */
  lemma {:induction false} PassTakes(db: Db, event: EventId, category: Category, draws: seq<Draw>, ttl: int, now: Instant)
    ensures TakesAll(db, Pass(db, event, category, draws, ttl, now).db, SeatsOf(Pass(db, event, category, draws, ttl, now).pairs), now)
    decreases |draws|
  {
    hide OfferSeat, NextWaiting, TakesAll, SeatsOf;
    NothingTaken(db, now);
    if draws != [] {
      var next := NextWaiting(db, event, category, draws[0].locked);
      if next.Some? && draws[0].seat.Some? {
        var seat := draws[0].seat.value;
        match OfferSeat(db, next.value, seat, ttl, draws[0].newHold, draws[0].newOffer, now)
        case Aborted(_) =>
        case Raced => PassTakes(db, event, category, draws[1..], ttl, now);
        case Paired(d) =>
          PairingTakes(db, next.value, seat, ttl, draws[0].newHold, draws[0].newOffer, now);
          PassTakes(d, event, category, draws[1..], ttl, now);
          var rest := Pass(d, event, category, draws[1..], ttl, now);
          PassRecordsOffers(db, event, category, draws, ttl, now);
          PairedOnce(Pair(next.value, seat), rest.pairs);
          TakesAllCompose(db, d, rest.db, seat, SeatsOf(rest.pairs), now);
          OnePairMoreSeats(Pair(next.value, seat), rest.pairs);
      }
    }
  }

  lemma PairedOnce(pair: Pair, rest: seq<Pair>)
    requires var pairs := [pair] + rest; forall i, j :: 0 <= i < j < |pairs| ==> pairs[i].seat != pairs[j].seat
    ensures pair.seat !in SeatsOf(rest)
  {
    var pairs := [pair] + rest;
    forall i | 0 <= i < |rest| ensures rest[i].seat != pair.seat { assert pairs[0].seat != pairs[i + 1].seat; }
  }

  // ---------------------------------------------------- what orphans a seat

  /** The seats a step takes: those of a granted request, or those a pass pairs. */
  ghost function TakenBy(db: Db, step: Step): set<SeatId> {
    match step
    case Reserve(event, user, ids, ttl, newHold, now) =>
      if Grantable(db, event, user, ids, newHold, now) && |ids| <= MAX_SEATS_PER_HOLD then ids else {}
    case Allocate(queue, draws, ttl, now) =>
      if queue in db.signals then SeatsOf(RunPass(db, queue.event, queue.category, draws, ttl, now).pairs) else {}
    case _ => {}
  }

  /** Reservations and passes are takings of seats, and do nothing else to seats and holds. */
  lemma StepTakes(db: Db, step: Step)
    requires step.Reserve? || step.Allocate?
    ensures TakesAll(db, Apply(db, step), TakenBy(db, step), step.now)
  {
    hide HoldVerdict, TakeSeats, Takes, Pass, SeatsOf, TakesAll, Grantable;
    NothingTaken(db, step.now);
    assert SeatsOf([]) == {} by { NoSeats(); }
    match step
    case Reserve(event, user, ids, ttl, newHold, now) =>
      HoldVerdictGrants(db, event, user, ids, newHold, now);
      if Grantable(db, event, user, ids, newHold, now) {
        GrantableIsNew(db, event, user, ids, newHold, now);
        TakeSeatsTakes(db, event, user, ids, ExpiryAt(now, ttl), newHold, now);
        TakesIsTakingAll(db, TakeSeats(db, event, user, ids, ExpiryAt(now, ttl), newHold, now),
                         Hold(event, user, Active, ExpiryAt(now, ttl), ids), newHold, now);
      }
    case Allocate(queue, draws, ttl, now) =>
      if queue in db.signals {
        var tried := if |draws| <= MAX_PAIRINGS_PER_PASS then draws else draws[..MAX_PAIRINGS_PER_PASS];
        PassTakes(db, queue.event, queue.category, tried, ttl, now);
        var r := RunPass(db, queue.event, queue.category, draws, ttl, now);
        TakesInTables(db, r.db, AllocateSignal(db, queue, draws, ttl, now), SeatsOf(r.pairs), now);
      }
  }

  lemma NoSeats()
    ensures SeatsOf([]) == {}
  {
  }

  lemma GrantableIsNew(db: Db, event: EventId, user: UserId, ids: set<SeatId>, newHold: HoldId, now: Instant)
    requires Grantable(db, event, user, ids, newHold, now)
    ensures newHold !in db.holds
  {
  }

  lemma TakesInTables(db: Db, d: Db, e: Db, taken: set<SeatId>, now: Instant)
    requires TakesAll(db, d, taken, now) && e.seats == d.seats && e.holds == d.holds
    ensures TakesAll(db, e, taken, now)
  {
    forall s | NewlyHeld(db, d, s) ensures NewlyHeld(db, e, s) {}
  }

  /**
   The transactions that orphan a seat: a reservation, or an allocation pass, that
   takes a seat of a lapsed hold and leaves another of that hold's seats behind.
   */
  ghost predicate Orphans(db: Db, step: Step) {
    (step.Reserve? || step.Allocate?) && LeavesBehind(db, TakenBy(db, step), step.now)
  }

  /** From a state without orphans, a step orphans a seat exactly when it is one of the two named. */
  lemma OrphanedExactlyBy(db: Db, step: Step)
    requires Inv(db) && NoneOrphaned(db)
    ensures NoneOrphaned(Apply(db, step)) <==> !Orphans(db, step)
  {
    hide SeatsOk, HoldsOk, SalesOk, WaitlistOk, NoneOrphaned, LeavesBehind, TakenBy, TakesAll, Apply;
    if step.Reserve? || step.Allocate? {
      StepTakes(db, step);
      TakingAllOrphans(db, Apply(db, step), TakenBy(db, step), step.now);
    } else {
      OnlyTakingOrphans(db, step);
    }
  }

  /** An orphaned seat stays one - no sweep finds it - until it is taken itself. */
  lemma OrphanStandsUntilTaken(db: Db, step: Step, s: SeatId)
    requires Inv(db) && Orphan(db, s)
    ensures Orphan(Apply(db, step), s) <==> s !in TakenBy(db, step)
  {
    hide SeatsOk, HoldsOk, SalesOk, WaitlistOk, TakenBy, TakesAll, Apply, Orphan;
    if step.Reserve? || step.Allocate? {
      StepTakes(db, step);
      TakingStands(db, Apply(db, step), TakenBy(db, step), step.now, s);
    } else {
      TakesNothing(db, step);
      NoOtherReaches(db, step, s);
    }
  }

  lemma TakesNothing(db: Db, step: Step)
    requires !step.Reserve? && !step.Allocate?
    ensures TakenBy(db, step) == {}
  {
  }

  lemma TakingStands(db: Db, d: Db, taken: set<SeatId>, now: Instant, s: SeatId)
    requires Orphan(db, s) && TakesAll(db, d, taken, now)
    ensures Orphan(d, s) <==> s !in taken
  {
    if s in taken {
      assert NewlyHeld(db, d, s);
    } else {
      forall h | h in d.holds && d.holds[h].status.Active? ensures s !in d.holds[h].seats {}
    }
  }

  /** The seat and the active holds over it are as they were. */
  ghost predicate Untouched(db: Db, d: Db, s: SeatId) {
    && s in db.seats && s in d.seats && d.seats[s] == db.seats[s]
    && forall h :: h in d.holds && d.holds[h].status.Active? ==> h in db.holds && d.holds[h] == db.holds[h]
  }

  lemma UntouchedStands(db: Db, d: Db, s: SeatId)
    requires Orphan(db, s) && Untouched(db, d, s)
    ensures Orphan(d, s)
  {
  }

  lemma EndLeavesOrphan(db: Db, h: HoldId, status: HoldStatus, now: Instant, s: SeatId)
    requires Inv(db) && h in db.holds && db.holds[h].status.Active? && !status.Active? && Orphan(db, s)
    ensures Untouched(db, EndHold(db, h, status, now).db, s)
  {
    hide EndHold, SeatsOk, SalesOk;
    EndHoldEnds(db, h, status, now);
    assert s !in db.holds[h].seats;
  }

  lemma ConfirmLeavesOrphan(db: Db, user: UserId, event: EventId, hold: HoldId, newBooking: BookingId, now: Instant, s: SeatId)
    requires Inv(db) && Orphan(db, s)
    ensures Untouched(db, Confirm(db, user, event, hold, newBooking, now).db, s)
  {
    hide Inv, Confirm;
    ConfirmRefusalRollsBack(db, user, event, hold, newBooking, now);
    ConfirmAnswers(db, user, event, hold, newBooking, now);
    if Confirmable(db, user, event, hold, newBooking, now) {
      ConfirmSells(db, user, event, hold, newBooking, now);
      assert s !in db.holds[hold].seats;
    }
  }

  lemma AcceptLeavesOrphan(db: Db, user: UserId, offer: OfferId, newBooking: BookingId, now: Instant, s: SeatId)
    requires Inv(db) && Orphan(db, s)
    ensures Untouched(db, Accept(db, user, offer, newBooking, now).db, s)
  {
    hide Inv, Confirm, Confirmable;
    AcceptAnswers(db, user, offer, newBooking, now);
    if Acceptable(db, user, offer, newBooking, now) {
      ConfirmLeavesOrphan(db, user, db.holds[db.offers[offer].hold].event, db.offers[offer].hold, newBooking, now, s);
    }
  }

  lemma CancelLeavesOrphan(db: Db, user: UserId, booking: BookingId, s: SeatId)
    requires Orphan(db, s)
    ensures Untouched(db, CancelBooking(db, user, booking).db, s)
  {
  }

  lemma NoOtherReaches(db: Db, step: Step, s: SeatId)
    requires Inv(db) && Orphan(db, s) && !step.Reserve? && !step.Allocate?
    ensures Orphan(Apply(db, step), s)
  {
    hide Inv, Confirm, CancelBooking, EndHold, Accept, Issue, Verify, Orphan;
    assert s in db.seats by { OrphanIsSeat(db, s); }
    match step {
    case ConfirmHold(user, event, hold, newBooking, now) => ConfirmLeavesOrphan(db, user, event, hold, newBooking, now, s);
    case CancelSale(user, booking) => CancelLeavesOrphan(db, user, booking, s);
    case SweepHold(hold, now) =>
      if hold in db.holds && db.holds[hold].status.Active? { EndLeavesOrphan(db, hold, HoldStatus.Expired, now, s); }
    case ReleaseHold(user, event, hold, now) =>
      if hold in db.holds && db.holds[hold].status.Active? { EndLeavesOrphan(db, hold, HoldStatus.Cancelled, now, s); }
    case AcceptOffer(user, offer, newBooking, now) =>
      AcceptLeavesOrphan(db, user, offer, newBooking, now, s);
    case IssueTickets(user, role, booking) => IssueNeverCommits(db, user, role, booking);
    case VerifyTicket(user, role, booking, seat) => VerifySameSeats(db, user, role, booking, seat);
    case _ =>
    }
    assert Untouched(db, Apply(db, step), s);
    UntouchedStands(db, Apply(db, step), s);
  }

  lemma OrphanIsSeat(db: Db, s: SeatId)
    requires Orphan(db, s)
    ensures s in db.seats
  {
  }

  /** One published event of two seats. */
  function TwoSeatShow(): Db {
    OneSeatShow().(seats := map[1 := Seat(1, 0, 100, Available, 0), 2 := Seat(1, 0, 100, Available, 0)], outbox := map[1 := [], 2 := []])
  }

  /** User 1 holds both seats until 10; user 2 asks for the first alone at 20, before any sweep. */
  function HoldBothTakeOne(): seq<Step> {
    [Reserve(1, 1, {1, 2}, 10, 1, 0), Reserve(1, 2, {1}, 10, 2, 20)]
  }

  lemma BothCanBeHad()
    ensures Initial(TwoSeatShow()) && Grantable(TwoSeatShow(), 1, 1, {1, 2}, 1, 0)
  {
  }

  lemma BothHeld(d: Db)
    requires d == Apply(TwoSeatShow(), HoldBothTakeOne()[0])
    ensures Initial(TwoSeatShow()) && Inv(d)
    ensures d.world == TwoSeatShow().world && d.holds == map[1 := Hold(1, 1, Active, 10, {1, 2})]
    ensures 1 in d.seats && d.seats[1].event == 1 && d.seats[1].status.Held?
  {
    hide Inv, HoldVerdict, TakeSeats, Initial, Grantable;
    var start := TwoSeatShow();
    BothCanBeHad();
    InitialInv(start);
    ApplyInv(start, HoldBothTakeOne()[0]);
    HoldVerdictGrants(start, 1, 1, {1, 2}, 1, 0);
    TakeSeatsTakes(start, 1, 1, {1, 2}, 10, 1, 0);
    assert d == TakeSeats(start, 1, 1, {1, 2}, 10, 1, 0);
    hide LapsedOver;
    assert forall h :: h in d.holds <==> h == 1;
  }

  /** A reachable state in which a seat is flagged held and nobody holds it. */
  lemma HeldSeatWithoutHold()
    ensures Initial(TwoSeatShow()) && Orphan(Run(TwoSeatShow(), HoldBothTakeOne()), 2)
  {
    hide HoldVerdict, TakeSeats, Initial, SeatsOk, SalesOk, WaitlistOk, HoldsOk, Takes, TakesAll;
    var held := Apply(TwoSeatShow(), HoldBothTakeOne()[0]);
    BothHeld(held);
    assert Grantable(held, 1, 2, {1}, 2, 20);
    HoldVerdictGrants(held, 1, 2, {1}, 2, 20);
    TakeSeatsTakes(held, 1, 2, {1}, 30, 2, 20);
    var d := Apply(held, HoldBothTakeOne()[1]);
    assert d == TakeSeats(held, 1, 2, {1}, 30, 2, 20);
    TakesIsTakingAll(held, d, Hold(1, 2, Active, 30, {1}), 2, 20);
    assert 1 in held.holds[1].seats && !Disjoint(held.holds[1].seats, {1});
    ReclaimedIsOrphaned(held, d, {1}, 20, 1, 2);
    assert Run(d, []) == d && Run(held, [HoldBothTakeOne()[1]]) == d;
    assert HoldBothTakeOne()[1..] == [HoldBothTakeOne()[1]];
  }

  lemma SellsOrphanNothing(db: Db, d: Db, h: HoldId, b: BookingId)
    requires NoneOrphaned(db) && h in db.holds && Sells(db, d, h, b)
    ensures NoneOrphaned(d)
  {
    forall s | s in d.seats && d.seats[s].status.Held? ensures !Orphan(d, s) {
      assert !Orphan(db, s);
      var g :| g in db.holds && db.holds[g].status.Active? && s in db.holds[g].seats;
      assert g in d.holds && d.holds[g] == db.holds[g];
    }
  }

  lemma EndsOrphanNothing(db: Db, d: Db, h: HoldId, status: HoldStatus)
    requires NoneOrphaned(db) && h in db.holds && Ends(db, d, h, status)
    ensures NoneOrphaned(d)
  {
    forall s | s in d.seats && d.seats[s].status.Held? ensures !Orphan(d, s) {
      assert !Orphan(db, s);
      var g :| g in db.holds && db.holds[g].status.Active? && s in db.holds[g].seats;
      assert g in d.holds && d.holds[g] == db.holds[g];
    }
  }

  /** Seats only leave `held`, and holds are as they were. */
  lemma SameHoldsOrphanNothing(db: Db, d: Db)
    requires NoneOrphaned(db) && d.holds == db.holds
    requires forall s :: s in d.seats && d.seats[s].status.Held? ==> s in db.seats && db.seats[s].status.Held?
    ensures NoneOrphaned(d)
  {
    forall s ensures !Orphan(d, s) { assert !Orphan(db, s); }
  }

  lemma ConfirmOrphansNothing(db: Db, user: UserId, event: EventId, hold: HoldId, newBooking: BookingId, now: Instant)
    requires Inv(db) && NoneOrphaned(db)
    ensures NoneOrphaned(Confirm(db, user, event, hold, newBooking, now).db)
  {
    hide Inv, Confirm, NoneOrphaned, Sells;
    ConfirmRefusalRollsBack(db, user, event, hold, newBooking, now);
    ConfirmAnswers(db, user, event, hold, newBooking, now);
    if Confirmable(db, user, event, hold, newBooking, now) {
      ConfirmSells(db, user, event, hold, newBooking, now);
      SellsOrphanNothing(db, Confirm(db, user, event, hold, newBooking, now).db, hold, newBooking);
    }
  }

  lemma EndHoldOrphansNothing(db: Db, h: HoldId, status: HoldStatus, now: Instant)
    requires Inv(db) && NoneOrphaned(db) && h in db.holds && db.holds[h].status.Active? && !status.Active?
    ensures NoneOrphaned(EndHold(db, h, status, now).db)
  {
    hide EndHold, NoneOrphaned;
    EndHoldEnds(db, h, status, now);
    EndsOrphanNothing(db, EndHold(db, h, status, now).db, h, status);
  }

  lemma CancelOrphansNothing(db: Db, user: UserId, booking: BookingId)
    requires NoneOrphaned(db)
    ensures NoneOrphaned(CancelBooking(db, user, booking).db)
  {
    hide NoneOrphaned;
    SameHoldsOrphanNothing(db, CancelBooking(db, user, booking).db);
  }

  lemma AcceptOrphansNothing(db: Db, user: UserId, offer: OfferId, newBooking: BookingId, now: Instant)
    requires Inv(db) && NoneOrphaned(db)
    ensures NoneOrphaned(Accept(db, user, offer, newBooking, now).db)
  {
    hide Inv, Confirm, NoneOrphaned, Confirmable;
    AcceptAnswers(db, user, offer, newBooking, now);
    if Acceptable(db, user, offer, newBooking, now) {
      var event, hold := db.holds[db.offers[offer].hold].event, db.offers[offer].hold;
      ConfirmOrphansNothing(db, user, event, hold, newBooking, now);
      SameHoldsOrphanNothing(Confirm(db, user, event, hold, newBooking, now).db, Accept(db, user, offer, newBooking, now).db);
    }
  }

  /** Nothing else orphans a seat: only taking seats, for a request or for an offer, can. */
  lemma OnlyTakingOrphans(db: Db, step: Step)
    requires Inv(db) && NoneOrphaned(db) && !step.Reserve? && !step.Allocate?
    ensures NoneOrphaned(Apply(db, step))
  {
    hide Inv, Confirm, CancelBooking, EndHold, Accept, Issue, Verify, NoneOrphaned;
    match step
    case ConfirmHold(user, event, hold, newBooking, now) => ConfirmOrphansNothing(db, user, event, hold, newBooking, now);
    case CancelSale(user, booking) => CancelOrphansNothing(db, user, booking);
    case SweepHold(hold, now) =>
      if hold in db.holds && db.holds[hold].status.Active? { EndHoldOrphansNothing(db, hold, HoldStatus.Expired, now); }
    case ReleaseHold(user, event, hold, now) =>
      if hold in db.holds && db.holds[hold].status.Active? { EndHoldOrphansNothing(db, hold, HoldStatus.Cancelled, now); }
    case JoinLine(_, _, _, _, _) => SameHoldsOrphanNothing(db, Apply(db, step));
    case LeaveLine(_, _) => SameHoldsOrphanNothing(db, Apply(db, step));
    case Reconcile(_) => SameHoldsOrphanNothing(db, Apply(db, step));
    case AcceptOffer(user, offer, newBooking, now) =>
      AcceptOrphansNothing(db, user, offer, newBooking, now);
    case IssueTickets(user, role, booking) => IssueNeverCommits(db, user, role, booking);
    case VerifyTicket(user, role, booking, seat) =>
      VerifySameSeats(db, user, role, booking, seat);
      SameHoldsOrphanNothing(db, Apply(db, step));
  }

  lemma VerifySameSeats(db: Db, user: UserId, role: Role, booking: BookingId, seat: SeatId)
    ensures Verify(db, user, role, booking, seat).db.seats == db.seats
    ensures Verify(db, user, role, booking, seat).db.holds == db.holds
  {
  }

  /** An orphaned seat costs nobody anything: whoever asks for it next gets it. */
  lemma OrphansAreReclaimed(db: Db, s: SeatId, user: UserId, ttl: int, newHold: HoldId, now: Instant)
    requires Inv(db) && Orphan(db, s) && user in db.world.users && newHold !in db.holds
    ensures CreateHold(db, db.seats[s].event, user, {s}, ttl, newHold, now).out == Ok(newHold)
  {
    hide TakeSeats, HoldVerdict;
    HoldVerdictGrants(db, db.seats[s].event, user, {s}, newHold, now);
  }
}
