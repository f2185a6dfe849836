# tiqX: verified model of the ticketing core

This project models the transactions by which tiqX sells seats, and the
mechanisms around them, in Dafny 4.11, and proves what they promise. `dafny
verify dfyconfig.toml` checks it.

The heart is the seat inventory: seats with their version-numbering trigger,
reservation holds, bookings with their seat rows and tickets, waitlist entries
and offers, and the allocation signals. It is stated twice. Module
`Transactions` says as functions what each transaction does to the tables;
`Store.Inventory` does it as the code does - fields updated in place, one loop a
set-based statement, guarded updates with their row counts, rollback and
savepoints - and each of its methods is proved to equal its function. Everything
else is proved of the functions, over runs: any number of transactions in any
order, every one with its own `now()`, which need not follow commit order.

| modules | what they hold |
|---|---|
| Schema, Transactions, Allocation | the tables, each transaction, the allocation pass and the order it serves |
| Invariant, Runs, Evolution | what every transaction keeps, what every run keeps, what none takes back |
| Guarantees, Conservation, Verdicts, Answers, Races, Refusals, Stranding | the promises read off that: single sale, waitlist, tickets, history, money, exact verdicts and refusals, lost races, dead branches, and two expectations that do not hold |
| Store | the imperative inventory |
| SeatFeed, OutboxWorker, Delivery | seat history out to Redis, into the browser, and all three running together |
| LockOrder, BatchLocks, WorkerLocks | who can deadlock: the customer-facing transactions, and the allocation worker beside them |
| Idempotency, Keyset, RefreshTokens, RateLimit, Subscriptions | the self-contained mechanisms |
| Sums, Rows, Wrappers | finite sums, choosing a row, optional values |

Identifiers are integers (uuids are only compared), instants are integers on the
database's clock, money is in minor units with the range of NUMERIC(12,2), and
digests and request hashes are injective. The uuids a transaction draws, the
clock, the entries another transaction has locked, and what an unlocked read
returned are parameters. A row that belongs to a parent row is stored with it.
Events, users and seat prices are fixed. Inputs the API layer validates (one to
ten distinct seats) appear as a refusal, not a precondition.

## Where code and comments disagree

The model follows the code.

- src/modules/expiration/expiration.service.ts:264-265 says an offer never
  outlives its hold. It does, in exactly two ways (`Stranding`), and then for
  good: the seat is never offered again and its user is shut out of that line.
- src/workers/waitlist-allocation.worker.ts:88-95 says each claimed row has a
  transaction of its own, all of it committed or none. The code claims and serves
  the whole batch in one transaction and commits the pairs made before a pass
  threw.
- docs/SYSTEM_DESIGN.md:32-34 says creating waitlist offers locks in the same order
  as everything else and cannot deadlock. The worker's batch can, exactly when a
  turn comes to a seat or lapsed hold that stands before one an earlier turn kept
  (`BatchLocks`, `WorkerLocks`).
- docs/SYSTEM_DESIGN.md:18-19 has the sweep release seats when nobody asks for
  them. A reservation or a pass that takes one seat of a lapsed hold expires the
  hold whole and leaves its other seats flagged held with no active hold
  (`Stranding.OrphanedExactlyBy`); no sweep ever finds those, though the next
  request for one gets it.
- customer-frontend/src/lib/useSeatMap.ts:16-19 says a stale message can never
  un-book a seat on screen. After a reload it can, since versions restart at 0:
  exactly when, for some seat, only rows older than the load are delivered.
- src/modules/rate-limit/rate-limit.service.ts:58-62 gives twice the limit in two
  seconds. The window opens at its first request, so a stretch of a window's length
  holds at most 2 * max - 1 requests, however tightly they fall; twice the limit
  takes a stretch a millisecond longer than a window.
- src/modules/auth/auth.service.ts:147-152 says reuse revokes every live token.
  What a login or rotation commits while the revoking statement runs escapes it.

src/modules/events/event.service.ts:566-574 calls the cursor stable, and for every
row the API writes it is: start times pass through a JavaScript date
(src/modules/events/event.controller.ts:65, 128) and are whole milliseconds. The
column keeps microseconds; `Keyset` also says what a row written outside the API
would do.

## Model

| member | source | states |
|---|---|---|
| Runs.RunInv | src/modules/reservations/reservation.service.ts:86-138 | every state any run of reservations, confirmations, cancellations, sweeps, releases, waitlist joins and leaves, allocation passes, acceptances, issuances and verifications reaches - any order, each step on its own clock - satisfies the whole inventory invariant |
| Runs.ApplyInv | src/modules/bookings/booking.service.ts:96-240 | each single transaction, committed or refused, keeps that invariant |
| Guarantees.NoDoubleSelling | src/modules/bookings/booking.service.ts:165-203 | after any run: active holds, lapsed ones included, have disjoint seats, all of them held and of the hold's event; a seat is booked if and only if exactly one live booking row names it and that booking is confirmed; a hold is converted if and only if exactly one booking came of it, whose rows are exactly its seats |
| Guarantees.BookedIffSoldOnce | migrations/1787500800000_booking-cancellation.ts:54-58 | booked and sold by one confirmed booking's live row are the same thing |
| Guarantees.ConvertedIffBooked | migrations/1787497200000_bookings.ts:129-131 | converted and booked exactly once, seat for seat, are the same thing |
| Guarantees.WaitlistCorrespondence | src/modules/waitlist/waitlist.repository.ts:215-348 | after any run: waiting and cancelled entries have no offer, every other entry has exactly one, in its own status; accepted means the hold became a booking of the entry's user; expired means the hold is over; an active hold behind an offer means the offer still stands |
| Guarantees.SeatHistoryIsComplete | migrations/1787518800000_realtime-seat-status.ts:127-155 | after any run a seat's outbox rows are versions 1..seat_version once each in order, each typed held, booked or released as its status is, walk only along available-held, held-available, held-booked and booked-available, and end at the seat's status |
| Guarantees.AdmittedAtMostOnce | src/modules/tickets/ticket.service.ts:311-391 | over any run the number of successful verifications of a ticket is exactly the change of its used flag from start to end: at most one, and nothing else marks it used |
| Guarantees.VerifyUses | src/modules/tickets/ticket.repository.ts:190-200 | a verification marks used exactly the ticket presented, only if it was not, and only when it answers success |
| Guarantees.TicketsAgainstCancellation | src/modules/bookings/booking.service.ts:382-392 | after any run every booking has exactly one ticket per seat row and no cancelled booking has a used ticket |
| Evolution.RunEvolves | src/modules/bookings/booking.repository.ts:417-452 | over any run totals, prices, owners, seats and expiries never change, finished statuses stay finished, retired rows stay retired, used tickets stay used, and outbox history only grows at the end |
| Evolution.ApplyEvolves | src/modules/bookings/booking.repository.ts:254-263 | the same for each single transaction |
| Verdicts.CreateHoldVerdict | src/modules/reservations/reservation.repository.ts:105-192 | in a consistent state a request for one to ten seats of the event is granted if and only if none of them is sold and no unexpired active hold covers one; a refusal names exactly the seats that are, as booked if and only if sold and otherwise as held under such a hold, and changes nothing |
| Verdicts.GrantedHold | src/modules/reservations/reservation.service.ts:115-153 | what a granted request leaves: the caller's active hold over exactly those seats until now + ttl, those seats held, lapsed holds over them expired, nothing else changed |
| Verdicts.ConfirmHoldVerdict | src/modules/bookings/booking.service.ts:105-160 | confirmation under a fresh booking id succeeds if and only if the hold is the caller's, of that event, active and unexpired, and its seats' present prices sum within NUMERIC(12,2); where only the sum fails it is refused and sells nothing |
| Verdicts.CancelHoldVerdict | src/modules/expiration/expiration.service.ts:267-329 | a hold can be given up if and only if it is the caller's, of that event and active, lapsed or not; it ends as cancelled and frees all its seats, and a refusal changes nothing |
| Verdicts.ExpireHoldVerdict | src/modules/expiration/expiration.service.ts:164-226 | the sweep expires a hold if and only if it is active and due, freeing all its seats, and otherwise changes nothing |
| Verdicts.VerifyVerdict | src/modules/tickets/ticket.service.ts:311-391 | a ticket admits if and only if its booking is confirmed, it is unused, and the caller is an admin or the event's organiser; the void answer is unreachable |
| Verdicts.SweepChangesNoVerdict | src/modules/expiration/expiration.service.ts:345-366 | expiring any holds beforehand, at any clocks up to now, changes neither the answer of createHold (down to the seats it names), nor of confirm, nor of accepting an offer |
| Verdicts.SweepExpiresTheDue | src/modules/expiration/expiration.service.ts:345-366 | a sweep expires exactly the active holds that one of its transactions found due at its own instant, and changes no other hold |
| Answers.CreateHoldAnswers | src/modules/reservations/reservation.service.ts:68-123 | every refusal of createHold changes nothing and states facts: a bad selection, an unknown event or user, exactly the seats of another event, exactly the seats that do not exist, or exactly the seats gone and for each whether sold or held; where none of these facts holds the request is granted |
| Answers.JoinVerdict | src/modules/waitlist/waitlist.service.ts:78-135 | a join succeeds if and only if the event exists and is published, has seats of the category, and the user exists and is not already waiting or offered in that line; it adds one waiting entry at the present instant, and each refusal names the first thing wrong and changes nothing |
| Answers.LeaveVerdict | src/modules/waitlist/waitlist.service.ts:146-177 | leaving succeeds if and only if the entry is the caller's and waiting, and then cancels that entry and nothing else; a stranger's or unknown entry is not found, another status is not waiting, and neither changes anything |
| Answers.CancelledByItsUser | src/modules/waitlist/waitlist.repository.ts:168-182 | over any run an entry becomes cancelled only in a step that is its own user's leaving while it waits |
| Answers.CancelHoldAnswers | src/modules/expiration/expiration.service.ts:275-297 | a refused release says not found if and only if the hold is not the caller's for that event, and not active if and only if it is but has ended |
| Answers.VerifyAnswers | src/modules/tickets/ticket.service.ts:311-391 | a refused scan: not found if and only if there is no such ticket of an event the scanner may admit to, cancelled if and only if the booking is, already used if and only if it is |
| Answers.IssueAnswers | src/modules/tickets/ticket.service.ts:205-267 | manual issuance is not found for anyone but owner, organiser and admin, and tells those that the booking is cancelled or its tickets are cut |
| Races.PairingVerdict | src/modules/waitlist/waitlist.service.ts:238-307 | pairing a waiting entry with a seat of its event loses the race if and only if the seat is sold or under an unexpired active hold, makes the offer - seat held and offered to the entry's user until now + ttl, nothing else touched - if and only if neither that, nor a taken id, nor a live earlier offer stands in the way, and otherwise fails with the error of the id or the index |
| Races.RacedPass | src/modules/waitlist/waitlist.service.ts:219-310 | a pass whose reads may be stale in any way, with new ids and no stale offers of seats that can be had, never throws, and stops early only with the line exhausted |
| Races.RacesAreCounted | src/modules/waitlist/waitlist.service.ts:293-303 | and the races it counts are exactly its attempts whose seat was sold, held or already tried, while the other attempts' seats go, in the order read, to the head of the line, for up to 500 attempts |
| Invariant.HoldVerdictGrants | src/modules/reservations/reservation.service.ts:72-113 | the checks of createHold pass if and only if the selection is well formed, its owner and event exist, and every seat of it is free |
| Invariant.ConfirmAnswers | src/modules/bookings/booking.service.ts:96-240 | every answer of confirm in a consistent state, by the hold's owner, event, status and expiry alone, and the exact tables a success leaves |
| Invariant.ConfirmSells | src/modules/bookings/booking.service.ts:172-203 | a confirmation books exactly the hold's seats under one new booking at their current prices, converts the hold, and touches nothing else |
| Invariant.CancelAnswers | src/modules/bookings/booking.service.ts:329-456 | every answer of cancelBooking in a consistent state, and the exact tables a success leaves |
| Invariant.CancelUnsells | src/modules/bookings/booking.service.ts:414-443 | a cancellation puts back on sale exactly the seats of the booking's rows, retires the rows and touches no other booking, hold, entry or offer |
| Invariant.EndHoldReleasesAll | src/modules/reservations/reservation.repository.ts:140-162 | ending an active hold frees every one of its seats: no other live hold can cover one |
| Invariant.EndHoldEnds | src/modules/expiration/expiration.service.ts:199-225 | ending a hold frees its seats, expires the live offer behind it and that offer's entry, and touches no other |
| Invariant.AcceptAnswers | src/modules/waitlist/waitlist.service.ts:346-423 | every answer of accepting an offer, in terms of its owner and its hold, and the exact tables a success leaves |
| Invariant.IssueNeverCommits | src/modules/tickets/ticket.service.ts:205-267 | manual issuance is always refused in a consistent state, because confirmation already cut every ticket |
| Invariant.SetStatusSeats | migrations/1787518800000_realtime-seat-status.ts:127-155 | updating seat statuses along legal edges keeps every seat's numbered history whole |
| Refusals.DefensiveBranchesAreDead | src/modules/bookings/booking.service.ts:397-436 | in every reachable state CONFIRMATION_CONFLICT, CANCELLATION_CONFLICT, BOOKING_HAS_NO_SEATS, every row-count mismatch (createHold's included) and every "no longer offered" throw is unreachable, for every input, and HOLD_ALREADY_CONFIRMED or OFFER_ALREADY_ACCEPTED is answered only of a converted hold, never from the unique hold of a booking |
| Refusals.PairingNeverSurprised | src/modules/waitlist/waitlist.service.ts:240-256 | a pairing of a waiting entry never meets a live offer of the entry or of the new hold |
| Refusals.FreedSeatsAreSignalled | src/modules/waitlist/waitlist-outbox.repository.ts:23-39 | every seat any transaction puts back on sale leaves its event and category with a pending allocation signal |
| Refusals.SignalsAreSpentByPasses | src/modules/waitlist/waitlist-outbox.repository.ts:100-105 | a pending signal disappears only through an allocation pass over that queue that ran to its end |
| Refusals.PassSpendsItsSignal | src/workers/waitlist-allocation.worker.ts:96-142 | a pass over a claimed signal leaves it pending if and only if the pass threw, and raises or spends no other |
| Refusals.ReconcileSignalsUnserved | src/modules/waitlist/waitlist-outbox.repository.ts:140-161 | after reconciling, a queue is signalled if and only if it was before or somebody waits in it while one of its seats is on sale; nothing else changes |
| Refusals.SignalsAreForFreedSeats | src/modules/waitlist/waitlist-outbox.repository.ts:23-39 | a new signal comes only with a seat of that event and category put back on sale by the same transaction, or from reconciling an unserved queue |
| Conservation.RevenueIsBookedSeats | src/modules/bookings/booking.repository.ts:154-163 | after any run, for every event, revenue over confirmed bookings equals the sum of the prices of its booked seats, and the live rows of those bookings are as many as its booked seats |
| Conservation.TotalIsItsRows | src/modules/bookings/booking.repository.ts:123-138 | a booking's total is the sum of its row prices when written and after any later run, cancelled or not |
| Conservation.SeatsAreConserved | src/modules/events/event.repository.ts:135-151 | available + held + booked is the event's number of seats, and no run changes it |
| Conservation.SumOfTotals | src/modules/bookings/booking.repository.ts:154-163 | totals kept per owner sum to the sum of all amounts owned |
| Allocation.CalmPassCompletes | src/modules/waitlist/waitlist.service.ts:219-310 | an undisturbed pass offers the i-th seat by id to the i-th entry by (joined_at, id) for exactly min(500, waiting, on sale) pairs if and only if none of those seats still carries a live offer |
| Allocation.CalmPass | src/modules/waitlist/waitlist.service.ts:219-310 | the same for any number of attempts; when a stale live offer is met the pass stops there with the unique-index error and the pairs before it stand |
| Allocation.OffersArePrefix | src/modules/waitlist/waitlist.repository.ts:196-212 | with any seats raced away and wherever it stops, the entries a pass offers to are a prefix of the line |
| Allocation.NoOvertaking | src/modules/waitlist/waitlist.repository.ts:196-212 | nobody ahead in the line is passed over unless another transaction holds their entry locked |
| Allocation.JoinTakesItsPlace | src/modules/waitlist/waitlist.service.ts:78-135 | a join stands behind exactly those who joined before it by the clock, ties by id |
| Allocation.PassTakesFromLine | src/modules/waitlist/waitlist.service.ts:227-235 | those offered were waiting, once each, and leave the line; nobody else does |
| Allocation.PassRecordsOffers | src/modules/waitlist/waitlist.repository.ts:250-270 | each pair is one new live offer of a seat that had none, no seat is offered twice, and existing offers are untouched |
| Allocation.PassInv | src/modules/waitlist/waitlist.service.ts:244-306 | a pass keeps the inventory invariant whatever it reads, loses or aborts on |
| Allocation.OnSaleIsOfferable | migrations/1787511600000_waitlist.ts:186-196 | pairing a waiting entry with a seat on sale succeeds if and only if no offer of that seat is still marked live |
| Stranding.OffersStrandedExactlyBy | src/modules/expiration/expiration.service.ts:262-266 | an offer outlives its hold after a step, from a state where none did, if and only if the step is a granted reservation over seats of a lapsed offer's hold or a direct confirmation of an offer's hold |
| Stranding.OfferOutlivesItsHold | src/modules/expiration/expiration.service.ts:262-266 | a concrete run of four steps from an empty ledger reaches an offer still live after its hold expired |
| Stranding.LapsedOfferCanBeStranded | src/modules/reservations/reservation.repository.ts:105-129 | every live offer whose hold lapsed unswept is stranded by the next request for its seat |
| Stranding.StrandedForever | src/modules/waitlist/waitlist.repository.ts:307-348 | no run ever clears a stranded offer |
| Stranding.StrandedShutsOut | src/modules/waitlist/waitlist.repository.ts:250-270 | after any later run its seat cannot be offered to anyone and its entry's user cannot rejoin that line |
| Stranding.TakingOrphans | src/modules/reservations/reservation.service.ts:107-111 | taking seats leaves a seat flagged held without an active hold if and only if a lapsed hold it reclaims also covers a seat it does not take |
| Stranding.OrphanedExactlyBy | src/modules/reservations/reservation.repository.ts:105-162 | a seat is left flagged held without an active hold after a step, from a state where none was, if and only if the step is a granted reservation or an allocation pass whose seats leave behind another seat of a lapsed hold they reclaim |
| Stranding.HeldSeatWithoutHold | src/modules/reservations/reservation.service.ts:107-111 | a concrete run of two requests from an empty ledger reaches such a seat |
| Stranding.OrphanStandsUntilTaken | src/modules/expiration/expiration.repository.ts:131-134 | such a seat stays one through every transaction, sweeps included, if and only if the transaction does not itself take that seat |
| Stranding.PassTakes | src/modules/waitlist/waitlist.service.ts:219-310 | a whole pass, whatever it reads or loses, amounts to taking exactly the seats it pairs: those go to new holds, the lapsed holds over them expire, no other seat or hold changes |
| Stranding.OnlyTakingOrphans | src/modules/expiration/expiration.service.ts:164-225 | no transaction but a reservation or an allocation pass leaves such a seat |
| Stranding.OrphansAreReclaimed | src/modules/reservations/reservation.repository.ts:140-162 | whoever next asks for such a seat gets it |
| Store.Inventory.constructor | migrations/1787479200000_show-seats.ts:40-46 | a new event's inventory starts in the initial state, which is consistent |
| Store.Inventory.Restore | src/db/pool.ts:49-63 | ROLLBACK puts every table back as it was |
| Store.Inventory.UpdateSeat | migrations/1787518800000_realtime-seat-status.ts:127-155 | one updated seat row: the trigger bumps the version and appends the outbox row exactly when the status changes |
| Store.Inventory.UpdateSeats | src/modules/reservations/reservation.repository.ts:246-257 | changes exactly the named seats that have the guarded status, and reports which |
| Store.Inventory.ReleaseSeatsWithoutLiveHold | src/modules/reservations/reservation.repository.ts:140-162 | frees exactly the held seats no unexpired active hold covers |
| Store.Inventory.ExpireLapsedHoldsForSeats | src/modules/reservations/reservation.repository.ts:105-129 | expires exactly the lapsed active holds touching the seats |
| Store.Inventory.ReadUnavailable | src/modules/reservations/reservation.repository.ts:170-192 | reports exactly the seats that are not available or under a live hold, and whether each is booked or held |
| Store.Inventory.CreateHoldInTransaction | src/modules/reservations/reservation.service.ts:68-154 | statement by statement, answers and leaves what the specification of createHold says |
| Store.Inventory.CreateHold | src/modules/reservations/reservation.service.ts:162-164 | the same as a transaction of its own, nothing left behind by a refusal, consistency kept |
| Store.Inventory.EnsureTicketsForBooking | src/modules/tickets/ticket.service.ts:116-147 | one issued ticket per live row unless tickets exist already |
| Store.Inventory.InsertBookingSeats | src/modules/bookings/booking.repository.ts:101-115 | one row per seat at the locked price, refused exactly when another live row names one of them |
| Store.Inventory.ApplyBookingTotal | src/modules/bookings/booking.repository.ts:123-138 | the total becomes the sum of the rows' prices, refused exactly when it does not fit NUMERIC(12,2) |
| Store.Inventory.MarkHold | src/modules/bookings/booking.repository.ts:254-263 | changes the hold exactly when it is active |
| Store.Inventory.ConfirmHoldInTransaction | src/modules/bookings/booking.service.ts:96-240 | statement by statement, answers and leaves what the specification of confirm says |
| Store.Inventory.Confirm | src/db/pool.ts:49-63 | confirmation as one transaction, rolled back whole on refusal, consistency kept |
| Store.Inventory.MarkBookingSeatsCancelled | src/modules/bookings/booking.repository.ts:440-452 | stamps exactly the live rows and keeps their prices |
| Store.Inventory.EnqueueSignals | src/modules/waitlist/waitlist-outbox.repository.ts:23-39 | adds one signal per event and category among the seats |
| Store.Inventory.CancelBookingInTransaction | src/modules/bookings/booking.service.ts:329-456 | statement by statement, answers and leaves what the specification of cancelBooking says |
| Store.Inventory.CancelBooking | src/db/pool.ts:49-63 | cancellation as one transaction, consistency kept |
| Store.Inventory.MarkOfferExpiredByHold | src/modules/waitlist/waitlist.repository.ts:335-348 | expires exactly the live offer behind the hold, and reports it |
| Store.Inventory.MarkEntry | src/modules/waitlist/waitlist.repository.ts:215-244 | changes the entry exactly when it has the guarded status |
| Store.Inventory.EndHoldInTransaction | src/modules/expiration/expiration.service.ts:182-225 | statement by statement, answers and leaves what the specification of ending a hold says |
| Store.Inventory.ExpireHold | src/modules/expiration/expiration.service.ts:164-230 | leaves alone any hold not active or not due, otherwise ends it as expired; consistency kept |
| Store.Inventory.CancelHold | src/modules/expiration/expiration.service.ts:267-333 | refuses a hold not the caller's or not active, otherwise ends it as cancelled; consistency kept |
| Store.Inventory.SweepExpiredHolds | src/modules/expiration/expiration.service.ts:345-366 | the sweep over its due list equals its specification, and counts exactly the holds it expired |
| Store.Inventory.Join | src/modules/waitlist/waitlist.service.ts:78-135 | joins the line, or refuses for the event, the category, a rival membership or an unknown user |
| Store.Inventory.Leave | src/modules/waitlist/waitlist.service.ts:146-177 | leaves the line exactly when the caller's entry is still waiting |
| Store.Inventory.LockNextWaitingEntry | src/modules/waitlist/waitlist.repository.ts:196-212 | the first unlocked waiting entry by (joined_at, id) |
| Store.Inventory.PairInTransaction | src/modules/waitlist/waitlist.service.ts:244-262 | one pairing: entry marked, seat held by createHold's own steps, offer written |
| Store.Inventory.RunAllocationPass | src/modules/waitlist/waitlist.service.ts:219-310 | the loop with its savepoints equals the specification of a pass; consistency kept |
| Store.Inventory.AllocateSignal | src/workers/waitlist-allocation.worker.ts:96-142 | the signal is spent when its pass ends and kept when the pass throws, offers already made standing |
| Store.Inventory.ReconcileQueue | src/modules/waitlist/waitlist-outbox.repository.ts:140-161 | adds a missing signal exactly when somebody waits, a seat is on sale and none is pending |
| Store.Inventory.AcceptOffer | src/modules/waitlist/waitlist.service.ts:346-423 | acceptance through confirmation's own steps, its refusals translated, then offer and entry stamped |
| Store.Inventory.IssueTickets | src/modules/tickets/ticket.service.ts:205-267 | issuance behaves as specified, consistency kept |
| Store.Inventory.VerifyTicket | src/modules/tickets/ticket.service.ts:311-406 | verification behaves as specified, consistency kept |
| Store.Inventory.Serve | src/db/pool.ts:49-63 | serving any sequence of requests and worker iterations on the tables in place equals the specification's run |
| SeatFeed.HighestIsShown | customer-frontend/src/lib/useSeatMap.ts:49-66 | after a snapshot, whatever is delivered in whatever order, repeated or dropped, each tile shows the row of the highest version delivered, or the snapshot if none was |
| SeatFeed.HighestIsGreatest | customer-frontend/src/lib/useSeatMap.ts:53-58 | that version is the greatest of those delivered |
| SeatFeed.NewerIsShown | customer-frontend/src/lib/useSeatMap.ts:49-66 | a message of another event, or no newer than what is known of its seat, changes nothing; any other is shown on exactly that seat's tiles and remembered |
| SeatFeed.ClientsAgree | customer-frontend/src/lib/useSeatMap.ts:49-66 | two clients with the same snapshot and the same set of messages show the same seats |
| SeatFeed.LatestDeliveredIsServer | customer-frontend/src/lib/useSeatMap.ts:49-66 | after any run of the inventory, once a seat's latest outbox row is delivered its tile shows the server's status |
| SeatFeed.ReloadFallsBackIff | customer-frontend/src/lib/useSeatMap.ts:25-40 | for a snapshot read after any run, any later run, and any published messages delivered after the load: a tile falls back behind what was loaded if and only if something is delivered for its seat and all of it is older than the load; otherwise it shows the newer of the load and the deliveries |
| SeatFeed.NothingOlderNeverFallsBack | customer-frontend/src/lib/useSeatMap.ts:25-40 | if nothing older than the load is delivered after it the tile never falls back, and shows the server's status once load or deliveries reach it |
| SeatFeed.FirstMessageUnbooks | customer-frontend/src/lib/useSeatMap.ts:32-32 | every booked seat of any consistent state, freshly loaded, is un-booked on screen by its own first outbox row |
| SeatFeed.LateMessageUndoesSnapshot | customer-frontend/src/lib/useSeatMap.ts:32-32 | a concrete run: a seat is reserved and sold, loaded as booked, and shown as held when its first row arrives late |
| SeatFeed.SeatMap.Load | customer-frontend/src/lib/useSeatMap.ts:25-37 | installs the snapshot and sets every version to 0 |
| SeatFeed.SeatMap.OnMessage | customer-frontend/src/lib/useSeatMap.ts:49-66 | applies a message exactly when it is for this event and strictly newer |
| SeatFeed.SeatMap.OnMessages | customer-frontend/src/lib/useSeatMap.ts:49-66 | the hook over any sequence of messages is their fold |
| OutboxWorker.DeliveredAtLeastOnce | src/workers/realtime-seat-status.worker.ts:86-128 | any number of workers, crashing anywhere: open batches share no row; a processed row was published exactly once more than crashes took its mark back; an unprocessed unlocked row only as often as they did |
| OutboxWorker.NoCrashNoLoss | src/workers/realtime-seat-status.worker.ts:86-128 | without crashes nothing is published in vain, so every processed row went out exactly once |
| OutboxWorker.RunKeeps | src/modules/realtime/seat-status-outbox.repository.ts:64-89 | over any run no row is dropped, a processed row never changes again and attempt counts never fall |
| OutboxWorker.DelayGrows | src/modules/realtime/seat-status-outbox.repository.ts:72-89 | retry delays LEAST(max, base * 2^attempts) never shrink and never pass the cap |
| OutboxWorker.DelayReachesCap | src/modules/realtime/seat-status-outbox.repository.ts:72-89 | and do reach it |
| OutboxWorker.DelayDoubles | src/modules/realtime/seat-status-outbox.repository.ts:72-89 | the first delay is the base and each next is double, up to the cap |
| OutboxWorker.RefusedRowWaits | src/modules/realtime/seat-status-outbox.repository.ts:72-89 | whatever other workers do: a row Redis refused is, once its batch commits, unprocessed with one attempt more, and can be claimed again exactly from the batch's claim instant plus the delay for the attempts it had |
| OutboxWorker.Outbox.ClaimPending | src/modules/realtime/seat-status-outbox.repository.ts:29-61 | claims the earliest available unlocked unprocessed rows, up to the limit, and none out of turn |
| OutboxWorker.Outbox.PublishNext | src/workers/realtime-seat-status.worker.ts:104-124 | publishes and marks a row, or backs it off when Redis refuses |
| OutboxWorker.Outbox.PublishLoop | src/workers/realtime-seat-status.worker.ts:86-128 | one iteration of the loop is a claim, one step a row as Redis answered, and a commit, and counts exactly the rows Redis accepted |
| Delivery.EndToEnd | src/workers/realtime-seat-status.worker.ts:86-128 | inventory transactions, workers claiming, publishing, failing and crashing, and a client loading and listening, interleaved in any way: once all rows of a seat are published, the tile of a client that received what was published since its load - in any order, repeated - shows the server's status, unless the seat is unchanged since the load and something was received for it, all of it older |
| Delivery.CalmLoadIsServed | src/workers/realtime-seat-status.worker.ts:86-128 | and without exception if nothing of the seat was pending when the client loaded |
| Delivery.FlowOk | src/modules/realtime/seat-status-outbox.repository.ts:29-89 | over any such interleaving the published ids stand for outbox rows one to one, the workers' accounts balance and the inventory stays consistent |
| Idempotency.OnlyWinnersHappened | src/modules/idempotency/idempotency.service.ts:57-76 | for any operation and any requests, the final domain is what running only the first success of each key, with no wrapper, makes of it |
| Idempotency.WinnersAreDistinct | src/modules/idempotency/idempotency.service.ts:57-76 | those are one per key |
| Idempotency.SameKeySameResponse | src/modules/idempotency/idempotency.service.ts:102-143 | every success after the first for a key replays its status and body, and had the same request |
| Idempotency.ServeAnswers | src/modules/idempotency/idempotency.service.ts:57-98 | a call runs the operation if and only if its user is known and its key unseen, and then answers the configured status with the operation's own body and commits both; an unknown user or a throwing operation changes nothing |
| Idempotency.RetryIsAnswered | src/modules/idempotency/idempotency.service.ts:102-143 | once a request has run, any later one with its key is answered with the very same response if and only if it is the same request, and refused as key reuse if and only if it differs |
| Idempotency.ConcurrentRetryIsAnswered | src/modules/idempotency/idempotency.service.ts:102-143 | and so under any interleaving of transactions, crashes included |
| Idempotency.RecordsStand | src/modules/idempotency/idempotency.repository.ts:89-101 | committed records are completed and never change |
| Idempotency.NeverInFlight | src/modules/idempotency/idempotency.service.ts:108-138 | the in-flight answer is unreachable |
| Idempotency.InterleavingIsSerial | src/modules/idempotency/idempotency.repository.ts:37-51 | transactions interleaved, waiting for each other's keys and crashing anywhere, commit and answer exactly what the same requests would one at a time in the order they ended |
| Idempotency.ConcurrentNeverInFlight | src/modules/idempotency/idempotency.service.ts:108-138 | under any interleaving too, no committed record is in processing and no answer says so |
| Idempotency.Service.ClaimKey | src/modules/idempotency/idempotency.repository.ts:37-51 | claims the key exactly when no record has it |
| Idempotency.Service.RunIdempotently | src/modules/idempotency/idempotency.service.ts:57-143 | claim, operation and stored response together, or nothing at all |
| LockOrder.PlansAscend | src/modules/bookings/booking.service.ts:65-95 | every transaction takes its locks - key, booking, seats by id, holds by id, ticket, offer, entry - in one global order |
| LockOrder.NoCycle | src/modules/reservations/reservation.repository.ts:43-57 | in no reachable state of any number of them do transactions wait for each other in a circle |
| LockOrder.SomebodyCanProceed | src/modules/bookings/booking.service.ts:287-305 | in every state the code's transactions reach, if anyone is unfinished someone can take its next lock or finish |
| LockOrder.EverybodyFinishes | src/modules/bookings/booking.service.ts:287-305 | and from every such state, letting them do so, everyone finishes |
| BatchLocks.BatchDeadlocksIff | src/workers/waitlist-allocation.worker.ts:96-142 | for every batch of turns - entries picked up with SKIP LOCKED, seats then lapsed holds waited for, lost races rolled back to their savepoint - beside any number of the code's transactions: some run puts it in a circle of waiting if and only if a turn comes to a row standing before one an earlier turn kept |
| BatchLocks.PlainOutOfOrder | src/modules/waitlist/waitlist.service.ts:227-310 | where no lapsed hold is met and no seat twice, that is exactly a kept seat followed by a lower one |
| BatchLocks.TwoCategoriesCanDeadlock | src/workers/waitlist-allocation.worker.ts:96-142 | two claimed queues, the second with the lower seat, are an instance |
| BatchLocks.ReclaimingCanDeadlock | src/modules/reservations/reservation.repository.ts:105-129 | so is any kept pairing that reclaimed a lapsed hold, followed by any other seat |
| WorkerLocks.TurnsAreThePass | src/modules/waitlist/waitlist.service.ts:219-310 | the turns derived from an allocation pass keep the locks of exactly the pairs the pass makes, in its order |
| WorkerLocks.WorkerDeadlocksIff | src/workers/waitlist-allocation.worker.ts:96-142 | for every state, claims, reads and races, the worker's transaction can deadlock if and only if its turns are out of order in that sense |
| WorkerLocks.OneCalmQueueCannotDeadlock | src/modules/waitlist/waitlist.service.ts:219-310 | a worker that claimed one queue and is undisturbed in it never can |
| Keyset.WalkIsListing | src/modules/events/event.service.ts:585-614 | under all four sorts and any limit, following nextCursor over unchanging events is complete and collects exactly the matching list in order |
| Keyset.WalkIsAsAsked | src/modules/events/event.repository.ts:454-482 | so a complete walk collects exactly the matching events, by start or title ascending or descending as asked, ties by id the same way round |
| Keyset.NobodyTwice | src/modules/events/event.repository.ts:610-639 | with events inserted and deleted between pages no event appears twice |
| Keyset.NobodySkipped | src/modules/events/event.repository.ts:610-639 | an event present unchanged throughout is collected by every complete walk |
| Keyset.WalkRises | src/modules/events/event.repository.ts:454-482 | what a walk collects strictly rises in the sort's order across all its pages |
| Keyset.CutIsFront | src/modules/events/event.service.ts:585-611 | a page is the front of what lies past the cursor, with a next one exactly when something is left |
| Keyset.PastLast | src/modules/events/event.repository.ts:610-622 | past the cursor of a precise row lies exactly what follows that row |
| Keyset.AscendingNextPageIff | src/modules/events/event.service.ts:585-620 | walking up by start from any cursor, the next page is the cut of what follows the last row shown if and only if that row starts on a whole millisecond |
| Keyset.DescendingNextPageIff | src/modules/events/event.service.ts:585-620 | walking down by start, it is if and only if the row due next does not start after the last row's truncated time, nor on it with an id not below |
| Keyset.AscendingRepeatsIff | src/modules/events/event.service.ts:617-620 | ascending by start, the last row lies past its own cursor if and only if it does not start on a whole millisecond |
| Keyset.DescendingSkipsIff | src/modules/events/event.service.ts:617-620 | descending by start, exactly which of the following events lie outside the next page's reach |
| Keyset.DescendingCanSkip | src/modules/events/event.service.ts:617-620 | two rows in one millisecond, as only a write outside the API could leave them: one a page, the second is due next and never listed |
| RefreshTokens.RefreshVerdict | src/modules/auth/auth.service.ts:160-196 | a refresh rotates if and only if the token is stored, unrevoked, unexpired at now and its user exists: it then spends that token and stores a live successor of the same user until now + ttl, touching no other; a revoked token is reuse, anything else rejected, and neither changes a token |
| RefreshTokens.RotatedInTime | src/modules/auth/auth.service.ts:178-191 | over any events, every token written by a rotation was written while its ancestor was unrevoked, unexpired and of a known user, and expires its ttl after that instant |
| RefreshTokens.RotationIsAChain | src/modules/auth/auth.service.ts:160-196 | over any interleaving a token has at most one successor, a login's tokens form one chain, and at most its last link is live |
| RefreshTokens.RotatedIsReusedEverAfter | src/modules/auth/auth.service.ts:174-176 | a rotated token presented again, after anything, is reuse |
| RefreshTokens.SweepRevokes | src/modules/auth/auth.repository.ts:188-194 | when the reuse transaction commits, every token of the user that existed when its statement began is revoked, one rotated after detection included; any still live was issued since |
| RefreshTokens.SweepLeavesLiveIff | src/modules/auth/auth.repository.ts:188-194 | over any events between the sweeping statement's start and its commit: it leaves the user a live token if and only if some login or rotation of theirs committed in between and the token that wrote was not rotated, logged out or swept by another before the end |
| RefreshTokens.UndisturbedSweepIsTotal | src/modules/auth/auth.repository.ts:188-194 | if no login and no rotation of the user's commits in between, nothing of theirs stays live |
| RefreshTokens.RotationEscapesSweep | src/modules/auth/auth.service.ts:206-216 | a rotation committing while the revocation waits leaves a live successor |
| RefreshTokens.OneChain | src/modules/auth/auth.repository.ts:104-125 | no two tokens of one login are at the same depth |
| RefreshTokens.OnlyLastIsLive | src/modules/auth/auth.service.ts:190-196 | a live token is the deepest of its chain |
| RefreshTokens.LoginStores | src/modules/auth/auth.service.ts:102-124 | a login adds one live token of the user until now + ttl, with no ancestor, and touches no other |
| RefreshTokens.LogoutRevokes | src/modules/auth/auth.service.ts:231-240 | a logout leaves the presented token revoked and every other as it was |
| RefreshTokens.AuthStore.Login | src/modules/auth/auth.service.ts:102-124 | stores a fresh token with no ancestor |
| RefreshTokens.AuthStore.Refresh | src/modules/auth/auth.service.ts:160-196 | rotates, rejects or reports reuse as specified |
| RefreshTokens.AuthStore.Logout | src/modules/auth/auth.service.ts:231-240 | revokes a live token and is harmless otherwise |
| RefreshTokens.AuthStore.RevokeAll | src/modules/auth/auth.repository.ts:188-194 | revokes exactly the user's live tokens and leaves none |
| RateLimit.AdmitsFirstOfEach | src/modules/rate-limit/rate-limit.service.ts:32-39 | for any requests, each window admits exactly its first min(max, n) and refusals never lengthen it |
| RateLimit.DecisionTells | src/modules/rate-limit/rate-limit.service.ts:76-109 | the answer to the last of any requests, in terms of the request that opened its window: allowed if and only if no more than max have come since, the rest of max as remaining, and the seconds until the window is over to the nearest one |
| RateLimit.WindowBound | src/modules/rate-limit/rate-limit.service.ts:58-67 | any stretch of a window's length, both ends counted, admits at most 2 * max - 1 |
| RateLimit.LongerBound | src/modules/rate-limit/rate-limit.service.ts:58-67 | one a millisecond longer admits at most 2 * max |
| RateLimit.WindowIsAttained | src/modules/rate-limit/rate-limit.service.ts:58-67 | for every policy some requests attain the first bound within two milliseconds |
| RateLimit.LongerIsAttained | src/modules/rate-limit/rate-limit.service.ts:58-67 | and some the second |
| RateLimit.Limiter.Consume | src/modules/rate-limit/rate-limit.service.ts:76-109 | one scripted increment, its decision, and no other identifier touched |
| RateLimit.Limiter.ConsumeAll | src/modules/rate-limit/rate-limit.service.ts:76-109 | the decisions over any sequence of requests are the specified ones |
| Subscriptions.Registry.HandleAll | src/realtime/subscription-registry.ts:72-143 | after any calls a socket is subscribed to exactly the events it last asked for while connected, the two indexes agree with no empty set kept, and Redis is listening on exactly the wanted channels |
| Subscriptions.Registry.RegisterConnection | src/realtime/subscription-registry.ts:72-74 | a new socket wants nothing |
| Subscriptions.Registry.SubscribeConnection | src/realtime/subscription-registry.ts:89-107 | SUBSCRIBE is sent exactly for the first local subscriber |
| Subscriptions.Registry.UnsubscribeConnection | src/realtime/subscription-registry.ts:110-117 | UNSUBSCRIBE is sent exactly when the last one leaves |
| Subscriptions.Registry.RemoveLocalSubscriber | src/realtime/subscription-registry.ts:130-143 | drops the socket, and the event with its channel when nobody is left |
| Subscriptions.Registry.DeregisterConnection | src/realtime/subscription-registry.ts:120-128 | a closed socket leaves everything, and exactly the events it alone wanted are dropped |

## Left out

- LockOrder.NoCycle: covers idempotency-key claims and explicit row locks of the customer-facing transactions and the sweep; waits on foreign-key share locks and on unique-index insertions are not modelled. The allocation worker is covered by BatchLocks and WorkerLocks.
- BatchLocks.BatchDeadlocksIff: one allocation worker beside any number of other transactions; two workers' batches side by side are not composed. A customer leaving the line may wait for an entry the worker has picked up, but an ending hold or an acceptance never does: the entry it stamps has an offer, and the worker picks only waiting ones.
- Idempotency.InterleavingIsSerial: the wrapped operation is taken to run against the state committed when its transaction ends, which its own row locks are there to ensure; two operations overlapping on unlocked data are not modelled.
- Keyset.WalkIsListing: start times are on whole milliseconds, as the API writes them; for others AscendingNextPageIff and DescendingNextPageIff say exactly which next page is right.
- Delivery.EndToEnd: a client stays connected from its load on and misses nothing published since; dropped connections are SeatFeed.ReloadFallsBackIff's case.
- Keyset.NobodyTwice: events are inserted and deleted between pages but keep their sort key; an event moved while someone pages may appear twice.
- SeatFeed.HighestIsShown: speaks of messages delivered after the last snapshot was installed.
- Subscriptions.Registry.HandleAll: the subscriber connection is up throughout and a socket object is registered once, as the server does; the cap on subscriptions per connection is checked before an await in src/realtime/websocket-server.ts:82-93 and is not an invariant.
- Runs.RunInv: each transaction is one atomic step, as its row locks make it for the rows it decides on; statements of different inventory transactions interleaving under READ COMMITTED are not modelled outside the allocation pass.
- Races.RacedPass: the offer lifetime is positive, as src/config/index.ts:159 enforces, and no entry is locked by another transaction; Allocation.NoOvertaking covers locked entries, Allocation.CalmPass stale offers.
- Store.Inventory.RunAllocationPass: other transactions committing during a pass appear only as locked entries and stale seat reads; a signal raised while its row is claimed coalesces into the claimed row and is lost until reconciliation, which the one-step view of a pass does not show.
- The hold-expiration outbox, its Redis keys, the ticket e-mail outbox and the offer notification outbox: further instances of the outbox shape proved in OutboxWorker.
- Random booking and ticket references with their savepoint retry: a collision only draws again.
- The batch limit and ordering of the sweep's due list: the sweep is proved for any list of holds.
- Controllers, routes, validation schemas, authentication middleware, configuration and logging: plumbing.
- Event and venue administration, user management and price changes: short guarded updates; events, users and seats are fixed for a run.
- Foreign-key cascades and event deletion racing with holds: not part of this model.
- Full-text search, collation and filters: an arbitrary predicate and an arbitrary total order stand for them.
- Redis, WebSocket transport, e-mail, JWT, Argon2 and SHA-256: foreign calls.
- Frontend pages other than the seat-map hook: user interface.
