/** Seats lost between the unlocked read and the lock: what one pairing, and a whole pass, make of them. */
module Races {
  import opened Schema
  import opened Transactions
  import opened Invariant
  import opened Allocation
  import opened Runs
  import opened Answers
  import opened Wrappers

  /** What a pairing writes: the entry's user holds the seat until `now + ttl`, and is offered it until then. */
  ghost predicate Offers(db: Db, d: Db, entry: EntryId, seat: SeatId, ttl: int, newHold: HoldId, newOffer: OfferId, now: Instant)
    requires entry in db.entries
  {
    var e := db.entries[entry];
    && newHold in d.holds && d.holds[newHold] == Hold(e.event, e.user, Active, now + ttl, {seat})
    && d.offers == db.offers[newOffer := Offer(entry, seat, newHold, now + ttl, OfferStatus.Offered)]
    && d.entries == db.entries[entry := e.(status := EntryStatus.Offered)]
    && seat in d.seats && d.seats[seat].status.Held? && SameSeats(db, d)
    && (forall s :: s in d.seats && s != seat ==> d.seats[s] == db.seats[s])
    && d.bookings == db.bookings && d.signals == db.signals
    && (forall h :: h in db.holds && h != newHold ==>
          h in d.holds && d.holds[h] == if h in LapsedOver(db, {seat}, now) then db.holds[h].(status := HoldStatus.Expired) else db.holds[h])
    && (forall h :: h in d.holds && h != newHold ==> h in db.holds)
  }

  /**
   Pairing a waiting entry with a seat of its event: a lost race exactly when the
   seat is sold or under an unexpired active hold; otherwise an offer, unless an id
   is taken or the seat's earlier offer still reads as live.
   */
  lemma PairingVerdict(db: Db, entry: EntryId, seat: SeatId, ttl: int, newHold: HoldId, newOffer: OfferId, now: Instant)
    requires Inv(db) && entry in db.entries && db.entries[entry].status.Waiting? && OfEvent(db, db.entries[entry].event, seat)
    ensures var p := OfferSeat(db, entry, seat, ttl, newHold, newOffer, now);
            var used := newHold in db.holds || newOffer in db.offers;
            && (p.Raced? <==> Gone(db, seat, now))
            && (p == Aborted(IdCollision) <==> !Gone(db, seat, now) && used)
            && (p == Aborted(LiveOfferForSeat) <==> !Gone(db, seat, now) && !used && LiveOffer(db, seat))
            && (p.Paired? <==> !Gone(db, seat, now) && !used && !LiveOffer(db, seat))
            && (p.Paired? ==> Offers(db, p.db, entry, seat, ttl, newHold, newOffer, now))
  {
    hide TakeSeats, HoldVerdict, LiveHold, SeatsOk, SalesOk, Gone, Taken, RefusedFor;
    var e := db.entries[entry];
    GoneIsTaken(db, seat, now);
    SeatVerdict(db, e.event, e.user, seat, newHold, now);
    forall o | o in db.offers
      ensures !(db.offers[o].entry == entry && db.offers[o].status.Offered?) && db.offers[o].hold in db.holds
    {
      assert OfferOk(db, db.offers[o]);
    }
    if newHold !in db.holds { TakeSeatsTakes(db, e.event, e.user, {seat}, ExpiryAt(now, ttl), newHold, now); }
  }

  /** createHold's verdict on one seat of the event for a known user. */
  lemma SeatVerdict(db: Db, event: EventId, user: UserId, seat: SeatId, newHold: HoldId, now: Instant)
    requires event in db.world.events && user in db.world.users && OfEvent(db, event, seat)
    ensures var v := HoldVerdict(db, event, user, {seat}, newHold, now);
            if Taken(db, seat, now) then v.Fail? && v.error.SeatsUnavailable?
            else v == if newHold in db.holds then Fail(IdCollision) else Ok(newHold)
  {
    hide Taken;
    var outside, taken := SeatsOutside(db, event, {seat}), TakenAmong(db, {seat}, now);
    assert forall s :: s !in outside;
    assert outside == {};
    if Taken(db, seat, now) {
      assert seat in taken;
    } else {
      assert forall s :: s !in taken;
      assert taken == map[];
    }
  }

  // ------------------------------------------------------------- a whole pass

  /** The k-th seat tried cannot be had: gone before the pass, or tried earlier in it. */
  ghost predicate GoneAt(db: Db, seats: seq<SeatId>, now: Instant, k: int)
    requires 0 <= k < |seats|
  {
    Gone(db, seats[k], now) || seats[k] in seats[..k]
  }

  /** The seats tried that can be had, in the order they were tried. */
  function Kept(seats: seq<SeatId>, gone: iset<SeatId>): seq<SeatId> {
    if seats == [] then []
    else if seats[0] in gone then Kept(seats[1..], gone)
    else [seats[0]] + Kept(seats[1..], gone + iset{seats[0]})
  }

  ghost function GoneSeats(db: Db, now: Instant): iset<SeatId> {
    iset s | Gone(db, s, now)
  }

  function SeatsTried(draws: seq<Draw>): seq<SeatId>
    requires forall k :: 0 <= k < |draws| ==> draws[k].seat.Some?
  {
    seq(|draws|, k requires 0 <= k < |draws| => draws[k].seat.value)
  }

  /**
   Every read returned some seat of the event, no entry is locked elsewhere, the ids
   drawn are new and all different, and no seat that can still be had has an earlier
   offer marked live. Which of the seats have been taken since they were read is left open.
   */
  ghost predicate Raceable(db: Db, event: EventId, draws: seq<Draw>, now: Instant) {
    && (forall k :: 0 <= k < |draws| ==>
          && draws[k].locked == {} && draws[k].seat.Some? && OfEvent(db, event, draws[k].seat.value)
          && draws[k].newHold !in db.holds && draws[k].newOffer !in db.offers
          && (LiveOffer(db, draws[k].seat.value) ==> Gone(db, draws[k].seat.value, now)))
    && (forall j, k :: 0 <= j < k < |draws| ==> draws[j].newHold != draws[k].newHold && draws[j].newOffer != draws[k].newOffer)
  }

  /** A pairing's own seat is gone from then on, and no other seat's case is altered. */
  lemma PairingTakesOne(db: Db, d: Db, entry: EntryId, seat: SeatId, ttl: int, newHold: HoldId, newOffer: OfferId, now: Instant, s: SeatId)
    requires ttl > 0 && entry in db.entries && newHold !in db.holds && newOffer !in db.offers
    requires Offers(db, d, entry, seat, ttl, newHold, newOffer, now)
    ensures Gone(d, s, now) <==> Gone(db, s, now) || s == seat
    ensures LiveOffer(d, s) <==> LiveOffer(db, s) || s == seat
  {
    hide SameSeats;
    assert SoldLive(d, s) <==> SoldLive(db, s);
    if s == seat {
      assert newHold in d.holds && d.holds[newHold].expiresAt > now;
      assert newOffer in d.offers && d.offers[newOffer].seat == seat;
    }
    if LiveHold(db, s, now) {
      var h :| h in db.holds && db.holds[h].status.Active? && db.holds[h].expiresAt > now && s in db.holds[h].seats;
      assert h in d.holds && d.holds[h] == db.holds[h];
    }
    if LiveOffer(db, s) {
      var o :| o in db.offers && db.offers[o].seat == s && db.offers[o].status.Offered?;
      assert o in d.offers && d.offers[o] == db.offers[o];
    }
  }

  lemma RaceableRest(db: Db, event: EventId, draws: seq<Draw>, now: Instant)
    requires Raceable(db, event, draws, now) && draws != []
    ensures Raceable(db, event, draws[1..], now)
  {
    assert forall k :: 0 <= k < |draws[1..]| ==> draws[1..][k] == draws[k + 1];
  }

  lemma RaceableAfter(db: Db, d: Db, event: EventId, draws: seq<Draw>, entry: EntryId, ttl: int, now: Instant)
    requires Raceable(db, event, draws, now) && draws != [] && ttl > 0 && entry in db.entries
    requires Offers(db, d, entry, draws[0].seat.value, ttl, draws[0].newHold, draws[0].newOffer, now)
    ensures Raceable(d, event, draws[1..], now)
    ensures GoneSeats(d, now) == GoneSeats(db, now) + iset{draws[0].seat.value}
  {
    hide Gone, LiveOffer, Offers;
    var seat := draws[0].seat.value;
    forall s ensures (Gone(d, s, now) <==> Gone(db, s, now) || s == seat) && (LiveOffer(d, s) <==> LiveOffer(db, s) || s == seat) {
      PairingTakesOne(db, d, entry, seat, ttl, draws[0].newHold, draws[0].newOffer, now, s);
    }
    OffersFrame(db, d, entry, seat, ttl, draws[0].newHold, draws[0].newOffer, now);
    assert forall k :: 0 <= k < |draws[1..]| ==> draws[1..][k] == draws[k + 1];
  }

  lemma OffersFrame(db: Db, d: Db, entry: EntryId, seat: SeatId, ttl: int, newHold: HoldId, newOffer: OfferId, now: Instant)
    requires entry in db.entries && Offers(db, d, entry, seat, ttl, newHold, newOffer, now)
    ensures SameSeats(db, d)
    ensures forall h :: h in d.holds ==> h == newHold || h in db.holds
    ensures forall o :: o in d.offers ==> o == newOffer || o in db.offers
    ensures forall event, s :: OfEvent(db, event, s) ==> OfEvent(d, event, s)
  {
  }

  /**
   `r` is the pass over these seats: it never threw; of the attempts it made, those
   whose seat was gone are the races and the others are the pairs, in the order of
   the reads and of the line; and it stopped early only with the line exhausted.
   */
  ghost predicate RacedOver(line: seq<EntryId>, seats: seq<SeatId>, gone: iset<SeatId>, r: PassResult) {
    var tried := |r.pairs| + r.raced;
    && r.abort.None? && |r.pairs| <= |line| && tried <= |seats|
    && (forall i :: 0 <= i < |r.pairs| ==> r.pairs[i].entry == line[i])
    && Kept(seats[..tried], gone) == seq(|r.pairs|, i requires 0 <= i < |r.pairs| => r.pairs[i].seat)
    && (tried < |seats| ==> |r.pairs| == |line|)
    && (|r.pairs| == |line| && tried > 0 ==> r.pairs != [] && seats[tried - 1] == r.pairs[|r.pairs| - 1].seat)
  }

  lemma NothingTried(line: seq<EntryId>, seats: seq<SeatId>, gone: iset<SeatId>, db: Db)
    requires line == [] || seats == []
    ensures RacedOver(line, seats, gone, PassResult(db, [], 0, None))
  {
  }

  lemma OneRaceMore(line: seq<EntryId>, seats: seq<SeatId>, gone: iset<SeatId>, rest: PassResult)
    requires line != [] && seats != [] && seats[0] in gone && RacedOver(line, seats[1..], gone, rest)
    ensures RacedOver(line, seats, gone, rest.(raced := rest.raced + 1))
  {
    var tried := |rest.pairs| + rest.raced;
    assert seats[..tried + 1][1..] == seats[1..][..tried];
  }

  lemma OneOfferMore(line: seq<EntryId>, seats: seq<SeatId>, gone: iset<SeatId>, rest: PassResult)
    requires line != [] && seats != [] && seats[0] !in gone && RacedOver(line[1..], seats[1..], gone + iset{seats[0]}, rest)
    ensures RacedOver(line, seats, gone, rest.(pairs := [Pair(line[0], seats[0])] + rest.pairs))
  {
    var tried := |rest.pairs| + rest.raced;
    var pairs := [Pair(line[0], seats[0])] + rest.pairs;
    assert seats[..tried + 1][1..] == seats[1..][..tried];
    assert forall i :: 0 < i < |pairs| ==> pairs[i] == rest.pairs[i - 1];
    assert seq(|pairs|, i requires 0 <= i < |pairs| => pairs[i].seat)
           == [seats[0]] + seq(|rest.pairs|, i requires 0 <= i < |rest.pairs| => rest.pairs[i].seat);
  }

  /** With fresh ids and no stale offers a pass never throws, whatever it loses to races. */
  lemma {:induction false} RacedPass(db: Db, event: EventId, category: Category, line: seq<EntryId>, draws: seq<Draw>, ttl: int, now: Instant)
    requires Inv(db) && ttl > 0 && IsLine(db, event, category, line) && Raceable(db, event, draws, now)
    ensures RacedOver(line, SeatsTried(draws), GoneSeats(db, now), Pass(db, event, category, draws, ttl, now))
    decreases |draws|
  {
    hide Inv, OfferSeat, NextWaiting, InLine, Gone, GoneSeats, RacedOver, Offers, Raceable, LiveOffer, Ahead;
    RaceableIsRead(db, event, draws, now);
    var seats := SeatsTried(draws);
    NextIsHead(db, event, category, line);
    if draws == [] || line == [] {
      NothingTried(line, seats, GoneSeats(db, now), db);
      StopsHere(db, event, category, draws, ttl, now);
    } else {
      FirstDraw(db, event, category, line, draws, now);
      var entry, seat := line[0], draws[0].seat.value;
      assert SeatsTried(draws[1..]) == seats[1..];
      PairingVerdict(db, entry, seat, ttl, draws[0].newHold, draws[0].newOffer, now);
      InGoneSeats(db, seat, now);
      if Gone(db, seat, now) {
        RaceableRest(db, event, draws, now);
        RacedPass(db, event, category, line, draws[1..], ttl, now);
        OneRaceMore(line, seats, GoneSeats(db, now), Pass(db, event, category, draws[1..], ttl, now));
      } else {
        var d := OfferSeat(db, entry, seat, ttl, draws[0].newHold, draws[0].newOffer, now).db;
        OfferSeatInv(db, entry, seat, ttl, draws[0].newHold, draws[0].newOffer, now);
        PairingAdvances(db, event, category, entry, draws[0], ttl, now);
        LineAdvances(db, d, event, category, line);
        RaceableAfter(db, d, event, draws, entry, ttl, now);
        RacedPass(d, event, category, line[1..], draws[1..], ttl, now);
        OneOfferMore(line, seats, GoneSeats(db, now), Pass(d, event, category, draws[1..], ttl, now));
      }
    }
  }

  lemma StopsHere(db: Db, event: EventId, category: Category, draws: seq<Draw>, ttl: int, now: Instant)
    requires draws == [] || NextWaiting(db, event, category, draws[0].locked).None?
    ensures Pass(db, event, category, draws, ttl, now) == PassResult(db, [], 0, None)
  {
    hide NextWaiting;
  }

  lemma InGoneSeats(db: Db, s: SeatId, now: Instant)
    ensures s in GoneSeats(db, now) <==> Gone(db, s, now)
  {
  }

  lemma FirstDraw(db: Db, event: EventId, category: Category, line: seq<EntryId>, draws: seq<Draw>, now: Instant)
    requires IsLine(db, event, category, line) && line != [] && draws != [] && Raceable(db, event, draws, now)
    ensures line[0] in InLine(db, event, category) && line[0] in db.entries
    ensures db.entries[line[0]].status.Waiting? && db.entries[line[0]].event == event
    ensures var draw := draws[0];
            && draw.locked == {} && draw.seat.Some? && OfEvent(db, event, draw.seat.value)
            && draw.newHold !in db.holds && draw.newOffer !in db.offers
            && (LiveOffer(db, draw.seat.value) ==> Gone(db, draw.seat.value, now))
  {
    hide Gone, LiveOffer, OfEvent, IsLine;
    HeadWaits(db, event, category, line);
  }

  lemma HeadWaits(db: Db, event: EventId, category: Category, line: seq<EntryId>)
    requires IsLine(db, event, category, line) && line != []
    ensures line[0] in InLine(db, event, category)
  {
    hide InLine, Ahead;
    var head := line[0];
    assert head in line;
    assert head in line <==> head in InLine(db, event, category);
  }

  // ------------------------------------------------------------- counting them

  /** Which attempts among the first `n` met a seat that was gone. */
  ghost function RacesAmong(db: Db, seats: seq<SeatId>, now: Instant, n: nat): set<int>
    requires n <= |seats|
  {
    set k | 0 <= k < n && GoneAt(db, seats, now, k)
  }

  lemma {:induction false} KeptSplits(seats: seq<SeatId>, gone: iset<SeatId>, last: SeatId)
    ensures Kept(seats + [last], gone)
            == Kept(seats, gone) + if last in gone || last in seats then [] else [last]
    decreases |seats|
  {
    if seats == [] {
      assert ([] + [last])[1..] == [];
    } else {
      assert (seats + [last])[1..] == seats[1..] + [last];
      if seats[0] in gone {
        KeptSplits(seats[1..], gone, last);
      } else {
        KeptSplits(seats[1..], gone + iset{seats[0]}, last);
      }
    }
  }

  /** Every attempt is a race or a kept seat. */
  lemma {:induction false} RacesAndKept(db: Db, seats: seq<SeatId>, now: Instant, n: nat)
    requires n <= |seats|
    ensures |RacesAmong(db, seats, now, n)| + |Kept(seats[..n], GoneSeats(db, now))| == n
    decreases n
  {
    hide Gone;
    if n == 0 {
      assert RacesAmong(db, seats, now, 0) == {};
    } else {
      var m := n - 1;
      RacesAndKept(db, seats, now, m);
      assert seats[..n] == seats[..m] + [seats[m]];
      KeptSplits(seats[..m], GoneSeats(db, now), seats[m]);
      if GoneAt(db, seats, now, m) {
        assert RacesAmong(db, seats, now, n) == RacesAmong(db, seats, now, m) + {m};
      } else {
        assert RacesAmong(db, seats, now, n) == RacesAmong(db, seats, now, m);
      }
    }
  }

  /**
   A claimed queue's pass, at most 500 attempts, with fresh ids and no stale offers:
   it completes; the races counted are exactly the attempts
   whose seat was sold, held or already tried; and the other attempts' seats go, in
   the order they were read, to the head of the line.
   */
  lemma RacesAreCounted(db: Db, event: EventId, category: Category, line: seq<EntryId>, draws: seq<Draw>, ttl: int, now: Instant)
    requires Inv(db) && ttl > 0 && IsLine(db, event, category, line) && Raceable(db, event, draws, now) && |draws| <= 500
    ensures var r := RunPass(db, event, category, draws, ttl, now);
            var seats, tried := SeatsTried(draws), |r.pairs| + r.raced;
            && r.abort.None? && tried <= |draws| && |r.pairs| <= |line|
            && r.raced == |RacesAmong(db, seats, now, tried)|
            && (forall i :: 0 <= i < |r.pairs| ==> r.pairs[i].entry == line[i])
            && Kept(seats[..tried], GoneSeats(db, now)) == seq(|r.pairs|, i requires 0 <= i < |r.pairs| => r.pairs[i].seat)
            && (tried < |draws| ==> |r.pairs| == |line|)
  {
    hide Pass, Inv, IsLine, Raceable, Kept, GoneSeats, RacesAmong;
    RaceableIsRead(db, event, draws, now);
    RacedPass(db, event, category, line, draws, ttl, now);
    var r := RunPass(db, event, category, draws, ttl, now);
    RacesAndKept(db, SeatsTried(draws), now, |r.pairs| + r.raced);
  }

  lemma RaceableIsRead(db: Db, event: EventId, draws: seq<Draw>, now: Instant)
    requires Raceable(db, event, draws, now)
    ensures forall k :: 0 <= k < |draws| ==> draws[k].seat.Some? && draws[k].locked == {}
  {
  }
}
