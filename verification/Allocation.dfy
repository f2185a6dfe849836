/** The waitlist allocation pass: who is offered which seat, and in what order. */
module Allocation {
  import opened Rows
  import opened Schema
  import opened Transactions
  import opened Invariant
  import opened Wrappers

  const MAX_PAIRINGS_PER_PASS := 500

  // ------------------------------------------------------------ the two queues

  /** Entries waiting for a seat of this category. */
  function InLine(db: Db, event: EventId, category: Category): set<EntryId> {
    set e | e in db.entries && db.entries[e].event == event && db.entries[e].category == category && db.entries[e].status.Waiting?
  }

  /** ORDER BY joined_at, id. */
  predicate Ahead(db: Db, e: EntryId, f: EntryId)
    requires e in db.entries && f in db.entries
  {
    || db.entries[e].joinedAt < db.entries[f].joinedAt
    || (db.entries[e].joinedAt == db.entries[f].joinedAt && e < f)
  }

  ghost predicate IsFirst(db: Db, candidates: set<EntryId>, e: EntryId)
    requires forall f :: f in candidates ==> f in db.entries
  {
    e in candidates && forall f :: f in candidates && f != e ==> Ahead(db, e, f)
  }

  lemma {:induction false} FirstExists(db: Db, candidates: set<EntryId>)
    requires candidates != {}
    requires forall f :: f in candidates ==> f in db.entries
    ensures exists e :: IsFirst(db, candidates, e)
    decreases |candidates|
  {
    var e := Pick(candidates);
    var rest := candidates - {e};
    assert forall g :: g in candidates ==> g == e || g in rest;
    if rest == {} {
      assert IsFirst(db, candidates, e);
    } else {
      FirstExists(db, rest);
      var f :| IsFirst(db, rest, f);
      assert IsFirst(db, candidates, if Ahead(db, e, f) then e else f);
    }
  }

  lemma OneFirst(db: Db, candidates: set<EntryId>, e: EntryId, f: EntryId)
    requires forall g :: g in candidates ==> g in db.entries
    requires IsFirst(db, candidates, e) && IsFirst(db, candidates, f)
    ensures e == f
  {
  }

  /** The head of the line among entries no other transaction has locked. */
  ghost function NextWaiting(db: Db, event: EventId, category: Category, locked: set<EntryId>): Option<EntryId> {
    var candidates := InLine(db, event, category) - locked;
    if candidates == {} then None
    else
      FirstExists(db, candidates);
      var e :| IsFirst(db, candidates, e);
      Some(e)
  }

  /** Seats of this category on sale. */
  function OnSale(db: Db, event: EventId, category: Category): set<SeatId> {
    set s | s in db.seats && db.seats[s].event == event && db.seats[s].category == category && db.seats[s].status.Available?
  }

  ghost predicate IsLeast(seats: set<SeatId>, s: SeatId) {
    s in seats && forall t :: t in seats ==> s <= t
  }

  lemma {:induction false} LeastExists(seats: set<SeatId>)
    requires seats != {}
    ensures exists s :: IsLeast(seats, s)
    decreases |seats|
  {
    var s := Pick(seats);
    var rest := seats - {s};
    assert forall t :: t in seats ==> t == s || t in rest;
    if rest == {} {
      assert IsLeast(seats, s);
    } else {
      LeastExists(rest);
      var t :| IsLeast(rest, t);
      assert IsLeast(seats, if s <= t then s else t);
    }
  }

  ghost function NextSeat(db: Db, event: EventId, category: Category): Option<SeatId> {
    var seats := OnSale(db, event, category);
    if seats == {} then None
    else
      LeastExists(seats);
      var s :| IsLeast(seats, s);
      Some(s)
  }

  // ------------------------------------------------------------------ the pass

  /**
   What the outside decides about one iteration: which entries other
   transactions have locked, which seat the unlocked availability read returns -
   possibly one that is no longer free by the time it is locked - and the uuids
   drawn for the hold and the offer.
   */
  datatype Draw = Draw(locked: set<EntryId>, seat: Option<SeatId>, newHold: HoldId, newOffer: OfferId)

  datatype Pair = Pair(entry: EntryId, seat: SeatId)

  /** `abort` is an error that was not a lost race; the offers made before it stand. */
  datatype PassResult = PassResult(db: Db, pairs: seq<Pair>, raced: nat, abort: Option<Error>)

  ghost function Pass(db: Db, event: EventId, category: Category, draws: seq<Draw>, ttl: int, now: Instant): PassResult
    decreases |draws|
  {
    if draws == [] then PassResult(db, [], 0, None)
    else
      var next := NextWaiting(db, event, category, draws[0].locked);
      if next.None? || draws[0].seat.None? then PassResult(db, [], 0, None)
      else
        match OfferSeat(db, next.value, draws[0].seat.value, ttl, draws[0].newHold, draws[0].newOffer, now)
        case Aborted(error) => PassResult(db, [], 0, Some(error))
        case Raced =>
          var r := Pass(db, event, category, draws[1..], ttl, now);
          r.(raced := r.raced + 1)
        case Paired(d) =>
          var r := Pass(d, event, category, draws[1..], ttl, now);
          r.(pairs := [Pair(next.value, draws[0].seat.value)] + r.pairs)
  }

  /** A whole pass: at most MAX_PAIRINGS_PER_PASS attempts. */
  ghost function RunPass(db: Db, event: EventId, category: Category, draws: seq<Draw>, ttl: int, now: Instant): PassResult {
    Pass(db, event, category, if |draws| <= MAX_PAIRINGS_PER_PASS then draws else draws[..MAX_PAIRINGS_PER_PASS], ttl, now)
  }

  lemma {:induction false} PassInv(db: Db, event: EventId, category: Category, draws: seq<Draw>, ttl: int, now: Instant)
    requires Inv(db)
    ensures Inv(Pass(db, event, category, draws, ttl, now).db)
    decreases |draws|
  {
    hide Inv, OfferSeat, NextWaiting;
    if draws != [] {
      var next := NextWaiting(db, event, category, draws[0].locked);
      if next.Some? && draws[0].seat.Some? {
        match OfferSeat(db, next.value, draws[0].seat.value, ttl, draws[0].newHold, draws[0].newOffer, now)
        case Aborted(_) =>
        case Raced => PassInv(db, event, category, draws[1..], ttl, now);
        case Paired(d) =>
          OfferSeatInv(db, next.value, draws[0].seat.value, ttl, draws[0].newHold, draws[0].newOffer, now);
          PassInv(d, event, category, draws[1..], ttl, now);
      }
    }
  }

  // ------------------------------------------------------------ first in, first out

  /** `line` lists the waiting entries, longest waiting first. */
  ghost predicate IsLine(db: Db, event: EventId, category: Category, line: seq<EntryId>) {
    && (forall e :: e in line <==> e in InLine(db, event, category))
    && (forall i, j :: 0 <= i < j < |line| ==> line[i] in db.entries && line[j] in db.entries && Ahead(db, line[i], line[j]))
  }

  /** `shelf` lists the seats on sale in id order. */
  ghost predicate IsShelf(db: Db, event: EventId, category: Category, shelf: seq<SeatId>) {
    && (forall s :: s in shelf <==> s in OnSale(db, event, category))
    && (forall i, j :: 0 <= i < j < |shelf| ==> shelf[i] < shelf[j])
  }

  lemma NextIsHead(db: Db, event: EventId, category: Category, line: seq<EntryId>)
    requires IsLine(db, event, category, line)
    ensures NextWaiting(db, event, category, {}) == if line == [] then None else Some(line[0])
  {
    var candidates := InLine(db, event, category) - {};
    assert forall e :: e in candidates <==> e in line;
    if line != [] {
      assert line[0] in candidates;
      forall f | f in candidates && f != line[0] ensures Ahead(db, line[0], f) {
        var k :| 0 <= k < |line| && line[k] == f;
        assert Ahead(db, line[0], line[k]);
      }
      FirstExists(db, candidates);
      var e :| NextWaiting(db, event, category, {}) == Some(e) && IsFirst(db, candidates, e);
      OneFirst(db, candidates, e, line[0]);
    }
  }

  lemma NextIsTop(db: Db, event: EventId, category: Category, shelf: seq<SeatId>)
    requires IsShelf(db, event, category, shelf)
    ensures NextSeat(db, event, category) == if shelf == [] then None else Some(shelf[0])
  {
    var seats := OnSale(db, event, category);
    assert forall s :: s in seats <==> s in shelf;
    if shelf != [] {
      assert shelf[0] in seats;
      LeastExists(seats);
      var s :| NextSeat(db, event, category) == Some(s) && IsLeast(seats, s);
      assert s in shelf && shelf[0] in seats;
    }
  }

  /** A pairing takes its entry out of the line and leaves the rest in order. */
  lemma PairingAdvances(db: Db, event: EventId, category: Category, entry: EntryId, draw: Draw, ttl: int, now: Instant)
    requires entry in InLine(db, event, category) && draw.seat.Some?
    requires OfferSeat(db, entry, draw.seat.value, ttl, draw.newHold, draw.newOffer, now).Paired?
    ensures var d := OfferSeat(db, entry, draw.seat.value, ttl, draw.newHold, draw.newOffer, now).db;
            && (forall e :: e in InLine(d, event, category) <==> e in InLine(db, event, category) && e != entry)
            && (forall e :: e in d.entries <==> e in db.entries)
            && (forall e :: e in d.entries ==> d.entries[e].joinedAt == db.entries[e].joinedAt)
            && draw.newOffer !in db.offers
            && d.offers == db.offers[draw.newOffer := d.offers[draw.newOffer]]
            && d.offers[draw.newOffer].entry == entry && d.offers[draw.newOffer].seat == draw.seat.value
            && d.offers[draw.newOffer].status.Offered?
            && !LiveOffer(db, draw.seat.value)
  {
    OfferSeatPaired(db, entry, draw.seat.value, ttl, draw.newHold, draw.newOffer, now);
  }

  lemma LineAdvances(db: Db, d: Db, event: EventId, category: Category, line: seq<EntryId>)
    requires IsLine(db, event, category, line) && line != []
    requires forall e :: e in InLine(d, event, category) <==> e in InLine(db, event, category) && e != line[0]
    requires forall e :: e in d.entries <==> e in db.entries
    requires forall e :: e in d.entries ==> d.entries[e].joinedAt == db.entries[e].joinedAt
    ensures IsLine(d, event, category, line[1..])
  {
    forall i, j | 0 <= i < j < |line[1..]|
      ensures Ahead(db, line[1..][i], line[1..][j])
    {
      assert Ahead(db, line[i + 1], line[j + 1]);
    }
    forall e | e in line && e != line[0] ensures e in line[1..] {
      var k :| 0 <= k < |line| && line[k] == e;
      assert line[1..][k - 1] == e;
    }
    assert forall k :: 1 <= k < |line| ==> Ahead(db, line[0], line[k]);
  }

  /**
   Whatever seats are raced away and wherever the pass stops, when no entry is
   locked elsewhere the entries offered are a prefix of the line.
   */
  lemma {:induction false} OffersArePrefix(db: Db, event: EventId, category: Category, line: seq<EntryId>, draws: seq<Draw>, ttl: int, now: Instant)
    requires IsLine(db, event, category, line)
    requires forall i :: 0 <= i < |draws| ==> draws[i].locked == {}
    ensures var pairs := Pass(db, event, category, draws, ttl, now).pairs;
            && |pairs| <= |line|
            && forall i :: 0 <= i < |pairs| ==> pairs[i].entry == line[i]
    decreases |draws|
  {
    hide OfferSeat, AfterOffer, NextWaiting, InLine, Ahead;
    if draws != [] {
      NextIsHead(db, event, category, line);
      if line != [] && draws[0].seat.Some? {
        match OfferSeat(db, line[0], draws[0].seat.value, ttl, draws[0].newHold, draws[0].newOffer, now)
        case Aborted(_) =>
        case Raced => OffersArePrefix(db, event, category, line, draws[1..], ttl, now);
        case Paired(d) =>
          assert line[0] in line;
          PairingAdvances(db, event, category, line[0], draws[0], ttl, now);
          LineAdvances(db, d, event, category, line);
          OffersArePrefix(d, event, category, line[1..], draws[1..], ttl, now);
      }
    }
  }

  lemma NextIsInLine(db: Db, event: EventId, category: Category, locked: set<EntryId>)
    requires NextWaiting(db, event, category, locked).Some?
    ensures var e := NextWaiting(db, event, category, locked).value;
            && e in InLine(db, event, category) && e !in locked
            && forall f :: f in InLine(db, event, category) && f !in locked && f != e ==> Ahead(db, e, f)
  {
    var candidates := InLine(db, event, category) - locked;
    FirstExists(db, candidates);
    var e :| NextWaiting(db, event, category, locked) == Some(e) && IsFirst(db, candidates, e);
    forall f | f in InLine(db, event, category) && f !in locked && f != e ensures Ahead(db, e, f) {
      assert f in candidates;
    }
  }

  lemma Removed(before: set<EntryId>, between: set<EntryId>, after: set<EntryId>, pair: Pair, rest: seq<Pair>)
    requires pair.entry in before && forall e :: e in between <==> e in before && e != pair.entry
    requires forall i :: 0 <= i < |rest| ==> rest[i].entry in between
    requires forall e :: e in after <==> e in between && forall i :: 0 <= i < |rest| ==> rest[i].entry != e
    ensures var pairs := [pair] + rest;
            && (forall i :: 0 <= i < |pairs| ==> pairs[i].entry in before)
            && (forall e :: e in after <==> e in before && forall i :: 0 <= i < |pairs| ==> pairs[i].entry != e)
  {
    var pairs := [pair] + rest;
    forall e | e in before && (forall i :: 0 <= i < |pairs| ==> pairs[i].entry != e) ensures e in after {
      assert pairs[0] == pair;
      assert forall i :: 0 <= i < |rest| ==> rest[i] == pairs[i + 1];
    }
    forall e | e in after ensures forall i :: 0 <= i < |pairs| ==> pairs[i].entry != e {
      assert forall i :: 0 < i < |pairs| ==> pairs[i] == rest[i - 1];
    }
  }

  /** Everyone offered a seat was in the line, once, and is out of it afterwards; nobody else leaves it. */
  lemma {:induction false} PassTakesFromLine(db: Db, event: EventId, category: Category, draws: seq<Draw>, ttl: int, now: Instant)
    ensures var r := Pass(db, event, category, draws, ttl, now);
            && (forall i :: 0 <= i < |r.pairs| ==> r.pairs[i].entry in InLine(db, event, category))
            && (forall i, j :: 0 <= i < j < |r.pairs| ==> r.pairs[i].entry != r.pairs[j].entry)
            && (forall e :: e in InLine(r.db, event, category) <==>
                  e in InLine(db, event, category) && forall i :: 0 <= i < |r.pairs| ==> r.pairs[i].entry != e)
    decreases |draws|
  {
    hide OfferSeat;
    if draws != [] {
      var next := NextWaiting(db, event, category, draws[0].locked);
      if next.Some? && draws[0].seat.Some? {
        match OfferSeat(db, next.value, draws[0].seat.value, ttl, draws[0].newHold, draws[0].newOffer, now)
        case Aborted(_) =>
        case Raced => PassTakesFromLine(db, event, category, draws[1..], ttl, now);
        case Paired(d) =>
          NextIsInLine(db, event, category, draws[0].locked);
          PairingAdvances(db, event, category, next.value, draws[0], ttl, now);
          PassTakesFromLine(d, event, category, draws[1..], ttl, now);
          var rest := Pass(d, event, category, draws[1..], ttl, now);
          Removed(InLine(db, event, category), InLine(d, event, category), InLine(rest.db, event, category),
                  Pair(next.value, draws[0].seat.value), rest.pairs);
      }
    }
  }

  /** A live offer of the pair's seat to the pair's entry. */
  ghost predicate OfferedTo(db: Db, pair: Pair) {
    exists o :: o in db.offers && db.offers[o].entry == pair.entry && db.offers[o].seat == pair.seat && db.offers[o].status.Offered?
  }

  /** Each offer is a live row of its own for a seat that had none; the offers there were stay as they were. */
  lemma {:induction false} PassRecordsOffers(db: Db, event: EventId, category: Category, draws: seq<Draw>, ttl: int, now: Instant)
    ensures var r := Pass(db, event, category, draws, ttl, now);
            && (forall o :: o in db.offers ==> o in r.db.offers && r.db.offers[o] == db.offers[o])
            && |r.db.offers| == |db.offers| + |r.pairs|
            && (forall i :: 0 <= i < |r.pairs| ==> OfferedTo(r.db, r.pairs[i]) && !LiveOffer(db, r.pairs[i].seat))
            && (forall i, j :: 0 <= i < j < |r.pairs| ==> r.pairs[i].seat != r.pairs[j].seat)
    decreases |draws|
  {
    hide OfferSeat;
    if draws != [] {
      var next := NextWaiting(db, event, category, draws[0].locked);
      if next.Some? && draws[0].seat.Some? {
        match OfferSeat(db, next.value, draws[0].seat.value, ttl, draws[0].newHold, draws[0].newOffer, now)
        case Aborted(_) =>
        case Raced => PassRecordsOffers(db, event, category, draws[1..], ttl, now);
        case Paired(d) =>
          NextIsInLine(db, event, category, draws[0].locked);
          PairingAdvances(db, event, category, next.value, draws[0], ttl, now);
          PassRecordsOffers(d, event, category, draws[1..], ttl, now);
          var r, rest := Pass(db, event, category, draws, ttl, now), Pass(d, event, category, draws[1..], ttl, now);
          assert r.pairs == [Pair(next.value, draws[0].seat.value)] + rest.pairs && r.db == rest.db;
          PassStep(db, d, rest, next.value, draws[0].seat.value, draws[0].newOffer);
      }
    }
  }

  /** One pairing put in front of the rest of a pass. */
  lemma PassStep(db: Db, d: Db, r: PassResult, entry: EntryId, seat: SeatId, o: OfferId)
    requires !LiveOffer(db, seat)
    requires o !in db.offers && o in d.offers && d.offers == db.offers[o := d.offers[o]]
    requires d.offers[o].entry == entry && d.offers[o].seat == seat && d.offers[o].status.Offered?
    requires forall i :: 0 <= i < |r.pairs| ==> OfferedTo(r.db, r.pairs[i]) && !LiveOffer(d, r.pairs[i].seat)
    requires forall p :: p in d.offers ==> p in r.db.offers && r.db.offers[p] == d.offers[p]
    ensures forall i :: 0 <= i < |r.pairs| ==> r.pairs[i].seat != seat
    ensures forall i :: 0 <= i < |r.pairs| ==> !LiveOffer(db, r.pairs[i].seat)
    ensures forall p :: p in db.offers ==> p in r.db.offers && r.db.offers[p] == db.offers[p]
    ensures OfferedTo(r.db, Pair(entry, seat))
    ensures |d.offers| == |db.offers| + 1
  {
    assert o in r.db.offers && r.db.offers[o] == d.offers[o];
    assert LiveOffer(d, seat);
    assert d.offers.Keys == db.offers.Keys + {o};
  }

  /** Nobody is passed over, except while another transaction has their entry locked. */
  lemma {:induction false} NoOvertaking(db: Db, event: EventId, category: Category, draws: seq<Draw>, ttl: int, now: Instant, e: EntryId, k: nat)
    requires e in InLine(db, event, category)
    requires forall i :: 0 <= i < |draws| ==> e !in draws[i].locked
    requires k < |Pass(db, event, category, draws, ttl, now).pairs|
    requires var f := Pass(db, event, category, draws, ttl, now).pairs[k].entry; f in db.entries && Ahead(db, e, f)
    ensures exists i :: 0 <= i < k && Pass(db, event, category, draws, ttl, now).pairs[i].entry == e
    decreases |draws|
  {
    hide OfferSeat;
    var next := NextWaiting(db, event, category, draws[0].locked);
    match OfferSeat(db, next.value, draws[0].seat.value, ttl, draws[0].newHold, draws[0].newOffer, now)
    case Raced => NoOvertaking(db, event, category, draws[1..], ttl, now, e, k);
    case Paired(d) =>
      NextIsInLine(db, event, category, draws[0].locked);
      var pairs := Pass(db, event, category, draws, ttl, now).pairs;
      if e == next.value {
        assert pairs[0].entry == e;
      } else {
        assert k > 0;
        PairingAdvances(db, event, category, next.value, draws[0], ttl, now);
        NoOvertaking(d, event, category, draws[1..], ttl, now, e, k - 1);
        var rest := Pass(d, event, category, draws[1..], ttl, now).pairs;
        var i :| 0 <= i < k - 1 && rest[i].entry == e;
        assert pairs[i + 1].entry == e;
      }
  }

  /** A join takes its place by its own clock: behind exactly those who joined earlier, or at the same instant with a smaller id. */
  lemma JoinTakesItsPlace(db: Db, event: EventId, user: UserId, category: Category, newEntry: EntryId, now: Instant, e: EntryId)
    requires Join(db, event, user, category, newEntry, now).out.Ok? && e in InLine(db, event, category)
    ensures var d := Join(db, event, user, category, newEntry, now).db;
            && (forall f :: f in InLine(d, event, category) <==> f in InLine(db, event, category) || f == newEntry)
            && d.entries[newEntry].user == user
            && (Ahead(d, e, newEntry) <==> db.entries[e].joinedAt < now || (db.entries[e].joinedAt == now && e < newEntry))
  {
  }

  // ------------------------------------------------------------ an undisturbed pass

  /** No entry is locked elsewhere, every availability read is still true when acted on, every drawn id is new. */
  ghost predicate Calm(db: Db, event: EventId, category: Category, draws: seq<Draw>, ttl: int, now: Instant)
    decreases |draws|
  {
    draws == [] ||
    (&& draws[0].locked == {} && draws[0].seat == NextSeat(db, event, category)
     && draws[0].newHold !in db.holds && draws[0].newOffer !in db.offers
     && (NextWaiting(db, event, category, {}).Some? && draws[0].seat.Some? ==>
           var p := OfferSeat(db, NextWaiting(db, event, category, {}).value, draws[0].seat.value, ttl,
                              draws[0].newHold, draws[0].newOffer, now);
           p.Paired? ==> Calm(p.db, event, category, draws[1..], ttl, now)))
  }

  /** A seat on sale can be offered to a waiting entry unless some offer of it is still marked live. */
  lemma OnSaleIsOfferable(db: Db, event: EventId, category: Category, entry: EntryId, seat: SeatId, ttl: int,
                          newHold: HoldId, newOffer: OfferId, now: Instant)
    requires Inv(db) && entry in InLine(db, event, category) && seat in OnSale(db, event, category)
    requires newHold !in db.holds && newOffer !in db.offers
    ensures OfferSeat(db, entry, seat, ttl, newHold, newOffer, now)
            == if LiveOffer(db, seat) then Aborted(LiveOfferForSeat)
               else Paired(AfterOffer(db, entry, seat, newHold, newOffer, ExpiryAt(now, ttl), now))
  {
    hide AfterOffer, HoldVerdict, SeatsOk, SalesOk;
    HoldVerdictGrants(db, db.entries[entry].event, db.entries[entry].user, {seat}, newHold, now);
    forall h | h in db.holds && db.holds[h].status.Active? ensures seat !in db.holds[h].seats {
      assert HoldOk(db, db.holds[h]);
    }
    assert Grantable(db, db.entries[entry].event, db.entries[entry].user, {seat}, newHold, now);
    forall o | o in db.offers
      ensures !(db.offers[o].entry == entry && db.offers[o].status.Offered?) && db.offers[o].hold != newHold
    {
      assert OfferOk(db, db.offers[o]);
    }
  }

  /** A pairing takes its seat off the shelf and makes no other seat's offer live. */
  lemma ShelfAdvances(db: Db, event: EventId, category: Category, entry: EntryId, shelf: seq<SeatId>, ttl: int,
                      newHold: HoldId, newOffer: OfferId, now: Instant)
    requires IsShelf(db, event, category, shelf) && shelf != []
    requires OfferSeat(db, entry, shelf[0], ttl, newHold, newOffer, now).Paired?
    ensures var d := OfferSeat(db, entry, shelf[0], ttl, newHold, newOffer, now).db;
            && IsShelf(d, event, category, shelf[1..])
            && forall s :: s != shelf[0] ==> (LiveOffer(d, s) <==> LiveOffer(db, s))
  {
    hide OfferSeat;
    OfferSeatPaired(db, entry, shelf[0], ttl, newHold, newOffer, now);
    var d := OfferSeat(db, entry, shelf[0], ttl, newHold, newOffer, now).db;
    var e := db.entries[entry];
    TakeSeatsTakes(db, e.event, e.user, {shelf[0]}, ExpiryAt(now, ttl), newHold, now);
    TakenOffShelf(db, d, event, category, shelf, entry, newHold, newOffer, ExpiryAt(now, ttl), now);
  }

  lemma TakenOffShelf(db: Db, d: Db, event: EventId, category: Category, shelf: seq<SeatId>, entry: EntryId,
                      newHold: HoldId, newOffer: OfferId, expiresAt: Instant, now: Instant)
    requires IsShelf(db, event, category, shelf) && shelf != [] && newOffer !in db.offers
    requires SameSeats(db, d)
    requires forall s :: s in d.seats && s != shelf[0] ==> d.seats[s] == db.seats[s]
    requires shelf[0] in d.seats ==> d.seats[shelf[0]].status.Held?
    requires d.offers == db.offers[newOffer := Offer(entry, shelf[0], newHold, expiresAt, OfferStatus.Offered)]
    ensures IsShelf(d, event, category, shelf[1..])
    ensures forall s :: s != shelf[0] ==> (LiveOffer(d, s) <==> LiveOffer(db, s))
  {
    forall s | s in shelf && s != shelf[0] ensures s in shelf[1..] {
      var k :| 0 <= k < |shelf| && shelf[k] == s;
      assert shelf[1..][k - 1] == s;
    }
    forall s | s in shelf[1..] ensures s in shelf && s != shelf[0] {
      var k :| 0 <= k < |shelf[1..]| && shelf[1..][k] == s;
      assert shelf[k + 1] == s && shelf[0] < shelf[k + 1];
    }
    assert forall s :: s in OnSale(d, event, category) <==> s in OnSale(db, event, category) && s != shelf[0];
    forall s | s != shelf[0] && LiveOffer(db, s) ensures LiveOffer(d, s) {
      var o :| o in db.offers && db.offers[o].seat == s && db.offers[o].status.Offered?;
      assert o in d.offers && d.offers[o] == db.offers[o];
    }
  }

  function Min(a: nat, b: nat): nat {
    if a <= b then a else b
  }

  /** The i-th seat went to the i-th in line, and only a live offer of the next seat stopped it short of `attempts`. */
  ghost predicate PairsInOrder(db: Db, line: seq<EntryId>, shelf: seq<SeatId>, attempts: nat, r: PassResult) {
    var n := Min(attempts, Min(|line|, |shelf|));
    && r.raced == 0 && |r.pairs| <= n
    && (forall i :: 0 <= i < |r.pairs| ==> r.pairs[i] == Pair(line[i], shelf[i]) && !LiveOffer(db, shelf[i]))
    && (if |r.pairs| == n then r.abort == None else r.abort == Some(LiveOfferForSeat) && LiveOffer(db, shelf[|r.pairs|]))
  }

  lemma NoPairs(db: Db, line: seq<EntryId>, shelf: seq<SeatId>)
    ensures PairsInOrder(db, line, shelf, 0, PassResult(db, [], 0, None))
  {
  }

  lemma NoPairsLeft(db: Db, line: seq<EntryId>, shelf: seq<SeatId>, attempts: nat)
    ensures line == [] || shelf == [] ==> PairsInOrder(db, line, shelf, attempts, PassResult(db, [], 0, None))
  {
  }

  lemma NextIsStale(db: Db, line: seq<EntryId>, shelf: seq<SeatId>, attempts: nat)
    requires attempts > 0 && line != [] && shelf != [] && LiveOffer(db, shelf[0])
    ensures PairsInOrder(db, line, shelf, attempts, PassResult(db, [], 0, Some(LiveOfferForSeat)))
  {
  }

  lemma OnePairMore(db: Db, d: Db, line: seq<EntryId>, shelf: seq<SeatId>, attempts: nat, rest: PassResult)
    requires attempts > 0 && line != [] && shelf != [] && !LiveOffer(db, shelf[0])
    requires PairsInOrder(d, line[1..], shelf[1..], attempts - 1, rest)
    requires forall s :: s != shelf[0] ==> (LiveOffer(d, s) <==> LiveOffer(db, s))
    requires forall i :: 0 < i < |shelf| ==> shelf[0] != shelf[i]
    ensures PairsInOrder(db, line, shelf, attempts, rest.(pairs := [Pair(line[0], shelf[0])] + rest.pairs))
  {
    var pairs := [Pair(line[0], shelf[0])] + rest.pairs;
    forall i | 0 <= i < |pairs|
      ensures pairs[i] == Pair(line[i], shelf[i]) && !LiveOffer(db, shelf[i])
    {
      if i > 0 {
        assert pairs[i] == rest.pairs[i - 1];
      }
    }
  }

  /**
   The i-th seat goes to the i-th in line, until one of the two runs out - or the
   next seat's earlier offer is still marked live, which ends the pass with an error.
   */
  lemma {:induction false} CalmPass(db: Db, event: EventId, category: Category, line: seq<EntryId>, shelf: seq<SeatId>,
                                    draws: seq<Draw>, ttl: int, now: Instant)
    requires Inv(db) && IsLine(db, event, category, line) && IsShelf(db, event, category, shelf)
    requires Calm(db, event, category, draws, ttl, now)
    ensures PairsInOrder(db, line, shelf, |draws|, Pass(db, event, category, draws, ttl, now))
    decreases |draws|
  {
    hide OfferSeat, AfterOffer, Inv, LiveOffer, NextWaiting, NextSeat, InLine, OnSale, PairsInOrder;
    if draws == [] {
      NoPairs(db, line, shelf);
    } else {
      NextIsHead(db, event, category, line);
      NextIsTop(db, event, category, shelf);
      NoPairsLeft(db, line, shelf, |draws|);
      if line != [] && shelf != [] {
        assert line[0] in line && shelf[0] in shelf;
        OnSaleIsOfferable(db, event, category, line[0], shelf[0], ttl, draws[0].newHold, draws[0].newOffer, now);
        var p := OfferSeat(db, line[0], shelf[0], ttl, draws[0].newHold, draws[0].newOffer, now);
        if p.Paired? {
          OfferSeatInv(db, line[0], shelf[0], ttl, draws[0].newHold, draws[0].newOffer, now);
          PairingAdvances(db, event, category, line[0], draws[0], ttl, now);
          LineAdvances(db, p.db, event, category, line);
          ShelfAdvances(db, event, category, line[0], shelf, ttl, draws[0].newHold, draws[0].newOffer, now);
          CalmPass(p.db, event, category, line[1..], shelf[1..], draws[1..], ttl, now);
          OnePairMore(db, p.db, line, shelf, |draws|, Pass(p.db, event, category, draws[1..], ttl, now));
        } else {
          NextIsStale(db, line, shelf, |draws|);
        }
      }
    }
  }

  /** An undisturbed pass makes all min(500, waiting, on sale) offers exactly when no seat it reaches has a stale live offer. */
  lemma CalmPassCompletes(db: Db, event: EventId, category: Category, line: seq<EntryId>, shelf: seq<SeatId>,
                          draws: seq<Draw>, ttl: int, now: Instant)
    requires Inv(db) && IsLine(db, event, category, line) && IsShelf(db, event, category, shelf)
    requires |draws| == 500 && Calm(db, event, category, draws, ttl, now)
    ensures var r := RunPass(db, event, category, draws, ttl, now);
            var n := Min(500, Min(|line|, |shelf|));
            && (r.abort == None <==> forall i :: 0 <= i < n ==> !LiveOffer(db, shelf[i]))
            && (r.abort == None ==> |r.pairs| == n && forall i :: 0 <= i < n ==> r.pairs[i] == Pair(line[i], shelf[i]))
  {
    hide OfferSeat;
    CalmPass(db, event, category, line, shelf, draws, ttl, now);
  }
}
