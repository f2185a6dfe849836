/** Row locks: the order every customer-facing transaction takes them in, and why that cannot deadlock. */
module LockOrder {
  import opened Rows
  import opened Sums

  type TxId = int

  /** What a transaction can wait for: a claimed idempotency key or a locked row. */
  datatype Lock =
    | KeyLock(user: int, key: int)
    | BookingLock(booking: int)
    | SeatLock(seat: int)
    | HoldLock(hold: int)
    | TicketLock(booking: int, seat: int)
    | OfferLock(offer: int)
    | EntryLock(entry: int)

  function Table(l: Lock): int {
    match l
    case KeyLock(_, _) => 0
    case BookingLock(_) => 1
    case SeatLock(_) => 2
    case HoldLock(_) => 3
    case TicketLock(_, _) => 4
    case OfferLock(_) => 5
    case EntryLock(_) => 6
  }

  function Id(l: Lock): int {
    match l
    case KeyLock(user, _) => user
    case BookingLock(b) => b
    case SeatLock(s) => s
    case HoldLock(h) => h
    case TicketLock(b, _) => b
    case OfferLock(o) => o
    case EntryLock(e) => e
  }

  function SubId(l: Lock): int {
    match l
    case KeyLock(_, key) => key
    case TicketLock(_, s) => s
    case _ => 0
  }

  /** The global order: by table, then by id. */
  predicate Before(l: Lock, m: Lock) {
    || Table(l) < Table(m)
    || (Table(l) == Table(m) && Id(l) < Id(m))
    || (Table(l) == Table(m) && Id(l) == Id(m) && SubId(l) < SubId(m))
  }

  lemma BeforeIsTotal(l: Lock, m: Lock)
    ensures Before(l, m) || l == m || Before(m, l)
    ensures !(Before(l, m) && Before(m, l))
  {
  }

  ghost predicate Ascending(plan: seq<Lock>) {
    forall i, j :: 0 <= i < j < |plan| ==> Before(plan[i], plan[j])
  }

  // ----------------------------------------------------- what each transaction locks

  function SeatLocks(ids: seq<int>): seq<Lock> {
    seq(|ids|, i requires 0 <= i < |ids| => SeatLock(ids[i]))
  }

  function HoldLocks(ids: seq<int>): seq<Lock> {
    seq(|ids|, i requires 0 <= i < |ids| => HoldLock(ids[i]))
  }

  /** The transactions, with the rows each comes to lock; ids are in ORDER BY id order. */
  datatype Kind =
    | CreateHold(user: int, key: int, seats: seq<int>, lapsed: seq<int>)
    | Confirm(user: int, key: int, seats: seq<int>, hold: int)
    | CancelBooking(user: int, key: int, booking: int, seats: seq<int>)
    | EndHold(seats: seq<int>, hold: int, offers: seq<int>, entry: int)
    | Accept(user: int, key: int, seats: seq<int>, hold: int, offer: int, entry: int)
    | Issue(user: int, key: int, booking: int)
    | Verify(booking: int, seat: int)
    | Leave(entry: int)

  predicate Sorted(ids: seq<int>) {
    forall i, j :: 0 <= i < j < |ids| ==> ids[i] < ids[j]
  }

  /** The ids come back from the database sorted, one to ten seats are asked for, and at most one live offer is behind a hold. */
  predicate Issuable(k: Kind) {
    match k
    case CreateHold(_, _, seats, lapsed) => Sorted(seats) && Sorted(lapsed) && 1 <= |seats| <= 10
    case Confirm(_, _, seats, _) => Sorted(seats)
    case CancelBooking(_, _, _, seats) => Sorted(seats)
    case EndHold(seats, _, offers, _) => Sorted(seats) && |offers| <= 1
    case Accept(_, _, seats, _, _, _) => Sorted(seats)
    case _ => true
  }

  /** The locks in the order the code's statements take them. */
  function Plan(k: Kind): seq<Lock> {
    match k
    case CreateHold(user, key, seats, lapsed) => [KeyLock(user, key)] + SeatLocks(seats) + HoldLocks(lapsed)
    case Confirm(user, key, seats, hold) => [KeyLock(user, key)] + SeatLocks(seats) + [HoldLock(hold)]
    case CancelBooking(user, key, booking, seats) => [KeyLock(user, key), BookingLock(booking)] + SeatLocks(seats)
    case EndHold(seats, hold, offers, entry) =>
      SeatLocks(seats) + [HoldLock(hold)] + if offers == [] then [] else [OfferLock(offers[0]), EntryLock(entry)]
    case Accept(user, key, seats, hold, offer, entry) =>
      [KeyLock(user, key)] + SeatLocks(seats) + [HoldLock(hold), OfferLock(offer), EntryLock(entry)]
    case Issue(user, key, booking) => [KeyLock(user, key), BookingLock(booking)]
    case Verify(booking, seat) => [BookingLock(booking), TicketLock(booking, seat)]
    case Leave(entry) => [EntryLock(entry)]
  }

  lemma AscendingJoin(a: seq<Lock>, b: seq<Lock>)
    requires Ascending(a) && Ascending(b)
    requires forall i, j :: 0 <= i < |a| && 0 <= j < |b| ==> Before(a[i], b[j])
    ensures Ascending(a + b)
  {
  }

  /** Every one of them takes its locks in the global order. */
  lemma PlansAscend(k: Kind)
    requires Issuable(k)
    ensures Ascending(Plan(k))
  {
    match k
    case CreateHold(user, key, seats, lapsed) =>
      AscendingJoin([KeyLock(user, key)], SeatLocks(seats));
      AscendingJoin([KeyLock(user, key)] + SeatLocks(seats), HoldLocks(lapsed));
    case Confirm(user, key, seats, hold) =>
      AscendingJoin([KeyLock(user, key)], SeatLocks(seats));
      AscendingJoin([KeyLock(user, key)] + SeatLocks(seats), [HoldLock(hold)]);
    case CancelBooking(user, key, booking, seats) =>
      AscendingJoin([KeyLock(user, key), BookingLock(booking)], SeatLocks(seats));
    case EndHold(seats, hold, offers, entry) =>
      AscendingJoin(SeatLocks(seats), [HoldLock(hold)]);
      AscendingJoin(SeatLocks(seats) + [HoldLock(hold)], if offers == [] then [] else [OfferLock(offers[0]), EntryLock(entry)]);
    case Accept(user, key, seats, hold, offer, entry) =>
      AscendingJoin([KeyLock(user, key)], SeatLocks(seats));
      AscendingJoin([KeyLock(user, key)] + SeatLocks(seats), [HoldLock(hold), OfferLock(offer), EntryLock(entry)]);
    case _ =>
  }

  // ------------------------------------------------------------- the lock manager

  /**
   What a transaction does about locks: wait for one; take one if nobody has it
   and pass it by otherwise (SKIP LOCKED); give back those taken since a savepoint.
   */
  datatype Op = Wait(lock: Lock) | SkipLocked(lock: Lock) | RollBack(locks: set<Lock>)

  /** A transaction in progress: what it has still to do, the locks it waited for and the rows it picked up in passing. */
  datatype Tx = Tx(ops: seq<Op>, held: set<Lock>, picked: set<Lock>)

  type System = map<TxId, Tx>

  predicate Holds(tx: Tx, l: Lock) {
    l in tx.held || l in tx.picked
  }

  predicate Waiting(sys: System, t: TxId) {
    t in sys && sys[t].ops != [] && sys[t].ops[0].Wait?
  }

  function Next(sys: System, t: TxId): Lock
    requires Waiting(sys, t)
  {
    sys[t].ops[0].lock
  }

  /** The transaction's next lock is in another's hands. */
  predicate WaitsFor(sys: System, t: TxId, u: TxId) {
    Waiting(sys, t) && u in sys && t != u && Holds(sys[u], Next(sys, t))
  }

  ghost predicate Blocked(sys: System, t: TxId) {
    exists u :: WaitsFor(sys, t, u)
  }

  ghost predicate CanAdvance(sys: System, t: TxId) {
    t in sys && sys[t].ops != [] && !Blocked(sys, t)
  }

  predicate CanFinish(sys: System, t: TxId) {
    t in sys && sys[t].ops == []
  }

  ghost predicate FreeFor(sys: System, t: TxId, l: Lock) {
    forall u :: u in sys && u != t ==> !Holds(sys[u], l)
  }

  datatype Step =
    | Begin(tx: TxId, ops: seq<Op>)
    | Advance(tx: TxId)
    | Finish(tx: TxId)
    | Abort(tx: TxId)

  ghost predicate Enabled(sys: System, step: Step) {
    match step
    case Begin(t, _) => t !in sys
    case Advance(t) => CanAdvance(sys, t)
    case Finish(t) => CanFinish(sys, t)
    case Abort(t) => t in sys
  }

  function Advanced(tx: Tx, free: bool): Tx
    requires tx.ops != []
  {
    match tx.ops[0]
    case Wait(l) => Tx(tx.ops[1..], tx.held + {l}, tx.picked)
    case SkipLocked(l) => Tx(tx.ops[1..], tx.held, if free then tx.picked + {l} else tx.picked)
    case RollBack(ls) => Tx(tx.ops[1..], tx.held - ls, tx.picked)
  }

  /** Locks are kept until the transaction ends, however it ends, or rolls back past them. */
  ghost function Do(sys: System, step: Step): System
    requires Enabled(sys, step)
  {
    match step
    case Begin(t, ops) => sys[t := Tx(ops, {}, {})]
    case Advance(t) => sys[t := Advanced(sys[t], sys[t].ops[0].SkipLocked? && FreeFor(sys, t, sys[t].ops[0].lock))]
    case Finish(t) => sys - {t}
    case Abort(t) => sys - {t}
  }

  ghost function Run(sys: System, steps: seq<Step>): System
    decreases |steps|
  {
    if steps == [] then sys else Run(if Enabled(sys, steps[0]) then Do(sys, steps[0]) else sys, steps[1..])
  }

  lemma {:induction false} RunAppends(sys: System, steps: seq<Step>, step: Step)
    ensures Run(sys, steps + [step]) == var mid := Run(sys, steps); if Enabled(mid, step) then Do(mid, step) else mid
    decreases |steps|
  {
    hide Do, Enabled;
    if steps == [] {
      assert ([] + [step])[1..] == [];
      assert Run(sys, [step]) == Run(if Enabled(sys, step) then Do(sys, step) else sys, []);
    } else {
      assert (steps + [step])[1..] == steps[1..] + [step];
      RunAppends(if Enabled(sys, steps[0]) then Do(sys, steps[0]) else sys, steps[1..], step);
    }
  }

  // ------------------------------------------------------------ orderly programs

  /** Each lock waited for is already held or comes after everything held then. */
  predicate SafeFrom(ops: seq<Op>, held: set<Lock>)
    decreases |ops|
  {
    ops == [] ||
    match ops[0]
    case Wait(l) => (l in held || forall h :: h in held ==> Before(h, l)) && SafeFrom(ops[1..], held + {l})
    case SkipLocked(_) => SafeFrom(ops[1..], held)
    case RollBack(ls) => SafeFrom(ops[1..], held - ls)
  }

  /** Rows picked up in passing are among `entries`, and nobody waits for one of those while holding anything. */
  predicate KeepsApart(ops: seq<Op>, entries: set<Lock>) {
    && (forall i :: 0 <= i < |ops| && ops[i].SkipLocked? ==> ops[i].lock in entries)
    && (forall i :: 0 <= i < |ops| && ops[i].Wait? && ops[i].lock in entries ==> |ops| == 1)
  }

  predicate Orderly(ops: seq<Op>, entries: set<Lock>) {
    SafeFrom(ops, {}) && KeepsApart(ops, entries)
  }

  /** Waiting for each lock of a plan in turn. */
  function InTurn(plan: seq<Lock>): seq<Op> {
    seq(|plan|, i requires 0 <= i < |plan| => Wait(plan[i]))
  }

  lemma {:induction false} AscendingIsSafe(plan: seq<Lock>, held: set<Lock>)
    requires Ascending(plan) && forall h, i :: h in held && 0 <= i < |plan| ==> Before(h, plan[i])
    ensures SafeFrom(InTurn(plan), held)
    decreases |plan|
  {
    if plan != [] {
      assert InTurn(plan)[1..] == InTurn(plan[1..]);
      AscendingIsSafe(plan[1..], held + {plan[0]});
    }
  }

  /**
   `entries` are waitlist entries somebody picks up while waiting. The entry an
   ending hold or an acceptance stamps has an offer, so it is none of them.
   */
  predicate Apart(k: Kind, entries: set<Lock>) {
    && (forall l :: l in entries ==> l.EntryLock?)
    && (k.EndHold? || k.Accept? ==> EntryLock(k.entry) !in entries)
  }

  /** Every one of the code's transactions is orderly. */
  lemma CodeIsOrderly(k: Kind, entries: set<Lock>)
    requires Issuable(k) && Apart(k, entries)
    ensures Orderly(InTurn(Plan(k)), entries)
  {
    PlansAscend(k);
    AscendingIsSafe(Plan(k), {});
    var ops := InTurn(Plan(k));
    forall i | 0 <= i < |ops| && ops[i].lock in entries ensures |ops| == 1 {
      assert ops[i] == Wait(Plan(k)[i]) && Plan(k)[i].EntryLock?;
    }
  }

  // ----------------------------------------------------------- what every run keeps

  /** No lock is in two hands. */
  ghost predicate Exclusive(sys: System) {
    forall t, u, l :: t in sys && u in sys && Holds(sys[t], l) && Holds(sys[u], l) ==> t == u
  }

  predicate TxOrdered(tx: Tx, entries: set<Lock>) {
    && SafeFrom(tx.ops, tx.held)
    && (forall l :: l in tx.picked ==> l in entries)
    && (forall i :: 0 <= i < |tx.ops| && tx.ops[i].SkipLocked? ==> tx.ops[i].lock in entries)
    && (forall i :: 0 <= i < |tx.ops| && tx.ops[i].Wait? && tx.ops[i].lock in entries ==>
          |tx.ops| == 1 && tx.held == {} && tx.picked == {})
  }

  ghost predicate Ordered(sys: System, entries: set<Lock>) {
    Exclusive(sys) && forall t :: t in sys ==> TxOrdered(sys[t], entries)
  }

  /** Whoever begins is orderly. */
  ghost predicate BeginsOrderly(steps: seq<Step>, entries: set<Lock>) {
    forall i :: 0 <= i < |steps| && steps[i].Begin? ==> Orderly(steps[i].ops, entries)
  }

  /** Whoever begins is one of the code's transactions. */
  ghost predicate FollowsCode(steps: seq<Step>) {
    forall i :: 0 <= i < |steps| && steps[i].Begin? ==> exists k :: Issuable(k) && steps[i].ops == InTurn(Plan(k))
  }

  lemma CodeBeginsOrderly(steps: seq<Step>)
    requires FollowsCode(steps)
    ensures BeginsOrderly(steps, {})
  {
    forall i | 0 <= i < |steps| && steps[i].Begin? ensures Orderly(steps[i].ops, {}) {
      var k :| Issuable(k) && steps[i].ops == InTurn(Plan(k));
      CodeIsOrderly(k, {});
    }
  }

  lemma AdvanceExclusive(sys: System, t: TxId)
    requires Exclusive(sys) && CanAdvance(sys, t)
    ensures Exclusive(Do(sys, Advance(t)))
  {
    var d := Do(sys, Advance(t));
    var op := sys[t].ops[0];
    forall u | u in sys && u != t && op.Wait? ensures !Holds(sys[u], op.lock) { assert !WaitsFor(sys, t, u); }
    assert forall l :: Holds(d[t], l) ==> Holds(sys[t], l) || (!op.RollBack? && l == op.lock && FreeFor(sys, t, l));
  }

  lemma AdvanceOrdered(sys: System, t: TxId, entries: set<Lock>)
    requires Ordered(sys, entries) && CanAdvance(sys, t)
    ensures Ordered(Do(sys, Advance(t)), entries)
  {
    AdvanceExclusive(sys, t);
    var tx, next := sys[t], Do(sys, Advance(t))[t];
    assert TxOrdered(tx, entries);
    assert forall i :: 0 <= i < |next.ops| ==> next.ops[i] == tx.ops[i + 1];
    assert TxOrdered(next, entries);
  }

  lemma {:induction false} RunKeepsOrder(sys: System, steps: seq<Step>, entries: set<Lock>)
    requires Ordered(sys, entries) && BeginsOrderly(steps, entries)
    ensures Ordered(Run(sys, steps), entries)
    decreases |steps|
  {
    hide SafeFrom;
    if steps != [] {
      var next := if Enabled(sys, steps[0]) then Do(sys, steps[0]) else sys;
      if Enabled(sys, steps[0]) {
        match steps[0]
        case Begin(t, ops) => assert Orderly(ops, entries);
        case Advance(t) => AdvanceOrdered(sys, t, entries);
        case _ =>
      }
      assert Ordered(next, entries);
      assert BeginsOrderly(steps[1..], entries);
      RunKeepsOrder(next, steps[1..], entries);
    }
  }

  // ------------------------------------------------------------- no deadlock

  /** Each waits for the next. */
  ghost predicate Chain(sys: System, c: seq<TxId>) {
    forall i :: 0 <= i < |c| - 1 ==> WaitsFor(sys, c[i], c[i + 1])
  }

  /** They wait for each other in a circle. */
  ghost predicate Circle(sys: System, c: seq<TxId>) {
    |c| >= 2 && c[0] == c[|c| - 1] && Chain(sys, c)
  }

  ghost predicate Busy(sys: System, t: TxId) {
    t in sys && exists l :: Holds(sys[t], l)
  }

  /** Whoever is waited for, and blocked in turn, wants a lock further up the order. */
  lemma WaitsUpward(sys: System, entries: set<Lock>, t: TxId, u: TxId)
    requires Ordered(sys, entries) && WaitsFor(sys, t, u) && Busy(sys, t) && Blocked(sys, u)
    ensures Before(Next(sys, t), Next(sys, u)) && Busy(sys, u)
  {
    var l := Next(sys, t);
    assert TxOrdered(sys[t], entries) && TxOrdered(sys[u], entries);
    assert Holds(sys[u], l);
    assert sys[t].ops[0] == Wait(l) && l !in entries;
    var v :| WaitsFor(sys, u, v);
    assert Next(sys, u) !in sys[u].held;
  }

  lemma {:induction false} ChainRises(sys: System, entries: set<Lock>, c: seq<TxId>)
    requires Ordered(sys, entries) && Chain(sys, c) && |c| >= 2 && Busy(sys, c[0]) && Blocked(sys, c[|c| - 1])
    ensures Waiting(sys, c[0]) && Waiting(sys, c[|c| - 1])
    ensures Before(Next(sys, c[0]), Next(sys, c[|c| - 1]))
    decreases |c|
  {
    hide SafeFrom, TxOrdered;
    assert WaitsFor(sys, c[0], c[1]);
    if |c| > 2 { assert WaitsFor(sys, c[1], c[2]); }
    WaitsUpward(sys, entries, c[0], c[1]);
    if |c| > 2 {
      assert Chain(sys, c[1..]) by {
        forall i | 0 <= i < |c[1..]| - 1 ensures WaitsFor(sys, c[1..][i], c[1..][i + 1]) {
          assert WaitsFor(sys, c[i + 1], c[i + 2]);
        }
      }
      ChainRises(sys, entries, c[1..]);
    }
  }

  lemma NoCircle(sys: System, entries: set<Lock>, c: seq<TxId>)
    requires Ordered(sys, entries)
    ensures !Circle(sys, c)
  {
    if Circle(sys, c) {
      var n := |c| - 1;
      assert WaitsFor(sys, c[0], c[1]) && WaitsFor(sys, c[n - 1], c[n]);
      assert Blocked(sys, c[0]) && Busy(sys, c[0]);
      ChainRises(sys, entries, c);
    }
  }

  /** In no reachable state do transactions wait for each other in a circle. */
  lemma NoCycle(steps: seq<Step>, c: seq<TxId>)
    requires FollowsCode(steps)
    ensures !Circle(Run(map[], steps), c)
  {
    CodeBeginsOrderly(steps);
    RunKeepsOrder(map[], steps, {});
    NoCircle(Run(map[], steps), {}, c);
  }

  // ------------------------------------------------------------------- progress

  /** Some waiting transaction's next lock is the furthest up of them all. */
  lemma {:induction false} FurthestExists(sys: System, ts: set<TxId>) returns (t: TxId)
    requires ts != {} && forall u :: u in ts ==> Waiting(sys, u)
    ensures t in ts && forall u :: u in ts ==> !Before(Next(sys, t), Next(sys, u))
    decreases |ts|
  {
    var s := Pick(ts);
    var rest := ts - {s};
    assert forall u :: u in ts ==> u == s || u in rest;
    if rest == {} {
      t := s;
    } else {
      t := FurthestExists(sys, rest);
      if Before(Next(sys, t), Next(sys, s)) {
        forall u | u in rest ensures !Before(Next(sys, s), Next(sys, u)) {
          BeforeIsTotal(Next(sys, t), Next(sys, u));
        }
        t := s;
      }
    }
  }

  /** Somebody blocked while holding something leads to somebody who is not blocked. */
  lemma UnblockedExists(sys: System, entries: set<Lock>, b: TxId) returns (t: TxId)
    requires Ordered(sys, entries) && Busy(sys, b) && Blocked(sys, b)
    ensures t in sys && !Blocked(sys, t)
  {
    var ts := set u | u in sys && Busy(sys, u) && Blocked(sys, u);
    assert b in ts;
    var f := FurthestExists(sys, ts);
    t :| WaitsFor(sys, f, t);
    if Blocked(sys, t) {
      WaitsUpward(sys, entries, f, t);
      assert false;
    }
  }

  lemma SomebodyUnblocked(sys: System, entries: set<Lock>) returns (t: TxId)
    requires Ordered(sys, entries) && sys != map[]
    ensures CanAdvance(sys, t) || CanFinish(sys, t)
  {
    assert sys.Keys != {};
    t := Pick(sys.Keys);
    if Blocked(sys, t) {
      var u :| WaitsFor(sys, t, u);
      assert Busy(sys, u);
      if Blocked(sys, u) { t := UnblockedExists(sys, entries, u); } else { t := u; }
    }
  }

  /** Whatever the code's transactions have done so far, if anyone is unfinished somebody can go on or finish. */
  lemma SomebodyCanProceed(steps: seq<Step>) returns (t: TxId)
    requires FollowsCode(steps) && Run(map[], steps) != map[]
    ensures CanAdvance(Run(map[], steps), t) || CanFinish(Run(map[], steps), t)
  {
    CodeBeginsOrderly(steps);
    RunKeepsOrder(map[], steps, {});
    t := SomebodyUnblocked(Run(map[], steps), {});
  }

  /** What is still to do, and the end still to come. */
  function Remaining(sys: System): map<TxId, nat> {
    map t | t in sys :: |sys[t].ops| + 1
  }

  lemma LessRemains(sys: System, t: TxId, step: Step)
    requires Enabled(sys, step) && t in sys && (step == Advance(t) || step == Finish(t))
    ensures Sum(Remaining(Do(sys, step))) < Sum(Remaining(sys))
  {
    var d := Do(sys, step);
    SumSplit(Remaining(sys), t);
    if step.Advance? {
      SumSplit(Remaining(d), t);
      assert forall u :: u in Remaining(d) - {t} <==> u in Remaining(sys) - {t};
      assert Remaining(d) - {t} == Remaining(sys) - {t};
    } else {
      assert forall u :: u in Remaining(d) <==> u in Remaining(sys) - {t};
      assert Remaining(d) == Remaining(sys) - {t};
    }
  }

  lemma {:induction false} OrderedFinishes(sys: System, entries: set<Lock>) returns (steps: seq<Step>)
    requires Ordered(sys, entries)
    ensures Run(sys, steps) == map[]
    ensures forall i :: 0 <= i < |steps| ==> steps[i].Advance? || steps[i].Finish?
    decreases Sum(Remaining(sys))
  {
    if sys == map[] {
      steps := [];
    } else {
      var t := SomebodyUnblocked(sys, entries);
      var step := if CanFinish(sys, t) then Finish(t) else Advance(t);
      var next := Do(sys, step);
      if step.Advance? { AdvanceOrdered(sys, t, entries); }
      LessRemains(sys, t, step);
      var rest := OrderedFinishes(next, entries);
      steps := [step] + rest;
      assert steps[1..] == rest;
    }
  }

  /** From every reachable state, letting whoever can go on do so, everyone finishes. */
  lemma EverybodyFinishes(sofar: seq<Step>) returns (steps: seq<Step>)
    requires FollowsCode(sofar)
    ensures Run(Run(map[], sofar), steps) == map[]
    ensures forall i :: 0 <= i < |steps| ==> steps[i].Advance? || steps[i].Finish?
  {
    CodeBeginsOrderly(sofar);
    RunKeepsOrder(map[], sofar, {});
    steps := OrderedFinishes(Run(map[], sofar), {});
  }
}
