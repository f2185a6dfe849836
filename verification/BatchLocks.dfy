/**
 The allocation worker's transaction serves a whole batch of queues, so its
 locks need not follow the global order: exactly which batches can deadlock.
 */
module BatchLocks {
  import opened LockOrder
  import opened Rows

  /**
   One turn of a pass: the entry is picked up with SKIP LOCKED; if the read found
   a seat, that seat is locked and then the lapsed holds over it; a pairing that
   lost its race is rolled back to its savepoint, and its locks with it.
   */
  datatype Attempt = NoSeat(entry: int) | Pairing(entry: int, seat: int, lapsed: seq<int>, kept: bool)

  /** The locks a turn waits for, in turn. */
  function Sought(a: Attempt): seq<Lock> {
    if a.NoSeat? then [] else [SeatLock(a.seat)] + HoldLocks(a.lapsed)
  }

  function LocksOf(plan: seq<Lock>): set<Lock> {
    set l | l in plan
  }

  function SoughtSet(a: Attempt): set<Lock> {
    LocksOf(Sought(a))
  }

  /** The locks the transaction has once the turn is over. */
  function KeptAfter(a: Attempt, kept: set<Lock>): set<Lock> {
    if a.Pairing? && a.kept then kept + SoughtSet(a) else kept
  }

  function KeptBy(batch: seq<Attempt>, kept: set<Lock>): set<Lock>
    decreases |batch|
  {
    if batch == [] then kept else KeptBy(batch[1..], KeptAfter(batch[0], kept))
  }

  function Ending(a: Attempt, kept: set<Lock>): seq<Op> {
    if a.Pairing? && !a.kept then [RollBack(SoughtSet(a) - kept)] else []
  }

  function TurnOps(a: Attempt, kept: set<Lock>): seq<Op> {
    [SkipLocked(EntryLock(a.entry))] + InTurn(Sought(a)) + Ending(a, kept)
  }

  /** What the whole transaction does about locks. */
  function BatchOps(batch: seq<Attempt>, kept: set<Lock>): seq<Op>
    decreases |batch|
  {
    if batch == [] then [] else TurnOps(batch[0], kept) + BatchOps(batch[1..], KeptAfter(batch[0], kept))
  }

  /** Holds are locked ORDER BY id. */
  predicate WellFormed(batch: seq<Attempt>) {
    forall i :: 0 <= i < |batch| && batch[i].Pairing? ==> Sorted(batch[i].lapsed)
  }

  function EntriesOf(batch: seq<Attempt>): set<Lock> {
    set i | 0 <= i < |batch| :: EntryLock(batch[i].entry)
  }

  /** Turn j comes to lock `b` although an earlier turn has kept `a`, which comes after it. */
  predicate Descends(batch: seq<Attempt>, kept: set<Lock>, j: int, a: Lock, b: Lock) {
    && 0 <= j < |batch| && b in Sought(batch[j])
    && a in KeptBy(batch[..j], kept) && b !in KeptBy(batch[..j], kept) && Before(b, a)
  }

  /** Some turn has to lock a row that stands before one an earlier turn kept. */
  ghost predicate OutOfOrder(batch: seq<Attempt>, kept: set<Lock>) {
    exists j, a, b :: Descends(batch, kept, j, a, b)
  }

  // ---------------------------------------------------------- batches in order are safe

  lemma {:induction false} SafeTurn(plan: seq<Lock>, held: set<Lock>, rest: seq<Op>)
    requires Ascending(plan)
    requires forall i :: 0 <= i < |plan| ==> plan[i] in held || forall h :: h in held ==> Before(h, plan[i])
    requires SafeFrom(rest, held + LocksOf(plan))
    ensures SafeFrom(InTurn(plan) + rest, held)
    decreases |plan|
  {
    if plan == [] {
      assert held + LocksOf(plan) == held;
      assert InTurn(plan) + rest == rest;
    } else {
      var p := plan[0];
      assert plan == [p] + plan[1..];
      assert held + LocksOf(plan) == (held + {p}) + LocksOf(plan[1..]);
      assert (InTurn(plan) + rest)[1..] == InTurn(plan[1..]) + rest;
      SafeTurn(plan[1..], held + {p}, rest);
    }
  }

  lemma SoughtAscends(a: Attempt)
    requires a.Pairing? ==> Sorted(a.lapsed)
    ensures Ascending(Sought(a))
  {
    if a.Pairing? { AscendingJoin([SeatLock(a.seat)], HoldLocks(a.lapsed)); }
  }

  lemma OrderOfRest(batch: seq<Attempt>, kept: set<Lock>)
    requires batch != [] && !OutOfOrder(batch, kept)
    ensures !OutOfOrder(batch[1..], KeptAfter(batch[0], kept))
    ensures forall a, b :: b in Sought(batch[0]) && a in kept && b !in kept ==> !Before(b, a)
  {
    forall j, a, b | Descends(batch[1..], KeptAfter(batch[0], kept), j, a, b) ensures Descends(batch, kept, j + 1, a, b) {
      assert batch[..j + 1][0] == batch[0] && batch[..j + 1][1..] == batch[1..][..j];
    }
    forall a, b | b in Sought(batch[0]) && a in kept && b !in kept && Before(b, a) ensures Descends(batch, kept, 0, a, b) {
      assert batch[..0] == [];
    }
  }

  lemma EndingIsSafe(a: Attempt, kept: set<Lock>, rest: seq<Op>)
    requires SafeFrom(rest, KeptAfter(a, kept))
    ensures SafeFrom(Ending(a, kept) + rest, kept + SoughtSet(a))
  {
    if a.Pairing? && !a.kept {
      assert kept + SoughtSet(a) - (SoughtSet(a) - kept) == kept;
      assert (Ending(a, kept) + rest)[1..] == rest;
    } else {
      assert Ending(a, kept) + rest == rest && kept + SoughtSet(a) == KeptAfter(a, kept);
    }
  }

  /** A lock not yet held that stands before no kept one stands after all of them. */
  lemma AfterAllKept(plan: seq<Lock>, kept: set<Lock>)
    requires forall h, b :: b in plan && h in kept && b !in kept ==> !Before(b, h)
    ensures forall i :: 0 <= i < |plan| ==> plan[i] in kept || forall h :: h in kept ==> Before(h, plan[i])
  {
    hide Before;
    forall i, h | 0 <= i < |plan| && plan[i] !in kept && h in kept ensures Before(h, plan[i]) {
      assert plan[i] in plan;
      BeforeIsTotal(h, plan[i]);
    }
  }

  lemma PickingIsSafe(l: Lock, rest: seq<Op>, kept: set<Lock>)
    requires SafeFrom(rest, kept)
    ensures SafeFrom([SkipLocked(l)] + rest, kept)
  {
    assert ([SkipLocked(l)] + rest)[1..] == rest;
  }

  lemma TurnIsSafe(a: Attempt, kept: set<Lock>, rest: seq<Op>)
    requires a.Pairing? ==> Sorted(a.lapsed)
    requires forall h, b :: b in Sought(a) && h in kept && b !in kept ==> !Before(b, h)
    requires SafeFrom(rest, KeptAfter(a, kept))
    ensures SafeFrom(TurnOps(a, kept) + rest, kept)
  {
    hide Ending, Before, SafeFrom, Sought, InTurn, Ascending, KeptAfter, LocksOf;
    var ending := Ending(a, kept) + rest;
    SoughtAscends(a);
    EndingIsSafe(a, kept, rest);
    AfterAllKept(Sought(a), kept);
    SafeTurn(Sought(a), kept, ending);
    PickingIsSafe(EntryLock(a.entry), InTurn(Sought(a)) + ending, kept);
    var picking := [SkipLocked(EntryLock(a.entry))];
    assert TurnOps(a, kept) + rest == picking + (InTurn(Sought(a)) + ending);
  }

  lemma {:induction false} InOrderIsSafe(batch: seq<Attempt>, kept: set<Lock>)
    requires WellFormed(batch) && !OutOfOrder(batch, kept)
    ensures SafeFrom(BatchOps(batch, kept), kept)
    decreases |batch|
  {
    hide TurnOps, SafeFrom, OutOfOrder;
    if batch == [] {
      NothingIsSafe(kept);
    } else {
      OrderOfRest(batch, kept);
      InOrderIsSafe(batch[1..], KeptAfter(batch[0], kept));
      TurnIsSafe(batch[0], kept, BatchOps(batch[1..], KeptAfter(batch[0], kept)));
    }
  }

  lemma NothingIsSafe(kept: set<Lock>)
    ensures SafeFrom([], kept)
  {
  }

  /** A batch picks up only its entries and waits for none. */
  lemma {:induction false} BatchOpsAre(batch: seq<Attempt>, kept: set<Lock>)
    ensures forall i :: 0 <= i < |BatchOps(batch, kept)| ==>
              var op := BatchOps(batch, kept)[i];
              && (op.SkipLocked? ==> op.lock in EntriesOf(batch))
              && (op.Wait? ==> op.lock.SeatLock? || op.lock.HoldLock?)
    decreases |batch|
  {
    if batch != [] {
      BatchOpsAre(batch[1..], KeptAfter(batch[0], kept));
      assert EntryLock(batch[0].entry) in EntriesOf(batch);
      forall l | l in EntriesOf(batch[1..]) ensures l in EntriesOf(batch) {
        var i :| 0 <= i < |batch[1..]| && l == EntryLock(batch[1..][i].entry);
        assert batch[i + 1].entry == batch[1..][i].entry;
      }
    }
  }

  lemma InOrderIsOrderly(batch: seq<Attempt>)
    requires WellFormed(batch) && !OutOfOrder(batch, {})
    ensures Orderly(BatchOps(batch, {}), EntriesOf(batch))
  {
    InOrderIsSafe(batch, {});
    BatchOpsAre(batch, {});
  }

  // ------------------------------------------------- batches out of order can deadlock

  function HeldAfter(ops: seq<Op>, held: set<Lock>): set<Lock>
    decreases |ops|
  {
    if ops == [] then held
    else match ops[0]
      case Wait(l) => HeldAfter(ops[1..], held + {l})
      case SkipLocked(_) => HeldAfter(ops[1..], held)
      case RollBack(ls) => HeldAfter(ops[1..], held - ls)
  }

  function PickedAfter(ops: seq<Op>, picked: set<Lock>): set<Lock>
    decreases |ops|
  {
    if ops == [] then picked
    else PickedAfter(ops[1..], if ops[0].SkipLocked? then picked + {ops[0].lock} else picked)
  }

  lemma {:induction false} HeldAfterJoin(a: seq<Op>, b: seq<Op>, held: set<Lock>)
    ensures HeldAfter(a + b, held) == HeldAfter(b, HeldAfter(a, held))
    decreases |a|
  {
    if a == [] {
      assert a + b == b;
    } else {
      assert (a + b)[1..] == a[1..] + b;
      match a[0]
      case Wait(l) => HeldAfterJoin(a[1..], b, held + {l});
      case SkipLocked(_) => HeldAfterJoin(a[1..], b, held);
      case RollBack(ls) => HeldAfterJoin(a[1..], b, held - ls);
    }
  }

  lemma {:induction false} HeldInTurn(plan: seq<Lock>, held: set<Lock>)
    ensures HeldAfter(InTurn(plan), held) == held + LocksOf(plan)
    decreases |plan|
  {
    if plan != [] {
      assert plan == [plan[0]] + plan[1..];
      assert InTurn(plan)[1..] == InTurn(plan[1..]);
      HeldInTurn(plan[1..], held + {plan[0]});
    }
  }

  /** Nobody else has any of the locks these operations take. */
  ghost predicate Unopposed(sys: System, t: TxId, ops: seq<Op>) {
    forall i :: 0 <= i < |ops| && !ops[i].RollBack? ==> FreeFor(sys, t, ops[i].lock)
  }

  /** Left alone, a transaction goes through its operations one by one. */
  lemma {:induction false} GoesThrough(sys: System, t: TxId, ops: seq<Op>, rest: seq<Op>) returns (steps: seq<Step>)
    requires t in sys && sys[t].ops == ops + rest && Unopposed(sys, t, ops)
    ensures forall i :: 0 <= i < |steps| ==> steps[i] == Advance(t)
    ensures Run(sys, steps) == sys[t := Tx(rest, HeldAfter(ops, sys[t].held), PickedAfter(ops, sys[t].picked))]
    decreases |ops|
  {
    if ops == [] {
      steps := [];
      assert ops + rest == rest;
      assert sys == sys[t := Tx(rest, sys[t].held, sys[t].picked)];
    } else {
      var op := ops[0];
      assert sys[t].ops[0] == op && sys[t].ops[1..] == ops[1..] + rest;
      forall u ensures !WaitsFor(sys, t, u) {
        if op.Wait? { assert FreeFor(sys, t, op.lock); }
      }
      var next := Do(sys, Advance(t));
      assert op.SkipLocked? ==> FreeFor(sys, t, op.lock);
      assert forall u :: u in next && u != t ==> next[u] == sys[u];
      forall i | 0 <= i < |ops[1..]| && !ops[1..][i].RollBack? ensures FreeFor(next, t, ops[1..][i].lock) {
        assert FreeFor(sys, t, ops[i + 1].lock);
      }
      var later := GoesThrough(next, t, ops[1..], rest);
      steps := [Advance(t)] + later;
      assert steps[1..] == later;
      var done := Tx(rest, HeldAfter(ops, sys[t].held), PickedAfter(ops, sys[t].picked));
      assert next[t := done] == sys[t := done];
    }
  }

  lemma {:induction false} RunJoins(sys: System, a: seq<Step>, b: seq<Step>)
    ensures Run(sys, a + b) == Run(Run(sys, a), b)
    decreases |a|
  {
    hide Do, Enabled;
    if a == [] {
      assert a + b == b;
    } else {
      assert (a + b)[1..] == a[1..] + b;
      RunJoins(if Enabled(sys, a[0]) then Do(sys, a[0]) else sys, a[1..], b);
    }
  }

  lemma TurnKeeps(a: Attempt, kept: set<Lock>)
    ensures HeldAfter(TurnOps(a, kept), kept) == KeptAfter(a, kept)
  {
    var ending := Ending(a, kept);
    PartOfTurn(a, kept, Sought(a));
    HeldAfterJoin([SkipLocked(EntryLock(a.entry))] + InTurn(Sought(a)), ending, kept);
    if a.Pairing? && !a.kept {
      assert ending[1..] == [];
      assert kept + SoughtSet(a) - (SoughtSet(a) - kept) == kept;
    } else {
      assert kept + SoughtSet(a) == KeptAfter(a, kept);
    }
  }

  lemma PartOfTurn(a: Attempt, kept: set<Lock>, plan: seq<Lock>)
    ensures HeldAfter([SkipLocked(EntryLock(a.entry))] + InTurn(plan), kept) == kept + LocksOf(plan)
  {
    var picking := [SkipLocked(EntryLock(a.entry))];
    assert (picking + InTurn(plan))[1..] == InTurn(plan);
    HeldInTurn(plan, kept);
  }

  lemma Associate(a: seq<Op>, b: seq<Op>, c: seq<Op>)
    ensures a + (b + c) == (a + b) + c
  {
  }

  /** The batch up to the j-th turn, and what it has kept by then. */
  lemma {:induction false} UpToTurn(batch: seq<Attempt>, kept: set<Lock>, j: nat)
    requires j <= |batch|
    ensures BatchOps(batch, kept) == BatchOps(batch[..j], kept) + BatchOps(batch[j..], KeptBy(batch[..j], kept))
    ensures HeldAfter(BatchOps(batch[..j], kept), kept) == KeptBy(batch[..j], kept)
    decreases j
  {
    hide TurnOps, KeptAfter;
    if j == 0 {
      assert batch[..0] == [] && batch[0..] == batch;
    } else {
      hide HeldAfter;
      var a := batch[0];
      var after := KeptAfter(a, kept);
      var early, late := BatchOps(batch[1..][..j - 1], after), BatchOps(batch[j..], KeptBy(batch[..j], kept));
      UpToTurn(batch[1..], after, j - 1);
      assert batch[..j][0] == a && batch[..j][1..] == batch[1..][..j - 1] && batch[j..] == batch[1..][j - 1..];
      Associate(TurnOps(a, kept), early, late);
      TurnKeeps(a, kept);
      HeldAfterJoin(TurnOps(a, kept), early, kept);
    }
  }

  lemma InTurnSplits(plan: seq<Lock>, i: nat)
    requires i < |plan|
    ensures InTurn(plan) == InTurn(plan[..i]) + [Wait(plan[i])] + InTurn(plan[i + 1..])
  {
  }

  lemma NotBefore(plan: seq<Lock>, i: nat)
    requires Ascending(plan) && i < |plan|
    ensures plan[i] !in plan[..i]
  {
    forall k | 0 <= k < i ensures plan[..i][k] != plan[i] { assert Before(plan[k], plan[i]); }
  }

  /** The turn up to the lock it now comes to, that lock, and the rest of the turn. */
  lemma SplitTurn(a: Attempt, kept: set<Lock>, i: nat) returns (part: seq<Op>, tail: seq<Op>)
    requires i < |Sought(a)| && (a.Pairing? ==> Sorted(a.lapsed))
    ensures TurnOps(a, kept) == part + [Wait(Sought(a)[i])] + tail
    ensures HeldAfter(part, kept) == kept + LocksOf(Sought(a)[..i])
    ensures Sought(a)[i] !in LocksOf(Sought(a)[..i])
  {
    hide Before;
    SoughtAscends(a);
    NotBefore(Sought(a), i);
    InTurnSplits(Sought(a), i);
    PartOfTurn(a, kept, Sought(a)[..i]);
    hide Ending, Sought, InTurn, HeldAfter, Ascending, LocksOf;
    var first, second, picking := InTurn(Sought(a)[..i]), InTurn(Sought(a)[i + 1..]), [SkipLocked(EntryLock(a.entry))];
    Regather(picking, first, Wait(Sought(a)[i]), second, Ending(a, kept));
    part, tail := picking + first, second + Ending(a, kept);
  }

  lemma Regather(picking: seq<Op>, first: seq<Op>, op: Op, second: seq<Op>, ending: seq<Op>)
    ensures picking + (first + [op] + second) + ending == (picking + first) + [op] + (second + ending)
  {
  }

  lemma Regroup(early: seq<Op>, part: seq<Op>, op: Op, tail: seq<Op>, rest: seq<Op>)
    ensures early + ((part + [op] + tail) + rest) == (early + part) + ([op] + (tail + rest))
    ensures early + ((part + [op] + tail) + rest) == (early + part) + [op] + (tail + rest)
  {
  }

  /** Where the batch stands when it comes to wait for `b` while it holds `a`. */
  lemma ComesTo(batch: seq<Attempt>, j: nat, a: Lock, b: Lock) returns (before: seq<Op>, after: seq<Op>)
    requires WellFormed(batch) && Descends(batch, {}, j, a, b)
    ensures BatchOps(batch, {}) == before + [Wait(b)] + after
    ensures a in HeldAfter(before, {}) && b !in HeldAfter(before, {})
    ensures forall l :: l in HeldAfter(before, {}) ==> l.SeatLock? || l.HoldLock?
    ensures forall l :: l in PickedAfter(before, {}) ==> l.EntryLock?
  {
    hide TurnOps, Before;
    var turn, kept := batch[j], KeptBy(batch[..j], {});
    UpToTurn(batch, {}, j);
    assert batch[j..][0] == turn && batch[j..][1..] == batch[j + 1..];
    var early, rest := BatchOps(batch[..j], {}), BatchOps(batch[j + 1..], KeptAfter(turn, kept));
    assert BatchOps(batch, {}) == early + (TurnOps(turn, kept) + rest);
    hide BatchOps, HeldAfter, KeptBy, KeptAfter, Sought, PickedAfter;
    var i :| 0 <= i < |Sought(turn)| && Sought(turn)[i] == b;
    var part, tail := SplitTurn(turn, kept, i);
    Regroup(early, part, Wait(b), tail, rest);
    before, after := early + part, tail + rest;
    HeldAfterJoin(early, part, {});
    WaitsOnlyForSeatsAndHolds(batch, {}, before, [Wait(b)] + after);
  }

  lemma WaitsOnlyForSeatsAndHolds(batch: seq<Attempt>, kept: set<Lock>, before: seq<Op>, after: seq<Op>)
    requires BatchOps(batch, kept) == before + after
    ensures forall l :: l in HeldAfter(before, {}) ==> l.SeatLock? || l.HoldLock?
    ensures forall l :: l in PickedAfter(before, {}) ==> l.EntryLock?
  {
    BatchOpsAre(batch, kept);
    forall i | 0 <= i < |before| ensures before[i] == BatchOps(batch, kept)[i] {}
    HeldAreWaited(before, {});
  }

  lemma {:induction false} HeldAreWaited(ops: seq<Op>, held: set<Lock>)
    requires forall i :: 0 <= i < |ops| && ops[i].Wait? ==> ops[i].lock.SeatLock? || ops[i].lock.HoldLock?
    requires forall i :: 0 <= i < |ops| && ops[i].SkipLocked? ==> ops[i].lock.EntryLock?
    requires forall l :: l in held ==> l.SeatLock? || l.HoldLock?
    ensures forall l :: l in HeldAfter(ops, held) ==> l.SeatLock? || l.HoldLock?
    ensures forall l :: l in PickedAfter(ops, {}) ==> l.EntryLock?
    decreases |ops|
  {
    PickedArePicked(ops, {});
    if ops != [] {
      match ops[0]
      case Wait(l) => HeldAreWaited(ops[1..], held + {l});
      case SkipLocked(_) => HeldAreWaited(ops[1..], held);
      case RollBack(ls) => HeldAreWaited(ops[1..], held - ls);
    }
  }

  lemma {:induction false} PickedArePicked(ops: seq<Op>, picked: set<Lock>)
    requires forall i :: 0 <= i < |ops| && ops[i].SkipLocked? ==> ops[i].lock.EntryLock?
    requires forall l :: l in picked ==> l.EntryLock?
    ensures forall l :: l in PickedAfter(ops, picked) ==> l.EntryLock?
    decreases |ops|
  {
    if ops != [] {
      PickedArePicked(ops[1..], if ops[0].SkipLocked? then picked + {ops[0].lock} else picked);
    }
  }

  /** A seat nobody in sight has locked. */
  lemma {:induction false} FreshSeat(locks: set<Lock>) returns (seat: int)
    ensures forall l :: l in locks && l.SeatLock? ==> l.seat < seat
    decreases |locks|
  {
    if locks == {} {
      seat := 0;
    } else {
      var l := Pick(locks);
      var s := FreshSeat(locks - {l});
      seat := if l.SeatLock? && l.seat >= s then l.seat + 1 else s;
      assert forall m :: m in locks ==> m == l || m in locks - {l};
    }
  }

  /** The customer who asks for the rows the other way round: `first`, then `b`, then `a`. */
  lemma OpposingCustomer(a: Lock, b: Lock, held: set<Lock>) returns (k: Kind, first: seq<Lock>)
    requires Before(b, a) && (a.SeatLock? || a.HoldLock?) && (b.SeatLock? || b.HoldLock?) && b !in held
    requires forall l :: l in held ==> l.SeatLock? || l.HoldLock?
    ensures k.CreateHold? && Issuable(k) && Plan(k) == first + [b, a]
    ensures forall i :: 0 <= i < |first| ==> first[i] !in held && !first[i].EntryLock?
  {
    if b.SeatLock? {
      first := [KeyLock(0, 0)];
      if a.SeatLock? {
        k := CreateHold(0, 0, [b.seat, a.seat], []);
        assert SeatLocks([b.seat, a.seat]) == [b, a] && HoldLocks([]) == [];
      } else {
        k := CreateHold(0, 0, [b.seat], [a.hold]);
        assert SeatLocks([b.seat]) == [b] && HoldLocks([a.hold]) == [a];
      }
    } else {
      var seat := FreshSeat(held);
      first := [KeyLock(0, 0), SeatLock(seat)];
      k := CreateHold(0, 0, [seat], [b.hold, a.hold]);
      assert SeatLocks([seat]) == [SeatLock(seat)] && HoldLocks([b.hold, a.hold]) == [b, a];
    }
  }

  // -------------------------------------------------------------------- the theorem

  /** The batch begins as `t`; everyone else is one of the code's transactions, none of them stamping an entry that is waiting. */
  ghost predicate Beside(steps: seq<Step>, batch: seq<Attempt>, t: TxId) {
    forall i :: 0 <= i < |steps| && steps[i].Begin? ==>
      || steps[i] == Begin(t, BatchOps(batch, {}))
      || (steps[i].tx != t && exists k :: Issuable(k) && Apart(k, EntriesOf(batch)) && steps[i].ops == InTurn(Plan(k)))
  }

  ghost predicate CanDeadlock(batch: seq<Attempt>, t: TxId) {
    exists steps, c :: Beside(steps, batch, t) && t in c && Circle(Run(map[], steps), c)
  }

  lemma InOrderCannot(batch: seq<Attempt>, t: TxId, steps: seq<Step>, c: seq<TxId>)
    requires WellFormed(batch) && !OutOfOrder(batch, {}) && Beside(steps, batch, t)
    ensures !Circle(Run(map[], steps), c)
  {
    var entries := EntriesOf(batch);
    forall i | 0 <= i < |steps| && steps[i].Begin? ensures Orderly(steps[i].ops, entries) {
      if steps[i] == Begin(t, BatchOps(batch, {})) {
        InOrderIsOrderly(batch);
      } else {
        var k :| Issuable(k) && Apart(k, entries) && steps[i].ops == InTurn(Plan(k));
        CodeIsOrderly(k, entries);
      }
    }
    RunKeepsOrder(map[], steps, entries);
    NoCircle(Run(map[], steps), entries, c);
  }

  /** Alone, the batch comes to the lock it is to wait for. */
  lemma BatchGetsTo(t: TxId, before: seq<Op>, b: Lock, after: seq<Op>) returns (run: seq<Step>)
    ensures forall i :: 0 <= i < |run| ==> run[i] == Advance(t)
    ensures Run(map[t := Tx(before + [Wait(b)] + after, {}, {})], run)
            == map[t := Tx([Wait(b)] + after, HeldAfter(before, {}), PickedAfter(before, {}))]
  {
    hide HeldAfter, PickedAfter, Do, Enabled, Run;
    var sys: System := map[t := Tx(before + [Wait(b)] + after, {}, {})];
    assert before + [Wait(b)] + after == before + ([Wait(b)] + after);
    run := GoesThrough(sys, t, before, [Wait(b)] + after);
  }

  lemma BothBeside(batch: seq<Attempt>, t: TxId, u: TxId, k: Kind, run0: seq<Step>, run1: seq<Step>)
    requires t != u && Issuable(k) && k.CreateHold?
    requires forall i :: 0 <= i < |run0| ==> run0[i] == Advance(t)
    requires forall i :: 0 <= i < |run1| ==> run1[i] == Advance(u)
    ensures Beside([Begin(t, BatchOps(batch, {}))] + run0 + [Begin(u, InTurn(Plan(k)))] + run1, batch, t)
  {
    hide Issuable, BatchOps, InTurn, Plan;
    assert Issuable(k) && Apart(k, EntriesOf(batch)) && InTurn(Plan(k)) == InTurn(Plan(k));
  }

  lemma OutOfOrderCan(batch: seq<Attempt>, t: TxId)
    requires WellFormed(batch) && OutOfOrder(batch, {})
    ensures CanDeadlock(batch, t)
  {
    hide BatchOps, KeptBy, HeldAfter, PickedAfter, Do, Enabled, Run, Before, Plan, Issuable, Apart, InTurn, Beside, Circle, WaitsFor;
    var j, a, b :| Descends(batch, {}, j, a, b);
    var before, after := ComesTo(batch, j, a, b);
    var held, picked := HeldAfter(before, {}), PickedAfter(before, {});
    var k, first := OpposingCustomer(a, b, held);
    var u := t + 1;
    var ops, theirs := BatchOps(batch, {}), InTurn(Plan(k));
    var run0 := BatchGetsTo(t, before, b, after);
    var stuck := Tx([Wait(b)] + after, held, picked);
    var s1: System := map[t := stuck, u := Tx(theirs, {}, {})];
    var run1 := CustomerGetsTo(s1, t, u, a, b, first, theirs);
    BatchThenCustomer(t, u, ops, theirs, run0, run1, map[t := Tx(ops, {}, {})], s1);
    BothBeside(batch, t, u, k, run0, run1);
    TwoInACircle(Run(s1, run1), t, u);
  }

  /** The customer takes everything up to `b` unopposed, and comes to wait for `a`. */
  lemma CustomerGetsTo(sys: System, t: TxId, u: TxId, a: Lock, b: Lock, first: seq<Lock>, theirs: seq<Op>) returns (run: seq<Step>)
    requires t != u && sys.Keys == {t, u} && sys[u] == Tx(theirs, {}, {}) && theirs == InTurn(first + [b, a])
    requires Waiting(sys, t) && Next(sys, t) == b && a in sys[t].held && !Holds(sys[t], b)
    requires forall i :: 0 <= i < |first| ==> !Holds(sys[t], first[i])
    ensures forall i :: 0 <= i < |run| ==> run[i] == Advance(u)
    ensures WaitsFor(Run(sys, run), t, u) && WaitsFor(Run(sys, run), u, t)
  {
    hide Do, Enabled, Run, HeldAfter, PickedAfter;
    var mine := InTurn(first + [b]);
    assert theirs == mine + [Wait(a)];
    forall i | 0 <= i < |mine| ensures FreeFor(sys, u, mine[i].lock) {
      assert mine[i].lock == (first + [b])[i];
    }
    run := GoesThrough(sys, u, mine, [Wait(a)]);
    HeldInTurn(first + [b], {});
    assert (first + [b])[|first|] == b;
  }

  lemma TwoInACircle(sys: System, t: TxId, u: TxId)
    requires WaitsFor(sys, t, u) && WaitsFor(sys, u, t)
    ensures Circle(sys, [t, u, t]) && t in [t, u, t]
  {
    hide WaitsFor;
  }

  lemma BatchThenCustomer(t: TxId, u: TxId, ops: seq<Op>, theirs: seq<Op>, run0: seq<Step>, run1: seq<Step>, s0: System, s1: System)
    requires t != u && s0 == map[t := Tx(ops, {}, {})]
    requires Run(s0, run0).Keys == {t} && s1 == Run(s0, run0)[u := Tx(theirs, {}, {})]
    ensures Run(map[], [Begin(t, ops)] + run0 + [Begin(u, theirs)] + run1) == Run(s1, run1)
  {
    var empty: System := map[];
    assert Enabled(empty, Begin(t, ops)) && Do(empty, Begin(t, ops)) == s0;
    RunAppends(empty, [], Begin(t, ops));
    assert [] + [Begin(t, ops)] == [Begin(t, ops)];
    RunJoins(empty, [Begin(t, ops)], run0);
    var mid := Run(s0, run0);
    assert Enabled(mid, Begin(u, theirs)) && Do(mid, Begin(u, theirs)) == s1;
    RunAppends(empty, [Begin(t, ops)] + run0, Begin(u, theirs));
    RunJoins(empty, [Begin(t, ops)] + run0 + [Begin(u, theirs)], run1);
  }

  /**
   Beside any number of the code's transactions, a batch can end up in a circle of
   waiting if and only if one of its turns has to lock a row that stands before
   one an earlier turn kept.
   */
  lemma BatchDeadlocksIff(batch: seq<Attempt>, t: TxId)
    requires WellFormed(batch)
    ensures CanDeadlock(batch, t) <==> OutOfOrder(batch, {})
  {
    if OutOfOrder(batch, {}) {
      OutOfOrderCan(batch, t);
    } else {
      forall steps, c | Beside(steps, batch, t) ensures !Circle(Run(map[], steps), c) { InOrderCannot(batch, t, steps, c); }
    }
  }

  // ------------------------------------------------------------------ plain batches

  ghost predicate KeptByTurn(batch: seq<Attempt>, l: Lock) {
    exists i :: 0 <= i < |batch| && batch[i].Pairing? && batch[i].kept && l in Sought(batch[i])
  }

  /** What is kept is what some turn sought and kept. */
  lemma {:induction false} KeptByIs(batch: seq<Attempt>, kept: set<Lock>, l: Lock)
    ensures l in KeptBy(batch, kept) <==> l in kept || KeptByTurn(batch, l)
    decreases |batch|
  {
    hide Sought;
    if batch != [] {
      KeptByIs(batch[1..], KeptAfter(batch[0], kept), l);
      if KeptByTurn(batch[1..], l) {
        var i :| 0 <= i < |batch[1..]| && batch[1..][i].Pairing? && batch[1..][i].kept && l in Sought(batch[1..][i]);
        assert batch[i + 1] == batch[1..][i];
      }
      if KeptByTurn(batch, l) {
        var i :| 0 <= i < |batch| && batch[i].Pairing? && batch[i].kept && l in Sought(batch[i]);
        if i > 0 { assert batch[1..][i - 1] == batch[i]; }
      }
    }
  }

  /** No turn meets a lapsed hold, and none comes to a seat already kept. */
  predicate Plain(batch: seq<Attempt>) {
    && (forall i :: 0 <= i < |batch| && batch[i].Pairing? ==> batch[i].lapsed == [])
    && (forall i, j :: 0 <= i < j < |batch| && batch[i].Pairing? && batch[j].Pairing? && batch[i].kept ==> batch[i].seat != batch[j].seat)
  }

  predicate Reverses(batch: seq<Attempt>, i: int, j: int) {
    && 0 <= i < j < |batch| && batch[i].Pairing? && batch[j].Pairing?
    && batch[i].kept && batch[j].seat < batch[i].seat
  }

  /** Then it is simply the seats: a batch is out of order exactly when a kept seat is followed by a lower one. */
  lemma PlainOutOfOrder(batch: seq<Attempt>)
    requires Plain(batch)
    ensures OutOfOrder(batch, {}) <==> exists i, j :: Reverses(batch, i, j)
  {
    if OutOfOrder(batch, {}) {
      var j, a, b :| Descends(batch, {}, j, a, b);
      KeptByIs(batch[..j], {}, a);
      var i :| 0 <= i < |batch[..j]| && batch[..j][i].Pairing? && batch[..j][i].kept && a in Sought(batch[..j][i]);
      assert Reverses(batch, i, j);
    }
    if i, j :| Reverses(batch, i, j) {
      var a, b := SeatLock(batch[i].seat), SeatLock(batch[j].seat);
      KeptByIs(batch[..j], {}, a);
      KeptByIs(batch[..j], {}, b);
      assert a in Sought(batch[..j][i]) && Sought(batch[j])[0] == b;
      assert Descends(batch, {}, j, a, b);
    }
  }

  /** Seat 5 of one category kept, then seat 2 of another: a customer asking for both can be caught in a circle with the worker. */
  lemma TwoCategoriesCanDeadlock(t: TxId)
    ensures CanDeadlock([Pairing(1, 5, [], true), Pairing(2, 2, [], true)], t)
  {
    var batch := [Pairing(1, 5, [], true), Pairing(2, 2, [], true)];
    assert Reverses(batch, 0, 1);
    PlainOutOfOrder(batch);
    BatchDeadlocksIff(batch, t);
  }

  /** So can one pairing that had to reclaim a lapsed hold, followed by any other seat it has not got. */
  lemma ReclaimingCanDeadlock(first: Attempt, second: Attempt, t: TxId)
    requires WellFormed([first, second]) && first.Pairing? && second.Pairing? && first.kept
    requires first.lapsed != [] && second.seat != first.seat
    ensures CanDeadlock([first, second], t)
  {
    var batch := [first, second];
    var a, b := HoldLock(first.lapsed[0]), SeatLock(second.seat);
    assert batch[..1] == [first];
    KeptByIs(batch[..1], {}, a);
    KeptByIs(batch[..1], {}, b);
    assert Sought(first)[1] == a && Sought(second)[0] == b;
    assert batch[..1][0] == first && a in Sought(batch[..1][0]);
    assert Descends(batch, {}, 1, a, b);
    BatchDeadlocksIff(batch, t);
  }
}
