/**
 Publishing the seat outbox: any number of workers, each claiming a batch in a
 transaction of its own, publishing row by row and marking or backing off each,
 and able to die at any point. Redis forgets nothing when PostgreSQL rolls back.
 */
module OutboxWorker {
  import opened Rows
  import opened Wrappers

  type RowId = int
  type WorkerId = int
  type Millis = int

  datatype Row = Row(createdAt: Millis, availableAt: Millis, attempts: nat, processed: bool)

  /** An open claim transaction: the rows it locked, how far its loop has come, and the rows it has rewritten. */
  datatype Batch = Batch(startedAt: Millis, ids: seq<RowId>, done: nat, rewritten: map<RowId, Row>)

  /** `published` counts deliveries to Redis; `lost` those whose mark was rolled back by a crash. */
  datatype System = System(rows: map<RowId, Row>, published: multiset<RowId>, lost: multiset<RowId>, open: map<WorkerId, Batch>)

  datatype Backoff = Backoff(base: nat, max: nat)

  // ------------------------------------------------------------------ backoff

  function Pow2(k: nat): nat {
    if k == 0 then 1 else 2 * Pow2(k - 1)
  }

  /** LEAST(max, base * 2 ^ attempts). */
  function Delay(b: Backoff, attempts: nat): nat {
    if b.base * Pow2(attempts) <= b.max then b.base * Pow2(attempts) else b.max
  }

  /** Retries never come sooner than the ones before, and never later than the cap. */
  lemma {:induction false} DelayGrows(b: Backoff, j: nat, k: nat)
    requires j <= k
    ensures Delay(b, j) <= Delay(b, k) <= b.max
    decreases k
  {
    if j < k {
      DelayGrows(b, j, k - 1);
      assert b.base * Pow2(k) == b.base * Pow2(k - 1) + b.base * Pow2(k - 1);
    }
  }

  /** Once the doubling passes the cap the delay stays at the cap; the row is never abandoned. */
  lemma {:induction false} DelayReachesCap(b: Backoff, k: nat)
    requires b.base > 0 && k >= b.max
    ensures Delay(b, k) == b.max
  {
    Pow2Exceeds(k);
    TimesAtLeastOne(b.base, Pow2(k));
  }

  lemma {:induction false} TimesAtLeastOne(n: nat, x: nat)
    requires n > 0
    ensures n * x >= x
  {
    if n > 1 {
      TimesAtLeastOne(n - 1, x);
      assert n * x == (n - 1) * x + x;
    }
  }

  lemma {:induction false} Pow2Exceeds(k: nat)
    ensures Pow2(k) > k
  {
    if k > 0 { Pow2Exceeds(k - 1); }
  }

  // ------------------------------------------------------------------ claiming

  /** Some open transaction has the row locked. */
  predicate Locked(open: map<WorkerId, Batch>, r: RowId) {
    exists w :: w in open && r in open[w].ids
  }

  predicate Claimable(sys: System, now: Millis, r: RowId) {
    r in sys.rows && !sys.rows[r].processed && sys.rows[r].availableAt <= now && !Locked(sys.open, r)
  }

  /** ORDER BY available_at, created_at; ties fall either way. */
  predicate NotAfter(rows: map<RowId, Row>, r: RowId, q: RowId)
    requires r in rows && q in rows
  {
    || rows[r].availableAt < rows[q].availableAt
    || (rows[r].availableAt == rows[q].availableAt && rows[r].createdAt <= rows[q].createdAt)
  }

  /** FOR UPDATE SKIP LOCKED LIMIT: distinct claimable rows, earliest first, none left out that should have come before. */
  ghost predicate Claims(sys: System, now: Millis, limit: nat, ids: seq<RowId>) {
    && |ids| <= limit
    && (forall i :: 0 <= i < |ids| ==> Claimable(sys, now, ids[i]))
    && (forall i, j :: 0 <= i < j < |ids| ==> ids[i] != ids[j] && NotAfter(sys.rows, ids[i], ids[j]))
    && (forall r :: Claimable(sys, now, r) && r !in ids ==>
          |ids| == limit && forall i :: 0 <= i < |ids| ==> NotAfter(sys.rows, ids[i], r))
  }

  // -------------------------------------------------------------------- steps

  datatype Step =
    | Insert(row: RowId, now: Millis)
    | Claim(worker: WorkerId, ids: seq<RowId>, limit: nat, now: Millis)
    | PublishOk(worker: WorkerId)
    | PublishFailed(worker: WorkerId)
    | Commit(worker: WorkerId)
    | Crash(worker: WorkerId)

  predicate InLoop(sys: System, w: WorkerId) {
    w in sys.open && sys.open[w].done < |sys.open[w].ids|
  }

  ghost predicate Enabled(sys: System, step: Step) {
    match step
    case Insert(r, _) => r !in sys.rows
    case Claim(w, ids, limit, now) => w !in sys.open && Claims(sys, now, limit, ids)
    case PublishOk(w) => InLoop(sys, w) && sys.open[w].ids[sys.open[w].done] in sys.rows
    case PublishFailed(w) => InLoop(sys, w) && sys.open[w].ids[sys.open[w].done] in sys.rows
    case Commit(w) => w in sys.open && sys.open[w].done == |sys.open[w].ids|
    case Crash(w) => w in sys.open
  }

  /** The loop's next row, rewritten. */
  function Rewrite(batch: Batch, row: Row): Batch
    requires batch.done < |batch.ids|
  {
    batch.(done := batch.done + 1, rewritten := batch.rewritten[batch.ids[batch.done] := row])
  }

  /** `attempts + 1`, and not before `now() + delay`, where `now()` is when the transaction began. */
  function BackedOff(row: Row, startedAt: Millis, b: Backoff): Row {
    row.(attempts := row.attempts + 1, availableAt := startedAt + Delay(b, row.attempts))
  }

  /** Rows this transaction has marked processed, so far visible to nobody else. */
  function Marked(batch: Batch): set<RowId> {
    set r | r in batch.rewritten && batch.rewritten[r].processed
  }

  function Merge(rows: map<RowId, Row>, rewritten: map<RowId, Row>): map<RowId, Row> {
    map r | r in rows :: if r in rewritten then rewritten[r] else rows[r]
  }

  ghost function Do(sys: System, step: Step, b: Backoff): System
    requires Enabled(sys, step)
  {
    match step
    case Insert(r, now) => sys.(rows := sys.rows[r := Row(now, now, 0, false)])
    case Claim(w, ids, _, now) => sys.(open := sys.open[w := Batch(now, ids, 0, map[])])
    case PublishOk(w) =>
      var batch := sys.open[w];
      var r := batch.ids[batch.done];
      sys.(published := sys.published + multiset{r},
           open := sys.open[w := Rewrite(batch, sys.rows[r].(processed := true))])
    case PublishFailed(w) =>
      var batch := sys.open[w];
      sys.(open := sys.open[w := Rewrite(batch, BackedOff(sys.rows[batch.ids[batch.done]], batch.startedAt, b))])
    case Commit(w) => sys.(rows := Merge(sys.rows, sys.open[w].rewritten), open := sys.open - {w})
    case Crash(w) => sys.(lost := sys.lost + multiset(Marked(sys.open[w])), open := sys.open - {w})
  }

  /** Steps that are not enabled do nothing. */
  ghost function Run(sys: System, steps: seq<Step>, b: Backoff): System
    decreases |steps|
  {
    if steps == [] then sys
    else Run(if Enabled(sys, steps[0]) then Do(sys, steps[0], b) else sys, steps[1..], b)
  }

  // ---------------------------------------------------------------- invariant

  ghost predicate BatchOk(sys: System, batch: Batch) {
    && batch.done <= |batch.ids|
    && (forall i :: 0 <= i < |batch.ids| ==> batch.ids[i] in sys.rows && !sys.rows[batch.ids[i]].processed)
    && (forall i, j :: 0 <= i < j < |batch.ids| ==> batch.ids[i] != batch.ids[j])
    && (forall r :: r in batch.rewritten <==> r in batch.ids[..batch.done])
    && (forall r :: r in batch.rewritten ==> r in batch.ids)
  }

  ghost predicate BatchesOk(sys: System) {
    && (forall w :: w in sys.open ==> BatchOk(sys, sys.open[w]))
    && (forall w, v, r :: w in sys.open && v in sys.open && r in sys.open[w].ids && r in sys.open[v].ids ==> w == v)
  }

  ghost predicate MarkedSomewhere(sys: System, r: RowId) {
    exists w :: w in sys.open && r in Marked(sys.open[w])
  }

  function One(b: bool): nat {
    if b then 1 else 0
  }

  /** Every delivery is accounted for: the committed mark, a mark still open, or one a crash took back. */
  ghost predicate Accounted(sys: System, r: RowId) {
    sys.published[r] == sys.lost[r] + One(r in sys.rows && sys.rows[r].processed) + One(MarkedSomewhere(sys, r))
  }

  ghost predicate Ok(sys: System) {
    BatchesOk(sys) && forall r :: Accounted(sys, r)
  }

  ghost predicate Fresh(sys: System) {
    && (forall r :: r in sys.rows ==> !sys.rows[r].processed)
    && sys.published == multiset{} && sys.lost == multiset{} && sys.open == map[]
  }

  lemma FreshOk(sys: System)
    requires Fresh(sys)
    ensures Ok(sys)
  {
    assert forall r :: Accounted(sys, r);
  }

  lemma DoBatches(sys: System, step: Step, b: Backoff)
    requires BatchesOk(sys) && Enabled(sys, step)
    ensures BatchesOk(Do(sys, step, b))
  {
    hide Delay, Claimable;
    match step
    case Insert(_, _) =>
    case Claim(w, ids, limit, now) => ClaimBatches(sys, w, ids, limit, now, b);
    case PublishOk(w) => NextPrefix(sys.open[w]);
    case PublishFailed(w) => NextPrefix(sys.open[w]);
    case Commit(w) => CommitBatches(sys, w, b);
    case Crash(_) =>
  }

  lemma ClaimBatches(sys: System, w: WorkerId, ids: seq<RowId>, limit: nat, now: Millis, b: Backoff)
    requires BatchesOk(sys) && Enabled(sys, Claim(w, ids, limit, now))
    ensures BatchesOk(Do(sys, Claim(w, ids, limit, now), b))
  {
    forall v, r | v in sys.open && r in sys.open[v].ids ensures r !in ids { assert Locked(sys.open, r); }
  }

  lemma CommitBatches(sys: System, w: WorkerId, b: Backoff)
    requires BatchesOk(sys) && Enabled(sys, Commit(w))
    ensures BatchesOk(Do(sys, Commit(w), b))
  {
    var d := Do(sys, Commit(w), b);
    forall v | v in d.open ensures BatchOk(d, d.open[v]) {
      assert BatchOk(sys, sys.open[v]) && BatchOk(sys, sys.open[w]);
    }
  }

  lemma NextPrefix(batch: Batch)
    requires batch.done < |batch.ids|
    ensures forall r :: r in batch.ids[..batch.done + 1] <==> r in batch.ids[..batch.done] || r == batch.ids[batch.done]
  {
    assert batch.ids[..batch.done + 1] == batch.ids[..batch.done] + [batch.ids[batch.done]];
  }

  lemma NextIsUnmarked(sys: System, w: WorkerId)
    requires BatchesOk(sys) && InLoop(sys, w)
    ensures !MarkedSomewhere(sys, sys.open[w].ids[sys.open[w].done])
  {
    var r := sys.open[w].ids[sys.open[w].done];
    assert BatchOk(sys, sys.open[w]);
    forall v | v in sys.open ensures r !in Marked(sys.open[v]) {
      assert BatchOk(sys, sys.open[v]);
    }
  }

  lemma PublishAccounts(sys: System, w: WorkerId, b: Backoff, r: RowId)
    requires Ok(sys) && Enabled(sys, PublishOk(w))
    ensures Accounted(Do(sys, PublishOk(w), b), r)
  {
    var d := Do(sys, PublishOk(w), b);
    var q := sys.open[w].ids[sys.open[w].done];
    NextIsUnmarked(sys, w);
    assert Accounted(sys, r) && BatchOk(sys, sys.open[w]);
    if r == q {
      assert r in Marked(d.open[w]);
    } else if MarkedSomewhere(sys, r) {
      var v :| v in sys.open && r in Marked(sys.open[v]);
      assert v in d.open && r in Marked(d.open[v]);
    }
  }

  lemma FailureAccounts(sys: System, w: WorkerId, b: Backoff, r: RowId)
    requires Ok(sys) && Enabled(sys, PublishFailed(w))
    ensures Accounted(Do(sys, PublishFailed(w), b), r)
  {
    var d := Do(sys, PublishFailed(w), b);
    NextIsUnmarked(sys, w);
    assert Accounted(sys, r) && BatchOk(sys, sys.open[w]);
    if MarkedSomewhere(sys, r) {
      var v :| v in sys.open && r in Marked(sys.open[v]);
      assert v in d.open && r in Marked(d.open[v]);
    }
  }

  lemma CommitAccounts(sys: System, w: WorkerId, b: Backoff, r: RowId)
    requires Ok(sys) && Enabled(sys, Commit(w))
    ensures Accounted(Do(sys, Commit(w), b), r)
  {
    var d := Do(sys, Commit(w), b);
    assert Accounted(sys, r) && BatchOk(sys, sys.open[w]);
    if r in Marked(sys.open[w]) {
      forall v | v in d.open ensures r !in Marked(d.open[v]) { assert BatchOk(sys, sys.open[v]); }
      assert MarkedSomewhere(sys, r);
    } else if MarkedSomewhere(sys, r) {
      var v :| v in sys.open && r in Marked(sys.open[v]);
      assert BatchOk(sys, sys.open[v]);
      assert v in d.open && r in Marked(d.open[v]);
    }
  }

  lemma CrashAccounts(sys: System, w: WorkerId, b: Backoff, r: RowId)
    requires Ok(sys) && Enabled(sys, Crash(w))
    ensures Accounted(Do(sys, Crash(w), b), r)
  {
    var d := Do(sys, Crash(w), b);
    assert Accounted(sys, r) && BatchOk(sys, sys.open[w]);
    if r in Marked(sys.open[w]) {
      forall v | v in d.open ensures r !in Marked(d.open[v]) { assert BatchOk(sys, sys.open[v]); }
      assert MarkedSomewhere(sys, r);
    } else if MarkedSomewhere(sys, r) {
      var v :| v in sys.open && r in Marked(sys.open[v]);
      assert v in d.open && r in Marked(d.open[v]);
    }
  }

  lemma InsertAccounts(sys: System, q: RowId, now: Millis, b: Backoff, r: RowId)
    requires Ok(sys) && q !in sys.rows
    ensures Accounted(Do(sys, Insert(q, now), b), r)
  {
    assert Accounted(sys, r);
    assert MarkedSomewhere(Do(sys, Insert(q, now), b), r) == MarkedSomewhere(sys, r);
  }

  lemma ClaimAccounts(sys: System, w: WorkerId, ids: seq<RowId>, limit: nat, now: Millis, b: Backoff, r: RowId)
    requires Ok(sys) && Enabled(sys, Claim(w, ids, limit, now))
    ensures Accounted(Do(sys, Claim(w, ids, limit, now), b), r)
  {
    var d := Do(sys, Claim(w, ids, limit, now), b);
    assert Accounted(sys, r);
    if MarkedSomewhere(sys, r) {
      var v :| v in sys.open && r in Marked(sys.open[v]);
      assert v in d.open && r in Marked(d.open[v]);
    }
  }

  lemma DoOk(sys: System, step: Step, b: Backoff)
    requires Ok(sys) && Enabled(sys, step)
    ensures Ok(Do(sys, step, b))
  {
    hide Accounted, BatchesOk, Do, Enabled;
    DoBatches(sys, step, b);
    forall r ensures Accounted(Do(sys, step, b), r) { StepAccounts(sys, step, b, r); }
  }

  lemma StepAccounts(sys: System, step: Step, b: Backoff, r: RowId)
    requires Ok(sys) && Enabled(sys, step)
    ensures Accounted(Do(sys, step, b), r)
  {
    hide Accounted, Ok, Do;
    match step
    case Insert(q, now) => InsertAccounts(sys, q, now, b, r);
    case Claim(w, ids, limit, now) => ClaimAccounts(sys, w, ids, limit, now, b, r);
    case PublishOk(w) => PublishAccounts(sys, w, b, r);
    case PublishFailed(w) => FailureAccounts(sys, w, b, r);
    case Commit(w) => CommitAccounts(sys, w, b, r);
    case Crash(w) => CrashAccounts(sys, w, b, r);
  }

  lemma {:induction false} RunOk(sys: System, steps: seq<Step>, b: Backoff)
    requires Ok(sys)
    ensures Ok(Run(sys, steps, b))
    decreases |steps|
  {
    hide Ok, Do, Enabled;
    if steps != [] {
      if Enabled(sys, steps[0]) { DoOk(sys, steps[0], b); }
      RunOk(if Enabled(sys, steps[0]) then Do(sys, steps[0], b) else sys, steps[1..], b);
    }
  }

  /**
   Any number of workers, dying anywhere: no two open batches share a row; a row
   marked processed has been published, and published again only as often as a
   crash took a mark back; a row not marked and in nobody's hands has been
   published only by transactions that died.
   */
  lemma DeliveredAtLeastOnce(start: System, steps: seq<Step>, b: Backoff)
    requires Fresh(start)
    ensures var sys := Run(start, steps, b);
            && (forall w, v, r :: w in sys.open && v in sys.open && r in sys.open[w].ids && r in sys.open[v].ids ==> w == v)
            && (forall r :: r in sys.rows && sys.rows[r].processed ==> sys.published[r] == sys.lost[r] + 1)
            && (forall r :: r in sys.rows && !sys.rows[r].processed && !Locked(sys.open, r) ==> sys.published[r] == sys.lost[r])
  {
    hide Run;
    FreshOk(start);
    RunOk(start, steps, b);
    var sys := Run(start, steps, b);
    forall r | r in sys.rows && sys.rows[r].processed ensures sys.published[r] == sys.lost[r] + 1 {
      assert Accounted(sys, r);
      forall w | w in sys.open ensures r !in Marked(sys.open[w]) { assert BatchOk(sys, sys.open[w]); }
    }
    forall r | r in sys.rows && !sys.rows[r].processed && !Locked(sys.open, r) ensures sys.published[r] == sys.lost[r] {
      assert Accounted(sys, r);
      forall w | w in sys.open ensures r !in Marked(sys.open[w]) { assert BatchOk(sys, sys.open[w]); }
    }
  }

  /** Without crashes every processed row went out exactly once. */
  lemma {:induction false} NoCrashNoLoss(sys: System, steps: seq<Step>, b: Backoff)
    requires forall i :: 0 <= i < |steps| ==> !steps[i].Crash?
    ensures Run(sys, steps, b).lost == sys.lost
    decreases |steps|
  {
    if steps != [] {
      NoCrashNoLoss(if Enabled(sys, steps[0]) then Do(sys, steps[0], b) else sys, steps[1..], b);
    }
  }

  /** Rows are never dropped, a processed row is never touched again, and an attempt count never falls. */
  ghost predicate Keeps(before: System, after: System) {
    forall r :: r in before.rows ==>
      && r in after.rows
      && (before.rows[r].processed ==> after.rows[r] == before.rows[r])
      && before.rows[r].attempts <= after.rows[r].attempts
  }

  /** A rewritten row is the committed one with its mark set, or backed off once. */
  ghost predicate RewrittenOk(sys: System, batch: Batch, b: Backoff) {
    forall r :: r in batch.rewritten && r in sys.rows ==>
      || batch.rewritten[r] == sys.rows[r].(processed := true)
      || batch.rewritten[r] == BackedOff(sys.rows[r], batch.startedAt, b)
  }

  ghost predicate AllRewrittenOk(sys: System, b: Backoff) {
    forall w :: w in sys.open ==> RewrittenOk(sys, sys.open[w], b)
  }

  lemma DoRewritten(sys: System, step: Step, b: Backoff)
    requires BatchesOk(sys) && AllRewrittenOk(sys, b) && Enabled(sys, step)
    ensures AllRewrittenOk(Do(sys, step, b), b) && Keeps(sys, Do(sys, step, b))
  {
    var d := Do(sys, step, b);
    forall w | w in sys.open ensures BatchOk(sys, sys.open[w]) && RewrittenOk(sys, sys.open[w], b) {}
    match step
    case Insert(_, _) =>
    case Claim(_, _, _, _) =>
    case PublishOk(w) => assert RewrittenOk(d, d.open[w], b);
    case PublishFailed(w) => assert RewrittenOk(d, d.open[w], b);
    case Commit(w) =>
      forall v | v in d.open ensures RewrittenOk(d, d.open[v], b) {
        forall r | r in d.open[v].rewritten && r in d.rows ensures d.rows[r] == sys.rows[r] {}
      }
    case Crash(_) =>
  }

  /** Over any run: no row is lost, none leaves `processed`, none forgets a failure. */
  lemma {:induction false} RunKeeps(sys: System, steps: seq<Step>, b: Backoff)
    requires Ok(sys) && AllRewrittenOk(sys, b)
    ensures Keeps(sys, Run(sys, steps, b))
    decreases |steps|
  {
    hide Do, Enabled, Accounted, BatchesOk, AllRewrittenOk;
    if steps != [] && Enabled(sys, steps[0]) {
      var d := Do(sys, steps[0], b);
      DoOk(sys, steps[0], b);
      DoRewritten(sys, steps[0], b);
      RunKeeps(d, steps[1..], b);
    } else if steps != [] {
      RunKeeps(sys, steps[1..], b);
    }
  }

  // --------------------------------------------------------------- the worker's loop

  lemma {:induction false} RunAppends(sys: System, steps: seq<Step>, step: Step, b: Backoff)
    ensures Run(sys, steps + [step], b)
            == var mid := Run(sys, steps, b); if Enabled(mid, step) then Do(mid, step, b) else mid
    decreases |steps|
  {
    hide Do, Enabled;
    if steps == [] {
      assert ([] + [step])[1..] == [];
      assert Run(sys, [step], b) == Run(if Enabled(sys, step) then Do(sys, step, b) else sys, [], b);
    } else {
      assert (steps + [step])[1..] == steps[1..] + [step];
      RunAppends(if Enabled(sys, steps[0]) then Do(sys, steps[0], b) else sys, steps[1..], step, b);
    }
  }

  /** What Redis answers to each row of a batch, as steps. */
  function Verdicts(w: WorkerId, redis: seq<bool>): seq<Step> {
    seq(|redis|, i requires 0 <= i < |redis| => if redis[i] then PublishOk(w) else PublishFailed(w))
  }

  /** Which of the first `n` rows Redis accepted. */
  ghost function Accepted(redis: seq<bool>, n: nat): set<int>
    requires n <= |redis|
  {
    set i | 0 <= i < n && redis[i]
  }

  lemma NoAnswers(w: WorkerId, redis: seq<bool>)
    ensures Accepted(redis, 0) == {} && Verdicts(w, redis[..0]) == []
  {
  }

  lemma OneMoreAnswer(redis: seq<bool>, i: nat)
    requires i < |redis|
    ensures |Accepted(redis, i + 1)| == |Accepted(redis, i)| + if redis[i] then 1 else 0
  {
    assert Accepted(redis, i + 1) == if redis[i] then Accepted(redis, i) + {i} else Accepted(redis, i);
  }

  lemma OneMoreVerdict(w: WorkerId, redis: seq<bool>, i: nat)
    requires i < |redis|
    ensures Verdicts(w, redis[..i + 1]) == Verdicts(w, redis[..i]) + [if redis[i] then PublishOk(w) else PublishFailed(w)]
  {
  }

  class Outbox {
    const backoff: Backoff
    var rows: map<RowId, Row>
    var published: multiset<RowId>
    var lost: multiset<RowId>
    var open: map<WorkerId, Batch>

    function Value(): System
      reads this
    {
      System(rows, published, lost, open)
    }

    constructor (backoff: Backoff)
      ensures Fresh(Value()) && rows == map[] && this.backoff == backoff
    {
      this.backoff := backoff;
      rows, published, lost, open := map[], multiset{}, multiset{}, map[];
    }

    /** The earliest claimable row not yet taken, if there is one. */
    method NextRow(now: Millis, taken: seq<RowId>) returns (found: bool, first: RowId)
      ensures found <==> exists r :: Claimable(Value(), now, r) && r !in taken
      ensures found ==> Claimable(Value(), now, first) && first !in taken
                        && forall r :: Claimable(Value(), now, r) && r !in taken ==> NotAfter(rows, first, r)
    {
      var left := rows.Keys;
      found, first := false, 0;
      while left != {}
        invariant forall r :: r in left ==> r in rows
        invariant found ==> Claimable(Value(), now, first) && first !in taken
        invariant forall r :: Claimable(Value(), now, r) && r !in taken && r !in left ==> found && NotAfter(rows, first, r)
      {
        var r := AnyOf(left);
        left := left - {r};
        if Claimable(Value(), now, r) && r !in taken && (!found || NotAfter(rows, r, first)) {
          found, first := true, r;
        }
      }
    }

    /** claimPendingSeatStatusEvents: up to `limit` rows, locked by this worker's transaction. */
    method ClaimPending(w: WorkerId, limit: nat, now: Millis) returns (ids: seq<RowId>)
      requires w !in open
      modifies `open
      ensures Claims(old(Value()), now, limit, ids)
      ensures Enabled(old(Value()), Claim(w, ids, limit, now))
      ensures Value() == Do(old(Value()), Claim(w, ids, limit, now), backoff)
      ensures w in open && open[w].ids == ids && open[w].done == 0
    {
      ids := [];
      var more := true;
      while more && |ids| < limit
        invariant |ids| <= limit && Value() == old(Value())
        invariant forall i :: 0 <= i < |ids| ==> Claimable(Value(), now, ids[i])
        invariant forall i, j :: 0 <= i < j < |ids| ==> ids[i] != ids[j] && NotAfter(rows, ids[i], ids[j])
        invariant forall i, r :: 0 <= i < |ids| && Claimable(Value(), now, r) && r !in ids ==> NotAfter(rows, ids[i], r)
        invariant !more ==> forall r :: Claimable(Value(), now, r) ==> r in ids
        decreases more, limit - |ids|
      {
        var found, first := NextRow(now, ids);
        if found { ids := ids + [first]; } else { more := false; }
      }
      open := open[w := Batch(now, ids, 0, map[])];
    }

    /** The loop body for one claimed row: publish, then mark; or, when Redis refuses, back off. */
    method PublishNext(w: WorkerId, accepted: bool)
      requires InLoop(Value(), w) && open[w].ids[open[w].done] in rows
      modifies `published, `open
      ensures Enabled(old(Value()), if accepted then PublishOk(w) else PublishFailed(w))
      ensures Value() == Do(old(Value()), if accepted then PublishOk(w) else PublishFailed(w), backoff)
      ensures w in open && open[w].ids == old(open[w].ids) && open[w].done == old(open[w].done) + 1
    {
      var batch := open[w];
      var r := batch.ids[batch.done];
      if accepted {
        published := published + multiset{r};
        open := open[w := Rewrite(batch, rows[r].(processed := true))];
      } else {
        open := open[w := Rewrite(batch, BackedOff(rows[r], batch.startedAt, backoff))];
      }
    }

    method CommitBatch(w: WorkerId)
      requires w in open && open[w].done == |open[w].ids|
      modifies `rows, `open
      ensures Enabled(old(Value()), Commit(w)) && Value() == Do(old(Value()), Commit(w), backoff) && w !in open
    {
      rows := Merge(rows, open[w].rewritten);
      open := open - {w};
    }

    /**
     One iteration of the publish loop, Redis answering row i with `redis[i]`: a
     run of the machine's steps, committed at the end.
     */
    method PublishLoop(w: WorkerId, limit: nat, now: Millis, redis: seq<bool>) returns (ids: seq<RowId>, sent: nat, failed: nat)
      requires Ok(Value()) && w !in open && |redis| >= limit
      modifies this
      ensures Claims(old(Value()), now, limit, ids) && sent + failed == |ids|
      ensures sent == |Accepted(redis, |ids|)|
      ensures Value() == Run(old(Value()), [Claim(w, ids, limit, now)] + Verdicts(w, redis[..|ids|]) + [Commit(w)], backoff)
      ensures Ok(Value()) && w !in open
    {
      hide Ok, Claims, Do, Enabled, Run, Accepted, Verdicts, Locked, InLoop;
      ghost var before := Value();
      ids := ClaimPending(w, limit, now);
      ghost var steps := [Claim(w, ids, limit, now)];
      RunOfNone(before, backoff);
      RunAppends(before, [], steps[0], backoff);
      assert [] + [steps[0]] == steps;
      sent, failed := 0, 0;
      NoAnswers(w, redis);
      DoOk(before, steps[0], backoff);
      for i := 0 to |ids|
        invariant steps == [Claim(w, ids, limit, now)] + Verdicts(w, redis[..i])
        invariant Value() == Run(before, steps, backoff) && Ok(Value())
        invariant w in open && open[w].ids == ids && open[w].done == i
        invariant sent + failed == i && sent == |Accepted(redis, i)|
      {
        ghost var here := Value();
        ghost var step := if redis[i] then PublishOk(w) else PublishFailed(w);
        BatchInRows(here, w);
        PublishNext(w, redis[i]);
        RunAppends(before, steps, step, backoff);
        DoOk(here, step, backoff);
        OneMoreAnswer(redis, i);
        if redis[i] { sent := sent + 1; } else { failed := failed + 1; }
        steps := steps + [step];
        OneMoreVerdict(w, redis, i);
      }
      ghost var here := Value();
      CommitBatch(w);
      RunAppends(before, steps, Commit(w), backoff);
      DoOk(here, Commit(w), backoff);
    }
  }

  lemma RunOfNone(sys: System, b: Backoff)
    ensures Run(sys, [], b) == sys
  {
  }

  lemma BatchInRows(sys: System, w: WorkerId)
    requires Ok(sys) && InLoop(sys, w)
    ensures sys.open[w].ids[sys.open[w].done] in sys.rows
  {
    assert BatchOk(sys, sys.open[w]);
  }

  // -------------------------------------------------------------------- retrying

  /** The first delay is the base and each is double the one before, up to the cap. */
  lemma DelayDoubles(b: Backoff, k: nat)
    ensures Delay(b, 0) == if b.base <= b.max then b.base else b.max
    ensures Delay(b, k + 1) == if 2 * Delay(b, k) <= b.max then 2 * Delay(b, k) else b.max
  {
    assert b.base * Pow2(k + 1) == 2 * (b.base * Pow2(k));
  }

  /** The worker's open batch has come past the row and rewritten it so. */
  ghost predicate Rewritten(sys: System, w: WorkerId, r: RowId, row: Row) {
    && w in sys.open && sys.open[w].done <= |sys.open[w].ids|
    && r in sys.open[w].ids[..sys.open[w].done] && r in sys.open[w].rewritten && sys.open[w].rewritten[r] == row
  }

  /** Nothing ends the worker's transaction. */
  predicate KeepsOpen(steps: seq<Step>, w: WorkerId) {
    forall i :: 0 <= i < |steps| ==> steps[i] != Commit(w) && steps[i] != Crash(w)
  }

  lemma StepKeepsRewritten(sys: System, step: Step, b: Backoff, w: WorkerId, r: RowId, row: Row)
    requires BatchesOk(sys) && Enabled(sys, step) && Rewritten(sys, w, r, row) && step != Commit(w) && step != Crash(w)
    ensures Rewritten(Do(sys, step, b), w, r, row)
  {
    var batch := sys.open[w];
    assert BatchOk(sys, batch);
    if (step.PublishOk? || step.PublishFailed?) && step.worker == w {
      NextPrefix(batch);
      var i :| 0 <= i < batch.done && batch.ids[i] == r;
      assert batch.ids[batch.done] != r;
    }
  }

  lemma {:induction false} RunKeepsRewritten(sys: System, steps: seq<Step>, b: Backoff, w: WorkerId, r: RowId, row: Row)
    requires Ok(sys) && Rewritten(sys, w, r, row) && KeepsOpen(steps, w)
    ensures Ok(Run(sys, steps, b)) && Rewritten(Run(sys, steps, b), w, r, row)
    decreases |steps|
  {
    hide Do, Enabled, Accounted, BatchesOk, Rewritten;
    if steps != [] && Enabled(sys, steps[0]) {
      DoOk(sys, steps[0], b);
      StepKeepsRewritten(sys, steps[0], b, w, r, row);
      RunKeepsRewritten(Do(sys, steps[0], b), steps[1..], b, w, r, row);
    } else if steps != [] {
      RunKeepsRewritten(sys, steps[1..], b, w, r, row);
    }
  }

  /** A batch keeps the instant its claim began. */
  lemma {:induction false} RunKeepsStart(sys: System, steps: seq<Step>, b: Backoff, w: WorkerId)
    requires w in sys.open && KeepsOpen(steps, w)
    ensures w in Run(sys, steps, b).open && Run(sys, steps, b).open[w].startedAt == sys.open[w].startedAt
    ensures Run(sys, steps, b).open[w].ids == sys.open[w].ids
    decreases |steps|
  {
    if steps != [] {
      RunKeepsStart(if Enabled(sys, steps[0]) then Do(sys, steps[0], b) else sys, steps[1..], b, w);
    }
  }

  /**
   A row Redis refused, whatever other workers do meanwhile: once the batch that
   claimed it at `now` commits, the row is unprocessed, has one attempt more, and can
   be claimed again exactly from `now` plus the delay for the attempts it had.
   */
  lemma RefusedRowWaits(start: System, w: WorkerId, ids: seq<RowId>, limit: nat, now: Millis, earlier: seq<Step>, later: seq<Step>, b: Backoff)
    requires Ok(start) && Enabled(start, Claim(w, ids, limit, now)) && KeepsOpen(earlier, w) && KeepsOpen(later, w)
    requires Enabled(Run(Do(start, Claim(w, ids, limit, now), b), earlier, b), PublishFailed(w))
    requires var sys := Run(Do(start, Claim(w, ids, limit, now), b), earlier, b);
             Enabled(Run(Do(sys, PublishFailed(w), b), later, b), Commit(w))
    ensures var sys := Run(Do(start, Claim(w, ids, limit, now), b), earlier, b);
            var r := sys.open[w].ids[sys.open[w].done];
            var after := Do(Run(Do(sys, PublishFailed(w), b), later, b), Commit(w), b);
            && r in after.rows && !after.rows[r].processed && after.rows[r].attempts == sys.rows[r].attempts + 1
            && forall at :: Claimable(after, at, r) <==> at >= now + Delay(b, sys.rows[r].attempts)
  {
    hide Run, Accounted, Claims, Delay;
    var claimed := Do(start, Claim(w, ids, limit, now), b);
    DoOk(start, Claim(w, ids, limit, now), b);
    RunOk(claimed, earlier, b);
    RunKeepsStart(claimed, earlier, b, w);
    var sys := Run(claimed, earlier, b);
    RefusedFrom(sys, w, later, b);
  }

  lemma RefusedFrom(sys: System, w: WorkerId, later: seq<Step>, b: Backoff)
    requires Ok(sys) && Enabled(sys, PublishFailed(w)) && KeepsOpen(later, w)
    requires Enabled(Run(Do(sys, PublishFailed(w), b), later, b), Commit(w))
    ensures var r := sys.open[w].ids[sys.open[w].done];
            var after := Do(Run(Do(sys, PublishFailed(w), b), later, b), Commit(w), b);
            && r in after.rows && !after.rows[r].processed && after.rows[r].attempts == sys.rows[r].attempts + 1
            && forall at :: Claimable(after, at, r) <==> at >= sys.open[w].startedAt + Delay(b, sys.rows[r].attempts)
  {
    hide Run, Accounted, Delay;
    var batch := sys.open[w];
    var r := batch.ids[batch.done];
    assert BatchOk(sys, batch);
    var row := sys.rows[r].(attempts := sys.rows[r].attempts + 1, availableAt := batch.startedAt + Delay(b, sys.rows[r].attempts));
    var refused := Do(sys, PublishFailed(w), b);
    DoOk(sys, PublishFailed(w), b);
    NextPrefix(batch);
    assert Rewritten(refused, w, r, row);
    RunKeepsRewritten(refused, later, b, w, r, row);
    var mid := Run(refused, later, b);
    assert BatchOk(mid, mid.open[w]);
    var after := Do(mid, Commit(w), b);
    assert r in mid.open[w].ids && r in mid.rows;
    forall v | v in after.open ensures r !in after.open[v].ids {}
    assert !Locked(after.open, r);
    assert after.rows[r] == row;
  }
}
