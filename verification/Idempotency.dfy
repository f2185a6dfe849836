/**
 The idempotency wrapper: claim the key, run the operation, store its response,
 all in one transaction - for any operation on any domain.
 */
module Idempotency {

  datatype Key = Key(user: int, key: string)

  /** One call. `hash` stands for everything the operation reads of the request; digests are taken as injective. */
  datatype Request = Request(key: Key, hash: int, successStatus: int)

  datatype Response<R> = Response(status: int, body: R)

  /** What the wrapped operation does when it runs: commit a new domain state and answer, or throw. */
  datatype Attempt<S, R> = Done(state: S, body: R) | Threw

  datatype Stored<R> = Processing | Completed(response: Response<R>)
  datatype Record<R> = Record(hash: int, stored: Stored<R>)

  datatype Answer<R> =
    | Ran(response: Response<R>)
    | Replayed(response: Response<R>)
    | UserNotFound
    | KeyReuse
    | KeyInFlight
    | OperationFailed

  datatype State<S, R> = State(users: set<int>, domain: S, records: map<Key, Record<R>>)

  /** A committed attempt answered with a response, fresh or stored. */
  predicate Success<R>(a: Answer<R>) {
    a.Ran? || a.Replayed?
  }

  function Replay<R>(record: Record<R>, hash: int): Answer<R> {
    if record.hash != hash then KeyReuse
    else match record.stored
      case Processing => KeyInFlight
      case Completed(response) => Replayed(response)
  }

  /** runIdempotently, alone: the state it commits and what it answers. */
  function Serve<S, R>(st: State<S, R>, req: Request, op: (S, Request) -> Attempt<S, R>): (State<S, R>, Answer<R>) {
    if req.key.user !in st.users then (st, UserNotFound)
    else if req.key in st.records then (st, Replay(st.records[req.key], req.hash))
    else match op(st.domain, req)
      case Threw => (st, OperationFailed)
      case Done(domain, body) =>
        var response := Response(req.successStatus, body);
        (State(st.users, domain, st.records[req.key := Record(req.hash, Completed(response))]), Ran(response))
  }

  /** The service's own steps on its tables, and the rollback that forgets a failed attempt. */
  class Service<S, R> {
    const users: set<int>
    const op: (S, Request) -> Attempt<S, R>
    var domain: S
    var records: map<Key, Record<R>>

    function Value(): State<S, R>
      reads this
    {
      State(users, domain, records)
    }

    constructor (users: set<int>, domain: S, op: (S, Request) -> Attempt<S, R>)
      ensures Value() == State(users, domain, map[]) && this.op == op
    {
      this.users, this.op, this.domain, this.records := users, op, domain, map[];
    }

    /** INSERT ... ON CONFLICT DO NOTHING RETURNING: null when a committed record has the key. */
    method ClaimKey(key: Key, hash: int) returns (claimed: bool)
      modifies `records
      ensures claimed <==> key !in old(records)
      ensures records == if claimed then old(records)[key := Record(hash, Processing)] else old(records)
    {
      claimed := key !in records;
      if claimed { records := records[key := Record(hash, Processing)]; }
    }

    method RunIdempotently(req: Request) returns (answer: Answer<R>)
      modifies this
      ensures (Value(), answer) == Serve(old(Value()), req, op)
    {
      var savedDomain, savedRecords := domain, records;
      if req.key.user !in users { return UserNotFound; }
      var claimed := ClaimKey(req.key, req.hash);
      if !claimed { return Replay(records[req.key], req.hash); }
      match op(domain, req) {
        case Threw =>
          domain, records := savedDomain, savedRecords;
          return OperationFailed;
        case Done(next, body) =>
          var response := Response(req.successStatus, body);
          domain := next;
          records := records[req.key := Record(req.hash, Completed(response))];
          assert records == savedRecords[req.key := Record(req.hash, Completed(response))];
          return Ran(response);
      }
    }
  }

  // ------------------------------------------------------------- serial calls

  ghost function After<S, R>(st: State<S, R>, reqs: seq<Request>, op: (S, Request) -> Attempt<S, R>): State<S, R>
    decreases |reqs|
  {
    if reqs == [] then st else After(Serve(st, reqs[0], op).0, reqs[1..], op)
  }

  ghost function Answers<S, R>(st: State<S, R>, reqs: seq<Request>, op: (S, Request) -> Attempt<S, R>): (answers: seq<Answer<R>>)
    ensures |answers| == |reqs|
    decreases |reqs|
  {
    if reqs == [] then [] else [Serve(st, reqs[0], op).1] + Answers(Serve(st, reqs[0], op).0, reqs[1..], op)
  }

  /** The requests that count: for each key not yet `done`, the first that the operation carries out. */
  ghost function Winners<S, R>(users: set<int>, domain: S, done: set<Key>, reqs: seq<Request>, op: (S, Request) -> Attempt<S, R>): seq<Request>
    decreases |reqs|
  {
    if reqs == [] then []
    else
      var req := reqs[0];
      if req.key.user !in users || req.key in done || op(domain, req).Threw? then Winners(users, domain, done, reqs[1..], op)
      else [req] + Winners(users, op(domain, req).state, done + {req.key}, reqs[1..], op)
  }

  /** The operation run on each request in turn, with no wrapper at all. */
  ghost function RunBare<S, R>(domain: S, reqs: seq<Request>, op: (S, Request) -> Attempt<S, R>): S
    decreases |reqs|
  {
    if reqs == [] then domain
    else RunBare(if op(domain, reqs[0]).Done? then op(domain, reqs[0]).state else domain, reqs[1..], op)
  }

  /** Duplicates and failures leave no trace: the domain is what running only the winners, unwrapped, makes of it. */
  lemma {:induction false} OnlyWinnersHappened<S, R>(st: State<S, R>, reqs: seq<Request>, op: (S, Request) -> Attempt<S, R>)
    ensures After(st, reqs, op).domain == RunBare(st.domain, Winners(st.users, st.domain, st.records.Keys, reqs, op), op)
    decreases |reqs|
  {
    if reqs != [] {
      var next := Serve(st, reqs[0], op).0;
      OnlyWinnersHappened(next, reqs[1..], op);
      if next != st {
        assert next.records.Keys == st.records.Keys + {reqs[0].key};
        var rest := Winners(next.users, next.domain, next.records.Keys, reqs[1..], op);
        assert ([reqs[0]] + rest)[1..] == rest;
      }
    }
  }

  ghost predicate DistinctKeys(reqs: seq<Request>, done: set<Key>) {
    && (forall i :: 0 <= i < |reqs| ==> reqs[i].key !in done)
    && (forall i, j :: 0 <= i < j < |reqs| ==> reqs[i].key != reqs[j].key)
  }

  /** No two winners share a key, and none has a key already done. */
  lemma {:induction false} WinnersAreDistinct<S, R>(users: set<int>, domain: S, done: set<Key>, reqs: seq<Request>, op: (S, Request) -> Attempt<S, R>)
    ensures DistinctKeys(Winners(users, domain, done, reqs, op), done)
    decreases |reqs|
  {
    if reqs != [] {
      var req := reqs[0];
      if req.key.user !in users || req.key in done || op(domain, req).Threw? {
        WinnersAreDistinct(users, domain, done, reqs[1..], op);
      } else {
        var rest := Winners(users, op(domain, req).state, done + {req.key}, reqs[1..], op);
        WinnersAreDistinct(users, op(domain, req).state, done + {req.key}, reqs[1..], op);
        assert Winners(users, domain, done, reqs, op) == [req] + rest;
        assert forall i :: 0 < i <= |rest| ==> ([req] + rest)[i] == rest[i - 1];
      }
    }
  }

  /** No committed record is still in `processing`. */
  ghost predicate AllCompleted<S, R>(st: State<S, R>) {
    forall k :: k in st.records ==> st.records[k].stored.Completed?
  }

  /** A completed record stands as it is over any later calls. */
  lemma {:induction false} RecordsStand<S, R>(st: State<S, R>, reqs: seq<Request>, op: (S, Request) -> Attempt<S, R>)
    requires AllCompleted(st)
    ensures AllCompleted(After(st, reqs, op))
    ensures forall k :: k in st.records ==> k in After(st, reqs, op).records && After(st, reqs, op).records[k] == st.records[k]
    decreases |reqs|
  {
    if reqs != [] {
      RecordsStand(Serve(st, reqs[0], op).0, reqs[1..], op);
    }
  }

  lemma {:induction false} AnswerAt<S, R>(st: State<S, R>, reqs: seq<Request>, op: (S, Request) -> Attempt<S, R>, i: nat)
    requires i < |reqs|
    ensures Answers(st, reqs, op)[i] == Serve(After(st, reqs[..i], op), reqs[i], op).1
    ensures After(st, reqs[..i + 1], op) == Serve(After(st, reqs[..i], op), reqs[i], op).0
    decreases |reqs|
  {
    if i == 0 {
      assert reqs[..0] == [] && reqs[..1] == [reqs[0]] && [reqs[0]][1..] == [];
      assert After(st, reqs[..1], op) == After(Serve(st, reqs[0], op).0, [], op);
    } else {
      AnswerAt(Serve(st, reqs[0], op).0, reqs[1..], op, i - 1);
      assert reqs[..i][0] == reqs[0] && reqs[..i][1..] == reqs[1..][..i - 1];
      assert reqs[..i + 1][0] == reqs[0] && reqs[..i + 1][1..] == reqs[1..][..i];
    }
  }

  lemma {:induction false} AfterSplits<S, R>(st: State<S, R>, a: seq<Request>, b: seq<Request>, op: (S, Request) -> Attempt<S, R>)
    ensures After(st, a + b, op) == After(After(st, a, op), b, op)
    decreases |a|
  {
    if a == [] {
      assert [] + b == b;
    } else {
      assert (a + b)[1..] == a[1..] + b;
      AfterSplits(Serve(st, a[0], op).0, a[1..], b, op);
    }
  }

  /**
   Every success for one key gives the very same response; only the first may
   have run the operation; and "in flight" is never the answer.
   */
  lemma {:induction false} SameKeySameResponse<S, R>(st: State<S, R>, reqs: seq<Request>, op: (S, Request) -> Attempt<S, R>, i: nat, j: nat)
    requires AllCompleted(st) && i < j < |reqs| && reqs[i].key == reqs[j].key
    requires Success(Answers(st, reqs, op)[i]) && Success(Answers(st, reqs, op)[j])
    ensures Answers(st, reqs, op)[j] == Replayed(Answers(st, reqs, op)[i].response) && reqs[i].hash == reqs[j].hash
  {
    var mid, late := After(st, reqs[..i + 1], op), After(st, reqs[..j], op);
    AnswerAt(st, reqs, op, i);
    AnswerAt(st, reqs, op, j);
    RecordsStand(st, reqs[..i], op);
    RecordsStand(st, reqs[..i + 1], op);
    assert reqs[..j] == reqs[..i + 1] + reqs[i + 1..j];
    AfterSplits(st, reqs[..i + 1], reqs[i + 1..j], op);
    RecordsStand(mid, reqs[i + 1..j], op);
    assert late.records[reqs[i].key] == mid.records[reqs[i].key];
  }

  /** What one call answers: it runs for a known user's unseen key, and says what the operation did. */
  lemma ServeAnswers<S, R>(st: State<S, R>, req: Request, op: (S, Request) -> Attempt<S, R>)
    requires AllCompleted(st)
    ensures var (next, answer) := Serve(st, req, op);
            var unseen := req.key.user in st.users && req.key !in st.records;
            && (answer == UserNotFound <==> req.key.user !in st.users)
            && (answer == OperationFailed <==> unseen && op(st.domain, req).Threw?)
            && (answer.Ran? <==> unseen && op(st.domain, req).Done?)
            && (answer.Ran? ==>
                  && answer.response == Response(req.successStatus, op(st.domain, req).body)
                  && next.domain == op(st.domain, req).state
                  && next.records == st.records[req.key := Record(req.hash, Completed(answer.response))])
            && (!answer.Ran? ==> next == st)
  {
  }

  /**
   Once a request has run, every later one with its key is answered: the same
   response again exactly when it is the same request, and a refusal of the key
   exactly when it is another.
   */
  lemma {:induction false} RetryIsAnswered<S, R>(st: State<S, R>, reqs: seq<Request>, op: (S, Request) -> Attempt<S, R>, i: nat, j: nat)
    requires AllCompleted(st) && i < j < |reqs| && reqs[i].key == reqs[j].key && Answers(st, reqs, op)[i].Ran?
    ensures Answers(st, reqs, op)[j] == Replayed(Answers(st, reqs, op)[i].response) <==> reqs[j].hash == reqs[i].hash
    ensures Answers(st, reqs, op)[j] == KeyReuse <==> reqs[j].hash != reqs[i].hash
  {
    var early, mid, late := After(st, reqs[..i], op), After(st, reqs[..i + 1], op), After(st, reqs[..j], op);
    AnswerAt(st, reqs, op, i);
    AnswerAt(st, reqs, op, j);
    RecordsStand(st, reqs[..i], op);
    RecordsStand(st, reqs[..i + 1], op);
    ServeAnswers(early, reqs[i], op);
    assert reqs[..j] == reqs[..i + 1] + reqs[i + 1..j];
    AfterSplits(st, reqs[..i + 1], reqs[i + 1..j], op);
    RecordsStand(mid, reqs[i + 1..j], op);
    assert late.records[reqs[i].key] == mid.records[reqs[i].key];
    UsersStand(st, reqs[..i], op);
    UsersStand(st, reqs[..j], op);
  }

  lemma {:induction false} UsersStand<S, R>(st: State<S, R>, reqs: seq<Request>, op: (S, Request) -> Attempt<S, R>)
    ensures After(st, reqs, op).users == st.users
    decreases |reqs|
  {
    if reqs != [] {
      UsersStand(Serve(st, reqs[0], op).0, reqs[1..], op);
    }
  }

  lemma {:induction false} NeverInFlight<S, R>(st: State<S, R>, reqs: seq<Request>, op: (S, Request) -> Attempt<S, R>, i: nat)
    requires AllCompleted(st) && i < |reqs|
    ensures Answers(st, reqs, op)[i] != KeyInFlight
  {
    AnswerAt(st, reqs, op, i);
    RecordsStand(st, reqs[..i], op);
  }

  // -------------------------------------------------------- concurrent requests

  /** Transactions in progress, each having claimed its key but shown it to nobody. */
  datatype System<S, R> = System(committed: State<S, R>, open: map<int, Request>)

  datatype Event =
    | Arrive(tx: int, req: Request)
    | Finish(tx: int)
    | Crash(tx: int)

  /** The insert waits while another open transaction has the key. */
  ghost predicate Blocked<S, R>(sys: System<S, R>, req: Request) {
    exists t :: t in sys.open && sys.open[t].key == req.key
  }

  ghost predicate Enabled<S, R>(sys: System<S, R>, e: Event) {
    match e
    case Arrive(tx, req) => tx !in sys.open && (req.key.user in sys.committed.users ==> !Blocked(sys, req))
    case Finish(tx) => tx in sys.open
    case Crash(tx) => tx in sys.open
  }

  /** Whether this event ends its transaction with an answer, and for which request. */
  ghost predicate Ends<S, R>(sys: System<S, R>, e: Event)
    requires Enabled(sys, e)
  {
    match e
    case Arrive(_, req) => req.key.user !in sys.committed.users || req.key in sys.committed.records
    case Finish(_) => true
    case Crash(_) => false
  }

  ghost function EndedRequest<S, R>(sys: System<S, R>, e: Event): Request
    requires Enabled(sys, e) && !e.Crash?
  {
    match e
    case Arrive(_, req) => req
    case Finish(tx) => sys.open[tx]
  }

  /** The operation runs against what is committed when its transaction ends: its own row locks see to that. */
  ghost function StepTo<S, R>(sys: System<S, R>, e: Event, op: (S, Request) -> Attempt<S, R>): System<S, R>
    requires Enabled(sys, e)
  {
    match e
    case Arrive(tx, req) =>
      if Ends(sys, e) then sys else sys.(open := sys.open[tx := req])
    case Finish(tx) =>
      var req := sys.open[tx];
      var st := sys.committed;
      System(match op(st.domain, req)
             case Threw => st
             case Done(domain, body) =>
               State(st.users, domain, st.records[req.key := Record(req.hash, Completed(Response(req.successStatus, body)))]),
             sys.open - {tx})
    case Crash(tx) => sys.(open := sys.open - {tx})
  }

  ghost function AnswerTo<S, R>(sys: System<S, R>, e: Event, op: (S, Request) -> Attempt<S, R>): Answer<R>
    requires Enabled(sys, e) && Ends(sys, e)
  {
    match e
    case Arrive(_, req) =>
      if req.key.user !in sys.committed.users then UserNotFound else Replay(sys.committed.records[req.key], req.hash)
    case Finish(tx) =>
      var req := sys.open[tx];
      match op(sys.committed.domain, req)
      case Threw => OperationFailed
      case Done(_, body) => Ran(Response(req.successStatus, body))
  }

  /** The requests answered, in the order their transactions ended. */
  ghost function Ended<S, R>(sys: System<S, R>, events: seq<Event>, op: (S, Request) -> Attempt<S, R>): seq<Request>
    decreases |events|
  {
    if events == [] then []
    else if !Enabled(sys, events[0]) then Ended(sys, events[1..], op)
    else
      var rest := Ended(StepTo(sys, events[0], op), events[1..], op);
      if Ends(sys, events[0]) then [EndedRequest(sys, events[0])] + rest else rest
  }

  ghost function EndAnswers<S, R>(sys: System<S, R>, events: seq<Event>, op: (S, Request) -> Attempt<S, R>): seq<Answer<R>>
    decreases |events|
  {
    if events == [] then []
    else if !Enabled(sys, events[0]) then EndAnswers(sys, events[1..], op)
    else
      var rest := EndAnswers(StepTo(sys, events[0], op), events[1..], op);
      if Ends(sys, events[0]) then [AnswerTo(sys, events[0], op)] + rest else rest
  }

  ghost function Interleave<S, R>(sys: System<S, R>, events: seq<Event>, op: (S, Request) -> Attempt<S, R>): System<S, R>
    decreases |events|
  {
    if events == [] then sys
    else Interleave(if Enabled(sys, events[0]) then StepTo(sys, events[0], op) else sys, events[1..], op)
  }

  /** Each open transaction is alone with its key, and nobody has committed it. */
  ghost predicate Claimed<S, R>(sys: System<S, R>) {
    && (forall t :: t in sys.open ==> sys.open[t].key !in sys.committed.records && sys.open[t].key.user in sys.committed.users)
    && (forall t, u :: t in sys.open && u in sys.open && sys.open[t].key == sys.open[u].key ==> t == u)
  }

  lemma {:induction false} StepIsServe<S, R>(sys: System<S, R>, e: Event, op: (S, Request) -> Attempt<S, R>)
    requires Claimed(sys) && Enabled(sys, e)
    ensures Claimed(StepTo(sys, e, op))
    ensures if Ends(sys, e)
            then (StepTo(sys, e, op).committed, AnswerTo(sys, e, op)) == Serve(sys.committed, EndedRequest(sys, e), op)
            else StepTo(sys, e, op).committed == sys.committed
  {
  }

  /**
   Interleaved transactions, blocking on each other's keys and crashing anywhere,
   commit and answer exactly what the same requests would one at a time, in the
   order their transactions ended.
   */
  lemma {:induction false} InterleavingIsSerial<S, R>(sys: System<S, R>, events: seq<Event>, op: (S, Request) -> Attempt<S, R>)
    requires Claimed(sys)
    ensures Interleave(sys, events, op).committed == After(sys.committed, Ended(sys, events, op), op)
    ensures EndAnswers(sys, events, op) == Answers(sys.committed, Ended(sys, events, op), op)
    decreases |events|
  {
    hide Enabled, StepTo, AnswerTo, EndedRequest, Serve, Claimed, Ends;
    if events != [] {
      if !Enabled(sys, events[0]) {
        InterleavingIsSerial(sys, events[1..], op);
      } else {
        var next := StepTo(sys, events[0], op);
        StepIsServe(sys, events[0], op);
        InterleavingIsSerial(next, events[1..], op);
        if Ends(sys, events[0]) {
          var rest := Ended(next, events[1..], op);
          assert forall req :: ([req] + rest)[1..] == rest;
        }
      }
    }
  }

  /** So under any interleaving too, no committed record is left in `processing`, and no answer says one was. */
  lemma {:induction false} ConcurrentNeverInFlight<S, R>(sys: System<S, R>, events: seq<Event>, op: (S, Request) -> Attempt<S, R>)
    requires Claimed(sys) && AllCompleted(sys.committed)
    ensures AllCompleted(Interleave(sys, events, op).committed)
    ensures forall i :: 0 <= i < |EndAnswers(sys, events, op)| ==> EndAnswers(sys, events, op)[i] != KeyInFlight
  {
    InterleavingIsSerial(sys, events, op);
    var reqs := Ended(sys, events, op);
    RecordsStand(sys.committed, reqs, op);
    forall i | 0 <= i < |reqs| ensures Answers(sys.committed, reqs, op)[i] != KeyInFlight {
      NeverInFlight(sys.committed, reqs, op, i);
    }
  }

  /** And a retry is answered the same way whatever runs beside it: after the answer that ran, by what it asks. */
  lemma {:induction false} ConcurrentRetryIsAnswered<S, R>(sys: System<S, R>, events: seq<Event>, op: (S, Request) -> Attempt<S, R>, i: nat, j: nat)
    requires Claimed(sys) && AllCompleted(sys.committed)
    requires var reqs, answers := Ended(sys, events, op), EndAnswers(sys, events, op);
             i < j < |reqs| && |answers| == |reqs| && reqs[i].key == reqs[j].key && answers[i].Ran?
    ensures var reqs, answers := Ended(sys, events, op), EndAnswers(sys, events, op);
            && |answers| == |reqs|
            && (answers[j] == Replayed(answers[i].response) <==> reqs[j].hash == reqs[i].hash)
            && (answers[j] == KeyReuse <==> reqs[j].hash != reqs[i].hash)
  {
    hide Ended, EndAnswers;
    InterleavingIsSerial(sys, events, op);
    RetryIsAnswered(sys.committed, Ended(sys, events, op), op, i, j);
  }
}
