/** Refresh-token rotation: one use each, one chain a login, and what detecting reuse really revokes. */
module RefreshTokens {
  import opened Rows
  import opened Schema
  import opened Wrappers

  type TokenId = int

  /** `issued` counts the tokens written before this one; `from` is rotated_from. */
  datatype Token = Token(user: UserId, expiresAt: Instant, revoked: bool, from: Option<TokenId>, issued: nat)

  type Tokens = map<TokenId, Token>

  datatype Outcome = Rotated(successor: TokenId) | Reused(user: UserId) | Rejected | IdTaken

  // --------------------------------------------------------------- transactions

  function Insert(tokens: Tokens, id: TokenId, user: UserId, from: Option<TokenId>, ttl: int, now: Instant): Tokens {
    tokens[id := Token(user, now + ttl, false, from, |tokens|)]
  }

  function Revoke(tokens: Tokens, id: TokenId): Tokens {
    if id in tokens && !tokens[id].revoked then tokens[id := tokens[id].(revoked := true)] else tokens
  }

  /** UPDATE ... WHERE user_id = $1 AND revoked_at IS NULL, over the rows its snapshot can see. */
  function RevokeSeen(tokens: Tokens, seen: set<TokenId>): Tokens {
    map t | t in tokens :: if t in seen then tokens[t].(revoked := true) else tokens[t]
  }

  function LiveOf(tokens: Tokens, user: UserId): set<TokenId> {
    set t | t in tokens && tokens[t].user == user && !tokens[t].revoked
  }

  function Rotate(users: set<UserId>, tokens: Tokens, t: TokenId, next: TokenId, ttl: int, now: Instant): (Tokens, Outcome) {
    if t !in tokens then (tokens, Rejected)
    else if tokens[t].revoked then (tokens, Reused(tokens[t].user))
    else if tokens[t].expiresAt <= now then (tokens, Rejected)
    else if tokens[t].user !in users then (tokens, Rejected)
    else if next in tokens then (tokens, IdTaken)
    else (Insert(Revoke(tokens, t), next, tokens[t].user, Some(t), ttl, now), Rotated(next))
  }

  class AuthStore {
    const users: set<UserId>
    var tokens: Tokens

    constructor (users: set<UserId>)
      ensures this.users == users && tokens == map[]
    {
      this.users, tokens := users, map[];
    }

    method Login(user: UserId, next: TokenId, ttl: int, now: Instant) returns (ok: bool)
      modifies `tokens
      ensures ok <==> user in users && next !in old(tokens)
      ensures tokens == if ok then Insert(old(tokens), next, user, None, ttl, now) else old(tokens)
    {
      ok := user in users && next !in tokens;
      if ok { tokens := Insert(tokens, next, user, None, ttl, now); }
    }

    /** The rotating transaction of refresh: it reports what it found, so that reuse can be acted on after it commits. */
    method Refresh(t: TokenId, next: TokenId, ttl: int, now: Instant) returns (outcome: Outcome)
      modifies `tokens
      ensures (tokens, outcome) == Rotate(users, old(tokens), t, next, ttl, now)
    {
      if t !in tokens { return Rejected; }
      var existing := tokens[t];
      if existing.revoked { return Reused(existing.user); }
      if existing.expiresAt <= now { return Rejected; }
      if existing.user !in users { return Rejected; }
      if next in tokens { return IdTaken; }
      tokens := Revoke(tokens, t);
      tokens := Insert(tokens, next, existing.user, Some(t), ttl, now);
      return Rotated(next);
    }

    method Logout(t: TokenId)
      modifies `tokens
      ensures tokens == Revoke(old(tokens), t)
    {
      if t in tokens && !tokens[t].revoked { tokens := tokens[t := tokens[t].(revoked := true)]; }
    }

    /** revokeAllUserRefreshTokens with nothing running beside it. */
    method RevokeAll(user: UserId) returns (count: nat)
      modifies `tokens
      ensures tokens == RevokeSeen(old(tokens), LiveOf(old(tokens), user))
      ensures count == |LiveOf(old(tokens), user)|
      ensures LiveOf(tokens, user) == {}
    {
      ghost var before := tokens;
      var seen := LiveOf(tokens, user);
      var left := seen;
      while left != {}
        invariant forall t :: t in tokens <==> t in before
        invariant forall t :: t in left ==> t in seen
        invariant forall t :: t in tokens ==> tokens[t] == if t in seen && t !in left then before[t].(revoked := true) else before[t]
      {
        var t := AnyOf(left);
        left := left - {t};
        tokens := tokens[t := tokens[t].(revoked := true)];
      }
      assert forall t :: t in tokens <==> t in RevokeSeen(before, seen);
      assert forall t :: t in tokens ==> tokens[t] == RevokeSeen(before, seen)[t];
      assert tokens == RevokeSeen(before, seen);
      assert forall t :: t !in LiveOf(tokens, user);
      count := |seen|;
    }
  }

  // ------------------------------------------------------------------ interleaving

  /** A revocation decided on: not yet begun, or running with the rows its statement saw. */
  datatype Sweep = Decided(user: UserId) | Running(user: UserId, seen: set<TokenId>)

  datatype System = System(users: set<UserId>, tokens: Tokens, sweeps: map<int, Sweep>)

  /** Transactions commit in any order; a sweep's start and commit are apart, and its process may die before either. */
  datatype Event =
    | Login(user: UserId, next: TokenId, ttl: int, now: Instant)
    | Refresh(token: TokenId, next: TokenId, ttl: int, now: Instant, sweep: int)
    | Logout(token: TokenId)
    | SweepStart(sweep: int)
    | SweepCommit(sweep: int)
    | SweepLost(sweep: int)

  function Step(sys: System, e: Event): System {
    match e
    case Login(user, next, ttl, now) =>
      if user in sys.users && next !in sys.tokens then sys.(tokens := Insert(sys.tokens, next, user, None, ttl, now)) else sys
    case Refresh(t, next, ttl, now, sweep) =>
      var (tokens, outcome) := Rotate(sys.users, sys.tokens, t, next, ttl, now);
      if outcome.Reused? && sweep !in sys.sweeps then sys.(sweeps := sys.sweeps[sweep := Decided(outcome.user)])
      else sys.(tokens := tokens)
    case Logout(t) => sys.(tokens := Revoke(sys.tokens, t))
    case SweepStart(s) =>
      if s in sys.sweeps && sys.sweeps[s].Decided?
      then sys.(sweeps := sys.sweeps[s := Running(sys.sweeps[s].user, LiveOf(sys.tokens, sys.sweeps[s].user))])
      else sys
    case SweepCommit(s) =>
      if s in sys.sweeps && sys.sweeps[s].Running?
      then System(sys.users, RevokeSeen(sys.tokens, sys.sweeps[s].seen), sys.sweeps - {s})
      else sys
    case SweepLost(s) => sys.(sweeps := sys.sweeps - {s})
  }

  function Run(sys: System, events: seq<Event>): System
    decreases |events|
  {
    if events == [] then sys else Run(Step(sys, events[0]), events[1..])
  }

  // -------------------------------------------------------------------- invariant

  /** Each link points back to an older, spent token of the same user, which no other link points to. */
  ghost predicate Chained(tokens: Tokens) {
    && (forall t :: t in tokens ==> tokens[t].issued < |tokens|)
    && (forall t :: t in tokens && tokens[t].from.Some? ==>
          var p := tokens[t].from.value;
          p in tokens && tokens[p].revoked && tokens[p].user == tokens[t].user && tokens[p].issued < tokens[t].issued)
    && (forall t, u :: t in tokens && u in tokens && tokens[t].from.Some? && tokens[t].from == tokens[u].from ==> t == u)
  }

  /** A revoked token stays revoked, and nothing else of a token changes. */
  ghost predicate Ages(before: Tokens, after: Tokens) {
    forall t :: t in before ==>
      && t in after && after[t] == before[t].(revoked := after[t].revoked)
      && (before[t].revoked ==> after[t].revoked)
  }

  lemma InsertChained(tokens: Tokens, id: TokenId, user: UserId, from: Option<TokenId>, ttl: int, now: Instant)
    requires Chained(tokens) && id !in tokens
    requires from.Some? ==> from.value in tokens && tokens[from.value].revoked && tokens[from.value].user == user
                            && forall t :: t in tokens ==> tokens[t].from != from
    ensures Chained(Insert(tokens, id, user, from, ttl, now)) && Ages(tokens, Insert(tokens, id, user, from, ttl, now))
  {
    var after := Insert(tokens, id, user, from, ttl, now);
    assert after.Keys == tokens.Keys + {id};
    assert |after| == |tokens| + 1;
  }

  lemma RevokingChained(tokens: Tokens, after: Tokens)
    requires Chained(tokens) && (forall t :: t in after <==> t in tokens) && Ages(tokens, after)
    ensures Chained(after)
  {
    assert forall t :: t in after.Keys <==> t in tokens.Keys;
    assert after.Keys == tokens.Keys;
    assert |after| == |tokens|;
  }

  lemma RotateChained(users: set<UserId>, tokens: Tokens, t: TokenId, next: TokenId, ttl: int, now: Instant)
    requires Chained(tokens)
    ensures Chained(Rotate(users, tokens, t, next, ttl, now).0) && Ages(tokens, Rotate(users, tokens, t, next, ttl, now).0)
  {
    if Rotate(users, tokens, t, next, ttl, now).1.Rotated? {
      var spent := Revoke(tokens, t);
      RevokingChained(tokens, spent);
      forall u | u in spent ensures spent[u].from != Some(t) { assert !tokens[t].revoked; }
      InsertChained(spent, next, tokens[t].user, Some(t), ttl, now);
    }
  }

  lemma StepChained(sys: System, e: Event)
    requires Chained(sys.tokens)
    ensures Chained(Step(sys, e).tokens) && Ages(sys.tokens, Step(sys, e).tokens)
  {
    hide Chained, Rotate, Insert;
    match e
    case Login(user, next, ttl, now) =>
      if user in sys.users && next !in sys.tokens { InsertChained(sys.tokens, next, user, None, ttl, now); }
    case Refresh(t, next, ttl, now, _) => RotateChained(sys.users, sys.tokens, t, next, ttl, now);
    case Logout(_) => RevokingChained(sys.tokens, Step(sys, e).tokens);
    case SweepCommit(_) => RevokingChained(sys.tokens, Step(sys, e).tokens);
    case _ =>
  }

  lemma AgesTrans(a: Tokens, b: Tokens, c: Tokens)
    requires Ages(a, b) && Ages(b, c)
    ensures Ages(a, c)
  {
  }

  lemma {:induction false} RunChained(sys: System, events: seq<Event>)
    requires Chained(sys.tokens)
    ensures Chained(Run(sys, events).tokens) && Ages(sys.tokens, Run(sys, events).tokens)
    decreases |events|
  {
    hide Chained, Ages, Step;
    if events == [] {
      AgesRefl(sys.tokens);
    } else {
      StepChained(sys, events[0]);
      RunChained(Step(sys, events[0]), events[1..]);
      AgesTrans(sys.tokens, Step(sys, events[0]).tokens, Run(sys, events).tokens);
    }
  }

  lemma AgesRefl(tokens: Tokens)
    ensures Ages(tokens, tokens)
  {
  }

  // ---------------------------------------------------------------- one chain a login

  /** How many rotations since the login. */
  ghost function Depth(tokens: Tokens, t: TokenId): nat
    requires Chained(tokens) && t in tokens
    decreases tokens[t].issued
  {
    if tokens[t].from.None? then 0 else 1 + Depth(tokens, tokens[t].from.value)
  }

  /** The token the login issued. */
  ghost function Root(tokens: Tokens, t: TokenId): (r: TokenId)
    requires Chained(tokens) && t in tokens
    ensures r in tokens && tokens[r].from.None? && tokens[r].user == tokens[t].user
    decreases tokens[t].issued
  {
    if tokens[t].from.None? then t else Root(tokens, tokens[t].from.value)
  }

  /** A login's tokens are a chain: no two at the same depth. */
  lemma {:induction false} OneChain(tokens: Tokens, t: TokenId, u: TokenId)
    requires Chained(tokens) && t in tokens && u in tokens
    requires Root(tokens, t) == Root(tokens, u) && Depth(tokens, t) == Depth(tokens, u)
    ensures t == u
    decreases tokens[t].issued
  {
    if tokens[t].from.Some? {
      OneChain(tokens, tokens[t].from.value, tokens[u].from.value);
    }
  }

  /** Only the last link of a chain can still be live. */
  lemma {:induction false} OnlyLastIsLive(tokens: Tokens, t: TokenId, u: TokenId)
    requires Chained(tokens) && t in tokens && u in tokens && Root(tokens, t) == Root(tokens, u)
    requires !tokens[t].revoked
    ensures Depth(tokens, u) <= Depth(tokens, t)
    decreases tokens[u].issued
  {
    if Depth(tokens, u) > Depth(tokens, t) {
      var p := tokens[u].from.value;
      OnlyLastIsLive(tokens, t, p);
      OneChain(tokens, t, p);
    }
  }

  /**
   Over any interleaving of logins, refreshes, logouts and reuse handling: a token
   is rotated at most once, a login's tokens form one chain, and at most its last
   link is live.
   */
  lemma RotationIsAChain(users: set<UserId>, events: seq<Event>, t: TokenId, u: TokenId)
    requires var tokens := Run(System(users, map[], map[]), events).tokens; t in tokens && u in tokens
    ensures var tokens := Run(System(users, map[], map[]), events).tokens;
            && Chained(tokens)
            && (tokens[t].from.Some? && tokens[t].from == tokens[u].from ==> t == u)
            && (Root(tokens, t) == Root(tokens, u) && Depth(tokens, t) == Depth(tokens, u) ==> t == u)
            && (Root(tokens, t) == Root(tokens, u) && !tokens[t].revoked && !tokens[u].revoked ==> t == u)
  {
    hide Run;
    RunChained(System(users, map[], map[]), events);
    var tokens := Run(System(users, map[], map[]), events).tokens;
    if Root(tokens, t) == Root(tokens, u) && !tokens[t].revoked && !tokens[u].revoked {
      OnlyLastIsLive(tokens, t, u);
      OnlyLastIsLive(tokens, u, t);
      OneChain(tokens, t, u);
    }
    if Root(tokens, t) == Root(tokens, u) && Depth(tokens, t) == Depth(tokens, u) {
      OneChain(tokens, t, u);
    }
  }

  // ------------------------------------------------------------- what refreshing does

  /**
   A refresh under a fresh id rotates exactly an unrevoked, unexpired token of a user
   who still exists: it spends that token and stores its successor, the same user's,
   live until `now + ttl`. A revoked token is reuse, expired or not; anything else is
   rejected; and neither changes a token.
   */
  lemma RefreshVerdict(users: set<UserId>, tokens: Tokens, t: TokenId, next: TokenId, ttl: int, now: Instant)
    requires next !in tokens
    ensures var (after, outcome) := Rotate(users, tokens, t, next, ttl, now);
            var good := t in tokens && !tokens[t].revoked && now < tokens[t].expiresAt && tokens[t].user in users;
            && (outcome == Rotated(next) <==> good)
            && (good ==>
                  && (forall u :: u in after <==> u in tokens || u == next)
                  && (forall u :: u in tokens && u != t ==> after[u] == tokens[u])
                  && after[t] == tokens[t].(revoked := true)
                  && after[next].user == tokens[t].user && after[next].expiresAt == now + ttl
                  && !after[next].revoked && after[next].from == Some(t))
            && (!good ==>
                  && after == tokens
                  && outcome == if t in tokens && tokens[t].revoked then Reused(tokens[t].user) else Rejected)
  {
  }

  /** A login stores a token of the user's, live until `now + ttl`, and touches no other. */
  lemma LoginStores(tokens: Tokens, id: TokenId, user: UserId, ttl: int, now: Instant)
    requires id !in tokens
    ensures var after := Insert(tokens, id, user, None, ttl, now);
            && (forall u :: u in after <==> u in tokens || u == id)
            && (forall u :: u in tokens ==> after[u] == tokens[u])
            && after[id].user == user && after[id].expiresAt == now + ttl && !after[id].revoked && after[id].from == None
  {
  }

  /** After a logout the token is not live, and no other token is touched. */
  lemma LogoutRevokes(tokens: Tokens, t: TokenId)
    ensures var after := Revoke(tokens, t);
            && (forall u :: u in after <==> u in tokens)
            && (forall u :: u in tokens && u != t ==> after[u] == tokens[u])
            && (t in tokens ==> after[t] == tokens[t].(revoked := true))
  {
  }

  /** Event i was the refresh that turned `p` into `u`, in time. */
  ghost predicate RotatedAt(sys: System, events: seq<Event>, i: nat, p: TokenId, u: TokenId)
    requires i < |events|
  {
    var e, here := events[i], Run(sys, events[..i]);
    && e.Refresh? && e.token == p && e.next == u && u !in here.tokens
    && p in here.tokens && !here.tokens[p].revoked && e.now < here.tokens[p].expiresAt && here.tokens[p].user in here.users
  }

  lemma NewLinkIsRotated(sys: System, e: Event, u: TokenId)
    requires u in Step(sys, e).tokens && u !in sys.tokens && Step(sys, e).tokens[u].from.Some?
    ensures var p := Step(sys, e).tokens[u].from.value;
            && e.Refresh? && e.token == p && e.next == u
            && p in sys.tokens && !sys.tokens[p].revoked && e.now < sys.tokens[p].expiresAt && sys.tokens[p].user in sys.users
  {
    match e
    case Refresh(t, next, ttl, now, _) => if next !in sys.tokens { RefreshVerdict(sys.users, sys.tokens, t, next, ttl, now); }
    case _ =>
  }

  /** Over any events, every token a rotation wrote was written while its ancestor was unrevoked, unexpired and its user known. */
  lemma {:induction false} RotatedInTime(sys: System, events: seq<Event>, u: TokenId) returns (i: nat)
    requires Chained(sys.tokens) && u !in sys.tokens
    requires u in Run(sys, events).tokens && Run(sys, events).tokens[u].from.Some?
    ensures i < |events| && RotatedAt(sys, events, i, Run(sys, events).tokens[u].from.value, u)
    ensures Run(sys, events).tokens[u].expiresAt == events[i].now + events[i].ttl
    decreases |events|
  {
    hide Chained, Step;
    var d := Step(sys, events[0]);
    StepChained(sys, events[0]);
    assert Run(d, events[1..]) == Run(sys, events);
    if u in d.tokens {
      RunChained(d, events[1..]);
      NewLinkIsRotated(sys, events[0], u);
      NewExpiry(sys, events[0], u);
      i := 0;
      assert events[..0] == [];
    } else {
      var j := RotatedInTime(d, events[1..], u);
      i := j + 1;
      assert events[..i][0] == events[0] && events[..i][1..] == events[1..][..j];
    }
  }

  lemma NewExpiry(sys: System, e: Event, u: TokenId)
    requires u in Step(sys, e).tokens && u !in sys.tokens
    ensures (e.Login? || e.Refresh?) && Step(sys, e).tokens[u].expiresAt == e.now + e.ttl
  {
  }

  // ------------------------------------------------------------------- reuse

  /** A token works once: presented again after it was rotated, however much later, it is always reuse. */
  lemma RotatedIsReusedEverAfter(sys: System, t: TokenId, next: TokenId, ttl: int, now: Instant, sweep: int, events: seq<Event>,
                                 again: TokenId, later: Instant)
    requires Chained(sys.tokens) && Rotate(sys.users, sys.tokens, t, next, ttl, now).1.Rotated?
    ensures var d := Run(Step(sys, Refresh(t, next, ttl, now, sweep)), events);
            Rotate(d.users, d.tokens, t, again, ttl, later).1 == Reused(sys.tokens[t].user)
  {
    hide Run, Chained;
    var mid := Step(sys, Refresh(t, next, ttl, now, sweep));
    StepChained(sys, Refresh(t, next, ttl, now, sweep));
    RunChained(mid, events);
    assert t in mid.tokens && mid.tokens[t].revoked;
  }

  /** Tokens issued after the sweep's statement began. */
  ghost predicate IssuedSince(tokens: Tokens, mark: nat, t: TokenId) {
    t in tokens && tokens[t].issued >= mark
  }

  lemma {:induction false} IssuedLater(sys: System, events: seq<Event>)
    requires Chained(sys.tokens)
    ensures forall t :: t in Run(sys, events).tokens && t !in sys.tokens ==> IssuedSince(Run(sys, events).tokens, |sys.tokens|, t)
    ensures |Run(sys, events).tokens| >= |sys.tokens|
    decreases |events|
  {
    hide Rotate, Chained;
    if events != [] {
      var d := Step(sys, events[0]);
      StepChained(sys, events[0]);
      StepIssues(sys, events[0]);
      IssuedLater(d, events[1..]);
      RunChained(d, events[1..]);
      forall t | t in Run(sys, events).tokens && t !in sys.tokens ensures IssuedSince(Run(sys, events).tokens, |sys.tokens|, t) {
        if t in d.tokens {
          assert Run(sys, events).tokens[t] == d.tokens[t].(revoked := Run(sys, events).tokens[t].revoked);
        } else {
          assert IssuedSince(Run(sys, events).tokens, |d.tokens|, t);
        }
      }
    }
  }

  lemma StepIssues(sys: System, e: Event)
    ensures forall t :: t in Step(sys, e).tokens && t !in sys.tokens ==> Step(sys, e).tokens[t].issued == |sys.tokens|
    ensures |Step(sys, e).tokens| >= |sys.tokens|
  {
    var d := Step(sys, e);
    assert forall t :: t in sys.tokens ==> t in d.tokens;
    SubsetSize(sys.tokens.Keys, d.tokens.Keys);
    if e.Refresh? {
      assert |Revoke(sys.tokens, e.token)| == |sys.tokens| by { assert Revoke(sys.tokens, e.token).Keys == sys.tokens.Keys; }
    }
  }

  lemma {:induction false} SubsetSize<T>(a: set<T>, b: set<T>)
    requires forall x :: x in a ==> x in b
    ensures |a| <= |b|
    decreases |a|
  {
    if a != {} {
      var x := Pick(a);
      SubsetSize(a - {x}, b - {x});
    }
  }

  /**
   When a sweep commits, every token of its user that existed when its statement
   began is revoked - one rotated in between detection and that moment included -
   and a token of the user still live then was issued while the sweep was running.
   */
  lemma SweepRevokes(sys: System, sweep: int, events: seq<Event>, t: TokenId)
    requires Chained(sys.tokens) && sweep in sys.sweeps && sys.sweeps[sweep].Decided?
    requires var began := Step(sys, SweepStart(sweep)); var ended := Run(began, events);
             && sweep in ended.sweeps && ended.sweeps[sweep] == began.sweeps[sweep]
             && t in Step(ended, SweepCommit(sweep)).tokens
             && Step(ended, SweepCommit(sweep)).tokens[t].user == sys.sweeps[sweep].user
    ensures var after := Step(Run(Step(sys, SweepStart(sweep)), events), SweepCommit(sweep)).tokens;
            && (t in sys.tokens ==> after[t].revoked)
            && (!after[t].revoked ==> after[t].issued >= |sys.tokens|)
  {
    hide Run, Chained;
    var began := Step(sys, SweepStart(sweep));
    var ended := Run(began, events);
    RunChained(began, events);
    IssuedLater(began, events);
    if t in sys.tokens {
      assert sys.tokens[t].revoked || t in LiveOf(sys.tokens, sys.sweeps[sweep].user);
    } else {
      assert IssuedSince(ended.tokens, |sys.tokens|, t);
    }
  }

  /** The token this event writes, for whom. */
  function Issued(sys: System, e: Event): Option<TokenId> {
    match e
    case Login(user, next, _, _) => if user in sys.users && next !in sys.tokens then Some(next) else None
    case Refresh(t, next, ttl, now, _) => if Rotate(sys.users, sys.tokens, t, next, ttl, now).1.Rotated? then Some(next) else None
    case _ => None
  }

  /** This event spends or revokes the token: it is rotated, logged out, or seen by a sweep now committing. */
  predicate Spends(sys: System, e: Event, t: TokenId) {
    match e
    case Refresh(u, next, ttl, now, _) => u == t && Rotate(sys.users, sys.tokens, u, next, ttl, now).1.Rotated?
    case Logout(u) => u == t
    case SweepCommit(s) => s in sys.sweeps && sys.sweeps[s].Running? && t in sys.sweeps[s].seen
    case _ => false
  }

  /** Nothing in the segment spends it. */
  predicate Unspent(sys: System, events: seq<Event>, t: TokenId)
    decreases |events|
  {
    events == [] || (!Spends(sys, events[0], t) && Unspent(Step(sys, events[0]), events[1..], t))
  }

  /** The i-th event of the segment logs the user in or rotates a token of theirs, and nothing after it spends the token it wrote. */
  ghost predicate IssuedAndKept(sys: System, events: seq<Event>, user: UserId, i: int, t: TokenId) {
    && 0 <= i < |events|
    && var here := Run(sys, events[..i]);
       && Issued(here, events[i]) == Some(t)
       && Step(here, events[i]).tokens[t].user == user
       && Unspent(Step(here, events[i]), events[i + 1..], t)
  }

  lemma IssuedIsStored(sys: System, e: Event, t: TokenId)
    ensures Issued(sys, e) == Some(t) ==> t !in sys.tokens && t in Step(sys, e).tokens && !Step(sys, e).tokens[t].revoked
    ensures t !in sys.tokens && t in Step(sys, e).tokens ==> Issued(sys, e) == Some(t)
    ensures t in sys.tokens && !sys.tokens[t].revoked ==> t in Step(sys, e).tokens && (Step(sys, e).tokens[t].revoked <==> Spends(sys, e, t))
  {
  }

  lemma {:induction false} LiveIffUnspent(sys: System, events: seq<Event>, t: TokenId)
    requires Chained(sys.tokens) && t in sys.tokens && !sys.tokens[t].revoked
    ensures t in Run(sys, events).tokens && (!Run(sys, events).tokens[t].revoked <==> Unspent(sys, events, t))
    decreases |events|
  {
    hide Step, Spends, Chained, Issued;
    if events != [] {
      IssuedIsStored(sys, events[0], t);
      StepChained(sys, events[0]);
      if Spends(sys, events[0], t) {
        RunChained(Step(sys, events[0]), events[1..]);
      } else {
        LiveIffUnspent(Step(sys, events[0]), events[1..], t);
      }
    }
  }

  /** A token live after a segment and not there before was written in it and not spent since. */
  lemma {:induction false} LiveWasIssued(sys: System, events: seq<Event>, t: TokenId) returns (i: int)
    requires Chained(sys.tokens) && t !in sys.tokens && t in Run(sys, events).tokens && !Run(sys, events).tokens[t].revoked
    ensures IssuedAndKept(sys, events, Run(sys, events).tokens[t].user, i, t)
    decreases |events|
  {
    hide Step, Spends, Chained, Issued;
    var d := Step(sys, events[0]);
    StepChained(sys, events[0]);
    IssuedIsStored(sys, events[0], t);
    if t in d.tokens {
      i := 0;
      assert events[..0] == [];
      LiveIffUnspent(d, events[1..], t);
      RunChained(d, events[1..]);
    } else {
      var k := LiveWasIssued(d, events[1..], t);
      i := k + 1;
      assert events[..i][0] == events[0] && events[..i][1..] == events[1..][..k] && events[i + 1..] == events[1..][k + 1..];
    }
  }

  lemma {:induction false} RunJoins(sys: System, a: seq<Event>, b: seq<Event>)
    ensures Run(sys, a + b) == Run(Run(sys, a), b)
    decreases |a|
  {
    hide Step;
    if a == [] {
      assert a + b == b;
    } else {
      assert (a + b)[1..] == a[1..] + b;
      RunJoins(Step(sys, a[0]), a[1..], b);
    }
  }

  lemma IssuedIsLive(sys: System, events: seq<Event>, user: UserId, i: int, t: TokenId)
    requires Chained(sys.tokens) && IssuedAndKept(sys, events, user, i, t)
    ensures t !in sys.tokens && t in Run(sys, events).tokens
    ensures !Run(sys, events).tokens[t].revoked && Run(sys, events).tokens[t].user == user
  {
    hide Step, Spends, Chained, Issued, Unspent;
    var here := Run(sys, events[..i]);
    var d := Step(here, events[i]);
    RunChained(sys, events[..i]);
    IssuedIsStored(here, events[i], t);
    StepChained(here, events[i]);
    LiveIffUnspent(d, events[i + 1..], t);
    RunChained(d, events[i + 1..]);
    assert events == events[..i] + ([events[i]] + events[i + 1..]);
    RunJoins(sys, events[..i], [events[i]] + events[i + 1..]);
    assert ([events[i]] + events[i + 1..])[1..] == events[i + 1..];
  }

  /** The sweep runs from its start to its commit over these events. */
  predicate SweepOver(sys: System, sweep: int, events: seq<Event>) {
    && sweep in sys.sweeps && sys.sweeps[sweep].Decided?
    && var began := Step(sys, SweepStart(sweep)); var ended := Run(began, events);
       sweep in ended.sweeps && ended.sweeps[sweep] == began.sweeps[sweep]
  }

  /**
   The user is left with a live token when a sweep commits if and only if some
   login or rotation of theirs committed while it ran and the token that wrote
   was neither rotated, logged out nor seen by another sweep before the end.
   */
  lemma SweepLeavesLiveIff(sys: System, sweep: int, events: seq<Event>)
    requires Chained(sys.tokens) && SweepOver(sys, sweep, events)
    ensures var user := sys.sweeps[sweep].user;
            var began := Step(sys, SweepStart(sweep));
            LiveOf(Step(Run(began, events), SweepCommit(sweep)).tokens, user) != {}
            <==> exists i, t :: IssuedAndKept(began, events, user, i, t)
  {
    hide Run, Chained, IssuedAndKept;
    var user, began := sys.sweeps[sweep].user, Step(sys, SweepStart(sweep));
    var ended := Run(began, events);
    var after := Step(ended, SweepCommit(sweep)).tokens;
    if LiveOf(after, user) != {} {
      var t := Pick(LiveOf(after, user));
      SweepRevokes(sys, sweep, events, t);
      var i := LiveWasIssued(began, events, t);
    }
    if i, t :| IssuedAndKept(began, events, user, i, t) {
      IssuedIsLive(began, events, user, i, t);
      assert t in LiveOf(after, user);
    }
  }

  /** In particular, with no login and no rotation of the user's committing meanwhile, nothing of theirs stays live. */
  lemma UndisturbedSweepIsTotal(sys: System, sweep: int, events: seq<Event>)
    requires Chained(sys.tokens) && SweepOver(sys, sweep, events)
    requires forall i :: 0 <= i < |events| ==>
               match events[i]
               case Login(user, _, _, _) => user != sys.sweeps[sweep].user
               case Refresh(t, _, _, _, _) =>
                 var here := Run(Step(sys, SweepStart(sweep)), events[..i]);
                 t in here.tokens ==> here.tokens[t].user != sys.sweeps[sweep].user
               case _ => true
    ensures LiveOf(Step(Run(Step(sys, SweepStart(sweep)), events), SweepCommit(sweep)).tokens, sys.sweeps[sweep].user) == {}
  {
    var user, began := sys.sweeps[sweep].user, Step(sys, SweepStart(sweep));
    SweepLeavesLiveIff(sys, sweep, events);
    hide Run, Chained, Unspent;
    forall i, t | 0 <= i < |events| && Issued(Run(began, events[..i]), events[i]) == Some(t)
      ensures Step(Run(began, events[..i]), events[i]).tokens[t].user != user
    {
    }
  }

  /** It can leave one: a rotation of the live token that commits while the sweep waits for its row. */
  lemma RotationEscapesSweep()
    ensures var sys := Run(System({1}, map[], map[]),
                           [Login(1, 1, 100, 0), Refresh(1, 2, 100, 1, 0), Refresh(1, 9, 100, 2, 7),
                            SweepStart(7), Refresh(2, 3, 100, 3, 0), SweepCommit(7)]);
            3 in sys.tokens && sys.tokens[3].user == 1 && !sys.tokens[3].revoked && sys.sweeps == map[]
  {
    var s0 := System({1}, map[], map[]);
    var s1 := Step(s0, Login(1, 1, 100, 0));
    var s2 := Step(s1, Refresh(1, 2, 100, 1, 0));
    var s3 := Step(s2, Refresh(1, 9, 100, 2, 7));
    var s4 := Step(s3, SweepStart(7));
    var s5 := Step(s4, Refresh(2, 3, 100, 3, 0));
    var s6 := Step(s5, SweepCommit(7));
    assert s2.tokens.Keys == {1, 2} && s2.tokens[1].revoked && !s2.tokens[2].revoked && s2.tokens[2].user == 1 && s2.tokens[2].expiresAt == 101;
    assert s3.tokens == s2.tokens && s3.sweeps == map[7 := Decided(1)];
    assert s4.tokens == s2.tokens && s4.sweeps[7].Running? && 3 !in s4.sweeps[7].seen;
    assert 3 in s5.tokens && !s5.tokens[3].revoked && s5.sweeps == s4.sweeps;
    assert s6.sweeps == map[];
    SixSteps(s0, Login(1, 1, 100, 0), Refresh(1, 2, 100, 1, 0), Refresh(1, 9, 100, 2, 7), SweepStart(7), Refresh(2, 3, 100, 3, 0), SweepCommit(7));
  }

  lemma SixSteps(s: System, a: Event, b: Event, c: Event, d: Event, e: Event, f: Event)
    ensures Run(s, [a, b, c, d, e, f]) == Step(Step(Step(Step(Step(Step(s, a), b), c), d), e), f)
  {
    hide Step;
    assert [a, b, c, d, e, f][1..] == [b, c, d, e, f];
    assert [b, c, d, e, f][1..] == [c, d, e, f];
    assert [c, d, e, f][1..] == [d, e, f];
    assert [d, e, f][1..] == [e, f];
    assert [e, f][1..] == [f];
    assert [f][1..] == [];
    var s1 := Step(s, a);
    var s2 := Step(s1, b);
    var s3 := Step(s2, c);
    var s4 := Step(s3, d);
    var s5 := Step(s4, e);
    assert Run(Step(s5, f), []) == Step(s5, f);
    assert Run(s5, [f]) == Step(s5, f);
    assert Run(s4, [e, f]) == Step(s5, f);
    assert Run(s3, [d, e, f]) == Step(s5, f);
    assert Run(s2, [c, d, e, f]) == Step(s5, f);
    assert Run(s1, [b, c, d, e, f]) == Step(s5, f);
  }
}
