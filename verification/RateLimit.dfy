/** The fixed-window rate limiter: a counter that opens with the first request and is gone once its window is over. */
module RateLimit {
  import opened Wrappers

  type Millis = int

  datatype Policy = Policy(name: string, max: nat, windowSeconds: nat)
  datatype Key = Key(policy: string, identifier: string)
  datatype Counter = Counter(count: nat, expiresAt: Millis)
  datatype Decision = Decision(allowed: bool, limit: nat, remaining: nat, resetSeconds: int)

  function Window(p: Policy): nat {
    1000 * p.windowSeconds
  }

  /** Redis drops a key once the clock is past its expiry, and still answers for it at that very millisecond. */
  function Live(c: Option<Counter>, now: Millis): Option<Counter> {
    if c.Some? && c.value.expiresAt < now then None else c
  }

  /** The first millisecond at which a counter opened at `t` is gone. */
  function Gone(p: Policy, t: Millis): Millis {
    t + Window(p) + 1
  }

  /** The script's increment: the expiry is set by the increment that creates the key, and by no other. */
  function Increment(c: Option<Counter>, p: Policy, now: Millis): Counter {
    match Live(c, now)
    case None => Counter(1, now + Window(p))
    case Some(live) => live.(count := live.count + 1)
  }

  /** TTL in whole seconds, to the nearest. */
  function Ttl(c: Counter, now: Millis): int {
    (c.expiresAt - now + 500) / 1000
  }

  function Decide(p: Policy, c: Counter, now: Millis): Decision {
    Decision(c.count <= p.max, p.max, if c.count <= p.max then p.max - c.count else 0,
             if Ttl(c, now) >= 0 then Ttl(c, now) else p.windowSeconds)
  }

  class Limiter {
    var counters: map<Key, Counter>

    function At(key: Key): Option<Counter>
      reads this
    {
      if key in counters then Some(counters[key]) else None
    }

    /** INCR never leaves a zero behind. */
    ghost predicate Valid()
      reads this
    {
      forall k :: k in counters ==> counters[k].count > 0
    }

    constructor ()
      ensures counters == map[] && Valid()
    {
      counters := map[];
    }

    /** INCR, EXPIRE on the first, TTL: one script, nothing in between. */
    method Consume(p: Policy, identifier: string, now: Millis) returns (decision: Decision)
      requires Valid()
      modifies this
      ensures Valid()
      ensures At(Key(p.name, identifier)) == Some(Increment(old(At(Key(p.name, identifier))), p, now))
      ensures decision == Decide(p, Increment(old(At(Key(p.name, identifier))), p, now), now)
      ensures forall k :: k != Key(p.name, identifier) ==> At(k) == old(At(k))
    {
      var key := Key(p.name, identifier);
      if key in counters && counters[key].expiresAt < now { counters := counters - {key}; }
      var current := if key in counters then counters[key].count + 1 else 1;
      counters := counters[key := Counter(current, if key in counters then counters[key].expiresAt else now)];
      if current == 1 { counters := counters[key := Counter(1, now + Window(p))]; }
      var ttl := Ttl(counters[key], now);
      decision := Decision(current <= p.max, p.max, if current <= p.max then p.max - current else 0,
                           if ttl >= 0 then ttl else p.windowSeconds);
    }

    /** Every answer to one identifier's requests, in time order. */
    method ConsumeAll(p: Policy, identifier: string, times: seq<Millis>) returns (allowed: seq<bool>)
      requires Valid()
      modifies this
      ensures Valid()
      ensures allowed == Verdicts(old(At(Key(p.name, identifier))), p, times)
    {
      allowed := [];
      for i := 0 to |times|
        invariant Valid()
        invariant allowed + Verdicts(At(Key(p.name, identifier)), p, times[i..]) == Verdicts(old(At(Key(p.name, identifier))), p, times)
      {
        var d := Consume(p, identifier, times[i]);
        allowed := allowed + [d.allowed];
        assert times[i..][0] == times[i] && times[i..][1..] == times[i + 1..];
      }
    }
  }

  function Verdicts(c: Option<Counter>, p: Policy, times: seq<Millis>): (verdicts: seq<bool>)
    ensures |verdicts| == |times|
    decreases |times|
  {
    if times == [] then []
    else
      var next := Increment(c, p, times[0]);
      [next.count <= p.max] + Verdicts(Some(next), p, times[1..])
  }

  predicate TimeOrdered(times: seq<Millis>) {
    forall i, j :: 0 <= i < j < |times| ==> times[i] <= times[j]
  }

  // --------------------------------------------------------- the first of each window

  /** How many requests at the front fall before `end`. */
  function Before(times: seq<Millis>, end: Millis): (n: nat)
    ensures n <= |times|
    ensures forall i :: 0 <= i < n ==> times[i] < end
    ensures n < |times| ==> times[n] >= end
    decreases |times|
  {
    if times == [] || times[0] >= end then 0 else 1 + Before(times[1..], end)
  }

  /** The next `n` verdicts of a window that has let `used` through. */
  function Quota(max: nat, used: nat, n: nat): (verdicts: seq<bool>)
    ensures |verdicts| == n
    ensures forall i :: 0 <= i < n ==> verdicts[i] == (used + i < max)
    decreases n
  {
    if n == 0 then [] else [used < max] + Quota(max, used + 1, n - 1)
  }

  /** Window by window: whoever arrives with no window open opens one, and the first `max` in it are let through. */
  function FirstOfEach(p: Policy, times: seq<Millis>): seq<bool>
    requires p.windowSeconds > 0
    decreases |times|
  {
    if times == [] then []
    else
      var n := Before(times, Gone(p, times[0]));
      Quota(p.max, 0, n) + FirstOfEach(p, times[n..])
  }

  lemma {:induction false} RestOfWindow(c: Counter, p: Policy, times: seq<Millis>)
    requires p.windowSeconds > 0
    ensures Verdicts(Some(c), p, times)
            == Quota(p.max, c.count, Before(times, c.expiresAt + 1)) + Verdicts(None, p, times[Before(times, c.expiresAt + 1)..])
    decreases |times|
  {
    var n := Before(times, c.expiresAt + 1);
    if n == 0 {
      assert times[0..] == times;
      if times != [] { assert Increment(Some(c), p, times[0]) == Increment(None, p, times[0]); }
    } else {
      RestOfWindow(c.(count := c.count + 1), p, times[1..]);
      assert times[1..][n - 1..] == times[n..];
    }
  }

  /** Each window admits exactly its first min(max, n) requests, and nothing refused lengthens it. */
  lemma {:induction false} AdmitsFirstOfEach(p: Policy, times: seq<Millis>)
    requires p.windowSeconds > 0
    ensures Verdicts(None, p, times) == FirstOfEach(p, times)
    decreases |times|
  {
    if times != [] {
      var first := Counter(1, times[0] + Window(p));
      var n := Before(times, first.expiresAt + 1);
      var rest := Verdicts(None, p, times[n..]);
      OpensAWindow(p, times);
      RestOfWindow(first, p, times[1..]);
      assert times[1..][n - 1..] == times[n..];
      hide Before, Quota, Verdicts, Window;
      AdmitsFirstOfEach(p, times[n..]);
      assert [0 < p.max] + (Quota(p.max, 1, n - 1) + rest) == ([0 < p.max] + Quota(p.max, 1, n - 1)) + rest;
    }
  }

  lemma OpensAWindow(p: Policy, times: seq<Millis>)
    requires p.windowSeconds > 0 && times != []
    ensures var end := Gone(p, times[0]);
            && times[0] < end && Before(times, end) == 1 + Before(times[1..], end)
            && Quota(p.max, 0, Before(times, end)) == [0 < p.max] + Quota(p.max, 1, Before(times, end) - 1)
            && Verdicts(None, p, times) == [0 < p.max] + Verdicts(Some(Counter(1, times[0] + Window(p))), p, times[1..])
  {
    var c := Increment(None, p, times[0]);
    assert c == Counter(1, times[0] + Window(p));
  }

  // ------------------------------------------------------------------ the burst bound

  /** How many of these requests are let through at a time in [from, to). */
  function Admitted(c: Option<Counter>, p: Policy, times: seq<Millis>, from: Millis, to: Millis): nat
    decreases |times|
  {
    if times == [] then 0
    else
      var next := Increment(c, p, times[0]);
      (if next.count <= p.max && from <= times[0] < to then 1 else 0) + Admitted(Some(next), p, times[1..], from, to)
  }

  function Left(p: Policy, c: Counter): nat {
    if c.count <= p.max then p.max - c.count else 0
  }

  /** What is left of an open window, then whatever later windows admit. */
  lemma {:induction false} OpenWindowAdmits(c: Counter, end: Millis, p: Policy, times: seq<Millis>, from: Millis, to: Millis)
    requires p.windowSeconds > 0 && TimeOrdered(times) && end == c.expiresAt + 1
    ensures Admitted(Some(c), p, times, from, to) <= Left(p, c) + Admitted(None, p, times[Before(times, end)..], from, to)
    ensures end <= from ==> Admitted(Some(c), p, times, from, to) == Admitted(None, p, times[Before(times, end)..], from, to)
    decreases |times|
  {
    var n := Before(times, end);
    if n == 0 {
      assert times[0..] == times;
      if times != [] { assert Increment(Some(c), p, times[0]) == Increment(None, p, times[0]); }
    } else {
      var more := c.(count := c.count + 1);
      assert Increment(Some(c), p, times[0]) == more;
      assert Before(times[1..], end) == n - 1;
      OpenWindowAdmits(more, end, p, times[1..], from, to);
      assert times[1..][n - 1..] == times[n..];
    }
  }

  lemma {:induction false} NothingAfter(p: Policy, c: Option<Counter>, times: seq<Millis>, from: Millis, to: Millis)
    requires TimeOrdered(times) && (times != [] ==> times[0] >= to)
    ensures Admitted(c, p, times, from, to) == 0
    decreases |times|
  {
    if times != [] { NothingAfter(p, Some(Increment(c, p, times[0])), times[1..], from, to); }
  }

  /** The window the first request opens, and the requests after it. */
  lemma FirstWindow(p: Policy, times: seq<Millis>, from: Millis, to: Millis)
    requires p.windowSeconds > 0 && p.max > 0 && TimeOrdered(times) && times != []
    ensures var end := Gone(p, times[0]);
            var rest := times[1..][Before(times[1..], end)..];
            && TimeOrdered(rest) && (rest != [] ==> rest[0] >= end)
            && Admitted(None, p, times, from, to) <= (if from <= times[0] < to then p.max else p.max - 1) + Admitted(None, p, rest, from, to)
            && (end <= from ==> Admitted(None, p, times, from, to) == Admitted(None, p, rest, from, to))
  {
    OpenWindowAdmits(Counter(1, times[0] + Window(p)), Gone(p, times[0]), p, times[1..], from, to);
  }

  /** Requests none of which comes before `from`: one window's worth up to a window later. */
  lemma OneWindow(p: Policy, times: seq<Millis>, from: Millis, to: Millis)
    requires p.windowSeconds > 0 && p.max > 0 && TimeOrdered(times)
    requires times != [] ==> times[0] >= from && Gone(p, times[0]) >= to
    ensures Admitted(None, p, times, from, to) <= p.max
  {
    if times != [] {
      FirstWindow(p, times, from, to);
      var rest := times[1..][Before(times[1..], Gone(p, times[0]))..];
      NothingAfter(p, None, rest, from, to);
    }
  }

  /**
   Any stretch of a window's length, both ends counted, lets at most 2 * max - 1
   requests through: the request that opened the earlier window lies before it.
   */
  lemma {:induction false} WindowBound(p: Policy, times: seq<Millis>, from: Millis)
    requires p.windowSeconds > 0 && p.max > 0 && TimeOrdered(times)
    ensures Admitted(None, p, times, from, from + Window(p) + 1) <= 2 * p.max - 1
    decreases |times|
  {
    hide Before, Admitted;
    if times == [] {
      NothingAfter(p, None, times, from, from + Window(p) + 1);
    } else {
      var to := from + Window(p) + 1;
      var end := Gone(p, times[0]);
      var rest := times[1..][Before(times[1..], end)..];
      FirstWindow(p, times, from, to);
      if times[0] >= from {
        OneWindow(p, times, from, to);
      } else if rest == [] || rest[0] >= from {
        OneWindow(p, rest, from, to);
      } else {
        WindowBound(p, rest, from);
      }
    }
  }

  /** One millisecond longer, and it is at most 2 * max. */
  lemma {:induction false} LongerBound(p: Policy, times: seq<Millis>, from: Millis)
    requires p.windowSeconds > 0 && p.max > 0 && TimeOrdered(times)
    ensures Admitted(None, p, times, from, from + Window(p) + 2) <= 2 * p.max
    decreases |times|
  {
    hide Before, Admitted;
    if times == [] {
      NothingAfter(p, None, times, from, from + Window(p) + 2);
    } else {
      var to := from + Window(p) + 2;
      var end := Gone(p, times[0]);
      var rest := times[1..][Before(times[1..], end)..];
      FirstWindow(p, times, from, to);
      if times[0] >= from {
        OneWindow(p, rest, from, to);
      } else if rest == [] || rest[0] > from {
        OneWindow(p, rest, from, to);
      } else {
        LongerBound(p, rest, from);
      }
    }
  }

  // ------------------------------------------------------------ runs that attain them

  function Repeat(t: Millis, n: nat): seq<Millis> {
    seq(n, _ => t)
  }

  lemma {:induction false} BurstAdmits(c: Counter, p: Policy, t: Millis, n: nat, later: seq<Millis>, from: Millis, to: Millis)
    requires t <= c.expiresAt && c.count + n <= p.max && from <= t < to
    ensures Admitted(Some(c), p, Repeat(t, n) + later, from, to)
            == n + Admitted(Some(Counter(c.count + n, c.expiresAt)), p, later, from, to)
    decreases n
  {
    if n == 0 {
      assert Repeat(t, 0) + later == later;
    } else {
      assert (Repeat(t, n) + later)[1..] == Repeat(t, n - 1) + later;
      BurstAdmits(c.(count := c.count + 1), p, t, n - 1, later, from, to);
    }
  }

  /** A counter at its limit is renewed by the first request after its expiry, and lets a full window's worth through. */
  lemma NextBurstAdmits(c: Counter, p: Policy, t: Millis, from: Millis, to: Millis)
    requires p.max > 0 && c.expiresAt < t && from <= t < to
    ensures Admitted(Some(c), p, Repeat(t, p.max), from, to) == p.max
  {
    var burst := Repeat(t, p.max);
    assert burst[0] == t && burst[1..] == Repeat(t, p.max - 1) + [];
    assert Increment(Some(c), p, t) == Counter(1, t + Window(p));
    BurstAdmits(Counter(1, t + Window(p)), p, t, p.max - 1, [], from, to);
  }

  lemma BurstsAreOrdered(r: Millis, s: Millis, t: Millis, n: nat, k: nat, m: nat)
    requires r <= s <= t
    ensures TimeOrdered(Repeat(r, k) + Repeat(s, n) + Repeat(t, m))
  {
  }

  /** It takes two milliseconds: open early, spend the rest as the window ends, and a whole new window right after. */
  lemma WindowIsAttained(p: Policy)
    requires p.windowSeconds > 0 && p.max > 0
    ensures var times := Repeat(0, 1) + Repeat(Window(p), p.max - 1) + Repeat(Window(p) + 1, p.max);
            TimeOrdered(times) && Admitted(None, p, times, Window(p), Window(p) + 2) == 2 * p.max - 1
  {
    var w := Window(p);
    var rest := Repeat(w, p.max - 1) + Repeat(w + 1, p.max);
    var times := Repeat(0, 1) + Repeat(w, p.max - 1) + Repeat(w + 1, p.max);
    BurstsAreOrdered(0, w, w + 1, p.max - 1, 1, p.max);
    assert times[0] == 0 && times[1..] == rest;
    assert Increment(None, p, 0) == Counter(1, w);
    assert Admitted(None, p, times, w, w + 2) == Admitted(Some(Counter(1, w)), p, rest, w, w + 2);
    hide Admitted, Window, Repeat;
    BurstAdmits(Counter(1, w), p, w, p.max - 1, Repeat(w + 1, p.max), w, w + 2);
    NextBurstAdmits(Counter(p.max, w), p, w + 1, w, w + 2);
  }

  /** Two full windows, one opened just after the other is over. */
  lemma LongerIsAttained(p: Policy)
    requires p.windowSeconds > 0 && p.max > 0
    ensures var times := Repeat(0, 1) + Repeat(0, p.max - 1) + Repeat(Window(p) + 1, p.max);
            TimeOrdered(times) && Admitted(None, p, times, 0, Window(p) + 2) == 2 * p.max
  {
    var w := Window(p);
    var rest := Repeat(0, p.max - 1) + Repeat(w + 1, p.max);
    var times := Repeat(0, 1) + Repeat(0, p.max - 1) + Repeat(w + 1, p.max);
    BurstsAreOrdered(0, 0, w + 1, p.max - 1, 1, p.max);
    assert times[0] == 0 && times[1..] == rest;
    assert Increment(None, p, 0) == Counter(1, w);
    assert Admitted(None, p, times, 0, w + 2) == 1 + Admitted(Some(Counter(1, w)), p, rest, 0, w + 2);
    hide Admitted, Window, Repeat;
    BurstAdmits(Counter(1, w), p, 0, p.max - 1, Repeat(w + 1, p.max), 0, w + 2);
    NextBurstAdmits(Counter(p.max, w), p, w + 1, 0, w + 2);
  }

  // ------------------------------------------------------------- what the caller is told

  function CounterAfter(c: Option<Counter>, p: Policy, times: seq<Millis>): Option<Counter>
    decreases |times|
  {
    if times == [] then c else CounterAfter(Some(Increment(c, p, times[0])), p, times[1..])
  }

  lemma {:induction false} CounterAppends(c: Option<Counter>, p: Policy, times: seq<Millis>, t: Millis)
    ensures CounterAfter(c, p, times + [t]) == Some(Increment(CounterAfter(c, p, times), p, t))
    decreases |times|
  {
    if times == [] {
      assert ([] + [t])[1..] == [];
    } else {
      assert (times + [t])[1..] == times[1..] + [t];
      CounterAppends(Some(Increment(c, p, times[0])), p, times[1..], t);
    }
  }

  /** The counter counts the requests since the one that opened the window it is in. */
  lemma {:induction false} CountsItsWindow(p: Policy, times: seq<Millis>) returns (opener: nat)
    requires p.windowSeconds > 0 && TimeOrdered(times) && times != []
    ensures opener < |times| && times[|times| - 1] <= times[opener] + Window(p)
    ensures CounterAfter(None, p, times) == Some(Counter(|times| - opener, times[opener] + Window(p)))
    decreases |times|
  {
    var n := |times| - 1;
    assert times == times[..n] + [times[n]];
    CounterAppends(None, p, times[..n], times[n]);
    if n == 0 {
      opener := 0;
    } else {
      opener := CountsItsWindow(p, times[..n]);
      if times[opener] + Window(p) < times[n] { opener := n; }
    }
  }

  /**
   The answer to the last of any requests: let through exactly while the window has
   had no more than `max`, `max` less those left, and the wait until the window is
   over to the nearest second.
   */
  lemma DecisionTells(p: Policy, times: seq<Millis>) returns (opener: nat)
    requires p.windowSeconds > 0 && TimeOrdered(times) && times != []
    ensures opener < |times|
    ensures CounterAfter(None, p, times).Some?
    ensures var last := times[|times| - 1];
            var used, left := |times| - opener, times[opener] + 1000 * p.windowSeconds - last;
            var d := Decide(p, CounterAfter(None, p, times).value, last);
            && left >= 0 && d.limit == p.max
            && (d.allowed <==> used <= p.max)
            && (d.allowed ==> d.remaining == p.max - used) && (!d.allowed ==> d.remaining == 0)
            && 0 <= d.resetSeconds <= p.windowSeconds
            && -500 <= left - 1000 * d.resetSeconds < 500
  {
    opener := CountsItsWindow(p, times);
  }
}
