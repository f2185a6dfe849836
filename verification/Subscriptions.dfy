/** Which sockets of this process want which events, and the Redis channels kept open for them. */
module Subscriptions {
  import opened Rows

  type Socket = int
  type EventId = int

  /** What is sent on the dedicated subscriber connection, in order. */
  datatype Command = Subscribe(event: EventId) | Unsubscribe(event: EventId)

  datatype Call =
    | Register(ws: Socket)
    | SubscribeTo(ws: Socket, event: EventId)
    | UnsubscribeFrom(ws: Socket, event: EventId)
    | Deregister(ws: Socket)

  // ----------------------------------------------------------------- the commands

  /** The last command for the event was SUBSCRIBE. */
  predicate Listening(log: seq<Command>, event: EventId) {
    log != [] &&
    match log[|log| - 1]
    case Subscribe(e) => e == event || Listening(log[..|log| - 1], event)
    case Unsubscribe(e) => e != event && Listening(log[..|log| - 1], event)
  }

  /** SUBSCRIBE only when not listening, UNSUBSCRIBE only when listening. */
  predicate Alternates(log: seq<Command>, event: EventId) {
    log == [] ||
    (&& Alternates(log[..|log| - 1], event)
     && (log[|log| - 1] == Subscribe(event) ==> !Listening(log[..|log| - 1], event))
     && (log[|log| - 1] == Unsubscribe(event) ==> Listening(log[..|log| - 1], event)))
  }

  lemma OneMoreCommand(log: seq<Command>, c: Command, event: EventId)
    ensures Listening(log + [c], event) <==> c == Subscribe(event) || (c != Unsubscribe(event) && Listening(log, event))
    ensures Alternates(log + [c], event) <==>
              && Alternates(log, event)
              && (c == Subscribe(event) ==> !Listening(log, event))
              && (c == Unsubscribe(event) ==> Listening(log, event))
  {
    assert (log + [c])[..|log + [c]| - 1] == log;
  }

  class Registry {
    var connections: map<Socket, set<EventId>>
    var subscribers: map<EventId, set<Socket>>
    var log: seq<Command>

    /** The two indexes say the same, neither stores an empty set of sockets, and the open channels are the wanted ones. */
    ghost predicate Valid()
      reads this
    {
      && Agree(connections, subscribers)
      && (forall e :: Alternates(log, e))
      && (forall e :: Listening(log, e) <==> e in subscribers)
    }

    constructor ()
      ensures Valid() && connections == map[] && subscribers == map[] && log == []
    {
      connections, subscribers, log := map[], map[], [];
    }

    method RegisterConnection(ws: Socket)
      requires Valid() && ws !in connections
      modifies this
      ensures Valid() && connections == old(connections)[ws := {}] && subscribers == old(subscribers) && log == old(log)
    {
      connections := connections[ws := {}];
    }

    method SubscribeConnection(ws: Socket, event: EventId)
      requires Valid()
      modifies this
      ensures Valid()
      ensures connections == if ws in old(connections) then old(connections)[ws := old(connections)[ws] + {event}] else old(connections)
      ensures log == old(log) + if ws in old(connections) && event !in old(subscribers) then [Subscribe(event)] else []
    {
      if ws !in connections || event in connections[ws] {
        assert ws in connections ==> connections == connections[ws := connections[ws] + {event}] by {
          if ws in connections { assert connections[ws] + {event} == connections[ws]; }
        }
        return;
      }
      connections := connections[ws := connections[ws] + {event}];
      var first := event !in subscribers;
      subscribers := subscribers[event := (if first then {} else subscribers[event]) + {ws}];
      if first {
        forall e ensures Alternates(log + [Subscribe(event)], e) && (Listening(log + [Subscribe(event)], e) <==> e in subscribers) {
          OneMoreCommand(log, Subscribe(event), e);
        }
        log := log + [Subscribe(event)];
      }
    }

    /** removeLocalSubscriber, once the connection's own side no longer lists the event. */
    method RemoveLocalSubscriber(ws: Socket, event: EventId)
      requires event in subscribers && ws in subscribers[event]
      requires forall e :: Alternates(log, e)
      requires forall e :: Listening(log, e) <==> e in subscribers
      modifies `subscribers, `log
      ensures forall e :: Alternates(log, e)
      ensures forall e :: Listening(log, e) <==> e in subscribers
      ensures if old(subscribers)[event] == {ws}
              then subscribers == old(subscribers) - {event} && log == old(log) + [Unsubscribe(event)]
              else subscribers == old(subscribers)[event := old(subscribers)[event] - {ws}] && log == old(log)
    {
      var rest := subscribers[event] - {ws};
      if rest == {} {
        assert subscribers[event] == {ws};
        subscribers := subscribers - {event};
        forall e ensures Alternates(log + [Unsubscribe(event)], e) && (Listening(log + [Unsubscribe(event)], e) <==> e in subscribers) {
          OneMoreCommand(log, Unsubscribe(event), e);
        }
        log := log + [Unsubscribe(event)];
      } else {
        subscribers := subscribers[event := rest];
      }
    }

    method UnsubscribeConnection(ws: Socket, event: EventId)
      requires Valid()
      modifies this
      ensures Valid()
      ensures connections == if ws in old(connections) then old(connections)[ws := old(connections)[ws] - {event}] else old(connections)
      ensures log == old(log) + if ws in old(connections) && event in old(connections)[ws] && old(subscribers)[event] == {ws}
                                then [Unsubscribe(event)] else []
    {
      if ws !in connections || event !in connections[ws] {
        assert ws in connections ==> connections == connections[ws := connections[ws] - {event}] by {
          if ws in connections { assert connections[ws] - {event} == connections[ws]; }
        }
        return;
      }
      connections := connections[ws := connections[ws] - {event}];
      RemoveLocalSubscriber(ws, event);
    }

    /** A closed connection leaves every event it wanted; a channel is closed for exactly those nobody else wants. */
    method DeregisterConnection(ws: Socket)
      requires Valid()
      modifies this
      ensures Valid() && connections == old(connections) - {ws}
      ensures forall e :: e in subscribers <==> e in old(subscribers) && old(subscribers)[e] != {ws}
    {
      ghost var before := subscribers;
      if ws !in connections {
        assert connections - {ws} == connections;
        assert forall e :: e in subscribers ==> ws !in subscribers[e];
        return;
      }
      var left := connections[ws];
      connections := connections - {ws};
      while left != {}
        invariant connections == old(connections) - {ws}
        invariant forall e :: Alternates(log, e)
        invariant forall e :: Listening(log, e) <==> e in subscribers
        invariant forall e :: e in left ==> e in subscribers && subscribers[e] == before[e]
        invariant Without(before, subscribers, ws, left)
      {
        var event := AnyOf(left);
        left := left - {event};
        RemoveLocalSubscriber(ws, event);
      }
      forall e ensures e in subscribers <==> e in before && before[e] != {ws} {
        if e in before {
          SomeoneElse(before[e], ws);
          if v :| v in before[e] && v != ws { assert e in subscribers; }
          if e in subscribers {
            ghost var v := Pick(subscribers[e]);
            assert v in before[e] && v != ws;
          }
        }
      }
    }

    /** Calls in the order the process makes them; a socket object is registered once. */
    method HandleAll(calls: seq<Call>)
      requires Valid() && connections == map[] && RegisteredOnce(calls)
      modifies this
      ensures Valid()
      ensures forall ws, e :: (ws in connections && e in connections[ws]) <==> Wants(calls, ws, e)
      ensures forall e :: e in subscribers <==> Wanted(calls, e)
      ensures forall e :: Listening(log, e) <==> Wanted(calls, e)
    {
      for i := 0 to |calls|
        invariant Valid()
        invariant forall ws :: ws in connections <==> Connected(calls[..i], ws)
        invariant forall ws, e :: (ws in connections && e in connections[ws]) <==> Wants(calls[..i], ws, e)
      {
        assert calls[..i + 1][..i] == calls[..i];
        NotYetRegistered(calls, i);
        match calls[i] {
          case Register(ws) => RegisterConnection(ws);
          case SubscribeTo(ws, event) => SubscribeConnection(ws, event);
          case UnsubscribeFrom(ws, event) => UnsubscribeConnection(ws, event);
          case Deregister(ws) => DeregisterConnection(ws);
        }
      }
      assert calls[..|calls|] == calls;
      AgreeWanted(connections, subscribers, calls);
    }
  }

  /** Each index holds what the other does, and no event is kept for nobody. */
  ghost predicate Agree(connections: map<Socket, set<EventId>>, subscribers: map<EventId, set<Socket>>) {
    && (forall ws, e :: (ws in connections && e in connections[ws]) <==> (e in subscribers && ws in subscribers[e]))
    && (forall e :: e in subscribers ==> subscribers[e] != {})
  }

  /** `after` is `before` with `ws` gone from every event but those still `left`. */
  ghost predicate Without(before: map<EventId, set<Socket>>, after: map<EventId, set<Socket>>, ws: Socket, left: set<EventId>) {
    && (forall e :: e in after ==> e in before && after[e] != {})
    && (forall e, v :: e in before && v in before[e] && (v != ws || e in left) ==> e in after && v in after[e])
    && (forall e, v :: e in after && v in after[e] ==> v in before[e] && (v != ws || e in left))
  }

  /** From the calls alone: the socket is connected. */
  predicate Connected(calls: seq<Call>, ws: Socket) {
    calls != [] &&
    var last, before := calls[|calls| - 1], Connected(calls[..|calls| - 1], ws);
    if last == Register(ws) then true
    else if last == Deregister(ws) then false
    else before
  }

  /** From the calls alone: the socket is connected and its last word on the event was to subscribe. */
  predicate Wants(calls: seq<Call>, ws: Socket, event: EventId) {
    calls != [] &&
    var last, before := calls[|calls| - 1], calls[..|calls| - 1];
    if last == SubscribeTo(ws, event) then Connected(before, ws)
    else if last == UnsubscribeFrom(ws, event) || last == Deregister(ws) || last == Register(ws) then false
    else Wants(before, ws, event)
  }

  ghost predicate Wanted(calls: seq<Call>, event: EventId) {
    exists ws :: Wants(calls, ws, event)
  }

  predicate RegisteredOnce(calls: seq<Call>) {
    forall i, j :: 0 <= i < j < |calls| && calls[i].Register? ==> calls[j] != calls[i]
  }

  lemma NotYetRegistered(calls: seq<Call>, i: nat)
    requires RegisteredOnce(calls) && i < |calls|
    ensures calls[i].Register? ==> !Connected(calls[..i], calls[i].ws)
  {
    if calls[i].Register? {
      NeverConnected(calls[..i], calls[i].ws);
    }
  }

  lemma {:induction false} NeverConnected(calls: seq<Call>, ws: Socket)
    requires Register(ws) !in calls
    ensures !Connected(calls, ws)
    decreases |calls|
  {
    if calls != [] {
      assert calls[|calls| - 1] in calls;
      NeverConnected(calls[..|calls| - 1], ws);
    }
  }

  lemma AgreeWanted(connections: map<Socket, set<EventId>>, subscribers: map<EventId, set<Socket>>, calls: seq<Call>)
    requires Agree(connections, subscribers)
    requires forall ws, e :: (ws in connections && e in connections[ws]) <==> Wants(calls, ws, e)
    ensures forall e :: e in subscribers <==> Wanted(calls, e)
  {
    forall e | e in subscribers ensures Wanted(calls, e) {
      var ws := Pick(subscribers[e]);
      assert ws in subscribers[e];
      assert ws in connections && e in connections[ws];
      assert Wants(calls, ws, e);
    }
    forall ws, e | Wants(calls, ws, e) ensures e in subscribers {
      assert ws in connections && e in connections[ws];
    }
  }

  lemma SomeoneElse(sockets: set<Socket>, ws: Socket)
    requires sockets != {}
    ensures sockets != {ws} <==> exists v :: v in sockets && v != ws
  {
    if sockets != {ws} {
      var others := sockets - {ws};
      assert ws in sockets ==> sockets == others + {ws};
      var v := Pick(if ws in sockets then others else sockets);
      assert v in sockets && v != ws;
    }
  }
}
