/**
 The message topology of internal/messaging/rabbitmq.go: topic exchanges, their
 bindings, and where a rejected or expired message goes. A routing key is the
 sequence of its dot-separated words.
 */
module Broker {
  import opened Common

  type RoutingKey = seq<string>

  datatype Exchange = EventsExchange | RetryExchange | DeadExchange

  datatype Queue = NoopQueue | LarkDMQueue | RetryQueue | DeadQueue

  const STAR := "*"
  const HASH := "#"

  /** AMQP topic matching: `*` stands for one word, `#` for any number of words. */
  predicate Matches(pattern: RoutingKey, key: RoutingKey)
    decreases |pattern| + |key|
  {
    if pattern == [] then key == []
    else if pattern[0] == HASH then Matches(pattern[1..], key) || (key != [] && Matches(pattern, key[1..]))
    else key != [] && (pattern[0] == STAR || pattern[0] == key[0]) && Matches(pattern[1..], key[1..])
  }

  datatype Binding = Binding(exchange: Exchange, pattern: RoutingKey, queue: Queue)

  const BINDINGS: seq<Binding> := [
    Binding(EventsExchange, ["comment", "*"], NoopQueue),
    Binding(EventsExchange, ["access", "*"], LarkDMQueue),
    Binding(EventsExchange, ["notification", "test"], LarkDMQueue),
    Binding(RetryExchange, ["access", "*"], RetryQueue),
    Binding(RetryExchange, ["notification", "test"], RetryQueue),
    Binding(DeadExchange, ["#"], DeadQueue)
  ]

  /** Where a queue sends a message that is rejected without requeueing, or that outlives the queue's limit. */
  function DeadLetterExchange(queue: Queue): Option<Exchange> {
    match queue
    case NoopQueue => Some(DeadExchange)
    case LarkDMQueue => Some(RetryExchange)
    case RetryQueue => Some(EventsExchange)
    case DeadQueue => None
  }

  const RETRY_TTL: Time := 30 * SECOND

  /** The queues the first `n` bindings lead to; a queue gets a message once, however many of its bindings match. */
  function RouteBy(n: nat, exchange: Exchange, key: RoutingKey): seq<Queue>
    requires n <= |BINDINGS|
  {
    if n == 0 then []
    else
      var queues := RouteBy(n - 1, exchange, key);
      var binding := BINDINGS[n - 1];
      if binding.exchange == exchange && Matches(binding.pattern, key) && binding.queue !in queues
      then queues + [binding.queue] else queues
  }

  function Route(exchange: Exchange, key: RoutingKey): seq<Queue> {
    RouteBy(|BINDINGS|, exchange, key)
  }

  lemma MatchesTwoWords(first: string, second: string, key: RoutingKey)
    requires first != STAR && first != HASH && second != HASH
    ensures Matches([first, second], key) <==> |key| == 2 && key[0] == first && (second == STAR || key[1] == second)
  {
    var pattern := [first, second];
    assert pattern[1..] == [second] && [second][1..] == [];
    if key != [] && key[1..] != [] {
      assert Matches([second], key[1..]) <==> (second == STAR || second == key[1]) && key[1..][1..] == [];
    }
  }

  lemma {:induction false} HashMatchesAll(key: RoutingKey)
    ensures Matches([HASH], key)
  {
    if key == [] {
      assert Matches([HASH][1..], key);
    } else {
      HashMatchesAll(key[1..]);
    }
  }

  predicate CommentKey(key: RoutingKey) {
    |key| == 2 && key[0] == "comment"
  }

  predicate DirectKey(key: RoutingKey) {
    |key| == 2 && (key[0] == "access" || (key[0] == "notification" && key[1] == "test"))
  }

  lemma BindingsMatch(key: RoutingKey)
    ensures Matches(BINDINGS[0].pattern, key) <==> CommentKey(key)
    ensures (Matches(BINDINGS[1].pattern, key) || Matches(BINDINGS[2].pattern, key)) <==> DirectKey(key)
    ensures (Matches(BINDINGS[3].pattern, key) || Matches(BINDINGS[4].pattern, key)) <==> DirectKey(key)
    ensures Matches(BINDINGS[5].pattern, key)
  {
    MatchesTwoWords("comment", "*", key);
    MatchesTwoWords("access", "*", key);
    MatchesTwoWords("notification", "test", key);
    HashMatchesAll(key);
  }

  lemma PublishedRoute(key: RoutingKey)
    ensures Route(EventsExchange, key) ==
              if CommentKey(key) then [NoopQueue] else if DirectKey(key) then [LarkDMQueue] else []
  {
    BindingsMatch(key);
    assert CommentKey(key) ==> !DirectKey(key);
    assert RouteBy(1, EventsExchange, key) == if CommentKey(key) then [NoopQueue] else [];
    assert RouteBy(2, EventsExchange, key) ==
             RouteBy(1, EventsExchange, key) + if Matches(BINDINGS[1].pattern, key) then [LarkDMQueue] else [];
    assert RouteBy(3, EventsExchange, key) ==
             if CommentKey(key) then [NoopQueue] else if DirectKey(key) then [LarkDMQueue] else [];
    assert RouteBy(4, EventsExchange, key) == RouteBy(3, EventsExchange, key);
    assert RouteBy(5, EventsExchange, key) == RouteBy(4, EventsExchange, key);
  }

  lemma RejectedRoute(key: RoutingKey)
    ensures Route(RetryExchange, key) == if DirectKey(key) then [RetryQueue] else []
  {
    BindingsMatch(key);
    assert RouteBy(1, RetryExchange, key) == [];
    assert RouteBy(2, RetryExchange, key) == [];
    assert RouteBy(3, RetryExchange, key) == [];
    assert RouteBy(5, RetryExchange, key) == if DirectKey(key) then [RetryQueue] else [];
  }

  lemma BuriedRoute(key: RoutingKey)
    ensures Route(DeadExchange, key) == [DeadQueue]
  {
    BindingsMatch(key);
    assert RouteBy(1, DeadExchange, key) == [];
    assert RouteBy(2, DeadExchange, key) == [];
    assert RouteBy(3, DeadExchange, key) == [];
    assert RouteBy(4, DeadExchange, key) == [];
    assert RouteBy(5, DeadExchange, key) == [];
  }

  /** Where a message goes on from a queue that rejects it or that it outlives. */
  function OnwardRoute(queue: Queue, key: RoutingKey): seq<Queue> {
    match DeadLetterExchange(queue)
    case None => []
    case Some(exchange) => Route(exchange, key)
  }

  /**
   For every routing key: a message is published to at most one queue. What the Lark
   queue rejects goes to the retry queue, and what outlives the retry queue goes back
   to the Lark queue, each to that queue alone, for exactly the keys the Lark queue
   receives; what the other queue rejects ends in the dead queue, which keeps it.
   */
  lemma Topology(key: RoutingKey)
    ensures Route(EventsExchange, key) ==
              if CommentKey(key) then [NoopQueue] else if DirectKey(key) then [LarkDMQueue] else []
    ensures LarkDMQueue in Route(EventsExchange, key) <==> OnwardRoute(LarkDMQueue, key) == [RetryQueue]
    ensures LarkDMQueue in Route(EventsExchange, key) <==> OnwardRoute(RetryQueue, key) == [LarkDMQueue]
    ensures OnwardRoute(NoopQueue, key) == [DeadQueue] == Route(DeadExchange, key)
    ensures OnwardRoute(DeadQueue, key) == []
  {
    PublishedRoute(key);
    RejectedRoute(key);
    BuriedRoute(key);
  }
}
