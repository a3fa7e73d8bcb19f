/**
 The way of an event from the outbox to its consumers: rows claimed by relays
 (internal/store/outbox_store.go, internal/application/outbox_relay.go), copies
 moving through the broker's queues, and the two consumers of
 internal/messaging/rabbitmq.go. Each database statement, broker move and crash is
 one step, so any number of relays and consumers interleave.
 */
module EventPipeline {
  import opened Common
  import opened Broker

  // ---------------------------------------------------------------- outbox rows

  datatype RowStatus = Pending | Publishing | Published

  datatype Row = Row(key: RoutingKey, status: RowStatus, attempts: nat, nextAttemptAt: Time, createdAt: Time)

  const CLAIM_HOLD: Time := 30 * SECOND
  const MAX_DELAY: Time := 5 * MINUTE
  const MAX_DELIVERY_TRIES := 5

  function Doubled(n: nat): (r: int)
    ensures r >= 1
  {
    if n == 0 then 1 else 2 * Doubled(n - 1)
  }

  /** One second doubled per attempt, at most eight times and at most five minutes. */
  function RetryDelay(attempt: nat): Time {
    Min(SECOND * Doubled(Min(attempt, 8)), MAX_DELAY)
  }

  lemma {:induction false} DoubledGrows(n: nat, m: nat)
    requires n <= m
    ensures Doubled(n) <= Doubled(m)
    decreases m
  {
    if n < m {
      DoubledGrows(n, m - 1);
    }
  }

  /** The five minute cap is never reached: a failed row waits at most 256 seconds. */
  lemma RetryDelayBound(attempt: nat)
    ensures SECOND <= RetryDelay(attempt) <= 256 * SECOND
  {
    DoubledGrows(Min(attempt, 8), 8);
    assert Doubled(8) == 256 by {
      assert Doubled(4) == 16;
    }
  }

  /** The delay doubles from one second with each attempt up to the eighth, and stays there. */
  lemma RetryDelayDoubles(attempt: nat)
    ensures RetryDelay(0) == 1_000_000_000
    ensures RetryDelay(attempt + 1) == if attempt < 8 then 2 * RetryDelay(attempt) else 256_000_000_000
    ensures attempt >= 8 ==> RetryDelay(attempt) == 256_000_000_000
  {
    RetryDelayBound(attempt);
    RetryDelayBound(attempt + 1);
    assert Doubled(8) == 256 by {
      assert Doubled(4) == 16;
    }
    if attempt < 8 {
      DoubledGrows(attempt + 1, 8);
      assert Doubled(attempt + 1) == 2 * Doubled(attempt);
    }
  }

  predicate Eligible(row: Row, now: Time) {
    !row.status.Published? && row.nextAttemptAt <= now
  }

  function ClaimedRow(row: Row, now: Time): Row {
    row.(status := Publishing, attempts := row.attempts + 1, nextAttemptAt := now + CLAIM_HOLD)
  }

  function ClaimedRows(rows: map<Id, Row>, ids: seq<Id>, now: Time): map<Id, Row> {
    map id | id in rows :: if id in ids then ClaimedRow(rows[id], now) else rows[id]
  }

  function PublishedRow(row: Row): Row {
    row.(status := Published)
  }

  function FailedRow(row: Row, attempt: nat, now: Time): Row {
    row.(status := Pending, nextAttemptAt := now + RetryDelay(attempt))
  }

  // ---------------------------------------------------------------- broker copies

  /** `Held`: with a consumer, undecided. `Settled`: the consumer will acknowledge it. */
  datatype Place = InQueue(queue: Queue, since: Time) | Held | Settled | Acked

  /** `home` is the queue the copy was first routed to, `deaths` how often the Lark queue rejected it. */
  datatype Copy = Copy(event: Id, key: RoutingKey, home: Queue, place: Place, deaths: nat)

  datatype Claim = Claim(id: Id, attempt: nat)

  datatype Progress = Waiting | Confirmed | Refused

  /** A relay at the first event of what is left of its batch. */
  datatype Relay = Relay(batch: seq<Claim>, progress: Progress)

  /**
   `marked` and `confirmed` are history: when a row was last enqueued, claimed or
   marked failed, and which events the broker has confirmed.
   */
  datatype State = State(
    now: Time, rows: map<Id, Row>, relays: map<Id, Relay>,
    copies: map<nat, Copy>, nextCopy: nat, consumed: set<(Queue, Id)>,
    marked: map<Id, Time>, confirmed: set<Id>)

  /** Adds one copy per queue. */
  function WithCopies(copies: map<nat, Copy>, next: nat, event: Id, key: RoutingKey, queues: seq<Queue>, now: Time)
    : map<nat, Copy>
    decreases |queues|
  {
    if queues == [] then copies
    else WithCopies(copies[next := Copy(event, key, queues[0], InQueue(queues[0], now), 0)],
                    next + 1, event, key, queues[1..], now)
  }

  function Republished(s: State, event: Id, exchange: Exchange): State
    requires event in s.rows
  {
    var key := s.rows[event].key;
    var queues := Route(exchange, key);
    s.(copies := WithCopies(s.copies, s.nextCopy, event, key, queues, s.now), nextCopy := s.nextCopy + |queues|)
  }

  /** A copy rejected by a queue, or outliving it, goes on to wherever the queue sends it, or is dropped. */
  function Rerouted(s: State, c: nat, queue: Queue, deaths: nat): State
    requires c in s.copies
  {
    var copy := s.copies[c];
    var queues := OnwardRoute(queue, copy.key);
    if queues == [] then s.(copies := s.copies - {c})
    else
      s.(copies := WithCopies(s.copies[c := copy.(place := InQueue(queues[0], s.now), deaths := deaths)],
                              s.nextCopy, copy.event, copy.key, queues[1..], s.now),
         nextCopy := s.nextCopy + |queues| - 1)
  }

  function Start(now: Time): State {
    State(now, map[], map[], map[], 0, {}, map[], {})
  }

  // ---------------------------------------------------------------- the Lark consumer's decision

  datatype Handling =
    | Undecodable | LookupFailed | SeenBefore | HandlerFailed(retryable: bool) | Handled(recorded: bool)

  datatype Decision = Acknowledge | Reject | DeadLetter

  function Decide(handling: Handling, deaths: nat): Decision {
    match handling
    case Undecodable => DeadLetter
    case LookupFailed => Reject
    case SeenBefore => Acknowledge
    case HandlerFailed(retryable) => if retryable && deaths + 1 < MAX_DELIVERY_TRIES then Reject else DeadLetter
    case Handled(recorded) => if recorded then Acknowledge else Reject
  }

  // ---------------------------------------------------------------- steps

  datatype Step =
    | Tick(to: Time)
    | Enqueue(id: Id, key: RoutingKey)
    | ClaimBatch(relay: Id, ids: seq<Id>)
    /** `arrived` tells whether an unconfirmed message reached the broker all the same. */
    | Publish(relay: Id, acknowledged: bool, arrived: bool)
    | MarkPublished(relay: Id)
    | MarkFailed(relay: Id)
    | Crash(relay: Id)
    | Deliver(copy: nat)
    /** A consumer that stops, or refuses with requeueing, gives a copy back. */
    | Return(copy: nat)
    | ConsumeNoop(copy: nat, decodable: bool)
    | ConsumeLark(copy: nat, handling: Handling, acknowledged: bool, arrived: bool)
    | Ack(copy: nat)
    | ExpireRetry(copy: nat)

  predicate Distinct(ids: seq<Id>) {
    forall i, j :: 0 <= i < j < |ids| ==> ids[i] != ids[j]
  }

  predicate Claimable(s: State, ids: seq<Id>) {
    Distinct(ids) && forall id :: id in ids ==> id in s.rows && Eligible(s.rows[id], s.now)
  }

  function ClaimsOf(rows: map<Id, Row>, ids: seq<Id>): seq<Claim>
    requires forall id :: id in ids ==> id in rows
  {
    seq(|ids|, i requires 0 <= i < |ids| => Claim(ids[i], rows[ids[i]].attempts + 1))
  }

  predicate Busy(s: State, relay: Id) {
    relay in s.relays && s.relays[relay].batch != [] && s.relays[relay].batch[0].id in s.rows
  }

  predicate HeldBy(s: State, c: nat, queue: Queue) {
    c in s.copies && s.copies[c].home == queue && s.copies[c].place.Held?
  }

  function PublishStep(s: State, relay: Id, acknowledged: bool, arrived: bool): State
    requires Busy(s, relay)
  {
    var work := s.relays[relay];
    var event := work.batch[0].id;
    var routed := Route(EventsExchange, s.rows[event].key) != [];
    var sent := if acknowledged || arrived then Republished(s, event, EventsExchange) else s;
    if acknowledged && routed
    then sent.(relays := s.relays[relay := work.(progress := Confirmed)], confirmed := s.confirmed + {event})
    else sent.(relays := s.relays[relay := work.(progress := Refused)])
  }

  function ConsumeLarkStep(s: State, c: nat, handling: Handling, acknowledged: bool, arrived: bool): State
    requires HeldBy(s, c, LarkDMQueue) && s.copies[c].event in s.rows
  {
    var copy := s.copies[c];
    match Decide(handling, copy.deaths)
    case Acknowledge =>
      if handling.SeenBefore? && (LarkDMQueue, copy.event) !in s.consumed then s
      else s.(copies := s.copies[c := copy.(place := Settled)], consumed := s.consumed + {(LarkDMQueue, copy.event)})
    case Reject => Rerouted(s, c, LarkDMQueue, copy.deaths + 1)
    case DeadLetter =>
      var sent := if acknowledged || arrived then Republished(s, copy.event, DeadExchange) else s;
      if acknowledged then sent.(copies := sent.copies[c := copy.(place := Settled)]) else sent
  }

  function Next(s: State, step: Step): State {
    match step
    case Tick(to) => if to < s.now then s else s.(now := to)
    case Enqueue(id, key) =>
      if id in s.rows then s
      else s.(rows := s.rows[id := Row(key, Pending, 0, s.now, s.now)], marked := s.marked[id := s.now])
    case ClaimBatch(relay, ids) =>
      if !Claimable(s, ids) then s
      else s.(rows := ClaimedRows(s.rows, ids, s.now),
              relays := s.relays[relay := Relay(ClaimsOf(s.rows, ids), Waiting)],
              marked := map id | id in s.marked.Keys + (set x | x in ids) ::
                if id in ids then s.now else s.marked[id])
    case Publish(relay, acknowledged, arrived) =>
      if Busy(s, relay) && s.relays[relay].progress.Waiting? then PublishStep(s, relay, acknowledged, arrived) else s
    case MarkPublished(relay) =>
      if !(Busy(s, relay) && s.relays[relay].progress.Confirmed?) then s
      else
        var work := s.relays[relay];
        var id := work.batch[0].id;
        s.(rows := s.rows[id := PublishedRow(s.rows[id])], relays := s.relays[relay := Relay(work.batch[1..], Waiting)])
    case MarkFailed(relay) =>
      if !(Busy(s, relay) && s.relays[relay].progress.Refused?) then s
      else
        var work := s.relays[relay];
        var id := work.batch[0].id;
        s.(rows := s.rows[id := FailedRow(s.rows[id], work.batch[0].attempt, s.now)],
           relays := s.relays[relay := Relay(work.batch[1..], Waiting)],
           marked := s.marked[id := s.now])
    case Crash(relay) => s.(relays := s.relays - {relay})
    case Deliver(c) =>
      if c in s.copies && s.copies[c].place.InQueue? && s.copies[c].place.queue == s.copies[c].home
         && (s.copies[c].home.NoopQueue? || s.copies[c].home.LarkDMQueue?)
      then s.(copies := s.copies[c := s.copies[c].(place := Held)]) else s
    case Return(c) =>
      if c in s.copies && (s.copies[c].place.Held? || s.copies[c].place.Settled?)
      then s.(copies := s.copies[c := s.copies[c].(place := InQueue(s.copies[c].home, s.now))]) else s
    case ConsumeNoop(c, decodable) =>
      if !HeldBy(s, c, NoopQueue) then s
      else if !decodable then Rerouted(s, c, NoopQueue, s.copies[c].deaths)
      else s.(copies := s.copies[c := s.copies[c].(place := Settled)],
              consumed := s.consumed + {(NoopQueue, s.copies[c].event)})
    case ConsumeLark(c, handling, acknowledged, arrived) =>
      if HeldBy(s, c, LarkDMQueue) && s.copies[c].event in s.rows
      then ConsumeLarkStep(s, c, handling, acknowledged, arrived) else s
    case Ack(c) =>
      if c in s.copies && s.copies[c].place.Settled?
      then s.(copies := s.copies[c := s.copies[c].(place := Acked)]) else s
    case ExpireRetry(c) =>
      if c in s.copies && s.copies[c].place.InQueue? && s.copies[c].place.queue.RetryQueue?
         && s.copies[c].place.since + RETRY_TTL <= s.now
      then Rerouted(s, c, RetryQueue, s.copies[c].deaths) else s
  }

  function Run(s: State, steps: seq<Step>): State
    decreases |steps|
  {
    if steps == [] then s else Run(Next(s, steps[0]), steps[1..])
  }
}
