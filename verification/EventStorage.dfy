/**
 The outbox store, the relay's publishing loop and the Lark consumer's handling of
 one delivery, as they run, proved against the steps of the pipeline.
 */
module EventStorage {
  import opened Common
  import opened Broker
  import opened EventPipeline

  predicate Precedes(rows: map<Id, Row>, a: Id, b: Id)
    requires a in rows && b in rows
  {
    rows[a].createdAt < rows[b].createdAt || (rows[a].createdAt == rows[b].createdAt && a < b)
  }

  /** The oldest of some rows, by creation time and then id. */
  method Oldest(rows: map<Id, Row>, candidates: set<Id>) returns (oldest: Id)
    requires candidates != {} && candidates <= rows.Keys
    ensures oldest in candidates
    ensures forall id :: id in candidates && id != oldest ==> Precedes(rows, oldest, id)
  {
    oldest :| oldest in candidates;
    var left := candidates - {oldest};
    while left != {}
      invariant oldest in candidates && oldest !in left && left <= candidates
      invariant forall id :: id in candidates && id !in left && id != oldest ==> Precedes(rows, oldest, id)
      decreases left
    {
      var id :| id in left;
      if Precedes(rows, id, oldest) {
        oldest := id;
      }
      left := left - {id};
    }
  }

  function EffectiveLimit(limit: int): nat {
    if limit < 1 || limit > 200 then 50 else limit
  }

  /** Unpublished, due, and in nobody else's hands. */
  predicate Open(rows: map<Id, Row>, locked: set<Id>, now: Time, id: Id) {
    id in rows && !rows[id].status.Published? && rows[id].nextAttemptAt <= now && id !in locked
  }

  /** What the claim query selects: the oldest open rows in order, up to the limit, which is 50 outside 1 to 200. */
  ghost predicate IsBatch(rows: map<Id, Row>, locked: set<Id>, now: Time, limit: int, batch: seq<Id>) {
    && |batch| <= (if 1 <= limit <= 200 then limit else 50)
    && (forall i :: 0 <= i < |batch| ==> Open(rows, locked, now, batch[i]))
    && (forall i, j :: 0 <= i < j < |batch| ==>
          && rows[batch[i]].createdAt <= rows[batch[j]].createdAt
          && (rows[batch[i]].createdAt == rows[batch[j]].createdAt ==> batch[i] < batch[j]))
    && (forall id, i :: Open(rows, locked, now, id) && id !in batch && 0 <= i < |batch| ==>
          && rows[batch[i]].createdAt <= rows[id].createdAt
          && (rows[batch[i]].createdAt == rows[id].createdAt ==> batch[i] < id))
    && ((exists id :: Open(rows, locked, now, id) && id !in batch) ==>
          |batch| == if 1 <= limit <= 200 then limit else 50)
  }

  method SelectBatch(rows: map<Id, Row>, locked: set<Id>, now: Time, limit: int) returns (batch: seq<Id>)
    ensures IsBatch(rows, locked, now, limit, batch)
  {
    var left := set id | id in rows && Eligible(rows[id], now) && id !in locked;
    ghost var all := left;
    batch := [];
    while left != {} && |batch| < EffectiveLimit(limit)
      invariant |batch| <= EffectiveLimit(limit) && left <= all
      invariant forall id :: id in all <==> id in left || id in batch
      invariant forall i :: 0 <= i < |batch| ==> batch[i] in all && batch[i] !in left
      invariant forall i, j :: 0 <= i < j < |batch| ==> Precedes(rows, batch[i], batch[j])
      invariant forall i, id :: 0 <= i < |batch| && id in left ==> Precedes(rows, batch[i], id)
      decreases left
    {
      var id := Oldest(rows, left);
      left := left - {id};
      batch := batch + [id];
    }
    assert forall id :: Open(rows, locked, now, id) <==> id in all;
  }

  lemma BatchesAreClaimable(s: State, locked: set<Id>, limit: int, batch: seq<Id>)
    requires IsBatch(s.rows, locked, s.now, limit, batch)
    ensures Claimable(s, batch)
  {
    forall i, j | 0 <= i < j < |batch|
      ensures batch[i] != batch[j]
    {
      assert s.rows[batch[i]].createdAt <= s.rows[batch[j]].createdAt;
    }
  }

  /** What a mark leaves of a row: published, or pending again after the delay of its attempt. */
  function MarkedRow(row: Row, attempt: nat, confirmed: bool, at: Time): Row {
    Row(row.key, if confirmed then Published else Pending, row.attempts,
        if confirmed then row.nextAttemptAt else at + RetryDelay(attempt), row.createdAt)
  }

  predicate DistinctClaims(claims: seq<Claim>) {
    forall i, j :: 0 <= i < j < |claims| ==> claims[i].id != claims[j].id
  }

  /** From the claim at `from` on, each claimed row is marked by its publish's outcome, and no other row changes. */
  ghost predicate MarkedFrom(
    before: map<Id, Row>, claims: seq<Claim>, confirmed: nat -> bool, at: nat -> Time, from: nat, after: map<Id, Row>)
  {
    && after.Keys == before.Keys
    && (forall i :: from <= i < |claims| ==>
          claims[i].id in before
          && after[claims[i].id] == MarkedRow(before[claims[i].id], claims[i].attempt, confirmed(i), at(i)))
    && (forall id :: id in before && (forall i :: from <= i < |claims| ==> claims[i].id != id) ==> after[id] == before[id])
  }

  /**
   A round, in columns: exactly the batch is touched; a row is published if and only if
   the broker confirmed it, and otherwise pending again after the delay of its new attempt.
   */
  ghost predicate RoundLeaves(
    before: map<Id, Row>, ids: seq<Id>, now: Time, confirmed: nat -> bool, at: nat -> Time, after: map<Id, Row>)
  {
    && after.Keys == before.Keys
    && (forall id :: id in before && id !in ids ==> after[id] == before[id])
    && (forall i :: 0 <= i < |ids| ==>
          && ids[i] in before
          && var row := before[ids[i]];
             after[ids[i]] ==
               if confirmed(i) then Row(row.key, Published, row.attempts + 1, now + 30_000_000_000, row.createdAt)
               else Row(row.key, Pending, row.attempts + 1, at(i) + RetryDelay(row.attempts + 1), row.createdAt))
  }

  lemma MarkedRoundLeaves(
    before: map<Id, Row>, ids: seq<Id>, now: Time, confirmed: nat -> bool, at: nat -> Time, after: map<Id, Row>)
    requires forall id :: id in ids ==> id in before
    requires MarkedFrom(ClaimedRows(before, ids, now), ClaimsOf(before, ids), confirmed, at, 0, after)
    ensures RoundLeaves(before, ids, now, confirmed, at, after)
  {
    var claims := ClaimsOf(before, ids);
    forall id | id in before && id !in ids
      ensures after[id] == before[id]
    {
      assert forall i :: 0 <= i < |claims| ==> claims[i].id == ids[i] && ids[i] != id;
    }
    forall i | 0 <= i < |ids|
      ensures ids[i] in before && after[ids[i]] ==
                MarkedRow(ClaimedRows(before, ids, now)[ids[i]], before[ids[i]].attempts + 1, confirmed(i), at(i))
    {
      assert claims[i].id == ids[i];
    }
  }

  class OutboxStore {
    var rows: map<Id, Row>
    var consumptions: set<(Queue, Id)>

    /** Rows another transaction has locked are skipped. Each claimed event carries its new attempt count. */
    method ClaimBatch(limit: int, locked: set<Id>, now: Time) returns (ids: seq<Id>, claims: seq<Claim>)
      modifies this`rows
      ensures IsBatch(old(rows), locked, now, limit, ids)
      ensures forall id :: id in ids ==> id in old(rows)
      ensures rows == ClaimedRows(old(rows), ids, now) && claims == ClaimsOf(old(rows), ids)
    {
      ids := SelectBatch(rows, locked, now, limit);
      assert forall id :: id in ids ==> id in rows;
      claims := seq(|ids|, i requires 0 <= i < |ids| && ids[i] in rows reads this => Claim(ids[i], rows[ids[i]].attempts + 1));
      rows := map id | id in rows :: if id in ids then ClaimedRow(rows[id], now) else rows[id];
    }

    method MarkPublished(id: Id) returns (found: bool)
      modifies this`rows
      ensures found == (id in old(rows))
      ensures rows == if found then old(rows)[id := PublishedRow(old(rows)[id])] else old(rows)
    {
      found := id in rows;
      if found {
        rows := rows[id := rows[id].(status := Published)];
      }
    }

    method MarkFailed(id: Id, attempt: nat, now: Time)
      modifies this`rows
      ensures rows == if id in old(rows) then old(rows)[id := FailedRow(old(rows)[id], attempt, now)] else old(rows)
    {
      var delay := SECOND * Doubled(Min(attempt, 8));
      if delay > MAX_DELAY {
        delay := MAX_DELAY;
      }
      if id in rows {
        rows := rows[id := rows[id].(status := Pending, nextAttemptAt := now + delay)];
      }
    }

    method WasConsumed(consumer: Queue, event: Id) returns (consumed: bool)
      ensures consumed == ((consumer, event) in consumptions)
    {
      consumed := (consumer, event) in consumptions;
    }

    /** True for the first to record the pair. */
    method MarkConsumed(consumer: Queue, event: Id) returns (first: bool)
      modifies this`consumptions
      ensures first == ((consumer, event) !in old(consumptions))
      ensures consumptions == old(consumptions) + {(consumer, event)}
    {
      first := (consumer, event) !in consumptions;
      consumptions := consumptions + {(consumer, event)};
    }
  }

  /** The relay's loop: the publisher's answer decides how each claimed row is marked. */
  method MarkBatch(store: OutboxStore, claims: seq<Claim>, confirmed: nat -> bool, at: nat -> Time)
    requires forall i :: 0 <= i < |claims| ==> claims[i].id in store.rows
    requires DistinctClaims(claims)
    modifies store`rows
    ensures MarkedFrom(old(store.rows), claims, confirmed, at, 0, store.rows)
  {
    for i := 0 to |claims|
      invariant store.rows.Keys == old(store.rows).Keys
      invariant forall j :: 0 <= j < i ==>
                  store.rows[claims[j].id] ==
                  MarkedRow(old(store.rows)[claims[j].id], claims[j].attempt, confirmed(j), at(j))
      invariant forall id :: id in store.rows && (forall j :: 0 <= j < i ==> claims[j].id != id) ==>
                  store.rows[id] == old(store.rows)[id]
    {
      if !confirmed(i) {
        store.MarkFailed(claims[i].id, claims[i].attempt, at(i));
        continue;
      }
      var found := store.MarkPublished(claims[i].id);
      if !found {
        return;
      }
    }
  }

  /** One round of a relay that no crash cuts short. */
  method PublishPending(store: OutboxStore, locked: set<Id>, now: Time, confirmed: nat -> bool, at: nat -> Time)
    returns (ids: seq<Id>)
    modifies store`rows
    ensures IsBatch(old(store.rows), locked, now, 50, ids)
    ensures RoundLeaves(old(store.rows), ids, now, confirmed, at, store.rows)
  {
    ghost var before := store.rows;
    var claims;
    ids, claims := store.ClaimBatch(50, locked, now);
    assert DistinctClaims(claims) by {
      BatchIsDistinct(before, locked, now, 50, ids);
    }
    MarkBatch(store, claims, confirmed, at);
    MarkedRoundLeaves(before, ids, now, confirmed, at, store.rows);
  }

  lemma BatchIsDistinct(rows: map<Id, Row>, locked: set<Id>, now: Time, limit: int, batch: seq<Id>)
    requires IsBatch(rows, locked, now, limit, batch)
    ensures Distinct(batch)
  {
    forall i, j | 0 <= i < j < |batch|
      ensures batch[i] != batch[j]
    {
      assert rows[batch[i]].createdAt <= rows[batch[j]].createdAt;
    }
  }

  // ---------------------------------------------------------------- a round is a run of the pipeline

  /** What the broker does with the publishes of a round: acknowledges them, or takes them all the same. */
  datatype Broking = Broking(acknowledged: nat -> bool, arrived: nat -> bool, at: nat -> Time)

  /** The publisher reports success: the broker acknowledged a message it could route. */
  function Confirmation(rows: map<Id, Row>, claims: seq<Claim>, b: Broking): nat -> bool {
    (i: nat) =>
         && i < |claims| && claims[i].id in rows
         && b.acknowledged(i) && Route(EventsExchange, rows[claims[i].id].key) != []
  }

  /** Publishing the event at `i` and marking its row. */
  function EventSteps(relay: Id, confirmed: bool, b: Broking, i: nat): seq<Step> {
    [Tick(b.at(i)), Publish(relay, b.acknowledged(i), b.arrived(i)),
     if confirmed then EventPipeline.MarkPublished(relay) else EventPipeline.MarkFailed(relay)]
  }

  function StepsFrom(rows: map<Id, Row>, relay: Id, claims: seq<Claim>, b: Broking, from: nat): seq<Step>
    requires from <= |claims| && forall i :: 0 <= i < |claims| ==> claims[i].id in rows
    decreases |claims| - from
  {
    if from == |claims| then []
    else EventSteps(relay, Confirmation(rows, claims, b)(from), b, from) + StepsFrom(rows, relay, claims, b, from + 1)
  }

  lemma {:induction false} RunAppend(s: State, first: seq<Step>, second: seq<Step>)
    ensures Run(s, first + second) == Run(Run(s, first), second)
    decreases |first|
  {
    if first == [] {
      assert first + second == second;
    } else {
      assert (first + second)[1..] == first[1..] + second;
      RunAppend(Next(s, first[0]), first[1..], second);
    }
  }

  /** A relay waiting at an event. */
  predicate AtEvent(s: State, relay: Id, claims: seq<Claim>, from: nat) {
    && from <= |claims| && relay in s.relays && s.relays[relay] == Relay(claims[from..], Waiting)
    && (forall i :: 0 <= i < |claims| ==> claims[i].id in s.rows)
  }

  lemma PublishedAtEvent(s: State, relay: Id, claims: seq<Claim>, b: Broking, from: nat)
    requires AtEvent(s, relay, claims, from) && from < |claims|
    ensures var t := Next(s, Publish(relay, b.acknowledged(from), b.arrived(from)));
            && t.rows == s.rows && t.now == s.now && relay in t.relays
            && t.relays[relay] ==
                 Relay(claims[from..], if Confirmation(s.rows, claims, b)(from) then Confirmed else Refused)
  {
    assert claims[from..][0] == claims[from];
  }

  lemma MarkedAtEvent(s: State, relay: Id, claims: seq<Claim>, from: nat, confirmed: bool)
    requires from < |claims| && relay in s.relays && forall i :: 0 <= i < |claims| ==> claims[i].id in s.rows
    requires s.relays[relay] == Relay(claims[from..], if confirmed then Confirmed else Refused)
    ensures var t := Next(s, if confirmed then EventPipeline.MarkPublished(relay) else EventPipeline.MarkFailed(relay));
            && AtEvent(t, relay, claims, from + 1) && t.now == s.now
            && t.rows == s.rows[claims[from].id :=
                 MarkedRow(s.rows[claims[from].id], claims[from].attempt, confirmed, s.now)]
  {
    assert claims[from..][0] == claims[from] && claims[from..][1..] == claims[from + 1..];
  }

  lemma RunThree(s: State, a: Step, b: Step, c: Step)
    ensures Run(s, [a, b, c]) == Next(Next(Next(s, a), b), c)
  {
    var t := Next(Next(s, a), b);
    assert [a, b, c][1..] == [b, c] && [b, c][1..] == [c] && [c][1..] == [];
    assert Run(t, [c]) == Next(t, c);
    assert Run(Next(s, a), [b, c]) == Run(t, [c]);
  }

  lemma OneEvent(s: State, relay: Id, claims: seq<Claim>, b: Broking, from: nat)
    requires AtEvent(s, relay, claims, from) && from < |claims| && s.now <= b.at(from)
    ensures var confirmed := Confirmation(s.rows, claims, b)(from);
            var end := Run(s, EventSteps(relay, confirmed, b, from));
            && AtEvent(end, relay, claims, from + 1) && end.now == b.at(from)
            && end.rows == s.rows[claims[from].id :=
                 MarkedRow(s.rows[claims[from].id], claims[from].attempt, confirmed, b.at(from))]
  {
    var confirmed := Confirmation(s.rows, claims, b)(from);
    var ticked := s.(now := b.at(from));
    assert Next(s, Tick(b.at(from))) == ticked;
    PublishedAtEvent(ticked, relay, claims, b, from);
    MarkedAtEvent(Next(ticked, Publish(relay, b.acknowledged(from), b.arrived(from))), relay, claims, from, confirmed);
    RunThree(s, Tick(b.at(from)), Publish(relay, b.acknowledged(from), b.arrived(from)),
             if confirmed then EventPipeline.MarkPublished(relay) else EventPipeline.MarkFailed(relay));
  }

  /** Marking the first claim and then the rest is marking them all. */
  lemma MarkedOneMore(
    before: map<Id, Row>, claims: seq<Claim>, confirmed: nat -> bool, at: nat -> Time, from: nat, after: map<Id, Row>)
    requires from < |claims| && DistinctClaims(claims) && claims[from].id in before
    requires var id := claims[from].id;
             MarkedFrom(before[id := MarkedRow(before[id], claims[from].attempt, confirmed(from), at(from))],
                        claims, confirmed, at, from + 1, after)
    ensures MarkedFrom(before, claims, confirmed, at, from, after)
  {
  }

  lemma {:induction false} EventsFrom(
    s: State, relay: Id, rows: map<Id, Row>, claims: seq<Claim>, b: Broking, from: nat)
    requires AtEvent(s, relay, claims, from) && DistinctClaims(claims)
    requires s.rows.Keys == rows.Keys && forall id :: id in rows ==> s.rows[id].key == rows[id].key
    requires forall i :: from <= i < |claims| ==> s.now <= b.at(i)
    requires forall i, j :: from <= i <= j < |claims| ==> b.at(i) <= b.at(j)
    ensures MarkedFrom(s.rows, claims, Confirmation(rows, claims, b), b.at, from,
                       Run(s, StepsFrom(rows, relay, claims, b, from)).rows)
    decreases |claims| - from
  {
    if from < |claims| {
      var first := EventSteps(relay, Confirmation(rows, claims, b)(from), b, from);
      OneEvent(s, relay, claims, b, from);
      assert Confirmation(s.rows, claims, b)(from) == Confirmation(rows, claims, b)(from);
      EventsFrom(Run(s, first), relay, rows, claims, b, from + 1);
      RunAppend(s, first, StepsFrom(rows, relay, claims, b, from + 1));
      MarkedOneMore(s.rows, claims, Confirmation(rows, claims, b), b.at, from,
                    Run(s, StepsFrom(rows, relay, claims, b, from)).rows);
    }
  }

  /** The steps of a round: the claim, then publish and mark for each event of the batch. */
  function RoundSteps(s: State, relay: Id, ids: seq<Id>, b: Broking): seq<Step>
    requires forall id :: id in ids ==> id in s.rows
  {
    [EventPipeline.ClaimBatch(relay, ids)] + StepsFrom(s.rows, relay, ClaimsOf(s.rows, ids), b, 0)
  }

  predicate ClockRuns(now: Time, at: nat -> Time, n: nat) {
    && (forall i :: 0 <= i < n ==> now <= at(i))
    && (forall i, j :: 0 <= i <= j < n ==> at(i) <= at(j))
  }

  lemma RoundMarks(s: State, relay: Id, ids: seq<Id>, b: Broking)
    requires Claimable(s, ids) && ClockRuns(s.now, b.at, |ids|)
    ensures var claims := ClaimsOf(s.rows, ids);
            MarkedFrom(ClaimedRows(s.rows, ids, s.now), claims, Confirmation(s.rows, claims, b), b.at, 0,
                       Run(s, RoundSteps(s, relay, ids, b)).rows)
  {
    var claims := ClaimsOf(s.rows, ids);
    var claim := EventPipeline.ClaimBatch(relay, ids);
    var claimed := Next(s, claim);
    assert claims[0..] == claims;
    var steps := StepsFrom(s.rows, relay, claims, b, 0);
    assert ([claim] + steps)[1..] == steps;
    EventsFrom(claimed, relay, s.rows, claims, b, 0);
  }

  lemma RoundLeavesOne(
    before: map<Id, Row>, ids: seq<Id>, now: Time, confirmed: nat -> bool, at: nat -> Time, x: map<Id, Row>, y: map<Id, Row>)
    requires RoundLeaves(before, ids, now, confirmed, at, x) && RoundLeaves(before, ids, now, confirmed, at, y)
    ensures x == y
  {
    forall id | id in before
      ensures x[id] == y[id]
    {
      if id in ids {
        var i :| 0 <= i < |ids| && ids[i] == id;
      }
    }
  }

  /**
   What PublishPending leaves in the outbox is what the pipeline's own steps leave: in
   any state a round is the claim of its batch followed by publish and mark, event by
   event. So whatever holds of every run of the pipeline holds of relays.
   */
  lemma RoundIsARun(s: State, relay: Id, locked: set<Id>, limit: int, ids: seq<Id>, b: Broking, after: map<Id, Row>)
    requires IsBatch(s.rows, locked, s.now, limit, ids) && ClockRuns(s.now, b.at, |ids|)
    requires forall id :: id in ids ==> id in s.rows
    requires RoundLeaves(s.rows, ids, s.now, Confirmation(s.rows, ClaimsOf(s.rows, ids), b), b.at, after)
    ensures Run(s, RoundSteps(s, relay, ids, b)).rows == after
  {
    BatchesAreClaimable(s, locked, limit, ids);
    RoundMarks(s, relay, ids, b);
    var confirmed, end := Confirmation(s.rows, ClaimsOf(s.rows, ids), b), Run(s, RoundSteps(s, relay, ids, b)).rows;
    MarkedRoundLeaves(s.rows, ids, s.now, confirmed, b.at, end);
    RoundLeavesOne(s.rows, ids, s.now, confirmed, b.at, end, after);
  }

  // ---------------------------------------------------------------- the Lark consumer

  /** An entry of the broker's rejection history; its count may be missing or of another type. */
  datatype Death = Death(queue: Queue, count: Option<int>)

  function LarkDeaths(deaths: seq<Death>): nat {
    if deaths == [] then 0
    else
      var rest := LarkDeaths(deaths[..|deaths| - 1]);
      var last := deaths[|deaths| - 1];
      if last.queue.LarkDMQueue? && last.count.Some? && last.count.value > rest then last.count.value else rest
  }

  /** How often the Lark queue has rejected the delivery: the largest count of its entries, or none. */
  method DeliveryAttempt(deaths: seq<Death>) returns (attempts: nat)
    ensures attempts == LarkDeaths(deaths)
    ensures forall i :: 0 <= i < |deaths| && deaths[i].queue.LarkDMQueue? && deaths[i].count.Some? ==>
              deaths[i].count.value <= attempts
    ensures attempts == 0 || Death(LarkDMQueue, Some(attempts)) in deaths
  {
    attempts := 0;
    for i := 0 to |deaths|
      invariant attempts == LarkDeaths(deaths[..i])
      invariant forall j :: 0 <= j < i && deaths[j].queue.LarkDMQueue? && deaths[j].count.Some? ==>
                  deaths[j].count.value <= attempts
      invariant attempts == 0 || Death(LarkDMQueue, Some(attempts)) in deaths
    {
      assert deaths[..i + 1][..i] == deaths[..i];
      if deaths[i].queue != LarkDMQueue {
        continue;
      }
      if deaths[i].count != None && deaths[i].count.value > attempts {
        attempts := deaths[i].count.value;
      }
    }
    assert deaths[..|deaths|] == deaths;
  }

  datatype ProviderCategory = Uncategorized | RateLimited | Unavailable | OtherCategory

  predicate RetryableDelivery(category: ProviderCategory) {
    category.Uncategorized? || category.RateLimited? || category.Unavailable?
  }

  /** What the outside world answers while one delivery is handled. */
  datatype World = World(decodable: bool, lookupFails: bool, failure: Option<ProviderCategory>, recordFails: bool)

  function HandlingIn(world: World, consumed: bool): Handling {
    if !world.decodable then Undecodable
    else if world.lookupFails then LookupFailed
    else if consumed then SeenBefore
    else if world.failure.Some? then HandlerFailed(RetryableDelivery(world.failure.value))
    else Handled(!world.recordFails)
  }

  /** One turn of the Lark consumer: the decision, and the consumption recorded before an acknowledgement. */
  method HandleLarkDelivery(store: OutboxStore, event: Id, deaths: seq<Death>, world: World)
    returns (decision: Decision)
    modifies store`consumptions
    ensures decision == Decide(HandlingIn(world, (LarkDMQueue, event) in old(store.consumptions)), LarkDeaths(deaths))
    ensures decision.Acknowledge? ==> (LarkDMQueue, event) in store.consumptions
    ensures decision.Acknowledge? <==>
              && world.decodable && !world.lookupFails
              && ((LarkDMQueue, event) in old(store.consumptions) || (world.failure.None? && !world.recordFails))
    ensures decision.DeadLetter? <==>
              || !world.decodable
              || (&& !world.lookupFails && (LarkDMQueue, event) !in old(store.consumptions) && world.failure.Some?
                  && (world.failure.value.OtherCategory? || LarkDeaths(deaths) >= 4))
    ensures store.consumptions == old(store.consumptions) + if decision.Acknowledge? then {(LarkDMQueue, event)} else {}
  {
    if !world.decodable {
      return DeadLetter;
    }
    if world.lookupFails {
      return Reject;
    }
    var consumed := store.WasConsumed(LarkDMQueue, event);
    if consumed {
      return Acknowledge;
    }
    if world.failure != None {
      var counted := DeliveryAttempt(deaths);
      var attempt := counted + 1;
      if RetryableDelivery(world.failure.value) && attempt < MAX_DELIVERY_TRIES {
        return Reject;
      }
      return DeadLetter;
    }
    if world.recordFails {
      return Reject;
    }
    var first := store.MarkConsumed(LarkDMQueue, event);
    assert first;
    decision := Acknowledge;
  }
}
