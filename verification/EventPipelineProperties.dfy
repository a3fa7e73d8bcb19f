/**
 No event is lost: with any number of relays, crashes and redeliveries, a row is
 published only after the broker confirmed it, an unpublished row becomes claimable
 again, and every copy stays in a queue or is acknowledged after it is accounted for.
 */
module EventPipelineProperties {
  import opened Common
  import opened Broker
  import opened EventPipeline

  // ---------------------------------------------------------------- outbox rows

  /** An unpublished row can be claimed again 256 seconds after its last claim or failure, a published one is confirmed. */
  predicate RowFits(s: State, id: Id)
    requires id in s.rows
  {
    && id in s.marked && s.marked[id] <= s.now
    && (if s.rows[id].status.Published? then id in s.confirmed else s.rows[id].nextAttemptAt <= s.marked[id] + 256 * SECOND)
  }

  predicate RelayFits(s: State, work: Relay) {
    && (forall i :: 0 <= i < |work.batch| ==> work.batch[i].id in s.rows)
    && (work.progress.Confirmed? ==> work.batch != [] && work.batch[0].id in s.confirmed)
  }

  predicate RowsFit(s: State) {
    && (forall id :: id in s.rows ==> RowFits(s, id))
    && (forall r :: r in s.relays ==> RelayFits(s, s.relays[r]))
  }

  /** Rows stay, keep their routing key, and what was confirmed or consumed stays so. */
  predicate Grows(s: State, next: State) {
    && (forall id :: id in s.rows ==> id in next.rows && next.rows[id].key == s.rows[id].key)
    && s.confirmed <= next.confirmed && s.consumed <= next.consumed
    && s.now <= next.now
  }

  /** Steps of the broker and its consumers, which leave the outbox alone. */
  predicate BrokerStep(step: Step) {
    || step.Deliver? || step.Return? || step.ConsumeNoop? || step.ConsumeLark? || step.Ack? || step.ExpireRetry?
  }

  predicate SameOutbox(s: State, next: State) {
    && next.now == s.now && next.rows == s.rows && next.relays == s.relays
    && next.marked == s.marked && next.confirmed == s.confirmed
  }

  lemma BrokerStepsKeepOutbox(s: State, step: Step)
    requires BrokerStep(step)
    ensures SameOutbox(s, Next(s, step)) && s.consumed <= Next(s, step).consumed
  {
  }

  lemma StepGrows(s: State, step: Step)
    ensures Grows(s, Next(s, step))
  {
    if BrokerStep(step) {
      BrokerStepsKeepOutbox(s, step);
    }
  }

  lemma ClaimKeepsRows(s: State, relay: Id, ids: seq<Id>)
    requires RowsFit(s)
    ensures RowsFit(Next(s, ClaimBatch(relay, ids)))
  {
    var next := Next(s, ClaimBatch(relay, ids));
    forall id | id in next.rows
      ensures RowFits(next, id)
    {
      assert RowFits(s, id);
    }
    forall r | r in next.relays
      ensures RelayFits(next, next.relays[r])
    {
      assert r in s.relays ==> RelayFits(s, s.relays[r]);
    }
  }

  lemma MarkKeepsRows(s: State, step: Step)
    requires RowsFit(s) && (step.MarkPublished? || step.MarkFailed?)
    ensures RowsFit(Next(s, step))
  {
    var next := Next(s, step);
    if Busy(s, step.relay) {
      var work := s.relays[step.relay];
      assert RelayFits(s, work);
      RetryDelayBound(work.batch[0].attempt);
      assert RowFits(s, work.batch[0].id);
    }
    forall id | id in next.rows
      ensures RowFits(next, id)
    {
      assert RowFits(s, id);
    }
    forall r | r in next.relays
      ensures RelayFits(next, next.relays[r])
    {
      assert RelayFits(s, s.relays[r]);
    }
  }

  lemma OtherStepsKeepRows(s: State, step: Step)
    requires RowsFit(s) && (step.Tick? || step.Enqueue? || step.Publish? || step.Crash?)
    ensures RowsFit(Next(s, step))
  {
    var next := Next(s, step);
    forall id | id in next.rows
      ensures RowFits(next, id)
    {
      assert id in s.rows ==> RowFits(s, id);
    }
    forall r | r in next.relays
      ensures RelayFits(next, next.relays[r])
    {
      assert r in s.relays && RelayFits(s, s.relays[r]);
    }
  }

  lemma SameOutboxFits(s: State, next: State)
    requires RowsFit(s) && SameOutbox(s, next)
    ensures RowsFit(next)
  {
    forall id | id in next.rows
      ensures RowFits(next, id)
    {
      assert RowFits(s, id);
    }
    forall r | r in next.relays
      ensures RelayFits(next, next.relays[r])
    {
      assert RelayFits(s, s.relays[r]);
    }
  }

  lemma RowsStep(s: State, step: Step)
    requires RowsFit(s)
    ensures RowsFit(Next(s, step))
  {
    if BrokerStep(step) {
      BrokerStepsKeepOutbox(s, step);
      SameOutboxFits(s, Next(s, step));
    } else if step.ClaimBatch? {
      ClaimKeepsRows(s, step.relay, step.ids);
    } else if step.MarkPublished? || step.MarkFailed? {
      MarkKeepsRows(s, step);
    } else {
      OtherStepsKeepRows(s, step);
    }
  }

  // ---------------------------------------------------------------- broker copies

  predicate InDeadQueue(copy: Copy) {
    copy.place.InQueue? && copy.place.queue.DeadQueue?
  }

  /** A copy of the event lies in the dead queue, where operators find it. */
  predicate Buried(s: State, event: Id) {
    exists d :: d in s.copies && s.copies[d].event == event && InDeadQueue(s.copies[d])
  }

  /** Why acknowledging a copy loses nothing. */
  predicate Accounted(s: State, copy: Copy) {
    (copy.home, copy.event) in s.consumed || Buried(s, copy.event)
  }

  /** The queues a copy may be in, given where it was first routed. */
  predicate MayLieIn(home: Queue, queue: Queue) {
    match home
    case NoopQueue => queue.NoopQueue? || queue.DeadQueue?
    case LarkDMQueue => queue.LarkDMQueue? || queue.RetryQueue?
    case RetryQueue => false
    case DeadQueue => queue.DeadQueue?
  }

  predicate CopyFits(s: State, copy: Copy) {
    && copy.event in s.rows && copy.key == s.rows[copy.event].key
    && (copy.home.DeadQueue? || copy.home in Route(EventsExchange, copy.key))
    && match copy.place
       case InQueue(queue, _) => MayLieIn(copy.home, queue)
       case Held => !copy.home.DeadQueue?
       case Settled => !copy.home.DeadQueue? && Accounted(s, copy)
       case Acked => !copy.home.DeadQueue? && Accounted(s, copy)
  }

  /** Every queue the event was routed to has received a copy of it. */
  predicate Received(s: State, event: Id) {
    && event in s.rows
    && Route(EventsExchange, s.rows[event].key) != []
    && forall q :: q in Route(EventsExchange, s.rows[event].key) ==>
         exists c :: c in s.copies && s.copies[c].event == event && s.copies[c].home == q
  }

  predicate CopiesFit(s: State) {
    && (forall c :: c in s.copies ==> c < s.nextCopy && CopyFits(s, s.copies[c]))
    && (forall event :: event in s.confirmed ==> Received(s, event))
  }

  /** Copies never disappear, keep their event and first queue, and stay buried once buried. */
  predicate CopiesKept(s: State, next: State) {
    forall c :: c in s.copies ==>
      && c in next.copies
      && next.copies[c].event == s.copies[c].event && next.copies[c].home == s.copies[c].home
      && next.copies[c].key == s.copies[c].key
      && (InDeadQueue(s.copies[c]) ==> InDeadQueue(next.copies[c]))
  }

  lemma AccountedKept(s: State, next: State, copy: Copy)
    requires Grows(s, next) && CopiesKept(s, next) && Accounted(s, copy)
    ensures Accounted(next, copy)
  {
    if Buried(s, copy.event) {
      var d :| d in s.copies && s.copies[d].event == copy.event && InDeadQueue(s.copies[d]);
      assert d in next.copies && next.copies[d].event == copy.event && InDeadQueue(next.copies[d]);
    }
  }

  lemma FitsKept(s: State, next: State, copy: Copy)
    requires Grows(s, next) && CopiesKept(s, next) && CopyFits(s, copy)
    ensures CopyFits(next, copy)
  {
    if Accounted(s, copy) {
      AccountedKept(s, next, copy);
    }
  }

  lemma ReceivedKept(s: State, next: State, event: Id)
    requires Grows(s, next) && CopiesKept(s, next) && Received(s, event)
    ensures Received(next, event)
  {
    forall q | q in Route(EventsExchange, s.rows[event].key)
      ensures exists c :: c in next.copies && next.copies[c].event == event && next.copies[c].home == q
    {
      var c :| c in s.copies && s.copies[c].event == event && s.copies[c].home == q;
      assert c in next.copies && next.copies[c].event == event && next.copies[c].home == q;
    }
  }

  /** At most one old copy moved, to a place that fits, and what is new fits. */
  lemma CopiesExtend(s: State, next: State)
    requires CopiesFit(s) && Grows(s, next) && CopiesKept(s, next)
    requires forall c :: c in next.copies ==>
               c < next.nextCopy && ((c in s.copies && next.copies[c] == s.copies[c]) || CopyFits(next, next.copies[c]))
    requires forall event :: event in next.confirmed ==> event in s.confirmed || Received(next, event)
    ensures CopiesFit(next)
  {
    forall c | c in next.copies
      ensures CopyFits(next, next.copies[c])
    {
      if c in s.copies && next.copies[c] == s.copies[c] {
        FitsKept(s, next, s.copies[c]);
      }
    }
    forall event | event in next.confirmed
      ensures Received(next, event)
    {
      if event in s.confirmed {
        ReceivedKept(s, next, event);
      }
    }
  }

  lemma ReroutedCopy(s: State, c: nat, queue: Queue, deaths: nat)
    requires c in s.copies && |OnwardRoute(queue, s.copies[c].key)| == 1
    ensures var copy := s.copies[c];
            Rerouted(s, c, queue, deaths) ==
              s.(copies := s.copies[c := copy.(place := InQueue(OnwardRoute(queue, copy.key)[0], s.now), deaths := deaths)])
  {
    assert OnwardRoute(queue, s.copies[c].key)[1..] == [];
  }

  lemma RepublishedCopy(s: State, event: Id, exchange: Exchange)
    requires event in s.rows && |Route(exchange, s.rows[event].key)| <= 1
    ensures var queues := Route(exchange, s.rows[event].key);
            Republished(s, event, exchange) ==
              if queues == [] then s
              else s.(copies := s.copies[s.nextCopy := Copy(event, s.rows[event].key, queues[0], InQueue(queues[0], s.now), 0)],
                      nextCopy := s.nextCopy + 1)
  {
    var queues := Route(exchange, s.rows[event].key);
    if queues != [] {
      assert queues[1..] == [];
      var added := s.copies[s.nextCopy := Copy(event, s.rows[event].key, queues[0], InQueue(queues[0], s.now), 0)];
      assert WithCopies(added, s.nextCopy + 1, event, s.rows[event].key, [], s.now) == added;
    }
  }

  predicate OutboxStep(step: Step) {
    step.Tick? || step.Enqueue? || step.ClaimBatch? || step.MarkPublished? || step.MarkFailed? || step.Crash?
  }

  lemma OutboxStepsKeepCopies(s: State, step: Step)
    requires OutboxStep(step)
    ensures var next := Next(s, step);
            next.copies == s.copies && next.nextCopy == s.nextCopy && next.confirmed == s.confirmed
  {
  }

  lemma ArrivalKeepsCopies(s: State, next: State, event: Id, queue: Queue)
    requires CopiesFit(s) && Grows(s, next) && event in s.rows
    requires Route(EventsExchange, s.rows[event].key) == [queue] && (queue.NoopQueue? || queue.LarkDMQueue?)
    requires next.copies == s.copies[s.nextCopy := Copy(event, s.rows[event].key, queue, InQueue(queue, s.now), 0)]
    requires next.nextCopy == s.nextCopy + 1 && next.confirmed <= s.confirmed + {event}
    ensures CopiesFit(next) && CopiesKept(s, next)
  {
    assert s.nextCopy !in s.copies;
    var added := next.copies[s.nextCopy];
    assert CopyFits(next, added);
    assert added.event == event && added.home == queue;
    assert Received(next, event);
    CopiesExtend(s, next);
  }

  lemma PublishKeepsCopies(s: State, step: Step)
    requires CopiesFit(s) && step.Publish?
    ensures CopiesFit(Next(s, step)) && CopiesKept(s, Next(s, step))
  {
    var next := Next(s, step);
    if Busy(s, step.relay) && s.relays[step.relay].progress.Waiting? {
      var event := s.relays[step.relay].batch[0].id;
      var queues := Route(EventsExchange, s.rows[event].key);
      PublishedRoute(s.rows[event].key);
      RepublishedCopy(s, event, EventsExchange);
      if queues != [] && (step.acknowledged || step.arrived) {
        ArrivalKeepsCopies(s, next, event, queues[0]);
      } else {
        assert next.copies == s.copies && next.confirmed == s.confirmed && next.nextCopy == s.nextCopy;
        CopiesExtend(s, next);
      }
    }
  }

  /** One copy moves, the rest stay. */
  lemma MoveKeepsCopies(s: State, next: State, c: nat, moved: Copy)
    requires CopiesFit(s) && c in s.copies && Grows(s, next) && SameOutbox(s, next)
    requires next.copies == s.copies[c := moved] && next.nextCopy == s.nextCopy
    requires moved.event == s.copies[c].event && moved.home == s.copies[c].home && moved.key == s.copies[c].key
    requires InDeadQueue(s.copies[c]) ==> InDeadQueue(moved)
    requires CopyFits(s.(consumed := next.consumed), moved)
    ensures CopiesFit(next) && CopiesKept(s, next)
  {
    if Buried(s, moved.event) {
      var d :| d in s.copies && s.copies[d].event == moved.event && InDeadQueue(s.copies[d]);
      assert next.copies[d].event == moved.event && InDeadQueue(next.copies[d]);
    }
    CopiesExtend(s, next);
  }

  lemma QueueMovesKeepCopies(s: State, step: Step)
    requires CopiesFit(s) && (step.Deliver? || step.Return? || step.Ack?)
    ensures CopiesFit(Next(s, step)) && CopiesKept(s, Next(s, step))
  {
    var next := Next(s, step);
    if next != s {
      var copy := s.copies[step.copy];
      assert CopyFits(s, copy);
      PublishedRoute(copy.key);
      MoveKeepsCopies(s, next, step.copy, next.copies[step.copy]);
    }
  }

  /** After 30 seconds a rejected Lark message is back in the Lark queue, in no other. */
  lemma ExpiryReturnsToLark(s: State, c: nat)
    requires CopiesFit(s) && c in s.copies && s.copies[c].place.InQueue? && s.copies[c].place.queue.RetryQueue?
    requires s.copies[c].place.since + RETRY_TTL <= s.now
    ensures var next := Next(s, ExpireRetry(c));
            && next.copies == s.copies[c := s.copies[c].(place := InQueue(LarkDMQueue, s.now))]
            && next == s.(copies := next.copies)
  {
    var copy := s.copies[c];
    assert CopyFits(s, copy);
    PublishedRoute(copy.key);
    ReroutedCopy(s, c, RetryQueue, copy.deaths);
  }

  lemma ExpireKeepsCopies(s: State, step: Step)
    requires CopiesFit(s) && step.ExpireRetry?
    ensures CopiesFit(Next(s, step)) && CopiesKept(s, Next(s, step))
  {
    var next := Next(s, step);
    if next != s {
      ExpiryReturnsToLark(s, step.copy);
      assert CopyFits(s, s.copies[step.copy]);
      MoveKeepsCopies(s, next, step.copy, next.copies[step.copy]);
    }
  }

  lemma NoopKeepsCopies(s: State, step: Step)
    requires CopiesFit(s) && step.ConsumeNoop?
    ensures CopiesFit(Next(s, step)) && CopiesKept(s, Next(s, step))
  {
    var next := Next(s, step);
    if HeldBy(s, step.copy, NoopQueue) {
      var copy := s.copies[step.copy];
      assert CopyFits(s, copy);
      BuriedRoute(copy.key);
      ReroutedCopy(s, step.copy, NoopQueue, copy.deaths);
      MoveKeepsCopies(s, next, step.copy, next.copies[step.copy]);
    }
  }

  /** A rejected Lark message waits in the retry queue. */
  lemma RejectionWaits(s: State, c: nat)
    requires CopiesFit(s) && HeldBy(s, c, LarkDMQueue)
    ensures var copy := s.copies[c];
            Rerouted(s, c, LarkDMQueue, copy.deaths + 1) ==
              s.(copies := s.copies[c := copy.(place := InQueue(RetryQueue, s.now), deaths := copy.deaths + 1)])
  {
    var copy := s.copies[c];
    assert CopyFits(s, copy);
    Topology(copy.key);
    ReroutedCopy(s, c, LarkDMQueue, copy.deaths + 1);
  }

  /** Dead-lettering adds a copy to the dead queue before the original may be acknowledged. */
  lemma DeadLetterKeepsCopies(s: State, c: nat, acknowledged: bool)
    requires CopiesFit(s) && HeldBy(s, c, LarkDMQueue) && s.copies[c].event in s.rows
    ensures var sent := Republished(s, s.copies[c].event, DeadExchange);
            var next := if acknowledged then sent.(copies := sent.copies[c := s.copies[c].(place := Settled)]) else sent;
            CopiesFit(next) && CopiesKept(s, next)
  {
    var copy := s.copies[c];
    assert CopyFits(s, copy);
    var sent := Republished(s, copy.event, DeadExchange);
    BuriedRoute(s.rows[copy.event].key);
    RepublishedCopy(s, copy.event, DeadExchange);
    CopiesExtend(s, sent);
    if acknowledged {
      assert sent.copies[s.nextCopy].event == copy.event && InDeadQueue(sent.copies[s.nextCopy]);
      assert Buried(sent, copy.event);
      MoveKeepsCopies(sent, sent.(copies := sent.copies[c := copy.(place := Settled)]), c, copy.(place := Settled));
    }
  }

  lemma LarkKeepsCopies(s: State, c: nat, handling: Handling, acknowledged: bool, arrived: bool)
    requires CopiesFit(s) && HeldBy(s, c, LarkDMQueue) && s.copies[c].event in s.rows
    ensures var next := ConsumeLarkStep(s, c, handling, acknowledged, arrived); CopiesFit(next) && CopiesKept(s, next)
  {
    var next := ConsumeLarkStep(s, c, handling, acknowledged, arrived);
    var copy := s.copies[c];
    assert CopyFits(s, copy);
    match Decide(handling, copy.deaths)
    case Acknowledge =>
      if next != s {
        MoveKeepsCopies(s, next, c, next.copies[c]);
      }
    case Reject =>
      RejectionWaits(s, c);
      MoveKeepsCopies(s, next, c, next.copies[c]);
    case DeadLetter =>
      DeadLetterKeepsCopies(s, c, acknowledged);
  }

  lemma CopiesStep(s: State, step: Step)
    requires CopiesFit(s)
    ensures CopiesFit(Next(s, step)) && CopiesKept(s, Next(s, step))
  {
    if OutboxStep(step) {
      OutboxStepsKeepCopies(s, step);
      StepGrows(s, step);
      CopiesExtend(s, Next(s, step));
    } else {
      match step
      case Publish(_, _, _) => PublishKeepsCopies(s, step);
      case ConsumeNoop(_, _) => NoopKeepsCopies(s, step);
      case ExpireRetry(_) => ExpireKeepsCopies(s, step);
      case ConsumeLark(c, handling, acknowledged, arrived) =>
        if HeldBy(s, c, LarkDMQueue) && s.copies[c].event in s.rows {
          LarkKeepsCopies(s, c, handling, acknowledged, arrived);
        }
      case _ => QueueMovesKeepCopies(s, step);
    }
  }

  // ---------------------------------------------------------------- over whole runs

  predicate Inv(s: State) {
    RowsFit(s) && CopiesFit(s)
  }

  lemma {:induction false} RunKeepsInv(s: State, steps: seq<Step>)
    requires Inv(s)
    ensures Inv(Run(s, steps)) && CopiesKept(s, Run(s, steps)) && Grows(s, Run(s, steps))
    decreases |steps|
  {
    if steps != [] {
      StepGrows(s, steps[0]);
      RowsStep(s, steps[0]);
      CopiesStep(s, steps[0]);
      RunKeepsInv(Next(s, steps[0]), steps[1..]);
    }
  }

  /** A copy still to be consumed, or acknowledged once its consumption was recorded or it was buried. */
  predicate Safe(s: State, copy: Copy) {
    || (copy.place.InQueue? && MayLieIn(copy.home, copy.place.queue))
    || copy.place.Held?
    || Accounted(s, copy)
  }

  /**
   In every run from the start: a published row was confirmed by the broker; every
   queue a confirmed event was routed to has a copy of it; and every copy is safe.
   */
  lemma NoEventIsLost(now: Time, steps: seq<Step>)
    ensures var end := Run(Start(now), steps);
            && (forall id :: id in end.rows && end.rows[id].status.Published? ==> id in end.confirmed)
            && (forall id :: id in end.confirmed ==> Received(end, id))
            && (forall c :: c in end.copies ==> Safe(end, end.copies[c]))
  {
    RunKeepsInv(Start(now), steps);
    var end := Run(Start(now), steps);
    forall id | id in end.rows && end.rows[id].status.Published?
      ensures id in end.confirmed
    {
      assert RowFits(end, id);
    }
    forall c | c in end.copies
      ensures Safe(end, end.copies[c])
    {
      assert CopyFits(end, end.copies[c]);
    }
  }

  /** In every run from the start an unpublished row is claimable from 256 seconds after its last claim or failure mark. */
  lemma UnpublishedRowsComeBack(now: Time, steps: seq<Step>, id: Id, later: Time)
    requires var end := Run(Start(now), steps); id in end.rows && !end.rows[id].status.Published?
    ensures var end := Run(Start(now), steps);
            && id in end.marked
            && (later >= end.marked[id] + 256 * SECOND ==> Eligible(end.rows[id], later))
  {
    RunKeepsInv(Start(now), steps);
    assert RowFits(Run(Start(now), steps), id);
  }

  /** A message the Lark consumer rejects waits in the retry queue, with one more rejection on it. */
  lemma RejectedMessageWaits(s: State, c: nat, handling: Handling, acknowledged: bool, arrived: bool)
    requires Inv(s) && HeldBy(s, c, LarkDMQueue) && Decide(handling, s.copies[c].deaths).Reject?
    ensures var copy := s.copies[c];
            Next(s, ConsumeLark(c, handling, acknowledged, arrived)) ==
              s.(copies := s.copies[c := copy.(place := InQueue(RetryQueue, s.now), deaths := copy.deaths + 1)])
  {
    assert CopyFits(s, s.copies[c]);
    RejectionWaits(s, c);
  }

  /** A failure worth repeating sends a message back fewer than four rejections old, and buries none. */
  lemma RetryableFailureWaits(s: State, c: nat, acknowledged: bool, arrived: bool)
    requires Inv(s) && HeldBy(s, c, LarkDMQueue) && s.copies[c].deaths < 4
    ensures var copy := s.copies[c];
            Next(s, ConsumeLark(c, HandlerFailed(true), acknowledged, arrived)) ==
              s.(copies := s.copies[c := copy.(place := InQueue(RetryQueue, s.now), deaths := copy.deaths + 1)])
  {
    RejectedMessageWaits(s, c, HandlerFailed(true), acknowledged, arrived);
  }

  /** The fifth failed delivery, and any failure not worth repeating, ends in the dead queue before it is acknowledged. */
  lemma ExhaustedMessageIsBuried(s: State, c: nat, retryable: bool, arrived: bool)
    requires Inv(s) && HeldBy(s, c, LarkDMQueue) && (!retryable || s.copies[c].deaths >= 4)
    ensures var next := Next(s, ConsumeLark(c, HandlerFailed(retryable), true, arrived));
            && c in next.copies && next.copies[c].place.Settled?
            && Buried(next, s.copies[c].event)
  {
    var copy := s.copies[c];
    assert CopyFits(s, copy);
    BuriedRoute(copy.key);
    RepublishedCopy(s, copy.event, DeadExchange);
    var next := Next(s, ConsumeLark(c, HandlerFailed(retryable), true, arrived));
    assert next.copies[s.nextCopy].event == copy.event && InDeadQueue(next.copies[s.nextCopy]);
  }

  /** From the retry queue a message goes back to the Lark queue only, when its 30 seconds are over. */
  lemma WaitingMessageReturns(s: State, c: nat, step: Step)
    requires Inv(s) && c in s.copies && s.copies[c].place.InQueue? && s.copies[c].place.queue.RetryQueue?
    ensures var next := Next(s, step);
            && c in next.copies
            && next.copies[c] == if step == ExpireRetry(c) && s.copies[c].place.since + 30_000_000_000 <= s.now
                                 then s.copies[c].(place := InQueue(LarkDMQueue, s.now)) else s.copies[c]
  {
    if step == ExpireRetry(c) && s.copies[c].place.since + RETRY_TTL <= s.now {
      ExpiryReturnsToLark(s, c);
    } else if OutboxStep(step) {
      OutboxStepsKeepCopies(s, step);
    } else if step.Publish? {
      if Busy(s, step.relay) {
        var event := s.relays[step.relay].batch[0].id;
        PublishedRoute(s.rows[event].key);
        RepublishedCopy(s, event, EventsExchange);
      }
    } else {
      OtherCopiesStay(s, c, step);
    }
  }

  /** A consumer's or the broker's step on one copy leaves the others where they are. */
  lemma OtherCopiesStay(s: State, c: nat, step: Step)
    requires Inv(s) && c in s.copies && BrokerStep(step)
    requires s.copies[c].place.InQueue? && s.copies[c].place.queue.RetryQueue?
    requires step == ExpireRetry(c) ==> s.copies[c].place.since + RETRY_TTL > s.now
    ensures c in Next(s, step).copies && Next(s, step).copies[c] == s.copies[c]
  {
    if step.ConsumeLark? {
      if HeldBy(s, step.copy, LarkDMQueue) && s.copies[step.copy].event in s.rows {
        LarkLeavesOthers(s, step.copy, step.handling, step.acknowledged, step.arrived, c);
      }
    } else if step.ConsumeNoop? {
      if HeldBy(s, step.copy, NoopQueue) {
        BuriedRoute(s.copies[step.copy].key);
        ReroutedCopy(s, step.copy, NoopQueue, s.copies[step.copy].deaths);
      }
    } else if step.ExpireRetry? && Next(s, step) != s {
      ExpiryReturnsToLark(s, step.copy);
    }
  }

  lemma LarkLeavesOthers(s: State, c: nat, handling: Handling, acknowledged: bool, arrived: bool, other: nat)
    requires Inv(s) && HeldBy(s, c, LarkDMQueue) && s.copies[c].event in s.rows
    requires other in s.copies && other != c
    ensures var next := ConsumeLarkStep(s, c, handling, acknowledged, arrived);
            other in next.copies && next.copies[other] == s.copies[other]
  {
    var copy := s.copies[c];
    assert other < s.nextCopy;
    match Decide(handling, copy.deaths)
    case Acknowledge =>
    case Reject => RejectionWaits(s, c);
    case DeadLetter =>
      BuriedRoute(s.rows[copy.event].key);
      RepublishedCopy(s, copy.event, DeadExchange);
  }

  // ---------------------------------------------------------------- what single steps do

  function Placed(s: State, c: nat, place: Place): State
    requires c in s.copies
  {
    s.(copies := s.copies[c := s.copies[c].(place := place)])
  }

  /** Queues of consumers deliver; a consumer that stops gives back, and acknowledges only what it has settled. */
  lemma CopiesAreDelivered(s: State, c: nat)
    requires Inv(s) && c in s.copies
    ensures var copy := s.copies[c];
            var waiting := copy.place.InQueue? && (copy.home.NoopQueue? || copy.home.LarkDMQueue?)
                           && copy.place.queue == copy.home;
            && Next(s, Deliver(c)) == (if waiting then Placed(s, c, Held) else s)
            && Next(s, Return(c)) ==
                 (if copy.place.Held? || copy.place.Settled? then Placed(s, c, InQueue(copy.home, s.now)) else s)
            && Next(s, Ack(c)) == (if copy.place.Settled? then Placed(s, c, Acked) else s)
  {
  }

  /** A consumer that has done its work records it, and only then counts the message as settled. */
  lemma ConsumptionIsRecorded(s: State, c: nat, acknowledged: bool, arrived: bool)
    requires Inv(s) && c in s.copies && s.copies[c].place.Held?
    ensures var copy := s.copies[c];
            var settled := Placed(s, c, Settled).(consumed := s.consumed + {(copy.home, copy.event)});
            && (copy.home.NoopQueue? ==> Next(s, ConsumeNoop(c, true)) == settled)
            && (copy.home.LarkDMQueue? ==> Next(s, ConsumeLark(c, Handled(true), acknowledged, arrived)) == settled)
            && (copy.home.LarkDMQueue? && (LarkDMQueue, copy.event) in s.consumed ==>
                  Next(s, ConsumeLark(c, SeenBefore, acknowledged, arrived)) == Placed(s, c, Settled))
            && (copy.home.NoopQueue? ==> Next(s, ConsumeNoop(c, false)) == Placed(s, c, InQueue(DeadQueue, s.now)))
  {
    var copy := s.copies[c];
    assert CopyFits(s, copy);
    BuriedRoute(copy.key);
    ReroutedCopy(s, c, NoopQueue, copy.deaths);
    if copy.home.LarkDMQueue? && (LarkDMQueue, copy.event) in s.consumed {
      assert s.consumed + {(LarkDMQueue, copy.event)} == s.consumed;
    }
  }

  /** An event enters the outbox once, due at once; a claim takes due unpublished rows, for 30 seconds. */
  lemma OutboxIsFilledAndClaimed(s: State, id: Id, key: RoutingKey, relay: Id, ids: seq<Id>)
    ensures Next(s, Enqueue(id, key)).rows ==
              if id in s.rows then s.rows else s.rows[id := Row(key, Pending, 0, s.now, s.now)]
    ensures Next(s, ClaimBatch(relay, ids)).rows.Keys == s.rows.Keys
    ensures (exists other :: other in ids && (other !in s.rows || s.rows[other].status.Published? || s.now < s.rows[other].nextAttemptAt))
            ==> Next(s, ClaimBatch(relay, ids)) == s
    ensures Claimable(s, ids) ==> forall other :: other in s.rows ==>
              var row := s.rows[other];
              Next(s, ClaimBatch(relay, ids)).rows[other] ==
                if other in ids then Row(row.key, Publishing, row.attempts + 1, s.now + 30_000_000_000, row.createdAt) else row
    ensures Claimable(s, ids) <==>
              && (forall i, j :: 0 <= i < j < |ids| ==> ids[i] != ids[j])
              && (forall other :: other in ids ==>
                    other in s.rows && !s.rows[other].status.Published? && s.rows[other].nextAttemptAt <= s.now)
  {
  }
}
