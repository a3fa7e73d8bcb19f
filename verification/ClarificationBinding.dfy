/**
 Which message a waiting agent run takes replies to. A run that begins to wait shows
 a placeholder naming its clarification message; delivering that message replaces the
 placeholder by the provider's id (internal/store/agent_store.go). The provider's id
 is text from outside, so it may itself read as a placeholder.
 */
module ClarificationBinding {
  import opened Common
  import opened AgentRuns
  import opened AgentRunProperties

  predicate Waits(db: Tables, id: Id) {
    id in db.runs && db.runs[id].status == WaitingUser
  }

  /** A clarification of the run that is still to be delivered. */
  predicate Undelivered(db: Tables, id: Id, m: string) {
    m in db.outbox && db.outbox[m].kind == Clarification && db.outbox[m].run == id && db.outbox[m].state != Delivered
  }

  /** The reference reads as the placeholder of such a clarification. */
  ghost predicate NamesUndelivered(db: Tables, id: Id, ref: string) {
    exists m :: Undelivered(db, id, m) && ref == PendingRef(m)
  }

  /** The message a step hands to the outbox, if any. */
  function HandedOver(op: Op): Option<Message> {
    match op
    case Enqueue(message) => Some(message)
    case OnRun(_, command) => MessageOf(command)
    case _ => None
  }

  /** Messages keep their run and kind, stay delivered, and are new only when handed over. */
  lemma MessagesPersist(db: Tables, op: Op, m: string)
    requires m in Apply(db, op).outbox
    ensures var after := Apply(db, op).outbox[m];
            if m in db.outbox
            then after.kind == db.outbox[m].kind && after.run == db.outbox[m].run
                 && (db.outbox[m].state == Delivered ==> after == db.outbox[m])
            else HandedOver(op).Some? && HandedOver(op).value.id == m
                 && after.kind == HandedOver(op).value.kind && after.run == HandedOver(op).value.run
  {
  }

  lemma OutboxKeepsRows(db: Tables, op: Op)
    ensures db.outbox.Keys <= Apply(db, op).outbox.Keys
  {
  }

  // ---------------------------------------------------------------- when a reference moves

  /** A delivery moves a run's reference exactly when the run waits at the placeholder of the delivered clarification. */
  lemma DeliveryMovesIff(db: Tables, id: Id, m: string, worker: string, providerId: string, now: Time)
    requires id in db.runs && db.runs[id].messageRef != Some(providerId)
    ensures Apply(db, MarkDelivered(m, worker, providerId, now)).runs[id] != db.runs[id] <==>
              && Delivers(db, m, worker) && Undelivered(db, id, m)
              && Waits(db, id) && db.runs[id].messageRef == Some(PendingRef(m))
  {
  }

  /** Steps that neither command the run nor hand over a message whose placeholder is the reference. */
  predicate Bystander(op: Op, id: Id, ref: string) {
    && !(op.OnRun? && op.id == id)
    && (HandedOver(op).Some? ==> PendingRef(HandedOver(op).value.id) != ref)
  }

  predicate Bystanders(ops: seq<Op>, id: Id, ref: string) {
    forall i :: 0 <= i < |ops| ==> Bystander(ops[i], id, ref)
  }

  lemma UnnamedStep(db: Tables, op: Op, id: Id, ref: string)
    requires Waits(db, id) && db.runs[id].messageRef == Some(ref) && !NamesUndelivered(db, id, ref)
    requires Bystander(op, id, ref)
    ensures id in Apply(db, op).runs && Apply(db, op).runs[id] == db.runs[id]
    ensures !NamesUndelivered(Apply(db, op), id, ref)
  {
    RowsPersist(db, op, id);
    var next := Apply(db, op);
    if op.MarkDelivered? && Delivers(db, op.messageId, op.worker) && Binds(db, op.messageId) {
      assert db.outbox[op.messageId].run == id ==> Undelivered(db, id, op.messageId);
    }
    forall m | Undelivered(next, id, m)
      ensures ref != PendingRef(m)
    {
      MessagesPersist(db, op, m);
      assert m in db.outbox ==> Undelivered(db, id, m);
    }
  }

  /** A reference that names no undelivered clarification of its run is never moved, however late deliveries are. */
  lemma {:induction false} LateDeliveryNeverRebinds(db: Tables, ops: seq<Op>, id: Id, ref: string)
    requires Waits(db, id) && db.runs[id].messageRef == Some(ref) && !NamesUndelivered(db, id, ref)
    requires Bystanders(ops, id, ref)
    ensures id in Execute(db, ops).runs && Execute(db, ops).runs[id] == db.runs[id]
    decreases |ops|
  {
    if ops != [] {
      UnnamedStep(db, ops[0], id, ref);
      LateDeliveryNeverRebinds(Apply(db, ops[0]), ops[1..], id, ref);
    }
  }

  /** A message under delivery has a lease. */
  ghost predicate OutboxLeased(db: Tables) {
    forall m :: m in db.outbox && db.outbox[m].state == Delivering ==>
      db.outbox[m].leaseOwner.Some? && db.outbox[m].leaseExpiresAt.Some?
  }

  lemma {:induction false} DeliveriesAreLeased(db: Tables, ops: seq<Op>)
    requires OutboxLeased(db)
    ensures OutboxLeased(Execute(db, ops))
    decreases |ops|
  {
    if ops != [] {
      DeliveriesAreLeased(Apply(db, ops[0]), ops[1..]);
    }
  }

  /** The deliveries that bring a named clarification home: claim it if nobody has, then mark it delivered. */
  function Deliveries(db: Tables, m: string, worker: string, providerId: string): seq<Op>
    requires m in db.outbox
  {
    var row := db.outbox[m];
    if row.state == Delivering && row.leaseOwner.Some?
    then [MarkDelivered(m, row.leaseOwner.value, providerId, row.availableAt)]
    else [ClaimOutbox(m, worker, row.availableAt, 0), MarkDelivered(m, worker, providerId, row.availableAt)]
  }

  lemma NamedMoves(db: Tables, id: Id, m: string, worker: string, providerId: string)
    requires OutboxLeased(db) && Undelivered(db, id, m)
    requires Waits(db, id) && db.runs[id].messageRef == Some(PendingRef(m))
    ensures var end := Execute(db, Deliveries(db, m, worker, providerId));
            id in end.runs && end.runs[id] == db.runs[id].(messageRef := Some(providerId))
  {
    var ops := Deliveries(db, m, worker, providerId);
    if db.outbox[m].state == Delivering {
      assert ops[1..] == [];
    } else {
      var claimed := Apply(db, ops[0]);
      assert Delivers(claimed, m, worker) && claimed.runs == db.runs;
      assert ops[1..] == [ops[1]] && ops[1..][1..] == [];
      assert Execute(claimed, [ops[1]]) == Apply(claimed, ops[1]);
    }
  }

  ghost predicate Moves(db: Tables, ops: seq<Op>, id: Id)
    requires id in db.runs
  {
    id in Execute(db, ops).runs && Execute(db, ops).runs[id] != db.runs[id]
  }

  lemma MovesIffNamed(db: Tables, id: Id, ref: string)
    requires OutboxLeased(db) && Waits(db, id) && db.runs[id].messageRef == Some(ref)
    ensures (exists ops :: Bystanders(ops, id, ref) && Moves(db, ops, id)) <==> NamesUndelivered(db, id, ref)
  {
    if NamesUndelivered(db, id, ref) {
      var m :| Undelivered(db, id, m) && ref == PendingRef(m);
      var other := ref + "'";
      assert other != ref;
      NamedMoves(db, id, m, "", other);
      assert Bystanders(Deliveries(db, m, "", other), id, ref) && Moves(db, Deliveries(db, m, "", other), id);
    } else {
      forall ops | Bystanders(ops, id, ref)
        ensures !Moves(db, ops, id)
      {
        LateDeliveryNeverRebinds(db, ops, id, ref);
      }
    }
  }

  /**
   The exact condition, in every reachable state: without the run being resumed,
   cancelled or otherwise commanded, its reference can still move if and only if it
   names an undelivered clarification of that run.
   */
  lemma ReferenceMovesIff(before: seq<Op>, id: Id, ref: string)
    requires var db := Execute(EMPTY, before); Waits(db, id) && db.runs[id].messageRef == Some(ref)
    ensures var db := Execute(EMPTY, before);
            (exists ops :: Bystanders(ops, id, ref) && Moves(db, ops, id)) <==> NamesUndelivered(db, id, ref)
  {
    DeliveriesAreLeased(EMPTY, before);
    MovesIffNamed(Execute(EMPTY, before), id, ref);
  }

  // ---------------------------------------------------------------- the current round

  predicate StartsRound(db: Tables, op: Op, id: Id) {
    op.OnRun? && op.id == id && op.command.Wait? && Commanded(db, id, op.command).Some?
  }

  function RoundAfter(db: Tables, op: Op, id: Id, round: Option<string>): Option<string> {
    if StartsRound(db, op, id) then Some(op.command.message.id) else round
  }

  /** The outbox message handed over when the run last began to wait. */
  function RoundMessage(db: Tables, ops: seq<Op>, id: Id, before: Option<string>): Option<string>
    decreases |ops|
  {
    if ops == [] then before
    else RoundMessage(Apply(db, ops[0]), ops[1..], id, RoundAfter(db, ops[0], id, before))
  }

  /**
   A waiting run shows its round's placeholder, or the provider id of that round's
   delivered message, and that id cannot move any more.
   */
  ghost predicate BoundToRound(db: Tables, id: Id, round: Option<string>) {
    Waits(db, id) ==>
      && round.Some? && db.runs[id].messageRef.Some?
      && (|| db.runs[id].messageRef.value == PendingRef(round.value)
          || (&& round.value in db.outbox && db.outbox[round.value].state == Delivered
              && db.outbox[round.value].providerId == db.runs[id].messageRef
              && !NamesUndelivered(db, id, db.runs[id].messageRef.value)))
  }

  /** The provider answers with the placeholder of another undelivered clarification of the run. */
  ghost predicate MisnamedByProvider(db: Tables, op: Op, id: Id) {
    && op.MarkDelivered? && Delivers(db, op.messageId, op.worker)
    && Binds(db, op.messageId) && db.outbox[op.messageId].run == id
    && exists m :: m != op.messageId && Undelivered(db, id, m) && op.providerId == PendingRef(m)
  }

  /** A clarification of the run is handed over late whose placeholder is the reference already bound. */
  predicate MisnamedByHandover(db: Tables, op: Op, id: Id, round: Option<string>) {
    && HandedOver(op).Some?
    && var m := HandedOver(op).value;
       && m.kind == Clarification && m.run == id && round != Some(m.id)
       && m.id !in db.outbox && m.id in Apply(db, op).outbox
       && Waits(db, id) && db.runs[id].messageRef == Some(PendingRef(m.id))
  }

  ghost predicate Misnames(db: Tables, op: Op, id: Id, round: Option<string>) {
    MisnamedByProvider(db, op, id) || MisnamedByHandover(db, op, id, round)
  }

  /** In a bound state only the round's own message is delivered into the reference. */
  lemma OnlyTheRoundBinds(db: Tables, m: string, worker: string, id: Id, round: Option<string>)
    requires BoundToRound(db, id, round) && Delivers(db, m, worker) && Binds(db, m) && db.outbox[m].run == id
    ensures round == Some(m)
  {
    assert Undelivered(db, id, m);
    if db.runs[id].messageRef.value == PendingRef(round.value) {
      PendingRefInjective(m, round.value);
    }
  }

  lemma BindingDelivery(db: Tables, op: Op, id: Id, round: Option<string>)
    requires BoundToRound(db, id, round) && op.MarkDelivered? && Delivers(db, op.messageId, op.worker)
    requires Binds(db, op.messageId) && db.outbox[op.messageId].run == id
    ensures BoundToRound(Apply(db, op), id, round) <==> !MisnamedByProvider(db, op, id)
  {
    var next := Apply(db, op);
    OnlyTheRoundBinds(db, op.messageId, op.worker, id, round);
    assert forall m :: Undelivered(next, id, m) <==> m != op.messageId && Undelivered(db, id, m);
    forall m | PendingRef(m) == PendingRef(op.messageId)
      ensures m == op.messageId
    {
      PendingRefInjective(m, op.messageId);
    }
  }

  lemma SteadyStep(db: Tables, op: Op, id: Id, round: Option<string>)
    requires BoundToRound(db, id, round) && Waits(db, id)
    requires id in Apply(db, op).runs && Apply(db, op).runs[id] == db.runs[id]
    requires !MisnamedByProvider(db, op, id)
    ensures BoundToRound(Apply(db, op), id, round) <==> !MisnamedByHandover(db, op, id, round)
  {
    var next := Apply(db, op);
    var ref := db.runs[id].messageRef.value;
    if ref != PendingRef(round.value) {
      MessagesPersist(db, op, round.value);
      if MisnamedByHandover(db, op, id, round) {
        MessagesPersist(db, op, HandedOver(op).value.id);
        NewMessagesAreUndelivered(db, op);
        assert Undelivered(next, id, HandedOver(op).value.id);
      } else {
        forall m | Undelivered(next, id, m)
          ensures ref != PendingRef(m)
        {
          MessagesPersist(db, op, m);
          assert m in db.outbox ==> Undelivered(db, id, m);
        }
      }
    } else if MisnamedByHandover(db, op, id, round) {
      PendingRefInjective(HandedOver(op).value.id, round.value);
    }
  }

  lemma NewMessagesAreUndelivered(db: Tables, op: Op)
    ensures forall m :: m in Apply(db, op).outbox && m !in db.outbox ==> Apply(db, op).outbox[m].state != Delivered
  {
  }

  /** A step from a bound state leaves the run bound exactly when it misnames nothing. */
  lemma BindingStep(db: Tables, op: Op, id: Id, round: Option<string>)
    requires BoundToRound(db, id, round)
    ensures BoundToRound(Apply(db, op), id, RoundAfter(db, op, id, round)) <==> !Misnames(db, op, id, round)
  {
    if Waits(db, id) {
      RowsPersist(db, op, id);
      OutboxKeepsRows(db, op);
      if op.MarkDelivered? && Delivers(db, op.messageId, op.worker) && Binds(db, op.messageId)
         && db.outbox[op.messageId].run == id {
        BindingDelivery(db, op, id, round);
      } else if Apply(db, op).runs[id] == db.runs[id] {
        SteadyStep(db, op, id, round);
      }
    } else if id in db.runs {
      RowsPersist(db, op, id);
    }
  }

  ghost predicate NeverMisnamed(db: Tables, ops: seq<Op>, id: Id, round: Option<string>)
    decreases |ops|
  {
    ops == [] ||
    (!Misnames(db, ops[0], id, round) && NeverMisnamed(Apply(db, ops[0]), ops[1..], id, RoundAfter(db, ops[0], id, round)))
  }

  /**
   While a run waits, a bound reference is the provider id of the outbox message
   of the current round, in every run of the protocol that misnames nothing.
   */
  lemma {:induction false} BoundReferenceIsCurrentRounds(db: Tables, ops: seq<Op>, id: Id, round: Option<string>)
    requires BoundToRound(db, id, round) && NeverMisnamed(db, ops, id, round)
    ensures BoundToRound(Execute(db, ops), id, RoundMessage(db, ops, id, round))
    decreases |ops|
  {
    if ops != [] {
      BindingStep(db, ops[0], id, round);
      BoundReferenceIsCurrentRounds(Apply(db, ops[0]), ops[1..], id, RoundAfter(db, ops[0], id, round));
    }
  }

  // ---------------------------------------------------------------- providers whose ids never read as placeholders

  predicate PlainProvider(op: Op) {
    op.MarkDelivered? ==> !LooksPending(op.providerId)
  }

  ghost predicate PlainlyBound(db: Tables, id: Id, round: Option<string>) {
    Waits(db, id) ==>
      && round.Some? && db.runs[id].messageRef.Some?
      && (db.runs[id].messageRef.value == PendingRef(round.value) || !LooksPending(db.runs[id].messageRef.value))
  }

  lemma PlainStep(db: Tables, op: Op, id: Id, round: Option<string>)
    requires PlainlyBound(db, id, round) && PlainProvider(op)
    ensures PlainlyBound(Apply(db, op), id, RoundAfter(db, op, id, round)) && !Misnames(db, op, id, round)
  {
    if id in db.runs {
      RowsPersist(db, op, id);
    }
    if MisnamedByHandover(db, op, id, round) {
      PendingRefInjective(HandedOver(op).value.id, round.value);
    }
  }

  /** Provider ids that never begin like a placeholder misname nothing, in any run. */
  lemma {:induction false} PlainProvidersNeverMisname(db: Tables, ops: seq<Op>, id: Id, round: Option<string>)
    requires PlainlyBound(db, id, round) && forall i :: 0 <= i < |ops| ==> PlainProvider(ops[i])
    ensures NeverMisnamed(db, ops, id, round)
    decreases |ops|
  {
    if ops != [] {
      PlainStep(db, ops[0], id, round);
      PlainProvidersNeverMisname(Apply(db, ops[0]), ops[1..], id, RoundAfter(db, ops[0], id, round));
    }
  }

  // ---------------------------------------------------------------- a provider that misnames

  function Question(m: string, run: Id, now: Time): Message {
    Message(m, run, m, Clarification, Pending, 0, now, now, None, None, None)
  }

  predicate ReadyToAsk(db: Tables, id: Id, worker: string, m: string, now: Time) {
    && id in db.runs && db.runs[id].status == Queued && db.runs[id].availableAt <= now
    && db.runs[id].rounds < MAX_CLARIFICATION_ROUNDS && worker != ""
    && m !in db.outbox && forall k :: k in db.outbox ==> db.outbox[k].deduplicationKey != m
  }

  /** One round: the run is claimed and its worker asks a question. */
  function Ask(id: Id, worker: string, m: string, now: Time): seq<Op> {
    [ClaimRun(id, worker, now, 0), OnRun(id, Wait(worker, "?", Question(m, id, now), now))]
  }

  predicate Asked(db: Tables, id: Id, m: string, rounds: int, user: Id, now: Time) {
    && Waits(db, id) && db.runs[id].messageRef == Some(PendingRef(m)) && db.runs[id].rounds == rounds
    && db.runs[id].initiatingUser == user && db.runs[id].clarificationExpiresAt == Some(now + CLARIFICATION_LIFETIME)
  }

  lemma Asks(db: Tables, id: Id, worker: string, m: string, now: Time)
    requires ReadyToAsk(db, id, worker, m, now)
    ensures var next := Execute(db, Ask(id, worker, m, now));
            && next.outbox == db.outbox[m := Question(m, id, now)]
            && RoundMessage(db, Ask(id, worker, m, now), id, None) == Some(m)
            && Asked(next, id, m, db.runs[id].rounds + 1, db.runs[id].initiatingUser, now)
  {
    var claim, wait := ClaimRun(id, worker, now, 0), OnRun(id, Wait(worker, "?", Question(m, id, now), now));
    assert !Blank("?") by {
      assert TrimLeft("?") == "?" && TrimRight("?") == "?";
    }
    var claimed := Apply(db, claim);
    assert Commanded(claimed, id, wait.command).Some?;
    assert [claim, wait][1..] == [wait] && [wait][1..] == [];
    assert Execute(claimed, [wait]) == Apply(claimed, wait);
    assert RoundMessage(claimed, [wait], id, None) == Some(m);
  }

  lemma {:induction false} ExecuteTwice(db: Tables, first: seq<Op>, second: seq<Op>, id: Id, round: Option<string>)
    ensures Execute(db, first + second) == Execute(Execute(db, first), second)
    ensures RoundMessage(db, first + second, id, round) ==
            RoundMessage(Execute(db, first), second, id, RoundMessage(db, first, id, round))
    decreases |first|
  {
    if first == [] {
      assert first + second == second;
    } else {
      assert (first + second)[1..] == first[1..] + second;
      ExecuteTwice(Apply(db, first[0]), first[1..], second, id, RoundAfter(db, first[0], id, round));
    }
  }

  lemma {:induction false} RoundOverrides(db: Tables, ops: seq<Op>, id: Id, round: Option<string>)
    requires RoundMessage(db, ops, id, None).Some?
    ensures RoundMessage(db, ops, id, round) == RoundMessage(db, ops, id, None)
    decreases |ops|
  {
    if ops != [] && !StartsRound(db, ops[0], id) {
      RoundOverrides(Apply(db, ops[0]), ops[1..], id, round);
    }
  }

  function FirstRound(id: Id, origin: Origin, user: Id, worker: string, m: string, now: Time): seq<Op> {
    [Create(id, origin, user, now)] + Ask(id, worker, m, now)
  }

  /** The user answers at the placeholder of `m`, and the run asks again. */
  function NextRound(id: Id, user: Id, worker: string, m: string, next: string, now: Time): seq<Op> {
    [OnRun(id, Resume(user, PendingRef(m), now))] + Ask(id, worker, next, now)
  }

  lemma AsksFirst(id: Id, origin: Origin, user: Id, worker: string, m: string, now: Time)
    requires ValidNewRun(id, origin, user) && worker != ""
    ensures var ops := FirstRound(id, origin, user, worker, m, now);
            var db := Execute(EMPTY, ops);
            db.outbox == map[m := Question(m, id, now)] && Asked(db, id, m, 1, user, now)
  {
    var create := Create(id, origin, user, now);
    var created := Apply(EMPTY, create);
    assert [create][1..] == [] && Execute(EMPTY, [create]) == created;
    ExecuteTwice(EMPTY, [create], Ask(id, worker, m, now), id, None);
    Asks(created, id, worker, m, now);
  }

  lemma AsksNext(db: Tables, id: Id, user: Id, worker: string, m: string, next: string, now: Time, round: Option<string>)
    requires Asked(db, id, m, 1, user, now) && worker != "" && next !in db.outbox
    requires forall k :: k in db.outbox ==> db.outbox[k].deduplicationKey != next
    ensures var ops := NextRound(id, user, worker, m, next, now);
            && Execute(db, ops).outbox == db.outbox[next := Question(next, id, now)]
            && Asked(Execute(db, ops), id, next, 2, user, now)
            && RoundMessage(db, ops, id, round) == Some(next)
  {
    var resume := OnRun(id, Resume(user, PendingRef(m), now));
    var resumed := Apply(db, resume);
    assert [resume][1..] == [] && Execute(db, [resume]) == resumed && resumed.outbox == db.outbox;
    ExecuteTwice(db, [resume], Ask(id, worker, next, now), id, round);
    Asks(resumed, id, worker, next, now);
    RoundOverrides(resumed, Ask(id, worker, next, now), id, RoundMessage(db, [resume], id, round));
  }

  /** A new run asks `a`, is resumed at the placeholder, and asks `b`. */
  function TwoRounds(id: Id, origin: Origin, user: Id, worker: string, a: string, b: string, now: Time): seq<Op> {
    FirstRound(id, origin, user, worker, a, now) + NextRound(id, user, worker, a, b, now)
  }

  lemma AsksTwice(id: Id, origin: Origin, user: Id, worker: string, a: string, b: string, now: Time)
    requires ValidNewRun(id, origin, user) && worker != "" && a != b
    ensures var ops := TwoRounds(id, origin, user, worker, a, b, now);
            var db := Execute(EMPTY, ops);
            && db.outbox == map[a := Question(a, id, now), b := Question(b, id, now)]
            && RoundMessage(EMPTY, ops, id, None) == Some(b)
            && Waits(db, id) && db.runs[id].messageRef == Some(PendingRef(b))
  {
    var first, second := FirstRound(id, origin, user, worker, a, now), NextRound(id, user, worker, a, b, now);
    AsksFirst(id, origin, user, worker, a, now);
    var waiting := Execute(EMPTY, first);
    ExecuteTwice(EMPTY, first, second, id, None);
    AsksNext(waiting, id, user, worker, a, b, now, RoundMessage(EMPTY, first, id, None));
  }

  /** Claiming a pending question and marking it delivered. */
  function Answered(m: string, worker: string, providerId: string, now: Time): seq<Op> {
    [ClaimOutbox(m, worker, now, 0), MarkDelivered(m, worker, providerId, now)]
  }

  lemma Delivery(db: Tables, id: Id, m: string, worker: string, providerId: string, now: Time)
    requires m in db.outbox && db.outbox[m] == Question(m, id, now)
    requires Waits(db, id) && db.runs[id].messageRef == Some(PendingRef(m))
    ensures var next := Execute(db, Answered(m, worker, providerId, now));
            && Waits(next, id) && next.runs[id].messageRef == Some(providerId)
            && m in next.outbox && next.outbox == db.outbox[m := next.outbox[m]]
            && next.outbox[m].state == Delivered && next.outbox[m].providerId == Some(providerId)
  {
    var ops := Answered(m, worker, providerId, now);
    var claimed := Apply(db, ops[0]);
    assert claimed.runs == db.runs && Delivers(claimed, m, worker);
    assert ops[1..] == [ops[1]] && [ops[1]][1..] == [];
    assert Execute(claimed, [ops[1]]) == Apply(claimed, ops[1]);
  }

  /**
   It does happen: in a run from the empty tables the waiting run is bound to the
   provider id of its round's message `b`, that id reads as the placeholder of the
   first round's message `a`, and delivering `a` late moves the reference away from `b`.
   */
  lemma PlaceholderLikeProviderIdRebinds(
    id: Id, origin: Origin, user: Id, worker: string, a: string, b: string, late: string, now: Time)
    requires ValidNewRun(id, origin, user) && worker != "" && a != b && late != PendingRef(a)
    ensures var asked := TwoRounds(id, origin, user, worker, a, b, now);
            var bound := Execute(Execute(EMPTY, asked), Answered(b, worker, PendingRef(a), now));
            var moved := Execute(bound, Answered(a, worker, late, now));
            && RoundMessage(EMPTY, asked, id, None) == Some(b)
            && Waits(bound, id) && b in bound.outbox
            && bound.outbox[b].state == Delivered && bound.outbox[b].providerId == bound.runs[id].messageRef
            && Waits(moved, id) && b in moved.outbox && moved.outbox[b] == bound.outbox[b]
            && moved.runs[id].messageRef == Some(late) != bound.runs[id].messageRef
  {
    AsksTwice(id, origin, user, worker, a, b, now);
    var db := Execute(EMPTY, TwoRounds(id, origin, user, worker, a, b, now));
    Delivery(db, id, b, worker, PendingRef(a), now);
    var bound := Execute(db, Answered(b, worker, PendingRef(a), now));
    Delivery(bound, id, a, worker, late, now);
  }
}
