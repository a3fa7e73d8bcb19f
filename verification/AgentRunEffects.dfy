/**
 What each statement of internal/store/agent_store.go does to the two tables, spelled
 in the columns it tests and writes, and what a row tells of its history.
 */
module AgentRunEffects {
  import opened Common
  import opened AgentRuns
  import opened AgentRunProperties

  function WithRun(db: Tables, id: Id, run: Run): Tables {
    db.(runs := db.runs[id := run])
  }

  /** The row is running under an unreplaced claim of the worker. */
  predicate HeldBy(db: Tables, id: Id, worker: string) {
    id in db.runs && db.runs[id].status.Running? && db.runs[id].leaseOwner == Some(worker)
  }

  // ---------------------------------------------------------------- claims and leases

  /** Queued and due, or abandoned: running with a lease that is over. */
  predicate Free(run: Run, now: Time) {
    || (run.status.Queued? && run.availableAt <= now)
    || (run.status.Running? && run.leaseExpiresAt.Some? && run.leaseExpiresAt.value <= now)
  }

  /** A claim takes a due or abandoned run, for two minutes unless told otherwise, and leaves any other. */
  lemma ClaimTakesFreeRuns(db: Tables, id: Id, worker: string, now: Time, duration: Time)
    requires id in db.runs && worker != ""
    ensures Apply(db, ClaimRun(id, worker, now, duration)) ==
              if Free(db.runs[id], now)
              then WithRun(db, id, db.runs[id].(
                     status := Running, leaseOwner := Some(worker), attempts := db.runs[id].attempts + 1,
                     leaseExpiresAt := Some(now + if duration <= 0 then 120_000_000_000 else duration)))
              else db
  {
  }

  /**
   A crashed worker's run comes back: in every reachable state, whatever worker holds
   a run, anyone's claim at or after its lease's end takes it over.
   */
  lemma AbandonedRunsComeBack(ops: seq<Op>, id: Id, worker: string, now: Time)
    requires var db := Execute(EMPTY, ops); id in db.runs && db.runs[id].status.Running?
    requires worker != ""
    ensures var db := Execute(EMPTY, ops);
            && db.runs[id].leaseOwner.Some? && db.runs[id].leaseExpiresAt.Some?
            && (db.runs[id].leaseExpiresAt.value <= now ==>
                  HeldBy(Apply(db, ClaimRun(id, worker, now, 0)), id, worker))
            && (db.runs[id].leaseExpiresAt.value > now ==> Apply(db, ClaimRun(id, worker, now, 0)) == db)
  {
    RunningRunsAreLeased(EMPTY, ops);
    ClaimTakesFreeRuns(Execute(EMPTY, ops), id, worker, now, 0);
  }

  ghost predicate Leased(db: Tables) {
    forall id :: id in db.runs && db.runs[id].status.Running? ==>
      db.runs[id].leaseOwner.Some? && db.runs[id].leaseExpiresAt.Some?
  }

  lemma {:induction false} RunningRunsAreLeased(db: Tables, ops: seq<Op>)
    requires Leased(db)
    ensures Leased(Execute(db, ops))
    decreases |ops|
  {
    if ops != [] {
      forall id | id in db.runs
        ensures id in Apply(db, ops[0]).runs
                && RowChange(db, ops[0], id, db.runs[id], Apply(db, ops[0]).runs[id])
      {
        RowsPersist(db, ops[0], id);
      }
      RunningRunsAreLeased(Apply(db, ops[0]), ops[1..]);
    }
  }

  lemma RenewalExtends(db: Tables, id: Id, worker: string, now: Time, duration: Time)
    ensures Apply(db, OnRun(id, Renew(worker, now, duration))) ==
              if HeldBy(db, id, worker) && db.runs[id].leaseExpiresAt.Some? && now < db.runs[id].leaseExpiresAt.value
              then WithRun(db, id, db.runs[id].(
                     leaseExpiresAt := Some(now + if duration <= 0 then 120_000_000_000 else duration)))
              else db
  {
  }

  // ---------------------------------------------------------------- work under a lease

  lemma ContextAdds(db: Tables, id: Id, worker: string, count: int, now: Time)
    ensures Apply(db, OnRun(id, AddContext(worker, count, now))) ==
              if HeldBy(db, id, worker) && count >= 0 && db.runs[id].contextUsed + count <= 100
              then WithRun(db, id, db.runs[id].(contextUsed := db.runs[id].contextUsed + count))
              else db
  {
  }

  /** The first attachment writes both columns, unless another run has either. */
  lemma AttachmentWritesBoth(db: Tables, id: Id, worker: string, taskId: Id, taskNumber: int, now: Time)
    ensures Apply(db, OnRun(id, Attach(worker, taskId, taskNumber, now))) ==
              if && HeldBy(db, id, worker) && db.runs[id].taskId.None?
                 && (forall o :: o in db.runs && o != id ==>
                       db.runs[o].taskId != Some(taskId) && db.runs[o].taskNumber != Some(taskNumber))
              then WithRun(db, id, db.runs[id].(taskId := Some(taskId), taskNumber := Some(taskNumber)))
              else db
  {
  }

  lemma RetryGivesBack(db: Tables, id: Id, worker: string, availableAt: Time, now: Time)
    ensures Apply(db, OnRun(id, Retry(worker, availableAt, now))) ==
              if HeldBy(db, id, worker)
              then WithRun(db, id, db.runs[id].(
                     status := Queued, availableAt := availableAt, leaseOwner := None, leaseExpiresAt := None))
              else db
  {
  }

  // ---------------------------------------------------------------- the outbox

  predicate KnownKey(db: Tables, key: string) {
    exists m :: m in db.outbox && db.outbox[m].deduplicationKey == key
  }

  /** The insert goes through: the row is new, or its deduplication key is known and nothing is written. */
  predicate Insertable(db: Tables, m: Message) {
    && (m.state.Pending? || m.state.DeliveryFailed?)
    && (KnownKey(db, m.deduplicationKey) || (m.id !in db.outbox && m.run in db.runs))
  }

  function WithMessage(db: Tables, m: Message): Tables {
    if KnownKey(db, m.deduplicationKey) then db
    else db.(outbox := db.outbox[m.id := m.(leaseOwner := None, leaseExpiresAt := None, providerId := None)])
  }

  lemma EnqueueInserts(db: Tables, m: Message)
    ensures Apply(db, Enqueue(m)) == if Insertable(db, m) then WithMessage(db, m) else db
  {
  }

  lemma OutboxClaimLeases(db: Tables, m: string, worker: string, now: Time, duration: Time)
    ensures Apply(db, ClaimOutbox(m, worker, now, duration)) ==
              if && m in db.outbox
                 && (|| (!db.outbox[m].state.Delivering? && !db.outbox[m].state.Delivered? && db.outbox[m].availableAt <= now)
                     || (&& db.outbox[m].state.Delivering?
                         && db.outbox[m].leaseExpiresAt.Some? && db.outbox[m].leaseExpiresAt.value <= now))
              then db.(outbox := db.outbox[m := db.outbox[m].(
                     state := Delivering, leaseOwner := Some(worker), attempts := db.outbox[m].attempts + 1,
                     leaseExpiresAt := Some(now + if duration <= 0 then 60_000_000_000 else duration))])
              else db
  {
  }

  /** Only the holder of a delivery settles it: back for later, or delivered under the provider's id. */
  lemma DeliveryIsSettledByItsHolder(
    db: Tables, m: string, worker: string, providerId: string, availableAt: Time, now: Time)
    ensures var held := m in db.outbox && db.outbox[m].state.Delivering? && db.outbox[m].leaseOwner == Some(worker);
            && Apply(db, MarkFailed(m, worker, availableAt, now)) ==
                 (if held
                  then db.(outbox := db.outbox[m := db.outbox[m].(
                         state := DeliveryFailed, leaseOwner := None, leaseExpiresAt := None, availableAt := availableAt)])
                  else db)
            && Apply(db, MarkDelivered(m, worker, providerId, now)).outbox ==
                 (if held
                  then db.outbox[m := db.outbox[m].(
                         state := Delivered, leaseOwner := None, leaseExpiresAt := None, providerId := Some(providerId))]
                  else db.outbox)
  {
  }

  // ---------------------------------------------------------------- waiting and finishing

  /** A question is asked at most three times, with a day to answer, and goes out with the change of status. */
  lemma WaitingAsks(db: Tables, id: Id, worker: string, interrupt: string, m: Message, now: Time)
    ensures Apply(db, OnRun(id, Wait(worker, interrupt, m, now))) ==
              if HeldBy(db, id, worker) && db.runs[id].rounds < 3 && !Blank(interrupt) && Insertable(db, m)
              then WithMessage(WithRun(db, id, db.runs[id].(
                     status := WaitingUser, rounds := db.runs[id].rounds + 1,
                     messageRef := Some("pending:" + m.id), interruptRef := Some(TrimSpace(interrupt)),
                     clarificationExpiresAt := Some(now + 86_400_000_000_000),
                     leaseOwner := None, leaseExpiresAt := None)), m)
              else db
  {
    if HeldBy(db, id, worker) {
      InsertableAfterUpdate(db, id, m);
    }
  }

  /** Changing a run row does not change what can be inserted. */
  lemma InsertableAfterUpdate(db: Tables, id: Id, m: Message)
    requires id in db.runs
    ensures forall run :: Insertable(WithRun(db, id, run), m) <==> Insertable(db, m)
    ensures forall run :: KnownKey(WithRun(db, id, run), m.deduplicationKey) <==> KnownKey(db, m.deduplicationKey)
  {
  }

  /** The answer of the initiating user, to the message shown and in time, queues the run at once. */
  lemma ResumeQueues(db: Tables, id: Id, user: Id, ref: string, now: Time)
    ensures Apply(db, OnRun(id, Resume(user, ref, now))) ==
              if && id in db.runs && db.runs[id].status.WaitingUser? && db.runs[id].initiatingUser == user
                 && db.runs[id].messageRef == Some(ref)
                 && db.runs[id].clarificationExpiresAt.Some? && now < db.runs[id].clarificationExpiresAt.value
              then WithRun(db, id, db.runs[id].(
                     status := Queued, availableAt := now, messageRef := None, clarificationExpiresAt := None))
              else db
  {
  }

  function Ended(run: Run, status: Status, now: Time): Run {
    run.(status := status, completedAt := Some(now), leaseOwner := None, leaseExpiresAt := None,
         messageRef := None, interruptRef := None, clarificationExpiresAt := None)
  }

  /** A finish stores the status the holder gave, and its notice goes out with it. */
  lemma FinishStoresStatus(db: Tables, id: Id, worker: string, status: Status, notice: Option<Message>, now: Time)
    ensures Apply(db, OnRun(id, Finish(worker, status, notice, now))) ==
              if && HeldBy(db, id, worker) && (status.Succeeded? || status.Failed? || status.Cancelled?)
                 && (notice.Some? ==> Insertable(db, notice.value))
              then
                var ended := WithRun(db, id, Ended(db.runs[id], status, now));
                if notice.Some? then WithMessage(ended, notice.value) else ended
              else db
  {
    if HeldBy(db, id, worker) && notice.Some? {
      InsertableAfterUpdate(db, id, notice.value);
    }
  }

  lemma ExpiredWaitIsCancelled(db: Tables, id: Id, m: Message, now: Time)
    ensures Apply(db, OnRun(id, CancelExpired(m, now))) ==
              if && m.run == id && m.kind.ExpiredNotice? && id in db.runs && db.runs[id].status.WaitingUser?
                 && db.runs[id].clarificationExpiresAt.Some? && db.runs[id].clarificationExpiresAt.value <= now
                 && Insertable(db, m)
              then WithMessage(WithRun(db, id, Ended(db.runs[id], Cancelled, now)), m)
              else db
  {
    if id in db.runs {
      InsertableAfterUpdate(db, id, m);
    }
  }

  lemma CreationInserts(db: Tables, id: Id, origin: Origin, user: Id, now: Time)
    ensures Apply(db, Create(id, origin, user, now)) ==
              if && id != NIL && user != NIL && !Blank(origin.tenant) && !Blank(origin.event) && !Blank(origin.trigger)
                 && id !in db.runs
                 && (forall o :: o in db.runs && db.runs[o].origin.tenant == origin.tenant ==>
                       db.runs[o].origin.event != origin.event && db.runs[o].origin.trigger != origin.trigger)
              then WithRun(db, id, Run(origin, Queued, user, 0, 0, None, None, None, 0, None, None, now, now, None, None, None))
              else db
  {
  }

  // ---------------------------------------------------------------- what a row tells of its history

  /** Claims that took the run, questions it asked, and context messages it was given. */
  datatype Tally = Tally(claims: int, questions: int, context: int)

  function Counted(db: Tables, op: Op, id: Id): Tally {
    if id !in db.runs || Apply(db, op).runs[id] == db.runs[id] then Tally(0, 0, 0)
    else
      match op
      case ClaimRun(_, _, _, _) => Tally(1, 0, 0)
      case OnRun(_, Wait(_, _, _, _)) => Tally(0, 1, 0)
      case OnRun(_, AddContext(_, count, _)) => Tally(0, 0, count)
      case _ => Tally(0, 0, 0)
  }

  function Totals(db: Tables, ops: seq<Op>, id: Id): Tally
    decreases |ops|
  {
    if ops == [] then Tally(0, 0, 0)
    else
      var now, rest := Counted(db, ops[0], id), Totals(Apply(db, ops[0]), ops[1..], id);
      Tally(now.claims + rest.claims, now.questions + rest.questions, now.context + rest.context)
  }

  function TallyOf(db: Tables, id: Id): Tally {
    if id in db.runs then Tally(db.runs[id].attempts, db.runs[id].rounds, db.runs[id].contextUsed) else Tally(0, 0, 0)
  }

  lemma TallyStep(db: Tables, op: Op, id: Id)
    ensures var before, now, after := TallyOf(db, id), Counted(db, op, id), TallyOf(Apply(db, op), id);
            after == Tally(before.claims + now.claims, before.questions + now.questions, before.context + now.context)
  {
    if id in db.runs {
      RowsPersist(db, op, id);
    }
  }

  lemma {:induction false} TallyRun(db: Tables, ops: seq<Op>, id: Id)
    ensures var before, made, after := TallyOf(db, id), Totals(db, ops, id), TallyOf(Execute(db, ops), id);
            after == Tally(before.claims + made.claims, before.questions + made.questions, before.context + made.context)
    decreases |ops|
  {
    if ops != [] {
      TallyStep(db, ops[0], id);
      TallyRun(Apply(db, ops[0]), ops[1..], id);
    }
  }

  /** In every run a row's attempts, rounds and context are what its claims, questions and additions come to. */
  lemma RowCountsItsHistory(ops: seq<Op>, id: Id)
    requires id in Execute(EMPTY, ops).runs
    ensures var run := Execute(EMPTY, ops).runs[id];
            Tally(run.attempts, run.rounds, run.contextUsed) == Totals(EMPTY, ops, id)
  {
    TallyRun(EMPTY, ops, id);
  }

  /** The command that ended the run with this status at this instant. */
  predicate EndedBy(op: Op, id: Id, status: Status, at: Time) {
    && op.OnRun? && op.id == id && op.command.now == at
    && (|| (op.command.Finish? && op.command.status == status)
        || (op.command.CancelExpired? && status.Cancelled?))
  }

  lemma {:induction false} EndWasCommanded(db: Tables, ops: seq<Op>, id: Id)
    requires id in Execute(db, ops).runs && Terminal(Execute(db, ops).runs[id].status)
    requires id in db.runs ==> !Terminal(db.runs[id].status)
    ensures var run := Execute(db, ops).runs[id];
            && run.completedAt.Some?
            && exists i :: 0 <= i < |ops| && EndedBy(ops[i], id, run.status, run.completedAt.value)
    decreases |ops|
  {
    var next := Apply(db, ops[0]);
    if id in db.runs {
      RowsPersist(db, ops[0], id);
    }
    if id in next.runs && Terminal(next.runs[id].status) {
      TerminalIsForever(next, ops[1..], id);
      assert EndedBy(ops[0], id, next.runs[id].status, next.runs[id].completedAt.value);
    } else {
      EndWasCommanded(next, ops[1..], id);
      var run := Execute(db, ops).runs[id];
      var i :| 0 <= i < |ops[1..]| && EndedBy(ops[1..][i], id, run.status, run.completedAt.value);
      assert ops[i + 1] == ops[1..][i];
    }
  }

  /** In every run a terminal row has the status and the instant of the finish that some step commanded. */
  lemma StatusWasGiven(ops: seq<Op>, id: Id)
    requires id in Execute(EMPTY, ops).runs && Terminal(Execute(EMPTY, ops).runs[id].status)
    ensures var run := Execute(EMPTY, ops).runs[id];
            && run.completedAt.Some?
            && exists i :: 0 <= i < |ops| && EndedBy(ops[i], id, run.status, run.completedAt.value)
  {
    EndWasCommanded(EMPTY, ops, id);
  }
}
