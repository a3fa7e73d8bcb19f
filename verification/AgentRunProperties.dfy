/** What every run of the agent store's steps keeps: fencing, finality, one run per trigger, shape. */
module AgentRunProperties {
  import opened Common
  import opened AgentRuns

  // ---------------------------------------------------------------- how one row can change

  /** The four ways in which a step can touch an existing run row. */
  ghost predicate RowChange(db: Tables, op: Op, id: Id, run: Run, next: Run) {
    || next == run
    || (op.ClaimRun? && op.id == id && op.worker != "" && Claimable(run, op.now) &&
        next == Claimed(run, op.worker, op.now, op.duration))
    || (op.OnRun? && op.id == id && !TaskTaken(db, id, op.command) && Effect(id, run, op.command) == Some(next))
    || (op.MarkDelivered? && Delivers(db, op.messageId, op.worker) && db.outbox[op.messageId].run == id &&
        Binds(db, op.messageId) && next == run.(messageRef := Some(op.providerId)))
  }

  lemma RowsPersist(db: Tables, op: Op, id: Id)
    requires id in db.runs
    ensures id in Apply(db, op).runs
    ensures RowChange(db, op, id, db.runs[id], Apply(db, op).runs[id])
  {
  }

  // ---------------------------------------------------------------- fencing by owner

  predicate Claims(db: Tables, op: Op, id: Id) {
    op.ClaimRun? && op.id == id && op.worker != "" && id in db.runs && Claimable(db.runs[id], op.now)
  }

  /** The worker of the latest successful claim of a run, over a sequence of steps. */
  function LatestClaimer(db: Tables, ops: seq<Op>, id: Id, before: Option<string>): Option<string>
    decreases |ops|
  {
    if ops == [] then before
    else
      LatestClaimer(Apply(db, ops[0]), ops[1..], id,
                    if Claims(db, ops[0], id) then Some(ops[0].worker) else before)
  }

  /** A running row names the worker that claimed it last. */
  ghost predicate OwnerIsLatest(db: Tables, id: Id, claimer: Option<string>) {
    id in db.runs && db.runs[id].status == Running ==> db.runs[id].leaseOwner == claimer
  }

  lemma OwnerStep(db: Tables, op: Op, id: Id, claimer: Option<string>)
    requires OwnerIsLatest(db, id, claimer)
    ensures OwnerIsLatest(Apply(db, op), id, if Claims(db, op, id) then Some(op.worker) else claimer)
  {
    if id in db.runs {
      RowsPersist(db, op, id);
    }
  }

  lemma {:induction false} OwnerRun(db: Tables, ops: seq<Op>, id: Id, claimer: Option<string>)
    requires OwnerIsLatest(db, id, claimer)
    ensures OwnerIsLatest(Execute(db, ops), id, LatestClaimer(db, ops, id, claimer))
    decreases |ops|
  {
    if ops != [] {
      OwnerStep(db, ops[0], id, claimer);
      OwnerRun(Apply(db, ops[0]), ops[1..], id, if Claims(db, ops[0], id) then Some(ops[0].worker) else claimer);
    }
  }

  /**
   In every interleaving, a lease-guarded write takes effect only for the worker
   that made the latest claim of that run; for any other worker it changes nothing
   in either table.
   */
  lemma WritesAreFenced(ops: seq<Op>, id: Id, c: Command)
    requires WorkerOf(c).Some?
    ensures var db := Execute(EMPTY, ops);
            var claimer := LatestClaimer(EMPTY, ops, id, None);
            && (Commanded(db, id, c).Some? ==> claimer == WorkerOf(c))
            && (claimer != WorkerOf(c) ==> Apply(db, OnRun(id, c)) == db)
  {
    OwnerRun(EMPTY, ops, id, None);
  }

  /** The step is neither a write of `worker` on the run nor a claim at or after `expiry`. */
  predicate Foreign(op: Op, id: Id, worker: string, expiry: Time) {
    && (op.OnRun? && op.id == id ==> WorkerOf(op.command) != Some(worker))
    && (op.ClaimRun? && op.id == id ==> op.now < expiry)
  }

  /** Until a lease expires, nothing that anyone else does changes the run. */
  lemma {:induction false} LeaseExcludesOthers(db: Tables, ops: seq<Op>, id: Id, worker: string, expiry: Time)
    requires id in db.runs && Owns(db.runs[id], worker) && db.runs[id].leaseExpiresAt == Some(expiry)
    requires forall i :: 0 <= i < |ops| ==> Foreign(ops[i], id, worker, expiry)
    ensures id in Execute(db, ops).runs && Execute(db, ops).runs[id] == db.runs[id]
    decreases |ops|
  {
    if ops != [] {
      assert Foreign(ops[0], id, worker, expiry);
      RowsPersist(db, ops[0], id);
      LeaseExcludesOthers(Apply(db, ops[0]), ops[1..], id, worker, expiry);
    }
  }

  // ---------------------------------------------------------------- finality

  /** A terminal run never changes again, so it turns terminal at most once. */
  lemma {:induction false} TerminalIsForever(db: Tables, ops: seq<Op>, id: Id)
    requires id in db.runs && Terminal(db.runs[id].status)
    ensures id in Execute(db, ops).runs && Execute(db, ops).runs[id] == db.runs[id]
    decreases |ops|
  {
    if ops != [] {
      RowsPersist(db, ops[0], id);
      TerminalIsForever(Apply(db, ops[0]), ops[1..], id);
    }
  }

  /** The answer of AttachTask: whatever is attached in the end, and whether this call attached it. */
  function AttachAnswer(db: Tables, id: Id, c: Command): Result<(Id, int, bool), AgentError>
    requires c.Attach?
  {
    if id in db.runs && Effect(id, db.runs[id], c).Some? then
      if TaskTaken(db, id, c) then Err(StoreConflict) else Ok((c.taskId, c.taskNumber, true))
    else if id in db.runs && db.runs[id].taskId.Some? && db.runs[id].taskNumber.Some?
    then Ok((db.runs[id].taskId.value, db.runs[id].taskNumber.value, false))
    else Err(LeaseLost)
  }

  /** The attached task is write-once: every later attempt, by anyone, answers with that same pair. */
  lemma {:induction false} AttachedTaskIsWriteOnce(db: Tables, ops: seq<Op>, id: Id, c: Command)
    requires id in db.runs && db.runs[id].taskId.Some? && db.runs[id].taskNumber.Some? && c.Attach?
    ensures id in Execute(db, ops).runs
    ensures Execute(db, ops).runs[id].taskId == db.runs[id].taskId
    ensures Execute(db, ops).runs[id].taskNumber == db.runs[id].taskNumber
    ensures AttachAnswer(Execute(db, ops), id, c) == Ok((db.runs[id].taskId.value, db.runs[id].taskNumber.value, false))
    decreases |ops|
  {
    if ops != [] {
      RowsPersist(db, ops[0], id);
      AttachedTaskIsWriteOnce(Apply(db, ops[0]), ops[1..], id, c);
    }
  }

  ghost predicate TasksUnshared(db: Tables) {
    forall i, j :: i in db.runs && j in db.runs && i != j && db.runs[i].taskId.Some? ==>
      db.runs[i].taskId != db.runs[j].taskId
  }

  /** A row's task is the one it had, or one that no other row has. */
  lemma TaskOrigin(db: Tables, op: Op, id: Id)
    requires id in Apply(db, op).runs
    ensures var task := Apply(db, op).runs[id].taskId;
            || task == (if id in db.runs then db.runs[id].taskId else None)
            || (op.OnRun? && op.id == id && op.command.Attach? && !TaskTaken(db, id, op.command) &&
                task == Some(op.command.taskId))
  {
    if id in db.runs {
      RowsPersist(db, op, id);
    }
  }

  lemma TasksUnsharedStep(db: Tables, op: Op)
    requires TasksUnshared(db)
    ensures TasksUnshared(Apply(db, op))
  {
    var after := Apply(db, op).runs;
    forall i, j | i in after && j in after && i != j && after[i].taskId.Some?
      ensures after[i].taskId != after[j].taskId
    {
      TaskOrigin(db, op, i);
      TaskOrigin(db, op, j);
    }
  }

  /** In every run of the protocol no task is attached to two runs. */
  lemma {:induction false} NoTaskHasTwoRuns(db: Tables, ops: seq<Op>)
    requires TasksUnshared(db)
    ensures TasksUnshared(Execute(db, ops))
    decreases |ops|
  {
    if ops != [] {
      TasksUnsharedStep(db, ops[0]);
      NoTaskHasTwoRuns(Apply(db, ops[0]), ops[1..]);
    }
  }

  /** A delivered outbox message never changes again. */
  lemma {:induction false} DeliveredIsForever(db: Tables, ops: seq<Op>, m: string)
    requires m in db.outbox && db.outbox[m].state == Delivered
    ensures m in Execute(db, ops).outbox && Execute(db, ops).outbox[m] == db.outbox[m]
    decreases |ops|
  {
    if ops != [] {
      DeliveredIsForever(Apply(db, ops[0]), ops[1..], m);
    }
  }

  // ---------------------------------------------------------------- one run per trigger

  ghost predicate OriginsUnshared(db: Tables) {
    forall a, b :: a in db.runs && b in db.runs && a != b ==> !SameOrigin(db.runs[a].origin, db.runs[b].origin)
  }

  lemma OriginsPersist(db: Tables, op: Op, id: Id)
    requires id in db.runs
    ensures id in Apply(db, op).runs && Apply(db, op).runs[id].origin == db.runs[id].origin
  {
    RowsPersist(db, op, id);
  }

  lemma OriginsStep(db: Tables, op: Op)
    requires OriginsUnshared(db)
    ensures OriginsUnshared(Apply(db, op))
  {
    forall id | id in db.runs
      ensures id in Apply(db, op).runs && Apply(db, op).runs[id].origin == db.runs[id].origin
    {
      OriginsPersist(db, op, id);
    }
  }

  /** However often the provider redelivers an event or a message, one run comes of it. */
  lemma {:induction false} OneRunPerTrigger(db: Tables, ops: seq<Op>)
    requires OriginsUnshared(db)
    ensures OriginsUnshared(Execute(db, ops))
    decreases |ops|
  {
    if ops != [] {
      OriginsStep(db, ops[0]);
      OneRunPerTrigger(Apply(db, ops[0]), ops[1..]);
    }
  }

  // ---------------------------------------------------------------- shape

  /** Run.Validate: a lease iff running, a completion time iff terminal, bounded rounds and context. */
  predicate Validate(id: Id, run: Run) {
    && ValidNewRun(id, run.origin, run.initiatingUser) && run.attempts >= 0
    && 0 <= run.rounds <= MAX_CLARIFICATION_ROUNDS
    && 0 <= run.contextUsed <= MAX_CONTEXT_MESSAGES
    && (run.taskId.None? <==> run.taskNumber.None?)
    && (run.taskId.Some? ==> run.taskId.value != NIL && run.taskNumber.value > 0)
    && (Terminal(run.status) <==> run.completedAt.Some?)
    && (if run.status == Running
        then run.leaseOwner.Some? && !Blank(run.leaseOwner.value) && run.leaseExpiresAt.Some?
        else run.leaseOwner.None? && run.leaseExpiresAt.None?)
    && (run.status == WaitingUser ==>
          && run.messageRef.Some? && !Blank(run.messageRef.value)
          && run.interruptRef.Some? && !Blank(run.interruptRef.value)
          && run.clarificationExpiresAt.Some?)
  }

  ghost predicate AllValid(db: Tables) {
    forall id :: id in db.runs ==> Validate(id, db.runs[id])
  }

  /**
   The arguments the store lets through although Run.Validate would not: a blank
   but non-empty worker id, a nil task or a task number below one, and a blank
   provider message id for the message a run waits on.
   */
  ghost predicate Malformed(db: Tables, op: Op) {
    match op
    case ClaimRun(id, worker, _, _) => Claims(db, op, id) && Blank(worker)
    case OnRun(id, Attach(worker, taskId, taskNumber, now)) =>
      Commanded(db, id, op.command).Some? && (taskId == NIL || taskNumber <= 0)
    case MarkDelivered(messageId, worker, providerId, _) =>
      Delivers(db, messageId, worker) && Binds(db, messageId) && Blank(providerId)
    case _ => false
  }

  lemma TrimRightEnd(s: string)
    ensures TrimRight(s) != "" ==> !IsSpace(TrimRight(s)[|TrimRight(s)| - 1])
    ensures s != "" && !IsSpace(s[0]) ==> TrimRight(s) != "" && TrimRight(s)[0] == s[0]
  {
  }

  lemma TrimLeftStart(s: string)
    ensures TrimLeft(s) != "" ==> !IsSpace(TrimLeft(s)[0])
  {
  }

  /** What is left after trimming is not blank, and a pending reference never is. */
  lemma TrimmedIsNotBlank(s: string, message: string)
    ensures !Blank(s) ==> !Blank(TrimSpace(s))
    ensures !Blank(PendingRef(message))
  {
    TrimLeftStart(s);
    TrimRightEnd(TrimLeft(s));
    assert PendingRef(message)[0] == 'p';
    TrimRightEnd(PendingRef(message));
  }

  lemma EffectKeepsShape(id: Id, run: Run, c: Command)
    requires Validate(id, run) && Effect(id, run, c).Some?
    ensures Validate(id, Effect(id, run, c).value) <==> !(c.Attach? && (c.taskId == NIL || c.taskNumber <= 0))
  {
    if c.Wait? {
      TrimmedIsNotBlank(c.interrupt, c.message.id);
    }
  }

  lemma RowKeepsShape(db: Tables, op: Op, id: Id)
    requires AllValid(db) && id in db.runs && !Malformed(db, op)
    ensures id in Apply(db, op).runs && Validate(id, Apply(db, op).runs[id])
  {
    RowsPersist(db, op, id);
    if op.OnRun? && op.id == id && Effect(id, db.runs[id], op.command).Some? {
      EffectKeepsShape(id, db.runs[id], op.command);
    }
  }

  lemma MalformedBreaksShape(db: Tables, op: Op)
    requires AllValid(db) && Malformed(db, op)
    ensures !AllValid(Apply(db, op))
  {
    var id := if op.MarkDelivered? then db.outbox[op.messageId].run else op.id;
    if op.OnRun? {
      EffectKeepsShape(id, db.runs[id], op.command);
    }
    assert id in Apply(db, op).runs && !Validate(id, Apply(db, op).runs[id]);
  }

  /** A step from valid rows leaves every row valid exactly when its arguments are not malformed. */
  lemma ShapeStep(db: Tables, op: Op)
    requires AllValid(db)
    ensures AllValid(Apply(db, op)) <==> !Malformed(db, op)
  {
    if Malformed(db, op) {
      MalformedBreaksShape(db, op);
    } else {
      forall id | id in db.runs
        ensures id in Apply(db, op).runs && Validate(id, Apply(db, op).runs[id])
      {
        RowKeepsShape(db, op, id);
      }
      NewRowsAreValid(db, op);
    }
  }

  lemma NewRowsAreValid(db: Tables, op: Op)
    ensures forall id :: id in Apply(db, op).runs && id !in db.runs ==> Validate(id, Apply(db, op).runs[id])
  {
  }

  lemma SpaceIsBlank()
    ensures Blank(" ")
  {
    assert TrimLeft(" ") == TrimLeft(" "[1..]) == "";
  }

  lemma CreationThenClaim(create: Op, claim: Op)
    ensures Execute(EMPTY, [create]) == Apply(EMPTY, create)
    ensures Execute(EMPTY, [create, claim]) == Apply(Apply(EMPTY, create), claim)
  {
    var before := Apply(EMPTY, create);
    assert [create][1..] == [] && [create, claim][1..] == [claim] && [claim][1..] == [];
    assert Execute(before, [claim]) == Apply(before, claim);
  }

  /** Such a step is reached: a worker whose id is blank but not empty claims a new run. */
  lemma BlankWorkerBreaksShape(id: Id, origin: Origin, user: Id, now: Time)
    requires ValidNewRun(id, origin, user)
    ensures var before := Execute(EMPTY, [Create(id, origin, user, now)]);
            var claim := ClaimRun(id, " ", now, 0);
            && AllValid(before) && Malformed(before, claim)
            && Execute(EMPTY, [Create(id, origin, user, now), claim]) == Apply(before, claim)
            && !AllValid(Apply(before, claim))
  {
    var create, claim := Create(id, origin, user, now), ClaimRun(id, " ", now, 0);
    CreationThenClaim(create, claim);
    var before := Apply(EMPTY, create);
    assert before.runs == map[id := NewRun(origin, user, now)];
    SpaceIsBlank();
    ShapeStep(before, claim);
  }

  ghost predicate NeverMalformed(db: Tables, ops: seq<Op>)
    decreases |ops|
  {
    ops == [] || (!Malformed(db, ops[0]) && NeverMalformed(Apply(db, ops[0]), ops[1..]))
  }

  /** Every reachable row keeps the Run.Validate shape, in every run with well-formed arguments. */
  lemma {:induction false} RowsStayValid(db: Tables, ops: seq<Op>)
    requires AllValid(db) && NeverMalformed(db, ops)
    ensures AllValid(Execute(db, ops))
    decreases |ops|
  {
    if ops != [] {
      ShapeStep(db, ops[0]);
      RowsStayValid(Apply(db, ops[0]), ops[1..]);
    }
  }
}
