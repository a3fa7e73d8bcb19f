/**
 The durable agent run protocol of internal/store/agent_store.go: workers claim,
 renew, lose and reclaim runs, a run waits for its user at most three times,
 attaches one task and finishes once, and clarification replies travel through
 a leased outbox. Each store call is one atomic step on the run and outbox
 tables; steps of any number of workers interleave freely.
 */
module AgentRuns {
  import opened Common

  const MAX_CLARIFICATION_ROUNDS := 3
  const MAX_CONTEXT_MESSAGES := 100
  const CLARIFICATION_LIFETIME: Time := 24 * HOUR
  const DEFAULT_LEASE_DURATION: Time := 2 * MINUTE
  const DEFAULT_DELIVERY_LEASE: Time := MINUTE

  datatype Status = Queued | Running | WaitingUser | Succeeded | Failed | Cancelled

  /** What the provider called the message that set a run off; the provider itself is always Lark. */
  datatype Origin = Origin(tenant: string, event: string, trigger: string)

  datatype Run = Run(
    origin: Origin, status: Status, initiatingUser: Id, attempts: int, rounds: int,
    messageRef: Option<string>, interruptRef: Option<string>, clarificationExpiresAt: Option<Time>,
    contextUsed: int, leaseOwner: Option<string>, leaseExpiresAt: Option<Time>,
    availableAt: Time, createdAt: Time,
    taskId: Option<Id>, taskNumber: Option<int>, completedAt: Option<Time>)

  datatype Kind = Clarification | Success | PermissionFailure | TerminalFailure | Retrying | ExpiredNotice

  datatype Delivery = Pending | Delivering | Delivered | DeliveryFailed

  /** An outbox row; its id is the text of a UUID. */
  datatype Message = Message(
    id: string, run: Id, deduplicationKey: string, kind: Kind, state: Delivery, attempts: int,
    availableAt: Time, createdAt: Time, leaseOwner: Option<string>, leaseExpiresAt: Option<Time>,
    providerId: Option<string>)

  datatype Tables = Tables(runs: map<Id, Run>, outbox: map<string, Message>)

  const EMPTY := Tables(map[], map[])

  datatype AgentError =
    | InvalidRun | InvalidTransition | RunNotWaiting | UserMismatch | ClarificationExpired
    | ClarificationLimit | ContextLimit | RunNotFound | LeaseLost | DeliveryClaimed | StoreConflict

  predicate Terminal(s: Status) {
    s == Succeeded || s == Failed || s == Cancelled
  }

  /** What a waiting run shows until its clarification has been delivered. */
  function PendingRef(message: string): string {
    "pending:" + message
  }

  predicate LooksPending(ref: string) {
    "pending:" <= ref
  }

  lemma PendingRefInjective(a: string, b: string)
    requires PendingRef(a) == PendingRef(b)
    ensures a == b
  {
    assert a == PendingRef(a)[8..] && b == PendingRef(b)[8..];
  }

  // ---------------------------------------------------------------- commands on one run row

  datatype Command =
    | Renew(worker: string, now: Time, duration: Time)
    | AddContext(worker: string, count: int, now: Time)
    | Attach(worker: string, taskId: Id, taskNumber: int, now: Time)
    | Wait(worker: string, interrupt: string, message: Message, now: Time)
    | Finish(worker: string, status: Status, notice: Option<Message>, now: Time)
    | Retry(worker: string, availableAt: Time, now: Time)
    | Resume(user: Id, ref: string, now: Time)
    | CancelExpired(message: Message, now: Time)

  /** The commands guarded by the lease, with the worker that issues them. */
  function WorkerOf(c: Command): Option<string> {
    if c.Resume? || c.CancelExpired? then None else Some(c.worker)
  }

  function MessageOf(c: Command): Option<Message> {
    match c
    case Wait(_, _, message, _) => Some(message)
    case Finish(_, _, notice, _) => notice
    case CancelExpired(message, _) => Some(message)
    case _ => None
  }

  predicate Owns(run: Run, worker: string) {
    run.status == Running && run.leaseOwner == Some(worker)
  }

  function Lasting(duration: Time, default: Time): Time {
    if duration <= 0 then default else duration
  }

  /** The row a command's guarded update leaves, or None when its guard does not match. */
  function Effect(id: Id, run: Run, c: Command): Option<Run> {
    match c
    case Renew(worker, now, duration) =>
      if Owns(run, worker) && run.leaseExpiresAt.Some? && run.leaseExpiresAt.value > now
      then Some(run.(leaseExpiresAt := Some(now + Lasting(duration, DEFAULT_LEASE_DURATION)))) else None
    case AddContext(worker, count, now) =>
      if count >= 0 && Owns(run, worker) && run.contextUsed + count <= MAX_CONTEXT_MESSAGES
      then Some(run.(contextUsed := run.contextUsed + count)) else None
    case Attach(worker, taskId, taskNumber, now) =>
      if Owns(run, worker) && run.taskId.None?
      then Some(run.(taskId := Some(taskId), taskNumber := Some(taskNumber))) else None
    case Wait(worker, interrupt, message, now) =>
      if Owns(run, worker) && run.rounds < MAX_CLARIFICATION_ROUNDS && !Blank(interrupt)
      then Some(run.(status := WaitingUser, rounds := run.rounds + 1,
                     messageRef := Some(PendingRef(message.id)), interruptRef := Some(TrimSpace(interrupt)),
                     clarificationExpiresAt := Some(now + CLARIFICATION_LIFETIME),
                     leaseOwner := None, leaseExpiresAt := None))
      else None
    case Finish(worker, status, _, now) =>
      if Terminal(status) && Owns(run, worker) then Some(Closed(run, status, now)) else None
    case Retry(worker, availableAt, now) =>
      if Owns(run, worker)
      then Some(run.(status := Queued, availableAt := availableAt, leaseOwner := None, leaseExpiresAt := None))
      else None
    case Resume(user, ref, now) =>
      if && run.status == WaitingUser && run.initiatingUser == user && run.messageRef == Some(ref)
         && run.clarificationExpiresAt.Some? && run.clarificationExpiresAt.value > now
      then Some(run.(status := Queued, availableAt := now, messageRef := None, clarificationExpiresAt := None))
      else None
    case CancelExpired(message, now) =>
      if && message.run == id && message.kind == ExpiredNotice && run.status == WaitingUser
         && run.clarificationExpiresAt.Some? && run.clarificationExpiresAt.value <= now
      then Some(Closed(run, Cancelled, now)) else None
  }

  function Closed(run: Run, status: Status, now: Time): Run {
    run.(status := status, leaseOwner := None, leaseExpiresAt := None, messageRef := None,
         interruptRef := None, clarificationExpiresAt := None, completedAt := Some(now))
  }

  predicate Claimable(run: Run, now: Time) {
    || (run.status == Queued && run.availableAt <= now)
    || (run.status == Running && run.leaseExpiresAt.Some? && run.leaseExpiresAt.value <= now)
  }

  function Claimed(run: Run, worker: string, now: Time, duration: Time): Run {
    run.(status := Running, leaseOwner := Some(worker),
         leaseExpiresAt := Some(now + Lasting(duration, DEFAULT_LEASE_DURATION)), attempts := run.attempts + 1)
  }

  // ---------------------------------------------------------------- steps on the tables

  datatype Op =
    | Create(id: Id, origin: Origin, user: Id, now: Time)
    | ClaimRun(id: Id, worker: string, now: Time, duration: Time)
    | OnRun(id: Id, command: Command)
    | Enqueue(message: Message)
    | ClaimOutbox(messageId: string, worker: string, now: Time, duration: Time)
    | MarkDelivered(messageId: string, worker: string, providerId: string, now: Time)
    | MarkFailed(messageId: string, worker: string, availableAt: Time, now: Time)

  function NewRun(origin: Origin, user: Id, now: Time): Run {
    Run(origin, Queued, user, 0, 0, None, None, None, 0, None, None, now, now, None, None, None)
  }

  predicate ValidNewRun(id: Id, origin: Origin, user: Id) {
    id != NIL && user != NIL && !Blank(origin.tenant) && !Blank(origin.event) && !Blank(origin.trigger)
  }

  /** Event and trigger message ids are each unique within a tenant. */
  predicate SameOrigin(a: Origin, b: Origin) {
    a.tenant == b.tenant && (a.event == b.event || a.trigger == b.trigger)
  }

  predicate OriginTaken(db: Tables, origin: Origin) {
    exists o :: o in db.runs && SameOrigin(db.runs[o].origin, origin)
  }

  /** created_task_id and created_task_number are unique columns. */
  predicate TaskTaken(db: Tables, id: Id, c: Command) {
    c.Attach? &&
    exists o :: o in db.runs && o != id &&
      (db.runs[o].taskId == Some(c.taskId) || db.runs[o].taskNumber == Some(c.taskNumber))
  }

  /** An insert: a broken constraint rolls it back, a duplicate key makes it do nothing. */
  function Inserted(db: Tables, m: Message): Option<Tables> {
    if m.state == Delivering || m.state == Delivered then None
    else if exists k :: k in db.outbox && db.outbox[k].deduplicationKey == m.deduplicationKey then Some(db)
    else if m.id in db.outbox || m.run !in db.runs then None
    else Some(db.(outbox := db.outbox[m.id := m.(leaseOwner := None, leaseExpiresAt := None, providerId := None)]))
  }

  function Commanded(db: Tables, id: Id, c: Command): Option<Tables> {
    if id !in db.runs || TaskTaken(db, id, c) then None
    else
      match Effect(id, db.runs[id], c)
      case None => None
      case Some(run) =>
        var updated := db.(runs := db.runs[id := run]);
        if MessageOf(c).None? then Some(updated) else Inserted(updated, MessageOf(c).value)
  }

  predicate Deliverable(m: Message, now: Time) {
    || ((m.state == Pending || m.state == DeliveryFailed) && m.availableAt <= now)
    || (m.state == Delivering && m.leaseExpiresAt.Some? && m.leaseExpiresAt.value <= now)
  }

  predicate Delivers(db: Tables, messageId: string, worker: string) {
    messageId in db.outbox && db.outbox[messageId].state == Delivering && db.outbox[messageId].leaseOwner == Some(worker)
  }

  /** Does delivering this message give its run the reference users reply to? */
  predicate Binds(db: Tables, messageId: string)
    requires messageId in db.outbox
  {
    var m := db.outbox[messageId];
    && m.kind == Clarification && m.run in db.runs
    && db.runs[m.run].status == WaitingUser && db.runs[m.run].messageRef == Some(PendingRef(messageId))
  }

  function Apply(db: Tables, op: Op): Tables {
    match op
    case Create(id, origin, user, now) =>
      if !ValidNewRun(id, origin, user) || id in db.runs || OriginTaken(db, origin) then db
      else db.(runs := db.runs[id := NewRun(origin, user, now)])
    case ClaimRun(id, worker, now, duration) =>
      if worker == "" || id !in db.runs || !Claimable(db.runs[id], now) then db
      else db.(runs := db.runs[id := Claimed(db.runs[id], worker, now, duration)])
    case OnRun(id, command) =>
      (match Commanded(db, id, command) case None => db case Some(after) => after)
    case Enqueue(message) =>
      (match Inserted(db, message) case None => db case Some(after) => after)
    case ClaimOutbox(messageId, worker, now, duration) =>
      if messageId !in db.outbox || !Deliverable(db.outbox[messageId], now) then db
      else
        var m := db.outbox[messageId];
        db.(outbox := db.outbox[messageId := m.(state := Delivering, leaseOwner := Some(worker),
              leaseExpiresAt := Some(now + Lasting(duration, DEFAULT_DELIVERY_LEASE)), attempts := m.attempts + 1)])
    case MarkDelivered(messageId, worker, providerId, now) =>
      if !Delivers(db, messageId, worker) then db
      else
        var m := db.outbox[messageId];
        Tables(if Binds(db, messageId)
               then db.runs[m.run := db.runs[m.run].(messageRef := Some(providerId))] else db.runs,
               db.outbox[messageId := m.(state := Delivered, leaseOwner := None, leaseExpiresAt := None,
                                         providerId := Some(providerId))])
    case MarkFailed(messageId, worker, availableAt, now) =>
      if !Delivers(db, messageId, worker) then db
      else
        db.(outbox := db.outbox[messageId := db.outbox[messageId].(state := DeliveryFailed,
              leaseOwner := None, leaseExpiresAt := None, availableAt := availableAt)])
  }

  function Execute(db: Tables, ops: seq<Op>): Tables
    decreases |ops|
  {
    if ops == [] then db else Execute(Apply(db, ops[0]), ops[1..])
  }
}
