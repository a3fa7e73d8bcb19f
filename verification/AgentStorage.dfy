/**
 The agent store itself, internal/store/agent_store.go: its two tables change in
 place, and every method is proved against the step it takes in AgentRuns.
 */
module AgentStorage {
  import opened Common
  import opened AgentRuns
  import opened AgentRunProperties
  import opened AgentRunEffects

  /** The queue order of claimable runs: available, then created, then id. */
  predicate Before(rows: map<Id, Run>, a: Id, b: Id)
    requires a in rows && b in rows
  {
    || rows[a].availableAt < rows[b].availableAt
    || (rows[a].availableAt == rows[b].availableAt && rows[a].createdAt < rows[b].createdAt)
    || (rows[a].availableAt == rows[b].availableAt && rows[a].createdAt == rows[b].createdAt && a < b)
  }

  /** The unlocked claimable run that comes first, or None when there is none. */
  predicate FirstOf(rows: map<Id, Run>, now: Time, locked: set<Id>, first: Option<Id>) {
    match first
    case None => forall id :: id in rows && id !in locked ==> !Claimable(rows[id], now)
    case Some(id) =>
      && id in rows && id !in locked && Claimable(rows[id], now)
      && forall o :: o in rows && o !in locked && o != id && Claimable(rows[o], now) ==> Before(rows, id, o)
  }

  /** In columns: the free unlocked run with the least available time, then creation time, then id. */
  lemma FirstOfMeans(rows: map<Id, Run>, now: Time, locked: set<Id>, first: Option<Id>)
    ensures FirstOf(rows, now, locked, first) <==>
              match first
              case None => forall id :: id in rows && id !in locked ==> !Free(rows[id], now)
              case Some(c) =>
                && c in rows && c !in locked && Free(rows[c], now)
                && forall o :: o in rows && o !in locked && Free(rows[o], now) ==>
                     && rows[c].availableAt <= rows[o].availableAt
                     && (rows[c].availableAt == rows[o].availableAt ==> rows[c].createdAt <= rows[o].createdAt)
                     && (rows[c].availableAt == rows[o].availableAt && rows[c].createdAt == rows[o].createdAt ==> c <= o)
  {
  }

  /** Taking up one more row keeps the first of the rows looked at. */
  lemma FirstOfMore(rows: map<Id, Run>, now: Time, rest: set<Id>, id: Id, candidate: Option<Id>)
    requires id in rows && id in rest && FirstOf(rows, now, rest, candidate)
    ensures var next := if Claimable(rows[id], now) && (candidate == None || Before(rows, id, candidate.value))
                        then Some(id) else candidate;
            FirstOf(rows, now, rest - {id}, next)
  {
  }

  method FirstClaimable(rows: map<Id, Run>, now: Time, locked: set<Id>) returns (candidate: Option<Id>)
    ensures FirstOf(rows, now, locked, candidate)
  {
    candidate := None;
    var pending := rows.Keys - locked;
    while pending != {}
      invariant pending <= rows.Keys - locked
      invariant FirstOf(rows, now, locked + pending, candidate)
      decreases |pending|
    {
      var id :| id in pending;
      FirstOfMore(rows, now, locked + pending, id, candidate);
      assert locked + pending - {id} == locked + (pending - {id});
      pending := pending - {id};
      if Claimable(rows[id], now) && (candidate == None || Before(rows, id, candidate.value)) {
        candidate := Some(id);
      }
    }
    assert locked + {} == locked;
  }

  /** The order of message ids: their text, character by character. */
  predicate TextUpTo(a: string, b: string) {
    a == "" || (b != "" && (a[0] < b[0] || (a[0] == b[0] && TextUpTo(a[1..], b[1..]))))
  }

  lemma {:induction false} TextOrder(a: string, b: string, c: string)
    ensures TextUpTo(a, b) || TextUpTo(b, a)
    ensures TextUpTo(a, b) && TextUpTo(b, a) ==> a == b
    ensures TextUpTo(a, b) && TextUpTo(b, c) ==> TextUpTo(a, c)
  {
    if a != "" && b != "" {
      assert a == [a[0]] + a[1..] && b == [b[0]] + b[1..];
      TextOrder(a[1..], b[1..], if c == "" then "" else c[1..]);
    }
  }

  /** A text comes before those it begins, and before those that are greater where the two first differ. */
  lemma {:induction false} TextOrderMeans(a: string, b: string, i: nat)
    requires i <= |a| && i <= |b| && a[..i] == b[..i]
    requires i == |a| || (i < |b| && a[i] < b[i])
    ensures TextUpTo(a, b)
  {
    if i > 0 {
      assert a[0] == a[..i][0] == b[..i][0] == b[0];
      assert a[1..][..i - 1] == a[..i][1..] && b[1..][..i - 1] == b[..i][1..];
      TextOrderMeans(a[1..], b[1..], i - 1);
    }
  }

  /** The delivery order of outbox messages: available, then created, then id. */
  predicate Sooner(rows: map<string, Message>, a: string, b: string)
    requires a in rows && b in rows
  {
    || rows[a].availableAt < rows[b].availableAt
    || (rows[a].availableAt == rows[b].availableAt && rows[a].createdAt < rows[b].createdAt)
    || (rows[a].availableAt == rows[b].availableAt && rows[a].createdAt == rows[b].createdAt && TextUpTo(a, b))
  }

  lemma SoonerOrders(rows: map<string, Message>, a: string, b: string, c: string)
    requires a in rows && b in rows && c in rows
    ensures Sooner(rows, a, b) || Sooner(rows, b, a)
    ensures Sooner(rows, a, b) && Sooner(rows, b, c) ==> Sooner(rows, a, c)
  {
    TextOrder(a, b, c);
  }

  predicate SoonestOf(rows: map<string, Message>, now: Time, locked: set<string>, first: Option<string>) {
    match first
    case None => forall m :: m in rows && m !in locked ==> !Deliverable(rows[m], now)
    case Some(m) =>
      && m in rows && m !in locked && Deliverable(rows[m], now)
      && forall o :: o in rows && o !in locked && Deliverable(rows[o], now) ==> Sooner(rows, m, o)
  }

  /** Taking up one more row keeps the soonest of the rows looked at. */
  lemma SoonestOfMore(rows: map<string, Message>, now: Time, rest: set<string>, m: string, candidate: Option<string>)
    requires m in rows && m in rest && SoonestOf(rows, now, rest, candidate)
    ensures var next := if Deliverable(rows[m], now) && (candidate == None || !Sooner(rows, candidate.value, m))
                        then Some(m) else candidate;
            SoonestOf(rows, now, rest - {m}, next)
  {
    forall o | o in rows
      ensures Sooner(rows, m, o) || Sooner(rows, o, m)
      ensures candidate.Some? && Sooner(rows, m, candidate.value) && Sooner(rows, candidate.value, o) ==> Sooner(rows, m, o)
    {
      SoonerOrders(rows, m, o, o);
      if candidate.Some? {
        SoonerOrders(rows, m, candidate.value, o);
      }
    }
  }

  /** Pending or failed and due, or under a delivery whose lease is over. */
  predicate Waiting(m: Message, now: Time) {
    || ((m.state.Pending? || m.state.DeliveryFailed?) && m.availableAt <= now)
    || (m.state.Delivering? && m.leaseExpiresAt.Some? && m.leaseExpiresAt.value <= now)
  }

  /** In columns: the waiting unlocked message with the least available time, then creation time, then id text. */
  lemma SoonestOfMeans(rows: map<string, Message>, now: Time, locked: set<string>, first: Option<string>)
    ensures SoonestOf(rows, now, locked, first) <==>
              match first
              case None => forall m :: m in rows && m !in locked ==> !Waiting(rows[m], now)
              case Some(c) =>
                && c in rows && c !in locked && Waiting(rows[c], now)
                && forall o :: o in rows && o !in locked && Waiting(rows[o], now) ==>
                     && rows[c].availableAt <= rows[o].availableAt
                     && (rows[c].availableAt == rows[o].availableAt ==> rows[c].createdAt <= rows[o].createdAt)
                     && (rows[c].availableAt == rows[o].availableAt && rows[c].createdAt == rows[o].createdAt ==> TextUpTo(c, o))
  {
  }

  method SoonestDeliverable(rows: map<string, Message>, now: Time, locked: set<string>) returns (candidate: Option<string>)
    ensures SoonestOf(rows, now, locked, candidate)
  {
    candidate := None;
    var pending := rows.Keys - locked;
    while pending != {}
      invariant pending <= rows.Keys - locked
      invariant SoonestOf(rows, now, locked + pending, candidate)
      decreases |pending|
    {
      var m :| m in pending;
      SoonestOfMore(rows, now, locked + pending, m, candidate);
      assert locked + pending - {m} == locked + (pending - {m});
      pending := pending - {m};
      if Deliverable(rows[m], now) && (candidate == None || !Sooner(rows, candidate.value, m)) {
        candidate := Some(m);
      }
    }
    assert locked + {} == locked;
  }

  /** The earliest run of an event or trigger message. */
  predicate EarliestOf(rows: map<Id, Run>, origin: Origin, first: Option<Id>) {
    match first
    case None => forall id :: id in rows ==> !SameOrigin(rows[id].origin, origin)
    case Some(id) =>
      && id in rows && SameOrigin(rows[id].origin, origin)
      && forall o :: o in rows && SameOrigin(rows[o].origin, origin) ==> rows[id].createdAt <= rows[o].createdAt
  }

  method FindRunByProviderIdentity(rows: map<Id, Run>, origin: Origin) returns (found: Option<Id>)
    ensures EarliestOf(rows, origin, found)
  {
    found := None;
    var pending := rows.Keys;
    while pending != {}
      invariant pending <= rows.Keys
      invariant match found
                case None => forall id :: id in rows && id !in pending ==> !SameOrigin(rows[id].origin, origin)
                case Some(f) =>
                  && f in rows && SameOrigin(rows[f].origin, origin)
                  && forall o :: o in rows && o !in pending && SameOrigin(rows[o].origin, origin) ==>
                       rows[f].createdAt <= rows[o].createdAt
      decreases |pending|
    {
      var id :| id in pending;
      pending := pending - {id};
      if SameOrigin(rows[id].origin, origin) && (found == None || rows[id].createdAt < rows[found.value].createdAt) {
        found := Some(id);
      }
    }
  }

  class AgentStore {
    var runs: map<Id, Run>
    var outbox: map<string, Message>

    function Rows(): Tables
      reads this
    {
      Tables(runs, outbox)
    }

    constructor ()
      ensures Rows() == EMPTY
    {
      runs, outbox := map[], map[];
    }

    /** Inserts the run, or answers with the earliest run of the same event or trigger message. */
    method CreateRun(id: Id, origin: Origin, user: Id, now: Time) returns (r: Result<(Id, bool), AgentError>)
      modifies this
      ensures Rows() == Apply(old(Rows()), Create(id, origin, user, now))
      ensures r == Err(InvalidRun) <==> !ValidNewRun(id, origin, user)
      ensures r == Err(RunNotFound) <==>
                ValidNewRun(id, origin, user) && id in old(runs) && !OriginTaken(old(Rows()), origin)
      ensures r.Err? ==> r.error == InvalidRun || r.error == RunNotFound
      ensures r.Ok? && r.value.1 ==> r.value.0 == id && id !in old(runs) && !OriginTaken(old(Rows()), origin)
      ensures r.Ok? && !r.value.1 ==> EarliestOf(old(runs), origin, Some(r.value.0))
    {
      if id == NIL || user == NIL || Blank(origin.tenant) || Blank(origin.event) || Blank(origin.trigger) {
        return Err(InvalidRun);
      }
      var existing := FindRunByProviderIdentity(runs, origin);
      if existing == None && id !in runs {
        runs := runs[id := NewRun(origin, user, now)];
        return Ok((id, true));
      }
      if existing == None {
        return Err(RunNotFound);
      }
      r := Ok((existing.value, false));
    }

    /** Claims the first claimable run that no concurrent claim has locked. */
    method ClaimRun(worker: string, now: Time, duration: Time, locked: set<Id>)
      returns (r: Result<Option<Id>, AgentError>)
      modifies this
      ensures r.Err? <==> worker == ""
      ensures r.Err? || r.value.None? ==> Rows() == old(Rows())
      ensures r == Ok(None) <==> worker != "" && forall id :: id in old(runs) && id !in locked ==> !Free(old(runs)[id], now)
      ensures r.Ok? ==> FirstOf(old(runs), now, locked, r.value)
      ensures r.Ok? && r.value.Some? ==>
                Rows() == Apply(old(Rows()), AgentRuns.ClaimRun(r.value.value, worker, now, duration))
    {
      if worker == "" {
        return Err(InvalidRun);
      }
      var candidate := FirstClaimable(runs, now, locked);
      FirstOfMeans(runs, now, locked, candidate);
      if candidate == None {
        return Ok(None);
      }
      var run := runs[candidate.value];
      var lease := if duration <= 0 then DEFAULT_LEASE_DURATION else duration;
      runs := runs[candidate.value := run.(status := Running, leaseOwner := Some(worker),
                                           leaseExpiresAt := Some(now + lease), attempts := run.attempts + 1)];
      r := Ok(candidate);
    }

    method RenewRunLease(id: Id, worker: string, now: Time, duration: Time) returns (r: Result<(), AgentError>)
      modifies this
      ensures Rows() == Apply(old(Rows()), OnRun(id, Renew(worker, now, duration)))
      ensures r == if Commanded(old(Rows()), id, Renew(worker, now, duration)).Some? then Ok(()) else Err(LeaseLost)
    {
      if id !in runs || runs[id].status != Running || runs[id].leaseOwner != Some(worker)
         || runs[id].leaseExpiresAt == None || runs[id].leaseExpiresAt.value <= now {
        return Err(LeaseLost);
      }
      var lease := if duration <= 0 then DEFAULT_LEASE_DURATION else duration;
      runs := runs[id := runs[id].(leaseExpiresAt := Some(now + lease))];
      r := Ok(());
    }

    method AddContextMessages(id: Id, worker: string, count: int, now: Time) returns (r: Result<int, AgentError>)
      modifies this
      ensures Rows() == Apply(old(Rows()), OnRun(id, AddContext(worker, count, now)))
      ensures r == if Commanded(old(Rows()), id, AddContext(worker, count, now)).Some?
                   then Ok(old(runs)[id].contextUsed + count) else Err(ContextLimit)
    {
      if count < 0 || id !in runs || runs[id].status != Running || runs[id].leaseOwner != Some(worker)
         || runs[id].contextUsed + count > MAX_CONTEXT_MESSAGES {
        return Err(ContextLimit);
      }
      var used := runs[id].contextUsed + count;
      runs := runs[id := runs[id].(contextUsed := used)];
      r := Ok(used);
    }

    method AttachTask(id: Id, worker: string, taskId: Id, taskNumber: int, now: Time)
      returns (r: Result<(Id, int, bool), AgentError>)
      modifies this
      ensures Rows() == Apply(old(Rows()), OnRun(id, Attach(worker, taskId, taskNumber, now)))
      ensures r == AttachAnswer(old(Rows()), id, Attach(worker, taskId, taskNumber, now))
      ensures r.Ok? ==> id in runs && runs[id].taskId == Some(r.value.0) && runs[id].taskNumber == Some(r.value.1)
      ensures r.Ok? && r.value.2 ==> r.value == (taskId, taskNumber, true) && old(runs)[id].taskId.None?
      ensures r.Ok? && !r.value.2 ==> Rows() == old(Rows())
    {
      var rows := runs;
      if id in rows && rows[id].status == Running && rows[id].leaseOwner == Some(worker) && rows[id].taskId == None {
        if exists o :: o in rows && o != id && (rows[o].taskId == Some(taskId) || rows[o].taskNumber == Some(taskNumber)) {
          return Err(StoreConflict);
        }
        runs := rows[id := rows[id].(taskId := Some(taskId), taskNumber := Some(taskNumber))];
        return Ok((taskId, taskNumber, true));
      }
      if id in rows && rows[id].taskId != None && rows[id].taskNumber != None {
        return Ok((rows[id].taskId.value, rows[id].taskNumber.value, false));
      }
      r := Err(LeaseLost);
    }

    /** INSERT ... ON CONFLICT (deduplication_key) DO NOTHING, under the table's constraints. */
    method InsertOutbox(message: Message) returns (ok: bool)
      modifies this`outbox
      ensures ok <==> Inserted(old(Rows()), message).Some?
      ensures Rows() == if ok then Inserted(old(Rows()), message).value else old(Rows())
    {
      if message.state == Delivering || message.state == Delivered {
        return false;
      }
      var rows := outbox;
      if exists k :: k in rows && rows[k].deduplicationKey == message.deduplicationKey {
        return true;
      }
      if message.id in rows || message.run !in runs {
        return false;
      }
      outbox := rows[message.id := message.(leaseOwner := None, leaseExpiresAt := None, providerId := None)];
      ok := true;
    }

    method MarkRunWaiting(id: Id, worker: string, interrupt: string, message: Message, now: Time)
      returns (r: Result<(), AgentError>)
      modifies this
      ensures Rows() == Apply(old(Rows()), OnRun(id, Wait(worker, interrupt, message, now)))
      ensures r.Ok? <==> Commanded(old(Rows()), id, Wait(worker, interrupt, message, now)).Some?
      ensures id in old(runs) && Owns(old(runs)[id], worker) && old(runs)[id].rounds >= MAX_CLARIFICATION_ROUNDS ==>
                r == Err(ClarificationLimit)
    {
      var before := runs;
      if id !in runs {
        return Err(RunNotFound);
      }
      var run := runs[id];
      if (if run.leaseOwner == None then "" else run.leaseOwner.value) != worker {
        return Err(LeaseLost);
      }
      if run.status != Running {
        return Err(InvalidTransition);
      }
      if run.rounds >= MAX_CLARIFICATION_ROUNDS {
        return Err(ClarificationLimit);
      }
      var trimmed := TrimSpace(interrupt);
      if trimmed == "" {
        return Err(InvalidTransition);
      }
      if run.leaseOwner != Some(worker) {
        return Err(LeaseLost);
      }
      runs := runs[id := run.(status := WaitingUser, rounds := run.rounds + 1,
                              messageRef := Some(PendingRef(message.id)), interruptRef := Some(trimmed),
                              clarificationExpiresAt := Some(now + CLARIFICATION_LIFETIME),
                              leaseOwner := None, leaseExpiresAt := None)];
      var ok := InsertOutbox(message);
      if !ok {
        runs := before;
        return Err(StoreConflict);
      }
      r := Ok(());
    }

    method ResumeWaitingRun(id: Id, user: Id, ref: string, now: Time) returns (r: Result<(), AgentError>)
      modifies this
      ensures Rows() == Apply(old(Rows()), OnRun(id, Resume(user, ref, now)))
      ensures r.Ok? <==> Commanded(old(Rows()), id, Resume(user, ref, now)).Some?
      ensures id in old(runs) && old(runs)[id].status == WaitingUser && old(runs)[id].initiatingUser != user ==>
                r == Err(UserMismatch)
    {
      if id in runs && runs[id].status == WaitingUser && runs[id].initiatingUser == user
         && runs[id].messageRef == Some(ref) && runs[id].clarificationExpiresAt != None
         && runs[id].clarificationExpiresAt.value > now {
        runs := runs[id := runs[id].(status := Queued, availableAt := now, messageRef := None,
                                     clarificationExpiresAt := None)];
        return Ok(());
      }
      if id !in runs {
        return Err(RunNotFound);
      }
      if runs[id].status != WaitingUser {
        return Err(RunNotWaiting);
      }
      if runs[id].initiatingUser != user {
        return Err(UserMismatch);
      }
      if runs[id].clarificationExpiresAt == None || now >= runs[id].clarificationExpiresAt.value {
        return Err(ClarificationExpired);
      }
      r := Err(InvalidTransition);
    }

    method FinishRun(id: Id, worker: string, status: Status, notice: Option<Message>, now: Time)
      returns (r: Result<(), AgentError>)
      modifies this
      ensures Rows() == Apply(old(Rows()), OnRun(id, Finish(worker, status, notice, now)))
      ensures r.Ok? <==> Commanded(old(Rows()), id, Finish(worker, status, notice, now)).Some?
    {
      if !Terminal(status) {
        return Err(InvalidTransition);
      }
      if id !in runs || runs[id].status != Running || runs[id].leaseOwner != Some(worker) {
        return Err(LeaseLost);
      }
      var before := runs;
      runs := runs[id := runs[id].(status := status, leaseOwner := None, leaseExpiresAt := None,
                                   messageRef := None, interruptRef := None, clarificationExpiresAt := None,
                                   completedAt := Some(now))];
      if notice != None {
        var ok := InsertOutbox(notice.value);
        if !ok {
          runs := before;
          return Err(StoreConflict);
        }
      }
      r := Ok(());
    }

    method RetryRun(id: Id, worker: string, availableAt: Time, now: Time) returns (r: Result<(), AgentError>)
      modifies this
      ensures Rows() == Apply(old(Rows()), OnRun(id, Retry(worker, availableAt, now)))
      ensures r == if Commanded(old(Rows()), id, Retry(worker, availableAt, now)).Some? then Ok(()) else Err(LeaseLost)
    {
      if id !in runs || runs[id].status != Running || runs[id].leaseOwner != Some(worker) {
        return Err(LeaseLost);
      }
      runs := runs[id := runs[id].(status := Queued, availableAt := availableAt, leaseOwner := None, leaseExpiresAt := None)];
      r := Ok(());
    }

    method CancelExpiredClarification(id: Id, message: Message, now: Time) returns (r: Result<bool, AgentError>)
      modifies this
      ensures Rows() == Apply(old(Rows()), OnRun(id, CancelExpired(message, now)))
      ensures r == Ok(true) <==> Commanded(old(Rows()), id, CancelExpired(message, now)).Some?
    {
      if message.run != id || message.kind != ExpiredNotice {
        return Err(InvalidRun);
      }
      if id !in runs || runs[id].status != WaitingUser || runs[id].clarificationExpiresAt == None
         || runs[id].clarificationExpiresAt.value > now {
        return Ok(false);
      }
      var before := runs;
      runs := runs[id := Closed(runs[id], Cancelled, now)];
      var ok := InsertOutbox(message);
      if !ok {
        runs := before;
        return Err(StoreConflict);
      }
      r := Ok(true);
    }

    /** Claims a due message that no concurrent claim has locked, in delivery order. */
    method ClaimOutbox(worker: string, now: Time, duration: Time, locked: set<string>)
      returns (r: Option<string>)
      modifies this
      ensures r.None? ==> Rows() == old(Rows())
      ensures r.None? <==> forall m :: m in old(outbox) && m !in locked ==> !Waiting(old(outbox)[m], now)
      ensures SoonestOf(old(outbox), now, locked, r)
      ensures r.Some? ==> Rows() == Apply(old(Rows()), AgentRuns.ClaimOutbox(r.value, worker, now, duration))
    {
      r := SoonestDeliverable(outbox, now, locked);
      SoonestOfMeans(outbox, now, locked, r);
      if r != None {
        var m := outbox[r.value];
        var lease := if duration <= 0 then DEFAULT_DELIVERY_LEASE else duration;
        outbox := outbox[r.value := m.(state := Delivering, leaseOwner := Some(worker),
                                       leaseExpiresAt := Some(now + lease), attempts := m.attempts + 1)];
      }
    }

    method MarkOutboxDelivered(id: string, worker: string, providerId: string, now: Time)
      returns (r: Result<(), AgentError>)
      modifies this
      ensures Rows() == Apply(old(Rows()), MarkDelivered(id, worker, providerId, now))
      ensures r == if Delivers(old(Rows()), id, worker) then Ok(()) else Err(DeliveryClaimed)
    {
      if id !in outbox || outbox[id].state != Delivering || outbox[id].leaseOwner != Some(worker) {
        return Err(DeliveryClaimed);
      }
      outbox := outbox[id := outbox[id].(state := Delivered, leaseOwner := None, leaseExpiresAt := None,
                                         providerId := Some(providerId))];
      var run := outbox[id].run;
      if outbox[id].kind == Clarification && run in runs && runs[run].status == WaitingUser
         && runs[run].messageRef == Some(PendingRef(id)) {
        runs := runs[run := runs[run].(messageRef := Some(providerId))];
      }
      r := Ok(());
    }

    method MarkOutboxFailed(id: string, worker: string, availableAt: Time, now: Time) returns (r: Result<(), AgentError>)
      modifies this
      ensures Rows() == Apply(old(Rows()), MarkFailed(id, worker, availableAt, now))
      ensures r == if Delivers(old(Rows()), id, worker) then Ok(()) else Err(DeliveryClaimed)
    {
      if id !in outbox || outbox[id].state != Delivering || outbox[id].leaseOwner != Some(worker) {
        return Err(DeliveryClaimed);
      }
      outbox := outbox[id := outbox[id].(state := DeliveryFailed, leaseOwner := None, leaseExpiresAt := None,
                                         availableAt := availableAt)];
      r := Ok(());
    }
  }
}
