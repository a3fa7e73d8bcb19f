/**
 Invitation acceptance under races: the invitation and authorization
 transactions of internal/store/identity_store.go, driven by
 AcceptInvitationToken and CompleteAuthorization of
 internal/identity/service.go. Each of those two service calls spans two store
 transactions, and any other request may run in between.
 */
module Invitations {
  import opened Common

  const INVITATION_LIFETIME: Time := 7 * 24 * HOUR
  const AUTHORIZATION_LIFETIME: Time := 10 * MINUTE

  /** The hash of a secret; secrets are fresh, so hashes stand for them one to one. */
  type Hash = string

  /** A provider account: provider, tenant and subject together. */
  type Principal = string

  datatype Status = Pending | Accepted | Revoked | Expired

  datatype Invitation = Invitation(
    target: Principal, tokenHash: Hash, status: Status, expiresAt: Time, acceptedBy: Option<Id>)

  /** The invitation an authorization was begun for, and the token it was begun with. */
  datatype Ticket = Ticket(invitation: Id, tokenHash: Hash)

  /** A login authorization has no ticket. */
  datatype Authorization = Authorization(ticket: Option<Ticket>, expiresAt: Time, consumedAt: Option<Time>)

  /** Only a user created by accepting an invitation has a ticket; not every user has an account or an email. */
  datatype User = User(principal: Option<Principal>, email: Option<string>, ticket: Option<Ticket>)

  datatype Tables = Tables(
    invitations: map<Id, Invitation>, authorizations: map<Hash, Authorization>, users: map<Id, User>)

  datatype IdentityError = InvitationInvalid | InvitationConflict | AuthorizationInvalid | LoginDenied

  // ---------------------------------------------------------------- what each transaction does

  predicate Open(i: Invitation, now: Time) {
    i.status == Pending && now < i.expiresAt
  }

  predicate InvitationMatches(i: Invitation, key: Principal, now: Time) {
    Open(i, now) && i.target == key
  }

  /** The unique index on token_hash. */
  ghost predicate HashesUnique(db: Tables) {
    forall i, j :: i in db.invitations && j in db.invitations && i != j ==>
      db.invitations[i].tokenHash != db.invitations[j].tokenHash
  }

  predicate HashTaken(db: Tables, hash: Hash, except: Option<Id>) {
    exists id :: id in db.invitations && Some(id) != except && db.invitations[id].tokenHash == hash
  }

  predicate CanCreate(db: Tables, id: Id, target: Principal, hash: Hash) {
    && id !in db.invitations && !HashTaken(db, hash, None)
    && !(exists o :: o in db.invitations && db.invitations[o].status == Pending && db.invitations[o].target == target)
  }

  function AfterCreate(db: Tables, id: Id, target: Principal, hash: Hash, now: Time): Tables {
    if !CanCreate(db, id, target, hash) then db
    else db.(invitations := db.invitations[id := Invitation(target, hash, Pending, now + INVITATION_LIFETIME, None)])
  }

  /** Every authorization begun for an invitation and not yet used becomes useless. */
  function Invalidated(auths: map<Hash, Authorization>, id: Id, now: Time): map<Hash, Authorization> {
    map st | st in auths ::
      var a := auths[st];
      if a.ticket.Some? && a.ticket.value.invitation == id && a.consumedAt.None?
      then a.(consumedAt := Some(now)) else a
  }

  predicate CanRotate(db: Tables, id: Id, hash: Hash, now: Time) {
    id in db.invitations && Open(db.invitations[id], now) && !HashTaken(db, hash, Some(id))
  }

  function AfterRotate(db: Tables, id: Id, hash: Hash, expiresAt: Time, now: Time): Tables {
    if !CanRotate(db, id, hash, now) then db
    else
      db.(invitations := db.invitations[id := db.invitations[id].(tokenHash := hash, expiresAt := expiresAt)],
          authorizations := Invalidated(db.authorizations, id, now))
  }

  predicate CanRevoke(db: Tables, id: Id, now: Time) {
    id in db.invitations && Open(db.invitations[id], now)
  }

  function AfterRevoke(db: Tables, id: Id, now: Time): Tables {
    if !CanRevoke(db, id, now) then db
    else
      db.(invitations := db.invitations[id := db.invitations[id].(status := Revoked)],
          authorizations := Invalidated(db.authorizations, id, now))
  }

  function AfterExpire(db: Tables, now: Time): Tables {
    db.(invitations := map id | id in db.invitations ::
                         var i := db.invitations[id];
                         if i.status == Pending && i.expiresAt <= now then i.(status := Expired) else i)
  }

  function AfterSave(db: Tables, state: Hash, ticket: Option<Ticket>, now: Time): Tables {
    if state in db.authorizations then db
    else
      db.(authorizations := db.authorizations[state := Authorization(ticket, now + AUTHORIZATION_LIFETIME, None)])
  }

  predicate CanConsume(db: Tables, state: Hash, now: Time) {
    && state in db.authorizations
    && db.authorizations[state].consumedAt.None? && now < db.authorizations[state].expiresAt
  }

  function AfterConsume(db: Tables, state: Hash, now: Time): Tables {
    if !CanConsume(db, state, now) then db
    else db.(authorizations := db.authorizations[state := db.authorizations[state].(consumedAt := Some(now))])
  }

  /** Account and email are each unique among the users who have one. */
  predicate AccountTaken(db: Tables, key: Principal) {
    exists u :: u in db.users && db.users[u].principal == Some(key)
  }

  predicate EmailTaken(db: Tables, email: Option<string>) {
    email.Some? && exists u :: u in db.users && db.users[u].email == email
  }

  predicate CanAccept(db: Tables, ticket: Ticket, user: Id, key: Principal, email: Option<string>, now: Time) {
    && ticket.invitation in db.invitations
    && InvitationMatches(db.invitations[ticket.invitation], key, now)
    && ticket.tokenHash != "" && db.invitations[ticket.invitation].tokenHash == ticket.tokenHash
    && user !in db.users && !EmailTaken(db, email) && !AccountTaken(db, key)
  }

  function AfterAccept(db: Tables, ticket: Ticket, user: Id, key: Principal, email: Option<string>, now: Time): Tables {
    if !CanAccept(db, ticket, user, key, email, now) then db
    else
      var i := db.invitations[ticket.invitation];
      db.(users := db.users[user := User(Some(key), email, Some(ticket))],
          invitations := db.invitations[ticket.invitation := i.(status := Accepted, acceptedBy := Some(user))])
  }

  /** Users also come from elsewhere: asking for access, the first administrator, seeded rows. */
  function AfterRegister(db: Tables, user: Id, key: Option<Principal>, email: Option<string>): Tables {
    if user in db.users || EmailTaken(db, email) || (key.Some? && AccountTaken(db, key.value)) then db
    else db.(users := db.users[user := User(key, email, None)])
  }

  // ---------------------------------------------------------------- the store

  class IdentityStore {
    var invitations: map<Id, Invitation>
    var authorizations: map<Hash, Authorization>
    var users: map<Id, User>

    function Rows(): Tables
      reads this
    {
      Tables(invitations, authorizations, users)
    }

    method CreateInvitation(id: Id, target: Principal, hash: Hash, now: Time) returns (r: Result<(), IdentityError>)
      modifies this
      ensures Rows() == AfterCreate(old(Rows()), id, target, hash, now)
      ensures r == if CanCreate(old(Rows()), id, target, hash) then Ok(()) else Err(InvitationConflict)
    {
      var rows := invitations;
      if id in rows {
        return Err(InvitationConflict);
      }
      if exists o :: o in rows && rows[o].tokenHash == hash {
        return Err(InvitationConflict);
      }
      if exists o :: o in rows && rows[o].status == Pending && rows[o].target == target {
        return Err(InvitationConflict);
      }
      invitations := rows[id := Invitation(target, hash, Pending, now + INVITATION_LIFETIME, None)];
      r := Ok(());
    }

    method GetInvitationByTokenHash(hash: Hash, now: Time) returns (r: Result<Ticket, IdentityError>)
      requires HashesUnique(Rows())
      ensures r.Ok? ==>
                && r.value.tokenHash == hash && r.value.invitation in invitations
                && invitations[r.value.invitation].tokenHash == hash
                && Open(invitations[r.value.invitation], now)
      ensures r.Err? ==>
                forall id :: id in invitations && invitations[id].tokenHash == hash ==> !Open(invitations[id], now)
    {
      var rows := invitations;
      if exists id :: id in rows && rows[id].tokenHash == hash {
        var id :| id in rows && rows[id].tokenHash == hash;
        if rows[id].status != Pending || now >= rows[id].expiresAt {
          return Err(InvitationInvalid);
        }
        return Ok(Ticket(id, hash));
      }
      r := Err(InvitationInvalid);
    }

    method RotateInvitation(id: Id, hash: Hash, expiresAt: Time, now: Time) returns (r: Result<(), IdentityError>)
      modifies this
      ensures Rows() == AfterRotate(old(Rows()), id, hash, expiresAt, now)
      ensures r == if CanRotate(old(Rows()), id, hash, now) then Ok(()) else Err(InvitationInvalid)
    {
      var rows := invitations;
      if id !in rows || rows[id].status != Pending || now >= rows[id].expiresAt {
        return Err(InvitationInvalid);
      }
      if exists o :: o in rows && o != id && rows[o].tokenHash == hash {
        return Err(InvitationInvalid);
      }
      invitations := rows[id := rows[id].(tokenHash := hash, expiresAt := expiresAt)];
      InvalidateInvitationAuthorizations(id, now);
      r := Ok(());
    }

    method RevokeInvitation(id: Id, now: Time) returns (r: Result<(), IdentityError>)
      modifies this
      ensures Rows() == AfterRevoke(old(Rows()), id, now)
      ensures r == if CanRevoke(old(Rows()), id, now) then Ok(()) else Err(InvitationInvalid)
    {
      if id !in invitations || invitations[id].status != Pending || now >= invitations[id].expiresAt {
        return Err(InvitationInvalid);
      }
      invitations := invitations[id := invitations[id].(status := Revoked)];
      InvalidateInvitationAuthorizations(id, now);
      r := Ok(());
    }

    method InvalidateInvitationAuthorizations(id: Id, now: Time)
      modifies this`authorizations
      ensures authorizations == Invalidated(old(authorizations), id, now)
    {
      var pending := authorizations.Keys;
      while pending != {}
        invariant pending <= authorizations.Keys == old(authorizations).Keys
        invariant forall st :: st in authorizations ==>
                    authorizations[st] ==
                    if st in pending then old(authorizations)[st] else Invalidated(old(authorizations), id, now)[st]
        decreases |pending|
      {
        var st :| st in pending;
        pending := pending - {st};
        var a := authorizations[st];
        if a.ticket != None && a.ticket.value.invitation == id && a.consumedAt == None {
          authorizations := authorizations[st := a.(consumedAt := Some(now))];
        }
      }
    }

    method ExpireInvitations(now: Time)
      modifies this
      ensures Rows() == AfterExpire(old(Rows()), now)
    {
      var due := set id | id in invitations && invitations[id].status == Pending && invitations[id].expiresAt <= now;
      invitations := map id | id in invitations ::
        if id in due then invitations[id].(status := Expired) else invitations[id];
    }

    method CreateAuthorizationTransaction(state: Hash, ticket: Option<Ticket>, now: Time)
      returns (r: Result<(), IdentityError>)
      modifies this
      ensures Rows() == AfterSave(old(Rows()), state, ticket, now)
      ensures r == if state in old(authorizations) then Err(AuthorizationInvalid) else Ok(())
    {
      if state in authorizations {
        return Err(AuthorizationInvalid);
      }
      authorizations := authorizations[state := Authorization(ticket, now + AUTHORIZATION_LIFETIME, None)];
      r := Ok(());
    }

    method ConsumeAuthorizationState(state: Hash, now: Time) returns (r: Result<Option<Ticket>, IdentityError>)
      modifies this
      ensures Rows() == AfterConsume(old(Rows()), state, now)
      ensures r == if CanConsume(old(Rows()), state, now)
                   then Ok(old(authorizations)[state].ticket) else Err(AuthorizationInvalid)
    {
      if state !in authorizations {
        return Err(AuthorizationInvalid);
      }
      var a := authorizations[state];
      if a.consumedAt != None || now >= a.expiresAt {
        return Err(AuthorizationInvalid);
      }
      authorizations := authorizations[state := a.(consumedAt := Some(now))];
      r := Ok(a.ticket);
    }

    method AcceptInvitation(ticket: Ticket, user: Id, key: Principal, email: Option<string>, now: Time)
      returns (r: Result<(), IdentityError>)
      modifies this
      ensures Rows() == AfterAccept(old(Rows()), ticket, user, key, email, now)
      ensures r == if CanAccept(old(Rows()), ticket, user, key, email, now) then Ok(()) else Err(InvitationInvalid)
    {
      var id := ticket.invitation;
      if id !in invitations || !InvitationMatches(invitations[id], key, now)
         || |ticket.tokenHash| == 0 || invitations[id].tokenHash != ticket.tokenHash {
        return Err(InvitationInvalid);
      }
      var people := users;
      if user in people {
        return Err(InvitationInvalid);
      }
      if email != None && exists u :: u in people && people[u].email == email {
        return Err(InvitationInvalid);
      }
      if exists u :: u in people && people[u].principal == Some(key) {
        return Err(InvitationInvalid);
      }
      users := people[user := User(Some(key), email, Some(ticket))];
      invitations := invitations[id := invitations[id].(status := Accepted, acceptedBy := Some(user))];
      r := Ok(());
    }

    method RegisterAccessRequest(user: Id, key: Principal, email: Option<string>) returns (r: Result<(), IdentityError>)
      modifies this`users
      ensures Rows() == AfterRegister(old(Rows()), user, Some(key), email)
      ensures r == if Rows() == old(Rows()) then Err(LoginDenied) else Ok(())
    {
      var people := users;
      if user in people {
        return Err(LoginDenied);
      }
      if email != None && exists u :: u in people && people[u].email == email {
        return Err(LoginDenied);
      }
      if exists u :: u in people && people[u].principal == Some(key) {
        return Err(LoginDenied);
      }
      users := people[user := User(Some(key), email, None)];
      r := Ok(());
    }
  }

  // ---------------------------------------------------------------- runs

  /**
   The tables, the requests that have read an invitation and not yet saved an
   authorization, and those that have consumed a state and not yet accepted.
   */
  datatype State = State(db: Tables, reading: map<Id, Ticket>, completing: map<Id, Ticket>)

  datatype Step =
    | Create(id: Id, target: Principal, hash: Hash, now: Time)
    | Rotate(id: Id, hash: Hash, expiresAt: Time, now: Time)
    | Revoke(id: Id, now: Time)
    | Expire(now: Time)
    | Read(request: Id, id: Id, now: Time)
    | Save(request: Id, state: Hash, now: Time)
    | Consume(request: Id, state: Hash, now: Time)
    | Accept(request: Id, user: Id, key: Principal, email: Option<string>, now: Time)
    | Register(user: Id, account: Option<Principal>, email: Option<string>, now: Time)
    | Abandon(request: Id)

  const EMPTY := State(Tables(map[], map[], map[]), map[], map[])

  function Next(s: State, step: Step): State {
    match step
    case Create(id, target, hash, now) => s.(db := AfterCreate(s.db, id, target, hash, now))
    case Rotate(id, hash, expiresAt, now) => s.(db := AfterRotate(s.db, id, hash, expiresAt, now))
    case Revoke(id, now) => s.(db := AfterRevoke(s.db, id, now))
    case Expire(now) => s.(db := AfterExpire(s.db, now))
    case Read(request, id, now) =>
      if id in s.db.invitations && Open(s.db.invitations[id], now)
      then s.(reading := s.reading[request := Ticket(id, s.db.invitations[id].tokenHash)])
      else s
    case Save(request, state, now) =>
      if request !in s.reading then s
      else
        State(AfterSave(s.db, state, Some(s.reading[request]), now), s.reading - {request}, s.completing)
    case Consume(request, state, now) =>
      if !CanConsume(s.db, state, now) then s
      else
        var ticket := s.db.authorizations[state].ticket;
        State(AfterConsume(s.db, state, now), s.reading,
              if ticket.Some? then s.completing[request := ticket.value] else s.completing)
    case Accept(request, user, key, email, now) =>
      if request !in s.completing then s
      else
        State(AfterAccept(s.db, s.completing[request], user, key, email, now), s.reading, s.completing - {request})
    case Register(user, account, email, now) => s.(db := AfterRegister(s.db, user, account, email))
    case Abandon(request) => s.(reading := s.reading - {request}, completing := s.completing - {request})
  }

  function Run(s: State, steps: seq<Step>): State
    decreases |steps|
  {
    if steps == [] then s else Run(Next(s, steps[0]), steps[1..])
  }

  /** An invited user holds the ticket that its own, accepted invitation still shows. */
  ghost predicate TicketsStand(db: Tables) {
    forall u :: u in db.users && db.users[u].ticket.Some? ==>
      var t := db.users[u].ticket.value;
      && t.invitation in db.invitations
      && var i := db.invitations[t.invitation];
         && i.status == Accepted && i.acceptedBy == Some(u) && i.tokenHash == t.tokenHash
         && db.users[u].principal == Some(i.target)
  }

  ghost predicate Inv(s: State) {
    HashesUnique(s.db) && TicketsStand(s.db)
  }

  lemma HashesStayUnique(s: State, step: Step)
    requires HashesUnique(s.db)
    ensures HashesUnique(Next(s, step).db)
  {
  }

  lemma TicketsStillStand(s: State, step: Step)
    requires TicketsStand(s.db)
    ensures TicketsStand(Next(s, step).db)
  {
  }

  lemma StepKeepsInv(s: State, step: Step)
    requires Inv(s)
    ensures Inv(Next(s, step))
  {
    HashesStayUnique(s, step);
    TicketsStillStand(s, step);
  }

  lemma {:induction false} RunKeepsInv(s: State, steps: seq<Step>)
    requires Inv(s)
    ensures Inv(Run(s, steps))
    decreases |steps|
  {
    if steps != [] {
      StepKeepsInv(s, steps[0]);
      RunKeepsInv(Next(s, steps[0]), steps[1..]);
    }
  }

  predicate CreatedBy(db: Tables, u: Id, invitation: Id) {
    u in db.users && db.users[u].ticket.Some? && db.users[u].ticket.value.invitation == invitation
  }

  /** In every run an invitation has created at most one user, and that user is its target. */
  lemma InvitationAcceptedAtMostOnce(steps: seq<Step>, invitation: Id, u: Id, v: Id)
    requires var db := Run(EMPTY, steps).db; CreatedBy(db, u, invitation) && CreatedBy(db, v, invitation)
    ensures u == v
    ensures var db := Run(EMPTY, steps).db;
            invitation in db.invitations && db.users[u].principal == Some(db.invitations[invitation].target)
  {
    RunKeepsInv(EMPTY, steps);
  }

  /** The ticket's token no longer opens its invitation. */
  ghost predicate Dead(s: State, t: Ticket) {
    && t.invitation in s.db.invitations
    && (s.db.invitations[t.invitation].status != Pending || s.db.invitations[t.invitation].tokenHash != t.tokenHash)
  }

  /** Does the step put the ticket's token back on its invitation? */
  predicate Reinstalls(step: Step, t: Ticket) {
    step.Rotate? && step.id == t.invitation && step.hash == t.tokenHash
  }

  lemma DeadTicketStep(s: State, step: Step, t: Ticket)
    requires Dead(s, t) && !Reinstalls(step, t)
    ensures Dead(Next(s, step), t)
    ensures forall u :: u in Next(s, step).db.users && Next(s, step).db.users[u].ticket == Some(t) ==>
              u in s.db.users && s.db.users[u].ticket == Some(t)
  {
  }

  lemma {:induction false} DeadTicketRun(s: State, steps: seq<Step>, t: Ticket)
    requires Dead(s, t) && forall i :: 0 <= i < |steps| ==> !Reinstalls(steps[i], t)
    ensures Dead(Run(s, steps), t)
    ensures forall u :: u in Run(s, steps).db.users && Run(s, steps).db.users[u].ticket == Some(t) ==>
              u in s.db.users && s.db.users[u].ticket == Some(t)
    decreases |steps|
  {
    if steps != [] {
      DeadTicketStep(s, steps[0], t);
      DeadTicketRun(Next(s, steps[0]), steps[1..], t);
    }
  }

  /** A step that rotates a pending invitation's token away, revokes it or expires it. */
  predicate Withdraws(s: State, step: Step, t: Ticket) {
    && t.invitation in s.db.invitations
    && s.db.invitations[t.invitation].status == Pending && s.db.invitations[t.invitation].tokenHash == t.tokenHash
    && match step
       case Rotate(id, hash, _, now) => id == t.invitation && hash != t.tokenHash && CanRotate(s.db, id, hash, now)
       case Revoke(id, now) => id == t.invitation && CanRevoke(s.db, id, now)
       case Expire(now) => s.db.invitations[t.invitation].expiresAt <= now
       case _ => false
  }

  /**
   No authorization begun with a token that is later rotated, revoked or expired
   creates a user: not one read but unsaved, not one saved, not one consumed but
   unaccepted when the token was withdrawn. Tokens are fresh, so none comes back.
   */
  lemma WithdrawnTokenCreatesNoUser(before: seq<Step>, withdrawal: Step, after: seq<Step>, t: Ticket)
    requires Withdraws(Run(EMPTY, before), withdrawal, t)
    requires forall i :: 0 <= i < |after| ==> !Reinstalls(after[i], t)
    ensures var s := Run(Next(Run(EMPTY, before), withdrawal), after);
            forall u :: u in s.db.users ==> s.db.users[u].ticket != Some(t)
  {
    var s := Run(EMPTY, before);
    RunKeepsInv(EMPTY, before);
    StepKeepsInv(s, withdrawal);
    assert Dead(Next(s, withdrawal), t);
    DeadTicketRun(Next(s, withdrawal), after, t);
  }

  /** The ticket's token is the one on its invitation, which nobody has accepted. */
  ghost predicate OnOffer(s: State, t: Ticket) {
    && t.invitation in s.db.invitations
    && var i := s.db.invitations[t.invitation];
       i.tokenHash == t.tokenHash && i.status != Accepted
  }

  /** The instant of a step, if it has one. */
  function TimeOf(step: Step): Option<Time> {
    if step.Abandon? then None else Some(step.now)
  }

  lemma LapsedStep(s: State, step: Step, t: Ticket, deadline: Time)
    requires OnOffer(s, t) && s.db.invitations[t.invitation].expiresAt <= deadline
    requires TimeOf(step).Some? ==> deadline <= TimeOf(step).value
    ensures OnOffer(Next(s, step), t)
    ensures Next(s, step).db.invitations[t.invitation].expiresAt == s.db.invitations[t.invitation].expiresAt
    ensures forall u :: u in Next(s, step).db.users && Next(s, step).db.users[u].ticket == Some(t) ==>
              u in s.db.users && s.db.users[u].ticket == Some(t)
  {
  }

  lemma {:induction false} LapsedRun(s: State, steps: seq<Step>, t: Ticket, deadline: Time)
    requires OnOffer(s, t) && s.db.invitations[t.invitation].expiresAt <= deadline
    requires forall i :: 0 <= i < |steps| && TimeOf(steps[i]).Some? ==> deadline <= TimeOf(steps[i]).value
    ensures forall u :: u in Run(s, steps).db.users && Run(s, steps).db.users[u].ticket == Some(t) ==>
              u in s.db.users && s.db.users[u].ticket == Some(t)
    decreases |steps|
  {
    if steps != [] {
      LapsedStep(s, steps[0], t, deadline);
      LapsedRun(Next(s, steps[0]), steps[1..], t, deadline);
    }
  }

  /**
   Time alone withdraws a token: once the clock has passed the invitation's expiry no
   ticket of its token creates a user, though the sweep that marks it expired never
   runs, and no rotation brings it back.
   */
  lemma ExpiredTokenCreatesNoUser(before: seq<Step>, after: seq<Step>, t: Ticket)
    requires var s := Run(EMPTY, before);
             && t.invitation in s.db.invitations
             && s.db.invitations[t.invitation].tokenHash == t.tokenHash
             && s.db.invitations[t.invitation].status != Accepted
             && forall i :: 0 <= i < |after| && TimeOf(after[i]).Some? ==>
                  s.db.invitations[t.invitation].expiresAt <= TimeOf(after[i]).value
    ensures var end := Run(Run(EMPTY, before), after).db;
            forall u :: u in end.users ==> end.users[u].ticket != Some(t)
  {
    var s := Run(EMPTY, before);
    RunKeepsInv(EMPTY, before);
    LapsedRun(s, after, t, s.db.invitations[t.invitation].expiresAt);
  }

  /** A request is about to save a ticket whose token opens its invitation and whose target has no user. */
  ghost predicate Live(s: State, request: Id, now: Time) {
    && request in s.reading
    && var t := s.reading[request];
       && t.tokenHash != "" && t.invitation in s.db.invitations
       && var i := s.db.invitations[t.invitation];
          Open(i, now) && i.tokenHash == t.tokenHash && !AccountTaken(s.db, i.target)
  }

  /**
   The converse, exactly: a ticket that is saved and goes on to be consumed and
   accepted creates its user if and only if it is still live and nobody else has
   the email of the profile.
   */
  lemma LiveTicketCreatesUser(
    s: State, request: Id, completer: Id, state: Hash, user: Id, email: Option<string>, now: Time)
    requires request in s.reading && s.reading[request].invitation in s.db.invitations
    requires state !in s.db.authorizations && user !in s.db.users
    ensures var t := s.reading[request];
            var consumed := Next(Next(s, Save(request, state, now)), Consume(completer, state, now));
            var accepted := Next(consumed, Accept(completer, user, s.db.invitations[t.invitation].target, email, now));
            && (user in accepted.db.users <==> Live(s, request, now) && !EmailTaken(s.db, email))
            && (user in accepted.db.users ==> accepted.db.users[user].ticket == Some(t))
  {
    var t := s.reading[request];
    var consumed := Next(Next(s, Save(request, state, now)), Consume(completer, state, now));
    assert consumed.completing[completer] == t;
    assert consumed.db.invitations == s.db.invitations && consumed.db.users == s.db.users;
  }

  /** Freshness is what it rests on: a token rotated away and then back is live again. */
  lemma TokenRotatedBackIsLive(s: State, request: Id, other: Hash, expiresAt: Time, now: Time)
    requires Inv(s) && Live(s, request, now) && now < expiresAt
    requires other != s.reading[request].tokenHash && !HashTaken(s.db, other, None)
    ensures var t := s.reading[request];
            var away := Rotate(t.invitation, other, expiresAt, now);
            var back := Rotate(t.invitation, t.tokenHash, expiresAt, now);
            Withdraws(s, away, t) && Reinstalls(back, t) && Live(Next(Next(s, away), back), request, now)
  {
    var t := s.reading[request];
    var away := Next(s, Rotate(t.invitation, other, expiresAt, now));
    assert away.db.invitations == s.db.invitations[t.invitation := away.db.invitations[t.invitation]];
    assert !HashTaken(away.db, t.tokenHash, Some(t.invitation));
  }

  lemma {:induction false} ConsumedStaysConsumed(s: State, steps: seq<Step>, state: Hash)
    requires state in s.db.authorizations && s.db.authorizations[state].consumedAt.Some?
    ensures var db := Run(s, steps).db;
            state in db.authorizations && db.authorizations[state].consumedAt.Some?
    decreases |steps|
  {
    if steps != [] {
      ConsumedStaysConsumed(Next(s, steps[0]), steps[1..], state);
    }
  }

  /** Once a state has been consumed, no later attempt in any run consumes it again. */
  lemma StateConsumedAtMostOnce(s: State, request: Id, state: Hash, now: Time, steps: seq<Step>, later: Time)
    requires CanConsume(s.db, state, now)
    ensures !CanConsume(Run(Next(s, Consume(request, state, now)), steps).db, state, later)
  {
    ConsumedStaysConsumed(Next(s, Consume(request, state, now)), steps, state);
  }
}
