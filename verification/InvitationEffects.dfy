/**
 What each invitation transaction writes, in the columns it writes, and what a
 rotation or a revocation leaves of the authorizations begun before it.
 */
module InvitationEffects {
  import opened Common
  import opened Invitations

  /** Nobody has accepted, revoked or outlived the invitation. */
  predicate Standing(db: Tables, id: Id, now: Time) {
    id in db.invitations && db.invitations[id].status.Pending? && now < db.invitations[id].expiresAt
  }

  /** After a withdrawal at `now` every unused authorization of the invitation is marked used, and no other changes. */
  ghost predicate Withdrawn(before: Tables, after: Tables, id: Id, now: Time) {
    && after.users == before.users && after.authorizations.Keys == before.authorizations.Keys
    && forall st :: st in before.authorizations ==>
         var a, b := before.authorizations[st], after.authorizations[st];
         && b.ticket == a.ticket && b.expiresAt == a.expiresAt
         && b.consumedAt == if a.consumedAt.None? && a.ticket.Some? && a.ticket.value.invitation == id
                            then Some(now) else a.consumedAt
  }

  /** A rotation installs the new token and the new expiry, keeps the target and uses up what was begun. */
  lemma RotationReplacesToken(db: Tables, id: Id, hash: Hash, expiresAt: Time, now: Time)
    ensures var next := AfterRotate(db, id, hash, expiresAt, now);
            if Standing(db, id, now) && (forall o :: o in db.invitations && o != id ==> db.invitations[o].tokenHash != hash)
            then
              && next.invitations ==
                 db.invitations[id := Invitation(db.invitations[id].target, hash, Pending, expiresAt,
                                                 db.invitations[id].acceptedBy)]
              && Withdrawn(db, next, id, now)
            else next == db
  {
  }

  lemma RevocationWithdraws(db: Tables, id: Id, now: Time)
    ensures var next := AfterRevoke(db, id, now);
            if Standing(db, id, now)
            then
              && next.invitations ==
                 db.invitations[id := Invitation(db.invitations[id].target, db.invitations[id].tokenHash, Revoked,
                                                 db.invitations[id].expiresAt, db.invitations[id].acceptedBy)]
              && Withdrawn(db, next, id, now)
            else next == db
  {
  }

  /**
   An authorization begun before a rotation or a revocation is never consumed
   after it, whatever happens later: every attempt leaves all as it was.
   */
  lemma BegunBeforeWithdrawalIsUseless(
    s: State, withdrawal: Step, state: Hash, after: seq<Step>, request: Id, later: Time)
    requires match withdrawal
             case Rotate(id, hash, _, now) =>
               && Standing(s.db, id, now)
               && forall o :: o in s.db.invitations && o != id ==> s.db.invitations[o].tokenHash != hash
             case Revoke(id, now) => Standing(s.db, id, now)
             case _ => false
    requires state in s.db.authorizations && s.db.authorizations[state].ticket.Some?
    requires s.db.authorizations[state].ticket.value.invitation == withdrawal.id
    ensures var end := Run(Next(s, withdrawal), after);
            && state in end.db.authorizations && end.db.authorizations[state].consumedAt.Some?
            && Next(end, Consume(request, state, later)) == end
  {
    if withdrawal.Rotate? {
      RotationReplacesToken(s.db, withdrawal.id, withdrawal.hash, withdrawal.expiresAt, withdrawal.now);
    } else {
      RevocationWithdraws(s.db, withdrawal.id, withdrawal.now);
    }
    ConsumedStaysConsumed(Next(s, withdrawal), after, state);
  }

  /** One pending invitation a target and one invitation a token, good for seven days. */
  lemma CreationOffers(db: Tables, id: Id, target: Principal, hash: Hash, now: Time)
    ensures AfterCreate(db, id, target, hash, now) ==
            if id in db.invitations
               || (exists o :: o in db.invitations && db.invitations[o].tokenHash == hash)
               || (exists o :: o in db.invitations && db.invitations[o].status.Pending? && db.invitations[o].target == target)
            then db
            else db.(invitations := db.invitations[id := Invitation(target, hash, Pending, now + 604_800_000_000_000, None)])
  {
  }

  lemma SweepExpires(db: Tables, now: Time, id: Id)
    requires id in db.invitations
    ensures var next := AfterExpire(db, now);
            && next.invitations.Keys == db.invitations.Keys
            && next.users == db.users && next.authorizations == db.authorizations
            && next.invitations[id] ==
               if db.invitations[id].status.Pending? && db.invitations[id].expiresAt <= now
               then db.invitations[id].(status := Expired) else db.invitations[id]
  {
  }

  /** A request saves the token it read, not the one there now, for ten minutes, once. */
  lemma SavingKeepsWhatWasRead(s: State, request: Id, state: Hash, now: Time)
    requires request in s.reading
    ensures var next := Next(s, Save(request, state, now));
            && next.reading == s.reading - {request} && next.completing == s.completing
            && next.db.invitations == s.db.invitations && next.db.users == s.db.users
            && next.db.authorizations ==
               if state in s.db.authorizations then s.db.authorizations
               else s.db.authorizations[state := Authorization(Some(s.reading[request]), now + 600_000_000_000, None)]
  {
  }

  /** Only an unused, unexpired state is consumed, and the completing request gets the ticket stored with it. */
  lemma ConsumingHandsOverTicket(s: State, request: Id, state: Hash, now: Time)
    ensures var next := Next(s, Consume(request, state, now));
            if state in s.db.authorizations && s.db.authorizations[state].consumedAt == None
               && now < s.db.authorizations[state].expiresAt
            then
              var a := s.db.authorizations[state];
              && next.db == s.db.(authorizations := s.db.authorizations[state := Authorization(a.ticket, a.expiresAt, Some(now))])
              && next.reading == s.reading
              && next.completing == if a.ticket.Some? then s.completing[request := a.ticket.value] else s.completing
            else next == s
  {
  }

  /** A ticket creates a user for the account it targets, while its token stands and account and email are free. */
  lemma AcceptanceCreates(db: Tables, t: Ticket, user: Id, key: Principal, email: Option<string>, now: Time)
    ensures AfterAccept(db, t, user, key, email, now) ==
            if Standing(db, t.invitation, now)
               && t.tokenHash != "" && db.invitations[t.invitation].tokenHash == t.tokenHash
               && db.invitations[t.invitation].target == key && user !in db.users
               && (forall u :: u in db.users ==> db.users[u].principal != Some(key))
               && (forall u :: u in db.users ==> email.None? || db.users[u].email != email)
            then
              Tables(db.invitations[t.invitation := Invitation(key, t.tokenHash, Accepted,
                                                               db.invitations[t.invitation].expiresAt, Some(user))],
                     db.authorizations, db.users[user := User(Some(key), email, Some(t))])
            else db
  {
  }

  lemma RegistrationAdds(db: Tables, user: Id, key: Option<Principal>, email: Option<string>)
    ensures AfterRegister(db, user, key, email) ==
            if user !in db.users
               && (forall u :: u in db.users ==> key.None? || db.users[u].principal != key)
               && (forall u :: u in db.users ==> email.None? || db.users[u].email != email)
            then db.(users := db.users[user := User(key, email, None)]) else db
  {
  }

  /** A ticket a request holds was read off its invitation while that stood. */
  lemma ReadingTakesToken(s: State, request: Id, id: Id, now: Time)
    ensures Next(s, Read(request, id, now)) ==
            if Standing(s.db, id, now)
            then s.(reading := s.reading[request := Ticket(id, s.db.invitations[id].tokenHash)]) else s
  {
  }

  // ---------------------------------------------------------------- where invited users come from

  /** Step `i` accepted the ticket of user `u` for its target, while the invitation stood with that token. */
  ghost predicate AcceptedAt(s: State, steps: seq<Step>, i: nat, u: Id, t: Ticket)
    requires i < |steps|
  {
    var at := Run(s, steps[..i]);
    && steps[i].Accept? && steps[i].user == u
    && steps[i].request in at.completing && at.completing[steps[i].request] == t
    && Standing(at.db, t.invitation, steps[i].now)
    && at.db.invitations[t.invitation].tokenHash == t.tokenHash
    && at.db.invitations[t.invitation].target == steps[i].key
  }

  lemma InvitedStep(s: State, step: Step, u: Id)
    requires u in Next(s, step).db.users && Next(s, step).db.users[u].ticket.Some? && u !in s.db.users
    ensures AcceptedAt(s, [step], 0, u, Next(s, step).db.users[u].ticket.value)
  {
    assert Run(s, [step][..0]) == s;
  }

  lemma UsersKeepTickets(s: State, step: Step, u: Id)
    requires u in s.db.users
    ensures u in Next(s, step).db.users && Next(s, step).db.users[u] == s.db.users[u]
  {
  }

  lemma {:induction false} UsersKeepTicketsRun(s: State, steps: seq<Step>, u: Id)
    requires u in s.db.users
    ensures u in Run(s, steps).db.users && Run(s, steps).db.users[u] == s.db.users[u]
    decreases |steps|
  {
    if steps != [] {
      UsersKeepTickets(s, steps[0], u);
      UsersKeepTicketsRun(Next(s, steps[0]), steps[1..], u);
    }
  }

  /** In every run an invited user was created by one acceptance, made with a token that still stood. */
  lemma {:induction false} InvitedUsersWereAccepted(s: State, steps: seq<Step>, u: Id)
    requires u !in s.db.users
    requires u in Run(s, steps).db.users && Run(s, steps).db.users[u].ticket.Some?
    ensures exists i: nat :: i < |steps| && AcceptedAt(s, steps, i, u, Run(s, steps).db.users[u].ticket.value)
    decreases |steps|
  {
    var next, rest := Next(s, steps[0]), steps[1..];
    var t := Run(s, steps).db.users[u].ticket.value;
    if u in next.db.users {
      UsersKeepTicketsRun(next, rest, u);
      InvitedStep(s, steps[0], u);
      assert steps[..0] == [steps[0]][..0];
      assert AcceptedAt(s, steps, 0, u, t);
    } else {
      InvitedUsersWereAccepted(next, rest, u);
      var i: nat :| i < |rest| && AcceptedAt(next, rest, i, u, t);
      assert steps[..i + 1][1..] == rest[..i];
      assert AcceptedAt(s, steps, i + 1, u, t);
    }
  }
}
