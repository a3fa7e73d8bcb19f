/**
 Rolling session expiry: internal/identity/policy.go, the session half of
 internal/store/identity_store.go, and Service.Authenticate, which first reads
 the session and later, in a separate transaction, rolls it forward. Requests
 on one session overlap freely and their clocks need not agree.
 */
module Sessions {
  import opened Common

  const IDLE_LIFETIME: Time := 24 * HOUR
  const ABSOLUTE_LIFETIME: Time := 30 * 24 * HOUR
  const ROLLING_WRITE_INTERVAL: Time := 5 * MINUTE

  datatype Session = Session(
    lastSeenAt: Time, idleExpiresAt: Time, absoluteExpiresAt: Time, revokedAt: Option<Time>)

  datatype SessionError = SessionInvalid | UserInactive | SessionRevoked | SessionExpired

  // ---------------------------------------------------------------- policy

  function NewSession(now: Time): Session {
    Session(now, now + IDLE_LIFETIME, now + ABSOLUTE_LIFETIME, None)
  }

  function RollingIdleExpiry(now: Time, absoluteExpiresAt: Time): Time {
    Min(now + IDLE_LIFETIME, absoluteExpiresAt)
  }

  predicate InTime(s: Session, now: Time) {
    now < s.idleExpiresAt && now < s.absoluteExpiresAt
  }

  predicate SessionUsable(s: Session, now: Time) {
    s.revokedAt.None? && InTime(s, now)
  }

  predicate SessionRollDue(s: Session, now: Time) {
    SessionUsable(s, now) && now >= s.lastSeenAt + ROLLING_WRITE_INTERVAL
  }

  /** A touch rolls a session that is due and leaves any other as it is. */
  function Touched(s: Session, now: Time, idleExpiresAt: Time): Session {
    if SessionRollDue(s, now)
    then s.(lastSeenAt := now, idleExpiresAt := Min(idleExpiresAt, s.absoluteExpiresAt))
    else s
  }

  // ---------------------------------------------------------------- the store

  /** A session row: whose it is, the hash of its secret, and its times. */
  datatype Row = Row(user: Id, secretHash: string, session: Session)

  class SessionStore {
    var sessions: map<Id, Row>
    var activeUsers: set<Id>

    /** Refusals come in this order: unknown or wrong secret, inactive user, revoked, out of time. */
    method ResolveSession(id: Id, secretHash: string, now: Time) returns (r: Result<Session, SessionError>)
      ensures r.Ok? <==>
                && id in sessions && sessions[id].secretHash == secretHash && sessions[id].user in activeUsers
                && SessionUsable(sessions[id].session, now)
      ensures r.Ok? ==> r.value == sessions[id].session
      ensures r == Err(SessionInvalid) <==> id !in sessions || sessions[id].secretHash != secretHash
      ensures r == Err(UserInactive) <==>
                id in sessions && sessions[id].secretHash == secretHash && sessions[id].user !in activeUsers
      ensures r == Err(SessionRevoked) <==>
                && id in sessions && sessions[id].secretHash == secretHash && sessions[id].user in activeUsers
                && sessions[id].session.revokedAt.Some?
    {
      if id !in sessions {
        return Err(SessionInvalid);
      }
      var row := sessions[id];
      if secretHash != row.secretHash {
        return Err(SessionInvalid);
      }
      if row.user !in activeUsers {
        return Err(UserInactive);
      }
      if row.session.revokedAt != None {
        return Err(SessionRevoked);
      }
      if now >= row.session.idleExpiresAt || now >= row.session.absoluteExpiresAt {
        return Err(SessionExpired);
      }
      r := Ok(row.session);
    }

    method TouchSession(id: Id, now: Time, idleExpiresAt: Time) returns (r: Result<bool, SessionError>)
      modifies this`sessions
      ensures id !in old(sessions) ==> r == Err(SessionInvalid) && sessions == old(sessions)
      ensures id in old(sessions) ==>
                var row := old(sessions)[id];
                && sessions == old(sessions)[id := row.(session := Touched(row.session, now, idleExpiresAt))]
                && r == Ok(SessionRollDue(row.session, now))
    {
      if id !in sessions {
        return Err(SessionInvalid);
      }
      var row := sessions[id];
      if !SessionRollDue(row.session, now) {
        assert sessions == sessions[id := row];
        return Ok(false);
      }
      var expiry := idleExpiresAt;
      if expiry > row.session.absoluteExpiresAt {
        expiry := row.session.absoluteExpiresAt;
      }
      sessions := sessions[id := row.(session := row.session.(lastSeenAt := now, idleExpiresAt := expiry))];
      r := Ok(true);
    }
  }

  // ---------------------------------------------------------------- runs

  /**
   One session, the authentications that have read it and still owe it a touch
   (by request, with the instant each one took), and the latest instant at
   which an authentication completed.
   */
  datatype State = State(session: Session, owing: map<Id, Time>, lastAuthenticated: Time)

  datatype Step =
    | Resolve(request: Id, now: Time)
    | Touch(request: Id)
    | Abandon(request: Id)
    | Revoke(now: Time)

  function Start(now: Time): State {
    State(NewSession(now), map[], now)
  }

  function Latest(a: Time, b: Time): Time {
    if a <= b then b else a
  }

  function Next(s: State, step: Step): State {
    match step
    case Resolve(request, now) =>
      if !SessionUsable(s.session, now) then s
      else if SessionRollDue(s.session, now) then s.(owing := s.owing[request := now])
      else s.(lastAuthenticated := Latest(s.lastAuthenticated, now))
    case Touch(request) =>
      if request !in s.owing then s
      else
        var now := s.owing[request];
        var expiry := RollingIdleExpiry(now, s.session.absoluteExpiresAt);
        State(Touched(s.session, now, expiry), s.owing - {request}, Latest(s.lastAuthenticated, now))
    case Abandon(request) => s.(owing := s.owing - {request})
    case Revoke(now) =>
      if s.session.revokedAt.Some? then s
      else s.(session := s.session.(revokedAt := Some(now)))
  }

  function Run(s: State, steps: seq<Step>): State
    decreases |steps|
  {
    if steps == [] then s else Run(Next(s, steps[0]), steps[1..])
  }

  /** The stored row always tells when the session was last used, to within five minutes. */
  ghost predicate Inv(s: State) {
    && s.session.idleExpiresAt == RollingIdleExpiry(s.session.lastSeenAt, s.session.absoluteExpiresAt)
    && s.session.lastSeenAt <= s.lastAuthenticated
    && (s.session.revokedAt.None? ==> s.lastAuthenticated < s.session.lastSeenAt + ROLLING_WRITE_INTERVAL)
    && (forall r :: r in s.owing ==> InTime(s.session, s.owing[r]))
  }

  lemma StepKeepsInv(s: State, step: Step)
    requires Inv(s)
    ensures Inv(Next(s, step))
    ensures Next(s, step).session.lastSeenAt >= s.session.lastSeenAt
    ensures Next(s, step).session.absoluteExpiresAt == s.session.absoluteExpiresAt
  {
  }

  lemma {:induction false} RunKeepsInv(s: State, steps: seq<Step>)
    requires Inv(s)
    ensures Inv(Run(s, steps))
    ensures Run(s, steps).session.lastSeenAt >= s.session.lastSeenAt
    ensures Run(s, steps).session.absoluteExpiresAt == s.session.absoluteExpiresAt
    decreases |steps|
  {
    if steps != [] {
      StepKeepsInv(s, steps[0]);
      RunKeepsInv(Next(s, steps[0]), steps[1..]);
    }
  }

  /**
   In every interleaving, a session not revoked and last authenticated at t passes
   its time check before min(t + 24 h - 5 min, absolute expiry) and fails it from
   min(t + 24 h, absolute expiry) on, and its idle expiry never passes the absolute one.
   */
  lemma SessionWindow(created: Time, steps: seq<Step>, at: Time)
    ensures var s := Run(Start(created), steps);
            var t := s.lastAuthenticated;
            var end := created + 30 * 24 * HOUR;
            && s.session.idleExpiresAt <= s.session.absoluteExpiresAt == end
            && (s.session.revokedAt.None? ==>
                  && (at < Min(t + 24 * HOUR - 5 * MINUTE, end) ==> at < s.session.idleExpiresAt && SessionUsable(s.session, at))
                  && (at >= Min(t + 24 * HOUR, end) ==> at >= s.session.idleExpiresAt && !SessionUsable(s.session, at)))
  {
    RunKeepsInv(Start(created), steps);
  }

  /** A usable session is authenticated at once, or first owes a touch when five minutes have passed since the last. */
  lemma AuthenticationIsNoted(s: State, request: Id, now: Time)
    ensures var x := s.session;
            Next(s, Resolve(request, now)) ==
              if x.revokedAt.Some? || now >= x.idleExpiresAt || now >= x.absoluteExpiresAt then s
              else if now >= x.lastSeenAt + 300_000_000_000 then s.(owing := s.owing[request := now])
              else s.(lastAuthenticated := if now > s.lastAuthenticated then now else s.lastAuthenticated)
  {
  }

  /** The touch rolls the session forward by a day at most, unless a later one already has. */
  lemma TouchRollsForward(s: State, request: Id)
    requires request in s.owing
    ensures var x, now := s.session, s.owing[request];
            Next(s, Touch(request)) ==
              State(if x.revokedAt.Some? || now >= x.idleExpiresAt || now >= x.absoluteExpiresAt || now < x.lastSeenAt + 300_000_000_000
                    then x
                    else x.(lastSeenAt := now, idleExpiresAt := Min(now + 86_400_000_000_000, x.absoluteExpiresAt)),
                    s.owing - {request}, if now > s.lastAuthenticated then now else s.lastAuthenticated)
  {
  }

  /** A revoked session is usable never again, whatever still owes it a touch. */
  lemma {:induction false} RevocationIsFinal(s: State, now: Time, steps: seq<Step>, at: Time)
    ensures !SessionUsable(Run(Next(s, Revoke(now)), steps).session, at)
    decreases |steps|
  {
    RevokedStays(Next(s, Revoke(now)), steps);
  }

  lemma {:induction false} RevokedStays(s: State, steps: seq<Step>)
    requires s.session.revokedAt.Some?
    ensures Run(s, steps).session == s.session
    decreases |steps|
  {
    if steps != [] {
      RevokedStays(Next(s, steps[0]), steps[1..]);
    }
  }

  lemma {:induction false} RunAppend(s: State, first: seq<Step>, second: seq<Step>)
    ensures Run(s, first + second) == Run(Run(s, first), second)
    decreases |first|
  {
    if first == [] {
      assert first + second == second;
    } else {
      assert (first + second)[1..] == first[1..] + second;
      RunAppend(Next(s, first[0]), first[1..], second);
    }
  }

  /** Between any two moments of any run, last-seen has not moved back and expiry has not shortened. */
  lemma LastSeenNeverMovesBack(created: Time, first: seq<Step>, second: seq<Step>)
    ensures var before := Run(Start(created), first).session;
            var after := Run(Start(created), first + second).session;
            before.lastSeenAt <= after.lastSeenAt && before.idleExpiresAt <= after.idleExpiresAt
  {
    RunAppend(Start(created), first, second);
    RunKeepsInv(Start(created), first);
    RunKeepsInv(Run(Start(created), first), second);
  }
}
