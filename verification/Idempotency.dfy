/**
 Idempotent bearer mutations: the records of internal/store/idempotency_store.go
 and the middleware of internal/api/idempotency.go. A request claims its key,
 runs its handler, and later completes or releases the record, which also
 expires; any other request may act in between, and any request may crash.
 */
module Idempotency {
  import opened Common

  const RETENTION: Time := 24 * HOUR
  const OK_STATUS := 200

  datatype CredentialKind = ApiToken | AgentDelegate

  /** The primary key of a record. */
  datatype Key = Key(
    user: Id, credentialKind: CredentialKind, credential: Id, httpMethod: string, route: string, value: string)

  type Header = map<string, seq<string>>

  datatype Response = Response(status: int, headers: Header, body: string)

  /** SHA-256 is taken as injective: a fingerprint is its own pre-image. */
  type Fingerprint = string

  datatype RecordState = Processing | Completed(response: Response)

  datatype Record = Record(hash: Fingerprint, state: RecordState, expiresAt: Time)

  type Records = map<Key, Record>

  datatype ClaimKind = Acquired | Replay(response: Response) | InProgress | Reused

  // ---------------------------------------------------------------- the store

  predicate LiveAt(records: Records, key: Key, now: Time) {
    key in records && records[key].expiresAt > now
  }

  function ClaimOutcome(records: Records, key: Key, hash: Fingerprint, now: Time): ClaimKind {
    if !LiveAt(records, key, now) then Acquired
    else if records[key].hash != hash then Reused
    else
      match records[key].state
      case Processing => InProgress
      case Completed(response) => Replay(response)
  }

  function AfterClaim(records: Records, key: Key, hash: Fingerprint, now: Time, expiresAt: Time): Records {
    if LiveAt(records, key, now) then records else records[key := Record(hash, Processing, expiresAt)]
  }

  predicate Claimed(records: Records, key: Key) {
    key in records && records[key].state == Processing
  }

  function AfterComplete(records: Records, key: Key, response: Response): Records {
    if Claimed(records, key) then records[key := records[key].(state := Completed(response))] else records
  }

  function AfterRelease(records: Records, key: Key): Records {
    if Claimed(records, key) then records - {key} else records
  }

  function AfterCleanup(records: Records, before: Time): Records {
    map k | k in records && records[k].expiresAt >= before :: records[k]
  }

  class IdempotencyStore {
    var records: Records

    constructor ()
      ensures records == map[]
    {
      records := map[];
    }

    method Claim(key: Key, hash: Fingerprint, now: Time, expiresAt: Time) returns (kind: ClaimKind)
      modifies this
      ensures kind == ClaimOutcome(old(records), key, hash, now)
      ensures records == AfterClaim(old(records), key, hash, now, expiresAt)
    {
      if key in records && records[key].expiresAt <= now {
        records := records - {key};
      }
      if key !in records {
        records := records[key := Record(hash, Processing, expiresAt)];
        return Acquired;
      }
      if records[key].hash != hash {
        return Reused;
      }
      match records[key].state {
        case Processing => kind := InProgress;
        case Completed(response) => kind := Replay(response);
      }
    }

    method Complete(key: Key, response: Response) returns (ok: bool)
      modifies this
      ensures ok == Claimed(old(records), key)
      ensures records == AfterComplete(old(records), key, response)
    {
      ok := key in records && records[key].state == Processing;
      if ok {
        records := records[key := records[key].(state := Completed(response))];
      }
    }

    method Release(key: Key)
      modifies this
      ensures records == AfterRelease(old(records), key)
    {
      if key in records && records[key].state == Processing {
        records := records - {key};
      }
    }

    method DeleteIdempotencyBefore(before: Time)
      modifies this
      ensures records == AfterCleanup(old(records), before)
    {
      records := map k | k in records && records[k].expiresAt >= before :: records[k];
    }
  }

  // ---------------------------------------------------------------- requests

  datatype Phase =
    | Executing                     // holds the key, handler running
    | Executed(response: Response)  // completed and stored
    | Unstored                      // 5xx, panic, or a completion that found no claim
    | Replayed(response: Response)
    | Refused                       // in progress or reused

  datatype Request = Request(key: Key, hash: Fingerprint, acquiredAt: Time, phase: Phase)

  datatype State = State(records: Records, requests: map<Id, Request>, clock: Time)

  datatype Step =
    | Arrive(request: Id, key: Key, hash: Fingerprint, now: Time)
    | Finish(request: Id, response: Response, now: Time)
    | Panic(request: Id, now: Time)
    | Crash(request: Id)
    | Cleanup(now: Time)

  function Start(now: Time): State {
    State(map[], map[], now)
  }

  function PhaseOf(kind: ClaimKind): Phase {
    match kind
    case Acquired => Executing
    case Replay(response) => Replayed(response)
    case InProgress => Refused
    case Reused => Refused
  }

  predicate Runs(s: State, request: Id) {
    request in s.requests && s.requests[request].phase == Executing
  }

  function Ends(s: State, request: Id, phase: Phase, records: Records, now: Time): State
    requires request in s.requests
  {
    State(records, s.requests[request := s.requests[request].(phase := phase)], now)
  }

  function Next(s: State, step: Step): State {
    match step
    case Arrive(request, key, hash, now) =>
      if request in s.requests then s.(clock := now)
      else
        State(AfterClaim(s.records, key, hash, now, now + RETENTION),
              s.requests[request := Request(key, hash, now, PhaseOf(ClaimOutcome(s.records, key, hash, now)))], now)
    case Finish(request, response, now) =>
      if !Runs(s, request) then s.(clock := now)
      else
        var key := s.requests[request].key;
        if response.status >= 500 then Ends(s, request, Unstored, AfterRelease(s.records, key), now)
        else if Claimed(s.records, key)
        then Ends(s, request, Executed(response), AfterComplete(s.records, key, response), now)
        else Ends(s, request, Unstored, s.records, now)
    case Panic(request, now) =>
      if !Runs(s, request) then s.(clock := now)
      else Ends(s, request, Unstored, AfterRelease(s.records, s.requests[request].key), now)
    case Crash(request) =>
      if !Runs(s, request) then s else s.(requests := s.requests - {request})
    case Cleanup(now) => State(AfterCleanup(s.records, now), s.requests, now)
  }

  /** The clock does not run back, and a handler that finishes does so before its record expires. */
  predicate Timely(s: State, step: Step) {
    && (step.Crash? || s.clock <= step.now)
    && ((step.Finish? || step.Panic?) && Runs(s, step.request) ==>
          step.now < s.requests[step.request].acquiredAt + RETENTION)
  }

  predicate AllTimely(s: State, steps: seq<Step>)
    decreases |steps|
  {
    steps == [] || (Timely(s, steps[0]) && AllTimely(Next(s, steps[0]), steps[1..]))
  }

  function Run(s: State, steps: seq<Step>): State
    decreases |steps|
  {
    if steps == [] then s else Run(Next(s, steps[0]), steps[1..])
  }

  /** Requests that acquired their key and have neither released it nor crashed. */
  predicate Holder(r: Request) {
    r.phase.Executing? || r.phase.Executed?
  }

  function ExpiryOf(r: Request): Time {
    r.acquiredAt + RETENTION
  }

  predicate Disjoint(a: Request, b: Request) {
    ExpiryOf(a) <= b.acquiredAt || ExpiryOf(b) <= a.acquiredAt
  }

  predicate Apart(a: Request, b: Request) {
    a.key == b.key && Holder(a) && Holder(b) ==> Disjoint(a, b)
  }

  ghost predicate OneHolder(s: State) {
    forall a, b :: a in s.requests && b in s.requests && a != b ==> Apart(s.requests[a], s.requests[b])
  }

  /** The claim of a request, as the record under its key shows it. */
  predicate Shows(records: Records, r: Request) {
    r.key in records &&
    records[r.key] ==
    Record(r.hash, if r.phase.Executed? then Completed(r.phase.response) else Processing, ExpiryOf(r))
  }

  ghost predicate HoldersOwn(s: State) {
    forall a :: a in s.requests && Holder(s.requests[a]) && s.clock < ExpiryOf(s.requests[a]) ==>
      Shows(s.records, s.requests[a])
  }

  ghost predicate ExecutedAs(s: State, key: Key, hash: Fingerprint, response: Response) {
    exists p :: p in s.requests && s.requests[p].key == key && s.requests[p].hash == hash &&
                s.requests[p].phase == Executed(response)
  }

  /** Stored and replayed answers come from a request that executed with that key and fingerprint. */
  ghost predicate AnswersGenuine(s: State) {
    && (forall k :: k in s.records && s.records[k].state.Completed? ==>
          ExecutedAs(s, k, s.records[k].hash, s.records[k].state.response))
    && (forall q :: q in s.requests && s.requests[q].phase.Replayed? ==>
          ExecutedAs(s, s.requests[q].key, s.requests[q].hash, s.requests[q].phase.response))
  }

  ghost predicate Started(s: State) {
    forall a :: a in s.requests ==> s.requests[a].acquiredAt <= s.clock
  }

  ghost predicate Inv(s: State) {
    OneHolder(s) && HoldersOwn(s) && AnswersGenuine(s) && Started(s)
  }

  /** Whoever acquires a key does so after the expiry of everyone who held it before. */
  lemma AcquiredAfterExpiry(s: State, key: Key, hash: Fingerprint, now: Time, a: Id)
    requires HoldersOwn(s) && s.clock <= now
    requires a in s.requests && s.requests[a].key == key && Holder(s.requests[a])
    requires ClaimOutcome(s.records, key, hash, now) == Acquired
    ensures ExpiryOf(s.requests[a]) <= now
  {
  }

  lemma OneHolderStep(s: State, step: Step)
    requires Inv(s) && Timely(s, step)
    ensures OneHolder(Next(s, step)) && Started(Next(s, step))
  {
    var t := Next(s, step);
    forall a, b | a in t.requests && b in t.requests && a != b
      ensures Apart(t.requests[a], t.requests[b])
    {
      if a in s.requests && b in s.requests {
        assert Apart(s.requests[a], s.requests[b]);
      } else if step.Arrive? && ClaimOutcome(s.records, step.key, step.hash, step.now) == Acquired {
        var prior := if a in s.requests then a else b;
        if s.requests[prior].key == step.key && Holder(s.requests[prior]) {
          AcquiredAfterExpiry(s, step.key, step.hash, step.now, prior);
        }
      }
    }
  }

  lemma HoldersOwnStep(s: State, step: Step)
    requires Inv(s) && Timely(s, step)
    ensures HoldersOwn(Next(s, step))
  {
    var t := Next(s, step);
    forall a | a in t.requests && Holder(t.requests[a]) && t.clock < ExpiryOf(t.requests[a])
      ensures Shows(t.records, t.requests[a])
    {
      if a in s.requests {
        assert Shows(s.records, s.requests[a]);
        if (step.Finish? || step.Panic?) && Runs(s, step.request) && a != step.request {
          assert Apart(s.requests[a], s.requests[step.request]);
        }
      }
    }
  }

  lemma ExecutionPersists(s: State, step: Step, key: Key, hash: Fingerprint, response: Response)
    requires ExecutedAs(s, key, hash, response)
    ensures ExecutedAs(Next(s, step), key, hash, response)
  {
    var p :| p in s.requests && s.requests[p].key == key && s.requests[p].hash == hash &&
             s.requests[p].phase == Executed(response);
    assert Next(s, step).requests[p] == s.requests[p];
  }

  lemma AnswersGenuineStep(s: State, step: Step)
    requires Inv(s) && Timely(s, step)
    ensures AnswersGenuine(Next(s, step))
  {
    var t := Next(s, step);
    forall k | k in t.records && t.records[k].state.Completed?
      ensures ExecutedAs(t, k, t.records[k].hash, t.records[k].state.response)
    {
      if k in s.records && s.records[k] == t.records[k] {
        ExecutionPersists(s, step, k, s.records[k].hash, s.records[k].state.response);
      } else {
        assert t.requests[step.request].phase == Executed(step.response);
      }
    }
    forall q | q in t.requests && t.requests[q].phase.Replayed?
      ensures ExecutedAs(t, t.requests[q].key, t.requests[q].hash, t.requests[q].phase.response)
    {
      ExecutionPersists(s, step, t.requests[q].key, t.requests[q].hash, t.requests[q].phase.response);
    }
  }

  lemma {:induction false} RunKeepsInv(s: State, steps: seq<Step>)
    requires Inv(s) && AllTimely(s, steps)
    ensures Inv(Run(s, steps))
    decreases |steps|
  {
    if steps != [] {
      OneHolderStep(s, steps[0]);
      HoldersOwnStep(s, steps[0]);
      AnswersGenuineStep(s, steps[0]);
      RunKeepsInv(Next(s, steps[0]), steps[1..]);
    }
  }

  // ---------------------------------------------------------------- what callers may rely on

  /**
   No two requests hold a key at once: the retention periods of any two that
   acquired it, and did not give it back, do not overlap. In particular, while a
   record lives only one handler runs to a stored answer.
   */
  lemma HoldersNeverOverlap(start: Time, steps: seq<Step>, a: Id, b: Id)
    requires AllTimely(Start(start), steps)
    requires var s := Run(Start(start), steps);
             a in s.requests && b in s.requests && a != b && s.requests[a].key == s.requests[b].key &&
             Holder(s.requests[a]) && Holder(s.requests[b])
    ensures var s := Run(Start(start), steps);
            Disjoint(s.requests[a], s.requests[b]) &&
            (ExpiryOf(s.requests[a]) <= s.clock || ExpiryOf(s.requests[b]) <= s.clock)
  {
    RunKeepsInv(Start(start), steps);
    var s := Run(Start(start), steps);
    assert Apart(s.requests[a], s.requests[b]);
  }

  /** Every replay carries the answer of a request that executed with the same key and fingerprint. */
  lemma ReplaysAreGenuine(start: Time, steps: seq<Step>, q: Id)
    requires AllTimely(Start(start), steps)
    requires var s := Run(Start(start), steps); q in s.requests && s.requests[q].phase.Replayed?
    ensures var s := Run(Start(start), steps);
            ExecutedAs(s, s.requests[q].key, s.requests[q].hash, s.requests[q].phase.response)
  {
    RunKeepsInv(Start(start), steps);
  }

  /**
   While a holder's record lives, a new request with the same key never runs; it
   is shown the stored answer exactly when the holder has finished and the
   fingerprints are equal.
   */
  lemma LiveRecordDecides(start: Time, steps: seq<Step>, a: Id, q: Id, hash: Fingerprint, now: Time)
    requires AllTimely(Start(start), steps)
    requires var s := Run(Start(start), steps);
             a in s.requests && Holder(s.requests[a]) && s.clock <= now < ExpiryOf(s.requests[a]) && q !in s.requests
    ensures var s := Run(Start(start), steps);
            var r := s.requests[a];
            var t := Next(s, Arrive(q, r.key, hash, now));
            && t.records == s.records && !Holder(t.requests[q])
            && (t.requests[q].phase.Replayed? <==> r.phase.Executed? && hash == r.hash)
            && (t.requests[q].phase.Replayed? ==> t.requests[q].phase.response == r.phase.response)
  {
    RunKeepsInv(Start(start), steps);
    var s := Run(Start(start), steps);
    assert Shows(s.records, s.requests[a]);
  }

  /**
   The finishing handler's answer is stored under a claim with another fingerprint,
   for which nobody has computed that answer.
   */
  ghost predicate AnswersForAnother(s: State, q: Id, response: Response)
    requires q in s.requests
  {
    var r := s.requests[q];
    && response.status < 500 && Claimed(s.records, r.key)
    && s.records[r.key].hash != r.hash && !ExecutedAs(s, r.key, s.records[r.key].hash, response)
  }

  lemma FinishIsGenuineIff(s: State, q: Id, response: Response, now: Time)
    requires AnswersGenuine(s) && Runs(s, q)
    ensures AnswersGenuine(Next(s, Finish(q, response, now))) <==> !AnswersForAnother(s, q, response)
  {
    var step := Finish(q, response, now);
    var next := Next(s, step);
    var key := s.requests[q].key;
    if AnswersForAnother(s, q, response) {
      assert next.records[key].state == Completed(response);
      assert forall p :: p in next.requests && p != q ==> next.requests[p] == s.requests[p];
      assert !ExecutedAs(next, key, next.records[key].hash, response);
    } else {
      forall k | k in next.records && next.records[k].state.Completed?
        ensures ExecutedAs(next, k, next.records[k].hash, next.records[k].state.response)
      {
        if k == key && Claimed(s.records, key) {
          if s.records[key].hash == s.requests[q].hash {
            assert next.requests[q].phase == Executed(response);
          } else {
            ExecutionPersists(s, step, k, next.records[k].hash, response);
          }
        } else {
          ExecutionPersists(s, step, k, next.records[k].hash, next.records[k].state.response);
        }
      }
      forall p | p in next.requests && next.requests[p].phase.Replayed?
        ensures ExecutedAs(next, next.requests[p].key, next.requests[p].hash, next.requests[p].phase.response)
      {
        assert p in s.requests && s.requests[p] == next.requests[p];
        ExecutionPersists(s, step, s.requests[p].key, s.requests[p].hash, s.requests[p].phase.response);
      }
    }
  }

  /**
   Exactly when a late handler does harm. After any timely run, a handler that finishes
   at whatever time touches a record that is not its own if and only if its key is
   claimed and the claim is not its own, and stored answers stay genuine if and only if
   that claim has its fingerprint or the answer is one computed for the claim's. Either
   can go wrong only once the handler's own record has expired.
   */
  lemma LateFinishIff(start: Time, steps: seq<Step>, q: Id, response: Response, now: Time)
    requires AllTimely(Start(start), steps)
    requires Runs(Run(Start(start), steps), q)
    ensures var s := Run(Start(start), steps);
            var r := s.requests[q];
            var next := Next(s, Finish(q, response, now));
            && (next.records != s.records && !Shows(s.records, r) <==> Claimed(s.records, r.key) && !Shows(s.records, r))
            && (Claimed(s.records, r.key) && !Shows(s.records, r) ==> ExpiryOf(r) <= s.clock)
            && (AnswersGenuine(next) <==> !AnswersForAnother(s, q, response))
            && (AnswersForAnother(s, q, response) ==> ExpiryOf(r) <= s.clock)
  {
    RunKeepsInv(Start(start), steps);
    FinishIsGenuineIff(Run(Start(start), steps), q, response, now);
  }

  /**
   Such a finish is reached: a handler that finishes as its record expires can
   complete the claim of the request that took over, and a third request is then
   shown an answer that nobody computed for its fingerprint.
   */
  lemma LateFinishAnswersAnotherRequest(key: Key, mine: Fingerprint, other: Fingerprint, response: Response)
    requires mine != other && response.status < 500
    ensures var s := Next(Next(Start(0), Arrive(1, key, mine, 0)), Arrive(2, key, other, RETENTION));
            var t := Next(Next(s, Finish(1, response, RETENTION)), Arrive(3, key, other, RETENTION));
            && !Timely(s, Finish(1, response, RETENTION))
            && t.requests[3].phase == Replayed(response) && !ExecutedAs(t, key, other, response)
  {
    var first := Next(Start(0), Arrive(1, key, mine, 0));
    assert first.records[key] == Record(mine, Processing, RETENTION);
    var s := Next(first, Arrive(2, key, other, RETENTION));
    assert s.records[key] == Record(other, Processing, RETENTION + RETENTION);
    assert Runs(s, 1) && Runs(s, 2);
  }

  // ---------------------------------------------------------------- what single steps do

  /** What a request meets under its key decides what becomes of it, for a day at a time. */
  lemma ArrivalDecides(s: State, q: Id, key: Key, hash: Fingerprint, now: Time)
    requires q !in s.requests
    ensures var t := Next(s, Arrive(q, key, hash, now));
            var made := (phase: Phase) => s.requests[q := Request(key, hash, now, phase)];
            if key !in s.records || s.records[key].expiresAt <= now
            then t == State(s.records[key := Record(hash, Processing, now + 86_400_000_000_000)], made(Executing), now)
            else if s.records[key].hash == hash && s.records[key].state.Completed?
            then t == State(s.records, made(Replayed(s.records[key].state.response)), now)
            else t == State(s.records, made(Refused), now)
  {
  }

  /** A finished handler's answer is kept unless it is a server error; that and a panic free the claim. */
  lemma HandlersSettle(s: State, q: Id, response: Response, now: Time)
    requires Runs(s, q)
    ensures var key := s.requests[q].key;
            var open := key in s.records && s.records[key].state.Processing?;
            var ended := (phase: Phase) => s.requests[q := s.requests[q].(phase := phase)];
            var freed := State(if open then s.records - {key} else s.records, ended(Unstored), now);
            && Next(s, Panic(q, now)) == freed
            && (response.status >= 500 ==> Next(s, Finish(q, response, now)) == freed)
            && (response.status < 500 && open ==>
                  Next(s, Finish(q, response, now)) ==
                  State(s.records[key := s.records[key].(state := Completed(response))], ended(Executed(response)), now))
            && (response.status < 500 && !open ==>
                  Next(s, Finish(q, response, now)) == State(s.records, ended(Unstored), now))
            && Next(s, Crash(q)) == s.(requests := s.requests - {q})
  {
  }

  /** Cleaning up deletes what expired before now and nothing else. */
  lemma CleanupDeletesExpired(s: State, now: Time, key: Key)
    ensures var t := Next(s, Cleanup(now));
            && t.requests == s.requests
            && (key in t.records <==> key in s.records && s.records[key].expiresAt >= now)
            && (key in t.records ==> t.records[key] == s.records[key])
  {
  }

  /**
   A failed attempt does not use up its key: after any timely run, when a handler panics
   or answers with a server error in time, the next request with that key executes.
   */
  lemma FailureFreesTheKey(
    start: Time, steps: seq<Step>, q: Id, failure: Step, p: Id, hash: Fingerprint, later: Time)
    requires AllTimely(Start(start), steps)
    requires var s := Run(Start(start), steps);
             && Runs(s, q) && p !in s.requests && Timely(s, failure)
             && (failure.Panic? || (failure.Finish? && failure.response.status >= 500))
             && failure.request == q && failure.now <= later
    ensures var s := Run(Start(start), steps);
            var t := Next(s, failure);
            var u := Next(t, Arrive(p, s.requests[q].key, hash, later));
            && s.requests[q].key !in t.records
            && Runs(u, p) && u.records[s.requests[q].key] == Record(hash, Processing, later + 86_400_000_000_000)
  {
    RunKeepsInv(Start(start), steps);
    var s := Run(Start(start), steps);
    assert Shows(s.records, s.requests[q]);
  }
}
