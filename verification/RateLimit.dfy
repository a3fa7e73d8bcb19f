/**
 The per-credential token bucket of internal/api/rate_limit.go.

 Tokens and instants are exact reals (seconds) in place of float64 and
 time.Time. The class is the limiter itself; the functions specify one call of
 Allow, with and without pruning of idle buckets, and the lemmas are about
 whole request traces over any number of credentials.
 */
module RateLimit {
  import opened Common

  const CAPACITY: real := 30.0
  const REFILL_PER_SECOND: real := 2.0
  const LIMIT_PER_MINUTE: int := 120
  const IDLE_TTL: real := 900.0

  datatype Bucket = Bucket(tokens: real, updated: real, lastSeen: real)

  datatype Decision = Decision(allowed: bool, limit: int, remaining: int, resetAfter: real)

  datatype Request = Request(credential: Id, now: real)

  type Buckets = map<Id, Bucket>

  function MinReal(a: real, b: real): real {
    if a <= b then a else b
  }

  function Later(a: real, b: real): real {
    if a <= b then b else a
  }

  // ---------------------------------------------------------------- one call

  /** The buckets seen no earlier than the idle cutoff. */
  function Pruned(buckets: Buckets, now: real): Buckets {
    map c | c in buckets && buckets[c].lastSeen >= now - IDLE_TTL :: buckets[c]
  }

  /** Tokens a credential may spend at `now`: a full bucket if it has none yet. */
  function Level(buckets: Buckets, credential: Id, now: real): real {
    if credential !in buckets then CAPACITY
    else
      var b := buckets[credential];
      if now > b.updated
      then MinReal(CAPACITY, b.tokens + (now - b.updated) * REFILL_PER_SECOND)
      else b.tokens
  }

  function Spend(buckets: Buckets, r: Request): (Buckets, Decision) {
    var level := Level(buckets, r.credential, r.now);
    var allowed := level >= 1.0;
    var left := if allowed then level - 1.0 else level;
    var updated :=
      if r.credential in buckets && r.now <= buckets[r.credential].updated
      then buckets[r.credential].updated else r.now;
    var missing := if allowed then CAPACITY - left else 1.0 - left;
    var reset := missing / REFILL_PER_SECOND;
    (buckets[r.credential := Bucket(left, updated, r.now)],
     Decision(allowed, LIMIT_PER_MINUTE, left.Floor, if reset < 0.0 then 0.0 else reset))
  }

  /** One call of Allow; `prune` tells the real limiter from the reference one. */
  function Serve(buckets: Buckets, r: Request, prune: bool): (Buckets, Decision) {
    Spend(if prune then Pruned(buckets, r.now) else buckets, r)
  }

  /** The limiter: its bucket map changes in place. */
  class TokenBucketLimiter {
    var buckets: Buckets

    constructor ()
      ensures buckets == map[]
    {
      buckets := map[];
    }

    /** Deletes, one entry at a time, the buckets idle for longer than the TTL. */
    method PruneLocked(now: real)
      modifies this
      ensures buckets == Pruned(old(buckets), now)
    {
      var cutoff := now - IDLE_TTL;
      var pending := buckets.Keys;
      while pending != {}
        invariant pending <= buckets.Keys <= old(buckets).Keys
        invariant forall c :: c in buckets ==> buckets[c] == old(buckets)[c]
        invariant forall c :: c in old(buckets) && c !in pending ==>
                    (c in buckets <==> old(buckets)[c].lastSeen >= cutoff)
        decreases |pending|
      {
        var c :| c in pending;
        pending := pending - {c};
        if buckets[c].lastSeen < cutoff {
          buckets := buckets - {c};
        }
      }
    }

    method Allow(credential: Id, now: real) returns (decision: Decision)
      modifies this
      ensures (buckets, decision) == Serve(old(buckets), Request(credential, now), true)
    {
      PruneLocked(now);
      var bucket := Bucket(CAPACITY, now, now);
      if credential in buckets {
        bucket := buckets[credential];
      }
      var elapsed := now - bucket.updated;
      if elapsed > 0.0 {
        bucket := bucket.(tokens := MinReal(CAPACITY, bucket.tokens + elapsed * REFILL_PER_SECOND),
                          updated := now);
      }
      bucket := bucket.(lastSeen := now);
      var allowed := bucket.tokens >= 1.0;
      if allowed {
        bucket := bucket.(tokens := bucket.tokens - 1.0);
      }
      buckets := buckets[credential := bucket];
      var resetTokens := CAPACITY - bucket.tokens;
      if !allowed {
        resetTokens := 1.0 - bucket.tokens;
      }
      var resetAfter := resetTokens / REFILL_PER_SECOND;
      if resetAfter < 0.0 {
        resetAfter := 0.0;
      }
      decision := Decision(allowed, LIMIT_PER_MINUTE, bucket.tokens.Floor, resetAfter);
    }
  }

  // ---------------------------------------------------------------- traces

  /**
   Callers read the clock before they queue for the limiter, so requests can arrive
   out of order: no request is more than `jitter` seconds behind an earlier one.
   */
  predicate StepsBackAtMost(trace: seq<Request>, jitter: real) {
    forall i, j :: 0 <= i <= j < |trace| ==> trace[i].now - jitter <= trace[j].now
  }

  function Decisions(buckets: Buckets, trace: seq<Request>, prune: bool): (ds: seq<Decision>)
    ensures |ds| == |trace|
    decreases |trace|
  {
    if trace == [] then []
    else
      var (next, d) := Serve(buckets, trace[0], prune);
      [d] + Decisions(next, trace[1..], prune)
  }

  function Final(buckets: Buckets, trace: seq<Request>, prune: bool): Buckets
    decreases |trace|
  {
    if trace == [] then buckets
    else Final(Serve(buckets, trace[0], prune).0, trace[1..], prune)
  }

  /** How many requests of `credential` made in [from, to] were admitted. */
  function Admitted(trace: seq<Request>, ds: seq<Decision>, credential: Id, from: real, to: real): nat
    requires |ds| == |trace|
  {
    if trace == [] then 0
    else
      (if trace[0].credential == credential && from <= trace[0].now <= to && ds[0].allowed then 1 else 0)
      + Admitted(trace[1..], ds[1..], credential, from, to)
  }

  predicate InRange(buckets: Buckets) {
    forall c :: c in buckets ==> 0.0 <= buckets[c].tokens <= CAPACITY
  }

  /** A bucket never holds fewer than 0 or more than 30 tokens, whatever the clock does. */
  lemma {:induction false} LevelsStayInRange(buckets: Buckets, trace: seq<Request>, prune: bool)
    requires InRange(buckets)
    ensures InRange(Final(buckets, trace, prune))
    decreases |trace|
  {
    if trace != [] {
      LevelsStayInRange(Serve(buckets, trace[0], prune).0, trace[1..], prune);
    }
  }

  /** `pruned` is `full` without some of its buckets, each of which has been spent from. */
  ghost predicate Alike(pruned: Buckets, full: Buckets) {
    && pruned.Keys <= full.Keys
    && (forall c :: c in pruned ==> pruned[c] == full[c])
    && (forall c :: c in full ==> 0.0 <= full[c].tokens <= CAPACITY - 1.0)
  }

  /** The credential's bucket was deleted and the request makes a new, full one. */
  predicate Recreates(pruned: Buckets, full: Buckets, r: Request) {
    r.credential in full && r.credential !in Pruned(pruned, r.now)
  }

  /** A recreated bucket decides as the kept one would exactly when the kept one has refilled to 30. */
  lemma RecreatedDecidesAsKeptIff(pruned: Buckets, full: Buckets, r: Request)
    requires Alike(pruned, full)
    ensures Serve(pruned, r, true).1 == Serve(full, r, false).1 <==>
              (Recreates(pruned, full, r) ==> Level(full, r.credential, r.now) == CAPACITY)
    ensures Serve(pruned, r, true).1 == Serve(full, r, false).1 ==>
              Alike(Serve(pruned, r, true).0, Serve(full, r, false).0)
  {
    var live := Pruned(pruned, r.now);
    var x, y := Level(live, r.credential, r.now), Level(full, r.credential, r.now);
    assert !Recreates(pruned, full, r) ==> x == y;
    assert Recreates(pruned, full, r) ==> x == CAPACITY;
  }

  /** Whenever a bucket is recreated in the trace, the one a limiter without pruning has kept is full. */
  predicate RefilledWhenRecreated(pruned: Buckets, full: Buckets, trace: seq<Request>)
    decreases |trace|
  {
    trace == [] ||
    (&& (Recreates(pruned, full, trace[0]) ==> Level(full, trace[0].credential, trace[0].now) == CAPACITY)
     && RefilledWhenRecreated(Serve(pruned, trace[0], true).0, Serve(full, trace[0], false).0, trace[1..]))
  }

  lemma {:induction false} SameDecisionsIff(pruned: Buckets, full: Buckets, trace: seq<Request>)
    requires Alike(pruned, full)
    ensures Decisions(pruned, trace, true) == Decisions(full, trace, false) <==> RefilledWhenRecreated(pruned, full, trace)
    decreases |trace|
  {
    if trace != [] {
      var (p, d) := Serve(pruned, trace[0], true);
      var (f, e) := Serve(full, trace[0], false);
      RecreatedDecidesAsKeptIff(pruned, full, trace[0]);
      var ds, es := Decisions(p, trace[1..], true), Decisions(f, trace[1..], false);
      assert Decisions(pruned, trace, true)[0] == d && Decisions(full, trace, false)[0] == e;
      assert Decisions(pruned, trace, true)[1..] == ds && Decisions(full, trace, false)[1..] == es;
      if d == e {
        SameDecisionsIff(p, f, trace[1..]);
        assert ds == es ==> [d] + ds == [e] + es;
      }
    }
  }

  /** On any clock: pruning changes no decision exactly when every recreated bucket would have been full anyway. */
  lemma PruningIsInvisibleIff(trace: seq<Request>)
    ensures Decisions(map[], trace, true) == Decisions(map[], trace, false) <==> RefilledWhenRecreated(map[], map[], trace)
  {
    SameDecisionsIff(map[], map[], trace);
  }

  /** What holds when the latest instant so far is `top` and the clock steps back at most `jitter`. */
  ghost predicate Trails(pruned: Buckets, full: Buckets, top: real, jitter: real) {
    && Alike(pruned, full)
    && (forall c :: c in full ==> full[c].updated <= top && full[c].updated <= full[c].lastSeen + jitter)
    && (forall c :: c in full && c !in pruned ==> full[c].lastSeen < top - IDLE_TTL)
  }

  lemma TrailsStep(pruned: Buckets, full: Buckets, top: real, jitter: real, r: Request)
    requires Trails(pruned, full, top, jitter) && 0.0 <= jitter && 2.0 * jitter <= 885.0 && top - jitter <= r.now
    ensures Recreates(pruned, full, r) ==> Level(full, r.credential, r.now) == CAPACITY
    ensures Trails(Serve(pruned, r, true).0, Serve(full, r, false).0, Later(top, r.now), jitter)
  {
    RecreatedDecidesAsKeptIff(pruned, full, r);
    if r.credential in full {
      var kept := full[r.credential];
      if Recreates(pruned, full, r) {
        assert kept.lastSeen < Later(top, r.now) - IDLE_TTL;
        assert r.now - kept.updated >= 15.0;
        assert kept.tokens + (r.now - kept.updated) * REFILL_PER_SECOND >= CAPACITY;
      }
    }
  }

  lemma {:induction false} TrailsTrace(pruned: Buckets, full: Buckets, top: real, jitter: real, trace: seq<Request>)
    requires Trails(pruned, full, top, jitter) && 0.0 <= jitter && 2.0 * jitter <= 885.0
    requires StepsBackAtMost(trace, jitter) && forall i :: 0 <= i < |trace| ==> top - jitter <= trace[i].now
    ensures RefilledWhenRecreated(pruned, full, trace)
    decreases |trace|
  {
    if trace != [] {
      TrailsStep(pruned, full, top, jitter, trace[0]);
      assert forall i :: 0 <= i < |trace[1..]| ==> trace[0].now - jitter <= trace[1..][i].now;
      TrailsTrace(Serve(pruned, trace[0], true).0, Serve(full, trace[0], false).0,
                  Later(top, trace[0].now), jitter, trace[1..]);
    }
  }

  /** Pruning is invisible, on every clock that steps back by no more than 442.5 seconds. */
  lemma PruningIsInvisible(trace: seq<Request>, jitter: real)
    requires StepsBackAtMost(trace, jitter) && 0.0 <= jitter && 2.0 * jitter <= 885.0
    ensures Decisions(map[], trace, true) == Decisions(map[], trace, false)
  {
    if trace != [] {
      TrailsTrace(map[], map[], trace[0].now, jitter, trace);
      PruningIsInvisibleIff(trace);
    }
  }

  /** It can be visible when the clock steps back further: here a credential is refilled early. */
  lemma ClockRegressionExposesPruning()
    ensures var trace := [Request(1, 1000.0), Request(1, 0.0), Request(1, 1000.0)];
            Decisions(map[], trace, true)[2].remaining == 29 &&
            Decisions(map[], trace, false)[2].remaining == 27
  {
    var a, b, c := Request(1, 1000.0), Request(1, 0.0), Request(1, 1000.0);
    var trace := [a, b, c];
    var p1, f1 := Serve(map[], a, true).0, Serve(map[], a, false).0;
    var p2, f2 := Serve(p1, b, true).0, Serve(f1, b, false).0;
    assert trace[1..] == [b, c] && [b, c][1..] == [c];
    assert p2[1] == Bucket(28.0, 1000.0, 0.0) && f2[1] == Bucket(28.0, 1000.0, 0.0);
    assert Decisions(p2, [c], true)[0] == Serve(p2, c, true).1;
    assert Decisions(f2, [c], false)[0] == Serve(f2, c, false).1;
    assert Decisions(p1, [b, c], true)[1] == Decisions(p2, [c], true)[0];
    assert Decisions(f1, [b, c], false)[1] == Decisions(f2, [c], false)[0];
  }

  // ---------------------------------------------------------------- the bound

  /** When a credential's bucket was last refilled, but not before `from`. */
  function Since(buckets: Buckets, credential: Id, from: real): real {
    if credential in buckets then Later(buckets[credential].updated, from) else from
  }

  lemma LevelGrowth(buckets: Buckets, credential: Id, at: real, later: real)
    requires InRange(buckets) && at <= later
    ensures Level(buckets, credential, later)
            <= Level(buckets, credential, at) + (later - at) * REFILL_PER_SECOND
  {
  }

  /** What the bucket of a credential can still admit up to `end`, counted from `from` on. */
  function Budget(buckets: Buckets, credential: Id, from: real, end: real): real {
    var start := Since(buckets, credential, from);
    Level(buckets, credential, start) + (end - start) * REFILL_PER_SECOND
  }

  /** A call never raises the budget, and an admission inside the window costs a token of it. */
  lemma SpendLowersBudget(buckets: Buckets, r: Request, credential: Id, from: real, end: real)
    requires InRange(buckets)
    ensures var (next, d) := Spend(buckets, r);
            Budget(next, credential, from, end)
            + (if r.credential == credential && from <= r.now && d.allowed then 1.0 else 0.0)
            <= Budget(buckets, credential, from, end)
  {
    if r.credential == credential {
      var next := Spend(buckets, r).0;
      var start, start' := Since(buckets, credential, from), Since(next, credential, from);
      assert start <= start';
      LevelGrowth(buckets, credential, start, start');
      if r.now < from {
        LevelGrowth(buckets, credential, Later(r.now, Since(buckets, credential, r.now)), start);
      }
    }
  }

  lemma {:induction false} AdmittedFrom(
    buckets: Buckets, top: real, trace: seq<Request>, credential: Id, from: real, to: real, jitter: real)
    requires InRange(buckets) && 0.0 <= jitter && StepsBackAtMost(trace, jitter)
    requires forall c :: c in buckets ==> buckets[c].updated <= top
    requires forall i :: 0 <= i < |trace| ==> top - jitter <= trace[i].now
    requires Since(buckets, credential, from) <= to + jitter
    ensures Admitted(trace, Decisions(buckets, trace, false), credential, from, to) as real
            <= Budget(buckets, credential, from, to + jitter)
    decreases |trace|
  {
    if trace == [] {
      return;
    }
    var r, next := trace[0], Spend(buckets, trace[0]).0;
    assert Decisions(buckets, trace, false)[1..] == Decisions(next, trace[1..], false);
    assert forall i :: 0 <= i < |trace[1..]| ==> r.now - jitter <= trace[1..][i].now;
    if r.now > to + jitter {
      NothingAfter(next, trace[1..], credential, from, to);
      return;
    }
    SpendLowersBudget(buckets, r, credential, from, to + jitter);
    AdmittedFrom(next, Later(top, r.now), trace[1..], credential, from, to, jitter);
  }

  lemma {:induction false} NothingAfter(buckets: Buckets, trace: seq<Request>, credential: Id, from: real, to: real)
    requires forall i :: 0 <= i < |trace| ==> trace[i].now > to
    ensures Admitted(trace, Decisions(buckets, trace, false), credential, from, to) == 0
    decreases |trace|
  {
    if trace != [] {
      var next := Serve(buckets, trace[0], false).0;
      assert Decisions(buckets, trace, false)[1..] == Decisions(next, trace[1..], false);
      NothingAfter(next, trace[1..], credential, from, to);
    }
  }

  /**
   In any window one credential gets at most 30 admissions and 2 more per second, in
   every trace whose clock steps back by at most `jitter`, which widens the window.
   */
  lemma AdmissionBound(trace: seq<Request>, credential: Id, from: real, to: real, jitter: real)
    requires StepsBackAtMost(trace, jitter) && 0.0 <= jitter && 2.0 * jitter <= 885.0 && from <= to
    ensures Admitted(trace, Decisions(map[], trace, true), credential, from, to) as real
            <= 30.0 + 2.0 * (to - from + jitter)
  {
    PruningIsInvisible(trace, jitter);
    if trace != [] {
      AdmittedFrom(map[], trace[0].now, trace, credential, from, to, jitter);
    }
  }

  // ---------------------------------------------------------------- what a credential is granted

  /** A request is refused exactly for want of a whole token, and told the tokens left. */
  lemma DecisionMeans(buckets: Buckets, r: Request)
    ensures var level := Level(buckets, r.credential, r.now);
            var (next, d) := Spend(buckets, r);
            && d.limit == 120 && (d.allowed <==> level >= 1.0)
            && next.Keys == buckets.Keys + {r.credential}
            && (forall c :: c in buckets && c != r.credential ==> next[c] == buckets[c])
            && next[r.credential].tokens == (if d.allowed then level - 1.0 else level)
            && next[r.credential].lastSeen == r.now
            && d.remaining as real <= next[r.credential].tokens < d.remaining as real + 1.0
  {
  }

  /**
   The waiting time in the answer is exact: left alone, an admitted credential's bucket
   is full from then on and not before, and a refused one has a whole token from then on
   and not before. New credentials begin with 30 tokens, and two come back each second.
   */
  lemma ResetAfterIsExact(buckets: Buckets, r: Request, at: real)
    requires InRange(buckets) && r.now <= at
    requires r.credential in buckets ==> buckets[r.credential].updated <= r.now
    ensures var (next, d) := Spend(buckets, r);
            && d.resetAfter >= 0.0
            && (d.allowed ==> (Level(next, r.credential, at) == 30.0 <==> at - r.now >= d.resetAfter))
            && (!d.allowed ==> (Level(next, r.credential, at) >= 1.0 <==> at - r.now >= d.resetAfter))
            && Level(next, r.credential, at) == MinReal(30.0, next[r.credential].tokens + 2.0 * (at - r.now))
    ensures r.credential !in buckets ==> Spend(buckets, r).1 == Decision(true, 120, 29, 0.5)
  {
  }

  /** Any two requests of the credential are at least half a second apart, in order. */
  predicate Spaced(trace: seq<Request>, credential: Id) {
    forall i, j :: 0 <= i < j < |trace| && trace[i].credential == credential && trace[j].credential == credential ==>
      trace[i].now + 0.5 <= trace[j].now
  }

  lemma {:induction false} SpacedFrom(buckets: Buckets, trace: seq<Request>, credential: Id)
    requires Spaced(trace, credential) && InRange(buckets)
    requires forall i :: 0 <= i < |trace| && trace[i].credential == credential && credential in buckets ==>
               buckets[credential].updated + 0.5 <= trace[i].now
    ensures forall i :: 0 <= i < |trace| && trace[i].credential == credential ==>
              Decisions(buckets, trace, false)[i].allowed
    decreases |trace|
  {
    if trace != [] {
      var (next, d) := Spend(buckets, trace[0]);
      assert trace[0].credential == credential ==> d.allowed && next[credential].updated == trace[0].now;
      SpacedFrom(next, trace[1..], credential);
    }
  }

  /** A credential that sends no more than two requests a second is never refused, whatever others send. */
  lemma SpacedRequestsAreAdmitted(trace: seq<Request>, credential: Id, jitter: real)
    requires Spaced(trace, credential)
    requires StepsBackAtMost(trace, jitter) && 0.0 <= jitter && 2.0 * jitter <= 885.0
    ensures forall i :: 0 <= i < |trace| && trace[i].credential == credential ==> Decisions(map[], trace, true)[i].allowed
  {
    PruningIsInvisible(trace, jitter);
    SpacedFrom(map[], trace, credential);
  }

  function Burst(r: Request, n: nat): seq<Request> {
    if n == 0 then [] else [r] + Burst(r, n - 1)
  }

  /** A request stamped no later than the last refill brings no refill. */
  lemma ServeBehind(b: Bucket, r: Request)
    requires 1.0 <= b.tokens && r.now <= b.updated && r.now - IDLE_TTL <= b.lastSeen
    ensures var c := r.credential;
            var (next, d) := Serve(map[c := b], r, true);
            next == map[c := Bucket(b.tokens - 1.0, b.updated, r.now)] && d.allowed
  {
    assert Pruned(map[r.credential := b], r.now) == map[r.credential := b];
  }

  function AdmittedIn(b: Bucket, trace: seq<Request>, credential: Id, from: real, to: real): nat {
    Admitted(trace, Decisions(map[credential := b], trace, true), credential, from, to)
  }

  lemma BurstStep(b: Bucket, r: Request, tail: seq<Request>, from: real, to: real)
    requires 1.0 <= b.tokens && r.now <= b.updated && r.now - IDLE_TTL <= b.lastSeen && from <= r.now <= to
    ensures AdmittedIn(b, [r] + tail, r.credential, from, to) ==
            1 + AdmittedIn(Bucket(b.tokens - 1.0, b.updated, r.now), tail, r.credential, from, to)
  {
    ServeBehind(b, r);
    assert ([r] + tail)[1..] == tail;
  }

  lemma {:induction false} BurstSpends(
    tokens: real, updated: real, seen: real, r: Request, n: nat, rest: seq<Request>, from: real, to: real)
    requires n as real <= tokens && r.now <= updated && r.now - IDLE_TTL <= seen && from <= r.now <= to
    ensures AdmittedIn(Bucket(tokens, updated, seen), Burst(r, n) + rest, r.credential, from, to) ==
            n + AdmittedIn(Bucket(tokens - n as real, updated, if n == 0 then seen else r.now), rest, r.credential, from, to)
    decreases n
  {
    if n == 0 {
      assert Burst(r, n) + rest == rest;
    } else {
      assert Burst(r, n) + rest == [r] + (Burst(r, n - 1) + rest);
      BurstStep(Bucket(tokens, updated, seen), r, Burst(r, n - 1) + rest, from, to);
      BurstSpends(tokens - 1.0, updated, r.now, r, n - 1, rest, from, to);
      assert tokens - 1.0 - (n - 1) as real == tokens - n as real;
    }
  }

  /**
   Without such a limit on the clock the bound fails: twice as many requests as a full
   bucket holds, all stamped with one instant, are admitted in a window of that instant.
   */
  lemma UnboundedJitterExceedsTheBound(n: nat)
    requires n <= 29
    ensures var early := Request(1, 0.0);
            var trace := [Request(1, 100.0)] + (Burst(early, n) + ([Request(1, 115.0)] + (Burst(early, n) + [])));
            Admitted(trace, Decisions(map[], trace, true), 1, 0.0, 0.0) == 2 * n
  {
    var early, first, second := Request(1, 0.0), Request(1, 100.0), Request(1, 115.0);
    var last := Burst(early, n) + [];
    var middle := [second] + last;
    var tail := Burst(early, n) + middle;
    var trace := [first] + tail;
    assert trace[1..] == tail && middle[1..] == last;
    var full := Bucket(29.0, 100.0, 100.0);
    assert Serve(map[], first, true).0 == map[1 := full];
    BurstSpends(29.0, 100.0, 100.0, early, n, middle, 0.0, 0.0);
    var spent := Bucket(29.0 - n as real, 100.0, if n == 0 then 100.0 else 0.0);
    var again := Bucket(29.0, 115.0, 115.0);
    assert Pruned(map[1 := spent], 115.0) == map[1 := spent];
    assert Serve(map[1 := spent], second, true).0 == map[1 := again];
    BurstSpends(29.0, 115.0, 115.0, early, n, [], 0.0, 0.0);
  }
}
