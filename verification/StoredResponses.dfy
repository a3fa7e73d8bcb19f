/**
 The HTTP half of the idempotency middleware, internal/api/idempotency.go: the
 recorder a handler writes to, what of it is stored and replayed, and the
 pre-image of the request fingerprint.
 */
module StoredResponses {
  import opened Common
  import opened Idempotency

  const REQUEST_ID := "X-Request-Id"
  const REPLAYED := "Idempotency-Replayed"

  /** The headers a stored response keeps. Names are canonical MIME header names. */
  const KEPT: set<string> := {"Content-Type", "Etag", "Location", REQUEST_ID}

  function Stored(status: int, header: Header, body: string, requestId: string): Response {
    Response(if status == 0 then OK_STATUS else status,
             (map name | name in header && name in KEPT :: header[name])[REQUEST_ID := [requestId]], body)
  }

  /** The response recorder: the first status wins, and writing a body settles it. */
  class CapturedResponse {
    var header: Header
    var status: int
    var body: string

    constructor ()
      ensures header == map[] && status == 0 && body == ""
    {
      header, status, body := map[], 0, "";
    }

    method WriteHeader(code: int)
      modifies this`status
      ensures status == if old(status) == 0 then code else old(status)
    {
      if status == 0 {
        status := code;
      }
    }

    method Write(bytes: string)
      modifies this`status, this`body
      ensures status == if old(status) == 0 then OK_STATUS else old(status)
      ensures body == old(body) + bytes
    {
      if status == 0 {
        status := OK_STATUS;
      }
      body := body + bytes;
    }

    /** Copies the kept headers one by one and puts the request's own id in. */
    method StoredResponse(requestId: string) returns (response: Response)
      ensures response == Stored(status, header, body, requestId)
    {
      var headers: Header := map[];
      var pending := header.Keys;
      while pending != {}
        invariant pending <= header.Keys
        invariant headers == map name | name in header && name !in pending && name in KEPT :: header[name]
        decreases |pending|
      {
        var name :| name in pending;
        pending := pending - {name};
        if name in KEPT {
          headers := headers[name := header[name]];
        }
      }
      headers := headers[REQUEST_ID := [requestId]];
      var code := if status == 0 then OK_STATUS else status;
      response := Response(code, headers, body);
    }
  }

  /** What a replay writes: the stored response under the replaying request's own id. */
  function ReplayOf(stored: Response, requestId: string): Response {
    stored.(headers := (stored.headers - {REQUEST_ID})[REQUEST_ID := [requestId]][REPLAYED := ["true"]])
  }

  /** What a handler left in the recorder, and the id of the request it answered. */
  datatype Capture = Capture(status: int, header: Header, body: string, requestId: string)

  function StoredOf(c: Capture): Response {
    Stored(c.status, c.header, c.body, c.requestId)
  }

  /**
   The response has the captured status, body and kept headers, and nothing else but
   the replaying request's own id and the replay mark.
   */
  ghost predicate Carries(r: Response, c: Capture, replaying: string) {
    var kept := {"Content-Type", "Etag", "Location"};
    && r.status == (if c.status == 0 then 200 else c.status) && r.body == c.body
    && r.headers.Keys == (c.header.Keys * kept) + {"X-Request-Id", "Idempotency-Replayed"}
    && r.headers["X-Request-Id"] == [replaying] && r.headers["Idempotency-Replayed"] == ["true"]
    && forall name :: name in c.header && name in kept ==> r.headers[name] == c.header[name]
  }

  lemma ReplayCarriesTheExecution(c: Capture, replaying: string)
    ensures Carries(ReplayOf(StoredOf(c), replaying), c, replaying)
  {
    assert REPLAYED[0] == 'I' && "Content-Type"[0] == 'C' && "Etag"[0] == 'E' && "Location"[0] == 'L' && REQUEST_ID[0] == 'X';
  }

  /** A request ends executed only through a handler that finishes with that answer. */
  lemma {:induction false} ExecutedWasFinished(s: State, steps: seq<Step>, p: Id, response: Response)
    requires p in Run(s, steps).requests && Run(s, steps).requests[p].phase == Executed(response)
    requires !(p in s.requests && s.requests[p].phase == Executed(response))
    ensures exists i :: 0 <= i < |steps| && steps[i].Finish? && steps[i].request == p && steps[i].response == response
    decreases |steps|
  {
    var next := Next(s, steps[0]);
    if p in next.requests && next.requests[p].phase == Executed(response) {
      assert steps[0].Finish? && steps[0].request == p && steps[0].response == response;
    } else {
      ExecutedWasFinished(next, steps[1..], p, response);
      var i :| 0 <= i < |steps[1..]| && steps[1..][i].Finish? && steps[1..][i].request == p && steps[1..][i].response == response;
      assert steps[i + 1] == steps[1..][i];
    }
  }

  /**
   In every timely run whose handlers answer through the recorder, a replay writes the
   status, body and kept headers of a request that executed with the same key and
   fingerprint, whatever was captured and whoever replays it.
   */
  lemma ReplaysCarryExecutions(start: Time, steps: seq<Step>, captured: Id -> Capture, q: Id, replaying: string)
    requires AllTimely(Start(start), steps)
    requires forall i :: 0 <= i < |steps| && steps[i].Finish? ==> steps[i].response == StoredOf(captured(steps[i].request))
    requires var s := Run(Start(start), steps); q in s.requests && s.requests[q].phase.Replayed?
    ensures var s := Run(Start(start), steps);
            exists p :: && p in s.requests && s.requests[p].phase.Executed?
                        && s.requests[p].key == s.requests[q].key && s.requests[p].hash == s.requests[q].hash
                        && Carries(ReplayOf(s.requests[q].phase.response, replaying), captured(p), replaying)
  {
    var s := Run(Start(start), steps);
    ReplaysAreGenuine(start, steps, q);
    var response := s.requests[q].phase.response;
    var p :| p in s.requests && s.requests[p].key == s.requests[q].key && s.requests[p].hash == s.requests[q].hash &&
             s.requests[p].phase == Executed(response);
    ExecutedWasFinished(Start(start), steps, p, response);
    ReplayCarriesTheExecution(captured(p), replaying);
  }

  // ---------------------------------------------------------------- fingerprints

  const NUL: char := '\0'

  /** Each field followed by a zero byte, then the body. */
  function Preimage(fields: seq<string>, body: string): string {
    if fields == [] then body else fields[0] + [NUL] + Preimage(fields[1..], body)
  }

  lemma {:induction false} PreimageAppend(fields: seq<string>, last: string, body: string)
    ensures Preimage(fields + [last], body) == Preimage(fields, last + [NUL] + body)
  {
    if fields != [] {
      assert (fields + [last])[1..] == fields[1..] + [last];
      PreimageAppend(fields[1..], last, body);
    } else {
      assert fields + [last] == [last] && [last][1..] == [];
    }
  }

  /** The bytes written to the hash, field by field. */
  method FingerprintInput(httpMethod: string, route: string, query: string, contentType: string, body: string)
    returns (written: string)
    ensures written == Preimage([httpMethod, route, query, TrimSpace(contentType)], body)
  {
    var fields := [httpMethod, route, query, TrimSpace(contentType)];
    written := "";
    for i := 0 to |fields|
      invariant forall rest :: written + rest == Preimage(fields[..i], rest)
    {
      ghost var soFar := written;
      written := written + fields[i];
      written := written + [NUL];
      forall rest
        ensures written + rest == Preimage(fields[..i + 1], rest)
      {
        assert fields[..i + 1] == fields[..i] + [fields[i]];
        PreimageAppend(fields[..i], fields[i], rest);
        assert written + rest == soFar + (fields[i] + [NUL] + rest);
      }
    }
    assert fields[..|fields|] == fields;
    written := written + body;
  }

  predicate NulFree(s: string) {
    forall i :: 0 <= i < |s| ==> s[i] != NUL
  }

  lemma FirstFieldEnds(a: string, b: string, x: string, y: string)
    requires NulFree(a) && NulFree(b) && a + [NUL] + x == b + [NUL] + y
    ensures a == b && x == y
  {
    var s, t := a + [NUL] + x, b + [NUL] + y;
    assert s[|a|] == NUL && t[|b|] == NUL;
    assert forall i :: 0 <= i < |a| ==> s[i] == a[i] != NUL;
    assert forall i :: 0 <= i < |b| ==> t[i] == b[i] != NUL;
    assert |a| == |b|;
    assert a == s[..|a|] && b == t[..|b|];
    assert x == s[|a| + 1..] && y == t[|b| + 1..];
  }

  /** Fields without zero bytes, and the body, can be read back from what was hashed. */
  lemma {:induction false} FingerprintIsInjective(fields: seq<string>, body: string, other: seq<string>, otherBody: string)
    requires |fields| == |other|
    requires forall i :: 0 <= i < |fields| ==> NulFree(fields[i]) && NulFree(other[i])
    requires Preimage(fields, body) == Preimage(other, otherBody)
    ensures fields == other && body == otherBody
  {
    if fields != [] {
      FirstFieldEnds(fields[0], other[0], Preimage(fields[1..], body), Preimage(other[1..], otherBody));
      FingerprintIsInjective(fields[1..], body, other[1..], otherBody);
      assert fields == [fields[0]] + fields[1..] && other == [other[0]] + other[1..];
    }
  }

  /** A zero byte in a field is what could confuse two requests. */
  lemma ZeroByteConfusesFields(rest: seq<string>, body: string)
    ensures ["P" + [NUL], ""] + rest != ["P", [NUL]] + rest
    ensures Preimage(["P" + [NUL], ""] + rest, body) == Preimage(["P", [NUL]] + rest, body)
  {
    var a, b := ["P" + [NUL], ""] + rest, ["P", [NUL]] + rest;
    assert |a[0]| != |b[0]|;
    assert a[1..] == [""] + rest && b[1..] == [[NUL]] + rest;
    assert a[1..][1..] == rest && b[1..][1..] == rest;
    assert Preimage(a[1..], body) == "" + [NUL] + Preimage(rest, body);
    assert Preimage(b[1..], body) == [NUL] + [NUL] + Preimage(rest, body);
    assert Preimage(a, body) == "P" + [NUL] + [NUL] + ("" + [NUL] + Preimage(rest, body));
    assert Preimage(b, body) == "P" + [NUL] + ([NUL] + [NUL] + Preimage(rest, body));
  }
}
