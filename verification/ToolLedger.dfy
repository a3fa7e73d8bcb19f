/**
 The write-once tool call ledger: the middleware of internal/agent/tool_ledger.go
 over the tool call rows of internal/store/agent_store.go. An invocation claims
 its call, runs the tool, and settles in a later statement, so several
 invocations of one call, by several workers, can be executing at once.
 */
module ToolLedger {
  import opened Common

  datatype Json =
    | JNull
    | JBool(b: bool)
    | JNumber(n: real)
    | JString(s: string)
    | JArray(items: seq<Json>)
    | JObject(fields: map<string, Json>)

  const EVIDENCE_ID := "evidence_id"

  /** A call of one run: run id and tool call id. */
  datatype CallKey = CallKey(run: Id, call: string)

  datatype CallState = Executing | Completed(result: Json) | Errored(category: string)

  /** SHA-256 of the arguments is taken as injective, so a row keeps the arguments themselves. */
  datatype CallRow = CallRow(tool: string, arguments: string, state: CallState)

  datatype ClaimKind = Acquired | Replay(result: Json) | Conflict | InProgress

  datatype ToolError = ToolCallProtocol | Failed(category: string) | Interrupted

  // ---------------------------------------------------------------- evidence ids

  /** An object gets the call id as its evidence id; a string or null passes; anything else is refused. */
  function AddToolEvidenceId(result: Json, call: string): Result<Json, ToolError> {
    match result
    case JObject(fields) => Ok(JObject(fields[EVIDENCE_ID := JString(call)]))
    case JString(_) => Ok(result)
    case JNull => Ok(result)
    case _ => Err(ToolCallProtocol)
  }

  /** Adding the evidence id again changes nothing, and what it returns is never refused. */
  lemma EvidenceIsIdempotent(result: Json, call: string)
    requires AddToolEvidenceId(result, call).Ok?
    ensures AddToolEvidenceId(AddToolEvidenceId(result, call).value, call) == AddToolEvidenceId(result, call)
  {
    if result.JObject? {
      var id := JString(call);
      assert result.fields[EVIDENCE_ID := id][EVIDENCE_ID := id] == result.fields[EVIDENCE_ID := id];
    }
  }

  predicate Taggable(result: Json) {
    result.JObject? || result.JString? || result.JNull?
  }

  /** `tagged` is the tool's own result: an object with the call id added to it, anything else unchanged. */
  ghost predicate Tags(tagged: Json, result: Json, call: string) {
    if result.JObject? then
      && tagged.JObject?
      && tagged.fields.Keys == result.fields.Keys + {"evidence_id"}
      && tagged.fields["evidence_id"] == JString(call)
      && (forall k :: k in result.fields && k != "evidence_id" ==> tagged.fields[k] == result.fields[k])
    else tagged == result
  }

  /** Objects, strings and null are accepted, and what comes back is the result with its evidence id. */
  lemma EvidenceKeepsTheResult(result: Json, call: string)
    ensures AddToolEvidenceId(result, call).Ok? <==> Taggable(result)
    ensures Taggable(result) ==> Tags(AddToolEvidenceId(result, call).value, result, call)
    ensures !Taggable(result) ==> AddToolEvidenceId(result, call) == Err(ToolCallProtocol)
  {
  }

  // ---------------------------------------------------------------- the rows

  type Calls = map<CallKey, CallRow>

  function ClaimOutcome(calls: Calls, key: CallKey, tool: string, arguments: string): ClaimKind {
    if key !in calls then Acquired
    else
      var row := calls[key];
      if row.tool != tool || row.arguments != arguments then Conflict
      else
        match row.state
        case Completed(result) => Replay(result)
        case Executing => InProgress
        case Errored(_) => Conflict
  }

  function AfterClaim(calls: Calls, key: CallKey, tool: string, arguments: string): Calls {
    if key in calls then calls else calls[key := CallRow(tool, arguments, Executing)]
  }

  /** Both CompleteToolCall and FailToolCall match a row that is still executing, and no other. */
  predicate CanSettle(calls: Calls, key: CallKey) {
    key in calls && calls[key].state == Executing
  }

  function AfterSettle(calls: Calls, key: CallKey, state: CallState): Calls {
    if CanSettle(calls, key) then calls[key := calls[key].(state := state)] else calls
  }

  // ---------------------------------------------------------------- the middleware

  /** What the tool behind the ledger did. */
  datatype Outcome = Output(result: Json) | ToolFailure(category: string) | Interrupt

  /** What an invocation returned to its caller. */
  type Answer = Result<Json, ToolError>

  /** Claiming: either an answer at once, or None and the tool is to run. */
  function Begin(calls: Calls, key: CallKey, tool: string, arguments: string): Option<Answer> {
    if key.run == NIL || key.call == "" || tool == "" then Some(Err(ToolCallProtocol))
    else
      match ClaimOutcome(calls, key, tool, arguments)
      case Replay(result) => Some(AddToolEvidenceId(result, key.call))
      case Conflict => Some(Err(ToolCallProtocol))
      case InProgress => None
      case Acquired => None
  }

  function AfterBegin(calls: Calls, key: CallKey, tool: string, arguments: string): Calls {
    if key.run == NIL || key.call == "" || tool == "" then calls else AfterClaim(calls, key, tool, arguments)
  }

  /** Settling what the tool did: the answer, and the row's new state if the ledger is written. */
  function Settle(calls: Calls, key: CallKey, outcome: Outcome): (Calls, Answer) {
    match outcome
    case Interrupt => (calls, Err(Interrupted))
    case ToolFailure(category) => (AfterSettle(calls, key, Errored(category)), Err(Failed(category)))
    case Output(result) =>
      match AddToolEvidenceId(result, key.call)
      case Err(e) => (calls, Err(e))
      case Ok(tagged) =>
        if CanSettle(calls, key) then (AfterSettle(calls, key, Completed(tagged)), Ok(tagged))
        else (calls, Err(ToolCallProtocol))
  }

  class Ledger {
    var calls: Calls

    constructor ()
      ensures calls == map[]
    {
      calls := map[];
    }

    method ClaimToolCall(key: CallKey, tool: string, arguments: string) returns (kind: ClaimKind)
      modifies this
      ensures kind == ClaimOutcome(old(calls), key, tool, arguments)
      ensures calls == AfterClaim(old(calls), key, tool, arguments)
    {
      if key !in calls {
        calls := calls[key := CallRow(tool, arguments, Executing)];
        return Acquired;
      }
      var row := calls[key];
      if row.tool != tool || row.arguments != arguments {
        return Conflict;
      }
      match row.state {
        case Completed(result) => kind := Replay(result);
        case Executing => kind := InProgress;
        case Errored(_) => kind := Conflict;
      }
    }

    method SettleToolCall(key: CallKey, state: CallState) returns (ok: bool)
      modifies this
      ensures ok == CanSettle(old(calls), key)
      ensures calls == AfterSettle(old(calls), key, state)
    {
      if key !in calls || calls[key].state != Executing {
        return false;
      }
      calls := calls[key := calls[key].(state := state)];
      ok := true;
    }

    /** The middleware up to the tool: returns the answer, or None to run the tool. */
    method Enter(key: CallKey, tool: string, arguments: string) returns (answer: Option<Answer>)
      modifies this
      ensures answer == Begin(old(calls), key, tool, arguments)
      ensures calls == AfterBegin(old(calls), key, tool, arguments)
    {
      if key.run == NIL || key.call == "" || tool == "" {
        return Some(Err(ToolCallProtocol));
      }
      var kind := ClaimToolCall(key, tool, arguments);
      match kind {
        case Replay(result) => answer := Some(AddToolEvidenceId(result, key.call));
        case Conflict => answer := Some(Err(ToolCallProtocol));
        case InProgress => answer := None;
        case Acquired => answer := None;
      }
    }

    /** The middleware after the tool. */
    method Leave(key: CallKey, outcome: Outcome) returns (answer: Answer)
      modifies this
      ensures (calls, answer) == Settle(old(calls), key, outcome)
    {
      match outcome {
        case Interrupt =>
          return Err(Interrupted);
        case ToolFailure(category) =>
          var _ := SettleToolCall(key, Errored(category));
          return Err(Failed(category));
        case Output(result) =>
          var tagged := AddToolEvidenceId(result, key.call);
          if tagged.Err? {
            return tagged;
          }
          var ok := SettleToolCall(key, Completed(tagged.value));
          answer := if ok then tagged else Err(ToolCallProtocol);
      }
    }
  }

  // ---------------------------------------------------------------- runs

  datatype Invocation = Invocation(key: CallKey, tool: string, arguments: string, answer: Option<Answer>)

  /** The rows, and every invocation so far: still executing, or answered. */
  datatype State = State(calls: Calls, invocations: map<Id, Invocation>)

  datatype Step =
    | Call(invocation: Id, key: CallKey, tool: string, arguments: string)
    | Return(invocation: Id, outcome: Outcome)
    | Crash(invocation: Id)

  const EMPTY := State(map[], map[])

  predicate Executes(s: State, id: Id) {
    id in s.invocations && s.invocations[id].answer.None?
  }

  function Next(s: State, step: Step): State {
    match step
    case Call(id, key, tool, arguments) =>
      if id in s.invocations then s
      else
        State(AfterBegin(s.calls, key, tool, arguments),
              s.invocations[id := Invocation(key, tool, arguments, Begin(s.calls, key, tool, arguments))])
    case Return(id, outcome) =>
      if !Executes(s, id) then s
      else
        var (calls, answer) := Settle(s.calls, s.invocations[id].key, outcome);
        State(calls, s.invocations[id := s.invocations[id].(answer := Some(answer))])
    case Crash(id) =>
      if !Executes(s, id) then s else s.(invocations := s.invocations - {id})
  }

  function Run(s: State, steps: seq<Step>): State
    decreases |steps|
  {
    if steps == [] then s else Run(Next(s, steps[0]), steps[1..])
  }

  predicate Succeeded(i: Invocation) {
    i.answer.Some? && i.answer.value.Ok?
  }

  /** The ledger holds the call of a running invocation, and the result of a successful one. */
  ghost predicate Recorded(calls: Calls, i: Invocation) {
    && (i.answer.None? ==>
          i.key in calls && calls[i.key].tool == i.tool && calls[i.key].arguments == i.arguments)
    && (Succeeded(i) ==>
          i.key in calls && calls[i.key] == CallRow(i.tool, i.arguments, Completed(i.answer.value.value)))
  }

  ghost predicate Tagged(calls: Calls) {
    forall k :: k in calls && calls[k].state.Completed? ==>
      AddToolEvidenceId(calls[k].state.result, k.call) == Ok(calls[k].state.result)
  }

  ghost predicate Inv(s: State) {
    Tagged(s.calls) && forall id :: id in s.invocations ==> Recorded(s.calls, s.invocations[id])
  }

  /** Rows never go away, keep their tool and arguments, and change no more once settled. */
  ghost predicate Evolves(calls: Calls, next: Calls) {
    forall k :: k in calls ==>
      && k in next && next[k].tool == calls[k].tool && next[k].arguments == calls[k].arguments
      && (calls[k].state != Executing ==> next[k] == calls[k])
  }

  lemma StepEvolves(s: State, step: Step)
    requires Tagged(s.calls)
    ensures Evolves(s.calls, Next(s, step).calls) && Tagged(Next(s, step).calls)
  {
    if step.Return? && Executes(s, step.invocation) && step.outcome.Output? {
      var key := s.invocations[step.invocation].key;
      if AddToolEvidenceId(step.outcome.result, key.call).Ok? {
        EvidenceIsIdempotent(step.outcome.result, key.call);
      }
    }
  }

  lemma StepKeepsInv(s: State, step: Step)
    requires Inv(s)
    ensures Inv(Next(s, step))
  {
    StepEvolves(s, step);
    var t := Next(s, step);
    forall id | id in t.invocations
      ensures Recorded(t.calls, t.invocations[id])
    {
      if id in s.invocations && t.invocations[id] == s.invocations[id] {
        assert Recorded(s.calls, s.invocations[id]);
      }
    }
  }

  lemma {:induction false} RunKeepsInv(s: State, steps: seq<Step>)
    requires Inv(s)
    ensures Inv(Run(s, steps))
    decreases |steps|
  {
    if steps != [] {
      StepKeepsInv(s, steps[0]);
      RunKeepsInv(Next(s, steps[0]), steps[1..]);
    }
  }

  /**
   All successful invocations of one call return the same JSON, for the same tool
   and arguments, however many workers executed it and whoever finished first.
   */
  lemma SuccessesAgree(steps: seq<Step>, a: Id, b: Id)
    requires var s := Run(EMPTY, steps);
             a in s.invocations && b in s.invocations && s.invocations[a].key == s.invocations[b].key &&
             Succeeded(s.invocations[a]) && Succeeded(s.invocations[b])
    ensures var s := Run(EMPTY, steps);
            s.invocations[a].(answer := None) == s.invocations[b].(answer := None) &&
            s.invocations[a].answer == s.invocations[b].answer
  {
    RunKeepsInv(EMPTY, steps);
  }

  /** Completed and failed are absorbing: a settled row never changes again. */
  lemma {:induction false} SettledIsForever(s: State, steps: seq<Step>, key: CallKey)
    requires key in s.calls && s.calls[key].state != Executing
    ensures key in Run(s, steps).calls && Run(s, steps).calls[key] == s.calls[key]
    decreases |steps|
  {
    if steps != [] {
      SettledIsForever(Next(s, steps[0]), steps[1..], key);
    }
  }

  /**
   Nothing executes after a call has settled: in every later state, an invocation of
   it made since then has its answer already, the recorded result if that exists.
   */
  lemma NothingExecutesAfterSettling(before: seq<Step>, after: seq<Step>, key: CallKey, id: Id, tool: string, arguments: string)
    requires key in Run(EMPTY, before).calls && Run(EMPTY, before).calls[key].state != Executing
    requires id !in Run(Run(EMPTY, before), after).invocations
    ensures var s := Run(Run(EMPTY, before), after);
            var row := Run(EMPTY, before).calls[key];
            var t := Next(s, Call(id, key, tool, arguments));
            && t.calls == s.calls && !Executes(t, id)
            && (Succeeded(t.invocations[id]) <==>
                  row.state.Completed? && row.tool == tool != "" && row.arguments == arguments && key.run != NIL && key.call != "")
            && (Succeeded(t.invocations[id]) ==> t.invocations[id].answer == Some(Ok(row.state.result)))
  {
    RunKeepsInv(EMPTY, before);
    SettledIsForever(Run(EMPTY, before), after, key);
  }

  // ---------------------------------------------------------------- what is answered and recorded

  predicate Malformed(key: CallKey, tool: string) {
    key.run == NIL || key.call == "" || tool == ""
  }

  /** In every run: how an invocation begins, by what its call's row holds. */
  lemma CallBegins(steps: seq<Step>, id: Id, key: CallKey, tool: string, arguments: string)
    requires id !in Run(EMPTY, steps).invocations
    ensures var s := Run(EMPTY, steps);
            var t := Next(s, Call(id, key, tool, arguments));
            var made := (answer: Option<Answer>) => s.invocations[id := Invocation(key, tool, arguments, answer)];
            if Malformed(key, tool) then t == State(s.calls, made(Some(Err(ToolCallProtocol))))
            else if key !in s.calls then t == State(s.calls[key := CallRow(tool, arguments, Executing)], made(None))
            else if s.calls[key] == CallRow(tool, arguments, Executing) then t == State(s.calls, made(None))
            else if s.calls[key].state.Completed? && s.calls[key].tool == tool && s.calls[key].arguments == arguments
            then t == State(s.calls, made(Some(Ok(s.calls[key].state.result))))
            else t == State(s.calls, made(Some(Err(ToolCallProtocol))))
  {
    RunKeepsInv(EMPTY, steps);
  }

  /**
   In every run: what becomes of the tool's outcome. A result that can carry an
   evidence id is answered and recorded with it, if the call is still executing;
   any other result is refused and the call left executing; a failure is recorded
   under its category; an interrupt leaves the call to be executed again.
   */
  lemma OutcomeIsSettled(steps: seq<Step>, id: Id, outcome: Outcome)
    requires Executes(Run(EMPTY, steps), id)
    ensures var s := Run(EMPTY, steps);
            var t := Next(s, Return(id, outcome));
            var i := s.invocations[id];
            && i.key in s.calls && id in t.invocations && t.invocations[id].answer.Some?
            && t.invocations == s.invocations[id := i.(answer := t.invocations[id].answer)]
            && var answer := t.invocations[id].answer.value;
               var open := s.calls[i.key].state.Executing?;
               match outcome
               case Interrupt => answer == Err(Interrupted) && t.calls == s.calls
               case ToolFailure(category) =>
                 && answer == Err(Failed(category))
                 && t.calls == if open then s.calls[i.key := CallRow(i.tool, i.arguments, Errored(category))] else s.calls
               case Output(result) =>
                 if Taggable(result) && open
                 then answer.Ok? && Tags(answer.value, result, i.key.call)
                      && t.calls == s.calls[i.key := CallRow(i.tool, i.arguments, Completed(answer.value))]
                 else answer == Err(ToolCallProtocol) && t.calls == s.calls
  {
    RunKeepsInv(EMPTY, steps);
    var s := Run(EMPTY, steps);
    assert Recorded(s.calls, s.invocations[id]);
    if outcome.Output? {
      EvidenceKeepsTheResult(outcome.result, s.invocations[id].key.call);
    }
  }

  function Returned(s: State, step: Step): set<(CallKey, Json)> {
    if step.Return? && Executes(s, step.invocation) && step.outcome.Output?
    then {(s.invocations[step.invocation].key, step.outcome.result)} else {}
  }

  /** What tools have returned, for which call. */
  function Outputs(s: State, steps: seq<Step>): set<(CallKey, Json)>
    decreases |steps|
  {
    if steps == [] then {} else Returned(s, steps[0]) + Outputs(Next(s, steps[0]), steps[1..])
  }

  ghost predicate FromOutput(outputs: set<(CallKey, Json)>, key: CallKey, recorded: Json) {
    exists result :: (key, result) in outputs && Tags(recorded, result, key.call)
  }

  ghost predicate AllFromOutputs(calls: Calls, outputs: set<(CallKey, Json)>) {
    forall k :: k in calls && calls[k].state.Completed? ==> FromOutput(outputs, k, calls[k].state.result)
  }

  lemma OutputStep(s: State, step: Step, outputs: set<(CallKey, Json)>)
    requires AllFromOutputs(s.calls, outputs)
    ensures AllFromOutputs(Next(s, step).calls, outputs + Returned(s, step))
  {
    var more := outputs + Returned(s, step);
    var t := Next(s, step);
    forall k | k in t.calls && t.calls[k].state.Completed?
      ensures FromOutput(more, k, t.calls[k].state.result)
    {
      if k in s.calls && t.calls[k] == s.calls[k] {
        assert FromOutput(outputs, k, s.calls[k].state.result);
      } else {
        EvidenceKeepsTheResult(step.outcome.result, k.call);
        assert (k, step.outcome.result) in more;
      }
    }
  }

  lemma {:induction false} RecordsComeFromOutputs(s: State, steps: seq<Step>, outputs: set<(CallKey, Json)>)
    requires AllFromOutputs(s.calls, outputs)
    ensures AllFromOutputs(Run(s, steps).calls, outputs + Outputs(s, steps))
    decreases |steps|
  {
    if steps == [] {
      assert outputs + {} == outputs;
    } else {
      var more := outputs + Returned(s, steps[0]);
      OutputStep(s, steps[0], outputs);
      RecordsComeFromOutputs(Next(s, steps[0]), steps[1..], more);
      assert more + Outputs(Next(s, steps[0]), steps[1..]) == outputs + Outputs(s, steps);
    }
  }

  /**
   In every run a successful invocation, replayed or executed, answers with something a
   tool really returned for that call, and with all of it.
   */
  lemma AnswersComeFromTools(steps: seq<Step>, id: Id)
    requires id in Run(EMPTY, steps).invocations && Succeeded(Run(EMPTY, steps).invocations[id])
    ensures var i := Run(EMPTY, steps).invocations[id];
            FromOutput(Outputs(EMPTY, steps), i.key, i.answer.value.value)
  {
    RunKeepsInv(EMPTY, steps);
    RecordsComeFromOutputs(EMPTY, steps, {});
    assert {} + Outputs(EMPTY, steps) == Outputs(EMPTY, steps);
  }
}
