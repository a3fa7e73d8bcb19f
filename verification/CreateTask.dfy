/**
 One run creates at most one Task. Workers of an agent run ask the API to create
 a Task under an idempotency key derived from the run, then attach the Task in
 the answer they got to the run: internal/agent/tools/tools.go over the
 idempotency records and the agent store. Workers crash, lose their leases and
 are replaced; several can be between asking and attaching at once.
 */
module CreateTask {
  import opened Common
  import Idempotency
  import AgentRuns
  import AgentRunProperties

  /** internal/agent/domain.go: one key value per run; the text of the run id is left symbolic. */
  function CreateTaskIdempotencyKey(runText: string): string {
    "agent-run:" + runText + ":create-task:v1"
  }

  /** The record key under which every worker of the run creates its task. */
  function RecordKey(user: Id, run: Id, runText: string): Idempotency.Key {
    Idempotency.Key(user, Idempotency.AgentDelegate, run, "POST", "/api/v1/tasks", CreateTaskIdempotencyKey(runText))
  }

  /** How a client reads the created task out of an answer; None when there is none. */
  type Reader = Idempotency.Response -> Option<(Id, int)>

  datatype System = System(api: Idempotency.State, db: AgentRuns.Tables)

  datatype Step =
    | Api(step: Idempotency.Step)
    | Agent(op: AgentRuns.Op)
    | AttachAnswer(worker: string, request: Id, now: Time)

  /** The answer a request has returned to the worker that made it. */
  function Answer(s: Idempotency.State, request: Id): Option<Idempotency.Response> {
    if request !in s.requests then None
    else
      match s.requests[request].phase
      case Executed(response) => Some(response)
      case Replayed(response) => Some(response)
      case _ => None
  }

  function Next(s: System, run: Id, key: Idempotency.Key, read: Reader, step: Step): System {
    match step
    case Api(step) => s.(api := Idempotency.Next(s.api, step))
    case Agent(op) =>
      if op.OnRun? && op.id == run && op.command.Attach? then s else s.(db := AgentRuns.Apply(s.db, op))
    case AttachAnswer(worker, request, now) =>
      if Answer(s.api, request).None? || s.api.requests[request].key != key then s
      else
        match read(Answer(s.api, request).value)
        case None => s
        case Some((task, number)) =>
          s.(db := AgentRuns.Apply(s.db, AgentRuns.OnRun(run, AgentRuns.Attach(worker, task, number, now))))
  }

  function Run(s: System, run: Id, key: Idempotency.Key, read: Reader, steps: seq<Step>): System
    decreases |steps|
  {
    if steps == [] then s else Run(Next(s, run, key, read, steps[0]), run, key, read, steps[1..])
  }

  predicate AllTimely(s: System, run: Id, key: Idempotency.Key, read: Reader, steps: seq<Step>)
    decreases |steps|
  {
    steps == [] ||
    ((steps[0].Api? ==> Idempotency.Timely(s.api, steps[0].step)) &&
     AllTimely(Next(s, run, key, read, steps[0]), run, key, read, steps[1..]))
  }

  /** The attached task is the one named by an answer stored under the run's key. */
  ghost predicate AttachedFromAnswer(s: System, run: Id, key: Idempotency.Key, read: Reader) {
    run in s.db.runs && s.db.runs[run].taskId.Some? ==>
      s.db.runs[run].taskNumber.Some? &&
      exists p :: p in s.api.requests && s.api.requests[p].key == key && s.api.requests[p].phase.Executed? &&
        read(s.api.requests[p].phase.response) == Some((s.db.runs[run].taskId.value, s.db.runs[run].taskNumber.value))
  }

  ghost predicate Inv(s: System, run: Id, key: Idempotency.Key, read: Reader) {
    Idempotency.Inv(s.api) && AttachedFromAnswer(s, run, key, read)
  }

  lemma ApiStep(s: System, run: Id, key: Idempotency.Key, read: Reader, step: Idempotency.Step)
    requires Inv(s, run, key, read) && Idempotency.Timely(s.api, step)
    ensures Inv(Next(s, run, key, read, Api(step)), run, key, read)
  {
    Idempotency.OneHolderStep(s.api, step);
    Idempotency.HoldersOwnStep(s.api, step);
    Idempotency.AnswersGenuineStep(s.api, step);
    if run in s.db.runs && s.db.runs[run].taskId.Some? {
      var p :| p in s.api.requests && s.api.requests[p].key == key && s.api.requests[p].phase.Executed? &&
               read(s.api.requests[p].phase.response) == Some((s.db.runs[run].taskId.value, s.db.runs[run].taskNumber.value));
      assert Idempotency.Next(s.api, step).requests[p] == s.api.requests[p];
    }
  }

  lemma AgentStep(s: System, run: Id, key: Idempotency.Key, read: Reader, op: AgentRuns.Op)
    requires Inv(s, run, key, read)
    ensures Inv(Next(s, run, key, read, Agent(op)), run, key, read)
  {
    if run in s.db.runs {
      AgentRunProperties.RowsPersist(s.db, op, run);
    }
  }

  lemma AttachStep(s: System, run: Id, key: Idempotency.Key, read: Reader, worker: string, request: Id, now: Time)
    requires Inv(s, run, key, read)
    ensures Inv(Next(s, run, key, read, AttachAnswer(worker, request, now)), run, key, read)
  {
    var t := Next(s, run, key, read, AttachAnswer(worker, request, now));
    if t != s {
      var response := Answer(s.api, request).value;
      var op := AgentRuns.OnRun(run, AgentRuns.Attach(worker, read(response).value.0, read(response).value.1, now));
      if run in s.db.runs {
        AgentRunProperties.RowsPersist(s.db, op, run);
      }
      if s.api.requests[request].phase.Replayed? {
        assert Idempotency.ExecutedAs(s.api, key, s.api.requests[request].hash, response);
      }
    }
  }

  lemma {:induction false} RunKeepsInv(s: System, run: Id, key: Idempotency.Key, read: Reader, steps: seq<Step>)
    requires Inv(s, run, key, read) && AllTimely(s, run, key, read, steps)
    ensures Inv(Run(s, run, key, read, steps), run, key, read)
    decreases |steps|
  {
    if steps != [] {
      match steps[0] {
        case Api(step) => ApiStep(s, run, key, read, step);
        case Agent(op) => AgentStep(s, run, key, read, op);
        case AttachAnswer(worker, request, now) => AttachStep(s, run, key, read, worker, request, now);
      }
      RunKeepsInv(Next(s, run, key, read, steps[0]), run, key, read, steps[1..]);
    }
  }

  function Start(now: Time): System {
    System(Idempotency.Start(now), AgentRuns.EMPTY)
  }

  /** No record made under the key has expired yet. */
  ghost predicate RecordLives(s: System, key: Idempotency.Key) {
    forall p :: p in s.api.requests && s.api.requests[p].key == key && Idempotency.Holder(s.api.requests[p]) ==>
      s.api.clock < Idempotency.ExpiryOf(s.api.requests[p])
  }

  /**
   Across all workers, crashes and reclaims of a run, while its idempotency record
   lives: at most one creation completes with a stored answer, every worker that
   gets an answer gets that one, and the Task attached to the run is the one in it.
   */
  lemma OneTaskPerRun(
    now: Time, user: Id, run: Id, runText: string, read: Reader, steps: seq<Step>, a: Id, b: Id)
    requires AllTimely(Start(now), run, RecordKey(user, run, runText), read, steps)
    requires RecordLives(Run(Start(now), run, RecordKey(user, run, runText), read, steps), RecordKey(user, run, runText))
    requires var key := RecordKey(user, run, runText);
             var s := Run(Start(now), run, key, read, steps);
             Answer(s.api, a).Some? && s.api.requests[a].key == key &&
             Answer(s.api, b).Some? && s.api.requests[b].key == key
    ensures var s := Run(Start(now), run, RecordKey(user, run, runText), read, steps);
            && (s.api.requests[a].phase.Executed? && s.api.requests[b].phase.Executed? ==> a == b)
            && Answer(s.api, a) == Answer(s.api, b)
            && (run in s.db.runs && s.db.runs[run].taskId.Some? ==>
                  s.db.runs[run].taskNumber.Some? &&
                  read(Answer(s.api, a).value) == Some((s.db.runs[run].taskId.value, s.db.runs[run].taskNumber.value)))
  {
    var key := RecordKey(user, run, runText);
    var s := Run(Start(now), run, key, read, steps);
    RunKeepsInv(Start(now), run, key, read, steps);
    var p := Source(s, key, a);
    var q := Source(s, key, b);
    SameSource(s, key, p, q);
    if s.api.requests[a].phase.Executed? && s.api.requests[b].phase.Executed? {
      SameSource(s, key, a, b);
    }
    if run in s.db.runs && s.db.runs[run].taskId.Some? {
      var t :| t in s.api.requests && s.api.requests[t].key == key && s.api.requests[t].phase.Executed? &&
               read(s.api.requests[t].phase.response) == Some((s.db.runs[run].taskId.value, s.db.runs[run].taskNumber.value));
      SameSource(s, key, p, t);
    }
  }

  /** The request that executed to the answer a request got. */
  lemma Source(s: System, key: Idempotency.Key, a: Id) returns (p: Id)
    requires Idempotency.Inv(s.api) && Answer(s.api, a).Some? && s.api.requests[a].key == key
    ensures p in s.api.requests && s.api.requests[p].key == key
    ensures s.api.requests[p].phase == Idempotency.Executed(Answer(s.api, a).value)
  {
    if s.api.requests[a].phase.Executed? {
      p := a;
    } else {
      var response, hash := Answer(s.api, a).value, s.api.requests[a].hash;
      assert Idempotency.ExecutedAs(s.api, key, hash, response);
      p :| p in s.api.requests && s.api.requests[p].key == key && s.api.requests[p].hash == hash &&
           s.api.requests[p].phase == Idempotency.Executed(response);
    }
  }

  lemma SameSource(s: System, key: Idempotency.Key, p: Id, q: Id)
    requires Idempotency.Inv(s.api) && RecordLives(s, key)
    requires p in s.api.requests && s.api.requests[p].key == key && s.api.requests[p].phase.Executed?
    requires q in s.api.requests && s.api.requests[q].key == key && s.api.requests[q].phase.Executed?
    ensures p == q
  {
    var x, y := s.api.requests[p], s.api.requests[q];
    assert p == q || Idempotency.Apart(x, y);
  }

  /** A worker that holds the run and has an answer attaches the Task in it, if none is attached anywhere. */
  lemma AnswerIsAttached(
    s: System, run: Id, key: Idempotency.Key, read: Reader, worker: string, request: Id, now: Time)
    requires Answer(s.api, request).Some? && s.api.requests[request].key == key
    requires read(Answer(s.api, request).value).Some?
    requires run in s.db.runs && s.db.runs[run].status.Running? && s.db.runs[run].leaseOwner == Some(worker)
    requires s.db.runs[run].taskId.None?
    requires var (task, number) := read(Answer(s.api, request).value).value;
             forall o :: o in s.db.runs && o != run ==>
               s.db.runs[o].taskId != Some(task) && s.db.runs[o].taskNumber != Some(number)
    ensures var t := Next(s, run, key, read, AttachAnswer(worker, request, now));
            && run in t.db.runs
            && t.db.runs[run].taskId == Some(read(Answer(s.api, request).value).value.0)
            && t.db.runs[run].taskNumber == Some(read(Answer(s.api, request).value).value.1)
  {
  }

  /** Runs never share a record: the key differs in the run, and in the text of its id. */
  lemma RunsHaveTheirOwnKeys(user: Id, other: Id, run: Id, otherRun: Id, text: string, otherText: string)
    ensures RecordKey(user, run, text) == RecordKey(other, otherRun, otherText) <==>
              user == other && run == otherRun && text == otherText
    ensures RecordKey(user, run, text).value == "agent-run:" + text + ":create-task:v1"
  {
    var a, b := "agent-run:" + text + ":create-task:v1", "agent-run:" + otherText + ":create-task:v1";
    if a == b {
      assert |text| == |otherText|;
      assert a[10..10 + |text|] == text && b[10..10 + |text|] == otherText;
    }
  }
}
