/**
 The transactions that pair a Task's lifecycle, Claims, Issues, delivery items and
 acceptance checks: internal/store/task_workflow_store.go,
 internal/store/task_claim_commands.go, the criterion and check writes of
 internal/store/acceptance_store.go and archiving in internal/store/task_store.go.

 The tables of one Task; Claims and Issues are numbered in the order they were made.
 */
module TaskWorkflow {
  import opened Common
  import opened TaskDomain

  datatype TaskRow = TaskRow(version: int, lifecycle: Lifecycle, activeIssue: Option<nat>, archived: bool)

  datatype ItemKind = Progress | WorkSubmission | Completion

  /** A delivery item of the Main Thread: the Claim it was made under and the review cycle it is tagged with. */
  datatype Item = Item(kind: ItemKind, claim: nat, cycle: int)

  datatype Tables = Tables(
    task: TaskRow, claims: seq<Claim>, issues: seq<Issue>,
    criteria: map<Id, Criterion>, checks: seq<Check>, items: seq<Item>)

  /** What a caller presents to act on a Claim. */
  datatype ClaimRef = ClaimRef(claim: nat, taskVersion: int, claimVersion: int, actor: Id)

  /** The first active Claim at or after `from`. */
  function ActiveFrom(claims: seq<Claim>, from: nat): (r: Option<nat>)
    requires from <= |claims|
    ensures r.Some? ==> from <= r.value < |claims| && claims[r.value].status.Active?
    ensures r.None? ==> forall k :: from <= k < |claims| ==> !claims[k].status.Active?
    decreases |claims| - from
  {
    if from == |claims| then None
    else if claims[from].status.Active? then Some(from)
    else ActiveFrom(claims, from + 1)
  }

  function ActiveClaimOf(db: Tables): (r: Option<nat>)
    ensures r.Some? ==> r.value < |db.claims| && db.claims[r.value].status.Active?
    ensures r.None? ==> forall k :: 0 <= k < |db.claims| ==> !db.claims[k].status.Active?
  {
    ActiveFrom(db.claims, 0)
  }

  function OwnedClaim(db: Tables, ref: ClaimRef): (r: Result<nat, WorkflowError>)
    ensures r.Ok? ==> r.value < |db.claims| && db.claims[r.value].status.Active? && r.value == ref.claim
  {
    if db.task.version != ref.taskVersion then Err(VersionConflict(db.task.version))
    else
      var active := ActiveClaimOf(db);
      if active.None? then Err(Conflict)
      else if active.value != ref.claim || db.claims[active.value].version != ref.claimVersion then Err(Conflict)
      else if db.claims[active.value].owner != ref.actor then Err(Forbidden)
      else Ok(active.value)
  }

  /** The Task row as a command leaves it: the lifecycle must be valid and the version moves on. */
  function Persisted(task: TaskRow, lifecycle: Lifecycle, activeIssue: Option<nat>): Result<TaskRow, WorkflowError> {
    if !lifecycle.Valid() then Err(InvalidInput)
    else Ok(TaskRow(task.version + 1, lifecycle, activeIssue, task.archived))
  }

  /** Moving the lifecycle and finishing Claim `k`, both or neither. */
  function Finished(
    db: Tables, k: nat, moved: Result<Lifecycle, WorkflowError>, outcome: ClaimOutcome, activeIssue: Option<nat>)
    : Result<Tables, WorkflowError>
    requires k < |db.claims|
  {
    if moved.Err? then Err(moved.error)
    else
      var claim := db.claims[k].Complete(outcome);
      if claim.Err? then Err(claim.error)
      else
        var row := Persisted(db.task, moved.value, activeIssue);
        if row.Err? then Err(row.error)
        else Ok(db.(task := row.value, claims := db.claims[k := claim.value]))
  }

  /** What a completion delivers of one code change; whether the rest of it is valid is told by `valid`. */
  datatype Snapshot = Snapshot(change: Id, valid: bool)

  function SnapshotRefusal(presented: seq<Snapshot>): Option<WorkflowError> {
    if presented == [] then None
    else
      var earlier, last := presented[..|presented| - 1], presented[|presented| - 1];
      if SnapshotRefusal(earlier).Some? then SnapshotRefusal(earlier)
      else if !last.valid || last.change in Changes(earlier) then Some(InvalidInput)
      else None
  }

  function Changes(presented: seq<Snapshot>): set<Id> {
    set i | 0 <= i < |presented| :: presented[i].change
  }

  /** Why a delivery is refused, given the Task's active code changes. */
  function DeliveryRefusal(active: set<Id>, presented: seq<Snapshot>): Option<WorkflowError> {
    if |active| != |presented| then Some(Conflict)
    else if SnapshotRefusal(presented).Some? then SnapshotRefusal(presented)
    else if !(active <= Changes(presented)) then Some(Conflict)
    else None
  }

  /** Exactly the active code changes are delivered, each once and validly. */
  predicate DeliversExactly(active: set<Id>, presented: seq<Snapshot>) {
    && Changes(presented) == active
    && (forall i :: 0 <= i < |presented| ==> presented[i].valid)
    && (forall i, j :: 0 <= i < j < |presented| ==> presented[i].change != presented[j].change)
  }

  lemma {:induction false} SnapshotsAccepted(presented: seq<Snapshot>)
    ensures SnapshotRefusal(presented).None? <==>
              && (forall i :: 0 <= i < |presented| ==> presented[i].valid)
              && (forall i, j :: 0 <= i < j < |presented| ==> presented[i].change != presented[j].change)
    ensures SnapshotRefusal(presented).None? ==> |Changes(presented)| == |presented|
  {
    if presented != [] {
      var earlier, last := presented[..|presented| - 1], presented[|presented| - 1];
      SnapshotsAccepted(earlier);
      assert Changes(presented) == Changes(earlier) + {last.change};
      if !(last.valid && last.change !in Changes(earlier)) && last.valid {
        var i :| 0 <= i < |earlier| && earlier[i].change == last.change;
        assert presented[i].change == presented[|presented| - 1].change;
      }
    }
  }

  lemma EqualSizeSubset(a: set<Id>, b: set<Id>)
    requires a <= b && |a| == |b|
    ensures a == b
  {
    assert |b - a| == |b| - |a|;
  }

  /** A delivery is accepted exactly when it is of the active code changes, each once and validly. */
  lemma DeliveryAcceptedIff(active: set<Id>, presented: seq<Snapshot>)
    ensures DeliveryRefusal(active, presented).None? <==> DeliversExactly(active, presented)
  {
    SnapshotsAccepted(presented);
    if DeliveryRefusal(active, presented).None? {
      EqualSizeSubset(active, Changes(presented));
    }
  }

  predicate Due(db: Tables, now: Time) {
    && db.task.lifecycle.activity.Working?
    && ActiveClaimOf(db).Some?
    && db.claims[ActiveClaimOf(db).value].expiresAt <= now
  }

  function CycleOffset(stage: Stage): int {
    if stage.Execution? then 1 else 0
  }

  predicate Counts(db: Tables, check: Check) {
    && check.criterion in db.criteria
    && !db.criteria[check.criterion].archived
    && check.revision == db.criteria[check.criterion].revision
    && check.SatisfiesTaskReview(db.task.lifecycle.reviewCycle)
  }

  /** Criterion `id` has a check that counts in this review cycle. */
  predicate Satisfied(db: Tables, id: Id) {
    exists i :: 0 <= i < |db.checks| && db.checks[i].criterion == id && Counts(db, db.checks[i])
  }

  function ReadinessOf(db: Tables, children: nat, dependencies: nat): Readiness {
    var active := set id | id in db.criteria && !db.criteria[id].archived;
    Readiness(|active|, |set id | id in active && !Satisfied(db, id)|, children, dependencies)
  }

  // ---------------------------------------------------------------- commands

  /**
   `unfinishedDependencies`, `children`, `dependencies` and `active` are what the
   command's queries over other Tasks and over code changes report; `knownType` tells
   whether the Issue type asked for is one of the two. `Touch` is any other writer of the Task row,
   such as a new comment, which only advances its version.
   */
  datatype Op =
    | MarkReady(expected: int, unfinishedDependencies: bool)
    | WithdrawReadiness(expected: int, reason: string)
    | ClaimTask(expected: int, owner: Id, now: Time)
    | ExpireDueClaim(now: Time)
    | ReleaseClaim(ref: ClaimRef, body: string)
    | SubmitWork(ref: ClaimRef, body: string)
    | CompleteExecution(ref: ClaimRef, body: string, active: set<Id>, presented: seq<Snapshot>)
    | RequestChanges(ref: ClaimRef, body: string)
    | RequestResolution(ref: ClaimRef, body: string, knownType: bool)
    | ResolveIssue(expected: int, issue: nat, issueVersion: int, body: string)
    | RecordCheck(ref: ClaimRef, criterion: Id, revision: int, outcome: CheckOutcome, evidence: string)
    | AcceptTask(ref: ClaimRef, body: string, children: nat, dependencies: nat)
    | CancelTask(expected: int, reason: string)
    | RecordProgress(claim: nat, body: string, actor: Id)
    | SetArchived(expectedVersion: Option<int>, archived: bool)
    | AddCriterion(id: Id, text: string, instructions: string)
    | EditCriterion(id: Id, text: string, instructions: string)
    | RemoveCriterion(id: Id)
    | AddPlainCheck(criterion: Id, revision: int, outcome: CheckOutcome, evidence: string)
    | Touch

  /** The due Claim expires and the Task becomes available again; the Task version is left to the caller. */
  function WithDueClaimExpired(db: Tables, now: Time): Result<Tables, WorkflowError> {
    if !db.task.lifecycle.activity.Working? then Ok(db)
    else
      var active := ActiveClaimOf(db);
      if active.None? then Err(Conflict)
      else
        var claim := db.claims[active.value];
        if claim.expiresAt > now then Ok(db)
        else
          var ended := claim.Complete(DeadlineElapsed);
          if ended.Err? then Err(ended.error)
          else
            var freed := db.task.lifecycle.Release(claim.stage);
            if freed.Err? then Err(freed.error)
            else Ok(db.(task := db.task.(lifecycle := freed.value), claims := db.claims[active.value := ended.value]))
  }

  function Moved(db: Tables, expected: int, moved: Result<Lifecycle, WorkflowError>): Result<Tables, WorkflowError> {
    if db.task.version != expected then Err(VersionConflict(db.task.version))
    else if moved.Err? then Err(moved.error)
    else
      var row := Persisted(db.task, moved.value, db.task.activeIssue);
      if row.Err? then Err(row.error) else Ok(db.(task := row.value))
  }

  function Claimed(db: Tables, expected: int, owner: Id, now: Time): Result<Tables, WorkflowError> {
    if db.task.version != expected then Err(VersionConflict(db.task.version))
    else
      var freed := WithDueClaimExpired(db, now);
      if freed.Err? then Err(freed.error)
      else
        var granted := freed.value.task.lifecycle.Claim(db.task.archived);
        if granted.Err? then Err(granted.error)
        else
          var row := Persisted(db.task, granted.value.0, db.task.activeIssue);
          if row.Err? then Err(row.error)
          else Ok(freed.value.(task := row.value,
                                claims := freed.value.claims + [NewClaim(granted.value.1, owner, now)]))
  }

  function DueExpired(db: Tables, now: Time): Result<Tables, WorkflowError> {
    if !db.task.lifecycle.activity.Working? then Ok(db)
    else
      var freed := WithDueClaimExpired(db, now);
      if freed.Err? then Err(freed.error)
      else if freed.value.task.lifecycle.activity.Working? then Ok(db)
      else
        var row := Persisted(db.task, freed.value.task.lifecycle, db.task.activeIssue);
        if row.Err? then Err(row.error) else Ok(freed.value.(task := row.value))
  }

  function WorkSubmitted(db: Tables, ref: ClaimRef): Result<Tables, WorkflowError> {
    var owned := OwnedClaim(db, ref);
    if owned.Err? then Err(owned.error)
    else if !(db.task.lifecycle.phase.InProgress? && db.task.lifecycle.activity.Working?
              && db.claims[owned.value].stage.Execution?) then Err(Conflict)
    else Ok(db.(items := db.items + [Item(WorkSubmission, owned.value, db.task.lifecycle.reviewCycle + 1)]))
  }

  function ExecutionDelivered(db: Tables, ref: ClaimRef, active: set<Id>, presented: seq<Snapshot>)
    : Result<Tables, WorkflowError>
  {
    var owned := OwnedClaim(db, ref);
    if owned.Err? then Err(owned.error)
    else if db.task.lifecycle.CompleteExecution().Err? then Err(db.task.lifecycle.CompleteExecution().error)
    else if DeliveryRefusal(active, presented).Some? then Err(DeliveryRefusal(active, presented).value)
    else
      var done := Finished(db, owned.value, db.task.lifecycle.CompleteExecution(), ExecutionCompleted, db.task.activeIssue);
      if done.Err? then Err(done.error)
      else Ok(done.value.(items := db.items + [Item(Completion, owned.value, done.value.task.lifecycle.reviewCycle)]))
  }

  function ResolutionRequested(db: Tables, ref: ClaimRef): Result<Tables, WorkflowError> {
    var owned := OwnedClaim(db, ref);
    if owned.Err? then Err(owned.error)
    else
      var issue := NewIssue(db.task.lifecycle.phase);
      if issue.Err? then Err(issue.error)
      else
        var stopped := Finished(db, owned.value, db.task.lifecycle.RequestResolution(db.claims[owned.value].stage),
                                ResolutionNeeded, Some(|db.issues|));
        if stopped.Err? then Err(stopped.error) else Ok(stopped.value.(issues := db.issues + [issue.value]))
  }

  function IssueResolved(db: Tables, expected: int, issue: nat, issueVersion: int): Result<Tables, WorkflowError> {
    if db.task.version != expected then Err(VersionConflict(db.task.version))
    else if db.task.activeIssue != Some(issue) then Err(Conflict)
    else if issue >= |db.issues| then Err(NotFound)
    else if db.issues[issue].version != issueVersion || db.issues[issue].openedFrom != db.task.lifecycle.phase
    then Err(Conflict)
    else
      var resolved := db.issues[issue].Resolve();
      if resolved.Err? then Err(resolved.error)
      else
        var moved := db.task.lifecycle.ResolveIssue();
        if moved.Err? then Err(moved.error)
        else
          var row := Persisted(db.task, moved.value, None);
          if row.Err? then Err(row.error)
          else Ok(db.(task := row.value, issues := db.issues[issue := resolved.value]))
  }

  function CheckRecorded(db: Tables, ref: ClaimRef, criterion: Id, revision: int, outcome: CheckOutcome, evidence: string)
    : Result<Tables, WorkflowError>
  {
    if db.task.version != ref.taskVersion then Err(VersionConflict(db.task.version))
    else if !db.task.lifecycle.activity.Working? then Err(Conflict)
    else
      var owned := OwnedClaim(db, ref);
      if owned.Err? then Err(owned.error)
      else if criterion !in db.criteria || db.criteria[criterion].archived then Err(NotFound)
      else if revision != db.criteria[criterion].revision then Err(Conflict)
      else if Blank(evidence) then Err(InvalidInput)
      else if db.task.lifecycle.reviewCycle < 0 then Err(Conflict)
      else Ok(db.(checks := db.checks + [
                    Check(criterion, revision, outcome, CheckPurpose(db.claims[owned.value].stage),
                          Some(owned.value), Some(db.task.lifecycle.reviewCycle))]))
  }

  function Accepted(db: Tables, ref: ClaimRef, children: nat, dependencies: nat): Result<Tables, WorkflowError> {
    var owned := OwnedClaim(db, ref);
    if owned.Err? then Err(owned.error)
    else
      Finished(db, owned.value, db.task.lifecycle.Accept(ReadinessOf(db, children, dependencies)),
               TaskAccepted, db.task.activeIssue)
  }

  function CancelledTask(db: Tables, expected: int): Result<Tables, WorkflowError> {
    if db.task.version != expected then Err(VersionConflict(db.task.version))
    else if db.task.lifecycle.activity.Working? then
      var active := ActiveClaimOf(db);
      if active.None? then Err(Conflict)
      else
        var ended := db.claims[active.value].Complete(TaskCancelled);
        if ended.Err? then Err(ended.error)
        else Moved(db.(claims := db.claims[active.value := ended.value]), expected, db.task.lifecycle.Cancel())
    else if db.task.lifecycle.activity.NeedsResolution? then
      if db.task.activeIssue.None? then Err(Conflict)
      else if db.task.activeIssue.value >= |db.issues| then Err(NotFound)
      else
        var resolved := db.issues[db.task.activeIssue.value].Resolve();
        if resolved.Err? then Err(resolved.error)
        else Moved(db.(task := db.task.(activeIssue := None),
                       issues := db.issues[db.task.activeIssue.value := resolved.value]),
                   expected, db.task.lifecycle.Cancel())
    else Moved(db, expected, db.task.lifecycle.Cancel())
  }

  function ProgressRecorded(db: Tables, claim: nat, actor: Id): Result<Tables, WorkflowError> {
    var active := ActiveClaimOf(db);
    if active.None? || active.value != claim then Err(Conflict)
    else if db.claims[claim].owner != actor then Err(Forbidden)
    else if !db.task.lifecycle.activity.Working? then Err(Conflict)
    else
      var tag := db.task.lifecycle.reviewCycle + CycleOffset(db.claims[claim].stage);
      if tag < 1 then Err(InvalidInput) else Ok(db.(items := db.items + [Item(Progress, claim, tag)]))
  }

  function ArchivedSet(db: Tables, expected: Option<int>, archived: bool): Result<Tables, WorkflowError> {
    if expected.Some? && db.task.version != expected.value then Err(VersionConflict(db.task.version))
    else if archived && !db.task.archived
            && (db.task.lifecycle.activity.Working? || db.task.lifecycle.activity.NeedsResolution?) then Err(Conflict)
    else Ok(db.(task := db.task.(archived := archived, version := db.task.version + 1)))
  }

  function CriterionAdded(db: Tables, id: Id, text: string, instructions: string): Result<Tables, WorkflowError> {
    var criterion := Criterion(text, instructions, 1, false);
    if !criterion.Valid() then Err(InvalidInput)
    else if id in db.criteria then Err(Conflict)
    else Ok(db.(criteria := db.criteria[id := criterion]))
  }

  function CriterionEdited(db: Tables, id: Id, text: string, instructions: string): Result<Tables, WorkflowError> {
    if id !in db.criteria then Err(NotFound)
    else
      var edited := db.criteria[id].Edit(text, instructions);
      if !edited.Valid() then Err(InvalidInput) else Ok(db.(criteria := db.criteria[id := edited]))
  }

  /** A criterion with checks is archived, one without is deleted. */
  function CriterionRemoved(db: Tables, id: Id): Result<Tables, WorkflowError> {
    if id !in db.criteria || db.criteria[id].archived then Err(NotFound)
    else if exists i :: 0 <= i < |db.checks| && db.checks[i].criterion == id
    then Ok(db.(criteria := db.criteria[id := db.criteria[id].(archived := true)]))
    else Ok(db.(criteria := db.criteria - {id}))
  }

  function PlainCheckAdded(db: Tables, criterion: Id, revision: int, outcome: CheckOutcome, evidence: string)
    : Result<Tables, WorkflowError>
  {
    if criterion !in db.criteria then Err(NotFound)
    else if revision != db.criteria[criterion].revision then Err(Conflict)
    else if Blank(evidence) then Err(InvalidInput)
    else Ok(db.(checks := db.checks + [Check(criterion, revision, outcome, Unstated, None, None)]))
  }

  function NeedsText(text: string, rest: Result<Tables, WorkflowError>): Result<Tables, WorkflowError> {
    if Blank(text) then Err(InvalidInput) else rest
  }

  function FinishedBy(db: Tables, ref: ClaimRef, outcome: ClaimOutcome): Result<Tables, WorkflowError>
    requires outcome.VoluntarilyReleased? || outcome.ChangesRequested?
  {
    var owned := OwnedClaim(db, ref);
    if owned.Err? then Err(owned.error)
    else
      var moved := if outcome.ChangesRequested? then db.task.lifecycle.RequestChanges()
                   else db.task.lifecycle.Release(db.claims[owned.value].stage);
      Finished(db, owned.value, moved, outcome, db.task.activeIssue)
  }

  function Apply(db: Tables, op: Op): Result<Tables, WorkflowError> {
    match op
    case MarkReady(expected, unfinished) =>
      Moved(db, expected, db.task.lifecycle.MarkReady(db.task.archived, unfinished))
    case WithdrawReadiness(expected, reason) =>
      NeedsText(reason, Moved(db, expected, db.task.lifecycle.WithdrawReadiness()))
    case ClaimTask(expected, owner, now) => Claimed(db, expected, owner, now)
    case ExpireDueClaim(now) => DueExpired(db, now)
    case ReleaseClaim(ref, body) => NeedsText(body, FinishedBy(db, ref, VoluntarilyReleased))
    case SubmitWork(ref, body) => NeedsText(body, WorkSubmitted(db, ref))
    case CompleteExecution(ref, body, active, presented) =>
      NeedsText(body, ExecutionDelivered(db, ref, active, presented))
    case RequestChanges(ref, body) => NeedsText(body, FinishedBy(db, ref, ChangesRequested))
    case RequestResolution(ref, body, knownType) =>
      if !knownType then Err(WrongIssueType) else NeedsText(body, ResolutionRequested(db, ref))
    case ResolveIssue(expected, issue, version, body) => NeedsText(body, IssueResolved(db, expected, issue, version))
    case RecordCheck(ref, criterion, revision, outcome, evidence) =>
      CheckRecorded(db, ref, criterion, revision, outcome, evidence)
    case AcceptTask(ref, body, children, dependencies) => NeedsText(body, Accepted(db, ref, children, dependencies))
    case CancelTask(expected, reason) => NeedsText(reason, CancelledTask(db, expected))
    case RecordProgress(claim, body, actor) => NeedsText(body, ProgressRecorded(db, claim, actor))
    case SetArchived(expected, archived) => ArchivedSet(db, expected, archived)
    case AddCriterion(id, text, instructions) => CriterionAdded(db, id, text, instructions)
    case EditCriterion(id, text, instructions) => CriterionEdited(db, id, text, instructions)
    case RemoveCriterion(id) => CriterionRemoved(db, id)
    case AddPlainCheck(criterion, revision, outcome, evidence) =>
      PlainCheckAdded(db, criterion, revision, outcome, evidence)
    case Touch => Ok(db.(task := db.task.(version := db.task.version + 1)))
  }

  /** A refused command leaves every table as it was. */
  function Next(db: Tables, op: Op): Tables {
    var r := Apply(db, op);
    if r.Ok? then r.value else db
  }

  function Run(db: Tables, ops: seq<Op>): Tables
    decreases |ops|
  {
    if ops == [] then db else Run(Next(db, ops[0]), ops[1..])
  }

  predicate DueClaim(db: Tables, claim: nat, now: Time) {
    claim < |db.claims| && db.claims[claim].status.Active? && db.claims[claim].expiresAt <= now
  }

  /** The tables once a command has resolved the Claim it targets: a due Claim expires first. */
  function Targeted(db: Tables, claim: nat, now: Time): Tables {
    if DueClaim(db, claim, now) then Next(db, ExpireDueClaim(now)) else db
  }

  /** What the command is told of the Claim it targets: only an active one before its deadline will do. */
  function TargetOutcome(db: Tables, claim: nat, now: Time): Result<Claim, WorkflowError> {
    if claim >= |db.claims| then Err(NotFound)
    else if DueClaim(db, claim, now) then
      match Apply(db, ExpireDueClaim(now))
      case Err(error) => Err(error)
      case Ok(next) => if next != db then Err(Conflict) else Ok(db.claims[claim])
    else if !db.claims[claim].status.Active? then Err(Conflict)
    else Ok(db.claims[claim])
  }

  function NewTask(): Tables {
    Tables(TaskRow(1, Lifecycle(Backlog, Idle, 0), None, false), [], [], map[], [], [])
  }
}
