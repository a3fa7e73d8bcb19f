/**
 The Task workflow store as the transactions run: rows are read into records, the
 records are changed in place by the domain methods, and the changed rows are
 written back together at commit.
 */
module TaskWorkflowStorage {
  import opened Common
  import opened TaskDomain
  import opened TaskWorkflow

  /** A refusal among the first snapshots is the refusal of them all. */
  lemma {:induction false} RefusedSoFar(presented: seq<Snapshot>, k: nat)
    requires k <= |presented| && SnapshotRefusal(presented[..k]).Some?
    ensures SnapshotRefusal(presented) == SnapshotRefusal(presented[..k])
    decreases |presented|
  {
    if k < |presented| {
      var earlier := presented[..|presented| - 1];
      assert earlier[..k] == presented[..k];
      RefusedSoFar(earlier, k);
    } else {
      assert presented[..k] == presented;
    }
  }

  class TaskWorkflowStore {
    var task: TaskRow
    var claims: seq<Claim>
    var issues: seq<Issue>
    var criteria: map<Id, Criterion>
    var checks: seq<Check>
    var items: seq<Item>

    function Rows(): Tables
      reads this
    {
      Tables(task, claims, issues, criteria, checks, items)
    }

    constructor ()
      ensures Rows() == NewTask()
    {
      task, claims, issues := TaskRow(1, Lifecycle(Backlog, Idle, 0), None, false), [], [];
      criteria, checks, items := map[], [], [];
    }

    /** The row to write, refused when the lifecycle is not valid. */
    method PersistTask(lifecycle: Lifecycle, activeIssue: Option<nat>) returns (row: Result<TaskRow, WorkflowError>)
      ensures row == Persisted(task, lifecycle, activeIssue)
    {
      if !lifecycle.Valid() {
        return Err(InvalidInput);
      }
      row := Ok(TaskRow(task.version + 1, lifecycle, activeIssue, task.archived));
    }

    method MarkReady(expected: int, unfinishedDependencies: bool) returns (refusal: Option<WorkflowError>)
      modifies this
      ensures Took(old(Rows()), Apply(old(Rows()), Op.MarkReady(expected, unfinishedDependencies)), Rows(), refusal)
    {
      if task.version != expected {
        return Some(VersionConflict(task.version));
      }
      var lifecycle := new TaskLifecycle(task.lifecycle);
      refusal := lifecycle.MarkReady(task.archived, unfinishedDependencies);
      if refusal != None {
        return;
      }
      var row := PersistTask(lifecycle.Value(), task.activeIssue);
      if row.Err? {
        return Some(row.error);
      }
      task := row.value;
    }

    method WithdrawReadiness(expected: int, reason: string) returns (refusal: Option<WorkflowError>)
      modifies this
      ensures Took(old(Rows()), Apply(old(Rows()), Op.WithdrawReadiness(expected, reason)), Rows(), refusal)
    {
      if Blank(reason) {
        return Some(InvalidInput);
      }
      if task.version != expected {
        return Some(VersionConflict(task.version));
      }
      var lifecycle := new TaskLifecycle(task.lifecycle);
      refusal := lifecycle.WithdrawReadiness();
      if refusal != None {
        return;
      }
      var row := PersistTask(lifecycle.Value(), task.activeIssue);
      if row.Err? {
        return Some(row.error);
      }
      task := row.value;
    }

    /** The rows after expiring a due Claim; nothing is committed here. */
    method ExpireDueWorkflowClaim(now: Time) returns (r: Result<Tables, WorkflowError>)
      ensures r == WithDueClaimExpired(Rows(), now)
    {
      if task.lifecycle.activity != Working {
        return Ok(Rows());
      }
      var active := ActiveClaimOf(Rows());
      if active == None {
        return Err(Conflict);
      }
      var claim := new TaskStageClaim(claims[active.value]);
      if claim.expiresAt > now {
        return Ok(Rows());
      }
      var refusal := claim.Complete(DeadlineElapsed);
      if refusal != None {
        return Err(refusal.value);
      }
      var lifecycle := new TaskLifecycle(task.lifecycle);
      refusal := lifecycle.Release(claim.stage);
      if refusal != None {
        return Err(refusal.value);
      }
      r := Ok(Rows().(task := task.(lifecycle := lifecycle.Value()), claims := claims[active.value := claim.Value()]));
    }

    method Claim(expected: int, owner: Id, now: Time) returns (refusal: Option<WorkflowError>)
      modifies this
      ensures Took(old(Rows()), Apply(old(Rows()), ClaimTask(expected, owner, now)), Rows(), refusal)
    {
      if task.version != expected {
        return Some(VersionConflict(task.version));
      }
      var freed := ExpireDueWorkflowClaim(now);
      if freed.Err? {
        return Some(freed.error);
      }
      var lifecycle := new TaskLifecycle(freed.value.task.lifecycle);
      var stage := lifecycle.Claim(task.archived);
      if stage.Err? {
        return Some(stage.error);
      }
      var row := PersistTask(lifecycle.Value(), task.activeIssue);
      if row.Err? {
        return Some(row.error);
      }
      claims := freed.value.claims + [NewClaim(stage.value, owner, now)];
      task := row.value;
      refusal := None;
    }

    /** Reports whether a Claim was due. */
    method ExpireDueClaim(now: Time) returns (expired: Result<bool, WorkflowError>)
      modifies this
      ensures match Apply(old(Rows()), Op.ExpireDueClaim(now))
              case Ok(next) => Rows() == next && expired == Ok(next != old(Rows()))
              case Err(error) => Rows() == old(Rows()) && expired == Err(error)
    {
      if task.lifecycle.activity != Working {
        return Ok(false);
      }
      var freed := ExpireDueWorkflowClaim(now);
      if freed.Err? {
        return Err(freed.error);
      }
      if freed.value.task.lifecycle.activity == task.lifecycle.activity {
        return Ok(false);
      }
      var row := PersistTask(freed.value.task.lifecycle, task.activeIssue);
      if row.Err? {
        return Err(row.error);
      }
      claims := freed.value.claims;
      task := row.value;
      expired := Ok(true);
    }

    /** Resolves a Claim before a command on it: a due Claim is expired and refused. */
    method ClaimCommandTarget(claim: nat, now: Time) returns (r: Result<Claim, WorkflowError>)
      modifies this
      ensures Rows() == Targeted(old(Rows()), claim, now)
      ensures r == TargetOutcome(old(Rows()), claim, now)
    {
      if claim >= |claims| {
        return Err(NotFound);
      }
      if claims[claim].status == Active && claims[claim].expiresAt <= now {
        var expired := ExpireDueClaim(now);
        if expired.Err? {
          return Err(expired.error);
        }
        if expired.value {
          return Err(Conflict);
        }
      }
      if claims[claim].status != Active {
        return Err(Conflict);
      }
      r := Ok(claims[claim]);
    }

    /** Locks the Claim a caller holds, checking versions and ownership. */
    method LockOwnedClaim(ref: ClaimRef) returns (r: Result<nat, WorkflowError>)
      ensures r == OwnedClaim(Rows(), ref)
    {
      if task.version != ref.taskVersion {
        return Err(VersionConflict(task.version));
      }
      var active := ActiveClaimOf(Rows());
      if active == None {
        return Err(Conflict);
      }
      if active.value != ref.claim || claims[active.value].version != ref.claimVersion {
        return Err(Conflict);
      }
      if claims[active.value].owner != ref.actor {
        return Err(Forbidden);
      }
      r := Ok(active.value);
    }

    /** Finishes Claim `k` and moves the Task, together. */
    method CommitFinish(k: nat, lifecycle: Lifecycle, outcome: ClaimOutcome, activeIssue: Option<nat>)
      returns (refusal: Option<WorkflowError>)
      requires k < |claims|
      modifies this`task, this`claims
      ensures Took(old(Rows()), Finished(old(Rows()), k, Ok(lifecycle), outcome, activeIssue), Rows(), refusal)
    {
      var claim := new TaskStageClaim(claims[k]);
      refusal := claim.Complete(outcome);
      if refusal != None {
        return;
      }
      var row := PersistTask(lifecycle, activeIssue);
      if row.Err? {
        return Some(row.error);
      }
      claims := claims[k := claim.Value()];
      task := row.value;
    }

    method ReleaseClaim(ref: ClaimRef, handoff: string) returns (refusal: Option<WorkflowError>)
      modifies this
      ensures Took(old(Rows()), Apply(old(Rows()), Op.ReleaseClaim(ref, handoff)), Rows(), refusal)
    {
      if Blank(handoff) {
        return Some(InvalidInput);
      }
      var owned := LockOwnedClaim(ref);
      if owned.Err? {
        return Some(owned.error);
      }
      var lifecycle := new TaskLifecycle(task.lifecycle);
      refusal := lifecycle.Release(claims[owned.value].stage);
      if refusal == None {
        refusal := CommitFinish(owned.value, lifecycle.Value(), VoluntarilyReleased, task.activeIssue);
      }
    }

    method RequestChanges(ref: ClaimRef, reason: string) returns (refusal: Option<WorkflowError>)
      modifies this
      ensures Took(old(Rows()), Apply(old(Rows()), Op.RequestChanges(ref, reason)), Rows(), refusal)
    {
      if Blank(reason) {
        return Some(InvalidInput);
      }
      var owned := LockOwnedClaim(ref);
      if owned.Err? {
        return Some(owned.error);
      }
      var lifecycle := new TaskLifecycle(task.lifecycle);
      refusal := lifecycle.RequestChanges();
      if refusal == None {
        refusal := CommitFinish(owned.value, lifecycle.Value(), ChangesRequested, task.activeIssue);
      }
    }

    method RecordWorkSubmission(ref: ClaimRef, summary: string) returns (refusal: Option<WorkflowError>)
      modifies this`items
      ensures Took(old(Rows()), Apply(old(Rows()), SubmitWork(ref, summary)), Rows(), refusal)
    {
      if Blank(summary) {
        return Some(InvalidInput);
      }
      var owned := LockOwnedClaim(ref);
      if owned.Err? {
        return Some(owned.error);
      }
      if task.lifecycle.phase != InProgress || task.lifecycle.activity != Working || claims[owned.value].stage != Execution {
        return Some(Conflict);
      }
      var cycle := task.lifecycle.reviewCycle + 1;
      items := items + [Item(WorkSubmission, owned.value, cycle)];
      refusal := None;
    }

    /** Compares the delivered snapshots with the active code changes. */
    method CheckDelivery(active: set<Id>, presented: seq<Snapshot>) returns (refusal: Option<WorkflowError>)
      ensures refusal == DeliveryRefusal(active, presented)
    {
      if |active| != |presented| {
        return Some(Conflict);
      }
      var prepared: set<Id> := {};
      for i := 0 to |presented|
        invariant SnapshotRefusal(presented[..i]) == None
        invariant prepared == Changes(presented[..i])
      {
        assert presented[..i + 1][..i] == presented[..i];
        if !presented[i].valid || presented[i].change in prepared {
          RefusedSoFar(presented, i + 1);
          return Some(InvalidInput);
        }
        assert Changes(presented[..i + 1]) == Changes(presented[..i]) + {presented[i].change};
        prepared := prepared + {presented[i].change};
      }
      assert presented[..|presented|] == presented;
      if !(active <= prepared) {
        return Some(Conflict);
      }
      refusal := None;
    }

    method CompleteExecution(ref: ClaimRef, summary: string, active: set<Id>, presented: seq<Snapshot>)
      returns (refusal: Option<WorkflowError>)
      modifies this
      ensures Took(old(Rows()), Apply(old(Rows()), Op.CompleteExecution(ref, summary, active, presented)), Rows(), refusal)
    {
      if Blank(summary) {
        return Some(InvalidInput);
      }
      var owned := LockOwnedClaim(ref);
      if owned.Err? {
        return Some(owned.error);
      }
      var lifecycle := new TaskLifecycle(task.lifecycle);
      refusal := lifecycle.CompleteExecution();
      if refusal != None {
        return;
      }
      refusal := CheckDelivery(active, presented);
      if refusal != None {
        return;
      }
      refusal := CommitFinish(owned.value, lifecycle.Value(), ExecutionCompleted, task.activeIssue);
      if refusal == None {
        items := items + [Item(Completion, owned.value, lifecycle.reviewCycle)];
      }
    }

    method RequestResolution(ref: ClaimRef, request: string, knownType: bool) returns (refusal: Option<WorkflowError>)
      modifies this
      ensures Took(old(Rows()), Apply(old(Rows()), Op.RequestResolution(ref, request, knownType)), Rows(), refusal)
    {
      if !knownType {
        return Some(WrongIssueType);
      }
      if Blank(request) {
        return Some(InvalidInput);
      }
      var owned := LockOwnedClaim(ref);
      if owned.Err? {
        return Some(owned.error);
      }
      var issue := NewIssue(task.lifecycle.phase);
      if issue.Err? {
        return Some(issue.error);
      }
      var lifecycle := new TaskLifecycle(task.lifecycle);
      refusal := lifecycle.RequestResolution(claims[owned.value].stage);
      if refusal != None {
        return;
      }
      refusal := CommitFinish(owned.value, lifecycle.Value(), ResolutionNeeded, Some(|issues|));
      if refusal == None {
        issues := issues + [issue.value];
      }
    }

    method ResolveIssue(expected: int, issueId: nat, issueVersion: int, resolution: string)
      returns (refusal: Option<WorkflowError>)
      modifies this
      ensures Took(old(Rows()), Apply(old(Rows()), Op.ResolveIssue(expected, issueId, issueVersion, resolution)),
                   Rows(), refusal)
    {
      if Blank(resolution) {
        return Some(InvalidInput);
      }
      if task.version != expected {
        return Some(VersionConflict(task.version));
      }
      if task.activeIssue == None || task.activeIssue.value != issueId {
        return Some(Conflict);
      }
      if issueId >= |issues| {
        return Some(NotFound);
      }
      var issue := new IssueThread(issues[issueId]);
      if issue.version != issueVersion || issue.openedFrom != task.lifecycle.phase {
        return Some(Conflict);
      }
      refusal := issue.Resolve();
      if refusal != None {
        return;
      }
      var lifecycle := new TaskLifecycle(task.lifecycle);
      refusal := lifecycle.ResolveIssue();
      if refusal != None {
        return;
      }
      var row := PersistTask(lifecycle.Value(), None);
      if row.Err? {
        return Some(row.error);
      }
      issues := issues[issueId := issue.Value()];
      task := row.value;
    }

    method RecordAcceptanceCheck(ref: ClaimRef, criterion: Id, revision: int, outcome: CheckOutcome, evidence: string)
      returns (refusal: Option<WorkflowError>)
      modifies this`checks
      ensures Took(old(Rows()), Apply(old(Rows()), RecordCheck(ref, criterion, revision, outcome, evidence)),
                   Rows(), refusal)
    {
      if task.version != ref.taskVersion {
        return Some(VersionConflict(task.version));
      }
      if task.lifecycle.activity != Working {
        return Some(Conflict);
      }
      var owned := LockOwnedClaim(ref);
      if owned.Err? {
        return Some(owned.error);
      }
      if criterion !in criteria || criteria[criterion].archived {
        return Some(NotFound);
      }
      var purpose := Acceptance;
      if claims[owned.value].stage == Execution {
        purpose := ExecutionVerification;
      }
      if revision != criteria[criterion].revision {
        return Some(Conflict);
      }
      if Blank(evidence) {
        return Some(InvalidInput);
      }
      if task.lifecycle.reviewCycle < 0 {
        return Some(Conflict);
      }
      checks := checks + [Check(criterion, revision, outcome, purpose, Some(owned.value), Some(task.lifecycle.reviewCycle))];
      refusal := None;
    }

    method AcceptTask(ref: ClaimRef, summary: string, children: nat, dependencies: nat)
      returns (refusal: Option<WorkflowError>)
      modifies this
      ensures Took(old(Rows()), Apply(old(Rows()), Op.AcceptTask(ref, summary, children, dependencies)), Rows(), refusal)
    {
      if Blank(summary) {
        return Some(InvalidInput);
      }
      var owned := LockOwnedClaim(ref);
      if owned.Err? {
        return Some(owned.error);
      }
      var lifecycle := new TaskLifecycle(task.lifecycle);
      refusal := lifecycle.Accept(ReadinessOf(Rows(), children, dependencies));
      if refusal == None {
        refusal := CommitFinish(owned.value, lifecycle.Value(), TaskAccepted, task.activeIssue);
      }
    }

    method CancelTask(expected: int, reason: string) returns (refusal: Option<WorkflowError>)
      modifies this
      ensures Took(old(Rows()), Apply(old(Rows()), Op.CancelTask(expected, reason)), Rows(), refusal)
    {
      if Blank(reason) {
        return Some(InvalidInput);
      }
      if task.version != expected {
        return Some(VersionConflict(task.version));
      }
      var endedClaims, resolvedIssues, activeIssue := claims, issues, task.activeIssue;
      if task.lifecycle.activity == Working {
        var active := ActiveClaimOf(Rows());
        if active == None {
          return Some(Conflict);
        }
        var claim := new TaskStageClaim(claims[active.value]);
        refusal := claim.Complete(TaskCancelled);
        if refusal != None {
          return;
        }
        endedClaims := claims[active.value := claim.Value()];
      }
      if task.lifecycle.activity == NeedsResolution {
        if task.activeIssue == None {
          return Some(Conflict);
        }
        if task.activeIssue.value >= |issues| {
          return Some(NotFound);
        }
        var issue := new IssueThread(issues[task.activeIssue.value]);
        refusal := issue.Resolve();
        if refusal != None {
          return;
        }
        resolvedIssues := issues[task.activeIssue.value := issue.Value()];
        activeIssue := None;
      }
      var lifecycle := new TaskLifecycle(task.lifecycle);
      refusal := lifecycle.Cancel();
      if refusal != None {
        return;
      }
      var row := PersistTask(lifecycle.Value(), activeIssue);
      if row.Err? {
        return Some(row.error);
      }
      claims, issues, task := endedClaims, resolvedIssues, row.value;
    }

    method RecordClaimProgress(claim: nat, body: string, actor: Id, now: Time) returns (refusal: Option<WorkflowError>)
      modifies this
      ensures if Blank(body) then refusal == Some(InvalidInput) && Rows() == old(Rows())
              else if TargetOutcome(old(Rows()), claim, now).Err?
              then refusal == Some(TargetOutcome(old(Rows()), claim, now).error) && Rows() == Targeted(old(Rows()), claim, now)
              else Took(old(Rows()), Apply(old(Rows()), RecordProgress(claim, body, actor)), Rows(), refusal)
    {
      if Blank(body) {
        return Some(InvalidInput);
      }
      var target := ClaimCommandTarget(claim, now);
      if target.Err? {
        return Some(target.error);
      }
      var active := ActiveClaimOf(Rows());
      if active == None || active.value != claim {
        return Some(Conflict);
      }
      if claims[claim].owner != actor {
        return Some(Forbidden);
      }
      if task.lifecycle.activity != Working {
        return Some(Conflict);
      }
      var tag := task.lifecycle.reviewCycle + CycleOffset(claims[claim].stage);
      if tag < 1 {
        return Some(InvalidInput);
      }
      items := items + [Item(Progress, claim, tag)];
      refusal := None;
    }

    method SetArchived(expected: Option<int>, archived: bool) returns (refusal: Option<WorkflowError>)
      modifies this`task
      ensures Took(old(Rows()), Apply(old(Rows()), Op.SetArchived(expected, archived)), Rows(), refusal)
    {
      if expected != None && task.version != expected.value {
        return Some(VersionConflict(task.version));
      }
      if archived && !task.archived && (task.lifecycle.activity == Working || task.lifecycle.activity == NeedsResolution) {
        return Some(Conflict);
      }
      task := task.(archived := archived, version := task.version + 1);
      refusal := None;
    }

    method UpdateCriterion(id: Id, text: string, instructions: string) returns (refusal: Option<WorkflowError>)
      modifies this`criteria
      ensures Took(old(Rows()), Apply(old(Rows()), EditCriterion(id, text, instructions)), Rows(), refusal)
    {
      if id !in criteria {
        return Some(NotFound);
      }
      var criterion := new AcceptanceCriterion(criteria[id]);
      criterion.Edit(text, instructions);
      if !criterion.Value().Valid() {
        return Some(InvalidInput);
      }
      criteria := criteria[id := criterion.Value()];
      refusal := None;
    }
  }
}
