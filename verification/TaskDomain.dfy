/**
 The three linked state machines of a Task: its lifecycle
 (internal/domain/task_lifecycle.go), the Claim a worker holds on one stage of it
 (internal/domain/task_stage_claim.go) and the Issue Thread that blocks it
 (internal/domain/thread.go), with the acceptance criteria and checks of
 internal/domain/acceptance.go.

 Transitions are given as functions from a value to the next one or a refusal;
 the classes mutate in place and are proved against those functions.
 */
module TaskDomain {
  import opened Common

  datatype Phase = Backlog | Ready | InProgress | InReview | Done | Cancelled {
    predicate Active() {
      InProgress? || InReview?
    }

    predicate Terminal() {
      Done? || Cancelled?
    }
  }

  /** `Idle` is the empty activity of a phase that is not active. */
  datatype Activity = Idle | Available | Working | NeedsResolution

  datatype Stage = Execution | Review

  datatype WorkflowError =
    | InvalidInput | InvalidTransition | ActiveClaim | Conflict | Forbidden | NotFound | WrongIssueType
    | VersionConflict(current: int)

  /** The record now holds what the transition yields, or is untouched and the refusal is returned. */
  predicate Took<T(==)>(before: T, transition: Result<T, WorkflowError>, after: T, refusal: Option<WorkflowError>) {
    match transition
    case Ok(next) => refusal == None && after == next
    case Err(error) => refusal == Some(error) && after == before
  }

  // ---------------------------------------------------------------- lifecycle

  datatype Lifecycle = Lifecycle(phase: Phase, activity: Activity, reviewCycle: int) {
    predicate Valid() {
      reviewCycle >= 0 && (activity.Idle? <==> !phase.Active())
    }

    function RequireWorkingStage(stage: Stage): Option<WorkflowError> {
      if activity != Working || !phase.Active() then Some(InvalidTransition)
      else if stage != (if phase.InReview? then Review else Execution) then Some(Conflict)
      else None
    }

    function MarkReady(archived: bool, unfinishedDependencies: bool): Result<Lifecycle, WorkflowError> {
      if !phase.Backlog? || !activity.Idle? then Err(InvalidTransition)
      else if archived || unfinishedDependencies then Err(Conflict)
      else Ok(this.(phase := Ready))
    }

    function WithdrawReadiness(): Result<Lifecycle, WorkflowError> {
      if !phase.Ready? || !activity.Idle? then Err(InvalidTransition) else Ok(this.(phase := Backlog))
    }

    function Claim(archived: bool): Result<(Lifecycle, Stage), WorkflowError> {
      if archived then Err(Conflict)
      else if phase.Active() && activity.Working? then Err(ActiveClaim)
      else if phase.Ready? && activity.Idle? then Ok((this.(phase := InProgress, activity := Working), Execution))
      else if phase.InProgress? && activity.Available? then Ok((this.(activity := Working), Execution))
      else if phase.InReview? && activity.Available? then Ok((this.(activity := Working), Review))
      else Err(InvalidTransition)
    }

    function Release(stage: Stage): Result<Lifecycle, WorkflowError> {
      var refusal := RequireWorkingStage(stage);
      if refusal.Some? then Err(refusal.value) else Ok(this.(activity := Available))
    }

    function RequestResolution(stage: Stage): Result<Lifecycle, WorkflowError> {
      var refusal := RequireWorkingStage(stage);
      if refusal.Some? then Err(refusal.value) else Ok(this.(activity := NeedsResolution))
    }

    function ResolveIssue(): Result<Lifecycle, WorkflowError> {
      if !phase.Active() || !activity.NeedsResolution? then Err(InvalidTransition)
      else Ok(this.(activity := Available))
    }

    function CompleteExecution(): Result<Lifecycle, WorkflowError> {
      var refusal := RequireWorkingStage(Execution);
      if refusal.Some? then Err(refusal.value)
      else Ok(Lifecycle(InReview, Available, reviewCycle + 1))
    }

    function RequestChanges(): Result<Lifecycle, WorkflowError> {
      var refusal := RequireWorkingStage(Review);
      if refusal.Some? then Err(refusal.value)
      else Ok(this.(phase := InProgress, activity := Available))
    }

    function Accept(readiness: Readiness): Result<Lifecycle, WorkflowError> {
      var refusal := RequireWorkingStage(Review);
      if refusal.Some? then Err(refusal.value)
      else if !readiness.Complete() then Err(Conflict)
      else Ok(this.(phase := Done, activity := Idle))
    }

    function Cancel(): Result<Lifecycle, WorkflowError> {
      if phase.Terminal() then Err(InvalidTransition)
      else if !Valid() then Err(InvalidInput)
      else Ok(this.(phase := Cancelled, activity := Idle))
    }
  }

  datatype Readiness = Readiness(
    activeCriteria: int, unsatisfiedCriteria: int, unfinishedChildren: int, unfinishedDependencies: int)
  {
    predicate Complete() {
      !(activeCriteria > 0 && unsatisfiedCriteria > 0) && unfinishedChildren <= 0 && unfinishedDependencies <= 0
    }
  }

  /** The record a caller holds, as `internal/domain` declares it: transitions assign its fields. */
  class TaskLifecycle {
    var phase: Phase
    var activity: Activity
    var reviewCycle: int

    function Value(): Lifecycle
      reads this
    {
      Lifecycle(phase, activity, reviewCycle)
    }

    constructor (value: Lifecycle)
      ensures Value() == value
    {
      phase, activity, reviewCycle := value.phase, value.activity, value.reviewCycle;
    }

    method RequireWorkingStage(stage: Stage) returns (refusal: Option<WorkflowError>)
      ensures refusal == Value().RequireWorkingStage(stage)
    {
      if activity != Working {
        return Some(InvalidTransition);
      }
      var expected := Execution;
      if phase == InReview {
        expected := Review;
      } else if phase != InProgress {
        return Some(InvalidTransition);
      }
      if stage != expected {
        return Some(Conflict);
      }
      refusal := None;
    }

    method MarkReady(archived: bool, unfinishedDependencies: bool) returns (refusal: Option<WorkflowError>)
      modifies this
      ensures Took(old(Value()), old(Value()).MarkReady(archived, unfinishedDependencies), Value(), refusal)
    {
      if phase != Backlog || activity != Idle {
        return Some(InvalidTransition);
      }
      if archived {
        return Some(Conflict);
      }
      if unfinishedDependencies {
        return Some(Conflict);
      }
      phase := Ready;
      refusal := None;
    }

    method WithdrawReadiness() returns (refusal: Option<WorkflowError>)
      modifies this
      ensures Took(old(Value()), old(Value()).WithdrawReadiness(), Value(), refusal)
    {
      if phase != Ready || activity != Idle {
        return Some(InvalidTransition);
      }
      phase := Backlog;
      refusal := None;
    }

    method Claim(archived: bool) returns (stage: Result<Stage, WorkflowError>)
      modifies this
      ensures match old(Value()).Claim(archived)
              case Ok((next, granted)) => stage == Ok(granted) && Value() == next
              case Err(error) => stage == Err(error) && Value() == old(Value())
    {
      if archived {
        return Err(Conflict);
      }
      if (phase == InProgress || phase == InReview) && activity == Working {
        return Err(ActiveClaim);
      }
      if phase == Ready && activity == Idle {
        phase := InProgress;
        activity := Working;
        return Ok(Execution);
      }
      if phase == InProgress && activity == Available {
        activity := Working;
        return Ok(Execution);
      }
      if phase == InReview && activity == Available {
        activity := Working;
        return Ok(Review);
      }
      stage := Err(InvalidTransition);
    }

    method Release(stage: Stage) returns (refusal: Option<WorkflowError>)
      modifies this
      ensures Took(old(Value()), old(Value()).Release(stage), Value(), refusal)
    {
      refusal := RequireWorkingStage(stage);
      if refusal == None {
        activity := Available;
      }
    }

    method RequestResolution(stage: Stage) returns (refusal: Option<WorkflowError>)
      modifies this
      ensures Took(old(Value()), old(Value()).RequestResolution(stage), Value(), refusal)
    {
      refusal := RequireWorkingStage(stage);
      if refusal == None {
        activity := NeedsResolution;
      }
    }

    method ResolveIssue() returns (refusal: Option<WorkflowError>)
      modifies this
      ensures Took(old(Value()), old(Value()).ResolveIssue(), Value(), refusal)
    {
      if !phase.Active() || activity != NeedsResolution {
        return Some(InvalidTransition);
      }
      activity := Available;
      refusal := None;
    }

    method CompleteExecution() returns (refusal: Option<WorkflowError>)
      modifies this
      ensures Took(old(Value()), old(Value()).CompleteExecution(), Value(), refusal)
    {
      refusal := RequireWorkingStage(Execution);
      if refusal == None {
        reviewCycle := reviewCycle + 1;
        phase := InReview;
        activity := Available;
      }
    }

    method RequestChanges() returns (refusal: Option<WorkflowError>)
      modifies this
      ensures Took(old(Value()), old(Value()).RequestChanges(), Value(), refusal)
    {
      refusal := RequireWorkingStage(Review);
      if refusal == None {
        phase := InProgress;
        activity := Available;
      }
    }

    method Accept(readiness: Readiness) returns (refusal: Option<WorkflowError>)
      modifies this
      ensures Took(old(Value()), old(Value()).Accept(readiness), Value(), refusal)
    {
      refusal := RequireWorkingStage(Review);
      if refusal != None {
        return;
      }
      if readiness.activeCriteria > 0 && readiness.unsatisfiedCriteria > 0 {
        return Some(Conflict);
      }
      if readiness.unfinishedChildren > 0 {
        return Some(Conflict);
      }
      if readiness.unfinishedDependencies > 0 {
        return Some(Conflict);
      }
      phase := Done;
      activity := Idle;
    }

    method Cancel() returns (refusal: Option<WorkflowError>)
      modifies this
      ensures Took(old(Value()), old(Value()).Cancel(), Value(), refusal)
    {
      if phase.Terminal() {
        return Some(InvalidTransition);
      }
      if !Value().Valid() {
        return Some(InvalidInput);
      }
      phase := Cancelled;
      activity := Idle;
      refusal := None;
    }
  }

  // ---------------------------------------------------------------- Claims

  datatype ClaimStatus = Active | Completed | Released | Expired | Withdrawn

  datatype ClaimOutcome =
    | ExecutionCompleted | TaskAccepted | ChangesRequested
    | ResolutionNeeded | VoluntarilyReleased | DeadlineElapsed | TaskCancelled

  const CLAIM_LIFETIME: Time := 7 * 24 * HOUR

  predicate StageAcceptsOutcome(stage: Stage, outcome: ClaimOutcome) {
    match outcome
    case ExecutionCompleted => stage.Execution?
    case TaskAccepted => stage.Review?
    case ChangesRequested => stage.Review?
    case _ => true
  }

  predicate StatusAcceptsOutcome(status: ClaimStatus, outcome: ClaimOutcome) {
    match status
    case Active => false
    case Completed => outcome.ExecutionCompleted? || outcome.TaskAccepted? || outcome.ChangesRequested?
    case Released => outcome.ResolutionNeeded? || outcome.VoluntarilyReleased?
    case Expired => outcome.DeadlineElapsed?
    case Withdrawn => outcome.TaskCancelled?
  }

  function FinalStatus(outcome: ClaimOutcome): ClaimStatus {
    match outcome
    case ResolutionNeeded => Released
    case VoluntarilyReleased => Released
    case DeadlineElapsed => Expired
    case TaskCancelled => Withdrawn
    case _ => Completed
  }

  datatype Claim = Claim(
    stage: Stage, owner: Id, status: ClaimStatus, outcome: Option<ClaimOutcome>, version: int, expiresAt: Time)
  {
    /** An active Claim has no outcome; a finished one has an outcome its status and stage both take. */
    predicate WellFormed() {
      && version >= 1
      && (status.Active? <==> outcome.None?)
      && (outcome.Some? ==> StatusAcceptsOutcome(status, outcome.value) && StageAcceptsOutcome(stage, outcome.value))
    }

    function Complete(result: ClaimOutcome): Result<Claim, WorkflowError> {
      if !status.Active? || !StageAcceptsOutcome(stage, result) then Err(Conflict)
      else Ok(this.(status := FinalStatus(result), outcome := Some(result), version := version + 1))
    }
  }

  function NewClaim(stage: Stage, owner: Id, now: Time): Claim {
    Claim(stage, owner, Active, None, 1, now + CLAIM_LIFETIME)
  }

  /** Finishing keeps a Claim well formed, and a finished Claim never finishes again. */
  lemma FinishedOnce(c: Claim, first: ClaimOutcome, second: ClaimOutcome)
    requires c.WellFormed() && c.Complete(first).Ok?
    ensures c.Complete(first).value.WellFormed()
    ensures c.Complete(first).value.Complete(second) == Err(Conflict)
  {
    assert StatusAcceptsOutcome(FinalStatus(first), first);
  }

  class TaskStageClaim {
    var stage: Stage
    var owner: Id
    var status: ClaimStatus
    var outcome: Option<ClaimOutcome>
    var version: int
    var expiresAt: Time

    function Value(): Claim
      reads this
    {
      Claim(stage, owner, status, outcome, version, expiresAt)
    }

    constructor (value: Claim)
      ensures Value() == value
    {
      stage, owner, status := value.stage, value.owner, value.status;
      outcome, version, expiresAt := value.outcome, value.version, value.expiresAt;
    }

    method Complete(result: ClaimOutcome) returns (refusal: Option<WorkflowError>)
      modifies this
      ensures Took(old(Value()), old(Value()).Complete(result), Value(), refusal)
    {
      if status != Active {
        return Some(Conflict);
      }
      var final := Completed;
      match result {
        case ExecutionCompleted => {}
        case TaskAccepted => {}
        case ChangesRequested => {}
        case ResolutionNeeded => final := Released;
        case VoluntarilyReleased => final := Released;
        case DeadlineElapsed => final := Expired;
        case TaskCancelled => final := Withdrawn;
      }
      if !StageAcceptsOutcome(stage, result) {
        return Some(Conflict);
      }
      status := final;
      outcome := Some(result);
      version := version + 1;
      refusal := None;
    }
  }

  // ---------------------------------------------------------------- Issue Threads

  datatype Issue = Issue(openedFrom: Phase, open: bool, version: int) {
    function Resolve(): Result<Issue, WorkflowError> {
      if !open then Err(Conflict) else Ok(this.(open := false, version := version + 1))
    }
  }

  /** An Issue opens only from an active phase. */
  function NewIssue(phase: Phase): Result<Issue, WorkflowError> {
    if !phase.Active() then Err(InvalidInput) else Ok(Issue(phase, true, 1))
  }

  class IssueThread {
    var openedFrom: Phase
    var open: bool
    var version: int

    function Value(): Issue
      reads this
    {
      Issue(openedFrom, open, version)
    }

    constructor (value: Issue)
      ensures Value() == value
    {
      openedFrom, open, version := value.openedFrom, value.open, value.version;
    }

    method Resolve() returns (refusal: Option<WorkflowError>)
      modifies this
      ensures Took(old(Value()), old(Value()).Resolve(), Value(), refusal)
    {
      if !open {
        return Some(Conflict);
      }
      open := false;
      version := version + 1;
      refusal := None;
    }
  }

  // ---------------------------------------------------------------- acceptance

  datatype CheckOutcome = Passed | Failed | Unable | Waived {
    predicate Satisfies() {
      Passed? || Waived?
    }
  }

  /** Checks recorded outside a Claim carry no purpose, Claim or cycle. */
  datatype Purpose = Unstated | ExecutionVerification | Acceptance

  datatype Check = Check(
    criterion: Id, revision: int, outcome: CheckOutcome, purpose: Purpose, claim: Option<nat>, cycle: Option<int>)
  {
    predicate SatisfiesTaskReview(reviewCycle: int) {
      purpose.Acceptance? && cycle == Some(reviewCycle) && outcome.Satisfies()
    }
  }

  datatype Criterion = Criterion(text: string, instructions: string, revision: int, archived: bool) {
    predicate Valid() {
      !Blank(text) && !Blank(instructions) && revision >= 1
    }

    function Edit(newText: string, newInstructions: string): Criterion {
      if text != newText || instructions != newInstructions
      then this.(text := newText, instructions := newInstructions, revision := revision + 1)
      else this
    }
  }

  class AcceptanceCriterion {
    var text: string
    var instructions: string
    var revision: int
    var archived: bool

    function Value(): Criterion
      reads this
    {
      Criterion(text, instructions, revision, archived)
    }

    constructor (value: Criterion)
      ensures Value() == value
    {
      text, instructions, revision, archived := value.text, value.instructions, value.revision, value.archived;
    }

    method Edit(newText: string, newInstructions: string)
      modifies this
      ensures Value() == old(Value()).Edit(newText, newInstructions)
    {
      if text != newText || instructions != newInstructions {
        text := newText;
        instructions := newInstructions;
        revision := revision + 1;
      }
    }
  }

  function CheckPurpose(stage: Stage): Purpose {
    if stage.Execution? then ExecutionVerification else Acceptance
  }
}
