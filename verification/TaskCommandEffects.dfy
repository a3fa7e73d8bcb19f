/**
 What each Task command does to the tables, spelled in the columns it tests and writes,
 in the states that runs reach; and what Claims and checks tell of the commands that
 made them.
 */
module TaskCommandEffects {
  import opened Common
  import opened TaskDomain
  import opened TaskWorkflow
  import opened TaskWorkflowProperties
  import opened TaskEvidence

  /** The Task row one version on. */
  function Moved(task: TaskRow, phase: Phase, activity: Activity, cycle: int, activeIssue: Option<nat>): TaskRow {
    TaskRow(task.version + 1, Lifecycle(phase, activity, cycle), activeIssue, task.archived)
  }

  /** The Claims once the latest has ended. */
  function LastEnded(claims: seq<Claim>, status: ClaimStatus, outcome: ClaimOutcome): seq<Claim>
    requires claims != []
  {
    var last := |claims| - 1;
    claims[last := claims[last].(status := status, outcome := Some(outcome), version := claims[last].version + 1)]
  }

  /** Blank text first, then what the reference is refused for. */
  function CommandRefusal(db: Tables, ref: ClaimRef, body: string): Option<WorkflowError> {
    if Blank(body) then Some(InvalidInput) else HolderRefusal(db, ref)
  }

  // ---------------------------------------------------------------- ending a Claim

  lemma ReleaseFrees(db: Tables, ref: ClaimRef, body: string)
    requires Paired(db)
    ensures var l := db.task.lifecycle;
            var refusal := CommandRefusal(db, ref, body);
            Apply(db, ReleaseClaim(ref, body)) ==
              if refusal.Some? then Err(refusal.value)
              else Ok(db.(task := Moved(db.task, l.phase, Available, l.reviewCycle, db.task.activeIssue),
                          claims := LastEnded(db.claims, Released, VoluntarilyReleased)))
  {
    OwnedClaimMeans(db, ref);
  }

  lemma CompletionOpensReview(db: Tables, ref: ClaimRef, body: string, active: set<Id>, presented: seq<Snapshot>)
    requires Paired(db)
    ensures var l := db.task.lifecycle;
            var refusal := CommandRefusal(db, ref, body);
            var r := Apply(db, CompleteExecution(ref, body, active, presented));
            && (refusal.Some? ==> r == Err(refusal.value))
            && (refusal.None? && !l.phase.InProgress? ==> r == Err(Conflict))
            && (refusal.None? && l.phase.InProgress? && !DeliversExactly(active, presented) ==> r.Err?)
            && (refusal.None? && l.phase.InProgress? && DeliversExactly(active, presented) ==>
                  r == Ok(db.(task := Moved(db.task, InReview, Available, l.reviewCycle + 1, db.task.activeIssue),
                              claims := LastEnded(db.claims, Completed, ExecutionCompleted),
                              items := db.items + [Item(Completion, ref.claim, l.reviewCycle + 1)])))
  {
    OwnedClaimMeans(db, ref);
    DeliveryAcceptedIff(active, presented);
  }

  lemma ChangeRequestReopens(db: Tables, ref: ClaimRef, body: string)
    requires Paired(db)
    ensures var l := db.task.lifecycle;
            var refusal := CommandRefusal(db, ref, body);
            Apply(db, RequestChanges(ref, body)) ==
              if refusal.Some? then Err(refusal.value)
              else if !l.phase.InReview? then Err(Conflict)
              else Ok(db.(task := Moved(db.task, InProgress, Available, l.reviewCycle, db.task.activeIssue),
                          claims := LastEnded(db.claims, Completed, ChangesRequested)))
  {
    OwnedClaimMeans(db, ref);
  }

  lemma ResolutionRequestBlocks(db: Tables, ref: ClaimRef, body: string, knownType: bool)
    requires Paired(db)
    ensures var l := db.task.lifecycle;
            var refusal := CommandRefusal(db, ref, body);
            Apply(db, RequestResolution(ref, body, knownType)) ==
              if !knownType then Err(WrongIssueType)
              else if refusal.Some? then Err(refusal.value)
              else Ok(db.(task := Moved(db.task, l.phase, NeedsResolution, l.reviewCycle, Some(|db.issues|)),
                          claims := LastEnded(db.claims, Released, ResolutionNeeded),
                          issues := db.issues + [Issue(l.phase, true, 1)]))
  {
    OwnedClaimMeans(db, ref);
  }

  lemma AcceptanceFinishes(db: Tables, ref: ClaimRef, body: string, children: nat, dependencies: nat)
    requires Inv(db) && ChecksFit(db)
    ensures var l := db.task.lifecycle;
            var refusal := CommandRefusal(db, ref, body);
            Apply(db, AcceptTask(ref, body, children, dependencies)) ==
              if refusal.Some? then Err(refusal.value)
              else if !l.phase.InReview? || children > 0 || dependencies > 0 || !Evidenced(db) then Err(Conflict)
              else Ok(db.(task := Moved(db.task, Done, Idle, l.reviewCycle, db.task.activeIssue),
                          claims := LastEnded(db.claims, Completed, TaskAccepted)))
  {
    OwnedClaimMeans(db, ref);
    AcceptsIff(db, ref, body, children, dependencies);
  }

  // ---------------------------------------------------------------- work under a Claim

  lemma SubmissionIsTagged(db: Tables, ref: ClaimRef, body: string)
    requires Paired(db)
    ensures var refusal := CommandRefusal(db, ref, body);
            Apply(db, SubmitWork(ref, body)) ==
              if refusal.Some? then Err(refusal.value)
              else if !db.task.lifecycle.phase.InProgress? then Err(Conflict)
              else Ok(db.(items := db.items + [Item(WorkSubmission, ref.claim, db.task.lifecycle.reviewCycle + 1)]))
  {
    OwnedClaimMeans(db, ref);
  }

  lemma ProgressIsTagged(db: Tables, claim: nat, body: string, actor: Id)
    requires Inv(db)
    ensures var l := db.task.lifecycle;
            Apply(db, RecordProgress(claim, body, actor)) ==
              if Blank(body) then Err(InvalidInput)
              else if !l.activity.Working? || claim != |db.claims| - 1 then Err(Conflict)
              else if db.claims[claim].owner != actor then Err(Forbidden)
              else Ok(db.(items := db.items + [
                            Item(Progress, claim, if l.phase.InReview? then l.reviewCycle else l.reviewCycle + 1)]))
  {
    ActiveIsLast(db);
    if db.task.lifecycle.activity.Working? {
      CurrentTag(db);
      TagsNameCycles(db, |db.claims| - 1);
    }
  }

  /**
   A check is recorded exactly as given: its criterion, revision, outcome, Claim and the
   current cycle, for acceptance under a review Claim only.
   */
  lemma CheckIsRecordedAsGiven(
    db: Tables, ref: ClaimRef, criterion: Id, revision: int, outcome: CheckOutcome, evidence: string)
    requires Inv(db)
    ensures var refusal := HolderRefusal(db, ref);
            Apply(db, RecordCheck(ref, criterion, revision, outcome, evidence)) ==
              if refusal.Some? then Err(refusal.value)
              else if criterion !in db.criteria || db.criteria[criterion].archived then Err(NotFound)
              else if revision != db.criteria[criterion].revision then Err(Conflict)
              else if Blank(evidence) then Err(InvalidInput)
              else Ok(db.(checks := db.checks + [
                            Check(criterion, revision, outcome,
                                  if db.task.lifecycle.phase.InReview? then Acceptance else ExecutionVerification,
                                  Some(ref.claim), Some(db.task.lifecycle.reviewCycle))]))
  {
    OwnedClaimMeans(db, ref);
  }

  // ---------------------------------------------------------------- Claims and their deadline

  /** The lifecycle and the Claims once the latest Claim, if due, has expired. */
  predicate LatestDue(db: Tables, now: Time) {
    db.task.lifecycle.activity.Working? && |db.claims| > 0 && db.claims[|db.claims| - 1].expiresAt <= now
  }

  lemma ExpiryFrees(db: Tables, now: Time)
    requires Paired(db)
    ensures var l := db.task.lifecycle;
            Apply(db, ExpireDueClaim(now)) ==
              if LatestDue(db, now)
              then Ok(db.(task := Moved(db.task, l.phase, Available, l.reviewCycle, db.task.activeIssue),
                          claims := LastEnded(db.claims, Expired, DeadlineElapsed)))
              else Ok(db)
  {
    ActiveIsLast(db);
  }

  /** Ready or available Tasks are claimed for a week, as is one whose Claim is due; archived ones are not. */
  lemma ClaimingStartsWork(db: Tables, expected: int, owner: Id, now: Time)
    requires Paired(db)
    ensures var l := db.task.lifecycle;
            var due := LatestDue(db, now);
            var r := Apply(db, ClaimTask(expected, owner, now));
            if expected != db.task.version then r == Err(VersionConflict(db.task.version))
            else if db.task.archived then r == Err(Conflict)
            else if l.activity.Working? && !due then r == Err(ActiveClaim)
            else if !(l.phase.Ready? || (l.phase.Active() && (l.activity.Available? || due))) then r == Err(InvalidTransition)
            else
              var phase := if l.phase.InReview? then InReview else InProgress;
              var stage := if l.phase.InReview? then Review else Execution;
              r == Ok(db.(task := Moved(db.task, phase, Working, l.reviewCycle, db.task.activeIssue),
                          claims := (if due then LastEnded(db.claims, Expired, DeadlineElapsed) else db.claims)
                                    + [Claim(stage, owner, Active, None, 1, now + 604_800_000_000_000)]))
  {
    ActiveIsLast(db);
  }

  // ---------------------------------------------------------------- commands on the Task

  lemma ReadinessMoves(db: Tables, expected: int, unfinished: bool, reason: string)
    requires Paired(db)
    ensures var l := db.task.lifecycle;
            && Apply(db, MarkReady(expected, unfinished)) ==
                 (if expected != db.task.version then Err(VersionConflict(db.task.version))
                  else if !l.phase.Backlog? then Err(InvalidTransition)
                  else if db.task.archived || unfinished then Err(Conflict)
                  else Ok(db.(task := Moved(db.task, Ready, Idle, l.reviewCycle, db.task.activeIssue))))
            && Apply(db, WithdrawReadiness(expected, reason)) ==
                 (if Blank(reason) then Err(InvalidInput)
                  else if expected != db.task.version then Err(VersionConflict(db.task.version))
                  else if !l.phase.Ready? then Err(InvalidTransition)
                  else Ok(db.(task := Moved(db.task, Backlog, Idle, l.reviewCycle, db.task.activeIssue))))
  {
  }

  /** Cancelling ends the Claim or resolves the Issue that is open, and leaves the Task idle. */
  lemma CancellingEndsAll(db: Tables, expected: int, reason: string)
    requires Paired(db)
    ensures var l := db.task.lifecycle;
            var last := |db.issues| - 1;
            Apply(db, CancelTask(expected, reason)) ==
              if Blank(reason) then Err(InvalidInput)
              else if expected != db.task.version then Err(VersionConflict(db.task.version))
              else if l.phase.Done? || l.phase.Cancelled? then Err(InvalidTransition)
              else Ok(db.(task := Moved(db.task, Cancelled, Idle, l.reviewCycle, None),
                          claims := if l.activity.Working? then LastEnded(db.claims, Withdrawn, TaskCancelled) else db.claims,
                          issues := if l.activity.NeedsResolution?
                                    then db.issues[last := Issue(l.phase, false, db.issues[last].version + 1)] else db.issues))
  {
    ActiveIsLast(db);
  }

  lemma ResolvingFrees(db: Tables, expected: int, issue: nat, issueVersion: int, text: string)
    requires Paired(db)
    ensures var l := db.task.lifecycle;
            Apply(db, ResolveIssue(expected, issue, issueVersion, text)) ==
              if Blank(text) then Err(InvalidInput)
              else if expected != db.task.version then Err(VersionConflict(db.task.version))
              else if !l.activity.NeedsResolution? || issue != |db.issues| - 1 || issueVersion != db.issues[issue].version
              then Err(Conflict)
              else Ok(db.(task := Moved(db.task, l.phase, Available, l.reviewCycle, None),
                          issues := db.issues[issue := Issue(l.phase, false, issueVersion + 1)]))
  {
  }

  lemma ArchivingWaits(db: Tables, expected: Option<int>, archived: bool)
    ensures var l := db.task.lifecycle;
            Apply(db, SetArchived(expected, archived)) ==
              if expected.Some? && expected.value != db.task.version then Err(VersionConflict(db.task.version))
              else if archived && !db.task.archived && (l.activity.Working? || l.activity.NeedsResolution?) then Err(Conflict)
              else Ok(db.(task := TaskRow(db.task.version + 1, l, db.task.activeIssue, archived)))
  {
  }

  // ---------------------------------------------------------------- criteria

  lemma CriteriaAreKept(db: Tables, id: Id, text: string, instructions: string)
    ensures Apply(db, AddCriterion(id, text, instructions)) ==
              if Blank(text) || Blank(instructions) then Err(InvalidInput)
              else if id in db.criteria then Err(Conflict)
              else Ok(db.(criteria := db.criteria[id := Criterion(text, instructions, 1, false)]))
    ensures Apply(db, RemoveCriterion(id)) ==
              if id !in db.criteria || db.criteria[id].archived then Err(NotFound)
              else if exists i :: 0 <= i < |db.checks| && db.checks[i].criterion == id
              then Ok(db.(criteria := db.criteria[id := db.criteria[id].(archived := true)]))
              else Ok(db.(criteria := db.criteria - {id}))
  {
  }

  /** Rewording a criterion moves its revision on by one; the same words leave it. */
  lemma RewordingMovesRevision(db: Tables, id: Id, text: string, instructions: string)
    requires id in db.criteria && db.criteria[id].revision >= 1 && !Blank(text) && !Blank(instructions)
    ensures var c := db.criteria[id];
            Apply(db, EditCriterion(id, text, instructions)) ==
              Ok(db.(criteria := db.criteria[id := Criterion(
                       text, instructions,
                       if c.text == text && c.instructions == instructions then c.revision else c.revision + 1, c.archived)]))
  {
  }

  lemma PlainCheckNamesNoClaim(db: Tables, criterion: Id, revision: int, outcome: CheckOutcome, evidence: string)
    ensures Apply(db, AddPlainCheck(criterion, revision, outcome, evidence)) ==
              if criterion !in db.criteria then Err(NotFound)
              else if revision != db.criteria[criterion].revision then Err(Conflict)
              else if Blank(evidence) then Err(InvalidInput)
              else Ok(db.(checks := db.checks + [Check(criterion, revision, outcome, Unstated, None, None)]))
  {
  }

  // ---------------------------------------------------------------- who ended a Claim

  /** The outcomes only the holder of a Claim brings about; the others are its deadline and the Task's cancelling. */
  predicate HoldersOutcome(outcome: ClaimOutcome) {
    !outcome.DeadlineElapsed? && !outcome.TaskCancelled?
  }

  /** The step is the owner's own command, on that Claim, with that outcome. */
  predicate EndedByOwner(op: Op, k: nat, owner: Id, outcome: ClaimOutcome) {
    Finishes(op) && OutcomeOf(op) == outcome && op.ref.claim == k && op.ref.actor == owner
  }

  predicate EndedAs(db: Tables, k: nat, outcome: ClaimOutcome) {
    k < |db.claims| && db.claims[k].outcome == Some(outcome)
  }

  lemma EndingStep(db: Tables, op: Op, k: nat, outcome: ClaimOutcome)
    requires Paired(db) && HoldersOutcome(outcome) && !EndedAs(db, k, outcome) && EndedAs(Next(db, op), k, outcome)
    ensures k < |db.claims| && EndedByOwner(op, k, db.claims[k].owner, outcome)
  {
    if Quiet(op) {
      QuietPairs(db, op);
    } else if Finishes(op) {
      FinisherIsOwner(db, op);
    } else {
      UnownedEndings(db, op, k, outcome);
    }
  }

  lemma FinisherIsOwner(db: Tables, op: Op)
    requires Paired(db) && Finishes(op) && Next(db, op) != db
    ensures Holds(db, op.ref) && EndedWith(db, Next(db, op), OutcomeOf(op))
  {
    OwnedClaimMeans(db, op.ref);
    FinishEnds(db, op);
  }

  lemma UnownedEndings(db: Tables, op: Op, k: nat, outcome: ClaimOutcome)
    requires Paired(db) && !Quiet(op) && !Finishes(op) && HoldersOutcome(outcome) && !EndedAs(db, k, outcome)
    ensures !EndedAs(Next(db, op), k, outcome)
  {
    match op
    case ClaimTask(expected, owner, now) => ClaimingStartsWork(db, expected, owner, now);
    case ExpireDueClaim(now) => ExpiryFrees(db, now);
    case CancelTask(expected, reason) => CancellingEndsAll(db, expected, reason);
    case ResolveIssue(expected, issue, version, text) => ResolvingFrees(db, expected, issue, version, text);
    case MarkReady(expected, unfinished) => ReadinessMoves(db, expected, unfinished, "");
    case WithdrawReadiness(expected, reason) => ReadinessMoves(db, expected, false, reason);
  }

  lemma {:induction false} EndingWasCommanded(db: Tables, ops: seq<Op>, k: nat, outcome: ClaimOutcome)
    requires Inv(db) && HoldersOutcome(outcome) && !EndedAs(db, k, outcome) && EndedAs(Run(db, ops), k, outcome)
    ensures exists i :: 0 <= i < |ops| && EndedByOwner(ops[i], k, Run(db, ops).claims[k].owner, outcome)
    decreases |ops|
  {
    var next := Next(db, ops[0]);
    StepKeepsInv(db, ops[0]);
    if EndedAs(next, k, outcome) {
      EndingStep(db, ops[0], k, outcome);
      OwnersPersist(next, ops[1..], k);
      assert EndedByOwner(ops[0], k, Run(db, ops).claims[k].owner, outcome);
    } else {
      EndingWasCommanded(next, ops[1..], k, outcome);
      var i :| 0 <= i < |ops[1..]| && EndedByOwner(ops[1..][i], k, Run(db, ops).claims[k].owner, outcome);
      assert ops[i + 1] == ops[1..][i];
    }
  }

  lemma {:induction false} OwnersPersist(db: Tables, ops: seq<Op>, k: nat)
    requires Inv(db) && k < |db.claims|
    ensures k < |Run(db, ops).claims| && Run(db, ops).claims[k].owner == db.claims[k].owner
    decreases |ops|
  {
    if ops != [] {
      StepKeepsInv(db, ops[0]);
      OwnersPersist(Next(db, ops[0]), ops[1..], k);
    }
  }

  /**
   In every run of a Task, a Claim that was released, completed, reviewed, accepted or
   stopped for a resolution was ended so by a command of its own owner.
   */
  lemma ClaimsEndByTheirOwner(ops: seq<Op>, k: nat, outcome: ClaimOutcome)
    requires EndedAs(Run(NewTask(), ops), k, outcome) && HoldersOutcome(outcome)
    ensures exists i :: 0 <= i < |ops| && EndedByOwner(ops[i], k, Run(NewTask(), ops).claims[k].owner, outcome)
  {
    EndingWasCommanded(NewTask(), ops, k, outcome);
  }

  // ---------------------------------------------------------------- where checks come from

  /** The step that left this check: it succeeded, and gave all of it but purpose, Claim and cycle. */
  ghost predicate RecordedBy(db: Tables, op: Op, check: Check) {
    && Apply(db, op).Ok?
    && (match op
        case RecordCheck(ref, criterion, revision, outcome, _) =>
          && check.criterion == criterion && check.revision == revision && check.outcome == outcome
          && check.claim == Some(ref.claim) && Holds(db, ref)
        case AddPlainCheck(criterion, revision, outcome, _) =>
          && check.criterion == criterion && check.revision == revision && check.outcome == outcome
          && check.claim == None
        case _ => false)
  }

  lemma RecordingStep(db: Tables, op: Op, j: nat)
    requires Inv(db) && j < |Next(db, op).checks| && j >= |db.checks|
    ensures RecordedBy(db, op, Next(db, op).checks[j])
  {
    Writers(db, op);
    if op.RecordCheck? {
      OwnedClaimMeans(db, op.ref);
      CheckIsRecordedAsGiven(db, op.ref, op.criterion, op.revision, op.outcome, op.evidence);
    } else {
      PlainCheckNamesNoClaim(db, op.criterion, op.revision, op.outcome, op.evidence);
    }
  }

  lemma {:induction false} ChecksWereRecorded(db: Tables, ops: seq<Op>, j: nat)
    requires Inv(db) && ChecksFit(db) && |db.checks| <= j < |Run(db, ops).checks|
    ensures exists i :: 0 <= i < |ops| && RecordedBy(Run(db, ops[..i]), ops[i], Run(db, ops).checks[j])
    decreases |ops|
  {
    var next := Next(db, ops[0]);
    StepKeepsInv(db, ops[0]);
    ChecksStep(db, ops[0]);
    if j < |next.checks| {
      RecordingStep(db, ops[0], j);
      ChecksPersist(next, ops[1..], j);
      assert ops[..0] == [] && Run(db, ops[..0]) == db;
      assert RecordedBy(Run(db, ops[..0]), ops[0], Run(db, ops).checks[j]);
    } else {
      ChecksWereRecorded(next, ops[1..], j);
      var i :| 0 <= i < |ops[1..]| && RecordedBy(Run(next, ops[1..][..i]), ops[1..][i], Run(db, ops).checks[j]);
      assert ops[..i + 1][0] == ops[0] && ops[..i + 1][1..] == ops[1..][..i];
      assert RecordedBy(Run(db, ops[..i + 1]), ops[i + 1], Run(db, ops).checks[j]);
    }
  }

  lemma {:induction false} ChecksPersist(db: Tables, ops: seq<Op>, j: nat)
    requires Inv(db) && ChecksFit(db) && j < |db.checks|
    ensures j < |Run(db, ops).checks| && Run(db, ops).checks[j] == db.checks[j]
    decreases |ops|
  {
    if ops != [] {
      StepKeepsInv(db, ops[0]);
      ChecksStep(db, ops[0]);
      ChecksPersist(Next(db, ops[0]), ops[1..], j);
    }
  }

  /** A reviewer recorded, while holding the review Claim, that the criterion passed or is waived. */
  ghost predicate PassedBy(db: Tables, op: Op, criterion: Id, revision: int) {
    && op.RecordCheck? && op.criterion == criterion && op.revision == revision
    && (op.outcome.Passed? || op.outcome.Waived?)
    && Apply(db, op).Ok? && Holds(db, op.ref)
  }

  /**
   When acceptance succeeds after a run of a Task, every active criterion was, at its
   present revision, recorded as passed or waived by some successful step of that run.
   */
  lemma AcceptanceWasEarned(ops: seq<Op>, ref: ClaimRef, body: string, children: nat, dependencies: nat, id: Id)
    requires var db := Run(NewTask(), ops);
             && Apply(db, AcceptTask(ref, body, children, dependencies)).Ok?
             && id in db.criteria && !db.criteria[id].archived
    ensures var db := Run(NewTask(), ops);
            exists i :: 0 <= i < |ops| && PassedBy(Run(NewTask(), ops[..i]), ops[i], id, db.criteria[id].revision)
  {
    var db := Run(NewTask(), ops);
    AcceptedOnCurrentEvidence(ops, ref, body, children, dependencies);
    var j :| 0 <= j < |db.checks| && db.checks[j].criterion == id && CurrentEvidence(db, db.checks[j]);
    ChecksWereRecorded(NewTask(), ops, j);
    var i :| 0 <= i < |ops| && RecordedBy(Run(NewTask(), ops[..i]), ops[i], db.checks[j]);
    assert PassedBy(Run(NewTask(), ops[..i]), ops[i], id, db.criteria[id].revision);
  }
}
