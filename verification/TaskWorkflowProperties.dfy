/**
 What every run of Task commands keeps: the lifecycle, Claims and Issues stay
 paired, review cycles count completed executions, delivery items carry the cycle
 of their Claim, and only evidence of the current cycle and revision counts.
 */
module TaskWorkflowProperties {
  import opened Common
  import opened TaskDomain
  import opened TaskWorkflow

  // ---------------------------------------------------------------- pairing

  function StageOf(phase: Phase): Stage {
    if phase.InReview? then Review else Execution
  }

  /** Only the latest Claim can be active, exactly while the Task is being worked on, on the phase's stage. */
  predicate ClaimsFit(db: Tables) {
    var last := |db.claims| - 1;
    && db.task.lifecycle.Valid()
    && (forall k :: 0 <= k < |db.claims| ==> db.claims[k].WellFormed())
    && (forall k :: 0 <= k < |db.claims| && db.claims[k].status.Active? ==> k == last)
    && (db.task.lifecycle.activity.Working? <==> last >= 0 && db.claims[last].status.Active?)
    && (db.task.lifecycle.activity.Working? ==> db.claims[last].stage == StageOf(db.task.lifecycle.phase))
  }

  /** Only the latest Issue can be open, exactly while the Task needs resolution, opened from its phase. */
  predicate IssuesFit(db: Tables) {
    var last := |db.issues| - 1;
    && (forall i :: 0 <= i < |db.issues| && db.issues[i].open ==> i == last)
    && (db.task.lifecycle.activity.NeedsResolution? <==> last >= 0 && db.issues[last].open)
    && (db.task.lifecycle.activity.NeedsResolution? ==>
          db.issues[last].openedFrom == db.task.lifecycle.phase && db.task.activeIssue == Some(last))
    && (db.task.activeIssue.Some? ==> db.task.lifecycle.activity.NeedsResolution?)
  }

  lemma ActiveIsLast(db: Tables)
    requires ClaimsFit(db)
    ensures ActiveClaimOf(db) == if db.task.lifecycle.activity.Working? then Some(|db.claims| - 1) else None
  {
  }

  /** Claims are only appended, and only the latest one changes, while active and never in its stage or owner. */
  predicate HistoryKept(db: Tables, next: Tables) {
    && |db.claims| <= |next.claims| <= |db.claims| + 1
    && (forall k :: 0 <= k < |db.claims| - 1 ==> next.claims[k] == db.claims[k])
    && (forall k :: 0 <= k < |db.claims| && !db.claims[k].status.Active? ==> next.claims[k] == db.claims[k])
    && (forall k :: 0 <= k < |db.claims| ==>
          next.claims[k].stage == db.claims[k].stage && next.claims[k].owner == db.claims[k].owner)
    && (|next.claims| > |db.claims| ==> next.claims[|db.claims|].status.Active?)
  }

  lemma CompletedWellFormed(c: Claim, outcome: ClaimOutcome)
    requires c.WellFormed() && c.Complete(outcome).Ok?
    ensures c.Complete(outcome).value.WellFormed()
  {
    FinishedOnce(c, outcome, outcome);
  }

  predicate Paired(db: Tables) {
    ClaimsFit(db) && IssuesFit(db)
  }

  predicate SamePairing(db: Tables, next: Tables) {
    && next.claims == db.claims && next.issues == db.issues
    && next.task.lifecycle == db.task.lifecycle && next.task.activeIssue == db.task.activeIssue
  }

  /** The active Claim has finished and nobody works on the Task. */
  predicate LastClaimEnded(db: Tables, next: Tables) {
    var last := |db.claims| - 1;
    && last >= 0 && db.claims[last].status.Active?
    && |next.claims| == |db.claims|
    && (forall k :: 0 <= k < last ==> next.claims[k] == db.claims[k])
    && next.claims[last].WellFormed() && !next.claims[last].status.Active?
    && next.claims[last].stage == db.claims[last].stage && next.claims[last].owner == db.claims[last].owner
    && next.task.lifecycle.Valid() && !next.task.lifecycle.activity.Working?
  }

  lemma EndedClaimsFit(db: Tables, next: Tables)
    requires ClaimsFit(db) && LastClaimEnded(db, next)
    ensures ClaimsFit(next) && HistoryKept(db, next)
  {
  }

  /** Commands that leave the lifecycle, the Claims and the Issues alone. */
  predicate Quiet(op: Op) {
    || op.SubmitWork? || op.RecordCheck? || op.RecordProgress? || op.SetArchived? || op.AddCriterion?
    || op.EditCriterion? || op.RemoveCriterion? || op.AddPlainCheck? || op.Touch?
  }

  lemma QuietPairs(db: Tables, op: Op)
    requires Quiet(op)
    ensures SamePairing(db, Next(db, op))
  {
  }

  lemma ReadinessPairs(db: Tables, op: Op)
    requires Paired(db) && (op.MarkReady? || op.WithdrawReadiness?)
    ensures Paired(Next(db, op)) && HistoryKept(db, Next(db, op))
  {
  }

  /** Expiry never fails: either nothing is due or the latest Claim ends and the Task is available. */
  lemma ExpiryPairs(db: Tables, now: Time)
    requires Paired(db)
    ensures var r := WithDueClaimExpired(db, now);
            && r.Ok?
            && (if Due(db, now)
                then LastClaimEnded(db, r.value) && r.value.task.lifecycle == db.task.lifecycle.(activity := Available)
                     && r.value == db.(task := r.value.task, claims := r.value.claims)
                     && r.value.task == db.task.(lifecycle := r.value.task.lifecycle)
                     && r.value.claims[|db.claims| - 1].outcome == Some(DeadlineElapsed)
                else r.value == db)
  {
    ActiveIsLast(db);
    if Due(db, now) {
      CompletedWellFormed(db.claims[|db.claims| - 1], DeadlineElapsed);
    }
  }

  lemma ExpireStepPairs(db: Tables, now: Time)
    requires Paired(db)
    ensures Paired(Next(db, ExpireDueClaim(now))) && HistoryKept(db, Next(db, ExpireDueClaim(now)))
  {
    ExpiryPairs(db, now);
    if Due(db, now) {
      var next := Next(db, ExpireDueClaim(now));
      assert LastClaimEnded(db, next);
      EndedClaimsFit(db, next);
    }
  }

  /** A Claim past its deadline is gone by the time a command on it runs, and the Task is available again. */
  lemma DueClaimsAreTakenAway(db: Tables, claim: nat, now: Time)
    requires Paired(db) && DueClaim(db, claim, now)
    ensures var next := Targeted(db, claim, now);
            && claim < |next.claims| && next.claims[claim].outcome == Some(DeadlineElapsed)
            && next.task.lifecycle == db.task.lifecycle.(activity := Available)
            && ActiveClaimOf(next) == None && TargetOutcome(db, claim, now) == Err(Conflict)
  {
    ActiveIsLast(db);
    ExpiryPairs(db, now);
    ExpireStepPairs(db, now);
    ActiveIsLast(Targeted(db, claim, now));
  }

  lemma ClaimPairs(db: Tables, expected: int, owner: Id, now: Time)
    requires Paired(db)
    ensures var next := Next(db, ClaimTask(expected, owner, now)); Paired(next) && HistoryKept(db, next)
  {
    ExpiryPairs(db, now);
    var freed := WithDueClaimExpired(db, now).value;
    if Due(db, now) {
      EndedClaimsFit(db, freed);
    }
    var next := Next(db, ClaimTask(expected, owner, now));
    if next != db {
      assert !freed.task.lifecycle.activity.Working?;
      assert forall k :: 0 <= k < |freed.claims| ==> next.claims[k] == freed.claims[k];
      assert next.claims[|freed.claims|].WellFormed();
    }
  }

  /** Commands by which the holder of a Claim ends it. */
  predicate Finishes(op: Op) {
    op.ReleaseClaim? || op.CompleteExecution? || op.RequestChanges? || op.AcceptTask? || op.RequestResolution?
  }

  lemma RequestOpensIssue(db: Tables, op: Op)
    requires Paired(db) && op.RequestResolution?
    ensures IssuesFit(Next(db, op))
  {
    ActiveIsLast(db);
  }

  lemma FinishIssues(db: Tables, op: Op)
    requires Paired(db) && Finishes(op)
    ensures IssuesFit(Next(db, op))
  {
    if op.RequestResolution? {
      RequestOpensIssue(db, op);
    } else {
      ActiveIsLast(db);
    }
  }

  lemma FinishPairs(db: Tables, op: Op)
    requires Paired(db) && Finishes(op)
    ensures Paired(Next(db, op)) && HistoryKept(db, Next(db, op))
  {
    FinishIssues(db, op);
    if Apply(db, op).Ok? {
      FinishEnds(db, op);
      EndedClaimsFit(db, Next(db, op));
    }
  }

  lemma ResolveIssuePairs(db: Tables, op: Op)
    requires Paired(db) && op.ResolveIssue?
    ensures Paired(Next(db, op)) && HistoryKept(db, Next(db, op))
  {
  }

  lemma CancelPairs(db: Tables, op: Op)
    requires Paired(db) && op.CancelTask?
    ensures Paired(Next(db, op)) && HistoryKept(db, Next(db, op))
  {
    ActiveIsLast(db);
    var next := Next(db, op);
    if Apply(db, op).Ok? && db.task.lifecycle.activity.Working? {
      assert LastClaimEnded(db, next);
      EndedClaimsFit(db, next);
    }
  }

  lemma PairingStep(db: Tables, op: Op)
    requires Paired(db)
    ensures Paired(Next(db, op)) && HistoryKept(db, Next(db, op))
  {
    if Quiet(op) {
      QuietPairs(db, op);
    } else {
      match op
      case ClaimTask(expected, owner, now) => ClaimPairs(db, expected, owner, now);
      case ExpireDueClaim(now) => ExpireStepPairs(db, now);
      case RequestResolution(_, _, _) => FinishPairs(db, op);
      case ResolveIssue(_, _, _, _) => ResolveIssuePairs(db, op);
      case CancelTask(_, _) => CancelPairs(db, op);
      case ReleaseClaim(_, _) => FinishPairs(db, op);
      case CompleteExecution(_, _, _, _) => FinishPairs(db, op);
      case RequestChanges(_, _) => FinishPairs(db, op);
      case AcceptTask(_, _, _, _) => FinishPairs(db, op);
      case _ => ReadinessPairs(db, op);
    }
  }

  function Actives(db: Tables): set<int> {
    set k | 0 <= k < |db.claims| && db.claims[k].status.Active?
  }

  function OpenIssues(db: Tables): set<int> {
    set i | 0 <= i < |db.issues| && db.issues[i].open
  }

  /** Working exactly with one active Claim, on the phase's stage; blocked exactly with one open Issue, of that phase. */
  predicate WorkedByOneClaim(db: Tables) {
    if db.task.lifecycle.activity.Working?
    then exists k :: 0 <= k < |db.claims| && Actives(db) == {k} && db.claims[k].stage == StageOf(db.task.lifecycle.phase)
    else Actives(db) == {}
  }

  predicate BlockedByOneIssue(db: Tables) {
    if db.task.lifecycle.activity.NeedsResolution?
    then exists i :: 0 <= i < |db.issues| && OpenIssues(db) == {i} && db.issues[i].openedFrom == db.task.lifecycle.phase
                     && db.task.activeIssue == Some(i)
    else OpenIssues(db) == {} && db.task.activeIssue == None
  }

  lemma PairedMeansOne(db: Tables)
    requires Paired(db)
    ensures WorkedByOneClaim(db) && BlockedByOneIssue(db)
  {
    var last, latest := |db.claims| - 1, |db.issues| - 1;
    if db.task.lifecycle.activity.Working? {
      assert Actives(db) == {last};
    }
    if db.task.lifecycle.activity.NeedsResolution? {
      assert OpenIssues(db) == {latest};
    }
  }

  /** In every run of commands the lifecycle, the Claims and the Issues stay paired, cancelled Tasks included. */
  lemma {:induction false} StaysPaired(db: Tables, ops: seq<Op>)
    requires Paired(db)
    ensures Paired(Run(db, ops)) && WorkedByOneClaim(Run(db, ops)) && BlockedByOneIssue(Run(db, ops))
    decreases |ops|
  {
    if ops == [] {
      PairedMeansOne(db);
    } else {
      PairingStep(db, ops[0]);
      StaysPaired(Next(db, ops[0]), ops[1..]);
    }
  }

  /** A Claim runs for seven days: it falls due then and not before. */
  lemma ClaimLastsSevenDays(db: Tables, expected: int, owner: Id, now: Time, later: Time)
    requires Paired(db) && Apply(db, ClaimTask(expected, owner, now)).Ok?
    ensures var next := Next(db, ClaimTask(expected, owner, now));
            && |next.claims| == |db.claims| + 1
            && next.claims[|db.claims|].owner == owner
            && (DueClaim(next, |db.claims|, later) <==> later >= now + 7 * 24 * HOUR)
  {
    ExpiryPairs(db, now);
  }

  lemma TerminalStep(db: Tables, op: Op)
    requires Paired(db) && db.task.lifecycle.phase.Terminal()
    ensures SamePairing(db, Next(db, op))
  {
    ActiveIsLast(db);
    if Quiet(op) {
      QuietPairs(db, op);
    } else if Finishes(op) {
      FinishNeedsClaim(db, op);
    }
  }

  lemma FinishNeedsClaim(db: Tables, op: Op)
    requires Finishes(op) && ActiveClaimOf(db) == None
    ensures Next(db, op) == db
  {
  }

  /** A Task that is done or cancelled stays so: its lifecycle, Claims and Issues never change again. */
  lemma {:induction false} TerminalTasksStay(db: Tables, ops: seq<Op>)
    requires Paired(db) && db.task.lifecycle.phase.Terminal()
    ensures SamePairing(db, Run(db, ops))
    decreases |ops|
  {
    if ops != [] {
      TerminalStep(db, ops[0]);
      PairingStep(db, ops[0]);
      TerminalTasksStay(Next(db, ops[0]), ops[1..]);
    }
  }

  /** Nobody works on an archived Task and no Issue blocks it. */
  predicate ArchivedRests(db: Tables) {
    db.task.archived ==> db.task.lifecycle.activity.Idle? || db.task.lifecycle.activity.Available?
  }

  lemma ArchivedRestsStep(db: Tables, op: Op)
    requires Paired(db) && ArchivedRests(db)
    ensures ArchivedRests(Next(db, op))
  {
    var next := Next(db, op);
    if op.SetArchived? || op.ResolveIssue? || op.CancelTask? || op.MarkReady? || op.WithdrawReadiness? {
    } else if Quiet(op) {
      QuietPairs(db, op);
      QuietKeepsArchived(db, op);
    } else if Finishes(op) {
      ActiveIsLast(db);
      FinishKeepsArchived(db, op);
    } else {
      ExpiryPairs(db, op.now);
    }
  }

  lemma QuietKeepsArchived(db: Tables, op: Op)
    requires Quiet(op) && !op.SetArchived?
    ensures Next(db, op).task.archived == db.task.archived
  {
  }

  lemma FinishKeepsArchived(db: Tables, op: Op)
    requires Finishes(op)
    ensures Next(db, op).task.archived == db.task.archived
    ensures Next(db, op) != db ==> ActiveClaimOf(db).Some?
  {
  }

  lemma {:induction false} ArchivedTasksRest(db: Tables, ops: seq<Op>)
    requires Paired(db) && ArchivedRests(db)
    ensures ArchivedRests(Run(db, ops))
    decreases |ops|
  {
    if ops != [] {
      PairingStep(db, ops[0]);
      ArchivedRestsStep(db, ops[0]);
      ArchivedTasksRest(Next(db, ops[0]), ops[1..]);
    }
  }

  // ---------------------------------------------------------------- guards

  /** The lifecycle transition that goes with a Claim outcome. */
  function LifecycleFor(l: Lifecycle, stage: Stage, outcome: ClaimOutcome, readiness: Readiness): Result<Lifecycle, WorkflowError> {
    match outcome
    case ExecutionCompleted => l.CompleteExecution()
    case TaskAccepted => l.Accept(readiness)
    case ChangesRequested => l.RequestChanges()
    case ResolutionNeeded => l.RequestResolution(stage)
    case VoluntarilyReleased => l.Release(stage)
    case DeadlineElapsed => l.Release(stage)
    case TaskCancelled => l.Cancel()
  }

  /** For the Claim a Task is worked under, the lifecycle guard and the Claim guard take the same outcomes. */
  lemma GuardsAgree(db: Tables, outcome: ClaimOutcome, readiness: Readiness)
    requires Paired(db) && db.task.lifecycle.activity.Working? && readiness.Complete()
    ensures var claim := db.claims[|db.claims| - 1];
            LifecycleFor(db.task.lifecycle, claim.stage, outcome, readiness).Ok? <==> claim.Complete(outcome).Ok?
  {
    var stage := db.claims[|db.claims| - 1].stage;
    assert stage.Review? <==> db.task.lifecycle.phase.InReview?;
  }

  /** The caller names the Claim the Task is worked under, as its owner and at the current versions. */
  predicate Holds(db: Tables, ref: ClaimRef) {
    var last := |db.claims| - 1;
    && db.task.lifecycle.activity.Working? && last >= 0 && ref.claim == last
    && ref.taskVersion == db.task.version && ref.claimVersion == db.claims[last].version
    && ref.actor == db.claims[last].owner
  }

  /** Why a reference is refused: a stale Task version, then another or changed Claim, then another owner. */
  function HolderRefusal(db: Tables, ref: ClaimRef): Option<WorkflowError> {
    var last := |db.claims| - 1;
    if ref.taskVersion != db.task.version then Some(VersionConflict(db.task.version))
    else if !db.task.lifecycle.activity.Working? || last < 0 || ref.claim != last || ref.claimVersion != db.claims[last].version
    then Some(Conflict)
    else if ref.actor != db.claims[last].owner then Some(Forbidden)
    else None
  }

  /** Only the owner of the Claim gets through, and only with the versions it has seen. */
  lemma OwnedClaimMeans(db: Tables, ref: ClaimRef)
    requires Paired(db)
    ensures OwnedClaim(db, ref) ==
              if HolderRefusal(db, ref).Some? then Err(HolderRefusal(db, ref).value) else Ok(|db.claims| - 1)
    ensures OwnedClaim(db, ref).Ok? <==> Holds(db, ref)
  {
    ActiveIsLast(db);
  }

  /** A command text that is not blank and a reference to the Claim the caller holds. */
  predicate Presents(db: Tables, ref: ClaimRef, body: string) {
    !Blank(body) && Holds(db, ref)
  }

  /** So a Claim command that gets past its own checks is refused only for its inputs or the phase it needs: it never half succeeds. */
  lemma ClaimCommandsSucceedIff(
    db: Tables, ref: ClaimRef, body: string, knownType: bool, active: set<Id>, presented: seq<Snapshot>,
    children: nat, dependencies: nat)
    requires Paired(db)
    ensures Apply(db, ReleaseClaim(ref, body)).Ok? <==> Presents(db, ref, body)
    ensures Apply(db, RequestResolution(ref, body, knownType)).Ok? <==> Presents(db, ref, body) && knownType
    ensures Apply(db, CompleteExecution(ref, body, active, presented)).Ok? <==>
              Presents(db, ref, body) && db.task.lifecycle.phase.InProgress? && DeliversExactly(active, presented)
    ensures Apply(db, RequestChanges(ref, body)).Ok? <==> Presents(db, ref, body) && db.task.lifecycle.phase.InReview?
    ensures Apply(db, AcceptTask(ref, body, children, dependencies)).Ok? <==>
              Presents(db, ref, body) && db.task.lifecycle.phase.InReview?
              && ReadinessOf(db, children, dependencies).Complete()
  {
    ActiveIsLast(db);
    OwnedClaimMeans(db, ref);
    DeliveryAcceptedIff(active, presented);
  }

  lemma TaskCommandsSucceedIff(db: Tables, expected: int, issue: nat, issueVersion: int, text: string)
    requires Paired(db)
    ensures Apply(db, CancelTask(expected, text)).Ok? <==>
              !Blank(text) && db.task.version == expected && !db.task.lifecycle.phase.Terminal()
    ensures Apply(db, ResolveIssue(expected, issue, issueVersion, text)).Ok? <==>
              !Blank(text) && db.task.version == expected && db.task.activeIssue == Some(issue)
              && db.issues[issue].version == issueVersion
  {
    ActiveIsLast(db);
  }

  // ---------------------------------------------------------------- review cycles

  function Count(claims: seq<Claim>, outcome: ClaimOutcome): nat {
    if claims == [] then 0
    else Count(claims[..|claims| - 1], outcome) + if claims[|claims| - 1].outcome == Some(outcome) then 1 else 0
  }

  function Completions(db: Tables, k: nat): nat
    requires k <= |db.claims|
  {
    Count(db.claims[..k], ExecutionCompleted)
  }

  function ChangeRequests(db: Tables, k: nat): nat
    requires k <= |db.claims|
  {
    Count(db.claims[..k], ChangesRequested)
  }

  /** The stage the history before Claim `k` calls for: review while a completion is unanswered. */
  predicate StageFits(db: Tables, k: nat)
    requires k < |db.claims|
  {
    Completions(db, k) == ChangeRequests(db, k) + if db.claims[k].stage.Review? then 1 else 0
  }

  predicate PhaseFits(db: Tables) {
    var done, changed := Count(db.claims, ExecutionCompleted), Count(db.claims, ChangesRequested);
    && db.task.lifecycle.reviewCycle == done
    && match db.task.lifecycle.phase
       case InReview => done == changed + 1
       case Done => done == changed + 1
       case Cancelled => changed <= done <= changed + 1
       case _ => done == changed
  }

  predicate CyclesFit(db: Tables) {
    PhaseFits(db) && forall k :: 0 <= k < |db.claims| ==> StageFits(db, k)
  }

  lemma PrefixesKept(db: Tables, next: Tables, k: nat)
    requires HistoryKept(db, next) && k < |db.claims|
    ensures next.claims[..k] == db.claims[..k]
  {
  }

  lemma StagesKept(db: Tables, next: Tables, k: nat)
    requires HistoryKept(db, next) && k < |db.claims| && StageFits(db, k)
    ensures StageFits(next, k)
  {
    PrefixesKept(db, next, k);
  }

  lemma CountLast(claims: seq<Claim>, c: Claim, outcome: ClaimOutcome)
    ensures Count(claims + [c], outcome) == Count(claims, outcome) + if c.outcome == Some(outcome) then 1 else 0
  {
    assert (claims + [c])[..|claims|] == claims;
  }

  /** Totals after the last Claim went from active to what it is in `next`. */
  lemma TotalsAfterEnding(db: Tables, next: Tables, outcome: ClaimOutcome)
    requires ClaimsFit(db) && |db.claims| > 0 && |next.claims| == |db.claims| && HistoryKept(db, next)
    requires db.claims[|db.claims| - 1].status.Active?
    ensures Count(next.claims, outcome) ==
            Count(db.claims, outcome) + if next.claims[|db.claims| - 1].outcome == Some(outcome) then 1 else 0
  {
    PrefixesKept(db, next, |db.claims| - 1);
  }

  predicate Inv(db: Tables) {
    Paired(db) && CyclesFit(db)
  }

  lemma AllStagesKept(db: Tables, next: Tables)
    requires HistoryKept(db, next) && CyclesFit(db)
    ensures forall k :: 0 <= k < |db.claims| ==> StageFits(next, k)
  {
    forall k | 0 <= k < |db.claims|
      ensures StageFits(next, k)
    {
      StagesKept(db, next, k);
    }
  }

  lemma QuietCycles(db: Tables, op: Op)
    requires Inv(db) && Quiet(op)
    ensures CyclesFit(Next(db, op))
  {
    QuietPairs(db, op);
    AllStagesKept(db, Next(db, op));
  }

  lemma LifecycleOnlyCycles(db: Tables, op: Op)
    requires Inv(db) && (op.MarkReady? || op.WithdrawReadiness? || op.ResolveIssue?)
    ensures CyclesFit(Next(db, op))
  {
    var next := Next(db, op);
    assert next.claims == db.claims;
    AllStagesKept(db, next);
  }

  /** What a Claim's outcome does to the phase and the review cycle. */
  predicate PhaseMoves(before: Lifecycle, after: Lifecycle, outcome: ClaimOutcome) {
    && after.reviewCycle == before.reviewCycle + (if outcome.ExecutionCompleted? then 1 else 0)
    && match outcome
       case ExecutionCompleted => before.phase.InProgress? && after.phase.InReview?
       case ChangesRequested => before.phase.InReview? && after.phase.InProgress?
       case TaskAccepted => before.phase.InReview? && after.phase.Done?
       case TaskCancelled => after.phase.Cancelled?
       case _ => after.phase == before.phase
  }

  predicate EndedWith(db: Tables, next: Tables, outcome: ClaimOutcome) {
    && LastClaimEnded(db, next)
    && next.claims[|db.claims| - 1].outcome == Some(outcome)
    && PhaseMoves(db.task.lifecycle, next.task.lifecycle, outcome)
  }

  lemma EndedCycles(db: Tables, next: Tables, outcome: ClaimOutcome)
    requires Inv(db) && EndedWith(db, next, outcome)
    ensures CyclesFit(next)
  {
    EndedClaimsFit(db, next);
    AllStagesKept(db, next);
    TotalsAfterEnding(db, next, ExecutionCompleted);
    TotalsAfterEnding(db, next, ChangesRequested);
  }

  lemma ExpireCycles(db: Tables, now: Time)
    requires Inv(db)
    ensures CyclesFit(Next(db, ExpireDueClaim(now)))
  {
    ExpiryPairs(db, now);
    if Due(db, now) {
      EndedCycles(db, Next(db, ExpireDueClaim(now)), DeadlineElapsed);
    }
  }

  lemma AppendedCycles(db: Tables, next: Tables, added: Claim)
    requires CyclesFit(db) && next.claims == db.claims + [added] && added.outcome.None?
    requires next.task.lifecycle.reviewCycle == db.task.lifecycle.reviewCycle
    requires next.task.lifecycle.phase.Active() && added.stage == StageOf(next.task.lifecycle.phase)
    requires || next.task.lifecycle.phase == db.task.lifecycle.phase
             || (db.task.lifecycle.phase.Ready? && next.task.lifecycle.phase.InProgress?)
    ensures CyclesFit(next)
  {
    CountLast(db.claims, added, ExecutionCompleted);
    CountLast(db.claims, added, ChangesRequested);
    forall k | 0 <= k < |next.claims|
      ensures StageFits(next, k)
    {
      if k < |db.claims| {
        assert StageFits(db, k) && next.claims[..k] == db.claims[..k];
      } else {
        assert next.claims[..k] == db.claims;
      }
    }
  }

  lemma ClaimCycles(db: Tables, expected: int, owner: Id, now: Time)
    requires Inv(db)
    ensures CyclesFit(Next(db, ClaimTask(expected, owner, now)))
  {
    ExpiryPairs(db, now);
    var freed := WithDueClaimExpired(db, now).value;
    if Due(db, now) {
      EndedCycles(db, freed, DeadlineElapsed);
    }
    if Apply(db, ClaimTask(expected, owner, now)).Ok? {
      var next := Next(db, ClaimTask(expected, owner, now));
      AppendedCycles(freed, next, next.claims[|freed.claims|]);
    }
  }

  function OutcomeOf(op: Op): ClaimOutcome
    requires Finishes(op)
  {
    match op
    case ReleaseClaim(_, _) => VoluntarilyReleased
    case CompleteExecution(_, _, _, _) => ExecutionCompleted
    case RequestChanges(_, _) => ChangesRequested
    case AcceptTask(_, _, _, _) => TaskAccepted
    case RequestResolution(_, _, _) => ResolutionNeeded
  }

  lemma FinishEnds(db: Tables, op: Op)
    requires Paired(db) && Finishes(op) && Apply(db, op).Ok?
    ensures EndedWith(db, Next(db, op), OutcomeOf(op))
  {
    ActiveIsLast(db);
  }

  lemma FinishCycles(db: Tables, op: Op)
    requires Inv(db) && Finishes(op)
    ensures CyclesFit(Next(db, op))
  {
    if Apply(db, op).Ok? {
      FinishEnds(db, op);
      EndedCycles(db, Next(db, op), OutcomeOf(op));
    }
  }

  lemma CancelCycles(db: Tables, op: Op)
    requires Inv(db) && op.CancelTask?
    ensures CyclesFit(Next(db, op))
  {
    var next := Next(db, op);
    ActiveIsLast(db);
    if Apply(db, op).Ok? && db.task.lifecycle.activity.Working? {
      assert EndedWith(db, next, TaskCancelled);
      EndedCycles(db, next, TaskCancelled);
    } else {
      assert next.claims == db.claims;
      AllStagesKept(db, next);
    }
  }

  lemma StepKeepsInv(db: Tables, op: Op)
    requires Inv(db)
    ensures Inv(Next(db, op)) && HistoryKept(db, Next(db, op))
  {
    PairingStep(db, op);
    if Quiet(op) {
      QuietCycles(db, op);
    } else {
      match op
      case ClaimTask(expected, owner, now) => ClaimCycles(db, expected, owner, now);
      case ExpireDueClaim(now) => ExpireCycles(db, now);
      case CancelTask(_, _) => CancelCycles(db, op);
      case ReleaseClaim(_, _) => FinishCycles(db, op);
      case CompleteExecution(_, _, _, _) => FinishCycles(db, op);
      case RequestChanges(_, _) => FinishCycles(db, op);
      case RequestResolution(_, _, _) => FinishCycles(db, op);
      case AcceptTask(_, _, _, _) => FinishCycles(db, op);
      case _ => LifecycleOnlyCycles(db, op);
    }
  }

  /** The review cycle counts completed executions; one more than the change requests exactly under or after review. */
  lemma {:induction false} ReviewCyclesCount(db: Tables, ops: seq<Op>)
    requires Inv(db)
    ensures Inv(Run(db, ops))
    ensures var end := Run(db, ops);
            var open := Count(end.claims, ExecutionCompleted) - Count(end.claims, ChangesRequested);
            && end.task.lifecycle.reviewCycle == Count(end.claims, ExecutionCompleted)
            && 0 <= open <= 1
            && (!end.task.lifecycle.phase.Cancelled? ==>
                  (open == 1 <==> end.task.lifecycle.phase.InReview? || end.task.lifecycle.phase.Done?))
    decreases |ops|
  {
    if ops != [] {
      StepKeepsInv(db, ops[0]);
      ReviewCyclesCount(Next(db, ops[0]), ops[1..]);
    }
  }
}
