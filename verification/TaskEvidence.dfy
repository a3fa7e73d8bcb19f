/**
 What a run of Task commands leaves on record: the review cycle each delivery item
 is tagged with, the checks that may count towards acceptance, and the versions
 that let only one of two competing commands through.
 */
module TaskEvidence {
  import opened Common
  import opened TaskDomain
  import opened TaskWorkflow
  import opened TaskWorkflowProperties

  // ---------------------------------------------------------------- cycle tags

  /** The review cycle work under Claim `k` belongs to. */
  function Tag(db: Tables, k: nat): int
    requires k < |db.claims|
  {
    Completions(db, k) + CycleOffset(db.claims[k].stage)
  }

  predicate ItemFits(db: Tables, item: Item) {
    && item.claim < |db.claims|
    && item.cycle == Tag(db, item.claim)
    && (!item.kind.Progress? ==> db.claims[item.claim].stage.Execution?)
    && (item.kind.Completion? ==> db.claims[item.claim].outcome == Some(ExecutionCompleted))
  }

  predicate ItemsFit(db: Tables) {
    && (forall i :: 0 <= i < |db.items| ==> ItemFits(db, db.items[i]))
    && (forall i, j :: 0 <= i < j < |db.items| ==> db.items[i].claim <= db.items[j].claim)
  }

  lemma CurrentTag(db: Tables)
    requires Inv(db) && db.task.lifecycle.activity.Working?
    ensures var last := |db.claims| - 1;
            && Completions(db, last) == db.task.lifecycle.reviewCycle
            && Tag(db, last) == db.task.lifecycle.reviewCycle + CycleOffset(db.claims[last].stage)
  {
    var last := |db.claims| - 1;
    assert db.claims[last].outcome.None?;
  }

  /** Work under a Claim belongs to a cycle of at least 1, and a completed execution opens the cycle it was tagged with. */
  lemma TagsNameCycles(db: Tables, k: nat)
    requires Inv(db) && k < |db.claims|
    ensures Tag(db, k) >= 1
    ensures db.claims[k].outcome == Some(ExecutionCompleted) ==> Tag(db, k) == Completions(db, k + 1)
  {
    assert StageFits(db, k);
    assert db.claims[..k + 1] == db.claims[..k] + [db.claims[k]];
    CountLast(db.claims[..k], db.claims[k], ExecutionCompleted);
  }

  lemma {:induction false} CountGrows(claims: seq<Claim>, k: nat, j: nat, outcome: ClaimOutcome)
    requires k <= j <= |claims|
    ensures Count(claims[..k], outcome) <= Count(claims[..j], outcome)
    decreases j
  {
    if k < j {
      assert claims[..j] == claims[..j - 1] + [claims[j - 1]];
      CountLast(claims[..j - 1], claims[j - 1], outcome);
      CountGrows(claims, k, j - 1, outcome);
    }
  }

  lemma TagsGrow(db: Tables, k: nat, j: nat)
    requires Inv(db) && k <= j < |db.claims|
    ensures Tag(db, k) <= Tag(db, j)
  {
    CountGrows(db.claims, k, j, ExecutionCompleted);
    CountGrows(db.claims, k, j, ChangesRequested);
    assert StageFits(db, k) && StageFits(db, j);
  }

  lemma ItemsKept(db: Tables, next: Tables, item: Item)
    requires HistoryKept(db, next) && ClaimsFit(db) && ItemFits(db, item)
    ensures ItemFits(next, item)
  {
    PrefixesKept(db, next, item.claim);
  }

  predicate Delivers(op: Op) {
    op.SubmitWork? || op.CompleteExecution? || op.RecordProgress?
  }

  predicate Checks(op: Op) {
    op.RecordCheck? || op.AddPlainCheck?
  }

  predicate Words(op: Op) {
    op.AddCriterion? || op.EditCriterion? || op.RemoveCriterion?
  }

  /** Only deliveries write items, only checks write checks, only rewordings write criteria. */
  predicate WritesOwnTable(db: Tables, op: Op) {
    var next := Next(db, op);
    && (!Delivers(op) ==> next.items == db.items)
    && (!Checks(op) ==> next.checks == db.checks)
    && (!Words(op) ==> next.criteria == db.criteria)
  }

  lemma QuietWriters(db: Tables, op: Op)
    requires Quiet(op)
    ensures WritesOwnTable(db, op)
  {
  }

  lemma FinishWriters(db: Tables, op: Op)
    requires Finishes(op)
    ensures WritesOwnTable(db, op)
  {
  }

  lemma Writers(db: Tables, op: Op)
    ensures WritesOwnTable(db, op)
  {
    if Quiet(op) {
      QuietWriters(db, op);
    } else if Finishes(op) {
      FinishWriters(db, op);
    }
  }

  /** An item is added under the latest Claim, with its tag. */
  lemma AddedItem(db: Tables, op: Op)
    requires Inv(db) && Delivers(op) && Apply(db, op).Ok?
    ensures var next := Next(db, op);
            && |next.items| == |db.items| + 1 && next.items[..|db.items|] == db.items
            && |next.claims| == |db.claims| && next.items[|db.items|].claim == |db.claims| - 1
            && ItemFits(next, next.items[|db.items|])
  {
    ActiveIsLast(db);
    CurrentTag(db);
    var next := Next(db, op);
    assert next.claims[..|db.claims| - 1] == db.claims[..|db.claims| - 1];
  }

  lemma ItemsExtend(db: Tables, next: Tables)
    requires ItemsFit(db) && ClaimsFit(db) && HistoryKept(db, next)
    requires || next.items == db.items
             || (&& |next.items| == |db.items| + 1 && next.items[..|db.items|] == db.items
                 && next.items[|db.items|].claim == |db.claims| - 1
                 && ItemFits(next, next.items[|db.items|]))
    ensures ItemsFit(next)
  {
    forall i | 0 <= i < |db.items|
      ensures ItemFits(next, next.items[i]) && next.items[i].claim <= |db.claims| - 1
    {
      assert next.items[i] == db.items[i];
      ItemsKept(db, next, db.items[i]);
    }
  }

  lemma ItemsStep(db: Tables, op: Op)
    requires Inv(db) && ItemsFit(db)
    ensures ItemsFit(Next(db, op))
  {
    var next := Next(db, op);
    StepKeepsInv(db, op);
    if Delivers(op) && Apply(db, op).Ok? {
      AddedItem(db, op);
    } else {
      Writers(db, op);
    }
    ItemsExtend(db, next);
  }

  /** Tags never decrease along the thread and agree within a Claim. */
  predicate TagsOrdered(db: Tables) {
    && (forall i :: 0 <= i < |db.items| ==> db.items[i].cycle >= 1)
    && (forall i, j :: 0 <= i < j < |db.items| ==> db.items[i].cycle <= db.items[j].cycle)
    && (forall i, j :: 0 <= i < |db.items| && 0 <= j < |db.items| && db.items[i].claim == db.items[j].claim ==>
          db.items[i].cycle == db.items[j].cycle)
  }

  lemma ItemsFitOrders(db: Tables)
    requires Inv(db) && ItemsFit(db)
    ensures TagsOrdered(db)
  {
    forall i | 0 <= i < |db.items|
      ensures db.items[i].cycle >= 1
    {
      assert ItemFits(db, db.items[i]);
      TagsNameCycles(db, db.items[i].claim);
    }
    forall i, j | 0 <= i < j < |db.items|
      ensures db.items[i].cycle <= db.items[j].cycle
    {
      assert ItemFits(db, db.items[i]) && ItemFits(db, db.items[j]);
      TagsGrow(db, db.items[i].claim, db.items[j].claim);
    }
    forall i, j | 0 <= i < |db.items| && 0 <= j < |db.items| && db.items[i].claim == db.items[j].claim
      ensures db.items[i].cycle == db.items[j].cycle
    {
      assert ItemFits(db, db.items[i]) && ItemFits(db, db.items[j]);
    }
  }

  /** A completion item names the cycle its Claim opened. */
  predicate CompletionsNameCycles(db: Tables) {
    forall i :: 0 <= i < |db.items| && db.items[i].kind.Completion? ==>
      db.items[i].claim < |db.claims| && db.items[i].cycle == Completions(db, db.items[i].claim + 1)
  }

  lemma ItemsFitNameCycles(db: Tables)
    requires Inv(db) && ItemsFit(db)
    ensures CompletionsNameCycles(db)
  {
    forall i | 0 <= i < |db.items| && db.items[i].kind.Completion?
      ensures db.items[i].claim < |db.claims| && db.items[i].cycle == Completions(db, db.items[i].claim + 1)
    {
      assert ItemFits(db, db.items[i]);
      TagsNameCycles(db, db.items[i].claim);
    }
  }

  lemma {:induction false} ItemsStayFit(db: Tables, ops: seq<Op>)
    requires Inv(db) && ItemsFit(db)
    ensures Inv(Run(db, ops)) && ItemsFit(Run(db, ops))
    decreases |ops|
  {
    if ops != [] {
      StepKeepsInv(db, ops[0]);
      ItemsStep(db, ops[0]);
      ItemsStayFit(Next(db, ops[0]), ops[1..]);
    }
  }

  /** In every run the cycle tags on delivery items behave, and a completion item names the cycle it opened. */
  lemma CycleTagsHold(db: Tables, ops: seq<Op>)
    requires Inv(db) && ItemsFit(db)
    ensures var end := Run(db, ops); Inv(end) && ItemsFit(end) && TagsOrdered(end) && CompletionsNameCycles(end)
  {
    ItemsStayFit(db, ops);
    ItemsFitOrders(Run(db, ops));
    ItemsFitNameCycles(Run(db, ops));
  }

  // ---------------------------------------------------------------- acceptance evidence

  predicate CheckFits(db: Tables, check: Check) {
    && check.criterion in db.criteria
    && check.revision <= db.criteria[check.criterion].revision
    && match check.claim
       case None => check.purpose.Unstated?
       case Some(k) =>
         k < |db.claims| && check.purpose == CheckPurpose(db.claims[k].stage) && check.cycle == Some(Completions(db, k))
  }

  predicate ChecksFit(db: Tables) {
    forall i :: 0 <= i < |db.checks| ==> CheckFits(db, db.checks[i])
  }

  /** Criteria with checks are never deleted and their revision never goes back. */
  predicate CriteriaKept(db: Tables, next: Tables) {
    forall i :: 0 <= i < |db.checks| ==>
      && db.checks[i].criterion in next.criteria
      && (db.checks[i].criterion in db.criteria ==>
            db.criteria[db.checks[i].criterion].revision <= next.criteria[db.checks[i].criterion].revision)
  }

  lemma CriteriaStep(db: Tables, op: Op)
    requires ChecksFit(db)
    ensures CriteriaKept(db, Next(db, op))
  {
    forall i | 0 <= i < |db.checks|
      ensures db.checks[i].criterion in db.criteria
    {
      assert CheckFits(db, db.checks[i]);
    }
    if !Words(op) {
      Writers(db, op);
    }
  }

  lemma AddedCheck(db: Tables, op: Op)
    requires Inv(db) && Checks(op) && Apply(db, op).Ok?
    ensures var next := Next(db, op);
            && |next.checks| == |db.checks| + 1 && next.checks[..|db.checks|] == db.checks
            && CheckFits(next, next.checks[|db.checks|])
  {
    if op.RecordCheck? {
      ActiveIsLast(db);
      CurrentTag(db);
    }
  }

  lemma ChecksExtend(db: Tables, next: Tables)
    requires ChecksFit(db) && HistoryKept(db, next) && CriteriaKept(db, next)
    requires || next.checks == db.checks
             || (&& |next.checks| == |db.checks| + 1 && next.checks[..|db.checks|] == db.checks
                 && CheckFits(next, next.checks[|db.checks|]))
    ensures ChecksFit(next) && db.checks <= next.checks
  {
    forall i | 0 <= i < |db.checks|
      ensures CheckFits(next, next.checks[i])
    {
      assert next.checks[i] == db.checks[i];
      assert CheckFits(db, db.checks[i]);
      if db.checks[i].claim.Some? {
        PrefixesKept(db, next, db.checks[i].claim.value);
      }
    }
  }

  lemma ChecksStep(db: Tables, op: Op)
    requires Inv(db) && ChecksFit(db)
    ensures ChecksFit(Next(db, op)) && db.checks <= Next(db, op).checks
  {
    StepKeepsInv(db, op);
    CriteriaStep(db, op);
    if Checks(op) && Apply(db, op).Ok? {
      AddedCheck(db, op);
    } else {
      Writers(db, op);
    }
    ChecksExtend(db, Next(db, op));
  }

  lemma {:induction false} ChecksStayFit(db: Tables, ops: seq<Op>)
    requires Inv(db) && ChecksFit(db)
    ensures Inv(Run(db, ops)) && ChecksFit(Run(db, ops))
    decreases |ops|
  {
    if ops != [] {
      StepKeepsInv(db, ops[0]);
      ChecksStep(db, ops[0]);
      ChecksStayFit(Next(db, ops[0]), ops[1..]);
    }
  }

  /** The check passed for what its criterion says now, under a review Claim made after the latest completion. */
  predicate CurrentEvidence(db: Tables, check: Check) {
    && check.criterion in db.criteria
    && !db.criteria[check.criterion].archived
    && check.revision == db.criteria[check.criterion].revision
    && check.outcome.Satisfies()
    && check.claim.Some?
    && check.claim.value < |db.claims|
    && db.claims[check.claim.value].stage.Review?
    && Completions(db, check.claim.value) == Count(db.claims, ExecutionCompleted)
  }

  lemma CountsIff(db: Tables, i: nat)
    requires Inv(db) && ChecksFit(db) && i < |db.checks|
    ensures Counts(db, db.checks[i]) <==> CurrentEvidence(db, db.checks[i])
  {
    assert CheckFits(db, db.checks[i]);
  }

  /** In every run of a Task, the checks that count are exactly the current evidence. */
  lemma CountsIffCurrent(ops: seq<Op>, i: nat)
    requires i < |Run(NewTask(), ops).checks|
    ensures var db := Run(NewTask(), ops); Counts(db, db.checks[i]) <==> CurrentEvidence(db, db.checks[i])
  {
    ChecksStayFit(NewTask(), ops);
    CountsIff(Run(NewTask(), ops), i);
  }

  lemma ReadyIff(db: Tables, children: nat, dependencies: nat)
    ensures ReadinessOf(db, children, dependencies).Complete() <==>
              && children == 0 && dependencies == 0
              && forall id :: id in db.criteria && !db.criteria[id].archived ==> Satisfied(db, id)
  {
    var active := set id | id in db.criteria && !db.criteria[id].archived;
    var missing := set id | id in active && !Satisfied(db, id);
    assert ReadinessOf(db, children, dependencies) == Readiness(|active|, |missing|, children, dependencies);
    if missing == {} {
      forall id | id in db.criteria && !db.criteria[id].archived
        ensures Satisfied(db, id)
      {
        assert id in active && id !in missing;
      }
    } else {
      var id :| id in missing;
      assert id in active && |active| > 0 && |missing| > 0 && !Satisfied(db, id);
    }
  }

  /** Every active criterion has current evidence. */
  predicate Evidenced(db: Tables) {
    forall id :: id in db.criteria && !db.criteria[id].archived ==>
      exists i :: 0 <= i < |db.checks| && db.checks[i].criterion == id && CurrentEvidence(db, db.checks[i])
  }

  lemma AcceptsIff(db: Tables, ref: ClaimRef, body: string, children: nat, dependencies: nat)
    requires Inv(db) && ChecksFit(db)
    ensures Apply(db, AcceptTask(ref, body, children, dependencies)).Ok? <==>
              && Presents(db, ref, body) && db.task.lifecycle.phase.InReview?
              && children == 0 && dependencies == 0 && Evidenced(db)
  {
    ClaimCommandsSucceedIff(db, ref, body, true, {}, [], children, dependencies);
    ReadyIff(db, children, dependencies);
    forall i | 0 <= i < |db.checks|
      ensures Counts(db, db.checks[i]) <==> CurrentEvidence(db, db.checks[i])
    {
      CountsIff(db, i);
    }
  }

  /**
   In every run of a Task, acceptance goes through exactly when every active criterion
   has current evidence and nothing else is unfinished.
   */
  lemma AcceptedOnCurrentEvidence(ops: seq<Op>, ref: ClaimRef, body: string, children: nat, dependencies: nat)
    ensures var db := Run(NewTask(), ops);
            Apply(db, AcceptTask(ref, body, children, dependencies)).Ok? <==>
              && Presents(db, ref, body) && db.task.lifecycle.phase.InReview?
              && children == 0 && dependencies == 0 && Evidenced(db)
  {
    ChecksStayFit(NewTask(), ops);
    AcceptsIff(Run(NewTask(), ops), ref, body, children, dependencies);
  }

  /** A check that cannot count: not an acceptance that passed, or of an earlier cycle or an earlier wording. */
  predicate Stale(db: Tables, check: Check) {
    || !check.purpose.Acceptance?
    || !check.outcome.Satisfies()
    || check.cycle.None? || check.cycle.value < db.task.lifecycle.reviewCycle
    || check.criterion !in db.criteria || check.revision < db.criteria[check.criterion].revision
  }

  lemma CyclesNeverShrink(db: Tables, next: Tables)
    requires Inv(db) && Inv(next) && HistoryKept(db, next)
    ensures db.task.lifecycle.reviewCycle <= next.task.lifecycle.reviewCycle
  {
    if |db.claims| > 0 {
      var last := |db.claims| - 1;
      PrefixesKept(db, next, last);
      assert next.claims[..last + 1] == next.claims[..last] + [next.claims[last]];
      CountLast(next.claims[..last], next.claims[last], ExecutionCompleted);
      CountGrows(next.claims, last + 1, |next.claims|, ExecutionCompleted);
      assert next.claims[..|next.claims|] == next.claims;
    }
  }

  /** Once stale a check stays stale and never counts, whatever is done afterwards. */
  lemma {:induction false} StaleChecksNeverCount(db: Tables, ops: seq<Op>, i: nat)
    requires Inv(db) && ChecksFit(db) && i < |db.checks| && Stale(db, db.checks[i])
    ensures var end := Run(db, ops);
            && i < |end.checks| && end.checks[i] == db.checks[i]
            && Stale(end, end.checks[i]) && !Counts(end, end.checks[i])
    decreases |ops|
  {
    if ops != [] {
      var next := Next(db, ops[0]);
      StepKeepsInv(db, ops[0]);
      ChecksStep(db, ops[0]);
      CriteriaStep(db, ops[0]);
      CyclesNeverShrink(db, next);
      assert CheckFits(db, db.checks[i]);
      assert next.checks[i] == db.checks[i];
      StaleChecksNeverCount(next, ops[1..], i);
    }
  }

  /** Rewording a criterion makes every check of it stale, and so does completing another execution. */
  lemma EditsAndCompletionsMakeStale(db: Tables, op: Op, i: nat)
    requires Inv(db) && ChecksFit(db) && i < |db.checks| && Apply(db, op).Ok?
    requires || op.CompleteExecution?
             || (&& op.EditCriterion? && op.id == db.checks[i].criterion
                 && (op.text != db.criteria[op.id].text || op.instructions != db.criteria[op.id].instructions))
    ensures i < |Next(db, op).checks| && Stale(Next(db, op), db.checks[i])
  {
    assert CheckFits(db, db.checks[i]);
    if op.CompleteExecution? && db.checks[i].claim.Some? {
      var k := db.checks[i].claim.value;
      CountGrows(db.claims, k, |db.claims|, ExecutionCompleted);
      assert db.claims[..|db.claims|] == db.claims;
    }
  }

  // ---------------------------------------------------------------- versions

  function ExpectedVersion(op: Op): Option<int> {
    match op
    case MarkReady(expected, _) => Some(expected)
    case WithdrawReadiness(expected, _) => Some(expected)
    case ClaimTask(expected, _, _) => Some(expected)
    case ReleaseClaim(ref, _) => Some(ref.taskVersion)
    case SubmitWork(ref, _) => Some(ref.taskVersion)
    case CompleteExecution(ref, _, _, _) => Some(ref.taskVersion)
    case RequestChanges(ref, _) => Some(ref.taskVersion)
    case RequestResolution(ref, _, _) => Some(ref.taskVersion)
    case ResolveIssue(expected, _, _, _) => Some(expected)
    case RecordCheck(ref, _, _, _, _) => Some(ref.taskVersion)
    case AcceptTask(ref, _, _, _) => Some(ref.taskVersion)
    case CancelTask(expected, _) => Some(expected)
    case SetArchived(expected, _) => expected
    case _ => None
  }

  /** A command takes the version it expects to the next one; recording work or a check leaves it. */
  predicate VersionMoves(db: Tables, op: Op) {
    var before, after := db.task.version, Next(db, op).task.version;
    && before <= after
    && (Apply(db, op).Ok? && ExpectedVersion(op).Some? ==>
          && ExpectedVersion(op).value == before
          && after == before + if op.SubmitWork? || op.RecordCheck? then 0 else 1)
  }

  lemma QuietVersion(db: Tables, op: Op)
    requires Quiet(op)
    ensures VersionMoves(db, op)
  {
  }

  lemma FinishVersion(db: Tables, op: Op)
    requires Finishes(op)
    ensures VersionMoves(db, op)
  {
  }

  lemma VersionStep(db: Tables, op: Op)
    ensures VersionMoves(db, op)
  {
    if Quiet(op) {
      QuietVersion(db, op);
    } else if Finishes(op) {
      FinishVersion(db, op);
    }
  }

  lemma {:induction false} VersionsNeverReturn(db: Tables, ops: seq<Op>)
    ensures db.task.version <= Run(db, ops).task.version
    decreases |ops|
  {
    if ops != [] {
      VersionStep(db, ops[0]);
      VersionsNeverReturn(Next(db, ops[0]), ops[1..]);
    }
  }

  /** Of two commands prepared against the same Task version, once one has moved the Task the other is refused. */
  lemma OneCommandPerVersion(db: Tables, first: Op, between: seq<Op>, second: Op)
    requires Apply(db, first).Ok? && !first.SubmitWork? && !first.RecordCheck?
    requires ExpectedVersion(first).Some? && ExpectedVersion(second) == ExpectedVersion(first)
    ensures Apply(Run(Next(db, first), between), second).Err?
  {
    VersionStep(db, first);
    VersionsNeverReturn(Next(db, first), between);
    VersionStep(Run(Next(db, first), between), second);
  }

  // ---------------------------------------------------------------- from the start

  /** Everything above holds of every Task from its creation on. */
  lemma EveryRunFits(ops: seq<Op>)
    ensures var db := Run(NewTask(), ops);
            && WorkedByOneClaim(db) && BlockedByOneIssue(db) && ArchivedRests(db)
            && Inv(db) && ItemsFit(db) && TagsOrdered(db) && ChecksFit(db)
  {
    StaysPaired(NewTask(), ops);
    ArchivedTasksRest(NewTask(), ops);
    CycleTagsHold(NewTask(), ops);
    ChecksStayFit(NewTask(), ops);
  }
}
