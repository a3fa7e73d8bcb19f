/**
 What each comment command writes and refuses, in the columns it reads, and
 which people it notifies.
 */
module CommentEffects {
  import opened Common
  import opened Comments

  /** A list of mentions without the nil id and without repetition. */
  predicate Distinct(ids: seq<Id>) {
    0 !in ids && forall i, j :: 0 <= i < j < |ids| ==> ids[i] != ids[j]
  }

  /** The comment an actor may change. */
  predicate Own(db: Tables, id: Id, task: Id, actor: Id) {
    id in db.comments && db.comments[id].task == task && !db.comments[id].deleted && db.comments[id].author == actor
  }

  predicate AtVersion(current: int, expected: Option<int>) {
    expected == None || expected == Some(current)
  }

  /** Creation succeeds exactly on these conditions, whatever order they are tested in. */
  lemma CreationSucceedsIff(db: Tables, op: Op)
    requires op.Create?
    ensures Refusal(db, op).None? <==>
              && !Blank(op.body) && Distinct(op.mentioned) && (forall u :: u in op.mentioned ==> u in op.members)
              && op.task in db.taskVersions && AtVersion(db.taskVersions[op.task], op.expectedTaskVersion)
              && (op.replyTo == None ||
                  (op.replyTo.value in db.comments && db.comments[op.replyTo.value].task == op.task))
  {
  }

  /** A new comment opens its own thread or joins the one it answers, moves the task's version, and is version one. */
  lemma CreationInserts(db: Tables, op: Op)
    requires op.Create? && op.id !in db.comments
    ensures var next := Apply(db, op);
            if Refusal(db, op).Some? then next == db
            else
              && next.taskVersions == db.taskVersions[op.task := db.taskVersions[op.task] + 1]
              && op.id in next.comments && next.comments == db.comments[op.id := next.comments[op.id]]
              && var c := next.comments[op.id];
                 && c.task == op.task && c.author == op.author && c.replyTo == op.replyTo
                 && c.version == 1 && !c.deleted
                 && c.root == (if op.replyTo == None then op.id else db.comments[op.replyTo.value].root)
                 && Ascending(c.mentions) && NoDuplicates(c.mentions)
                 && forall u :: u in c.mentions <==> u in op.mentioned
  {
    SortedSorts(op.mentioned);
  }

  /** Who hears of a new comment: those it mentions but its author, and whom it answers if not mentioned. */
  lemma CreationNotifies(db: Tables, op: Op, e: Event)
    requires op.Create? && op.id !in db.comments && Refusal(db, op).None?
    ensures e in Apply(db, op).events <==>
              || e in db.events
              || (e.comment == op.id && e.version == 1 && e.recipient != op.author
                  && match e.kind
                     case Mentioned => e.recipient in op.mentioned
                     case Replied =>
                       && op.replyTo.Some? && db.comments[op.replyTo.value].author == e.recipient
                       && e.recipient !in op.mentioned)
  {
  }

  /** Editing is for the author, on a comment that is there, at the version expected if one is. */
  lemma EditSucceedsIff(db: Tables, op: Op)
    requires op.Edit?
    ensures Refusal(db, op).None? <==>
              && !Blank(op.body) && Distinct(op.mentioned) && (forall u :: u in op.mentioned ==> u in op.members)
              && Own(db, op.id, op.task, op.actor) && AtVersion(db.comments[op.id].version, op.expectedVersion)
  {
  }

  lemma EditRewrites(db: Tables, op: Op)
    requires op.Edit?
    ensures var next := Apply(db, op);
            if Refusal(db, op).Some? then next == db
            else
              && next.taskVersions == db.taskVersions && next.comments == db.comments[op.id := next.comments[op.id]]
              && var b, c := db.comments[op.id], next.comments[op.id];
                 && c.version == b.version + 1 && !c.deleted
                 && c.task == b.task && c.author == b.author && c.replyTo == b.replyTo && c.root == b.root
                 && Ascending(c.mentions) && NoDuplicates(c.mentions)
                 && forall u :: u in c.mentions <==> u in op.mentioned
  {
    SortedSorts(op.mentioned);
  }

  /** An edit notifies only whom it newly mentions, and announces no reply. */
  lemma EditNotifies(db: Tables, op: Op, e: Event)
    requires op.Edit? && Refusal(db, op).None?
    ensures e in Apply(db, op).events <==>
              || e in db.events
              || (e.kind.Mentioned? && e.comment == op.id && e.version == db.comments[op.id].version + 1
                  && e.recipient != db.comments[op.id].author
                  && e.recipient in op.mentioned && e.recipient !in db.comments[op.id].mentions)
  {
  }

  /** Deleting needs no body and no mentions, leaves the row in its thread and notifies nobody. */
  lemma DeletionBlanks(db: Tables, op: Op)
    requires op.Delete?
    ensures Apply(db, op) ==
            if Own(db, op.id, op.task, op.actor) && AtVersion(db.comments[op.id].version, op.expectedVersion)
            then
              var c := db.comments[op.id];
              db.(comments := db.comments[op.id := Comment(c.task, c.author, c.replyTo, c.root, c.version + 1, true, [])])
            else db
    ensures Refusal(db, op).None? <==>
              Own(db, op.id, op.task, op.actor) && AtVersion(db.comments[op.id].version, op.expectedVersion)
  {
  }

  /** Which refusal a change gets: not found before forbidden, forbidden before a stale version. */
  lemma ChangeRefusals(db: Tables, op: Op)
    requires op.Delete? || (op.Edit? && !Blank(op.body) && Distinct(op.mentioned))
    ensures var there := op.id in db.comments && db.comments[op.id].task == op.task && !db.comments[op.id].deleted;
            && (!there <==> Refusal(db, op) == Some(NotFound))
            && (there && db.comments[op.id].author != op.actor <==> Refusal(db, op) == Some(Forbidden))
            && (there && db.comments[op.id].author == op.actor
                && !AtVersion(db.comments[op.id].version, op.expectedVersion) <==>
                Refusal(db, op).Some? && Refusal(db, op).value.VersionConflict?)
            && (Refusal(db, op).Some? && Refusal(db, op).value.VersionConflict? ==>
                Refusal(db, op).value.current == db.comments[op.id].version)
  {
  }
}
