/**
 What every history of comment transactions keeps: who is notified how often,
 and where a thread's root is.
 */
module CommentProperties {
  import opened Common
  import opened Comments

  function Run(db: Tables, ops: seq<Op>): Tables
    decreases |ops|
  {
    if ops == [] then db else Run(Apply(db, ops[0]), ops[1..])
  }

  /** Tasks at any versions, and no comments yet. */
  function Start(taskVersions: map<Id, int>): Tables {
    Tables(taskVersions, map[], {})
  }

  predicate Persists(before: Tables, after: Tables) {
    forall c :: c in before.comments ==>
      && c in after.comments
      && after.comments[c].author == before.comments[c].author
      && after.comments[c].task == before.comments[c].task
      && after.comments[c].replyTo == before.comments[c].replyTo
      && after.comments[c].root == before.comments[c].root
  }

  /** No event names a version its comment has not reached. */
  predicate VersionsBounded(db: Tables) {
    && (forall c :: c in db.comments ==> db.comments[c].version >= 1)
    && (forall e :: e in db.events ==> e.comment in db.comments && 1 <= e.version <= db.comments[e.comment].version)
  }

  lemma VersionsStayBounded(db: Tables, op: Op)
    requires VersionsBounded(db)
    ensures VersionsBounded(Apply(db, op)) && Persists(db, Apply(db, op))
  {
  }

  // ---------------------------------------------------------------- mentions

  predicate Mentions(db: Tables, c: Id, u: Id) {
    c in db.comments && u in db.comments[c].mentions
  }

  predicate NewlyMentions(before: Tables, after: Tables, c: Id, u: Id) {
    !Mentions(before, c, u) && Mentions(after, c, u)
  }

  /** How many transactions of a history turned `u` from not mentioned by `c` into mentioned. */
  function TimesNewlyMentioned(db: Tables, ops: seq<Op>, c: Id, u: Id): nat
    decreases |ops|
  {
    if ops == [] then 0
    else
      var next := Apply(db, ops[0]);
      (if NewlyMentions(db, next, c, u) then 1 else 0) + TimesNewlyMentioned(next, ops[1..], c, u)
  }

  function MentionEvents(db: Tables, c: Id, u: Id): set<Event> {
    set e | e in db.events && e.kind.Mentioned? && e.comment == c && e.recipient == u
  }

  lemma SortedMentionsSame(mentioned: seq<Id>, u: Id)
    ensures u in Sorted(mentioned) <==> u in Elements(mentioned)
  {
    SortedSorts(mentioned);
  }

  lemma MentionStep(db: Tables, op: Op, c: Id, u: Id)
    requires VersionsBounded(db)
    requires c in Apply(db, op).comments
    ensures var next := Apply(db, op);
            var notice := Event(Mentioned, c, next.comments[c].version, u);
            if NewlyMentions(db, next, c, u) && u != next.comments[c].author
            then notice !in db.events && MentionEvents(next, c, u) == MentionEvents(db, c, u) + {notice}
            else MentionEvents(next, c, u) == MentionEvents(db, c, u)
  {
    if op.Create? || op.Edit? {
      SortedMentionsSame(op.mentioned, u);
    }
  }

  lemma {:induction false} EventsCountMentions(db: Tables, ops: seq<Op>, c: Id, u: Id)
    requires VersionsBounded(db)
    requires c in Run(db, ops).comments
    ensures var author := Run(db, ops).comments[c].author;
            |MentionEvents(Run(db, ops), c, u)| ==
            |MentionEvents(db, c, u)| + if u == author then 0 else TimesNewlyMentioned(db, ops, c, u)
    decreases |ops|
  {
    if ops != [] {
      var next := Apply(db, ops[0]);
      VersionsStayBounded(db, ops[0]);
      EventsCountMentions(next, ops[1..], c, u);
      if c in next.comments {
        MentionStep(db, ops[0], c, u);
        AuthorsPersist(next, ops[1..], c);
      } else {
        assert MentionEvents(db, c, u) == {} && MentionEvents(next, c, u) == {};
      }
    }
  }

  /**
   Over any history a person other than the author receives, for each comment, exactly
   one mention event for each version that newly mentions them; the author receives none.
   */
  lemma OneEventPerNewMention(taskVersions: map<Id, int>, ops: seq<Op>, c: Id, u: Id)
    requires c in Run(Start(taskVersions), ops).comments
    ensures var end := Run(Start(taskVersions), ops);
            |MentionEvents(end, c, u)| ==
            if u == end.comments[c].author then 0 else TimesNewlyMentioned(Start(taskVersions), ops, c, u)
  {
    EventsCountMentions(Start(taskVersions), ops, c, u);
    assert MentionEvents(Start(taskVersions), c, u) == {};
  }

  lemma {:induction false} AuthorsPersist(db: Tables, ops: seq<Op>, c: Id)
    requires VersionsBounded(db) && c in db.comments
    ensures c in Run(db, ops).comments && Run(db, ops).comments[c].author == db.comments[c].author
    decreases |ops|
  {
    if ops != [] {
      VersionsStayBounded(db, ops[0]);
      AuthorsPersist(Apply(db, ops[0]), ops[1..], c);
    }
  }

  // ---------------------------------------------------------------- replies

  /** The comment replies to a comment somebody else wrote. */
  predicate AnswersAnother(db: Tables, c: Id) {
    && c in db.comments
    && db.comments[c].replyTo.Some?
    && db.comments[c].replyTo.value in db.comments
    && db.comments[db.comments[c].replyTo.value].author != db.comments[c].author
  }

  function Answered(db: Tables, c: Id): Id
    requires AnswersAnother(db, c)
  {
    db.comments[db.comments[c].replyTo.value].author
  }

  /** The author answered hears of a reply exactly once: as a reply or as a mention. */
  predicate ReplyAnnounced(db: Tables, c: Id)
    requires AnswersAnother(db, c)
  {
    Event(Replied, c, 1, Answered(db, c)) in db.events <==> Event(Mentioned, c, 1, Answered(db, c)) !in db.events
  }

  ghost predicate RepliesAnnounced(db: Tables) {
    && (forall c :: c in db.comments && db.comments[c].replyTo.Some? ==> db.comments[c].replyTo.value in db.comments)
    && (forall c :: AnswersAnother(db, c) ==> ReplyAnnounced(db, c))
    && (forall e :: e in db.events && e.kind.Replied? ==>
          AnswersAnother(db, e.comment) && e.version == 1 && e.recipient == Answered(db, e.comment))
  }

  lemma OldCommentsStayAnnounced(db: Tables, op: Op, c: Id)
    requires VersionsBounded(db) && RepliesAnnounced(db) && c in db.comments
    ensures var next := Apply(db, op); AnswersAnother(next, c) ==> ReplyAnnounced(next, c)
  {
    var next := Apply(db, op);
    if AnswersAnother(next, c) {
      assert AnswersAnother(db, c) && Answered(next, c) == Answered(db, c);
      assert ReplyAnnounced(db, c);
      var reply, mention := Event(Replied, c, 1, Answered(db, c)), Event(Mentioned, c, 1, Answered(db, c));
      assert db.comments[c].version >= 1;
      assert reply in next.events <==> reply in db.events;
      assert mention in next.events <==> mention in db.events;
    }
  }

  lemma NewCommentIsAnnounced(db: Tables, op: Op, c: Id)
    requires VersionsBounded(db) && RepliesAnnounced(db)
    requires c !in db.comments && c in Apply(db, op).comments
    ensures var next := Apply(db, op); AnswersAnother(next, c) ==> ReplyAnnounced(next, c)
  {
    var next := Apply(db, op);
    if AnswersAnother(next, c) {
      var parent := next.comments[c].replyTo.value;
      assert parent in db.comments;
      assert forall e :: e in db.events ==> e.comment != c;
    }
  }

  lemma RepliesStep(db: Tables, op: Op)
    requires VersionsBounded(db) && RepliesAnnounced(db)
    ensures RepliesAnnounced(Apply(db, op))
  {
    var next := Apply(db, op);
    forall c | AnswersAnother(next, c)
      ensures ReplyAnnounced(next, c)
    {
      if c in db.comments {
        OldCommentsStayAnnounced(db, op, c);
      } else {
        NewCommentIsAnnounced(db, op, c);
      }
    }
    VersionsStayBounded(db, op);
    forall e | e in next.events && e.kind.Replied?
      ensures AnswersAnother(next, e.comment) && e.version == 1 && e.recipient == Answered(next, e.comment)
    {
      if e in db.events {
        assert AnswersAnother(db, e.comment);
      }
    }
  }

  lemma {:induction false} RepliesStayAnnounced(db: Tables, ops: seq<Op>)
    requires VersionsBounded(db) && RepliesAnnounced(db)
    ensures RepliesAnnounced(Run(db, ops))
    decreases |ops|
  {
    if ops != [] {
      VersionsStayBounded(db, ops[0]);
      RepliesStep(db, ops[0]);
      RepliesStayAnnounced(Apply(db, ops[0]), ops[1..]);
    }
  }

  /**
   Over any history the author a reply answers is told of it exactly once, as a reply
   or as a mention, and nobody else receives a reply event.
   */
  lemma RepliesAreAnnouncedOnce(taskVersions: map<Id, int>, ops: seq<Op>)
    ensures RepliesAnnounced(Run(Start(taskVersions), ops))
  {
    RepliesStayAnnounced(Start(taskVersions), ops);
  }

  // ---------------------------------------------------------------- thread roots

  predicate Link(db: Tables, child: Id, parent: Id) {
    && child in db.comments && parent in db.comments
    && db.comments[child].replyTo == Some(parent)
    && db.comments[child].task == db.comments[parent].task
  }

  /** A reply chain on one task, from a comment up to one that replies to nothing. */
  predicate Chain(db: Tables, path: seq<Id>) {
    && |path| > 0
    && path[|path| - 1] in db.comments
    && db.comments[path[|path| - 1]].replyTo.None?
    && forall i :: 0 <= i < |path| - 1 ==> Link(db, path[i], path[i + 1])
  }

  predicate ChainFrom(db: Tables, path: seq<Id>, c: Id, top: Id) {
    Chain(db, path) && path[0] == c && path[|path| - 1] == top
  }

  ghost predicate Rooted(db: Tables, c: Id)
    requires c in db.comments
  {
    exists path :: ChainFrom(db, path, c, db.comments[c].root)
  }

  ghost predicate AllRooted(db: Tables) {
    forall c :: c in db.comments ==> Rooted(db, c)
  }

  lemma ChainsPersist(before: Tables, after: Tables, path: seq<Id>)
    requires Persists(before, after) && Chain(before, path)
    ensures Chain(after, path)
  {
    forall i | 0 <= i < |path| - 1
      ensures Link(after, path[i], path[i + 1])
    {
      assert Link(before, path[i], path[i + 1]);
    }
  }

  lemma ChainExtends(db: Tables, c: Id, path: seq<Id>)
    requires Chain(db, path) && Link(db, c, path[0])
    ensures Chain(db, [c] + path)
  {
    var longer := [c] + path;
    forall i | 0 <= i < |longer| - 1
      ensures Link(db, longer[i], longer[i + 1])
    {
      assert i == 0 || Link(db, path[i - 1], path[i - 1 + 1]);
    }
  }

  lemma ChainTail(db: Tables, path: seq<Id>)
    requires Chain(db, path) && |path| > 1
    ensures Chain(db, path[1..]) && Link(db, path[0], path[1])
  {
    var rest := path[1..];
    forall i | 0 <= i < |rest| - 1
      ensures Link(db, rest[i], rest[i + 1])
    {
      assert Link(db, path[i + 1], path[i + 1 + 1]);
    }
    assert Link(db, path[0], path[0 + 1]);
  }

  lemma OldCommentStaysRooted(before: Tables, after: Tables, c: Id)
    requires Persists(before, after) && c in before.comments && Rooted(before, c)
    ensures Rooted(after, c)
  {
    var path :| ChainFrom(before, path, c, before.comments[c].root);
    ChainsPersist(before, after, path);
    assert ChainFrom(after, path, c, after.comments[c].root);
  }

  lemma ReplyIsRooted(db: Tables, c: Id, parent: Id)
    requires Link(db, c, parent) && db.comments[c].root == db.comments[parent].root && Rooted(db, parent)
    ensures Rooted(db, c)
  {
    var path :| ChainFrom(db, path, parent, db.comments[parent].root);
    ChainExtends(db, c, path);
    assert ChainFrom(db, [c] + path, c, db.comments[c].root);
  }

  lemma RootedStep(db: Tables, op: Op)
    requires VersionsBounded(db) && AllRooted(db)
    ensures AllRooted(Apply(db, op))
  {
    var next := Apply(db, op);
    VersionsStayBounded(db, op);
    forall c | c in db.comments
      ensures Rooted(next, c)
    {
      OldCommentStaysRooted(db, next, c);
    }
    forall c | c in next.comments && c !in db.comments
      ensures Rooted(next, c)
    {
      if op.replyTo.None? {
        assert ChainFrom(next, [c], c, c);
      } else {
        ReplyIsRooted(next, c, op.replyTo.value);
      }
    }
  }

  lemma {:induction false} ChainsAreUnique(db: Tables, p: seq<Id>, q: seq<Id>)
    requires Chain(db, p) && Chain(db, q) && p[0] == q[0]
    ensures p == q
    decreases |p|
  {
    if |p| == 1 {
      assert |q| == 1 by {
        if |q| > 1 {
          ChainTail(db, q);
        }
      }
    } else {
      ChainTail(db, p);
      assert |q| > 1;
      ChainTail(db, q);
      ChainsAreUnique(db, p[1..], q[1..]);
      assert p == [p[0]] + p[1..] && q == [q[0]] + q[1..];
    }
  }

  lemma {:induction false} RootsEndChains(db: Tables, ops: seq<Op>, c: Id)
    requires VersionsBounded(db) && AllRooted(db)
    requires c in Run(db, ops).comments
    ensures var end := Run(db, ops);
            && Rooted(end, c)
            && forall path, top :: ChainFrom(end, path, c, top) ==> top == end.comments[c].root
    decreases |ops|
  {
    if ops == [] {
      var root :| ChainFrom(db, root, c, db.comments[c].root);
      forall path, top | ChainFrom(db, path, c, top)
        ensures top == db.comments[c].root
      {
        ChainsAreUnique(db, path, root);
      }
    } else {
      VersionsStayBounded(db, ops[0]);
      RootedStep(db, ops[0]);
      RootsEndChains(Apply(db, ops[0]), ops[1..], c);
    }
  }

  /** Over any history a comment's thread root is the end of its one reply chain, all on its own task. */
  lemma ThreadRootIsTopOfChain(taskVersions: map<Id, int>, ops: seq<Op>, c: Id)
    requires c in Run(Start(taskVersions), ops).comments
    ensures var end := Run(Start(taskVersions), ops);
            && Rooted(end, c)
            && forall path, top :: ChainFrom(end, path, c, top) ==> top == end.comments[c].root
  {
    RootsEndChains(Start(taskVersions), ops, c);
  }
}
