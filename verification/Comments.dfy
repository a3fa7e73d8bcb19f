/**
 Threaded comments and their notification events: internal/store/comment_store.go
 with the outbox insert of internal/store/event_writer.go. Creating, editing and
 deleting a comment is one transaction; events are keyed by kind, comment,
 version and recipient, and a key that exists already is not inserted again.
 */
module Comments {
  import opened Common

  datatype Comment = Comment(
    task: Id, author: Id, replyTo: Option<Id>, root: Id, version: int, deleted: bool, mentions: seq<Id>)

  datatype EventKind = Mentioned | Replied

  /** The deduplication key of an event. */
  datatype Event = Event(kind: EventKind, comment: Id, version: int, recipient: Id)

  datatype Tables = Tables(taskVersions: map<Id, int>, comments: map<Id, Comment>, events: set<Event>)

  datatype CommentError = InvalidInput | Forbidden | NotFound | VersionConflict(current: int)

  // ---------------------------------------------------------------- user id lists

  function Insert(x: Id, s: seq<Id>): seq<Id> {
    if s == [] || x <= s[0] then [x] + s else [s[0]] + Insert(x, s[1..])
  }

  function Sorted(s: seq<Id>): seq<Id> {
    if s == [] then [] else Insert(s[0], Sorted(s[1..]))
  }

  predicate Ascending(s: seq<Id>) {
    forall i, j :: 0 <= i < j < |s| ==> s[i] <= s[j]
  }

  predicate NoDuplicates(s: seq<Id>) {
    forall i, j :: 0 <= i < j < |s| ==> s[i] != s[j]
  }

  function Elements(s: seq<Id>): set<Id> {
    set x | x in s
  }

  lemma PrependKeeps(x: Id, s: seq<Id>)
    ensures NoDuplicates([x] + s) <==> x !in s && NoDuplicates(s)
    ensures Ascending(s) && (forall y :: y in s ==> x <= y) ==> Ascending([x] + s)
  {
    var t := [x] + s;
    if NoDuplicates(t) {
      forall i, j | 0 <= i < j < |s|
        ensures s[i] != s[j]
      {
        assert t[i + 1] != t[j + 1];
      }
      forall i | 0 <= i < |s|
        ensures x != s[i]
      {
        assert t[0] != t[i + 1];
      }
    }
    if Ascending(s) && (forall y :: y in s ==> x <= y) {
      forall i, j | 0 <= i < j < |t|
        ensures t[i] <= t[j]
      {
        assert t[j] == s[j - 1] && t[j] in s;
        assert i == 0 || t[i] == s[i - 1];
      }
    }
  }

  lemma {:induction false} InsertSorts(x: Id, s: seq<Id>)
    requires Ascending(s)
    ensures Ascending(Insert(x, s))
    ensures forall y :: y in Insert(x, s) <==> y == x || y in s
    ensures NoDuplicates(Insert(x, s)) <==> x !in s && NoDuplicates(s)
  {
    if s == [] || x <= s[0] {
      PrependKeeps(x, s);
    } else {
      var rest := s[1..];
      assert s == [s[0]] + rest;
      InsertSorts(x, rest);
      PrependKeeps(s[0], rest);
      PrependKeeps(s[0], Insert(x, rest));
    }
  }

  lemma {:induction false} SortedSorts(s: seq<Id>)
    ensures Ascending(Sorted(s))
    ensures forall y :: y in Sorted(s) <==> y in s
    ensures NoDuplicates(Sorted(s)) <==> NoDuplicates(s)
  {
    if s != [] {
      var rest := s[1..];
      assert s == [s[0]] + rest;
      SortedSorts(rest);
      InsertSorts(s[0], Sorted(rest));
      PrependKeeps(s[0], rest);
    }
  }

  predicate WellFormedMentions(ids: seq<Id>) {
    NIL !in ids && NoDuplicates(ids)
  }

  /** Sorted mentions, refused when one is nil or repeated. */
  method UniqueUserIDs(ids: seq<Id>) returns (r: Result<seq<Id>, CommentError>)
    ensures r.Ok? <==> WellFormedMentions(ids)
    ensures r.Err? ==> r.error == InvalidInput
    ensures r.Ok? ==> r.value == Sorted(ids) && Ascending(r.value) && NoDuplicates(r.value) && Elements(r.value) == Elements(ids)
  {
    var result := Sorted(ids);
    SortedSorts(ids);
    for i := 0 to |result|
      invariant NIL !in result[..i]
      invariant NoDuplicates(result[..i])
    {
      assert result[..i + 1] == result[..i] + [result[i]];
      if result[i] == NIL {
        return Err(InvalidInput);
      }
      if i > 0 && result[i - 1] == result[i] {
        return Err(InvalidInput);
      }
      assert forall k :: 0 <= k < i ==> result[k] <= result[i - 1] < result[i];
    }
    assert result[..|result|] == result;
    r := Ok(result);
  }

  function Difference(current: seq<Id>, previous: set<Id>): seq<Id> {
    if current == [] then []
    else
      var rest := Difference(current[..|current| - 1], previous);
      if current[|current| - 1] in previous then rest else rest + [current[|current| - 1]]
  }

  lemma {:induction false} DifferenceElements(current: seq<Id>, previous: set<Id>)
    ensures Elements(Difference(current, previous)) == Elements(current) - previous
  {
    if current != [] {
      var init, last := current[..|current| - 1], current[|current| - 1];
      assert current == init + [last];
      DifferenceElements(init, previous);
      assert Elements(current) == Elements(init) + {last};
      var rest := Difference(init, previous);
      assert Elements(rest + [last]) == Elements(rest) + {last};
    }
  }

  /** The ids of `current` that are not in `previous`, in order. */
  method AddedIDs(current: seq<Id>, previous: seq<Id>) returns (added: seq<Id>)
    ensures added == Difference(current, Elements(previous))
  {
    var seen: set<Id> := {};
    for i := 0 to |previous|
      invariant seen == Elements(previous[..i])
    {
      assert previous[..i + 1] == previous[..i] + [previous[i]];
      seen := seen + {previous[i]};
    }
    assert previous[..|previous|] == previous;
    added := [];
    for i := 0 to |current|
      invariant added == Difference(current[..i], seen)
    {
      assert current[..i + 1][..i] == current[..i];
      if current[i] !in seen {
        added := added + [current[i]];
      }
    }
    assert current[..|current|] == current;
  }

  // ---------------------------------------------------------------- transactions

  /** The events of one version: a mention for each newly mentioned person but the author, and a reply. */
  function EventsOf(id: Id, version: int, author: Id, added: set<Id>, replyAuthor: Option<Id>): set<Event> {
    (set u | u in added && u != author :: Event(Mentioned, id, version, u)) +
    (if replyAuthor.Some? && replyAuthor.value != author && replyAuthor.value !in added
     then {Event(Replied, id, version, replyAuthor.value)} else {})
  }

  datatype Op =
    | Create(id: Id, task: Id, expectedTaskVersion: Option<int>, author: Id, body: string,
             replyTo: Option<Id>, mentioned: seq<Id>, members: set<Id>)
    | Edit(id: Id, task: Id, expectedVersion: Option<int>, actor: Id, body: string,
           mentioned: seq<Id>, members: set<Id>)
    | Delete(id: Id, task: Id, expectedVersion: Option<int>, actor: Id)

  /** A reply target is a comment on the same task, deleted or not. */
  predicate ReplyTargetExists(db: Tables, task: Id, replyTo: Option<Id>) {
    replyTo.Some? ==> replyTo.value in db.comments && db.comments[replyTo.value].task == task
  }

  function Refusal(db: Tables, op: Op): Option<CommentError> {
    match op
    case Create(id, task, expectedTaskVersion, author, body, replyTo, mentioned, members) =>
      if Blank(body) || !WellFormedMentions(mentioned) then Some(InvalidInput)
      else if task !in db.taskVersions then Some(NotFound)
      else if expectedTaskVersion.Some? && db.taskVersions[task] != expectedTaskVersion.value
      then Some(VersionConflict(db.taskVersions[task]))
      else if !(Elements(mentioned) <= members) then Some(InvalidInput)
      else if !ReplyTargetExists(db, task, replyTo) then Some(InvalidInput)
      else None
    case Edit(id, task, expectedVersion, actor, body, mentioned, members) =>
      if Blank(body) || !WellFormedMentions(mentioned) then Some(InvalidInput)
      else if id !in db.comments || db.comments[id].task != task || db.comments[id].deleted then Some(NotFound)
      else if db.comments[id].author != actor then Some(Forbidden)
      else if expectedVersion.Some? && db.comments[id].version != expectedVersion.value
      then Some(VersionConflict(db.comments[id].version))
      else if !(Elements(mentioned) <= members) then Some(InvalidInput)
      else None
    case Delete(id, task, expectedVersion, actor) =>
      if id !in db.comments || db.comments[id].task != task || db.comments[id].deleted then Some(NotFound)
      else if db.comments[id].author != actor then Some(Forbidden)
      else if expectedVersion.Some? && db.comments[id].version != expectedVersion.value
      then Some(VersionConflict(db.comments[id].version))
      else None
  }

  /** A new comment takes a fresh id. */
  predicate Fresh(db: Tables, op: Op) {
    op.Create? ==> op.id !in db.comments
  }

  function Apply(db: Tables, op: Op): Tables {
    if Refusal(db, op).Some? || !Fresh(db, op) then db
    else
      match op
      case Create(id, task, _, author, _, replyTo, mentioned, _) =>
        var root := if replyTo.Some? then db.comments[replyTo.value].root else id;
        var replyAuthor := if replyTo.Some? then Some(db.comments[replyTo.value].author) else None;
        Tables(db.taskVersions[task := db.taskVersions[task] + 1],
               db.comments[id := Comment(task, author, replyTo, root, 1, false, Sorted(mentioned))],
               db.events + EventsOf(id, 1, author, Elements(mentioned), replyAuthor))
      case Edit(id, _, _, _, _, mentioned, _) =>
        var c := db.comments[id];
        db.(comments := db.comments[id := c.(version := c.version + 1, mentions := Sorted(mentioned))],
            events := db.events + EventsOf(id, c.version + 1, c.author, Elements(mentioned) - Elements(c.mentions), None))
      case Delete(id, _, _, _) =>
        var c := db.comments[id];
        db.(comments := db.comments[id := c.(version := c.version + 1, deleted := true, mentions := [])])
  }

  class CommentStore {
    var taskVersions: map<Id, int>
    var comments: map<Id, Comment>
    var events: set<Event>

    function Rows(): Tables
      reads this
    {
      Tables(taskVersions, comments, events)
    }

    method InsertCommentEvents(id: Id, version: int, author: Id, replyAuthor: Option<Id>, explicit: seq<Id>)
      modifies this`events
      ensures events == old(events) + EventsOf(id, version, author, Elements(explicit), replyAuthor)
    {
      var mentioned: set<Id> := {};
      for i := 0 to |explicit|
        invariant mentioned == Elements(explicit[..i])
        invariant events == old(events) + EventsOf(id, version, author, mentioned, None)
      {
        assert explicit[..i + 1] == explicit[..i] + [explicit[i]];
        mentioned := mentioned + {explicit[i]};
        if explicit[i] != author {
          events := events + {Event(Mentioned, id, version, explicit[i])};
        }
      }
      assert explicit[..|explicit|] == explicit;
      if replyAuthor != None && replyAuthor.value != author {
        if replyAuthor.value !in mentioned {
          events := events + {Event(Replied, id, version, replyAuthor.value)};
        }
      }
    }

    method CreateComment(id: Id, task: Id, expectedTaskVersion: Option<int>, author: Id, body: string,
                         replyTo: Option<Id>, mentioned: seq<Id>, members: set<Id>)
      returns (r: Result<Comment, CommentError>)
      requires id !in comments
      modifies this
      ensures var op := Create(id, task, expectedTaskVersion, author, body, replyTo, mentioned, members);
              && Rows() == Apply(old(Rows()), op)
              && (r.Ok? <==> Refusal(old(Rows()), op).None?)
              && (r.Ok? ==> r.value == comments[id])
              && (r.Err? ==> Refusal(old(Rows()), op) == Some(r.error))
    {
      if Blank(body) {
        return Err(InvalidInput);
      }
      var ids := UniqueUserIDs(mentioned);
      if ids.Err? {
        return Err(ids.error);
      }
      if task !in taskVersions {
        return Err(NotFound);
      }
      if expectedTaskVersion != None && taskVersions[task] != expectedTaskVersion.value {
        return Err(VersionConflict(taskVersions[task]));
      }
      if !(Elements(ids.value) <= members) {
        return Err(InvalidInput);
      }
      var root := id;
      var replyAuthor: Option<Id> := None;
      if replyTo != None {
        if replyTo.value !in comments || comments[replyTo.value].task != task {
          return Err(InvalidInput);
        }
        root := comments[replyTo.value].root;
        replyAuthor := Some(comments[replyTo.value].author);
      }
      comments := comments[id := Comment(task, author, replyTo, root, 1, false, ids.value)];
      InsertCommentEvents(id, 1, author, replyAuthor, ids.value);
      taskVersions := taskVersions[task := taskVersions[task] + 1];
      r := Ok(comments[id]);
    }

    method UpdateComment(id: Id, task: Id, expectedVersion: Option<int>, actor: Id, body: string,
                         mentioned: seq<Id>, members: set<Id>)
      returns (r: Result<Comment, CommentError>)
      modifies this
      ensures var op := Edit(id, task, expectedVersion, actor, body, mentioned, members);
              && Rows() == Apply(old(Rows()), op)
              && (r.Ok? <==> Refusal(old(Rows()), op).None?)
              && (r.Ok? ==> r.value == comments[id])
              && (r.Err? ==> Refusal(old(Rows()), op) == Some(r.error))
    {
      if Blank(body) {
        return Err(InvalidInput);
      }
      var ids := UniqueUserIDs(mentioned);
      if ids.Err? {
        return Err(ids.error);
      }
      if id !in comments || comments[id].task != task || comments[id].deleted {
        return Err(NotFound);
      }
      var c := comments[id];
      if c.author != actor {
        return Err(Forbidden);
      }
      if expectedVersion != None && c.version != expectedVersion.value {
        return Err(VersionConflict(c.version));
      }
      if !(Elements(ids.value) <= members) {
        return Err(InvalidInput);
      }
      comments := comments[id := c.(version := c.version + 1, mentions := ids.value)];
      var added := AddedIDs(ids.value, c.mentions);
      DifferenceElements(ids.value, Elements(c.mentions));
      InsertCommentEvents(id, c.version + 1, c.author, None, added);
      r := Ok(comments[id]);
    }

    method DeleteComment(id: Id, task: Id, expectedVersion: Option<int>, actor: Id) returns (r: Result<(), CommentError>)
      modifies this
      ensures var op := Delete(id, task, expectedVersion, actor);
              && Rows() == Apply(old(Rows()), op)
              && r == (if Refusal(old(Rows()), op).None? then Ok(()) else Err(Refusal(old(Rows()), op).value))
    {
      if id !in comments || comments[id].task != task || comments[id].deleted {
        return Err(NotFound);
      }
      var c := comments[id];
      if c.author != actor {
        return Err(Forbidden);
      }
      if expectedVersion != None && c.version != expectedVersion.value {
        return Err(VersionConflict(c.version));
      }
      comments := comments[id := c.(version := c.version + 1, deleted := true, mentions := [])];
      r := Ok(());
    }
  }
}
