/** The upload, upload_active and resume tables and the table of running uploads
    (repertory/librepertory/src/file_manager/file_manager.cpp). */
module UploadQueue {

  datatype Entry = Entry(apiPath: string, sourcePath: string)

  datatype ResumeEntry = ResumeEntry(chunkSize: nat, readState: seq<bool>, sourcePath: string)

  /** `upload` is ordered by row id; `lookup` is the set of paths with a running upload. */
  datatype Tables = Tables(upload: seq<Entry>, active: map<string, string>, lookup: set<string>,
                           resume: map<string, ResumeEntry>)

  function WithoutPath(upload: seq<Entry>, path: string): (r: seq<Entry>)
    ensures forall e :: e in r <==> e in upload && e.apiPath != path
  {
    if upload == [] then []
    else if upload[0].apiPath == path then WithoutPath(upload[1..], path)
    else [upload[0]] + WithoutPath(upload[1..], path)
  }

  predicate Queued(t: Tables, path: string) {
    exists e :: e in t.upload && e.apiPath == path
  }

  predicate Pending(t: Tables, path: string) {
    Queued(t, path) || path in t.active
  }

  function RemoveUpload(t: Tables, path: string): Tables {
    t.(upload := WithoutPath(t.upload, path), active := t.active - {path}, lookup := t.lookup - {path})
  }

  function QueueUpload(t: Tables, path: string, source: string): Tables {
    var r := RemoveUpload(t, path);
    r.(upload := r.upload + [Entry(path, source)], resume := r.resume - {path})
  }

  function StoreResume(t: Tables, path: string, entry: ResumeEntry): Tables {
    t.(resume := t.resume[path := entry])
  }

  function RemoveResume(t: Tables, path: string): Tables {
    t.(resume := t.resume - {path})
  }

  // ---- the upload thread ----

  /** What the provider answers when the upload thread looks a queued path up. */
  datatype Answer = Found | NotFound | Failed

  /** One round of `upload_handler`: start the oldest queued upload unless `max` are running. */
  function Handled(t: Tables, max: nat, answer: Answer): Tables {
    if |t.lookup| >= max || t.upload == [] then t else
    var entry := t.upload[0];
    match answer
    case NotFound => RemoveUpload(t, entry.apiPath)
    case Found =>
      t.(lookup := t.lookup + {entry.apiPath}, upload := WithoutPath(t.upload, entry.apiPath),
         active := t.active[entry.apiPath := entry.sourcePath])
    case Failed => QueueUpload(t, entry.apiPath, entry.sourcePath)
  }

  datatype Completion = Cancelled | Uploaded | Missing | Retry

  /** `upload_completed`. */
  function Finished(t: Tables, path: string, source: string, result: Completion): Tables {
    match result
    case Cancelled => t
    case Uploaded => t.(active := t.active - {path}, lookup := t.lookup - {path})
    case Missing => RemoveUpload(t, path)
    case Retry => QueueUpload(t, path, source)
  }

  /** `start`: every upload that was running goes back into the queue, in the order `entries` lists them. */
  function Requeued(t: Tables, entries: seq<Entry>): Tables
    decreases |entries|
  {
    if entries == [] then t
    else Requeued(QueueUpload(t, entries[0].apiPath, entries[0].sourcePath), entries[1..])
  }

  /** The upload side of the file manager, as an open file sees it. */
  class UploadManager {
    var tables: Tables

    constructor (tables: Tables)
      ensures this.tables == tables
    {
      this.tables := tables;
    }

    method DoQueueUpload(path: string, source: string, unlinked: bool)
      modifies this
      ensures tables == if unlinked then old(tables) else QueueUpload(old(tables), path, source)
    {
      if unlinked {
        return;
      }
      DoRemoveUpload(path);
      tables := tables.(upload := tables.upload + [Entry(path, source)]);
      DoRemoveResume(path);
    }

    method DoRemoveUpload(path: string)
      modifies this
      ensures tables == RemoveUpload(old(tables), path)
    {
      tables := tables.(upload := WithoutPath(tables.upload, path));
      tables := tables.(active := tables.active - {path});
      if path in tables.lookup {
        tables := tables.(lookup := tables.lookup - {path});
      }
      assert path !in tables.lookup ==> tables.lookup - {path} == tables.lookup;
    }

    method DoStoreResume(path: string, entry: ResumeEntry, unlinked: bool)
      modifies this
      ensures tables == if unlinked then old(tables) else StoreResume(old(tables), path, entry)
    {
      if !unlinked {
        tables := tables.(resume := tables.resume[path := entry]);
      }
    }

    method DoRemoveResume(path: string)
      modifies this
      ensures tables == RemoveResume(old(tables), path)
    {
      tables := tables.(resume := tables.resume - {path});
    }

    method HandleNext(max: nat, answer: Answer) returns (shouldWait: bool)
      modifies this
      ensures tables == Handled(old(tables), max, answer)
      ensures shouldWait <==> |old(tables.lookup)| >= max || old(tables.upload) == [] || answer == Failed
      ensures |old(tables.lookup)| >= max || old(tables.upload) == [] ==> tables == old(tables)
      ensures |old(tables.lookup)| < max && old(tables.upload) != [] && UniquePaths(old(tables.upload)) ==>
                IsHandled(old(tables), answer, tables)
    {
      HandledIs(tables, max, answer);
      shouldWait := true;
      if |tables.lookup| < max && tables.upload != [] {
        var entry := tables.upload[0];
        match answer {
          case NotFound =>
            shouldWait := false;
            DoRemoveUpload(entry.apiPath);
          case Found =>
            shouldWait := false;
            tables := tables.(lookup := tables.lookup + {entry.apiPath});
            tables := tables.(upload := WithoutPath(tables.upload, entry.apiPath));
            tables := tables.(active := tables.active[entry.apiPath := entry.sourcePath]);
          case Failed =>
            DoQueueUpload(entry.apiPath, entry.sourcePath, false);
        }
      }
    }

    method UploadCompleted(path: string, source: string, result: Completion)
      modifies this
      ensures tables == Finished(old(tables), path, source, result)
    {
      match result {
        case Cancelled =>
        case Uploaded =>
          tables := tables.(active := tables.active - {path});
          tables := tables.(lookup := tables.lookup - {path});
        case Missing => DoRemoveUpload(path);
        case Retry => DoQueueUpload(path, source, false);
      }
    }

    method Start(entries: seq<Entry>)
      modifies this
      ensures tables == Requeued(old(tables), entries)
    {
      hide QueueUpload;
      for i := 0 to |entries|
        invariant Requeued(tables, entries[i..]) == Requeued(old(tables), entries)
      {
        assert entries[i..][1..] == entries[i + 1..];
        DoQueueUpload(entries[i].apiPath, entries[i].sourcePath, false);
      }
      assert entries[|entries|..] == [];
    }
  }

  /** What the upload thread makes of the oldest upload: it starts with its source, goes, or is queued again. */
  predicate IsHandled(t: Tables, answer: Answer, u: Tables)
    requires t.upload != []
  {
    var first, rest := t.upload[0], t.upload[1..];
    match answer
    case Found =>
      && u.upload == rest && u.active == t.active[first.apiPath := first.sourcePath]
      && u.lookup == t.lookup + {first.apiPath} && u.resume == t.resume
    case NotFound =>
      && u.upload == rest && u.active == t.active - {first.apiPath}
      && u.lookup == t.lookup - {first.apiPath} && u.resume == t.resume
    case Failed =>
      && u.upload == rest + [first] && u.active == t.active - {first.apiPath}
      && u.lookup == t.lookup - {first.apiPath} && u.resume == t.resume - {first.apiPath}
  }

  lemma {:induction false} WithoutAbsent(upload: seq<Entry>, path: string)
    requires forall e :: e in upload ==> e.apiPath != path
    ensures WithoutPath(upload, path) == upload
  {
    if upload != [] {
      WithoutAbsent(upload[1..], path);
    }
  }

  lemma WithoutFirst(upload: seq<Entry>)
    requires upload != [] && UniquePaths(upload)
    ensures WithoutPath(upload, upload[0].apiPath) == upload[1..]
  {
    WithoutAbsent(upload[1..], upload[0].apiPath);
  }

  lemma HandledIs(t: Tables, max: nat, answer: Answer)
    ensures |t.lookup| < max && t.upload != [] && UniquePaths(t.upload) ==>
              IsHandled(t, answer, Handled(t, max, answer))
  {
    if t.upload != [] && UniquePaths(t.upload) {
      WithoutFirst(t.upload);
    }
  }

  // ---- what every run keeps ----

  predicate UniquePaths(upload: seq<Entry>) {
    forall i, j :: 0 <= i < j < |upload| ==> upload[i].apiPath != upload[j].apiPath
  }

  /** No path is queued twice, queued and running, or running unregistered, and at most `max` run. */
  predicate Consistent(t: Tables, max: nat) {
    && UniquePaths(t.upload)
    && (forall e :: e in t.upload ==> e.apiPath !in t.active)
    && t.lookup == t.active.Keys
    && |t.lookup| <= max
  }

  datatype Action =
    | Queue(path: string, source: string)
    | Remove(path: string)
    | Store(path: string, entry: ResumeEntry)
    | Unstore(path: string)
    | Handle(answer: Answer)
    | Done(path: string, source: string, result: Completion)

  function Do(t: Tables, max: nat, a: Action): Tables {
    match a
    case Queue(path, source) => QueueUpload(t, path, source)
    case Remove(path) => RemoveUpload(t, path)
    case Store(path, entry) => StoreResume(t, path, entry)
    case Unstore(path) => RemoveResume(t, path)
    case Handle(answer) => Handled(t, max, answer)
    case Done(path, source, result) => Finished(t, path, source, result)
  }

  function DoAll(t: Tables, max: nat, actions: seq<Action>): Tables {
    if actions == [] then t else Do(DoAll(t, max, actions[..|actions| - 1]), max, actions[|actions| - 1])
  }

  lemma {:induction false} WithoutPathUnique(upload: seq<Entry>, path: string)
    requires UniquePaths(upload)
    ensures UniquePaths(WithoutPath(upload, path))
  {
    if upload != [] {
      WithoutPathUnique(upload[1..], path);
    }
  }

  lemma RemovalKeeps(t: Tables, max: nat, path: string)
    requires Consistent(t, max)
    ensures Consistent(RemoveUpload(t, path), max)
  {
    WithoutPathUnique(t.upload, path);
    SmallerSet(t.lookup - {path}, t.lookup);
  }

  lemma SmallerSet<T>(a: set<T>, b: set<T>)
    requires a <= b
    ensures |a| <= |b|
  {
    assert b == a + (b - a);
  }

  lemma HandledKeeps(t: Tables, max: nat, answer: Answer)
    requires Consistent(t, max)
    ensures Consistent(Handled(t, max, answer), max)
  {
    if t.upload != [] {
      RemovalKeeps(t, max, t.upload[0].apiPath);
      WithoutPathUnique(t.upload, t.upload[0].apiPath);
      assert (t.lookup + {t.upload[0].apiPath}) == t.active[t.upload[0].apiPath := t.upload[0].sourcePath].Keys;
    }
  }

  lemma QueueingKeeps(t: Tables, max: nat, path: string, source: string)
    requires Consistent(t, max)
    ensures Consistent(QueueUpload(t, path, source), max)
  {
    RemovalKeeps(t, max, path);
  }

  lemma ActionKeeps(t: Tables, max: nat, a: Action)
    requires Consistent(t, max)
    ensures Consistent(Do(t, max, a), max)
  {
    hide Handled, QueueUpload, RemoveUpload;
    match a
    case Queue(path, source) => QueueingKeeps(t, max, path, source);
    case Remove(path) => RemovalKeeps(t, max, path);
    case Store(_, _) =>
    case Unstore(_) =>
    case Handle(answer) => HandledKeeps(t, max, answer);
    case Done(path, source, _) =>
      RemovalKeeps(t, max, path);
      QueueingKeeps(t, max, path, source);
      SmallerSet(t.lookup - {path}, t.lookup);
  }

  lemma {:induction false} RunKeeps(t: Tables, max: nat, actions: seq<Action>)
    requires Consistent(t, max)
    ensures Consistent(DoAll(t, max, actions), max)
  {
    if actions != [] {
      RunKeeps(t, max, actions[..|actions| - 1]);
      ActionKeeps(DoAll(t, max, actions[..|actions| - 1]), max, actions[|actions| - 1]);
    }
  }

  /** The ways an upload stops being pending. */
  predicate Ends(t: Tables, max: nat, a: Action, path: string) {
    || a == Remove(path)
    || (a.Done? && a.path == path && a.result in {Uploaded, Missing} && (a.result == Uploaded ==> !Queued(t, path)))
    || (a == Handle(NotFound) && |t.lookup| < max && t.upload != [] && t.upload[0].apiPath == path)
  }

  lemma PendingAfterRemoval(t: Tables, removed: string, path: string)
    ensures Queued(RemoveUpload(t, removed), path) <==> path != removed && Queued(t, path)
    ensures path in RemoveUpload(t, removed).active <==> path != removed && path in t.active
  {
  }

  lemma PendingAfterQueueing(t: Tables, queued: string, source: string, path: string)
    ensures Queued(QueueUpload(t, queued, source), path) <==> path == queued || Queued(t, path)
    ensures path in QueueUpload(t, queued, source).active <==> path != queued && path in t.active
  {
    PendingAfterRemoval(t, queued, path);
    var r := QueueUpload(t, queued, source);
    assert r.upload == RemoveUpload(t, queued).upload + [Entry(queued, source)];
    assert Entry(queued, source) in r.upload;
    assert forall e :: e in r.upload <==> e in RemoveUpload(t, queued).upload || e == Entry(queued, source);
  }

  lemma PendingAfterStart(t: Tables, max: nat, path: string)
    requires t.upload != [] && |t.lookup| < max
    ensures Pending(Handled(t, max, Found), path) <==> Pending(t, path)
  {
    var first := t.upload[0];
    PendingAfterRemoval(t, first.apiPath, path);
    assert first in t.upload;
  }

  lemma FrontIsQueued(t: Tables, max: nat, path: string)
    requires Consistent(t, max)
    ensures t.upload != [] ==> Queued(t, t.upload[0].apiPath) && t.upload[0].apiPath !in t.active
    ensures Queued(t, path) ==> path !in t.active
  {
    assert t.upload != [] ==> t.upload[0] in t.upload;
  }

  /** A pending upload stays pending until it succeeds, is removed or is not found, and nothing else starts
      one than queueing it or the retry of an upload nobody waits for any more. */
  lemma PendingUntilEnded(t: Tables, max: nat, a: Action, path: string)
    requires Consistent(t, max)
    ensures Pending(t, path) ==> (Pending(Do(t, max, a), path) <==> !Ends(t, max, a, path))
    ensures !Pending(t, path) ==>
              (Pending(Do(t, max, a), path) <==> (a.Queue? || (a.Done? && a.result == Retry)) && a.path == path)
  {
    hide Queued, RemoveUpload, QueueUpload, Consistent;
    FrontIsQueued(t, max, path);
    match a
    case Queue(queued, source) => PendingAfterQueueing(t, queued, source, path);
    case Remove(removed) => PendingAfterRemoval(t, removed, path);
    case Store(_, _) => SameQueue(t, Do(t, max, a), path);
    case Unstore(_) => SameQueue(t, Do(t, max, a), path);
    case Handle(answer) =>
      if |t.lookup| < max && t.upload != [] {
        PendingAfterStart(t, max, path);
        PendingAfterRemoval(t, t.upload[0].apiPath, path);
        PendingAfterQueueing(t, t.upload[0].apiPath, t.upload[0].sourcePath, path);
      }
    case Done(ended, source, result) =>
      PendingAfterRemoval(t, ended, path);
      PendingAfterQueueing(t, ended, source, path);
      SameQueue(t, Finished(t, ended, source, Uploaded), path);
  }

  lemma SameQueue(t: Tables, u: Tables, path: string)
    requires t.upload == u.upload
    ensures Queued(t, path) <==> Queued(u, path)
  {
  }

  // ---- what stays ----

  predicate SameUploads(t: Tables, u: Tables) {
    u.upload == t.upload && u.active == t.active && u.lookup == t.lookup
  }

  /** Every entry of another path is where it was, in the queue in the same order. */
  ghost predicate OthersStay(t: Tables, u: Tables, path: string) {
    && (forall e: Entry :: e.apiPath != path ==> (e in u.upload <==> e in t.upload))
    && (forall p, q :: p != path && q != path ==> (Ahead(u.upload, p, q) <==> Ahead(t.upload, p, q)))
    && (forall p :: p != path ==> (p in u.active <==> p in t.active) && (p in t.active ==> u.active[p] == t.active[p]))
    && (forall p :: p != path ==> (p in u.lookup <==> p in t.lookup))
    && (forall p :: p != path ==> (p in u.resume <==> p in t.resume) && (p in t.resume ==> u.resume[p] == t.resume[p]))
  }

  /** The path is the last one in the queue, with this source, and nowhere else. */
  predicate IsQueuedLast(t: Tables, path: string, source: string) {
    && t.upload != [] && t.upload[|t.upload| - 1] == Entry(path, source)
    && (forall i :: 0 <= i < |t.upload| - 1 ==> t.upload[i].apiPath != path)
    && path !in t.active && path !in t.lookup
  }

  lemma {:induction false} WithoutPathAheadBack(upload: seq<Entry>, path: string, p: string, q: string)
    requires Ahead(WithoutPath(upload, path), p, q)
    ensures Ahead(upload, p, q) && p != path && q != path
  {
    hide Ahead;
    if upload == [] {
      AheadSplit([], p, q);
    } else if upload[0].apiPath == path {
      WithoutPathAheadBack(upload[1..], path, p, q);
      AheadBehind(upload[0], upload[1..], p, q);
      assert [upload[0]] + upload[1..] == upload;
    } else {
      var rest := WithoutPath(upload[1..], path);
      var whole := [upload[0]] + rest;
      AheadSplit(whole, p, q);
      AheadBehind(upload[0], upload[1..], p, q);
      assert [upload[0]] + upload[1..] == upload && whole[1..] == rest;
      if Ahead(rest, p, q) {
        WithoutPathAheadBack(upload[1..], path, p, q);
      } else {
        AheadIs(whole, p, q);
      }
    }
  }

  lemma AheadIs(upload: seq<Entry>, p: string, q: string)
    requires Ahead(upload, p, q)
    ensures upload != [] && exists e :: e in upload && e.apiPath == p
  {
  }

  lemma AheadInFront(upload: seq<Entry>, last: Entry, p: string, q: string)
    requires Ahead(upload + [last], p, q) && last.apiPath != q
    ensures Ahead(upload, p, q)
  {
    var whole := upload + [last];
    var i, j :| 0 <= i < j < |whole| && whole[i].apiPath == p && whole[j].apiPath == q;
    assert upload[i].apiPath == p && upload[j].apiPath == q;
  }

  predicate IsNotUploaded(t: Tables, path: string) {
    (forall e :: e in t.upload ==> e.apiPath != path) && path !in t.active && path !in t.lookup
  }

  /** Removing an upload takes the path out of the queue and the running uploads and touches no other path. */
  lemma RemovalIs(t: Tables, path: string)
    ensures OthersStay(t, RemoveUpload(t, path), path) && IsNotUploaded(RemoveUpload(t, path), path)
    ensures RemoveUpload(t, path).resume == t.resume
  {
    hide Ahead;
    var u := RemoveUpload(t, path);
    forall p, q | p != path && q != path
      ensures Ahead(u.upload, p, q) <==> Ahead(t.upload, p, q)
    {
      if Ahead(t.upload, p, q) {
        WithoutPathAhead(t.upload, path, p, q);
      }
      if Ahead(u.upload, p, q) {
        WithoutPathAheadBack(t.upload, path, p, q);
      }
    }
  }

  /** Queueing puts the path at the end, with its source and without a resume entry, and touches no other path. */
  lemma QueueingIs(t: Tables, path: string, source: string)
    ensures var u := QueueUpload(t, path, source);
            IsQueuedLast(u, path, source) && path !in u.resume && OthersStay(t, u, path)
  {
    hide Ahead;
    RemovalIs(t, path);
    var r, u := RemoveUpload(t, path), QueueUpload(t, path, source);
    forall p, q | p != path && q != path
      ensures Ahead(u.upload, p, q) <==> Ahead(t.upload, p, q)
    {
      if Ahead(r.upload, p, q) {
        AheadAppend(r.upload, p, q);
      }
      if Ahead(u.upload, p, q) {
        AheadInFront(r.upload, Entry(path, source), p, q);
      }
    }
  }

  /** The path an action is about. */
  function PathOf(t: Tables, a: Action): string {
    match a
    case Queue(path, _) => path
    case Remove(path) => path
    case Store(path, _) => path
    case Unstore(path) => path
    case Handle(_) => if t.upload == [] then "" else t.upload[0].apiPath
    case Done(path, _, _) => path
  }

  lemma OthersStayThemselves(t: Tables, u: Tables, path: string)
    requires u.upload == t.upload && u.active - {path} == t.active - {path} && u.lookup - {path} == t.lookup - {path}
    requires u.resume - {path} == t.resume - {path}
    ensures OthersStay(t, u, path)
  {
    hide Ahead;
    forall p | p != path
      ensures (p in u.active <==> p in t.active) && (p in t.active ==> u.active[p] == t.active[p])
      ensures p in u.lookup <==> p in t.lookup
      ensures (p in u.resume <==> p in t.resume) && (p in t.resume ==> u.resume[p] == t.resume[p])
    {
      assert p in u.active <==> p in u.active - {path};
      assert p in t.active <==> p in t.active - {path};
      assert p in t.active - {path} ==> (t.active - {path})[p] == (u.active - {path})[p];
      assert p in u.lookup <==> p in u.lookup - {path};
      assert p in t.lookup <==> p in t.lookup - {path};
      assert p in u.resume <==> p in u.resume - {path};
      assert p in t.resume <==> p in t.resume - {path};
      assert p in t.resume - {path} ==> (t.resume - {path})[p] == (u.resume - {path})[p];
    }
  }

  lemma OthersStayOn(t: Tables, u: Tables, v: Tables, path: string)
    requires OthersStay(t, u, path) && OthersStay(u, v, path)
    ensures OthersStay(t, v, path)
  {
    hide Ahead;
  }

  /** What the first change of a file does to the tables, in either of its halves. */
  lemma ModifyingIs(t: Tables, path: string, entry: ResumeEntry)
    ensures var stored := StoreResume(t, path, entry);
            && OthersStay(t, t, path) && OthersStay(t, stored, path)
            && path in stored.resume && stored.resume[path] == entry
            && RemoveUpload(stored, path).resume == stored.resume
            && IsNotUploaded(RemoveUpload(stored, path), path) && IsNotUploaded(RemoveUpload(t, path), path)
            && OthersStay(t, RemoveUpload(stored, path), path) && OthersStay(t, RemoveUpload(t, path), path)
  {
    hide OthersStay, RemoveUpload, IsNotUploaded;
    var stored := StoreResume(t, path, entry);
    OthersStayThemselves(t, t, path);
    OthersStayThemselves(t, stored, path);
    RemovalIs(t, path);
    RemovalIs(stored, path);
    OthersStayOn(t, stored, RemoveUpload(stored, path), path);
  }

  /** An action touches the entries of one path. */
  lemma ActionTouchesOne(t: Tables, max: nat, a: Action)
    ensures OthersStay(t, Do(t, max, a), PathOf(t, a))
  {
    hide Ahead, OthersStay, RemoveUpload, QueueUpload;
    var path := PathOf(t, a);
    RemovalIs(t, path);
    match a
    case Queue(_, source) => QueueingIs(t, path, source);
    case Remove(_) =>
    case Store(_, _) => OthersStayThemselves(t, Do(t, max, a), path);
    case Unstore(_) => OthersStayThemselves(t, Do(t, max, a), path);
    case Handle(answer) =>
      OthersStayThemselves(t, t, path);
      if t.upload != [] {
        QueueingIs(t, path, t.upload[0].sourcePath);
        StartTouchesOne(t, max);
      }
    case Done(_, source, result) =>
      OthersStayThemselves(t, t, path);
      OthersStayThemselves(t, Finished(t, path, source, Uploaded), path);
      QueueingIs(t, path, source);
  }

  lemma StartTouchesOne(t: Tables, max: nat)
    requires t.upload != []
    ensures OthersStay(t, Handled(t, max, Found), t.upload[0].apiPath)
  {
    hide Ahead;
    var path := t.upload[0].apiPath;
    if |t.lookup| < max {
      RemovalIs(t, path);
    }
  }

  // ---- sources ----

  /** The path is queued or active with this source. */
  predicate HasSource(t: Tables, path: string, source: string) {
    Entry(path, source) in t.upload || (path in t.active && t.active[path] == source)
  }

  lemma PendingHasSource(t: Tables, path: string)
    ensures Pending(t, path) <==> exists source :: HasSource(t, path, source)
  {
    if Queued(t, path) {
      var e :| e in t.upload && e.apiPath == path;
      assert HasSource(t, path, e.sourcePath);
    } else if path in t.active {
      assert HasSource(t, path, t.active[path]);
    }
  }

  lemma OneSource(t: Tables, max: nat, path: string, a: string, b: string)
    requires Consistent(t, max) && HasSource(t, path, a) && HasSource(t, path, b)
    ensures a == b
  {
    if Entry(path, a) in t.upload && Entry(path, b) in t.upload {
      var i :| 0 <= i < |t.upload| && t.upload[i] == Entry(path, a);
      var j :| 0 <= j < |t.upload| && t.upload[j] == Entry(path, b);
    }
  }

  predicate Requeues(a: Action, path: string) {
    (a.Queue? || (a.Done? && a.result == Retry)) && a.path == path
  }

  /** The source a path was last queued or retried with, `start` if it was not. */
  function LatestSource(actions: seq<Action>, path: string, start: string): string {
    if actions == [] then start
    else
      var last := actions[|actions| - 1];
      if Requeues(last, path) then last.source else LatestSource(actions[..|actions| - 1], path, start)
  }

  lemma RequeueBringsSource(t: Tables, max: nat, a: Action, path: string)
    requires Requeues(a, path)
    ensures HasSource(Do(t, max, a), path, a.source)
  {
    hide QueueUpload;
    QueueingIs(t, path, a.source);
  }

  lemma HandleKeepsSource(t: Tables, max: nat, answer: Answer, path: string, source: string)
    requires Consistent(t, max) && HasSource(t, path, source)
    requires |t.lookup| < max && t.upload != [] && t.upload[0].apiPath == path && answer != NotFound
    ensures HasSource(Handled(t, max, answer), path, source)
  {
    hide Handled;
    var u := Handled(t, max, answer);
    HandledIs(t, max, answer);
    OneSource(t, max, path, source, t.upload[0].sourcePath);
    if answer == Failed {
      assert u.upload[|u.upload| - 1] == t.upload[0];
    }
  }

  /** A pending path keeps its source through every action that neither ends it nor queues it again. */
  lemma SourceStays(t: Tables, max: nat, a: Action, path: string, source: string)
    requires Consistent(t, max) && HasSource(t, path, source) && !Requeues(a, path) && Pending(Do(t, max, a), path)
    ensures HasSource(Do(t, max, a), path, source)
  {
    hide OthersStay, Pending, Consistent, RemoveUpload, QueueUpload, Handled;
    PendingHasSource(t, path);
    PendingUntilEnded(t, max, a, path);
    ActionTouchesOne(t, max, a);
    if PathOf(t, a) != path {
      OtherSourceStays(t, Do(t, max, a), PathOf(t, a), path, source);
    } else {
      OwnSourceStays(t, max, a, path, source);
    }
  }

  lemma OtherSourceStays(t: Tables, u: Tables, other: string, path: string, source: string)
    requires OthersStay(t, u, other) && path != other && HasSource(t, path, source)
    ensures HasSource(u, path, source)
  {
    hide Ahead;
  }

  lemma OwnSourceStays(t: Tables, max: nat, a: Action, path: string, source: string)
    requires Consistent(t, max) && HasSource(t, path, source) && !Requeues(a, path) && PathOf(t, a) == path
    requires Pending(Do(t, max, a), path) && !Ends(t, max, a, path)
    ensures HasSource(Do(t, max, a), path, source)
  {
    hide Consistent, Handled;
    FrontIsQueued(t, max, path);
    match a
    case Handle(answer) =>
      HandledStays(t, max, answer);
      if |t.lookup| < max && t.upload != [] {
        HandleKeepsSource(t, max, answer, path, source);
      }
    case Done(_, s, result) =>
      if result == Uploaded {
        assert Queued(t, path);
        assert path !in t.active;
      }
    case _ =>
  }

  lemma HandledStays(t: Tables, max: nat, answer: Answer)
    ensures |t.lookup| >= max || t.upload == [] ==> Handled(t, max, answer) == t
  {
  }

  /** Over every run, a path that is queued or active has the source of the action that queued or retried it last,
      and no other. */
  lemma {:induction false} SourceTravels(t: Tables, max: nat, actions: seq<Action>, path: string, start: string)
    requires Consistent(t, max) && (Pending(t, path) ==> HasSource(t, path, start))
    ensures var u, source := DoAll(t, max, actions), LatestSource(actions, path, start);
            Pending(u, path) ==>
              HasSource(u, path, source) && forall other :: HasSource(u, path, other) ==> other == source
  {
    hide Consistent, Pending, HasSource, Do;
    RunKeeps(t, max, actions);
    if actions != [] {
      var n := |actions| - 1;
      var v, a := DoAll(t, max, actions[..n]), actions[n];
      RunKeeps(t, max, actions[..n]);
      SourceTravels(t, max, actions[..n], path, start);
      if Requeues(a, path) {
        RequeueBringsSource(v, max, a, path);
      } else {
        PendingUntilEnded(v, max, a, path);
        if Pending(Do(v, max, a), path) {
          SourceStays(v, max, a, path, LatestSource(actions[..n], path, start));
        }
      }
    }
    var u, source := DoAll(t, max, actions), LatestSource(actions, path, start);
    if Pending(u, path) {
      forall other | HasSource(u, path, other)
        ensures other == source
      {
        OneSource(u, max, path, other, source);
      }
    }
  }

  // ---- order ----

  /** `p` and `q` are queued, `p` further to the front. */
  predicate Ahead(upload: seq<Entry>, p: string, q: string) {
    exists i, j :: 0 <= i < j < |upload| && upload[i].apiPath == p && upload[j].apiPath == q
  }

  /** What changes the place of `p` or `q` other than starting the upload of `p`. */
  predicate Disturbs(t: Tables, max: nat, a: Action, p: string, q: string) {
    match a
    case Queue(path, _) => path in {p, q}
    case Remove(path) => path in {p, q}
    case Done(path, _, _) => path in {p, q}
    case Handle(answer) => answer != Found && t.upload != [] && t.upload[0].apiPath in {p, q}
    case _ => false
  }

  lemma AheadBehind(first: Entry, rest: seq<Entry>, p: string, q: string)
    ensures Ahead(rest, p, q) ==> Ahead([first] + rest, p, q)
    ensures first.apiPath == p && (exists e :: e in rest && e.apiPath == q) ==> Ahead([first] + rest, p, q)
  {
    var upload := [first] + rest;
    if Ahead(rest, p, q) {
      var i, j :| 0 <= i < j < |rest| && rest[i].apiPath == p && rest[j].apiPath == q;
      assert upload[i + 1].apiPath == p && upload[j + 1].apiPath == q;
    }
    if first.apiPath == p && exists e :: e in rest && e.apiPath == q {
      var j :| 0 <= j < |rest| && rest[j].apiPath == q;
      assert upload[0].apiPath == p && upload[j + 1].apiPath == q;
    }
  }

  lemma AheadSplit(upload: seq<Entry>, p: string, q: string)
    requires Ahead(upload, p, q)
    ensures Ahead(upload[1..], p, q) || upload[0].apiPath == p
    ensures exists e :: e in upload[1..] && e.apiPath == q
  {
    var i, j :| 0 <= i < j < |upload| && upload[i].apiPath == p && upload[j].apiPath == q;
    assert upload[1..][j - 1].apiPath == q;
    if i > 0 {
      assert upload[1..][i - 1].apiPath == p;
    }
  }

  lemma {:induction false} WithoutPathAhead(upload: seq<Entry>, path: string, p: string, q: string)
    requires Ahead(upload, p, q) && path != p && path != q
    ensures Ahead(WithoutPath(upload, path), p, q)
  {
    hide Ahead;
    if upload != [] {
      AheadSplit(upload, p, q);
      AheadBehind(upload[0], WithoutPath(upload[1..], path), p, q);
      if Ahead(upload[1..], p, q) {
        WithoutPathAhead(upload[1..], path, p, q);
      }
    } else {
      AheadSplit(upload, p, q);
    }
  }

  lemma NoOvertakingStep(t: Tables, max: nat, a: Action, p: string, q: string)
    requires Consistent(t, max) && Ahead(t.upload, p, q) && !Disturbs(t, max, a, p, q)
    ensures Ahead(Do(t, max, a).upload, p, q) || (p in Do(t, max, a).active && Queued(Do(t, max, a), q))
  {
    hide Ahead, Consistent;
    AheadSplit(t.upload, p, q);
    var path := if a.Handle? then t.upload[0].apiPath else if a.Store? || a.Unstore? then "" else a.path;
    if path == q && a.Handle? {
      OlderIsNotQ(t, max, p, q);
    }
    if path != p && path != q {
      WithoutPathAhead(t.upload, path, p, q);
      AheadAppend(WithoutPath(t.upload, path), p, q);
    }
  }

  lemma OlderIsNotQ(t: Tables, max: nat, p: string, q: string)
    requires Consistent(t, max) && Ahead(t.upload, p, q)
    ensures t.upload[0].apiPath != q
  {
    var i, j :| 0 <= i < j < |t.upload| && t.upload[i].apiPath == p && t.upload[j].apiPath == q;
  }

  lemma AheadAppend(upload: seq<Entry>, p: string, q: string)
    requires Ahead(upload, p, q)
    ensures forall e :: Ahead(upload + [e], p, q)
  {
    var i, j :| 0 <= i < j < |upload| && upload[i].apiPath == p && upload[j].apiPath == q;
    forall e
      ensures Ahead(upload + [e], p, q)
    {
      assert (upload + [e])[i].apiPath == p && (upload + [e])[j].apiPath == q;
    }
  }

  /** Uploads start in the order in which they were queued: while neither is touched otherwise, the later
      one stays behind the earlier one until the earlier one has started. */
  lemma {:induction false} FirstInFirstOut(t: Tables, max: nat, actions: seq<Action>, p: string, q: string)
    requires Consistent(t, max) && Ahead(t.upload, p, q)
    requires forall k :: 0 <= k < |actions| ==> !Disturbs(DoAll(t, max, actions[..k]), max, actions[k], p, q)
    requires forall k :: 0 <= k <= |actions| ==> p !in DoAll(t, max, actions[..k]).active
    ensures Ahead(DoAll(t, max, actions).upload, p, q)
  {
    hide Ahead, Consistent, Disturbs, Do;
    if actions != [] {
      var n := |actions| - 1;
      var front := actions[..n];
      assert forall k :: 0 <= k <= n ==> front[..k] == actions[..k];
      FirstInFirstOut(t, max, front, p, q);
      RunKeeps(t, max, front);
      NoOvertakingStep(DoAll(t, max, front), max, actions[n], p, q);
      assert actions[..n + 1] == actions;
    }
  }

  // ---- start ----

  lemma {:induction false} RequeuedPending(t: Tables, entries: seq<Entry>, path: string)
    ensures Queued(Requeued(t, entries), path) <==> Queued(t, path) || exists e :: e in entries && e.apiPath == path
    ensures path in Requeued(t, entries).active <==> path in t.active && !exists e :: e in entries && e.apiPath == path
    decreases |entries|
  {
    if entries != [] {
      var next := QueueUpload(t, entries[0].apiPath, entries[0].sourcePath);
      assert entries == [entries[0]] + entries[1..];
      assert entries[0] in next.upload;
      RequeuedPending(next, entries[1..], path);
      assert Queued(next, path) <==> Queued(t, path) || path == entries[0].apiPath by {
        if Queued(t, path) && path != entries[0].apiPath {
          var e :| e in t.upload && e.apiPath == path;
          assert e in next.upload;
        }
      }
    }
  }

  lemma {:induction false} RequeuedTables(t: Tables, entries: seq<Entry>)
    requires UniquePaths(t.upload) && t.lookup == {}
    ensures UniquePaths(Requeued(t, entries).upload) && Requeued(t, entries).lookup == {}
    decreases |entries|
  {
    if entries != [] {
      WithoutPathUnique(t.upload, entries[0].apiPath);
      RequeuedTables(QueueUpload(t, entries[0].apiPath, entries[0].sourcePath), entries[1..]);
    }
  }

  /** After `start` nothing is running, and exactly what was queued or running before is queued. */
  lemma StartRequeues(t: Tables, entries: seq<Entry>, max: nat)
    requires UniquePaths(t.upload) && t.lookup == {}
    requires forall path :: path in t.active <==> exists e :: e in entries && e.apiPath == path
    ensures Consistent(Requeued(t, entries), max) && Requeued(t, entries).active == map[]
    ensures forall path :: Queued(Requeued(t, entries), path) <==> Pending(t, path)
  {
    RequeuedTables(t, entries);
    forall path
      ensures Queued(Requeued(t, entries), path) <==> Pending(t, path)
      ensures path !in Requeued(t, entries).active
    {
      RequeuedPending(t, entries, path);
    }
  }

  lemma {:induction false} RequeuedEntries(t: Tables, entries: seq<Entry>)
    requires UniquePaths(entries)
    ensures forall e: Entry :: e in Requeued(t, entries).upload <==>
              (e in t.upload && !exists f :: f in entries && f.apiPath == e.apiPath) || e in entries
    decreases |entries|
  {
    if entries != [] {
      var first, rest := entries[0], entries[1..];
      var next := QueueUpload(t, first.apiPath, first.sourcePath);
      RequeuedEntries(next, rest);
      assert entries == [first] + rest;
      forall e: Entry
        ensures e in next.upload <==> (e in t.upload && e.apiPath != first.apiPath) || e == first
      {
        assert next.upload == RemoveUpload(t, first.apiPath).upload + [first];
      }
      forall e: Entry
        ensures e in Requeued(t, entries).upload <==>
                (e in t.upload && !exists f :: f in entries && f.apiPath == e.apiPath) || e in entries
      {
        FirstOrRest(first, rest, e);
      }
    }
  }

  lemma FirstOrRest(first: Entry, rest: seq<Entry>, e: Entry)
    requires UniquePaths([first] + rest)
    ensures (exists f :: f in [first] + rest && f.apiPath == e.apiPath) <==>
            e.apiPath == first.apiPath || exists f :: f in rest && f.apiPath == e.apiPath
    ensures e in [first] + rest <==> e == first || e in rest
    ensures !exists f :: f in rest && f.apiPath == first.apiPath
  {
    assert first in [first] + rest;
    forall f | f in rest
      ensures f.apiPath != first.apiPath
    {
      var i :| 0 <= i < |rest| && rest[i] == f;
      var whole := [first] + rest;
      assert whole[0] == first && whole[i + 1] == f;
    }
  }

  /** After `start` the queue holds exactly the entries that were queued and not active, and the active ones with
      the sources they had; and if no path was both, these follow the others in the order they were listed in. */
  lemma StartKeepsSources(t: Tables, entries: seq<Entry>)
    requires UniquePaths(entries)
    requires forall e: Entry :: e in entries <==> e.apiPath in t.active && t.active[e.apiPath] == e.sourcePath
    ensures forall e: Entry :: e in Requeued(t, entries).upload <==>
              (e in t.upload && e.apiPath !in t.active) ||
              (e.apiPath in t.active && t.active[e.apiPath] == e.sourcePath)
    ensures (forall e :: e in t.upload ==> e.apiPath !in t.active) ==> Requeued(t, entries).upload == t.upload + entries
  {
    RequeuedEntries(t, entries);
    forall e: Entry
      ensures e.apiPath in t.active <==> exists f :: f in entries && f.apiPath == e.apiPath
    {
      if e.apiPath in t.active {
        assert Entry(e.apiPath, t.active[e.apiPath]) in entries;
      }
    }
    if forall e :: e in t.upload ==> e.apiPath !in t.active {
      RequeuedBehind(t, entries);
    }
  }

  predicate Apart(upload: seq<Entry>, entries: seq<Entry>) {
    forall e, f :: e in upload && f in entries ==> e.apiPath != f.apiPath
  }

  lemma ApartStep(upload: seq<Entry>, first: Entry, rest: seq<Entry>)
    requires Apart(upload, [first] + rest) && UniquePaths([first] + rest)
    ensures Apart(upload + [first], rest) && UniquePaths(rest) && WithoutPath(upload, first.apiPath) == upload
  {
    FirstOrRest(first, rest, first);
    assert first in [first] + rest;
    WithoutAbsent(upload, first.apiPath);
    assert forall f :: f in rest ==> f in [first] + rest;
    assert forall i :: 0 <= i < |rest| ==> rest[i] == ([first] + rest)[i + 1];
  }

  lemma RequeuedFirst(t: Tables, first: Entry, rest: seq<Entry>)
    requires WithoutPath(t.upload, first.apiPath) == t.upload
    ensures var next := QueueUpload(t, first.apiPath, first.sourcePath);
            next.upload == t.upload + [first] && Requeued(t, [first] + rest) == Requeued(next, rest)
  {
    assert ([first] + rest)[1..] == rest;
  }

  lemma {:induction false} RequeuedBehind(t: Tables, entries: seq<Entry>)
    requires UniquePaths(entries) && Apart(t.upload, entries)
    ensures Requeued(t, entries).upload == t.upload + entries
    decreases |entries|
  {
    hide Apart, UniquePaths, Requeued, QueueUpload, WithoutPath;
    if entries == [] {
      RequeuedNothing(t);
    } else {
      var first, rest := entries[0], entries[1..];
      assert entries == [first] + rest;
      ApartStep(t.upload, first, rest);
      RequeuedFirst(t, first, rest);
      RequeuedBehind(QueueUpload(t, first.apiPath, first.sourcePath), rest);
      assert t.upload + [first] + rest == t.upload + entries;
    }
  }

  lemma RequeuedNothing(t: Tables)
    ensures Requeued(t, []).upload == t.upload
  {
  }
}
