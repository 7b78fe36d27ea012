/** The post tables of the content service and the transactions on them. A body
    pointer is a body id with the hash of the body; `NoPtr` stands for SQL NULL in
    both columns. A transaction is a function of the tables: it is accepted as a
    whole or refused with the error its caller sees. */
module Posts {

  type PostId = nat
  type UserId = nat
  type BodyId = nat
  type Hash = nat
  type Version = nat
  type WorkerId = nat

  datatype Ptr = Ptr(id: BodyId, hash: Hash)
  {
    predicate IsZero() { id == 0 || hash == 0 }
  }

  const NoPtr := Ptr(0, 0)

  datatype Status = Draft | Published | Scheduled | Deleted

  datatype Post = Post(owner: UserId, status: Status, version: Version, draft: Ptr, published: Ptr)

  datatype Visibility = Public | Unpublished | Removed

  datatype Event =
    | PostPublished(post: PostId, version: Version, body: Ptr)
    | VisibilityChanged(post: PostId, version: Version, from: Visibility, to: Visibility, publicVisible: bool)

  datatype TaskKind = OldDraft | OrphanDraft | OrphanSnapshot

  datatype TaskKey = TaskKey(body: BodyId, kind: TaskKind)

  datatype TaskStatus = Pending | Processing | Failed | Done | Dead

  /** `claimedBy` 0 stands for SQL NULL. */
  datatype Task = Task(status: TaskStatus, claimedBy: WorkerId, attempts: nat)

  /** `schedules` holds the pending row of each scheduled post. */
  datatype Tables = Tables(
    posts: map<PostId, Post>,
    schedules: map<PostId, Ptr>,
    tasks: map<TaskKey, Task>,
    outbox: seq<Event>)

  datatype Refusal =
    | PostNotFound | NotOwner | PostDeleted | AlreadyPublished | NotPublished | Conflict | NoFreeId
    | BodyRequired | BodyUnavailable | BodyInconsistent

  datatype Tx = Accepted(db: Tables) | Refused(why: Refusal)

  function VisibilityOf(status: Status): Visibility {
    match status
    case Published => Public
    case Deleted => Removed
    case Draft => Unpublished
    case Scheduled => Unpublished
  }

  // -------------------------------------------------------------------- commands

  datatype LifecycleKind = Unpublish | Delete | Restore | CancelSchedule

  /** What a user asks for, with the version and draft the user last saw. */
  datatype Command =
    | Create(owner: UserId, withBody: bool, ids: seq<PostId>)
    | Save(post: PostId, actor: UserId, base: Version, draft: Ptr)
    | Publish(post: PostId, actor: UserId, base: Version, draft: Ptr)
    | Schedule(post: PostId, actor: UserId, base: Version, draft: Ptr)
    | Lifecycle(kind: LifecycleKind, post: PostId, actor: UserId, base: Version)
    | UpdateMeta(post: PostId, actor: UserId, base: Version)

  datatype Verdict = Passes | Rejects(why: Refusal)

  /** The checks a command makes on the post it loads, before it does any work. */
  function Check(cmd: Command, cur: Post): Verdict
    requires !cmd.Create?
  {
    if cur.owner != cmd.actor then Rejects(NotOwner)
    else match cmd
      case Save(_, _, base, draft) =>
        if cur.status == Deleted then Rejects(PostDeleted)
        else if cur.status == Scheduled || cur.version != base || cur.draft != draft then Rejects(Conflict)
        else Passes
      case Publish(_, _, base, draft) =>
        if cur.status == Deleted then Rejects(PostDeleted)
        else if cur.status == Published then Rejects(AlreadyPublished)
        else if cur.draft.IsZero() then Rejects(BodyRequired)
        else if cur.version != base || cur.draft != draft then Rejects(Conflict)
        else Passes
      case Schedule(_, _, base, draft) =>
        if cur.status == Deleted then Rejects(PostDeleted)
        else if cur.status != Draft || cur.version != base || cur.draft != draft then Rejects(Conflict)
        else if cur.draft.IsZero() then Rejects(BodyRequired)
        else Passes
      case UpdateMeta(_, _, base) =>
        if cur.status == Deleted then Rejects(PostDeleted)
        else if cur.status == Scheduled || cur.version != base then Rejects(Conflict)
        else Passes
      case Lifecycle(kind, _, _, _) =>
        if cur.status == Deleted && kind != Restore then Rejects(PostDeleted)
        else (match kind
          case Unpublish => if cur.status != Published then Rejects(NotPublished) else Passes
          case Restore => if cur.status != Deleted then Rejects(PostNotFound) else Passes
          case CancelSchedule => if cur.status != Scheduled then Rejects(NotPublished) else Passes
          case Delete => Passes)
  }

  // ---------------------------------------------------------- statements on a row

  /** classifyMutationMiss: why a conditional update matched no row. */
  function Miss(db: Tables, post: PostId, actor: UserId, publishing: bool): Refusal {
    if post !in db.posts then PostNotFound
    else if db.posts[post].owner != actor then NotOwner
    else if db.posts[post].status == Deleted then PostDeleted
    else if db.posts[post].status == Published && publishing then AlreadyPublished
    else Conflict
  }

  predicate Owned(db: Tables, post: PostId, actor: UserId) {
    post in db.posts && db.posts[post].owner == actor
  }

  function Upsert(tasks: map<TaskKey, Task>, key: TaskKey): map<TaskKey, Task> {
    if key in tasks then tasks else tasks[key := Task(Pending, 0, 0)]
  }

  /** Every accepted update goes through here: it writes the row under its next
      version. */
  function Rewrite(db: Tables, post: PostId, row: Post): Tables
    requires post in db.posts
  {
    db.(posts := db.posts[post := row.(version := db.posts[post].version + 1)])
  }

  // ------------------------------------------------------------------ transactions

  /** The first of the three generated public ids that is still free. */
  function CreateTx(db: Tables, owner: UserId, ids: seq<PostId>, draft: Ptr): Tx {
    var tried := if |ids| < 3 then ids else ids[..3];
    if tried == [] then Refused(NoFreeId)
    else if tried[0] !in db.posts then Inserted(db, owner, tried[0], draft)
    else if |tried| > 1 && tried[1] !in db.posts then Inserted(db, owner, tried[1], draft)
    else if |tried| > 2 && tried[2] !in db.posts then Inserted(db, owner, tried[2], draft)
    else Refused(NoFreeId)
  }

  function Inserted(db: Tables, owner: UserId, id: PostId, draft: Ptr): Tx {
    Accepted(db.(posts := db.posts[id := Post(owner, Draft, 1, draft, NoPtr)]))
  }

  function SaveTx(db: Tables, cmd: Command, cur: Post, ptr: Ptr): Tx
    requires cmd.Save?
  {
    if !Owned(db, cmd.post, cmd.actor) then Refused(Miss(db, cmd.post, cmd.actor, false))
    else
      var row := db.posts[cmd.post];
      if row.version != cmd.base || row.draft != cmd.draft || row.status == Deleted || row.status == Scheduled
      then Refused(Miss(db, cmd.post, cmd.actor, false))
      else
        var saved := Rewrite(db, cmd.post, row.(draft := ptr));
        Accepted(if cur.draft.id != 0 && cur.draft.id != ptr.id
                 then saved.(tasks := Upsert(db.tasks, TaskKey(cur.draft.id, OldDraft)))
                 else saved)
  }

  function PublishTx(db: Tables, cmd: Command, cur: Post, ptr: Ptr): Tx
    requires cmd.Publish?
  {
    if !Owned(db, cmd.post, cmd.actor) then Refused(Miss(db, cmd.post, cmd.actor, true))
    else
      var row := db.posts[cmd.post];
      if row.version != cmd.base || row.draft != cmd.draft || row.status != Draft
      then Refused(Miss(db, cmd.post, cmd.actor, true))
      else
        var published := Rewrite(db, cmd.post, row.(status := Published, draft := NoPtr, published := ptr));
        Accepted(published.(
          outbox := db.outbox + [PostPublished(cmd.post, row.version + 1, ptr)],
          tasks := if cur.draft.id != 0 then Upsert(db.tasks, TaskKey(cur.draft.id, OldDraft)) else db.tasks))
  }

  function ScheduleTx(db: Tables, cmd: Command): Tx
    requires cmd.Schedule?
  {
    if !Owned(db, cmd.post, cmd.actor) then Refused(Miss(db, cmd.post, cmd.actor, false))
    else
      var row := db.posts[cmd.post];
      if row.version != cmd.base || row.draft != cmd.draft || row.status != Draft
      then Refused(Miss(db, cmd.post, cmd.actor, false))
      else Accepted(Rewrite(db, cmd.post, row.(status := Scheduled))
                    .(schedules := db.schedules[cmd.post := cmd.draft]))
  }

  function UpdateMetaTx(db: Tables, cmd: Command): Tx
    requires cmd.UpdateMeta?
  {
    if !Owned(db, cmd.post, cmd.actor) then Refused(Miss(db, cmd.post, cmd.actor, false))
    else
      var row := db.posts[cmd.post];
      if row.version != cmd.base || row.status == Deleted || row.status == Scheduled
      then Refused(Miss(db, cmd.post, cmd.actor, false))
      else Accepted(Rewrite(db, cmd.post, row))
  }

  /** Which row each lifecycle statement updates, and to which status. Base version
      0 stands for "any" in all of them but unpublish. */
  predicate Matches(row: Post, kind: LifecycleKind, base: Version) {
    match kind
    case Unpublish => row.version == base && row.status == Published
    case Delete => (base == 0 || row.version == base) && row.status != Deleted
    case Restore => (base == 0 || row.version == base) && row.status == Deleted
    case CancelSchedule => (base == 0 || row.version == base) && row.status == Scheduled
  }

  function Target(kind: LifecycleKind): Status {
    if kind == Delete then Deleted else Draft
  }

  /** The event carries the visibility of the loaded post, not of the updated row. */
  function LifecycleTx(db: Tables, cmd: Command, cur: Post): Tx
    requires cmd.Lifecycle?
  {
    if !Owned(db, cmd.post, cmd.actor) then Refused(Miss(db, cmd.post, cmd.actor, false))
    else
      var row := db.posts[cmd.post];
      if !Matches(row, cmd.kind, cmd.base) then Refused(Miss(db, cmd.post, cmd.actor, false))
      else
        var changed := Rewrite(db, cmd.post, row.(status := Target(cmd.kind)));
        var unscheduled := if cmd.kind == Delete || cmd.kind == CancelSchedule then db.schedules - {cmd.post}
                           else db.schedules;
        var event := VisibilityChanged(cmd.post, row.version + 1,
                                       VisibilityOf(cur.status), VisibilityOf(Target(cmd.kind)), false);
        Accepted(changed.(schedules := unscheduled,
                          outbox := if cmd.kind == CancelSchedule then db.outbox else db.outbox + [event]))
  }

  /** DeleteAuthorDraft: load, check and clear the draft in one transaction. */
  function DeleteDraftTx(db: Tables, post: PostId, actor: UserId): Tx {
    if post !in db.posts then Refused(PostNotFound)
    else
      var row := db.posts[post];
      if row.owner != actor then Refused(NotOwner)
      else if row.status == Deleted then Refused(PostDeleted)
      else if row.status == Scheduled then Refused(Conflict)
      else
        var cleared := Rewrite(db, post, row.(draft := NoPtr));
        Accepted(if row.draft.id != 0 then cleared.(tasks := Upsert(db.tasks, TaskKey(row.draft.id, OldDraft)))
                 else cleared)
  }

  /** DeleteAdminPost: the row is locked from its read to its update. */
  function AdminDeleteTx(db: Tables, post: PostId): Tx {
    if post !in db.posts then Refused(PostNotFound)
    else
      var row := db.posts[post];
      if row.status == Deleted then Refused(PostDeleted)
      else Accepted(Rewrite(db, post, row.(status := Deleted)).(
        schedules := db.schedules - {post},
        outbox := db.outbox
          + [VisibilityChanged(post, row.version + 1, VisibilityOf(row.status), VisibilityOf(Deleted), false)]))
  }

  /** The second transaction of a command, after `cur` was loaded and, where the
      command writes one, a fresh body was stored. */
  function CommitTx(db: Tables, cmd: Command, cur: Post, ptr: Ptr): Tx {
    match cmd
    case Create(owner, _, ids) => CreateTx(db, owner, ids, ptr)
    case Save(_, _, _, _) => SaveTx(db, cmd, cur, ptr)
    case Publish(_, _, _, _) => PublishTx(db, cmd, cur, ptr)
    case Schedule(_, _, _, _) => ScheduleTx(db, cmd)
    case UpdateMeta(_, _, _) => UpdateMetaTx(db, cmd)
    case Lifecycle(_, _, _, _) => LifecycleTx(db, cmd, cur)
  }

  /** IsBodyReferenced. */
  predicate Referenced(db: Tables, body: BodyId) {
    exists p :: p in db.posts && Names(db.posts[p], body)
  }

  predicate Names(row: Post, body: BodyId) {
    row.draft.id == body || row.published.id == body
  }
}
