/** The rules of the post tables, said without the statements: which row a command may
    change, what it makes of it, and why a command is refused. The laws at the end
    hold for every step of every run. */
module PostRules {
  import opened Posts
  import opened PostProtocol

  // ------------------------------------------------------------------ the rule book

  /** In which status a post may be for a command to change it. */
  predicate StatusAllows(status: Status, cmd: Command)
    requires !cmd.Create?
  {
    match cmd
    case Save(_, _, _, _) => status in {Draft, Published}
    case UpdateMeta(_, _, _) => status in {Draft, Published}
    case Publish(_, _, _, _) => status == Draft
    case Schedule(_, _, _, _) => status == Draft
    case Lifecycle(kind, _, _, _) =>
      status in (match kind
                 case Unpublish => {Published}
                 case Delete => {Draft, Published, Scheduled}
                 case Restore => {Deleted}
                 case CancelSchedule => {Scheduled})
  }

  /** Base version 0 means any version, but only to delete, restore or cancel. */
  predicate VersionAllows(version: Version, cmd: Command)
    requires !cmd.Create?
  {
    cmd.base == version || (cmd.base == 0 && cmd.Lifecycle? && cmd.kind in {Delete, Restore, CancelSchedule})
  }

  /** The command names the draft it was given, where it depends on one. */
  predicate DraftAllows(draft: Ptr, cmd: Command)
    requires !cmd.Create?
  {
    cmd.Save? || cmd.Publish? || cmd.Schedule? ==> cmd.draft == draft
  }

  /** The row is one this command may change. */
  predicate Fits(row: Post, cmd: Command)
    requires !cmd.Create?
  {
    row.owner == cmd.actor && VersionAllows(row.version, cmd) && DraftAllows(row.draft, cmd)
    && StatusAllows(row.status, cmd)
  }

  predicate FitsIn(db: Tables, cmd: Command)
    requires !cmd.Create?
  {
    cmd.post in db.posts && Fits(db.posts[cmd.post], cmd)
  }

  /** What the command makes of the row. */
  function Changed(row: Post, cmd: Command, ptr: Ptr): Post
    requires !cmd.Create?
  {
    match cmd
    case Save(_, _, _, _) => Post(row.owner, row.status, row.version + 1, ptr, row.published)
    case Publish(_, _, _, _) => Post(row.owner, Published, row.version + 1, NoPtr, ptr)
    case Schedule(_, _, _, _) => Post(row.owner, Scheduled, row.version + 1, row.draft, row.published)
    case UpdateMeta(_, _, _) => Post(row.owner, row.status, row.version + 1, row.draft, row.published)
    case Lifecycle(kind, _, _, _) =>
      Post(row.owner, if kind == Delete then Deleted else Draft, row.version + 1, row.draft, row.published)
  }

  /** Why a command that fits no row is refused. */
  ghost predicate RefusedBecause(db: Tables, cmd: Command, why: Refusal)
    requires !cmd.Create? && !FitsIn(db, cmd)
  {
    && (why == PostNotFound <==> cmd.post !in db.posts)
    && (why == NotOwner <==> cmd.post in db.posts && db.posts[cmd.post].owner != cmd.actor)
    && (why == PostDeleted <==>
          cmd.post in db.posts && db.posts[cmd.post].owner == cmd.actor && db.posts[cmd.post].status == Deleted)
    && (why == AlreadyPublished <==>
          && cmd.Publish? && cmd.post in db.posts && db.posts[cmd.post].owner == cmd.actor
          && db.posts[cmd.post].status == Published)
    && why in {PostNotFound, NotOwner, PostDeleted, AlreadyPublished, Conflict}
  }

  // ------------------------------------------------- the statements follow the rules

  /** A transaction on an existing post is accepted exactly when the row is one the
      command may change, and changes it as the rules say. */
  lemma AcceptedIffItFits(db: Tables, cmd: Command, cur: Post, ptr: Ptr)
    requires !cmd.Create?
    ensures CommitTx(db, cmd, cur, ptr).Accepted? <==> FitsIn(db, cmd)
    ensures FitsIn(db, cmd) ==>
              CommitTx(db, cmd, cur, ptr).db.posts == db.posts[cmd.post := Changed(db.posts[cmd.post], cmd, ptr)]
    ensures !FitsIn(db, cmd) ==> RefusedBecause(db, cmd, CommitTx(db, cmd, cur, ptr).why)
  {
  }

  /** A new post is a draft of its owner under the first free id of the first three. */
  lemma CreatedIffAnIdIsFree(db: Tables, owner: UserId, ids: seq<PostId>, ptr: Ptr)
    ensures CreateTx(db, owner, ids, ptr).Accepted? <==> exists k :: 0 <= k < 3 && k < |ids| && ids[k] !in db.posts
    ensures forall k :: 0 <= k < 3 && k < |ids| && ids[k] !in db.posts && (forall j :: 0 <= j < k ==> ids[j] in db.posts) ==>
              CreateTx(db, owner, ids, ptr) == Accepted(db.(posts := db.posts[ids[k] := Post(owner, Draft, 1, ptr, NoPtr)]))
  {
    if |ids| > 0 && ids[0] in db.posts && |ids| > 1 && ids[1] in db.posts && |ids| > 2 {
      assert ids[..3][2] == ids[2];
    }
  }

  // ---------------------------------------------------------------- laws of every step

  /** A step that changes the row of a post is one of three: a command of its owner
      that fits the row, its owner clearing the draft, or an administrator's deletion. */
  ghost predicate EarnedBy(w: World, s: Step, p: PostId)
    requires p in w.db.posts
  {
    var row := w.db.posts[p];
    var w' := Apply(w, s);
    && p in w'.db.posts
    && (|| (s.Commit? && s.op in w.ops && !w.ops[s.op].Unregistered? && !w.ops[s.op].cmd.Create?
            && w.ops[s.op].cmd.post == p && Fits(row, w.ops[s.op].cmd)
            && w'.db.posts[p] == Changed(row, w.ops[s.op].cmd, NewPtr(w.ops[s.op])))
        || (s == DeleteDraft(p, row.owner) && row.status in {Draft, Published}
            && w'.db.posts[p] == row.(draft := NoPtr, version := row.version + 1))
        || (s == AdminDelete(p) && row.status != Deleted
            && w'.db.posts[p] == row.(status := Deleted, version := row.version + 1)))
  }

  lemma RowsChangeByTheRules(w: World, s: Step, p: PostId)
    requires p in w.db.posts
    ensures p in Apply(w, s).db.posts
    ensures Apply(w, s).db.posts[p] == w.db.posts[p] || EarnedBy(w, s, p)
  {
    if s.Commit? {
      CommitsChangeByTheRules(w, s.op, s.outcome, p);
    }
  }

  lemma CommitsChangeByTheRules(w: World, op: OpId, outcome: TxOutcome, p: PostId)
    requires p in w.db.posts
    ensures p in Apply(w, Commit(op, outcome)).db.posts
    ensures Apply(w, Commit(op, outcome)).db.posts[p] == w.db.posts[p] || EarnedBy(w, Commit(op, outcome), p)
  {
    if op in w.ops && ReadyToCommit(w.ops[op]) {
      var o := w.ops[op];
      if o.cmd.Create? {
        var owner, ids, ptr := o.cmd.owner, o.cmd.ids, NewPtr(o);
        CreateTouchesNoOther(w.db, owner, ids, ptr, p);
      } else {
        AcceptedIffItFits(w.db, o.cmd, o.cur, NewPtr(o));
      }
    }
  }

  lemma CreateTouchesNoOther(db: Tables, owner: UserId, ids: seq<PostId>, ptr: Ptr, p: PostId)
    requires p in db.posts
    ensures CreateTx(db, owner, ids, ptr).Accepted? ==>
              var db' := CreateTx(db, owner, ids, ptr).db; p in db'.posts && db'.posts[p] == db.posts[p]
  {
  }

  /** Over every run: a post keeps its owner, its version never falls, and a row with
      the version it had is the row it was. */
  lemma {:induction false} OwnersStayVersionsGrow(w: World, later: seq<Step>, p: PostId)
    requires p in w.db.posts
    ensures var w' := Run(w, later);
            && p in w'.db.posts
            && w'.db.posts[p].owner == w.db.posts[p].owner
            && w.db.posts[p].version <= w'.db.posts[p].version
            && (w'.db.posts[p].version == w.db.posts[p].version ==> w'.db.posts[p] == w.db.posts[p])
    decreases |later|
  {
    if later != [] {
      var before := later[..|later| - 1];
      OwnersStayVersionsGrow(w, before, p);
      RowsChangeByTheRules(Run(w, before), later[|later| - 1], p);
    }
  }

  /** The moves of the status that commands make. */
  predicate Moves(cmd: Command, from: Status, to: Status) {
    || (cmd.Publish? && from == Draft && to == Published)
    || (cmd.Schedule? && from == Draft && to == Scheduled)
    || (cmd.Lifecycle? && cmd.kind == Unpublish && from == Published && to == Draft)
    || (cmd.Lifecycle? && cmd.kind == CancelSchedule && from == Scheduled && to == Draft)
    || (cmd.Lifecycle? && cmd.kind == Restore && from == Deleted && to == Draft)
    || (cmd.Lifecycle? && cmd.kind == Delete && from != Deleted && to == Deleted)
  }

  /** The status of a post only ever moves along these edges. */
  lemma StatusMoves(w: World, s: Step, p: PostId, to: Status)
    requires p in w.db.posts && p in Apply(w, s).db.posts
    requires Apply(w, s).db.posts[p].status == to != w.db.posts[p].status
    ensures || (s == AdminDelete(p) && to == Deleted)
            || (s.Commit? && s.op in w.ops && !w.ops[s.op].Unregistered?
                && Moves(w.ops[s.op].cmd, w.db.posts[p].status, to))
  {
    RowsChangeByTheRules(w, s, p);
  }
}
