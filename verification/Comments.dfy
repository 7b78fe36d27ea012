/** The comment tables of one service: a forest of comments per post, three
    denormalised counters, and the events published with every change. Each
    command is one transaction, applied atomically; an aborted one changes nothing
    and is simply not part of a run. */
module Comments {

  type PostId = nat
  type UserId = nat
  /** Comment ids start at 1; 0 stands for SQL NULL in `root` and `parent`. */
  type CommentId = nat

  datatype Status = Normal | Deleted

  datatype Comment = Comment(
    id: CommentId, post: PostId, author: UserId, root: CommentId, parent: CommentId, status: Status)
  {
    predicate IsTopLevel() { root == 0 && parent == 0 }

    predicate IsReply() { root != 0 && parent != 0 }
  }

  datatype Event =
    | Created(id: CommentId, post: PostId)
    | Removed(id: CommentId, post: PostId, affected: nat, isRoot: bool)

  datatype PostStats = PostStats(total: int, tops: int)

  datatype Db = Db(
    comments: map<CommentId, Comment>,
    nextId: CommentId,
    replyCounts: map<CommentId, int>,
    postStats: map<PostId, PostStats>,
    log: seq<Event>)

  const Empty := Db(map[], 1, map[], map[], [])

  datatype Role = Author | Admin

  datatype Outcome =
    | Done | AlreadyDeleted | CommentNotFound | ParentCommentNotFound | RootCommentNotFound | Forbidden

  datatype Target = Target(root: Comment, parent: Comment) | NoParent | NoRoot

  function Max0(n: int): int { if n < 0 then 0 else n }

  // -------------------------------------------------------------- domain guards

  predicate ReplyDraftAllowed(post: PostId, root: Comment, parent: Comment) {
    && root.status == Normal && root.IsTopLevel() && root.post == post
    && parent.status == Normal && parent.post == post
    && (parent.IsTopLevel() ==> root.id == parent.id)
    && (parent.IsReply() ==> parent.root == root.id)
  }

  /** NewReplyCreated: the checks made again on the stored reply. */
  predicate ReplyEventAllowed(reply: Comment, root: Comment, parent: Comment) {
    && reply.status == Normal && reply.IsReply()
    && root.status == Normal && root.IsTopLevel() && root.post == reply.post && reply.root == root.id
    && parent.status == Normal && parent.post == reply.post && reply.parent == parent.id
    && (parent.IsTopLevel() ==> parent.id == root.id)
    && (parent.IsReply() ==> parent.root == root.id)
  }

  // ---------------------------------------------------------------- table steps

  predicate Exists(cs: map<CommentId, Comment>, post: PostId, id: CommentId) {
    id in cs && cs[id].post == post
  }

  function FindReplyTarget(cs: map<CommentId, Comment>, post: PostId, parentId: CommentId): Target {
    if !Exists(cs, post, parentId) || cs[parentId].status != Normal then NoParent
    else if cs[parentId].IsTopLevel() then Target(cs[parentId], cs[parentId])
    else
      var rootId := cs[parentId].root;
      if !Exists(cs, post, rootId) || cs[rootId].status != Normal || !cs[rootId].IsTopLevel() then NoRoot
      else Target(cs[rootId], cs[parentId])
  }

  /** insert into comments, then insert the zero stats row of the new comment. */
  function Insert(db: Db, post: PostId, author: UserId, root: CommentId, parent: CommentId): Db {
    db.(comments := db.comments[db.nextId := Comment(db.nextId, post, author, root, parent, Normal)],
        nextId := db.nextId + 1,
        replyCounts := if db.nextId in db.replyCounts then db.replyCounts else db.replyCounts[db.nextId := 0])
  }

  function IncrementReplyCount(counts: map<CommentId, int>, root: CommentId): map<CommentId, int> {
    if root in counts then counts[root := counts[root] + 1] else counts
  }

  function DecrementReplyCount(counts: map<CommentId, int>, root: CommentId, affected: nat): map<CommentId, int> {
    if root in counts then counts[root := Max0(counts[root] - affected)] else counts
  }

  function StatsOf(stats: map<PostId, PostStats>, post: PostId): PostStats {
    if post in stats then stats[post] else PostStats(0, 0)
  }

  function IncrementStats(stats: map<PostId, PostStats>, post: PostId, topLevel: bool): map<PostId, PostStats> {
    var s := StatsOf(stats, post);
    stats[post := PostStats(s.total + 1, s.tops + if topLevel then 1 else 0)]
  }

  function DecrementStats(stats: map<PostId, PostStats>, post: PostId, affected: nat, topLevel: bool)
    : map<PostId, PostStats>
  {
    if post !in stats then stats
    else stats[post := PostStats(Max0(stats[post].total - affected),
                                 if topLevel then Max0(stats[post].tops - 1) else stats[post].tops)]
  }

  /** `x` is `top` or a descendant of it through comments of the same post. The
      parent of a comment always has a smaller id, which ends the recursion. */
  predicate Under(cs: map<CommentId, Comment>, post: PostId, top: CommentId, x: CommentId)
    decreases x
  {
    && Exists(cs, post, x)
    && (x == top || (0 < cs[x].parent < x && Under(cs, post, top, cs[x].parent)))
  }

  function Subtree(cs: map<CommentId, Comment>, post: PostId, top: CommentId): set<CommentId> {
    set x | x in cs && Under(cs, post, top, x)
  }

  function NormalIn(cs: map<CommentId, Comment>, ids: set<CommentId>): set<CommentId> {
    set x | x in ids && x in cs && cs[x].status == Normal
  }

  function MarkDeleted(cs: map<CommentId, Comment>, ids: set<CommentId>): map<CommentId, Comment> {
    map x | x in cs :: if x in ids then cs[x].(status := Deleted) else cs[x]
  }

  // ------------------------------------------------------------------- commands

  datatype Command =
    | CreateTopLevel(post: PostId, author: UserId)
    | CreateReply(post: PostId, author: UserId, parentId: CommentId)
    | Delete(post: PostId, id: CommentId, actor: UserId, role: Role)

  datatype Result = Result(db: Db, outcome: Outcome)

  function TopLevelCreated(db: Db, post: PostId, author: UserId): Db {
    var inserted := Insert(db, post, author, 0, 0);
    inserted.(postStats := IncrementStats(db.postStats, post, true), log := db.log + [Created(db.nextId, post)])
  }

  function ReplyCreated(db: Db, post: PostId, author: UserId, root: CommentId, parent: CommentId): Db {
    var inserted := Insert(db, post, author, root, parent);
    inserted.(replyCounts := IncrementReplyCount(inserted.replyCounts, root),
              postStats := IncrementStats(db.postStats, post, false),
              log := db.log + [Created(db.nextId, post)])
  }

  function SubtreeRemoved(db: Db, entry: Comment): Db {
    var gone := NormalIn(db.comments, Subtree(db.comments, entry.post, entry.id));
    var rootId := if entry.IsReply() then entry.root else entry.id;
    db.(comments := MarkDeleted(db.comments, gone),
        replyCounts := if entry.IsTopLevel() then db.replyCounts
                       else DecrementReplyCount(db.replyCounts, rootId, |gone|),
        postStats := DecrementStats(db.postStats, entry.post, |gone|, entry.IsTopLevel()),
        log := db.log + [Removed(entry.id, entry.post, |gone|, entry.IsTopLevel())])
  }

  function Apply(db: Db, c: Command): Result {
    match c
    case CreateTopLevel(post, author) => Result(TopLevelCreated(db, post, author), Done)
    case CreateReply(post, author, parentId) =>
      (match FindReplyTarget(db.comments, post, parentId)
       case NoParent => Result(db, ParentCommentNotFound)
       case NoRoot => Result(db, RootCommentNotFound)
       case Target(root, parent) => Result(ReplyCreated(db, post, author, root.id, parent.id), Done))
    case Delete(post, id, actor, role) =>
      if !Exists(db.comments, post, id) then Result(db, CommentNotFound)
      else
        var entry := db.comments[id];
        if role == Author && entry.status != Normal then Result(db, CommentNotFound)
        else if role == Author && entry.author != actor then Result(db, Forbidden)
        else if entry.status != Normal then Result(db, AlreadyDeleted)
        else Result(SubtreeRemoved(db, entry), Done)
  }

  function Run(db: Db, cs: seq<Command>): Db
    decreases |cs|
  {
    if cs == [] then db else Run(Apply(db, cs[0]).db, cs[1..])
  }

  // ------------------------------------------------------- what the counters mean

  function NormalOf(cs: map<CommentId, Comment>, post: PostId): set<CommentId> {
    set x | x in cs && cs[x].status == Normal && cs[x].post == post
  }

  function NormalTops(cs: map<CommentId, Comment>, post: PostId): set<CommentId> {
    set x | x in cs && cs[x].status == Normal && cs[x].post == post && cs[x].IsTopLevel()
  }

  function NormalRepliesTo(cs: map<CommentId, Comment>, root: CommentId): set<CommentId> {
    set x | x in cs && cs[x].status == Normal && cs[x].IsReply() && cs[x].root == root
  }

  // ------------------------------------------------------------------ invariants

  /** The shape of the forest: every reply hangs below an older comment of the same
      post and agrees with it about the root. */
  ghost predicate Forest(db: Db) {
    && db.nextId > 0
    && db.replyCounts.Keys == db.comments.Keys
    && (forall x :: x in db.comments ==> Shaped(db, x))
  }

  ghost predicate Shaped(db: Db, x: CommentId)
    requires x in db.comments
  {
    var c := db.comments[x];
    && 0 < x < db.nextId && c.id == x
    && (c.IsTopLevel() || c.IsReply())
    && (c.IsReply() ==>
          && 0 < c.parent < x && Exists(db.comments, c.post, c.parent)
          && 0 < c.root < x && Exists(db.comments, c.post, c.root) && db.comments[c.root].IsTopLevel()
          && c.root == (if db.comments[c.parent].IsTopLevel() then c.parent else db.comments[c.parent].root))
  }

  /** Deleting takes whole subtrees: a visible reply has a visible parent. */
  ghost predicate Closed(cs: map<CommentId, Comment>) {
    forall x :: x in cs && cs[x].status == Normal && cs[x].IsReply() ==>
                  cs[x].parent in cs && cs[cs[x].parent].status == Normal
  }

  ghost predicate Counted(db: Db) {
    && (forall p: PostId :: PostCounted(db, p))
    && (forall r :: r in db.comments && db.comments[r].status == Normal && db.comments[r].IsTopLevel() ==>
                      r in db.replyCounts && db.replyCounts[r] == |NormalRepliesTo(db.comments, r)|)
  }

  ghost predicate PostCounted(db: Db, p: PostId) {
    StatsOf(db.postStats, p) == PostStats(|NormalOf(db.comments, p)|, |NormalTops(db.comments, p)|)
  }

  ghost predicate Valid(db: Db) {
    Forest(db) && Closed(db.comments) && Counted(db)
  }
}
