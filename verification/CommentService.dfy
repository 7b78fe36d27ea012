/** The comment service as it runs: tables updated statement by statement inside
    one transaction. Each command is proved to leave the tables as `Comments.Apply`
    says, so everything proved about runs of commands holds for the service. */
module CommentService {
  import opened Comments
  import opened CommentCounters
  import opened CommentRules

  datatype DeletedSubtree =
    | DeletedSubtree(entry: Comment, rootId: CommentId, affected: nat, alreadyDeleted: bool)
    | Missing

  class Service {
    var comments: map<CommentId, Comment>
    var nextId: CommentId
    var replyCounts: map<CommentId, int>
    var postStats: map<PostId, PostStats>
    var outbox: seq<Event>

    ghost function Tables(): Db
      reads this
    {
      Db(comments, nextId, replyCounts, postStats, outbox)
    }

    constructor ()
      ensures Tables() == Empty && Valid(Tables())
    {
      comments := map[];
      nextId := 1;
      replyCounts := map[];
      postStats := map[];
      outbox := [];
      EmptyIsValid();
    }

    // --------------------------------------------------------- statements of the store

    method Create(post: PostId, author: UserId, root: CommentId, parent: CommentId) returns (stored: Comment)
      modifies `comments, `nextId
      ensures stored == Comment(old(nextId), post, author, root, parent, Normal)
      ensures comments == old(comments)[stored.id := stored] && nextId == old(nextId) + 1
    {
      stored := Comment(nextId, post, author, root, parent, Normal);
      comments := comments[nextId := stored];
      nextId := nextId + 1;
    }

    method InitializeStats(id: CommentId)
      modifies `replyCounts
      ensures replyCounts == if id in old(replyCounts) then old(replyCounts) else old(replyCounts)[id := 0]
    {
      if id !in replyCounts {
        replyCounts := replyCounts[id := 0];
      }
    }

    /** The recursive query behind a deletion: level by level, the comments of the
        post whose parent was found on the level before. */
    method CollectSubtree(post: PostId, top: CommentId) returns (ids: set<CommentId>)
      requires Forest(Tables()) && Exists(comments, post, top)
      ensures ids == Subtree(comments, post, top)
    {
      var level := {top};
      ids := level;
      ghost var expanded: set<CommentId> := {};
      ghost var depth: nat := 1;
      assert Shaped(Tables(), top);
      while level != {}
        invariant ids == expanded + level && top in ids
        invariant ids <= Subtree(comments, post, top)
        invariant forall x :: x in level ==> depth <= x < nextId
        invariant forall x :: x in comments && comments[x].post == post && comments[x].parent in expanded ==> x in ids
        decreases nextId - depth
      {
        ghost var some :| some in level;
        var next := set x | x in comments && comments[x].post == post && comments[x].parent in level;
        forall x | x in next ensures depth < x < nextId && Under(comments, post, top, x) {
          assert Shaped(Tables(), x);
          assert comments[x].parent in ids && comments[x].parent in Subtree(comments, post, top);
        }
        expanded := expanded + level;
        ids := ids + next;
        level := next;
        depth := depth + 1;
      }
      forall x | x in Subtree(comments, post, top) ensures x in ids {
        ClosedAboveTop(comments, post, top, ids, x);
      }
    }

    /** SoftDeleteSubtree. */
    method SoftDeleteSubtree(post: PostId, id: CommentId, allowDeleted: bool) returns (r: DeletedSubtree)
      requires Valid(Tables())
      modifies `comments
      ensures r.Missing? <==> !Exists(old(comments), post, id) || (old(comments)[id].status == Deleted && !allowDeleted)
      ensures r.DeletedSubtree? ==>
                && r.entry == old(comments)[id]
                && r.rootId == (if r.entry.IsReply() then r.entry.root else r.entry.id)
                && (r.alreadyDeleted <==> r.entry.status == Deleted)
                && r.affected == if r.alreadyDeleted then 0 else |Gone(old(Tables()), r.entry)|
      ensures comments == if r.DeletedSubtree? && !r.alreadyDeleted
                          then MarkDeleted(old(comments), Gone(old(Tables()), r.entry))
                          else old(comments)
    {
      if id !in comments || comments[id].post != post {
        return Missing;
      }
      var entry := comments[id];
      assert Shaped(Tables(), id);
      var rootId := if entry.IsReply() then entry.root else entry.id;
      if entry.status != Normal {
        return if allowDeleted then DeletedSubtree(entry, rootId, 0, true) else Missing;
      }
      var ids := CollectSubtree(post, id);
      var visible := NormalIn(comments, ids);
      comments := MarkDeleted(comments, visible);
      r := DeletedSubtree(entry, rootId, |visible|, false);
    }

    // ---------------------------------------------------------------- the commands

    method CreateTopLevelComment(post: PostId, author: UserId) returns (stored: Comment)
      requires Valid(Tables())
      modifies this
      ensures Tables() == Apply(old(Tables()), CreateTopLevel(post, author)).db && Valid(Tables())
      ensures stored == Comment(old(nextId), post, author, 0, 0, Normal)
      ensures comments == old(comments)[stored.id := stored] && outbox == old(outbox) + [Created(stored.id, post)]
    {
      TopLevelKeepsValid(Tables(), post, author);
      stored := Create(post, author, 0, 0);
      InitializeStats(stored.id);
      postStats := IncrementStats(postStats, post, true);
      outbox := outbox + [Created(stored.id, post)];
    }

    /** A reply is made exactly below a visible comment of the post. */
    method CreateReplyComment(post: PostId, author: UserId, parentId: CommentId) returns (outcome: Outcome)
      requires Valid(Tables())
      modifies this
      ensures Apply(old(Tables()), CreateReply(post, author, parentId)) == Result(Tables(), outcome) && Valid(Tables())
      ensures outcome == if parentId in old(comments) && old(comments)[parentId].post == post
                            && old(comments)[parentId].status == Normal
                         then Done else ParentCommentNotFound
      ensures outcome.Done? ==>
                && comments == old(comments)[old(nextId) :=
                     Comment(old(nextId), post, author,
                             if old(comments)[parentId].root == 0 then parentId else old(comments)[parentId].root,
                             parentId, Normal)]
                && outbox == old(outbox) + [Created(old(nextId), post)]
    {
      ApplyKeepsValid(Tables(), CreateReply(post, author, parentId));
      ReplyTargetIsSound(Tables(), post, author, parentId);
      ReplyTargetIsThere(Tables(), post, parentId);
      var target := FindReplyTarget(comments, post, parentId);
      match target
      case NoParent => return ParentCommentNotFound;
      case NoRoot => return RootCommentNotFound;
      case Target(root, parent) =>
        if !ReplyDraftAllowed(post, root, parent) {
          return ParentCommentNotFound;
        }
        outcome := StoreReply(post, author, root, parent);
    }

    /** The statements of a reply, on a target that passed the first check. */
    method StoreReply(post: PostId, author: UserId, root: Comment, parent: Comment) returns (outcome: Outcome)
      requires nextId > 0 && root.id > 0 && parent.id > 0
      requires ReplyDraftAllowed(post, root, parent)
      modifies this
      ensures outcome == Done && Tables() == ReplyCreated(old(Tables()), post, author, root.id, parent.id)
    {
      var stored := Create(post, author, root.id, parent.id);
      InitializeStats(stored.id);
      replyCounts := IncrementReplyCount(replyCounts, root.id);
      postStats := IncrementStats(postStats, post, false);
      if !ReplyEventAllowed(stored, root, parent) {
        return ParentCommentNotFound;
      }
      outbox := outbox + [Created(stored.id, post)];
      outcome := Done;
    }

    /** Which outcome a deletion has is decided by the tables alone; one that is done
        hides the visible comments at and below its target and nothing else. */
    method DeleteComment(post: PostId, id: CommentId, actor: UserId, role: Role) returns (outcome: Outcome)
      requires Valid(Tables())
      modifies this
      ensures Apply(old(Tables()), Delete(post, id, actor, role)) == Result(Tables(), outcome) && Valid(Tables())
      ensures outcome == if id !in old(comments) || old(comments)[id].post != post then CommentNotFound
                         else if old(comments)[id].status == Deleted then
                           if role == Author then CommentNotFound else AlreadyDeleted
                         else if role == Author && old(comments)[id].author != actor then Forbidden
                         else Done
      ensures !outcome.Done? ==> Tables() == old(Tables())
      ensures outcome.Done? ==> HidesAtAndBelow(old(comments), comments, id)
      ensures outcome.Done? ==>
                outbox == old(outbox) + [Removed(id, post, |HiddenBy(old(comments), id)|, old(comments)[id].root == 0)]
    {
      if id !in comments || comments[id].post != post {
        return CommentNotFound;
      }
      var found := comments[id];
      if role == Author && found.status != Normal {
        return CommentNotFound;
      }
      if role == Author && found.author != actor {
        return Forbidden;
      }
      assert Shaped(Tables(), id);
      DeletionHides(Tables(), found);
      outcome := RemoveSubtree(post, found, role == Admin);
    }

    /** The transaction of a deletion whose actor may delete. */
    method RemoveSubtree(post: PostId, found: Comment, allowDeleted: bool) returns (outcome: Outcome)
      requires Valid(Tables()) && found.id in comments && comments[found.id] == found && found.post == post
      requires found.status == Normal || allowDeleted
      modifies `comments, `replyCounts, `postStats, `outbox
      ensures outcome == if found.status == Normal then Done else AlreadyDeleted
      ensures Tables() == if found.status == Normal then SubtreeRemoved(old(Tables()), found) else old(Tables())
      ensures Valid(Tables())
    {
      DeletionHides(Tables(), found);
      if found.status == Normal {
        DeletionKeepsValid(Tables(), found);
      }
      var deleted := SoftDeleteSubtree(post, found.id, allowDeleted);
      if deleted.Missing? {
        return CommentNotFound;
      }
      if deleted.affected == 0 {
        return AlreadyDeleted;
      }
      RecordDeletion(post, deleted);
      outcome := Done;
    }

    /** The rest of a deletion's transaction: its counters and its event. */
    method RecordDeletion(post: PostId, deleted: DeletedSubtree)
      requires deleted.DeletedSubtree?
      modifies `replyCounts, `postStats, `outbox
      ensures replyCounts == if deleted.entry.IsTopLevel() then old(replyCounts)
                             else DecrementReplyCount(old(replyCounts), deleted.rootId, deleted.affected)
      ensures postStats == DecrementStats(old(postStats), post, deleted.affected, deleted.entry.IsTopLevel())
      ensures outbox == old(outbox) + [Removed(deleted.entry.id, post, deleted.affected, deleted.entry.IsTopLevel())]
    {
      if !deleted.entry.IsTopLevel() {
        replyCounts := DecrementReplyCount(replyCounts, deleted.rootId, deleted.affected);
      }
      postStats := DecrementStats(postStats, post, deleted.affected, deleted.entry.IsTopLevel());
      outbox := outbox + [Removed(deleted.entry.id, post, deleted.affected, deleted.entry.IsTopLevel())];
    }
  }

  /** In valid tables every visible comment of a post can be replied to. */
  lemma ReplyTargetIsThere(db: Db, post: PostId, parentId: CommentId)
    requires Valid(db)
    ensures FindReplyTarget(db.comments, post, parentId).Target? <==>
              parentId in db.comments && db.comments[parentId].post == post && db.comments[parentId].status == Normal
    ensures FindReplyTarget(db.comments, post, parentId) != NoRoot
    ensures var t := FindReplyTarget(db.comments, post, parentId);
            t.Target? ==>
              && t.parent == db.comments[parentId] && t.parent.id == parentId && parentId > 0 && t.root.id > 0
              && t.root.id == if t.parent.root == 0 then parentId else t.parent.root
  {
    if Exists(db.comments, post, parentId) && db.comments[parentId].status == Normal {
      assert Shaped(db, parentId);
      if db.comments[parentId].IsReply() {
        NormalReplyHasNormalRoot(db, parentId);
        assert Shaped(db, db.comments[parentId].root);
      }
    }
  }

  /** The visible comments at and below `top`. */
  function HiddenBy(cs: map<CommentId, Comment>, top: CommentId): set<CommentId> {
    set x | x in cs && cs[x].status == Normal && Above(cs, top, x)
  }

  /** `after` is `before` with the comments at and below `top` hidden. */
  ghost predicate HidesAtAndBelow(before: map<CommentId, Comment>, after: map<CommentId, Comment>, top: CommentId) {
    && after.Keys == before.Keys
    && forall x :: x in before ==>
         after[x] == if Above(before, top, x) then before[x].(status := Deleted) else before[x]
  }

  lemma DeletionHides(db: Db, entry: Comment)
    requires Valid(db) && entry.id in db.comments && db.comments[entry.id] == entry
    ensures Gone(db, entry) == HiddenBy(db.comments, entry.id)
    ensures entry.status == Normal ==> entry.id in Gone(db, entry) && |Gone(db, entry)| > 0
    ensures HidesAtAndBelow(db.comments, MarkDeleted(db.comments, Gone(db, entry)), entry.id)
  {
    forall x | x in db.comments ensures Under(db.comments, entry.post, entry.id, x) <==> Above(db.comments, entry.id, x) {
      UnderIsBelow(db, entry.post, entry.id, x);
    }
    assert Gone(db, entry) == HiddenBy(db.comments, entry.id);
  }

  /** A set that holds `top` and every child of its members holds the whole subtree. */
  lemma {:induction false} ClosedAboveTop(
    cs: map<CommentId, Comment>, post: PostId, top: CommentId, ids: set<CommentId>, x: CommentId)
    requires top in ids
    requires forall y :: y in cs && cs[y].post == post && cs[y].parent in ids ==> y in ids
    requires Under(cs, post, top, x)
    ensures x in ids
    decreases x
  {
    if x != top {
      ClosedAboveTop(cs, post, top, ids, cs[x].parent);
    }
  }
}
