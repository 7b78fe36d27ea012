/** Who may hide a comment. Over every run a visible comment is hidden only by an
    administrator, or by the author of the comment itself or of a comment above it. */
module CommentRules {
  import opened Comments
  import opened CommentCounters

  /** `a` is `x` or a comment above it. Parents have smaller ids. */
  predicate Above(cs: map<CommentId, Comment>, a: CommentId, x: CommentId)
    decreases x
  {
    a == x || (x in cs && 0 < cs[x].parent < x && Above(cs, a, cs[x].parent))
  }

  lemma {:induction false} UnderIsBelow(db: Db, post: PostId, top: CommentId, x: CommentId)
    requires Forest(db) && Exists(db.comments, post, top) && x in db.comments
    ensures Under(db.comments, post, top, x) <==> Above(db.comments, top, x)
    decreases x
  {
    assert Shaped(db, x);
    if x != top && db.comments[x].IsReply() {
      UnderIsBelow(db, post, top, db.comments[x].parent);
      AboveStaysInPost(db, top, db.comments[x].parent);
    }
  }

  lemma {:induction false} AboveStaysInPost(db: Db, a: CommentId, x: CommentId)
    requires Forest(db) && a in db.comments && x in db.comments
    ensures Above(db.comments, a, x) ==> db.comments[a].post == db.comments[x].post
    decreases x
  {
    assert Shaped(db, x);
    if x != a && db.comments[x].IsReply() {
      AboveStaysInPost(db, a, db.comments[x].parent);
    }
  }

  /** The command may hide `x`: it deletes a comment at or above `x`, and its actor is
      an administrator or wrote that comment. */
  predicate MayHide(db: Db, c: Command, x: CommentId) {
    && c.Delete? && c.id in db.comments && db.comments[c.id].post == c.post
    && Above(db.comments, c.id, x)
    && (c.role == Admin || db.comments[c.id].author == c.actor)
  }

  /** A step hides a visible comment exactly when it may, and the comment it deletes is
      visible; it changes nothing else about any comment. */
  lemma HidesWhatItMay(db: Db, c: Command, x: CommentId)
    requires Valid(db) && x in db.comments && db.comments[x].status == Normal
    ensures x in Apply(db, c).db.comments
    ensures Apply(db, c).db.comments[x].status == Deleted <==>
              MayHide(db, c, x) && db.comments[c.id].status == Normal
  {
    if c.Delete? && Exists(db.comments, c.post, c.id) {
      UnderIsBelow(db, c.post, c.id, x);
    }
  }

  /** `d` is `c`, or `c` hidden. */
  predicate SameComment(c: Comment, d: Comment) {
    d == c || d == c.(status := Deleted)
  }

  lemma DeletionKeepsComments(cs: map<CommentId, Comment>, ids: set<CommentId>, x: CommentId)
    requires x in cs
    ensures x in MarkDeleted(cs, ids) && SameComment(cs[x], MarkDeleted(cs, ids)[x])
  {
  }

  /** What a comment was created with never changes, and nothing hidden comes back. */
  lemma CommentsStay(db: Db, c: Command, x: CommentId)
    requires Forest(db) && x in db.comments
    ensures x in Apply(db, c).db.comments && SameComment(db.comments[x], Apply(db, c).db.comments[x])
  {
    assert Shaped(db, x);
    if c.Delete? && Exists(db.comments, c.post, c.id) {
      DeletionKeepsComments(db.comments, Gone(db, db.comments[c.id]), x);
    }
  }

  /** Every new comment is visible, of the author and post of the command, and hangs
      where the command says: at the top, or below a visible comment of the post and
      under the root of that comment. */
  lemma NewCommentsAreAsAsked(db: Db, c: Command, x: CommentId)
    requires Valid(db) && x in Apply(db, c).db.comments && x !in db.comments
    ensures var made := Apply(db, c).db.comments[x];
            && x == db.nextId && made.id == x && made.status == Normal && !c.Delete?
            && made.post == c.post && made.author == c.author
            && (c.CreateTopLevel? ==> made.root == 0 && made.parent == 0)
            && (c.CreateReply? ==>
                  && made.parent == c.parentId && c.parentId in db.comments
                  && db.comments[c.parentId].post == c.post && db.comments[c.parentId].status == Normal
                  && made.root == if db.comments[c.parentId].root == 0 then c.parentId else db.comments[c.parentId].root)
  {
    if c.CreateReply? {
      ReplyTargetIsSound(db, c.post, c.author, c.parentId);
      if c.parentId in db.comments {
        assert Shaped(db, c.parentId);
      }
    }
  }

  lemma {:induction false} RunIsValid(cs: seq<Command>)
    ensures Valid(Run(Empty, cs))
  {
    EmptyIsValid();
    RunKeepsValid(Empty, cs);
  }

  /** Somewhere in the run a command that may hide `x` met it visible. */
  ghost predicate HiddenByRight(db: Db, cs: seq<Command>, x: CommentId)
    decreases |cs|
  {
    && cs != []
    && (|| (x in db.comments && db.comments[x].status == Normal && MayHide(db, cs[0], x))
        || HiddenByRight(Apply(db, cs[0]).db, cs[1..], x))
  }

  lemma {:induction false} HiddenFrom(db: Db, cs: seq<Command>, x: CommentId)
    requires Valid(db) && (x in db.comments ==> db.comments[x].status == Normal)
    requires x in Run(db, cs).comments && Run(db, cs).comments[x].status == Deleted
    ensures HiddenByRight(db, cs, x)
    decreases |cs|
  {
    if cs != [] {
      var next := Apply(db, cs[0]).db;
      ApplyKeepsValid(db, cs[0]);
      if x in db.comments {
        HidesWhatItMay(db, cs[0], x);
      } else if x in next.comments {
        NewCommentsAreAsAsked(db, cs[0], x);
      }
      if x !in next.comments || next.comments[x].status == Normal {
        HiddenFrom(next, cs[1..], x);
      }
    }
  }

  /** Over every run: a comment is hidden only by an administrator, or by the author of
      the comment or of one above it. */
  lemma HiddenOnlyByRight(cs: seq<Command>, x: CommentId)
    requires x in Run(Empty, cs).comments && Run(Empty, cs).comments[x].status == Deleted
    ensures HiddenByRight(Empty, cs, x)
  {
    EmptyIsValid();
    HiddenFrom(Empty, cs, x);
  }
}
