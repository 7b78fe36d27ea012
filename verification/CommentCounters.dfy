/** The counters of the comment service are true cardinalities in every reachable
    state, no decrement is ever clamped, and the event log accounts for them. */
module CommentCounters {
  import opened Comments

  // ---------------------------------------------------------- facts on the forest

  /** A visible reply belongs to a visible root: follow its visible parents up. */
  lemma {:induction false} NormalReplyHasNormalRoot(db: Db, x: CommentId)
    requires Forest(db) && Closed(db.comments)
    requires x in db.comments && db.comments[x].status == Normal && db.comments[x].IsReply()
    ensures db.comments[db.comments[x].root].status == Normal
    decreases x
  {
    assert Shaped(db, x);
    var parent := db.comments[x].parent;
    if db.comments[parent].IsReply() {
      NormalReplyHasNormalRoot(db, parent);
    } else {
      assert Shaped(db, parent);
    }
  }

  /** Everything below a comment lies in its post, and under the root it names. */
  lemma {:induction false} UnderSameRoot(db: Db, post: PostId, top: CommentId, x: CommentId)
    requires Forest(db) && Under(db.comments, post, top, x) && x != top
    ensures top in db.comments && db.comments[top].post == post && db.comments[x].IsReply()
    ensures db.comments[x].root == if db.comments[top].IsReply() then db.comments[top].root else top
    decreases x
  {
    assert Shaped(db, x);
    var parent := db.comments[x].parent;
    if parent == top {
      assert Shaped(db, top);
    } else {
      UnderSameRoot(db, post, top, parent);
    }
  }

  /** The comments one deletion hides. */
  function Gone(db: Db, entry: Comment): set<CommentId> {
    NormalIn(db.comments, Subtree(db.comments, entry.post, entry.id))
  }

  lemma GoneShape(db: Db, entry: Comment)
    requires Forest(db) && entry.id in db.comments && db.comments[entry.id] == entry && entry.status == Normal
    ensures entry.id in Gone(db, entry)
    ensures Gone(db, entry) <= NormalOf(db.comments, entry.post)
    ensures forall x :: x in Gone(db, entry) && x != entry.id ==>
                          && db.comments[x].IsReply()
                          && db.comments[x].root == (if entry.IsReply() then entry.root else entry.id)
  {
    assert Shaped(db, entry.id);
    forall x | x in Gone(db, entry) && x != entry.id
      ensures db.comments[x].IsReply() && db.comments[x].root == (if entry.IsReply() then entry.root else entry.id)
    {
      UnderSameRoot(db, entry.post, entry.id, x);
    }
  }

  // --------------------------------------------------------------------- creation

  lemma InsertedSets(cs: map<CommentId, Comment>, c: Comment)
    requires c.id !in cs && c.status == Normal
    ensures forall p: PostId :: NormalOf(cs[c.id := c], p) == NormalOf(cs, p) + (if p == c.post then {c.id} else {})
    ensures forall p: PostId :: NormalTops(cs[c.id := c], p)
                             == NormalTops(cs, p) + (if p == c.post && c.IsTopLevel() then {c.id} else {})
    ensures forall r: CommentId :: NormalRepliesTo(cs[c.id := c], r)
                                == NormalRepliesTo(cs, r) + (if c.IsReply() && c.root == r then {c.id} else {})
  {
  }

  lemma TopLevelKeepsValid(db: Db, post: PostId, author: UserId)
    requires Valid(db)
    ensures Valid(TopLevelCreated(db, post, author))
  {
    var db' := TopLevelCreated(db, post, author);
    var c := Comment(db.nextId, post, author, 0, 0, Normal);
    NewCommentHasNoReplies(db);
    InsertKeepsForest(db, db', c);
    InsertedSets(db.comments, c);
    InsertKeepsPostCounts(db, db', c);
  }

  /** Adding one visible comment and one to the counters of its post. */
  lemma InsertKeepsPostCounts(db: Db, db': Db, c: Comment)
    requires Valid(db) && c.id == db.nextId && c.status == Normal
    requires db'.comments == db.comments[c.id := c]
    requires db'.postStats == IncrementStats(db.postStats, c.post, c.IsTopLevel())
    ensures forall p: PostId :: PostCounted(db', p)
  {
    NewCommentHasNoReplies(db);
    InsertedSets(db.comments, c);
    forall p: PostId ensures PostCounted(db', p) {
      assert PostCounted(db, p);
      assert c.id !in NormalOf(db.comments, p) && c.id !in NormalTops(db.comments, p);
    }
  }

  lemma NewCommentHasNoReplies(db: Db)
    requires Forest(db)
    ensures NormalRepliesTo(db.comments, db.nextId) == {}
    ensures db.nextId !in db.comments && db.nextId !in db.replyCounts
  {
    forall x | x in db.comments ensures x != db.nextId && db.comments[x].root != db.nextId {
      assert Shaped(db, x);
    }
  }

  lemma InsertKeepsForest(db: Db, db': Db, c: Comment)
    requires Forest(db) && Closed(db.comments)
    requires c.id == db.nextId && c.status == Normal
    requires db'.comments == db.comments[c.id := c] && db'.nextId == db.nextId + 1
    requires db'.replyCounts.Keys == db.replyCounts.Keys + {c.id}
    requires c.IsTopLevel() || (
               && c.IsReply() && c.parent in db.comments && db.comments[c.parent].status == Normal
               && Exists(db.comments, c.post, c.parent) && Exists(db.comments, c.post, c.root)
               && db.comments[c.root].IsTopLevel()
               && c.root == (if db.comments[c.parent].IsTopLevel() then c.parent else db.comments[c.parent].root))
    ensures Forest(db') && Closed(db'.comments)
  {
    forall x | x in db'.comments ensures Shaped(db', x) {
      if x != c.id {
        assert Shaped(db, x);
      } else if c.IsReply() {
        assert Shaped(db, c.parent) && Shaped(db, c.root);
      }
    }
    forall x | x in db'.comments && db'.comments[x].status == Normal && db'.comments[x].IsReply()
      ensures db'.comments[x].parent in db'.comments && db'.comments[db'.comments[x].parent].status == Normal
    {
      if x != c.id {
        assert Shaped(db, x);
      }
    }
  }

  /** What a reply target is worth: the guards of the domain hold for it, before
      the insert and again on the stored reply, and its root is a visible root. */
  lemma ReplyTargetIsSound(db: Db, post: PostId, author: UserId, parentId: CommentId)
    requires Valid(db)
    ensures FindReplyTarget(db.comments, post, parentId) != NoRoot
    ensures FindReplyTarget(db.comments, post, parentId) == NoParent <==>
              !Exists(db.comments, post, parentId) || db.comments[parentId].status == Deleted
    ensures FindReplyTarget(db.comments, post, parentId).Target? ==>
              var t := FindReplyTarget(db.comments, post, parentId);
              var reply := Comment(db.nextId, post, author, t.root.id, t.parent.id, Normal);
              && t.parent == db.comments[parentId] && t.parent.id == parentId
              && t.root.id in db.comments && t.root == db.comments[t.root.id]
              && ReplyDraftAllowed(post, t.root, t.parent)
              && ReplyEventAllowed(reply, t.root, t.parent)
  {
    if Exists(db.comments, post, parentId) && db.comments[parentId].status == Normal {
      assert Shaped(db, parentId);
      if db.comments[parentId].IsReply() {
        NormalReplyHasNormalRoot(db, parentId);
        assert Shaped(db, db.comments[parentId].root);
      }
    }
  }

  lemma ReplyKeepsReplyCounts(db: Db, c: Comment, r: CommentId)
    requires Forest(db) && c.id == db.nextId && c.status == Normal && c.IsReply()
    requires c.root in db.comments
    requires r in db.comments && db.replyCounts[r] == |NormalRepliesTo(db.comments, r)|
    ensures var db' := ReplyCreated(db, c.post, c.author, c.root, c.parent);
            r in db'.replyCounts && db'.replyCounts[r] == |NormalRepliesTo(db'.comments, r)|
  {
    NewCommentHasNoReplies(db);
    InsertedSets(db.comments, c);
    assert c.id !in NormalRepliesTo(db.comments, r);
  }

  lemma ReplyKeepsValid(db: Db, post: PostId, author: UserId, parentId: CommentId)
    requires Valid(db) && FindReplyTarget(db.comments, post, parentId).Target?
    ensures var t := FindReplyTarget(db.comments, post, parentId);
            Valid(ReplyCreated(db, post, author, t.root.id, t.parent.id))
  {
    var t := FindReplyTarget(db.comments, post, parentId);
    ReplyTargetIsSound(db, post, author, parentId);
    var db' := ReplyCreated(db, post, author, t.root.id, parentId);
    var c := Comment(db.nextId, post, author, t.root.id, parentId, Normal);
    assert Shaped(db, parentId) && Shaped(db, t.root.id);
    InsertKeepsForest(db, db', c);
    InsertKeepsPostCounts(db, db', c);
    forall r | r in db'.comments && db'.comments[r].status == Normal && db'.comments[r].IsTopLevel()
      ensures r in db'.replyCounts && db'.replyCounts[r] == |NormalRepliesTo(db'.comments, r)|
    {
      ReplyKeepsReplyCounts(db, c, r);
    }
  }

  // --------------------------------------------------------------------- deletion

  lemma DeletedSets(cs: map<CommentId, Comment>, gone: set<CommentId>)
    ensures forall p: PostId :: NormalOf(MarkDeleted(cs, gone), p) == NormalOf(cs, p) - gone
    ensures forall p: PostId :: NormalTops(MarkDeleted(cs, gone), p) == NormalTops(cs, p) - gone
    ensures forall r: CommentId :: NormalRepliesTo(MarkDeleted(cs, gone), r) == NormalRepliesTo(cs, r) - gone
  {
  }

  lemma SubsetLess<T>(a: set<T>, b: set<T>)
    requires b <= a
    ensures |a - b| == |a| - |b|
  {
    assert a == (a - b) + b;
  }

  /** A visible reply goes with its parent. */
  lemma ChildGoesWithParent(db: Db, entry: Comment, x: CommentId)
    requires Forest(db) && x in db.comments && db.comments[x].status == Normal && db.comments[x].IsReply()
    ensures db.comments[x].parent in Gone(db, entry) ==> x in Gone(db, entry)
  {
    assert Shaped(db, x);
  }

  lemma DeletionKeepsForest(db: Db, entry: Comment)
    requires Forest(db)
    requires entry.id in db.comments && db.comments[entry.id] == entry && entry.status == Normal
    ensures Forest(SubtreeRemoved(db, entry))
  {
    var db' := SubtreeRemoved(db, entry);
    assert Shaped(db, entry.id);
    forall x | x in db'.comments ensures Shaped(db', x) {
      assert Shaped(db, x);
    }
  }

  lemma DeletionKeepsClosed(db: Db, entry: Comment)
    requires Forest(db) && Closed(db.comments)
    ensures Closed(MarkDeleted(db.comments, Gone(db, entry)))
  {
    var cs := MarkDeleted(db.comments, Gone(db, entry));
    forall x | x in cs && cs[x].status == Normal && cs[x].IsReply()
      ensures cs[x].parent in cs && cs[cs[x].parent].status == Normal
    {
      assert Shaped(db, x);
      ChildGoesWithParent(db, entry, x);
    }
  }

  /** The three decrements take off exactly what was there: none is ever clamped. */
  lemma DecrementsAreCovered(db: Db, entry: Comment)
    requires Valid(db)
    requires entry.id in db.comments && db.comments[entry.id] == entry && entry.status == Normal
    ensures 0 < |Gone(db, entry)| <= StatsOf(db.postStats, entry.post).total
    ensures entry.IsTopLevel() ==> 1 <= StatsOf(db.postStats, entry.post).tops
    ensures entry.IsReply() ==> entry.root in db.replyCounts && |Gone(db, entry)| <= db.replyCounts[entry.root]
  {
    assert Shaped(db, entry.id);
    assert PostCounted(db, entry.post);
    GoneShape(db, entry);
    SubsetLess(NormalOf(db.comments, entry.post), Gone(db, entry));
    if entry.IsTopLevel() {
      assert entry.id in NormalTops(db.comments, entry.post);
    } else {
      NormalReplyHasNormalRoot(db, entry.id);
      SubsetLess(NormalRepliesTo(db.comments, entry.root), Gone(db, entry));
    }
  }

  lemma GoneFromTops(db: Db, entry: Comment)
    requires Forest(db)
    requires entry.id in db.comments && db.comments[entry.id] == entry && entry.status == Normal
    ensures NormalTops(db.comments, entry.post) - Gone(db, entry)
         == if entry.IsTopLevel() then NormalTops(db.comments, entry.post) - {entry.id}
            else NormalTops(db.comments, entry.post)
  {
    assert Shaped(db, entry.id);
    GoneShape(db, entry);
  }

  lemma DeletionKeepsOtherPosts(db: Db, entry: Comment, p: PostId)
    requires Forest(db) && PostCounted(db, p) && p != entry.post
    requires entry.id in db.comments && db.comments[entry.id] == entry && entry.status == Normal
    ensures PostCounted(SubtreeRemoved(db, entry), p)
  {
    var gone := Gone(db, entry);
    GoneShape(db, entry);
    assert NormalOf(db.comments, p) - gone == NormalOf(db.comments, p);
    assert NormalTops(db.comments, p) - gone == NormalTops(db.comments, p);
    DeletedSets(db.comments, gone);
  }

  lemma DeletionKeepsPostCounts(db: Db, entry: Comment)
    requires Forest(db) && PostCounted(db, entry.post)
    requires entry.id in db.comments && db.comments[entry.id] == entry && entry.status == Normal
    ensures PostCounted(SubtreeRemoved(db, entry), entry.post)
  {
    var p, gone := entry.post, Gone(db, entry);
    var all, tops := NormalOf(db.comments, p), NormalTops(db.comments, p);
    var db' := SubtreeRemoved(db, entry);
    assert NormalOf(db'.comments, p) == all - gone && NormalTops(db'.comments, p) == tops - gone by {
      DeletedSets(db.comments, gone);
    }
    assert |all - gone| == |all| - |gone| && entry.id in all && p in db.postStats by {
      GoneShape(db, entry);
      SubsetLess(all, gone);
    }
    assert |tops - gone| == |tops| - if entry.IsTopLevel() then 1 else 0 by {
      GoneFromTops(db, entry);
    }
  }

  /** Which of the replies to `r` one deletion hides: all of its own subtree when
      `r` is its root, and none of any other root's. */
  lemma GoneFromReplies(db: Db, entry: Comment, r: CommentId)
    requires Forest(db) && r !in Gone(db, entry)
    requires r in db.comments && db.comments[r].status == Normal && db.comments[r].IsTopLevel()
    requires entry.id in db.comments && db.comments[entry.id] == entry && entry.status == Normal
    ensures entry.IsReply() && r == entry.root ==> Gone(db, entry) <= NormalRepliesTo(db.comments, r)
    ensures !(entry.IsReply() && r == entry.root) ==>
              NormalRepliesTo(db.comments, r) - Gone(db, entry) == NormalRepliesTo(db.comments, r)
  {
    assert Shaped(db, entry.id);
    GoneShape(db, entry);
  }

  lemma DeletionKeepsReplyCount(db: Db, entry: Comment, r: CommentId)
    requires Forest(db) && r !in Gone(db, entry)
    requires r in db.comments && db.comments[r].status == Normal && db.comments[r].IsTopLevel()
    requires db.replyCounts[r] == |NormalRepliesTo(db.comments, r)|
    requires entry.id in db.comments && db.comments[entry.id] == entry && entry.status == Normal
    ensures var db' := SubtreeRemoved(db, entry);
            r in db'.replyCounts && db'.replyCounts[r] == |NormalRepliesTo(db'.comments, r)|
  {
    var replies, gone := NormalRepliesTo(db.comments, r), Gone(db, entry);
    var db' := SubtreeRemoved(db, entry);
    assert NormalRepliesTo(db'.comments, r) == replies - gone by {
      DeletedSets(db.comments, gone);
    }
    assert Shaped(db, entry.id);
    GoneFromReplies(db, entry, r);
    if entry.IsReply() && r == entry.root {
      SubsetLess(replies, gone);
    }
  }

  lemma DeletionKeepsValid(db: Db, entry: Comment)
    requires Valid(db)
    requires entry.id in db.comments && db.comments[entry.id] == entry && entry.status == Normal
    ensures Valid(SubtreeRemoved(db, entry))
  {
    var db' := SubtreeRemoved(db, entry);
    DeletionKeepsForest(db, entry);
    DeletionKeepsClosed(db, entry);
    forall p: PostId ensures PostCounted(db', p) {
      if p == entry.post {
        DeletionKeepsPostCounts(db, entry);
      } else {
        DeletionKeepsOtherPosts(db, entry, p);
      }
    }
    forall r | r in db'.comments && db'.comments[r].status == Normal && db'.comments[r].IsTopLevel()
      ensures r in db'.replyCounts && db'.replyCounts[r] == |NormalRepliesTo(db'.comments, r)|
    {
      DeletionKeepsReplyCount(db, entry, r);
    }
  }

  // ------------------------------------------------------------------ over all runs

  lemma ApplyKeepsValid(db: Db, c: Command)
    requires Valid(db)
    ensures Valid(Apply(db, c).db)
  {
    match c
    case CreateTopLevel(post, author) => TopLevelKeepsValid(db, post, author);
    case CreateReply(post, author, parentId) =>
      if FindReplyTarget(db.comments, post, parentId).Target? {
        ReplyKeepsValid(db, post, author, parentId);
      }
    case Delete(post, id, actor, role) =>
      if Exists(db.comments, post, id) && db.comments[id].status == Normal {
        assert Shaped(db, id);
        DeletionKeepsValid(db, db.comments[id]);
      }
  }

  lemma {:induction false} RunKeepsValid(db: Db, cs: seq<Command>)
    requires Valid(db)
    ensures Valid(Run(db, cs))
    decreases |cs|
  {
    if cs != [] {
      ApplyKeepsValid(db, cs[0]);
      RunKeepsValid(Apply(db, cs[0]).db, cs[1..]);
    }
  }

  /** In every reachable state: the post total is the number of visible comments of
      the post, the top-level total the number of visible top-level ones, and the
      reply count of every visible root the number of visible comments that name it
      as their root; and every visible reply still hangs below a visible parent. */
  lemma CountersAreCardinalities(cs: seq<Command>)
    ensures var db := Run(Empty, cs);
            && (forall p: PostId :: StatsOf(db.postStats, p).total == |NormalOf(db.comments, p)|)
            && (forall p: PostId :: StatsOf(db.postStats, p).tops == |NormalTops(db.comments, p)|)
            && (forall r :: r in db.comments && db.comments[r].status == Normal && db.comments[r].IsTopLevel() ==>
                              r in db.replyCounts && db.replyCounts[r] == |NormalRepliesTo(db.comments, r)|)
            && Closed(db.comments)
  {
    EmptyIsValid();
    RunKeepsValid(Empty, cs);
    var db := Run(Empty, cs);
    forall p: PostId
      ensures StatsOf(db.postStats, p).total == |NormalOf(db.comments, p)|
      ensures StatsOf(db.postStats, p).tops == |NormalTops(db.comments, p)|
    {
      assert PostCounted(db, p);
    }
  }

  lemma EmptyIsValid()
    ensures Valid(Empty)
  {
    forall p: PostId ensures PostCounted(Empty, p) {
      assert NormalOf(Empty.comments, p) == {} && NormalTops(Empty.comments, p) == {};
    }
  }

  // ----------------------------------------------------------- the log accounts for it

  /** Comments announced as created, less those announced as removed. */
  function Balance(log: seq<Event>, post: PostId): int {
    if log == [] then 0 else Balance(log[..|log| - 1], post) + Worth(log[|log| - 1], post)
  }

  function Worth(e: Event, post: PostId): int {
    if e.post != post then 0 else if e.Created? then 1 else 0 - e.affected
  }

  lemma BalanceAppend(log: seq<Event>, e: Event, post: PostId)
    ensures Balance(log + [e], post) == Balance(log, post) + Worth(e, post)
  {
    assert (log + [e])[..|log|] == log;
  }

  ghost predicate Balanced(db: Db) {
    forall p: PostId :: Balance(db.log, p) == StatsOf(db.postStats, p).total
  }

  /** One command publishes at most one event, worth what it does to the totals. */
  lemma EventIsWorthItsChange(db: Db, c: Command, p: PostId)
    requires Valid(db)
    ensures var db' := Apply(db, c).db;
            || db' == db
            || (|db'.log| == |db.log| + 1 && db'.log == db.log + [db'.log[|db.log|]]
                && StatsOf(db'.postStats, p).total == StatsOf(db.postStats, p).total + Worth(db'.log[|db.log|], p))
  {
    if c.Delete? && Exists(db.comments, c.post, c.id) && db.comments[c.id].status == Normal {
      assert Shaped(db, c.id);
      DecrementsAreCovered(db, db.comments[c.id]);
    }
  }

  lemma ApplyKeepsBalance(db: Db, c: Command)
    requires Valid(db) && Balanced(db)
    ensures Balanced(Apply(db, c).db)
  {
    var db' := Apply(db, c).db;
    forall p: PostId ensures Balance(db'.log, p) == StatsOf(db'.postStats, p).total {
      assert Balance(db.log, p) == StatsOf(db.postStats, p).total;
      EventIsWorthItsChange(db, c, p);
      if db' != db {
        BalanceAppend(db.log, db'.log[|db.log|], p);
      }
    }
  }

  lemma {:induction false} RunKeepsBalance(db: Db, cs: seq<Command>)
    requires Valid(db) && Balanced(db)
    ensures Valid(Run(db, cs)) && Balanced(Run(db, cs))
    decreases |cs|
  {
    if cs != [] {
      ApplyKeepsValid(db, cs[0]);
      ApplyKeepsBalance(db, cs[0]);
      RunKeepsBalance(Apply(db, cs[0]).db, cs[1..]);
    }
  }

  /** The sum of the stored reply counts of some roots. */
  ghost function SumOfReplyCounts(db: Db, roots: set<CommentId>): int
    requires forall r :: r in roots ==> r in db.replyCounts
  {
    if roots == {} then 0
    else
      var r :| r in roots;
      db.replyCounts[r] + SumOfReplyCounts(db, roots - {r})
  }

  function RepliesUnder(cs: map<CommentId, Comment>, roots: set<CommentId>): set<CommentId> {
    set x | x in cs && cs[x].status == Normal && cs[x].IsReply() && cs[x].root in roots
  }

  lemma {:induction false} SumCountsReplies(db: Db, post: PostId, roots: set<CommentId>)
    requires Valid(db) && roots <= NormalTops(db.comments, post)
    ensures forall r :: r in roots ==> r in db.replyCounts
    ensures SumOfReplyCounts(db, roots) == |RepliesUnder(db.comments, roots)|
    decreases |roots|
  {
    if roots == {} {
      assert RepliesUnder(db.comments, roots) == {};
    } else {
      forall r | r in roots ensures r in db.replyCounts {}
      var r :| r in roots && SumOfReplyCounts(db, roots) == db.replyCounts[r] + SumOfReplyCounts(db, roots - {r});
      SumCountsReplies(db, post, roots - {r});
      var here, rest := NormalRepliesTo(db.comments, r), RepliesUnder(db.comments, roots - {r});
      assert RepliesUnder(db.comments, roots) == here + rest;
      assert here !! rest;
    }
  }

  /** Conservation, in every reachable state and for every post: the comments
      announced as created, less those announced as removed, are the total; and the
      total is the top-level total plus the reply counts of the visible roots. */
  lemma CommentsAreConserved(cs: seq<Command>, post: PostId)
    ensures var db := Run(Empty, cs);
            var tops := NormalTops(db.comments, post);
            && Balance(db.log, post) == StatsOf(db.postStats, post).total
            && (forall r :: r in tops ==> r in db.replyCounts)
            && StatsOf(db.postStats, post).total
                 == StatsOf(db.postStats, post).tops + SumOfReplyCounts(db, tops)
  {
    EmptyIsValid();
    RunKeepsBalance(Empty, cs);
    var db := Run(Empty, cs);
    var tops := NormalTops(db.comments, post);
    assert PostCounted(db, post);
    SumCountsReplies(db, post, tops);
    var replies := RepliesUnder(db.comments, tops);
    assert NormalOf(db.comments, post) == tops + replies by {
      forall x | x in NormalOf(db.comments, post) ensures x in tops + replies {
        assert Shaped(db, x);
        if db.comments[x].IsReply() {
          NormalReplyHasNormalRoot(db, x);
          assert db.comments[x].root in tops;
        }
      }
      forall x | x in replies ensures x in NormalOf(db.comments, post) {
        assert Shaped(db, x);
      }
    }
    assert tops !! replies;
  }

  /** Deleting again, as an administrator may, changes nothing and announces nothing. */
  lemma SecondDeleteIsSilent(cs: seq<Command>, post: PostId, id: CommentId, actor: UserId, role: Role, again: UserId)
    requires Apply(Run(Empty, cs), Delete(post, id, actor, role)).outcome == Done
    ensures var db := Apply(Run(Empty, cs), Delete(post, id, actor, role)).db;
            && Apply(db, Delete(post, id, again, Admin)) == Result(db, AlreadyDeleted)
            && Apply(db, Delete(post, id, again, Author)) == Result(db, CommentNotFound)
  {
    EmptyIsValid();
    RunKeepsValid(Empty, cs);
    var db := Run(Empty, cs);
    assert Shaped(db, id);
    GoneShape(db, db.comments[id]);
  }

  /** The read of a reply's target takes no lock. If the root is deleted between that
      read and the insert, although both are in one transaction, a visible reply is left
      without a visible root and the counts of visible roots miss it. `CommentRaces`
      tells exactly which runs stay sound. */
  lemma StaleReplyTargetBreaksConservation(author: UserId)
    ensures var before := Run(Empty, [CreateTopLevel(1, author)]);
            var target := FindReplyTarget(before.comments, 1, 1);
            && target.Target?
            && var deleted := Apply(before, Delete(1, 1, author, Author)).db;
               var after := ReplyCreated(deleted, 1, author, target.root.id, target.parent.id);
               && !Closed(after.comments)
               && NormalTops(after.comments, 1) == {}
               && StatsOf(after.postStats, 1).total == 1
  {
    var cs := [CreateTopLevel(1, author)];
    assert cs[1..] == [];
    var before := Run(Empty, cs);
    assert before == Run(Apply(Empty, cs[0]).db, []) == Apply(Empty, cs[0]).db;
    var root := Comment(1, 1, author, 0, 0, Normal);
    assert before.comments == map[1 := root];
    assert Subtree(before.comments, 1, 1) == {1};
    assert Gone(before, root) == {1};
    var deleted := Apply(before, Delete(1, 1, author, Author)).db;
    assert deleted.comments == map[1 := root.(status := Deleted)];
    var after := ReplyCreated(deleted, 1, author, 1, 1);
    assert after.comments[2].parent == 1 && after.comments[1].status == Deleted;
  }
}
