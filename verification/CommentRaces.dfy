/** Replies whose target is read without a lock: other transactions may commit between
    that read and the insert. The forest and its counters stay true over a run exactly
    when no reply is inserted below a comment that was deleted in between. */
module CommentRaces {
  import opened Comments
  import opened CommentCounters

  type OpId = nat

  /** A reply that has read its target and passed the guards of the domain. */
  datatype Reading = Reading(post: PostId, author: UserId, root: Comment, parent: Comment)

  datatype State = State(db: Db, readings: map<OpId, Reading>)

  const Init := State(Comments.Empty, map[])

  datatype Step =
    | Whole(command: Command)
    | ReadTarget(op: OpId, post: PostId, author: UserId, parentId: CommentId)
    | InsertReply(op: OpId)

  function ReadTargetStep(s: State, op: OpId, post: PostId, author: UserId, parentId: CommentId): State {
    match FindReplyTarget(s.db.comments, post, parentId)
    case NoParent => s
    case NoRoot => s
    case Target(root, parent) =>
      if op in s.readings || !ReplyDraftAllowed(post, root, parent) then s
      else s.(readings := s.readings[op := Reading(post, author, root, parent)])
  }

  function InsertReplyStep(s: State, op: OpId): State {
    if op !in s.readings then s
    else
      var r := s.readings[op];
      State(ReplyCreated(s.db, r.post, r.author, r.root.id, r.parent.id), s.readings - {op})
  }

  function StepOf(s: State, step: Step): State {
    match step
    case Whole(command) => s.(db := Apply(s.db, command).db)
    case ReadTarget(op, post, author, parentId) => ReadTargetStep(s, op, post, author, parentId)
    case InsertReply(op) => InsertReplyStep(s, op)
  }

  function RunOf(steps: seq<Step>): State
    decreases |steps|
  {
    if steps == [] then Init else StepOf(RunOf(steps[..|steps| - 1]), steps[|steps| - 1])
  }

  /** The parent of the reply has been deleted since it was read. */
  predicate Stale(s: State, step: Step) {
    && step.InsertReply? && step.op in s.readings
    && s.readings[step.op].parent.id in s.db.comments
    && s.db.comments[s.readings[step.op].parent.id].status == Deleted
  }

  // ------------------------------------------------------------------- what was read

  /** But for its status, a comment never changes. */
  predicate SameComment(cs: map<CommentId, Comment>, c: Comment) {
    c.id in cs && cs[c.id].(status := Normal) == c
  }

  ghost predicate ReadingSound(db: Db, r: Reading) {
    && SameComment(db.comments, r.root) && SameComment(db.comments, r.parent)
    && ReplyDraftAllowed(r.post, r.root, r.parent)
  }

  ghost predicate ReadingsSound(s: State) {
    forall op :: op in s.readings ==> ReadingSound(s.db, s.readings[op])
  }

  lemma CommandKeepsComment(db: Db, command: Command, c: Comment)
    requires Forest(db) && SameComment(db.comments, c)
    ensures SameComment(Apply(db, command).db.comments, c)
  {
    NewCommentHasNoReplies(db);
  }

  lemma InsertKeepsComment(db: Db, r: Reading, c: Comment)
    requires Forest(db) && SameComment(db.comments, c)
    ensures SameComment(ReplyCreated(db, r.post, r.author, r.root.id, r.parent.id).comments, c)
  {
    NewCommentHasNoReplies(db);
  }

  lemma StepKeepsReadings(s: State, step: Step)
    requires Forest(s.db) && ReadingsSound(s)
    ensures ReadingsSound(StepOf(s, step))
  {
    var s' := StepOf(s, step);
    forall op | op in s'.readings ensures ReadingSound(s'.db, s'.readings[op]) {
      match step
      case Whole(command) =>
        CommandKeepsComment(s.db, command, s.readings[op].root);
        CommandKeepsComment(s.db, command, s.readings[op].parent);
      case ReadTarget(_, post, _, parentId) =>
        ReadIsSound(s, step, op);
      case InsertReply(mine) =>
        if mine in s.readings {
          InsertKeepsComment(s.db, s.readings[mine], s.readings[op].root);
          InsertKeepsComment(s.db, s.readings[mine], s.readings[op].parent);
        }
    }
  }

  lemma ReadIsSound(s: State, step: Step, op: OpId)
    requires Forest(s.db) && ReadingsSound(s) && step.ReadTarget? && op in StepOf(s, step).readings
    ensures ReadingSound(s.db, StepOf(s, step).readings[op])
  {
    if op in s.readings {
      assert ReadingSound(s.db, s.readings[op]);
    } else {
      assert Shaped(s.db, step.parentId);
      assert Shaped(s.db, StepOf(s, step).readings[op].root.id);
    }
  }

  // -------------------------------------------------------------------- a late insert

  /** While its parent is visible a reply finds the target it has read. */
  lemma VisibleParentIsTheTarget(db: Db, r: Reading)
    requires Valid(db) && ReadingSound(db, r) && db.comments[r.parent.id].status == Normal
    ensures FindReplyTarget(db.comments, r.post, r.parent.id) == Target(r.root, r.parent)
  {
    assert Shaped(db, r.parent.id) && Shaped(db, r.root.id);
    if r.parent.IsReply() {
      NormalReplyHasNormalRoot(db, r.parent.id);
    }
  }

  lemma StaleInsertBreaksClosure(db: Db, r: Reading)
    requires Forest(db) && ReadingSound(db, r) && db.comments[r.parent.id].status == Deleted
    ensures !Closed(ReplyCreated(db, r.post, r.author, r.root.id, r.parent.id).comments)
  {
    var cs := ReplyCreated(db, r.post, r.author, r.root.id, r.parent.id).comments;
    assert Shaped(db, r.parent.id) && Shaped(db, r.root.id);
    assert cs[db.nextId].status == Normal && cs[db.nextId].IsReply();
    assert cs[cs[db.nextId].parent].status == Deleted;
  }

  lemma StepKeepsValidIff(s: State, step: Step)
    requires Valid(s.db) && ReadingsSound(s)
    ensures Valid(StepOf(s, step).db) <==> !Stale(s, step)
  {
    match step
    case Whole(command) => ApplyKeepsValid(s.db, command);
    case ReadTarget(_, _, _, _) =>
    case InsertReply(op) =>
      if op in s.readings {
        var r := s.readings[op];
        assert ReadingSound(s.db, r);
        if s.db.comments[r.parent.id].status == Normal {
          VisibleParentIsTheTarget(s.db, r);
          ReplyKeepsValid(s.db, r.post, r.author, r.parent.id);
        } else {
          StaleInsertBreaksClosure(s.db, r);
        }
      }
  }

  /** In the last state of the run and in all states before it. */
  ghost predicate AlwaysValid(steps: seq<Step>)
    decreases |steps|
  {
    Valid(RunOf(steps).db) && (steps == [] || AlwaysValid(steps[..|steps| - 1]))
  }

  predicate NeverStale(steps: seq<Step>)
    decreases |steps|
  {
    steps == [] || (NeverStale(steps[..|steps| - 1]) && !Stale(RunOf(steps[..|steps| - 1]), steps[|steps| - 1]))
  }

  lemma {:induction false} ReadingsStaySound(steps: seq<Step>)
    requires AlwaysValid(steps)
    ensures ReadingsSound(RunOf(steps))
    decreases |steps|
  {
    if steps != [] {
      ReadingsStaySound(steps[..|steps| - 1]);
      StepKeepsReadings(RunOf(steps[..|steps| - 1]), steps[|steps| - 1]);
    }
  }

  /** Over whole runs with replies in flight: forest, closure and all counters hold in
      every state if and only if no reply is inserted below a parent that was deleted
      after the reply read it. */
  lemma {:induction false} ValidIffNoStaleReply(steps: seq<Step>)
    ensures AlwaysValid(steps) <==> NeverStale(steps)
    decreases |steps|
  {
    if steps == [] {
      EmptyIsValid();
    } else {
      var before := steps[..|steps| - 1];
      ValidIffNoStaleReply(before);
      if AlwaysValid(before) {
        ReadingsStaySound(before);
        StepKeepsValidIff(RunOf(before), steps[|steps| - 1]);
      }
    }
  }

  /** A read directly followed by its insert is the whole command, and never stale. */
  lemma UninterruptedReplyIsTheCommand(s: State, op: OpId, post: PostId, author: UserId, parentId: CommentId)
    requires Valid(s.db) && op !in s.readings
    ensures var read := StepOf(s, ReadTarget(op, post, author, parentId));
            && !Stale(read, InsertReply(op))
            && StepOf(read, InsertReply(op)) == StepOf(s, Whole(CreateReply(post, author, parentId)))
  {
    ReplyTargetIsSound(s.db, post, author, parentId);
    if FindReplyTarget(s.db.comments, post, parentId).Target? {
      assert Shaped(s.db, parentId);
      var read := StepOf(s, ReadTarget(op, post, author, parentId));
      assert read.readings - {op} == s.readings;
    }
  }
}
