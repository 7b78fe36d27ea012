/** What becomes of published snapshots: when a replaced one is left behind, that it is
    left behind for good, and that nothing else leaks. */
module PostSnapshots {
  import opened Posts
  import opened PostProtocol
  import opened PostSafety
  import opened PostGuarantees

  /** A stored snapshot that no pointer names, no command holds and no cleanup task
      covers. */
  ghost predicate Stranded(w: World, b: BodyId) {
    && b in w.bodies && w.bodies[b].role == Snapshot
    && !Referenced(w.db, b) && !Held(w.ops, b) && !Tasked(w.db.tasks, b)
  }

  // -------------------------------------------------- each snapshot is public for one post

  ghost predicate Exclusive(db: Tables) {
    forall p, q :: p in db.posts && q in db.posts && p != q && db.posts[p].published.id != 0 ==>
      db.posts[p].published.id != db.posts[q].published.id
  }

  lemma StepKeepsExclusive(w: World, s: Step)
    requires Sound(w) && Exclusive(w.db)
    ensures Exclusive(Apply(w, s).db)
  {
    var posts := Apply(w, s).db.posts;
    forall q, r | q in posts && r in posts && q != r && posts[q].published.id != 0
      ensures posts[q].published.id != posts[r].published.id
    {
      MoveIsExclusive(w, s, q, r);
      MoveIsExclusive(w, s, r, q);
    }
  }

  lemma MoveIsExclusive(w: World, s: Step, q: PostId, r: PostId)
    requires Sound(w) && q != r && q in Apply(w, s).db.posts && r in Apply(w, s).db.posts
    ensures MovesPublished(w, s, q) ==>
              Apply(w, s).db.posts[q].published.id != Apply(w, s).db.posts[r].published.id && !MovesPublished(w, s, r)
  {
    if MovesPublished(w, s, q) {
      OnlyPublishMovesPublished(w, s, q);
      assert OpSound(w.db, w.bodies, w.issued, w.ops[s.op]);
      if MovesPublished(w, s, r) {
        OnlyPublishMovesPublished(w, s, r);
      } else if r in w.db.posts {
        assert !Names(w.db.posts[r], w.ops[s.op].body);
      }
    }
  }

  lemma {:induction false} RunIsExclusive(steps: seq<Step>)
    ensures Exclusive(Run(Init, steps).db)
    decreases |steps|
  {
    if steps != [] {
      RunIsExclusive(steps[..|steps| - 1]);
      RunIsSound(steps[..|steps| - 1]);
      StepKeepsExclusive(Run(Init, steps[..|steps| - 1]), steps[|steps| - 1]);
    }
  }

  /** Only a published slot names a snapshot. */
  predicate IsPublic(db: Tables, b: BodyId) {
    exists p :: p in db.posts && db.posts[p].published.id == b
  }

  lemma SnapshotsArePublished(w: World, b: BodyId)
    requires Sound(w) && b in w.bodies && w.bodies[b].role == Snapshot
    ensures Referenced(w.db, b) <==> IsPublic(w.db, b)
  {
    if Referenced(w.db, b) {
      var p :| p in w.db.posts && Names(w.db.posts[p], b);
      assert RowSound(w.bodies, w.db.posts[p]);
    }
    if IsPublic(w.db, b) {
      var p :| p in w.db.posts && w.db.posts[p].published.id == b;
      assert Names(w.db.posts[p], b);
    }
  }

  // ----------------------------------------------------------------- a publication

  /** An accepted publication, told to its caller or not, over the post it names. */
  predicate Publishes(w: World, op: OpId, outcome: TxOutcome) {
    && op in w.ops && w.ops[op].Written? && w.ops[op].cmd.Publish? && outcome != Aborted
    && PublishTx(w.db, w.ops[op].cmd, w.ops[op].cur, NewPtr(w.ops[op])).Accepted?
  }

  lemma PublishedRowBefore(w: World, op: OpId, outcome: TxOutcome)
    requires Sound(w) && Publishes(w, op, outcome)
    ensures var o, w' := w.ops[op], CommitStep(w, op, outcome);
            && o.cmd.post in w.db.posts && w'.bodies == w.bodies && w'.lost == w.lost
            && w'.db.posts == w.db.posts[o.cmd.post :=
                 Post(o.cmd.actor, Published, w.db.posts[o.cmd.post].version + 1, NoPtr, NewPtr(o))]
            && w'.db.tasks == Upsert(w.db.tasks, TaskKey(w.db.posts[o.cmd.post].draft.id, OldDraft))
            && (forall i :: i != op ==> (i in w'.ops <==> i in w.ops) && (i in w.ops ==> w'.ops[i] == w.ops[i]))
            && (op in w'.ops ==> HeldBy(w'.ops[op]) == HeldBy(o))
  {
    assert OpSound(w.db, w.bodies, w.issued, w.ops[op]);
  }

  /** The snapshot a publication replaces: stored still, named by nothing, and with a
      task or a holder exactly if it had one before. */
  lemma ReplacedSnapshot(w: World, op: OpId, outcome: TxOutcome, b: BodyId)
    requires Sound(w) && Exclusive(w.db) && Publishes(w, op, outcome)
    requires b != 0 && w.db.posts[w.ops[op].cmd.post].published.id == b
    ensures var w' := CommitStep(w, op, outcome);
            && b in w'.bodies && w'.bodies[b].role == Snapshot && !Referenced(w'.db, b)
            && (Tasked(w'.db.tasks, b) <==> Tasked(w.db.tasks, b))
            && (Held(w'.ops, b) <==> Held(w.ops, b))
  {
    var o, w' := w.ops[op], CommitStep(w, op, outcome);
    var row := w.db.posts[o.cmd.post];
    PublishedRowBefore(w, op, outcome);
    assert RowSound(w.bodies, row) && Names(row, b);
    assert OpSound(w.db, w.bodies, w.issued, o);
    CommitKeepsSound(w, op, outcome);
    assert !IsPublic(w'.db, b);
    SnapshotsArePublished(w', b);
    ReplacedKeepsTasks(w.db.tasks, row.draft.id, b);
    ReplacedKeepsHolders(w, w', op, b);
  }

  lemma ReplacedKeepsTasks(tasks: map<TaskKey, Task>, draft: BodyId, b: BodyId)
    requires draft != b
    ensures Tasked(Upsert(tasks, TaskKey(draft, OldDraft)), b) <==> Tasked(tasks, b)
  {
    if Tasked(tasks, b) {
      var kind :| TaskKey(b, kind) in tasks;
      assert TaskKey(b, kind) in Upsert(tasks, TaskKey(draft, OldDraft));
    }
  }

  lemma ReplacedKeepsHolders(w: World, w': World, op: OpId, b: BodyId)
    requires op in w.ops && b !in HeldBy(w.ops[op]) && (op in w'.ops ==> HeldBy(w'.ops[op]) == HeldBy(w.ops[op]))
    requires forall i :: i != op ==> (i in w'.ops <==> i in w.ops) && (i in w.ops ==> w'.ops[i] == w.ops[i])
    ensures Held(w'.ops, b) <==> Held(w.ops, b)
  {
    if Held(w.ops, b) {
      var i :| i in w.ops && b in HeldBy(w.ops[i]);
      assert i in w'.ops && b in HeldBy(w'.ops[i]);
    }
  }

  /** The exact condition, at the step: a publication over a public or withdrawn post
      strands the snapshot it replaces if and only if no cleanup task has named it and
      no command still has to register it. */
  lemma StrandsIffNoTask(steps: seq<Step>, op: OpId, outcome: TxOutcome)
    ensures var w := Run(Init, steps);
            Publishes(w, op, outcome) ==>
              var w' := CommitStep(w, op, outcome);
              && w.ops[op].cmd.post in w.db.posts
              && var replaced := w.db.posts[w.ops[op].cmd.post].published;
                 replaced != NoPtr ==>
                   && replaced.id in w'.bodies && !Referenced(w'.db, replaced.id)
                   && (Tasked(w'.db.tasks, replaced.id) <==> Tasked(w.db.tasks, replaced.id))
                   && (Stranded(w', replaced.id) <==> !Tasked(w.db.tasks, replaced.id) && !Held(w.ops, replaced.id))
  {
    RunIsSound(steps);
    RunIsExclusive(steps);
    var w := Run(Init, steps);
    if Publishes(w, op, outcome) {
      var replaced := w.db.posts[w.ops[op].cmd.post].published;
      if replaced != NoPtr {
        assert RowSound(w.bodies, w.db.posts[w.ops[op].cmd.post]);
        ReplacedSnapshot(w, op, outcome, replaced.id);
      }
    }
  }

  // --------------------------------------------------------------------- for good

  predicate IsTransaction(s: Step) { s.Commit? || s.DeleteDraft? || s.AdminDelete? }

  lemma NothingMoves(db: Tables)
    ensures Moves(db, db, NoPtr, DraftBody)
  {
  }

  lemma CommitStepMoves(w: World, op: OpId, outcome: TxOutcome) returns (ptr: Ptr, role: Role)
    requires Sound(w)
    ensures Moves(w.db, CommitStep(w, op, outcome).db, ptr, role) && (ptr.id != 0 ==> Held(w.ops, ptr.id))
  {
    ptr, role := NoPtr, DraftBody;
    if CommitStep(w, op, outcome).db == w.db {
      NothingMoves(w.db);
    } else {
      CommitMoves(w, op);
      var o := w.ops[op];
      ptr := if o.cmd.Create? || o.cmd.Save? || o.cmd.Publish? then NewPtr(o) else NoPtr;
      role := RoleFor(o.cmd);
      assert ptr.id != 0 ==> ptr.id in HeldBy(o);
    }
  }

  /** What a transaction step does to pointers and tasks; the pointer it brings is that
      of a body its command held. */
  lemma TransactionMoves(w: World, s: Step) returns (ptr: Ptr, role: Role)
    requires Sound(w) && IsTransaction(s)
    ensures Moves(w.db, Apply(w, s).db, ptr, role) && (ptr.id != 0 ==> Held(w.ops, ptr.id))
  {
    ptr, role := NoPtr, DraftBody;
    if s.Commit? {
      ptr, role := CommitStepMoves(w, s.op, s.outcome);
    } else {
      SingleTransactionMoves(w, s);
    }
  }

  lemma SingleTransactionMoves(w: World, s: Step)
    requires s.DeleteDraft? || s.AdminDelete?
    ensures Moves(w.db, Apply(w, s).db, NoPtr, DraftBody)
  {
    if Apply(w, s).db == w.db {
      NothingMoves(w.db);
    } else if s.DeleteDraft? {
      DeleteDraftMoves(w.db, s.post, s.actor);
    } else {
      AdminDeleteMoves(w.db, s.post);
    }
  }

  lemma TasksOnlyGrow(w: World, s: Step, b: BodyId)
    requires Sound(w) && Tasked(w.db.tasks, b)
    ensures Tasked(Apply(w, s).db.tasks, b)
  {
    var kind :| TaskKey(b, kind) in w.db.tasks;
    if IsTransaction(s) {
      var _, _ := TransactionMoves(w, s);
    } else {
      OtherStepsMoveNoPost(w, s);
    }
    assert TaskKey(b, kind) in Apply(w, s).db.tasks;
  }

  /** A task appears only for a body that a pointer named or a command held. */
  lemma NewTaskHadAReason(w: World, s: Step, key: TaskKey)
    requires Sound(w) && key !in w.db.tasks && key in Apply(w, s).db.tasks
    ensures Referenced(w.db, key.body) || Held(w.ops, key.body)
  {
    if IsTransaction(s) {
      var _, _ := TransactionMoves(w, s);
    } else {
      OnlyRegistrationAddsTasks(w, s, key);
      assert key.body in HeldBy(w.ops[s.op]);
    }
  }

  lemma OnlyRegistrationAddsTasks(w: World, s: Step, key: TaskKey)
    requires !IsTransaction(s) && key !in w.db.tasks && key in Apply(w, s).db.tasks
    ensures s.RegisterOrphan? && s.op in w.ops && w.ops[s.op] == Unregistered(key)
  {
  }

  /** A pointer comes to name only a body that a command held. */
  lemma NewReferenceWasHeld(w: World, s: Step, b: BodyId)
    requires Sound(w) && b != 0 && !Referenced(w.db, b) && Referenced(Apply(w, s).db, b)
    ensures Held(w.ops, b)
  {
    if IsTransaction(s) {
      var ptr, role := TransactionMoves(w, s);
      MovesAddNoOtherReference(w.db, Apply(w, s).db, ptr, role, b);
    } else {
      OtherStepsMoveNoPost(w, s);
      SameReferences(w.db, Apply(w, s).db);
    }
  }

  /** A command comes to hold only a body under a fresh id. */
  lemma NewHolderIsFresh(w: World, s: Step, b: BodyId)
    requires b in w.issued && Held(Apply(w, s).ops, b)
    ensures Held(w.ops, b)
  {
    var i :| i in Apply(w, s).ops && b in HeldBy(Apply(w, s).ops[i]);
    OpTakesFreshOnly(w, s, i);
    assert i in w.ops && b in HeldBy(w.ops[i]);
  }

  lemma OpTakesFreshOnly(w: World, s: Step, i: OpId)
    requires i in Apply(w, s).ops
    ensures HeldBy(Apply(w, s).ops[i]) == {} || (i in w.ops && HeldBy(Apply(w, s).ops[i]) == HeldBy(w.ops[i]))
            || (s.WriteBody? && HeldBy(Apply(w, s).ops[i]) == {s.body} && s.body !in w.issued)
  {
  }

  lemma OnlyTaskedBodiesGo(w: World, s: Step, b: BodyId)
    requires Sound(w) && b in w.bodies && b !in Apply(w, s).bodies
    ensures Tasked(w.db.tasks, b)
  {
    assert s.DeleteBody? && s.act in w.acts && w.acts[s.act].key.body == b;
    assert ActSound(w.db, w.bodies, w.acts[s.act]);
    assert TaskKey(b, w.acts[s.act].key.kind) in w.db.tasks;
  }

  lemma BodiesNeverChange(w: World, s: Step, b: BodyId)
    requires Sound(w) && b in w.bodies && b in Apply(w, s).bodies
    ensures Apply(w, s).bodies[b] == w.bodies[b]
  {
  }

  lemma StrandedStays(w: World, s: Step, b: BodyId)
    requires Sound(w) && Stranded(w, b)
    ensures Stranded(Apply(w, s), b)
  {
    var w' := Apply(w, s);
    assert b in w.issued && b != 0;
    if b !in w'.bodies {
      OnlyTaskedBodiesGo(w, s, b);
    }
    BodiesNeverChange(w, s, b);
    if Referenced(w'.db, b) {
      NewReferenceWasHeld(w, s, b);
    }
    if Held(w'.ops, b) {
      NewHolderIsFresh(w, s, b);
    }
    if Tasked(w'.db.tasks, b) {
      var kind :| TaskKey(b, kind) in w'.db.tasks;
      NewTaskHadAReason(w, s, TaskKey(b, kind));
    }
  }

  lemma {:induction false} StrandedFrom(w: World, later: seq<Step>, b: BodyId)
    requires Sound(w) && Stranded(w, b)
    ensures Stranded(RunFrom(w, later), b)
    decreases |later|
  {
    if later != [] {
      ApplyKeepsSound(w, later[0]);
      StrandedStays(w, later[0], b);
      StrandedFrom(Apply(w, later[0]), later[1..], b);
    }
  }

  /** A stranded snapshot stays stored, and out of everyone's reach, in every later
      state of every run. */
  lemma StrandedForGood(steps: seq<Step>, later: seq<Step>, b: BodyId)
    ensures Stranded(Run(Init, steps), b) ==> Stranded(Run(Init, steps + later), b)
  {
    if Stranded(Run(Init, steps), b) {
      RunIsSound(steps);
      RunFromContinues(steps, later);
      StrandedFrom(Run(Init, steps), later, b);
    }
  }

  // ------------------------------------------------------------ nothing else leaks

  /** The step replaces the published snapshot `b`, which no task names and no command
      still has to register. */
  ghost predicate Strands(w: World, s: Step, b: BodyId) {
    && s.Commit? && Publishes(w, s.op, s.outcome) && w.ops[s.op].cmd.post in w.db.posts
    && b != 0 && w.db.posts[w.ops[s.op].cmd.post].published.id == b
    && !Tasked(w.db.tasks, b) && !Held(w.ops, b)
  }

  ghost predicate Kept(w: World, b: BodyId) {
    IsPublic(w.db, b) || Held(w.ops, b) || Tasked(w.db.tasks, b) || b in w.lost
  }

  lemma CommitLetsGo(w: World, op: OpId, outcome: TxOutcome, b: BodyId)
    requires Sound(w) && op in w.ops && b in HeldBy(w.ops[op]) && b in w.bodies && w.bodies[b].role == Snapshot
    ensures Kept(CommitStep(w, op, outcome), b)
  {
    var o, w' := w.ops[op], CommitStep(w, op, outcome);
    assert OpSound(w.db, w.bodies, w.issued, o);
    if op in w'.ops {
      assert b in HeldBy(w'.ops[op]);
    } else {
      assert w'.db.posts[o.cmd.post].published.id == b;
    }
  }

  /** A command lets go of a snapshot only when it is public, registered or lost. */
  lemma HolderLetsGo(w: World, s: Step, i: OpId, b: BodyId)
    requires Sound(w) && i in w.ops && b in HeldBy(w.ops[i]) && b in w.bodies && w.bodies[b].role == Snapshot
    ensures Kept(Apply(w, s), b)
  {
    var w' := Apply(w, s);
    if i in w'.ops && w'.ops[i] == w.ops[i] {
      assert b in HeldBy(w'.ops[i]);
    } else if s.Commit? {
      CommitMovesItsOwn(w, s.op, s.outcome, i);
      CommitLetsGo(w, i, s.outcome, b);
    } else {
      EndsWithoutCommit(w, s, i);
      if s.RegisterOrphan? && s.ok {
        assert TaskKey(b, w.ops[i].orphan.kind) in w'.db.tasks;
      }
    }
  }

  lemma CommitMovesItsOwn(w: World, op: OpId, outcome: TxOutcome, i: OpId)
    requires i in w.ops && !(i in CommitStep(w, op, outcome).ops && CommitStep(w, op, outcome).ops[i] == w.ops[i])
    ensures op == i
  {
  }

  /** Without a commit a command that holds a body ends by its death or by registering
      it. */
  lemma EndsWithoutCommit(w: World, s: Step, i: OpId)
    requires !s.Commit? && i in w.ops && HeldBy(w.ops[i]) != {}
    requires !(i in Apply(w, s).ops && Apply(w, s).ops[i] == w.ops[i])
    ensures (s.Die? && s.op == i) || (s.RegisterOrphan? && s.op == i && w.ops[i].Unregistered?)
  {
  }

  /** A post lets go of its published pointer only in a publication of its own. */
  lemma PublishedLetGo(w: World, s: Step, p: PostId)
    requires Sound(w) && p in w.db.posts && p in Apply(w, s).db.posts
    requires Apply(w, s).db.posts[p].published != w.db.posts[p].published
    ensures s.Commit? && Publishes(w, s.op, s.outcome) && w.ops[s.op].cmd.post == p
  {
    if !s.Commit? {
      OnlyCommitsMovePublished(w, s, p);
    }
    CommitLetsGoOfPublished(w, s.op, s.outcome, p);
  }

  lemma CommitLetsGoOfPublished(w: World, op: OpId, outcome: TxOutcome, p: PostId)
    requires Sound(w) && p in w.db.posts && p in CommitStep(w, op, outcome).db.posts
    requires CommitStep(w, op, outcome).db.posts[p].published != w.db.posts[p].published
    ensures Publishes(w, op, outcome) && w.ops[op].cmd.post == p
  {
    var o := w.ops[op];
    assert OpSound(w.db, w.bodies, w.issued, o);
    assert CommitStep(w, op, outcome).db == CommitTx(w.db, o.cmd, o.cur, NewPtr(o)).db;
    TxMovesPublished(w.db, o.cmd, o.cur, NewPtr(o), p);
  }

  lemma TxMovesPublished(db: Tables, cmd: Command, cur: Post, ptr: Ptr, p: PostId)
    requires CommitTx(db, cmd, cur, ptr).Accepted?
    requires p in db.posts && p in CommitTx(db, cmd, cur, ptr).db.posts
    requires CommitTx(db, cmd, cur, ptr).db.posts[p].published != db.posts[p].published
    ensures cmd.Publish? && cmd.post == p
  {
  }

  lemma PostsStay(w: World, s: Step, p: PostId)
    requires Sound(w) && p in w.db.posts
    ensures p in Apply(w, s).db.posts
  {
    if IsTransaction(s) {
      var _, _ := TransactionMoves(w, s);
    } else {
      OtherStepsMoveNoPost(w, s);
    }
  }

  lemma LostOnlyGrows(w: World, s: Step)
    ensures w.lost <= Apply(w, s).lost
  {
  }

  lemma StepKeepsKept(w: World, s: Step, b: BodyId)
    requires Sound(w) && b in w.bodies && w.bodies[b].role == Snapshot && Kept(w, b) && !Strands(w, s, b)
    ensures Kept(Apply(w, s), b)
  {
    LostOnlyGrows(w, s);
    if Tasked(w.db.tasks, b) {
      TasksOnlyGrow(w, s, b);
    } else if Held(w.ops, b) {
      var i :| i in w.ops && b in HeldBy(w.ops[i]);
      HolderLetsGo(w, s, i, b);
    } else if IsPublic(w.db, b) {
      var p :| p in w.db.posts && w.db.posts[p].published.id == b;
      PostsStay(w, s, p);
      if Apply(w, s).db.posts[p].published != w.db.posts[p].published {
        PublishedLetGo(w, s, p);
      }
    }
  }

  lemma NewSnapshotIsKept(w: World, s: Step, b: BodyId)
    requires b !in w.bodies && b in Apply(w, s).bodies
    ensures Kept(Apply(w, s), b)
  {
    var w' := Apply(w, s);
    assert s.WriteBody? && s.body == b;
    if s.written == Stored {
      assert b in HeldBy(w'.ops[s.op]);
    }
  }

  ghost predicate StrandsAt(steps: seq<Step>, i: nat, b: BodyId)
    requires i < |steps|
  {
    Strands(Run(Init, steps[..i]), steps[i], b)
  }

  lemma {:induction false} KeptUnlessStranded(steps: seq<Step>, b: BodyId)
    requires b in Run(Init, steps).bodies && Run(Init, steps).bodies[b].role == Snapshot
    ensures Kept(Run(Init, steps), b) || exists i :: 0 <= i < |steps| && StrandsAt(steps, i, b)
    decreases |steps|
  {
    var n := |steps| - 1;
    var before := steps[..n];
    var w, s := Run(Init, before), steps[n];
    RunIsSound(before);
    if b !in w.bodies {
      NewSnapshotIsKept(w, s, b);
    } else if Strands(w, s, b) {
      assert StrandsAt(steps, n, b);
    } else {
      BodiesNeverChange(w, s, b);
      KeptUnlessStranded(before, b);
      if Kept(w, b) {
        StepKeepsKept(w, s, b);
      } else {
        var i :| 0 <= i < n && StrandsAt(before, i, b);
        assert before[..i] == steps[..i];
        assert StrandsAt(steps, i, b);
      }
    }
  }

  lemma StrandsMeansStranded(steps: seq<Step>, i: nat, b: BodyId)
    requires i < |steps| && StrandsAt(steps, i, b)
    ensures Stranded(Run(Init, steps), b)
  {
    var w := Run(Init, steps[..i]);
    var next := steps[..i + 1];
    RunIsSound(steps[..i]);
    RunIsExclusive(steps[..i]);
    ReplacedSnapshot(w, steps[i].op, steps[i].outcome, b);
    assert next[..i] == steps[..i];
    assert Stranded(Run(Init, next), b);
    assert next + steps[i + 1..] == steps;
    StrandedForGood(next, steps[i + 1..], b);
  }

  /** Over whole runs: apart from bodies lost to a failure, a snapshot is left behind if
      and only if some publication of the run replaced it while no cleanup task named
      it and no command still had to register it. */
  lemma LeftBehindIffReplacedUntasked(steps: seq<Step>, b: BodyId)
    requires b !in Run(Init, steps).lost
    ensures Stranded(Run(Init, steps), b) <==> exists i :: 0 <= i < |steps| && StrandsAt(steps, i, b)
  {
    var w := Run(Init, steps);
    if Stranded(w, b) {
      RunIsSound(steps);
      SnapshotsArePublished(w, b);
      KeptUnlessStranded(steps, b);
    }
    if i :| 0 <= i < |steps| && StrandsAt(steps, i, b) {
      StrandsMeansStranded(steps, i, b);
    }
  }

  /** A publication over a post that never was public leaves nothing behind. */
  lemma FirstPublicationStrandsNothing(steps: seq<Step>, op: OpId, outcome: TxOutcome, b: BodyId)
    ensures var w := Run(Init, steps);
            && Publishes(w, op, outcome)
            && w.ops[op].cmd.post in w.db.posts && w.db.posts[w.ops[op].cmd.post].published == NoPtr
            && Stranded(CommitStep(w, op, outcome), b)
            ==> Stranded(w, b)
  {
    RunIsSound(steps);
    var w, w' := Run(Init, steps), CommitStep(Run(Init, steps), op, outcome);
    if Publishes(w, op, outcome) && Stranded(w', b) && w.db.posts[w.ops[op].cmd.post].published == NoPtr {
      PublishedRowBefore(w, op, outcome);
      if Tasked(w.db.tasks, b) {
        TasksOnlyGrow(w, Commit(op, outcome), b);
      } else if Held(w.ops, b) {
        var i :| i in w.ops && b in HeldBy(w.ops[i]);
        StillHeldOrPublic(w, op, outcome, i, b);
      } else {
        SnapshotsArePublished(w, b);
        if p :| p in w.db.posts && w.db.posts[p].published.id == b {
          assert b in w.issued;
          assert Names(w'.db.posts[p], b);
        }
      }
    }
  }

  lemma StillHeldOrPublic(w: World, op: OpId, outcome: TxOutcome, i: OpId, b: BodyId)
    requires Sound(w) && Publishes(w, op, outcome) && i in w.ops && b in HeldBy(w.ops[i])
    ensures Held(CommitStep(w, op, outcome).ops, b) || Referenced(CommitStep(w, op, outcome).db, b)
  {
    var w' := CommitStep(w, op, outcome);
    PublishedRowBefore(w, op, outcome);
    if i in w'.ops {
      assert b in HeldBy(w'.ops[i]);
    } else {
      assert Names(w'.db.posts[w.ops[op].cmd.post], b);
    }
  }

  // ------------------------------------------------------------------ what was announced

  /** Some event announced the body as what became public. */
  predicate Announced(log: seq<Event>, b: BodyId) {
    exists i :: 0 <= i < |log| && log[i].PostPublished? && log[i].body.id == b
  }

  ghost predicate AllAnnounced(db: Tables) {
    forall p :: p in db.posts && db.posts[p].published.id != 0 ==> Announced(db.outbox, db.posts[p].published.id)
  }

  lemma AnnouncedStays(log: seq<Event>, longer: seq<Event>, b: BodyId)
    requires log <= longer && Announced(log, b)
    ensures Announced(longer, b)
  {
    var i :| 0 <= i < |log| && log[i].PostPublished? && log[i].body.id == b;
    assert longer[i] == log[i];
  }

  lemma CommandsOnlyAddEvents(db: Tables, cmd: Command, cur: Post, ptr: Ptr)
    requires CommitTx(db, cmd, cur, ptr).Accepted?
    ensures db.outbox <= CommitTx(db, cmd, cur, ptr).db.outbox
  {
  }

  lemma OtherStepsAddNoEvent(w: World, s: Step)
    requires !IsTransaction(s)
    ensures Apply(w, s).db.outbox == w.db.outbox
  {
  }

  lemma CommitOnlyAddsEvents(w: World, op: OpId, outcome: TxOutcome)
    ensures w.db.outbox <= CommitStep(w, op, outcome).db.outbox
  {
    if op in w.ops && ReadyToCommit(w.ops[op]) {
      var o := w.ops[op];
      if CommitTx(w.db, o.cmd, o.cur, NewPtr(o)).Accepted? {
        CommandsOnlyAddEvents(w.db, o.cmd, o.cur, NewPtr(o));
      }
    }
  }

  lemma EventsOnlyGrow(w: World, s: Step)
    ensures w.db.outbox <= Apply(w, s).db.outbox
  {
    if s.Commit? {
      CommitOnlyAddsEvents(w, s.op, s.outcome);
    } else if !IsTransaction(s) {
      OtherStepsAddNoEvent(w, s);
    }
  }

  lemma StepKeepsAnnounced(w: World, s: Step)
    requires Sound(w) && AllAnnounced(w.db)
    ensures AllAnnounced(Apply(w, s).db)
  {
    var db, db' := w.db, Apply(w, s).db;
    EventsOnlyGrow(w, s);
    forall p | p in db'.posts && db'.posts[p].published.id != 0
      ensures Announced(db'.outbox, db'.posts[p].published.id)
    {
      if MovesPublished(w, s, p) {
        OnlyPublishMovesPublished(w, s, p);
        PublicationAnnounces(w, s.op, s.outcome, p);
      } else {
        AnnouncedStays(db.outbox, db'.outbox, db.posts[p].published.id);
      }
    }
  }

  lemma PublicationAnnounces(w: World, op: OpId, outcome: TxOutcome, p: PostId)
    requires op in w.ops && w.ops[op].Written? && w.ops[op].cmd.Publish? && w.ops[op].cmd.post == p
    requires p in w.db.posts && p in CommitStep(w, op, outcome).db.posts
    requires CommitStep(w, op, outcome).db.posts[p].published != w.db.posts[p].published
    ensures Announced(CommitStep(w, op, outcome).db.outbox, CommitStep(w, op, outcome).db.posts[p].published.id)
  {
    var log := CommitStep(w, op, outcome).db.outbox;
    assert log[|w.db.outbox|] == PostPublished(p, w.db.posts[p].version + 1, NewPtr(w.ops[op]));
  }

  lemma {:induction false} RunAnnounces(steps: seq<Step>)
    ensures AllAnnounced(Run(Init, steps).db)
    decreases |steps|
  {
    if steps != [] {
      RunAnnounces(steps[..|steps| - 1]);
      RunIsSound(steps[..|steps| - 1]);
      StepKeepsAnnounced(Run(Init, steps[..|steps| - 1]), steps[|steps| - 1]);
    }
  }

  lemma {:induction false} EventsGrowOverRuns(steps: seq<Step>, n: nat)
    requires n <= |steps|
    ensures Run(Init, steps[..n]).db.outbox <= Run(Init, steps).db.outbox
    decreases |steps|
  {
    if n == |steps| {
      assert steps[..n] == steps;
    } else {
      var before := steps[..|steps| - 1];
      EventsGrowOverRuns(before, n);
      assert before[..n] == steps[..n];
      EventsOnlyGrow(Run(Init, before), steps[|steps| - 1]);
    }
  }

  /** In every reachable state a stored snapshot is held by a command, waiting for a
      worker, given up by the workers, lost to a failure, or was announced as what
      became public. */
  lemma SnapshotsAreAccountedFor(steps: seq<Step>, b: BodyId)
    requires b in Run(Init, steps).bodies && Run(Init, steps).bodies[b].role == Snapshot
    ensures var w := Run(Init, steps);
            || Held(w.ops, b) || WillBeTried(w.db.tasks, b) || GivenUp(w.db.tasks, b)
            || b in w.lost || Announced(w.db.outbox, b)
  {
    RunIsSound(steps);
    RunAnnounces(steps);
    KeptUnlessStranded(steps, b);
    var w := Run(Init, steps);
    if Tasked(w.db.tasks, b) {
      TaskedIsOpenOrDead(w, b);
    } else if IsPublic(w.db, b) {
      assert b in w.issued;
    } else if i :| 0 <= i < |steps| && StrandsAt(steps, i, b) {
      RunAnnounces(steps[..i]);
      EventsGrowOverRuns(steps, i);
      AnnouncedStays(Run(Init, steps[..i]).db.outbox, w.db.outbox, b);
    }
  }
}
