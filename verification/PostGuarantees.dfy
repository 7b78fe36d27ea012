/** What the interleavings of `PostProtocol` can never do, stated over all runs. */
module PostGuarantees {
  import opened Posts
  import opened PostProtocol
  import opened PostSafety

  // ---------------------------------------------------------------- about runs

  function RunFrom(w: World, steps: seq<Step>): World
    decreases |steps|
  {
    if steps == [] then w else RunFrom(Apply(w, steps[0]), steps[1..])
  }

  lemma {:induction false} RunFromContinues(steps: seq<Step>, later: seq<Step>)
    ensures RunFrom(Run(Init, steps), later) == Run(Init, steps + later)
    decreases |later|
  {
    if later == [] {
      assert steps + later == steps;
    } else {
      var next := steps + [later[0]];
      assert next[..|steps|] == steps;
      assert next + later[1..] == steps + later;
      RunFromContinues(next, later[1..]);
    }
  }

  // ------------------------------------------------------------- pointers are sound

  /** In every reachable state each pointer that is not NULL names a stored body of
      the right role, whose hash is the pointer's hash. */
  lemma NoDanglingPointer(steps: seq<Step>, p: PostId)
    ensures var w := Run(Init, steps);
            p in w.db.posts ==>
              && (w.db.posts[p].draft == NoPtr
                  || (w.db.posts[p].draft.id in w.bodies
                      && w.bodies[w.db.posts[p].draft.id] == Body(w.db.posts[p].draft.hash, DraftBody)))
              && (w.db.posts[p].published == NoPtr
                  || (w.db.posts[p].published.id in w.bodies
                      && w.bodies[w.db.posts[p].published.id] == Body(w.db.posts[p].published.hash, Snapshot)))
  {
    RunIsSound(steps);
    var w := Run(Init, steps);
    if p in w.db.posts {
      assert RowSound(w.bodies, w.db.posts[p]);
    }
  }

  /** The step gives the post a published pointer that it did not have. */
  predicate MovesPublished(w: World, s: Step, p: PostId) {
    var w' := Apply(w, s);
    && p in w'.db.posts && w'.db.posts[p].published != NoPtr
    && (p in w.db.posts ==> w'.db.posts[p].published != w.db.posts[p].published)
  }

  /** The published pointer of a post moves only when a publish command commits; the
      command named the draft the post has at that moment, and what becomes public is
      a stored snapshot with the hash of exactly that draft. */
  lemma PublishedIsTheNamedDraft(steps: seq<Step>, s: Step, p: PostId)
    ensures var w := Run(Init, steps);
            var w' := Apply(w, s);
            MovesPublished(w, s, p) ==>
              && s.Commit? && s.outcome != Aborted && s.op in w.ops && w.ops[s.op].Written?
              && w.ops[s.op].cmd.Publish? && w.ops[s.op].cmd.post == p && p in w.db.posts
              && w.ops[s.op].cmd.draft == w.db.posts[p].draft
              && w'.db.posts[p].published == Ptr(w.ops[s.op].body, w.db.posts[p].draft.hash)
              && w'.db.posts[p].published.id in w'.bodies
              && w'.bodies[w'.db.posts[p].published.id] == Body(w.db.posts[p].draft.hash, Snapshot)
  {
    RunIsSound(steps);
    var w := Run(Init, steps);
    if MovesPublished(w, s, p) {
      ApplyKeepsSound(w, s);
      OnlyPublishMovesPublished(w, s, p);
      assert RowSound(Apply(w, s).bodies, Apply(w, s).db.posts[p]);
    }
  }

  lemma OnlyCommitsMovePublished(w: World, s: Step, p: PostId)
    requires !s.Commit? && p in Apply(w, s).db.posts
    ensures p in w.db.posts && Apply(w, s).db.posts[p].published == w.db.posts[p].published
  {
    if !s.DeleteDraft? && !s.AdminDelete? {
      OtherStepsMoveNoPost(w, s);
    }
  }

  lemma OtherStepsMoveNoPost(w: World, s: Step)
    requires !s.Commit? && !s.DeleteDraft? && !s.AdminDelete?
    ensures Apply(w, s).db.posts == w.db.posts
    ensures forall key :: key in w.db.tasks ==> key in Apply(w, s).db.tasks
  {
  }

  lemma OnlyPublishTxMovesPublished(db: Tables, cmd: Command, cur: Post, ptr: Ptr, p: PostId)
    requires CommitTx(db, cmd, cur, ptr).Accepted? && p in CommitTx(db, cmd, cur, ptr).db.posts
    requires p in db.posts ==> CommitTx(db, cmd, cur, ptr).db.posts[p].published != db.posts[p].published
    requires CommitTx(db, cmd, cur, ptr).db.posts[p].published != NoPtr
    ensures cmd.Publish? && cmd.post == p && p in db.posts && cmd.draft == db.posts[p].draft
    ensures CommitTx(db, cmd, cur, ptr).db.posts[p].published == ptr
  {
  }

  lemma OnlyPublishMovesPublished(w: World, s: Step, p: PostId)
    requires Sound(w) && p in Apply(w, s).db.posts
    requires p in w.db.posts ==> Apply(w, s).db.posts[p].published != w.db.posts[p].published
    requires Apply(w, s).db.posts[p].published != NoPtr
    ensures s.Commit? && s.outcome != Aborted && s.op in w.ops && w.ops[s.op].Written?
    ensures w.ops[s.op].cmd.Publish? && w.ops[s.op].cmd.post == p && p in w.db.posts
    ensures w.ops[s.op].cmd.draft == w.db.posts[p].draft
    ensures Apply(w, s).db.posts[p].published == Ptr(w.ops[s.op].body, w.db.posts[p].draft.hash)
  {
    if !s.Commit? {
      OnlyCommitsMovePublished(w, s, p);
    }
    CommitPublishes(w, s.op, s.outcome, p);
  }

  lemma CommitPublishes(w: World, op: OpId, outcome: TxOutcome, p: PostId)
    requires OpsSound(w) && p in CommitStep(w, op, outcome).db.posts
    requires p in w.db.posts ==> CommitStep(w, op, outcome).db.posts[p].published != w.db.posts[p].published
    requires CommitStep(w, op, outcome).db.posts[p].published != NoPtr
    ensures outcome != Aborted && op in w.ops && w.ops[op].Written?
    ensures w.ops[op].cmd.Publish? && w.ops[op].cmd.post == p && p in w.db.posts
    ensures w.ops[op].cmd.draft == w.db.posts[p].draft
    ensures CommitStep(w, op, outcome).db.posts[p].published == Ptr(w.ops[op].body, w.db.posts[p].draft.hash)
  {
    assert op in w.ops && ReadyToCommit(w.ops[op]) && outcome != Aborted;
    var o := w.ops[op];
    assert CommitStep(w, op, outcome).db == CommitTx(w.db, o.cmd, o.cur, NewPtr(o)).db;
    OnlyPublishTxMovesPublished(w.db, o.cmd, o.cur, NewPtr(o), p);
    assert OpSound(w.db, w.bodies, w.issued, o);
  }

  // -------------------------------------------------- cleanup spares live content

  /** A body id in use once is never used again. */
  ghost predicate Gone(w: World, b: BodyId) {
    b in w.issued && b !in w.bodies
  }

  lemma {:induction false} GoneStaysGone(w: World, steps: seq<Step>, b: BodyId)
    requires Gone(w, b)
    ensures Gone(RunFrom(w, steps), b)
    decreases |steps|
  {
    if steps != [] {
      GoneStaysGone(Apply(w, steps[0]), steps[1..], b);
    }
  }

  /** Whenever a step takes a body out of the store, it is a cleanup worker's
      deletion, and the body is referenced by no draft and no published pointer:
      not before the deletion, not after it, and in no later state of any run. */
  lemma CleanupSparesLiveContent(steps: seq<Step>, s: Step, later: seq<Step>, b: BodyId)
    requires b in Run(Init, steps).bodies && b !in Run(Init, steps + [s]).bodies
    ensures s.DeleteBody? && s.act in Run(Init, steps).acts
    ensures Run(Init, steps).acts[s.act].Unreferenced? && Run(Init, steps).acts[s.act].key.body == b
    ensures !Referenced(Run(Init, steps).db, b)
    ensures !Referenced(Run(Init, steps + [s] + later).db, b)
    ensures b !in Run(Init, steps + [s] + later).bodies
  {
    var w := Run(Init, steps);
    RunIsSound(steps);
    assert (steps + [s])[..|steps|] == steps;
    assert b in w.issued;
    assert s.DeleteBody?;
    assert ActSound(w.db, w.bodies, w.acts[s.act]);
    var end := Run(Init, steps + [s] + later);
    RunFromContinues(steps + [s], later);
    GoneStaysGone(Run(Init, steps + [s]), later, b);
    RunIsSound(steps + [s] + later);
    if Referenced(end.db, b) {
      ReferencedIsStored(end, b);
    }
  }

  lemma NoReferenceReturns(w: World, s: Step, key: TaskKey)
    requires Sound(w) && key in w.db.tasks && !Referenced(w.db, key.body)
    ensures key in Apply(w, s).db.tasks && !Referenced(Apply(w, s).db, key.body)
  {
    assert TaskSound(w.db, w.bodies, w.issued, key);
    if s.Commit? {
      CommitReturnsNone(w, s.op, s.outcome, key);
    } else if s.DeleteDraft? {
      if DeleteDraftTx(w.db, s.post, s.actor).Accepted? {
        DeleteDraftMoves(w.db, s.post, s.actor);
        TransactionReturnsNone(w.db, Apply(w, s).db, NoPtr, DraftBody, key);
      }
    } else if s.AdminDelete? {
      if AdminDeleteTx(w.db, s.post).Accepted? {
        AdminDeleteMoves(w.db, s.post);
        TransactionReturnsNone(w.db, Apply(w, s).db, NoPtr, DraftBody, key);
      }
    } else {
      OtherStepsMoveNoPost(w, s);
      SameReferences(w.db, Apply(w, s).db);
    }
  }

  lemma CommitReturnsNone(w: World, op: OpId, outcome: TxOutcome, key: TaskKey)
    requires Sound(w) && key in w.db.tasks && key.body != 0 && !Referenced(w.db, key.body)
    ensures key in CommitStep(w, op, outcome).db.tasks && !Referenced(CommitStep(w, op, outcome).db, key.body)
  {
    var db' := CommitStep(w, op, outcome).db;
    if db' != w.db {
      CommitMoves(w, op);
      var o := w.ops[op];
      var ptr := if o.cmd.Create? || o.cmd.Save? || o.cmd.Publish? then NewPtr(o) else NoPtr;
      assert ptr == NoPtr || Untouched(w.db, ptr.id);
      TransactionReturnsNone(w.db, db', ptr, RoleFor(o.cmd), key);
    }
  }

  lemma TransactionReturnsNone(db: Tables, db': Tables, ptr: Ptr, role: Role, key: TaskKey)
    requires Moves(db, db', ptr, role) && (ptr == NoPtr || Untouched(db, ptr.id))
    requires key in db.tasks && key.body != 0 && !Referenced(db, key.body)
    ensures key in db'.tasks && !Referenced(db', key.body)
  {
    if Referenced(db', key.body) {
      MovesAddNoOtherReference(db, db', ptr, role, key.body);
    }
  }

  lemma {:induction false} RetiredFrom(w: World, later: seq<Step>, key: TaskKey)
    requires Sound(w) && key in w.db.tasks && !Referenced(w.db, key.body)
    ensures !Referenced(RunFrom(w, later).db, key.body)
    decreases |later|
  {
    if later != [] {
      ApplyKeepsSound(w, later[0]);
      NoReferenceReturns(w, later[0], key);
      RetiredFrom(Apply(w, later[0]), later[1..], key);
    }
  }

  /** Why the check and the deletion may be apart: once a body with a cleanup task is
      seen unreferenced it is unreferenced for good, whatever commands are in flight
      and however their transactions end. */
  lemma RetiredForGood(steps: seq<Step>, later: seq<Step>, key: TaskKey)
    requires key in Run(Init, steps).db.tasks && !Referenced(Run(Init, steps).db, key.body)
    ensures !Referenced(Run(Init, steps + later).db, key.body)
  {
    RunIsSound(steps);
    RunFromContinues(steps, later);
    RetiredFrom(Run(Init, steps), later, key);
  }

  // ------------------------------------------------------------ no draft body leaks

  predicate IsDraftOf(db: Tables, b: BodyId) {
    exists p :: p in db.posts && db.posts[p].draft.id == b
  }

  predicate Held(ops: map<OpId, Op>, b: BodyId) {
    exists i :: i in ops && b in HeldBy(ops[i])
  }

  predicate Tasked(tasks: map<TaskKey, Task>, b: BodyId) {
    exists kind: TaskKind :: TaskKey(b, kind) in tasks
  }

  ghost predicate Covered(w: World, b: BodyId) {
    IsDraftOf(w.db, b) || Held(w.ops, b) || Tasked(w.db.tasks, b) || b in w.lost
  }

  ghost predicate AllCovered(w: World) {
    forall b :: b in w.bodies && w.bodies[b].role == DraftBody ==> Covered(w, b)
  }

  /** A transaction lets go of a draft only by handing it to cleanup. */
  lemma MovesKeepCovered(db: Tables, db': Tables, ptr: Ptr, role: Role, b: BodyId)
    requires Moves(db, db', ptr, role) && b != 0 && (IsDraftOf(db, b) || Tasked(db.tasks, b))
    ensures IsDraftOf(db', b) || Tasked(db'.tasks, b)
  {
    if Tasked(db.tasks, b) {
      var kind :| TaskKey(b, kind) in db.tasks;
      assert TaskKey(b, kind) in db'.tasks;
    } else {
      var p :| p in db.posts && db.posts[p].draft.id == b;
      if db'.posts[p].draft == db.posts[p].draft {
        assert db'.posts[p].draft.id == b;
      }
    }
  }

  /** A step that ends or moves one command and changes no table row. */
  lemma OpStepKeepsCovered(w: World, w': World, op: OpId, b: BodyId)
    requires Covered(w, b) && w'.db == w.db && w.lost <= w'.lost
    requires forall i :: i in w.ops && i != op ==> i in w'.ops && w'.ops[i] == w.ops[i]
    requires op in w.ops && b in HeldBy(w.ops[op]) ==> b in w'.lost || (op in w'.ops && b in HeldBy(w'.ops[op]))
    ensures Covered(w', b)
  {
    if Held(w.ops, b) {
      var i :| i in w.ops && b in HeldBy(w.ops[i]);
      if i == op {
        assert b in w'.lost || b in HeldBy(w'.ops[op]);
      } else {
        assert b in HeldBy(w'.ops[i]);
      }
    }
  }

  /** A committed save or creation makes the body it held the draft of its post. */
  lemma CommitMakesItTheDraft(w: World, op: OpId)
    requires op in w.ops && w.ops[op].Written? && (w.ops[op].cmd.Create? || w.ops[op].cmd.Save?)
    requires CommitTx(w.db, w.ops[op].cmd, w.ops[op].cur, NewPtr(w.ops[op])).Accepted?
    ensures IsDraftOf(CommitTx(w.db, w.ops[op].cmd, w.ops[op].cur, NewPtr(w.ops[op])).db, w.ops[op].body)
  {
    var o := w.ops[op];
    var db' := CommitTx(w.db, o.cmd, o.cur, NewPtr(o)).db;
    if o.cmd.Save? {
      assert db'.posts[o.cmd.post].draft.id == o.body;
    } else {
      var id :| id in db'.posts && id !in w.db.posts;
      assert db'.posts[id].draft.id == o.body;
    }
  }

  lemma CommittedKeepsCovered(w: World, op: OpId, outcome: TxOutcome, b: BodyId)
    requires Sound(w) && op in w.ops && ReadyToCommit(w.ops[op]) && outcome != Aborted
    requires CommitTx(w.db, w.ops[op].cmd, w.ops[op].cur, NewPtr(w.ops[op])).Accepted?
    requires b in w.bodies && w.bodies[b].role == DraftBody && Covered(w, b)
    ensures Covered(CommitStep(w, op, outcome), b)
  {
    var o, w' := w.ops[op], CommitStep(w, op, outcome);
    assert OpSound(w.db, w.bodies, w.issued, o);
    if IsDraftOf(w.db, b) || Tasked(w.db.tasks, b) {
      CommitMoves(w, op);
      var ptr := if o.cmd.Create? || o.cmd.Save? || o.cmd.Publish? then NewPtr(o) else NoPtr;
      MovesKeepCovered(w.db, w'.db, ptr, RoleFor(o.cmd), b);
    } else if Held(w.ops, b) {
      var i :| i in w.ops && b in HeldBy(w.ops[i]);
      if i == op {
        CommitMakesItTheDraft(w, op);
      } else {
        assert b in HeldBy(w'.ops[i]);
      }
    }
  }

  lemma CommitKeepsCovered(w: World, op: OpId, outcome: TxOutcome, b: BodyId)
    requires Sound(w) && op in w.ops && ReadyToCommit(w.ops[op])
    requires b in w.bodies && w.bodies[b].role == DraftBody && Covered(w, b)
    ensures Covered(CommitStep(w, op, outcome), b)
  {
    var o := w.ops[op];
    if CommitTx(w.db, o.cmd, o.cur, NewPtr(o)).Accepted? && outcome != Aborted {
      CommittedKeepsCovered(w, op, outcome, b);
    } else {
      OpStepKeepsCovered(w, CommitStep(w, op, outcome), op, b);
    }
  }

  lemma RegisterKeepsCovered(w: World, op: OpId, ok: bool, b: BodyId)
    requires Covered(w, b)
    ensures Covered(RegisterStep(w, op, ok), b)
  {
    var w' := RegisterStep(w, op, ok);
    if op in w.ops && w.ops[op].Unregistered? {
      var key := w.ops[op].orphan;
      if Tasked(w.db.tasks, b) {
        var kind :| TaskKey(b, kind) in w.db.tasks;
        assert TaskKey(b, kind) in w'.db.tasks;
      } else if Held(w.ops, b) {
        var i :| i in w.ops && b in HeldBy(w.ops[i]);
        if i == op {
          assert b == key.body && (ok ==> TaskKey(b, key.kind) in w'.db.tasks);
        } else {
          assert b in HeldBy(w'.ops[i]);
        }
      }
    }
  }

  lemma WriteKeepsCovered(w: World, op: OpId, body: BodyId, written: WriteOutcome, b: BodyId)
    requires Sound(w) && b in WriteStep(w, op, body, written).bodies && (b in w.bodies ==> Covered(w, b))
    ensures Covered(WriteStep(w, op, body, written), b)
  {
    var w' := WriteStep(w, op, body, written);
    if b in w.bodies {
      OpStepKeepsCovered(w, w', op, b);
    } else if written == Stored {
      assert b in HeldBy(w'.ops[op]);
    }
  }

  lemma WorkerKeepsCovered(w: World, s: Step, b: BodyId)
    requires Covered(w, b)
    requires s.Claim? || s.CheckReference? || s.DeleteBody? || s.Acknowledge? || s.WorkerDies?
    ensures Covered(Apply(w, s), b)
  {
    if Tasked(w.db.tasks, b) {
      var kind :| TaskKey(b, kind) in w.db.tasks;
      assert TaskKey(b, kind) in Apply(w, s).db.tasks;
    }
  }

  lemma TransactionKeepsCovered(w: World, s: Step, b: BodyId)
    requires Covered(w, b) && b != 0 && (s.DeleteDraft? || s.AdminDelete?)
    ensures Covered(Apply(w, s), b)
  {
    var w' := Apply(w, s);
    if w' != w {
      if s.DeleteDraft? {
        DeleteDraftMoves(w.db, s.post, s.actor);
      } else {
        AdminDeleteMoves(w.db, s.post);
      }
      if IsDraftOf(w.db, b) || Tasked(w.db.tasks, b) {
        MovesKeepCovered(w.db, w'.db, NoPtr, DraftBody, b);
      }
    }
  }

  lemma CommandKeepsCovered(w: World, s: Step, b: BodyId)
    requires Covered(w, b) && (s.Begin? || s.ParseBody? || s.ReadBody? || s.Die?)
    ensures Covered(Apply(w, s), b)
  {
    match s
    case Begin(op, cmd) => OpStepKeepsCovered(w, BeginStep(w, op, cmd), op, b);
    case ParseBody(op, hash) => OpStepKeepsCovered(w, ParseStep(w, op, hash), op, b);
    case ReadBody(op) => OpStepKeepsCovered(w, ReadStep(w, op), op, b);
    case Die(op) => OpStepKeepsCovered(w, DieStep(w, op), op, b);
  }

  lemma ApplyKeepsCovered(w: World, s: Step, b: BodyId)
    requires Sound(w) && b in Apply(w, s).bodies && Apply(w, s).bodies[b].role == DraftBody
    requires b in w.bodies ==> w.bodies[b].role == DraftBody && Covered(w, b)
    ensures Covered(Apply(w, s), b)
  {
    match s
    case Begin(_, _) => CommandKeepsCovered(w, s, b);
    case ParseBody(_, _) => CommandKeepsCovered(w, s, b);
    case ReadBody(_) => CommandKeepsCovered(w, s, b);
    case WriteBody(op, body, written) => WriteKeepsCovered(w, op, body, written, b);
    case Commit(op, outcome) =>
      if op in w.ops && ReadyToCommit(w.ops[op]) {
        CommitKeepsCovered(w, op, outcome, b);
      }
    case RegisterOrphan(op, ok) => RegisterKeepsCovered(w, op, ok, b);
    case Die(_) => CommandKeepsCovered(w, s, b);
    case DeleteDraft(_, _) => TransactionKeepsCovered(w, s, b);
    case AdminDelete(_) => TransactionKeepsCovered(w, s, b);
    case Claim(_, _, _) => WorkerKeepsCovered(w, s, b);
    case CheckReference(_, _) => WorkerKeepsCovered(w, s, b);
    case DeleteBody(_, _, _) => WorkerKeepsCovered(w, s, b);
    case Acknowledge(_, _) => WorkerKeepsCovered(w, s, b);
    case WorkerDies(_) => WorkerKeepsCovered(w, s, b);
  }

  lemma {:induction false} RunIsCovered(steps: seq<Step>)
    ensures AllCovered(Run(Init, steps))
    decreases |steps|
  {
    if steps != [] {
      var before := steps[..|steps| - 1];
      RunIsCovered(before);
      RunIsSound(before);
      var w, s := Run(Init, before), steps[|steps| - 1];
      forall b | b in Apply(w, s).bodies && Apply(w, s).bodies[b].role == DraftBody ensures Covered(Apply(w, s), b) {
        ApplyKeepsCovered(w, s, b);
      }
    }
  }

  /** Some task of the body is open: a worker has it or will claim it. */
  predicate WillBeTried(tasks: map<TaskKey, Task>, b: BodyId) {
    exists kind: TaskKind ::
      TaskKey(b, kind) in tasks && tasks[TaskKey(b, kind)].status in {Pending, Processing, Failed}
  }

  /** Some task of the body failed too often: no worker claims it again, and it stands
      for an operator to see. */
  predicate GivenUp(tasks: map<TaskKey, Task>, b: BodyId) {
    exists kind: TaskKind :: TaskKey(b, kind) in tasks && tasks[TaskKey(b, kind)].status == Dead
  }

  lemma TaskedIsOpenOrDead(w: World, b: BodyId)
    requires Sound(w) && b in w.bodies && Tasked(w.db.tasks, b)
    ensures WillBeTried(w.db.tasks, b) || GivenUp(w.db.tasks, b)
  {
    var kind :| TaskKey(b, kind) in w.db.tasks;
    assert TaskSound(w.db, w.bodies, w.issued, TaskKey(b, kind));
    assert w.db.tasks[TaskKey(b, kind)].status != Done;
  }

  /** No draft body leaks: in every reachable state a stored draft body is the draft of
      a post, in the hands of a command in flight, waiting for a worker, given up by the
      workers after failing too often, or lost by a command that died or failed to
      register it. */
  lemma NoDraftBodyLeaks(steps: seq<Step>, b: BodyId)
    requires b in Run(Init, steps).bodies && Run(Init, steps).bodies[b].role == DraftBody
    ensures var w := Run(Init, steps);
            || (exists p :: p in w.db.posts && w.db.posts[p].draft.id == b)
            || (exists i :: i in w.ops && b in HeldBy(w.ops[i]))
            || WillBeTried(w.db.tasks, b)
            || GivenUp(w.db.tasks, b)
            || b in w.lost
  {
    RunIsCovered(steps);
    RunIsSound(steps);
    var w := Run(Init, steps);
    if Tasked(w.db.tasks, b) {
      TaskedIsOpenOrDead(w, b);
    }
  }

  /** The command dies holding the body, its write is stored behind an error, or its
      registration of the orphan fails. */
  predicate LosesAt(w: World, s: Step, b: BodyId) {
    || (s.Die? && s.op in w.ops && b in HeldBy(w.ops[s.op]))
    || (s.WriteBody? && s.written == ErrorAfterStore && s.body == b)
    || (s.RegisterOrphan? && !s.ok && s.op in w.ops && b in HeldBy(w.ops[s.op]))
  }

  lemma StepLosesOnlySo(w: World, s: Step, b: BodyId)
    requires b in Apply(w, s).lost
    ensures b in w.lost || LosesAt(w, s, b)
  {
  }

  /** Bodies are lost to such failures only, so a run without one leaks nothing. */
  lemma {:induction false} LostMeansAFailure(steps: seq<Step>, b: BodyId)
    requires b in Run(Init, steps).lost
    ensures exists i :: 0 <= i < |steps| && LosesAt(Run(Init, steps[..i]), steps[i], b)
    decreases |steps|
  {
    var before := steps[..|steps| - 1];
    if b in Run(Init, before).lost {
      LostMeansAFailure(before, b);
      var i :| 0 <= i < |before| && LosesAt(Run(Init, before[..i]), before[i], b);
      assert before[..i] == steps[..i] && before[i] == steps[i];
    } else {
      StepLosesOnlySo(Run(Init, before), steps[|steps| - 1], b);
    }
  }
}
