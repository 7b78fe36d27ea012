/** Cleanup never removes live content, no pointer dangles and no draft body leaks,
    in every interleaving of commands and cleanup workers. */
module PostSafety {
  import opened Posts
  import opened PostProtocol

  // ------------------------------------------------------------ what always holds

  ghost predicate IdsKnown(w: World) {
    && 0 !in w.issued
    && (forall b :: b in w.bodies ==> b in w.issued && w.bodies[b].hash != 0)
  }

  predicate PtrSound(bodies: map<BodyId, Body>, ptr: Ptr, role: Role) {
    ptr == NoPtr || (ptr.id in bodies && bodies[ptr.id] == Body(ptr.hash, role))
  }

  predicate RowSound(bodies: map<BodyId, Body>, row: Post) {
    PtrSound(bodies, row.draft, DraftBody) && PtrSound(bodies, row.published, Snapshot)
  }

  ghost predicate PointersSound(db: Tables, bodies: map<BodyId, Body>) {
    forall p :: p in db.posts ==> RowSound(bodies, db.posts[p])
  }

  /** No pointer, and no cleanup task, has ever named the body. */
  ghost predicate Untouched(db: Tables, b: BodyId) {
    && !Referenced(db, b)
    && (forall key :: key in db.tasks ==> key.body != b)
  }

  /** A command was let in by its checks; one that holds a body is alone with it. */
  ghost predicate OpSound(db: Tables, bodies: map<BodyId, Body>, issued: set<BodyId>, o: Op) {
    match o
    case Loaded(cmd, cur) => CmdSound(cmd, cur)
    case Validated(cmd, cur, hash) =>
      CmdSound(cmd, cur) && hash != 0 && (cmd.Publish? ==> hash == cmd.draft.hash && cur.status == Draft)
    case Written(cmd, cur, b, hash) =>
      && CmdSound(cmd, cur) && Writes(cmd)
      && (cmd.Publish? ==> hash == cmd.draft.hash)
      && b in issued && b in bodies && bodies[b] == Body(hash, RoleFor(cmd))
      && Untouched(db, b)
    case Unregistered(key) => key.body in issued
  }

  predicate CmdSound(cmd: Command, cur: Post) {
    cmd.Create? || Check(cmd, cur) == Passes
  }

  ghost predicate TaskSound(db: Tables, bodies: map<BodyId, Body>, issued: set<BodyId>, key: TaskKey)
    requires key in db.tasks
  {
    key.body in issued && (db.tasks[key].status == Done ==> key.body !in bodies)
  }

  ghost predicate ActSound(db: Tables, bodies: map<BodyId, Body>, a: Activity) {
    && a.key in db.tasks
    && (a.Unreferenced? ==> !Referenced(db, a.key.body))
    && (a.Handled? ==> a.key.body !in bodies)
  }

  ghost predicate OpsSound(w: World) {
    && (forall i :: i in w.ops ==> OpSound(w.db, w.bodies, w.issued, w.ops[i]))
    && (forall i, j :: i in w.ops && j in w.ops && i != j ==> HeldBy(w.ops[i]) !! HeldBy(w.ops[j]))
  }

  ghost predicate TasksSound(w: World) {
    && (forall key :: key in w.db.tasks ==> TaskSound(w.db, w.bodies, w.issued, key))
    && (forall a :: a in w.acts ==> ActSound(w.db, w.bodies, w.acts[a]))
  }

  ghost predicate Sound(w: World) {
    IdsKnown(w) && PointersSound(w.db, w.bodies) && OpsSound(w) && TasksSound(w)
  }

  // ------------------------------------------------- what a transaction may change

  /** The one row a transaction writes: its pointers are kept, cleared or set to the
      pointer the command brought, and a draft let go is handed to cleanup. */
  predicate RowMoves(before: Post, after: Post, ptr: Ptr, role: Role) {
    && (after.draft == before.draft || after.draft == NoPtr || (role == DraftBody && after.draft == ptr))
    && (after.published == before.published || (role == Snapshot && after.published == ptr))
  }

  ghost predicate Moves(db: Tables, db': Tables, ptr: Ptr, role: Role) {
    && (forall p :: p in db'.posts ==>
          RowMoves(if p in db.posts then db.posts[p] else NewPost(0), db'.posts[p], ptr, role))
    && (forall key :: key in db'.tasks ==>
          if key in db.tasks then db'.tasks[key] == db.tasks[key]
          else key.body != 0 && Referenced(db, key.body) && db'.tasks[key] == Task(Pending, 0, 0))
    && (forall key :: key in db.tasks ==> key in db'.tasks)
    && (forall p :: p in db.posts ==>
          p in db'.posts && (
            || db'.posts[p].draft == db.posts[p].draft
            || db.posts[p].draft.id == 0
            || TaskKey(db.posts[p].draft.id, OldDraft) in db'.tasks))
  }

  lemma CreateMoves(db: Tables, owner: UserId, ids: seq<PostId>, ptr: Ptr)
    requires CreateTx(db, owner, ids, ptr).Accepted?
    ensures Moves(db, CreateTx(db, owner, ids, ptr).db, ptr, DraftBody)
  {
  }

  lemma SaveMoves(db: Tables, cmd: Command, cur: Post, ptr: Ptr)
    requires cmd.Save? && Check(cmd, cur) == Passes && SaveTx(db, cmd, cur, ptr).Accepted?
    requires ptr.id == db.posts[cmd.post].draft.id ==> ptr == db.posts[cmd.post].draft
    ensures Moves(db, SaveTx(db, cmd, cur, ptr).db, ptr, DraftBody)
  {
    assert Names(db.posts[cmd.post], cur.draft.id);
  }

  lemma PublishMoves(db: Tables, cmd: Command, cur: Post, ptr: Ptr)
    requires cmd.Publish? && Check(cmd, cur) == Passes && PublishTx(db, cmd, cur, ptr).Accepted?
    ensures Moves(db, PublishTx(db, cmd, cur, ptr).db, ptr, Snapshot)
  {
    assert Names(db.posts[cmd.post], cur.draft.id);
  }

  /** The other transactions leave every pointer alone. */
  lemma OthersMove(db: Tables, cmd: Command, cur: Post, ptr: Ptr)
    requires cmd.Schedule? || cmd.UpdateMeta? || cmd.Lifecycle?
    requires CommitTx(db, cmd, cur, ptr).Accepted?
    ensures Moves(db, CommitTx(db, cmd, cur, ptr).db, NoPtr, DraftBody)
  {
  }

  lemma DeleteDraftMoves(db: Tables, post: PostId, actor: UserId)
    requires DeleteDraftTx(db, post, actor).Accepted?
    ensures Moves(db, DeleteDraftTx(db, post, actor).db, NoPtr, DraftBody)
  {
    assert Names(db.posts[post], db.posts[post].draft.id);
  }

  lemma AdminDeleteMoves(db: Tables, post: PostId)
    requires AdminDeleteTx(db, post).Accepted?
    ensures Moves(db, AdminDeleteTx(db, post).db, NoPtr, DraftBody)
  {
  }

  /** A transaction adds no reference but to the body its command brought. */
  lemma MovesAddNoOtherReference(db: Tables, db': Tables, ptr: Ptr, role: Role, b: BodyId)
    requires Moves(db, db', ptr, role) && Referenced(db', b) && b != 0
    ensures Referenced(db, b) || b == ptr.id
  {
    var p :| p in db'.posts && Names(db'.posts[p], b);
    if b != ptr.id {
      assert p in db.posts && Names(db.posts[p], b);
    }
  }

  // ------------------------------------------------- transactions keep what is sound

  /** `ptr` is what the transaction brings: nothing, or a stored body that nothing
      has touched yet. */
  ghost predicate Brought(w: World, ptr: Ptr) {
    || ptr == NoPtr
    || (ptr.id in w.bodies && ptr.id in w.issued && Untouched(w.db, ptr.id))
  }

  lemma MovesKeepTasks(w: World, db': Tables, ptr: Ptr, role: Role)
    requires Sound(w) && Moves(w.db, db', ptr, role) && Brought(w, ptr)
    ensures TasksSound(w.(db := db'))
  {
    forall key | key in db'.tasks ensures TaskSound(db', w.bodies, w.issued, key) {
      if key !in w.db.tasks {
        ReferencedIsStored(w, key.body);
      } else {
        assert TaskSound(w.db, w.bodies, w.issued, key);
      }
    }
    forall a | a in w.acts ensures ActSound(db', w.bodies, w.acts[a]) {
      var key := w.acts[a].key;
      assert ActSound(w.db, w.bodies, w.acts[a]);
      assert TaskSound(w.db, w.bodies, w.issued, key);
      if Referenced(db', key.body) {
        MovesAddNoOtherReference(w.db, db', ptr, role, key.body);
      }
    }
  }

  lemma ReferencedIsStored(w: World, b: BodyId)
    requires Sound(w) && Referenced(w.db, b) && b != 0
    ensures b in w.bodies && b in w.issued && w.bodies[b].hash != 0
  {
    var p :| p in w.db.posts && Names(w.db.posts[p], b);
    assert RowSound(w.bodies, w.db.posts[p]);
  }

  lemma MovesKeepOp(w: World, db': Tables, ptr: Ptr, role: Role, o: Op)
    requires Sound(w) && Moves(w.db, db', ptr, role)
    requires OpSound(w.db, w.bodies, w.issued, o) && (o.Written? ==> o.body != ptr.id)
    ensures OpSound(db', w.bodies, w.issued, o)
  {
    if o.Written? {
      if Referenced(db', o.body) {
        MovesAddNoOtherReference(w.db, db', ptr, role, o.body);
      }
    }
  }

  lemma MovesKeepPointers(w: World, db': Tables, ptr: Ptr, role: Role)
    requires PointersSound(w.db, w.bodies) && Moves(w.db, db', ptr, role) && PtrSound(w.bodies, ptr, role)
    ensures PointersSound(db', w.bodies)
  {
    forall p | p in db'.posts ensures RowSound(w.bodies, db'.posts[p]) {
      if p in w.db.posts {
        assert RowSound(w.bodies, w.db.posts[p]);
      }
    }
  }

  /** What a transaction that brings `ptr` does to the whole world, apart from the
      command that made it. */
  lemma MovesKeepSound(w: World, db': Tables, ptr: Ptr, role: Role, rest: map<OpId, Op>)
    requires Sound(w) && Moves(w.db, db', ptr, role) && Brought(w, ptr) && PtrSound(w.bodies, ptr, role)
    requires forall i :: i in rest ==> i in w.ops && rest[i] == w.ops[i] && ptr.id !in HeldBy(rest[i])
    ensures Sound(w.(db := db', ops := rest))
  {
    MovesKeepTasks(w, db', ptr, role);
    MovesKeepPointers(w, db', ptr, role);
    forall i | i in rest ensures OpSound(db', w.bodies, w.issued, rest[i]) {
      assert OpSound(w.db, w.bodies, w.issued, w.ops[i]);
      MovesKeepOp(w, db', ptr, role, w.ops[i]);
    }
  }

  // ------------------------------------------------------------ each step keeps it

  lemma CommitMoves(w: World, op: OpId)
    requires Sound(w) && op in w.ops && ReadyToCommit(w.ops[op])
    requires CommitTx(w.db, w.ops[op].cmd, w.ops[op].cur, NewPtr(w.ops[op])).Accepted?
    ensures var o := w.ops[op];
            var ptr := if o.cmd.Create? || o.cmd.Save? || o.cmd.Publish? then NewPtr(o) else NoPtr;
            && Moves(w.db, CommitTx(w.db, o.cmd, o.cur, NewPtr(o)).db, ptr, RoleFor(o.cmd))
            && Brought(w, ptr) && PtrSound(w.bodies, ptr, RoleFor(o.cmd))
  {
    var o := w.ops[op];
    assert OpSound(w.db, w.bodies, w.issued, o);
    match o.cmd
    case Create(owner, _, ids) => CreateMoves(w.db, owner, ids, NewPtr(o));
    case Save(post, _, _, _) =>
      assert Names(w.db.posts[post], w.db.posts[post].draft.id);
      SaveMoves(w.db, o.cmd, o.cur, NewPtr(o));
    case Publish(_, _, _, _) => PublishMoves(w.db, o.cmd, o.cur, NewPtr(o));
    case Schedule(_, _, _, _) => OthersMove(w.db, o.cmd, o.cur, NewPtr(o));
    case UpdateMeta(_, _, _) => OthersMove(w.db, o.cmd, o.cur, NewPtr(o));
    case Lifecycle(_, _, _, _) => OthersMove(w.db, o.cmd, o.cur, NewPtr(o));
  }

  lemma EndKeepsSound(w: World, op: OpId)
    requires Sound(w)
    ensures Sound(End(w, op))
  {
    forall i | i in End(w, op).ops ensures OpSound(w.db, w.bodies, w.issued, w.ops[i]) {}
  }

  /** A command takes up a new state that holds nothing another command holds. */
  lemma PutKeepsSound(w: World, op: OpId, o: Op)
    requires Sound(w) && OpSound(w.db, w.bodies, w.issued, o)
    requires forall i :: i in w.ops && i != op ==> HeldBy(o) !! HeldBy(w.ops[i])
    ensures Sound(w.(ops := w.ops[op := o]))
  {
    var ops := w.ops[op := o];
    forall i | i in ops ensures OpSound(w.db, w.bodies, w.issued, ops[i]) {
      if i != op {
        assert OpSound(w.db, w.bodies, w.issued, w.ops[i]);
      }
    }
  }

  lemma HeldIsIssued(w: World, i: OpId)
    requires Sound(w) && i in w.ops
    ensures HeldBy(w.ops[i]) <= w.issued && 0 !in HeldBy(w.ops[i])
  {
    assert OpSound(w.db, w.bodies, w.issued, w.ops[i]);
  }

  lemma BeginKeepsSound(w: World, op: OpId, cmd: Command)
    requires Sound(w)
    ensures Sound(BeginStep(w, op, cmd))
  {
    var w' := BeginStep(w, op, cmd);
    if w' != w {
      PutKeepsSound(w, op, w'.ops[op]);
    }
  }

  lemma ParseKeepsSound(w: World, op: OpId, hash: Hash)
    requires Sound(w)
    ensures Sound(ParseStep(w, op, hash))
  {
    EndKeepsSound(w, op);
    if op in w.ops && w.ops[op].Loaded? && NeedsParse(w.ops[op].cmd) && hash != 0 {
      assert OpSound(w.db, w.bodies, w.issued, w.ops[op]);
      PutKeepsSound(w, op, Validated(w.ops[op].cmd, w.ops[op].cur, hash));
    }
  }

  lemma ReadKeepsSound(w: World, op: OpId)
    requires Sound(w)
    ensures Sound(ReadStep(w, op))
  {
    EndKeepsSound(w, op);
    if op in w.ops && w.ops[op].Loaded? && NeedsRead(w.ops[op].cmd) {
      var Loaded(cmd, cur) := w.ops[op];
      assert OpSound(w.db, w.bodies, w.issued, w.ops[op]);
      if cur.draft.id in w.bodies && w.bodies[cur.draft.id].hash == cur.draft.hash && cur.status == Draft {
        PutKeepsSound(w, op, Validated(cmd, cur, cur.draft.hash));
      }
    }
  }

  /** Generating a body id, and perhaps storing a body under it. */
  lemma FreshBodyKeepsSound(w: World, b: BodyId, stored: map<BodyId, Body>)
    requires Sound(w) && b != 0 && b !in w.issued
    requires stored == w.bodies || (b in stored && stored == w.bodies[b := stored[b]] && stored[b].hash != 0)
    ensures Sound(w.(bodies := stored, issued := w.issued + {b}))
    ensures Untouched(w.db, b)
    ensures forall i :: i in w.ops ==> b !in HeldBy(w.ops[i])
  {
    var issued := w.issued + {b};
    if Referenced(w.db, b) {
      ReferencedIsStored(w, b);
    }
    forall p | p in w.db.posts ensures RowSound(stored, w.db.posts[p]) {
      assert RowSound(w.bodies, w.db.posts[p]);
    }
    forall key | key in w.db.tasks ensures TaskSound(w.db, stored, issued, key) && key.body != b {
      assert TaskSound(w.db, w.bodies, w.issued, key);
    }
    forall a | a in w.acts ensures ActSound(w.db, stored, w.acts[a]) {
      assert ActSound(w.db, w.bodies, w.acts[a]) && TaskSound(w.db, w.bodies, w.issued, w.acts[a].key);
    }
    forall i | i in w.ops ensures OpSound(w.db, stored, issued, w.ops[i]) && b !in HeldBy(w.ops[i]) {
      assert OpSound(w.db, w.bodies, w.issued, w.ops[i]);
    }
  }

  lemma WriteKeepsSound(w: World, op: OpId, b: BodyId, written: WriteOutcome)
    requires Sound(w)
    ensures Sound(WriteStep(w, op, b, written))
  {
    if op in w.ops && w.ops[op].Validated? && Writes(w.ops[op].cmd) && b != 0 && b !in w.issued {
      var Validated(cmd, cur, hash) := w.ops[op];
      assert OpSound(w.db, w.bodies, w.issued, w.ops[op]);
      var bodies := if written == NotStored then w.bodies else w.bodies[b := Body(hash, RoleFor(cmd))];
      FreshBodyKeepsSound(w, b, bodies);
      var stored := w.(bodies := bodies, issued := w.issued + {b});
      match written
      case Stored => PutKeepsSound(stored, op, Written(cmd, cur, b, hash));
      case ErrorAfterStore => EndKeepsSound(stored.(lost := w.lost + {b}), op);
      case NotStored => EndKeepsSound(stored, op);
    }
  }

  /** The second transaction, with the command that made it set aside. */
  lemma CommittedKeepsSound(w: World, op: OpId, outcome: TxOutcome)
    requires Sound(w) && op in w.ops && ReadyToCommit(w.ops[op])
    ensures Sound(End(w.(db := Committed(w, op, outcome)), op))
  {
    var o := w.ops[op];
    if CommitTx(w.db, o.cmd, o.cur, NewPtr(o)).Accepted? && outcome != Aborted {
      forall i | i in w.ops ensures 0 !in HeldBy(w.ops[i]) {
        HeldIsIssued(w, i);
      }
      CommitMoves(w, op);
      var ptr := if o.cmd.Create? || o.cmd.Save? || o.cmd.Publish? then NewPtr(o) else NoPtr;
      assert ptr.id == 0 || ptr.id in HeldBy(o);
      MovesKeepSound(w, Committed(w, op, outcome), ptr, RoleFor(o.cmd), w.ops - {op});
    } else {
      EndKeepsSound(w, op);
    }
  }

  function Committed(w: World, op: OpId, outcome: TxOutcome): Tables
    requires op in w.ops && ReadyToCommit(w.ops[op])
  {
    var o := w.ops[op];
    var tx := CommitTx(w.db, o.cmd, o.cur, NewPtr(o));
    if tx.Accepted? && outcome != Aborted then tx.db else w.db
  }

  lemma CommitKeepsSound(w: World, op: OpId, outcome: TxOutcome)
    requires Sound(w) && op in w.ops && ReadyToCommit(w.ops[op])
    ensures Sound(CommitStep(w, op, outcome))
  {
    var o := w.ops[op];
    var left := End(w.(db := Committed(w, op, outcome)), op);
    CommittedKeepsSound(w, op, outcome);
    if CommitStep(w, op, outcome) != left {
      var next := Unregistered(TaskKey(o.body, OrphanKind(o.cmd)));
      HeldIsIssued(w, op);
      assert left.ops[op := next] == w.ops[op := next];
      OrphanKeepsSound(w, left, op, next);
    }
  }

  lemma OrphanKeepsSound(w: World, left: World, op: OpId, next: Op)
    requires OpsSound(w) && op in w.ops && Sound(left) && left.issued == w.issued && left.ops == w.ops - {op}
    requires next.Unregistered? && w.ops[op].Written? && HeldBy(next) == HeldBy(w.ops[op])
    ensures Sound(left.(ops := left.ops[op := next]))
  {
    assert OpSound(w.db, w.bodies, w.issued, w.ops[op]);
    PutKeepsSound(left, op, next);
  }

  lemma RegisterKeepsSound(w: World, op: OpId, ok: bool)
    requires Sound(w)
    ensures Sound(RegisterStep(w, op, ok))
  {
    if op in w.ops && w.ops[op].Unregistered? {
      var key := w.ops[op].orphan;
      assert OpSound(w.db, w.bodies, w.issued, w.ops[op]);
      EndKeepsSound(w, op);
      if ok {
        UpsertKeepsSound(End(w, op), key);
      }
    }
  }

  /** A task may be registered for any body no command still holds. */
  lemma UpsertKeepsSound(w: World, key: TaskKey)
    requires Sound(w) && key.body in w.issued
    requires forall i :: i in w.ops ==> key.body !in HeldBy(w.ops[i])
    ensures Sound(w.(db := w.db.(tasks := Upsert(w.db.tasks, key))))
  {
    var db := w.db.(tasks := Upsert(w.db.tasks, key));
    SameReferences(w.db, db);
    forall i | i in w.ops ensures OpSound(db, w.bodies, w.issued, w.ops[i]) {
      assert OpSound(w.db, w.bodies, w.issued, w.ops[i]);
    }
    forall k | k in db.tasks ensures TaskSound(db, w.bodies, w.issued, k) {
      if k in w.db.tasks {
        assert TaskSound(w.db, w.bodies, w.issued, k);
      }
    }
    forall a | a in w.acts ensures ActSound(db, w.bodies, w.acts[a]) {
      assert ActSound(w.db, w.bodies, w.acts[a]);
    }
  }

  lemma SameReferences(db: Tables, db': Tables)
    requires db.posts == db'.posts
    ensures forall b: BodyId :: Referenced(db', b) == Referenced(db, b)
  {
  }

  /** Marking an existing task, and moving one worker on. */
  lemma TaskStepKeepsSound(w: World, key: TaskKey, task: Task, acts: map<ActId, Activity>)
    requires Sound(w) && key in w.db.tasks
    requires task.status == Done ==> key.body !in w.bodies
    requires forall a :: a in acts ==> (a in w.acts && acts[a] == w.acts[a]) || ActSound(w.db, w.bodies, acts[a])
    ensures Sound(w.(db := w.db.(tasks := w.db.tasks[key := task]), acts := acts))
  {
    var db := w.db.(tasks := w.db.tasks[key := task]);
    SameReferences(w.db, db);
    forall i | i in w.ops ensures OpSound(db, w.bodies, w.issued, w.ops[i]) {
      assert OpSound(w.db, w.bodies, w.issued, w.ops[i]);
    }
    forall k | k in db.tasks ensures TaskSound(db, w.bodies, w.issued, k) {
      assert TaskSound(w.db, w.bodies, w.issued, k);
    }
    forall a | a in acts ensures ActSound(db, w.bodies, acts[a]) {
      if a in w.acts && acts[a] == w.acts[a] {
        assert ActSound(w.db, w.bodies, w.acts[a]);
      }
    }
  }

  lemma WorkerStepKeepsSound(w: World, acts: map<ActId, Activity>)
    requires Sound(w)
    requires forall a :: a in acts ==> (a in w.acts && acts[a] == w.acts[a]) || ActSound(w.db, w.bodies, acts[a])
    ensures Sound(w.(acts := acts))
  {
    forall a | a in acts ensures ActSound(w.db, w.bodies, acts[a]) {
      if a in w.acts && acts[a] == w.acts[a] {
        assert ActSound(w.db, w.bodies, w.acts[a]);
      }
    }
  }

  /** Removing a body that a worker found unreferenced: nothing sound relied on it. */
  lemma RemovalKeepsSound(w: World, b: BodyId)
    requires Sound(w) && !Referenced(w.db, b) && b != 0
    requires exists key :: key in w.db.tasks && key.body == b
    ensures Sound(w.(bodies := w.bodies - {b}))
  {
    var bodies := w.bodies - {b};
    forall p | p in w.db.posts ensures RowSound(bodies, w.db.posts[p]) {
      assert RowSound(w.bodies, w.db.posts[p]) && !Names(w.db.posts[p], b);
    }
    forall i | i in w.ops ensures OpSound(w.db, bodies, w.issued, w.ops[i]) {
      assert OpSound(w.db, w.bodies, w.issued, w.ops[i]);
    }
    forall k | k in w.db.tasks ensures TaskSound(w.db, bodies, w.issued, k) {
      assert TaskSound(w.db, w.bodies, w.issued, k);
    }
    forall a | a in w.acts ensures ActSound(w.db, bodies, w.acts[a]) {
      assert ActSound(w.db, w.bodies, w.acts[a]);
    }
  }

  lemma DeleteStepKeepsSound(w: World, act: ActId, ok: bool, removed: bool)
    requires Sound(w)
    ensures Sound(DeleteStep(w, act, ok, removed))
  {
    if act in w.acts && w.acts[act].Unreferenced? {
      var Unreferenced(key, worker) := w.acts[act];
      assert ActSound(w.db, w.bodies, w.acts[act]) && TaskSound(w.db, w.bodies, w.issued, key);
      var left := if ok || removed then w.(bodies := w.bodies - {key.body}) else w;
      if ok || removed {
        RemovalKeepsSound(w, key.body);
      }
      WorkerStepKeepsSound(left, DeleteStep(w, act, ok, removed).acts);
    }
  }

  lemma AcknowledgeKeepsSound(w: World, act: ActId, threshold: nat)
    requires Sound(w)
    ensures Sound(AcknowledgeStep(w, act, threshold))
  {
    var w' := AcknowledgeStep(w, act, threshold);
    if act in w.acts && !w.acts[act].Claimed? && !w.acts[act].Unreferenced? {
      var a := w.acts[act];
      assert ActSound(w.db, w.bodies, a);
      TaskStepKeepsSound(w, a.key, w'.db.tasks[a.key], w.acts - {act});
      assert w'.db.tasks == w.db.tasks[a.key := w'.db.tasks[a.key]] by {
        assert TaskSound(w.db, w.bodies, w.issued, a.key);
      }
    }
  }

  lemma WorkerKeepsSound(w: World, s: Step)
    requires Sound(w) && (s.Claim? || s.CheckReference? || s.DeleteBody? || s.Acknowledge? || s.WorkerDies?)
    ensures Sound(Apply(w, s))
  {
    match s
    case Claim(act, worker, key) =>
      if act !in w.acts && worker != 0 && key in w.db.tasks && w.db.tasks[key].status !in {Done, Dead} {
        TaskStepKeepsSound(w, key, Apply(w, s).db.tasks[key], Apply(w, s).acts);
      }
    case CheckReference(act, ok) =>
      if act in w.acts {
        assert ActSound(w.db, w.bodies, w.acts[act]);
      }
      WorkerStepKeepsSound(w, Apply(w, s).acts);
    case DeleteBody(act, ok, removed) => DeleteStepKeepsSound(w, act, ok, removed);
    case Acknowledge(act, threshold) => AcknowledgeKeepsSound(w, act, threshold);
    case WorkerDies(act) => WorkerStepKeepsSound(w, w.acts - {act});
  }

  lemma SingleTransactionKeepsSound(w: World, s: Step)
    requires Sound(w) && (s.DeleteDraft? || s.AdminDelete?)
    ensures Sound(Apply(w, s))
  {
    var w' := Apply(w, s);
    if w' != w {
      if s.DeleteDraft? {
        DeleteDraftMoves(w.db, s.post, s.actor);
      } else {
        AdminDeleteMoves(w.db, s.post);
      }
      forall i | i in w.ops ensures 0 !in HeldBy(w.ops[i]) {
        HeldIsIssued(w, i);
      }
      MovesKeepSound(w, w'.db, NoPtr, DraftBody, w.ops);
    }
  }

  lemma ApplyKeepsSound(w: World, s: Step)
    requires Sound(w)
    ensures Sound(Apply(w, s))
  {
    match s
    case Begin(op, cmd) => BeginKeepsSound(w, op, cmd);
    case ParseBody(op, hash) => ParseKeepsSound(w, op, hash);
    case ReadBody(op) => ReadKeepsSound(w, op);
    case WriteBody(op, body, written) => WriteKeepsSound(w, op, body, written);
    case Commit(op, outcome) =>
      if op in w.ops && ReadyToCommit(w.ops[op]) {
        CommitKeepsSound(w, op, outcome);
      }
    case RegisterOrphan(op, ok) => RegisterKeepsSound(w, op, ok);
    case Die(op) => EndKeepsSound(w, op);
    case DeleteDraft(_, _) => SingleTransactionKeepsSound(w, s);
    case AdminDelete(_) => SingleTransactionKeepsSound(w, s);
    case Claim(_, _, _) => WorkerKeepsSound(w, s);
    case CheckReference(_, _) => WorkerKeepsSound(w, s);
    case DeleteBody(_, _, _) => WorkerKeepsSound(w, s);
    case Acknowledge(_, _) => WorkerKeepsSound(w, s);
    case WorkerDies(_) => WorkerKeepsSound(w, s);
  }

  lemma {:induction false} RunIsSound(steps: seq<Step>)
    ensures Sound(Run(Init, steps))
    decreases |steps|
  {
    if steps != [] {
      RunIsSound(steps[..|steps| - 1]);
      ApplyKeepsSound(Run(Init, steps[..|steps| - 1]), steps[|steps| - 1]);
    }
  }
}
