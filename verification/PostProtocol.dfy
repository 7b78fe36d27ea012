/** Everything that can happen to the posts, the body store and the cleanup table,
    as interleaved steps of any number of commands and cleanup workers. A command
    loads the post in one transaction, writes a body outside any transaction, moves
    the pointer in a second transaction that may report an error after committing,
    and registers an orphan when it saw an error. A worker claims a task, checks the
    reference, deletes and acknowledges in separate steps. Processes may die between
    any two steps. A step that its actor cannot take leaves the world as it is. */
module PostProtocol {
  import opened Posts

  datatype Role = DraftBody | Snapshot

  datatype Body = Body(hash: Hash, role: Role)

  type OpId = nat

  type ActId = nat

  /** How far a command is. */
  datatype Op =
    | Loaded(cmd: Command, cur: Post)
    | Validated(cmd: Command, cur: Post, hash: Hash)
    | Written(cmd: Command, cur: Post, body: BodyId, hash: Hash)
    | Unregistered(orphan: TaskKey)

  /** How far a worker is with a task it claimed. */
  datatype Activity =
    | Claimed(key: TaskKey, worker: WorkerId)
    | Unreferenced(key: TaskKey, worker: WorkerId)
    | Handled(key: TaskKey, worker: WorkerId)
    | GaveUp(key: TaskKey, worker: WorkerId)

  /** `issued` holds every body id ever generated, `lost` the bodies of commands that
      died, or failed to register, while holding them. */
  datatype World = World(
    db: Tables,
    bodies: map<BodyId, Body>,
    issued: set<BodyId>,
    ops: map<OpId, Op>,
    acts: map<ActId, Activity>,
    lost: set<BodyId>)

  const Init := World(Tables(map[], map[], map[], []), map[], {}, map[], map[], {})

  datatype WriteOutcome = Stored | ErrorAfterStore | NotStored

  datatype TxOutcome = Reported | ErrorAfterCommit | Aborted

  datatype Step =
    | Begin(op: OpId, cmd: Command)
    | ParseBody(op: OpId, hash: Hash)
    | ReadBody(op: OpId)
    | WriteBody(op: OpId, body: BodyId, written: WriteOutcome)
    | Commit(op: OpId, outcome: TxOutcome)
    | RegisterOrphan(op: OpId, ok: bool)
    | Die(op: OpId)
    | DeleteDraft(post: PostId, actor: UserId)
    | AdminDelete(post: PostId)
    | Claim(act: ActId, worker: WorkerId, key: TaskKey)
    | CheckReference(act: ActId, ok: bool)
    | DeleteBody(act: ActId, ok: bool, removed: bool)
    | Acknowledge(act: ActId, threshold: nat)
    | WorkerDies(act: ActId)

  // ------------------------------------------------------------------ command steps

  /** A post to stand for the row a creation has not made yet. */
  function NewPost(owner: UserId): Post { Post(owner, Draft, 0, NoPtr, NoPtr) }

  function BeginStep(w: World, op: OpId, cmd: Command): World {
    if op in w.ops then w
    else if cmd.Create? then w.(ops := w.ops[op := Loaded(cmd, NewPost(cmd.owner))])
    else if cmd.post in w.db.posts && Check(cmd, w.db.posts[cmd.post]) == Passes
    then w.(ops := w.ops[op := Loaded(cmd, w.db.posts[cmd.post])])
    else w
  }

  function End(w: World, op: OpId): World { w.(ops := w.ops - {op}) }

  predicate NeedsParse(cmd: Command) { cmd.Save? || (cmd.Create? && cmd.withBody) }

  predicate NeedsRead(cmd: Command) { cmd.Publish? || cmd.Schedule? }

  predicate Writes(cmd: Command) { NeedsParse(cmd) || cmd.Publish? }

  /** The parser accepted the body sent, under this hash. Saving the body the post
      already has ends the command without a write. */
  function ParseStep(w: World, op: OpId, hash: Hash): World {
    if op !in w.ops || !w.ops[op].Loaded? || !NeedsParse(w.ops[op].cmd) || hash == 0 then w
    else
      var Loaded(cmd, cur) := w.ops[op];
      if cmd.Save? && hash == cur.draft.hash then End(w, op)
      else w.(ops := w.ops[op := Validated(cmd, cur, hash)])
  }

  /** Publishing and scheduling read the draft back; it must be there, with the hash
      of the loaded pointer, and the post must be an unpublished draft. */
  function ReadStep(w: World, op: OpId): World {
    if op !in w.ops || !w.ops[op].Loaded? || !NeedsRead(w.ops[op].cmd) then w
    else
      var Loaded(cmd, cur) := w.ops[op];
      if cur.draft.id in w.bodies && w.bodies[cur.draft.id].hash == cur.draft.hash && cur.status == Draft
      then w.(ops := w.ops[op := Validated(cmd, cur, cur.draft.hash)])
      else End(w, op)
  }

  function RoleFor(cmd: Command): Role { if cmd.Publish? then Snapshot else DraftBody }

  function OrphanKind(cmd: Command): TaskKind { if cmd.Publish? then OrphanSnapshot else OrphanDraft }

  function WriteStep(w: World, op: OpId, body: BodyId, written: WriteOutcome): World {
    if op !in w.ops || !w.ops[op].Validated? || !Writes(w.ops[op].cmd) || body == 0 || body in w.issued then w
    else
      var Validated(cmd, cur, hash) := w.ops[op];
      var stored := w.bodies[body := Body(hash, RoleFor(cmd))];
      var w' := w.(issued := w.issued + {body});
      match written
      case Stored => w'.(bodies := stored, ops := w.ops[op := Written(cmd, cur, body, hash)])
      case ErrorAfterStore => End(w'.(bodies := stored, lost := w.lost + {body}), op)
      case NotStored => End(w', op)
  }

  predicate ReadyToCommit(o: Op) {
    match o
    case Loaded(cmd, _) => !Writes(cmd) && !cmd.Schedule?
    case Validated(cmd, _, _) => !Writes(cmd)
    case Written(_, _, _, _) => true
    case Unregistered(_) => false
  }

  function NewPtr(o: Op): Ptr {
    if o.Written? then Ptr(o.body, o.hash) else NoPtr
  }

  /** The command learns of success or of an error; only after an error, and only
      when it holds a body, is there an orphan to register. */
  function CommitStep(w: World, op: OpId, outcome: TxOutcome): World {
    if op !in w.ops || !ReadyToCommit(w.ops[op]) then w
    else
      var o := w.ops[op];
      var tx := CommitTx(w.db, o.cmd, o.cur, NewPtr(o));
      var after := if tx.Accepted? && outcome != Aborted then w.(db := tx.db) else w;
      if tx.Accepted? && outcome == Reported then End(after, op)
      else Failure(after, op)
  }

  function Failure(w: World, op: OpId): World
    requires op in w.ops
  {
    var o := w.ops[op];
    if o.Written? then w.(ops := w.ops[op := Unregistered(TaskKey(o.body, OrphanKind(o.cmd)))])
    else End(w, op)
  }

  function RegisterStep(w: World, op: OpId, ok: bool): World {
    if op !in w.ops || !w.ops[op].Unregistered? then w
    else
      var key := w.ops[op].orphan;
      if ok then End(w.(db := w.db.(tasks := Upsert(w.db.tasks, key))), op)
      else End(w.(lost := w.lost + {key.body}), op)
  }

  /** A command that dies, or gives up before it wrote anything. */
  function DieStep(w: World, op: OpId): World {
    if op !in w.ops then w
    else End(w.(lost := w.lost + HeldBy(w.ops[op])), op)
  }

  function HeldBy(o: Op): set<BodyId> {
    match o
    case Loaded(_, _) => {}
    case Validated(_, _, _) => {}
    case Written(_, _, body, _) => {body}
    case Unregistered(key) => {key.body}
  }

  // ------------------------------------------------------------------- worker steps

  /** Any task not finished may be claimed: a claim counts as stale at any time. */
  function ClaimStep(w: World, act: ActId, worker: WorkerId, key: TaskKey): World {
    if act in w.acts || worker == 0 || key !in w.db.tasks || w.db.tasks[key].status in {Done, Dead} then w
    else
      var task := Task(Processing, worker, w.db.tasks[key].attempts + 1);
      w.(db := w.db.(tasks := w.db.tasks[key := task]), acts := w.acts[act := Claimed(key, worker)])
  }

  function CheckStep(w: World, act: ActId, ok: bool): World {
    if act !in w.acts || !w.acts[act].Claimed? then w
    else
      var Claimed(key, worker) := w.acts[act];
      w.(acts := w.acts[act := if ok && !Referenced(w.db, key.body) then Unreferenced(key, worker)
                               else GaveUp(key, worker)])
  }

  /** A deletion that reports an error may have removed the body all the same. */
  function DeleteStep(w: World, act: ActId, ok: bool, removed: bool): World {
    if act !in w.acts || !w.acts[act].Unreferenced? then w
    else
      var Unreferenced(key, worker) := w.acts[act];
      w.(bodies := if ok || removed then w.bodies - {key.body} else w.bodies,
         acts := w.acts[act := if ok then Handled(key, worker) else GaveUp(key, worker)])
  }

  /** MarkSucceeded or MarkFailed: only the owner of the claim changes the row. */
  function AcknowledgeStep(w: World, act: ActId, threshold: nat): World {
    if act !in w.acts || w.acts[act].Claimed? || w.acts[act].Unreferenced? then w
    else
      var a := w.acts[act];
      var w' := w.(acts := w.acts - {act});
      if a.key !in w.db.tasks || w.db.tasks[a.key].status != Processing || w.db.tasks[a.key].claimedBy != a.worker
      then w'
      else
        var task := w.db.tasks[a.key];
        var marked := if a.Handled? then task.(status := Done)
                      else Task(if task.attempts >= threshold then Dead else Failed, 0, task.attempts);
        w'.(db := w.db.(tasks := w.db.tasks[a.key := marked]))
  }

  // --------------------------------------------------------------------------- runs

  function Transaction(w: World, tx: Tx): World {
    if tx.Accepted? then w.(db := tx.db) else w
  }

  function Apply(w: World, s: Step): World {
    match s
    case Begin(op, cmd) => BeginStep(w, op, cmd)
    case ParseBody(op, hash) => ParseStep(w, op, hash)
    case ReadBody(op) => ReadStep(w, op)
    case WriteBody(op, body, written) => WriteStep(w, op, body, written)
    case Commit(op, outcome) => CommitStep(w, op, outcome)
    case RegisterOrphan(op, ok) => RegisterStep(w, op, ok)
    case Die(op) => DieStep(w, op)
    case DeleteDraft(post, actor) => Transaction(w, DeleteDraftTx(w.db, post, actor))
    case AdminDelete(post) => Transaction(w, AdminDeleteTx(w.db, post))
    case Claim(act, worker, key) => ClaimStep(w, act, worker, key)
    case CheckReference(act, ok) => CheckStep(w, act, ok)
    case DeleteBody(act, ok, removed) => DeleteStep(w, act, ok, removed)
    case Acknowledge(act, threshold) => AcknowledgeStep(w, act, threshold)
    case WorkerDies(act) => w.(acts := w.acts - {act})
  }

  function Run(w: World, steps: seq<Step>): World
    decreases |steps|
  {
    if steps == [] then w else Apply(Run(w, steps[..|steps| - 1]), steps[|steps| - 1])
  }
}
