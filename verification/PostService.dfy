/** The content service and its cleanup worker as they run: tables and the body store
    updated step by step, with other processes free to act between any two effects.
    Every effect is proved to be a step of `PostProtocol`, so whatever is proved of
    all runs there holds for this code under every interference. */
module PostService {
  import opened Posts
  import opened PostProtocol
  import opened PostSafety
  import opened PostPublishing
  import opened PostRules
  import PublishRules

  type Fitness = PublishRules.Fitness

  type Unfitness = PublishRules.Unfitness

  datatype Outcome =
    | Succeeded(version: Version)
    | Unchanged(version: Version)
    | Rejected(why: Refusal)
    | Objected(flaw: Unfitness)
    | Unavailable

  /** How a draft that is not fit ends its command. */
  function Objection(f: Fitness): Outcome
    requires !f.Fit?
  {
    if f.Unfit? then Objected(f.why) else Unavailable
  }

  /** What the stores and the network do to one command: whether the draft can be
      read, how the body is written, how the transaction ends, and whether a task can
      be registered after an error. */
  datatype Conditions = Conditions(
    readable: bool,
    written: WriteOutcome,
    committed: TxOutcome,
    registered: bool)

  /** What a transaction tells its caller. */
  datatype Report = Ok(version: Version) | Missed(why: Refusal) | TxError

  function ReportOf(tx: Tx, post: PostId, outcome: TxOutcome): Report {
    if tx.Refused? then Missed(tx.why)
    else if outcome != Reported || post !in tx.db.posts then TxError
    else Ok(tx.db.posts[post].version)
  }

  datatype Process = OfCommand(op: OpId) | OfWorker(act: ActId)

  /** The step is one of the process itself. */
  predicate Concerns(s: Step, me: Process) {
    match s
    case Begin(o, _) => me == OfCommand(o)
    case ParseBody(o, _) => me == OfCommand(o)
    case ReadBody(o) => me == OfCommand(o)
    case WriteBody(o, _, _) => me == OfCommand(o)
    case Commit(o, _) => me == OfCommand(o)
    case RegisterOrphan(o, _) => me == OfCommand(o)
    case Die(o) => me == OfCommand(o)
    case DeleteDraft(_, _) => false
    case AdminDelete(_) => false
    case Claim(a, _, _) => me == OfWorker(a)
    case CheckReference(a, _) => me == OfWorker(a)
    case DeleteBody(a, _, _) => me == OfWorker(a)
    case Acknowledge(a, _) => me == OfWorker(a)
    case WorkerDies(a) => me == OfWorker(a)
  }

  /** The process is where it was. */
  predicate Undisturbed(w: World, w': World, me: Process) {
    match me
    case OfCommand(op) => (op in w'.ops <==> op in w.ops) && (op in w.ops ==> w'.ops[op] == w.ops[op])
    case OfWorker(act) => (act in w'.acts <==> act in w.acts) && (act in w.acts ==> w'.acts[act] == w.acts[act])
  }

  lemma OthersDoNotDisturb(w: World, s: Step, me: Process)
    requires !Concerns(s, me)
    ensures Undisturbed(w, Apply(w, s), me)
  {
    if me.OfCommand? {
      OthersLeaveOp(w, s, me.op);
    } else {
      OthersLeaveAct(w, s, me.act);
    }
  }

  lemma OthersLeaveOp(w: World, s: Step, op: OpId)
    requires !Concerns(s, OfCommand(op))
    ensures Undisturbed(w, Apply(w, s), OfCommand(op))
  {
  }

  lemma OthersLeaveAct(w: World, s: Step, act: ActId)
    requires !Concerns(s, OfWorker(act))
    ensures Undisturbed(w, Apply(w, s), OfWorker(act))
  {
  }

  /** Whatever other processes do, a process finds itself where it left off. */
  lemma {:induction false} ProcessSurvives(before: seq<Step>, after: seq<Step>, me: Process)
    requires before <= after
    requires forall i :: |before| <= i < |after| ==> !Concerns(after[i], me)
    ensures Undisturbed(Run(Init, before), Run(Init, after), me)
    decreases |after|
  {
    if |before| == |after| {
      assert before == after;
    } else {
      var shorter := after[..|after| - 1];
      ProcessSurvives(before, shorter, me);
      OthersDoNotDisturb(Run(Init, shorter), after[|after| - 1], me);
    }
  }

  lemma RunSnoc(steps: seq<Step>, s: Step)
    ensures Run(Init, steps + [s]) == Apply(Run(Init, steps), s)
  {
    assert (steps + [s])[..|steps|] == steps;
  }

  lemma FreshIdExists(used: set<BodyId>)
    ensures exists id: BodyId :: id != 0 && id !in used
  {
    var bound := UpperBound(used);
    assert bound + 1 !in used;
  }

  lemma {:induction false} UpperBound(used: set<BodyId>) returns (bound: BodyId)
    ensures forall id :: id in used ==> id <= bound
    decreases |used|
  {
    if used == {} {
      bound := 0;
    } else {
      var id :| id in used;
      var rest := UpperBound(used - {id});
      bound := if id > rest then id else rest;
      forall x | x in used ensures x <= bound {
        assert x == id || x in used - {id};
      }
    }
  }

  /** The world just before the step with number `n`. */
  function Before(steps: seq<Step>, n: nat): World
    requires n <= |steps|
  {
    Run(Init, steps[..n])
  }

  lemma BeforeIs(past: seq<Step>, steps: seq<Step>)
    requires past <= steps
    ensures Before(steps, |past|) == Run(Init, past)
  {
    assert steps[..|past|] == past;
  }

  /** What a command learns of its second transaction, told from the row it found: it
      succeeds when the row is still one it may change and the commit is reported. A
      refusal is passed on, but not by a command that publishes and could not register
      its orphan, nor when the row is gone. */
  ghost predicate CommitAnswers(db: Tables, cmd: Command, env: Conditions, needsTask: bool, r: Outcome)
    requires !cmd.Create?
  {
    if FitsIn(db, cmd) then
      r == if env.committed == Reported then Succeeded(db.posts[cmd.post].version + 1) else Unavailable
    else if (needsTask && !env.registered) || ((cmd.Save? || cmd.Publish? || cmd.UpdateMeta?) && cmd.post !in db.posts)
    then r == Unavailable
    else r.Rejected? && RefusedBecause(db, cmd, r.why)
  }

  /** A creation succeeds exactly when one of the first three ids is free and the
      insertion is reported; the row then has the first free id. */
  ghost predicate CreationAnswers(db: Tables, ids: seq<PostId>, env: Conditions, r: Outcome, created: PostId) {
    && r in {Succeeded(1), Unavailable}
    && (r.Succeeded? <==>
          env.committed == Reported && exists k :: 0 <= k < 3 && k < |ids| && ids[k] !in db.posts)
    && (r.Succeeded? ==>
          exists k :: 0 <= k < 3 && k < |ids| && ids[k] == created && created !in db.posts
                      && forall j :: 0 <= j < k ==> ids[j] in db.posts)
  }

  /** What an acknowledgement makes of the cleanup table: only the owner of the claim
      changes its row, to done, or to failed or dead by the number of attempts. */
  ghost predicate Marks(before: map<TaskKey, Task>, key: TaskKey, worker: WorkerId, handled: bool, threshold: nat,
                        owned: bool, after: map<TaskKey, Task>) {
    && (owned <==> key in before && before[key].status == Processing && before[key].claimedBy == worker)
    && (!owned ==> after == before)
    && (owned && handled ==> after == before[key := Task(Done, worker, before[key].attempts)])
    && (owned && !handled ==>
          after == before[key := Task(if before[key].attempts >= threshold then Dead else Failed, 0, before[key].attempts)])
  }

  class ContentService {
    var posts: map<PostId, Post>
    var schedules: map<PostId, Ptr>
    var tasks: map<TaskKey, Task>
    var outbox: seq<Event>
    var bodies: map<BodyId, Body>
    var issued: set<BodyId>
    ghost var ops: map<OpId, Op>
    ghost var acts: map<ActId, Activity>
    ghost var lost: set<BodyId>
    ghost var trace: seq<Step>

    function Db(): Tables
      reads this
    {
      Tables(posts, schedules, tasks, outbox)
    }

    ghost function State(): World
      reads this
    {
      World(Db(), bodies, issued, ops, acts, lost)
    }

    ghost predicate Valid()
      reads this
    {
      State() == Run(Init, trace)
    }

    constructor ()
      ensures Valid() && trace == []
    {
      posts, schedules, tasks, outbox := map[], map[], map[], [];
      bodies, issued := map[], {};
      ops, acts, lost := map[], map[], {};
      trace := [];
    }

    /** Anything other processes may do in the meantime. Callers rely on the contract
        alone: afterwards the state may be any that steps of others lead to. */
    method Interfere(ghost me: Process)
      requires Valid()
      modifies this
      ensures Valid() && old(trace) <= trace
      ensures forall i :: |old(trace)| <= i < |trace| ==> !Concerns(trace[i], me)
      ensures Undisturbed(old(State()), State(), me)
    {
      ProcessSurvives(trace, trace, me);
    }

    // -------------------------------------------------------- statements and transactions

    method UpsertCleanupTask(inTx: map<TaskKey, Task>, key: TaskKey) returns (r: map<TaskKey, Task>)
      ensures r == Upsert(inTx, key)
      ensures r == if key in inTx then inTx else inTx[key := Task(Pending, 0, 0)]
    {
      r := inTx;
      if key !in r {
        r := r[key := Task(Pending, 0, 0)];
      }
    }

    /** CreateDraft: insert under a generated public id, three attempts at most. */
    method CreateDraft(owner: UserId, ids: seq<PostId>, ptr: Ptr, outcome: TxOutcome) returns (r: Report)
      modifies `posts
      ensures var tx := CreateTx(old(Db()), owner, ids, ptr);
              && Db() == (if tx.Accepted? && outcome != Aborted then tx.db else old(Db()))
              && r == if tx.Refused? then Missed(tx.why) else if outcome != Reported then TxError else Ok(1)
    {
      var attempt := 0;
      while attempt < 3 && attempt < |ids| && ids[attempt] in posts
        invariant 0 <= attempt <= 3 && attempt <= |ids|
        invariant forall k :: 0 <= k < attempt ==> ids[k] in posts
        invariant posts == old(posts)
      {
        attempt := attempt + 1;
      }
      if attempt == 3 || attempt == |ids| {
        return Missed(NoFreeId);
      }
      if outcome != Aborted {
        posts := posts[ids[attempt] := Post(owner, Draft, 1, ptr, NoPtr)];
      }
      r := if outcome == Reported then Ok(1) else TxError;
    }

    method SaveDraftBodyTx(cmd: Command, cur: Post, ptr: Ptr, outcome: TxOutcome) returns (r: Report)
      requires cmd.Save?
      modifies `posts, `tasks
      ensures var tx := SaveTx(old(Db()), cmd, cur, ptr);
              && Db() == (if tx.Accepted? && outcome != Aborted then tx.db else old(Db()))
              && r == ReportOf(tx, cmd.post, outcome)
    {
      if cmd.post !in posts || posts[cmd.post].owner != cmd.actor {
        return Missed(Miss(Db(), cmd.post, cmd.actor, false));
      }
      var row := posts[cmd.post];
      if row.version != cmd.base || row.draft != cmd.draft || row.status == Deleted || row.status == Scheduled {
        return Missed(Miss(Db(), cmd.post, cmd.actor, false));
      }
      var saved := row.(draft := ptr, version := row.version + 1);
      var cleanup := tasks;
      if cur.draft.id != 0 && cur.draft.id != ptr.id {
        cleanup := UpsertCleanupTask(cleanup, TaskKey(cur.draft.id, OldDraft));
      }
      if outcome != Aborted {
        posts, tasks := posts[cmd.post := saved], cleanup;
      }
      r := if outcome == Reported then Ok(saved.version) else TxError;
    }

    method PublishTransaction(cmd: Command, cur: Post, ptr: Ptr, outcome: TxOutcome) returns (r: Report)
      requires cmd.Publish?
      modifies `posts, `tasks, `outbox
      ensures var tx := PublishTx(old(Db()), cmd, cur, ptr);
              && Db() == (if tx.Accepted? && outcome != Aborted then tx.db else old(Db()))
              && r == ReportOf(tx, cmd.post, outcome)
    {
      if cmd.post !in posts || posts[cmd.post].owner != cmd.actor {
        return Missed(Miss(Db(), cmd.post, cmd.actor, true));
      }
      var row := posts[cmd.post];
      if row.version != cmd.base || row.draft != cmd.draft || row.status != Draft {
        return Missed(Miss(Db(), cmd.post, cmd.actor, true));
      }
      var published := row.(status := Published, published := ptr, draft := NoPtr, version := row.version + 1);
      var event := PostPublished(cmd.post, published.version, ptr);
      var cleanup := tasks;
      if cur.draft.id != 0 {
        cleanup := UpsertCleanupTask(cleanup, TaskKey(cur.draft.id, OldDraft));
      }
      if outcome != Aborted {
        posts, tasks, outbox := posts[cmd.post := published], cleanup, outbox + [event];
      }
      r := if outcome == Reported then Ok(published.version) else TxError;
    }

    method LifecycleTransaction(cmd: Command, cur: Post, outcome: TxOutcome) returns (r: Report)
      requires cmd.Lifecycle?
      modifies `posts, `schedules, `outbox
      ensures var tx := LifecycleTx(old(Db()), cmd, cur);
              && Db() == (if tx.Accepted? && outcome != Aborted then tx.db else old(Db()))
              && r == ReportOf(tx, cmd.post, outcome)
    {
      if cmd.post !in posts || posts[cmd.post].owner != cmd.actor || !Matches(posts[cmd.post], cmd.kind, cmd.base) {
        return Missed(Miss(Db(), cmd.post, cmd.actor, false));
      }
      var changed := posts[cmd.post].(status := Target(cmd.kind), version := posts[cmd.post].version + 1);
      var pending, events := schedules, outbox;
      if cmd.kind == Delete || cmd.kind == CancelSchedule {
        pending := pending - {cmd.post};
      }
      if cmd.kind != CancelSchedule {
        events := events + [VisibilityChanged(cmd.post, changed.version, VisibilityOf(cur.status),
                                              VisibilityOf(changed.status), false)];
      }
      if outcome != Aborted {
        posts, schedules, outbox := posts[cmd.post := changed], pending, events;
      }
      r := if outcome == Reported then Ok(changed.version) else TxError;
    }

    method ScheduleTransaction(cmd: Command, outcome: TxOutcome) returns (r: Report)
      requires cmd.Schedule?
      modifies `posts, `schedules
      ensures var tx := ScheduleTx(old(Db()), cmd);
              && Db() == (if tx.Accepted? && outcome != Aborted then tx.db else old(Db()))
              && r == ReportOf(tx, cmd.post, outcome)
    {
      if cmd.post !in posts || posts[cmd.post].owner != cmd.actor {
        return Missed(Miss(Db(), cmd.post, cmd.actor, false));
      }
      var row := posts[cmd.post];
      if row.version != cmd.base || row.draft != cmd.draft || row.status != Draft {
        return Missed(Miss(Db(), cmd.post, cmd.actor, false));
      }
      if outcome != Aborted {
        posts := posts[cmd.post := row.(status := Scheduled, version := row.version + 1)];
        schedules := schedules[cmd.post := cmd.draft];
      }
      r := if outcome == Reported then Ok(row.version + 1) else TxError;
    }

    method UpdateMetaTransaction(cmd: Command, outcome: TxOutcome) returns (r: Report)
      requires cmd.UpdateMeta?
      modifies `posts
      ensures var tx := UpdateMetaTx(old(Db()), cmd);
              && Db() == (if tx.Accepted? && outcome != Aborted then tx.db else old(Db()))
              && r == ReportOf(tx, cmd.post, outcome)
    {
      if cmd.post !in posts || posts[cmd.post].owner != cmd.actor {
        return Missed(Miss(Db(), cmd.post, cmd.actor, false));
      }
      var row := posts[cmd.post];
      if row.version != cmd.base || row.status == Deleted || row.status == Scheduled {
        return Missed(Miss(Db(), cmd.post, cmd.actor, false));
      }
      if outcome != Aborted {
        posts := posts[cmd.post := row.(version := row.version + 1)];
      }
      r := if outcome == Reported then Ok(row.version + 1) else TxError;
    }

    // ------------------------------------------------------------- effects of a command

    /** loadPostForDraftWrite and the checks on what it loaded. */
    method Load(ghost op: OpId, cmd: Command) returns (verdict: Verdict, cur: Post)
      requires Valid() && op !in ops && !cmd.Create?
      modifies `ops, `trace
      ensures Valid() && trace == old(trace) + [Begin(op, cmd)]
      ensures verdict == if cmd.post in posts then Check(cmd, posts[cmd.post]) else Rejects(PostNotFound)
      ensures verdict.Passes? ==> op in ops && ops[op] == Loaded(cmd, cur) && cur == posts[cmd.post]
      ensures verdict.Rejects? ==> op !in ops
    {
      RunSnoc(trace, Begin(op, cmd));
      trace := trace + [Begin(op, cmd)];
      if cmd.post !in posts {
        return Rejects(PostNotFound), NewPost(0);
      }
      cur := posts[cmd.post];
      verdict := Check(cmd, cur);
      if verdict.Passes? {
        ops := ops[op := Loaded(cmd, cur)];
      }
    }

    /** The command gives up before it wrote anything. */
    ghost method GiveUp(op: OpId)
      requires Valid() && op in ops && HeldBy(ops[op]) == {}
      modifies `ops, `trace
      ensures Valid() && op !in ops && trace == old(trace) + [Die(op)]
    {
      RunSnoc(trace, Die(op));
      trace := trace + [Die(op)];
      ops := ops - {op};
    }

    /** ReadBody of the draft, with the checks on its presence and hash and on the
        status of the post. */
    method ReadDraft(ghost op: OpId, cmd: Command, cur: Post) returns (verdict: Verdict)
      requires Valid() && NeedsRead(cmd) && op in ops && ops[op] == Loaded(cmd, cur)
      modifies `ops, `trace
      ensures Valid() && trace == old(trace) + [ReadBody(op)]
      ensures verdict.Passes? ==> op in ops && ops[op] == Validated(cmd, cur, cur.draft.hash)
      ensures verdict.Rejects? ==> op !in ops
      ensures verdict == if cur.draft.id !in bodies then Rejects(BodyUnavailable)
                         else if bodies[cur.draft.id].hash != cur.draft.hash then Rejects(BodyInconsistent)
                         else if cur.status != Draft then Rejects(Conflict)
                         else Passes
    {
      RunSnoc(trace, ReadBody(op));
      trace := trace + [ReadBody(op)];
      if cur.draft.id !in bodies {
        verdict := Rejects(BodyUnavailable);
      } else if bodies[cur.draft.id].hash != cur.draft.hash {
        verdict := Rejects(BodyInconsistent);
      } else if cur.status != Draft {
        verdict := Rejects(Conflict);
      } else {
        verdict := Passes;
      }
      ops := if verdict.Passes? then ops[op := Validated(cmd, cur, cur.draft.hash)] else ops - {op};
    }

    /** WriteDraftBody or WriteSnapshotBody, under a new random id. */
    method WriteBodyUnder(ghost op: OpId, cmd: Command, ghost cur: Post, hash: Hash, written: WriteOutcome)
      returns (ok: bool, id: BodyId)
      requires Valid() && Writes(cmd) && op in ops && ops[op] == Validated(cmd, cur, hash)
      modifies `bodies, `issued, `ops, `lost, `trace
      ensures Valid() && trace == old(trace) + [WriteBody(op, id, written)]
      ensures id != 0 && id !in old(issued)
      ensures ok <==> written == Stored
      ensures ok ==> op in ops && ops[op] == Written(cmd, cur, id, hash)
      ensures !ok ==> op !in ops
      ensures bodies == if written == NotStored then old(bodies) else old(bodies)[id := Body(hash, RoleFor(cmd))]
    {
      FreshIdExists(issued);
      id :| id != 0 && id !in issued;
      RunSnoc(trace, WriteBody(op, id, written));
      trace := trace + [WriteBody(op, id, written)];
      ok := written == Stored;
      issued := issued + {id};
      if written != NotStored {
        bodies := bodies[id := Body(hash, RoleFor(cmd))];
      }
      if written == ErrorAfterStore {
        lost := lost + {id};
      }
      ops := if ok then ops[op := Written(cmd, cur, id, hash)] else ops - {op};
    }

    /** The second transaction of a command on an existing post. */
    method Execute(cmd: Command, cur: Post, ptr: Ptr, outcome: TxOutcome) returns (r: Report)
      requires !cmd.Create?
      modifies `posts, `schedules, `tasks, `outbox
      ensures var tx := CommitTx(old(Db()), cmd, cur, ptr);
              && Db() == (if tx.Accepted? && outcome != Aborted then tx.db else old(Db()))
              && r == ReportOf(tx, cmd.post, outcome)
    {
      if cmd.Save? {
        r := SaveDraftBodyTx(cmd, cur, ptr, outcome);
      } else if cmd.Publish? {
        r := PublishTransaction(cmd, cur, ptr, outcome);
      } else if cmd.Schedule? {
        r := ScheduleTransaction(cmd, outcome);
      } else if cmd.UpdateMeta? {
        r := UpdateMetaTransaction(cmd, outcome);
      } else {
        r := LifecycleTransaction(cmd, cur, outcome);
      }
    }

    method Transact(ghost op: OpId, cmd: Command, cur: Post, ptr: Ptr, outcome: TxOutcome) returns (r: Report)
      requires Valid() && !cmd.Create? && op in ops && ReadyToCommit(ops[op])
      requires ops[op].cmd == cmd && ops[op].cur == cur && NewPtr(ops[op]) == ptr
      modifies `posts, `schedules, `tasks, `outbox, `ops, `trace
      ensures Valid() && trace == old(trace) + [Commit(op, outcome)]
      ensures r == ReportOf(CommitTx(old(Db()), cmd, cur, ptr), cmd.post, outcome)
      ensures r.Ok? ==> Db() == CommitTx(old(Db()), cmd, cur, ptr).db && bodies == old(bodies) && op !in ops
      ensures !r.Ok? && !old(ops)[op].Written? ==> op !in ops
      ensures !r.Ok? && old(ops)[op].Written? ==> op in ops && ops[op] == Unregistered(TaskKey(ptr.id, OrphanKind(cmd)))
    {
      ghost var was := State();
      ghost var next := CommitStep(was, op, outcome);
      assert Run(Init, trace + [Commit(op, outcome)]) == next by {
        RunSnoc(trace, Commit(op, outcome));
      }
      CommitEnds(was, op, outcome);
      r := Execute(cmd, cur, ptr, outcome);
      trace := trace + [Commit(op, outcome)];
      ops := next.ops;
    }

    /** AppendOutsideTx of an orphan task, after the transaction reported an error. */
    method RegisterOrphanOutsideTx(ghost op: OpId, key: TaskKey, ok: bool)
      requires Valid() && op in ops && ops[op] == Unregistered(key)
      modifies `tasks, `ops, `lost, `trace
      ensures Valid() && trace == old(trace) + [RegisterOrphan(op, ok)] && op !in ops
      ensures tasks == if ok && key !in old(tasks) then old(tasks)[key := Task(Pending, 0, 0)] else old(tasks)
      ensures lost == if ok then old(lost) else old(lost) + {key.body}
    {
      RunSnoc(trace, RegisterOrphan(op, ok));
      trace := trace + [RegisterOrphan(op, ok)];
      if ok {
        tasks := UpsertCleanupTask(tasks, key);
      } else {
        lost := lost + {key.body};
      }
      ops := ops - {op};
    }

    method Parsed(ghost op: OpId, cmd: Command, cur: Post, hash: Hash) returns (same: bool)
      requires Valid() && NeedsParse(cmd) && hash != 0 && op in ops && ops[op] == Loaded(cmd, cur)
      modifies `ops, `trace
      ensures Valid() && trace == old(trace) + [ParseBody(op, hash)]
      ensures same <==> cmd.Save? && hash == cur.draft.hash
      ensures same ==> op !in ops
      ensures !same ==> op in ops && ops[op] == Validated(cmd, cur, hash)
    {
      RunSnoc(trace, ParseBody(op, hash));
      trace := trace + [ParseBody(op, hash)];
      same := cmd.Save? && hash == cur.draft.hash;
      ops := if same then ops - {op} else ops[op := Validated(cmd, cur, hash)];
    }

    // --------------------------------------------------------------------- the commands

    /** What is left to do when the second transaction of a writing command failed. */
    method AfterFailure(ghost op: OpId, key: TaskKey, registered: bool)
      requires Valid() && op in ops && ops[op] == Unregistered(key)
      modifies this
      ensures Valid() && old(trace) <= trace && op !in ops
      ensures trace[|trace| - 1] == RegisterOrphan(op, registered)
      ensures if registered then key in tasks else key.body in lost
    {
      Interfere(OfCommand(op));
      RegisterOrphanOutsideTx(op, key, registered);
    }

    /** SaveDraftBody. `checked` is what the parser and the file service say of the new
        body, `hash` its hash. A save that succeeds has replaced exactly the draft the
        author named, and the old one is in the hands of cleanup. `commit` is the number
        of the second transaction, if there is one. */
    method SaveDraftBody(ghost op: OpId, cmd: Command, checked: Fitness, hash: Hash, env: Conditions)
      returns (r: Outcome, ghost commit: nat)
      requires Valid() && cmd.Save? && op !in ops && (checked.Fit? ==> hash != 0)
      modifies this
      ensures Valid() && old(trace) <= trace && op !in ops && commit < |trace|
      ensures r.Succeeded? ==> SavedAs(cmd, hash)
      ensures
        if cmd.post !in old(posts) then r == Rejected(PostNotFound)
        else
          var row := old(posts)[cmd.post];
          if row.owner != cmd.actor then r == Rejected(NotOwner)
          else if row.status == Deleted then r == Rejected(PostDeleted)
          else if row.status == Scheduled || row.version != cmd.base || row.draft != cmd.draft then
            r == Rejected(Conflict)
          else if !checked.Fit? then r == Objection(checked)
          else if hash == row.draft.hash then r == Unchanged(row.version)
          else if env.written != Stored then r == Unavailable
          else trace[commit] == Commit(op, env.committed) && CommitAnswers(Before(trace, commit).db, cmd, env, false, r)
    {
      commit := |trace|;
      var verdict, cur := Load(op, cmd);
      if verdict.Rejects? {
        r := Rejected(verdict.why);
        return;
      }
      Interfere(OfCommand(op));
      if !checked.Fit? {
        GiveUp(op);
        r := Objection(checked);
        return;
      }
      var same := Parsed(op, cmd, cur, hash);
      if same {
        r := Unchanged(cur.version);
        return;
      }
      Interfere(OfCommand(op));
      r, commit := WriteAndSave(op, cmd, cur, hash, env);
    }

    method WriteAndSave(ghost op: OpId, cmd: Command, cur: Post, hash: Hash, env: Conditions)
      returns (r: Outcome, ghost commit: nat)
      requires Valid() && cmd.Save? && op in ops && ops[op] == Validated(cmd, cur, hash)
      modifies this
      ensures Valid() && old(trace) <= trace && op !in ops && |old(trace)| <= commit < |trace|
      ensures r.Succeeded? ==> SavedAs(cmd, hash)
      ensures if env.written != Stored then r == Unavailable
              else trace[commit] == Commit(op, env.committed) && CommitAnswers(Before(trace, commit).db, cmd, env, false, r)
    {
      commit := |trace|;
      var ok, id := WriteBodyUnder(op, cmd, cur, hash, env.written);
      if !ok {
        r := Unavailable;
        return;
      }
      Interfere(OfCommand(op));
      RunIsSound(trace);
      commit := |trace|;
      ghost var past := trace;
      r := FinishSave(op, cmd, cur, Ptr(id, hash), env);
      BeforeIs(past, trace);
    }

    /** The post holds the body of this save under the next version, and the draft the
        author named is in the hands of cleanup. */
    ghost predicate SavedAs(cmd: Command, hash: Hash)
      requires cmd.Save?
      reads this
    {
      && cmd.post in posts && posts[cmd.post].owner == cmd.actor
      && posts[cmd.post].version == cmd.base + 1 && posts[cmd.post].draft.hash == hash
      && posts[cmd.post].draft.id in bodies
      && bodies[posts[cmd.post].draft.id] == Body(hash, DraftBody)
      && (cmd.draft.id != 0 ==> cmd.draft.id != posts[cmd.post].draft.id && TaskKey(cmd.draft.id, OldDraft) in tasks)
    }

    method FinishSave(ghost op: OpId, cmd: Command, cur: Post, ptr: Ptr, env: Conditions) returns (r: Outcome)
      requires Valid() && Sound(State())
      requires cmd.Save? && op in ops && ops[op] == Written(cmd, cur, ptr.id, ptr.hash)
      modifies this
      ensures Valid() && old(trace) < trace && op !in ops
      ensures trace[|old(trace)|] == Commit(op, env.committed)
      ensures r.Succeeded? ==> SavedAs(cmd, ptr.hash)
      ensures CommitAnswers(old(Db()), cmd, env, false, r)
    {
      assert OpSound(Db(), bodies, issued, ops[op]);
      SavedOverUntouched(Db(), cmd, cur, ptr);
      AcceptedIffItFits(Db(), cmd, cur, ptr);
      var report := Transact(op, cmd, cur, ptr, env.committed);
      if report.Ok? {
        return Succeeded(report.version);
      }
      AfterFailure(op, TaskKey(ptr.id, OrphanDraft), env.registered);
      r := if report.Missed? && report.why in {Conflict, NotOwner, PostDeleted} then Rejected(report.why) else Unavailable;
    }

    // ----------------------------------------------------------------------- publishing

    /** The post is public under the next version, with a stored snapshot whose hash is
        that of the draft the author named; the event says so, and the draft is in the
        hands of cleanup. */
    ghost predicate PublishedAs(cmd: Command)
      requires cmd.Publish?
      reads this
    {
      && cmd.post in posts
      && posts[cmd.post].owner == cmd.actor && posts[cmd.post].status == Published
      && posts[cmd.post].version == cmd.base + 1 && posts[cmd.post].draft == NoPtr
      && posts[cmd.post].published.hash == cmd.draft.hash
      && posts[cmd.post].published.id in bodies
      && bodies[posts[cmd.post].published.id] == Body(cmd.draft.hash, Snapshot)
      && outbox != [] && outbox[|outbox| - 1] == PostPublished(cmd.post, cmd.base + 1, posts[cmd.post].published)
      && TaskKey(cmd.draft.id, OldDraft) in tasks
    }

    /** PublishPost. `draft` is what the checks of body, files and title length say of
        the draft read back, `rules` what the rules for title and text and the lookup of
        the author say. `read` and `commit` are the numbers of the read of the draft and
        of the second transaction, as far as it comes to them. */
    method PublishPost(ghost op: OpId, cmd: Command, draft: Fitness, rules: Fitness, env: Conditions)
      returns (r: Outcome, ghost read: nat, ghost commit: nat)
      requires Valid() && cmd.Publish? && op !in ops
      modifies this
      ensures Valid() && old(trace) <= trace && op !in ops && read <= |trace| && commit < |trace|
      ensures r.Succeeded? ==> PublishedAs(cmd) && draft.Fit? && rules.Fit?
      ensures
        if cmd.post !in old(posts) then r == Rejected(PostNotFound)
        else
          var row := old(posts)[cmd.post];
          if row.owner != cmd.actor then r == Rejected(NotOwner)
          else if row.status == Deleted then r == Rejected(PostDeleted)
          else if row.status == Published then r == Rejected(AlreadyPublished)
          else if row.draft.id == 0 || row.draft.hash == 0 then r == Rejected(BodyRequired)
          else if row.version != cmd.base || row.draft != cmd.draft then r == Rejected(Conflict)
          else if !env.readable then r == Unavailable
          else
            && read < |trace| && trace[read] == ReadBody(op)
            && var stored := Before(trace, read).bodies;
               if row.draft.id !in stored then r == Rejected(BodyUnavailable)
               else if stored[row.draft.id].hash != row.draft.hash then r == Rejected(BodyInconsistent)
               else if !draft.Fit? then r == Objection(draft)
               else if row.status != Draft then r == Rejected(Conflict)
               else if !rules.Fit? then r == Objection(rules)
               else if env.written != Stored then r == Unavailable
               else trace[commit] == Commit(op, env.committed)
                    && CommitAnswers(Before(trace, commit).db, cmd, env, true, r)
    {
      read, commit := 0, |trace|;
      var verdict, cur := Load(op, cmd);
      if verdict.Rejects? {
        r := Rejected(verdict.why);
        return;
      }
      Interfere(OfCommand(op));
      read := |trace|;
      ghost var past := trace;
      r, commit := ReadAndPublish(op, cmd, cur, draft, rules, env);
      BeforeIs(past, trace);
    }

    method ReadAndPublish(ghost op: OpId, cmd: Command, cur: Post, draft: Fitness, rules: Fitness, env: Conditions)
      returns (r: Outcome, ghost commit: nat)
      requires Valid() && cmd.Publish? && op in ops && ops[op] == Loaded(cmd, cur)
      modifies this
      ensures Valid() && old(trace) <= trace && op !in ops && commit < |trace|
      ensures r.Succeeded? ==> PublishedAs(cmd) && draft.Fit? && rules.Fit?
      ensures env.readable ==> |old(trace)| < |trace| && trace[|old(trace)|] == ReadBody(op)
      ensures
        if !env.readable then r == Unavailable
        else if cur.draft.id !in old(bodies) then r == Rejected(BodyUnavailable)
        else if old(bodies)[cur.draft.id].hash != cur.draft.hash then r == Rejected(BodyInconsistent)
        else if !draft.Fit? then r == Objection(draft)
        else if cur.status != Draft then r == Rejected(Conflict)
        else if !rules.Fit? then r == Objection(rules)
        else if env.written != Stored then r == Unavailable
        else trace[commit] == Commit(op, env.committed) && CommitAnswers(Before(trace, commit).db, cmd, env, true, r)
    {
      commit := |trace|;
      if !env.readable {
        GiveUp(op);
        r := Unavailable;
        return;
      }
      var verdict := ReadDraft(op, cmd, cur);
      if verdict.Rejects? && verdict.why != Conflict {
        r := Rejected(verdict.why);
        return;
      }
      if !draft.Fit? {
        if verdict.Passes? {
          GiveUp(op);
        }
        r := Objection(draft);
        return;
      }
      if verdict.Rejects? {
        r := Rejected(verdict.why);
        return;
      }
      if !rules.Fit? {
        GiveUp(op);
        r := Objection(rules);
        return;
      }
      Interfere(OfCommand(op));
      r, commit := WriteAndPublish(op, cmd, cur, env);
    }

    method WriteAndPublish(ghost op: OpId, cmd: Command, cur: Post, env: Conditions)
      returns (r: Outcome, ghost commit: nat)
      requires Valid() && cmd.Publish? && op in ops && ops[op] == Validated(cmd, cur, cur.draft.hash)
      modifies this
      ensures Valid() && old(trace) <= trace && op !in ops && |old(trace)| <= commit < |trace|
      ensures r.Succeeded? ==> PublishedAs(cmd)
      ensures if env.written != Stored then r == Unavailable
              else trace[commit] == Commit(op, env.committed) && CommitAnswers(Before(trace, commit).db, cmd, env, true, r)
    {
      commit := |trace|;
      var ok, id := WriteBodyUnder(op, cmd, cur, cur.draft.hash, env.written);
      if !ok {
        r := Unavailable;
        return;
      }
      Interfere(OfCommand(op));
      RunIsSound(trace);
      commit := |trace|;
      ghost var past := trace;
      r := FinishPublish(op, cmd, cur, Ptr(id, cur.draft.hash), env);
      BeforeIs(past, trace);
    }

    method FinishPublish(ghost op: OpId, cmd: Command, cur: Post, ptr: Ptr, env: Conditions) returns (r: Outcome)
      requires Valid() && Sound(State())
      requires cmd.Publish? && op in ops && ops[op] == Written(cmd, cur, ptr.id, ptr.hash)
      modifies this
      ensures Valid() && old(trace) < trace && op !in ops
      ensures trace[|old(trace)|] == Commit(op, env.committed)
      ensures r.Succeeded? ==> PublishedAs(cmd)
      ensures CommitAnswers(old(Db()), cmd, env, true, r)
    {
      assert OpSound(Db(), bodies, issued, ops[op]);
      PublishedRow(Db(), cmd, cur, ptr);
      AcceptedIffItFits(Db(), cmd, cur, ptr);
      var report := Transact(op, cmd, cur, ptr, env.committed);
      if report.Ok? {
        return Succeeded(report.version);
      }
      AfterFailure(op, TaskKey(ptr.id, OrphanSnapshot), env.registered);
      r := if env.registered && report.Missed? && report.why in {Conflict, NotOwner, PostDeleted, AlreadyPublished}
           then Rejected(report.why) else Unavailable;
    }

    // ---------------------------------------------- creation and the body-less commands

    /** CreatePost: the body, if any, is written before the row exists. `commit` is the
        number of the insertion, if it comes to it, and `created` the id of the new row. */
    method CreatePost(ghost op: OpId, owner: UserId, withBody: bool, ids: seq<PostId>, checked: Fitness, hash: Hash,
                      env: Conditions)
      returns (r: Outcome, ghost created: PostId, ghost commit: nat)
      requires Valid() && op !in ops && (checked.Fit? ==> hash != 0)
      modifies this
      ensures Valid() && old(trace) <= trace && op !in ops && commit < |trace|
      ensures r.Succeeded? ==>
                && created in ids && created in posts
                && posts[created] == Post(owner, Draft, 1, posts[created].draft, NoPtr)
                && (if withBody then posts[created].draft.hash == hash && posts[created].draft.id in bodies
                    else posts[created].draft == NoPtr)
      ensures if withBody && !checked.Fit? then r == Objection(checked)
              else if withBody && env.written != Stored then r == Unavailable
              else trace[commit] == Commit(op, env.committed) && CreationAnswers(Before(trace, commit).db, ids, env, r, created)
    {
      var cmd := Create(owner, withBody, ids);
      var cur := NewPost(owner);
      created, commit := 0, |trace|;
      RunSnoc(trace, Begin(op, cmd));
      trace, ops := trace + [Begin(op, cmd)], ops[op := Loaded(cmd, cur)];
      if !withBody {
        Interfere(OfCommand(op));
        commit := |trace|;
        ghost var past := trace;
        r, created := Insert(op, owner, withBody, ids, NoPtr, env);
        BeforeIs(past, trace);
        return;
      }
      if !checked.Fit? {
        GiveUp(op);
        r := Objection(checked);
        return;
      }
      var _ := Parsed(op, cmd, cur, hash);
      r, created, commit := WriteAndInsert(op, owner, ids, hash, env);
    }

    method WriteAndInsert(ghost op: OpId, owner: UserId, ids: seq<PostId>, hash: Hash, env: Conditions)
      returns (r: Outcome, ghost created: PostId, ghost commit: nat)
      requires Valid() && op in ops && ops[op] == Validated(Create(owner, true, ids), NewPost(owner), hash)
      modifies this
      ensures Valid() && old(trace) <= trace && op !in ops && commit < |trace|
      ensures r.Succeeded? ==>
                && created in ids && created in posts && posts[created].draft.id in bodies
                && posts[created] == Post(owner, Draft, 1, Ptr(posts[created].draft.id, hash), NoPtr)
      ensures if env.written != Stored then r == Unavailable
              else trace[commit] == Commit(op, env.committed) && CreationAnswers(Before(trace, commit).db, ids, env, r, created)
    {
      created := 0;
      Interfere(OfCommand(op));
      var ok, id := WriteBodyUnder(op, Create(owner, true, ids), NewPost(owner), hash, env.written);
      if !ok {
        r, commit := Unavailable, 0;
        return;
      }
      Interfere(OfCommand(op));
      RunIsSound(trace);
      assert OpSound(Db(), bodies, issued, ops[op]);
      commit := |trace|;
      ghost var past := trace;
      r, created := Insert(op, owner, true, ids, Ptr(id, hash), env);
      BeforeIs(past, trace);
    }

    method Insert(ghost op: OpId, owner: UserId, ghost withBody: bool, ids: seq<PostId>, ptr: Ptr, env: Conditions)
      returns (r: Outcome, ghost created: PostId)
      requires Valid() && op in ops
      requires if ptr == NoPtr then !withBody && ops[op] == Loaded(Create(owner, withBody, ids), NewPost(owner))
               else ops[op] == Written(Create(owner, withBody, ids), NewPost(owner), ptr.id, ptr.hash)
      modifies this
      ensures Valid() && old(trace) < trace && op !in ops
      ensures trace[|old(trace)|] == Commit(op, env.committed)
      ensures r.Succeeded? ==> created in ids && created in posts && posts[created] == Post(owner, Draft, 1, ptr, NoPtr)
      ensures r.Succeeded? ==> bodies == old(bodies)
      ensures CreationAnswers(old(Db()), ids, env, r, created)
    {
      ghost var was := State();
      created := 0;
      ghost var next := CommitStep(was, op, env.committed);
      assert Run(Init, trace + [Commit(op, env.committed)]) == next by {
        RunSnoc(trace, Commit(op, env.committed));
      }
      CreationEnds(was, op, env.committed, ptr);
      CreatedIffAnIdIsFree(was.db, owner, ids, ptr);
      var report := CreateDraft(owner, ids, ptr, env.committed);
      trace := trace + [Commit(op, env.committed)];
      ops := next.ops;
      if report.Ok? {
        created := InsertedRow(was.db, owner, ids, ptr);
        r := Succeeded(1);
        return;
      }
      if ptr != NoPtr {
        AfterFailure(op, TaskKey(ptr.id, OrphanDraft), env.registered);
      }
      r := Unavailable;
    }

    /** The commands that load a post and update its row without a body: unpublish,
        delete, restore, cancel a schedule, edit the metadata. */
    method MutatePost(ghost op: OpId, cmd: Command, env: Conditions) returns (r: Outcome, ghost commit: nat)
      requires Valid() && (cmd.Lifecycle? || cmd.UpdateMeta?) && op !in ops
      modifies this
      ensures Valid() && old(trace) <= trace && op !in ops && commit < |trace|
      ensures r.Succeeded? ==>
                cmd.post in posts && posts[cmd.post].version == r.version && posts[cmd.post].owner == cmd.actor
      ensures r.Succeeded? && cmd.Lifecycle? ==>
                posts[cmd.post].status == (if cmd.kind == Delete then Deleted else Draft) && cmd.post !in schedules
      ensures
        if cmd.post !in old(posts) then r == Rejected(PostNotFound)
        else
          var row := old(posts)[cmd.post];
          if row.owner != cmd.actor then r == Rejected(NotOwner)
          else if cmd.UpdateMeta? && row.status == Deleted then r == Rejected(PostDeleted)
          else if cmd.UpdateMeta? && (row.status == Scheduled || row.version != cmd.base) then r == Rejected(Conflict)
          else if cmd.Lifecycle? && cmd.kind != Restore && row.status == Deleted then r == Rejected(PostDeleted)
          else if cmd.Lifecycle? && cmd.kind == Restore && row.status != Deleted then r == Rejected(PostNotFound)
          else if cmd.Lifecycle? && cmd.kind == Unpublish && row.status != Published then r == Rejected(NotPublished)
          else if cmd.Lifecycle? && cmd.kind == CancelSchedule && row.status != Scheduled then r == Rejected(NotPublished)
          else trace[commit] == Commit(op, env.committed) && CommitAnswers(Before(trace, commit).db, cmd, env, false, r)
    {
      commit := |trace|;
      var verdict, cur := Load(op, cmd);
      if verdict.Rejects? {
        r := Rejected(verdict.why);
        return;
      }
      Interfere(OfCommand(op));
      commit := |trace|;
      ghost var past := trace;
      r := FinishMutation(op, cmd, cur, env);
      BeforeIs(past, trace);
    }

    method FinishMutation(ghost op: OpId, cmd: Command, cur: Post, env: Conditions) returns (r: Outcome)
      requires Valid() && (cmd.Lifecycle? || cmd.UpdateMeta?) && op in ops && ops[op] == Loaded(cmd, cur)
      modifies this
      ensures Valid() && trace == old(trace) + [Commit(op, env.committed)] && op !in ops
      ensures r.Succeeded? ==>
                cmd.post in posts && posts[cmd.post].version == r.version && posts[cmd.post].owner == cmd.actor
      ensures r.Succeeded? && cmd.Lifecycle? ==>
                posts[cmd.post].status == (if cmd.kind == Delete then Deleted else Draft) && cmd.post !in schedules
      ensures CommitAnswers(old(Db()), cmd, env, false, r)
    {
      RunIsGood(trace);
      MutatedRow(Db(), cmd, cur);
      AcceptedIffItFits(Db(), cmd, cur, NoPtr);
      var report := Transact(op, cmd, cur, NoPtr, env.committed);
      match report
      case Ok(version) => r := Succeeded(version);
      case Missed(why) => r := if cmd.UpdateMeta? && why == PostNotFound then Unavailable else Rejected(why);
      case TxError => r := Unavailable;
    }

    /** SchedulePost: the pending row pins the draft that was read and checked. `draft`
        is what all the checks of a publication say of it. */
    method SchedulePost(ghost op: OpId, cmd: Command, draft: Fitness, env: Conditions)
      returns (r: Outcome, ghost read: nat, ghost commit: nat)
      requires Valid() && cmd.Schedule? && op !in ops
      modifies this
      ensures Valid() && old(trace) <= trace && op !in ops && read <= |trace| && commit < |trace|
      ensures r.Succeeded? ==> ScheduledAs(cmd) && draft.Fit?
      ensures
        if cmd.post !in old(posts) then r == Rejected(PostNotFound)
        else
          var row := old(posts)[cmd.post];
          if row.owner != cmd.actor then r == Rejected(NotOwner)
          else if row.status == Deleted then r == Rejected(PostDeleted)
          else if row.status != Draft || row.version != cmd.base || row.draft != cmd.draft then r == Rejected(Conflict)
          else if row.draft.id == 0 || row.draft.hash == 0 then r == Rejected(BodyRequired)
          else if !env.readable then r == Unavailable
          else
            && read < |trace| && trace[read] == ReadBody(op)
            && var stored := Before(trace, read).bodies;
               if row.draft.id !in stored then r == Rejected(BodyUnavailable)
               else if stored[row.draft.id].hash != row.draft.hash then r == Rejected(BodyInconsistent)
               else if !draft.Fit? then r == Objection(draft)
               else trace[commit] == Commit(op, env.committed)
                    && CommitAnswers(Before(trace, commit).db, cmd, env, false, r)
    {
      read, commit := 0, |trace|;
      var verdict, cur := Load(op, cmd);
      if verdict.Rejects? {
        r := Rejected(verdict.why);
        return;
      }
      Interfere(OfCommand(op));
      read := |trace|;
      ghost var past := trace;
      r, commit := ReadAndSchedule(op, cmd, cur, draft, env);
      BeforeIs(past, trace);
    }

    method ReadAndSchedule(ghost op: OpId, cmd: Command, cur: Post, draft: Fitness, env: Conditions)
      returns (r: Outcome, ghost commit: nat)
      requires Valid() && cmd.Schedule? && op in ops && ops[op] == Loaded(cmd, cur) && cur.status == Draft
      modifies this
      ensures Valid() && old(trace) <= trace && op !in ops && commit < |trace|
      ensures r.Succeeded? ==> ScheduledAs(cmd) && draft.Fit?
      ensures env.readable ==> |old(trace)| < |trace| && trace[|old(trace)|] == ReadBody(op)
      ensures
        if !env.readable then r == Unavailable
        else if cur.draft.id !in old(bodies) then r == Rejected(BodyUnavailable)
        else if old(bodies)[cur.draft.id].hash != cur.draft.hash then r == Rejected(BodyInconsistent)
        else if !draft.Fit? then r == Objection(draft)
        else trace[commit] == Commit(op, env.committed) && CommitAnswers(Before(trace, commit).db, cmd, env, false, r)
    {
      commit := |trace|;
      if !env.readable {
        GiveUp(op);
        r := Unavailable;
        return;
      }
      var verdict := ReadDraft(op, cmd, cur);
      if verdict.Rejects? {
        r := Rejected(verdict.why);
        return;
      }
      if !draft.Fit? {
        GiveUp(op);
        r := Objection(draft);
        return;
      }
      Interfere(OfCommand(op));
      commit := |trace|;
      ghost var past := trace;
      r := FinishSchedule(op, cmd, cur, env);
      BeforeIs(past, trace);
    }

    /** The post waits under the next version, and the pending row pins the draft that
        was named. */
    ghost predicate ScheduledAs(cmd: Command)
      requires cmd.Schedule?
      reads this
    {
      && cmd.post in posts && posts[cmd.post].status == Scheduled && posts[cmd.post].version == cmd.base + 1
      && posts[cmd.post].draft == cmd.draft && cmd.post in schedules && schedules[cmd.post] == cmd.draft
    }

    method FinishSchedule(ghost op: OpId, cmd: Command, cur: Post, env: Conditions) returns (r: Outcome)
      requires Valid() && cmd.Schedule? && op in ops && ops[op] == Validated(cmd, cur, cur.draft.hash)
      modifies this
      ensures Valid() && trace == old(trace) + [Commit(op, env.committed)] && op !in ops
      ensures r.Succeeded? ==> ScheduledAs(cmd)
      ensures CommitAnswers(old(Db()), cmd, env, false, r)
    {
      AcceptedIffItFits(Db(), cmd, cur, NoPtr);
      var report := Transact(op, cmd, cur, NoPtr, env.committed);
      match report
      case Ok(version) => r := Succeeded(version);
      case Missed(why) => r := Rejected(why);
      case TxError => r := Unavailable;
    }

    /** DeleteAuthorDraft, in one transaction. */
    method DeleteAuthorDraft(post: PostId, actor: UserId) returns (r: Outcome)
      requires Valid()
      modifies `posts, `tasks, `trace
      ensures Valid() && trace == old(trace) + [DeleteDraft(post, actor)]
      ensures r == if post !in old(posts) then Rejected(PostNotFound)
                   else if old(posts)[post].owner != actor then Rejected(NotOwner)
                   else if old(posts)[post].status == Deleted then Rejected(PostDeleted)
                   else if old(posts)[post].status == Scheduled then Rejected(Conflict)
                   else Succeeded(old(posts)[post].version + 1)
      ensures !r.Succeeded? ==> posts == old(posts) && tasks == old(tasks)
      ensures r.Succeeded? ==>
                && posts == old(posts)[post := old(posts)[post].(draft := NoPtr, version := r.version)]
                && (old(posts)[post].draft.id != 0 ==> TaskKey(old(posts)[post].draft.id, OldDraft) in tasks)
    {
      RunSnoc(trace, DeleteDraft(post, actor));
      trace := trace + [DeleteDraft(post, actor)];
      if post !in posts {
        return Rejected(PostNotFound);
      }
      var current := posts[post];
      if current.owner != actor {
        return Rejected(NotOwner);
      }
      if current.status == Deleted {
        return Rejected(PostDeleted);
      }
      if current.status == Scheduled {
        return Rejected(Conflict);
      }
      posts := posts[post := current.(draft := NoPtr, version := current.version + 1)];
      if current.draft.id != 0 {
        tasks := UpsertCleanupTask(tasks, TaskKey(current.draft.id, OldDraft));
      }
      r := Succeeded(current.version + 1);
    }

    /** DeleteAdminPost, in one transaction. */
    method DeleteAdminPost(post: PostId) returns (r: Outcome)
      requires Valid()
      modifies `posts, `schedules, `outbox, `trace
      ensures Valid() && trace == old(trace) + [AdminDelete(post)]
      ensures r == if post !in old(posts) then Rejected(PostNotFound)
                   else if old(posts)[post].status == Deleted then Rejected(PostDeleted)
                   else Succeeded(old(posts)[post].version + 1)
      ensures !r.Succeeded? ==> posts == old(posts) && schedules == old(schedules) && outbox == old(outbox)
      ensures r.Succeeded? ==>
                && posts == old(posts)[post := old(posts)[post].(status := Deleted, version := r.version)]
                && post !in schedules
                && outbox == old(outbox) + [VisibilityChanged(post, r.version,
                                                              if old(posts)[post].status == Published then Public
                                                              else Unpublished, Removed, false)]
    {
      RunSnoc(trace, AdminDelete(post));
      trace := trace + [AdminDelete(post)];
      if post !in posts {
        return Rejected(PostNotFound);
      }
      var before := posts[post];
      if before.status == Deleted {
        return Rejected(PostDeleted);
      }
      var after := before.(status := Deleted, version := before.version + 1);
      posts := posts[post := after];
      schedules := schedules - {post};
      outbox := outbox + [VisibilityChanged(post, after.version, VisibilityOf(before.status), VisibilityOf(Deleted),
                                            false)];
      r := Succeeded(after.version);
    }

    // ------------------------------------------------------------------ the cleanup worker

    /** One row of a claim: pending, failed or stale. */
    method ClaimTask(ghost act: ActId, worker: WorkerId, key: TaskKey)
      requires Valid() && act !in acts && worker != 0 && key in tasks && tasks[key].status !in {Done, Dead}
      modifies `tasks, `acts, `trace
      ensures Valid() && trace == old(trace) + [Claim(act, worker, key)]
      ensures act in acts && acts[act] == Activity.Claimed(key, worker)
      ensures tasks == old(tasks)[key := Task(Processing, worker, old(tasks)[key].attempts + 1)]
    {
      RunSnoc(trace, Claim(act, worker, key));
      trace := trace + [Claim(act, worker, key)];
      tasks := tasks[key := Task(Processing, worker, tasks[key].attempts + 1)];
      acts := acts[act := Activity.Claimed(key, worker)];
    }

    /** IsBodyReferenced. `ok` is whether the database answers. */
    method CheckUnreferenced(ghost act: ActId, key: TaskKey, ghost worker: WorkerId, ok: bool)
      returns (unreferenced: bool)
      requires Valid() && act in acts && acts[act] == Activity.Claimed(key, worker)
      modifies `acts, `trace
      ensures Valid() && trace == old(trace) + [CheckReference(act, ok)] && act in acts
      ensures unreferenced <==> ok && !Referenced(Db(), key.body)
      ensures acts[act] == if unreferenced then Unreferenced(key, worker) else GaveUp(key, worker)
    {
      RunSnoc(trace, CheckReference(act, ok));
      trace := trace + [CheckReference(act, ok)];
      unreferenced := ok && !Referenced(Db(), key.body);
      acts := acts[act := if unreferenced then Unreferenced(key, worker) else GaveUp(key, worker)];
    }

    /** DeleteBody. `ok` is whether the store reports success; when it does not,
        `removed` is whether the body is gone all the same. */
    method DeleteStoredBody(ghost act: ActId, key: TaskKey, ghost worker: WorkerId, ok: bool, removed: bool)
      requires Valid() && act in acts && acts[act] == Unreferenced(key, worker)
      modifies `bodies, `acts, `trace
      ensures Valid() && trace == old(trace) + [DeleteBody(act, ok, removed)] && act in acts
      ensures bodies == if ok || removed then old(bodies) - {key.body} else old(bodies)
      ensures acts[act] == if ok then Handled(key, worker) else GaveUp(key, worker)
    {
      RunSnoc(trace, DeleteBody(act, ok, removed));
      trace := trace + [DeleteBody(act, ok, removed)];
      if ok || removed {
        bodies := bodies - {key.body};
      }
      acts := acts[act := if ok then Handled(key, worker) else GaveUp(key, worker)];
    }

    /** MarkSucceeded or MarkFailed: true when the claim was still the worker's own. */
    method Mark(ghost act: ActId, key: TaskKey, worker: WorkerId, succeeded: bool, threshold: nat) returns (owned: bool)
      requires Valid() && act in acts
      requires acts[act] == if succeeded then Handled(key, worker) else GaveUp(key, worker)
      modifies `tasks, `acts, `trace
      ensures Valid() && trace == old(trace) + [Acknowledge(act, threshold)] && act !in acts
      ensures Marks(old(tasks), key, worker, succeeded, threshold, owned, tasks)
    {
      RunSnoc(trace, Acknowledge(act, threshold));
      trace := trace + [Acknowledge(act, threshold)];
      acts := acts - {act};
      if key !in tasks || tasks[key].status != Processing || tasks[key].claimedBy != worker {
        return false;
      }
      var task := tasks[key];
      if succeeded {
        tasks := tasks[key := task.(status := Done)];
      } else {
        tasks := tasks[key := Task(if task.attempts >= threshold then Dead else Failed, 0, task.attempts)];
      }
      owned := true;
    }

    /** One claimed task: check, delete, acknowledge. It is handled exactly when the
        reference check answered, no post named the body at that moment, and the
        deletion succeeded; a handled task leaves its body neither stored nor referenced,
        whatever happened between check and deletion. A task that was not handled is
        failed or, at the threshold, dead, and free to be claimed. */
    method HandleTask(ghost act: ActId, key: TaskKey, worker: WorkerId, threshold: nat,
                      checkOk: bool, deleteOk: bool, removed: bool)
      returns (handled: bool, owned: bool, ghost check: nat)
      requires Valid() && act in acts && acts[act] == Activity.Claimed(key, worker)
      modifies this
      ensures Valid() && old(trace) <= trace && act !in acts
      ensures |old(trace)| <= check < |trace| && trace[check] == CheckReference(act, checkOk)
      ensures handled <==> checkOk && deleteOk && !Referenced(Before(trace, check).db, key.body)
      ensures handled ==> key.body !in bodies && !Referenced(Db(), key.body)
      ensures trace[|trace| - 1] == Acknowledge(act, threshold)
      ensures Marks(Before(trace, |trace| - 1).db.tasks, key, worker, handled, threshold, owned, tasks)
    {
      Interfere(OfWorker(act));
      check := |trace|;
      ghost var past := trace;
      handled := CheckAndDelete(act, key, worker, checkOk, deleteOk, removed);
      Interfere(OfWorker(act));
      HandledIsGone(trace, act);
      ghost var last := trace;
      owned := Mark(act, key, worker, handled, threshold);
      BeforeIs(past, trace);
      BeforeIs(last, trace);
    }

    method CheckAndDelete(ghost act: ActId, key: TaskKey, worker: WorkerId, checkOk: bool, deleteOk: bool, removed: bool)
      returns (handled: bool)
      requires Valid() && act in acts && acts[act] == Activity.Claimed(key, worker)
      modifies this
      ensures Valid() && old(trace) < trace && trace[|old(trace)|] == CheckReference(act, checkOk)
      ensures handled <==> checkOk && deleteOk && !Referenced(old(Db()), key.body)
      ensures act in acts && acts[act] == if handled then Handled(key, worker) else GaveUp(key, worker)
    {
      var unreferenced := CheckUnreferenced(act, key, worker, checkOk);
      handled := false;
      if unreferenced {
        Interfere(OfWorker(act));
        DeleteStoredBody(act, key, worker, deleteOk, removed);
        handled := deleteOk;
      }
    }
  }

  /** A worker that deleted a body finds it gone and unreferenced for good. */
  lemma HandledIsGone(steps: seq<Step>, act: ActId)
    requires act in Run(Init, steps).acts
    ensures var w := Run(Init, steps);
            w.acts[act].Handled? ==> w.acts[act].key.body !in w.bodies && !Referenced(w.db, w.acts[act].key.body)
  {
    RunIsSound(steps);
    var w := Run(Init, steps);
    var key := w.acts[act].key;
    assert ActSound(w.db, w.bodies, w.acts[act]);
    assert TaskSound(w.db, w.bodies, w.issued, key);
    if w.acts[act].Handled? && Referenced(w.db, key.body) {
      ReferencedIsStored(w, key.body);
    }
  }

  lemma InsertedRow(db: Tables, owner: UserId, ids: seq<PostId>, ptr: Ptr) returns (created: PostId)
    requires CreateTx(db, owner, ids, ptr).Accepted?
    ensures created in ids && CreateTx(db, owner, ids, ptr) == Inserted(db, owner, created, ptr)
    ensures exists k :: 0 <= k < 3 && k < |ids| && ids[k] == created && created !in db.posts
                        && forall j :: 0 <= j < k ==> ids[j] in db.posts
  {
    var k := if ids[0] !in db.posts then 0 else if ids[1] !in db.posts then 1 else 2;
    created := ids[k];
    assert 0 <= k < 3 && k < |ids| && ids[k] == created && created !in db.posts;
  }

  lemma PublishedRow(db: Tables, cmd: Command, cur: Post, ptr: Ptr)
    requires cmd.Publish? && Check(cmd, cur) == Passes
    ensures PublishTx(db, cmd, cur, ptr).Accepted? ==>
              var db' := PublishTx(db, cmd, cur, ptr).db;
              && cmd.post in db'.posts
              && db'.posts[cmd.post] == Post(cmd.actor, Published, cmd.base + 1, NoPtr, ptr)
              && db'.outbox == db.outbox + [PostPublished(cmd.post, cmd.base + 1, ptr)]
              && TaskKey(cmd.draft.id, OldDraft) in db'.tasks
  {
  }

  lemma MutatedRow(db: Tables, cmd: Command, cur: Post)
    requires (cmd.Lifecycle? || cmd.UpdateMeta?) && Pinned(db)
    ensures CommitTx(db, cmd, cur, NoPtr).Accepted? ==>
              var db' := CommitTx(db, cmd, cur, NoPtr).db;
              && cmd.post in db'.posts && db'.posts[cmd.post].owner == cmd.actor
              && (cmd.Lifecycle? ==> db'.posts[cmd.post].status == Target(cmd.kind) && cmd.post !in db'.schedules)
  {
  }

  /** How a second transaction on an existing post leaves the world. */
  lemma CommitEnds(w: World, op: OpId, outcome: TxOutcome)
    requires op in w.ops && ReadyToCommit(w.ops[op]) && !w.ops[op].cmd.Create?
    ensures var o, w' := w.ops[op], CommitStep(w, op, outcome);
            var tx := CommitTx(w.db, o.cmd, o.cur, NewPtr(o));
            var r := ReportOf(tx, o.cmd.post, outcome);
            && w' == w.(ops := w'.ops, db := if tx.Accepted? && outcome != Aborted then tx.db else w.db)
            && (r.Ok? ==> tx.Accepted? && w'.db == tx.db)
            && (r.Ok? || !o.Written? ==> op !in w'.ops)
            && (!r.Ok? && o.Written? ==>
                  op in w'.ops && w'.ops[op] == Unregistered(TaskKey(NewPtr(o).id, OrphanKind(o.cmd))))
  {
    var o := w.ops[op];
    assert CommitTx(w.db, o.cmd, o.cur, NewPtr(o)).Accepted? ==>
        o.cmd.post in CommitTx(w.db, o.cmd, o.cur, NewPtr(o)).db.posts;
  }

  lemma CreationEnds(w: World, op: OpId, outcome: TxOutcome, ptr: Ptr)
    requires op in w.ops && (w.ops[op].Loaded? || w.ops[op].Written?)
    requires w.ops[op].cmd.Create? && ReadyToCommit(w.ops[op]) && NewPtr(w.ops[op]) == ptr
    ensures var o, w' := w.ops[op], CommitStep(w, op, outcome);
            var tx := CreateTx(w.db, o.cmd.owner, o.cmd.ids, ptr);
            && w' == w.(ops := w'.ops, db := if tx.Accepted? && outcome != Aborted then tx.db else w.db)
            && ((tx.Accepted? && outcome == Reported) || !o.Written? ==> op !in w'.ops)
            && (!(tx.Accepted? && outcome == Reported) && o.Written? ==>
                  op in w'.ops && w'.ops[op] == Unregistered(TaskKey(ptr.id, OrphanDraft)))
  {
  }

  /** What an accepted save leaves: the row under its next version, and a draft let
      go that is not the new body. */
  lemma SavedOverUntouched(db: Tables, cmd: Command, cur: Post, ptr: Ptr)
    requires cmd.Save? && Check(cmd, cur) == Passes && Untouched(db, ptr.id)
    ensures SaveTx(db, cmd, cur, ptr).Accepted? ==>
              var db' := SaveTx(db, cmd, cur, ptr).db;
              && cmd.post in db'.posts && db'.posts[cmd.post].owner == cmd.actor
              && db'.posts[cmd.post].version == cmd.base + 1 && db'.posts[cmd.post].draft == ptr
              && (cmd.draft.id != 0 ==> cmd.draft.id != ptr.id && TaskKey(cmd.draft.id, OldDraft) in db'.tasks)
  {
    if SaveTx(db, cmd, cur, ptr).Accepted? {
      assert Names(db.posts[cmd.post], cmd.draft.id);
    }
  }
}
