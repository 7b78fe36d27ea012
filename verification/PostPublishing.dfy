/** Schedules, visibility events and version numbers ride on the transactions of
    `Posts`; what they promise holds in every reachable state. */
module PostPublishing {
  import opened Posts
  import opened PostProtocol
  import opened PostSafety

  // ------------------------------------------------------------ what always holds

  /** A post is scheduled exactly when it has a pending row, which names its draft. */
  ghost predicate Pinned(db: Tables) {
    && (forall p :: p in db.schedules <==> p in db.posts && db.posts[p].status == Scheduled)
    && (forall p :: p in db.schedules ==> db.schedules[p] == db.posts[p].draft && !db.schedules[p].IsZero())
  }

  /** What a consumer that replays the events in order takes a post for. */
  predicate Visible(log: seq<Event>, p: PostId)
    decreases |log|
  {
    if log == [] then false
    else
      var e := log[|log| - 1];
      if e.post != p then Visible(log[..|log| - 1], p)
      else e.PostPublished? || e.publicVisible
  }

  ghost predicate Announced(db: Tables) {
    forall p: PostId :: Visible(db.outbox, p) <==> p in db.posts && db.posts[p].status == Published
  }

  /** The events of a post carry growing versions, none above its own. */
  ghost predicate Ordered(db: Tables) {
    && (forall i :: 0 <= i < |db.outbox| ==>
          db.outbox[i].post in db.posts && db.outbox[i].version <= db.posts[db.outbox[i].post].version)
    && (forall i, j :: 0 <= i < j < |db.outbox| && db.outbox[i].post == db.outbox[j].post ==>
          db.outbox[i].version < db.outbox[j].version)
  }

  // ---------------------------------------------------- a transaction on one post

  /** One post is written under its next version, or created; at most one event is
      added, under that version; the pending rows of the others stay. */
  ghost predicate Touches(db: Tables, db': Tables, p: PostId) {
    && p in db'.posts
    && db'.posts == db.posts[p := db'.posts[p]]
    && db'.posts[p].version == (if p in db.posts then db.posts[p].version else 0) + 1
    && (forall q :: q != p ==> (q in db'.schedules <==> q in db.schedules))
    && (forall q :: q != p && q in db.schedules ==> db'.schedules[q] == db.schedules[q])
    && (db'.outbox == db.outbox || Appends(db, db', p))
  }

  predicate Appends(db: Tables, db': Tables, p: PostId) {
    && |db'.outbox| == |db.outbox| + 1 && db'.outbox == db.outbox + [db'.outbox[|db.outbox|]]
    && db'.outbox[|db.outbox|].post == p
    && p in db'.posts && db'.outbox[|db.outbox|].version == db'.posts[p].version
  }

  /** What the transaction does to the post itself. */
  ghost predicate Steps(db: Tables, db': Tables, p: PostId)
    requires p in db'.posts
  {
    var wasPublished := p in db.posts && db.posts[p].status == Published;
    var isPublished := db'.posts[p].status == Published;
    && (p in db'.schedules <==> db'.posts[p].status == Scheduled)
    && (p in db'.schedules ==> db'.schedules[p] == db'.posts[p].draft && !db'.schedules[p].IsZero())
    && (if db'.outbox == db.outbox then wasPublished == isPublished
        else Appends(db, db', p) && isPublished == Visible([db'.outbox[|db.outbox|]], p))
  }

  lemma TouchKeepsPinned(db: Tables, db': Tables, p: PostId)
    requires Pinned(db) && Touches(db, db', p) && Steps(db, db', p)
    ensures Pinned(db')
  {
  }

  lemma VisibleAfter(log: seq<Event>, e: Event, p: PostId)
    ensures Visible(log + [e], p) == if e.post == p then Visible([e], p) else Visible(log, p)
  {
    assert (log + [e])[..|log|] == log;
  }

  lemma TouchKeepsAnnounced(db: Tables, db': Tables, p: PostId)
    requires Announced(db) && Touches(db, db', p) && Steps(db, db', p)
    ensures Announced(db')
  {
    forall q: PostId
      ensures Visible(db'.outbox, q) <==> q in db'.posts && db'.posts[q].status == Published
    {
      assert Visible(db.outbox, q) <==> q in db.posts && db.posts[q].status == Published;
      if db'.outbox != db.outbox {
        VisibleAfter(db.outbox, db'.outbox[|db.outbox|], q);
      }
    }
  }

  lemma TouchKeepsOrdered(db: Tables, db': Tables, p: PostId)
    requires Ordered(db) && Touches(db, db', p)
    ensures Ordered(db')
  {
    forall i | 0 <= i < |db'.outbox|
      ensures db'.outbox[i].post in db'.posts && db'.outbox[i].version <= db'.posts[db'.outbox[i].post].version
    {
      if i < |db.outbox| {
        assert db'.outbox[i] == db.outbox[i];
      }
    }
  }

  // ---------------------------------------------------------- each transaction does

  ghost predicate Good(db: Tables) {
    Pinned(db) && Announced(db) && Ordered(db)
  }

  lemma TouchKeepsGood(db: Tables, db': Tables, p: PostId)
    requires Good(db) && Touches(db, db', p) && Steps(db, db', p)
    ensures Good(db')
  {
    TouchKeepsPinned(db, db', p);
    TouchKeepsAnnounced(db, db', p);
    TouchKeepsOrdered(db, db', p);
  }

  lemma CreateTouches(db: Tables, owner: UserId, ids: seq<PostId>, ptr: Ptr) returns (p: PostId)
    requires Pinned(db) && CreateTx(db, owner, ids, ptr).Accepted?
    ensures p !in db.posts && p in ids
    ensures Touches(db, CreateTx(db, owner, ids, ptr).db, p) && Steps(db, CreateTx(db, owner, ids, ptr).db, p)
    ensures CreateTx(db, owner, ids, ptr) == Inserted(db, owner, p, ptr)
  {
    p := if ids[0] !in db.posts then ids[0] else if ids[1] !in db.posts then ids[1] else ids[2];
  }

  lemma CommandTouches(db: Tables, cmd: Command, cur: Post, ptr: Ptr)
    requires Pinned(db) && !cmd.Create? && Check(cmd, cur) == Passes && CommitTx(db, cmd, cur, ptr).Accepted?
    ensures var db' := CommitTx(db, cmd, cur, ptr).db;
            cmd.post in db.posts && Touches(db, db', cmd.post) && Steps(db, db', cmd.post)
  {
    match cmd
    case Save(_, _, _, _) =>
    case Publish(_, _, _, _) =>
    case Schedule(_, _, _, _) =>
    case UpdateMeta(_, _, _) =>
    case Lifecycle(_, _, _, _) =>
  }

  lemma DeleteDraftTouches(db: Tables, post: PostId, actor: UserId)
    requires Pinned(db) && DeleteDraftTx(db, post, actor).Accepted?
    ensures var db' := DeleteDraftTx(db, post, actor).db;
            post in db.posts && Touches(db, db', post) && Steps(db, db', post)
  {
  }

  lemma AdminDeleteTouches(db: Tables, post: PostId)
    requires Pinned(db) && AdminDeleteTx(db, post).Accepted?
    ensures var db' := AdminDeleteTx(db, post).db;
            post in db.posts && Touches(db, db', post) && Steps(db, db', post)
  {
  }

  // ----------------------------------------------------------------- over all runs

  /** Every step either leaves posts, schedules and events alone or is a transaction
      on one post. */
  predicate SamePublishing(db: Tables, db': Tables) {
    db'.posts == db.posts && db'.schedules == db.schedules && db'.outbox == db.outbox
  }

  ghost predicate TouchesOne(db: Tables, db': Tables) {
    exists p :: p in db'.posts && Touches(db, db', p) && Steps(db, db', p)
  }

  lemma CommitTouches(w: World, op: OpId, outcome: TxOutcome)
    requires Sound(w) && Pinned(w.db)
    ensures var db' := CommitStep(w, op, outcome).db; SamePublishing(w.db, db') || TouchesOne(w.db, db')
  {
    var db' := CommitStep(w, op, outcome).db;
    if db' != w.db {
      var o := w.ops[op];
      assert OpSound(w.db, w.bodies, w.issued, o);
      assert db' == CommitTx(w.db, o.cmd, o.cur, NewPtr(o)).db;
      if o.cmd.Create? {
        var p := CreateTouches(w.db, o.cmd.owner, o.cmd.ids, NewPtr(o));
        assert Touches(w.db, db', p) && Steps(w.db, db', p);
      } else {
        CommandTouches(w.db, o.cmd, o.cur, NewPtr(o));
        assert Touches(w.db, db', o.cmd.post) && Steps(w.db, db', o.cmd.post);
      }
    }
  }

  lemma OtherStepsAreSilent(w: World, s: Step)
    requires !s.Commit? && !s.DeleteDraft? && !s.AdminDelete?
    ensures SamePublishing(w.db, Apply(w, s).db)
  {
  }

  lemma ApplyTouches(w: World, s: Step)
    requires Sound(w) && Pinned(w.db)
    ensures SamePublishing(w.db, Apply(w, s).db) || TouchesOne(w.db, Apply(w, s).db)
  {
    var db' := Apply(w, s).db;
    if s.Commit? {
      CommitTouches(w, s.op, s.outcome);
    } else if s.DeleteDraft? {
      if DeleteDraftTx(w.db, s.post, s.actor).Accepted? {
        DeleteDraftTouches(w.db, s.post, s.actor);
        assert Touches(w.db, db', s.post) && Steps(w.db, db', s.post);
      }
    } else if s.AdminDelete? {
      if AdminDeleteTx(w.db, s.post).Accepted? {
        AdminDeleteTouches(w.db, s.post);
        assert Touches(w.db, db', s.post) && Steps(w.db, db', s.post);
      }
    } else {
      OtherStepsAreSilent(w, s);
    }
  }

  lemma {:induction false} RunIsGood(steps: seq<Step>)
    ensures Good(Run(Init, steps).db)
    decreases |steps|
  {
    if steps != [] {
      var before := steps[..|steps| - 1];
      RunIsGood(before);
      RunIsSound(before);
      StepKeepsGood(Run(Init, before), steps[|steps| - 1]);
    }
  }

  lemma StepKeepsGood(w: World, s: Step)
    requires Sound(w) && Good(w.db)
    ensures Good(Apply(w, s).db)
  {
    var db' := Apply(w, s).db;
    ApplyTouches(w, s);
    if TouchesOne(w.db, db') {
      var p :| p in db'.posts && Touches(w.db, db', p) && Steps(w.db, db', p);
      TouchKeepsGood(w.db, db', p);
    }
  }

  /** In every reachable state a post is scheduled if and only if it has a pending
      row, and the row names the draft the post has now, which is stored under the
      hash the row pins. */
  lemma SchedulesPinTheDraft(steps: seq<Step>, p: PostId)
    ensures var w := Run(Init, steps);
            && (p in w.db.schedules <==> p in w.db.posts && w.db.posts[p].status == Scheduled)
            && (p in w.db.schedules ==>
                  && w.db.schedules[p] == w.db.posts[p].draft
                  && w.db.schedules[p].id in w.bodies
                  && w.bodies[w.db.schedules[p].id] == Body(w.db.schedules[p].hash, DraftBody))
  {
    RunIsGood(steps);
    RunIsSound(steps);
    var w := Run(Init, steps);
    if p in w.db.schedules {
      assert RowSound(w.bodies, w.db.posts[p]);
    }
  }

  /** In every reachable state a consumer that replays the events of the outbox takes
      a post for visible if and only if it is published, although scheduling and
      cancelling a schedule announce nothing; and it can tell a late event from a
      newer one by its version. */
  lemma EventsTellVisibility(steps: seq<Step>, p: PostId)
    ensures var db := Run(Init, steps).db;
            && (Visible(db.outbox, p) <==> p in db.posts && db.posts[p].status == Published)
            && (forall i, j :: 0 <= i < j < |db.outbox| && db.outbox[i].post == p == db.outbox[j].post ==>
                  db.outbox[i].version < db.outbox[j].version)
            && (forall i :: 0 <= i < |db.outbox| && db.outbox[i].post == p ==>
                  p in db.posts && db.outbox[i].version <= db.posts[p].version)
  {
    RunIsGood(steps);
  }
}
