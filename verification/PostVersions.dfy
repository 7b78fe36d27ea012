/** Optimistic locking: a version that still matches means the post is still exactly
    the one that was loaded, so no update is lost; and which lifecycle events tell the
    old visibility right. */
module PostVersions {
  import opened Posts
  import opened PostProtocol
  import opened PostSafety
  import opened PostPublishing

  /** The post a command loaded is the post as it was at that version. */
  ghost predicate Current(db: Tables, o: Op) {
    o.Unregistered? || o.cmd.Create? || (
      && o.cmd.post in db.posts
      && 0 < o.cur.version <= db.posts[o.cmd.post].version
      && (o.cur.version == db.posts[o.cmd.post].version ==> o.cur == db.posts[o.cmd.post]))
  }

  ghost predicate AllCurrent(w: World) {
    && (forall p :: p in w.db.posts ==> w.db.posts[p].version > 0)
    && (forall i :: i in w.ops ==> Current(w.db, w.ops[i]))
  }

  lemma TouchKeepsCurrent(db: Tables, db': Tables, o: Op)
    requires Current(db, o) && (SamePublishing(db, db') || TouchesOne(db, db'))
    ensures Current(db', o)
  {
    if !SamePublishing(db, db') {
      var p :| p in db'.posts && Touches(db, db', p) && Steps(db, db', p);
    }
  }

  /** A command keeps the post it loaded to its end. */
  predicate KeepsLoaded(w: World, w': World, i: OpId)
    requires i in w'.ops
  {
    || w'.ops[i].Unregistered?
    || (i in w.ops && !w.ops[i].Unregistered? && w'.ops[i].cmd == w.ops[i].cmd && w'.ops[i].cur == w.ops[i].cur)
  }

  /** It has just loaded it. */
  predicate HasLoaded(w: World, w': World, i: OpId)
    requires i in w'.ops
  {
    var o := w'.ops[i];
    w'.db == w.db && o.Loaded? && (o.cmd.Create? || (o.cmd.post in w.db.posts && o.cur == w.db.posts[o.cmd.post]))
  }

  lemma CommandStepKeepsLoaded(w: World, s: Step, i: OpId)
    requires i in Apply(w, s).ops && (s.Begin? || s.ParseBody? || s.ReadBody? || s.WriteBody?)
    ensures KeepsLoaded(w, Apply(w, s), i) || HasLoaded(w, Apply(w, s), i)
  {
  }

  lemma StepKeepsLoaded(w: World, s: Step, i: OpId)
    requires i in Apply(w, s).ops
    ensures KeepsLoaded(w, Apply(w, s), i) || HasLoaded(w, Apply(w, s), i)
  {
    if s.Begin? || s.ParseBody? || s.ReadBody? || s.WriteBody? {
      CommandStepKeepsLoaded(w, s, i);
    }
  }

  lemma VersionsStayPositive(db: Tables, db': Tables)
    requires SamePublishing(db, db') || TouchesOne(db, db')
    requires forall p :: p in db.posts ==> db.posts[p].version > 0
    ensures forall p :: p in db'.posts ==> db'.posts[p].version > 0
  {
    if !SamePublishing(db, db') {
      var q :| q in db'.posts && Touches(db, db', q) && Steps(db, db', q);
    }
  }

  lemma StepKeepsCurrent(w: World, s: Step)
    requires Sound(w) && Pinned(w.db) && AllCurrent(w)
    ensures AllCurrent(Apply(w, s))
  {
    var w' := Apply(w, s);
    ApplyTouches(w, s);
    VersionsStayPositive(w.db, w'.db);
    forall i | i in w'.ops ensures Current(w'.db, w'.ops[i]) {
      StepKeepsLoaded(w, s, i);
      if i in w.ops {
        TouchKeepsCurrent(w.db, w'.db, w.ops[i]);
      }
    }
  }

  lemma {:induction false} RunIsCurrent(steps: seq<Step>)
    ensures AllCurrent(Run(Init, steps))
    decreases |steps|
  {
    if steps != [] {
      var before := steps[..|steps| - 1];
      RunIsCurrent(before);
      RunIsSound(before);
      RunIsGood(before);
      StepKeepsCurrent(Run(Init, before), steps[|steps| - 1]);
    }
  }

  /** No lost update, in any interleaving: when a save, publish, schedule or metadata
      edit is accepted, the post it overwrites is exactly the post the command loaded
      and the user named; and the command writes the next version. */
  lemma AcceptedUpdateSawTheLatest(steps: seq<Step>, op: OpId)
    requires op in Run(Init, steps).ops && ReadyToCommit(Run(Init, steps).ops[op])
    requires Run(Init, steps).ops[op].cmd.Save? || Run(Init, steps).ops[op].cmd.Publish?
             || Run(Init, steps).ops[op].cmd.Schedule? || Run(Init, steps).ops[op].cmd.UpdateMeta?
    requires var o := Run(Init, steps).ops[op];
             CommitTx(Run(Init, steps).db, o.cmd, o.cur, NewPtr(o)).Accepted?
    ensures var w := Run(Init, steps);
            var o := w.ops[op];
            var db' := CommitTx(w.db, o.cmd, o.cur, NewPtr(o)).db;
            && o.cmd.post in w.db.posts && w.db.posts[o.cmd.post] == o.cur
            && o.cur.version == o.cmd.base
            && o.cmd.post in db'.posts && db'.posts[o.cmd.post].version == o.cmd.base + 1
  {
    RunIsCurrent(steps);
    RunIsSound(steps);
    var w := Run(Init, steps);
    var o := w.ops[op];
    assert Current(w.db, o);
    assert OpSound(w.db, w.bodies, w.issued, o);
  }

  lemma LifecycleEvent(db: Tables, cmd: Command, cur: Post)
    requires cmd.Lifecycle? && cmd.kind != CancelSchedule && Check(cmd, cur) == Passes
    requires LifecycleTx(db, cmd, cur).Accepted?
    requires cur.version == db.posts[cmd.post].version ==> cur == db.posts[cmd.post]
    ensures cmd.post in db.posts && cmd.post in LifecycleTx(db, cmd, cur).db.posts
    ensures var event := VisibilityChanged(
              cmd.post, db.posts[cmd.post].version + 1, VisibilityOf(cur.status),
              VisibilityOf(LifecycleTx(db, cmd, cur).db.posts[cmd.post].status), false);
            && LifecycleTx(db, cmd, cur).db.outbox == db.outbox + [event]
            && (cmd.kind != Delete || (cmd.base != 0 && cmd.base == cur.version) ==>
                  event.from == VisibilityOf(db.posts[cmd.post].status))
  {
  }

  /** A lifecycle event always tells the new visibility. It names as old the visibility
      of the loaded post, which is right if the command is no deletion, or has loaded
      the very version it names; `PostVisibility` tells which commands are sure of it. */
  lemma OldVisibilityIsRight(steps: seq<Step>, op: OpId)
    requires op in Run(Init, steps).ops && ReadyToCommit(Run(Init, steps).ops[op])
    requires Run(Init, steps).ops[op].cmd.Lifecycle? && Run(Init, steps).ops[op].cmd.kind != CancelSchedule
    requires var o := Run(Init, steps).ops[op]; LifecycleTx(Run(Init, steps).db, o.cmd, o.cur).Accepted?
    ensures var w := Run(Init, steps);
            var o := w.ops[op];
            var db' := LifecycleTx(w.db, o.cmd, o.cur).db;
            && o.cmd.post in w.db.posts && o.cmd.post in db'.posts
            && |db'.outbox| == |w.db.outbox| + 1
            && var event := db'.outbox[|w.db.outbox|];
               && event.VisibilityChanged? && event.post == o.cmd.post
               && event.to == VisibilityOf(db'.posts[o.cmd.post].status)
               && (o.cmd.kind != Delete || (o.cmd.base != 0 && o.cmd.base == o.cur.version) ==>
                     event.from == VisibilityOf(w.db.posts[o.cmd.post].status))
  {
    RunIsCurrent(steps);
    RunIsSound(steps);
    var w := Run(Init, steps);
    var o := w.ops[op];
    assert Current(w.db, o);
    assert OpSound(w.db, w.bodies, w.issued, o);
    LifecycleEvent(w.db, o.cmd, o.cur);
  }
}
