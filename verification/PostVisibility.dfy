/** Which lifecycle commands are sure to tell the old visibility right. */
module PostVisibility {
  import opened Posts
  import opened PostProtocol
  import opened PostSafety
  import opened PostVersions
  import opened PostRaces

  /** If the command, loaded as `op`, is accepted now, its event names the visibility
      the post has now. */
  predicate TellsOldVisibility(w: World, op: OpId, cmd: Command)
    requires cmd.Lifecycle? && cmd.kind != CancelSchedule
  {
    op in w.ops && w.ops[op].Loaded? && w.ops[op].cmd == cmd && LifecycleTx(w.db, cmd, w.ops[op].cur).Accepted? ==>
      var log := LifecycleTx(w.db, cmd, w.ops[op].cur).db.outbox;
      && |log| == |w.db.outbox| + 1 && log[|w.db.outbox|].VisibilityChanged?
      && log[|w.db.outbox|].from == VisibilityOf(w.db.posts[cmd.post].status)
  }

  ghost predicate AlwaysTellsOldVisibility(cmd: Command)
    requires cmd.Lifecycle? && cmd.kind != CancelSchedule
  {
    forall steps, op :: TellsOldVisibility(Run(Init, steps), op, cmd)
  }

  lemma SureCommandsTell(cmd: Command, steps: seq<Step>, op: OpId)
    requires cmd.Lifecycle? && cmd.kind != CancelSchedule && (cmd.kind != Delete || cmd.base == 1)
    ensures TellsOldVisibility(Run(Init, steps), op, cmd)
  {
    var w := Run(Init, steps);
    if op in w.ops && w.ops[op].Loaded? && w.ops[op].cmd == cmd && LifecycleTx(w.db, cmd, w.ops[op].cur).Accepted? {
      RunIsCurrent(steps);
      RunIsSound(steps);
      assert Current(w.db, w.ops[op]) && OpSound(w.db, w.bodies, w.issued, w.ops[op]);
      LifecycleEvent(w.db, cmd, w.ops[op].cur);
    }
  }

  /** The exact condition, on the command alone: in every run in which it is accepted
      its event tells the old visibility right, if and only if it is no deletion or it
      names version 1. A deletion that names no version, or any later one, is wrong in
      some run: the post is published between its load and its update. */
  lemma OldVisibilityIsSureIff(cmd: Command)
    requires cmd.Lifecycle? && cmd.kind != CancelSchedule
    ensures AlwaysTellsOldVisibility(cmd) <==> cmd.kind != Delete || cmd.base == 1
  {
    if cmd.kind != Delete || cmd.base == 1 {
      forall steps, op ensures TellsOldVisibility(Run(Init, steps), op, cmd) {
        SureCommandsTell(cmd, steps, op);
      }
    } else {
      StaleDeletionMisreports(cmd.actor, cmd.post, cmd.base);
      assert cmd == Deletion(cmd.actor, cmd.post, cmd.base);
      assert !TellsOldVisibility(Run(Init, Race(cmd.actor, cmd.post, cmd.base)), 2, cmd);
    }
  }
}
