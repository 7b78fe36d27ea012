/** Who comes to follow or block whom. Every change of the two relations, in every run,
    told from the tables alone; and nobody ever follows or blocks themselves. */
module RelationRules {
  import opened Relations

  /** A follow of this pair may be started now. */
  predicate MayFollow(s: State, pair: Pair) {
    && pair.actor != pair.target
    && pair.actor in s.active && pair.target in s.active
    && pair !in s.blocks && Pair(pair.target, pair.actor) !in s.blocks
  }

  /** This step is a block that takes effect, of this pair. */
  predicate Blocks(s: State, step: Step, pair: Pair) {
    && step == Block(pair) && pair !in s.blocks
    && pair.actor != pair.target && pair.actor in s.active && pair.target in s.active
  }

  /** A follow is checked exactly when it may be started; it begins with its write, and
      ends with an unfollow of its actor or a block of either side. */
  lemma FollowsChangeByTheRules(s: State, step: Step, pair: Pair)
    ensures pair in Apply(s, step).follows <==>
              if pair in s.follows then
                && !(step == Unfollow(pair) && pair.actor != pair.target && pair.actor in s.active)
                && !Blocks(s, step, pair) && !Blocks(s, step, Pair(pair.target, pair.actor))
              else step.InsertFollow? && step.op in s.checked && s.checked[step.op] == pair
  {
  }

  lemma ChecksChangeByTheRules(s: State, step: Step, op: OpId)
    ensures op in Apply(s, step).checked <==>
              if op in s.checked then step != InsertFollow(op)
              else step.CheckFollow? && step.op == op && MayFollow(s, step.pair)
    ensures op in Apply(s, step).checked ==>
              Apply(s, step).checked[op] == if op in s.checked then s.checked[op] else step.pair
  {
  }

  lemma BlocksChangeByTheRules(s: State, step: Step, pair: Pair)
    ensures pair in Apply(s, step).blocks <==>
              if pair in s.blocks then !(step == Unblock(pair) && pair.actor != pair.target && pair.actor in s.active)
              else Blocks(s, step, pair)
  {
  }

  predicate NoSelf(s: State) {
    && (forall pair :: pair in s.follows ==> pair.actor != pair.target)
    && (forall pair :: pair in s.blocks ==> pair.actor != pair.target)
    && (forall op :: op in s.checked ==> s.checked[op].actor != s.checked[op].target)
  }

  /** In every reachable state nobody follows or blocks themselves. */
  lemma {:induction false} NobodyFollowsThemselves(steps: seq<Step>)
    ensures NoSelf(Run(steps))
    decreases |steps|
  {
    if steps != [] {
      var before, step := Run(steps[..|steps| - 1]), steps[|steps| - 1];
      NobodyFollowsThemselves(steps[..|steps| - 1]);
      StepKeepsNoSelf(before, step);
    }
  }

  lemma StepKeepsNoSelf(s: State, step: Step)
    requires NoSelf(s)
    ensures NoSelf(Apply(s, step))
  {
    var s' := Apply(s, step);
    forall pair | pair in s'.follows ensures pair.actor != pair.target {
      FollowsChangeByTheRules(s, step, pair);
    }
    forall pair | pair in s'.blocks ensures pair.actor != pair.target {
      BlocksChangeByTheRules(s, step, pair);
    }
    forall op | op in s'.checked ensures s'.checked[op].actor != s'.checked[op].target {
      ChecksChangeByTheRules(s, step, op);
    }
  }

  /** Somewhere in the run the pair was checked while a follow of it might be started. */
  predicate WasChecked(steps: seq<Step>, pair: Pair)
    decreases |steps|
  {
    steps != [] && (
      || (var s, step := Run(steps[..|steps| - 1]), steps[|steps| - 1];
          step.CheckFollow? && step.pair == pair && MayFollow(s, pair))
      || WasChecked(steps[..|steps| - 1], pair))
  }

  lemma {:induction false} CheckedWasChecked(steps: seq<Step>, op: OpId)
    requires op in Run(steps).checked
    ensures WasChecked(steps, Run(steps).checked[op])
    decreases |steps|
  {
    var before := steps[..|steps| - 1];
    ChecksChangeByTheRules(Run(before), steps[|steps| - 1], op);
    if op in Run(before).checked {
      CheckedWasChecked(before, op);
    }
  }

  /** Over every run: who follows whom was once free to, both users active and neither
      blocking the other. */
  lemma {:induction false} FollowersWereFree(steps: seq<Step>, pair: Pair)
    requires pair in Run(steps).follows
    ensures WasChecked(steps, pair)
    decreases |steps|
  {
    var before, step := steps[..|steps| - 1], steps[|steps| - 1];
    FollowsChangeByTheRules(Run(before), step, pair);
    if pair in Run(before).follows {
      FollowersWereFree(before, pair);
    } else {
      CheckedWasChecked(before, step.op);
    }
  }
}
