/** The relationship commands as they run. */
module RelationService {
  import opened Relations

  datatype Outcome = Done(changed: bool) | Failed(error: Error)

  predicate Concerns(step: Step, op: OpId) {
    (step.CheckFollow? || step.InsertFollow?) && step.op == op
  }

  predicate SameFollow(s: State, s': State, op: OpId) {
    (op in s'.checked <==> op in s.checked) && (op in s.checked ==> s'.checked[op] == s.checked[op])
  }

  lemma OthersLeaveFollow(s: State, step: Step, op: OpId)
    requires !Concerns(step, op)
    ensures SameFollow(s, Apply(s, step), op)
  {
  }

  /** Whatever other commands do, a follow finds its own check where it left it. */
  lemma {:induction false} FollowSurvives(before: seq<Step>, after: seq<Step>, op: OpId)
    requires before <= after && forall i :: |before| <= i < |after| ==> !Concerns(after[i], op)
    ensures SameFollow(Run(before), Run(after), op)
    decreases |after|
  {
    if |before| == |after| {
      assert before == after;
    } else {
      var shorter := after[..|after| - 1];
      FollowSurvives(before, shorter, op);
      OthersLeaveFollow(Run(shorter), after[|after| - 1], op);
    }
  }

  class RelationshipService {
    var active: set<UserId>
    var follows: set<Pair>
    var blocks: set<Pair>
    var outbox: seq<Event>
    ghost var checked: map<OpId, Pair>
    ghost var trace: seq<Step>

    ghost function Now(): State
      reads this
    {
      State(active, follows, blocks, outbox, checked)
    }

    ghost predicate Valid()
      reads this
    {
      Now() == Run(trace)
    }

    constructor ()
      ensures Valid() && trace == []
    {
      active, follows, blocks, outbox := {}, {}, {}, [];
      checked, trace := map[], [];
    }

    lemma Extends(step: Step)
      requires Valid()
      ensures Run(trace + [step]) == Apply(Now(), step)
    {
      assert (trace + [step])[..|trace|] == trace;
    }

    /** Anything other commands may do in the meantime; callers rely on the contract. */
    method Interfere(ghost op: OpId)
      requires Valid()
      modifies this
      ensures Valid() && old(trace) <= trace
      ensures forall i :: |old(trace)| <= i < |trace| ==> !Concerns(trace[i], op)
      ensures SameFollow(old(Now()), Now(), op)
    {
      FollowSurvives(trace, trace, op);
    }

    // ------------------------------------------------------------ the two halves of a follow

    /** Load both profiles, look for a block in either direction, and plan. */
    method PrepareFollow(ghost op: OpId, pair: Pair) returns (plan: Plan)
      requires Valid() && op !in checked
      modifies `checked, `trace
      ensures Valid() && trace == old(trace) + [CheckFollow(op, pair)]
      ensures plan == PlanFollow(active, pair, AnyDirectionBlocked(blocks, pair))
      ensures checked == if plan.Planned? then old(checked)[op := pair] else old(checked)
    {
      ghost var next := CheckFollowStep(Now(), op, pair);
      assert Run(trace + [CheckFollow(op, pair)]) == next by {
        Extends(CheckFollow(op, pair));
      }
      var blocked := pair in blocks || pair.Reversed() in blocks;
      plan := PlanFollow(active, pair, blocked);
      checked := if plan.Planned? then checked[op := pair] else checked;
      assert Now() == next;
      trace := trace + [CheckFollow(op, pair)];
    }

    /** The transaction of a follow: insert and, when a row was created, its event. */
    method WriteFollow(ghost op: OpId, pair: Pair) returns (created: bool)
      requires Valid() && op in checked && checked[op] == pair
      modifies `follows, `outbox, `checked, `trace
      ensures Valid() && trace == old(trace) + [InsertFollow(op)] && op !in checked
      ensures pair in follows && (created <==> pair !in old(follows))
      ensures outbox == old(outbox) + if created then [Followed(pair)] else []
    {
      Extends(InsertFollow(op));
      trace, checked := trace + [InsertFollow(op)], checked - {op};
      created := pair !in follows;
      if created {
        follows := follows + {pair};
        outbox := outbox + [Followed(pair)];
      }
    }

    /** FollowUser: refused by its plan, or written after other commands had their turn.
        The last step of a follow that is done is its own write, so by
        `Relations.StepKeepsApart` it leaves the relations apart exactly when no block
        came in between. */
    method FollowUser(ghost op: OpId, pair: Pair) returns (r: Outcome)
      requires Valid() && op !in checked
      modifies this
      ensures Valid() && old(trace) <= trace && op !in checked
      ensures r.Failed? ==> follows == old(follows) && outbox == old(outbox)
      ensures if pair.actor == pair.target then r == Failed(CannotFollowSelf)
              else if pair.actor !in old(active) || pair.target !in old(active) then r == Failed(UserNotActive)
              else if pair in old(blocks) || Pair(pair.target, pair.actor) in old(blocks) then
                r == Failed(InteractionBlocked)
              else
                && r.Done? && pair in follows
                && |trace| > |old(trace)| && trace[|trace| - 1] == InsertFollow(op)
                && (r.changed <==> pair !in Run(trace[..|trace| - 1]).follows)
                && outbox == Run(trace[..|trace| - 1]).log + if r.changed then [Followed(pair)] else []
    {
      var plan := PrepareFollow(op, pair);
      if plan.Refused? {
        return Failed(plan.error);
      }
      Interfere(op);
      var created := WriteFollow(op, pair);
      assert trace[..|trace| - 1] + [InsertFollow(op)] == trace;
      r := Done(created);
    }

    // --------------------------------------------------------------- the other commands

    /** DeleteFollow with its event, inside the transaction of the caller. */
    method DeleteFollow(pair: Pair, reason: Reason) returns (deleted: bool)
      modifies `follows, `outbox
      ensures Now() == Dropped(old(Now()), pair, reason)
      ensures deleted <==> pair in old(follows)
      ensures pair !in follows
    {
      deleted := pair in follows;
      if deleted {
        follows := follows - {pair};
        outbox := outbox + [Unfollowed(pair, reason)];
      }
    }

    method UnfollowUser(pair: Pair) returns (r: Outcome)
      requires Valid()
      modifies `follows, `outbox, `trace
      ensures Valid() && trace == old(trace) + [Unfollow(pair)]
      ensures r == if pair.actor == pair.target then Failed(CannotFollowSelf)
                   else if pair.actor !in active then Failed(UserNotActive)
                   else Done(pair in old(follows))
      ensures follows == if r.Done? then old(follows) - {pair} else old(follows)
      ensures outbox == old(outbox) + if r == Done(true) then [Unfollowed(pair, UserRequest)] else []
    {
      Extends(Unfollow(pair));
      trace := trace + [Unfollow(pair)];
      var plan := PlanUnfollow(active, pair);
      if plan.Refused? {
        return Failed(plan.error);
      }
      var deleted := DeleteFollow(pair, UserRequest);
      r := Done(deleted);
    }

    /** BlockUser: the block, its event, and the follows it removes, in one transaction. */
    method BlockUser(pair: Pair) returns (r: Outcome)
      requires Valid()
      modifies `follows, `blocks, `outbox, `trace
      ensures Valid() && trace == old(trace) + [Block(pair)]
      ensures r == if pair.actor == pair.target then Failed(CannotBlockSelf)
                   else if pair.actor !in active || pair.target !in active then Failed(UserNotActive)
                   else Done(pair !in old(blocks))
      ensures blocks == if r.Done? then old(blocks) + {pair} else old(blocks)
      ensures follows == if r == Done(true) then old(follows) - {pair, Pair(pair.target, pair.actor)} else old(follows)
    {
      Extends(Block(pair));
      trace := trace + [Block(pair)];
      var plan := PlanBlock(active, pair);
      if plan.Refused? {
        return Failed(plan.error);
      }
      if pair in blocks {
        return Done(false);
      }
      blocks := blocks + {pair};
      outbox := outbox + [Blocked(pair)];
      ghost var blocked := Now();
      var removed := [pair, pair.Reversed()];
      var k := 0;
      while k < |removed|
        invariant 0 <= k <= |removed| && trace == old(trace) + [Block(pair)]
        invariant Now() == if k == 0 then blocked
                           else if k == 1 then Dropped(blocked, pair, BlockedReason)
                           else Dropped(Dropped(blocked, pair, BlockedReason), pair.Reversed(), BlockedReason)
      {
        var _ := DeleteFollow(removed[k], BlockedReason);
        k := k + 1;
      }
      r := Done(true);
    }

    method UnblockUser(pair: Pair) returns (r: Outcome)
      requires Valid()
      modifies `blocks, `outbox, `trace
      ensures Valid() && trace == old(trace) + [Unblock(pair)]
      ensures r == if pair.actor == pair.target then Failed(CannotBlockSelf)
                   else if pair.actor !in active then Failed(UserNotActive)
                   else Done(pair in old(blocks))
      ensures blocks == if r.Done? then old(blocks) - {pair} else old(blocks)
      ensures outbox == old(outbox) + if r == Done(true) then [Unblocked(pair)] else []
    {
      Extends(Unblock(pair));
      trace := trace + [Unblock(pair)];
      var plan := PlanUnblock(active, pair);
      if plan.Refused? {
        return Failed(plan.error);
      }
      if pair !in blocks {
        return Done(false);
      }
      blocks := blocks - {pair};
      outbox := outbox + [Unblocked(pair)];
      r := Done(true);
    }

    /** What a caller can rely on at any time, however commands interleaved. */
    lemma LogIsComplete()
      requires Valid()
      ensures Replay(outbox) == View(follows, blocks)
    {
      LogReproducesRelations(trace);
    }
  }
}
