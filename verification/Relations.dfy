/** Follows and blocks between users, and the events published with every change.
    Following checks for a block before its transaction, so the two are separate
    steps; the other commands change both relations in one transaction. */
module Relations {

  type UserId = nat
  type OpId = nat

  datatype Pair = Pair(actor: UserId, target: UserId)
  {
    function Reversed(): Pair { Pair(target, actor) }
  }

  datatype Reason = UserRequest | BlockedReason

  datatype Event =
    | Followed(pair: Pair)
    | Unfollowed(pair: Pair, reason: Reason)
    | Blocked(pair: Pair)
    | Unblocked(pair: Pair)

  datatype Error = CannotFollowSelf | CannotBlockSelf | UserNotActive | InteractionBlocked

  datatype Plan = Planned(pair: Pair) | Refused(error: Error)

  /** `checked` holds the follow commands that passed their checks and have not yet
      written. */
  datatype State = State(
    active: set<UserId>,
    follows: set<Pair>,
    blocks: set<Pair>,
    log: seq<Event>,
    checked: map<OpId, Pair>)

  const Init := State({}, {}, {}, [], map[])

  // --------------------------------------------------------------------------- plans

  function PlanFollow(active: set<UserId>, pair: Pair, blocked: bool): Plan {
    if pair.actor == pair.target then Refused(CannotFollowSelf)
    else if pair.actor !in active || pair.target !in active then Refused(UserNotActive)
    else if blocked then Refused(InteractionBlocked)
    else Planned(pair)
  }

  function PlanUnfollow(active: set<UserId>, pair: Pair): Plan {
    if pair.actor == pair.target then Refused(CannotFollowSelf)
    else if pair.actor !in active then Refused(UserNotActive)
    else Planned(pair)
  }

  function PlanBlock(active: set<UserId>, pair: Pair): Plan {
    if pair.actor == pair.target then Refused(CannotBlockSelf)
    else if pair.actor !in active || pair.target !in active then Refused(UserNotActive)
    else Planned(pair)
  }

  function PlanUnblock(active: set<UserId>, pair: Pair): Plan {
    if pair.actor == pair.target then Refused(CannotBlockSelf)
    else if pair.actor !in active then Refused(UserNotActive)
    else Planned(pair)
  }

  predicate AnyDirectionBlocked(blocks: set<Pair>, pair: Pair) {
    pair in blocks || pair.Reversed() in blocks
  }

  // --------------------------------------------------------------------------- steps

  datatype Step =
    | SetActive(user: UserId, active: bool)
    | CheckFollow(op: OpId, pair: Pair)
    | InsertFollow(op: OpId)
    | Unfollow(pair: Pair)
    | Block(pair: Pair)
    | Unblock(pair: Pair)

  function CheckFollowStep(s: State, op: OpId, pair: Pair): State {
    if op in s.checked || PlanFollow(s.active, pair, AnyDirectionBlocked(s.blocks, pair)).Refused? then s
    else s.(checked := s.checked[op := pair])
  }

  function InsertFollowStep(s: State, op: OpId): State {
    if op !in s.checked then s
    else
      var pair := s.checked[op];
      var done := s.(checked := s.checked - {op});
      if pair in s.follows then done
      else done.(follows := s.follows + {pair}, log := s.log + [Followed(pair)])
  }

  function Dropped(s: State, pair: Pair, reason: Reason): State {
    if pair !in s.follows then s
    else s.(follows := s.follows - {pair}, log := s.log + [Unfollowed(pair, reason)])
  }

  function BlockStep(s: State, pair: Pair): State {
    if PlanBlock(s.active, pair).Refused? || pair in s.blocks then s
    else
      var blocked := s.(blocks := s.blocks + {pair}, log := s.log + [Blocked(pair)]);
      Dropped(Dropped(blocked, pair, BlockedReason), pair.Reversed(), BlockedReason)
  }

  function Apply(s: State, step: Step): State {
    match step
    case SetActive(user, active) => s.(active := if active then s.active + {user} else s.active - {user})
    case CheckFollow(op, pair) => CheckFollowStep(s, op, pair)
    case InsertFollow(op) => InsertFollowStep(s, op)
    case Unfollow(pair) => if PlanUnfollow(s.active, pair).Refused? then s else Dropped(s, pair, UserRequest)
    case Block(pair) => BlockStep(s, pair)
    case Unblock(pair) =>
      if PlanUnblock(s.active, pair).Refused? || pair !in s.blocks then s
      else s.(blocks := s.blocks - {pair}, log := s.log + [Unblocked(pair)])
  }

  function Run(steps: seq<Step>): State
    decreases |steps|
  {
    if steps == [] then Init else Apply(Run(steps[..|steps| - 1]), steps[|steps| - 1])
  }

  // ---------------------------------------------------------- follows and blocks apart

  /** No one follows a user where either blocks the other. */
  predicate Apart(s: State) {
    forall pair :: pair in s.follows ==> !AnyDirectionBlocked(s.blocks, pair)
  }

  /** A follow is written although a block came in since its check. */
  predicate Stale(s: State, step: Step) {
    step.InsertFollow? && step.op in s.checked && AnyDirectionBlocked(s.blocks, s.checked[step.op])
  }

  lemma StepKeepsApart(s: State, step: Step)
    requires Apart(s)
    ensures Apart(Apply(s, step)) <==> !Stale(s, step)
  {
    if Stale(s, step) {
      assert s.checked[step.op] in Apply(s, step).follows;
    }
  }

  /** In the last state of the run and in all states before it. */
  predicate AlwaysApart(steps: seq<Step>)
    decreases |steps|
  {
    Apart(Run(steps)) && (steps == [] || AlwaysApart(steps[..|steps| - 1]))
  }

  predicate NeverStale(steps: seq<Step>)
    decreases |steps|
  {
    steps == [] || (NeverStale(steps[..|steps| - 1]) && !Stale(Run(steps[..|steps| - 1]), steps[|steps| - 1]))
  }

  /** Over a whole run the relations stay apart if and only if no follow is written over
      a block that came between its check and its write. */
  lemma {:induction false} ApartIffNoStaleFollow(steps: seq<Step>)
    ensures AlwaysApart(steps) <==> NeverStale(steps)
    decreases |steps|
  {
    if steps != [] {
      var before := steps[..|steps| - 1];
      ApartIffNoStaleFollow(before);
      if Apart(Run(before)) {
        StepKeepsApart(Run(before), steps[|steps| - 1]);
      }
    }
  }

  // ------------------------------------------------------------- the log reproduces both

  datatype View = View(follows: set<Pair>, blocks: set<Pair>)

  function Effect(v: View, e: Event): View {
    match e
    case Followed(pair) => v.(follows := v.follows + {pair})
    case Unfollowed(pair, _) => v.(follows := v.follows - {pair})
    case Blocked(pair) => v.(blocks := v.blocks + {pair})
    case Unblocked(pair) => v.(blocks := v.blocks - {pair})
  }

  /** What a consumer makes of the events. */
  function Replay(log: seq<Event>): View
    decreases |log|
  {
    if log == [] then View({}, {}) else Effect(Replay(log[..|log| - 1]), log[|log| - 1])
  }

  /** Every event told the consumer something new. */
  predicate EachChanges(log: seq<Event>) {
    forall n :: 0 <= n < |log| ==> Effect(Replay(log[..n]), log[n]) != Replay(log[..n])
  }

  ghost predicate Faithful(s: State) {
    Replay(s.log) == View(s.follows, s.blocks) && EachChanges(s.log)
  }

  lemma AppendFaithful(s: State, s': State, e: Event)
    requires Faithful(s) && s'.log == s.log + [e]
    requires View(s'.follows, s'.blocks) == Effect(View(s.follows, s.blocks), e) != View(s.follows, s.blocks)
    ensures Faithful(s')
  {
    assert s'.log[..|s.log|] == s.log;
    forall n | 0 <= n < |s'.log| ensures Effect(Replay(s'.log[..n]), s'.log[n]) != Replay(s'.log[..n]) {
      if n < |s.log| {
        assert s'.log[..n] == s.log[..n] && s'.log[n] == s.log[n];
      }
    }
  }

  lemma DroppedIsFaithful(s: State, pair: Pair, reason: Reason)
    requires Faithful(s)
    ensures Faithful(Dropped(s, pair, reason))
  {
    if pair in s.follows {
      var s' := Dropped(s, pair, reason);
      assert pair !in s'.follows;
      AppendFaithful(s, s', Unfollowed(pair, reason));
    }
  }

  lemma BlockIsFaithful(s: State, pair: Pair)
    requires Faithful(s)
    ensures Faithful(BlockStep(s, pair))
  {
    if PlanBlock(s.active, pair).Planned? && pair !in s.blocks {
      var blocked := s.(blocks := s.blocks + {pair}, log := s.log + [Blocked(pair)]);
      assert pair in blocked.blocks;
      AppendFaithful(s, blocked, Blocked(pair));
      DroppedIsFaithful(blocked, pair, BlockedReason);
      DroppedIsFaithful(Dropped(blocked, pair, BlockedReason), pair.Reversed(), BlockedReason);
    }
  }

  lemma StepIsFaithful(s: State, step: Step)
    requires Faithful(s)
    ensures Faithful(Apply(s, step))
  {
    match step
    case SetActive(_, _) =>
    case CheckFollow(_, _) =>
    case InsertFollow(op) =>
      if op in s.checked && s.checked[op] !in s.follows {
        assert s.checked[op] in Apply(s, step).follows;
        AppendFaithful(s, Apply(s, step), Followed(s.checked[op]));
      }
    case Unfollow(pair) => DroppedIsFaithful(s, pair, UserRequest);
    case Block(pair) => BlockIsFaithful(s, pair);
    case Unblock(pair) =>
      if PlanUnblock(s.active, pair).Planned? && pair in s.blocks {
        assert pair !in Apply(s, step).blocks;
        AppendFaithful(s, Apply(s, step), Unblocked(pair));
      }
  }

  /** In every reachable state, and however commands interleave, replaying the events
      gives both relations exactly, and no event was published in vain. */
  lemma {:induction false} LogReproducesRelations(steps: seq<Step>)
    ensures Replay(Run(steps).log) == View(Run(steps).follows, Run(steps).blocks)
    ensures EachChanges(Run(steps).log)
    decreases |steps|
  {
    if steps != [] {
      LogReproducesRelations(steps[..|steps| - 1]);
      StepIsFaithful(Run(steps[..|steps| - 1]), steps[|steps| - 1]);
    }
  }

  // --------------------------------------------------------------- atomic commands suffice

  /** A follow's check and its write are never separated. */
  predicate Sequential(steps: seq<Step>) {
    && (forall n :: 0 <= n < |steps| && steps[n].InsertFollow? ==>
          n > 0 && steps[n - 1].CheckFollow? && steps[n - 1].op == steps[n].op)
    && (forall n :: 0 <= n < |steps| - 1 && steps[n].CheckFollow? ==>
          steps[n + 1].InsertFollow? && steps[n + 1].op == steps[n].op)
  }

  /** A command found between its check and its write has just been checked. */
  lemma {:induction false} CheckedJustNow(steps: seq<Step>, op: OpId)
    requires Sequential(steps) && op in Run(steps).checked
    ensures steps != [] && steps[|steps| - 1].CheckFollow? && steps[|steps| - 1].op == op
    ensures !AnyDirectionBlocked(Run(steps).blocks, Run(steps).checked[op])
    decreases |steps|
  {
    var before := steps[..|steps| - 1];
    if op in Run(before).checked {
      CheckedJustNow(before, op);
    }
  }

  lemma {:induction false} SequentialIsNeverStale(steps: seq<Step>)
    requires Sequential(steps)
    ensures NeverStale(steps)
    decreases |steps|
  {
    if steps != [] {
      var before, step := steps[..|steps| - 1], steps[|steps| - 1];
      SequentialIsNeverStale(before);
      if step.InsertFollow? && step.op in Run(before).checked {
        CheckedJustNow(before, step.op);
      }
    }
  }

  /** Commands run one after the other keep follows and blocks apart throughout. */
  lemma SequentialCommandsKeepApart(steps: seq<Step>)
    requires Sequential(steps)
    ensures AlwaysApart(steps)
  {
    SequentialIsNeverStale(steps);
    ApartIffNoStaleFollow(steps);
  }

  /** A block that commits between the check and the write of a follow: the follow is
      written all the same, and stays. */
  lemma BlockedInBetween(a: UserId, b: UserId)
    requires a != b
    ensures var s := Run([SetActive(a, true)] + [SetActive(b, true)] + [CheckFollow(0, Pair(a, b))]
                         + [Block(Pair(b, a))] + [InsertFollow(0)]);
            Pair(a, b) in s.follows && Pair(b, a) in s.blocks
  {
    var t1 := [SetActive(a, true)];
    var t2 := t1 + [SetActive(b, true)];
    var t3 := t2 + [CheckFollow(0, Pair(a, b))];
    var t4 := t3 + [Block(Pair(b, a))];
    assert t1[..0] == [];
    assert t2[..1] == t1 && t3[..2] == t2 && t4[..3] == t3 && (t4 + [InsertFollow(0)])[..4] == t4;
    assert Run(t1) == Apply(Init, SetActive(a, true));
    assert Run(t2) == Init.(active := {a, b});
    assert Run(t3) == Run(t2).(checked := map[0 := Pair(a, b)]);
  }
}
