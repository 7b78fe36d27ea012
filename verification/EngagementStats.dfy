/** Each change of a like or favourite reaches its counter exactly once, through any
    number of workers, retries and stale reclaims. The counter itself can still drift,
    and does so exactly when a decrement arrives before its increment and is held at
    zero; applied in order, deltas never do that. */
module EngagementStats {
  import opened Engagement

  // -------------------------------------------------------------------- sums of deltas

  function Share(t: Task, key: Key): int { if t.key == key then t.delta else 0 }

  function OpenShare(t: Task, key: Key): int { if t.status == Done then 0 else Share(t, key) }

  /** The deltas of all tasks of one counter. */
  function Total(tasks: seq<Task>, key: Key): int
    decreases |tasks|
  {
    if tasks == [] then 0 else Total(tasks[..|tasks| - 1], key) + Share(tasks[|tasks| - 1], key)
  }

  /** The deltas of those not done. */
  function Outstanding(tasks: seq<Task>, key: Key): int
    decreases |tasks|
  {
    if tasks == [] then 0 else Outstanding(tasks[..|tasks| - 1], key) + OpenShare(tasks[|tasks| - 1], key)
  }

  lemma SumsAppend(tasks: seq<Task>, t: Task, key: Key)
    ensures Total(tasks + [t], key) == Total(tasks, key) + Share(t, key)
    ensures Outstanding(tasks + [t], key) == Outstanding(tasks, key) + OpenShare(t, key)
  {
    assert (tasks + [t])[..|tasks|] == tasks;
  }

  lemma {:induction false} SumsUpdate(tasks: seq<Task>, id: TaskId, t: Task, key: Key)
    requires id < |tasks| && t.key == tasks[id].key && t.delta == tasks[id].delta
    ensures Total(tasks[id := t], key) == Total(tasks, key)
    ensures Outstanding(tasks[id := t], key)
         == Outstanding(tasks, key) - OpenShare(tasks[id], key) + OpenShare(t, key)
    decreases |tasks|
  {
    var n := |tasks| - 1;
    if id == n {
      assert tasks[id := t][..n] == tasks[..n];
    } else {
      assert tasks[id := t][..n] == tasks[..n][id := t];
      SumsUpdate(tasks[..n], id, t, key);
    }
  }

  // ------------------------------------------------------------------- what always holds

  ghost predicate TasksSound(db: Db) {
    forall id :: 0 <= id < |db.tasks| ==>
      db.tasks[id].key in db.counters && (db.tasks[id].delta == 1 || db.tasks[id].delta == -1)
  }

  predicate Balanced(db: Db, key: Key) {
    && CounterOf(db, key) + Outstanding(db.tasks, key) == |FansOf(db, key)| + ClampedOf(db, key)
    && Total(db.tasks, key) == |FansOf(db, key)|
  }

  lemma FansStep(fans: set<UserId>, user: UserId, action: Action)
    requires FansAfter(fans, user, action) != fans
    ensures |FansAfter(fans, user, action)| == |fans| + action.Delta()
  {
    if action.Delta() == 1 {
      assert user !in fans;
    } else {
      assert user in fans && fans == FansAfter(fans, user, action) + {user};
    }
  }

  lemma MutateKeepsBalance(db: Db, post: PostId, user: UserId, action: Action, key: Key)
    requires Balanced(db, key)
    ensures Balanced(MutateStep(db, post, user, action), key)
  {
    var db' := MutateStep(db, post, user, action);
    if db' != db {
      var k := Key(post, action.Metric());
      FansStep(FansOf(db, k), user, action);
      SumsAppend(db.tasks, Task(k, action.Delta(), Pending, 0, 0), key);
    }
  }

  lemma ClaimKeepsBalance(db: Db, id: TaskId, worker: WorkerId, key: Key)
    requires Balanced(db, key)
    ensures Balanced(ClaimStep(db, id, worker), key)
  {
    if id < |db.tasks| && Claimable(db.tasks[id]) {
      SumsUpdate(db.tasks, id, ClaimStep(db, id, worker).tasks[id], key);
    }
  }

  lemma ApplyClaimedKeepsBalance(db: Db, id: TaskId, worker: WorkerId, key: Key)
    requires Balanced(db, key)
    ensures Balanced(ApplyStep(db, id, worker), key)
  {
    if Takes(db, id, worker) {
      SumsUpdate(db.tasks, id, db.tasks[id].(status := Done), key);
    }
  }

  lemma MarkFailedKeepsBalance(db: Db, id: TaskId, worker: WorkerId, threshold: nat, key: Key)
    requires Balanced(db, key)
    ensures Balanced(MarkFailedStep(db, id, worker, threshold), key)
  {
    if Owns(db, id, worker) {
      SumsUpdate(db.tasks, id, MarkFailedStep(db, id, worker, threshold).tasks[id], key);
    }
  }

  lemma ApplyKeepsTasksSound(db: Db, s: Step)
    requires TasksSound(db)
    ensures TasksSound(Apply(db, s))
  {
  }

  lemma ApplyKeepsBalance(db: Db, s: Step, key: Key)
    requires TasksSound(db) && Balanced(db, key)
    ensures TasksSound(Apply(db, s)) && Balanced(Apply(db, s), key)
  {
    ApplyKeepsTasksSound(db, s);
    match s
    case InitializeStats(_) =>
    case SetVisible(_, _) =>
    case Mutate(post, user, action) => MutateKeepsBalance(db, post, user, action, key);
    case Claim(id, worker) => ClaimKeepsBalance(db, id, worker, key);
    case ApplyClaimed(id, worker) => ApplyClaimedKeepsBalance(db, id, worker, key);
    case MarkFailed(id, worker, threshold) => MarkFailedKeepsBalance(db, id, worker, threshold, key);
  }

  lemma {:induction false} RunIsBalanced(steps: seq<Step>, key: Key)
    ensures TasksSound(Run(Empty, steps)) && Balanced(Run(Empty, steps), key)
    decreases |steps|
  {
    if steps != [] {
      RunIsBalanced(steps[..|steps| - 1], key);
      ApplyKeepsBalance(Run(Empty, steps[..|steps| - 1]), steps[|steps| - 1], key);
    }
  }

  // --------------------------------------------------------------- drift, and its cause

  /** Step `i` of the run applies a decrement of the counter while it stands at zero. */
  predicate ClampsAt(steps: seq<Step>, i: nat, key: Key)
    requires i < |steps|
  {
    var db := Run(Empty, steps[..i]);
    steps[i].ApplyClaimed? && Clamps(db, steps[i].id, steps[i].worker) && db.tasks[steps[i].id].key == key
  }

  function Clampings(steps: seq<Step>, key: Key): nat
    decreases |steps|
  {
    if steps == [] then 0
    else Clampings(steps[..|steps| - 1], key) + if ClampsAt(steps, |steps| - 1, key) then 1 else 0
  }

  lemma {:induction false} ClampedCountsThem(steps: seq<Step>, key: Key)
    ensures ClampedOf(Run(Empty, steps), key) == Clampings(steps, key)
    decreases |steps|
  {
    if steps != [] {
      ClampedCountsThem(steps[..|steps| - 1], key);
      RunIsBalanced(steps[..|steps| - 1], key);
    }
  }

  lemma {:induction false} NoClampingsMeansNone(steps: seq<Step>, key: Key)
    ensures Clampings(steps, key) == 0 <==> forall i :: 0 <= i < |steps| ==> !ClampsAt(steps, i, key)
    decreases |steps|
  {
    if steps != [] {
      var before := steps[..|steps| - 1];
      NoClampingsMeansNone(before, key);
      forall i | 0 <= i < |before| ensures ClampsAt(before, i, key) == ClampsAt(steps, i, key) {
        assert before[..i] == steps[..i];
      }
    }
  }

  /** In every reachable state, for every counter: what is stored, plus the deltas of
      all tasks not done, is the number of users who like (or favour) the post now,
      plus the number of decrements that were held at zero. */
  lemma CountersDriftByClampings(steps: seq<Step>, key: Key)
    ensures var db := Run(Empty, steps);
            CounterOf(db, key) + Outstanding(db.tasks, key) == |FansOf(db, key)| + Clampings(steps, key)
  {
    RunIsBalanced(steps, key);
    ClampedCountsThem(steps, key);
  }

  /** So the promise of exactly-once counting holds if and only if no step of the run
      applied a decrement to a counter at zero. */
  lemma ExactIffNeverClamped(steps: seq<Step>, key: Key)
    ensures var db := Run(Empty, steps);
            (CounterOf(db, key) + Outstanding(db.tasks, key) == |FansOf(db, key)|)
            <==> (forall i :: 0 <= i < |steps| ==> !ClampsAt(steps, i, key))
  {
    CountersDriftByClampings(steps, key);
    NoClampingsMeansNone(steps, key);
  }

  lemma {:induction false} NothingOutstanding(tasks: seq<Task>, key: Key)
    requires forall id :: 0 <= id < |tasks| && tasks[id].key == key ==> tasks[id].status == Done
    ensures Outstanding(tasks, key) == 0
    decreases |tasks|
  {
    if tasks != [] {
      NothingOutstanding(tasks[..|tasks| - 1], key);
    }
  }

  /** With every task of a counter done, none failed for good and none clamped, the
      stored counter is the number of users. */
  lemma QuietCounterIsExact(steps: seq<Step>, key: Key)
    requires forall i :: 0 <= i < |steps| ==> !ClampsAt(steps, i, key)
    requires var db := Run(Empty, steps);
             forall id :: 0 <= id < |db.tasks| && db.tasks[id].key == key ==> db.tasks[id].status == Done
    ensures CounterOf(Run(Empty, steps), key) == |FansOf(Run(Empty, steps), key)|
  {
    ExactIffNeverClamped(steps, key);
    NothingOutstanding(Run(Empty, steps).tasks, key);
  }

  // ------------------------------------------------------------------ in order, no drift

  /** The task a step is about to finish, if it is one of this counter, is the oldest
      one open. */
  predicate TakesTheOldest(db: Db, s: Step, key: Key) {
    s.ApplyClaimed? && Takes(db, s.id, s.worker) && db.tasks[s.id].key == key ==>
      forall i :: 0 <= i < s.id && db.tasks[i].key == key ==> db.tasks[i].status == Done
  }

  /** Step `i` applies no task of the counter before all older ones are done. */
  predicate InOrderAt(steps: seq<Step>, i: nat, key: Key)
    requires i < |steps|
  {
    TakesTheOldest(Run(Empty, steps[..i]), steps[i], key)
  }

  predicate PrefixesCount(tasks: seq<Task>, key: Key) {
    forall n :: 0 <= n <= |tasks| ==> Total(tasks[..n], key) >= 0
  }

  predicate DoneFirst(tasks: seq<Task>, key: Key) {
    forall i, j :: 0 <= i < j < |tasks| && tasks[i].key == key == tasks[j].key && tasks[j].status == Done ==>
      tasks[i].status == Done
  }

  lemma PrefixesCountAppend(tasks: seq<Task>, t: Task, key: Key)
    requires PrefixesCount(tasks, key) && Total(tasks + [t], key) >= 0
    ensures PrefixesCount(tasks + [t], key)
  {
    forall n | 0 <= n <= |tasks| + 1 ensures Total((tasks + [t])[..n], key) >= 0 {
      if n <= |tasks| {
        assert (tasks + [t])[..n] == tasks[..n];
      } else {
        assert (tasks + [t])[..n] == tasks + [t];
      }
    }
  }

  lemma PrefixesCountUpdate(tasks: seq<Task>, id: TaskId, t: Task, key: Key)
    requires id < |tasks| && t.key == tasks[id].key && t.delta == tasks[id].delta
    requires PrefixesCount(tasks, key)
    ensures PrefixesCount(tasks[id := t], key)
  {
    var updated := tasks[id := t];
    forall n | 0 <= n <= |updated| ensures Total(updated[..n], key) >= 0 {
      assert Total(tasks[..n], key) >= 0;
      if id < n {
        assert updated[..n] == tasks[..n][id := t];
        SumsUpdate(tasks[..n], id, t, key);
      } else {
        assert updated[..n] == tasks[..n];
      }
    }
  }

  /** What has been applied when the done tasks are the ones before `id`. */
  lemma {:induction false} AppliedIsThePrefix(tasks: seq<Task>, id: TaskId, key: Key)
    requires id <= |tasks|
    requires forall i :: 0 <= i < |tasks| && tasks[i].key == key ==> (tasks[i].status == Done <==> i < id)
    ensures Total(tasks, key) - Outstanding(tasks, key) == Total(tasks[..id], key)
    decreases |tasks|
  {
    if id == |tasks| {
      assert tasks[..id] == tasks;
      NothingOutstanding(tasks, key);
    } else {
      var n := |tasks| - 1;
      assert tasks[..n][..id] == tasks[..id];
      AppliedIsThePrefix(tasks[..n], id, key);
    }
  }

  lemma InOrderApplyDoesNotClamp(db: Db, id: TaskId, worker: WorkerId)
    requires Takes(db, id, worker)
    requires var key := db.tasks[id].key;
             && Balanced(db, key) && ClampedOf(db, key) == 0
             && PrefixesCount(db.tasks, key) && DoneFirst(db.tasks, key)
             && forall i :: 0 <= i < id && db.tasks[i].key == key ==> db.tasks[i].status == Done
    ensures !Clamps(db, id, worker)
  {
    var key := db.tasks[id].key;
    forall i | 0 <= i < |db.tasks| && db.tasks[i].key == key ensures db.tasks[i].status == Done <==> i < id {
      if i > id {
        assert db.tasks[i].status != Done;
      }
    }
    AppliedIsThePrefix(db.tasks, id, key);
    SumsAppend(db.tasks[..id], db.tasks[id], key);
    assert db.tasks[..id] + [db.tasks[id]] == db.tasks[..id + 1];
    assert Total(db.tasks[..id + 1], key) >= 0;
  }

  ghost predicate Orderly(db: Db, key: Key) {
    && TasksSound(db) && Balanced(db, key) && ClampedOf(db, key) == 0
    && PrefixesCount(db.tasks, key) && DoneFirst(db.tasks, key)
  }

  lemma MutateKeepsOrder(db: Db, post: PostId, user: UserId, action: Action, key: Key)
    requires PrefixesCount(db.tasks, key) && DoneFirst(db.tasks, key)
    requires Total(MutateStep(db, post, user, action).tasks, key) >= 0
    ensures PrefixesCount(MutateStep(db, post, user, action).tasks, key)
    ensures DoneFirst(MutateStep(db, post, user, action).tasks, key)
  {
    if MutateStep(db, post, user, action).tasks != db.tasks {
      PrefixesCountAppend(db.tasks, Task(Key(post, action.Metric()), action.Delta(), Pending, 0, 0), key);
    }
  }

  lemma TaskStepKeepsOrder(db: Db, s: Step, key: Key)
    requires PrefixesCount(db.tasks, key) && DoneFirst(db.tasks, key)
    requires (s.Claim? || s.ApplyClaimed? || s.MarkFailed?) && TakesTheOldest(db, s, key)
    ensures PrefixesCount(Apply(db, s).tasks, key) && DoneFirst(Apply(db, s).tasks, key)
  {
    var tasks := Apply(db, s).tasks;
    if tasks != db.tasks {
      assert tasks == db.tasks[s.id := tasks[s.id]];
      PrefixesCountUpdate(db.tasks, s.id, tasks[s.id], key);
    }
  }

  lemma StepKeepsOrderly(db: Db, s: Step, key: Key)
    requires Orderly(db, key) && TakesTheOldest(db, s, key)
    ensures Orderly(Apply(db, s), key)
  {
    ApplyKeepsBalance(db, s, key);
    if s.Mutate? {
      MutateKeepsOrder(db, s.post, s.user, s.action, key);
    } else if s.Claim? || s.ApplyClaimed? || s.MarkFailed? {
      TaskStepKeepsOrder(db, s, key);
      if s.ApplyClaimed? && Takes(db, s.id, s.worker) && db.tasks[s.id].key == key {
        InOrderApplyDoesNotClamp(db, s.id, s.worker);
      }
    }
  }

  lemma {:induction false} InOrderRunIsOrderly(steps: seq<Step>, key: Key)
    requires forall i :: 0 <= i < |steps| ==> InOrderAt(steps, i, key)
    ensures Orderly(Run(Empty, steps), key)
    decreases |steps|
  {
    if steps != [] {
      var n := |steps| - 1;
      forall i | 0 <= i < n ensures InOrderAt(steps[..n], i, key) {
        assert steps[..n][..i] == steps[..i] && InOrderAt(steps, i, key);
      }
      InOrderRunIsOrderly(steps[..n], key);
      var db, s := Run(Empty, steps[..n]), steps[n];
      assert InOrderAt(steps, n, key);
      StepKeepsOrderly(db, s, key);
    }
  }

  /** Workers that apply the deltas of a counter in the order of the changes never
      hold a decrement at zero, so the counter is exactly-once throughout. */
  lemma InOrderIsExact(steps: seq<Step>, key: Key)
    requires forall i :: 0 <= i < |steps| ==> InOrderAt(steps, i, key)
    ensures var db := Run(Empty, steps);
            CounterOf(db, key) + Outstanding(db.tasks, key) == |FansOf(db, key)|
  {
    InOrderRunIsOrderly(steps, key);
  }

  // -------------------------------------------------------------------- a run that drifts

  lemma Next(steps: seq<Step>, db: Db, s: Step, db': Db)
    requires Run(Empty, steps) == db && Apply(db, s) == db'
    ensures Run(Empty, steps + [s]) == db'
  {
    assert (steps + [s])[..|steps|] == steps;
  }

  /** One user likes a post and takes it back; the first task fails once. */
  function LikeAndUnlike(user: UserId): seq<Step> {
    [InitializeStats(1)] + [SetVisible(1, true)] + [Mutate(1, user, Like)] + [Mutate(1, user, Unlike)]
  }

  const LIKES := Key(1, LikeMetric)

  const ZERO := map[Key(1, LikeMetric) := 0, Key(1, FavoriteMetric) := 0]

  function TwoTasks(user: UserId): Db {
    Db({1}, map[LIKES := {}], ZERO, [Task(LIKES, 1, Pending, 0, 0), Task(LIKES, -1, Pending, 0, 0)], map[])
  }

  lemma LikeAndUnlikeRuns(user: UserId)
    ensures Run(Empty, LikeAndUnlike(user)) == TwoTasks(user)
  {
    var d1 := Empty.(counters := ZERO);
    var d2 := d1.(visible := {1});
    var d3 := d2.(fans := map[LIKES := {user}], tasks := [Task(LIKES, 1, Pending, 0, 0)]);
    var steps := [];
    Next(steps, Empty, InitializeStats(1), d1);
    steps := steps + [InitializeStats(1)];
    Next(steps, d1, SetVisible(1, true), d2);
    steps := steps + [SetVisible(1, true)];
    assert FansAfter({}, user, Like) == {user};
    Next(steps, d2, Mutate(1, user, Like), d3);
    steps := steps + [Mutate(1, user, Like)];
    assert {user} - {user} == {};
    Next(steps, d3, Mutate(1, user, Unlike), TwoTasks(user));
    assert steps + [Mutate(1, user, Unlike)] == LikeAndUnlike(user);
  }

  function Undone(worker: WorkerId): seq<Step> {
    [Claim(0, worker)] + [MarkFailed(0, worker, 5)] + [Claim(1, worker)] + [ApplyClaimed(1, worker)]
  }

  /** The decrement is applied first and held at zero. */
  function HeldAtZero(worker: WorkerId): Db {
    Db({1}, map[LIKES := {}], ZERO, [Task(LIKES, 1, Failed, 0, 1), Task(LIKES, -1, Done, worker, 1)], map[LIKES := 1])
  }

  lemma UndoneRuns(user: UserId, worker: WorkerId)
    ensures Run(Empty, LikeAndUnlike(user) + Undone(worker)) == HeldAtZero(worker)
  {
    LikeAndUnlikeRuns(user);
    var d0 := TwoTasks(user);
    var d1 := ClaimStep(d0, 0, worker);
    var d2 := MarkFailedStep(d1, 0, worker, 5);
    var d3 := ClaimStep(d2, 1, worker);
    assert d2.tasks == [Task(LIKES, 1, Failed, 0, 1), Task(LIKES, -1, Pending, 0, 0)];
    assert ApplyStep(d3, 1, worker) == HeldAtZero(worker);
    var steps := LikeAndUnlike(user);
    Next(steps, d0, Claim(0, worker), d1);
    steps := steps + [Claim(0, worker)];
    Next(steps, d1, MarkFailed(0, worker, 5), d2);
    steps := steps + [MarkFailed(0, worker, 5)];
    Next(steps, d2, Claim(1, worker), d3);
    steps := steps + [Claim(1, worker)];
    Next(steps, d3, ApplyClaimed(1, worker), HeldAtZero(worker));
    assert steps + [ApplyClaimed(1, worker)] == LikeAndUnlike(user) + Undone(worker);
  }

  /** Then the increment is retried: every task is done, nobody likes the post, and
      the counter says one. */
  lemma RetriedLikeDrifts(user: UserId, worker: WorkerId)
    ensures var db := Run(Empty, LikeAndUnlike(user) + Undone(worker) + [Claim(0, worker)] + [ApplyClaimed(0, worker)]);
            && (forall id :: 0 <= id < |db.tasks| ==> db.tasks[id].status == Done)
            && FansOf(db, LIKES) == {} && CounterOf(db, LIKES) == 1
  {
    UndoneRuns(user, worker);
    var steps := LikeAndUnlike(user) + Undone(worker);
    var d5 := ClaimStep(HeldAtZero(worker), 0, worker);
    Next(steps, HeldAtZero(worker), Claim(0, worker), d5);
    Next(steps + [Claim(0, worker)], d5, ApplyClaimed(0, worker), ApplyStep(d5, 0, worker));
  }
}
