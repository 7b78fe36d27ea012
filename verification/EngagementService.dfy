/** The engagement commands and the statistics worker as they run: rows updated in
    place, one transaction at a time. Every transaction is a step of `Engagement`, so
    the counting results hold for any history of this object. */
module EngagementService {
  import opened Engagement
  import opened EngagementStats

  datatype Mutation = Mutation(changed: bool, active: bool) | PostNotFound

  datatype Applied = Applied | ClaimLost | StatsMissing

  function ClaimedBy(t: Task, worker: WorkerId): Task {
    t.(status := Processing, claimedBy := worker, attempts := t.attempts + 1)
  }

  /** Which of the first `n` tasks a claim picks. */
  function Picked(tasks: seq<Task>, n: nat, limit: nat, due: set<TaskId>): (ids: seq<TaskId>)
    requires n <= |tasks|
    ensures |ids| <= limit
    ensures forall k :: 0 <= k < |ids| ==> ids[k] < n && ids[k] in due && Claimable(tasks[ids[k]])
    ensures forall j, k :: 0 <= j < k < |ids| ==> ids[j] < ids[k]
  {
    if n == 0 then []
    else
      var ids := Picked(tasks, n - 1, limit, due);
      if |ids| < limit && n - 1 in due && Claimable(tasks[n - 1]) then ids + [n - 1] else ids
  }

  lemma {:induction false} PickedWhenFull(tasks: seq<Task>, n: nat, m: nat, limit: nat, due: set<TaskId>)
    requires n <= m <= |tasks| && |Picked(tasks, n, limit, due)| == limit
    ensures Picked(tasks, m, limit, due) == Picked(tasks, n, limit, due)
  {
    if n < m {
      PickedWhenFull(tasks, n, m - 1, limit, due);
    }
  }

  /** Exactly the tasks of `ids` are claimed by the worker, the others as before. */
  predicate Taken(before: seq<Task>, after: seq<Task>, ids: seq<TaskId>, worker: WorkerId) {
    && |after| == |before|
    && forall i :: 0 <= i < |after| ==> after[i] == if i in ids then ClaimedBy(before[i], worker) else before[i]
  }

  lemma TakenOneMore(before: seq<Task>, after: seq<Task>, ids: seq<TaskId>, id: TaskId, worker: WorkerId)
    requires Taken(before, after, ids, worker) && id < |after| && id !in ids
    ensures after[id] == before[id]
    ensures Taken(before, after[id := ClaimedBy(after[id], worker)], ids + [id], worker)
  {
  }

  class EngagementStore {
    var visible: set<PostId>
    var fans: map<Key, set<UserId>>
    var counters: map<Key, nat>
    var tasks: seq<Task>
    ghost var clamped: map<Key, nat>
    ghost var trace: seq<Step>

    ghost function State(): Db
      reads this
    {
      Db(visible, fans, counters, tasks, clamped)
    }

    ghost predicate Valid()
      reads this
    {
      State() == Run(Empty, trace)
    }

    constructor ()
      ensures Valid() && trace == []
    {
      visible, fans, counters, tasks := {}, map[], map[], [];
      clamped, trace := map[], [];
    }

    lemma Extends(s: Step)
      requires Valid()
      ensures Run(Empty, trace + [s]) == Apply(State(), s)
    {
      assert (trace + [s])[..|trace|] == trace;
    }

    /** LikePost, UnlikePost, FavoritePost and UnfavoritePost: the relation changes and
        the delta task is written in one transaction, or nothing happens. */
    method MutateEngagement(post: PostId, user: UserId, action: Action) returns (r: Mutation)
      requires Valid()
      modifies this
      ensures Valid() && trace == old(trace) + [Mutate(post, user, action)]
      ensures r.PostNotFound? <==>
                post !in visible || Key(post, LikeMetric) !in counters || Key(post, FavoriteMetric) !in counters
      ensures r.PostNotFound? ==> fans == old(fans) && tasks == old(tasks)
      ensures r.Mutation? ==>
                var key := Key(post, if action in {Like, Unlike} then LikeMetric else FavoriteMetric);
                var before := FansOf(old(State()), key);
                && (r.active <==> action in {Like, Favorite})
                && (r.changed <==> (r.active <==> user !in before))
                && fans == (if !r.changed then old(fans)
                            else old(fans)[key := if r.active then before + {user} else before - {user}])
                && tasks == (if !r.changed then old(tasks)
                             else old(tasks) + [Task(key, if r.active then 1 else -1, Pending, 0, 0)])
      ensures visible == old(visible) && counters == old(counters)
    {
      Extends(Mutate(post, user, action));
      trace := trace + [Mutate(post, user, action)];
      var likes, favorites := Key(post, LikeMetric), Key(post, FavoriteMetric);
      if post !in visible || likes !in counters || favorites !in counters {
        return PostNotFound;
      }
      var key := if action.Metric() == LikeMetric then likes else favorites;
      var before := if key in fans then fans[key] else {};
      var after := if action.Delta() == 1 then before + {user} else before - {user};
      var changed := (user in before) != (user in after);
      assert changed <==> after != before;
      if changed {
        fans := fans[key := after];
        tasks := tasks + [Task(key, action.Delta(), Pending, 0, 0)];
      }
      r := Mutation(changed, user in after);
    }

    /** The selecting half of the claim query. `due` stands for the conditions on the
        retry and claim times. */
    method PickDue(limit: nat, due: set<TaskId>) returns (ids: seq<TaskId>)
      ensures ids == Picked(tasks, |tasks|, limit, due)
    {
      ids := [];
      var i := 0;
      while i < |tasks| && |ids| < limit
        invariant 0 <= i <= |tasks| && ids == Picked(tasks, i, limit, due)
      {
        if i in due && tasks[i].status != Done && tasks[i].status != Dead {
          ids := ids + [i];
        }
        i := i + 1;
      }
      if i < |tasks| {
        PickedWhenFull(tasks, i, |tasks|, limit, due);
      }
    }

    /** One batch: the first tasks in order of id that are due, whoever held them, up
        to the limit. */
    method ClaimBatch(worker: WorkerId, limit: nat, due: set<TaskId>) returns (ids: seq<TaskId>)
      requires Valid()
      modifies `tasks, `trace
      ensures Valid() && old(trace) <= trace
      ensures ids == Picked(old(tasks), |old(tasks)|, limit, due)
      ensures Taken(old(tasks), tasks, ids, worker)
    {
      ids := PickDue(limit, due);
      var k := 0;
      while k < |ids|
        invariant 0 <= k <= |ids| && Valid() && old(trace) <= trace
        invariant Taken(old(tasks), tasks, ids[..k], worker)
      {
        TakenOneMore(old(tasks), tasks, ids[..k], ids[k], worker);
        assert ids[..k + 1] == ids[..k] + [ids[k]];
        ClaimOne(worker, ids[k]);
        k := k + 1;
      }
      assert ids[..k] == ids;
    }

    method ClaimOne(worker: WorkerId, id: TaskId)
      requires Valid() && id < |tasks| && Claimable(tasks[id])
      modifies `tasks, `trace
      ensures Valid() && trace == old(trace) + [Claim(id, worker)]
      ensures tasks == old(tasks)[id := ClaimedBy(old(tasks)[id], worker)]
    {
      Extends(Claim(id, worker));
      trace := trace + [Claim(id, worker)];
      tasks := tasks[id := ClaimedBy(tasks[id], worker)];
    }

    /** ApplyClaimed: adds the delta and marks the task done in one transaction, or
        changes nothing. */
    method ApplyClaimedTask(id: TaskId, worker: WorkerId) returns (r: Applied)
      requires Valid()
      modifies `counters, `tasks, `clamped, `trace
      ensures Valid() && trace == old(trace) + [ApplyClaimed(id, worker)]
      ensures r.ClaimLost? <==> !Owns(old(State()), id, worker)
      ensures r.Applied? <==> Takes(old(State()), id, worker)
      ensures !r.Applied? ==> counters == old(counters) && tasks == old(tasks)
      ensures r.Applied? ==>
                && id < |tasks| && tasks[id].status == Done && old(tasks)[id].status != Done
                && tasks == old(tasks)[id := old(tasks)[id].(status := Done)]
                && var sum := old(counters)[tasks[id].key] + tasks[id].delta;
                   counters == old(counters)[tasks[id].key := if sum < 0 then 0 else sum]
    {
      Extends(ApplyClaimed(id, worker));
      trace := trace + [ApplyClaimed(id, worker)];
      if id >= |tasks| || tasks[id].status != Processing || tasks[id].claimedBy != worker {
        return ClaimLost;
      }
      var task := tasks[id];
      if task.key !in counters {
        return StatsMissing;
      }
      var sum := counters[task.key] + task.delta;
      clamped := if sum < 0 then clamped[task.key := ClampedOf(State(), task.key) - sum] else clamped;
      counters := counters[task.key := if sum < 0 then 0 else sum];
      tasks := tasks[id := task.(status := Done)];
      r := Applied;
    }

    method MarkTaskFailed(id: TaskId, worker: WorkerId, threshold: nat) returns (owned: bool)
      requires Valid()
      modifies `tasks, `trace
      ensures Valid() && trace == old(trace) + [MarkFailed(id, worker, threshold)]
      ensures owned <==> Owns(old(State()), id, worker)
      ensures owned ==>
                && id < |tasks| && tasks[id].claimedBy == 0 && tasks[id].attempts == old(tasks)[id].attempts
                && (tasks[id].status == Dead <==> tasks[id].attempts >= threshold)
                && (tasks[id].status == Failed <==> tasks[id].attempts < threshold)
      ensures !owned ==> tasks == old(tasks)
    {
      Extends(MarkFailed(id, worker, threshold));
      trace := trace + [MarkFailed(id, worker, threshold)];
      if id >= |tasks| || tasks[id].status != Processing || tasks[id].claimedBy != worker {
        return false;
      }
      var task := tasks[id];
      tasks := tasks[id := task.(status := if task.attempts >= threshold then Dead else Failed, claimedBy := 0)];
      owned := true;
    }

    /** The worker's handler: a lost claim counts as handled, since whoever took the
        task over applies it; success needs no further mark. */
    method Handle(id: TaskId, worker: WorkerId) returns (ok: bool)
      requires Valid()
      modifies `counters, `tasks, `clamped, `trace
      ensures Valid() && trace == old(trace) + [ApplyClaimed(id, worker)]
      ensures ok <==> Takes(old(State()), id, worker) || !Owns(old(State()), id, worker)
    {
      var applied := ApplyClaimedTask(id, worker);
      ok := applied != StatsMissing;
    }

    /** What a caller can rely on at any time: the counter is the number of users, less
        the deltas still to come, unless a decrement was once held at zero. */
    lemma CountsUsers(key: Key)
      requires Valid()
      ensures (CounterOf(State(), key) + Outstanding(tasks, key) == |FansOf(State(), key)|)
              <==> (forall i :: 0 <= i < |trace| ==> !ClampsAt(trace, i, key))
    {
      ExactIffNeverClamped(trace, key);
    }
  }
}
