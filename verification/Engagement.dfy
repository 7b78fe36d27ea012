/** Likes and favourites of posts, their stored counters, and the delta tasks that
    carry each change to a counter later. A command is one transaction; workers claim
    tasks, apply each delta together with marking its task done, or mark it failed.
    Anything not finished may be claimed again at any time. */
module Engagement {

  type PostId = nat
  type UserId = nat
  type WorkerId = nat
  type TaskId = nat

  datatype Metric = LikeMetric | FavoriteMetric

  datatype Key = Key(post: PostId, metric: Metric)

  datatype Action = Like | Unlike | Favorite | Unfavorite
  {
    function Metric(): Metric { if Like? || Unlike? then LikeMetric else FavoriteMetric }

    function Delta(): int { if Like? || Favorite? then 1 else -1 }
  }

  datatype TaskStatus = Pending | Processing | Failed | Done | Dead

  datatype Task = Task(key: Key, delta: int, status: TaskStatus, claimedBy: WorkerId, attempts: nat)

  /** The id of a task is its index. `fans` holds who likes and favourites what,
      `counters` the stored counters of the posts that have a statistics row, and
      `clamped` counts how often a counter was held at zero. */
  datatype Db = Db(
    visible: set<PostId>,
    fans: map<Key, set<UserId>>,
    counters: map<Key, nat>,
    tasks: seq<Task>,
    clamped: map<Key, nat>)

  const Empty := Db({}, map[], map[], [], map[])

  datatype Step =
    | InitializeStats(post: PostId)
    | SetVisible(post: PostId, visible: bool)
    | Mutate(post: PostId, user: UserId, action: Action)
    | Claim(id: TaskId, worker: WorkerId)
    | ApplyClaimed(id: TaskId, worker: WorkerId)
    | MarkFailed(id: TaskId, worker: WorkerId, threshold: nat)

  function FansOf(db: Db, key: Key): set<UserId> {
    if key in db.fans then db.fans[key] else {}
  }

  function CounterOf(db: Db, key: Key): nat {
    if key in db.counters then db.counters[key] else 0
  }

  function ClampedOf(db: Db, key: Key): nat {
    if key in db.clamped then db.clamped[key] else 0
  }

  /** The statement answers for a published post with a statistics row only. */
  predicate Answers(db: Db, post: PostId) {
    post in db.visible && Key(post, LikeMetric) in db.counters && Key(post, FavoriteMetric) in db.counters
  }

  function FansAfter(fans: set<UserId>, user: UserId, action: Action): set<UserId> {
    if action.Delta() == 1 then fans + {user} else fans - {user}
  }

  function MutateStep(db: Db, post: PostId, user: UserId, action: Action): Db {
    var key := Key(post, action.Metric());
    var after := FansAfter(FansOf(db, key), user, action);
    if !Answers(db, post) || after == FansOf(db, key) then db
    else db.(fans := db.fans[key := after],
             tasks := db.tasks + [Task(key, action.Delta(), Pending, 0, 0)])
  }

  function InitializeStep(db: Db, post: PostId): Db {
    var likes, favorites := Key(post, LikeMetric), Key(post, FavoriteMetric);
    if likes in db.counters || favorites in db.counters then db
    else db.(counters := db.counters[likes := 0][favorites := 0])
  }

  predicate Claimable(t: Task) { t.status != Done && t.status != Dead }

  function ClaimStep(db: Db, id: TaskId, worker: WorkerId): Db {
    if id >= |db.tasks| || !Claimable(db.tasks[id]) then db
    else
      var t := db.tasks[id];
      db.(tasks := db.tasks[id := t.(status := Processing, claimedBy := worker, attempts := t.attempts + 1)])
  }

  predicate Owns(db: Db, id: TaskId, worker: WorkerId) {
    id < |db.tasks| && db.tasks[id].status == Processing && db.tasks[id].claimedBy == worker
  }

  /** The apply statement touches something: the claim holds and the counter exists. */
  predicate Takes(db: Db, id: TaskId, worker: WorkerId) {
    Owns(db, id, worker) && db.tasks[id].key in db.counters
  }

  /** The guard of GREATEST(0, counter + delta) bites. */
  predicate Clamps(db: Db, id: TaskId, worker: WorkerId) {
    Takes(db, id, worker) && db.counters[db.tasks[id].key] + db.tasks[id].delta < 0
  }

  /** The delta and the status change in one transaction. */
  function ApplyStep(db: Db, id: TaskId, worker: WorkerId): Db {
    if !Takes(db, id, worker) then db
    else
      var t := db.tasks[id];
      var sum := db.counters[t.key] + t.delta;
      var applied := db.(tasks := db.tasks[id := t.(status := Done)],
                         counters := db.counters[t.key := if sum < 0 then 0 else sum]);
      if sum < 0 then applied.(clamped := db.clamped[t.key := ClampedOf(db, t.key) - sum]) else applied
  }

  function MarkFailedStep(db: Db, id: TaskId, worker: WorkerId, threshold: nat): Db {
    if !Owns(db, id, worker) then db
    else
      var t := db.tasks[id];
      db.(tasks := db.tasks[id := t.(status := if t.attempts >= threshold then Dead else Failed, claimedBy := 0)])
  }

  function Apply(db: Db, s: Step): Db {
    match s
    case InitializeStats(post) => InitializeStep(db, post)
    case SetVisible(post, visible) => db.(visible := if visible then db.visible + {post} else db.visible - {post})
    case Mutate(post, user, action) => MutateStep(db, post, user, action)
    case Claim(id, worker) => ClaimStep(db, id, worker)
    case ApplyClaimed(id, worker) => ApplyStep(db, id, worker)
    case MarkFailed(id, worker, threshold) => MarkFailedStep(db, id, worker, threshold)
  }

  function Run(db: Db, steps: seq<Step>): Db
    decreases |steps|
  {
    if steps == [] then db else Apply(Run(db, steps[..|steps| - 1]), steps[|steps| - 1])
  }
}
