/** What a like means, read off the history alone: a user likes a post exactly when the
    last like or unlike of the user that found the post open was a like, and in the
    same way, independently, for favourites. */
module EngagementRules {
  import opened Engagement

  /** The post is published as far as the history tells. */
  predicate IsPublished(steps: seq<Step>, post: PostId)
    decreases |steps|
  {
    if steps == [] then false
    else
      var s := steps[|steps| - 1];
      if s.SetVisible? && s.post == post then s.visible else IsPublished(steps[..|steps| - 1], post)
  }

  /** The post has been given its row of statistics. */
  predicate HasStatistics(steps: seq<Step>, post: PostId) {
    InitializeStats(post) in steps
  }

  /** The last time the user said `yes` or `no` to the post while it was open, the user
      said `yes`. */
  predicate SaysYes(steps: seq<Step>, post: PostId, user: UserId, yes: Action, no: Action)
    decreases |steps|
  {
    if steps == [] then false
    else
      var s, before := steps[|steps| - 1], steps[..|steps| - 1];
      if s.Mutate? && s.post == post && s.user == user && s.action in {yes, no}
         && IsPublished(before, post) && HasStatistics(before, post)
      then s.action == yes
      else SaysYes(before, post, user, yes, no)
  }

  lemma {:induction false} VisibleIsPublished(steps: seq<Step>, post: PostId)
    ensures post in Run(Empty, steps).visible <==> IsPublished(steps, post)
    decreases |steps|
  {
    if steps != [] {
      VisibleIsPublished(steps[..|steps| - 1], post);
    }
  }

  lemma {:induction false} CountersHaveRows(steps: seq<Step>, post: PostId, metric: Metric)
    ensures Key(post, metric) in Run(Empty, steps).counters <==> HasStatistics(steps, post)
    decreases |steps|
  {
    if steps != [] {
      var before, s := steps[..|steps| - 1], steps[|steps| - 1];
      CountersHaveRows(before, post, LikeMetric);
      CountersHaveRows(before, post, FavoriteMetric);
      assert steps == before + [s];
      RowsGrow(Run(Empty, before), s, post, metric);
    }
  }

  lemma RowsGrow(db: Db, s: Step, post: PostId, metric: Metric)
    requires Key(post, LikeMetric) in db.counters <==> Key(post, FavoriteMetric) in db.counters
    ensures Key(post, metric) in Apply(db, s).counters <==>
              Key(post, metric) in db.counters || s == InitializeStats(post)
  {
  }

  /** One step on the relation of one user to one post, in one metric. */
  lemma FansFollow(db: Db, s: Step, post: PostId, user: UserId, metric: Metric)
    ensures user in FansOf(Apply(db, s), Key(post, metric)) <==>
              if s.Mutate? && s.post == post && s.user == user && Answers(db, post)
                 && s.action in (if metric == LikeMetric then {Like, Unlike} else {Favorite, Unfavorite})
              then s.action in {Like, Favorite}
              else user in FansOf(db, Key(post, metric))
  {
  }

  lemma {:induction false} FansSaidYes(steps: seq<Step>, post: PostId, user: UserId, metric: Metric)
    ensures user in FansOf(Run(Empty, steps), Key(post, metric)) <==>
              if metric == LikeMetric then SaysYes(steps, post, user, Like, Unlike)
              else SaysYes(steps, post, user, Favorite, Unfavorite)
    decreases |steps|
  {
    if steps != [] {
      var before := steps[..|steps| - 1];
      FansSaidYes(before, post, user, metric);
      FansFollow(Run(Empty, before), steps[|steps| - 1], post, user, metric);
      VisibleIsPublished(before, post);
      CountersHaveRows(before, post, LikeMetric);
      CountersHaveRows(before, post, FavoriteMetric);
    }
  }

  /** Over every history: who likes a post is decided by the likes and unlikes alone,
      and who has it as a favourite by the other two. */
  lemma LikesAndFavouritesAreTheLastWord(steps: seq<Step>, post: PostId, user: UserId)
    ensures user in FansOf(Run(Empty, steps), Key(post, LikeMetric)) <==> SaysYes(steps, post, user, Like, Unlike)
    ensures user in FansOf(Run(Empty, steps), Key(post, FavoriteMetric)) <==>
              SaysYes(steps, post, user, Favorite, Unfavorite)
  {
    FansSaidYes(steps, post, user, LikeMetric);
    FansSaidYes(steps, post, user, FavoriteMetric);
  }
}
