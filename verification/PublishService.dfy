/** Publishing and scheduling a draft from its content: the checks of the stored body,
    its files, title and text in front of the commands that move the post. */
module PublishService {
  import opened Posts
  import opened PostProtocol
  import opened PostRules
  import opened PostService
  import BodyCanonical
  import Rules = PublishRules

  /** The post as it was loaded may be published, or scheduled, by this command. */
  predicate Loads(posts: map<PostId, Post>, cmd: Command)
    requires cmd.Publish? || cmd.Schedule?
  {
    && cmd.post in posts
    && posts[cmd.post].owner == cmd.actor && posts[cmd.post].status == Draft
    && posts[cmd.post].version == cmd.base && posts[cmd.post].draft == cmd.draft
    && cmd.draft.id != 0 && cmd.draft.hash != 0
  }

  /** The store had the draft that the post names, under its hash. */
  predicate HasDraft(bodies: map<BodyId, Body>, draft: Ptr) {
    draft.id in bodies && bodies[draft.id].hash == draft.hash
  }

  /** PublishPost on the draft `d`, which is what the store returns for the post. It
      succeeds exactly when every check passes, the draft was readable, the snapshot was
      written, and the row still was what the author saw when the transaction ran. */
  method PublishDraft(service: ContentService, ghost op: OpId, cmd: Command, e: BodyCanonical.Env, d: Rules.StoredDraft,
                      env: Conditions)
    returns (r: Outcome, ghost read: nat, ghost commit: nat)
    requires service.Valid() && cmd.Publish? && op !in service.ops && e.policy.Positive()
    modifies service
    ensures service.Valid() && read <= |service.trace| && commit < |service.trace|
    ensures r.Succeeded? ==> service.PublishedAs(cmd)
    ensures r.Succeeded? <==>
              && Loads(old(service.posts), cmd)
              && env.readable && HasDraft(Before(service.trace, read).bodies, cmd.draft)
              && Rules.IsPublishable(e, d)
              && env.written == Stored
              && FitsIn(Before(service.trace, commit).db, cmd) && env.committed == Reported
  {
    var draft, text := Rules.CheckStoredDraft(e, d);
    var rules := Rules.Fit;
    if draft.Fit? {
      rules := Rules.CheckTitleAndText(d.title, text, d.author);
    }
    r, read, commit := service.PublishPost(op, cmd, draft, rules, env);
  }

  /** SchedulePost on the draft `d`. */
  method ScheduleDraft(service: ContentService, ghost op: OpId, cmd: Command, e: BodyCanonical.Env, d: Rules.StoredDraft,
                       env: Conditions)
    returns (r: Outcome, ghost read: nat, ghost commit: nat)
    requires service.Valid() && cmd.Schedule? && op !in service.ops && e.policy.Positive()
    modifies service
    ensures service.Valid() && read <= |service.trace| && commit < |service.trace|
    ensures r.Succeeded? ==> service.ScheduledAs(cmd)
    ensures r.Succeeded? <==>
              && Loads(old(service.posts), cmd)
              && env.readable && HasDraft(Before(service.trace, read).bodies, cmd.draft)
              && Rules.IsPublishable(e, d.(author := true))
              && FitsIn(Before(service.trace, commit).db, cmd) && env.committed == Reported
  {
    var draft := Rules.CheckForSchedule(e, d);
    r, read, commit := service.SchedulePost(op, cmd, draft, env);
  }
}
