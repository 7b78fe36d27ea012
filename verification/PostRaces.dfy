/** Concrete interleavings that mark where the guarantees end: an event that tells a
    stale visibility, a snapshot nobody cleans up, and the late commit that the
    protocol must be spared. */
module PostRaces {
  import opened Posts
  import opened PostProtocol

  lemma Next(steps: seq<Step>, w: World, s: Step, w': World)
    requires Run(Init, steps) == w && Apply(w, s) == w'
    ensures Run(Init, steps + [s]) == w'
  {
    assert (steps + [s])[..|steps|] == steps;
  }

  // ------------------------------------------------------------- a post, edited a while

  const DRAFTED := Body(5, DraftBody)

  const SNAPSHOT := Body(5, Snapshot)

  const REGISTERED := Task(Pending, 0, 0)

  function DraftPost(owner: UserId, v: Version): Post { Post(owner, Draft, v, Ptr(10, 5), NoPtr) }

  function Posted(owner: UserId, post: PostId, v: Version): Tables {
    Tables(map[post := DraftPost(owner, v)], map[], map[], [])
  }

  function Creation(owner: UserId, post: PostId): seq<Step> {
    [Begin(0, Create(owner, true, [post]))] + [ParseBody(0, 5)] + [WriteBody(0, 10, Stored)] + [Commit(0, Reported)]
  }

  /** The post at version `v`, with the draft it was created with. */
  function Drafted(owner: UserId, post: PostId, v: Version): World {
    World(Posted(owner, post, v), map[10 := DRAFTED], {10}, map[], map[], {})
  }

  lemma CreationRuns(owner: UserId, post: PostId)
    ensures Run(Init, Creation(owner, post)) == Drafted(owner, post, 1)
  {
    var create, cur := Create(owner, true, [post]), NewPost(owner);
    var w1 := Init.(ops := map[0 := Loaded(create, cur)]);
    var w2 := Init.(ops := map[0 := Validated(create, cur, 5)]);
    var w3 := Init.(bodies := map[10 := DRAFTED], issued := {10}, ops := map[0 := Written(create, cur, 10, 5)]);
    assert BeginStep(Init, 0, create) == w1;
    assert ParseStep(w1, 0, 5) == w2;
    assert WriteStep(w2, 0, 10, Stored) == w3;
    assert CommitStep(w3, 0, Reported) == Drafted(owner, post, 1);
    var steps := [];
    Next(steps, Init, Begin(0, create), w1);
    steps := steps + [Begin(0, create)];
    Next(steps, w1, ParseBody(0, 5), w2);
    steps := steps + [ParseBody(0, 5)];
    Next(steps, w2, WriteBody(0, 10, Stored), w3);
    steps := steps + [WriteBody(0, 10, Stored)];
    Next(steps, w3, Commit(0, Reported), Drafted(owner, post, 1));
    assert steps + [Commit(0, Reported)] == Creation(owner, post);
  }

  /** Edits of the metadata bring the post to any version. */
  function Edits(owner: UserId, post: PostId, v: Version): seq<Step>
    requires v > 0
  {
    if v == 1 then Creation(owner, post)
    else Edits(owner, post, v - 1) + [Begin(0, UpdateMeta(post, owner, v - 1))] + [Commit(0, Reported)]
  }

  lemma EditCommits(owner: UserId, post: PostId, v: Version)
    requires v > 0
    ensures var edit := UpdateMeta(post, owner, v);
            var loaded := Drafted(owner, post, v).(ops := map[0 := Loaded(edit, DraftPost(owner, v))]);
            && BeginStep(Drafted(owner, post, v), 0, edit) == loaded
            && CommitStep(loaded, 0, Reported) == Drafted(owner, post, v + 1)
  {
  }

  lemma {:induction false} EditsRun(owner: UserId, post: PostId, v: Version)
    requires v > 0
    ensures Run(Init, Edits(owner, post, v)) == Drafted(owner, post, v)
  {
    if v == 1 {
      CreationRuns(owner, post);
    } else {
      EditsRun(owner, post, v - 1);
      EditCommits(owner, post, v - 1);
      var before, edit := Drafted(owner, post, v - 1), UpdateMeta(post, owner, v - 1);
      var loaded := before.(ops := map[0 := Loaded(edit, DraftPost(owner, v - 1))]);
      var steps := Edits(owner, post, v - 1);
      Next(steps, before, Begin(0, edit), loaded);
      Next(steps + [Begin(0, edit)], loaded, Commit(0, Reported), Drafted(owner, post, v));
    }
  }

  // --------------------------------------------------------- a publication about to commit

  function PublicPost(owner: UserId, v: Version): Post { Post(owner, Published, v + 1, NoPtr, Ptr(11, 5)) }

  function Publication(owner: UserId, post: PostId, v: Version): Command { Publish(post, owner, v, Ptr(10, 5)) }

  function Preparation(owner: UserId, post: PostId, v: Version): seq<Step>
    requires v > 0
  {
    Edits(owner, post, v) + [Begin(1, Publication(owner, post, v))] + [ReadBody(1)] + [WriteBody(1, 11, Stored)]
  }

  function Prepared(owner: UserId, post: PostId, v: Version): World {
    World(Posted(owner, post, v), map[10 := DRAFTED, 11 := SNAPSHOT], {10, 11},
          map[1 := Written(Publication(owner, post, v), DraftPost(owner, v), 11, 5)], map[], {})
  }

  lemma PreparationRuns(owner: UserId, post: PostId, v: Version)
    requires v > 0
    ensures Run(Init, Preparation(owner, post, v)) == Prepared(owner, post, v)
  {
    EditsRun(owner, post, v);
    var w4, publish, cur := Drafted(owner, post, v), Publication(owner, post, v), DraftPost(owner, v);
    var w5 := w4.(ops := map[1 := Loaded(publish, cur)]);
    var w6 := w4.(ops := map[1 := Validated(publish, cur, 5)]);
    assert BeginStep(w4, 1, publish) == w5;
    assert ReadStep(w5, 1) == w6;
    assert WriteStep(w6, 1, 11, Stored) == Prepared(owner, post, v);
    var steps := Edits(owner, post, v);
    Next(steps, w4, Begin(1, publish), w5);
    Next(steps + [Begin(1, publish)], w5, ReadBody(1), w6);
    Next(steps + [Begin(1, publish)] + [ReadBody(1)], w6, WriteBody(1, 11, Stored), Prepared(owner, post, v));
  }

  function PublishedOnce(owner: UserId, post: PostId, v: Version): World {
    World(Tables(map[post := PublicPost(owner, v)], map[], map[TaskKey(10, OldDraft) := REGISTERED],
                 [PostPublished(post, v + 1, Ptr(11, 5))]),
          map[10 := DRAFTED, 11 := SNAPSHOT], {10, 11}, map[], map[], {})
  }

  // ------------------------------------------------------- a stale old visibility

  /** The version at which the deletion must have loaded the post, to be overtaken by
      one publication and still be accepted. */
  function LoadedAt(base: Version): Version { if base == 0 then 1 else base - 1 }

  function Deletion(owner: UserId, post: PostId, base: Version): Command { Lifecycle(Delete, post, owner, base) }

  function Race(owner: UserId, post: PostId, base: Version): seq<Step>
    requires base != 1
  {
    Preparation(owner, post, LoadedAt(base)) + [Begin(2, Deletion(owner, post, base))] + [Commit(1, Reported)]
  }

  function Racing(owner: UserId, post: PostId, base: Version): World {
    var w := Prepared(owner, post, LoadedAt(base));
    w.(ops := w.ops[2 := Loaded(Deletion(owner, post, base), DraftPost(owner, LoadedAt(base)))])
  }

  function Raced(owner: UserId, post: PostId, base: Version): World {
    PublishedOnce(owner, post, LoadedAt(base)).(
      ops := map[2 := Loaded(Deletion(owner, post, base), DraftPost(owner, LoadedAt(base)))])
  }

  lemma DeletionLoads(owner: UserId, post: PostId, base: Version)
    ensures BeginStep(Prepared(owner, post, LoadedAt(base)), 2, Deletion(owner, post, base)) == Racing(owner, post, base)
  {
  }

  lemma PublicationOvertakes(owner: UserId, post: PostId, base: Version)
    ensures CommitStep(Racing(owner, post, base), 1, Reported) == Raced(owner, post, base)
  {
  }

  lemma RaceRuns(owner: UserId, post: PostId, base: Version)
    requires base != 1
    ensures Run(Init, Race(owner, post, base)) == Raced(owner, post, base)
  {
    var v, delete := LoadedAt(base), Deletion(owner, post, base);
    PreparationRuns(owner, post, v);
    DeletionLoads(owner, post, base);
    PublicationOvertakes(owner, post, base);
    Next(Preparation(owner, post, v), Prepared(owner, post, v), Begin(2, delete), Racing(owner, post, base));
    Next(Preparation(owner, post, v) + [Begin(2, delete)], Racing(owner, post, base), Commit(1, Reported),
         Raced(owner, post, base));
  }

  /** A deletion overtaken by a publication, for every base version but 1: the post is
      public when the deletion is accepted, and its event says it was not. */
  lemma StaleDeletionMisreports(owner: UserId, post: PostId, base: Version)
    requires base != 1
    ensures var w := Run(Init, Race(owner, post, base));
            && 2 in w.ops && w.ops[2].Loaded? && w.ops[2].cmd == Deletion(owner, post, base)
            && post in w.db.posts && w.db.posts[post].status == Published
            && LifecycleTx(w.db, w.ops[2].cmd, w.ops[2].cur).Accepted?
            && LifecycleTx(w.db, w.ops[2].cmd, w.ops[2].cur).db.outbox
               == w.db.outbox
                  + [VisibilityChanged(post, w.db.posts[post].version + 1, Unpublished, Removed, false)]
  {
    RaceRuns(owner, post, base);
  }

  // --------------------------------------------------------------- a replaced snapshot

  function Withdrawal(owner: UserId): seq<Step> {
    Preparation(owner, 7, 1) + [Commit(1, Reported)] + [Begin(2, Lifecycle(Unpublish, 7, owner, 2))] + [Commit(2, Reported)]
  }

  function Withdrawn(owner: UserId): World {
    var db := PublishedOnce(owner, 7, 1).db;
    PublishedOnce(owner, 7, 1).(db := db.(
      posts := map[7 := Post(owner, Draft, 3, NoPtr, Ptr(11, 5))],
      outbox := db.outbox + [VisibilityChanged(7, 3, Public, Unpublished, false)]))
  }

  lemma PublicationCommits(owner: UserId)
    ensures CommitStep(Prepared(owner, 7, 1), 1, Reported) == PublishedOnce(owner, 7, 1)
  {
  }

  lemma UnpublishCommits(owner: UserId)
    ensures var unpublish := Lifecycle(Unpublish, 7, owner, 2);
            var loaded := PublishedOnce(owner, 7, 1).(ops := map[2 := Loaded(unpublish, PublicPost(owner, 1))]);
            && BeginStep(PublishedOnce(owner, 7, 1), 2, unpublish) == loaded
            && CommitStep(loaded, 2, Reported) == Withdrawn(owner)
  {
  }

  lemma WithdrawalRuns(owner: UserId)
    ensures Run(Init, Withdrawal(owner)) == Withdrawn(owner)
  {
    PreparationRuns(owner, 7, 1);
    PublicationCommits(owner);
    UnpublishCommits(owner);
    var unpublish := Lifecycle(Unpublish, 7, owner, 2);
    var loaded := PublishedOnce(owner, 7, 1).(ops := map[2 := Loaded(unpublish, PublicPost(owner, 1))]);
    var steps := Preparation(owner, 7, 1);
    Next(steps, Prepared(owner, 7, 1), Commit(1, Reported), PublishedOnce(owner, 7, 1));
    Next(steps + [Commit(1, Reported)], PublishedOnce(owner, 7, 1), Begin(2, unpublish), loaded);
    Next(steps + [Commit(1, Reported)] + [Begin(2, unpublish)], loaded, Commit(2, Reported), Withdrawn(owner));
  }

  function Revision(owner: UserId): Command { Save(7, owner, 3, NoPtr) }

  function Rewriting(owner: UserId): seq<Step> {
    Withdrawal(owner)
    + [Begin(3, Revision(owner))] + [ParseBody(3, 6)] + [WriteBody(3, 12, Stored)] + [Commit(3, Reported)]
  }

  function Rewritten(owner: UserId): World {
    var w := Withdrawn(owner);
    World(w.db.(posts := map[7 := Post(owner, Draft, 4, Ptr(12, 6), Ptr(11, 5))]),
          w.bodies[12 := Body(6, DraftBody)], {10, 11, 12}, map[], map[], {})
  }

  function Revising(owner: UserId): World {
    Withdrawn(owner).(
      bodies := Withdrawn(owner).bodies[12 := Body(6, DraftBody)], issued := {10, 11, 12},
      ops := map[3 := Written(Revision(owner), Post(owner, Draft, 3, NoPtr, Ptr(11, 5)), 12, 6)])
  }

  lemma RevisionCommits(owner: UserId)
    ensures CommitStep(Revising(owner), 3, Reported) == Rewritten(owner)
  {
  }

  lemma RewritingRuns(owner: UserId)
    ensures Run(Init, Rewriting(owner)) == Rewritten(owner)
  {
    WithdrawalRuns(owner);
    RevisionCommits(owner);
    var w, save, cur := Withdrawn(owner), Revision(owner), Post(owner, Draft, 3, NoPtr, Ptr(11, 5));
    var w1 := w.(ops := map[3 := Loaded(save, cur)]);
    var w2 := w.(ops := map[3 := Validated(save, cur, 6)]);
    assert BeginStep(w, 3, save) == w1;
    assert ParseStep(w1, 3, 6) == w2;
    assert WriteStep(w2, 3, 12, Stored) == Revising(owner);
    var steps := Withdrawal(owner);
    Next(steps, w, Begin(3, save), w1);
    steps := steps + [Begin(3, save)];
    Next(steps, w1, ParseBody(3, 6), w2);
    steps := steps + [ParseBody(3, 6)];
    Next(steps, w2, WriteBody(3, 12, Stored), Revising(owner));
    steps := steps + [WriteBody(3, 12, Stored)];
    Next(steps, Revising(owner), Commit(3, Reported), Rewritten(owner));
  }

  function Republication(owner: UserId): seq<Step> {
    Rewriting(owner) + [Begin(4, Publish(7, owner, 4, Ptr(12, 6)))] + [ReadBody(4)] + [WriteBody(4, 13, Stored)]
    + [Commit(4, Reported)]
  }

  function Republished(owner: UserId): World {
    var w := Rewritten(owner);
    World(Tables(map[7 := Post(owner, Published, 5, NoPtr, Ptr(13, 6))], map[],
                 w.db.tasks[TaskKey(12, OldDraft) := REGISTERED], w.db.outbox + [PostPublished(7, 5, Ptr(13, 6))]),
          w.bodies[13 := Body(6, Snapshot)], {10, 11, 12, 13}, map[], map[], {})
  }

  function Republishing(owner: UserId): World {
    var w := Rewritten(owner);
    var publish := Publish(7, owner, 4, Ptr(12, 6));
    w.(bodies := w.bodies[13 := Body(6, Snapshot)], issued := {10, 11, 12, 13},
       ops := map[4 := Written(publish, Post(owner, Draft, 4, Ptr(12, 6), Ptr(11, 5)), 13, 6)])
  }

  lemma RepublishingRuns(owner: UserId)
    ensures Run(Init, Rewriting(owner) + [Begin(4, Publish(7, owner, 4, Ptr(12, 6)))] + [ReadBody(4)]
                      + [WriteBody(4, 13, Stored)])
         == Republishing(owner)
  {
    RewritingRuns(owner);
    var w, cur := Rewritten(owner), Post(owner, Draft, 4, Ptr(12, 6), Ptr(11, 5));
    var publish := Publish(7, owner, 4, Ptr(12, 6));
    var w1 := w.(ops := map[4 := Loaded(publish, cur)]);
    var w2 := w.(ops := map[4 := Validated(publish, cur, 6)]);
    assert BeginStep(w, 4, publish) == w1;
    assert ReadStep(w1, 4) == w2;
    assert WriteStep(w2, 4, 13, Stored) == Republishing(owner);
    var steps := Rewriting(owner);
    Next(steps, w, Begin(4, publish), w1);
    steps := steps + [Begin(4, publish)];
    Next(steps, w1, ReadBody(4), w2);
    steps := steps + [ReadBody(4)];
    Next(steps, w2, WriteBody(4, 13, Stored), Republishing(owner));
  }

  lemma RepublicationCommits(owner: UserId)
    ensures CommitStep(Republishing(owner), 4, Reported) == Republished(owner)
  {
  }

  /** Why the promise that nothing leaks is made for draft bodies only: publishing
      again over a withdrawn post leaves the old snapshot stored, although no pointer
      names it, no command holds it, no cleanup task covers it and nothing failed. */
  lemma ReplacedSnapshotLeaks(owner: UserId)
    ensures var w := Run(Init, Republication(owner));
            && 11 in w.bodies && !Referenced(w.db, 11) && w.ops == map[] && w.lost == {}
            && forall kind: TaskKind :: TaskKey(11, kind) !in w.db.tasks
  {
    RepublishingRuns(owner);
    RepublicationCommits(owner);
    Next(Rewriting(owner) + [Begin(4, Publish(7, owner, 4, Ptr(12, 6)))] + [ReadBody(4)] + [WriteBody(4, 13, Stored)],
         Republishing(owner), Commit(4, Reported), Republished(owner));
  }

  // -------------------------------------------------------------------- a late commit

  const ORPHAN := TaskKey(11, OrphanSnapshot)

  /** An error is reported, the orphan registered, and a worker has just found the
      snapshot unreferenced. */
  function Cleaning(owner: UserId): seq<Step> {
    Preparation(owner, 7, 1) + [Commit(1, Aborted)] + [RegisterOrphan(1, true)] + [Claim(0, 9, ORPHAN)]
    + [CheckReference(0, true)]
  }

  function Checked(owner: UserId): World {
    var w := Prepared(owner, 7, 1);
    w.(ops := map[], db := w.db.(tasks := map[ORPHAN := Task(Processing, 9, 1)]),
       acts := map[0 := PostProtocol.Unreferenced(ORPHAN, 9)])
  }

  function Abandoned(owner: UserId): World { Prepared(owner, 7, 1).(ops := map[1 := Unregistered(ORPHAN)]) }

  function Registered(owner: UserId): World {
    var w := Prepared(owner, 7, 1);
    w.(ops := map[], db := w.db.(tasks := map[ORPHAN := REGISTERED]))
  }

  lemma OrphanIsRegistered(owner: UserId)
    ensures CommitStep(Prepared(owner, 7, 1), 1, Aborted) == Abandoned(owner)
    ensures RegisterStep(Abandoned(owner), 1, true) == Registered(owner)
  {
  }

  lemma OrphanIsClaimedAndChecked(owner: UserId)
    ensures ClaimStep(Registered(owner), 0, 9, ORPHAN) == Checked(owner).(acts := map[0 := Claimed(ORPHAN, 9)])
    ensures CheckStep(Checked(owner).(acts := map[0 := Claimed(ORPHAN, 9)]), 0, true) == Checked(owner)
  {
  }

  lemma RegistrationRuns(owner: UserId)
    ensures Run(Init, Preparation(owner, 7, 1) + [Commit(1, Aborted)] + [RegisterOrphan(1, true)]) == Registered(owner)
  {
    PreparationRuns(owner, 7, 1);
    OrphanIsRegistered(owner);
    var steps := Preparation(owner, 7, 1);
    Next(steps, Prepared(owner, 7, 1), Commit(1, Aborted), Abandoned(owner));
    Next(steps + [Commit(1, Aborted)], Abandoned(owner), RegisterOrphan(1, true), Registered(owner));
  }

  lemma CleaningRuns(owner: UserId)
    ensures Run(Init, Cleaning(owner)) == Checked(owner)
  {
    RegistrationRuns(owner);
    OrphanIsClaimedAndChecked(owner);
    var claimed := Checked(owner).(acts := map[0 := Claimed(ORPHAN, 9)]);
    var steps := Preparation(owner, 7, 1) + [Commit(1, Aborted)] + [RegisterOrphan(1, true)];
    Next(steps, Registered(owner), Claim(0, 9, ORPHAN), claimed);
    Next(steps + [Claim(0, 9, ORPHAN)], claimed, CheckReference(0, true), Checked(owner));
  }

  /** The assumption the protocol rests on: when a transaction reports an error its
      fate is settled. If it could still commit after the orphan was registered, the
      worker would delete the body of a published post. */
  lemma LateCommitWouldDangle(owner: UserId)
    ensures var w := Run(Init, Cleaning(owner));
            var late := PublishTx(w.db, Publication(owner, 7, 1), DraftPost(owner, 1), Ptr(11, 5));
            && late.Accepted?
            && var w' := DeleteStep(w.(db := late.db), 0, true, true);
               && 7 in w'.db.posts && w'.db.posts[7].status == Published
               && w'.db.posts[7].published == Ptr(11, 5) && 11 !in w'.bodies
  {
    CleaningRuns(owner);
  }
}
