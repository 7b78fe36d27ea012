# Verification of the content, comment, outbox and relationship services

This project models the stateful core of the services in Dafny and proves what the
code promises over every input, every run and every interleaving.

- **Body parser** (`Body*.dfy`). A post body is a recursive block tree. `BodyWalk` is the
  validating walk as the code performs it (counters, error budget, early stop) on a value;
  `BodyParser` is the same walk as it runs, with a mutable state object and error paths
  that are slices sharing one growing array. `BodyTally` says what is to be counted and
  collected, on the tree alone. `BodyRefine` shows that the walk computes exactly that,
  `BodyBudget` compares two runs under different error budgets, `BodyRoundTrip` follows a
  body through canonicalising, storing, reading back and parsing again. `BodyFaithful` says
  field by field what the stored tree keeps of the one handed in. `BodyPaths` shows that an
  error path can be read back from its text; `BodyFlaws` says of each place in a tree what is
  wrong with it, `BodyReport` and `BodyDiagnosis` that a report consists of exactly that.
- **Posts and cleanup** (`Post*.dfy`, `Publish*.dfy`). `Posts` holds the tables and each transaction as a
  function with its refusals; `PostProtocol` the interleaved steps of any number of
  commands and cleanup workers, including transactions that report an error after they
  committed, processes that die, stale claims and deletions that fail after removing.
  `PostSafety`, `PostGuarantees`, `PostPublishing` and `PostVersions` prove the invariants
  and what follows over all runs; `PostSnapshots` and `PostVisibility` give the exact
  conditions of two promises that do not always hold, `PostRaces` the runs where they fail.
  `PostRules` is the rule book of the tables: which row a command may change, how, and why
  it is refused, for every step of every run. `PostService` is the service and its worker as
  they run, with arbitrary interference between any two effects; each effect is proved to be
  a step of the protocol, and the answer of each command is decided by the rows it found and
  by what the stores did, which are parameters. `PublishRules` and `PublishService` put the
  checks of the stored body, its files, title and text in front.
- **Comments** (`Comment*.dfy`). A forest of comments with three denormalised counters;
  `CommentRules` says who may hide which comment, `CommentRaces` separates the unlocked read
  of a reply's target from its insert.
- **Engagement** (`Engagement*.dfy`). Likes and favourites whose counters are updated by
  delta tasks that workers claim, apply, fail and reclaim; `EngagementRules` reads off the
  history who likes what.
- **Outbox** (`Publisher.dfy`, `Outbox*.dfy`). The topic publisher over a channel whose every
  answer may turn out any way; claims, acknowledgements and attempt counts for many
  dispatchers that use it; and the loop that runs a worker until nothing is left to claim.
- **Relationships** (`Relation*.dfy`). Follows, blocks and their event log; `RelationRules`
  says how each relation may change.

Each SQL statement is modelled as one atomic conditional update with the conditions of
its WHERE clause, and each transaction as one atomic step. Identifiers, hashes and times
are numbers; 0 stands for NULL or the empty string where a column allows it. The JSON
printer with its length, the hash and the URL sanitiser are parameters of the parser
model.

The results rest on these assumptions:

- sanitising a URL is idempotent;
- a generated body id is never one generated before: the ids are 128 random bits, and all
  results about cleanup depend on it (`PostProtocol.WriteStep`);
- a transaction that reported an error is settled, it does not commit later
  (`PostRaces.LateCommitWouldDangle` shows what would happen);
- a channel confirms a message under the tag it was sent with.

## Findings

Some promises hold under a condition only. The code is kept as it is, each exception is
shown by a concrete case, and the exact condition is proved where there is one.

- A body with an empty list or an empty gallery is accepted as a draft and can never be
  published: the canonical form omits the empty items and the second parse rejects their
  absence (`BodyRoundTrip.ReparseFixpoint`, `BodyRoundTrip.EmptyListDraftIsStuck`).
- The report about an oversized body is never marked as truncated, even when it fills the
  budget (`BodyBudget.OversizedReportIsFullButNotTruncated`); and with a negative budget,
  which the constructor lets through, the walk's errors are lost
  (`BodyRefine.NegativeBudgetLosesErrors`).
- A like counter drifts when a decrement is applied before its increment and is held at
  zero; it is exact if and only if that never happens, and applying the deltas in order
  prevents it (`EngagementStats.ExactIffNeverClamped`, `EngagementStats.RetriedLikeDrifts`,
  `EngagementStats.InOrderIsExact`).
- The visibility event of a deletion may report a stale old visibility: over all runs a
  lifecycle command is sure to report the right one if and only if it is no deletion or
  names version 1 (`PostVisibility.OldVisibilityIsSureIff`,
  `PostRaces.StaleDeletionMisreports`).
- A published snapshot that a later publication replaces is left behind for good if and
  only if, at that moment, no cleanup task names it and no command still has to register
  it; such a task exists only when the first publication committed behind an error. Nothing
  else strands a snapshot, failures apart (`PostSnapshots.StrandsIffNoTask`,
  `PostSnapshots.LeftBehindIffReplacedUntasked`, `PostSnapshots.StrandedForGood`,
  `PostRaces.ReplacedSnapshotLeaks`).
- A reply's target is read without a lock, so a deletion may commit before the insert; the
  forest and the counters stay sound if and only if no reply is inserted below a parent
  deleted since its read (`CommentRaces.ValidIffNoStaleReply`).
- The recorded attempts of an outbox row are the failures accepted for it in every run if
  and only if no two processes share a dispatcher id; the content dispatcher falls back to
  a fixed default id (`OutboxSafety.CountsIffIdsAreDistinct`).
- A block that commits between the check and the write of a follow leaves a follow across
  a block; the relations stay apart if and only if no follow is written that way
  (`Relations.BlockedInBetween`, `Relations.ApartIffNoStaleFollow`).

## Model

| member | source | states |
|---|---|---|
| BodyRefine.CheckedRefinesTally | services/zhicore-content/internal/content/infrastructure/body/v1_parser.go:378-654 | the early-stopping walk reports no error if and only if version is 1, blocks are present, every node is locally valid and the recursive totals are within the limits; then texts, media, links and block count are the in-order traversals of the tree |
| BodyRefine.ParseRefinesTally | services/zhicore-content/internal/content/infrastructure/body/v1_parser.go:70-127 | parsing accepts exactly the acceptable trees, canonical size included, and returns the traversals, the canonical tree, its hash and its size |
| BodyRefine.ConstructedParserRefinesTally | services/zhicore-content/internal/content/infrastructure/body/v1_parser.go:35-127 | the same for the parser its constructor makes from any policy without a negative limit |
| BodyRefine.WalkIsBounded | services/zhicore-content/internal/content/infrastructure/body/v1_parser.go:365-396 | on any input at most one block and one inline node past the limits are counted, links and errors stay within theirs, an early stop has left an error, and truncation is marked exactly at the budget |
| BodyRefine.NegativeBudgetLosesErrors | services/zhicore-content/internal/content/infrastructure/body/v1_parser.go:365-376 | without a positive budget every tree of acceptable size is accepted |
| BodyFaithful.AcceptedBodyIsFaithful | services/zhicore-content/internal/content/infrastructure/body/v1_parser.go:245-350 | the canonical tree of an accepted body carries, under the same schema version, the very blocks that decoding it yields, and these are the blocks handed in: level, text, marks, language, alt, caption, headers and rows field by field, with only file ids trimmed, link and embed URLs sanitised, hrefs of other marks dropped and empty lists and galleries absent |
| BodyFaithful.BlocksHeld | services/zhicore-content/internal/content/infrastructure/body/v1_parser.go:252-350 | the decoder reads back everything the canonical tree carries, for any canonical tree |
| BodyPaths.PathTextIsInjective | services/zhicore-content/internal/content/infrastructure/body/v1_parser.go:696-717 | two paths of the shape the parser builds are printed alike only if they are the same path |
| BodyPaths.PathTextSpelled | services/zhicore-content/internal/content/infrastructure/body/v1_parser.go:696-717 | the printed text spells the path out: names after dots and numbers in brackets, without the leading dot |
| BodyPaths.ItoaReadsBack | services/zhicore-content/internal/content/infrastructure/body/v1_parser.go:704-713 | the decimal text of an index reads back to the index |
| BodyFlaws.BlocksNamed | services/zhicore-content/internal/content/infrastructure/body/v1_parser.go:382-639 | the flaws of a tree in document order are exactly the places where something is wrong or that draw on a limit, each found by following its path |
| BodyReport.TellBlocks | services/zhicore-content/internal/content/infrastructure/body/v1_parser.go:378-654 | with room for errors, the walk over any stretch of blocks at any depth reports exactly its flaws in order, or breaks off at a limit that the totals of the stretch break |
| BodyDiagnosis.ReportIsExact | services/zhicore-content/internal/content/infrastructure/body/v1_parser.go:70-116 | a body within the hard limits is rejected with the first errors of a report given by its tree alone, as many as the budget lets through; one without a flaw can only be too large when printed |
| BodyDiagnosis.ReportNamesTheFlaws | services/zhicore-content/internal/content/infrastructure/body/v1_parser.go:365-376 | the report has an error with the printed path of a place if and only if the code of the error is wrong with that very place |
| BodyDiagnosis.EveryErrorIsAFlaw | services/zhicore-content/internal/content/infrastructure/body/v1_parser.go:365-376 | every error of the report prints the path of a place in the body and says what is wrong with it |
| BodyDiagnosis.LimitEndsTheReport | services/zhicore-content/internal/content/infrastructure/body/v1_parser.go:378-380 | a body past a hard limit is rejected with the flaws in front of the place that breaks a limit, then that limit, then at most a remark on the text, cut at the budget |
| BodyBudget.SmallerBudgetReportsPrefix | services/zhicore-content/internal/content/infrastructure/body/v1_parser.go:365-376 | two runs that differ in the error budget only: the smaller report is the prefix of the larger one, and acceptance does not depend on the budget |
| BodyBudget.TruncatedExactlyWhenFull | services/zhicore-content/internal/content/infrastructure/body/v1_parser.go:94-115 | a report is truncated exactly when it has the budgeted length and the tree breaks a limit; a tree that breaks none is rejected for its canonical size in an unmarked report |
| BodyBudget.OversizedReportIsFullButNotTruncated | services/zhicore-content/internal/content/infrastructure/body/v1_parser.go:109-115 | with a budget of one the oversized report is full and not marked |
| BodyRoundTrip.BlocksRoundTrip | services/zhicore-content/internal/content/infrastructure/body/v1_parser.go:252-350 | decoding the canonical blocks gives back blocks with the same totals and the same canonical form; they are valid exactly when no list or gallery was empty |
| BodyRoundTrip.ReparseFixpoint | services/zhicore-content/internal/content/infrastructure/body/v1_parser.go:245-350 | parsing the decoded canonical form gives the identical result if no list or gallery is empty, at any depth, and is rejected otherwise |
| BodyRoundTrip.SavedDraftIsPublishable | services/zhicore-content/internal/content/application/body_validation.go:31-46 | a saved draft read back for publishing validates to the very body that was saved, and is stored again as the same document, exactly when nothing in it is an empty list or gallery |
| BodyRoundTrip.EmptyListDraftIsStuck | services/zhicore-content/internal/content/infrastructure/body/v1_parser.go:571-582 | a body of one empty list is accepted and then refused for ever as an unsupported schema |
| BodyParser.Append | services/zhicore-content/internal/content/infrastructure/body/v1_parser.go:680-694 | appending to a path slice writes behind it in the shared array or moves to a larger one; the slice itself and its elements keep their value either way |
| BodyParser.FormatPath | services/zhicore-content/internal/content/infrastructure/body/v1_parser.go:696-717 | the builder loop prints the path the slice stands for, spelled out so that it can be read back |
| BodyParser.ParserState.ValidateBlocks | services/zhicore-content/internal/content/infrastructure/body/v1_parser.go:382-389 | the loop leaves the state the walk on immutable paths computes, and the caller's path intact |
| BodyParser.ParserState.ValidateBlock | services/zhicore-content/internal/content/infrastructure/body/v1_parser.go:391-512 | the same for one block of any kind, with its count and hard limit |
| BodyParser.ParserState.ValidateInlineNodes | services/zhicore-content/internal/content/infrastructure/body/v1_parser.go:521-544 | the same for inline content, returning the accumulated text |
| BodyParser.ParserState.ValidateMarks | services/zhicore-content/internal/content/infrastructure/body/v1_parser.go:546-569 | the same for marks and their links |
| BodyParser.ParserState.ValidateListItems | services/zhicore-content/internal/content/infrastructure/body/v1_parser.go:571-582 | the same for list items |
| BodyParser.ParserState.ValidateTable | services/zhicore-content/internal/content/infrastructure/body/v1_parser.go:584-612 | the same for tables, with the cell limit |
| BodyParser.ParserState.ValidateAttachmentGallery | services/zhicore-content/internal/content/infrastructure/body/v1_parser.go:626-639 | the same for galleries and their media |
| BodyParser.ParserState.AddExternalLink | services/zhicore-content/internal/content/infrastructure/body/v1_parser.go:647-654 | a link is collected within the limit, refused with an error past it |
| BodyParser.CanonicalizeBlocks | services/zhicore-content/internal/content/infrastructure/body/v1_parser.go:252-288 | the appending loops build the canonical tree that `BodyFaithful` compares with the input field by field |
| BodyParser.ParseBody | services/zhicore-content/internal/content/infrastructure/body/v1_parser.go:70-127 | the parser with shared paths and mutable state computes the parse; an accepted body keeps its content field by field, a rejected one within the hard limits is reported with the first of its flaws |
| PostSafety.CommitMoves | services/zhicore-content/internal/content/application/publish_post.go:150-186 | whatever a command commits, the one pointer it adds is to a stored body of the right role and hash that no pointer or task ever named |
| PostSafety.CommitKeepsSound | services/zhicore-content/internal/content/application/save_draft_body.go:83-128 | every outcome of the second transaction, reported, committed behind an error or aborted, keeps the invariants of pointers, bodies, tasks and workers |
| PostSafety.RunIsSound | services/zhicore-content/internal/content/application/body_cleanup_worker.go:59-79 | they hold in every reachable state of every interleaving |
| PostGuarantees.NoDanglingPointer | services/zhicore-content/internal/content/infrastructure/mongo/body_store.go:101-135 | each pointer that is not NULL names a stored body of the right role with the pointer's hash |
| PostGuarantees.PublishedIsTheNamedDraft | services/zhicore-content/internal/content/application/publish_post.go:134-163 | a published pointer changes only by a publication that named the draft the post has at that moment, and what becomes public is a stored snapshot with that draft's hash |
| PostGuarantees.CleanupSparesLiveContent | services/zhicore-content/internal/content/application/body_cleanup_worker.go:59-79 | a body leaves the store only through a worker that found it unreferenced, and no pointer names it then or in any later state |
| PostGuarantees.RetiredForGood | services/zhicore-content/internal/content/application/publish_post.go:187-209 | once a body with a cleanup task is unreferenced it is never referenced again, so check and deletion may be apart |
| PostGuarantees.NoDraftBodyLeaks | services/zhicore-content/internal/content/application/save_draft_body.go:84-122 | every stored draft body is a draft, held by a command in flight, waiting for a cleanup worker, given up by the workers after failing too often, or lost by a failure |
| PostGuarantees.LostMeansAFailure | services/zhicore-content/internal/content/application/create_post.go:87-100 | a body is lost only if a process died holding it, its write was stored behind an error, or its registration failed |
| PostPublishing.CommandTouches | services/zhicore-content/internal/content/infrastructure/postgres/store.go:193-297 | each command's transaction writes one post under its next version, keeps schedules in step with the status, and announces every change of visibility under that version |
| PostPublishing.SchedulesPinTheDraft | services/zhicore-content/internal/content/infrastructure/postgres/store.go:193-277 | a post is scheduled if and only if it has a pending row, and the row names its current draft, which is stored under the pinned hash |
| PostPublishing.EventsTellVisibility | services/zhicore-content/internal/content/application/post_lifecycle.go:86-113 | replaying the outbox gives "visible" exactly for the published posts, and the events of a post carry strictly growing versions up to its own |
| PostVersions.AcceptedUpdateSawTheLatest | services/zhicore-content/internal/content/application/save_draft_body.go:40-44 | an accepted save, publication, schedule or edit overwrites exactly the post that was loaded: no update is lost |
| PostVisibility.OldVisibilityIsSureIff | services/zhicore-content/internal/content/application/post_lifecycle.go:55-113 | in every run that accepts the command its event tells the old visibility right, if and only if the command is no deletion or names version 1 |
| PostRaces.StaleDeletionMisreports | services/zhicore-content/internal/content/application/post_lifecycle.go:62-113 | for every owner, post and base version but 1 there is a run in which a deletion is accepted over a public post and reports it as unpublished |
| PostSnapshots.StrandsIffNoTask | services/zhicore-content/internal/content/application/publish_post.go:150-186 | an accepted publication leaves the snapshot it replaces stored and unreferenced; it has a task afterwards exactly if it had one, and is left behind exactly if none named it and no command still has to register it |
| PostSnapshots.FirstPublicationStrandsNothing | services/zhicore-content/internal/content/application/publish_post.go:150-186 | a publication over a post that never was public leaves nothing behind |
| PostSnapshots.StrandedForGood | services/zhicore-content/internal/content/application/body_cleanup_worker.go:59-79 | a snapshot left behind stays stored, unreferenced and without a task in every later state |
| PostSnapshots.LeftBehindIffReplacedUntasked | services/zhicore-content/internal/content/application/publish_post.go:176-204 | over whole runs and failures apart, a snapshot is left behind if and only if some publication replaced it while untasked and unheld |
| PostSnapshots.SnapshotsAreAccountedFor | services/zhicore-content/internal/content/application/publish_post.go:134-204 | every stored snapshot is held, waiting for a worker, given up, lost to a failure, or was announced as what became public |
| PostRaces.ReplacedSnapshotLeaks | services/zhicore-content/internal/content/application/publish_post.go:176-184 | the condition is met without any failure: publishing over a withdrawn post leaves the old snapshot behind |
| PostRaces.LateCommitWouldDangle | services/zhicore-content/internal/content/application/publish_post.go:187-201 | if a transaction could still commit after its error was handled, cleanup would delete a published body |
| PostService.ContentService.CreateDraft | services/zhicore-content/internal/content/infrastructure/postgres/store.go:79-122 | the loop inserts under the first free of three generated ids or changes nothing |
| PostService.ContentService.SaveDraftBody | services/zhicore-content/internal/content/application/save_draft_body.go:12-137 | the answer is decided by the loaded row, the checks of the body, the outcome of the write and the row found at the commit, under any interference; a save that succeeds has replaced exactly the named draft, its body is stored, and the old draft is in the hands of cleanup |
| PostService.ContentService.PublishPost | services/zhicore-content/internal/content/application/publish_post.go:12-217 | the answer is decided by the loaded row, the stored draft at the read, the checks, the outcome of the write and the row at the commit; it succeeds only if every check passed, always if the row is still the draft named, the write was stored and the commit is reported, and has then made that draft public with its event and cleanup |
| PostService.ContentService.CreatePost | services/zhicore-content/internal/content/application/create_post.go:12-106 | a creation succeeds exactly when the body passes its checks and is stored, one of the first three ids is free and the insertion is reported; it leaves a draft of the owner at version 1 under the first free id |
| PostService.ContentService.MutatePost | services/zhicore-content/internal/content/application/post_lifecycle.go:55-129 | the answer is decided by the loaded row and the row at the commit; a command that succeeds reaches its target status and leaves no pending schedule |
| PostService.ContentService.SchedulePost | services/zhicore-content/internal/content/application/post_schedule.go:12-87 | as for a publication; a schedule that succeeds pins the draft that was read and passed every check |
| PostService.ContentService.DeleteAuthorDraft | services/zhicore-content/internal/content/application/author_workbench.go:245-294 | one transaction clears the draft of its owner and hands it to cleanup, or is refused for the reason the row gives |
| PostService.ContentService.DeleteAdminPost | services/zhicore-content/internal/content/infrastructure/postgres/admin_posts.go:37-79 | one transaction deletes the post, cancels its schedule and announces the visibility it really had, or is refused for the reason the row gives |
| PostService.ContentService.Mark | services/zhicore-content/internal/content/infrastructure/postgres/tasks.go:60-74 | only the owner of a claim changes the task row: to done, or to failed or dead by the number of attempts, and free again |
| PostService.ContentService.HandleTask | services/zhicore-content/internal/content/application/body_cleanup_worker.go:59-79 | a task is handled if and only if the reference check answered, no post named the body at that moment and the deletion succeeded; its body is then neither stored nor referenced, whatever happened in between, and a task that was not handled is failed, or dead at the threshold |
| PostService.ContentService.AfterFailure | services/zhicore-content/internal/content/application/publish_post.go:187-204 | after a failed transaction the orphan is in the cleanup table if it could be registered, and counted as lost only if not |
| PublishService.PublishDraft | services/zhicore-content/internal/content/application/publish_post.go:45-133 | publishing from the content succeeds if and only if the row may be published, the draft is there under its hash, parses again to that hash, has usable files, a title of at most 200 and a text of at least 10 characters, the snapshot is stored, and the row is unchanged at the commit |
| PublishService.ScheduleDraft | services/zhicore-content/internal/content/application/post_schedule.go:101-153 | the same for a schedule, which needs no profile and writes no snapshot |
| PublishRules.Revalidate | services/zhicore-content/internal/content/application/body_validation.go:31-46 | a stored draft is refused as unsupported exactly when its version is not 1 or its tree is not acceptable |
| PublishRules.CheckTitleAndText | services/zhicore-content/internal/content/domain/post.go:189-213 | which objection title and text meet, in the order of the rules |
| PublishRules.SavedDraftIsFitIff | services/zhicore-content/internal/content/application/body_validation.go:31-46 | a draft that was accepted and saved is publishable if and only if none of its lists and galleries is empty and its text is long enough, given title, files and author |
| PostRules.AcceptedIffItFits | services/zhicore-content/internal/content/infrastructure/postgres/store.go:139-297 | a transaction is accepted if and only if owner, version, draft and status of the row fit the command, makes of the row what the rules say, and is otherwise refused for the reason the row gives |
| PostRules.RowsChangeByTheRules | services/zhicore-content/internal/content/infrastructure/postgres/store.go:139-297 | in any state a step changes a post only as a command of its owner that fits the row, as its owner clearing the draft, or as an administrator deleting it |
| PostRules.OwnersStayVersionsGrow | services/zhicore-content/internal/content/infrastructure/postgres/store.go:139-297 | over every run a post stays and keeps its owner, its version never falls, and an equal version means an equal row |
| PostRules.StatusMoves | services/zhicore-content/internal/content/application/post_lifecycle.go:13-46 | the status of a post moves only along the edges of the commands |
| PostService.ProcessSurvives | services/zhicore-content/internal/content/application/publish_post.go:36-204 | steps of other processes never disturb a command or worker in flight |
| CommentCounters.NormalReplyHasNormalRoot | services/zhicore-comment/internal/comment/infrastructure/postgres/store.go:80-96 | a visible reply belongs to a visible root |
| CommentCounters.ReplyTargetIsSound | services/zhicore-comment/internal/comment/application/create_comment.go:120-158 | a reply finds its target exactly when the parent is visible, its root is then visible, and both guards of the domain pass |
| CommentCounters.DecrementsAreCovered | services/zhicore-comment/internal/comment/infrastructure/postgres/store.go:214-240 | no decrement exceeds its counter, so none is ever held at zero |
| CommentCounters.DeletionKeepsValid | services/zhicore-comment/internal/comment/application/delete_comment.go:68-96 | hiding a subtree with its three adjustments keeps the forest closed and all counters true |
| CommentCounters.CountersAreCardinalities | services/zhicore-comment/internal/comment/application/delete_comment.go:68-96 | in every reachable state the post total, the top-level total and the reply counts of visible roots are the numbers of visible comments they stand for |
| CommentCounters.CommentsAreConserved | services/zhicore-comment/internal/comment/application/delete_comment.go:80-96 | created less removed, by the events, is the total, which is the top-level total plus the reply counts of the visible roots |
| CommentCounters.SecondDeleteIsSilent | services/zhicore-comment/internal/comment/infrastructure/postgres/store.go:130-158 | deleting again changes and announces nothing, for an administrator and for the author |
| CommentCounters.StaleReplyTargetBreaksConservation | services/zhicore-comment/internal/comment/application/create_comment.go:120-146 | a reply inserted under a target read before a deletion breaks closure and conservation |
| CommentRaces.ValidIffNoStaleReply | services/zhicore-comment/internal/comment/infrastructure/postgres/store.go:80-107 | with the unlocked read of a reply's target and its insert as separate steps, forest, closure and counters hold throughout a run if and only if no reply is inserted below a parent deleted since the read |
| CommentRaces.UninterruptedReplyIsTheCommand | services/zhicore-comment/internal/comment/application/create_comment.go:120-146 | read and insert in a row are the whole command and never stale |
| CommentService.Service.CollectSubtree | services/zhicore-comment/internal/comment/infrastructure/postgres/store.go:130-158 | the level-by-level query collects exactly the descendants |
| CommentService.Service.SoftDeleteSubtree | services/zhicore-comment/internal/comment/infrastructure/postgres/store.go:130-158 | it reports the entry, its root and the number of comments it hid, and hides exactly those |
| CommentService.Service.CreateReplyComment | services/zhicore-comment/internal/comment/application/create_comment.go:120-146 | a reply is made exactly below a visible comment of the post, under the root of that comment, and announced; the tables are those of the command |
| CommentService.Service.DeleteComment | services/zhicore-comment/internal/comment/application/delete_comment.go:43-110 | the tables alone decide between not found, forbidden, already deleted and done; a deletion that is done hides the comments at and below its target and nothing else, and its event tells their number and whether the target was a root |
| CommentRules.HidesWhatItMay | services/zhicore-comment/internal/comment/application/delete_comment.go:54-96 | a command hides a visible comment if and only if it deletes a visible comment at or above it, as an administrator or as the author of the deleted one |
| CommentRules.HiddenOnlyByRight | services/zhicore-comment/internal/comment/application/delete_comment.go:54-66 | over every run a comment is hidden only by an administrator or by the author of it or of a comment above it |
| CommentRules.NewCommentsAreAsAsked | services/zhicore-comment/internal/comment/application/create_comment.go:120-158 | every new comment has the author and post of its command and hangs where the command says |
| CommentRules.CommentsStay | services/zhicore-comment/internal/comment/infrastructure/postgres/store.go:130-158 | nothing about a comment ever changes but that it is hidden, and nothing hidden comes back |
| EngagementStats.CountersDriftByClampings | services/zhicore-content/internal/content/infrastructure/postgres/tasks.go:207-235 | stored counter plus deltas not done equals the users who like the post now plus the decrements held at zero, in every interleaving |
| EngagementStats.ExactIffNeverClamped | services/zhicore-content/internal/content/infrastructure/postgres/tasks.go:207-235 | the counter is exactly-once if and only if no step of the run applied a decrement at zero |
| EngagementStats.QuietCounterIsExact | services/zhicore-content/internal/content/application/engagement_stats_worker.go:59-70 | with all tasks done and none clamped the counter is the number of users |
| EngagementStats.InOrderIsExact | services/zhicore-content/internal/content/application/engagement.go:281-303 | applying the deltas of a counter in order never clamps |
| EngagementStats.RetriedLikeDrifts | services/zhicore-content/internal/content/infrastructure/postgres/tasks.go:207-250 | a retried like applied after its unlike leaves a counter of one for nobody |
| EngagementService.EngagementStore.MutateEngagement | services/zhicore-content/internal/content/application/engagement.go:115-141 | the relation of the one metric changes together with one delta task of the right sign, or nothing changes |
| EngagementRules.LikesAndFavouritesAreTheLastWord | services/zhicore-content/internal/content/application/engagement.go:83-141 | over every history a user likes a post if and only if the last like or unlike that found the post open was a like, and likewise, independently, for favourites |
| EngagementService.EngagementStore.ClaimBatch | services/zhicore-content/internal/content/infrastructure/postgres/tasks.go:186-205 | a claim takes exactly the first due tasks in order of id, up to the limit |
| EngagementService.EngagementStore.ApplyClaimedTask | services/zhicore-content/internal/content/infrastructure/postgres/tasks.go:207-235 | the delta, held at zero, and the mark happen together for the owner of the claim, once, or not at all |
| EngagementService.EngagementStore.Handle | services/zhicore-content/internal/content/application/engagement_stats_worker.go:59-70 | a lost claim counts as handled, a missing statistics row as failure |
| Publisher.SuccessIffConfirmed | libs/kit/rabbitmq/publisher.go:80-136 | for every answer of the channel a publication succeeds if and only if, during this call, this very message was sent in confirm mode and its own confirmation was an acknowledgement |
| Publisher.ConfirmationsBelongToOneMessage | libs/kit/rabbitmq/publisher.go:108-136 | over a whole session the flag is true to the channel's mode and no two messages share a confirmation |
| Publisher.TopicPublisher.PublishJSON | libs/kit/rabbitmq/publisher.go:80-136 | the branches of the publisher, over any channel, compute that publication |
| OutboxSafety.PublishedMeansAcknowledged | services/zhicore-content/internal/content/application/outbox_dispatcher.go:54-102 | a row is published only if at an earlier step its message was sent in confirm mode and acknowledged under its own tag, whatever the ids, reclaims, crashes and answers |
| OutboxSafety.AttemptsCountFailures | services/zhicore-content/internal/content/application/outbox_dispatcher.go:104-121 | under distinct dispatcher ids the recorded attempts are exactly the failures accepted for the row |
| OutboxSafety.DeadAtTheThreshold | libs/kit/postgres/outbox/repository.go:156-175 | a failed row is dead exactly when those failures have reached the threshold |
| OutboxSafety.SharedIdLosesAFailure | services/zhicore-content/internal/content/application/outbox_dispatcher.go:61-65 | whenever two processes share an id there is a run that accepts two failures and records one |
| OutboxSafety.CountsIffIdsAreDistinct | libs/kit/postgres/outbox/repository.go:148-175 | attempts are the accepted failures in all runs if and only if no two processes share a dispatcher id |
| OutboxRunner.NonePicked | libs/kit/postgres/outbox/repository.go:105-146 | the claim query comes back empty exactly when no row is due |
| OutboxRunner.Dispatcher.ClaimPending | libs/kit/postgres/outbox/repository.go:105-146 | a claim takes exactly the first due rows, up to the batch size, in the name of the dispatcher and at this time, leaves the others alone and the work to do as it was |
| OutboxRunner.Dispatcher.PublishEvent | services/zhicore-content/internal/content/application/outbox_dispatcher.go:54-59 | the handler succeeds exactly when the publisher saw its message confirmed |
| OutboxRunner.Dispatcher.ProcessOne | services/zhicore-content/internal/content/application/outbox_dispatcher.go:96-121 | a marked row is published exactly when its message was confirmed, and otherwise has one attempt more and is due after the backoff, or dead at the threshold; each marked row lowers the attempts left, a mark that errors ends the batch |
| OutboxRunner.Dispatcher.RunUntilIdle | libs/kit/taskworker/runner.go:76-121 | the loop ends for any table and any pattern of failures; when it reports idle no row was due, and it stops early only for a cancelled context or an error of the store |
| Relations.ApartIffNoStaleFollow | services/zhicore-user/internal/user/application/relationship_commands.go:30-55 | no follow ever crosses a block if and only if none is written over a block that came after its check |
| Relations.SequentialCommandsKeepApart | services/zhicore-user/internal/user/application/relationship_commands.go:30-132 | commands that are not interrupted keep follows and blocks apart throughout |
| Relations.BlockedInBetween | services/zhicore-user/internal/user/application/relationship_helpers.go:41-51 | a block between check and write leaves a follow across it |
| Relations.LogReproducesRelations | services/zhicore-user/internal/user/application/relationship_commands.go:80-109 | replaying the events gives both relations exactly, and every event changed something |
| RelationRules.FollowsChangeByTheRules | services/zhicore-user/internal/user/application/relationship_commands.go:30-109 | in any state a follow begins exactly with the write of a checked one and ends exactly with an unfollow of its actor or a new block of either side |
| RelationRules.ChecksChangeByTheRules | services/zhicore-user/internal/user/domain/relationship.go:75-86 | a follow passes its check if and only if the two users differ, both are active and neither blocks the other |
| RelationRules.FollowersWereFree | services/zhicore-user/internal/user/domain/relationship.go:75-86 | over every run whoever follows was once free to |
| RelationRules.NobodyFollowsThemselves | services/zhicore-user/internal/user/domain/relationship.go:75-126 | in every reachable state nobody follows or blocks themselves |
| RelationService.RelationshipService.BlockUser | services/zhicore-user/internal/user/application/relationship_commands.go:80-109 | which refusal a block meets; a new block removes the follows in both directions, with their events, in one transaction |
| RelationService.RelationshipService.WriteFollow | services/zhicore-user/internal/user/application/relationship_commands.go:47-55 | a follow is inserted and announced once |
| RelationService.RelationshipService.FollowUser | services/zhicore-user/internal/user/application/relationship_commands.go:30-55 | which refusal a follow meets; otherwise it is written, with one event if it is new, after any interference by other commands |

## Left out

- PostService.ContentService.CreateDraft: accepts the second and third generated id after a collision, as the loop does; in PostgreSQL the collision aborts the transaction, so there the later inserts fail and a collision ends the creation. The results hold either way, since a refused creation changes nothing.
- Isolation below atomic transactions: every other transaction is one step. `CommentRaces` and `Relations` separate the two reads whose result a later write relies on.
- JSON text, base64, BSON, SHA-256 and URL parsing: trees are printed and hashed by parameters, and heading levels are integers that the store keeps exactly.
- Text lengths count the characters of the model's strings; grapheme and encoding questions are not part of it.
- Rate limits, logins, and a load of the post that fails: an early end of the command that changes nothing. What the file service and the profile service answer are parameters.
- PostService.ContentService.PublishPost: takes the verdict on the draft's content as a parameter; `PublishService.PublishDraft` computes it from the content. That the content is the one stored under the draft's id is the meaning of that parameter, since the protocol keeps of a body its hash only.
- PostService.ContentService.Interfere: stands for all other processes; callers use its contract only, which allows any steps of others.
- Retry and claim times of cleanup and statistics tasks: a claim may be stale at any time, which allows more runs than the code has.
- The in-memory post aggregate repeats the status rules of the row updates; of it only the rule that a published post must be a draft is modelled.
- Optional collaborators (outbox, cleanup table, files) are taken as configured.
- The worker loop is shown over the outbox table; the stores of cleanup and statistics tasks raise the attempt count at the claim instead of at the failure.
- Integration events of engagement commands, and task priorities, which no modelled code sets.
- Repair tasks for missing or inconsistent bodies: they are recorded for operators and read by no modelled code.
- The consumer of due schedules is not part of the repository; a pending row leaves only by cancelling or deleting.
- Post titles, summaries, covers and tags; comment likes, hot ranks and content; page queries and caches: they would add easy members only.
- The audit row of an administrative deletion.
- Aborted transactions of comments, engagement and relationships: they change nothing and are simply not in a run.
- The comment outbox worker has the same claim, publish and mark steps as the content dispatcher; its result counters are left out.
- HTTP handlers, configuration loading, mappers, process start and shutdown.
