/** What a stored draft must be to be published or scheduled: it parses again to the
    hash it is stored under, its files are usable, and title and text meet the rules.
    The checks stop at the first objection, in the order of the code. */
module PublishRules {
  import opened Body
  import opened BodyCanonical
  import opened BodyTally
  import opened BodyWalk
  import opened BodyRefine
  import opened BodyRoundTrip

  datatype Unfitness =
    | BodyRejected | SchemaUnsupported | HashMismatch | MediaRefInvalid | CoverUnavailable
    | TitleTooLong | TitleRequired | TextRequired | TextTooShort

  /** `Unknown`: a service that had to be asked did not answer. */
  datatype Fitness = Fit | Unfit(why: Unfitness) | Unknown

  /** What the file service says of files. */
  datatype FileAnswer = Usable | NotUsable | NoAnswer

  /** A draft as a publication finds it; `author` is whether the profile of the author
      could be fetched. */
  datatype StoredDraft = StoredDraft(
    body: StoredBody,
    title: string,
    cover: string,
    mediaAnswer: FileAnswer,
    coverAnswer: FileAnswer,
    author: bool)

  const MaxTitle := 200

  const MinText := 10

  /** The draft meets every rule, in one condition and no order. */
  ghost predicate IsPublishable(e: Env, d: StoredDraft) {
    var checked := ValidateStoredBody(e, d.body);
    && checked.Ok?
    && 0 < |TrimSpace(d.title)| <= MaxTitle
    && |checked.value.plainText| >= MinText
    && (checked.value.media == [] || d.mediaAnswer == Usable)
    && (d.cover == "" || d.coverAnswer == Usable)
    && d.author
  }

  method AskFiles(needed: bool, answer: FileAnswer, objection: Unfitness) returns (r: Fitness)
    ensures r == if !needed || answer == Usable then Fit else if answer == NotUsable then Unfit(objection) else Unknown
  {
    if !needed || answer == Usable {
      return Fit;
    }
    r := if answer == NotUsable then Unfit(objection) else Unknown;
  }

  /** validateStoredBody. */
  method Revalidate(e: Env, stored: StoredBody) returns (r: Fitness, text: string, hasMedia: bool)
    requires e.policy.Positive()
    ensures r.Fit? <==> ValidateStoredBody(e, stored).Ok?
    ensures r.Fit? ==> text == ValidateStoredBody(e, stored).value.plainText
    ensures r.Fit? ==> (hasMedia <==> ValidateStoredBody(e, stored).value.media != [])
    ensures r == Unfit(SchemaUnsupported) <==>
              stored.schemaVersion != 1 || !Acceptable(e, Input(stored.schemaVersion, stored.body))
    ensures r.Fit? || r in {Unfit(SchemaUnsupported), Unfit(HashMismatch)}
  {
    ParseRefinesTally(e, Input(stored.schemaVersion, stored.body));
    text, hasMedia := "", false;
    if stored.schemaVersion != 1 {
      r := Unfit(SchemaUnsupported);
      return;
    }
    match Parse(e, Input(stored.schemaVersion, stored.body))
    case Rejected(_, _) => r := Unfit(SchemaUnsupported);
    case Accepted(n) =>
      if n.hash != stored.contentHash {
        r := Unfit(HashMismatch);
        return;
      }
      r, text, hasMedia := Fit, n.plainText, n.media != [];
  }

  /** The checks of a publication up to the title's length: body, files, title. */
  method CheckStoredDraft(e: Env, d: StoredDraft) returns (r: Fitness, text: string)
    requires e.policy.Positive()
    ensures r.Fit? <==>
              && ValidateStoredBody(e, d.body).Ok?
              && (ValidateStoredBody(e, d.body).value.media == [] || d.mediaAnswer == Usable)
              && (d.cover == "" || d.coverAnswer == Usable)
              && |TrimSpace(d.title)| <= MaxTitle
    ensures r.Fit? ==> text == ValidateStoredBody(e, d.body).value.plainText
    ensures r == Unfit(TitleTooLong) ==> |TrimSpace(d.title)| > MaxTitle
  {
    var hasMedia;
    r, text, hasMedia := Revalidate(e, d.body);
    if !r.Fit? {
      return;
    }
    r := AskFiles(hasMedia, d.mediaAnswer, MediaRefInvalid);
    if !r.Fit? {
      return;
    }
    r := AskFiles(d.cover != "", d.coverAnswer, CoverUnavailable);
    if !r.Fit? {
      return;
    }
    if |TrimSpace(d.title)| > MaxTitle {
      r := Unfit(TitleTooLong);
    }
  }

  /** Post.Publish on an unpublished draft, and the author's profile. */
  method CheckTitleAndText(title: string, text: string, author: bool) returns (r: Fitness)
    ensures r.Fit? <==> TrimSpace(title) != "" && |text| >= MinText && author
    ensures r == Unfit(TitleRequired) <==> TrimSpace(title) == ""
    ensures r == Unfit(TextRequired) <==> TrimSpace(title) != "" && text == ""
    ensures r == Unfit(TextTooShort) <==> TrimSpace(title) != "" && 0 < |text| < MinText
    ensures r == Unknown <==> TrimSpace(title) != "" && |text| >= MinText && !author
  {
    if TrimSpace(title) == "" {
      return Unfit(TitleRequired);
    }
    if |text| == 0 {
      return Unfit(TextRequired);
    }
    if |text| < MinText {
      return Unfit(TextTooShort);
    }
    r := if author then Fit else Unknown;
  }

  /** All the checks of a schedule: the rules come before the files, and no profile is
      fetched. */
  method CheckForSchedule(e: Env, d: StoredDraft) returns (r: Fitness)
    requires e.policy.Positive()
    ensures r.Fit? <==> IsPublishable(e, d.(author := true))
  {
    var text, hasMedia;
    r, text, hasMedia := Revalidate(e, d.body);
    if !r.Fit? {
      return;
    }
    if |TrimSpace(d.title)| > MaxTitle {
      return Unfit(TitleTooLong);
    }
    r := CheckTitleAndText(d.title, text, true);
    if !r.Fit? {
      return;
    }
    r := AskFiles(hasMedia, d.mediaAnswer, MediaRefInvalid);
    if !r.Fit? {
      return;
    }
    r := AskFiles(d.cover != "", d.coverAnswer, CoverUnavailable);
  }

  /** A body that SaveDraftBody accepted and stored can be published exactly when no
      list or gallery in it is empty and its text is long enough, given a title, usable
      files and an author. */
  lemma SavedDraftIsFitIff(e: Env, input: Input, d: StoredDraft)
    requires e.policy.Positive() && Idempotent(e.sanitize)
    requires Parse(e, input).Accepted?
    requires var n := Parse(e, input).body;
             d.body == ReadBody(e, WriteBody(e, input.schemaVersion, n.canonical, n.hash).value).value
    requires 0 < |TrimSpace(d.title)| <= MaxTitle && d.mediaAnswer == Usable && d.coverAnswer == Usable && d.author
    ensures IsPublishable(e, d) <==>
              && NoEmptyListsIn(TopBlocks(input))
              && |Join(BlocksTally(e, TopBlocks(input)).texts)| >= MinText
  {
    SavedDraftIsPublishable(e, input);
    ParseRefinesTally(e, input);
  }
}
