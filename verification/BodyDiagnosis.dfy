/** The error report as a statement about the body. A body within the hard limits is
    reported with exactly its flaws, in document order, cut at the error budget; each
    printed path leads back to the one place it names. */
module BodyDiagnosis {
  import opened Body
  import opened BodyCanonical
  import opened BodyTally
  import opened BodyWalk
  import opened BodyRefine
  import opened BodyBudget
  import opened BodyPaths
  import opened BodyFlaws
  import opened BodyReport

  // --------------------------------------------------------------- the whole report

  /** What is wrong with the body before its blocks are looked at. */
  function TopFlaws(input: Input): seq<Flaw> {
    (if input.schemaVersion == 1 then [] else [Flaw(At(SchemaVersionField), BODY_SCHEMA_UNSUPPORTED)])
    + (if input.body.Blocks? then [] else [Flaw(At(BlocksField), BODY_SCHEMA_INVALID)])
  }

  function TreeFlaws(e: Env, input: Input): seq<Flaw> {
    Under(In(BlocksField), BlocksFlaws(e, TopBlocks(input), 0))
  }

  function TextFlaws(e: Env, input: Input): seq<Flaw> {
    if |Join(BlocksTally(e, TopBlocks(input)).texts)| <= e.policy.maxPlainText then []
    else [Flaw(At(BlocksField), BODY_TEXT_TOO_LONG)]
  }

  /** The errors of a body within the hard limits, with room for all of them. */
  function Report(e: Env, input: Input): seq<Detail> {
    Reported([], TopFlaws(input)) + Reported([], TreeFlaws(e, input)) + Reported([], TextFlaws(e, input))
  }

  predicate WithinHardLimits(e: Env, input: Input) {
    var t := BlocksTally(e, TopBlocks(input));
    && t.blocks <= e.policy.maxBlocks
    && t.inlines <= e.policy.maxInlines
    && t.cells <= e.policy.maxCells
    && t.depth <= e.policy.maxDepth
    && |t.links| <= e.policy.maxLinks
  }

  // -------------------------------------------------- the budget is no part of the tree

  ghost predicate SameBut(e: Env, f: Env) {
    f == e.(policy := e.policy.(maxErrors := f.policy.maxErrors))
  }

  lemma {:induction false} BudgetOutOfItems(e: Env, f: Env, items: seq<ListItem>, k: nat)
    requires SameBut(e, f)
    ensures ItemsTally(f, items) == ItemsTally(e, items) && ItemsFlaws(f, items, k) == ItemsFlaws(e, items, k)
    decreases items
  {
    if items != [] {
      BudgetOutOfBlocks(e, f, items[0].blocks, 0);
      BudgetOutOfItems(e, f, items[1..], k + 1);
      assert ItemFlaws(f, items[0]) == ItemFlaws(e, items[0]);
    }
  }

  lemma {:induction false} BudgetOutOfBlocks(e: Env, f: Env, bs: seq<Block>, k: nat)
    requires SameBut(e, f)
    ensures BlocksTally(f, bs) == BlocksTally(e, bs) && BlocksFlaws(f, bs, k) == BlocksFlaws(e, bs, k)
    decreases bs
  {
    if bs != [] {
      BudgetOutOfBlock(e, f, bs[0]);
      BudgetOutOfBlocks(e, f, bs[1..], k + 1);
    }
  }

  lemma {:induction false} BudgetOutOfBlock(e: Env, f: Env, b: Block)
    requires SameBut(e, f)
    ensures BlockTally(f, b) == BlockTally(e, b) && BlockFlaws(f, b) == BlockFlaws(e, b)
    decreases b
  {
    match b
    case Quote(blocks) => BudgetOutOfBlocks(e, f, blocks, 0);
    case List(Items(items)) => BudgetOutOfItems(e, f, items, 0);
    case Collapsible(_, blocks) => BudgetOutOfBlocks(e, f, blocks, 0);
    case _ =>
  }

  lemma BudgetOutOfReport(e: Env, f: Env, input: Input)
    requires SameBut(e, f)
    ensures Report(f, input) == Report(e, input) && WithinHardLimits(f, input) == WithinHardLimits(e, input)
  {
    BudgetOutOfBlocks(e, f, TopBlocks(input), 0);
  }

  // ------------------------------------------------------------- with room for all

  /** A budget that no report of this body can fill. */
  predicate Unlimited(e: Env, input: Input) {
    e.policy.maxErrors > |BlocksFlaws(e, TopBlocks(input), 0)| + 4
  }

  lemma ReportedOne(f: Field, code: ErrorCode)
    requires !IsHard(code)
    ensures Reported([], [Flaw(At(f), code)]) == [Detail(PathText([InField(f)]), code)]
  {
    var fs := [Flaw(At(f), code)];
    assert PathOf([], At(f)) == [] + [InField(f)] == [InField(f)];
    assert fs[1..] == [];
    assert Reported([], fs) == [Rendered([], fs[0])] + Reported([], fs[1..]);
  }

  lemma OpenedReports(e: Env, input: Input)
    requires e.policy.maxErrors > 4
    ensures Opened(e.policy, input) == Start.(details := Reported([], TopFlaws(input)))
    ensures |Reported([], TopFlaws(input))| <= 2
  {
    var version := Flaw(At(SchemaVersionField), BODY_SCHEMA_UNSUPPORTED);
    var blocks := Flaw(At(BlocksField), BODY_SCHEMA_INVALID);
    ReportedOne(SchemaVersionField, BODY_SCHEMA_UNSUPPORTED);
    ReportedOne(BlocksField, BODY_SCHEMA_INVALID);
    if input.schemaVersion != 1 && input.body.NilBlocks? {
      ReportedPlus([], [version], [blocks]);
    } else if input.schemaVersion != 1 {
      assert [version] + [] == [version];
    } else if input.body.NilBlocks? {
      assert [] + [blocks] == [blocks];
    }
  }

  /** The walk over the blocks, from the state in which it is opened. */
  lemma BlocksReported(e: Env, input: Input)
    requires e.policy.Positive() && Unlimited(e, input)
    ensures Tells(e.policy, Opened(e.policy, input), BlocksTally(e, TopBlocks(input)), 0, BlocksRoot,
                  BlocksFlaws(e, TopBlocks(input), 0),
                  WalkBlocks(e, Opened(e.policy, input), TopBlocks(input), 0, BlocksRoot, 0))
  {
    OpenedReports(e, input);
    TellBlocks(e, Opened(e.policy, input), TopBlocks(input), 0, BlocksRoot, 0);
  }

  lemma TextReported(e: Env, input: Input, s: State)
    requires s.texts == BlocksTally(e, TopBlocks(input)).texts
    requires |s.details| < e.policy.maxErrors
    ensures CheckText(e.policy, s).details == s.details + Reported([], TextFlaws(e, input))
  {
    ReportedOne(BlocksField, BODY_TEXT_TOO_LONG);
    assert s.details + [] == s.details;
  }

  lemma EverythingReported(e: Env, input: Input)
    requires e.policy.Positive() && Unlimited(e, input) && WithinHardLimits(e, input)
    ensures Checked(e, input).details == Report(e, input)
  {
    var entry, t, fs := Opened(e.policy, input), BlocksTally(e, TopBlocks(input)), BlocksFlaws(e, TopBlocks(input), 0);
    var walked := WalkBlocks(e, entry, TopBlocks(input), 0, BlocksRoot, 0);
    OpenedReports(e, input);
    BlocksReported(e, input);
    assert Roomy(e.policy, entry, t, 0);
    assert [] + t.texts == t.texts;
    ReportedUnder([], In(BlocksField), fs);
    assert [] + [AsPart(In(BlocksField))] == BlocksRoot;
    ReportedAtMost(BlocksRoot, fs);
    TextReported(e, input, walked);
  }

  // ------------------------------------------------------------------ main results

  lemma BudgetCuts(e: Env, f: Env, input: Input)
    requires Twins(e, f)
    ensures Checked(e, input).details == Take(Checked(f, input).details, e.policy.maxErrors)
  {
    BudgetChecked(e, f, input);
  }

  function WithRoom(e: Env, input: Input): (f: Env)
    requires e.policy.Positive()
    ensures Twins(e, f) && SameBut(e, f)
  {
    e.(policy := e.policy.(maxErrors := e.policy.maxErrors + |BlocksFlaws(e, TopBlocks(input), 0)| + 5))
  }

  /** As much of the report as the error budget lets through. */
  function FirstErrors(e: Env, input: Input): seq<Detail>
    requires e.policy.Positive()
  {
    Take(Report(e, input), e.policy.maxErrors)
  }

  /** A body within the hard limits is rejected with the first errors of its report;
      one without a single flaw can only be too large when printed. */
  lemma ReportIsExact(e: Env, input: Input)
    requires e.policy.Positive() && WithinHardLimits(e, input)
    ensures Report(e, input) != [] ==>
              && Parse(e, input).Rejected?
              && Parse(e, input).details == FirstErrors(e, input)
    ensures Report(e, input) == [] && Parse(e, input).Rejected? ==>
              && Parse(e, input).details == [Detail("blocks", BODY_TOO_LARGE)]
              && e.size(CanonBody(e.sanitize, input)) > e.policy.maxCanonicalBytes
  {
    var f := WithRoom(e, input);
    BudgetOutOfReport(e, f, input);
    BudgetOutOfBlocks(e, f, TopBlocks(input), 0);
    EverythingReported(f, input);
    BudgetCuts(e, f, input);
  }

  /** What is told up to the flaw with number `n`, and then the limit. */
  function ToldUntil(e: Env, input: Input, n: nat, h: Detail): seq<Detail>
    requires n <= |BlocksFlaws(e, TopBlocks(input), 0)|
  {
    Reported([], TopFlaws(input)) + Reported(BlocksRoot, BlocksFlaws(e, TopBlocks(input), 0)[..n]) + [h]
  }

  /** `h` is a limit that the body breaks: a counter of the whole body, or the limit
      that the place with number `n` draws on. */
  ghost predicate IsTheLimit(e: Env, input: Input, n: nat, h: Detail) {
    var t, fs := BlocksTally(e, TopBlocks(input)), BlocksFlaws(e, TopBlocks(input), 0);
    || RanOver(e.policy, Start, t, h)
    || (n < |fs| && h == Rendered(BlocksRoot, fs[n]) && Broken(e.policy, Start, t, 0, fs[n])
        && Costs(e, Find(BlocksOf(TopBlocks(input)), fs[n].trail), fs[n].code))
  }

  /** A body past a hard limit: the report has the flaws in front of the place where
      the limit is broken, then the limit, then at most a remark on the text. */
  ghost predicate BreaksOffAt(e: Env, input: Input, n: nat, h: Detail, details: seq<Detail>) {
    && n <= |BlocksFlaws(e, TopBlocks(input), 0)|
    && (details == ToldUntil(e, input, n, h)
        || details == ToldUntil(e, input, n, h) + [Detail("blocks", BODY_TEXT_TOO_LONG)])
    && IsTheLimit(e, input, n, h)
  }

  lemma HardFlawsAreCosts(e: Env, bs: seq<Block>, n: nat)
    requires n < |BlocksFlaws(e, bs, 0)| && IsHard(BlocksFlaws(e, bs, 0)[n].code)
    ensures var f := BlocksFlaws(e, bs, 0)[n]; Costs(e, Find(BlocksOf(bs), f.trail), f.code)
  {
    var f := BlocksFlaws(e, bs, 0)[n];
    BlocksNamed(e, bs, f.trail, f.code);
    NotedIsNotable(e, BlocksOf(bs), f.trail, f.code);
    HardOrWrong(e, Find(BlocksOf(bs), f.trail), f.code);
  }

  /** The check of the text adds at most one error. */
  lemma TextRemark(p: Policy, s: State)
    requires |s.details| < p.maxErrors
    ensures CheckText(p, s).details == s.details
            || CheckText(p, s).details == s.details + [Detail("blocks", BODY_TEXT_TOO_LONG)]
  {
    FirstName();
  }

  lemma BreaksOff(e: Env, input: Input)
    requires e.policy.Positive() && Unlimited(e, input) && !WithinHardLimits(e, input)
    ensures exists n: nat, h: Detail :: BreaksOffAt(e, input, n, h, Checked(e, input).details)
  {
    var p, bs := e.policy, TopBlocks(input);
    var entry, t, fs := Opened(p, input), BlocksTally(e, bs), BlocksFlaws(e, bs, 0);
    var walked := WalkBlocks(e, entry, bs, 0, BlocksRoot, 0);
    OpenedReports(e, input);
    BlocksReported(e, input);
    assert !Roomy(p, entry, t, 0);
    var n: nat, h: Detail :| EndsAt(p, entry, t, 0, BlocksRoot, fs, n, h, walked.details);
    if !RanOver(p, entry, t, h) {
      HardFlawsAreCosts(e, bs, n);
    }
    ReportedAtMost(BlocksRoot, fs[..n]);
    TextRemark(p, walked);
    assert walked.details == ToldUntil(e, input, n, h);
    assert BreaksOffAt(e, input, n, h, Checked(e, input).details);
  }

  lemma FirstName()
    ensures PathText(BlocksRoot) == "blocks"
  {
    assert PathText(BlocksRoot[..0]) == "";
  }

  lemma BudgetOutOfBreak(e: Env, f: Env, input: Input, n: nat, h: Detail, details: seq<Detail>)
    requires SameBut(e, f) && BreaksOffAt(f, input, n, h, details)
    ensures BreaksOffAt(e, input, n, h, details)
  {
    BudgetOutOfBlocks(e, f, TopBlocks(input), 0);
  }

  /** The details are the first of a report that breaks off at a limit. */
  ghost predicate CutFrom(e: Env, input: Input, n: nat, h: Detail, all: seq<Detail>, details: seq<Detail>)
    requires e.policy.Positive()
  {
    BreaksOffAt(e, input, n, h, all) && details == Take(all, e.policy.maxErrors)
  }

  /** Past a hard limit the body is rejected, and the report is cut from one that
      breaks off where the limit is broken. */
  lemma LimitEndsTheReport(e: Env, input: Input)
    requires e.policy.Positive() && !WithinHardLimits(e, input)
    ensures Parse(e, input).Rejected?
    ensures exists n: nat, h: Detail, all: seq<Detail> :: CutFrom(e, input, n, h, all, Parse(e, input).details)
  {
    var f := WithRoom(e, input);
    var all := Checked(f, input).details;
    BudgetOutOfReport(e, f, input);
    BudgetOutOfBlocks(e, f, TopBlocks(input), 0);
    BreaksOff(f, input);
    var n: nat, h: Detail :| BreaksOffAt(f, input, n, h, all);
    BudgetOutOfBreak(e, f, input, n, h, all);
    BudgetCuts(e, f, input);
    assert Checked(e, input).details == Take(all, e.policy.maxErrors) && all != [];
    assert CutFrom(e, input, n, h, all, Parse(e, input).details);
  }

  // ------------------------------------------------------- which errors a report has

  /** `code` is wrong with the place that `trail` leads to from the root of the body.
      Nothing here is computed by walking the tree. */
  predicate InReport(e: Env, input: Input, trail: Trail, code: ErrorCode) {
    || (trail == At(SchemaVersionField) && code == BODY_SCHEMA_UNSUPPORTED && input.schemaVersion != 1)
    || (trail == At(BlocksField) && code == BODY_SCHEMA_INVALID && input.body.NilBlocks?)
    || (trail == At(BlocksField) && code == BODY_TEXT_TOO_LONG
        && |Join(BlocksTally(e, TopBlocks(input)).texts)| > e.policy.maxPlainText)
    || (trail.Down? && trail.leg == In(BlocksField)
        && Wrong(e, Find(BlocksOf(TopBlocks(input)), trail.rest), code))
  }

  function TextOfTrail(trail: Trail): string {
    PathText(PathOf([], trail))
  }

  /** The steps that lead anywhere: a field step has the name of a plain field. */
  predicate Proper(trail: Trail)
    decreases trail
  {
    match trail
    case Here => true
    case Down(leg, rest) =>
      (leg.In? ==> leg.field != NoField && leg.field != HeadersField && leg.field != RowsField) && Proper(rest)
  }

  lemma {:induction false} FoundIsProper(at: Place, trail: Trail)
    requires Find(at, trail) != Nowhere
    ensures Proper(trail)
    decreases trail
  {
    if trail.Down? {
      if Step(at, trail.leg) == Nowhere {
        LostIsNowhere(trail.rest);
      } else {
        FoundIsProper(Step(at, trail.leg), trail.rest);
      }
    }
  }

  lemma {:induction false} LostIsNowhere(trail: Trail)
    ensures Find(Nowhere, trail) == Nowhere
    decreases trail
  {
    if trail.Down? {
      LostIsNowhere(trail.rest);
    }
  }

  lemma {:induction false} PathIsWellFormed(base: seq<PathPart>, trail: Trail)
    requires AllWellFormed(base) && Proper(trail)
    ensures AllWellFormed(PathOf(base, trail)) && base <= PathOf(base, trail)
    decreases trail
  {
    if trail.Down? {
      PathIsWellFormed(base + [AsPart(trail.leg)], trail.rest);
    }
  }

  lemma {:induction false} TrailOfPath(base: seq<PathPart>, t: Trail, u: Trail)
    requires AllWellFormed(base) && Proper(t) && Proper(u) && PathOf(base, t) == PathOf(base, u)
    ensures t == u
    decreases t
  {
    PathIsWellFormed(base, t);
    PathIsWellFormed(base, u);
    if t.Down? {
      PathIsLonger(base, t);
      if u.Down? {
        var next := base + [AsPart(t.leg)];
        StepOfPath(base, t, u);
        TrailOfPath(next, t.rest, u.rest);
      }
    } else if u.Down? {
      PathIsLonger(base, u);
    }
  }

  lemma {:induction false} PathIsLonger(base: seq<PathPart>, trail: Trail)
    requires AllWellFormed(base) && Proper(trail) && trail.Down?
    ensures |PathOf(base, trail)| > |base| && PathOf(base, trail)[|base|] == AsPart(trail.leg)
  {
    PathIsWellFormed(base + [AsPart(trail.leg)], trail.rest);
  }

  lemma {:induction false} StepOfPath(base: seq<PathPart>, t: Trail, u: Trail)
    requires AllWellFormed(base) && Proper(t) && Proper(u) && t.Down? && u.Down?
    requires PathOf(base, t) == PathOf(base, u)
    ensures t.leg == u.leg
  {
    PathIsLonger(base, t);
    PathIsLonger(base, u);
  }

  /** The printed path of a place tells the place. */
  lemma {:induction false} TextTellsTheTrail(t: Trail, u: Trail)
    requires Proper(t) && Proper(u) && t.Down? && u.Down? && t.leg.In? && u.leg.In?
    requires TextOfTrail(t) == TextOfTrail(u)
    ensures t == u
  {
    PathIsWellFormed([], t);
    PathIsWellFormed([], u);
    PathIsLonger([], t);
    PathIsLonger([], u);
    PathTextIsInjective(PathOf([], t), PathOf([], u));
    TrailOfPath([], t, u);
  }

  lemma {:induction false} InReportIsProper(e: Env, input: Input, trail: Trail, code: ErrorCode)
    requires InReport(e, input, trail, code)
    ensures Proper(trail) && trail.Down? && trail.leg.In? && !IsHard(code)
  {
    if trail.Down? && trail.leg == In(BlocksField) && trail.rest.Down? {
      FoundIsProper(BlocksOf(TopBlocks(input)), trail.rest);
      HardOrWrong(e, Find(BlocksOf(TopBlocks(input)), trail.rest), code);
    }
  }

  lemma {:induction false} ReportedHas(base: seq<PathPart>, fs: seq<Flaw>, d: Detail)
    ensures d in Reported(base, fs) <==> exists f :: f in fs && !IsHard(f.code) && Rendered(base, f) == d
    decreases |fs|
  {
    if fs != [] {
      ReportedHas(base, fs[1..], d);
      if d in Reported(base, fs) {
        if !(d in Reported(base, fs[1..])) {
          assert fs[0] in fs && Rendered(base, fs[0]) == d;
        }
      }
    }
  }

  lemma TreeFlawsNamed(e: Env, input: Input, trail: Trail, code: ErrorCode)
    ensures Flaw(trail, code) in TreeFlaws(e, input) && !IsHard(code) <==>
              && trail.Down? && trail.leg == In(BlocksField)
              && Wrong(e, Find(BlocksOf(TopBlocks(input)), trail.rest), code)
  {
    var bs := TopBlocks(input);
    InUnder(In(BlocksField), BlocksFlaws(e, bs, 0), trail, code);
    if trail.Down? {
      BlocksNamed(e, bs, trail.rest, code);
      NotedIsNotable(e, BlocksOf(bs), trail.rest, code);
      HardOrWrong(e, Find(BlocksOf(bs), trail.rest), code);
    }
  }

  function AllFlaws(e: Env, input: Input): seq<Flaw> {
    TopFlaws(input) + TreeFlaws(e, input) + TextFlaws(e, input)
  }

  lemma InReportIsFlaw(e: Env, input: Input, trail: Trail, code: ErrorCode)
    ensures InReport(e, input, trail, code) <==> Flaw(trail, code) in AllFlaws(e, input) && !IsHard(code)
  {
    TreeFlawsNamed(e, input, trail, code);
    assert Flaw(trail, code) in AllFlaws(e, input) <==>
        Flaw(trail, code) in TopFlaws(input) || Flaw(trail, code) in TreeFlaws(e, input)
        || Flaw(trail, code) in TextFlaws(e, input);
  }

  lemma ReportOfAllFlaws(e: Env, input: Input)
    ensures Report(e, input) == Reported([], AllFlaws(e, input))
  {
    ReportedPlus([], TopFlaws(input) + TreeFlaws(e, input), TextFlaws(e, input));
    ReportedPlus([], TopFlaws(input), TreeFlaws(e, input));
  }

  /** Everything that is wrong with a place of the body is in the report. */
  lemma EveryFlawIsReported(e: Env, input: Input, trail: Trail, code: ErrorCode)
    requires InReport(e, input, trail, code)
    ensures Detail(TextOfTrail(trail), code) in Report(e, input)
  {
    InReportIsFlaw(e, input, trail, code);
    ReportOfAllFlaws(e, input);
    ReportedHas([], AllFlaws(e, input), Detail(TextOfTrail(trail), code));
    assert Rendered([], Flaw(trail, code)) == Detail(TextOfTrail(trail), code);
  }

  /** Every error in the report names a place of the body and what is wrong with it. */
  lemma EveryErrorIsAFlaw(e: Env, input: Input, d: Detail)
    requires d in Report(e, input)
    ensures exists trail :: InReport(e, input, trail, d.code) && TextOfTrail(trail) == d.path
  {
    ReportOfAllFlaws(e, input);
    ReportedHas([], AllFlaws(e, input), d);
    var f :| f in AllFlaws(e, input) && !IsHard(f.code) && Rendered([], f) == d;
    InReportIsFlaw(e, input, f.trail, f.code);
    assert InReport(e, input, f.trail, d.code) && TextOfTrail(f.trail) == d.path;
  }

  /** The report has an error with the printed path of a place exactly when the code
      of the error is wrong with that very place. */
  lemma ReportNamesTheFlaws(e: Env, input: Input, trail: Trail, code: ErrorCode)
    requires Proper(trail) && trail.Down? && trail.leg.In?
    ensures Detail(TextOfTrail(trail), code) in Report(e, input) <==> InReport(e, input, trail, code)
  {
    if InReport(e, input, trail, code) {
      EveryFlawIsReported(e, input, trail, code);
    }
    var d := Detail(TextOfTrail(trail), code);
    if d in Report(e, input) {
      EveryErrorIsAFlaw(e, input, d);
      var u :| InReport(e, input, u, d.code) && TextOfTrail(u) == d.path;
      InReportIsProper(e, input, u, code);
      TextTellsTheTrail(trail, u);
    }
  }
}
