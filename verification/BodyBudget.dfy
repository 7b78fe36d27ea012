/** The error budget as a two-run property: a parse with a small budget reports
    exactly the first errors of a parse with a large one. The two walks run in
    lockstep until the smaller budget is full; from then on the smaller walk adds
    nothing and the larger one only appends. */
module BodyBudget {
  import opened Body
  import opened BodyCanonical
  import opened BodyTally
  import opened BodyWalk
  import opened BodyRefine

  /** `f` is `e` with a larger error budget. */
  ghost predicate Twins(e: Env, f: Env) {
    && 0 < e.policy.maxErrors < f.policy.maxErrors
    && f == e.(policy := e.policy.(maxErrors := f.policy.maxErrors))
  }

  ghost predicate Open(m: int, s: State) {
    |s.details| < m && !s.truncated
  }

  ghost predicate Full(m: int, s: State) {
    |s.details| == m && s.stop && s.truncated
  }

  /** How the states `s` (small budget `m`) and `t` (large budget) may differ. */
  ghost predicate Related(m: int, s: State, t: State) {
    || (s == t && Open(m, s))
    || (Full(m, s) && s.details <= t.details)
  }

  lemma Continue(m: int, n: int, s: State, t: State, r: State, u: State)
    requires 0 < m < n
    requires Related(m, s, t) && Grows(m, s, r) && Grows(n, t, u)
    requires s == t && Open(m, s) ==> Related(m, r, u)
    ensures Related(m, r, u)
  {
  }

  lemma BudgetError(e: Env, f: Env, s: State, path: seq<PathPart>, code: ErrorCode)
    requires Twins(e, f) && Open(e.policy.maxErrors, s)
    ensures Related(e.policy.maxErrors, AddError(e.policy, s, path, code), AddError(f.policy, s, path, code))
    ensures Related(e.policy.maxErrors, AddError(e.policy, s, path, code).Stopped(),
                    AddError(f.policy, s, path, code).Stopped())
  {
  }

  lemma BudgetLink(e: Env, f: Env, s: State, path: seq<PathPart>, link: string)
    requires Twins(e, f) && Open(e.policy.maxErrors, s)
    ensures Related(e.policy.maxErrors, AddLink(e.policy, s, path, link), AddLink(f.policy, s, path, link))
  {
    BudgetError(e, f, s, path, BODY_EXTERNAL_LINK_COUNT_EXCEEDED);
  }

  lemma BudgetMark(e: Env, f: Env, s: State, m: Mark, path: seq<PathPart>)
    requires Twins(e, f) && Open(e.policy.maxErrors, s)
    ensures Related(e.policy.maxErrors, WalkMark(e, s, m, path), WalkMark(f, s, m, path))
  {
    if m.kind == "" {
      BudgetError(e, f, s, path + [InField(TypeField)], INLINE_MARK_TYPE_REQUIRED);
    } else if IsPlainMark(m.kind) {
    } else if m.kind == LinkKind {
      match e.sanitize(m.href)
      case None => BudgetError(e, f, s, path + [InField(HrefField)], LINK_HREF_UNSAFE);
      case Some(u) => BudgetLink(e, f, s, path + [InField(HrefField)], u);
    } else {
      BudgetError(e, f, s, path + [InField(TypeField)], INLINE_MARK_UNSUPPORTED);
    }
  }

  lemma {:induction false} BudgetMarks(e: Env, f: Env, s: State, ms: seq<Mark>, k: nat, path: seq<PathPart>)
    requires Twins(e, f) && Open(e.policy.maxErrors, s)
    ensures Related(e.policy.maxErrors, WalkMarks(e, s, ms, k, path), WalkMarks(f, s, ms, k, path))
    decreases ms
  {
    if ms != [] && !s.stop {
      var p := path + [AtIndex(k)];
      var (se, sf) := (WalkMark(e, s, ms[0], p), WalkMark(f, s, ms[0], p));
      BudgetMark(e, f, s, ms[0], p);
      if se == sf && Open(e.policy.maxErrors, se) {
        BudgetMarks(e, f, se, ms[1..], k + 1, path);
      }
      Continue(e.policy.maxErrors, f.policy.maxErrors, se, sf,
               WalkMarks(e, se, ms[1..], k + 1, path), WalkMarks(f, sf, ms[1..], k + 1, path));
    }
  }

  /** In lockstep the collected text is the same as well. */
  ghost predicate RelatedText(m: int, r: (State, string), u: (State, string)) {
    && Related(m, r.0, u.0)
    && (!Full(m, r.0) ==> r.1 == u.1)
  }

  lemma BudgetInline(e: Env, f: Env, s: State, n: Inline, path: seq<PathPart>)
    requires Twins(e, f) && Open(e.policy.maxErrors, s)
    ensures Related(e.policy.maxErrors, WalkInline(e, s, n, path), WalkInline(f, s, n, path))
  {
    if n.kind != TextKind {
      BudgetError(e, f, s, path + [InField(TypeField)], INLINE_NODE_UNSUPPORTED);
    } else {
      BudgetMarks(e, f, s, n.marks, 0, path + [InField(MarksField)]);
    }
  }

  lemma {:induction false} BudgetInlines(
    e: Env, f: Env, s: State, ns: seq<Inline>, k: nat, path: seq<PathPart>, text: string)
    requires Twins(e, f) && Open(e.policy.maxErrors, s)
    ensures RelatedText(e.policy.maxErrors, WalkInlines(e, s, ns, k, path, text), WalkInlines(f, s, ns, k, path, text))
    decreases ns
  {
    if ns != [] && !s.stop {
      var counted := s.(inlineCount := s.inlineCount + 1);
      var p, text' := path + [AtIndex(k)], text + NodeText(ns[0]);
      if counted.inlineCount > e.policy.maxInlines {
        BudgetError(e, f, counted, BlocksRoot, BODY_INLINE_NODE_COUNT_EXCEEDED);
      } else {
        assert CountInline(e.policy, s) == counted == CountInline(f.policy, s);
        var se, sf := WalkInline(e, counted, ns[0], p), WalkInline(f, counted, ns[0], p);
        BudgetInline(e, f, counted, ns[0], p);
        if se == sf && Open(e.policy.maxErrors, se) {
          BudgetInlines(e, f, se, ns[1..], k + 1, path, text');
        } else {
          Continue(e.policy.maxErrors, f.policy.maxErrors, se, sf,
                   WalkInlines(e, se, ns[1..], k + 1, path, text').0, WalkInlines(f, sf, ns[1..], k + 1, path, text').0);
        }
      }
    }
  }

  lemma BudgetTextBlock(e: Env, f: Env, s: State, ns: seq<Inline>, path: seq<PathPart>)
    requires Twins(e, f) && Open(e.policy.maxErrors, s)
    ensures Related(e.policy.maxErrors, WalkTextBlock(e, s, ns, path), WalkTextBlock(f, s, ns, path))
  {
    BudgetInlines(e, f, s, ns, 0, path + [InField(ChildrenField)], "");
  }

  lemma {:induction false} BudgetHeaders(e: Env, f: Env, s: State, cs: seq<Cell>, k: nat, path: seq<PathPart>)
    requires Twins(e, f) && Open(e.policy.maxErrors, s)
    ensures Related(e.policy.maxErrors, WalkHeaders(e, s, cs, k, path), WalkHeaders(f, s, cs, k, path))
    decreases cs
  {
    if cs != [] && !s.stop {
      var p := path + [InFieldAt(HeadersField, k)] + [InField(ChildrenField)];
      var se, sf := WalkInlines(e, s, cs[0].children, 0, p, "").0, WalkInlines(f, s, cs[0].children, 0, p, "").0;
      BudgetInlines(e, f, s, cs[0].children, 0, p, "");
      if se == sf && Open(e.policy.maxErrors, se) {
        BudgetHeaders(e, f, se, cs[1..], k + 1, path);
      }
      Continue(e.policy.maxErrors, f.policy.maxErrors, se, sf,
               WalkHeaders(e, se, cs[1..], k + 1, path), WalkHeaders(f, sf, cs[1..], k + 1, path));
    }
  }

  lemma {:induction false} BudgetRow(e: Env, f: Env, s: State, cs: seq<Cell>, row: nat, k: nat, path: seq<PathPart>)
    requires Twins(e, f) && Open(e.policy.maxErrors, s)
    ensures Related(e.policy.maxErrors, WalkRow(e, s, cs, row, k, path), WalkRow(f, s, cs, row, k, path))
    decreases cs
  {
    if cs != [] && !s.stop {
      var p := path + [InFieldAt2(RowsField, row, k)] + [InField(ChildrenField)];
      var se, sf := WalkInlines(e, s, cs[0].children, 0, p, "").0, WalkInlines(f, s, cs[0].children, 0, p, "").0;
      BudgetInlines(e, f, s, cs[0].children, 0, p, "");
      if se == sf && Open(e.policy.maxErrors, se) {
        BudgetRow(e, f, se, cs[1..], row, k + 1, path);
      }
      Continue(e.policy.maxErrors, f.policy.maxErrors, se, sf,
               WalkRow(e, se, cs[1..], row, k + 1, path), WalkRow(f, sf, cs[1..], row, k + 1, path));
    }
  }

  lemma {:induction false} BudgetRows(e: Env, f: Env, s: State, rows: seq<seq<Cell>>, k: nat, path: seq<PathPart>)
    requires Twins(e, f) && Open(e.policy.maxErrors, s)
    ensures Related(e.policy.maxErrors, WalkRows(e, s, rows, k, path), WalkRows(f, s, rows, k, path))
    decreases rows
  {
    if rows != [] && !s.stop {
      var se, sf := WalkRow(e, s, rows[0], k, 0, path), WalkRow(f, s, rows[0], k, 0, path);
      BudgetRow(e, f, s, rows[0], k, 0, path);
      if se == sf && Open(e.policy.maxErrors, se) {
        BudgetRows(e, f, se, rows[1..], k + 1, path);
      }
      Continue(e.policy.maxErrors, f.policy.maxErrors, se, sf,
               WalkRows(e, se, rows[1..], k + 1, path), WalkRows(f, sf, rows[1..], k + 1, path));
    }
  }

  lemma BudgetTable(e: Env, f: Env, s: State, headers: seq<Cell>, rows: seq<seq<Cell>>, path: seq<PathPart>)
    requires Twins(e, f) && Open(e.policy.maxErrors, s)
    ensures Related(e.policy.maxErrors, WalkTable(e, s, headers, rows, path), WalkTable(f, s, headers, rows, path))
  {
    var counted := s.(cellCount := s.cellCount + CellCount(headers, rows));
    if counted.cellCount > e.policy.maxCells {
      BudgetError(e, f, counted, path, TABLE_TOO_LARGE);
    } else {
      var se, sf := WalkHeaders(e, counted, headers, 0, path), WalkHeaders(f, counted, headers, 0, path);
      BudgetHeaders(e, f, counted, headers, 0, path);
      if se == sf && Open(e.policy.maxErrors, se) {
        BudgetRows(e, f, se, rows, 0, path);
      }
      Continue(e.policy.maxErrors, f.policy.maxErrors, se, sf,
               WalkRows(e, se, rows, 0, path), WalkRows(f, sf, rows, 0, path));
    }
  }

  lemma BudgetEmbed(e: Env, f: Env, s: State, provider: string, url: string, path: seq<PathPart>)
    requires Twins(e, f) && Open(e.policy.maxErrors, s)
    ensures Related(e.policy.maxErrors, WalkEmbed(e, s, provider, url, path), WalkEmbed(f, s, provider, url, path))
  {
    var bad := provider != ImageProvider;
    var p, q := path + [InField(ProviderField)], path + [InField(UrlField)];
    var se := if bad then AddError(e.policy, s, p, EXTERNAL_EMBED_PROVIDER_NOT_ALLOWED) else s;
    var sf := if bad then AddError(f.policy, s, p, EXTERNAL_EMBED_PROVIDER_NOT_ALLOWED) else s;
    BudgetError(e, f, s, p, EXTERNAL_EMBED_PROVIDER_NOT_ALLOWED);
    if se == sf && Open(e.policy.maxErrors, se) {
      match e.sanitize(url)
      case None => BudgetError(e, f, se, q, EXTERNAL_EMBED_URL_UNSAFE);
      case Some(u) => BudgetLink(e, f, se, q, u);
    }
    Continue(e.policy.maxErrors, f.policy.maxErrors, se, sf,
             WalkEmbed(e, s, provider, url, path), WalkEmbed(f, s, provider, url, path));
  }

  lemma {:induction false} BudgetFiles(e: Env, f: Env, s: State, ids: seq<string>, k: nat, path: seq<PathPart>)
    requires Twins(e, f) && Open(e.policy.maxErrors, s)
    ensures Related(e.policy.maxErrors, WalkFiles(e, s, ids, k, path), WalkFiles(f, s, ids, k, path))
    decreases ids
  {
    if ids != [] {
      var fileId, p := TrimSpace(ids[0]), path + [AtIndex(k)] + [InField(FileIdField)];
      var se := if fileId == "" then AddError(e.policy, s, p, MEDIA_REF_INVALID) else s.(media := s.media + [fileId]);
      var sf := if fileId == "" then AddError(f.policy, s, p, MEDIA_REF_INVALID) else s.(media := s.media + [fileId]);
      BudgetError(e, f, s, p, MEDIA_REF_INVALID);
      if se == sf && Open(e.policy.maxErrors, se) {
        BudgetFiles(e, f, se, ids[1..], k + 1, path);
      }
      Continue(e.policy.maxErrors, f.policy.maxErrors, se, sf,
               WalkFiles(e, se, ids[1..], k + 1, path), WalkFiles(f, sf, ids[1..], k + 1, path));
    }
  }

  lemma BudgetLimited(e: Env, f: Env, s: State, text: string, limit: int, path: seq<PathPart>, code: ErrorCode)
    requires Twins(e, f) && Open(e.policy.maxErrors, s)
    ensures Related(e.policy.maxErrors, WalkLimited(e.policy, s, text, limit, path, code),
                    WalkLimited(f.policy, s, text, limit, path, code))
  {
    BudgetError(e, f, s, path, code);
  }

  lemma BudgetLeaf(e: Env, f: Env, s: State, b: Block, path: seq<PathPart>)
    requires Twins(e, f) && Open(e.policy.maxErrors, s)
    requires !IsContainer(b)
    ensures Related(e.policy.maxErrors, WalkLeaf(e, s, b, path), WalkLeaf(f, s, b, path))
  {
    match b
    case NilBlock => BudgetError(e, f, s, path + [InField(TypeField)], BLOCK_TYPE_REQUIRED);
    case Unsupported(kind) =>
      BudgetError(e, f, s, path + [InField(TypeField)],
                  if kind == "" then BLOCK_TYPE_REQUIRED else BLOCK_TYPE_NOT_ENABLED);
    case Foreign => BudgetError(e, f, s, path + [InField(TypeField)], BLOCK_TYPE_NOT_ENABLED);
    case Paragraph(children) => BudgetTextBlock(e, f, s, children, path);
    case Heading(_, children) => BudgetTextBlock(e, f, s, children, path);
    case Code(code, _) =>
      BudgetLimited(e, f, s, code, e.policy.maxCode, path + [InField(CodeField)], CODE_BLOCK_TOO_LONG);
    case Math(latex) =>
      BudgetLimited(e, f, s, latex, e.policy.maxLatex, path + [InField(LatexField)], MATH_LATEX_TOO_LONG);
    case Table(headers, rows) => BudgetTable(e, f, s, headers, rows, path);
    case Image(fileId, _) => BudgetError(e, f, s, path + [InField(FileIdField)], MEDIA_REF_INVALID);
    case Embed(provider, url, _) => BudgetEmbed(e, f, s, provider, url, path);
    case Gallery(NilAttachments) =>
      BudgetError(e, f, s, path + [InField(ItemsField)], ATTACHMENT_GALLERY_ITEMS_INVALID);
    case Gallery(Attachments(ids)) => BudgetFiles(e, f, s, ids, 0, path + [InField(ItemsField)]);
  }

  lemma {:induction false} BudgetItems(
    e: Env, f: Env, s: State, items: seq<ListItem>, k: nat, path: seq<PathPart>, depth: nat)
    requires Twins(e, f) && Open(e.policy.maxErrors, s)
    ensures Related(e.policy.maxErrors, WalkItems(e, s, items, k, path, depth), WalkItems(f, s, items, k, path, depth))
    decreases items
  {
    if items != [] && !s.stop {
      var p := path + [AtIndex(k)] + [InField(BlocksField)];
      var se, sf := WalkBlocks(e, s, items[0].blocks, 0, p, depth), WalkBlocks(f, s, items[0].blocks, 0, p, depth);
      BudgetBlocks(e, f, s, items[0].blocks, 0, p, depth);
      if se == sf && Open(e.policy.maxErrors, se) {
        BudgetItems(e, f, se, items[1..], k + 1, path, depth);
      }
      Continue(e.policy.maxErrors, f.policy.maxErrors, se, sf,
               WalkItems(e, se, items[1..], k + 1, path, depth), WalkItems(f, sf, items[1..], k + 1, path, depth));
    }
  }

  lemma {:induction false} BudgetBlocks(
    e: Env, f: Env, s: State, bs: seq<Block>, k: nat, path: seq<PathPart>, depth: nat)
    requires Twins(e, f) && Open(e.policy.maxErrors, s)
    ensures Related(e.policy.maxErrors, WalkBlocks(e, s, bs, k, path, depth), WalkBlocks(f, s, bs, k, path, depth))
    decreases bs
  {
    if bs != [] && !s.stop {
      var p := path + [AtIndex(k)];
      var se, sf := WalkBlock(e, s, bs[0], p, depth), WalkBlock(f, s, bs[0], p, depth);
      BudgetBlock(e, f, s, bs[0], p, depth);
      if se == sf && Open(e.policy.maxErrors, se) {
        BudgetBlocks(e, f, se, bs[1..], k + 1, path, depth);
      }
      Continue(e.policy.maxErrors, f.policy.maxErrors, se, sf,
               WalkBlocks(e, se, bs[1..], k + 1, path, depth), WalkBlocks(f, sf, bs[1..], k + 1, path, depth));
    }
  }

  lemma {:induction false} BudgetBlock(e: Env, f: Env, s: State, b: Block, path: seq<PathPart>, depth: nat)
    requires Twins(e, f) && Open(e.policy.maxErrors, s)
    ensures Related(e.policy.maxErrors, WalkBlock(e, s, b, path, depth), WalkBlock(f, s, b, path, depth))
    decreases b, 2
  {
    var counted := s.(blockCount := s.blockCount + 1);
    var r, u := WalkBlock(e, s, b, path, depth), WalkBlock(f, s, b, path, depth);
    if counted.blockCount > e.policy.maxBlocks {
      assert r == AddError(e.policy, counted, BlocksRoot, BODY_BLOCK_COUNT_EXCEEDED).Stopped();
      assert u == AddError(f.policy, counted, BlocksRoot, BODY_BLOCK_COUNT_EXCEEDED).Stopped();
      BudgetError(e, f, counted, BlocksRoot, BODY_BLOCK_COUNT_EXCEEDED);
    } else {
      assert r == WalkInner(e, counted, b, path, depth) && u == WalkInner(f, counted, b, path, depth);
      BudgetInner(e, f, counted, b, path, depth);
    }
  }

  lemma {:induction false} BudgetInner(e: Env, f: Env, s: State, b: Block, path: seq<PathPart>, depth: nat)
    requires Twins(e, f) && Open(e.policy.maxErrors, s)
    ensures Related(e.policy.maxErrors, WalkInner(e, s, b, path, depth), WalkInner(f, s, b, path, depth))
    decreases b, 1
  {
    if !IsContainer(b) {
      BudgetLeaf(e, f, s, b, path);
    } else if depth + 1 > e.policy.maxDepth {
      BudgetError(e, f, s, path, BODY_CONTAINER_TOO_DEEP);
    } else if !s.stop {
      BudgetContainer(e, f, s, b, path, depth + 1);
    }
  }

  lemma {:induction false} BudgetContainer(e: Env, f: Env, s: State, b: Block, path: seq<PathPart>, depth: nat)
    requires Twins(e, f) && Open(e.policy.maxErrors, s)
    requires IsContainer(b)
    ensures Related(e.policy.maxErrors, WalkContainer(e, s, b, path, depth), WalkContainer(f, s, b, path, depth))
    decreases b, 0
  {
    match b
    case Quote(blocks) => BudgetBlocks(e, f, s, blocks, 0, path + [InField(BlocksField)], depth);
    case List(NilItems) => BudgetError(e, f, s, path + [InField(ItemsField)], LIST_ITEMS_INVALID);
    case List(Items(items)) => BudgetItems(e, f, s, items, 0, path + [InField(ItemsField)], depth);
    case Collapsible(title, blocks) =>
      var p := path + [InField(TitleField)];
      var se, sf := WalkInlines(e, s, title, 0, p, "").0, WalkInlines(f, s, title, 0, p, "").0;
      BudgetInlines(e, f, s, title, 0, p, "");
      if se == sf && Open(e.policy.maxErrors, se) {
        BudgetBlocks(e, f, se, blocks, 0, path + [InField(BlocksField)], depth);
      }
      Continue(e.policy.maxErrors, f.policy.maxErrors, se, sf,
               WalkContainer(e, s, b, path, depth), WalkContainer(f, s, b, path, depth));
  }

  lemma BudgetOpened(e: Env, f: Env, input: Input)
    requires Twins(e, f)
    ensures Related(e.policy.maxErrors, Opened(e.policy, input), Opened(f.policy, input))
  {
    var se := if input.schemaVersion != 1 then AddError(e.policy, Start, SchemaRoot, BODY_SCHEMA_UNSUPPORTED) else Start;
    var sf := if input.schemaVersion != 1 then AddError(f.policy, Start, SchemaRoot, BODY_SCHEMA_UNSUPPORTED) else Start;
    BudgetError(e, f, Start, SchemaRoot, BODY_SCHEMA_UNSUPPORTED);
    if se == sf && Open(e.policy.maxErrors, se) {
      BudgetError(e, f, se, BlocksRoot, BODY_SCHEMA_INVALID);
    }
    Continue(e.policy.maxErrors, f.policy.maxErrors, se, sf, Opened(e.policy, input), Opened(f.policy, input));
  }

  lemma BudgetChecked(e: Env, f: Env, input: Input)
    requires Twins(e, f)
    ensures Related(e.policy.maxErrors, Checked(e, input), Checked(f, input))
  {
    var m, n := e.policy.maxErrors, f.policy.maxErrors;
    var bs := TopBlocks(input);
    var se, sf := Opened(e.policy, input), Opened(f.policy, input);
    var we, wf := WalkBlocks(e, se, bs, 0, BlocksRoot, 0), WalkBlocks(f, sf, bs, 0, BlocksRoot, 0);
    BudgetOpened(e, f, input);
    if se == sf && Open(m, se) {
      BudgetBlocks(e, f, se, bs, 0, BlocksRoot, 0);
    }
    Continue(m, n, se, sf, we, wf);
    if we == wf && Open(m, we) {
      BudgetError(e, f, we, BlocksRoot, BODY_TEXT_TOO_LONG);
    }
    Continue(m, n, we, wf, CheckText(e.policy, we), CheckText(f.policy, wf));
  }

  // --------------------------------------------------------------- main results

  function Take(details: seq<Detail>, m: nat): seq<Detail> {
    if |details| <= m then details else details[..m]
  }

  /** Raising only the error budget from `m` to `M` extends the report: the report
      under `m` is the first `m` errors of the report under `M`, and acceptance
      does not depend on the budget at all. */
  lemma SmallerBudgetReportsPrefix(e: Env, f: Env, input: Input)
    requires Twins(e, f)
    ensures Parse(f, input).Accepted? ==> Parse(e, input) == Parse(f, input)
    ensures Parse(f, input).Rejected? ==>
              && Parse(e, input).Rejected?
              && Parse(e, input).details == Take(Parse(f, input).details, e.policy.maxErrors)
  {
    BudgetChecked(e, f, input);
  }

  /** A report is marked as truncated exactly when it has the budgeted length and the
      tree itself breaks a limit; a tree that breaks none is rejected for its canonical
      size alone, in a report that is never marked. */
  lemma TruncatedExactlyWhenFull(e: Env, input: Input)
    requires e.policy.Positive() && Parse(e, input).Rejected?
    ensures Parse(e, input).truncated <==>
              |Parse(e, input).details| == e.policy.maxErrors && !WithinLimits(e, input)
    ensures WithinLimits(e, input) ==> Parse(e, input) == Rejected([Detail("blocks", BODY_TOO_LARGE)], false)
  {
    WalkIsBounded(e, input);
    CheckedRefinesTally(e, input);
  }

  /** The exception is real: with a budget of one error, an oversized body fills
      the budget and is still reported as complete. */
  lemma OversizedReportIsFullButNotTruncated(e: Env)
    requires e.policy.Positive() && e.policy.maxErrors == 1
    requires e.size(CBody(1, [])) > e.policy.maxCanonicalBytes
    ensures var r := Parse(e, Input(1, Blocks([])));
            r.Rejected? && |r.details| == e.policy.maxErrors && !r.truncated
  {
    var input := Input(1, Blocks([]));
    assert TopBlocks(input) == [];
    assert Checked(e, input) == Start;
  }
}
