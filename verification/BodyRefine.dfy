/** The stateful walk against the pure tally: from a clean state the walk stays
    clean exactly when the tally fits into the limits, and then every counter and
    every collected list has advanced by exactly what the tally says. */
module BodyRefine {
  import opened Body
  import opened BodyCanonical
  import opened BodyTally
  import opened BodyWalk

  ghost predicate Clean(p: Policy, s: State) {
    && s.details == [] && !s.stop && !s.truncated
    && s.blockCount <= p.maxBlocks && s.inlineCount <= p.maxInlines
    && s.cellCount <= p.maxCells && |s.links| <= p.maxLinks
  }

  /** The subtree is locally valid and there is room for it after `s`, at `depth`. */
  predicate Fits(p: Policy, s: State, t: Tally, depth: nat) {
    && t.ok
    && s.blockCount + t.blocks <= p.maxBlocks
    && s.inlineCount + t.inlines <= p.maxInlines
    && s.cellCount + t.cells <= p.maxCells
    && |s.links| + |t.links| <= p.maxLinks
    && depth + t.depth <= p.maxDepth
  }

  function Advance(s: State, t: Tally): State {
    s.(blockCount := s.blockCount + t.blocks, inlineCount := s.inlineCount + t.inlines,
       cellCount := s.cellCount + t.cells, texts := s.texts + t.texts,
       media := s.media + t.media, links := s.links + t.links)
  }

  ghost predicate Refines(p: Policy, s: State, t: Tally, depth: nat, r: State) {
    && (r.details == [] <==> Fits(p, s, t, depth))
    && (r.details == [] ==> r == Advance(s, t) && Clean(p, r))
  }

  lemma AdvanceTwice(s: State, t: Tally, u: Tally)
    ensures Advance(Advance(s, t), u) == Advance(s, t.Plus(u))
  {
    assert s.texts + t.texts + u.texts == s.texts + (t.texts + u.texts);
    assert s.media + t.media + u.media == s.media + (t.media + u.media);
    assert s.links + t.links + u.links == s.links + (t.links + u.links);
  }

  lemma AdvanceNothing(s: State)
    ensures Advance(s, Nothing) == s
  {
    assert s.texts + [] == s.texts && s.media + [] == s.media && s.links + [] == s.links;
  }

  lemma Compose(p: Policy, s: State, t: Tally, mid: State, u: Tally, depth: nat, r: State)
    requires Refines(p, s, t, depth, mid)
    requires mid.details <= r.details
    requires Clean(p, mid) ==> Refines(p, mid, u, depth, r)
    ensures Refines(p, s, t.Plus(u), depth, r)
  {
    AdvanceTwice(s, t, u);
  }

  // ------------------------------------------------------ runs of inline nodes

  predicate RunFits(p: Policy, s: State, u: Run) {
    u.ok && s.inlineCount + u.inlines <= p.maxInlines && |s.links| + |u.links| <= p.maxLinks
  }

  function RunAdvance(s: State, u: Run): State {
    s.(inlineCount := s.inlineCount + u.inlines, links := s.links + u.links)
  }

  ghost predicate RunRefines(p: Policy, s: State, u: Run, r: State) {
    && (r.details == [] <==> RunFits(p, s, u))
    && (r.details == [] ==> r == RunAdvance(s, u) && Clean(p, r))
  }

  lemma RunCompose(p: Policy, s: State, u: Run, mid: State, v: Run, r: State)
    requires RunRefines(p, s, u, mid)
    requires mid.details <= r.details
    requires Clean(p, mid) ==> RunRefines(p, mid, v, r)
    ensures RunRefines(p, s, u.Plus(v), r)
  {
    assert s.links + u.links + v.links == s.links + (u.links + v.links);
  }

  lemma RefineNoRun(p: Policy, s: State)
    requires Clean(p, s)
    ensures RunRefines(p, s, NoRun, s)
  {
    assert s.links + [] == s.links;
  }

  /** A run as a block's own contribution. */
  lemma RunAsTally(p: Policy, s: State, u: Run, depth: nat, r: State)
    requires RunRefines(p, s, u, r) && depth <= p.maxDepth && Clean(p, s)
    ensures Refines(p, s, OfRun(u, 0, []), depth, r)
  {
    assert s.texts + [] == s.texts && s.media + [] == s.media;
  }

  lemma RefineMark(e: Env, s: State, m: Mark, path: seq<PathPart>)
    requires e.policy.Positive() && Clean(e.policy, s)
    ensures RunRefines(e.policy, s, MarkRun(e.sanitize, m), WalkMark(e, s, m, path))
  {
    RefineNoRun(e.policy, s);
  }

  lemma {:induction false} RefineMarks(e: Env, s: State, ms: seq<Mark>, k: nat, path: seq<PathPart>)
    requires e.policy.Positive() && Clean(e.policy, s)
    ensures RunRefines(e.policy, s, MarksRun(e.sanitize, ms), WalkMarks(e, s, ms, k, path))
    decreases ms
  {
    RefineNoRun(e.policy, s);
    if ms != [] {
      var markPath := path + [AtIndex(k)];
      var mid := WalkMark(e, s, ms[0], markPath);
      RefineMark(e, s, ms[0], markPath);
      if Clean(e.policy, mid) {
        RefineMarks(e, mid, ms[1..], k + 1, path);
      }
      RunCompose(e.policy, s, MarkRun(e.sanitize, ms[0]), mid, MarksRun(e.sanitize, ms[1..]),
                 WalkMarks(e, s, ms, k, path));
    }
  }

  /** One node: counted first, then its marks. */
  lemma RefineInline(e: Env, s: State, n: Inline, path: seq<PathPart>)
    requires e.policy.Positive() && Clean(e.policy, s)
    requires s.inlineCount + 1 <= e.policy.maxInlines
    ensures RunRefines(e.policy, s, InlineRun(e.sanitize, n), WalkInline(e, CountInline(e.policy, s), n, path))
  {
    RefineMarks(e, s.(inlineCount := s.inlineCount + 1), n.marks, 0, path + [InField(MarksField)]);
  }

  lemma {:induction false} RefineInlines(e: Env, s: State, ns: seq<Inline>, k: nat, path: seq<PathPart>, text: string)
    requires e.policy.Positive() && Clean(e.policy, s)
    ensures RunRefines(e.policy, s, InlinesRun(e.sanitize, ns), WalkInlines(e, s, ns, k, path, text).0)
    decreases ns
  {
    if ns == [] {
      RefineNoRun(e.policy, s);
    } else if s.inlineCount + 1 > e.policy.maxInlines {
      assert !RunFits(e.policy, s, InlinesRun(e.sanitize, ns));
    } else {
      var nodePath := path + [AtIndex(k)];
      var mid := WalkInline(e, CountInline(e.policy, s), ns[0], nodePath);
      var r := WalkInlines(e, mid, ns[1..], k + 1, path, text + NodeText(ns[0])).0;
      assert WalkInlines(e, s, ns, k, path, text).0 == r;
      RefineInline(e, s, ns[0], nodePath);
      if Clean(e.policy, mid) {
        RefineInlines(e, mid, ns[1..], k + 1, path, text + NodeText(ns[0]));
      }
      RunCompose(e.policy, s, InlineRun(e.sanitize, ns[0]), mid, InlinesRun(e.sanitize, ns[1..]), r);
    }
  }

  /** An error-free walk over inline nodes has collected all of their text. */
  lemma {:induction false} InlinesText(e: Env, s: State, ns: seq<Inline>, k: nat, path: seq<PathPart>, text: string)
    requires e.policy.Positive() && Bounded(e.policy, s)
    ensures var r := WalkInlines(e, s, ns, k, path, text); r.0.details == [] ==> r.1 == text + TextOf(ns)
    decreases ns
  {
    if ns != [] && !s.stop && s.inlineCount + 1 <= e.policy.maxInlines {
      var mid := WalkInline(e, CountInline(e.policy, s), ns[0], path + [AtIndex(k)]);
      if ns[0].kind != TextKind {
        assert mid.details != [];
      } else {
        InlinesText(e, mid, ns[1..], k + 1, path, text + ns[0].text);
        assert text + ns[0].text + TextOf(ns[1..]) == text + TextOf(ns);
      }
    }
  }

  lemma RefineTextBlock(e: Env, s: State, ns: seq<Inline>, path: seq<PathPart>, depth: nat)
    requires e.policy.Positive() && Clean(e.policy, s) && depth <= e.policy.maxDepth
    ensures Refines(e.policy, s, TextBlockTally(e.sanitize, ns), depth, WalkTextBlock(e, s, ns, path))
  {
    RefineInlines(e, s, ns, 0, path + [InField(ChildrenField)], "");
    InlinesText(e, s, ns, 0, path + [InField(ChildrenField)], "");
    assert "" + TextOf(ns) == TextOf(ns);
    assert s.media + [] == s.media;
  }

  lemma {:induction false} RefineHeaders(e: Env, s: State, cs: seq<Cell>, k: nat, path: seq<PathPart>)
    requires e.policy.Positive() && Clean(e.policy, s)
    ensures RunRefines(e.policy, s, CellsRun(e.sanitize, cs), WalkHeaders(e, s, cs, k, path))
    decreases cs
  {
    RefineNoRun(e.policy, s);
    if cs != [] {
      var cellPath := path + [InFieldAt(HeadersField, k)] + [InField(ChildrenField)];
      var mid := WalkInlines(e, s, cs[0].children, 0, cellPath, "").0;
      RefineInlines(e, s, cs[0].children, 0, cellPath, "");
      if Clean(e.policy, mid) {
        RefineHeaders(e, mid, cs[1..], k + 1, path);
      }
      RunCompose(e.policy, s, InlinesRun(e.sanitize, cs[0].children), mid, CellsRun(e.sanitize, cs[1..]),
                 WalkHeaders(e, s, cs, k, path));
    }
  }

  lemma {:induction false} RefineRow(e: Env, s: State, cs: seq<Cell>, row: nat, k: nat, path: seq<PathPart>)
    requires e.policy.Positive() && Clean(e.policy, s)
    ensures RunRefines(e.policy, s, CellsRun(e.sanitize, cs), WalkRow(e, s, cs, row, k, path))
    decreases cs
  {
    RefineNoRun(e.policy, s);
    if cs != [] {
      var cellPath := path + [InFieldAt2(RowsField, row, k)] + [InField(ChildrenField)];
      var mid := WalkInlines(e, s, cs[0].children, 0, cellPath, "").0;
      RefineInlines(e, s, cs[0].children, 0, cellPath, "");
      if Clean(e.policy, mid) {
        RefineRow(e, mid, cs[1..], row, k + 1, path);
      }
      RunCompose(e.policy, s, InlinesRun(e.sanitize, cs[0].children), mid, CellsRun(e.sanitize, cs[1..]),
                 WalkRow(e, s, cs, row, k, path));
    }
  }

  lemma {:induction false} RefineRows(e: Env, s: State, rows: seq<seq<Cell>>, k: nat, path: seq<PathPart>)
    requires e.policy.Positive() && Clean(e.policy, s)
    ensures RunRefines(e.policy, s, RowsRun(e.sanitize, rows), WalkRows(e, s, rows, k, path))
    decreases rows
  {
    RefineNoRun(e.policy, s);
    if rows != [] {
      var mid := WalkRow(e, s, rows[0], k, 0, path);
      RefineRow(e, s, rows[0], k, 0, path);
      if Clean(e.policy, mid) {
        RefineRows(e, mid, rows[1..], k + 1, path);
      }
      RunCompose(e.policy, s, CellsRun(e.sanitize, rows[0]), mid, RowsRun(e.sanitize, rows[1..]),
                 WalkRows(e, s, rows, k, path));
    }
  }

  /** The cells of a table, once their number is known to fit. */
  lemma RefineTableCells(e: Env, s: State, headers: seq<Cell>, rows: seq<seq<Cell>>, path: seq<PathPart>)
    requires e.policy.Positive() && Clean(e.policy, s)
    ensures RunRefines(e.policy, s, CellsRun(e.sanitize, headers).Plus(RowsRun(e.sanitize, rows)),
                       WalkTableCells(e, s, headers, rows, path))
  {
    var mid := WalkHeaders(e, s, headers, 0, path);
    RefineHeaders(e, s, headers, 0, path);
    if Clean(e.policy, mid) {
      RefineRows(e, mid, rows, 0, path);
    }
    RunCompose(e.policy, s, CellsRun(e.sanitize, headers), mid, RowsRun(e.sanitize, rows),
               WalkTableCells(e, s, headers, rows, path));
  }

  lemma RefineCellCount(p: Policy, s: State, u: Run, cells: nat, depth: nat, r: State)
    requires Clean(p, s) && s.cellCount + cells <= p.maxCells && depth <= p.maxDepth
    requires RunRefines(p, s.(cellCount := s.cellCount + cells), u, r)
    ensures Refines(p, s, OfRun(u, cells, []), depth, r)
  {
    assert s.texts + [] == s.texts && s.media + [] == s.media;
  }

  lemma RefineTable(e: Env, s: State, headers: seq<Cell>, rows: seq<seq<Cell>>, path: seq<PathPart>, depth: nat)
    requires e.policy.Positive() && Clean(e.policy, s) && depth <= e.policy.maxDepth
    ensures Refines(e.policy, s, TableTally(e.sanitize, headers, rows), depth, WalkTable(e, s, headers, rows, path))
  {
    var cells := CellCount(headers, rows);
    var counted := s.(cellCount := s.cellCount + cells);
    if counted.cellCount <= e.policy.maxCells {
      var u, r := CellsRun(e.sanitize, headers).Plus(RowsRun(e.sanitize, rows)), WalkTable(e, s, headers, rows, path);
      assert RunRefines(e.policy, counted, u, r) by {
        assert r == WalkTableCells(e, counted, headers, rows, path);
        RefineTableCells(e, counted, headers, rows, path);
      }
      RefineCellCount(e.policy, s, u, cells, depth, r);
    } else {
      assert WalkTable(e, s, headers, rows, path).details != [];
      assert !Fits(e.policy, s, TableTally(e.sanitize, headers, rows), depth);
    }
  }

  // ---------------------------------------------------------------------- blocks

  lemma {:induction false} RefineFiles(e: Env, s: State, ids: seq<string>, k: nat, path: seq<PathPart>, depth: nat)
    requires e.policy.Positive() && Clean(e.policy, s) && depth <= e.policy.maxDepth
    ensures Refines(e.policy, s, FilesTally(ids), depth, WalkFiles(e, s, ids, k, path))
    decreases ids
  {
    AdvanceNothing(s);
    if ids != [] {
      var fileId := TrimSpace(ids[0]);
      var mid :=
        if fileId == "" then
          AddError(e.policy, s, path + [AtIndex(k)] + [InField(FileIdField)], MEDIA_REF_INVALID)
        else s.(media := s.media + [fileId]);
      assert s.texts + [] == s.texts && s.links + [] == s.links;
      assert Refines(e.policy, s, FileTally(ids[0]), depth, mid);
      if Clean(e.policy, mid) {
        RefineFiles(e, mid, ids[1..], k + 1, path, depth);
      }
      Compose(e.policy, s, FileTally(ids[0]), mid, FilesTally(ids[1..]), depth, WalkFiles(e, s, ids, k, path));
    }
  }

  lemma RefineEmbed(e: Env, s: State, provider: string, url: string, path: seq<PathPart>, depth: nat)
    requires e.policy.Positive() && Clean(e.policy, s) && depth <= e.policy.maxDepth
    ensures Refines(e.policy, s, EmbedTally(e.sanitize, provider, url), depth, WalkEmbed(e, s, provider, url, path))
  {
    assert s.texts + [] == s.texts && s.media + [] == s.media;
  }

  lemma RefineLeaf(e: Env, s: State, b: Block, path: seq<PathPart>, depth: nat)
    requires !IsContainer(b)
    requires e.policy.Positive() && Clean(e.policy, s) && depth <= e.policy.maxDepth
    ensures Refines(e.policy, s, InnerTally(e, b), depth, WalkLeaf(e, s, b, path))
  {
    AdvanceNothing(s);
    match b
    case Paragraph(children) => RefineTextBlock(e, s, children, path, depth);
    case Heading(_, children) => RefineTextBlock(e, s, children, path, depth);
    case Table(headers, rows) => RefineTable(e, s, headers, rows, path, depth);
    case Embed(provider, url, _) => RefineEmbed(e, s, provider, url, path, depth);
    case Gallery(Attachments(ids)) => RefineFiles(e, s, ids, 0, path + [InField(ItemsField)], depth);
    case Image(fileId, _) =>
      assert s.texts + [] == s.texts && s.links + [] == s.links;
    case _ =>
  }

  lemma {:induction false} RefineItems(e: Env, s: State, items: seq<ListItem>, k: nat, path: seq<PathPart>, depth: nat)
    requires e.policy.Positive() && Clean(e.policy, s) && depth <= e.policy.maxDepth
    ensures Refines(e.policy, s, ItemsTally(e, items), depth, WalkItems(e, s, items, k, path, depth))
    decreases items
  {
    AdvanceNothing(s);
    if items != [] {
      var itemPath := path + [AtIndex(k)] + [InField(BlocksField)];
      var mid := WalkBlocks(e, s, items[0].blocks, 0, itemPath, depth);
      RefineBlocks(e, s, items[0].blocks, 0, itemPath, depth);
      if Clean(e.policy, mid) {
        RefineItems(e, mid, items[1..], k + 1, path, depth);
      }
      Compose(e.policy, s, BlocksTally(e, items[0].blocks), mid, ItemsTally(e, items[1..]), depth,
              WalkItems(e, s, items, k, path, depth));
    }
  }

  lemma {:induction false} RefineBlocks(e: Env, s: State, bs: seq<Block>, k: nat, path: seq<PathPart>, depth: nat)
    requires e.policy.Positive() && Clean(e.policy, s) && depth <= e.policy.maxDepth
    ensures Refines(e.policy, s, BlocksTally(e, bs), depth, WalkBlocks(e, s, bs, k, path, depth))
    decreases bs
  {
    AdvanceNothing(s);
    if bs != [] {
      var mid := WalkBlock(e, s, bs[0], path + [AtIndex(k)], depth);
      RefineBlock(e, s, bs[0], path + [AtIndex(k)], depth);
      if Clean(e.policy, mid) {
        RefineBlocks(e, mid, bs[1..], k + 1, path, depth);
      }
      Compose(e.policy, s, BlockTally(e, bs[0]), mid, BlocksTally(e, bs[1..]), depth,
              WalkBlocks(e, s, bs, k, path, depth));
    }
  }

  lemma RefineCounted(p: Policy, s: State, t: Tally, depth: nat, r: State)
    requires s.blockCount + 1 <= p.maxBlocks
    requires Refines(p, s.(blockCount := s.blockCount + 1), t, depth, r)
    ensures Refines(p, s, t.OneBlock(), depth, r)
  {
  }

  lemma {:induction false} RefineBlock(e: Env, s: State, b: Block, path: seq<PathPart>, depth: nat)
    requires e.policy.Positive() && Clean(e.policy, s) && depth <= e.policy.maxDepth
    ensures Refines(e.policy, s, BlockTally(e, b), depth, WalkBlock(e, s, b, path, depth))
    decreases b, 2
  {
    var counted := s.(blockCount := s.blockCount + 1);
    var r := WalkBlock(e, s, b, path, depth);
    if counted.blockCount <= e.policy.maxBlocks {
      assert r == WalkInner(e, counted, b, path, depth);
      RefineInner(e, counted, b, path, depth);
      RefineCounted(e.policy, s, InnerTally(e, b), depth, r);
    } else {
      assert r.details != [];
      assert !Fits(e.policy, s, BlockTally(e, b), depth);
    }
  }

  /** A container that is allowed here: its tally is the children's, one deeper. */
  lemma RefineNested(p: Policy, s: State, t: Tally, depth: nat, r: State)
    requires depth + 1 <= p.maxDepth
    requires Refines(p, s, t, depth + 1, r)
    ensures Refines(p, s, t.Nested(), depth, r)
  {
  }

  lemma {:induction false} RefineInner(e: Env, s: State, b: Block, path: seq<PathPart>, depth: nat)
    requires e.policy.Positive() && Clean(e.policy, s) && depth <= e.policy.maxDepth
    ensures Refines(e.policy, s, InnerTally(e, b), depth, WalkInner(e, s, b, path, depth))
    decreases b, 1
  {
    if !IsContainer(b) {
      RefineLeaf(e, s, b, path, depth);
    } else if depth + 1 <= e.policy.maxDepth {
      assert CheckDepth(e.policy, s, path, depth) == s;
      RefineContainer(e, s, b, path, depth + 1);
      RefineNested(e.policy, s, InsideTally(e, b), depth, WalkContainer(e, s, b, path, depth + 1));
    } else {
      assert InnerTally(e, b).depth > 0;
    }
  }

  function InsideTally(e: Env, b: Block): (t: Tally)
    requires IsContainer(b)
    ensures InnerTally(e, b) == t.Nested()
  {
    match b
    case Quote(blocks) => BlocksTally(e, blocks)
    case List(NilItems) => Invalid
    case List(Items(items)) => ItemsTally(e, items)
    case Collapsible(title, blocks) => OfRun(InlinesRun(e.sanitize, title), 0, []).Plus(BlocksTally(e, blocks))
  }

  lemma {:induction false} RefineContainer(e: Env, s: State, b: Block, path: seq<PathPart>, depth: nat)
    requires IsContainer(b)
    requires e.policy.Positive() && Clean(e.policy, s) && depth <= e.policy.maxDepth
    ensures Refines(e.policy, s, InsideTally(e, b), depth, WalkContainer(e, s, b, path, depth))
    decreases b, 0
  {
    match b
    case Quote(blocks) => RefineBlocks(e, s, blocks, 0, path + [InField(BlocksField)], depth);
    case List(NilItems) =>
    case List(Items(items)) => RefineItems(e, s, items, 0, path + [InField(ItemsField)], depth);
    case Collapsible(title, blocks) =>
      var titlePath := path + [InField(TitleField)];
      var mid := WalkInlines(e, s, title, 0, titlePath, "").0;
      RefineInlines(e, s, title, 0, titlePath, "");
      RunAsTally(e.policy, s, InlinesRun(e.sanitize, title), depth, mid);
      if Clean(e.policy, mid) {
        RefineBlocks(e, mid, blocks, 0, path + [InField(BlocksField)], depth);
      }
      Compose(e.policy, s, OfRun(InlinesRun(e.sanitize, title), 0, []), mid, BlocksTally(e, blocks), depth,
              WalkContainer(e, s, b, path, depth));
  }

  // --------------------------------------------------------------- main results

  /** Every condition on the tree but the size of its canonical form. */
  predicate WithinLimits(e: Env, input: Input) {
    var t := BlocksTally(e, TopBlocks(input));
    && input.schemaVersion == 1
    && input.body.Blocks?
    && t.ok
    && t.blocks <= e.policy.maxBlocks
    && t.inlines <= e.policy.maxInlines
    && t.cells <= e.policy.maxCells
    && t.depth <= e.policy.maxDepth
    && |t.links| <= e.policy.maxLinks
    && |Join(t.texts)| <= e.policy.maxPlainText
  }

  /** The conditions under which a body is acceptable, said about the tree alone. */
  predicate Acceptable(e: Env, input: Input) {
    WithinLimits(e, input) && e.size(CanonBody(e.sanitize, input)) <= e.policy.maxCanonicalBytes
  }

  /** The walk of a supported, present body, and its text. */
  lemma WalkedRefinesTally(e: Env, bs: seq<Block>)
    requires e.policy.Positive()
    ensures var t, s := BlocksTally(e, bs), CheckText(e.policy, WalkBlocks(e, Start, bs, 0, BlocksRoot, 0));
            && (s.details == [] <==> Fits(e.policy, Start, t, 0) && |Join(t.texts)| <= e.policy.maxPlainText)
            && (s.details == [] ==> s.texts == t.texts && s.media == t.media && s.links == t.links
                                    && s.blockCount == t.blocks)
  {
    RefineBlocks(e, Start, bs, 0, BlocksRoot, 0);
    var t := BlocksTally(e, bs);
    assert [] + t.texts == t.texts && [] + t.media == t.media && [] + t.links == t.links;
  }

  /** Every check but the canonical size: the errors stay away exactly from a
      supported, present, locally valid tree whose totals are within the limits. */
  lemma CheckedRefinesTally(e: Env, input: Input)
    requires e.policy.Positive()
    ensures var t := BlocksTally(e, TopBlocks(input));
            var s := Checked(e, input);
            && (s.details == [] <==> WithinLimits(e, input))
            && (s.details == [] ==> s.texts == t.texts && s.media == t.media && s.links == t.links
                                    && s.blockCount == t.blocks)
  {
    var entry := Opened(e.policy, input);
    var walked := WalkBlocks(e, entry, TopBlocks(input), 0, BlocksRoot, 0);
    if input.schemaVersion == 1 && input.body.Blocks? {
      assert entry == Start;
      WalkedRefinesTally(e, TopBlocks(input));
    } else {
      assert entry.details != [];
      assert entry.details <= walked.details;
    }
  }

  /** The stateful parse accepts exactly the acceptable bodies, and what it returns
      is the in-order traversal of the tree. */
  lemma ParseRefinesTally(e: Env, input: Input)
    requires e.policy.Positive()
    ensures Parse(e, input).Accepted? <==> Acceptable(e, input)
    ensures Parse(e, input).Accepted? ==>
              var t := BlocksTally(e, TopBlocks(input));
              var canonical := CanonBody(e.sanitize, input);
              Parse(e, input).body ==
                NormalizedBody(Join(t.texts), t.media, t.links, canonical, e.hash(canonical), e.size(canonical), t.blocks)
  {
    CheckedRefinesTally(e, input);
  }

  /** However large and however malformed the tree: the walk counts at most one
      block and one inline node past their limits, never collects more links than
      allowed, reports between one and the budgeted number of errors, and an early
      stop has always left an error behind. */
  lemma WalkIsBounded(e: Env, input: Input)
    requires e.policy.Positive()
    ensures var s := Checked(e, input);
            && s.blockCount <= e.policy.maxBlocks + 1
            && s.inlineCount <= e.policy.maxInlines + 1
            && |s.links| <= e.policy.maxLinks
            && |s.details| <= e.policy.maxErrors
            && (s.stop ==> s.details != [] && Parse(e, input).Rejected?)
            && (s.truncated <==> |s.details| == e.policy.maxErrors)
  {
    assert Bounded(e.policy, Start);
    var entry := Opened(e.policy, input);
    assert Bounded(e.policy, entry);
    var walked := WalkBlocks(e, entry, TopBlocks(input), 0, BlocksRoot, 0);
    assert Bounded(e.policy, walked);
  }

  /** The constructor makes every limit positive unless it was given a negative one. */
  lemma NormalizedPolicyIsPositive(p: Policy)
    ensures Normalized(p).Positive() <==>
              && p.maxCanonicalBytes >= 0 && p.maxPlainText >= 0 && p.maxBlocks >= 0 && p.maxInlines >= 0
              && p.maxDepth >= 0 && p.maxCells >= 0 && p.maxLatex >= 0 && p.maxCode >= 0
              && p.maxLinks >= 0 && p.maxErrors >= 0
  {
  }

  /** The parser as its constructor makes it, for any policy without a negative limit,
      zeros standing for the defaults: it accepts exactly the acceptable bodies. */
  lemma ConstructedParserRefinesTally(p: Policy, e: Env, input: Input)
    requires e.policy == Normalized(p)
    requires p.maxCanonicalBytes >= 0 && p.maxPlainText >= 0 && p.maxBlocks >= 0 && p.maxInlines >= 0
    requires p.maxDepth >= 0 && p.maxCells >= 0 && p.maxLatex >= 0 && p.maxCode >= 0
    requires p.maxLinks >= 0 && p.maxErrors >= 0
    ensures Parse(e, input).Accepted? <==> Acceptable(e, input)
  {
    NormalizedPolicyIsPositive(p);
    ParseRefinesTally(e, input);
  }

  /** Why the budget must be positive: with none the error list stays
      empty and the walk's objections are lost. */
  lemma NegativeBudgetLosesErrors(e: Env, input: Input)
    requires e.policy.maxErrors <= 0
    ensures Checked(e, input).details == []
    ensures Parse(e, input).Accepted? <==> e.size(CanonBody(e.sanitize, input)) <= e.policy.maxCanonicalBytes
  {
    var entry := Opened(e.policy, input);
    assert entry.details == [];
    var walked := WalkBlocks(e, entry, TopBlocks(input), 0, BlocksRoot, 0);
    assert Grows(e.policy.maxErrors, entry, walked);
  }
}
