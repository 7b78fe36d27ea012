/** What the canonical tree says. An accepted body is printed, stored and read back
    as the body that was handed in, field by field: the only differences are trimmed
    file ids, sanitised link and embed URLs, dropped hrefs of marks that are no link,
    and empty lists and galleries that come back as absent ones. */
module BodyFaithful {
  import opened Body
  import opened BodyCanonical
  import opened BodyTally
  import opened BodyWalk
  import opened BodyRefine

  // ------------------------------------------ what a tree may differ in when kept

  /** `d` is the mark `m` after a round through the store. */
  predicate SameMark(z: Sanitizer, m: Mark, d: Mark) {
    d.kind == m.kind && (if m.kind == "link" then z(m.href) == Some(d.href) else d.href == "")
  }

  predicate SameMarks(z: Sanitizer, ms: seq<Mark>, ds: seq<Mark>) {
    |ms| == |ds| && forall i :: 0 <= i < |ms| ==> SameMark(z, ms[i], ds[i])
  }

  predicate SameInline(z: Sanitizer, n: Inline, d: Inline) {
    d.kind == n.kind && d.text == n.text && SameMarks(z, n.marks, d.marks)
  }

  predicate SameInlines(z: Sanitizer, ns: seq<Inline>, ds: seq<Inline>) {
    |ns| == |ds| && forall i :: 0 <= i < |ns| ==> SameInline(z, ns[i], ds[i])
  }

  predicate SameCells(z: Sanitizer, cs: seq<Cell>, ds: seq<Cell>) {
    |cs| == |ds| && forall i :: 0 <= i < |cs| ==> SameInlines(z, cs[i].children, ds[i].children)
  }

  predicate SameRows(z: Sanitizer, rows: seq<seq<Cell>>, ds: seq<seq<Cell>>) {
    |rows| == |ds| && forall i :: 0 <= i < |rows| ==> SameCells(z, rows[i], ds[i])
  }

  predicate SameFiles(ids: seq<string>, ds: seq<string>) {
    |ids| == |ds| && forall i :: 0 <= i < |ids| ==> ds[i] == TrimSpace(ids[i])
  }

  predicate SameItems(z: Sanitizer, items: seq<ListItem>, ds: seq<ListItem>)
    decreases items
  {
    |items| == |ds| && forall i :: 0 <= i < |items| ==> SameBlocks(z, items[i].blocks, ds[i].blocks)
  }

  predicate SameBlocks(z: Sanitizer, bs: seq<Block>, ds: seq<Block>)
    decreases bs
  {
    |bs| == |ds| && forall i :: 0 <= i < |bs| ==> SameBlock(z, bs[i], ds[i])
  }

  /** `d` is the block `b` after a round through the store. No invalid block has one. */
  predicate SameBlock(z: Sanitizer, b: Block, d: Block)
    decreases b
  {
    match b
    case NilBlock => false
    case Unsupported(_) => false
    case Foreign => false
    case Paragraph(children) => d.Paragraph? && SameInlines(z, children, d.children)
    case Heading(level, children) => d.Heading? && d.level == level && SameInlines(z, children, d.children)
    case Quote(blocks) => d.Quote? && SameBlocks(z, blocks, d.blocks)
    case List(NilItems) => false
    case List(Items(items)) =>
      d.List? && if items == [] then d.items.NilItems? else d.items.Items? && SameItems(z, items, d.items.items)
    case Code(code, language) => d.Code? && d.code == code && d.language == language
    case Table(headers, rows) => d.Table? && SameCells(z, headers, d.headers) && SameRows(z, rows, d.rows)
    case Collapsible(title, blocks) => d.Collapsible? && SameInlines(z, title, d.title) && SameBlocks(z, blocks, d.blocks)
    case Math(latex) => d.Math? && d.latex == latex
    case Image(fileId, alt) => d.Image? && d.fileId == TrimSpace(fileId) && d.alt == alt
    case Embed(provider, url, caption) =>
      d.Embed? && d.provider == provider && z(url) == Some(d.url) && d.caption == caption
    case Gallery(NilAttachments) => false
    case Gallery(Attachments(ids)) =>
      && d.Gallery?
      && if ids == [] then d.attachments.NilAttachments?
         else d.attachments.Attachments? && SameFiles(ids, d.attachments.fileIds)
  }

  // --------------------------------------------------- what a canonical tree holds

  predicate HoldsInlines(cs: seq<CInline>, ns: seq<Inline>) {
    && |cs| == |ns|
    && forall i :: 0 <= i < |cs| ==>
         cs[i].kind == ns[i].kind && cs[i].text == ns[i].text && HoldsMarks(cs[i].marks, ns[i].marks)
  }

  predicate HoldsMarks(cs: seq<CMark>, ms: seq<Mark>) {
    |cs| == |ms| && forall i :: 0 <= i < |cs| ==> cs[i].kind == ms[i].kind && cs[i].href == ms[i].href
  }

  predicate HoldsCells(cs: seq<CCell>, ds: seq<Cell>) {
    |cs| == |ds| && forall i :: 0 <= i < |cs| ==> HoldsInlines(cs[i].children, ds[i].children)
  }

  predicate HoldsRows(rows: seq<seq<CCell>>, ds: seq<seq<Cell>>) {
    |rows| == |ds| && forall i :: 0 <= i < |rows| ==> HoldsCells(rows[i], ds[i])
  }

  predicate HoldsItems(cs: seq<CItem>, ds: seq<ListItem>)
    decreases cs
  {
    |cs| == |ds| && forall i :: 0 <= i < |cs| ==> HoldsBlocks(cs[i].blocks, ds[i].blocks)
  }

  predicate HoldsBlocks(cs: seq<CBlock>, ds: seq<Block>)
    decreases cs
  {
    |cs| == |ds| && forall i :: 0 <= i < |cs| ==> HoldsBlock(cs[i], ds[i])
  }

  /** The canonical block `c` carries exactly the content of the block `d`. */
  predicate HoldsBlock(c: CBlock, d: Block)
    decreases c
  {
    match c
    case CUntyped => d == Unsupported("")
    case CParagraph(children) => d.Paragraph? && HoldsInlines(children, d.children)
    case CHeading(level, children) => d.Heading? && level == d.level && HoldsInlines(children, d.children)
    case CQuote(blocks) => d.Quote? && HoldsBlocks(blocks, d.blocks)
    case CList(ItemsAbsent) => d.List? && d.items.NilItems?
    case CList(ItemsPresent(items)) => d.List? && d.items.Items? && HoldsItems(items, d.items.items)
    case CCode(code, language) => d.Code? && code == d.code && language == d.language
    case CTable(headers, rows) => d.Table? && HoldsCells(headers, d.headers) && HoldsRows(rows, d.rows)
    case CCollapsible(title, blocks) => d.Collapsible? && HoldsInlines(title, d.title) && HoldsBlocks(blocks, d.blocks)
    case CMath(latex) => d.Math? && latex == d.latex
    case CImage(fileId, alt) => d.Image? && fileId == d.fileId && alt == d.alt
    case CEmbed(provider, url, caption) => d.Embed? && provider == d.provider && url == d.url && caption == d.caption
    case CGallery(FilesAbsent) => d.Gallery? && d.attachments.NilAttachments?
    case CGallery(FilesPresent(ids)) => d.Gallery? && d.attachments.Attachments? && ids == d.attachments.fileIds
  }

  // --------------------------------------------------------- runs of inline nodes

  lemma {:induction false} MarksKept(z: Sanitizer, ms: seq<Mark>)
    requires MarksRun(z, ms).ok
    ensures SameMarks(z, ms, DecodeMarks(CanonMarks(z, ms)))
    decreases ms
  {
    if ms != [] {
      MarksKept(z, ms[1..]);
      var c := CanonMarks(z, ms);
      assert c[1..] == CanonMarks(z, ms[1..]);
      assert DecodeMarks(c)[1..] == DecodeMarks(c[1..]);
      assert forall i :: 1 <= i < |ms| ==> ms[i] == ms[1..][i - 1];
    }
  }

  lemma {:induction false} InlinesKept(z: Sanitizer, ns: seq<Inline>)
    requires InlinesRun(z, ns).ok
    ensures SameInlines(z, ns, DecodeInlines(CanonInlines(z, ns)))
    decreases ns
  {
    if ns != [] {
      MarksKept(z, ns[0].marks);
      InlinesKept(z, ns[1..]);
      var c := CanonInlines(z, ns);
      assert c[1..] == CanonInlines(z, ns[1..]);
      assert DecodeInlines(c)[1..] == DecodeInlines(c[1..]);
      assert forall i :: 1 <= i < |ns| ==> ns[i] == ns[1..][i - 1];
    }
  }

  lemma {:induction false} CellsKept(z: Sanitizer, cs: seq<Cell>)
    requires CellsRun(z, cs).ok
    ensures SameCells(z, cs, DecodeCells(CanonCells(z, cs)))
    decreases cs
  {
    if cs != [] {
      InlinesKept(z, cs[0].children);
      CellsKept(z, cs[1..]);
      var c := CanonCells(z, cs);
      assert c[1..] == CanonCells(z, cs[1..]);
      assert DecodeCells(c)[1..] == DecodeCells(c[1..]);
      assert forall i :: 1 <= i < |cs| ==> cs[i] == cs[1..][i - 1];
    }
  }

  lemma {:induction false} RowsKept(z: Sanitizer, rows: seq<seq<Cell>>)
    requires RowsRun(z, rows).ok
    ensures SameRows(z, rows, DecodeRows(CanonRows(z, rows)))
    decreases rows
  {
    if rows != [] {
      CellsKept(z, rows[0]);
      RowsKept(z, rows[1..]);
      var c := CanonRows(z, rows);
      assert c[1..] == CanonRows(z, rows[1..]);
      assert DecodeRows(c)[1..] == DecodeRows(c[1..]);
      assert forall i :: 1 <= i < |rows| ==> rows[i] == rows[1..][i - 1];
    }
  }

  lemma {:induction false} FilesKept(ids: seq<string>)
    ensures SameFiles(ids, CanonFiles(ids))
    decreases ids
  {
    if ids != [] {
      FilesKept(ids[1..]);
      assert CanonFiles(ids)[1..] == CanonFiles(ids[1..]);
      assert forall i :: 1 <= i < |ids| ==> ids[i] == ids[1..][i - 1];
    }
  }

  // ----------------------------------------------------------------------- blocks

  lemma {:induction false} ItemsKept(e: Env, items: seq<ListItem>)
    requires ItemsTally(e, items).ok
    ensures SameItems(e.sanitize, items, DecodeItems(CanonItems(e.sanitize, items)))
    ensures |CanonItems(e.sanitize, items)| == |items|
    decreases items
  {
    if items != [] {
      BlocksKept(e, items[0].blocks);
      ItemsKept(e, items[1..]);
      var c := CanonItems(e.sanitize, items);
      assert c[1..] == CanonItems(e.sanitize, items[1..]);
      assert DecodeItems(c)[1..] == DecodeItems(c[1..]);
      assert forall i :: 1 <= i < |items| ==> items[i] == items[1..][i - 1];
    }
  }

  lemma {:induction false} BlocksKept(e: Env, bs: seq<Block>)
    requires BlocksTally(e, bs).ok
    ensures SameBlocks(e.sanitize, bs, DecodeBlocks(CanonBlocks(e.sanitize, bs)))
    decreases bs
  {
    if bs != [] {
      BlockKept(e, bs[0]);
      BlocksKept(e, bs[1..]);
      var c := CanonBlocks(e.sanitize, bs);
      assert c[1..] == CanonBlocks(e.sanitize, bs[1..]);
      assert DecodeBlocks(c)[1..] == DecodeBlocks(c[1..]);
      assert forall i :: 1 <= i < |bs| ==> bs[i] == bs[1..][i - 1];
    }
  }

  ghost predicate Kept(e: Env, b: Block) {
    SameBlock(e.sanitize, b, DecodeBlock(CanonBlock(e.sanitize, b)))
  }

  lemma TextBlockKept(e: Env, b: Block)
    requires InnerTally(e, b).ok && (b.Paragraph? || b.Heading?)
    ensures Kept(e, b)
  {
    InlinesKept(e.sanitize, b.children);
  }

  lemma SameTable(z: Sanitizer, cs: seq<Cell>, rows: seq<seq<Cell>>, ds: seq<Cell>, es: seq<seq<Cell>>)
    requires SameCells(z, cs, ds) && SameRows(z, rows, es)
    ensures SameBlock(z, Table(cs, rows), Table(ds, es))
  {
  }

  lemma TableKept(e: Env, b: Block)
    requires InnerTally(e, b).ok && b.Table?
    ensures Kept(e, b)
  {
    var z := e.sanitize;
    CellsKept(z, b.headers);
    RowsKept(z, b.rows);
    SameTable(z, b.headers, b.rows, DecodeCells(CanonCells(z, b.headers)), DecodeRows(CanonRows(z, b.rows)));
  }

  lemma GalleryKept(e: Env, b: Block)
    requires InnerTally(e, b).ok && b.Gallery?
    ensures Kept(e, b)
  {
    FilesKept(b.attachments.fileIds);
  }

  lemma {:induction false} QuoteKept(e: Env, b: Block)
    requires InnerTally(e, b).ok && b.Quote?
    ensures Kept(e, b)
    decreases b, 0
  {
    BlocksKept(e, b.blocks);
  }

  lemma {:induction false} ListKept(e: Env, b: Block)
    requires InnerTally(e, b).ok && b.List?
    ensures Kept(e, b)
    decreases b, 0
  {
    ItemsKept(e, b.items.items);
  }

  lemma SameCollapsible(z: Sanitizer, ns: seq<Inline>, bs: seq<Block>, ms: seq<Inline>, ds: seq<Block>)
    requires SameInlines(z, ns, ms) && SameBlocks(z, bs, ds)
    ensures SameBlock(z, Collapsible(ns, bs), Collapsible(ms, ds))
  {
  }

  lemma PartsOfCollapsible(e: Env, title: seq<Inline>, blocks: seq<Block>)
    requires InnerTally(e, Collapsible(title, blocks)).ok
    ensures InlinesRun(e.sanitize, title).ok && BlocksTally(e, blocks).ok
  {
    assert InnerTally(e, Collapsible(title, blocks)).ok
        == (OfRun(InlinesRun(e.sanitize, title), 0, []).ok && BlocksTally(e, blocks).ok);
  }

  lemma CollapsibleBack(z: Sanitizer, title: seq<Inline>, blocks: seq<Block>)
    ensures DecodeBlock(CanonBlock(z, Collapsible(title, blocks))) ==
              Collapsible(DecodeInlines(CanonInlines(z, title)), DecodeBlocks(CanonBlocks(z, blocks)))
  {
  }

  lemma {:induction false} CollapsibleKept(e: Env, b: Block)
    requires InnerTally(e, b).ok && b.Collapsible?
    ensures Kept(e, b)
    decreases b, 0
  {
    var z := e.sanitize;
    assert b == Collapsible(b.title, b.blocks);
    PartsOfCollapsible(e, b.title, b.blocks);
    CollapsibleBack(z, b.title, b.blocks);
    InlinesKept(z, b.title);
    BlocksKept(e, b.blocks);
    SameCollapsible(z, b.title, b.blocks, DecodeInlines(CanonInlines(z, b.title)),
                    DecodeBlocks(CanonBlocks(z, b.blocks)));
  }

  lemma {:induction false} BlockKept(e: Env, b: Block)
    requires InnerTally(e, b).ok
    ensures Kept(e, b)
    decreases b, 1
  {
    if b.Paragraph? || b.Heading? {
      TextBlockKept(e, b);
    } else if b.Quote? {
      QuoteKept(e, b);
    } else if b.List? {
      ListKept(e, b);
    } else if b.Collapsible? {
      CollapsibleKept(e, b);
    } else if b.Table? {
      TableKept(e, b);
    } else if b.Gallery? {
      GalleryKept(e, b);
    }
  }

  // ------------------------------------------------------- decoding loses nothing

  lemma {:induction false} MarksHeld(cs: seq<CMark>)
    ensures HoldsMarks(cs, DecodeMarks(cs))
    decreases cs
  {
    if cs != [] {
      MarksHeld(cs[1..]);
      assert DecodeMarks(cs)[1..] == DecodeMarks(cs[1..]);
      assert forall i :: 1 <= i < |cs| ==> cs[i] == cs[1..][i - 1];
    }
  }

  lemma {:induction false} InlinesHeld(cs: seq<CInline>)
    ensures HoldsInlines(cs, DecodeInlines(cs))
    decreases cs
  {
    if cs != [] {
      MarksHeld(cs[0].marks);
      InlinesHeld(cs[1..]);
      assert DecodeInlines(cs)[1..] == DecodeInlines(cs[1..]);
      assert forall i :: 1 <= i < |cs| ==> cs[i] == cs[1..][i - 1];
    }
  }

  lemma {:induction false} CellsHeld(cs: seq<CCell>)
    ensures HoldsCells(cs, DecodeCells(cs))
    decreases cs
  {
    if cs != [] {
      InlinesHeld(cs[0].children);
      CellsHeld(cs[1..]);
      assert DecodeCells(cs)[1..] == DecodeCells(cs[1..]);
      assert forall i :: 1 <= i < |cs| ==> cs[i] == cs[1..][i - 1];
    }
  }

  lemma {:induction false} RowsHeld(rows: seq<seq<CCell>>)
    ensures HoldsRows(rows, DecodeRows(rows))
    decreases rows
  {
    if rows != [] {
      CellsHeld(rows[0]);
      RowsHeld(rows[1..]);
      assert DecodeRows(rows)[1..] == DecodeRows(rows[1..]);
      assert forall i :: 1 <= i < |rows| ==> rows[i] == rows[1..][i - 1];
    }
  }

  lemma {:induction false} ItemsHeld(cs: seq<CItem>)
    ensures HoldsItems(cs, DecodeItems(cs))
    decreases cs
  {
    if cs != [] {
      BlocksHeld(cs[0].blocks);
      ItemsHeld(cs[1..]);
      assert DecodeItems(cs)[1..] == DecodeItems(cs[1..]);
      assert forall i :: 1 <= i < |cs| ==> cs[i] == cs[1..][i - 1];
    }
  }

  /** The decoder reads back what the canonical tree carries. */
  lemma {:induction false} BlocksHeld(cs: seq<CBlock>)
    ensures HoldsBlocks(cs, DecodeBlocks(cs))
    decreases cs
  {
    if cs != [] {
      BlockHeld(cs[0]);
      BlocksHeld(cs[1..]);
      assert DecodeBlocks(cs)[1..] == DecodeBlocks(cs[1..]);
      assert forall i :: 1 <= i < |cs| ==> cs[i] == cs[1..][i - 1];
    }
  }

  lemma {:induction false} BlockHeld(c: CBlock)
    ensures HoldsBlock(c, DecodeBlock(c))
    decreases c
  {
    match c
    case CParagraph(children) => InlinesHeld(children);
    case CHeading(_, children) => InlinesHeld(children);
    case CQuote(blocks) => BlocksHeld(blocks);
    case CList(ItemsPresent(items)) => ItemsHeld(items);
    case CTable(headers, rows) =>
      CellsHeld(headers);
      RowsHeld(rows);
    case CCollapsible(title, blocks) =>
      InlinesHeld(title);
      BlocksHeld(blocks);
    case _ =>
  }

  // ------------------------------------------------------------------ main result

  /** An accepted body keeps its content: the canonical tree carries, under the same
      schema version, the very blocks that decoding it yields, and those are the
      blocks of the input, one by one and field by field. */
  lemma AcceptedBodyIsFaithful(e: Env, input: Input)
    requires e.policy.Positive() && Parse(e, input).Accepted?
    ensures var canonical := Parse(e, input).body.canonical;
            var back := DecodeBody(canonical);
            && canonical.schemaVersion == input.schemaVersion == back.schemaVersion
            && back.body.Blocks?
            && HoldsBlocks(canonical.blocks, back.body.blocks)
            && SameBlocks(e.sanitize, TopBlocks(input), back.body.blocks)
  {
    ParseRefinesTally(e, input);
    BlocksKept(e, TopBlocks(input));
    BlocksHeld(CanonBlocks(e.sanitize, TopBlocks(input)));
  }
}
