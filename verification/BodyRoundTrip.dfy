/** Storing and re-reading a body. Publishing decodes the stored canonical tree,
    parses it again and demands the same hash, so canonicalising must be a fixpoint
    of decode-and-parse. It is one exactly for the bodies without an empty list or
    an empty attachment gallery. */
module BodyRoundTrip {
  import opened Body
  import opened BodyCanonical
  import opened BodyTally
  import opened BodyWalk
  import opened BodyRefine

  /** Sanitising an already sanitised URL changes nothing. */
  ghost predicate Idempotent(sanitize: Sanitizer) {
    forall raw: string :: Stable(sanitize, raw)
  }

  ghost predicate Stable(sanitize: Sanitizer, raw: string) {
    sanitize(raw).Some? ==> sanitize(sanitize(raw).value) == sanitize(raw)
  }

  /** No list and no gallery at any depth is empty. */
  predicate NoEmptyLists(b: Block)
    decreases b
  {
    match b
    case Quote(blocks) => NoEmptyListsIn(blocks)
    case Collapsible(_, blocks) => NoEmptyListsIn(blocks)
    case List(Items(items)) => items != [] && NoEmptyListsInItems(items)
    case Gallery(Attachments(ids)) => ids != []
    case _ => true
  }

  predicate NoEmptyListsIn(bs: seq<Block>)
    decreases bs
  {
    bs == [] || (NoEmptyLists(bs[0]) && NoEmptyListsIn(bs[1..]))
  }

  predicate NoEmptyListsInItems(items: seq<ListItem>)
    decreases items
  {
    items == [] || (NoEmptyListsIn(items[0].blocks) && NoEmptyListsInItems(items[1..]))
  }

  // ------------------------------------------- decode after canonicalise, by parts

  lemma MarkRoundTrip(z: Sanitizer, m: Mark)
    requires Idempotent(z) && MarkRun(z, m).ok
    ensures var c := CanonMark(z, m);
            MarkRun(z, Mark(c.kind, c.href)) == MarkRun(z, m) && CanonMark(z, Mark(c.kind, c.href)) == c
  {
    assert Stable(z, m.href);
  }

  lemma {:induction false} MarksRoundTrip(z: Sanitizer, ms: seq<Mark>)
    requires Idempotent(z) && MarksRun(z, ms).ok
    ensures MarksRun(z, DecodeMarks(CanonMarks(z, ms))) == MarksRun(z, ms)
    ensures CanonMarks(z, DecodeMarks(CanonMarks(z, ms))) == CanonMarks(z, ms)
    decreases ms
  {
    if ms != [] {
      MarkRoundTrip(z, ms[0]);
      MarksRoundTrip(z, ms[1..]);
      var c := CanonMarks(z, ms);
      assert c[1..] == CanonMarks(z, ms[1..]);
      var d := DecodeMarks(c);
      assert d[0] == Mark(c[0].kind, c[0].href) && d[1..] == DecodeMarks(c[1..]);
      assert CanonMarks(z, d) == [CanonMark(z, d[0])] + CanonMarks(z, d[1..]);
    }
  }

  lemma {:induction false} InlinesRoundTrip(z: Sanitizer, ns: seq<Inline>)
    requires Idempotent(z) && InlinesRun(z, ns).ok
    ensures InlinesRun(z, DecodeInlines(CanonInlines(z, ns))) == InlinesRun(z, ns)
    ensures TextOf(DecodeInlines(CanonInlines(z, ns))) == TextOf(ns)
    ensures CanonInlines(z, DecodeInlines(CanonInlines(z, ns))) == CanonInlines(z, ns)
    decreases ns
  {
    if ns != [] {
      MarksRoundTrip(z, ns[0].marks);
      InlinesRoundTrip(z, ns[1..]);
      var c := CanonInlines(z, ns);
      assert c[1..] == CanonInlines(z, ns[1..]);
      var d := DecodeInlines(c);
      assert d[0] == Inline(TextKind, ns[0].text, DecodeMarks(c[0].marks)) && d[1..] == DecodeInlines(c[1..]);
      assert InlineRun(z, d[0]) == InlineRun(z, ns[0]);
    }
  }

  lemma CellsCons(z: Sanitizer, c: Cell, cs: seq<Cell>)
    ensures CellsRun(z, [c] + cs) == InlinesRun(z, c.children).Plus(CellsRun(z, cs))
    ensures CanonCells(z, [c] + cs) == [CCell(CanonInlines(z, c.children))] + CanonCells(z, cs)
  {
    assert ([c] + cs)[1..] == cs;
  }

  lemma DecodeCellsCons(c: CCell, cs: seq<CCell>)
    ensures DecodeCells([c] + cs) == [Cell(DecodeInlines(c.children))] + DecodeCells(cs)
  {
    assert ([c] + cs)[1..] == cs;
  }

  /** What comes back of a row of cells, first cell and rest apart. */
  lemma CellsBack(z: Sanitizer, cs: seq<Cell>)
    requires cs != []
    ensures DecodeCells(CanonCells(z, cs)) ==
              [Cell(DecodeInlines(CanonInlines(z, cs[0].children)))] + DecodeCells(CanonCells(z, cs[1..]))
  {
    DecodeCellsCons(CCell(CanonInlines(z, cs[0].children)), CanonCells(z, cs[1..]));
  }

  lemma {:induction false} CellsRoundTrip(z: Sanitizer, cs: seq<Cell>)
    requires Idempotent(z) && CellsRun(z, cs).ok
    ensures CellsRun(z, DecodeCells(CanonCells(z, cs))) == CellsRun(z, cs)
    ensures |DecodeCells(CanonCells(z, cs))| == |cs|
    ensures CanonCells(z, DecodeCells(CanonCells(z, cs))) == CanonCells(z, cs)
    decreases cs
  {
    if cs != [] {
      CellsBack(z, cs);
      CellsCons(z, Cell(DecodeInlines(CanonInlines(z, cs[0].children))), DecodeCells(CanonCells(z, cs[1..])));
      CellsRoundTrip(z, cs[1..]);
      InlinesRoundTrip(z, cs[0].children);
    }
  }

  lemma RowsCons(z: Sanitizer, row: seq<Cell>, rows: seq<seq<Cell>>)
    ensures RowsRun(z, [row] + rows) == CellsRun(z, row).Plus(RowsRun(z, rows))
    ensures RowsCells([row] + rows) == |row| + RowsCells(rows)
    ensures CanonRows(z, [row] + rows) == [CanonCells(z, row)] + CanonRows(z, rows)
  {
    assert ([row] + rows)[1..] == rows;
  }

  lemma DecodeRowsCons(row: seq<CCell>, rows: seq<seq<CCell>>)
    ensures DecodeRows([row] + rows) == [DecodeCells(row)] + DecodeRows(rows)
  {
    assert ([row] + rows)[1..] == rows;
  }

  lemma {:induction false} RowsRoundTrip(z: Sanitizer, rows: seq<seq<Cell>>)
    requires Idempotent(z) && RowsRun(z, rows).ok
    ensures RowsRun(z, DecodeRows(CanonRows(z, rows))) == RowsRun(z, rows)
    ensures RowsCells(DecodeRows(CanonRows(z, rows))) == RowsCells(rows)
    ensures CanonRows(z, DecodeRows(CanonRows(z, rows))) == CanonRows(z, rows)
    decreases rows
  {
    if rows != [] {
      CellsRoundTrip(z, rows[0]);
      RowsRoundTrip(z, rows[1..]);
      var head, tail := CanonCells(z, rows[0]), CanonRows(z, rows[1..]);
      DecodeRowsCons(head, tail);
      RowsCons(z, DecodeCells(head), DecodeRows(tail));
    }
  }

  lemma {:induction false} FilesRoundTrip(ids: seq<string>)
    requires FilesTally(ids).ok
    ensures FilesTally(CanonFiles(ids)) == FilesTally(ids)
    ensures CanonFiles(CanonFiles(ids)) == CanonFiles(ids)
    ensures |CanonFiles(ids)| == |ids|
    decreases ids
  {
    if ids != [] {
      TrimSpaceIdempotent(ids[0]);
      FilesRoundTrip(ids[1..]);
      var c := CanonFiles(ids);
      assert c[0] == TrimSpace(ids[0]) && c[1..] == CanonFiles(ids[1..]);
    }
  }

  ghost predicate ComesBack(e: Env, b: Block) {
    var d := DecodeBlock(CanonBlock(e.sanitize, b));
    && InnerTally(e, d) == InnerTally(e, b).(ok := NoEmptyLists(b))
    && CanonBlock(e.sanitize, d) == CanonBlock(e.sanitize, b)
  }

  lemma TextBlockRoundTrip(e: Env, b: Block)
    requires Idempotent(e.sanitize) && InnerTally(e, b).ok && (b.Paragraph? || b.Heading?)
    ensures ComesBack(e, b)
  {
    InlinesRoundTrip(e.sanitize, b.children);
  }

  lemma TableRoundTrip(e: Env, b: Block)
    requires Idempotent(e.sanitize) && InnerTally(e, b).ok && b.Table?
    ensures ComesBack(e, b)
  {
    var z := e.sanitize;
    var headers, rows := CanonCells(z, b.headers), CanonRows(z, b.rows);
    var headers', rows' := DecodeCells(headers), DecodeRows(rows);
    assert DecodeBlock(CanonBlock(z, b)) == Table(headers', rows');
    assert CellsRun(z, headers') == CellsRun(z, b.headers) && |headers'| == |b.headers|
           && CanonCells(z, headers') == headers by {
      CellsRoundTrip(z, b.headers);
    }
    assert RowsRun(z, rows') == RowsRun(z, b.rows) && RowsCells(rows') == RowsCells(b.rows)
           && CanonRows(z, rows') == rows by {
      RowsRoundTrip(z, b.rows);
    }
  }

  lemma EmbedRoundTrip(e: Env, b: Block)
    requires Idempotent(e.sanitize) && InnerTally(e, b).ok && b.Embed?
    ensures ComesBack(e, b)
  {
    assert Stable(e.sanitize, b.url);
  }

  lemma FileRoundTrip(e: Env, b: Block)
    requires InnerTally(e, b).ok && (b.Image? || b.Gallery?)
    ensures ComesBack(e, b)
  {
    if b.Image? {
      TrimSpaceIdempotent(b.fileId);
    } else {
      FilesRoundTrip(b.attachments.fileIds);
    }
  }

  lemma {:induction false} QuoteRoundTrip(e: Env, b: Block)
    requires Idempotent(e.sanitize) && InnerTally(e, b).ok && b.Quote?
    ensures ComesBack(e, b)
    decreases b, 0
  {
    BlocksRoundTrip(e, b.blocks);
  }

  lemma {:induction false} ListRoundTrip(e: Env, b: Block)
    requires Idempotent(e.sanitize) && InnerTally(e, b).ok && b.List?
    ensures ComesBack(e, b)
    decreases b, 0
  {
    ItemsRoundTrip(e, b.items.items);
  }

  lemma {:induction false} CollapsibleRoundTrip(e: Env, b: Block)
    requires Idempotent(e.sanitize) && InnerTally(e, b).ok && b.Collapsible?
    ensures ComesBack(e, b)
    decreases b, 0
  {
    InlinesRoundTrip(e.sanitize, b.title);
    BlocksRoundTrip(e, b.blocks);
  }

  /** One locally valid subtree: everything but the validity of its lists and
      galleries comes back as it was. */
  lemma {:induction false} BlockRoundTrip(e: Env, b: Block)
    requires Idempotent(e.sanitize) && InnerTally(e, b).ok
    ensures ComesBack(e, b)
    decreases b, 1
  {
    if b.Paragraph? || b.Heading? {
      TextBlockRoundTrip(e, b);
    } else if b.Quote? {
      QuoteRoundTrip(e, b);
    } else if b.List? {
      ListRoundTrip(e, b);
    } else if b.Collapsible? {
      CollapsibleRoundTrip(e, b);
    } else if b.Table? {
      TableRoundTrip(e, b);
    } else if b.Embed? {
      EmbedRoundTrip(e, b);
    } else if b.Image? || b.Gallery? {
      FileRoundTrip(e, b);
    }
  }

  lemma BlocksCons(e: Env, b: Block, bs: seq<Block>)
    ensures BlocksTally(e, [b] + bs) == BlockTally(e, b).Plus(BlocksTally(e, bs))
    ensures CanonBlocks(e.sanitize, [b] + bs) == [CanonBlock(e.sanitize, b)] + CanonBlocks(e.sanitize, bs)
  {
    assert ([b] + bs)[1..] == bs;
  }

  lemma DecodeBlocksCons(c: CBlock, cs: seq<CBlock>)
    ensures DecodeBlocks([c] + cs) == [DecodeBlock(c)] + DecodeBlocks(cs)
  {
    assert ([c] + cs)[1..] == cs;
  }

  lemma {:induction false} BlocksRoundTrip(e: Env, bs: seq<Block>)
    requires Idempotent(e.sanitize) && BlocksTally(e, bs).ok
    ensures var ds := DecodeBlocks(CanonBlocks(e.sanitize, bs));
            && BlocksTally(e, ds) == BlocksTally(e, bs).(ok := NoEmptyListsIn(bs))
            && CanonBlocks(e.sanitize, ds) == CanonBlocks(e.sanitize, bs)
    decreases bs
  {
    if bs != [] {
      var c, cs := CanonBlock(e.sanitize, bs[0]), CanonBlocks(e.sanitize, bs[1..]);
      DecodeBlocksCons(c, cs);
      BlocksCons(e, DecodeBlock(c), DecodeBlocks(cs));
      BlockRoundTrip(e, bs[0]);
      BlocksRoundTrip(e, bs[1..]);
    }
  }

  lemma {:induction false} ItemsRoundTrip(e: Env, items: seq<ListItem>)
    requires Idempotent(e.sanitize) && ItemsTally(e, items).ok
    ensures var ds := DecodeItems(CanonItems(e.sanitize, items));
            && ItemsTally(e, ds) == ItemsTally(e, items).(ok := NoEmptyListsInItems(items))
            && CanonItems(e.sanitize, ds) == CanonItems(e.sanitize, items)
            && |CanonItems(e.sanitize, items)| == |items|
    decreases items
  {
    if items != [] {
      BlocksRoundTrip(e, items[0].blocks);
      ItemsRoundTrip(e, items[1..]);
      var c := CanonItems(e.sanitize, items);
      assert c[0] == CItem(CanonBlocks(e.sanitize, items[0].blocks)) && c[1..] == CanonItems(e.sanitize, items[1..]);
      var d := DecodeItems(c);
      assert d[0] == ListItem(DecodeBlocks(c[0].blocks)) && d[1..] == DecodeItems(c[1..]);
    }
  }

  // ----------------------------------------------------------- the re-parse itself

  /** An accepted body survives decode-and-parse unchanged exactly when it has no
      empty list or gallery; otherwise the re-parse rejects it. */
  lemma ReparseFixpoint(e: Env, input: Input)
    requires e.policy.Positive() && Idempotent(e.sanitize)
    requires Parse(e, input).Accepted?
    ensures var again := Parse(e, DecodeBody(Parse(e, input).body.canonical));
            && (NoEmptyListsIn(TopBlocks(input)) ==> again == Parse(e, input))
            && (!NoEmptyListsIn(TopBlocks(input)) ==> again.Rejected?)
  {
    ParseRefinesTally(e, input);
    var bs := TopBlocks(input);
    BlocksRoundTrip(e, bs);
    var back := DecodeBody(CanonBody(e.sanitize, input));
    assert TopBlocks(back) == DecodeBlocks(CanonBlocks(e.sanitize, bs));
    assert CanonBody(e.sanitize, back) == CanonBody(e.sanitize, input);
    ParseRefinesTally(e, back);
  }

  // --------------------------------------------------------- the body store around it

  datatype Document = Document(schemaVersion: int, blocks: seq<CBlock>, canonical: CBody, contentHash: string)

  datatype StoredBody = StoredBody(schemaVersion: int, body: BlockList, canonical: CBody, contentHash: string)

  datatype Stored<T> = Ok(value: T) | BodyInconsistent | BodySchemaUnsupported

  function WriteBody(e: Env, schemaVersion: int, canonical: CBody, contentHash: string): Stored<Document> {
    if contentHash != "" && contentHash != e.hash(canonical) then BodyInconsistent
    else Ok(Document(schemaVersion, canonical.blocks, canonical,
                     if contentHash == "" then e.hash(canonical) else contentHash))
  }

  function ReadBody(e: Env, doc: Document): Stored<StoredBody> {
    if doc.contentHash != e.hash(doc.canonical) then BodyInconsistent
    else Ok(StoredBody(doc.schemaVersion, Blocks(DecodeBlocks(doc.blocks)), doc.canonical, doc.contentHash))
  }

  function ValidateStoredBody(e: Env, stored: StoredBody): Stored<NormalizedBody> {
    if stored.schemaVersion != 1 then BodySchemaUnsupported
    else
      match Parse(e, Input(stored.schemaVersion, stored.body))
      case Rejected(_, _) => BodySchemaUnsupported
      case Accepted(n) => if n.hash != stored.contentHash then BodyInconsistent else Ok(n)
  }

  /** A draft that SaveDraftBody accepted and stored: reading it back for publishing
      gives the very body that was saved when no list or gallery in it is empty, and
      fails as an unsupported schema otherwise. Writing that body again as the
      published snapshot stores the same document. */
  lemma SavedDraftIsPublishable(e: Env, input: Input)
    requires e.policy.Positive() && Idempotent(e.sanitize)
    requires Parse(e, input).Accepted?
    ensures var n := Parse(e, input).body;
            var written := WriteBody(e, input.schemaVersion, n.canonical, n.hash);
            && written.Ok?
            && ReadBody(e, written.value).Ok?
            && var checked := ValidateStoredBody(e, ReadBody(e, written.value).value);
               if NoEmptyListsIn(TopBlocks(input)) then
                 && checked == Ok(n)
                 && WriteBody(e, 1, checked.value.canonical, checked.value.hash) == written
               else checked == BodySchemaUnsupported
  {
    ReparseFixpoint(e, input);
    ParseRefinesTally(e, input);
  }

  /** The draft with one empty list is accepted and can never be published. */
  lemma EmptyListDraftIsStuck(e: Env)
    requires e.policy.Positive() && Idempotent(e.sanitize)
    requires e.size(CBody(1, [CList(ItemsAbsent)])) <= e.policy.maxCanonicalBytes
    ensures var input := Input(1, Blocks([List(Items([]))]));
            && Parse(e, input).Accepted?
            && var n := Parse(e, input).body;
               ValidateStoredBody(e, ReadBody(e, WriteBody(e, 1, n.canonical, n.hash).value).value)
                 == BodySchemaUnsupported
  {
    var input := Input(1, Blocks([List(Items([]))]));
    var bs := TopBlocks(input);
    assert bs[1..] == [];
    assert BlocksTally(e, bs[1..]) == Nothing;
    assert ItemsTally(e, []) == Nothing;
    assert BlockTally(e, bs[0]) == Nothing.Nested().OneBlock();
    assert BlocksTally(e, bs) == Nothing.Nested().OneBlock().Plus(Nothing);
    assert Nothing.Nested().OneBlock().Plus(Nothing) == Nothing.Nested().OneBlock();
    assert Join(BlocksTally(e, bs).texts) == "";
    assert CanonBody(e.sanitize, input) == CBody(1, [CList(ItemsAbsent)]);
    assert CanonBlocks(e.sanitize, bs) == [CanonBlock(e.sanitize, bs[0])] + CanonBlocks(e.sanitize, bs[1..]);
    ParseRefinesTally(e, input);
    SavedDraftIsPublishable(e, input);
  }
}
