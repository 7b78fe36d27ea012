/** The canonical tree that is printed, hashed and stored, and the decoder that
    reads it back. The printer leaves out the empty `items` array of a list or a
    gallery (`omitempty`), so the tree records those two fields as absent. For
    every other array the decoder's nil and empty results behave alike. */
module BodyCanonical {
  import opened Body

  datatype CMark = CMark(kind: string, href: string)

  datatype CInline = CInline(kind: string, text: string, marks: seq<CMark>)

  datatype CCell = CCell(children: seq<CInline>)

  datatype CItem = CItem(blocks: seq<CBlock>)

  datatype CItems = ItemsAbsent | ItemsPresent(items: seq<CItem>)

  datatype CFiles = FilesAbsent | FilesPresent(fileIds: seq<string>)

  datatype CBlock =
    | CUntyped
    | CParagraph(children: seq<CInline>)
    | CHeading(level: int, children: seq<CInline>)
    | CQuote(blocks: seq<CBlock>)
    | CList(items: CItems)
    | CCode(code: string, language: string)
    | CTable(headers: seq<CCell>, rows: seq<seq<CCell>>)
    | CCollapsible(title: seq<CInline>, blocks: seq<CBlock>)
    | CMath(latex: string)
    | CImage(fileId: string, alt: string)
    | CEmbed(provider: string, url: string, caption: string)
    | CGallery(files: CFiles)

  datatype CBody = CBody(schemaVersion: int, blocks: seq<CBlock>)

  type Sanitizer = string -> Option<string>

  /** What the parser takes from outside: its limits, URL sanitising, and the
      length and hash of the printed canonical tree. */
  datatype Env = Env(policy: Policy, sanitize: Sanitizer, size: CBody -> nat, hash: CBody -> string)

  // -------------------------------------------------------------- canonicalize

  function SafeUrl(sanitize: Sanitizer, raw: string): string {
    match sanitize(raw) case Some(u) => u case None => ""
  }

  function CanonMark(sanitize: Sanitizer, m: Mark): CMark {
    CMark(m.kind, if m.kind == LinkKind then SafeUrl(sanitize, m.href) else "")
  }

  function CanonMarks(sanitize: Sanitizer, ms: seq<Mark>): seq<CMark> {
    if ms == [] then [] else [CanonMark(sanitize, ms[0])] + CanonMarks(sanitize, ms[1..])
  }

  function CanonInlines(sanitize: Sanitizer, ns: seq<Inline>): seq<CInline> {
    if ns == [] then []
    else [CInline(TextKind, ns[0].text, CanonMarks(sanitize, ns[0].marks))] + CanonInlines(sanitize, ns[1..])
  }

  function CanonCells(sanitize: Sanitizer, cs: seq<Cell>): seq<CCell> {
    if cs == [] then [] else [CCell(CanonInlines(sanitize, cs[0].children))] + CanonCells(sanitize, cs[1..])
  }

  function CanonRows(sanitize: Sanitizer, rows: seq<seq<Cell>>): seq<seq<CCell>> {
    if rows == [] then [] else [CanonCells(sanitize, rows[0])] + CanonRows(sanitize, rows[1..])
  }

  function CanonFiles(ids: seq<string>): seq<string> {
    if ids == [] then [] else [TrimSpace(ids[0])] + CanonFiles(ids[1..])
  }

  /** `omitempty` on the canonical items of a list. */
  function OmitEmptyItems(items: seq<CItem>): CItems {
    if items == [] then ItemsAbsent else ItemsPresent(items)
  }

  function OmitEmptyFiles(ids: seq<string>): CFiles {
    if ids == [] then FilesAbsent else FilesPresent(ids)
  }

  function CanonItems(sanitize: Sanitizer, items: seq<ListItem>): seq<CItem>
    decreases items
  {
    if items == [] then []
    else [CItem(CanonBlocks(sanitize, items[0].blocks))] + CanonItems(sanitize, items[1..])
  }

  function CanonBlocks(sanitize: Sanitizer, bs: seq<Block>): seq<CBlock>
    decreases bs
  {
    if bs == [] then [] else [CanonBlock(sanitize, bs[0])] + CanonBlocks(sanitize, bs[1..])
  }

  function CanonBlock(sanitize: Sanitizer, b: Block): CBlock
    decreases b
  {
    match b
    case NilBlock => CUntyped
    case Unsupported(_) => CUntyped
    case Foreign => CUntyped
    case Paragraph(children) => CParagraph(CanonInlines(sanitize, children))
    case Heading(level, children) => CHeading(level, CanonInlines(sanitize, children))
    case Quote(blocks) => CQuote(CanonBlocks(sanitize, blocks))
    case List(NilItems) => CList(ItemsAbsent)
    case List(Items(items)) => CList(OmitEmptyItems(CanonItems(sanitize, items)))
    case Code(code, language) => CCode(code, language)
    case Table(headers, rows) => CTable(CanonCells(sanitize, headers), CanonRows(sanitize, rows))
    case Collapsible(title, blocks) => CCollapsible(CanonInlines(sanitize, title), CanonBlocks(sanitize, blocks))
    case Math(latex) => CMath(latex)
    case Image(fileId, alt) => CImage(TrimSpace(fileId), alt)
    case Embed(provider, url, caption) => CEmbed(provider, SafeUrl(sanitize, url), caption)
    case Gallery(NilAttachments) => CGallery(FilesAbsent)
    case Gallery(Attachments(ids)) => CGallery(OmitEmptyFiles(CanonFiles(ids)))
  }

  function CanonBody(sanitize: Sanitizer, input: Input): CBody {
    CBody(input.schemaVersion, match input.body case NilBlocks => [] case Blocks(bs) => CanonBlocks(sanitize, bs))
  }

  // -------------------------------------------------------------------- decode

  function DecodeMarks(ms: seq<CMark>): seq<Mark> {
    if ms == [] then [] else [Mark(ms[0].kind, ms[0].href)] + DecodeMarks(ms[1..])
  }

  function DecodeInlines(ns: seq<CInline>): seq<Inline> {
    if ns == [] then [] else [Inline(ns[0].kind, ns[0].text, DecodeMarks(ns[0].marks))] + DecodeInlines(ns[1..])
  }

  function DecodeCells(cs: seq<CCell>): seq<Cell> {
    if cs == [] then [] else [Cell(DecodeInlines(cs[0].children))] + DecodeCells(cs[1..])
  }

  function DecodeRows(rows: seq<seq<CCell>>): seq<seq<Cell>> {
    if rows == [] then [] else [DecodeCells(rows[0])] + DecodeRows(rows[1..])
  }

  function DecodeItems(items: seq<CItem>): seq<ListItem>
    decreases items
  {
    if items == [] then [] else [ListItem(DecodeBlocks(items[0].blocks))] + DecodeItems(items[1..])
  }

  function DecodeBlocks(bs: seq<CBlock>): seq<Block>
    decreases bs
  {
    if bs == [] then [] else [DecodeBlock(bs[0])] + DecodeBlocks(bs[1..])
  }

  /** decodeBlock: dispatch on the "type" tag; an absent array decodes to nil. */
  function DecodeBlock(b: CBlock): Block
    decreases b
  {
    match b
    case CUntyped => Unsupported("")
    case CParagraph(children) => Paragraph(DecodeInlines(children))
    case CHeading(level, children) => Heading(level, DecodeInlines(children))
    case CQuote(blocks) => Quote(DecodeBlocks(blocks))
    case CList(ItemsAbsent) => List(NilItems)
    case CList(ItemsPresent(items)) => List(Items(DecodeItems(items)))
    case CCode(code, language) => Code(code, language)
    case CTable(headers, rows) => Table(DecodeCells(headers), DecodeRows(rows))
    case CCollapsible(title, blocks) => Collapsible(DecodeInlines(title), DecodeBlocks(blocks))
    case CMath(latex) => Math(latex)
    case CImage(fileId, alt) => Image(fileId, alt)
    case CEmbed(provider, url, caption) => Embed(provider, url, caption)
    case CGallery(FilesAbsent) => Gallery(NilAttachments)
    case CGallery(FilesPresent(ids)) => Gallery(Attachments(ids))
  }

  function DecodeBody(c: CBody): Input {
    Input(c.schemaVersion, Blocks(DecodeBlocks(c.blocks)))
  }
}
