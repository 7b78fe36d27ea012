/** The reference meaning of a body: one recursive tally per subtree, with no
    counters threaded through, no limits, no early stop and no order of checks. */
module BodyTally {
  import opened Body
  import opened BodyCanonical

  /** What a run of marks, inline nodes or table cells amounts to. */
  datatype Run = Run(ok: bool, inlines: nat, links: seq<string>)
  {
    function Plus(u: Run): Run {
      Run(ok && u.ok, inlines + u.inlines, links + u.links)
    }
  }

  const NoRun := Run(true, 0, [])

  const BadRun := Run(false, 0, [])

  function MarkRun(sanitize: Sanitizer, m: Mark): Run {
    if IsPlainMark(m.kind) then NoRun
    else if m.kind == LinkKind then
      match sanitize(m.href) case Some(u) => Run(true, 0, [u]) case None => BadRun
    else BadRun
  }

  function MarksRun(sanitize: Sanitizer, ms: seq<Mark>): Run {
    if ms == [] then NoRun else MarkRun(sanitize, ms[0]).Plus(MarksRun(sanitize, ms[1..]))
  }

  function InlineRun(sanitize: Sanitizer, n: Inline): Run {
    if n.kind != TextKind then Run(false, 1, [])
    else
      var marks := MarksRun(sanitize, n.marks);
      Run(marks.ok, 1 + marks.inlines, marks.links)
  }

  function InlinesRun(sanitize: Sanitizer, ns: seq<Inline>): Run {
    if ns == [] then NoRun else InlineRun(sanitize, ns[0]).Plus(InlinesRun(sanitize, ns[1..]))
  }

  function TextOf(ns: seq<Inline>): string {
    if ns == [] then "" else (if ns[0].kind == TextKind then ns[0].text else "") + TextOf(ns[1..])
  }

  function CellsRun(sanitize: Sanitizer, cs: seq<Cell>): Run {
    if cs == [] then NoRun
    else InlinesRun(sanitize, cs[0].children).Plus(CellsRun(sanitize, cs[1..]))
  }

  function RowsRun(sanitize: Sanitizer, rows: seq<seq<Cell>>): Run {
    if rows == [] then NoRun else CellsRun(sanitize, rows[0]).Plus(RowsRun(sanitize, rows[1..]))
  }

  function RowsCells(rows: seq<seq<Cell>>): nat {
    if rows == [] then 0 else |rows[0]| + RowsCells(rows[1..])
  }

  function CellCount(headers: seq<Cell>, rows: seq<seq<Cell>>): nat {
    |headers| + RowsCells(rows)
  }

  /** What a subtree amounts to. `ok` says that every node in it is locally valid;
      `depth` is how deep containers nest inside it. */
  datatype Tally = Tally(
    ok: bool,
    blocks: nat,
    inlines: nat,
    cells: nat,
    depth: nat,
    texts: seq<string>,
    media: seq<string>,
    links: seq<string>)
  {
    function Plus(t: Tally): Tally {
      Tally(ok && t.ok, blocks + t.blocks, inlines + t.inlines, cells + t.cells,
            if depth < t.depth then t.depth else depth,
            texts + t.texts, media + t.media, links + t.links)
    }

    function OneBlock(): Tally { this.(blocks := blocks + 1) }

    function Nested(): Tally { this.(depth := depth + 1) }
  }

  const Nothing := Tally(true, 0, 0, 0, 0, [], [], [])

  const Invalid := Nothing.(ok := false)

  /** A run of inline nodes as (part of) a block: `texts` is what it adds to the
      search text, which titles of collapsibles and table cells do not. */
  function OfRun(u: Run, cells: nat, texts: seq<string>): Tally {
    Tally(u.ok, 0, u.inlines, cells, 0, texts, [], u.links)
  }

  function TextBlockTally(sanitize: Sanitizer, ns: seq<Inline>): Tally {
    OfRun(InlinesRun(sanitize, ns), 0, OneText(TextOf(ns)))
  }

  function TableTally(sanitize: Sanitizer, headers: seq<Cell>, rows: seq<seq<Cell>>): Tally {
    OfRun(CellsRun(sanitize, headers).Plus(RowsRun(sanitize, rows)), CellCount(headers, rows), [])
  }

  function FileTally(fileId: string): Tally {
    if TrimSpace(fileId) == "" then Invalid else Nothing.(media := [TrimSpace(fileId)])
  }

  function FilesTally(ids: seq<string>): Tally {
    if ids == [] then Nothing else FileTally(ids[0]).Plus(FilesTally(ids[1..]))
  }

  function EmbedTally(sanitize: Sanitizer, provider: string, url: string): Tally {
    match sanitize(url)
    case Some(u) => Nothing.(ok := provider == ImageProvider, links := [u])
    case None => Invalid
  }

  function LimitedText(text: string, limit: int): Tally {
    Nothing.(ok := |text| <= limit, texts := OneText(text))
  }

  function ItemsTally(e: Env, items: seq<ListItem>): Tally
    decreases items
  {
    if items == [] then Nothing else BlocksTally(e, items[0].blocks).Plus(ItemsTally(e, items[1..]))
  }

  function BlocksTally(e: Env, bs: seq<Block>): Tally
    decreases bs
  {
    if bs == [] then Nothing else BlockTally(e, bs[0]).Plus(BlocksTally(e, bs[1..]))
  }

  function BlockTally(e: Env, b: Block): Tally
    decreases b, 1
  {
    InnerTally(e, b).OneBlock()
  }

  function InnerTally(e: Env, b: Block): Tally
    decreases b, 0
  {
    match b
    case NilBlock => Invalid
    case Unsupported(_) => Invalid
    case Foreign => Invalid
    case Paragraph(children) => TextBlockTally(e.sanitize, children)
    case Heading(_, children) => TextBlockTally(e.sanitize, children)
    case Quote(blocks) => BlocksTally(e, blocks).Nested()
    case List(NilItems) => Invalid.Nested()
    case List(Items(items)) => ItemsTally(e, items).Nested()
    case Code(code, _) => LimitedText(code, e.policy.maxCode)
    case Table(headers, rows) => TableTally(e.sanitize, headers, rows)
    case Collapsible(title, blocks) => OfRun(InlinesRun(e.sanitize, title), 0, []).Plus(BlocksTally(e, blocks)).Nested()
    case Math(latex) => LimitedText(latex, e.policy.maxLatex)
    case Image(fileId, _) => FileTally(fileId)
    case Embed(provider, url, _) => EmbedTally(e.sanitize, provider, url)
    case Gallery(NilAttachments) => Invalid
    case Gallery(Attachments(ids)) => FilesTally(ids)
  }
}
