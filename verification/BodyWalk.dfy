/** The validating walk as a function from state to state, with the paths of the
    tree kept as immutable lists. Every counter, early return and early stop of
    the parser is here; `BodyParser.ParserState` is proved to compute exactly
    these functions. Each list function walks the part of a list that is left,
    whose first element has index `k`. */
module BodyWalk {
  import opened Body
  import opened BodyCanonical
  import opened BodyTally

  datatype State = State(
    details: seq<Detail>,
    truncated: bool,
    stop: bool,
    blockCount: nat,
    inlineCount: nat,
    cellCount: nat,
    texts: seq<string>,
    media: seq<string>,
    links: seq<string>)
  {
    function Stopped(): State { this.(stop := true) }
  }

  const Start := State([], false, false, 0, 0, 0, [], [], [])

  const BlocksRoot: seq<PathPart> := [InField(BlocksField)]

  const SchemaRoot: seq<PathPart> := [InField(SchemaVersionField)]

  // -------------------------------------------- what every part of the walk keeps

  /** Errors are only ever appended, never past the budget `m`; a stop is final. */
  ghost predicate Grows(m: int, s: State, r: State) {
    && s.details <= r.details
    && (|r.details| <= |s.details| || |r.details| <= m)
    && (s.stop ==> r.stop)
    && (s.truncated ==> r.truncated)
  }

  /** The counters stay within one step of their limits, and leaving the limits or
      filling the error budget has stopped the walk and left an error behind. */
  ghost predicate Bounded(p: Policy, s: State) {
    && (s.blockCount <= p.maxBlocks || (s.stop && s.blockCount == p.maxBlocks + 1))
    && (s.inlineCount <= p.maxInlines || (s.stop && s.inlineCount == p.maxInlines + 1))
    && |s.links| <= p.maxLinks
    && |s.details| <= p.maxErrors
    && (s.stop ==> s.details != [])
    && (s.truncated <==> |s.details| == p.maxErrors)
    && (s.truncated ==> s.stop)
  }

  ghost predicate Keeps(p: Policy, s: State, r: State) {
    && Grows(p.maxErrors, s, r)
    && (p.Positive() && Bounded(p, s) ==> Bounded(p, r))
  }

  // ------------------------------------------------------------------- the walk

  function AddError(p: Policy, s: State, path: seq<PathPart>, code: ErrorCode): (r: State)
    ensures Keeps(p, s, r)
    ensures r == s.(details := r.details, truncated := r.truncated, stop := r.stop)
    ensures p.maxErrors > 0 ==> r.details != []
    ensures r.truncated <==> (s.truncated || |r.details| >= p.maxErrors)
    ensures r.stop <==> (s.stop || |r.details| >= p.maxErrors)
  {
    var m := p.maxErrors;
    if |s.details| >= m then s.(truncated := true, stop := true)
    else
      var added := s.(details := s.details + [Detail(PathText(path), code)]);
      if |added.details| >= m then added.(truncated := true, stop := true) else added
  }

  function AddLink(p: Policy, s: State, path: seq<PathPart>, link: string): (r: State)
    ensures Keeps(p, s, r)
  {
    if |s.links| >= p.maxLinks then AddError(p, s, path, BODY_EXTERNAL_LINK_COUNT_EXCEEDED).Stopped()
    else s.(links := s.links + [link])
  }

  function AddText(s: State, text: string): State {
    s.(texts := s.texts + OneText(text))
  }

  function WalkMark(e: Env, s: State, m: Mark, path: seq<PathPart>): (r: State)
    ensures Keeps(e.policy, s, r)
  {
    if m.kind == "" then
      AddError(e.policy, s, path + [InField(TypeField)], INLINE_MARK_TYPE_REQUIRED)
    else if IsPlainMark(m.kind) then s
    else if m.kind == LinkKind then
      match e.sanitize(m.href)
      case None => AddError(e.policy, s, path + [InField(HrefField)], LINK_HREF_UNSAFE)
      case Some(u) => AddLink(e.policy, s, path + [InField(HrefField)], u)
    else
      AddError(e.policy, s, path + [InField(TypeField)], INLINE_MARK_UNSUPPORTED)
  }

  function WalkMarks(e: Env, s: State, ms: seq<Mark>, k: nat, path: seq<PathPart>): (r: State)
    ensures Keeps(e.policy, s, r)
    decreases ms
  {
    if ms == [] || s.stop then s
    else WalkMarks(e, WalkMark(e, s, ms[0], path + [AtIndex(k)]), ms[1..], k + 1, path)
  }

  function CountInline(p: Policy, s: State): (r: State)
    ensures Grows(p.maxErrors, s, r)
    ensures p.Positive() && Bounded(p, s) && !s.stop ==> Bounded(p, r)
    ensures r.inlineCount == s.inlineCount + 1
  {
    var counted := s.(inlineCount := s.inlineCount + 1);
    if counted.inlineCount > p.maxInlines then
      AddError(p, counted, BlocksRoot, BODY_INLINE_NODE_COUNT_EXCEEDED).Stopped()
    else counted
  }

  /** One inline node that has been counted, and is not one too many. */
  function WalkInline(e: Env, s: State, n: Inline, path: seq<PathPart>): (r: State)
    ensures Keeps(e.policy, s, r)
  {
    if n.kind != TextKind then AddError(e.policy, s, path + [InField(TypeField)], INLINE_NODE_UNSUPPORTED)
    else WalkMarks(e, s, n.marks, 0, path + [InField(MarksField)])
  }

  function NodeText(n: Inline): string {
    if n.kind != TextKind then "" else n.text
  }

  /** The state after the inline nodes and the text collected from them. */
  function WalkInlines(e: Env, s: State, ns: seq<Inline>, k: nat, path: seq<PathPart>, text: string): (r: (State, string))
    ensures Keeps(e.policy, s, r.0)
    decreases ns
  {
    if ns == [] || s.stop then (s, text)
    else
      var counted := CountInline(e.policy, s);
      if counted.inlineCount > e.policy.maxInlines then (counted, text)
      else
        WalkInlines(e, WalkInline(e, counted, ns[0], path + [AtIndex(k)]), ns[1..], k + 1, path, text + NodeText(ns[0]))
  }

  function WalkTextBlock(e: Env, s: State, ns: seq<Inline>, path: seq<PathPart>): (r: State)
    ensures Keeps(e.policy, s, r)
  {
    var (walked, text) := WalkInlines(e, s, ns, 0, path + [InField(ChildrenField)], "");
    AddText(walked, text)
  }

  function WalkHeaders(e: Env, s: State, cs: seq<Cell>, k: nat, path: seq<PathPart>): (r: State)
    ensures Keeps(e.policy, s, r)
    decreases cs
  {
    if cs == [] || s.stop then s
    else
      var cellPath := path + [InFieldAt(HeadersField, k)] + [InField(ChildrenField)];
      WalkHeaders(e, WalkInlines(e, s, cs[0].children, 0, cellPath, "").0, cs[1..], k + 1, path)
  }

  function WalkRow(e: Env, s: State, cs: seq<Cell>, row: nat, k: nat, path: seq<PathPart>): (r: State)
    ensures Keeps(e.policy, s, r)
    decreases cs
  {
    if cs == [] || s.stop then s
    else
      var cellPath := path + [InFieldAt2(RowsField, row, k)] + [InField(ChildrenField)];
      WalkRow(e, WalkInlines(e, s, cs[0].children, 0, cellPath, "").0, cs[1..], row, k + 1, path)
  }

  function WalkRows(e: Env, s: State, rows: seq<seq<Cell>>, k: nat, path: seq<PathPart>): (r: State)
    ensures Keeps(e.policy, s, r)
    decreases rows
  {
    if rows == [] || s.stop then s
    else WalkRows(e, WalkRow(e, s, rows[0], k, 0, path), rows[1..], k + 1, path)
  }

  function WalkTableCells(e: Env, s: State, headers: seq<Cell>, rows: seq<seq<Cell>>, path: seq<PathPart>): (r: State)
    ensures Keeps(e.policy, s, r)
  {
    WalkRows(e, WalkHeaders(e, s, headers, 0, path), rows, 0, path)
  }

  function WalkTable(e: Env, s: State, headers: seq<Cell>, rows: seq<seq<Cell>>, path: seq<PathPart>): (r: State)
    ensures Keeps(e.policy, s, r)
  {
    var counted := s.(cellCount := s.cellCount + CellCount(headers, rows));
    if counted.cellCount > e.policy.maxCells then
      AddError(e.policy, counted, path, TABLE_TOO_LARGE).Stopped()
    else
      WalkTableCells(e, counted, headers, rows, path)
  }

  function WalkEmbed(e: Env, s: State, provider: string, url: string, path: seq<PathPart>): (r: State)
    ensures Keeps(e.policy, s, r)
  {
    var checked :=
      if provider != ImageProvider then
        AddError(e.policy, s, path + [InField(ProviderField)], EXTERNAL_EMBED_PROVIDER_NOT_ALLOWED)
      else s;
    match e.sanitize(url)
    case None => AddError(e.policy, checked, path + [InField(UrlField)], EXTERNAL_EMBED_URL_UNSAFE)
    case Some(u) => AddLink(e.policy, checked, path + [InField(UrlField)], u)
  }

  /** The gallery loop does not look at the stop flag. */
  function WalkFiles(e: Env, s: State, ids: seq<string>, k: nat, path: seq<PathPart>): (r: State)
    ensures Keeps(e.policy, s, r)
    decreases ids
  {
    if ids == [] then s
    else
      var fileId := TrimSpace(ids[0]);
      var next :=
        if fileId == "" then
          AddError(e.policy, s, path + [AtIndex(k)] + [InField(FileIdField)], MEDIA_REF_INVALID)
        else s.(media := s.media + [fileId]);
      WalkFiles(e, next, ids[1..], k + 1, path)
  }

  function CheckDepth(p: Policy, s: State, path: seq<PathPart>, depth: nat): (r: State)
    ensures Keeps(p, s, r)
  {
    if depth + 1 > p.maxDepth then AddError(p, s, path, BODY_CONTAINER_TOO_DEEP).Stopped() else s
  }

  predicate IsContainer(b: Block) {
    b.Quote? || b.List? || b.Collapsible?
  }

  function WalkLimited(p: Policy, s: State, text: string, limit: int, path: seq<PathPart>, code: ErrorCode): (r: State)
    ensures Keeps(p, s, r)
  {
    AddText(if |text| > limit then AddError(p, s, path, code) else s, text)
  }

  /** The blocks that hold no other blocks. */
  function WalkLeaf(e: Env, s: State, b: Block, path: seq<PathPart>): (r: State)
    requires !IsContainer(b)
    ensures Keeps(e.policy, s, r)
  {
    match b
    case NilBlock => AddError(e.policy, s, path + [InField(TypeField)], BLOCK_TYPE_REQUIRED)
    case Unsupported(kind) =>
      AddError(e.policy, s, path + [InField(TypeField)],
               if kind == "" then BLOCK_TYPE_REQUIRED else BLOCK_TYPE_NOT_ENABLED)
    case Foreign => AddError(e.policy, s, path + [InField(TypeField)], BLOCK_TYPE_NOT_ENABLED)
    case Paragraph(children) => WalkTextBlock(e, s, children, path)
    case Heading(_, children) => WalkTextBlock(e, s, children, path)
    case Code(code, _) =>
      WalkLimited(e.policy, s, code, e.policy.maxCode, path + [InField(CodeField)], CODE_BLOCK_TOO_LONG)
    case Math(latex) =>
      WalkLimited(e.policy, s, latex, e.policy.maxLatex, path + [InField(LatexField)], MATH_LATEX_TOO_LONG)
    case Table(headers, rows) => WalkTable(e, s, headers, rows, path)
    case Image(fileId, _) =>
      if TrimSpace(fileId) == "" then AddError(e.policy, s, path + [InField(FileIdField)], MEDIA_REF_INVALID)
      else s.(media := s.media + [TrimSpace(fileId)])
    case Embed(provider, url, _) => WalkEmbed(e, s, provider, url, path)
    case Gallery(NilAttachments) =>
      AddError(e.policy, s, path + [InField(ItemsField)], ATTACHMENT_GALLERY_ITEMS_INVALID)
    case Gallery(Attachments(ids)) => WalkFiles(e, s, ids, 0, path + [InField(ItemsField)])
  }

  function CountBlock(p: Policy, s: State): (r: State)
    ensures Grows(p.maxErrors, s, r)
    ensures p.Positive() && Bounded(p, s) && !s.stop ==> Bounded(p, r)
    ensures r.blockCount == s.blockCount + 1
  {
    var counted := s.(blockCount := s.blockCount + 1);
    if counted.blockCount > p.maxBlocks then
      AddError(p, counted, BlocksRoot, BODY_BLOCK_COUNT_EXCEEDED).Stopped()
    else counted
  }

  function WalkItems(e: Env, s: State, items: seq<ListItem>, k: nat, path: seq<PathPart>, depth: nat): (r: State)
    ensures Keeps(e.policy, s, r)
    decreases items
  {
    if items == [] || s.stop then s
    else
      var itemPath := path + [AtIndex(k)] + [InField(BlocksField)];
      WalkItems(e, WalkBlocks(e, s, items[0].blocks, 0, itemPath, depth), items[1..], k + 1, path, depth)
  }

  function WalkBlocks(e: Env, s: State, bs: seq<Block>, k: nat, path: seq<PathPart>, depth: nat): (r: State)
    ensures Keeps(e.policy, s, r)
    decreases bs
  {
    if bs == [] || s.stop then s
    else WalkBlocks(e, WalkBlock(e, s, bs[0], path + [AtIndex(k)], depth), bs[1..], k + 1, path, depth)
  }

  function WalkBlock(e: Env, s: State, b: Block, path: seq<PathPart>, depth: nat): (r: State)
    ensures Grows(e.policy.maxErrors, s, r)
    ensures e.policy.Positive() && Bounded(e.policy, s) && !s.stop ==> Bounded(e.policy, r)
    decreases b, 2
  {
    var counted := CountBlock(e.policy, s);
    if counted.blockCount > e.policy.maxBlocks then counted else WalkInner(e, counted, b, path, depth)
  }

  function WalkInner(e: Env, s: State, b: Block, path: seq<PathPart>, depth: nat): (r: State)
    ensures Keeps(e.policy, s, r)
    decreases b, 1
  {
    if !IsContainer(b) then WalkLeaf(e, s, b, path)
    else
      var checked := CheckDepth(e.policy, s, path, depth);
      if checked.stop then checked else WalkContainer(e, checked, b, path, depth + 1)
  }

  /** The inside of a container, which lies at `depth`. */
  function WalkContainer(e: Env, s: State, b: Block, path: seq<PathPart>, depth: nat): (r: State)
    requires IsContainer(b)
    ensures Keeps(e.policy, s, r)
    decreases b, 0
  {
    match b
    case Quote(blocks) => WalkBlocks(e, s, blocks, 0, path + [InField(BlocksField)], depth)
    case List(NilItems) => AddError(e.policy, s, path + [InField(ItemsField)], LIST_ITEMS_INVALID)
    case List(Items(items)) => WalkItems(e, s, items, 0, path + [InField(ItemsField)], depth)
    case Collapsible(title, blocks) =>
      var titled := WalkInlines(e, s, title, 0, path + [InField(TitleField)], "").0;
      if titled.stop then titled
      else WalkBlocks(e, titled, blocks, 0, path + [InField(BlocksField)], depth)
  }

  // ------------------------------------------------------------------ the parse

  datatype NormalizedBody = NormalizedBody(
    plainText: string,
    media: seq<string>,
    links: seq<string>,
    canonical: CBody,
    hash: string,
    sizeBytes: nat,
    blockCount: nat)

  datatype ParseResult =
    | Accepted(body: NormalizedBody)
    | Rejected(details: seq<Detail>, truncated: bool)

  function TopBlocks(input: Input): seq<Block> {
    match input.body case NilBlocks => [] case Blocks(bs) => bs
  }

  /** The state in which the walk of the top-level blocks starts. */
  function Opened(p: Policy, input: Input): State {
    var versioned :=
      if input.schemaVersion != 1 then AddError(p, Start, SchemaRoot, BODY_SCHEMA_UNSUPPORTED) else Start;
    if input.body.NilBlocks? then AddError(p, versioned, BlocksRoot, BODY_SCHEMA_INVALID) else versioned
  }

  function CheckText(p: Policy, s: State): State {
    if |Join(s.texts)| > p.maxPlainText then AddError(p, s, BlocksRoot, BODY_TEXT_TOO_LONG) else s
  }

  /** The state after every check but the canonical size. */
  function Checked(e: Env, input: Input): State {
    CheckText(e.policy, WalkBlocks(e, Opened(e.policy, input), TopBlocks(input), 0, BlocksRoot, 0))
  }

  function Finish(e: Env, input: Input, s: State): ParseResult {
    if s.details != [] then Rejected(s.details, s.truncated)
    else
      var canonical := CanonBody(e.sanitize, input);
      if e.size(canonical) > e.policy.maxCanonicalBytes then
        Rejected([Detail("blocks", BODY_TOO_LARGE)], false)
      else
        Accepted(NormalizedBody(Join(s.texts), s.media, s.links, canonical,
                                e.hash(canonical), e.size(canonical), s.blockCount))
  }

  function Parse(e: Env, input: Input): ParseResult {
    Finish(e, input, Checked(e, input))
  }
}
