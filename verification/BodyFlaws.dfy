/** What is wrong with a tree, said about the tree alone. A trail leads from a node to
    a place below it; a code says what is wrong with that place. The `Flaws` functions
    list such pairs in document order, and `Noted` says without any traversal which
    pairs they are. No counter, budget or early stop of the parser occurs here. */
module BodyFlaws {
  import opened Body
  import opened BodyCanonical
  import opened BodyTally

  // --------------------------------------------------------------------- places

  /** A place an error path can lead to: a node of the tree, one of its lists, or one
      of its fields. */
  datatype Place =
    | Nowhere
    | BlocksOf(blocks: seq<Block>)
    | BlockAt(block: Block)
    | BlockType(block: Block)
    | ItemsOf(items: ItemList)
    | ItemAt(item: ListItem)
    | FilesOf(attachments: Attachments)
    | FileAt(fileId: string)
    | FileId(fileId: string)
    | CodeText(code: string)
    | LatexText(latex: string)
    | Provider(provider: string)
    | Url(url: string)
    | CellAt(cell: Cell)
    | InlinesOf(inlines: seq<Inline>)
    | InlineAt(node: Inline)
    | InlineType(kind: string)
    | MarksOf(marks: seq<Mark>)
    | MarkAt(mark: Mark)
    | MarkType(kind: string)
    | Href(href: string)

  /** One step down: to an element of a list, into a field, or to a cell of a table. */
  datatype Leg = Elem(index: nat) | In(field: Field) | HeaderCell(index: nat) | RowCell(row: nat, column: nat)

  /** The marks of a node that is no text are not looked at. */
  function Step(at: Place, leg: Leg): Place {
    match at
    case BlocksOf(bs) => if leg.Elem? && leg.index < |bs| then BlockAt(bs[leg.index]) else Nowhere
    case ItemsOf(Items(items)) => if leg.Elem? && leg.index < |items| then ItemAt(items[leg.index]) else Nowhere
    case FilesOf(Attachments(ids)) => if leg.Elem? && leg.index < |ids| then FileAt(ids[leg.index]) else Nowhere
    case InlinesOf(ns) => if leg.Elem? && leg.index < |ns| then InlineAt(ns[leg.index]) else Nowhere
    case MarksOf(ms) => if leg.Elem? && leg.index < |ms| then MarkAt(ms[leg.index]) else Nowhere
    case BlockAt(b) => BlockStep(b, leg)
    case ItemAt(item) => if leg == In(BlocksField) then BlocksOf(item.blocks) else Nowhere
    case FileAt(id) => if leg == In(FileIdField) then FileId(id) else Nowhere
    case CellAt(cell) => if leg == In(ChildrenField) then InlinesOf(cell.children) else Nowhere
    case InlineAt(n) =>
      if leg == In(TypeField) then InlineType(n.kind)
      else if leg == In(MarksField) && n.kind == "text" then MarksOf(n.marks)
      else Nowhere
    case MarkAt(m) =>
      if leg == In(TypeField) then MarkType(m.kind)
      else if leg == In(HrefField) && m.kind == "link" then Href(m.href)
      else Nowhere
    case _ => Nowhere
  }

  function BlockStep(b: Block, leg: Leg): Place {
    if leg == In(TypeField) then BlockType(b)
    else
      match b
      case Paragraph(children) => if leg == In(ChildrenField) then InlinesOf(children) else Nowhere
      case Heading(_, children) => if leg == In(ChildrenField) then InlinesOf(children) else Nowhere
      case Quote(blocks) => if leg == In(BlocksField) then BlocksOf(blocks) else Nowhere
      case List(items) => if leg == In(ItemsField) then ItemsOf(items) else Nowhere
      case Code(code, _) => if leg == In(CodeField) then CodeText(code) else Nowhere
      case Table(headers, rows) =>
        if leg.HeaderCell? && leg.index < |headers| then CellAt(headers[leg.index])
        else if leg.RowCell? && leg.row < |rows| && leg.column < |rows[leg.row]| then CellAt(rows[leg.row][leg.column])
        else Nowhere
      case Collapsible(title, blocks) =>
        if leg == In(TitleField) then InlinesOf(title)
        else if leg == In(BlocksField) then BlocksOf(blocks)
        else Nowhere
      case Math(latex) => if leg == In(LatexField) then LatexText(latex) else Nowhere
      case Image(fileId, _) => if leg == In(FileIdField) then FileId(fileId) else Nowhere
      case Embed(provider, url, _) =>
        if leg == In(ProviderField) then Provider(provider)
        else if leg == In(UrlField) then Url(url)
        else Nowhere
      case Gallery(attachments) => if leg == In(ItemsField) then FilesOf(attachments) else Nowhere
      case _ => Nowhere
  }

  datatype Trail = Here | Down(leg: Leg, rest: Trail)

  function Find(at: Place, trail: Trail): Place
    decreases trail
  {
    match trail
    case Here => at
    case Down(leg, rest) => Find(Step(at, leg), rest)
  }

  // ----------------------------------------------------- what is wrong with a place

  /** The code names something that is wrong with this very place. */
  predicate Wrong(e: Env, at: Place, code: ErrorCode) {
    match at
    case BlockType(NilBlock) => code == BLOCK_TYPE_REQUIRED
    case BlockType(Unsupported(kind)) => code == if kind == "" then BLOCK_TYPE_REQUIRED else BLOCK_TYPE_NOT_ENABLED
    case BlockType(Foreign) => code == BLOCK_TYPE_NOT_ENABLED
    case ItemsOf(NilItems) => code == LIST_ITEMS_INVALID
    case FilesOf(NilAttachments) => code == ATTACHMENT_GALLERY_ITEMS_INVALID
    case FileId(id) => code == MEDIA_REF_INVALID && TrimSpace(id) == ""
    case CodeText(text) => code == CODE_BLOCK_TOO_LONG && |text| > e.policy.maxCode
    case LatexText(latex) => code == MATH_LATEX_TOO_LONG && |latex| > e.policy.maxLatex
    case Provider(provider) => code == EXTERNAL_EMBED_PROVIDER_NOT_ALLOWED && provider != "image"
    case Url(url) => code == EXTERNAL_EMBED_URL_UNSAFE && e.sanitize(url).None?
    case InlineType(kind) => code == INLINE_NODE_UNSUPPORTED && kind != "text"
    case MarkType(kind) =>
      || (code == INLINE_MARK_TYPE_REQUIRED && kind == "")
      || (code == INLINE_MARK_UNSUPPORTED && kind != "" && kind != "link" && !IsPlainMark(kind))
    case Href(href) => code == LINK_HREF_UNSAFE && e.sanitize(href).None?
    case _ => false
  }

  /** This place uses up something of which the whole body may only have so much. */
  predicate Costs(e: Env, at: Place, code: ErrorCode) {
    match at
    case BlockAt(Table(_, _)) => code == TABLE_TOO_LARGE
    case BlockAt(b) => code == BODY_CONTAINER_TOO_DEEP && (b.Quote? || b.List? || b.Collapsible?)
    case Url(url) => code == BODY_EXTERNAL_LINK_COUNT_EXCEEDED && e.sanitize(url).Some?
    case Href(href) => code == BODY_EXTERNAL_LINK_COUNT_EXCEEDED && e.sanitize(href).Some?
    case _ => false
  }

  /** What can be reported about this very place. */
  predicate Notable(e: Env, at: Place, code: ErrorCode) {
    Wrong(e, at, code) || Costs(e, at, code)
  }

  /** What can be reported about the place that `trail` leads to from here. */
  predicate Noted(e: Env, at: Place, trail: Trail, code: ErrorCode)
    decreases trail
  {
    match trail
    case Here => Notable(e, at, code)
    case Down(leg, rest) => Noted(e, Step(at, leg), rest, code)
  }

  /** The codes of limits whose breach ends the walk at once. */
  predicate IsHard(code: ErrorCode) {
    code.BODY_EXTERNAL_LINK_COUNT_EXCEEDED? || code.TABLE_TOO_LARGE? || code.BODY_CONTAINER_TOO_DEEP?
  }

  lemma HardOrWrong(e: Env, at: Place, code: ErrorCode)
    ensures Wrong(e, at, code) ==> !IsHard(code)
    ensures Costs(e, at, code) ==> IsHard(code)
  {
  }

  // ------------------------------------------------------------- in document order

  /** What can be reported about a place, by the way there from the node at hand. */
  datatype Flaw = Flaw(trail: Trail, code: ErrorCode)

  function Under(leg: Leg, fs: seq<Flaw>): seq<Flaw> {
    seq(|fs|, i requires 0 <= i < |fs| => Flaw(Down(leg, fs[i].trail), fs[i].code))
  }

  function At(f: Field): Trail {
    Down(In(f), Here)
  }

  function MarkFlaws(z: Sanitizer, m: Mark): seq<Flaw> {
    if m.kind == "" then [Flaw(At(TypeField), INLINE_MARK_TYPE_REQUIRED)]
    else if IsPlainMark(m.kind) then []
    else if m.kind == LinkKind then
      [Flaw(At(HrefField), if z(m.href).None? then LINK_HREF_UNSAFE else BODY_EXTERNAL_LINK_COUNT_EXCEEDED)]
    else [Flaw(At(TypeField), INLINE_MARK_UNSUPPORTED)]
  }

  function MarksFlaws(z: Sanitizer, ms: seq<Mark>, k: nat): seq<Flaw> {
    if ms == [] then [] else Under(Elem(k), MarkFlaws(z, ms[0])) + MarksFlaws(z, ms[1..], k + 1)
  }

  function InlineFlaws(z: Sanitizer, n: Inline): seq<Flaw> {
    if n.kind != TextKind then [Flaw(At(TypeField), INLINE_NODE_UNSUPPORTED)]
    else Under(In(MarksField), MarksFlaws(z, n.marks, 0))
  }

  function InlinesFlaws(z: Sanitizer, ns: seq<Inline>, k: nat): seq<Flaw> {
    if ns == [] then [] else Under(Elem(k), InlineFlaws(z, ns[0])) + InlinesFlaws(z, ns[1..], k + 1)
  }

  function CellFlaws(z: Sanitizer, c: Cell): seq<Flaw> {
    Under(In(ChildrenField), InlinesFlaws(z, c.children, 0))
  }

  function HeadersFlaws(z: Sanitizer, cs: seq<Cell>, k: nat): seq<Flaw> {
    if cs == [] then [] else Under(HeaderCell(k), CellFlaws(z, cs[0])) + HeadersFlaws(z, cs[1..], k + 1)
  }

  function RowFlaws(z: Sanitizer, cs: seq<Cell>, row: nat, k: nat): seq<Flaw> {
    if cs == [] then [] else Under(RowCell(row, k), CellFlaws(z, cs[0])) + RowFlaws(z, cs[1..], row, k + 1)
  }

  function RowsFlaws(z: Sanitizer, rows: seq<seq<Cell>>, k: nat): seq<Flaw> {
    if rows == [] then [] else RowFlaws(z, rows[0], k, 0) + RowsFlaws(z, rows[1..], k + 1)
  }

  function FileFlaws(id: string): seq<Flaw> {
    if TrimSpace(id) == "" then [Flaw(At(FileIdField), MEDIA_REF_INVALID)] else []
  }

  function FilesFlaws(ids: seq<string>, k: nat): seq<Flaw> {
    if ids == [] then [] else Under(Elem(k), FileFlaws(ids[0])) + FilesFlaws(ids[1..], k + 1)
  }

  function EmbedFlaws(z: Sanitizer, provider: string, url: string): seq<Flaw> {
    (if provider == ImageProvider then [] else [Flaw(At(ProviderField), EXTERNAL_EMBED_PROVIDER_NOT_ALLOWED)])
    + [Flaw(At(UrlField),
            if z(url).None? then EXTERNAL_EMBED_URL_UNSAFE else BODY_EXTERNAL_LINK_COUNT_EXCEEDED)]
  }

  function TooLongFlaws(text: string, limit: int, f: Field, code: ErrorCode): seq<Flaw> {
    if |text| > limit then [Flaw(At(f), code)] else []
  }

  function ItemFlaws(e: Env, item: ListItem): seq<Flaw>
    decreases item, 1
  {
    Under(In(BlocksField), BlocksFlaws(e, item.blocks, 0))
  }

  function ItemsFlaws(e: Env, items: seq<ListItem>, k: nat): seq<Flaw>
    decreases items, 2
  {
    if items == [] then [] else Under(Elem(k), ItemFlaws(e, items[0])) + ItemsFlaws(e, items[1..], k + 1)
  }

  function BlocksFlaws(e: Env, bs: seq<Block>, k: nat): seq<Flaw>
    decreases bs, 2
  {
    if bs == [] then [] else Under(Elem(k), BlockFlaws(e, bs[0])) + BlocksFlaws(e, bs[1..], k + 1)
  }

  function BlockFlaws(e: Env, b: Block): seq<Flaw>
    decreases b, 1
  {
    match b
    case NilBlock => [Flaw(At(TypeField), BLOCK_TYPE_REQUIRED)]
    case Unsupported(kind) =>
      [Flaw(At(TypeField), if kind == "" then BLOCK_TYPE_REQUIRED else BLOCK_TYPE_NOT_ENABLED)]
    case Foreign => [Flaw(At(TypeField), BLOCK_TYPE_NOT_ENABLED)]
    case Paragraph(children) => Under(In(ChildrenField), InlinesFlaws(e.sanitize, children, 0))
    case Heading(_, children) => Under(In(ChildrenField), InlinesFlaws(e.sanitize, children, 0))
    case Code(code, _) => TooLongFlaws(code, e.policy.maxCode, CodeField, CODE_BLOCK_TOO_LONG)
    case Math(latex) => TooLongFlaws(latex, e.policy.maxLatex, LatexField, MATH_LATEX_TOO_LONG)
    case Table(headers, rows) =>
      [Flaw(Here, TABLE_TOO_LARGE)] + (HeadersFlaws(e.sanitize, headers, 0) + RowsFlaws(e.sanitize, rows, 0))
    case Image(fileId, _) => FileFlaws(fileId)
    case Embed(provider, url, _) => EmbedFlaws(e.sanitize, provider, url)
    case Gallery(NilAttachments) => [Flaw(At(ItemsField), ATTACHMENT_GALLERY_ITEMS_INVALID)]
    case Gallery(Attachments(ids)) => Under(In(ItemsField), FilesFlaws(ids, 0))
    case _ => [Flaw(Here, BODY_CONTAINER_TOO_DEEP)] + InsideFlaws(e, b)
  }

  /** What lies inside a container. */
  function InsideFlaws(e: Env, b: Block): seq<Flaw>
    requires b.Quote? || b.List? || b.Collapsible?
    decreases b, 0
  {
    match b
    case Quote(blocks) => Under(In(BlocksField), BlocksFlaws(e, blocks, 0))
    case List(NilItems) => [Flaw(At(ItemsField), LIST_ITEMS_INVALID)]
    case List(Items(items)) => Under(In(ItemsField), ItemsFlaws(e, items, 0))
    case Collapsible(title, blocks) =>
      Under(In(TitleField), InlinesFlaws(e.sanitize, title, 0)) + Under(In(BlocksField), BlocksFlaws(e, blocks, 0))
  }

  // ---------------------------------------------- the list names exactly those places

  lemma InUnder(leg: Leg, fs: seq<Flaw>, trail: Trail, code: ErrorCode)
    ensures Flaw(trail, code) in Under(leg, fs) <==>
              trail.Down? && trail.leg == leg && Flaw(trail.rest, code) in fs
  {
    if trail.Down? && trail.leg == leg && Flaw(trail.rest, code) in fs {
      var i :| 0 <= i < |fs| && fs[i] == Flaw(trail.rest, code);
      assert Under(leg, fs)[i] == Flaw(trail, code);
    }
  }

  /** One element of a list and the elements behind it. */
  lemma InStep(leg: Leg, fs: seq<Flaw>, gs: seq<Flaw>, trail: Trail, code: ErrorCode)
    ensures Flaw(trail, code) in Under(leg, fs) + gs <==>
              (trail.Down? && trail.leg == leg && Flaw(trail.rest, code) in fs) || Flaw(trail, code) in gs
  {
    InUnder(leg, fs, trail, code);
  }

  /** `Noted` speaks of the place that the trail finds. */
  lemma {:induction false} NotedIsNotable(e: Env, at: Place, trail: Trail, code: ErrorCode)
    ensures Noted(e, at, trail, code) <==> Notable(e, Find(at, trail), code)
    decreases trail
  {
    if trail.Down? {
      NotedIsNotable(e, Step(at, trail.leg), trail.rest, code);
    }
  }

  lemma {:induction false} NothingLost(e: Env, trail: Trail, code: ErrorCode)
    ensures !Noted(e, Nowhere, trail, code)
    decreases trail
  {
    if trail.Down? {
      NothingLost(e, trail.rest, code);
    }
  }

  /** `trail` starts with the index of one of `n` elements, the first of which is `k`. */
  ghost predicate Indexes(trail: Trail, k: nat, n: nat) {
    trail.Down? && trail.leg.Elem? && k <= trail.leg.index < k + n
  }

  /** The number of elements of a place that is a list, or -1. */
  function Length(at: Place): int {
    match at
    case BlocksOf(bs) => |bs|
    case ItemsOf(Items(items)) => |items|
    case FilesOf(Attachments(ids)) => |ids|
    case InlinesOf(ns) => |ns|
    case MarksOf(ms) => |ms|
    case _ => -1
  }

  /** Whatever is reported below a list is reported below one of its elements. */
  lemma NotedInList(e: Env, at: Place, n: nat, trail: Trail, code: ErrorCode)
    requires Length(at) == n
    ensures Noted(e, at, trail, code) <==>
              Indexes(trail, 0, n) && Noted(e, Step(at, trail.leg), trail.rest, code)
  {
    if trail.Down? {
      NothingLost(e, trail.rest, code);
    }
  }

  // ---------------------------------------------------------- marks and inline nodes

  /** A field of a node: nothing lies below it. */
  ghost predicate IsField(at: Place) {
    forall leg :: Step(at, leg) == Nowhere
  }

  lemma NotedInField(e: Env, at: Place, trail: Trail, code: ErrorCode)
    requires trail.Down? && IsField(Step(at, trail.leg))
    ensures Noted(e, at, trail, code) <==> trail.rest.Here? && Notable(e, Step(at, trail.leg), code)
  {
    if trail.rest.Down? {
      NothingLost(e, trail.rest.rest, code);
    }
  }

  lemma MarkField(e: Env, m: Mark, leg: Leg, code: ErrorCode)
    ensures Flaw(Down(leg, Here), code) in MarkFlaws(e.sanitize, m) <==> Notable(e, Step(MarkAt(m), leg), code)
  {
  }

  lemma MarkNamed(e: Env, m: Mark, trail: Trail, code: ErrorCode)
    ensures Flaw(trail, code) in MarkFlaws(e.sanitize, m) <==> Noted(e, MarkAt(m), trail, code)
  {
    if trail.Down? {
      NotedInField(e, MarkAt(m), trail, code);
      MarkField(e, m, trail.leg, code);
    }
  }

  lemma {:induction false} InMarks(e: Env, ms: seq<Mark>, k: nat, trail: Trail, code: ErrorCode)
    ensures Flaw(trail, code) in MarksFlaws(e.sanitize, ms, k) <==>
              Indexes(trail, k, |ms|) && Flaw(trail.rest, code) in MarkFlaws(e.sanitize, ms[trail.leg.index - k])
    decreases |ms|
  {
    if ms != [] {
      InStep(Elem(k), MarkFlaws(e.sanitize, ms[0]), MarksFlaws(e.sanitize, ms[1..], k + 1), trail, code);
      InMarks(e, ms[1..], k + 1, trail, code);
      if Indexes(trail, k, |ms|) && trail.leg.index != k {
        assert ms[1..][trail.leg.index - (k + 1)] == ms[trail.leg.index - k];
      }
    }
  }

  lemma MarksNamed(e: Env, ms: seq<Mark>, trail: Trail, code: ErrorCode)
    ensures Flaw(trail, code) in MarksFlaws(e.sanitize, ms, 0) <==> Noted(e, MarksOf(ms), trail, code)
  {
    InMarks(e, ms, 0, trail, code);
    NotedInList(e, MarksOf(ms), |ms|, trail, code);
    if Indexes(trail, 0, |ms|) {
      MarkNamed(e, ms[trail.leg.index], trail.rest, code);
    }
  }

  lemma BadInlineNamed(e: Env, n: Inline, trail: Trail, code: ErrorCode)
    requires n.kind != TextKind
    ensures Flaw(trail, code) in InlineFlaws(e.sanitize, n) <==> Noted(e, InlineAt(n), trail, code)
  {
    if trail.Down? {
      NotedInField(e, InlineAt(n), trail, code);
    }
  }

  lemma TextInlineNamed(e: Env, n: Inline, trail: Trail, code: ErrorCode)
    requires n.kind == TextKind
    ensures Flaw(trail, code) in InlineFlaws(e.sanitize, n) <==> Noted(e, InlineAt(n), trail, code)
  {
    InUnder(In(MarksField), MarksFlaws(e.sanitize, n.marks, 0), trail, code);
    if trail.Down? {
      if trail.leg == In(MarksField) {
        MarksNamed(e, n.marks, trail.rest, code);
      } else {
        NotedInField(e, InlineAt(n), trail, code);
      }
    }
  }

  lemma InlineNamed(e: Env, n: Inline, trail: Trail, code: ErrorCode)
    ensures Flaw(trail, code) in InlineFlaws(e.sanitize, n) <==> Noted(e, InlineAt(n), trail, code)
  {
    if n.kind == TextKind {
      TextInlineNamed(e, n, trail, code);
    } else {
      BadInlineNamed(e, n, trail, code);
    }
  }

  lemma {:induction false} InInlines(e: Env, ns: seq<Inline>, k: nat, trail: Trail, code: ErrorCode)
    ensures Flaw(trail, code) in InlinesFlaws(e.sanitize, ns, k) <==>
              Indexes(trail, k, |ns|) && Flaw(trail.rest, code) in InlineFlaws(e.sanitize, ns[trail.leg.index - k])
    decreases |ns|
  {
    if ns != [] {
      InStep(Elem(k), InlineFlaws(e.sanitize, ns[0]), InlinesFlaws(e.sanitize, ns[1..], k + 1), trail, code);
      InInlines(e, ns[1..], k + 1, trail, code);
      if Indexes(trail, k, |ns|) && trail.leg.index != k {
        assert ns[1..][trail.leg.index - (k + 1)] == ns[trail.leg.index - k];
      }
    }
  }

  lemma InlinesNamed(e: Env, ns: seq<Inline>, trail: Trail, code: ErrorCode)
    ensures Flaw(trail, code) in InlinesFlaws(e.sanitize, ns, 0) <==> Noted(e, InlinesOf(ns), trail, code)
  {
    InInlines(e, ns, 0, trail, code);
    NotedInList(e, InlinesOf(ns), |ns|, trail, code);
    if Indexes(trail, 0, |ns|) {
      var n := ns[trail.leg.index];
      assert Step(InlinesOf(ns), trail.leg) == InlineAt(n);
      InlineNamed(e, n, trail.rest, code);
    }
  }

  // -------------------------------------------------------------------------- tables

  lemma CellNamed(e: Env, c: Cell, trail: Trail, code: ErrorCode)
    ensures Flaw(trail, code) in CellFlaws(e.sanitize, c) <==> Noted(e, CellAt(c), trail, code)
  {
    InUnder(In(ChildrenField), InlinesFlaws(e.sanitize, c.children, 0), trail, code);
    if trail.Down? {
      InlinesNamed(e, c.children, trail.rest, code);
      NothingLost(e, trail.rest, code);
    }
  }

  ghost predicate InHeader(trail: Trail, k: nat, n: nat) {
    trail.Down? && trail.leg.HeaderCell? && k <= trail.leg.index < k + n
  }

  lemma {:induction false} InHeaders(e: Env, cs: seq<Cell>, k: nat, trail: Trail, code: ErrorCode)
    ensures Flaw(trail, code) in HeadersFlaws(e.sanitize, cs, k) <==>
              InHeader(trail, k, |cs|) && Flaw(trail.rest, code) in CellFlaws(e.sanitize, cs[trail.leg.index - k])
    decreases |cs|
  {
    if cs != [] {
      InStep(HeaderCell(k), CellFlaws(e.sanitize, cs[0]), HeadersFlaws(e.sanitize, cs[1..], k + 1), trail, code);
      InHeaders(e, cs[1..], k + 1, trail, code);
      if InHeader(trail, k, |cs|) && trail.leg.index != k {
        assert cs[1..][trail.leg.index - (k + 1)] == cs[trail.leg.index - k];
      }
    }
  }

  ghost predicate InRow(trail: Trail, row: nat, k: nat, n: nat) {
    trail.Down? && trail.leg.RowCell? && trail.leg.row == row && k <= trail.leg.column < k + n
  }

  lemma {:induction false} InOneRow(e: Env, cs: seq<Cell>, row: nat, k: nat, trail: Trail, code: ErrorCode)
    ensures Flaw(trail, code) in RowFlaws(e.sanitize, cs, row, k) <==>
              InRow(trail, row, k, |cs|) && Flaw(trail.rest, code) in CellFlaws(e.sanitize, cs[trail.leg.column - k])
    decreases |cs|
  {
    if cs != [] {
      InStep(RowCell(row, k), CellFlaws(e.sanitize, cs[0]), RowFlaws(e.sanitize, cs[1..], row, k + 1), trail, code);
      InOneRow(e, cs[1..], row, k + 1, trail, code);
      if InRow(trail, row, k, |cs|) && trail.leg.column != k {
        assert cs[1..][trail.leg.column - (k + 1)] == cs[trail.leg.column - k];
      }
    }
  }

  lemma InThatRow(e: Env, cs: seq<Cell>, row: nat, k: nat, trail: Trail, code: ErrorCode)
    ensures Flaw(trail, code) in RowFlaws(e.sanitize, cs, row, k) ==>
              trail.Down? && trail.leg.RowCell? && trail.leg.row == row
  {
    InOneRow(e, cs, row, k, trail, code);
  }

  ghost predicate InRows(trail: Trail, k: nat, n: nat) {
    trail.Down? && trail.leg.RowCell? && k <= trail.leg.row < k + n
  }

  /** Inside the rows: which row the trail goes to, and whether that row reports it. */
  lemma {:induction false} InSomeRow(e: Env, rows: seq<seq<Cell>>, k: nat, trail: Trail, code: ErrorCode)
    ensures Flaw(trail, code) in RowsFlaws(e.sanitize, rows, k) <==>
              && InRows(trail, k, |rows|)
              && Flaw(trail, code) in RowFlaws(e.sanitize, rows[trail.leg.row - k], trail.leg.row, 0)
    decreases |rows|
  {
    if rows != [] {
      InThatRow(e, rows[0], k, 0, trail, code);
      InSomeRow(e, rows[1..], k + 1, trail, code);
      if InRows(trail, k, |rows|) && trail.leg.row != k {
        assert rows[1..][trail.leg.row - (k + 1)] == rows[trail.leg.row - k];
      }
    }
  }

  lemma OffTheTree(e: Env, at: Place, trail: Trail, code: ErrorCode)
    requires trail.Down? && Step(at, trail.leg) == Nowhere
    ensures !Noted(e, at, trail, code)
  {
    NothingLost(e, trail.rest, code);
  }

  /** From a table down to one of its cells. */
  lemma TableCellNamed(e: Env, at: Place, c: Cell, trail: Trail, code: ErrorCode)
    requires trail.Down? && Step(at, trail.leg) == CellAt(c)
    ensures Flaw(trail.rest, code) in CellFlaws(e.sanitize, c) <==> Noted(e, at, trail, code)
  {
    CellNamed(e, c, trail.rest, code);
  }

  lemma HeadersNamed(e: Env, headers: seq<Cell>, rows: seq<seq<Cell>>, trail: Trail, code: ErrorCode)
    requires trail.Down? && trail.leg.HeaderCell?
    ensures Flaw(trail, code) in HeadersFlaws(e.sanitize, headers, 0) <==>
              Noted(e, BlockAt(Table(headers, rows)), trail, code)
  {
    var at, i := BlockAt(Table(headers, rows)), trail.leg.index;
    InHeaders(e, headers, 0, trail, code);
    if i < |headers| {
      assert Step(at, trail.leg) == CellAt(headers[i]);
      TableCellNamed(e, at, headers[i], trail, code);
    } else {
      assert Step(at, trail.leg) == Nowhere;
      OffTheTree(e, at, trail, code);
    }
  }

  lemma RowNamed(e: Env, headers: seq<Cell>, rows: seq<seq<Cell>>, row: seq<Cell>, trail: Trail, code: ErrorCode)
    requires trail.Down? && trail.leg.RowCell? && trail.leg.row < |rows| && rows[trail.leg.row] == row
    ensures Flaw(trail, code) in RowFlaws(e.sanitize, row, trail.leg.row, 0) <==>
              Noted(e, BlockAt(Table(headers, rows)), trail, code)
  {
    var at, j := BlockAt(Table(headers, rows)), trail.leg.column;
    InOneRow(e, row, trail.leg.row, 0, trail, code);
    if j < |row| {
      assert Step(at, trail.leg) == CellAt(row[j]);
      TableCellNamed(e, at, row[j], trail, code);
    } else {
      assert Step(at, trail.leg) == Nowhere;
      OffTheTree(e, at, trail, code);
    }
  }

  lemma RowsNamed(e: Env, headers: seq<Cell>, rows: seq<seq<Cell>>, trail: Trail, code: ErrorCode)
    requires trail.Down? && trail.leg.RowCell?
    ensures Flaw(trail, code) in RowsFlaws(e.sanitize, rows, 0) <==>
              Noted(e, BlockAt(Table(headers, rows)), trail, code)
  {
    InSomeRow(e, rows, 0, trail, code);
    if trail.leg.row < |rows| {
      RowNamed(e, headers, rows, rows[trail.leg.row - 0], trail, code);
    } else {
      assert Step(BlockAt(Table(headers, rows)), trail.leg) == Nowhere;
      OffTheTree(e, BlockAt(Table(headers, rows)), trail, code);
    }
  }

  lemma InTable(e: Env, headers: seq<Cell>, rows: seq<seq<Cell>>, trail: Trail, code: ErrorCode)
    ensures Flaw(trail, code) in BlockFlaws(e, Table(headers, rows)) <==>
              || (trail == Here && code == TABLE_TOO_LARGE)
              || (trail.Down? && trail.leg.HeaderCell? && Flaw(trail, code) in HeadersFlaws(e.sanitize, headers, 0))
              || (trail.Down? && trail.leg.RowCell? && Flaw(trail, code) in RowsFlaws(e.sanitize, rows, 0))
  {
    InHeaders(e, headers, 0, trail, code);
    InSomeRow(e, rows, 0, trail, code);
    assert Flaw(trail, code) in BlockFlaws(e, Table(headers, rows)) <==>
        Flaw(trail, code) == Flaw(Here, TABLE_TOO_LARGE)
        || Flaw(trail, code) in HeadersFlaws(e.sanitize, headers, 0)
        || Flaw(trail, code) in RowsFlaws(e.sanitize, rows, 0);
  }

  lemma TableNamed(e: Env, b: Block, trail: Trail, code: ErrorCode)
    requires b.Table?
    ensures Flaw(trail, code) in BlockFlaws(e, b) <==> Noted(e, BlockAt(b), trail, code)
  {
    InTable(e, b.headers, b.rows, trail, code);
    if trail.Down? {
      if trail.leg.HeaderCell? {
        HeadersNamed(e, b.headers, b.rows, trail, code);
      } else if trail.leg.RowCell? {
        RowsNamed(e, b.headers, b.rows, trail, code);
      } else {
        NotedInField(e, BlockAt(b), trail, code);
      }
    }
  }

  // -------------------------------------------------------------------- other blocks

  /** The blocks of which only fields can be wrong. */
  predicate IsSimple(b: Block) {
    b.NilBlock? || b.Unsupported? || b.Foreign? || b.Code? || b.Math? || b.Image? || b.Embed?
  }

  lemma EmbedField(e: Env, b: Block, leg: Leg, code: ErrorCode)
    requires b.Embed?
    ensures Flaw(Down(leg, Here), code) in BlockFlaws(e, b) <==> Notable(e, Step(BlockAt(b), leg), code)
  {
  }

  lemma SimpleField(e: Env, b: Block, leg: Leg, code: ErrorCode)
    requires IsSimple(b)
    ensures Flaw(Down(leg, Here), code) in BlockFlaws(e, b) <==> Notable(e, Step(BlockAt(b), leg), code)
  {
    if b.Embed? {
      EmbedField(e, b, leg, code);
    }
  }

  lemma SimpleNamed(e: Env, b: Block, trail: Trail, code: ErrorCode)
    requires IsSimple(b)
    ensures Flaw(trail, code) in BlockFlaws(e, b) <==> Noted(e, BlockAt(b), trail, code)
  {
    if trail.Down? {
      NotedInField(e, BlockAt(b), trail, code);
      SimpleField(e, b, trail.leg, code);
    }
  }

  lemma TextBlockNamed(e: Env, b: Block, trail: Trail, code: ErrorCode)
    requires b.Paragraph? || b.Heading?
    ensures Flaw(trail, code) in BlockFlaws(e, b) <==> Noted(e, BlockAt(b), trail, code)
  {
    InUnder(In(ChildrenField), InlinesFlaws(e.sanitize, b.children, 0), trail, code);
    if trail.Down? {
      if trail.leg == In(ChildrenField) {
        InlinesNamed(e, b.children, trail.rest, code);
      } else {
        NotedInField(e, BlockAt(b), trail, code);
      }
    }
  }

  lemma {:induction false} InFiles(ids: seq<string>, k: nat, trail: Trail, code: ErrorCode)
    ensures Flaw(trail, code) in FilesFlaws(ids, k) <==>
              Indexes(trail, k, |ids|) && Flaw(trail.rest, code) in FileFlaws(ids[trail.leg.index - k])
    decreases |ids|
  {
    if ids != [] {
      InStep(Elem(k), FileFlaws(ids[0]), FilesFlaws(ids[1..], k + 1), trail, code);
      InFiles(ids[1..], k + 1, trail, code);
      if Indexes(trail, k, |ids|) && trail.leg.index != k {
        assert ids[1..][trail.leg.index - (k + 1)] == ids[trail.leg.index - k];
      }
    }
  }

  lemma FileNamed(e: Env, id: string, trail: Trail, code: ErrorCode)
    ensures Flaw(trail, code) in FileFlaws(id) <==> Noted(e, FileAt(id), trail, code)
  {
    if trail.Down? {
      NotedInField(e, FileAt(id), trail, code);
    }
  }

  lemma FilesNamed(e: Env, ids: seq<string>, trail: Trail, code: ErrorCode)
    ensures Flaw(trail, code) in FilesFlaws(ids, 0) <==> Noted(e, FilesOf(Attachments(ids)), trail, code)
  {
    InFiles(ids, 0, trail, code);
    NotedInList(e, FilesOf(Attachments(ids)), |ids|, trail, code);
    if Indexes(trail, 0, |ids|) {
      var id := ids[trail.leg.index];
      assert Step(FilesOf(Attachments(ids)), trail.leg) == FileAt(id);
      FileNamed(e, id, trail.rest, code);
    }
  }

  lemma GalleryNamed(e: Env, b: Block, trail: Trail, code: ErrorCode)
    requires b.Gallery?
    ensures Flaw(trail, code) in BlockFlaws(e, b) <==> Noted(e, BlockAt(b), trail, code)
  {
    if b.attachments.Attachments? {
      InUnder(In(ItemsField), FilesFlaws(b.attachments.fileIds, 0), trail, code);
    }
    if trail.Down? {
      if b.attachments.Attachments? && trail.leg == In(ItemsField) {
        FilesNamed(e, b.attachments.fileIds, trail.rest, code);
      } else {
        NotedInField(e, BlockAt(b), trail, code);
      }
    }
  }

  // ---------------------------------------------------------------------- containers

  lemma InInside(e: Env, b: Block, trail: Trail, code: ErrorCode)
    requires b.Quote? || b.List? || b.Collapsible?
    ensures Flaw(trail, code) in BlockFlaws(e, b) <==>
              Flaw(trail, code) == Flaw(Here, BODY_CONTAINER_TOO_DEEP) || Flaw(trail, code) in InsideFlaws(e, b)
  {
  }

  lemma {:induction false} QuoteNamed(e: Env, b: Block, trail: Trail, code: ErrorCode)
    requires b.Quote?
    ensures Flaw(trail, code) in BlockFlaws(e, b) <==> Noted(e, BlockAt(b), trail, code)
    decreases b, 0
  {
    InInside(e, b, trail, code);
    InUnder(In(BlocksField), BlocksFlaws(e, b.blocks, 0), trail, code);
    if trail.Down? {
      if trail.leg == In(BlocksField) {
        BlocksNamed(e, b.blocks, trail.rest, code);
      } else {
        NotedInField(e, BlockAt(b), trail, code);
      }
    }
  }

  lemma {:induction false} ListNamed(e: Env, b: Block, trail: Trail, code: ErrorCode)
    requires b.List?
    ensures Flaw(trail, code) in BlockFlaws(e, b) <==> Noted(e, BlockAt(b), trail, code)
    decreases b, 0
  {
    InInside(e, b, trail, code);
    if b.items.Items? {
      InUnder(In(ItemsField), ItemsFlaws(e, b.items.items, 0), trail, code);
    }
    if trail.Down? {
      if b.items.Items? && trail.leg == In(ItemsField) {
        ItemsNamed(e, b.items.items, trail.rest, code);
      } else {
        NotedInField(e, BlockAt(b), trail, code);
      }
    }
  }

  lemma {:induction false} CollapsibleNamed(e: Env, b: Block, trail: Trail, code: ErrorCode)
    requires b.Collapsible?
    ensures Flaw(trail, code) in BlockFlaws(e, b) <==> Noted(e, BlockAt(b), trail, code)
    decreases b, 0
  {
    InInside(e, b, trail, code);
    InUnder(In(TitleField), InlinesFlaws(e.sanitize, b.title, 0), trail, code);
    InUnder(In(BlocksField), BlocksFlaws(e, b.blocks, 0), trail, code);
    if trail.Down? {
      if trail.leg == In(TitleField) {
        InlinesNamed(e, b.title, trail.rest, code);
      } else if trail.leg == In(BlocksField) {
        BlocksNamed(e, b.blocks, trail.rest, code);
      } else {
        NotedInField(e, BlockAt(b), trail, code);
      }
    }
  }

  lemma {:induction false} BlockNamed(e: Env, b: Block, trail: Trail, code: ErrorCode)
    ensures Flaw(trail, code) in BlockFlaws(e, b) <==> Noted(e, BlockAt(b), trail, code)
    decreases b, 1
  {
    if IsSimple(b) {
      SimpleNamed(e, b, trail, code);
    } else if b.Paragraph? || b.Heading? {
      TextBlockNamed(e, b, trail, code);
    } else if b.Table? {
      TableNamed(e, b, trail, code);
    } else if b.Gallery? {
      GalleryNamed(e, b, trail, code);
    } else if b.Quote? {
      QuoteNamed(e, b, trail, code);
    } else if b.List? {
      ListNamed(e, b, trail, code);
    } else {
      CollapsibleNamed(e, b, trail, code);
    }
  }

  lemma {:induction false} InItems(e: Env, items: seq<ListItem>, k: nat, trail: Trail, code: ErrorCode)
    ensures Flaw(trail, code) in ItemsFlaws(e, items, k) <==>
              Indexes(trail, k, |items|) && Flaw(trail.rest, code) in ItemFlaws(e, items[trail.leg.index - k])
    decreases |items|
  {
    if items != [] {
      InStep(Elem(k), ItemFlaws(e, items[0]), ItemsFlaws(e, items[1..], k + 1), trail, code);
      InItems(e, items[1..], k + 1, trail, code);
      if Indexes(trail, k, |items|) && trail.leg.index != k {
        assert items[1..][trail.leg.index - (k + 1)] == items[trail.leg.index - k];
      }
    }
  }

  lemma {:induction false} ItemNamed(e: Env, item: ListItem, trail: Trail, code: ErrorCode)
    ensures Flaw(trail, code) in ItemFlaws(e, item) <==> Noted(e, ItemAt(item), trail, code)
    decreases item
  {
    InUnder(In(BlocksField), BlocksFlaws(e, item.blocks, 0), trail, code);
    if trail.Down? {
      BlocksNamed(e, item.blocks, trail.rest, code);
      NothingLost(e, trail.rest, code);
    }
  }

  lemma {:induction false} ItemsNamed(e: Env, items: seq<ListItem>, trail: Trail, code: ErrorCode)
    ensures Flaw(trail, code) in ItemsFlaws(e, items, 0) <==> Noted(e, ItemsOf(Items(items)), trail, code)
    decreases items
  {
    InItems(e, items, 0, trail, code);
    NotedInList(e, ItemsOf(Items(items)), |items|, trail, code);
    if Indexes(trail, 0, |items|) {
      ItemNamed(e, items[trail.leg.index], trail.rest, code);
    }
  }

  lemma {:induction false} InBlocks(e: Env, bs: seq<Block>, k: nat, trail: Trail, code: ErrorCode)
    ensures Flaw(trail, code) in BlocksFlaws(e, bs, k) <==>
              Indexes(trail, k, |bs|) && Flaw(trail.rest, code) in BlockFlaws(e, bs[trail.leg.index - k])
    decreases |bs|
  {
    if bs != [] {
      InStep(Elem(k), BlockFlaws(e, bs[0]), BlocksFlaws(e, bs[1..], k + 1), trail, code);
      InBlocks(e, bs[1..], k + 1, trail, code);
      if Indexes(trail, k, |bs|) && trail.leg.index != k {
        assert bs[1..][trail.leg.index - (k + 1)] == bs[trail.leg.index - k];
      }
    }
  }

  /** What the list of flaws names is what can be reported of the places in the tree. */
  lemma {:induction false} BlocksNamed(e: Env, bs: seq<Block>, trail: Trail, code: ErrorCode)
    ensures Flaw(trail, code) in BlocksFlaws(e, bs, 0) <==> Noted(e, BlocksOf(bs), trail, code)
    decreases bs
  {
    InBlocks(e, bs, 0, trail, code);
    NotedInList(e, BlocksOf(bs), |bs|, trail, code);
    if Indexes(trail, 0, |bs|) {
      BlockNamed(e, bs[trail.leg.index], trail.rest, code);
    }
  }
}
