/** The parser as it runs: a state object whose counters and lists are updated in
    place, and paths that are slices of one growing array. Every method is proved
    to compute the walk of `BodyWalk`, whose paths are immutable lists; so no error
    path is ever spoilt by the sharing. */
module BodyParser {
  import opened Body
  import opened BodyCanonical
  import opened BodyTally
  import opened BodyWalk
  import BodyDiagnosis
  import BodyFaithful
  import BodyPaths

  // --------------------------------------------------------------- path slices

  /** A slice: the first `len` elements of a backing array. Several slices share
      one array; `append` writes behind the slice when there is room. */
  datatype PathSlice = PathSlice(arr: array<PathPart>, len: nat)
  {
    ghost predicate Valid()
      reads arr
    {
      len <= arr.Length
    }

    ghost function Value(): seq<PathPart>
      requires Valid()
      reads arr
    {
      arr[..len]
    }
  }

  const PathCapacity: nat := 16

  method RootPath(f: Field) returns (r: PathSlice)
    ensures fresh(r.arr) && r.Valid() && r.Value() == [InField(f)]
  {
    var arr := new PathPart[PathCapacity];
    arr[0] := InField(f);
    r := PathSlice(arr, 1);
  }

  /** Go's append of one element. With room left the shared array is written right
      behind the slice; otherwise the elements move to a new array of some larger
      capacity. Everything within the slice keeps its value either way. */
  method Append(s: PathSlice, part: PathPart) returns (r: PathSlice)
    requires s.Valid()
    modifies s.arr
    ensures s.Value() == old(s.Value())
    ensures r.arr == s.arr || fresh(r.arr)
    ensures r.len == s.len + 1 && r.Valid() && r.Value() == s.Value() + [part]
  {
    if s.len < s.arr.Length {
      s.arr[s.len] := part;
      r := PathSlice(s.arr, s.len + 1);
    } else {
      var capacity: nat :| capacity > s.len;
      var grown := new PathPart[capacity];
      for i := 0 to s.len
        invariant s.Value() == old(s.Value())
        invariant grown[..i] == s.arr[..i]
      {
        grown[i] := s.arr[i];
      }
      grown[s.len] := part;
      r := PathSlice(grown, s.len + 1);
    }
  }

  /** The printed text spells out the tokens of the path, names after dots and numbers in
      brackets, without the leading dot. */
  ghost predicate Spells(text: string, path: seq<PathPart>) {
    BodyPaths.WellFormedPath(path) ==> "." + text == BodyPaths.Spelled(BodyPaths.Tokens(path))
  }

  lemma PathTextSpells(path: seq<PathPart>)
    ensures Spells(PathText(path), path)
  {
    if BodyPaths.WellFormedPath(path) {
      BodyPaths.PathTextSpelled(path);
    }
  }

  /** formatPath: one builder, written left to right. */
  method FormatPath(path: PathSlice) returns (text: string)
    requires path.Valid()
    ensures text == PathText(path.Value()) && Spells(text, path.Value())
  {
    text := "";
    for i := 0 to path.len
      invariant text == PathText(path.arr[..i])
    {
      assert path.arr[..i + 1][..i] == path.arr[..i];
      text := text + PartText(path.arr[i], i == 0);
    }
    PathTextSpells(path.arr[..path.len]);
  }

  // ------------------------------------------------------------------ the state

  class ParserState {
    const e: Env
    var details: seq<Detail>
    var truncated: bool
    var stopValidation: bool
    var blockCount: nat
    var inlineNodeCount: nat
    var tableCellCount: nat
    var plainTextBlocks: seq<string>
    var mediaRefs: seq<string>
    var externalLinks: seq<string>

    ghost function Value(): State
      reads this
    {
      State(details, truncated, stopValidation, blockCount, inlineNodeCount, tableCellCount,
            plainTextBlocks, mediaRefs, externalLinks)
    }

    constructor (e: Env)
      ensures this.e == e && Value() == Start
    {
      this.e := e;
      details := [];
      truncated := false;
      stopValidation := false;
      blockCount := 0;
      inlineNodeCount := 0;
      tableCellCount := 0;
      plainTextBlocks := [];
      mediaRefs := [];
      externalLinks := [];
    }

    method AddErrorAt(path: PathSlice, code: ErrorCode)
      requires path.Valid()
      modifies this
      ensures Value() == AddError(e.policy, old(Value()), path.Value(), code)
    {
      if |details| >= e.policy.maxErrors {
        truncated := true;
        stopValidation := true;
        return;
      }
      var text := FormatPath(path);
      details := details + [Detail(text, code)];
      if |details| >= e.policy.maxErrors {
        truncated := true;
        stopValidation := true;
      }
    }

    /** An error at a part of `path`. */
    method AddErrorIn(path: PathSlice, part: PathPart, code: ErrorCode)
      requires path.Valid()
      modifies this, path.arr
      ensures path.Value() == old(path.Value())
      ensures Value() == AddError(e.policy, old(Value()), path.Value() + [part], code)
    {
      var at := Append(path, part);
      AddErrorAt(at, code);
    }

    method StopAfterHardLimit()
      modifies this
      ensures Value() == old(Value()).Stopped()
    {
      stopValidation := true;
    }

    /** A counter past its limit: reported at the root of the blocks. */
    method RejectAtRoot(code: ErrorCode)
      modifies this
      ensures Value() == AddError(e.policy, old(Value()), BlocksRoot, code).Stopped()
    {
      var blocksRoot := RootPath(BlocksField);
      AddErrorAt(blocksRoot, code);
      StopAfterHardLimit();
    }

    method AppendPlainText(text: string)
      modifies this
      ensures Value() == AddText(old(Value()), text)
    {
      if text != "" {
        plainTextBlocks := plainTextBlocks + [text];
      } else {
        assert plainTextBlocks + [] == plainTextBlocks;
      }
    }

    method AddExternalLink(path: PathSlice, part: PathPart, link: string)
      requires path.Valid()
      modifies this, path.arr
      ensures path.Value() == old(path.Value())
      ensures Value() == AddLink(e.policy, old(Value()), path.Value() + [part], link)
    {
      if |externalLinks| >= e.policy.maxLinks {
        AddErrorIn(path, part, BODY_EXTERNAL_LINK_COUNT_EXCEEDED);
        StopAfterHardLimit();
        return;
      }
      externalLinks := externalLinks + [link];
    }

    // ---------------------------------------------------------------- inline nodes

    method ValidateMark(mark: Mark, markPath: PathSlice)
      requires markPath.Valid()
      modifies this, markPath.arr
      ensures markPath.Value() == old(markPath.Value())
      ensures Value() == WalkMark(e, old(Value()), mark, markPath.Value())
    {
      if mark.kind == "" {
        AddErrorIn(markPath, InField(TypeField), INLINE_MARK_TYPE_REQUIRED);
        return;
      }
      if IsPlainMark(mark.kind) {
        return;
      }
      if mark.kind == LinkKind {
        match e.sanitize(mark.href)
        case None => AddErrorIn(markPath, InField(HrefField), LINK_HREF_UNSAFE);
        case Some(safeUrl) => AddExternalLink(markPath, InField(HrefField), safeUrl);
      } else {
        AddErrorIn(markPath, InField(TypeField), INLINE_MARK_UNSUPPORTED);
      }
    }

    method ValidateMarks(marks: seq<Mark>, path: PathSlice)
      requires path.Valid()
      modifies this, path.arr
      ensures path.Value() == old(path.Value())
      ensures Value() == WalkMarks(e, old(Value()), marks, 0, path.Value())
    {
      ghost var p := path.Value();
      ghost var goal := WalkMarks(e, Value(), marks, 0, p);
      assert marks[0..] == marks;
      for i := 0 to |marks|
        invariant path.Value() == p
        invariant WalkMarks(e, Value(), marks[i..], i, p) == goal
      {
        if stopValidation {
          return;
        }
        assert marks[i..][1..] == marks[i + 1..];
        var markPath := Append(path, AtIndex(i));
        ValidateMark(marks[i], markPath);
      }
    }

    method ValidateInlineNode(node: Inline, nodePath: PathSlice)
      requires nodePath.Valid()
      modifies this, nodePath.arr
      ensures nodePath.Value() == old(nodePath.Value())
      ensures Value() == WalkInline(e, old(Value()), node, nodePath.Value())
    {
      if node.kind != TextKind {
        AddErrorIn(nodePath, InField(TypeField), INLINE_NODE_UNSUPPORTED);
        return;
      }
      var marksPath := Append(nodePath, InField(MarksField));
      ValidateMarks(node.marks, marksPath);
    }

    method CountInlineNode() returns (over: bool)
      modifies this
      ensures Value() == CountInline(e.policy, old(Value()))
      ensures over <==> inlineNodeCount > e.policy.maxInlines
    {
      inlineNodeCount := inlineNodeCount + 1;
      over := inlineNodeCount > e.policy.maxInlines;
      if over {
        RejectAtRoot(BODY_INLINE_NODE_COUNT_EXCEEDED);
      }
    }

    method ValidateInlineNodes(nodes: seq<Inline>, path: PathSlice) returns (text: string)
      requires path.Valid()
      modifies this, path.arr
      ensures path.Value() == old(path.Value())
      ensures (Value(), text) == WalkInlines(e, old(Value()), nodes, 0, path.Value(), "")
    {
      ghost var p := path.Value();
      ghost var goal := WalkInlines(e, Value(), nodes, 0, p, "");
      text := "";
      assert nodes[0..] == nodes;
      for i := 0 to |nodes|
        invariant path.Value() == p
        invariant WalkInlines(e, Value(), nodes[i..], i, p, text) == goal
      {
        if stopValidation {
          return;
        }
        assert nodes[i..][1..] == nodes[i + 1..];
        var nodePath := Append(path, AtIndex(i));
        var over := CountInlineNode();
        if over {
          return;
        }
        ValidateInlineNode(nodes[i], nodePath);
        text := text + NodeText(nodes[i]);
      }
    }

    // ---------------------------------------------------------------------- tables

    /** One cell: its children, under the path of the cell. */
    method ValidateCell(cell: Cell, path: PathSlice, part: PathPart)
      requires path.Valid()
      modifies this, path.arr
      ensures path.Value() == old(path.Value())
      ensures Value() == WalkInlines(e, old(Value()), cell.children, 0,
                                     path.Value() + [part] + [InField(ChildrenField)], "").0
    {
      var cellPath := Append(path, part);
      var childrenPath := Append(cellPath, InField(ChildrenField));
      var _ := ValidateInlineNodes(cell.children, childrenPath);
    }

    method ValidateHeaders(headers: seq<Cell>, path: PathSlice)
      requires path.Valid()
      modifies this, path.arr
      ensures path.Value() == old(path.Value())
      ensures Value() == WalkHeaders(e, old(Value()), headers, 0, path.Value())
    {
      ghost var p := path.Value();
      ghost var goal := WalkHeaders(e, Value(), headers, 0, p);
      assert headers[0..] == headers;
      for i := 0 to |headers|
        invariant path.Value() == p
        invariant WalkHeaders(e, Value(), headers[i..], i, p) == goal
      {
        if stopValidation {
          return;
        }
        assert headers[i..][1..] == headers[i + 1..];
        ValidateCell(headers[i], path, InFieldAt(HeadersField, i));
      }
    }

    method ValidateRow(row: seq<Cell>, rowIndex: nat, path: PathSlice)
      requires path.Valid()
      modifies this, path.arr
      ensures path.Value() == old(path.Value())
      ensures Value() == WalkRow(e, old(Value()), row, rowIndex, 0, path.Value())
    {
      ghost var p := path.Value();
      ghost var goal := WalkRow(e, Value(), row, rowIndex, 0, p);
      assert row[0..] == row;
      for i := 0 to |row|
        invariant path.Value() == p
        invariant WalkRow(e, Value(), row[i..], rowIndex, i, p) == goal
      {
        if stopValidation {
          return;
        }
        assert row[i..][1..] == row[i + 1..];
        ValidateCell(row[i], path, InFieldAt2(RowsField, rowIndex, i));
      }
    }

    method CountCells(headers: seq<Cell>, rows: seq<seq<Cell>>) returns (cellCount: nat)
      ensures cellCount == CellCount(headers, rows)
    {
      cellCount := |headers|;
      assert rows[0..] == rows;
      for i := 0 to |rows|
        invariant cellCount + RowsCells(rows[i..]) == CellCount(headers, rows)
      {
        assert rows[i..][1..] == rows[i + 1..];
        cellCount := cellCount + |rows[i]|;
      }
    }

    method ValidateRows(rows: seq<seq<Cell>>, path: PathSlice)
      requires path.Valid()
      modifies this, path.arr
      ensures path.Value() == old(path.Value())
      ensures Value() == WalkRows(e, old(Value()), rows, 0, path.Value())
    {
      ghost var p := path.Value();
      ghost var goal := WalkRows(e, Value(), rows, 0, p);
      assert rows[0..] == rows;
      for i := 0 to |rows|
        invariant path.Value() == p
        invariant WalkRows(e, Value(), rows[i..], i, p) == goal
      {
        if stopValidation {
          return;
        }
        assert rows[i..][1..] == rows[i + 1..];
        ValidateRow(rows[i], i, path);
      }
    }

    method ValidateTable(headers: seq<Cell>, rows: seq<seq<Cell>>, path: PathSlice)
      requires path.Valid()
      modifies this, path.arr
      ensures path.Value() == old(path.Value())
      ensures Value() == WalkTable(e, old(Value()), headers, rows, path.Value())
    {
      var cellCount := CountCells(headers, rows);
      tableCellCount := tableCellCount + cellCount;
      if tableCellCount > e.policy.maxCells {
        AddErrorAt(path, TABLE_TOO_LARGE);
        StopAfterHardLimit();
        return;
      }
      ValidateHeaders(headers, path);
      ValidateRows(rows, path);
    }

    // ----------------------------------------------------------------- leaf blocks

    method ValidateExternalEmbed(provider: string, url: string, path: PathSlice)
      requires path.Valid()
      modifies this, path.arr
      ensures path.Value() == old(path.Value())
      ensures Value() == WalkEmbed(e, old(Value()), provider, url, path.Value())
    {
      if provider != ImageProvider {
        AddErrorIn(path, InField(ProviderField), EXTERNAL_EMBED_PROVIDER_NOT_ALLOWED);
      }
      match e.sanitize(url)
      case None => AddErrorIn(path, InField(UrlField), EXTERNAL_EMBED_URL_UNSAFE);
      case Some(safeUrl) => AddExternalLink(path, InField(UrlField), safeUrl);
    }

    method ValidateAttachmentGallery(attachments: Attachments, path: PathSlice)
      requires path.Valid()
      modifies this, path.arr
      ensures path.Value() == old(path.Value())
      ensures Value() ==
                match attachments
                case NilAttachments => AddError(e.policy, old(Value()), path.Value(), ATTACHMENT_GALLERY_ITEMS_INVALID)
                case Attachments(ids) => WalkFiles(e, old(Value()), ids, 0, path.Value())
    {
      if attachments.NilAttachments? {
        AddErrorAt(path, ATTACHMENT_GALLERY_ITEMS_INVALID);
        return;
      }
      var ids := attachments.fileIds;
      ghost var p := path.Value();
      assert ids[0..] == ids;
      for i := 0 to |ids|
        invariant path.Value() == p
        invariant WalkFiles(e, Value(), ids[i..], i, p) == WalkFiles(e, old(Value()), ids, 0, p)
      {
        assert ids[i..][1..] == ids[i + 1..];
        var fileId := TrimSpace(ids[i]);
        if fileId == "" {
          var itemPath := Append(path, AtIndex(i));
          AddErrorIn(itemPath, InField(FileIdField), MEDIA_REF_INVALID);
          continue;
        }
        mediaRefs := mediaRefs + [fileId];
      }
    }

    method ValidateTextBlock(children: seq<Inline>, path: PathSlice)
      requires path.Valid()
      modifies this, path.arr
      ensures path.Value() == old(path.Value())
      ensures Value() == WalkTextBlock(e, old(Value()), children, path.Value())
    {
      var childrenPath := Append(path, InField(ChildrenField));
      var text := ValidateInlineNodes(children, childrenPath);
      AppendPlainText(text);
    }

    method ValidateLimited(text: string, limit: int, path: PathSlice, part: PathPart, code: ErrorCode)
      requires path.Valid()
      modifies this, path.arr
      ensures path.Value() == old(path.Value())
      ensures Value() == WalkLimited(e.policy, old(Value()), text, limit, path.Value() + [part], code)
    {
      if |text| > limit {
        AddErrorIn(path, part, code);
      }
      AppendPlainText(text);
    }

    method ValidateLeaf(block: Block, path: PathSlice)
      requires path.Valid() && !IsContainer(block)
      modifies this, path.arr
      ensures path.Value() == old(path.Value())
      ensures Value() == WalkLeaf(e, old(Value()), block, path.Value())
    {
      match block
      case NilBlock => AddErrorIn(path, InField(TypeField), BLOCK_TYPE_REQUIRED);
      case Unsupported(kind) =>
        AddErrorIn(path, InField(TypeField), if kind == "" then BLOCK_TYPE_REQUIRED else BLOCK_TYPE_NOT_ENABLED);
      case Foreign => AddErrorIn(path, InField(TypeField), BLOCK_TYPE_NOT_ENABLED);
      case Paragraph(children) => ValidateTextBlock(children, path);
      case Heading(_, children) => ValidateTextBlock(children, path);
      case Code(code, _) => ValidateLimited(code, e.policy.maxCode, path, InField(CodeField), CODE_BLOCK_TOO_LONG);
      case Math(latex) => ValidateLimited(latex, e.policy.maxLatex, path, InField(LatexField), MATH_LATEX_TOO_LONG);
      case Table(headers, rows) => ValidateTable(headers, rows, path);
      case Image(fileId, _) =>
        var trimmed := TrimSpace(fileId);
        if trimmed == "" {
          AddErrorIn(path, InField(FileIdField), MEDIA_REF_INVALID);
          return;
        }
        mediaRefs := mediaRefs + [trimmed];
      case Embed(provider, url, _) => ValidateExternalEmbed(provider, url, path);
      case Gallery(attachments) =>
        var itemsPath := Append(path, InField(ItemsField));
        ValidateAttachmentGallery(attachments, itemsPath);
    }

    // ---------------------------------------------------------------- block trees

    method ValidateContainerDepth(path: PathSlice, parentDepth: nat)
      requires path.Valid()
      modifies this
      ensures Value() == CheckDepth(e.policy, old(Value()), path.Value(), parentDepth)
    {
      if parentDepth + 1 > e.policy.maxDepth {
        AddErrorAt(path, BODY_CONTAINER_TOO_DEEP);
        StopAfterHardLimit();
      }
    }

    method CountValidatedBlock() returns (over: bool)
      modifies this
      ensures Value() == CountBlock(e.policy, old(Value()))
      ensures over <==> blockCount > e.policy.maxBlocks
    {
      blockCount := blockCount + 1;
      over := blockCount > e.policy.maxBlocks;
      if over {
        RejectAtRoot(BODY_BLOCK_COUNT_EXCEEDED);
      }
    }

    method ValidateBlocks(blocks: seq<Block>, path: PathSlice, containerDepth: nat)
      requires path.Valid()
      modifies this, path.arr
      ensures path.Value() == old(path.Value())
      ensures Value() == WalkBlocks(e, old(Value()), blocks, 0, path.Value(), containerDepth)
      decreases blocks
    {
      ghost var p := path.Value();
      ghost var goal := WalkBlocks(e, Value(), blocks, 0, p, containerDepth);
      assert blocks[0..] == blocks;
      for i := 0 to |blocks|
        invariant path.Value() == p
        invariant WalkBlocks(e, Value(), blocks[i..], i, p, containerDepth) == goal
      {
        if stopValidation {
          return;
        }
        assert blocks[i..][1..] == blocks[i + 1..];
        var blockPath := Append(path, AtIndex(i));
        ValidateBlock(blocks[i], blockPath, containerDepth);
      }
    }

    method ValidateListItems(items: seq<ListItem>, path: PathSlice, containerDepth: nat)
      requires path.Valid()
      modifies this, path.arr
      ensures path.Value() == old(path.Value())
      ensures Value() == WalkItems(e, old(Value()), items, 0, path.Value(), containerDepth)
      decreases items
    {
      ghost var p := path.Value();
      ghost var goal := WalkItems(e, Value(), items, 0, p, containerDepth);
      assert items[0..] == items;
      for i := 0 to |items|
        invariant path.Value() == p
        invariant WalkItems(e, Value(), items[i..], i, p, containerDepth) == goal
      {
        if stopValidation {
          return;
        }
        assert items[i..][1..] == items[i + 1..];
        var itemPath := Append(path, AtIndex(i));
        var blocksPath := Append(itemPath, InField(BlocksField));
        ValidateBlocks(items[i].blocks, blocksPath, containerDepth);
      }
    }

    method ValidateContainer(block: Block, path: PathSlice, containerDepth: nat)
      requires path.Valid() && IsContainer(block)
      modifies this, path.arr
      ensures path.Value() == old(path.Value())
      ensures Value() == WalkContainer(e, old(Value()), block, path.Value(), containerDepth)
      decreases block, 0
    {
      match block
      case Quote(blocks) =>
        var blocksPath := Append(path, InField(BlocksField));
        ValidateBlocks(blocks, blocksPath, containerDepth);
      case List(items) =>
        var itemsPath := Append(path, InField(ItemsField));
        if items.NilItems? {
          AddErrorAt(itemsPath, LIST_ITEMS_INVALID);
          return;
        }
        ValidateListItems(items.items, itemsPath, containerDepth);
      case Collapsible(title, blocks) =>
        var titlePath := Append(path, InField(TitleField));
        var _ := ValidateInlineNodes(title, titlePath);
        if stopValidation {
          return;
        }
        var blocksPath := Append(path, InField(BlocksField));
        ValidateBlocks(blocks, blocksPath, containerDepth);
    }

    method ValidateBlock(block: Block, path: PathSlice, containerDepth: nat)
      requires path.Valid()
      modifies this, path.arr
      ensures path.Value() == old(path.Value())
      ensures Value() == WalkBlock(e, old(Value()), block, path.Value(), containerDepth)
      decreases block, 2
    {
      var over := CountValidatedBlock();
      if over {
        return;
      }
      ValidateInner(block, path, containerDepth);
    }

    method ValidateInner(block: Block, path: PathSlice, containerDepth: nat)
      requires path.Valid()
      modifies this, path.arr
      ensures path.Value() == old(path.Value())
      ensures Value() == WalkInner(e, old(Value()), block, path.Value(), containerDepth)
      decreases block, 1
    {
      if !IsContainer(block) {
        ValidateLeaf(block, path);
        return;
      }
      ValidateContainerDepth(path, containerDepth);
      if stopValidation {
        return;
      }
      ValidateContainer(block, path, containerDepth + 1);
    }
  }

  // ---------------------------------------------------------------- canonicalise

  method CanonicalizeMarks(z: Sanitizer, marks: seq<Mark>) returns (canonical: seq<CMark>)
    ensures canonical == CanonMarks(z, marks)
  {
    canonical := [];
    assert marks[0..] == marks;
    for i := 0 to |marks|
      invariant canonical + CanonMarks(z, marks[i..]) == CanonMarks(z, marks)
    {
      assert marks[i..][1..] == marks[i + 1..];
      canonical := canonical + [CanonMark(z, marks[i])];
    }
  }

  method CanonicalizeInlineNodes(z: Sanitizer, nodes: seq<Inline>) returns (canonical: seq<CInline>)
    ensures canonical == CanonInlines(z, nodes)
  {
    canonical := [];
    assert nodes[0..] == nodes;
    for i := 0 to |nodes|
      invariant canonical + CanonInlines(z, nodes[i..]) == CanonInlines(z, nodes)
    {
      assert nodes[i..][1..] == nodes[i + 1..];
      var marks := CanonicalizeMarks(z, nodes[i].marks);
      canonical := canonical + [CInline(TextKind, nodes[i].text, marks)];
    }
  }

  method CanonicalizeTableCells(z: Sanitizer, cells: seq<Cell>) returns (canonical: seq<CCell>)
    ensures canonical == CanonCells(z, cells)
  {
    canonical := [];
    assert cells[0..] == cells;
    for i := 0 to |cells|
      invariant canonical + CanonCells(z, cells[i..]) == CanonCells(z, cells)
    {
      assert cells[i..][1..] == cells[i + 1..];
      var children := CanonicalizeInlineNodes(z, cells[i].children);
      canonical := canonical + [CCell(children)];
    }
  }

  method CanonicalizeTableRows(z: Sanitizer, rows: seq<seq<Cell>>) returns (canonical: seq<seq<CCell>>)
    ensures canonical == CanonRows(z, rows)
  {
    canonical := [];
    assert rows[0..] == rows;
    for i := 0 to |rows|
      invariant canonical + CanonRows(z, rows[i..]) == CanonRows(z, rows)
    {
      assert rows[i..][1..] == rows[i + 1..];
      var row := CanonicalizeTableCells(z, rows[i]);
      canonical := canonical + [row];
    }
  }

  method CanonicalizeAttachmentItems(ids: seq<string>) returns (canonical: seq<string>)
    ensures canonical == CanonFiles(ids)
  {
    canonical := [];
    assert ids[0..] == ids;
    for i := 0 to |ids|
      invariant canonical + CanonFiles(ids[i..]) == CanonFiles(ids)
    {
      assert ids[i..][1..] == ids[i + 1..];
      canonical := canonical + [TrimSpace(ids[i])];
    }
  }

  method CanonicalizeListItems(z: Sanitizer, items: seq<ListItem>) returns (canonical: seq<CItem>)
    ensures canonical == CanonItems(z, items)
    decreases items
  {
    canonical := [];
    assert items[0..] == items;
    for i := 0 to |items|
      invariant canonical + CanonItems(z, items[i..]) == CanonItems(z, items)
    {
      assert items[i..][1..] == items[i + 1..];
      var blocks := CanonicalizeBlocks(z, items[i].blocks);
      canonical := canonical + [CItem(blocks)];
    }
  }

  method CanonicalizeBlocks(z: Sanitizer, blocks: seq<Block>) returns (canonical: seq<CBlock>)
    ensures canonical == CanonBlocks(z, blocks)
    decreases blocks
  {
    canonical := [];
    assert blocks[0..] == blocks;
    for i := 0 to |blocks|
      invariant canonical + CanonBlocks(z, blocks[i..]) == CanonBlocks(z, blocks)
    {
      assert blocks[i..][1..] == blocks[i + 1..];
      var block := CanonicalizeBlock(z, blocks[i]);
      canonical := canonical + [block];
    }
  }

  method CanonicalizeBlock(z: Sanitizer, block: Block) returns (canonical: CBlock)
    ensures canonical == CanonBlock(z, block)
    decreases block
  {
    match block
    case Paragraph(children) =>
      var inlines := CanonicalizeInlineNodes(z, children);
      canonical := CParagraph(inlines);
    case Heading(level, children) =>
      var inlines := CanonicalizeInlineNodes(z, children);
      canonical := CHeading(level, inlines);
    case Quote(blocks) =>
      var inner := CanonicalizeBlocks(z, blocks);
      canonical := CQuote(inner);
    case List(NilItems) =>
      canonical := CList(ItemsAbsent);
    case List(Items(items)) =>
      var inner := CanonicalizeListItems(z, items);
      canonical := CList(OmitEmptyItems(inner));
    case Code(code, language) =>
      canonical := CCode(code, language);
    case Table(headers, rows) =>
      var cells := CanonicalizeTableCells(z, headers);
      var body := CanonicalizeTableRows(z, rows);
      canonical := CTable(cells, body);
    case Collapsible(title, blocks) =>
      var inlines := CanonicalizeInlineNodes(z, title);
      var inner := CanonicalizeBlocks(z, blocks);
      canonical := CCollapsible(inlines, inner);
    case Math(latex) =>
      canonical := CMath(latex);
    case Image(fileId, alt) =>
      canonical := CImage(TrimSpace(fileId), alt);
    case Embed(provider, url, caption) =>
      canonical := CEmbed(provider, SafeUrl(z, url), caption);
    case Gallery(NilAttachments) =>
      canonical := CGallery(FilesAbsent);
    case Gallery(Attachments(ids)) =>
      var files := CanonicalizeAttachmentItems(ids);
      canonical := CGallery(OmitEmptyFiles(files));
    case _ =>
      canonical := CUntyped;
  }

  // ------------------------------------------------------------------------ Parse

  /** An accepted body keeps its content; a rejected one that breaks no hard limit is
      rejected with the first of its flaws. */
  ghost predicate Answers(e: Env, input: Input, r: ParseResult)
    requires e.policy.Positive()
  {
    if r.Accepted? then
      && r.body.canonical.schemaVersion == input.schemaVersion
      && BodyFaithful.HoldsBlocks(r.body.canonical.blocks, DecodeBlocks(r.body.canonical.blocks))
      && BodyFaithful.SameBlocks(e.sanitize, TopBlocks(input), DecodeBlocks(r.body.canonical.blocks))
    else
      BodyDiagnosis.WithinHardLimits(e, input) ==>
        r.details == if BodyDiagnosis.Report(e, input) == [] then [Detail("blocks", BODY_TOO_LARGE)]
                     else BodyDiagnosis.FirstErrors(e, input)
  }

  lemma ParseAnswers(e: Env, input: Input)
    requires e.policy.Positive()
    ensures Answers(e, input, Parse(e, input))
  {
    if Parse(e, input).Accepted? {
      BodyFaithful.AcceptedBodyIsFaithful(e, input);
    } else if BodyDiagnosis.WithinHardLimits(e, input) {
      BodyDiagnosis.ReportIsExact(e, input);
    }
  }

  /** V1BodyParser.Parse. */
  method ParseBody(e: Env, input: Input) returns (r: ParseResult)
    ensures r == Parse(e, input)
    ensures e.policy.Positive() ==> Answers(e, input, r)
  {
    r := ValidateAndCanonicalize(e, input);
    if e.policy.Positive() {
      ParseAnswers(e, input);
    }
  }

  method ValidateAndCanonicalize(e: Env, input: Input) returns (r: ParseResult)
    ensures r == Parse(e, input)
  {
    var blocksPath := RootPath(BlocksField);
    var state := new ParserState(e);
    if input.schemaVersion != 1 {
      var schemaPath := RootPath(SchemaVersionField);
      state.AddErrorAt(schemaPath, BODY_SCHEMA_UNSUPPORTED);
    }
    if input.body.NilBlocks? {
      state.AddErrorAt(blocksPath, BODY_SCHEMA_INVALID);
    }
    assert state.Value() == Opened(e.policy, input);
    state.ValidateBlocks(TopBlocks(input), blocksPath, 0);
    var plainText := Join(state.plainTextBlocks);
    if |plainText| > e.policy.maxPlainText {
      state.AddErrorAt(blocksPath, BODY_TEXT_TOO_LONG);
    }
    assert state.Value() == Checked(e, input);
    if |state.details| > 0 {
      return Rejected(state.details, state.truncated);
    }
    var blocks := CanonicalizeBlocks(e.sanitize, TopBlocks(input));
    var canonical := CBody(input.schemaVersion, blocks);
    assert canonical == CanonBody(e.sanitize, input);
    if e.size(canonical) > e.policy.maxCanonicalBytes {
      return Rejected([Detail("blocks", BODY_TOO_LARGE)], false);
    }
    r := Accepted(NormalizedBody(plainText, state.mediaRefs, state.externalLinks, canonical,
                                 e.hash(canonical), e.size(canonical), state.blockCount));
  }
}
