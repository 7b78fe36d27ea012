/** The entities the body parser works on: block trees as the JSON decoder hands
    them over, the validation policy, error details, and the path notation used
    in error details. A Go slice that may be nil is a datatype of its own wherever
    the code tells nil from empty; everywhere else it is a plain sequence. */
module Body {

  datatype Option<+T> = None | Some(value: T)

  datatype Mark = Mark(kind: string, href: string)

  datatype Inline = Inline(kind: string, text: string, marks: seq<Mark>)

  datatype Cell = Cell(children: seq<Inline>)

  datatype ListItem = ListItem(blocks: seq<Block>)

  datatype ItemList = NilItems | Items(items: seq<ListItem>)

  datatype Attachments = NilAttachments | Attachments(fileIds: seq<string>)

  datatype Block =
    | NilBlock                     // nil interface or typed nil pointer
    | Unsupported(kind: string)    // an unknown "type" met while decoding
    | Foreign                      // a Block implementation of some other package
    | Paragraph(children: seq<Inline>)
    | Heading(level: int, children: seq<Inline>)
    | Quote(blocks: seq<Block>)
    | List(items: ItemList)
    | Code(code: string, language: string)
    | Table(headers: seq<Cell>, rows: seq<seq<Cell>>)
    | Collapsible(title: seq<Inline>, blocks: seq<Block>)
    | Math(latex: string)
    | Image(fileId: string, alt: string)
    | Embed(provider: string, url: string, caption: string)
    | Gallery(attachments: Attachments)

  datatype BlockList = NilBlocks | Blocks(blocks: seq<Block>)

  datatype Input = Input(schemaVersion: int, body: BlockList)

  datatype Policy = Policy(
    maxCanonicalBytes: int,
    maxPlainText: int,
    maxBlocks: int,
    maxInlines: int,
    maxDepth: int,
    maxCells: int,
    maxLatex: int,
    maxCode: int,
    maxLinks: int,
    maxErrors: int)
  {
    predicate Positive() {
      && maxCanonicalBytes > 0 && maxPlainText > 0 && maxBlocks > 0 && maxInlines > 0
      && maxDepth > 0 && maxCells > 0 && maxLatex > 0 && maxCode > 0 && maxLinks > 0
      && maxErrors > 0
    }
  }

  const DefaultPolicy: Policy :=
    Policy(256 * 1024, 20000, 1000, 5000, 2, 1000, 3000, 20000, 200, 20)

  function OrDefault(limit: int, default: int): int {
    if limit == 0 then default else limit
  }

  /** NewV1BodyParser replaces zero limits only. */
  function Normalized(p: Policy): Policy {
    var d := DefaultPolicy;
    Policy(
      OrDefault(p.maxCanonicalBytes, d.maxCanonicalBytes),
      OrDefault(p.maxPlainText, d.maxPlainText),
      OrDefault(p.maxBlocks, d.maxBlocks),
      OrDefault(p.maxInlines, d.maxInlines),
      OrDefault(p.maxDepth, d.maxDepth),
      OrDefault(p.maxCells, d.maxCells),
      OrDefault(p.maxLatex, d.maxLatex),
      OrDefault(p.maxCode, d.maxCode),
      OrDefault(p.maxLinks, d.maxLinks),
      OrDefault(p.maxErrors, d.maxErrors))
  }

  // ---------------------------------------------------------------- error paths

  datatype Field =
    | NoField | SchemaVersionField | BlocksField | TypeField | ChildrenField | ItemsField
    | TitleField | CodeField | LatexField | FileIdField | MarksField | HrefField
    | HeadersField | RowsField | ProviderField | UrlField

  datatype PathPart = PathPart(field: Field, index0: nat, index1: nat, indexCount: nat)

  function InField(f: Field): PathPart { PathPart(f, 0, 0, 0) }

  function AtIndex(i: nat): PathPart { PathPart(NoField, i, 0, 1) }

  function InFieldAt(f: Field, i: nat): PathPart { PathPart(f, i, 0, 1) }

  function InFieldAt2(f: Field, i: nat, j: nat): PathPart { PathPart(f, i, j, 2) }

  function FieldText(f: Field): string {
    match f
    case NoField => ""
    case SchemaVersionField => "schemaVersion"
    case BlocksField => "blocks"
    case TypeField => "type"
    case ChildrenField => "children"
    case ItemsField => "items"
    case TitleField => "title"
    case CodeField => "code"
    case LatexField => "latex"
    case FileIdField => "fileId"
    case MarksField => "marks"
    case HrefField => "href"
    case HeadersField => "headers"
    case RowsField => "rows"
    case ProviderField => "provider"
    case UrlField => "url"
  }

  function Itoa(n: nat): string {
    if n < 10 then [('0' as int + n) as char] else Itoa(n / 10) + [('0' as int + n % 10) as char]
  }

  function PartText(part: PathPart, first: bool): string {
    (if part.field == NoField then "" else (if first then "" else ".") + FieldText(part.field))
    + (if part.indexCount >= 1 then "[" + Itoa(part.index0) + "]" else "")
    + (if part.indexCount >= 2 then "[" + Itoa(part.index1) + "]" else "")
  }

  /** The dotted text of a path, part by part from the root. */
  function PathText(path: seq<PathPart>): string {
    if path == [] then ""
    else PathText(path[..|path| - 1]) + PartText(path[|path| - 1], |path| == 1)
  }

  datatype ErrorCode =
    | BODY_SCHEMA_UNSUPPORTED | BODY_SCHEMA_INVALID | BODY_TEXT_TOO_LONG | BODY_TOO_LARGE
    | BODY_BLOCK_COUNT_EXCEEDED | BODY_INLINE_NODE_COUNT_EXCEEDED | BODY_CONTAINER_TOO_DEEP
    | BODY_EXTERNAL_LINK_COUNT_EXCEEDED | TABLE_TOO_LARGE
    | BLOCK_TYPE_REQUIRED | BLOCK_TYPE_NOT_ENABLED | CODE_BLOCK_TOO_LONG | MATH_LATEX_TOO_LONG
    | MEDIA_REF_INVALID | INLINE_NODE_UNSUPPORTED | INLINE_MARK_TYPE_REQUIRED
    | INLINE_MARK_UNSUPPORTED | LINK_HREF_UNSAFE | LIST_ITEMS_INVALID
    | EXTERNAL_EMBED_PROVIDER_NOT_ALLOWED | EXTERNAL_EMBED_URL_UNSAFE
    | ATTACHMENT_GALLERY_ITEMS_INVALID

  datatype Detail = Detail(path: string, code: ErrorCode)

  // ---------------------------------------------------------------- text helpers

  /** unicode.IsSpace. */
  predicate IsSpace(c: char) {
    || '\t' <= c <= '\r' || c == ' ' || c == '\U{85}' || c == '\U{A0}' || c == '\U{1680}'
    || '\U{2000}' <= c <= '\U{200A}' || c == '\U{2028}' || c == '\U{2029}' || c == '\U{202F}'
    || c == '\U{205F}' || c == '\U{3000}'
  }

  /** strings.TrimSpace. */
  function TrimSpace(s: string): (t: string)
    ensures t == [] || (!IsSpace(t[0]) && !IsSpace(t[|t| - 1]))
    decreases |s|
  {
    if s == [] then s
    else if IsSpace(s[0]) then TrimSpace(s[1..])
    else if IsSpace(s[|s| - 1]) then TrimSpace(s[..|s| - 1])
    else s
  }

  lemma TrimSpaceIdempotent(s: string)
    ensures TrimSpace(TrimSpace(s)) == TrimSpace(s)
  {
  }

  /** `t` is `s` without `i` white-space characters in front and those from `j` on. */
  ghost predicate Trims(s: string, t: string, i: nat, j: nat) {
    && i <= j <= |s| && t == s[i..j]
    && (forall k :: 0 <= k < i ==> IsSpace(s[k])) && (forall k :: j <= k < |s| ==> IsSpace(s[k]))
  }

  /** Trimming removes white space from both ends and nothing else. */
  lemma {:induction false} TrimSpaceTrims(s: string)
    ensures exists i: nat, j: nat :: Trims(s, TrimSpace(s), i, j)
    decreases |s|
  {
    if s == [] || !(IsSpace(s[0]) || IsSpace(s[|s| - 1])) {
      assert Trims(s, TrimSpace(s), 0, |s|);
    } else if IsSpace(s[0]) {
      TrimSpaceTrims(s[1..]);
      var i: nat, j: nat :| Trims(s[1..], TrimSpace(s[1..]), i, j);
      assert s[1..][i..j] == s[i + 1..j + 1];
      assert forall k :: 0 < k < i + 1 ==> s[k] == s[1..][k - 1];
      assert forall k :: j + 1 <= k < |s| ==> s[k] == s[1..][k - 1];
      assert Trims(s, TrimSpace(s), i + 1, j + 1);
    } else {
      TrimSpaceTrims(s[..|s| - 1]);
      var i: nat, j: nat :| Trims(s[..|s| - 1], TrimSpace(s[..|s| - 1]), i, j);
      assert s[..|s| - 1][i..j] == s[i..j];
      assert Trims(s, TrimSpace(s), i, j);
    }
  }

  function Join(texts: seq<string>): string {
    if texts == [] then ""
    else if |texts| == 1 then texts[0]
    else texts[0] + "\n" + Join(texts[1..])
  }

  /** Joining puts one line break between two texts, and none at the ends. */
  lemma {:induction false} JoinAdds(texts: seq<string>, last: string)
    ensures Join(texts + [last]) == if texts == [] then last else Join(texts) + "\n" + last
    decreases |texts|
  {
    if |texts| > 0 {
      JoinAdds(texts[1..], last);
      assert (texts + [last])[1..] == texts[1..] + [last];
      if |texts| > 1 {
        assert texts[0] + "\n" + (Join(texts[1..]) + "\n" + last) == texts[0] + "\n" + Join(texts[1..]) + "\n" + last;
      }
    }
  }

  function OneText(text: string): seq<string> {
    if text == "" then [] else [text]
  }

  predicate IsPlainMark(kind: string) {
    kind in ["bold", "italic", "underline", "strike", "inline_code"]
  }

  const TextKind := "text"
  const LinkKind := "link"
  const ImageProvider := "image"
}
