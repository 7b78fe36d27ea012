/** The dotted text of an error path determines the path: from the text alone a
    reader finds the one node it was written for. */
module BodyPaths {
  import opened Body

  // -------------------------------------------------------------------- numbers

  predicate IsDigits(s: string) {
    forall i :: 0 <= i < |s| ==> '0' <= s[i] <= '9'
  }

  /** The number a string of decimal digits stands for. */
  function Atoi(s: string): nat
    requires IsDigits(s)
  {
    if s == "" then 0 else 10 * Atoi(s[..|s| - 1]) + (s[|s| - 1] as int - '0' as int)
  }

  lemma {:induction false} ItoaReadsBack(n: nat)
    ensures Itoa(n) != "" && IsDigits(Itoa(n)) && Atoi(Itoa(n)) == n
  {
    if n < 10 {
      assert Itoa(n)[..0] == "";
    } else {
      ItoaReadsBack(n / 10);
      assert Itoa(n)[..|Itoa(n)| - 1] == Itoa(n / 10);
    }
  }

  // --------------------------------------------------------------------- tokens

  /** A path as its text spells it out: names after dots, numbers in brackets. */
  datatype Token = Name(field: Field) | Index(number: nat)

  function TokenText(t: Token): string {
    match t
    case Name(f) => "." + FieldText(f)
    case Index(n) => "[" + Itoa(n) + "]"
  }

  function Spelled(ts: seq<Token>): string {
    if ts == [] then "" else Spelled(ts[..|ts| - 1]) + TokenText(ts[|ts| - 1])
  }

  function FieldOf(name: string): Field {
    if name == "schemaVersion" then SchemaVersionField
    else if name == "blocks" then BlocksField
    else if name == "type" then TypeField
    else if name == "children" then ChildrenField
    else if name == "items" then ItemsField
    else if name == "title" then TitleField
    else if name == "code" then CodeField
    else if name == "latex" then LatexField
    else if name == "fileId" then FileIdField
    else if name == "marks" then MarksField
    else if name == "href" then HrefField
    else if name == "headers" then HeadersField
    else if name == "rows" then RowsField
    else if name == "provider" then ProviderField
    else if name == "url" then UrlField
    else NoField
  }

  lemma FieldNamesDiffer(f: Field)
    ensures FieldOf(FieldText(f)) == f
  {
    match f
    case NoField =>
    case SchemaVersionField =>
    case BlocksField =>
    case TypeField =>
    case ChildrenField =>
    case ItemsField =>
    case TitleField =>
    case CodeField =>
    case LatexField =>
    case FileIdField =>
    case MarksField =>
    case HrefField =>
    case HeadersField =>
    case RowsField =>
    case ProviderField =>
    case UrlField =>
  }

  predicate Lacks(s: string, c: char) {
    forall i :: 0 <= i < |s| ==> s[i] != c
  }

  /** No mark of the notation occurs in a field name. */
  lemma FieldNamesArePlain(f: Field, c: char)
    requires c == '.' || c == '[' || c == ']'
    ensures Lacks(FieldText(f), c)
  {
  }

  lemma AfterLast(c: char, u: string, d: string)
    requires Lacks(d, c)
    ensures var s := u + [c] + d; forall k :: |u| < k < |s| ==> s[k] != c
  {
    var s := u + [c] + d;
    forall k | |u| < k < |s| ensures s[k] != c {
      assert s[k] == d[k - |u| - 1];
    }
  }

  /** Two texts split at the last `c` in each. */
  lemma SplitAtLast(c: char, u: string, d: string, v: string, e: string)
    requires Lacks(d, c) && Lacks(e, c)
    requires u + [c] + d == v + [c] + e
    ensures u == v && d == e
  {
    var s, s' := u + [c] + d, v + [c] + e;
    assert s[|u|] == c && s'[|v|] == c;
    AfterLast(c, u, d);
    AfterLast(c, v, e);
    assert s[..|u|] == u && s[|u| + 1..] == d;
    assert s'[..|v|] == v && s'[|v| + 1..] == e;
  }

  ghost predicate Named(ts: seq<Token>) {
    forall i :: 0 <= i < |ts| ==> ts[i] != Name(NoField)
  }

  lemma TokenEnd(u: string, x: Token)
    requires x != Name(NoField)
    ensures u + TokenText(x) != ""
    ensures var s := u + TokenText(x); s[|s| - 1] == ']' <==> x.Index?
  {
    var s := u + TokenText(x);
    match x
    case Name(f) =>
      FieldNamesArePlain(f, ']');
      assert FieldText(f) != "" && s[|s| - 1] == FieldText(f)[|FieldText(f)| - 1];
    case Index(n) =>
  }

  lemma LastWord(u: string, x: string, v: string, y: string)
    requires Lacks(x, '.') && Lacks(y, '.') && u + ("." + x) == v + ("." + y)
    ensures u == v && x == y
  {
    assert u + ("." + x) == u + ['.'] + x;
    assert v + ("." + y) == v + ['.'] + y;
    SplitAtLast('.', u, x, v, y);
  }

  lemma LastName(u: string, f: Field, v: string, g: Field)
    requires u + TokenText(Name(f)) == v + TokenText(Name(g))
    ensures u == v && f == g
  {
    FieldNamesArePlain(f, '.');
    FieldNamesArePlain(g, '.');
    FieldNamesDiffer(f);
    FieldNamesDiffer(g);
    LastWord(u, FieldText(f), v, FieldText(g));
  }

  lemma LastIndex(u: string, n: nat, v: string, m: nat)
    requires u + TokenText(Index(n)) == v + TokenText(Index(m))
    ensures u == v && n == m
  {
    ItoaReadsBack(n);
    ItoaReadsBack(m);
    var s, s' := u + TokenText(Index(n)), v + TokenText(Index(m));
    var i, j := Itoa(n), Itoa(m);
    assert s[..|s| - 1] == u + ['['] + i;
    assert s'[..|s'| - 1] == v + ['['] + j;
    SplitAtLast('[', u, i, v, j);
  }

  /** The last token of a text, and the text in front of it. */
  lemma LastToken(u: string, x: Token, v: string, y: Token)
    requires x != Name(NoField) && y != Name(NoField)
    requires u + TokenText(x) == v + TokenText(y)
    ensures u == v && x == y
  {
    TokenEnd(u, x);
    TokenEnd(v, y);
    if x.Name? {
      LastName(u, x.field, v, y.field);
    } else {
      LastIndex(u, x.number, v, y.number);
    }
  }

  lemma {:induction false} LastTokenOnce(ts: seq<Token>, us: seq<Token>)
    requires Named(ts) && Named(us) && ts != [] && us != []
    requires Spelled(ts) == Spelled(us)
    ensures Spelled(ts[..|ts| - 1]) == Spelled(us[..|us| - 1]) && ts[|ts| - 1] == us[|us| - 1]
  {
    LastToken(Spelled(ts[..|ts| - 1]), ts[|ts| - 1], Spelled(us[..|us| - 1]), us[|us| - 1]);
  }

  lemma {:induction false} SameInitAndLast<T>(xs: seq<T>, ys: seq<T>)
    requires xs != [] && ys != [] && xs[..|xs| - 1] == ys[..|ys| - 1] && xs[|xs| - 1] == ys[|ys| - 1]
    ensures xs == ys
  {
    assert xs == xs[..|xs| - 1] + [xs[|xs| - 1]];
    assert ys == ys[..|ys| - 1] + [ys[|ys| - 1]];
  }

  lemma {:induction false} SpelledSomething(ts: seq<Token>)
    requires Named(ts) && ts != []
    ensures Spelled(ts) != ""
  {
    TokenEnd(Spelled(ts[..|ts| - 1]), ts[|ts| - 1]);
  }

  lemma {:induction false} SpelledOnce(ts: seq<Token>, us: seq<Token>)
    requires Named(ts) && Named(us) && Spelled(ts) == Spelled(us)
    ensures ts == us
    decreases |ts|
  {
    if ts == [] {
      if us != [] {
        SpelledSomething(us);
      }
    } else if us == [] {
      SpelledSomething(ts);
    } else {
      LastTokenOnce(ts, us);
      SpelledOnce(ts[..|ts| - 1], us[..|us| - 1]);
      SameInitAndLast(ts, us);
    }
  }

  // ---------------------------------------------------------------------- paths

  /** The parts the parser builds: an index, a header cell, a row cell or a field. */
  predicate WellFormed(part: PathPart) {
    if part.field == NoField then part == AtIndex(part.index0)
    else if part.field == HeadersField then part == InFieldAt(HeadersField, part.index0)
    else if part.field == RowsField then part == InFieldAt2(RowsField, part.index0, part.index1)
    else part == InField(part.field)
  }

  predicate WellFormedPath(path: seq<PathPart>) {
    && path != [] && path[0].field != NoField
    && forall i :: 0 <= i < |path| ==> WellFormed(path[i])
  }

  predicate AllWellFormed(path: seq<PathPart>) {
    forall i :: 0 <= i < |path| ==> WellFormed(path[i])
  }

  function PartTokens(part: PathPart): seq<Token> {
    if part.field == NoField then [Index(part.index0)]
    else if part.field == HeadersField then [Name(HeadersField), Index(part.index0)]
    else if part.field == RowsField then [Name(RowsField), Index(part.index0), Index(part.index1)]
    else [Name(part.field)]
  }

  function Tokens(path: seq<PathPart>): seq<Token> {
    if path == [] then [] else Tokens(path[..|path| - 1]) + PartTokens(path[|path| - 1])
  }

  lemma Regroup(a: string, b: string, c: string)
    ensures a + b + c == a + (b + c)
  {
  }

  lemma {:induction false} SpelledStep(ts: seq<Token>, t: Token)
    ensures Spelled(ts + [t]) == Spelled(ts) + TokenText(t)
  {
    assert (ts + [t])[..|ts|] == ts;
  }

  lemma SpelledTwice(ts: seq<Token>, t: Token, u: Token)
    ensures Spelled(ts + [t, u]) == Spelled(ts) + (TokenText(t) + TokenText(u))
  {
    assert ts + [t, u] == (ts + [t]) + [u];
    SpelledStep(ts + [t], u);
    SpelledStep(ts, t);
    Regroup(Spelled(ts), TokenText(t), TokenText(u));
  }

  lemma SpelledThrice(ts: seq<Token>, t: Token, u: Token, v: Token)
    ensures Spelled(ts + [t, u, v]) == Spelled(ts) + (TokenText(t) + TokenText(u) + TokenText(v))
  {
    assert ts + [t, u, v] == (ts + [t, u]) + [v];
    SpelledStep(ts + [t, u], v);
    SpelledTwice(ts, t, u);
    Regroup(Spelled(ts), TokenText(t) + TokenText(u), TokenText(v));
  }

  lemma SpelledPart(ts: seq<Token>, part: PathPart)
    requires WellFormed(part)
    ensures Spelled(ts + PartTokens(part)) == Spelled(ts) + PartText(part, false)
  {
    var f, i, j := part.field, part.index0, part.index1;
    if f == NoField {
      SpelledStep(ts, Index(i));
      assert PartText(part, false) == TokenText(Index(i));
    } else if f == HeadersField {
      SpelledTwice(ts, Name(f), Index(i));
      assert PartText(part, false) == TokenText(Name(f)) + TokenText(Index(i));
    } else if f == RowsField {
      SpelledThrice(ts, Name(f), Index(i), Index(j));
      assert PartText(part, false) == TokenText(Name(f)) + TokenText(Index(i)) + TokenText(Index(j));
    } else {
      SpelledStep(ts, Name(f));
      assert PartText(part, false) == TokenText(Name(f));
    }
  }

  lemma {:induction false} TokensNamed(path: seq<PathPart>)
    ensures Named(Tokens(path))
    decreases |path|
  {
    if path != [] {
      TokensNamed(path[..|path| - 1]);
    }
  }

  lemma FirstPart(part: PathPart)
    requires part.field != NoField
    ensures PartText(part, false) == "." + PartText(part, true)
  {
  }

  lemma {:induction false} OnePartSpelled(path: seq<PathPart>)
    requires WellFormedPath(path) && |path| == 1
    ensures Spelled(Tokens(path)) == "." + PathText(path)
  {
    SpelledPart([], path[0]);
    FirstPart(path[0]);
    assert Tokens(path[..0]) == [] && PathText(path[..0]) == "";
    assert Tokens(path) == [] + PartTokens(path[0]);
    assert PathText(path) == PartText(path[0], true);
  }

  /** One more part: the texts grow alike. */
  lemma {:induction false} LongerSpelled(path: seq<PathPart>, init: seq<PathPart>)
    requires WellFormedPath(path) && |path| >= 2 && init == path[..|path| - 1]
    requires Spelled(Tokens(init)) == "." + PathText(init)
    ensures Spelled(Tokens(path)) == "." + PathText(path)
  {
    var last := path[|path| - 1];
    SpelledPart(Tokens(init), last);
    Regroup(".", PathText(init), PartText(last, false));
    assert Tokens(path) == Tokens(init) + PartTokens(last);
    assert PathText(path) == PathText(init) + PartText(last, false);
  }

  /** The text of a path is its tokens spelled out, without the leading dot. */
  lemma {:induction false} PathTextSpelled(path: seq<PathPart>)
    requires WellFormedPath(path)
    ensures Spelled(Tokens(path)) == "." + PathText(path)
    decreases |path|
  {
    if |path| == 1 {
      OnePartSpelled(path);
    } else {
      PathTextSpelled(path[..|path| - 1]);
      LongerSpelled(path, path[..|path| - 1]);
    }
  }

  /** What the tokens of a path can end in: "headers" and "rows" never come last, and
      one index after "rows" is never the end. */
  ghost predicate EndsRight(ts: seq<Token>) {
    && (ts != [] ==> ts[|ts| - 1] != Name(HeadersField) && ts[|ts| - 1] != Name(RowsField))
    && (|ts| >= 2 && ts[|ts| - 1].Index? ==> ts[|ts| - 2] != Name(RowsField))
  }

  lemma {:induction false} EndPart(ts: seq<Token>, part: PathPart)
    requires EndsRight(ts) && WellFormed(part)
    ensures EndsRight(ts + PartTokens(part))
  {
  }

  lemma {:induction false} TokensEndRight(path: seq<PathPart>)
    requires AllWellFormed(path)
    ensures EndsRight(Tokens(path))
    ensures Tokens(path) == [] <==> path == []
    decreases |path|
  {
    if path != [] {
      TokensEndRight(path[..|path| - 1]);
      EndPart(Tokens(path[..|path| - 1]), path[|path| - 1]);
    }
  }

  /** The end of the tokens tells how many of them the last part has. */
  lemma {:induction false} LastPartSize(ts: seq<Token>, x: PathPart, us: seq<Token>, y: PathPart)
    requires EndsRight(ts) && EndsRight(us) && WellFormed(x) && WellFormed(y)
    requires ts + PartTokens(x) == us + PartTokens(y)
    ensures |PartTokens(x)| == |PartTokens(y)|
  {
    var all, other := ts + PartTokens(x), us + PartTokens(y);
    assert all[|all| - 1] == other[|all| - 1];
    if |all| >= 2 {
      assert all[|all| - 2] == other[|all| - 2];
    }
    if |all| >= 3 {
      assert all[|all| - 3] == other[|all| - 3];
    }
  }

  lemma SamePart(x: PathPart, y: PathPart)
    requires WellFormed(x) && WellFormed(y) && PartTokens(x) == PartTokens(y)
    ensures x == y
  {
    var ts, us := PartTokens(x), PartTokens(y);
    assert ts[0] == us[0] && ts[|ts| - 1] == us[|us| - 1];
    if |ts| == 3 {
      assert ts[1] == us[1];
    }
  }

  lemma {:induction false} LastPart(ts: seq<Token>, x: PathPart, us: seq<Token>, y: PathPart)
    requires EndsRight(ts) && EndsRight(us) && WellFormed(x) && WellFormed(y)
    requires ts + PartTokens(x) == us + PartTokens(y)
    ensures ts == us && x == y
  {
    var all, other := ts + PartTokens(x), us + PartTokens(y);
    LastPartSize(ts, x, us, y);
    assert ts == all[..|ts|] && us == other[..|us|];
    assert PartTokens(x) == all[|ts|..] && PartTokens(y) == other[|us|..];
    SamePart(x, y);
  }

  lemma {:induction false} LastPartOnce(p: seq<PathPart>, q: seq<PathPart>)
    requires AllWellFormed(p) && AllWellFormed(q) && p != [] && q != []
    requires Tokens(p) == Tokens(q)
    ensures Tokens(p[..|p| - 1]) == Tokens(q[..|q| - 1]) && p[|p| - 1] == q[|q| - 1]
  {
    TokensEndRight(p[..|p| - 1]);
    TokensEndRight(q[..|q| - 1]);
    LastPart(Tokens(p[..|p| - 1]), p[|p| - 1], Tokens(q[..|q| - 1]), q[|q| - 1]);
  }

  lemma {:induction false} TokensOnce(p: seq<PathPart>, q: seq<PathPart>)
    requires AllWellFormed(p) && AllWellFormed(q) && Tokens(p) == Tokens(q)
    ensures p == q
    decreases |p|
  {
    TokensEndRight(p);
    TokensEndRight(q);
    if p != [] {
      LastPartOnce(p, q);
      TokensOnce(p[..|p| - 1], q[..|q| - 1]);
      SameInitAndLast(p, q);
    }
  }

  /** Different paths have different texts. */
  lemma {:induction false} PathTextIsInjective(p: seq<PathPart>, q: seq<PathPart>)
    requires WellFormedPath(p) && WellFormedPath(q)
    requires PathText(p) == PathText(q)
    ensures p == q
  {
    PathTextSpelled(p);
    PathTextSpelled(q);
    TokensNamed(p);
    TokensNamed(q);
    SpelledOnce(Tokens(p), Tokens(q));
    TokensOnce(p, q);
  }
}
