/** What an error report says. With room for every error the walk reports exactly the
    flaws of the tree, in document order; a tree past a hard limit is reported up to
    the place where the limit is broken. A smaller budget keeps the first errors. */
module BodyReport {
  import opened Body
  import opened BodyCanonical
  import opened BodyTally
  import opened BodyWalk
  import opened BodyRefine
  import opened BodyBudget
  import opened BodyPaths
  import opened BodyFlaws

  // ------------------------------------------------------------ trails and paths

  function AsPart(leg: Leg): PathPart {
    match leg
    case Elem(i) => AtIndex(i)
    case In(f) => InField(f)
    case HeaderCell(i) => InFieldAt(HeadersField, i)
    case RowCell(i, j) => InFieldAt2(RowsField, i, j)
  }

  /** The path of a place below `base`. */
  function PathOf(base: seq<PathPart>, trail: Trail): seq<PathPart>
    decreases trail
  {
    match trail
    case Here => base
    case Down(leg, rest) => PathOf(base + [AsPart(leg)], rest)
  }

  function Rendered(base: seq<PathPart>, f: Flaw): Detail {
    Detail(PathText(PathOf(base, f.trail)), f.code)
  }

  /** The flaws that are wrong whatever the limits, as the parser prints them. */
  function Reported(base: seq<PathPart>, fs: seq<Flaw>): seq<Detail> {
    if fs == [] then [] else (if IsHard(fs[0].code) then [] else [Rendered(base, fs[0])]) + Reported(base, fs[1..])
  }

  lemma {:induction false} ReportedPlus(base: seq<PathPart>, fs: seq<Flaw>, gs: seq<Flaw>)
    ensures Reported(base, fs + gs) == Reported(base, fs) + Reported(base, gs)
    decreases |fs|
  {
    if fs == [] {
      assert fs + gs == gs;
    } else {
      assert (fs + gs)[1..] == fs[1..] + gs;
      ReportedPlus(base, fs[1..], gs);
    }
  }

  lemma {:induction false} ReportedUnder(base: seq<PathPart>, leg: Leg, fs: seq<Flaw>)
    ensures Reported(base, Under(leg, fs)) == Reported(base + [AsPart(leg)], fs)
    decreases |fs|
  {
    if fs != [] {
      assert Under(leg, fs)[1..] == Under(leg, fs[1..]);
      ReportedUnder(base, leg, fs[1..]);
    }
  }

  lemma {:induction false} ReportedAtMost(base: seq<PathPart>, fs: seq<Flaw>)
    ensures |Reported(base, fs)| <= |fs|
  {
    if fs != [] {
      ReportedAtMost(base, fs[1..]);
    }
  }

  // ------------------------------------------------- one stretch of the walk at work

  ghost predicate Live(p: Policy, s: State) {
    && !s.stop && !s.truncated
    && s.blockCount <= p.maxBlocks && s.inlineCount <= p.maxInlines
    && s.cellCount <= p.maxCells && |s.links| <= p.maxLinks
  }

  /** There is room after `s` for a subtree with these totals, valid or not. */
  predicate Roomy(p: Policy, s: State, t: Tally, depth: nat) {
    && s.blockCount + t.blocks <= p.maxBlocks
    && s.inlineCount + t.inlines <= p.maxInlines
    && s.cellCount + t.cells <= p.maxCells
    && |s.links| + |t.links| <= p.maxLinks
    && depth + t.depth <= p.maxDepth
  }

  /** The error budget outlasts whatever a subtree with these flaws can report. */
  predicate Ample(p: Policy, s: State, fs: seq<Flaw>) {
    |s.details| + |fs| + 1 < p.maxErrors
  }

  /** How many containers a trail enters. */
  function Nesting(trail: Trail): nat
    decreases trail
  {
    match trail
    case Here => 0
    case Down(leg, rest) => (if leg == In(BlocksField) then 1 else 0) + Nesting(rest)
  }

  /** The limit named by a hard flaw is broken in a subtree with these totals. */
  predicate Broken(p: Policy, s: State, t: Tally, depth: nat, f: Flaw) {
    || (f.code == TABLE_TOO_LARGE && s.cellCount + t.cells > p.maxCells)
    || (f.code == BODY_EXTERNAL_LINK_COUNT_EXCEEDED && |s.links| + |t.links| > p.maxLinks)
    || (f.code == BODY_CONTAINER_TOO_DEEP && depth + Nesting(f.trail) + 1 > p.maxDepth)
  }

  /** A counter of the whole body has run over; this is reported at the root. */
  predicate RanOver(p: Policy, s: State, t: Tally, h: Detail) {
    || (h == Detail(PathText(BlocksRoot), BODY_BLOCK_COUNT_EXCEEDED) && s.blockCount + t.blocks > p.maxBlocks)
    || (h == Detail(PathText(BlocksRoot), BODY_INLINE_NODE_COUNT_EXCEEDED) && s.inlineCount + t.inlines > p.maxInlines)
  }

  /** The walk has reported the first `n` flaws and then the limit `h`. */
  ghost predicate EndsAt(p: Policy, s: State, t: Tally, depth: nat, base: seq<PathPart>, fs: seq<Flaw>,
                         n: nat, h: Detail, details: seq<Detail>) {
    && n <= |fs|
    && details == s.details + Reported(base, fs[..n]) + [h]
    && (RanOver(p, s, t, h) || (n < |fs| && h == Rendered(base, fs[n]) && Broken(p, s, t, depth, fs[n])))
  }

  ghost predicate Ends(p: Policy, s: State, t: Tally, depth: nat, base: seq<PathPart>, fs: seq<Flaw>, r: State) {
    r.stop && exists n: nat, h: Detail :: EndsAt(p, s, t, depth, base, fs, n, h, r.details)
  }

  /** What a stretch of the walk makes of a subtree with totals `t` and flaws `fs`. */
  ghost predicate Tells(p: Policy, s: State, t: Tally, depth: nat, base: seq<PathPart>, fs: seq<Flaw>, r: State) {
    if Roomy(p, s, t, depth) then r == Advance(s, t).(details := s.details + Reported(base, fs))
    else Ends(p, s, t, depth, base, fs, r)
  }

  lemma EndsEarlier(p: Policy, s: State, t: Tally, depth: nat, base: seq<PathPart>, fs: seq<Flaw>,
                    mid: State, u: Tally, gs: seq<Flaw>, r: State)
    requires Ends(p, s, t, depth, base, fs, mid)
    requires r.stop && r.details == mid.details
    ensures Ends(p, s, t.Plus(u), depth, base, fs + gs, r)
  {
    var n: nat, h: Detail :| EndsAt(p, s, t, depth, base, fs, n, h, mid.details);
    assert (fs + gs)[..n] == fs[..n];
    assert EndsAt(p, s, t.Plus(u), depth, base, fs + gs, n, h, r.details);
  }

  lemma RegroupDetails(a: seq<Detail>, b: seq<Detail>, c: seq<Detail>, d: seq<Detail>)
    ensures a + b + c == a + (b + c)
    ensures a + b + c + d == a + (b + c) + d
  {
  }

  lemma LimitsAddUp(p: Policy, s: State, t: Tally, mid: State, u: Tally, depth: nat)
    requires mid == Advance(s, t).(details := mid.details)
    ensures forall f :: Broken(p, mid, u, depth, f) ==> Broken(p, s, t.Plus(u), depth, f)
    ensures forall h :: RanOver(p, mid, u, h) ==> RanOver(p, s, t.Plus(u), h)
  {
  }

  lemma EndsLater(p: Policy, s: State, t: Tally, depth: nat, base: seq<PathPart>, fs: seq<Flaw>,
                  mid: State, u: Tally, gs: seq<Flaw>, r: State)
    requires mid == Advance(s, t).(details := s.details + Reported(base, fs))
    requires Ends(p, mid, u, depth, base, gs, r)
    ensures Ends(p, s, t.Plus(u), depth, base, fs + gs, r)
  {
    var n: nat, h: Detail :| EndsAt(p, mid, u, depth, base, gs, n, h, r.details);
    var m := |fs| + n;
    assert (fs + gs)[..m] == fs + gs[..n];
    ReportedPlus(base, fs, gs[..n]);
    RegroupDetails(s.details, Reported(base, fs), Reported(base, gs[..n]), [h]);
    LimitsAddUp(p, s, t, mid, u, depth);
    assert EndsAt(p, s, t.Plus(u), depth, base, fs + gs, m, h, r.details);
  }

  lemma TwoRoomy(p: Policy, s: State, t: Tally, depth: nat, base: seq<PathPart>, fs: seq<Flaw>,
                 mid: State, u: Tally, gs: seq<Flaw>, r: State)
    requires mid == Advance(s, t).(details := s.details + Reported(base, fs))
    requires r == Advance(mid, u).(details := mid.details + Reported(base, gs))
    ensures r == Advance(s, t.Plus(u)).(details := s.details + Reported(base, fs + gs))
  {
    AdvanceTwice(s, t, u);
    ReportedPlus(base, fs, gs);
    RegroupDetails(s.details, Reported(base, fs), Reported(base, gs), []);
    assert Advance(mid, u) == Advance(Advance(s, t), u).(details := mid.details);
  }

  /** Two stretches in a row. */
  lemma TellTwo(p: Policy, s: State, t: Tally, depth: nat, base: seq<PathPart>, fs: seq<Flaw>,
                mid: State, u: Tally, gs: seq<Flaw>, r: State)
    requires Live(p, s) && Tells(p, s, t, depth, base, fs, mid)
    requires mid.stop ==> r.stop && r.details == mid.details
    requires Live(p, mid) ==> Tells(p, mid, u, depth, base, gs, r)
    ensures Tells(p, s, t.Plus(u), depth, base, fs + gs, r)
  {
    if !Roomy(p, s, t, depth) {
      EndsEarlier(p, s, t, depth, base, fs, mid, u, gs, r);
    } else if Roomy(p, mid, u, depth) {
      TwoRoomy(p, s, t, depth, base, fs, mid, u, gs, r);
    } else {
      EndsLater(p, s, t, depth, base, fs, mid, u, gs, r);
    }
  }

  lemma AmpleAfter(p: Policy, s: State, t: Tally, base: seq<PathPart>, fs: seq<Flaw>, gs: seq<Flaw>)
    requires Ample(p, s, fs + gs)
    ensures Ample(p, s, fs)
    ensures Ample(p, Advance(s, t).(details := s.details + Reported(base, fs)), gs)
  {
    ReportedAtMost(base, fs);
  }

  lemma TellNothing(p: Policy, s: State, depth: nat, base: seq<PathPart>)
    requires Live(p, s) && depth <= p.maxDepth
    ensures Tells(p, s, Nothing, depth, base, [], s)
  {
    AdvanceNothing(s);
    assert s.details + [] == s.details;
  }

  lemma UnderPrefix(leg: Leg, fs: seq<Flaw>, n: nat)
    requires n <= |fs|
    ensures Under(leg, fs)[..n] == Under(leg, fs[..n])
  {
  }

  lemma EndsUnder(p: Policy, s: State, t: Tally, depth: nat, base: seq<PathPart>, leg: Leg, fs: seq<Flaw>, r: State)
    requires leg != In(BlocksField)
    requires Ends(p, s, t, depth, base + [AsPart(leg)], fs, r)
    ensures Ends(p, s, t, depth, base, Under(leg, fs), r)
  {
    var n: nat, h: Detail :| EndsAt(p, s, t, depth, base + [AsPart(leg)], fs, n, h, r.details);
    UnderPrefix(leg, fs, n);
    ReportedUnder(base, leg, fs[..n]);
    assert EndsAt(p, s, t, depth, base, Under(leg, fs), n, h, r.details);
  }

  lemma EndsInside(p: Policy, s: State, t: Tally, depth: nat, base: seq<PathPart>, fs: seq<Flaw>, r: State)
    requires Ends(p, s, t, depth + 1, base + [InField(BlocksField)], fs, r)
    ensures Ends(p, s, t.Nested(), depth, base, Under(In(BlocksField), fs), r)
  {
    var leg := In(BlocksField);
    var n: nat, h: Detail :| EndsAt(p, s, t, depth + 1, base + [InField(BlocksField)], fs, n, h, r.details);
    UnderPrefix(leg, fs, n);
    ReportedUnder(base, leg, fs[..n]);
    assert EndsAt(p, s, t.Nested(), depth, base, Under(leg, fs), n, h, r.details);
  }

  /** The same stretch seen from one step further up. */
  lemma TellUnder(p: Policy, s: State, t: Tally, depth: nat, base: seq<PathPart>, leg: Leg, fs: seq<Flaw>, r: State)
    requires leg != In(BlocksField)
    requires Tells(p, s, t, depth, base + [AsPart(leg)], fs, r)
    ensures Tells(p, s, t, depth, base, Under(leg, fs), r)
  {
    if Roomy(p, s, t, depth) {
      ReportedUnder(base, leg, fs);
    } else {
      EndsUnder(p, s, t, depth, base, leg, fs, r);
    }
  }

  /** The inside of a container seen from the container. */
  lemma TellInside(p: Policy, s: State, t: Tally, depth: nat, base: seq<PathPart>, fs: seq<Flaw>, r: State)
    requires depth + 1 <= p.maxDepth
    requires Tells(p, s, t, depth + 1, base + [InField(BlocksField)], fs, r)
    ensures Tells(p, s, t.Nested(), depth, base, Under(In(BlocksField), fs), r)
  {
    if Roomy(p, s, t, depth + 1) {
      ReportedUnder(base, In(BlocksField), fs);
    } else {
      EndsInside(p, s, t, depth, base, fs, r);
    }
  }

  /** A limit that was looked at and found kept in front of a stretch. */
  lemma TellBehind(p: Policy, s: State, t: Tally, depth: nat, base: seq<PathPart>, f: Flaw, fs: seq<Flaw>, r: State)
    requires IsHard(f.code)
    requires Tells(p, s, t, depth, base, fs, r)
    ensures Tells(p, s, t, depth, base, [f] + fs, r)
  {
    assert ([f] + fs)[1..] == fs;
    if !Roomy(p, s, t, depth) {
      var n: nat, h: Detail :| EndsAt(p, s, t, depth, base, fs, n, h, r.details);
      var longer := ([f] + fs)[..n + 1];
      assert longer[1..] == fs[..n];
      assert Reported(base, longer) == Reported(base, fs[..n]);
      assert EndsAt(p, s, t, depth, base, [f] + fs, n + 1, h, r.details);
    }
  }

  /** A limit that is broken right here. */
  lemma TellLimit(p: Policy, s: State, t: Tally, depth: nat, base: seq<PathPart>, f: Flaw, fs: seq<Flaw>, r: State)
    requires !Roomy(p, s, t, depth) && Broken(p, s, t, depth, f)
    requires r.stop && r.details == s.details + [Rendered(base, f)]
    ensures Tells(p, s, t, depth, base, [f] + fs, r)
  {
    assert ([f] + fs)[..0] == [];
    assert s.details + [] == s.details;
    assert EndsAt(p, s, t, depth, base, [f] + fs, 0, Rendered(base, f), r.details);
  }

  lemma TellOver(p: Policy, s: State, t: Tally, depth: nat, base: seq<PathPart>, h: Detail, fs: seq<Flaw>, r: State)
    requires !Roomy(p, s, t, depth) && RanOver(p, s, t, h)
    requires r.stop && r.details == s.details + [h]
    ensures Tells(p, s, t, depth, base, fs, r)
  {
    assert fs[..0] == [];
    assert s.details + [] == s.details;
    assert EndsAt(p, s, t, depth, base, fs, 0, h, r.details);
  }

  /** One flaw of a field and nothing else. */
  lemma TellOne(p: Policy, s: State, t: Tally, depth: nat, base: seq<PathPart>, f: Field, code: ErrorCode)
    requires Live(p, s) && Ample(p, s, [Flaw(At(f), code)]) && !IsHard(code) && depth <= p.maxDepth
    requires t == Invalid
    ensures Tells(p, s, t, depth, base, [Flaw(At(f), code)], AddError(p, s, base + [InField(f)], code))
  {
    AdvanceNothing(s);
    var fs := [Flaw(At(f), code)];
    assert PathOf(base, At(f)) == base + [InField(f)];
    assert Reported(base, fs) == [Rendered(base, fs[0])] + Reported(base, fs[1..]);
  }

  /** One link, which takes up room among the links. */
  lemma TellLink(p: Policy, s: State, depth: nat, base: seq<PathPart>, f: Field, u: string)
    requires Live(p, s) && depth <= p.maxDepth
    requires Ample(p, s, [Flaw(At(f), BODY_EXTERNAL_LINK_COUNT_EXCEEDED)])
    ensures Tells(p, s, Nothing.(links := [u]), depth, base, [Flaw(At(f), BODY_EXTERNAL_LINK_COUNT_EXCEEDED)],
                  AddLink(p, s, base + [InField(f)], u))
  {
    var flaw := Flaw(At(f), BODY_EXTERNAL_LINK_COUNT_EXCEEDED);
    var t, r := Nothing.(links := [u]), AddLink(p, s, base + [InField(f)], u);
    assert PathOf(base, At(f)) == base + [InField(f)];
    if |s.links| >= p.maxLinks {
      TellLimit(p, s, t, depth, base, flaw, [], r);
      assert [flaw] + [] == [flaw];
    } else {
      assert s.texts + [] == s.texts && s.media + [] == s.media && s.details + [] == s.details;
      assert Reported(base, [flaw]) == [] + Reported(base, [flaw][1..]);
    }
  }

  // ------------------------------------------------------------ runs of inline nodes

  /** A run of inline nodes as a tally of its own. */
  function Inside(u: Run): Tally {
    OfRun(u, 0, [])
  }

  lemma InsidePlus(u: Run, v: Run)
    ensures Inside(u.Plus(v)) == Inside(u).Plus(Inside(v))
  {
  }

  lemma TellMark(e: Env, s: State, m: Mark, path: seq<PathPart>, depth: nat)
    requires Live(e.policy, s) && Ample(e.policy, s, MarkFlaws(e.sanitize, m)) && depth <= e.policy.maxDepth
    ensures Tells(e.policy, s, Inside(MarkRun(e.sanitize, m)), depth, path, MarkFlaws(e.sanitize, m),
                  WalkMark(e, s, m, path))
  {
    var p := e.policy;
    if m.kind == "" {
      TellOne(p, s, Invalid, depth, path, TypeField, INLINE_MARK_TYPE_REQUIRED);
    } else if IsPlainMark(m.kind) {
      TellNothing(p, s, depth, path);
    } else if m.kind == LinkKind {
      match e.sanitize(m.href)
      case None => TellOne(p, s, Invalid, depth, path, HrefField, LINK_HREF_UNSAFE);
      case Some(u) => TellLink(p, s, depth, path, HrefField, u);
    } else {
      TellOne(p, s, Invalid, depth, path, TypeField, INLINE_MARK_UNSUPPORTED);
    }
  }

  lemma {:induction false} TellMarks(e: Env, s: State, ms: seq<Mark>, k: nat, path: seq<PathPart>, depth: nat)
    requires Live(e.policy, s) && Ample(e.policy, s, MarksFlaws(e.sanitize, ms, k)) && depth <= e.policy.maxDepth
    ensures Tells(e.policy, s, Inside(MarksRun(e.sanitize, ms)), depth, path, MarksFlaws(e.sanitize, ms, k),
                  WalkMarks(e, s, ms, k, path))
    decreases ms
  {
    var p := e.policy;
    if ms == [] {
      TellNothing(p, s, depth, path);
    } else {
      var u, v := MarkRun(e.sanitize, ms[0]), MarksRun(e.sanitize, ms[1..]);
      var fs, gs := Under(Elem(k), MarkFlaws(e.sanitize, ms[0])), MarksFlaws(e.sanitize, ms[1..], k + 1);
      var mid := WalkMark(e, s, ms[0], path + [AtIndex(k)]);
      var r := WalkMarks(e, mid, ms[1..], k + 1, path);
      assert WalkMarks(e, s, ms, k, path) == r;
      AmpleAfter(p, s, Inside(u), path, fs, gs);
      TellMark(e, s, ms[0], path + [AtIndex(k)], depth);
      TellUnder(p, s, Inside(u), depth, path, Elem(k), MarkFlaws(e.sanitize, ms[0]), mid);
      if Live(p, mid) {
        TellMarks(e, mid, ms[1..], k + 1, path, depth);
      }
      InsidePlus(u, v);
      TellTwo(p, s, Inside(u), depth, path, fs, mid, Inside(v), gs, r);
    }
  }

  /** A node that has been counted: its own totals are what is left. */
  lemma TellCountedInline(p: Policy, s: State, u: Run, v: Run, depth: nat, base: seq<PathPart>, fs: seq<Flaw>, r: State)
    requires v.inlines == u.inlines + 1 && v.links == u.links
    requires Tells(p, s.(inlineCount := s.inlineCount + 1), Inside(u), depth, base, fs, r)
    ensures Tells(p, s, Inside(v), depth, base, fs, r)
  {
    var counted := s.(inlineCount := s.inlineCount + 1);
    if !Roomy(p, counted, Inside(u), depth) {
      var n: nat, h: Detail :| EndsAt(p, counted, Inside(u), depth, base, fs, n, h, r.details);
      assert EndsAt(p, s, Inside(v), depth, base, fs, n, h, r.details);
    }
  }

  lemma TellInline(e: Env, s: State, n: Inline, path: seq<PathPart>, depth: nat)
    requires Live(e.policy, s) && Ample(e.policy, s, InlineFlaws(e.sanitize, n)) && depth <= e.policy.maxDepth
    requires s.inlineCount + 1 <= e.policy.maxInlines
    ensures Tells(e.policy, s, Inside(InlineRun(e.sanitize, n)), depth, path, InlineFlaws(e.sanitize, n),
                  WalkInline(e, CountInline(e.policy, s), n, path))
  {
    var p, z := e.policy, e.sanitize;
    var counted := s.(inlineCount := s.inlineCount + 1);
    var r := WalkInline(e, counted, n, path);
    if n.kind != TextKind {
      TellOne(p, counted, Invalid, depth, path, TypeField, INLINE_NODE_UNSUPPORTED);
      TellCountedInline(p, s, BadRun, InlineRun(z, n), depth, path, InlineFlaws(e.sanitize, n), r);
    } else {
      TellMarks(e, counted, n.marks, 0, path + [InField(MarksField)], depth);
      TellUnder(p, counted, Inside(MarksRun(z, n.marks)), depth, path, In(MarksField),
                MarksFlaws(e.sanitize, n.marks, 0), r);
      TellCountedInline(p, s, MarksRun(z, n.marks), InlineRun(z, n), depth, path, InlineFlaws(e.sanitize, n), r);
    }
  }

  lemma TellInlineCount(e: Env, s: State, ns: seq<Inline>, path: seq<PathPart>, fs: seq<Flaw>, depth: nat)
    requires Live(e.policy, s) && Ample(e.policy, s, fs) && ns != []
    requires s.inlineCount + 1 > e.policy.maxInlines
    ensures Tells(e.policy, s, Inside(InlinesRun(e.sanitize, ns)), depth, path, fs, CountInline(e.policy, s))
  {
    var r := CountInline(e.policy, s);
    TellOver(e.policy, s, Inside(InlinesRun(e.sanitize, ns)), depth, path,
             Detail(PathText(BlocksRoot), BODY_INLINE_NODE_COUNT_EXCEEDED), fs, r);
  }

  lemma {:induction false} TellInlines(
    e: Env, s: State, ns: seq<Inline>, k: nat, path: seq<PathPart>, text: string, depth: nat)
    requires Live(e.policy, s) && Ample(e.policy, s, InlinesFlaws(e.sanitize, ns, k)) && depth <= e.policy.maxDepth
    ensures Tells(e.policy, s, Inside(InlinesRun(e.sanitize, ns)), depth, path, InlinesFlaws(e.sanitize, ns, k),
                  WalkInlines(e, s, ns, k, path, text).0)
    decreases ns
  {
    var p, z := e.policy, e.sanitize;
    if ns == [] {
      TellNothing(p, s, depth, path);
    } else if s.inlineCount + 1 > p.maxInlines {
      TellInlineCount(e, s, ns, path, InlinesFlaws(e.sanitize, ns, k), depth);
    } else {
      var u, v := InlineRun(z, ns[0]), InlinesRun(z, ns[1..]);
      var fs, gs := Under(Elem(k), InlineFlaws(e.sanitize, ns[0])), InlinesFlaws(e.sanitize, ns[1..], k + 1);
      var mid := WalkInline(e, CountInline(p, s), ns[0], path + [AtIndex(k)]);
      var r := WalkInlines(e, mid, ns[1..], k + 1, path, text + NodeText(ns[0])).0;
      assert WalkInlines(e, s, ns, k, path, text).0 == r;
      AmpleAfter(p, s, Inside(u), path, fs, gs);
      TellInline(e, s, ns[0], path + [AtIndex(k)], depth);
      TellUnder(p, s, Inside(u), depth, path, Elem(k), InlineFlaws(e.sanitize, ns[0]), mid);
      if Live(p, mid) {
        TellInlines(e, mid, ns[1..], k + 1, path, text + NodeText(ns[0]), depth);
      }
      InsidePlus(u, v);
      TellTwo(p, s, Inside(u), depth, path, fs, mid, Inside(v), gs, r);
    }
  }

  /** A walk over inline nodes that was not stopped has collected all of their text. */
  lemma {:induction false} AllText(e: Env, s: State, ns: seq<Inline>, k: nat, path: seq<PathPart>, text: string)
    ensures var r := WalkInlines(e, s, ns, k, path, text); !r.0.stop ==> r.1 == text + TextOf(ns)
    decreases ns
  {
    if ns == [] {
      assert text + "" == text;
    } else if !s.stop && s.inlineCount + 1 <= e.policy.maxInlines {
      var mid := WalkInline(e, CountInline(e.policy, s), ns[0], path + [AtIndex(k)]);
      AllText(e, mid, ns[1..], k + 1, path, text + NodeText(ns[0]));
      assert text + NodeText(ns[0]) + TextOf(ns[1..]) == text + (NodeText(ns[0]) + TextOf(ns[1..]));
    }
  }

  lemma TellText(p: Policy, s: State, u: Run, depth: nat, base: seq<PathPart>, fs: seq<Flaw>, r: State, text: string)
    requires Tells(p, s, Inside(u), depth, base, fs, r)
    ensures Tells(p, s, OfRun(u, 0, OneText(text)), depth, base, fs, AddText(r, text))
  {
    if Roomy(p, s, Inside(u), depth) {
      assert s.texts + [] == s.texts;
    } else {
      var n: nat, h: Detail :| EndsAt(p, s, Inside(u), depth, base, fs, n, h, r.details);
      assert EndsAt(p, s, OfRun(u, 0, OneText(text)), depth, base, fs, n, h, AddText(r, text).details);
    }
  }

  lemma TellTextBlock(e: Env, s: State, ns: seq<Inline>, path: seq<PathPart>, depth: nat)
    requires Live(e.policy, s) && Ample(e.policy, s, InlinesFlaws(e.sanitize, ns, 0)) && depth <= e.policy.maxDepth
    ensures Tells(e.policy, s, TextBlockTally(e.sanitize, ns), depth, path,
                  Under(In(ChildrenField), InlinesFlaws(e.sanitize, ns, 0)), WalkTextBlock(e, s, ns, path))
  {
    var p, u, fs := e.policy, InlinesRun(e.sanitize, ns), Under(In(ChildrenField), InlinesFlaws(e.sanitize, ns, 0));
    var below := path + [InField(ChildrenField)];
    var (walked, text) := WalkInlines(e, s, ns, 0, below, "");
    TellInlines(e, s, ns, 0, below, "", depth);
    AllText(e, s, ns, 0, below, "");
    assert "" + TextOf(ns) == TextOf(ns);
    TellUnder(p, s, Inside(u), depth, path, In(ChildrenField), InlinesFlaws(e.sanitize, ns, 0), walked);
    TellText(p, s, u, depth, path, fs, walked, text);
    if !Roomy(p, s, Inside(u), depth) {
      TextIsNoLimit(p, s, u, depth, path, fs, AddText(walked, text), text, TextOf(ns));
    }
  }

  /** Which texts were collected does not matter to a walk that ends early. */
  lemma TextIsNoLimit(p: Policy, s: State, u: Run, depth: nat, base: seq<PathPart>, fs: seq<Flaw>, r: State,
                      text: string, other: string)
    requires Ends(p, s, OfRun(u, 0, OneText(text)), depth, base, fs, r)
    ensures Ends(p, s, OfRun(u, 0, OneText(other)), depth, base, fs, r)
  {
    var n: nat, h: Detail :| EndsAt(p, s, OfRun(u, 0, OneText(text)), depth, base, fs, n, h, r.details);
    assert EndsAt(p, s, OfRun(u, 0, OneText(other)), depth, base, fs, n, h, r.details);
  }

  // -------------------------------------------------------------------------- tables

  lemma TellCell(e: Env, s: State, c: Cell, leg: Leg, path: seq<PathPart>, depth: nat)
    requires Live(e.policy, s) && Ample(e.policy, s, Under(leg, CellFlaws(e.sanitize, c))) && depth <= e.policy.maxDepth
    requires !leg.In?
    ensures Tells(e.policy, s, Inside(InlinesRun(e.sanitize, c.children)), depth, path,
                  Under(leg, CellFlaws(e.sanitize, c)),
                  WalkInlines(e, s, c.children, 0, path + [AsPart(leg)] + [InField(ChildrenField)], "").0)
  {
    var p, u := e.policy, InlinesRun(e.sanitize, c.children);
    var cellPath := path + [AsPart(leg)];
    var r := WalkInlines(e, s, c.children, 0, cellPath + [InField(ChildrenField)], "").0;
    TellInlines(e, s, c.children, 0, cellPath + [InField(ChildrenField)], "", depth);
    TellUnder(p, s, Inside(u), depth, cellPath, In(ChildrenField), InlinesFlaws(e.sanitize, c.children, 0), r);
    TellUnder(p, s, Inside(u), depth, path, leg, CellFlaws(e.sanitize, c), r);
  }

  lemma {:induction false} TellHeaders(e: Env, s: State, cs: seq<Cell>, k: nat, path: seq<PathPart>, depth: nat)
    requires Live(e.policy, s) && Ample(e.policy, s, HeadersFlaws(e.sanitize, cs, k)) && depth <= e.policy.maxDepth
    ensures Tells(e.policy, s, Inside(CellsRun(e.sanitize, cs)), depth, path, HeadersFlaws(e.sanitize, cs, k),
                  WalkHeaders(e, s, cs, k, path))
    decreases cs
  {
    var p, z := e.policy, e.sanitize;
    if cs == [] {
      TellNothing(p, s, depth, path);
    } else {
      var u, v := InlinesRun(z, cs[0].children), CellsRun(z, cs[1..]);
      var fs, gs := Under(HeaderCell(k), CellFlaws(e.sanitize, cs[0])), HeadersFlaws(e.sanitize, cs[1..], k + 1);
      var cellPath := path + [InFieldAt(HeadersField, k)] + [InField(ChildrenField)];
      var mid := WalkInlines(e, s, cs[0].children, 0, cellPath, "").0;
      var r := WalkHeaders(e, mid, cs[1..], k + 1, path);
      assert WalkHeaders(e, s, cs, k, path) == r;
      AmpleAfter(p, s, Inside(u), path, fs, gs);
      TellCell(e, s, cs[0], HeaderCell(k), path, depth);
      if Live(p, mid) {
        TellHeaders(e, mid, cs[1..], k + 1, path, depth);
      }
      InsidePlus(u, v);
      TellTwo(p, s, Inside(u), depth, path, fs, mid, Inside(v), gs, r);
    }
  }

  lemma {:induction false} TellRow(e: Env, s: State, cs: seq<Cell>, row: nat, k: nat, path: seq<PathPart>, depth: nat)
    requires Live(e.policy, s) && Ample(e.policy, s, RowFlaws(e.sanitize, cs, row, k)) && depth <= e.policy.maxDepth
    ensures Tells(e.policy, s, Inside(CellsRun(e.sanitize, cs)), depth, path, RowFlaws(e.sanitize, cs, row, k),
                  WalkRow(e, s, cs, row, k, path))
    decreases cs
  {
    var p, z := e.policy, e.sanitize;
    if cs == [] {
      TellNothing(p, s, depth, path);
    } else {
      var u, v := InlinesRun(z, cs[0].children), CellsRun(z, cs[1..]);
      var fs, gs := Under(RowCell(row, k), CellFlaws(e.sanitize, cs[0])), RowFlaws(e.sanitize, cs[1..], row, k + 1);
      var cellPath := path + [InFieldAt2(RowsField, row, k)] + [InField(ChildrenField)];
      var mid := WalkInlines(e, s, cs[0].children, 0, cellPath, "").0;
      var r := WalkRow(e, mid, cs[1..], row, k + 1, path);
      assert WalkRow(e, s, cs, row, k, path) == r;
      AmpleAfter(p, s, Inside(u), path, fs, gs);
      TellCell(e, s, cs[0], RowCell(row, k), path, depth);
      if Live(p, mid) {
        TellRow(e, mid, cs[1..], row, k + 1, path, depth);
      }
      InsidePlus(u, v);
      TellTwo(p, s, Inside(u), depth, path, fs, mid, Inside(v), gs, r);
    }
  }

  lemma {:induction false} TellRows(e: Env, s: State, rows: seq<seq<Cell>>, k: nat, path: seq<PathPart>, depth: nat)
    requires Live(e.policy, s) && Ample(e.policy, s, RowsFlaws(e.sanitize, rows, k)) && depth <= e.policy.maxDepth
    ensures Tells(e.policy, s, Inside(RowsRun(e.sanitize, rows)), depth, path, RowsFlaws(e.sanitize, rows, k),
                  WalkRows(e, s, rows, k, path))
    decreases rows
  {
    var p, z := e.policy, e.sanitize;
    if rows == [] {
      TellNothing(p, s, depth, path);
    } else {
      var u, v := CellsRun(z, rows[0]), RowsRun(z, rows[1..]);
      var fs, gs := RowFlaws(e.sanitize, rows[0], k, 0), RowsFlaws(e.sanitize, rows[1..], k + 1);
      var mid := WalkRow(e, s, rows[0], k, 0, path);
      var r := WalkRows(e, mid, rows[1..], k + 1, path);
      assert WalkRows(e, s, rows, k, path) == r;
      AmpleAfter(p, s, Inside(u), path, fs, gs);
      TellRow(e, s, rows[0], k, 0, path, depth);
      if Live(p, mid) {
        TellRows(e, mid, rows[1..], k + 1, path, depth);
      }
      InsidePlus(u, v);
      TellTwo(p, s, Inside(u), depth, path, fs, mid, Inside(v), gs, r);
    }
  }

  lemma TellTableCells(e: Env, s: State, headers: seq<Cell>, rows: seq<seq<Cell>>, path: seq<PathPart>, depth: nat)
    requires Live(e.policy, s) && depth <= e.policy.maxDepth
    requires Ample(e.policy, s, HeadersFlaws(e.sanitize, headers, 0) + RowsFlaws(e.sanitize, rows, 0))
    ensures Tells(e.policy, s, Inside(CellsRun(e.sanitize, headers).Plus(RowsRun(e.sanitize, rows))), depth, path,
                  HeadersFlaws(e.sanitize, headers, 0) + RowsFlaws(e.sanitize, rows, 0),
                  WalkTableCells(e, s, headers, rows, path))
  {
    var p, u, v := e.policy, CellsRun(e.sanitize, headers), RowsRun(e.sanitize, rows);
    var fs, gs := HeadersFlaws(e.sanitize, headers, 0), RowsFlaws(e.sanitize, rows, 0);
    var mid := WalkHeaders(e, s, headers, 0, path);
    AmpleAfter(p, s, Inside(u), path, fs, gs);
    TellHeaders(e, s, headers, 0, path, depth);
    if Live(p, mid) {
      TellRows(e, mid, rows, 0, path, depth);
    }
    InsidePlus(u, v);
    TellTwo(p, s, Inside(u), depth, path, fs, mid, Inside(v), gs, WalkTableCells(e, s, headers, rows, path));
  }

  /** Cells that have been counted. */
  lemma TellCountedCells(p: Policy, s: State, u: Run, cells: nat, depth: nat, base: seq<PathPart>, fs: seq<Flaw>,
                         r: State)
    requires Tells(p, s.(cellCount := s.cellCount + cells), Inside(u), depth, base, fs, r)
    ensures Tells(p, s, OfRun(u, cells, []), depth, base, fs, r)
  {
    var counted := s.(cellCount := s.cellCount + cells);
    if !Roomy(p, counted, Inside(u), depth) {
      var n: nat, h: Detail :| EndsAt(p, counted, Inside(u), depth, base, fs, n, h, r.details);
      assert EndsAt(p, s, OfRun(u, cells, []), depth, base, fs, n, h, r.details);
    }
  }

  lemma TellBigTable(e: Env, s: State, b: Block, path: seq<PathPart>, depth: nat)
    requires b.Table? && depth <= e.policy.maxDepth
    requires Live(e.policy, s) && Ample(e.policy, s, BlockFlaws(e, b))
    requires s.cellCount + CellCount(b.headers, b.rows) > e.policy.maxCells
    ensures Tells(e.policy, s, InnerTally(e, b), depth, path, BlockFlaws(e, b), WalkTable(e, s, b.headers, b.rows, path))
  {
    var r := WalkTable(e, s, b.headers, b.rows, path);
    var f, fs := Flaw(Here, TABLE_TOO_LARGE), HeadersFlaws(e.sanitize, b.headers, 0) + RowsFlaws(e.sanitize, b.rows, 0);
    assert r.details == s.details + [Rendered(path, f)];
    TellLimit(e.policy, s, InnerTally(e, b), depth, path, f, fs, r);
  }

  lemma TellTable(e: Env, s: State, b: Block, path: seq<PathPart>, depth: nat)
    requires b.Table? && depth <= e.policy.maxDepth
    requires Live(e.policy, s) && Ample(e.policy, s, BlockFlaws(e, b))
    ensures Tells(e.policy, s, InnerTally(e, b), depth, path, BlockFlaws(e, b), WalkTable(e, s, b.headers, b.rows, path))
  {
    var cells := CellCount(b.headers, b.rows);
    if s.cellCount + cells > e.policy.maxCells {
      TellBigTable(e, s, b, path, depth);
    } else {
      var u := CellsRun(e.sanitize, b.headers).Plus(RowsRun(e.sanitize, b.rows));
      var counted, r := s.(cellCount := s.cellCount + cells), WalkTable(e, s, b.headers, b.rows, path);
      var fs := HeadersFlaws(e.sanitize, b.headers, 0) + RowsFlaws(e.sanitize, b.rows, 0);
      assert r == WalkTableCells(e, counted, b.headers, b.rows, path);
      TellTableCells(e, counted, b.headers, b.rows, path, depth);
      TellCountedCells(e.policy, s, u, cells, depth, path, fs, r);
      TellBehind(e.policy, s, OfRun(u, cells, []), depth, path, Flaw(Here, TABLE_TOO_LARGE), fs, r);
    }
  }

  // --------------------------------------------------------------------- other leaves

  lemma TellFile(p: Policy, s: State, id: string, path: seq<PathPart>, depth: nat)
    requires Live(p, s) && Ample(p, s, FileFlaws(id)) && depth <= p.maxDepth
    ensures Tells(p, s, FileTally(id), depth, path, FileFlaws(id),
                  if TrimSpace(id) == "" then AddError(p, s, path + [InField(FileIdField)], MEDIA_REF_INVALID)
                  else s.(media := s.media + [TrimSpace(id)]))
  {
    if TrimSpace(id) == "" {
      TellOne(p, s, Invalid, depth, path, FileIdField, MEDIA_REF_INVALID);
    } else {
      assert s.texts + [] == s.texts && s.links + [] == s.links && s.details + [] == s.details;
    }
  }

  lemma {:induction false} TellFiles(e: Env, s: State, ids: seq<string>, k: nat, path: seq<PathPart>, depth: nat)
    requires Live(e.policy, s) && Ample(e.policy, s, FilesFlaws(ids, k)) && depth <= e.policy.maxDepth
    ensures Tells(e.policy, s, FilesTally(ids), depth, path, FilesFlaws(ids, k), WalkFiles(e, s, ids, k, path))
    decreases ids
  {
    var p := e.policy;
    if ids == [] {
      TellNothing(p, s, depth, path);
    } else {
      var t, u := FileTally(ids[0]), FilesTally(ids[1..]);
      var fs, gs := Under(Elem(k), FileFlaws(ids[0])), FilesFlaws(ids[1..], k + 1);
      var id := TrimSpace(ids[0]);
      var mid := if id == "" then AddError(p, s, path + [AtIndex(k)] + [InField(FileIdField)], MEDIA_REF_INVALID)
                 else s.(media := s.media + [id]);
      var r := WalkFiles(e, mid, ids[1..], k + 1, path);
      assert WalkFiles(e, s, ids, k, path) == r;
      AmpleAfter(p, s, t, path, fs, gs);
      TellFile(p, s, ids[0], path + [AtIndex(k)], depth);
      TellUnder(p, s, t, depth, path, Elem(k), FileFlaws(ids[0]), mid);
      assert Roomy(p, s, t, depth);
      TellFiles(e, mid, ids[1..], k + 1, path, depth);
      TellTwo(p, s, t, depth, path, fs, mid, u, gs, r);
    }
  }

  lemma TellProvider(p: Policy, s: State, provider: string, path: seq<PathPart>, depth: nat, fs: seq<Flaw>)
    requires Live(p, s) && Ample(p, s, fs) && depth <= p.maxDepth
    requires fs == if provider == ImageProvider then [] else [Flaw(At(ProviderField), EXTERNAL_EMBED_PROVIDER_NOT_ALLOWED)]
    ensures Tells(p, s, Nothing.(ok := provider == ImageProvider), depth, path, fs,
                  if provider == ImageProvider then s
                  else AddError(p, s, path + [InField(ProviderField)], EXTERNAL_EMBED_PROVIDER_NOT_ALLOWED))
  {
    if provider == ImageProvider {
      TellNothing(p, s, depth, path);
    } else {
      TellOne(p, s, Invalid, depth, path, ProviderField, EXTERNAL_EMBED_PROVIDER_NOT_ALLOWED);
    }
  }

  lemma TellUrl(e: Env, s: State, url: string, path: seq<PathPart>, depth: nat, gs: seq<Flaw>, r: State)
    requires Live(e.policy, s) && Ample(e.policy, s, gs) && depth <= e.policy.maxDepth
    requires gs == [Flaw(At(UrlField), if e.sanitize(url).None? then EXTERNAL_EMBED_URL_UNSAFE
                                       else BODY_EXTERNAL_LINK_COUNT_EXCEEDED)]
    requires r == match e.sanitize(url)
                  case None => AddError(e.policy, s, path + [InField(UrlField)], EXTERNAL_EMBED_URL_UNSAFE)
                  case Some(u) => AddLink(e.policy, s, path + [InField(UrlField)], u)
    ensures Tells(e.policy, s, EmbedTally(e.sanitize, ImageProvider, url), depth, path, gs, r)
  {
    match e.sanitize(url)
    case None => TellOne(e.policy, s, Invalid, depth, path, UrlField, EXTERNAL_EMBED_URL_UNSAFE);
    case Some(u) => TellLink(e.policy, s, depth, path, UrlField, u);
  }

  lemma EmbedParts(z: Sanitizer, provider: string, url: string)
    ensures EmbedTally(z, provider, url) ==
              Nothing.(ok := provider == ImageProvider).Plus(EmbedTally(z, ImageProvider, url))
  {
    var t, none := EmbedTally(z, ImageProvider, url), Nothing.texts;
    assert none + t.texts == t.texts && none + t.media == t.media && none + t.links == t.links;
  }

  lemma TellEmbed(e: Env, s: State, provider: string, url: string, path: seq<PathPart>, depth: nat)
    requires Live(e.policy, s) && Ample(e.policy, s, EmbedFlaws(e.sanitize, provider, url)) && depth <= e.policy.maxDepth
    ensures Tells(e.policy, s, EmbedTally(e.sanitize, provider, url), depth, path, EmbedFlaws(e.sanitize, provider, url),
                  WalkEmbed(e, s, provider, url, path))
  {
    var p := e.policy;
    var fs := if provider == ImageProvider then [] else [Flaw(At(ProviderField), EXTERNAL_EMBED_PROVIDER_NOT_ALLOWED)];
    var gs := [Flaw(At(UrlField), if e.sanitize(url).None? then EXTERNAL_EMBED_URL_UNSAFE
                                  else BODY_EXTERNAL_LINK_COUNT_EXCEEDED)];
    var t, u := Nothing.(ok := provider == ImageProvider), EmbedTally(e.sanitize, ImageProvider, url);
    var mid := if provider == ImageProvider then s
               else AddError(p, s, path + [InField(ProviderField)], EXTERNAL_EMBED_PROVIDER_NOT_ALLOWED);
    var r := WalkEmbed(e, s, provider, url, path);
    AmpleAfter(p, s, t, path, fs, gs);
    TellProvider(p, s, provider, path, depth, fs);
    assert Roomy(p, s, t, depth);
    TellUrl(e, mid, url, path, depth, gs, r);
    EmbedParts(e.sanitize, provider, url);
    TellTwo(p, s, t, depth, path, fs, mid, u, gs, r);
  }

  lemma TellLimited(p: Policy, s: State, text: string, limit: int, path: seq<PathPart>, f: Field, code: ErrorCode,
                    depth: nat)
    requires Live(p, s) && Ample(p, s, TooLongFlaws(text, limit, f, code)) && depth <= p.maxDepth && !IsHard(code)
    ensures Tells(p, s, LimitedText(text, limit), depth, path, TooLongFlaws(text, limit, f, code),
                  WalkLimited(p, s, text, limit, path + [InField(f)], code))
  {
    if |text| > limit {
      TellOne(p, s, Invalid, depth, path, f, code);
    } else {
      TellNothing(p, s, depth, path);
    }
    AdvanceNothing(s);
    assert s.media + [] == s.media && s.links + [] == s.links;
  }

  lemma TellGallery(e: Env, s: State, b: Block, path: seq<PathPart>, depth: nat)
    requires b.Gallery? && depth <= e.policy.maxDepth
    requires Live(e.policy, s) && Ample(e.policy, s, BlockFlaws(e, b))
    ensures Tells(e.policy, s, InnerTally(e, b), depth, path, BlockFlaws(e, b), WalkLeaf(e, s, b, path))
  {
    if b.attachments.NilAttachments? {
      TellOne(e.policy, s, Invalid, depth, path, ItemsField, ATTACHMENT_GALLERY_ITEMS_INVALID);
    } else {
      var ids := b.attachments.fileIds;
      TellFiles(e, s, ids, 0, path + [InField(ItemsField)], depth);
      TellUnder(e.policy, s, FilesTally(ids), depth, path, In(ItemsField), FilesFlaws(ids, 0), WalkLeaf(e, s, b, path));
    }
  }

  lemma TellUntyped(e: Env, s: State, b: Block, path: seq<PathPart>, depth: nat)
    requires (b.NilBlock? || b.Unsupported? || b.Foreign?) && depth <= e.policy.maxDepth
    requires Live(e.policy, s) && Ample(e.policy, s, BlockFlaws(e, b))
    ensures Tells(e.policy, s, InnerTally(e, b), depth, path, BlockFlaws(e, b), WalkLeaf(e, s, b, path))
  {
    TellOne(e.policy, s, Invalid, depth, path, TypeField,
            if b.NilBlock? || (b.Unsupported? && b.kind == "") then BLOCK_TYPE_REQUIRED else BLOCK_TYPE_NOT_ENABLED);
  }

  lemma TellLeaf(e: Env, s: State, b: Block, path: seq<PathPart>, depth: nat)
    requires !IsContainer(b) && depth <= e.policy.maxDepth
    requires Live(e.policy, s) && Ample(e.policy, s, BlockFlaws(e, b))
    ensures Tells(e.policy, s, InnerTally(e, b), depth, path, BlockFlaws(e, b), WalkLeaf(e, s, b, path))
  {
    var p := e.policy;
    match b
    case NilBlock => TellUntyped(e, s, b, path, depth);
    case Unsupported(_) => TellUntyped(e, s, b, path, depth);
    case Foreign => TellUntyped(e, s, b, path, depth);
    case Paragraph(children) => TellTextBlock(e, s, children, path, depth);
    case Heading(_, children) => TellTextBlock(e, s, children, path, depth);
    case Code(code, _) => TellLimited(p, s, code, p.maxCode, path, CodeField, CODE_BLOCK_TOO_LONG, depth);
    case Math(latex) => TellLimited(p, s, latex, p.maxLatex, path, LatexField, MATH_LATEX_TOO_LONG, depth);
    case Table(_, _) => TellTable(e, s, b, path, depth);
    case Image(fileId, _) => TellFile(p, s, fileId, path, depth);
    case Embed(provider, url, _) => TellEmbed(e, s, provider, url, path, depth);
    case Gallery(_) => TellGallery(e, s, b, path, depth);
  }

  // ----------------------------------------------------------------------- block trees

  lemma NestedPlus(t: Tally, u: Tally)
    ensures t.Plus(u).Nested() == t.Nested().Plus(u.Nested())
  {
  }

  lemma TellEmptyInside(p: Policy, s: State, depth: nat, base: seq<PathPart>)
    requires Live(p, s) && depth + 1 <= p.maxDepth
    ensures Tells(p, s, Nothing.Nested(), depth, base, [], s)
  {
    AdvanceNothing(s);
    assert Advance(s, Nothing.Nested()) == Advance(s, Nothing);
    assert s.details + [] == s.details;
  }

  /** The items of a list at `depth`, whose blocks lie one deeper. */
  lemma {:induction false} TellItems(e: Env, s: State, items: seq<ListItem>, k: nat, path: seq<PathPart>, depth: nat)
    requires Live(e.policy, s) && Ample(e.policy, s, ItemsFlaws(e, items, k)) && depth + 1 <= e.policy.maxDepth
    ensures Tells(e.policy, s, ItemsTally(e, items).Nested(), depth, path, ItemsFlaws(e, items, k),
                  WalkItems(e, s, items, k, path, depth + 1))
    decreases items
  {
    var p := e.policy;
    if items == [] {
      TellEmptyInside(p, s, depth, path);
    } else {
      var t, u := BlocksTally(e, items[0].blocks), ItemsTally(e, items[1..]);
      var fs, gs := Under(Elem(k), ItemFlaws(e, items[0])), ItemsFlaws(e, items[1..], k + 1);
      var mid := WalkBlocks(e, s, items[0].blocks, 0, path + [AtIndex(k)] + [InField(BlocksField)], depth + 1);
      var r := WalkItems(e, mid, items[1..], k + 1, path, depth + 1);
      assert WalkItems(e, s, items, k, path, depth + 1) == r;
      AmpleAfter(p, s, t.Nested(), path, fs, gs);
      TellBlocks(e, s, items[0].blocks, 0, path + [AtIndex(k)] + [InField(BlocksField)], depth + 1);
      TellInside(p, s, t, depth, path + [AtIndex(k)], BlocksFlaws(e, items[0].blocks, 0), mid);
      TellUnder(p, s, t.Nested(), depth, path, Elem(k), ItemFlaws(e, items[0]), mid);
      if Live(p, mid) {
        TellItems(e, mid, items[1..], k + 1, path, depth);
      }
      NestedPlus(t, u);
      TellTwo(p, s, t.Nested(), depth, path, fs, mid, u.Nested(), gs, r);
    }
  }

  lemma {:induction false} TellBlocks(e: Env, s: State, bs: seq<Block>, k: nat, path: seq<PathPart>, depth: nat)
    requires Live(e.policy, s) && Ample(e.policy, s, BlocksFlaws(e, bs, k)) && depth <= e.policy.maxDepth
    ensures Tells(e.policy, s, BlocksTally(e, bs), depth, path, BlocksFlaws(e, bs, k),
                  WalkBlocks(e, s, bs, k, path, depth))
    decreases bs
  {
    var p := e.policy;
    if bs == [] {
      TellNothing(p, s, depth, path);
    } else {
      var t, u := BlockTally(e, bs[0]), BlocksTally(e, bs[1..]);
      var fs, gs := Under(Elem(k), BlockFlaws(e, bs[0])), BlocksFlaws(e, bs[1..], k + 1);
      var mid := WalkBlock(e, s, bs[0], path + [AtIndex(k)], depth);
      var r := WalkBlocks(e, mid, bs[1..], k + 1, path, depth);
      assert WalkBlocks(e, s, bs, k, path, depth) == r;
      AmpleAfter(p, s, t, path, fs, gs);
      TellBlock(e, s, bs[0], path + [AtIndex(k)], depth);
      TellUnder(p, s, t, depth, path, Elem(k), BlockFlaws(e, bs[0]), mid);
      if Live(p, mid) {
        TellBlocks(e, mid, bs[1..], k + 1, path, depth);
      }
      TellTwo(p, s, t, depth, path, fs, mid, u, gs, r);
    }
  }

  lemma TellCountedBlock(p: Policy, s: State, t: Tally, depth: nat, base: seq<PathPart>, fs: seq<Flaw>, r: State)
    requires Tells(p, s.(blockCount := s.blockCount + 1), t, depth, base, fs, r)
    ensures Tells(p, s, t.OneBlock(), depth, base, fs, r)
  {
    var counted := s.(blockCount := s.blockCount + 1);
    if !Roomy(p, counted, t, depth) {
      var n: nat, h: Detail :| EndsAt(p, counted, t, depth, base, fs, n, h, r.details);
      assert EndsAt(p, s, t.OneBlock(), depth, base, fs, n, h, r.details);
    }
  }

  lemma {:induction false} TellBlock(e: Env, s: State, b: Block, path: seq<PathPart>, depth: nat)
    requires Live(e.policy, s) && Ample(e.policy, s, BlockFlaws(e, b)) && depth <= e.policy.maxDepth
    ensures Tells(e.policy, s, BlockTally(e, b), depth, path, BlockFlaws(e, b), WalkBlock(e, s, b, path, depth))
    decreases b, 4
  {
    var p := e.policy;
    var counted := s.(blockCount := s.blockCount + 1);
    var r := WalkBlock(e, s, b, path, depth);
    if counted.blockCount > p.maxBlocks {
      TellOver(p, s, BlockTally(e, b), depth, path, Detail(PathText(BlocksRoot), BODY_BLOCK_COUNT_EXCEEDED),
               BlockFlaws(e, b), r);
    } else {
      assert r == WalkInner(e, counted, b, path, depth);
      TellInner(e, counted, b, path, depth);
      TellCountedBlock(p, s, InnerTally(e, b), depth, path, BlockFlaws(e, b), r);
    }
  }

  lemma {:induction false} TellInner(e: Env, s: State, b: Block, path: seq<PathPart>, depth: nat)
    requires Live(e.policy, s) && Ample(e.policy, s, BlockFlaws(e, b)) && depth <= e.policy.maxDepth
    ensures Tells(e.policy, s, InnerTally(e, b), depth, path, BlockFlaws(e, b), WalkInner(e, s, b, path, depth))
    decreases b, 3
  {
    var p, r := e.policy, WalkInner(e, s, b, path, depth);
    if !IsContainer(b) {
      TellLeaf(e, s, b, path, depth);
    } else {
      var f, fs := Flaw(Here, BODY_CONTAINER_TOO_DEEP), InsideFlaws(e, b);
      assert BlockFlaws(e, b) == [f] + fs;
      if depth + 1 > p.maxDepth {
        assert InnerTally(e, b).depth > 0;
        TellLimit(p, s, InnerTally(e, b), depth, path, f, fs, r);
      } else {
        assert r == WalkContainer(e, s, b, path, depth + 1);
        TellContainer(e, s, b, path, depth);
        TellBehind(p, s, InnerTally(e, b), depth, path, f, fs, r);
      }
    }
  }

  /** A container at `depth`, which is allowed there. */
  lemma {:induction false} TellContainer(e: Env, s: State, b: Block, path: seq<PathPart>, depth: nat)
    requires IsContainer(b) && depth + 1 <= e.policy.maxDepth
    requires Live(e.policy, s) && Ample(e.policy, s, InsideFlaws(e, b))
    ensures Tells(e.policy, s, InnerTally(e, b), depth, path, InsideFlaws(e, b), WalkContainer(e, s, b, path, depth + 1))
    decreases b, 2
  {
    var p, r := e.policy, WalkContainer(e, s, b, path, depth + 1);
    match b
    case Quote(blocks) =>
      TellBlocks(e, s, blocks, 0, path + [InField(BlocksField)], depth + 1);
      TellInside(p, s, BlocksTally(e, blocks), depth, path, BlocksFlaws(e, blocks, 0), r);
    case List(NilItems) => TellNoItems(p, s, depth, path);
    case List(Items(items)) =>
      TellItems(e, s, items, 0, path + [InField(ItemsField)], depth);
      TellUnder(p, s, ItemsTally(e, items).Nested(), depth, path, In(ItemsField), ItemsFlaws(e, items, 0), r);
    case Collapsible(_, _) => TellCollapsible(e, s, b, path, depth);
  }

  lemma TellNoItems(p: Policy, s: State, depth: nat, path: seq<PathPart>)
    requires Live(p, s) && depth + 1 <= p.maxDepth && Ample(p, s, [Flaw(At(ItemsField), LIST_ITEMS_INVALID)])
    ensures Tells(p, s, Invalid.Nested(), depth, path, [Flaw(At(ItemsField), LIST_ITEMS_INVALID)],
                  AddError(p, s, path + [InField(ItemsField)], LIST_ITEMS_INVALID))
  {
    TellOne(p, s, Invalid, depth, path, ItemsField, LIST_ITEMS_INVALID);
    assert Advance(s, Invalid.Nested()) == Advance(s, Invalid);
  }

  /** A run of inline nodes inside a container, where containers may still nest. */
  lemma TellRunInside(p: Policy, s: State, u: Run, depth: nat, base: seq<PathPart>, fs: seq<Flaw>, r: State)
    requires depth + 1 <= p.maxDepth
    requires Tells(p, s, Inside(u), depth, base, fs, r)
    ensures Tells(p, s, Inside(u).Nested(), depth, base, fs, r)
  {
    if !Roomy(p, s, Inside(u), depth) {
      var n: nat, h: Detail :| EndsAt(p, s, Inside(u), depth, base, fs, n, h, r.details);
      assert EndsAt(p, s, Inside(u).Nested(), depth, base, fs, n, h, r.details);
    }
  }

  lemma TellTitle(e: Env, s: State, title: seq<Inline>, path: seq<PathPart>, depth: nat)
    requires Live(e.policy, s) && Ample(e.policy, s, InlinesFlaws(e.sanitize, title, 0)) && depth + 1 <= e.policy.maxDepth
    ensures Tells(e.policy, s, Inside(InlinesRun(e.sanitize, title)).Nested(), depth, path,
                  Under(In(TitleField), InlinesFlaws(e.sanitize, title, 0)),
                  WalkInlines(e, s, title, 0, path + [InField(TitleField)], "").0)
  {
    var u, r := InlinesRun(e.sanitize, title), WalkInlines(e, s, title, 0, path + [InField(TitleField)], "").0;
    TellInlines(e, s, title, 0, path + [InField(TitleField)], "", depth);
    TellUnder(e.policy, s, Inside(u), depth, path, In(TitleField), InlinesFlaws(e.sanitize, title, 0), r);
    TellRunInside(e.policy, s, u, depth, path, Under(In(TitleField), InlinesFlaws(e.sanitize, title, 0)), r);
  }

  /** The blocks of a collapsible, after its title. */
  lemma {:induction false} TellBody(e: Env, s: State, b: Block, path: seq<PathPart>, depth: nat)
    requires b.Collapsible? && depth + 1 <= e.policy.maxDepth
    requires Live(e.policy, s) && Ample(e.policy, s, BlocksFlaws(e, b.blocks, 0))
    ensures Tells(e.policy, s, BlocksTally(e, b.blocks).Nested(), depth, path,
                  Under(In(BlocksField), BlocksFlaws(e, b.blocks, 0)),
                  WalkBlocks(e, s, b.blocks, 0, path + [InField(BlocksField)], depth + 1))
    decreases b, 0
  {
    var r := WalkBlocks(e, s, b.blocks, 0, path + [InField(BlocksField)], depth + 1);
    TellBlocks(e, s, b.blocks, 0, path + [InField(BlocksField)], depth + 1);
    TellInside(e.policy, s, BlocksTally(e, b.blocks), depth, path, BlocksFlaws(e, b.blocks, 0), r);
  }

  lemma CollapsibleParts(e: Env, b: Block)
    requires b.Collapsible?
    ensures InnerTally(e, b) == Inside(InlinesRun(e.sanitize, b.title)).Nested().Plus(BlocksTally(e, b.blocks).Nested())
  {
    NestedPlus(Inside(InlinesRun(e.sanitize, b.title)), BlocksTally(e, b.blocks));
  }

  lemma CollapsibleSteps(e: Env, s: State, b: Block, path: seq<PathPart>, depth: nat)
    requires b.Collapsible?
    ensures var titled := WalkInlines(e, s, b.title, 0, path + [InField(TitleField)], "").0;
            WalkContainer(e, s, b, path, depth) ==
              if titled.stop then titled
              else WalkBlocks(e, titled, b.blocks, 0, path + [InField(BlocksField)], depth)
  {
  }

  lemma {:induction false} TellCollapsible(e: Env, s: State, b: Block, path: seq<PathPart>, depth: nat)
    requires b.Collapsible? && depth + 1 <= e.policy.maxDepth
    requires Live(e.policy, s) && Ample(e.policy, s, InsideFlaws(e, b))
    ensures Tells(e.policy, s, InnerTally(e, b), depth, path, InsideFlaws(e, b), WalkContainer(e, s, b, path, depth + 1))
    decreases b, 1
  {
    var p, r := e.policy, WalkContainer(e, s, b, path, depth + 1);
    var t, u := Inside(InlinesRun(e.sanitize, b.title)), BlocksTally(e, b.blocks);
    var fs := Under(In(TitleField), InlinesFlaws(e.sanitize, b.title, 0));
    var gs := Under(In(BlocksField), BlocksFlaws(e, b.blocks, 0));
    var mid := WalkInlines(e, s, b.title, 0, path + [InField(TitleField)], "").0;
    CollapsibleSteps(e, s, b, path, depth + 1);
    CollapsibleParts(e, b);
    AmpleAfter(p, s, t.Nested(), path, fs, gs);
    TellTitle(e, s, b.title, path, depth);
    if Live(p, mid) {
      TellBody(e, mid, b, path, depth);
    }
    TellTwo(p, s, t.Nested(), depth, path, fs, mid, u.Nested(), gs, r);
  }
}
