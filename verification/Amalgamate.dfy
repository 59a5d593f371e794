/** The merged header. */
module Amalgamate {
  import opened IncludeGraph
  import opened HeaderWalk
  import opened NameOrder

  /** The positions of the kept lines among the first k. */
  function Positions(lines: seq<Line>, k: nat): seq<nat>
    requires k <= |lines|
  {
    if k == 0 then [] else if Kept(lines, k - 1) then Positions(lines, k - 1) + [k - 1] else Positions(lines, k - 1)
  }

  /** Exactly the kept positions, ascending. */
  lemma {:induction false} PositionsAscend(lines: seq<Line>, k: nat)
    requires k <= |lines|
    ensures forall i, j :: 0 <= i < j < |Positions(lines, k)| ==> Positions(lines, k)[i] < Positions(lines, k)[j]
    ensures forall i :: 0 <= i < |Positions(lines, k)| ==> Positions(lines, k)[i] < k
  {
    if k > 0 {
      PositionsAscend(lines, k - 1);
    }
  }

  lemma {:induction false} PositionsExact(lines: seq<Line>, k: nat, p: nat)
    requires k <= |lines|
    ensures p in Positions(lines, k) <==> p < k && Kept(lines, p)
  {
    if k > 0 {
      PositionsExact(lines, k - 1, p);
    }
  }

  /** A body is its source at the kept positions: nothing else is lost, nothing is added, the order stays. */
  lemma {:induction false} BodyIsFilter(lines: seq<Line>, k: nat, i: nat)
    requires k <= |lines|
    ensures |Body(lines, k)| == |Positions(lines, k)|
    ensures i < |Positions(lines, k)| ==> Positions(lines, k)[i] < |lines| && Body(lines, k)[i] == lines[Positions(lines, k)[i]]
  {
    if k > 0 {
      BodyIsFilter(lines, k - 1, i);
    }
  }

  /** The project includes the merge drops from a body, at whatever depth. */
  function DroppedProjects(lines: seq<Line>, k: nat): seq<Name>
    requires k <= |lines|
  {
    if k == 0 then [] else
      var before := DroppedProjects(lines, k - 1);
      if lines[k - 1].Project? then before + [lines[k - 1].path] else before
  }

  /** No project include stands inside a conditional. */
  predicate Unguarded(lines: seq<Line>, k: nat)
    requires k <= |lines|
  {
    forall i :: 0 <= i < k && lines[i].Project? ==> !Enclosed(lines, i)
  }

  lemma {:induction false} FewerParsed(lines: seq<Line>, k: nat)
    requires k <= |lines|
    ensures |Projects(lines, k)| <= |DroppedProjects(lines, k)|
    ensures |Projects(lines, k)| == |DroppedProjects(lines, k)| ==> Unguarded(lines, k)
  {
    if k > 0 {
      DepthIffEnclosed(lines, k - 1);
      FewerParsed(lines, k - 1);
    }
  }

  /** The includes the merge drops are the includes the walk follows exactly when none is inside a conditional. */
  lemma {:induction false} DroppedAreParsed(lines: seq<Line>, k: nat)
    requires k <= |lines|
    ensures DroppedProjects(lines, k) == Projects(lines, k) <==> Unguarded(lines, k)
  {
    FewerParsed(lines, k);
    if Unguarded(lines, k) && k > 0 {
      DepthIffEnclosed(lines, k - 1);
      DroppedAreParsed(lines, k - 1);
    }
  }

  function Guarded(b: Name): seq<Line> {
    [If("#if X"), Project(b), Endif("#endif")]
  }

  lemma GuardedBody(b: Name)
    ensures Projects(Guarded(b), 3) == [] && Body(Guarded(b), 3) == [If("#if X"), Endif("#endif")]
  {
    var lines := Guarded(b);
    assert Depth(lines, 1) == 1 && Depth(lines, 2) == 1;
    assert Projects(lines, 1) == [] && Projects(lines, 2) == [];
    assert Body(lines, 1) == [If("#if X")] && Body(lines, 2) == [If("#if X")];
  }

  /** An include inside a conditional is dropped from the body, yet the header it names is not merged. */
  lemma GuardedIncludeLost(a: Name, b: Name, inner: seq<Line>)
    requires a != b
    ensures Body(Guarded(b), 3) == [If("#if X"), Endif("#endif")]
    ensures !Reachable(map[a := Guarded(b), b := inner], [a], b)
  {
    GuardedBody(b);
    var tree := map[a := Guarded(b), b := inner];
    if Reachable(tree, [a], b) {
      var e :| e in [a] && Reaches(tree, e, b);
      var path :| Path(tree, path) && path[0] == e && path[|path| - 1] == b;
      ClosedHolds(tree, {a}, path);
    }
  }

  /** One piece of the output. */
  datatype Part = Fixed(text: string) | Include(name: Name) | Mark(header: Name) | Source(line: Line)

  function SourcesOf(parts: seq<Part>): seq<Line> {
    if parts == [] then [] else
      var before := SourcesOf(parts[..|parts| - 1]);
      if parts[|parts| - 1].Source? then before + [parts[|parts| - 1].line] else before
  }

  function IncludesOf(parts: seq<Part>): seq<Name> {
    if parts == [] then [] else
      var before := IncludesOf(parts[..|parts| - 1]);
      if parts[|parts| - 1].Include? then before + [parts[|parts| - 1].name] else before
  }

  function MarksOf(parts: seq<Part>): seq<Name> {
    if parts == [] then [] else
      var before := MarksOf(parts[..|parts| - 1]);
      if parts[|parts| - 1].Mark? then before + [parts[|parts| - 1].header] else before
  }

  /** A header's mark and the lines that follow it up to the next mark. */
  datatype Chunk = Chunk(header: Name, lines: seq<Line>)

  /** The output read back at its marks. */
  function ChunksOf(parts: seq<Part>): seq<Chunk> {
    if parts == [] then [] else
      var before, last := ChunksOf(parts[..|parts| - 1]), parts[|parts| - 1];
      if last.Mark? then before + [Chunk(last.header, [])]
      else if last.Source? && before != [] then
        before[|before| - 1 := Chunk(before[|before| - 1].header, before[|before| - 1].lines + [last.line])]
      else before
  }

  lemma {:induction false} PartsConcat(a: seq<Part>, b: seq<Part>)
    ensures SourcesOf(a + b) == SourcesOf(a) + SourcesOf(b)
    ensures IncludesOf(a + b) == IncludesOf(a) + IncludesOf(b)
    ensures MarksOf(a + b) == MarksOf(a) + MarksOf(b)
    decreases |b|
  {
    if b == [] {
      assert a + b == a;
    } else {
      assert (a + b)[..|a + b| - 1] == a + b[..|b| - 1];
      PartsConcat(a, b[..|b| - 1]);
    }
  }

  /** What three readers make of a list of parts. */
  datatype Reading = Reading(sources: seq<Line>, includes: seq<Name>, marks: seq<Name>)

  function Read(parts: seq<Part>): Reading {
    Reading(SourcesOf(parts), IncludesOf(parts), MarksOf(parts))
  }

  lemma ReadsTogether(a: seq<Part>, b: seq<Part>, ra: Reading, rb: Reading, r: Reading)
    requires Read(a) == ra && Read(b) == rb
    requires r.sources == ra.sources + rb.sources && r.includes == ra.includes + rb.includes && r.marks == ra.marks + rb.marks
    ensures Read(a + b) == r
  {
    PartsConcat(a, b);
  }

  /** The bodies of the first k listed headers, one after another. */
  function MergedBodies(tree: Tree, order: seq<Name>, k: nat): seq<Line>
    requires k <= |order| && forall f :: f in order ==> f in tree
  {
    if k == 0 then [] else MergedBodies(tree, order, k - 1) + Body(tree[order[k - 1]], |tree[order[k - 1]]|)
  }

  lemma {:induction false} BodyMerged(tree: Tree, order: seq<Name>, k: nat, i: nat, line: Line)
    requires i < k <= |order| && (forall f :: f in order ==> f in tree) && line in Body(tree[order[i]], |tree[order[i]]|)
    ensures line in MergedBodies(tree, order, k)
    decreases k
  {
    if i < k - 1 {
      BodyMerged(tree, order, k - 1, i, line);
    }
  }

  /** Some listed header has a system include of that name outside every conditional. */
  ghost predicate Hoisted(tree: Tree, order: seq<Name>, name: Name) {
    exists f, p: nat :: f in order && f in tree && p < |tree[f]| && tree[f][p] == System(name) && !Enclosed(tree[f], p)
  }

  lemma HoistedIff(tree: Tree, order: seq<Name>, name: Name)
    ensures Hoisted(tree, order, name) <==> exists f :: f in order && f in tree && name in Systems(tree[f], |tree[f]|)
  {
    if Hoisted(tree, order, name) {
      var f, p: nat :| f in order && f in tree && p < |tree[f]| && tree[f][p] == System(name) && !Enclosed(tree[f], p);
      SystemsIff(tree[f], |tree[f]|, name);
    }
    if f :| f in order && f in tree && name in Systems(tree[f], |tree[f]|) {
      SystemsIff(tree[f], |tree[f]|, name);
    }
  }

  lemma KeptInBody(lines: seq<Line>, p: nat)
    requires p < |lines| && Kept(lines, p)
    ensures lines[p] in Body(lines, |lines|)
  {
    PositionsExact(lines, |lines|, p);
    var j :| 0 <= j < |Positions(lines, |lines|)| && Positions(lines, |lines|)[j] == p;
    BodyIsFilter(lines, |lines|, j);
  }

  /**
   * Where each line of a reachable header ends up. A system include inside a conditional stays in its header's body; it
   * is in the prologue only if some header also has it outside every conditional.
   */
  lemma EveryLineAccounted(tree: Tree, entries: seq<Name>, order: seq<Name>, includes: seq<Name>, i: nat, p: nat)
    requires (forall f :: f in order ==> f in tree) && i < |order| && p < |tree[order[i]]|
    requires forall f :: f in order <==> Reachable(tree, entries, f)
    requires forall s :: s in includes <==> Hoisted(tree, order, s)
    ensures var lines := tree[order[i]];
      match lines[p]
      case PragmaOnce => true
      case Project(h) => !Enclosed(lines, p) ==> h in order
      case System(n) => if Enclosed(lines, p) then lines[p] in MergedBodies(tree, order, |order|) else n in includes
      case _ => lines[p] in MergedBodies(tree, order, |order|)
  {
    var lines := tree[order[i]];
    assert order[i] in order;
    KeptIff(lines, p);
    if Kept(lines, p) {
      KeptInBody(lines, p);
      BodyMerged(tree, order, |order|, i, lines[p]);
    } else if lines[p].Project? && !Enclosed(lines, p) {
      ProjectsIff(lines, |lines|, lines[p].path);
      ReachableStep(tree, entries, order[i], lines[p].path);
    }
  }

  /** The C headers come before the others, and each group is ascending; so no name comes twice. */
  predicate Grouped(names: seq<Name>) {
    forall i, j :: 0 <= i < j < |names| ==>
      if IsCHeader(names[i]) == IsCHeader(names[j]) then Before(names[i], names[j]) else IsCHeader(names[i])
  }

  /** A grouped list names nothing twice. */
  lemma GroupedOnce(names: seq<Name>, i: nat, j: nat)
    requires Grouped(names) && i < j < |names|
    ensures names[i] != names[j]
  {
    BeforeTotal(names[i], names[i]);
  }

  /** Every include of the prologue stands before every line of a body. */
  predicate PrologueFirst(parts: seq<Part>) {
    forall i, j :: 0 <= i < |parts| && 0 <= j < |parts| && parts[i].Include? && (parts[j].Source? || parts[j].Mark?) ==> i < j
  }

  function IncludeParts(names: seq<Name>): seq<Part> {
    if names == [] then [] else seq(|names|, i requires 0 <= i < |names| => Include(names[i])) + [Fixed("")]
  }

  function SourceParts(lines: seq<Line>): seq<Part> {
    seq(|lines|, i requires 0 <= i < |lines| => Source(lines[i]))
  }

  function Section(rel: Name, lines: seq<Line>): seq<Part> {
    [Mark(rel)] + SourceParts(Body(lines, |lines|)) + [Fixed("")]
  }

  function Sections(tree: Tree, order: seq<Name>, k: nat): seq<Part>
    requires k <= |order| && forall f :: f in order ==> f in tree
  {
    if k == 0 then [] else Sections(tree, order, k - 1) + Section(order[k - 1], tree[order[k - 1]])
  }

  method EmitIncludes(parts: seq<Part>, names: seq<Name>) returns (out: seq<Part>)
    ensures out == parts + IncludeParts(names)
  {
    out := parts;
    if names != [] {
      for k := 0 to |names|
        invariant out == parts + IncludeParts(names)[..k]
      {
        out := out + [Include(names[k])];
      }
      out := out + [Fixed("")];
    }
  }

  method EmitBody(parts: seq<Part>, rel: Name, lines: seq<Line>) returns (out: seq<Part>)
    ensures out == parts + Section(rel, lines)
  {
    var body := StripLines(lines);
    out := parts + [Mark(rel)];
    for k := 0 to |body|
      invariant out == parts + [Mark(rel)] + SourceParts(body)[..k]
    {
      out := out + [Source(body[k])];
    }
    out := out + [Fixed("")];
  }

  // Reading the emitted parts back.

  lemma {:induction false} IncludePartsRead(names: seq<Name>)
    ensures Read(IncludeParts(names)) == Reading([], names, [])
  {
    if names != [] {
      var parts := IncludeParts(names);
      IncludeRunRead(names, parts[..|names|]);
      assert parts[..|parts| - 1] == parts[..|names|];
    }
  }

  lemma {:induction false} IncludeRunRead(names: seq<Name>, run: seq<Part>)
    requires |run| == |names| && forall i :: 0 <= i < |names| ==> run[i] == Include(names[i])
    ensures Read(run) == Reading([], names, [])
    decreases |names|
  {
    if names != [] {
      IncludeRunRead(names[..|names| - 1], run[..|run| - 1]);
    }
  }

  lemma {:induction false} SourcePartsRead(lines: seq<Line>)
    ensures Read(SourceParts(lines)) == Reading(lines, [], [])
    decreases |lines|
  {
    if lines != [] {
      var parts := SourceParts(lines);
      assert parts[..|parts| - 1] == SourceParts(lines[..|lines| - 1]);
      SourcePartsRead(lines[..|lines| - 1]);
    }
  }

  lemma OnePart(p: Part)
    ensures Read([p]) == Reading(if p.Source? then [p.line] else [], if p.Include? then [p.name] else [], if p.Mark? then [p.header] else [])
  {
    assert [p][..0] == [];
    assert SourcesOf([p]) == if p.Source? then [p.line] else [];
    assert IncludesOf([p]) == if p.Include? then [p.name] else [];
    assert MarksOf([p]) == if p.Mark? then [p.header] else [];
  }

  lemma MarkedRead(rel: Name, body: seq<Line>, parts: seq<Part>)
    requires Read(parts) == Reading(body, [], [])
    ensures Read([Mark(rel)] + parts) == Reading(body, [], [rel])
  {
    OnePart(Mark(rel));
    ReadsTogether([Mark(rel)], parts, Reading([], [], [rel]), Reading(body, [], []), Reading(body, [], [rel]));
  }

  lemma BlankRead(parts: seq<Part>, r: Reading)
    requires Read(parts) == r
    ensures Read(parts + [Fixed("")]) == r
  {
    OnePart(Fixed(""));
    ReadsTogether(parts, [Fixed("")], r, Reading([], [], []), r);
  }

  lemma SectionRead(rel: Name, lines: seq<Line>)
    ensures Read(Section(rel, lines)) == Reading(Body(lines, |lines|), [], [rel])
  {
    var body := Body(lines, |lines|);
    SourcePartsRead(body);
    MarkedRead(rel, body, SourceParts(body));
    BlankRead([Mark(rel)] + SourceParts(body), Reading(body, [], [rel]));
  }

  lemma {:induction false} SectionsRead(tree: Tree, order: seq<Name>, k: nat)
    requires k <= |order| && forall f :: f in order ==> f in tree
    ensures Read(Sections(tree, order, k)) == Reading(MergedBodies(tree, order, k), [], order[..k])
  {
    if k > 0 {
      var rel := order[k - 1];
      var body := Body(tree[rel], |tree[rel]|);
      SectionsRead(tree, order, k - 1);
      SectionRead(rel, tree[rel]);
      ReadsTogether(Sections(tree, order, k - 1), Section(rel, tree[rel]),
        Reading(MergedBodies(tree, order, k - 1), [], order[..k - 1]), Reading(body, [], [rel]),
        Reading(MergedBodies(tree, order, k), [], order[..k]));
    }
  }

  /** After a mark, source lines gather in its chunk. */
  lemma {:induction false} ChunkGathers(parts: seq<Part>, rel: Name, lines: seq<Line>)
    ensures ChunksOf(parts + [Mark(rel)] + SourceParts(lines)) == ChunksOf(parts) + [Chunk(rel, lines)]
    decreases |lines|
  {
    var all := parts + [Mark(rel)] + SourceParts(lines);
    if lines == [] {
      assert all[..|all| - 1] == parts && all[|all| - 1] == Mark(rel);
    } else {
      var front := lines[..|lines| - 1];
      assert all[..|all| - 1] == parts + [Mark(rel)] + SourceParts(front);
      ChunkGathers(parts, rel, front);
      assert front + [lines[|lines| - 1]] == lines;
    }
  }

  lemma SectionChunk(parts: seq<Part>, rel: Name, lines: seq<Line>)
    ensures ChunksOf(parts + Section(rel, lines)) == ChunksOf(parts) + [Chunk(rel, Body(lines, |lines|))]
  {
    var all, body := parts + Section(rel, lines), Body(lines, |lines|);
    assert all[..|all| - 1] == parts + [Mark(rel)] + SourceParts(body);
    ChunkGathers(parts, rel, body);
  }

  /** The first k listed headers with their bodies, in list order. */
  function HeaderChunks(tree: Tree, order: seq<Name>, k: nat): seq<Chunk>
    requires k <= |order| && forall f :: f in order ==> f in tree
  {
    if k == 0 then [] else HeaderChunks(tree, order, k - 1) + [Chunk(order[k - 1], Body(tree[order[k - 1]], |tree[order[k - 1]]|))]
  }

  lemma Associates(a: seq<Part>, b: seq<Part>, c: seq<Part>)
    ensures a + (b + c) == (a + b) + c
  {
  }

  lemma NextChunk(front: seq<Part>, before: seq<Part>, rel: Name, lines: seq<Line>, chunks: seq<Chunk>)
    requires ChunksOf(front + before) == chunks
    ensures ChunksOf(front + (before + Section(rel, lines))) == chunks + [Chunk(rel, Body(lines, |lines|))]
  {
    SectionChunk(front + before, rel, lines);
    Associates(front, before, Section(rel, lines));
  }

  /** Read back at its marks, the output is every listed header with its body. */
  lemma {:induction false} SectionsChunks(front: seq<Part>, tree: Tree, order: seq<Name>, k: nat)
    requires k <= |order| && (forall f :: f in order ==> f in tree) && ChunksOf(front) == []
    ensures ChunksOf(front + Sections(tree, order, k)) == HeaderChunks(tree, order, k)
    decreases k
  {
    if k == 0 {
      assert front + [] == front;
    } else {
      var before, rel := Sections(tree, order, k - 1), order[k - 1];
      SectionsChunks(front, tree, order, k - 1);
      NextChunk(front, before, rel, tree[rel], HeaderChunks(tree, order, k - 1));
    }
  }

  lemma {:induction false} SectionsHoldNoInclude(tree: Tree, order: seq<Name>, k: nat)
    requires k <= |order| && forall f :: f in order ==> f in tree
    ensures forall p :: p in Sections(tree, order, k) ==> !p.Include?
  {
    if k > 0 {
      SectionsHoldNoInclude(tree, order, k - 1);
    }
  }

  function Prologue(c: seq<Name>, cxx: seq<Name>): seq<Part> {
    [Fixed("#pragma once")] + IncludeParts(c) + IncludeParts(cxx)
  }

  lemma PrologueRead(c: seq<Name>, cxx: seq<Name>)
    ensures Read(Prologue(c, cxx)) == Reading([], c + cxx, [])
  {
    var first := [Fixed("#pragma once")];
    OnePart(Fixed("#pragma once"));
    IncludePartsRead(c);
    IncludePartsRead(cxx);
    ReadsTogether(first, IncludeParts(c), Reading([], [], []), Reading([], c, []), Reading([], c, []));
    ReadsTogether(first + IncludeParts(c), IncludeParts(cxx), Reading([], c, []), Reading([], cxx, []),
      Reading([], c + cxx, []));
  }

  lemma PrologueKinds(c: seq<Name>, cxx: seq<Name>)
    ensures forall p :: p in Prologue(c, cxx) ==> p.Include? || p.Fixed?
    ensures ChunksOf(Prologue(c, cxx)) == []
  {
    NoChunks(Prologue(c, cxx));
  }

  lemma {:induction false} NoChunks(parts: seq<Part>)
    requires forall p :: p in parts ==> p.Include? || p.Fixed?
    ensures ChunksOf(parts) == []
    decreases |parts|
  {
    if parts != [] {
      assert parts[|parts| - 1] in parts;
      NoChunks(parts[..|parts| - 1]);
    }
  }

  /** The prologue with every system include once, C headers first, then each listed header's mark and body. */
  method Render(tree: Tree, order: seq<Name>, systems: set<Name>) returns (parts: seq<Part>)
    requires forall f :: f in order ==> f in tree
    ensures MarksOf(parts) == order && SourcesOf(parts) == MergedBodies(tree, order, |order|) && PrologueFirst(parts)
    ensures ChunksOf(parts) == HeaderChunks(tree, order, |order|)
    ensures Grouped(IncludesOf(parts)) && forall s :: s in IncludesOf(parts) <==> s in systems
  {
    parts := [Fixed("#pragma once")];
    var c, cxx := SortSystemIncludes(systems);
    parts := EmitIncludes(parts, c);
    parts := EmitIncludes(parts, cxx);
    for k := 0 to |order|
      invariant parts == Prologue(c, cxx) + Sections(tree, order, k)
    {
      parts := EmitBody(parts, order[k], tree[order[k]]);
    }
    GroupsGrouped(c, cxx);
    RenderedReads(tree, order, c, cxx, Prologue(c, cxx), Sections(tree, order, |order|));
    PrologueKinds(c, cxx);
    SectionsHoldNoInclude(tree, order, |order|);
    FrontFirst(Prologue(c, cxx), Sections(tree, order, |order|));
  }

  lemma RenderedReads(tree: Tree, order: seq<Name>, c: seq<Name>, cxx: seq<Name>, front: seq<Part>, rest: seq<Part>)
    requires (forall f :: f in order ==> f in tree) && front == Prologue(c, cxx) && rest == Sections(tree, order, |order|)
    ensures Read(front + rest) == Reading(MergedBodies(tree, order, |order|), c + cxx, order)
    ensures ChunksOf(front + rest) == HeaderChunks(tree, order, |order|)
  {
    PrologueRead(c, cxx);
    PrologueKinds(c, cxx);
    SectionsRead(tree, order, |order|);
    SectionsChunks(front, tree, order, |order|);
    assert order[..|order|] == order;
    ReadsTogether(front, rest, Reading([], c + cxx, []), Reading(MergedBodies(tree, order, |order|), [], order),
      Reading(MergedBodies(tree, order, |order|), c + cxx, order));
  }

  lemma FrontFirst(front: seq<Part>, rest: seq<Part>)
    requires (forall p :: p in front ==> p.Include? || p.Fixed?) && forall p :: p in rest ==> !p.Include?
    ensures PrologueFirst(front + rest)
  {
    var parts := front + rest;
    forall k | 0 <= k < |parts| ensures if k < |front| then parts[k] in front else parts[k] in rest {
      assert parts[k] == if k < |front| then front[k] else rest[k - |front|];
    }
  }

  lemma GroupsGrouped(c: seq<Name>, cxx: seq<Name>)
    requires Ascending(c) && Ascending(cxx) && (forall x :: x in c ==> IsCHeader(x)) && (forall x :: x in cxx ==> !IsCHeader(x))
    ensures Grouped(c + cxx)
  {
    var names := c + cxx;
    forall i, j | 0 <= i < j < |names|
      ensures if IsCHeader(names[i]) == IsCHeader(names[j]) then Before(names[i], names[j]) else IsCHeader(names[i])
    {
      assert i < |c| ==> names[i] == c[i] && c[i] in c;
      assert j < |c| ==> names[j] == c[j] && c[j] in c;
      assert i >= |c| ==> names[i] == cxx[i - |c|] && cxx[i - |c|] in cxx;
      assert j >= |c| ==> names[j] == cxx[j - |c|] && cxx[j - |c|] in cxx;
    }
  }

  /** The whole generation: it fails exactly when a reachable header is missing. */
  method Generate(tree: Tree, entries: seq<Name>) returns (ok: bool, order: seq<Name>, parts: seq<Part>)
    ensures ok <==> forall m :: Reachable(tree, entries, m) ==> m in tree
    ensures ok ==> Distinct(order) && OrderedUnlessCyclic(tree, order) && forall f :: f in order <==> Reachable(tree, entries, f)
    ensures ok ==> (forall f :: f in order ==> f in tree) && MarksOf(parts) == order && SourcesOf(parts) == MergedBodies(tree, order, |order|)
    ensures ok ==> PrologueFirst(parts) && Grouped(IncludesOf(parts))
    ensures ok ==> InTurn(tree, {}, entries, |entries|, order) && ChunksOf(parts) == HeaderChunks(tree, order, |order|)
    ensures ok ==> forall s :: s in IncludesOf(parts) <==> Hoisted(tree, order, s)
  {
    var walk := new Walk(tree);
    ok := walk.WalkEntries(entries);
    order, parts := [], [];
    if ok {
      order := walk.order;
      parts := Render(tree, order, walk.systems);
      forall s ensures s in walk.systems <==> Hoisted(tree, order, s) {
        HoistedIff(tree, order, s);
        assert forall f :: f in walk.visited <==> f in order;
      }
    }
  }
}
