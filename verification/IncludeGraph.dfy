/** The include graph of the modular tree and the header amalgamation over it. */
module IncludeGraph {
  type Name = string

  /** A source line as the line patterns classify it. */
  datatype Line = If(text: string) | Endif(text: string) | PragmaOnce | Project(path: Name) | System(name: Name) | Other(text: string)

  /** The modular tree: the lines of every header that exists. */
  type Tree = map<Name, seq<Line>>

  /** Preprocessor depth before line k: a stray #endif at depth zero changes nothing. */
  function Depth(lines: seq<Line>, k: nat): nat
    requires k <= |lines|
  {
    if k == 0 then 0 else
      var d := Depth(lines, k - 1);
      match lines[k - 1]
      case If(_) => d + 1
      case Endif(_) => if d == 0 then 0 else d - 1
      case _ => d
  }

  /** The project includes at depth zero among the first k lines. */
  function Projects(lines: seq<Line>, k: nat): seq<Name>
    requires k <= |lines|
  {
    if k == 0 then [] else
      var before := Projects(lines, k - 1);
      if lines[k - 1].Project? && Depth(lines, k - 1) == 0 then before + [lines[k - 1].path] else before
  }

  function Systems(lines: seq<Line>, k: nat): seq<Name>
    requires k <= |lines|
  {
    if k == 0 then [] else
      var before := Systems(lines, k - 1);
      if lines[k - 1].System? && Depth(lines, k - 1) == 0 then before + [lines[k - 1].name] else before
  }

  /** What the merge keeps of line k. */
  predicate Kept(lines: seq<Line>, k: nat)
    requires k < |lines|
  {
    match lines[k]
    case PragmaOnce => false
    case Project(_) => false
    case System(_) => Depth(lines, k) > 0
    case _ => true
  }

  function Body(lines: seq<Line>, k: nat): (r: seq<Line>)
    requires k <= |lines|
  {
    if k == 0 then [] else if Kept(lines, k - 1) then Body(lines, k - 1) + [lines[k - 1]] else Body(lines, k - 1)
  }

  // What the depth means: conditionals that are still open.

  /** How many conditionals lines i to m - 1 open, and how many they close. */
  function Ifs(lines: seq<Line>, i: nat, m: nat): nat
    requires i <= m <= |lines|
    decreases m - i
  {
    if i == m then 0 else Ifs(lines, i, m - 1) + if lines[m - 1].If? then 1 else 0
  }

  function Endifs(lines: seq<Line>, i: nat, m: nat): nat
    requires i <= m <= |lines|
    decreases m - i
  {
    if i == m then 0 else Endifs(lines, i, m - 1) + if lines[m - 1].Endif? then 1 else 0
  }

  /** Line i opens a conditional that no line before k closes: from i on, more have always been opened than closed. */
  predicate StillOpen(lines: seq<Line>, i: nat, k: nat)
    requires i < k <= |lines|
  {
    lines[i].If? && forall m :: i < m <= k ==> Ifs(lines, i, m) > Endifs(lines, i, m)
  }

  /** Line k stands inside a conditional. */
  predicate Enclosed(lines: seq<Line>, k: nat)
    requires k <= |lines|
  {
    exists i: nat :: i < k && StillOpen(lines, i, k)
  }

  lemma {:induction false} DepthAtLeast(lines: seq<Line>, i: nat, m: nat)
    requires i <= m <= |lines|
    ensures Depth(lines, m) >= Ifs(lines, i, m) - Endifs(lines, i, m)
    decreases m - i
  {
    if i < m {
      DepthAtLeast(lines, i, m - 1);
    }
  }

  /** The last line at depth zero opens the outermost conditional around line k. */
  lemma {:induction false} OutermostOpen(lines: seq<Line>, k: nat) returns (i: nat)
    requires k <= |lines| && Depth(lines, k) > 0
    ensures i < k && lines[i].If?
    ensures forall m :: i < m <= k ==> Depth(lines, m) == Ifs(lines, i, m) - Endifs(lines, i, m) > 0
    decreases k
  {
    if Depth(lines, k - 1) == 0 {
      i := k - 1;
      assert Ifs(lines, i, i) == 0 && Endifs(lines, i, i) == 0;
    } else {
      i := OutermostOpen(lines, k - 1);
    }
  }

  /** Depth zero is exactly outside every conditional. */
  lemma DepthIffEnclosed(lines: seq<Line>, k: nat)
    requires k <= |lines|
    ensures Depth(lines, k) > 0 <==> Enclosed(lines, k)
  {
    if Depth(lines, k) > 0 {
      var i := OutermostOpen(lines, k);
      assert StillOpen(lines, i, k);
    }
    if i: nat :| i < k && StillOpen(lines, i, k) {
      DepthAtLeast(lines, i, k);
    }
  }

  /** The walk follows exactly the includes that no conditional encloses. */
  lemma {:induction false} ProjectsIff(lines: seq<Line>, k: nat, path: Name)
    requires k <= |lines|
    ensures path in Projects(lines, k) <==> exists p: nat :: p < k && lines[p] == Project(path) && !Enclosed(lines, p)
  {
    if k > 0 {
      ProjectsIff(lines, k - 1, path);
      DepthIffEnclosed(lines, k - 1);
    }
  }

  /** The system includes collected are exactly those that no conditional encloses. */
  lemma {:induction false} SystemsIff(lines: seq<Line>, k: nat, name: Name)
    requires k <= |lines|
    ensures name in Systems(lines, k) <==> exists p: nat :: p < k && lines[p] == System(name) && !Enclosed(lines, p)
  {
    if k > 0 {
      SystemsIff(lines, k - 1, name);
      DepthIffEnclosed(lines, k - 1);
    }
  }

  /** Includes are listed where they stand: an outer one comes right after those of the lines above it. */
  lemma {:induction false} ProjectsInOrder(lines: seq<Line>, k: nat, p: nat)
    requires p < k <= |lines| && lines[p].Project? && !Enclosed(lines, p)
    ensures Projects(lines, p) + [lines[p].path] <= Projects(lines, k)
    decreases k
  {
    if p == k - 1 {
      DepthIffEnclosed(lines, p);
    } else {
      ProjectsInOrder(lines, k - 1, p);
    }
  }

  /** A body loses the guard line, every project include and the system includes outside conditionals, nothing else. */
  lemma KeptIff(lines: seq<Line>, p: nat)
    requires p < |lines|
    ensures Kept(lines, p) <==> !lines[p].PragmaOnce? && !lines[p].Project? && (lines[p].System? ==> Enclosed(lines, p))
  {
    DepthIffEnclosed(lines, p);
  }

  /** parse_includes: one pass, hoisting what stands outside every conditional. */
  method ParseIncludes(lines: seq<Line>) returns (project: seq<Name>, system: seq<Name>)
    ensures project == Projects(lines, |lines|) && system == Systems(lines, |lines|)
  {
    project, system := [], [];
    var depth := 0;
    for k := 0 to |lines|
      invariant depth == Depth(lines, k) && project == Projects(lines, k) && system == Systems(lines, k)
    {
      var line := lines[k];
      if line.If? {
        depth := depth + 1;
      } else if line.Endif? {
        depth := if depth - 1 > 0 then depth - 1 else 0;
      } else if depth > 0 {
      } else if line.Project? {
        project := project + [line.path];
      } else if line.System? {
        system := system + [line.name];
      }
    }
  }

  /** strip_lines: the body of a header in the merged file. */
  method StripLines(lines: seq<Line>) returns (out: seq<Line>)
    ensures out == Body(lines, |lines|)
  {
    out := [];
    var depth := 0;
    for k := 0 to |lines|
      invariant depth == Depth(lines, k) && out == Body(lines, k)
    {
      var line := lines[k];
      if line.If? {
        depth := depth + 1;
        out := out + [line];
      } else if line.Endif? {
        depth := if depth - 1 > 0 then depth - 1 else 0;
        out := out + [line];
      } else if line.PragmaOnce? {
      } else if line.Project? {
      } else if depth == 0 && line.System? {
      } else {
        out := out + [line];
      }
    }
  }

  // Reachability.

  predicate Edge(tree: Tree, a: Name, b: Name) {
    a in tree && b in Projects(tree[a], |tree[a]|)
  }

  predicate Path(tree: Tree, path: seq<Name>) {
    path != [] && forall k :: 0 < k < |path| ==> Edge(tree, path[k - 1], path[k])
  }

  ghost predicate Reaches(tree: Tree, a: Name, b: Name) {
    exists path :: Path(tree, path) && path[0] == a && path[|path| - 1] == b
  }

  ghost predicate Reachable(tree: Tree, entries: seq<Name>, b: Name) {
    exists a :: a in entries && Reaches(tree, a, b)
  }

  lemma ReachesSelf(tree: Tree, a: Name)
    ensures Reaches(tree, a, a)
  {
    assert Path(tree, [a]);
  }

  lemma ReachesStep(tree: Tree, a: Name, b: Name, c: Name)
    requires Reaches(tree, a, b) && Edge(tree, b, c)
    ensures Reaches(tree, a, c)
  {
    var path :| Path(tree, path) && path[0] == a && path[|path| - 1] == b;
    assert Path(tree, path + [c]);
    assert (path + [c])[0] == a && (path + [c])[|path|] == c;
  }

  lemma ReachableStep(tree: Tree, entries: seq<Name>, b: Name, c: Name)
    requires Reachable(tree, entries, b) && Edge(tree, b, c)
    ensures Reachable(tree, entries, c)
  {
    var a :| a in entries && Reaches(tree, a, b);
    ReachesStep(tree, a, b, c);
  }

  lemma ReachesVia(tree: Tree, a: Name, b: Name, c: Name)
    requires Edge(tree, a, b) && Reaches(tree, b, c)
    ensures Reaches(tree, a, c)
  {
    var path :| Path(tree, path) && path[0] == b && path[|path| - 1] == c;
    assert Path(tree, [a] + path);
    assert ([a] + path)[0] == a && ([a] + path)[|path|] == c;
  }

  lemma PathTail(tree: Tree, path: seq<Name>)
    requires Path(tree, path) && |path| > 1
    ensures Path(tree, path[1..])
  {
    var rest := path[1..];
    forall k | 0 < k < |rest| ensures Edge(tree, rest[k - 1], rest[k]) {
      assert Edge(tree, path[k], path[k + 1]);
    }
  }

  /** A set closed under project includes holds everything its members reach. */
  lemma {:induction false} ClosedHolds(tree: Tree, closed: set<Name>, path: seq<Name>)
    requires Path(tree, path) && path[0] in closed
    requires forall a, b :: a in closed && Edge(tree, a, b) ==> b in closed
    ensures path[|path| - 1] in closed
    decreases |path|
  {
    if |path| > 1 {
      assert Edge(tree, path[0], path[1]);
      PathTail(tree, path);
      ClosedHolds(tree, closed, path[1..]);
    }
  }
}

/** The depth-first walk that orders the headers. */
module HeaderWalk {
  import opened IncludeGraph

  function Listed(order: seq<Name>): set<Name> {
    set f | f in order
  }

  predicate Distinct(order: seq<Name>) {
    forall i, j :: 0 <= i < j < |order| ==> order[i] != order[j]
  }

  /** Every include of a listed header has been visited. */
  ghost predicate Closed(tree: Tree, visited: set<Name>, order: seq<Name>) {
    forall i, p :: 0 <= i < |order| && Edge(tree, order[i], p) ==> p in visited
  }

  /** Every include of a listed header stands before it, unless the two lie on a cycle. */
  ghost predicate OrderedUnlessCyclic(tree: Tree, order: seq<Name>) {
    forall i, p :: 0 <= i < |order| && Edge(tree, order[i], p) ==> p in order[..i] || Reaches(tree, p, order[i])
  }

  /** The system includes collected are those of the visited headers. */
  ghost predicate Collected(tree: Tree, visited: set<Name>, systems: set<Name>) {
    forall s :: s in systems <==> exists f :: f in visited && f in tree && s in Systems(tree[f], |tree[f]|)
  }

  ghost predicate WalkOk(tree: Tree, visited: set<Name>, order: seq<Name>, systems: set<Name>) {
    && Distinct(order) && Listed(order) <= visited <= tree.Keys
    && Closed(tree, visited, order)
    && OrderedUnlessCyclic(tree, order)
    && Collected(tree, visited, systems)
  }

  /** Headers visited but not yet listed: those whose includes are being walked. All of them reach `rel`. */
  ghost predicate OpenReach(tree: Tree, visited: set<Name>, order: seq<Name>, rel: Name) {
    forall g :: g in visited && g !in order ==> Reaches(tree, g, rel)
  }

  lemma OpenReachStep(tree: Tree, visited: set<Name>, order: seq<Name>, rel: Name, p: Name)
    requires OpenReach(tree, visited, order, rel) && Edge(tree, rel, p)
    ensures OpenReach(tree, visited, order, p)
  {
    forall g | g in visited && g !in order ensures Reaches(tree, g, p) {
      ReachesStep(tree, g, rel, p);
    }
  }

  /** Entering a header keeps the walk's facts; it collects its system includes. */
  lemma Entered(tree: Tree, visited: set<Name>, order: seq<Name>, systems: set<Name>, rel: Name)
    requires WalkOk(tree, visited, order, systems) && rel in tree && rel !in visited && OpenReach(tree, visited, order, rel)
    ensures WalkOk(tree, visited + {rel}, order, systems + (set s | s in Systems(tree[rel], |tree[rel]|)))
    ensures OpenReach(tree, visited + {rel}, order, rel)
  {
    ReachesSelf(tree, rel);
  }

  /** Listing a header once all of its includes are visited. */
  lemma ListedLast(tree: Tree, visited: set<Name>, order: seq<Name>, systems: set<Name>, rel: Name)
    requires WalkOk(tree, visited, order, systems) && rel in visited && rel !in order && OpenReach(tree, visited, order, rel)
    requires forall p :: Edge(tree, rel, p) ==> p in visited
    ensures WalkOk(tree, visited, order + [rel], systems)
  {
    var order' := order + [rel];
    forall i, p | 0 <= i < |order'| && Edge(tree, order'[i], p)
      ensures p in visited && (p in order'[..i] || Reaches(tree, p, order'[i]))
    {
      if i < |order| {
        assert order'[..i] == order[..i] && order'[i] == order[i];
      } else {
        assert order'[..i] == order;
      }
    }
  }

  /** Whatever a walk visits for the first time is reachable from where it started. */
  ghost predicate ReachedFrom(tree: Tree, rel: Name, was: set<Name>, now: set<Name>) {
    was <= now && forall f :: f in now && f !in was ==> Reaches(tree, rel, f)
  }

  ghost predicate MissesHeader(tree: Tree, rel: Name) {
    exists m :: Reaches(tree, rel, m) && m !in tree
  }

  lemma ReachedVia(tree: Tree, rel: Name, p: Name, first: set<Name>, was: set<Name>, now: set<Name>)
    requires Edge(tree, rel, p) && ReachedFrom(tree, rel, first, was) && ReachedFrom(tree, p, was, now)
    ensures ReachedFrom(tree, rel, first, now)
  {
    forall f | f in now && f !in first ensures Reaches(tree, rel, f) {
      if f !in was {
        ReachesVia(tree, rel, p, f);
      }
    }
  }

  lemma MissesVia(tree: Tree, rel: Name, p: Name)
    requires Edge(tree, rel, p) && MissesHeader(tree, p)
    ensures MissesHeader(tree, rel)
  {
    var m :| Reaches(tree, p, m) && m !in tree;
    ReachesVia(tree, rel, p, m);
  }

  /** The headers in progress. */
  function Open(visited: set<Name>, order: seq<Name>): set<Name> {
    visited - Listed(order)
  }

  lemma SameOpen(tree: Tree, was: set<Name>, wasOrder: seq<Name>, now: set<Name>, nowOrder: seq<Name>, rel: Name)
    requires OpenReach(tree, was, wasOrder, rel) && Open(now, nowOrder) == Open(was, wasOrder)
    ensures OpenReach(tree, now, nowOrder, rel)
  {
    forall g | g in now && g !in nowOrder ensures Reaches(tree, g, rel) {
      assert g in Open(now, nowOrder);
    }
  }

  /** Listing the header that was entered closes it again. */
  lemma OpenCloses(was: set<Name>, wasOrder: seq<Name>, entered: set<Name>, now: set<Name>, nowOrder: seq<Name>, rel: Name)
    requires rel !in was && entered == was + {rel} && Open(now, nowOrder) == Open(entered, wasOrder)
    requires Listed(wasOrder) <= was
    ensures Open(now, nowOrder + [rel]) == Open(was, wasOrder)
  {
    assert Listed(nowOrder + [rel]) == Listed(nowOrder) + {rel};
    assert Open(entered, wasOrder) == Open(was, wasOrder) + {rel};
  }

  ghost predicate ListedBefore(order: seq<Name>, a: Name, b: Name) {
    exists i, j :: 0 <= i < j < |order| && order[i] == a && order[j] == b
  }

  /** Nothing visited `xs[j]` before its turn: not the walk so far, and not a walk from an earlier header of the list. */
  ghost predicate Untouched(tree: Tree, was: set<Name>, xs: seq<Name>, j: nat)
    requires j < |xs|
  {
    xs[j] !in was && forall l :: 0 <= l < j ==> !Reaches(tree, xs[l], xs[j])
  }

  /** The headers of `xs` are walked from the first to the last: one nothing else touched is listed after the earlier ones. */
  ghost predicate InTurn(tree: Tree, was: set<Name>, xs: seq<Name>, n: nat, order: seq<Name>)
    requires n <= |xs|
  {
    forall i, j :: 0 <= i < j < n && Untouched(tree, was, xs, j) && xs[i] in order ==> ListedBefore(order, xs[i], xs[j])
  }

  /** What the walk from the first n headers visits is reachable from one of them. */
  ghost predicate ReachedFromSome(tree: Tree, was: set<Name>, xs: seq<Name>, n: nat, now: set<Name>)
    requires n <= |xs|
  {
    forall f :: f in now && f !in was ==> exists l :: 0 <= l < n && Reaches(tree, xs[l], f)
  }

  /** The walk from `xs[n]` after the walks from the earlier ones. */
  lemma NextInTurn(tree: Tree, first: set<Name>, xs: seq<Name>, n: nat, was: set<Name>, wasOrder: seq<Name>, now: set<Name>, nowOrder: seq<Name>)
    requires n < |xs| && InTurn(tree, first, xs, n, wasOrder) && (forall l :: 0 <= l < n ==> xs[l] in was)
    requires ReachedFromSome(tree, first, xs, n, was) && Listed(wasOrder) <= was && Listed(nowOrder) <= now
    requires wasOrder <= nowOrder && Open(now, nowOrder) == Open(was, wasOrder) && xs[n] in now && was <= now
    ensures InTurn(tree, first, xs, n + 1, nowOrder)
  {
    forall i, j | 0 <= i < j < n + 1 && Untouched(tree, first, xs, j) && xs[i] in nowOrder ensures ListedBefore(nowOrder, xs[i], xs[j]) {
      StaysListed(was, wasOrder, now, nowOrder, xs[i]);
      if j < n {
        var a, b :| 0 <= a < b < |wasOrder| && wasOrder[a] == xs[i] && wasOrder[b] == xs[j];
        assert nowOrder[a] == xs[i] && nowOrder[b] == xs[j];
      } else {
        assert xs[n] !in was && xs[n] !in Listed(wasOrder);
        assert xs[n] !in Open(was, wasOrder);
        var a :| 0 <= a < |wasOrder| && wasOrder[a] == xs[i];
        var b :| 0 <= b < |nowOrder| && nowOrder[b] == xs[n];
        NotInPrefix(wasOrder, nowOrder, b);
        assert nowOrder[a] == xs[i];
      }
    }
  }

  lemma NotInPrefix(order: seq<Name>, longer: seq<Name>, b: nat)
    requires order <= longer && b < |longer| && longer[b] !in order
    ensures b >= |order|
  {
  }

  /** A header visited before and listed now was listed before. */
  lemma StaysListed(was: set<Name>, wasOrder: seq<Name>, now: set<Name>, nowOrder: seq<Name>, f: Name)
    requires f in was && f in nowOrder && Open(now, nowOrder) == Open(was, wasOrder)
    ensures f in wasOrder
  {
    assert f !in Open(now, nowOrder);
  }

  lemma ReachedNext(tree: Tree, first: set<Name>, xs: seq<Name>, n: nat, was: set<Name>, now: set<Name>)
    requires n < |xs| && ReachedFromSome(tree, first, xs, n, was) && ReachedFrom(tree, xs[n], was, now)
    ensures ReachedFromSome(tree, first, xs, n + 1, now)
  {
  }

  class Walk {
    const tree: Tree
    var visited: set<Name>
    var order: seq<Name>
    var systems: set<Name>

    constructor (tree: Tree)
      ensures this.tree == tree && visited == {} && order == [] && systems == {}
    {
      this.tree := tree;
      visited, order, systems := {}, [], {};
    }

    /** Visits one header and everything it includes. `ok` is false when a header is missing, which ends the program. */
    method Dfs(rel: Name) returns (ok: bool)
      requires WalkOk(tree, visited, order, systems) && OpenReach(tree, visited, order, rel)
      modifies this
      ensures ok ==> WalkOk(tree, visited, order, systems) && rel in visited
      ensures ok ==> Open(visited, order) == Open(old(visited), old(order)) && ReachedFrom(tree, rel, old(visited), visited)
      ensures ok ==> old(order) <= order
      ensures !ok ==> MissesHeader(tree, rel)
      decreases tree.Keys - visited, 1
    {
      if rel in visited {
        return true;
      }
      ReachesSelf(tree, rel);
      if rel !in tree {
        visited := visited + {rel};
        return false;
      }
      var project, system := ParseIncludes(tree[rel]);
      Entered(tree, visited, order, systems, rel);
      visited := visited + {rel};
      systems := systems + (set s | s in system);
      ghost var entered, before := visited, order;
      ok := DfsAll(rel, project);
      if ok {
        assert rel in Open(entered, before);
        ListedLast(tree, visited, order, systems, rel);
        order := order + [rel];
        OpenCloses(old(visited), old(order), entered, visited, order[..|order| - 1], rel);
      }
    }

    /** Visits the includes of `rel` in source order. */
    method DfsAll(rel: Name, project: seq<Name>) returns (ok: bool)
      requires WalkOk(tree, visited, order, systems) && OpenReach(tree, visited, order, rel)
      requires forall p :: p in project ==> Edge(tree, rel, p)
      modifies this
      ensures ok ==> WalkOk(tree, visited, order, systems) && (forall p :: p in project ==> p in visited)
      ensures ok ==> Open(visited, order) == Open(old(visited), old(order)) && OpenReach(tree, visited, order, rel)
      ensures ok ==> ReachedFrom(tree, rel, old(visited), visited)
      ensures ok ==> old(order) <= order && InTurn(tree, old(visited), project, |project|, order)
      ensures !ok ==> MissesHeader(tree, rel)
      decreases tree.Keys - visited, 2
    {
      for k := 0 to |project|
        invariant WalkOk(tree, visited, order, systems) && (forall p :: p in project[..k] ==> p in visited)
        invariant Open(visited, order) == Open(old(visited), old(order)) && OpenReach(tree, visited, order, rel)
        invariant ReachedFrom(tree, rel, old(visited), visited) && ReachedFromSome(tree, old(visited), project, k, visited)
        invariant old(order) <= order && InTurn(tree, old(visited), project, k, order)
      {
        ghost var v, o := visited, order;
        OpenReachStep(tree, visited, order, rel, project[k]);
        ok := Dfs(project[k]);
        if !ok {
          MissesVia(tree, rel, project[k]);
          return;
        }
        ReachedVia(tree, rel, project[k], old(visited), v, visited);
        ReachedNext(tree, old(visited), project, k, v, visited);
        NextInTurn(tree, old(visited), project, k, v, o, visited, order);
        SameOpen(tree, v, o, visited, order, rel);
      }
      ok := true;
    }

    /** Walks every entry header in turn. */
    method WalkEntries(entries: seq<Name>) returns (ok: bool)
      requires visited == {} && order == [] && systems == {}
      modifies this
      ensures ok ==> WalkOk(tree, visited, order, systems) && visited == Listed(order)
      ensures ok ==> forall f :: f in order <==> Reachable(tree, entries, f)
      ensures ok ==> InTurn(tree, {}, entries, |entries|, order)
      ensures ok <==> forall m :: Reachable(tree, entries, m) ==> m in tree
    {
      for k := 0 to |entries|
        invariant WalkOk(tree, visited, order, systems) && Open(visited, order) == {}
        invariant EntriesWalked(tree, entries, k, visited, order)
      {
        ghost var v, o := visited, order;
        NothingOpen(tree, visited, order, entries[k]);
        ok := Dfs(entries[k]);
        if !ok {
          EntryMisses(tree, entries, k);
          return;
        }
        EntryWalked(tree, entries, k, v, o, visited, order);
      }
      ok := true;
      WalkComplete(tree, visited, order, entries);
    }
  }

  lemma NothingOpen(tree: Tree, visited: set<Name>, order: seq<Name>, rel: Name)
    requires Open(visited, order) == {}
    ensures OpenReach(tree, visited, order, rel)
  {
    forall g ensures g in visited ==> g in order {
      assert g in Open(visited, order) <==> g in visited && g !in order;
    }
  }

  /** The first k entries have been walked, in turn, and nothing but what they reach was visited. */
  ghost predicate EntriesWalked(tree: Tree, entries: seq<Name>, k: nat, visited: set<Name>, order: seq<Name>) {
    && k <= |entries| && (forall l :: 0 <= l < k ==> entries[l] in visited)
    && ReachedFromSome(tree, {}, entries, k, visited) && InTurn(tree, {}, entries, k, order)
  }

  lemma EntryWalked(tree: Tree, entries: seq<Name>, k: nat, was: set<Name>, wasOrder: seq<Name>, now: set<Name>, nowOrder: seq<Name>)
    requires k < |entries| && EntriesWalked(tree, entries, k, was, wasOrder) && ReachedFrom(tree, entries[k], was, now)
    requires Listed(wasOrder) <= was && Listed(nowOrder) <= now && wasOrder <= nowOrder
    requires Open(now, nowOrder) == Open(was, wasOrder) && entries[k] in now
    ensures EntriesWalked(tree, entries, k + 1, now, nowOrder)
  {
    ReachedNext(tree, {}, entries, k, was, now);
    NextInTurn(tree, {}, entries, k, was, wasOrder, now, nowOrder);
  }

  lemma EntryMisses(tree: Tree, entries: seq<Name>, k: nat)
    requires k < |entries| && MissesHeader(tree, entries[k])
    ensures exists m :: Reachable(tree, entries, m) && m !in tree
  {
    var m :| Reaches(tree, entries[k], m) && m !in tree;
    assert entries[k] in entries && Reachable(tree, entries, m);
  }

  lemma NoneOpen(visited: set<Name>, order: seq<Name>)
    requires Listed(order) <= visited && Open(visited, order) == {}
    ensures visited == Listed(order)
  {
    forall f | f in visited ensures f in order {
      assert f !in Open(visited, order);
    }
  }

  /** The listed headers are closed under includes, so everything reachable is among them. */
  lemma AllReached(tree: Tree, order: seq<Name>, entries: seq<Name>, f: Name)
    requires Closed(tree, Listed(order), order) && forall e :: e in entries ==> e in order
    ensures Reachable(tree, entries, f) ==> f in order
  {
    if Reachable(tree, entries, f) {
      var a :| a in entries && Reaches(tree, a, f);
      var path :| Path(tree, path) && path[0] == a && path[|path| - 1] == f;
      forall a, b | a in Listed(order) && Edge(tree, a, b) ensures b in Listed(order) {
        var i :| 0 <= i < |order| && order[i] == a;
      }
      ClosedHolds(tree, Listed(order), path);
    }
  }

  lemma VisitedReachable(tree: Tree, entries: seq<Name>, visited: set<Name>, f: Name)
    requires ReachedFromSome(tree, {}, entries, |entries|, visited) && f in visited
    ensures Reachable(tree, entries, f)
  {
    var l :| 0 <= l < |entries| && Reaches(tree, entries[l], f);
    assert entries[l] in entries;
  }

  /** With nothing left open the list is exactly what the entries reach. */
  lemma WalkComplete(tree: Tree, visited: set<Name>, order: seq<Name>, entries: seq<Name>)
    requires Listed(order) <= visited && Open(visited, order) == {} && Closed(tree, visited, order)
    requires ReachedFromSome(tree, {}, entries, |entries|, visited) && forall l :: 0 <= l < |entries| ==> entries[l] in visited
    ensures visited == Listed(order) && forall f :: f in order <==> Reachable(tree, entries, f)
  {
    NoneOpen(visited, order);
    forall f ensures f in order <==> Reachable(tree, entries, f) {
      AllReached(tree, order, entries, f);
      if f in visited {
        VisitedReachable(tree, entries, visited, f);
      }
    }
  }

  /** No header that can be reached includes itself, directly or through others. */
  ghost predicate Acyclic(tree: Tree, entries: seq<Name>) {
    forall f, p :: Reachable(tree, entries, f) && Edge(tree, f, p) ==> !Reaches(tree, p, f)
  }

  /** Every header stands after all the headers it includes. */
  ghost predicate Topological(tree: Tree, order: seq<Name>) {
    forall i, p :: 0 <= i < |order| && Edge(tree, order[i], p) ==> p in order[..i]
  }

  /** Along includes the position in a topological list only falls. */
  lemma {:induction false} PathFalls(tree: Tree, order: seq<Name>, path: seq<Name>, j: nat)
    requires Topological(tree, order) && j < |order| && Path(tree, path) && path[0] == order[j]
    ensures path[|path| - 1] in order[..j + 1]
    decreases |path|
  {
    if |path| == 1 {
      assert order[..j + 1][j] == path[0];
    } else {
      assert Edge(tree, order[j], path[1]);
      var i :| 0 <= i < j && order[i] == path[1];
      PathTail(tree, path);
      PathFalls(tree, order, path[1..], i);
      assert order[..i + 1] <= order[..j + 1];
    }
  }

  /** A finished walk lists the headers in dependency order exactly when the reachable includes have no cycle. */
  lemma TopologicalIffAcyclic(tree: Tree, entries: seq<Name>, order: seq<Name>)
    requires Distinct(order) && OrderedUnlessCyclic(tree, order) && forall f :: f in order <==> Reachable(tree, entries, f)
    ensures Topological(tree, order) <==> Acyclic(tree, entries)
  {
    if Acyclic(tree, entries) {
      forall i, p | 0 <= i < |order| && Edge(tree, order[i], p) ensures p in order[..i] {
        assert order[i] in order;
      }
    }
    if Topological(tree, order) {
      forall f, p | Reachable(tree, entries, f) && Edge(tree, f, p) ensures !Reaches(tree, p, f) {
        NoWayBack(tree, order, f, p);
      }
    }
  }

  /** Anything reached from position j stands at or before it. */
  lemma ReachFalls(tree: Tree, order: seq<Name>, j: nat, f: Name)
    requires Topological(tree, order) && j < |order|
    ensures Reaches(tree, order[j], f) ==> f in order[..j + 1]
  {
    if Reaches(tree, order[j], f) {
      var path :| Path(tree, path) && path[0] == order[j] && path[|path| - 1] == f;
      PathFalls(tree, order, path, j);
    }
  }

  lemma NotEarlier(order: seq<Name>, i: nat, j: nat)
    requires Distinct(order) && j < i < |order|
    ensures order[i] !in order[..j + 1]
  {
  }

  lemma NoWayBack(tree: Tree, order: seq<Name>, f: Name, p: Name)
    requires Distinct(order) && Topological(tree, order) && f in order && Edge(tree, f, p)
    ensures !Reaches(tree, p, f)
  {
    var i :| 0 <= i < |order| && order[i] == f;
    assert p in order[..i];
    var j :| 0 <= j < i && order[j] == p;
    ReachFalls(tree, order, j, f);
    NotEarlier(order, i, j);
  }
}
