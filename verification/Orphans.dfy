/**
 The orphan check of the documentation gate: a worklist over the link graph marks the
 pages reachable from the two README files; a page under docs/ that is not marked is
 reported. The marks are exactly the pages a path of links leads to.
 */
module Orphans {

  type Graph = map<string, seq<string>>

  function Links(graph: Graph, page: string): seq<string> { if page in graph then graph[page] else [] }

  function Roots(files: seq<string>): (r: seq<string>)
    ensures forall x :: x in r <==> x in ["README.md", "docs/README.md"] && x in files
  {
    (if "README.md" in files then ["README.md"] else []) + if "docs/README.md" in files then ["docs/README.md"] else []
  }

  // --- reachability ----------------------------------------------------------

  // A path of links from its first page to its last.
  ghost predicate Path(graph: Graph, p: seq<string>) {
    p != [] && forall i :: 0 <= i < |p| - 1 ==> Step(graph, p[i], p[i + 1])
  }

  ghost predicate Step(graph: Graph, a: string, b: string) { b in Links(graph, a) }

  ghost predicate PathTo(graph: Graph, roots: seq<string>, page: string, p: seq<string>) {
    Path(graph, p) && p[0] in roots && p[|p| - 1] == page
  }

  ghost predicate Reachable(graph: Graph, roots: seq<string>, page: string) {
    exists p :: PathTo(graph, roots, page, p)
  }

  lemma RootReachable(graph: Graph, roots: seq<string>, page: string)
    requires page in roots
    ensures Reachable(graph, roots, page)
  {
    assert PathTo(graph, roots, page, [page]);
  }

  lemma LinkReachable(graph: Graph, roots: seq<string>, page: string, next: string)
    requires Reachable(graph, roots, page) && next in Links(graph, page)
    ensures Reachable(graph, roots, next)
  {
    var p :| PathTo(graph, roots, page, p);
    var q := p + [next];
    forall i | 0 <= i < |q| - 1 ensures Step(graph, q[i], q[i + 1]) {
      if i < |p| - 1 { assert q[i] == p[i] && q[i + 1] == p[i + 1]; }
    }
    assert PathTo(graph, roots, next, q);
  }

  // A set of pages that no link leaves.
  ghost predicate Closed(graph: Graph, pages: set<string>) {
    forall a, b :: a in pages && Step(graph, a, b) ==> b in pages
  }

  // No path leaves a closed set.
  lemma {:induction false} ClosedKeeps(graph: Graph, pages: set<string>, p: seq<string>)
    requires Closed(graph, pages) && Path(graph, p) && p[0] in pages
    ensures p[|p| - 1] in pages
  {
    if |p| > 1 {
      assert Step(graph, p[0], p[0 + 1]);
      var q := p[1..];
      forall i | 0 <= i < |q| - 1 ensures Step(graph, q[i], q[i + 1]) {
        assert Step(graph, p[i + 1], p[i + 1 + 1]);
      }
      ClosedKeeps(graph, pages, q);
    }
  }

  lemma ClosedReaches(graph: Graph, pages: set<string>, roots: seq<string>, page: string)
    requires Closed(graph, pages) && Reachable(graph, roots, page) && forall r :: r in roots ==> r in pages
    ensures page in pages
  {
    var p :| PathTo(graph, roots, page, p);
    ClosedKeeps(graph, pages, p);
  }

  // --- the worklist ----------------------------------------------------------

  // Every page the worklist can meet.
  ghost function Pages(graph: Graph, roots: seq<string>): set<string> {
    (set r | r in roots) + set a, i | a in graph && 0 <= i < |graph[a]| :: graph[a][i]
  }

  // Marked pages that are not waiting have all their links marked.
  ghost predicate Followed(graph: Graph, reachable: set<string>, queue: seq<string>) {
    forall a, b :: a in reachable && a !in queue && Step(graph, a, b) ==> b in reachable
  }

  ghost predicate Sound(graph: Graph, roots: seq<string>, reachable: set<string>) {
    forall a :: a in reachable ==> a in Pages(graph, roots) && Reachable(graph, roots, a)
  }

  method MarkReachable(graph: Graph, roots: seq<string>) returns (reachable: set<string>)
    ensures forall page :: page in reachable <==> Reachable(graph, roots, page)
  {
    hide Reachable, Pages;
    reachable := set r | r in roots;
    var queue := roots;
    RootsSound(graph, roots);
    while queue != []
      invariant Sound(graph, roots, reachable)
      invariant forall r :: r in roots ==> r in reachable
      invariant forall a :: a in queue ==> a in reachable
      invariant Followed(graph, reachable, queue)
      decreases Pages(graph, roots) - reachable, |queue|
    {
      var cur := queue[|queue| - 1];
      reachable, queue := Visit(graph, roots, cur, reachable, queue[..|queue| - 1]);
    }
    assert Closed(graph, reachable);
    forall page ensures page in reachable <==> Reachable(graph, roots, page) {
      if Reachable(graph, roots, page) { ClosedReaches(graph, reachable, roots, page); }
    }
  }

  lemma RootsSound(graph: Graph, roots: seq<string>)
    ensures Sound(graph, roots, set r | r in roots)
  {
    forall r | r in roots ensures Reachable(graph, roots, r) { RootReachable(graph, roots, r); }
  }

  // The inner loop: marks and queues each link of a page that is not marked yet.
  method Visit(graph: Graph, roots: seq<string>, cur: string, marked: set<string>, waiting: seq<string>)
    returns (reachable: set<string>, queue: seq<string>)
    requires Sound(graph, roots, marked) && cur in marked && forall a :: a in waiting ==> a in marked
    requires Followed(graph, marked, waiting + [cur])
    ensures Sound(graph, roots, reachable) && marked <= reachable
    ensures forall a :: a in queue ==> a in reachable
    ensures Followed(graph, reachable, queue)
    ensures reachable == marked ==> queue == waiting
  {
    hide Reachable, Pages;
    reachable, queue := marked, waiting;
    var links := Links(graph, cur);
    for i := 0 to |links|
      invariant Sound(graph, roots, reachable) && marked <= reachable
      invariant forall a :: a in waiting ==> a in queue
      invariant forall a :: a in queue ==> a in reachable
      invariant forall a :: a in reachable && a !in queue ==> a in marked
      invariant forall k :: 0 <= k < i ==> links[k] in reachable
      invariant reachable == marked ==> queue == waiting
    {
      var nxt := links[i];
      if nxt !in reachable {
        LinkSound(graph, roots, cur, i);
        reachable := reachable + {nxt};
        queue := queue + [nxt];
      }
    }
    forall a, b | a in reachable && a !in queue && Step(graph, a, b) ensures b in reachable {
      if a != cur { assert a !in waiting + [cur]; }
    }
  }

  lemma LinkSound(graph: Graph, roots: seq<string>, page: string, i: nat)
    requires Reachable(graph, roots, page) && i < |Links(graph, page)|
    ensures Reachable(graph, roots, Links(graph, page)[i]) && Links(graph, page)[i] in Pages(graph, roots)
  {
    LinkReachable(graph, roots, page, Links(graph, page)[i]);
  }

  // --- the findings ----------------------------------------------------------

  ghost predicate Orphan(graph: Graph, roots: seq<string>, page: string) {
    "docs/" <= page && !Reachable(graph, roots, page)
  }

  ghost function OrphansOf(graph: Graph, roots: seq<string>, files: seq<string>): (r: seq<string>)
    ensures forall page :: page in r <==> page in files && Orphan(graph, roots, page)
  {
    if files == [] then []
    else
      var n := |files| - 1;
      assert files == files[..n] + [files[n]];
      OrphansOf(graph, roots, files[..n]) + if Orphan(graph, roots, files[n]) then [files[n]] else []
  }

  // Reports exactly the pages under docs/ that no path reaches, in file order.
  method CheckOrphan(graph: Graph, files: seq<string>) returns (findings: seq<string>)
    ensures findings == OrphansOf(graph, Roots(files), files)
  {
    hide Reachable;
    var reachable := MarkReachable(graph, Roots(files));
    findings := [];
    for i := 0 to |files|
      invariant findings == OrphansOf(graph, Roots(files), files[..i])
    {
      assert files[..i + 1][..i] == files[..i];
      if "docs/" <= files[i] && files[i] !in reachable {
        findings := findings + [files[i]];
      }
    }
    assert files[..|files|] == files;
  }

  // New links only take pages off the report.
  lemma LinksOnlyHelp(graph: Graph, more: Graph, roots: seq<string>, page: string)
    requires (forall a, b :: Step(graph, a, b) ==> Step(more, a, b)) && Reachable(graph, roots, page)
    ensures Reachable(more, roots, page)
  {
    var p :| PathTo(graph, roots, page, p);
    assert PathTo(more, roots, page, p);
  }
}
