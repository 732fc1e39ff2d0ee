/** Paths through a graph given by its successor lists. */
module Paths {

  ghost predicate IsPath<T(!new)>(succ: T -> seq<T>, from: T, to: T, p: seq<T>) {
    && |p| >= 1 && p[0] == from && p[|p| - 1] == to
    && forall i :: 0 <= i < |p| - 1 ==> p[i + 1] in succ(p[i])
  }

  ghost predicate Reachable<T(!new)>(succ: T -> seq<T>, from: T, to: T) {
    exists p :: IsPath(succ, from, to, p)
  }

  lemma ReachesItself<T(!new)>(succ: T -> seq<T>, v: T)
    ensures Reachable(succ, v, v)
  {
    assert IsPath(succ, v, v, [v]);
  }

  lemma PathPush<T(!new)>(succ: T -> seq<T>, v: T, w: T, to: T, p: seq<T>)
    requires w in succ(v) && IsPath(succ, w, to, p)
    ensures IsPath(succ, v, to, [v] + p)
  {
    var q := [v] + p;
    assert q[|q| - 1] == p[|p| - 1];
    forall i | 0 <= i < |q| - 1 ensures q[i + 1] in succ(q[i]) {
      if i > 0 {
        assert p[(i - 1) + 1] in succ(p[i - 1]);
      }
    }
  }

  lemma ReachesVia<T(!new)>(succ: T -> seq<T>, v: T, w: T, to: T)
    requires w in succ(v) && Reachable(succ, w, to)
    ensures Reachable(succ, v, to)
  {
    var p :| IsPath(succ, w, to, p);
    PathPush(succ, v, w, to, p);
  }

  // A path from inside a set that is closed under successors, as far as the path goes, stays inside.
  lemma {:induction false} ClosedSetTraps<T(!new)>(succ: T -> seq<T>, S: set<T>, from: T, to: T, p: seq<T>)
    requires from in S && IsPath(succ, from, to, p)
    requires forall v, w :: v in p && w in p && v in S && w in succ(v) ==> w in S
    ensures to in S
    decreases |p|
  {
    if |p| == 1 {
    } else {
      var q := p[1..];
      assert p[0 + 1] in succ(p[0]);
      assert IsPath(succ, q[0], to, q) by {
        forall i | 0 <= i < |q| - 1 ensures q[i + 1] in succ(q[i]) {
          assert p[(i + 1) + 1] in succ(p[i + 1]);
        }
      }
      ClosedSetTraps(succ, S, q[0], to, q);
    }
  }

  // Sizes of what a search has not visited yet.
  lemma Shrinks<T>(all: set<T>, visited: set<T>, v: T)
    requires v in all && v !in visited
    ensures |all - (visited + {v})| < |all - visited|
  {
    assert all - (visited + {v}) == (all - visited) - {v};
  }

  lemma Fewer<T>(all: set<T>, a: set<T>, b: set<T>)
    requires a <= b
    ensures |all - b| <= |all - a|
  {
    var x, y := all - b, all - a;
    assert y == x + (y - x) && |y| == |x| + |y - x|;
  }
}

/** The shortest import chain: a breadth-first search and the walk back along its tree. */
module ImportChain {
  import opened Paths

  // An import path is never empty; the empty string marks the root of the search tree.
  type ImportPath = p: string | p != "" witness "main"

  type Graph = map<ImportPath, seq<ImportPath>>

  function Imports(graph: Graph): ImportPath -> seq<ImportPath> {
    (p: ImportPath) => if p in graph then graph[p] else []
  }

  // A finite set holds every package the search can meet.
  ghost predicate Covers(graph: Graph, all: set<ImportPath>) {
    forall p, q :: q in Imports(graph)(p) ==> q in all
  }

  lemma Universe(graph: Graph, start: ImportPath) returns (all: set<ImportPath>)
    ensures start in all && Covers(graph, all)
  {
    all := {start} + set p, q | p in graph && q in graph[p] :: q;
    assert forall p, q :: q in Imports(graph)(p) ==> p in graph && q in graph[p];
  }

  // The search tree: every package but the start hangs below a package that imports it.
  ghost predicate Tree(graph: Graph, start: ImportPath, previous: map<ImportPath, string>,
                       depth: map<ImportPath, nat>)
  {
    && depth.Keys == previous.Keys
    && start in previous && previous[start] == "" && depth[start] == 0
    && forall v {:trigger Hangs(graph, previous, depth, v)} :: v in previous && v != start ==>
        Hangs(graph, previous, depth, v)
  }

  // v is imported by the package it hangs below, and one deeper.
  ghost predicate Hangs(graph: Graph, previous: map<ImportPath, string>, depth: map<ImportPath, nat>, v: ImportPath)
    requires depth.Keys == previous.Keys && v in previous
  {
    var u := previous[v];
    u != "" && u in previous && v in Imports(graph)(u) && depth[v] == depth[u] + 1
  }

  // The queue runs through at most two depths, in order, and everything shallower is processed.
  ghost predicate Frontier(previous: map<ImportPath, string>, depth: map<ImportPath, nat>, queue: seq<ImportPath>,
                           floor: nat)
    requires depth.Keys == previous.Keys
  {
    && (forall i :: 0 <= i < |queue| ==> queue[i] in previous && floor <= depth[queue[i]])
    && (forall v :: v in previous ==> depth[v] <= floor + 1)
    && (forall i, j :: 0 <= i <= j < |queue| ==> depth[queue[i]] <= depth[queue[j]])
    && (forall i, j :: 0 <= i < j < |queue| ==> queue[i] != queue[j])
  }

  // The imports of v are in the tree, at most one deeper.
  ghost predicate Processed(graph: Graph, depth: map<ImportPath, nat>, v: ImportPath)
  {
    v in depth && forall w :: w in Imports(graph)(v) ==> w in depth && depth[w] <= depth[v] + 1
  }

  // Everything within fewer steps than bound is in the tree at no greater depth.
  lemma {:induction false} NearIsShallow(graph: Graph, start: ImportPath, depth: map<ImportPath, nat>, bound: nat,
                                         to: ImportPath, p: seq<ImportPath>)
    requires start in depth && depth[start] == 0
    requires forall v :: v in depth && depth[v] < bound ==> Processed(graph, depth, v)
    requires IsPath(Imports(graph), start, to, p) && |p| <= bound + 1
    ensures to in depth && depth[to] <= |p| - 1
    decreases |p|
  {
    if |p| == 1 {
    } else {
      var q := p[..|p| - 1];
      var u := q[|q| - 1];
      assert IsPath(Imports(graph), start, u, q) by {
        forall i | 0 <= i < |q| - 1 ensures q[i + 1] in Imports(graph)(q[i]) {
          assert p[i + 1] in Imports(graph)(p[i]);
        }
      }
      NearIsShallow(graph, start, depth, bound, u, q);
      assert p[(|p| - 2) + 1] in Imports(graph)(p[|p| - 2]);
      assert Processed(graph, depth, u);
    }
  }

  // The state of the search before it meets the target.
  ghost predicate Searching(graph: Graph, start: ImportPath, target: ImportPath, previous: map<ImportPath, string>,
                            depth: map<ImportPath, nat>, queue: seq<ImportPath>, floor: nat)
  {
    && Tree(graph, start, previous, depth)
    && Frontier(previous, depth, queue, floor)
    && forall v :: v in previous && v !in queue ==> v != target && Processed(graph, depth, v)
  }

  lemma Pop(graph: Graph, start: ImportPath, target: ImportPath, previous: map<ImportPath, string>,
            depth: map<ImportPath, nat>, queue: seq<ImportPath>, floor: nat)
    requires Searching(graph, start, target, previous, depth, queue, floor) && queue != []
    ensures queue[0] in previous && queue[0] !in queue[1..]
    ensures Frontier(previous, depth, queue[1..], depth[queue[0]])
    ensures forall v :: v in previous && v !in queue[1..] && v != queue[0] ==> v != target && Processed(graph, depth, v)
    ensures forall v :: v in previous && depth[v] < depth[queue[0]] ==> Processed(graph, depth, v)
  {
    assert forall v :: v in queue ==> v == queue[0] || v in queue[1..];
    assert forall v :: v in previous && depth[v] < depth[queue[0]] ==> v !in queue;
  }

  // A package met for the first time goes into the tree and to the end of the queue.
  lemma Discover(graph: Graph, start: ImportPath, previous: map<ImportPath, string>, depth: map<ImportPath, nat>,
                 queue: seq<ImportPath>, floor: nat, current: ImportPath, imported: ImportPath,
                 previous1: map<ImportPath, string>, depth1: map<ImportPath, nat>)
    requires Tree(graph, start, previous, depth) && Frontier(previous, depth, queue, floor)
    requires current in previous && depth[current] == floor && imported in Imports(graph)(current)
    requires imported !in previous
    requires previous1 == previous[imported := current] && depth1 == depth[imported := floor + 1]
    ensures Tree(graph, start, previous1, depth1)
    ensures Frontier(previous1, depth1, queue + [imported], floor)
  {
    forall v | v in previous1 && v != start ensures Hangs(graph, previous1, depth1, v) {
      if v != imported {
        assert Hangs(graph, previous, depth, v);
      }
    }
    assert imported !in queue;
  }

  // The inner loop: every import of current that is new goes into the tree and the queue.
  method Expand(graph: Graph, ghost start: ImportPath, previous0: map<ImportPath, string>, queue0: seq<ImportPath>,
                ghost depth0: map<ImportPath, nat>, current: ImportPath, ghost floor: nat, ghost all: set<ImportPath>)
    returns (previous: map<ImportPath, string>, queue: seq<ImportPath>, ghost depth: map<ImportPath, nat>)
    requires Tree(graph, start, previous0, depth0) && Frontier(previous0, depth0, queue0, floor)
    requires current in previous0 && depth0[current] == floor
    requires previous0.Keys <= all && Covers(graph, all)
    ensures previous.Keys <= all
    ensures Tree(graph, start, previous, depth) && Frontier(previous, depth, queue, floor)
    ensures Grown(previous0, queue0, depth0, previous, queue, depth)
    ensures Processed(graph, depth, current)
  {
    previous, queue, depth := previous0, queue0, depth0;
    var imports := Imports(graph)(current);
    for i := 0 to |imports|
      invariant depth.Keys == previous.Keys <= all
      invariant Expanding(graph, start, floor, previous0, queue0, depth0, previous, queue, depth)
      invariant forall k :: 0 <= k < i ==> imports[k] in previous
    {
      var imported := imports[i];
      if imported !in previous {
        ExpandOne(graph, start, floor, previous0, queue0, depth0, previous, queue, depth, current, imported);
        previous, queue, depth := previous[imported := current], queue + [imported], depth[imported := floor + 1];
      }
    }
    assert depth[current] == floor;
  }

  ghost predicate Expanding(graph: Graph, start: ImportPath, floor: nat, previous0: map<ImportPath, string>,
                            queue0: seq<ImportPath>, depth0: map<ImportPath, nat>, previous: map<ImportPath, string>,
                            queue: seq<ImportPath>, depth: map<ImportPath, nat>)
    requires depth.Keys == previous.Keys
  {
    && Tree(graph, start, previous, depth)
    && Frontier(previous, depth, queue, floor)
    && Grown(previous0, queue0, depth0, previous, queue, depth)
  }

  lemma ExpandOne(graph: Graph, start: ImportPath, floor: nat, previous0: map<ImportPath, string>,
                  queue0: seq<ImportPath>, depth0: map<ImportPath, nat>, previous: map<ImportPath, string>,
                  queue: seq<ImportPath>, depth: map<ImportPath, nat>, current: ImportPath, imported: ImportPath)
    requires depth.Keys == previous.Keys && depth0.Keys == previous0.Keys && current in depth0
    requires depth0[current] == floor
    requires Expanding(graph, start, floor, previous0, queue0, depth0, previous, queue, depth)
    requires imported in Imports(graph)(current) && imported !in previous
    ensures previous[imported := current].Keys == depth[imported := floor + 1].Keys
    ensures previous.Keys <= previous[imported := current].Keys && imported in previous[imported := current]
    ensures Expanding(graph, start, floor, previous0, queue0, depth0,
                      previous[imported := current], queue + [imported], depth[imported := floor + 1])
  {
    Discover(graph, start, previous, depth, queue, floor, current, imported,
             previous[imported := current], depth[imported := floor + 1]);
    GrownMore(previous0, queue0, depth0, previous, queue, depth, current, imported, floor + 1);
  }

  lemma GrownMore(previous0: map<ImportPath, string>, queue0: seq<ImportPath>, depth0: map<ImportPath, nat>,
                  previous: map<ImportPath, string>, queue: seq<ImportPath>, depth: map<ImportPath, nat>,
                  current: ImportPath, imported: ImportPath, at: nat)
    requires Grown(previous0, queue0, depth0, previous, queue, depth)
    requires depth.Keys == previous.Keys && imported !in previous
    ensures Grown(previous0, queue0, depth0, previous[imported := current], queue + [imported], depth[imported := at])
  {
    assert imported in previous[imported := current].Keys;
  }

  ghost predicate Grown(previous0: map<ImportPath, string>, queue0: seq<ImportPath>, depth0: map<ImportPath, nat>,
                        previous: map<ImportPath, string>, queue: seq<ImportPath>, depth: map<ImportPath, nat>)
  {
    && previous0.Keys <= previous.Keys && depth0.Keys <= depth.Keys
    && (forall v :: v in depth0 ==> depth[v] == depth0[v])
    && (forall v :: v in queue0 ==> v in queue)
    && (forall v :: v in previous && v !in previous0 ==> v in queue)
    && (previous.Keys == previous0.Keys ==> queue == queue0)
  }

  // A package popped and expanded is processed, and so is everything that was.
  lemma Expanded(graph: Graph, start: ImportPath, target: ImportPath,
                 previous0: map<ImportPath, string>, depth0: map<ImportPath, nat>, queue0: seq<ImportPath>,
                 previous: map<ImportPath, string>, depth: map<ImportPath, nat>, queue: seq<ImportPath>,
                 current: ImportPath, floor: nat)
    requires depth0.Keys == previous0.Keys && current in previous0 && current != target
    requires forall v :: v in previous0 && v !in queue0 && v != current ==> v != target && Processed(graph, depth0, v)
    requires Tree(graph, start, previous, depth) && Frontier(previous, depth, queue, floor)
    requires Grown(previous0, queue0, depth0, previous, queue, depth) && Processed(graph, depth, current)
    ensures Searching(graph, start, target, previous, depth, queue, floor)
  {
    forall v | v in previous && v !in queue ensures v != target && Processed(graph, depth, v) {
      assert v in previous0 && v !in queue0;
      if v != current {
        assert Processed(graph, depth0, v);
      }
    }
  }

  // A target at the front of the queue is as deep as its nearest path is long.
  lemma NoShorterPath(graph: Graph, start: ImportPath, target: ImportPath, depth: map<ImportPath, nat>)
    requires start in depth && depth[start] == 0 && target in depth
    requires forall v :: v in depth && depth[v] < depth[target] ==> Processed(graph, depth, v)
    ensures forall p :: IsPath(Imports(graph), start, target, p) ==> |p| >= depth[target] + 1
  {
    forall p | IsPath(Imports(graph), start, target, p) ensures |p| >= depth[target] + 1 {
      if |p| < depth[target] + 1 {
        NearIsShallow(graph, start, depth, depth[target], target, p);
      }
    }
  }

  lemma ExhaustedIsUnreachable(graph: Graph, start: ImportPath, target: ImportPath, previous: map<ImportPath, string>,
                               depth: map<ImportPath, nat>, floor: nat)
    requires Searching(graph, start, target, previous, depth, [], floor)
    ensures target !in previous && !Reachable(Imports(graph), start, target)
  {
    if Reachable(Imports(graph), start, target) {
      var p :| IsPath(Imports(graph), start, target, p);
      forall v, w | v in previous.Keys && w in Imports(graph)(v) ensures w in previous.Keys {
        assert Processed(graph, depth, v);
      }
      ClosedSetTraps(Imports(graph), previous.Keys, start, target, p);
    }
  }

  /** The chain is a path from start to target and no path is shorter; when there is no path at all,
      it is the target alone. */
  method Chain(graph: Graph, start: ImportPath, target: ImportPath) returns (path: seq<ImportPath>)
    ensures Reachable(Imports(graph), start, target) ==>
              && IsPath(Imports(graph), start, target, path)
              && forall p :: IsPath(Imports(graph), start, target, p) ==> |path| <= |p|
    ensures !Reachable(Imports(graph), start, target) ==> path == [target]
  {
    var previous: map<ImportPath, string>, queue := map[start := ""], [start];
    ghost var depth: map<ImportPath, nat>, floor := map[start := 0], 0;
    ghost var all := Universe(graph, start);
    var found := false;
    while queue != [] && !found
      invariant previous.Keys <= all
      invariant !found ==> Searching(graph, start, target, previous, depth, queue, floor)
      invariant found ==> Tree(graph, start, previous, depth) && target in previous
      invariant found ==> forall v :: v in depth && depth[v] < depth[target] ==> Processed(graph, depth, v)
      decreases !found, all - previous.Keys, |queue|
    {
      var current := queue[0];
      Pop(graph, start, target, previous, depth, queue, floor);
      queue, floor := queue[1..], depth[current];
      if current == target {
        found := true;
      } else {
        ghost var previous0, depth0, queue0 := previous, depth, queue;
        previous, queue, depth := Expand(graph, start, previous, queue, depth, current, floor, all);
        Expanded(graph, start, target, previous0, depth0, queue0, previous, depth, queue, current, floor);
      }
    }
    if found {
      NoShorterPath(graph, start, target, depth);
    } else {
      ExhaustedIsUnreachable(graph, start, target, previous, depth, floor);
    }
    path := WalkBack(graph, start, target, previous, depth);
  }

  // From the target up the tree to the start, then reversed.
  method WalkBack(graph: Graph, start: ImportPath, target: ImportPath, previous: map<ImportPath, string>,
                  ghost depth: map<ImportPath, nat>)
    returns (path: seq<ImportPath>)
    requires Tree(graph, start, previous, depth)
    ensures target in previous ==> IsPath(Imports(graph), start, target, path) && |path| == depth[target] + 1
    ensures target !in previous ==> path == [target]
  {
    var back: seq<ImportPath> := [target];
    while back[|back| - 1] in previous && previous[back[|back| - 1]] != ""
      invariant |back| >= 1 && WalkedBack(graph, target, previous, depth, back)
      decreases if back[|back| - 1] in depth then depth[back[|back| - 1]] else 0
    {
      if back[|back| - 1] != start {
        assert Hangs(graph, previous, depth, back[|back| - 1]);
      }
      WalkFurther(graph, start, target, previous, depth, back);
      back := back + [previous[back[|back| - 1]]];
    }
    assert target in previous ==> back[|back| - 1] == start by {
      assert target in previous && back[|back| - 1] != start ==> Hangs(graph, previous, depth, back[|back| - 1]);
    }
    path := Reversed(back);
  }

  // The packages met so far on the way from the target up the tree.
  ghost predicate WalkedBack(graph: Graph, target: ImportPath, previous: map<ImportPath, string>,
                             depth: map<ImportPath, nat>, back: seq<ImportPath>)
    requires |back| >= 1 && depth.Keys == previous.Keys
  {
    var last := back[|back| - 1];
    if target in previous then
      && last in previous
      && depth[last] + |back| - 1 == depth[target]
      && IsPath(Imports(graph), last, target, Reversed(back))
    else back == [target]
  }

  lemma WalkFurther(graph: Graph, start: ImportPath, target: ImportPath, previous: map<ImportPath, string>,
                    depth: map<ImportPath, nat>, back: seq<ImportPath>)
    requires Tree(graph, start, previous, depth) && |back| >= 1 && WalkedBack(graph, target, previous, depth, back)
    requires back[|back| - 1] in previous && previous[back[|back| - 1]] != ""
    ensures var up: ImportPath := previous[back[|back| - 1]];
            && WalkedBack(graph, target, previous, depth, back + [up])
            && up in depth && depth[up] < depth[back[|back| - 1]]
  {
    var last := back[|back| - 1];
    if last != start {
      assert Hangs(graph, previous, depth, last);
    }
    var up: ImportPath := previous[last];
    ReversedPush(back, up);
    PathPush(Imports(graph), up, last, target, Reversed(back));
  }

  function Reversed<T>(s: seq<T>): (r: seq<T>)
    ensures |r| == |s| && forall i :: 0 <= i < |s| ==> r[i] == s[|s| - 1 - i]
  {
    seq(|s|, i requires 0 <= i < |s| => s[|s| - 1 - i])
  }

  lemma ReversedPush<T>(s: seq<T>, x: T)
    ensures Reversed(s + [x]) == [x] + Reversed(s)
  {
  }
}

/** The search for implementation types behind an exported type. */
module PublicSurface {
  import opened Options
  import opened GoText
  import opened Paths

  type TypeId = nat

  datatype Member = Member(exported: bool, embedded: bool, of: TypeId)

  /** The kinds of types the search tells apart. An identifier without an entry in the graph is a nil
      type. An alias names the type it stands for. */
  datatype TypeNode =
    | Alias(actual: TypeId)
    | Named(package: Option<string>, name: string, arguments: seq<TypeId>, constraints: seq<TypeId>,
            underlying: TypeId, methods: seq<Member>, pointerMethods: seq<Member>)
    | Element(elem: TypeId)
    | Map(key: TypeId, elem: TypeId)
    | Signature(params: seq<TypeId>, results: seq<TypeId>, constraints: seq<TypeId>)
    | Struct(fields: seq<Member>)
    | Interface(methods: seq<Member>, embeddeds: seq<TypeId>)
    | Tuple(elements: seq<TypeId>)
    | TypeParam(constraint: TypeId)
    | Union(terms: seq<TypeId>)
    | Basic

  type TypeGraph = map<TypeId, TypeNode>

  // ---------- implementation paths ----------

  // The word internal as an element of the path after the first.
  predicate IsImplementationPath(path: string) {
    exists i :: 0 < i < |Split(path, '/')| && Split(path, '/')[i] == "internal"
  }

  method ScanImplementationPath(path: string) returns (found: bool)
    ensures found == IsImplementationPath(path)
  {
    var parts := Split(path, '/');
    for index := 0 to |parts|
      invariant forall i :: 0 < i < index ==> parts[i] != "internal"
    {
      if parts[index] == "internal" && index > 0 {
        return true;
      }
    }
    return false;
  }

  // Splitting keeps an element exactly when it stands between separators.
  ghost predicate HasPart(path: string, i: nat, part: string) {
    && i + |part| <= |path| && path[i..i + |part|] == part
    && (i + |part| == |path| || path[i + |part|] == '/')
  }

  lemma {:induction false} FirstPart(s: string, part: string)
    requires '/' !in part
    ensures Split(s, '/')[0] == part <==> HasPart(s, 0, part)
  {
    if s == "" {
    } else {
      if s[0] != '/' && part != "" {
        FirstPart(s[1..], part[1..]);
        var others := Split(s[1..], '/');
        assert Split(s, '/')[0] == [s[0]] + others[0];
        assert part == [part[0]] + part[1..];
        if |part| <= |s| {
          assert s[0..|part|] == [s[0]] + s[1..][0..|part| - 1];
        }
      }
    }
  }

  ghost predicate HasInternal(path: string) {
    exists i :: 0 <= i < |path| && path[i] == '/' && HasPart(path, i + 1, "internal")
  }

  lemma PartShift(path: string, i: nat, part: string)
    requires path != ""
    ensures HasPart(path, i + 1, part) <==> HasPart(path[1..], i, part)
  {
    if i + 1 + |part| <= |path| {
      assert path[i + 1..i + 1 + |part|] == path[1..][i..i + |part|];
    }
  }

  lemma HasInternalUnfolds(path: string)
    requires path != ""
    ensures HasInternal(path) <==> (path[0] == '/' && HasPart(path[1..], 0, "internal")) || HasInternal(path[1..])
  {
    if HasInternal(path) {
      var i :| 0 <= i < |path| && path[i] == '/' && HasPart(path, i + 1, "internal");
      PartShift(path, i, "internal");
      if i > 0 {
        var k := i - 1;
        assert path[1..][k] == '/' && HasPart(path[1..], k + 1, "internal");
      }
    }
    if HasInternal(path[1..]) {
      var i :| 0 <= i < |path[1..]| && path[1..][i] == '/' && HasPart(path[1..], i + 1, "internal");
      PartShift(path, i + 1, "internal");
      var k := i + 1;
      assert path[k] == '/' && HasPart(path, k + 1, "internal");
    }
    PartShift(path, 0, "internal");
    if path[0] == '/' && HasPart(path[1..], 0, "internal") {
      assert path[0] == '/' && HasPart(path, 0 + 1, "internal");
    }
  }

  lemma ImplementationPathUnfolds(path: string)
    requires path != ""
    ensures IsImplementationPath(path) <==>
            (path[0] == '/' && Split(path[1..], '/')[0] == "internal") || IsImplementationPath(path[1..])
  {
    var others, parts := Split(path[1..], '/'), Split(path, '/');
    if path[0] == '/' {
      assert parts == [""] + others;
      assert forall i :: 0 < i < |parts| ==> parts[i] == others[i - 1];
      assert forall i :: 0 <= i < |others| ==> others[i] == parts[i + 1];
    } else {
      assert parts == [[path[0]] + others[0]] + others[1..];
      assert forall i :: 0 < i < |parts| ==> parts[i] == others[i];
    }
  }

  /** A path is an implementation path exactly when internal stands behind a slash of it and before
      another or at the end. */
  lemma {:induction false} ImplementationPathMeans(path: string)
    ensures IsImplementationPath(path) <==> HasInternal(path)
  {
    if path == "" {
    } else {
      ImplementationPathMeans(path[1..]);
      HasInternalUnfolds(path);
      ImplementationPathUnfolds(path);
      FirstPart(path[1..], "internal");
    }
  }

  // ---------- what the search follows ----------

  function Resolve(g: TypeGraph, t: TypeId): TypeNode {
    if t !in g then Basic
    else if !g[t].Alias? then g[t]
    else if g[t].actual in g && !g[g[t].actual].Alias? then g[g[t].actual]
    else Basic
  }

  function Exported(members: seq<Member>): seq<TypeId> {
    if members == [] then []
    else (if members[0].exported then [members[0].of] else []) + Exported(members[1..])
  }

  function Visible(fields: seq<Member>): seq<TypeId> {
    if fields == [] then []
    else (if fields[0].exported || fields[0].embedded then [fields[0].of] else []) + Visible(fields[1..])
  }

  // The types behind a type, in the order of the search.
  function Followed(node: TypeNode): seq<TypeId> {
    match node
    case Named(_, _, arguments, constraints, underlying, methods, pointerMethods) =>
      arguments + constraints + [underlying] + Exported(methods) + Exported(pointerMethods)
    case Element(elem) => [elem]
    case Map(key, elem) => [key, elem]
    case Signature(params, results, constraints) => params + results + constraints
    case Struct(fields) => Visible(fields)
    case Interface(methods, embeddeds) => Exported(methods) + embeddeds
    case Tuple(elements) => elements
    case TypeParam(constraint) => [constraint]
    case Union(terms) => terms
    case Basic => []
    case Alias(_) => []
  }

  predicate IsImplementation(node: TypeNode) {
    node.Named? && node.package.Some? && IsImplementationPath(node.package.value)
  }

  function Behind(g: TypeGraph): TypeId -> seq<TypeId> {
    (t: TypeId) => Followed(Resolve(g, t))
  }

  // From t the search can get to an implementation type of that name.
  ghost predicate Leaks(g: TypeGraph, t: TypeId, name: string) {
    exists u :: Reachable(Behind(g), t, u) && IsImplementation(Resolve(g, u)) && Resolve(g, u).name == name
  }

  ghost predicate ReachesImplementation(g: TypeGraph, t: TypeId) {
    exists u :: Reachable(Behind(g), t, u) && IsImplementation(Resolve(g, u))
  }

  // What was visited since is harmless, and what is behind it was visited as well.
  ghost predicate Explored(g: TypeGraph, before: set<TypeId>, after: set<TypeId>) {
    && before <= after <= before + g.Keys
    && forall u :: u in after && u !in before ==> Harmless(g, after, u)
  }

  ghost predicate Harmless(g: TypeGraph, after: set<TypeId>, u: TypeId) {
    !IsImplementation(Resolve(g, u)) && forall w :: w in Behind(g)(u) && w in g ==> w in after
  }

  lemma ExploredAgain(g: TypeGraph, a: set<TypeId>, b: set<TypeId>, c: set<TypeId>)
    requires Explored(g, a, b) && Explored(g, b, c)
    ensures Explored(g, a, c)
  {
    forall u | u in c && u !in a ensures Harmless(g, c, u) {
      if u in b {
        assert Harmless(g, b, u);
      } else {
        assert Harmless(g, c, u);
      }
    }
  }

  class Search {
    const g: TypeGraph
    var visited: set<TypeId>

    constructor (g: TypeGraph)
      ensures this.g == g && visited == {}
    {
      this.g, visited := g, {};
    }

    /** Marks the type, then looks at the type behind an alias and at everything behind that. */
    method ImplementationType(t: TypeId) returns (leak: Option<string>)
      modifies `visited
      ensures leak.Some? ==> Leaks(g, t, leak.value)
      ensures leak.None? ==> Explored(g, old(visited), visited) && (t in g ==> t in visited)
      ensures old(visited) <= visited <= old(visited) + g.Keys
      decreases |g.Keys - visited|, 0, 0
    {
      if t !in g || t in visited {
        return None;
      }
      ghost var before := visited;
      visited := visited + {t};
      Shrinks(g.Keys, before, t);
      var node := Resolve(g, t);
      if node.Named? && node.package.Some? {
        var internal := ScanImplementationPath(node.package.value);
        if internal {
          ReachesItself(Behind(g), t);
          return Some(node.name);
        }
      }
      leak := VisitAll(Followed(node));
      if leak.Some? {
        ghost var w :| w in Followed(node) && Leaks(g, w, leak.value);
        ghost var u :| Reachable(Behind(g), w, u) && IsImplementation(Resolve(g, u))
            && Resolve(g, u).name == leak.value;
        ReachesVia(Behind(g), t, w, u);
      } else {
        assert Harmless(g, visited, t);
      }
    }

    // The helpers of the search all visit a list in order and stop at the first leak.
    method VisitAll(ts: seq<TypeId>) returns (leak: Option<string>)
      modifies `visited
      ensures leak.Some? ==> exists t :: t in ts && Leaks(g, t, leak.value)
      ensures leak.None? ==> Explored(g, old(visited), visited) && forall t :: t in ts && t in g ==> t in visited
      ensures old(visited) <= visited <= old(visited) + g.Keys
      decreases |g.Keys - visited|, 1, |ts|
    {
      ghost var before := visited;
      leak := None;
      for i := 0 to |ts|
        invariant leak.None? && Explored(g, before, visited)
        invariant forall k :: 0 <= k < i && ts[k] in g ==> ts[k] in visited
      {
        ghost var between := visited;
        assert |g.Keys - visited| <= |g.Keys - before| by {
          Fewer(g.Keys, before, visited);
        }
        leak := ImplementationType(ts[i]);
        if leak.Some? {
          return;
        }
        ExploredAgain(g, before, between, visited);
      }
    }
  }

  /** A fresh search reports a leak exactly when an implementation type is reachable through the
      followed edges, and then names such a type. */
  method FindLeak(g: TypeGraph, t: TypeId) returns (leak: Option<string>)
    ensures leak.Some? ==> Leaks(g, t, leak.value)
    ensures leak.Some? <==> ReachesImplementation(g, t)
  {
    var search := new Search(g);
    leak := search.ImplementationType(t);
    if leak.None? {
      NothingLeaks(g, t, search.visited);
    }
  }

  // A type of this kind leads to u directly.
  ghost predicate Edge(node: TypeNode, u: TypeId) {
    match node
    case Named(_, _, arguments, constraints, underlying, methods, pointerMethods) =>
      || u in arguments || u in constraints || u == underlying
      || exists m :: (m in methods || m in pointerMethods) && m.exported && m.of == u
    case Element(elem) => u == elem
    case Map(key, elem) => u == key || u == elem
    case Signature(params, results, constraints) => u in params || u in results || u in constraints
    case Struct(fields) => exists f :: f in fields && (f.exported || f.embedded) && f.of == u
    case Interface(methods, embeddeds) => u in embeddeds || exists m :: m in methods && m.exported && m.of == u
    case Tuple(elements) => u in elements
    case TypeParam(constraint) => u == constraint
    case Union(terms) => u in terms
    case Basic => false
    case Alias(_) => false
  }

  // What t is, itself or as an alias.
  ghost predicate Is(g: TypeGraph, t: TypeId, node: TypeNode) {
    && t in g && !node.Alias?
    && (g[t] == node || (g[t].Alias? && g[t].actual in g && g[g[t].actual] == node))
  }

  ghost predicate Leads(g: TypeGraph, t: TypeId, u: TypeId) {
    exists node :: Is(g, t, node) && Edge(node, u)
  }

  lemma {:induction false} ExportedMeans(members: seq<Member>, u: TypeId)
    ensures u in Exported(members) <==> exists m :: m in members && m.exported && m.of == u
  {
    if members == [] {
    } else {
      ExportedMeans(members[1..], u);
      assert forall m :: m in members <==> m == members[0] || m in members[1..];
    }
  }

  lemma {:induction false} VisibleMeans(fields: seq<Member>, u: TypeId)
    ensures u in Visible(fields) <==> exists f :: f in fields && (f.exported || f.embedded) && f.of == u
  {
    if fields == [] {
    } else {
      VisibleMeans(fields[1..], u);
      assert forall f :: f in fields <==> f == fields[0] || f in fields[1..];
    }
  }

  lemma FollowedMeans(node: TypeNode, u: TypeId)
    ensures u in Followed(node) <==> Edge(node, u)
  {
    match node {
      case Named(_, _, _, _, _, methods, pointerMethods) =>
        ExportedMeans(methods, u);
        ExportedMeans(pointerMethods, u);
      case Struct(fields) => VisibleMeans(fields, u);
      case Interface(methods, _) => ExportedMeans(methods, u);
      case _ =>
    }
  }

  lemma BehindMeans(g: TypeGraph, t: TypeId, u: TypeId)
    ensures u in Behind(g)(t) <==> Leads(g, t, u)
  {
    FollowedMeans(Resolve(g, t), u);
    if Leads(g, t, u) {
      var node :| Is(g, t, node) && Edge(node, u);
      assert node == Resolve(g, t);
    } else {
      assert Is(g, t, Resolve(g, t)) ==> !Edge(Resolve(g, t), u);
    }
  }

  // Each type leads to the next, and the last is one of an implementation package.
  ghost predicate LeakChain(g: TypeGraph, chain: seq<TypeId>) {
    && chain != [] && (forall i :: 0 <= i < |chain| - 1 ==> Leads(g, chain[i], chain[i + 1]))
    && exists node :: Is(g, chain[|chain| - 1], node) && node.Named? && node.package.Some?
        && HasInternal(node.package.value)
  }

  /** A leak is a chain of types, each leading to the next by an edge of its kind, to a named type of a package with
      internal behind a slash. */
  lemma LeakMeans(g: TypeGraph, t: TypeId)
    ensures ReachesImplementation(g, t) <==> exists chain :: LeakChain(g, chain) && chain[0] == t
  {
    forall v, w ensures w in Behind(g)(v) <==> Leads(g, v, w) {
      BehindMeans(g, v, w);
    }
    if ReachesImplementation(g, t) {
      var u :| Reachable(Behind(g), t, u) && IsImplementation(Resolve(g, u));
      var chain :| IsPath(Behind(g), t, u, chain);
      ImplementationPathMeans(Resolve(g, u).package.value);
      assert Is(g, u, Resolve(g, u));
      assert LeakChain(g, chain);
    }
    if chain :| LeakChain(g, chain) && chain[0] == t {
      var u := chain[|chain| - 1];
      var node :| Is(g, u, node) && node.Named? && node.package.Some? && HasInternal(node.package.value);
      ImplementationPathMeans(node.package.value);
      assert IsPath(Behind(g), t, u, chain);
      assert Reachable(Behind(g), t, u) && IsImplementation(Resolve(g, u));
    }
  }

  lemma NothingLeaks(g: TypeGraph, t: TypeId, visited: set<TypeId>)
    requires Explored(g, {}, visited) && (t in g ==> t in visited)
    ensures !ReachesImplementation(g, t)
  {
    forall u | Reachable(Behind(g), t, u) ensures !IsImplementation(Resolve(g, u)) {
      var p :| IsPath(Behind(g), t, u, p);
      var nils := set i | 0 <= i < |p| && p[i] !in g :: p[i];
      var S := visited + nils;
      forall v, w | v in p && v in S && w in Behind(g)(v) && w in p ensures w in S {
        if v in visited {
          assert Harmless(g, visited, v);
        }
      }
      ClosedSetTraps(Behind(g), S, t, u, p);
      if u in visited {
        assert Harmless(g, visited, u);
      }
    }
  }

  datatype Issue = Issue(symbol: string, leak: string)

  datatype Symbol = Symbol(name: string, exported: bool, of: TypeId)

  // The exported symbols behind which an implementation type is reachable, in the order of the scope.
  ghost function LeakingSymbols(g: TypeGraph, scope: seq<Symbol>): seq<Symbol> {
    if scope == [] then []
    else
      var last := scope[|scope| - 1];
      LeakingSymbols(g, scope[..|scope| - 1])
      + if last.exported && ReachesImplementation(g, last.of) then [last] else []
  }

  /** One issue for each exported symbol behind which an implementation type is reachable, in the
      order of the scope, and each names a type that is. */
  method PublicSurfaceIssues(g: TypeGraph, scope: seq<Symbol>) returns (issues: seq<Issue>)
    ensures |issues| == |LeakingSymbols(g, scope)|
    ensures forall i :: 0 <= i < |issues| ==>
              var symbol := LeakingSymbols(g, scope)[i];
              issues[i].symbol == symbol.name && Leaks(g, symbol.of, issues[i].leak)
  {
    issues := [];
    for index := 0 to |scope|
      invariant |issues| == |LeakingSymbols(g, scope[..index])|
      invariant forall i :: 0 <= i < |issues| ==>
                  var symbol := LeakingSymbols(g, scope[..index])[i];
                  issues[i].symbol == symbol.name && Leaks(g, symbol.of, issues[i].leak)
    {
      var symbol := scope[index];
      assert scope[..index + 1][..index] == scope[..index];
      if symbol.exported {
        var leak := FindLeak(g, symbol.of);
        if leak.Some? {
          issues := issues + [Issue(symbol.name, leak.value)];
        }
      }
    }
    assert scope[..|scope|] == scope;
  }
}

/** The two searches for the messages package. */
module MessagesImports {
  import opened Paths

  type PackageId = nat

  /** Loaded packages with their paths and imports; different packages may share a path. */
  datatype Loaded = Loaded(path: map<PackageId, string>, imports: map<PackageId, seq<PackageId>>) {
    ghost predicate Valid() {
      && path.Keys == imports.Keys
      && forall p, q :: p in imports && q in imports[p] ==> q in imports
    }

    function Imports(): PackageId -> seq<PackageId> {
      (p: PackageId) => if p in imports then imports[p] else []
    }
  }

  const MESSAGES := "github.com/portpowered/go-agent-harness/go-agent-loop/pkg/messages"

  datatype Found = Nothing | Package(id: PackageId)

  // What was visited since is not the messages package, and its imports were visited as well.
  ghost predicate Searched(l: Loaded, before: set<PackageId>, after: set<PackageId>)
    requires l.Valid()
  {
    && before <= after <= before + l.imports.Keys
    && forall p :: p in after && p !in before ==> Cleared(l, after, p)
  }

  ghost predicate Cleared(l: Loaded, after: set<PackageId>, p: PackageId) {
    p in l.path && l.path[p] != MESSAGES && forall q :: q in l.Imports()(p) ==> q in after
  }

  lemma SearchedAgain(l: Loaded, a: set<PackageId>, b: set<PackageId>, c: set<PackageId>)
    requires l.Valid() && Searched(l, a, b) && Searched(l, b, c)
    ensures Searched(l, a, c)
  {
    forall p | p in c && p !in a ensures Cleared(l, c, p) {
      if p in b {
        assert Cleared(l, b, p);
      } else {
        assert Cleared(l, c, p);
      }
    }
  }

  // A search behind p, once p itself is cleared.
  lemma SearchedFrom(l: Loaded, before: set<PackageId>, p: PackageId, after: set<PackageId>)
    requires l.Valid() && Searched(l, before + {p}, after) && p in l.imports && l.path[p] != MESSAGES
    requires forall k :: 0 <= k < |l.imports[p]| ==> l.imports[p][k] in after
    ensures Searched(l, before, after)
  {
    assert Cleared(l, after, p);
    forall q | q in after && q !in before ensures Cleared(l, after, q) {
      if q != p {
        assert Cleared(l, after, q);
      }
    }
  }

  class Search {
    const l: Loaded
    var visited: set<PackageId>

    constructor (l: Loaded)
      ensures this.l == l && visited == {}
    {
      this.l, visited := l, {};
    }

    method ImportedMessages(p: PackageId) returns (found: Found)
      requires l.Valid() && p in l.imports && p !in visited
      modifies `visited
      ensures found.Package? ==>
                found.id in l.path && l.path[found.id] == MESSAGES && Reachable(l.Imports(), p, found.id)
      ensures found.Nothing? ==> Searched(l, old(visited), visited) && p in visited
      ensures old(visited) <= visited
      decreases |l.imports.Keys - visited|
    {
      if l.path[p] == MESSAGES {
        ReachesItself(l.Imports(), p);
        return Package(p);
      }
      ghost var before := visited;
      visited := visited + {p};
      ghost var marked := visited;
      Shrinks(l.imports.Keys, before, p);
      var imports := l.imports[p];
      for i := 0 to |imports|
        invariant Searched(l, marked, visited)
        invariant forall k :: 0 <= k < i ==> imports[k] in visited
      {
        if imports[i] !in visited {
          ghost var between := visited;
          assert |l.imports.Keys - visited| <= |l.imports.Keys - marked| by {
            Fewer(l.imports.Keys, marked, visited);
          }
          found := ImportedMessages(imports[i]);
          if found.Package? {
            ReachesVia(l.Imports(), p, imports[i], found.id);
            return;
          }
          assert Searched(l, marked, visited) by {
            SearchedAgain(l, marked, between, visited);
          }
        }
      }
      found := Nothing;
      SearchedFrom(l, before, p, visited);
    }
  }

  /** A fresh search finds a package with the path of messages exactly when one is reachable. */
  method FindMessages(l: Loaded, p: PackageId) returns (found: Found)
    requires l.Valid() && p in l.imports
    ensures found.Package? ==> found.id in l.path && l.path[found.id] == MESSAGES && Reachable(l.Imports(), p, found.id)
    ensures found.Nothing? ==> forall q :: Reachable(l.Imports(), p, q) ==> q in l.path && l.path[q] != MESSAGES
  {
    var search := new Search(l);
    found := search.ImportedMessages(p);
    if found.Nothing? {
      forall q | Reachable(l.Imports(), p, q) ensures q in l.path && l.path[q] != MESSAGES {
        var path :| IsPath(l.Imports(), p, q, path);
        forall v, w | v in search.visited && w in l.Imports()(v) ensures w in search.visited {
          assert Cleared(l, search.visited, v);
        }
        ClosedSetTraps(l.Imports(), search.visited, p, q, path);
        assert Cleared(l, search.visited, q);
      }
    }
  }

  // The type of a struct field: a named type of a package, or any other type.
  datatype FieldType = NamedIn(package: PackageId, path: string) | OtherType

  predicate InMessages(t: FieldType) {
    t.NamedIn? && t.path == MESSAGES
  }

  ghost predicate ReachesMessages(l: Loaded, p: PackageId) {
    exists q :: Reachable(l.Imports(), p, q) && q in l.path && l.path[q] == MESSAGES
  }

  // The first field, in scope order, whose type is in the messages package.
  ghost predicate FirstField(structs: seq<seq<FieldType>>, i: nat, j: nat) {
    && i < |structs| && j < |structs[i]| && structs[i][j].NamedIn? && structs[i][j].path == MESSAGES
    && (forall m :: 0 <= m < i ==> NoField(structs[m], |structs[m]|))
    && NoField(structs[i], j)
  }

  ghost predicate NoField(fields: seq<FieldType>, n: nat)
    requires n <= |fields|
  {
    forall k :: 0 <= k < n ==> !(fields[k].NamedIn? && fields[k].path == MESSAGES)
  }

  /** The messages package behind a package: by its imports, and for a package that was loaded without
      them by the types of the fields in its scope. structs are the structures of the scope, in order. */
  method MessagesPackage(l: Loaded, p: PackageId, structs: seq<seq<FieldType>>) returns (found: Found)
    requires l.Valid() && p in l.imports
    ensures ReachesMessages(l, p) ==>
              found.Package? && found.id in l.path && l.path[found.id] == MESSAGES
                  && Reachable(l.Imports(), p, found.id)
    ensures !ReachesMessages(l, p) && found.Package? ==>
              exists i: nat, j: nat :: FirstField(structs, i, j) && structs[i][j].package == found.id
    ensures found.Nothing? ==> forall i :: 0 <= i < |structs| ==> NoField(structs[i], |structs[i]|)
  {
    found := FindMessages(l, p);
    if found.Package? {
      return;
    }
    for i := 0 to |structs|
      invariant forall m :: 0 <= m < i ==> NoField(structs[m], |structs[m]|)
    {
      for j := 0 to |structs[i]|
        invariant NoField(structs[i], j)
      {
        if InMessages(structs[i][j]) {
          assert FirstField(structs, i, j);
          return Package(structs[i][j].package);
        }
      }
    }
  }

  // ---------- the packages that reach messages ----------

  // A repository package; imports is empty for one that could not be loaded.
  datatype Listed = Listed(importPath: string, imports: set<string>)

  predicate ImportsAny(p: Listed, paths: set<string>) {
    exists imported :: imported in p.imports && imported in paths
  }

  // Whatever imports a member is a member.
  ghost predicate Closed(modules: seq<seq<Listed>>, paths: set<string>) {
    forall m, k :: 0 <= m < |modules| && 0 <= k < |modules[m]| && ImportsAny(modules[m][k], paths) ==>
      modules[m][k].importPath in paths
  }

  ghost predicate Least(modules: seq<seq<Listed>>, paths: set<string>) {
    forall S :: MESSAGES in S && Closed(modules, S) ==> paths <= S
  }

  lemma LeastGrows(modules: seq<seq<Listed>>, paths: set<string>, m: nat, k: nat)
    requires m < |modules| && k < |modules[m]| && Least(modules, paths) && ImportsAny(modules[m][k], paths)
    ensures Least(modules, paths + {modules[m][k].importPath})
  {
    forall S | MESSAGES in S && Closed(modules, S) ensures paths + {modules[m][k].importPath} <= S {
      assert paths <= S;
      var imported :| imported in modules[m][k].imports && imported in paths;
      assert ImportsAny(modules[m][k], S);
    }
  }

  // A pass that changes nothing has met every package.
  ghost predicate Passed(modules: seq<seq<Listed>>, paths: set<string>, m: nat, k: nat) {
    forall i, j :: 0 <= i < |modules| && 0 <= j < |modules[i]| && (i < m || (i == m && j < k)) ==>
      (ImportsAny(modules[i][j], paths) ==> modules[i][j].importPath in paths)
  }

  /** The least set of paths that holds messages and, with a package, everything that imports it. */
  method PackagesReachingMessages(modules: seq<seq<Listed>>) returns (reaching: set<string>)
    ensures MESSAGES in reaching && Closed(modules, reaching) && Least(modules, reaching)
  {
    reaching := {MESSAGES};
    ghost var all := {MESSAGES} + set m, k | 0 <= m < |modules| && 0 <= k < |modules[m]| :: modules[m][k].importPath;
    var changed := true;
    while changed
      invariant MESSAGES in reaching && reaching <= all && Least(modules, reaching)
      invariant !changed ==> Closed(modules, reaching)
      decreases all - reaching, changed
    {
      ghost var start := reaching;
      changed := false;
      for m := 0 to |modules|
        invariant MESSAGES in reaching && reaching <= all && Least(modules, reaching)
        invariant start <= reaching && (changed <==> start != reaching)
        invariant !changed ==> Passed(modules, reaching, m, 0)
      {
        for k := 0 to |modules[m]|
          invariant MESSAGES in reaching && reaching <= all && Least(modules, reaching)
          invariant start <= reaching && (changed <==> start != reaching)
          invariant !changed ==> Passed(modules, reaching, m, k)
        {
          var p := modules[m][k];
          if p.importPath !in reaching && ImportsAny(p, reaching) {
            LeastGrows(modules, reaching, m, k);
            reaching, changed := reaching + {p.importPath}, true;
          }
        }
      }
    }
  }
}
