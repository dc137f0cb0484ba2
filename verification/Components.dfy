/**
 * Tarjan's strongly connected components as the architecture report runs it:
 * one depth-first search that numbers packages, keeps a stack of packages
 * without a component, and cuts the stack whenever a low-link closes.
 */
module Components {
  import opened ImportGraph
  import opened SortedStrings

  /** The variables the recursive closure shares. */
  datatype Search = Search(
    index: nat,
    indices: map<Node, nat>,
    lowLinks: map<Node, nat>,
    onStack: map<Node, bool>,
    stack: seq<Node>,
    components: seq<seq<Node>>)

  predicate OnStack(s: Search, x: Node) {
    x in s.onStack && s.onStack[x]
  }

  // ----- What the search keeps -----

  /** The stack lists the unplaced packages once each, in the order they were numbered. */
  ghost predicate StackOk(g: Graph, s: Search) {
    && s.indices.Keys <= g.Keys
    && s.lowLinks.Keys == s.indices.Keys
    && (forall x :: x in s.stack ==> x in s.indices)
    && (forall i, j :: 0 <= i < j < |s.stack| ==> s.indices[s.stack[i]] < s.indices[s.stack[j]])
    && (forall x :: x in s.indices ==> s.indices[x] < s.index)
    && (forall x :: OnStack(s, x) <==> x in s.stack)
  }

  /** A list of packages, sorted, each once, that is exactly one class of mutual reachability. */
  ghost predicate IsComponent(g: Graph, c: seq<Node>) {
    && c != []
    && Sorted(c)
    && (forall i, j :: 0 <= i < j < |c| ==> c[i] != c[j])
    && (forall x :: x in c ==> x in g)
    && (forall x, y :: x in c && y in g ==> (y in c <==> Mutual(g, x, y)))
  }

  ghost predicate ListedOnce(components: seq<seq<Node>>, nodes: set<Node>) {
    && (forall i, x :: 0 <= i < |components| && x in components[i] ==> x in nodes)
    && (forall x :: x in nodes ==> Listed(components, x))
    && (forall i, j, x :: 0 <= i < j < |components| && x in components[i] ==> x !in components[j])
  }

  ghost predicate Listed(components: seq<seq<Node>>, x: Node) {
    exists i :: 0 <= i < |components| && x in components[i]
  }

  ghost function PlacedSet(s: Search): set<Node> {
    set x | x in s.indices && x !in s.stack
  }

  /** The emitted components are classes, list every placed package once, and import nothing unplaced. */
  ghost predicate ComponentsOk(g: Graph, s: Search) {
    && (forall i :: 0 <= i < |s.components| ==> IsComponent(g, s.components[i]))
    && ListedOnce(s.components, PlacedSet(s))
    && Closed(g, PlacedSet(s))
    && DependenciesFirst(g, s.components)
  }

  /** Every import of a listed package is listed in the same component or an earlier one. */
  ghost predicate DependenciesFirst(g: Graph, components: seq<seq<Node>>) {
    forall i, x, y :: 0 <= i < |components| && x in components[i] && Edge(g, x, y) ==> Listed(components[..i + 1], y)
  }

  ghost predicate ReachesSome(g: Graph, x: Node, nodes: set<Node>) {
    exists a :: a in nodes && Reaches(g, x, a)
  }

  /** How the calls still running (gray) tie the stack together. */
  ghost predicate GrayOk(g: Graph, s: Search, gray: set<Node>)
    requires StackOk(g, s)
  {
    && (forall a :: a in gray ==> a in s.stack)
    && (forall a, x {:trigger Reaches(g, a, x)} :: a in gray && x in s.stack && s.indices[a] <= s.indices[x] ==>
        Reaches(g, a, x))
    && (forall x {:trigger ReachesSome(g, x, gray)} :: x in s.stack ==> ReachesSome(g, x, gray))
    && (forall x, y :: x in s.indices && x !in gray && Edge(g, x, y) ==> y in s.indices)
  }

  ghost predicate SearchOk(g: Graph, s: Search, gray: set<Node>) {
    StackOk(g, s) && ComponentsOk(g, s) && GrayOk(g, s, gray)
  }

  // ----- What one call may change -----

  /** Nothing known in s is forgotten or renumbered in t; t's new packages are numbered above. */
  ghost predicate Extends(s: Search, t: Search) {
    && s.index <= t.index
    && s.stack <= t.stack
    && s.components <= t.components
    && (forall x :: x in s.indices ==> x in t.indices && t.indices[x] == s.indices[x])
    && (forall x :: x in t.indices && x !in s.indices ==> s.index <= t.indices[x])
    && (forall x :: x in s.lowLinks ==> x in t.lowLinks && t.lowLinks[x] == s.lowLinks[x])
  }

  /** The low-link of v is the number of a package in the list that v reaches. */
  ghost predicate LowIsReached(g: Graph, t: Search, v: Node, within: seq<Node>) {
    && v in t.lowLinks
    && exists y :: y in within && y in t.indices && t.indices[y] == t.lowLinks[v] && Reaches(g, v, y)
  }

  /** No import from a stacked package outside older leads to a target numbered below low. */
  ghost predicate NoLowerImport(g: Graph, t: Search, older: seq<Node>, targets: seq<Node>, low: nat) {
    forall x, y :: x in t.stack && x !in older && y in targets && Edge(g, x, y)
      ==> y in t.indices && low <= t.indices[y]
  }

  /** What visiting v, from s to t, tells the caller. */
  ghost predicate Visited(g: Graph, s: Search, t: Search, v: Node) {
    && v in t.indices && v in t.lowLinks
    && NoLowerImport(g, t, s.stack, s.stack, t.lowLinks[v])
    && if v in t.stack then
         t.lowLinks[v] < t.indices[v] && LowIsReached(g, t, v, s.stack)
       else
         t.stack == s.stack && t.lowLinks[v] == t.indices[v]
  }

  /** The call for v, entered in s, has dealt with its first n imports. */
  ghost predicate Scanning(g: Graph, s: Search, t: Search, v: Node, imports: seq<Node>, n: nat) {
    && n <= |imports|
    && Extends(s, t)
    && s.stack + [v] <= t.stack
    && v in t.indices && v in t.lowLinks && t.indices[v] == s.index
    && t.lowLinks[v] <= t.indices[v]
    && LowIsReached(g, t, v, s.stack + [v])
    && NoLowerImport(g, t, s.stack + [v], s.stack, t.lowLinks[v])
    && forall j :: 0 <= j < n && imports[j] in g ==>
         && imports[j] in t.indices
         && (imports[j] in s.stack ==> t.lowLinks[v] <= t.indices[imports[j]])
  }

  // ----- The steps of one call -----

  function Push(s: Search, v: Node): (t: Search) {
    s.(index := s.index + 1,
    indices := s.indices[v := s.index],
    lowLinks := s.lowLinks[v := s.index],
    onStack := s.onStack[v := true],
    stack := s.stack + [v])
  }

  function Lower(s: Search, v: Node, low: nat): (t: Search) {
    s.(lowLinks := s.lowLinks[v := low])
  }

  lemma PushKeepsStack(g: Graph, s: Search, v: Node)
    requires StackOk(g, s) && v in g && v !in s.indices
    ensures StackOk(g, Push(s, v))
  {
  }

  lemma PushKeepsComponents(g: Graph, s: Search, v: Node)
    requires ComponentsOk(g, s) && v !in s.indices
    ensures ComponentsOk(g, Push(s, v))
  {
    assert PlacedSet(Push(s, v)) == PlacedSet(s);
  }

  lemma PushKeepsGray(g: Graph, s: Search, gray: set<Node>, v: Node)
    requires StackOk(g, s) && GrayOk(g, s, gray) && v in g && v !in s.indices
    requires StackOk(g, Push(s, v))
    requires forall a :: a in gray ==> Reaches(g, a, v)
    ensures GrayOk(g, Push(s, v), gray + {v})
  {
    var t := Push(s, v);
    ReachesSelf(g, v);
    forall a, x | a in gray + {v} && x in t.stack && t.indices[a] <= t.indices[x] ensures Reaches(g, a, x) {
      assert x in s.stack || x == v;
    }
    forall x | x in t.stack ensures ReachesSome(g, x, gray + {v}) {
      assert x in s.stack || x == v;
      if x in s.stack {
        assert ReachesSome(g, x, gray);
        var a :| a in gray && Reaches(g, x, a);
        assert a in gray + {v};
      }
    }
  }

  lemma PushStartsScan(g: Graph, s: Search, v: Node, imports: seq<Node>)
    requires StackOk(g, s) && v !in s.indices
    ensures Scanning(g, s, Push(s, v), v, imports, 0)
  {
    ReachesSelf(g, v);
    assert v in s.stack + [v];
  }

  lemma PushKeeps(g: Graph, s: Search, gray: set<Node>, v: Node)
    requires SearchOk(g, s, gray) && v in g && v !in s.indices
    requires forall a :: a in gray ==> Reaches(g, a, v)
    ensures SearchOk(g, Push(s, v), gray + {v})
  {
    PushKeepsStack(g, s, v);
    PushKeepsComponents(g, s, v);
    PushKeepsGray(g, s, gray, v);
  }

  /** A package numbered below the running call's was stacked before it. */
  lemma SmallerIsOlder(g: Graph, s: Search, t: Search, v: Node, y: Node)
    requires StackOk(g, t) && s.stack + [v] <= t.stack
    requires v in t.indices && y in t.stack && t.indices[y] < t.indices[v]
    ensures y in s.stack
  {
    var i :| 0 <= i < |t.stack| && t.stack[i] == y;
    assert t.stack[|s.stack|] == v;
    assert i < |s.stack|;
  }

  lemma LowerKeeps(g: Graph, s: Search, gray: set<Node>, v: Node, low: nat)
    requires SearchOk(g, s, gray) && v in s.indices
    ensures SearchOk(g, Lower(s, v, low), gray)
  {
    var t := Lower(s, v, low);
    assert StackOk(g, t);
    assert PlacedSet(t) == PlacedSet(s);
  }

  /** Lowering v's link to a number v reaches, no higher than what the rest of the stack allows. */
  lemma LowerKeepsScan(g: Graph, s: Search, t: Search, v: Node, imports: seq<Node>, n: nat, y: Node)
    requires StackOk(g, t) && Scanning(g, s, t, v, imports, n)
    requires v !in s.indices && v !in s.lowLinks
    requires y in t.stack && t.indices[y] < t.lowLinks[v] && Reaches(g, v, y)
    ensures Scanning(g, s, Lower(t, v, t.indices[y]), v, imports, n)
  {
    SmallerIsOlder(g, s, t, v, y);
    assert y in s.stack + [v];
  }

  /** An import already numbered: take its number if it is stacked and lower. */
  lemma SeenImport(g: Graph, s: Search, t: Search, v: Node, imports: seq<Node>, n: nat)
    requires StackOk(g, t) && Scanning(g, s, t, v, imports, n) && n < |imports|
    requires imports[n] in t.indices
    requires OnStack(t, imports[n]) ==> t.lowLinks[v] <= t.indices[imports[n]]
    ensures Scanning(g, s, t, v, imports, n + 1)
  {
  }

  /** The running call takes over a child's lower link. */
  function Absorb(t: Search, v: Node, w: Node): (u: Search)
    requires v in t.lowLinks && w in t.lowLinks
  {
    if t.lowLinks[w] < t.lowLinks[v] then Lower(t, v, t.lowLinks[w]) else t
  }

  /** The child's visit accounts for every package stacked during it. */
  lemma ChildKeepsNoLower(g: Graph, s: Search, t: Search, u: Search, v: Node, w: Node)
    requires s.stack + [v] <= t.stack && Extends(t, u) && v in t.lowLinks
    requires NoLowerImport(g, t, s.stack + [v], s.stack, t.lowLinks[v])
    requires Visited(g, t, u, w)
    ensures NoLowerImport(g, Absorb(u, v, w), s.stack + [v], s.stack, Absorb(u, v, w).lowLinks[v])
  {
    forall x, y | x in u.stack && x !in s.stack + [v] && y in s.stack && Edge(g, x, y)
      ensures y in u.indices && Absorb(u, v, w).lowLinks[v] <= u.indices[y]
    {
      if x in t.stack {
        assert y in t.indices && t.lowLinks[v] <= t.indices[y];
      } else {
        PrefixHolds(s.stack, t.stack, y);
      }
    }
  }

  lemma PrefixHolds(a: seq<Node>, b: seq<Node>, x: Node)
    requires a <= b && x in a
    ensures x in b
  {
    var i :| 0 <= i < |a| && a[i] == x;
    assert b[i] == x;
  }

  /** A child left on the stack lends v the package its link names; a placed one is numbered above v. */
  lemma ChildKeepsReached(g: Graph, s: Search, t: Search, u: Search, v: Node, w: Node)
    requires StackOk(g, t) && StackOk(g, u) && s.stack + [v] <= t.stack && Extends(t, u)
    requires v in t.lowLinks && t.lowLinks[v] <= t.indices[v]
    requires LowIsReached(g, t, v, s.stack + [v])
    requires w !in t.indices && Edge(g, v, w) && Visited(g, t, u, w)
    ensures LowIsReached(g, Absorb(u, v, w), v, s.stack + [v])
  {
    if u.lowLinks[w] < u.lowLinks[v] {
      var y :| y in t.stack && y in u.indices && u.indices[y] == u.lowLinks[w] && Reaches(g, w, y);
      ReachesEdge(g, v, w);
      ReachesTransitive(g, v, w, y);
      SmallerIsOlder(g, s, t, v, y);
      assert y in s.stack + [v];
    } else {
      var y :| y in s.stack + [v] && y in t.indices && t.indices[y] == t.lowLinks[v] && Reaches(g, v, y);
      assert u.indices[y] == u.lowLinks[v];
    }
  }

  lemma ExtendsTransitive(s: Search, t: Search, u: Search)
    requires Extends(s, t) && Extends(t, u)
    ensures Extends(s, u)
  {
  }

  lemma AbsorbExtends(s: Search, t: Search, u: Search, v: Node, w: Node)
    requires Extends(s, t) && Extends(t, u) && v !in s.lowLinks && v in u.lowLinks && w in u.lowLinks
    ensures Extends(s, Absorb(u, v, w))
  {
    ExtendsTransitive(s, t, u);
  }

  /** The child's imports entry, and those before it, stay accounted for. */
  lemma ChildKeepsImports(g: Graph, s: Search, t: Search, u: Search, v: Node, imports: seq<Node>, n: nat)
    requires Scanning(g, s, t, v, imports, n) && n < |imports|
    requires imports[n] !in t.indices && imports[n] !in s.stack
    requires Extends(t, u) && imports[n] in u.indices && imports[n] in u.lowLinks
    ensures forall j :: 0 <= j < n + 1 && imports[j] in g ==>
              && imports[j] in u.indices
              && (imports[j] in s.stack ==> Absorb(u, v, imports[n]).lowLinks[v] <= u.indices[imports[j]])
  {
  }

  lemma ChildKeepsScan(g: Graph, s: Search, t: Search, u: Search, v: Node, imports: seq<Node>, n: nat)
    requires StackOk(g, t) && StackOk(g, u)
    requires Scanning(g, s, t, v, imports, n) && n < |imports| && v !in s.lowLinks
    requires imports[n] !in t.indices && Edge(g, v, imports[n])
    requires Extends(t, u) && Visited(g, t, u, imports[n])
    ensures Scanning(g, s, Absorb(u, v, imports[n]), v, imports, n + 1)
  {
    hide NoLowerImport, LowIsReached, Reaches;
    ChildKeepsNoLower(g, s, t, u, v, imports[n]);
    ChildKeepsReached(g, s, t, u, v, imports[n]);
    assert imports[n] !in t.stack;
    assert s.stack == t.stack[..|s.stack|];
    ChildKeepsImports(g, s, t, u, v, imports, n);
    AbsorbExtends(s, t, u, v, imports[n]);
  }

  // ----- Closing a component -----

  /** Stacked since the call for v began. */
  ghost predicate Newer(s: Search, t: Search, x: Node) {
    x in t.stack && x !in s.stack
  }

  ghost predicate ScanDone(g: Graph, s: Search, t: Search, gray: set<Node>, v: Node, imports: seq<Node>) {
    && v in g && v !in s.indices
    && SearchOk(g, s, gray)
    && SearchOk(g, t, gray + {v})
    && Scanning(g, s, t, v, imports, |imports|)
    && multiset(imports) == multiset(g[v])
  }

  lemma NumberedFrom(g: Graph, s: Search, t: Search, v: Node, x: Node)
    requires StackOk(g, t) && s.stack + [v] <= t.stack && Newer(s, t, x)
    ensures v in t.stack && t.indices[v] <= t.indices[x]
  {
    assert t.stack[|s.stack|] == v;
    var i :| 0 <= i < |t.stack| && t.stack[i] == x;
    assert s.stack == t.stack[..|s.stack|];
  }

  /** Every newer package and v reach each other. */
  lemma NewerIsMutual(g: Graph, s: Search, t: Search, gray: set<Node>, v: Node, x: Node)
    requires StackOk(g, t) && GrayOk(g, t, gray + {v})
    requires s.stack + [v] <= t.stack && v in t.indices && Newer(s, t, x)
    requires forall a :: a in gray ==> a in t.indices && t.indices[a] < t.indices[v]
    ensures Mutual(g, v, x)
  {
    NumberedFrom(g, s, t, v, x);
    assert v in gray + {v};
    assert Reaches(g, v, x);
    assert ReachesSome(g, x, gray + {v});
    var a :| a in gray + {v} && Reaches(g, x, a);
    assert a != v ==> a in gray && t.indices[a] <= t.indices[v];
    assert Reaches(g, a, v);
    ReachesTransitive(g, x, a, v);
  }

  /** With v's link at v itself, nothing newer imports an older stacked package. */
  lemma NewerIsClosed(g: Graph, s: Search, t: Search, gray: set<Node>, v: Node, imports: seq<Node>, x: Node, y: Node)
    requires ScanDone(g, s, t, gray, v, imports) && t.lowLinks[v] == t.indices[v]
    requires Newer(s, t, x) && Edge(g, x, y)
    ensures y in t.indices && y !in s.stack
  {
    assert forall z :: z in s.stack ==> z in t.indices && t.indices[z] < t.indices[v];
    if x == v {
      assert y in multiset(g[v]);
      assert y in imports;
    } else {
      assert x !in gray + {v};
      assert x !in s.stack + [v];
    }
  }

  /** The gray packages were numbered before v. */
  lemma GrayIsOlder(g: Graph, s: Search, t: Search, gray: set<Node>, v: Node)
    requires StackOk(g, s) && GrayOk(g, s, gray) && Extends(s, t)
    requires v in t.indices && t.indices[v] == s.index
    ensures forall a :: a in gray ==> a in t.indices && t.indices[a] < t.indices[v]
  {
  }

  ghost function SinceOrPlaced(s: Search, t: Search): set<Node> {
    set x | x in t.indices && x !in s.stack
  }

  lemma SinceIsClosed(g: Graph, s: Search, t: Search, gray: set<Node>, v: Node, imports: seq<Node>)
    requires ScanDone(g, s, t, gray, v, imports) && t.lowLinks[v] == t.indices[v]
    ensures Closed(g, SinceOrPlaced(s, t))
  {
    forall x, y | x in SinceOrPlaced(s, t) && Edge(g, x, y) ensures y in SinceOrPlaced(s, t) {
      if x in t.stack {
        NewerIsClosed(g, s, t, gray, v, imports, x, y);
      } else {
        assert x in PlacedSet(t);
        assert y in PlacedSet(t);
        assert s.stack == t.stack[..|s.stack|];
      }
    }
  }

  /** The packages stacked since v began are exactly one class of mutual reachability. */
  lemma NewerIsClass(g: Graph, s: Search, t: Search, gray: set<Node>, v: Node, imports: seq<Node>, x: Node, y: Node)
    requires ScanDone(g, s, t, gray, v, imports) && t.lowLinks[v] == t.indices[v]
    requires Newer(s, t, x) && y in g
    ensures Newer(s, t, y) <==> Mutual(g, x, y)
  {
    GrayIsOlder(g, s, t, gray, v);
    NewerIsMutual(g, s, t, gray, v, x);
    if Newer(s, t, y) {
      NewerIsMutual(g, s, t, gray, v, y);
      MutualTransitive(g, x, v, y);
    }
    if Mutual(g, x, y) {
      SinceIsClosed(g, s, t, gray, v, imports);
      ClosedHoldsReachable(g, SinceOrPlaced(s, t), x, y);
      if y !in t.stack {
        ClosedHoldsReachable(g, PlacedSet(t), y, x);
      }
    }
  }

  /** What the pop loop and the sort leave: the newer packages, each once, in order. */
  ghost predicate Popped(s: Search, t: Search, c: seq<Node>) {
    && Sorted(c)
    && (forall i, j :: 0 <= i < j < |c| ==> c[i] != c[j])
    && (forall x :: x in c <==> Newer(s, t, x))
  }

  lemma PoppedIsComponent(g: Graph, s: Search, t: Search, gray: set<Node>, v: Node, imports: seq<Node>, c: seq<Node>)
    requires ScanDone(g, s, t, gray, v, imports) && t.lowLinks[v] == t.indices[v]
    requires Popped(s, t, c)
    ensures IsComponent(g, c)
  {
    assert t.stack[|s.stack|] == v;
    assert v in c;
    forall x, y | x in c && y in g ensures y in c <==> Mutual(g, x, y) {
      NewerIsClass(g, s, t, gray, v, imports, x, y);
    }
  }

  function Cut(s: Search, t: Search, onStack: map<Node, bool>, c: seq<Node>): (u: Search) {
    t.(stack := s.stack, onStack := onStack, components := t.components + [c])
  }

  lemma CutKeepsStack(g: Graph, s: Search, t: Search, onStack: map<Node, bool>, c: seq<Node>)
    requires StackOk(g, t) && s.stack <= t.stack
    requires forall x :: (x in onStack && onStack[x]) <==> x in s.stack
    ensures StackOk(g, Cut(s, t, onStack, c))
  {
    var u := Cut(s, t, onStack, c);
    assert s.stack == t.stack[..|s.stack|];
    assert forall x :: OnStack(u, x) <==> (x in onStack && onStack[x]);
  }

  lemma CutListsOnce(s: Search, t: Search, c: seq<Node>)
    requires ListedOnce(t.components, PlacedSet(t)) && s.stack <= t.stack
    requires forall x :: x in t.stack ==> x in t.indices
    requires Popped(s, t, c)
    ensures ListedOnce(t.components + [c], SinceOrPlaced(s, t))
  {
    var cs := t.components + [c];
    assert s.stack == t.stack[..|s.stack|];
    forall i, x | 0 <= i < |cs| && x in cs[i] ensures x in SinceOrPlaced(s, t) {
      if i < |t.components| {
        assert x in t.components[i] && x in PlacedSet(t);
      } else {
        assert x in c;
      }
    }
    forall i, j, x | 0 <= i < j < |cs| && x in cs[i] ensures x !in cs[j] {
      assert x in t.components[i] && x in PlacedSet(t);
      if j < |t.components| {
        assert x !in t.components[j];
      }
    }
    forall x | x in SinceOrPlaced(s, t) ensures Listed(cs, x) {
      if x in t.stack {
        assert x in cs[|t.components|];
      } else {
        assert x in PlacedSet(t);
        assert Listed(t.components, x);
        var i :| 0 <= i < |t.components| && x in t.components[i];
        assert x in cs[i];
      }
    }
  }

  /** The new component imports itself and what was placed before it. */
  lemma CutKeepsOrder(g: Graph, s: Search, t: Search, c: seq<Node>)
    requires DependenciesFirst(g, t.components) && ListedOnce(t.components + [c], SinceOrPlaced(s, t))
    requires Closed(g, SinceOrPlaced(s, t))
    ensures DependenciesFirst(g, t.components + [c])
  {
    var cs := t.components + [c];
    forall i, x, y | 0 <= i < |cs| && x in cs[i] && Edge(g, x, y) ensures Listed(cs[..i + 1], y) {
      if i < |t.components| {
        assert x in t.components[i];
        assert cs[..i + 1] == t.components[..i + 1];
      } else {
        assert cs[..i + 1] == cs;
        assert x in SinceOrPlaced(s, t) && y in SinceOrPlaced(s, t);
      }
    }
  }

  lemma CutKeepsComponents(g: Graph, s: Search, t: Search, gray: set<Node>, v: Node, imports: seq<Node>,
                           onStack: map<Node, bool>, c: seq<Node>)
    requires ScanDone(g, s, t, gray, v, imports) && t.lowLinks[v] == t.indices[v]
    requires Popped(s, t, c)
    ensures ComponentsOk(g, Cut(s, t, onStack, c))
  {
    PoppedIsComponent(g, s, t, gray, v, imports, c);
    SinceIsClosed(g, s, t, gray, v, imports);
    CutListsOnce(s, t, c);
    CutKeepsOrder(g, s, t, c);
    assert PlacedSet(Cut(s, t, onStack, c)) == SinceOrPlaced(s, t);
  }

  /** Once v's imports are scanned, only packages of calls still running may import an unnumbered one. */
  lemma ScannedImportsNumbered(g: Graph, s: Search, t: Search, gray: set<Node>, v: Node, imports: seq<Node>, x: Node,
                               y: Node)
    requires ScanDone(g, s, t, gray, v, imports)
    requires x in t.indices && x !in gray && Edge(g, x, y)
    ensures y in t.indices
  {
    if x == v {
      assert y in multiset(g[v]);
      assert y in imports;
    }
  }

  lemma CutKeepsGray(g: Graph, s: Search, t: Search, gray: set<Node>, v: Node, imports: seq<Node>,
                     onStack: map<Node, bool>, c: seq<Node>)
    requires ScanDone(g, s, t, gray, v, imports)
    requires StackOk(g, Cut(s, t, onStack, c))
    ensures GrayOk(g, Cut(s, t, onStack, c), gray)
  {
    var u := Cut(s, t, onStack, c);
    forall x, y | x in u.indices && x !in gray && Edge(g, x, y) ensures y in u.indices {
      ScannedImportsNumbered(g, s, t, gray, v, imports, x, y);
    }
  }

  lemma CutKeeps(g: Graph, s: Search, t: Search, gray: set<Node>, v: Node, imports: seq<Node>,
                 onStack: map<Node, bool>, c: seq<Node>)
    requires ScanDone(g, s, t, gray, v, imports) && t.lowLinks[v] == t.indices[v]
    requires Popped(s, t, c)
    requires forall x :: (x in onStack && onStack[x]) <==> x in s.stack
    ensures SearchOk(g, Cut(s, t, onStack, c), gray)
    ensures Extends(s, Cut(s, t, onStack, c)) && Visited(g, s, Cut(s, t, onStack, c), v)
  {
    CutKeepsStack(g, s, t, onStack, c);
    CutKeepsComponents(g, s, t, gray, v, imports, onStack, c);
    CutKeepsGray(g, s, t, gray, v, imports, onStack, c);
  }

  // ----- Leaving v on the stack -----

  /** A link below v's own number leads every newer package to a call still running. */
  lemma NewerReachesGray(g: Graph, s: Search, t: Search, gray: set<Node>, v: Node, imports: seq<Node>, x: Node)
    requires ScanDone(g, s, t, gray, v, imports) && t.lowLinks[v] != t.indices[v]
    requires x in t.stack
    ensures ReachesSome(g, x, gray)
  {
    if x in s.stack {
      assert ReachesSome(g, x, gray);
    } else {
      GrayIsOlder(g, s, t, gray, v);
      NewerIsMutual(g, s, t, gray, v, x);
      var y :| y in s.stack + [v] && y in t.indices && t.indices[y] == t.lowLinks[v] && Reaches(g, v, y);
      assert y in s.stack;
      assert ReachesSome(g, y, gray);
      var a :| a in gray && Reaches(g, y, a);
      ReachesTransitive(g, x, v, y);
      ReachesTransitive(g, x, y, a);
    }
  }

  lemma LeaveKeepsGray(g: Graph, s: Search, t: Search, gray: set<Node>, v: Node, imports: seq<Node>)
    requires ScanDone(g, s, t, gray, v, imports) && t.lowLinks[v] != t.indices[v]
    ensures GrayOk(g, t, gray)
  {
    forall x | x in t.stack ensures ReachesSome(g, x, gray) {
      NewerReachesGray(g, s, t, gray, v, imports, x);
    }
    forall x, y | x in t.indices && x !in gray && Edge(g, x, y) ensures y in t.indices {
      ScannedImportsNumbered(g, s, t, gray, v, imports, x, y);
    }
  }

  lemma LeaveIsVisited(g: Graph, s: Search, t: Search, gray: set<Node>, v: Node, imports: seq<Node>)
    requires ScanDone(g, s, t, gray, v, imports) && t.lowLinks[v] != t.indices[v]
    ensures Visited(g, s, t, v)
  {
    forall x, y | x in t.stack && x !in s.stack && y in s.stack && Edge(g, x, y)
      ensures y in t.indices && t.lowLinks[v] <= t.indices[y]
    {
      if x == v {
        assert y in multiset(g[v]);
        assert y in imports;
      } else {
        assert x !in s.stack + [v];
      }
    }
    assert t.stack[|s.stack|] == v;
    var y :| y in s.stack + [v] && y in t.indices && t.indices[y] == t.lowLinks[v] && Reaches(g, v, y);
    assert y in s.stack;
  }

  lemma LeaveKeeps(g: Graph, s: Search, t: Search, gray: set<Node>, v: Node, imports: seq<Node>)
    requires ScanDone(g, s, t, gray, v, imports) && t.lowLinks[v] != t.indices[v]
    ensures SearchOk(g, t, gray) && Extends(s, t) && Visited(g, s, t, v)
  {
    LeaveKeepsGray(g, s, t, gray, v, imports);
    LeaveIsVisited(g, s, t, gray, v, imports);
  }

  /** A call still running reaches each package it visits next. */
  lemma GrayReachesImport(g: Graph, t: Search, gray: set<Node>, v: Node, w: Node)
    requires StackOk(g, t) && GrayOk(g, t, gray) && v in gray && Edge(g, v, w)
    requires forall a :: a in gray ==> a in t.indices && t.indices[a] <= t.indices[v]
    ensures forall a :: a in gray ==> Reaches(g, a, w)
  {
    ReachesEdge(g, v, w);
    forall a | a in gray ensures Reaches(g, a, w) {
      assert Reaches(g, a, v);
      ReachesTransitive(g, a, v, w);
    }
  }

  // ----- The search -----

  class Tarjan {
    const packages: Graph
    var index: nat
    var indices: map<Node, nat>
    var lowLinks: map<Node, nat>
    var onStack: map<Node, bool>
    var stack: seq<Node>
    var components: seq<seq<Node>>

    ghost function View(): Search
      reads this
    {
      Search(index, indices, lowLinks, onStack, stack, components)
    }

    constructor (packages: Graph)
      ensures this.packages == packages
      ensures View() == Search(0, map[], map[], map[], [], [])
    {
      this.packages := packages;
      index, indices, lowLinks, onStack, stack, components := 0, map[], map[], map[], [], [];
    }

    method Number(path: Node)
      modifies this
      ensures View() == Push(old(View()), path)
    {
      indices := indices[path := index];
      lowLinks := lowLinks[path := index];
      index := index + 1;
      stack := stack + [path];
      onStack := onStack[path := true];
    }

    /** Number path and everything new it reaches; emit each component that closes on the way. */
    method Visit(path: Node, ghost gray: set<Node>)
      requires SearchOk(packages, View(), gray)
      requires path in packages && path !in indices
      requires forall a :: a in gray ==> Reaches(packages, a, path)
      modifies this
      ensures SearchOk(packages, View(), gray)
      ensures Extends(old(View()), View())
      ensures Visited(packages, old(View()), View(), path)
      decreases packages.Keys - indices.Keys, 0
    {
      ghost var entry := View();
      PushKeeps(packages, entry, gray, path);
      Number(path);
      var imports := Sort(packages[path]);
      PushStartsScan(packages, entry, path, imports);
      Scan(path, imports, entry, gray);
      if lowLinks[path] != indices[path] {
        LeaveKeeps(packages, entry, View(), gray, path, imports);
        return;
      }
      PopComponent(path, entry, gray, imports);
    }

    /** The loop over path's sorted imports. */
    method Scan(path: Node, imports: seq<Node>, ghost entry: Search, ghost gray: set<Node>)
      requires path in packages && multiset(imports) == multiset(packages[path])
      requires SearchOk(packages, entry, gray) && path !in entry.indices
      requires SearchOk(packages, View(), gray + {path})
      requires Scanning(packages, entry, View(), path, imports, 0)
      modifies this
      ensures ScanDone(packages, entry, View(), gray, path, imports)
      decreases packages.Keys - indices.Keys, 3
    {
      hide GrayOk, ComponentsOk, StackOk, NoLowerImport, LowIsReached;
      for n := 0 to |imports|
        invariant old(indices.Keys) <= indices.Keys
        invariant SearchOk(packages, View(), gray + {path})
        invariant Scanning(packages, entry, View(), path, imports, n)
      {
        ScanOne(path, imports, n, entry, gray);
      }
    }

    /** One import: visit it, or compare its number if it is still stacked. */
    method ScanOne(path: Node, imports: seq<Node>, n: nat, ghost entry: Search, ghost gray: set<Node>)
      requires path in packages && multiset(imports) == multiset(packages[path])
      requires SearchOk(packages, entry, gray) && path !in entry.indices
      requires SearchOk(packages, View(), gray + {path})
      requires n < |imports| && Scanning(packages, entry, View(), path, imports, n)
      modifies this
      ensures SearchOk(packages, View(), gray + {path})
      ensures Scanning(packages, entry, View(), path, imports, n + 1)
      ensures old(indices.Keys) <= indices.Keys
      decreases packages.Keys - indices.Keys, 2
    {
      var imported := imports[n];
      if imported !in packages {
        return;
      }
      assert imported in multiset(packages[path]) by {
        assert imported in multiset(imports);
      }
      if imported !in indices {
        ScanUnseen(path, imports, n, entry, gray);
      } else {
        ScanSeen(path, imports, n, entry, gray);
      }
    }

    method ScanUnseen(path: Node, imports: seq<Node>, n: nat, ghost entry: Search, ghost gray: set<Node>)
      requires SearchOk(packages, entry, gray) && path !in entry.indices
      requires SearchOk(packages, View(), gray + {path})
      requires n < |imports| && Scanning(packages, entry, View(), path, imports, n)
      requires Edge(packages, path, imports[n]) && imports[n] !in indices
      modifies this
      ensures SearchOk(packages, View(), gray + {path})
      ensures Scanning(packages, entry, View(), path, imports, n + 1)
      ensures old(indices.Keys) <= indices.Keys
      decreases packages.Keys - indices.Keys, 1
    {
      hide GrayOk, ComponentsOk, NoLowerImport, LowIsReached, Reaches;
      var imported := imports[n];
      ghost var before := View();
      GrayIsOlder(packages, entry, before, gray, path);
      GrayReachesImport(packages, before, gray + {path}, path, imported);
      Visit(imported, gray + {path});
      ghost var after := View();
      ChildKeepsScan(packages, entry, before, after, path, imports, n);
      if lowLinks[imported] < lowLinks[path] {
        LowerKeeps(packages, after, gray + {path}, path, lowLinks[imported]);
        lowLinks := lowLinks[path := lowLinks[imported]];
      }
      assert View() == Absorb(after, path, imported);
    }

    method ScanSeen(path: Node, imports: seq<Node>, n: nat, ghost entry: Search, ghost gray: set<Node>)
      requires SearchOk(packages, View(), gray + {path}) && path !in entry.indices && path !in entry.lowLinks
      requires n < |imports| && Scanning(packages, entry, View(), path, imports, n)
      requires Edge(packages, path, imports[n]) && imports[n] in indices
      modifies this`lowLinks
      ensures SearchOk(packages, View(), gray + {path})
      ensures Scanning(packages, entry, View(), path, imports, n + 1)
    {
      hide ComponentsOk, NoLowerImport, LowIsReached;
      var imported := imports[n];
      ghost var before := View();
      assert OnStack(before, imported) <==> imported in stack;
      if imported in onStack && onStack[imported] && indices[imported] < lowLinks[path] {
        ReachesEdge(packages, path, imported);
        LowerKeeps(packages, before, gray + {path}, path, indices[imported]);
        LowerKeepsScan(packages, entry, before, path, imports, n, imported);
        lowLinks := lowLinks[path := indices[imported]];
        assert View() == Lower(before, path, indices[imported]);
      }
      SeenImport(packages, entry, View(), path, imports, n);
    }

    /** Take packages off the stack down to path. */
    method PopUntil(path: Node, ghost entry: Search) returns (component: seq<Node>)
      requires entry.stack + [path] <= stack
      requires forall i, j :: 0 <= i < j < |stack| ==> stack[i] != stack[j]
      requires forall x :: (x in onStack && onStack[x]) <==> x in stack
      modifies this`stack, this`onStack
      ensures stack == entry.stack
      ensures forall x :: (x in onStack && onStack[x]) <==> x in stack
      ensures forall x :: x in component <==> x in old(stack) && x !in entry.stack
      ensures forall i, j :: 0 <= i < j < |component| ==> component[i] != component[j]
    {
      ghost var before := stack;
      component := [];
      while true
        invariant |entry.stack| < |stack| <= |before|
        invariant stack == before[..|stack|]
        invariant |component| == |before| - |stack|
        invariant forall i :: 0 <= i < |component| ==> component[i] == before[|before| - 1 - i]
        invariant forall x :: (x in onStack && onStack[x]) <==> x in stack
        decreases |stack|
      {
        var last := |stack| - 1;
        var member := stack[last];
        TakeOne(stack, last);
        stack := stack[..last];
        onStack := onStack[member := false];
        component := component + [member];
        assert before[|entry.stack|] == path;
        if member == path {
          break;
        }
      }
      assert entry.stack == before[..|entry.stack|];
      ReversedTail(before, |entry.stack|, component);
    }

    method PopComponent(path: Node, ghost entry: Search, ghost gray: set<Node>, ghost imports: seq<Node>)
      requires ScanDone(packages, entry, View(), gray, path, imports)
      requires lowLinks[path] == indices[path]
      modifies this
      ensures SearchOk(packages, View(), gray)
      ensures Extends(entry, View()) && Visited(packages, entry, View(), path)
    {
      hide GrayOk, ComponentsOk, Reaches, NoLowerImport, LowIsReached;
      ghost var before := View();
      assert forall x :: OnStack(before, x) <==> (x in onStack && onStack[x]);
      var component := PopUntil(path, entry);
      SortedIsPopped(entry, before, component);
      CutKeeps(packages, entry, before, gray, path, imports, onStack, Sort(component));
      components := components + [Sort(component)];
      assert View() == Cut(entry, before, onStack, Sort(component));
    }
  }

  lemma TakeOne(full: seq<Node>, last: nat)
    requires last + 1 == |full|
    requires forall i, j :: 0 <= i < j < |full| ==> full[i] != full[j]
    ensures forall x :: x in full[..last] <==> x in full && x != full[last]
  {
    assert full == full[..last] + [full[last]];
  }

  lemma ReversedTail(full: seq<Node>, k: nat, c: seq<Node>)
    requires k <= |full| && |c| == |full| - k
    requires forall i, j :: 0 <= i < j < |full| ==> full[i] != full[j]
    requires forall i :: 0 <= i < |c| ==> c[i] == full[|full| - 1 - i]
    ensures forall x :: x in c <==> x in full && x !in full[..k]
    ensures forall i, j :: 0 <= i < j < |c| ==> c[i] != c[j]
  {
    forall x | x in full && x !in full[..k] ensures x in c {
      var i :| 0 <= i < |full| && full[i] == x;
      assert forall j :: 0 <= j < k ==> full[j] in full[..k];
      assert c[|full| - 1 - i] == x;
    }
  }

  lemma SortedIsPopped(s: Search, t: Search, c: seq<Node>)
    requires forall x :: x in c <==> Newer(s, t, x)
    requires forall i, j :: 0 <= i < j < |c| ==> c[i] != c[j]
    ensures Popped(s, t, Sort(c))
  {
    forall x ensures x in Sort(c) <==> x in c {
      SortKeepsMembers(c, x);
    }
    UniqueIsPermutationInvariant(c, Sort(c));
  }

  lemma UniqueIsPermutationInvariant(a: seq<Node>, b: seq<Node>)
    requires multiset(a) == multiset(b)
    requires forall i, j :: 0 <= i < j < |a| ==> a[i] != a[j]
    ensures forall i, j :: 0 <= i < j < |b| ==> b[i] != b[j]
  {
    forall i, j | 0 <= i < j < |b| ensures b[i] != b[j] {
      UniqueCount(a, b[i]);
      assert b == b[..i] + [b[i]] + b[i + 1..j] + [b[j]] + b[j + 1..];
      assert multiset(b)[b[i]] <= 1;
    }
  }

  lemma {:induction false} UniqueCount(a: seq<Node>, x: Node)
    requires forall i, j :: 0 <= i < j < |a| ==> a[i] != a[j]
    ensures multiset(a)[x] <= 1
  {
    if a != [] {
      UniqueCount(a[1..], x);
      assert a == [a[0]] + a[1..];
    }
  }

  // ----- The report -----

  lemma NoCallNoStack(g: Graph, s: Search)
    requires SearchOk(g, s, {})
    ensures s.stack == []
  {
    if s.stack != [] {
      StackedReaches(g, s, {}, s.stack[0]);
      assert false;
    }
  }

  lemma StackedReaches(g: Graph, s: Search, gray: set<Node>, x: Node)
    requires SearchOk(g, s, gray) && x in s.stack
    ensures ReachesSome(g, x, gray)
  {
  }

  lemma EmptySearchOk(g: Graph)
    ensures SearchOk(g, Search(0, map[], map[], map[], [], []), {})
  {
    assert PlacedSet(Search(0, map[], map[], map[], [], [])) == {};
  }

  ghost predicate Together(components: seq<seq<Node>>, x: Node, y: Node) {
    exists i :: 0 <= i < |components| && x in components[i] && y in components[i]
  }

  /** The component list of the report: a partition of the packages into classes of mutual dependency. */
  method StronglyConnectedComponents(paths: seq<Node>, packages: Graph) returns (components: seq<seq<Node>>)
    requires forall x :: x in paths <==> x in packages
    ensures forall i :: 0 <= i < |components| ==> IsComponent(packages, components[i])
    ensures ListedOnce(components, packages.Keys)
    ensures DependenciesFirst(packages, components)
    ensures forall x, y :: x in packages && y in packages ==> (Together(components, x, y) <==> Mutual(packages, x, y))
  {
    hide ComponentsOk, GrayOk, IsComponent, ListedOnce, DependenciesFirst, Mutual, Together;
    var search := new Tarjan(packages);
    EmptySearchOk(packages);
    for i := 0 to |paths|
      invariant search.packages == packages
      invariant SearchOk(packages, search.View(), {})
      invariant forall j :: 0 <= j < i ==> paths[j] in search.indices
    {
      if paths[i] !in search.indices {
        search.Visit(paths[i], {});
      }
    }
    components := search.components;
    SearchedIsPartition(packages, search.View());
    forall x, y | x in packages && y in packages
      ensures Together(components, x, y) <==> Mutual(packages, x, y)
    {
      ClassesSplitPackages(packages, components, x, y);
    }
  }

  lemma SearchedIsPartition(g: Graph, s: Search)
    requires SearchOk(g, s, {}) && s.indices.Keys == g.Keys
    ensures forall i :: 0 <= i < |s.components| ==> IsComponent(g, s.components[i])
    ensures ListedOnce(s.components, g.Keys)
    ensures DependenciesFirst(g, s.components)
  {
    NoCallNoStack(g, s);
    assert PlacedSet(s) == g.Keys;
  }

  lemma ClassesSplitPackages(g: Graph, components: seq<seq<Node>>, x: Node, y: Node)
    requires forall i :: 0 <= i < |components| ==> IsComponent(g, components[i])
    requires ListedOnce(components, g.Keys)
    requires x in g && y in g
    ensures Together(components, x, y) <==> Mutual(g, x, y)
  {
    assert Listed(components, x);
    var i :| 0 <= i < |components| && x in components[i];
    assert y in components[i] <==> Mutual(g, x, y);
  }

  ghost function Members(c: seq<Node>): set<Node> {
    set x | x in c
  }

  /** The dependency cycles of the graph: its mutual-reachability classes of at least two packages. */
  ghost function CyclicClasses(g: Graph): set<set<Node>> {
    set x | x in g && |ComponentOf(g, x)| > 1 :: ComponentOf(g, x)
  }

  ghost function CyclicPrefix(components: seq<seq<Node>>, n: nat): (classes: set<set<Node>>)
    requires n <= |components|
  {
    set i | 0 <= i < n && |components[i]| > 1 :: Members(components[i])
  }

  lemma {:induction false} MembersCount(c: seq<Node>)
    requires forall i, j :: 0 <= i < j < |c| ==> c[i] != c[j]
    ensures |Members(c)| == |c|
  {
    if c != [] {
      MembersCount(c[1..]);
      assert Members(c) == {c[0]} + Members(c[1..]);
    }
  }

  lemma ComponentIsClass(g: Graph, c: seq<Node>, x: Node)
    requires IsComponent(g, c) && x in c
    ensures Members(c) == ComponentOf(g, x) && |ComponentOf(g, x)| == |c|
  {
    MembersCount(c);
  }

  /** Counting the listed components of two or more packages counts the cycles. */
  lemma CountedIsCyclic(g: Graph, components: seq<seq<Node>>)
    requires forall i :: 0 <= i < |components| ==> IsComponent(g, components[i])
    requires ListedOnce(components, g.Keys)
    ensures CyclicPrefix(components, |components|) == CyclicClasses(g)
  {
    forall i | 0 <= i < |components| && |components[i]| > 1 ensures Members(components[i]) in CyclicClasses(g) {
      ComponentIsClass(g, components[i], components[i][0]);
      assert components[i][0] in g;
    }
    forall x | x in g && |ComponentOf(g, x)| > 1 ensures ComponentOf(g, x) in CyclicPrefix(components, |components|) {
      assert Listed(components, x);
      var i :| 0 <= i < |components| && x in components[i];
      ComponentIsClass(g, components[i], x);
    }
  }

  lemma CyclicPrefixGrows(components: seq<seq<Node>>, nodes: set<Node>, n: nat)
    requires n < |components| && components[n] != [] && ListedOnce(components, nodes)
    ensures |CyclicPrefix(components, n + 1)| ==
            |CyclicPrefix(components, n)| + (if |components[n]| > 1 then 1 else 0)
  {
    var prefix := CyclicPrefix(components, n);
    if |components[n]| > 1 {
      assert CyclicPrefix(components, n + 1) == prefix + {Members(components[n])};
      assert forall i :: 0 <= i < n ==> components[n][0] !in Members(components[i]);
      assert components[n][0] in Members(components[n]);
    } else {
      assert CyclicPrefix(components, n + 1) == prefix;
    }
  }

  /** The cyclic-component count printed by the report. */
  method CountCyclic(paths: seq<Node>, packages: Graph) returns (cyclic: nat)
    requires forall x :: x in paths <==> x in packages
    ensures cyclic == |CyclicClasses(packages)|
  {
    var components := StronglyConnectedComponents(paths, packages);
    cyclic := 0;
    for n := 0 to |components|
      invariant cyclic == |CyclicPrefix(components, n)|
    {
      CyclicPrefixGrows(components, packages.Keys, n);
      if |components[n]| > 1 {
        cyclic := cyclic + 1;
      }
    }
    CountedIsCyclic(packages, components);
  }
}
