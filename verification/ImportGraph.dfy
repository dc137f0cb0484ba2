/** The package import graph of the architecture report, and reachability in it. */
module ImportGraph {

  type Node = string

  /** Import path -> the imports listed for that package; imports outside the map are foreign. */
  type Graph = map<Node, seq<Node>>

  ghost predicate Edge(g: Graph, x: Node, y: Node) {
    x in g && y in g && y in g[x]
  }

  /** p lists the packages after x on a chain of imports from x to y. */
  ghost predicate IsPath(g: Graph, p: seq<Node>, x: Node, y: Node) {
    if p == [] then x == y else Edge(g, x, p[0]) && IsPath(g, p[1..], p[0], y)
  }

  ghost predicate Reaches(g: Graph, x: Node, y: Node) {
    exists p :: IsPath(g, p, x, y)
  }

  /** Each of the two packages depends, directly or not, on the other. */
  ghost predicate Mutual(g: Graph, x: Node, y: Node) {
    Reaches(g, x, y) && Reaches(g, y, x)
  }

  lemma ReachesSelf(g: Graph, x: Node)
    ensures Reaches(g, x, x)
  {
    assert IsPath(g, [], x, x);
  }

  lemma ReachesEdge(g: Graph, x: Node, y: Node)
    requires Edge(g, x, y)
    ensures Reaches(g, x, y)
  {
    assert IsPath(g, [], y, y);
    assert IsPath(g, [y], x, y);
  }

  lemma {:induction false} PathsConcatenate(g: Graph, p: seq<Node>, q: seq<Node>, x: Node, y: Node, z: Node)
    requires IsPath(g, p, x, y) && IsPath(g, q, y, z)
    ensures IsPath(g, p + q, x, z)
  {
    if p == [] {
      assert p + q == q;
    } else {
      PathsConcatenate(g, p[1..], q, p[0], y, z);
      assert (p + q)[1..] == p[1..] + q;
    }
  }

  lemma ReachesTransitive(g: Graph, x: Node, y: Node, z: Node)
    requires Reaches(g, x, y) && Reaches(g, y, z)
    ensures Reaches(g, x, z)
  {
    var p :| IsPath(g, p, x, y);
    var q :| IsPath(g, q, y, z);
    PathsConcatenate(g, p, q, x, y, z);
  }

  lemma MutualTransitive(g: Graph, x: Node, y: Node, z: Node)
    requires Mutual(g, x, y) && Mutual(g, y, z)
    ensures Mutual(g, x, z)
  {
    ReachesTransitive(g, x, y, z);
    ReachesTransitive(g, z, y, x);
  }

  ghost predicate Closed(g: Graph, nodes: set<Node>) {
    forall x, y :: x in nodes && Edge(g, x, y) ==> y in nodes
  }

  /** A set closed under imports holds everything reachable from any member. */
  lemma ClosedHoldsReachable(g: Graph, nodes: set<Node>, x: Node, y: Node)
    requires Closed(g, nodes) && x in nodes && Reaches(g, x, y)
    ensures y in nodes
  {
    var p :| IsPath(g, p, x, y);
    PathStaysInside(g, nodes, p, x, y);
  }

  lemma {:induction false} PathStaysInside(g: Graph, nodes: set<Node>, p: seq<Node>, x: Node, y: Node)
    requires Closed(g, nodes) && x in nodes && IsPath(g, p, x, y)
    ensures y in nodes
  {
    if p != [] {
      PathStaysInside(g, nodes, p[1..], p[0], y);
    }
  }

  /** The packages that share a dependency cycle with x, x itself included. */
  ghost function ComponentOf(g: Graph, x: Node): set<Node> {
    set y | y in g && Mutual(g, x, y)
  }
}
