/**
  Facts about the parser model on well-formed trees: a walk stays inside the tree it
  starts from, and `getLocation` at the offset of any node reached by a path gives that
  same path back, so that offset, path and node identify one another.
*/
module ParserFacts {

  import opened Wrappers
  import opened JsonParser

  /** Among ordered siblings, the last one starting at or before an offset it covers is that one. */
  lemma {:induction false} LastStartingByUnique(cs: seq<Node>, o: int, i: nat, k: nat)
    requires Ordered(cs)
    requires i < k <= |cs| && Covers(cs[i], o)
    ensures LastStartingBy(cs, o, k) == Some(i)
    decreases k
  {
    if k - 1 != i {
      assert cs[i].offset + cs[i].length < cs[k - 1].offset;
      LastStartingByUnique(cs, o, i, k - 1);
    }
  }

  /** Appending a segment to a path takes one more step from where the path ends. */
  lemma {:induction false} WalkAppend(l: Located, p: Path, s: Segment)
    ensures Walk(l, p + [s]) == match Walk(l, p) case None => None case Some(m) => Step(m, s)
    decreases |p|
  {
    if p == [] {
      assert p + [s] == [s];
    } else {
      assert (p + [s])[0] == p[0];
      assert (p + [s])[1..] == p[1..] + [s];
      match Step(l, p[0])
      case None =>
      case Some(next) => WalkAppend(next, p[1..], s);
    }
  }

  /** One step from a well-formed non-property node reaches a well-formed non-property node inside it. */
  lemma StepStaysInside(l: Located, s: Segment, m: Located)
    requires WellFormedRoot(l.node)
    requires Step(l, s) == Some(m)
    ensures WellFormedRoot(m.node) && Inside(m.node, l.node)
  {
    match s
    case Key(k) =>
      var j := FindProperty(l.node.children, k, 0).value;
      var prop := l.node.children[j];
      assert prop in l.node.children;
      assert prop.kind == Property && WellFormed(prop);
      assert m.node == prop.children[1];
      assert prop.children[1] in prop.children;
    case Index(i) =>
      assert l.node.children[i] in l.node.children;
  }

  /** A walk from a well-formed non-property node ends at a well-formed non-property node inside it. */
  lemma {:induction false} WalkStaysInside(l: Located, p: Path, m: Located)
    requires WellFormedRoot(l.node)
    requires Walk(l, p) == Some(m)
    ensures WellFormedRoot(m.node) && Inside(m.node, l.node)
    decreases |p|
  {
    if p != [] {
      var next := Step(l, p[0]).value;
      StepStaysInside(l, p[0], next);
      WalkStaysInside(next, p[1..], m);
    }
  }

  /** One step down: an offset the node a step reaches covers is located through that step's segment. */
  lemma PathAtStep(l: Located, s: Segment, next: Located, o: int)
    requires WellFormedRoot(l.node)
    requires Step(l, s) == Some(next)
    requires Covers(next.node, o)
    ensures PathAt(l.node, o) == [s] + PathAt(next.node, o)
  {
    var n := l.node;
    match s
    case Key(k) =>
      var j := FindProperty(n.children, k, 0).value;
      var prop := n.children[j];
      assert prop in n.children;
      assert prop.kind == Property && WellFormed(prop);
      assert next.node == prop.children[1];
      assert prop.children[1] in prop.children;
      LastStartingByUnique(n.children, o, j, |n.children|);
      assert KeyName(prop) == k;
    case Index(i) =>
      assert n.children[i] in n.children;
      LastStartingByUnique(n.children, o, i, |n.children|);
  }

  /** Putting a path's head back in front of its tail. */
  lemma Regroup(p: Path, x: Path, y: Path)
    requires p != [] && x == [p[0]] + (p[1..] + y)
    ensures x == p + y
  {
    assert p == [p[0]] + p[1..];
  }

  /** The first step of a walk that reaches a node containing `o`, with what the induction needs of it. */
  lemma WalkHead(l: Located, p: Path, m: Located, o: int)
    requires WellFormedRoot(l.node)
    requires p != [] && Walk(l, p) == Some(m)
    requires Covers(m.node, o)
    ensures Step(l, p[0]).Some?
    ensures WellFormedRoot(Step(l, p[0]).value.node)
    ensures Walk(Step(l, p[0]).value, p[1..]) == Some(m)
    ensures PathAt(l.node, o) == [p[0]] + PathAt(Step(l, p[0]).value.node, o)
  {
    var next := Step(l, p[0]).value;
    StepStaysInside(l, p[0], next);
    WalkStaysInside(next, p[1..], m);
    PathAtStep(l, p[0], next, o);
  }

  /**
    Descending along a path: for an offset the node a walk reaches covers, the location
    path from the start is the walk's path followed by the location path inside that node.
  */
  lemma {:induction false} PathAtAlongWalk(l: Located, p: Path, m: Located, o: int)
    requires WellFormedRoot(l.node)
    requires Walk(l, p) == Some(m)
    requires Covers(m.node, o)
    ensures PathAt(l.node, o) == p + PathAt(m.node, o)
    decreases |p|
  {
    if p != [] {
      WalkHead(l, p, m, o);
      var next := Step(l, p[0]).value;
      PathAtAlongWalk(next, p[1..], m, o);
      Regroup(p, PathAt(l.node, o), PathAt(m.node, o));
    } else {
      assert Walk(l, p) == Some(l);
    }
  }

  /**
    Offsets identify nodes: for every node a path reaches in a well-formed document, the
    location path at that node's offset is the path, and resolving it finds the node again.
  */
  lemma LocationOfReachedNode(root: Node, p: Path, m: Located)
    requires WellFormedRoot(root)
    requires FindNodeAtLocation(Some(root), p) == Some(m)
    ensures GetLocation(Some(root), m.node.offset) == p
    ensures FindNodeAtLocation(Some(root), GetLocation(Some(root), m.node.offset)) == Some(m)
  {
    WalkStaysInside(Located(root, None), p, m);
    PathAtAlongWalk(Located(root, None), p, m, m.node.offset);
    assert p + [] == p;
  }
}
