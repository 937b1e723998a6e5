/**
  The part of the jsonc-parser library that the tree provider relies on: the parse-tree
  node, location paths, `findNodeAtLocation` and `getLocation`.

  `findNodeAtLocation` is modelled as the library writes it. `getLocation` scans the text
  in the library; here it is a walk over the tree parsed from that same text that yields
  the segments the scan holds when it reaches the offset.
*/
module JsonParser {

  import opened Wrappers

  /** The seven node types of `CodeNodeType`. */
  datatype Kind = Object | Array | Property | String | Number | Boolean | Null

  /** A node's decoded `value`; containers and properties carry `Undefined`. */
  datatype Value = Undefined | Str(s: string) | Num(n: int) | Bool(b: bool) | NullValue

  /** A parse-tree node. An absent `children` array is the empty sequence. */
  datatype Node = Node(kind: Kind, offset: nat, length: nat, children: seq<Node>, value: Value)

  /** One step of a location path: an object key or an array index. */
  datatype Segment = Key(key: string) | Index(index: nat)

  type Path = seq<Segment>

  /** A node found by a walk from the root, with the node it was reached from (`node.parent`). */
  datatype Located = Located(node: Node, parent: Option<Node>)

  /**
    `o` lies strictly inside the container `n`: past its `{` or `[` and up to, and including,
    its `}` or `]`.
  */
  predicate Within(n: Node, o: int) {
    n.offset < o < n.offset + n.length
  }

  /** The member `c` holds `o`: from its first character up to and including the position just past its last. */
  predicate Covers(c: Node, o: int) {
    c.offset <= o <= c.offset + c.length
  }

  /** The range of `c` lies within the range of `n`. */
  predicate Inside(c: Node, n: Node) {
    n.offset <= c.offset && c.offset + c.length <= n.offset + n.length
  }

  /** Sibling ranges come in source order with a separator (`,` or `:`) between any two. */
  predicate Ordered(cs: seq<Node>) {
    forall i, j :: 0 <= i < j < |cs| ==> cs[i].offset + cs[i].length < cs[j].offset
  }

  /**
    The shape of the parse of a syntactically valid JSON text: non-empty ranges, children
    inside their parent and in order, objects holding properties, a property holding its
    key string (at the property's own offset) and its value, containers whose members lie
    strictly between their `{`/`[` and their `}`/`]`, and scalars without children.
  */
  predicate WellFormed(n: Node)
    decreases n
  {
    && n.length > 0
    && Ordered(n.children)
    && (forall c :: c in n.children ==> Inside(c, n) && WellFormed(c))
    && match n.kind
       case Object => forall c :: c in n.children ==> Within(n, c.offset) && Within(n, c.offset + c.length) && c.kind == Property
       case Array => forall c :: c in n.children ==> Within(n, c.offset) && Within(n, c.offset + c.length) && c.kind != Property
       case Property =>
         && |n.children| == 2
         && n.children[0].kind == String
         && n.children[0].value.Str?
         && n.children[0].offset == n.offset
         && n.children[1].kind != Property
       case _ => n.children == []
  }

  /** A tree the parser can return as a document root: well formed and not a property. */
  predicate WellFormedRoot(n: Node) {
    WellFormed(n) && n.kind != Property
  }

  /** The key of a property: the value of its first child. */
  function KeyOf(p: Node): Value {
    if |p.children| > 0 then p.children[0].value else Undefined
  }

  /** No two members of an object share a key. */
  predicate UniqueKeys(props: seq<Node>) {
    forall i, j :: 0 <= i < j < |props| ==> KeyOf(props[i]) != KeyOf(props[j])
  }

  /** The node a member stands for in the tree view: a property's value, an element itself. */
  function ValueOf(c: Node): Node {
    if c.kind == Property && |c.children| == 2 then c.children[1] else c
  }

  /** The test `findNodeAtLocation` applies to each member of an object for key `key`. */
  predicate IsPropertyFor(p: Node, key: string) {
    |p.children| == 2 && KeyOf(p) == Str(key)
  }

  /** The first member at or after `i` that is a property for `key`. */
  function FindProperty(props: seq<Node>, key: string, i: nat): (r: Option<nat>)
    requires i <= |props|
    ensures r.Some? ==> i <= r.value < |props| && IsPropertyFor(props[r.value], key)
    ensures r.Some? ==> forall j :: i <= j < r.value ==> !IsPropertyFor(props[j], key)
    ensures r.None? ==> forall j :: i <= j < |props| ==> !IsPropertyFor(props[j], key)
    decreases |props| - i
  {
    if i == |props| then None
    else if IsPropertyFor(props[i], key) then Some(i)
    else FindProperty(props, key, i + 1)
  }

  /** One segment of `findNodeAtLocation`: a key selects a property's value, an index an element. */
  function Step(l: Located, s: Segment): (r: Option<Located>)
    ensures s.Index? ==> (r.Some? <==> l.node.kind == Array && s.index < |l.node.children|)
    ensures s.Index? && r.Some? ==> r.value == Located(l.node.children[s.index], Some(l.node))
    ensures s.Key? ==> (r.None? <==> l.node.kind != Object || forall c :: c in l.node.children ==> !IsPropertyFor(c, s.key))
    ensures s.Key? && r.Some? ==>
              && l.node.kind == Object && r.value.parent.Some?
              && r.value.parent.value in l.node.children && IsPropertyFor(r.value.parent.value, s.key)
              && r.value.node == r.value.parent.value.children[1]
    ensures s.Key? && r.Some? ==>
              exists j :: 0 <= j < |l.node.children| && r.value.parent == Some(l.node.children[j])
                          && forall j' :: 0 <= j' < j ==> !IsPropertyFor(l.node.children[j'], s.key)
  {
    match s
    case Key(k) =>
      if l.node.kind != Object then None
      else (
        match FindProperty(l.node.children, k, 0)
        case None => None
        case Some(j) =>
          var prop := l.node.children[j];
          Some(Located(prop.children[1], Some(prop))))
    case Index(i) =>
      if l.node.kind != Array || i >= |l.node.children| then None
      else Some(Located(l.node.children[i], Some(l.node)))
  }

  /** The loop of `findNodeAtLocation`, one segment at a time. */
  function Walk(l: Located, path: Path): (r: Option<Located>)
    ensures path == [] ==> r == Some(l)
    ensures r.Some? && path != [] ==> r.value.parent.Some?
    decreases |path|
  {
    if path == [] then Some(l)
    else
      match Step(l, path[0])
      case None => None
      case Some(next) => Walk(next, path[1..])
  }

  /** `findNodeAtLocation(root, path)`: no node for an absent root; the root has no parent. */
  function FindNodeAtLocation(root: Option<Node>, path: Path): (r: Option<Located>)
    ensures root.None? ==> r.None?
    ensures r.Some? ==> (r.value.parent.None? <==> path == [])
    ensures root.Some? && path == [] ==> r == Some(Located(root.value, None))
  {
    match root
    case None => None
    case Some(r) => Walk(Located(r, None), path)
  }

  /** The last of the first `k` members of `cs` that starts at or before `o`. */
  function LastStartingBy(cs: seq<Node>, o: int, k: nat): (r: Option<nat>)
    requires k <= |cs|
    ensures r.Some? ==> r.value < k && cs[r.value].offset <= o
    ensures r.Some? ==> forall j :: r.value < j < k ==> o < cs[j].offset
    ensures r.None? ==> forall j :: 0 <= j < k ==> o < cs[j].offset
    decreases k
  {
    if k == 0 then None
    else if cs[k - 1].offset <= o then Some(k - 1)
    else LastStartingBy(cs, o, k - 1)
  }

  /** The key a property is named by; the parser always gives a property its key string. */
  function KeyName(p: Node): string {
    if KeyOf(p).Str? then KeyOf(p).s else ""
  }

  /**
    The path of `getLocation` below `n` for offset `o`, following the library's scan:
    entering a container pushes a placeholder segment (`""` in an object, index 0 in an
    array); a key, or an element, replaces it while `o` is at most just past that member's
    end; the comma after a member resets it (to `""`, or to the next index). Inside a
    member's container value the path goes on below that value. Outside a container, or at
    its own `{` or `[`, the path is empty. The comma after a member is taken to follow the
    member directly.
  */
  function PathAt(n: Node, o: int): (r: Path)
    ensures r != [] ==> (n.kind == Object || n.kind == Array) && Within(n, o)
    ensures r != [] ==> (r[0].Index? <==> n.kind == Array)
    decreases n
  {
    if (n.kind != Object && n.kind != Array) || !Within(n, o) then []
    else
      match LastStartingBy(n.children, o, |n.children|)
      case None => if n.kind == Array then [Index(0)] else [Key("")]
      case Some(i) =>
        var c := n.children[i];
        if n.kind == Array then
          if Covers(c, o) then [Index(i)] + PathAt(c, o)
          else if i + 1 < |n.children| then [Index(i + 1)]
          else [Index(i)]
        else if Covers(c, o) then
          [Key(KeyName(c))] + (if |c.children| == 2 then PathAt(c.children[1], o) else [])
        else if i + 1 < |n.children| then [Key("")]
        else [Key(KeyName(c))]
  }

  /** `getLocation(text, o).path` for the text whose parse is `root`; no tree gives the empty path. */
  function GetLocation(root: Option<Node>, o: int): (r: Path)
    ensures r != [] ==> root.Some? && (root.value.kind == Object || root.value.kind == Array) && Within(root.value, o)
  {
    match root
    case None => []
    case Some(r) => PathAt(r, o)
  }
}
