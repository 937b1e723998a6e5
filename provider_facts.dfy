/**
  What the tree provider guarantees about the tree it shows, on well-formed documents:
  the offsets it hands out resolve back to their nodes, the children of a node are its
  members' values in source order, labels name the last step of the node's path, and an
  edit notifies the innermost container around it. The examples at the end take
  concrete documents through the same functions.
*/
module ProviderFacts {

  import opened Wrappers
  import opened JsonParser
  import opened ParserFacts
  import opened TreeRender
  import opened TreeProvider

  /** The offset of any node a path reaches resolves, through `_getNode`, to that node and its parent. */
  lemma GetNodeFindsReachedNode(root: Node, p: Path, m: Located)
    requires WellFormedRoot(root)
    requires FindNodeAtLocation(Some(root), p) == Some(m)
    ensures GetNode(Some(root), m.node.offset) == Some(m)
  {
    LocationOfReachedNode(root, p, m);
  }

  /**
    The `!position` shortcut of `getChildren` is unobservable on a well-formed document:
    offset 0 resolves to the root anyway, so both routes give the root's children.
  */
  lemma PositionZeroIsRoot(root: Node)
    requires WellFormedRoot(root)
    ensures GetNode(Some(root), 0) == Some(Located(root, None))
    ensures (match GetNode(Some(root), 0)
             case None => []
             case Some(l) => ResolvedOffsets(Some(root), l.node.children))
            == ResolvedOffsets(Some(root), root.children)
  {
  }

  /** `pop` on a path with a segment put after `p` leaves `p`. */
  lemma AppendAfter(p: Path, s: Segment)
    ensures Pop(p + [s]) == p
  {
    assert (p + [s])[..|p|] == p;
  }

  /** An element's offset resolves to the element, with the array as its parent. */
  lemma ElementResolves(root: Node, p: Path, m: Located, i: nat)
    requires WellFormedRoot(root)
    requires FindNodeAtLocation(Some(root), p) == Some(m)
    requires m.node.kind == Array && i < |m.node.children|
    ensures GetNode(Some(root), m.node.children[i].offset) == Some(Located(m.node.children[i], Some(m.node)))
  {
    WalkAppend(Located(root, None), p, Index(i));
    GetNodeFindsReachedNode(root, p + [Index(i)], Located(m.node.children[i], Some(m.node)));
  }

  /** With unique keys, a property's offset (that of its key) resolves to the property's value. */
  lemma PropertyResolves(root: Node, p: Path, m: Located, i: nat)
    requires WellFormedRoot(root)
    requires FindNodeAtLocation(Some(root), p) == Some(m)
    requires m.node.kind == Object && i < |m.node.children| && UniqueKeys(m.node.children)
    ensures GetNode(Some(root), m.node.children[i].offset)
            == Some(Located(ValueOf(m.node.children[i]), Some(m.node.children[i])))
  {
    var n := m.node;
    var c := n.children[i];
    WalkStaysInside(Located(root, None), p, m);
    assert c in n.children;
    assert c.kind == Property && WellFormed(c);
    var key := c.children[0];
    assert key in c.children;
    assert WellFormed(key);
    var k := key.value.s;
    var value := c.children[1];
    assert value in c.children;
    LastStartingByUnique(n.children, c.offset, i, |n.children|);
    assert PathAt(n, c.offset) == [Key(k)] + PathAt(value, c.offset);
    assert PathAt(n, c.offset) == [Key(k)];
    PathAtAlongWalk(Located(root, None), p, m, c.offset);
    WalkAppend(Located(root, None), p, Key(k));
    var j := FindProperty(n.children, k, 0).value;
    assert KeyOf(n.children[j]) == KeyOf(c);
    assert j == i;
  }

  /** Results that all found the value of their member keep one offset each, in order. */
  lemma {:induction false} KeptWhenEachFound(rs: seq<Option<Located>>, cs: seq<Node>)
    requires |rs| == |cs|
    requires forall i :: 0 <= i < |rs| ==> rs[i].Some? && rs[i].value.node == ValueOf(cs[i])
    ensures |KeptOffsets(rs)| == |cs|
    ensures forall i :: 0 <= i < |cs| ==> KeptOffsets(rs)[i] == ValueOf(cs[i]).offset
    decreases |rs|
  {
    if rs != [] {
      var n := |rs| - 1;
      KeptWhenEachFound(rs[..n], cs[..n]);
      var rest := KeptOffsets(rs[..n]);
      assert KeptOffsets(rs) == rest + [ValueOf(cs[n]).offset];
      forall i | 0 <= i < |cs| ensures KeptOffsets(rs)[i] == ValueOf(cs[i]).offset {
        if i < n {
          assert cs[..n][i] == cs[i];
        }
      }
    }
  }

  /** Children all of which resolve give one offset each, the node each resolves to, in order. */
  lemma ResolvedWhenEachResolves(root: Option<Node>, cs: seq<Node>)
    requires forall i :: 0 <= i < |cs| ==>
               GetNode(root, cs[i].offset).Some? && GetNode(root, cs[i].offset).value.node == ValueOf(cs[i])
    ensures |ResolvedOffsets(root, cs)| == |cs|
    ensures forall i :: 0 <= i < |cs| ==> ResolvedOffsets(root, cs)[i] == ValueOf(cs[i]).offset
  {
    KeptWhenEachFound(Resolutions(root, cs), cs);
  }

  /**
    `_getChildrenOffsets` on any node of a well-formed document whose keys are unique:
    one offset per member, in source order, each the offset of the member's value (the
    element itself in an array, the property's value in an object).
  */
  lemma MemberResolves(root: Node, p: Path, m: Located, i: nat)
    requires WellFormedRoot(root)
    requires FindNodeAtLocation(Some(root), p) == Some(m)
    requires m.node.kind == Object ==> UniqueKeys(m.node.children)
    requires i < |m.node.children|
    ensures GetNode(Some(root), m.node.children[i].offset).Some?
    ensures GetNode(Some(root), m.node.children[i].offset).value.node == ValueOf(m.node.children[i])
  {
    WalkStaysInside(Located(root, None), p, m);
    if m.node.kind == Object {
      PropertyResolves(root, p, m, i);
    } else {
      assert m.node.children[i] in m.node.children;
      ElementResolves(root, p, m, i);
    }
  }

  lemma ChildrenAreMemberValues(root: Node, p: Path, m: Located)
    requires WellFormedRoot(root)
    requires FindNodeAtLocation(Some(root), p) == Some(m)
    requires m.node.kind == Object ==> UniqueKeys(m.node.children)
    ensures |ResolvedOffsets(Some(root), m.node.children)| == |m.node.children|
    ensures forall i :: 0 <= i < |m.node.children| ==>
              ResolvedOffsets(Some(root), m.node.children)[i] == ValueOf(m.node.children[i]).offset
  {
    var cs := m.node.children;
    forall i | 0 <= i < |cs|
      ensures GetNode(Some(root), cs[i].offset).Some? && GetNode(Some(root), cs[i].offset).value.node == ValueOf(cs[i])
    {
      MemberResolves(root, p, m, i);
    }
    ResolvedWhenEachResolves(Some(root), cs);
  }

  /** The text of a path segment: the key, or the index in decimal. */
  function SegmentName(s: Segment): string {
    match s
    case Key(k) => k
    case Index(i) => IntToString(i)
  }

  /** Elements of a well-formed array are distinct, so `indexOf` finds each at its own position. */
  lemma IndexOfElement(n: Node, i: nat)
    requires WellFormed(n) && i < |n.children|
    ensures IndexOf(n.children, n.children[i]) == i
  {
    var cs := n.children;
    forall j | 0 <= j < i ensures cs[j] != cs[i] {
      assert cs[j] in cs;
      assert cs[j].offset + cs[j].length <= cs[i].offset;
    }
  }

  /**
    `_getLabel` of a node reached by `p + [s]` names the last segment: `{ } ` or `[ ] `
    before it for containers; for a scalar under an object the key, `: ` and the raw text
    of the value's range; for a scalar under an array the index, `:` and the decoded value,
    which throws for `null`.
  */
  lemma LabelNamesLastSegment(root: Node, p: Path, s: Segment, m: Located, editorText: Option<string>)
    requires WellFormedRoot(root)
    requires FindNodeAtLocation(Some(root), p + [s]) == Some(m)
    ensures m.node.kind == Object ==> GetLabel(m, editorText) == Some("{ } " + SegmentName(s))
    ensures m.node.kind == Array ==> GetLabel(m, editorText) == Some("[ ] " + SegmentName(s))
    ensures m.node.kind !in {Object, Array} && s.Key? ==>
              GetLabel(m, editorText) == Some(s.key + ": " + RawValue(m.node, editorText))
    ensures m.node.kind !in {Object, Array} && s.Index? ==>
              GetLabel(m, editorText) == match ValueToString(m.node.value)
                                         case None => None
                                         case Some(v) => Some(IntToString(s.index) + ":" + v)
  {
    WalkAppend(Located(root, None), p, s);
    var w := Walk(Located(root, None), p).value;
    WalkStaysInside(Located(root, None), p, w);
    match s
    case Key(k) =>
      var j := FindProperty(w.node.children, k, 0).value;
      assert w.node.children[j] in w.node.children;
      LabelUnderProperty(w.node.children[j], k, editorText);
    case Index(i) =>
      LabelUnderArray(w.node, i, editorText);
  }

  /** The label of a property's value names the property's key. */
  lemma LabelUnderProperty(prop: Node, k: string, editorText: Option<string>)
    requires prop.kind == Property && IsPropertyFor(prop, k)
    ensures var m := Located(prop.children[1], Some(prop));
            && (m.node.kind == Object ==> GetLabel(m, editorText) == Some("{ } " + k))
            && (m.node.kind == Array ==> GetLabel(m, editorText) == Some("[ ] " + k))
            && (m.node.kind !in {Object, Array} ==> GetLabel(m, editorText) == Some(k + ": " + RawValue(m.node, editorText)))
  {
    assert ValueToString(prop.children[0].value) == Some(k);
  }

  /** The label of an element names its index. */
  lemma LabelUnderArray(n: Node, i: nat, editorText: Option<string>)
    requires WellFormed(n) && n.kind == Array && i < |n.children|
    ensures var m := Located(n.children[i], Some(n));
            && (m.node.kind == Object ==> GetLabel(m, editorText) == Some("{ } " + IntToString(i)))
            && (m.node.kind == Array ==> GetLabel(m, editorText) == Some("[ ] " + IntToString(i)))
            && (m.node.kind !in {Object, Array} ==>
                  GetLabel(m, editorText) == match ValueToString(m.node.value)
                                             case None => None
                                             case Some(v) => Some(IntToString(i) + ":" + v))
  {
    IndexOfElement(n, i);
  }

  /**
    `getTreeItem` at the offset of a node reached by `p + [s]`: containers are labelled
    with the last segment and open expanded (objects) or collapsed (arrays); a scalar
    under an object shows its key and raw text and cannot be expanded; a scalar under an
    array has an item exactly when its value is not `null`.
  */
  lemma TreeItemOfReachedNode(root: Node, p: Path, s: Segment, m: Located, editorText: Option<string>)
    requires WellFormedRoot(root)
    requires FindNodeAtLocation(Some(root), p + [s]) == Some(m)
    ensures m.node.kind == Object ==>
              TreeItemAt(Some(root), editorText, m.node.offset) == Some(TreeItem("{ } " + SegmentName(s), Expanded, Object))
    ensures m.node.kind == Array ==>
              TreeItemAt(Some(root), editorText, m.node.offset) == Some(TreeItem("[ ] " + SegmentName(s), Collapsed, Array))
    ensures m.node.kind !in {Object, Array} && s.Key? ==>
              TreeItemAt(Some(root), editorText, m.node.offset)
              == Some(TreeItem(s.key + ": " + RawValue(m.node, editorText), NotCollapsible, m.node.kind))
    ensures m.node.kind !in {Object, Array} && s.Index? ==>
              (TreeItemAt(Some(root), editorText, m.node.offset).None? <==> m.node.value.NullValue? || m.node.value.Undefined?)
    ensures m.node.kind !in {Object, Array} && s.Index? && ValueToString(m.node.value).Some? ==>
              TreeItemAt(Some(root), editorText, m.node.offset)
              == Some(TreeItem(IntToString(s.index) + ":" + ValueToString(m.node.value).value, NotCollapsible, m.node.kind))
  {
    GetNodeFindsReachedNode(root, p + [s], m);
    ItemOfFoundNode(Some(root), editorText, m.node.offset, m);
    LabelNamesLastSegment(root, p, s, m, editorText);
  }

  /** The tree item at a position that resolves to `m`: `m`'s label, collapsible state and kind. */
  lemma ItemOfFoundNode(root: Option<Node>, editorText: Option<string>, o: nat, m: Located)
    requires GetNode(root, o) == Some(m)
    ensures TreeItemAt(root, editorText, o)
            == match GetLabel(m, editorText)
               case None => None
               case Some(text) => Some(TreeItem(text, GetCollapsibleState(m.node), m.node.kind))
  {
  }

  /** The root has no parent, so it has no tree item of its own (`node.parent!` would throw). */
  lemma RootHasNoItem(root: Node, editorText: Option<string>)
    requires WellFormedRoot(root)
    ensures TreeItemAt(Some(root), editorText, root.offset) == None
  {
  }

  /** Strictly inside a well-formed container and inside none of its member containers, the location path below it is one segment. */
  lemma PathAtInnermostIsOneSegment(n: Node, o: int)
    requires WellFormed(n)
    requires (n.kind == Object || n.kind == Array) && Within(n, o)
    requires forall c :: c in n.children ==>
               !((ValueOf(c).kind == Object || ValueOf(c).kind == Array) && Within(ValueOf(c), o))
    ensures |PathAt(n, o)| == 1
  {
    match LastStartingBy(n.children, o, |n.children|)
    case None =>
    case Some(i) =>
      var c := n.children[i];
      assert c in n.children;
      if n.kind == Object {
        assert c.kind == Property && WellFormed(c);
        assert ValueOf(c) == c.children[1];
      } else {
        assert ValueOf(c) == c;
      }
  }

  /**
    An edit at an offset strictly inside a container reached by `p`, and inside no
    container below it, notifies that container; inside the root container (`p` empty) it
    notifies the whole tree. This takes in an edit in a member's key or scalar value (the
    path then ends with that member's key or index), between members and in an empty
    container (the path then ends with the placeholder `""`, or the next index).
  */
  lemma EditNotifiesInnermostContainer(root: Node, p: Path, w: Located, o: nat)
    requires WellFormedRoot(root)
    requires FindNodeAtLocation(Some(root), p) == Some(w)
    requires (w.node.kind == Object || w.node.kind == Array) && Within(w.node, o)
    requires forall c :: c in w.node.children ==>
               !((ValueOf(c).kind == Object || ValueOf(c).kind == Array) && Within(ValueOf(c), o))
    ensures |GetLocation(Some(root), o)| == |p| + 1
    ensures EditTarget(Some(root), o) == if p == [] then None else Some(w.node.offset)
  {
    PathAtAlongWalk(Located(root, None), p, w, o);
    WalkStaysInside(Located(root, None), p, w);
    PathAtInnermostIsOneSegment(w.node, o);
    var x := PathAt(w.node, o);
    assert GetLocation(Some(root), o) == p + [x[0]];
    AppendAfter(p, x[0]);
  }

  /** Once every iteration sees the same tree, the `k`-th notification is the `k`-th change's target there. */
  lemma {:induction false} FiredInOneTree(later: nat -> Option<nat>, laterTracked: bool, starts: seq<nat>)
    ensures laterTracked ==> |Fired(later, laterTracked, starts, later, laterTracked)| == |starts|
    ensures forall k :: 0 <= k < |Fired(later, laterTracked, starts, later, laterTracked)| ==>
              Fired(later, laterTracked, starts, later, laterTracked)[k] == later(starts[k])
    decreases |starts|
  {
    if starts != [] && laterTracked {
      var rest := Fired(later, laterTracked, starts[1..], later, laterTracked);
      FiredInOneTree(later, laterTracked, starts[1..]);
      assert Fired(later, laterTracked, starts, later, laterTracked) == [later(starts[0])] + rest;
      forall k | 1 <= k < 1 + |rest|
        ensures ([later(starts[0])] + rest)[k] == later(starts[k])
      {
        assert starts[1..][k - 1] == starts[k];
      }
    }
  }

  /** After the first change, every notification is computed in the refreshed tree. */
  lemma EditLogInRefreshedTree(next: Option<Node>, nextTracked: bool, starts: seq<nat>)
    ensures nextTracked ==> |EditLog(next, nextTracked, starts, next, nextTracked)| == |starts|
    ensures !nextTracked ==> EditLog(next, nextTracked, starts, next, nextTracked) == []
    ensures forall k :: 0 <= k < |EditLog(next, nextTracked, starts, next, nextTracked)| ==>
              EditLog(next, nextTracked, starts, next, nextTracked)[k] == EditTarget(next, starts[k])
    ensures EditCompletes(nextTracked, starts, nextTracked) == (starts == [] || nextTracked)
  {
    FiredInOneTree(TargetIn(next), nextTracked, starts);
  }

  /**
    One notification per content change of the tracked document: the first computed in
    the tree before the edit, the others in the refreshed tree. When the refresh leaves no
    editor and there are more changes, the loop throws after the first notification.
  */
  lemma EditLogShape(root: Option<Node>, starts: seq<nat>, next: Option<Node>, nextTracked: bool)
    ensures |EditLog(root, true, starts, next, nextTracked)|
            == if EditCompletes(true, starts, nextTracked) then |starts| else 1
    ensures starts != [] ==> EditLog(root, true, starts, next, nextTracked)[0] == EditTarget(root, starts[0])
    ensures forall k :: 1 <= k < |EditLog(root, true, starts, next, nextTracked)| ==>
              EditLog(root, true, starts, next, nextTracked)[k] == EditTarget(next, starts[k])
  {
    if starts != [] {
      var later := Fired(TargetIn(next), nextTracked, starts[1..], TargetIn(next), nextTracked);
      FiredInOneTree(TargetIn(next), nextTracked, starts[1..]);
      assert EditLog(root, true, starts, next, nextTracked) == [EditTarget(root, starts[0])] + later;
      forall k | 1 <= k < 1 + |later|
        ensures ([EditTarget(root, starts[0])] + later)[k] == EditTarget(next, starts[k])
      {
        assert starts[1..][k - 1] == starts[k];
      }
    }
  }

  // ---- Examples on concrete documents ----

  /** `{"a": "foo"}` */
  function DocA(): Node {
    Node(Object, 0, 12, [
      Node(Property, 1, 10, [
        Node(String, 1, 3, [], Str("a")),
        Node(String, 6, 5, [], Str("foo"))], Undefined)], Undefined)
  }

  /** Editing inside `"foo"` of `{"a": "foo"}` notifies the whole tree, not the property `a`. */
  lemma TopLevelEditNotifiesWholeTree()
    ensures GetLocation(Some(DocA()), 8) == [Key("a")]
    ensures EditTarget(Some(DocA()), 8) == None
  {
  }

  /** `{"x": {"a": "foo"}}` */
  function DocXA(): Node {
    Node(Object, 0, 19, [
      Node(Property, 1, 17, [
        Node(String, 1, 3, [], Str("x")),
        Node(Object, 6, 12, [
          Node(Property, 7, 10, [
            Node(String, 7, 3, [], Str("a")),
            Node(String, 12, 5, [], Str("foo"))], Undefined)], Undefined)], Undefined)], Undefined)
  }

  /** Editing inside `"foo"` of `{"x": {"a": "foo"}}` notifies the object at offset 6, the value of `x`. */
  lemma NestedEditNotifiesEnclosingObject()
    ensures EditTarget(Some(DocXA()), 14) == Some(6)
  {
    var doc := DocXA();
    var inner := doc.children[0].children[1];
    assert LastStartingBy(inner.children, 14, 1) == Some(0);
    assert PathAt(inner.children[0].children[1], 14) == [];
    assert PathAt(inner, 14) == [Key("a")];
    assert LastStartingBy(doc.children, 14, 1) == Some(0);
    assert PathAt(doc, 14) == [Key("x")] + [Key("a")];
    assert Pop([Key("x"), Key("a")]) == [Key("x")];
    assert FindNodeAtLocation(Some(doc), [Key("x")]) == Some(Located(inner, Some(doc.children[0])));
  }

  /** `{"x": {}}` */
  function DocEmptyInner(): Node {
    Node(Object, 0, 9, [
      Node(Property, 1, 7, [
        Node(String, 1, 3, [], Str("x")),
        Node(Object, 6, 2, [], Undefined)], Undefined)], Undefined)
  }

  /** Typing inside the empty `{}` of `{"x": {}}` at offset 7: the path ends with the placeholder, so the inner object is notified. */
  lemma EditInEmptyObjectNotifiesIt()
    ensures GetLocation(Some(DocEmptyInner()), 7) == [Key("x"), Key("")]
    ensures EditTarget(Some(DocEmptyInner()), 7) == Some(6)
  {
  }

  /** The tree of `{"x": {}}` has the shape of the parse of a syntactically valid JSON text. */
  lemma EmptyInnerIsWellFormed()
    ensures WellFormedRoot(DocEmptyInner())
  {
    var prop := DocEmptyInner().children[0];
    assert WellFormed(prop.children[0]) && WellFormed(prop.children[1]);
    assert forall c :: c in prop.children ==> c == prop.children[0] || c == prop.children[1];
    assert WellFormed(prop);
  }

  /** `{"x": [1, 2]}` */
  function DocNumbers(): Node {
    Node(Object, 0, 13, [
      Node(Property, 1, 11, [
        Node(String, 1, 3, [], Str("x")),
        Node(Array, 6, 6, [
          Node(Number, 7, 1, [], Num(1)),
          Node(Number, 10, 1, [], Num(2))], Undefined)], Undefined)], Undefined)
  }

  /** An edit at offset 9 of `{"x": [1, 2]}`, after the comma: the path is `["x", 1]`, so the array is notified. */
  lemma EditAfterCommaNotifiesArray()
    ensures GetLocation(Some(DocNumbers()), 9) == [Key("x"), Index(1)]
    ensures EditTarget(Some(DocNumbers()), 9) == Some(6)
  {
  }

  /** `{"x": {"a": 1}}` */
  function DocXNumber(): Node {
    Node(Object, 0, 15, [
      Node(Property, 1, 13, [
        Node(String, 1, 3, [], Str("x")),
        Node(Object, 6, 8, [
          Node(Property, 7, 6, [
            Node(String, 7, 3, [], Str("a")),
            Node(Number, 12, 1, [], Num(1))], Undefined)], Undefined)], Undefined)], Undefined)
  }

  /** Typing just after the `1` of `{"x": {"a": 1}}` (offset 13) still locates `["x", "a"]`: the object at 6 is notified. */
  lemma EditAtValueEndNotifiesObject()
    ensures GetLocation(Some(DocXNumber()), 13) == [Key("x"), Key("a")]
    ensures EditTarget(Some(DocXNumber()), 13) == Some(6)
  {
  }

  /** `{"a": {"b": 1}}` */
  function DocAB(): Node {
    Node(Object, 0, 15, [
      Node(Property, 1, 13, [
        Node(String, 1, 3, [], Str("a")),
        Node(Object, 6, 8, [
          Node(Property, 7, 6, [
            Node(String, 7, 3, [], Str("b")),
            Node(Number, 12, 1, [], Num(1))], Undefined)], Undefined)], Undefined)], Undefined)
  }

  /** In `{"a": {"b": 1}}` the value of `b` is labelled `b: 1` and the value of `a` is labelled `{ } a`. */
  lemma NestedLabels()
    ensures TreeItemAt(Some(DocAB()), Some("{\"a\": {\"b\": 1}}"), 12)
            == Some(TreeItem("b: 1", NotCollapsible, Number))
    ensures TreeItemAt(Some(DocAB()), Some("{\"a\": {\"b\": 1}}"), 6)
            == Some(TreeItem("{ } a", Expanded, Object))
  {
    var doc := DocAB();
    var inner := doc.children[0].children[1];
    var b := inner.children[0];
    assert GetLocation(Some(doc), 12) == [Key("a"), Key("b")];
    assert GetNode(Some(doc), 12) == Some(Located(b.children[1], Some(b)));
    var text := "{\"a\": {\"b\": 1}}";
    assert |text| == 15 && text[12..13] == "1";
    assert RawValue(b.children[1], Some(text)) == "1";
    assert ValueToString(b.children[0].value) == Some("b");
    assert GetLabel(Located(b.children[1], Some(b)), Some(text)) == Some("b" + ": " + "1");
    assert "b" + ": " + "1" == "b: 1";
    assert GetLocation(Some(doc), 6) == [Key("a")];
    assert GetNode(Some(doc), 6) == Some(Located(inner, Some(doc.children[0])));
    assert ValueToString(doc.children[0].children[0].value) == Some("a");
    assert GetLabel(Located(inner, Some(doc.children[0])), Some(text)) == Some("{ } " + "a");
    assert "{ } " + "a" == "{ } a";
  }

  /** `[true, null]` */
  function DocArray(): Node {
    Node(Array, 0, 12, [
      Node(Boolean, 1, 4, [], Bool(true)),
      Node(Null, 7, 4, [], NullValue)], Undefined)
  }

  /** Array elements: `0:true` with no space after the colon, and no tree item for `null`. */
  lemma ArrayElementLabels()
    ensures TreeItemAt(Some(DocArray()), Some("[true, null]"), 1)
            == Some(TreeItem("0:true", NotCollapsible, Boolean))
    ensures TreeItemAt(Some(DocArray()), Some("[true, null]"), 7) == None
  {
    var doc := DocArray();
    assert GetLocation(Some(doc), 1) == [Index(0)];
    assert GetNode(Some(doc), 1) == Some(Located(doc.children[0], Some(doc)));
    assert IndexOf(doc.children, doc.children[0]) == 0;
    assert IntToString(0) == "0";
    assert ValueToString(Bool(true)) == Some("true");
    assert GetLabel(Located(doc.children[0], Some(doc)), Some("[true, null]")) == Some("0" + ":" + "true");
    assert "0" + ":" + "true" == "0:true";
    assert GetLocation(Some(doc), 7) == [Index(1)];
  }

  /** `{"a":1,"a":2}` */
  function DocDuplicate(): Node {
    Node(Object, 0, 13, [
      Node(Property, 1, 5, [
        Node(String, 1, 3, [], Str("a")),
        Node(Number, 5, 1, [], Num(1))], Undefined),
      Node(Property, 7, 5, [
        Node(String, 7, 3, [], Str("a")),
        Node(Number, 11, 1, [], Num(2))], Undefined)], Undefined)
  }

  /** With a repeated key both members resolve to the first value: the tree shows it twice. */
  lemma DuplicateKeyShowsFirstValueTwice()
    ensures ResolvedOffsets(Some(DocDuplicate()), DocDuplicate().children) == [5, 5]
  {
    assert GetLocation(Some(DocDuplicate()), 1) == [Key("a")];
    assert GetLocation(Some(DocDuplicate()), 7) == [Key("a")];
  }

  /** `{"a": {"x": 1}, "a": {"y": 2}}` */
  function DocRepeatedObjects(): Node {
    Node(Object, 0, 30, [
      Node(Property, 1, 13, [
        Node(String, 1, 3, [], Str("a")),
        Node(Object, 6, 8, [
          Node(Property, 7, 6, [
            Node(String, 7, 3, [], Str("x")),
            Node(Number, 12, 1, [], Num(1))], Undefined)], Undefined)], Undefined),
      Node(Property, 16, 13, [
        Node(String, 16, 3, [], Str("a")),
        Node(Object, 21, 8, [
          Node(Property, 22, 6, [
            Node(String, 22, 3, [], Str("y")),
            Node(Number, 27, 1, [], Num(2))], Undefined)], Undefined)], Undefined)], Undefined)
  }

  /**
    With a repeated key the popped path resolves to the first value with that key: an edit
    at the `2` (offset 27) notifies the first `a`'s object at 6, not the object at 21 around it.
  */
  lemma RepeatedKeyNotifiesFirstObject()
    ensures GetLocation(Some(DocRepeatedObjects()), 27) == [Key("a"), Key("y")]
    ensures EditTarget(Some(DocRepeatedObjects()), 27) == Some(6)
  {
    var doc := DocRepeatedObjects();
    var second := doc.children[1].children[1];
    assert LastStartingBy(second.children, 27, 1) == Some(0);
    assert PathAt(second.children[0].children[1], 27) == [];
    assert PathAt(second, 27) == [Key("y")];
    assert LastStartingBy(doc.children, 27, 2) == Some(1);
    assert PathAt(doc, 27) == [Key("a")] + [Key("y")];
    assert Pop([Key("a"), Key("y")]) == [Key("a")];
    assert FindProperty(doc.children, "a", 0) == Some(0);
    assert FindNodeAtLocation(Some(doc), [Key("a")]) == Some(Located(doc.children[0].children[1], Some(doc.children[0])));
  }

  /** `{"a": 1, "a": {"y": 2}}` */
  function DocRepeatedScalar(): Node {
    Node(Object, 0, 23, [
      Node(Property, 1, 6, [
        Node(String, 1, 3, [], Str("a")),
        Node(Number, 6, 1, [], Num(1))], Undefined),
      Node(Property, 9, 13, [
        Node(String, 9, 3, [], Str("a")),
        Node(Object, 14, 8, [
          Node(Property, 15, 6, [
            Node(String, 15, 3, [], Str("y")),
            Node(Number, 20, 1, [], Num(2))], Undefined)], Undefined)], Undefined)], Undefined)
  }

  /** When the first value with the repeated key is a scalar, the edit notifies that scalar: the number at 6. */
  lemma RepeatedKeyNotifiesScalar()
    ensures GetLocation(Some(DocRepeatedScalar()), 20) == [Key("a"), Key("y")]
    ensures EditTarget(Some(DocRepeatedScalar()), 20) == Some(6)
    ensures DocRepeatedScalar().children[0].children[1].kind == Number
  {
    var doc := DocRepeatedScalar();
    var second := doc.children[1].children[1];
    assert LastStartingBy(second.children, 20, 1) == Some(0);
    assert PathAt(second.children[0].children[1], 20) == [];
    assert PathAt(second, 20) == [Key("y")];
    assert LastStartingBy(doc.children, 20, 2) == Some(1);
    assert PathAt(doc, 20) == [Key("a")] + [Key("y")];
    assert Pop([Key("a"), Key("y")]) == [Key("a")];
    assert FindProperty(doc.children, "a", 0) == Some(0);
    assert FindNodeAtLocation(Some(doc), [Key("a")]) == Some(Located(doc.children[0].children[1], Some(doc.children[0])));
  }
}
