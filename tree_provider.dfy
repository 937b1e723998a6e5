/**
  `CodeJsonTreeProvider`: the tree-data provider of the JSON tree view. A node of the view
  is identified by its character offset; every query goes offset -> location path -> node
  against the current (text, root) snapshot. The host editor is passed in explicitly: the
  active text editor (`vscode.window.activeTextEditor`) is a parameter of the operations that
  read it, and positions are taken to be offsets already.
*/
module TreeProvider {

  import opened Wrappers
  import opened JsonParser
  import opened TreeRender

  /** The parts of a `vscode.TextDocument` the provider reads. */
  datatype Document = Document(uri: string, scheme: string, languageId: string, text: string)

  datatype TextEditor = TextEditor(document: Document)

  /** A `vscode.TreeItem`: label, collapsible state and `contextValue` (the node type). */
  datatype TreeItem = TreeItem(labelText: string, collapsibleState: CollapsibleState, contextValue: Kind)

  /** A `TextDocumentChangeEvent`: the changed document and the start offset of each content change. */
  datatype ChangeEvent = ChangeEvent(uri: string, changeStarts: seq<nat>)

  /** `_getNode`: the node at the location path of `position`, resolved in the same tree. */
  function GetNode(root: Option<Node>, position: nat): (r: Option<Located>)
    ensures r.Some? ==> root.Some?
  {
    FindNodeAtLocation(root, GetLocation(root, position))
  }

  /** What `_getNode` gives at each child's offset, in the children's order. */
  function Resolutions(root: Option<Node>, children: seq<Node>): seq<Option<Located>> {
    seq(|children|, i requires 0 <= i < |children| => GetNode(root, children[i].offset))
  }

  /** The offsets of the nodes found, in order, skipping the misses. */
  function KeptOffsets(rs: seq<Option<Located>>): (r: seq<nat>)
    ensures |r| <= |rs|
    decreases |rs|
  {
    if rs == [] then []
    else
      var rest := KeptOffsets(rs[..|rs| - 1]);
      match rs[|rs| - 1]
      case None => rest
      case Some(l) => rest + [l.node.offset]
  }

  /**
    The accumulator `_getChildrenOffsets` builds with `reduce`: for each child in order, the
    offset of the node its own offset resolves to, skipping children that resolve to nothing.
  */
  function ResolvedOffsets(root: Option<Node>, children: seq<Node>): (r: seq<nat>)
    ensures |r| <= |children|
  {
    KeptOffsets(Resolutions(root, children))
  }

  /**
    `getTreeItem(position)`: the label, collapsible state and node type of the node at
    `position`. The source asserts the node exists (`!`); when it does not, or when the
    label throws, there is no item.
  */
  function TreeItemAt(root: Option<Node>, editorText: Option<string>, position: nat): (r: Option<TreeItem>)
    ensures r.Some? ==> root.Some?
    ensures r.Some? ==> (r.value.collapsibleState == Expanded <==> r.value.contextValue == Object)
    ensures r.Some? ==> (r.value.collapsibleState == Collapsed <==> r.value.contextValue == Array)
  {
    match GetNode(root, position)
    case None => None
    case Some(l) =>
      match GetLabel(l, editorText)
      case None => None
      case Some(text) => Some(TreeItem(text, GetCollapsibleState(l.node), l.node.kind))
  }

  /** `path.pop()`: the path without its last segment; the empty path stays empty. */
  function Pop(path: Path): (r: Path)
    ensures path == [] ==> r == []
    ensures path != [] ==> r + [path[|path| - 1]] == path
  {
    if path == [] then [] else path[..|path| - 1]
  }

  /**
    The offset one content change notifies: the node at the parent of the location path
    of the change's start, resolved in the same (pre-refresh) tree; none when that parent
    path is empty or does not resolve, meaning the whole tree.
  */
  function EditTarget(root: Option<Node>, start: nat): (r: Option<nat>)
    ensures |GetLocation(root, start)| <= 1 ==> r.None?
    ensures r.Some? ==> root.Some?
  {
    var path := Pop(GetLocation(root, start));
    if |path| > 0 then
      match FindNodeAtLocation(root, path)
      case None => None
      case Some(l) => Some(l.node.offset)
    else None
  }

  /** `EditTarget` in a fixed tree, as a function of the change's start. */
  function TargetIn(root: Option<Node>): nat -> Option<nat> {
    start => EditTarget(root, start)
  }

  /**
    The notifications of the loop of `onDidChangeTextDocument` over the change starts
    `starts`: `first` gives the target of a change in the tree current at the first
    iteration, `later` in the tree every later iteration sees. When no editor is tracked at
    the top of an iteration, `this._textEditor.document` throws and the loop stops.
  */
  function Fired(first: nat -> Option<nat>, tracked: bool, starts: seq<nat>,
                 later: nat -> Option<nat>, laterTracked: bool): (r: seq<Option<nat>>)
    ensures |r| <= |starts|
    ensures !tracked ==> r == []
    ensures tracked && starts != [] ==> |r| > 0 && r[0] == first(starts[0])
    decreases |starts|
  {
    if starts == [] || !tracked then []
    else [first(starts[0])] + Fired(later, laterTracked, starts[1..], later, laterTracked)
  }

  /**
    The notifications `onDidChangeTextDocument` fires for the change starts `starts`, given
    the tree `root` current before the first change and whether an editor is tracked.
    Every refresh in the loop reads the same active editor, so from the second change on
    the paths are computed in `next`, the tree of that editor's text.
  */
  function EditLog(root: Option<Node>, tracked: bool, starts: seq<nat>, next: Option<Node>, nextTracked: bool): (r: seq<Option<nat>>)
    ensures |r| <= |starts|
    ensures !tracked ==> r == []
    ensures tracked && starts != [] ==> |r| > 0 && r[0] == EditTarget(root, starts[0])
  {
    Fired(TargetIn(root), tracked, starts, TargetIn(next), nextTracked)
  }

  /** Whether the loop of `onDidChangeTextDocument` runs to the end without throwing. */
  function EditCompletes(tracked: bool, starts: seq<nat>, nextTracked: bool): (r: bool)
    ensures r <==> starts == [] || (tracked && (|starts| == 1 || nextTracked))
    decreases |starts|
  {
    starts == [] || (tracked && EditCompletes(nextTracked, starts[1..], nextTracked))
  }

  /** The flag `onDidChangeActiveTextEditor` sends to `setContext`. */
  function IsTreeActive(active: Option<TextEditor>): (r: bool)
    ensures r <==> active.Some? && active.value.document.scheme == "file"
                   && (active.value.document.languageId == "json" || active.value.document.languageId == "jsonc")
  {
    active.Some? && active.value.document.scheme == "file" && MatchesJsonLanguage(active.value.document.languageId)
  }

  /** What `refreshTree` installs for an editor: its text and that text's parse, or nothing. */
  function Snapshot(parse: string -> Option<Node>, editor: Option<TextEditor>): (string, Option<Node>) {
    match editor
    case None => ("", None)
    case Some(e) => (e.document.text, parse(e.document.text))
  }

  class JsonTreeProvider {
    /** `parser.parseTree`. */
    const parse: string -> Option<Node>
    var textEditor: Option<TextEditor>
    var text: string
    var root: Option<Node>
    /** What `_notifyTreeChanges` has fired, in order; `None` is a whole-tree change. */
    ghost var notifications: seq<Option<nat>>

    /** Text and root always form one snapshot of the tracked editor. */
    ghost predicate Valid()
      reads this
    {
      (text, root) == Snapshot(parse, textEditor)
    }

    constructor (parse: string -> Option<Node>)
      ensures Valid() && this.parse == parse
      ensures textEditor == None && text == "" && root == None && notifications == []
    {
      this.parse := parse;
      textEditor := None;
      text := "";
      root := None;
      notifications := [];
    }

    /** The tracked editor's document text, as `getText` sees it. */
    function EditorText(): Option<string>
      reads this
    {
      match textEditor
      case None => None
      case Some(e) => Some(e.document.text)
    }

    /** The tracked editor shows the document `uri`. */
    predicate Tracks(uri: string)
      reads this
    {
      textEditor.Some? && textEditor.value.document.uri == uri
    }

    function GetTreeItem(position: nat): Option<TreeItem>
      reads this
    {
      TreeItemAt(root, EditorText(), position)
    }

    /** `_getChildrenOffsets`: the `reduce` over the node's children, pushing each resolved offset. */
    method GetChildrenOffsets(node: Option<Node>) returns (offsets: seq<nat>)
      ensures node.None? ==> offsets == []
      ensures node.Some? ==> offsets == ResolvedOffsets(root, node.value.children)
    {
      offsets := [];
      if node.Some? {
        var children := node.value.children;
        for i := 0 to |children|
          invariant offsets == ResolvedOffsets(root, children[..i])
        {
          var child := GetNode(root, children[i].offset);
          assert Resolutions(root, children[..i + 1])[..i] == Resolutions(root, children[..i]);
          assert Resolutions(root, children[..i + 1])[i] == child;
          if child.Some? {
            offsets := offsets + [child.value.node.offset];
          }
        }
        assert children[..|children|] == children;
      }
    }

    /**
      `getChildren(position)`: with no position, or position 0 (`!position`), the root's
      children; otherwise the children of the node `position` resolves to, or none.
    */
    method GetChildren(position: Option<nat>) returns (offsets: seq<nat>)
      ensures position.None? || position == Some(0) ==>
                offsets == if root.None? then [] else ResolvedOffsets(root, root.value.children)
      ensures position.Some? && position.value != 0 ==>
                offsets == match GetNode(root, position.value)
                           case None => []
                           case Some(l) => ResolvedOffsets(root, l.node.children)
    {
      if position.None? || position.value == 0 {
        if root.Some? {
          offsets := GetChildrenOffsets(root);
        } else {
          offsets := [];
        }
        return;
      }
      var node := GetNode(root, position.value);
      offsets := GetChildrenOffsets(if node.Some? then Some(node.value.node) else None);
    }

    /**
      `refreshTree`: clears text and root, tracks the active editor, and installs its text
      and the text's parse. The new snapshot depends on the active editor alone, so a second
      call with the same editor leaves the same snapshot.
    */
    method RefreshTree(active: Option<TextEditor>)
      modifies this
      ensures Valid() && textEditor == active
      ensures text == (if active.Some? then active.value.document.text else "")
      ensures root == (if active.Some? then parse(active.value.document.text) else None)
      ensures notifications == old(notifications)
    {
      text := "";
      root := None;
      textEditor := active;
      if active.Some? {
        text := active.value.document.text;
        root := parse(text);
      }
    }

    /** `onDidChangeActiveTextEditor`: the eligibility flag, a refresh, one whole-tree notification. */
    method OnDidChangeActiveTextEditor(active: Option<TextEditor>) returns (treeActive: bool)
      modifies this
      ensures treeActive == IsTreeActive(active)
      ensures Valid() && textEditor == active && (text, root) == Snapshot(parse, active)
      ensures notifications == old(notifications) + [None]
    {
      treeActive := IsTreeActive(active);
      RefreshTree(active);
      notifications := notifications + [None];
    }

    /**
      `onDidChangeTextDocument`: for a change to the tracked document, each content change
      in order is resolved in the tree current before its refresh, then the tree is
      refreshed, then one notification fires. A change to another document does nothing.
      `completed` is false when the loop throws (no editor left after a refresh).
    */
    method OnDidChangeTextDocument(event: ChangeEvent, active: Option<TextEditor>) returns (completed: bool)
      requires Valid()
      modifies this
      ensures Valid()
      ensures !old(Tracks(event.uri)) ==>
                completed && textEditor == old(textEditor) && text == old(text) && root == old(root)
                && notifications == old(notifications)
      ensures old(Tracks(event.uri)) ==>
                && notifications == old(notifications)
                     + EditLog(old(root), true, event.changeStarts, Snapshot(parse, active).1, active.Some?)
                && completed == EditCompletes(true, event.changeStarts, active.Some?)
      ensures old(Tracks(event.uri)) && event.changeStarts != [] ==>
                textEditor == active && (text, root) == Snapshot(parse, active)
      ensures event.changeStarts == [] ==>
                textEditor == old(textEditor) && text == old(text) && root == old(root)
    {
      completed := true;
      if !Tracks(event.uri) {
        return;
      }
      var starts := event.changeStarts;
      ghost var next := Snapshot(parse, active).1;
      var i := 0;
      while i < |starts|
        invariant 0 <= i <= |starts|
        invariant Valid()
        invariant i == 0 ==> textEditor == old(textEditor) && text == old(text) && root == old(root)
                              && notifications == old(notifications)
        invariant i > 0 ==> textEditor == active && (text, root) == Snapshot(parse, active)
        invariant notifications + EditLog(root, textEditor.Some?, starts[i..], next, active.Some?)
                  == old(notifications) + EditLog(old(root), true, starts, next, active.Some?)
        invariant EditCompletes(textEditor.Some?, starts[i..], active.Some?)
                  == EditCompletes(true, starts, active.Some?)
      {
        if textEditor.None? {
          completed := false;
          return;
        }
        var target := EditTarget(root, starts[i]);
        ghost var before := notifications;
        EditLogStep(root, starts, i, next, active.Some?);
        RefreshTree(active);
        notifications := notifications + [target];
        LogStep(before, target, EditLog(next, active.Some?, starts[i + 1..], next, active.Some?));
        i := i + 1;
      }
    }
  }

  /** One iteration of the edit loop: the change at `j` fires its target, and the rest run in the refreshed tree. */
  lemma EditLogStep(root: Option<Node>, starts: seq<nat>, j: nat, next: Option<Node>, nextTracked: bool)
    requires j < |starts|
    ensures EditLog(root, true, starts[j..], next, nextTracked)
            == [EditTarget(root, starts[j])] + EditLog(next, nextTracked, starts[j + 1..], next, nextTracked)
    ensures EditCompletes(true, starts[j..], nextTracked) == EditCompletes(nextTracked, starts[j + 1..], nextTracked)
  {
    assert starts[j..][1..] == starts[j + 1..];
  }

  /** Moving one entry from the pending log to the fired log. */
  lemma LogStep(fired: seq<Option<nat>>, x: Option<nat>, rest: seq<Option<nat>>)
    ensures (fired + [x]) + rest == fired + ([x] + rest)
  {
  }
}
