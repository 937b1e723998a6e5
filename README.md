# JSON tree provider of vscode-json-editor, in Dafny

This project models `CodeJsonTreeProvider`, the tree-data provider behind the extension's
JSON tree view. The view identifies every node by its character offset. Each query goes
offset → location path (keys and indices) → node, against the provider's current snapshot:
the document text and the tree parsed from it. The provider:

- renders a node as a label, a collapsible state and a node type;
- lists a node's children as the offsets they resolve to;
- replaces the snapshot when the active editor changes or the tracked document is edited;
- fires tree-change notifications. An edit notifies the node one level up the edit's
  location path. For the first content change of an event, that path is resolved in the
  tree from before the edit; for every later one, in the refreshed tree. In a well-formed
  document with unique keys, the first change notifies the innermost object or array
  around it. A focus change notifies the whole tree.

Files:

- `wrappers.dfy`: `Option`.
- `json_parser.dfy`: the part of jsonc-parser the provider uses:
  - the parse-tree node;
  - location paths;
  - `findNodeAtLocation`, written as the library does;
  - `getLocation`, a walk over the parsed tree;
  - `WellFormed`, the shape of the parse of a syntactically valid JSON text.
- `parser_facts.dfy`: on a well-formed tree, `getLocation` at the offset of any node a path
  reaches gives that path back. So offset, path and node identify one another.
- `tree_render.dfy`: how a node is rendered:
  - `_getCollapsibleState`;
  - `_getLabel`;
  - the JavaScript conversions the label uses (`toString`, `indexOf`, `getText` over a
    range), plus the `/^jsonc?$/` test.
- `tree_provider.dfy`: the provider as a class.
  - Fields: the tracked editor, `text`, `root`, and a ghost log of notifications.
  - `Valid()` holds when `text` and `root` are one snapshot of the tracked editor.
  - Methods: `getChildren`, `_getChildrenOffsets`, `refreshTree` and the two event
    handlers.
  - Functions: the pure queries, plus `EditLog`, which states what the edit handler fires.
- `provider_facts.dfy`: what the provider guarantees on well-formed documents, plus worked
  examples on concrete documents.

How the host and the library are represented:

- The active text editor (`vscode.window.activeTextEditor`) is a parameter of the operations
  that read it.
- `parser.parseTree` is a function value given to the constructor.
- Editor positions are taken to be offsets.
- A JavaScript exception gives `None`, and `completed == false` for the edit handler. The
  exceptions covered: `null.toString()`, a property read on `undefined`, and
  `this._textEditor.document` after a refresh cleared the editor.

Behaviour of the code worth knowing:

- Under an object, a string value's label shows the raw source slice, quotes and escapes
  included. Under an array it shows the decoded string: `["x"]` is labelled `0:x`.
- In a well-formed document with unique keys, an edit notifies the innermost container
  whose brackets enclose the edit offset (`EditNotifiesInnermostContainer`). When that container is the root, the edit notifies
  the whole tree. For example, editing inside `"foo"` of `{"a": "foo"}` notifies the whole
  tree, not the property `a` (`TopLevelEditNotifiesWholeTree`).
- In a well-formed document with unique keys, the node notified is always an object or an
  array, never a property node. Typing in an empty `{}`, after a comma, or just past a number all notify the
  container itself (`EditInEmptyObjectNotifiesIt`, `EditAfterCommaNotifiesArray`,
  `EditAtValueEndNotifiesObject`).
- A repeated key makes the edit notify the first value with that key, which need not
  enclose the edit and may be a scalar. In `{"a": {"x": 1}, "a": {"y": 2}}` an edit at the
  `2` notifies the first `a`'s object (`RepeatedKeyNotifiesFirstObject`). In
  `{"a": 1, "a": {"y": 2}}` it notifies the number `1` (`RepeatedKeyNotifiesScalar`).
- With several content changes in one event, only the first is located in the text from
  before the edit. `refreshTree` runs inside the loop, so every later change's start, still
  an offset in the old text, is located in the refreshed text and tree, which already hold
  all of the event's changes (`EditLogShape`).
- `refreshTree` parses the active document whatever its scheme or language. Eligibility only
  feeds the `setContext` flag.

## Model

| member | source | states |
|---|---|---|
| JsonParser.FindProperty | src/providers/code-json-tree-provider.ts:20 | A key selects the first member that has exactly two children and whose first child's value is the key. Members before it do not match. `None` means no member matches. |
| JsonParser.Step | src/providers/code-json-tree-provider.ts:20 | An index step succeeds exactly on an array with that many elements, and gives the element with the array as parent. A key step fails exactly when the node is not an object or no member is a property for the key. Otherwise it gives the value of the first member that is a property for that key, with that property as parent. |
| JsonParser.Walk | src/providers/code-json-tree-provider.ts:20 | The empty path stays where it is. Any node reached by a non-empty path has a parent. |
| JsonParser.FindNodeAtLocation | src/providers/code-json-tree-provider.ts:36 | No tree gives no node. A found node lacks a parent exactly when the path is empty, and the empty path finds the root. |
| JsonParser.LastStartingBy | src/providers/code-json-tree-provider.ts:19 | The result is the last member starting at or before the offset: every later member starts after it. `None` means every member starts after the offset. |
| JsonParser.PathAt | src/providers/code-json-tree-provider.ts:19 | The path is non-empty only strictly inside an object or an array, and it starts with an index exactly when that container is an array. |
| JsonParser.GetLocation | src/providers/code-json-tree-provider.ts:19 | The path is non-empty only for an offset strictly inside a root object or array. |
| ParserFacts.LastStartingByUnique | src/providers/code-json-tree-provider.ts:19 | Among ordered siblings, the member that covers an offset is the last one starting at or before it. |
| ParserFacts.WalkAppend | src/providers/code-json-tree-provider.ts:20 | Resolving `p + [s]` is resolving `p` and taking one more step. |
| ParserFacts.StepStaysInside | src/providers/code-json-tree-provider.ts:20 | One step from a well-formed node reaches a well-formed, non-property node inside it. |
| ParserFacts.WalkStaysInside | src/providers/code-json-tree-provider.ts:20 | Any resolved path ends at a well-formed, non-property node inside the root. |
| ParserFacts.PathAtStep | src/providers/code-json-tree-provider.ts:19-20 | For an offset that the node one step reaches covers, the location path starts with that step's segment. |
| ParserFacts.WalkHead | src/providers/code-json-tree-provider.ts:19-20 | The first step of a resolved path exists, and the location path goes through it. |
| ParserFacts.PathAtAlongWalk | src/providers/code-json-tree-provider.ts:19-20 | For an offset the node `p` reaches covers, the location path is `p` followed by the path inside that node. |
| ParserFacts.LocationOfReachedNode | src/providers/code-json-tree-provider.ts:109-114 | The location path at the offset of the node `p` reaches is `p`. Resolving it finds that node and its parent. |
| TreeRender.GetCollapsibleState | src/providers/code-json-tree-provider.ts:85-95 | The state is `Expanded` exactly for objects and `Collapsed` exactly for arrays. Every other kind (property, string, number, boolean, null) is not collapsible. |
| TreeRender.NatToString | src/providers/code-json-tree-provider.ts:118 | The decimal digits of a number, with no leading zero, denote exactly that number. |
| TreeRender.IntToString | src/providers/code-json-tree-provider.ts:118 | `toString` of an integer starts with `-` exactly when the integer is negative. Every character after any sign is a decimal digit, there is no leading zero, and the digits denote the magnitude. |
| TreeRender.IndexPrefixesDiffer | src/providers/code-json-tree-provider.ts:118 | Different indices get different label prefixes. |
| TreeRender.ValueToString | src/providers/code-json-tree-provider.ts:125 | `value.toString()` fails exactly for `null` and `undefined`. A string value is its own text. |
| TreeRender.IndexOf | src/providers/code-json-tree-provider.ts:118 | `indexOf` gives -1 exactly when the node is absent. Otherwise it gives the first position holding it. |
| TreeRender.Clamp | src/providers/code-json-tree-provider.ts:137-138 | `positionAt` keeps an offset inside the text, and leaves an offset within the text unchanged. |
| TreeRender.RawValue | src/providers/code-json-tree-provider.ts:135-140 | With a tracked editor and a range inside the text, the value is the exact source slice `[offset, offset+length)`. With no editor it is `undefined`. |
| TreeRender.GetLabel | src/providers/code-json-tree-provider.ts:116-142 | These cases fail: a node without a parent; under an array, only a `null` or `undefined` scalar; otherwise, a parent with no children, or a parent whose first child's value is `null` or `undefined`. The label texts are stated by `LabelNamesLastSegment`. |
| TreeRender.MatchesJsonLanguage | src/providers/code-json-tree-provider.ts:54 | `/^jsonc?$/` matches exactly `json` and `jsonc`. |
| TreeProvider.GetNode | src/providers/code-json-tree-provider.ts:109-114 | No tree gives no node. What it returns is stated by `GetNodeFindsReachedNode`. |
| TreeProvider.ResolvedOffsets | src/providers/code-json-tree-provider.ts:97-107 | The accumulated offsets are never more than the children. |
| TreeProvider.TreeItemAt | src/providers/code-json-tree-provider.ts:18-27 | An item exists only with a tree. An item is `Expanded` exactly when its type is object, and `Collapsed` exactly when it is array. Its contents are stated by `TreeItemOfReachedNode` and `RootHasNoItem`. |
| TreeProvider.JsonTreeProvider.GetTreeItem | src/providers/code-json-tree-provider.ts:18-27 | `getTreeItem` is `TreeItemAt` on the current snapshot and the tracked editor's text. Its contract is the one `TreeItemAt` and `TreeItemOfReachedNode` state. |
| TreeProvider.Pop | src/providers/code-json-tree-provider.ts:75 | `pop` leaves the empty path empty. Otherwise it removes exactly the last segment. |
| TreeProvider.EditTarget | src/providers/code-json-tree-provider.ts:71-78 | An edit whose location path has at most one segment notifies the whole tree. A node is notified only with a tree. Which node is stated by `EditNotifiesInnermostContainer`. |
| TreeProvider.Fired | src/providers/code-json-tree-provider.ts:70-81 | The loop fires at most one notification per change and none when no editor is tracked at its first iteration. The first is the first change's target in the tree current then. |
| TreeProvider.EditLogStep | src/providers/code-json-tree-provider.ts:70-81 | One iteration: the change under way fires its target in the current tree, and the rest of the loop runs in the refreshed tree. When the loop completes is decided the same way. |
| TreeProvider.EditLog | src/providers/code-json-tree-provider.ts:70-81 | At most one notification per change and none without a tracked editor. The first is the edit target of the first change, in the tree before the edit. |
| TreeProvider.EditCompletes | src/providers/code-json-tree-provider.ts:70-81 | The loop runs to the end exactly when there are no changes, or the editor is tracked and either there is one change or the refresh keeps an editor. |
| TreeProvider.IsTreeActive | src/providers/code-json-tree-provider.ts:52-54 | The eligibility flag is true exactly when there is an active editor whose document has scheme `file` and language `json` or `jsonc`. |
| TreeProvider.Snapshot | src/providers/code-json-tree-provider.ts:43-48 | The text and tree `refreshTree` installs for an editor. Its contract is stated by `RefreshTree`. |
| TreeProvider.JsonTreeProvider.constructor | src/providers/code-json-tree-provider.ts:12-16 | The provider starts with no editor, empty text, no tree and no notifications. That is a valid snapshot. |
| TreeProvider.JsonTreeProvider.GetChildrenOffsets | src/providers/code-json-tree-provider.ts:97-107 | No node gives `[]`. Otherwise the loop pushes, in order, the resolved offset of each child that resolves: the `ResolvedOffsets` of its children. |
| TreeProvider.JsonTreeProvider.GetChildren | src/providers/code-json-tree-provider.ts:29-38 | No position, or position 0, gives the root's children offsets, or `[]` without a tree. Any other position gives the children offsets of the node it resolves to, or `[]`. |
| TreeProvider.JsonTreeProvider.RefreshTree | src/providers/code-json-tree-provider.ts:40-49 | Text, tree and editor are replaced together by the active editor's text and its parse, or by `""` and no tree. The result depends on the active editor alone, so a second call gives the same snapshot. No notification fires. |
| TreeProvider.JsonTreeProvider.OnDidChangeActiveTextEditor | src/providers/code-json-tree-provider.ts:51-63 | It returns the eligibility flag, refreshes, and appends exactly one whole-tree notification. |
| TreeProvider.JsonTreeProvider.OnDidChangeTextDocument | src/providers/code-json-tree-provider.ts:65-83 | A change to another document changes nothing and fires nothing. For the tracked document it fires exactly `EditLog`: one notification per change, in order, each resolved in the tree current before that change's refresh. It then holds the active editor's snapshot. `completed` says whether the loop ran to the end. |
| ProviderFacts.GetNodeFindsReachedNode | src/providers/code-json-tree-provider.ts:109-114 | `_getNode` at the offset of any node reached by a path returns that node with its parent. |
| ProviderFacts.PositionZeroIsRoot | src/providers/code-json-tree-provider.ts:30-34 | Offset 0 of a well-formed document resolves to the root, so the `!position` shortcut gives the same children as the general route. |
| ProviderFacts.AppendAfter | src/providers/code-json-tree-provider.ts:75 | `pop` on the path `p + [s]` leaves `p`. |
| ProviderFacts.ElementResolves | src/providers/code-json-tree-provider.ts:100 | An array element's offset resolves to the element, with the array as parent. |
| ProviderFacts.PropertyResolves | src/providers/code-json-tree-provider.ts:100 | With unique keys, a property's offset (its key's) resolves to the property's value, with the property as parent. |
| ProviderFacts.KeptWhenEachFound | src/providers/code-json-tree-provider.ts:98-106 | When every lookup found its member's value, the `reduce` keeps one offset per member, in order, each the offset of that value. |
| ProviderFacts.ResolvedWhenEachResolves | src/providers/code-json-tree-provider.ts:97-107 | When every child resolves to its member value, the reduce keeps one offset per child, in order, each the member value's offset. |
| ProviderFacts.MemberResolves | src/providers/code-json-tree-provider.ts:100-103 | Every member of a reached node (unique keys when it is an object) resolves to its member value. |
| ProviderFacts.ChildrenAreMemberValues | src/providers/code-json-tree-provider.ts:97-107 | On any reached node of a well-formed document with unique keys, `_getChildrenOffsets` gives exactly one offset per member, in source order. Each is the element itself, or the property's value. |
| ProviderFacts.IndexOfElement | src/providers/code-json-tree-provider.ts:118 | `indexOf` of the i-th element of a well-formed array is `i`. |
| ProviderFacts.LabelNamesLastSegment | src/providers/code-json-tree-provider.ts:116-142 | The label of a node reached by `p + [s]`: `"{ } "` or `"[ ] "` followed by the last key or index for containers; `key + ": " + raw slice` for a scalar under an object; `index + ":" + value` for a scalar under an array, failing for `null`. |
| ProviderFacts.LabelUnderProperty | src/providers/code-json-tree-provider.ts:128-141 | The label of a property's value is `"{ } "` or `"[ ] "` followed by the key for a container, and `key + ": " + raw slice` for a scalar. |
| ProviderFacts.LabelUnderArray | src/providers/code-json-tree-provider.ts:117-126 | The label of the i-th element of a well-formed array is `"{ } "` or `"[ ] "` followed by `i` for a container, and `i + ":" + value` for a scalar, failing for `null`. |
| ProviderFacts.ItemOfFoundNode | src/providers/code-json-tree-provider.ts:18-27 | At a position that resolves to a node, `getTreeItem` gives that node's label, collapsible state and kind, and fails exactly when the label does. |
| ProviderFacts.TreeItemOfReachedNode | src/providers/code-json-tree-provider.ts:18-27 | `getTreeItem` at a reached node's offset gives that label, the node's collapsible state and its type. For a container this is `{ } name` expanded or `[ ] name` collapsible. For a scalar under an object it is `key: raw slice`, not collapsible. For a scalar under an array it is `i:value`, not collapsible, and there is no item exactly when the value is `null`. |
| ProviderFacts.RootHasNoItem | src/providers/code-json-tree-provider.ts:117 | The root has no parent, so `getTreeItem` at its offset fails. |
| ProviderFacts.PathAtInnermostIsOneSegment | src/providers/code-json-tree-provider.ts:19 | Strictly inside a container and inside none of its member containers, the location path below the container is exactly one segment. |
| ProviderFacts.EditNotifiesInnermostContainer | src/providers/code-json-tree-provider.ts:71-80 | Take an edit strictly inside a container reached by `p` and inside no container member value. Its location path is one segment longer than `p`: a member's key or index, `""`, or the next index. The edit notifies that container, or the whole tree when `p` is empty. |
| ProviderFacts.FiredInOneTree | src/providers/code-json-tree-provider.ts:70-81 | When every iteration sees the same tree and editor, the loop fires one notification per change, the k-th being the k-th change's target in that tree. |
| ProviderFacts.EditLogInRefreshedTree | src/providers/code-json-tree-provider.ts:70-81 | After the first refresh, each change is resolved in the refreshed tree. With no editor left the loop stops. |
| ProviderFacts.EditLogShape | src/providers/code-json-tree-provider.ts:70-81 | An edit batch fires one notification per change when the loop completes, and only one when it throws. The first is computed in the pre-edit tree, the others in the refreshed tree. |
| ProviderFacts.TopLevelEditNotifiesWholeTree | src/providers/code-json-tree-provider.ts:71-80 | Editing inside `"foo"` of `{"a": "foo"}` notifies the whole tree. |
| ProviderFacts.NestedEditNotifiesEnclosingObject | src/providers/code-json-tree-provider.ts:71-80 | Editing inside `"foo"` of `{"x": {"a": "foo"}}` notifies the object at offset 6. |
| ProviderFacts.EditInEmptyObjectNotifiesIt | src/providers/code-json-tree-provider.ts:71-80 | Typing at offset 7 of `{"x": {}}` gives the path `["x", ""]` and notifies the inner object at 6. |
| ProviderFacts.EmptyInnerIsWellFormed | src/providers/code-json-tree-provider.ts:47 | The tree of `{"x": {}}` has the shape the proofs assume: that of the parse of a syntactically valid JSON text. |
| ProviderFacts.EditAfterCommaNotifiesArray | src/providers/code-json-tree-provider.ts:71-80 | An edit after the comma of `{"x": [1, 2]}` (offset 9) gives the path `["x", 1]` and notifies the array at 6. |
| ProviderFacts.EditAtValueEndNotifiesObject | src/providers/code-json-tree-provider.ts:71-80 | Typing just past the `1` of `{"x": {"a": 1}}` (offset 13) gives the path `["x", "a"]` and notifies the object at 6. |
| ProviderFacts.RepeatedKeyNotifiesFirstObject | src/providers/code-json-tree-provider.ts:71-80 | In `{"a": {"x": 1}, "a": {"y": 2}}` an edit at the `2` (offset 27) has the path `["a", "y"]`, and it notifies the first `a`'s object at 6, not the object at 21 around the edit. |
| ProviderFacts.RepeatedKeyNotifiesScalar | src/providers/code-json-tree-provider.ts:71-80 | In `{"a": 1, "a": {"y": 2}}` an edit at the `2` (offset 20) notifies offset 6, the number `1` of the first `a`. |
| ProviderFacts.NestedLabels | src/providers/code-json-tree-provider.ts:128-141 | In `{"a": {"b": 1}}` the items are `b: 1` (not collapsible, number) and `{ } a` (expanded, object). |
| ProviderFacts.ArrayElementLabels | src/providers/code-json-tree-provider.ts:117-126 | In `[true, null]` the first element is `0:true`, with no space after the colon. The `null` element has no item. |
| ProviderFacts.DuplicateKeyShowsFirstValueTwice | src/providers/code-json-tree-provider.ts:97-107 | In `{"a":1,"a":2}` both members resolve to the first value, so the children offsets are `[5, 5]`. |

The node kinds are the `Kind` datatype, after `src/models/code-node-type.enum.ts:1-9`.

## Left out

- jsonc-parser's `parseTree`: a foreign library. It is a function value the provider is built with. The proofs assume its trees are `WellFormed`, the shape of the parse of a syntactically valid JSON text. Trees of malformed text are outside the proofs. For `{"a": }` the parser gives a property holding only its key, whose range reaches the object's `}`, and `WellFormed` excludes it. `PropertyResolves`, `MemberResolves` and `ChildrenAreMemberValues` also assume the object's keys are unique (`UniqueKeys`).
- JsonParser.PathAt: jsonc-parser's `getLocation` scans the text, tolerating errors. Here it is a walk over the parsed tree that reproduces the scan's segments, including:
  - the `""` placeholder in an object;
  - array indices counted by commas;
  - an end position that still counts as inside a key or a scalar.
- JsonParser.PathAt assumes the comma after a member follows it directly. At an offset in whitespace before a comma, the library keeps the member's own segment, where the model already has the next one. Trailing commas and comments are not modelled.
- Numbers are integers only. Floating-point values and their `toString` are left out.
- TreeRender.IntToString: writes every digit of any integer. JavaScript's `toString` switches to exponent form from magnitude 10^21 (`1e+21`), so the two agree only below 10^21.
- `positionAt`/`offsetAt` are taken as the identity on offsets, clamped to the text.
- The `setContext` command is modelled as the flag the handler returns. The `EventEmitter` is a ghost log of fired offsets. `vscode.TreeItem` objects and the `Promise` wrapper of `getChildren` are plain values.
- The live editor buffer is the tracked document's text as of the last refresh. Edits not yet delivered are not modelled.
- The command and event registrations in `src/extension.ts` are not part of this model. That includes the selection, highlight, jump and copy handlers it names.
- The webview provider, `src/web-root/main.js` and `tools/copy-scripts.js` are UI and file I/O, and are not part of this model.
- ProviderFacts.ChildrenAreMemberValues: stated only for objects with unique keys. With a repeated key, `findNodeAtLocation` picks the first match, which is shown in `DuplicateKeyShowsFirstValueTwice`.
- TreeProvider.ResolvedOffsets: its own contract is only the length bound. The contents are stated by `ResolvedWhenEachResolves` and `ChildrenAreMemberValues`.
