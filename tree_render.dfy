/**
  How the tree provider renders one node: its collapsible state and its label, and the
  JavaScript conversions the label relies on (`toString`, `indexOf`, `getText` on a range).
  A conversion that throws a TypeError in the source (`null.toString()`, a property read on
  `undefined`) gives `None`.
*/
module TreeRender {

  import opened Wrappers
  import opened JsonParser

  /** `vscode.TreeItemCollapsibleState`: `None`, `Collapsed`, `Expanded`. */
  datatype CollapsibleState = NotCollapsible | Collapsed | Expanded

  /** `_getCollapsibleState`: objects open expanded, arrays collapsed, anything else cannot be expanded. */
  function GetCollapsibleState(n: Node): (s: CollapsibleState)
    ensures s == Expanded <==> n.kind == Object
    ensures s == Collapsed <==> n.kind == Array
    ensures s == NotCollapsible <==> n.kind !in {Object, Array}
  {
    match n.kind
    case Object => Expanded
    case Array => Collapsed
    case _ => NotCollapsible
  }

  function DigitChar(d: nat): char
    requires d < 10
  {
    "0123456789"[d]
  }

  /** The value of a decimal digit character; other characters count as 0. */
  function DigitValue(c: char): (d: nat)
    ensures d < 10
  {
    if '0' <= c <= '9' then (c as int) - ('0' as int) else 0
  }

  /** The number a string of decimal digits denotes, most significant digit first. */
  function DecimalValue(s: string): nat
    decreases |s|
  {
    if s == [] then 0 else 10 * DecimalValue(s[..|s| - 1]) + DigitValue(s[|s| - 1])
  }

  /** Decimal digits of `n`, most significant first, without leading zeros: they denote `n`. */
  function NatToString(n: nat): (s: string)
    ensures |s| > 0 && forall k :: 0 <= k < |s| ==> '0' <= s[k] <= '9'
    ensures DecimalValue(s) == n
    ensures |s| > 1 ==> s[0] != '0'
    decreases n
  {
    if n < 10 then [DigitChar(n)]
    else
      var front := NatToString(n / 10);
      var s := front + [DigitChar(n % 10)];
      assert s[..|s| - 1] == front;
      s
  }

  /** `Number.prototype.toString` on an integer: an optional `-`, then the digits of the magnitude. */
  function IntToString(i: int): (s: string)
    ensures |s| > 0 && (s[0] == '-' <==> i < 0)
    ensures i >= 0 ==> DecimalValue(s) == i
    ensures i < 0 ==> DecimalValue(s[1..]) == -i
    ensures forall k :: (if i < 0 then 1 else 0) <= k < |s| ==> '0' <= s[k] <= '9'
    ensures |s| > (if i < 0 then 2 else 1) ==> s[if i < 0 then 1 else 0] != '0'
  {
    if i < 0 then
      var digits := NatToString(-i);
      assert ("-" + digits)[1..] == digits;
      "-" + digits
    else NatToString(i)
  }

  /** Different indices get different prefixes. */
  lemma IndexPrefixesDiffer(i: int, j: int)
    requires i != j
    ensures IntToString(i) != IntToString(j)
  {
  }

  /** `value.toString()` for a node's decoded value: `null` and `undefined` throw. */
  function ValueToString(v: Value): (r: Option<string>)
    ensures r.None? <==> v.NullValue? || v.Undefined?
    ensures v.Str? ==> r == Some(v.s)
  {
    match v
    case Str(s) => Some(s)
    case Num(n) => Some(IntToString(n))
    case Bool(b) => Some(if b then "true" else "false")
    case NullValue => None
    case Undefined => None
  }

  /** `Array.prototype.indexOf`, searching from position `i`: the first equal element, or -1. */
  function IndexFrom(cs: seq<Node>, n: Node, i: nat): (r: int)
    requires i <= |cs|
    ensures r == -1 <==> n !in cs[i..]
    ensures r != -1 ==> i <= r < |cs| && cs[r] == n && forall j :: i <= j < r ==> cs[j] != n
    decreases |cs| - i
  {
    if i == |cs| then -1
    else if cs[i] == n then i
    else
      assert cs[i..] == [cs[i]] + cs[i + 1..];
      IndexFrom(cs, n, i + 1)
  }

  /** `children.indexOf(node)`. */
  function IndexOf(cs: seq<Node>, n: Node): (r: int)
    ensures r == -1 <==> n !in cs
    ensures r != -1 ==> 0 <= r < |cs| && cs[r] == n && forall j :: 0 <= j < r ==> cs[j] != n
  {
    assert cs[0..] == cs;
    IndexFrom(cs, n, 0)
  }

  /** `positionAt` clamps an offset to the document. */
  function Clamp(o: nat, size: nat): (r: nat)
    ensures r <= size && (o <= size ==> r == o)
  {
    if o <= size then o else size
  }

  /**
    The template value `${value}` of the editor's text over the node's range: the raw
    source slice, quotes included, or `undefined` when no editor is tracked.
  */
  function RawValue(n: Node, editorText: Option<string>): (r: string)
    ensures editorText.Some? && n.offset + n.length <= |editorText.value| ==>
              r == editorText.value[n.offset..n.offset + n.length]
    ensures editorText.None? ==> r == "undefined"
  {
    match editorText
    case None => "undefined"
    case Some(t) => t[Clamp(n.offset, |t|)..Clamp(n.offset + n.length, |t|)]
  }

  /**
    `_getLabel`. Under an array the prefix is the node's position among its parent's
    children; otherwise the prefix is the value of the parent's first child (the key of
    the property the node is the value of). A node without a parent, a parent without
    children, or a value whose `toString` throws gives `None`.
  */
  function GetLabel(l: Located, editorText: Option<string>): (r: Option<string>)
    ensures l.parent.None? ==> r.None?
    ensures l.parent.Some? && l.parent.value.kind == Array ==>
              (r.None? <==> l.node.kind != Object && l.node.kind != Array && (l.node.value.NullValue? || l.node.value.Undefined?))
    ensures l.parent.Some? && l.parent.value.kind != Array ==>
              (r.None? <==> |l.parent.value.children| == 0
                            || l.parent.value.children[0].value.NullValue? || l.parent.value.children[0].value.Undefined?)
  {
    match l.parent
    case None => None
    case Some(parent) =>
      if parent.kind == Array then
        var prefix := IntToString(IndexOf(parent.children, l.node));
        if l.node.kind == Object then Some("{ } " + prefix)
        else if l.node.kind == Array then Some("[ ] " + prefix)
        else (
          match ValueToString(l.node.value)
          case None => None
          case Some(v) => Some(prefix + ":" + v))
      else if |parent.children| == 0 then None
      else
        match ValueToString(parent.children[0].value)
        case None => None
        case Some(property) =>
          if l.node.kind == Object then Some("{ } " + property)
          else if l.node.kind == Array then Some("[ ] " + property)
          else Some(property + ": " + RawValue(l.node, editorText))
  }

  /** The regular expression `/^jsonc?$/`, matched character by character. */
  function MatchesJsonLanguage(id: string): (r: bool)
    ensures r <==> id == "json" || id == "jsonc"
  {
    && |id| >= 4
    && id[0] == 'j' && id[1] == 's' && id[2] == 'o' && id[3] == 'n'
    && (|id| == 4 || (|id| == 5 && id[4] == 'c'))
  }
}
