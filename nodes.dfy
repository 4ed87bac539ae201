/**
 * The parsed Confluence storage format as a closed tree. Each kind of node
 * the converter distinguishes is one constructor; `Macro` is a node of an
 * unlisted type whose type name contains "Macro", and `Other` any other
 * unlisted node. An attribute the source reads with a default is a string
 * here, with `""` standing for absent (the source treats both alike).
 */
module Nodes {
  import opened Strings

  datatype HeadingType = H1 | H2 | H3 | H4 | H5 | H6

  datatype EffectType =
    | Strong | Emphasis | Monospace | Strikethrough | Underline
    | Subscript | Superscript | Blockquote | OtherEffect

  datatype ListType = Ordered | Unordered

  datatype Node =
    | Text(text: string)
    | Heading(htype: HeadingType, children: seq<Node>)
    | TextBreak(children: seq<Node>)
    | TextEffect(effect: EffectType, children: seq<Node>)
    | ListElem(ltype: ListType, children: seq<Node>)
    | ListItem(children: seq<Node>)
    | Table(children: seq<Node>)
    | TableRow(children: seq<Node>)
    | TableCell(children: seq<Node>)
    | Link(url: string, href: string, pageId: string, pageTitle: string, children: seq<Node>)
    | Image(alt: string, imageUrl: string, src: string, filename: string)
    | CodeMacro(language: string, children: seq<Node>)
    | PanelMacro(panelType: string, children: seq<Node>)
    | ExpandMacro(title: string, children: seq<Node>)
    | Fragment(children: seq<Node>)
    | Macro(name: string, children: seq<Node>)
    | Other(children: seq<Node>)

  /** Whether the node has a `children` list. */
  predicate HasChildren(n: Node) {
    !n.Text? && !n.Image?
  }

  /** A parsed document: a root with children, or a root without them that only has text. */
  datatype Document = Tree(nodes: seq<Node>) | Flat(text: string)

  /** The numeric level of a heading, 1 to 6. */
  function Level(t: HeadingType): (l: int)
    ensures 1 <= l <= 6
  {
    match t
    case H1 => 1
    case H2 => 2
    case H3 => 3
    case H4 => 4
    case H5 => 5
    case H6 => 6
  }

  /** `_get_node_text`: the concatenated text of all `Text` leaves, left to right. */
  function NodeText(n: Node): string
    decreases n, 1, 0
  {
    if n.Text? then n.text
    else if HasChildren(n) then ChildrenText(n, |n.children|)
    else ""
  }

  /** The text of the first `k` children of `p`. */
  function ChildrenText(p: Node, k: nat): string
    requires HasChildren(p) && k <= |p.children|
    decreases p, 0, k
  {
    if k == 0 then "" else ChildrenText(p, k - 1) + NodeText(p.children[k - 1])
  }

  /** The flattened text as the list of `Text` leaves, read independently of `NodeText`. */
  function Leaves(n: Node): seq<string>
    decreases n, 1, 0
  {
    if n.Text? then [n.text]
    else if HasChildren(n) then ChildrenLeaves(n, |n.children|)
    else []
  }

  function ChildrenLeaves(p: Node, k: nat): seq<string>
    requires HasChildren(p) && k <= |p.children|
    decreases p, 0, k
  {
    if k == 0 then [] else ChildrenLeaves(p, k - 1) + Leaves(p.children[k - 1])
  }

  /** Concatenation of a list of strings. */
  function Concat(ss: seq<string>): string {
    if ss == [] then "" else Concat(ss[..|ss| - 1]) + ss[|ss| - 1]
  }

  lemma {:induction false} ConcatAppend(a: seq<string>, b: seq<string>)
    ensures Concat(a + b) == Concat(a) + Concat(b)
    decreases |b|
  {
    if b == [] {
      assert a + b == a;
    } else {
      assert (a + b)[..|a + b| - 1] == a + b[..|b| - 1];
      ConcatAppend(a, b[..|b| - 1]);
    }
  }

  /** A node's text is its `Text` leaves, in order, glued together. */
  lemma {:induction false} NodeTextIsLeaves(n: Node)
    ensures NodeText(n) == Concat(Leaves(n))
    decreases n, 1, 0
  {
    if n.Text? {
      assert Concat([n.text]) == Concat([]) + n.text;
    } else if HasChildren(n) {
      ChildrenTextIsLeaves(n, |n.children|);
    }
  }

  lemma {:induction false} ChildrenTextIsLeaves(p: Node, k: nat)
    requires HasChildren(p) && k <= |p.children|
    ensures ChildrenText(p, k) == Concat(ChildrenLeaves(p, k))
    decreases p, 0, k
  {
    if k > 0 {
      ChildrenTextIsLeaves(p, k - 1);
      NodeTextIsLeaves(p.children[k - 1]);
      ConcatAppend(ChildrenLeaves(p, k - 1), Leaves(p.children[k - 1]));
    }
  }
}
