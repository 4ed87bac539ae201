/**
 * What `_convert_node` and the per-node converters produce, as functions of
 * the node and the environment. The warnings and unknown macro names a
 * conversion appends to the context are part of the result.
 */
module Rendering {
  import opened Strings
  import opened Config
  import opened Nodes
  import opened Links

  /** The parts collected so far from a node's children, with what they recorded. */
  datatype Acc = Acc(parts: seq<string>, warnings: seq<string>, macros: seq<string>)

  /** A heading line: at most `maxLevel` `#` characters, a space, and the text. */
  function HeadingMd(level: int, maxLevel: int, text: string): string {
    Repeat('#', if level < maxLevel then level else maxLevel) + " " + text
  }

  /** `"> " + line` for every line. */
  function QuoteLines(lines: seq<string>): (r: seq<string>)
    ensures |r| == |lines|
    ensures forall i :: 0 <= i < |r| ==> r[i] == "> " + lines[i]
  {
    seq(|lines|, i requires 0 <= i < |lines| => "> " + lines[i])
  }

  /** Every line of `text` behind `"> "`. */
  function Blockquote(text: string): string {
    Join(QuoteLines(Split(text, '\n')), "\n")
  }

  function EffectMd(effect: EffectType, text: string): string {
    match effect
    case Strong => "**" + text + "**"
    case Emphasis => "*" + text + "*"
    case Monospace => "`" + text + "`"
    case Strikethrough => "~~" + text + "~~"
    case Underline => "<u>" + text + "</u>"
    case Subscript => "<sub>" + text + "</sub>"
    case Superscript => "<sup>" + text + "</sup>"
    case Blockquote => Blockquote(text)
    case OtherEffect => text
  }

  /** `![alt](src)`, the source being the first non-empty of URL, src and file name. */
  function ImageMd(n: Node): string
    requires n.Image?
  {
    var src := if n.imageUrl != "" then n.imageUrl else if n.src != "" then n.src else n.filename;
    "![" + n.alt + "](" + src + ")"
  }

  function CodeMd(language: string, code: string): string {
    "```" + language + "\n" + code + "\n```"
  }

  /** The callout header: the four known panel types by name, any other type title-cased. */
  function PanelHeader(panelType: string): string {
    var key := Lower(panelType);
    if key == "info" then "Info"
    else if key == "warning" then "Warning"
    else if key == "note" then "Note"
    else if key == "tip" then "Tip"
    else Title(panelType)
  }

  /** A panel as a quoted callout; an empty panel type counts as `info`. */
  function PanelMd(panelType: string, content: string): string {
    var t := if panelType != "" then panelType else "info";
    "> **" + PanelHeader(t) + ":** " + LStripChars(Blockquote(content), {'>', ' '})
  }

  /** An expand macro as an HTML `<details>` block; an empty title counts as `Details`. */
  function ExpandMd(title: string, content: string): string {
    var t := if title != "" then title else "Details";
    "<details>\n<summary>" + t + "</summary>\n\n" + content + "\n\n</details>"
  }

  function UnknownMacroMd(mode: MacroMode, name: string, text: string): string {
    match mode
    case CommentMacro => "<!-- Unknown macro: " + name + " -->\n" + text
    case StripMacro => ""
    case PreserveMacroText => text
  }

  /** One list line; items are numbered by their position among all children, from 1. */
  function ItemLine(t: ListType, number: nat, text: string): string {
    if t == Ordered then NatToString(number) + ". " + text else "- " + text
  }

  /** The lines for the first `k` children of a list: one per `ListItem`, nothing for others. */
  function ListLines(p: Node, k: nat): seq<string>
    requires p.ListElem? && k <= |p.children|
  {
    if k == 0 then []
    else
      var c := p.children[k - 1];
      ListLines(p, k - 1) + (if c.ListItem? then [ItemLine(p.ltype, k, NodeText(c))] else [])
  }

  function ListMd(p: Node): string
    requires p.ListElem?
  {
    Join(ListLines(p, |p.children|), "\n")
  }

  /** How many of the first `k` children are list items. */
  function CountItems(p: Node, k: nat): nat
    requires p.ListElem? && k <= |p.children|
  {
    if k == 0 then 0 else CountItems(p, k - 1) + (if p.children[k - 1].ListItem? then 1 else 0)
  }

  /**
   * A list has one line per item, and the item at child position `k` is
   * numbered `k + 1` (or bulleted) and shows its text.
   */
  lemma {:induction false} ListNumbering(p: Node, m: nat)
    requires p.ListElem? && m <= |p.children|
    ensures |ListLines(p, m)| == CountItems(p, m)
    ensures forall k :: 0 <= k < m && p.children[k].ListItem? ==>
      CountItems(p, k) < |ListLines(p, m)| &&
      ListLines(p, m)[CountItems(p, k)] == ItemLine(p.ltype, k + 1, NodeText(p.children[k]))
  {
    if m > 0 {
      ListNumbering(p, m - 1);
      forall k | 0 <= k < m && p.children[k].ListItem?
        ensures CountItems(p, k) < |ListLines(p, m)|
        ensures ListLines(p, m)[CountItems(p, k)] == ItemLine(p.ltype, k + 1, NodeText(p.children[k]))
      {
        if k < m - 1 {
          CountItemsMonotone(p, k + 1, m - 1);
        }
      }
    }
  }

  lemma {:induction false} CountItemsMonotone(p: Node, i: nat, j: nat)
    requires p.ListElem? && i <= j <= |p.children|
    ensures CountItems(p, i) <= CountItems(p, j)
    decreases j - i
  {
    if i < j {
      CountItemsMonotone(p, i, j - 1);
    }
  }

  /** The texts of the `TableCell` children among the first `k` children of a row. */
  function CellTexts(row: Node, k: nat): seq<string>
    requires HasChildren(row) && k <= |row.children|
  {
    if k == 0 then []
    else
      var c := row.children[k - 1];
      CellTexts(row, k - 1) + (if c.TableCell? then [NodeText(c)] else [])
  }

  function Cells(row: Node): seq<string>
    requires HasChildren(row)
  {
    CellTexts(row, |row.children|)
  }

  function RowLine(cells: seq<string>): string {
    "| " + Join(cells, " | ") + " |"
  }

  /** The header separator: one `---` per cell. */
  function SeparatorLine(n: nat): string {
    RowLine(Repeat("---", n))
  }

  /**
   * The lines for the first `k` children of a table: one per `TableRow`,
   * and after the row that is child 0 the header separator.
   */
  function TableLines(p: Node, k: nat): seq<string>
    requires p.Table? && k <= |p.children|
  {
    if k == 0 then []
    else
      var c := p.children[k - 1];
      TableLines(p, k - 1)
        + (if c.TableRow? then [RowLine(Cells(c))] + (if k == 1 then [SeparatorLine(|Cells(c)|)] else []) else [])
  }

  function TableMd(p: Node): string
    requires p.Table?
  {
    Join(TableLines(p, |p.children|), "\n")
  }

  function CountRows(p: Node, k: nat): nat
    requires p.Table? && k <= |p.children|
  {
    if k == 0 then 0 else CountRows(p, k - 1) + (if p.children[k - 1].TableRow? then 1 else 0)
  }

  /** Whether the table opens with a row, which is then its header. */
  predicate HasHeader(p: Node)
    requires p.Table?
  {
    |p.children| > 0 && p.children[0].TableRow?
  }

  /**
   * A table has one line per row plus one separator. The separator
   * directly follows the header row and has one `---` per header cell.
   * Every later row has its line at its position among the rows, shifted
   * by the separator. So no separator follows any other row.
   */
  lemma {:induction false} TableShape(p: Node, m: nat)
    requires p.Table? && 1 <= m <= |p.children|
    ensures var lines := TableLines(p, m);
      var hdr := if HasHeader(p) then 1 else 0;
      && |lines| == CountRows(p, m) + hdr
      && (HasHeader(p) ==>
            (|lines| >= 2 && lines[0] == RowLine(Cells(p.children[0]))
             && lines[1] == SeparatorLine(|Cells(p.children[0])|)))
      && (forall k :: 1 <= k < m && p.children[k].TableRow? ==>
            CountRows(p, k) + hdr < |lines| && lines[CountRows(p, k) + hdr] == RowLine(Cells(p.children[k])))
  {
    var hdr := if HasHeader(p) then 1 else 0;
    if m == 1 {
    } else {
      TableShape(p, m - 1);
      CountRowsMonotone(p, 1, m - 1);
      var lines := TableLines(p, m);
      var prev := TableLines(p, m - 1);
      assert lines[..|prev|] == prev;
      forall k | 1 <= k < m && p.children[k].TableRow?
        ensures CountRows(p, k) + hdr < |lines| && lines[CountRows(p, k) + hdr] == RowLine(Cells(p.children[k]))
      {
        if k < m - 1 {
          CountRowsMonotone(p, k + 1, m - 1);
          assert lines[CountRows(p, k) + hdr] == prev[CountRows(p, k) + hdr];
        }
      }
    }
  }

  lemma {:induction false} CountRowsMonotone(p: Node, i: nat, j: nat)
    requires p.Table? && i <= j <= |p.children|
    ensures CountRows(p, i) <= CountRows(p, j)
    decreases j - i
  {
    if i < j {
      CountRowsMonotone(p, i, j - 1);
    }
  }

  /**
   * `_convert_node`: the Markdown for one node, with the warnings it raises
   * and the unknown macros it meets.
   */
  function Render(n: Node, env: Env): Out
    decreases n, 1, 0
  {
    match n
    case Heading(t, _) => Out(HeadingMd(Level(t), env.settings.maxHeadingLevel, NodeText(n)), [], [])
    case TextBreak(_) => TextBreakOut(n, |n.children|, env)
    case Text(s) => Out(s, [], [])
    case TextEffect(e, _) => Out(EffectMd(e, NodeText(n)), [], [])
    case ListElem(_, _) => Out(ListMd(n), [], [])
    case Table(_) => Out(TableMd(n), [], [])
    case Link(_, _, _, _, _) => LinkOut(n, env)
    case Image(_, _, _, _) => Out(ImageMd(n), [], [])
    case CodeMacro(language, _) => Out(CodeMd(language, NodeText(n)), [], [])
    case PanelMacro(panelType, _) => Out(PanelMd(panelType, NodeText(n)), [], [])
    case ExpandMacro(title, _) => Out(ExpandMd(title, NodeText(n)), [], [])
    case Fragment(_) =>
      var acc := FragmentAcc(n, |n.children|, env);
      Out(Join(acc.parts, "\n\n"), acc.warnings, acc.macros)
    case Macro(name, _) => Out(UnknownMacroMd(env.settings.unknownMacros, name, NodeText(n)), [], [name])
    case _ => Out(NodeText(n), [], [])
  }

  /** The non-empty renderings of the first `k` children of a fragment. */
  function FragmentAcc(p: Node, k: nat, env: Env): Acc
    requires p.Fragment? && k <= |p.children|
    decreases p, 0, k
  {
    if k == 0 then Acc([], [], [])
    else
      var a := FragmentAcc(p, k - 1, env);
      var o := Render(p.children[k - 1], env);
      Acc(a.parts + (if o.md != "" then [o.md] else []), a.warnings + o.warnings, a.macros + o.macros)
  }

  /**
   * One child of a paragraph: text as is, text effects, links and images
   * converted, anything else flattened to its text.
   */
  function InlineOut(c: Node, env: Env): Out {
    match c
    case Text(s) => Out(s, [], [])
    case TextEffect(e, _) => Out(EffectMd(e, NodeText(c)), [], [])
    case Link(_, _, _, _, _) => LinkOut(c, env)
    case Image(_, _, _, _) => Out(ImageMd(c), [], [])
    case _ => Out(NodeText(c), [], [])
  }

  /** `_convert_text_element` over the first `k` children: their pieces glued together. */
  function TextBreakOut(p: Node, k: nat, env: Env): Out
    requires p.TextBreak? && k <= |p.children|
  {
    if k == 0 then Out("", [], [])
    else
      var a := TextBreakOut(p, k - 1, env);
      var o := InlineOut(p.children[k - 1], env);
      Out(a.md + o.md, a.warnings + o.warnings, a.macros + o.macros)
  }

  /** Every warning is written with the prefix `Link target not found: `. */
  predicate AllMissingLinkWarnings(ws: seq<string>) {
    forall i :: 0 <= i < |ws| ==> |MissingPrefix| <= |ws[i]| && ws[i][..|MissingPrefix|] == MissingPrefix
  }

  lemma AllMissingAppend(a: seq<string>, b: seq<string>)
    requires AllMissingLinkWarnings(a) && AllMissingLinkWarnings(b)
    ensures AllMissingLinkWarnings(a + b)
  {
    forall i | 0 <= i < |a + b|
      ensures |MissingPrefix| <= |(a + b)[i]| && (a + b)[i][..|MissingPrefix|] == MissingPrefix
    {
      if i >= |a| {
        assert (a + b)[i] == b[i - |a|];
      }
    }
  }

  lemma LinkWarnings(n: Node, env: Env)
    requires n.Link?
    ensures AllMissingLinkWarnings(LinkOut(n, env).warnings)
    ensures |LinkOut(n, env).warnings| <= 1
  {
    var title := if n.pageTitle != "" then n.pageTitle else NodeText(n);
    assert (MissingPrefix + title)[..|MissingPrefix|] == MissingPrefix;
  }

  /**
   * The only warnings rendering produces are missing link targets, and the
   * only place they come from is a link.
   */
  lemma {:induction false} WarningsAreMissingLinks(n: Node, env: Env)
    ensures AllMissingLinkWarnings(Render(n, env).warnings)
    decreases n, 1, 0
  {
    match n
    case Link(_, _, _, _, _) => LinkWarnings(n, env);
    case TextBreak(_) => TextBreakWarnings(n, |n.children|, env);
    case Fragment(_) => FragmentWarnings(n, |n.children|, env);
    case _ =>
  }

  lemma {:induction false} FragmentWarnings(p: Node, k: nat, env: Env)
    requires p.Fragment? && k <= |p.children|
    ensures AllMissingLinkWarnings(FragmentAcc(p, k, env).warnings)
    decreases p, 0, k
  {
    if k > 0 {
      FragmentWarnings(p, k - 1, env);
      WarningsAreMissingLinks(p.children[k - 1], env);
      AllMissingAppend(FragmentAcc(p, k - 1, env).warnings, Render(p.children[k - 1], env).warnings);
    }
  }

  lemma {:induction false} TextBreakWarnings(p: Node, k: nat, env: Env)
    requires p.TextBreak? && k <= |p.children|
    ensures AllMissingLinkWarnings(TextBreakOut(p, k, env).warnings)
    ensures TextBreakOut(p, k, env).macros == []
  {
    if k > 0 {
      TextBreakWarnings(p, k - 1, env);
      var c := p.children[k - 1];
      if c.Link? {
        LinkWarnings(c, env);
      }
      AllMissingAppend(TextBreakOut(p, k - 1, env).warnings, InlineOut(c, env).warnings);
    }
  }

  /** A heading renders as `min(level, max)` `#` characters, one space, and its text. */
  lemma HeadingShape(n: Node, env: Env)
    requires n.Heading?
    ensures var lv := if Level(n.htype) < env.settings.maxHeadingLevel then Level(n.htype)
                      else env.settings.maxHeadingLevel;
      var k := if lv < 0 then 0 else lv;
      var md := Render(n, env).md;
      && |md| == k + 1 + |NodeText(n)|
      && (forall i :: 0 <= i < k ==> md[i] == '#')
      && md[k] == ' '
      && md[k + 1..] == NodeText(n)
  {
  }

  /**
   * Under every handling mode an unknown macro records its name once and
   * raises no warning; only the comment and text modes keep its text.
   */
  lemma UnknownMacroRecorded(name: string, children: seq<Node>, env: Env)
    ensures var o := Render(Macro(name, children), env);
      && o.macros == [name]
      && o.warnings == []
      && (env.settings.unknownMacros == StripMacro ==> o.md == "")
      && (env.settings.unknownMacros == PreserveMacroText ==> o.md == NodeText(Macro(name, children)))
      && (env.settings.unknownMacros == CommentMacro ==>
            o.md == "<!-- Unknown macro: " + name + " -->\n" + NodeText(Macro(name, children)))
  {
  }

  /** Removing the `"> "` from each quoted line and joining them gives back the text. */
  lemma BlockquoteLines(text: string)
    ensures var quoted := QuoteLines(Split(text, '\n'));
      Join(seq(|quoted|, i requires 0 <= i < |quoted| => quoted[i][2..]), "\n") == text
  {
    var lines := Split(text, '\n');
    var quoted := QuoteLines(lines);
    var back := seq(|quoted|, i requires 0 <= i < |quoted| => quoted[i][2..]);
    assert back == lines by {
      forall i | 0 <= i < |lines| ensures back[i] == lines[i] {
        assert quoted[i] == "> " + lines[i];
      }
    }
    JoinSplit(text, '\n');
  }

  // Rendering as the source has it, where a resolved relative link raises

  /**
   * The outcome of a conversion step that can raise: the finished value, or
   * what had been recorded when `_calculate_relative_path` raised (the
   * warnings and macros already in the shared lists; any Markdown in it is
   * never used).
   */
  datatype Attempt<T> = Done(value: T) | Raised(partial: T)

  /** A link the as-written `_convert_internal_link` raises on. */
  predicate Resolves(n: Node, env: Env) {
    n.Link? && (n.pageId != "" || n.pageTitle != "")
    && InternalLinkAsWritten(n.pageId, n.pageTitle, NodeText(n), env).Err?
  }

  /** A node whose rendering reaches a link that raises: the link itself, or one inside a paragraph or a fragment. */
  predicate Raises(n: Node, env: Env)
    decreases n
  {
    match n
    case Link(_, _, _, _, _) => Resolves(n, env)
    case TextBreak(cs) => exists i :: 0 <= i < |cs| && Resolves(cs[i], env)
    case Fragment(cs) => exists i :: 0 <= i < |cs| && Raises(cs[i], env)
    case _ => false
  }

  /** `_convert_link` as the source has it. */
  function LinkAttempt(n: Node, env: Env): Attempt<Out>
    requires n.Link?
  {
    if Resolves(n, env) then Raised(Out("", [], [])) else Done(LinkOut(n, env))
  }

  /** `_convert_node` as the source has it. */
  function RenderAttempt(n: Node, env: Env): Attempt<Out>
    decreases n, 1, 0
  {
    match n
    case TextBreak(_) => TextBreakAttempt(n, |n.children|, env)
    case Link(_, _, _, _, _) => LinkAttempt(n, env)
    case Fragment(_) =>
      (match FragmentAttempt(n, |n.children|, env)
       case Done(acc) => Done(Out(Join(acc.parts, "\n\n"), acc.warnings, acc.macros))
       case Raised(acc) => Raised(Out("", acc.warnings, acc.macros)))
    case _ => Done(Render(n, env))
  }

  /** The first `k` children of a fragment as the source renders them; the lists kept when one raises. */
  function FragmentAttempt(p: Node, k: nat, env: Env): Attempt<Acc>
    requires p.Fragment? && k <= |p.children|
    decreases p, 0, k
  {
    if k == 0 then Done(Acc([], [], []))
    else
      match FragmentAttempt(p, k - 1, env)
      case Raised(a) => Raised(a)
      case Done(a) =>
        match RenderAttempt(p.children[k - 1], env)
        case Raised(o) => Raised(Acc(a.parts, a.warnings + o.warnings, a.macros + o.macros))
        case Done(o) => Done(Acc(a.parts + (if o.md != "" then [o.md] else []), a.warnings + o.warnings, a.macros + o.macros))
  }

  /** One paragraph child as the source renders it. */
  function InlineAttempt(c: Node, env: Env): Attempt<Out> {
    if c.Link? then LinkAttempt(c, env) else Done(InlineOut(c, env))
  }

  /** The first `k` children of a paragraph as the source renders them. */
  function TextBreakAttempt(p: Node, k: nat, env: Env): Attempt<Out>
    requires p.TextBreak? && k <= |p.children|
  {
    if k == 0 then Done(Out("", [], []))
    else
      match TextBreakAttempt(p, k - 1, env)
      case Raised(a) => Raised(a)
      case Done(a) =>
        match InlineAttempt(p.children[k - 1], env)
        case Raised(o) => Raised(Out("", a.warnings + o.warnings, a.macros + o.macros))
        case Done(o) => Done(Out(a.md + o.md, a.warnings + o.warnings, a.macros + o.macros))
  }

  /**
   * The source's rendering raises exactly on a node that reaches a resolved
   * relative link, and otherwise gives what the corrected rendering gives.
   */
  lemma {:induction false} RenderAttemptAgrees(n: Node, env: Env)
    ensures RenderAttempt(n, env).Raised? <==> Raises(n, env)
    ensures RenderAttempt(n, env).Done? ==> RenderAttempt(n, env).value == Render(n, env)
    decreases n, 1, 0
  {
    match n
    case TextBreak(_) => TextBreakAttemptAgrees(n, |n.children|, env);
    case Fragment(_) => FragmentAttemptAgrees(n, |n.children|, env);
    case _ =>
  }

  lemma {:induction false} FragmentAttemptAgrees(p: Node, k: nat, env: Env)
    requires p.Fragment? && k <= |p.children|
    ensures FragmentAttempt(p, k, env).Raised? <==> exists i :: 0 <= i < k && Raises(p.children[i], env)
    ensures FragmentAttempt(p, k, env).Done? ==> FragmentAttempt(p, k, env).value == FragmentAcc(p, k, env)
    decreases p, 0, k
  {
    if k > 0 {
      FragmentAttemptAgrees(p, k - 1, env);
      var c := p.children[k - 1];
      RenderAttemptAgrees(c, env);
      assert (exists i :: 0 <= i < k && Raises(p.children[i], env))
         <==> (exists i :: 0 <= i < k - 1 && Raises(p.children[i], env)) || Raises(c, env);
      if FragmentAttempt(p, k - 1, env).Done? && RenderAttempt(c, env).Done? {
        var a, o := FragmentAcc(p, k - 1, env), Render(c, env);
        assert FragmentAttempt(p, k, env)
            == Done(Acc(a.parts + (if o.md != "" then [o.md] else []), a.warnings + o.warnings, a.macros + o.macros));
      }
    }
  }

  lemma {:induction false} TextBreakAttemptAgrees(p: Node, k: nat, env: Env)
    requires p.TextBreak? && k <= |p.children|
    ensures TextBreakAttempt(p, k, env).Raised? <==> exists i :: 0 <= i < k && Resolves(p.children[i], env)
    ensures TextBreakAttempt(p, k, env).Done? ==> TextBreakAttempt(p, k, env).value == TextBreakOut(p, k, env)
  {
    if k > 0 {
      TextBreakAttemptAgrees(p, k - 1, env);
      var c := p.children[k - 1];
      assert (exists i :: 0 <= i < k && Resolves(p.children[i], env))
         <==> (exists i :: 0 <= i < k - 1 && Resolves(p.children[i], env)) || Resolves(c, env);
    }
  }
}
