/**
 * The converter as the source runs it: a `MarkdownConverter` whose methods
 * loop over a node's children, and a `ConversionContext` whose lists the
 * conversion appends warnings, skipped sections and unknown macros to. Each
 * method is proved to compute what the functions of `Rendering`, `Sections`,
 * `Links` and `Conversion` describe, and to append to the context exactly
 * what they record.
 */
module Converter {
  import opened Base
  import opened Strings
  import opened Slug
  import opened ExportModel
  import opened Config
  import opened Nodes
  import opened Links
  import opened Rendering
  import opened Sections
  import opened Conversion

  /** The state a page's conversion threads through the node converters. */
  class ConversionContext {
    const source: ConfluenceExport
    const currentPage: PageNode
    var warnings: seq<string>
    var skippedSections: seq<string>
    var unknownMacros: seq<string>

    constructor(source: ConfluenceExport, currentPage: PageNode)
      ensures this.source == source && this.currentPage == currentPage
      ensures warnings == [] && skippedSections == [] && unknownMacros == []
    {
      this.source := source;
      this.currentPage := currentPage;
      warnings := [];
      skippedSections := [];
      unknownMacros := [];
    }
  }

  class MarkdownConverter {
    const settings: Settings
    /** The storage-format parser: a document, or the message of the exception it raises. */
    const parse: string -> Result<Document>
    /** Where each page sits in the export's title hierarchy, `/`-separated. */
    const pathOf: PageNode -> string
    /** `fnmatch(name, pattern)`. */
    const matches: (string, string) -> bool

    constructor(settings: Settings, parse: string -> Result<Document>,
                pathOf: PageNode -> string, matches: (string, string) -> bool)
      ensures this.settings == settings && this.parse == parse
      ensures this.pathOf == pathOf && this.matches == matches
    {
      this.settings := settings;
      this.parse := parse;
      this.pathOf := pathOf;
      this.matches := matches;
    }

    /** What rendering a page of `export` reads. */
    function EnvFor(source: ConfluenceExport, page: PageNode): Env
      reads source
    {
      Env(settings, source.pagesById, page, pathOf, matches)
    }

    /** The environment of a context's conversion. */
    function EnvOf(ctx: ConversionContext): Env
      reads ctx.source
    {
      EnvFor(ctx.source, ctx.currentPage)
    }

    /** `_should_skip_section`: whether some exclusion pattern matches the joined heading path. */
    method ShouldSkipSection(headingPath: seq<string>) returns (b: bool)
      ensures b <==> (exists i :: 0 <= i < |settings.excludeSections|
                       && matches(PathString(headingPath), settings.excludeSections[i]))
    {
      var pathStr := Join(headingPath, "/");
      var i := 0;
      while i < |settings.excludeSections|
        invariant 0 <= i <= |settings.excludeSections|
        invariant forall j :: 0 <= j < i ==> !matches(pathStr, settings.excludeSections[j])
      {
        if matches(pathStr, settings.excludeSections[i]) {
          return true;
        }
        i := i + 1;
      }
      return false;
    }

    /** `_calculate_relative_path`: the relative link from one page's file to another's. */
    method CalculateRelativePath(fromPage: PageNode, toPage: PageNode) returns (r: string)
      ensures r == RelativePath(pathOf(fromPage), pathOf(toPage), toPage.title)
    {
      var fromAll := Split(pathOf(fromPage), '/');
      var fromParts := fromAll[..|fromAll| - 1];
      var toParts := Split(pathOf(toPage), '/');
      var m := if |fromParts| < |toParts| then |fromParts| else |toParts|;
      var common := 0;
      var i := 0;
      while i < m
        invariant common == i <= m
        invariant forall k :: 0 <= k < common ==> fromParts[k] == toParts[k]
      {
        if fromParts[i] == toParts[i] {
          common := common + 1;
        } else {
          break;
        }
        i := i + 1;
      }
      assert common == CommonPrefix(fromParts, toParts) by {
        assert fromParts[..common] == toParts[..common];
        CommonPrefixUnique(fromParts, toParts, common);
      }
      var relParts := Repeat("..", |fromParts| - common) + toParts[common..];
      assert relParts == RawRelParts(fromParts, toParts);
      if |relParts| > 0 {
        RelPartsRenamed(fromParts, toParts, toPage.title, relParts);
        relParts := relParts[|relParts| - 1 := Slugify(relParts[|relParts| - 1]) + ".md"];
      } else {
        relParts := [Slugify(toPage.title) + ".md"];
      }
      RelativePathOfParts(pathOf(fromPage), pathOf(toPage), toPage.title, fromParts, toParts, relParts);
      r := Join(relParts, "/");
    }

    /** `_convert_internal_link`, appending a warning when the target is missing. */
    method ConvertInternalLink(node: Node, text: string, ctx: ConversionContext) returns (md: string)
      requires node.Link?
      modifies ctx
      ensures var o := InternalLink(node.pageId, node.pageTitle, text, EnvOf(ctx));
        md == o.md && ctx.warnings == old(ctx.warnings) + o.warnings
      ensures ctx.skippedSections == old(ctx.skippedSections) && ctx.unknownMacros == old(ctx.unknownMacros)
    {
      var pageTitle := if node.pageTitle != "" then node.pageTitle else text;
      if settings.linkStyle == TitleOnly {
        return "[" + pageTitle + "]";
      }
      if node.pageId != "" && node.pageId in ctx.source.pagesById {
        var target := ctx.source.pagesById[node.pageId];
        var relPath := CalculateRelativePath(ctx.currentPage, target);
        md := "[" + (if text != "" then text else target.title) + "](" + relPath + ")";
      } else {
        ctx.warnings := ctx.warnings + [MissingPrefix + pageTitle];
        match settings.missingLinks
        case CommentMissing => md := "<!-- Link to missing page: " + pageTitle + " -->[" + text + "]";
        case StripMissing => md := text;
        case PreserveMissing => md := "[" + text + "]";
      }
    }

    /** `_convert_link`: internal links by page id or title, external ones by URL, else the text. */
    method ConvertLink(node: Node, ctx: ConversionContext) returns (md: string)
      requires node.Link?
      modifies ctx
      ensures var o := LinkOut(node, EnvOf(ctx));
        md == o.md && ctx.warnings == old(ctx.warnings) + o.warnings
      ensures ctx.skippedSections == old(ctx.skippedSections) && ctx.unknownMacros == old(ctx.unknownMacros)
    {
      var text := NodeText(node);
      var href := if node.url != "" then node.url else node.href;
      if node.pageId != "" || node.pageTitle != "" {
        md := ConvertInternalLink(node, text, ctx);
      } else if href != "" {
        md := "[" + text + "](" + href + ")";
      } else {
        md := text;
      }
    }

    /** `_convert_text_element`: a paragraph's children converted inline and glued together. */
    method ConvertTextElement(node: Node, ctx: ConversionContext) returns (md: string)
      requires node.TextBreak?
      modifies ctx
      ensures var o := TextBreakOut(node, |node.children|, EnvOf(ctx));
        && md == o.md
        && ctx.warnings == old(ctx.warnings) + o.warnings
        && ctx.unknownMacros == old(ctx.unknownMacros) + o.macros
      ensures ctx.skippedSections == old(ctx.skippedSections)
    {
      md := "";
      var i := 0;
      while i < |node.children|
        invariant 0 <= i <= |node.children|
        invariant var o := TextBreakOut(node, i, EnvOf(ctx));
          && md == o.md
          && ctx.warnings == old(ctx.warnings) + o.warnings
          && ctx.unknownMacros == old(ctx.unknownMacros) + o.macros
        invariant ctx.skippedSections == old(ctx.skippedSections)
      {
        var child := node.children[i];
        ghost var a := TextBreakOut(node, i, EnvOf(ctx));
        ghost var o := InlineOut(child, EnvOf(ctx));
        AppendAssoc(old(ctx.warnings), a.warnings, o.warnings);
        AppendAssoc(old(ctx.unknownMacros), a.macros, o.macros);
        var piece: string;
        if child.Text? {
          piece := child.text;
        } else if child.TextEffect? {
          piece := EffectMd(child.effect, NodeText(child));
        } else if child.Link? {
          piece := ConvertLink(child, ctx);
        } else if child.Image? {
          piece := ImageMd(child);
        } else {
          piece := NodeText(child);
        }
        md := md + piece;
        i := i + 1;
      }
    }

    /** `_convert_list`: one line per item, numbered by position among all children when ordered. */
    method ConvertList(node: Node) returns (md: string)
      requires node.ListElem?
      ensures md == ListMd(node)
    {
      var lines: seq<string> := [];
      var i := 0;
      while i < |node.children|
        invariant 0 <= i <= |node.children|
        invariant lines == ListLines(node, i)
      {
        var item := node.children[i];
        if item.ListItem? {
          var text := NodeText(item);
          if node.ltype == Ordered {
            lines := lines + [NatToString(i + 1) + ". " + text];
          } else {
            lines := lines + ["- " + text];
          }
        }
        i := i + 1;
      }
      md := Join(lines, "\n");
    }

    /** `_convert_table`: one line per row, and the header separator after a row that is the first child. */
    method ConvertTable(node: Node) returns (md: string)
      requires node.Table?
      ensures md == TableMd(node)
    {
      var lines: seq<string> := [];
      var i := 0;
      while i < |node.children|
        invariant 0 <= i <= |node.children|
        invariant lines == TableLines(node, i)
      {
        var row := node.children[i];
        if row.TableRow? {
          var cells: seq<string> := [];
          var j := 0;
          while j < |row.children|
            invariant 0 <= j <= |row.children|
            invariant cells == CellTexts(row, j)
          {
            var cell := row.children[j];
            if cell.TableCell? {
              cells := cells + [NodeText(cell)];
            }
            j := j + 1;
          }
          lines := lines + [RowLine(cells)];
          if i == 0 {
            lines := lines + [RowLine(Repeat("---", |cells|))];
          }
        }
        i := i + 1;
      }
      md := Join(lines, "\n");
    }

    /** `_convert_node`: the Markdown for one node, recording missing links and unknown macros. */
    method ConvertNode(node: Node, ctx: ConversionContext) returns (md: string)
      modifies ctx
      ensures var o := Render(node, EnvOf(ctx));
        && md == o.md
        && ctx.warnings == old(ctx.warnings) + o.warnings
        && ctx.unknownMacros == old(ctx.unknownMacros) + o.macros
      ensures ctx.skippedSections == old(ctx.skippedSections)
      decreases node, 1
    {
      match node
      case TextBreak(_) =>
        md := ConvertTextElement(node, ctx);
      case Link(_, _, _, _, _) =>
        md := ConvertLink(node, ctx);
      case Fragment(children) =>
        md := ConvertFragment(node, ctx);
      case Macro(name, _) =>
        ctx.unknownMacros := ctx.unknownMacros + [name];
        md := UnknownMacroMd(settings.unknownMacros, name, NodeText(node));
      case _ =>
        md := ConvertLeaf(node, ctx);
    }

    /**
     * The branches of `_convert_node` that neither warn nor record a macro:
     * headings, text, effects, lists, tables, images, the code, panel and
     * expand macros, and the text of anything else.
     */
    method ConvertLeaf(node: Node, ctx: ConversionContext) returns (md: string)
      requires !node.TextBreak? && !node.Link? && !node.Fragment? && !node.Macro?
      ensures var o := Render(node, EnvOf(ctx));
        && md == o.md && o.warnings == [] && o.macros == []
    {
      match node
      case Heading(t, _) =>
        md := HeadingMd(Level(t), settings.maxHeadingLevel, NodeText(node));
      case Text(s) =>
        md := s;
      case TextEffect(e, _) =>
        md := EffectMd(e, NodeText(node));
      case ListElem(_, _) =>
        md := ConvertList(node);
      case Table(_) =>
        md := ConvertTable(node);
      case Image(_, _, _, _) =>
        md := ImageMd(node);
      case CodeMacro(language, _) =>
        md := CodeMd(language, NodeText(node));
      case PanelMacro(panelType, _) =>
        md := PanelMd(panelType, NodeText(node));
      case ExpandMacro(title, _) =>
        md := ExpandMd(title, NodeText(node));
      case _ =>
        md := NodeText(node);
    }

    /** The `Fragment` branch of `_convert_node`: the children's non-empty conversions separated by blank lines. */
    method ConvertFragment(node: Node, ctx: ConversionContext) returns (md: string)
      requires node.Fragment?
      modifies ctx
      ensures var o := Render(node, EnvOf(ctx));
        && md == o.md
        && ctx.warnings == old(ctx.warnings) + o.warnings
        && ctx.unknownMacros == old(ctx.unknownMacros) + o.macros
      ensures ctx.skippedSections == old(ctx.skippedSections)
      decreases node, 0
    {
      var children := node.children;
      var parts: seq<string> := [];
      var i := 0;
      while i < |children|
        invariant 0 <= i <= |children|
        invariant var a := FragmentAcc(node, i, EnvOf(ctx));
          && parts == a.parts
          && ctx.warnings == old(ctx.warnings) + a.warnings
          && ctx.unknownMacros == old(ctx.unknownMacros) + a.macros
        invariant ctx.skippedSections == old(ctx.skippedSections)
      {
        ghost var a := FragmentAcc(node, i, EnvOf(ctx));
        ghost var o := Render(children[i], EnvOf(ctx));
        AppendAssoc(old(ctx.warnings), a.warnings, o.warnings);
        AppendAssoc(old(ctx.unknownMacros), a.macros, o.macros);
        var childMd := ConvertNode(children[i], ctx);
        if childMd != "" {
          parts := parts + [childMd];
        }
        i := i + 1;
      }
      md := Join(parts, "\n\n");
    }

    /** The heading path above a heading of `level`: entries popped until fewer than `level` remain. */
    method PopToLevel(path: seq<string>, level: int) returns (r: seq<string>)
      requires level >= 1
      ensures r == Truncate(path, level)
    {
      r := path;
      while |r| > 0 && |r| >= level
        invariant |r| <= |path| && r == path[..|r|]
        invariant |r| == |path| || |r| >= level - 1
      {
        r := r[..|r| - 1];
      }
    }

    /**
     * The heading branch of `_convert_document`'s loop: a heading at or above
     * the skipped level ends the skipped section, the heading path is cut to
     * the entries above the heading and extended with its text, and an
     * excluded path is recorded and starts a skip at this level unless one is
     * already running.
     */
    method EnterHeading(node: Node, headingPath: seq<string>, skip: Option<int>, ctx: ConversionContext)
      returns (path: seq<string>, newSkip: Option<int>, excluded: bool)
      requires node.Heading?
      modifies ctx
      ensures var level := Level(node.htype);
        var reset := ResetSkip(skip, level);
        && path == Truncate(headingPath, level) + [NodeText(node)]
        && excluded == Excluded(path, EnvOf(ctx))
        && newSkip == (if excluded && reset.None? then Some(level) else reset)
        && ctx.skippedSections == old(ctx.skippedSections) + (if excluded then [PathString(path)] else [])
      ensures ctx.warnings == old(ctx.warnings) && ctx.unknownMacros == old(ctx.unknownMacros)
    {
      var level := Level(node.htype);
      var text := NodeText(node);
      newSkip := skip;
      if newSkip.Some? && level <= newSkip.value {
        newSkip := None;
      }
      path := PopToLevel(headingPath, level);
      path := path + [text];
      excluded := ShouldSkipSection(path);
      if excluded {
        ctx.skippedSections := ctx.skippedSections + [Join(path, "/")];
        if newSkip.None? {
          newSkip := Some(level);
        }
      }
    }

    /**
     * One top-level node of `_convert_document`: the heading path and skip
     * level updated, then the node's Markdown kept unless it is skipped.
     */
    method DocumentStep(node: Node, parts: seq<string>, headingPath: seq<string>, skip: Option<int>,
                        ghost st: DocState, ghost w0: seq<string>, ghost s0: seq<string>, ghost m0: seq<string>,
                        ctx: ConversionContext)
      returns (parts': seq<string>, headingPath': seq<string>, skip': Option<int>)
      requires parts == st.parts && headingPath == st.path && skip == st.skip
      requires ctx.warnings == w0 + st.warnings
      requires ctx.skippedSections == s0 + st.skipped
      requires ctx.unknownMacros == m0 + st.macros
      modifies ctx
      ensures EnvOf(ctx) == old(EnvOf(ctx))
      ensures var next := Step(st, node, EnvOf(ctx));
        && parts' == next.parts && headingPath' == next.path && skip' == next.skip
        && ctx.warnings == w0 + next.warnings
        && ctx.skippedSections == s0 + next.skipped
        && ctx.unknownMacros == m0 + next.macros
    {
      ghost var env := EnvOf(ctx);
      ghost var next := Step(st, node, env);
      ghost var o := Render(node, env);
      AppendAssoc(w0, st.warnings, o.warnings);
      AppendAssoc(m0, st.macros, o.macros);
      parts', headingPath', skip' := parts, headingPath, skip;
      var excluded := false;
      if node.Heading? {
        headingPath', skip', excluded := EnterHeading(node, headingPath, skip, ctx);
        AppendAssoc(s0, st.skipped, [PathString(headingPath')]);
        assert next == if excluded then st.(path := headingPath', skipped := st.skipped + [PathString(headingPath')], skip := skip')
                       else if skip'.Some? then st.(path := headingPath', skip := skip')
                       else Emit(st.(path := headingPath', skip := skip'), node, env);
      } else {
        assert next == if skip.Some? then st else Emit(st, node, env);
      }
      if !excluded && skip'.None? {
        var nodeMd := ConvertNode(node, ctx);
        if nodeMd != "" {
          parts' := parts' + [nodeMd];
        }
      }
    }

    /**
     * `_convert_document`: the walk over the top-level nodes with the heading
     * path and the skip level. An excluded heading inside a section already
     * being skipped keeps the enclosing skip level.
     */
    method ConvertDocument(doc: Document, ctx: ConversionContext) returns (md: string)
      modifies ctx
      ensures var d := Sections.ConvertDocument(doc, EnvOf(ctx));
        && md == d.md
        && ctx.warnings == old(ctx.warnings) + d.warnings
        && ctx.skippedSections == old(ctx.skippedSections) + d.skipped
        && ctx.unknownMacros == old(ctx.unknownMacros) + d.macros
    {
      if doc.Flat? {
        return doc.text;
      }
      var ns := doc.nodes;
      var parts: seq<string> := [];
      var headingPath: seq<string> := [];
      var skip: Option<int> := None;
      ghost var st := Start;
      ghost var env := EnvOf(ctx);
      var i := 0;
      while i < |ns|
        invariant 0 <= i <= |ns|
        invariant EnvOf(ctx) == env
        invariant st == Run(Start, ns[..i], env)
        invariant parts == st.parts && headingPath == st.path && skip == st.skip
        invariant ctx.warnings == old(ctx.warnings) + st.warnings
        invariant ctx.skippedSections == old(ctx.skippedSections) + st.skipped
        invariant ctx.unknownMacros == old(ctx.unknownMacros) + st.macros
      {
        ghost var next := Step(st, ns[i], env);
        parts, headingPath, skip := DocumentStep(ns[i], parts, headingPath, skip, st,
          old(ctx.warnings), old(ctx.skippedSections), old(ctx.unknownMacros), ctx);
        assert ns[..i + 1] == ns[..i] + [ns[i]];
        RunAppend(Start, ns[..i], ns[i], env);
        st := next;
        i := i + 1;
      }
      assert ns[..|ns|] == ns;
      md := Join(parts, "\n\n");
    }

    /** The items of a list-valued front matter entry appended as `  - ` lines. */
    method AppendBullets(lines: seq<string>, items: seq<string>) returns (r: seq<string>)
      ensures r == lines + Bullets(items)
    {
      r := lines;
      var j := 0;
      while j < |items|
        invariant 0 <= j <= |items|
        invariant r == lines + Bullets(items[..j])
      {
        assert items[..j + 1][..j] == items[..j];
        AppendAssoc(lines, Bullets(items[..j]), ["  - " + items[j]]);
        r := r + ["  - " + items[j]];
        j := j + 1;
      }
      assert items[..j] == items;
    }

    /** `_format_frontmatter`: the entries as YAML lines between `---` lines. */
    method FormatFrontmatter(fm: Frontmatter) returns (yaml: string)
      ensures yaml == Conversion.FormatFrontmatter(fm)
    {
      var lines: seq<string> := ["---"];
      var i := 0;
      while i < |fm|
        invariant 0 <= i <= |fm|
        invariant lines == ["---"] + EntriesLines(fm, i)
      {
        var key := fm[i].0;
        ghost var prev := lines;
        match fm[i].1 {
          case FmList(items) =>
            lines := AppendBullets(lines + [key + ":"], items);
            AppendAssoc(prev, [key + ":"], Bullets(items));
          case FmStr(v) =>
            if '\n' in v || ':' in v {
              lines := lines + [key + ": \"" + v + "\""];
            } else {
              lines := lines + [key + ": " + v];
            }
        }
        assert lines == prev + EntryLines(key, fm[i].1);
        AppendAssoc(["---"], EntriesLines(fm, i), EntryLines(key, fm[i].1));
        i := i + 1;
      }
      lines := lines + ["---"];
      assert lines == ["---"] + EntriesLines(fm, |fm|) + ["---"];
      yaml := Join(lines, "\n");
    }

    /** The body half of `convert`: the converted document, or the fallback for a blank or unparsable body. */
    method ConvertBody(page: PageNode, source: ConfluenceExport)
      returns (markdown: string, warnings: seq<string>, skippedSections: seq<string>, unknownMacros: seq<string>)
      ensures DocOut(markdown, warnings, skippedSections, unknownMacros)
           == Conversion.ConvertBody(page.bodyContent, EnvFor(source, page), parse)
    {
      if Strip(page.bodyContent) == "" {
        markdown, warnings, skippedSections, unknownMacros := "", [], [], [];
        return;
      }
      var parsed := parse(page.bodyContent);
      if parsed.Err? {
        warnings, skippedSections, unknownMacros := ["Parse error: " + parsed.error], [], [];
        markdown := "<!-- Parse error: " + parsed.error + " -->\n\n" + page.bodyContent;
      } else {
        markdown, warnings, skippedSections, unknownMacros := ConvertParsed(parsed.value, page, source);
      }
    }

    /** A parsed body converted in a fresh context; the context's lists are the result's. */
    method ConvertParsed(document: Document, page: PageNode, source: ConfluenceExport)
      returns (markdown: string, warnings: seq<string>, skippedSections: seq<string>, unknownMacros: seq<string>)
      ensures DocOut(markdown, warnings, skippedSections, unknownMacros)
           == Sections.ConvertDocument(document, EnvFor(source, page))
    {
      var context := new ConversionContext(source, page);
      assert EnvOf(context) == EnvFor(source, page);
      markdown := ConvertDocument(document, context);
      warnings, skippedSections, unknownMacros := context.warnings, context.skippedSections, context.unknownMacros;
      assert warnings == [] + warnings && skippedSections == [] + skippedSections && unknownMacros == [] + unknownMacros;
    }

    /** `convert`: the body converted, front matter built and put in front, the whole trimmed. */
    method Convert(page: PageNode, source: ConfluenceExport) returns (r: Result<ConversionResult>)
      ensures r == Conversion.Convert(page, EnvFor(source, page), parse)
    {
      var markdown, warnings, skippedSections, unknownMacros := ConvertBody(page, source);
      ghost var body := DocOut(markdown, warnings, skippedSections, unknownMacros);
      var frontmatter: Option<Frontmatter> := None;
      if settings.includeFrontmatter {
        var built := BuildFrontmatter(page, settings.frontmatterFields);
        if built.Err? {
          return Err(built.error);
        }
        frontmatter := Some(built.value);
      }
      if frontmatter.Some? && frontmatter.value != [] {
        var frontmatterYaml := FormatFrontmatter(frontmatter.value);
        markdown := frontmatterYaml + "\n" + markdown;
      }
      r := Ok(ConversionResult(Strip(markdown) + "\n", frontmatter, warnings, skippedSections, unknownMacros));
      assert r == Assemble(page, settings, body);
    }
  }
}
