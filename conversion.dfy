/**
 * `MarkdownConverter.convert` as a function: the page body rendered (or
 * kept raw behind a comment when it cannot be parsed), the YAML front
 * matter put in front, and the whole trimmed to end in one newline.
 */
module Conversion {
  import opened Base
  import opened Strings
  import opened ExportModel
  import opened Config
  import opened Nodes
  import opened Links
  import opened Rendering
  import opened Sections

  /** A front matter value: a string, or a list of strings written one per line. */
  datatype FmValue = FmStr(s: string) | FmList(items: seq<string>)

  /** Front matter entries in insertion order. */
  type Frontmatter = seq<(string, FmValue)>

  function MissingAttribute(name: string): string {
    "'PageNode' object has no attribute '" + name + "'"
  }

  /**
   * `_build_frontmatter`. A page has a title but no dates and no labels, so
   * asking for `created_date`, `modified_date` or `labels` raises on the
   * first of them; otherwise the front matter holds the title if asked for.
   */
  function BuildFrontmatter(page: PageNode, fields: seq<string>): (r: Result<Frontmatter>)
    ensures r.Err? <==> "created_date" in fields || "modified_date" in fields || "labels" in fields
    ensures r.Ok? ==> (r.value == [] <==> "title" !in fields)
    ensures r.Ok? && r.value != [] ==> r.value == [("title", FmStr(page.title))]
  {
    if "created_date" in fields then Err(MissingAttribute("created_date"))
    else if "modified_date" in fields then Err(MissingAttribute("modified_date"))
    else if "labels" in fields then Err(MissingAttribute("labels"))
    else Ok(if "title" in fields then [("title", FmStr(page.title))] else [])
  }

  /** Whether a string value must be written in double quotes. */
  predicate NeedsQuotes(v: string) {
    '\n' in v || ':' in v
  }

  /** One `  - item` line per list item. */
  function Bullets(items: seq<string>): seq<string> {
    if items == [] then [] else Bullets(items[..|items| - 1]) + ["  - " + items[|items| - 1]]
  }

  /** The YAML lines for one entry. */
  function EntryLines(key: string, value: FmValue): seq<string> {
    match value
    case FmList(items) => [key + ":"] + Bullets(items)
    case FmStr(v) => if NeedsQuotes(v) then [key + ": \"" + v + "\""] else [key + ": " + v]
  }

  /** The YAML lines for the first `k` entries. */
  function EntriesLines(fm: Frontmatter, k: nat): seq<string>
    requires k <= |fm|
  {
    if k == 0 then [] else EntriesLines(fm, k - 1) + EntryLines(fm[k - 1].0, fm[k - 1].1)
  }

  /** `_format_frontmatter`: the entries between two `---` lines. */
  function FormatFrontmatter(fm: Frontmatter): string {
    Join(["---"] + EntriesLines(fm, |fm|) + ["---"], "\n")
  }

  /** The single line a title entry is written as. */
  function TitleLine(title: string): string {
    if NeedsQuotes(title) then "title: \"" + title + "\"" else "title: " + title
  }

  lemma TitleEntryLines(title: string)
    ensures ["---"] + EntriesLines([("title", FmStr(title))], 1) + ["---"] == ["---", TitleLine(title), "---"]
  {
    var fm := [("title", FmStr(title))];
    assert "title" + ": " == "title: " && "title" + ": \"" == "title: \"";
    assert EntryLines(fm[0].0, fm[0].1) == [TitleLine(title)];
    assert EntriesLines(fm, 0) == [];
  }

  /** The default front matter, a title only, is three lines; the title is quoted when it holds `:` or a newline. */
  lemma TitleFrontmatter(title: string)
    ensures FormatFrontmatter([("title", FmStr(title))]) == "---\n" + TitleLine(title) + "\n---"
  {
    var line := TitleLine(title);
    TitleEntryLines(title);
    assert Join(["---", line, "---"], "\n") == "---" + "\n" + (line + "\n" + "---") by {
      assert ["---", line, "---"][1..] == [line, "---"];
      assert Join([line, "---"], "\n") == line + "\n" + Join(["---"], "\n");
    }
    AppendAssoc("---\n", line, "\n---");
  }

  /** The result of converting one page. */
  datatype ConversionResult = ConversionResult(
    markdown: string,
    frontmatter: Option<Frontmatter>,
    warnings: seq<string>,
    skippedSections: seq<string>,
    unknownMacros: seq<string>)

  /**
   * The body's conversion: nothing for a blank body; for a body the parser
   * rejects, a `Parse error` warning and the raw body behind a comment;
   * otherwise the converted document.
   */
  function ConvertBody(body: string, env: Env, parse: string -> Result<Document>): DocOut {
    if Strip(body) == "" then DocOut("", [], [], [])
    else
      match parse(body)
      case Err(e) => DocOut("<!-- Parse error: " + e + " -->\n\n" + body, ["Parse error: " + e], [], [])
      case Ok(doc) => ConvertDocument(doc, env)
  }

  /**
   * `convert`. Building the front matter may raise, and then the whole
   * conversion raises. Non-empty front matter goes in front of the body on
   * its own lines; the Markdown is stripped and ends in one newline.
   */
  function Convert(page: PageNode, env: Env, parse: string -> Result<Document>): Result<ConversionResult> {
    Assemble(page, env.settings, ConvertBody(page.bodyContent, env, parse))
  }

  /** The front matter step of `convert`, applied to an already converted body. */
  function Assemble(page: PageNode, settings: Settings, body: DocOut): Result<ConversionResult> {
    var fm := if settings.includeFrontmatter then BuildFrontmatter(page, settings.frontmatterFields) else Ok([]);
    if fm.Err? then Err(fm.error)
    else
      var md := if fm.value != [] then FormatFrontmatter(fm.value) + "\n" + body.md else body.md;
      Ok(ConversionResult(
        Strip(md) + "\n",
        if settings.includeFrontmatter then Some(fm.value) else None,
        body.warnings, body.skipped, body.macros))
  }

  /** The front matter step keeps the body's warnings, skipped sections and macros as they are. */
  lemma AssembleKeepsWarnings(page: PageNode, settings: Settings, body: DocOut)
    requires Assemble(page, settings, body).Ok?
    ensures var r := Assemble(page, settings, body).value;
      r.warnings == body.warnings && r.skippedSections == body.skipped && r.unknownMacros == body.macros
  {
  }

  /**
   * Converting fails exactly when front matter is on and asks for a field a
   * page does not have.
   */
  lemma ConvertFailsOnlyOnMissingFields(page: PageNode, env: Env, parse: string -> Result<Document>)
    ensures Convert(page, env, parse).Err? <==>
      env.settings.includeFrontmatter &&
      ("created_date" in env.settings.frontmatterFields || "modified_date" in env.settings.frontmatterFields
       || "labels" in env.settings.frontmatterFields)
  {
  }

  /** A stripped string with a newline added ends in exactly one newline. */
  lemma StrippedLine(raw: string)
    ensures var md := Strip(raw) + "\n";
      && |md| >= 1 && md[|md| - 1] == '\n'
      && (|md| == 1 || !IsSpace(md[|md| - 2]))
  {
    StripEnds(raw);
    var s := Strip(raw);
    var md := s + "\n";
    if |md| > 1 {
      assert md[|md| - 2] == s[|s| - 1];
    }
  }

  lemma AssembledEndsWithOneNewline(page: PageNode, settings: Settings, body: DocOut)
    requires Assemble(page, settings, body).Ok?
    ensures var md := Assemble(page, settings, body).value.markdown;
      && |md| >= 1 && md[|md| - 1] == '\n'
      && (|md| == 1 || !IsSpace(md[|md| - 2]))
  {
    var fm := if settings.includeFrontmatter then BuildFrontmatter(page, settings.frontmatterFields) else Ok([]);
    StrippedLine(if fm.value != [] then FormatFrontmatter(fm.value) + "\n" + body.md else body.md);
  }

  /** The Markdown ends in exactly one newline: the character before it, if any, is not whitespace. */
  lemma EndsWithOneNewline(page: PageNode, env: Env, parse: string -> Result<Document>)
    requires Convert(page, env, parse).Ok?
    ensures var md := Convert(page, env, parse).value.markdown;
      && |md| >= 1 && md[|md| - 1] == '\n'
      && (|md| == 1 || !IsSpace(md[|md| - 2]))
  {
    var body := ConvertBody(page.bodyContent, env, parse);
    assert Convert(page, env, parse) == Assemble(page, env.settings, body);
    AssembledEndsWithOneNewline(page, env.settings, body);
  }

  /** A blank body converts to nothing: no text, no warnings, no skipped sections, no macros. */
  lemma BlankBody(body: string, env: Env, parse: string -> Result<Document>)
    requires Strip(body) == ""
    ensures ConvertBody(body, env, parse) == DocOut("", [], [], [])
  {
  }

  /** With an empty body and no front matter the page is a single newline. */
  lemma EmptyPage(page: PageNode, settings: Settings)
    requires !settings.includeFrontmatter || "title" !in settings.frontmatterFields
    requires Assemble(page, settings, DocOut("", [], [], [])).Ok?
    ensures Assemble(page, settings, DocOut("", [], [], [])).value.markdown == "\n"
  {
    assert Strip("") == "";
  }

  /**
   * A body the parser rejects yields the single warning `Parse error: <e>`
   * and keeps the raw body after a comment naming the error.
   */
  lemma ParseErrorFallback(page: PageNode, env: Env, parse: string -> Result<Document>, e: string)
    requires Strip(page.bodyContent) != "" && parse(page.bodyContent) == Err(e)
    ensures var body := ConvertBody(page.bodyContent, env, parse);
      && body.warnings == ["Parse error: " + e]
      && body.skipped == [] && body.macros == []
      && body.md == "<!-- Parse error: " + e + " -->\n\n" + page.bodyContent
  {
  }

  // Conversion as the source has it

  /** The Markdown `convert` falls back to when converting the body raises `e`: the error in a comment, then the raw body. */
  function ParseErrorMd(e: string, body: string): string {
    "<!-- Parse error: " + e + " -->\n\n" + body
  }

  /**
   * The body's conversion as the source has it: the as-written walk, and
   * when rendering a resolved relative link raises, the same fallback as a
   * body the parser rejects, after whatever the walk had recorded.
   */
  function ConvertBodyAsWritten(body: string, env: Env, parse: string -> Result<Document>): DocOut {
    if Strip(body) == "" then DocOut("", [], [], [])
    else
      match parse(body)
      case Err(e) => DocOut(ParseErrorMd(e, body), ["Parse error: " + e], [], [])
      case Ok(Flat(text)) => DocOut(text, [], [], [])
      case Ok(Tree(ns)) => AttemptBody(body, RunAttempt(Start, ns, env))
  }

  /** The body's conversion once the walk has finished or raised. */
  function AttemptBody(body: string, a: Attempt<DocState>): DocOut {
    match a
    case Done(st) => DocOut(Join(st.parts, "\n\n"), st.warnings, st.skipped, st.macros)
    case Raised(st) =>
      DocOut(ParseErrorMd(NoPathAttribute, body), st.warnings + ["Parse error: " + NoPathAttribute],
             st.skipped, st.macros)
  }

  /** `convert` as the source has it. */
  function ConvertAsWritten(page: PageNode, env: Env, parse: string -> Result<Document>): Result<ConversionResult> {
    Assemble(page, env.settings, ConvertBodyAsWritten(page.bodyContent, env, parse))
  }

  /**
   * On a parsed tree the source's body conversion falls back to the raw body
   * exactly when its walk renders a node that reaches a resolved relative
   * link, adding a `Parse error` warning last; otherwise it is the
   * as-written walk's output.
   */
  lemma BodyAsWritten(body: string, env: Env, parse: string -> Result<Document>, ns: seq<Node>)
    requires Strip(body) != "" && parse(body) == Ok(Tree(ns))
    ensures var r := ConvertBodyAsWritten(body, env, parse);
      && ((exists i :: 0 <= i < |ns| && RaisesAt(Start, ns, i, env)) ==>
            r.md == ParseErrorMd(NoPathAttribute, body)
            && |r.warnings| > 0 && r.warnings[|r.warnings| - 1] == "Parse error: " + NoPathAttribute)
      && (!(exists i :: 0 <= i < |ns| && RaisesAt(Start, ns, i, env)) ==>
            var st := RunAsWritten(Start, ns, env);
            r == DocOut(Join(st.parts, "\n\n"), st.warnings, st.skipped, st.macros))
  {
    var a := RunAttempt(Start, ns, env);
    assert ConvertBodyAsWritten(body, env, parse) == AttemptBody(body, a);
    RunAttemptAgrees(Start, ns, env);
  }

  /**
   * A body whose first node is a link to a page of the export, under the
   * relative link style, is not converted by the source: the page gets the
   * raw body behind a `Parse error` comment.
   */
  lemma FirstLinkFallsBack(body: string, env: Env, parse: string -> Result<Document>, ns: seq<Node>)
    requires Strip(body) != "" && parse(body) == Ok(Tree(ns))
    requires |ns| > 0 && ns[0].Link? && ns[0].pageId != "" && ns[0].pageId in env.pagesById
    requires env.settings.linkStyle == Relative
    ensures var r := ConvertBodyAsWritten(body, env, parse);
      && r.md == ParseErrorMd(NoPathAttribute, body)
      && |r.warnings| > 0 && r.warnings[|r.warnings| - 1] == "Parse error: " + NoPathAttribute
  {
    assert ns[..0] == [];
    assert RaisesAt(Start, ns, 0, env);
    BodyAsWritten(body, env, parse, ns);
  }
}
