/**
 * What `ConversionBuilder` decides, as functions: which pages of an export
 * to convert again, where each page's Markdown goes, the report for one
 * page, the counts of a build, and the new cache after a build. Which files
 * exist on disk is a set of paths; the clock is a timestamp parameter.
 */
module Incremental {
  import opened Base
  import opened Strings
  import opened Slug
  import opened ExportModel
  import opened Config
  import opened Nodes
  import opened Links
  import opened Conversion
  import opened Cache
  import opened Paths

  // Page selection (`_determine_pages_to_convert`)

  /**
   * Whether a page must be converted when the settings are unchanged:
   * forced, or its export was never built, or it has no record, or its
   * recorded output file is gone, or its content hash changed.
   */
  predicate NeedsConversion(digest: string -> string, page: PageNode, exportState: Option<ExportState>,
                            force: bool, existing: set<string>)
  {
    force
    || exportState.None?
    || page.id !in exportState.value.pages
    || exportState.value.pages[page.id].outputPath !in existing
    || ContentHash(digest, page) != exportState.value.pages[page.id].contentHash
  }

  /** The pages among `pages` that need conversion, in their order. */
  function Stale(digest: string -> string, pages: seq<PageNode>, exportState: Option<ExportState>,
                 force: bool, existing: set<string>): (r: seq<PageNode>)
    ensures |r| <= |pages|
  {
    if pages == [] then []
    else
      var init := Stale(digest, pages[..|pages| - 1], exportState, force, existing);
      if NeedsConversion(digest, pages[|pages| - 1], exportState, force, existing)
      then init + [pages[|pages| - 1]] else init
  }

  /** The cache entry of an export, if any (`exports.get(name)`). */
  function ExportEntry(st: BuildState, name: string): Option<ExportState> {
    if name in st.exports then Some(st.exports[name]) else None
  }

  /**
   * The pages to convert: all of them when the fingerprint stored in the
   * cache differs from the current one, else the stale ones.
   */
  function PagesToConvert(digest: string -> string, st: BuildState, settingsHash: string, name: string,
                          pages: seq<PageNode>, force: bool, existing: set<string>): seq<PageNode>
  {
    if st.settingsHash != settingsHash then pages
    else Stale(digest, pages, ExportEntry(st, name), force, existing)
  }

  /** A page is selected exactly when it is one of the pages and it needs conversion. */
  lemma {:induction false} StaleMembers(digest: string -> string, pages: seq<PageNode>,
                                        exportState: Option<ExportState>, force: bool, existing: set<string>)
    ensures forall p :: (p in Stale(digest, pages, exportState, force, existing)
                         <==> p in pages && NeedsConversion(digest, p, exportState, force, existing))
  {
    if pages != [] {
      var init := pages[..|pages| - 1];
      StaleMembers(digest, init, exportState, force, existing);
      assert pages == init + [pages[|pages| - 1]];
    }
  }

  /** Selecting from a concatenation selects from each side and keeps their order. */
  lemma {:induction false} StaleConcat(digest: string -> string, a: seq<PageNode>, b: seq<PageNode>,
                                       exportState: Option<ExportState>, force: bool, existing: set<string>)
    ensures Stale(digest, a + b, exportState, force, existing)
         == Stale(digest, a, exportState, force, existing) + Stale(digest, b, exportState, force, existing)
  {
    if b == [] {
      assert a + b == a;
    } else {
      var b0 := b[..|b| - 1];
      assert (a + b)[..|a + b| - 1] == a + b0;
      assert (a + b)[|a + b| - 1] == b[|b| - 1];
      StaleConcat(digest, a, b0, exportState, force, existing);
    }
  }

  /** A single page is selected exactly when it needs conversion. */
  lemma StaleSingle(digest: string -> string, page: PageNode,
                    exportState: Option<ExportState>, force: bool, existing: set<string>)
    ensures Stale(digest, [page], exportState, force, existing)
         == if NeedsConversion(digest, page, exportState, force, existing) then [page] else []
  {
    assert [page][..0] == [];
  }

  /** When every page needs conversion, every page is selected, in order. */
  lemma {:induction false} StaleAll(digest: string -> string, pages: seq<PageNode>,
                                    exportState: Option<ExportState>, force: bool, existing: set<string>)
    requires forall p :: p in pages ==> NeedsConversion(digest, p, exportState, force, existing)
    ensures Stale(digest, pages, exportState, force, existing) == pages
  {
    if pages != [] {
      var init, last := pages[..|pages| - 1], pages[|pages| - 1];
      assert pages == init + [last];
      assert last in pages;
      forall p | p in init ensures NeedsConversion(digest, p, exportState, force, existing) {
        assert p in pages;
      }
      StaleAll(digest, init, exportState, force, existing);
    }
  }

  /** When no page needs conversion, none is selected. */
  lemma {:induction false} StaleNone(digest: string -> string, pages: seq<PageNode>,
                                     exportState: Option<ExportState>, force: bool, existing: set<string>)
    requires forall p :: p in pages ==> !NeedsConversion(digest, p, exportState, force, existing)
    ensures Stale(digest, pages, exportState, force, existing) == []
  {
    if pages != [] {
      var init := pages[..|pages| - 1];
      assert pages[|pages| - 1] in pages;
      forall p | p in init ensures !NeedsConversion(digest, p, exportState, force, existing) {
        assert p in pages;
      }
      StaleNone(digest, init, exportState, force, existing);
    }
  }

  /** A changed settings fingerprint selects every page, whatever `force` and the cache say. */
  lemma SettingsChangeRebuildsAll(digest: string -> string, st: BuildState, settingsHash: string, name: string,
                                  pages: seq<PageNode>, force: bool, existing: set<string>)
    requires st.settingsHash != settingsHash
    ensures PagesToConvert(digest, st, settingsHash, name, pages, force, existing) == pages
  {
  }

  /** `force` selects every page. */
  lemma ForceRebuildsAll(digest: string -> string, st: BuildState, settingsHash: string, name: string,
                         pages: seq<PageNode>, existing: set<string>)
    ensures PagesToConvert(digest, st, settingsHash, name, pages, true, existing) == pages
  {
    StaleAll(digest, pages, ExportEntry(st, name), true, existing);
  }

  /**
   * With an unchanged fingerprint, a page is selected exactly when it is
   * one of the pages and it needs conversion.
   */
  lemma SelectedIff(digest: string -> string, st: BuildState, settingsHash: string, name: string,
                    pages: seq<PageNode>, force: bool, existing: set<string>, p: PageNode)
    requires st.settingsHash == settingsHash
    ensures p in PagesToConvert(digest, st, settingsHash, name, pages, force, existing)
      <==> p in pages && NeedsConversion(digest, p, ExportEntry(st, name), force, existing)
  {
    StaleMembers(digest, pages, ExportEntry(st, name), force, existing);
  }

  /** Whether the cache holds an up-to-date record of `p` whose output file exists. */
  predicate UpToDate(digest: string -> string, st: BuildState, name: string, p: PageNode, existing: set<string>) {
    name in st.exports && p.id in st.exports[name].pages
    && st.exports[name].pages[p.id].outputPath in existing
    && st.exports[name].pages[p.id].contentHash == ContentHash(digest, p)
  }

  /**
   * A build that is not forced, with unchanged settings, over pages that
   * all have up-to-date records, converts nothing.
   */
  lemma UnchangedExportConvertsNothing(digest: string -> string, st: BuildState, settingsHash: string, name: string,
                                       pages: seq<PageNode>, existing: set<string>)
    requires st.settingsHash == settingsHash
    requires forall p :: p in pages ==> UpToDate(digest, st, name, p, existing)
    ensures PagesToConvert(digest, st, settingsHash, name, pages, false, existing) == []
  {
    StaleNone(digest, pages, ExportEntry(st, name), false, existing);
  }

  // Output paths (`_get_output_path`)

  /** The page's file name without `.md`: the slug of its title, or the title itself. */
  function FileStem(settings: Settings, page: PageNode): string {
    if settings.filenameStyle == SlugifyNames then Slugify(page.title) else page.title
  }

  /**
   * `_get_output_path`: `exports_dir / space_key.lower() / f"{stem}.md"`,
   * flat whatever the page hierarchy.
   */
  function OutputLocation(settings: Settings, space: Space, page: PageNode): PurePath {
    Div(Div(ParsePath(settings.exportsDir), Lower(space.key)), FileStem(settings, page) + ".md")
  }

  /** The output file as the string that is reported, recorded and checked for existence. */
  function OutputPath(settings: Settings, space: Space, page: PageNode): string {
    PathStr(OutputLocation(settings, space, page))
  }

  /** Two pages with the same title in one space get the same output file. */
  lemma SameTitleSameFile(settings: Settings, space: Space, p: PageNode, q: PageNode)
    requires p.title == q.title
    ensures OutputPath(settings, space, p) == OutputPath(settings, space, q)
  {
  }

  /** Every output path ends in `.md`. */
  lemma OutputPathIsMarkdown(settings: Settings, space: Space, page: PageNode)
    ensures var r := OutputPath(settings, space, page);
      |r| >= 3 && r[|r| - 3..] == ".md"
  {
    DivMarkdown(Div(ParsePath(settings.exportsDir), Lower(space.key)), FileStem(settings, page));
  }

  /**
   * A slugified file name stays inside the exports directory: the output is
   * the directory's parts, the space key's parts, then `<slug>.md`, as long
   * as the space key is not an absolute path.
   */
  lemma SlugifiedStaysInside(settings: Settings, space: Space, page: PageNode)
    requires settings.filenameStyle == SlugifyNames
    requires space.key == [] || space.key[0] != '/'
    ensures var dir := ParsePath(settings.exportsDir);
      OutputLocation(settings, space, page)
        == PurePath(dir.root, dir.parts + ParsePath(Lower(space.key)).parts + [Slugify(page.title) + ".md"])
  {
    var slug := Slugify(page.title);
    var name := slug + ".md";
    SlugShape(page.title);
    assert forall i :: 0 <= i < |name| ==> name[i] != '/' by {
      forall i | 0 <= i < |name| ensures name[i] != '/' {
        if i < |slug| { assert IsSlugChar(slug[i]); }
      }
    }
    SplitNoSeparator(name, '/');
    assert Components([name]) == [name] by {
      assert [name][..0] == [];
    }
    assert ParsePath(name) == PurePath("", [name]);
    if space.key != [] {
      assert Lower(space.key)[0] == LowerChar(space.key[0]);
    }
  }

  /**
   * With titles kept as they are, a title that is an absolute path replaces
   * the exports directory and the space: the page is written wherever the
   * title points.
   */
  lemma AbsoluteTitleEscapes(settings: Settings, space: Space, page: PageNode)
    requires settings.filenameStyle == PreserveNames
    requires page.title != [] && page.title[0] == '/'
    ensures OutputLocation(settings, space, page) == ParsePath(page.title + ".md")
  {
    assert (page.title + ".md")[0] == '/';
  }

  /** A name without `/` after one leading `/` is that name at the root. */
  lemma RootedName(t: string)
    requires !Skipped(t) && forall i :: 0 <= i < |t| ==> t[i] != '/'
    ensures PathStr(ParsePath("/" + t)) == "/" + t
  {
    var s := "/" + t;
    assert s[1..] == t;
    SplitNoSeparator(t, '/');
    assert Split(s, '/') == ["", t];
    assert ["", t][..1] == [""] && [""][..0] == [];
    assert Components(["", t]) == [t];
  }

  /** The title `/notes` is written to `/notes.md`, outside the exports directory. */
  lemma AbsoluteTitleExample(settings: Settings, space: Space, page: PageNode)
    requires settings.filenameStyle == PreserveNames && page.title == "/notes"
    ensures OutputPath(settings, space, page) == "/notes.md"
  {
    AbsoluteTitleEscapes(settings, space, page);
    assert page.title + ".md" == "/" + "notes.md";
    RootedName("notes.md");
  }

  // Page reports (`_convert_page`)

  datatype Status = Success | Partial | Failed

  datatype PageConversionReport = PageConversionReport(
    pageId: string,
    pageTitle: string,
    outputFile: string,
    status: Status,
    warnings: seq<string>,
    errors: seq<string>)

  /**
   * The report for one page, from the conversion's outcome and the outcome
   * of writing the file (`Some(message)` when creating the directory or
   * writing raises). A failure carries the exception's message as its one
   * error and no warnings; otherwise the conversion's warnings are kept and
   * the page is partial exactly when there are some.
   */
  function ReportFor(page: PageNode, outputFile: string, conversion: Result<ConversionResult>,
                     writeError: Option<string>): (r: PageConversionReport)
    ensures r.pageId == page.id && r.pageTitle == page.title && r.outputFile == outputFile
    ensures r.status == Failed <==> conversion.Err? || writeError.Some?
    ensures r.status == Partial <==> conversion.Ok? && writeError.None? && conversion.value.warnings != []
    ensures r.status == Success <==> conversion.Ok? && writeError.None? && conversion.value.warnings == []
    ensures r.status == Failed ==> r.warnings == [] && |r.errors| == 1
    ensures conversion.Err? ==> r.errors == [conversion.error]
    ensures conversion.Ok? && writeError.Some? ==> r.errors == [writeError.value]
    ensures r.status != Failed ==> r.warnings == conversion.value.warnings && r.errors == []
  {
    match conversion
    case Err(e) => PageConversionReport(page.id, page.title, outputFile, Failed, [], [e])
    case Ok(result) =>
      if writeError.Some? then PageConversionReport(page.id, page.title, outputFile, Failed, [], [writeError.value])
      else
        PageConversionReport(page.id, page.title, outputFile,
          if result.warnings != [] then Partial else Success, result.warnings, [])
  }

  /**
   * Under the relative link style the source reports a page whose body
   * starts with a link to another page of the export as `partial`, with the
   * `Parse error` warning naming the missing attribute, instead of
   * converting it.
   */
  lemma AsWrittenLinkPagePartial(page: PageNode, env: Env, parse: string -> Result<Document>, ns: seq<Node>,
                                 outputFile: string)
    requires Strip(page.bodyContent) != "" && parse(page.bodyContent) == Ok(Tree(ns))
    requires |ns| > 0 && ns[0].Link? && ns[0].pageId != "" && ns[0].pageId in env.pagesById
    requires env.settings.linkStyle == Relative
    requires ConvertAsWritten(page, env, parse).Ok?
    ensures var r := ReportFor(page, outputFile, ConvertAsWritten(page, env, parse), None);
      r.status == Partial && r.warnings[|r.warnings| - 1] == "Parse error: " + NoPathAttribute
  {
    var body := ConvertBodyAsWritten(page.bodyContent, env, parse);
    FirstLinkFallsBack(page.bodyContent, env, parse, ns);
    AssembleKeepsWarnings(page, env.settings, body);
    assert ConvertAsWritten(page, env, parse) == Assemble(page, env.settings, body);
  }

  // Build counts (`convert_export`)

  /** The number of reports that are not failures. */
  function Converted(reports: seq<PageConversionReport>): nat {
    if reports == [] then 0
    else Converted(reports[..|reports| - 1]) + (if reports[|reports| - 1].status != Failed then 1 else 0)
  }

  /** The number of failed reports. */
  function FailedCount(reports: seq<PageConversionReport>): nat {
    if reports == [] then 0
    else FailedCount(reports[..|reports| - 1]) + (if reports[|reports| - 1].status == Failed then 1 else 0)
  }

  /** One more report adds one to exactly one of the counts. */
  lemma CountsAppend(reports: seq<PageConversionReport>, r: PageConversionReport)
    ensures Converted(reports + [r]) == Converted(reports) + (if r.status != Failed then 1 else 0)
    ensures FailedCount(reports + [r]) == FailedCount(reports) + (if r.status == Failed then 1 else 0)
  {
    assert (reports + [r])[..|reports|] == reports;
  }

  /** Every report counts once, as converted or as failed. */
  lemma {:induction false} CountsCover(reports: seq<PageConversionReport>)
    ensures Converted(reports) + FailedCount(reports) == |reports|
  {
    if reports != [] {
      CountsCover(reports[..|reports| - 1]);
    }
  }

  /** The outcome of a build, without its timings. */
  datatype BuildResult = BuildResult(
    pagesConverted: int,
    pagesSkipped: int,
    pagesFailed: int,
    pageReports: seq<PageConversionReport>)

  // Cache update (`_update_state`)

  /** Whether a report leads to a new record: it did not fail and its page is in the export. */
  predicate Records(r: PageConversionReport, pagesById: map<string, PageNode>) {
    r.status != Failed && r.pageId in pagesById
  }

  /** The record written for a page. */
  function RecordOf(digest: string -> string, page: PageNode, outputFile: string, now: string): PageState {
    PageState(page.title, outputFile, ContentHash(digest, page), now)
  }

  /** The page records after the reports are applied in order. */
  function ApplyReports(digest: string -> string, records: map<string, PageState>, reports: seq<PageConversionReport>,
                        pagesById: map<string, PageNode>, now: string): map<string, PageState>
  {
    if reports == [] then records
    else
      var prev := ApplyReports(digest, records, reports[..|reports| - 1], pagesById, now);
      var r := reports[|reports| - 1];
      if Records(r, pagesById) then prev[pagesById[r.pageId].id := RecordOf(digest, pagesById[r.pageId], r.outputFile, now)]
      else prev
  }

  /** The export entry before the records are updated: the cached one, or a new empty one. */
  function EntryBefore(st: BuildState, name: string, sourcePath: string, now: string): ExportState {
    if name in st.exports then st.exports[name] else ExportState(sourcePath, now, "", map[])
  }

  /**
   * The cache after a build: the export's entry is created if absent, every
   * report that did not fail records its page, and the fingerprint becomes
   * the current one.
   */
  function UpdatedState(digest: string -> string, st: BuildState, name: string, sourcePath: string,
                        pagesById: map<string, PageNode>, reports: seq<PageConversionReport>,
                        settingsHash: string, now: string): BuildState
  {
    var entry := EntryBefore(st, name, sourcePath, now);
    st.(settingsHash := settingsHash,
        exports := st.exports[name := entry.(pages := ApplyReports(digest, entry.pages, reports, pagesById, now))])
  }

  /**
   * The update changes nothing but the fingerprint and this export's entry;
   * an existing entry keeps its source fields, a new one has empty source
   * hash and no earlier records.
   */
  lemma UpdateFrame(digest: string -> string, st: BuildState, name: string, sourcePath: string,
                    pagesById: map<string, PageNode>, reports: seq<PageConversionReport>,
                    settingsHash: string, now: string)
    ensures var s := UpdatedState(digest, st, name, sourcePath, pagesById, reports, settingsHash, now);
      && s.version == st.version
      && s.settingsHash == settingsHash
      && s.exports.Keys == st.exports.Keys + {name}
      && (forall other :: other in st.exports && other != name ==> s.exports[other] == st.exports[other])
      && (name in st.exports ==>
            s.exports[name].sourcePath == st.exports[name].sourcePath
            && s.exports[name].sourceMtime == st.exports[name].sourceMtime
            && s.exports[name].sourceHash == st.exports[name].sourceHash)
      && (name !in st.exports ==>
            s.exports[name].sourcePath == sourcePath && s.exports[name].sourceHash == "")
  {
  }

  /**
   * A page id that no recording report names keeps its previous record,
   * or stays without one: failed pages and pages not converted are left
   * as they were.
   */
  lemma {:induction false} UnreportedKept(digest: string -> string, records: map<string, PageState>,
                                          reports: seq<PageConversionReport>, pagesById: map<string, PageNode>,
                                          now: string, id: string)
    requires forall k :: k in pagesById ==> pagesById[k].id == k
    requires forall i :: 0 <= i < |reports| && Records(reports[i], pagesById) ==> reports[i].pageId != id
    ensures var after := ApplyReports(digest, records, reports, pagesById, now);
      (id in after <==> id in records) && (id in records ==> after[id] == records[id])
  {
    if reports != [] {
      UnreportedKept(digest, records, reports[..|reports| - 1], pagesById, now, id);
    }
  }

  /**
   * The record of a page that a report converted is the page's current
   * content hash and the report's output file, when no later report for
   * the page also records it.
   */
  lemma {:induction false} ReportedRecorded(digest: string -> string, records: map<string, PageState>,
                                            reports: seq<PageConversionReport>, pagesById: map<string, PageNode>,
                                            now: string, i: nat)
    requires forall k :: k in pagesById ==> pagesById[k].id == k
    requires i < |reports| && Records(reports[i], pagesById)
    requires forall j :: i < j < |reports| && Records(reports[j], pagesById) ==> reports[j].pageId != reports[i].pageId
    ensures var after := ApplyReports(digest, records, reports, pagesById, now);
      var id := reports[i].pageId;
      id in after && after[id] == RecordOf(digest, pagesById[id], reports[i].outputFile, now)
  {
    var n := |reports|;
    if i < n - 1 {
      ReportedRecorded(digest, records, reports[..n - 1], pagesById, now, i);
    }
  }

  /**
   * After a build records a page whose output file is on disk, the next
   * build with the same settings does not select it while its content is
   * unchanged: the incremental build's promise.
   */
  lemma RecordedPageUpToDate(digest: string -> string, st: BuildState, name: string, sourcePath: string,
                             pagesById: map<string, PageNode>, reports: seq<PageConversionReport>,
                             settingsHash: string, now: string, existing: set<string>, i: nat)
    requires forall k :: k in pagesById ==> pagesById[k].id == k
    requires i < |reports| && Records(reports[i], pagesById) && reports[i].outputFile in existing
    requires forall j :: i < j < |reports| && Records(reports[j], pagesById) ==> reports[j].pageId != reports[i].pageId
    ensures var s := UpdatedState(digest, st, name, sourcePath, pagesById, reports, settingsHash, now);
      var p := pagesById[reports[i].pageId];
      UpToDate(digest, s, name, p, existing)
      && !NeedsConversion(digest, p, ExportEntry(s, name), false, existing)
  {
    var entry := EntryBefore(st, name, sourcePath, now);
    ReportedRecorded(digest, entry.pages, reports, pagesById, now, i);
  }
}
