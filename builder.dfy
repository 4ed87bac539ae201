/**
 * `ConversionBuilder`: the object that owns the build cache, decides which
 * pages to convert, converts them, and updates the cache. Its methods are
 * proved to compute what the functions of `Incremental` and `Cache`
 * describe. Which files exist, which writes fail, and the current time are
 * parameters; reading and writing the state file and the Markdown files is
 * outside this model.
 */
module Builder {
  import opened Base
  import opened Strings
  import opened ExportModel
  import opened Config
  import opened Conversion
  import opened Converter
  import opened Cache
  import opened Incremental
  import opened Links
  import opened Paths

  class ConversionBuilder {
    const settings: Settings
    const converter: MarkdownConverter
    /** SHA-256 of a page body, as hex. */
    const contentDigest: string -> string
    /** The first 16 hex digits of SHA-256 over the fingerprint's JSON. */
    const settingsDigest: Fingerprint -> string
    var state: BuildState

    /**
     * Builds the converter's settings into the builder and loads the cache:
     * `stored` is the state file's JSON document, `None` when there is no
     * state file.
     */
    constructor(settings: Settings, converter: MarkdownConverter, contentDigest: string -> string,
                settingsDigest: Fingerprint -> string, stored: Option<Json>)
      requires converter.settings == settings
      ensures this.settings == settings && this.converter == converter
      ensures this.contentDigest == contentDigest && this.settingsDigest == settingsDigest
      ensures state == LoadState(stored)
    {
      this.settings := settings;
      this.converter := converter;
      this.contentDigest := contentDigest;
      this.settingsDigest := settingsDigest;
      state := DefaultState;
      new;
      if stored.Some? {
        var parsed := ParseState(stored.value);
        if parsed.Some? {
          state := parsed.value;
        }
      }
    }

    /** `_hash_settings`: the fingerprint of the settings that affect the output. */
    function HashSettings(): string {
      SettingsHash(settingsDigest, settings)
    }

    /** `_determine_pages_to_convert`. */
    method DeterminePagesToConvert(source: ConfluenceExport, force: bool, existing: set<string>)
      returns (pages: seq<PageNode>)
      ensures pages == PagesToConvert(contentDigest, state, HashSettings(), PathName(source.path),
                                      source.pages, force, existing)
    {
      if state.settingsHash != HashSettings() {
        return source.AllPages();
      }
      var exportState := ExportEntry(state, PathName(source.path));
      var walk := source.WalkPages();
      pages := [];
      for i := 0 to |walk|
        invariant pages == Stale(contentDigest, walk[..i], exportState, force, existing)
      {
        assert walk[..i + 1][..i] == walk[..i];
        var shouldConvert := false;
        if force {
          shouldConvert := true;
        } else if exportState.None? {
          shouldConvert := true;
        } else {
          var page := walk[i];
          if page.id !in exportState.value.pages {
            shouldConvert := true;
          } else if exportState.value.pages[page.id].outputPath !in existing {
            shouldConvert := true;
          } else if ContentHash(contentDigest, page) != exportState.value.pages[page.id].contentHash {
            shouldConvert := true;
          }
        }
        if shouldConvert {
          pages := pages + [walk[i]];
        }
      }
      assert walk[..|walk|] == walk;
    }

    /** `_get_output_path`. */
    function GetOutputPath(page: PageNode, source: ConfluenceExport): string
      reads source
    {
      OutputPath(settings, source.space, page)
    }

    /** `converter.convert` on each page of an export with this id index. */
    function ConvertOf(pagesById: map<string, PageNode>): PageNode -> Result<ConversionResult> {
      (p: PageNode) =>
        Conversion.Convert(p, Env(converter.settings, pagesById, p, converter.pathOf, converter.matches),
                           converter.parse)
    }

    /**
     * The report `_convert_page` gives for a page of an export with this
     * space, by the conversion's and the write's outcome.
     */
    function PageReport(page: PageNode, space: Space, convert: PageNode -> Result<ConversionResult>,
                        writeError: Option<string>): PageConversionReport
    {
      ReportFor(page, OutputPath(settings, space, page), convert(page), writeError)
    }

    /**
     * `_convert_page`: converts the page and writes its file; `writeError` is
     * the message of the exception creating the directory or writing raises.
     */
    method ConvertPage(page: PageNode, source: ConfluenceExport, writeError: Option<string>)
      returns (report: PageConversionReport)
      ensures report == PageReport(page, source.space, ConvertOf(source.pagesById), writeError)
    {
      var outputPath := GetOutputPath(page, source);
      var result := converter.Convert(page, source);
      if result.Err? {
        return PageConversionReport(page.id, page.title, outputPath, Failed, [], [result.error]);
      }
      if writeError.Some? {
        return PageConversionReport(page.id, page.title, outputPath, Failed, [], [writeError.value]);
      }
      var status := Success;
      if result.value.warnings != [] {
        status := Partial;
      }
      report := PageConversionReport(page.id, page.title, outputPath, status, result.value.warnings, []);
    }

    /** `_update_state`: records every report that did not fail and stores the current fingerprint. */
    method UpdateState(source: ConfluenceExport, reports: seq<PageConversionReport>, now: string)
      modifies this
      ensures state == UpdatedState(contentDigest, old(state), PathName(source.path), PathStr(ParsePath(source.path)),
                                    source.pagesById, reports, HashSettings(), now)
    {
      var exportName := PathName(source.path);
      var sourcePath := PathStr(ParsePath(source.path));
      if exportName !in state.exports {
        state := state.(exports := state.exports[exportName := ExportState(sourcePath, now, "", map[])]);
      }
      var exportState := state.exports[exportName];
      assert exportState.pages == EntryBefore(old(state), exportName, sourcePath, now).pages;
      var records := RecordPages(exportState.pages, reports, source.pagesById, now);
      state := state.(exports := state.exports[exportName := exportState.(pages := records)],
                      settingsHash := HashSettings());
    }

    /**
     * The loop of `_update_state`: each successful report of an indexed page
     * records that page's title, output file, content hash and the time.
     */
    method RecordPages(before: map<string, PageState>, reports: seq<PageConversionReport>,
                       pagesById: map<string, PageNode>, now: string) returns (records: map<string, PageState>)
      ensures records == ApplyReports(contentDigest, before, reports, pagesById, now)
    {
      records := before;
      for i := 0 to |reports|
        invariant records == ApplyReports(contentDigest, before, reports[..i], pagesById, now)
      {
        assert reports[..i + 1][..i] == reports[..i];
        var report := reports[i];
        if report.status != Failed && report.pageId in pagesById {
          var page := pagesById[report.pageId];
          records := records[page.id := PageState(page.title, report.outputFile, ContentHash(contentDigest, page), now)];
        }
      }
      assert reports[..|reports|] == reports;
    }

    /** `_parse_state` for one page record. */
    method ParsePage(data: Json) returns (r: Option<PageState>)
      ensures r == DecodePage(data)
    {
      if !data.JObject? {
        return None;
      }
      var title := GetString(data.fields, "title", "");
      var outputPath := GetString(data.fields, "output_path", "");
      var contentHash := GetString(data.fields, "content_hash", "");
      var convertedAt := GetString(data.fields, "converted_at", "");
      if title.None? || outputPath.None? || contentHash.None? || convertedAt.None? {
        return None;
      }
      r := Some(PageState(title.value, outputPath.value, contentHash.value, convertedAt.value));
    }

    /** `_parse_state`'s inner loop: every page record of an export. */
    method ParsePages(data: map<string, Json>) returns (r: Option<map<string, PageState>>)
      ensures r == DecodePages(data)
    {
      var pages: map<string, PageState> := map[];
      var todo := data.Keys;
      while todo != {}
        invariant todo <= data.Keys && pages.Keys == data.Keys - todo
        invariant forall id :: id in pages ==> DecodePage(data[id]) == Some(pages[id])
        decreases |todo|
      {
        var id :| id in todo;
        var page := ParsePage(data[id]);
        if page.None? {
          return None;
        }
        pages := pages[id := page.value];
        todo := todo - {id};
      }
      MapsAgree(pages, map id | id in data :: DecodePage(data[id]).value);
      r := Some(pages);
    }

    /** `_parse_state` for one export entry. */
    method ParseExport(data: Json) returns (r: Option<ExportState>)
      ensures r == DecodeExport(data)
    {
      if !data.JObject? {
        return None;
      }
      var pagesData := GetObject(data.fields, "pages");
      if pagesData.None? {
        return None;
      }
      var pages := ParsePages(pagesData.value);
      if pages.None? {
        return None;
      }
      r := ExportFields(data.fields, pages.value);
    }

    /** `_parse_state`'s outer loop: every export entry. */
    method ParseExports(data: map<string, Json>) returns (r: Option<map<string, ExportState>>)
      ensures r == DecodeExports(data)
    {
      var exports: map<string, ExportState> := map[];
      var todo := data.Keys;
      while todo != {}
        invariant todo <= data.Keys && exports.Keys == data.Keys - todo
        invariant forall name :: name in exports ==> DecodeExport(data[name]) == Some(exports[name])
        decreases |todo|
      {
        var name :| name in todo;
        var entry := ParseExport(data[name]);
        if entry.None? {
          return None;
        }
        exports := exports[name := entry.value];
        todo := todo - {name};
      }
      MapsAgree(exports, map name | name in data :: DecodeExport(data[name]).value);
      r := Some(exports);
    }

    /**
     * `_parse_state`: the cache read back from the state file's JSON, with
     * `1.0` and `""` for missing fields; `None` where the source raises.
     */
    method ParseState(data: Json) returns (r: Option<BuildState>)
      ensures r == DecodeState(data)
    {
      if !data.JObject? {
        return None;
      }
      var version := GetString(data.fields, "version", "1.0");
      var settingsHash := GetString(data.fields, "settings_hash", "");
      var exportsData := GetObject(data.fields, "exports");
      if version.None? || settingsHash.None? || exportsData.None? {
        return None;
      }
      var exports := ParseExports(exportsData.value);
      if exports.None? {
        return None;
      }
      r := Some(BuildState(version.value, settingsHash.value, exports.value));
    }

    /** `_save_state`'s inner loop: the JSON objects of an export's page records. */
    method SavePages(pages: map<string, PageState>) returns (data: map<string, Json>)
      ensures data == EncodePages(pages)
    {
      data := map[];
      var todo := pages.Keys;
      while todo != {}
        invariant todo <= pages.Keys && data.Keys == pages.Keys - todo
        invariant forall id :: id in data ==> data[id] == EncodePage(pages[id])
        decreases |todo|
      {
        var id :| id in todo;
        var p := pages[id];
        data := data[id := JObject(map[
          "title" := JString(p.title),
          "output_path" := JString(p.outputPath),
          "content_hash" := JString(p.contentHash),
          "converted_at" := JString(p.convertedAt)])];
        todo := todo - {id};
      }
      MapsAgree(data, EncodePages(pages));
    }

    /** `_save_state`: the JSON document written to the state file. */
    method SaveState() returns (data: Json)
      ensures data == EncodeState(state)
    {
      var exports: map<string, Json> := map[];
      var todo := state.exports.Keys;
      while todo != {}
        invariant todo <= state.exports.Keys && exports.Keys == state.exports.Keys - todo
        invariant forall name :: name in exports ==> exports[name] == EncodeExport(state.exports[name])
        decreases |todo|
      {
        var name :| name in todo;
        var e := state.exports[name];
        var pages := SavePages(e.pages);
        exports := exports[name := JObject(map[
          "source_path" := JString(e.sourcePath),
          "source_mtime" := JString(e.sourceMtime),
          "source_hash" := JString(e.sourceHash),
          "pages" := JObject(pages)])];
        todo := todo - {name};
      }
      MapsAgree(exports, EncodeExports(state.exports));
      data := JObject(map[
        "version" := JString(state.version),
        "settings_hash" := JString(state.settingsHash),
        "exports" := JObject(exports)]);
    }

    /** `clean`'s effect on the cache: back to the state of a fresh build. */
    method Clean()
      modifies this
      ensures state == DefaultState
    {
      state := DefaultState;
    }

    /** The write outcome for an output file: the message if writing it fails. */
    function WriteOutcome(writeErrors: map<string, string>, outputFile: string): Option<string> {
      if outputFile in writeErrors then Some(writeErrors[outputFile]) else None
    }

    /** The report of converting `page` and writing it to its output file. */
    function PlannedReport(page: PageNode, space: Space, convert: PageNode -> Result<ConversionResult>,
                           writeErrors: map<string, string>): PageConversionReport
    {
      PageReport(page, space, convert, WriteOutcome(writeErrors, OutputPath(settings, space, page)))
    }

    /** The reports of converting `pages` in order, each written to its output file. */
    function PlannedReports(pages: seq<PageNode>, space: Space, convert: PageNode -> Result<ConversionResult>,
                            writeErrors: map<string, string>): (r: seq<PageConversionReport>)
      ensures |r| == |pages|
      ensures forall i :: 0 <= i < |pages| ==> r[i] == PlannedReport(pages[i], space, convert, writeErrors)
    {
      seq(|pages|, i requires 0 <= i < |pages| => PlannedReport(pages[i], space, convert, writeErrors))
    }

    lemma PlannedReportsStep(pages: seq<PageNode>, i: nat, space: Space, convert: PageNode -> Result<ConversionResult>,
                             writeErrors: map<string, string>)
      requires i < |pages|
      ensures PlannedReports(pages[..i + 1], space, convert, writeErrors)
           == PlannedReports(pages[..i], space, convert, writeErrors)
              + [PlannedReport(pages[i], space, convert, writeErrors)]
    {
      assert pages[..i + 1][..i] == pages[..i];
    }

    /** The loop of `convert_export`: one report per selected page, and the two counters. */
    method ConvertPages(pages: seq<PageNode>, source: ConfluenceExport, writeErrors: map<string, string>)
      returns (reports: seq<PageConversionReport>, pagesConverted: int, pagesFailed: int)
      ensures reports == PlannedReports(pages, source.space, ConvertOf(source.pagesById), writeErrors)
      ensures pagesConverted == Converted(reports) && pagesFailed == FailedCount(reports)
      ensures pagesConverted + pagesFailed == |pages|
    {
      reports := [];
      pagesConverted, pagesFailed := 0, 0;
      for i := 0 to |pages|
        invariant reports == PlannedReports(pages[..i], source.space, ConvertOf(source.pagesById), writeErrors)
        invariant pagesConverted == Converted(reports) && pagesFailed == FailedCount(reports)
      {
        PlannedReportsStep(pages, i, source.space, ConvertOf(source.pagesById), writeErrors);
        var report := ConvertPage(pages[i], source, WriteOutcome(writeErrors, GetOutputPath(pages[i], source)));
        CountsAppend(reports, report);
        reports := reports + [report];
        if report.status == Failed {
          pagesFailed := pagesFailed + 1;
        } else {
          pagesConverted := pagesConverted + 1;
        }
      }
      assert pages[..|pages|] == pages;
      CountsCover(reports);
    }

    /**
     * `convert_export` on a parsed export: select, convert and count, then
     * update the cache and produce the state file's document. `writeErrors`
     * maps the output files whose writing fails to the message.
     */
    method ConvertExport(source: ConfluenceExport, force: bool, existing: set<string>,
                         writeErrors: map<string, string>, now: string)
      returns (result: BuildResult, saved: Json)
      modifies this
      ensures var selected := PagesToConvert(contentDigest, old(state), HashSettings(), PathName(source.path),
                                             source.pages, force, existing);
        && result.pageReports == PlannedReports(selected, source.space, ConvertOf(source.pagesById), writeErrors)
        && result.pagesConverted == Converted(result.pageReports)
        && result.pagesFailed == FailedCount(result.pageReports)
        && result.pagesConverted + result.pagesFailed == |selected|
        && result.pagesSkipped == |source.pagesById| - |selected|
      ensures state == UpdatedState(contentDigest, old(state), PathName(source.path), PathStr(ParsePath(source.path)),
                                    source.pagesById, result.pageReports, HashSettings(), now)
      ensures saved == EncodeState(state)
    {
      var pagesToConvert := DeterminePagesToConvert(source, force, existing);
      var reports, pagesConverted, pagesFailed := ConvertPages(pagesToConvert, source, writeErrors);
      UpdateState(source, reports, now);
      saved := SaveState();
      result := BuildResult(pagesConverted, |source.pagesById| - |pagesToConvert|, pagesFailed, reports);
    }
  }
}
