/**
 * The incremental build cache: one record per converted page, grouped by
 * export, plus the settings fingerprint of the last build. The state file
 * is JSON; here a JSON document is a `Json` value, and reading or writing
 * the file itself is outside this model.
 */
module Cache {
  import opened Base

  /** What the cache remembers about one converted page. */
  datatype PageState = PageState(title: string, outputPath: string, contentHash: string, convertedAt: string)

  /** What the cache remembers about one export; `pages` is keyed by page id. */
  datatype ExportState = ExportState(
    sourcePath: string,
    sourceMtime: string,
    sourceHash: string,
    pages: map<string, PageState>)

  /** The whole cache; `exports` is keyed by the export's file or directory name. */
  datatype BuildState = BuildState(version: string, settingsHash: string, exports: map<string, ExportState>)

  /** The state of a fresh build: version `1.0`, no fingerprint, no exports. */
  const DefaultState: BuildState := BuildState("1.0", "", map[])

  /**
   * A JSON value as far as the state file goes: strings and objects, and
   * everything else (numbers, lists, booleans, null) lumped together.
   */
  datatype Json = JString(s: string) | JObject(fields: map<string, Json>) | JOther

  /**
   * `obj.get(key, default)` for a string field. A field that is present but
   * not a string makes the state unreadable.
   */
  function GetString(obj: map<string, Json>, key: string, default: string): (r: Option<string>)
    ensures key !in obj ==> r == Some(default)
    ensures key in obj ==> (r.Some? <==> obj[key].JString?)
    ensures key in obj && r.Some? ==> r.value == obj[key].s
  {
    if key !in obj then Some(default)
    else if obj[key].JString? then Some(obj[key].s)
    else None
  }

  /** `obj.get(key, {})` for a field whose items are then iterated: anything but an object fails. */
  function GetObject(obj: map<string, Json>, key: string): (r: Option<map<string, Json>>)
    ensures key !in obj ==> r == Some(map[])
    ensures key in obj ==> (r.Some? <==> obj[key].JObject?)
    ensures key in obj && r.Some? ==> r.value == obj[key].fields
  {
    if key !in obj then Some(map[])
    else if obj[key].JObject? then Some(obj[key].fields)
    else None
  }

  // Serialising (`_save_state`)

  function EncodePage(p: PageState): Json {
    JObject(map[
      "title" := JString(p.title),
      "output_path" := JString(p.outputPath),
      "content_hash" := JString(p.contentHash),
      "converted_at" := JString(p.convertedAt)])
  }

  function EncodePages(pages: map<string, PageState>): map<string, Json> {
    map id | id in pages :: EncodePage(pages[id])
  }

  function EncodeExport(e: ExportState): Json {
    JObject(map[
      "source_path" := JString(e.sourcePath),
      "source_mtime" := JString(e.sourceMtime),
      "source_hash" := JString(e.sourceHash),
      "pages" := JObject(EncodePages(e.pages))])
  }

  function EncodeExports(exports: map<string, ExportState>): map<string, Json> {
    map name | name in exports :: EncodeExport(exports[name])
  }

  function EncodeState(s: BuildState): Json {
    JObject(map[
      "version" := JString(s.version),
      "settings_hash" := JString(s.settingsHash),
      "exports" := JObject(EncodeExports(s.exports))])
  }

  // Parsing (`_parse_state`); `None` where the source raises.

  function DecodePage(j: Json): Option<PageState> {
    if !j.JObject? then None
    else
      var title := GetString(j.fields, "title", "");
      var outputPath := GetString(j.fields, "output_path", "");
      var contentHash := GetString(j.fields, "content_hash", "");
      var convertedAt := GetString(j.fields, "converted_at", "");
      if title.Some? && outputPath.Some? && contentHash.Some? && convertedAt.Some? then
        Some(PageState(title.value, outputPath.value, contentHash.value, convertedAt.value))
      else None
  }

  /** Every entry must parse; the result keeps every key. */
  function DecodePages(m: map<string, Json>): (r: Option<map<string, PageState>>)
    ensures r.Some? <==> forall id :: id in m ==> DecodePage(m[id]).Some?
    ensures r.Some? ==> r.value.Keys == m.Keys
    ensures r.Some? ==> forall id :: id in m ==> r.value[id] == DecodePage(m[id]).value
  {
    if forall id :: id in m ==> DecodePage(m[id]).Some? then
      Some(map id | id in m :: DecodePage(m[id]).value)
    else None
  }

  /** The export's own fields, with the already parsed pages. */
  function ExportFields(fields: map<string, Json>, pages: map<string, PageState>): Option<ExportState> {
    var sourcePath := GetString(fields, "source_path", "");
    var sourceMtime := GetString(fields, "source_mtime", "");
    var sourceHash := GetString(fields, "source_hash", "");
    if sourcePath.Some? && sourceMtime.Some? && sourceHash.Some? then
      Some(ExportState(sourcePath.value, sourceMtime.value, sourceHash.value, pages))
    else None
  }

  function DecodeExport(j: Json): Option<ExportState> {
    if !j.JObject? then None
    else
      var pagesData := GetObject(j.fields, "pages");
      if pagesData.None? then None
      else
        var pages := DecodePages(pagesData.value);
        if pages.None? then None else ExportFields(j.fields, pages.value)
  }

  function DecodeExports(m: map<string, Json>): (r: Option<map<string, ExportState>>)
    ensures r.Some? <==> forall name :: name in m ==> DecodeExport(m[name]).Some?
    ensures r.Some? ==> r.value.Keys == m.Keys
    ensures r.Some? ==> forall name :: name in m ==> r.value[name] == DecodeExport(m[name]).value
  {
    if forall name :: name in m ==> DecodeExport(m[name]).Some? then
      Some(map name | name in m :: DecodeExport(m[name]).value)
    else None
  }

  function DecodeState(j: Json): Option<BuildState> {
    if !j.JObject? then None
    else
      var version := GetString(j.fields, "version", "1.0");
      var settingsHash := GetString(j.fields, "settings_hash", "");
      var exportsData := GetObject(j.fields, "exports");
      if version.None? || settingsHash.None? || exportsData.None? then None
      else
        var exports := DecodeExports(exportsData.value);
        if exports.None? then None else Some(BuildState(version.value, settingsHash.value, exports.value))
  }

  /**
   * `_load_state`: no state file gives the default state, and so does a file
   * that does not parse into a state.
   */
  function LoadState(stored: Option<Json>): (s: BuildState)
    ensures stored.None? ==> s == DefaultState
    ensures stored.Some? && DecodeState(stored.value).Some? ==> s == DecodeState(stored.value).value
    ensures stored.Some? && DecodeState(stored.value).None? ==> s == DefaultState
  {
    if stored.None? then DefaultState
    else
      match DecodeState(stored.value)
      case Some(s) => s
      case None => DefaultState
  }

  // Round trip

  /** Two maps with the same keys and the same value at each key are equal. */
  lemma MapsAgree<K, V>(a: map<K, V>, b: map<K, V>)
    requires a.Keys == b.Keys && forall k :: k in a ==> a[k] == b[k]
    ensures a == b
  {
  }

  lemma PageRoundTrip(p: PageState)
    ensures DecodePage(EncodePage(p)) == Some(p)
  {
    var f := EncodePage(p).fields;
    assert f["title"] == JString(p.title);
    assert f["output_path"] == JString(p.outputPath);
    assert f["content_hash"] == JString(p.contentHash);
    assert f["converted_at"] == JString(p.convertedAt);
  }

  lemma PagesRoundTrip(pages: map<string, PageState>)
    ensures DecodePages(EncodePages(pages)) == Some(pages)
  {
    var m := EncodePages(pages);
    forall id | id in m ensures DecodePage(m[id]) == Some(pages[id]) {
      PageRoundTrip(pages[id]);
    }
    var r := map id | id in m :: DecodePage(m[id]).value;
    MapsAgree(r, pages);
  }

  lemma ExportRoundTrip(e: ExportState)
    ensures DecodeExport(EncodeExport(e)) == Some(e)
  {
    var f := EncodeExport(e).fields;
    assert f["pages"] == JObject(EncodePages(e.pages));
    assert f["source_path"] == JString(e.sourcePath);
    assert f["source_mtime"] == JString(e.sourceMtime);
    assert f["source_hash"] == JString(e.sourceHash);
    PagesRoundTrip(e.pages);
  }

  lemma ExportsRoundTrip(exports: map<string, ExportState>)
    ensures DecodeExports(EncodeExports(exports)) == Some(exports)
  {
    var m := EncodeExports(exports);
    forall name | name in m ensures DecodeExport(m[name]) == Some(exports[name]) {
      ExportRoundTrip(exports[name]);
    }
    var r := map name | name in m :: DecodeExport(m[name]).value;
    MapsAgree(r, exports);
  }

  /** Saving then parsing gives back the same version, fingerprint, exports and page records. */
  lemma StateRoundTrip(s: BuildState)
    ensures DecodeState(EncodeState(s)) == Some(s)
    ensures LoadState(Some(EncodeState(s))) == s
  {
    var f := EncodeState(s).fields;
    assert f["version"] == JString(s.version);
    assert f["settings_hash"] == JString(s.settingsHash);
    assert f["exports"] == JObject(EncodeExports(s.exports));
    ExportsRoundTrip(s.exports);
  }

  /** An empty object is the default state; absent page fields read as empty strings. */
  lemma MissingFieldsDefault(pageFields: map<string, Json>)
    requires forall key :: key in pageFields ==> key !in {"title", "output_path", "content_hash", "converted_at"}
    ensures DecodeState(JObject(map[])) == Some(DefaultState)
    ensures DecodePage(JObject(pageFields)) == Some(PageState("", "", "", ""))
  {
  }

  /** A document that is not an object, or a non-object `exports`, falls back to the default state. */
  lemma MalformedFallsBack(j: Json)
    requires !j.JObject? || ("exports" in j.fields && !j.fields["exports"].JObject?)
    ensures LoadState(Some(j)) == DefaultState
  {
  }
}
