# confluence-to-markdown builder, modelled in Dafny

This project models the core of a converter that turns a Confluence HTML
export into a directory of Markdown files, and proves properties of that
model. It covers three parts of the program:

- **The export model** (`export_parser.py`): a parsed export holds a space,
  its pages in the order they were found, and an index of the pages by id.
  Each page has a content hash, and each export has a cleaned page title and
  a space name.
- **The Markdown renderer** (`converter.py`): `MarkdownConverter` walks the
  parsed storage-format tree of a page. It keeps the heading path, drops the
  sections whose path matches an exclusion pattern, and renders each node
  kind: headings, paragraphs, text effects, lists, tables, links, images and
  the code, panel and expand macros. Unknown macros are recorded. Internal
  links become titles or, in the corrected model, relative paths (as the
  code is written, resolving a relative link raises; see "Findings"), and
  missing targets are reported as warnings. The result is stripped and preceded by YAML front matter.
- **The incremental builder** (`builder.py`): `ConversionBuilder` keeps a
  build state of page records grouped by export, plus a fingerprint of the
  settings. It uses the state to choose which pages to convert, converts
  them, counts successes and failures, records the converted pages, and saves
  and reloads the state as JSON.

Each module of the Dafny project follows one part of the program:

| file | module | models |
|---|---|---|
| `base.dfy` | `Base` | `Option` and `Result` (a `Result` error stands for a raised exception) |
| `strings.dfy` | `Strings` | `split`, `join`, `strip`, `lower`, `title` and friends on `seq<char>` |
| `paths.dfy` | `Paths` | the part of `PurePosixPath` the builder uses: parsing, `/`, `str()` and `.name` |
| `slug.dfy` | `Slug` | the five-step kebab-case slug that all three files define identically |
| `export.dfy` | `ExportModel` | `Space`, `PageNode`, `ConfluenceExport`, the title and space-name rules |
| `config.dfy` | `Config` | the settings the core reads, and the settings fingerprint |
| `nodes.dfy` | `Nodes` | the parsed node tree, heading levels, `_get_node_text` |
| `links.dfy` | `Links` | relative paths between pages and internal link rendering |
| `render.dfy` | `Rendering` | the Markdown of every node kind, as pure functions |
| `sections.dfy` | `Sections` | the walk of `_convert_document`: heading path, exclusion, skip level |
| `conversion.dfy` | `Conversion` | front matter and `convert`, as pure functions |
| `converter.dfy` | `Converter` | the `MarkdownConverter` and `ConversionContext` classes, each loop a method proved against the functions above |
| `cache.dfy` | `Cache` | `PageState`, `ExportState`, `BuildState` and their JSON form |
| `incremental.dfy` | `Incremental` | page selection, output paths, reports, counts and the state update, as functions |
| `builder.dfy` | `Builder` | the `ConversionBuilder` class, whose `state` field its methods update |

Outside collaborators appear as parameters:

- the content parser: `string -> Result<Document>`;
- the glob matcher `fnmatch`: `(string, string) -> bool`;
- the page path that `_calculate_relative_path` needs: `PageNode -> string`;
- SHA-256 of a body: `string -> string`;
- the settings digest: `Fingerprint -> string`;
- the files that exist on disk: a `set<string>`;
- the writes that fail: a map from output path to error message;
- the clock: one timestamp string.

Four behaviours of the code are modelled as written and are worth knowing:

- `_build_frontmatter` reads `created_date`, `modified_date` and `labels`,
  which `PageNode` lacks. Asking for any of them therefore raises. The model
  returns `Err`, and `_convert_page` then reports the page as failed.
- The settings hash covers only `exclude_pages`, `include_frontmatter` and
  `filename_style`. Changing a render-only setting does not cause a rebuild
  (`Config.HashIgnoresRenderSettings`). `exclude_pages` is hashed but never
  read.
- A link to an ancestor page produces a path ending in `.md` with an empty
  file name: the last `..` slugifies to nothing (`Links.AncestorLink`).
- With `filename_style: preserve`, a title that starts with `/` is an
  absolute path, so `/` discards the exports directory and the page is
  written outside it (`Incremental.AbsoluteTitleEscapes`).

## Model

| member | source | states |
|---|---|---|
| Strings.Split | src/confluence_to_markdown/converter.py:398-399 | `str.split(c)` gives at least one piece, and no piece contains the separator |
| Strings.JoinSplit | src/confluence_to_markdown/converter.py:304-305 | joining the pieces of a split with the same separator gives back the string |
| Strings.SplitNoSeparator | src/confluence_to_markdown/converter.py:454-455 | a string without the separator splits into itself alone |
| Strings.LStrip | src/confluence_to_markdown/converter.py:97 | left strip removes exactly the leading whitespace: a suffix, starting with a non-space, preceded only by spaces |
| Strings.RStrip | src/confluence_to_markdown/converter.py:97 | right strip removes exactly the trailing whitespace: a prefix, ending in a non-space, followed only by spaces |
| Strings.StripEnds | src/confluence_to_markdown/converter.py:97 | a stripped string has no whitespace at either end |
| Strings.StripEmpty | src/confluence_to_markdown/converter.py:68 | `s.strip()` is empty exactly when every character of `s` is whitespace |
| Strings.LStripChars | src/confluence_to_markdown/converter.py:456 | `lstrip(chars)` gives a suffix that does not start with one of the characters, and everything it removed is one of them |
| Strings.StripCharShape | src/confluence_to_markdown/converter.py:427 | `strip("-")` removes only `-` characters, from the two ends, and leaves a substring with no `-` at either end |
| Strings.Lower | src/confluence_to_markdown/converter.py:423 | `lower()` keeps the length and lower-cases each character in place |
| Strings.LowerChar | src/confluence_to_markdown/converter.py:423 | `lower()` maps an upper-case letter to the lower-case letter at the same alphabet position and leaves every other character as it is |
| Strings.UpperChar | src/confluence_to_markdown/converter.py:452 | `upper()` maps a lower-case letter to the upper-case letter at the same alphabet position and leaves every other character as it is |
| Strings.TitleFrom | src/confluence_to_markdown/converter.py:452 | `title()` keeps the length; a letter after a letter is lower-cased, any other letter upper-cased, and every other character kept |
| Strings.Repeat | src/confluence_to_markdown/converter.py:411 | `[x] * n` (and `c * n`) has `max(n, 0)` entries, all `x` |
| Strings.NatToString | src/confluence_to_markdown/converter.py:314-318 | an item number prints as digits whose decimal value is the number, with no leading zero |
| Strings.BeforeFirst | src/confluence_to_markdown/export_parser.py:173-174 | `split(sep)[0]` is the prefix up to the first occurrence of the separator, and the whole string when the separator is absent |
| Slug.SlugShape | src/confluence_to_markdown/converter.py:421-427 | a slug contains only lower-case letters, digits and `-`, never `--`, and no `-` at either end |
| Slug.SlugIdempotent | src/confluence_to_markdown/builder.py:288-296 | slugifying a slug changes nothing |
| Slug.SlugFixed | src/confluence_to_markdown/export_parser.py:229-235 | every string of slug shape is its own slug |
| Slug.KeepShape | src/confluence_to_markdown/converter.py:424 | dropping non-word characters leaves only word characters, whitespace and `-`, and adds no capitals |
| Slug.SpaceRunsShape | src/confluence_to_markdown/converter.py:425 | after runs of whitespace and `_` become `-`, only slug characters remain |
| Slug.CollapseShape | src/confluence_to_markdown/converter.py:426 | collapsing runs of `-` leaves no `--` and keeps slug characters |
| Slug.StrippedShape | src/confluence_to_markdown/converter.py:427 | stripping `-` from a collapsed string gives the slug shape |
| Slug.KeepFixed | src/confluence_to_markdown/converter.py:424 | the filter keeps a string of slug characters unchanged |
| Slug.SpaceRunsFixed | src/confluence_to_markdown/converter.py:425 | a string of slug characters has no runs to replace |
| Slug.SlugKeepsAlnum | src/confluence_to_markdown/converter.py:421-427 | the slug keeps every lower-cased letter and digit of the text, in order, and adds none |
| Slug.SlugOfWords | src/confluence_to_markdown/builder.py:288-296 | words of letters and digits separated by single spaces slugify to the lower-cased words joined by `-` |
| Slug.SlugPunctuated | src/confluence_to_markdown/builder.py:288-296 | punctuation between two words is dropped and the words are joined directly |
| Slug.HelloWorldSlug | tests/test_builder.py:85 | `Hello World` slugifies to `hello-world` |
| Slug.ArchitectureOverviewSlug | src/confluence_to_markdown/converter.py:421-428 | `Architecture Overview` slugifies to `architecture-overview` |
| Slug.MyPageTitleSlug | tests/test_builder.py:86 | `My Page Title` slugifies to `my-page-title` |
| Slug.PunctuationSlug | tests/test_builder.py:87 | `Test!@#Page` slugifies to `testpage` |
| Slug.CollapseFixed | src/confluence_to_markdown/converter.py:426 | a string without `--` has nothing to collapse |
| ExportModel.ContentHashOfBody | src/confluence_to_markdown/export_parser.py:34-37 | the content hash depends on the body alone |
| ExportModel.IndexKeys | src/confluence_to_markdown/export_parser.py:49-51 | the id index has a key for every page id and no other |
| ExportModel.IndexValues | src/confluence_to_markdown/export_parser.py:49-51 | every index entry is one of the pages, stored under its own id |
| ExportModel.IndexLaterWins | src/confluence_to_markdown/export_parser.py:51 | for a duplicated id the last page in the list wins |
| ExportModel.ConfluenceExport.constructor | src/confluence_to_markdown/export_parser.py:40-51 | `__post_init__` builds the index from the page list, which stays as given |
| ExportModel.ConfluenceExport.WalkPages | src/confluence_to_markdown/export_parser.py:53-55 | the walk yields every page, in list order |
| ExportModel.ConfluenceExport.AllPages | src/confluence_to_markdown/export_parser.py:57-60 | `all_pages` is the list the walk yields |
| ExportModel.WalkMatchesIndex | src/confluence_to_markdown/export_parser.py:49-60 | every walked page is indexed, and every indexed page is walked |
| ExportModel.ExtractSpaceName | src/confluence_to_markdown/export_parser.py:212-221 | a space name exists exactly when the page sits below a directory, and it is the first component |
| ExportModel.SpaceOf | src/confluence_to_markdown/export_parser.py:123-127 | key and name are equal: the extracted name when non-empty, else the directory name |
| ExportModel.ExtractTitle | src/confluence_to_markdown/export_parser.py:166-186 | the cleaned `<title>` when non-empty, else the non-empty `<h1>` text, else the file stem |
| ExportModel.CleanTitleShape | src/confluence_to_markdown/export_parser.py:170-176 | a cleaned title contains no `" - "` and has no surrounding whitespace |
| ExportModel.CleanTitleIdempotent | src/confluence_to_markdown/export_parser.py:171-174 | cleaning a cleaned title changes nothing |
| Config.FingerprintOf | src/confluence_to_markdown/builder.py:398-406 | the fingerprint holds exactly `exclude_pages`, `include_frontmatter` and `filename_style` |
| Config.HashIgnoresRenderSettings | src/confluence_to_markdown/builder.py:395-408 | settings that agree on those three fields hash alike |
| Nodes.Level | src/confluence_to_markdown/converter.py:187-197 | a heading level is between 1 and 6 |
| Nodes.NodeTextIsLeaves | src/confluence_to_markdown/converter.py:199-209 | a node's text is the concatenation of its text leaves, left to right |
| Nodes.ChildrenTextIsLeaves | src/confluence_to_markdown/converter.py:204-209 | the text of the first `k` children is the concatenation of their leaves |
| Links.CommonPrefix | src/confluence_to_markdown/converter.py:401-407 | the loop result is the longest common prefix: both agree up to it and differ at it |
| Links.CommonPrefixUnique | src/confluence_to_markdown/converter.py:401-407 | any length with those two properties is that result |
| Links.RelParts | src/confluence_to_markdown/converter.py:409-417 | a relative path has at least one component |
| Links.RelPartsRenamed | src/confluence_to_markdown/converter.py:413-415 | when there are parts, only the last one changes: it is slugified and given `.md` |
| Links.RelPartsShape | src/confluence_to_markdown/converter.py:409-417 | one `..` per directory left, then the rest of the target, whose last component becomes `slug.md` |
| Links.RawRelPartsReachTarget | src/confluence_to_markdown/converter.py:409-411 | before renaming, resolving the relative parts from the source directory reaches the target path |
| Links.SlugOfDots | src/confluence_to_markdown/converter.py:415 | `..` slugifies to the empty string |
| Links.AncestorRawParts | src/confluence_to_markdown/converter.py:409-411 | for a target above the source directory, the parts are only `..` |
| Links.AncestorLink | src/confluence_to_markdown/converter.py:409-415 | such a link ends in a bare `.md` |
| Links.DotsSegmentName | src/confluence_to_markdown/converter.py:414-415 | a last part `..` is renamed to `.md` |
| Links.ParentLink | src/confluence_to_markdown/converter.py:414-417 | a target path equal to the source directory gives the target title's slug |
| Links.SiblingSectionExample | src/confluence_to_markdown/converter.py:394-419 | from `Home/Getting Started` to `Home/Architecture Overview` the joined path is `../architecture-overview.md` |
| Links.SiblingSectionParts | src/confluence_to_markdown/converter.py:394-419 | the same example segment by segment: `..`, then `architecture-overview.md` |
| Links.Target | src/confluence_to_markdown/converter.py:372-374 | a link target is found exactly when the page id is non-empty and indexed, and it is the indexed page |
| Links.InternalLink | src/confluence_to_markdown/converter.py:359-392 | title-only style gives `[title]`; a missing target gives one warning and the configured fallback; a found target under the relative style gives `[text or target title](relative path)` and no warning |
| Links.AsWrittenFailsOnResolvedLinks | src/confluence_to_markdown/converter.py:376-399 | as written, the lookup of the source page's `path` raises exactly when relative style finds the target; otherwise it agrees with the corrected link |
| Rendering.RenderAttemptAgrees | src/confluence_to_markdown/converter.py:211-283 | as written, rendering a node raises exactly when it reaches a resolved relative link, directly, in a paragraph or in a fragment; otherwise it gives the corrected rendering |
| Rendering.FragmentAttemptAgrees | src/confluence_to_markdown/converter.py:249-256 | a fragment raises exactly when one of its children does; otherwise it gives the corrected fragment |
| Rendering.TextBreakAttemptAgrees | src/confluence_to_markdown/converter.py:269-283 | a paragraph raises exactly when one of its children is a resolved relative link; otherwise it gives the corrected paragraph |
| Sections.StepAttemptAgrees | src/confluence_to_markdown/converter.py:145-173 | as written, one iteration raises exactly when it renders a node that raises; otherwise it is the as-written step |
| Sections.RunAttemptAgrees | src/confluence_to_markdown/converter.py:145-173 | as written, the walk raises exactly when some rendered node reaches a resolved relative link; otherwise it ends where the as-written walk ends |
| Conversion.BodyAsWritten | src/confluence_to_markdown/converter.py:64-84 | as written, a parsed body falls back to the raw body behind a `Parse error` comment, with that warning last, exactly when the walk raises; otherwise it is the walk's output |
| Conversion.FirstLinkFallsBack | src/confluence_to_markdown/converter.py:64-84 | as written, a body that starts with a link to a page of the export falls back to the raw body under the relative style |
| Incremental.AsWrittenLinkPagePartial | src/confluence_to_markdown/builder.py:237-276 | as written, such a page is reported `partial`, its last warning the `Parse error` naming the missing `path` attribute |
| Links.LinkOut | src/confluence_to_markdown/converter.py:343-357 | a link with a page id or title is the internal link of its text; otherwise `[text](url or href)` when it has an address, else its text, with no warning |
| Rendering.QuoteLines | src/confluence_to_markdown/converter.py:304-305 | every line gets a `> ` prefix, and no line is added or lost |
| Rendering.BlockquoteLines | src/confluence_to_markdown/converter.py:303-305 | removing the `> ` prefixes gives back the quoted text |
| Rendering.ListNumbering | src/confluence_to_markdown/converter.py:309-322 | one line per list item; the item at child index `k` is line number `k + 1`, counting children that are not items |
| Rendering.TableShape | src/confluence_to_markdown/converter.py:324-341 | one line per row, plus a `---` separator after the first row when child 0 is a row |
| Rendering.HeadingShape | src/confluence_to_markdown/converter.py:213-216 | a heading is `min(level, max)` `#`s, a space and its text |
| Rendering.UnknownMacroRecorded | src/confluence_to_markdown/converter.py:258-264 | an unknown macro is recorded once and raises no warning; its Markdown follows the handling mode |
| Rendering.LinkWarnings | src/confluence_to_markdown/converter.py:384-385 | a link raises at most one warning, and it is a missing-target warning |
| Rendering.WarningsAreMissingLinks | src/confluence_to_markdown/converter.py:211-267 | every warning a node produces is a missing-link warning |
| Rendering.FragmentWarnings | src/confluence_to_markdown/converter.py:249-256 | the same holds for a fragment's children |
| Rendering.TextBreakWarnings | src/confluence_to_markdown/converter.py:269-283 | the same holds for a paragraph, which records no macros |
| Sections.Truncate | src/confluence_to_markdown/converter.py:156-157 | popping keeps a prefix of at most `level - 1` entries, and keeps a shorter path whole |
| Sections.HeadingPathStep | src/confluence_to_markdown/converter.py:155-158 | after a heading, the path ends in its text, is at most its level long, and keeps the earlier prefix |
| Sections.PathBound | src/confluence_to_markdown/converter.py:145-158 | the heading path never grows beyond six entries |
| Sections.RunConcat | src/confluence_to_markdown/converter.py:145-173 | walking two node lists in turn is walking their concatenation |
| Sections.SkipHolds | src/confluence_to_markdown/converter.py:166-168 | while skipping, deeper headings and other nodes emit nothing and keep the skip level |
| Sections.ResumeAndRecheck | src/confluence_to_markdown/converter.py:151-164 | a heading at or above the skip level ends the skip, and is itself excluded or emitted |
| Sections.SkippedEntry | src/confluence_to_markdown/converter.py:160-164 | an excluded heading adds its joined path to `skipped_sections` and emits nothing |
| Sections.NoHeadingsNoSkips | src/confluence_to_markdown/converter.py:145-175 | without headings nothing is skipped and every non-empty rendering is emitted in order |
| Sections.ExcludedStep | src/confluence_to_markdown/converter.py:160-164 | an excluded heading emits nothing and keeps an enclosing skip level |
| Sections.AsWrittenExcludedStep | src/confluence_to_markdown/converter.py:160-164 | as written, an excluded heading sets the skip level to its own level |
| Sections.StepsAgreeOutsideNestedExclusion | src/confluence_to_markdown/converter.py:151-164 | the as-written and the corrected step differ only for an excluded heading inside a skipped section |
| Sections.NestedExclusionLeaks | src/confluence_to_markdown/converter.py:151-164 | excluding `Internal` and `Internal/Notes`: as written, `## Summary` under `# Internal` is emitted; corrected, it is not |
| Sections.ExampleAsWritten | src/confluence_to_markdown/converter.py:151-164 | step by step, the as-written walk of that example emits `## Summary` |
| Sections.ExampleCorrected | src/confluence_to_markdown/converter.py:151-164 | step by step, the corrected walk of that example emits nothing |
| Conversion.BuildFrontmatter | src/confluence_to_markdown/converter.py:104-118 | raises exactly when a date or labels field is requested; otherwise it holds the title exactly when `title` is requested |
| Conversion.TitleFrontmatter | src/confluence_to_markdown/converter.py:120-133 | the title-only front matter is `---`, one `title:` line (quoted when it holds `:` or a newline) and `---` |
| Conversion.ConvertFailsOnlyOnMissingFields | src/confluence_to_markdown/converter.py:86-89 | `convert` raises exactly when front matter is on and asks for an attribute pages lack |
| Conversion.StrippedLine | src/confluence_to_markdown/converter.py:97 | stripped text plus a newline ends in exactly one newline |
| Conversion.AssembledEndsWithOneNewline | src/confluence_to_markdown/converter.py:91-102 | with or without front matter, the result ends in exactly one newline |
| Conversion.EndsWithOneNewline | src/confluence_to_markdown/converter.py:54-102 | every successful conversion ends in exactly one newline |
| Conversion.BlankBody | src/confluence_to_markdown/converter.py:68-69 | a blank body converts to nothing, with no warnings |
| Conversion.EmptyPage | src/confluence_to_markdown/converter.py:91-102 | a blank body without a title entry gives the Markdown `"\n"` |
| Conversion.ParseErrorFallback | src/confluence_to_markdown/converter.py:82-84 | a parse error gives one `Parse error` warning and the raw body behind a comment |
| Converter.ConversionContext.constructor | src/confluence_to_markdown/converter.py:479-488 | a context starts with empty warning, skipped-section and macro lists |
| Converter.MarkdownConverter.constructor | src/confluence_to_markdown/converter.py:50-52 | the converter keeps its settings and parser |
| Converter.MarkdownConverter.ShouldSkipSection | src/confluence_to_markdown/converter.py:177-185 | true exactly when some exclusion pattern matches the `/`-joined heading path |
| Converter.MarkdownConverter.CalculateRelativePath | src/confluence_to_markdown/converter.py:394-419 | the loop computes the relative path function |
| Converter.MarkdownConverter.ConvertInternalLink | src/confluence_to_markdown/converter.py:359-392 | gives the internal link's Markdown and appends its warnings to the context |
| Converter.MarkdownConverter.ConvertLink | src/confluence_to_markdown/converter.py:343-357 | gives the link's Markdown and appends its warnings |
| Converter.MarkdownConverter.ConvertTextElement | src/confluence_to_markdown/converter.py:269-283 | the loop concatenates the children's inline renderings and appends their warnings |
| Converter.MarkdownConverter.ConvertList | src/confluence_to_markdown/converter.py:309-322 | the loop produces the numbered or bulleted list |
| Converter.MarkdownConverter.ConvertTable | src/confluence_to_markdown/converter.py:324-341 | the loop produces the table with its header separator |
| Converter.MarkdownConverter.ConvertNode | src/confluence_to_markdown/converter.py:211-267 | any node's Markdown, with its warnings and macros appended to the context and no sections skipped |
| Converter.MarkdownConverter.ConvertLeaf | src/confluence_to_markdown/converter.py:213-247 | headings, text, effects, lists, tables, images, code, panels and expands add no warnings or macros |
| Converter.MarkdownConverter.ConvertFragment | src/confluence_to_markdown/converter.py:249-256 | the children's non-empty renderings, separated by blank lines |
| Converter.MarkdownConverter.PopToLevel | src/confluence_to_markdown/converter.py:156-157 | the pop loop truncates the heading path |
| Converter.MarkdownConverter.EnterHeading | src/confluence_to_markdown/converter.py:147-164 | the new path, the exclusion decision, the skip level (enclosing one kept) and the skipped-section record |
| Converter.MarkdownConverter.DocumentStep | src/confluence_to_markdown/converter.py:145-173 | one iteration of the walk is one step of the walk function |
| Converter.MarkdownConverter.ConvertDocument | src/confluence_to_markdown/converter.py:135-175 | the walk's Markdown, warnings, skipped sections and macros are those of the document function |
| Converter.MarkdownConverter.AppendBullets | src/confluence_to_markdown/converter.py:124-127 | a list value appends one `  - item` line per item |
| Converter.MarkdownConverter.FormatFrontmatter | src/confluence_to_markdown/converter.py:120-133 | the loop builds the YAML block of the front matter function |
| Converter.MarkdownConverter.ConvertBody | src/confluence_to_markdown/converter.py:64-84 | blank body, parse error and parsed body give the body function's result |
| Converter.MarkdownConverter.ConvertParsed | src/confluence_to_markdown/converter.py:71-81 | a parsed document converted in a fresh context gives that context's lists |
| Converter.MarkdownConverter.Convert | src/confluence_to_markdown/converter.py:54-102 | `convert` computes the conversion function, including its failure |
| Cache.GetString | src/confluence_to_markdown/builder.py:345-346 | `get(key, default)`: the default when absent, the string when present, a failure for a non-string |
| Cache.GetObject | src/confluence_to_markdown/builder.py:349-351 | `get(key, {})` for an object field: empty when absent, a failure for a non-object |
| Cache.DecodePages | src/confluence_to_markdown/builder.py:351-357 | the page records parse exactly when every entry parses; every key is kept, holding the decoding of its own entry |
| Cache.DecodeExports | src/confluence_to_markdown/builder.py:349-364 | the exports parse exactly when every entry parses; every key is kept, holding the decoding of its own entry |
| Cache.LoadState | src/confluence_to_markdown/builder.py:329-340 | a missing or unparsable state file gives the default state; otherwise the parsed state |
| Cache.PageRoundTrip | src/confluence_to_markdown/builder.py:352-384 | a saved page record parses back to itself |
| Cache.PagesRoundTrip | src/confluence_to_markdown/builder.py:351-384 | saved page records parse back to the same map |
| Cache.ExportRoundTrip | src/confluence_to_markdown/builder.py:359-391 | a saved export record parses back to itself |
| Cache.ExportsRoundTrip | src/confluence_to_markdown/builder.py:349-391 | saved export records parse back to the same map |
| Cache.StateRoundTrip | src/confluence_to_markdown/builder.py:342-393 | saving then loading the state gives back the same state |
| Cache.MissingFieldsDefault | src/confluence_to_markdown/builder.py:344-357 | an empty document is the default state, and missing page fields read as empty strings |
| Cache.MalformedFallsBack | src/confluence_to_markdown/builder.py:335-340 | a document that is not an object, or has non-object `exports`, loads as the default state |
| Incremental.Stale | src/confluence_to_markdown/builder.py:198-226 | the selection is no longer than the page list |
| Incremental.StaleConcat | src/confluence_to_markdown/builder.py:198-226 | selecting from `a + b` selects from `a`, then from `b`: the selection keeps the order of `walk_pages` |
| Incremental.StaleSingle | src/confluence_to_markdown/builder.py:209-224 | one page is selected exactly when it needs conversion |
| Incremental.StaleMembers | src/confluence_to_markdown/builder.py:198-224 | a page is selected exactly when it is listed and forced, new, missing its output or changed |
| Incremental.StaleAll | src/confluence_to_markdown/builder.py:198-226 | when every page needs conversion, all are selected in order |
| Incremental.StaleNone | src/confluence_to_markdown/builder.py:198-226 | when no page needs conversion, none is selected |
| Incremental.SettingsChangeRebuildsAll | src/confluence_to_markdown/builder.py:189-193 | a settings hash that differs from the stored one selects every page |
| Incremental.ForceRebuildsAll | src/confluence_to_markdown/builder.py:202-204 | `force` selects every page |
| Incremental.SelectedIff | src/confluence_to_markdown/builder.py:195-226 | with unchanged settings, a page is selected exactly when it needs conversion against this export's records |
| Incremental.UnchangedExportConvertsNothing | src/confluence_to_markdown/builder.py:205-224 | when every page is recorded with an existing output and its current hash, nothing is selected |
| Paths.ParsePath | src/confluence_to_markdown/builder.py:286 | `PurePosixPath(s)`: no root without a leading `/`; root `//` exactly when `s` starts with two slashes and no third; `/` otherwise; the parts are the kept segments of `s` split at `/`, never empty, never `.`, holding no `/` |
| Paths.ComponentsConcat | src/confluence_to_markdown/builder.py:286 | the kept segments of `a + b` are those of `a` followed by those of `b`, so parsing keeps the segments' order |
| Paths.ComponentsSingle | src/confluence_to_markdown/builder.py:286 | one segment is kept exactly when it is neither empty nor `.` |
| Paths.ComponentsLast | src/confluence_to_markdown/builder.py:286 | parsing keeps no part exactly when every segment is empty or `.`; otherwise the last part is the last such segment kept |
| Paths.Div | src/confluence_to_markdown/builder.py:286 | `path / b`: an absolute `b` replaces the path; a relative one appends its parts |
| Paths.PathName | src/confluence_to_markdown/builder.py:195 | `.name`: the last segment that is neither empty nor `.`, without `/`, and `""` exactly when there is none |
| Paths.SplitAppend | src/confluence_to_markdown/builder.py:286 | appending text without `/` to a path string only extends its last segment |
| Paths.MarkdownName | src/confluence_to_markdown/builder.py:286 | the file name `f"{filename}.md"` parses to parts whose last one ends in `.md` |
| Incremental.SlugifiedStaysInside | src/confluence_to_markdown/builder.py:278-286 | with slugified names and a relative space key, the output is the exports directory, then the key's parts, then `slug.md` |
| Incremental.AbsoluteTitleEscapes | src/confluence_to_markdown/builder.py:283-286 | with titles kept as they are, a title starting with `/` discards the exports directory and the key |
| Incremental.AbsoluteTitleExample | src/confluence_to_markdown/builder.py:283-286 | the title `/notes` is written to `/notes.md` |
| Incremental.SameTitleSameFile | src/confluence_to_markdown/builder.py:278-286 | the layout is flat, so two pages with the same title share one output file |
| Incremental.OutputPathIsMarkdown | src/confluence_to_markdown/builder.py:286 | every output path ends in `.md`, whatever the title, key and directory |
| Incremental.ReportFor | src/confluence_to_markdown/builder.py:237-276 | failed exactly when conversion or writing raises; otherwise partial exactly when there are warnings; a failure's one error is the conversion's error message, or else the write's |
| Incremental.CountsAppend | src/confluence_to_markdown/builder.py:120-127 | each report adds one to exactly one of the two counters |
| Incremental.CountsCover | src/confluence_to_markdown/builder.py:116-127 | converted plus failed equals the number of reports |
| Incremental.UpdateFrame | src/confluence_to_markdown/builder.py:298-327 | the update stores the new settings hash, adds this export if absent, and leaves other exports and the export's own fields alone |
| Incremental.UnreportedKept | src/confluence_to_markdown/builder.py:314-324 | a page without a successful report keeps its old record, or stays absent |
| Incremental.ReportedRecorded | src/confluence_to_markdown/builder.py:314-324 | a page's last successful report records its title, output file, content hash and time |
| Incremental.RecordedPageUpToDate | src/confluence_to_markdown/builder.py:298-327 | once recorded, a page whose output exists is up to date and is not selected by the next unforced build |
| Builder.ConversionBuilder.constructor | src/confluence_to_markdown/builder.py:79-83 | the builder starts from the loaded state |
| Builder.ConversionBuilder.DeterminePagesToConvert | src/confluence_to_markdown/builder.py:183-226 | the loop computes the selection function |
| Builder.ConversionBuilder.ConvertPage | src/confluence_to_markdown/builder.py:228-276 | the report of converting and writing one page |
| Builder.ConversionBuilder.UpdateState | src/confluence_to_markdown/builder.py:298-327 | the new state is the update function of the old, with the export's path recorded as `str()` of its parsed path |
| Builder.ConversionBuilder.RecordPages | src/confluence_to_markdown/builder.py:314-324 | the loop records exactly the pages of the successful reports, as the record update function does; by `Incremental.UnreportedKept` and `Incremental.ReportedRecorded` no other record changes |
| Builder.ConversionBuilder.ParsePage | src/confluence_to_markdown/builder.py:352-357 | parses one page record |
| Builder.ConversionBuilder.ParsePages | src/confluence_to_markdown/builder.py:351-357 | the loop parses every page record |
| Builder.ConversionBuilder.ParseExport | src/confluence_to_markdown/builder.py:350-364 | parses one export record |
| Builder.ConversionBuilder.ParseExports | src/confluence_to_markdown/builder.py:349-364 | the loop parses every export record |
| Builder.ConversionBuilder.ParseState | src/confluence_to_markdown/builder.py:342-366 | the loop-based parser gives the state decoder's result: defaults for missing fields, every export and page, or failure |
| Builder.ConversionBuilder.SavePages | src/confluence_to_markdown/builder.py:377-384 | the loop serialises every page record |
| Builder.ConversionBuilder.SaveState | src/confluence_to_markdown/builder.py:368-393 | `_save_state` serialises the current state; by `Cache.StateRoundTrip` it loads back unchanged |
| Builder.ConversionBuilder.Clean | src/confluence_to_markdown/builder.py:178 | the state is reset to the default |
| Builder.ConversionBuilder.PlannedReports | src/confluence_to_markdown/builder.py:120-122 | one report per selected page, in order |
| Builder.ConversionBuilder.ConvertPages | src/confluence_to_markdown/builder.py:116-127 | the loop produces the planned reports, and the counters count them and add up to the number of pages |
| Builder.ConversionBuilder.ConvertExport | src/confluence_to_markdown/builder.py:85-146 | reports for exactly the selected pages; counts; skipped is indexed pages minus selected; the state is updated and saved |

## Left out

- Reading HTML, ZIP archives and directories (`parse`, `_parse_zip`,
  `_parse_directory`, `_parse_html_file`, `_extract_body`) is I/O and
  third-party parsing. The export is given already parsed.
  `_extract_title` and `_extract_space_name` are modelled on the values the
  HTML and the path yield.
- `_generate_id` is an MD5 digest of the resolved path; ids are given.
- SHA-256, MD5, `json.dumps` and `fnmatch` are foreign code. They appear as
  function parameters, so the model proves nothing about collisions or glob
  syntax.
- The storage-format parser (`ConfluenceParser`) is a parameter. Its node
  classes are a closed datatype; an unlisted node type is `Macro` when its
  name contains "Macro" and `Other` otherwise.
- Character classes are ASCII: `lower()`, `title()`, `\w` and `\s` do not
  cover the rest of Unicode.
- File writes, directory creation, deletion and `Path.exists` are modelled
  as a set of existing paths and a map of failing writes. A write that
  fails is a failed report, as in the source.
- Time: `conversion_time_ms` and `total_time_ms` are left out, and
  `datetime.now()` is one timestamp per build.
- Logging is left out.
- `get_status` only reads the file system and the state's keys; it is left
  out.
- Loading settings from YAML is left out; a `Settings` value is given whole.
- `Settings` is modelled with the fields converter.py reads:
  `exclude_sections` (converter.py:182), `content.links.internal_link_style`
  and `content.links.missing_page_links` (converter.py:366, 384) and
  `content.unknown_macro_handling` (converter.py:468). The `Settings`
  dataclass of config.py:37-46 defines none of them, so with that class a
  page with a top-level heading, an internal link (one with a page id or
  title) or an unknown macro raises `AttributeError`,
  and `convert` falls back to the `Parse error` output (converter.py:82-84).
  The model does not capture that fallback; it assumes settings objects
  that carry those fields.
- Builder.ConversionBuilder.Clean: models only the reset of the state. It
  does not model deleting the generated files and the state file, or the
  count of removed files it returns.
- Cache.GetString: a present field that is not a string counts as
  unparsable, where the source's `.get(key, "")` keeps the raw value.
- Cache.DecodeState: a present field that is not a string (or, for
  `pages` and `exports`, not an object) counts as unparsable, and the state
  falls back to the default. The source would store the raw value or raise
  later.
- `Path.resolve`, `..` collapsing and symbolic links are not modelled:
  `PurePosixPath` keeps `..` as a part, and so does the model.
- Builder.ConversionBuilder.ConvertExport: `pages_skipped` is the number of
  indexed pages minus the number selected. With duplicate ids it can be
  negative, exactly as in the source. The model proves no bound, because
  ids are path digests and in practice unique.

- The following members model the corrected program of the first row of
  "Findings", in which a resolved relative link becomes a Markdown link;
  the source as written raises there, which `Conversion.ConvertBodyAsWritten`
  and `Conversion.ConvertAsWritten` model. Those that walk sections use the
  corrected walk of the second row.
- Converter.MarkdownConverter.Convert: follows the corrected link and section handling described above.
- Converter.MarkdownConverter.ConvertBody: follows the corrected link and section handling described above.
- Converter.MarkdownConverter.ConvertDocument: follows the corrected link and section handling described above.
- Converter.MarkdownConverter.DocumentStep: follows the corrected link and section handling described above.
- Converter.MarkdownConverter.EnterHeading: follows the corrected section handling (an enclosing skip level is kept).
- Converter.MarkdownConverter.ConvertInternalLink: follows the corrected link handling; as written it raises on a resolved relative link.
- Converter.MarkdownConverter.CalculateRelativePath: computes the corrected relative path; as written it raises on `from_page.path`.
- Sections.ExcludedStep: states the corrected skip level; `Sections.AsWrittenExcludedStep` states the as-written one.
- Builder.ConversionBuilder.ConvertPage: converts with the corrected converter; as written, pages with resolved relative links are reported `partial` (`Incremental.AsWrittenLinkPagePartial`).
- Builder.ConversionBuilder.ConvertExport: converts with the corrected converter, as `ConvertPage` does.
- Builder.ConversionBuilder.ConvertPages: its reports come from the corrected converter, as in `ConvertPage`; as written, pages with resolved relative links are reported `partial`.
- Converter.MarkdownConverter.ConvertLink: renders a resolved relative link as `[text](path)` through the corrected link handling; as written `_calculate_relative_path` raises there.
- Converter.MarkdownConverter.ConvertTextElement: a paragraph with a resolved relative link among its children gets the corrected output; as written it raises.
- Converter.MarkdownConverter.ConvertNode: equals the corrected render, which does not raise on a resolved relative link; `Rendering.RenderAttempt` models the raising one.
- Converter.MarkdownConverter.ConvertFragment: corrected for children that hold resolved relative links; as written it raises at the first of them.
- Converter.MarkdownConverter.ConvertParsed: equals the corrected document walk, with corrected links and the corrected skip level; `Sections.RunAttempt` models the walk as written.
- Sections.SkipHolds: holds of the corrected walk only. As written, a deeper excluded heading moves the skip level to its own level (`Sections.AsWrittenExcludedStep`), and a later heading between the two levels is emitted (`Sections.NestedExclusionLeaks`).

## Findings

| source | as written | input that shows it | evidently intended | confidence | as-written member | corrected member |
|---|---|---|---|---|---|---|
| src/confluence_to_markdown/converter.py:398 | `_calculate_relative_path` reads `from_page.path`, but `PageNode` has no `path` attribute. With the relative link style, every link whose target page is found raises. The whole page then falls back to its raw HTML behind a `Parse error` comment. | a page with an internal link to an existing page id, under the default `relative` style, with settings that carry `content.links` | the relative path between the two pages' locations in the export | not executed | Conversion.FirstLinkFallsBack | Links.InternalLink |
| src/confluence_to_markdown/converter.py:161-164 | an excluded heading met while a section is already skipped sets the skip level to its own, deeper level. A later sibling at that level then ends the skip inside the excluded section. | exclusions `Internal` and `Internal/Notes`; body `# Internal`, `## Notes`, `## Summary`: `## Summary` is emitted | everything under an excluded heading stays excluded until a heading at or above its level | not executed | Sections.NestedExclusionLeaks | Sections.SkipHolds |
