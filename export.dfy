/**
 * The parsed form of a Confluence HTML export: its space, its pages in the
 * order they were found, and an index of the pages by id. Reading HTML, ZIP
 * archives and directories is outside this model; so are the SHA-256 and
 * MD5 digests, which appear as function parameters.
 */
module ExportModel {
  import opened Base
  import opened Strings

  datatype Space = Space(key: string, name: string)

  /** A page of the export; `bodyContent` is the raw HTML of its main content. */
  datatype PageNode = PageNode(id: string, title: string, bodyContent: string, filename: string)

  /**
   * The page's content hash: the hex digest of its body, and nothing else.
   * `digest` stands for SHA-256 over the UTF-8 encoding.
   */
  function ContentHash(digest: string -> string, p: PageNode): string {
    digest(p.bodyContent)
  }

  /** Two pages with the same body have the same content hash, whatever their id or title. */
  lemma ContentHashOfBody(digest: string -> string, p: PageNode, q: PageNode)
    requires p.bodyContent == q.bodyContent
    ensures ContentHash(digest, p) == ContentHash(digest, q)
  {
  }

  /** `{page.id: page for page in pages}`: a later page with the same id replaces an earlier one. */
  function IndexById(pages: seq<PageNode>): map<string, PageNode> {
    if pages == [] then map[]
    else IndexById(pages[..|pages| - 1])[pages[|pages| - 1].id := pages[|pages| - 1]]
  }

  /** The index has exactly one key per distinct page id. */
  lemma {:induction false} IndexKeys(pages: seq<PageNode>)
    ensures forall k :: k in IndexById(pages) <==> exists i :: 0 <= i < |pages| && pages[i].id == k
  {
    if pages != [] {
      var init := pages[..|pages| - 1];
      IndexKeys(init);
      forall k ensures k in IndexById(pages) <==> exists i :: 0 <= i < |pages| && pages[i].id == k {
        if k in IndexById(init) {
          var i :| 0 <= i < |init| && init[i].id == k;
          assert pages[i] == init[i];
        }
        if exists i :: 0 <= i < |pages| && pages[i].id == k {
          var i :| 0 <= i < |pages| && pages[i].id == k;
          if i < |pages| - 1 {
            assert init[i] == pages[i];
          }
        }
      }
    }
  }

  /** Every entry of the index is one of the pages, stored under its own id. */
  lemma {:induction false} IndexValues(pages: seq<PageNode>)
    ensures forall k :: k in IndexById(pages) ==> IndexById(pages)[k].id == k && IndexById(pages)[k] in pages
  {
    if pages != [] {
      var init := pages[..|pages| - 1];
      IndexValues(init);
      forall k | k in IndexById(pages)
        ensures IndexById(pages)[k].id == k && IndexById(pages)[k] in pages
      {
        if k != pages[|pages| - 1].id {
          assert IndexById(init)[k] in init;
        }
      }
    }
  }

  /** For a duplicated id, the page that comes last in the list is the one the index keeps. */
  lemma {:induction false} IndexLaterWins(pages: seq<PageNode>, i: nat)
    requires i < |pages|
    requires forall j :: i < j < |pages| ==> pages[j].id != pages[i].id
    ensures pages[i].id in IndexById(pages) && IndexById(pages)[pages[i].id] == pages[i]
  {
    if i < |pages| - 1 {
      var init := pages[..|pages| - 1];
      forall j | i < j < |init| ensures init[j].id != init[i].id {
        assert init[j] == pages[j];
      }
      IndexLaterWins(init, i);
    }
  }

  /** A parsed export. The constructor builds the id index, as `__post_init__` does. */
  class ConfluenceExport {
    var path: string
    var space: Space
    var pages: seq<PageNode>
    var pagesById: map<string, PageNode>

    /** The index is the one built from the current page list. */
    predicate Valid()
      reads this
    {
      pagesById == IndexById(pages)
    }

    constructor (path: string, space: Space, pages: seq<PageNode>)
      ensures this.path == path && this.space == space && this.pages == pages
      ensures Valid()
    {
      this.path := path;
      this.space := space;
      this.pages := pages;
      var index := map[];
      var i := 0;
      while i < |pages|
        invariant 0 <= i <= |pages|
        invariant index == IndexById(pages[..i])
      {
        assert pages[..i + 1][..i] == pages[..i];
        index := index[pages[i].id := pages[i]];
        i := i + 1;
      }
      assert pages[..|pages|] == pages;
      this.pagesById := index;
    }

    /** `walk_pages`: every page, in list order. */
    function WalkPages(): (r: seq<PageNode>)
      reads this
      ensures |r| == |pages| && forall i :: 0 <= i < |r| ==> r[i] == pages[i]
    {
      pages
    }

    /** `all_pages`: the same flat list the walk yields. */
    function AllPages(): (r: seq<PageNode>)
      reads this
      ensures r == WalkPages()
    {
      pages
    }
  }

  /**
   * The walk and the index agree: every walked page's id is in the index, and
   * every indexed page is walked.
   */
  lemma WalkMatchesIndex(e: ConfluenceExport)
    requires e.Valid()
    ensures forall p :: p in e.WalkPages() ==> p.id in e.pagesById
    ensures forall k :: k in e.pagesById ==> e.pagesById[k] in e.WalkPages()
  {
    IndexKeys(e.pages);
    IndexValues(e.pages);
    forall p | p in e.WalkPages() ensures p.id in e.pagesById {
      var i :| 0 <= i < |e.pages| && e.pages[i] == p;
      assert e.pages[i].id == p.id;
    }
  }

  /**
   * The space name read from a page's path relative to the export root: the
   * first component when the page sits in a sub-directory, none otherwise.
   */
  function ExtractSpaceName(relativeParts: seq<string>): (r: Option<string>)
    ensures r.Some? <==> |relativeParts| > 1
    ensures r.Some? ==> r.value == relativeParts[0]
  {
    if |relativeParts| > 1 then Some(relativeParts[0]) else None
  }

  /**
   * The export's space: key and name are both the extracted space name when
   * there is a non-empty one, and the export directory's name otherwise.
   */
  function SpaceOf(spaceName: Option<string>, dirName: string): (s: Space)
    ensures s.key == s.name
    ensures spaceName.Some? && spaceName.value != "" ==> s.key == spaceName.value
    ensures spaceName.None? || spaceName.value == "" ==> s.key == dirName
  {
    var n := if spaceName.Some? && spaceName.value != "" then spaceName.value else dirName;
    Space(n, n)
  }

  const TitleSeparator: string := " - "

  /**
   * The `<title>` text after clean-up: stripped, and cut before the first
   * `" - "` (which usually introduces the space name) and stripped again.
   */
  function CleanTitle(raw: string): string {
    var t := Strip(raw);
    if Contains(t, TitleSeparator) then Strip(BeforeFirst(t, TitleSeparator)) else t
  }

  /**
   * The page title: the cleaned `<title>` text if that is non-empty, else the
   * text of the first `<h1>` if non-empty, else the file name without its
   * extension. The `<h1>` text arrives already stripped.
   */
  function ExtractTitle(titleTag: Option<string>, h1Text: Option<string>, stem: string): (r: string)
    ensures titleTag.Some? && CleanTitle(titleTag.value) != "" ==> r == CleanTitle(titleTag.value)
    ensures (titleTag.None? || CleanTitle(titleTag.value) == "") && h1Text.Some? && h1Text.value != ""
      ==> r == h1Text.value
    ensures (titleTag.None? || CleanTitle(titleTag.value) == "") && (h1Text.None? || h1Text.value == "")
      ==> r == stem
  {
    if titleTag.Some? && CleanTitle(titleTag.value) != "" then CleanTitle(titleTag.value)
    else if h1Text.Some? && h1Text.value != "" then h1Text.value
    else stem
  }

  /** A cleaned title never contains `" - "` and has no whitespace at either end. */
  lemma CleanTitleShape(raw: string)
    ensures var r := CleanTitle(raw);
      && !Contains(r, TitleSeparator)
      && (r == [] || (!IsSpace(r[0]) && !IsSpace(r[|r| - 1])))
  {
    var t := Strip(raw);
    StripEnds(raw);
    if Contains(t, TitleSeparator) {
      var b := BeforeFirst(t, TitleSeparator);
      StripEnds(b);
      StripNotContains(b, TitleSeparator);
    }
  }

  /** Cleaning a cleaned title changes nothing. */
  lemma CleanTitleIdempotent(raw: string)
    ensures CleanTitle(CleanTitle(raw)) == CleanTitle(raw)
  {
    CleanTitleShape(raw);
    StripStripped(CleanTitle(raw));
  }

  /** Stripping a string that has no separator leaves no separator. */
  lemma StripNotContains(s: string, sep: string)
    requires |sep| > 0 && !Contains(s, sep)
    ensures !Contains(Strip(s), sep)
  {
    var l := LStrip(s);
    var r := RStrip(l);
    var k := |s| - |l|;
    assert r == s[k..k + |r|] by {
      assert l == s[k..];
      assert r == l[..|r|];
    }
    if Contains(r, sep) {
      ContainsSubstring(s, k, k + |r|, sep);
    }
  }

  /** A string without whitespace at either end is its own `strip()`. */
  lemma StripStripped(s: string)
    requires s == [] || (!IsSpace(s[0]) && !IsSpace(s[|s| - 1]))
    ensures Strip(s) == s
  {
  }
}
