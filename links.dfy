/**
 * Internal page links: the relative path from one page to another, and the
 * Markdown an internal link becomes. A page's location is a `/`-separated
 * path of titles; `PageNode` carries no such path, so it is supplied by the
 * `pathOf` function of the rendering environment.
 */
module Links {
  import opened Base
  import opened Strings
  import opened Slug
  import opened ExportModel
  import opened Config
  import opened Nodes

  /** What rendering one node produces: Markdown, plus warnings and unknown macro names to record. */
  datatype Out = Out(md: string, warnings: seq<string>, macros: seq<string>)

  /**
   * What rendering reads besides the node: the settings, the export's page
   * index, the page being converted, where each page sits, and the glob
   * matcher used for section exclusion (`fnmatch(path, pattern)`).
   */
  datatype Env = Env(
    settings: Settings,
    pagesById: map<string, PageNode>,
    current: PageNode,
    pathOf: PageNode -> string,
    matches: (string, string) -> bool)

  /** Length of the longest common prefix of `a` and `b`. */
  function CommonPrefix(a: seq<string>, b: seq<string>): (c: nat)
    ensures c <= |a| && c <= |b|
    ensures a[..c] == b[..c]
    ensures c < |a| && c < |b| ==> a[c] != b[c]
  {
    if a == [] || b == [] || a[0] != b[0] then 0
    else
      var c := 1 + CommonPrefix(a[1..], b[1..]);
      assert a[..c] == [a[0]] + a[1..][..c - 1];
      assert b[..c] == [b[0]] + b[1..][..c - 1];
      c
  }

  /** The common-prefix length is determined by its three properties. */
  lemma CommonPrefixUnique(a: seq<string>, b: seq<string>, c: nat)
    requires c <= |a| && c <= |b| && a[..c] == b[..c]
    requires c == |a| || c == |b| || a[c] != b[c]
    ensures CommonPrefix(a, b) == c
  {
  }

  /** The segments of the relative path before the last one is turned into a file name. */
  function RawRelParts(fromDir: seq<string>, to: seq<string>): seq<string> {
    var c := CommonPrefix(fromDir, to);
    Repeat("..", |fromDir| - c) + to[c..]
  }

  /**
   * `_calculate_relative_path` on segments: climb out of the source's
   * directory to the common prefix, descend to the target, and name the last
   * segment by its slug plus `.md`; with no segments at all, name the target
   * by its title's slug.
   */
  function RelParts(fromDir: seq<string>, to: seq<string>, title: string): (r: seq<string>)
    ensures |r| >= 1
  {
    var rel := RawRelParts(fromDir, to);
    if |rel| > 0 then rel[..|rel| - 1] + [Slugify(rel[|rel| - 1]) + ".md"]
    else [Slugify(title) + ".md"]
  }

  /** `RelParts` as computed in place: the last raw segment renamed. */
  lemma RelPartsRenamed(fromDir: seq<string>, to: seq<string>, title: string, rel: seq<string>)
    requires rel == RawRelParts(fromDir, to) && |rel| > 0
    ensures RelParts(fromDir, to, title) == rel[|rel| - 1 := Slugify(rel[|rel| - 1]) + ".md"]
  {
    var x := Slugify(rel[|rel| - 1]) + ".md";
    assert rel[|rel| - 1 := x] == rel[..|rel| - 1] + [x];
  }

  /** The relative path between two pages given their `/`-separated title paths. */
  function RelativePath(fromPath: string, toPath: string, title: string): string {
    var fromParts := Split(fromPath, '/');
    Join(RelParts(fromParts[..|fromParts| - 1], Split(toPath, '/'), title), "/")
  }

  /** `RelativePath` from the segments it is computed from. */
  lemma RelativePathOfParts(fromPath: string, toPath: string, title: string,
                            fromDir: seq<string>, to: seq<string>, rel: seq<string>)
    requires var fromAll := Split(fromPath, '/'); fromDir == fromAll[..|fromAll| - 1]
    requires to == Split(toPath, '/') && rel == RelParts(fromDir, to, title)
    ensures Join(rel, "/") == RelativePath(fromPath, toPath, title)
  {
  }

  /**
   * The path segments start with one `..` per source directory below the
   * common prefix, continue with the target's segments after that prefix,
   * and end in the slug of the last of them plus `.md`.
   */
  lemma RelPartsShape(fromDir: seq<string>, to: seq<string>, title: string)
    requires CommonPrefix(fromDir, to) < |to|
    ensures var c := CommonPrefix(fromDir, to);
      var up := |fromDir| - c;
      var r := RelParts(fromDir, to, title);
      && |r| == up + |to| - c
      && (forall i :: 0 <= i < up ==> r[i] == "..")
      && (forall i :: up <= i < |r| - 1 ==> r[i] == to[c + i - up])
      && r[|r| - 1] == Slugify(to[|to| - 1]) + ".md"
  {
    var c := CommonPrefix(fromDir, to);
    var up := |fromDir| - c;
    var rel := RawRelParts(fromDir, to);
    var r := RelParts(fromDir, to, title);
    assert |rel| == up + |to| - c;
    forall i | 0 <= i < up ensures r[i] == ".." {
      assert r[i] == rel[i];
    }
    forall i | up <= i < |r| - 1 ensures r[i] == to[c + i - up] {
      assert r[i] == rel[i];
    }
  }

  /** Where a sequence of segments leads from a directory: `..` goes up one level, any other name down. */
  function Resolve(dir: seq<string>, parts: seq<string>): seq<string>
    decreases |parts|
  {
    if parts == [] then dir
    else if parts[0] == ".." then Resolve(if dir == [] then [] else dir[..|dir| - 1], parts[1..])
    else Resolve(dir + [parts[0]], parts[1..])
  }

  lemma {:induction false} ResolveUp(dir: seq<string>, k: nat, rest: seq<string>)
    requires k <= |dir|
    ensures Resolve(dir, Repeat("..", k) + rest) == Resolve(dir[..|dir| - k], rest)
    decreases k
  {
    if k > 0 {
      var parts := Repeat("..", k) + rest;
      assert parts[0] == "..";
      assert parts[1..] == Repeat("..", k - 1) + rest;
      ResolveUp(dir[..|dir| - 1], k - 1, rest);
      assert dir[..|dir| - 1][..|dir| - 1 - (k - 1)] == dir[..|dir| - k];
    } else {
      assert Repeat("..", k) + rest == rest;
      assert dir[..|dir| - k] == dir;
    }
  }

  lemma {:induction false} ResolveDown(dir: seq<string>, rest: seq<string>)
    requires forall i :: 0 <= i < |rest| ==> rest[i] != ".."
    ensures Resolve(dir, rest) == dir + rest
    decreases |rest|
  {
    if rest != [] {
      ResolveDown(dir + [rest[0]], rest[1..]);
      assert dir + [rest[0]] + rest[1..] == dir + rest;
    }
  }

  /**
   * Following the relative segments from the source page's directory reaches
   * the target's path, whenever no target segment is itself `..`.
   */
  lemma RawRelPartsReachTarget(fromDir: seq<string>, to: seq<string>)
    requires forall i :: 0 <= i < |to| ==> to[i] != ".."
    ensures Resolve(fromDir, RawRelParts(fromDir, to)) == to
  {
    var c := CommonPrefix(fromDir, to);
    ResolveUp(fromDir, |fromDir| - c, to[c..]);
    assert fromDir[..|fromDir| - (|fromDir| - c)] == to[..c];
    ResolveDown(to[..c], to[c..]);
    assert to[..c] + to[c..] == to;
  }

  lemma SlugOfDots()
    ensures Slugify("..") == ""
  {
    assert Lower("..") == "..";
    assert KeepWordSpaceHyphen("..") == "";
  }

  /**
   * A link to a page whose path is a proper prefix of the source page's
   * directory (a grand-parent or higher) ends in a segment `..` whose slug
   * is empty, so the path's last segment is the bare `.md`.
   */
  lemma AncestorLink(fromDir: seq<string>, to: seq<string>, title: string)
    requires |to| < |fromDir| && to == fromDir[..|to|]
    ensures RelParts(fromDir, to, title) == Repeat("..", |fromDir| - |to| - 1) + [".md"]
  {
    var k := |fromDir| - |to|;
    AncestorRawParts(fromDir, to);
    var rel := RawRelParts(fromDir, to);
    DotsSegmentName(rel);
    var ups := Repeat("..", k - 1);
    assert rel[..k - 1] == ups by {
      forall i | 0 <= i < k - 1 ensures rel[..k - 1][i] == ups[i] { }
    }
  }

  lemma AncestorRawParts(fromDir: seq<string>, to: seq<string>)
    requires |to| < |fromDir| && to == fromDir[..|to|]
    ensures RawRelParts(fromDir, to) == Repeat("..", |fromDir| - |to|)
  {
    CommonPrefixUnique(fromDir, to, |to|);
    assert to[|to|..] == [];
  }

  /** A trailing `..` segment becomes the file name `.md`. */
  lemma DotsSegmentName(rel: seq<string>)
    requires |rel| > 0 && rel[|rel| - 1] == ".."
    ensures Slugify(rel[|rel| - 1]) + ".md" == ".md"
  {
    var last := rel[|rel| - 1];
    SlugOfDots();
    assert Slugify(last) == "";
  }

  /** A link to the page whose path is exactly the source page's directory is named by the target's title. */
  lemma ParentLink(fromDir: seq<string>, title: string)
    ensures RelParts(fromDir, fromDir, title) == [Slugify(title) + ".md"]
  {
    CommonPrefixUnique(fromDir, fromDir, |fromDir|);
  }

  /**
   * From `Home/Getting Started/Installation Guide` to `Home/Architecture
   * Overview`: one level up, then the slug of the target's last segment,
   * giving `../architecture-overview.md`.
   */
  lemma SiblingSectionExample(fromDir: seq<string>, to: seq<string>, title: string)
    requires fromDir == ["Home", "Getting Started"] && to == ["Home", "Architecture Overview"]
    ensures Join(RelParts(fromDir, to, title), "/") == "../architecture-overview.md"
  {
    SiblingSectionParts(fromDir, to, title);
    SiblingJoin(RelParts(fromDir, to, title));
  }

  lemma SiblingJoin(r: seq<string>)
    requires r == ["..", "architecture-overview.md"]
    ensures Join(r, "/") == "../architecture-overview.md"
  {
    DotsJoin(r, "architecture-overview.md");
  }

  /** The segments of the sibling-section example. */
  lemma SiblingSectionParts(fromDir: seq<string>, to: seq<string>, title: string)
    requires fromDir == ["Home", "Getting Started"] && to == ["Home", "Architecture Overview"]
    ensures RelParts(fromDir, to, title) == ["..", "architecture-overview.md"]
  {
    CommonPrefixUnique(fromDir, to, 1);
    assert to[1..] == [to[1]];
    var rel := RawRelParts(fromDir, to);
    assert rel == [".."] + [to[1]];
    ArchitectureOverviewSlug(to[1]);
    var name := Slugify(rel[1]) + ".md";
    assert name == "architecture-overview.md";
    assert RelParts(fromDir, to, title) == rel[..1] + [name];
    assert rel[..1] == [".."];
  }

  lemma DotsJoin(r: seq<string>, name: string)
    requires r == ["..", name]
    ensures Join(r, "/") == "../" + name
  {
    assert r[1..] == [name];
    assert "../" + name == ".." + "/" + name;
    assert ["..", name][1..] == [name];
  }

  const MissingPrefix: string := "Link target not found: "

  /** The Markdown for a link whose target is not in the export. */
  function MissingLinkMd(mode: MissingLinkMode, title: string, text: string): string {
    match mode
    case CommentMissing => "<!-- Link to missing page: " + title + " -->[" + text + "]"
    case StripMissing => text
    case PreserveMissing => "[" + text + "]"
  }

  /** The page an internal link points to, if its id is in the export's index. */
  function Target(pageId: string, env: Env): (t: Option<PageNode>)
    ensures t.Some? <==> pageId != "" && pageId in env.pagesById
    ensures t.Some? ==> t.value == env.pagesById[pageId]
  {
    if pageId != "" && pageId in env.pagesById then Some(env.pagesById[pageId]) else None
  }

  /**
   * `_convert_internal_link`. With the title-only style the link is its
   * title in brackets, looked up nowhere and warning about nothing. Otherwise
   * a target found by id gives a Markdown link to its relative path; a
   * target not found gives the warning `Link target not found: <title>` and
   * the comment, plain-text or bracket form the missing-link mode asks for.
   * The title is the link's page title, or its text when that is empty.
   */
  function InternalLink(pageId: string, pageTitle: string, text: string, env: Env): (r: Out)
    ensures r.macros == []
    ensures var title := if pageTitle != "" then pageTitle else text;
      && (env.settings.linkStyle == TitleOnly ==> r == Out("[" + title + "]", [], []))
      && (env.settings.linkStyle == Relative && Target(pageId, env).None? ==>
            r.warnings == [MissingPrefix + title] && r.md == MissingLinkMd(env.settings.missingLinks, title, text))
      && (env.settings.linkStyle == Relative && Target(pageId, env).Some? ==>
            var target := Target(pageId, env).value;
            && r.warnings == []
            && r.md == "[" + (if text != "" then text else target.title) + "]("
                       + RelativePath(env.pathOf(env.current), env.pathOf(target), target.title) + ")")
  {
    var title := if pageTitle != "" then pageTitle else text;
    if env.settings.linkStyle == TitleOnly then Out("[" + title + "]", [], [])
    else
      var target := Target(pageId, env);
      if target.Some? then
        var shown := if text != "" then text else target.value.title;
        var path := RelativePath(env.pathOf(env.current), env.pathOf(target.value), target.value.title);
        Out("[" + shown + "](" + path + ")", [], [])
      else
        Out(MissingLinkMd(env.settings.missingLinks, title, text), [MissingPrefix + title], [])
  }

  /** The message of the `AttributeError` raised on reading a page's `path`. */
  const NoPathAttribute: string := "'PageNode' object has no attribute 'path'"

  /**
   * `_convert_internal_link` as the source has it: computing the relative
   * path reads `path` on the current page, an attribute `PageNode` does not
   * have, so every resolved link raises instead of producing a link.
   */
  function InternalLinkAsWritten(pageId: string, pageTitle: string, text: string, env: Env): Result<Out> {
    if env.settings.linkStyle == Relative && Target(pageId, env).Some? then Err(NoPathAttribute)
    else Ok(InternalLink(pageId, pageTitle, text, env))
  }

  /**
   * The as-written link conversion fails exactly on the links the corrected
   * one resolves to a relative path, and agrees with it everywhere else.
   */
  lemma AsWrittenFailsOnResolvedLinks(pageId: string, pageTitle: string, text: string, env: Env)
    ensures InternalLinkAsWritten(pageId, pageTitle, text, env).Err?
        <==> env.settings.linkStyle == Relative && pageId != "" && pageId in env.pagesById
    ensures InternalLinkAsWritten(pageId, pageTitle, text, env).Ok? ==>
        InternalLinkAsWritten(pageId, pageTitle, text, env).value == InternalLink(pageId, pageTitle, text, env)
  {
  }

  /**
   * `_convert_link`: a link with a page id or page title is internal;
   * otherwise it is `[text](href)` when it has a URL or href, and its bare
   * text when it has neither.
   */
  function LinkOut(n: Node, env: Env): (r: Out)
    requires n.Link?
    ensures r.macros == []
    ensures n.pageId != "" || n.pageTitle != "" ==> r == InternalLink(n.pageId, n.pageTitle, NodeText(n), env)
    ensures n.pageId == "" && n.pageTitle == "" ==> r.warnings == []
    ensures n.pageId == "" && n.pageTitle == "" && (n.url != "" || n.href != "") ==>
      r.md == "[" + NodeText(n) + "](" + (if n.url != "" then n.url else n.href) + ")"
    ensures n.pageId == "" && n.pageTitle == "" && n.url == "" && n.href == "" ==> r.md == NodeText(n)
  {
    var text := NodeText(n);
    var href := if n.url != "" then n.url else n.href;
    if n.pageId != "" || n.pageTitle != "" then InternalLink(n.pageId, n.pageTitle, text, env)
    else if href != "" then Out("[" + text + "](" + href + ")", [], [])
    else Out(text, [], [])
  }
}
