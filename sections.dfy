/**
 * `_convert_document`: the walk over a page's top-level nodes that keeps the
 * heading path, leaves out the sections the settings exclude, and collects
 * the rendered parts. The walk is a left fold of `Step` over the nodes, so a
 * prefix of the nodes gives the state after that many iterations.
 */
module Sections {
  import opened Base
  import opened Strings
  import opened ExportModel
  import opened Config
  import opened Nodes
  import opened Links
  import opened Rendering

  /**
   * The walk's state: the parts emitted so far, the heading path, the level
   * of the excluded section being skipped (if any), and what was recorded.
   */
  datatype DocState = DocState(
    parts: seq<string>,
    path: seq<string>,
    skip: Option<int>,
    skipped: seq<string>,
    warnings: seq<string>,
    macros: seq<string>)

  const Start: DocState := DocState([], [], None, [], [], [])

  /** The heading path as the string the exclusion patterns are matched against. */
  function PathString(path: seq<string>): string {
    Join(path, "/")
  }

  /** `_should_skip_section`: some exclusion pattern matches the joined heading path. */
  predicate Excluded(path: seq<string>, env: Env) {
    exists i :: 0 <= i < |env.settings.excludeSections| && env.matches(PathString(path), env.settings.excludeSections[i])
  }

  /** The heading path kept above a heading of `level`: at most `level - 1` entries. */
  function Truncate(path: seq<string>, level: int): (r: seq<string>)
    requires level >= 1
    ensures |r| <= level - 1 && |r| <= |path| && r == path[..|r|]
    ensures |path| <= level - 1 ==> r == path
  {
    if |path| <= level - 1 then path else path[..level - 1]
  }

  /** Render `n` and keep its Markdown if it is not empty. */
  function Emit(st: DocState, n: Node, env: Env): DocState {
    var o := Render(n, env);
    st.(parts := st.parts + (if o.md != "" then [o.md] else []),
        warnings := st.warnings + o.warnings,
        macros := st.macros + o.macros)
  }

  /** The skip level left after a heading of `level`: skipping ends at a level no deeper than the skipped one. */
  function ResetSkip(skip: Option<int>, level: int): Option<int> {
    if skip.Some? && level <= skip.value then None else skip
  }

  /**
   * One iteration. A heading first ends the skipped section if it is at the
   * same or a higher level, then takes its place in the heading path. If the
   * new path is excluded, the path is recorded as a skipped section and
   * skipping starts at this heading's level, unless an enclosing section is
   * already being skipped, whose level is kept. Every other node is
   * dropped while skipping and rendered otherwise.
   */
  function Step(st: DocState, n: Node, env: Env): DocState {
    if n.Heading? then
      var level := Level(n.htype);
      var skip := ResetSkip(st.skip, level);
      var path := Truncate(st.path, level) + [NodeText(n)];
      if Excluded(path, env) then
        st.(path := path, skipped := st.skipped + [PathString(path)],
            skip := if skip.Some? then skip else Some(level))
      else if skip.Some? then st.(path := path, skip := skip)
      else Emit(st.(path := path, skip := skip), n, env)
    else if st.skip.Some? then st
    else Emit(st, n, env)
  }

  /** The walk from state `st` over the nodes `ns`. */
  function Run(st: DocState, ns: seq<Node>, env: Env): DocState {
    if ns == [] then st else Step(Run(st, ns[..|ns| - 1], env), ns[|ns| - 1], env)
  }

  /** The result of `_convert_document`. */
  datatype DocOut = DocOut(md: string, warnings: seq<string>, skipped: seq<string>, macros: seq<string>)

  /** A root without children gives its text; otherwise the emitted parts separated by blank lines. */
  function ConvertDocument(doc: Document, env: Env): DocOut {
    match doc
    case Flat(text) => DocOut(text, [], [], [])
    case Tree(ns) =>
      var st := Run(Start, ns, env);
      DocOut(Join(st.parts, "\n\n"), st.warnings, st.skipped, st.macros)
  }

  lemma {:induction false} RunAppend(st: DocState, ns: seq<Node>, n: Node, env: Env)
    ensures Run(st, ns + [n], env) == Step(Run(st, ns, env), n, env)
  {
    assert (ns + [n])[..|ns|] == ns;
  }

  lemma {:induction false} RunConcat(st: DocState, a: seq<Node>, b: seq<Node>, env: Env)
    ensures Run(st, a + b, env) == Run(Run(st, a, env), b, env)
    decreases |b|
  {
    if b == [] {
      assert a + b == a;
    } else {
      var init := b[..|b| - 1];
      assert a + b == (a + init) + [b[|b| - 1]];
      RunAppend(st, a + init, b[|b| - 1], env);
      RunConcat(st, a, init, env);
    }
  }

  /**
   * After a heading of level `L` the path has at most `L` entries, ends with
   * the heading's text, and the entries before it are a prefix of the old path.
   */
  lemma HeadingPathStep(st: DocState, n: Node, env: Env)
    requires n.Heading?
    ensures var p := Step(st, n, env).path;
      && 1 <= |p| <= Level(n.htype)
      && p[|p| - 1] == NodeText(n)
      && p[..|p| - 1] == st.path[..|p| - 1]
  {
    var level := Level(n.htype);
    var t := Truncate(st.path, level);
    var p := t + [NodeText(n)];
    assert p[..|p| - 1] == t;
  }

  /** Only headings change the path; the walk never holds a path deeper than six. */
  lemma {:induction false} PathBound(ns: seq<Node>, env: Env)
    ensures |Run(Start, ns, env).path| <= 6
  {
    if ns != [] {
      var init := ns[..|ns| - 1];
      var n := ns[|ns| - 1];
      PathBound(init, env);
      if n.Heading? {
        HeadingPathStep(Run(Start, init, env), n, env);
      }
    }
  }

  /** Whether every heading among `ns` is deeper than level `s`. */
  predicate AllDeeper(ns: seq<Node>, s: int) {
    forall i :: 0 <= i < |ns| && ns[i].Heading? ==> Level(ns[i].htype) > s
  }

  /**
   * Once a section at level `s` is excluded, nothing is emitted until a
   * heading at level `s` or higher: every node is dropped, deeper headings
   * included, and the skip level stays `s`.
   */
  lemma {:induction false} SkipHolds(st: DocState, ns: seq<Node>, s: int, env: Env)
    requires st.skip == Some(s)
    requires AllDeeper(ns, s)
    ensures Run(st, ns, env).parts == st.parts
    ensures Run(st, ns, env).skip == Some(s)
    ensures Run(st, ns, env).warnings == st.warnings && Run(st, ns, env).macros == st.macros
  {
    if ns != [] {
      var init := ns[..|ns| - 1];
      assert AllDeeper(init, s) by {
        forall i | 0 <= i < |init| && init[i].Heading? ensures Level(init[i].htype) > s {
          assert init[i] == ns[i];
        }
      }
      SkipHolds(st, init, s, env);
    }
  }

  /**
   * A heading at or above the skipped level ends the skip and is itself
   * checked again: excluded, it starts a new skip at its own level and is
   * not emitted; not excluded, it is emitted and skipping is over.
   */
  lemma ResumeAndRecheck(st: DocState, n: Node, env: Env)
    requires st.skip.Some? && n.Heading? && Level(n.htype) <= st.skip.value
    ensures var st' := Step(st, n, env);
      var path := Truncate(st.path, Level(n.htype)) + [NodeText(n)];
      && st'.path == path
      && (Excluded(path, env) ==>
            st'.skip == Some(Level(n.htype)) && st'.parts == st.parts
            && st'.skipped == st.skipped + [PathString(path)])
      && (!Excluded(path, env) ==>
            st'.skip.None? && st'.skipped == st.skipped
            && st'.parts == st.parts + (if Render(n, env).md != "" then [Render(n, env).md] else []))
  {
  }

  /**
   * A heading adds exactly one skipped section, its joined path, when that
   * path is excluded, and then is not emitted; every other node adds none.
   */
  lemma SkippedEntry(st: DocState, n: Node, env: Env)
    ensures var st' := Step(st, n, env);
      if n.Heading? && Excluded(st'.path, env)
      then st'.skipped == st.skipped + [PathString(st'.path)] && st'.parts == st.parts
      else st'.skipped == st.skipped
  {
  }

  /** The non-empty renderings of `ns`, in order. */
  function Rendered(ns: seq<Node>, env: Env): seq<string> {
    if ns == [] then []
    else
      var o := Render(ns[|ns| - 1], env);
      Rendered(ns[..|ns| - 1], env) + (if o.md != "" then [o.md] else [])
  }

  /** A body without headings skips nothing and emits every node's non-empty rendering. */
  lemma {:induction false} NoHeadingsNoSkips(ns: seq<Node>, env: Env)
    requires forall i :: 0 <= i < |ns| ==> !ns[i].Heading?
    ensures Run(Start, ns, env).skipped == []
    ensures Run(Start, ns, env).skip.None?
    ensures Run(Start, ns, env).parts == Rendered(ns, env)
  {
    if ns != [] {
      NoHeadingsNoSkips(ns[..|ns| - 1], env);
    }
  }

  /**
   * The step as the source has it: an excluded heading always sets the skip
   * level to its own level, even inside a section already being skipped.
   */
  function StepAsWritten(st: DocState, n: Node, env: Env): DocState {
    if n.Heading? then
      var level := Level(n.htype);
      var skip := ResetSkip(st.skip, level);
      var path := Truncate(st.path, level) + [NodeText(n)];
      if Excluded(path, env) then
        st.(path := path, skipped := st.skipped + [PathString(path)], skip := Some(level))
      else if skip.Some? then st.(path := path, skip := skip)
      else Emit(st.(path := path, skip := skip), n, env)
    else if st.skip.Some? then st
    else Emit(st, n, env)
  }

  function RunAsWritten(st: DocState, ns: seq<Node>, env: Env): DocState {
    if ns == [] then st else StepAsWritten(RunAsWritten(st, ns[..|ns| - 1], env), ns[|ns| - 1], env)
  }

  /** The two steps differ only on an excluded heading met while an enclosing section is skipped. */
  lemma StepsAgreeOutsideNestedExclusion(st: DocState, n: Node, env: Env)
    requires !(n.Heading? && ResetSkip(st.skip, Level(n.htype)).Some?
               && Excluded(Truncate(st.path, Level(n.htype)) + [NodeText(n)], env))
    ensures StepAsWritten(st, n, env) == Step(st, n, env)
  {
  }

  // The walk as the source has it, where rendering a resolved relative link raises

  /** `Emit` as the source has it: when rendering raises, the warnings and macros recorded so far stay. */
  function EmitAttempt(st: DocState, n: Node, env: Env): Attempt<DocState> {
    match RenderAttempt(n, env)
    case Raised(o) => Raised(st.(warnings := st.warnings + o.warnings, macros := st.macros + o.macros))
    case Done(o) =>
      Done(st.(parts := st.parts + (if o.md != "" then [o.md] else []),
               warnings := st.warnings + o.warnings,
               macros := st.macros + o.macros))
  }

  /**
   * One iteration of the source's walk: its section handling, with a
   * rendering that can raise. A heading renders through `HeadingMd`, which
   * never reaches a link, so only other nodes can raise.
   */
  function StepAttempt(st: DocState, n: Node, env: Env): Attempt<DocState> {
    if n.Heading? || st.skip.Some? then Done(StepAsWritten(st, n, env)) else EmitAttempt(st, n, env)
  }

  /** The source's walk from `st` over `ns`, stopping at the first node that raises. */
  function RunAttempt(st: DocState, ns: seq<Node>, env: Env): Attempt<DocState> {
    if ns == [] then Done(st)
    else
      match RunAttempt(st, ns[..|ns| - 1], env)
      case Raised(s) => Raised(s)
      case Done(s) => StepAttempt(s, ns[|ns| - 1], env)
  }

  /** Node `i` is rendered by the source's walk (no section is being skipped) and reaches a link that raises. */
  predicate RaisesAt(st: DocState, ns: seq<Node>, i: int, env: Env)
    requires 0 <= i < |ns|
  {
    RunAsWritten(st, ns[..i], env).skip.None? && Raises(ns[i], env)
  }

  lemma StepAttemptAgrees(st: DocState, n: Node, env: Env)
    ensures StepAttempt(st, n, env).Raised? <==> st.skip.None? && Raises(n, env)
    ensures StepAttempt(st, n, env).Done? ==> StepAttempt(st, n, env).value == StepAsWritten(st, n, env)
  {
    RenderAttemptAgrees(n, env);
  }

  /**
   * The source's walk raises exactly when it renders a node that reaches a
   * resolved relative link; when it does not, it ends where `RunAsWritten`
   * ends.
   */
  lemma {:induction false} RunAttemptAgrees(st: DocState, ns: seq<Node>, env: Env)
    ensures RunAttempt(st, ns, env).Raised? <==> exists i :: 0 <= i < |ns| && RaisesAt(st, ns, i, env)
    ensures RunAttempt(st, ns, env).Done? ==> RunAttempt(st, ns, env).value == RunAsWritten(st, ns, env)
  {
    if ns != [] {
      var init, last := ns[..|ns| - 1], ns[|ns| - 1];
      RunAttemptAgrees(st, init, env);
      forall i | 0 <= i < |init| ensures RaisesAt(st, init, i, env) <==> RaisesAt(st, ns, i, env) {
        assert init[..i] == ns[..i] && init[i] == ns[i];
      }
      assert ns[..|ns| - 1] == init;
      if RunAttempt(st, init, env).Done? {
        var s := RunAsWritten(st, init, env);
        StepAttemptAgrees(s, last, env);
        assert RaisesAt(st, ns, |ns| - 1, env) <==> s.skip.None? && Raises(last, env);
        if RunAttempt(st, ns, env).Raised? {
          assert RaisesAt(st, ns, |ns| - 1, env);
        } else {
          forall i | 0 <= i < |ns| ensures !RaisesAt(st, ns, i, env) {
            if i < |init| { assert !RaisesAt(st, init, i, env); }
          }
        }
      }
    }
  }

  function H(t: HeadingType, title: string): Node {
    Heading(t, [Text(title)])
  }

  /** Exact matching, the behaviour of a glob pattern without wildcards. */
  function ExactMatch(path: string, pattern: string): bool {
    path == pattern
  }

  /** Excluding `Internal` and `Internal/Notes`, on a page with no links. */
  function ExampleEnv(): Env {
    var page := PageNode("p", "Page", "<p/>", "page.html");
    Env(DefaultSettings.(excludeSections := ["Internal", "Internal/Notes"]),
        map[], page, (q: PageNode) => q.title, ExactMatch)
  }

  /**
   * With `Internal` and `Internal/Notes` excluded, the body
   * `# Internal`, `## Notes`, `## Summary`: the as-written walk emits the
   * `## Summary` heading although it lies inside the excluded `Internal`
   * section, because `Notes` moved the skip level from 1 to 2.
   */
  lemma NestedExclusionLeaks()
    ensures RunAsWritten(Start, [H(H1, "Internal"), H(H2, "Notes"), H(H2, "Summary")], ExampleEnv()).parts
         == ["## Summary"]
    ensures Run(Start, [H(H1, "Internal"), H(H2, "Notes"), H(H2, "Summary")], ExampleEnv()).parts == []
  {
    var env := ExampleEnv();
    var a, b, c := H(H1, "Internal"), H(H2, "Notes"), H(H2, "Summary");
    var ns := [a, b, c];
    assert ns[..2] == [a, b] && ns[..2][..1] == [a] && ns[..2][..1][..0] == [];
    assert RunAsWritten(Start, [a], env) == StepAsWritten(Start, a, env);
    assert RunAsWritten(Start, [a, b], env) == StepAsWritten(RunAsWritten(Start, [a], env), b, env);
    assert RunAsWritten(Start, ns, env) == StepAsWritten(RunAsWritten(Start, [a, b], env), c, env);
    assert Run(Start, [a], env) == Step(Start, a, env);
    assert Run(Start, [a, b], env) == Step(Run(Start, [a], env), b, env);
    assert Run(Start, ns, env) == Step(Run(Start, [a, b], env), c, env);
    ExampleAsWritten(env, a, b, c);
    ExampleCorrected(env, a, b, c);
  }

  lemma ExampleTexts()
    ensures NodeText(H(H1, "Internal")) == "Internal"
    ensures NodeText(H(H2, "Notes")) == "Notes"
    ensures NodeText(H(H2, "Summary")) == "Summary"
  {
  }

  lemma ExcludesInternal()
    ensures Excluded(["Internal"], ExampleEnv())
  {
    var env := ExampleEnv();
    assert PathString(["Internal"]) == "Internal";
    assert env.matches(PathString(["Internal"]), env.settings.excludeSections[0]);
  }

  lemma ExcludesNotes()
    ensures Excluded(["Internal", "Notes"], ExampleEnv())
  {
    var env := ExampleEnv();
    assert PathString(["Internal", "Notes"]) == "Internal/Notes";
    assert env.matches(PathString(["Internal", "Notes"]), env.settings.excludeSections[1]);
  }

  lemma KeepsSummary()
    ensures !Excluded(["Internal", "Summary"], ExampleEnv())
  {
    assert PathString(["Internal", "Summary"]) == "Internal/Summary";
  }

  /** A heading's Markdown is its `#` prefix and its text. */
  lemma HeadingRender(n: Node, env: Env)
    requires n.Heading?
    ensures Render(n, env).md == HeadingMd(Level(n.htype), env.settings.maxHeadingLevel, NodeText(n))
  {
  }

  lemma ExampleSummaryMd(env: Env)
    requires env.settings.maxHeadingLevel == 6
    ensures Render(H(H2, "Summary"), env).md == "## Summary"
  {
    var n := H(H2, "Summary");
    assert NodeText(n) == "Summary" && Level(n.htype) == 2;
    HeadingRender(n, env);
    SummaryHeadingMd();
  }

  lemma SummaryHeadingMd()
    ensures HeadingMd(2, 6, "Summary") == "## Summary"
  {
    assert Repeat('#', 2) == "##";
  }

  /** The heading path after heading `n`. */
  function NextPath(st: DocState, n: Node): seq<string>
    requires n.Heading?
  {
    Truncate(st.path, Level(n.htype)) + [NodeText(n)]
  }

  lemma AsWrittenExcludedStep(st: DocState, n: Node, env: Env)
    requires n.Heading? && Excluded(NextPath(st, n), env)
    ensures StepAsWritten(st, n, env).parts == st.parts
    ensures StepAsWritten(st, n, env).path == NextPath(st, n)
    ensures StepAsWritten(st, n, env).skip == Some(Level(n.htype))
  {
  }

  lemma ExcludedStep(st: DocState, n: Node, env: Env)
    requires n.Heading? && Excluded(NextPath(st, n), env)
    ensures Step(st, n, env).parts == st.parts
    ensures Step(st, n, env).path == NextPath(st, n)
    ensures Step(st, n, env).skip ==
      (if ResetSkip(st.skip, Level(n.htype)).Some? then st.skip else Some(Level(n.htype)))
  {
  }

  lemma AsWrittenResumeStep(st: DocState, n: Node, env: Env, md: string)
    requires n.Heading? && !Excluded(NextPath(st, n), env) && ResetSkip(st.skip, Level(n.htype)).None?
    requires Render(n, env).md == md && md != ""
    ensures StepAsWritten(st, n, env).parts == st.parts + [md]
  {
  }

  lemma ExampleAsWritten(env: Env, a: Node, b: Node, c: Node)
    requires env == ExampleEnv() && a == H(H1, "Internal") && b == H(H2, "Notes") && c == H(H2, "Summary")
    ensures StepAsWritten(StepAsWritten(StepAsWritten(Start, a, env), b, env), c, env).parts == ["## Summary"]
  {
    var w1 := StepAsWritten(Start, a, env);
    ExampleFirstStep(env, a, w1);
    var w2 := StepAsWritten(w1, b, env);
    ExampleSecondStep(env, w1, b, w2);
    ExampleThirdStep(env, w2, c);
  }

  lemma ExampleFirstStep(env: Env, a: Node, w1: DocState)
    requires env == ExampleEnv() && a == H(H1, "Internal") && w1 == StepAsWritten(Start, a, env)
    ensures w1.skip == Some(1) && w1.path == ["Internal"] && w1.parts == []
  {
    assert NodeText(a) == "Internal";
    ExcludesInternal();
    assert NextPath(Start, a) == ["Internal"];
    AsWrittenExcludedStep(Start, a, env);
  }

  lemma ExampleSecondStep(env: Env, w1: DocState, b: Node, w2: DocState)
    requires env == ExampleEnv() && b == H(H2, "Notes") && w2 == StepAsWritten(w1, b, env)
    requires w1.skip == Some(1) && w1.path == ["Internal"] && w1.parts == []
    ensures w2.skip == Some(2) && w2.path == ["Internal", "Notes"] && w2.parts == []
  {
    assert NodeText(b) == "Notes" && Level(b.htype) == 2;
    ExcludesNotes();
    assert Truncate(w1.path, 2) == ["Internal"];
    AsWrittenExcludedStep(w1, b, env);
  }

  lemma ExampleThirdStep(env: Env, w2: DocState, c: Node)
    requires env == ExampleEnv() && c == H(H2, "Summary")
    requires w2.skip == Some(2) && w2.path == ["Internal", "Notes"] && w2.parts == []
    ensures StepAsWritten(w2, c, env).parts == ["## Summary"]
  {
    assert NodeText(c) == "Summary";
    KeepsSummary();
    ExampleSummaryMd(env);
    assert NextPath(w2, c) == ["Internal", "Summary"];
    AsWrittenResumeStep(w2, c, env, "## Summary");
  }

  lemma ExampleCorrected(env: Env, a: Node, b: Node, c: Node)
    requires env == ExampleEnv() && a == H(H1, "Internal") && b == H(H2, "Notes") && c == H(H2, "Summary")
    ensures Step(Step(Step(Start, a, env), b, env), c, env).parts == []
  {
    var s1 := Step(Start, a, env);
    CorrectedFirstStep(env, a, s1);
    var s2 := Step(s1, b, env);
    CorrectedSecondStep(env, s1, b, s2);
    CorrectedThirdStep(env, s2, c);
  }

  lemma CorrectedFirstStep(env: Env, a: Node, s1: DocState)
    requires env == ExampleEnv() && a == H(H1, "Internal") && s1 == Step(Start, a, env)
    ensures s1.skip == Some(1) && s1.path == ["Internal"] && s1.parts == []
  {
    assert NodeText(a) == "Internal";
    ExcludesInternal();
    assert NextPath(Start, a) == ["Internal"];
    ExcludedStep(Start, a, env);
  }

  lemma CorrectedSecondStep(env: Env, s1: DocState, b: Node, s2: DocState)
    requires env == ExampleEnv() && b == H(H2, "Notes") && s2 == Step(s1, b, env)
    requires s1.skip == Some(1) && s1.parts == []
    ensures s2.skip == Some(1) && s2.parts == []
  {
    SkipHolds(s1, [b], 1, env);
    assert [b][..0] == [];
  }

  lemma CorrectedThirdStep(env: Env, s2: DocState, c: Node)
    requires env == ExampleEnv() && c == H(H2, "Summary")
    requires s2.skip == Some(1) && s2.parts == []
    ensures Step(s2, c, env).parts == []
  {
    SkipHolds(s2, [c], 1, env);
    assert [c][..0] == [];
  }
}
