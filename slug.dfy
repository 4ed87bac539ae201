/**
 * The kebab-case slug used for output file names and link targets. The
 * source defines the same five steps three times, in converter.py,
 * builder.py and export_parser.py; here it is defined once:
 *   1. lower-case;
 *   2. drop every character that is not a word character, whitespace or `-`;
 *   3. replace each run of whitespace and `_` by one `-`;
 *   4. replace each run of `-` by one `-`;
 *   5. strip `-` from both ends.
 * Word characters are the ASCII letters, digits and `_`.
 */
module Slug {
  import opened Strings

  predicate IsWordChar(c: char) {
    IsLetter(c) || IsDigit(c) || c == '_'
  }

  /** The characters a slug is made of. */
  predicate IsSlugChar(c: char) {
    IsLower(c) || IsDigit(c) || c == '-'
  }

  predicate NoUpper(s: string) {
    forall i :: 0 <= i < |s| ==> !IsUpper(s[i])
  }

  predicate AllSlugChars(s: string) {
    forall i :: 0 <= i < |s| ==> IsSlugChar(s[i])
  }

  predicate NoDoubleHyphen(s: string) {
    forall i :: 0 <= i < |s| - 1 ==> !(s[i] == '-' && s[i + 1] == '-')
  }

  /** Step 2: `re.sub(r"[^\w\s-]", "", s)`. */
  function KeepWordSpaceHyphen(s: string): string {
    if s == [] then []
    else if IsWordChar(s[0]) || IsSpace(s[0]) || s[0] == '-' then [s[0]] + KeepWordSpaceHyphen(s[1..])
    else KeepWordSpaceHyphen(s[1..])
  }

  /**
   * Step 3: `re.sub(r"[\s_]+", "-", s)`; `inRun` says whether the character
   * before `s` was already part of a run that has been replaced.
   */
  function SpaceRunsToHyphen(s: string, inRun: bool): string {
    if s == [] then []
    else if IsSpace(s[0]) || s[0] == '_' then
      (if inRun then [] else "-") + SpaceRunsToHyphen(s[1..], true)
    else [s[0]] + SpaceRunsToHyphen(s[1..], false)
  }

  /** Step 4: `re.sub(r"-+", "-", s)`. */
  function CollapseHyphens(s: string, inRun: bool): string {
    if s == [] then []
    else if s[0] == '-' then
      (if inRun then [] else "-") + CollapseHyphens(s[1..], true)
    else [s[0]] + CollapseHyphens(s[1..], false)
  }

  function Slugify(text: string): string {
    StripChar(CollapseHyphens(SpaceRunsToHyphen(KeepWordSpaceHyphen(Lower(text)), false), false), '-')
  }

  /** Only word characters, whitespace and `-`. */
  predicate KeptChars(s: string) {
    forall i :: 0 <= i < |s| ==> IsWordChar(s[i]) || IsSpace(s[i]) || s[i] == '-'
  }

  /** Step 2 keeps only word characters, whitespace and `-`, and adds no upper-case letter. */
  lemma {:induction false} KeepShape(s: string)
    ensures KeptChars(KeepWordSpaceHyphen(s))
    ensures NoUpper(s) ==> NoUpper(KeepWordSpaceHyphen(s))
  {
    if s != [] {
      KeepShape(s[1..]);
      assert NoUpper(s) ==> NoUpper(s[1..]) by {
        if NoUpper(s) {
          forall i | 0 <= i < |s| - 1 ensures !IsUpper(s[1..][i]) { assert s[1..][i] == s[i + 1]; }
        }
      }
      var rest := KeepWordSpaceHyphen(s[1..]);
      if IsWordChar(s[0]) || IsSpace(s[0]) || s[0] == '-' {
        var r := [s[0]] + rest;
        forall i | 1 <= i < |r| ensures r[i] == rest[i - 1] { }
      }
    }
  }

  /** Step 3 leaves no whitespace and no `_`: on lower-case input only slug characters remain. */
  lemma {:induction false} SpaceRunsShape(s: string, inRun: bool)
    requires NoUpper(s) && KeptChars(s)
    ensures AllSlugChars(SpaceRunsToHyphen(s, inRun))
  {
    if s != [] {
      SpaceRunsShape(s[1..], IsSpace(s[0]) || s[0] == '_');
    }
  }

  /** Step 4 keeps slug characters and leaves no `--`; after a run it does not start with `-`. */
  lemma {:induction false} CollapseShape(s: string, inRun: bool)
    ensures var r := CollapseHyphens(s, inRun);
      && (AllSlugChars(s) ==> AllSlugChars(r))
      && NoDoubleHyphen(r)
      && (inRun ==> r == [] || r[0] != '-')
  {
    if s != [] {
      CollapseShape(s[1..], s[0] == '-');
    }
  }

  lemma StrippedShape(collapsed: string)
    requires AllSlugChars(collapsed) && NoDoubleHyphen(collapsed)
    ensures var r := StripChar(collapsed, '-');
      && AllSlugChars(r) && NoDoubleHyphen(r)
      && (r == [] || (r[0] != '-' && r[|r| - 1] != '-'))
  {
    StripCharShape(collapsed, '-');
    var r := StripChar(collapsed, '-');
    var a, b :| 0 <= a <= b <= |collapsed| && r == collapsed[a..b];
    forall i | 0 <= i < |r| ensures IsSlugChar(r[i]) {
      assert r[i] == collapsed[a + i];
    }
    forall i | 0 <= i < |r| - 1 ensures !(r[i] == '-' && r[i + 1] == '-') {
      assert r[i] == collapsed[a + i] && r[i + 1] == collapsed[a + i + 1];
    }
  }

  /**
   * A slug is made of lower-case ASCII letters, digits and `-`, has no `--`
   * and neither starts nor ends with `-`.
   */
  lemma SlugShape(text: string)
    ensures var r := Slugify(text);
      && AllSlugChars(r)
      && NoDoubleHyphen(r)
      && (r == [] || (r[0] != '-' && r[|r| - 1] != '-'))
  {
    var kept := KeepWordSpaceHyphen(Lower(text));
    KeepShape(Lower(text));
    var spaced := SpaceRunsToHyphen(kept, false);
    SpaceRunsShape(kept, false);
    CollapseShape(spaced, false);
    StrippedShape(CollapseHyphens(spaced, false));
  }

  /** A slug is its own slug: slugifying twice gives the same name as once. */
  lemma SlugIdempotent(text: string)
    ensures Slugify(Slugify(text)) == Slugify(text)
  {
    SlugShape(text);
    SlugFixed(Slugify(text));
  }

  /** Every step leaves a well-formed slug unchanged. */
  lemma SlugFixed(s: string)
    requires AllSlugChars(s) && NoDoubleHyphen(s)
    requires s == [] || (s[0] != '-' && s[|s| - 1] != '-')
    ensures Slugify(s) == s
  {
    assert Lower(s) == s;
    KeepFixed(s);
    SpaceRunsFixed(s, false);
    CollapseFixed(s, false);
  }

  lemma {:induction false} KeepFixed(s: string)
    requires AllSlugChars(s)
    ensures KeepWordSpaceHyphen(s) == s
  {
    if s != [] {
      assert AllSlugChars(s[1..]) by {
        forall i | 0 <= i < |s| - 1 ensures IsSlugChar(s[1..][i]) { assert s[1..][i] == s[i + 1]; }
      }
      KeepFixed(s[1..]);
      assert [s[0]] + s[1..] == s;
    }
  }

  lemma {:induction false} SpaceRunsFixed(s: string, inRun: bool)
    requires AllSlugChars(s)
    ensures SpaceRunsToHyphen(s, inRun) == s
  {
    if s != [] {
      assert AllSlugChars(s[1..]) by {
        forall i | 0 <= i < |s| - 1 ensures IsSlugChar(s[1..][i]) { assert s[1..][i] == s[i + 1]; }
      }
      SpaceRunsFixed(s[1..], false);
      assert [s[0]] + s[1..] == s;
    }
  }

  lemma {:induction false} CollapseFixed(s: string, inRun: bool)
    requires NoDoubleHyphen(s)
    requires inRun ==> s == [] || s[0] != '-'
    ensures CollapseHyphens(s, inRun) == s
  {
    if s != [] {
      assert NoDoubleHyphen(s[1..]) by {
        forall i | 0 <= i < |s| - 2 ensures !(s[1..][i] == '-' && s[1..][i + 1] == '-') {
          assert s[1..][i] == s[i + 1] && s[1..][i + 1] == s[i + 2];
        }
      }
      if |s| > 1 {
        assert !(s[0] == '-' && s[1] == '-');
      }
      CollapseFixed(s[1..], s[0] == '-');
      assert [s[0]] + s[1..] == s;
    }
  }
  /** The lower-case letters and digits of `s`, in order. */
  function Alnum(s: string): string {
    if s == [] then []
    else (if IsLower(s[0]) || IsDigit(s[0]) then [s[0]] else []) + Alnum(s[1..])
  }

  lemma {:induction false} AlnumConcat(a: string, b: string)
    ensures Alnum(a + b) == Alnum(a) + Alnum(b)
  {
    if a != [] {
      assert (a + b)[1..] == a[1..] + b;
      AlnumConcat(a[1..], b);
    } else {
      assert a + b == b;
    }
  }

  /** A character that is not a lower-case letter or digit adds nothing to `Alnum`. */
  lemma AlnumSkip(c: char, s: string)
    requires !IsLower(c) && !IsDigit(c)
    ensures Alnum([c] + s) == Alnum(s)
  {
    assert ([c] + s)[1..] == s;
  }

  lemma AlnumKeepFirst(c: char, s: string)
    ensures Alnum([c] + s) == (if IsLower(c) || IsDigit(c) then [c] else []) + Alnum(s)
  {
    assert ([c] + s)[1..] == s;
  }

  lemma {:induction false} AlnumKeep(s: string)
    ensures Alnum(KeepWordSpaceHyphen(s)) == Alnum(s)
  {
    if s != [] {
      AlnumKeep(s[1..]);
      if IsWordChar(s[0]) || IsSpace(s[0]) || s[0] == '-' {
        AlnumKeepFirst(s[0], KeepWordSpaceHyphen(s[1..]));
      }
    }
  }

  lemma {:induction false} AlnumSpaceRuns(s: string, inRun: bool)
    ensures Alnum(SpaceRunsToHyphen(s, inRun)) == Alnum(s)
  {
    if s != [] {
      var rest := SpaceRunsToHyphen(s[1..], IsSpace(s[0]) || s[0] == '_');
      AlnumSpaceRuns(s[1..], IsSpace(s[0]) || s[0] == '_');
      if IsSpace(s[0]) || s[0] == '_' {
        if !inRun { AlnumSkip('-', rest); } else { assert [] + rest == rest; }
      } else {
        AlnumKeepFirst(s[0], rest);
      }
    }
  }

  lemma {:induction false} AlnumCollapse(s: string, inRun: bool)
    ensures Alnum(CollapseHyphens(s, inRun)) == Alnum(s)
  {
    if s != [] {
      var rest := CollapseHyphens(s[1..], s[0] == '-');
      AlnumCollapse(s[1..], s[0] == '-');
      if s[0] == '-' {
        if !inRun { AlnumSkip('-', rest); } else { assert [] + rest == rest; }
      } else {
        AlnumKeepFirst(s[0], rest);
      }
    }
  }

  lemma {:induction false} AlnumStrip(s: string)
    ensures Alnum(StripChar(s, '-')) == Alnum(s)
    decreases |s|
  {
    if s != [] && s[0] == '-' {
      AlnumStrip(s[1..]);
      AlnumSkip('-', s[1..]);
      assert [s[0]] + s[1..] == s;
    } else if s != [] && s[|s| - 1] == '-' {
      AlnumStrip(s[..|s| - 1]);
      AlnumConcat(s[..|s| - 1], ['-']);
      AlnumSkip('-', []);
      assert s[..|s| - 1] + ['-'] == s;
    }
  }

  /**
   * A slug keeps every letter and digit of the text, lower-cased and in
   * order, and no others: together with `SlugShape`, only the placement of
   * the `-` separators is left open.
   */
  lemma SlugKeepsAlnum(text: string)
    ensures Alnum(Slugify(text)) == Alnum(Lower(text))
  {
    var kept := KeepWordSpaceHyphen(Lower(text));
    var spaced := SpaceRunsToHyphen(kept, false);
    AlnumKeep(Lower(text));
    AlnumSpaceRuns(kept, false);
    AlnumCollapse(spaced, false);
    AlnumStrip(CollapseHyphens(spaced, false));
  }

  lemma {:induction false} KeepConcat(a: string, b: string)
    ensures KeepWordSpaceHyphen(a + b) == KeepWordSpaceHyphen(a) + KeepWordSpaceHyphen(b)
  {
    if a != [] {
      assert (a + b)[1..] == a[1..] + b;
      KeepConcat(a[1..], b);
    } else {
      assert a + b == b;
    }
  }

  /** Whether step 3 is inside a replaced run after reading `a`. */
  function RunAfter(a: string, inRun: bool): bool {
    if a == [] then inRun else RunAfter(a[1..], IsSpace(a[0]) || a[0] == '_')
  }

  lemma {:induction false} SpaceRunsConcat(a: string, b: string, inRun: bool)
    ensures SpaceRunsToHyphen(a + b, inRun)
         == SpaceRunsToHyphen(a, inRun) + SpaceRunsToHyphen(b, RunAfter(a, inRun))
  {
    if a != [] {
      assert (a + b)[1..] == a[1..] + b;
      SpaceRunsConcat(a[1..], b, IsSpace(a[0]) || a[0] == '_');
    } else {
      assert a + b == b;
    }
  }

  /** After a word of slug characters, step 3 is not inside a run. */
  lemma {:induction false} RunAfterWord(a: string, inRun: bool)
    requires a != [] && AllSlugChars(a)
    ensures !RunAfter(a, inRun)
  {
    if |a| > 1 {
      assert AllSlugChars(a[1..]) by {
        forall i | 0 <= i < |a| - 1 ensures IsSlugChar(a[1..][i]) { assert a[1..][i] == a[i + 1]; }
      }
      RunAfterWord(a[1..], IsSpace(a[0]) || a[0] == '_');
    }
  }

  /** Step 3 does not start a run on a string that starts with a character it keeps. */
  lemma SpaceRunsStart(s: string)
    requires s != [] && !IsSpace(s[0]) && s[0] != '_'
    ensures SpaceRunsToHyphen(s, true) == SpaceRunsToHyphen(s, false)
  {
  }

  /** A string with no `-` at either end is its own `strip("-")`. */
  lemma StripNothing(s: string)
    requires s != [] && s[0] != '-' && s[|s| - 1] != '-'
    ensures StripChar(s, '-') == s
  {
  }

  /** The five steps, each given by its result. */
  lemma SlugOfSteps(text: string, lowered: string, kept: string, spaced: string, collapsed: string, slug: string)
    requires Lower(text) == lowered && KeepWordSpaceHyphen(lowered) == kept
    requires SpaceRunsToHyphen(kept, false) == spaced && CollapseHyphens(spaced, false) == collapsed
    requires StripChar(collapsed, '-') == slug
    ensures Slugify(text) == slug
  {
  }

  predicate AllLettersOrDigits(s: string) {
    forall i :: 0 <= i < |s| ==> IsLetter(s[i]) || IsDigit(s[i])
  }

  /** A non-empty run of lower-case letters and digits. */
  predicate IsLowerWord(w: string) {
    w != [] && forall i :: 0 <= i < |w| ==> IsLower(w[i]) || IsDigit(w[i])
  }

  /** A non-empty run of ASCII letters and digits. */
  predicate IsWord(w: string) {
    w != [] && AllLettersOrDigits(w)
  }

  function LowerAll(ws: seq<string>): (r: seq<string>)
    ensures |r| == |ws| && forall i :: 0 <= i < |ws| ==> r[i] == Lower(ws[i])
  {
    seq(|ws|, i requires 0 <= i < |ws| => Lower(ws[i]))
  }

  lemma LowerConcat(a: string, b: string)
    ensures Lower(a + b) == Lower(a) + Lower(b)
  {
    assert forall i :: 0 <= i < |a| ==> (a + b)[i] == a[i];
    assert forall i :: |a| <= i < |a| + |b| ==> (a + b)[i] == b[i - |a|];
  }

  /** A lower-cased word is a word of lower-case letters. */
  lemma LowerWord(x: string)
    requires IsWord(x)
    ensures IsLowerWord(Lower(x))
  {
  }

  lemma {:induction false} JoinLower(ws: seq<string>)
    ensures Lower(Join(ws, " ")) == Join(LowerAll(ws), " ")
  {
    if |ws| > 1 {
      JoinLower(ws[1..]);
      assert LowerAll(ws)[1..] == LowerAll(ws[1..]);
      LowerConcat(ws[0] + " ", Join(ws[1..], " "));
      LowerConcat(ws[0], " ");
      assert Lower(" ") == " ";
    }
  }

  lemma {:induction false} JoinKeep(ws: seq<string>)
    requires forall i :: 0 <= i < |ws| ==> IsLowerWord(ws[i])
    ensures KeepWordSpaceHyphen(Join(ws, " ")) == Join(ws, " ")
  {
    if |ws| == 1 {
      KeepFixed(ws[0]);
    } else if |ws| > 1 {
      JoinKeep(ws[1..]);
      KeepFixed(ws[0]);
      KeepConcat(ws[0] + " ", Join(ws[1..], " "));
      KeepConcat(ws[0], " ");
      assert KeepWordSpaceHyphen(" ") == " ";
    }
  }

  lemma {:induction false} JoinSpaces(ws: seq<string>)
    requires forall i :: 0 <= i < |ws| ==> IsLowerWord(ws[i])
    ensures SpaceRunsToHyphen(Join(ws, " "), false) == Join(ws, "-")
  {
    if |ws| == 1 {
      SpaceRunsFixed(ws[0], false);
    } else if |ws| > 1 {
      var w, rest := ws[0], Join(ws[1..], " ");
      JoinSpaces(ws[1..]);
      JoinFirst(ws[1..], " ");
      SpaceRunsStart(rest);
      assert w + " " + rest == w + (" " + rest);
      SpaceRunsConcat(w, " " + rest, false);
      RunAfterWord(w, false);
      SpaceRunsFixed(w, false);
      assert (" " + rest)[1..] == rest;
      assert w + ("-" + Join(ws[1..], "-")) == w + "-" + Join(ws[1..], "-");
    }
  }

  /** A join of words starts with the first letter of the first word. */
  lemma JoinFirst(ws: seq<string>, sep: string)
    requires |ws| > 0 && IsLowerWord(ws[0])
    ensures Join(ws, sep) != [] && Join(ws, sep)[0] == ws[0][0]
  {
  }

  /** Lower-case words joined by `-` have the shape of a slug. */
  lemma {:induction false} JoinHyphenShape(ws: seq<string>)
    requires |ws| > 0 && forall i :: 0 <= i < |ws| ==> IsLowerWord(ws[i])
    ensures var r := Join(ws, "-");
      && r != [] && AllSlugChars(r) && NoDoubleHyphen(r)
      && r[0] != '-' && r[|r| - 1] != '-'
  {
    var r := Join(ws, "-");
    if |ws| == 1 {
      assert r == ws[0];
    } else {
      var w, rest := ws[0], Join(ws[1..], "-");
      JoinHyphenShape(ws[1..]);
      assert r == w + "-" + rest;
      forall i | 0 <= i < |r| ensures IsSlugChar(r[i]) {
        if i < |w| { assert r[i] == w[i]; }
        else if i > |w| { assert r[i] == rest[i - |w| - 1]; }
      }
      forall i | 0 <= i < |r| - 1 ensures !(r[i] == '-' && r[i + 1] == '-') {
        if i < |w| { assert r[i] == w[i]; }
        else if i == |w| { assert r[i + 1] == rest[0]; }
        else { assert r[i] == rest[i - |w| - 1] && r[i + 1] == rest[i - |w|]; }
      }
      assert r[0] == w[0] && r[|r| - 1] == rest[|rest| - 1];
    }
  }

  /**
   * Words of letters and digits separated by single spaces slugify to the lower-cased
   * words joined by `-`.
   */
  lemma SlugOfWords(ws: seq<string>)
    requires |ws| > 0 && forall i :: 0 <= i < |ws| ==> IsWord(ws[i])
    ensures Slugify(Join(ws, " ")) == Join(LowerAll(ws), "-")
  {
    var lws := LowerAll(ws);
    forall i | 0 <= i < |lws| ensures IsLowerWord(lws[i]) {
      LowerWord(ws[i]);
    }
    JoinLower(ws);
    JoinKeep(lws);
    JoinSpaces(lws);
    var r := Join(lws, "-");
    JoinHyphenShape(lws);
    CollapseFixed(r, false);
    StripNothing(r);
    SlugOfSteps(Join(ws, " "), Join(lws, " "), Join(lws, " "), r, r, r);
  }

  /** Characters that the filter of step 2 drops. */
  predicate Punctuation(p: string) {
    forall i :: 0 <= i < |p| ==> !IsWordChar(p[i]) && !IsSpace(p[i]) && p[i] != '-'
  }

  lemma {:induction false} DropPunctuation(p: string)
    requires Punctuation(p)
    ensures KeepWordSpaceHyphen(p) == [] && Lower(p) == p
  {
    if p != [] {
      assert forall i :: 0 <= i < |p| - 1 ==> p[1..][i] == p[i + 1];
      DropPunctuation(p[1..]);
    }
  }

  lemma PunctuatedLower(x: string, p: string, y: string)
    requires Punctuation(p)
    ensures Lower(x + p + y) == Lower(x) + p + Lower(y)
  {
    LowerConcat(x + p, y);
    LowerConcat(x, p);
    DropPunctuation(p);
  }

  lemma PunctuatedKeep(a: string, p: string, b: string)
    requires IsLowerWord(a) && IsLowerWord(b) && Punctuation(p)
    ensures KeepWordSpaceHyphen(a + p + b) == a + b
  {
    DropPunctuation(p);
    KeepFixed(a);
    KeepFixed(b);
    KeepConcat(a + p, b);
    KeepConcat(a, p);
    assert a + [] == a;
  }

  lemma PunctuatedSteps(x: string, p: string, y: string)
    requires IsWord(x) && IsWord(y) && Punctuation(p)
    ensures KeepWordSpaceHyphen(Lower(x + p + y)) == Lower(x) + Lower(y)
  {
    LowerWord(x);
    LowerWord(y);
    PunctuatedLower(x, p, y);
    PunctuatedKeep(Lower(x), p, Lower(y));
  }

  /** Two words with only punctuation between them slugify to the lower-cased words run together. */
  lemma SlugPunctuated(x: string, p: string, y: string)
    requires IsWord(x) && IsWord(y) && Punctuation(p)
    ensures Slugify(x + p + y) == Lower(x) + Lower(y)
  {
    PunctuatedSteps(x, p, y);
    LowerWord(x + y);
    LowerConcat(x, y);
    var r := Lower(x) + Lower(y);
    JoinHyphenShape([r]);
    SpaceRunsFixed(r, false);
    CollapseFixed(r, false);
    StripNothing(r);
    SlugOfSteps(x + p + y, Lower(x + p + y), r, r, r, r);
  }

  /** The three examples of slugs the program's tests expect. */
  lemma HelloWorldSlug(text: string)
    requires text == "Hello World"
    ensures Slugify(text) == "hello-world"
  {
    var ws := ["Hello", "World"];
    assert text == Join(ws, " ");
    SlugOfWords(ws);
    assert Lower("Hello") == "hello" && Lower("World") == "world";
    assert LowerAll(ws) == ["hello", "world"];
  }

  /** The title of the sibling-section example of relative links. */
  lemma ArchitectureOverviewSlug(text: string)
    requires text == "Architecture Overview"
    ensures Slugify(text) == "architecture-overview"
  {
    var ws := ["Architecture", "Overview"];
    assert text == Join(ws, " ");
    SlugOfWords(ws);
    assert Lower("Architecture") == "architecture" && Lower("Overview") == "overview";
    assert LowerAll(ws) == ["architecture", "overview"];
  }

  lemma MyPageTitleSlug(text: string)
    requires text == "My Page Title"
    ensures Slugify(text) == "my-page-title"
  {
    assert text == "My" + " " + "Page" + " " + "Title";
    MyPageTitleWords();
    ThreeWordSlug("My", "Page", "Title");
  }

  lemma MyPageTitleWords()
    ensures IsWord("My") && IsWord("Page") && IsWord("Title")
    ensures Lower("My") + "-" + Lower("Page") + "-" + Lower("Title") == "my-page-title"
  {
    assert Lower("My") == "my" && Lower("Page") == "page" && Lower("Title") == "title";
  }

  /** Three words separated by single spaces slugify to the lower-cased words joined by `-`. */
  lemma ThreeWordSlug(a: string, b: string, c: string)
    requires IsWord(a) && IsWord(b) && IsWord(c)
    ensures Slugify(a + " " + b + " " + c) == Lower(a) + "-" + Lower(b) + "-" + Lower(c)
  {
    var ws := [a, b, c];
    JoinThree(a, b, c, " ");
    SlugOfWords(ws);
    assert LowerAll(ws) == [Lower(a), Lower(b), Lower(c)];
    JoinThree(Lower(a), Lower(b), Lower(c), "-");
  }

  lemma JoinThree(a: string, b: string, c: string, sep: string)
    ensures Join([a, b, c], sep) == a + sep + b + sep + c
  {
    assert [a, b, c][1..] == [b, c] && [b, c][1..] == [c];
    assert Join([b, c], sep) == b + sep + c;
    assert a + sep + (b + sep + c) == a + sep + b + sep + c;
  }

  lemma PunctuationSlug(text: string)
    requires text == "Test!@#Page"
    ensures Slugify(text) == "testpage"
  {
    assert text == "Test" + "!@#" + "Page";
    SlugPunctuated("Test", "!@#", "Page");
    assert Lower("Test") == "test" && Lower("Page") == "page";
  }
}
