/**
 * The part of `pathlib.PurePosixPath` the builder relies on: parsing a
 * string into a root and its parts, the `/` operator, `str()` and `.name`.
 * Parsing drops empty and `.` segments; a path that starts with exactly two
 * slashes keeps `//` as its root, one or three and more give `/`. Joining an
 * absolute path discards everything before it. `..` is kept as a part.
 */
module Paths {
  import opened Strings

  datatype PurePath = PurePath(root: string, parts: seq<string>)

  /** The segments that parsing drops. */
  predicate Skipped(piece: string) {
    piece == "" || piece == "."
  }

  /** The segments of a split path that parsing keeps, in order. */
  function Components(pieces: seq<string>): (r: seq<string>)
    ensures forall i :: 0 <= i < |r| ==> !Skipped(r[i])
    ensures forall x :: x in r ==> x in pieces
  {
    if pieces == [] then []
    else
      var init := Components(pieces[..|pieces| - 1]);
      var last := pieces[|pieces| - 1];
      if Skipped(last) then init else init + [last]
  }

  /** Parsing a concatenation keeps the parts of each side, in order. */
  lemma {:induction false} ComponentsConcat(a: seq<string>, b: seq<string>)
    ensures Components(a + b) == Components(a) + Components(b)
  {
    if b == [] {
      assert a + b == a;
    } else {
      var b0 := b[..|b| - 1];
      assert (a + b)[..|a + b| - 1] == a + b0;
      assert (a + b)[|a + b| - 1] == b[|b| - 1];
      ComponentsConcat(a, b0);
    }
  }

  /** One segment is kept exactly when it is neither empty nor `.`. */
  lemma ComponentsSingle(piece: string)
    ensures Components([piece]) == if Skipped(piece) then [] else [piece]
  {
    assert [piece][..0] == [];
  }

  /**
   * No part is kept exactly when every segment is skipped; otherwise the
   * last part is the last segment that is not skipped.
   */
  lemma {:induction false} ComponentsLast(pieces: seq<string>)
    ensures var r := Components(pieces);
      && (r == [] <==> forall i :: 0 <= i < |pieces| ==> Skipped(pieces[i]))
      && (r != [] ==> exists k :: 0 <= k < |pieces| && pieces[k] == r[|r| - 1]
                               && forall i :: k < i < |pieces| ==> Skipped(pieces[i]))
  {
    if pieces != [] {
      var init := pieces[..|pieces| - 1];
      ComponentsLast(init);
      var r := Components(pieces);
      if Skipped(pieces[|pieces| - 1]) {
        if r != [] {
          var k :| 0 <= k < |init| && init[k] == r[|r| - 1] && forall i :: k < i < |init| ==> Skipped(init[i]);
          assert pieces[k] == init[k];
          assert forall i :: k < i < |pieces| ==> Skipped(pieces[i]) by {
            forall i | k < i < |pieces| ensures Skipped(pieces[i]) {
              if i < |init| { assert pieces[i] == init[i]; }
            }
          }
        } else {
          assert forall i :: 0 <= i < |pieces| ==> Skipped(pieces[i]) by {
            forall i | 0 <= i < |pieces| ensures Skipped(pieces[i]) {
              if i < |init| { assert pieces[i] == init[i]; }
            }
          }
        }
      } else {
        assert pieces[|pieces| - 1] == r[|r| - 1];
      }
    }
  }

  /** `PurePosixPath(s)`. */
  function ParsePath(s: string): (p: PurePath)
    ensures p.root in {"", "/", "//"}
    ensures p.root != "" <==> s != [] && s[0] == '/'
    ensures p.root == "//" <==> |s| >= 2 && s[..2] == "//" && (|s| == 2 || s[2] != '/')
    ensures p.parts == Components(Split(s, '/'))
    ensures forall i :: 0 <= i < |p.parts| ==> !Skipped(p.parts[i])
    ensures forall i, j :: 0 <= i < |p.parts| && 0 <= j < |p.parts[i]| ==> p.parts[i][j] != '/'
  {
    var root :=
      if |s| >= 2 && s[0] == '/' && s[1] == '/' && (|s| == 2 || s[2] != '/') then "//"
      else if s != [] && s[0] == '/' then "/"
      else "";
    var p := PurePath(root, Components(Split(s, '/')));
    assert forall i :: 0 <= i < |p.parts| ==> p.parts[i] in Split(s, '/');
    p
  }

  /** `str(path)`: the root followed by the parts joined by `/`; an empty relative path is `.`. */
  function PathStr(p: PurePath): string {
    if p.root == "" && p.parts == [] then "." else p.root + Join(p.parts, "/")
  }

  /** `path / b`: an absolute `b` replaces the path, a relative one is appended part by part. */
  function Div(p: PurePath, b: string): (r: PurePath)
    ensures var q := ParsePath(b);
      && (q.root != "" ==> r == q)
      && (q.root == "" ==> r == PurePath(p.root, p.parts + q.parts))
  {
    var q := ParsePath(b);
    if q.root != "" then q else PurePath(p.root, p.parts + q.parts)
  }

  /**
   * `PurePosixPath(path).name`: the last segment of `path` that parsing
   * keeps, or `""` when it keeps none.
   */
  function PathName(path: string): (r: string)
    ensures forall i :: 0 <= i < |r| ==> r[i] != '/'
    ensures var pieces := Split(path, '/');
      && (r == "" <==> forall i :: 0 <= i < |pieces| ==> Skipped(pieces[i]))
      && (r != "" ==> !Skipped(r) && exists k :: 0 <= k < |pieces| && pieces[k] == r
                                              && forall i :: k < i < |pieces| ==> Skipped(pieces[i]))
  {
    var parts := Components(Split(path, '/'));
    ComponentsLast(Split(path, '/'));
    if parts == [] then ""
    else
      var r := parts[|parts| - 1];
      assert !Skipped(r) && r in Split(path, '/');
      r
  }

  /** Appending a string without `c` extends the last piece of a split. */
  lemma {:induction false} SplitAppend(s: string, t: string, c: char)
    requires forall i :: 0 <= i < |t| ==> t[i] != c
    ensures var ps := Split(s, c);
      Split(s + t, c) == ps[..|ps| - 1] + [ps[|ps| - 1] + t]
  {
    if s == [] {
      SplitNoSeparator(t, c);
      assert s + t == t;
    } else {
      var rest := Split(s[1..], c);
      assert (s + t)[1..] == s[1..] + t;
      assert (s + t)[0] == s[0];
      SplitAppend(s[1..], t, c);
      var rest' := Split(s[1..] + t, c);
      if s[0] == c {
        ExtendLast([""], rest, rest', t);
      } else {
        ExtendFirst([s[0]], rest, rest', t);
      }
    }
  }

  /** A split that starts with a new piece keeps that piece when its last piece is extended. */
  lemma ExtendLast(x: seq<string>, rest: seq<string>, rest': seq<string>, t: string)
    requires |rest| >= 1 && rest' == rest[..|rest| - 1] + [rest[|rest| - 1] + t]
    ensures var ps := x + rest; x + rest' == ps[..|ps| - 1] + [ps[|ps| - 1] + t]
  {
    var ps := x + rest;
    assert ps[..|ps| - 1] == x + rest[..|rest| - 1];
  }

  /** A split whose first piece grows at the front keeps that growth when its last piece is extended. */
  lemma ExtendFirst(x: string, rest: seq<string>, rest': seq<string>, t: string)
    requires |rest| >= 1 && rest' == rest[..|rest| - 1] + [rest[|rest| - 1] + t]
    ensures var ps := [x + rest[0]] + rest[1..];
      [x + rest'[0]] + rest'[1..] == ps[..|ps| - 1] + [ps[|ps| - 1] + t]
  {
    var ps := [x + rest[0]] + rest[1..];
    if |rest| == 1 {
      assert rest' == [rest[0] + t];
      assert x + (rest[0] + t) == (x + rest[0]) + t;
    } else {
      assert rest'[0] == rest[0];
      assert rest'[1..] == rest[1..|rest| - 1] + [rest[|rest| - 1] + t];
      assert ps[..|ps| - 1] == [x + rest[0]] + rest[1..|rest| - 1];
    }
  }

  /** A join ends with its last part. */
  lemma {:induction false} JoinEndsWithLast(parts: seq<string>, sep: string)
    requires |parts| > 0
    ensures var j := Join(parts, sep); var x := parts[|parts| - 1];
      |x| <= |j| && j[|j| - |x|..] == x
  {
    if |parts| > 1 {
      JoinEndsWithLast(parts[1..], sep);
      var j, x := Join(parts[1..], sep), parts[|parts| - 1];
      assert Join(parts, sep) == (parts[0] + sep) + j;
    }
  }

  /** A name ending in `.md` parses to parts whose last one ends in `.md`, so its path's string does too. */
  lemma MarkdownName(stem: string)
    ensures var q := ParsePath(stem + ".md");
      q.parts != [] && var x := q.parts[|q.parts| - 1]; |x| >= 3 && x[|x| - 3..] == ".md"
  {
    var ps := Split(stem, '/');
    SplitAppend(stem, ".md", '/');
    var pieces := Split(stem + ".md", '/');
    var last := ps[|ps| - 1] + ".md";
    assert pieces[|pieces| - 1] == last;
    assert pieces[..|pieces| - 1] + [last] == pieces;
    assert last[|last| - 3..] == ".md";
    assert !Skipped(last);
  }

  /** The string of a path whose last part ends in `.md` ends in `.md`. */
  lemma PathStrEndsWithLast(p: PurePath)
    requires p.parts != []
    ensures var s := PathStr(p); var x := p.parts[|p.parts| - 1];
      |x| <= |s| && s[|s| - |x|..] == x
  {
    JoinEndsWithLast(p.parts, "/");
    var j := Join(p.parts, "/");
    assert PathStr(p) == p.root + j;
  }

  /** Joining a file name that ends in `.md` onto any path gives a path whose string ends in `.md`. */
  lemma DivMarkdown(p: PurePath, stem: string)
    ensures var r := PathStr(Div(p, stem + ".md"));
      |r| >= 3 && r[|r| - 3..] == ".md"
  {
    var loc := Div(p, stem + ".md");
    MarkdownName(stem);
    var x := loc.parts[|loc.parts| - 1];
    PathStrEndsWithLast(loc);
    var r := PathStr(loc);
    assert r[|r| - 3..] == x[|x| - 3..];
  }
}
