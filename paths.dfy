/**
 * POSIX paths as `pathlib.PurePosixPath` sees them: a root ("", "/" or "//")
 * and the named components, with empty and "." segments dropped. Resolution
 * is lexical against a given working directory; symbolic links are not
 * followed.
 */
module Paths {
  import opened Text

  datatype PurePath = PurePath(root: string, parts: seq<string>)

  /** A component as `pathlib` keeps it: non-empty, not ".", no separator. */
  predicate IsComponent(x: string) {
    x != [] && x != "." && '/' !in x
  }

  predicate WellFormed(p: PurePath) {
    && (p.root == "" || p.root == "/" || p.root == "//")
    && forall i :: 0 <= i < |p.parts| ==> IsComponent(p.parts[i])
  }

  /** `s.split("/")`. */
  function Segments(s: string): (r: seq<string>)
    ensures |r| >= 1
  {
    if s == [] then [[]]
    else
      var rest := Segments(s[1..]);
      if s[0] == '/' then [[]] + rest
      else [[s[0]] + rest[0]] + rest[1..]
  }

  /** The segments that name something. */
  function Named(segs: seq<string>): (r: seq<string>)
    ensures |r| <= |segs|
  {
    if segs == [] then []
    else (if segs[0] == [] || segs[0] == "." then [] else [segs[0]]) + Named(segs[1..])
  }

  /** The root `pathlib` keeps: exactly two leading slashes survive, three or more collapse to one. */
  function SplitRoot(s: string): (r: string)
    ensures r == "" || r == "/" || r == "//"
  {
    if |s| >= 2 && s[0] == '/' && s[1] == '/' && !(|s| >= 3 && s[2] == '/') then "//"
    else if |s| >= 1 && s[0] == '/' then "/"
    else ""
  }

  /** `PurePosixPath(s)`. */
  function Parse(s: string): (p: PurePath)
    ensures WellFormed(p)
  {
    SegmentsSlashFree(s);
    NamedComponents(Segments(s));
    PurePath(SplitRoot(s), Named(Segments(s)))
  }

  /** `str(p)`: the root and the components joined by "/", or "." when both are empty. */
  function Str(p: PurePath): string {
    var body := p.root + JoinWith("/", p.parts);
    if body == [] then "." else body
  }

  /** `p.is_absolute()`. */
  predicate IsAbsolute(p: PurePath) {
    p.root != []
  }

  /** `p / q`: an absolute right-hand side replaces the left. */
  function Join(p: PurePath, q: PurePath): (r: PurePath)
    ensures WellFormed(p) && WellFormed(q) ==> WellFormed(r)
    ensures IsAbsolute(q) ==> r == q
    ensures !IsAbsolute(q) ==> r.root == p.root && r.parts == p.parts + q.parts
  {
    if IsAbsolute(q) then q else PurePath(p.root, p.parts + q.parts)
  }

  /** `p / s` for a string `s`. */
  function JoinStr(p: PurePath, s: string): PurePath {
    Join(p, Parse(s))
  }

  /** `p.name`: the last component, or "" when there is none. */
  function Name(p: PurePath): string {
    if p.parts == [] then "" else p.parts[|p.parts| - 1]
  }

  /** `p.parent`: the path without its last component. */
  function Parent(p: PurePath): (r: PurePath)
    ensures r.root == p.root
    ensures p.parts != [] ==> r.parts + [Name(p)] == p.parts
  {
    if p.parts == [] then p else PurePath(p.root, p.parts[..|p.parts| - 1])
  }

  /** Lexical normalisation onto `acc`: ".." removes the last component, if any. */
  function Normalize(acc: seq<string>, parts: seq<string>): seq<string>
    decreases |parts|
  {
    if parts == [] then acc
    else if parts[0] == ".." then
      Normalize(if acc == [] then [] else acc[..|acc| - 1], parts[1..])
    else Normalize(acc + [parts[0]], parts[1..])
  }

  /**
   * `p.resolve()` with `cwd` the components of the working directory:
   * the components of the absolute path it names.
   */
  function Resolve(cwd: seq<string>, p: PurePath): seq<string> {
    Normalize(if IsAbsolute(p) then [] else cwd, p.parts)
  }

  /** `str()` of a resolved path. */
  function ResolvedStr(comps: seq<string>): string {
    "/" + JoinWith("/", comps)
  }

  /** `q.relative_to(p)` succeeds: `p` is `q` or one of its ancestors. */
  predicate IsUnder(p: seq<string>, q: seq<string>) {
    |p| <= |q| && q[..|p|] == p
  }

  // ----- lemmas -----

  lemma {:induction false} SegmentsSlashFree(s: string)
    ensures forall i :: 0 <= i < |Segments(s)| ==> '/' !in Segments(s)[i]
  {
    if s != [] {
      SegmentsSlashFree(s[1..]);
      var rest := Segments(s[1..]);
      if s[0] != '/' {
        var r := Segments(s);
        assert r == [[s[0]] + rest[0]] + rest[1..];
        forall i | 0 <= i < |r| ensures '/' !in r[i] {
          if i == 0 {
            assert '/' !in rest[0];
          } else {
            assert r[i] == rest[i];
          }
        }
      }
    }
  }

  lemma {:induction false} NamedComponents(segs: seq<string>)
    requires forall i :: 0 <= i < |segs| ==> '/' !in segs[i]
    ensures forall i :: 0 <= i < |Named(segs)| ==> IsComponent(Named(segs)[i])
  {
    if segs != [] {
      NamedComponents(segs[1..]);
      var head := if segs[0] == [] || segs[0] == "." then [] else [segs[0]];
      var r := Named(segs);
      assert r == head + Named(segs[1..]);
      forall i | 0 <= i < |r| ensures IsComponent(r[i]) {
        if i < |head| {
          assert r[i] == segs[0];
        } else {
          assert r[i] == Named(segs[1..])[i - |head|];
        }
      }
    }
  }

  /** Components pass through unchanged. */
  lemma {:induction false} NamedOfComponents(xs: seq<string>)
    requires forall i :: 0 <= i < |xs| ==> IsComponent(xs[i])
    ensures Named(xs) == xs
  {
    if xs != [] {
      NamedOfComponents(xs[1..]);
      assert [xs[0]] + xs[1..] == xs;
    }
  }

  /** A text without separators is one segment. */
  lemma {:induction false} SegmentsSingle(s: string)
    requires '/' !in s
    ensures Segments(s) == [s]
  {
    if s != [] {
      assert s[0] in s;
      assert forall c :: c in s[1..] ==> c in s;
      SegmentsSingle(s[1..]);
      assert [s[0]] + s[1..] == s;
    }
  }

  /** A separator-free text followed by a separator is cut there. */
  lemma {:induction false} SegmentsCut(a: string, t: string)
    requires '/' !in a
    ensures Segments(a + "/" + t) == [a] + Segments(t)
  {
    if a == [] {
      assert a + "/" + t == "/" + t;
      assert ("/" + t)[1..] == t;
    } else {
      var s := a + "/" + t;
      assert s[0] == a[0];
      assert a[0] in a;
      assert forall c :: c in a[1..] ==> c in a;
      assert s[1..] == a[1..] + "/" + t;
      SegmentsCut(a[1..], t);
      assert [a[0]] + a[1..] == a;
    }
  }

  /** Splitting a join of separator-free pieces gives the pieces back. */
  lemma {:induction false} SegmentsOfJoin(parts: seq<string>)
    requires |parts| >= 1
    requires forall i :: 0 <= i < |parts| ==> '/' !in parts[i]
    ensures Segments(JoinWith("/", parts)) == parts
  {
    if |parts| == 1 {
      SegmentsSingle(parts[0]);
    } else {
      var t := JoinWith("/", parts[1..]);
      assert JoinWith("/", parts) == parts[0] + "/" + t;
      SegmentsOfJoin(parts[1..]);
      SegmentsCut(parts[0], t);
      assert [parts[0]] + parts[1..] == parts;
    }
  }

  /** Leading separators only add empty segments. */
  lemma {:induction false} NamedAfterSlash(t: string)
    ensures Named(Segments("/" + t)) == Named(Segments(t))
  {
    assert ("/" + t)[1..] == t;
    assert Segments("/" + t) == [[]] + Segments(t);
    assert ([[]] + Segments(t))[1..] == Segments(t);
  }

  /** Parsing the string form of a well-formed path gives the path back. */
  lemma {:induction false} ParseStr(p: PurePath)
    requires WellFormed(p)
    ensures Parse(Str(p)) == p
  {
    var j := JoinWith("/", p.parts);
    if p.root + j == [] {
      assert Str(p) == ".";
      assert Segments(".") == ["."] by { SegmentsSingle("."); }
      assert p.parts == [] by {
        if p.parts != [] { JoinNonEmpty(p.parts); }
      }
    } else {
      var s := p.root + j;
      assert Str(p) == s;
      if p.parts == [] {
        assert j == [];
        assert Named(Segments(j)) == [];
      } else {
        JoinNonEmpty(p.parts);
        assert j[0] == p.parts[0][0];
        assert p.parts[0][0] in p.parts[0];
        assert j[0] != '/';
        SegmentsOfJoin(p.parts);
        NamedOfComponents(p.parts);
      }
      NamedAfterRoot(p.root, j);
      RootOfStr(p.root, j);
    }
  }

  /** A join of non-empty first piece starts with that piece. */
  lemma {:induction false} JoinNonEmpty(parts: seq<string>)
    requires |parts| >= 1 && parts[0] != []
    ensures |JoinWith("/", parts)| >= |parts[0]|
    ensures JoinWith("/", parts)[..|parts[0]|] == parts[0]
  {
  }

  lemma {:induction false} NamedAfterRoot(root: string, j: string)
    requires root == "" || root == "/" || root == "//"
    ensures Named(Segments(root + j)) == Named(Segments(j))
  {
    if root == "/" {
      NamedAfterSlash(j);
    } else if root == "//" {
      assert root + j == "/" + ("/" + j);
      NamedAfterSlash("/" + j);
      NamedAfterSlash(j);
    } else {
      assert root + j == j;
    }
  }

  lemma {:induction false} RootOfStr(root: string, j: string)
    requires root == "" || root == "/" || root == "//"
    requires root + j != []
    requires j != [] ==> j[0] != '/'
    ensures SplitRoot(root + j) == root
  {
    var s := root + j;
    if root == "//" {
      assert s[0] == '/' && s[1] == '/';
      assert |s| >= 3 ==> s[2] == j[0];
    } else if root == "/" {
      assert s[0] == '/';
      assert |s| >= 2 ==> s[1] == j[0];
    } else {
      assert s == j;
    }
  }

  /** A single component parses to itself. */
  lemma {:induction false} ParseComponent(x: string)
    requires IsComponent(x)
    ensures Parse(x) == PurePath("", [x])
  {
    SegmentsSingle(x);
    assert x[0] in x;
    assert Named([x]) == [x] + Named([]);
  }

  /** A leading "./" adds nothing. */
  lemma {:induction false} ParseDotSlash(x: string)
    requires IsComponent(x)
    ensures Parse("./" + x) == PurePath("", [x])
  {
    assert "./" + x == "." + "/" + x;
    SegmentsCut(".", x);
    SegmentsSingle(x);
    assert Named([".", x]) == Named([x]);
    assert Named([x]) == [x] + Named([]);
    assert ("./" + x)[0] == '.';
  }

  /** Normalising in two steps is normalising the concatenation. */
  lemma {:induction false} NormalizeAppend(acc: seq<string>, a: seq<string>, b: seq<string>)
    ensures Normalize(acc, a + b) == Normalize(Normalize(acc, a), b)
    decreases |a|
  {
    if a == [] {
      assert a + b == b;
    } else {
      assert (a + b)[0] == a[0];
      assert (a + b)[1..] == a[1..] + b;
      var next := if a[0] == ".." then (if acc == [] then [] else acc[..|acc| - 1]) else acc + [a[0]];
      NormalizeAppend(next, a[1..], b);
    }
  }

  /** Without ".." components normalisation only appends. */
  lemma {:induction false} NormalizeNoParent(acc: seq<string>, b: seq<string>)
    requires forall i :: 0 <= i < |b| ==> b[i] != ".."
    ensures Normalize(acc, b) == acc + b
    decreases |b|
  {
    if b != [] {
      NormalizeNoParent(acc + [b[0]], b[1..]);
      assert acc + [b[0]] + b[1..] == acc + b;
    }
  }

  /** Normalising never leaves a ".." component behind. */
  lemma {:induction false} NormalizeNoParentLeft(acc: seq<string>, parts: seq<string>)
    requires forall i :: 0 <= i < |acc| ==> acc[i] != ".."
    ensures forall i :: 0 <= i < |Normalize(acc, parts)| ==> Normalize(acc, parts)[i] != ".."
    decreases |parts|
  {
    if parts != [] {
      if parts[0] == ".." {
        NormalizeNoParentLeft(if acc == [] then [] else acc[..|acc| - 1], parts[1..]);
      } else {
        NormalizeNoParentLeft(acc + [parts[0]], parts[1..]);
      }
    }
  }

  /**
   * A relative path without ".." joined below a root resolves to the
   * resolved root followed by the path's components.
   */
  lemma {:induction false} ResolveJoinBelow(cwd: seq<string>, root: PurePath, rel: PurePath)
    requires !IsAbsolute(rel)
    requires forall i :: 0 <= i < |rel.parts| ==> rel.parts[i] != ".."
    ensures Resolve(cwd, Join(root, rel)) == Resolve(cwd, root) + rel.parts
  {
    var base := if IsAbsolute(root) then [] else cwd;
    NormalizeAppend(base, root.parts, rel.parts);
    NormalizeNoParent(Normalize(base, root.parts), rel.parts);
  }
}
