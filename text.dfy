/** The few operations of Python's `str` the workflow relies on: `isspace`,
    `strip`, `split("\n")`, `sep.join(...)`, `startswith` and substring search. */
module Text {
  import opened Wrappers

  /** Python's `str.isspace()` for one character: the characters whose
      bidirectional class is WS, B or S, or whose category is Zs. */
  predicate IsSpace(c: char) {
    c in PythonWhitespace
  }

  const PythonWhitespace: set<char> := {
    ' ', '\t', '\n', '\U{b}', '\U{c}', '\r', '\U{1c}', '\U{1d}', '\U{1e}', '\U{1f}',
    '\U{85}', '\U{a0}', '\U{1680}', '\U{2000}', '\U{2001}', '\U{2002}', '\U{2003}',
    '\U{2004}', '\U{2005}', '\U{2006}', '\U{2007}', '\U{2008}', '\U{2009}', '\U{200a}',
    '\U{2028}', '\U{2029}', '\U{202f}', '\U{205f}', '\U{3000}'
  }

  predicate AllSpace(s: string) {
    forall i :: 0 <= i < |s| ==> IsSpace(s[i])
  }

  /** `s.lstrip()`: the longest suffix of `s` that does not start with whitespace. */
  function LStrip(s: string): (r: string)
    ensures |r| <= |s| && r == s[|s| - |r|..]
    ensures AllSpace(s[..|s| - |r|])
    ensures r == [] || !IsSpace(r[0])
  {
    if |s| > 0 && IsSpace(s[0]) then
      var r := LStrip(s[1..]);
      LStripStep(s, r);
      r
    else s
  }

  /** What `LStrip` of the tail tells about `LStrip` of the whole, when the head is whitespace. */
  lemma {:induction false} LStripStep(s: string, r: string)
    requires |s| > 0 && IsSpace(s[0])
    requires |r| <= |s| - 1 && r == s[1..][|s| - 1 - |r|..] && AllSpace(s[1..][..|s| - 1 - |r|])
    ensures r == s[|s| - |r|..] && AllSpace(s[..|s| - |r|])
  {
    var n := |s| - |r|;
    TailSlices(s, n);
    forall i | 0 <= i < n ensures IsSpace(s[..n][i]) {
      if i > 0 {
        assert s[..n][i] == s[1..][..n - 1][i - 1];
      }
    }
  }

  /** Slices of the tail are slices of the whole, one position on. */
  lemma {:induction false} TailSlices<T>(s: seq<T>, n: nat)
    requires 0 < n <= |s|
    ensures s[1..][n - 1..] == s[n..]
    ensures forall i :: 0 < i < n ==> s[..n][i] == s[1..][..n - 1][i - 1]
  {
  }

  /** `s.rstrip()`: the longest prefix of `s` that does not end with whitespace. */
  function RStrip(s: string): (r: string)
    ensures |r| <= |s| && r == s[..|r|]
    ensures AllSpace(s[|r|..])
    ensures r == [] || !IsSpace(r[|r| - 1])
  {
    if |s| > 0 && IsSpace(s[|s| - 1]) then
      var r := RStrip(s[..|s| - 1]);
      RStripStep(s, r);
      r
    else s
  }

  /** What `RStrip` of the front tells about `RStrip` of the whole, when the last character is whitespace. */
  lemma {:induction false} RStripStep(s: string, r: string)
    requires |s| > 0 && IsSpace(s[|s| - 1])
    requires |r| <= |s| - 1 && r == s[..|s| - 1][..|r|] && AllSpace(s[..|s| - 1][|r|..])
    ensures r == s[..|r|] && AllSpace(s[|r|..])
  {
    var n := |r|;
    FrontSlices(s, n);
    forall i | 0 <= i < |s| - n ensures IsSpace(s[n..][i]) {
      if i < |s| - 1 - n {
        assert s[n..][i] == s[..|s| - 1][n..][i];
      }
    }
  }

  /** Slices of the front are slices of the whole. */
  lemma {:induction false} FrontSlices<T>(s: seq<T>, n: nat)
    requires n < |s|
    ensures s[..|s| - 1][..n] == s[..n]
    ensures forall i :: 0 <= i < |s| - 1 - n ==> s[n..][i] == s[..|s| - 1][n..][i]
  {
  }

  /** `s.strip()`: `s` without its leading and trailing whitespace. */
  function Strip(s: string): (r: string)
    ensures |r| <= |s|
    ensures r == [] || (!IsSpace(r[0]) && !IsSpace(r[|r| - 1]))
  {
    RStrip(LStrip(s))
  }

  /** `Strip(s)` is the slice `s[a..b]` with only whitespace outside it. */
  lemma {:induction false} StripIsSlice(s: string) returns (a: nat, b: nat)
    ensures a <= b <= |s| && Strip(s) == s[a..b]
    ensures AllSpace(s[..a]) && AllSpace(s[b..])
  {
    var l := LStrip(s);
    a := |s| - |l|;
    b := a + |Strip(s)|;
    assert Strip(s) == l[..|Strip(s)|];
    assert s[b..] == l[|Strip(s)|..];
  }

  lemma {:induction false} LStripNoLeadingSpace(s: string)
    requires s == [] || !IsSpace(s[0])
    ensures LStrip(s) == s
  {
  }

  lemma {:induction false} RStripNoTrailingSpace(s: string)
    requires s == [] || !IsSpace(s[|s| - 1])
    ensures RStrip(s) == s
  {
  }

  /** Stripping twice strips nothing more. */
  lemma {:induction false} StripIdempotent(s: string)
    ensures Strip(Strip(s)) == Strip(s)
  {
    var r := Strip(s);
    LStripNoLeadingSpace(r);
    RStripNoTrailingSpace(r);
  }

  /** A string is blank (`not s.strip()`) exactly when it is all whitespace. */
  lemma {:induction false} BlankIffAllSpace(s: string)
    ensures Strip(s) == [] <==> AllSpace(s)
  {
    var a, b := StripIsSlice(s);
    if Strip(s) != [] {
      assert s[a] == Strip(s)[0];
    } else {
      assert s == s[..a] + s[b..];
    }
  }

  /** Whitespace in front of a string makes no difference to `lstrip`. */
  lemma {:induction false} LStripSpacePrefix(w: string, b: string)
    requires AllSpace(w)
    ensures LStrip(w + b) == LStrip(b)
  {
    if w == [] {
      assert w + b == b;
    } else {
      assert (w + b)[0] == w[0] && IsSpace(w[0]);
      assert (w + b)[1..] == w[1..] + b;
      assert LStrip(w + b) == LStrip((w + b)[1..]);
      assert AllSpace(w[1..]) by {
        forall i | 0 <= i < |w[1..]| ensures IsSpace(w[1..][i]) {
          assert w[1..][i] == w[i + 1];
        }
      }
      LStripSpacePrefix(w[1..], b);
    }
  }

  /** Once `a` has a non-space character, `lstrip` of `a + b` only touches `a`. */
  lemma {:induction false} LStripAppend(a: string, b: string)
    requires LStrip(a) != []
    ensures LStrip(a + b) == LStrip(a) + b
  {
    if IsSpace(a[0]) {
      assert (a + b)[1..] == a[1..] + b;
      LStripAppend(a[1..], b);
    } else {
      assert (a + b)[0] == a[0];
    }
  }

  /** When `a` ends with a non-space character, `rstrip` of `a + b` only touches `b`. */
  lemma {:induction false} RStripAppend(a: string, b: string)
    requires a != [] && !IsSpace(a[|a| - 1])
    ensures RStrip(a + b) == a + RStrip(b)
    decreases |b|
  {
    if b == [] {
      assert a + b == a;
      RStripNoTrailingSpace(a);
    } else if IsSpace(b[|b| - 1]) {
      assert (a + b)[..|a + b| - 1] == a + b[..|b| - 1];
      RStripAppend(a, b[..|b| - 1]);
    } else {
      RStripNoTrailingSpace(a + b);
      RStripNoTrailingSpace(b);
    }
  }

  /** Whitespace on the right makes no difference to `rstrip`. */
  lemma {:induction false} RStripSpaceSuffix(a: string, w: string)
    requires AllSpace(w)
    ensures RStrip(a + w) == RStrip(a)
    decreases |w|
  {
    if w == [] {
      assert a + w == a;
    } else {
      assert (a + w)[|a + w| - 1] == w[|w| - 1];
      assert (a + w)[..|a + w| - 1] == a + w[..|w| - 1];
      var v := w[..|w| - 1];
      assert AllSpace(v) by {
        forall i | 0 <= i < |v| ensures IsSpace(v[i]) {
          assert v[i] == w[i];
        }
      }
      RStripSpaceSuffix(a, w[..|w| - 1]);
    }
  }

  /** An all-whitespace string strips to nothing from the left. */
  lemma {:induction false} LStripAllSpace(s: string)
    requires AllSpace(s)
    ensures LStrip(s) == []
  {
  }

  /** Whitespace in front of a string makes no difference to `strip`. */
  lemma {:induction false} StripSpacePrefix(w: string, s: string)
    requires AllSpace(w)
    ensures Strip(w + s) == Strip(s)
  {
    LStripSpacePrefix(w, s);
  }

  /** Whitespace after a string makes no difference to `strip`. */
  lemma {:induction false} StripSpaceSuffix(s: string, w: string)
    requires AllSpace(w)
    ensures Strip(s + w) == Strip(s)
  {
    if LStrip(s) != [] {
      LStripAppend(s, w);
      RStripSpaceSuffix(LStrip(s), w);
    } else {
      BlankIffAllSpace(s);
      assert AllSpace(s + w) by {
        forall i | 0 <= i < |s + w| ensures IsSpace((s + w)[i]) {
          if i < |s| { assert (s + w)[i] == s[i]; } else { assert (s + w)[i] == w[i - |s|]; }
        }
      }
      LStripAllSpace(s + w);
    }
  }

  /** `s.startswith(p)`. */
  predicate StartsWith(s: string, p: string) {
    |p| <= |s| && s[..|p|] == p
  }

  /** `s.startswith(ps)` for a tuple `ps` of prefixes. */
  predicate StartsWithAny(s: string, ps: seq<string>) {
    ps != [] && (StartsWith(s, ps[0]) || StartsWithAny(s, ps[1..]))
  }

  /** The empty string starts with no non-empty prefix. */
  lemma {:induction false} EmptyStartsWithNone(ps: seq<string>)
    requires forall i :: 0 <= i < |ps| ==> ps[i] != []
    ensures !StartsWithAny([], ps)
  {
    if ps != [] {
      EmptyStartsWithNone(ps[1..]);
    }
  }

  /** `sep.join(parts)`. */
  function JoinWith<T>(sep: seq<T>, parts: seq<seq<T>>): seq<T>
  {
    if |parts| == 0 then []
    else if |parts| == 1 then parts[0]
    else parts[0] + sep + JoinWith(sep, parts[1..])
  }

  /** Joining a tail of the parts gives a suffix of the whole join. */
  lemma {:induction false} JoinSuffix<T>(sep: seq<T>, parts: seq<seq<T>>, k: nat)
    requires k < |parts|
    ensures var whole, tail := JoinWith(sep, parts), JoinWith(sep, parts[k..]);
            |tail| <= |whole| && whole[|whole| - |tail|..] == tail
  {
    if k > 0 {
      JoinSuffix(sep, parts[1..], k - 1);
      assert parts[1..][k - 1..] == parts[k..];
    }
  }

  /** Joining two pieces. */
  lemma {:induction false} JoinTwo<T>(sep: seq<T>, a: seq<T>, b: seq<T>)
    ensures JoinWith(sep, [a, b]) == a + sep + b
  {
    assert [a, b][1..] == [b];
  }

  /** Joining four pieces. */
  lemma {:induction false} JoinFour<T>(sep: seq<T>, a: seq<T>, b: seq<T>, c: seq<T>, d: seq<T>)
    ensures JoinWith(sep, [a, b, c, d]) == a + sep + b + sep + c + sep + d
  {
    assert [a, b, c, d][1..] == [b, c, d];
    assert [b, c, d][1..] == [c, d];
    JoinTwo(sep, c, d);
  }

  /** The index of the first element satisfying `p`, if any. */
  function FirstIndex<T>(xs: seq<T>, p: T -> bool): (r: Option<nat>)
    ensures r.Some? ==> r.value < |xs| && p(xs[r.value])
    ensures r.Some? ==> forall j :: 0 <= j < r.value ==> !p(xs[j])
    ensures r.None? ==> forall j :: 0 <= j < |xs| ==> !p(xs[j])
  {
    if xs == [] then None
    else if p(xs[0]) then Some(0)
    else match FirstIndex(xs[1..], p)
      case Some(k) => Some(k + 1)
      case None => None
  }

  /** An element satisfying `p` with none before it is the first index. */
  lemma {:induction false} FirstIndexIs<T>(xs: seq<T>, p: T -> bool, k: nat)
    requires k < |xs| && p(xs[k])
    requires forall j :: 0 <= j < k ==> !p(xs[j])
    ensures FirstIndex(xs, p) == Some(k)
  {
    var f := FirstIndex(xs, p);
    assert f.Some?;
    assert f.value <= k;
    assert f.value >= k;
  }

  /** With no element satisfying `p` there is no first index. */
  lemma {:induction false} FirstIndexNone<T>(xs: seq<T>, p: T -> bool)
    requires forall j :: 0 <= j < |xs| ==> !p(xs[j])
    ensures FirstIndex(xs, p) == None
  {
  }

  /** Extending the sequence at the end can only add a first index where there was none. */
  lemma {:induction false} FirstIndexSnoc<T>(xs: seq<T>, x: T, p: T -> bool)
    ensures FirstIndex(xs + [x], p) ==
            match FirstIndex(xs, p)
            case Some(k) => Some(k)
            case None => if p(x) then Some(|xs|) else None
  {
    var ys := xs + [x];
    match FirstIndex(xs, p)
    case Some(k) =>
      assert ys[k] == xs[k];
      FirstIndexIs(ys, p, k);
    case None =>
      assert forall j :: 0 <= j < |xs| ==> ys[j] == xs[j];
      if p(x) {
        FirstIndexIs(ys, p, |xs|);
      } else {
        FirstIndexNone(ys, p);
      }
  }

  /** `s.split("\n")`: the pieces of `s` between newlines; always at least one. */
  function SplitLines(s: string): (r: seq<string>)
    ensures |r| >= 1
  {
    if s == [] then [[]]
    else
      var rest := SplitLines(s[1..]);
      if s[0] == '\n' then [[]] + rest
      else [[s[0]] + rest[0]] + rest[1..]
  }

  /** Joining the lines back with newlines restores the text. */
  lemma {:induction false} JoinSplitLines(s: string)
    ensures JoinWith("\n", SplitLines(s)) == s
  {
    if s != [] {
      var rest := SplitLines(s[1..]);
      JoinSplitLines(s[1..]);
      if s[0] == '\n' {
        assert SplitLines(s)[1..] == rest;
      } else if |rest| == 1 {
        assert SplitLines(s) == [[s[0]] + rest[0]];
      } else {
        var r := SplitLines(s);
        assert r[1..] == rest[1..];
        assert JoinWith("\n", rest) == rest[0] + "\n" + JoinWith("\n", rest[1..]);
      }
    }
  }

  /** The lines of `s + t` given the lines of `s` and of `t`. */
  function Fuse(ls: seq<string>, lt: seq<string>): seq<string>
    requires |ls| >= 1 && |lt| >= 1
  {
    ls[..|ls| - 1] + [ls[|ls| - 1] + lt[0]] + lt[1..]
  }
  lemma {:induction false} FuseCons(x: string, ls: seq<string>, lt: seq<string>)
    requires |ls| >= 1 && |lt| >= 1
    ensures Fuse([x] + ls, lt) == [x] + Fuse(ls, lt)
  {
    assert ([x] + ls)[..|ls|] == [x] + ls[..|ls| - 1];
  }
  lemma {:induction false} FuseHead(c: char, ls: seq<string>, lt: seq<string>)
    requires |ls| >= 1 && |lt| >= 1
    ensures var f := Fuse(ls, lt);
            Fuse([[c] + ls[0]] + ls[1..], lt) == [[c] + f[0]] + f[1..]
  {
    var f := Fuse(ls, lt);
    if |ls| == 1 {
      assert f == [ls[0] + lt[0]] + lt[1..];
      assert [[c] + ls[0]] + ls[1..] == [[c] + ls[0]];
      assert [c] + ls[0] + lt[0] == [c] + (ls[0] + lt[0]);
    } else {
      assert f[0] == ls[0];
      assert f[1..] == ls[1..|ls| - 1] + [ls[|ls| - 1] + lt[0]] + lt[1..];
      var ls2 := [[c] + ls[0]] + ls[1..];
      assert ls2[..|ls2| - 1] == [[c] + ls[0]] + ls[1..|ls| - 1];
    }
  }
  lemma {:induction false} SplitLinesConsNewline(s: string, t: string)
    requires s != [] && s[0] == '\n'
    ensures SplitLines(s + t) == [[]] + SplitLines(s[1..] + t)
    ensures SplitLines(s) == [[]] + SplitLines(s[1..])
  {
    assert (s + t)[0] == '\n' && (s + t)[1..] == s[1..] + t;
  }
  lemma {:induction false} SplitLinesConsChar(s: string, t: string)
    requires s != [] && s[0] != '\n'
    ensures var r := SplitLines(s[1..] + t); SplitLines(s + t) == [[s[0]] + r[0]] + r[1..]
    ensures var r := SplitLines(s[1..]); SplitLines(s) == [[s[0]] + r[0]] + r[1..]
  {
    assert (s + t)[0] == s[0] && (s + t)[1..] == s[1..] + t;
  }
  /** Splitting a concatenation: the last line of `s` and the first line of `t` fuse. */
  lemma {:induction false} SplitLinesAppend(s: string, t: string)
    ensures SplitLines(s + t) == Fuse(SplitLines(s), SplitLines(t))
  {
    if s == [] {
      assert s + t == t;
      var lt := SplitLines(t);
      assert [] + lt[0] == lt[0];
      assert [[] + lt[0]] + lt[1..] == lt;
    } else {
      SplitLinesAppend(s[1..], t);
      if s[0] == '\n' {
        SplitLinesConsNewline(s, t);
        FuseCons([], SplitLines(s[1..]), SplitLines(t));
      } else {
        SplitLinesConsChar(s, t);
        FuseHead(s[0], SplitLines(s[1..]), SplitLines(t));
      }
    }
  }

  /** Where the lines of `r` sit among the lines of `w + r`, for whitespace-only `w`:
      line `i` of `r`, stripped, is line `|SplitLines(w)| - 1 + i` of the whole, stripped. */
  lemma {:induction false} FuseLeftSpace(lw: seq<string>, lr: seq<string>)
    requires |lw| >= 1 && |lr| >= 1
    requires forall i :: 0 <= i < |lw| ==> AllSpace(lw[i])
    ensures |Fuse(lw, lr)| == |lw| - 1 + |lr|
    ensures StripsWithin(lr, Fuse(lw, lr), |lw| - 1)
  {
    var f := Fuse(lw, lr);
    forall i | 0 <= i < |lr| ensures Strip(f[|lw| - 1 + i]) == Strip(lr[i]) {
      if i == 0 {
        assert f[|lw| - 1] == lw[|lw| - 1] + lr[0];
        StripSpacePrefix(lw[|lw| - 1], lr[0]);
      } else {
        assert f[|lw| - 1 + i] == lr[i];
      }
    }
  }

  /** Lines of `s` keep their stripped text among the lines of `s + w`, for whitespace-only `w`. */
  lemma {:induction false} FuseRightSpace(ls: seq<string>, lw: seq<string>)
    requires |ls| >= 1 && |lw| >= 1 && AllSpace(lw[0])
    ensures StripsWithin(ls, Fuse(ls, lw), 0)
  {
    var f := Fuse(ls, lw);
    forall j | 0 <= j < |ls| ensures Strip(f[j]) == Strip(ls[j]) {
      if j == |ls| - 1 {
        assert f[j] == ls[j] + lw[0];
        StripSpaceSuffix(ls[j], lw[0]);
      } else {
        assert f[j] == ls[j];
      }
    }
  }

  /** Line `i` of `ls`, stripped, is line `off + i` of `g`, stripped. */
  predicate StripsWithin(ls: seq<string>, g: seq<string>, off: nat) {
    off + |ls| <= |g| && forall i :: 0 <= i < |ls| ==> Strip(g[off + i]) == Strip(ls[i])
  }

  /** Padding a text with whitespace on both sides: every line of the text,
      stripped, is a line of the padded text, stripped, from line `off` on; and
      the lines before line `off`, made by the left padding, are blank. */
  lemma {:induction false} PaddedLines(w1: string, s: string, w2: string) returns (off: nat)
    requires AllSpace(w1) && AllSpace(w2)
    ensures StripsWithin(SplitLines(s), SplitLines(w1 + s + w2), off)
    ensures off > 0 ==> AllSpace(SplitLines(w1 + s + w2)[0])
    ensures forall i :: 0 <= i < off ==> AllSpace(SplitLines(w1 + s + w2)[i])
  {
    SplitLinesAllSpace(w1);
    SplitLinesAllSpace(w2);
    SplitLinesAppend(w1, s);
    SplitLinesAppend(w1 + s, w2);
    off := PaddedFuse(SplitLines(w1), SplitLines(s), SplitLines(w2));
  }

  /** `PaddedLines` on the lines themselves: fusing whitespace-only lines on both sides. */
  lemma {:induction false} PaddedFuse(l1: seq<string>, ls: seq<string>, l2: seq<string>) returns (off: nat)
    requires |l1| >= 1 && |ls| >= 1 && |l2| >= 1
    requires forall i :: 0 <= i < |l1| ==> AllSpace(l1[i])
    requires forall i :: 0 <= i < |l2| ==> AllSpace(l2[i])
    ensures StripsWithin(ls, Fuse(Fuse(l1, ls), l2), off)
    ensures off > 0 ==> AllSpace(Fuse(Fuse(l1, ls), l2)[0])
    ensures forall i :: 0 <= i < off ==> AllSpace(Fuse(Fuse(l1, ls), l2)[i])
  {
    off := |l1| - 1;
    FusePadding(l1, ls, l2);
    if off > 0 {
      FuseFirst(l1, ls);
      FuseFirst(Fuse(l1, ls), l2);
    }
    var f := Fuse(l1, ls);
    forall i | 0 <= i < off ensures AllSpace(Fuse(f, l2)[i]) {
      assert f[i] == l1[i];
      assert Fuse(f, l2)[i] == f[i];
    }
  }

  /** The stripped lines of `ls` sit from line `|l1| - 1` on in the fused lines. */
  lemma {:induction false} FusePadding(l1: seq<string>, ls: seq<string>, l2: seq<string>)
    requires |l1| >= 1 && |ls| >= 1 && |l2| >= 1
    requires forall i :: 0 <= i < |l1| ==> AllSpace(l1[i])
    requires forall i :: 0 <= i < |l2| ==> AllSpace(l2[i])
    ensures StripsWithin(ls, Fuse(Fuse(l1, ls), l2), |l1| - 1)
  {
    var f := Fuse(l1, ls);
    FuseLeftSpace(l1, ls);
    FuseRightSpace(f, l2);
    StripsWithinChain(ls, f, Fuse(f, l2), |l1| - 1);
  }

  /** Fusing keeps the first line when there is more than one. */
  lemma {:induction false} FuseFirst(ls: seq<string>, lt: seq<string>)
    requires |ls| >= 2 && |lt| >= 1
    ensures |Fuse(ls, lt)| >= 2 && Fuse(ls, lt)[0] == ls[0]
  {
  }

  /** Lines that keep their stripped text in `f`, which keeps its own in `g`, keep it in `g`. */
  lemma {:induction false} StripsWithinChain(ls: seq<string>, f: seq<string>, g: seq<string>, off: nat)
    requires StripsWithin(ls, f, off) && StripsWithin(f, g, 0)
    ensures StripsWithin(ls, g, off)
  {
    forall i | 0 <= i < |ls| ensures Strip(g[off + i]) == Strip(ls[i]) {
      assert Strip(g[0 + (off + i)]) == Strip(f[off + i]);
    }
  }

  /** Any sequence is the concatenation of the three slices that two cut points make. */
  lemma {:induction false} ThreeSlices<T>(s: seq<T>, a: nat, b: nat)
    requires a <= b <= |s|
    ensures s == s[..a] + s[a..b] + s[b..]
  {
  }

  /** A slice of a suffix is a slice of the whole. */
  lemma {:induction false} SliceOfSuffix<T>(s: seq<T>, c: nat, w: seq<T>, a: nat, b: nat, r: seq<T>)
    requires c <= |s| && w == s[c..] && a <= b <= |w| && r == w[a..b]
    ensures r == s[c + a..c + b]
  {
  }

  /** A text is its stripped self padded with whitespace on both sides. */
  lemma {:induction false} StripPadding(s: string) returns (w1: string, w2: string)
    ensures s == w1 + Strip(s) + w2 && AllSpace(w1) && AllSpace(w2)
  {
    var a, b := StripIsSlice(s);
    w1, w2 := s[..a], s[b..];
    ThreeSlices(s, a, b);
  }

  /** If no line of a padded text satisfies `q` once stripped, no line of the
      text itself does. */
  lemma {:induction false} PaddedNone(w1: string, s: string, w2: string, q: string -> bool)
    requires AllSpace(w1) && AllSpace(w2)
    requires forall j :: 0 <= j < |SplitLines(w1 + s + w2)| ==> !q(Strip(SplitLines(w1 + s + w2)[j]))
    ensures forall i :: 0 <= i < |SplitLines(s)| ==> !q(Strip(SplitLines(s)[i]))
  {
    var off := PaddedLines(w1, s, w2);
    NoneShifted(SplitLines(w1 + s + w2), SplitLines(s), off, q);
  }

  lemma {:induction false} NoneShifted(g: seq<string>, ls: seq<string>, off: nat, q: string -> bool)
    requires StripsWithin(ls, g, off)
    requires forall j :: 0 <= j < |g| ==> !q(Strip(g[j]))
    ensures forall i :: 0 <= i < |ls| ==> !q(Strip(ls[i]))
  {
    forall i | 0 <= i < |ls| ensures !q(Strip(ls[i])) {
      assert Strip(g[off + i]) == Strip(ls[i]);
    }
  }

  /** When the padded text's first line is not blank, the text's first line is
      that line up to whitespace. */
  lemma {:induction false} PaddedFirstLine(w1: string, s: string, w2: string)
    requires AllSpace(w1) && AllSpace(w2) && !AllSpace(SplitLines(w1 + s + w2)[0])
    ensures Strip(SplitLines(s)[0]) == Strip(SplitLines(w1 + s + w2)[0])
  {
    var off := PaddedLines(w1, s, w2);
    FirstWithin(SplitLines(s), SplitLines(w1 + s + w2), off);
  }

  /**
   * Padding a text with whitespace on both sides keeps its first non-blank
   * line: if line `k` of `s` is the first one that is not blank, the padded
   * text's first non-blank line is the one returned, and the two agree once
   * stripped.
   */
  lemma {:induction false} PaddedFirstNonBlank(w1: string, s: string, w2: string, k: nat) returns (k': nat)
    requires AllSpace(w1) && AllSpace(w2)
    requires k < |SplitLines(s)| && !AllSpace(SplitLines(s)[k])
    requires forall j :: 0 <= j < k ==> AllSpace(SplitLines(s)[j])
    ensures k' < |SplitLines(w1 + s + w2)| && !AllSpace(SplitLines(w1 + s + w2)[k'])
    ensures forall j :: 0 <= j < k' ==> AllSpace(SplitLines(w1 + s + w2)[j])
    ensures Strip(SplitLines(w1 + s + w2)[k']) == Strip(SplitLines(s)[k])
  {
    var ls, g := SplitLines(s), SplitLines(w1 + s + w2);
    var off := PaddedLines(w1, s, w2);
    k' := off + k;
    assert Strip(g[off + k]) == Strip(ls[k]);
    BlankIffAllSpace(ls[k]);
    BlankIffAllSpace(g[k']);
    forall j | off <= j < k' ensures AllSpace(g[j]) {
      assert Strip(g[off + (j - off)]) == Strip(ls[j - off]);
      BlankIffAllSpace(ls[j - off]);
      BlankIffAllSpace(g[j]);
    }
  }

  /** Line 0, when the first line of `g` is not blank, sits at line 0 of `g`. */
  lemma {:induction false} FirstWithin(ls: seq<string>, g: seq<string>, off: nat)
    requires |ls| >= 1 && |g| >= 1 && StripsWithin(ls, g, off)
    requires off > 0 ==> AllSpace(g[0])
    requires !AllSpace(g[0])
    ensures Strip(ls[0]) == Strip(g[0])
  {
    assert off == 0;
    assert Strip(g[off + 0]) == Strip(ls[0]);
  }

  /** No line of a split contains the separator. */
  lemma {:induction false} SplitLinesNoNewline(s: string)
    ensures forall i :: 0 <= i < |SplitLines(s)| ==> '\n' !in SplitLines(s)[i]
  {
    if s != [] {
      SplitLinesNoNewline(s[1..]);
      var rest := SplitLines(s[1..]);
      if s[0] != '\n' {
        assert forall c :: c in [s[0]] + rest[0] ==> c == s[0] || c in rest[0];
      }
    }
  }

  /** The first line of `"\n".join(parts)` is `parts[0]`, when that has no newline. */
  lemma {:induction false} JoinFirstLine(parts: seq<string>)
    requires |parts| >= 1 && '\n' !in parts[0]
    ensures SplitLines(JoinWith("\n", parts))[0] == parts[0]
  {
    SplitLinesSingle(parts[0]);
    if |parts| >= 2 {
      var t := "\n" + JoinWith("\n", parts[1..]);
      assert JoinWith("\n", parts) == parts[0] + t;
      SplitLinesAppend(parts[0], t);
      SplitLinesConsNewline(t, []);
      assert parts[0] + [] == parts[0];
    }
  }

  /** A text without newlines is a single line. */
  lemma {:induction false} SplitLinesSingle(s: string)
    requires '\n' !in s
    ensures SplitLines(s) == [s]
  {
    if s != [] {
      assert s[0] in s;
      assert forall c :: c in s[1..] ==> c in s;
      SplitLinesSingle(s[1..]);
      assert [s[0]] + s[1..] == s;
    }
  }

  /** Every line of a whitespace-only text is whitespace-only. */
  lemma {:induction false} SplitLinesAllSpace(s: string)
    requires AllSpace(s)
    ensures forall i :: 0 <= i < |SplitLines(s)| ==> AllSpace(SplitLines(s)[i])
  {
    if s != [] {
      SplitLinesAllSpace(s[1..]);
    }
  }
}
