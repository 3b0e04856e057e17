/** `extract_clean_code`: pull the C/C++ source out of a model reply.
    Four strategies are tried in order and the first that applies wins:
    a fence tagged `c`, `cpp` or `cc`; an untagged fence; a scan from the
    first code-like line; the whole reply, stripped. */
module Extraction {
  import opened Wrappers
  import opened Text

  const Fence: string := "```"

  /** The openers of `` ```(?:c|cpp|cc)\n ``, in the order the regex tries its alternatives. */
  const TaggedOpeners: seq<string> := ["```c\n", "```cpp\n", "```cc\n"]

  /** The opener of `` ```\n ``. */
  const PlainOpeners: seq<string> := ["```\n"]

  /** Line starts that mark the beginning of code in the fallback scan. */
  const CodePrefixes: seq<string> := ["#include", "//", "/*", "void", "int"]

  // ---------------------------------------------------------------------------
  // The two regular expressions, as a leftmost match with a lazy interior
  // ---------------------------------------------------------------------------

  /** A closing fence starts at position `j`. */
  predicate ClosesAt(s: string, j: int) {
    0 <= j && j + 3 <= |s| && s[j..j + 3] == Fence
  }

  /** The first closing fence at or after `k`: where the lazy `(.*?)` stops. */
  function FindClose(s: string, k: nat): (r: Option<nat>)
    ensures r.Some? ==> k <= r.value && ClosesAt(s, r.value)
    ensures r.Some? ==> forall j :: k <= j < r.value ==> !ClosesAt(s, j)
    ensures r.None? ==> forall j :: k <= j ==> !ClosesAt(s, j)
    decreases |s| - k
  {
    if k + 3 > |s| then None
    else if ClosesAt(s, k) then Some(k)
    else FindClose(s, k + 1)
  }

  /** Opener `o` occurs at position `i`. */
  predicate OpensAt(s: string, i: int, o: string) {
    0 <= i && i + |o| <= |s| && s[i..i + |o|] == o
  }

  /** The pattern `o(.*?)```` matches when started at position `i`. */
  predicate MatchesAt(s: string, i: int, o: string) {
    OpensAt(s, i, o) && FindClose(s, i + |o|).Some?
  }

  /** Some alternative of the pattern matches when started at `i`. */
  predicate FenceAt(s: string, opens: seq<string>, i: int) {
    exists n :: 0 <= n < |opens| && MatchesAt(s, i, opens[n])
  }

  /** A match: where it starts, which alternative opened it, where the interior ends. */
  datatype FenceMatch = FenceMatch(start: nat, opener: nat, close: nat)

  /** `m` is the match the regex engine reports when started at `m.start`:
      the first alternative that leads to a match, and the shortest interior. */
  predicate IsMatch(s: string, opens: seq<string>, m: FenceMatch) {
    && m.opener < |opens|
    && OpensAt(s, m.start, opens[m.opener])
    && m.start + |opens[m.opener]| <= m.close
    && ClosesAt(s, m.close)
    && (forall j :: m.start + |opens[m.opener]| <= j < m.close ==> !ClosesAt(s, j))
    && (forall n :: 0 <= n < m.opener ==> !MatchesAt(s, m.start, opens[n]))
  }

  /** The first alternative, from index `n` on, that matches at `i`. */
  function FirstOpener(s: string, opens: seq<string>, i: nat, n: nat): (r: Option<nat>)
    requires n <= |opens|
    ensures r.Some? ==> n <= r.value < |opens| && MatchesAt(s, i, opens[r.value])
    ensures r.Some? ==> forall m :: n <= m < r.value ==> !MatchesAt(s, i, opens[m])
    ensures r.None? ==> forall m :: n <= m < |opens| ==> !MatchesAt(s, i, opens[m])
    decreases |opens| - n
  {
    if n == |opens| then None
    else if MatchesAt(s, i, opens[n]) then Some(n)
    else FirstOpener(s, opens, i, n + 1)
  }

  /** `re.search` from position `i`: the leftmost start at which some alternative matches. */
  function FindFence(s: string, opens: seq<string>, i: nat): (r: Option<FenceMatch>)
    ensures r.Some? ==> i <= r.value.start && IsMatch(s, opens, r.value)
    ensures r.Some? ==> forall k :: i <= k < r.value.start ==> !FenceAt(s, opens, k)
    ensures r.None? ==> forall k :: i <= k ==> !FenceAt(s, opens, k)
    decreases |s| + 1 - i
  {
    if i > |s| then None
    else match FirstOpener(s, opens, i, 0)
      case Some(n) => Some(FenceMatch(i, n, FindClose(s, i + |opens[n]|).value))
      case None => FindFence(s, opens, i + 1)
  }

  /** The text captured by group 1 of a match. */
  function Interior(s: string, opens: seq<string>, m: FenceMatch): string
    requires IsMatch(s, opens, m)
  {
    s[m.start + |opens[m.opener]|..m.close]
  }

  /** Neither regular expression matches anywhere in `s`. */
  predicate FenceFree(s: string) {
    FindFence(s, TaggedOpeners, 0).None? && FindFence(s, PlainOpeners, 0).None?
  }

  // ---------------------------------------------------------------------------
  // The line scan
  // ---------------------------------------------------------------------------

  // `line.strip().startswith(...)` over the tuple of code prefixes.
  predicate CodeLine(line: string) {
    StartsCode(Strip(line))
  }

  predicate StartsCode(text: string) {
    StartsWithAny(text, CodePrefixes)
  }

  /** The lines the scan collects: everything from the first code-like line on. */
  function ScannedLines(lines: seq<string>): seq<string>
  {
    FromFirst(lines, CodeLine)
  }

  /** `lines` from the first one satisfying `p` on; empty when none does. */
  function FromFirst(lines: seq<string>, p: string -> bool): seq<string>
  {
    match FirstIndex(lines, p)
    case Some(k) => lines[k..]
    case None => []
  }

  /** What `extract_clean_code` returns for `raw`. */
  function CleanCode(raw: string): string
  {
    match FindFence(raw, TaggedOpeners, 0)
    case Some(m) => Strip(Interior(raw, TaggedOpeners, m))
    case None =>
      match FindFence(raw, PlainOpeners, 0)
      case Some(m) => Strip(Interior(raw, PlainOpeners, m))
      case None =>
        var code := ScannedLines(SplitLines(raw));
        if code != [] then Strip(JoinWith("\n", code)) else Strip(raw)
  }

  /** `extract_clean_code` itself: the two searches, then the line loop with its
      `started` flag. */
  method ExtractCleanCode(raw: string) returns (code: string)
    ensures code == CleanCode(raw)
  {
    var tagged := FindFence(raw, TaggedOpeners, 0);
    if tagged.Some? {
      return Strip(Interior(raw, TaggedOpeners, tagged.value));
    }
    var plain := FindFence(raw, PlainOpeners, 0);
    if plain.Some? {
      return Strip(Interior(raw, PlainOpeners, plain.value));
    }
    var codeLines := ScanCodeLines(SplitLines(raw), CodeLine);
    if codeLines != [] {
      code := Strip(JoinWith("\n", codeLines));
    } else {
      code := Strip(raw);
    }
  }

  /** The line loop: once a line satisfying `isCode` has been seen (`started`),
      every line is kept. */
  method ScanCodeLines(lines: seq<string>, isCode: string -> bool) returns (codeLines: seq<string>)
    ensures codeLines == FromFirst(lines, isCode)
  {
    codeLines := [];
    var started := false;
    ghost var first: nat := 0;
    for i := 0 to |lines|
      invariant FirstIndex(lines[..i], isCode) == if started then Some(first) else None
      invariant codeLines == if started then lines[first..i] else []
    {
      FirstIndexSnoc(lines[..i], lines[i], isCode);
      assert lines[..i + 1] == lines[..i] + [lines[i]];
      if !started {
        if isCode(lines[i]) {
          started := true;
          first := i;
          codeLines := codeLines + [lines[i]];
        }
      } else {
        codeLines := codeLines + [lines[i]];
      }
    }
    assert lines[..|lines|] == lines;
  }

  // ---------------------------------------------------------------------------
  // Properties
  // ---------------------------------------------------------------------------

  /** The search function finds exactly the leftmost match: any match that no
      earlier start can produce is the one `FindFence` reports. */
  lemma {:induction false} FindFenceIsLeftmost(s: string, opens: seq<string>, m: FenceMatch)
    requires IsMatch(s, opens, m)
    requires forall k :: 0 <= k < m.start ==> !FenceAt(s, opens, k)
    ensures FindFence(s, opens, 0) == Some(m)
  {
    FindFenceFrom(s, opens, 0, m);
  }

  /** The search started at any `i` up to `m.start`, with no match in between, reports `m`. */
  lemma {:induction false} FindFenceFrom(s: string, opens: seq<string>, i: nat, m: FenceMatch)
    requires IsMatch(s, opens, m) && i <= m.start
    requires forall k :: i <= k < m.start ==> !FenceAt(s, opens, k)
    ensures FindFence(s, opens, i) == Some(m)
    decreases m.start - i
  {
    if i == m.start {
      FindFenceAtStart(s, opens, m);
    } else {
      FindFenceSkips(s, opens, i);
      FindFenceFrom(s, opens, i + 1, m);
    }
  }

  /** Started exactly where `m` starts, the search reports `m`. */
  lemma {:induction false} FindFenceAtStart(s: string, opens: seq<string>, m: FenceMatch)
    requires IsMatch(s, opens, m)
    ensures FindFence(s, opens, m.start) == Some(m)
  {
    IsMatchMatches(s, opens, m);
    FirstOpenerIs(s, opens, m);
  }

  /** A start where nothing matches is skipped. */
  lemma {:induction false} FindFenceSkips(s: string, opens: seq<string>, i: nat)
    requires i <= |s| && !FenceAt(s, opens, i)
    ensures FindFence(s, opens, i) == FindFence(s, opens, i + 1)
  {
    NoOpenerWithoutFence(s, opens, i);
  }

  /** Where a match starts, the first alternative tried that matches is the match's own. */
  lemma {:induction false} FirstOpenerIs(s: string, opens: seq<string>, m: FenceMatch)
    requires IsMatch(s, opens, m)
    ensures FirstOpener(s, opens, m.start, 0) == Some(m.opener)
  {
    IsMatchMatches(s, opens, m);
    var r := FirstOpener(s, opens, m.start, 0);
    assert r.Some?;
    assert r.value <= m.opener;
    assert r.value >= m.opener;
  }

  /** Where no alternative matches, no alternative is found. */
  lemma {:induction false} NoOpenerWithoutFence(s: string, opens: seq<string>, i: nat)
    requires !FenceAt(s, opens, i)
    ensures FirstOpener(s, opens, i, 0).None?
  {

  }

  /** A match in the sense of `IsMatch` is one the pattern reports. */
  lemma {:induction false} IsMatchMatches(s: string, opens: seq<string>, m: FenceMatch)
    requires IsMatch(s, opens, m)
    ensures MatchesAt(s, m.start, opens[m.opener]) && FenceAt(s, opens, m.start)
    ensures FindClose(s, m.start + |opens[m.opener]|) == Some(m.close)
  {
    CloseIsFirst(s, m.start + |opens[m.opener]|, m.close);
  }

  /** A closing fence with none before it (from `k` on) is the one `FindClose` finds. */
  lemma {:induction false} CloseIsFirst(s: string, k: nat, j: nat)
    requires k <= j && ClosesAt(s, j)
    requires forall c :: k <= c < j ==> !ClosesAt(s, c)
    ensures FindClose(s, k) == Some(j)
  {
    var r := FindClose(s, k);
    assert r.Some?;
    assert r.value <= j;
    assert r.value >= j;
  }

  /** Strategy 1: the leftmost tagged fence wins, whatever untagged fences
      come before it, and its shortest interior is returned stripped. */
  lemma {:induction false} TaggedFenceWins(raw: string, m: FenceMatch)
    requires IsMatch(raw, TaggedOpeners, m)
    requires forall k :: 0 <= k < m.start ==> !FenceAt(raw, TaggedOpeners, k)
    ensures CleanCode(raw) == Strip(Interior(raw, TaggedOpeners, m))
  {
    FindFenceIsLeftmost(raw, TaggedOpeners, m);
  }

  /** Strategy 2: with no tagged fence anywhere, the leftmost untagged fence wins. */
  lemma {:induction false} PlainFenceNext(raw: string, m: FenceMatch)
    requires forall k :: 0 <= k <= |raw| ==> !FenceAt(raw, TaggedOpeners, k)
    requires IsMatch(raw, PlainOpeners, m)
    requires forall k :: 0 <= k < m.start ==> !FenceAt(raw, PlainOpeners, k)
    ensures CleanCode(raw) == Strip(raw[m.start + 4..m.close])
  {
    var r := FindFence(raw, TaggedOpeners, 0);
    if r.Some? {
      IsMatchMatches(raw, TaggedOpeners, r.value);
      assert false;
    }
    FindFenceIsLeftmost(raw, PlainOpeners, m);
  }

  /** Strategy 3: without fences, the reply from the first code-like line to
      the end, joined by newlines and stripped. */
  lemma {:induction false} LineScanNext(raw: string, k: nat)
    requires FenceFree(raw)
    requires k < |SplitLines(raw)| && CodeLine(SplitLines(raw)[k])
    requires forall j :: 0 <= j < k ==> !CodeLine(SplitLines(raw)[j])
    ensures CleanCode(raw) == Strip(JoinWith("\n", SplitLines(raw)[k..]))
  {
    FirstIndexIs(SplitLines(raw), CodeLine, k);
  }

  /** Strategy 4: otherwise the whole reply, stripped. */
  lemma {:induction false} WholeTextLast(raw: string)
    requires FenceFree(raw)
    requires forall j :: 0 <= j < |SplitLines(raw)| ==> !CodeLine(SplitLines(raw)[j])
    ensures CleanCode(raw) == Strip(raw)
  {
    FirstIndexNone(SplitLines(raw), CodeLine);
  }

  /** The result never carries leading or trailing whitespace. */
  lemma {:induction false} CleanCodeIsStripped(raw: string)
    ensures Strip(CleanCode(raw)) == CleanCode(raw)
  {
    match FindFence(raw, TaggedOpeners, 0)
    case Some(m) => StripIdempotent(Interior(raw, TaggedOpeners, m));
    case None =>
      match FindFence(raw, PlainOpeners, 0)
      case Some(m) => StripIdempotent(Interior(raw, PlainOpeners, m));
      case None =>
        var code := ScannedLines(SplitLines(raw));
        if code != [] { StripIdempotent(JoinWith("\n", code)); } else { StripIdempotent(raw); }
  }

  /** A slice of a piece of `s` is the corresponding slice of `s`. */
  lemma {:induction false} SliceOfPiece(s: string, a: nat, t: string, i: nat, n: nat)
    requires a + |t| <= |s| && t == s[a..a + |t|] && i + n <= |t|
    ensures s[a + i..a + i + n] == t[i..i + n]
  {
    var u, v := s[a + i..a + i + n], t[i..i + n];
    assert forall k :: 0 <= k < n ==> u[k] == v[k];
  }

  /** A closing fence inside a piece of `s` is a closing fence of `s`. */
  lemma {:induction false} ShiftClose(s: string, a: nat, t: string, j: int)
    requires a + |t| <= |s| && t == s[a..a + |t|] && ClosesAt(t, j)
    ensures ClosesAt(s, a + j)
  {
    SliceOfPiece(s, a, t, j, 3);
  }

  /** A match inside a piece of `s` is a match of `s`. */
  lemma {:induction false} ShiftFence(s: string, a: nat, t: string, opens: seq<string>, i: nat)
    requires a + |t| <= |s| && t == s[a..a + |t|] && FenceAt(t, opens, i)
    ensures FenceAt(s, opens, a + i)
  {
    var n :| 0 <= n < |opens| && MatchesAt(t, i, opens[n]);
    ShiftMatch(s, a, t, i, opens[n]);
  }

  /** One alternative matching inside a piece of `s` matches in `s`. */
  lemma {:induction false} ShiftMatch(s: string, a: nat, t: string, i: nat, o: string)
    requires a + |t| <= |s| && t == s[a..a + |t|] && MatchesAt(t, i, o)
    ensures MatchesAt(s, a + i, o)
  {
    SliceOfPiece(s, a, t, i, |o|);
    var c := FindClose(t, i + |o|).value;
    ShiftClose(s, a, t, c);
    ClosedLater(s, a + i + |o|, a + c);
  }

  /** A closing fence at or after `k` means `FindClose` from `k` succeeds. */
  lemma {:induction false} ClosedLater(s: string, k: nat, c: nat)
    requires k <= c && ClosesAt(s, c)
    ensures FindClose(s, k).Some?
  {
  }

  /** Neither pattern matches in a piece of a text in which neither matches. */
  lemma {:induction false} SliceFenceFree(s: string, a: nat, b: nat, t: string)
    requires a <= b <= |s| && FenceFree(s) && t == s[a..b]
    ensures FenceFree(t)
  {
    SliceFenceFreeFor(s, a, b, TaggedOpeners);
    SliceFenceFreeFor(s, a, b, PlainOpeners);
  }

  lemma {:induction false} SliceFenceFreeFor(s: string, a: nat, b: nat, opens: seq<string>)
    requires a <= b <= |s| && FindFence(s, opens, 0).None?
    ensures FindFence(s[a..b], opens, 0).None?
  {
    var t := s[a..b];
    var r := FindFence(t, opens, 0);
    if r.Some? {
      IsMatchMatches(t, opens, r.value);
      ShiftFence(s, a, t, opens, r.value.start);
      assert false;
    }
  }

  /** A stripped text whose first line is code-like extracts to itself. */
  lemma {:induction false} CleanCodeOfCodeText(r: string)
    requires FenceFree(r) && Strip(r) == r && CodeLine(SplitLines(r)[0])
    ensures CleanCode(r) == r
  {
    FirstIndexIs(SplitLines(r), CodeLine, 0);
    assert SplitLines(r)[0..] == SplitLines(r);
    JoinSplitLines(r);
  }

  /** On a reply without fences, extracting a second time changes nothing. */
  lemma {:induction false} CleanCodeIdempotent(raw: string)
    requires FenceFree(raw)
    ensures CleanCode(CleanCode(raw)) == CleanCode(raw)
  {
    match FirstIndex(SplitLines(raw), CodeLine)
    case Some(k) => ScannedIdempotent(raw, k);
    case None => WholeIdempotent(raw);
  }

  /** The line-scan branch of `CleanCodeIdempotent`. */
  lemma {:induction false} ScannedIdempotent(raw: string, k: nat)
    requires FenceFree(raw) && FirstIndex(SplitLines(raw), CodeLine) == Some(k)
    ensures CleanCode(CleanCode(raw)) == CleanCode(raw)
  {
    var whole := JoinWith("\n", SplitLines(raw)[k..]);
    assert CleanCode(raw) == Strip(whole);
    ScannedText(raw, k);
    StripIdempotent(whole);
    CleanCodeOfCodeText(Strip(whole));
  }

  /** The text the line scan returns is fence-free and starts with a code-like line. */
  lemma {:induction false} ScannedText(raw: string, k: nat)
    requires FenceFree(raw) && k < |SplitLines(raw)| && CodeLine(SplitLines(raw)[k])
    ensures var r := Strip(JoinWith("\n", SplitLines(raw)[k..]));
            FenceFree(r) && CodeLine(SplitLines(r)[0])
  {
    var r := Strip(JoinWith("\n", SplitLines(raw)[k..]));
    var w1, w2, a, b := ScannedPieces(raw, k);
    SliceFenceFree(raw, a, b, r);
    SplitLinesNoNewline(raw);
    CodeTextFirstLine(SplitLines(raw)[k..], w1, r, w2);
  }

  /** The scanned text, stripped, is a slice of the reply, and the unstripped
      text is that slice padded with whitespace. */
  lemma {:induction false} ScannedPieces(raw: string, k: nat) returns (w1: string, w2: string, a: nat, b: nat)
    requires k < |SplitLines(raw)|
    ensures var whole := JoinWith("\n", SplitLines(raw)[k..]);
            && a <= b <= |raw| && Strip(whole) == raw[a..b]
            && whole == w1 + Strip(whole) + w2 && AllSpace(w1) && AllSpace(w2)
  {
    var lines := SplitLines(raw);
    JoinSplitLines(raw);
    JoinSuffix("\n", lines, k);
    w1, w2, a, b := SuffixPieces(raw, JoinWith("\n", lines[k..]));
  }

  /** A suffix of `s`, stripped, is a slice of `s`, and the suffix is that slice padded with whitespace. */
  lemma {:induction false} SuffixPieces(s: string, whole: string) returns (w1: string, w2: string, a: nat, b: nat)
    requires |whole| <= |s| && s[|s| - |whole|..] == whole
    ensures a <= b <= |s| && Strip(whole) == s[a..b]
    ensures whole == w1 + Strip(whole) + w2 && AllSpace(w1) && AllSpace(w2)
  {
    var i, j := StripIsSlice(whole);
    w1, w2, a, b := PadOfSuffix(s, |s| - |whole|, whole, i, j, Strip(whole));
  }

  /** A slice `r` of a suffix `w` of `s` is a slice of `s`, and `w` is `r` with what lies around it. */
  lemma {:induction false} PadOfSuffix<T>(s: seq<T>, c: nat, w: seq<T>, i: nat, j: nat, r: seq<T>)
      returns (w1: seq<T>, w2: seq<T>, a: nat, b: nat)
    requires c <= |s| && w == s[c..] && i <= j <= |w| && r == w[i..j]
    ensures a <= b <= |s| && r == s[a..b]
    ensures w == w1 + r + w2 && w1 == w[..i] && w2 == w[j..]
  {
    SliceOfSuffix(s, c, w, i, j, r);
    ThreeSlices(w, i, j);
    w1, w2, a, b := w[..i], w[j..], c + i, c + j;
  }

  /** The whole-text branch of `CleanCodeIdempotent`. */
  lemma {:induction false} WholeIdempotent(raw: string)
    requires FenceFree(raw) && FirstIndex(SplitLines(raw), CodeLine).None?
    ensures CleanCode(CleanCode(raw)) == CleanCode(raw)
  {
    var lines := SplitLines(raw);
    var r := Strip(raw);
    assert CleanCode(raw) == r;
    var a, b := StripIsSlice(raw);
    SliceFenceFree(raw, a, b, r);
    var w1, w2 := StripPadding(raw);
    forall j | 0 <= j < |lines| ensures !StartsCode(Strip(lines[j])) {
      assert !CodeLine(lines[j]);
    }
    PaddedNone(w1, r, w2, StartsCode);
    FirstIndexNone(SplitLines(r), CodeLine);
    StripIdempotent(raw);
  }

  /** The scan's result, `"\n".join(parts)` with a code-like first part, strips
      to a text whose first line is still code-like. */
  lemma {:induction false} CodeTextFirstLine(parts: seq<string>, w1: string, r: string, w2: string)
    requires |parts| >= 1 && '\n' !in parts[0] && CodeLine(parts[0])
    requires JoinWith("\n", parts) == w1 + r + w2 && AllSpace(w1) && AllSpace(w2)
    ensures CodeLine(SplitLines(r)[0])
  {
    JoinFirstLine(parts);
    if AllSpace(parts[0]) {
      BlankNotCodeLine(parts[0]);
    }
    PaddedFirstLine(w1, r, w2);
    CodeLineByStrip(parts[0], SplitLines(r)[0]);
  }

  /** A blank line is not code-like. */
  lemma {:induction false} BlankNotCodeLine(line: string)
    requires AllSpace(line)
    ensures !CodeLine(line)
  {
    BlankIffAllSpace(line);
    EmptyStartsWithNone(CodePrefixes);
  }

  /** Whether a line is code-like depends only on its stripped text. */
  lemma {:induction false} CodeLineByStrip(x: string, y: string)
    requires Strip(x) == Strip(y)
    ensures CodeLine(x) == CodeLine(y)
  {
  }
}
