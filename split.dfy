/** Substring search and Python's `str.split(sep, maxsplit)`. */
module Splitting {
  import opened Wrappers
  import opened Text

  /** `sub` occurs in `s` starting at index `k`. */
  predicate OccursAt<T(==)>(s: seq<T>, sub: seq<T>, k: nat) {
    k + |sub| <= |s| && s[k..k + |sub|] == sub
  }

  /** `s.find(sub, from)`: the leftmost occurrence at or after `from`. */
  function Find<T(==)>(s: seq<T>, sub: seq<T>, from: nat): (r: Option<nat>)
    requires from <= |s|
    decreases |s| - from
    ensures r.Some? ==> from <= r.value && OccursAt(s, sub, r.value)
    ensures r.Some? ==> forall k :: from <= k < r.value ==> !OccursAt(s, sub, k)
    ensures r.None? ==> forall k :: from <= k <= |s| ==> !OccursAt(s, sub, k)
  {
    if OccursAt(s, sub, from) then Some(from)
    else if from == |s| then None
    else Find(s, sub, from + 1)
  }

  /** With no occurrence before `k` and one at `k`, the search finds `k`. */
  lemma {:induction false} FindIs<T>(s: seq<T>, sub: seq<T>, k: nat)
    requires OccursAt(s, sub, k)
    requires forall j :: 0 <= j < k ==> !OccursAt(s, sub, j)
    ensures Find(s, sub, 0) == Some(k)
  {
    var f := Find(s, sub, 0);
    assert f.Some?;
    assert f.value <= k;
    assert f.value >= k;
  }

  /** `s.split(sep, n)` for a non-empty separator: at most `n` cuts, leftmost first. */
  function SplitN<T(==)>(s: seq<T>, sep: seq<T>, n: nat): (r: seq<seq<T>>)
    requires |sep| > 0
    decreases n
    ensures 1 <= |r| <= n + 1
  {
    if n == 0 then [s]
    else match Find(s, sep, 0)
      case None => [s]
      case Some(i) => [s[..i]] + SplitN(s[i + |sep|..], sep, n - 1)
  }

  /** Joining the pieces with the separator restores the text. */
  lemma {:induction false} JoinSplitN<T>(s: seq<T>, sep: seq<T>, n: nat)
    requires |sep| > 0
    ensures JoinWith(sep, SplitN(s, sep, n)) == s
  {
    var f := Find(s, sep, 0);
    if n == 0 || f.None? {
      SplitNWhole(s, sep, n);
    } else {
      var i := f.value;
      JoinSplitN(s[i + |sep|..], sep, n - 1);
      JoinStep(s, sep, n, i);
    }
  }

  /** One step of `JoinSplitN`: the pieces after the first cut join to the text after
      it, so all the pieces join to the whole. */
  lemma {:induction false} JoinStep<T>(s: seq<T>, sep: seq<T>, n: nat, i: nat)
    requires |sep| > 0 && n > 0 && Find(s, sep, 0) == Some(i)
    requires JoinWith(sep, SplitN(s[i + |sep|..], sep, n - 1)) == s[i + |sep|..]
    ensures JoinWith(sep, SplitN(s, sep, n)) == s
  {
    var tail := SplitN(s[i + |sep|..], sep, n - 1);
    SplitNCut(s, sep, n, i);
    JoinCons(s[..i], sep, tail);
    CutAt(s, sep, i);
  }

  /** Without a cut left or without an occurrence the text stays whole. */
  lemma {:induction false} SplitNWhole<T>(s: seq<T>, sep: seq<T>, n: nat)
    requires |sep| > 0 && (n == 0 || Find(s, sep, 0).None?)
    ensures SplitN(s, sep, n) == [s]
  {
  }

  /** The leftmost occurrence is the first cut. */
  lemma {:induction false} SplitNCut<T>(s: seq<T>, sep: seq<T>, n: nat, i: nat)
    requires |sep| > 0 && n > 0 && Find(s, sep, 0) == Some(i)
    ensures i + |sep| <= |s|
    ensures SplitN(s, sep, n) == [s[..i]] + SplitN(s[i + |sep|..], sep, n - 1)
  {
  }

  /** Joining a piece in front of at least one more. */
  lemma {:induction false} JoinCons<T>(a: seq<T>, sep: seq<T>, tail: seq<seq<T>>)
    requires |tail| >= 1
    ensures JoinWith(sep, [a] + tail) == a + sep + JoinWith(sep, tail)
  {
    assert ([a] + tail)[1..] == tail;
  }

  /** Cutting out an occurrence and putting it back restores the sequence. */
  lemma {:induction false} CutAt<T>(s: seq<T>, sub: seq<T>, i: nat)
    requires OccursAt(s, sub, i)
    ensures s == s[..i] + sub + s[i + |sub|..]
  {
    assert s == s[..i] + s[i..i + |sub|] + s[i + |sub|..];
  }

  /** No piece but the last holds an occurrence of `sep`. */
  ghost predicate PiecesFree<T>(r: seq<seq<T>>, sep: seq<T>) {
    forall i, k :: 0 <= i < |r| - 1 && 0 <= k ==> !OccursAt(r[i], sep, k)
  }

  /** Every piece but the last holds no occurrence of the separator. */
  lemma {:induction false} SplitNPiecesFree<T>(s: seq<T>, sep: seq<T>, n: nat)
    requires |sep| > 0
    ensures PiecesFree(SplitN(s, sep, n), sep)
  {
    if n > 0 {
      match Find(s, sep, 0)
      case None =>
      case Some(i) =>
        var rest := s[i + |sep|..];
        SplitNPiecesFree(rest, sep, n - 1);
        PrefixFree(s, sep, i);
        SplitNCut(s, sep, n, i);
        ConsFree(s[..i], SplitN(rest, sep, n - 1), sep);
    }
  }

  /** A piece without occurrences in front of pieces that are free stays free. */
  lemma {:induction false} ConsFree<T>(x: seq<T>, tail: seq<seq<T>>, sep: seq<T>)
    requires |tail| >= 1 && PiecesFree(tail, sep)
    requires forall k :: 0 <= k ==> !OccursAt(x, sep, k)
    ensures PiecesFree([x] + tail, sep)
  {
    var r := [x] + tail;
    forall j, k | 0 <= j < |r| - 1 && 0 <= k ensures !OccursAt(r[j], sep, k) {
      if j > 0 {
        assert r[j] == tail[j - 1];
      }
    }
  }

  /** The text before the leftmost occurrence holds no occurrence. */
  lemma {:induction false} PrefixFree<T>(s: seq<T>, sub: seq<T>, i: nat)
    requires |sub| > 0 && Find(s, sub, 0) == Some(i)
    ensures forall k :: 0 <= k ==> !OccursAt(s[..i], sub, k)
  {
    forall k | 0 <= k && OccursAt(s[..i], sub, k) ensures false {
      assert s[..i][k..k + |sub|] == s[k..k + |sub|];
      assert OccursAt(s, sub, k);
    }
  }
}
