/**
 * The few JavaScript `String` and `Array` operations the application relies on,
 * on Dafny strings: the first position of one character (the length where
 * `indexOf` gives -1), `lastIndexOf` of one character, `split` and `join` with a
 * one-character separator, `startsWith`, `replace` with a string pattern (first
 * occurrence only), `slice` with non-negative bounds and a global
 * one-character replacement.
 */
module JsString {
  import opened Wrappers

  /** Index of the first `c` in `s`, or `|s|` when `s` has none. */
  function IndexOfOrLength(s: string, c: char): (i: nat)
    ensures i <= |s|
    ensures i < |s| ==> s[i] == c
    ensures forall j :: 0 <= j < i ==> s[j] != c
    ensures i == |s| <==> c !in s
  {
    IndexFrom(s, c, 0)
  }

  /** The first `c` at or after `k`. */
  function IndexFrom(s: string, c: char, k: nat): (i: nat)
    requires k <= |s|
    ensures k <= i <= |s|
    ensures i < |s| ==> s[i] == c
    ensures forall j :: k <= j < i ==> s[j] != c
    decreases |s| - k
  {
    if k == |s| then |s| else if s[k] == c then k else IndexFrom(s, c, k + 1)
  }

  /** `String.prototype.lastIndexOf(c)`: -1 when `s` has no `c`. */
  function LastIndexOf(s: string, c: char): (i: int)
    ensures -1 <= i < |s|
    ensures 0 <= i ==> s[i] == c
    ensures forall j :: i < j < |s| ==> s[j] != c
    ensures i == -1 <==> c !in s
  {
    LastIndexBefore(s, c, |s|)
  }

  /** The last `c` before `k`, or -1. */
  function LastIndexBefore(s: string, c: char, k: nat): (i: int)
    requires k <= |s|
    ensures -1 <= i < k
    ensures 0 <= i ==> s[i] == c
    ensures forall j :: i < j < k ==> s[j] != c
  {
    if k == 0 then -1 else if s[k - 1] == c then k - 1 else LastIndexBefore(s, c, k - 1)
  }

  /** An occurrence of `c` with no `c` after it is the last one. */
  lemma LastIndexOfUnique(s: string, c: char, k: nat)
    requires k < |s| && s[k] == c
    requires forall j :: k < j < |s| ==> s[j] != c
    ensures LastIndexOf(s, c) == k
  {
  }

  /** `s.split(sep)` for a one-character separator: never empty, no part holds `sep`. */
  function Split(s: string, sep: char): (parts: seq<string>)
    ensures |parts| >= 1
    ensures |parts| == 1 <==> sep !in s
    ensures forall k :: 0 <= k < |parts| ==> sep !in parts[k]
    decreases |s|
  {
    var i := IndexOfOrLength(s, sep);
    if i == |s| then [s] else [s[..i]] + Split(s[i + 1..], sep)
  }

  /** The first split: what stands before the first `sep`, then the parts of what follows it. */
  lemma SplitStep(s: string, sep: char)
    requires sep in s
    ensures var i := IndexOfOrLength(s, sep);
            Split(s, sep) == [s[..i]] + Split(s[i + 1..], sep)
  {
  }

  /** A string without `sep` before the first `sep` is the first part, and the rest splits on its own. */
  lemma SplitAtFirst(a: string, sep: char, b: string)
    requires sep !in a
    ensures Split(a + [sep] + b, sep) == [a] + Split(b, sep)
  {
    var s := a + [sep] + b;
    IndexOfFirst(s, sep, |a|);
    assert s[..|a|] == a;
    assert s[|a| + 1..] == b;
    SplitStep(s, sep);
  }

  /** The first `sep` of `s` is at `k` when none comes before it. */
  lemma IndexOfFirst(s: string, sep: char, k: nat)
    requires k < |s| && s[k] == sep
    requires forall j :: 0 <= j < k ==> s[j] != sep
    ensures IndexOfOrLength(s, sep) == k
  {
  }

  /** A character missing from the string is missing from every part of its split. */
  lemma {:induction false} SplitPartAvoids(s: string, sep: char, k: nat, c: char)
    requires k < |Split(s, sep)| && c !in s
    ensures c !in Split(s, sep)[k]
    decreases |s|
  {
    var i := IndexOfOrLength(s, sep);
    if i < |s| {
      SplitStep(s, sep);
      if k == 0 {
        SliceAvoids(s, 0, i, c);
      } else {
        SliceAvoids(s, i + 1, |s|, c);
        SplitPartAvoids(s[i + 1..], sep, k - 1, c);
      }
    }
  }

  lemma SliceAvoids(s: string, lo: nat, hi: nat, c: char)
    requires lo <= hi <= |s| && c !in s
    ensures c !in s[lo..hi]
  {
    forall j | 0 <= j < hi - lo
      ensures s[lo..hi][j] != c
    {
      assert s[lo..hi][j] == s[lo + j];
    }
  }

  /** `parts.join(sep)`: the empty array joins to the empty string. */
  function Join(parts: seq<string>, sep: char): string
  {
    if parts == [] then ""
    else if |parts| == 1 then parts[0]
    else parts[0] + [sep] + Join(parts[1..], sep)
  }

  lemma JoinCons(a: string, t: seq<string>, sep: char)
    requires |t| >= 1
    ensures Join([a] + t, sep) == a + [sep] + Join(t, sep)
  {
    assert ([a] + t)[1..] == t;
  }

  /** A string is what stands before its first `sep`, the `sep`, and what follows. */
  lemma AroundIndex(s: string, i: nat)
    requires i < |s|
    ensures s == s[..i] + [s[i]] + s[i + 1..]
  {
  }

  /** Joining the parts of a split gives back the string. */
  lemma {:induction false} JoinSplit(s: string, sep: char)
    ensures Join(Split(s, sep), sep) == s
    decreases |s|
  {
    if sep in s {
      var i := IndexOfOrLength(s, sep);
      var rest := s[i + 1..];
      SplitStep(s, sep);
      JoinSplit(rest, sep);
      JoinCons(s[..i], Split(rest, sep), sep);
      AroundIndex(s, i);
    }
  }

  /** The text before the last `sep` of `s`, or nothing when `s` has none. */
  function BeforeLast(s: string, sep: char): string
  {
    var i := LastIndexOf(s, sep);
    if i < 0 then "" else s[..i]
  }

  /** Everything but the last part of a split (`path.pop()`): one part fewer, none holding `sep`, none at all when `s` has no `sep`. */
  function InitParts(s: string, sep: char): (r: seq<string>)
    ensures |r| + 1 == |Split(s, sep)|
    ensures forall k :: 0 <= k < |r| ==> sep !in r[k]
    ensures r == [] <==> sep !in s
  {
    var parts := Split(s, sep);
    parts[..|parts| - 1]
  }

  /**
   * Splitting on `sep`, dropping the last part and joining again keeps exactly
   * what stands before the last `sep` (nothing when there is none).
   */
  lemma {:induction false} JoinWithoutLastPart(s: string, sep: char)
    ensures Join(InitParts(s, sep), sep) == BeforeLast(s, sep)
    decreases |s|
  {
    if sep in s {
      var i := IndexOfOrLength(s, sep);
      var rest := s[i + 1..];
      if sep !in rest {
        WithoutLastSingle(s, sep);
      } else {
        JoinWithoutLastPart(rest, sep);
        WithoutLastMore(s, sep);
      }
    }
  }

  /** With a single `sep`, the parts before the last are just what stands before it. */
  lemma WithoutLastSingle(s: string, sep: char)
    requires sep in s
    requires sep !in s[IndexOfOrLength(s, sep) + 1..]
    ensures Join(InitParts(s, sep), sep) == BeforeLast(s, sep)
  {
    var i := IndexOfOrLength(s, sep);
    SplitStep(s, sep);
    DropLastCons(s[..i], Split(s[i + 1..], sep));
    NoSepAfter(s, sep, i);
    LastIndexOfUnique(s, sep, i);
  }

  /** With another `sep` after the first, the first part joins what stands before the last `sep` of the rest. */
  lemma WithoutLastMore(s: string, sep: char)
    requires sep in s
    requires var rest := s[IndexOfOrLength(s, sep) + 1..];
             sep in rest && Join(InitParts(rest, sep), sep) == BeforeLast(rest, sep)
    ensures Join(InitParts(s, sep), sep) == BeforeLast(s, sep)
  {
    var i := IndexOfOrLength(s, sep);
    var rest := s[i + 1..];
    InitPartsStep(s, sep);
    JoinCons(s[..i], InitParts(rest, sep), sep);
    BeforeLastStep(s, sep);
  }

  /** The parts before the last: the first part, then those of what follows the first `sep`. */
  lemma InitPartsStep(s: string, sep: char)
    requires sep in s && sep in s[IndexOfOrLength(s, sep) + 1..]
    ensures var i := IndexOfOrLength(s, sep);
            InitParts(s, sep) == [s[..i]] + InitParts(s[i + 1..], sep) &&
            |InitParts(s[i + 1..], sep)| >= 1
  {
    var i := IndexOfOrLength(s, sep);
    var rest := s[i + 1..];
    SplitStep(s, sep);
    InitPartsOfSplit(s, sep, s[..i], Split(rest, sep));
  }

  /** When the split is a first part followed by more parts, dropping the last part keeps the first. */
  lemma InitPartsOfSplit(s: string, sep: char, a: string, tail: seq<string>)
    requires Split(s, sep) == [a] + tail && |tail| >= 1
    ensures InitParts(s, sep) == [a] + tail[..|tail| - 1]
  {
    DropLastCons(a, tail);
  }

  /** What stands before the last `sep`: the first part, the `sep`, and what stands before the last `sep` of the rest. */
  lemma BeforeLastStep(s: string, sep: char)
    requires sep in s && sep in s[IndexOfOrLength(s, sep) + 1..]
    ensures var i := IndexOfOrLength(s, sep);
            BeforeLast(s, sep) == s[..i] + [sep] + BeforeLast(s[i + 1..], sep)
  {
    var i := IndexOfOrLength(s, sep);
    var rest := s[i + 1..];
    var j := LastIndexOf(rest, sep);
    assert BeforeLast(s, sep) == s[..i] + [sep] + rest[..j] by {
      LastIndexAfterFirst(s, sep, i);
    }
    assert BeforeLast(rest, sep) == rest[..j] by {
      assert 0 <= j;
    }
  }

  lemma DropLastCons(a: string, tail: seq<string>)
    requires |tail| >= 1
    ensures ([a] + tail)[..|tail|] == [a] + tail[..|tail| - 1]
  {
  }

  lemma NoSepAfter(s: string, sep: char, i: nat)
    requires i < |s| && sep !in s[i + 1..]
    ensures forall j :: i < j < |s| ==> s[j] != sep
  {
    forall j | i < j < |s| ensures s[j] != sep {
      assert s[j] == s[i + 1..][j - i - 1];
    }
  }

  /** When a `sep` follows the one at `i`, the last `sep` of `s` is the last one of what follows `i`. */
  lemma LastIndexAfterFirst(s: string, sep: char, i: nat)
    requires i < |s| && s[i] == sep && sep in s[i + 1..]
    ensures var j := LastIndexOf(s[i + 1..], sep);
            LastIndexOf(s, sep) == i + 1 + j && s[..i + 1 + j] == s[..i] + [sep] + s[i + 1..][..j]
  {
    var rest := s[i + 1..];
    var j := LastIndexOf(rest, sep);
    assert s[i + 1 + j] == rest[j];
    forall k | i + 1 + j < k < |s| ensures s[k] != sep {
      assert s[k] == rest[k - i - 1];
    }
    LastIndexOfUnique(s, sep, i + 1 + j);
    assert s[..i + 1 + j] == s[..i] + [sep] + rest[..j];
  }

  predicate StartsWith(s: string, prefix: string)
  {
    |prefix| <= |s| && s[..|prefix|] == prefix
  }

  predicate OccursAt(s: string, pat: string, i: nat)
  {
    i + |pat| <= |s| && s[i..i + |pat|] == pat
  }

  /** First index at which `pat` occurs in `s`. */
  function Find(s: string, pat: string): (r: Option<nat>)
    ensures r.Some? ==> OccursAt(s, pat, r.value)
    ensures r.Some? ==> forall j :: 0 <= j < r.value ==> !OccursAt(s, pat, j)
    ensures r.None? ==> forall j :: 0 <= j ==> !OccursAt(s, pat, j)
    ensures StartsWith(s, pat) ==> r == Some(0)
  {
    if |s| < |pat| then None
    else if s[..|pat|] == pat then Some(0)
    else
      var r' := Find(s[1..], pat);
      forall k: nat ensures OccursAt(s, pat, k + 1) <==> OccursAt(s[1..], pat, k) {
        OccursAtShift(s, pat, k);
      }
      assert forall k: nat :: OccursAt(s, pat, k) ==> k > 0 && OccursAt(s[1..], pat, k - 1);
      if r'.None? then None else Some(1 + r'.value)
  }

  /** An occurrence in `s[1..]` is an occurrence in `s` one place further. */
  lemma OccursAtShift(s: string, pat: string, k: nat)
    requires |s| >= 1
    ensures OccursAt(s, pat, k + 1) <==> OccursAt(s[1..], pat, k)
  {
    if k + 1 + |pat| <= |s| {
      var a, b := s[k + 1..k + 1 + |pat|], s[1..][k..k + |pat|];
      forall t | 0 <= t < |pat| ensures a[t] == b[t] {
        assert a[t] == s[k + 1 + t];
      }
      assert a == b;
    }
  }

  /** `s.replace(pat, rep)` with a string pattern: only the first occurrence is replaced. */
  function Replace(s: string, pat: string, rep: string): (r: string)
    ensures forall i: nat :: OccursAt(s, pat, i) && (forall j :: 0 <= j < i ==> !OccursAt(s, pat, j)) ==>
              r == s[..i] + rep + s[i + |pat|..]
    ensures StartsWith(s, pat) ==> r == rep + s[|pat|..]
    ensures (forall j: nat :: !OccursAt(s, pat, j)) ==> r == s
  {
    match Find(s, pat)
    case None => s
    case Some(i) => s[..i] + rep + s[i + |pat|..]
  }

  /** `s.slice(from, to)` for non-negative bounds: both are clamped to the length. */
  function Slice(s: string, from: nat, to: nat): (r: string)
    ensures |r| <= |s|
    ensures to <= |s| && from <= to ==> r == s[from..to]
    ensures from <= |s| <= to ==> r == s[from..]
    ensures to <= from || |s| <= from ==> r == ""
  {
    var a := if from < |s| then from else |s|;
    var b := if to < |s| then to else |s|;
    if b <= a then "" else s[a..b]
  }

  /** `s.replace(/x/g, y)` for a single character `x`. */
  function ReplaceAllChar(s: string, x: char, y: char): (r: string)
    ensures |r| == |s|
    ensures forall i :: 0 <= i < |s| ==> r[i] == if s[i] == x then y else s[i]
  {
    if s == [] then ""
    else [if s[0] == x then y else s[0]] + ReplaceAllChar(s[1..], x, y)
  }

  /** Replacing works piece by piece. */
  lemma {:induction false} ReplaceAllCharConcat(a: string, b: string, x: char, y: char)
    ensures ReplaceAllChar(a + b, x, y) == ReplaceAllChar(a, x, y) + ReplaceAllChar(b, x, y)
  {
    if a == [] {
      assert a + b == b;
    } else {
      assert (a + b)[1..] == a[1..] + b;
      ReplaceAllCharConcat(a[1..], b, x, y);
    }
  }

  /** A string without `x` is left as it is. */
  lemma ReplaceAllCharAbsent(s: string, x: char, y: char)
    requires x !in s
    ensures ReplaceAllChar(s, x, y) == s
  {
    var r := ReplaceAllChar(s, x, y);
    forall i | 0 <= i < |s|
      ensures r[i] == s[i]
    {
      assert s[i] in s;
    }
  }
}
