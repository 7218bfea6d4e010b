/**
 * Text as the overlay writes it into SVG attributes, and the two JavaScript
 * string operations the colour conversion uses (startsWith and replace with a
 * string pattern).
 *
 * A piece of text is either a character or a number that JavaScript turns into
 * text (String(n) or a template literal `${n}`). Numbers are kept as exact reals
 * rather than as their decimal rendering.
 */
module Strings {
  import opened Optional

  datatype Piece = Char(c: char) | Number(value: real)
  type Text = seq<Piece>

  /** A string with no embedded number, as text. */
  function Plain(s: string): (t: Text)
    ensures |t| == |s|
    ensures forall i :: 0 <= i < |s| ==> t[i] == Char(s[i])
  {
    if s == [] then [] else [Char(s[0])] + Plain(s[1..])
  }

  lemma PlainAppend(a: string, b: string)
    ensures Plain(a + b) == Plain(a) + Plain(b)
  {
    assert forall i :: 0 <= i < |a + b| ==> Plain(a + b)[i] == (Plain(a) + Plain(b))[i];
  }

  lemma PlainSlice(s: string, lo: nat, hi: nat)
    requires lo <= hi <= |s|
    ensures Plain(s)[lo..hi] == Plain(s[lo..hi])
  {
    forall i | 0 <= i < hi - lo ensures Plain(s)[lo..hi][i] == Plain(s[lo..hi])[i] {
      assert s[lo..hi][i] == s[lo + i];
    }
  }


  /** `s.startsWith(prefix)` */
  predicate StartsWith<T(==)>(s: seq<T>, prefix: seq<T>) {
    |prefix| <= |s| && s[..|prefix|] == prefix
  }

  /** `pat` occurs in `s` at index `k`. */
  predicate OccursAt<T(==)>(s: seq<T>, pat: seq<T>, k: int) {
    0 <= k && k + |pat| <= |s| && s[k..k + |pat|] == pat
  }

  /** The first index at or after `k` where `pat` occurs in `s`, if any. */
  function IndexOfFrom<T(==)>(s: seq<T>, pat: seq<T>, k: nat): (r: Option<nat>)
    decreases |s| - k
    ensures r.Some? ==> k <= r.value && OccursAt(s, pat, r.value)
    ensures r.Some? ==> forall j :: k <= j < r.value ==> !OccursAt(s, pat, j)
    ensures r.None? ==> forall j :: k <= j ==> !OccursAt(s, pat, j)
  {
    if k + |pat| > |s| then None
    else if s[k..k + |pat|] == pat then Some(k)
    else IndexOfFrom(s, pat, k + 1)
  }

  /** `s.indexOf(pat)`, with -1 as None. */
  function IndexOf<T(==)>(s: seq<T>, pat: seq<T>): (r: Option<nat>)
    ensures r.Some? ==> OccursAt(s, pat, r.value)
    ensures r.Some? ==> forall j :: 0 <= j < r.value ==> !OccursAt(s, pat, j)
    ensures r.None? ==> forall j :: 0 <= j ==> !OccursAt(s, pat, j)
  {
    IndexOfFrom(s, pat, 0)
  }

  /** The first occurrence is determined by where the pattern is and is not. */
  lemma IndexOfIs<T>(s: seq<T>, pat: seq<T>, k: nat)
    requires OccursAt(s, pat, k)
    requires forall j :: 0 <= j < k ==> !OccursAt(s, pat, j)
    ensures IndexOf(s, pat) == Some(k)
  {
  }

  /** `s.replace(pat, rep)` for a string pattern: only the first occurrence is replaced. */
  function ReplaceFirst<T(==)>(s: seq<T>, pat: seq<T>, rep: seq<T>): seq<T> {
    match IndexOf(s, pat)
    case None => s
    case Some(k) => s[..k] + rep + s[k + |pat|..]
  }

  /** Replacing a prefix the text starts with swaps that prefix alone. */
  lemma ReplaceLeading<T>(s: seq<T>, pat: seq<T>, rep: seq<T>)
    requires StartsWith(s, pat)
    ensures ReplaceFirst(s, pat, rep) == rep + s[|pat|..]
  {
    assert OccursAt(s, pat, 0);
    IndexOfIs(s, pat, 0);
  }

  /** Replacing the first occurrence of a one-element pattern, given everything before it. */
  lemma ReplaceAfter<T>(a: seq<T>, x: T, b: seq<T>, rep: seq<T>)
    requires x !in a
    ensures ReplaceFirst(a + [x] + b, [x], rep) == a + rep + b
  {
    var s := a + [x] + b;
    assert s[|a|..|a| + 1] == [x];
    forall j | 0 <= j < |a| ensures !OccursAt(s, [x], j) {
      assert s[j..j + 1] == [a[j]];
    }
    IndexOfIs(s, [x], |a|);
    assert s[..|a|] == a;
    assert s[|a| + 1..] == b;
  }

  /** A one-element pattern that does not occur leaves the text as it is. */
  lemma ReplaceAbsent<T>(s: seq<T>, x: T, rep: seq<T>)
    requires x !in s
    ensures ReplaceFirst(s, [x], rep) == s
  {
    forall j | 0 <= j < |s| ensures !OccursAt(s, [x], j) {
      assert s[j..j + 1] == [s[j]];
    }
  }
}
