/**
 String primitives the resource router relies on: JavaScript's `trim`,
 `split` and `join` on a one-character separator, and the substring test
 behind the store's case-insensitive `contains` filter.
 */
module Text {

  /** The characters `String.prototype.trim` removes: the ECMAScript
      WhiteSpace and LineTerminator productions (Unicode category Zs plus
      tab, vertical tab, form feed, byte order mark and the line ends). */
  predicate IsSpace(c: char) {
    || c == '\t' || c == '\n' || c == '\U{000B}' || c == '\U{000C}' || c == '\r'
    || c == ' ' || c == '\U{00A0}' || c == '\U{1680}'
    || ('\U{2000}' <= c <= '\U{200A}')
    || c == '\U{2028}' || c == '\U{2029}' || c == '\U{202F}' || c == '\U{205F}'
    || c == '\U{3000}' || c == '\U{FEFF}'
  }

  predicate AllSpace(s: string) {
    forall i :: 0 <= i < |s| ==> IsSpace(s[i])
  }

  /** A string with no whitespace at either end. */
  predicate Trimmed(s: string) {
    |s| == 0 || (!IsSpace(s[0]) && !IsSpace(s[|s| - 1]))
  }

  /** The index of the first non-whitespace character at or after `i`, or
      `|s|` when there is none. */
  function SkipSpaces(s: string, i: nat): (k: nat)
    requires i <= |s|
    ensures i <= k <= |s|
    ensures forall j :: i <= j < k ==> IsSpace(s[j])
    ensures k < |s| ==> !IsSpace(s[k])
    decreases |s| - i
  {
    if i < |s| && IsSpace(s[i]) then SkipSpaces(s, i + 1) else i
  }

  /** The index just past the last non-whitespace character before `j` and
      not before `lo`, or `lo` when there is none. */
  function SkipSpacesBack(s: string, lo: nat, j: nat): (k: nat)
    requires lo <= j <= |s|
    ensures lo <= k <= j
    ensures forall m :: k <= m < j ==> IsSpace(s[m])
    ensures k > lo ==> !IsSpace(s[k - 1])
  {
    if j > lo && IsSpace(s[j - 1]) then SkipSpacesBack(s, lo, j - 1) else j
  }

  /** `r` is what remains of `s` once its first `k` characters and its last
      `|s| - k - |r|` characters, all of them whitespace, are cut away. */
  predicate CutAt(s: string, r: string, k: int) {
    && 0 <= k <= |s| - |r|
    && r == s[k..k + |r|]
    && AllSpace(s[..k])
    && AllSpace(s[k + |r|..])
  }

  /** `s.trim()`: the result is trimmed, keeps only characters of `s`, and a
      string that is already trimmed comes back as it was. */
  function Trim(s: string): (r: string)
    ensures Trimmed(r)
    ensures forall c :: c in r ==> c in s
    ensures Trimmed(s) ==> r == s
  {
    var lo := SkipSpaces(s, 0);
    var hi := SkipSpacesBack(s, lo, |s|);
    assert Trimmed(s) && |s| > 0 ==> lo == 0 && hi == |s|;
    s[lo..hi]
  }

  /** Trimming removes whitespace only: the result is the middle of `s`
      once some whitespace is cut from each end. */
  lemma TrimCutsSpaces(s: string)
    ensures exists k :: CutAt(s, Trim(s), k)
  {
    var lo := SkipSpaces(s, 0);
    var hi := SkipSpacesBack(s, lo, |s|);
    assert Trim(s) == s[lo..hi];
    assert forall i :: 0 <= i < lo ==> s[..lo][i] == s[i];
    assert forall i :: 0 <= i < |s| - hi ==> s[hi..][i] == s[hi + i];
    assert CutAt(s, Trim(s), lo);
  }

  /** `xs.join(d)`. */
  function Join(xs: seq<string>, d: char): (s: string) {
    if |xs| == 0 then ""
    else if |xs| == 1 then xs[0]
    else xs[0] + [d] + Join(xs[1..], d)
  }

  /** `s.split(d)`: the pieces between occurrences of `d`, so there is always
      at least one piece (the empty string splits into `[""]`) and no piece
      contains `d`. */
  function Split(s: string, d: char): (r: seq<string>)
    ensures |r| >= 1
    ensures forall i :: 0 <= i < |r| ==> d !in r[i]
  {
    if |s| == 0 then [""]
    else
      var rest := Split(s[1..], d);
      if s[0] == d then [""] + rest
      else [[s[0]] + rest[0]] + rest[1..]
  }

  lemma JoinCons(x: string, xs: seq<string>, d: char)
    requires |xs| >= 1
    ensures Join([x] + xs, d) == x + [d] + Join(xs, d)
  {
  }

  lemma JoinGrowHead(c: char, xs: seq<string>, d: char)
    requires |xs| >= 1
    ensures Join([[c] + xs[0]] + xs[1..], d) == [c] + Join(xs, d)
  {
  }

  /** Joining the pieces of a split gives back the string that was split. */
  lemma {:induction false} JoinSplit(s: string, d: char)
    ensures Join(Split(s, d), d) == s
  {
    if |s| > 0 {
      var rest := Split(s[1..], d);
      JoinSplit(s[1..], d);
      if s[0] == d {
        JoinCons("", rest, d);
      } else {
        JoinGrowHead(s[0], rest, d);
      }
      assert s == [s[0]] + s[1..];
    }
  }

  /** A piece free of the separator, followed by the separator, splits off
      as exactly one piece. */
  lemma {:induction false} SplitAfterPiece(x: string, rest: string, d: char)
    requires d !in x
    ensures Split(x + [d] + rest, d) == [x] + Split(rest, d)
  {
    if |x| == 0 {
      assert x + [d] + rest == [d] + rest;
      assert ([d] + rest)[1..] == rest;
    } else {
      var s := x + [d] + rest;
      assert s[0] == x[0] && s[1..] == x[1..] + [d] + rest;
      SplitAfterPiece(x[1..], rest, d);
      assert [x[0]] + x[1..] == x;
    }
  }

  /** A string free of the separator splits into itself alone. */
  lemma {:induction false} SplitNoSeparator(x: string, d: char)
    requires d !in x
    ensures Split(x, d) == [x]
  {
    if |x| > 0 {
      SplitNoSeparator(x[1..], d);
      assert [x[0]] + x[1..] == x;
    }
  }

  /** Splitting a join gives back the pieces, provided there is at least one
      piece and none contains the separator. */
  lemma {:induction false} SplitJoin(xs: seq<string>, d: char)
    requires |xs| >= 1
    requires forall i :: 0 <= i < |xs| ==> d !in xs[i]
    ensures Split(Join(xs, d), d) == xs
  {
    if |xs| == 1 {
      SplitNoSeparator(xs[0], d);
    } else {
      SplitJoin(xs[1..], d);
      SplitAfterPiece(xs[0], Join(xs[1..], d), d);
      assert [xs[0]] + xs[1..] == xs;
    }
  }

  /** `needle` occurs in `hay` starting at index `i`. */
  predicate OccursAt(hay: string, needle: string, i: int) {
    0 <= i <= |hay| - |needle| && hay[i..i + |needle|] == needle
  }

  /** Substring test: `needle` occurs somewhere in `hay`. */
  function Contains(hay: string, needle: string): (b: bool)
    ensures b <==> exists i :: OccursAt(hay, needle, i)
  {
    if needle <= hay then
      assert OccursAt(hay, needle, 0);
      true
    else if |hay| == 0 then
      false
    else
      var b := Contains(hay[1..], needle);
      ContainsShift(hay, needle);
      b
  }

  lemma ContainsShift(hay: string, needle: string)
    requires |hay| > 0 && !(needle <= hay)
    ensures (exists i :: OccursAt(hay, needle, i)) <==> (exists i :: OccursAt(hay[1..], needle, i))
  {
    if i :| OccursAt(hay, needle, i) {
      assert i != 0;
      assert hay[1..][i - 1..i - 1 + |needle|] == hay[i..i + |needle|];
      assert OccursAt(hay[1..], needle, i - 1);
    }
    if i :| OccursAt(hay[1..], needle, i) {
      assert hay[1..][i..i + |needle|] == hay[i + 1..i + 1 + |needle|];
      assert OccursAt(hay, needle, i + 1);
    }
  }

  /** Every piece of a join occurs in the joined string. */
  lemma {:induction false} JoinContainsPieces(xs: seq<string>, d: char, i: nat)
    requires i < |xs|
    ensures Contains(Join(xs, d), xs[i])
  {
    var j := Join(xs, d);
    if |xs| == 1 || i == 0 {
      assert OccursAt(j, xs[0], 0);
    } else {
      JoinContainsPieces(xs[1..], d, i - 1);
      var tail := Join(xs[1..], d);
      var k :| OccursAt(tail, xs[i], k);
      var off := |xs[0]| + 1;
      assert j == xs[0] + [d] + tail;
      assert j[off + k..off + k + |xs[i]|] == tail[k..k + |xs[i]|];
      assert OccursAt(j, xs[i], off + k);
    }
  }

  /** Applies a per-character case folding to every character. */
  function Fold(s: string, fold: char -> char): (r: string) {
    seq(|s|, i requires 0 <= i < |s| => fold(s[i]))
  }

  /** Case-insensitive substring test, with case folding left abstract. */
  predicate ContainsInsensitive(hay: string, needle: string, fold: char -> char) {
    Contains(Fold(hay, fold), Fold(needle, fold))
  }

  /** An exact occurrence is also a case-insensitive one, whatever the folding. */
  lemma ContainsIsInsensitive(hay: string, needle: string, fold: char -> char)
    requires Contains(hay, needle)
    ensures ContainsInsensitive(hay, needle, fold)
  {
    var i :| OccursAt(hay, needle, i);
    var fh, fn := Fold(hay, fold), Fold(needle, fold);
    assert fh[i..i + |fn|] == fn;
    assert OccursAt(fh, fn, i);
  }
}
