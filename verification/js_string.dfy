/** JavaScript's `String.prototype.split` for a non-empty string separator,
    together with `Array.prototype.join`, which gives the input back from its
    pieces. Only the separator form is modelled: the source splits on "." and
    on "//". */
module JsString {
  import opened Wrappers

  /** `sep` occurs in `s` starting at index `i`. */
  predicate OccursAt(s: string, sep: string, i: nat) {
    i + |sep| <= |s| && forall k :: 0 <= k < |sep| ==> s[i + k] == sep[k]
  }

  predicate Contains(s: string, sep: string) {
    exists i: nat | i <= |s| :: OccursAt(s, sep, i)
  }

  /** An occurrence in a suffix of `s` is an occurrence in `s`, shifted. */
  lemma OccursInSuffix(s: string, sep: string, a: nat, j: nat)
    requires a <= |s|
    ensures OccursAt(s[a..], sep, j) <==> OccursAt(s, sep, a + j)
  {
    if a + j + |sep| <= |s| {
      assert forall i | j <= i < j + |sep| :: s[a..][i] == s[a + i];
    }
  }

  /** An occurrence that fits in a prefix of `s` is an occurrence in `s`. */
  lemma OccursInPrefix(s: string, sep: string, p: nat, j: nat)
    requires p <= |s|
    ensures OccursAt(s[..p], sep, j) <==> OccursAt(s, sep, j) && j + |sep| <= p
  {
    if j + |sep| <= p {
      assert forall i | j <= i < j + |sep| :: s[..p][i] == s[i];
    }
  }

  /** A slice of a string in which `sep` does not occur contains no `sep` either. */
  lemma SliceFree(s: string, sep: string, a: nat, b: nat)
    requires a <= b <= |s|
    requires !Contains(s, sep)
    ensures !Contains(s[a..b], sep)
  {
    forall i: nat | i <= |s[a..b]| ensures !OccursAt(s[a..b], sep, i) {
      OccursInPrefix(s, sep, b, a + i);
      OccursInSuffix(s[..b], sep, a, i);
      assert s[..b][a..] == s[a..b];
    }
  }

  /** A prefix that ends before the first occurrence of `sep` has no `sep`. */
  lemma PrefixFree(s: string, sep: string, p: nat)
    requires |sep| > 0 && p <= |s|
    requires forall j: nat :: j < p ==> !OccursAt(s, sep, j)
    ensures !Contains(s[..p], sep)
  {
    forall i: nat | i <= p ensures !OccursAt(s[..p], sep, i) {
      OccursInPrefix(s, sep, p, i);
    }
  }

  /** The first position at or after `from` where `sep` occurs. */
  function IndexFrom(s: string, sep: string, from: nat): (r: Option<nat>)
    requires |sep| > 0
    ensures r.Some? ==> from <= r.value && OccursAt(s, sep, r.value)
    ensures r.Some? ==> forall j: nat :: from <= j < r.value ==> !OccursAt(s, sep, j)
    ensures r.None? ==> forall j: nat :: from <= j ==> !OccursAt(s, sep, j)
    decreases |s| - from
  {
    if |s| < from + |sep| then None
    else if OccursAt(s, sep, from) then Some(from)
    else IndexFrom(s, sep, from + 1)
  }

  /** JavaScript's `s.indexOf(sep)`, with -1 written as None: the first
      position where `sep` occurs. */
  function IndexOf(s: string, sep: string): (r: Option<nat>)
    requires |sep| > 0
    ensures r.Some? ==> OccursAt(s, sep, r.value)
    ensures r.Some? ==> forall j: nat :: j < r.value ==> !OccursAt(s, sep, j)
    ensures r.None? <==> !Contains(s, sep)
  {
    IndexFrom(s, sep, 0)
  }

  /** Given the first occurrence `p` of `sep`, `Before` and `After` are
      the text before it and the first piece of the text after it. */
  lemma FirstOccurrence(s: string, sep: string, p: nat)
    requires |sep| > 0
    requires OccursAt(s, sep, p)
    requires forall j: nat :: j < p ==> !OccursAt(s, sep, j)
    ensures IndexOf(s, sep) == Some(p)
    ensures Before(s, sep) == s[..p]
    ensures After(s, sep) == Some(Before(s[p + |sep|..], sep))
  {
    assert p <= |s|;
  }

  /** JavaScript's `parts.join(sep)`. */
  function Join(parts: seq<string>, sep: string): string
  {
    if |parts| == 0 then ""
    else if |parts| == 1 then parts[0]
    else parts[0] + sep + Join(parts[1..], sep)
  }

  /** JavaScript's `s.split(sep)` for a non-empty string separator: the text
      between left-to-right, non-overlapping occurrences of `sep`. There is
      always at least one piece, no piece contains `sep`, and joining the
      pieces with `sep` gives back `s`. `SplitIsLeftmost` states where the
      cuts fall. */
  function Split(s: string, sep: string): (r: seq<string>)
    requires |sep| > 0
    ensures |r| >= 1
    ensures Join(r, sep) == s
    ensures forall k :: 0 <= k < |r| ==> !Contains(r[k], sep)
    decreases |s|
  {
    match IndexOf(s, sep)
    case None => [s]
    case Some(p) =>
      var rest := Split(s[p + |sep|..], sep);
      PrefixFree(s, sep, p);
      assert s == s[..p] + sep + s[p + |sep|..] by {
        assert forall k | 0 <= k < |sep| :: s[p..p + |sep|][k] == sep[k];
        assert s[p..p + |sep|] == sep;
        assert s == s[..p] + s[p..p + |sep|] + s[p + |sep|..];
      }
      assert ([s[..p]] + rest)[1..] == rest;
      [s[..p]] + rest
  }

  /** `parts` are the pieces of `s` cut at the leftmost occurrences of `sep`,
      scanning left to right without overlap: each piece runs from its start
      up to the first occurrence of `sep` at or after that start, and the
      last piece runs to the end of `s`. */
  predicate LeftmostPieces(s: string, sep: string, parts: seq<string>)
    decreases |parts|
  {
    && |parts| >= 1
    && |parts[0]| <= |s|
    && parts[0] == s[..|parts[0]|]
    && (forall j: nat :: j < |parts[0]| ==> !OccursAt(s, sep, j))
    && if |parts| == 1 then
         |parts[0]| == |s| && !Contains(s, sep)
       else
         && OccursAt(s, sep, |parts[0]|)
         && LeftmostPieces(s[|parts[0]| + |sep|..], sep, parts[1..])
  }

  /** The leftmost cutting is unique: two lists of pieces that both cut `s`
      at the leftmost occurrences of `sep` are equal. */
  lemma {:induction false} LeftmostPiecesUnique(s: string, sep: string, p1: seq<string>, p2: seq<string>)
    requires |sep| > 0
    requires LeftmostPieces(s, sep, p1) && LeftmostPieces(s, sep, p2)
    ensures p1 == p2
    decreases |p1|
  {
    var n1, n2 := |p1[0]|, |p2[0]|;
    if n1 < n2 || n2 < n1 {
      assert false;
    } else if |p1| == 1 || |p2| == 1 {
      assert |p1| == |p2|;
    } else {
      LeftmostPiecesUnique(s[n1 + |sep|..], sep, p1[1..], p2[1..]);
      assert p1 == [p1[0]] + p1[1..];
      assert p2 == [p2[0]] + p2[1..];
    }
  }

  /** `split` cuts at the leftmost occurrences, left to right, without
      overlap; by `LeftmostPiecesUnique` this fixes its result. */
  lemma {:induction false} SplitIsLeftmost(s: string, sep: string)
    requires |sep| > 0
    ensures LeftmostPieces(s, sep, Split(s, sep))
    decreases |s|
  {
    var r := Split(s, sep);
    match IndexOf(s, sep)
    case None =>
      assert r == [s];
    case Some(p) =>
      var rest := s[p + |sep|..];
      SplitIsLeftmost(rest, sep);
      assert r == [s[..p]] + Split(rest, sep);
      assert r[0] == s[..p] && |r[0]| == p;
      assert r[1..] == Split(rest, sep);
  }

  /** `s.split(sep)[0]` (see `SplitPieces`); `BeforeSpec` states what it is. */
  function Before(s: string, sep: string): string
    requires |sep| > 0
  {
    match IndexOf(s, sep)
    case None => s
    case Some(p) => s[..p]
  }

  /** `Before` is the text before the first occurrence of `sep`, or the whole
      of `s` when `sep` does not occur. */
  lemma BeforeSpec(s: string, sep: string)
    requires |sep| > 0
    ensures var r := Before(s, sep);
      && r <= s
      && !Contains(r, sep)
      && (forall j: nat :: j < |r| ==> !OccursAt(s, sep, j))
      && (!Contains(s, sep) ==> r == s)
      && (Contains(s, sep) ==> OccursAt(s, sep, |r|))
  {
    match IndexOf(s, sep)
    case None =>
      assert Before(s, sep) == s;
    case Some(p) =>
      PrefixFree(s, sep, p);
  }

  /** `s.split(sep)[1]` (see `SplitPieces`), with JavaScript's `undefined`
      written as None; `AfterSpec` states what it is. */
  function After(s: string, sep: string): Option<string>
    requires |sep| > 0
  {
    match IndexOf(s, sep)
    case None => None
    case Some(p) => Some(Before(s[p + |sep|..], sep))
  }

  /** `After` is undefined exactly when `sep` does not occur. Otherwise it is
      the slice of `s` that starts right after the first occurrence and runs
      up to the next occurrence, or to the end of `s`. */
  lemma AfterSpec(s: string, sep: string)
    requires |sep| > 0
    ensures var r := After(s, sep);
      && (r.None? <==> !Contains(s, sep))
      && (r.Some? ==> !Contains(r.value, sep))
      && (r.Some? ==>
        var a := |Before(s, sep)| + |sep|;
        && a + |r.value| <= |s|
        && r.value == s[a..a + |r.value|]
        && (forall j: nat :: a <= j < a + |r.value| ==> !OccursAt(s, sep, j))
        && (a + |r.value| == |s| || OccursAt(s, sep, a + |r.value|)))
  {
    match IndexOf(s, sep)
    case None =>
      assert After(s, sep) == None;
    case Some(p) =>
      var rest := s[p + |sep|..];
      var t := Before(rest, sep);
      assert After(s, sep) == Some(t);
      assert |Before(s, sep)| == p;
      BeforeSpec(rest, sep);
      PieceInPlace(s, sep, p + |sep|, t);
  }

  /** A separator-free piece `t` at the start of `s[a..]`, cut at the first
      occurrence there, sits in `s` as the slice from `a`, cut at the first
      occurrence at or after `a`. */
  lemma PieceInPlace(s: string, sep: string, a: nat, t: string)
    requires |sep| > 0 && a <= |s|
    requires t <= s[a..]
    requires forall j: nat :: j < |t| ==> !OccursAt(s[a..], sep, j)
    requires |t| == |s| - a || OccursAt(s[a..], sep, |t|)
    ensures a + |t| <= |s| && t == s[a..a + |t|]
    ensures forall j: nat :: a <= j < a + |t| ==> !OccursAt(s, sep, j)
    ensures a + |t| == |s| || OccursAt(s, sep, a + |t|)
  {
    PrefixOfSuffix(s, a, t);
    ShiftedFree(s, sep, a, |t|);
    if |t| < |s| - a {
      OccursInSuffix(s, sep, a, |t|);
    }
  }

  /** No occurrence in the first `n` positions of `s[a..]` means none at
      positions `a` to `a + n - 1` of `s`. */
  lemma ShiftedFree(s: string, sep: string, a: nat, n: nat)
    requires a <= |s|
    requires forall j: nat :: j < n ==> !OccursAt(s[a..], sep, j)
    ensures forall j: nat :: a <= j < a + n ==> !OccursAt(s, sep, j)
  {
    forall j: nat | a <= j < a + n ensures !OccursAt(s, sep, j) {
      OccursInSuffix(s, sep, a, j - a);
    }
  }

  /** A prefix of `s[a..]` is the slice of `s` that starts at `a`. */
  lemma PrefixOfSuffix(s: string, a: nat, t: string)
    requires a <= |s| && t <= s[a..]
    ensures a + |t| <= |s| && t == s[a..a + |t|]
  {
    assert forall k | 0 <= k < |t| :: t[k] == s[a..][k] == s[a + k];
  }

  /** `Before` and `After` are the first two pieces of `Split`: they are
      `s.split(sep)[0]` and `s.split(sep)[1]`. */
  lemma SplitPieces(s: string, sep: string)
    requires |sep| > 0
    ensures Split(s, sep)[0] == Before(s, sep)
    ensures After(s, sep).None? <==> |Split(s, sep)| < 2
    ensures After(s, sep).Some? ==> After(s, sep).value == Split(s, sep)[1]
  {
    match IndexOf(s, sep)
    case None =>
    case Some(p) =>
      var rest := s[p + |sep|..];
      assert Split(rest, sep)[0] == Before(rest, sep);
      assert Split(s, sep)[1..] == Split(rest, sep);
  }

  /** No occurrence of `sep` starts before `p` when the first character of
      `sep` is absent from `s[..p]`. */
  lemma NoOccurrenceBefore(s: string, sep: string, p: nat)
    requires |sep| > 0 && p <= |s|
    requires sep[0] !in s[..p]
    ensures forall j: nat :: j < p ==> !OccursAt(s, sep, j)
  {
    forall j: nat | j < p ensures !OccursAt(s, sep, j) {
      assert s[..p][j] == s[j];
    }
  }

  /** A string without the first character of `sep` does not contain `sep`. */
  lemma AbsentFirstChar(s: string, sep: string)
    requires |sep| > 0
    requires sep[0] !in s
    ensures !Contains(s, sep)
  {
    assert s[..|s|] == s;
    NoOccurrenceBefore(s, sep, |s|);
  }
}
