/**
 * The few Foundation string operations the lockfile parser relies on, written
 * over `seq<char>`: prefix tests, substring search, `components(separatedBy:)`
 * and `trimmingCharacters(in: .whitespacesAndNewlines)`.
 */
module Text {
  import opened Wrappers

  /** The characters of `CharacterSet.whitespacesAndNewlines`: the control
      characters U+0009 to U+000D, U+0085, and the Unicode separators (Zs, Zl, Zp). */
  const Whitespace: set<char> :=
    {'\t', '\n', '\U{B}', '\U{C}', '\r', ' ', '\U{85}', '\U{A0}', '\U{1680}',
     '\U{2000}', '\U{2001}', '\U{2002}', '\U{2003}', '\U{2004}', '\U{2005}',
     '\U{2006}', '\U{2007}', '\U{2008}', '\U{2009}', '\U{200A}',
     '\U{2028}', '\U{2029}', '\U{202F}', '\U{205F}', '\U{3000}'}

  predicate IsWhitespace(c: char) {
    c in Whitespace
  }

  predicate HasPrefix(s: string, prefix: string) {
    |prefix| <= |s| && s[..|prefix|] == prefix
  }

  /** `pattern` occurs in `s` starting at index `j`. */
  predicate OccursAt(s: string, pattern: string, j: int) {
    0 <= j && j + |pattern| <= |s| && s[j..j + |pattern|] == pattern
  }

  ghost predicate Contains(s: string, pattern: string) {
    exists j :: OccursAt(s, pattern, j)
  }

  /** An occurrence inside a prefix of `s` is an occurrence in `s` that ends within the prefix. */
  lemma OccursInPrefix(s: string, n: nat, pattern: string, j: int)
    requires n <= |s| && OccursAt(s[..n], pattern, j)
    ensures OccursAt(s, pattern, j) && j + |pattern| <= n
  {
    assert s[..n][j..j + |pattern|] == s[j..j + |pattern|];
  }

  /** A single-character pattern occurs exactly when the character does. */
  lemma ContainsChar(s: string, c: char)
    ensures Contains(s, [c]) <==> c in s
  {
    if Contains(s, [c]) {
      var j :| OccursAt(s, [c], j);
      assert s[j] == s[j..j + 1][0];
    }
    if c in s {
      var j :| 0 <= j < |s| && s[j] == c;
      assert OccursAt(s, [c], j);
    }
  }

  /** A pattern holding a character that `s` lacks does not occur in `s`. */
  lemma MissingCharNoOccurrence(s: string, pattern: string, c: char)
    requires c in pattern && c !in s
    ensures !Contains(s, pattern)
  {
    forall j | 0 <= j && j + |pattern| <= |s|
      ensures !OccursAt(s, pattern, j)
    {
      assert c !in s[j..j + |pattern|];
    }
  }

  /** A pattern occurring in neither part of a text occurs in the whole only
      across the seam, which a character next to the seam that the pattern
      lacks rules out. */
  lemma NoOccurrenceJoin(x: string, y: string, pattern: string)
    requires !Contains(x, pattern) && !Contains(y, pattern)
    requires x == [] || y == [] || x[|x| - 1] !in pattern || y[0] !in pattern
    ensures !Contains(x + y, pattern)
  {
    var s, n := x + y, |pattern|;
    forall j | 0 <= j && j + n <= |s|
      ensures !OccursAt(s, pattern, j)
    {
      if j + n <= |x| {
        assert s[j..j + n] == x[j..j + n];
        assert !OccursAt(x, pattern, j);
      } else if j >= |x| {
        assert s[j..j + n] == y[j - |x|..j - |x| + n];
        assert !OccursAt(y, pattern, j - |x|);
      } else if x[|x| - 1] !in pattern {
        assert s[j..j + n][|x| - 1 - j] == x[|x| - 1];
      } else {
        assert s[j..j + n][|x| - j] == y[0];
      }
    }
  }

  /** The first occurrence of `pattern` in `s` at or after index `from`. */
  function IndexOf(s: string, pattern: string, from: nat): (r: Option<nat>)
    requires |pattern| > 0 && from <= |s|
    ensures r.Some? ==> from <= r.value && OccursAt(s, pattern, r.value)
    ensures r.Some? ==> forall j :: from <= j < r.value ==> !OccursAt(s, pattern, j)
    ensures r.None? ==> forall j :: from <= j ==> !OccursAt(s, pattern, j)
    decreases |s| - from
  {
    if from + |pattern| > |s| then None
    else if s[from..from + |pattern|] == pattern then Some(from)
    else IndexOf(s, pattern, from + 1)
  }

  /** For a one-character pattern, the search stops at the first index holding that character. */
  lemma IndexOfChar(s: string, c: char, k: nat)
    requires k < |s| && s[k] == c && forall j :: 0 <= j < k ==> s[j] != c
    ensures IndexOf(s, [c], 0) == Some(k)
  {
    assert OccursAt(s, [c], k);
    forall j | 0 <= j < k ensures !OccursAt(s, [c], j) {
      assert s[j..j + 1][0] == s[j];
    }
  }

  /** For a one-character pattern that does not occur, the search fails. */
  lemma IndexOfAbsentChar(s: string, c: char)
    requires c !in s
    ensures IndexOf(s, [c], 0) == None
  {
    ContainsChar(s, c);
  }

  /** Glues `parts` back together with `separator` between consecutive parts. */
  function Join(parts: seq<string>, separator: string): string {
    if |parts| == 0 then ""
    else if |parts| == 1 then parts[0]
    else parts[0] + separator + Join(parts[1..], separator)
  }

  /** Splitting on a one-character separator cuts at the first index holding it. */
  lemma SplitAtChar(s: string, c: char, k: nat)
    requires k < |s| && s[k] == c && forall j :: 0 <= j < k ==> s[j] != c
    ensures Split(s, [c]) == [s[..k]] + Split(s[k + 1..], [c])
  {
    IndexOfChar(s, c, k);
  }

  /** Without the separator character, a split yields the whole text. */
  lemma SplitWithoutChar(s: string, c: char)
    requires c !in s
    ensures Split(s, [c]) == [s]
  {
    IndexOfAbsentChar(s, c);
  }

  /** The first two parts of a join, and what follows them. */
  lemma JoinFirstTwo(parts: seq<string>, separator: string)
    requires |parts| >= 2
    ensures Join(parts, separator)
            == parts[0] + separator + parts[1]
               + (if |parts| == 2 then "" else separator + Join(parts[2..], separator))
  {
    assert parts[1..][1..] == parts[2..];
  }

  /** The piece before the first separator, followed by the separator minus its
      last character, holds no separator: the cut was made at the leftmost match. */
  lemma FirstPieceIsLeftmost(s: string, separator: string, i: nat)
    requires |separator| > 0 && OccursAt(s, separator, i)
    requires forall j :: 0 <= j < i ==> !OccursAt(s, separator, j)
    ensures !Contains(s[..i], separator)
    ensures !Contains(s[..i] + separator[..|separator| - 1], separator)
  {
    var n := i + |separator| - 1;
    assert s[..i] + separator[..|separator| - 1] == s[..n];
    if Contains(s[..n], separator) {
      var j :| OccursAt(s[..n], separator, j);
      OccursInPrefix(s, n, separator, j);
      assert false;
    }
    if Contains(s[..i], separator) {
      var j :| OccursAt(s[..i], separator, j);
      OccursInPrefix(s, i, separator, j);
      assert false;
    }
  }

  /**
   * `components(separatedBy:)`: the pieces between the non-overlapping
   * occurrences of `separator`, found from left to right. Joining the pieces
   * gives back `s`; `SplitPiecesAreFree` adds that every cut was made at the
   * leftmost remaining match.
   */
  function Split(s: string, separator: string): (parts: seq<string>)
    requires |separator| > 0
    ensures |parts| >= 1
    ensures Join(parts, separator) == s
    decreases |s|
  {
    match IndexOf(s, separator, 0)
    case None => [s]
    case Some(i) =>
      var rest := Split(s[i + |separator|..], separator);
      assert s == s[..i] + separator + s[i + |separator|..] by {
        assert s[i..i + |separator|] == separator;
      }
      [s[..i]] + rest
  }

  /** No piece holds the separator, and no piece but the last is followed by
      an earlier match overlapping the separator: each cut is the leftmost one. */
  lemma {:induction false} SplitPiecesAreFree(s: string, separator: string)
    requires |separator| > 0
    ensures forall i :: 0 <= i < |Split(s, separator)| ==> !Contains(Split(s, separator)[i], separator)
    ensures forall i :: 0 <= i < |Split(s, separator)| - 1 ==>
              !Contains(Split(s, separator)[i] + separator[..|separator| - 1], separator)
    decreases |s|
  {
    match IndexOf(s, separator, 0)
    case None =>
    case Some(i) =>
      FirstPieceIsLeftmost(s, separator, i);
      var rest := s[i + |separator|..];
      SplitPiecesAreFree(rest, separator);
      assert Split(s, separator) == [s[..i]] + Split(rest, separator);
  }

  /** Split on one character, no piece holds that character. */
  lemma SplitOnCharPieces(s: string, c: char)
    ensures forall i :: 0 <= i < |Split(s, [c])| ==> c !in Split(s, [c])[i]
  {
    var parts := Split(s, [c]);
    SplitPiecesAreFree(s, [c]);
    forall i | 0 <= i < |parts| ensures c !in parts[i] {
      ContainsChar(parts[i], c);
    }
  }

  /** `s` splits into a single piece exactly when it holds no separator. */
  lemma SplitIsSingleIff(s: string, separator: string)
    requires |separator| > 0
    ensures |Split(s, separator)| == 1 <==> !Contains(s, separator)
  {
    var parts := Split(s, separator);
    if |parts| > 1 {
      assert s == parts[0] + separator + Join(parts[1..], separator);
      assert OccursAt(s, separator, |parts[0]|);
    }
  }

  /** The first piece of a split is the text before the first occurrence of
      the separator, or all of `s` when there is none. */
  lemma SplitFirstPiece(s: string, separator: string)
    requires |separator| > 0
    ensures HasPrefix(s, Split(s, separator)[0])
    ensures !Contains(s, separator) ==> Split(s, separator)[0] == s
    ensures Contains(s, separator) ==> OccursAt(s, separator, |Split(s, separator)[0]|)
    ensures forall j :: 0 <= j < |Split(s, separator)[0]| ==> !OccursAt(s, separator, j)
  {
    var parts := Split(s, separator);
    SplitIsSingleIff(s, separator);
    if |parts| > 1 {
      var p := parts[0];
      assert s == p + separator + Join(parts[1..], separator);
      assert s[..|p|] == p;
      assert OccursAt(s, separator, |p|);
      var n := |p| + |separator| - 1;
      assert s[..n] == p + separator[..|separator| - 1];
    } else {
      assert s == parts[0];
    }
  }

  /** Splitting on a character undoes joining with it, when no part holds
      that character. */
  lemma {:induction false} SplitJoinChar(parts: seq<string>, c: char)
    requires |parts| >= 1
    requires forall i :: 0 <= i < |parts| ==> c !in parts[i]
    ensures Split(Join(parts, [c]), [c]) == parts
    decreases |parts|
  {
    if |parts| == 1 {
      SplitWithoutChar(parts[0], c);
    } else {
      var s := Join(parts, [c]);
      var rest := Join(parts[1..], [c]);
      var k := |parts[0]|;
      assert s == parts[0] + [c] + rest;
      assert s[k] == c;
      forall j | 0 <= j < k
        ensures s[j] != c
      {
        assert s[j] == parts[0][j];
      }
      SplitAtChar(s, c, k);
      assert s[..k] == parts[0] && s[k + 1..] == rest;
      SplitJoinChar(parts[1..], c);
      assert parts == [parts[0]] + parts[1..];
    }
  }

  /** Drops leading whitespace. */
  function TrimStart(s: string): (r: string)
    ensures |r| <= |s| && r == s[|s| - |r|..]
    ensures forall i {:trigger IsWhitespace(s[i])} :: 0 <= i < |s| - |r| ==> IsWhitespace(s[i])
    ensures r == [] || !IsWhitespace(r[0])
  {
    if s != [] && IsWhitespace(s[0]) then TrimStart(s[1..]) else s
  }

  /** Leading whitespace in front of a non-blank text is dropped entirely. */
  lemma {:induction false} TrimStartAfterBlanks(blanks: string, s: string)
    requires forall i :: 0 <= i < |blanks| ==> IsWhitespace(blanks[i])
    requires s == [] || !IsWhitespace(s[0])
    ensures TrimStart(blanks + s) == s
  {
    if blanks != [] {
      assert (blanks + s)[1..] == blanks[1..] + s;
      TrimStartAfterBlanks(blanks[1..], s);
    }
  }

  /** Leading whitespace makes no difference to what `TrimStart` leaves. */
  lemma {:induction false} TrimStartSkipsBlanks(blanks: string, s: string)
    requires forall i :: 0 <= i < |blanks| ==> IsWhitespace(blanks[i])
    ensures TrimStart(blanks + s) == TrimStart(s)
  {
    if blanks != [] {
      var t, rest := blanks + s, blanks[1..];
      assert IsWhitespace(blanks[0]);
      assert t[1..] == rest + s;
      assert forall i :: 0 <= i < |rest| ==> IsWhitespace(rest[i]);
      TrimStartSkipsBlanks(rest, s);
    } else {
      assert blanks + s == s;
    }
  }

  /** Drops trailing whitespace. */
  function TrimEnd(s: string): (r: string)
    ensures |r| <= |s| && r == s[..|r|]
    ensures forall i {:trigger IsWhitespace(s[i])} :: |r| <= i < |s| ==> IsWhitespace(s[i])
    ensures r == [] || !IsWhitespace(r[|r| - 1])
  {
    if s != [] && IsWhitespace(s[|s| - 1]) then TrimEnd(s[..|s| - 1]) else s
  }

  /** `r` is the slice of `s` starting at `i`, and everything of `s` on
      either side of it is whitespace. */
  ghost predicate CutOutAt(s: string, i: int, r: string)
  {
    0 <= i <= |s| - |r| && r == s[i..i + |r|]
    && (forall k {:trigger IsWhitespace(s[k])} :: 0 <= k < i ==> IsWhitespace(s[k]))
    && (forall k {:trigger IsWhitespace(s[k])} :: i + |r| <= k < |s| ==> IsWhitespace(s[k]))
  }

  /** Cutting whitespace off the end of what is left after cutting it off
      the start leaves a slice with whitespace on both sides. */
  lemma CutOfCut(s: string, i: int, t: string, r: string)
    requires 0 <= i <= |s| && t == s[i..]
    requires forall k {:trigger IsWhitespace(s[k])} :: 0 <= k < i ==> IsWhitespace(s[k])
    requires |r| <= |t| && r == t[..|r|]
    requires forall k {:trigger IsWhitespace(t[k])} :: |r| <= k < |t| ==> IsWhitespace(t[k])
    ensures CutOutAt(s, i, r)
  {
    forall k | i + |r| <= k < |s|
      ensures IsWhitespace(s[k])
    {
      assert s[k] == t[k - i];
    }
  }

  /** What is left after both cuts is empty exactly when the text was blank,
      and otherwise starts and ends with non-whitespace. */
  lemma CutOutEnds(s: string, i: int, t: string, r: string)
    requires CutOutAt(s, i, r) && t == s[i..] && r == t[..|r|]
    requires t == [] || !IsWhitespace(t[0])
    requires r == [] || !IsWhitespace(r[|r| - 1])
    ensures r == [] || (!IsWhitespace(r[0]) && !IsWhitespace(r[|r| - 1]))
    ensures r == [] ==> forall k {:trigger IsWhitespace(s[k])} :: 0 <= k < |s| ==> IsWhitespace(s[k])
  {
    if r != [] {
      assert r[0] == t[0];
    }
  }

  /** `trimmingCharacters(in: .whitespacesAndNewlines)`: the longest slice of
      `s` that neither starts nor ends with whitespace, with only whitespace
      cut off on either side. */
  function Trim(s: string): (r: string)
    ensures |r| <= |s|
    ensures r == [] || (!IsWhitespace(r[0]) && !IsWhitespace(r[|r| - 1]))
    ensures exists i :: CutOutAt(s, i, r)
    ensures r == [] <==> forall i {:trigger IsWhitespace(s[i])} :: 0 <= i < |s| ==> IsWhitespace(s[i])
  {
    TwoCuts(s, TrimStart(s), TrimEnd(TrimStart(s)));
    TrimEnd(TrimStart(s))
  }

  /** The facts `Trim` promises, from those of its two cuts. */
  lemma TwoCuts(s: string, t: string, r: string)
    requires |t| <= |s| && t == s[|s| - |t|..]
    requires forall k {:trigger IsWhitespace(s[k])} :: 0 <= k < |s| - |t| ==> IsWhitespace(s[k])
    requires t == [] || !IsWhitespace(t[0])
    requires |r| <= |t| && r == t[..|r|]
    requires forall k {:trigger IsWhitespace(t[k])} :: |r| <= k < |t| ==> IsWhitespace(t[k])
    requires r == [] || !IsWhitespace(r[|r| - 1])
    ensures CutOutAt(s, |s| - |t|, r)
    ensures r == [] || (!IsWhitespace(r[0]) && !IsWhitespace(r[|r| - 1]))
    ensures r == [] <==> forall k {:trigger IsWhitespace(s[k])} :: 0 <= k < |s| ==> IsWhitespace(s[k])
  {
    CutOfCut(s, |s| - |t|, t, r);
    CutOutEnds(s, |s| - |t|, t, r);
    if t != [] {
      assert t[0] == s[|s| - |t|];
    }
  }

}
