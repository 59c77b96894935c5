/**
 * Python string primitives the save-file viewer relies on, with Python's
 * semantics: `str.replace` and `str.split` scan left to right and take the
 * leftmost non-overlapping occurrences of a non-empty separator,
 * `str.rstrip(c)` removes every trailing `c`, and `s[:-3]` drops the last
 * three characters (or everything, for a shorter string).
 */
module PyStr {

  /** Number of occurrences of character `c` in `s`. */
  function Count(s: string, c: char): nat
  {
    multiset(s)[c]
  }

  /**
   * `s.replace(pat, rep)`: every leftmost non-overlapping `pat` becomes
   * `rep`. A shorter replacement never lengthens the text, a longer one
   * never shortens it.
   */
  function ReplaceAll(s: string, pat: string, rep: string): (r: string)
    requires |pat| > 0
    ensures |rep| <= |pat| ==> |r| <= |s|
    ensures |rep| >= |pat| ==> |r| >= |s|
    decreases |s|
  {
    if |s| < |pat| then s
    else if s[..|pat|] == pat then rep + ReplaceAll(s[|pat|..], pat, rep)
    else [s[0]] + ReplaceAll(s[1..], pat, rep)
  }

  /** `s.split(sep)`: the pieces between leftmost non-overlapping `sep`s; never empty. */
  function SplitOn(s: string, sep: string): (parts: seq<string>)
    requires |sep| > 0
    ensures |parts| >= 1
    decreases |s|
  {
    if |s| < |sep| then [s]
    else if s[..|sep|] == sep then [""] + SplitOn(s[|sep|..], sep)
    else
      var rest := SplitOn(s[1..], sep);
      [[s[0]] + rest[0]] + rest[1..]
  }

  /** `sep.join(parts)`. */
  function Join(parts: seq<string>, sep: string): string
  {
    if |parts| == 0 then ""
    else if |parts| == 1 then parts[0]
    else parts[0] + sep + Join(parts[1..], sep)
  }

  /** `s.rstrip(c)` for a single character `c`. */
  function RStrip(s: string, c: char): (r: string)
    ensures |r| <= |s| && r == s[..|r|]
    ensures forall k :: |r| <= k < |s| ==> s[k] == c
    ensures |r| == 0 || r[|r| - 1] != c
  {
    if |s| > 0 && s[|s| - 1] == c then RStrip(s[..|s| - 1], c) else s
  }

  /** `s[:-3]`. */
  function DropLast3(s: string): (r: string)
    ensures |s| >= 3 ==> |r| == |s| - 3 && s == r + s[|s| - 3..]
    ensures |s| < 3 ==> r == ""
  {
    if |s| >= 3 then s[..|s| - 3] else ""
  }

  // ----- str.replace -----

  /** A replacement whose two sides hold `c` equally often never changes the count of `c`. */
  lemma {:induction false} ReplaceAllKeepsCount(s: string, pat: string, rep: string, c: char)
    requires |pat| > 0
    requires Count(pat, c) == Count(rep, c)
    ensures Count(ReplaceAll(s, pat, rep), c) == Count(s, c)
    decreases |s|
  {
    if |s| < |pat| {
    } else if s[..|pat|] == pat {
      var rest := s[|pat|..];
      assert ReplaceAll(s, pat, rep) == rep + ReplaceAll(rest, pat, rep);
      ReplaceAllKeepsCount(rest, pat, rep, c);
      assert s == pat + rest;
    } else {
      assert ReplaceAll(s, pat, rep) == [s[0]] + ReplaceAll(s[1..], pat, rep);
      ReplaceAllKeepsCount(s[1..], pat, rep, c);
      assert s == [s[0]] + s[1..];
    }
  }

  /** Replacing a string by a rearrangement of itself rearranges the whole text. */
  lemma {:induction false} ReplaceAllPermutes(s: string, pat: string, rep: string)
    requires |pat| > 0
    requires multiset(pat) == multiset(rep)
    ensures multiset(ReplaceAll(s, pat, rep)) == multiset(s)
    ensures |ReplaceAll(s, pat, rep)| == |s|
  {
    forall c ensures multiset(ReplaceAll(s, pat, rep))[c] == multiset(s)[c] {
      ReplaceAllKeepsCount(s, pat, rep, c);
    }
    assert multiset(ReplaceAll(s, pat, rep)) == multiset(s);
    assert |multiset(ReplaceAll(s, pat, rep))| == |ReplaceAll(s, pat, rep)|;
    assert |multiset(s)| == |s|;
  }

  /** A character absent from the text and from the replacement stays absent. */
  lemma {:induction false} ReplaceAllKeepsAbsent(s: string, pat: string, rep: string, c: char)
    requires |pat| > 0
    requires c !in s && c !in rep
    ensures c !in ReplaceAll(s, pat, rep)
    decreases |s|
  {
    if |s| < |pat| {
    } else if s[..|pat|] == pat {
      ReplaceAllKeepsAbsent(s[|pat|..], pat, rep, c);
    } else {
      ReplaceAllKeepsAbsent(s[1..], pat, rep, c);
    }
  }

  /** Replacing every single `c` by text without `c` leaves no `c` at all. */
  lemma {:induction false} ReplaceAllRemovesChar(s: string, c: char, rep: string)
    requires c !in rep
    ensures c !in ReplaceAll(s, [c], rep)
    decreases |s|
  {
    if |s| < 1 {
    } else if s[..1] == [c] {
      ReplaceAllRemovesChar(s[1..], c, rep);
    } else {
      assert s[0] != c by { assert s[..1] == [s[0]]; }
      ReplaceAllRemovesChar(s[1..], c, rep);
    }
  }

  /** Text holding no first character of the pattern is copied through unchanged. */
  lemma {:induction false} ReplaceAllSkip(x: string, y: string, pat: string, rep: string)
    requires |pat| > 0 && pat[0] !in x
    ensures ReplaceAll(x + y, pat, rep) == x + ReplaceAll(y, pat, rep)
    decreases |x|
  {
    if |x| > 0 {
      var s := x + y;
      if |s| >= |pat| {
        assert s[..|pat|][0] == x[0];
      }
      assert s[1..] == x[1..] + y;
      ReplaceAllSkip(x[1..], y, pat, rep);
    } else {
      assert x + y == y;
    }
  }

  /** Text holding no first character of the pattern is left as it is. */
  lemma ReplaceAllNone(s: string, pat: string, rep: string)
    requires |pat| > 0 && pat[0] !in s
    ensures ReplaceAll(s, pat, rep) == s
  {
    ReplaceAllSkip(s, "", pat, rep);
    assert s + "" == s;
  }

  /** An occurrence at the front is replaced and the scan resumes after it. */
  lemma ReplaceAllHit(pat: string, y: string, rep: string)
    requires |pat| > 0
    ensures ReplaceAll(pat + y, pat, rep) == rep + ReplaceAll(y, pat, rep)
  {
    assert (pat + y)[..|pat|] == pat;
    assert (pat + y)[|pat|..] == y;
  }

  /**
   * A character that does not start an occurrence (the text after it
   * differs from the pattern at position `k`, or ends first) is copied,
   * and the scan moves one on.
   */
  lemma ReplaceAllMiss(c: char, y: string, pat: string, rep: string, k: nat)
    requires k < |pat|
    requires k == 0 ==> c != pat[0]
    requires k > 0 ==> k - 1 >= |y| || y[k - 1] != pat[k]
    ensures ReplaceAll([c] + y, pat, rep) == [c] + ReplaceAll(y, pat, rep)
  {
    var s := [c] + y;
    assert s[1..] == y;
    if |s| >= |pat| {
      assert s[..|pat|][k] != pat[k];
    }
  }

  // ----- str.split and str.join -----

  lemma JoinCons(x: string, parts: seq<string>, sep: string)
    requires |parts| >= 1
    ensures Join([x] + parts, sep) == x + sep + Join(parts, sep)
  {
    assert ([x] + parts)[1..] == parts;
  }

  lemma JoinPrepend(c: char, parts: seq<string>, sep: string)
    requires |parts| >= 1
    ensures Join([[c] + parts[0]] + parts[1..], sep) == [c] + Join(parts, sep)
  {
    if |parts| > 1 {
      JoinCons([c] + parts[0], parts[1..], sep);
      JoinCons(parts[0], parts[1..], sep);
      assert [parts[0]] + parts[1..] == parts;
    }
  }

  /** Python's identity `s.replace(pat, rep) == rep.join(s.split(pat))`. */
  lemma {:induction false} ReplaceAllIsSplitJoin(s: string, pat: string, rep: string)
    requires |pat| > 0
    ensures ReplaceAll(s, pat, rep) == Join(SplitOn(s, pat), rep)
    decreases |s|
  {
    if |s| < |pat| {
    } else if s[..|pat|] == pat {
      var rest := s[|pat|..];
      assert ReplaceAll(s, pat, rep) == rep + ReplaceAll(rest, pat, rep);
      assert SplitOn(s, pat) == [""] + SplitOn(rest, pat);
      ReplaceAllIsSplitJoin(rest, pat, rep);
      JoinCons("", SplitOn(rest, pat), rep);
    } else {
      var parts := SplitOn(s[1..], pat);
      assert ReplaceAll(s, pat, rep) == [s[0]] + ReplaceAll(s[1..], pat, rep);
      assert SplitOn(s, pat) == [[s[0]] + parts[0]] + parts[1..];
      ReplaceAllIsSplitJoin(s[1..], pat, rep);
      JoinPrepend(s[0], parts, rep);
    }
  }

  /** Replacing a string by itself changes nothing. */
  lemma {:induction false} ReplaceAllSelf(s: string, pat: string)
    requires |pat| > 0
    ensures ReplaceAll(s, pat, pat) == s
    decreases |s|
  {
    if |s| < |pat| {
    } else if s[..|pat|] == pat {
      ReplaceAllSelf(s[|pat|..], pat);
      assert s == s[..|pat|] + s[|pat|..];
    } else {
      ReplaceAllSelf(s[1..], pat);
      assert s == [s[0]] + s[1..];
    }
  }

  /** Joining the pieces of a split with the same separator gives back the text. */
  lemma SplitJoinRoundTrip(s: string, sep: string)
    requires |sep| > 0
    ensures Join(SplitOn(s, sep), sep) == s
  {
    ReplaceAllIsSplitJoin(s, sep, sep);
    ReplaceAllSelf(s, sep);
  }

  /** Splitting on one character: one more piece than occurrences, none holding it. */
  lemma {:induction false} SplitOnCharPieces(s: string, c: char)
    ensures |SplitOn(s, [c])| == Count(s, c) + 1
    ensures forall k :: 0 <= k < |SplitOn(s, [c])| ==> c !in SplitOn(s, [c])[k]
    decreases |s|
  {
    if |s| < 1 {
    } else {
      assert s == [s[0]] + s[1..];
      assert s[..1] == [s[0]];
      SplitOnCharPieces(s[1..], c);
    }
  }

  /** Splitting on one character distributes over a separator between two texts. */
  lemma {:induction false} SplitOnCharAppend(x: string, c: char, y: string)
    ensures SplitOn(x + [c] + y, [c]) == SplitOn(x, [c]) + SplitOn(y, [c])
    decreases |x|
  {
    var t := x + [c] + y;
    if |x| == 0 {
      assert t == [c] + y && t[..1] == [c] && t[1..] == y;
    } else {
      assert t[..1] == x[..1] == [x[0]];
      assert t[1..] == x[1..] + [c] + y;
      SplitOnCharAppend(x[1..], c, y);
      if x[0] != c {
        var rest := SplitOn(x[1..], [c]);
        assert SplitOn(x, [c]) == [[x[0]] + rest[0]] + rest[1..];
      }
    }
  }

  /** A text without the character is split into itself alone. */
  lemma {:induction false} SplitOnCharAbsent(s: string, c: char)
    requires c !in s
    ensures SplitOn(s, [c]) == [s]
  {
    SplitOnCharPieces(s, c);
    SplitJoinRoundTrip(s, [c]);
  }

  // ----- str.rstrip -----

  /** Trailing separators added to a text are all stripped again. */
  lemma {:induction false} RStripTrailing(s: string, c: char, k: nat)
    ensures RStrip(s + seq(k, _ => c), c) == RStrip(s, c)
    decreases k
  {
    if k > 0 {
      var t := s + seq(k, _ => c);
      assert t[..|t| - 1] == s + seq(k - 1, _ => c);
      RStripTrailing(s, c, k - 1);
    } else {
      assert s + seq(k, _ => c) == s;
    }
  }
}
