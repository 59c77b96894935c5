/**
 * `treepath_split`: a `/`-separated reference such as `VESSEL/0/ORBIT`
 * becomes a lookup path below a default branch. Trailing slashes are
 * dropped; a last segment `ALL` asks for the branch itself; otherwise
 * every segment that `int()` accepts becomes an integer index.
 */
module TreePath {
  import opened PyStr
  import opened JsonTree

  // ----- int() on a segment -----

  predicate IsDigit(c: char)
  {
    '0' <= c <= '9'
  }

  predicate AllDigits(s: string)
  {
    |s| > 0 && forall i :: 0 <= i < |s| ==> IsDigit(s[i])
  }

  /** The value of a decimal numeral. */
  function DigitsValue(s: string): (n: nat)
    requires AllDigits(s)
    decreases |s|
  {
    if |s| == 1 then (s[0] - '0') as nat
    else DigitsValue(s[..|s| - 1]) * 10 + (s[|s| - 1] - '0') as nat
  }

  /**
   * `int(s)`: an optional sign followed by decimal digits, or `None` for a
   * `ValueError`. Whatever is accepted has a digit after every first
   * character, and only a leading `-` gives a negative number.
   */
  function ParseInt(s: string): (r: Option<int>)
    ensures r.Some? ==> |s| > 0 && forall i :: 1 <= i < |s| ==> IsDigit(s[i])
    ensures r.Some? && !IsDigit(s[0]) ==> |s| > 1
    ensures r.Some? && r.value < 0 ==> s[0] == '-'
  {
    if |s| > 0 && (s[0] == '-' || s[0] == '+') then
      if AllDigits(s[1..]) then
        Some(if s[0] == '-' then -(DigitsValue(s[1..]) as int) else DigitsValue(s[1..]))
      else None
    else if AllDigits(s) then Some(DigitsValue(s))
    else None
  }

  /** The decimal numeral of a natural number. */
  function NatToString(n: nat): (s: string)
    ensures AllDigits(s)
  {
    if n < 10 then ['0' + n as char]
    else NatToString(n / 10) + ['0' + (n % 10) as char]
  }

  /** `str(n)`. */
  function IntToString(n: int): string
  {
    if n < 0 then "-" + NatToString(-n) else NatToString(n)
  }

  lemma {:induction false} NatToStringValue(n: nat)
    ensures DigitsValue(NatToString(n)) == n
  {
    if n >= 10 {
      NatToStringValue(n / 10);
      var s := NatToString(n);
      assert s[..|s| - 1] == NatToString(n / 10);
    }
  }

  /** A numeral, with or without a leading `-`, reads as its value. */
  lemma ParseNumeral(digits: string)
    requires AllDigits(digits)
    ensures ParseInt(digits) == Some(DigitsValue(digits) as int)
    ensures ParseInt("-" + digits) == Some(-(DigitsValue(digits) as int))
  {
    assert digits[0] != '-' && digits[0] != '+';
    assert ("-" + digits)[1..] == digits;
  }

  /** `int(str(n)) == n`. */
  lemma ParseIntRoundTrip(n: int)
    ensures ParseInt(IntToString(n)) == Some(n)
  {
    var digits := NatToString(if n < 0 then -n else n);
    NatToStringValue(if n < 0 then -n else n);
    ParseNumeral(digits);
  }

  // ----- treepath_split -----

  /** `reference.rstrip('/').split('/')`. */
  function Segments(reference: string): (segs: seq<string>)
    ensures |segs| >= 1
  {
    SplitOn(RStrip(reference, '/'), "/")
  }

  /** The path element a segment becomes: an index if `int()` accepts it, else the text. */
  function StepOf(seg: string): Step
  {
    match ParseInt(seg)
    case Some(n) => Index(n)
    case None => Key(seg)
  }

  /** The list `treepath_split(reference, branch)` returns: it always starts with the branch. */
  function PathSteps(reference: string, branch: seq<Step>): (r: seq<Step>)
    ensures |branch| <= |r| && r[..|branch|] == branch
  {
    var segs := Segments(reference);
    if segs[|segs| - 1] == "ALL" then branch
    else branch + seq(|segs|, i requires 0 <= i < |segs| => StepOf(segs[i]))
  }

  /**
   * The segments are turned into path steps one at a time, in place, as
   * the `for count, step in enumerate(path)` loop does.
   */
  method TreepathSplit(reference: string, branch: seq<Step>) returns (r: seq<Step>)
    ensures r == PathSteps(reference, branch)
    ensures Segments(reference)[|Segments(reference)| - 1] == "ALL" ==> r == branch
    ensures Segments(reference)[|Segments(reference)| - 1] != "ALL" ==>
      && |r| == |branch| + |Segments(reference)|
      && r[..|branch|] == branch
      && forall i :: 0 <= i < |Segments(reference)| ==>
           r[|branch| + i] == StepOf(Segments(reference)[i])
  {
    var segs := SplitOn(RStrip(reference, '/'), "/");
    if segs[|segs| - 1] == "ALL" {
      return branch;
    }
    var path := seq(|segs|, i requires 0 <= i < |segs| => Key(segs[i]));
    for count := 0 to |path|
      invariant |path| == |segs|
      invariant forall i :: 0 <= i < count ==> path[i] == StepOf(segs[i])
      invariant forall i :: count <= i < |path| ==> path[i] == Key(segs[i])
    {
      var n := ParseInt(segs[count]);
      if n.Some? {
        path := path[count := Index(n.value)];
      }
    }
    r := branch + path;
  }

  // ----- what the result means -----

  /** The numeral of any integer, negative ones included, becomes that integer as an index. */
  lemma StepOfNumeral(n: int)
    ensures StepOf(IntToString(n)) == Index(n)
  {
    ParseIntRoundTrip(n);
  }

  /**
   * A segment with a character that is neither a digit nor a leading sign
   * (`ORBIT`, `0x1F`, `1.5`, `-`) stays the same string.
   */
  lemma StepOfWord(seg: string, i: nat)
    requires i < |seg| && !IsDigit(seg[i])
    requires i == 0 ==> (seg[0] != '-' && seg[0] != '+') || |seg| == 1
    ensures StepOf(seg) == Key(seg)
  {
  }

  /** A text without separators that is not `ALL` is one segment, kept or made an index. */
  lemma SingleSegment(seg: string, branch: seq<Step>)
    requires '/' !in seg && seg != "ALL"
    ensures PathSteps(seg, branch) == branch + [StepOf(seg)]
  {
    assert RStrip(seg, '/') == seg;
    SplitOnCharAbsent(seg, '/');
  }

  /** Whatever precedes it, a last segment `ALL` (with any trailing slashes) gives the branch. */
  lemma AllGivesBranch(prefix: string, slashes: nat, branch: seq<Step>)
    ensures PathSteps(prefix + "/ALL" + seq(slashes, _ => '/'), branch) == branch
    ensures PathSteps("ALL" + seq(slashes, _ => '/'), branch) == branch
  {
    RStripTrailing(prefix + "/ALL", '/', slashes);
    assert RStrip(prefix + "/ALL", '/') == prefix + "/ALL";
    assert prefix + "/ALL" == prefix + ['/'] + "ALL";
    SplitOnCharAppend(prefix, '/', "ALL");
    SplitOnCharAbsent("ALL", '/');
    RStripTrailing("ALL", '/', slashes);
    assert RStrip("ALL", '/') == "ALL";
  }

  /**
   * Otherwise the steps after the branch are one per segment, and the
   * segments are the stripped reference cut at every separator: joined
   * with `/` they give it back, and none of them holds a `/`.
   */
  lemma SegmentsSpec(reference: string)
    ensures Join(Segments(reference), "/") == RStrip(reference, '/')
    ensures |Segments(reference)| == Count(RStrip(reference, '/'), '/') + 1
    ensures forall i :: 0 <= i < |Segments(reference)| ==> '/' !in Segments(reference)[i]
  {
    SplitJoinRoundTrip(RStrip(reference, '/'), "/");
    SplitOnCharPieces(RStrip(reference, '/'), '/');
  }

  /** Two segments, the last not `ALL`, give two steps after the branch. */
  lemma TwoSegments(a: string, b: string, branch: seq<Step>)
    requires '/' !in a && |b| > 0 && '/' !in b && b != "ALL"
    ensures PathSteps(a + "/" + b, branch) == branch + [StepOf(a), StepOf(b)]
  {
    assert RStrip(a + "/" + b, '/') == a + "/" + b;
    assert a + "/" + b == a + ['/'] + b;
    SplitOnCharAppend(a, '/', b);
    SplitOnCharAbsent(a, '/');
    SplitOnCharAbsent(b, '/');
  }
}
