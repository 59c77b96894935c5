/**
 * The text rewrite that turns a save file in node format (`NAME`, `{`,
 * `KEY = VALUE` lines, `}`) into JSON text: a fixed chain of
 * `str.replace` calls, a dedent loop that moves `,\n"` behind runs of
 * closing braces, deepest run first, and a final framing of the text in
 * `{"` ... `}`. The depth `d` is a parameter (the program's `-d`
 * option, 16 by default).
 */
module Translator {
  import opened PyStr

  /** `'}' * i` */
  function Braces(i: nat): (r: string)
    ensures |r| == i && forall k :: 0 <= k < i ==> r[k] == '}'
  {
    seq(i, _ => '}')
  }

  /** Line 125: drop tabs, then one blank before and one blank after each newline. */
  function StripLineBlanks(s: string): string
  {
    ReplaceAll(ReplaceAll(ReplaceAll(s, "\t", ""), " \n", "\n"), "\n ", "\n")
  }

  /** Lines 128-130: node names become keys of the brace block that follows them. */
  function NodeNamesToKeys(s: string): string
  {
    ReplaceAll(ReplaceAll(ReplaceAll(s, "}\n", "}"), "\n{", ":{"), "{\n}", "{}\n")
  }

  /** Lines 133-137: `KEY = VALUE` lines become quoted `"KEY":"VALUE"` pairs. */
  function QuoteAssignments(s: string): string
  {
    FixObjectQuotes(QuoteLines(s))
  }

  /** Lines 133-135: assignments and line ends get their quotes. */
  function QuoteLines(s: string): string
  {
    ReplaceAll(ReplaceAll(ReplaceAll(s, " =\n", " = \n"), " = ", "\":\""), "\n", "\",\n\"")
  }

  /** Lines 136-137: the quotes misplaced around `:{` and `:{}` are moved. */
  function FixObjectQuotes(s: string): string
  {
    ReplaceAll(ReplaceAll(s, ":{\",", "\":{"), ":{}\"", "\":{}")
  }

  /** The whole replace chain, lines 125-137. */
  function Rewrite(s: string): string
  {
    QuoteAssignments(NodeNamesToKeys(StripLineBlanks(s)))
  }

  /** One pass of the dedent loop (lines 141-143) for `i` braces. */
  function DedentPass(s: string, i: nat): string
  {
    ReplaceAll(s, ",\n\"" + Braces(i), Braces(i) + ",\n\"")
  }

  /** The passes for `i`, `i - 1`, ..., `1`, in that order. */
  function Dedent(s: string, i: nat): string
    decreases i
  {
    if i == 0 then s else Dedent(DedentPass(s, i), i - 1)
  }

  /** `range(d)` is empty for a negative `d`. */
  function Passes(d: int): nat
  {
    if d < 0 then 0 else d
  }

  /** Line 146. */
  function Frame(s: string): string
  {
    "{\"" + DropLast3(s) + "}"
  }

  /**
   * The text the program hands to the JSON reader: framed in `{"` ... `}`,
   * with no tab left anywhere.
   */
  function Translation(sfs: string, d: int): (json: string)
    ensures |json| >= 3 && json[..2] == "{\"" && json[|json| - 1] == '}'
    ensures '\t' !in json
  {
    DedentKeepsTabsAndBraces(sfs, Passes(d));
    Frame(Dedent(Rewrite(sfs), Passes(d)))
  }

  /**
   * Lines 125-146 as the program runs them: the text is reassigned step
   * by step, then the dedent loop runs `n = 0 .. d - 1` with `i = d - n`.
   */
  method Translate(sfs: string, d: int) returns (json: string)
    ensures json == Translation(sfs, d)
    ensures |json| >= 3 && json[..2] == "{\"" && json[|json| - 1] == '}'
    ensures json[2..|json| - 1] == DropLast3(Dedent(Rewrite(sfs), Passes(d)))
    ensures '\t' !in Dedent(Rewrite(sfs), Passes(d))
    ensures Count(Dedent(Rewrite(sfs), Passes(d)), '{') == Count(sfs, '{')
    ensures Count(Dedent(Rewrite(sfs), Passes(d)), '}') == Count(sfs, '}')
  {
    var s := sfs;
    s := ReplaceAll(ReplaceAll(ReplaceAll(s, "\t", ""), " \n", "\n"), "\n ", "\n");
    assert s == StripLineBlanks(sfs);
    s := ReplaceAll(s, "}\n", "}");
    s := ReplaceAll(s, "\n{", ":{");
    s := ReplaceAll(s, "{\n}", "{}\n");
    assert s == NodeNamesToKeys(StripLineBlanks(sfs));
    s := ReplaceAll(s, " =\n", " = \n");
    s := ReplaceAll(s, " = ", "\":\"");
    s := ReplaceAll(s, "\n", "\",\n\"");
    s := ReplaceAll(s, ":{\",", "\":{");
    s := ReplaceAll(s, ":{}\"", "\":{}");
    assert s == Rewrite(sfs);
    ghost var rewritten := s;
    var passes := Passes(d);
    for n := 0 to passes
      invariant Dedent(s, passes - n) == Dedent(rewritten, passes)
    {
      var i := passes - n;
      var fr := ",\n\"" + Braces(i);
      var to := Braces(i) + ",\n\"";
      s := ReplaceAll(s, fr, to);
    }
    json := "{\"" + DropLast3(s) + "}";
    DedentKeepsTabsAndBraces(sfs, passes);
  }

  /** What the dedent loop hands to the framing step still has the chain's properties. */
  lemma DedentKeepsTabsAndBraces(sfs: string, i: nat)
    ensures '\t' !in Dedent(Rewrite(sfs), i)
    ensures Count(Dedent(Rewrite(sfs), i), '{') == Count(sfs, '{')
    ensures Count(Dedent(Rewrite(sfs), i), '}') == Count(sfs, '}')
  {
    var s := Rewrite(sfs);
    RewriteRemovesTabs(sfs);
    RewriteKeepsBraces(sfs);
    DedentPermutes(s, i);
    assert multiset(Dedent(s, i))['\t'] == multiset(s)['\t'];
  }

  // ----- properties of the steps -----

  /** Line 125 leaves no tab. */
  lemma StripLineBlanksRemovesTabs(s: string)
    ensures '\t' !in StripLineBlanks(s)
  {
    var s0 := ReplaceAll(s, "\t", "");
    ReplaceAllRemovesChar(s, '\t', "");
    var s1 := ReplaceAll(s0, " \n", "\n");
    ReplaceAllKeepsAbsent(s0, " \n", "\n", '\t');
    ReplaceAllKeepsAbsent(s1, "\n ", "\n", '\t');
  }

  /** Lines 128-130 bring no character `c` that the text does not already hold. */
  lemma NodeNamesToKeysKeepsAbsent(s: string, c: char)
    requires c !in s && c !in ":{}\n"
    ensures c !in NodeNamesToKeys(s)
  {
    var t0 := ReplaceAll(s, "}\n", "}");
    ReplaceAllKeepsAbsent(s, "}\n", "}", c);
    var t1 := ReplaceAll(t0, "\n{", ":{");
    ReplaceAllKeepsAbsent(t0, "\n{", ":{", c);
    ReplaceAllKeepsAbsent(t1, "{\n}", "{}\n", c);
  }

  /** Lines 133-137 bring no character `c` that the text does not already hold. */
  lemma QuoteAssignmentsKeepsAbsent(s: string, c: char)
    requires c !in s && c !in " =\n\":,{}"
    ensures c !in QuoteAssignments(s)
  {
    var u0 := ReplaceAll(s, " =\n", " = \n");
    ReplaceAllKeepsAbsent(s, " =\n", " = \n", c);
    var u1 := ReplaceAll(u0, " = ", "\":\"");
    ReplaceAllKeepsAbsent(u0, " = ", "\":\"", c);
    var u2 := ReplaceAll(u1, "\n", "\",\n\"");
    ReplaceAllKeepsAbsent(u1, "\n", "\",\n\"", c);
    var u3 := ReplaceAll(u2, ":{\",", "\":{");
    ReplaceAllKeepsAbsent(u2, ":{\",", "\":{", c);
    ReplaceAllKeepsAbsent(u3, ":{}\"", "\":{}", c);
  }

  /** After line 125 no tab is left, and no later step of the chain brings one back. */
  lemma RewriteRemovesTabs(s: string)
    ensures '\t' !in Rewrite(s)
  {
    StripLineBlanksRemovesTabs(s);
    NodeNamesToKeysKeepsAbsent(StripLineBlanks(s), '\t');
    QuoteAssignmentsKeepsAbsent(NodeNamesToKeys(StripLineBlanks(s)), '\t');
  }

  /** One replacement whose two sides hold equally many of each brace. */
  lemma ReplaceAllKeepsBraces(s: string, pat: string, rep: string)
    requires |pat| > 0
    requires Count(pat, '{') == Count(rep, '{') && Count(pat, '}') == Count(rep, '}')
    ensures Count(ReplaceAll(s, pat, rep), '{') == Count(s, '{')
    ensures Count(ReplaceAll(s, pat, rep), '}') == Count(s, '}')
  {
    ReplaceAllKeepsCount(s, pat, rep, '{');
    ReplaceAllKeepsCount(s, pat, rep, '}');
  }

  /** Line 125 keeps the number of `{` and of `}`. */
  lemma StripLineBlanksKeepsBraces(s: string)
    ensures Count(StripLineBlanks(s), '{') == Count(s, '{')
    ensures Count(StripLineBlanks(s), '}') == Count(s, '}')
  {
    var s0 := ReplaceAll(s, "\t", "");
    ReplaceAllKeepsBraces(s, "\t", "");
    var s1 := ReplaceAll(s0, " \n", "\n");
    ReplaceAllKeepsBraces(s0, " \n", "\n");
    ReplaceAllKeepsBraces(s1, "\n ", "\n");
  }

  /** Lines 128-130 keep the number of `{` and of `}`. */
  lemma NodeNamesToKeysKeepsBraces(s: string)
    ensures Count(NodeNamesToKeys(s), '{') == Count(s, '{')
    ensures Count(NodeNamesToKeys(s), '}') == Count(s, '}')
  {
    var t0 := ReplaceAll(s, "}\n", "}");
    ReplaceAllKeepsBraces(s, "}\n", "}");
    var t1 := ReplaceAll(t0, "\n{", ":{");
    ReplaceAllKeepsBraces(t0, "\n{", ":{");
    ReplaceAllKeepsBraces(t1, "{\n}", "{}\n");
  }

  /** Lines 133-135 keep the number of `{` and of `}`. */
  lemma QuoteLinesKeepsBraces(s: string)
    ensures Count(QuoteLines(s), '{') == Count(s, '{')
    ensures Count(QuoteLines(s), '}') == Count(s, '}')
  {
    var u0 := ReplaceAll(s, " =\n", " = \n");
    ReplaceAllKeepsBraces(s, " =\n", " = \n");
    var u1 := ReplaceAll(u0, " = ", "\":\"");
    ReplaceAllKeepsBraces(u0, " = ", "\":\"");
    ReplaceAllKeepsBraces(u1, "\n", "\",\n\"");
  }

  /** Lines 136-137 keep the number of `{` and of `}`. */
  lemma FixObjectQuotesKeepsBraces(s: string)
    ensures Count(FixObjectQuotes(s), '{') == Count(s, '{')
    ensures Count(FixObjectQuotes(s), '}') == Count(s, '}')
  {
    var u3 := ReplaceAll(s, ":{\",", "\":{");
    ReplaceAllKeepsBraces(s, ":{\",", "\":{");
    ReplaceAllKeepsBraces(u3, ":{}\"", "\":{}");
  }

  /** Lines 133-137 keep the number of `{` and of `}`. */
  lemma QuoteAssignmentsKeepsBraces(s: string)
    ensures Count(QuoteAssignments(s), '{') == Count(s, '{')
    ensures Count(QuoteAssignments(s), '}') == Count(s, '}')
  {
    QuoteLinesKeepsBraces(s);
    FixObjectQuotesKeepsBraces(QuoteLines(s));
  }

  /** The replace chain keeps the number of `{` and of `}`. */
  lemma RewriteKeepsBraces(s: string)
    ensures Count(Rewrite(s), '{') == Count(s, '{')
    ensures Count(Rewrite(s), '}') == Count(s, '}')
  {
    var s2 := StripLineBlanks(s);
    var t2 := NodeNamesToKeys(s2);
    StripLineBlanksKeepsBraces(s);
    NodeNamesToKeysKeepsBraces(s2);
    QuoteAssignmentsKeepsBraces(t2);
  }

  /** A dedent pass swaps `,\n"` with a brace run: a rearrangement of the text. */
  lemma DedentPassPermutes(s: string, i: nat)
    ensures multiset(DedentPass(s, i)) == multiset(s)
    ensures |DedentPass(s, i)| == |s|
  {
    var fr := ",\n\"" + Braces(i);
    var to := Braces(i) + ",\n\"";
    assert multiset(fr) == multiset(to);
    ReplaceAllPermutes(s, fr, to);
  }

  /** All passes together only rearrange the text. */
  lemma {:induction false} DedentPermutes(s: string, i: nat)
    ensures multiset(Dedent(s, i)) == multiset(s)
    ensures |Dedent(s, i)| == |s|
    decreases i
  {
    if i > 0 {
      DedentPassPermutes(s, i);
      DedentPermutes(DedentPass(s, i), i - 1);
    }
  }
}
