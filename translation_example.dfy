/**
 * The smallest save file: one node `NAME` holding one assignment
 * `KEY = VALUE`, each a plain token, the value possibly empty. Every
 * replacement of the rewrite is followed on this shape, for any such
 * tokens and any depth.
 */
module TranslationExample {
  import opened PyStr
  import opened Translator

  /** A token, possibly empty, with no blank, tab, newline or JSON punctuation. */
  predicate Bare(t: string)
  {
    forall i :: 0 <= i < |t| ==> t[i] !in " \t\n{}=:\","
  }

  /** A non-empty such token. */
  predicate Plain(t: string)
  {
    |t| > 0 && Bare(t)
  }

  /** The node `NAME { KEY = VALUE }` as the game writes it, one item per line. */
  function OneNode(n: string, k: string, v: string): string
  {
    n + "\n{\n" + k + " = " + v + "\n}\n"
  }

  /** The stages the node passes through, in order. */
  function Closed(n: string, k: string, v: string): string
  {
    n + "\n{\n" + k + " = " + v + "\n}"
  }

  function Keyed(n: string, k: string, v: string): string
  {
    n + ":{\n" + k + " = " + v + "\n}"
  }

  function Colons(n: string, k: string, v: string): string
  {
    n + ":{\n" + k + "\":\"" + v + "\n}"
  }

  function Lined(n: string, k: string, v: string): string
  {
    n + ":{\",\n\"" + k + "\":\"" + v + "\",\n\"}"
  }

  function Quoted(n: string, k: string, v: string): string
  {
    n + "\":{\n\"" + k + "\":\"" + v + "\",\n\"}"
  }

  lemma BareLacks(t: string, c: char)
    requires Bare(t) && c in " \t\n{}=:\","
    ensures c !in t
  {
  }

  // ----- line 125 -----

  lemma Step1NoTabs(n: string, k: string, v: string)
    requires Plain(n) && Plain(k) && Bare(v)
    ensures ReplaceAll(OneNode(n, k, v), "\t", "") == OneNode(n, k, v)
  {
    ReplaceAllNone(OneNode(n, k, v), "\t", "");
  }

  lemma Step2Tail(tail: string)
    requires ' ' !in tail && |tail| > 0 && tail[0] != '\n'
    ensures ReplaceAll([' '] + ("=" + ([' '] + tail)), " \n", "\n") == [' '] + ("=" + ([' '] + tail))
  {
    ReplaceAllNone(tail, " \n", "\n");
    ReplaceAllMiss(' ', tail, " \n", "\n", 1);
    ReplaceAllSkip("=", [' '] + tail, " \n", "\n");
    ReplaceAllMiss(' ', "=" + ([' '] + tail), " \n", "\n", 1);
  }

  lemma Step2Split(n: string, k: string, v: string)
    ensures OneNode(n, k, v) == (n + "\n{\n" + k) + ([' '] + ("=" + ([' '] + (v + "\n}\n"))))
  {
  }

  lemma Step2NoBlankBeforeNewline(n: string, k: string, v: string)
    requires Plain(n) && Plain(k) && Plain(v)
    ensures ReplaceAll(OneNode(n, k, v), " \n", "\n") == OneNode(n, k, v)
  {
    var tail := v + "\n}\n";
    Step2Split(n, k, v);
    Step2Tail(tail);
    ReplaceAllSkip(n + "\n{\n" + k, [' '] + ("=" + ([' '] + tail)), " \n", "\n");
  }

  /** The part of the node after its name, from the first newline on. */
  function Body3(k: string, v: string): string
  {
    ['\n'] + (k + " = " + v + (['\n'] + ("}" + ['\n'])))
  }

  lemma Step3Tail(k: string, v: string)
    requires Plain(k) && Plain(v)
    ensures ReplaceAll(Body3(k, v), "\n ", "\n") == Body3(k, v)
  {
    var t3 := "}" + ['\n'];
    ReplaceAllMiss('\n', [], "\n ", "\n", 1);
    assert ['\n'] + [] == ['\n'];
    ReplaceAllSkip("}", ['\n'], "\n ", "\n");
    ReplaceAllMiss('\n', t3, "\n ", "\n", 1);
    var t1 := k + " = " + v + (['\n'] + t3);
    ReplaceAllSkip(k + " = " + v, ['\n'] + t3, "\n ", "\n");
    ReplaceAllMiss('\n', t1, "\n ", "\n", 1);
  }

  lemma Step3Split(n: string, k: string, v: string)
    ensures OneNode(n, k, v) == n + (['\n'] + ("{" + Body3(k, v)))
  {
  }

  lemma Step3Head(k: string, v: string)
    requires Plain(k) && Plain(v)
    ensures ReplaceAll(['\n'] + ("{" + Body3(k, v)), "\n ", "\n") == ['\n'] + ("{" + Body3(k, v))
  {
    Step3Tail(k, v);
    ReplaceAllSkip("{", Body3(k, v), "\n ", "\n");
    ReplaceAllMiss('\n', "{" + Body3(k, v), "\n ", "\n", 1);
  }

  lemma Step3NoBlankAfterNewline(n: string, k: string, v: string)
    requires Plain(n) && Plain(k) && Plain(v)
    ensures ReplaceAll(OneNode(n, k, v), "\n ", "\n") == OneNode(n, k, v)
  {
    Step3Split(n, k, v);
    Step3Head(k, v);
    BareLacks(n, '\n');
    ReplaceAllSkip(n, ['\n'] + ("{" + Body3(k, v)), "\n ", "\n");
  }

  lemma StripLineBlanksOneNode(n: string, k: string, v: string)
    requires Plain(n) && Plain(k) && Plain(v)
    ensures StripLineBlanks(OneNode(n, k, v)) == OneNode(n, k, v)
  {
    Step1NoTabs(n, k, v);
    Step2NoBlankBeforeNewline(n, k, v);
    Step3NoBlankAfterNewline(n, k, v);
  }

  // ----- lines 128-130 -----

  lemma Step4Split(n: string, k: string, v: string)
    ensures OneNode(n, k, v) == (n + "\n{\n" + k + " = " + v + "\n") + ("}\n" + "")
    ensures Closed(n, k, v) == (n + "\n{\n" + k + " = " + v + "\n") + "}"
  {
  }

  lemma Step4ClosingBrace(n: string, k: string, v: string)
    requires Plain(n) && Plain(k) && Plain(v)
    ensures ReplaceAll(OneNode(n, k, v), "}\n", "}") == Closed(n, k, v)
  {
    Step4Split(n, k, v);
    ReplaceAllHit("}\n", "", "}");
    ReplaceAllSkip(n + "\n{\n" + k + " = " + v + "\n", "}\n" + "", "}\n", "}");
  }

  /** What follows the opening brace of the node. */
  function Body5(k: string, v: string): string
  {
    ['\n'] + (k + " = " + v + (['\n'] + "}"))
  }

  lemma Step5Tail(k: string, v: string)
    requires Plain(k) && Plain(v)
    ensures ReplaceAll(Body5(k, v), "\n{", ":{") == Body5(k, v)
  {
    ReplaceAllNone("}", "\n{", ":{");
    ReplaceAllMiss('\n', "}", "\n{", ":{", 1);
    ReplaceAllSkip(k + " = " + v, ['\n'] + "}", "\n{", ":{");
    ReplaceAllMiss('\n', k + " = " + v + (['\n'] + "}"), "\n{", ":{", 1);
  }

  lemma Step5Split(n: string, k: string, v: string)
    ensures Closed(n, k, v) == n + ("\n{" + Body5(k, v))
    ensures Keyed(n, k, v) == n + (":{" + Body5(k, v))
  {
  }

  lemma Step5OpeningBrace(n: string, k: string, v: string)
    requires Plain(n) && Plain(k) && Plain(v)
    ensures ReplaceAll(Closed(n, k, v), "\n{", ":{") == Keyed(n, k, v)
  {
    Step5Split(n, k, v);
    Step5Tail(k, v);
    ReplaceAllHit("\n{", Body5(k, v), ":{");
    BareLacks(n, '\n');
    ReplaceAllSkip(n, "\n{" + Body5(k, v), "\n{", ":{");
  }

  lemma Step6Split(n: string, k: string, v: string)
    ensures Keyed(n, k, v) == (n + ":") + (['{'] + Body5(k, v))
  {
  }

  lemma Step6EmptyNode(n: string, k: string, v: string)
    requires Plain(n) && Plain(k) && Plain(v)
    ensures ReplaceAll(Keyed(n, k, v), "{\n}", "{}\n") == Keyed(n, k, v)
  {
    Step6Split(n, k, v);
    ReplaceAllNone(Body5(k, v), "{\n}", "{}\n");
    ReplaceAllMiss('{', Body5(k, v), "{\n}", "{}\n", 2);
    BareLacks(n, '{');
    ReplaceAllSkip(n + ":", ['{'] + Body5(k, v), "{\n}", "{}\n");
  }

  lemma NodeNamesToKeysOneNode(n: string, k: string, v: string)
    requires Plain(n) && Plain(k) && Plain(v)
    ensures NodeNamesToKeys(OneNode(n, k, v)) == Keyed(n, k, v)
  {
    Step4ClosingBrace(n, k, v);
    Step5OpeningBrace(n, k, v);
    Step6EmptyNode(n, k, v);
  }

  // ----- lines 133-137 -----

  /** The assignment from its blank on: ` = VALUE\n}`. */
  function Body7(v: string): string
  {
    [' '] + ("=" + ([' '] + (v + "\n}")))
  }

  lemma Step7Tail(v: string)
    requires Bare(v)
    ensures ReplaceAll(Body7(v), " =\n", " = \n") == Body7(v)
  {
    var tail := v + "\n}";
    ReplaceAllNone(tail, " =\n", " = \n");
    ReplaceAllMiss(' ', tail, " =\n", " = \n", 1);
    ReplaceAllSkip("=", [' '] + tail, " =\n", " = \n");
    ReplaceAllMiss(' ', "=" + ([' '] + tail), " =\n", " = \n", 2);
  }

  lemma Step7Split(n: string, k: string, v: string)
    ensures Keyed(n, k, v) == (n + ":{\n" + k) + Body7(v)
  {
  }

  lemma Step7EmptyValue(n: string, k: string, v: string)
    requires Plain(n) && Plain(k) && Bare(v)
    ensures ReplaceAll(Keyed(n, k, v), " =\n", " = \n") == Keyed(n, k, v)
  {
    Step7Split(n, k, v);
    Step7Tail(v);
    BareLacks(n, ' ');
    BareLacks(k, ' ');
    ReplaceAllSkip(n + ":{\n" + k, Body7(v), " =\n", " = \n");
  }

  lemma Step8Split(n: string, k: string, v: string)
    ensures Keyed(n, k, v) == (n + ":{\n" + k) + (" = " + (v + "\n}"))
    ensures Colons(n, k, v) == (n + ":{\n" + k) + ("\":\"" + (v + "\n}"))
  {
  }

  lemma Step8Assignment(n: string, k: string, v: string)
    requires Plain(n) && Plain(k) && Bare(v)
    ensures ReplaceAll(Keyed(n, k, v), " = ", "\":\"") == Colons(n, k, v)
  {
    Step8Split(n, k, v);
    ReplaceAllNone(v + "\n}", " = ", "\":\"");
    ReplaceAllHit(" = ", v + "\n}", "\":\"");
    BareLacks(n, ' ');
    BareLacks(k, ' ');
    ReplaceAllSkip(n + ":{\n" + k, " = " + (v + "\n}"), " = ", "\":\"");
  }

  /** The single line of the node's body, between its two line breaks. */
  function Line9(k: string, v: string): string
  {
    k + "\":\"" + v
  }

  lemma Step9Tail(k: string, v: string)
    requires Plain(k) && Bare(v)
    ensures ReplaceAll(Line9(k, v) + ("\n" + "}"), "\n", "\",\n\"") == Line9(k, v) + ("\",\n\"" + "}")
  {
    ReplaceAllNone("}", "\n", "\",\n\"");
    ReplaceAllHit("\n", "}", "\",\n\"");
    BareLacks(k, '\n');
    BareLacks(v, '\n');
    ReplaceAllSkip(Line9(k, v), "\n" + "}", "\n", "\",\n\"");
  }

  lemma Step9Split(n: string, k: string, v: string)
    ensures Colons(n, k, v) == (n + ":{") + ("\n" + (Line9(k, v) + ("\n" + "}")))
    ensures Lined(n, k, v) == (n + ":{") + ("\",\n\"" + (Line9(k, v) + ("\",\n\"" + "}")))
  {
  }

  lemma Step9LineEnds(n: string, k: string, v: string)
    requires Plain(n) && Plain(k) && Bare(v)
    ensures ReplaceAll(Colons(n, k, v), "\n", "\",\n\"") == Lined(n, k, v)
  {
    Step9Split(n, k, v);
    Step9Tail(k, v);
    ReplaceAllHit("\n", Line9(k, v) + ("\n" + "}"), "\",\n\"");
    BareLacks(n, '\n');
    ReplaceAllSkip(n + ":{", "\n" + (Line9(k, v) + ("\n" + "}")), "\n", "\",\n\"");
  }

  /** The node's body once its line is quoted, from the newline after the brace on. */
  function Body10(k: string, v: string): string
  {
    "\n\"" + k + "\"" + ([':'] + ("\"" + v + "\",\n\"}"))
  }

  lemma Step10Tail(k: string, v: string)
    requires Plain(k) && Bare(v)
    ensures ReplaceAll(Body10(k, v), ":{\",", "\":{") == Body10(k, v)
  {
    var tail := "\"" + v + "\",\n\"}";
    BareLacks(v, ':');
    ReplaceAllNone(tail, ":{\",", "\":{");
    ReplaceAllMiss(':', tail, ":{\",", "\":{", 1);
    BareLacks(k, ':');
    ReplaceAllSkip("\n\"" + k + "\"", [':'] + tail, ":{\",", "\":{");
  }

  lemma Step10Split(n: string, k: string, v: string)
    ensures Lined(n, k, v) == n + (":{\"," + Body10(k, v))
    ensures Quoted(n, k, v) == n + ("\":{" + Body10(k, v))
  {
  }

  lemma Step10ObjectQuotes(n: string, k: string, v: string)
    requires Plain(n) && Plain(k) && Bare(v)
    ensures ReplaceAll(Lined(n, k, v), ":{\",", "\":{") == Quoted(n, k, v)
  {
    Step10Split(n, k, v);
    Step10Tail(k, v);
    ReplaceAllHit(":{\",", Body10(k, v), "\":{");
    BareLacks(n, ':');
    ReplaceAllSkip(n, ":{\"," + Body10(k, v), ":{\",", "\":{");
  }

  lemma Step11Tail(k: string, v: string)
    requires Plain(k) && Bare(v)
    ensures ReplaceAll(['{'] + Body10(k, v), ":{}\"", "\":{}") == ['{'] + Body10(k, v)
  {
    var tail := "\"" + v + "\",\n\"}";
    BareLacks(v, ':');
    ReplaceAllNone(tail, ":{}\"", "\":{}");
    ReplaceAllMiss(':', tail, ":{}\"", "\":{}", 1);
    BareLacks(k, ':');
    ReplaceAllSkip("{\n\"" + k + "\"", [':'] + tail, ":{}\"", "\":{}");
    Step11TailSplit(k, v);
  }

  lemma Step11TailSplit(k: string, v: string)
    ensures ['{'] + Body10(k, v) == ("{\n\"" + k + "\"") + ([':'] + ("\"" + v + "\",\n\"}"))
  {
  }

  lemma Step11Split(n: string, k: string, v: string)
    ensures Quoted(n, k, v) == (n + "\"") + ([':'] + (['{'] + Body10(k, v)))
  {
  }

  lemma Step11EmptyObjectQuotes(n: string, k: string, v: string)
    requires Plain(n) && Plain(k) && Bare(v)
    ensures ReplaceAll(Quoted(n, k, v), ":{}\"", "\":{}") == Quoted(n, k, v)
  {
    Step11Split(n, k, v);
    Step11Tail(k, v);
    ReplaceAllMiss(':', ['{'] + Body10(k, v), ":{}\"", "\":{}", 2);
    BareLacks(n, ':');
    ReplaceAllSkip(n + "\"", [':'] + (['{'] + Body10(k, v)), ":{}\"", "\":{}");
  }

  lemma QuoteAssignmentsOneNode(n: string, k: string, v: string)
    requires Plain(n) && Plain(k) && Bare(v)
    ensures QuoteAssignments(Keyed(n, k, v)) == Quoted(n, k, v)
  {
    Step7EmptyValue(n, k, v);
    Step8Assignment(n, k, v);
    Step9LineEnds(n, k, v);
    Step10ObjectQuotes(n, k, v);
    Step11EmptyObjectQuotes(n, k, v);
  }

  /**
   * The replace chain turns the node into `NAME":{\n"KEY":"VALUE",\n"}`;
   * an empty value takes the route through `KEY =\n` and comes out as `""`.
   */
  lemma RewriteOneNode(n: string, k: string, v: string)
    requires Plain(n) && Plain(k) && Bare(v)
    ensures Rewrite(OneNode(n, k, v)) == Quoted(n, k, v)
  {
    if |v| > 0 {
      StripLineBlanksOneNode(n, k, v);
      NodeNamesToKeysOneNode(n, k, v);
      QuoteAssignmentsOneNode(n, k, v);
    } else {
      assert v == "";
      StripLineBlanksEmptyValue(n, k);
      StripLineBlanksBlank(n, k);
      RewriteBlank(n, k);
    }
  }

  // ----- an empty value -----

  /** The node with an empty value as line 125 leaves it: `KEY =` with nothing after the sign. */
  function Blank(n: string, k: string): string
  {
    n + "\n{\n" + k + " =\n}\n"
  }

  function BlankClosed(n: string, k: string): string
  {
    n + "\n{\n" + k + " =\n}"
  }

  function BlankKeyed(n: string, k: string): string
  {
    n + ":{\n" + k + " =\n}"
  }

  lemma BlankSplit(n: string, k: string)
    ensures OneNode(n, k, "") == (n + "\n{\n" + k) + ([' '] + ("=" + (" \n" + "}\n")))
    ensures Blank(n, k) == (n + "\n{\n" + k) + ([' '] + ("=" + ("\n" + "}\n")))
  {
  }

  /** Line 125 drops the blank the game writes after `=` when the value is empty. */
  lemma BlankBeforeNewline(n: string, k: string)
    requires Plain(n) && Plain(k)
    ensures ReplaceAll(OneNode(n, k, ""), " \n", "\n") == Blank(n, k)
    ensures ReplaceAll(Blank(n, k), " \n", "\n") == Blank(n, k)
  {
    BlankSplit(n, k);
    var tail := "=" + (" \n" + "}\n");
    ReplaceAllNone("}\n", " \n", "\n");
    ReplaceAllHit(" \n", "}\n", "\n");
    ReplaceAllSkip("=", " \n" + "}\n", " \n", "\n");
    ReplaceAllMiss(' ', tail, " \n", "\n", 1);
    ReplaceAllNone("=" + ("\n" + "}\n"), " \n", "\n");
    ReplaceAllMiss(' ', "=" + ("\n" + "}\n"), " \n", "\n", 1);
    BareLacks(n, ' ');
    BareLacks(k, ' ');
    ReplaceAllSkip(n + "\n{\n" + k, [' '] + tail, " \n", "\n");
    ReplaceAllSkip(n + "\n{\n" + k, [' '] + ("=" + ("\n" + "}\n")), " \n", "\n");
  }

  /** What follows the node name of `Blank`, from the first newline on. */
  function BlankBody3(k: string): string
  {
    ['\n'] + (k + " =" + (['\n'] + ("}" + ['\n'])))
  }

  lemma BlankTail3(k: string)
    requires Plain(k)
    ensures ReplaceAll(BlankBody3(k), "\n ", "\n") == BlankBody3(k)
  {
    var t3 := "}" + ['\n'];
    ReplaceAllMiss('\n', [], "\n ", "\n", 1);
    assert ['\n'] + [] == ['\n'];
    ReplaceAllSkip("}", ['\n'], "\n ", "\n");
    ReplaceAllMiss('\n', t3, "\n ", "\n", 1);
    var t1 := k + " =" + (['\n'] + t3);
    BareLacks(k, '\n');
    ReplaceAllSkip(k + " =", ['\n'] + t3, "\n ", "\n");
    ReplaceAllMiss('\n', t1, "\n ", "\n", 1);
  }

  lemma BlankAfterNewline(n: string, k: string)
    requires Plain(n) && Plain(k)
    ensures ReplaceAll(Blank(n, k), "\n ", "\n") == Blank(n, k)
  {
    assert Blank(n, k) == n + (['\n'] + ("{" + BlankBody3(k)));
    BlankTail3(k);
    ReplaceAllSkip("{", BlankBody3(k), "\n ", "\n");
    ReplaceAllMiss('\n', "{" + BlankBody3(k), "\n ", "\n", 1);
    BareLacks(n, '\n');
    ReplaceAllSkip(n, ['\n'] + ("{" + BlankBody3(k)), "\n ", "\n");
  }

  lemma BlankNoTabs(n: string, k: string)
    requires Plain(n) && Plain(k)
    ensures ReplaceAll(Blank(n, k), "\t", "") == Blank(n, k)
  {
    ReplaceAllNone(Blank(n, k), "\t", "");
  }

  /** Line 125 turns `KEY = ` with an empty value into `KEY =`. */
  lemma StripLineBlanksEmptyValue(n: string, k: string)
    requires Plain(n) && Plain(k)
    ensures StripLineBlanks(OneNode(n, k, "")) == Blank(n, k)
  {
    Step1NoTabs(n, k, "");
    BlankBeforeNewline(n, k);
    BlankAfterNewline(n, k);
  }

  /** `KEY =` without the blank passes line 125 unchanged. */
  lemma StripLineBlanksBlank(n: string, k: string)
    requires Plain(n) && Plain(k)
    ensures StripLineBlanks(Blank(n, k)) == Blank(n, k)
  {
    BlankNoTabs(n, k);
    BlankBeforeNewline(n, k);
    BlankAfterNewline(n, k);
  }

  lemma BlankClosingBrace(n: string, k: string)
    requires Plain(n) && Plain(k)
    ensures ReplaceAll(Blank(n, k), "}\n", "}") == BlankClosed(n, k)
  {
    var head := n + "\n{\n" + k + " =\n";
    assert Blank(n, k) == head + ("}\n" + "");
    assert BlankClosed(n, k) == head + "}";
    ReplaceAllHit("}\n", "", "}");
    BareLacks(n, '}');
    BareLacks(k, '}');
    ReplaceAllSkip(head, "}\n" + "", "}\n", "}");
  }

  /** What follows the opening brace of `BlankClosed`. */
  function BlankBody5(k: string): string
  {
    ['\n'] + (k + " =" + (['\n'] + "}"))
  }

  lemma BlankTail5(k: string)
    requires Plain(k)
    ensures ReplaceAll(BlankBody5(k), "\n{", ":{") == BlankBody5(k)
  {
    ReplaceAllNone("}", "\n{", ":{");
    ReplaceAllMiss('\n', "}", "\n{", ":{", 1);
    BareLacks(k, '\n');
    ReplaceAllSkip(k + " =", ['\n'] + "}", "\n{", ":{");
    ReplaceAllMiss('\n', k + " =" + (['\n'] + "}"), "\n{", ":{", 1);
  }

  lemma BlankOpeningBrace(n: string, k: string)
    requires Plain(n) && Plain(k)
    ensures ReplaceAll(BlankClosed(n, k), "\n{", ":{") == BlankKeyed(n, k)
  {
    assert BlankClosed(n, k) == n + ("\n{" + BlankBody5(k));
    assert BlankKeyed(n, k) == n + (":{" + BlankBody5(k));
    BlankTail5(k);
    ReplaceAllHit("\n{", BlankBody5(k), ":{");
    BareLacks(n, '\n');
    ReplaceAllSkip(n, "\n{" + BlankBody5(k), "\n{", ":{");
  }

  lemma BlankEmptyNode(n: string, k: string)
    requires Plain(n) && Plain(k)
    ensures ReplaceAll(BlankKeyed(n, k), "{\n}", "{}\n") == BlankKeyed(n, k)
  {
    assert BlankKeyed(n, k) == (n + ":") + (['{'] + BlankBody5(k));
    BareLacks(k, '{');
    ReplaceAllNone(BlankBody5(k), "{\n}", "{}\n");
    ReplaceAllMiss('{', BlankBody5(k), "{\n}", "{}\n", 2);
    BareLacks(n, '{');
    ReplaceAllSkip(n + ":", ['{'] + BlankBody5(k), "{\n}", "{}\n");
  }

  lemma NodeNamesToKeysBlank(n: string, k: string)
    requires Plain(n) && Plain(k)
    ensures NodeNamesToKeys(Blank(n, k)) == BlankKeyed(n, k)
  {
    BlankClosingBrace(n, k);
    BlankOpeningBrace(n, k);
    BlankEmptyNode(n, k);
  }

  /** Line 133 puts back the blank after `=`, giving the assignment of an empty value. */
  lemma BlankAssignment(n: string, k: string)
    requires Plain(n) && Plain(k)
    ensures ReplaceAll(BlankKeyed(n, k), " =\n", " = \n") == Keyed(n, k, "")
  {
    var head := n + ":{\n" + k;
    assert BlankKeyed(n, k) == head + (" =\n" + "}");
    assert Keyed(n, k, "") == head + (" = \n" + "}");
    ReplaceAllHit(" =\n", "}", " = \n");
    ReplaceAllNone("}", " =\n", " = \n");
    BareLacks(n, ' ');
    BareLacks(k, ' ');
    ReplaceAllSkip(head, " =\n" + "}", " =\n", " = \n");
  }

  lemma QuoteAssignmentsBlank(n: string, k: string)
    requires Plain(n) && Plain(k)
    ensures QuoteAssignments(BlankKeyed(n, k)) == Quoted(n, k, "")
  {
    BlankAssignment(n, k);
    Step8Assignment(n, k, "");
    Step9LineEnds(n, k, "");
    Step10ObjectQuotes(n, k, "");
    Step11EmptyObjectQuotes(n, k, "");
  }

  /** The chain maps `NAME\n{\nKEY =\n}\n` to `NAME":{\n"KEY":"",\n"}`. */
  lemma RewriteBlank(n: string, k: string)
    requires Plain(n) && Plain(k)
    ensures Rewrite(Blank(n, k)) == Quoted(n, k, "")
  {
    StripLineBlanksBlank(n, k);
    NodeNamesToKeysBlank(n, k);
    QuoteAssignmentsBlank(n, k);
  }

  // ----- lines 139-143 -----

  /** Runs of two or more braces are longer than what follows the one comma: no change. */
  lemma DedentPassIdle(x: string, i: nat)
    requires ',' !in x && i >= 2
    ensures DedentPass(x + ",\n\"}", i) == x + ",\n\"}"
  {
    var pat := ",\n\"" + Braces(i);
    assert |pat| == i + 3;
    ReplaceAllSkip(x, ",\n\"}", pat, Braces(i) + ",\n\"");
  }

  /** The pass for one brace moves the comma behind it. */
  lemma DedentPassOne(x: string)
    requires ',' !in x
    ensures DedentPass(x + ",\n\"}", 1) == x + "},\n\""
  {
    assert Braces(1) == "}";
    assert ",\n\"" + Braces(1) == ",\n\"}";
    assert Braces(1) + ",\n\"" == "},\n\"";
    ReplaceAllHit(",\n\"}", "", "},\n\"");
    assert ",\n\"}" + "" == ",\n\"}";
    ReplaceAllSkip(x, ",\n\"}", ",\n\"}", "},\n\"");
  }

  lemma {:induction false} DedentOneLevel(x: string, i: nat)
    requires ',' !in x && i >= 1
    ensures Dedent(x + ",\n\"}", i) == x + "},\n\""
    decreases i
  {
    if i == 1 {
      DedentPassOne(x);
    } else {
      DedentPassIdle(x, i);
      DedentOneLevel(x, i - 1);
    }
  }

  // ----- the whole translation -----

  /** The quoted node up to the comma the dedent loop moves. */
  function Head(n: string, k: string, v: string): string
  {
    n + "\":{\n\"" + k + "\":\"" + v + "\""
  }

  lemma QuotedSplit(n: string, k: string, v: string)
    requires Plain(n) && Plain(k) && Bare(v)
    ensures Quoted(n, k, v) == Head(n, k, v) + ",\n\"}"
    ensures ',' !in Head(n, k, v)
  {
  }

  lemma FramedHead(n: string, k: string, v: string)
    ensures "{\"" + (Head(n, k, v) + "}") + "}" == "{\"" + n + "\":{\n\"" + k + "\":\"" + v + "\"}}"
    ensures "{\"" + (Head(n, k, v) + ",") + "}" == "{\"" + n + "\":{\n\"" + k + "\":\"" + v + "\",}"
  {
  }

  /**
   * For any depth of at least one, the node becomes
   * `{"NAME":{\n"KEY":"VALUE"}}`: the text of `TOP\n{\nKEY = value\n}\n`
   * becomes `{"TOP":{\n"KEY":"value"}}`.
   */
  lemma TranslateOneNode(n: string, k: string, v: string, d: int)
    requires Plain(n) && Plain(k) && Bare(v) && d >= 1
    ensures Translation(OneNode(n, k, v), d) == "{\"" + n + "\":{\n\"" + k + "\":\"" + v + "\"}}"
  {
    var x := Head(n, k, v);
    RewriteOneNode(n, k, v);
    QuotedSplit(n, k, v);
    DedentOneLevel(x, d);
    assert DropLast3(x + "},\n\"") == x + "}";
    FramedHead(n, k, v);
  }

  /**
   * With depth zero (or less) no dedent pass runs and the closing brace
   * keeps a comma before it: `{"NAME":{\n"KEY":"VALUE",}`, which is
   * not JSON.
   */
  lemma TranslateOneNodeNoDepth(n: string, k: string, v: string, d: int)
    requires Plain(n) && Plain(k) && Bare(v) && d <= 0
    ensures Translation(OneNode(n, k, v), d) == "{\"" + n + "\":{\n\"" + k + "\":\"" + v + "\",}"
  {
    var x := Head(n, k, v);
    RewriteOneNode(n, k, v);
    QuotedSplit(n, k, v);
    assert DropLast3(x + ",\n\"}") == x + ",";
    FramedHead(n, k, v);
  }

  /**
   * An assignment of an empty value, written `KEY = ` or `KEY =`, becomes
   * the empty string: `{"NAME":{\n"KEY":""}}` for any depth of at least one.
   */
  lemma TranslateBlankValue(n: string, k: string, d: int)
    requires Plain(n) && Plain(k) && d >= 1
    ensures Translation(OneNode(n, k, ""), d) == "{\"" + n + "\":{\n\"" + k + "\":\"\"}}"
    ensures Translation(Blank(n, k), d) == "{\"" + n + "\":{\n\"" + k + "\":\"\"}}"
  {
    TranslateOneNode(n, k, "", d);
    assert "{\"" + n + "\":{\n\"" + k + "\":\"" + "" + "\"}}" == "{\"" + n + "\":{\n\"" + k + "\":\"\"}}";
    RewriteOneNode(n, k, "");
    RewriteBlank(n, k);
    assert Rewrite(Blank(n, k)) == Rewrite(OneNode(n, k, ""));
  }
}
