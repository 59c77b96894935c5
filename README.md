# Kerbal save viewer: the translation engine in Dafny

`kerbal_savefile_viewer.py` reads a Kerbal Space Program `.sfs` save file. This is a brace-delimited node format:

```
NAME
{
KEY = VALUE
}
```

The program turns the save file into JSON text with a fixed chain of `str.replace` calls and a counted "dedent" loop. It then frames the result with `{"` and `}` and hands it to `json.loads`. The JSON reader uses a pairs hook, so that keys repeated next to each other become an array.

From the command line, the user can print parts of the tree. Each part is named by a `/`-separated reference below a default branch such as `GAME/PARAMETERS`.

This project models four pieces of that program:

- the text rewrite, together with the dedent loop and the framing;
- the duplicate-key pairs hook;
- the reference splitter;
- the recursive path lookup, together with the exception the printout loop catches.

Modules:

- `PyStr` (`py_str.dfy`) defines Python's `str.replace`, `str.split`, `str.join`, `str.rstrip` and `s[:-3]`. Replacement and splitting scan left to right and take the leftmost occurrences that do not overlap. `ReplaceAll` is tied to the independent definition `Join(SplitOn(..))`.
- `Translator` (`translator.dfy`) holds:
  - the method `Translate(sfs, d)`. It reassigns the text step by step, as lines 125-146 do, and runs the dedent loop with a loop invariant;
  - specification functions for each group of steps;
  - the lemmas on tabs, braces and permutation.
- `TranslationExample` (`translation_example.dfy`) follows every replacement on the smallest save file, `NAME { KEY = VALUE }`. It covers every non-empty name and key and every value made of plain characters, the empty value included, and every depth.
- `JsonTree` (`json_tree.dfy`) holds the tree `json.loads` builds. A node is a string, an object (an ordered entry list) or an array. Path steps are `Key` or `Index`.
- `DuplicateHook` (`duplicate_hook.dfy`) models `groupby` runs, the `gpairs` entries, and Python dict insertion as an ordered entry list.
- `TreePath` (`tree_path.dfy`) models `int()` on a segment, the method `TreepathSplit` with its in-place conversion loop, and the specification function `PathSteps`.
- `Lookup` (`lookup.dfy`) models Python subscripts on dicts, lists and strings, the recursive walk, and the outcome of one printout at lines 163-168.

## Model

| member | source | states |
|---|---|---|
| PyStr.ReplaceAllIsSplitJoin | kerbal_savefile_viewer.py:125-143 | `s.replace(pat, rep)` equals `rep.join(s.split(pat))` for every text: the replacement scan agrees with the independent split-and-join definition |
| PyStr.ReplaceAll | kerbal_savefile_viewer.py:125-143 | a replacement no longer than the pattern never lengthens the text; a longer one never shortens it |
| PyStr.SplitJoinRoundTrip | kerbal_savefile_viewer.py:56 | joining the pieces of `s.split(sep)` with `sep` gives back `s` |
| PyStr.ReplaceAllSelf | kerbal_savefile_viewer.py:125-143 | replacing a string by itself leaves every text unchanged |
| PyStr.ReplaceAllKeepsCount | kerbal_savefile_viewer.py:125-143 | a replacement whose two sides hold a character equally often keeps that character's count in the text |
| PyStr.ReplaceAllPermutes | kerbal_savefile_viewer.py:141-143 | replacing a string by a rearrangement of itself keeps the text's length and multiset of characters |
| PyStr.ReplaceAllKeepsAbsent | kerbal_savefile_viewer.py:125-137 | a character missing from the text and from the replacement is missing from the result |
| PyStr.ReplaceAllRemovesChar | kerbal_savefile_viewer.py:125 | replacing a single character by text without it leaves none of it |
| PyStr.ReplaceAllSkip | kerbal_savefile_viewer.py:125-137 | a prefix holding no first character of the pattern is copied through and the scan resumes after it |
| PyStr.ReplaceAllNone | kerbal_savefile_viewer.py:125-137 | a text holding no first character of the pattern is returned unchanged |
| PyStr.ReplaceAllHit | kerbal_savefile_viewer.py:125-137 | an occurrence at the front is replaced and scanning resumes after it, with no overlap |
| PyStr.ReplaceAllMiss | kerbal_savefile_viewer.py:125-137 | a character that does not start an occurrence is copied and scanning moves on by one |
| PyStr.SplitOn | kerbal_savefile_viewer.py:56 | `split` never returns an empty list |
| PyStr.SplitOnCharPieces | kerbal_savefile_viewer.py:56 | splitting on a character gives one piece more than its occurrences, and no piece holds it |
| PyStr.SplitOnCharAppend | kerbal_savefile_viewer.py:56 | splitting `x + sep + y` gives the pieces of `x` followed by the pieces of `y` |
| PyStr.SplitOnCharAbsent | kerbal_savefile_viewer.py:56 | a text without the separator splits into itself alone |
| PyStr.RStrip | kerbal_savefile_viewer.py:56 | `rstrip('/')` returns a prefix of the text; everything it removed is `/`; the result does not end in `/` |
| PyStr.RStripTrailing | kerbal_savefile_viewer.py:56 | any number of trailing `/` added to a reference is stripped again |
| PyStr.DropLast3 | kerbal_savefile_viewer.py:146 | `s[:-3]` is the text without its last three characters, or empty when the text is shorter than three |
| Translator.Braces | kerbal_savefile_viewer.py:141-142 | `'}' * i` has length `i` and holds only `}` |
| Translator.Translate | kerbal_savefile_viewer.py:125-146 | the step-by-step run with the dedent loop (`i = d - n` for `n` in `range(d)`) yields the specified translation. It opens with `{"` and closes with `}`, and its middle is the dedented text minus its last three characters. The dedented text holds no tab, and as many `{` and `}` as the input |
| Translator.Translation | kerbal_savefile_viewer.py:125-146 | the text handed to the JSON reader opens with `{"`, closes with `}` and holds no tab |
| Translator.DedentKeepsTabsAndBraces | kerbal_savefile_viewer.py:125-143 | after the whole chain and every dedent pass there is no tab, and the brace counts equal the input's |
| Translator.StripLineBlanksRemovesTabs | kerbal_savefile_viewer.py:125 | line 125 removes every tab |
| Translator.NodeNamesToKeysKeepsAbsent | kerbal_savefile_viewer.py:128-130 | lines 128-130 introduce no character outside `:{}` and newline |
| Translator.QuoteAssignmentsKeepsAbsent | kerbal_savefile_viewer.py:133-137 | lines 133-137 introduce no character outside blank, `=`, newline, `"`, `:`, `,`, `{`, `}` |
| Translator.RewriteRemovesTabs | kerbal_savefile_viewer.py:125-137 | the replace chain leaves no tab |
| Translator.ReplaceAllKeepsBraces | kerbal_savefile_viewer.py:125-143 | a replacement balanced in `{` and `}` keeps both counts |
| Translator.StripLineBlanksKeepsBraces | kerbal_savefile_viewer.py:125 | line 125 keeps the number of `{` and of `}` |
| Translator.NodeNamesToKeysKeepsBraces | kerbal_savefile_viewer.py:128-130 | lines 128-130 keep the number of `{` and of `}` |
| Translator.QuoteAssignmentsKeepsBraces | kerbal_savefile_viewer.py:133-137 | lines 133-137 keep the number of `{` and of `}` |
| Translator.QuoteLinesKeepsBraces | kerbal_savefile_viewer.py:133-135 | lines 133-135 keep the number of `{` and of `}` |
| Translator.FixObjectQuotesKeepsBraces | kerbal_savefile_viewer.py:136-137 | lines 136-137 keep the number of `{` and of `}` |
| Translator.RewriteKeepsBraces | kerbal_savefile_viewer.py:125-137 | the whole chain keeps the number of `{` and of `}` |
| Translator.DedentPassPermutes | kerbal_savefile_viewer.py:141-143 | one dedent pass only rearranges the text: same length, same characters |
| Translator.DedentPermutes | kerbal_savefile_viewer.py:139-143 | the passes for `i = d, ..., 1` together only rearrange the text |
| TranslationExample.StripLineBlanksOneNode | kerbal_savefile_viewer.py:125 | the node `NAME\n{\nKEY = VALUE\n}\n` has no blank next to a newline and passes line 125 unchanged |
| TranslationExample.NodeNamesToKeysOneNode | kerbal_savefile_viewer.py:128-130 | lines 128-130 turn it into `NAME:{\nKEY = VALUE\n}` |
| TranslationExample.QuoteAssignmentsOneNode | kerbal_savefile_viewer.py:133-137 | lines 133-137 then give `NAME":{\n"KEY":"VALUE",\n"}` |
| TranslationExample.RewriteOneNode | kerbal_savefile_viewer.py:125-137 | the whole chain maps the node to `NAME":{\n"KEY":"VALUE",\n"}`, for an empty value too |
| TranslationExample.DedentOneLevel | kerbal_savefile_viewer.py:139-143 | passes with two or more braces leave a single `,\n"}` alone; the pass with one brace turns it into `},\n"` |
| TranslationExample.TranslateOneNode | kerbal_savefile_viewer.py:125-146 | for every depth of at least 1 the node becomes `{"NAME":{\n"KEY":"VALUE"}}`, the empty value included, so `TOP\n{\nKEY = value\n}\n` becomes `{"TOP":{\n"KEY":"value"}}` |
| TranslationExample.TranslateOneNodeNoDepth | kerbal_savefile_viewer.py:139-146 | with a depth of 0 or less no pass runs, and the output `{"NAME":{\n"KEY":"VALUE",}` keeps a comma before the closing brace |
| TranslationExample.StripLineBlanksEmptyValue | kerbal_savefile_viewer.py:125 | an empty value written `KEY = ` loses the blank before the newline: the node becomes `NAME\n{\nKEY =\n}\n` |
| TranslationExample.StripLineBlanksBlank | kerbal_savefile_viewer.py:125 | `NAME\n{\nKEY =\n}\n` passes line 125 unchanged |
| TranslationExample.NodeNamesToKeysBlank | kerbal_savefile_viewer.py:128-130 | lines 128-130 turn it into `NAME:{\nKEY =\n}` |
| TranslationExample.BlankAssignment | kerbal_savefile_viewer.py:133 | line 133 puts a blank after the `=` of an empty value: `NAME:{\nKEY = \n}` |
| TranslationExample.QuoteAssignmentsBlank | kerbal_savefile_viewer.py:133-137 | lines 133-137 then give `NAME":{\n"KEY":"",\n"}` |
| TranslationExample.RewriteBlank | kerbal_savefile_viewer.py:125-137 | the whole chain maps `NAME\n{\nKEY =\n}\n` to `NAME":{\n"KEY":"",\n"}` |
| TranslationExample.TranslateBlankValue | kerbal_savefile_viewer.py:125-146 | an empty value, written `KEY = ` or `KEY =`, becomes the empty string: `{"NAME":{\n"KEY":""}}` for every depth of at least 1 |
| JsonTree.Keys | kerbal_savefile_viewer.py:44-49 | the key list of an entry list, position by position |
| JsonTree.Find | kerbal_savefile_viewer.py:76 | a key is found exactly when it is among the keys, and the value found is stored under it |
| DuplicateHook.Runs | kerbal_savefile_viewer.py:44 | every group `groupby` yields is non-empty, and the first group starts with the first pair |
| DuplicateHook.RunsSpec | kerbal_savefile_viewer.py:39-44 | each group holds one key, neighbouring groups have different keys, and the groups together give back the pairs |
| DuplicateHook.RunsUnique | kerbal_savefile_viewer.py:44 | any cut of the pairs into such groups is the one `groupby` makes: the groups are the maximal runs |
| DuplicateHook.Values | kerbal_savefile_viewer.py:45 | the list of a group's values, in order |
| DuplicateHook.Gpairs | kerbal_savefile_viewer.py:43-47 | one entry per run, under the run's key. A run of one gives its bare value, never a one-element list. A longer run gives the list of its values in input order. Neighbouring entries have different keys |
| DuplicateHook.Insert | kerbal_savefile_viewer.py:49 | `d[k] = v` keeps a present key in its place and appends a new one |
| DuplicateHook.InsertFind | kerbal_savefile_viewer.py:49 | after inserting `k: v`, `k` holds `v` and every other key holds what it held |
| DuplicateHook.AddKeys | kerbal_savefile_viewer.py:49 | adding keys never disturbs the keys already present |
| DuplicateHook.LatestSpec | kerbal_savefile_viewer.py:49 | the value of the last entry with a key, and none exactly when no entry has it |
| DuplicateHook.Fill | kerbal_savefile_viewer.py:49 | inserting entries one by one gives the old keys followed by the new ones, each once, in first-occurrence order |
| DuplicateHook.BuildDict | kerbal_savefile_viewer.py:49 | `dict(entries)` holds each key once, in order of its first entry |
| DuplicateHook.FillFind | kerbal_savefile_viewer.py:49 | in `dict(entries)` a key holds the value of its last entry, or its old value if no entry has it |
| DuplicateHook.Hook | kerbal_savefile_viewer.py:34-49 | the hook's keys are the distinct input keys, each once, in order of first occurrence: a key that comes back after a different key keeps its first position |
| DuplicateHook.AddKeysRuns | kerbal_savefile_viewer.py:44-49 | collecting keys pair by pair or run by run gives the same key list |
| DuplicateHook.DistinctSpec | kerbal_savefile_viewer.py:49 | the distinct-key list has no duplicates, holds exactly the input keys, and orders them by first occurrence |
| DuplicateHook.HookFind | kerbal_savefile_viewer.py:34-49 | a key is absent from the result exactly when it is absent from the input, and otherwise holds the entry of its latest run |
| DuplicateHook.HookFindLastRun | kerbal_savefile_viewer.py:43-49 | a present key holds the collapsed values of its last run (bare value or list), and no later run has that key: runs that are not adjacent are not merged |
| DuplicateHook.LatestRun | kerbal_savefile_viewer.py:43-47 | the latest `gpairs` entry with a key is the collapsed values (bare value or list) of some run of pairs with that key |
| DuplicateHook.AdjacentDuplicatesExample | kerbal_savefile_viewer.py:36 | `{"key":"value", "key":"value2"}` gives `{"key": ["value", "value2"]}` |
| DuplicateHook.InterleavedRuns | kerbal_savefile_viewer.py:43-47 | for `K=1, J=x, K=2`, where no neighbouring keys are equal, `gpairs` yields the pairs unchanged |
| DuplicateHook.InterleavedFill | kerbal_savefile_viewer.py:49 | `dict` of those pairs is `{"K": "2", "J": "x"}` |
| DuplicateHook.InterleavedDuplicatesExample | kerbal_savefile_viewer.py:44-49 | `K=1, J=x, K=2` gives `{"K": "2", "J": "x"}`: the later `K` overwrites in place |
| TreePath.NatToString | kerbal_savefile_viewer.py:65 | the numeral of a natural number is made of decimal digits |
| TreePath.ParseInt | kerbal_savefile_viewer.py:65 | what `int()` accepts here has a digit in every position after the first, is not a bare sign, and is negative only after a leading `-` |
| TreePath.NatToStringValue | kerbal_savefile_viewer.py:65 | a numeral's value is the number it was written from |
| TreePath.ParseNumeral | kerbal_savefile_viewer.py:65 | a decimal numeral reads as its value, and with a leading `-` as the negated value |
| TreePath.ParseIntRoundTrip | kerbal_savefile_viewer.py:65 | `int(str(n)) == n` for every integer, negative ones included |
| TreePath.Segments | kerbal_savefile_viewer.py:56 | `reference.rstrip('/').split('/')` has at least one segment |
| TreePath.PathSteps | kerbal_savefile_viewer.py:53-69 | the returned path always starts with the branch |
| TreePath.StepOfNumeral | kerbal_savefile_viewer.py:64-67 | the numeral of any integer, negative ones included, becomes that integer as an index |
| TreePath.StepOfWord | kerbal_savefile_viewer.py:64-67 | a segment with a character that is neither a digit nor a leading sign, or a bare sign, stays the same string |
| TreePath.TreepathSplit | kerbal_savefile_viewer.py:53-69 | the in-place loop returns `PathSteps`. If the last segment is `ALL` the result is the branch. Otherwise it is the branch followed by one step per segment, in order, each the integer or the unchanged string |
| TreePath.SingleSegment | kerbal_savefile_viewer.py:56-69 | a reference without `/` that is not `ALL`, the empty one included, appends one step to the branch |
| TreePath.AllGivesBranch | kerbal_savefile_viewer.py:56-60 | a reference ending in `ALL`, with any segments before it and any trailing slashes, gives exactly the branch |
| TreePath.SegmentsSpec | kerbal_savefile_viewer.py:56 | joined with `/`, the segments give back the stripped reference. There is one segment more than it holds `/`, and no segment holds `/` |
| TreePath.TwoSegments | kerbal_savefile_viewer.py:56-69 | `a/b` with `b` not `ALL` appends the steps of `a` and `b` to the branch |
| Lookup.Position | kerbal_savefile_viewer.py:76 | a list or string index is valid exactly in `-len <= i < len`; a negative one counts from the end |
| Lookup.Subscript | kerbal_savefile_viewer.py:76 | a dict answers exactly the keys it holds and raises `KeyError` for anything else, an integer included; a name on a list or a string raises `TypeError`; an index on a list or a string succeeds exactly when `-len <= i < len`, giving the item (or one-character string) at `i`, or at `len + i` when negative, and otherwise raises `IndexError` |
| Lookup.Resolve | kerbal_savefile_viewer.py:73-78 | the empty path gives the tree itself, and a path of one step is one subscript |
| Lookup.SubscriptKey | kerbal_savefile_viewer.py:76 | `d[k]` on a dict succeeds exactly when `k` is one of its keys, with the stored value, and otherwise raises `KeyError` |
| Lookup.ResolveAppend | kerbal_savefile_viewer.py:73-78 | looking up `p + q` looks up `p`, then `q` from the node found; a failure on `p` is the result |
| Lookup.ResolveOneStep | kerbal_savefile_viewer.py:73-78 | looking up `p + [st]` is one more subscript after looking up `p` |
| Lookup.MissingKey | kerbal_savefile_viewer.py:75-78 | a path that reaches a dict without its next key fails with `KeyError`, whatever steps follow |
| Lookup.DuplicateIndexExample | kerbal_savefile_viewer.py:92 | integers address duplicate names: in `{"key":"value", "key":"value2"}` the path `key/1` (and `key/-1`) reaches `"value2"`, and `key/2` raises `IndexError` |
| Lookup.PrintoutOf | kerbal_savefile_viewer.py:163-168 | the node the lookup found is the one printed; exactly the `KeyError` failures give the spelling hint; any other failure escapes the loop with the fault the lookup raised |
| Lookup.ExampleBranchResolves | kerbal_savefile_viewer.py:73-78 | in `{"GAME":{"PARAMETERS":{"X":{"Y":"1"}}}}` the branch `GAME/PARAMETERS` reaches the `PARAMETERS` object |
| Lookup.ExampleFound | kerbal_savefile_viewer.py:53-78 | `X/Y` below that branch prints `"1"` |
| Lookup.ExampleAll | kerbal_savefile_viewer.py:56-60 | `ALL` below that branch prints the `PARAMETERS` object |
| Lookup.ExampleMissing | kerbal_savefile_viewer.py:163-168 | `X/Z` below that branch gives the spelling hint |

## Left out

- Argument parsing and its defaults (lines 83-118) are not modelled. The depth `d`, the branch and the references are parameters. The default depth is 16.
- These are I/O or presentation and are not modelled:
  - reading the save file (line 121);
  - the debug dump (lines 150-152);
  - writing the JSON file (lines 171-172);
  - the `rich` printing of title, time stamp and version (lines 158-160).
- `json.loads` and `json.dumps` are library code and are not modelled.
  - The hook is modelled over the ordered pair list that the JSON reader passes for one object. The reader calls the hook once per object, innermost first.
  - Nothing in this model states whether the translated text is valid JSON. `TranslateOneNodeNoDepth` exhibits an output that is not.
- TreePath.ParseInt accepts an optional `+` or `-` followed by ASCII digits. Python's `int()` also accepts surrounding whitespace, underscores between digits and non-ASCII decimal digits. A segment made of those is an index in Python and stays a string here.
- TranslationExample.TranslateOneNode covers only non-empty names and keys, and values (possibly empty), with no blank, tab, newline or JSON punctuation. Other save-file texts go through the same `Translate`, but no closed form of their translation is proved.
- Lookup.PrintoutOf models one iteration of the printout loop. The `print` itself is not modelled, nor is the effect of an uncaught exception on the rest of the program.
- The mutable default `branch=["GAME"]` of `treepath_split` is returned without being changed. It is modelled as a value, so aliasing between printout paths is not represented.

Behaviour of the code that a reader might not expect, which this model keeps:

- Only `KeyError` is caught at line 167. An integer segment past the end of a list raises `IndexError`. A name segment on a list or a string raises `TypeError`. Neither is reported as "path not found"; both escape the loop.
- An integer segment applied to a dict is a `KeyError`, even when the dict has the same digits as a string key.
- A last segment `ALL` returns the branch. Any segments before it are dropped, so `X/ALL` gives the branch itself rather than the node `X`.
- There is no type-coercion pass in the code. Every scalar stays a string.
