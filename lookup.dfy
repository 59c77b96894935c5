/**
 * `dictionary_reference_from_list`: the tree is indexed one path step at
 * a time, `data[keys[0]]`, with Python's subscript rules. Only the
 * `KeyError` of a missing dictionary key is caught by the printout loop;
 * an index out of range or a subscript of the wrong kind raises an error
 * the loop does not catch.
 */
module Lookup {
  import opened JsonTree
  import opened TreePath
  import opened DuplicateHook

  /** The exception a subscript raises. */
  datatype Fault = KeyError | IndexError | TypeError

  datatype Result = Ok(value: Node) | Fail(fault: Fault)

  /** Python's list index: negative indices count from the end. */
  function Position(len: nat, i: int): (p: Option<nat>)
    ensures p.Some? <==> -(len as int) <= i < len
    ensures p.Some? ==> p.value < len && (p.value == i || p.value == len + i)
  {
    if 0 <= i < len then Some(i)
    else if -(len as int) <= i < 0 then Some(len + i)
    else None
  }

  /**
   * `data[step]` on a dict, a list or a str. A dict answers exactly the
   * keys it holds and raises `KeyError` for anything else, an integer
   * included; a name on a list or a str raises `TypeError`; an index on a
   * list or a str is valid exactly in `-len <= i < len`, gives the item
   * (or one-character string) at `i`, counted from the end when negative,
   * and raises `IndexError` otherwise.
   */
  function Subscript(data: Node, step: Step): (r: Result)
    ensures data.Obj? ==> (r.Ok? <==> step.Key? && step.name in Keys(data.entries))
    ensures data.Obj? && r.Fail? ==> r.fault == KeyError
    ensures !data.Obj? && step.Key? ==> r == Fail(TypeError)
    ensures !data.Obj? && step.Index? && r.Fail? ==> r.fault == IndexError
    ensures data.Arr? && r.Ok? ==> r.value in data.items
    ensures data.Arr? && step.Index? ==> (r.Ok? <==> -(|data.items| as int) <= step.i < |data.items|)
    ensures data.Arr? && step.Index? && 0 <= step.i < |data.items| ==> r == Ok(data.items[step.i])
    ensures data.Arr? && step.Index? && -(|data.items| as int) <= step.i < 0 ==>
      r == Ok(data.items[|data.items| + step.i])
    ensures data.Str? && step.Index? ==> (r.Ok? <==> -(|data.s| as int) <= step.i < |data.s|)
    ensures data.Str? && step.Index? && 0 <= step.i < |data.s| ==> r == Ok(Str([data.s[step.i]]))
    ensures data.Str? && step.Index? && -(|data.s| as int) <= step.i < 0 ==>
      r == Ok(Str([data.s[|data.s| + step.i]]))
  {
    match data
    case Obj(entries) =>
      (match step
       case Key(k) => (match Find(entries, k) case Some(v) => Ok(v) case None => Fail(KeyError))
       case Index(_) => Fail(KeyError))
    case Arr(items) =>
      (match step
       case Index(i) => (match Position(|items|, i) case Some(p) => Ok(items[p]) case None => Fail(IndexError))
       case Key(_) => Fail(TypeError))
    case Str(s) =>
      (match step
       case Index(i) => (match Position(|s|, i) case Some(p) => Ok(Str([s[p]])) case None => Fail(IndexError))
       case Key(_) => Fail(TypeError))
  }

  /**
   * `dictionary_reference_from_list(data, keys)`: the empty path gives the
   * tree itself, a path of one step is one subscript.
   */
  function Resolve(data: Node, keys: seq<Step>): (r: Result)
    ensures keys == [] ==> r == Ok(data)
    ensures |keys| == 1 ==> r == Subscript(data, keys[0])
    decreases |keys|
  {
    if |keys| == 0 then Ok(data)
    else
      match Subscript(data, keys[0])
      case Ok(v) => Resolve(v, keys[1..])
      case Fail(f) => Fail(f)
  }

  /** A dictionary answers a key exactly when it holds it, with the value stored there. */
  lemma SubscriptKey(entries: seq<(string, Node)>, k: string)
    ensures Subscript(Obj(entries), Key(k)).Ok? <==> k in Keys(entries)
    ensures Subscript(Obj(entries), Key(k)).Ok? ==>
      exists i :: 0 <= i < |entries| && entries[i] == (k, Subscript(Obj(entries), Key(k)).value)
    ensures Subscript(Obj(entries), Key(k)).Fail? ==> Subscript(Obj(entries), Key(k)).fault == KeyError
  {
  }

  /** Resolving `p + q` resolves `p`, then `q` from there; a failure stops the walk. */
  lemma {:induction false} ResolveAppend(data: Node, p: seq<Step>, q: seq<Step>)
    ensures Resolve(data, p + q) ==
      match Resolve(data, p)
      case Ok(v) => Resolve(v, q)
      case Fail(f) => Fail(f)
    decreases |p|
  {
    if |p| == 0 {
      assert p + q == q;
    } else {
      assert (p + q)[0] == p[0];
      assert (p + q)[1..] == p[1..] + q;
      match Subscript(data, p[0])
      case Ok(v) => ResolveAppend(v, p[1..], q);
      case Fail(f) =>
    }
  }

  /** A path through a dictionary that lacks the next key fails with `KeyError`, whatever follows. */
  lemma MissingKey(data: Node, p: seq<Step>, k: string, q: seq<Step>)
    requires Resolve(data, p).Ok? && Resolve(data, p).value.Obj?
    requires k !in Keys(Resolve(data, p).value.entries)
    ensures Resolve(data, p + [Key(k)] + q) == Fail(KeyError)
  {
    ResolveAppend(data, p, [Key(k)] + q);
    assert p + [Key(k)] + q == p + ([Key(k)] + q);
  }

  /** A successful walk ends at a node reached by one successful subscript per step. */
  lemma {:induction false} ResolveOneStep(data: Node, p: seq<Step>, st: Step)
    ensures Resolve(data, p + [st]) ==
      match Resolve(data, p)
      case Ok(v) => Subscript(v, st)
      case Fail(f) => Fail(f)
  {
    ResolveAppend(data, p, [st]);
    if Resolve(data, p).Ok? {
      assert [st][1..] == [];
    }
  }

  /** The pairs `{"key":"value", "key":"value2"}` and the list the hook makes of them. */
  function RepeatedPairs(): seq<(string, Node)>
  {
    [("key", Str("value")), ("key", Str("value2"))]
  }

  function RepeatedValues(): seq<Node>
  {
    [Str("value"), Str("value2")]
  }

  /** `key/i` in `{"key": [...]}` is the subscript `[i]` of the list. */
  lemma RepeatedWalk(i: int)
    ensures Resolve(Obj([("key", Arr(RepeatedValues()))]), [Key("key"), Index(i)])
         == Subscript(Arr(RepeatedValues()), Index(i))
  {
    var d := Obj([("key", Arr(RepeatedValues()))]);
    assert Subscript(d, Key("key")) == Ok(Arr(RepeatedValues()));
    assert [Key("key"), Index(i)][1..] == [Index(i)];
  }

  /**
   * Integer segments address repeated names: in `{"key":"value", "key":"value2"}`
   * the path `key/1` (or `key/-1`) reaches the second value and `key/2` is
   * past the end.
   */
  lemma DuplicateIndexExample()
    ensures Resolve(Obj(Hook(RepeatedPairs())), [Key("key"), Index(1)]) == Ok(Str("value2"))
    ensures Resolve(Obj(Hook(RepeatedPairs())), [Key("key"), Index(-1)]) == Ok(Str("value2"))
    ensures Resolve(Obj(Hook(RepeatedPairs())), [Key("key"), Index(2)]) == Fail(IndexError)
  {
    AdjacentDuplicatesExample();
    assert Hook(RepeatedPairs()) == [("key", Arr(RepeatedValues()))];
    RepeatedWalk(1);
    RepeatedWalk(-1);
    RepeatedWalk(2);
  }

  // ----- the printout loop -----

  /** What one requested printout does. */
  datatype Printout = Printed(node: Node) | Misspelled | Raised(fault: Fault)

  /**
   * The `try` around one printout: a found node is printed, a `KeyError`
   * becomes the spelling hint, any other error escapes the loop.
   */
  function PrintoutOf(data: Node, reference: string, branch: seq<Step>): (r: Printout)
    ensures r.Printed? <==> Resolve(data, PathSteps(reference, branch)).Ok?
    ensures r.Misspelled? <==> Resolve(data, PathSteps(reference, branch)) == Fail(KeyError)
    ensures r.Printed? ==> r.node == Resolve(data, PathSteps(reference, branch)).value
    ensures r.Raised? ==> Resolve(data, PathSteps(reference, branch)) == Fail(r.fault) && r.fault != KeyError
  {
    match Resolve(data, PathSteps(reference, branch))
    case Ok(v) => Printed(v)
    case Fail(KeyError) => Misspelled
    case Fail(f) => Raised(f)
  }

  // ----- a worked example -----

  function ExampleTree(): Node
  {
    Obj([("GAME", Obj([("PARAMETERS", Obj([("X", Obj([("Y", Str("1"))]))]))]))])
  }

  function ExampleBranch(): seq<Step>
  {
    [Key("GAME"), Key("PARAMETERS")]
  }

  /** The `PARAMETERS` object of the example tree. */
  function ExampleParameters(): Node
  {
    Obj([("X", Obj([("Y", Str("1"))]))])
  }

  lemma ExampleBranchResolves()
    ensures Resolve(ExampleTree(), ExampleBranch()) == Ok(ExampleParameters())
  {
    var b := ExampleBranch();
    assert Subscript(ExampleTree(), b[0]) == Ok(Obj([("PARAMETERS", ExampleParameters())]));
    assert b[1..] == [Key("PARAMETERS")] && b[1..][1..] == [];
  }

  lemma ExamplePath(last: string)
    requires last == "Y" || last == "Z"
    ensures PathSteps("X/" + last, ExampleBranch()) == ExampleBranch() + [Key("X"), Key(last)]
  {
    assert !IsDigit('X') && !IsDigit(last[0]);
    assert StepOf("X") == Key("X") && StepOf(last) == Key(last);
    TwoSegments("X", last, ExampleBranch());
    assert "X" + "/" + last == "X/" + last;
  }

  lemma ExampleWalk(last: string)
    ensures Resolve(ExampleTree(), ExampleBranch() + [Key("X"), Key(last)])
         == Subscript(Obj([("Y", Str("1"))]), Key(last))
  {
    ExampleBranchResolves();
    ResolveAppend(ExampleTree(), ExampleBranch(), [Key("X"), Key(last)]);
    assert Subscript(ExampleParameters(), Key("X")) == Ok(Obj([("Y", Str("1"))]));
    assert [Key("X"), Key(last)][1..] == [Key(last)] && [Key(last)][1..] == [];
    var sub := Subscript(Obj([("Y", Str("1"))]), Key(last));
    if sub.Ok? {
      assert Resolve(sub.value, []) == sub;
    }
  }

  /** In `{"GAME":{"PARAMETERS":{"X":{"Y":"1"}}}}` below `GAME/PARAMETERS`, `X/Y` finds `"1"`. */
  lemma ExampleFound()
    ensures PrintoutOf(ExampleTree(), "X/Y", ExampleBranch()) == Printed(Str("1"))
  {
    ExamplePath("Y");
    assert "X/" + "Y" == "X/Y";
    ExampleWalk("Y");
  }

  /** `ALL` finds the `PARAMETERS` object itself. */
  lemma ExampleAll()
    ensures PrintoutOf(ExampleTree(), "ALL", ExampleBranch()) == Printed(ExampleParameters())
  {
    AllGivesBranch("", 0, ExampleBranch());
    assert "ALL" + seq(0, _ => '/') == "ALL";
    ExampleBranchResolves();
  }

  /** The missing key in `X/Z` gives the spelling hint. */
  lemma ExampleMissing()
    ensures PrintoutOf(ExampleTree(), "X/Z", ExampleBranch()) == Misspelled
  {
    ExamplePath("Z");
    assert "X/" + "Z" == "X/Z";
    ExampleWalk("Z");
  }
}
