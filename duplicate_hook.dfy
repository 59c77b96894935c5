/**
 * `duplicate_object_pairs_hook`: the object an ordered list of JSON
 * key/value pairs becomes. `itertools.groupby` cuts the pairs into
 * maximal runs of adjacent equal keys; a run of one keeps its bare
 * value and a longer run becomes the array of its values; `dict(...)`
 * then inserts the run entries in order, so a key met again after a
 * different key keeps its first position and takes the later value.
 * A dictionary is an ordered entry list here, so that order is visible.
 */
module DuplicateHook {
  import opened JsonTree

  type Pair = (string, Node)

  // ----- itertools.groupby -----

  /** The runs written one after another. */
  function Flatten(runs: seq<seq<Pair>>): seq<Pair>
  {
    if |runs| == 0 then [] else runs[0] + Flatten(runs[1..])
  }

  /** A non-empty run of pairs sharing one key. */
  predicate Uniform(run: seq<Pair>)
  {
    |run| > 0 && forall j :: 0 <= j < |run| ==> run[j].0 == run[0].0
  }

  /** Every run is uniform; neighbouring runs hold different keys. */
  predicate Grouping(runs: seq<seq<Pair>>)
  {
    (forall i :: 0 <= i < |runs| ==> Uniform(runs[i])) &&
    (forall i :: 0 <= i < |runs| - 1 ==> runs[i][0].0 != runs[i + 1][0].0)
  }

  /** The groups `itertools.groupby(pairs, _key)` yields. */
  function Runs(ps: seq<Pair>): (runs: seq<seq<Pair>>)
    ensures forall i :: 0 <= i < |runs| ==> |runs[i]| > 0
    ensures |ps| > 0 ==> |runs| > 0 && runs[0][0] == ps[0]
  {
    if |ps| == 0 then []
    else
      var rest := Runs(ps[1..]);
      if |rest| > 0 && rest[0][0].0 == ps[0].0 then [[ps[0]] + rest[0]] + rest[1..]
      else [[ps[0]]] + rest
  }

  /** The groups are maximal runs of adjacent equal keys that together give back the pairs. */
  lemma RunsSpec(ps: seq<Pair>)
    ensures Grouping(Runs(ps))
    ensures Flatten(Runs(ps)) == ps
  {
    RunsGrouping(ps);
    RunsFlatten(ps);
  }

  lemma {:induction false} RunsGrouping(ps: seq<Pair>)
    ensures Grouping(Runs(ps))
    decreases |ps|
  {
    if |ps| > 0 {
      var rest: seq<seq<Pair>> := Runs(ps[1..]);
      RunsGrouping(ps[1..]);
      var runs := Runs(ps);
      if |rest| > 0 && rest[0][0].0 == ps[0].0 {
        assert runs[1..] == rest[1..];
        assert runs[0][0].0 == rest[0][0].0;
        forall i | 1 <= i < |runs|
          ensures runs[i] == rest[i]
        {
        }
        assert Uniform(rest[0]);
        assert Uniform(runs[0]);
      } else {
        assert runs[1..] == rest;
      }
    }
  }

  lemma {:induction false} RunsFlatten(ps: seq<Pair>)
    ensures Flatten(Runs(ps)) == ps
    decreases |ps|
  {
    if |ps| > 0 {
      var rest: seq<seq<Pair>> := Runs(ps[1..]);
      RunsFlatten(ps[1..]);
      var runs := Runs(ps);
      if |rest| > 0 && rest[0][0].0 == ps[0].0 {
        assert runs == [[ps[0]] + rest[0]] + rest[1..];
        assert Flatten(runs) == ([ps[0]] + rest[0]) + Flatten(rest[1..]);
        assert Flatten(rest) == rest[0] + Flatten(rest[1..]);
      } else {
        assert runs == [[ps[0]]] + rest;
        assert Flatten(runs) == [ps[0]] + Flatten(rest);
      }
      assert ps == [ps[0]] + ps[1..];
    }
  }

  /** The cut into runs is the only one: any grouping of the pairs is the one `Runs` makes. */
  lemma {:induction false} RunsUnique(ps: seq<Pair>, runs: seq<seq<Pair>>)
    requires Grouping(runs) && Flatten(runs) == ps
    ensures runs == Runs(ps)
    decreases |ps|
  {
    if |runs| == 0 {
    } else if |runs[0]| == 1 {
      var tail := runs[1..];
      assert Grouping(tail);
      assert Flatten(runs) == runs[0] + Flatten(tail);
      assert runs[0] == [ps[0]];
      RunsUnique(ps[1..], tail);
      assert runs == [runs[0]] + tail;
    } else {
      var tail := [runs[0][1..]] + runs[1..];
      assert tail[1..] == runs[1..];
      assert Flatten(runs) == runs[0] + Flatten(runs[1..]);
      assert runs[0] == [ps[0]] + runs[0][1..];
      assert Flatten(tail) == runs[0][1..] + Flatten(runs[1..]);
      assert Flatten(tail) == ps[1..];
      assert Uniform(tail[0]) by {
        assert Uniform(runs[0]);
      }
      assert Grouping(tail) by {
        forall i | 0 <= i < |tail| - 1
          ensures tail[i][0].0 != tail[i + 1][0].0
        {
          if i == 0 {
            assert tail[0][0] == runs[0][1];
          } else {
            assert tail[i] == runs[i] && tail[i + 1] == runs[i + 1];
          }
        }
      }
      RunsUnique(ps[1..], tail);
      assert runs[0] == [ps[0]] + tail[0];
      assert runs == [runs[0]] + runs[1..];
    }
  }

  // ----- gpairs -----

  /** `[v for (_, v) in group]`. */
  function Values(run: seq<Pair>): (vs: seq<Node>)
    ensures |vs| == |run|
    ensures forall j :: 0 <= j < |run| ==> vs[j] == run[j].1
  {
    if |run| == 0 then [] else [run[0].1] + Values(run[1..])
  }

  /** `ll if extra else v`: a single value stays bare, more become an array. */
  function Collapse(vs: seq<Node>): Node
    requires |vs| > 0
  {
    if |vs| == 1 then vs[0] else Arr(vs)
  }

  function RunEntries(runs: seq<seq<Pair>>): seq<Pair>
    requires forall i :: 0 <= i < |runs| ==> |runs[i]| > 0
  {
    if |runs| == 0 then []
    else [(runs[0][0].0, Collapse(Values(runs[0])))] + RunEntries(runs[1..])
  }

  /**
   * `gpairs()`: one entry per run, under the run's key; a run of one gives
   * its bare value (never a one-element array), a longer run the array of
   * its values in input order; neighbouring entries have different keys.
   */
  function Gpairs(ps: seq<Pair>): (gp: seq<Pair>)
    ensures |gp| == |Runs(ps)|
    ensures forall i :: 0 <= i < |gp| ==> gp[i].0 == Runs(ps)[i][0].0
    ensures forall i :: 0 <= i < |gp| && |Runs(ps)[i]| == 1 ==> gp[i].1 == Runs(ps)[i][0].1
    ensures forall i :: 0 <= i < |gp| && |Runs(ps)[i]| > 1 ==> gp[i].1 == Arr(Values(Runs(ps)[i]))
    ensures forall i :: 0 <= i < |gp| - 1 ==> gp[i].0 != gp[i + 1].0
  {
    RunsSpec(ps);
    RunEntriesAt(Runs(ps));
    RunEntries(Runs(ps))
  }

  lemma {:induction false} RunEntriesAt(runs: seq<seq<Pair>>)
    requires forall i :: 0 <= i < |runs| ==> |runs[i]| > 0
    ensures |RunEntries(runs)| == |runs|
    ensures forall i :: 0 <= i < |runs| ==>
      RunEntries(runs)[i] == (runs[i][0].0, Collapse(Values(runs[i])))
  {
    if |runs| > 0 {
      RunEntriesAt(runs[1..]);
    }
  }

  // ----- dict(...) -----

  /** A key added once: kept where it is if already there, else appended. */
  function AddKey(ks: seq<string>, k: string): seq<string>
  {
    if k in ks then ks else ks + [k]
  }

  /** The keys of a sequence, each at its first occurrence. */
  function AddKeys(ks: seq<string>, more: seq<string>): (r: seq<string>)
    ensures |ks| <= |r| && r[..|ks|] == ks
    decreases |more|
  {
    if |more| == 0 then ks else AddKeys(AddKey(ks, more[0]), more[1..])
  }

  /** The distinct keys, in order of first occurrence. */
  function Distinct(ks: seq<string>): seq<string>
  {
    AddKeys([], ks)
  }

  /** `d[k] = v` on a Python dict: an existing key keeps its place, a new one goes last. */
  function Insert(d: seq<Pair>, k: string, v: Node): (r: seq<Pair>)
    ensures Keys(r) == AddKey(Keys(d), k)
  {
    if |d| == 0 then [(k, v)]
    else if d[0].0 == k then [(k, v)] + d[1..]
    else
      var rest := Insert(d[1..], k, v);
      assert Keys(d) == [d[0].0] + Keys(d[1..]);
      assert Keys([d[0]] + rest) == [d[0].0] + Keys(rest);
      [d[0]] + rest
  }

  /** After `d[k] = v`, `k` holds `v` and every other key holds what it held. */
  lemma {:induction false} InsertFind(d: seq<Pair>, k: string, v: Node, k': string)
    ensures Find(Insert(d, k, v), k') == if k' == k then Some(v) else Find(d, k')
  {
    if |d| > 0 && d[0].0 != k {
      InsertFind(d[1..], k, v, k');
      assert Insert(d, k, v)[1..] == Insert(d[1..], k, v);
    }
  }

  /**
   * `dict(entries)` started from `d`: the entries are inserted one by one,
   * so the new keys follow the old ones, each once, at its first entry.
   */
  function Fill(d: seq<Pair>, entries: seq<Pair>): (r: seq<Pair>)
    ensures Keys(r) == AddKeys(Keys(d), Keys(entries))
    decreases |entries|
  {
    if |entries| == 0 then d
    else
      assert Keys(entries) == [entries[0].0] + Keys(entries[1..]);
      Fill(Insert(d, entries[0].0, entries[0].1), entries[1..])
  }

  /** `dict(entries)`: each key once, in order of its first entry. */
  function BuildDict(entries: seq<Pair>): (r: seq<Pair>)
    ensures Keys(r) == Distinct(Keys(entries))
    ensures NoDuplicates(Keys(r))
  {
    AddKeysProps([], Keys(entries));
    Fill([], entries)
  }

  /** The value the last entry with key `k` carries. */
  function Latest(entries: seq<Pair>, k: string): Option<Node>
  {
    if |entries| == 0 then None
    else
      match Latest(entries[1..], k)
      case Some(v) => Some(v)
      case None => if entries[0].0 == k then Some(entries[0].1) else None
  }

  /** `Latest` is the value of the last entry with the key, and none exactly when no entry has it. */
  lemma {:induction false} LatestSpec(entries: seq<Pair>, k: string)
    ensures Latest(entries, k).None? <==> k !in Keys(entries)
    ensures Latest(entries, k).Some? ==>
      exists i :: && 0 <= i < |entries| && entries[i] == (k, Latest(entries, k).value)
                  && forall j :: i < j < |entries| ==> entries[j].0 != k
  {
    if |entries| > 0 {
      var rest := entries[1..];
      LatestSpec(rest, k);
      assert Keys(entries) == [entries[0].0] + Keys(rest);
      var later := Latest(rest, k);
      if later.Some? {
        var i :| 0 <= i < |rest| && rest[i] == (k, later.value) &&
                 forall j :: i < j < |rest| ==> rest[j].0 != k;
        assert entries[i + 1] == (k, later.value);
      } else if entries[0].0 == k {
        assert forall j :: 0 < j < |entries| ==> entries[j].0 == Keys(rest)[j - 1];
      }
    }
  }

  /**
   * The whole hook: its keys are the input keys, each once, in order of
   * first occurrence, so a key met again after a different key keeps its
   * first position.
   */
  function Hook(ps: seq<Pair>): (r: seq<Pair>)
    ensures Keys(r) == Distinct(Keys(ps))
    ensures NoDuplicates(Keys(r))
  {
    RunsSpec(ps);
    AddKeysRuns([], Runs(ps));
    BuildDict(Gpairs(ps))
  }

  // ----- the dictionary's keys -----

  /** Filling a dictionary: a key takes its latest value, or keeps the old one. */
  lemma {:induction false} FillFind(d: seq<Pair>, entries: seq<Pair>, k: string)
    ensures Find(Fill(d, entries), k) == if k in Keys(entries) then Latest(entries, k) else Find(d, k)
    decreases |entries|
  {
    if |entries| > 0 {
      var d' := Insert(d, entries[0].0, entries[0].1);
      FillFind(d', entries[1..], k);
      InsertFind(d, entries[0].0, entries[0].1, k);
      assert Keys(entries) == [entries[0].0] + Keys(entries[1..]);
      LatestSpec(entries[1..], k);
    }
  }

  lemma {:induction false} AddKeysAppend(ks: seq<string>, xs: seq<string>, ys: seq<string>)
    ensures AddKeys(ks, xs + ys) == AddKeys(AddKeys(ks, xs), ys)
    decreases |xs|
  {
    if |xs| > 0 {
      assert (xs + ys)[1..] == xs[1..] + ys;
      AddKeysAppend(AddKey(ks, xs[0]), xs[1..], ys);
    } else {
      assert xs + ys == ys;
    }
  }

  /** Adding a key again changes nothing. */
  lemma {:induction false} AddKeysRepeat(ks: seq<string>, k: string, n: nat)
    requires k in ks
    ensures AddKeys(ks, seq(n, _ => k)) == ks
    decreases n
  {
    if n > 0 {
      assert seq(n, _ => k)[1..] == seq(n - 1, _ => k);
      AddKeysRepeat(ks, k, n - 1);
    }
  }

  /** The keys of each run collapse to the run's key. */
  lemma {:induction false} AddKeysRuns(ks: seq<string>, runs: seq<seq<Pair>>)
    requires Grouping(runs)
    ensures AddKeys(ks, Keys(Flatten(runs))) == AddKeys(ks, Keys(RunEntries(runs)))
    decreases |runs|
  {
    if |runs| > 0 {
      var r := runs[0];
      var k := r[0].0;
      assert Grouping(runs[1..]);
      assert Keys(Flatten(runs)) == Keys(r) + Keys(Flatten(runs[1..])) by {
        KeysAppend(r, Flatten(runs[1..]));
      }
      assert Keys(r) == [k] + seq(|r| - 1, _ => k);
      AddKeysAppend(ks, Keys(r), Keys(Flatten(runs[1..])));
      AddKeysAppend(ks, [k], seq(|r| - 1, _ => k));
      AddKeysRepeat(AddKey(ks, k), k, |r| - 1);
      AddKeysRuns(AddKey(ks, k), runs[1..]);
    }
  }

  lemma KeysAppend(xs: seq<Pair>, ys: seq<Pair>)
    ensures Keys(xs + ys) == Keys(xs) + Keys(ys)
  {
  }

  // ----- Distinct, the reference for the key order -----

  function FirstIndex(ks: seq<string>, k: string): (i: nat)
    requires k in ks
    ensures i < |ks| && ks[i] == k && k !in ks[..i]
  {
    if ks[0] == k then 0 else 1 + FirstIndex(ks[1..], k)
  }

  predicate NoDuplicates(ks: seq<string>)
  {
    forall i, j :: 0 <= i < j < |ks| ==> ks[i] != ks[j]
  }

  /**
   * Adding keys keeps a key list free of duplicates, holds exactly the
   * keys of both, and orders the new ones by first occurrence.
   */
  lemma {:induction false} AddKeysProps(ks: seq<string>, more: seq<string>)
    requires NoDuplicates(ks)
    ensures NoDuplicates(AddKeys(ks, more))
    ensures forall k :: k in AddKeys(ks, more) <==> k in ks || k in more
    decreases |more|
  {
    if |more| > 0 {
      var ks' := AddKey(ks, more[0]);
      AddKeyProps(ks, more[0]);
      AddKeysProps(ks', more[1..]);
      assert forall k :: k in more <==> k == more[0] || k in more[1..];
    }
  }

  lemma AddKeyProps(ks: seq<string>, k: string)
    requires NoDuplicates(ks)
    ensures NoDuplicates(AddKey(ks, k))
    ensures forall x :: x in AddKey(ks, k) <==> x in ks || x == k
  {
    if k !in ks {
      var r := ks + [k];
      forall i, j | 0 <= i < j < |r|
        ensures r[i] != r[j]
      {
        if j == |ks| {
          assert r[i] == ks[i];
        }
      }
    }
  }

  /** Keys after the existing ones are ordered by their first occurrence in the input. */
  lemma {:induction false} AddKeysOrder(ks: seq<string>, more: seq<string>, i: nat, j: nat)
    requires NoDuplicates(ks)
    requires |ks| <= i < j < |AddKeys(ks, more)|
    ensures AddKeys(ks, more)[i] in more && AddKeys(ks, more)[j] in more
    ensures FirstIndex(more, AddKeys(ks, more)[i]) < FirstIndex(more, AddKeys(ks, more)[j])
    decreases |more|
  {
    AddKeysProps(ks, more);
    var r := AddKeys(ks, more);
    var a, b := r[i], r[j];
    assert a !in ks && b !in ks by {
      assert r[..|ks|] == ks;
    }
    var ks' := AddKey(ks, more[0]);
    AddKeysProps(ks', more[1..]);
    if more[0] in ks {
      AddKeysOrder(ks', more[1..], i, j);
    } else if i == |ks| {
      assert r[..|ks'|] == ks';
      assert a == more[0];
      assert b != a;
    } else {
      assert r[..|ks'|] == ks';
      AddKeysOrder(ks', more[1..], i, j);
      assert a != more[0] && b != more[0] by {
        assert r[|ks|] == more[0];
      }
    }
  }

  /** `Distinct` keeps each key once, no more and no fewer, in first-occurrence order. */
  lemma DistinctSpec(ks: seq<string>)
    ensures NoDuplicates(Distinct(ks))
    ensures forall k :: k in Distinct(ks) <==> k in ks
    ensures forall i, j :: 0 <= i < j < |Distinct(ks)| ==>
      FirstIndex(ks, Distinct(ks)[i]) < FirstIndex(ks, Distinct(ks)[j])
  {
    AddKeysProps([], ks);
    forall i, j | 0 <= i < j < |Distinct(ks)|
      ensures FirstIndex(ks, Distinct(ks)[i]) < FirstIndex(ks, Distinct(ks)[j])
    {
      AddKeysOrder([], ks, i, j);
    }
  }

  // ----- the dictionary's values -----

  /**
   * A key absent from the input is absent from the result; a present key
   * holds the entry of its last run: the bare value of a single pair, or
   * the array of the run's values, and no later run has that key.
   */
  lemma HookFind(ps: seq<Pair>, k: string)
    ensures Find(Hook(ps), k).None? <==> k !in Keys(ps)
    ensures Find(Hook(ps), k) == Latest(Gpairs(ps), k)
  {
    var gp := Gpairs(ps);
    FillFind([], gp, k);
    AddKeysProps([], Keys(gp));
    LatestSpec(gp, k);
    DistinctSpec(Keys(ps));
  }

  /**
   * A present key holds the entry of its last run: the bare value of a
   * single pair, or the array of the run's values; no later run has that key.
   */
  lemma HookFindLastRun(ps: seq<Pair>, k: string)
    requires k in Keys(ps)
    ensures Find(Hook(ps), k).Some?
    ensures exists i ::
              && 0 <= i < |Runs(ps)| && Runs(ps)[i][0].0 == k
              && Find(Hook(ps), k).value == Collapse(Values(Runs(ps)[i]))
              && forall j :: i < j < |Runs(ps)| ==> Runs(ps)[j][0].0 != k
  {
    HookFind(ps, k);
    LatestRun(ps, k);
  }

  /** The latest `gpairs` entry of a key is the collapsed last run of that key. */
  lemma LatestRun(ps: seq<Pair>, k: string)
    requires Latest(Gpairs(ps), k).Some?
    ensures exists i ::
              && 0 <= i < |Runs(ps)| && Runs(ps)[i][0].0 == k
              && Latest(Gpairs(ps), k).value == Collapse(Values(Runs(ps)[i]))
              && forall j :: i < j < |Runs(ps)| ==> Runs(ps)[j][0].0 != k
  {
    LatestEntry(Runs(ps), k);
  }

  lemma LatestEntry(runs: seq<seq<Pair>>, k: string)
    requires forall i :: 0 <= i < |runs| ==> |runs[i]| > 0
    requires Latest(RunEntries(runs), k).Some?
    ensures exists i ::
              && 0 <= i < |runs| && runs[i][0].0 == k
              && Latest(RunEntries(runs), k).value == Collapse(Values(runs[i]))
              && forall j :: i < j < |runs| ==> runs[j][0].0 != k
  {
    var gp := RunEntries(runs);
    LatestSpec(gp, k);
    var v := Latest(gp, k).value;
    var i :| 0 <= i < |gp| && gp[i] == (k, v) && forall j :: i < j < |gp| ==> gp[j].0 != k;
    RunEntriesAt(runs);
    NoLaterRun(runs, i, k);
    assert runs[i][0].0 == k && v == Collapse(Values(runs[i]));
  }

  lemma NoLaterRun(runs: seq<seq<Pair>>, i: nat, k: string)
    requires forall i :: 0 <= i < |runs| ==> |runs[i]| > 0
    requires forall j :: i < j < |RunEntries(runs)| ==> RunEntries(runs)[j].0 != k
    ensures forall j :: i < j < |runs| ==> runs[j][0].0 != k
  {
    RunEntriesAt(runs);
  }

  // ----- examples -----

  /** `{"key":"value", "key":"value2"}` gives `{"key": ["value", "value2"]}`. */
  lemma AdjacentDuplicatesExample()
    ensures Hook([("key", Str("value")), ("key", Str("value2"))])
         == [("key", Arr([Str("value"), Str("value2")]))]
  {
    var ps := [("key", Str("value")), ("key", Str("value2"))];
    assert ps[1..] == [ps[1]] && [ps[1]][1..] == [];
    assert Runs([ps[1]]) == [[ps[1]]];
    assert Runs(ps[1..]) == [[ps[1]]];
    assert [ps[0]] + [ps[1]] == [ps[0], ps[1]];
    assert Runs(ps) == [[ps[0], ps[1]]];
    assert Values([ps[0], ps[1]]) == [Str("value"), Str("value2")];
    var gp := [("key", Arr([Str("value"), Str("value2")]))];
    assert RunEntries([[ps[0], ps[1]]]) == gp;
    assert Fill(Insert([], gp[0].0, gp[0].1), gp[1..]) == gp;
  }

  /** The pairs `K=1, J=x, K=2` of the next example. */
  function Interleaved(): seq<Pair>
  {
    [("K", Str("1")), ("J", Str("x")), ("K", Str("2"))]
  }

  /** No two neighbouring keys are equal, so every pair is a run of its own. */
  lemma InterleavedRuns()
    ensures Gpairs(Interleaved()) == Interleaved()
  {
    var ps := Interleaved();
    assert ps[1..] == [ps[1], ps[2]] && [ps[1], ps[2]][1..] == [ps[2]] && [ps[2]][1..] == [];
    assert Runs([ps[2]]) == [[ps[2]]];
    assert Runs([ps[1], ps[2]]) == [[ps[1]], [ps[2]]];
    assert Runs(ps) == [[ps[0]], [ps[1]], [ps[2]]];
    assert RunEntries([[ps[2]]]) == [ps[2]];
    assert RunEntries([[ps[1]], [ps[2]]]) == [ps[1], ps[2]];
  }

  /** Inserting the three pairs one by one overwrites `K` in its first place. */
  lemma InterleavedFill()
    ensures BuildDict(Interleaved()) == [("K", Str("2")), ("J", Str("x"))]
  {
    var ps := Interleaved();
    var d1 := Insert([], "K", Str("1"));
    assert d1 == [("K", Str("1"))];
    var d2 := Insert(d1, "J", Str("x"));
    assert d2 == [("K", Str("1")), ("J", Str("x"))];
    var d3 := Insert(d2, "K", Str("2"));
    assert d3 == [("K", Str("2")), ("J", Str("x"))];
    assert ps[2..][1..] == [];
    assert Fill(d2, ps[2..]) == d3;
    assert ps[1..][1..] == ps[2..];
    assert Fill(d1, ps[1..]) == d3;
  }

  /** `{"K":"1", "J":"x", "K":"2"}` gives `{"K": "2", "J": "x"}`: no merge across `J`. */
  lemma InterleavedDuplicatesExample()
    ensures Hook([("K", Str("1")), ("J", Str("x")), ("K", Str("2"))])
         == [("K", Str("2")), ("J", Str("x"))]
  {
    InterleavedRuns();
    InterleavedFill();
  }
}
