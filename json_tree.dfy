/**
 * The tree `json.loads` builds from the translated text. Every scalar
 * the translation writes is a quoted string, so a value is a string, an
 * object (an ordered list of key/value entries, as the pairs hook sees
 * it) or an array (made by the hook from a run of repeated keys).
 */
module JsonTree {

  datatype Option<T> = None | Some(value: T)

  datatype Node =
    | Str(s: string)
    | Obj(entries: seq<(string, Node)>)
    | Arr(items: seq<Node>)

  /** One step of a lookup path: a dictionary key or a list index. */
  datatype Step = Key(name: string) | Index(i: int)

  /** The keys of an entry list, in order. */
  function Keys(entries: seq<(string, Node)>): (ks: seq<string>)
    ensures |ks| == |entries|
    ensures forall i :: 0 <= i < |entries| ==> ks[i] == entries[i].0
  {
    if |entries| == 0 then [] else [entries[0].0] + Keys(entries[1..])
  }

  /** The value stored under `k`: the first entry holding that key. */
  function Find(entries: seq<(string, Node)>, k: string): (r: Option<Node>)
    ensures r.None? <==> k !in Keys(entries)
    ensures r.Some? ==> exists i :: 0 <= i < |entries| && entries[i] == (k, r.value)
  {
    if |entries| == 0 then None
    else if entries[0].0 == k then Some(entries[0].1)
    else Find(entries[1..], k)
  }
}
