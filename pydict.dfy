/**
 * The JSON values and insertion-ordered dictionaries the client receives from the API.
 * A decoded `properties` object is a Python dict: its keys are unique and it remembers the
 * order in which they were inserted, which is the order the output columns take.
 */
module PyDict {
  import opened Wrappers

  /** A JSON scalar as decoded by `json.loads`. */
  datatype Value = Str(s: string) | Int(i: int) | Null

  datatype Entry = Entry(key: string, value: Value)

  /** `list(d.keys())`: the keys in insertion order. */
  function Keys(d: seq<Entry>): (ks: seq<string>)
    ensures |ks| == |d|
  {
    if d == [] then [] else [d[0].key] + Keys(d[1..])
  }

  /** Key `i` is the key of entry `i`. */
  lemma {:induction false} KeysAt(d: seq<Entry>, i: nat)
    requires i < |d|
    ensures Keys(d)[i] == d[i].key
  {
    if i > 0 {
      KeysAt(d[1..], i - 1);
    }
  }

  /** No key occurs twice, as in every Python dict. */
  predicate UniqueKeys(d: seq<Entry>)
  {
    d == [] || (d[0].key !in Keys(d[1..]) && UniqueKeys(d[1..]))
  }

  type Dict = d: seq<Entry> | UniqueKeys(d) witness []

  /** `d.get(k)`: the value stored under `k`, if any. */
  function Get(d: Dict, k: string): (r: Option<Value>)
  {
    if d == [] then None
    else if d[0].key == k then Some(d[0].value)
    else Get(d[1..], k)
  }

  /** A key has a value exactly when it is one of the keys, and that value is the one stored
      under it. */
  lemma {:induction false} GetKeys(d: Dict, k: string)
    ensures Get(d, k).Some? <==> k in Keys(d)
    ensures Get(d, k).Some? ==> Entry(k, Get(d, k).value) in d
  {
    if d != [] && d[0].key != k {
      GetKeys(d[1..], k);
    }
  }

  /** `d.pop(k, None)` on a dict nobody else holds: the entry under `k` is gone, every other
      entry is kept, and nothing is added. */
  function Pop(d: Dict, k: string): (r: Dict)
    ensures forall j :: j in Keys(r) <==> j in Keys(d) && j != k
  {
    if d == [] then []
    else if d[0].key == k then d[1..]
    else [d[0]] + Pop(d[1..], k)
  }

  /** After `d.pop(k, None)`, looking up `k` finds nothing and looking up any other key finds
      what it found before; the dict shrinks by one exactly when `k` was present. */
  lemma {:induction false} PopGet(d: Dict, k: string, j: string)
    ensures Get(Pop(d, k), j) == if j == k then None else Get(d, j)
    ensures |Pop(d, k)| == if k in Keys(d) then |d| - 1 else |d|
  {
    if d != [] {
      if d[0].key == k {
        GetKeys(d[1..], k);
      } else {
        PopGet(d[1..], k, j);
      }
    }
  }
}
